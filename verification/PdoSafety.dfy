/** What the device sees of a PDO reconfiguration, after every event of every run. */
module PdoSafety {
  import opened Can
  import opened Bus
  import opened ObjDict
  import opened Pdo

  /** The configuration of one PDO apart from the "not valid" flag. */
  datatype Config = Config(cobId: u32, transmission: u32, inhibit: u32, event: u32, mapping: seq<u32>)

  predicate Valid(d: Dict, req: Request) { Get(d, CobEntry(req)) < NOT_VALID }

  function Setting(d: Dict, req: Request, sub: u8): u32 { Get(d, Entry(ComIndex(req), sub)) }

  function Mapping(d: Dict, req: Request): seq<u32>
  {
    var n := Get(d, CountEntry(req));
    seq(if n < 0xFF then n else 0xFF, i requires 0 <= i < 0xFF => Get(d, MapEntry(req, i)))
  }

  /** The configuration that the device holds for the PDO. */
  function Active(d: Dict, req: Request): Config
  {
    Config(Enabled(Get(d, CobEntry(req))), Setting(d, req, 2), Setting(d, req, 3), Setting(d, req, 5), Mapping(d, req))
  }

  /** The configuration that the caller asks for, given the one before. */
  function Requested(d: Dict, req: Request): Config
    requires ParamsOk(req)
  {
    Config(Enabled(Get(d, CobEntry(req))),
           if req.transmission >= 0 then req.transmission else Setting(d, req, 2),
           if req.inhibit >= 0 then req.inhibit else Setting(d, req, 3),
           if req.event >= 0 then req.event else Setting(d, req, 5),
           seq(|req.objs|, i requires 0 <= i < |req.objs| => MapWord(req.objs[i])))
  }

  /** The configuration that the writes of a run add up to: the inhibit time is cut to eight
      bits. */
  function Written(d: Dict, req: Request): Config
    requires ParamsOk(req)
  {
    var c := Requested(d, req);
    if req.inhibit >= 0 then c.(inhibit := c.inhibit % 0x100) else c
  }

  lemma WrittenIsRequested(d: Dict, req: Request)
    requires ParamsOk(req)
    ensures Written(d, req) == Requested(d, req) <==> req.inhibit <= 0xFF
    ensures req.inhibit >= 0 ==> (Written(d, req).inhibit == req.inhibit <==> req.inhibit <= 0xFF)
    ensures Written(d, req) == Requested(d, req).(inhibit := Written(d, req).inhibit)
  {
  }

  // ----- sequences of writes -----

  function ApplyPuts(d: Dict, ps: seq<Put>): Dict
    decreases |ps|
  {
    if ps == [] then d else ApplyPuts(d[ps[0].e := ps[0].v], ps[1..])
  }

  lemma {:induction false} ApplyConcat(d: Dict, ps: seq<Put>, qs: seq<Put>)
    ensures ApplyPuts(d, ps + qs) == ApplyPuts(ApplyPuts(d, ps), qs)
    decreases |ps|
  {
    if ps == [] {
      assert ps + qs == qs;
    } else {
      assert (ps + qs)[1..] == ps[1..] + qs;
      ApplyConcat(d[ps[0].e := ps[0].v], ps[1..], qs);
    }
  }

  lemma {:induction false} ApplyElsewhere(d: Dict, ps: seq<Put>, e: Entry)
    requires forall p | p in ps :: p.e != e
    ensures Get(ApplyPuts(d, ps), e) == Get(d, e)
    decreases |ps|
  {
    if ps != [] {
      assert ps[0] in ps;
      ApplyElsewhere(d[ps[0].e := ps[0].v], ps[1..], e);
    }
  }

  predicate Distinct(ps: seq<Put>)
  {
    forall i, j | 0 <= i < j < |ps| :: ps[i].e != ps[j].e
  }

  lemma {:induction false} ApplyDistinct(d: Dict, ps: seq<Put>, i: nat)
    requires Distinct(ps) && i < |ps|
    ensures Get(ApplyPuts(d, ps), ps[i].e) == ps[i].v
    decreases |ps|
  {
    var d1 := d[ps[0].e := ps[0].v];
    if i == 0 {
      ApplyElsewhere(d1, ps[1..], ps[0].e);
    } else {
      ApplyDistinct(d1, ps[1..], i - 1);
    }
  }

  lemma ApplyMember(d: Dict, ps: seq<Put>, p: Put)
    requires Distinct(ps) && p in ps
    ensures Get(ApplyPuts(d, ps), p.e) == p.v
  {
    var i :| 0 <= i < |ps| && ps[i] == p;
    ApplyDistinct(d, ps, i);
  }

  /** What pairwise different writes leave in the dictionary. */
  lemma ApplyEach(d: Dict, ps: seq<Put>)
    requires Distinct(ps)
    ensures forall p | p in ps :: Get(ApplyPuts(d, ps), p.e) == p.v
    ensures forall e | (forall p | p in ps :: p.e != e) :: Get(ApplyPuts(d, ps), e) == Get(d, e)
  {
    forall p | p in ps
      ensures Get(ApplyPuts(d, ps), p.e) == p.v
    {
      ApplyMember(d, ps, p);
    }
    forall e | forall p | p in ps :: p.e != e
      ensures Get(ApplyPuts(d, ps), e) == Get(d, e)
    {
      ApplyElsewhere(d, ps, e);
    }
  }

  lemma ApplyOne(d: Dict, p: Put)
    ensures ApplyPuts(d, [p]) == d[p.e := p.v]
  {
  }

  // ----- runs apply prefixes of the plan -----

  /** The number of writes that took effect. */
  function Effects(log: seq<Event>): nat
    decreases |log|
  {
    if log == [] then 0
    else (if log[0].Write? && Applied(log[0].out) then 1 else 0) + Effects(log[1..])
  }

  /** The event of the first write. */
  function FirstPut(env: Env, l: Line, ps: seq<Put>): Event
    requires ps != []
  {
    Write(ps[0].e, ps[0].v, env.out(l.log, AskWrite(ps[0].e, ps[0].v)))
  }

  /** A run only adds writes to the log, it stops at the first that fails for the client, and the
      device is what the new events made of it. */
  lemma {:induction false} RunGrows(env: Env, l: Line, ps: seq<Put>)
    ensures var (r, l') := RunPuts(env, l, ps);
            && Grown(env, l, l') && Prompt(Since(l, l'))
            && (forall ev | ev in Since(l, l') :: ev.Write? && Put(ev.e, ev.v) in ps)
            && (r == Ok ==> AllSucceeded(Since(l, l')))
    decreases |ps|
  {
    hide Grown, Prompt, AllSucceeded, Since;
    EventsEnd();
    if ps == [] {
      GrownRefl(env, l);
    } else {
      var ev := FirstPut(env, l, ps);
      var l1, l' := Step(l, ev), RunPuts(env, l, ps).1;
      GrownStep(env, l, ev);
      OneEvent(ev);
      assert Put(ev.e, ev.v) == ps[0];
      if Succeeded(ev) {
        RunGrows(env, l1, ps[1..]);
        assert forall p | p in ps[1..] :: p in ps;
        GrownTrans(env, l, l1, l');
        PromptJoin([ev], Since(l1, l'));
      }
    }
  }

  lemma EventsEnd()
    ensures Prompt([]) && AllSucceeded([])
  {
  }

  lemma OneEvent(ev: Event)
    ensures Prompt([ev]) && (Succeeded(ev) ==> AllSucceeded([ev]))
  {
  }

  /** The events of a run, taken apart at the first write. */
  lemma RunSplits(env: Env, l: Line, ps: seq<Put>)
    requires ps != []
    ensures var ev := FirstPut(env, l, ps);
            var l1 := Step(l, ev);
            Since(l, RunPuts(env, l, ps).1)
            == [ev] + if Succeeded(ev) then Since(l1, RunPuts(env, l1, ps[1..]).1) else []
  {
    hide Grown;
    var ev := FirstPut(env, l, ps);
    var l1, l' := Step(l, ev), RunPuts(env, l, ps).1;
    GrownStep(env, l, ev);
    if Succeeded(ev) {
      RunGrows(env, l1, ps[1..]);
      GrownTrans(env, l, l1, l');
    } else {
      assert [ev] + [] == [ev];
    }
  }

  /** After any number of truthful events the device has taken in a prefix of the writes, and a
      write event carries the next one; an acknowledged run has taken in all of them. */
  lemma {:induction false} RunTakesPrefix(env: Env, l: Line, ps: seq<Put>, k: nat)
    requires k <= |Since(l, RunPuts(env, l, ps).1)|
    requires Truthful(Since(l, RunPuts(env, l, ps).1)[..k])
    ensures var (r, l') := RunPuts(env, l, ps);
            var evs := Since(l, l');
            var n := Effects(evs[..k]);
            && n <= |ps|
            && Replay(l.dev, evs[..k]).dict == ApplyPuts(l.dev.dict, ps[..n])
            && (k < |evs| ==> n < |ps| && evs[k] == Write(ps[n].e, ps[n].v, evs[k].out))
            && (r == Ok && k == |evs| ==> n == |ps|)
    decreases |ps|
  {
    hide Effects, Replay, ApplyPuts, Truthful, Since;
    var (r, l') := RunPuts(env, l, ps);
    var evs := Since(l, l');
    AtStart(l.dev, ps);
    assert evs[..0] == [];
    if ps == [] {
      SinceSelf(l);
    } else {
      var ev := FirstPut(env, l, ps);
      var l1 := Step(l, ev);
      RunSplits(env, l, ps);
      if k > 0 {
        var later := if Succeeded(ev) then Since(l1, l')[..k - 1] else [];
        assert evs[..k] == [ev] + later;
        TruthfulParts(ev, later);
        AfterFirst(l.dev, ev, later, ps);
        if Succeeded(ev) {
          RunTakesPrefix(env, l1, ps[1..], k - 1);
        } else {
          AtStart(Apply(l.dev, ev), ps[1..]);
        }
      }
    }
  }

  lemma SinceSelf(l: Line)
    ensures Since(l, l) == []
  {
  }

  lemma AtStart(dev: Device, ps: seq<Put>)
    ensures Effects([]) == 0 && Replay(dev, []) == dev && ApplyPuts(dev.dict, ps[..0]) == dev.dict
  {
  }

  /** Unfolding the counts and states at a first write. */
  lemma AfterFirst(dev: Device, ev: Event, later: seq<Event>, ps: seq<Put>)
    requires ps != [] && ev == Write(ps[0].e, ps[0].v, ev.out)
    ensures var n := Effects(later);
            && Effects([ev] + later) == (if Applied(ev.out) then 1 else 0) + n
            && Replay(dev, [ev] + later) == Replay(Apply(dev, ev), later)
            && (n < |ps| ==> ApplyPuts(dev.dict, ps[..n + 1]) == ApplyPuts(dev.dict[ps[0].e := ps[0].v], ps[1..][..n]))
  {
    assert ([ev] + later)[1..] == later;
    var n := Effects(later);
    if n < |ps| {
      assert ps[..n + 1][1..] == ps[1..][..n];
    }
  }

  // ----- the prefixes of the plan -----

  function BodyPuts(req: Request): seq<Put>
    requires ParamsOk(req) && |req.objs| < 0xFF
  {
    MapPuts(req) + (if Complete(req) then OptionPuts(req) else [])
  }

  /** The plan for the COB-ID that the device holds. */
  function PlanFor(d: Dict, req: Request): seq<Put>
    requires ParamsOk(req) && |req.objs| < 0xFF
  {
    Plan(req, Get(d, CobEntry(req)))
  }

  /** The device after the first n writes of the plan. */
  function AfterPuts(d: Dict, req: Request, n: nat): Dict
    requires ParamsOk(req) && |req.objs| < 0xFF && n <= |PlanFor(d, req)|
  {
    ApplyPuts(d, PlanFor(d, req)[..n])
  }

  function HeadLen(d: Dict, req: Request): nat { if Valid(d, req) then 2 else 1 }

  lemma PlanParts(d: Dict, req: Request)
    requires ParamsOk(req) && |req.objs| < 0xFF
    ensures var comm := Get(d, CobEntry(req));
            && |HeadPuts(req, comm)| == HeadLen(d, req)
            && PlanFor(d, req) == HeadPuts(req, comm)
                                  + (BodyPuts(req) + (if Complete(req) then TailPuts(req, comm) else []))
  {
  }

  lemma OptionEntries(req: Request)
    requires ParamsOk(req)
    ensures forall p | p in OptionPuts(req) :: p.e.index == ComIndex(req) && p.e.sub >= 2
    ensures Distinct(OptionPuts(req))
  {
  }

  /** The body writes map entries and options, each at most once; with the two writes of the
      tail the entries are still pairwise different. */
  lemma BodyEntries(req: Request, comm: u32)
    requires ParamsOk(req) && |req.objs| < 0xFF
    ensures forall p | p in BodyPuts(req) :: p.e != CobEntry(req) && p.e != CountEntry(req)
              && (p.e.index == MapIndex(req) || (p.e.index == ComIndex(req) && p.e.sub >= 2))
    ensures Distinct(BodyPuts(req) + TailPuts(req, comm))
  {
    hide OptionPuts;
    OptionEntries(req);
    var b, m := BodyPuts(req), |MapPuts(req)|;
    assert forall i | 0 <= i < |b| :: if i < m then b[i] == MapPuts(req)[i] else b[i] == OptionPuts(req)[i - m];
    assert Distinct(b);
  }

  /** The head disables a valid PDO, zeroes the count, and does nothing else. */
  lemma HeadState(d: Dict, req: Request)
    requires ParamsOk(req) && |req.objs| < 0xFF
    ensures var comm := Get(d, CobEntry(req));
            var h := ApplyPuts(d, HeadPuts(req, comm));
            && Get(h, CobEntry(req)) == Disabled(comm) && Get(h, CountEntry(req)) == 0
            && (forall e | e != CobEntry(req) && e != CountEntry(req) :: Get(h, e) == Get(d, e))
  {
    var comm := Get(d, CobEntry(req));
    var p, q := Put(CobEntry(req), Disabled(comm)), Put(CountEntry(req), 0);
    ApplyOne(d, p);
    ApplyOne(d, q);
    ApplyOne(ApplyPuts(d, [p]), q);
    ApplyConcat(d, [p], [q]);
  }

  /** A prefix that reaches into the body is the head state with some body and tail writes. */
  lemma AfterHead(d: Dict, req: Request, n: nat)
    requires ParamsOk(req) && |req.objs| < 0xFF && HeadLen(d, req) <= n <= |PlanFor(d, req)|
    ensures var comm := Get(d, CobEntry(req));
            var rest := BodyPuts(req) + (if Complete(req) then TailPuts(req, comm) else []);
            AfterPuts(d, req, n) == ApplyPuts(ApplyPuts(d, HeadPuts(req, comm)), rest[..n - HeadLen(d, req)])
  {
    var comm := Get(d, CobEntry(req));
    var head := HeadPuts(req, comm);
    var rest := BodyPuts(req) + (if Complete(req) then TailPuts(req, comm) else []);
    PlanParts(d, req);
    assert PlanFor(d, req)[..n] == head + rest[..n - |head|];
    ApplyConcat(d, head, rest[..n - |head|]);
  }

  /** After the first write and before the last, the PDO is disabled. */
  lemma DisabledInside(d: Dict, req: Request, n: nat)
    requires ParamsOk(req) && |req.objs| < 0xFF && n <= |PlanFor(d, req)|
    requires n > 0 || !Valid(d, req)
    requires n < |PlanFor(d, req)| || !Complete(req)
    ensures Get(AfterPuts(d, req, n), CobEntry(req)) == Disabled(Get(d, CobEntry(req)))
  {
    hide OptionPuts, MapPuts, HeadPuts, Plan, BodyPuts;
    var comm, h := Get(d, CobEntry(req)), HeadLen(d, req);
    PlanParts(d, req);
    if h <= n {
      var rest := BodyPuts(req) + (if Complete(req) then TailPuts(req, comm) else []);
      AfterHead(d, req, n);
      HeadState(d, req);
      RestAvoidsCob(req, comm, n - h);
      ApplyElsewhere(ApplyPuts(d, HeadPuts(req, comm)), rest[..n - h], CobEntry(req));
    } else if n == 1 {
      FirstDisables(d, req);
    } else {
      NothingApplied(d, req);
    }
  }

  lemma FirstDisables(d: Dict, req: Request)
    requires ParamsOk(req) && |req.objs| < 0xFF && Valid(d, req)
    ensures |PlanFor(d, req)| >= 1
    ensures Get(AfterPuts(d, req, 1), CobEntry(req)) == Disabled(Get(d, CobEntry(req)))
  {
    var p := Put(CobEntry(req), Disabled(Get(d, CobEntry(req))));
    ApplyOne(d, p);
    assert PlanFor(d, req)[..1] == [p];
  }

  /** Of the writes after the head only the very last one is to the COB-ID. */
  lemma RestAvoidsCob(req: Request, comm: u32, m: nat)
    requires ParamsOk(req) && |req.objs| < 0xFF
    requires var rest := BodyPuts(req) + (if Complete(req) then TailPuts(req, comm) else []);
             m <= |rest| && (m < |rest| || !Complete(req))
    ensures var rest := BodyPuts(req) + (if Complete(req) then TailPuts(req, comm) else []);
            forall p | p in rest[..m] :: p.e != CobEntry(req)
  {
    hide BodyPuts;
    BodyEntries(req, comm);
    var b := BodyPuts(req);
    var rest := b + (if Complete(req) then TailPuts(req, comm) else []);
    forall p | p in rest[..m]
      ensures p.e != CobEntry(req)
    {
      var i :| 0 <= i < m && rest[i] == p;
      if i < |b| {
        assert p == b[i];
      } else {
        assert p == Put(CountEntry(req), |req.objs|);
      }
    }
  }

  /** While the body is written the count is zero. */
  lemma CountZeroInside(d: Dict, req: Request, n: nat)
    requires ParamsOk(req) && |req.objs| < 0xFF && n <= |PlanFor(d, req)|
    requires HeadLen(d, req) <= n <= HeadLen(d, req) + |BodyPuts(req)|
    ensures Get(AfterPuts(d, req, n), CountEntry(req)) == 0
  {
    hide OptionPuts, MapPuts, HeadPuts, TailPuts;
    var comm, b := Get(d, CobEntry(req)), BodyPuts(req);
    var rest := b + (if Complete(req) then TailPuts(req, comm) else []);
    AfterHead(d, req, n);
    HeadState(d, req);
    BodyEntries(req, comm);
    assert rest[..n - HeadLen(d, req)] == b[..n - HeadLen(d, req)];
    ApplyElsewhere(ApplyPuts(d, HeadPuts(req, comm)), b[..n - HeadLen(d, req)], CountEntry(req));
  }

  /** After the whole plan of a complete request, every entry that the body and the tail
      write holds the value written, and every other entry but the two of the head its old one. */
  lemma FinalEntries(d: Dict, req: Request)
    requires ParamsOk(req) && |req.objs| < 0xFF && Complete(req)
    ensures var rest := BodyPuts(req) + TailPuts(req, Get(d, CobEntry(req)));
            var d' := AfterPuts(d, req, |PlanFor(d, req)|);
            && (forall p | p in rest :: Get(d', p.e) == p.v)
            && (forall e | e != CobEntry(req) && e != CountEntry(req) && (forall p | p in rest :: p.e != e)
                  :: Get(d', e) == Get(d, e))
  {
    hide OptionPuts, HeadPuts, BodyPuts, TailPuts, ApplyPuts, Distinct;
    var comm := Get(d, CobEntry(req));
    var d1 := ApplyPuts(d, HeadPuts(req, comm));
    var rest := BodyPuts(req) + TailPuts(req, comm);
    PlanParts(d, req);
    AfterHead(d, req, |PlanFor(d, req)|);
    assert rest[..|PlanFor(d, req)| - HeadLen(d, req)] == rest;
    HeadState(d, req);
    BodyEntries(req, comm);
    ApplyEach(d1, rest);
  }

  /** An option is written exactly when its parameter is not negative. */
  lemma OptionWritten(req: Request, comm: u32, sub: u8, v: int)
    requires ParamsOk(req) && |req.objs| < 0xFF && Complete(req)
    requires (sub == 2 && v == req.transmission)
             || (sub == 3 && v == if req.inhibit >= 0 then req.inhibit % 0x100 else -1)
             || (sub == 5 && v == req.event)
    ensures var rest := BodyPuts(req) + TailPuts(req, comm);
            if v >= 0 then Put(Entry(ComIndex(req), sub), v) in rest
            else forall p | p in rest :: p.e != Entry(ComIndex(req), sub)
  {
  }

  lemma FinalMapping(d: Dict, req: Request)
    requires ParamsOk(req) && |req.objs| < 0xFF && Complete(req)
    ensures Mapping(AfterPuts(d, req, |PlanFor(d, req)|), req) == Requested(d, req).mapping
  {
    hide OptionPuts, AfterPuts, Plan;
    var rest := BodyPuts(req) + TailPuts(req, Get(d, CobEntry(req)));
    var d' := AfterPuts(d, req, |PlanFor(d, req)|);
    FinalEntries(d, req);
    assert Put(CountEntry(req), |req.objs|) in rest;
    forall i | 0 <= i < |req.objs|
      ensures Get(d', MapEntry(req, i)) == MapWord(req.objs[i])
    {
      assert MapPuts(req)[i] in rest;
    }
  }

  lemma FinalOption(d: Dict, req: Request, sub: u8, v: int)
    requires ParamsOk(req) && |req.objs| < 0xFF && Complete(req)
    requires (sub == 2 && v == req.transmission)
             || (sub == 3 && v == if req.inhibit >= 0 then req.inhibit % 0x100 else -1)
             || (sub == 5 && v == req.event)
    ensures Setting(AfterPuts(d, req, |PlanFor(d, req)|), req, sub) == if v >= 0 then v else Setting(d, req, sub)
  {
    hide OptionPuts, AfterPuts, Plan;
    FinalEntries(d, req);
    OptionWritten(req, Get(d, CobEntry(req)), sub, v);
  }

  lemma FinalCob(d: Dict, req: Request)
    requires ParamsOk(req) && |req.objs| < 0xFF && Complete(req)
    ensures Get(AfterPuts(d, req, |PlanFor(d, req)|), CobEntry(req)) == Enabled(Get(d, CobEntry(req)))
  {
    hide OptionPuts, AfterPuts, Plan;
    var comm := Get(d, CobEntry(req));
    FinalEntries(d, req);
    assert Put(CobEntry(req), Enabled(comm)) in BodyPuts(req) + TailPuts(req, comm);
  }

  /** The whole plan of a complete request makes the device hold the written configuration. */
  lemma WholePlan(d: Dict, req: Request)
    requires ParamsOk(req) && |req.objs| < 0xFF && Complete(req)
    ensures var d' := AfterPuts(d, req, |PlanFor(d, req)|);
            Valid(d', req) && Active(d', req) == Written(d, req)
  {
    hide AfterPuts, Plan, Mapping, Setting;
    FinalCob(d, req);
    FinalMapping(d, req);
    FinalOption(d, req, 2, req.transmission);
    FinalOption(d, req, 3, if req.inhibit >= 0 then req.inhibit % 0x100 else -1);
    FinalOption(d, req, 5, req.event);
  }

  /** Atomicity over the writes: the PDO is valid exactly before the first write, if it was,
      and after the last write of a complete request. */
  lemma ValidExactlyAtEnds(d: Dict, req: Request, n: nat)
    requires ParamsOk(req) && |req.objs| < 0xFF && n <= |PlanFor(d, req)|
    ensures Valid(AfterPuts(d, req, n), req)
            <==> (n == 0 && Valid(d, req)) || (n == |PlanFor(d, req)| && Complete(req))
  {
    PlanParts(d, req);
    if n == |PlanFor(d, req)| && Complete(req) {
      WholePlan(d, req);
    } else if n > 0 || !Valid(d, req) {
      DisabledInside(d, req, n);
    }
  }

  // ----- whole runs of canmat_pdo_remap -----

  /** The events of a run. */
  function Events(env: Env, l: Line, req: Request): seq<Event>
    requires |req.objs| < 0xFF
  {
    Since(l, Remap(env, l, req).1)
  }

  /** The dictionary of the device after the first k events of a run. */
  function Seen(env: Env, l: Line, req: Request, k: nat): Dict
    requires |req.objs| < 0xFF && k <= |Events(env, l, req)|
  {
    Replay(l.dev, Events(env, l, req)[..k]).dict
  }

  /** The plan of a run whose upload of the COB-ID has the outcome `out`. */
  function PlanHeard(out: Outcome, d: Dict, req: Request): seq<Put>
    requires ParamsOk(req) && |req.objs| < 0xFF
  {
    Plan(req, Heard(out, Get(d, CobEntry(req))))
  }

  /** The upload of the COB-ID. */
  function FirstRead(env: Env, l: Line, req: Request): Event
  {
    Read(CobEntry(req), env.out(l.log, AskRead(CobEntry(req))))
  }

  /** The events of a run, taken apart at the upload. */
  lemma RemapSplits(env: Env, l: Line, req: Request)
    requires |req.objs| < 0xFF && ParamsOk(req)
    ensures var read := FirstRead(env, l, req);
            var l1 := Step(l, read);
            var (r, l') := RunPuts(env, l1, PlanHeard(read.out, l.dev.dict, req));
            && Events(env, l, req) == [read] + (if Succeeded(read) then Since(l1, l') else [])
            && Remap(env, l, req).1 == (if Succeeded(read) then l' else l1)
            && (Remap(env, l, req).0 == Ok ==> Succeeded(read) && r == Ok && Complete(req))
  {
    hide Plan, RunPuts, Grown;
    var read := FirstRead(env, l, req);
    var l1 := Step(l, read);
    var plan := PlanHeard(read.out, l.dev.dict, req);
    GrownStep(env, l, read);
    assert [read] + [] == [read];
    if Succeeded(read) {
      RunGrows(env, l1, plan);
      GrownTrans(env, l, l1, RunPuts(env, l1, plan).1);
    }
  }

  /** The events of a run are uploads and downloads, all successful for the client but perhaps
      the last, and the device is what they made of it. */
  lemma RemapGrows(env: Env, l: Line, req: Request)
    requires |req.objs| < 0xFF
    ensures var evs := Events(env, l, req);
            var (r, l') := Remap(env, l, req);
            && Grown(env, l, l') && Prompt(evs)
            && (r == Ok ==> AllSucceeded(evs))
            && (forall ev | ev in evs :: ev.Read? || (ev.Write? && Fits(ev.e, ev.v)))
  {
    hide Plan, RunPuts, Remap, Grown, Prompt, AllSucceeded, Since;
    EventsEnd();
    if ParamsOk(req) {
      var read := FirstRead(env, l, req);
      var l1 := Step(l, read);
      RemapSplits(env, l, req);
      GrownStep(env, l, read);
      OneEvent(read);
      if Succeeded(read) {
        var plan := PlanHeard(read.out, l.dev.dict, req);
        var l2 := RunPuts(env, l1, plan).1;
        RunGrows(env, l1, plan);
        PlanFits(req, Heard(read.out, Get(l.dev.dict, CobEntry(req))));
        GrownTrans(env, l, l1, l2);
        PromptJoin([read], Since(l1, l2));
      } else {
        assert [read] + [] == [read];
      }
    } else {
      RemapRefused(env, l, req);
      GrownRefl(env, l);
    }
  }

  /** Every write of a plan is of the width of its entry. */
  lemma PlanFits(req: Request, comm: u32)
    requires ParamsOk(req) && |req.objs| < 0xFF
    ensures forall p | p in Plan(req, comm) :: Fits(p.e, p.v)
  {
    hide OptionPuts, MapWord, Fits;
    PartsFit(req, comm);
    forall p | p in Plan(req, comm)
      ensures Fits(p.e, p.v)
    {
      assert p in HeadPuts(req, comm) || p in MapPuts(req) || p in OptionPuts(req) || p in TailPuts(req, comm);
    }
  }

  lemma PartsFit(req: Request, comm: u32)
    requires ParamsOk(req) && |req.objs| < 0xFF
    ensures forall p | p in HeadPuts(req, comm) :: Fits(p.e, p.v)
    ensures forall p | p in MapPuts(req) :: Fits(p.e, p.v)
    ensures forall p | p in OptionPuts(req) :: Fits(p.e, p.v)
    ensures forall p | p in TailPuts(req, comm) :: Fits(p.e, p.v)
  {
  }

  lemma RemapRefused(env: Env, l: Line, req: Request)
    requires |req.objs| < 0xFF && !ParamsOk(req)
    ensures Remap(env, l, req) == (ErrParam, l) && Events(env, l, req) == []
  {
  }

  /** After k truthful events the device has taken in a prefix of the plan, as long as the number
      of writes that took effect; the next write is the next of the plan. */
  lemma RemapTakesPrefix(env: Env, l: Line, req: Request, k: nat)
    requires |req.objs| < 0xFF && ParamsOk(req) && k <= |Events(env, l, req)|
    requires Truthful(Events(env, l, req)[..k])
    ensures var evs := Events(env, l, req);
            var n := Effects(evs[..k]);
            var plan := PlanFor(l.dev.dict, req);
            && n <= |plan|
            && Seen(env, l, req, k) == AfterPuts(l.dev.dict, req, n)
            && (k < |evs| && evs[k].Write? ==> n < |plan| && evs[k].e == plan[n].e && evs[k].v == plan[n].v)
            && (Remap(env, l, req).0 == Ok && k == |evs| ==> n == |plan| && Complete(req))
  {
    hide Plan, RunPuts, Replay, Effects, ApplyPuts, Truthful, Remap, Since;
    var read := FirstRead(env, l, req);
    var l1 := Step(l, read);
    var evs, plan := Events(env, l, req), PlanFor(l.dev.dict, req);
    RemapSplits(env, l, req);
    AtStart(l.dev, plan);
    assert evs[..0] == [];
    if k > 0 {
      var later := if Succeeded(read) then Since(l1, RunPuts(env, l1, PlanHeard(read.out, l.dev.dict, req)).1) else [];
      var front := if Succeeded(read) then later[..k - 1] else [];
      assert evs[..k] == [read] + front;
      TruthfulParts(read, front);
      AfterRead(l.dev, read, front);
      if Succeeded(read) {
        RunTakesPrefix(env, l1, plan, k - 1);
      }
    }
  }

  /** A read leaves no trace in the device. */
  lemma AfterRead(dev: Device, read: Event, later: seq<Event>)
    requires read.Read?
    ensures Effects([read] + later) == Effects(later) && Replay(dev, [read] + later) == Replay(dev, later)
  {
  }

  /** Atomicity: after any number of events of any run, with any transfer refused or left
      unacknowledged but none answered by an older answer, a PDO that is valid holds the old
      configuration or the whole new one; and it is valid exactly if no write took effect and it
      was valid before, or if all writes of a complete request took effect.  The new
      configuration is the requested one exactly if the inhibit time fits in eight bits. */
  lemma RemapAtomic(env: Env, l: Line, req: Request, k: nat)
    requires |req.objs| < 0xFF && k <= |Events(env, l, req)|
    requires Truthful(Events(env, l, req)[..k])
    ensures !ParamsOk(req) ==> Events(env, l, req) == []
    ensures ParamsOk(req) ==>
              var d := Seen(env, l, req, k);
              var n := Effects(Events(env, l, req)[..k]);
              && (Valid(d, req) ==> Active(d, req) == Active(l.dev.dict, req)
                                    || (Complete(req) && Active(d, req) == Written(l.dev.dict, req)))
              && (Valid(d, req) <==> (n == 0 && Valid(l.dev.dict, req))
                                     || (n == |PlanFor(l.dev.dict, req)| && Complete(req)))
              && (Valid(d, req) && n > 0 ==>
                    (Active(d, req) == Requested(l.dev.dict, req) <==> req.inhibit <= 0xFF))
  {
    hide Plan, AfterPuts, Active, Seen, Written, Requested;
    if ParamsOk(req) {
      RemapTakesPrefix(env, l, req, k);
      var d, n := l.dev.dict, Effects(Events(env, l, req)[..k]);
      ValidExactlyAtEnds(d, req, n);
      WrittenIsRequested(d, req);
      if n == 0 {
        NothingApplied(d, req);
      } else if Complete(req) {
        WholePlan(d, req);
      }
    }
  }

  lemma NothingApplied(d: Dict, req: Request)
    requires |req.objs| < 0xFF && ParamsOk(req)
    ensures AfterPuts(d, req, 0) == d
  {
  }

  /** A run that reports success, none of its answers mistaken, leaves the PDO valid with the new
      configuration, the COB-ID bits below 31 included, and every entry of other indices as it
      was; the new configuration is the requested one exactly if the inhibit time fits in eight
      bits. */
  lemma RemapSuccess(env: Env, l: Line, req: Request)
    requires |req.objs| < 0xFF && Remap(env, l, req).0 == Ok && Truthful(Events(env, l, req))
    ensures ParamsOk(req) && Complete(req)
    ensures var d := Remap(env, l, req).1.dev.dict;
            && Valid(d, req) && Active(d, req) == Written(l.dev.dict, req)
            && (Active(d, req) == Requested(l.dev.dict, req) <==> req.inhibit <= 0xFF)
            && (forall e: Entry | e.index != ComIndex(req) && e.index != MapIndex(req) ::
                  Get(d, e) == Get(l.dev.dict, e))
  {
    hide Plan, AfterPuts, Active, RunPuts, Written, Requested;
    var evs := Events(env, l, req);
    RemapGrows(env, l, req);
    assert evs[..|evs|] == evs;
    RemapTakesPrefix(env, l, req, |evs|);
    WholePlan(l.dev.dict, req);
    WrittenIsRequested(l.dev.dict, req);
    forall e: Entry | e.index != ComIndex(req) && e.index != MapIndex(req)
      ensures Get(Remap(env, l, req).1.dev.dict, e) == Get(l.dev.dict, e)
    {
      OtherIndices(l.dev.dict, req, |PlanFor(l.dev.dict, req)|, e);
    }
  }

  /** After a successful run the device holds the inhibit time of the call exactly if that fits in
      eight bits. */
  lemma InhibitTimeKept(env: Env, l: Line, req: Request)
    requires |req.objs| < 0xFF && Remap(env, l, req).0 == Ok && Truthful(Events(env, l, req))
    requires req.inhibit >= 0
    ensures Setting(Remap(env, l, req).1.dev.dict, req, 3) == req.inhibit <==> req.inhibit <= 0xFF
  {
    hide Remap, Mapping, Requested;
    RemapSuccess(env, l, req);
    WrittenIsRequested(l.dev.dict, req);
    assert Active(Remap(env, l, req).1.dev.dict, req).inhibit == Setting(Remap(env, l, req).1.dev.dict, req, 3);
  }

  /** No prefix of the plan touches another index. */
  lemma OtherIndices(d: Dict, req: Request, n: nat, e: Entry)
    requires ParamsOk(req) && |req.objs| < 0xFF && n <= |PlanFor(d, req)|
    requires e.index != ComIndex(req) && e.index != MapIndex(req)
    ensures Get(AfterPuts(d, req, n), e) == Get(d, e)
  {
    PlanIndices(d, req);
    forall p | p in PlanFor(d, req)[..n]
      ensures p.e != e
    {
      assert p in PlanFor(d, req);
    }
    ApplyElsewhere(d, PlanFor(d, req)[..n], e);
  }

  lemma PlanIndices(d: Dict, req: Request)
    requires ParamsOk(req) && |req.objs| < 0xFF
    ensures forall p | p in PlanFor(d, req) :: p.e.index == ComIndex(req) || p.e.index == MapIndex(req)
  {
    hide OptionPuts;
    var comm := Get(d, CobEntry(req));
    PlanParts(d, req);
    BodyEntries(req, comm);
    var rest := if Complete(req) then TailPuts(req, comm) else [];
    forall p | p in PlanFor(d, req)
      ensures p.e.index == ComIndex(req) || p.e.index == MapIndex(req)
    {
      assert p in HeadPuts(req, comm) || p in BodyPuts(req) || p in rest;
    }
  }

  /** What sections 7.5.2.36 and 7.5.2.38 of CiA 301 let a client write in a state of the
      server: map entries only while the PDO is not valid and the count is zero, the count and
      the options only while it is not valid, and in the COB-ID only bit 31. */
  predicate Permitted(d: Dict, req: Request, p: Put)
  {
    && (p.e.index == MapIndex(req) || p.e.index == ComIndex(req))
    && (p.e.index == MapIndex(req) ==> !Valid(d, req))
    && (p.e.index == MapIndex(req) && p.e.sub > 0 ==> Get(d, CountEntry(req)) == 0)
    && (p.e.index == ComIndex(req) && p.e.sub != 1 ==> !Valid(d, req))
    && (p.e == CobEntry(req) ==> Enabled(p.v) == Enabled(Get(d, CobEntry(req))))
  }

  lemma PlanPermitted(d: Dict, req: Request, n: nat)
    requires ParamsOk(req) && |req.objs| < 0xFF && n < |PlanFor(d, req)|
    ensures Permitted(AfterPuts(d, req, n), req, PlanFor(d, req)[n])
  {
    hide OptionPuts, MapPuts, AfterPuts, Plan;
    var comm, h, b := Get(d, CobEntry(req)), HeadLen(d, req), BodyPuts(req);
    var p := PlanFor(d, req)[n];
    PlanParts(d, req);
    if n > 0 || !Valid(d, req) {
      DisabledInside(d, req, n);
    } else {
      NothingApplied(d, req);
    }
    if h <= n < h + |b| {
      BodyEntries(req, comm);
      CountZeroInside(d, req, n);
      assert p == b[n - h] && p in b;
    } else {
      assert p == Put(CobEntry(req), Disabled(comm)) || p == Put(CobEntry(req), Enabled(comm))
             || p.e == CountEntry(req);
    }
  }

  /** No run breaks the ordering rules of the server, as long as no answer is mistaken. */
  lemma RemapOrdered(env: Env, l: Line, req: Request, k: nat)
    requires |req.objs| < 0xFF && ParamsOk(req) && k < |Events(env, l, req)|
    requires Events(env, l, req)[k].Write? && Truthful(Events(env, l, req)[..k])
    ensures var ev := Events(env, l, req)[k];
            Permitted(Seen(env, l, req, k), req, Put(ev.e, ev.v))
  {
    hide Plan, AfterPuts, Seen, Permitted;
    RemapTakesPrefix(env, l, req, k);
    PlanPermitted(l.dev.dict, req, Effects(Events(env, l, req)[..k]));
  }
}
