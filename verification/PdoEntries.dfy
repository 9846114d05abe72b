/** PDO reconfiguration in the entries of the object dictionary (sections 7.5.2.35 to 7.5.2.38 of
    CiA 301), with their numbers. */
module PdoEntries {
  import opened Can
  import opened SdoCodec
  import opened Bus
  import opened ObjDict
  import opened Pdo
  import opened PdoSafety

  /** The bits of a type that can be mapped. */
  function Bits(t: DataType): int
  {
    match t
    case Integer8 | Unsigned8 => 8
    case Integer16 | Unsigned16 => 16
    case Integer32 | Unsigned32 => 32
    case _ => 0
  }

  /** From d to d' the PDO with the two records was given what the request asks for: the flag in bit 31
      of the COB-ID is cleared and the other bits kept, the options that are not negative are set, the
      inhibit time in its low eight bits, the objects are mapped in order, and no other entry of the
      dictionary has changed. */
  ghost predicate Remapped(d: Dict, d': Dict, com: CommIndex, words: CommIndex, req: Request)
    requires |req.objs| < 0xFF
  {
    && Get(d', Entry(com, 1)) == Get(d, Entry(com, 1)) % 0x8000_0000
    && Get(d', Entry(com, 2)) == (if req.transmission >= 0 then req.transmission else Get(d, Entry(com, 2)))
    && Get(d', Entry(com, 3)) == (if req.inhibit >= 0 then req.inhibit % 0x100 else Get(d, Entry(com, 3)))
    && Get(d', Entry(com, 5)) == (if req.event >= 0 then req.event else Get(d, Entry(com, 5)))
    && Get(d', Entry(words, 0)) == |req.objs|
    && (forall i | 0 <= i < |req.objs| ::
          var o := req.objs[i];
          Bits(o.dtype) > 0
          && Get(d', Entry(words, i + 1)) == 0x1_0000 * o.index + 0x100 * o.subindex + Bits(o.dtype))
    && Others(d, d', com, words, |req.objs|)
  }

  /** All entries but the four of the record and the first n of the mapping are as they were. */
  ghost predicate Others(d: Dict, d': Dict, com: CommIndex, words: CommIndex, n: nat)
  {
    forall e: Entry |
      && !(e.index == com && (e.sub == 1 || e.sub == 2 || e.sub == 3 || e.sub == 5))
      && !(e.index == words && e.sub <= n) :: Get(d', e) == Get(d, e)
  }

  // ----- what a run leaves -----

  /** The entries that the plan writes. */
  lemma PlanEntries(d: Dict, req: Request)
    requires ParamsOk(req) && |req.objs| < 0xFF
    ensures forall p | p in PlanFor(d, req) ::
              || (p.e.index == ComIndex(req) && (p.e.sub == 1 || p.e.sub == 2 || p.e.sub == 3 || p.e.sub == 5))
              || (p.e.index == MapIndex(req) && p.e.sub <= |req.objs|)
  {
    hide MapWord, Disabled, Enabled, Leading;
    var comm := Get(d, CobEntry(req));
    PlanParts(d, req);
    OptionSubs(req);
    forall p | p in PlanFor(d, req)
      ensures || (p.e.index == ComIndex(req) && (p.e.sub == 1 || p.e.sub == 2 || p.e.sub == 3 || p.e.sub == 5))
              || (p.e.index == MapIndex(req) && p.e.sub <= |req.objs|)
    {
      assert p in HeadPuts(req, comm) || p in MapPuts(req) || p in OptionPuts(req) || p in TailPuts(req, comm);
    }
  }

  lemma OptionSubs(req: Request)
    requires ParamsOk(req)
    ensures forall p | p in OptionPuts(req) ::
              p.e.index == ComIndex(req) && (p.e.sub == 2 || p.e.sub == 3 || p.e.sub == 5)
  {
  }

  lemma ElsewhereKept(d: Dict, req: Request)
    requires ParamsOk(req) && |req.objs| < 0xFF
    ensures Others(d, AfterPuts(d, req, |PlanFor(d, req)|), ComIndex(req), MapIndex(req), |req.objs|)
  {
    hide ApplyPuts, Plan;
    PlanEntries(d, req);
    var plan := PlanFor(d, req);
    assert plan[..|plan|] == plan;
    forall e: Entry |
      && !(e.index == ComIndex(req) && (e.sub == 1 || e.sub == 2 || e.sub == 3 || e.sub == 5))
      && !(e.index == MapIndex(req) && e.sub <= |req.objs|)
      ensures Get(AfterPuts(d, req, |plan|), e) == Get(d, e)
    {
      ApplyElsewhere(d, plan, e);
    }
  }

  lemma WordOf(o: Obj)
    ensures Mappable(o) <==> Bits(o.dtype) > 0
    ensures Mappable(o) ==> MapWord(o) == 0x1_0000 * o.index + 0x100 * o.subindex + Bits(o.dtype)
  {
  }

  lemma WordsWritten(d: Dict, req: Request, i: nat)
    requires ParamsOk(req) && |req.objs| < 0xFF && Complete(req) && i < |req.objs|
    ensures Get(AfterPuts(d, req, |PlanFor(d, req)|), Entry(MapIndex(req), i + 1)) == MapWord(req.objs[i])
  {
    hide OptionPuts, AfterPuts, Plan, MapWord;
    FinalEntries(d, req);
    assert MapPuts(req)[i] in BodyPuts(req) + TailPuts(req, Get(d, CobEntry(req)));
  }

  lemma CountWritten(d: Dict, req: Request)
    requires ParamsOk(req) && |req.objs| < 0xFF && Complete(req)
    ensures Get(AfterPuts(d, req, |PlanFor(d, req)|), Entry(MapIndex(req), 0)) == |req.objs|
  {
    hide OptionPuts, AfterPuts, Plan, MapWord;
    FinalEntries(d, req);
    assert Put(CountEntry(req), |req.objs|) in BodyPuts(req) + TailPuts(req, Get(d, CobEntry(req)));
  }

  /** The whole plan does what is asked. */
  lemma PlanRemaps(d: Dict, req: Request)
    requires ParamsOk(req) && |req.objs| < 0xFF && Complete(req)
    ensures Remapped(d, AfterPuts(d, req, |PlanFor(d, req)|), ComIndex(req), MapIndex(req), req)
  {
    hide AfterPuts, Plan, MapWord, Others, Bits, OptionPuts, Mappable;
    FinalCob(d, req);
    FinalOption(d, req, 2, req.transmission);
    FinalOption(d, req, 3, if req.inhibit >= 0 then req.inhibit % 0x100 else -1);
    FinalOption(d, req, 5, req.event);
    CountWritten(d, req);
    ElsewhereKept(d, req);
    forall i | 0 <= i < |req.objs|
      ensures Bits(req.objs[i].dtype) > 0
      ensures Get(AfterPuts(d, req, |PlanFor(d, req)|), Entry(MapIndex(req), i + 1))
              == 0x1_0000 * req.objs[i].index + 0x100 * req.objs[i].subindex + Bits(req.objs[i].dtype)
    {
      WordsWritten(d, req, i);
      WordOf(req.objs[i]);
    }
  }

  /** A run that reports success, no answer mistaken, has remapped the PDO in its records: 1800 and
      1A00 plus the number for a TPDO, 1400 and 1600 plus the number for an RPDO. */
  lemma RemapEntries(env: Env, l: Line, req: Request)
    requires |req.objs| < 0xFF && Remap(env, l, req).0 == Ok && Truthful(Events(env, l, req))
    ensures req.dir == Ul ==>
              Remapped(l.dev.dict, Remap(env, l, req).1.dev.dict, 0x1800 + req.pdo, 0x1A00 + req.pdo, req)
    ensures req.dir == Dl ==>
              Remapped(l.dev.dict, Remap(env, l, req).1.dev.dict, 0x1400 + req.pdo, 0x1600 + req.pdo, req)
    ensures req.dir != OtherDirection
  {
    hide AfterPuts, Plan, RunPuts, Remapped;
    var evs := Events(env, l, req);
    RemapSuccess(env, l, req);
    RemapGrows(env, l, req);
    assert evs[..|evs|] == evs;
    RemapTakesPrefix(env, l, req, |evs|);
    PlanRemaps(l.dev.dict, req);
  }

  /** Whatever happens, mistaken answers included: every transfer of a run is for one of the two
      records, the first uploads the COB-ID, and all others are downloads. */
  lemma RemapTouches(env: Env, l: Line, req: Request, k: nat)
    requires |req.objs| < 0xFF && k < |Events(env, l, req)|
    ensures var ev := Events(env, l, req)[k];
            var (com, words) := if req.dir == Ul then (0x1800 + req.pdo, 0x1A00 + req.pdo)
                                else (0x1400 + req.pdo, 0x1600 + req.pdo);
            && req.dir != OtherDirection
            && (if k == 0 then ev.Read? && ev.e == Entry(com, 1)
                else ev.Write? && (ev.e.index == com || ev.e.index == words))
  {
    hide Plan, RunPuts, Remap, Grown;
    if ParamsOk(req) {
      RemapSplits(env, l, req);
      var read := FirstRead(env, l, req);
      var l1, plan := Step(l, read), PlanHeard(read.out, l.dev.dict, req);
      RunGrows(env, l1, plan);
      if k > 0 {
        var ev := Since(l1, RunPuts(env, l1, plan).1)[k - 1];
        assert Events(env, l, req)[k] == ev;
        assert Put(ev.e, ev.v) in plan;
        PlanIndices(map[CobEntry(req) := Heard(read.out, Get(l.dev.dict, CobEntry(req)))], req);
      }
    } else {
      RemapRefused(env, l, req);
    }
  }

  /** A run makes no transfer at all exactly if a parameter is out of range or the direction is none;
      then it is refused, and negative parameters are not out of range. */
  lemma RemapRefuses(env: Env, l: Line, req: Request)
    requires |req.objs| < 0xFF
    ensures Events(env, l, req) == []
            <==> req.transmission > 0xFF || req.inhibit > 0xFFFF || req.event > 0xFFFF || req.dir == OtherDirection
    ensures Events(env, l, req) == [] ==> Remap(env, l, req) == (ErrParam, l)
  {
    hide Plan, RunPuts, Remap;
    if ParamsOk(req) {
      RemapSplits(env, l, req);
    } else {
      RemapRefused(env, l, req);
    }
  }

  // ----- the transfers of a run, one by one -----

  /** How many objects come before the first that cannot be mapped. */
  function Front(objs: seq<Obj>): (n: nat)
    ensures n <= |objs|
  {
    if objs == [] || Bits(objs[0].dtype) == 0 then 0 else 1 + Front(objs[1..])
  }

  function WordAsk(words: CommIndex, i: nat, o: Obj): Ask
    requires i < 0xFF
  {
    AskWrite(Entry(words, i + 1), 0x1_0000 * o.index + 0x100 * o.subindex + Bits(o.dtype))
  }

  /** The downloads that ask for the options. */
  function OptionAsks(com: CommIndex, req: Request): seq<Ask>
    requires req.transmission <= 0xFF && req.inhibit <= 0xFFFF && req.event <= 0xFFFF
  {
    (if req.transmission >= 0 then [AskWrite(Entry(com, 2), req.transmission)] else [])
    + (if req.inhibit >= 0 then [AskWrite(Entry(com, 3), req.inhibit % 0x100)] else [])
    + (if req.event >= 0 then [AskWrite(Entry(com, 5), req.event)] else [])
  }

  /** The downloads of a run that has read v as the COB-ID: the invalid COB-ID, if v is a valid one, a
      count of zero, the words up to the first object that cannot be mapped, and if there is none the
      options, the count and the valid COB-ID. */
  function RunAsks(com: CommIndex, words: CommIndex, req: Request, v: u32): seq<Ask>
    requires |req.objs| < 0xFF && req.transmission <= 0xFF && req.inhibit <= 0xFFFF && req.event <= 0xFFFF
  {
    (if v < 0x8000_0000 then [AskWrite(Entry(com, 1), v + 0x8000_0000)] else [])
    + [AskWrite(Entry(words, 0), 0)]
    + WordAsks(words, req.objs)
    + (if Front(req.objs) < |req.objs| then []
       else OptionAsks(com, req)
            + [AskWrite(Entry(words, 0), |req.objs|), AskWrite(Entry(com, 1), v % 0x8000_0000)])
  }

  function PutAsks(ps: seq<Put>): (asks: seq<Ask>)
    ensures |asks| == |ps| && forall k | 0 <= k < |ps| :: asks[k] == AskWrite(ps[k].e, ps[k].v)
  {
    seq(|ps|, k requires 0 <= k < |ps| => AskWrite(ps[k].e, ps[k].v))
  }

  lemma {:induction false} PutsObey(env: Env, l: Line, ps: seq<Put>)
    ensures var (r, l') := RunPuts(env, l, ps); Obeys(Since(l, l'), PutAsks(ps), r)
    decreases |ps|
  {
    hide Obeys, Since;
    if ps == [] {
      ObeysNone();
      GrownRefl(env, l);
    } else {
      var ev := FirstPut(env, l, ps);
      var l1 := Step(l, ev);
      ObeysOne(ev);
      RunSplits(env, l, ps);
      assert PutAsks(ps) == [AskOf(ev)] + PutAsks(ps[1..]);
      if Succeeded(ev) {
        PutsObey(env, l1, ps[1..]);
        ObeysThen([ev], [AskOf(ev)], Since(l1, RunPuts(env, l1, ps[1..]).1), PutAsks(ps[1..]),
                  RunPuts(env, l1, ps[1..]).0);
      } else {
        assert [ev] + [] == [ev];
        ObeysFailed([ev], [AskOf(ev)], PutAsks(ps[1..]), StatusOf(ev.out));
      }
    }
  }

  lemma {:induction false} FrontLeads(objs: seq<Obj>)
    ensures Front(objs) == Leading(objs)
  {
    hide Bits, Mappable;
    if objs != [] {
      WordOf(objs[0]);
      BitsPositive(objs[0].dtype);
      FrontLeads(objs[1..]);
    }
  }

  lemma BitsPositive(t: DataType)
    ensures Bits(t) >= 0
  {
  }

  function WordAsks(words: CommIndex, objs: seq<Obj>): seq<Ask>
    requires |objs| < 0xFF
  {
    seq(Front(objs), i requires 0 <= i < Front(objs) => WordAsk(words, i, objs[i]))
  }

  lemma MapsAsked(req: Request)
    requires |req.objs| < 0xFF
    ensures PutAsks(MapPuts(req)) == WordAsks(MapIndex(req), req.objs)
  {
    hide MapWord, Bits, Leading, Front;
    FrontLeads(req.objs);
    forall i | 0 <= i < Leading(req.objs)
      ensures WordAsk(MapIndex(req), i, req.objs[i]) == AskWrite(MapEntry(req, i), MapWord(req.objs[i]))
    {
      WordOf(req.objs[i]);
    }
  }

  /** The plan is that list. */
  lemma PlanAsks(req: Request, v: u32)
    requires ParamsOk(req) && |req.objs| < 0xFF
    ensures PutAsks(Plan(req, v)) == RunAsks(ComIndex(req), MapIndex(req), req, v)
  {
    hide MapPuts, Leading, Front, ComIndex, MapIndex, OptionPuts, OptionAsks, WordAsks, PutAsks;
    FrontLeads(req.objs);
    MapsAsked(req);
    OptionsAsked(req);
    EndsAsked(req, v);
    var head, maps, options, tail := HeadPuts(req, v), MapPuts(req), OptionPuts(req), TailPuts(req, v);
    PutAsksJoin(head, maps);
    PutAsksJoin(head + maps, if Complete(req) then options + tail else []);
    PutAsksJoin(options, tail);
    PutAsksNone();
  }

  lemma EndsAsked(req: Request, v: u32)
    requires |req.objs| < 0xFF
    ensures PutAsks(HeadPuts(req, v))
            == (if v < 0x8000_0000 then [AskWrite(Entry(ComIndex(req), 1), v + 0x8000_0000)] else [])
               + [AskWrite(Entry(MapIndex(req), 0), 0)]
    ensures PutAsks(TailPuts(req, v))
            == [AskWrite(Entry(MapIndex(req), 0), |req.objs|), AskWrite(Entry(ComIndex(req), 1), v % 0x8000_0000)]
  {
  }

  lemma PutAsksNone()
    ensures PutAsks([]) == []
  {
  }

  lemma PutAsksJoin(a: seq<Put>, b: seq<Put>)
    ensures PutAsks(a + b) == PutAsks(a) + PutAsks(b)
  {
  }

  lemma OptionsAsked(req: Request)
    requires ParamsOk(req)
    ensures PutAsks(OptionPuts(req)) == OptionAsks(ComIndex(req), req)
  {
  }

  /** Every run that is not refused, with any outcomes, makes exactly these transfers in this order, up
      to the first that fails, whose status it reports; and it reports a parameter error if they all
      succeed and an object was left out. */
  lemma RemapAsks(env: Env, l: Line, req: Request)
    requires |req.objs| < 0xFF && Events(env, l, req) != []
    ensures req.transmission <= 0xFF && req.inhibit <= 0xFFFF && req.event <= 0xFFFF
    ensures var r, evs := Remap(env, l, req).0, Events(env, l, req);
            var (com, words) := if req.dir == Ul then (0x1800 + req.pdo, 0x1A00 + req.pdo)
                                else (0x1400 + req.pdo, 0x1600 + req.pdo);
            var v := Heard(evs[0].out, Get(l.dev.dict, Entry(com, 1)));
            var asks := [AskRead(Entry(com, 1))] + RunAsks(com, words, req, v);
            if Front(req.objs) == |req.objs| then Obeys(evs, asks, r)
            else Obeys(evs, asks, r) || (r == ErrParam && Obeys(evs, asks, Ok))
  {
    hide Plan, RunPuts, Obeys, Since, RunAsks, Front;
    RemapRefuses(env, l, req);
    RemapSplits(env, l, req);
    FrontLeads(req.objs);
    var read := FirstRead(env, l, req);
    var l1, plan := Step(l, read), PlanHeard(read.out, l.dev.dict, req);
    PlanAsks(req, Heard(read.out, Get(l.dev.dict, CobEntry(req))));
    ObeysOne(read);
    if Succeeded(read) {
      PutsObey(env, l1, plan);
      ObeysThen([read], [AskOf(read)], Since(l1, RunPuts(env, l1, plan).1), PutAsks(plan), RunPuts(env, l1, plan).0);
    } else {
      assert [read] + [] == [read];
      ObeysFailed([read], [AskOf(read)], PutAsks(plan), StatusOf(read.out));
    }
  }

  // ----- objects that cannot be mapped -----

  lemma {:induction false} RunFails(env: Env, l: Line, ps: seq<Put>)
    requires AllSucceeded(Since(l, RunPuts(env, l, ps).1))
    ensures RunPuts(env, l, ps).0 == Ok
    decreases |ps|
  {
    hide AllSucceeded, Since;
    if ps != [] {
      var ev := FirstPut(env, l, ps);
      var l1 := Step(l, ev);
      RunSplits(env, l, ps);
      var later := if Succeeded(ev) then Since(l1, RunPuts(env, l1, ps[1..]).1) else [];
      SucceededParts(ev, later);
      RunFails(env, l1, ps[1..]);
    }
  }

  lemma SucceededParts(ev: Event, later: seq<Event>)
    requires AllSucceeded([ev] + later)
    ensures Succeeded(ev) && AllSucceeded(later)
  {
    assert ev in [ev] + later;
    assert forall x | x in later :: x in [ev] + later;
  }

  /** A run all of whose transfers succeed, none of the answers mistaken, takes in the whole plan. */
  lemma WholeRun(env: Env, l: Line, req: Request)
    requires |req.objs| < 0xFF && ParamsOk(req)
    requires Truthful(Events(env, l, req)) && AllSucceeded(Events(env, l, req))
    ensures Remap(env, l, req).0 == if Complete(req) then Ok else ErrParam
    ensures Remap(env, l, req).1.dev.dict == AfterPuts(l.dev.dict, req, |PlanFor(l.dev.dict, req)|)
  {
    hide Plan, RunPuts, Truthful, AllSucceeded, Since, Replay, ApplyPuts, Effects;
    RemapSplits(env, l, req);
    var read := FirstRead(env, l, req);
    var l1, plan := Step(l, read), PlanFor(l.dev.dict, req);
    var later := if Succeeded(read) then Since(l1, RunPuts(env, l1, PlanHeard(read.out, l.dev.dict, req)).1) else [];
    SucceededParts(read, later);
    TruthfulParts(read, later);
    assert PlanHeard(read.out, l.dev.dict, req) == plan;
    RunFails(env, l1, plan);
    assert later[..|later|] == later;
    RunTakesPrefix(env, l1, plan, |later|);
    RunGrows(env, l1, plan);
    assert plan[..|plan|] == plan;
  }

  /** A list with an object that cannot be mapped: even if every transfer succeeds the run reports a
      parameter error, and by then it has disabled the PDO and zeroed its count; and it succeeds
      exactly if all objects can be mapped. */
  lemma RemapResult(env: Env, l: Line, req: Request)
    requires |req.objs| < 0xFF && Events(env, l, req) != []
    requires Truthful(Events(env, l, req)) && AllSucceeded(Events(env, l, req))
    ensures var (r, l') := Remap(env, l, req);
            var (com, words) := if req.dir == Ul then (0x1800 + req.pdo, 0x1A00 + req.pdo)
                                else (0x1400 + req.pdo, 0x1600 + req.pdo);
            && (r == Ok <==> forall o | o in req.objs :: Bits(o.dtype) > 0)
            && (r != Ok ==> r == ErrParam && Get(l'.dev.dict, Entry(com, 1)) >= 0x8000_0000
                            && Get(l'.dev.dict, Entry(words, 0)) == 0)
  {
    hide Remap, Plan, AfterPuts, RunPuts, Truthful, AllSucceeded, Bits, Mappable;
    RemapRefuses(env, l, req);
    WholeRun(env, l, req);
    CompleteExactly(req);
    if !Complete(req) {
      PlanParts(l.dev.dict, req);
      var n := |PlanFor(l.dev.dict, req)|;
      DisabledInside(l.dev.dict, req, n);
      CountZeroInside(l.dev.dict, req, n);
    }
  }

  lemma CompleteExactly(req: Request)
    ensures Complete(req) <==> forall o | o in req.objs :: Bits(o.dtype) > 0
  {
    hide Bits, Mappable;
    var n := Leading(req.objs);
    if n < |req.objs| {
      WordOf(req.objs[n]);
      assert req.objs[n] in req.objs;
    } else {
      forall o | o in req.objs
        ensures Bits(o.dtype) > 0
      {
        var i :| 0 <= i < |req.objs| && req.objs[i] == o;
        WordOf(req.objs[i]);
      }
    }
  }
}
