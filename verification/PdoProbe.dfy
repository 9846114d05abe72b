/** Reading the PDO configuration back: canmat_probe_pdo.  What it prints is returned here,
    one section per RPDO that was read to its end. */
module PdoProbe {
  import opened Can
  import opened Bus
  import opened ObjDict
  import opened Pdo
  import PdoSafety

  const PDO_MAX: nat := 8

  datatype Mapped = Mapped(index: u16, subindex: u8, bits: int)

  datatype Section = Section(rpdo: nat, comSize: u8, cobId: Option<u32>, transmission: Option<u8>,
                             mapping: seq<Mapped>)

  function SplitWord(w: u32): Mapped { Mapped(w / 0x1_0000, w / 0x100 % 0x100, w % 0x100) }

  /** Splitting a map word gives the object and its size back. */
  lemma SplitMapWord(o: Obj)
    requires Mappable(o)
    ensures SplitWord(MapWord(o)) == Mapped(o.index, o.subindex, BitSize(o))
  {
    var i: int, s: int, b := o.index, o.subindex, BitSize(o);
    assert b == 8 || b == 16 || b == 32;
    assert MapWord(o) == 0x1_0000 * i + 0x100 * s + b;
    assert MapWord(o) / 0x100 == 0x100 * i + s;
    assert MapWord(o) / 0x1_0000 == i;
  }

  function ProbeMap(env: Env, l: Line, i: nat, j: nat, n: u8, got: seq<Mapped>): (Status, Line, seq<Mapped>)
    requires i < PDO_MAX && j <= n
    decreases n - j
  {
    if j == n then (Ok, l, got)
    else
      var (r, w, l1) := ReadEntry(env, l, Entry(0x1600 + i, 1 + j));
      if r != Ok then (r, l1, got) else ProbeMap(env, l1, i, j + 1, n, got + [SplitWord(w)])
  }

  /** The mapping part of a section. */
  function ProbeMapping(env: Env, l: Line, i: nat): (Status, Line, seq<Mapped>)
    requires i < PDO_MAX
  {
    var (r, n, l1) := ReadEntry(env, l, Entry(0x1600 + i, 0));
    if r != Ok then (r, l1, []) else ProbeMap(env, l1, i, 0, n % 0x100, [])
  }

  /** An upload that is made only for large enough records. */
  function UploadIf(c: bool, env: Env, l: Line, e: Entry): (Status, Option<u32>, Line)
  {
    if !c then (Ok, None, l)
    else
      var (r, v, l1) := ReadEntry(env, l, e);
      (r, Some(v), l1)
  }

  /** One RPDO; a PDO whose record cannot be read because of an abort is skipped. */
  function ProbeOne(env: Env, l: Line, i: nat): (Status, Line, seq<Section>)
    requires i < PDO_MAX
  {
    var (r, size, l1) := ReadEntry(env, l, Entry(0x1400 + i, 0));
    if r == ErrAbort then (Ok, l1, [])
    else if r != Ok then (r, l1, [])
    else
      var (r2, cob, l2) := UploadIf(size % 0x100 > 0, env, l1, Entry(0x1400 + i, 1));
      if r2 != Ok then (r2, l2, [])
      else
        var (r3, trans, l3) := UploadIf(size % 0x100 > 1, env, l2, Entry(0x1400 + i, 2));
        if r3 != Ok then (r3, l3, [])
        else
          var (r4, l4, mapping) := ProbeMapping(env, l3, i);
          if r4 != Ok then (r4, l4, [])
          else
            var kind: Option<u8> := if trans.None? then None else Some(trans.value % 0x100);
            (Ok, l4, [Section(i, size % 0x100, cob, kind, mapping)])
  }

  function ProbeFrom(env: Env, l: Line, i: nat, done: seq<Section>): (Status, Line, seq<Section>)
    requires i <= PDO_MAX
    decreases PDO_MAX - i
  {
    if i == PDO_MAX then (Ok, l, done)
    else
      var (r, l1, s) := ProbeOne(env, l, i);
      if r != Ok then (r, l1, done + s) else ProbeFrom(env, l1, i + 1, done + s)
  }

  function Probe(env: Env, l: Line): (Status, Line, seq<Section>) { ProbeFrom(env, l, 0, []) }

  method ProbeMappingOf(cif: Port, i: nat) returns (r: Status, mapping: seq<Mapped>)
    requires i < PDO_MAX
    modifies cif`line
    ensures (r, cif.line, mapping) == ProbeMapping(cif.env, old(cif.line), i)
  {
    hide SplitWord;
    var n;
    mapping := [];
    r, n := cif.Upload(Entry(0x1600 + i, 0));
    if r != Ok { return; }
    var size := n % 0x100;
    var j := 0;
    while j < size
      invariant 0 <= j <= size && r == Ok
      invariant ProbeMapping(cif.env, old(cif.line), i) == ProbeMap(cif.env, cif.line, i, j, size, mapping)
    {
      var w;
      r, w := cif.Upload(Entry(0x1600 + i, 1 + j));
      if r != Ok { return; }
      mapping := mapping + [SplitWord(w)];
      j := j + 1;
    }
  }

  method ProbeRpdo(cif: Port, i: nat) returns (r: Status, report: seq<Section>)
    requires i < PDO_MAX
    modifies cif`line
    ensures (r, cif.line, report) == ProbeOne(cif.env, old(cif.line), i)
  {
    hide ProbeMapping;
    report := [];
    var size, cob, trans, v, mapping;
    r, size := cif.Upload(Entry(0x1400 + i, 0));
    if r == ErrAbort { return Ok, []; }
    if r != Ok { return; }
    var comSize := size % 0x100;
    cob, trans := None, None;
    if comSize > 0 {
      r, v := cif.Upload(Entry(0x1400 + i, 1));
      if r != Ok { return; }
      cob := Some(v);
    }
    if comSize > 1 {
      r, v := cif.Upload(Entry(0x1400 + i, 2));
      if r != Ok { return; }
      trans := Some(v % 0x100);
    }
    r, mapping := ProbeMappingOf(cif, i);
    if r != Ok { return; }
    report := [Section(i, comSize, cob, trans, mapping)];
  }

  /** canmat_probe_pdo. */
  method ProbePdo(cif: Port) returns (r: Status, report: seq<Section>)
    modifies cif`line
    ensures (r, cif.line, report) == Probe(cif.env, old(cif.line))
  {
    hide ProbeOne;
    report := [];
    var i := 0;
    while i < PDO_MAX
      invariant 0 <= i <= PDO_MAX
      invariant Probe(cif.env, old(cif.line)) == ProbeFrom(cif.env, cif.line, i, report)
    {
      var section;
      r, section := ProbeRpdo(cif, i);
      report := report + section;
      if r != Ok { return; }
      i := i + 1;
    }
    r := Ok;
  }

  // ----- the probe reads what the device holds -----

  /** The mapping that the dictionary holds for an RPDO. */
  function Held(d: Dict, i: nat): seq<Mapped>
    requires i < PDO_MAX
  {
    seq(Get(d, Entry(0x1600 + i, 0)) % 0x100, j requires 0 <= j < 0x100 =>
      if j < 0xFF then SplitWord(Get(d, Entry(0x1600 + i, 1 + j))) else Mapped(0, 0, 0))
  }

  /** A section shows the record and the mapping that the dictionary holds for its RPDO. */
  predicate ShowsHeld(d: Dict, x: Section)
    requires x.rpdo < PDO_MAX
  {
    var com := (sub: u8) => Get(d, Entry(0x1400 + x.rpdo, sub));
    && x.comSize == com(0) % 0x100
    && x.cobId == (if x.comSize > 0 then Some(com(1)) else None)
    && x.transmission == (if x.comSize > 1 then Some(com(2) % 0x100) else None)
    && x.mapping == Held(d, x.rpdo)
  }

  lemma {:induction false} ProbeMapReads(env: Env, l: Line, i: nat, j: nat, n: u8, got: seq<Mapped>)
    requires i < PDO_MAX && j <= n && n == Get(l.dev.dict, Entry(0x1600 + i, 0)) % 0x100
    requires got == Held(l.dev.dict, i)[..j]
    ensures var (r, l', m) := ProbeMap(env, l, i, j, n, got);
            && l'.dev == l.dev && l.log <= l'.log
            && (r == Ok && Truthful(Since(l, l')) ==> m == Held(l.dev.dict, i))
    decreases n - j
  {
    hide Truthful, SplitWord;
    var held := Held(l.dev.dict, i);
    if j < n {
      var e := Entry(0x1600 + i, 1 + j);
      var (r, w, l1) := ReadEntry(env, l, e);
      var (r', l', m) := ProbeMap(env, l, i, j, n, got);
      if r == Ok {
        ProbeMapGrows(env, l1, i, j + 1, n, got + [SplitWord(w)]);
        if Truthful(Since(l, l')) {
          TruthfulStep(l, l1, l');
          HeldAt(l.dev.dict, i, j);
          assert held[..j + 1] == held[..j] + [held[j]];
          ProbeMapReads(env, l1, i, j + 1, n, got + [SplitWord(w)]);
        }
      }
    } else {
      assert held[..j] == held;
    }
  }

  lemma HeldAt(d: Dict, i: nat, j: nat)
    requires i < PDO_MAX && j < Get(d, Entry(0x1600 + i, 0)) % 0x100
    ensures Held(d, i)[j] == SplitWord(Get(d, Entry(0x1600 + i, 1 + j)))
  {
  }

  lemma {:induction false} ProbeMapGrows(env: Env, l: Line, i: nat, j: nat, n: u8, got: seq<Mapped>)
    requires i < PDO_MAX && j <= n
    ensures var l' := ProbeMap(env, l, i, j, n, got).1; l'.dev == l.dev && l.log <= l'.log
    decreases n - j
  {
    hide SplitWord;
    if j < n {
      var (r, w, l1) := ReadEntry(env, l, Entry(0x1600 + i, 1 + j));
      if r == Ok {
        ProbeMapGrows(env, l1, i, j + 1, n, got + [SplitWord(w)]);
      }
    }
  }

  /** A truthful stretch of events, taken apart at its first transfer. */
  lemma TruthfulStep(l: Line, l1: Line, l': Line)
    requires l.log <= l1.log <= l'.log && Truthful(Since(l, l'))
    ensures Truthful(Since(l, l1)) && Truthful(Since(l1, l'))
    ensures |l1.log| == |l.log| + 1 ==> !l1.log[|l.log|].out.Mistaken?
  {
    var evs := Since(l, l');
    assert forall ev | ev in Since(l, l1) :: ev in evs;
    assert forall ev | ev in Since(l1, l') :: ev in evs;
    if |l1.log| == |l.log| + 1 {
      assert l1.log[|l.log|] in evs;
    }
  }

  /** The uploads of the record of one RPDO. */
  lemma RecordReads(env: Env, l: Line, i: nat)
    requires i < PDO_MAX
    ensures var d := l.dev.dict;
            var (r, size, l1) := ReadEntry(env, l, Entry(0x1400 + i, 0));
            var (r2, cob, l2) := UploadIf(size % 0x100 > 0, env, l1, Entry(0x1400 + i, 1));
            var (r3, trans, l3) := UploadIf(size % 0x100 > 1, env, l2, Entry(0x1400 + i, 2));
            && l3.dev == l.dev && l.log <= l1.log <= l2.log <= l3.log
            && l1.dev == l.dev == l2.dev
            && (Truthful(Since(l, l3)) ==>
                  && size == Get(d, Entry(0x1400 + i, 0))
                  && cob == (if size % 0x100 > 0 then Some(Get(d, Entry(0x1400 + i, 1))) else None)
                  && trans == (if size % 0x100 > 1 then Some(Get(d, Entry(0x1400 + i, 2))) else None))
  {
    hide Truthful;
    var (r, size, l1) := ReadEntry(env, l, Entry(0x1400 + i, 0));
    var (r2, cob, l2) := UploadIf(size % 0x100 > 0, env, l1, Entry(0x1400 + i, 1));
    var (r3, trans, l3) := UploadIf(size % 0x100 > 1, env, l2, Entry(0x1400 + i, 2));
    if Truthful(Since(l, l3)) {
      TruthfulStep(l, l1, l3);
      TruthfulStep(l1, l2, l3);
      TruthfulStep(l2, l3, l3);
    }
  }

  /** The uploads of the mapping of one RPDO. */
  lemma MappingReads(env: Env, l: Line, i: nat)
    requires i < PDO_MAX
    ensures var (r, l', mapping) := ProbeMapping(env, l, i);
            && l'.dev == l.dev && l.log <= l'.log
            && (r == Ok && Truthful(Since(l, l')) ==> mapping == Held(l.dev.dict, i))
  {
    hide ProbeMap, Held, Truthful, Since;
    var (r, n, l1) := ReadEntry(env, l, Entry(0x1600 + i, 0));
    ProbeMapGrows(env, l1, i, 0, n % 0x100, []);
    var (r', l', mapping) := ProbeMapping(env, l, i);
    if r' == Ok && Truthful(Since(l, l')) {
      TruthfulStep(l, l1, l');
      assert Held(l1.dev.dict, i)[..0] == [];
      ProbeMapReads(env, l1, i, 0, n % 0x100, []);
    }
  }

  /** Reading changes nothing in the device, and a section shows the mapping held. */
  lemma ProbeOneReads(env: Env, l: Line, i: nat)
    requires i < PDO_MAX
    ensures var (r, l', s) := ProbeOne(env, l, i);
            && l'.dev == l.dev && l.log <= l'.log
            && (Truthful(Since(l, l')) ==> forall x | x in s :: x.rpdo == i && ShowsHeld(l.dev.dict, x))
  {
    hide ProbeMapping, Held, Truthful, UploadIf, Since;
    var (r, size, l1) := ReadEntry(env, l, Entry(0x1400 + i, 0));
    var (r2, cob, l2) := UploadIf(size % 0x100 > 0, env, l1, Entry(0x1400 + i, 1));
    var (r3, trans, l3) := UploadIf(size % 0x100 > 1, env, l2, Entry(0x1400 + i, 2));
    var l' := ProbeMapping(env, l3, i).1;
    RecordReads(env, l, i);
    MappingReads(env, l3, i);
    if Truthful(Since(l, l')) {
      TruthfulStep(l, l3, l');
    }
  }

  /** Probing changes nothing, and as long as no answer is mistaken every section shows what the
      device holds. */
  lemma {:induction false} ProbeReads(env: Env, l: Line, i: nat, done: seq<Section>)
    requires i <= PDO_MAX
    ensures var (r, l', report) := ProbeFrom(env, l, i, done);
            && l'.dev == l.dev && l.log <= l'.log
            && (Truthful(Since(l, l')) ==>
                  forall x | x in report :: x in done || (i <= x.rpdo < PDO_MAX && ShowsHeld(l.dev.dict, x)))
    decreases PDO_MAX - i
  {
    hide ProbeOne, Held, ShowsHeld, Truthful;
    if i < PDO_MAX {
      ProbeOneReads(env, l, i);
      var (r, l1, s) := ProbeOne(env, l, i);
      if r == Ok {
        ProbeReads(env, l1, i + 1, done + s);
        var l' := ProbeFrom(env, l, i, done).1;
        if Truthful(Since(l, l')) {
          TruthfulStep(l, l1, l');
        }
      }
    }
  }

  /** From some event on, every transfer is acknowledged. */
  ghost predicate Answering(env: Env, from: nat)
  {
    forall log, ask | |log| >= from :: env.out(log, ask) == Done
  }

  lemma {:induction false} ProbeMapAnswered(env: Env, l: Line, i: nat, j: nat, n: u8, got: seq<Mapped>)
    requires i < PDO_MAX && j <= n && Answering(env, |l.log|)
    ensures ProbeMap(env, l, i, j, n, got).0 == Ok
    ensures Answering(env, |ProbeMap(env, l, i, j, n, got).1.log|)
    decreases n - j
  {
    if j < n {
      var (r, w, l1) := ReadEntry(env, l, Entry(0x1600 + i, 1 + j));
      ProbeMapAnswered(env, l1, i, j + 1, n, got + [SplitWord(w)]);
    }
  }

  lemma ProbeOneAnswered(env: Env, l: Line, i: nat)
    requires i < PDO_MAX && Answering(env, |l.log|)
    ensures var (r, l', s) := ProbeOne(env, l, i);
            r == Ok && |s| == 1 && s[0].rpdo == i && Answering(env, |l'.log|)
  {
    hide ProbeMap, SplitWord;
    var (r, size, l1) := ReadEntry(env, l, Entry(0x1400 + i, 0));
    var (r2, cob, l2) := UploadIf(size % 0x100 > 0, env, l1, Entry(0x1400 + i, 1));
    var (r3, trans, l3) := UploadIf(size % 0x100 > 1, env, l2, Entry(0x1400 + i, 2));
    assert r == Ok && r2 == Ok && r3 == Ok;
    var (r4, n, l4) := ReadEntry(env, l3, Entry(0x1600 + i, 0));
    assert r4 == Ok && Answering(env, |l4.log|);
    ProbeMapAnswered(env, l4, i, 0, n % 0x100, []);
  }

  lemma {:induction false} ProbeAnswered(env: Env, l: Line, i: nat, done: seq<Section>, p: nat)
    requires i <= PDO_MAX && p < PDO_MAX && Answering(env, |l.log|)
    requires p < i ==> exists x :: x in done && x.rpdo == p
    ensures var (r, l', report) := ProbeFrom(env, l, i, done);
            r == Ok && exists x :: x in report && x.rpdo == p
    decreases PDO_MAX - i
  {
    hide ProbeOne, Answering;
    if i < PDO_MAX {
      ProbeOneAnswered(env, l, i);
      var (r, l', s) := ProbeOne(env, l, i);
      if p < i {
        var x :| x in done && x.rpdo == p;
        assert x in done + s;
      } else if p == i {
        assert s[0] in done + s;
      }
      ProbeAnswered(env, l', i + 1, done + s, p);
    }
  }

  /** The decoded mapping is the list of objects, in order, with their bit sizes. */
  predicate Shows(m: seq<Mapped>, objs: seq<Obj>)
  {
    |m| == |objs| && forall j | 0 <= j < |objs| :: m[j] == Mapped(objs[j].index, objs[j].subindex, BitSize(objs[j]))
  }

  /** Remap, then probe: after a successful remap of one of the first eight RPDOs, any section
      that the probe reports for it shows exactly the requested objects in order, no answer of the
      two being mistaken; and if the device answers, the probe succeeds and reports one. */
  lemma RemapThenProbe(env: Env, l: Line, req: Request)
    requires |req.objs| < 0xFF && req.pdo < PDO_MAX && req.dir == Dl
    requires Remap(env, l, req).0 == Ok
    requires Truthful(Since(l, Probe(env, Remap(env, l, req).1).1))
    ensures var l1 := Remap(env, l, req).1;
            var (r, l2, report) := Probe(env, l1);
            && l2.dev == l1.dev
            && (forall x | x in report && x.rpdo == req.pdo :: Shows(x.mapping, req.objs))
            && (Answering(env, |l1.log|) ==> r == Ok && exists x :: x in report && x.rpdo == req.pdo)
  {
    hide Remap, ProbeFrom, Held, Shows, Truthful;
    var l1 := Remap(env, l, req).1;
    ProbeReads(env, l1, 0, []);
    PdoSafety.RemapGrows(env, l, req);
    TruthfulStep(l, l1, Probe(env, l1).1);
    PdoSafety.RemapSuccess(env, l, req);
    HeldIsRequested(l.dev.dict, l1.dev.dict, req);
    if Answering(env, |l1.log|) {
      ProbeAnswered(env, l1, 0, [], req.pdo);
    }
  }

  lemma HeldIsRequested(d: Dict, d': Dict, req: Request)
    requires |req.objs| < 0xFF && req.pdo < PDO_MAX && req.dir == Dl && ParamsOk(req)
    requires PdoSafety.Mapping(d', req) == PdoSafety.Written(d, req).mapping && Complete(req)
    ensures Shows(Held(d', req.pdo), req.objs)
  {
    assert |PdoSafety.Mapping(d', req)| == |req.objs|;
    forall j | 0 <= j < |req.objs|
      ensures Held(d', req.pdo)[j] == Mapped(req.objs[j].index, req.objs[j].subindex, BitSize(req.objs[j]))
    {
      assert PdoSafety.Mapping(d', req)[j] == MapWord(req.objs[j]);
      SplitMapWord(req.objs[j]);
    }
  }

  // ----- which records are reported -----

  /** An upload of subindex 0 of the record of one of the first eight RPDOs. */
  predicate Opens(ev: Event) { ev.Read? && 0x1400 <= ev.e.index <= 0x1407 && ev.e.sub == 0 }

  /** The RPDOs whose records were opened, and those among them whose record was read. */
  function Opened(evs: seq<Event>, read: bool): seq<int>
  {
    if evs == [] then []
    else (if Opens(evs[0]) && (read ==> Succeeded(evs[0])) then [evs[0].e.index - 0x1400] else [])
         + Opened(evs[1..], read)
  }

  lemma {:induction false} OpenedConcat(a: seq<Event>, b: seq<Event>, read: bool)
    ensures Opened(a + b, read) == Opened(a, read) + Opened(b, read)
  {
    if a == [] {
      assert a + b == b;
    } else {
      assert (a + b)[1..] == a[1..] + b;
      OpenedConcat(a[1..], b, read);
    }
  }

  function Numbers(report: seq<Section>): seq<int> { seq(|report|, k requires 0 <= k < |report| => report[k].rpdo) }

  /** Uploads that open no record, up to the first failure. */
  predicate Plain(l: Line, l': Line, r: Status)
  {
    && l.log <= l'.log && (forall ev | ev in Since(l, l') :: !Opens(ev)) && FailsLast(Since(l, l'), r)
  }

  /** A failure that is not forgiven: only an abort of the opening of a record is. */
  predicate Fatal(ev: Event) { !Succeeded(ev) && !(Opens(ev) && StatusOf(ev.out) == ErrAbort) }

  /** The first fatal transfer, if any, is the last one, and its status is reported. */
  predicate FailsLast(evs: seq<Event>, r: Status)
  {
    && (forall k | 0 <= k < |evs| - 1 :: !Fatal(evs[k]))
    && if r == Ok then evs == [] || !Fatal(evs[|evs| - 1])
       else evs != [] && Fatal(evs[|evs| - 1]) && r == StatusOf(evs[|evs| - 1].out)
  }

  lemma FailsLastJoin(a: seq<Event>, b: seq<Event>, r: Status)
    requires FailsLast(a, Ok) && FailsLast(b, r)
    ensures FailsLast(a + b, r)
  {
    hide Fatal;
  }

  lemma PlainTrans(a: Line, b: Line, c: Line, r: Status)
    requires Plain(a, b, Ok) && Plain(b, c, r)
    ensures Plain(a, c, r)
  {
    hide Opens, FailsLast;
    FailsLastJoin(Since(a, b), Since(b, c), r);
    assert Since(a, c) == Since(a, b) + Since(b, c);
  }

  lemma PlainRead(env: Env, l: Line, e: Entry)
    requires !(0x1400 <= e.index <= 0x1407 && e.sub == 0)
    ensures var (r, v, l1) := ReadEntry(env, l, e); Plain(l, l1, r)
    ensures Plain(l, l, Ok)
  {
    var ev := Read(e, env.out(l.log, AskRead(e)));
    assert Since(l, Step(l, ev)) == [ev];
  }

  lemma {:induction false} MapPlain(env: Env, l: Line, i: nat, j: nat, n: u8, got: seq<Mapped>)
    requires i < PDO_MAX && j <= n
    ensures var (r, l', m) := ProbeMap(env, l, i, j, n, got); Plain(l, l', r)
    decreases n - j
  {
    hide Plain, SplitWord;
    PlainRead(env, l, Entry(0x1600 + i, 1));
    if j < n {
      var (r, w, l1) := ReadEntry(env, l, Entry(0x1600 + i, 1 + j));
      PlainRead(env, l, Entry(0x1600 + i, 1 + j));
      if r == Ok {
        var got1 := got + [SplitWord(w)];
        MapPlain(env, l1, i, j + 1, n, got1);
        PlainTrans(l, l1, ProbeMap(env, l1, i, j + 1, n, got1).1, ProbeMap(env, l1, i, j + 1, n, got1).0);
      }
    }
  }

  lemma PlainIf(c: bool, env: Env, l: Line, e: Entry)
    requires e.sub != 0
    ensures var (r, v, l1) := UploadIf(c, env, l, e); Plain(l, l1, r)
  {
    hide Plain;
    PlainRead(env, l, e);
  }

  lemma MappingPlain(env: Env, l: Line, i: nat)
    requires i < PDO_MAX
    ensures var (r, l', m) := ProbeMapping(env, l, i); Plain(l, l', r)
  {
    hide Plain, ProbeMap;
    var (r, n, l1) := ReadEntry(env, l, Entry(0x1600 + i, 0));
    PlainRead(env, l, Entry(0x1600 + i, 0));
    if r == Ok {
      MapPlain(env, l1, i, 0, n % 0x100, []);
      PlainTrans(l, l1, ProbeMap(env, l1, i, 0, n % 0x100, []).1, ProbeMap(env, l1, i, 0, n % 0x100, []).0);
    }
  }

  lemma {:induction false} NoneOpened(evs: seq<Event>, read: bool)
    requires forall ev | ev in evs :: !Opens(ev)
    ensures Opened(evs, read) == []
  {
    hide Opens;
    if evs != [] {
      assert evs[0] in evs;
      NoneOpened(evs[1..], read);
    }
  }

  /** The record of the RPDO is opened, and reported if it could be read. */
  lemma OneOpened(env: Env, l: Line, i: nat)
    requires i < 8
    ensures var (r, l', s) := ProbeOne(env, l, i);
            var evs := Since(l, l');
            && l.log <= l'.log && Opened(evs, false) == [i] && FailsLast(evs, r)
            && (r == Ok ==> Numbers(s) == Opened(evs, true))
  {
    hide Plain, ProbeMapping, UploadIf, Since, Opened, FailsLast, Numbers;
    var (r, size, l1) := ReadEntry(env, l, Entry(0x1400 + i, 0));
    var ev := Read(Entry(0x1400 + i, 0), env.out(l.log, AskRead(Entry(0x1400 + i, 0))));
    var (r', l', s) := ProbeOne(env, l, i);
    if r == Ok {
      var (r2, cob, l2) := UploadIf(size % 0x100 > 0, env, l1, Entry(0x1400 + i, 1));
      PlainIf(size % 0x100 > 0, env, l1, Entry(0x1400 + i, 1));
      if r2 == Ok {
        var (r3, trans, l3) := UploadIf(size % 0x100 > 1, env, l2, Entry(0x1400 + i, 2));
        PlainIf(size % 0x100 > 1, env, l2, Entry(0x1400 + i, 2));
        PlainTrans(l1, l2, l3, r3);
        if r3 == Ok {
          MappingPlain(env, l3, i);
          PlainTrans(l1, l3, l', r');
        }
      }
      OpenedThenPlain(l, ev, l', r', s, i);
    } else {
      OpenedOnly(l, ev, r, i);
    }
    NumbersOf(s);
  }

  lemma NumbersOf(s: seq<Section>)
    ensures s == [] ==> Numbers(s) == []
    ensures |s| == 1 ==> Numbers(s) == [s[0].rpdo]
  {
  }

  /** A record that cannot be read. */
  lemma OpenedOnly(l: Line, ev: Event, r: Status, i: nat)
    requires i < 8 && ev == Read(Entry(0x1400 + i, 0), ev.out) && StatusOf(ev.out) == r != Ok
    ensures var l' := Step(l, ev);
            && Opened(Since(l, l'), false) == [i] && Opened(Since(l, l'), true) == []
            && FailsLast(Since(l, l'), if r == ErrAbort then Ok else r)
  {
    assert Since(l, Step(l, ev)) == [ev];
    assert [ev][1..] == [];
  }

  lemma NothingFailed(l: Line)
    ensures Since(l, l) == [] && FailsLast([], Ok)
  {
  }

  lemma FailsLastOne(ev: Event)
    ensures Succeeded(ev) ==> FailsLast([ev], Ok)
  {
  }

  lemma OpenedThenPlain(l: Line, ev: Event, l': Line, r: Status, s: seq<Section>, i: nat)
    requires i < 8 && ev == Read(Entry(0x1400 + i, 0), ev.out) && Succeeded(ev)
    requires Plain(Step(l, ev), l', r)
    ensures l.log <= l'.log && Opened(Since(l, l'), false) == [i] == Opened(Since(l, l'), true)
    ensures FailsLast(Since(l, l'), r)
  {
    hide Fatal, FailsLast;
    var l1 := Step(l, ev);
    FailsLastOne(ev);
    FailsLastJoin([ev], Since(l1, l'), r);
    assert Since(l, l') == [ev] + Since(l1, l');
    assert ([ev] + Since(l1, l'))[1..] == Since(l1, l');
    NoneOpened(Since(l1, l'), false);
    NoneOpened(Since(l1, l'), true);
  }

  /** A probe that succeeds has opened the records of the first eight RPDOs, once each and in order, and
      its sections are those of the RPDOs whose record was read, in the same order.  An abort of the
      opening of a record is the only failure that it survives; any other one ends it and is reported. */
  lemma ProbeReports(env: Env, l: Line)
    ensures var (r, l', report) := Probe(env, l);
            var evs := Since(l, l');
            && FailsLast(evs, r)
            && (r == Ok ==> Opened(evs, false) == [0, 1, 2, 3, 4, 5, 6, 7] && Numbers(report) == Opened(evs, true))
  {
    hide ProbeFrom, FailsLast;
    NothingFailed(l);
    ReportsFrom(env, l, l, 0, []);
    assert seq(8, k => k) == [0, 1, 2, 3, 4, 5, 6, 7];
  }

  lemma {:induction false} ReportsFrom(env: Env, l0: Line, l: Line, i: nat, done: seq<Section>)
    requires i <= 8 && l0.log <= l.log
    requires FailsLast(Since(l0, l), Ok)
    requires Opened(Since(l0, l), false) == seq(i, k => k) && Numbers(done) == Opened(Since(l0, l), true)
    ensures var (r, l', report) := ProbeFrom(env, l, i, done);
            var evs := Since(l0, l');
            && l0.log <= l'.log && FailsLast(evs, r)
            && (r == Ok ==> Opened(evs, false) == seq(8, k => k) && Numbers(report) == Opened(evs, true))
    decreases 8 - i
  {
    hide ProbeOne, Opened, Numbers, Since, FailsLast;
    if i < 8 {
      OneOpened(env, l, i);
      var (r, l1, s) := ProbeOne(env, l, i);
      SinceParts(l0, l, l1);
      FailsLastJoin(Since(l0, l), Since(l, l1), r);
      if r == Ok {
        OpenedConcat(Since(l0, l), Since(l, l1), false);
        OpenedConcat(Since(l0, l), Since(l, l1), true);
        assert seq(i + 1, k => k) == seq(i, k => k) + [i];
        NumbersConcat(done, s);
        ReportsFrom(env, l0, l1, i + 1, done + s);
      }
    }
  }

  lemma SinceParts(a: Line, b: Line, c: Line)
    requires a.log <= b.log <= c.log
    ensures Since(a, c) == Since(a, b) + Since(b, c)
  {
  }

  lemma NumbersConcat(a: seq<Section>, b: seq<Section>)
    ensures Numbers(a + b) == Numbers(a) + Numbers(b)
  {
  }
}
