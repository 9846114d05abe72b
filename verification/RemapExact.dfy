/** Exactly which pending answers break the atomicity and the order of PDO reconfiguration. */
module RemapExact {
  import opened Can
  import opened SdoCodec
  import opened Bus
  import opened BusOverSdo
  import opened Pdo
  import opened PdoSafety
  import opened SdoPending
  import opened WirePending
  import opened WireSafety
  import Sdo = SdoClient

  // ----- which answers endanger a remap -----

  /** An answer that can be read as the COB-ID of a PDO that is not valid: an Unsigned32 with bit 31
      set, or an acknowledgement, which leaves the buffer as it is. */
  predicate MayReadDisabled(f: Frame) { Can2Sdo(BIT31, f, Unsigned32).1.data >= NOT_VALID }

  /** The pending answers that let a remap go wrong: the oldest passes for the COB-ID, and either it
      can make the run skip the disabling write, or the answer that this write is told by passes,
      which without a second one is that of the upload. */
  predicate Endangers(pending: seq<Frame>)
  {
    && pending != [] && Passes(pending[0], Unsigned32)
    && (MayReadDisabled(pending[0]) || |pending| == 1 || Passes(pending[1], Unsigned32))
  }

  /** What a passing answer reads as: the buffer as it was, or always the same word. */
  lemma ReadsFixed(f: Frame, stale: Msg)
    requires Passes(f, Unsigned32) && !MayReadDisabled(f)
    ensures var data := Can2Sdo(stale, f, Unsigned32).1.data;
            data == Can2Sdo(Sdo.ZERO_MSG, f, Unsigned32).1.data && data < NOT_VALID
  {
    hide Ldle32, Ldle16, UnpackCmd, FuncBits, NodeBits;
  }

  /** A PDO that is valid holds the old configuration or the whole new one. */
  predicate Atomic(d: Dict, now: Dict, req: Request)
    requires ParamsOk(req)
  {
    Valid(now, req) ==> Active(now, req) == Active(d, req) || (Complete(req) && Active(now, req) == Written(d, req))
  }

  /** The device after k transfers of the remap. */
  function RemapState(net: Sdo.Net, env: Sdo.Script, node: u8, dev: Device, req: Request, k: nat): Device
    requires |req.objs| < 0xFF && k <= |RemapLog(net, env, node, dev, req)|
  {
    Replay(dev, RemapLog(net, env, node, dev, req)[..k])
  }

  /** In all fair surroundings the remap is atomic after any number of transfers. */
  ghost predicate AlwaysAtomic(net: Sdo.Net, node: u8, dev: Device, req: Request)
    requires |req.objs| < 0xFF && ParamsOk(req)
  {
    forall env: Sdo.Script, k: nat | Fair(env, node) && k <= |RemapLog(net, env, node, dev, req)| ::
      Atomic(dev.dict, RemapState(net, env, node, dev, req, k).dict, req)
  }

  /** In all fair surroundings the remap writes only what the server allows in its state. */
  ghost predicate AlwaysOrdered(net: Sdo.Net, node: u8, dev: Device, req: Request)
    requires |req.objs| < 0xFF
  {
    forall env: Sdo.Script, k: nat | Fair(env, node) && k < |RemapLog(net, env, node, dev, req)| ::
      var ev := RemapLog(net, env, node, dev, req)[k];
      ev.Write? ==> Permitted(RemapState(net, env, node, dev, req, k).dict, req, Put(ev.e, ev.v))
  }

  // ----- the first transfers of a remap -----

  function ReadAsk(req: Request): Ask { AskRead(CobEntry(req)) }

  /** The number that the client takes for the COB-ID. */
  function TakenCob(net: Sdo.Net, env: Sdo.Script, node: u8): u32
    requires Pending(net, node) != []
  {
    Can2Sdo(env(net.clock).stale, Pending(net, node)[0], Unsigned32).1.data
  }

  /** The upload with an answer pending: it succeeds exactly if the oldest passes, and then the COB-ID
      is what that reads as. */
  lemma FirstTransfer(net: Sdo.Net, env: Sdo.Script, node: u8, dev: Device, req: Request)
    requires Reaches(net, env, node, dev) && Fair(env, node) && AllGot(net.queue) && Pending(net, node) != []
    ensures var read := FirstRead(WireEnv(net, env, node), Line(dev, []), req);
            && (Succeeded(read) <==> env(net.clock).sendFails.None? && Passes(Pending(net, node)[0], Unsigned32))
            && (Succeeded(read) ==> Heard(read.out, Get(dev.dict, CobEntry(req))) == TakenCob(net, env, node))
            && NetAfter(net, env, node, [read]) == Attempt(net, env, node, ReadAsk(req)).1
  {
    hide Attempt, Can2Sdo, Holds, Sdo.Register, Sdo.FromUnion, Pending, Sdo.Served, Truth;
    var ask := ReadAsk(req);
    var read := FirstRead(WireEnv(net, env, node), Line(dev, []), req);
    assert Clean(env(net.clock), SdoRespId(node));
    NetStep(net, env, node, [], read);
    assert [] + [read] == [read];
    SucceedsIfPasses(net, env, node, ask);
    if Succeeded(read) {
      ToldByOldest(net, env, node, ask);
      UnsignedValue(TakenCob(net, env, node));
      BusIsWire(net, env, node, ask, dev, read);
    }
  }

  lemma UnsignedValue(u: u32)
    ensures Sdo.FromUnion(Unsigned32, u) == u
  {
  }

  /** The events of a remap begin with the upload, and if that succeeds go on with the first write. */
  lemma RemapBegins(env: Env, l: Line, req: Request)
    requires |req.objs| < 0xFF && ParamsOk(req)
    ensures var read := FirstRead(env, l, req);
            var l1, plan := Step(l, read), PlanHeard(read.out, l.dev.dict, req);
            var evs := Events(env, l, req);
            && plan != []
            && (!Succeeded(read) ==> evs == [read])
            && (Succeeded(read) ==>
                  var w := FirstPut(env, l1, plan);
                  && |evs| >= 2 && evs[0] == read && evs[1] == w
                  && (!Succeeded(w) ==> evs == [read, w])
                  && (Succeeded(w) && |plan| >= 2 ==> |evs| >= 3 && evs[2] == FirstPut(env, Step(l1, w), plan[1..])))
  {
    hide Since, RunPuts, MapPuts, OptionPuts, TailPuts, Apply, Remap;
    var read := FirstRead(env, l, req);
    var l1, plan := Step(l, read), PlanHeard(read.out, l.dev.dict, req);
    RemapSplits(env, l, req);
    assert [read] + [] == [read];
    if Succeeded(read) {
      var w := FirstPut(env, l1, plan);
      RunSplits(env, l1, plan);
      assert [read] + ([w] + []) == [read, w];
      if Succeeded(w) && |plan| >= 2 {
        RunSplits(env, Step(l1, w), plan[1..]);
      }
    }
  }

  /** How the plan begins. */
  lemma PlanBegins(req: Request, comm: u32)
    requires |req.objs| < 0xFF && ParamsOk(req)
    ensures var plan := Plan(req, comm);
            if comm < NOT_VALID
            then |plan| >= 2 && plan[0] == Put(CobEntry(req), Disabled(comm)) && plan[1] == Put(CountEntry(req), 0)
            else plan != [] && plan[0] == Put(CountEntry(req), 0)
  {
  }

  // ----- the remap is safe unless endangered -----

  /** A run of at most one write, and that to the COB-ID with bit 31 set. */
  predicate Harmless(evs: seq<Event>, req: Request)
  {
    && 1 <= |evs| <= 2 && evs[0].Read?
    && (|evs| == 2 ==> evs[1].Write? && evs[1].e == CobEntry(req) && evs[1].v >= NOT_VALID)
  }

  lemma HarmlessAtomic(dev: Device, evs: seq<Event>, req: Request, k: nat)
    requires ParamsOk(req) && Harmless(evs, req) && k <= |evs|
    ensures Atomic(dev.dict, Replay(dev, evs[..k]).dict, req)
  {
    hide Active, Written;
    NothingOrOne(dev, evs, k);
  }

  /** The device after at most one read and one event more. */
  lemma NothingOrOne(dev: Device, evs: seq<Event>, k: nat)
    requires k <= |evs| <= 2 && |evs| >= 1 && evs[0].Read?
    ensures Replay(dev, evs[..k]) == if k == 2 then Apply(dev, evs[1]) else dev
  {
    hide Apply, Replay;
    if k == 0 {
      NothingYetReplayed(dev, evs[..k]);
    } else if k == 1 {
      assert evs[..1] == [evs[0]];
      ReplayOne(dev, evs[0]);
      ReadApplies(dev, evs[0]);
    } else {
      assert evs[..2] == [evs[0]] + [evs[1]];
      ReplayConcat(dev, [evs[0]], [evs[1]]);
      ReplayOne(dev, evs[0]);
      ReplayOne(dev, evs[1]);
      ReadApplies(dev, evs[0]);
    }
  }

  lemma NothingYetReplayed(dev: Device, evs: seq<Event>)
    requires evs == []
    ensures Replay(dev, evs) == dev
  {
  }

  lemma ReadApplies(dev: Device, ev: Event)
    requires ev.Read?
    ensures Apply(dev, ev) == dev
  {
  }

  /** With answers pending that do not endanger it, the run ends with the upload, or with the write
      that disables the PDO, and that for the COB-ID that the oldest answer always reads as. */
  lemma StopsEarly(net: Sdo.Net, env: Sdo.Script, node: u8, dev: Device, req: Request)
    requires |req.objs| < 0xFF && ParamsOk(req)
    requires Reaches(net, env, node, dev) && Fair(env, node) && AllGot(net.queue)
    requires Pending(net, node) != [] && !Endangers(Pending(net, node))
    ensures var evs := RemapLog(net, env, node, dev, req);
            && Harmless(evs, req)
            && (|evs| == 2 ==> Passes(Pending(net, node)[0], Unsigned32)
                               && evs[1].v == Disabled(Can2Sdo(Sdo.ZERO_MSG, Pending(net, node)[0], Unsigned32).1.data))
  {
    hide Attempt, Can2Sdo, Reaches, Holds, Pending, Passes, MayReadDisabled, Plan, WireEnv, Apply, Events;
    var bus, l := WireEnv(net, env, node), Line(dev, []);
    var read := FirstRead(bus, l, req);
    FirstTransfer(net, env, node, dev, req);
    RemapBegins(bus, l, req);
    if Succeeded(read) {
      var pending, comm := Pending(net, node), TakenCob(net, env, node);
      ReadsFixed(pending[0], env(net.clock).stale);
      PlanBegins(req, comm);
      assert Step(l, read).log == [read];
      SecondFails(net, env, node, dev, req, read, FirstPut(bus, Step(l, read), Plan(req, comm)));
    }
  }

  /** The disabling write, told by an answer that does not pass, fails. */
  lemma SecondFails(net: Sdo.Net, env: Sdo.Script, node: u8, dev: Device, req: Request, read: Event, w: Event)
    requires Reaches(net, env, node, dev) && Fair(env, node) && AllGot(net.queue)
    requires |Pending(net, node)| >= 2 && !Passes(Pending(net, node)[1], Unsigned32)
    requires read == FirstRead(WireEnv(net, env, node), Line(dev, []), req) && Succeeded(read)
    requires w.Write? && w.e == CobEntry(req) && w.out == WireEnv(net, env, node).out([read], AskOf(w))
    ensures !Succeeded(w)
  {
    hide Attempt, Can2Sdo, Holds, Sdo.Register, Pending, Sdo.Served, Truth, OutcomeOf, Passes;
    FirstTransfer(net, env, node, dev, req);
    var net1 := NetAfter(net, env, node, [read]);
    assert Clean(env(net.clock), SdoRespId(node)) && Clean(env(net.clock + 1), SdoRespId(node));
    SucceedsIfPasses(net, env, node, ReadAsk(req));
    SucceedsIfPasses(net1, env, node, AskOf(w));
    assert Queued(net1, env, node, AskOf(w))[0] == Pending(net, node)[1];
  }

  /** The safe half: with nothing pending, or with answers that do not endanger it, the remap is
      atomic in all fair surroundings, whatever the PDO holds and whatever is requested. */
  lemma SafeRemap(net: Sdo.Net, node: u8, dev: Device, req: Request)
    requires |req.objs| < 0xFF && ParamsOk(req) && node < 0x80
    requires Sdo.WellTyped(net.server) && Holds(net.server, node, dev) && AllGot(net.queue)
    requires !Endangers(Pending(net, node))
    ensures AlwaysAtomic(net, node, dev, req)
  {
    hide Atomic, Holds, Endangers, Replay, Pending, Sdo.WellTyped, RemapLog;
    forall env: Sdo.Script, k: nat | Fair(env, node) && k <= |RemapLog(net, env, node, dev, req)|
      ensures Atomic(dev.dict, RemapState(net, env, node, dev, req, k).dict, req)
    {
      if Pending(net, node) == [] {
        NoneWhenFair(net, env, node);
        WireRemap(net, env, node, dev, req, k);
        AtomicFromRemap(dev.dict, RemapState(net, env, node, dev, req, k).dict, req);
      } else {
        StopsEarly(net, env, node, dev, req);
        HarmlessAtomic(dev, RemapLog(net, env, node, dev, req), req, k);
      }
    }
  }

  lemma AtomicFromRemap(d: Dict, now: Dict, req: Request)
    requires ParamsOk(req)
    requires Valid(now, req) ==> Active(now, req) == Active(d, req)
                                 || (Complete(req) && Active(now, req) == Written(d, req))
    ensures Atomic(d, now, req)
  {
  }

  // ----- and it breaks when endangered -----

  /** The PDO is in use, valid with something mapped, and the server types its two entries as the
      library does. */
  ghost predicate InUse(net: Sdo.Net, node: u8, dev: Device, req: Request)
  {
    && Valid(dev.dict, req) && Get(dev.dict, CountEntry(req)) > 0
    && KeyOf(node, CobEntry(req)) in net.server.od && Size(net.server.od[KeyOf(node, CobEntry(req))]) == 4
    && KeyOf(node, CountEntry(req)) in net.server.od && Size(net.server.od[KeyOf(node, CountEntry(req))]) == 1
  }

  /** Zeroing the count of a PDO in use is against the rules, and what it leaves is neither the old
      nor the new configuration of a request for something. */
  lemma ZeroedInUse(d: Dict, req: Request)
    requires |req.objs| < 0xFF && ParamsOk(req) && req.objs != []
    requires Valid(d, req) && Get(d, CountEntry(req)) > 0
    ensures !Permitted(d, req, Put(CountEntry(req), 0))
    ensures !Atomic(d, d[CountEntry(req) := 0], req)
  {
    var now := d[CountEntry(req) := 0];
    assert |Mapping(now, req)| == 0 && |Mapping(d, req)| > 0;
    assert Active(now, req).mapping == Mapping(now, req) && Active(d, req).mapping == Mapping(d, req);
    assert |Written(d, req).mapping| == |req.objs|;
  }

  /** First way to break: the answer reads with bit 31 set, the run skips the disabling write and
      zeroes the count of the valid PDO.  The server consents to everything. */
  lemma SkipBreaks(net: Sdo.Net, node: u8, dev: Device, req: Request)
    requires |req.objs| < 0xFF && ParamsOk(req) && req.objs != [] && InUse(net, node, dev, req)
    requires Reaches(net, SkippingAt(net.clock), node, dev) && AllGot(net.queue)
    requires Pending(net, node) != [] && Passes(Pending(net, node)[0], Unsigned32)
    requires MayReadDisabled(Pending(net, node)[0])
    ensures var env := SkippingAt(net.clock);
            var evs := RemapLog(net, env, node, dev, req);
            && |evs| >= 2 && evs[1].Write? && evs[1].e == CountEntry(req) && evs[1].v == 0 && Applied(evs[1].out)
            && RemapState(net, env, node, dev, req, 1).dict == dev.dict
            && RemapState(net, env, node, dev, req, 2).dict == dev.dict[CountEntry(req) := 0]
  {
    hide Attempt, Can2Sdo, Reaches, Pending, Passes, Plan, Events, OutcomeOf, Replay, InUse, WireEnv, Apply, NetAfter;
    var env := SkippingAt(net.clock);
    var bus, l := WireEnv(net, env, node), Line(dev, []);
    var read := FirstRead(bus, l, req);
    ScriptsFair(net.clock, node);
    assert env(net.clock).sendFails.None? && env(net.clock + 1).sendFails.None?;
    FirstTransfer(net, env, node, dev, req);
    RemapBegins(bus, l, req);
    PlanBegins(req, TakenCob(net, env, node));
    assert Step(l, read).log == [read];
    var w := FirstPut(bus, Step(l, read), Plan(req, TakenCob(net, env, node)));
    ZeroApplies(net, env, node, dev, req, read, w);
    var evs := RemapLog(net, env, node, dev, req);
    ReadThen(dev, evs, read, w);
  }

  /** The device after the upload and after the write that follows it. */
  lemma ReadThen(dev: Device, evs: seq<Event>, read: Event, w: Event)
    requires |evs| >= 2 && evs[0] == read && evs[1] == w && read.Read? && w.Write? && Applied(w.out)
    ensures Replay(dev, evs[..1]) == dev && Replay(dev, evs[..2]) == dev.(dict := dev.dict[w.e := w.v])
  {
    hide Replay;
    assert evs[..1] == [read, w][..1] && evs[..2] == [read, w][..2];
    NothingOrOne(dev, [read, w], 1);
    NothingOrOne(dev, [read, w], 2);
  }

  /** The zeroing write takes effect. */
  lemma ZeroApplies(net: Sdo.Net, env: Sdo.Script, node: u8, dev: Device, req: Request, read: Event, w: Event)
    requires InUse(net, node, dev, req) && Reaches(net, env, node, dev) && Fair(env, node) && AllGot(net.queue)
    requires Pending(net, node) != []
    requires read == FirstRead(WireEnv(net, env, node), Line(dev, []), req) && Succeeded(read)
    requires env(net.clock + 1).sendFails.None? && env(net.clock + 1).verdict.None?
    requires w.Write? && w.e == CountEntry(req) && w.v == 0 && w.out == WireEnv(net, env, node).out([read], AskOf(w))
    ensures Applied(w.out)
  {
    hide Attempt, Can2Sdo, Holds, Pending, Passes, OutcomeOf, Valid;
    FirstTransfer(net, env, node, dev, req);
    assert Clean(env(net.clock), SdoRespId(node));
    SucceedsIfPasses(net, env, node, ReadAsk(req));
    ConsentApplies(NetAfter(net, env, node, [read]), env, node, AskOf(w));
  }

  /** The answer to an upload that the server consents to passes for an Unsigned32 entry. */
  lemma OwnUploadPasses(net: Sdo.Net, env: Sdo.Script, node: u8, ask: Ask)
    requires ask.AskRead? && Width(ask.e) == 4 && Sdo.WellTyped(net.server) && node < 0x80
    requires env(net.clock) == Consent()
    requires KeyOf(node, ask.e) in net.server.od && Size(net.server.od[KeyOf(node, ask.e)]) == 4
    ensures Passes(Sdo.Served(net.server, CallOf(node, ask), env(net.clock)).1, Unsigned32)
  {
    hide Sdo.Served, Can2Sdo, Sdo.FromUnion;
    var op := CallOf(node, ask);
    Sdo.AnswerIsRegister(net.server, op, Consent(), Sdo.ZERO_MSG);
    assert Sdo.Register(net.server, op, Consent()).0.Value?;
  }

  /** Second way to break: the oldest answer reads as a valid COB-ID, the server refuses the
      disabling write, and the answer that this is told by passes; the count of the valid PDO is
      zeroed next. */
  lemma RefusalBreaks(net: Sdo.Net, node: u8, dev: Device, req: Request)
    requires |req.objs| < 0xFF && ParamsOk(req) && InUse(net, node, dev, req)
    requires Reaches(net, RefusingAt(net.clock + 1), node, dev) && AllGot(net.queue)
    requires Endangers(Pending(net, node)) && !MayReadDisabled(Pending(net, node)[0])
    ensures var env := RefusingAt(net.clock + 1);
            var evs := RemapLog(net, env, node, dev, req);
            && |evs| >= 3 && evs[2].Write? && evs[2].e == CountEntry(req) && evs[2].v == 0 && Applied(evs[2].out)
            && RemapState(net, env, node, dev, req, 2).dict == dev.dict
            && RemapState(net, env, node, dev, req, 3).dict == dev.dict[CountEntry(req) := 0]
  {
    hide Attempt, Can2Sdo, Reaches, Pending, Passes, Plan, Events, OutcomeOf, Replay, InUse, WireEnv, Apply,
         NetAfter, MayReadDisabled, Endangers;
    var env := RefusingAt(net.clock + 1);
    var bus, l := WireEnv(net, env, node), Line(dev, []);
    var read := FirstRead(bus, l, req);
    ScriptsFair(net.clock + 1, node);
    EndangersParts(Pending(net, node));
    assert env(net.clock) == Consent() && env(net.clock + 1) == Refusal(1) && env(net.clock + 2) == Consent();
    FirstTransfer(net, env, node, dev, req);
    var comm := TakenCob(net, env, node);
    ReadsFixed(Pending(net, node)[0], env(net.clock).stale);
    RemapBegins(bus, l, req);
    PlanBegins(req, comm);
    var l1 := Step(l, read);
    assert l1.log == [read];
    var off := FirstPut(bus, l1, Plan(req, comm));
    OffMistaken(net, env, node, dev, req, read, off);
    var l2 := Step(l1, off);
    assert l2.log == [read, off];
    var zero := FirstPut(bus, l2, Plan(req, comm)[1..]);
    ZeroAfterOff(net, env, node, dev, req, read, off, zero);
    ReadOffThen(dev, RemapLog(net, env, node, dev, req), read, off, zero);
  }

  lemma EndangersParts(pending: seq<Frame>)
    requires Endangers(pending)
    ensures pending != [] && Passes(pending[0], Unsigned32)
    ensures MayReadDisabled(pending[0]) || |pending| == 1 || Passes(pending[1], Unsigned32)
  {
  }

  /** The refused disabling write is taken for done. */
  lemma OffMistaken(net: Sdo.Net, env: Sdo.Script, node: u8, dev: Device, req: Request, read: Event, off: Event)
    requires InUse(net, node, dev, req) && Reaches(net, env, node, dev) && Fair(env, node) && AllGot(net.queue)
    requires Pending(net, node) != [] && (|Pending(net, node)| == 1 || Passes(Pending(net, node)[1], Unsigned32))
    requires read == FirstRead(WireEnv(net, env, node), Line(dev, []), req) && Succeeded(read)
    requires env(net.clock) == Consent() && env(net.clock + 1) == Refusal(1)
    requires off.Write? && off.e == CobEntry(req) && off.out == WireEnv(net, env, node).out([read], AskOf(off))
    ensures off.out == Mistaken(0)
    ensures var net2 := NetAfter(net, env, node, [read, off]);
            net2.clock == net.clock + 2 && net2.server.od == net.server.od
  {
    hide Attempt, Can2Sdo, Holds, Pending, Passes, OutcomeOf, Valid, Sdo.Register, Sdo.Served;
    FirstTransfer(net, env, node, dev, req);
    assert Clean(env(net.clock), SdoRespId(node)) && Clean(env(net.clock + 1), SdoRespId(node));
    SucceedsIfPasses(net, env, node, ReadAsk(req));
    OwnUploadPasses(net, env, node, ReadAsk(req));
    var net1 := NetAfter(net, env, node, [read]);
    SucceedsIfPasses(net1, env, node, AskOf(off));
    RefusedPasses(net1, env, node, AskOf(off));
    NetStep(net, env, node, [read], off);
    assert [read] + [off] == [read, off];
  }

  lemma ZeroAfterOff(net: Sdo.Net, env: Sdo.Script, node: u8, dev: Device, req: Request, read: Event, off: Event,
                     zero: Event)
    requires InUse(net, node, dev, req) && Reaches(net, env, node, dev)
    requires var net2 := NetAfter(net, env, node, [read, off]);
             net2.clock == net.clock + 2 && net2.server.od == net.server.od
    requires env(net.clock + 2) == Consent()
    requires zero.Write? && zero.e == CountEntry(req)
    requires zero.out == WireEnv(net, env, node).out([read, off], AskOf(zero))
    ensures Applied(zero.out)
  {
    hide Attempt, OutcomeOf, Valid, Holds;
    ConsentApplies(NetAfter(net, env, node, [read, off]), env, node, AskOf(zero));
  }

  /** The device after a mistaken write and the write that follows it. */
  lemma ReadOffThen(dev: Device, evs: seq<Event>, read: Event, off: Event, w: Event)
    requires |evs| >= 3 && evs[0] == read && evs[1] == off && evs[2] == w
    requires read.Read? && off.out.Mistaken? && w.Write? && Applied(w.out)
    ensures Replay(dev, evs[..2]) == dev && Replay(dev, evs[..3]) == dev.(dict := dev.dict[w.e := w.v])
  {
    hide Replay;
    assert evs[..2] == [read, off] == [read, off][..2] && evs[..3] == [read, off] + [w];
    NothingOrOne(dev, [read, off], 2);
    ReplayConcat(dev, [read, off], [w]);
    ReplayOne(dev, w);
  }

  // ----- the exact conditions -----

  /** Scripts in which the device moves nothing reach every device that the registers hold. */
  lemma FairReaches(net: Sdo.Net, env: Sdo.Script, node: u8, dev: Device)
    requires node < 0x80 && Sdo.WellTyped(net.server) && Holds(net.server, node, dev) && Fair(env, node)
    ensures Reaches(net, env, node, dev)
  {
  }

  /** Remap atomicity, exactly: the run of a request for something, on a PDO in use, is atomic after
      every transfer in all fair surroundings, with any refusals and failed sends, if and only if the
      pending answers do not endanger it: none is pending, or the oldest does not pass for the COB-ID,
      or it always reads as that of a valid PDO and the second does not pass. */
  lemma RemapAtomicExactly(net: Sdo.Net, node: u8, dev: Device, req: Request)
    requires |req.objs| < 0xFF && ParamsOk(req) && req.objs != [] && node < 0x80
    requires Sdo.WellTyped(net.server) && Holds(net.server, node, dev) && AllGot(net.queue)
    requires InUse(net, node, dev, req)
    ensures AlwaysAtomic(net, node, dev, req) <==> !Endangers(Pending(net, node))
  {
    hide Atomic, Holds, Endangers, MayReadDisabled, Pending, InUse, RemapLog, Sdo.WellTyped, Passes, RemapState;
    if !Endangers(Pending(net, node)) {
      SafeRemap(net, node, dev, req);
    } else {
      var env, k := BrokenRun(net, node, dev, req);
    }
  }

  /** The run that breaks an endangered remap. */
  lemma BrokenRun(net: Sdo.Net, node: u8, dev: Device, req: Request) returns (env: Sdo.Script, k: nat)
    requires |req.objs| < 0xFF && ParamsOk(req) && req.objs != [] && node < 0x80
    requires Sdo.WellTyped(net.server) && Holds(net.server, node, dev) && AllGot(net.queue)
    requires InUse(net, node, dev, req) && Endangers(Pending(net, node))
    ensures Fair(env, node) && k < |RemapLog(net, env, node, dev, req)|
    ensures !Atomic(dev.dict, RemapState(net, env, node, dev, req, k + 1).dict, req)
    ensures var ev := RemapLog(net, env, node, dev, req)[k];
            ev.Write? && !Permitted(RemapState(net, env, node, dev, req, k).dict, req, Put(ev.e, ev.v))
  {
    hide Atomic, Permitted, Holds, Endangers, MayReadDisabled, Pending, RemapLog, Sdo.WellTyped, Passes, RemapState;
    ZeroedInUse(dev.dict, req);
    EndangersParts(Pending(net, node));
    if MayReadDisabled(Pending(net, node)[0]) {
      env, k := SkippingAt(net.clock), 1;
      ScriptsFair(net.clock, node);
      FairReaches(net, env, node, dev);
      SkipBreaks(net, node, dev, req);
    } else {
      env, k := RefusingAt(net.clock + 1), 2;
      ScriptsFair(net.clock + 1, node);
      FairReaches(net, env, node, dev);
      RefusalBreaks(net, node, dev, req);
    }
  }

  /** What the oldest answer reads as is the COB-ID that the device holds, if it passes at all. */
  predicate ReadsRight(pending: seq<Frame>, d: Dict, req: Request)
  {
    pending != [] && Passes(pending[0], Unsigned32) ==>
      Can2Sdo(Sdo.ZERO_MSG, pending[0], Unsigned32).1.data == Enabled(Get(d, CobEntry(req)))
  }

  /** Remap ordering, exactly: every write is one that the server allows in its state, in all fair
      surroundings, if and only if the pending answers do not endanger the remap and the oldest, if
      it passes, reads as the COB-ID held. */
  lemma RemapOrderedExactly(net: Sdo.Net, node: u8, dev: Device, req: Request)
    requires |req.objs| < 0xFF && ParamsOk(req) && req.objs != [] && node < 0x80
    requires Sdo.WellTyped(net.server) && Holds(net.server, node, dev) && AllGot(net.queue)
    requires InUse(net, node, dev, req)
    ensures AlwaysOrdered(net, node, dev, req)
            <==> !Endangers(Pending(net, node)) && ReadsRight(Pending(net, node), dev.dict, req)
  {
    hide Permitted, Holds, Endangers, MayReadDisabled, Pending, InUse, RemapLog, Sdo.WellTyped, Passes, RemapState,
         ReadsRight, Atomic;
    if Endangers(Pending(net, node)) {
      var env, k := BrokenRun(net, node, dev, req);
    } else if ReadsRight(Pending(net, node), dev.dict, req) {
      forall env: Sdo.Script, k: nat | Fair(env, node) && k < |RemapLog(net, env, node, dev, req)|
        ensures var ev := RemapLog(net, env, node, dev, req)[k];
                ev.Write? ==> Permitted(RemapState(net, env, node, dev, req, k).dict, req, Put(ev.e, ev.v))
      {
        OrderedRun(net, env, node, dev, req, k);
      }
    } else {
      MisreadRun(net, node, dev, req);
    }
  }

  lemma OrderedRun(net: Sdo.Net, env: Sdo.Script, node: u8, dev: Device, req: Request, k: nat)
    requires |req.objs| < 0xFF && ParamsOk(req) && node < 0x80
    requires Sdo.WellTyped(net.server) && Holds(net.server, node, dev) && AllGot(net.queue) && Fair(env, node)
    requires !Endangers(Pending(net, node)) && ReadsRight(Pending(net, node), dev.dict, req)
    requires k < |RemapLog(net, env, node, dev, req)|
    ensures var ev := RemapLog(net, env, node, dev, req)[k];
            ev.Write? ==> Permitted(RemapState(net, env, node, dev, req, k).dict, req, Put(ev.e, ev.v))
  {
    hide Permitted, Holds, Endangers, MayReadDisabled, Pending, RemapLog, Sdo.WellTyped, Passes, Replay, Can2Sdo,
         Active, Written, Requested, Effects, PlanFor;
    FairReaches(net, env, node, dev);
    var evs := RemapLog(net, env, node, dev, req);
    if Pending(net, node) == [] {
      NoneWhenFair(net, env, node);
      WireRemap(net, env, node, dev, req, k);
    } else {
      StopsEarly(net, env, node, dev, req);
      NothingOrOne(dev, evs, k);
      if k == 1 {
        DisablingPermitted(dev.dict, req, Can2Sdo(Sdo.ZERO_MSG, Pending(net, node)[0], Unsigned32).1.data);
      }
    }
  }

  /** The disabling write is allowed exactly if it keeps the bits of the COB-ID held. */
  lemma DisablingPermitted(d: Dict, req: Request, comm: u32)
    ensures Permitted(d, req, Put(CobEntry(req), Disabled(comm))) <==> Enabled(comm) == Enabled(Get(d, CobEntry(req)))
  {
  }

  /** An oldest answer that reads as another COB-ID makes the run write that. */
  lemma MisreadRun(net: Sdo.Net, node: u8, dev: Device, req: Request)
    requires |req.objs| < 0xFF && ParamsOk(req) && node < 0x80
    requires Sdo.WellTyped(net.server) && Holds(net.server, node, dev) && AllGot(net.queue)
    requires !Endangers(Pending(net, node)) && !ReadsRight(Pending(net, node), dev.dict, req)
    ensures !AlwaysOrdered(net, node, dev, req)
  {
    hide Attempt, Can2Sdo, Reaches, Holds, Pending, Passes, Plan, Events, WireEnv, Apply, NetAfter, MayReadDisabled,
         Permitted, Replay;
    var env := RefusingAt(net.clock + 1);
    var bus, l := WireEnv(net, env, node), Line(dev, []);
    var read := FirstRead(bus, l, req);
    ScriptsFair(net.clock + 1, node);
    FairReaches(net, env, node, dev);
    assert env(net.clock) == Consent();
    FirstTransfer(net, env, node, dev, req);
    ReadsFixed(Pending(net, node)[0], env(net.clock).stale);
    var comm := TakenCob(net, env, node);
    RemapBegins(bus, l, req);
    PlanBegins(req, comm);
    DisablingPermitted(dev.dict, req, comm);
    var evs := RemapLog(net, env, node, dev, req);
    assert evs[..1] == [evs[0]] == [evs[0]][..1];
    NothingOrOne(dev, [evs[0]], 1);
    assert RemapState(net, env, node, dev, req, 1) == dev;
  }

  // ----- where such answers come from -----

  /** After one lost receive of a call that the server carried out, the answer left behind endangers
      the next remap of the node exactly if the call was a download or its object has four bytes. */
  lemma LostCallEndangers(net: Sdo.Net, env: Sdo.Script, op: Sdo.Op, e: Sdo.LinkError)
    requires Sdo.Typed(op.t) && Sdo.WellTyped(net.server) && net.queue == []
    requires Sdo.ObjectOf(op) in net.server.od && Size(net.server.od[Sdo.ObjectOf(op)]) == Size(op.t)
    requires var x := env(net.clock);
             x.sendFails.None? && x.verdict.None? && x.before == [Sdo.Broken(e)] && x.after == []
    ensures var (reply, net') := Sdo.Perform(net, env, op);
            && reply == Sdo.Failed(e) && AllGot(net'.queue) && Sdo.WellTyped(net'.server)
            && |Pending(net', op.node)| == 1
            && (Endangers(Pending(net', op.node)) <==> op.Dl? || Size(op.t) == 4)
            && (op.Dl? ==> Passes(Pending(net', op.node)[0], Unsigned16))
  {
    hide Sdo.Perform, Sdo.Served, Can2Sdo, Sdo.Register, MayReadDisabled;
    LostReceive(net, env, op, e);
    var x, f := env(net.clock), Sdo.Served(net.server, op, env(net.clock)).1;
    Sdo.AnswerIsRegister(net.server, op, x, Sdo.ZERO_MSG);
    assert Sdo.Responses([Sdo.Got(f)], SdoRespId(op.node)) == [f] + [];
    if op.Dl? {
      AckPasses(net.server, op, x, Sdo.ZERO_MSG, Unsigned32);
      AckPasses(net.server, op, x, Sdo.ZERO_MSG, Unsigned16);
    } else {
      UploadPassesBySize(net.server, op, x);
    }
  }

  /** The answer to an upload passes for an Unsigned32 exactly if its object has four bytes. */
  lemma UploadPassesBySize(sv: Sdo.Server, op: Sdo.Op, x: Sdo.Exchange)
    requires Sdo.Typed(op.t) && op.Ul? && Sdo.WellTyped(sv) && x.sendFails.None? && x.verdict.None?
    requires Sdo.ObjectOf(op) in sv.od
    ensures Passes(Sdo.Served(sv, op, x).1, Unsigned32) <==> Size(sv.od[Sdo.ObjectOf(op)]) == 4
  {
    hide Sdo2Can, Can2Sdo, Low, UnpackCmd, NodeBits, Ldle16;
    var sv1, key := Sdo.Moved(sv, x), Sdo.ObjectOf(op);
    Sdo.RequestReads(x.clientScratch, op);
    var resp := Msg(key.index, key.subindex, key.node, SCS_EX_UL, sv1.od[key], 0, Sdo.Stored(sv1, key));
    DataDecodes(x.serverScratch, Sdo.ZERO_MSG, resp, true, Unsigned32);
  }

  /** One lost receive breaks the next remap: from an empty queue, a call of the node that the server
      carried out and whose answer was lost leaves a network in which the remap of a PDO in use is
      atomic in all fair surroundings if and only if the call was an upload of fewer than four bytes. */
  lemma LostReceiveBreaksRemap(net: Sdo.Net, env: Sdo.Script, op: Sdo.Op, e: Sdo.LinkError, dev: Device, req: Request)
    requires Sdo.Typed(op.t) && Sdo.WellTyped(net.server) && net.queue == [] && op.node < 0x80
    requires Sdo.ObjectOf(op) in net.server.od && Size(net.server.od[Sdo.ObjectOf(op)]) == Size(op.t)
    requires var x := env(net.clock);
             x.sendFails.None? && x.verdict.None? && x.before == [Sdo.Broken(e)] && x.after == []
    requires var net' := Sdo.Perform(net, env, op).1;
             Holds(net'.server, op.node, dev) && InUse(net', op.node, dev, req)
    requires |req.objs| < 0xFF && ParamsOk(req) && req.objs != []
    ensures AlwaysAtomic(Sdo.Perform(net, env, op).1, op.node, dev, req) <==> op.Ul? && Size(op.t) < 4
  {
    hide Sdo.Perform, AlwaysAtomic, Holds, InUse, Endangers, Pending;
    LostCallEndangers(net, env, op, e);
    RemapAtomicExactly(Sdo.Perform(net, env, op).1, op.node, dev, req);
  }
}
