/** The node of Bus reached through the SDO client: every transfer is one typed call over frames,
    with whatever is pending on the queue.  The environment that this gives is truthful as long as
    no answer is pending and no receive has failed. */
module BusOverSdo {
  import opened Can
  import opened SdoCodec
  import opened Bus
  import Sdo = SdoClient
  import Ds402

  // ----- the calls behind the transfers -----

  /** The type with which the library accesses an entry. */
  function TypeOf(e: Entry): (t: DataType)
    ensures Sdo.Typed(t) && Size(t) == Width(e) && !Sdo.IsSigned(t)
  {
    match Width(e)
    case 1 => Unsigned8
    case 2 => Unsigned16
    case _ => Unsigned32
  }

  /** Index, subindex and type of a device-profile object. */
  function AddressOf(obj: Readable): (a: (u16, u8, DataType))
    ensures Sdo.Typed(a.2)
  {
    match obj
    case CtrlWord => (0x6040, 0, Unsigned16)
    case OpMode => (0x6060, 0, Integer8)
    case TargetVelocity => (0x6042, 0, Integer16)
    case Position => (0x6064, 0, Integer32)
    case Velocity => (0x606C, 0, Integer32)
    case MinPos => (0x607D, 1, Integer32)
    case MaxPos => (0x607D, 2, Integer32)
  }

  const STAT_INDEX: u16 := 0x6041

  /** The typed call that makes a transfer; the NMT command is not one. */
  function CallOf(node: u8, ask: Ask): (op: Sdo.Op)
    requires ask != AskNmt
    ensures Sdo.Typed(op.t) && op.node == node
  {
    match ask
    case AskRead(e) => Sdo.Ul(node, e.index, e.sub, TypeOf(e))
    case AskWrite(e, v) => Sdo.Dl(node, e.index, e.sub, TypeOf(e), v)
    case AskStat => Sdo.Ul(node, STAT_INDEX, 0, Unsigned16)
    case AskObj(obj) => Sdo.Ul(node, AddressOf(obj).0, AddressOf(obj).1, AddressOf(obj).2)
    case AskCtrl(w) => Sdo.Dl(node, AddressOf(CtrlWord).0, 0, Unsigned16, w as int)
    case AskMode(m) => Sdo.Dl(node, AddressOf(OpMode).0, 0, Integer8, m)
    case AskTarget(t) => Sdo.Dl(node, AddressOf(TargetVelocity).0, 0, Integer16, t)
  }

  /** canmat_send_nmt: one frame, which nobody answers. */
  function SendCommand(net: Sdo.Net, env: Sdo.Script): (Sdo.Reply, Sdo.Net)
  {
    var x := env(net.clock);
    var moved := net.(server := Sdo.Moved(net.server, x), clock := net.clock + 1);
    if x.sendFails.Some? then (Sdo.Failed(x.sendFails.value), moved)
    else (Sdo.Done, moved.(queue := net.queue + x.before + x.after))
  }

  /** What the client sees of a transfer, and the network afterwards. */
  function Attempt(net: Sdo.Net, env: Sdo.Script, node: u8, ask: Ask): (Sdo.Reply, Sdo.Net)
  {
    if ask == AskNmt then SendCommand(net, env) else Sdo.Perform(net, env, CallOf(node, ask))
  }

  /** What the device makes of it. */
  function Truth(net: Sdo.Net, env: Sdo.Script, node: u8, ask: Ask): Sdo.Reply
  {
    if ask == AskNmt then SendCommand(net, env).0
    else Sdo.Register(net.server, CallOf(node, ask), env(net.clock)).0
  }

  predicate Good(r: Sdo.Reply) { r.Value? || r.Done? }

  /** What the client sees against what the device did. */
  function Judge(seen: Sdo.Reply, truth: Sdo.Reply): Outcome
  {
    match seen
    case Value(v) => if seen == truth then Done else Mistaken(v % 0x1_0000_0000)
    case Done => if Good(truth) then Done else Mistaken(0)
    case Aborted(_) => if Good(truth) then Unacked(ErrAbort) else Refused(ErrAbort)
    case Failed(e) => if Good(truth) then Unacked(e) else Refused(e)
  }

  function OutcomeOf(net: Sdo.Net, env: Sdo.Script, node: u8, ask: Ask): Outcome
  {
    Judge(Attempt(net, env, node, ask).0, Truth(net, env, node, ask))
  }

  /** The network after the transfers of a log. */
  function NetAfter(net: Sdo.Net, env: Sdo.Script, node: u8, log: seq<Event>): Sdo.Net
    decreases |log|
  {
    if log == [] then net
    else Attempt(NetAfter(net, env, node, log[..|log| - 1]), env, node, AskOf(log[|log| - 1])).1
  }

  function StatusWord(r: Sdo.Reply): bv16 { if r.Value? then (r.v % 0x1_0000) as bv16 else 0 }

  /** The environment of a node behind the wire. */
  function WireEnv(net: Sdo.Net, env: Sdo.Script, node: u8): Env
  {
    Env((log: seq<Event>, ask: Ask) => OutcomeOf(NetAfter(net, env, node, log), env, node, ask),
        (log: seq<Event>) => StatusWord(Attempt(NetAfter(net, env, node, log), env, node, AskStat).0))
  }

  // ----- the device behind the registers -----

  function KeyOf(node: u8, e: Entry): Sdo.ObjKey { Sdo.ObjKey(node, e.index, e.sub) }

  function ObjKeyOf(node: u8, obj: Readable): Sdo.ObjKey
  {
    Sdo.ObjKey(node, AddressOf(obj).0, AddressOf(obj).1)
  }

  /** A device-profile object of the device as a number. */
  function NumberOf(dev: Device, obj: Readable): int
  {
    match obj
    case CtrlWord => dev.ctrl as int
    case OpMode => dev.mode
    case TargetVelocity => dev.target
    case Position => dev.position
    case Velocity => dev.velocity
    case MinPos => dev.minPos
    case MaxPos => dev.maxPos
  }

  /** The registers of the node hold the device. */
  ghost predicate Holds(sv: Sdo.Server, node: u8, dev: Device)
  {
    && (forall e: Entry :: Get(dev.dict, e) == Sdo.Stored(sv, KeyOf(node, e)) && Fits(e, Get(dev.dict, e)))
    && (forall obj: Readable ::
          Sdo.FromUnion(AddressOf(obj).2, Sdo.Stored(sv, ObjKeyOf(node, obj))) == NumberOf(dev, obj))
  }

  /** The objects that Device holds. */
  predicate Modelled(index: u16, sub: u8)
  {
    0x1000 <= index < 0x2000 || (index in {0x6040, 0x6042, 0x6060, 0x6064, 0x606C} && sub == 0)
    || (index == 0x607D && (sub == 1 || sub == 2))
  }

  /** The device changes none of these by itself; its status word, say, it may. */
  ghost predicate Settled(env: Sdo.Script, node: u8)
  {
    forall i: nat, key | key in env(i).moved :: !(key.node == node && Modelled(key.index, key.subindex))
  }

  /** A network whose registers of the node hold the device. */
  ghost predicate Reaches(net: Sdo.Net, env: Sdo.Script, node: u8, dev: Device)
  {
    node < 0x80 && Sdo.WellTyped(net.server) && Holds(net.server, node, dev) && Settled(env, node)
  }

  /** The number that an upload gives the client of Bus. */
  function Given(dev: Device, ask: Ask, out: Outcome): int
    requires ask.AskRead? || ask.AskObj?
  {
    match ask
    case AskRead(e) => Heard(out, Get(dev.dict, e))
    case AskObj(obj) =>
      if obj == CtrlWord then (if out.Mistaken? then out.seen % 0x1_0000 else NumberOf(dev, obj))
      else Ds402.HeardInt(out, NumberOf(dev, obj), Size(AddressOf(obj).2))
  }

  /** A status word is the one that the answer to its upload carries. */
  lemma StatusIsSeen(net: Sdo.Net, env: Sdo.Script, node: u8, log: seq<Event>)
    ensures var seen := Attempt(NetAfter(net, env, node, log), env, node, AskStat).0;
            seen.Value? ==> 0 <= seen.v < 0x1_0000 && WireEnv(net, env, node).stat(log) == seen.v as bv16
  {
    hide NetAfter, Sdo.Perform, CallOf;
    StatusInRange(NetAfter(net, env, node, log), env, node);
  }

  lemma StatusInRange(net: Sdo.Net, env: Sdo.Script, node: u8)
    ensures var r := Sdo.Perform(net, env, CallOf(node, AskStat)).0; r.Value? ==> 0 <= r.v < 0x1_0000
  {
    hide Sdo.Query;
  }

  /** What init loads is the number that the upload gives, mistaken answers included. */
  lemma LoadedIsGiven(d: Ds402.Drive, dev: Device, obj: Readable, out: Outcome)
    requires obj != CtrlWord
    ensures var e, v := Ds402.Loaded(d, dev, obj, out), Given(dev, AskObj(obj), out);
            match obj
            case Position => e.actualPosRaw == v
            case Velocity => e.actualVelRaw == v
            case TargetVelocity => e.targetVelRaw == v
            case OpMode => e.opMode == v
            case _ => e == d
  {
    hide Ds402.HeardInt;
  }

  /** And so is the control word. */
  lemma WordIsGiven(d: Ds402.Drive, dev: Device, out: Outcome)
    ensures var v := Given(dev, AskObj(CtrlWord), out);
            0 <= v < 0x1_0000 && Ds402.Loaded(d, dev, CtrlWord, out).ctrlWord == v as bv16
  {
    if out.Mistaken? {
      assert Given(dev, AskObj(CtrlWord), out) == out.seen % 0x1_0000;
    } else {
      assert Given(dev, AskObj(CtrlWord), out) == dev.ctrl as int;
      WordBack(dev.ctrl);
    }
  }

  lemma WordBack(w: bv16)
    ensures (w as int) as bv16 == w
  {
  }

  lemma LimitIsGiven(env: Env, l: Line, obj: Readable)
    requires obj.MinPos? || obj.MaxPos?
    ensures Ds402.UlLimit(env, l, obj).1 == Given(l.dev, AskObj(obj), env.out(l.log, AskObj(obj)))
  {
  }

  predicate AskFits(ask: Ask) { ask.AskWrite? ==> Fits(ask.e, ask.v) }

  lemma LowFits(e: Entry, u: u32)
    requires Fits(e, u)
    ensures Sdo.InRange(TypeOf(e), u) && Low(Size(TypeOf(e)), u) == u
  {
  }

  /** One accepted download, for the registers of one object. */
  lemma RegisterAfter(sv: Sdo.Server, node: u8, ask: Ask, x: Sdo.Exchange, key: Sdo.ObjKey)
    requires ask != AskNmt && node < 0x80 && key.node == node && key !in x.moved
    ensures var op := CallOf(node, ask);
            var (truth, sv') := Sdo.Register(sv, op, x);
            Sdo.Stored(sv', key) == if op.Dl? && Sdo.ObjectOf(op) == key && truth == Sdo.Done
                                    then Sdo.ToUnion(op.t, op.v) else Sdo.Stored(sv, key)
  {
    hide Sdo.Register, Sdo.ToUnion, Sdo.FromUnion;
    Sdo.RegisterStep(sv, CallOf(node, ask), x, key);
  }

  predicate Writes(ask: Ask) { ask.AskWrite? || ask.AskCtrl? || ask.AskMode? || ask.AskTarget? }

  /** What the downloads write is in the range of their types. */
  lemma WritesInRange(node: u8, ask: Ask)
    requires Writes(ask) && AskFits(ask)
    ensures var op := CallOf(node, ask); op.Dl? && Sdo.InRange(op.t, op.v)
  {
    match ask
    case AskWrite(e, v) => LowFits(e, v);
    case AskCtrl(w) => WordInRange(w);
    case _ =>
  }

  lemma WordInRange(w: bv16)
    ensures Sdo.InRange(Unsigned16, w as int)
  {
  }

  /** The number that a call writes is read back from its register. */
  lemma WrittenReads(node: u8, ask: Ask)
    requires Writes(ask) && AskFits(ask)
    ensures var op := CallOf(node, ask);
            && op.Dl? && Sdo.FromUnion(op.t, Sdo.ToUnion(op.t, op.v)) == op.v
            && (ask.AskWrite? ==> Sdo.ToUnion(op.t, op.v) == ask.v)
  {
    hide Sdo.ToUnion, Sdo.FromUnion, Sdo.InRange, Fits, TypeOf, AddressOf;
    var op := CallOf(node, ask);
    WritesInRange(node, ask);
    Sdo.UnionRoundTrip(op.t, op.v);
    if ask.AskWrite? {
      Unsigned(op.t, ask.v);
    }
  }

  lemma Unsigned(t: DataType, v: u32)
    requires Sdo.Typed(t) && !Sdo.IsSigned(t) && Sdo.InRange(t, v)
    ensures Sdo.ToUnion(t, v) == v
  {
  }

  /** Calls of different transfers address different registers. */
  lemma Targets(node: u8, ask: Ask)
    requires ask != AskNmt && node < 0x80
    ensures var target := Sdo.ObjectOf(CallOf(node, ask));
            && (forall e: Entry :: target == KeyOf(node, e) <==> (ask.AskRead? || ask.AskWrite?) && ask.e == e)
            && (forall obj: Readable :: target == ObjKeyOf(node, obj) <==>
                  match ask
                  case AskObj(o) => o == obj
                  case AskCtrl(_) => obj == CtrlWord
                  case AskMode(_) => obj == OpMode
                  case AskTarget(_) => obj == TargetVelocity
                  case _ => false)
            && target.node == node
  {
  }

  lemma ModelledKeys(env: Sdo.Script, node: u8, i: nat)
    requires Settled(env, node)
    ensures forall e: Entry :: KeyOf(node, e) !in env(i).moved
    ensures forall obj: Readable :: ObjKeyOf(node, obj) !in env(i).moved
  {
  }

  /** The registers still hold the device after the device has reacted: an upload. */
  lemma UploadHolds(sv: Sdo.Server, env: Sdo.Script, c: nat, node: u8, ask: Ask, dev: Device)
    requires ask.AskRead? || ask.AskStat? || ask.AskObj?
    requires node < 0x80 && Holds(sv, node, dev) && Settled(env, node)
    ensures Holds(Sdo.Register(sv, CallOf(node, ask), env(c)).1, node, dev)
  {
    hide Sdo.Register, Sdo.ToUnion, Sdo.FromUnion, Sdo.Stored, AddressOf, TypeOf, Fits;
    ModelledKeys(env, node, c);
    forall e: Entry
      ensures Sdo.Stored(Sdo.Register(sv, CallOf(node, ask), env(c)).1, KeyOf(node, e))
              == Sdo.Stored(sv, KeyOf(node, e))
    {
      RegisterAfter(sv, node, ask, env(c), KeyOf(node, e));
    }
    forall obj: Readable
      ensures Sdo.Stored(Sdo.Register(sv, CallOf(node, ask), env(c)).1, ObjKeyOf(node, obj))
              == Sdo.Stored(sv, ObjKeyOf(node, obj))
    {
      RegisterAfter(sv, node, ask, env(c), ObjKeyOf(node, obj));
    }
  }

  /** A download. */
  lemma DownloadHolds(sv: Sdo.Server, env: Sdo.Script, c: nat, node: u8, ask: Ask, dev: Device, ev: Event)
    requires Writes(ask) && AskFits(ask) && AskOf(ev) == ask
    requires node < 0x80 && Holds(sv, node, dev) && Settled(env, node)
    requires Applied(ev.out) <==> Sdo.Register(sv, CallOf(node, ask), env(c)).0 == Sdo.Done
    ensures Holds(Sdo.Register(sv, CallOf(node, ask), env(c)).1, node, Apply(dev, ev))
  {
    hide Sdo.Register, Sdo.ToUnion, Sdo.FromUnion, Sdo.Stored, AddressOf, TypeOf, Fits, CallOf;
    var (truth, sv') := Sdo.Register(sv, CallOf(node, ask), env(c));
    ModelledKeys(env, node, c);
    WrittenReads(node, ask);
    Targets(node, ask);
    forall e: Entry
      ensures Get(Apply(dev, ev).dict, e) == Sdo.Stored(sv', KeyOf(node, e)) && Fits(e, Get(Apply(dev, ev).dict, e))
    {
      RegisterAfter(sv, node, ask, env(c), KeyOf(node, e));
    }
    forall obj: Readable
      ensures Sdo.FromUnion(AddressOf(obj).2, Sdo.Stored(sv', ObjKeyOf(node, obj))) == NumberOf(Apply(dev, ev), obj)
    {
      RegisterAfter(sv, node, ask, env(c), ObjKeyOf(node, obj));
      CallTypes(node, ask, obj);
    }
  }

  /** The type of a download to a device-profile object is that of the object. */
  lemma CallTypes(node: u8, ask: Ask, obj: Readable)
    requires Writes(ask)
    ensures var op := CallOf(node, ask);
            && (ask.AskCtrl? && obj == CtrlWord ==> op.t == AddressOf(obj).2 && op.v == ask.ctrl as int)
            && (ask.AskMode? && obj == OpMode ==> op.t == AddressOf(obj).2 && op.v == ask.mode)
            && (ask.AskTarget? && obj == TargetVelocity ==> op.t == AddressOf(obj).2 && op.v == ask.target)
            && op.Dl?
  {
  }

  // ----- one transfer of Bus is one call over the wire -----

  /** A truthful register answers an upload with the number that the device holds. */
  lemma TruthOfUpload(net: Sdo.Net, env: Sdo.Script, node: u8, ask: Ask, dev: Device)
    requires ask.AskRead? || ask.AskObj?
    requires Reaches(net, env, node, dev) && Truth(net, env, node, ask).Value?
    ensures Truth(net, env, node, ask).v ==
            match ask case AskRead(e) => Get(dev.dict, e) case AskObj(o) => NumberOf(dev, o)
  {
    hide Sdo.Register, Sdo.ToUnion, Sdo.FromUnion, AddressOf, TypeOf, Fits;
    var x, op := env(net.clock), CallOf(node, ask);
    ModelledKeys(env, node, net.clock);
    Targets(node, ask);
    Sdo.RegisterStep(net.server, op, x, Sdo.ObjectOf(op));
    match ask
    case AskRead(e) =>
      LowFits(e, Get(dev.dict, e));
      UnsignedRead(TypeOf(e), Get(dev.dict, e));
    case AskObj(_) =>
  }

  lemma UnsignedRead(t: DataType, u: u32)
    requires Sdo.Typed(t) && !Sdo.IsSigned(t) && Low(Size(t), u) == u
    ensures Sdo.FromUnion(t, u) == u
  {
  }

  /** A number of the type, kept as the bits of a mistaken answer, reads as itself. */
  lemma MistakenReads(t: DataType, v: int)
    requires Sdo.Typed(t) && Sdo.InRange(t, v)
    ensures var seen: u32 := v % 0x1_0000_0000;
            && (Sdo.IsSigned(t) ==> Signed(seen, Size(t)) == v)
            && (!Sdo.IsSigned(t) ==> seen == v && Low(Size(t), seen) == v)
  {
    if Sdo.IsSigned(t) {
      match Size(t)
      case 1 => Reads8(v);
      case 2 => Reads16(v);
      case _ => Reads32(v);
    } else {
      assert v % 0x1_0000_0000 == v;
    }
  }

  lemma Reads8(v: int)
    requires -0x80 <= v < 0x80
    ensures Signed(v % 0x1_0000_0000, 1) == v
  {
    assert v % 0x1_0000_0000 == if v >= 0 then v else v + 0x1_0000_0000;
  }

  lemma Reads16(v: int)
    requires -0x8000 <= v < 0x8000
    ensures Signed(v % 0x1_0000_0000, 2) == v
  {
    assert v % 0x1_0000_0000 == if v >= 0 then v else v + 0x1_0000_0000;
  }

  lemma Reads32(v: int)
    requires -0x8000_0000 <= v < 0x8000_0000
    ensures Signed(v % 0x1_0000_0000, 4) == v
  {
    assert v % 0x1_0000_0000 == if v >= 0 then v else v + 0x1_0000_0000;
  }

  lemma UnionInRange(t: DataType, u: u32)
    requires Sdo.Typed(t)
    ensures Sdo.InRange(t, Sdo.FromUnion(t, u))
  {
  }

  /** The value of a successful typed upload is in the range of its type. */
  lemma UploadInRange(net: Sdo.Net, env: Sdo.Script, op: Sdo.Op)
    requires Sdo.Typed(op.t) && Sdo.Perform(net, env, op).0.Value?
    ensures op.Ul? && Sdo.InRange(op.t, Sdo.Perform(net, env, op).0.v)
  {
    hide Sdo.Query, Sdo.FromUnion;
    var x := env(net.clock);
    UnionInRange(op.t, Sdo.Query(net, env, Sdo.Request(op), x.clientScratch, x.stale).resp.data);
  }

  /** Whatever is pending on the queue: the status of the transfer in Bus is that of the call, an
      upload gives the same number, and after it the registers hold the device of Bus. */
  lemma BusIsWire(net: Sdo.Net, env: Sdo.Script, node: u8, ask: Ask, dev: Device, ev: Event)
    requires Reaches(net, env, node, dev) && AskFits(ask)
    requires AskOf(ev) == ask && ev.out == OutcomeOf(net, env, node, ask)
    ensures var (seen, net') := Attempt(net, env, node, ask);
            && StatusOf(ev.out) == (match seen case Aborted(_) => ErrAbort case Failed(e) => e case _ => Ok)
            && (seen.Value? && (ask.AskRead? || ask.AskObj?) ==> seen.v == Given(dev, ask, ev.out))
            && Reaches(net', env, node, Apply(dev, ev))
  {
    hide Sdo.Perform, Sdo.Register, AddressOf, TypeOf, Fits, NumberOf, Holds, Settled, CallOf, Given, AskFits;
    if ask == AskNmt {
      CommandHolds(net, env, node, dev, ev);
    } else {
      Sdo.PerformServes(net, env, CallOf(node, ask));
      RepliesOf(net, env, node, ask);
      if Writes(ask) {
        DownloadHolds(net.server, env, net.clock, node, ask, dev, ev);
      } else {
        UploadHolds(net.server, env, net.clock, node, ask, dev);
        assert Apply(dev, ev) == dev;
        if ask != AskStat && Attempt(net, env, node, ask).0.Value? {
          GivenIsSeen(net, env, node, ask, dev);
        }
      }
    }
  }

  /** Downloads reply Done and uploads a value, when they succeed. */
  lemma RepliesOf(net: Sdo.Net, env: Sdo.Script, node: u8, ask: Ask)
    requires ask != AskNmt
    ensures var op := CallOf(node, ask);
            var seen, truth := Sdo.Perform(net, env, op).0, Sdo.Register(net.server, op, env(net.clock)).0;
            && (Writes(ask) ==> !seen.Value? && !truth.Value?)
            && (!Writes(ask) ==> !seen.Done? && !truth.Done?)
  {
    hide Sdo.Query;
  }

  lemma CommandHolds(net: Sdo.Net, env: Sdo.Script, node: u8, dev: Device, ev: Event)
    requires Reaches(net, env, node, dev) && ev.SendNmt?
    ensures Reaches(SendCommand(net, env).1, env, node, Apply(dev, ev))
    ensures Attempt(net, env, node, AskNmt).0 == Truth(net, env, node, AskNmt)
  {
    hide Sdo.FromUnion, AddressOf, Fits;
    ModelledKeys(env, node, net.clock);
    var sv, sv' := net.server, SendCommand(net, env).1.server;
    assert forall e: Entry :: Sdo.Stored(sv', KeyOf(node, e)) == Sdo.Stored(sv, KeyOf(node, e));
    assert forall obj: Readable :: Sdo.Stored(sv', ObjKeyOf(node, obj)) == Sdo.Stored(sv, ObjKeyOf(node, obj));
  }

  /** The number that Bus gives the client is the one that the client reads off the wire. */
  lemma GivenIsSeen(net: Sdo.Net, env: Sdo.Script, node: u8, ask: Ask, dev: Device)
    requires ask.AskRead? || ask.AskObj?
    requires Reaches(net, env, node, dev) && Attempt(net, env, node, ask).0.Value?
    ensures Attempt(net, env, node, ask).0.v == Given(dev, ask, OutcomeOf(net, env, node, ask))
  {
    hide Sdo.Perform, Sdo.Register, Reaches;
    var seen, truth := Attempt(net, env, node, ask).0, Truth(net, env, node, ask);
    UploadInRange(net, env, CallOf(node, ask));
    MistakenReads(CallOf(node, ask).t, seen.v);
    if seen == truth {
      TruthOfUpload(net, env, node, ask, dev);
    }
  }

  // ----- whole logs -----

  predicate AllFit(log: seq<Event>) { forall ev | ev in log :: AskFits(AskOf(ev)) }

  lemma NetUnfolds(net: Sdo.Net, env: Sdo.Script, node: u8, log: seq<Event>, ev: Event)
    ensures NetAfter(net, env, node, log + [ev]) == Attempt(NetAfter(net, env, node, log), env, node, AskOf(ev)).1
  {
    assert (log + [ev])[..|log|] == log;
  }

  lemma GenuineSnoc(env: Env, log: seq<Event>, ev: Event)
    requires Genuine(env, log + [ev], 0)
    ensures Genuine(env, log, 0) && Decided(env, log, ev)
  {
    hide Decided;
    assert (log + [ev])[..|log|] == log;
    forall i | 0 <= i < |log|
      ensures Decided(env, log[..i], log[i])
    {
      assert (log + [ev])[..i] == log[..i] && (log + [ev])[i] == log[i];
    }
  }

  lemma DecidedByWire(net: Sdo.Net, env: Sdo.Script, node: u8, log: seq<Event>, ev: Event)
    requires Decided(WireEnv(net, env, node), log, ev)
    ensures ev.out == OutcomeOf(NetAfter(net, env, node, log), env, node, AskOf(ev))
  {
    hide OutcomeOf, NetAfter;
  }

  lemma NothingYet(net: Sdo.Net, env: Sdo.Script, node: u8, dev: Device)
    ensures NetAfter(net, env, node, []) == net && Replay(dev, []) == dev
  {
  }

  /** After every log that the client of Bus can produce over the wire, with answers pending or not,
      the registers of the node hold the device of Bus. */
  lemma {:induction false} WireTracks(net: Sdo.Net, env: Sdo.Script, node: u8, dev: Device, log: seq<Event>)
    requires Reaches(net, env, node, dev) && AllFit(log)
    requires Genuine(WireEnv(net, env, node), log, 0)
    ensures Reaches(NetAfter(net, env, node, log), env, node, Replay(dev, log))
    decreases |log|
  {
    hide Reaches, AskFits, Apply, OutcomeOf, Genuine, WireEnv, Decided, Attempt, Replay, NetAfter;
    if log == [] {
      NothingYet(net, env, node, dev);
    } else {
      var front, ev := log[..|log| - 1], log[|log| - 1];
      assert log == front + [ev] && ev in log;
      GenuineSnoc(WireEnv(net, env, node), front, ev);
      WireTracks(net, env, node, dev, front);
      NetUnfolds(net, env, node, front, ev);
      ReplayConcat(dev, front, [ev]);
      ReplayOne(Replay(dev, front), ev);
      DecidedByWire(net, env, node, front, ev);
      BusIsWire(NetAfter(net, env, node, front), env, node, AskOf(ev), Replay(dev, front), ev);
    }
  }

  /** No answer of the node is pending, and none comes from elsewhere. */
  ghost predicate NonePending(net: Sdo.Net, env: Sdo.Script, node: u8)
  {
    Sdo.Responses(net.queue, SdoRespId(node)) == [] && Sdo.Surrounds(env, SdoRespId(node))
  }

  /** With no answer pending a call is told the truth, and if it succeeds none is left behind. */
  lemma NoneMistaken(net: Sdo.Net, env: Sdo.Script, node: u8, ask: Ask)
    requires Sdo.WellTyped(net.server) && NonePending(net, env, node)
    ensures var out, net' := OutcomeOf(net, env, node, ask), Attempt(net, env, node, ask).1;
            && !out.Mistaken? && Sdo.WellTyped(net'.server)
            && (StatusOf(out) == Ok ==> NonePending(net', env, node))
  {
    hide Sdo.Register, Sdo.Perform, CallOf, Sdo.Responses, Sdo.Surrounds, SdoRespId, SendCommand;
    if ask == AskNmt {
      CommandLeaves(net, env, SdoRespId(node));
    } else {
      var op := CallOf(node, ask);
      Sdo.PerformServes(net, env, op);
      HeardOwn(net, env, op);
    }
  }

  lemma CommandLeaves(net: Sdo.Net, env: Sdo.Script, id: u32)
    requires Sdo.Surrounds(env, id)
    ensures Sdo.Responses(SendCommand(net, env).1.queue, id) == Sdo.Responses(net.queue, id)
    ensures SendCommand(net, env).1.server.od == net.server.od
  {
    hide Sdo.Responses;
    var x := env(net.clock);
    Sdo.ResponsesConcat(net.queue + x.before, x.after, id);
    Sdo.ResponsesConcat(net.queue, x.before, id);
  }

  /** A call with none pending replies what the register file says, and leaves none behind, or it
      fails. */
  lemma HeardOwn(net: Sdo.Net, env: Sdo.Script, op: Sdo.Op)
    requires Sdo.Typed(op.t) && Sdo.WellTyped(net.server)
    requires Sdo.Surrounds(env, SdoRespId(op.node)) && Sdo.Responses(net.queue, SdoRespId(op.node)) == []
    ensures var (reply, net') := Sdo.Perform(net, env, op);
            && (reply == Sdo.Register(net.server, op, env(net.clock)).0 || reply.Failed?)
            && (Good(reply) ==> Sdo.Responses(net'.queue, SdoRespId(op.node)) == [])
  {
    hide Sdo.Register, Sdo.FromUnion, Sdo.Serve, Sdo2Can, Can2Sdo, Sdo.Await, Sdo.Responses;
    var x := env(net.clock);
    Sdo.QueryTakesOldest(net, env, Sdo.Request(op));
    if x.sendFails.None? {
      Sdo.AnswerIsRegister(net.server, op, x, x.stale);
    }
  }

  /** From a queue with no answer pending, a log that stops at the first failure is truthful. */
  lemma {:induction false} WireTruthful(net: Sdo.Net, env: Sdo.Script, node: u8, log: seq<Event>)
    requires Sdo.WellTyped(net.server) && NonePending(net, env, node)
    requires Genuine(WireEnv(net, env, node), log, 0) && Prompt(log)
    ensures Truthful(log)
    ensures AllSucceeded(log) ==> NonePending(NetAfter(net, env, node, log), env, node)
    ensures Sdo.WellTyped(NetAfter(net, env, node, log).server)
    decreases |log|
  {
    hide NonePending, OutcomeOf, Genuine, Sdo.WellTyped, WireEnv, Decided, Attempt;
    if log != [] {
      var front, ev := log[..|log| - 1], log[|log| - 1];
      assert log == front + [ev] && ev in log;
      GenuineSnoc(WireEnv(net, env, node), front, ev);
      assert forall i | 0 <= i < |front| :: front[i] == log[i];
      WireTruthful(net, env, node, front);
      NetUnfolds(net, env, node, front, ev);
      DecidedByWire(net, env, node, front, ev);
      NoneMistaken(NetAfter(net, env, node, front), env, node, AskOf(ev));
    }
  }

  // ----- every device can be behind the wire -----

  function EntryStore(node: u8, d: Dict): map<Sdo.ObjKey, u32>
  {
    map e | e in d :: KeyOf(node, e) := d[e]
  }

  function EntryTypes(node: u8, d: Dict): map<Sdo.ObjKey, DataType>
  {
    map e | e in d :: KeyOf(node, e) := TypeOf(e)
  }

  const OBJS: seq<Readable> := [CtrlWord, OpMode, TargetVelocity, Position, Velocity, MinPos, MaxPos]

  function ObjStore(node: u8, dev: Device, objs: seq<Readable>): map<Sdo.ObjKey, u32>
    decreases |objs|
  {
    if objs == [] then map[]
    else
      var o := objs[0];
      ObjStore(node, dev, objs[1..])[ObjKeyOf(node, o) := Sdo.ToUnion(AddressOf(o).2, NumberOf(dev, o))]
  }

  function ObjTypes(node: u8, objs: seq<Readable>): map<Sdo.ObjKey, DataType>
    decreases |objs|
  {
    if objs == [] then map[] else ObjTypes(node, objs[1..])[ObjKeyOf(node, objs[0]) := AddressOf(objs[0]).2]
  }

  /** The network with nothing on the queue whose registers of the node are those of the device,
      typed as the library accesses them; the status word is zero at first. */
  function NetOf(node: u8, dev: Device): Sdo.Net
  {
    var stat := Sdo.ObjKey(node, STAT_INDEX, 0);
    Sdo.Net(Sdo.Server((EntryTypes(node, dev.dict) + ObjTypes(node, OBJS))[stat := Unsigned16],
                       (EntryStore(node, dev.dict) + ObjStore(node, dev, OBJS))[stat := 0]), [], 0)
  }

  lemma {:induction false} ObjStoreHolds(node: u8, dev: Device, objs: seq<Readable>)
    ensures var m, od := ObjStore(node, dev, objs), ObjTypes(node, objs);
            && (forall obj | obj in objs ::
                  && ObjKeyOf(node, obj) in m
                  && m[ObjKeyOf(node, obj)] == Sdo.ToUnion(AddressOf(obj).2, NumberOf(dev, obj)))
            && (forall key | key in m :: key.index >= 0x6000)
            && (forall key | key in od :: key.index >= 0x6000 && Sized(od[key]) && key.node == node)
    decreases |objs|
  {
    hide Sdo.ToUnion, NumberOf;
    if objs != [] {
      ObjStoreHolds(node, dev, objs[1..]);
      assert forall o: Readable :: ObjKeyOf(node, o) == ObjKeyOf(node, objs[0]) ==> o == objs[0];
    }
  }

  /** It reaches the device, in all surroundings in which the device leaves these registers alone
      and nobody else answers for the node. */
  lemma NetOfReaches(node: u8, dev: Device, env: Sdo.Script)
    requires node < 0x80 && (forall e: Entry :: Fits(e, Get(dev.dict, e)))
    requires Settled(env, node) && Sdo.Surrounds(env, SdoRespId(node))
    ensures Reaches(NetOf(node, dev), env, node, dev) && NonePending(NetOf(node, dev), env, node)
  {
    hide Sdo.ToUnion, Sdo.FromUnion, Fits, Sdo.InRange, ObjStore, ObjTypes, NumberOf, Settled, AddressOf;
    var sv := NetOf(node, dev).server;
    ObjStoreHolds(node, dev, OBJS);
    forall obj: Readable
      ensures Sdo.FromUnion(AddressOf(obj).2, Sdo.Stored(sv, ObjKeyOf(node, obj))) == NumberOf(dev, obj)
    {
      HeldInRange(dev, obj);
      Sdo.UnionRoundTrip(AddressOf(obj).2, NumberOf(dev, obj));
      AllListed(obj);
      NotStat(node, obj);
    }
    assert Holds(sv, node, dev);
  }

  lemma AllListed(obj: Readable)
    ensures obj in OBJS
  {
    match obj
    case CtrlWord => assert OBJS[0] == obj;
    case OpMode => assert OBJS[1] == obj;
    case TargetVelocity => assert OBJS[2] == obj;
    case Position => assert OBJS[3] == obj;
    case Velocity => assert OBJS[4] == obj;
    case MinPos => assert OBJS[5] == obj;
    case MaxPos => assert OBJS[6] == obj;
  }

  lemma NotStat(node: u8, obj: Readable)
    ensures ObjKeyOf(node, obj).index != STAT_INDEX
  {
  }

  lemma HeldInRange(dev: Device, obj: Readable)
    ensures Sdo.InRange(AddressOf(obj).2, NumberOf(dev, obj))
  {
    WordInRange(dev.ctrl);
  }
}
