/** The SDO query loop and the typed upload/download calls, run against servers that answer
    each request once while other traffic comes and goes.

    A query accepts the first frame that carries the COB-ID of the answering node.  Whether
    that is its own answer is a property of whole runs: without a failed receive the calls act
    as a register file, and in general answers are consumed in the order of the requests. */
module SdoClient {
  import opened Can
  import opened SdoCodec

  // ----- the bus -----

  type LinkError = s: Status | s == ErrOs || s == ErrParam witness ErrOs

  /** What one receive call finds: a frame, or a failure of the interface. */
  datatype Rx = Got(frame: Frame) | Broken(err: LinkError)

  datatype ObjKey = ObjKey(node: u8, index: u16, subindex: u8)

  /** The object dictionaries of all nodes: the type and the stored word of every object. */
  datatype Server = Server(od: map<ObjKey, DataType>, store: map<ObjKey, u32>)

  function Stored(sv: Server, key: ObjKey): u32
  {
    if key in sv.store then sv.store[key] else 0
  }

  /** What the environment does during one exchange: which objects the devices have changed by
      themselves, whether the send fails, what arrives before and after the answer, whether the
      server aborts, and what the uninitialised buffers of both sides happen to hold. */
  datatype Exchange = Exchange(
    moved: map<ObjKey, u32>,
    sendFails: Option<LinkError>, before: seq<Rx>, verdict: Option<u32>, after: seq<Rx>,
    serverScratch: Frame, clientScratch: Frame, stale: Msg)

  /** The dictionaries when the exchange begins. */
  function Moved(sv: Server, x: Exchange): Server { sv.(store := sv.store + x.moved) }

  type Script = nat -> Exchange

  datatype Net = Net(server: Server, queue: seq<Rx>, clock: nat)

  const ABORT_OBJ_EXIST: u32 := 0x0602_0000
  const ABORT_DATA: u32 := 0x0607_0010
  const ABORT_INVALID_CMD_SPEC: u32 := 0x0504_0001

  /** An abort of the transfer (section 7.2.4.3.17 of CiA 301). */
  function AbortFrame(key: ObjKey, code: u32): Frame
  {
    RawFrame(SdoRespId(key.node), 8, Layout(PackCmd(Cmd(0, 0, 0, CS_ABORT)), key.index, key.subindex, Stle32(code)))
  }

  const ZERO_MSG := Msg(0, 0, 0, 0, Void, 0, 0)

  /** The server's reaction to a request frame. */
  function Serve(sv: Server, f: Frame, x: Exchange): (Server, Frame)
  {
    var key := ObjKey(NodeBits(f.id), Ldle16(f.data[1..]), f.data[3]);
    var cs := UnpackCmd(f.data[0]).cs;
    if key !in sv.od then (sv, AbortFrame(key, ABORT_OBJ_EXIST))
    else if x.verdict.Some? then (sv, AbortFrame(key, x.verdict.value))
    else
      var t := sv.od[key];
      if cs == CCS_EX_DL then
        var (r, m) := Can2Sdo(ZERO_MSG, f, t);
        if r != Ok then (sv, AbortFrame(key, ABORT_DATA))
        else (sv.(store := sv.store[key := m.data]), Sdo2Can(x.serverScratch, m.(cs := SCS_EX_DL), true).1)
      else if cs == CCS_EX_UL then
        (sv, Sdo2Can(x.serverScratch,
                     Msg(key.index, key.subindex, key.node, SCS_EX_UL, t, 0, Stored(sv, key)), true).1)
      else
        (sv, AbortFrame(key, ABORT_INVALID_CMD_SPEC))
  }

  function SendFrame(net: Net, env: Script, f: Frame): (Option<LinkError>, Net)
  {
    var x := env(net.clock);
    if x.sendFails.Some? then (x.sendFails, net.(server := Moved(net.server, x), clock := net.clock + 1))
    else
      var (sv, answer) := Serve(Moved(net.server, x), f, x);
      (None, Net(sv, net.queue + x.before + [Got(answer)] + x.after, net.clock + 1))
  }

  // ----- the query -----

  /** The receive loop: skip frames until one has the identifier or a receive fails.  A
      receive on an exhausted queue counts as a failure. */
  datatype Awaited = Hit(frame: Frame, rest: seq<Rx>) | Miss(err: LinkError, rest: seq<Rx>)

  function Await(q: seq<Rx>, id: u32): Awaited
  {
    if q == [] then Miss(ErrOs, [])
    else match q[0]
      case Broken(e) => Miss(e, q[1..])
      case Got(f) => if f.id == id then Hit(f, q[1..]) else Await(q[1..], id)
  }

  datatype Queried = Queried(status: Status, resp: Msg, net: Net, heard: Option<Frame>)

  /** canmat_sdo_query; the status of the encoder is not looked at. */
  function Query(net: Net, env: Script, req: Msg, scratch: Frame, stale: Msg): Queried
  {
    var (fails, net1) := SendFrame(net, env, Sdo2Can(scratch, req, false).1);
    if fails.Some? then Queried(fails.value, stale, net1, None)
    else match Await(net1.queue, SdoRespId(req.node))
      case Miss(e, rest) => Queried(e, stale, net1.(queue := rest), None)
      case Hit(f, rest) =>
        var (r, m) := Can2Sdo(stale, f, req.dtype);
        Queried(r, m, net1.(queue := rest), Some(f))
  }

  /** struct canmat_iface: a send and a receive call onto the bus. */
  class Iface {
    var net: Net
    const env: Script

    constructor (net: Net, env: Script)
      ensures this.net == net && this.env == env
    {
      this.net, this.env := net, env;
    }

    method Send(can: FrameBuffer) returns (fails: Option<LinkError>)
      requires can.Valid()
      modifies this`net
      ensures (fails, net) == SendFrame(old(net), env, can.Value())
    {
      var (e, n) := SendFrame(net, env, can.Value());
      fails, net := e, n;
    }

    method Recv(can: FrameBuffer) returns (fails: Option<LinkError>)
      requires can.Valid()
      modifies this`net, can, can.data
      ensures net == old(net).(queue := if old(net).queue == [] then [] else old(net).queue[1..])
      ensures fails == if old(net).queue == [] then Some(ErrOs)
                       else match old(net).queue[0] case Broken(e) => Some(e) case Got(_) => None
      ensures fails.None? ==> can.Value() == old(net).queue[0].frame
    {
      if net.queue == [] {
        return Some(ErrOs);
      }
      var head := net.queue[0];
      net := net.(queue := net.queue[1..]);
      match head
      case Broken(e) => return Some(e);
      case Got(f) =>
        can.Assign(f);
        return None;
    }
  }

  /** canmat_sdo_query: encode, send, and receive until the COB-ID matches.  `can` is the
      uninitialised local frame. */
  method SdoQuery(cif: Iface, req: Msg, resp: MsgBuffer, can: FrameBuffer) returns (r: Status)
    requires req.length <= 4 && can.Valid()
    modifies cif`net, resp, can, can.data
    ensures var q := Query(old(cif.net), cif.env, req, old(can.Value()), old(resp.msg));
            r == q.status && resp.msg == q.resp && cif.net == q.net
  {
    var _ := EncodeSdo(can, req, false);
    var fails := cif.Send(can);
    if fails.Some? {
      return fails.value;
    }
    ghost var q0 := cif.net.queue;
    var id := SdoRespId(req.node);
    fails := cif.Recv(can);
    while fails.None? && can.id != id
      invariant can.Valid()
      invariant resp.msg == old(resp.msg)
      invariant cif.net == Query(old(cif.net), cif.env, req, old(can.Value()), old(resp.msg)).net
                           .(queue := cif.net.queue)
      invariant match fails
                case Some(e) => Await(q0, id) == Miss(e, cif.net.queue)
                case None => Await(q0, id) == if can.id == id then Hit(can.Value(), cif.net.queue)
                                              else Await(cif.net.queue, id)
      decreases fails.None?, |cif.net.queue|
    {
      fails := cif.Recv(can);
    }
    if fails.Some? {
      return fails.value;
    }
    r := DecodeSdo(resp, can, req.dtype);
  }

  // ----- the typed calls -----

  /** The types that CANMAT_SDO_TYPE_FUN is instantiated for. */
  predicate Typed(t: DataType) { Sized(t) && t != Real32 }

  predicate IsSigned(t: DataType) { t.Integer8? || t.Integer16? || t.Integer32? }

  /** The values of the C type. */
  predicate InRange(t: DataType, v: int)
  {
    match t
    case Integer8 => -0x80 <= v < 0x80
    case Integer16 => -0x8000 <= v < 0x8000
    case Integer32 => -0x8000_0000 <= v < 0x8000_0000
    case Unsigned8 => 0 <= v < 0x100
    case Unsigned16 => 0 <= v < 0x1_0000
    case Unsigned32 => 0 <= v < 0x1_0000_0000
    case _ => false
  }

  /** Writing a value to its member of the scalar union. */
  function ToUnion(t: DataType, v: int): u32
  {
    match Size(t)
    case 1 => v % 0x100
    case 2 => v % 0x1_0000
    case _ => v % 0x1_0000_0000
  }

  /** Reading a member of the scalar union. */
  function FromUnion(t: DataType, u: u32): int
    requires Typed(t)
  {
    if IsSigned(t) then Signed(u, Size(t)) else Low(Size(t), u)
  }

  /** The value written to a union member is read back exactly when it is of the member's type. */
  lemma UnionRoundTrip(t: DataType, v: int)
    requires Typed(t)
    ensures FromUnion(t, ToUnion(t, v)) == v <==> InRange(t, v)
    ensures Low(Size(t), ToUnion(t, v)) == ToUnion(t, v)
  {
    match Size(t)
    case 1 => Wraps8(v);
    case 2 => Wraps16(v);
    case _ => Wraps32(v);
  }

  lemma Wraps8(v: int)
    ensures var u := v % 0x100;
            && (u == v <==> 0 <= v < 0x100) && u % 0x100 == u
            && ((if u < 0x80 then u else u - 0x100) == v <==> -0x80 <= v < 0x80)
  {
  }

  lemma Wraps16(v: int)
    ensures var u := v % 0x1_0000;
            && (u == v <==> 0 <= v < 0x1_0000) && u % 0x1_0000 == u
            && ((if u < 0x8000 then u else u - 0x1_0000) == v <==> -0x8000 <= v < 0x8000)
  {
  }

  lemma Wraps32(v: int)
    ensures var u := v % 0x1_0000_0000;
            && (u == v <==> 0 <= v < 0x1_0000_0000) && u % 0x1_0000_0000 == u
            && ((if u < 0x8000_0000 then u else u - 0x1_0000_0000) == v <==> -0x8000_0000 <= v < 0x8000_0000)
  {
  }

  lemma UnionReadsLow(t: DataType, u: u32, w: u32)
    requires Typed(t) && Low(Size(t), u) == Low(Size(t), w)
    ensures FromUnion(t, u) == FromUnion(t, w)
  {
  }

  /** A call of canmat_sdo_ul_T or canmat_sdo_dl_T. */
  datatype Op = Ul(node: u8, index: u16, subindex: u8, t: DataType)
              | Dl(node: u8, index: u16, subindex: u8, t: DataType, v: int)

  /** What the caller sees: the uploaded value, an accepted download, the abort code written
      to `*err`, or another error status. */
  datatype Reply = Value(v: int) | Done | Aborted(code: u32) | Failed(status: Failure)

  function Request(op: Op): Msg
  {
    match op
    case Ul(n, i, s, t) => Msg(i, s, n, CCS_EX_UL, t, 0, 0)
    case Dl(n, i, s, t, v) => Msg(i, s, n, CCS_EX_DL, t, 0, ToUnion(t, v))
  }

  function Finish(op: Op, status: Status, resp: Msg): Reply
    requires Typed(op.t)
  {
    if status == Ok then (if op.Ul? then Value(FromUnion(op.t, resp.data)) else Done)
    else if status == ErrAbort then Aborted(resp.data)
    else Failed(status)
  }

  function Perform(net: Net, env: Script, op: Op): (Reply, Net)
    requires Typed(op.t)
  {
    var x := env(net.clock);
    var q := Query(net, env, Request(op), x.clientScratch, x.stale);
    (Finish(op, q.status, q.resp), q.net)
  }

  /** The typed calls over an interface; `resp` and `can` are the uninitialised locals. */
  method SdoTyped(cif: Iface, op: Op, resp: MsgBuffer, can: FrameBuffer) returns (reply: Reply)
    requires Typed(op.t) && can.Valid()
    modifies cif`net, resp, can, can.data
    ensures var q := Query(old(cif.net), cif.env, Request(op), old(can.Value()), old(resp.msg));
            reply == Finish(op, q.status, q.resp) && cif.net == q.net
  {
    var r := SdoQuery(cif, Request(op), resp, can);
    reply := Finish(op, r, resp.msg);
  }

  // ----- a register file as the specification -----

  /** The object that a call addresses. */
  function ObjectOf(op: Op): ObjKey { ObjKey(op.node % 0x80, op.index, op.subindex) }

  /** The effect of a call without any wire: one register per object, some of which the devices
      may have changed by themselves. */
  function Register(sv: Server, op: Op, x: Exchange): (Reply, Server)
    requires Typed(op.t)
  {
    var sv1, key := Moved(sv, x), ObjectOf(op);
    if x.sendFails.Some? then (Failed(x.sendFails.value), sv1)
    else if key !in sv1.od then (Aborted(ABORT_OBJ_EXIST), sv1)
    else if x.verdict.Some? then (Aborted(x.verdict.value), sv1)
    else if Size(sv1.od[key]) != Size(op.t) then (if op.Ul? then Failed(ErrProto) else Aborted(ABORT_DATA), sv1)
    else match op
      case Ul(_, _, _, t) => (Value(FromUnion(t, Stored(sv1, key))), sv1)
      case Dl(_, _, _, t, v) => (Done, sv1.(store := sv1.store[key := ToUnion(t, v)]))
  }

  /** No receive fails and no frame has one of the identifiers. */
  predicate Quiet(q: seq<Rx>, ids: set<u32>)
  {
    forall i | 0 <= i < |q| :: q[i].Got? && q[i].frame.id !in ids
  }

  ghost predicate QuietScript(env: Script, ids: set<u32>)
  {
    forall i: nat :: Quiet(env(i).before, ids) && Quiet(env(i).after, ids)
  }

  predicate WellTyped(sv: Server)
  {
    forall key | key in sv.od :: Sized(sv.od[key]) && key.node < 0x80
  }

  lemma AwaitSkips(q: seq<Rx>, f: Frame, rest: seq<Rx>, ids: set<u32>)
    requires Quiet(q, ids) && f.id in ids
    ensures Await(q + [Got(f)] + rest, f.id) == Hit(f, rest)
  {
    var all := q + [Got(f)] + rest;
    if q == [] {
      assert all[1..] == rest;
    } else {
      assert all[1..] == q[1..] + [Got(f)] + rest;
      AwaitSkips(q[1..], f, rest, ids);
    }
  }

  /** The client reads an abort as the abort code for its object. */
  lemma AbortDecodes(stale: Msg, key: ObjKey, code: u32, dtype: DataType)
    ensures var (r, m) := Can2Sdo(stale, AbortFrame(key, code), dtype);
            r == ErrAbort && m.data == code && m.index == key.index && m.subindex == key.subindex
  {
    var f := AbortFrame(key, code);
    EncodedIds(key.node);
    PackedBits(Cmd(0, 0, 0, CS_ABORT));
    LayoutReads(PackCmd(Cmd(0, 0, 0, CS_ABORT)), key.index, key.subindex, Stle32(code));
    DecodeShaped(stale, f, dtype, true, Unsigned32, 4);
    StoreThenLoad(code, []);
    assert Stle32(code) + [] == Stle32(code);
  }

  /** The server finds the object and the command that the client encoded. */
  lemma RequestReads(scratch: Frame, op: Op)
    requires Typed(op.t)
    ensures var f := Sdo2Can(scratch, Request(op), false).1;
            && NodeBits(f.id) == op.node % 0x80
            && Ldle16(f.data[1..]) == op.index && f.data[3] == op.subindex
            && UnpackCmd(f.data[0]).cs == Request(op).cs
  {
  }

  /** The message carries the address of the call. */
  predicate AddressedTo(m: Msg, op: Op) { m.index == op.index && m.subindex == op.subindex }

  /** What the server does with a delivered call, once its objects have moved. */
  function Served(sv: Server, op: Op, x: Exchange): (Server, Frame)
  {
    Serve(Moved(sv, x), Sdo2Can(x.clientScratch, Request(op), false).1, x)
  }

  /** The answer of the server, read by the client into any buffer, is what the register file
      says, and it carries the index and subindex of the call. */
  lemma AnswerIsRegister(sv: Server, op: Op, x: Exchange, stale: Msg)
    requires Typed(op.t) && WellTyped(sv) && x.sendFails.None?
    ensures var (sv', a) := Served(sv, op, x);
            var (r, m) := Can2Sdo(stale, a, op.t);
            && a.id == SdoRespId(op.node)
            && (Finish(op, r, m), sv') == Register(sv, op, x)
            && (r == Ok || r == ErrAbort ==> AddressedTo(m, op))
  {
    hide Sdo2Can, Can2Sdo, FromUnion, ToUnion, Low, UnpackCmd, NodeBits, Ldle16;
    var f, sv1 := Sdo2Can(x.clientScratch, Request(op), false).1, Moved(sv, x);
    RequestReads(x.clientScratch, op);
    var key := ObjectOf(op);
    var (sv', a) := Serve(sv1, f, x);
    if key !in sv1.od {
      AbortDecodes(stale, key, ABORT_OBJ_EXIST, op.t);
    } else if x.verdict.Some? {
      AbortDecodes(stale, key, x.verdict.value, op.t);
    } else if op.Dl? {
      DownloadAnswer(sv, op, x, stale);
    } else {
      var resp := Msg(key.index, key.subindex, key.node, SCS_EX_UL, sv1.od[key], 0, Stored(sv1, key));
      DataDecodes(x.serverScratch, stale, resp, true, op.t);
      if Size(sv1.od[key]) == Size(op.t) {
        UnionReadsLow(op.t, Can2Sdo(stale, a, op.t).1.data, Stored(sv1, key));
      }
    }
  }

  lemma DownloadAnswer(sv: Server, op: Op, x: Exchange, stale: Msg)
    requires Typed(op.t) && op.Dl? && WellTyped(sv) && x.sendFails.None? && x.verdict.None?
    requires ObjectOf(op) in sv.od
    ensures var (sv', a) := Served(sv, op, x);
            var (r, m) := Can2Sdo(stale, a, op.t);
            && a.id == SdoRespId(op.node)
            && (Finish(op, r, m), sv') == Register(sv, op, x)
            && (r == Ok || r == ErrAbort ==> AddressedTo(m, op))
  {
    hide Sdo2Can, Can2Sdo, FromUnion, ToUnion, Low, UnpackCmd, NodeBits, Ldle16;
    var f, sv1, key := Sdo2Can(x.clientScratch, Request(op), false).1, Moved(sv, x), ObjectOf(op);
    var t := sv1.od[key];
    RequestReads(x.clientScratch, op);
    DataDecodes(x.clientScratch, ZERO_MSG, Request(op), false, t);
    if Size(t) != Size(op.t) {
      AbortDecodes(stale, key, ABORT_DATA, op.t);
    } else {
      var m := Can2Sdo(ZERO_MSG, f, t).1;
      UnionRoundTrip(op.t, op.v);
      assert m.data == ToUnion(op.t, op.v);
      AckDecodes(x.serverScratch, stale, m.(cs := SCS_EX_DL), true, op.t);
    }
  }

  /** Whatever the client hears, the server does what the register file does. */
  lemma PerformServes(net: Net, env: Script, op: Op)
    requires Typed(op.t) && WellTyped(net.server)
    ensures var x, net' := env(net.clock), Perform(net, env, op).1;
            && net'.server == Register(net.server, op, x).1
            && net'.clock == net.clock + 1 && net'.server.od == net.server.od
  {
    hide Serve, Sdo2Can, Can2Sdo, FromUnion, ToUnion;
    var x := env(net.clock);
    if x.sendFails.None? {
      AnswerIsRegister(net.server, op, x, x.stale);
    }
  }

  /** A call with the queues quiet about its node is one step of the register file; it consumes
      the queue exactly up to its own answer; and an answer that is not an error is for the index
      and subindex of the call, although only the COB-ID is checked. */
  lemma PerformIsRegister(net: Net, env: Script, op: Op, ids: set<u32>)
    requires Typed(op.t) && WellTyped(net.server) && SdoRespId(op.node) in ids
    requires Quiet(net.queue, ids) && QuietScript(env, ids)
    ensures var x := env(net.clock);
            var (reply, net') := Perform(net, env, op);
            var q := QueryNext(net, env, Request(op));
            && (reply, net'.server) == Register(net.server, op, x)
            && net'.queue == (if x.sendFails.Some? then net.queue else x.after)
            && net'.clock == net.clock + 1 && net'.server.od == net.server.od
            && (q.status == Ok || q.status == ErrAbort ==> AddressedTo(q.resp, op))
  {
    hide Serve, Sdo2Can, Can2Sdo, FromUnion, ToUnion;
    var x := env(net.clock);
    PerformServes(net, env, op);
    if x.sendFails.None? {
      AnswerIsRegister(net.server, op, x, x.stale);
      var a := Served(net.server, op, x).1;
      AwaitSkips(net.queue + x.before, a, x.after, ids);
      assert net.queue + x.before + [Got(a)] + x.after == (net.queue + x.before) + [Got(a)] + x.after;
    }
  }

  /** All calls of a run, over the wire and on the register file. */
  function WireRun(net: Net, env: Script, ops: seq<Op>): (seq<Reply>, Net)
    requires forall op | op in ops :: Typed(op.t)
    decreases |ops|
  {
    if ops == [] then ([], net)
    else
      var (reply, net1) := Perform(net, env, ops[0]);
      var (replies, net2) := WireRun(net1, env, ops[1..]);
      ([reply] + replies, net2)
  }

  function RegisterRun(sv: Server, env: Script, clock: nat, ops: seq<Op>): (seq<Reply>, Server)
    requires forall op | op in ops :: Typed(op.t)
    decreases |ops|
  {
    if ops == [] then ([], sv)
    else
      var (reply, sv1) := Register(sv, ops[0], env(clock));
      var (replies, sv2) := RegisterRun(sv1, env, clock + 1, ops[1..]);
      ([reply] + replies, sv2)
  }

  /** SDO calls have register semantics over whole runs: whatever traffic surrounds the answers,
      whichever sends fail and whatever the servers refuse, the callers see exactly what the
      register file gives, and no answer is left behind for a later call.  The other traffic may
      hold anything but responses of the nodes that the run addresses. */
  lemma {:induction false} WireRefinesRegisters(net: Net, env: Script, ops: seq<Op>, ids: set<u32>)
    requires forall op | op in ops :: Typed(op.t) && SdoRespId(op.node) in ids
    requires WellTyped(net.server) && Quiet(net.queue, ids) && QuietScript(env, ids)
    ensures var (replies, net') := WireRun(net, env, ops);
            && (replies, net'.server) == RegisterRun(net.server, env, net.clock, ops)
            && Quiet(net'.queue, ids)
    decreases |ops|
  {
    hide Perform, Register, QueryNext;
    if ops != [] {
      PerformIsRegister(net, env, ops[0], ids);
      WireRefinesRegisters(Perform(net, env, ops[0]).1, env, ops[1..], ids);
    }
  }

  /** A step of the register file, for one object that its device does not change by itself: an
      accepted download sets it, a successful upload reads it, everything else leaves it. */
  lemma RegisterStep(sv: Server, op: Op, x: Exchange, key: ObjKey)
    requires Typed(op.t) && key !in x.moved
    ensures var (reply, sv') := Register(sv, op, x);
            && (op.Dl? && ObjectOf(op) == key && reply == Done ==> Stored(sv', key) == ToUnion(op.t, op.v))
            && (op.Ul? && ObjectOf(op) == key && reply.Value? ==> reply.v == FromUnion(op.t, Stored(sv, key)))
            && (!(op.Dl? && ObjectOf(op) == key && reply == Done) ==> Stored(sv', key) == Stored(sv, key))
  {
    assert Stored(Moved(sv, x), key) == Stored(sv, key);
  }

  /** The replies of a run, taken apart at its first call. */
  lemma RunStep(sv: Server, env: Script, clock: nat, ops: seq<Op>)
    requires forall op | op in ops :: Typed(op.t)
    requires ops != []
    ensures var (reply, sv1) := Register(sv, ops[0], env(clock));
            RegisterRun(sv, env, clock, ops).0 == [reply] + RegisterRun(sv1, env, clock + 1, ops[1..]).0
  {
  }

  /** No call from `lo` up to `hi` is an accepted download to the object. */
  predicate Untouched(ops: seq<Op>, replies: seq<Reply>, lo: nat, hi: nat, key: ObjKey)
    requires hi <= |ops| == |replies|
  {
    forall k | lo <= k < hi :: ops[k].Dl? && ObjectOf(ops[k]) == key ==> replies[k] != Done
  }

  /** The device leaves the object alone in the exchanges from `lo` to `hi`. */
  predicate Unmoved(env: Script, lo: nat, hi: nat, key: ObjKey)
  {
    forall c: nat | lo <= c <= hi :: key !in env(c).moved
  }

  lemma UntouchedTail(ops: seq<Op>, replies: seq<Reply>, lo: nat, hi: nat, key: ObjKey)
    requires 0 < lo <= hi <= |ops| == |replies| && Untouched(ops, replies, lo, hi, key)
    ensures Untouched(ops[1..], replies[1..], lo - 1, hi - 1, key)
  {
  }

  lemma {:induction false} ValueHeld(sv: Server, env: Script, clock: nat, ops: seq<Op>, j: nat, t: DataType, v: int)
    requires forall op | op in ops :: Typed(op.t)
    requires j < |ops| && ops[j].Ul? && ops[j].t == t && InRange(t, v)
    requires Stored(sv, ObjectOf(ops[j])) == ToUnion(t, v) && Unmoved(env, clock, clock + j, ObjectOf(ops[j]))
    requires var replies := RegisterRun(sv, env, clock, ops).0;
             |replies| == |ops| && replies[j].Value? && Untouched(ops, replies, 0, j, ObjectOf(ops[j]))
    ensures RegisterRun(sv, env, clock, ops).0[j] == Value(v)
    decreases j
  {
    hide ToUnion, FromUnion, Register, InRange;
    var replies := RegisterRun(sv, env, clock, ops).0;
    var sv1 := Register(sv, ops[0], env(clock)).1;
    var rest := RegisterRun(sv1, env, clock + 1, ops[1..]).0;
    RunStep(sv, env, clock, ops);
    RegisterStep(sv, ops[0], env(clock), ObjectOf(ops[j]));
    assert rest == replies[1..];
    if j == 0 {
      UnionRoundTrip(t, v);
    } else {
      UntouchedTail(ops, replies, 1, j, ObjectOf(ops[j]));
      ValueHeld(sv1, env, clock + 1, ops[1..], j - 1, t, v);
    }
  }

  lemma {:induction false} OneReplyPerCall(sv: Server, env: Script, clock: nat, ops: seq<Op>)
    requires forall op | op in ops :: Typed(op.t)
    ensures |RegisterRun(sv, env, clock, ops).0| == |ops|
    decreases |ops|
  {
    if ops != [] {
      OneReplyPerCall(Register(sv, ops[0], env(clock)).1, env, clock + 1, ops[1..]);
    }
  }

  /** The register file: an upload that succeeds returns the value of the last accepted download
      of the same type to its object. */
  lemma {:induction false} RegisterReturnsLast(sv: Server, env: Script, clock: nat, ops: seq<Op>, i: nat, j: nat)
    requires forall op | op in ops :: Typed(op.t)
    requires i < j < |ops| && ops[i].Dl? && ops[j].Ul?
    requires ObjectOf(ops[i]) == ObjectOf(ops[j]) && ops[i].t == ops[j].t && InRange(ops[i].t, ops[i].v)
    requires Unmoved(env, clock + i, clock + j, ObjectOf(ops[j]))
    requires var replies := RegisterRun(sv, env, clock, ops).0;
             |replies| == |ops| && replies[i] == Done && replies[j].Value?
             && Untouched(ops, replies, i + 1, j, ObjectOf(ops[j]))
    ensures RegisterRun(sv, env, clock, ops).0[j] == Value(ops[i].v)
    decreases i
  {
    hide ToUnion, FromUnion, Register, InRange, Untouched;
    var replies := RegisterRun(sv, env, clock, ops).0;
    var sv1 := Register(sv, ops[0], env(clock)).1;
    var rest := RegisterRun(sv1, env, clock + 1, ops[1..]).0;
    RunStep(sv, env, clock, ops);
    assert rest == replies[1..];
    UntouchedTail(ops, replies, i + 1, j, ObjectOf(ops[j]));
    if i == 0 {
      RegisterStep(sv, ops[0], env(clock), ObjectOf(ops[0]));
      ValueHeld(sv1, env, clock + 1, ops[1..], j - 1, ops[j].t, ops[0].v);
    } else {
      RegisterReturnsLast(sv1, env, clock + 1, ops[1..], i - 1, j - 1);
    }
  }

  /** In any run over the wire, an upload that succeeds returns the value of the last accepted
      download of the same type to its object, negative values included, unless the device has
      changed the object by itself. */
  lemma UploadReturnsLastDownload(net: Net, env: Script, ops: seq<Op>, ids: set<u32>, i: nat, j: nat)
    requires forall op | op in ops :: Typed(op.t) && SdoRespId(op.node) in ids
    requires WellTyped(net.server) && Quiet(net.queue, ids) && QuietScript(env, ids)
    requires i < j < |ops| && ops[i].Dl? && ops[j].Ul?
    requires ObjectOf(ops[i]) == ObjectOf(ops[j]) && ops[i].t == ops[j].t && InRange(ops[i].t, ops[i].v)
    requires Unmoved(env, net.clock + i, net.clock + j, ObjectOf(ops[j]))
    requires var replies := WireRun(net, env, ops).0;
             |replies| == |ops| && replies[i] == Done && replies[j].Value?
             && Untouched(ops, replies, i + 1, j, ObjectOf(ops[j]))
    ensures WireRun(net, env, ops).0[j] == Value(ops[i].v)
  {
    hide WireRun, RegisterRun, InRange, Untouched, Quiet;
    WireRefinesRegisters(net, env, ops, ids);
    RegisterReturnsLast(net.server, env, net.clock, ops, i, j);
  }

  // ----- pairing of answers with requests when receives fail -----

  /** The pending frames with one identifier. */
  function Responses(q: seq<Rx>, id: u32): seq<Frame>
  {
    if q == [] then []
    else (if q[0].Got? && q[0].frame.id == id then [q[0].frame] else []) + Responses(q[1..], id)
  }

  lemma {:induction false} ResponsesConcat(p: seq<Rx>, q: seq<Rx>, id: u32)
    ensures Responses(p + q, id) == Responses(p, id) + Responses(q, id)
  {
    if p == [] {
      assert p + q == q;
    } else {
      assert (p + q)[1..] == p[1..] + q;
      ResponsesConcat(p[1..], q, id);
    }
  }

  /** The receive loop takes the oldest pending frame with the identifier, or none. */
  lemma {:induction false} AwaitTakesOldest(q: seq<Rx>, id: u32)
    ensures match Await(q, id)
            case Hit(f, rest) => Responses(q, id) == [f] + Responses(rest, id) && f.id == id
            case Miss(_, rest) => Responses(q, id) == Responses(rest, id)
  {
    if q != [] && q[0].Got? && q[0].frame.id != id {
      AwaitTakesOldest(q[1..], id);
    }
  }

  lemma AnswerId(sv: Server, f: Frame, x: Exchange)
    ensures Serve(sv, f, x).1.id == SdoRespId(NodeBits(f.id))
  {
  }

  /** The answer that the server gives to a request, if the request is delivered. */
  function Answer(net: Net, env: Script, req: Msg): seq<Frame>
  {
    var x := env(net.clock);
    if x.sendFails.Some? then []
    else [Serve(Moved(net.server, x), Sdo2Can(x.clientScratch, req, false).1, x).1]
  }

  function QueryNext(net: Net, env: Script, req: Msg): Queried
  {
    Query(net, env, req, env(net.clock).clientScratch, env(net.clock).stale)
  }

  /** The traffic around the exchanges holds no frame with the identifier. */
  ghost predicate Surrounds(env: Script, id: u32)
  {
    forall i: nat :: Responses(env(i).before, id) == [] == Responses(env(i).after, id)
  }

  /** What is on the queue of a delivered request: the pending answers, then its own. */
  lemma Delivery(net: Net, env: Script, req: Msg)
    requires var x, id := env(net.clock), SdoRespId(req.node);
             x.sendFails.None? && Responses(x.before, id) == [] == Responses(x.after, id)
    ensures var id := SdoRespId(req.node);
            Responses(SendFrame(net, env, Sdo2Can(env(net.clock).clientScratch, req, false).1).1.queue, id)
            == Responses(net.queue, id) + Answer(net, env, req)
  {
    hide Serve, Sdo2Can;
    var x, id := env(net.clock), SdoRespId(req.node);
    var f := Sdo2Can(x.clientScratch, req, false).1;
    var a := Serve(Moved(net.server, x), f, x).1;
    assert a.id == id by {
      RequestId(x.clientScratch, req);
      AnswerId(Moved(net.server, x), f, x);
      EncodedIds(req.node);
    }
    ResponsesConcat(net.queue + x.before + [Got(a)], x.after, id);
    ResponsesConcat(net.queue + x.before, [Got(a)], id);
    ResponsesConcat(net.queue, x.before, id);
    assert Responses([Got(a)], id) == [a] + Responses([], id);
  }

  /** One query: the frame it takes and those it leaves are those that were pending and its own
      answer, in this order.  So a delivered query that hears anything hears its own answer, and
      leaves none behind, exactly if none was pending; otherwise it hears the oldest. */
  lemma QueryTakesOldest(net: Net, env: Script, req: Msg)
    requires var x := env(net.clock);
             Responses(x.before, SdoRespId(req.node)) == [] == Responses(x.after, SdoRespId(req.node))
    ensures var id := SdoRespId(req.node);
            var q := QueryNext(net, env, req);
            && (if q.heard.Some? then [q.heard.value] else []) + Responses(q.net.queue, id)
               == Responses(net.queue, id) + Answer(net, env, req)
            && (q.heard.Some? ==>
                  if Responses(net.queue, id) == [] then [q.heard.value] == Answer(net, env, req)
                  else q.heard.value == Responses(net.queue, id)[0])
            && (q.heard.Some? ==> (Responses(q.net.queue, id) == [] <==> Responses(net.queue, id) == []))
  {
    hide Serve, Sdo2Can, Can2Sdo, SendFrame;
    var x, id := env(net.clock), SdoRespId(req.node);
    var (fails, net1) := SendFrame(net, env, Sdo2Can(x.clientScratch, req, false).1);
    SendOutcome(net, env, Sdo2Can(x.clientScratch, req, false).1);
    if x.sendFails.None? {
      Delivery(net, env, req);
      AwaitTakesOldest(net1.queue, id);
      var q := QueryNext(net, env, req);
      if q.heard.Some? {
        FirstOf(q.heard.value, Responses(q.net.queue, id), Responses(net.queue, id), Answer(net, env, req));
      }
    }
  }

  lemma FirstOf<T>(h: T, rest: seq<T>, pending: seq<T>, own: seq<T>)
    requires [h] + rest == pending + own && |own| == 1
    ensures if pending == [] then [h] == own && rest == [] else h == pending[0] && rest == pending[1..] + own
  {
    assert ([h] + rest)[0] == (pending + own)[0];
    assert ([h] + rest)[1..] == rest;
    if pending == [] {
      assert pending + own == own;
    } else {
      assert (pending + own)[1..] == pending[1..] + own;
    }
  }

  lemma SendOutcome(net: Net, env: Script, f: Frame)
    ensures var x, (fails, net1) := env(net.clock), SendFrame(net, env, f);
            fails == x.sendFails && (fails.Some? ==> net1.queue == net.queue)
  {
    hide Serve;
  }

  lemma RequestId(scratch: Frame, req: Msg)
    ensures Sdo2Can(scratch, req, false).1.id == SdoReqId(req.node)
  {
  }

  /** A run of queries: what was heard and what the server answered. */
  datatype Log = Log(heard: seq<Frame>, answered: seq<Frame>, net: Net)

  function QueryRun(net: Net, env: Script, reqs: seq<Msg>): Log
    decreases |reqs|
  {
    if reqs == [] then Log([], [], net)
    else
      var q := QueryNext(net, env, reqs[0]);
      var rest := QueryRun(q.net, env, reqs[1..]);
      Log((if q.heard.Some? then [q.heard.value] else []) + rest.heard,
          Answer(net, env, reqs[0]) + rest.answered, rest.net)
  }

  lemma QueryRunStep(net: Net, env: Script, reqs: seq<Msg>)
    requires reqs != []
    ensures var q := QueryNext(net, env, reqs[0]);
            var rest := QueryRun(q.net, env, reqs[1..]);
            QueryRun(net, env, reqs)
            == Log((if q.heard.Some? then [q.heard.value] else []) + rest.heard,
                   Answer(net, env, reqs[0]) + rest.answered, rest.net)
  {
    hide Answer, QueryNext;
  }

  lemma {:induction false} AnswersKept(net: Net, env: Script, reqs: seq<Msg>, node: u8)
    requires forall req | req in reqs :: req.node == node
    requires Surrounds(env, SdoRespId(node))
    ensures var log, id := QueryRun(net, env, reqs), SdoRespId(node);
            log.heard + Responses(log.net.queue, id) == Responses(net.queue, id) + log.answered
    decreases |reqs|
  {
    hide Answer, QueryNext, Responses, SdoRespId;
    var id := SdoRespId(node);
    var pending := Responses(net.queue, id);
    if reqs == [] {
      assert pending + [] == pending == [] + pending;
    } else {
      assert reqs[0].node == node;
      QueryRunStep(net, env, reqs);
      hide QueryRun;
      var q := QueryNext(net, env, reqs[0]);
      var rest := QueryRun(q.net, env, reqs[1..]);
      QueryTakesOldest(net, env, reqs[0]);
      AnswersKept(q.net, env, reqs[1..], node);
      Regroup(if q.heard.Some? then [q.heard.value] else [], rest.heard, Responses(rest.net.queue, id),
              Responses(q.net.queue, id), rest.answered, pending, Answer(net, env, reqs[0]));
    }
  }

  /** Answers are conserved and taken in order: over any run of queries to one node, with any
      pattern of failed sends and receives, what was heard followed by what is pending is what
      was pending followed by what was answered.  Hence, with n answers pending at first, the
      k-th query that hears anything hears the k-th of them, and after them the answers of the
      run, n queries late. */
  lemma AnswersAreFifo(net: Net, env: Script, reqs: seq<Msg>, node: u8)
    requires forall req | req in reqs :: req.node == node
    requires Surrounds(env, SdoRespId(node))
    ensures var log, id := QueryRun(net, env, reqs), SdoRespId(node);
            var pending := Responses(net.queue, id);
            && log.heard + Responses(log.net.queue, id) == pending + log.answered
            && (forall k | 0 <= k < |log.heard| ::
                  k < |pending| + |log.answered|
                  && log.heard[k] == if k < |pending| then pending[k] else log.answered[k - |pending|])
  {
    hide QueryRun, Responses, SdoRespId;
    var log, id := QueryRun(net, env, reqs), SdoRespId(node);
    AnswersKept(net, env, reqs, node);
    HeadOf(log.heard, Responses(log.net.queue, id), Responses(net.queue, id), log.answered);
  }

  lemma HeadOf<T>(heard: seq<T>, left: seq<T>, pending: seq<T>, answered: seq<T>)
    requires heard + left == pending + answered
    ensures forall k | 0 <= k < |heard| ::
              k < |pending| + |answered| && heard[k] == if k < |pending| then pending[k] else answered[k - |pending|]
  {
    assert |heard| + |left| == |pending| + |answered|;
    forall k | 0 <= k < |heard|
      ensures k < |pending| + |answered| && heard[k] == if k < |pending| then pending[k] else answered[k - |pending|]
    {
      assert (heard + left)[k] == (pending + answered)[k];
    }
  }

  lemma Regroup<T>(h: seq<T>, hs: seq<T>, pend: seq<T>, mid: seq<T>, ans: seq<T>, start: seq<T>, a: seq<T>)
    requires hs + pend == mid + ans && h + mid == start + a
    ensures h + hs + pend == start + (a + ans)
  {
    assert h + hs + pend == h + (hs + pend);
    assert h + (mid + ans) == (h + mid) + ans;
    assert start + a + ans == start + (a + ans);
  }
}
