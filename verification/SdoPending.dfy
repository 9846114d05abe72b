/** What SDO calls hear when answers of earlier calls are still pending: exactly then they can be
    told of a success that did not happen. */
module SdoPending {
  import opened Can
  import opened SdoCodec
  import opened SdoClient

  /** No receive fails. */
  predicate AllGot(q: seq<Rx>) { forall i | 0 <= i < |q| :: q[i].Got? }

  /** Exchanges in which every frame arrives and none of the others is a response of the node. */
  predicate Clean(x: Exchange, id: u32)
  {
    && AllGot(x.before) && AllGot(x.after)
    && Responses(x.before, id) == [] == Responses(x.after, id)
  }

  ghost predicate CleanScript(env: Script, id: u32)
  {
    forall i: nat :: Clean(env(i), id)
  }

  lemma {:induction false} AwaitHits(q: seq<Rx>, id: u32)
    requires AllGot(q) && Responses(q, id) != []
    ensures Await(q, id).Hit? && AllGot(Await(q, id).rest)
  {
    if q[0].frame.id != id {
      AwaitHits(q[1..], id);
    }
  }

  /** The pending answers with the one of a delivered call behind them. */
  function InLine(net: Net, env: Script, op: Op): seq<Frame>
  {
    Responses(net.queue, SdoRespId(op.node)) + [Served(net.server, op, env(net.clock)).1]
  }

  /** A delivered call reads the first answer in the line as its own and leaves the others. */
  lemma PerformHears(net: Net, env: Script, op: Op)
    requires Typed(op.t) && WellTyped(net.server) && AllGot(net.queue)
    requires Clean(env(net.clock), SdoRespId(op.node)) && env(net.clock).sendFails.None?
    ensures var x, (reply, net') := env(net.clock), Perform(net, env, op);
            var (r, m) := Can2Sdo(x.stale, InLine(net, env, op)[0], op.t);
            && reply == Finish(op, r, m)
            && AllGot(net'.queue) && Responses(net'.queue, SdoRespId(op.node)) == InLine(net, env, op)[1..]
            && net'.server == Register(net.server, op, x).1 && net'.clock == net.clock + 1
            && net'.server.od == net.server.od
  {
    hide Serve, Sdo2Can, Can2Sdo, Register, FromUnion, SendFrame, Responses;
    var x, req, id := env(net.clock), Request(op), SdoRespId(op.node);
    var f := Sdo2Can(x.clientScratch, req, false).1;
    var net1 := SendFrame(net, env, f).1;
    SendOutcome(net, env, f);
    Delivered(net, env, f);
    Delivery(net, env, req);
    AwaitHits(net1.queue, id);
    AwaitTakesOldest(net1.queue, id);
    PerformServes(net, env, op);
    assert InLine(net, env, op)[0] == Await(net1.queue, id).frame;
  }

  lemma Delivered(net: Net, env: Script, f: Frame)
    requires AllGot(net.queue) && AllGot(env(net.clock).before) && AllGot(env(net.clock).after)
    ensures AllGot(SendFrame(net, env, f).1.queue)
  {
    hide Serve;
  }

  /** Whether an answer passes for a success does not depend on the uninitialised buffer. */
  lemma StatusIgnoresBuffer(m: Msg, m': Msg, f: Frame, t: DataType)
    ensures Can2Sdo(m, f, t).0 == Can2Sdo(m', f, t).0
  {
  }

  /** A frame that a call with data of type t takes for the acknowledgement of its own. */
  predicate Passes(f: Frame, t: DataType) { Can2Sdo(ZERO_MSG, f, t).0 == Ok }

  /** The exchange in which the server refuses, with nothing else on the bus. */
  function Refusal(code: u32): Exchange
  {
    Exchange(map[], None, [], Some(code), [], ZERO_FRAME, ZERO_FRAME, ZERO_MSG)
  }

  const ZERO_FRAME: Frame := RawFrame(0, 0, [0, 0, 0, 0, 0, 0, 0, 0])

  /** The exchange in which the server does what it is asked. */
  function Consent(): Exchange { Refusal(0).(verdict := None) }

  /** A download is reported done although the server refused it, in some exchange, exactly if an
      answer of the node is pending and the oldest one passes for an acknowledgement. */
  lemma MistakenExactly(net: Net, op: Op)
    requires op.Dl? && Typed(op.t) && WellTyped(net.server) && AllGot(net.queue)
    ensures (exists env: Script ::
               && Clean(env(net.clock), SdoRespId(op.node))
               && Register(net.server, op, env(net.clock)).0 != Done && Perform(net, env, op).0 == Done)
            <==> var pending := Responses(net.queue, SdoRespId(op.node));
                 pending != [] && Passes(pending[0], op.t)
  {
    hide Perform, Register, Can2Sdo, Served;
    var pending := Responses(net.queue, SdoRespId(op.node));
    forall env: Script | Clean(env(net.clock), SdoRespId(op.node)) && Perform(net, env, op).0 == Done
      && Register(net.server, op, env(net.clock)).0 != Done
      ensures pending != [] && Passes(pending[0], op.t)
    {
      FalseAck(net, env, op);
    }
    if pending != [] && Passes(pending[0], op.t) {
      var env: Script := (i: nat) => Refusal(1);
      FalseAck(net, env, op);
      RefusalRefuses(net.server, op, 1);
      assert Clean(env(net.clock), SdoRespId(op.node));
    }
  }

  lemma RefusalRefuses(sv: Server, op: Op, code: u32)
    requires Typed(op.t)
    ensures Register(sv, op, Refusal(code)).0.Aborted? && Register(sv, op, Refusal(code)).1 == sv
    ensures ObjectOf(op) in sv.od ==> Register(sv, op, Refusal(code)).0 == Aborted(code)
  {
    assert sv.store + map[] == sv.store;
  }

  /** What a download is told, in any exchange: by the oldest pending answer, if there is one. */
  lemma FalseAck(net: Net, env: Script, op: Op)
    requires op.Dl? && Typed(op.t) && WellTyped(net.server) && AllGot(net.queue)
    requires Clean(env(net.clock), SdoRespId(op.node))
    ensures var x, pending := env(net.clock), Responses(net.queue, SdoRespId(op.node));
            if x.sendFails.Some? then Perform(net, env, op).0 == Register(net.server, op, x).0
            else if pending == [] then Perform(net, env, op).0 == Register(net.server, op, x).0
            else Perform(net, env, op).0 == Done <==> Passes(pending[0], op.t)
  {
    hide Can2Sdo, Serve, Sdo2Can, FromUnion, ToUnion, Low;
    var x := env(net.clock);
    if x.sendFails.None? {
      PerformHears(net, env, op);
      AnswerIsRegister(net.server, op, x, x.stale);
      StatusIgnoresBuffer(x.stale, ZERO_MSG, InLine(net, env, op)[0], op.t);
    }
  }

  // ----- runs -----

  /** Quiet about one identifier: every receive works and no answer is pending. */
  lemma {:induction false} QuietIsNone(q: seq<Rx>, id: u32)
    ensures Quiet(q, {id}) <==> AllGot(q) && Responses(q, id) == []
  {
    if q != [] {
      QuietIsNone(q[1..], id);
      assert Quiet(q, {id}) <==> q[0].Got? && q[0].frame.id != id && Quiet(q[1..], {id}) by {
        QuietHead(q, id);
      }
      assert AllGot(q) <==> q[0].Got? && AllGot(q[1..]) by {
        assert forall i | 1 <= i < |q| :: q[i] == q[1..][i - 1];
      }
    }
  }

  lemma QuietHead(q: seq<Rx>, id: u32)
    requires q != []
    ensures Quiet(q, {id}) <==> q[0].Got? && q[0].frame.id != id && Quiet(q[1..], {id})
  {
    assert forall i | 1 <= i < |q| :: q[i] == q[1..][i - 1];
  }

  /** Calls of one node. */
  predicate OfNode(ops: seq<Op>, id: u32)
  {
    forall op | op in ops :: Typed(op.t) && SdoRespId(op.node) == id
  }

  /** The server consents, but for the exchange `c`, in which it refuses. */
  function RefusingAt(c: nat): Script
  {
    (i: nat) => if i == c then Refusal(1) else Consent()
  }

  /** Every one of the frames passes. */
  predicate AllPass(fs: seq<Frame>, t: DataType) { forall f | f in fs :: Passes(f, t) }

  function Copies(op: Op, n: nat): (ops: seq<Op>)
    ensures |ops| == n && forall o | o in ops :: o == op
  {
    if n == 0 then [] else [op] + Copies(op, n - 1)
  }

  /** An accepted call consented to: its acknowledgement passes. */
  lemma ConsentPasses(sv: Server, op: Op)
    requires op.Dl? && Typed(op.t) && WellTyped(sv) && ObjectOf(op) in sv.od && Size(sv.od[ObjectOf(op)]) == Size(op.t)
    ensures Register(sv, op, Consent()).0 == Done && Passes(Served(sv, op, Consent()).1, op.t)
  {
    hide Serve, Sdo2Can, Can2Sdo;
    AnswerIsRegister(sv, op, Consent(), ZERO_MSG);
  }

  /** With n answers pending, the download n + 1 calls later is refused and reported done: the n
      before it have been told by the pending answers and have left theirs behind. */
  lemma {:induction false} PendingLies(net: Net, op: Op, older: nat, c: nat)
    requires op.Dl? && Typed(op.t) && WellTyped(net.server) && AllGot(net.queue)
    requires ObjectOf(op) in net.server.od && Size(net.server.od[ObjectOf(op)]) == Size(op.t)
    requires var pending := Responses(net.queue, SdoRespId(op.node));
             pending != [] && older <= |pending| && AllPass(pending[older..], op.t)
    requires c == net.clock + older
    ensures var ops, env := Copies(op, older + 1), RefusingAt(c);
            WireRun(net, env, ops).0 != RegisterRun(net.server, env, net.clock, ops).0
    decreases older
  {
    hide Perform, Register, Served, Can2Sdo, Responses, Passes;
    var ops, env, id := Copies(op, older + 1), RefusingAt(c), SdoRespId(op.node);
    var pending := Responses(net.queue, id);
    assert ops == [op] + Copies(op, older);
    CleanExchanges(id);
    if older == 0 {
      assert pending[0] in pending[0..];
      FalseAck(net, env, op);
      RefusalRefuses(net.server, op, 1);
      assert WireRun(net, env, ops).0[0] == Done;
      assert RegisterRun(net.server, env, net.clock, ops).0[0] == Aborted(1);
    } else {
      PerformHears(net, env, op);
      ConsentPasses(net.server, op);
      var net' := Perform(net, env, op).1;
      var own := Served(net.server, op, Consent()).1;
      assert Responses(net'.queue, id) == pending[1..] + [own];
      assert (pending[1..] + [own])[older - 1..] == pending[older..] + [own];
      PendingLies(net', op, older - 1, c);
      assert ops[1..] == Copies(op, older);
      assert WireRun(net, env, ops).0[1..] == WireRun(net', env, ops[1..]).0;
      assert RegisterRun(net.server, env, net.clock, ops).0[1..]
             == RegisterRun(net'.server, env, net'.clock, ops[1..]).0;
    }
  }

  lemma CleanExchanges(id: u32)
    ensures Clean(Consent(), id) && Clean(Refusal(1), id)
  {
  }

  /** Runs of calls to a node give the replies of the register file, whatever surrounds the answers,
      whichever sends fail and whatever the server refuses, exactly if no answer of the node is
      pending at first.  (That some object can be downloaded is asked only because otherwise
      there is nothing to be told wrongly.) */
  lemma TruthfulExactly(net: Net, op: Op)
    requires op.Dl? && Typed(op.t) && WellTyped(net.server) && AllGot(net.queue)
    requires ObjectOf(op) in net.server.od && Size(net.server.od[ObjectOf(op)]) == Size(op.t)
    ensures var id := SdoRespId(op.node);
            (forall env: Script, ops: seq<Op> | CleanScript(env, id) && OfNode(ops, id) ::
               WireRun(net, env, ops).0 == RegisterRun(net.server, env, net.clock, ops).0)
            <==> Responses(net.queue, id) == []
  {
    hide WireRun, RegisterRun, Responses;
    var id := SdoRespId(op.node);
    var pending := Responses(net.queue, id);
    if pending == [] {
      QuietIsNone(net.queue, id);
      forall env: Script, ops: seq<Op> | CleanScript(env, id) && OfNode(ops, id)
        ensures WireRun(net, env, ops).0 == RegisterRun(net.server, env, net.clock, ops).0
      {
        CleanIsQuiet(env, id);
        WireRefinesRegisters(net, env, ops, {id});
      }
    } else {
      var n := |pending|;
      var env, ops := RefusingAt(net.clock + n), Copies(op, n + 1);
      assert pending[n..] == [];
      PendingLies(net, op, n, net.clock + n);
      CleanExchanges(id);
      assert CleanScript(env, id) && OfNode(ops, id);
    }
  }

  lemma CleanIsQuiet(env: Script, id: u32)
    requires CleanScript(env, id)
    ensures QuietScript(env, {id})
  {
    hide Responses;
    forall i: nat
      ensures Quiet(env(i).before, {id}) && Quiet(env(i).after, {id})
    {
      assert Clean(env(i), id);
      QuietIsNone(env(i).before, id);
      QuietIsNone(env(i).after, id);
    }
  }

  // ----- after one lost receive -----

  /** An upload of type t that hears the answer replies r, whatever its buffer held. */
  ghost predicate Tells(a: Frame, op: Op, r: Reply)
    requires Typed(op.t)
  {
    forall stale: Msg :: var (s, m) := Can2Sdo(stale, a, op.t); Finish(op, s, m) == r
  }

  /** Uploads of one type from one node. */
  predicate Uploads(ops: seq<Op>, id: u32, t: DataType)
  {
    OfNode(ops, id) && forall op | op in ops :: op.Ul? && op.t == t
  }

  /** From exchange c on, every send works and the surroundings are clean. */
  ghost predicate SmoothFrom(env: Script, id: u32, c: nat)
  {
    forall i: nat | i >= c :: Clean(env(i), id) && env(i).sendFails.None?
  }

  /** The replies one call late, with r before them. */
  function Late(r: Reply, replies: seq<Reply>): seq<Reply> { ([r] + replies)[..|replies|] }

  lemma {:induction false} OneBehind(net: Net, env: Script, ops: seq<Op>, id: u32, t: DataType, prev: Op, r: Reply)
    requires WellTyped(net.server) && AllGot(net.queue) && Typed(t) && prev.Ul? && prev.t == t
    requires Uploads(ops, id, t) && SmoothFrom(env, id, net.clock)
    requires |Responses(net.queue, id)| == 1 && Tells(Responses(net.queue, id)[0], prev, r)
    ensures WireRun(net, env, ops).0 == Late(r, RegisterRun(net.server, env, net.clock, ops).0)
    decreases |ops|
  {
    hide Perform, Register, Served, Can2Sdo, Responses, FromUnion, Late;
    if ops == [] {
      NoneLate(r);
    } else {
      var op, x := ops[0], env(net.clock);
      assert op in ops && Clean(x, id);
      PerformHears(net, env, op);
      var net', r' := Perform(net, env, op).1, Register(net.server, op, x).0;
      var own := Served(net.server, op, x).1;
      assert Perform(net, env, op).0 == r;
      assert Responses(net'.queue, id) == [own];
      forall stale: Msg
        ensures var (s, m) := Can2Sdo(stale, own, op.t); Finish(op, s, m) == r'
      {
        AnswerIsRegister(net.server, op, x, stale);
      }
      OneBehind(net', env, ops[1..], id, t, op, r');
      LateJoin(r, r', RegisterRun(net'.server, env, net'.clock, ops[1..]).0);
    }
  }

  lemma NoneLate(r: Reply)
    ensures Late(r, []) == []
  {
  }

  lemma LateJoin(r: Reply, r': Reply, rest: seq<Reply>)
    ensures Late(r, [r'] + rest) == [r] + Late(r', rest)
  {
  }

  /** Why runs must not lose a receive: after one failed receive every later upload of the same
      type from the node replies what the register file gives for the upload before it, of
      whatever object that was. */
  lemma LostReceiveShiftsRun(net: Net, env: Script, ops: seq<Op>, id: u32, t: DataType, e: LinkError)
    requires WellTyped(net.server) && net.queue == [] && Typed(t)
    requires Uploads(ops, id, t) && SmoothFrom(env, id, net.clock + 1)
    requires var x := env(net.clock); x.sendFails.None? && x.before == [Broken(e)] && x.after == []
    ensures WireRun(net, env, ops).0 == Late(Failed(e), RegisterRun(net.server, env, net.clock, ops).0)
  {
    hide Perform, Register, Served, Can2Sdo, FromUnion, Late;
    if ops == [] {
      NoneLate(Failed(e));
    } else {
      var op, x := ops[0], env(net.clock);
      assert op in ops;
      LostReceive(net, env, op, e);
      var own, r := Served(net.server, op, x).1, Register(net.server, op, x).0;
      var net' := Perform(net, env, op).1;
      forall stale: Msg
        ensures var (s, m) := Can2Sdo(stale, own, op.t); Finish(op, s, m) == r
      {
        AnswerIsRegister(net.server, op, x, stale);
      }
      assert Responses([Got(own)], id) == [own] + Responses([], id) by { AnswerIsRegister(net.server, op, x, x.stale); }
      OneBehind(net', env, ops[1..], id, t, op, r);
      LateJoin(Failed(e), r, RegisterRun(net'.server, env, net'.clock, ops[1..]).0);
    }
  }

  /** A call whose receive fails: the server carries it out all the same, and its answer stays. */
  lemma LostReceive(net: Net, env: Script, op: Op, e: LinkError)
    requires WellTyped(net.server) && net.queue == [] && Typed(op.t)
    requires var x := env(net.clock); x.sendFails.None? && x.before == [Broken(e)] && x.after == []
    ensures var x, (reply, net') := env(net.clock), Perform(net, env, op);
            && reply == Failed(e) && net'.queue == [Got(Served(net.server, op, x).1)]
            && net'.server == Register(net.server, op, x).1 && net'.clock == net.clock + 1
            && net'.server.od == net.server.od
  {
    hide Serve, Sdo2Can, Can2Sdo, FromUnion, Register;
    var x := env(net.clock);
    PerformServes(net, env, op);
    assert net.queue + x.before + [Got(Served(net.server, op, x).1)] + x.after
           == [Broken(e), Got(Served(net.server, op, x).1)];
  }

  /** The worse case: an upload after a download whose acknowledgement was lost succeeds with
      whatever its uninitialised message buffer held. */
  lemma LostAckGivesGarbage(net: Net, env: Script, a: Op, b: Op, e: LinkError)
    requires WellTyped(net.server) && net.queue == [] && Typed(a.t) && Typed(b.t)
    requires a.Dl? && b.Ul? && a.node == b.node && ObjectOf(a) in net.server.od
    requires Size(net.server.od[ObjectOf(a)]) == Size(a.t)
    requires var x := env(net.clock);
             && x.sendFails.None? && x.verdict.None? && x.before == [Broken(e)] && x.after == []
             && SmoothFrom(env, SdoRespId(b.node), net.clock + 1)
    ensures var net1 := Perform(net, env, a).1;
            Perform(net1, env, b).0 == Value(FromUnion(b.t, env(net1.clock).stale.data))
  {
    hide Serve, Sdo2Can, Can2Sdo, FromUnion, ToUnion, Perform;
    var x := env(net.clock);
    LostReceive(net, env, a, e);
    var net1, own := Perform(net, env, a).1, Served(net.server, a, x).1;
    var stale := env(net1.clock).stale;
    AckPasses(net.server, a, x, stale, b.t);
    assert Clean(env(net1.clock), SdoRespId(b.node));
    PerformHears(net1, env, b);
    assert Responses([Got(own)], SdoRespId(b.node)) == [own] + [];
  }

  /** The acknowledgement of an accepted download leaves the data of any buffer alone. */
  lemma AckPasses(sv: Server, op: Op, x: Exchange, stale: Msg, t: DataType)
    requires Typed(op.t) && op.Dl? && WellTyped(sv) && x.sendFails.None? && x.verdict.None?
    requires ObjectOf(op) in sv.od && Size(sv.od[ObjectOf(op)]) == Size(op.t)
    ensures var (r, m) := Can2Sdo(stale, Served(sv, op, x).1, t);
            r == Ok && m.data == stale.data && Served(sv, op, x).1.id == SdoRespId(op.node)
  {
    hide Sdo2Can, Can2Sdo, FromUnion, ToUnion, Low, UnpackCmd, NodeBits, Ldle16;
    var f, key := Sdo2Can(x.clientScratch, Request(op), false).1, ObjectOf(op);
    RequestReads(x.clientScratch, op);
    DataDecodes(x.clientScratch, ZERO_MSG, Request(op), false, sv.od[key]);
    AckDecodes(x.serverScratch, stale, Can2Sdo(ZERO_MSG, f, sv.od[key]).1.(cs := SCS_EX_DL), true, t);
  }
}
