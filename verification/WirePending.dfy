/** Transfers over the SDO wire with answers of the node pending. */
module WirePending {
  import opened Can
  import opened SdoCodec
  import opened Bus
  import opened BusOverSdo
  import opened SdoPending
  import opened WireSafety
  import Sdo = SdoClient

  // ----- one transfer -----

  /** The pending answers of the node. */
  function Pending(net: Sdo.Net, node: u8): seq<Frame> { Sdo.Responses(net.queue, SdoRespId(node)) }

  /** The answers of the node when the transfer has been served. */
  function Queued(net: Sdo.Net, env: Sdo.Script, node: u8, ask: Ask): (q: seq<Frame>)
    requires ask != AskNmt
    ensures |q| == |Pending(net, node)| + 1
  {
    Pending(net, node) + [Sdo.Served(net.server, CallOf(node, ask), env(net.clock)).1]
  }

  /** A delivered transfer is told by the oldest answer, and leaves the others. */
  lemma ToldByOldest(net: Sdo.Net, env: Sdo.Script, node: u8, ask: Ask)
    requires ask != AskNmt && Sdo.WellTyped(net.server) && AllGot(net.queue)
    requires Clean(env(net.clock), SdoRespId(node)) && env(net.clock).sendFails.None?
    ensures var op, x := CallOf(node, ask), env(net.clock);
            var (r, m) := Can2Sdo(x.stale, Queued(net, env, node, ask)[0], op.t);
            var (seen, net') := Attempt(net, env, node, ask);
            && seen == Sdo.Finish(op, r, m)
            && AllGot(net'.queue) && net'.clock == net.clock + 1
            && Pending(net', node) == Queued(net, env, node, ask)[1..]
            && net'.server == Sdo.Register(net.server, op, x).1 && net'.server.od == net.server.od
  {
    hide Sdo.Perform, Sdo.Register, Sdo.Served, Can2Sdo, Sdo.Responses, CallOf, Sdo.FromUnion;
    PerformHears(net, env, CallOf(node, ask));
  }

  /** A transfer whose request is not sent. */
  lemma NotSent(net: Sdo.Net, env: Sdo.Script, node: u8, ask: Ask)
    requires env(net.clock).sendFails.Some?
    ensures var e := env(net.clock).sendFails.value;
            && Attempt(net, env, node, ask).0 == Sdo.Failed(e) && Truth(net, env, node, ask) == Sdo.Failed(e)
  {
  }

  /** Whether a transfer succeeds for the client, from what is pending. */
  lemma SucceedsIfPasses(net: Sdo.Net, env: Sdo.Script, node: u8, ask: Ask)
    requires ask != AskNmt && Sdo.WellTyped(net.server) && AllGot(net.queue)
    requires Clean(env(net.clock), SdoRespId(node))
    ensures Good(Attempt(net, env, node, ask).0) <==>
            env(net.clock).sendFails.None? && Passes(Queued(net, env, node, ask)[0], CallOf(node, ask).t)
    ensures StatusOf(OutcomeOf(net, env, node, ask)) == Ok <==> Good(Attempt(net, env, node, ask).0)
    ensures env(net.clock).sendFails.None? ==>
              var (seen, net') := Attempt(net, env, node, ask);
              && AllGot(net'.queue) && net'.clock == net.clock + 1
              && Pending(net', node) == Queued(net, env, node, ask)[1..]
              && net'.server == Sdo.Register(net.server, CallOf(node, ask), env(net.clock)).1
              && net'.server.od == net.server.od
  {
    hide Attempt, Sdo.Register, Can2Sdo, Pending, CallOf, Queued, Sdo.FromUnion, Truth;
    if env(net.clock).sendFails.Some? {
      NotSent(net, env, node, ask);
    } else {
      ToldByOldest(net, env, node, ask);
      StatusIgnoresBuffer(env(net.clock).stale, Sdo.ZERO_MSG, Queued(net, env, node, ask)[0], CallOf(node, ask).t);
    }
  }

  // ----- surroundings -----

  /** The surroundings in which every frame arrives, nobody else answers for the node, and the device
      leaves the registers in question alone; sends may fail and the server may refuse anything. */
  ghost predicate Fair(env: Sdo.Script, node: u8)
  {
    CleanScript(env, SdoRespId(node)) && Settled(env, node)
  }

  lemma NetStep(net: Sdo.Net, env: Sdo.Script, node: u8, log: seq<Event>, ev: Event)
    ensures NetAfter(net, env, node, []) == net
    ensures NetAfter(net, env, node, log + [ev]) == Attempt(NetAfter(net, env, node, log), env, node, AskOf(ev)).1
  {
    hide Attempt;
    NetUnfolds(net, env, node, log, ev);
  }

  /** A write that the server consents to takes effect, whatever the client hears. */
  lemma ConsentApplies(net: Sdo.Net, env: Sdo.Script, node: u8, ask: Ask)
    requires ask.AskWrite? && node < 0x80
    requires env(net.clock).sendFails.None? && env(net.clock).verdict.None?
    requires KeyOf(node, ask.e) in net.server.od && Size(net.server.od[KeyOf(node, ask.e)]) == Width(ask.e)
    ensures Applied(OutcomeOf(net, env, node, ask))
  {
    hide Attempt, Sdo.Register, TypeOf;
    var op := CallOf(node, ask);
    assert Sdo.ObjectOf(op) == KeyOf(node, ask.e);
    RegisterDone(net.server, op, env(net.clock));
    NeverValue(net, env, node, ask);
  }

  lemma RegisterDone(sv: Sdo.Server, op: Sdo.Op, x: Sdo.Exchange)
    requires op.Dl? && Sdo.Typed(op.t) && x.sendFails.None? && x.verdict.None?
    requires Sdo.ObjectOf(op) in sv.od && Size(sv.od[Sdo.ObjectOf(op)]) == Size(op.t)
    ensures Sdo.Register(sv, op, x).0 == Sdo.Done
  {
  }

  lemma NeverValue(net: Sdo.Net, env: Sdo.Script, node: u8, ask: Ask)
    requires ask.AskWrite?
    ensures !Attempt(net, env, node, ask).0.Value?
  {
    hide Sdo.Query;
  }

  lemma AttemptIsPerform(net: Sdo.Net, env: Sdo.Script, node: u8, ask: Ask)
    requires ask != AskNmt
    ensures Attempt(net, env, node, ask) == Sdo.Perform(net, env, CallOf(node, ask))
  {
  }

  /** A write that the server refuses, told by an answer that passes. */
  lemma RefusedPasses(net: Sdo.Net, env: Sdo.Script, node: u8, ask: Ask)
    requires Writes(ask) && Sdo.WellTyped(net.server) && AllGot(net.queue)
    requires env(net.clock) == Refusal(1) && Passes(Queued(net, env, node, ask)[0], CallOf(node, ask).t)
    ensures OutcomeOf(net, env, node, ask) == Mistaken(0)
  {
    hide Attempt, Sdo.Register, Can2Sdo, CallOf, Queued, Sdo.Perform;
    CleanExchanges(SdoRespId(node));
    SucceedsIfPasses(net, env, node, ask);
    RepliesOf(net, env, node, ask);
    RefusalRefuses(net.server, CallOf(node, ask), 1);
    AttemptIsPerform(net, env, node, ask);
  }

  /** A message buffer that happens to hold bit 31. */
  const BIT31: Msg := Sdo.ZERO_MSG.(data := 0x8000_0000)

  /** The server consents to everything, and the buffer of the exchange c holds bit 31. */
  function SkippingAt(c: nat): Sdo.Script
  {
    (i: nat) => if i == c then Consent().(stale := BIT31) else Consent()
  }

  lemma ScriptsFair(c: nat, node: u8)
    ensures Fair(SkippingAt(c), node) && Fair(RefusingAt(c), node)
    ensures forall i: nat :: SkippingAt(c)(i).sendFails.None? && SkippingAt(c)(i).verdict.None?
    ensures SkippingAt(c)(c).stale == BIT31
    ensures forall i: nat :: RefusingAt(c)(i) == if i == c then Refusal(1) else Consent()
  {
    CleanExchanges(SdoRespId(node));
  }

  lemma NoneWhenFair(net: Sdo.Net, env: Sdo.Script, node: u8)
    requires Fair(env, node) && Pending(net, node) == []
    ensures NonePending(net, env, node)
  {
    hide Sdo.Responses;
    forall i: nat
      ensures Sdo.Responses(env(i).before, SdoRespId(node)) == [] == Sdo.Responses(env(i).after, SdoRespId(node))
    {
      assert Clean(env(i), SdoRespId(node));
    }
  }
}
