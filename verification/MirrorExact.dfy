/** Exactly which pending answers break the mirror of the control word. */
module MirrorExact {
  import opened Can
  import opened SdoCodec
  import opened Bus
  import opened BusOverSdo
  import opened Ds402
  import opened Ds402Mirror
  import opened SdoPending
  import opened WirePending
  import opened WireSafety
  import Pdo
  import Sdo = SdoClient

  // ----- the mirror of the control word -----

  /** The control word that a command makes of the client's mirror, sent over the wire. */
  function CtrlAsk(s: Session, c: Command): Ask { AskCtrl(Masked(s.drive.ctrlWord, c)) }

  /** A control word in clean surroundings, after any log: a right mirror stays right exactly if the
      word does not change, the request is not sent, no answer is pending, or the oldest passes for
      an acknowledgement just when the server accepts. */
  lemma CtrlMirrorsWhen(start: Sdo.Net, env: Sdo.Script, node: u8, s: Session, c: Command)
    requires Mirrors(s)
    requires var net := NetAfter(start, env, node, s.line.log);
             Sdo.WellTyped(net.server) && AllGot(net.queue) && Clean(env(net.clock), SdoRespId(node))
    ensures var net, word := NetAfter(start, env, node, s.line.log), Masked(s.drive.ctrlWord, c);
            Mirrors(DlCtrl(WireEnv(start, env, node), s, c).1) <==>
              || word == s.drive.ctrlWord || env(net.clock).sendFails.Some? || Pending(net, node) == []
              || (Passes(Pending(net, node)[0], Unsigned16) <==> Truth(net, env, node, CtrlAsk(s, c)) == Sdo.Done)
  {
    hide Masked, Attempt, Truth, Pending, Passes, Sdo.WellTyped, NetAfter, DlCtrl;
    var net, ask := NetAfter(start, env, node, s.line.log), CtrlAsk(s, c);
    DlCtrlMirrors(WireEnv(start, env, node), s, c);
    CtrlAgrees(net, env, node, ask);
  }

  /** Client and device agree on what became of a control word. */
  lemma CtrlAgrees(net: Sdo.Net, env: Sdo.Script, node: u8, ask: Ask)
    requires ask.AskCtrl?
    requires Sdo.WellTyped(net.server) && AllGot(net.queue) && Clean(env(net.clock), SdoRespId(node))
    ensures var out := OutcomeOf(net, env, node, ask);
            (out.Done? || out.Refused?) <==>
              || env(net.clock).sendFails.Some? || Pending(net, node) == []
              || (Passes(Pending(net, node)[0], Unsigned16) <==> Truth(net, env, node, ask) == Sdo.Done)
  {
    hide Attempt, Truth, Pending, Can2Sdo, Sdo.Served, Sdo.Register;
    CtrlReplies(net, env, node, ask);
    if env(net.clock).sendFails.Some? {
      NotSent(net, env, node, ask);
    } else {
      SucceedsIfPasses(net, env, node, ask);
      if Pending(net, node) == [] {
        OwnTold(net, env, node, ask);
      }
    }
  }

  lemma CtrlReplies(net: Sdo.Net, env: Sdo.Script, node: u8, ask: Ask)
    requires ask.AskCtrl?
    ensures !Attempt(net, env, node, ask).0.Value? && !Truth(net, env, node, ask).Value?
    ensures CallOf(node, ask).t == Unsigned16
  {
    hide Sdo.Perform, Sdo.Register;
    RepliesOf(net, env, node, ask);
  }

  /** With none pending, a delivered transfer in clean surroundings is told the truth. */
  lemma OwnTold(net: Sdo.Net, env: Sdo.Script, node: u8, ask: Ask)
    requires ask != AskNmt && Sdo.WellTyped(net.server) && AllGot(net.queue) && Pending(net, node) == []
    requires Clean(env(net.clock), SdoRespId(node)) && env(net.clock).sendFails.None?
    ensures Attempt(net, env, node, ask).0 == Truth(net, env, node, ask)
  {
    hide Attempt, Sdo.Register, Can2Sdo, Sdo.Served, CallOf, Sdo.FromUnion, Pending;
    ToldByOldest(net, env, node, ask);
    Sdo.AnswerIsRegister(net.server, CallOf(node, ask), env(net.clock), env(net.clock).stale);
  }

  /** In all fair surroundings a control word sent next keeps the mirror right. */
  ghost predicate AlwaysMirrors(net: Sdo.Net, node: u8, drive: Drive, dev: Device, c: Command)
  {
    forall env: Sdo.Script | Fair(env, node) :: Mirrors(DlCtrl(WireEnv(net, env, node), Fresh(drive, dev), c).1)
  }

  /** The mirror, exactly: stop, or any other control word, keeps a right mirror right in all fair
      surroundings if and only if no answer of the node is pending or the word does not change.  An
      answer that passes breaks it when the server refuses, one that does not when it accepts. */
  lemma CtrlMirrorsExactly(net: Sdo.Net, node: u8, drive: Drive, dev: Device, c: Command)
    requires Sdo.WellTyped(net.server) && AllGot(net.queue) && node < 0x80 && drive.ctrlWord == dev.ctrl
    requires var key := ObjKeyOf(node, CtrlWord); key in net.server.od && Size(net.server.od[key]) == 2
    ensures AlwaysMirrors(net, node, drive, dev, c)
            <==> Pending(net, node) == [] || Masked(drive.ctrlWord, c) == drive.ctrlWord
    ensures c == SHUTDOWN ==> forall env: Sdo.Script ::
              Stop(WireEnv(net, env, node), Fresh(drive, dev)) == DlCtrl(WireEnv(net, env, node), Fresh(drive, dev), c)
  {
    hide Masked, Truth, Pending, Passes, DlCtrl, Sdo.WellTyped;
    var s := Fresh(drive, dev);
    forall env: Sdo.Script | Fair(env, node)
      ensures Mirrors(DlCtrl(WireEnv(net, env, node), s, c).1) <==>
                || Masked(drive.ctrlWord, c) == drive.ctrlWord || env(net.clock).sendFails.Some?
                || Pending(net, node) == []
                || (Passes(Pending(net, node)[0], Unsigned16) <==> Truth(net, env, node, CtrlAsk(s, c)) == Sdo.Done)
    {
      assert Clean(env(net.clock), SdoRespId(node)) && NetAfter(net, env, node, []) == net;
      CtrlMirrorsWhen(net, env, node, s, c);
    }
    var yes, no := RefusingAt(net.clock + 1), RefusingAt(net.clock);
    ScriptsFair(net.clock + 1, node);
    ScriptsFair(net.clock, node);
    assert Fair(yes, node) && Fair(no, node);
    CtrlTruths(net, node, s, c);
  }

  /** Consent accepts the word, refusal does not. */
  lemma CtrlTruths(net: Sdo.Net, node: u8, s: Session, c: Command)
    requires node < 0x80
    requires var key := ObjKeyOf(node, CtrlWord); key in net.server.od && Size(net.server.od[key]) == 2
    ensures Truth(net, RefusingAt(net.clock + 1), node, CtrlAsk(s, c)) == Sdo.Done
    ensures Truth(net, RefusingAt(net.clock), node, CtrlAsk(s, c)) != Sdo.Done
    ensures RefusingAt(net.clock + 1)(net.clock).sendFails.None? && RefusingAt(net.clock)(net.clock).sendFails.None?
  {
    hide Masked, Sdo.Register;
    var op := CallOf(node, CtrlAsk(s, c));
    assert Sdo.ObjectOf(op) == ObjKeyOf(node, CtrlWord);
    RegisterDone(net.server, op, Consent());
    RefusalRefuses(net.server, op, 1);
  }

  /** The two ways: with an answer pending that passes, a refused stop reports success and the mirror
      takes the word that the register never held; with one that does not pass, an accepted stop
      reports an error, and the register takes the word that the mirror does not. */
  lemma StopFooled(net: Sdo.Net, node: u8, drive: Drive, dev: Device)
    requires Sdo.WellTyped(net.server) && AllGot(net.queue) && node < 0x80 && Pending(net, node) != []
    requires var key := ObjKeyOf(node, CtrlWord); key in net.server.od && Size(net.server.od[key]) == 2
    ensures var word, s := Masked(drive.ctrlWord, SHUTDOWN), Fresh(drive, dev);
            if Passes(Pending(net, node)[0], Unsigned16) then
              var (r, s') := Stop(WireEnv(net, RefusingAt(net.clock), node), s);
              r == Ok && s'.drive.ctrlWord == word && s'.line.dev == dev
            else
              var (r, s') := Stop(WireEnv(net, RefusingAt(net.clock + 1), node), s);
              r != Ok && s'.drive.ctrlWord == drive.ctrlWord && s'.line.dev == dev.(ctrl := word)
  {
    hide Masked, Attempt, Truth, Pending, Can2Sdo, Sdo.Served, Sdo.WellTyped;
    var s, no, yes := Fresh(drive, dev), RefusingAt(net.clock), RefusingAt(net.clock + 1);
    var ask := CtrlAsk(s, SHUTDOWN);
    CleanExchanges(SdoRespId(node));
    assert NetAfter(net, no, node, []) == net == NetAfter(net, yes, node, []);
    CtrlTruths(net, node, s, SHUTDOWN);
    CtrlReplies(net, no, node, ask);
    CtrlReplies(net, yes, node, ask);
    SucceedsIfPasses(net, no, node, ask);
    SucceedsIfPasses(net, yes, node, ask);
  }

  // ----- runs of calls in clean surroundings -----

  /** A transfer in clean surroundings with none pending is Done or Refused, and leaves none. */
  lemma CleanStep(net: Sdo.Net, env: Sdo.Script, node: u8, ask: Ask)
    requires Sdo.WellTyped(net.server) && AllGot(net.queue) && Pending(net, node) == []
    requires Clean(env(net.clock), SdoRespId(node))
    ensures var out, net' := OutcomeOf(net, env, node, ask), Attempt(net, env, node, ask).1;
            && (out.Done? || out.Refused?)
            && Sdo.WellTyped(net'.server) && AllGot(net'.queue) && Pending(net', node) == []
  {
    hide Attempt, Truth, Sdo.Register, Can2Sdo, Sdo.Served, CallOf, Sdo.Responses, SendCommand;
    if ask == AskNmt {
      CommandClean(net, env, node);
    } else {
      AttemptServes(net, env, node, ask);
      if env(net.clock).sendFails.Some? {
        NotSent(net, env, node, ask);
      } else {
        SucceedsIfPasses(net, env, node, ask);
        OwnTold(net, env, node, ask);
      }
    }
  }

  lemma AttemptServes(net: Sdo.Net, env: Sdo.Script, node: u8, ask: Ask)
    requires ask != AskNmt && Sdo.WellTyped(net.server)
    ensures Attempt(net, env, node, ask).1.server.od == net.server.od
    ensures env(net.clock).sendFails.Some? ==> Attempt(net, env, node, ask).1.queue == net.queue
  {
    hide Sdo.Register, Sdo.Serve, Sdo2Can, Can2Sdo, Sdo.FromUnion, CallOf;
    Sdo.PerformServes(net, env, CallOf(node, ask));
  }

  lemma CommandClean(net: Sdo.Net, env: Sdo.Script, node: u8)
    requires AllGot(net.queue) && Pending(net, node) == [] && Clean(env(net.clock), SdoRespId(node))
    ensures var net' := Attempt(net, env, node, AskNmt).1;
            && AllGot(net'.queue) && Pending(net', node) == [] && net'.server.od == net.server.od
            && Attempt(net, env, node, AskNmt).0 == Truth(net, env, node, AskNmt)
            && !Attempt(net, env, node, AskNmt).0.Aborted?
  {
    hide Sdo.Responses;
    var x, id := env(net.clock), SdoRespId(node);
    Sdo.ResponsesConcat(net.queue + x.before, x.after, id);
    Sdo.ResponsesConcat(net.queue, x.before, id);
  }

  /** So is every transfer of a log that starts with none pending. */
  lemma {:induction false} CleanLog(net: Sdo.Net, env: Sdo.Script, node: u8, log: seq<Event>)
    requires Sdo.WellTyped(net.server) && AllGot(net.queue) && Pending(net, node) == []
    requires CleanScript(env, SdoRespId(node)) && Genuine(WireEnv(net, env, node), log, 0)
    ensures forall ev | ev in log :: ev.out.Done? || ev.out.Refused?
    ensures var net' := NetAfter(net, env, node, log);
            Sdo.WellTyped(net'.server) && AllGot(net'.queue) && Pending(net', node) == []
    decreases |log|
  {
    hide OutcomeOf, Genuine, Sdo.WellTyped, WireEnv, Decided, Attempt, Pending, AllGot, Clean;
    if log != [] {
      var front, ev := log[..|log| - 1], log[|log| - 1];
      assert log == front + [ev];
      GenuineSnoc(WireEnv(net, env, node), front, ev);
      CleanLog(net, env, node, front);
      NetUnfolds(net, env, node, front, ev);
      DecidedByWire(net, env, node, front, ev);
      var net1 := NetAfter(net, env, node, front);
      assert Clean(env(net1.clock), SdoRespId(node));
      CleanStep(net1, env, node, AskOf(ev));
    }
  }

  /** From a queue with no answer pending, and as long as every frame arrives: the mirror is right
      after every run of start, stop and mode calls, failed sends, refusals and mode calls with a
      failed remap included. */
  lemma WireCallsMirror(net: Sdo.Net, env: Sdo.Script, node: u8, drive: Drive, dev: Device, calls: seq<Call>)
    requires Sdo.WellTyped(net.server) && AllGot(net.queue) && Pending(net, node) == []
    requires CleanScript(env, SdoRespId(node)) && drive.ctrlWord == dev.ctrl
    ensures Mirrors(RunCalls(WireEnv(net, env, node), Fresh(drive, dev), calls))
  {
    hide RunCalls, HighByte, WireEnv, Pending, Sdo.WellTyped, AllGot, Genuine;
    var bus, s := WireEnv(net, env, node), Fresh(drive, dev);
    var s' := RunCalls(bus, s, calls);
    CallsHalt(bus, s, calls, HighByte(drive.ctrlWord));
    FromEmpty(dev, s'.line);
    CleanLog(net, env, node, s'.line.log);
    CallsMirror(bus, s, calls);
  }

  /** A mode call over the wire, with any losses before its control word: if that word meets clean
      surroundings, the mirror is right in the end exactly under the condition for control words in
      the network that the mode change and the remap, failed or not, have left.  So a lost receive in
      the remap breaks it when the answer left there passes and the word is refused, or does not pass
      and the word is accepted. */
  lemma ModeMirrorsWhen(start: Sdo.Net, env: Sdo.Script, node: u8, drive: Drive, dev: Device, mode: int)
    requires drive.ctrlWord == dev.ctrl && 0 <= drive.rpdoUser <= 0xFF && mode == MODE_VELOCITY
    requires mode == drive.opMode || ChangeMode(WireEnv(start, env, node), Fresh(drive, dev), mode).0 == Ok
    requires var s := BeforeRamp(WireEnv(start, env, node), Fresh(drive, dev), mode);
             var net := NetAfter(start, env, node, s.line.log);
             Sdo.WellTyped(net.server) && AllGot(net.queue) && Clean(env(net.clock), SdoRespId(node))
    ensures var s := BeforeRamp(WireEnv(start, env, node), Fresh(drive, dev), mode);
            var net := NetAfter(start, env, node, s.line.log);
            Mirrors(SetOpMode(WireEnv(start, env, node), Fresh(drive, dev), mode).1) <==>
              || Masked(drive.ctrlWord, USE_RAMP) == drive.ctrlWord || env(net.clock).sendFails.Some?
              || Pending(net, node) == []
              || (Passes(Pending(net, node)[0], Unsigned16)
                  <==> Truth(net, env, node, CtrlAsk(s, USE_RAMP)) == Sdo.Done)
  {
    hide Masked, Truth, Pending, Passes, DlCtrl, Sdo.WellTyped, NetAfter, Pdo.Remap, WireEnv;
    var bus := WireEnv(start, env, node);
    var s := BeforeRamp(bus, Fresh(drive, dev), mode);
    RampKeeps(bus, Fresh(drive, dev), mode);
    CtrlMirrorsWhen(start, env, node, s, USE_RAMP);
  }

  /** The session when a mode call sends its control word. */
  function BeforeRamp(env: Env, s: Session, mode: i8): Session
    requires 0 <= s.drive.rpdoUser <= 0xFF
  {
    var s1 := if mode != s.drive.opMode then ChangeMode(env, s, mode).1 else s;
    s1.(line := Pdo.Remap(env, s1.line, ModeRequest(s.drive.rpdoUser)).1)
  }

  lemma RampKeeps(env: Env, s: Session, mode: i8)
    requires 0 <= s.drive.rpdoUser <= 0xFF && mode == MODE_VELOCITY
    requires mode == s.drive.opMode || ChangeMode(env, s, mode).0 == Ok
    ensures var s2 := BeforeRamp(env, s, mode);
            && s2.drive.ctrlWord == s.drive.ctrlWord && s2.line.dev.ctrl == s.line.dev.ctrl
            && SetOpMode(env, s, mode).1 == DlCtrl(env, s2, USE_RAMP).1
  {
    hide Pdo.Remap, DlCtrl;
    var s1 := if mode != s.drive.opMode then ChangeMode(env, s, mode).1 else s;
    RemapKeepsCtrl(env, s1.line, ModeRequest(s.drive.rpdoUser));
  }
}
