/** The results about PDO reconfiguration and drives, for runs over the SDO wire that start with no
    answer of the node pending. */
module WireSafety {
  import opened Can
  import opened SdoCodec
  import opened Bus
  import opened BusOverSdo
  import opened Pdo
  import opened PdoSafety
  import opened Ds402
  import Sdo = SdoClient
  import Ds402Safety
  import Ds402Mirror

  lemma FromEmpty(dev: Device, l: Line)
    ensures Since(Line(dev, []), l) == l.log
  {
  }

  lemma TruthfulPrefix(evs: seq<Event>, k: nat)
    requires Truthful(evs) && k <= |evs|
    ensures Truthful(evs[..k])
  {
  }

  lemma GenuinePrefix(env: Env, log: seq<Event>, k: nat)
    requires Genuine(env, log, 0) && k <= |log|
    ensures Genuine(env, log[..k], 0)
  {
    hide Decided;
    forall i | 0 <= i < k
      ensures Decided(env, log[..k][..i], log[..k][i])
    {
      assert log[..k][..i] == log[..i];
    }
  }

  // ----- PDO reconfiguration -----

  /** The events of canmat_pdo_remap for a node over the wire. */
  function RemapLog(net: Sdo.Net, env: Sdo.Script, node: u8, dev: Device, req: Request): seq<Event>
    requires |req.objs| < 0xFF
  {
    Events(WireEnv(net, env, node), Line(dev, []), req)
  }

  lemma RemapOnWire(net: Sdo.Net, env: Sdo.Script, node: u8, dev: Device, req: Request, k: nat)
    requires |req.objs| < 0xFF && Reaches(net, env, node, dev) && k <= |RemapLog(net, env, node, dev, req)|
    ensures var evs := RemapLog(net, env, node, dev, req);
            && Reaches(NetAfter(net, env, node, evs[..k]), env, node, Replay(dev, evs[..k]))
            && Remap(WireEnv(net, env, node), Line(dev, []), req).1 == Line(Replay(dev, evs), evs)
            && (NonePending(net, env, node) ==> Truthful(evs))
  {
    hide Remap, WireEnv, Reaches, Genuine, Prompt, Fits, NonePending, Replay;
    var bus, l := WireEnv(net, env, node), Line(dev, []);
    var evs := RemapLog(net, env, node, dev, req);
    RemapGrows(bus, l, req);
    FromEmpty(dev, Remap(bus, l, req).1);
    GenuinePrefix(bus, evs, k);
    assert forall ev | ev in evs[..k] :: ev in evs;
    WireTracks(net, env, node, dev, evs[..k]);
    if NonePending(net, env, node) {
      ReachesTyped(net, env, node, dev);
      WireTruthful(net, env, node, evs);
    }
  }

  lemma ReachesTyped(net: Sdo.Net, env: Sdo.Script, node: u8, dev: Device)
    requires Reaches(net, env, node, dev)
    ensures Sdo.WellTyped(net.server)
  {
  }

  /** Atomicity and ordering over the wire: from a queue with no answer of the node pending,
      whatever sends and receives fail and whatever the server refuses, after any number of
      transfers the registers of the node hold a device whose PDO, if valid, has the old
      configuration or the whole new one, and the writes that took effect determine which; no
      transfer writes what the server forbids in its state; and success leaves the new configuration
      valid and all other indices as they were.  New means requested, but for an inhibit time of
      more than eight bits. */
  lemma WireRemap(net: Sdo.Net, env: Sdo.Script, node: u8, dev: Device, req: Request, k: nat)
    requires Reaches(net, env, node, dev) && NonePending(net, env, node)
    requires |req.objs| < 0xFF && ParamsOk(req) && k <= |RemapLog(net, env, node, dev, req)|
    ensures var evs := RemapLog(net, env, node, dev, req);
            var now := Replay(dev, evs[..k]);
            && Reaches(NetAfter(net, env, node, evs[..k]), env, node, now)
            && (Valid(now.dict, req) ==> Active(now.dict, req) == Active(dev.dict, req)
                                         || (Complete(req) && Active(now.dict, req) == Written(dev.dict, req)))
            && (Valid(now.dict, req) <==> (Effects(evs[..k]) == 0 && Valid(dev.dict, req))
                                          || (Effects(evs[..k]) == |PlanFor(dev.dict, req)| && Complete(req)))
            && (Valid(now.dict, req) && Effects(evs[..k]) > 0 ==>
                  (Active(now.dict, req) == Requested(dev.dict, req) <==> req.inhibit <= 0xFF))
            && (k < |evs| && evs[k].Write? ==> Permitted(now.dict, req, Put(evs[k].e, evs[k].v)))
            && (k == |evs| && Remap(WireEnv(net, env, node), Line(dev, []), req).0 == Ok ==>
                  && Valid(now.dict, req) && Active(now.dict, req) == Written(dev.dict, req)
                  && forall e: Entry | e.index != ComIndex(req) && e.index != MapIndex(req) ::
                       Get(now.dict, e) == Get(dev.dict, e))
  {
    hide Remap, WireEnv, Reaches, Active, Permitted, Truthful, Effects, Replay, Valid, Written, Requested, PlanFor;
    var bus, l := WireEnv(net, env, node), Line(dev, []);
    var evs := RemapLog(net, env, node, dev, req);
    RemapOnWire(net, env, node, dev, req, k);
    TruthfulPrefix(evs, k);
    RemapAtomic(bus, l, req, k);
    if k < |evs| && evs[k].Write? {
      RemapOrdered(bus, l, req, k);
    }
    if k == |evs| && Remap(bus, l, req).0 == Ok {
      assert evs[..k] == evs;
      RemapSuccess(bus, l, req);
    }
  }

  // ----- drives -----

  /** A call over the wire that stops at the first failure. */
  lemma CallOnWire(net: Sdo.Net, env: Sdo.Script, node: u8, s: Session, s': Session, k: nat, h: bv16)
    requires s.line.log == [] && Reaches(net, env, node, s.line.dev) && k <= |s'.line.log|
    requires Ds402Mirror.Halting(WireEnv(net, env, node), s, s', h)
    ensures Reaches(NetAfter(net, env, node, s'.line.log[..k]), env, node, Replay(s.line.dev, s'.line.log[..k]))
    ensures NonePending(net, env, node) && Prompt(s'.line.log) ==> Truthful(s'.line.log)
    ensures s'.line.dev == Replay(s.line.dev, s'.line.log)
  {
    hide WireEnv, Reaches, Genuine, Prompt, Fits, NonePending, Ds402Mirror.HighByte, Replay;
    var bus, log := WireEnv(net, env, node), s'.line.log;
    FromEmpty(s.line.dev, s'.line);
    GenuinePrefix(bus, log, k);
    forall ev | ev in log[..k]
      ensures AskFits(AskOf(ev))
    {
      assert ev in log && Ds402Mirror.KeepsHigh(ev, h);
    }
    WireTracks(net, env, node, s.line.dev, log[..k]);
    if NonePending(net, env, node) && Prompt(log) {
      ReachesTyped(net, env, node, s.line.dev);
      WireTruthful(net, env, node, log);
    }
  }

  /** A session at the beginning of a run over the wire. */
  function Fresh(drive: Drive, dev: Device): Session { Session(drive, Line(dev, [])) }

  /** Start over the wire, with no answer pending at first: whatever fails, at every fault-reset
      write the control word in the registers of the node has the reset bit clear; and the mirror
      equals the control word in the registers in the end, unless the last transfer was a control
      word that the drive took without the client learning of it. */
  lemma WireStart(net: Sdo.Net, env: Sdo.Script, node: u8, drive: Drive, dev: Device, i: nat)
    requires Reaches(net, env, node, dev) && NonePending(net, env, node)
    requires i <= |Start(WireEnv(net, env, node), Fresh(drive, dev)).1.line.log|
    ensures var s' := Start(WireEnv(net, env, node), Fresh(drive, dev)).1;
            var log := s'.line.log;
            && Reaches(NetAfter(net, env, node, log[..i]), env, node, Replay(dev, log[..i]))
            && (i < |log| && log[i].WriteCtrl? && Ds402Safety.Resets(log[i].ctrl) ==>
                  !Ds402Safety.Resets(Replay(dev, log[..i]).ctrl))
            && s'.line.dev == Replay(dev, log)
            && (drive.ctrlWord == dev.ctrl && !(log != [] && log[|log| - 1].WriteCtrl? && log[|log| - 1].out.Unacked?)
                ==> Ds402Mirror.Mirrors(s'))
  {
    hide Start, WireEnv, Reaches, Replay, Ds402Safety.Resets, Ds402Mirror.Halting, Truthful, NonePending,
         Ds402Mirror.HighByte, Ds402Safety.SafeLog, Prompt, Ds402Mirror.Mirrors,
         Ds402Mirror.CtrlAgreed, Ds402Mirror.Followed;
    var bus, s, h := WireEnv(net, env, node), Fresh(drive, dev), Ds402Mirror.HighByte(drive.ctrlWord);
    var (r, s') := Start(bus, s);
    var log := s'.line.log;
    StartHaltsHere(bus, s, h);
    FromEmpty(dev, s'.line);
    CallOnWire(net, env, node, s, s', i, h);
    StartIsSafe(bus, s);
    if i < |log| && log[i].WriteCtrl? && Ds402Safety.Resets(log[i].ctrl) {
      RisesHere(dev, log, drive.ctrlWord, i);
    }
    if drive.ctrlWord == dev.ctrl && !(log != [] && log[|log| - 1].WriteCtrl? && log[|log| - 1].out.Unacked?) {
      AgreedButLast(log);
      FollowedHere(bus, s, s', h);
      MirrorsHere(dev, s', drive.ctrlWord);
    }
  }

  lemma StartHaltsHere(env: Env, s: Session, h: bv16)
    requires Ds402Mirror.HighByte(s.drive.ctrlWord) == h
    ensures Ds402Mirror.Halting(env, s, Start(env, s).1, h) && Prompt(Since(s.line, Start(env, s).1.line))
  {
    hide Ds402Mirror.HighByte, Ds402Mirror.Halting;
    Ds402Mirror.StartHalts(env, s, MAX_POLLS, h);
  }

  lemma StartIsSafe(env: Env, s: Session)
    requires s.line.log == []
    ensures Ds402Safety.SafeLog(Start(env, s).1.line.log, 0, s.drive.ctrlWord)
  {
    hide Start, Ds402Safety.SafeLog;
    Ds402Safety.StartSafe(env, s);
  }

  lemma RisesHere(dev: Device, log: seq<Event>, c0: bv16, i: nat)
    requires Ds402Safety.SafeLog(log, 0, c0) && Truthful(log) && i < |log|
    requires log[i].WriteCtrl? && Ds402Safety.Resets(log[i].ctrl)
    ensures !Ds402Safety.Resets(Replay(dev, log[..i]).ctrl)
  {
    hide Ds402Safety.SafeLog, Ds402Safety.Resets, Truthful, Replay;
    Ds402Safety.ResetIsRisingEdge(dev, log, 0, c0, i);
    NotMistaken(log, i - 2);
  }

  lemma MirrorsHere(dev: Device, s: Session, c0: bv16)
    requires Ds402Mirror.CtrlAgreed(s.line.log) && c0 == dev.ctrl && s.line.dev == Replay(dev, s.line.log)
    requires s.drive.ctrlWord == Ds402Mirror.Followed(c0, s.line.log)
    ensures Ds402Mirror.Mirrors(s)
  {
    hide Replay, Ds402Mirror.Followed, Ds402Mirror.CtrlAgreed;
    Ds402Mirror.FollowedIsReplay(dev, s.line.log);
  }

  lemma NotMistaken(log: seq<Event>, i: nat)
    requires Truthful(log) && i < |log|
    ensures !log[i].out.Mistaken?
  {
  }

  /** In a truthful log that stops at the first failure, only the last control word can have been
      taken unacknowledged. */
  lemma AgreedButLast(log: seq<Event>)
    requires Truthful(log) && Prompt(log)
    requires !(log != [] && log[|log| - 1].WriteCtrl? && log[|log| - 1].out.Unacked?)
    ensures Ds402Mirror.CtrlAgreed(log)
  {
    forall ev | ev in log && ev.WriteCtrl?
      ensures ev.out.Done? || ev.out.Refused?
    {
      var i :| 0 <= i < |log| && log[i] == ev;
      assert !log[i].out.Mistaken?;
      assert i < |log| - 1 ==> Succeeded(log[i]);
    }
  }

  lemma FollowedHere(env: Env, s: Session, s': Session, h: bv16)
    requires Ds402Mirror.Halting(env, s, s', h) && s.line.log == []
    ensures s'.drive.ctrlWord == Ds402Mirror.Followed(s.drive.ctrlWord, s'.line.log)
  {
    FromEmpty(s.line.dev, s'.line);
  }

  /** A mode call over the wire that reports success, no answer having been pending, has left the
      registers of the node in velocity mode, with the user RPDO mapped to the target velocity,
      the ramp bits set, and the mirror of the control word right. */
  lemma WireSetOpMode(net: Sdo.Net, env: Sdo.Script, node: u8, drive: Drive, dev: Device, mode: int)
    requires Reaches(net, env, node, dev) && NonePending(net, env, node)
    requires SetOpMode(WireEnv(net, env, node), Fresh(drive, dev), mode).0 == Ok
    ensures 0 <= drive.rpdoUser <= 0xFF
    ensures var s' := SetOpMode(WireEnv(net, env, node), Fresh(drive, dev), mode).1;
            var req := ModeRequest(drive.rpdoUser);
            && Reaches(NetAfter(net, env, node, s'.line.log), env, node, s'.line.dev)
            && mode == MODE_VELOCITY == s'.drive.opMode
            && (drive.opMode != mode ==>
                  s'.line.dev.mode == mode && s'.line.dev.target == 0 && drive.ctrlWord & HALT != 0)
            && (drive.opMode == dev.mode ==> s'.line.dev.mode == mode)
            && Valid(s'.line.dev.dict, req)
            && Active(s'.line.dev.dict, req).mapping == [0x6042_0010]
            && s'.line.dev.ctrl & VL_RFG == VL_RFG && Ds402Mirror.Mirrors(s')
  {
    hide SetOpMode, WireEnv, Reaches, Replay, Ds402Mirror.Halting, Truthful, NonePending, Ds402Mirror.HighByte,
         Valid, Active, Prompt, AllSucceeded;
    var bus, s, h := WireEnv(net, env, node), Fresh(drive, dev), Ds402Mirror.HighByte(drive.ctrlWord);
    var s' := SetOpMode(bus, s, mode).1;
    Ds402Mirror.SetModeHalts(bus, s, mode, h);
    FromEmpty(dev, s'.line);
    CallOnWire(net, env, node, s, s', |s'.line.log|, h);
    assert s'.line.log[..|s'.line.log|] == s'.line.log;
    Ds402Mirror.SetOpModeSuccess(bus, s, mode);
  }

  /** Whatever is pending and whatever fails: no run of start, stop and mode calls changes the HALT
      bit of the control word in the registers of the node, as long as the client knew it at first. */
  lemma WireKeepsHalt(net: Sdo.Net, env: Sdo.Script, node: u8, drive: Drive, dev: Device,
                      calls: seq<Ds402Mirror.Call>, k: nat)
    requires Reaches(net, env, node, dev)
    requires Ds402Mirror.HighByte(drive.ctrlWord) == Ds402Mirror.HighByte(dev.ctrl)
    requires k <= |Ds402Mirror.RunCalls(WireEnv(net, env, node), Fresh(drive, dev), calls).line.log|
    ensures var log := Ds402Mirror.RunCalls(WireEnv(net, env, node), Fresh(drive, dev), calls).line.log;
            var now := Replay(dev, log[..k]);
            && Reaches(NetAfter(net, env, node, log[..k]), env, node, now)
            && now.ctrl & HALT == dev.ctrl & HALT
  {
    hide Ds402Mirror.RunCalls, WireEnv, Reaches, Replay, Ds402Mirror.Halting, Ds402Mirror.HighByte;
    var bus, s, h := WireEnv(net, env, node), Fresh(drive, dev), Ds402Mirror.HighByte(drive.ctrlWord);
    var s' := Ds402Mirror.RunCalls(bus, s, calls);
    Ds402Mirror.CallsHalt(bus, s, calls, h);
    FromEmpty(dev, s'.line);
    CallOnWire(net, env, node, s, s', k, h);
    Ds402Mirror.CallsKeepHalt(bus, s, calls, k);
    Ds402Mirror.HaltInHigh(dev.ctrl);
    Ds402Mirror.HaltInHigh(Replay(dev, s'.line.log[..k]).ctrl);
  }
}
