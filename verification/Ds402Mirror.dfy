/** The client's mirror of the control word over sequences of start, stop and mode calls. */
module Ds402Mirror {
  import opened Can
  import opened Bus
  import opened Ds402
  import Ds402Safety
  import Pdo
  import PdoSafety

  datatype Call = CallStart | CallStop | CallSetMode(mode: int)

  function MakeCall(env: Env, s: Session, call: Call): (Status, Session)
  {
    match call
    case CallStart => Start(env, s)
    case CallStop => Stop(env, s)
    case CallSetMode(m) => SetOpMode(env, s, m)
  }

  /** A run of calls; the statuses do not matter, a caller may go on after any error. */
  function RunCalls(env: Env, s: Session, calls: seq<Call>): Session
    decreases |calls|
  {
    if calls == [] then s else RunCalls(env, MakeCall(env, s, calls[0]).1, calls[1..])
  }

  // ----- what a call leaves in the log -----

  /** The client's control word after some events, as far as it learns of them. */
  function Followed(w: bv16, evs: seq<Event>): bv16
    decreases |evs|
  {
    if evs == [] then w
    else Followed(if evs[0].WriteCtrl? && Succeeded(evs[0]) then evs[0].ctrl else w, evs[1..])
  }

  lemma {:induction false} FollowedConcat(w: bv16, evs: seq<Event>, more: seq<Event>)
    ensures Followed(w, evs + more) == Followed(Followed(w, evs), more)
    decreases |evs|
  {
    if evs == [] {
      assert evs + more == more;
    } else {
      assert (evs + more)[1..] == evs[1..] + more;
      FollowedConcat(if evs[0].WriteCtrl? && Succeeded(evs[0]) then evs[0].ctrl else w, evs[1..], more);
    }
  }

  /** A session grown from another by transfers in the environment, with the mirror of the
      control word following the successful ones. */
  predicate Extends(env: Env, s: Session, s': Session)
  {
    && Grown(env, s.line, s'.line)
    && s'.drive.ctrlWord == Followed(s.drive.ctrlWord, Since(s.line, s'.line))
  }

  lemma ExtendsTrans(env: Env, a: Session, b: Session, c: Session)
    requires Extends(env, a, b) && Extends(env, b, c)
    ensures Extends(env, a, c) && Since(a.line, c.line) == Since(a.line, b.line) + Since(b.line, c.line)
  {
    hide Grown, Followed, Since;
    GrownTrans(env, a.line, b.line, c.line);
    FollowedConcat(a.drive.ctrlWord, Since(a.line, b.line), Since(b.line, c.line));
  }

  lemma ExtendsStep(env: Env, s: Session, ev: Event, d: Drive)
    requires Decided(env, s.line.log, ev)
    requires d.ctrlWord == if ev.WriteCtrl? && Succeeded(ev) then ev.ctrl else s.drive.ctrlWord
    ensures Extends(env, s, Session(d, Step(s.line, ev))) && Since(s.line, Step(s.line, ev)) == [ev]
  {
    hide Grown, Since;
    GrownStep(env, s.line, ev);
    FollowedOne(s.drive.ctrlWord, ev);
  }

  lemma FollowedOne(w: bv16, ev: Event)
    ensures Followed(w, [ev]) == if ev.WriteCtrl? && Succeeded(ev) then ev.ctrl else w
  {
    assert [ev][1..] == [];
  }

  /** A call with status `r` stopped at the first failure. */
  predicate Quick(l: Line, r: Status, l': Line)
  {
    Prompt(Since(l, l')) && (r == Ok ==> AllSucceeded(Since(l, l')))
  }

  // ----- the high byte: HALT and the bits above it -----

  function HighByte(w: bv16): bv16 { w & 0xFF00 }

  /** An event that leaves the high byte `h` of the control word alone, writes the mode only if
      `h` has the HALT bit, and writes entries with values of their width. */
  predicate KeepsHigh(ev: Event, h: bv16)
  {
    match ev
    case WriteCtrl(w, _) => HighByte(w) == h
    case WriteMode(_, _) => h & HALT != 0
    case Write(e, v, _) => Fits(e, v)
    case _ => true
  }

  predicate AllKeepHigh(evs: seq<Event>, h: bv16)
  {
    forall ev | ev in evs :: KeepsHigh(ev, h)
  }

  /** A session grown from another by events that keep the high byte, with the mirror still
      showing it. */
  predicate Halting(env: Env, s: Session, s': Session, h: bv16)
  {
    && Extends(env, s, s')
    && AllKeepHigh(Since(s.line, s'.line), h)
    && HighByte(s'.drive.ctrlWord) == h
  }

  lemma HaltingTrans(env: Env, a: Session, b: Session, c: Session, h: bv16)
    requires Halting(env, a, b, h) && Halting(env, b, c, h)
    ensures Halting(env, a, c, h)
    ensures Since(a.line, c.line) == Since(a.line, b.line) + Since(b.line, c.line)
  {
    hide KeepsHigh, HighByte, Extends, Since;
    ExtendsTrans(env, a, b, c);
  }

  /** Going on after a successful call. */
  lemma QuickTrans(env: Env, a: Session, b: Session, r: Status, c: Session, h: bv16)
    requires Halting(env, a, b, h) && Halting(env, b, c, h)
    requires Quick(a.line, Ok, b.line) && Quick(b.line, r, c.line)
    ensures Halting(env, a, c, h) && Quick(a.line, r, c.line)
  {
    hide Halting, Since, Prompt, AllSucceeded;
    HaltingTrans(env, a, b, c, h);
    PromptJoin(Since(a.line, b.line), Since(b.line, c.line));
  }

  lemma HaltingStep(env: Env, s: Session, ev: Event, d: Drive, h: bv16)
    requires Decided(env, s.line.log, ev)
    requires d.ctrlWord == if ev.WriteCtrl? && Succeeded(ev) then ev.ctrl else s.drive.ctrlWord
    requires KeepsHigh(ev, h) && HighByte(d.ctrlWord) == h
    ensures Halting(env, s, Session(d, Step(s.line, ev)), h)
    ensures Quick(s.line, StatusOf(ev.out), Step(s.line, ev))
  {
    hide Extends, KeepsHigh, HighByte, Decided, Since;
    ExtendsStep(env, s, ev, d);
  }

  /** The commands of this file, the ramp bits included. */
  predicate Sendable(c: Command)
  {
    c == SHUTDOWN || c == SWITCH_ON_CMD || c == DISABLE_VOLTAGE || c == ENABLE_OP || c == FAULT_RESET || c == USE_RAMP
  }

  lemma HighMasked(w: bv16, c: Command)
    requires Sendable(c)
    ensures HighByte(Masked(w, c)) == HighByte(w)
  {
    hide Masked, HighByte, Ds402Safety.Others;
    if c == USE_RAMP {
      HighRamp(w);
    } else {
      Ds402Safety.CommandBits(w, c);
      HighOthers(w);
      HighOthers(Masked(w, c));
    }
  }

  lemma HighOthers(w: bv16)
    ensures HighByte(Ds402Safety.Others(w)) == HighByte(w)
  {
  }

  lemma HighRamp(w: bv16)
    ensures HighByte(Masked(w, USE_RAMP)) == HighByte(w)
  {
  }

  lemma CtrlHalts(env: Env, s: Session, c: Command, h: bv16)
    requires HighByte(s.drive.ctrlWord) == h && Sendable(c)
    ensures Halting(env, s, DlCtrl(env, s, c).1, h) && Quick(s.line, DlCtrl(env, s, c).0, DlCtrl(env, s, c).1.line)
  {
    hide Masked, HighByte, Halting, Quick, Sendable;
    HighMasked(s.drive.ctrlWord, c);
    var word := Masked(s.drive.ctrlWord, c);
    HaltingStep(env, s, WriteCtrl(word, env.out(s.line.log, AskCtrl(word))), DlCtrl(env, s, c).1.drive, h);
  }

  lemma NmtHalts(env: Env, s: Session, h: bv16)
    requires HighByte(s.drive.ctrlWord) == h
    ensures Halting(env, s, NmtStart(env, s).1, h) && Quick(s.line, NmtStart(env, s).0, NmtStart(env, s).1.line)
  {
    hide HighByte, Halting, Quick;
    HaltingStep(env, s, SendNmt(env.out(s.line.log, AskNmt)), s.drive, h);
  }

  /** The status that a turn ends with; Ok if the loop goes on. */
  function TurnStatus(t: Turn): Status { if t.Next? then Ok else t.status }

  lemma ReactHalts(env: Env, s: Session, h: bv16)
    requires HighByte(s.drive.ctrlWord) == h
    ensures var t := React(env, s);
            Halting(env, s, t.s, h) && Quick(s.line, TurnStatus(t), t.s.line)
  {
    hide Masked, HighByte, StateOf, Halting, Quick, DlCtrl, NmtStart, ResetFault;
    match StateOf(s.drive.statWord)
    case NotReady => NmtHalts(env, s, h);
    case SwitchOnDisabled => CtrlHalts(env, s, SHUTDOWN, h);
    case ReadyToSwitchOn => CtrlHalts(env, s, SWITCH_ON_CMD, h);
    case SwitchedOn => CtrlHalts(env, s, ENABLE_OP, h);
    case OperationEnabled => HaltingRefl(env, s, h);
    case QuickStopActive => CtrlHalts(env, s, DISABLE_VOLTAGE, h);
    case FaultReaction | Fault => ResetHalts(env, s, h);
    case Unknown => HaltingRefl(env, s, h);
  }

  lemma HaltingRefl(env: Env, s: Session, h: bv16)
    requires HighByte(s.drive.ctrlWord) == h
    ensures Halting(env, s, s, h) && (forall r :: Quick(s.line, r, s.line))
  {
    GrownRefl(env, s.line);
  }

  lemma HaltingMirror(env: Env, s: Session, s': Session, h: bv16)
    requires Halting(env, s, s', h)
    ensures HighByte(s'.drive.ctrlWord) == h && s.line.log <= s'.line.log
  {
  }

  lemma ResetHalts(env: Env, s: Session, h: bv16)
    requires HighByte(s.drive.ctrlWord) == h
    ensures var t := ResetFault(env, s);
            Halting(env, s, t.s, h) && Quick(s.line, TurnStatus(t), t.s.line)
  {
    hide Masked, HighByte, Halting, Quick, DlCtrl, NmtStart;
    CtrlHalts(env, s, SHUTDOWN, h);
    var (r, s1) := DlCtrl(env, s, SHUTDOWN);
    HaltingMirror(env, s, s1, h);
    if r == Ok {
      NmtHalts(env, s1, h);
      var (r2, s2) := NmtStart(env, s1);
      HaltingMirror(env, s1, s2, h);
      QuickTrans(env, s, s1, r2, s2, h);
      if r2 == Ok {
        var (r3, s3) := DlCtrl(env, s2, FAULT_RESET);
        CtrlHalts(env, s2, FAULT_RESET, h);
        QuickTrans(env, s, s2, r3, s3, h);
      }
    }
  }

  lemma {:induction false} StartHalts(env: Env, s: Session, n: nat, h: bv16)
    requires HighByte(s.drive.ctrlWord) == h
    ensures var (r, s') := StartLoop(env, s, n);
            Halting(env, s, s', h) && Quick(s.line, r, s'.line)
    decreases n
  {
    hide HighByte, Halting, Quick, React;
    if n == 0 {
      HaltingRefl(env, s, h);
    } else {
      var (r, s1) := UlStat(env, s);
      HaltingStep(env, s, ReadStat(env.stat(s.line.log), env.out(s.line.log, AskStat)), s1.drive, h);
      HaltingMirror(env, s, s1, h);
      if r == Ok {
        var t := React(env, s1);
        ReactHalts(env, s1, h);
        HaltingMirror(env, s1, t.s, h);
        QuickTrans(env, s, s1, TurnStatus(t), t.s, h);
        if t.Next? {
          StartHalts(env, t.s, n - 1, h);
          QuickTrans(env, s, t.s, StartLoop(env, t.s, n - 1).0, StartLoop(env, t.s, n - 1).1, h);
        }
      }
    }
  }

  lemma RemapHalts(env: Env, s: Session, req: Pdo.Request, h: bv16)
    requires |req.objs| < 0xFF && HighByte(s.drive.ctrlWord) == h
    ensures var (r, l') := Pdo.Remap(env, s.line, req);
            Halting(env, s, s.(line := l'), h) && Quick(s.line, r, l')
  {
    hide HighByte, Pdo.Remap, Grown, Prompt, AllSucceeded, Since;
    PdoSafety.RemapGrows(env, s.line, req);
    FollowedNothing(s.drive.ctrlWord, PdoSafety.Events(env, s.line, req));
  }

  lemma {:induction false} FollowedNothing(w: bv16, evs: seq<Event>)
    requires forall ev | ev in evs :: !ev.WriteCtrl?
    ensures Followed(w, evs) == w
    decreases |evs|
  {
    if evs != [] {
      assert evs[0] in evs;
      FollowedNothing(w, evs[1..]);
    }
  }

  lemma SetModeHalts(env: Env, s: Session, mode: int, h: bv16)
    requires HighByte(s.drive.ctrlWord) == h
    ensures var (r, s') := SetOpMode(env, s, mode);
            Halting(env, s, s', h) && (r == Ok ==> Quick(s.line, r, s'.line))
  {
    hide HighByte, Halting, Quick, DlCtrl, Pdo.Remap, ChangeMode;
    HaltingRefl(env, s, h);
    if 0 <= s.drive.rpdoUser <= 0xFF && mode == MODE_VELOCITY {
      var (r, s1) := if mode != s.drive.opMode then ChangeMode(env, s, mode) else (Ok, s);
      ChangeModeHalts(env, s, mode, h);
      HaltingMirror(env, s, s1, h);
      if r == Ok {
        var req := ModeRequest(s.drive.rpdoUser);
        var (remapped, l2) := Pdo.Remap(env, s1.line, req);
        RemapHalts(env, s1, req, h);
        var s2 := s1.(line := l2);
        QuickTrans(env, s, s1, remapped, s2, h);
        var (r3, s3) := DlCtrl(env, s2, USE_RAMP);
        CtrlHalts(env, s2, USE_RAMP, h);
        HaltingTrans(env, s, s2, s3, h);
        if remapped == Ok {
          QuickTrans(env, s, s2, r3, s3, h);
        }
      }
    }
  }

  lemma ChangeModeHalts(env: Env, s: Session, mode: i8, h: bv16)
    requires HighByte(s.drive.ctrlWord) == h
    ensures var (r, s') := ChangeMode(env, s, mode);
            Halting(env, s, s', h) && Quick(s.line, r, s'.line)
  {
    hide HighByte, Halting, Quick;
    if s.drive.ctrlWord & HALT == 0 {
      HaltingRefl(env, s, h);
    } else {
      var ev := WriteMode(mode, env.out(s.line.log, AskMode(mode)));
      var s1 := Session(s.drive.(opMode := mode), Step(s.line, ev));
      HaltInHigh(s.drive.ctrlWord);
      HaltingStep(env, s, ev, s.drive, h);
      HaltingStep(env, s, ev, s1.drive, h);
      if Succeeded(ev) {
        var ev2 := WriteTarget(0, env.out(s1.line.log, AskTarget(0)));
        HaltingStep(env, s1, ev2, s1.drive, h);
        QuickTrans(env, s, s1, StatusOf(ev2.out), Session(s1.drive, Step(s1.line, ev2)), h);
      }
    }
  }

  lemma HaltInHigh(w: bv16)
    ensures HighByte(w) & HALT == w & HALT
  {
  }

  lemma CallHalts(env: Env, s: Session, call: Call, h: bv16)
    requires HighByte(s.drive.ctrlWord) == h
    ensures Halting(env, s, MakeCall(env, s, call).1, h)
  {
    hide HighByte, Halting, DlCtrl, SetOpMode, StartLoop;
    match call {
      case CallStart => StartHalts(env, s, MAX_POLLS, h);
      case CallStop => CtrlHalts(env, s, SHUTDOWN, h);
      case CallSetMode(m) => SetModeHalts(env, s, m, h);
    }
  }

  lemma {:induction false} CallsHalt(env: Env, s: Session, calls: seq<Call>, h: bv16)
    requires HighByte(s.drive.ctrlWord) == h
    ensures Halting(env, s, RunCalls(env, s, calls), h)
    decreases |calls|
  {
    hide HighByte, Halting, MakeCall;
    if calls == [] {
      HaltingRefl(env, s, h);
    } else {
      var s1 := MakeCall(env, s, calls[0]).1;
      CallHalts(env, s, calls[0], h);
      HaltingMirror(env, s, s1, h);
      CallsHalt(env, s1, calls[1..], h);
      HaltingTrans(env, s, s1, RunCalls(env, s1, calls[1..]), h);
    }
  }

  lemma {:induction false} HighKept(dev: Device, evs: seq<Event>, h: bv16)
    requires HighByte(dev.ctrl) == h && AllKeepHigh(evs, h)
    ensures HighByte(Replay(dev, evs).ctrl) == h
    decreases |evs|
  {
    hide HighByte;
    if evs != [] {
      assert KeepsHigh(evs[0], h);
      HighKept(Apply(dev, evs[0]), evs[1..], h);
    }
  }

  /** After any events of any run of start, stop and mode calls, with any failures, unacknowledged
      transfers and mistaken answers included: if mirror and device agreed on the high byte at
      first, the device still has it, so the HALT bit is neither set nor cleared; and the mode
      object is written only while the device is halted. */
  lemma CallsKeepHalt(env: Env, s: Session, calls: seq<Call>, k: nat)
    requires HighByte(s.drive.ctrlWord) == HighByte(s.line.dev.ctrl)
    requires k <= |Since(s.line, RunCalls(env, s, calls).line)|
    ensures var s' := RunCalls(env, s, calls);
            var evs := Since(s.line, s'.line);
            var dev := Replay(s.line.dev, evs[..k]);
            && s'.line.log == s.line.log + evs && s'.line.dev == Replay(s.line.dev, evs)
            && HighByte(dev.ctrl) == HighByte(s.line.dev.ctrl) == HighByte(s'.drive.ctrlWord)
            && (k < |evs| && evs[k].WriteMode? ==> dev.ctrl & HALT != 0)
  {
    hide HighByte;
    var h := HighByte(s.line.dev.ctrl);
    var s' := RunCalls(env, s, calls);
    CallsHalt(env, s, calls, h);
    var evs := Since(s.line, s'.line);
    assert forall ev | ev in evs[..k] :: ev in evs;
    HighKept(s.line.dev, evs[..k], h);
    if k < |evs| {
      assert KeepsHigh(evs[k], h);
      HaltInHigh(Replay(s.line.dev, evs[..k]).ctrl);
    }
  }

  // ----- the whole word -----

  predicate Mirrors(s: Session) { s.drive.ctrlWord == s.line.dev.ctrl }

  /** One control-word download keeps the mirror equal to the device exactly unless the word
      changes and is applied without acknowledgement, or refused and taken for acknowledged. */
  lemma DlCtrlMirrors(env: Env, s: Session, c: Command)
    requires Mirrors(s)
    ensures var word := Masked(s.drive.ctrlWord, c);
            var out := env.out(s.line.log, AskCtrl(word));
            Mirrors(DlCtrl(env, s, c).1) <==> out.Done? || out.Refused? || word == s.drive.ctrlWord
  {
  }

  /** Client and device agree on what became of every control word. */
  predicate CtrlAgreed(evs: seq<Event>)
  {
    forall ev | ev in evs && ev.WriteCtrl? :: ev.out.Done? || ev.out.Refused?
  }

  lemma {:induction false} FollowedIsReplay(dev: Device, evs: seq<Event>)
    requires CtrlAgreed(evs)
    ensures Followed(dev.ctrl, evs) == Replay(dev, evs).ctrl
    decreases |evs|
  {
    if evs != [] {
      assert evs[0] in evs;
      assert forall ev | ev in evs[1..] :: ev in evs;
      FollowedIsReplay(Apply(dev, evs[0]), evs[1..]);
    }
  }

  /** The mirror is right from initialisation on: a successful init reads it, and every run of
      calls keeps it in which no control word is applied unacknowledged or mistaken for
      acknowledged, whatever becomes of all other transfers. */
  lemma CallsMirror(env: Env, s: Session, calls: seq<Call>)
    requires Mirrors(s) && CtrlAgreed(Since(s.line, RunCalls(env, s, calls).line))
    ensures Mirrors(RunCalls(env, s, calls))
  {
    hide RunCalls, HighByte, CtrlAgreed, Followed, Replay, Since;
    CallsHalt(env, s, calls, HighByte(s.drive.ctrlWord));
    FollowedIsReplay(s.line.dev, Since(s.line, RunCalls(env, s, calls).line));
  }

  /** When every transfer succeeded and none was mistaken, every outcome is Done. */
  lemma AllDone(evs: seq<Event>)
    requires AllSucceeded(evs) && Truthful(evs)
    ensures forall ev | ev in evs :: ev.out == Done
    ensures CtrlAgreed(evs)
  {
  }

  lemma {:induction false} ReplayKeepsCtrl(dev: Device, evs: seq<Event>)
    requires forall ev | ev in evs :: ev.Read? || ev.Write?
    ensures Replay(dev, evs) == dev.(dict := Replay(dev, evs).dict)
    decreases |evs|
  {
    if evs != [] {
      assert evs[0] in evs;
      ReplayKeepsCtrl(Apply(dev, evs[0]), evs[1..]);
    }
  }

  lemma RemapKeepsCtrl(env: Env, l: Line, req: Pdo.Request)
    requires |req.objs| < 0xFF
    ensures var l' := Pdo.Remap(env, l, req).1; l'.dev == l.dev.(dict := l'.dev.dict)
  {
    hide Pdo.Remap;
    PdoSafety.RemapGrows(env, l, req);
    ReplayKeepsCtrl(l.dev, PdoSafety.Events(env, l, req));
  }

  // ----- initialisation -----

  /** What an object list leaves in the session: the device as it was, and, if all answers are
      truthful, the objects of the list equal to those of the device. */
  lemma {:induction false} UlObjsLoads(env: Env, s: Session, objs: seq<Readable>)
    ensures var (r, s') := UlObjs(env, s, objs);
            && Grown(env, s.line, s'.line) && s'.line.dev == s.line.dev
            && s'.drive.nodeId == s.drive.nodeId && SamePdos(s.drive, s'.drive)
            && (r == Ok && Truthful(Since(s.line, s'.line)) ==>
                  forall obj | obj in objs || Agrees(s.drive, s.line.dev, obj) :: Agrees(s'.drive, s.line.dev, obj))
    decreases |objs|
  {
    hide Grown, Since, Truthful, Agrees;
    if objs == [] {
      GrownRefl(env, s.line);
    } else {
      var out := env.out(s.line.log, AskObj(objs[0]));
      var ev := ReadObj(objs[0], out);
      GrownStep(env, s.line, ev);
      if Succeeded(ev) {
        var s1 := Session(Loaded(s.drive, s.line.dev, objs[0], out), Step(s.line, ev));
        var s' := UlObjs(env, s, objs).1;
        UlObjsLoads(env, s1, objs[1..]);
        GrownTrans(env, s.line, s1.line, s'.line);
        if Truthful(Since(s.line, s'.line)) {
          TruthfulParts(ev, Since(s1.line, s'.line));
          LoadedAgrees(s.drive, s.line.dev, objs[0], out);
        }
      }
    }
  }

  predicate SamePdos(d: Drive, e: Drive)
  {
    && e.rpdoUser == d.rpdoUser && e.rpdoCtrl == d.rpdoCtrl && e.tpdoUser == d.tpdoUser
    && e.posFactor == d.posFactor && e.velFactor == d.velFactor
  }

  /** The drive structure holds the object, if it keeps it at all, as the device does. */
  predicate Agrees(d: Drive, dev: Device, obj: Readable)
  {
    match obj
    case CtrlWord => d.ctrlWord == dev.ctrl
    case Position => d.actualPosRaw == dev.position
    case Velocity => d.actualVelRaw == dev.velocity
    case TargetVelocity => d.targetVelRaw == dev.target
    case OpMode => d.opMode == dev.mode
    case MinPos | MaxPos => true
  }

  lemma LoadedAgrees(d: Drive, dev: Device, obj: Readable, out: Outcome)
    requires out == Done
    ensures var e := Loaded(d, dev, obj, out);
            && Agrees(e, dev, obj)
            && forall x: Readable :: Agrees(d, dev, x) ==> Agrees(e, dev, x)
  {
  }

  /** A successful init without mistaken answers leaves the mirror equal to the device, the target
      mirror equal to the device target, the raw feedback loaded, and the limits nested: hard
      limits outside the soft ones by the margin, and inside the limits of the drive by the
      margin. */
  lemma InitMirrors(env: Env, s: Session, id: u8, margin: real)
    requires s.drive.posFactor != 0.0 && Init(env, s, id, margin).0 == Ok
    requires Truthful(Since(s.line, Init(env, s, id, margin).1.line))
    ensures var s' := Init(env, s, id, margin).1;
            && Mirrors(s') && s'.line.dev == s.line.dev && s'.drive.nodeId == id && SamePdos(s.drive, s'.drive)
            && s'.drive.targetVelRaw == s.line.dev.target && s'.drive.opMode == s.line.dev.mode
            && s'.drive.actualPosRaw == s.line.dev.position && s'.drive.actualVelRaw == s.line.dev.velocity
            && s'.drive.posMaxHard - s'.drive.posMaxSoft == margin == s'.drive.posMinSoft - s'.drive.posMinHard
            && (s'.drive.posMaxHard + margin) * s.drive.posFactor == s.line.dev.maxPos as real
            && (s'.drive.posMinHard - margin) * s.drive.posFactor == s.line.dev.minPos as real
  {
    hide UlObjs, WithLimits, Replay, Truthful, Since, Grown, Agrees;
    var s0 := s.(drive := s.drive.(nodeId := id));
    UlObjsLoads(env, s0, [CtrlWord]);
    var s1 := UlObjs(env, s0, [CtrlWord]).1;
    var s2 := UlStat(env, s1).1;
    GrownStep(env, s1.line, ReadStat(env.stat(s1.line.log), env.out(s1.line.log, AskStat)));
    UlObjsLoads(env, s2, INIT_OBJS);
    var s3 := UlObjs(env, s2, INIT_OBJS).1;
    var min := ReadObj(MinPos, env.out(s3.line.log, AskObj(MinPos)));
    var l4 := Step(s3.line, min);
    var max := ReadObj(MaxPos, env.out(l4.log, AskObj(MaxPos)));
    var l5 := Step(l4, max);
    GrownStep(env, s3.line, min);
    GrownStep(env, l4, max);
    GrownTrans(env, s3.line, l4, l5);
    GrownTrans(env, s2.line, s3.line, l5);
    GrownTrans(env, s1.line, s2.line, l5);
    GrownTrans(env, s.line, s1.line, l5);
    InitTruthful(Since(s.line, s1.line), Since(s1.line, s2.line), Since(s2.line, s3.line), min, max);
    SameWord(s1.drive, s2.drive, s.line.dev);
    InitAgrees(s2.drive, s3.drive, s.line.dev);
    LimitsFit(s3.drive, s3.line.dev.minPos, s3.line.dev.maxPos, margin);
  }

  lemma SameWord(d: Drive, e: Drive, dev: Device)
    requires (forall obj | obj in [CtrlWord] :: Agrees(d, dev, obj)) && e.ctrlWord == d.ctrlWord
    ensures Agrees(e, dev, CtrlWord)
  {
    assert CtrlWord in [CtrlWord];
  }

  /** What the uploads of init leave in the drive structure. */
  lemma InitAgrees(d: Drive, e: Drive, dev: Device)
    requires Agrees(d, dev, CtrlWord)
    requires forall obj | obj in INIT_OBJS || Agrees(d, dev, obj) :: Agrees(e, dev, obj)
    ensures e.ctrlWord == dev.ctrl && e.targetVelRaw == dev.target && e.opMode == dev.mode
    ensures e.actualPosRaw == dev.position && e.actualVelRaw == dev.velocity
  {
    assert Agrees(e, dev, CtrlWord);
    assert Position in INIT_OBJS && Velocity in INIT_OBJS && TargetVelocity in INIT_OBJS && OpMode in INIT_OBJS;
  }

  lemma InitTruthful(a: seq<Event>, b: seq<Event>, c: seq<Event>, min: Event, max: Event)
    requires Truthful(a + (b + (c + ([min] + [max]))))
    ensures Truthful(a) && Truthful(c) && !min.out.Mistaken? && !max.out.Mistaken?
  {
    var all := a + (b + (c + ([min] + [max])));
    assert forall ev | ev in a :: ev in all;
    assert forall ev | ev in c :: ev in all;
    assert min in all && max in all;
  }

  lemma LimitsFit(d: Drive, min: int, max: int, margin: real)
    requires d.posFactor != 0.0
    ensures var e := WithLimits(d, min, max, margin);
            && e == d.(posMaxHard := e.posMaxHard, posMinHard := e.posMinHard,
                       posMaxSoft := e.posMaxSoft, posMinSoft := e.posMinSoft)
            && e.posMaxHard - e.posMaxSoft == margin == e.posMinSoft - e.posMinHard
            && (e.posMaxHard + margin) * d.posFactor == max as real
            && (e.posMinHard - margin) * d.posFactor == min as real
  {
  }

  // ----- operation mode -----

  /** The stale target: changing the mode zeroes the device's target velocity, while the
      client's mirror of it keeps its value; so after a successful change, its answers not
      mistaken, the two differ exactly if the mirror was not zero. */
  lemma ModeChangeLeavesTargetStale(env: Env, s: Session, mode: i8)
    requires ChangeMode(env, s, mode).0 == Ok
    requires Truthful(Since(s.line, ChangeMode(env, s, mode).1.line))
    ensures var s' := ChangeMode(env, s, mode).1;
            && s'.line.dev == s.line.dev.(mode := mode, target := 0)
            && s'.drive == s.drive.(opMode := mode)
            && (s'.drive.targetVelRaw == s'.line.dev.target <==> s.drive.targetVelRaw == 0)
  {
    var ev := WriteMode(mode, env.out(s.line.log, AskMode(mode)));
    var l1 := Step(s.line, ev);
    var ev2 := WriteTarget(0, env.out(l1.log, AskTarget(0)));
    assert Since(s.line, ChangeMode(env, s, mode).1.line) == [ev, ev2];
    assert ev in [ev, ev2] && ev2 in [ev, ev2];
  }

  /** A mode call that reports success, no answer being mistaken, has left the device in velocity
      mode, with the reference zeroed if the mode had to change, the user RPDO valid and mapped to
      the target velocity alone, and the ramp bits set; a change of mode was made only under HALT. */
  lemma SetOpModeSuccess(env: Env, s: Session, mode: int)
    requires SetOpMode(env, s, mode).0 == Ok
    requires Truthful(Since(s.line, SetOpMode(env, s, mode).1.line))
    ensures 0 <= s.drive.rpdoUser <= 0xFF
    ensures var s' := SetOpMode(env, s, mode).1;
            var req := ModeRequest(s.drive.rpdoUser);
            && mode == 2 == s'.drive.opMode
            && s'.drive == s.drive.(opMode := mode, ctrlWord := s'.drive.ctrlWord)
            && (s.drive.opMode != mode ==>
                  s'.line.dev.mode == mode && s'.line.dev.target == 0 && s.drive.ctrlWord & 0x0100 != 0)
            && (s.drive.opMode == mode ==>
                  s'.line.dev.mode == s.line.dev.mode && s'.line.dev.target == s.line.dev.target)
            && PdoSafety.Valid(s'.line.dev.dict, req)
            && PdoSafety.Active(s'.line.dev.dict, req).mapping == [0x6042_0010]
            && PdoSafety.Active(s'.line.dev.dict, req).transmission == 0xFF
            && s'.line.dev.ctrl & 0x0070 == 0x0070 && Mirrors(s')
  {
    hide Pdo.Remap, Masked, ChangeMode, DlCtrl, Since, Truthful, Halting, HighByte, Quick;
    var h := HighByte(s.drive.ctrlWord);
    var s1 := if mode != s.drive.opMode then ChangeMode(env, s, mode).1 else s;
    var req := ModeRequest(s.drive.rpdoUser);
    var s2 := s1.(line := Pdo.Remap(env, s1.line, req).1);
    var s3 := DlCtrl(env, s2, USE_RAMP).1;
    HaltingRefl(env, s, h);
    ChangeModeHalts(env, s, mode, h);
    HaltingMirror(env, s, s1, h);
    RemapHalts(env, s1, req, h);
    CtrlHalts(env, s2, USE_RAMP, h);
    HaltingTrans(env, s1, s2, s3, h);
    HaltingTrans(env, s, s1, s3, h);
    TruthfulSplit(Since(s.line, s1.line), Since(s1.line, s2.line), Since(s2.line, s3.line));
    ModeChanged(env, s, mode);
    RemapKeepsCtrl(env, s1.line, req);
    PdoSafety.RemapSuccess(env, s1.line, req);
    assert Pdo.MapWord(VL_TARGET_VELOCITY) == 0x6042_0010;
    assert PdoSafety.Written(s1.line.dev.dict, req).mapping == [0x6042_0010];
    RampDone(env, s2);
  }

  lemma TruthfulSplit(a: seq<Event>, b: seq<Event>, c: seq<Event>)
    requires Truthful(a + (b + c))
    ensures Truthful(a) && Truthful(b) && Truthful(c)
  {
    var all := a + (b + c);
    assert forall ev | ev in a :: ev in all;
    assert forall ev | ev in b :: ev in all;
    assert forall ev | ev in c :: ev in all;
  }

  /** The first step of a successful mode call. */
  lemma ModeChanged(env: Env, s: Session, mode: i8)
    requires s.drive.opMode != mode ==> ChangeMode(env, s, mode).0 == Ok
    requires s.drive.opMode != mode ==> Truthful(Since(s.line, ChangeMode(env, s, mode).1.line))
    ensures var s1 := if mode != s.drive.opMode then ChangeMode(env, s, mode).1 else s;
            && s1.drive == s.drive.(opMode := mode)
            && s1.line.dev == (if mode != s.drive.opMode then s.line.dev.(mode := mode, target := 0) else s.line.dev)
            && (mode != s.drive.opMode ==> s.drive.ctrlWord & HALT != 0)
  {
    if mode != s.drive.opMode {
      ModeChangeLeavesTargetStale(env, s, mode);
    }
  }

  /** The last step: the ramp bits. */
  lemma RampDone(env: Env, s: Session)
    requires DlCtrl(env, s, USE_RAMP).0 == Ok && Truthful(Since(s.line, DlCtrl(env, s, USE_RAMP).1.line))
    ensures var s' := DlCtrl(env, s, USE_RAMP).1;
            && Mirrors(s') && s'.line.dev.ctrl & VL_RFG == VL_RFG
            && s'.line.dev == s.line.dev.(ctrl := s'.line.dev.ctrl)
            && s'.drive == s.drive.(ctrlWord := s'.drive.ctrlWord)
  {
    hide Masked;
    var word := Masked(s.drive.ctrlWord, USE_RAMP);
    var ev := WriteCtrl(word, env.out(s.line.log, AskCtrl(word)));
    assert Since(s.line, Step(s.line, ev)) == [ev];
    assert ev in [ev];
    RampSet(s.drive.ctrlWord);
  }

  lemma RampSet(w: bv16)
    ensures Masked(w, USE_RAMP) & VL_RFG == VL_RFG
  {
  }
}
