/** The calls of the drive profile in the words, modes and statuses of CiA DSP 402, with their
    numbers. */
module Ds402Words {
  import opened Can
  import opened Bus
  import opened Ds402
  import opened Ds402Mirror
  import Ds402Safety
  import Pdo
  import PdoSafety

  /** The control words that the commands make of the current one (table 10.3.1), and the ramp bits
      of the velocity mode: enable, unlock and use reference, bits 4 to 6. */
  lemma CommandWords(w: bv16)
    ensures Masked(w, SHUTDOWN) == (w & 0xFF7E) | 0x0006
    ensures Masked(w, SWITCH_ON_CMD) == (w & 0xFF77) | 0x0007
    ensures Masked(w, DISABLE_VOLTAGE) == w & 0xFF7D
    ensures Masked(w, ENABLE_OP) == (w & 0xFF7F) | 0x000F
    ensures Masked(w, FAULT_RESET) == w | 0x0080
    ensures Masked(w, USE_RAMP) == w | 0x0070
  {
    hide Masked;
    ShutdownWord(w);
    SwitchOnWord(w);
    DisableVoltageWord(w);
    EnableOpWord(w);
    ResetAndRampWords(w);
  }

  lemma ShutdownWord(w: bv16)
    ensures Masked(w, SHUTDOWN) == (w & 0xFF7E) | 0x0006
  {
  }

  lemma SwitchOnWord(w: bv16)
    ensures Masked(w, SWITCH_ON_CMD) == (w & 0xFF77) | 0x0007
  {
  }

  lemma DisableVoltageWord(w: bv16)
    ensures Masked(w, DISABLE_VOLTAGE) == w & 0xFF7D
  {
  }

  lemma EnableOpWord(w: bv16)
    ensures Masked(w, ENABLE_OP) == (w & 0xFF7F) | 0x000F
  {
  }

  lemma ResetAndRampWords(w: bv16)
    ensures Masked(w, FAULT_RESET) == w | 0x0080 && Masked(w, USE_RAMP) == w | 0x0070
  {
  }

  // ----- start -----

  /** One control word goes out. */
  predicate SendsWord(evs: seq<Event>, w: bv16) { |evs| == 1 && evs[0] == WriteCtrl(w, evs[0].out) }

  lemma CtrlSends(env: Env, s: Session, c: Command)
    ensures var (r, s') := DlCtrl(env, s, c);
            var evs := Since(s.line, s'.line);
            && SendsWord(evs, Masked(s.drive.ctrlWord, c)) && r == StatusOf(evs[0].out)
            && Longer(s.line, s'.line)
            && s'.drive.ctrlWord == if r == Ok then Masked(s.drive.ctrlWord, c) else s.drive.ctrlWord
  {
    hide Masked, Apply;
    var word := Masked(s.drive.ctrlWord, c);
    var ev := WriteCtrl(word, env.out(s.line.log, AskCtrl(word)));
    assert Since(s.line, Step(s.line, ev)) == [ev];
  }

  lemma NmtSends(env: Env, s: Session)
    ensures var (r, s') := NmtStart(env, s);
            var evs := Since(s.line, s'.line);
            && |evs| == 1 && evs[0].SendNmt? && r == StatusOf(evs[0].out) && Longer(s.line, s'.line)
            && s'.drive == s.drive
  {
    hide Apply;
    var ev := SendNmt(env.out(s.line.log, AskNmt));
    assert Since(s.line, Step(s.line, ev)) == [ev];
  }

  /** What a turn of start sends for each state: Not Ready gets an NMT start, a fault the fault-reset
      sequence, the other states the next command; and how it ends without sending. */
  lemma TurnSends(env: Env, s: Session)
    ensures var t, w := React(env, s), s.drive.ctrlWord;
            var evs := Since(s.line, t.s.line);
            match StateOf(s.drive.statWord)
            case OperationEnabled => t == Return(Ok, s)
            case Unknown => t == Return(ErrProto, s)
            case NotReady => |evs| == 1 && evs[0].SendNmt?
            case SwitchOnDisabled => SendsWord(evs, (w & 0xFF7E) | 0x0006)
            case ReadyToSwitchOn => SendsWord(evs, (w & 0xFF77) | 0x0007)
            case SwitchedOn => SendsWord(evs, (w & 0xFF7F) | 0x000F)
            case QuickStopActive => SendsWord(evs, w & 0xFF7D)
            case FaultReaction | Fault => FaultEvents(evs, w)
  {
    hide StateOf, Masked, Since, DlCtrl, NmtStart, SendsWord, FaultEvents, ResetFault;
    CommandWords(s.drive.ctrlWord);
    CtrlSends(env, s, SHUTDOWN);
    CtrlSends(env, s, SWITCH_ON_CMD);
    CtrlSends(env, s, ENABLE_OP);
    CtrlSends(env, s, DISABLE_VOLTAGE);
    NmtSends(env, s);
    ResetSends(env, s);
  }

  /** The shutdown word, an NMT start and the reset word, each only after the one before has
      succeeded. */
  predicate FaultEvents(evs: seq<Event>, w: bv16)
  {
    && 1 <= |evs| <= 3 && evs[0] == WriteCtrl((w & 0xFF7E) | 0x0006, evs[0].out)
    && (|evs| >= 2 <==> Succeeded(evs[0])) && (|evs| >= 2 ==> evs[1].SendNmt?)
    && (|evs| >= 3 <==> Succeeded(evs[0]) && |evs| >= 2 && Succeeded(evs[1]))
    && (|evs| >= 3 ==> evs[2] == WriteCtrl((w & 0xFF7E) | 0x0086, evs[2].out))
  }

  /** The log of b is that of a and the events since. */
  predicate Longer(a: Line, b: Line) { b.log == a.log + Since(a, b) }

  lemma LongerTrans(a: Line, b: Line, c: Line)
    requires Longer(a, b) && Longer(b, c)
    ensures Longer(a, c) && Since(a, c) == Since(a, b) + Since(b, c)
  {
    assert Since(a, c) == Since(a, b) + Since(b, c);
  }

  /** How a turn that has sent some events ends. */
  predicate TurnEnds(t: Turn, evs: seq<Event>)
  {
    && (t.Next? ==> AllSucceeded(evs))
    && (t.Return? && evs != [] ==> t.status == StatusOf(evs[|evs| - 1].out) != Ok)
  }

  lemma ResetSends(env: Env, s: Session)
    ensures var t := ResetFault(env, s);
            var evs := Since(s.line, t.s.line);
            FaultEvents(evs, s.drive.ctrlWord) && Longer(s.line, t.s.line) && TurnEnds(t, evs)
  {
    hide Masked, DlCtrl, NmtStart, Since, Longer, FaultEvents, TurnEnds, AllSucceeded, SendsWord;
    var w := s.drive.ctrlWord;
    ShutdownWord(w);
    CtrlSends(env, s, SHUTDOWN);
    var (r, s1) := DlCtrl(env, s, SHUTDOWN);
    var evs := Since(s.line, s1.line);
    if r == Ok {
      NmtSends(env, s1);
      var (r2, s2) := NmtStart(env, s1);
      LongerTrans(s.line, s1.line, s2.line);
      if r2 == Ok {
        ResetWord(w);
        CtrlSends(env, s2, FAULT_RESET);
        var s3 := DlCtrl(env, s2, FAULT_RESET).1;
        LongerTrans(s.line, s2.line, s3.line);
        FaultThree(evs, Since(s1.line, s2.line), Since(s2.line, s3.line), w, ResetFault(env, s));
      } else {
        FaultTwo(evs, Since(s1.line, s2.line), w, ResetFault(env, s));
      }
    } else {
      FaultOne(evs, w, ResetFault(env, s));
    }
  }

  lemma FaultOne(a: seq<Event>, w: bv16, t: Turn)
    requires SendsWord(a, (w & 0xFF7E) | 0x0006) && t.Return? && t.status == StatusOf(a[0].out) != Ok
    ensures FaultEvents(a, w) && TurnEnds(t, a)
  {
  }

  lemma FaultTwo(a: seq<Event>, b: seq<Event>, w: bv16, t: Turn)
    requires SendsWord(a, (w & 0xFF7E) | 0x0006) && Succeeded(a[0])
    requires |b| == 1 && b[0].SendNmt? && t.Return? && t.status == StatusOf(b[0].out) != Ok
    ensures FaultEvents(a + b, w) && TurnEnds(t, a + b)
  {
    assert a + b == [a[0], b[0]];
  }

  lemma FaultThree(a: seq<Event>, b: seq<Event>, c: seq<Event>, w: bv16, t: Turn)
    requires SendsWord(a, (w & 0xFF7E) | 0x0006) && Succeeded(a[0])
    requires |b| == 1 && b[0].SendNmt? && Succeeded(b[0]) && SendsWord(c, (w & 0xFF7E) | 0x0086)
    requires if t.Next? then Succeeded(c[0]) else t.status == StatusOf(c[0].out) != Ok
    ensures FaultEvents(a + b + c, w) && TurnEnds(t, a + b + c)
  {
    assert a + b + c == [a[0], b[0], c[0]];
  }

  lemma ResetWord(w: bv16)
    ensures Masked((w & 0xFF7E) | 0x0006, FAULT_RESET) == (w & 0xFF7E) | 0x0086
  {
  }

  /** What a turn returns is the status of its last transfer, if that failed, or says what it saw. */
  lemma TurnFails(env: Env, s: Session)
    ensures var t := React(env, s);
            Longer(s.line, t.s.line) && TurnEnds(t, Since(s.line, t.s.line))
  {
    hide StateOf, Masked, DlCtrl, NmtStart, ResetFault, Since, Longer, TurnEnds, SendsWord, AllSucceeded;
    OneFails(env, s, SHUTDOWN);
    OneFails(env, s, SWITCH_ON_CMD);
    OneFails(env, s, ENABLE_OP);
    OneFails(env, s, DISABLE_VOLTAGE);
    ResetSends(env, s);
    NothingSent(s.line, React(env, s));
  }

  lemma OneFails(env: Env, s: Session, c: Command)
    ensures var t := Checked(DlCtrl(env, s, c)); Longer(s.line, t.s.line) && TurnEnds(t, Since(s.line, t.s.line))
    ensures var t := Checked(NmtStart(env, s)); Longer(s.line, t.s.line) && TurnEnds(t, Since(s.line, t.s.line))
  {
    hide Masked, DlCtrl, NmtStart, Since;
    CtrlSends(env, s, c);
    NmtSends(env, s);
  }

  lemma NothingSent(l: Line, t: Turn)
    ensures Longer(l, l) && Since(l, l) == [] && (t.Return? ==> TurnEnds(t, []))
  {
  }

  /** The last transfer failed with the status. */
  predicate FailedLast(s: Session, s': Session, r: Status)
  {
    var log := s'.line.log;
    |log| > |s.line.log| && r == StatusOf(log[|log| - 1].out) != Ok
  }

  /** How the loop ends with n turns left. */
  predicate Ends(s: Session, s': Session, r: Status, n: nat)
  {
    || FailedLast(s, s', r)
    || (r == Ok && Ds402Safety.LastStatus(s') && StateOf(s'.drive.statWord) == OperationEnabled)
    || (r == ErrProto && Ds402Safety.LastStatus(s') && StateOf(s'.drive.statWord) == Unknown)
    || (r == ErrDev && Ds402Safety.Polls(s'.line.log) == Ds402Safety.Polls(s.line.log) + n)
  }

  lemma {:induction false} LoopEnds(env: Env, s: Session, n: nat)
    ensures var (r, s') := StartLoop(env, s, n);
            |s.line.log| <= |s'.line.log| && Ends(s, s', r, n)
    decreases n
  {
    hide StateOf, React, UlStat, Ds402Safety.Polls, Ds402Safety.LastStatus, Longer, Since, TurnEnds, Ends;
    if n == 0 {
      NoTurn(s);
    } else {
      var (r, s1) := UlStat(env, s);
      PollEnds(env, s);
      if r == Ok {
        TurnEnding(env, s1);
        var t := React(env, s1);
        if t.Next? {
          LoopEnds(env, t.s, n - 1);
          var (r', s') := StartLoop(env, t.s, n - 1);
          LaterEnds(s, t.s, s', r', n);
        } else {
          LaterEnds(s, s1, t.s, t.status, n);
        }
      } else {
        FailedEnds(s, s1, r, n);
      }
    }
  }

  lemma NoTurn(s: Session)
    ensures Ends(s, s, ErrDev, 0)
  {
    hide StateOf, Ds402Safety.Polls, Ds402Safety.LastStatus, FailedLast;
  }

  lemma FailedEnds(s: Session, s': Session, r: Status, n: nat)
    requires FailedLast(s, s', r)
    ensures Ends(s, s', r, n)
  {
    hide StateOf, Ds402Safety.Polls, Ds402Safety.LastStatus, FailedLast;
  }

  /** A poll either fails, last, or shows a status word. */
  lemma PollEnds(env: Env, s: Session)
    ensures var (r, s1) := UlStat(env, s);
            && |s1.line.log| == |s.line.log| + 1
            && Ds402Safety.Polls(s1.line.log) == Ds402Safety.Polls(s.line.log) + 1
            && (if r == Ok then Ds402Safety.LastStatus(s1) else FailedLast(s, s1, r))
  {
    hide Ds402Safety.Polls, Apply;
    Ds402Safety.PollsGrow(s.line.log, ReadStat(env.stat(s.line.log), env.out(s.line.log, AskStat)));
  }

  /** A turn polls no more; when it returns without having failed, its status says what it saw. */
  lemma TurnEnding(env: Env, s: Session)
    ensures var t := React(env, s);
            && |s.line.log| <= |t.s.line.log|
            && Ds402Safety.Polls(t.s.line.log) == Ds402Safety.Polls(s.line.log)
            && (t.Return? ==>
                  || FailedLast(s, t.s, t.status)
                  || (t.s == s && t.status == Ok && StateOf(s.drive.statWord) == OperationEnabled)
                  || (t.s == s && t.status == ErrProto && StateOf(s.drive.statWord) == Unknown))
  {
    hide StateOf, React, Ds402Safety.Polls, SendsWord, FaultEvents;
    var t := React(env, s);
    TurnPolls(env, s);
    TurnFails(env, s);
    if t.Return? && Since(s.line, t.s.line) == [] {
      TurnShown(env, s);
    }
  }

  lemma LaterEnds(s: Session, s1: Session, s': Session, r: Status, n: nat)
    requires n > 0 && |s.line.log| <= |s1.line.log| <= |s'.line.log|
    requires Ds402Safety.Polls(s1.line.log) == Ds402Safety.Polls(s.line.log) + 1
    requires Ends(s1, s', r, n - 1) || (Ds402Safety.LastStatus(s1) && s' == s1
             && ((r == Ok && StateOf(s1.drive.statWord) == OperationEnabled)
                 || (r == ErrProto && StateOf(s1.drive.statWord) == Unknown))) || FailedLast(s1, s', r)
    ensures Ends(s, s', r, n)
  {
    hide StateOf, Ds402Safety.Polls, Ds402Safety.LastStatus;
  }

  lemma TurnShown(env: Env, s: Session)
    requires React(env, s).Return? && Since(s.line, React(env, s).s.line) == []
    ensures var t := React(env, s);
            || (t == Return(Ok, s) && StateOf(s.drive.statWord) == OperationEnabled)
            || (t == Return(ErrProto, s) && StateOf(s.drive.statWord) == Unknown)
  {
    hide StateOf, React, Since, SendsWord, FaultEvents;
    TurnSends(env, s);
    SendsSome(Since(s.line, React(env, s).s.line), s.drive.ctrlWord);
  }

  lemma SendsSome(evs: seq<Event>, w: bv16)
    ensures evs == [] ==> (forall v :: !SendsWord(evs, v)) && !FaultEvents(evs, w)
  {
  }

  /** The events of a turn hold no poll. */
  lemma TurnPolls(env: Env, s: Session)
    ensures Ds402Safety.Polls(React(env, s).s.line.log) == Ds402Safety.Polls(s.line.log)
  {
    hide StateOf, Masked, DlCtrl, NmtStart, ResetFault, Ds402Safety.Polls;
    CtrlPolls(env, s, SHUTDOWN);
    CtrlPolls(env, s, SWITCH_ON_CMD);
    CtrlPolls(env, s, ENABLE_OP);
    CtrlPolls(env, s, DISABLE_VOLTAGE);
    ResetPolls(env, s);
  }

  lemma CtrlPolls(env: Env, s: Session, c: Command)
    ensures Ds402Safety.Polls(DlCtrl(env, s, c).1.line.log) == Ds402Safety.Polls(s.line.log)
    ensures Ds402Safety.Polls(NmtStart(env, s).1.line.log) == Ds402Safety.Polls(s.line.log)
  {
    hide Masked, Ds402Safety.Polls, Apply;
    var word := Masked(s.drive.ctrlWord, c);
    Ds402Safety.PollsGrow(s.line.log, WriteCtrl(word, env.out(s.line.log, AskCtrl(word))));
    Ds402Safety.PollsGrow(s.line.log, SendNmt(env.out(s.line.log, AskNmt)));
  }

  lemma ResetPolls(env: Env, s: Session)
    ensures Ds402Safety.Polls(ResetFault(env, s).s.line.log) == Ds402Safety.Polls(s.line.log)
  {
    hide Masked, DlCtrl, NmtStart, Ds402Safety.Polls;
    var s1 := DlCtrl(env, s, SHUTDOWN).1;
    var s2 := NmtStart(env, s1).1;
    CtrlPolls(env, s, SHUTDOWN);
    CtrlPolls(env, s1, SHUTDOWN);
    CtrlPolls(env, s2, FAULT_RESET);
  }

  /** How start ends, for every status stream and every failure: with the status of a transfer that
      failed, with Ok on a word that shows Operation Enabled, with a protocol error on one that shows no
      state, or with a device error after exactly a hundred polls. */
  lemma StartResult(env: Env, s: Session)
    ensures var (r, s') := Start(env, s);
            || FailedLast(s, s', r)
            || (r == Ok && Ds402Safety.LastStatus(s') && StateOf(s'.drive.statWord) == OperationEnabled)
            || (r == ErrProto && Ds402Safety.LastStatus(s') && StateOf(s'.drive.statWord) == Unknown)
            || (r == ErrDev && Ds402Safety.Polls(s'.line.log) == Ds402Safety.Polls(s.line.log) + 100)
  {
    hide StateOf, StartLoop, FailedLast, Ds402Safety.LastStatus, Ds402Safety.Polls;
    LoopEnds(env, s, MAX_POLLS);
  }

  // ----- operation mode -----

  /** The mode call makes no transfer exactly if the user RPDO is no 8-bit number, the mode is not
      velocity (2), or the mode would have to change while HALT (bit 8) is clear; then it reports a
      parameter or a motion error and changes nothing. */
  lemma ModeRefused(env: Env, s: Session, mode: int)
    ensures var (r, s') := SetOpMode(env, s, mode);
            var unfit := s.drive.rpdoUser < 0 || s.drive.rpdoUser > 255 || mode != 2;
            && (Since(s.line, s'.line) == [] <==> unfit || (s.drive.opMode != 2 && s.drive.ctrlWord & 0x0100 == 0))
            && (Since(s.line, s'.line) == [] ==> r == (if unfit then ErrParam else ErrMotion) && s' == s)
  {
    hide Pdo.Remap, DlCtrl, HighByte, Quick;
    if 0 <= s.drive.rpdoUser <= 255 && mode == 2 {
      if s.drive.opMode != 2 {
        if s.drive.ctrlWord & 0x0100 != 0 {
          ChangeModeSends(env, s, mode);
          ModeGoesOn(env, s, mode);
        }
      } else {
        ModeGoesOn(env, s, mode);
      }
    }
  }

  /** Mode and zero reference, one after the other. */
  lemma ChangeModeSends(env: Env, s: Session, mode: i8)
    requires s.drive.ctrlWord & 0x0100 != 0
    ensures var (r, s') := ChangeMode(env, s, mode);
            var evs := Since(s.line, s'.line);
            && 1 <= |evs| <= 2 && evs[0] == WriteMode(mode, evs[0].out)
            && (|evs| == 2 <==> Succeeded(evs[0])) && (|evs| == 2 ==> evs[1] == WriteTarget(0, evs[1].out))
            && r == StatusOf(evs[|evs| - 1].out) && Longer(s.line, s'.line)
            && s'.drive == s.drive.(opMode := if Succeeded(evs[0]) then mode else s.drive.opMode)
  {
    hide Apply;
    var ev := WriteMode(mode, env.out(s.line.log, AskMode(mode)));
    var l1 := Step(s.line, ev);
    assert l1.log == s.line.log + [ev];
    if Succeeded(ev) {
      var ev2 := WriteTarget(0, env.out(l1.log, AskTarget(0)));
      assert Step(l1, ev2).log == s.line.log + [ev, ev2];
    }
  }

  /** The part of the mode call behind the change of mode. */
  function MapThenRamp(env: Env, s: Session, rpdo: u8): (Status, Session)
  {
    DlCtrl(env, s.(line := Pdo.Remap(env, s.line, ModeRequest(rpdo)).1), USE_RAMP)
  }

  lemma ModeParts(env: Env, s: Session, mode: int)
    ensures var rpdo := s.drive.rpdoUser;
            if rpdo < 0 || rpdo > 0xFF || mode != 2 then SetOpMode(env, s, mode) == (ErrParam, s)
            else
              var s1 := if mode != s.drive.opMode then ChangeMode(env, s, mode) else (Ok, s);
              if s1.0 != Ok then SetOpMode(env, s, mode) == s1
              else
                var (r3, s3) := MapThenRamp(env, s1.1, rpdo);
                SetOpMode(env, s, mode)
                == (if r3 != Ok then r3 else Pdo.Remap(env, s1.1.line, ModeRequest(rpdo)).0, s3)
  {
    hide ChangeMode, DlCtrl, Pdo.Remap;
  }

  /** Once the mode is right the control word with the ramp bits always goes out, last, whatever became
      of the remap; its failure is reported before that of the remap. */
  lemma ModeGoesOn(env: Env, s: Session, mode: int)
    requires 0 <= s.drive.rpdoUser <= 255 && mode == 2
    requires s.drive.opMode == 2 || s.drive.ctrlWord & 0x0100 != 0
    ensures var (r, s') := SetOpMode(env, s, mode);
            var s1 := if s.drive.opMode == 2 then (Ok, s) else ChangeMode(env, s, mode);
            if s1.0 != Ok then (r, s') == s1
            else
              && WordLast(s1.1.line, s'.line, s.drive.ctrlWord | 0x0070, LastOf(s'.line))
              && r == if LastOf(s'.line) != Ok then LastOf(s'.line)
                      else Pdo.Remap(env, s1.1.line, ModeRequest(s.drive.rpdoUser)).0
  {
    hide Pdo.Remap, SetOpMode, ChangeMode, MapThenRamp, WordLast, LastOf;
    var s1 := if s.drive.opMode == 2 then (Ok, s) else ChangeMode(env, s, mode);
    ModeParts(env, s, mode);
    RemapThenWord(env, s1.1, s.drive.rpdoUser);
    if s.drive.opMode != 2 {
      ChangeModeSends(env, s, mode);
    }
  }

  /** The status of the last transfer. */
  function LastOf(l: Line): Status { if l.log == [] then Ok else StatusOf(l.log[|l.log| - 1].out) }

  /** The last event writes the control word w, with the outcome that the status tells. */
  predicate WordLast(l: Line, l': Line, w: bv16, r: Status)
  {
    var log := l'.log;
    && |log| > |l.log| && log[|log| - 1].WriteCtrl? && log[|log| - 1].ctrl == w && r == StatusOf(log[|log| - 1].out)
  }

  lemma RemapThenWord(env: Env, s: Session, rpdo: u8)
    ensures var (r3, s3) := MapThenRamp(env, s, rpdo);
            WordLast(s.line, s3.line, s.drive.ctrlWord | 0x0070, r3) && r3 == LastOf(s3.line)
  {
    hide Pdo.Remap, DlCtrl, Masked, Grown, Prompt, AllSucceeded;
    var l2 := Pdo.Remap(env, s.line, ModeRequest(rpdo)).1;
    PdoSafety.RemapGrows(env, s.line, ModeRequest(rpdo));
    LogGrew(env, s.line, l2);
    CtrlSends(env, s.(line := l2), USE_RAMP);
    ResetAndRampWords(s.drive.ctrlWord);
  }

  lemma LogGrew(env: Env, l: Line, l': Line)
    requires Grown(env, l, l')
    ensures l.log <= l'.log
  {
  }

  // ----- stop -----

  /** Stop sends the shutdown word, and its outcome is what it reports. */
  lemma StopSends(env: Env, s: Session)
    ensures var (r, s') := Stop(env, s);
            var evs := Since(s.line, s'.line);
            && SendsWord(evs, (s.drive.ctrlWord & 0xFF7E) | 0x0006) && r == StatusOf(evs[0].out)
            && s'.drive.ctrlWord == if r == Ok then (s.drive.ctrlWord & 0xFF7E) | 0x0006 else s.drive.ctrlWord
  {
    hide DlCtrl, Masked, Since, SendsWord;
    ShutdownWord(s.drive.ctrlWord);
    CtrlSends(env, s, SHUTDOWN);
  }
}
