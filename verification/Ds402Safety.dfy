/** What canmat_402_start does to a drive, whatever status words and failures it meets. */
module Ds402Safety {
  import opened Can
  import opened Bus
  import opened Ds402

  /** The bits that the start commands may change: 0 to 3 and 7. */
  const COMMAND_BITS: bv16 := 0x008F

  function Others(w: bv16): bv16 { w & !COMMAND_BITS }

  /** Enable operation: bits 0 to 3 set and bit 7 clear (section 10.3.1 of CiA DSP 402). */
  predicate EnablesOperation(w: bv16) { w & COMMAND_BITS == 0x000F }

  predicate Resets(w: bv16) { w & RESET_FAULT != 0 }

  /** What each command does to the reset bit and to the others, and which enables operation. */
  lemma CommandBits(w: bv16, c: Command)
    requires c == SHUTDOWN || c == SWITCH_ON_CMD || c == DISABLE_VOLTAGE || c == ENABLE_OP || c == FAULT_RESET
    ensures Others(Masked(w, c)) == Others(w)
    ensures Resets(Masked(w, c)) <==> c == FAULT_RESET
    ensures EnablesOperation(Masked(w, c)) <==> c == ENABLE_OP
  {
    hide Others, Masked, Resets, EnablesOperation;
    ShutdownBits(w);
    SwitchOnBits(w);
    DisableVoltageBits(w);
    EnableOpBits(w);
    FaultResetBits(w);
  }

  lemma ShutdownBits(w: bv16)
    ensures Others(Masked(w, SHUTDOWN)) == Others(w)
    ensures !Resets(Masked(w, SHUTDOWN)) && !EnablesOperation(Masked(w, SHUTDOWN))
  {
  }

  lemma SwitchOnBits(w: bv16)
    ensures Others(Masked(w, SWITCH_ON_CMD)) == Others(w)
    ensures !Resets(Masked(w, SWITCH_ON_CMD)) && !EnablesOperation(Masked(w, SWITCH_ON_CMD))
  {
  }

  lemma DisableVoltageBits(w: bv16)
    ensures Others(Masked(w, DISABLE_VOLTAGE)) == Others(w)
    ensures !Resets(Masked(w, DISABLE_VOLTAGE)) && !EnablesOperation(Masked(w, DISABLE_VOLTAGE))
  {
  }

  lemma EnableOpBits(w: bv16)
    ensures Others(Masked(w, ENABLE_OP)) == Others(w)
    ensures !Resets(Masked(w, ENABLE_OP)) && EnablesOperation(Masked(w, ENABLE_OP))
  {
  }

  lemma FaultResetBits(w: bv16)
    ensures Others(Masked(w, FAULT_RESET)) == Others(w)
    ensures Resets(Masked(w, FAULT_RESET)) && !EnablesOperation(Masked(w, FAULT_RESET))
  {
  }

  /** Event i of a log that began at `lo` with control word `c0` is safe: it is a status upload,
      an NMT start or a control word, and a control word changes command bits only; it enables
      operation only right after a Switched On status; it resets faults only after a successful
      control word without the reset bit, with just the NMT message in between. */
  predicate SafeEvent(log: seq<Event>, lo: nat, c0: bv16, i: nat)
    requires lo <= i < |log|
  {
    match log[i]
    case ReadStat(_, _) => true
    case SendNmt(_) => true
    case WriteCtrl(w, _) =>
      && Others(w) == Others(c0)
      && (EnablesOperation(w) ==>
            i > lo && log[i - 1].ReadStat? && Succeeded(log[i - 1]) && StateOf(log[i - 1].word) == SwitchedOn)
      && (Resets(w) ==>
            i > lo + 1 && log[i - 1].SendNmt?
            && log[i - 2].WriteCtrl? && Succeeded(log[i - 2]) && !Resets(log[i - 2].ctrl))
    case _ => false
  }

  predicate SafeLog(log: seq<Event>, lo: nat, c0: bv16)
  {
    forall i | lo <= i < |log| :: SafeEvent(log, lo, c0, i)
  }

  lemma SafeGrows(log: seq<Event>, lo: nat, c0: bv16, ev: Event)
    requires SafeLog(log, lo, c0) && lo <= |log| && SafeEvent(log + [ev], lo, c0, |log|)
    ensures SafeLog(log + [ev], lo, c0)
  {
    forall i | lo <= i < |log|
      ensures SafeEvent(log + [ev], lo, c0, i)
    {
      assert SafeEvent(log, lo, c0, i);
    }
  }

  /** The number of status uploads in a log. */
  function Polls(log: seq<Event>): nat
  {
    if log == [] then 0 else Polls(log[..|log| - 1]) + (if log[|log| - 1].ReadStat? then 1 else 0)
  }

  lemma PollsGrow(log: seq<Event>, ev: Event)
    ensures Polls(log + [ev]) == Polls(log) + (if ev.ReadStat? then 1 else 0)
  {
  }

  /** A state of the start loop: the log is safe so far and the mirror differs from the first
      control word in command bits only. */
  predicate Sound(s: Session, lo: nat, c0: bv16)
  {
    lo <= |s.line.log| && SafeLog(s.line.log, lo, c0) && Others(s.drive.ctrlWord) == Others(c0)
  }

  /** The last event is a successful upload of the status word that the client holds. */
  predicate LastStatus(s: Session)
  {
    && s.line.log != []
    && var last := s.line.log[|s.line.log| - 1];
       last.ReadStat? && Succeeded(last) && last.word == s.drive.statWord
  }

  /** One command keeps the log safe if its own event is. */
  lemma CommandSound(env: Env, s: Session, c: Command, lo: nat, c0: bv16)
    requires Sound(s, lo, c0)
    requires c == SHUTDOWN || c == SWITCH_ON_CMD || c == DISABLE_VOLTAGE || c == ENABLE_OP || c == FAULT_RESET
    requires var i := |s.line.log|;
             && (c == ENABLE_OP ==> i > lo && s.line.log[i - 1].ReadStat? && Succeeded(s.line.log[i - 1])
                                    && StateOf(s.line.log[i - 1].word) == SwitchedOn)
             && (c == FAULT_RESET ==> i > lo + 1 && s.line.log[i - 1].SendNmt?
                                      && s.line.log[i - 2].WriteCtrl? && Succeeded(s.line.log[i - 2])
                                      && !Resets(s.line.log[i - 2].ctrl))
    ensures Sound(DlCtrl(env, s, c).1, lo, c0)
    ensures Polls(DlCtrl(env, s, c).1.line.log) == Polls(s.line.log)
  {
    hide Masked, Others, Resets, EnablesOperation, StateOf;
    CommandBits(s.drive.ctrlWord, c);
    var word := Masked(s.drive.ctrlWord, c);
    var ev := WriteCtrl(word, env.out(s.line.log, AskCtrl(word)));
    SafeGrows(s.line.log, lo, c0, ev);
    PollsGrow(s.line.log, ev);
  }

  lemma NmtSound(env: Env, s: Session, lo: nat, c0: bv16)
    requires Sound(s, lo, c0)
    ensures Sound(NmtStart(env, s).1, lo, c0)
    ensures Polls(NmtStart(env, s).1.line.log) == Polls(s.line.log)
  {
    var ev := SendNmt(env.out(s.line.log, AskNmt));
    SafeGrows(s.line.log, lo, c0, ev);
    PollsGrow(s.line.log, ev);
  }

  /** The fault-reset sequence: the reset follows an acknowledged shutdown. */
  lemma ResetSound(env: Env, s: Session, lo: nat, c0: bv16)
    requires Sound(s, lo, c0)
    ensures Sound(ResetFault(env, s).s, lo, c0)
    ensures Polls(ResetFault(env, s).s.line.log) == Polls(s.line.log)
    ensures ResetFault(env, s).Return? ==> ResetFault(env, s).status != Ok
  {
    hide Masked, Others, Resets, EnablesOperation, StateOf, SafeLog;
    CommandBits(s.drive.ctrlWord, SHUTDOWN);
    CommandSound(env, s, SHUTDOWN, lo, c0);
    var (r, s1) := DlCtrl(env, s, SHUTDOWN);
    if r == Ok {
      NmtSound(env, s1, lo, c0);
      var (r2, s2) := NmtStart(env, s1);
      if r2 == Ok {
        CommandSound(env, s2, FAULT_RESET, lo, c0);
      }
    }
  }

  /** The reaction to a status keeps the log safe; it returns Ok only in Operation Enabled. */
  lemma ReactSound(env: Env, s: Session, lo: nat, c0: bv16)
    requires Sound(s, lo, c0) && |s.line.log| > lo
    requires LastStatus(s)
    ensures Sound(React(env, s).s, lo, c0)
    ensures Polls(React(env, s).s.line.log) == Polls(s.line.log)
    ensures React(env, s).Return? && React(env, s).status == Ok
            <==> StateOf(s.drive.statWord) == OperationEnabled
    ensures React(env, s).Return? && React(env, s).status == Ok ==> React(env, s).s == s
  {
    hide Masked, Others, Resets, EnablesOperation, StateOf, SafeLog, DlCtrl, NmtStart, ResetFault;
    match StateOf(s.drive.statWord)
    case NotReady => NmtSound(env, s, lo, c0);
    case SwitchOnDisabled => CommandSound(env, s, SHUTDOWN, lo, c0);
    case ReadyToSwitchOn => CommandSound(env, s, SWITCH_ON_CMD, lo, c0);
    case SwitchedOn => CommandSound(env, s, ENABLE_OP, lo, c0);
    case OperationEnabled =>
    case QuickStopActive => CommandSound(env, s, DISABLE_VOLTAGE, lo, c0);
    case FaultReaction | Fault => ResetSound(env, s, lo, c0);
    case Unknown =>
  }

  lemma {:induction false} StartLoopSound(env: Env, s: Session, n: nat, lo: nat, c0: bv16)
    requires Sound(s, lo, c0)
    ensures var (r, s') := StartLoop(env, s, n);
            && Sound(s', lo, c0)
            && Polls(s'.line.log) <= Polls(s.line.log) + n
            && (r == Ok ==> |s'.line.log| > lo && LastStatus(s')
                            && StateOf(s'.drive.statWord) == OperationEnabled)
    decreases n
  {
    hide Masked, Others, Resets, EnablesOperation, StateOf, React, SafeLog, Polls;
    if n > 0 {
      var ev := ReadStat(env.stat(s.line.log), env.out(s.line.log, AskStat));
      SafeGrows(s.line.log, lo, c0, ev);
      PollsGrow(s.line.log, ev);
      var (r, s1) := UlStat(env, s);
      if r == Ok {
        ReactSound(env, s1, lo, c0);
        match React(env, s1)
        case Return(_, _) =>
        case Next(s2) => StartLoopSound(env, s2, n - 1, lo, c0);
      }
    }
  }

  /** Safety of canmat_402_start against any status stream, any failures and any initial
      control word: every event is safe, at most 100 status words are read, only command bits
      of the mirror change, and Ok means that the last status read was Operation Enabled. */
  lemma StartSafe(env: Env, s: Session)
    ensures var (r, s') := Start(env, s);
            var lo := |s.line.log|;
            && lo <= |s'.line.log|
            && SafeLog(s'.line.log, lo, s.drive.ctrlWord)
            && Others(s'.drive.ctrlWord) == Others(s.drive.ctrlWord)
            && Polls(s'.line.log) <= Polls(s.line.log) + 100
            && (r == Ok ==> lo < |s'.line.log| && LastStatus(s')
                            && StateOf(s'.drive.statWord) == OperationEnabled)
  {
    hide Masked, Others, Resets, EnablesOperation, StateOf, SafeEvent, Polls, StartLoop;
    StartLoopSound(env, s, MAX_POLLS, |s.line.log|, s.drive.ctrlWord);
  }

  /** At a fault-reset write of a safe log the device's own control word has the reset bit clear,
      so the device sees a rising edge, exactly unless the shutdown word before was refused, the
      client took an older answer for its acknowledgement, and the bit was set before that. */
  lemma ResetIsRisingEdge(dev: Device, log: seq<Event>, lo: nat, c0: bv16, i: nat)
    requires SafeLog(log, lo, c0) && lo <= i < |log|
    requires log[i].WriteCtrl? && Resets(log[i].ctrl)
    ensures i >= lo + 2
    ensures Resets(Replay(dev, log[..i]).ctrl)
            <==> log[i - 2].out.Mistaken? && Resets(Replay(dev, log[..i - 2]).ctrl)
  {
    hide Resets, EnablesOperation, Others, StateOf, Replay;
    assert SafeEvent(log, lo, c0, i);
    var d := Replay(dev, log[..i - 2]);
    assert log[..i] == log[..i - 2] + [log[i - 2], log[i - 1]];
    ReplayConcat(dev, log[..i - 2], [log[i - 2], log[i - 1]]);
    ReplayTwo(d, log[i - 2], log[i - 1]);
  }

  lemma ReplayTwo(dev: Device, a: Event, b: Event)
    ensures Replay(dev, [a, b]) == Apply(Apply(dev, a), b)
  {
    assert [a, b][1..] == [b] && [b][1..] == [];
    assert Replay(dev, [a, b]) == Replay(Apply(dev, a), [b]);
    assert Replay(Apply(dev, a), [b]) == Replay(Apply(Apply(dev, a), b), []);
  }
}
