/** Liveness of canmat_402_start against a conformant drive that may raise faults, delay its
    automatic transitions and serve outdated status words. */
module Ds402Live {
  import opened Can
  import opened Bus
  import opened Ds402

  // ----- the drive (section 10.1.1 of CiA DSP 402) -----

  datatype Order = ShutDown | SwitchOn | EnableOperation | DisableVoltage | QuickStop | NoOrder

  /** Section 10.3.1: the order that a control word gives while the reset bit is clear. */
  function Decode(w: bv16): Order
  {
    if w & 0x87 == 0x06 then ShutDown
    else if w & 0x8F == 0x07 then SwitchOn
    else if w & 0x8F == 0x0F then EnableOperation
    else if w & 0x82 == 0x00 then DisableVoltage
    else if w & 0x86 == 0x02 then QuickStop
    else NoOrder
  }

  /** The transitions 2 to 12 and 16. */
  function Obey(st: State, o: Order): State
  {
    match (st, o)
    case (SwitchOnDisabled, ShutDown) => ReadyToSwitchOn
    case (ReadyToSwitchOn, SwitchOn) => SwitchedOn
    case (ReadyToSwitchOn, DisableVoltage) => SwitchOnDisabled
    case (ReadyToSwitchOn, QuickStop) => SwitchOnDisabled
    case (SwitchedOn, EnableOperation) => OperationEnabled
    case (SwitchedOn, ShutDown) => ReadyToSwitchOn
    case (SwitchedOn, DisableVoltage) => SwitchOnDisabled
    case (SwitchedOn, QuickStop) => SwitchOnDisabled
    case (OperationEnabled, SwitchOn) => SwitchedOn
    case (OperationEnabled, ShutDown) => ReadyToSwitchOn
    case (OperationEnabled, DisableVoltage) => SwitchOnDisabled
    case (OperationEnabled, QuickStop) => QuickStopActive
    case (QuickStopActive, DisableVoltage) => SwitchOnDisabled
    case (QuickStopActive, EnableOperation) => OperationEnabled
    case _ => st
  }

  /** The transitions 1 and 14, which the drive makes by itself. */
  function Auto(st: State): State
  {
    match st
    case NotReady => SwitchOnDisabled
    case FaultReaction => Fault
    case _ => st
  }

  /** The drive: its state, the state its status word shows, the last reset bit, and how often
      it was polled. */
  datatype Plant = Plant(fsa: State, shown: State, resetBit: bool, polls: nat)

  /** What happens to the drive before a poll: a fault occurs, the status word is not brought up
      to date, an automatic transition is still pending. */
  datatype Disturbance = Disturbance(fault: bool, stall: bool, lag: bool)

  type Weather = nat -> Disturbance

  /** A poll: the drive has moved on as far as the disturbance lets it. */
  function Polled(p: Plant, dist: Weather): Plant
  {
    var d := dist(p.polls);
    var fsa := if d.fault then FaultReaction else if d.lag then p.fsa else Auto(p.fsa);
    Plant(fsa, if d.stall then p.shown else fsa, p.resetBit, p.polls + 1)
  }

  /** A control word: the rising edge of the reset bit is transition 15. */
  function Commanded(p: Plant, w: bv16): Plant
  {
    var reset := w & RESET_FAULT != 0;
    p.(fsa := if p.fsa == Fault && reset && !p.resetBit then SwitchOnDisabled else Obey(p.fsa, Decode(w)),
       resetBit := reset)
  }

  function Feel(p: Plant, dist: Weather, ev: Event): Plant
  {
    match ev
    case ReadStat(_, _) => Polled(p, dist)
    case WriteCtrl(w, out) => if Applied(out) then Commanded(p, w) else p
    case _ => p
  }

  /** The drive after the events of a call. */
  function PlantAfter(p: Plant, dist: Weather, evs: seq<Event>): Plant
  {
    if evs == [] then p else Feel(PlantAfter(p, dist, evs[..|evs| - 1]), dist, evs[|evs| - 1])
  }

  /** An environment in which no transfer fails and every status word shows what the drive shows
      when it is polled; all other bits of the word are free. */
  ghost predicate Conforms(env: Env, start: seq<Event>, p: Plant, dist: Weather)
  {
    forall evs: seq<Event> {:trigger PlantAfter(p, dist, evs)} ::
      && (forall ask :: env.out(start + evs, ask) == Done)
      && StateOf(env.stat(start + evs)) == Polled(PlantAfter(p, dist, evs), dist).shown
  }

  // ----- counting -----

  function Faults(dist: Weather, lo: nat, hi: nat): nat
    decreases hi - lo
  {
    if lo >= hi then 0 else (if dist(lo).fault then 1 else 0) + Faults(dist, lo + 1, hi)
  }

  /** Polls before which the drive stalled or lagged. */
  function Stalls(dist: Weather, lo: nat, hi: nat): nat
    decreases hi - lo
  {
    if lo >= hi then 0 else (if dist(lo).stall || dist(lo).lag then 1 else 0) + Stalls(dist, lo + 1, hi)
  }

  /** How many undisturbed turns the drive is away from Operation Enabled. */
  function Rank(st: State): nat
  {
    match st
    case OperationEnabled => 0
    case SwitchedOn => 1
    case ReadyToSwitchOn => 2
    case SwitchOnDisabled => 3
    case NotReady | Fault | QuickStopActive => 4
    case FaultReaction | Unknown => 5
  }

  // ----- one turn -----

  /** How far the drive can have moved while its status word shows an older state. */
  predicate Behind(shown: State, fsa: State)
  {
    || fsa == shown
    || fsa == FaultReaction || fsa == Fault
    || match shown
       case NotReady | QuickStopActive => fsa == SwitchOnDisabled
       case SwitchOnDisabled => fsa == ReadyToSwitchOn
       case ReadyToSwitchOn => fsa == SwitchedOn
       case SwitchedOn => fsa == OperationEnabled
       case FaultReaction | Fault => fsa == SwitchOnDisabled || fsa == ReadyToSwitchOn
       case _ => false
  }

  lemma CommandOrders(w: bv16)
    ensures Decode(Masked(w, SHUTDOWN)) == ShutDown && Masked(w, SHUTDOWN) & RESET_FAULT == 0
    ensures Decode(Masked(w, SWITCH_ON_CMD)) == SwitchOn && Masked(w, SWITCH_ON_CMD) & RESET_FAULT == 0
    ensures Decode(Masked(w, ENABLE_OP)) == EnableOperation && Masked(w, ENABLE_OP) & RESET_FAULT == 0
    ensures Decode(Masked(w, DISABLE_VOLTAGE)) == DisableVoltage && Masked(w, DISABLE_VOLTAGE) & RESET_FAULT == 0
    ensures Decode(Masked(w, FAULT_RESET)) == NoOrder && Masked(w, FAULT_RESET) & RESET_FAULT != 0
  {
  }

  /** The state that the commands sent for a shown state lead to. */
  function Driven(shown: State, fsa: State): State
  {
    match shown
    case SwitchOnDisabled => Obey(fsa, ShutDown)
    case ReadyToSwitchOn => Obey(fsa, SwitchOn)
    case SwitchedOn => Obey(fsa, EnableOperation)
    case QuickStopActive => Obey(fsa, DisableVoltage)
    case FaultReaction | Fault => if fsa == Fault then SwitchOnDisabled else Obey(fsa, ShutDown)
    case _ => fsa
  }

  /** Commands bring a drive whose status is current one rank nearer, and commands given on an
      outdated status do no harm: the drive stays at most one move ahead of what it shows and
      its rank does not grow. */
  lemma CommandsHelp(shown: State, fsa: State)
    requires Behind(shown, fsa) && shown != OperationEnabled && shown != Unknown
    ensures var next := Driven(shown, fsa);
            && Behind(shown, next) && next != Unknown
            && Rank(Auto(next)) <= Rank(Auto(fsa))
            && (shown == fsa ==> Rank(Auto(next)) < Rank(fsa))
  {
  }

  /** A command that is acknowledged reaches the drive. */
  lemma CtrlDrives(env: Env, s: Session, c: Command, start: seq<Event>, evs: seq<Event>, p0: Plant, dist: Weather)
    requires Conforms(env, start, p0, dist) && s.line.log == start + evs
    ensures var word := Masked(s.drive.ctrlWord, c);
            var evs' := evs + [WriteCtrl(word, Done)];
            var (r, s') := DlCtrl(env, s, c);
            && r == Ok && s'.drive == s.drive.(ctrlWord := word) && s'.line.log == start + evs'
            && PlantAfter(p0, dist, evs') == Commanded(PlantAfter(p0, dist, evs), word)
  {
    hide Masked, StateOf, Polled, Commanded;
    var word := Masked(s.drive.ctrlWord, c);
    assert PlantAfter(p0, dist, evs) == PlantAfter(p0, dist, evs);
    assert forall ask :: env.out(start + evs, ask) == Done;
    AfterOne(p0, dist, evs, WriteCtrl(word, Done));
    assert start + evs + [WriteCtrl(word, Done)] == start + (evs + [WriteCtrl(word, Done)]);
  }

  lemma NmtDrives(env: Env, s: Session, start: seq<Event>, evs: seq<Event>, p0: Plant, dist: Weather)
    requires Conforms(env, start, p0, dist) && s.line.log == start + evs
    ensures var evs' := evs + [SendNmt(Done)];
            var (r, s') := NmtStart(env, s);
            && r == Ok && s'.drive == s.drive && s'.line.log == start + evs'
            && PlantAfter(p0, dist, evs') == PlantAfter(p0, dist, evs)
  {
    hide StateOf, Polled;
    assert PlantAfter(p0, dist, evs) == PlantAfter(p0, dist, evs);
    assert forall ask :: env.out(start + evs, ask) == Done;
    AfterOne(p0, dist, evs, SendNmt(Done));
    assert start + evs + [SendNmt(Done)] == start + (evs + [SendNmt(Done)]);
  }

  /** The events of one reaction, and what the drive makes of them. */
  ghost predicate TurnDone(env: Env, s: Session, start: seq<Event>, evs: seq<Event>, evs': seq<Event>,
                           p0: Plant, dist: Weather)
  {
    var q, q' := PlantAfter(p0, dist, evs), PlantAfter(p0, dist, evs');
    && React(env, s) == Next(React(env, s).s) && React(env, s).s.line.log == start + evs' && evs <= evs'
    && q'.fsa == Driven(q.shown, q.fsa) && q'.shown == q.shown && q'.polls == q.polls
  }

  lemma ResetDrives(env: Env, s: Session, start: seq<Event>, evs: seq<Event>, p0: Plant, dist: Weather)
    returns (evs': seq<Event>)
    requires Conforms(env, start, p0, dist) && s.line.log == start + evs
    requires var q := PlantAfter(p0, dist, evs);
             StateOf(s.drive.statWord) == q.shown && (q.shown == FaultReaction || q.shown == Fault)
    ensures TurnDone(env, s, start, evs, evs', p0, dist)
  {
    hide Conforms, StateOf, Masked, Decode, Polled, DlCtrl, NmtStart, PlantAfter;
    var word := Masked(s.drive.ctrlWord, SHUTDOWN);
    CommandOrders(s.drive.ctrlWord);
    CommandOrders(word);
    CtrlDrives(env, s, SHUTDOWN, start, evs, p0, dist);
    var s1, evs1 := DlCtrl(env, s, SHUTDOWN).1, evs + [WriteCtrl(word, Done)];
    NmtDrives(env, s1, start, evs1, p0, dist);
    var s2, evs2 := NmtStart(env, s1).1, evs1 + [SendNmt(Done)];
    CtrlDrives(env, s2, FAULT_RESET, start, evs2, p0, dist);
    evs' := evs2 + [WriteCtrl(Masked(word, FAULT_RESET), Done)];
  }

  /** After a turn's commands the drive is where Driven says, whatever the client's mirror of
      the control word is. */
  lemma TurnDrives(env: Env, s: Session, start: seq<Event>, evs: seq<Event>, p0: Plant, dist: Weather)
    returns (evs': seq<Event>)
    requires Conforms(env, start, p0, dist) && s.line.log == start + evs
    requires var q := PlantAfter(p0, dist, evs);
             StateOf(s.drive.statWord) == q.shown && q.shown != Unknown && q.shown != OperationEnabled
    ensures TurnDone(env, s, start, evs, evs', p0, dist)
  {
    hide Conforms, StateOf, Masked, Decode, Polled, DlCtrl, NmtStart, PlantAfter;
    var w := s.drive.ctrlWord;
    CommandOrders(w);
    match PlantAfter(p0, dist, evs).shown
    case NotReady =>
      NmtDrives(env, s, start, evs, p0, dist);
      evs' := evs + [SendNmt(Done)];
    case SwitchOnDisabled =>
      CtrlDrives(env, s, SHUTDOWN, start, evs, p0, dist);
      evs' := evs + [WriteCtrl(Masked(w, SHUTDOWN), Done)];
    case ReadyToSwitchOn =>
      CtrlDrives(env, s, SWITCH_ON_CMD, start, evs, p0, dist);
      evs' := evs + [WriteCtrl(Masked(w, SWITCH_ON_CMD), Done)];
    case SwitchedOn =>
      CtrlDrives(env, s, ENABLE_OP, start, evs, p0, dist);
      evs' := evs + [WriteCtrl(Masked(w, ENABLE_OP), Done)];
    case QuickStopActive =>
      CtrlDrives(env, s, DISABLE_VOLTAGE, start, evs, p0, dist);
      evs' := evs + [WriteCtrl(Masked(w, DISABLE_VOLTAGE), Done)];
    case FaultReaction =>
      evs' := ResetDrives(env, s, start, evs, p0, dist);
    case Fault =>
      evs' := ResetDrives(env, s, start, evs, p0, dist);
  }

  lemma AfterOne(p: Plant, dist: Weather, evs: seq<Event>, ev: Event)
    ensures PlantAfter(p, dist, evs + [ev]) == Feel(PlantAfter(p, dist, evs), dist, ev)
  {
  }

  /** The undisturbed turns that a drive is away from Operation Enabled, the worst being assumed
      while its status word shows a state from long ago. */
  function Level(p: Plant): nat { if Behind(p.shown, p.fsa) then Rank(Auto(p.fsa)) else 4 }

  /** The polls that a state of the loop can still need. */
  function Need(p: Plant, dist: Weather): nat
  {
    Level(p) + 1 + 6 * Faults(dist, p.polls, MAX_POLLS) + Stalls(dist, p.polls, MAX_POLLS)
  }

  /** What an outdated status word may show: not Operation Enabled, and not rubbish. */
  predicate Misleads(shown: State) { shown == OperationEnabled || shown == Unknown }

  /** Before a poll: the drive is in a proper state, and what it last showed does not mislead, or
      is not shown again. */
  predicate Ready(p: Plant, dist: Weather)
  {
    p.fsa != Unknown && (Misleads(p.shown) ==> p.polls == 0 && !dist(0).stall)
  }

  /** The rank argument: a poll that does not show Operation Enabled, with the commands that
      follow it, uses up one of the polls needed. */
  lemma TurnPays(p: Plant, dist: Weather)
    requires Ready(p, dist) && p.polls < MAX_POLLS
    ensures var q := Polled(p, dist);
            && q.shown != Unknown
            && (q.shown == OperationEnabled ==> q.fsa == OperationEnabled)
            && (q.shown != OperationEnabled ==>
                  var p' := q.(fsa := Driven(q.shown, q.fsa));
                  Ready(p', dist) && Need(p', dist) < Need(p, dist))
  {
    hide Obey, Driven, Behind, Rank, Auto;
    var q := Polled(p, dist);
    PolledLevel(p, dist);
    if q.shown != OperationEnabled {
      DrivenLevel(q);
    }
  }

  /** A poll does not raise the level by more than its disturbance pays for. */
  lemma PolledLevel(p: Plant, dist: Weather)
    requires Ready(p, dist)
    ensures var q, d := Polled(p, dist), dist(p.polls);
            && q.fsa != Unknown && q.shown != Unknown
            && (q.shown == OperationEnabled ==> q.fsa == OperationEnabled)
            && (!d.fault && d.stall ==> Level(q) <= Level(p))
            && (!d.stall ==> q.shown == q.fsa
                             && (d.fault || Rank(q.fsa) <= Level(p) + if d.lag then 1 else 0))
  {
  }

  /** The commands of a turn do not raise the level, and they lower it below the rank of a state
      that the status word shows as it is. */
  lemma DrivenLevel(q: Plant)
    requires q.fsa != Unknown && !Misleads(q.shown)
    ensures var p' := q.(fsa := Driven(q.shown, q.fsa));
            && p'.fsa != Unknown && Level(p') <= 4
            && (q.shown == q.fsa ==> Level(p') < Rank(q.fsa))
            && Level(p') <= Level(q)
  {
    if Behind(q.shown, q.fsa) {
      CommandsHelp(q.shown, q.fsa);
    }
  }

  lemma {:induction false} LoopLives(env: Env, s: Session, n: nat, start: seq<Event>, evs: seq<Event>,
                                     p0: Plant, dist: Weather)
    requires Conforms(env, start, p0, dist) && s.line.log == start + evs
    requires var p := PlantAfter(p0, dist, evs);
             Ready(p, dist) && p.polls + n == MAX_POLLS && Need(p, dist) <= n
    ensures var (r, s') := StartLoop(env, s, n);
            && r == Ok && start + evs <= s'.line.log
            && PlantAfter(p0, dist, s'.line.log[|start|..]).fsa == OperationEnabled
    decreases n
  {
    hide StateOf, React, Need, Ready, Polled, Behind, Driven;
    var p := PlantAfter(p0, dist, evs);
    NeedPositive(p, dist);
    var word := env.stat(start + evs);
    var ev := ReadStat(word, Done);
    assert env.out(start + evs, AskStat) == Done && StateOf(word) == Polled(p, dist).shown;
    var evs1 := evs + [ev];
    AfterOne(p0, dist, evs, ev);
    var q := PlantAfter(p0, dist, evs1);
    var s1 := UlStat(env, s).1;
    assert s1.line.log == start + evs1;
    TurnPays(p, dist);
    if q.shown == OperationEnabled {
      assert React(env, s1) == Return(Ok, s1) by { ReactEnabled(env, s1); }
      assert s1.line.log[|start|..] == evs1;
    } else {
      var evs2 := TurnDrives(env, s1, start, evs1, p0, dist);
      var s2 := React(env, s1).s;
      var p2 := PlantAfter(p0, dist, evs2);
      ReadyIgnoresReset(q.(fsa := Driven(q.shown, q.fsa)), p2, dist);
      PolledCounts(p, dist);
      LoopLives(env, s2, n - 1, start, evs2, p0, dist);
    }
  }

  lemma NeedPositive(p: Plant, dist: Weather)
    ensures Need(p, dist) > 0
  {
  }

  lemma ReactEnabled(env: Env, s: Session)
    requires StateOf(s.drive.statWord) == OperationEnabled
    ensures React(env, s) == Return(Ok, s)
  {
  }

  lemma PolledCounts(p: Plant, dist: Weather)
    ensures Polled(p, dist).polls == p.polls + 1
  {
  }

  lemma ReadyIgnoresReset(p: Plant, p2: Plant, dist: Weather)
    requires p2 == p.(resetBit := p2.resetBit)
    ensures Ready(p2, dist) == Ready(p, dist) && Need(p2, dist) == Need(p, dist)
  {
  }

  /** Liveness: a conformant drive in any state, with any control-word mirror at the client, is
      brought to Operation Enabled with status Ok, provided that the faults f and the stalled polls
      s among the hundred polls satisfy 6 f + s + 5 <= 100.  The first status word, too, may be
      outdated and show any state but Operation Enabled. */
  lemma StartLives(env: Env, s: Session, fsa: State, shown: State, resetBit: bool, dist: Weather)
    requires fsa != Unknown && (dist(0).stall ==> !Misleads(shown))
    requires Conforms(env, s.line.log, Plant(fsa, shown, resetBit, 0), dist)
    requires 6 * Faults(dist, 0, 100) + Stalls(dist, 0, 100) + 5 <= 100
    ensures var (r, s') := Start(env, s);
            && r == Ok && s.line.log <= s'.line.log
            && PlantAfter(Plant(fsa, shown, resetBit, 0), dist, s'.line.log[|s.line.log|..]).fsa == OperationEnabled
  {
    assert s.line.log == s.line.log + [];
    LoopLives(env, s, MAX_POLLS, s.line.log, [], Plant(fsa, shown, resetBit, 0), dist);
  }

  /** Why the first status word must not mislead: if it is outdated and shows Operation Enabled,
      start reports Ok without any command, in whatever state the drive is; and one that shows no
      state at all is a protocol error. */
  lemma OutdatedMisleads(env: Env, s: Session, p: Plant, dist: Weather)
    requires Conforms(env, s.line.log, p, dist)
    requires p.polls == 0 && dist(0).stall && Misleads(p.shown)
    ensures var (r, s') := Start(env, s);
            && r == (if p.shown == OperationEnabled then Ok else ErrProto)
            && |s'.line.log| == |s.line.log| + 1 && s'.line.dev == s.line.dev
            && Feel(p, dist, s'.line.log[|s.line.log|]).fsa == Polled(p, dist).fsa
  {
    hide StateOf;
    assert s.line.log + [] == s.line.log;
    assert PlantAfter(p, dist, []) == p;
  }

  /** A status word for a state. */
  function WordFor(st: State): bv16
  {
    match st
    case NotReady => 0x00
    case SwitchOnDisabled => 0x40
    case ReadyToSwitchOn => 0x21
    case SwitchedOn => 0x23
    case OperationEnabled => 0x27
    case QuickStopActive => 0x07
    case FaultReaction => 0x0F
    case Fault => 0x08
    case Unknown => 0x01
  }

  /** The environment that answers everything as the drive would. */
  function DriveEnv(start: seq<Event>, p: Plant, dist: Weather): Env
  {
    Env((log: seq<Event>, ask: Ask) => Done,
        (log: seq<Event>) =>
          WordFor(Polled(PlantAfter(p, dist, if |start| <= |log| then log[|start|..] else []), dist).shown))
  }

  /** There is a conformant environment for every drive and every pattern of disturbances. */
  lemma SomeDriveConforms(start: seq<Event>, p: Plant, dist: Weather)
    ensures Conforms(DriveEnv(start, p, dist), start, p, dist)
  {
    hide Polled;
    var env := DriveEnv(start, p, dist);
    forall evs: seq<Event> {:trigger PlantAfter(p, dist, evs)}
      ensures StateOf(env.stat(start + evs)) == Polled(PlantAfter(p, dist, evs), dist).shown
    {
      assert (start + evs)[|start|..] == evs;
      WordShowsState(Polled(PlantAfter(p, dist, evs), dist).shown);
    }
  }

  lemma WordShowsState(st: State)
    ensures StateOf(WordFor(st)) == st
  {
  }

  /** An acknowledged stop takes a drive that is on, or operating, back to Ready To Switch On,
      and does not move a drive in any other state but Switch On Disabled. */
  lemma StopShutsDown(env: Env, s: Session, p: Plant, dist: Weather)
    requires env.out(s.line.log, AskCtrl(Masked(s.drive.ctrlWord, SHUTDOWN))) == Done
    ensures var (r, s') := Stop(env, s);
            && r == Ok && |s'.line.log| == |s.line.log| + 1
            && var q := Feel(p, dist, s'.line.log[|s.line.log|]);
               q.fsa == if p.fsa == SwitchedOn || p.fsa == OperationEnabled || p.fsa == SwitchOnDisabled
                        then ReadyToSwitchOn else p.fsa
  {
  }
}
