/** The client side of the drive profile (CiA DSP 402 v2.0): state decoding, control words,
    start, stop, initialisation and operation mode. */
module Ds402 {
  import opened Can
  import opened Bus
  import opened ObjDict
  import opened SdoCodec
  import Pdo

  /** struct canmat_402_drive. */
  datatype Drive = Drive(
    nodeId: u8, ctrlWord: bv16, statWord: bv16, opMode: int,
    posFactor: real, velFactor: real,
    actualPosRaw: int, actualVelRaw: int, targetVelRaw: int,
    posMaxSoft: real, posMinSoft: real, posMaxHard: real, posMinHard: real,
    actualPos: real, actualVel: real, posOffset: real,
    rpdoUser: int, rpdoCtrl: int, tpdoUser: int)

  // ----- control word -----

  const SWITCH_ON: bv16 := 0x0001
  const ENABLE_VOLTAGE: bv16 := 0x0002
  const QUICK_STOP: bv16 := 0x0004
  const ENABLE_OPERATION: bv16 := 0x0008
  const RESET_FAULT: bv16 := 0x0080
  const HALT: bv16 := 0x0100
  const VL_RFG: bv16 := 0x0070

  /** The masks that build a command from the current control word. */
  datatype Command = Command(mand: bv16, mor: bv16)

  const SHUTDOWN := Command(!RESET_FAULT & !SWITCH_ON, QUICK_STOP | ENABLE_VOLTAGE)
  const SWITCH_ON_CMD := Command(!RESET_FAULT & !ENABLE_OPERATION, QUICK_STOP | ENABLE_VOLTAGE | SWITCH_ON)
  const DISABLE_VOLTAGE := Command(!RESET_FAULT & !ENABLE_VOLTAGE, 0)
  const ENABLE_OP := Command(!RESET_FAULT, ENABLE_OPERATION | QUICK_STOP | ENABLE_VOLTAGE | SWITCH_ON)
  const FAULT_RESET := Command(0xFFFF, RESET_FAULT)

  function Masked(w: bv16, c: Command): bv16 { (w & c.mand) | c.mor }

  // ----- status word -----

  datatype State = NotReady | SwitchOnDisabled | ReadyToSwitchOn | SwitchedOn | OperationEnabled
                 | QuickStopActive | FaultReaction | Fault | Unknown

  /** canmat_402_state. */
  function StateOf(s: bv16): State
  {
    if s & 0x4F == 0x00 then NotReady
    else if s & 0x4F == 0x40 then SwitchOnDisabled
    else if s & 0x6F == 0x21 then ReadyToSwitchOn
    else if s & 0x6F == 0x23 then SwitchedOn
    else if s & 0x6F == 0x27 then OperationEnabled
    else if s & 0x6F == 0x07 then QuickStopActive
    else if s & 0x4F == 0x0F then FaultReaction
    else if s & 0x4F == 0x08 then Fault
    else Unknown
  }

  /** The bit patterns of table 10.3.2: which bits of the status word a state fixes, and to what. */
  function Pattern(st: State): (bv16, bv16)
    requires st != Unknown
  {
    match st
    case NotReady => (0x4F, 0x00)
    case SwitchOnDisabled => (0x4F, 0x40)
    case ReadyToSwitchOn => (0x6F, 0x21)
    case SwitchedOn => (0x6F, 0x23)
    case OperationEnabled => (0x6F, 0x27)
    case QuickStopActive => (0x6F, 0x07)
    case FaultReaction => (0x4F, 0x0F)
    case Fault => (0x4F, 0x08)
  }

  /** The chain of tests decodes the table: a state is found exactly when its pattern matches,
      so the order of the tests does not matter. */
  lemma StateMatchesPattern(s: bv16, st: State)
    requires st != Unknown
    ensures StateOf(s) == st <==> s & Pattern(st).0 == Pattern(st).1
  {
  }

  // ----- transfers of one drive -----

  /** The drive structure of the client together with the line to the device. */
  datatype Session = Session(drive: Drive, line: Line)

  /** Upload the status word into the drive. */
  function UlStat(env: Env, s: Session): (Status, Session)
  {
    var out, word := env.out(s.line.log, AskStat), env.stat(s.line.log);
    (StatusOf(out),
     Session(if StatusOf(out) == Ok then s.drive.(statWord := word) else s.drive, Step(s.line, ReadStat(word, out))))
  }

  /** canmat_402_dl_ctrlmask: the mirror takes the word only on success. */
  function DlCtrl(env: Env, s: Session, c: Command): (Status, Session)
  {
    var word := Masked(s.drive.ctrlWord, c);
    var out := env.out(s.line.log, AskCtrl(word));
    (StatusOf(out),
     Session(if StatusOf(out) == Ok then s.drive.(ctrlWord := word) else s.drive, Step(s.line, WriteCtrl(word, out))))
  }

  /** canmat_send_nmt with the start command. */
  function NmtStart(env: Env, s: Session): (Status, Session)
  {
    var out := env.out(s.line.log, AskNmt);
    (StatusOf(out), s.(line := Step(s.line, SendNmt(out))))
  }

  // ----- start and stop -----

  /** What one turn of the start loop ends with. */
  datatype Turn = Return(status: Status, s: Session) | Next(s: Session)

  function Checked(rs: (Status, Session)): Turn
  {
    if rs.0 != Ok then Return(rs.0, rs.1) else Next(rs.1)
  }

  /** Shutdown, NMT start, fault reset. */
  function ResetFault(env: Env, s: Session): Turn
  {
    var (r, s1) := DlCtrl(env, s, SHUTDOWN);
    if r != Ok then Return(r, s1)
    else
      var (r2, s2) := NmtStart(env, s1);
      if r2 != Ok then Return(r2, s2) else Checked(DlCtrl(env, s2, FAULT_RESET))
  }

  /** The reaction to a freshly uploaded status word. */
  function React(env: Env, s: Session): Turn
  {
    match StateOf(s.drive.statWord)
    case NotReady => Checked(NmtStart(env, s))
    case SwitchOnDisabled => Checked(DlCtrl(env, s, SHUTDOWN))
    case ReadyToSwitchOn => Checked(DlCtrl(env, s, SWITCH_ON_CMD))
    case SwitchedOn => Checked(DlCtrl(env, s, ENABLE_OP))
    case OperationEnabled => Return(Ok, s)
    case QuickStopActive => Checked(DlCtrl(env, s, DISABLE_VOLTAGE))
    case FaultReaction | Fault => ResetFault(env, s)
    case Unknown => Return(ErrProto, s)
  }

  /** The start loop with n turns left. */
  function StartLoop(env: Env, s: Session, n: nat): (Status, Session)
    decreases n
  {
    if n == 0 then (ErrDev, s)
    else
      var (r, s1) := UlStat(env, s);
      if r != Ok then (r, s1)
      else match React(env, s1)
        case Return(r2, s2) => (r2, s2)
        case Next(s2) => StartLoop(env, s2, n - 1)
  }

  const MAX_POLLS: nat := 100

  function Start(env: Env, s: Session): (Status, Session) { StartLoop(env, s, MAX_POLLS) }

  function Stop(env: Env, s: Session): (Status, Session) { DlCtrl(env, s, SHUTDOWN) }

  /** A pointer to a drive: an element of the daemon's array of structures. */
  method UploadStatus(cif: Port, drives: array<Drive>, k: nat) returns (r: Status)
    requires k < drives.Length
    modifies cif`line, drives
    ensures drives[..] == old(drives[..])[k := drives[k]]
    ensures (r, Session(drives[k], cif.line)) == UlStat(cif.env, old(Session(drives[k], cif.line)))
  {
    var out, word := cif.env.out(cif.line.log, AskStat), cif.env.stat(cif.line.log);
    r := cif.Transfer(ReadStat(word, out));
    if r == Ok {
      drives[k] := drives[k].(statWord := word);
    }
  }

  /** canmat_402_dl_ctrlmask. */
  method DownloadCtrlMask(cif: Port, drives: array<Drive>, k: nat, c: Command) returns (r: Status)
    requires k < drives.Length
    modifies cif`line, drives
    ensures drives[..] == old(drives[..])[k := drives[k]]
    ensures (r, Session(drives[k], cif.line)) == DlCtrl(cif.env, old(Session(drives[k], cif.line)), c)
  {
    hide Masked;
    var ctrl := Masked(drives[k].ctrlWord, c);
    r := cif.Transfer(WriteCtrl(ctrl, cif.env.out(cif.line.log, AskCtrl(ctrl))));
    if r == Ok {
      drives[k] := drives[k].(ctrlWord := ctrl);
    }
  }

  /** The fault branch of the start loop. */
  method ResetFaultOf(cif: Port, drives: array<Drive>, k: nat) returns (r: Status)
    requires k < drives.Length
    modifies cif`line, drives
    ensures drives[..] == old(drives[..])[k := drives[k]]
    ensures ResetFault(cif.env, old(Session(drives[k], cif.line))) == Checked((r, Session(drives[k], cif.line)))
  {
    hide DlCtrl;
    r := DownloadCtrlMask(cif, drives, k, SHUTDOWN);
    if r != Ok { return; }
    r := cif.Transfer(SendNmt(cif.env.out(cif.line.log, AskNmt)));
    if r != Ok { return; }
    r := DownloadCtrlMask(cif, drives, k, FAULT_RESET);
  }

  /** The switch of the start loop: whether the loop goes on, or the status it returns. */
  method ReactTo(cif: Port, drives: array<Drive>, k: nat) returns (goOn: bool, r: Status)
    requires k < drives.Length
    modifies cif`line, drives
    ensures drives[..] == old(drives[..])[k := drives[k]]
    ensures React(cif.env, old(Session(drives[k], cif.line)))
            == if goOn then Next(Session(drives[k], cif.line)) else Return(r, Session(drives[k], cif.line))
  {
    hide Masked, DlCtrl, ResetFault, StateOf;
    match StateOf(drives[k].statWord)
    case NotReady =>
      r := cif.Transfer(SendNmt(cif.env.out(cif.line.log, AskNmt)));
      return r == Ok, r;
    case SwitchOnDisabled =>
      r := DownloadCtrlMask(cif, drives, k, SHUTDOWN);
      return r == Ok, r;
    case ReadyToSwitchOn =>
      r := DownloadCtrlMask(cif, drives, k, SWITCH_ON_CMD);
      return r == Ok, r;
    case SwitchedOn =>
      r := DownloadCtrlMask(cif, drives, k, ENABLE_OP);
      return r == Ok, r;
    case OperationEnabled =>
      return false, Ok;
    case QuickStopActive =>
      r := DownloadCtrlMask(cif, drives, k, DISABLE_VOLTAGE);
      return r == Ok, r;
    case FaultReaction | Fault =>
      r := ResetFaultOf(cif, drives, k);
      return r == Ok, r;
    case Unknown =>
      return false, ErrProto;
  }

  /** canmat_402_start. */
  method StartDrive(cif: Port, drives: array<Drive>, k: nat) returns (r: Status)
    requires k < drives.Length
    modifies cif`line, drives
    ensures drives[..] == old(drives[..])[k := drives[k]]
    ensures (r, Session(drives[k], cif.line)) == Start(cif.env, old(Session(drives[k], cif.line)))
  {
    hide React, UlStat;
    var c := 0;
    while c < MAX_POLLS
      invariant 0 <= c <= MAX_POLLS
      invariant drives[..] == old(drives[..])[k := drives[k]]
      invariant Start(cif.env, old(Session(drives[k], cif.line)))
                == StartLoop(cif.env, Session(drives[k], cif.line), MAX_POLLS - c)
    {
      c := c + 1;
      r := UploadStatus(cif, drives, k);
      if r != Ok { return; }
      var goOn;
      goOn, r := ReactTo(cif, drives, k);
      if !goOn { return; }
    }
    r := ErrDev;
  }

  /** canmat_402_stop. */
  method StopDrive(cif: Port, drives: array<Drive>, k: nat) returns (r: Status)
    requires k < drives.Length
    modifies cif`line, drives
    ensures drives[..] == old(drives[..])[k := drives[k]]
    ensures (r, Session(drives[k], cif.line)) == Stop(cif.env, old(Session(drives[k], cif.line)))
  {
    r := DownloadCtrlMask(cif, drives, k, SHUTDOWN);
  }

  // ----- initialisation -----

  /** The number that an upload delivers, given the one that the device holds. */
  function HeardInt(out: Outcome, held: int, size: nat): int
    requires size == 1 || size == 2 || size == 4
  {
    if out.Mistaken? then Signed(out.seen, size) else held
  }

  /** Load an object that was uploaded into the drive structure. */
  function Loaded(d: Drive, dev: Device, obj: Readable, out: Outcome): Drive
  {
    match obj
    case CtrlWord => d.(ctrlWord := if out.Mistaken? then (out.seen % 0x1_0000) as bv16 else dev.ctrl)
    case Position => d.(actualPosRaw := HeardInt(out, dev.position, 4))
    case Velocity => d.(actualVelRaw := HeardInt(out, dev.velocity, 4))
    case TargetVelocity => d.(targetVelRaw := HeardInt(out, dev.target, 2))
    case OpMode => d.(opMode := HeardInt(out, dev.mode, 1))
    case MinPos | MaxPos => d
  }

  /** Uploads into the drive structure until one fails. */
  function UlObjs(env: Env, s: Session, objs: seq<Readable>): (rs: (Status, Session))
    ensures rs.1.drive.posFactor == s.drive.posFactor
    decreases |objs|
  {
    if objs == [] then (Ok, s)
    else
      var out := env.out(s.line.log, AskObj(objs[0]));
      var l1 := Step(s.line, ReadObj(objs[0], out));
      if StatusOf(out) != Ok then (StatusOf(out), s.(line := l1))
      else UlObjs(env, Session(Loaded(s.drive, s.line.dev, objs[0], out), l1), objs[1..])
  }

  /** Upload a software position limit. */
  function UlLimit(env: Env, l: Line, obj: Readable): (Status, int, Line)
  {
    var out := env.out(l.log, AskObj(obj));
    (StatusOf(out), HeardInt(out, if obj.MinPos? then l.dev.minPos else l.dev.maxPos, 4), Step(l, ReadObj(obj, out)))
  }

  /** The position limits: the software limits of the drive drawn in by the margin for the hard
      limits and by the margin again for the soft ones. */
  function WithLimits(d: Drive, min: int, max: int, margin: real): Drive
    requires d.posFactor != 0.0
  {
    var maxHard, minHard := max as real / d.posFactor - margin, min as real / d.posFactor + margin;
    d.(posMaxHard := maxHard, posMinHard := minHard, posMaxSoft := maxHard - margin, posMinSoft := minHard + margin)
  }

  const INIT_OBJS: seq<Readable> := [Position, Velocity, TargetVelocity, OpMode]

  /** canmat_402_init; `margin` stands for five degrees. */
  function Init(env: Env, s: Session, id: u8, margin: real): (Status, Session)
    requires s.drive.posFactor != 0.0
  {
    var (r, s1) := UlObjs(env, s.(drive := s.drive.(nodeId := id)), [CtrlWord]);
    if r != Ok then (r, s1)
    else
      var (r2, s2) := UlStat(env, s1);
      if r2 != Ok then (r2, s2)
      else
        var (r3, s3) := UlObjs(env, s2, INIT_OBJS);
        if r3 != Ok then (r3, s3)
        else
          var (r4, min, l4) := UlLimit(env, s3.line, MinPos);
          if r4 != Ok then (r4, s3.(line := l4))
          else
            var (r5, max, l5) := UlLimit(env, l4, MaxPos);
            if r5 != Ok then (r5, s3.(line := l5))
            else (Ok, Session(WithLimits(s3.drive, min, max, margin), l5))
  }

  // ----- operation mode -----

  const MODE_VELOCITY: int := 2
  const TRANSMISSION_EVENT_DRIVEN: int := 0xFF

  const VL_TARGET_VELOCITY := Obj(0x6042, 0, "vl target velocity", Integer16)

  /** The ramp bits of the velocity mode. */
  const USE_RAMP := Command(0xFFFF, VL_RFG)

  function ModeRequest(rpdo: u8): Pdo.Request
  {
    Pdo.Request(rpdo, Pdo.Dl, TRANSMISSION_EVENT_DRIVEN, -1, -1, [VL_TARGET_VELOCITY])
  }

  /** Write the mode, which needs the halt bit, and then a reference of zero; the mirror of the
      target velocity is not touched. */
  function ChangeMode(env: Env, s: Session, mode: i8): (Status, Session)
  {
    if s.drive.ctrlWord & HALT == 0 then (ErrMotion, s)
    else
      var out := env.out(s.line.log, AskMode(mode));
      var l1 := Step(s.line, WriteMode(mode, out));
      if StatusOf(out) != Ok then (StatusOf(out), s.(line := l1))
      else
        var out2 := env.out(l1.log, AskTarget(0));
        (StatusOf(out2), Session(s.drive.(opMode := mode), Step(l1, WriteTarget(0, out2))))
  }

  /** canmat_402_set_op_mode.  The control word is written even when the remap failed. */
  function SetOpMode(env: Env, s: Session, mode: int): (Status, Session)
  {
    if s.drive.rpdoUser < 0 || s.drive.rpdoUser > 0xFF || mode != MODE_VELOCITY then (ErrParam, s)
    else
      var (r, s1) := if mode != s.drive.opMode then ChangeMode(env, s, mode) else (Ok, s);
      if r != Ok then (r, s1)
      else
        var (remapped, l2) := Pdo.Remap(env, s1.line, ModeRequest(s.drive.rpdoUser));
        var (r3, s3) := DlCtrl(env, s1.(line := l2), USE_RAMP);
        (if r3 != Ok then r3 else remapped, s3)
  }

  method UploadObj(cif: Port, drives: array<Drive>, k: nat, obj: Readable) returns (r: Status)
    requires k < drives.Length
    modifies cif`line, drives
    ensures drives[..] == old(drives[..])[k := drives[k]]
    ensures var out := cif.env.out(old(cif.line.log), AskObj(obj));
            && r == StatusOf(out) && cif.line == Step(old(cif.line), ReadObj(obj, out))
            && drives[k] == if r == Ok then Loaded(old(drives[k]), old(cif.line.dev), obj, out) else old(drives[k])
  {
    var out := cif.env.out(cif.line.log, AskObj(obj));
    r := cif.Transfer(ReadObj(obj, out));
    if r == Ok {
      drives[k] := Loaded(drives[k], cif.line.dev, obj, out);
    }
  }

  method UploadLimit(cif: Port, obj: Readable) returns (r: Status, v: int)
    modifies cif`line
    ensures (r, v, cif.line) == UlLimit(cif.env, old(cif.line), obj)
  {
    var out := cif.env.out(cif.line.log, AskObj(obj));
    v := HeardInt(out, if obj.MinPos? then cif.line.dev.minPos else cif.line.dev.maxPos, 4);
    r := cif.Transfer(ReadObj(obj, out));
  }

  /** Uploads one after the other until one fails. */
  method UploadObjs(cif: Port, drives: array<Drive>, k: nat, objs: seq<Readable>) returns (r: Status)
    requires k < drives.Length
    modifies cif`line, drives
    ensures drives[..] == old(drives[..])[k := drives[k]]
    ensures (r, Session(drives[k], cif.line)) == UlObjs(cif.env, old(Session(drives[k], cif.line)), objs)
    ensures drives[k].posFactor == old(drives[k].posFactor)
    decreases |objs|
  {
    hide Loaded;
    if objs == [] { return Ok; }
    r := UploadObj(cif, drives, k, objs[0]);
    if r != Ok { return; }
    r := UploadObjs(cif, drives, k, objs[1..]);
  }

  /** canmat_402_init. */
  method InitDrive(cif: Port, drives: array<Drive>, k: nat, id: u8, margin: real) returns (r: Status)
    requires k < drives.Length && drives[k].posFactor != 0.0
    modifies cif`line, drives
    ensures drives[..] == old(drives[..])[k := drives[k]]
    ensures (r, Session(drives[k], cif.line)) == Init(cif.env, old(Session(drives[k], cif.line)), id, margin)
  {
    hide UlObjs;
    drives[k] := drives[k].(nodeId := id);
    r := UploadObjs(cif, drives, k, [CtrlWord]);
    if r != Ok { return; }
    r := UploadStatus(cif, drives, k);
    if r != Ok { return; }
    r := UploadObjs(cif, drives, k, INIT_OBJS);
    if r != Ok { return; }
    var min, max;
    r, min := UploadLimit(cif, MinPos);
    if r != Ok { return; }
    r, max := UploadLimit(cif, MaxPos);
    if r != Ok { return; }
    drives[k] := WithLimits(drives[k], min, max, margin);
  }

  method ChangeModeOf(cif: Port, drives: array<Drive>, k: nat, mode: i8) returns (r: Status)
    requires k < drives.Length
    modifies cif`line, drives
    ensures drives[..] == old(drives[..])[k := drives[k]]
    ensures (r, Session(drives[k], cif.line)) == ChangeMode(cif.env, old(Session(drives[k], cif.line)), mode)
  {
    if drives[k].ctrlWord & HALT == 0 {
      return ErrMotion;
    }
    r := cif.Transfer(WriteMode(mode, cif.env.out(cif.line.log, AskMode(mode))));
    if r != Ok { return; }
    drives[k] := drives[k].(opMode := mode);
    r := cif.Transfer(WriteTarget(0, cif.env.out(cif.line.log, AskTarget(0))));
  }

  /** canmat_402_set_op_mode. */
  method SetOpModeOf(cif: Port, drives: array<Drive>, k: nat, mode: int) returns (r: Status)
    requires k < drives.Length
    modifies cif`line, drives
    ensures drives[..] == old(drives[..])[k := drives[k]]
    ensures (r, Session(drives[k], cif.line)) == SetOpMode(cif.env, old(Session(drives[k], cif.line)), mode)
  {
    hide ChangeMode, DlCtrl;
    if drives[k].rpdoUser < 0 || drives[k].rpdoUser > 0xFF || mode != MODE_VELOCITY {
      return ErrParam;
    }
    var rpdo := drives[k].rpdoUser;
    if mode != drives[k].opMode {
      r := ChangeModeOf(cif, drives, k, mode);
      if r != Ok { return; }
    }
    var remapped := Pdo.RemapPdo(cif, ModeRequest(rpdo));
    r := DownloadCtrlMask(cif, drives, k, USE_RAMP);
    if r != Ok { return; }
    r := remapped;
  }
}
