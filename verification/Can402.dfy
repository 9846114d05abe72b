/** The multi-drive velocity daemon: halting all drives, and turning reference messages into
    velocity PDOs. */
module Can402 {
  import opened Can
  import opened Ds402
  import opened PosLimit

  // ----- sending process data -----

  /** One PDO handed to the interface, and whether that worked. */
  datatype Sent = Sent(cobId: u32, value: u16, ok: bool)

  /** The drives as the PDOs reach them: the object behind each RPDO, and the PDOs sent so far.
      The n-th send succeeds if `works(n)`. */
  datatype Air = Air(objects: map<u32, u16>, sent: seq<Sent>)

  type Works = nat -> bool

  function SendRpdo(works: Works, a: Air, node: u8, num: u8, value: u16): (bool, Air)
  {
    var id, ok := RpdoCobId(node, num), works(|a.sent|);
    (ok, Air(if ok then a.objects[id := value] else a.objects, a.sent + [Sent(id, value, ok)]))
  }

  /** The casts of the PDO numbers to uint8_t. */
  function CtrlId(d: Drive): u32 { RpdoCobId(d.nodeId, d.rpdoCtrl % 0x100) }

  function UserId(d: Drive): u32 { RpdoCobId(d.nodeId, d.rpdoUser % 0x100) }

  /** The daemon's drives and halt flag, with the drives on the other side. */
  datatype Fleet = Fleet(drives: seq<Drive>, halt: bool, air: Air)

  // ----- halting -----

  function HaltWord(w: bv16, halt: bool): bv16 { if halt then w | HALT else w & !HALT }

  predicate Halted(d: Drive) { d.ctrlWord & HALT != 0 }

  /** halt, from drive i on.  A failed un-halt turns into a halt of all drives. */
  function HaltFrom(works: Works, f: Fleet, halt: bool, i: nat): (r: Fleet)
    requires i <= |f.drives|
    ensures |r.drives| == |f.drives|
    decreases !halt, |f.drives| - i
  {
    if i == |f.drives| then f.(halt := halt)
    else
      var d := f.drives[i];
      if halt == Halted(d) then HaltFrom(works, f, halt, i + 1)
      else
        var word := HaltWord(d.ctrlWord, halt);
        var (ok, a) := SendRpdo(works, f.air, d.nodeId, d.rpdoCtrl % 0x100, word as int);
        if ok then
          HaltFrom(works, f.(drives := f.drives[i := d.(ctrlWord := word)], air := a), halt, i + 1)
        else if !halt then HaltFrom(works, f.(air := a), true, 0)
        else HaltFrom(works, f.(air := a), halt, i + 1)
  }

  function Halt(works: Works, f: Fleet, halt: bool): Fleet { HaltFrom(works, f, halt, 0) }

  // ----- reference messages -----

  datatype Mode = Velocities | PosOffsets | OtherMode

  datatype Message = Message(expired: bool, mode: Mode, u: seq<real>)

  /** One drive's part of a velocity message: limit, saturate, and send if the target changed. */
  function Drive1(works: Works, f: Fleet, i: nat, ref: real): (g: Fleet)
    requires i < |f.drives|
    ensures |g.drives| == |f.drives|
  {
    var d := f.drives[i];
    var target := Target(d, ref);
    if target == d.targetVelRaw then f
    else
      var (ok, a) := SendRpdo(works, f.air, d.nodeId, d.rpdoUser % 0x100, Bits16(target));
      if ok then f.(drives := f.drives[i := d.(targetVelRaw := target)], air := a) else f.(air := a)
  }

  function DriveFrom(works: Works, f: Fleet, u: seq<real>, i: nat): (g: Fleet)
    requires i <= |u| == |f.drives|
    ensures |g.drives| == |f.drives|
    decreases |u| - i
  {
    if i == |u| then f else DriveFrom(works, Drive1(works, f, i, u[i]), u, i + 1)
  }

  function WithOffsets(drives: seq<Drive>, u: seq<real>): seq<Drive>
    requires |drives| == |u|
  {
    seq(|u|, i requires 0 <= i < |u| => drives[i].(posOffset := u[i]))
  }

  /** process; get_msg has checked that the message has one value per drive. */
  function Process(works: Works, f: Fleet, msg: Message): (g: Fleet)
    requires |msg.u| == |f.drives|
    ensures |g.drives| == |f.drives|
  {
    if msg.expired then f
    else match msg.mode
      case Velocities =>
        var f1 := Halt(works, f, false);
        if f1.halt then f1 else DriveFrom(works, f1, msg.u, 0)
      case PosOffsets => f.(drives := WithOffsets(f.drives, msg.u))
      case OtherMode => f
  }

  /** struct can402_cx. */
  class Daemon {
    const drives: array<Drive>
    var halt: bool
    var air: Air
    const works: Works

    constructor (drives: array<Drive>, air: Air, works: Works)
      ensures this.drives == drives && this.works == works && View() == Fleet(drives[..], true, air)
    {
      this.drives, this.halt, this.air, this.works := drives, true, air, works;
    }

    function View(): Fleet
      reads this, drives
    {
      Fleet(drives[..], halt, air)
    }

    method Send(node: u8, num: u8, value: u16) returns (ok: bool)
      modifies this`air
      ensures (ok, air) == SendRpdo(works, old(air), node, num, value)
    {
      var (good, a) := SendRpdo(works, air, node, num, value);
      ok, air := good, a;
    }

    /** halt. */
    method SetHalt(isHalt: bool)
      modifies this, drives
      ensures View() == Halt(works, old(View()), isHalt)
      decreases !isHalt
    {
      hide HaltWord, SendRpdo;
      var i := 0;
      while i < drives.Length
        invariant 0 <= i <= drives.Length
        invariant Halt(works, old(View()), isHalt) == HaltFrom(works, View(), isHalt, i)
      {
        var halted := Halted(drives[i]);
        if (isHalt && !halted) || (!isHalt && halted) {
          var word := HaltWord(drives[i].ctrlWord, isHalt);
          ghost var f := View();
          var ok := Send(drives[i].nodeId, drives[i].rpdoCtrl % 0x100, word as int);
          assert View() == f.(air := air);
          if !ok {
            if !isHalt {
              SetHalt(true);
              return;
            }
          } else {
            drives[i] := drives[i].(ctrlWord := word);
            assert View() == f.(drives := f.drives[i := f.drives[i].(ctrlWord := word)], air := air);
          }
        }
        i := i + 1;
      }
      ghost var f := View();
      halt := isHalt;
      assert View() == f.(halt := isHalt);
    }

    /** The velocity loop of process. */
    method SendVelocities(u: seq<real>)
      requires |u| == drives.Length
      modifies this`air, drives
      ensures View() == DriveFrom(works, old(View()), u, 0)
    {
      hide SendRpdo, Target;
      var i := 0;
      while i < |u|
        invariant 0 <= i <= |u|
        invariant DriveFrom(works, old(View()), u, 0) == DriveFrom(works, View(), u, i)
      {
        ghost var f := View();
        var target := Target(drives[i], u[i]);
        if target != drives[i].targetVelRaw {
          var ok := Send(drives[i].nodeId, drives[i].rpdoUser % 0x100, Bits16(target));
          if ok {
            drives[i] := drives[i].(targetVelRaw := target);
            assert View() == f.(drives := f.drives[i := f.drives[i].(targetVelRaw := target)], air := air);
          } else {
            assert View() == f.(air := air);
          }
        }
        assert View() == Drive1(works, f, i, u[i]);
        i := i + 1;
      }
    }

    /** process. */
    method ProcessMessage(msg: Message)
      requires |msg.u| == drives.Length
      modifies this, drives
      ensures View() == Process(works, old(View()), msg)
      ensures msg.expired ==> View() == old(View())
    {
      if msg.expired { return; }
      match msg.mode
      case Velocities =>
        SetHalt(false);
        if halt { return; }
        SendVelocities(msg.u);
      case PosOffsets =>
        var i := 0;
        while i < |msg.u|
          invariant 0 <= i <= |msg.u|
          invariant halt == old(halt) && air == old(air)
          invariant forall j | 0 <= j < |msg.u| ::
                      drives[j] == if j < i then old(drives[j]).(posOffset := msg.u[j]) else old(drives[j])
        {
          drives[i] := drives[i].(posOffset := msg.u[i]);
          i := i + 1;
        }
        assert drives[..] == WithOffsets(old(drives[..]), msg.u);
      case OtherMode =>
    }
  }
}
