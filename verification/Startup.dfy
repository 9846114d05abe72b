/** Start-up of the daemon: init, the remaps, the mode call and start for every drive, and the state
    in which this hands over to the message loop. */
module Startup {
  import opened Can
  import opened Bus
  import opened SdoCodec
  import opened ObjDict
  import opened Ds402
  import opened Ds402Mirror
  import Pdo
  import PdoSafety
  import Can402
  import opened Can402Safety

  const CONTROLWORD := Obj(0x6040, 0, "Controlword", Unsigned16)
  const STATUSWORD := Obj(0x6041, 0, "Statusword", Unsigned16)
  const POSITION := Obj(0x6064, 0, "Position actual value", Integer32)
  const VELOCITY := Obj(0x606C, 0, "Velocity actual value", Integer32)

  /** The three maps: control word, feedback, and status if it is wanted. */
  function MapRequests(d: Drive, tpdoStat: int): (reqs: seq<Pdo.Request>)
    ensures forall req | req in reqs :: |req.objs| < 0xFF
  {
    [Pdo.Request(d.rpdoCtrl % 0x100, Pdo.Dl, 0xFF, -1, -1, [CONTROLWORD]),
     Pdo.Request(d.tpdoUser % 0x100, Pdo.Ul, 0xFE, -1, 10, [POSITION, VELOCITY])]
    + if tpdoStat >= 0 then [Pdo.Request(tpdoStat % 0x100, Pdo.Ul, 0xFE, -1, 10, [STATUSWORD])] else []
  }

  function Remaps(env: Env, l: Line, reqs: seq<Pdo.Request>): (Status, Line)
    requires forall req | req in reqs :: |req.objs| < 0xFF
    decreases |reqs|
  {
    if reqs == [] then (Ok, l)
    else
      var (r, l1) := Pdo.Remap(env, l, reqs[0]);
      if r != Ok then (r, l1) else Remaps(env, l1, reqs[1..])
  }

  /** What init does to one drive; it gives up at the first failure. */
  function Boot(env: Env, s: Session, id: u8, margin: real, tpdoStat: int): (Status, Session)
    requires s.drive.posFactor != 0.0
  {
    var (r, s1) := Init(env, s, id, margin);
    if r != Ok then (r, s1)
    else
      var (r2, l2) := Remaps(env, s1.line, MapRequests(s1.drive, tpdoStat));
      if r2 != Ok then (r2, s1.(line := l2))
      else
        var (r3, s3) := SetOpMode(env, s1.(line := l2), MODE_VELOCITY);
        if r3 != Ok then (r3, s3) else Start(env, s3)
  }

  method RemapAll(cif: Port, reqs: seq<Pdo.Request>) returns (r: Status)
    requires forall req | req in reqs :: |req.objs| < 0xFF
    modifies cif`line
    ensures (r, cif.line) == Remaps(cif.env, old(cif.line), reqs)
  {
    hide Pdo.Remap;
    r := Ok;
    var i := 0;
    while i < |reqs|
      invariant 0 <= i <= |reqs| && r == Ok
      invariant Remaps(cif.env, old(cif.line), reqs) == Remaps(cif.env, cif.line, reqs[i..])
    {
      assert reqs[i..][1..] == reqs[i + 1..];
      r := Pdo.RemapPdo(cif, reqs[i]);
      if r != Ok { return; }
      i := i + 1;
    }
  }

  /** The part of init that concerns one drive. */
  method BootDrive(cif: Port, drives: array<Drive>, k: nat, id: u8, margin: real, tpdoStat: int) returns (r: Status)
    requires k < drives.Length && drives[k].posFactor != 0.0
    modifies cif`line, drives
    ensures drives[..] == old(drives[..])[k := drives[k]]
    ensures (r, Session(drives[k], cif.line)) == Boot(cif.env, old(Session(drives[k], cif.line)), id, margin, tpdoStat)
  {
    hide Init, SetOpMode, Start, MapRequests, Remaps;
    r := InitDrive(cif, drives, k, id, margin);
    if r != Ok { return; }
    r := RemapAll(cif, MapRequests(drives[k], tpdoStat));
    if r != Ok { return; }
    r := SetOpModeOf(cif, drives, k, MODE_VELOCITY);
    if r != Ok { return; }
    r := StartDrive(cif, drives, k);
  }

  // ----- the parts -----

  lemma InitGrows(env: Env, s: Session, id: u8, margin: real)
    requires s.drive.posFactor != 0.0
    ensures Grown(env, s.line, Init(env, s, id, margin).1.line)
  {
    hide UlObjs, WithLimits, Grown, Agrees, Truthful, SamePdos;
    var s0 := s.(drive := s.drive.(nodeId := id));
    UlObjsLoads(env, s0, [CtrlWord]);
    var (r, s1) := UlObjs(env, s0, [CtrlWord]);
    if r == Ok {
      var (r2, s2) := UlStat(env, s1);
      GrownStep(env, s1.line, ReadStat(env.stat(s1.line.log), env.out(s1.line.log, AskStat)));
      GrownTrans(env, s.line, s1.line, s2.line);
      if r2 == Ok {
        UlObjsLoads(env, s2, INIT_OBJS);
        var (r3, s3) := UlObjs(env, s2, INIT_OBJS);
        GrownTrans(env, s.line, s2.line, s3.line);
        if r3 == Ok {
          LimitsGrow(env, s.line, s3.line);
        }
      }
    }
  }

  lemma LimitsGrow(env: Env, l: Line, l3: Line)
    requires Grown(env, l, l3)
    ensures Grown(env, l, UlLimit(env, l3, MinPos).2)
    ensures Grown(env, l, UlLimit(env, UlLimit(env, l3, MinPos).2, MaxPos).2)
  {
    hide Grown;
    var min := ReadObj(MinPos, env.out(l3.log, AskObj(MinPos)));
    var l4 := Step(l3, min);
    var max := ReadObj(MaxPos, env.out(l4.log, AskObj(MaxPos)));
    GrownStep(env, l3, min);
    GrownTrans(env, l, l3, l4);
    GrownStep(env, l4, max);
    GrownTrans(env, l, l4, Step(l4, max));
  }

  lemma {:induction false} RemapsKeep(env: Env, l: Line, reqs: seq<Pdo.Request>)
    requires forall req | req in reqs :: |req.objs| < 0xFF
    ensures var l' := Remaps(env, l, reqs).1;
            Grown(env, l, l') && l'.dev == l.dev.(dict := l'.dev.dict)
    decreases |reqs|
  {
    hide Grown, Pdo.Remap;
    if reqs == [] {
      GrownRefl(env, l);
    } else {
      var (r, l1) := Pdo.Remap(env, l, reqs[0]);
      PdoSafety.RemapGrows(env, l, reqs[0]);
      RemapKeepsCtrl(env, l, reqs[0]);
      if r == Ok {
        RemapsKeep(env, l1, reqs[1..]);
        GrownTrans(env, l, l1, Remaps(env, l1, reqs[1..]).1);
      }
    }
  }

  /** Start changes control words and the status word, and nothing else on either side. */
  predicate OnlyWords(s: Session, s': Session)
  {
    && s'.drive == s.drive.(ctrlWord := s'.drive.ctrlWord, statWord := s'.drive.statWord)
    && s'.line.dev == s.line.dev.(ctrl := s'.line.dev.ctrl)
  }

  lemma {:induction false} StartKeeps(env: Env, s: Session, n: nat)
    ensures OnlyWords(s, StartLoop(env, s, n).1)
    decreases n
  {
    hide Masked, StateOf, React;
    if n > 0 {
      var (r, s1) := UlStat(env, s);
      if r == Ok {
        ReactKeeps(env, s1);
        if React(env, s1).Next? {
          StartKeeps(env, React(env, s1).s, n - 1);
        }
      }
    }
  }

  lemma CtrlKeeps(env: Env, s: Session, c: Command)
    ensures OnlyWords(s, DlCtrl(env, s, c).1) && OnlyWords(s, NmtStart(env, s).1)
  {
    hide Masked;
  }

  lemma OnlyWordsTrans(a: Session, b: Session, c: Session)
    requires OnlyWords(a, b) && OnlyWords(b, c)
    ensures OnlyWords(a, c)
  {
  }

  lemma ReactKeeps(env: Env, s: Session)
    ensures OnlyWords(s, React(env, s).s)
  {
    hide Masked, StateOf, DlCtrl, NmtStart, OnlyWords;
    assert OnlyWords(s, s) by { OnlyWordsRefl(s); }
    CtrlKeeps(env, s, SHUTDOWN);
    CtrlKeeps(env, s, SWITCH_ON_CMD);
    CtrlKeeps(env, s, ENABLE_OP);
    CtrlKeeps(env, s, DISABLE_VOLTAGE);
    var s1 := DlCtrl(env, s, SHUTDOWN).1;
    var s2 := NmtStart(env, s1).1;
    CtrlKeeps(env, s1, SHUTDOWN);
    OnlyWordsTrans(s, s1, s2);
    CtrlKeeps(env, s2, FAULT_RESET);
    OnlyWordsTrans(s, s2, DlCtrl(env, s2, FAULT_RESET).1);
  }

  lemma OnlyWordsRefl(s: Session)
    ensures OnlyWords(s, s)
  {
  }

  /** A start that reports success, no answer being mistaken, keeps the mirror right. */
  lemma StartedMirrors(env: Env, s: Session)
    requires Start(env, s).0 == Ok && Mirrors(s) && Truthful(Since(s.line, Start(env, s).1.line))
    ensures Mirrors(Start(env, s).1) && Grown(env, s.line, Start(env, s).1.line)
  {
    hide HighByte, StartLoop, Truthful, AllSucceeded, Followed, Replay;
    StartHalts(env, s, MAX_POLLS, HighByte(s.drive.ctrlWord));
    AllDone(Since(s.line, Start(env, s).1.line));
    FollowedIsReplay(s.line.dev, Since(s.line, Start(env, s).1.line));
  }

  lemma ModeGrows(env: Env, s: Session, mode: int)
    ensures Grown(env, s.line, SetOpMode(env, s, mode).1.line)
  {
    hide HighByte, SetOpMode, Grown;
    SetModeHalts(env, s, mode, HighByte(s.drive.ctrlWord));
  }

  /** What a successful start-up of a drive leaves, no answer being mistaken: the right mirror of
      the control word, the target velocity as it was on the client's side, and on the device's
      side zeroed if the mode had to change. */
  lemma BootMirrors(env: Env, s: Session, id: u8, margin: real, tpdoStat: int)
    requires s.drive.posFactor != 0.0 && Boot(env, s, id, margin, tpdoStat).0 == Ok
    requires Truthful(Since(s.line, Boot(env, s, id, margin, tpdoStat).1.line))
    ensures var s' := Boot(env, s, id, margin, tpdoStat).1;
            && Mirrors(s') && s'.drive.nodeId == id && SamePdos(s.drive, s'.drive)
            && s'.drive.targetVelRaw == s.line.dev.target
            && s'.line.dev.target == (if s.line.dev.mode == MODE_VELOCITY then s.line.dev.target else 0)
            && (s'.drive.targetVelRaw == s'.line.dev.target
                <==> s.line.dev.mode == MODE_VELOCITY || s.line.dev.target == 0)
  {
    hide Init, Remaps, SetOpMode, Start, Grown, Truthful, Since, MapRequests, SamePdos, PdoSafety.Valid,
         PdoSafety.Active;
    var s1 := Init(env, s, id, margin).1;
    var s2 := s1.(line := Remaps(env, s1.line, MapRequests(s1.drive, tpdoStat)).1);
    var s3 := SetOpMode(env, s2, MODE_VELOCITY).1;
    var s' := Start(env, s3).1;
    InitGrows(env, s, id, margin);
    RemapsKeep(env, s1.line, MapRequests(s1.drive, tpdoStat));
    ModeGrows(env, s2, MODE_VELOCITY);
    StartGrows(env, s3);
    GrownTrans(env, s2.line, s3.line, s'.line);
    GrownTrans(env, s1.line, s2.line, s'.line);
    GrownTrans(env, s.line, s1.line, s'.line);
    TruthfulFour(Since(s.line, s1.line), Since(s1.line, s2.line), Since(s2.line, s3.line), Since(s3.line, s'.line));
    InitMirrors(env, s, id, margin);
    SetOpModeSuccess(env, s2, MODE_VELOCITY);
    StartedMirrors(env, s3);
    KeptByStart(env, s3);
    SamePdosTrans(s, s1, s3, s');
  }

  lemma StartGrows(env: Env, s: Session)
    ensures Grown(env, s.line, Start(env, s).1.line)
  {
    hide HighByte, StartLoop, Grown;
    StartHalts(env, s, MAX_POLLS, HighByte(s.drive.ctrlWord));
  }

  lemma KeptByStart(env: Env, s: Session)
    ensures OnlyWords(s, Start(env, s).1)
  {
    StartKeeps(env, s, MAX_POLLS);
  }

  lemma SamePdosTrans(s: Session, s1: Session, s3: Session, s': Session)
    requires SamePdos(s.drive, s1.drive)
    requires s3.drive == s1.drive.(opMode := s3.drive.opMode, ctrlWord := s3.drive.ctrlWord)
    requires OnlyWords(s3, s')
    ensures SamePdos(s.drive, s'.drive) && s'.drive.nodeId == s1.drive.nodeId
    ensures s'.drive.targetVelRaw == s1.drive.targetVelRaw
  {
  }

  lemma TruthfulFour(a: seq<Event>, b: seq<Event>, c: seq<Event>, d: seq<Event>)
    requires Truthful(a + (b + (c + d)))
    ensures Truthful(a) && Truthful(b) && Truthful(c) && Truthful(d)
  {
    TruthfulSplit(a, b, c + d);
    assert forall ev | ev in c :: ev in c + d;
    assert forall ev | ev in d :: ev in c + d;
  }

  // ----- the fleet -----

  /** The start-up of one drive of the daemon. */
  datatype Launch = Launch(env: Env, before: Session, id: u8, margin: real, tpdoStat: int)

  /** It succeeded, and no answer was mistaken. */
  ghost predicate Booted(e: Launch)
  {
    && e.before.drive.posFactor != 0.0
    && Boot(e.env, e.before, e.id, e.margin, e.tpdoStat).0 == Ok
    && Truthful(Since(e.before.line, Boot(e.env, e.before, e.id, e.margin, e.tpdoStat).1.line))
  }

  function EndOf(e: Launch): Session
    requires e.before.drive.posFactor != 0.0
  {
    Boot(e.env, e.before, e.id, e.margin, e.tpdoStat).1
  }

  /** The daemon after start-up: its drives, halted, and the objects that the devices hold. */
  ghost predicate HandedOver(f: Can402.Fleet, boots: seq<Launch>)
  {
    && f.halt && |f.drives| == |boots|
    && forall i | 0 <= i < |boots| ::
         Booted(boots[i]) && var s, d := EndOf(boots[i]), f.drives[i];
         && d == s.drive
         && Can402.CtrlId(d) in f.air.objects && f.air.objects[Can402.CtrlId(d)] == s.line.dev.ctrl as int
         && Can402.UserId(d) in f.air.objects && f.air.objects[Can402.UserId(d)] == Bits16(s.line.dev.target)
  }

  /** The mode that the device had before start-up did not have to change, or its target was zero. */
  predicate TargetKept(e: Launch)
  {
    e.before.line.dev.mode == MODE_VELOCITY || e.before.line.dev.target == 0
  }

  lemma BitsApart(a: i16, b: i16)
    ensures Bits16(a) == Bits16(b) <==> a == b
  {
  }

  /** Start-up hands over a state in the order that the daemon's safety is about, exactly if no
      drive had to change its mode while it held a target velocity other than zero: the mirror of
      such a target is stale. */
  lemma StartupOrderly(f: Can402.Fleet, boots: seq<Launch>)
    requires HandedOver(f, boots) && Configured(f.drives)
    ensures FlagHonest(f)
    ensures Orderly(f) <==> forall e | e in boots :: TargetKept(e)
  {
    hide Boot, Truthful, SamePdos, Bits16, Configured;
    forall i | 0 <= i < |boots|
      ensures Booted(boots[i]) && f.drives[i].ctrlWord == EndOf(boots[i]).line.dev.ctrl
      ensures Bits16(f.drives[i].targetVelRaw) == Bits16(EndOf(boots[i]).line.dev.target) <==> TargetKept(boots[i])
    {
      var e := boots[i];
      assert e in boots && Booted(e);
      BootMirrors(e.env, e.before, e.id, e.margin, e.tpdoStat);
      BitsApart(e.before.line.dev.target, EndOf(e).line.dev.target);
    }
    if Orderly(f) {
      forall e | e in boots
        ensures TargetKept(e)
      {
        var i :| 0 <= i < |boots| && boots[i] == e;
        assert f.air.objects[Can402.UserId(f.drives[i])] == Bits16(f.drives[i].targetVelRaw);
      }
    }
  }
}
