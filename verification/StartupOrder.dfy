/** The order of start-up: what is sent to a drive in which phase, and that a phase begins only when the
    one before is done. */
module StartupOrder {
  import opened Can
  import opened Bus
  import opened Ds402
  import opened Ds402Mirror
  import opened Ds402Words
  import opened Ds402Init
  import opened PdoEntries
  import opened Startup
  import opened Mapping
  import Pdo
  import PdoSafety

  /** An upload or a download of a PDO record or map with one of the indices. */
  predicate OfEntries(ev: Event, indices: set<int>) { (ev.Read? || ev.Write?) && ev.e.index in indices }

  predicate OfMode(ev: Event, indices: set<int>)
  {
    ev.WriteMode? || ev.WriteTarget? || ev.WriteCtrl? || OfEntries(ev, indices)
  }

  predicate AllOfMode(evs: seq<Event>, rpdo: int)
  {
    forall ev | ev in evs :: OfMode(ev, {0x1400 + rpdo, 0x1600 + rpdo})
  }

  lemma OfModeThen(a: Line, b: Line, c: Line, rpdo: int)
    requires Longer(a, b) && Longer(b, c) && AllOfMode(Since(a, b), rpdo) && AllOfMode(Since(b, c), rpdo)
    ensures Longer(a, c) && AllOfMode(Since(a, c), rpdo)
  {
    hide OfMode, Since, Longer;
    LongerTrans(a, b, c);
  }

  predicate OfStart(ev: Event) { ev.ReadStat? || ev.WriteCtrl? || ev.SendNmt? }

  lemma GrownLonger(env: Env, l: Line, l': Line)
    requires Grown(env, l, l')
    ensures Longer(l, l')
  {
  }

  // ----- the remaps -----

  function IndicesOf(req: Pdo.Request): set<int>
  {
    if req.dir == Pdo.Ul then {0x1800 + req.pdo, 0x1A00 + req.pdo} else {0x1400 + req.pdo, 0x1600 + req.pdo}
  }

  /** One remap stays with its indices, and gives up at the first failure. */
  lemma OneRemapEvents(env: Env, l: Line, req: Pdo.Request)
    requires |req.objs| < 0xFF
    ensures var (r, l') := Pdo.Remap(env, l, req);
            var evs := Since(l, l');
            && Longer(l, l') && Prompt(evs) && (r == Ok ==> AllSucceeded(evs) && evs != [])
            && (forall ev | ev in evs :: OfEntries(ev, IndicesOf(req)))
  {
    hide Pdo.Remap, Longer, Grown, Prompt, AllSucceeded;
    PdoSafety.RemapGrows(env, l, req);
    GrownLonger(env, l, Pdo.Remap(env, l, req).1);
    RemapRefuses(env, l, req);
    var evs := PdoSafety.Events(env, l, req);
    forall ev | ev in evs
      ensures OfEntries(ev, IndicesOf(req))
    {
      var k :| 0 <= k < |evs| && evs[k] == ev;
      RemapTouches(env, l, req, k);
    }
  }

  lemma {:induction false} RemapsEvents(env: Env, l: Line, reqs: seq<Pdo.Request>, indices: set<int>)
    requires forall req | req in reqs :: |req.objs| < 0xFF && IndicesOf(req) <= indices
    ensures var (r, l') := Remaps(env, l, reqs);
            var evs := Since(l, l');
            && Longer(l, l') && Prompt(evs) && (r == Ok ==> AllSucceeded(evs))
            && (r == Ok && reqs != [] ==> evs != [])
            && (forall ev | ev in evs :: OfEntries(ev, indices))
    decreases |reqs|
  {
    hide Pdo.Remap, Longer, Prompt, AllSucceeded, Since, IndicesOf;
    if reqs == [] {
      NoEvents(l);
    } else {
      var (r, l1) := Pdo.Remap(env, l, reqs[0]);
      OneRemapEvents(env, l, reqs[0]);
      if r == Ok {
        var l' := Remaps(env, l1, reqs[1..]).1;
        RemapsEvents(env, l1, reqs[1..], indices);
        LongerTrans(l, l1, l');
        PromptJoin(Since(l, l1), Since(l1, l'));
      }
    }
  }

  lemma NoEvents(l: Line)
    ensures Longer(l, l) && Since(l, l) == [] && Prompt([]) && AllSucceeded([])
  {
  }

  // ----- the mode call -----

  lemma ModeEvents(env: Env, s: Session, mode: int)
    ensures var (r, s') := SetOpMode(env, s, mode);
            var rpdo := s.drive.rpdoUser;
            && Longer(s.line, s'.line)
            && AllOfMode(Since(s.line, s'.line), rpdo)
            && (r == Ok ==> WordLast(s.line, s'.line, s.drive.ctrlWord | 0x0070, Ok))
  {
    hide ChangeMode, MapThenRamp, Since, Longer, OfMode, AllOfMode, WordLast, SetOpMode;
    var rpdo := s.drive.rpdoUser;
    NoneOfMode(s.line, rpdo);
    ModeParts(env, s, mode);
    if 0 <= rpdo <= 0xFF && mode == 2 {
      var s1 := if mode != s.drive.opMode then ChangeMode(env, s, mode) else (Ok, s);
      ChangeEvents(env, s, mode, rpdo);
      if s1.0 == Ok {
        MappedEvents(env, s1.1, rpdo);
        var s3 := MapThenRamp(env, s1.1, rpdo).1;
        OfModeThen(s.line, s1.1.line, s3.line, rpdo);
        LastWord(s.line, s1.1.line, s3.line, s.drive.ctrlWord | 0x0070);
      }
    }
  }

  lemma NoneOfMode(l: Line, rpdo: int)
    ensures Longer(l, l) && AllOfMode(Since(l, l), rpdo)
  {
  }

  /** The remap of the user RPDO and the ramp bits. */
  lemma MappedEvents(env: Env, s: Session, rpdo: u8)
    ensures var (r3, s3) := MapThenRamp(env, s, rpdo);
            && Longer(s.line, s3.line)
            && AllOfMode(Since(s.line, s3.line), rpdo)
            && WordLast(s.line, s3.line, s.drive.ctrlWord | 0x0070, r3)
  {
    hide DlCtrl, Pdo.Remap, Since, Longer, OfMode, WordLast, Prompt, AllSucceeded, AllOfMode;
    var req := ModeRequest(rpdo);
    var l2 := Pdo.Remap(env, s.line, req).1;
    OneRemapEvents(env, s.line, req);
    EntriesOfMode(Since(s.line, l2), rpdo);
    RampEvents(env, s.(line := l2), rpdo);
    OfModeThen(s.line, l2, DlCtrl(env, s.(line := l2), USE_RAMP).1.line, rpdo);
    RemapThenWord(env, s, rpdo);
  }

  lemma LastWord(a: Line, b: Line, c: Line, w: bv16)
    requires Longer(a, b)
    ensures forall r: Status | WordLast(b, c, w, r) :: WordLast(a, c, w, r)
  {
  }

  lemma EntriesOfMode(evs: seq<Event>, rpdo: int)
    requires forall ev | ev in evs :: OfEntries(ev, {0x1400 + rpdo, 0x1600 + rpdo})
    ensures AllOfMode(evs, rpdo)
  {
    hide OfEntries;
  }

  lemma ChangeEvents(env: Env, s: Session, mode: i8, rpdo: int)
    ensures var s1 := ChangeMode(env, s, mode).1;
            && Longer(s.line, s1.line) && AllOfMode(Since(s.line, s1.line), rpdo)
            && s1.drive.ctrlWord == s.drive.ctrlWord && s1.drive.rpdoUser == s.drive.rpdoUser
  {
    hide ChangeMode, Longer, Since;
    if s.drive.ctrlWord & 0x0100 != 0 {
      ChangeModeSends(env, s, mode);
    } else {
      NoChange(env, s, mode);
      NoEvents(s.line);
    }
  }

  lemma NoChange(env: Env, s: Session, mode: i8)
    requires s.drive.ctrlWord & 0x0100 == 0
    ensures ChangeMode(env, s, mode) == (ErrMotion, s)
  {
  }

  lemma RampEvents(env: Env, s: Session, rpdo: int)
    ensures var s1 := DlCtrl(env, s, USE_RAMP).1;
            Longer(s.line, s1.line) && AllOfMode(Since(s.line, s1.line), rpdo)
  {
    hide DlCtrl, Longer, Since;
    CtrlSends(env, s, USE_RAMP);
  }

  // ----- start -----

  lemma TurnEvents(env: Env, s: Session)
    ensures var t := React(env, s);
            Longer(s.line, t.s.line) && forall ev | ev in Since(s.line, t.s.line) :: OfStart(ev)
  {
    hide React, StateOf, Longer, Since, TurnEnds;
    TurnFails(env, s);
    TurnSends(env, s);
    NothingSent(s.line, React(env, s));
    if StateOf(s.drive.statWord) == OperationEnabled || StateOf(s.drive.statWord) == Unknown {
      assert React(env, s).s == s;
    }
  }

  lemma {:induction false} LoopEvents(env: Env, s: Session, n: nat)
    ensures var s' := StartLoop(env, s, n).1;
            Longer(s.line, s'.line) && forall ev | ev in Since(s.line, s'.line) :: OfStart(ev)
    ensures n > 0 ==> Since(s.line, StartLoop(env, s, n).1.line) != []
    decreases n
  {
    hide React, UlStat, Longer, Since, OfStart;
    NoEvents(s.line);
    if n > 0 {
      var (r, s1) := UlStat(env, s);
      PollEvents(env, s);
      if r == Ok {
        var t := React(env, s1);
        TurnEvents(env, s1);
        LongerTrans(s.line, s1.line, t.s.line);
        if t.Next? {
          LoopEvents(env, t.s, n - 1);
          LongerTrans(s.line, t.s.line, StartLoop(env, t.s, n - 1).1.line);
        }
      }
    }
  }

  lemma PollEvents(env: Env, s: Session)
    ensures var s1 := UlStat(env, s).1;
            && Longer(s.line, s1.line) && Since(s.line, s1.line) != []
            && forall ev | ev in Since(s.line, s1.line) :: OfStart(ev)
  {
    hide Longer, Since;
    StatusUpload(env, s);
  }

  // ----- start-up -----

  /** The first of the eight uploads of init. */
  predicate UploadsOfInit(evs: seq<Event>)
  {
    |evs| <= 8 && forall k | 0 <= k < |evs| :: AskOf(evs[k]) == INIT_ASKS[k]
  }

  lemma InitPart(env: Env, s: Session, id: u8, margin: real)
    requires s.drive.posFactor != 0.0
    ensures var (r, s1) := Init(env, s, id, margin);
            var evs := Since(s.line, s1.line);
            && Longer(s.line, s1.line) && SamePdos(s.drive, s1.drive) && Prompt(evs)
            && UploadsOfInit(evs)
            && (r == Ok ==> |evs| == 8 && AllSucceeded(evs))
  {
    hide Init, Longer, Grown, LoadedBy, SamePdos, SameLimits, Truthful, Prompt, AllSucceeded, Since;
    InitGrows(env, s, id, margin);
    GrownLonger(env, s.line, Init(env, s, id, margin).1.line);
    InitUploads(env, s, id, margin);
    InitSamePdos(env, s, id, margin);
  }

  lemma InitSamePdos(env: Env, s: Session, id: u8, margin: real)
    requires s.drive.posFactor != 0.0
    ensures SamePdos(s.drive, Init(env, s, id, margin).1.drive)
  {
    hide UlObjs, Grown, Truthful, Agrees;
    var s0 := s.(drive := s.drive.(nodeId := id));
    UlObjsLoads(env, s0, [CtrlWord]);
    var s1 := UlObjs(env, s0, [CtrlWord]).1;
    UlObjsLoads(env, UlStat(env, s1).1, INIT_OBJS);
  }

  /** The indices of the first three maps. */
  function MapIndices(d: Drive, tpdoStat: int): set<int>
  {
    FirstIndices(d.rpdoCtrl % 0x100, d.tpdoUser % 0x100, if tpdoStat >= 0 then tpdoStat % 0x100 else -1)
  }

  lemma RequestIndices(d: Drive, e: Drive, tpdoStat: int)
    requires SamePdos(d, e)
    ensures forall req | req in MapRequests(e, tpdoStat) :: IndicesOf(req) <= MapIndices(d, tpdoStat)
    ensures MapRequests(e, tpdoStat) != []
  {
  }

  lemma LastEvent(a: Line, b: Line, w: bv16)
    requires Longer(a, b) && WordLast(a, b, w | 0x0070, Ok)
    ensures var evs := Since(a, b);
            && evs != [] && evs[|evs| - 1].WriteCtrl? && evs[|evs| - 1].ctrl & 0x0070 == 0x0070
            && Succeeded(evs[|evs| - 1])
  {
    assert (w | 0x0070) & 0x0070 == 0x0070;
  }

  /** Start-up of one drive, whatever becomes of it: first the eight uploads of init, then uploads and
      downloads of the records of the control RPDO, the user TPDO and the status TPDO, then mode, zero
      reference, user RPDO and the control word with the ramp bits, then status polls, control words and
      NMT starts; no phase begins before all transfers of the first two have succeeded, the last not
      before the ramp bits were acknowledged, and only a start-up that gets there succeeds. */
  lemma BootInOrder(env: Env, s: Session, id: u8, margin: real, tpdoStat: int)
      returns (a: seq<Event>, b: seq<Event>, c: seq<Event>, d: seq<Event>)
    requires s.drive.posFactor != 0.0
    ensures var (r, s') := Boot(env, s, id, margin, tpdoStat);
            Since(s.line, s'.line) == a + b + c + d && (r == Ok ==> d != [])
    ensures UploadsOfInit(a)
    ensures Prompt(a) && Prompt(b) && (b + c + d != [] ==> |a| == 8 && AllSucceeded(a))
    ensures forall ev | ev in b :: OfEntries(ev, MapIndices(s.drive, tpdoStat))
    ensures c + d != [] ==> b != [] && AllSucceeded(b)
    ensures AllOfMode(c, s.drive.rpdoUser)
    ensures d != [] ==> c != [] && c[|c| - 1].WriteCtrl? && c[|c| - 1].ctrl & 0x0070 == 0x0070 && Succeeded(c[|c| - 1])
    ensures forall ev | ev in d :: OfStart(ev)
  {
    hide Init, Remaps, SetOpMode, StartLoop, Since, Longer, OfEntries, OfMode, OfStart, MapRequests, MapIndices;
    hide Prompt, AllSucceeded, WordLast, UploadsOfInit;
    var (r, s1) := Init(env, s, id, margin);
    a, b, c, d := Since(s.line, s1.line), [], [], [];
    NoEvents(s.line);
    InitPart(env, s, id, margin);
    if r == Ok {
      var reqs := MapRequests(s1.drive, tpdoStat);
      var (r2, l2) := Remaps(env, s1.line, reqs);
      RequestIndices(s.drive, s1.drive, tpdoStat);
      RemapsEvents(env, s1.line, reqs, MapIndices(s.drive, tpdoStat));
      b := Since(s1.line, l2);
      LongerTrans(s.line, s1.line, l2);
      if r2 == Ok {
        var s2 := s1.(line := l2);
        var (r3, s3) := SetOpMode(env, s2, MODE_VELOCITY);
        ModeEvents(env, s2, MODE_VELOCITY);
        c := Since(l2, s3.line);
        LongerTrans(s.line, l2, s3.line);
        if r3 == Ok {
          var s' := Start(env, s3).1;
          LoopEvents(env, s3, MAX_POLLS);
          d := Since(s3.line, s'.line);
          LongerTrans(s.line, s3.line, s'.line);
          LastEvent(l2, s3.line, s2.drive.ctrlWord);
        }
      }
    }
  }
}
