/** The uploads of init, in order, and what they leave in the drive structure when one fails. */
module Ds402Init {
  import opened Can
  import opened Bus
  import opened Ds402
  import opened Ds402Mirror
  import opened Ds402Words

  function AsksOf(objs: seq<Readable>): (asks: seq<Ask>)
  {
    seq(|objs|, k requires 0 <= k < |objs| => AskObj(objs[k]))
  }

  /** The drive structure holds the same of the object. */
  predicate SameOf(d: Drive, e: Drive, obj: Readable)
  {
    match obj
    case CtrlWord => e.ctrlWord == d.ctrlWord
    case Position => e.actualPosRaw == d.actualPosRaw
    case Velocity => e.actualVelRaw == d.actualVelRaw
    case TargetVelocity => e.targetVelRaw == d.targetVelRaw
    case OpMode => e.opMode == d.opMode
    case MinPos | MaxPos => true
  }

  /** The fields that no object of a list is loaded into. */
  predicate SameRest(d: Drive, e: Drive)
  {
    e == d.(ctrlWord := e.ctrlWord, actualPosRaw := e.actualPosRaw, actualVelRaw := e.actualVelRaw,
            targetVelRaw := e.targetVelRaw, opMode := e.opMode)
  }

  /** The number of transfers that succeeded. */
  function Successes(evs: seq<Event>, r: Status): (n: nat)
  {
    if r == Ok || evs == [] then |evs| else |evs| - 1
  }

  /** The uploads of a list, in order up to the first failure: the objects before it are loaded, if no
      answer was mistaken with the values of the device, and nothing else. */
  lemma {:induction false} ListUploads(env: Env, s: Session, objs: seq<Readable>)
    requires forall i, j | 0 <= i < j < |objs| :: objs[i] != objs[j]
    ensures var (r, s') := UlObjs(env, s, objs);
            var evs := Since(s.line, s'.line);
            var n := Successes(evs, r);
            && Longer(s.line, s'.line) && Obeys(evs, AsksOf(objs), r) && SameRest(s.drive, s'.drive)
            && s'.line.dev == s.line.dev && n <= |objs|
            && (forall obj | obj !in objs[..n] :: SameOf(s.drive, s'.drive, obj))
            && (Truthful(evs) ==> forall obj | obj in objs[..n] :: Agrees(s'.drive, s.line.dev, obj))
    decreases |objs|
  {
    hide Obeys, Since, Longer, SameOf, Agrees, Truthful, SameRest, Loaded, Apply;
    if objs == [] {
      NothingSent(s.line, Next(s));
      ObeysNone();
      SameAll(s.drive);
      assert AsksOf(objs) == [];
    } else {
      var ev := ReadObj(objs[0], env.out(s.line.log, AskObj(objs[0])));
      OneUpload(s.line, ev);
      assert AsksOf(objs) == [AskObj(objs[0])] + AsksOf(objs[1..]);
      if Succeeded(ev) {
        var d1 := Loaded(s.drive, s.line.dev, objs[0], ev.out);
        var s1 := Session(d1, Step(s.line, ev));
        var (r, s') := UlObjs(env, s1, objs[1..]);
        ListUploads(env, s1, objs[1..]);
        LongerTrans(s.line, s1.line, s'.line);
        var a, b := Since(s.line, s1.line), Since(s1.line, s'.line);
        ObeysThen(a, [AskOf(ev)], b, AsksOf(objs[1..]), r);
        var n := Successes(b, r);
        JoinedSuccesses(ev, b, AsksOf(objs[1..]), r);
        OneLoaded(s.drive, d1, s'.drive, s.line.dev, ev, b, objs, n);
        assert objs[..n + 1] == [objs[0]] + objs[1..][..n];
      } else {
        ObeysFailed([ev], [AskOf(ev)], AsksOf(objs[1..]), StatusOf(ev.out));
        SameAll(s.drive);
        assert objs[..0] == [];
      }
    }
  }

  lemma SameAll(d: Drive)
    ensures SameRest(d, d) && forall obj: Readable :: SameOf(d, d, obj)
  {
  }

  lemma OneUpload(l: Line, ev: Event)
    requires ev.ReadObj?
    ensures var l1 := Step(l, ev);
            Longer(l, l1) && Since(l, l1) == [ev] && l1.dev == l.dev && Obeys([ev], [AskOf(ev)], StatusOf(ev.out))
  {
    assert Since(l, Step(l, ev)) == [ev];
    ObeysOne(ev);
  }

  lemma JoinedSuccesses(ev: Event, b: seq<Event>, q: seq<Ask>, r: Status)
    requires Obeys(b, q, r)
    ensures Successes([ev] + b, r) == 1 + Successes(b, r) && Successes(b, r) <= |q|
  {
  }

  lemma OneLoaded(d: Drive, d1: Drive, e: Drive, dev: Device, ev: Event, b: seq<Event>, objs: seq<Readable>, n: nat)
    requires objs != [] && n <= |objs[1..]| && (forall i, j | 0 <= i < j < |objs| :: objs[i] != objs[j])
    requires ev.ReadObj? && d1 == Loaded(d, dev, objs[0], ev.out) && Succeeded(ev) && SameRest(d1, e)
    requires forall obj | obj !in objs[1..][..n] :: SameOf(d1, e, obj)
    requires Truthful(b) ==> forall obj | obj in objs[1..][..n] :: Agrees(e, dev, obj)
    ensures SameRest(d, e)
    ensures forall obj | obj !in [objs[0]] + objs[1..][..n] :: SameOf(d, e, obj)
    ensures Truthful([ev] + b) ==> forall obj | obj in [objs[0]] + objs[1..][..n] :: Agrees(e, dev, obj)
  {
    hide Truthful, SameOf, SameRest, Agrees, Loaded;
    var o := objs[0];
    LoadedSame(d, dev, o, ev.out);
    RestTrans(d, d1, e);
    assert o !in objs[1..][..n];
    forall obj | obj !in [o] + objs[1..][..n]
      ensures SameOf(d, e, obj)
    {
      SameTrans(d, d1, e, obj);
    }
    if Truthful([ev] + b) {
      TruthfulParts(ev, b);
      LoadedAgrees(d, dev, o, ev.out);
      SameAgrees(d1, e, dev, o);
    }
  }

  lemma LoadedSame(d: Drive, dev: Device, o: Readable, out: Outcome)
    ensures SameRest(d, Loaded(d, dev, o, out))
    ensures forall obj | obj != o :: SameOf(d, Loaded(d, dev, o, out), obj)
  {
    hide HeardInt;
  }

  lemma RestTrans(d: Drive, d1: Drive, e: Drive)
    requires SameRest(d, d1) && SameRest(d1, e)
    ensures SameRest(d, e)
  {
  }

  lemma SameTrans(d: Drive, d1: Drive, e: Drive, obj: Readable)
    requires SameOf(d, d1, obj) && SameOf(d1, e, obj)
    ensures SameOf(d, e, obj)
  {
  }

  lemma SameAgrees(d: Drive, e: Drive, dev: Device, obj: Readable)
    requires SameOf(d, e, obj) && Agrees(d, dev, obj)
    ensures Agrees(e, dev, obj)
  {
  }

  /** The uploads of init: control word, status word, position, velocity, target velocity, mode, and
      the two position limits. */
  const INIT_ASKS: seq<Ask> :=
    [AskObj(CtrlWord), AskStat, AskObj(Position), AskObj(Velocity), AskObj(TargetVelocity), AskObj(OpMode),
     AskObj(MinPos), AskObj(MaxPos)]

  /** What n truthful uploads of init leave in the drive structure. */
  predicate LoadedBy(d: Drive, e: Drive, dev: Device, evs: seq<Event>, n: nat)
    requires n <= |evs| && (n >= 2 ==> evs[1].ReadStat?)
  {
    && e.ctrlWord == (if n >= 1 then dev.ctrl else d.ctrlWord)
    && e.statWord == (if n >= 2 then evs[1].word else d.statWord)
    && e.actualPosRaw == (if n >= 3 then dev.position else d.actualPosRaw)
    && e.actualVelRaw == (if n >= 4 then dev.velocity else d.actualVelRaw)
    && e.targetVelRaw == (if n >= 5 then dev.target else d.targetVelRaw)
    && e.opMode == (if n >= 6 then dev.mode else d.opMode)
  }

  /** The limits are those of before. */
  predicate SameLimits(d: Drive, e: Drive)
  {
    && e.posMaxHard == d.posMaxHard && e.posMinHard == d.posMinHard
    && e.posMaxSoft == d.posMaxSoft && e.posMinSoft == d.posMinSoft
  }

  /** What the four lists of init make of the drive structure. */
  lemma FieldsLoaded(d: Drive, e: Drive, dev: Device, n: nat)
    requires n <= 4
    requires forall obj | obj !in INIT_OBJS[..n] :: SameOf(d, e, obj)
    ensures (forall obj | obj in INIT_OBJS[..n] :: Agrees(e, dev, obj)) ==>
              && e.ctrlWord == d.ctrlWord
              && e.actualPosRaw == (if n >= 1 then dev.position else d.actualPosRaw)
              && e.actualVelRaw == (if n >= 2 then dev.velocity else d.actualVelRaw)
              && e.targetVelRaw == (if n >= 3 then dev.target else d.targetVelRaw)
              && e.opMode == (if n >= 4 then dev.mode else d.opMode)
  {
    var objs := INIT_OBJS[..n];
    assert objs == if n == 0 then [] else if n == 1 then [Position] else if n == 2 then [Position, Velocity]
                   else if n == 3 then [Position, Velocity, TargetVelocity]
                   else [Position, Velocity, TargetVelocity, OpMode];
    assert SameOf(d, e, CtrlWord);
    assert n >= 1 ==> Position in objs;
    assert n >= 2 ==> Velocity in objs;
    assert n >= 3 ==> TargetVelocity in objs;
    assert n >= 4 ==> OpMode in objs;
    assert n < 1 ==> SameOf(d, e, Position);
    assert n < 2 ==> SameOf(d, e, Velocity);
    assert n < 3 ==> SameOf(d, e, TargetVelocity);
    assert n < 4 ==> SameOf(d, e, OpMode);
  }

  lemma FirstLoaded(d: Drive, e: Drive, dev: Device, n: nat)
    requires n <= 1
    requires forall obj | obj !in [CtrlWord][..n] :: SameOf(d, e, obj)
    ensures (forall obj | obj in [CtrlWord][..n] :: Agrees(e, dev, obj)) ==>
              e.ctrlWord == (if n >= 1 then dev.ctrl else d.ctrlWord)
    ensures forall obj | obj in INIT_OBJS :: SameOf(d, e, obj)
  {
    assert [CtrlWord][..n] == if n == 0 then [] else [CtrlWord];
    assert n >= 1 ==> CtrlWord in [CtrlWord][..n];
    assert n < 1 ==> SameOf(d, e, CtrlWord);
  }

  lemma StatusUpload(env: Env, s: Session)
    ensures var (r, s1) := UlStat(env, s);
            var evs := Since(s.line, s1.line);
            && Longer(s.line, s1.line) && Obeys(evs, [AskStat], r) && s1.line.dev == s.line.dev
            && |evs| == 1 && evs[0].ReadStat?
            && s1.drive == if r == Ok then s.drive.(statWord := evs[0].word) else s.drive
  {
    var ev := ReadStat(env.stat(s.line.log), env.out(s.line.log, AskStat));
    assert Since(s.line, Step(s.line, ev)) == [ev];
    ObeysOne(ev);
  }

  lemma LimitUpload(env: Env, l: Line, obj: Readable)
    ensures var (r, v, l1) := UlLimit(env, l, obj);
            Longer(l, l1) && Obeys(Since(l, l1), [AskObj(obj)], r) && l1.dev == l.dev
  {
    OneUpload(l, ReadObj(obj, env.out(l.log, AskObj(obj))));
  }

  /** The state of init after some of its uploads. */
  predicate Reached(s: Session, s': Session, evs: seq<Event>, n: nat)
  {
    && Longer(s.line, s'.line) && evs == Since(s.line, s'.line) && n <= |evs| <= 8 && s'.line.dev == s.line.dev
    && (n >= 2 ==> evs[1].ReadStat?) && SameLimits(s.drive, s'.drive) && s'.drive.nodeId == s.drive.nodeId
    && s'.drive.posFactor == s.drive.posFactor
    && (Truthful(evs) ==> LoadedBy(s.drive, s'.drive, s.line.dev, evs, n))
  }

  /** Control and status word. */
  lemma WordsUploaded(env: Env, s: Session)
    ensures var (r, s1) := UlObjs(env, s, [CtrlWord]);
            var evs := Since(s.line, s1.line);
            && Obeys(evs, [AskObj(CtrlWord)], r) && Reached(s, s1, evs, Successes(evs, r))
            && (r == Ok ==>
                  var (r2, s2) := UlStat(env, s1);
                  var evs2 := Since(s.line, s2.line);
                  Obeys(evs2, [AskObj(CtrlWord), AskStat], r2) && Reached(s, s2, evs2, Successes(evs2, r2)))
  {
    hide UlObjs, UlStat, Since, Obeys, Longer, SameOf, Agrees, Truthful;
    ListUploads(env, s, [CtrlWord]);
    var (r, s1) := UlObjs(env, s, [CtrlWord]);
    var a := Since(s.line, s1.line);
    assert AsksOf([CtrlWord]) == [AskObj(CtrlWord)];
    ObeysSize(a, [AskObj(CtrlWord)], r);
    FirstLoaded(s.drive, s1.drive, s.line.dev, Successes(a, r));
    LoadedFirst(s, s1, a, Successes(a, r));
    if r == Ok {
      StatusUpload(env, s1);
      var (r2, s2) := UlStat(env, s1);
      var b := Since(s1.line, s2.line);
      LongerTrans(s.line, s1.line, s2.line);
      ObeysThen(a, [AskObj(CtrlWord)], b, [AskStat], r2);
      assert [AskObj(CtrlWord)] + [AskStat] == [AskObj(CtrlWord), AskStat];
      TruthfulEnds(a, b);
    }
  }

  lemma LoadedFirst(s: Session, s1: Session, a: seq<Event>, n: nat)
    requires n <= |a| && n <= 1 && SameRest(s.drive, s1.drive)
    requires forall obj | obj in INIT_OBJS :: SameOf(s.drive, s1.drive, obj)
    requires Truthful(a) ==> s1.drive.ctrlWord == (if n >= 1 then s.line.dev.ctrl else s.drive.ctrlWord)
    ensures Truthful(a) ==> LoadedBy(s.drive, s1.drive, s.line.dev, a, n)
    ensures SameLimits(s.drive, s1.drive)
  {
    hide Truthful;
    assert Position in INIT_OBJS && Velocity in INIT_OBJS && TargetVelocity in INIT_OBJS && OpMode in INIT_OBJS;
  }

  lemma TruthfulEnds(a: seq<Event>, b: seq<Event>)
    ensures Truthful(a + b) ==> Truthful(a) && Truthful(b)
  {
    if Truthful(a + b) {
      assert forall ev | ev in a :: ev in a + b;
      assert forall ev | ev in b :: ev in a + b;
    }
  }

  /** The list behind the words. */
  lemma ListUploaded(env: Env, s: Session, s2: Session)
    requires var evs := Since(s.line, s2.line);
             Obeys(evs, [AskObj(CtrlWord), AskStat], Ok) && Reached(s, s2, evs, 2)
    ensures var (r, s3) := UlObjs(env, s2, INIT_OBJS);
            var evs := Since(s.line, s3.line);
            Obeys(evs, INIT_ASKS[..6], r) && Reached(s, s3, evs, Successes(evs, r))
  {
    hide UlObjs, Since, Obeys, Longer, SameOf, Agrees, Truthful;
    ListUploads(env, s2, INIT_OBJS);
    var (r, s3) := UlObjs(env, s2, INIT_OBJS);
    var a, b := Since(s.line, s2.line), Since(s2.line, s3.line);
    assert AsksOf(INIT_OBJS) == [AskObj(Position), AskObj(Velocity), AskObj(TargetVelocity), AskObj(OpMode)];
    ObeysSize(a, [AskObj(CtrlWord), AskStat], Ok);
    ObeysSize(b, AsksOf(INIT_OBJS), r);
    LongerTrans(s.line, s2.line, s3.line);
    ObeysThen(a, [AskObj(CtrlWord), AskStat], b, AsksOf(INIT_OBJS), r);
    assert INIT_ASKS[..6] == [AskObj(CtrlWord), AskStat] + AsksOf(INIT_OBJS);
    FieldsLoaded(s2.drive, s3.drive, s.line.dev, Successes(b, r));
    TruthfulEnds(a, b);
  }

  /** Init uploads its eight objects in order, up to the first failure, which it reports; it changes
      nothing in the device, and it loads what it has uploaded and nothing else, the limits only at the
      end. */
  lemma InitUploads(env: Env, s: Session, id: u8, margin: real)
    requires s.drive.posFactor != 0.0
    ensures var (r, s') := Init(env, s, id, margin);
            var evs := Since(s.line, s'.line);
            var n := Successes(evs, r);
            && Obeys(evs, INIT_ASKS, r) && s'.line.dev == s.line.dev && s'.drive.nodeId == id
            && n <= |evs| && (n >= 2 ==> evs[1].ReadStat?)
            && (Truthful(evs) ==> LoadedBy(s.drive, s'.drive, s.line.dev, evs, n))
            && (r != Ok ==> SameLimits(s.drive, s'.drive))
  {
    hide UlObjs, UlStat, UlLimit, Since, Obeys, Truthful, WithLimits, LoadedBy, SameLimits, Longer;
    var s0 := s.(drive := s.drive.(nodeId := id));
    WordsUploaded(env, s0);
    var (r, s1) := UlObjs(env, s0, [CtrlWord]);
    if r == Ok {
      var (r2, s2) := UlStat(env, s1);
      if r2 == Ok {
        SuccessesOf(Since(s.line, s2.line), [AskObj(CtrlWord), AskStat]);
        ListUploaded(env, s0, s2);
        var (r3, s3) := UlObjs(env, s2, INIT_OBJS);
        if r3 == Ok {
          SuccessesOf(Since(s.line, s3.line), INIT_ASKS[..6]);
          LimitsUploaded(env, s0, s3, margin);
        } else {
          EndsEarly(s0, s3, INIT_ASKS[..6], r3);
        }
      } else {
        EndsEarly(s0, s2, [AskObj(CtrlWord), AskStat], r2);
      }
    } else {
      EndsEarly(s0, s1, [AskObj(CtrlWord)], r);
    }
    SameStart(s, id, Init(env, s, id, margin).1);
  }

  lemma SuccessesOf(evs: seq<Event>, asks: seq<Ask>)
    requires Obeys(evs, asks, Ok)
    ensures Successes(evs, Ok) == |evs| == |asks|
  {
  }

  /** How init ends. */
  predicate InitEnds(s: Session, s': Session, r: Status)
  {
    var evs := Since(s.line, s'.line);
    var n := Successes(evs, r);
    && Obeys(evs, INIT_ASKS, r) && s'.line.dev == s.line.dev && s'.drive.nodeId == s.drive.nodeId
    && n <= |evs| && (n >= 2 ==> evs[1].ReadStat?)
    && (Truthful(evs) ==> LoadedBy(s.drive, s'.drive, s.line.dev, evs, n))
    && (r != Ok ==> SameLimits(s.drive, s'.drive))
  }

  lemma EndsEarly(s: Session, s': Session, asks: seq<Ask>, r: Status)
    requires var evs := Since(s.line, s'.line); Obeys(evs, asks, r) && Reached(s, s', evs, Successes(evs, r))
    requires asks <= INIT_ASKS && r != Ok
    ensures InitEnds(s, s', r)
  {
    hide Obeys, Truthful, LoadedBy, SameLimits, Since;
    assert INIT_ASKS == asks + INIT_ASKS[|asks|..];
    ObeysFailed(Since(s.line, s'.line), asks, INIT_ASKS[|asks|..], r);
  }

  lemma SameStart(s: Session, id: u8, s': Session)
    ensures forall evs: seq<Event>, n: nat | n <= |evs| && (n >= 2 ==> evs[1].ReadStat?) ::
              LoadedBy(s.drive.(nodeId := id), s'.drive, s.line.dev, evs, n)
              == LoadedBy(s.drive, s'.drive, s.line.dev, evs, n)
    ensures SameLimits(s.drive.(nodeId := id), s'.drive) == SameLimits(s.drive, s'.drive)
  {
  }

  /** The two limits, and the end. */
  lemma LimitsUploaded(env: Env, s: Session, s3: Session, margin: real)
    requires s3.drive.posFactor != 0.0
    requires var evs := Since(s.line, s3.line); Obeys(evs, INIT_ASKS[..6], Ok) && Reached(s, s3, evs, 6)
    ensures var (r4, min, l4) := UlLimit(env, s3.line, MinPos);
            if r4 != Ok then InitEnds(s, s3.(line := l4), r4)
            else
              var (r5, max, l5) := UlLimit(env, l4, MaxPos);
              if r5 != Ok then InitEnds(s, s3.(line := l5), r5)
              else InitEnds(s, Session(WithLimits(s3.drive, min, max, margin), l5), Ok)
  {
    hide UlLimit, Since, Obeys, Longer, Truthful, WithLimits, InitEnds, LoadedBy;
    var a := Since(s.line, s3.line);
    var (r4, min, l4) := UlLimit(env, s3.line, MinPos);
    LimitUpload(env, s3.line, MinPos);
    SuccessesOf(a, INIT_ASKS[..6]);
    ObeysLater(s.line, s3.line, l4, 6, r4);
    if r4 != Ok {
      EndsLate(s, s3, s3.(line := l4), r4, 7);
    }
    if r4 == Ok {
      var (r5, max, l5) := UlLimit(env, l4, MaxPos);
      LimitUpload(env, l4, MaxPos);
      ObeysLater(s.line, l4, l5, 7, r5);
      LongerTrans(s3.line, l4, l5);
      if r5 != Ok {
        EndsLate(s, s3, s3.(line := l5), r5, 8);
      } else {
        LimitsOnly(s3.drive, min, max, margin);
        EndsLate(s, s3, Session(WithLimits(s3.drive, min, max, margin), l5), Ok, 8);
      }
    }
  }

  predicate ButLimits(d: Drive, e: Drive)
  {
    e == d.(posMaxHard := e.posMaxHard, posMinHard := e.posMinHard,
            posMaxSoft := e.posMaxSoft, posMinSoft := e.posMinSoft)
  }

  lemma LimitsOnly(d: Drive, min: int, max: int, margin: real)
    requires d.posFactor != 0.0
    ensures ButLimits(d, WithLimits(d, min, max, margin))
  {
    LimitsFit(d, min, max, margin);
  }

  lemma EndsLate(s: Session, s3: Session, s': Session, r: Status, k: nat)
    requires Reached(s, s3, Since(s.line, s3.line), 6) && Longer(s3.line, s'.line) && s'.line.dev == s3.line.dev
    requires 7 <= k <= 8 && (r == Ok ==> k == 8) && Obeys(Since(s.line, s'.line), INIT_ASKS[..k], r)
    requires |Since(s.line, s'.line)| == k
    requires ButLimits(s3.drive, s'.drive) && (r != Ok ==> s'.drive == s3.drive)
    ensures InitEnds(s, s', r)
  {
    hide Truthful, Obeys, LoadedBy, SameLimits, Since;
    var a, b := Since(s.line, s3.line), Since(s3.line, s'.line);
    LongerTrans(s.line, s3.line, s'.line);
    TruthfulEnds(a, b);
    if r != Ok {
      ObeysFailed(a + b, INIT_ASKS[..k], INIT_ASKS[k..], r);
      assert INIT_ASKS == INIT_ASKS[..k] + INIT_ASKS[k..];
    } else {
      assert INIT_ASKS[..8] == INIT_ASKS;
    }
    LoadedLate(s.drive, s3.drive, s'.drive, s.line.dev, a, b, Successes(a + b, r));
  }

  lemma LoadedLate(d: Drive, d3: Drive, e: Drive, dev: Device, a: seq<Event>, b: seq<Event>, n: nat)
    requires 6 <= |a| && 6 <= n <= |a + b| && a[1].ReadStat? && ButLimits(d3, e)
    ensures LoadedBy(d, d3, dev, a, 6) ==> LoadedBy(d, e, dev, a + b, n)
  {
  }

  lemma ObeysLater(a: Line, b: Line, c: Line, n: nat, r: Status)
    requires n < 8 && Longer(a, b) && Longer(b, c)
    requires Obeys(Since(a, b), INIT_ASKS[..n], Ok) && Obeys(Since(b, c), [INIT_ASKS[n]], r)
    ensures Longer(a, c) && Obeys(Since(a, c), INIT_ASKS[..n + 1], r) && |Since(a, c)| == n + 1
  {
    hide Since, Obeys, Longer;
    ObeysSize(Since(a, b), INIT_ASKS[..n], Ok);
    ObeysSize(Since(b, c), [INIT_ASKS[n]], r);
    LongerTrans(a, b, c);
    ObeysThen(Since(a, b), INIT_ASKS[..n], Since(b, c), [INIT_ASKS[n]], r);
    assert INIT_ASKS[..n + 1] == INIT_ASKS[..n] + [INIT_ASKS[n]];
  }
}
