/** What start-up maps, and what a device makes of its maps: the frames that it builds for feedback
    and what it takes from the frames that the daemon sends. */
module Mapping {
  import opened Can
  import opened Bus
  import opened ObjDict
  import opened Ds402
  import opened Ds402Mirror
  import opened PdoEntries
  import opened Startup
  import Can402
  import Can402Safety
  import Feedback
  import Pdo
  import PdoSafety

  // ----- maps in the dictionary -----

  /** The PDO with the two records is valid, has the transmission type, and maps the words. */
  predicate MapsTo(d: Dict, com: CommIndex, record: CommIndex, transmission: u8, words: seq<u32>)
    requires |words| < 0xFF
  {
    && Get(d, Entry(com, 1)) < 0x8000_0000 && Get(d, Entry(com, 2)) == transmission
    && Get(d, Entry(record, 0)) == |words|
    && forall i | 0 <= i < |words| :: Get(d, Entry(record, i + 1)) == words[i]
  }

  /** Another remap leaves a map alone. */
  lemma MapsKept(d: Dict, d': Dict, com: CommIndex, record: CommIndex, transmission: u8, words: seq<u32>,
                 com': CommIndex, record': CommIndex, req: Pdo.Request)
    requires |words| < 0xFF && |req.objs| < 0xFF
    requires MapsTo(d, com, record, transmission, words) && Remapped(d, d', com', record', req)
    requires com != com' && com != record' && record != com' && record != record'
    ensures MapsTo(d', com, record, transmission, words)
    ensures Get(d', Entry(com, 5)) == Get(d, Entry(com, 5))
  {
  }

  /** A remap with all three options makes its map. */
  lemma RemapMaps(d: Dict, d': Dict, com: CommIndex, record: CommIndex, req: Pdo.Request, words: seq<u32>)
    requires |req.objs| == |words| < 0xFF && 0 <= req.transmission <= 0xFF && com != record
    requires Remapped(d, d', com, record, req)
    requires forall i | 0 <= i < |words| ::
               words[i] == 0x1_0000 * req.objs[i].index + 0x100 * req.objs[i].subindex + Bits(req.objs[i].dtype)
    ensures MapsTo(d', com, record, req.transmission, words)
    ensures req.event >= 0 ==> Get(d', Entry(com, 5)) == req.event
  {
  }

  /** A record keeps its COB-ID but for bit 31, its inhibit time, and without a new one its event timer. */
  predicate RecordKept(d: Dict, d': Dict, com: CommIndex, timer: bool)
  {
    && Get(d', Entry(com, 1)) == Get(d, Entry(com, 1)) % 0x8000_0000
    && Get(d', Entry(com, 3)) == Get(d, Entry(com, 3))
    && (!timer ==> Get(d', Entry(com, 5)) == Get(d, Entry(com, 5)))
  }

  /** What a remap of start-up leaves of the record, and all other indices. */
  ghost predicate OneKept(d: Dict, d': Dict, com: CommIndex, record: CommIndex, timer: bool)
  {
    RecordKept(d, d', com, timer) && KeptBut(d, d', {com, record})
  }

  /** Only entries with one of the indices have changed. */
  ghost predicate KeptBut(d: Dict, d': Dict, indices: set<int>)
  {
    forall e: Entry | e.index !in indices :: Get(d', e) == Get(d, e)
  }

  lemma KeptButTrans(d: Dict, d1: Dict, d': Dict, a: set<int>, b: set<int>)
    requires KeptBut(d, d1, a) && KeptBut(d1, d', b)
    ensures KeptBut(d, d', a + b)
  {
    hide Get;
  }

  lemma RemapKeeps(d: Dict, d': Dict, com: CommIndex, record: CommIndex, req: Pdo.Request, timer: bool)
    requires |req.objs| < 0xFF && Remapped(d, d', com, record, req) && req.inhibit < 0 && (!timer ==> req.event < 0)
    ensures OneKept(d, d', com, record, timer)
  {
  }

  lemma RecordKeptOver(d: Dict, d1: Dict, d': Dict, at: CommIndex, timer: bool, elsewhere: set<int>)
    requires RecordKept(d, d1, at, timer) && KeptBut(d1, d', elsewhere) && at !in elsewhere
    ensures RecordKept(d, d', at, timer)
  {
  }

  lemma RecordKeptAfter(d: Dict, d1: Dict, d': Dict, at: CommIndex, timer: bool, elsewhere: set<int>)
    requires KeptBut(d, d1, elsewhere) && at !in elsewhere && RecordKept(d1, d', at, timer)
    ensures RecordKept(d, d', at, timer)
  {
  }

  /** What is configured on the command line: 8-bit numbers, the two RPDOs different, and so the two
      TPDOs if the status is wanted. */
  predicate Numbered(d: Drive, tpdoStat: int)
  {
    && 0 <= d.rpdoCtrl < 0x100 && 0 <= d.rpdoUser < 0x100 && 0 <= d.tpdoUser < 0x100 && tpdoStat < 0x100
    && d.rpdoCtrl != d.rpdoUser && d.tpdoUser != tpdoStat
  }

  /** The maps of the control word, of the feedback and of the status, if that is wanted. */
  predicate FirstMaps(d: Dict, rpdoCtrl: u8, tpdoUser: u8, tpdoStat: int)
    requires tpdoStat < 0x100
  {
    && MapsTo(d, 0x1400 + rpdoCtrl, 0x1600 + rpdoCtrl, 0xFF, [0x6040_0010])
    && MapsTo(d, 0x1800 + tpdoUser, 0x1A00 + tpdoUser, 0xFE, [0x6064_0020, 0x606C_0020])
    && Get(d, Entry(0x1800 + tpdoUser, 5)) == 10
    && (tpdoStat >= 0 ==>
          && MapsTo(d, 0x1800 + tpdoStat, 0x1A00 + tpdoStat, 0xFE, [0x6041_0010])
          && Get(d, Entry(0x1800 + tpdoStat, 5)) == 10)
  }

  /** A remap of one object list, in words. */
  lemma OneRemap(env: Env, l: Line, req: Pdo.Request, words: seq<u32>)
    requires |req.objs| == |words| < 0xFF && 0 <= req.transmission <= 0xFF && req.dir != Pdo.OtherDirection
    requires Pdo.Remap(env, l, req).0 == Ok && Truthful(PdoSafety.Events(env, l, req))
    requires forall i | 0 <= i < |words| ::
               words[i] == 0x1_0000 * req.objs[i].index + 0x100 * req.objs[i].subindex + Bits(req.objs[i].dtype)
    ensures var d, d' := l.dev.dict, Pdo.Remap(env, l, req).1.dev.dict;
            var (com, record) := if req.dir == Pdo.Ul then (0x1800 + req.pdo, 0x1A00 + req.pdo)
                                 else (0x1400 + req.pdo, 0x1600 + req.pdo);
            && Remapped(d, d', com, record, req) && MapsTo(d', com, record, req.transmission, words)
            && (req.event >= 0 ==> Get(d', Entry(com, 5)) == req.event)
  {
    hide Pdo.Remap, Remapped, Bits, MapsTo;
    RemapEntries(env, l, req);
    var (com, record) := if req.dir == Pdo.Ul then (0x1800 + req.pdo, 0x1A00 + req.pdo)
                         else (0x1400 + req.pdo, 0x1600 + req.pdo);
    RemapMaps(l.dev.dict, Pdo.Remap(env, l, req).1.dev.dict, com, record, req, words);
  }

  /** The first of several remaps. */
  lemma RemapsSplit(env: Env, l: Line, reqs: seq<Pdo.Request>)
    requires reqs != [] && forall req | req in reqs :: |req.objs| < 0xFF
    requires Remaps(env, l, reqs).0 == Ok && Truthful(Since(l, Remaps(env, l, reqs).1))
    ensures var (r, l1) := Pdo.Remap(env, l, reqs[0]);
            && r == Ok && Truthful(PdoSafety.Events(env, l, reqs[0]))
            && Remaps(env, l1, reqs[1..]) == Remaps(env, l, reqs)
            && Truthful(Since(l1, Remaps(env, l, reqs).1))
  {
    hide Pdo.Remap, Grown, Truthful, Since;
    var (r, l1) := Pdo.Remap(env, l, reqs[0]);
    PdoSafety.RemapGrows(env, l, reqs[0]);
    RemapsKeep(env, l1, reqs[1..]);
    var l' := Remaps(env, l, reqs).1;
    GrownTrans(env, l, l1, l');
    TruthfulBoth(Since(l, l1), Since(l1, l'));
  }

  lemma TruthfulBoth(a: seq<Event>, b: seq<Event>)
    requires Truthful(a + b)
    ensures Truthful(a) && Truthful(b)
  {
    assert forall ev | ev in a :: ev in a + b;
    assert forall ev | ev in b :: ev in a + b;
  }

  /** The remaps of start-up make the first maps. */
  lemma RemapsMap(env: Env, l: Line, d: Drive, tpdoStat: int)
    requires Numbered(d, tpdoStat)
    requires Remaps(env, l, MapRequests(d, tpdoStat)).0 == Ok
    requires Truthful(Since(l, Remaps(env, l, MapRequests(d, tpdoStat)).1))
    ensures FirstMaps(Remaps(env, l, MapRequests(d, tpdoStat)).1.dev.dict, d.rpdoCtrl, d.tpdoUser, tpdoStat)
  {
    hide Pdo.Remap, Truthful, Since, Remapped, MapsTo, Remaps;
    var reqs := MapRequests(d, tpdoStat);
    RemapsSplit(env, l, reqs);
    OneRemap(env, l, reqs[0], [0x6040_0010]);
    var l1 := Pdo.Remap(env, l, reqs[0]).1;
    RemapsSplit(env, l1, reqs[1..]);
    OneRemap(env, l1, reqs[1], [0x6064_0020, 0x606C_0020]);
    var l2 := Pdo.Remap(env, l1, reqs[1]).1;
    var c, u := d.rpdoCtrl, d.tpdoUser;
    MapsKept(l1.dev.dict, l2.dev.dict, 0x1400 + c, 0x1600 + c, 0xFF, [0x6040_0010], 0x1800 + u, 0x1A00 + u, reqs[1]);
    if tpdoStat >= 0 {
      assert reqs[1..][1..] == [reqs[2]];
      RemapsSplit(env, l2, [reqs[2]]);
      OneRemap(env, l2, reqs[2], [0x6041_0010]);
      var l3 := Pdo.Remap(env, l2, reqs[2]).1;
      var t := tpdoStat;
      MapsKept(l2.dev.dict, l3.dev.dict, 0x1400 + c, 0x1600 + c, 0xFF, [0x6040_0010], 0x1800 + t, 0x1A00 + t, reqs[2]);
      MapsKept(l2.dev.dict, l3.dev.dict, 0x1800 + u, 0x1A00 + u, 0xFE, [0x6064_0020, 0x606C_0020],
               0x1800 + t, 0x1A00 + t, reqs[2]);
      RemapsNone(env, l3, [reqs[2]][1..]);
    } else {
      RemapsNone(env, l2, reqs[1..][1..]);
    }
  }

  function FirstIndices(rpdoCtrl: u8, tpdoUser: u8, tpdoStat: int): set<int>
  {
    {0x1400 + rpdoCtrl, 0x1600 + rpdoCtrl, 0x1800 + tpdoUser, 0x1A00 + tpdoUser}
    + if tpdoStat >= 0 then {0x1800 + tpdoStat, 0x1A00 + tpdoStat} else {}
  }

  /** What the first maps leave of the dictionary: they touch the records and maps of their PDOs only. */
  ghost predicate FirstKept(d: Dict, d': Dict, rpdoCtrl: u8, tpdoUser: u8, tpdoStat: int)
    requires tpdoStat < 0x100
  {
    && RecordKept(d, d', 0x1400 + rpdoCtrl, false) && RecordKept(d, d', 0x1800 + tpdoUser, true)
    && (tpdoStat >= 0 ==> RecordKept(d, d', 0x1800 + tpdoStat, true))
    && KeptBut(d, d', FirstIndices(rpdoCtrl, tpdoUser, tpdoStat))
  }

  /** The remaps of start-up leave the rest of the dictionary. */
  lemma RemapsLeave(env: Env, l: Line, d: Drive, tpdoStat: int)
    requires Numbered(d, tpdoStat)
    requires Remaps(env, l, MapRequests(d, tpdoStat)).0 == Ok
    requires Truthful(Since(l, Remaps(env, l, MapRequests(d, tpdoStat)).1))
    ensures FirstKept(l.dev.dict, Remaps(env, l, MapRequests(d, tpdoStat)).1.dev.dict, d.rpdoCtrl, d.tpdoUser, tpdoStat)
  {
    hide Pdo.Remap, Truthful, Since, Remapped, MapsTo, Remaps, OneKept;
    var c, u, reqs := d.rpdoCtrl, d.tpdoUser, MapRequests(d, tpdoStat);
    RemapsSplit(env, l, reqs);
    OneRemap(env, l, reqs[0], [0x6040_0010]);
    var l1 := Pdo.Remap(env, l, reqs[0]).1;
    RemapKeeps(l.dev.dict, l1.dev.dict, 0x1400 + c, 0x1600 + c, reqs[0], false);
    RemapsSplit(env, l1, reqs[1..]);
    OneRemap(env, l1, reqs[1], [0x6064_0020, 0x606C_0020]);
    var l2 := Pdo.Remap(env, l1, reqs[1]).1;
    RemapKeeps(l1.dev.dict, l2.dev.dict, 0x1800 + u, 0x1A00 + u, reqs[1], true);
    if tpdoStat >= 0 {
      assert reqs[1..][1..] == [reqs[2]];
      RemapsSplit(env, l2, [reqs[2]]);
      OneRemap(env, l2, reqs[2], [0x6041_0010]);
      var l3 := Pdo.Remap(env, l2, reqs[2]).1;
      RemapKeeps(l2.dev.dict, l3.dev.dict, 0x1800 + tpdoStat, 0x1A00 + tpdoStat, reqs[2], true);
      RemapsNone(env, l3, [reqs[2]][1..]);
      ThreeKept(l.dev.dict, l1.dev.dict, l2.dev.dict, l3.dev.dict, c, u, tpdoStat);
    } else {
      RemapsNone(env, l2, reqs[1..][1..]);
      TwoKept(l.dev.dict, l1.dev.dict, l2.dev.dict, c, u, tpdoStat);
    }
  }

  lemma TwoKept(d: Dict, d1: Dict, d2: Dict, c: u8, u: u8, t: int)
    requires OneKept(d, d1, 0x1400 + c, 0x1600 + c, false) && OneKept(d1, d2, 0x1800 + u, 0x1A00 + u, true) && t < 0
    ensures FirstKept(d, d2, c, u, t)
  {
    hide KeptBut, RecordKept;
    RecordKeptOver(d, d1, d2, 0x1400 + c, false, {0x1800 + u, 0x1A00 + u});
    RecordKeptAfter(d, d1, d2, 0x1800 + u, true, {0x1400 + c, 0x1600 + c});
    KeptButTrans(d, d1, d2, {0x1400 + c, 0x1600 + c}, {0x1800 + u, 0x1A00 + u});
    assert FirstIndices(c, u, t) == {0x1400 + c, 0x1600 + c} + {0x1800 + u, 0x1A00 + u};
  }

  lemma ThreeKept(d: Dict, d1: Dict, d2: Dict, d3: Dict, c: u8, u: u8, t: u8)
    requires OneKept(d, d1, 0x1400 + c, 0x1600 + c, false) && OneKept(d1, d2, 0x1800 + u, 0x1A00 + u, true)
    requires OneKept(d2, d3, 0x1800 + t, 0x1A00 + t, true) && t != u
    ensures FirstKept(d, d3, c, u, t)
  {
    hide KeptBut, RecordKept;
    RecordKeptOver(d, d1, d2, 0x1400 + c, false, {0x1800 + u, 0x1A00 + u});
    RecordKeptOver(d, d2, d3, 0x1400 + c, false, {0x1800 + t, 0x1A00 + t});
    RecordKeptAfter(d, d1, d2, 0x1800 + u, true, {0x1400 + c, 0x1600 + c});
    RecordKeptOver(d, d2, d3, 0x1800 + u, true, {0x1800 + t, 0x1A00 + t});
    RecordKeptAfter(d1, d2, d3, 0x1800 + t, true, {0x1800 + u, 0x1A00 + u});
    RecordKeptAfter(d, d1, d3, 0x1800 + t, true, {0x1400 + c, 0x1600 + c});
    var a, b, e := {0x1400 + c, 0x1600 + c}, {0x1800 + u, 0x1A00 + u}, {0x1800 + t, 0x1A00 + t};
    KeptButTrans(d, d1, d2, a, b);
    KeptButTrans(d, d2, d3, a + b, e);
    assert FirstIndices(c, u, t) == a + b + e;
  }

  lemma RemapsNone(env: Env, l: Line, reqs: seq<Pdo.Request>)
    requires reqs == []
    ensures Remaps(env, l, reqs) == (Ok, l)
  {
  }

  /** The mode call maps the user RPDO and leaves the other maps. */
  lemma ModeMaps(env: Env, s: Session, d: Drive, tpdoStat: int)
    requires SetOpMode(env, s, MODE_VELOCITY).0 == Ok && Numbered(d, tpdoStat) && s.drive.rpdoUser == d.rpdoUser
    requires Truthful(Since(s.line, SetOpMode(env, s, MODE_VELOCITY).1.line))
    requires FirstMaps(s.line.dev.dict, d.rpdoCtrl, d.tpdoUser, tpdoStat)
    ensures var d' := SetOpMode(env, s, MODE_VELOCITY).1.line.dev.dict;
            && FirstMaps(d', d.rpdoCtrl, d.tpdoUser, tpdoStat)
            && MapsTo(d', 0x1400 + d.rpdoUser, 0x1600 + d.rpdoUser, 0xFF, [0x6042_0010])
            && OneKept(s.line.dev.dict, d', 0x1400 + d.rpdoUser, 0x1600 + d.rpdoUser, false)
  {
    hide OneKept, Pdo.Remap, Truthful, Since, Remapped, MapsTo, ChangeMode, DlCtrl, Halting, Quick, HighByte;
    var h := HighByte(s.drive.ctrlWord);
    var s1 := if MODE_VELOCITY != s.drive.opMode then ChangeMode(env, s, MODE_VELOCITY).1 else s;
    var req := ModeRequest(s.drive.rpdoUser);
    var s2 := s1.(line := Pdo.Remap(env, s1.line, req).1);
    var s3 := DlCtrl(env, s2, USE_RAMP).1;
    HaltingRefl(env, s, h);
    ChangeModeHalts(env, s, MODE_VELOCITY, h);
    HaltingMirror(env, s, s1, h);
    RemapHalts(env, s1, req, h);
    CtrlHalts(env, s2, USE_RAMP, h);
    HaltingTrans(env, s1, s2, s3, h);
    HaltingTrans(env, s, s1, s3, h);
    TruthfulSplit(Since(s.line, s1.line), Since(s1.line, s2.line), Since(s2.line, s3.line));
    ModeChanged(env, s, MODE_VELOCITY);
    OneRemap(env, s1.line, req, [0x6042_0010]);
    RampDone(env, s2);
    var was, now := s1.line.dev.dict, s2.line.dev.dict;
    var r, c, u, t := d.rpdoUser, d.rpdoCtrl, d.tpdoUser, tpdoStat;
    RemapKeeps(was, now, 0x1400 + r, 0x1600 + r, req, false);
    MapsKept(was, now, 0x1400 + c, 0x1600 + c, 0xFF, [0x6040_0010], 0x1400 + r, 0x1600 + r, req);
    MapsKept(was, now, 0x1800 + u, 0x1A00 + u, 0xFE, [0x6064_0020, 0x606C_0020], 0x1400 + r, 0x1600 + r, req);
    if t >= 0 {
      MapsKept(was, now, 0x1800 + t, 0x1A00 + t, 0xFE, [0x6041_0010], 0x1400 + r, 0x1600 + r, req);
    }
  }

  /** The maps of a drive that has been started up. */
  predicate Mapped(d: Dict, drive: Drive, tpdoStat: int)
  {
    && Numbered(drive, tpdoStat) && FirstMaps(d, drive.rpdoCtrl, drive.tpdoUser, tpdoStat)
    && MapsTo(d, 0x1400 + drive.rpdoUser, 0x1600 + drive.rpdoUser, 0xFF, [0x6042_0010])
  }

  /** A successful start-up of a drive with different PDO numbers, no answer mistaken: the control
      RPDO is mapped to the control word, the user RPDO to the target velocity, the user TPDO to the
      position and then the velocity, event timer 10, and the status TPDO, if it is wanted, to the
      status word; the rest of their records and all other entries stay as they were. */
  lemma BootMaps(env: Env, s: Session, id: u8, margin: real, tpdoStat: int)
    requires s.drive.posFactor != 0.0 && Boot(env, s, id, margin, tpdoStat).0 == Ok && Numbered(s.drive, tpdoStat)
    requires Truthful(Since(s.line, Boot(env, s, id, margin, tpdoStat).1.line))
    ensures var d' := Boot(env, s, id, margin, tpdoStat).1.line.dev.dict;
            Mapped(d', s.drive, tpdoStat) && RestKept(s.line.dev.dict, d', s.drive, tpdoStat)
  {
    hide Init, Remaps, SetOpMode, Start, Grown, Truthful, Since, MapsTo, FirstMaps, MapRequests;
    hide FirstKept, OneKept, RestKept;
    var s1 := Init(env, s, id, margin).1;
    var reqs := MapRequests(s1.drive, tpdoStat);
    var s2 := s1.(line := Remaps(env, s1.line, reqs).1);
    var s3 := SetOpMode(env, s2, MODE_VELOCITY).1;
    var s' := Start(env, s3).1;
    InitGrows(env, s, id, margin);
    RemapsKeep(env, s1.line, reqs);
    ModeGrows(env, s2, MODE_VELOCITY);
    StartGrows(env, s3);
    GrownTrans(env, s2.line, s3.line, s'.line);
    GrownTrans(env, s1.line, s2.line, s'.line);
    GrownTrans(env, s.line, s1.line, s'.line);
    TruthfulFour(Since(s.line, s1.line), Since(s1.line, s2.line), Since(s2.line, s3.line), Since(s3.line, s'.line));
    InitKeepsPdos(env, s, id, margin);
    RemapsMap(env, s1.line, s1.drive, tpdoStat);
    RemapsLeave(env, s1.line, s1.drive, tpdoStat);
    ModeMaps(env, s2, s1.drive, tpdoStat);
    KeptByStart(env, s3);
    RestOfAll(s.line.dev.dict, s2.line.dev.dict, s3.line.dev.dict, s.drive, tpdoStat);
  }

  /** What start-up leaves of the dictionary. */
  ghost predicate RestKept(d: Dict, d': Dict, drive: Drive, tpdoStat: int)
    requires Numbered(drive, tpdoStat)
  {
    var r, c, u, t := drive.rpdoUser, drive.rpdoCtrl, drive.tpdoUser, tpdoStat;
    && RecordKept(d, d', 0x1400 + c, false) && RecordKept(d, d', 0x1400 + r, false)
    && RecordKept(d, d', 0x1800 + u, true) && (t >= 0 ==> RecordKept(d, d', 0x1800 + t, true))
    && KeptBut(d, d', FirstIndices(c, u, t) + {0x1400 + r, 0x1600 + r})
  }

  lemma RestOfAll(d: Dict, d1: Dict, d': Dict, drive: Drive, tpdoStat: int)
    requires Numbered(drive, tpdoStat)
    requires FirstKept(d, d1, drive.rpdoCtrl, drive.tpdoUser, tpdoStat)
    requires OneKept(d1, d', 0x1400 + drive.rpdoUser, 0x1600 + drive.rpdoUser, false)
    ensures RestKept(d, d', drive, tpdoStat)
  {
    hide KeptBut, RecordKept;
    KeptButTrans(d, d1, d', FirstIndices(drive.rpdoCtrl, drive.tpdoUser, tpdoStat),
                 {0x1400 + drive.rpdoUser, 0x1600 + drive.rpdoUser});
    var r, c, u, t := drive.rpdoUser, drive.rpdoCtrl, drive.tpdoUser, tpdoStat;
    RecordKeptOver(d, d1, d', 0x1400 + c, false, {0x1400 + r, 0x1600 + r});
    RecordKeptAfter(d, d1, d', 0x1400 + r, false, FirstIndices(c, u, t));
    RecordKeptOver(d, d1, d', 0x1800 + u, true, {0x1400 + r, 0x1600 + r});
    if t >= 0 {
      RecordKeptOver(d, d1, d', 0x1800 + t, true, {0x1400 + r, 0x1600 + r});
    }
  }

  lemma InitKeepsPdos(env: Env, s: Session, id: u8, margin: real)
    requires s.drive.posFactor != 0.0 && Init(env, s, id, margin).0 == Ok
    requires Truthful(Since(s.line, Init(env, s, id, margin).1.line))
    ensures SamePdos(s.drive, Init(env, s, id, margin).1.drive)
    ensures Init(env, s, id, margin).1.line.dev == s.line.dev
  {
    hide Init, SamePdos, Truthful, Since;
    InitMirrors(env, s, id, margin);
  }

  // ----- a device that follows its maps -----

  /** The mapped words of a record. */
  function MapWords(d: Dict, record: CommIndex): seq<u32>
  {
    var n := Get(d, Entry(record, 0));
    seq(if n < 0xFF then n else 0xFF, i requires 0 <= i < 0xFF => Get(d, Entry(record, i + 1)))
  }

  lemma WordsOf(d: Dict, com: CommIndex, record: CommIndex, transmission: u8, words: seq<u32>)
    requires |words| < 0xFF && MapsTo(d, com, record, transmission, words)
    ensures MapWords(d, record) == words
  {
  }

  /** The bits of the object that a map word names: index above, subindex, and length below. */
  function ObjectBits(dev: Device, word: u32): u32
  {
    match word / 0x100
    case 0x6040_00 => dev.ctrl as int
    case 0x6042_00 => dev.target % 0x1_0000
    case 0x6064_00 => dev.position % 0x1_0000_0000
    case 0x606C_00 => dev.velocity % 0x1_0000_0000
    case _ => 0
  }

  function Low(u: u32, bits: int): seq<u8>
  {
    if bits == 32 then Stle32(u) else if bits == 16 then Stle16(u % 0x1_0000) else if bits == 8 then [u % 0x100] else []
  }

  /** The data of a frame: the mapped objects one behind the other, low bytes first. */
  function Packed(dev: Device, words: seq<u32>): seq<u8>
    decreases |words|
  {
    if words == [] then [] else Low(ObjectBits(dev, words[0]), words[0] % 0x100) + Packed(dev, words[1..])
  }

  /** The TPDO that a device sends, if its map fills a frame. */
  function TpdoOf(dev: Device, node: u8, pdo: u8): Option<Frame>
  {
    var data := Packed(dev, MapWords(dev.dict, 0x1A00 + pdo));
    if |data| == 8 then Some(RawFrame(0x180 + 0x100 * pdo + node % 0x80, 8, data)) else None
  }

  /** Feedback, end to end: a drive that was started up sends its position and velocity as its map
      says, and the daemon takes them for exactly that. */
  lemma FeedbackArrives(dev: Device, d: Drive, tpdoStat: int)
    requires Mapped(dev.dict, d, tpdoStat)
    ensures var f := TpdoOf(dev, d.nodeId, d.tpdoUser);
            f.Some? && Feedback.HeardOne(d, f.value) == d.(actualPosRaw := dev.position, actualVelRaw := dev.velocity)
  {
    hide Feedback.HeardOne, Stle32, MapWords, FirstMaps;
    var words := [0x6064_0020, 0x606C_0020];
    FeedbackMap(dev.dict, d, tpdoStat);
    WordsOf(dev.dict, 0x1800 + d.tpdoUser, 0x1A00 + d.tpdoUser, 0xFE, words);
    var p, v := dev.position % 0x1_0000_0000, dev.velocity % 0x1_0000_0000;
    assert words[1..] == [0x606C_0020] && [0x606C_0020][1..] == [];
    assert Packed(dev, []) == [];
    assert Packed(dev, [0x606C_0020]) == Stle32(v) + [] == Stle32(v);
    assert Packed(dev, words) == Stle32(p) + Stle32(v);
    Feedback.FrameCarriesFeedback(d, dev.position, dev.velocity);
  }

  lemma FeedbackMap(dict: Dict, d: Drive, tpdoStat: int)
    requires Mapped(dict, d, tpdoStat)
    ensures Numbered(d, tpdoStat)
    ensures MapsTo(dict, 0x1800 + d.tpdoUser, 0x1A00 + d.tpdoUser, 0xFE, [0x6064_0020, 0x606C_0020])
    ensures MapsTo(dict, 0x1400 + d.rpdoCtrl, 0x1600 + d.rpdoCtrl, 0xFF, [0x6040_0010])
    ensures MapsTo(dict, 0x1400 + d.rpdoUser, 0x1600 + d.rpdoUser, 0xFF, [0x6042_0010])
  {
  }

  /** A device takes two bytes for the object that a map word names. */
  function Took(dev: Device, word: u32, u: u16): Device
  {
    match word
    case 0x6040_0010 => dev.(ctrl := u as bv16)
    case 0x6042_0010 => dev.(target := Signed(u, 2))
    case _ => dev
  }

  /** A device takes the mapped objects from the data, one behind the other. */
  function Taken(dev: Device, words: seq<u32>, data: seq<u8>): Device
    decreases |words|
  {
    if words == [] then dev
    else
      var n := words[0] % 0x100 / 8;
      if |data| < n then dev
      else Taken(if n == 2 then Took(dev, words[0], Ldle16(data)) else dev, words[1..], data[n..])
  }

  /** The effect of an RPDO on a device. */
  function RpdoTaken(dev: Device, pdo: u8, f: Frame): Device
  {
    Taken(dev, MapWords(dev.dict, 0x1600 + pdo), if f.dlc <= 8 then f.data[..f.dlc] else f.data)
  }

  /** What a device with one mapped word takes from two bytes. */
  lemma TwoBytesTaken(dev: Device, pdo: u8, word: u32, f: Frame, u: u16)
    requires word % 0x100 == 16
    requires MapWords(dev.dict, 0x1600 + pdo) == [word]
    requires f.dlc == 2 && f.data[..2] == Stle16(u)
    ensures RpdoTaken(dev, pdo, f) == Took(dev, word, u)
  {
    hide MapWords, Stle16, Ldle16, Took;
    StoreThenLoad(u, []);
    assert Stle16(u) + [] == Stle16(u);
    var data := f.data[..f.dlc];
    assert data == Stle16(u) && Ldle16(data) == u;
    assert Taken(dev, [word], data) == Taken(Took(dev, word, u), [word][1..], data[2..]);
    assert [word][1..] == [];
  }

  /** References and control words, end to end: from a frame that the daemon sends to the RPDO of a
      drive that was started up, the device takes the target velocity, negative ones included, or
      the control word. */
  lemma ReferenceArrives(dev: Device, d: Drive, tpdoStat: int, prior: Frame, v: i16, w: bv16)
    requires Mapped(dev.dict, d, tpdoStat)
    ensures RpdoTaken(dev, d.rpdoUser, RpdoFrame(prior, d.nodeId, d.rpdoUser, Stle16(Bits16(v)))) == dev.(target := v)
    ensures RpdoTaken(dev, d.rpdoCtrl, RpdoFrame(prior, d.nodeId, d.rpdoCtrl, Stle16(w as int))) == dev.(ctrl := w)
  {
    hide MapWords, RpdoTaken, MapsTo, Stle16, Mapped;
    FeedbackMap(dev.dict, d, tpdoStat);
    WordsOf(dev.dict, 0x1400 + d.rpdoUser, 0x1600 + d.rpdoUser, 0xFF, [0x6042_0010]);
    WordsOf(dev.dict, 0x1400 + d.rpdoCtrl, 0x1600 + d.rpdoCtrl, 0xFF, [0x6040_0010]);
    var f := RpdoFrame(prior, d.nodeId, d.rpdoUser, Stle16(Bits16(v)));
    var g := RpdoFrame(prior, d.nodeId, d.rpdoCtrl, Stle16(w as int));
    TwoBytesTaken(dev, d.rpdoUser, 0x6042_0010, f, Bits16(v));
    TwoBytesTaken(dev, d.rpdoCtrl, 0x6040_0010, g, w as int);
    SignedBits(v);
    Can402Safety.WordRoundTrip(w);
  }

  lemma SignedBits(v: i16)
    ensures Signed(Bits16(v), 2) == v
  {
  }
}
