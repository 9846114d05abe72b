/** Safety of the daemon over all runs, with any pattern of failed sends. */
module Can402Safety {
  import opened Can
  import opened Ds402
  import opened PosLimit
  import opened Can402

  // ----- the configuration of the daemon -----

  /** What parsing the command line ensures, except that it does not keep a node from being
      given twice: 7-bit nodes, 8-bit PDO numbers, and different RPDOs for control and reference. */
  predicate Addressed(d: Drive)
  {
    d.nodeId < 0x80 && 0 <= d.rpdoCtrl < 0x100 && 0 <= d.rpdoUser < 0x100 && d.rpdoCtrl != d.rpdoUser
  }

  predicate Configured(drives: seq<Drive>)
  {
    && (forall i | 0 <= i < |drives| :: Addressed(drives[i]))
    && (forall i, j | 0 <= i < j < |drives| :: drives[i].nodeId != drives[j].nodeId)
  }

  /** Different drives, and the two RPDOs of one drive, never share a COB-ID. */
  lemma IdsApart(drives: seq<Drive>, i: nat, j: nat)
    requires Configured(drives) && i < |drives| && j < |drives|
    ensures CtrlId(drives[i]) == CtrlId(drives[j]) <==> i == j
    ensures UserId(drives[i]) == UserId(drives[j]) <==> i == j
    ensures UserId(drives[i]) != CtrlId(drives[j])
  {
  }

  // ----- the drives behind the PDOs -----

  predicate HaltBit(v: u16) { (v as bv16) & HALT != 0 }

  lemma HaltBitOf(w: bv16)
    ensures HaltBit(w as int) <==> w & HALT != 0
  {
    hide HaltBit;
    WordRoundTrip(w);
    HaltBitFrom(w as int, w);
  }

  lemma WordRoundTrip(w: bv16)
    ensures (w as int) as bv16 == w
  {
  }

  lemma HaltBitFrom(v: u16, w: bv16)
    requires v as bv16 == w
    ensures HaltBit(v) <==> w & HALT != 0
  {
  }

  /** The objects after some more PDOs. */
  function ObjectsAfter(objects: map<u32, u16>, sent: seq<Sent>): map<u32, u16>
    decreases |sent|
  {
    if sent == [] then objects
    else ObjectsAfter(if sent[0].ok then objects[sent[0].cobId := sent[0].value] else objects, sent[1..])
  }

  lemma {:induction false} ObjectsConcat(objects: map<u32, u16>, p: seq<Sent>, q: seq<Sent>)
    ensures ObjectsAfter(objects, p + q) == ObjectsAfter(ObjectsAfter(objects, p), q)
    decreases |p|
  {
    if p == [] {
      assert p + q == q;
    } else {
      assert (p + q)[1..] == p[1..] + q;
      ObjectsConcat(if p[0].ok then objects[p[0].cobId := p[0].value] else objects, p[1..], q);
    }
  }

  /** No drive has its HALT bit set on the device side. */
  predicate AllClear(drives: seq<Drive>, objects: map<u32, u16>)
  {
    forall i | 0 <= i < |drives| :: CtrlId(drives[i]) in objects && !HaltBit(objects[CtrlId(drives[i])])
  }

  predicate IsReference(drives: seq<Drive>, id: u32)
  {
    exists i | 0 <= i < |drives| :: id == UserId(drives[i])
  }

  /** A reference goes out only while no drive is halted. */
  predicate SafeSent(drives: seq<Drive>, objects: map<u32, u16>, s: Sent)
  {
    IsReference(drives, s.cobId) ==> AllClear(drives, objects)
  }

  /** The air moved from a to b by safe sends. */
  predicate Safely(drives: seq<Drive>, a: Air, b: Air)
  {
    && a.sent <= b.sent
    && b.objects == ObjectsAfter(a.objects, b.sent[|a.sent|..])
    && forall j | |a.sent| <= j < |b.sent| ::
         SafeSent(drives, ObjectsAfter(a.objects, b.sent[|a.sent|..j]), b.sent[j])
  }

  lemma SafelyTrans(drives: seq<Drive>, a: Air, b: Air, c: Air)
    requires Safely(drives, a, b) && Safely(drives, b, c)
    ensures Safely(drives, a, c)
  {
    hide SafeSent, ObjectsAfter;
    var p, q := b.sent[|a.sent|..], c.sent[|b.sent|..];
    assert c.sent[|a.sent|..] == p + q;
    ObjectsConcat(a.objects, p, q);
    forall j | |a.sent| <= j < |c.sent|
      ensures SafeSent(drives, ObjectsAfter(a.objects, c.sent[|a.sent|..j]), c.sent[j])
    {
      if j < |b.sent| {
        assert c.sent[|a.sent|..j] == b.sent[|a.sent|..j] && c.sent[j] == b.sent[j];
      } else {
        assert c.sent[|a.sent|..j] == p + c.sent[|b.sent|..j];
        ObjectsConcat(a.objects, p, c.sent[|b.sent|..j]);
      }
    }
  }

  lemma SafelySent(drives: seq<Drive>, works: Works, a: Air, node: u8, num: u8, value: u16)
    requires IsReference(drives, RpdoCobId(node, num)) ==> AllClear(drives, a.objects)
    ensures Safely(drives, a, SendRpdo(works, a, node, num, value).1)
  {
  }

  // ----- what every step keeps -----

  /** The mirrors of control word and target are right. */
  predicate Synced(f: Fleet)
  {
    forall i | 0 <= i < |f.drives| ::
      && CtrlId(f.drives[i]) in f.air.objects && f.air.objects[CtrlId(f.drives[i])] == f.drives[i].ctrlWord as int
      && UserId(f.drives[i]) in f.air.objects && f.air.objects[UserId(f.drives[i])] == Bits16(f.drives[i].targetVelRaw)
  }

  /** A cleared halt flag means that no drive is halted. */
  predicate FlagHonest(f: Fleet)
  {
    !f.halt ==> forall i | 0 <= i < |f.drives| :: !Halted(f.drives[i])
  }

  predicate SameDrive(d: Drive, e: Drive)
  {
    d.nodeId == e.nodeId && d.rpdoCtrl == e.rpdoCtrl && d.rpdoUser == e.rpdoUser
  }

  /** The drives have kept their addresses. */
  predicate SameDrives(ds: seq<Drive>, es: seq<Drive>)
  {
    |ds| == |es| && forall i | 0 <= i < |ds| :: SameDrive(ds[i], es[i])
  }

  lemma SameSafely(ds: seq<Drive>, es: seq<Drive>, a: Air, b: Air)
    requires SameDrives(ds, es) && Safely(es, a, b)
    ensures Safely(ds, a, b)
  {
    hide ObjectsAfter;
    forall j | |a.sent| <= j < |b.sent|
      ensures SafeSent(ds, ObjectsAfter(a.objects, b.sent[|a.sent|..j]), b.sent[j])
    {
      SameSafe(ds, es, ObjectsAfter(a.objects, b.sent[|a.sent|..j]), b.sent[j]);
    }
  }

  lemma SameSafe(ds: seq<Drive>, es: seq<Drive>, objects: map<u32, u16>, s: Sent)
    requires SameDrives(ds, es) && SafeSent(es, objects, s)
    ensures SafeSent(ds, objects, s)
  {
  }

  /** The state of the fleet is in order. */
  predicate Orderly(f: Fleet) { Configured(f.drives) && Synced(f) }

  /** A step that keeps order and sends safely. */
  predicate Steady(f: Fleet, g: Fleet)
  {
    Orderly(g) && SameDrives(f.drives, g.drives) && Safely(f.drives, f.air, g.air)
  }

  lemma SteadyTrans(f: Fleet, g: Fleet, h: Fleet)
    requires Steady(f, g) && Steady(g, h)
    ensures Steady(f, h)
  {
    hide Safely, Configured, Synced;
    SameSafely(f.drives, g.drives, g.air, h.air);
    SafelyTrans(f.drives, f.air, g.air, h.air);
    assert forall i | 0 <= i < |f.drives| :: SameDrive(f.drives[i], g.drives[i]) && SameDrive(g.drives[i], h.drives[i]);
  }

  lemma SteadyRefl(f: Fleet)
    requires Orderly(f)
    ensures Steady(f, f)
  {
  }

  /** Sending a control word and, if it went out, taking it over. */
  lemma CtrlSteady(works: Works, f: Fleet, i: nat, word: bv16)
    requires Orderly(f) && i < |f.drives|
    ensures var d := f.drives[i];
            var (ok, a) := SendRpdo(works, f.air, d.nodeId, d.rpdoCtrl % 0x100, word as int);
            Steady(f, if ok then f.(drives := f.drives[i := d.(ctrlWord := word)], air := a) else f.(air := a))
  {
    var d := f.drives[i];
    var (ok, a) := SendRpdo(works, f.air, d.nodeId, d.rpdoCtrl % 0x100, word as int);
    var g := if ok then f.(drives := f.drives[i := d.(ctrlWord := word)], air := a) else f.(air := a);
    NoReference(f.drives, i);
    SafelySent(f.drives, works, f.air, d.nodeId, d.rpdoCtrl % 0x100, word as int);
    SyncedUpdate(f, g, i, CtrlId(d), word as int);
  }

  lemma NoReference(drives: seq<Drive>, i: nat)
    requires Configured(drives) && i < |drives|
    ensures !IsReference(drives, CtrlId(drives[i]))
  {
  }

  /** Writing one object of drive i, together with its mirror, keeps all mirrors right. */
  lemma SyncedUpdate(f: Fleet, g: Fleet, i: nat, id: u32, value: u16)
    requires Orderly(f) && i < |f.drives| == |g.drives|
    requires (id == CtrlId(f.drives[i]) || id == UserId(f.drives[i]))
    requires || (g.air.objects == f.air.objects && g.drives == f.drives)
             || (g.air.objects == f.air.objects[id := value] && g.drives == f.drives[i := g.drives[i]]
                 && SameDrive(f.drives[i], g.drives[i])
                 && if id == CtrlId(f.drives[i])
                    then g.drives[i].ctrlWord as int == value && g.drives[i].targetVelRaw == f.drives[i].targetVelRaw
                    else g.drives[i].ctrlWord == f.drives[i].ctrlWord && Bits16(g.drives[i].targetVelRaw) == value)
    ensures Orderly(g) && SameDrives(f.drives, g.drives)
  {
    hide Bits16;
    assert forall k | 0 <= k < |f.drives| :: SameDrive(f.drives[k], g.drives[k]);
    assert Configured(g.drives);
    forall k | 0 <= k < |f.drives|
      ensures CtrlId(g.drives[k]) in g.air.objects && g.air.objects[CtrlId(g.drives[k])] == g.drives[k].ctrlWord as int
      ensures UserId(g.drives[k]) in g.air.objects
              && g.air.objects[UserId(g.drives[k])] == Bits16(g.drives[k].targetVelRaw)
    {
      IdsApart(f.drives, i, k);
      IdsApart(f.drives, k, i);
    }
  }

  // ----- halt -----

  /** Only the HALT bits of the control words differ. */
  predicate OnlyHalt(ds: seq<Drive>, es: seq<Drive>)
  {
    |ds| == |es|
    && forall i | 0 <= i < |ds| ::
         es[i] == ds[i].(ctrlWord := es[i].ctrlWord) && es[i].ctrlWord & !HALT == ds[i].ctrlWord & !HALT
  }

  /** The step of halt for a drive whose HALT bit has to change. */
  function Flipped(works: Works, f: Fleet, halt: bool, i: nat): (bool, Fleet)
    requires i < |f.drives|
  {
    var d := f.drives[i];
    var word := HaltWord(d.ctrlWord, halt);
    var (ok, a) := SendRpdo(works, f.air, d.nodeId, d.rpdoCtrl % 0x100, word as int);
    (ok, if ok then f.(drives := f.drives[i := d.(ctrlWord := word)], air := a) else f.(air := a))
  }

  lemma HaltUnfolds(works: Works, f: Fleet, halt: bool, i: nat)
    requires i < |f.drives|
    ensures HaltFrom(works, f, halt, i)
            == if halt == Halted(f.drives[i]) then HaltFrom(works, f, halt, i + 1)
               else var (ok, g) := Flipped(works, f, halt, i);
                    if ok || halt then HaltFrom(works, g, halt, i + 1) else HaltFrom(works, g, true, 0)
  {
  }

  lemma FlippedEffect(works: Works, f: Fleet, halt: bool, i: nat)
    requires i < |f.drives|
    ensures var (ok, g) := Flipped(works, f, halt, i);
            && |g.drives| == |f.drives| && OnlyHalt(f.drives, g.drives)
            && (forall k | 0 <= k < |f.drives| && k != i :: g.drives[k] == f.drives[k])
            && (if ok then Halted(g.drives[i]) == halt else g.drives == f.drives)
  {
    hide HaltWord, SendRpdo, Halted, OnlyHalt;
    var (ok, g) := Flipped(works, f, halt, i);
    OnlyHaltRefl(f.drives);
    if ok {
      FlipOne(f.drives, i, halt);
    }
  }

  lemma OnlyHaltRefl(drives: seq<Drive>)
    ensures OnlyHalt(drives, drives)
  {
  }

  lemma FlipOne(drives: seq<Drive>, i: nat, halt: bool)
    requires i < |drives|
    ensures var d := drives[i].(ctrlWord := HaltWord(drives[i].ctrlWord, halt));
            OnlyHalt(drives, drives[i := d]) && Halted(d) == halt
  {
  }

  /** From any drive on, halt keeps order and sends safely. */
  lemma {:induction false} HaltFromSteady(works: Works, f: Fleet, halt: bool, i: nat)
    requires Orderly(f) && i <= |f.drives|
    ensures Steady(f, HaltFrom(works, f, halt, i))
    decreases !halt, |f.drives| - i
  {
    hide Orderly, Steady, HaltFrom, Flipped;
    if i == |f.drives| {
      HaltDone(works, f, halt);
    } else {
      HaltUnfolds(works, f, halt, i);
      if halt == Halted(f.drives[i]) {
        HaltFromSteady(works, f, halt, i + 1);
      } else {
        var (ok, g) := Flipped(works, f, halt, i);
        FlippedSteady(works, f, halt, i);
        FlippedEffect(works, f, halt, i);
        SteadyOrderly(f, g);
        if ok || halt {
          HaltFromSteady(works, g, halt, i + 1);
          SteadyTrans(f, g, HaltFrom(works, g, halt, i + 1));
        } else {
          HaltFromSteady(works, g, true, 0);
          SteadyTrans(f, g, HaltFrom(works, g, true, 0));
        }
      }
    }
  }

  lemma FlippedSteady(works: Works, f: Fleet, halt: bool, i: nat)
    requires Orderly(f) && i < |f.drives|
    ensures Steady(f, Flipped(works, f, halt, i).1)
  {
    hide Orderly, Steady, HaltWord;
    CtrlSteady(works, f, i, HaltWord(f.drives[i].ctrlWord, halt));
  }

  lemma OnlyHaltTrans(a: seq<Drive>, b: seq<Drive>, c: seq<Drive>)
    requires OnlyHalt(a, b) && OnlyHalt(b, c)
    ensures OnlyHalt(a, c)
  {
  }

  /** halt changes HALT bits only, and it clears the flag only if all drives are un-halted. */
  lemma {:induction false} HaltFromFlag(works: Works, f: Fleet, halt: bool, i: nat)
    requires i <= |f.drives|
    requires !halt ==> forall k | 0 <= k < i :: !Halted(f.drives[k])
    ensures var g := HaltFrom(works, f, halt, i);
            OnlyHalt(f.drives, g.drives) && (halt ==> g.halt) && FlagHonest(g)
    decreases !halt, |f.drives| - i
  {
    hide HaltFrom, Flipped, OnlyHalt;
    if i == |f.drives| {
      HaltEnds(works, f, halt);
    } else {
      HaltUnfolds(works, f, halt, i);
      if halt == Halted(f.drives[i]) {
        HaltFromFlag(works, f, halt, i + 1);
      } else {
        var (ok, g) := Flipped(works, f, halt, i);
        FlippedEffect(works, f, halt, i);
        if ok || halt {
          HaltFromFlag(works, g, halt, i + 1);
          OnlyHaltTrans(f.drives, g.drives, HaltFrom(works, g, halt, i + 1).drives);
        } else {
          HaltFromFlag(works, g, true, 0);
          OnlyHaltTrans(f.drives, g.drives, HaltFrom(works, g, true, 0).drives);
        }
      }
    }
  }

  lemma HaltEnds(works: Works, f: Fleet, halt: bool)
    ensures HaltFrom(works, f, halt, |f.drives|) == f.(halt := halt)
    ensures OnlyHalt(f.drives, f.drives)
  {
  }

  lemma SteadyOrderly(f: Fleet, g: Fleet)
    requires Steady(f, g)
    ensures Orderly(g)
  {
  }

  lemma HaltDone(works: Works, f: Fleet, halt: bool)
    requires Orderly(f)
    ensures Steady(f, HaltFrom(works, f, halt, |f.drives|))
  {
  }

  /** The halting word for drive i was sent in vain. */
  predicate HaltLost(f: Fleet, g: Fleet, i: nat)
    requires i < |f.drives| == |g.drives|
  {
    exists j | |f.air.sent| <= j < |g.air.sent| ::
      g.air.sent[j] == Sent(CtrlId(f.drives[i]), HaltWord(g.drives[i].ctrlWord, true) as int, false)
  }

  /** Halting reaches every drive: afterwards it is halted or its halting word was lost. */
  lemma {:induction false} HaltAttempts(works: Works, f: Fleet, i: nat)
    requires i <= |f.drives|
    ensures var g := HaltFrom(works, f, true, i);
            && f.air.sent <= g.air.sent
            && (forall k | 0 <= k < i :: g.drives[k] == f.drives[k])
            && (forall k | i <= k < |f.drives| :: Halted(g.drives[k]) || HaltLost(f, g, k))
    decreases |f.drives| - i
  {
    hide HaltFrom, Flipped, Halted, HaltLost;
    var g := HaltFrom(works, f, true, i);
    if i == |f.drives| {
      HaltEnds(works, f, true);
    } else {
      HaltUnfolds(works, f, true, i);
      if Halted(f.drives[i]) {
        HaltAttempts(works, f, i + 1);
      } else {
        var (ok, f1) := Flipped(works, f, true, i);
        FlippedEffect(works, f, true, i);
        FlippedSent(works, f, i);
        HaltAttempts(works, f1, i + 1);
        if !ok {
          LostNow(works, f, g, i);
        }
        forall k | i < k < |f.drives|
          ensures Halted(g.drives[k]) || HaltLost(f, g, k)
        {
          if !Halted(g.drives[k]) {
            LostLater(f, f1, g, k);
          }
        }
      }
    }
  }

  lemma FlippedSent(works: Works, f: Fleet, i: nat)
    requires i < |f.drives|
    ensures var (ok, f1) := Flipped(works, f, true, i);
            && |f1.drives| == |f.drives|
            && f1.air.sent == f.air.sent + [Sent(CtrlId(f.drives[i]), HaltWord(f.drives[i].ctrlWord, true) as int, ok)]
  {
  }

  lemma LostNow(works: Works, f: Fleet, g: Fleet, i: nat)
    requires i < |f.drives| == |g.drives| && g.drives[i] == f.drives[i]
    requires var (ok, f1) := Flipped(works, f, true, i); !ok && f1.air.sent <= g.air.sent
    ensures HaltLost(f, g, i)
  {
    hide HaltWord;
    var j := |f.air.sent|;
    assert g.air.sent[j] == Sent(CtrlId(f.drives[i]), HaltWord(g.drives[i].ctrlWord, true) as int, false);
  }

  lemma LostLater(f: Fleet, f1: Fleet, g: Fleet, k: nat)
    requires k < |f.drives| == |f1.drives| == |g.drives| && f1.drives[k] == f.drives[k]
    requires f.air.sent <= f1.air.sent && HaltLost(f1, g, k)
    ensures HaltLost(f, g, k)
  {
  }

  /** What one flip sends. */
  lemma FlippedAir(works: Works, f: Fleet, halt: bool, i: nat)
    requires i < |f.drives|
    ensures var (ok, g) := Flipped(works, f, halt, i);
            && |g.air.sent| == |f.air.sent| + 1 && f.air.sent <= g.air.sent && g.air.sent[|f.air.sent|].ok == ok
  {
  }

  /** The fallback: an un-halt that leaves the flag set has met a failed send, in the state that
      is returned here, and then gone through all drives to halt them. */
  lemma {:induction false} UnhaltFallsBack(works: Works, f: Fleet, i: nat) returns (g: Fleet)
    requires i <= |f.drives|
    requires HaltFrom(works, f, false, i).halt
    ensures f.air.sent < g.air.sent && !g.air.sent[|g.air.sent| - 1].ok && |g.drives| == |f.drives|
    ensures HaltFrom(works, f, false, i) == HaltFrom(works, g, true, 0)
    decreases |f.drives| - i
  {
    hide HaltFrom, Flipped, Halted;
    if i == |f.drives| {
      HaltEnds(works, f, false);
      g := f;
    } else {
      HaltUnfolds(works, f, false, i);
      if !Halted(f.drives[i]) {
        g := UnhaltFallsBack(works, f, i + 1);
      } else {
        var (ok, f1) := Flipped(works, f, false, i);
        FlippedAir(works, f, false, i);
        FlippedEffect(works, f, false, i);
        if ok {
          g := UnhaltFallsBack(works, f1, i + 1);
        } else {
          g := f1;
        }
      }
    }
  }

  /** Un-halting is all or nothing: either every drive is un-halted and the flag is clear, or a
      send has failed, the flag is set, and from there every drive was halted or its halting word
      was lost; nothing but HALT bits changes. */
  lemma UnhaltAllOrNothing(works: Works, f: Fleet)
    ensures var g := Halt(works, f, false);
            && OnlyHalt(f.drives, g.drives)
            && if !g.halt then forall i | 0 <= i < |f.drives| :: !Halted(g.drives[i])
               else exists h: Fleet {:trigger Halt(works, h, true)} ::
                      && f.air.sent < h.air.sent && !h.air.sent[|h.air.sent| - 1].ok
                      && |h.drives| == |g.drives| && g == Halt(works, h, true)
                      && (forall i | 0 <= i < |g.drives| :: Halted(g.drives[i]) || HaltLost(h, g, i))
  {
    HaltFromFlag(works, f, false, 0);
    var g := Halt(works, f, false);
    if g.halt {
      var h := UnhaltFallsBack(works, f, 0);
      HaltAttempts(works, h, 0);
      assert g == Halt(works, h, true);
    }
  }

  // ----- velocities -----

  predicate Unhalted(f: Fleet) { forall i | 0 <= i < |f.drives| :: !Halted(f.drives[i]) }

  /** Un-halted mirrors that are right mean un-halted drives. */
  lemma ClearDevices(f: Fleet)
    requires Orderly(f) && Unhalted(f)
    ensures AllClear(f.drives, f.air.objects)
  {
    hide HaltBit;
    forall i | 0 <= i < |f.drives|
      ensures CtrlId(f.drives[i]) in f.air.objects && !HaltBit(f.air.objects[CtrlId(f.drives[i])])
    {
      assert !Halted(f.drives[i]);
      HaltBitOf(f.drives[i].ctrlWord);
    }
  }

  lemma Drive1Steady(works: Works, f: Fleet, i: nat, ref: real)
    requires Orderly(f) && Unhalted(f) && i < |f.drives|
    ensures Steady(f, Drive1(works, f, i, ref)) && Unhalted(Drive1(works, f, i, ref))
    ensures Drive1(works, f, i, ref).halt == f.halt
  {
    hide Target, Bits16, AllClear, IsReference;
    var d, g := f.drives[i], Drive1(works, f, i, ref);
    var target := Target(d, ref);
    ClearDevices(f);
    if target == d.targetVelRaw {
      SteadyRefl(f);
    } else {
      SafelySent(f.drives, works, f.air, d.nodeId, d.rpdoUser % 0x100, Bits16(target));
      UserNotCtrl(f.drives, i);
      SyncedUpdate(f, g, i, UserId(d), Bits16(target));
    }
  }

  lemma UserNotCtrl(drives: seq<Drive>, i: nat)
    requires Configured(drives) && i < |drives|
    ensures UserId(drives[i]) != CtrlId(drives[i])
  {
  }

  lemma {:induction false} DriveFromSteady(works: Works, f: Fleet, u: seq<real>, i: nat)
    requires Orderly(f) && Unhalted(f) && i <= |u| == |f.drives|
    ensures Steady(f, DriveFrom(works, f, u, i)) && Unhalted(DriveFrom(works, f, u, i))
    ensures DriveFrom(works, f, u, i).halt == f.halt
    decreases |u| - i
  {
    hide Drive1, Orderly, Steady, Unhalted;
    if i == |u| {
      SteadyRefl(f);
    } else {
      var g := Drive1(works, f, i, u[i]);
      Drive1Steady(works, f, i, u[i]);
      SteadyOrderly(f, g);
      SteadyCount(f, g);
      DriveFromSteady(works, g, u, i + 1);
      SteadyTrans(f, g, DriveFrom(works, g, u, i + 1));
    }
  }

  lemma SteadyCount(f: Fleet, g: Fleet)
    requires Steady(f, g)
    ensures |g.drives| == |f.drives|
  {
  }

  // ----- runs -----

  /** What can happen to the daemon: its references time out, a message arrives, the positions
      are updated. */
  datatype Act = HaltAll | Reference(msg: Message) | Feedback(pos: seq<real>)

  predicate Suits(act: Act, n: nat)
  {
    match act
    case HaltAll => true
    case Reference(msg) => |msg.u| == n
    case Feedback(pos) => |pos| == n
  }

  function WithPositions(drives: seq<Drive>, pos: seq<real>): seq<Drive>
    requires |pos| == |drives|
  {
    seq(|drives|, i requires 0 <= i < |drives| => drives[i].(actualPos := pos[i]))
  }

  function Do(works: Works, f: Fleet, act: Act): (g: Fleet)
    requires Suits(act, |f.drives|)
    ensures |g.drives| == |f.drives|
  {
    match act
    case HaltAll => Halt(works, f, true)
    case Reference(msg) => Process(works, f, msg)
    case Feedback(pos) => f.(drives := WithPositions(f.drives, pos))
  }

  function RunActs(works: Works, f: Fleet, acts: seq<Act>): Fleet
    requires forall a | a in acts :: Suits(a, |f.drives|)
    decreases |acts|
  {
    if acts == [] then f else RunActs(works, Do(works, f, acts[0]), acts[1..])
  }

  /** Changing positions or offsets only. */
  lemma QuietSteady(f: Fleet, g: Fleet)
    requires Orderly(f) && FlagHonest(f)
    requires g.halt == f.halt && g.air == f.air && |g.drives| == |f.drives|
    requires forall i | 0 <= i < |f.drives| ::
               g.drives[i] == f.drives[i].(actualPos := g.drives[i].actualPos, posOffset := g.drives[i].posOffset)
    ensures Steady(f, g) && FlagHonest(g)
  {
  }

  lemma ProcessSteady(works: Works, f: Fleet, msg: Message)
    requires Orderly(f) && FlagHonest(f) && |msg.u| == |f.drives|
    ensures Steady(f, Process(works, f, msg)) && FlagHonest(Process(works, f, msg))
  {
    hide Orderly, Steady, HaltFrom, DriveFrom;
    if msg.expired || msg.mode.OtherMode? {
      SteadyRefl(f);
    } else if msg.mode.PosOffsets? {
      QuietSteady(f, Process(works, f, msg));
    } else {
      var f1 := Halt(works, f, false);
      HaltFromSteady(works, f, false, 0);
      HaltFromFlag(works, f, false, 0);
      if !f1.halt {
        SteadyOrderly(f, f1);
        DriveFromSteady(works, f1, msg.u, 0);
        SteadyTrans(f, f1, DriveFrom(works, f1, msg.u, 0));
      }
    }
  }

  /** Safety of the daemon.  In every state that any run reaches, with any failed sends, a clear
      halt flag means that no drive is halted, the mirrors of control word and target equal the
      last values that reached the drives, and every reference was sent while no drive, on its
      own side, had the HALT bit set. */
  lemma {:induction false} RunSafe(works: Works, f: Fleet, acts: seq<Act>)
    requires Orderly(f) && FlagHonest(f)
    requires forall a | a in acts :: Suits(a, |f.drives|)
    ensures Steady(f, RunActs(works, f, acts)) && FlagHonest(RunActs(works, f, acts))
    decreases |acts|
  {
    hide Orderly, Steady, FlagHonest, HaltFrom, Process;
    if acts == [] {
      SteadyRefl(f);
    } else {
      var g := Do(works, f, acts[0]);
      match acts[0] {
        case HaltAll =>
          HaltFromSteady(works, f, true, 0);
          HaltFromFlag(works, f, true, 0);
        case Reference(msg) => ProcessSteady(works, f, msg);
        case Feedback(pos) => QuietSteady(f, g);
      }
      SteadyOrderly(f, g);
      RunSafe(works, g, acts[1..]);
      SteadyTrans(f, g, RunActs(works, g, acts[1..]));
    }
  }

  // ----- the send suppression is a correct cache -----

  /** The loop that always sends. */
  function AlwaysFrom(works: Works, f: Fleet, u: seq<real>, i: nat): (g: Fleet)
    requires i <= |u| == |f.drives|
    ensures |g.drives| == |f.drives|
    decreases |u| - i
  {
    if i == |u| then f
    else
      var d := f.drives[i];
      var target := Target(d, u[i]);
      var (ok, a) := SendRpdo(works, f.air, d.nodeId, d.rpdoUser % 0x100, Bits16(target));
      var g := if ok then f.(drives := f.drives[i := d.(targetVelRaw := target)], air := a) else f.(air := a);
      AlwaysFrom(works, g, u, i + 1)
  }

  function DoAlways(works: Works, f: Fleet, act: Act): (g: Fleet)
    requires Suits(act, |f.drives|)
    ensures |g.drives| == |f.drives|
  {
    if act.Reference? && !act.msg.expired && act.msg.mode.Velocities? then
      var f1 := Halt(works, f, false);
      if f1.halt then f1 else AlwaysFrom(works, f1, act.msg.u, 0)
    else Do(works, f, act)
  }

  function RunAlways(works: Works, f: Fleet, acts: seq<Act>): Fleet
    requires forall a | a in acts :: Suits(a, |f.drives|)
    decreases |acts|
  {
    if acts == [] then f else RunAlways(works, DoAlways(works, f, acts[0]), acts[1..])
  }

  /** Equal but for the PDOs that were sent. */
  predicate Alike(f: Fleet, g: Fleet)
  {
    f.drives == g.drives && f.halt == g.halt && f.air.objects == g.air.objects
  }

  ghost predicate AllWork(works: Works) { forall n: nat :: works(n) }

  lemma {:induction false} HaltAlike(works: Works, f: Fleet, g: Fleet, halt: bool, i: nat)
    requires AllWork(works) && Alike(f, g) && i <= |f.drives|
    ensures Alike(HaltFrom(works, f, halt, i), HaltFrom(works, g, halt, i))
    decreases |f.drives| - i
  {
    hide HaltFrom, Flipped;
    if i == |f.drives| {
      HaltEnds(works, f, halt);
      HaltEnds(works, g, halt);
    } else {
      HaltUnfolds(works, f, halt, i);
      HaltUnfolds(works, g, halt, i);
      if halt == Halted(f.drives[i]) {
        HaltAlike(works, f, g, halt, i + 1);
      } else {
        FlippedEffect(works, f, halt, i);
        FlippedAlike(works, f, g, halt, i);
        HaltAlike(works, Flipped(works, f, halt, i).1, Flipped(works, g, halt, i).1, halt, i + 1);
      }
    }
  }

  lemma FlippedAlike(works: Works, f: Fleet, g: Fleet, halt: bool, i: nat)
    requires AllWork(works) && Alike(f, g) && i < |f.drives|
    ensures Flipped(works, f, halt, i).0 && Flipped(works, g, halt, i).0
    ensures Alike(Flipped(works, f, halt, i).1, Flipped(works, g, halt, i).1)
  {
  }

  lemma {:induction false} DriveAlike(works: Works, f: Fleet, g: Fleet, u: seq<real>, i: nat)
    requires AllWork(works) && Alike(f, g) && Orderly(f) && Unhalted(f) && i <= |u| == |f.drives|
    ensures Alike(DriveFrom(works, f, u, i), AlwaysFrom(works, g, u, i))
    decreases |u| - i
  {
    hide Orderly, Unhalted, Target, Steady, Bits16;
    if i < |u| {
      var d := f.drives[i];
      var target := Target(d, u[i]);
      var f1 := Drive1(works, f, i, u[i]);
      assert works(|f.air.sent|) && works(|g.air.sent|);
      var a := SendRpdo(works, g.air, d.nodeId, d.rpdoUser % 0x100, Bits16(target)).1;
      var g1 := g.(drives := g.drives[i := d.(targetVelRaw := target)], air := a);
      if target == d.targetVelRaw {
        TargetHeld(f, i);
        assert f.air.objects[UserId(d) := Bits16(target)] == f.air.objects;
        assert g.drives[i := d.(targetVelRaw := target)] == g.drives;
      }
      assert Alike(f1, g1);
      Drive1Steady(works, f, i, u[i]);
      SteadyOrderly(f, f1);
      DriveAlike(works, f1, g1, u, i + 1);
    }
  }

  lemma TargetHeld(f: Fleet, i: nat)
    requires Orderly(f) && i < |f.drives|
    ensures var d := f.drives[i];
            UserId(d) in f.air.objects && f.air.objects[UserId(d)] == Bits16(d.targetVelRaw)
  {
  }

  lemma UnhaltedFlag(f: Fleet)
    requires FlagHonest(f) && !f.halt
    ensures Unhalted(f)
  {
  }

  lemma DoAlike(works: Works, f: Fleet, g: Fleet, act: Act)
    requires AllWork(works) && Alike(f, g) && Orderly(f) && Suits(act, |f.drives|)
    ensures Alike(Do(works, f, act), DoAlways(works, g, act))
  {
    hide Orderly, Steady, HaltFrom, DriveFrom, AlwaysFrom, AllWork, FlagHonest, Unhalted;
    match act {
      case HaltAll => HaltAlike(works, f, g, true, 0);
      case Reference(msg) =>
        if !msg.expired && msg.mode.Velocities? {
          HaltAlike(works, f, g, false, 0);
          var f1, g1 := Halt(works, f, false), Halt(works, g, false);
          if !f1.halt {
            HaltFromSteady(works, f, false, 0);
            HaltFromFlag(works, f, false, 0);
            SteadyOrderly(f, f1);
            UnhaltedFlag(f1);
            DriveAlike(works, f1, g1, msg.u, 0);
          }
        }
      case Feedback(_) =>
    }
  }

  /** Suppressing unchanged targets cannot be seen by the drives: while sends succeed, any run
      leaves the same drive objects, mirrors and flag as the run that always sends. */
  lemma {:induction false} SuppressionInvisible(works: Works, f: Fleet, g: Fleet, acts: seq<Act>)
    requires AllWork(works) && Alike(f, g) && Orderly(f) && FlagHonest(f)
    requires forall a | a in acts :: Suits(a, |f.drives|)
    ensures Alike(RunActs(works, f, acts), RunAlways(works, g, acts))
    decreases |acts|
  {
    hide Orderly, Steady, FlagHonest, Do, DoAlways, AllWork;
    if acts != [] {
      var f1 := Do(works, f, acts[0]);
      DoAlike(works, f, g, acts[0]);
      RunSafe(works, f, [acts[0]]);
      OneAct(works, f, acts[0]);
      SteadyOrderly(f, f1);
      SteadyCount(f, f1);
      SuppressionInvisible(works, f1, DoAlways(works, g, acts[0]), acts[1..]);
    }
  }

  lemma OneAct(works: Works, f: Fleet, act: Act)
    requires Suits(act, |f.drives|)
    ensures RunActs(works, f, [act]) == Do(works, f, act)
  {
  }

  lemma {:induction false} DriveFromReaches(works: Works, f: Fleet, u: seq<real>, i: nat)
    requires AllWork(works) && i <= |u| == |f.drives|
    ensures var g := DriveFrom(works, f, u, i);
            && (forall k | 0 <= k < i :: g.drives[k] == f.drives[k])
            && (forall k | i <= k < |u| :: g.drives[k] == f.drives[k].(targetVelRaw := Target(f.drives[k], u[k])))
    decreases |u| - i
  {
    hide Target, Bits16;
    if i < |u| {
      assert works(|f.air.sent|);
      DriveFromReaches(works, Drive1(works, f, i, u[i]), u, i + 1);
    }
  }

  /** A velocity message that is not expired, with all sends working, un-halts every drive and
      gives it the limited and saturated reference, on the drive's own side too. */
  lemma MessageReachesDrives(works: Works, f: Fleet, msg: Message)
    requires AllWork(works) && Orderly(f) && |msg.u| == |f.drives|
    requires !msg.expired && msg.mode == Velocities
    ensures var g := Process(works, f, msg);
            && !g.halt && AllClear(g.drives, g.air.objects)
            && forall i | 0 <= i < |f.drives| ::
                 var id := UserId(f.drives[i]);
                 id in g.air.objects && g.air.objects[id] == Bits16(Target(f.drives[i], msg.u[i]))
  {
    hide Target, Bits16, Steady, AllClear, DriveFrom, HaltFrom;
    var f1, g := Halt(works, f, false), Process(works, f, msg);
    HaltFromSteady(works, f, false, 0);
    HaltFromFlag(works, f, false, 0);
    HaltWorks(works, f, 0);
    SteadyOrderly(f, f1);
    UnhaltedFlag(f1);
    DriveFromSteady(works, f1, msg.u, 0);
    DriveFromReaches(works, f1, msg.u, 0);
    SteadyOrderly(f1, g);
    ClearDevices(g);
    forall i | 0 <= i < |f.drives|
      ensures var id := UserId(f.drives[i]);
              id in g.air.objects && g.air.objects[id] == Bits16(Target(f.drives[i], msg.u[i]))
    {
      assert f1.drives[i] == f.drives[i].(ctrlWord := f1.drives[i].ctrlWord);
      TargetIgnoresCtrl(f.drives[i], f1.drives[i].ctrlWord, msg.u[i]);
      TargetHeld(g, i);
    }
  }

  lemma TargetIgnoresCtrl(d: Drive, w: bv16, ref: real)
    ensures Target(d.(ctrlWord := w), ref) == Target(d, ref)
  {
  }

  lemma {:induction false} HaltWorks(works: Works, f: Fleet, i: nat)
    requires AllWork(works) && i <= |f.drives|
    ensures !HaltFrom(works, f, false, i).halt
    decreases |f.drives| - i
  {
    hide HaltFrom, Flipped;
    if i == |f.drives| {
      HaltEnds(works, f, false);
    } else {
      HaltUnfolds(works, f, false, i);
      FlippedEffect(works, f, false, i);
      FlippedAlike(works, f, f, false, i);
      HaltWorks(works, if Halted(f.drives[i]) then Flipped(works, f, false, i).1 else f, i + 1);
    }
  }

  // ----- suppression without different nodes -----

  /** The mirrors of the targets are right, and fit in an int16_t. */
  predicate TargetsSynced(f: Fleet)
  {
    forall i | 0 <= i < |f.drives| ::
      var d := f.drives[i];
      && -0x8000 <= d.targetVelRaw < 0x8000
      && UserId(d) in f.air.objects && f.air.objects[UserId(d)] == Bits16(d.targetVelRaw)
  }

  /** Drive i gets another target than the one its mirror holds. */
  predicate Changes(ds: seq<Drive>, u: seq<real>, i: nat)
    requires i < |ds| == |u|
  {
    Target(ds[i], u[i]) != ds[i].targetVelRaw
  }

  /** The last drive from i on that writes an object; `all` for the loop that always sends. */
  function LastWriter(ds: seq<Drive>, u: seq<real>, i: nat, id: u32, all: bool): (r: Option<nat>)
    requires i <= |ds| == |u|
    ensures match r
            case Some(k) => i <= k < |ds| && UserId(ds[k]) == id && (all || Changes(ds, u, k))
                            && forall j | k < j < |ds| && UserId(ds[j]) == id :: !all && !Changes(ds, u, j)
            case None => forall j | i <= j < |ds| && UserId(ds[j]) == id :: !all && !Changes(ds, u, j)
    decreases |ds| - i
  {
    if i == |ds| then None
    else
      var later := LastWriter(ds, u, i + 1, id, all);
      if later.Some? then later
      else if UserId(ds[i]) == id && (all || Changes(ds, u, i)) then Some(i)
      else None
  }

  /** What a loop leaves in an object. */
  predicate Left(objects: map<u32, u16>, objects': map<u32, u16>, id: u32, ds: seq<Drive>, u: seq<real>, w: Option<nat>)
    requires |ds| == |u| && (w.Some? ==> w.value < |ds|)
  {
    match w
    case Some(k) => id in objects' && objects'[id] == Bits16(Target(ds[k], u[k]))
    case None => (id in objects' <==> id in objects) && (id in objects ==> objects'[id] == objects[id])
  }

  /** The targets do not depend on the mirrors of other drives. */
  lemma SameChanges(ds: seq<Drive>, es: seq<Drive>, u: seq<real>, i: nat, id: u32, all: bool)
    requires i <= |ds| == |es| == |u| && (forall k | i <= k < |ds| :: es[k] == ds[k])
    ensures LastWriter(es, u, i, id, all) == LastWriter(ds, u, i, id, all)
    decreases |ds| - i
  {
    if i < |ds| {
      SameChanges(ds, es, u, i + 1, id, all);
    }
  }

  lemma LeftAlone(objects: map<u32, u16>, id: u32, ds: seq<Drive>, u: seq<real>, all: bool)
    requires |ds| == |u|
    ensures Left(objects, objects, id, ds, u, LastWriter(ds, u, |u|, id, all))
  {
  }

  /** One step of a loop before the others. */
  lemma LeftByTwo(a: map<u32, u16>, b: map<u32, u16>, c: map<u32, u16>, id: u32, ds: seq<Drive>, es: seq<Drive>,
                  u: seq<real>, i: nat, all: bool)
    requires i < |ds| == |es| == |u| && (forall k | i < k < |ds| :: es[k] == ds[k])
    requires b == if all || Changes(ds, u, i) then a[UserId(ds[i]) := Bits16(Target(ds[i], u[i]))] else a
    requires LastWriter(es, u, i + 1, id, all) == LastWriter(ds, u, i + 1, id, all)
    requires Left(b, c, id, es, u, LastWriter(es, u, i + 1, id, all))
    ensures Left(a, c, id, ds, u, LastWriter(ds, u, i, id, all))
  {
    hide Target, Bits16, UserId, Changes;
  }

  lemma {:induction false} SuppressedLeaves(works: Works, f: Fleet, u: seq<real>, i: nat, id: u32)
    requires AllWork(works) && i <= |u| == |f.drives|
    ensures Left(f.air.objects, DriveFrom(works, f, u, i).air.objects, id, f.drives, u,
                 LastWriter(f.drives, u, i, id, false))
    decreases |u| - i
  {
    hide Target, Bits16, Left, LastWriter;
    if i == |u| {
      LeftAlone(f.air.objects, id, f.drives, u, false);
    } else {
      assert works(|f.air.sent|);
      var g := Drive1(works, f, i, u[i]);
      SuppressedLeaves(works, g, u, i + 1, id);
      SameChanges(f.drives, g.drives, u, i + 1, id, false);
      var end := DriveFrom(works, f, u, i).air.objects;
      LeftByTwo(f.air.objects, g.air.objects, end, id, f.drives, g.drives, u, i, false);
    }
  }

  lemma {:induction false} AlwaysLeaves(works: Works, f: Fleet, u: seq<real>, i: nat, id: u32)
    requires AllWork(works) && i <= |u| == |f.drives|
    ensures Left(f.air.objects, AlwaysFrom(works, f, u, i).air.objects, id, f.drives, u,
                 LastWriter(f.drives, u, i, id, true))
    decreases |u| - i
  {
    hide Target, Bits16, Left, LastWriter;
    if i == |u| {
      LeftAlone(f.air.objects, id, f.drives, u, true);
    } else {
      assert works(|f.air.sent|);
      var d, target := f.drives[i], Target(f.drives[i], u[i]);
      var a := SendRpdo(works, f.air, d.nodeId, d.rpdoUser % 0x100, Bits16(target)).1;
      var g := f.(drives := f.drives[i := d.(targetVelRaw := target)], air := a);
      AlwaysLeaves(works, g, u, i + 1, id);
      SameChanges(f.drives, g.drives, u, i + 1, id, true);
      var end := AlwaysFrom(works, f, u, i).air.objects;
      LeftByTwo(f.air.objects, g.air.objects, end, id, f.drives, g.drives, u, i, true);
    }
  }

  lemma {:induction false} AlwaysReaches(works: Works, f: Fleet, u: seq<real>, i: nat)
    requires AllWork(works) && i <= |u| == |f.drives|
    ensures var g := AlwaysFrom(works, f, u, i);
            && g.halt == f.halt
            && (forall k | 0 <= k < i :: g.drives[k] == f.drives[k])
            && (forall k | i <= k < |u| :: g.drives[k] == f.drives[k].(targetVelRaw := Target(f.drives[k], u[k])))
    decreases |u| - i
  {
    hide Target, Bits16;
    if i < |u| {
      assert works(|f.air.sent|);
      var d, target := f.drives[i], Target(f.drives[i], u[i]);
      var a := SendRpdo(works, f.air, d.nodeId, d.rpdoUser % 0x100, Bits16(target)).1;
      AlwaysReaches(works, f.(drives := f.drives[i := d.(targetVelRaw := target)], air := a), u, i + 1);
    }
  }

  lemma {:induction false} DriveFromFlag(works: Works, f: Fleet, u: seq<real>, i: nat)
    requires i <= |u| == |f.drives|
    ensures DriveFrom(works, f, u, i).halt == f.halt
    decreases |u| - i
  {
    hide Target, Bits16;
    if i < |u| {
      DriveFromFlag(works, Drive1(works, f, i, u[i]), u, i + 1);
    }
  }

  /** Drive i is the last one with its reference object. */
  predicate LastOfObject(ds: seq<Drive>, i: nat)
    requires i < |ds|
  {
    forall j | i < j < |ds| :: UserId(ds[j]) != UserId(ds[i])
  }

  /** For every reference object: the last drive that shares it gets a new target, or none of the
      drives before it does. */
  predicate LastDecides(ds: seq<Drive>, u: seq<real>)
    requires |ds| == |u|
  {
    forall i, j | 0 <= j < i < |ds| && LastOfObject(ds, i) && UserId(ds[j]) == UserId(ds[i]) ::
      Changes(ds, u, j) ==> Changes(ds, u, i)
  }

  lemma SaturatedFinite(v: real)
    ensures VEL_MIN as real <= v <= VEL_MAX as real ==> VEL_MIN <= Truncated(v) <= VEL_MAX
  {
    Bounded(v);
  }

  lemma SaturatedRange(e: Ext, factor: real)
    ensures VEL_MIN <= Saturated(e, factor) <= VEL_MAX
  {
    if e.Fin? {
      SaturatedFinite(e.r * factor);
    }
  }

  lemma TargetRange(d: Drive, ref: real)
    ensures -0x8000 <= Target(d, ref) < 0x8000
  {
    SaturatedRange(Limited(d, ref), d.velFactor);
  }

  lemma BitsDiffer(v: int, w: int)
    requires -0x8000 <= v < 0x8000 && -0x8000 <= w < 0x8000
    ensures Bits16(v) == Bits16(w) <==> v == w
  {
  }

  /** What the two loops leave in the object of drive i, the last one that shares it. */
  lemma LastObject(works: Works, f: Fleet, u: seq<real>, i: nat)
    requires AllWork(works) && TargetsSynced(f) && i < |u| == |f.drives| && LastOfObject(f.drives, i)
    ensures var id := UserId(f.drives[i]);
            var cached, always := DriveFrom(works, f, u, 0).air.objects, AlwaysFrom(works, f, u, 0).air.objects;
            && id in cached && id in always
            && (cached[id] == always[id] <==>
                  || Changes(f.drives, u, i)
                  || forall j | 0 <= j < i && UserId(f.drives[j]) == id :: !Changes(f.drives, u, j))
  {
    hide Target, Bits16;
    var ds, id := f.drives, UserId(f.drives[i]);
    SuppressedLeaves(works, f, u, 0, id);
    AlwaysLeaves(works, f, u, 0, id);
    var w := LastWriter(ds, u, 0, id, false);
    assert LastWriter(ds, u, 0, id, true) == Some(i);
    if w.Some? {
      TargetRange(ds[w.value], u[w.value]);
      BitsDiffer(Target(ds[w.value], u[w.value]), ds[w.value].targetVelRaw);
      BitsDiffer(ds[i].targetVelRaw, ds[w.value].targetVelRaw);
    }
  }

  /** Every object that some drive uses has a last drive. */
  lemma {:induction false} LastExists(ds: seq<Drive>, i: nat) returns (k: nat)
    requires i < |ds|
    ensures i <= k < |ds| && LastOfObject(ds, k) && UserId(ds[k]) == UserId(ds[i])
    decreases |ds| - i
  {
    k := i;
    if !LastOfObject(ds, i) {
      var j :| i < j < |ds| && UserId(ds[j]) == UserId(ds[i]);
      k := LastExists(ds, j);
    }
  }

  /** The send suppression for any drives, nodes given twice included: from right mirrors and with
      working sends, a message leaves the same objects, mirrors and flag as the loop that always
      sends exactly if for every reference object the last drive that shares it gets a new target
      or none before it does. */
  lemma SuppressionExactly(works: Works, f: Fleet, u: seq<real>)
    requires AllWork(works) && TargetsSynced(f) && |u| == |f.drives|
    ensures Alike(DriveFrom(works, f, u, 0), AlwaysFrom(works, f, u, 0)) <==> LastDecides(f.drives, u)
  {
    hide Target, Bits16, DriveFrom, AlwaysFrom, AllWork, TargetsSynced, LastWriter, Changes;
    var ds, g, h := f.drives, DriveFrom(works, f, u, 0), AlwaysFrom(works, f, u, 0);
    DriveFromReaches(works, f, u, 0);
    AlwaysReaches(works, f, u, 0);
    DriveFromFlag(works, f, u, 0);
    assert g.drives == h.drives;
    if LastDecides(ds, u) {
      forall id: u32
        ensures (id in g.air.objects <==> id in h.air.objects)
                && (id in g.air.objects ==> g.air.objects[id] == h.air.objects[id])
      {
        if i :| 0 <= i < |ds| && UserId(ds[i]) == id {
          var k := LastExists(ds, i);
          LastObject(works, f, u, k);
        } else {
          NoWriter(works, f, u, id);
        }
      }
      assert g.air.objects == h.air.objects;
    } else {
      var i, j :| 0 <= j < i < |ds| && LastOfObject(ds, i) && UserId(ds[j]) == UserId(ds[i])
                  && Changes(ds, u, j) && !Changes(ds, u, i);
      LastObject(works, f, u, i);
    }
  }

  lemma NoWriter(works: Works, f: Fleet, u: seq<real>, id: u32)
    requires AllWork(works) && |u| == |f.drives| && forall i | 0 <= i < |u| :: UserId(f.drives[i]) != id
    ensures var g, h := DriveFrom(works, f, u, 0).air.objects, AlwaysFrom(works, f, u, 0).air.objects;
            (id in g <==> id in h) && (id in g ==> g[id] == h[id])
  {
    hide Target, Bits16;
    SuppressedLeaves(works, f, u, 0, id);
    AlwaysLeaves(works, f, u, 0, id);
  }

  /** A drive at rest inside its soft band, with unit factors. */
  function Resting(node: u8): Drive
  {
    Drive(node, 0, 0, 2, 1.0, 1.0, 0, 0, 0, 10.0, -10.0, 20.0, -20.0, 0.0, 0.0, 0.0, 1, 0, 1)
  }

  /** The node 3 given twice. */
  function TwiceThree(): Fleet
  {
    Fleet([Resting(3), Resting(3)], false, Air(map[UserId(Resting(3)) := Bits16(0)], []))
  }

  /** Why nodes must be different: with one node given twice and the references 5 and 0, the
      suppressing loop leaves the drive at 5 and the loop that always sends at 0. */
  lemma SharedNodeBreaksCache(works: Works)
    requires AllWork(works)
    ensures !Alike(DriveFrom(works, TwiceThree(), [5.0, 0.0], 0), AlwaysFrom(works, TwiceThree(), [5.0, 0.0], 0))
  {
    hide DriveFrom, AlwaysFrom, Alike;
    var f, u := TwiceThree(), [5.0, 0.0];
    assert Target(Resting(3), 5.0) == 5 && Target(Resting(3), 0.0) == 0;
    SuppressionExactly(works, f, u);
    assert LastOfObject(f.drives, 1) && Changes(f.drives, u, 0) && !Changes(f.drives, u, 1);
  }
}
