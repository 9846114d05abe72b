/** What the messages of the daemon do, with the numbers of the process data they send: where every
    reference comes from, what expired messages do, and what a failed send leaves. */
module DaemonRuns {
  import opened Can
  import opened Ds402
  import opened PosLimit
  import opened Can402
  import opened Can402Safety

  // ----- the identifiers -----

  /** Control word and reference go out as the RPDOs of the drive, of 8-bit numbers. */
  lemma SendIds(d: Drive)
    requires Addressed(d)
    ensures CtrlId(d) == 0x200 + 0x100 * d.rpdoCtrl + d.nodeId
    ensures UserId(d) == 0x200 + 0x100 * d.rpdoUser + d.nodeId
  {
  }

  /** The HALT bit is 0x100; setting and clearing it leaves the others. */
  lemma HaltWords(w: bv16)
    ensures HaltWord(w, true) == w | 0x0100 && HaltWord(w, false) == w & 0xFEFF
  {
  }

  // ----- expired messages -----

  predicate Expired(act: Act) { act.Reference? && act.msg.expired }

  /** An expired message does nothing, and one of another mode neither. */
  lemma ExpiredIgnored(works: Works, f: Fleet, msg: Message)
    requires |msg.u| == |f.drives| && (msg.expired || msg.mode == OtherMode)
    ensures Process(works, f, msg) == f
  {
  }

  /** The acts without the expired messages. */
  function Fresh(acts: seq<Act>): (r: seq<Act>)
    ensures forall a | a in r :: a in acts && !Expired(a)
    decreases |acts|
  {
    if acts == [] then []
    else if Expired(acts[0]) then Fresh(acts[1..])
    else
      assert forall a | a in acts[1..] :: a in acts;
      [acts[0]] + Fresh(acts[1..])
  }

  /** Any run is the run without its expired messages. */
  lemma {:induction false} ExpiredInvisible(works: Works, f: Fleet, acts: seq<Act>)
    requires forall a | a in acts :: Suits(a, |f.drives|)
    ensures RunActs(works, f, acts) == RunActs(works, f, Fresh(acts))
    decreases |acts|
  {
    hide HaltFrom, DriveFrom;
    if acts != [] {
      assert acts[0] in acts;
      var g := Do(works, f, acts[0]);
      ExpiredInvisible(works, g, acts[1..]);
      if !Expired(acts[0]) {
        assert Fresh(acts)[1..] == Fresh(acts[1..]);
      }
    }
  }

  // ----- where references come from -----

  /** The j-th PDO is a reference that an unexpired velocity message gave to one of the drives. */
  predicate StemsFrom(f: Fleet, act: Act, s: Sent)
    requires Suits(act, |f.drives|)
  {
    && act.Reference? && !act.msg.expired && act.msg.mode == Velocities
    && exists i | 0 <= i < |f.drives| ::
         s.cobId == UserId(f.drives[i]) && s.value == Bits16(Target(f.drives[i], act.msg.u[i]))
  }

  predicate IsCtrl(drives: seq<Drive>, s: Sent)
  {
    exists i | 0 <= i < |drives| :: s.cobId == CtrlId(drives[i])
  }

  /** Halting and un-halting send control words only. */
  lemma {:induction false} HaltSendsCtrl(works: Works, f: Fleet, halt: bool, i: nat)
    requires i <= |f.drives|
    ensures var g := HaltFrom(works, f, halt, i);
            && f.air.sent <= g.air.sent
            && forall j | |f.air.sent| <= j < |g.air.sent| :: IsCtrl(f.drives, g.air.sent[j])
    decreases !halt, |f.drives| - i
  {
    hide HaltFrom, Flipped, IsCtrl;
    if i == |f.drives| {
      HaltEnds(works, f, halt);
    } else {
      HaltUnfolds(works, f, halt, i);
      if halt == Halted(f.drives[i]) {
        HaltSendsCtrl(works, f, halt, i + 1);
      } else {
        var (ok, g) := Flipped(works, f, halt, i);
        FlippedCtrl(works, f, halt, i);
        FlippedEffect(works, f, halt, i);
        var h := if ok || halt then HaltFrom(works, g, halt, i + 1) else HaltFrom(works, g, true, 0);
        if ok || halt {
          HaltSendsCtrl(works, g, halt, i + 1);
        } else {
          HaltSendsCtrl(works, g, true, 0);
        }
        forall j | |f.air.sent| <= j < |h.air.sent|
          ensures IsCtrl(f.drives, h.air.sent[j])
        {
          if j < |g.air.sent| {
            assert h.air.sent[j] == g.air.sent[j];
          } else {
            SameCtrl(f.drives, g.drives, h.air.sent[j]);
          }
        }
      }
    }
  }

  lemma FlippedCtrl(works: Works, f: Fleet, halt: bool, i: nat)
    requires i < |f.drives|
    ensures var g := Flipped(works, f, halt, i).1;
            && |g.air.sent| == |f.air.sent| + 1 && f.air.sent <= g.air.sent
            && IsCtrl(f.drives, g.air.sent[|f.air.sent|])
  {
    hide HaltWord;
    var g := Flipped(works, f, halt, i).1;
    assert g.air.sent[|f.air.sent|].cobId == CtrlId(f.drives[i]);
  }

  lemma SameCtrl(ds: seq<Drive>, es: seq<Drive>, s: Sent)
    requires OnlyHalt(ds, es) && IsCtrl(es, s)
    ensures IsCtrl(ds, s)
  {
    hide Halted;
    var i :| 0 <= i < |es| && s.cobId == CtrlId(es[i]);
    assert es[i] == ds[i].(ctrlWord := es[i].ctrlWord);
  }

  /** The drives differ in control words and raw targets only. */
  predicate SameButWords(ds: seq<Drive>, es: seq<Drive>)
  {
    && |ds| == |es|
    && forall k | 0 <= k < |ds| ::
         es[k] == ds[k].(ctrlWord := es[k].ctrlWord, targetVelRaw := es[k].targetVelRaw)
  }

  lemma TargetIgnoresWords(d: Drive, w: bv16, t: int, ref: real)
    ensures Target(d.(ctrlWord := w, targetVelRaw := t), ref) == Target(d, ref)
    ensures UserId(d.(ctrlWord := w, targetVelRaw := t)) == UserId(d)
  {
  }

  /** The velocity loop sends references of the message only. */
  lemma {:induction false} DriveSendsTargets(works: Works, f: Fleet, start: Fleet, msg: Message, i: nat)
    requires |msg.u| == |f.drives| == |start.drives| && i <= |f.drives|
    requires SameButWords(start.drives, f.drives) && !msg.expired && msg.mode == Velocities
    ensures var g := DriveFrom(works, f, msg.u, i);
            && f.air.sent <= g.air.sent && SameButWords(start.drives, g.drives)
            && forall j | |f.air.sent| <= j < |g.air.sent| :: StemsFrom(start, Reference(msg), g.air.sent[j])
    decreases |f.drives| - i
  {
    hide Target, Bits16, StemsFrom, UserId;
    if i < |f.drives| {
      var f1 := Drive1(works, f, i, msg.u[i]);
      DriveSendsTargets(works, f1, start, msg, i + 1);
      var g := DriveFrom(works, f, msg.u, i);
      if |f1.air.sent| > |f.air.sent| {
        OneStems(works, f, start, msg, i);
        assert g.air.sent[|f.air.sent|] == f1.air.sent[|f.air.sent|];
      }
    }
  }

  lemma OneStems(works: Works, f: Fleet, start: Fleet, msg: Message, i: nat)
    requires |msg.u| == |f.drives| == |start.drives| && i < |f.drives|
    requires SameButWords(start.drives, f.drives) && !msg.expired && msg.mode == Velocities
    requires |Drive1(works, f, i, msg.u[i]).air.sent| > |f.air.sent|
    ensures StemsFrom(start, Reference(msg), Drive1(works, f, i, msg.u[i]).air.sent[|f.air.sent|])
  {
    hide Target, Bits16;
    var d, e := start.drives[i], f.drives[i];
    TargetIgnoresWords(d, e.ctrlWord, e.targetVelRaw, msg.u[i]);
    var s := Drive1(works, f, i, msg.u[i]).air.sent[|f.air.sent|];
    assert s.cobId == UserId(d) && s.value == Bits16(Target(d, msg.u[i]));
  }

  /** Every PDO of an act is a control word, or the reference of an unexpired velocity message. */
  lemma ActSends(works: Works, f: Fleet, act: Act)
    requires Suits(act, |f.drives|)
    ensures var g := Do(works, f, act);
            && f.air.sent <= g.air.sent
            && forall j | |f.air.sent| <= j < |g.air.sent| ::
                 IsCtrl(f.drives, g.air.sent[j]) || StemsFrom(f, act, g.air.sent[j])
  {
    hide HaltFrom, DriveFrom, StemsFrom, IsCtrl, OnlyHalt;
    match act {
      case HaltAll => HaltSendsCtrl(works, f, true, 0);
      case Reference(msg) =>
        if !msg.expired && msg.mode.Velocities? {
          HaltSendsCtrl(works, f, false, 0);
          HaltFromFlag(works, f, false, 0);
          var f1 := Halt(works, f, false);
          if !f1.halt {
            HaltSame(f.drives, f1.drives);
            DriveSendsTargets(works, f1, f, msg, 0);
            var g := DriveFrom(works, f1, msg.u, 0);
            assert forall j | |f.air.sent| <= j < |f1.air.sent| :: g.air.sent[j] == f1.air.sent[j];
          }
        }
      case Feedback(_) =>
    }
  }

  lemma HaltSame(ds: seq<Drive>, es: seq<Drive>)
    requires OnlyHalt(ds, es)
    ensures SameButWords(ds, es)
  {
  }

  /** Provenance: in any run, with any failed sends, every reference that goes out was given by a
      message of velocities that was not expired, to that drive, limited by where the drive was then;
      the act and the state before it are returned. */
  lemma {:induction false} ReferencesStem(works: Works, f: Fleet, acts: seq<Act>, j: nat) returns (n: nat)
    requires Orderly(f) && FlagHonest(f) && (forall a | a in acts :: Suits(a, |f.drives|))
    requires |f.air.sent| <= j < |RunActs(works, f, acts).air.sent|
    requires IsReference(f.drives, RunActs(works, f, acts).air.sent[j].cobId)
    ensures n < |acts| && (forall a | a in acts[..n] :: Suits(a, |f.drives|))
    ensures var g := RunActs(works, f, acts[..n]);
            |g.drives| == |f.drives| && StemsFrom(g, acts[n], RunActs(works, f, acts).air.sent[j])
    decreases |acts|
  {
    hide Orderly, FlagHonest, Do, StemsFrom, IsCtrl, IsReference, Steady;
    if acts == [] {
      assert false;
    } else {
      assert acts[0] in acts;
      var f1 := Do(works, f, acts[0]);
      ActSends(works, f, acts[0]);
      OneActSteady(works, f, acts[0]);
      RunSends(works, f1, acts[1..]);
      var end := RunActs(works, f, acts);
      assert end == RunActs(works, f1, acts[1..]);
      if j < |f1.air.sent| {
        n := 0;
        assert end.air.sent[j] == f1.air.sent[j];
        NoCtrlReference(f.drives, end.air.sent[j], f);
        assert acts[..0] == [];
      } else {
        SteadyReference(f, f1, end.air.sent[j].cobId);
        var m := ReferencesStem(works, f1, acts[1..], j);
        n := m + 1;
        assert acts[..n][1..] == acts[1..][..m] && acts[..n][0] == acts[0];
      }
    }
  }

  lemma OneActSteady(works: Works, f: Fleet, act: Act)
    requires Orderly(f) && FlagHonest(f) && Suits(act, |f.drives|)
    ensures var g := Do(works, f, act); Steady(f, g) && Orderly(g) && FlagHonest(g)
  {
    hide Orderly, FlagHonest, Do, Steady;
    RunSafe(works, f, [act]);
    OneAct(works, f, act);
    SteadyOrderly(f, Do(works, f, act));
  }

  lemma {:induction false} RunSends(works: Works, f: Fleet, acts: seq<Act>)
    requires forall a | a in acts :: Suits(a, |f.drives|)
    ensures f.air.sent <= RunActs(works, f, acts).air.sent
    decreases |acts|
  {
    hide Do, StemsFrom, IsCtrl;
    if acts != [] {
      assert acts[0] in acts;
      ActSends(works, f, acts[0]);
      RunSends(works, Do(works, f, acts[0]), acts[1..]);
    }
  }

  lemma NoCtrlReference(drives: seq<Drive>, s: Sent, f: Fleet)
    requires Orderly(f) && f.drives == drives && IsReference(drives, s.cobId)
    ensures !IsCtrl(drives, s)
  {
    if IsCtrl(drives, s) {
      var i :| 0 <= i < |drives| && s.cobId == CtrlId(drives[i]);
      NoReference(drives, i);
    }
  }

  lemma SteadyReference(f: Fleet, g: Fleet, id: u32)
    requires Steady(f, g) && IsReference(f.drives, id)
    ensures IsReference(g.drives, id)
  {
    var i :| 0 <= i < |f.drives| && id == UserId(f.drives[i]);
    assert SameDrive(f.drives[i], g.drives[i]);
    assert id == UserId(g.drives[i]);
  }

  // ----- one velocity message, drive by drive -----

  /** How many of the drives before k get a new target. */
  function ChangesBefore(ds: seq<Drive>, u: seq<real>, k: nat): (n: nat)
    requires k <= |ds| == |u|
    ensures n <= k
  {
    if k == 0 then 0 else ChangesBefore(ds, u, k - 1) + if Changes(ds, u, k - 1) then 1 else 0
  }

  /** What the loop has done with drive k of a fleet whose first send was number `first`. */
  predicate Served(works: Works, ds: seq<Drive>, u: seq<real>, first: nat, g: Fleet, k: nat)
    requires k < |ds| == |u| == |g.drives|
  {
    var n, target := first + ChangesBefore(ds, u, k), Target(ds[k], u[k]);
    && g.drives[k] == (if Changes(ds, u, k) && !works(n) then ds[k] else ds[k].(targetVelRaw := target))
    && (Changes(ds, u, k) ==> n < |g.air.sent| && g.air.sent[n] == Sent(UserId(ds[k]), Bits16(target), works(n)))
  }

  lemma {:induction false} LoopServes(works: Works, start: Fleet, f: Fleet, u: seq<real>, i: nat)
    requires i <= |u| == |f.drives| == |start.drives|
    requires start.air.sent <= f.air.sent && f.halt == start.halt
    requires |f.air.sent| == |start.air.sent| + ChangesBefore(start.drives, u, i)
    requires forall k | 0 <= k < i :: Served(works, start.drives, u, |start.air.sent|, f, k)
    requires forall k | i <= k < |u| :: f.drives[k] == start.drives[k]
    ensures var g := DriveFrom(works, f, u, i);
            && g.halt == start.halt && start.air.sent <= g.air.sent
            && |g.air.sent| == |start.air.sent| + ChangesBefore(start.drives, u, |u|)
            && forall k | 0 <= k < |u| :: Served(works, start.drives, u, |start.air.sent|, g, k)
    decreases |u| - i
  {
    hide Target, Bits16, Served, UserId, Changes;
    if i < |u| {
      var g := Drive1(works, f, i, u[i]);
      ServedNow(works, start, f, u, i);
      forall k | 0 <= k < i
        ensures Served(works, start.drives, u, |start.air.sent|, g, k)
      {
        ServedStays(works, start.drives, u, |start.air.sent|, f, g, k);
      }
      LoopServes(works, start, g, u, i + 1);
    }
  }

  lemma ServedStays(works: Works, ds: seq<Drive>, u: seq<real>, first: nat, f: Fleet, g: Fleet, k: nat)
    requires k < |ds| == |u| == |f.drives| == |g.drives| && g.drives[k] == f.drives[k] && f.air.sent <= g.air.sent
    requires Served(works, ds, u, first, f, k)
    ensures Served(works, ds, u, first, g, k)
  {
    hide Target, Bits16, UserId, Changes;
  }

  lemma ServedNow(works: Works, start: Fleet, f: Fleet, u: seq<real>, i: nat)
    requires i < |u| == |f.drives| == |start.drives| && f.drives[i] == start.drives[i]
    requires |f.air.sent| == |start.air.sent| + ChangesBefore(start.drives, u, i)
    ensures var g := Drive1(works, f, i, u[i]);
            && Served(works, start.drives, u, |start.air.sent|, g, i)
            && |g.air.sent| == |start.air.sent| + ChangesBefore(start.drives, u, i + 1)
            && g.halt == f.halt && f.air.sent <= g.air.sent
            && (forall k | 0 <= k < |u| && k != i :: g.drives[k] == f.drives[k])
  {
    hide Target, Bits16;
  }

  /** The velocity loop, with any pattern of failed sends: exactly the drives with a new target are
      sent it, one PDO each and in order, whatever became of the sends before; a mirror takes its
      target exactly if its own send worked, and nothing else changes. */
  lemma VelocitiesSent(works: Works, f: Fleet, u: seq<real>)
    requires |u| == |f.drives|
    ensures var g := DriveFrom(works, f, u, 0);
            && g.halt == f.halt && f.air.sent <= g.air.sent
            && |g.air.sent| == |f.air.sent| + ChangesBefore(f.drives, u, |u|)
            && forall k | 0 <= k < |u| :: Served(works, f.drives, u, |f.air.sent|, g, k)
  {
    hide Target, Bits16, Served;
    LoopServes(works, f, f, u, 0);
  }

  // ----- one call of halt, drive by drive -----

  /** The HALT bit of the drive is not the one wanted. */
  predicate Turns(d: Drive, halt: bool) { (d.ctrlWord & 0x0100 != 0) != halt }

  function TurnedWord(w: bv16, halt: bool): bv16 { if halt then w | 0x0100 else w & 0xFEFF }

  /** The PDO with that word. */
  function TurnPdo(d: Drive, halt: bool, ok: bool): Sent
  {
    Sent(CtrlId(d), TurnedWord(d.ctrlWord, halt) as int, ok)
  }

  /** How many of the drives before k have the wrong HALT bit. */
  function TurnsBefore(ds: seq<Drive>, halt: bool, k: nat): (n: nat)
    requires k <= |ds|
    ensures n <= k
  {
    if k == 0 then 0 else TurnsBefore(ds, halt, k - 1) + if Turns(ds[k - 1], halt) then 1 else 0
  }

  /** What the loop has done with drive k of a fleet whose first send was number `first`: if its HALT bit
      is wrong, its word goes out with that bit turned, and its mirror takes it exactly if that worked. */
  predicate Turned(works: Works, ds: seq<Drive>, halt: bool, first: nat, g: Fleet, k: nat)
    requires k < |ds| == |g.drives|
  {
    var n, word := first + TurnsBefore(ds, halt, k), TurnedWord(ds[k].ctrlWord, halt);
    && g.drives[k] == (if Turns(ds[k], halt) && works(n) then ds[k].(ctrlWord := word) else ds[k])
    && (Turns(ds[k], halt) ==> n < |g.air.sent| && g.air.sent[n] == TurnPdo(ds[k], halt, works(n)))
  }

  /** The loop has gone through the drives before i. */
  ghost predicate TurnedUpTo(works: Works, start: Fleet, halt: bool, f: Fleet, i: nat)
  {
    && i <= |f.drives| == |start.drives| && start.air.sent <= f.air.sent
    && |f.air.sent| == |start.air.sent| + TurnsBefore(start.drives, halt, i)
    && (forall k | 0 <= k < i :: Turned(works, start.drives, halt, |start.air.sent|, f, k))
    && (forall k | i <= k < |f.drives| :: f.drives[k] == start.drives[k])
  }

  lemma TurnNext(works: Works, start: Fleet, halt: bool, f: Fleet, i: nat)
    requires TurnedUpTo(works, start, halt, f, i) && i < |f.drives|
    ensures Turns(f.drives[i], halt) <==> halt != Halted(f.drives[i])
    ensures var (ok, g) := Flipped(works, f, halt, i);
            && TurnedUpTo(works, start, halt, if halt == Halted(f.drives[i]) then f else g, i + 1)
            && ok == works(|f.air.sent|)
  {
    hide TurnedWord, HaltWord, CtrlId;
    HaltWords(f.drives[i].ctrlWord);
    var (ok, g) := Flipped(works, f, halt, i);
    var h := if halt == Halted(f.drives[i]) then f else g;
    FlippedSends(works, f, halt, i);
    forall k | 0 <= k < i
      ensures Turned(works, start.drives, halt, |start.air.sent|, h, k)
    {
      TurnStays(works, start.drives, halt, |start.air.sent|, f, h, k);
    }
  }

  lemma WordIs(w: bv16, halt: bool)
    ensures HaltWord(w, halt) == TurnedWord(w, halt)
  {
  }

  lemma FlippedSends(works: Works, f: Fleet, halt: bool, i: nat)
    requires i < |f.drives|
    ensures var (ok, g) := Flipped(works, f, halt, i);
            var d := f.drives[i];
            && ok == works(|f.air.sent|) && g.air.sent == f.air.sent + [TurnPdo(d, halt, ok)]
            && g.drives == f.drives[i := if ok then d.(ctrlWord := TurnedWord(d.ctrlWord, halt)) else d]
            && g.halt == f.halt
  {
    hide HaltWord, TurnedWord;
    WordIs(f.drives[i].ctrlWord, halt);
  }

  lemma TurnStays(works: Works, ds: seq<Drive>, halt: bool, first: nat, f: Fleet, g: Fleet, k: nat)
    requires k < |ds| == |f.drives| == |g.drives| && g.drives[k] == f.drives[k] && f.air.sent <= g.air.sent
    requires Turned(works, ds, halt, first, f, k)
    ensures Turned(works, ds, halt, first, g, k)
  {
    hide TurnedWord, CtrlId, Turns;
  }

  lemma {:induction false} HaltTurns(works: Works, start: Fleet, f: Fleet, i: nat)
    requires TurnedUpTo(works, start, true, f, i)
    ensures var g := HaltFrom(works, f, true, i); g.halt && TurnedUpTo(works, start, true, g, |start.drives|)
    decreases |f.drives| - i
  {
    hide HaltFrom, Flipped, TurnedUpTo, Halted, Turns;
    TurnedSize(works, start, true, f, i);
    if i == |f.drives| {
      HaltEnds(works, f, true);
      FlagFree(works, start, true, f, i, true);
    } else {
      HaltUnfolds(works, f, true, i);
      TurnNext(works, start, true, f, i);
      FlippedEffect(works, f, true, i);
      HaltTurns(works, start, if Halted(f.drives[i]) then f else Flipped(works, f, true, i).1, i + 1);
    }
  }

  lemma TurnedSize(works: Works, start: Fleet, halt: bool, f: Fleet, i: nat)
    requires TurnedUpTo(works, start, halt, f, i)
    ensures i <= |f.drives| == |start.drives|
  {
  }

  lemma FlagFree(works: Works, start: Fleet, halt: bool, f: Fleet, i: nat, flag: bool)
    requires TurnedUpTo(works, start, halt, f, i)
    ensures TurnedUpTo(works, start, halt, f.(halt := flag), i)
  {
    hide Turns, TurnedWord, CtrlId;
    forall k | 0 <= k < i
      ensures Turned(works, start.drives, halt, |start.air.sent|, f.(halt := flag), k)
    {
      TurnStays(works, start.drives, halt, |start.air.sent|, f, f.(halt := flag), k);
    }
  }

  /** Halting, with any pattern of failed sends: exactly the drives that are not halted are sent their
      control word with bit 8 set, one PDO each and in order, whatever became of the sends before; a
      mirror takes its word exactly if its own send worked, and the flag is set. */
  lemma HaltSent(works: Works, f: Fleet)
    ensures var g := Halt(works, f, true);
            && g.halt && |g.drives| == |f.drives| && f.air.sent <= g.air.sent
            && |g.air.sent| == |f.air.sent| + TurnsBefore(f.drives, true, |f.drives|)
            && forall k | 0 <= k < |f.drives| :: Turned(works, f.drives, true, |f.air.sent|, g, k)
  {
    hide HaltFrom, Turned;
    HaltTurns(works, f, f, 0);
  }

  lemma {:induction false} UnhaltTurns(works: Works, start: Fleet, f: Fleet, i: nat) returns (k: nat, h: Fleet)
    requires TurnedUpTo(works, start, false, f, i)
    ensures var g := HaltFrom(works, f, false, i);
            && i <= k <= |start.drives| && TurnedUpTo(works, start, false, h, k)
            && if !g.halt then k == |start.drives| && g == h.(halt := false)
               else k < |start.drives| && Turns(start.drives[k], false) && !works(|h.air.sent|)
                    && g == Halt(works, Flipped(works, h, false, k).1, true)
    ensures forall j | i <= j < k && Turns(start.drives[j], false) ::
              works(|start.air.sent| + TurnsBefore(start.drives, false, j))
    decreases |f.drives| - i
  {
    hide HaltFrom, Flipped, TurnedUpTo, Halted, Turns;
    TurnedSize(works, start, false, f, i);
    if i == |f.drives| {
      HaltEnds(works, f, false);
      k, h := i, f;
    } else {
      HaltUnfolds(works, f, false, i);
      TurnNext(works, start, false, f, i);
      FlippedEffect(works, f, false, i);
      TurnedNow(works, start, false, f, i);
      var (ok, g) := Flipped(works, f, false, i);
      if !Halted(f.drives[i]) {
        k, h := UnhaltTurns(works, start, f, i + 1);
      } else if ok {
        k, h := UnhaltTurns(works, start, g, i + 1);
      } else {
        k, h := i, f;
        HaltFromFlag(works, g, true, 0);
      }
    }
  }

  lemma TurnedNow(works: Works, start: Fleet, halt: bool, f: Fleet, i: nat)
    requires TurnedUpTo(works, start, halt, f, i) && i < |f.drives|
    ensures f.drives[i] == start.drives[i] && |f.air.sent| == |start.air.sent| + TurnsBefore(start.drives, halt, i)
  {
  }

  /** Un-halting sends the halted drives their control word with bit 8 clear, one PDO each and in order,
      up to the first send that fails, at drive k: from there, with the drives before k un-halted, it is
      a halt of all drives.  If none fails every halted drive was sent its word, and the flag is clear. */
  lemma UnhaltSent(works: Works, f: Fleet) returns (k: nat, h: Fleet)
    ensures k <= |f.drives| == |h.drives| && f.air.sent <= h.air.sent
    ensures |h.air.sent| == |f.air.sent| + TurnsBefore(f.drives, false, k)
    ensures forall j | 0 <= j < k ::
              && Turned(works, f.drives, false, |f.air.sent|, h, j)
              && (Turns(f.drives[j], false) ==> works(|f.air.sent| + TurnsBefore(f.drives, false, j)))
    ensures forall j | k <= j < |f.drives| :: h.drives[j] == f.drives[j]
    ensures var g := Halt(works, f, false);
            if !g.halt then k == |f.drives| && g == h.(halt := false)
            else
              && k < |f.drives| && Turns(f.drives[k], false) && !works(|h.air.sent|)
              && exists h': Fleet {:trigger Halt(works, h', true)} ::
                   && h'.drives == h.drives && g == Halt(works, h', true)
                   && h'.air.sent == h.air.sent + [TurnPdo(f.drives[k], false, false)]
  {
    hide HaltFrom, Turned, HaltWord, TurnPdo, Turns;
    k, h := UnhaltTurns(works, f, f, 0);
    if Halt(works, f, false).halt {
      FlippedSends(works, h, false, k);
      var h' := Flipped(works, h, false, k).1;
      assert h'.drives == h.drives;
      assert Halt(works, f, false) == Halt(works, h', true);
    }
  }

  // ----- offsets -----

  /** What the daemon publishes of the drives: the position with its offset, and the velocity. */
  function Published(drives: seq<Drive>): seq<(real, real)>
  {
    seq(|drives|, i requires 0 <= i < |drives| => (drives[i].actualPos + drives[i].posOffset, drives[i].actualVel))
  }

  /** send_feedback, up to the message. */
  method SendFeedback(drives: array<Drive>) returns (state: seq<(real, real)>)
    ensures state == Published(drives[..])
  {
    state := [];
    var i := 0;
    while i < drives.Length
      invariant 0 <= i <= drives.Length
      invariant state == Published(drives[..i])
    {
      state := state + [(drives[i].actualPos + drives[i].posOffset, drives[i].actualVel)];
      i := i + 1;
      assert drives[..i] == drives[..i - 1] + [drives[i - 1]];
    }
    assert drives[..i] == drives[..];
  }

  /** A message of offsets is published with the positions from then on and does nothing else: no PDO
      is sent, and no later target is another one for it. */
  lemma OffsetsPublished(works: Works, f: Fleet, msg: Message, ref: real)
    requires !msg.expired && msg.mode == PosOffsets && |msg.u| == |f.drives|
    ensures var g := Process(works, f, msg);
            && g.halt == f.halt && g.air == f.air
            && forall i | 0 <= i < |f.drives| ::
                 && Published(g.drives)[i] == (f.drives[i].actualPos + msg.u[i], f.drives[i].actualVel)
                 && Target(g.drives[i], ref) == Target(f.drives[i], ref)
                 && g.drives[i] == f.drives[i].(posOffset := g.drives[i].posOffset)
  {
    var g := Process(works, f, msg);
    forall i | 0 <= i < |f.drives|
      ensures Target(g.drives[i], ref) == Target(f.drives[i], ref)
    {
      OffsetIgnored(f.drives[i], msg.u[i], ref);
    }
  }

  lemma OffsetIgnored(d: Drive, off: real, ref: real)
    ensures Target(d.(posOffset := off), ref) == Target(d, ref)
  {
  }
}
