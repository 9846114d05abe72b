/** The feedback side of the daemon: demultiplexing TPDOs to drives and converting units. */
module Feedback {
  import opened Can
  import opened Ds402

  /** The TPDO identifier the daemon listens to for a drive; the number is an int here. */
  function FeedbackId(d: Drive): int { 0x180 + 0x100 * d.tpdoUser + d.nodeId % 0x80 }

  /** The range filter: from TPDO 0 of node 0 to TPDO 255 of node 127. */
  predicate PassesFilter(id: int) { TpdoCobId(0, 0) <= id <= TpdoCobId(0x7F, 0xFF) }

  /** The filter passes the identifier of a drive exactly for 8-bit PDO numbers, and then the
      identifier is that of the node's TPDO. */
  lemma FilterDropsNothing(d: Drive)
    ensures PassesFilter(FeedbackId(d)) <==> 0 <= d.tpdoUser < 0x100
    ensures 0 <= d.tpdoUser < 0x100 ==> FeedbackId(d) == TpdoCobId(d.nodeId, d.tpdoUser)
  {
  }

  /** Position and velocity from the data bytes. */
  function WithRaw(d: Drive, f: Frame): Drive
  {
    d.(actualPosRaw := Signed(Ldle32(f.data), 4), actualVelRaw := Signed(Ldle32(f.data[4..]), 4))
  }

  predicate Matches(d: Drive, f: Frame) { FeedbackId(d) == f.id && f.dlc == 8 }

  /** The effect of one frame on one drive. */
  function HeardOne(d: Drive, f: Frame): Drive
  {
    if PassesFilter(f.id) && Matches(d, f) then WithRaw(d, f) else d
  }

  function HeardBy(drives: seq<Drive>, f: Frame): seq<Drive>
  {
    seq(|drives|, i requires 0 <= i < |drives| => HeardOne(drives[i], f))
  }

  /** A stream of receive calls; None is a failed one, after which the loop just goes on. */
  function HeardAll(drives: seq<Drive>, stream: seq<Option<Frame>>): seq<Drive>
    decreases |stream|
  {
    if stream == [] then drives
    else HeardAll(if stream[0].Some? then HeardBy(drives, stream[0].value) else drives, stream[1..])
  }

  /** feedback_recv, up to the shutdown at the end of the stream. */
  method FeedbackRecv(drives: array<Drive>, stream: seq<Option<Frame>>)
    modifies drives
    ensures drives[..] == HeardAll(old(drives[..]), stream)
  {
    hide HeardOne;
    var n := 0;
    while n < |stream|
      invariant 0 <= n <= |stream|
      invariant HeardAll(old(drives[..]), stream) == HeardAll(drives[..], stream[n..])
    {
      assert stream[n..][1..] == stream[n + 1..];
      if stream[n].Some? {
        Demultiplex(drives, stream[n].value);
      }
      n := n + 1;
    }
  }

  /** The filter and the loop over the drives for one frame. */
  method Demultiplex(drives: array<Drive>, can: Frame)
    modifies drives
    ensures drives[..] == HeardBy(old(drives[..]), can)
  {
    hide WithRaw;
    if can.id >= TpdoCobId(0, 0) && can.id <= TpdoCobId(0x7F, 0xFF) {
      var j := 0;
      while j < drives.Length
        invariant 0 <= j <= drives.Length
        invariant forall i | 0 <= i < drives.Length ::
                    drives[i] == if i < j then HeardOne(old(drives[i]), can) else old(drives[i])
      {
        if FeedbackId(drives[j]) == can.id {
          if can.dlc == 8 {
            drives[j] := WithRaw(drives[j], can);
          }
        }
        j := j + 1;
      }
    }
  }

  /** The last full frame of a stream with an identifier. */
  function LastFrame(stream: seq<Option<Frame>>, id: int): Option<Frame>
    decreases |stream|
  {
    if stream == [] then None
    else
      var last := stream[|stream| - 1];
      if last.Some? && last.value.id == id && last.value.dlc == 8 then last
      else LastFrame(stream[..|stream| - 1], id)
  }

  lemma {:induction false} HeardSnoc(drives: seq<Drive>, stream: seq<Option<Frame>>, x: Option<Frame>)
    ensures HeardAll(drives, stream + [x])
            == if x.Some? then HeardBy(HeardAll(drives, stream), x.value) else HeardAll(drives, stream)
    ensures |HeardAll(drives, stream)| == |drives|
    decreases |stream|
  {
    hide HeardOne;
    if stream == [] {
      assert ([] + [x])[1..] == [];
      assert HeardAll(drives, [x]) == HeardAll(if x.Some? then HeardBy(drives, x.value) else drives, []);
      assert [] + [x] == [x];
    } else {
      assert (stream + [x])[1..] == stream[1..] + [x];
      HeardSnoc(if stream[0].Some? then HeardBy(drives, stream[0].value) else drives, stream[1..], x);
    }
  }

  /** Demultiplexing: after any stream, a drive's raw position and velocity are those of the last
      full frame with its TPDO identifier, or the first ones if there was none; frames for other
      identifiers, short frames and failed receives leave no trace.  A drive whose TPDO number has more
      than eight bits never hears anything. */
  lemma {:induction false} HeardIsLast(drives: seq<Drive>, stream: seq<Option<Frame>>, i: nat)
    requires i < |drives|
    ensures |HeardAll(drives, stream)| == |drives|
    ensures !(0 <= drives[i].tpdoUser < 0x100) ==> HeardAll(drives, stream)[i] == drives[i]
    ensures 0 <= drives[i].tpdoUser < 0x100 ==>
              HeardAll(drives, stream)[i] == match LastFrame(stream, FeedbackId(drives[i]))
                                             case None => drives[i]
                                             case Some(f) => WithRaw(drives[i], f)
    decreases |stream|
  {
    hide PassesFilter, FeedbackId;
    if stream != [] {
      var front, x := stream[..|stream| - 1], stream[|stream| - 1];
      assert stream == front + [x];
      HeardSnoc(drives, front, x);
      HeardIsLast(drives, front, i);
      var before := HeardAll(drives, front)[i];
      assert FeedbackId(before) == FeedbackId(drives[i]) by { SameId(drives[i], before); }
      if x.Some? && x.value.id == FeedbackId(drives[i]) && x.value.dlc == 8 {
        FilterDropsNothing(drives[i]);
        if 0 <= drives[i].tpdoUser < 0x100 {
          assert HeardAll(drives, stream)[i] == WithRaw(before, x.value);
        }
      }
    }
  }

  lemma SameId(d: Drive, e: Drive)
    requires d.nodeId == e.nodeId && d.tpdoUser == e.tpdoUser
    ensures FeedbackId(d) == FeedbackId(e)
  {
  }

  lemma SignedWraps(v: int)
    requires -0x8000_0000 <= v < 0x8000_0000
    ensures Signed(v % 0x1_0000_0000, 4) == v
  {
    assert v % 0x1_0000_0000 == if v >= 0 then v else v + 0x1_0000_0000;
  }

  /** A frame of position and then velocity, low bytes first, with the identifier of the user TPDO of
      the node, sets exactly these, with their signs. */
  lemma FrameCarriesFeedback(d: Drive, pos: int, vel: int)
    requires -0x8000_0000 <= pos < 0x8000_0000 && -0x8000_0000 <= vel < 0x8000_0000 && 0 <= d.tpdoUser < 0x100
    ensures var data := Stle32(pos % 0x1_0000_0000) + Stle32(vel % 0x1_0000_0000);
            HeardOne(d, RawFrame(0x180 + 0x100 * d.tpdoUser + d.nodeId % 0x80, 8, data))
            == d.(actualPosRaw := pos, actualVelRaw := vel)
  {
    hide PassesFilter, FeedbackId, Ldle32, Stle32, Signed;
    SignedWraps(pos);
    SignedWraps(vel);
    var p, v := Stle32(pos % 0x1_0000_0000), Stle32(vel % 0x1_0000_0000);
    FilterDropsNothing(d);
    StoreThenLoad(pos % 0x1_0000_0000, v);
    StoreThenLoad(vel % 0x1_0000_0000, []);
    assert v + [] == v == (p + v)[4..];
  }

  /** update_feedback: raw values to radians; the factors turn the results back into the raw
      values, and nothing else changes. */
  method UpdateFeedback(drives: array<Drive>)
    requires forall i | 0 <= i < drives.Length :: drives[i].posFactor != 0.0 && drives[i].velFactor != 0.0
    modifies drives
    ensures forall i | 0 <= i < drives.Length :: Updated(old(drives[i]), drives[i])
  {
    var i := 0;
    while i < drives.Length
      invariant 0 <= i <= drives.Length
      invariant forall j | 0 <= j < i :: Updated(old(drives[j]), drives[j])
      invariant forall j | i <= j < drives.Length :: drives[j] == old(drives[j])
    {
      var d := drives[i];
      drives[i] := d.(actualPos := d.actualPosRaw as real / d.posFactor,
                      actualVel := d.actualVelRaw as real / d.velFactor);
      i := i + 1;
    }
  }

  predicate Updated(d: Drive, e: Drive)
  {
    && e == d.(actualPos := e.actualPos, actualVel := e.actualVel)
    && e.actualPos * d.posFactor == d.actualPosRaw as real
    && e.actualVel * d.velFactor == d.actualVelRaw as real
  }
}
