/** The position limiter of the velocity daemon and the saturation of its result.

    Reals stand for doubles; a division by zero gives the infinity that IEEE arithmetic gives. */
module PosLimit {
  import opened Ds402

  datatype Ext = NegInf | Fin(r: real) | PosInf

  predicate Le(a: Ext, b: Ext)
  {
    a.NegInf? || b.PosInf? || (a.Fin? && b.Fin? && a.r <= b.r)
  }

  /** pos_limit.  At exactly the hard maximum the quotient is a positive number over zero, so
      the offset is plus infinity. */
  function Limited(d: Drive, val: real): Ext
  {
    var pos := d.actualPos;
    if pos > d.posMaxSoft then
      if pos > d.posMaxHard then NegInf
      else if pos == d.posMaxHard then PosInf
      else Fin(val + (pos - d.posMaxSoft) / (pos - d.posMaxHard))
    else if pos < d.posMinSoft then
      if pos < d.posMinHard then PosInf
      else if pos == d.posMinHard then PosInf
      else Fin(val - (pos - d.posMinSoft) / (pos - d.posMinHard))
    else Fin(val)
  }

  const VEL_MAX: int := 32767
  const VEL_MIN: int := -32767

  /** The conversion of a double to an integer: towards zero. */
  function Truncated(r: real): int
  {
    if r >= 0.0 then r.Floor else -(-r).Floor
  }

  /** Scale, clamp and truncate; a negative factor turns an infinity round. */
  function Saturated(e: Ext, factor: real): int
  {
    match e
    case NegInf => if factor < 0.0 then VEL_MAX else VEL_MIN
    case PosInf => if factor < 0.0 then VEL_MIN else VEL_MAX
    case Fin(r) =>
      var v := r * factor;
      if v > VEL_MAX as real then VEL_MAX
      else if v < VEL_MIN as real then VEL_MIN
      else Truncated(v)
  }

  /** The raw target velocity for a reference. */
  function Target(d: Drive, ref: real): int { Saturated(Limited(d, ref), d.velFactor) }

  /** The soft limits lie strictly inside the hard ones, as initialisation leaves them. */
  predicate Margins(d: Drive)
  {
    d.posMaxSoft < d.posMaxHard && d.posMinHard < d.posMinSoft
  }

  lemma TruncatedMonotone(a: real, b: real)
    requires a <= b
    ensures Truncated(a) <= Truncated(b)
    ensures -1.0 < a - Truncated(a) as real < 1.0
    ensures a <= 0.0 ==> Truncated(a) <= 0
  {
  }

  lemma SaturatedMonotone(a: Ext, b: Ext, factor: real)
    requires Le(a, b) && factor > 0.0
    ensures VEL_MIN <= Saturated(a, factor) <= Saturated(b, factor) <= VEL_MAX
  {
    if a.Fin? && b.Fin? {
      assert a.r * factor <= b.r * factor;
      TruncatedMonotone(a.r * factor, b.r * factor);
    }
    if a.Fin? { TruncatedMonotone(VEL_MIN as real, VEL_MIN as real); Bounded(a.r * factor); }
    if b.Fin? { Bounded(b.r * factor); }
  }

  lemma Bounded(v: real)
    ensures v <= VEL_MAX as real ==> Truncated(v) <= VEL_MAX
    ensures v >= VEL_MIN as real ==> Truncated(v) >= VEL_MIN
  {
  }

  /** The quotient of the upper band, in a form that shows how it moves. */
  lemma UpperOffset(p: real, soft: real, hard: real)
    requires soft < p < hard
    ensures (p - soft) / (p - hard) == -((p - soft) / (hard - p)) < 0.0
  {
  }

  lemma QuotientGrows(x1: real, y1: real, x2: real, y2: real)
    requires 0.0 <= x1 <= x2 && 0.0 < y2 <= y1
    ensures 0.0 <= x1 / y1 <= x2 / y2
  {
  }

  /** The positions at which the limiter drives up at full speed, whatever the reference: the hard
      maximum, and at and below the hard minimum. */
  predicate FullSpeedUp(d: Drive, pos: real)
  {
    pos == d.posMaxHard || (pos <= d.posMinHard && pos <= d.posMaxSoft)
  }

  /** The limiter pushes back the more the further out the drive is: a larger position gives no
      larger value, exactly unless the larger position is the hard maximum and the limiter does not
      drive up at full speed at the smaller one. */
  lemma LimitAntitone(d: Drive, p1: real, p2: real, ref: real)
    requires Margins(d) && d.velFactor > 0.0
    requires p1 <= p2
    ensures Le(Limited(d.(actualPos := p2), ref), Limited(d.(actualPos := p1), ref))
            <==> p2 != d.posMaxHard || FullSpeedUp(d, p1)
    ensures p2 != d.posMaxHard || FullSpeedUp(d, p1) ==>
              Target(d.(actualPos := p2), ref) <= Target(d.(actualPos := p1), ref)
  {
    if p2 != d.posMaxHard && p1 != d.posMaxHard {
      LimitFalls(d, p1, p2, ref);
    }
    if p2 != d.posMaxHard || FullSpeedUp(d, p1) {
      SaturatedMonotone(Limited(d.(actualPos := p2), ref), Limited(d.(actualPos := p1), ref), d.velFactor);
    }
  }

  lemma LimitFalls(d: Drive, p1: real, p2: real, ref: real)
    requires Margins(d) && d.velFactor > 0.0
    requires p1 <= p2 && p1 != d.posMaxHard && p2 != d.posMaxHard
    ensures Le(Limited(d.(actualPos := p2), ref), Limited(d.(actualPos := p1), ref))
  {
    var lo, hi := Limited(d.(actualPos := p1), ref), Limited(d.(actualPos := p2), ref);
    if d.posMaxSoft < p2 < d.posMaxHard {
      UpperOffset(p2, d.posMaxSoft, d.posMaxHard);
      if d.posMaxSoft < p1 {
        UpperOffset(p1, d.posMaxSoft, d.posMaxHard);
        QuotientGrows(p1 - d.posMaxSoft, d.posMaxHard - p1, p2 - d.posMaxSoft, d.posMaxHard - p2);
      } else {
        LowerOffset(d, p1, ref);
      }
    } else if p2 <= d.posMaxSoft {
      LowerOffset(d, p1, ref);
      LowerOffset(d, p2, ref);
      if d.posMinHard < p1 && p2 < d.posMinSoft {
        QuotientGrows(d.posMinSoft - p2, p2 - d.posMinHard, d.posMinSoft - p1, p1 - d.posMinHard);
      }
    }
  }

  /** Below the upper soft limit the offset is not negative; in the lower band it is the
      distance to the soft limit over the distance to the hard one. */
  lemma LowerOffset(d: Drive, p: real, ref: real)
    requires Margins(d) && p <= d.posMaxSoft
    ensures Le(Fin(ref), Limited(d.(actualPos := p), ref))
    ensures d.posMinHard < p < d.posMinSoft ==>
              Limited(d.(actualPos := p), ref) == Fin(ref + (d.posMinSoft - p) / (p - d.posMinHard))
  {
    if d.posMinHard < p < d.posMinSoft {
      var q := (d.posMinSoft - p) / (p - d.posMinHard);
      assert q * (p - d.posMinHard) == d.posMinSoft - p && q > 0.0;
      assert (p - d.posMinSoft) / (p - d.posMinHard) == -q by {
        assert -q * (p - d.posMinHard) == p - d.posMinSoft;
      }
    }
  }

  /** Inside the soft band the reference passes, rounded towards zero if it is in range; beyond
      the hard limits it does not matter. */
  lemma LimitEnds(d: Drive, ref: real)
    requires Margins(d) && d.velFactor > 0.0
    ensures d.posMinSoft <= d.actualPos <= d.posMaxSoft && VEL_MIN as real <= ref * d.velFactor <= VEL_MAX as real ==>
              var t := Target(d, ref) as real;
              if ref >= 0.0 then t <= ref * d.velFactor < t + 1.0 else t - 1.0 < ref * d.velFactor <= t
    ensures d.posMinSoft <= d.actualPos <= d.posMaxSoft ==> Limited(d, ref) == Fin(ref)
    ensures d.actualPos > d.posMaxHard ==> Target(d, ref) == VEL_MIN
    ensures d.actualPos < d.posMinHard && d.actualPos <= d.posMaxSoft ==> Target(d, ref) == VEL_MAX
  {
  }

  /** At exactly the hard maximum the limiter drives at full speed into the stop, whatever the
      reference; at every other position above the soft limit it only slows down. */
  lemma WrongWayExactlyAtHardMax(d: Drive, ref: real)
    requires Margins(d) && d.velFactor > 0.0 && d.actualPos > d.posMaxSoft
    ensures (!Le(Limited(d, ref), Fin(ref))) <==> d.actualPos == d.posMaxHard
    ensures d.actualPos == d.posMaxHard ==> Target(d, ref) == VEL_MAX
  {
    if d.actualPos < d.posMaxHard {
      UpperOffset(d.actualPos, d.posMaxSoft, d.posMaxHard);
    }
  }

  /** How far the limiter pushes back, position by position: in the upper band the offset times the
      distance to the hard limit is the distance to the soft one, downwards; in the lower band the
      same upwards; between the soft limits there is none, and at the hard limits and beyond it is
      infinite.  The bands are tried from the top. */
  lemma LimitExactly(d: Drive, ref: real)
    requires Margins(d)
    ensures var p, l := d.actualPos, Limited(d, ref);
            if p > d.posMaxHard then l == NegInf
            else if p == d.posMaxHard then l == PosInf
            else if p > d.posMaxSoft then
              l.Fin? && (ref - l.r) * (d.posMaxHard - p) == p - d.posMaxSoft
            else if p >= d.posMinSoft then l == Fin(ref)
            else if p > d.posMinHard then
              l.Fin? && (l.r - ref) * (p - d.posMinHard) == d.posMinSoft - p
            else l == PosInf
  {
    if d.posMaxSoft < d.actualPos < d.posMaxHard {
      UpperBand(d, ref);
    } else if d.posMinHard < d.actualPos < d.posMinSoft && d.actualPos <= d.posMaxSoft {
      LowerBand(d, ref);
    }
  }

  lemma Divides(a: real, b: real)
    requires b != 0.0
    ensures a / b * b == a
  {
  }

  lemma UpperBand(d: Drive, ref: real)
    requires d.posMaxSoft < d.actualPos < d.posMaxHard
    ensures var l := Limited(d, ref);
            l.Fin? && (ref - l.r) * (d.posMaxHard - d.actualPos) == d.actualPos - d.posMaxSoft
  {
    UpperOffset(d.actualPos, d.posMaxSoft, d.posMaxHard);
    var q := (d.actualPos - d.posMaxSoft) / (d.posMaxHard - d.actualPos);
    Divides(d.actualPos - d.posMaxSoft, d.posMaxHard - d.actualPos);
    assert Limited(d, ref) == Fin(ref - q);
  }

  lemma LowerBand(d: Drive, ref: real)
    requires Margins(d) && d.posMinHard < d.actualPos < d.posMinSoft && d.actualPos <= d.posMaxSoft
    ensures var l := Limited(d, ref);
            l.Fin? && (l.r - ref) * (d.actualPos - d.posMinHard) == d.posMinSoft - d.actualPos
  {
    LowerOffset(d, d.actualPos, ref);
    assert d.(actualPos := d.actualPos) == d;
    var q := (d.posMinSoft - d.actualPos) / (d.actualPos - d.posMinHard);
    Divides(d.posMinSoft - d.actualPos, d.actualPos - d.posMinHard);
    assert Limited(d, ref) == Fin(ref + q);
  }

  /** The offset depends on the position only: references keep their distance. */
  lemma LimitShifts(d: Drive, a: real, b: real)
    ensures Limited(d, a).Fin? <==> Limited(d, b).Fin?
    ensures if Limited(d, a).Fin? then Limited(d, a).r - Limited(d, b).r == a - b else Limited(d, a) == Limited(d, b)
  {
  }

  /** The raw target: a limited value is scaled and rounded towards zero, and beyond the range of the
      velocity object, which leaves out the smallest number, it is the largest or the second smallest
      signed 16-bit number. */
  lemma TargetExactly(d: Drive, ref: real)
    ensures var l, t := Limited(d, ref), Target(d, ref);
            match l
            case NegInf => t == if d.velFactor < 0.0 then 32767 else -32767
            case PosInf => t == if d.velFactor < 0.0 then -32767 else 32767
            case Fin(r) =>
              var v := r * d.velFactor;
              if v > 32767.0 then t == 32767
              else if v < -32767.0 then t == -32767
              else if v >= 0.0 then t as real <= v < t as real + 1.0
              else t as real - 1.0 < v <= t as real
  {
    hide Limited;
    var l := Limited(d, ref);
    if l.Fin? {
      var v := l.r * d.velFactor;
      assert Target(d, ref) == if v > VEL_MAX as real then VEL_MAX
                               else if v < VEL_MIN as real then VEL_MIN else Truncated(v);
      RoundedToZero(v);
    }
  }

  lemma RoundedToZero(v: real)
    ensures VEL_MAX as real == 32767.0 && VEL_MIN as real == -32767.0
    ensures var t := Truncated(v) as real; if v >= 0.0 then t <= v < t + 1.0 else t - 1.0 < v <= t
  {
  }

  /** Where the upper band stops forward motion: for a reference of v >= 0 the limited value is
      not positive exactly from (max_soft + v max_hard) / (1 + v) on. */
  lemma StopsForward(d: Drive, v: real)
    requires Margins(d) && d.velFactor > 0.0 && v >= 0.0
    requires d.posMaxSoft < d.actualPos < d.posMaxHard
    ensures Le(Limited(d, v), Fin(0.0)) <==> d.actualPos >= (d.posMaxSoft + v * d.posMaxHard) / (1.0 + v)
    ensures d.actualPos >= (d.posMaxSoft + v * d.posMaxHard) / (1.0 + v) ==>
              forall ref | ref <= v :: Target(d, ref) <= 0
  {
    var p, s, h := d.actualPos, d.posMaxSoft, d.posMaxHard;
    UpperOffset(p, s, h);
    var q, t := (p - s) / (h - p), (s + v * h) / (1.0 + v);
    assert q * (h - p) == p - s && t * (1.0 + v) == s + v * h;
    assert Limited(d, v) == Fin(v - q);
    Compare(p, s, h, v, q, t);
    if p >= t {
      forall ref | ref <= v
        ensures Target(d, ref) <= 0
      {
        assert Limited(d, ref) == Fin(ref - q);
        SaturatedMonotone(Fin(ref - q), Fin(0.0), d.velFactor);
      }
    }
  }

  lemma Compare(p: real, s: real, h: real, v: real, q: real, t: real)
    requires p < h && v >= 0.0
    requires q * (h - p) == p - s && t * (1.0 + v) == s + v * h
    ensures v <= q <==> p >= t
  {
  }
}
