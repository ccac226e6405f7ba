/** What the epsilon guards of `_segment_distance` cost: exactly when the result is the least distance, how far it
    can be off where no fraction is snapped, and instances of each way in which it is off. */
module SegmentGuards {
  import opened RealProducts
  import opened SegmentDistance

  // ----- a point that is not stationary can be improved

  /** How the squared gap changes when a fraction with slope `g` and curvature `a` moves by `d`. */
  function Change(d: real, g: real, a: real): real { 2.0 * d * g + d * d * a }

  /** Against a first-order condition there is a step that gains: to the end, or to the minimum if it is nearer. */
  lemma Descend(x: real, g: real, a: real) returns (x': real)
    requires Fraction(x) && a >= 0.0 && ((x > 0.0 && g > 0.0) || (x < 1.0 && g < 0.0))
    ensures Fraction(x') && Change(x' - x, g, a) < 0.0
  {
    if x > 0.0 && g > 0.0 {
      x' := DescendLeft(x, g, a);
    } else {
      var y := DescendLeft(1.0 - x, -g, a);
      x' := 1.0 - y;
      var d, e := x' - x, y - (1.0 - x);
      assert e == -d && e * e == d * d && e * -g == d * g;
    }
  }

  lemma DescendLeft(x: real, g: real, a: real) returns (x': real)
    requires 0.0 < x <= 1.0 && a >= 0.0 && g > 0.0
    ensures Fraction(x') && Change(x' - x, g, a) < 0.0
  {
    var reach := a * x;
    var h := if reach <= g then x else g / a;
    if reach > g {
      assert a > 0.0;
      assert h * a == g && h > 0.0;
      if h > x { Positive(h - x, a, g - reach); }
    }
    var m := h * a;
    assert 0.0 < h <= x && m <= g;
    x' := x - h;
    var gain := h * (2.0 * g - m);
    Positive(h, 2.0 * g - m, gain);
    assert Change(-h, g, a) == -gain;
  }

  lemma MoveFirst(p0: Vec3, p1: Vec3, q0: Vec3, q1: Vec3, s: real, t: real, s': real)
    ensures var u, x := Sub(p1, p0), Sub(Along(p0, p1, s), Along(q0, q1, t));
            Gap(p0, p1, q0, q1, s', t) == Gap(p0, p1, q0, q1, s, t) + Change(s' - s, Dot(u, x), Dot(u, u))
  {
    var u, v, x := Sub(p1, p0), Sub(q1, q0), Sub(Along(p0, p1, s), Along(q0, q1, t));
    SeparationShift(p0, p1, q0, q1, s, t, s', t);
    ShiftAlone(u, v, s' - s);
    ScaledGap(x, u, s' - s);
  }

  lemma MoveSecond(p0: Vec3, p1: Vec3, q0: Vec3, q1: Vec3, s: real, t: real, t': real)
    ensures var v, x := Sub(q1, q0), Sub(Along(p0, p1, s), Along(q0, q1, t));
            Gap(p0, p1, q0, q1, s, t') == Gap(p0, p1, q0, q1, s, t) + Change(t' - t, -Dot(v, x), Dot(v, v))
  {
    var u, v, x := Sub(p1, p0), Sub(q1, q0), Sub(Along(p0, p1, s), Along(q0, q1, t));
    SeparationShift(p0, p1, q0, q1, s, t, s, t');
    ShiftAlone(u, v, t' - t);
    ScaledGap(x, v, t - t');
    hide Dot, Scale, Along;
    var g, d := Dot(v, x), t' - t;
    assert -d == t - t' && (-d) * (-d) == d * d && -d * g == d * -g;
  }

  lemma ScaledGap(x: Vec3, u: Vec3, k: real)
    ensures SqNorm(Add(x, Scale(k, u))) == SqNorm(x) + Change(k, Dot(u, x), Dot(u, u))
  {
    SquareOfSum(x, Scale(k, u));
    DotScale(k, u, x);
    DotScale(k, u, Scale(k, u));
    DotScale(k, u, u);
    var g, a := Dot(u, x), Dot(u, u);
    DotCommutes(u, x);
    hide Dot, Scale, Add;
    assert k * (k * a) == k * k * a && 2.0 * (k * g) == 2.0 * k * g;
  }

  lemma ShiftAlone(u: Vec3, v: Vec3, d: real)
    ensures Shift(u, v, d, 0.0) == Scale(d, u) && Shift(u, v, 0.0, d) == Scale(-d, v)
  {}

  /** No point of the square is better than `(s, t)`. */
  ghost predicate Best(p0: Vec3, p1: Vec3, q0: Vec3, q1: Vec3, s: real, t: real)
  {
    forall s', t' :: Fraction(s') && Fraction(t') ==> Gap(p0, p1, q0, q1, s, t) <= Gap(p0, p1, q0, q1, s', t')
  }

  /** The converse of `StationaryIsLeast`. */
  lemma BestIsStationary(p0: Vec3, p1: Vec3, q0: Vec3, q1: Vec3, s: real, t: real)
    requires Fraction(s) && Fraction(t) && Best(p0, p1, q0, q1, s, t)
    ensures var x := Sub(Along(p0, p1, s), Along(q0, q1, t));
            Stationary(s, t, Dot(Sub(p1, p0), x), Dot(Sub(q1, q0), x))
  {
    var u, v, x := Sub(p1, p0), Sub(q1, q0), Sub(Along(p0, p1, s), Along(q0, q1, t));
    var gs, gt := Dot(u, x), Dot(v, x);
    SqNormNonNegative(u);
    SqNormNonNegative(v);
    hide Dot, Gap, Change, Along, Sub;
    if (s > 0.0 && gs > 0.0) || (s < 1.0 && gs < 0.0) {
      var s' := Descend(s, gs, Dot(u, u));
      MoveFirst(p0, p1, q0, q1, s, t, s');
    }
    if (t > 0.0 && -gt > 0.0) || (t < 1.0 && -gt < 0.0) {
      var t' := Descend(t, -gt, Dot(v, v));
      MoveSecond(p0, p1, q0, q1, s, t, t');
    }
  }

  /** The scalars of the routine. */
  datatype Scalars = Scalars(aa: real, bb: real, cc: real, dd: real, ee: real)

  function ScalarsOf(p0: Vec3, p1: Vec3, q0: Vec3, q1: Vec3): Scalars
  {
    var u, v, w := Sub(p1, p0), Sub(q1, q0), Sub(p0, q0);
    Scalars(Dot(u, u), Dot(u, v), Dot(v, v), Dot(u, w), Dot(v, w))
  }

  /** Half the slope of the squared gap along the first fraction ... */
  function FirstSlope(k: Scalars, s: real, t: real): real { k.dd + s * k.aa - t * k.bb }

  /** ... and, negated, along the second. */
  function SecondSlope(k: Scalars, s: real, t: real): real { k.ee + s * k.bb - t * k.cc }

  predicate SolvedAt(k: Scalars, s: real, t: real) { Solved(k.aa, k.bb, k.cc, k.dd, k.ee, s, t) }

  lemma StationaryIsSolved(p0: Vec3, p1: Vec3, q0: Vec3, q1: Vec3, s: real, t: real)
    requires Fraction(s) && Fraction(t)
    ensures var x := Sub(Along(p0, p1, s), Along(q0, q1, t));
            Stationary(s, t, Dot(Sub(p1, p0), x), Dot(Sub(q1, q0), x)) <==> SolvedAt(ScalarsOf(p0, p1, q0, q1), s, t)
  {
    Gradient(p0, p1, q0, q1, s, t);
    hide Dot, Along, Sub;
  }

  /** For all segments and all epsilons: the result is the least distance exactly when the fractions it was
      computed from meet the first-order conditions. */
  lemma LeastIffSolved(p0: Vec3, p1: Vec3, q0: Vec3, q1: Vec3, epsilon: real, pointEpsilon: real)
    requires 0.0 <= pointEpsilon <= epsilon
    ensures var f := ClosestFractions(p0, p1, q0, q1, epsilon, pointEpsilon);
            IsLeastGap(SegmentGap(p0, p1, q0, q1, epsilon, pointEpsilon), p0, p1, q0, q1)
            <==> SolvedAt(ScalarsOf(p0, p1, q0, q1), f.0, f.1)
  {
    hide Gap, SolvedAt, ScalarsOf, Stationary, Along, Dot;
    var f := ClosestFractions(p0, p1, q0, q1, epsilon, pointEpsilon);
    var d := SegmentGap(p0, p1, q0, q1, epsilon, pointEpsilon);
    assert Fraction(f.0) && Fraction(f.1) && d == Gap(p0, p1, q0, q1, f.0, f.1);
    StationaryIsSolved(p0, p1, q0, q1, f.0, f.1);
    if IsLeastGap(d, p0, p1, q0, q1) {
      assert Best(p0, p1, q0, q1, f.0, f.1);
      BestIsStationary(p0, p1, q0, q1, f.0, f.1);
    }
    if SolvedAt(ScalarsOf(p0, p1, q0, q1), f.0, f.1) {
      forall s, t | Fraction(s) && Fraction(t) ensures d <= Gap(p0, p1, q0, q1, s, t) {
        StationaryIsLeast(p0, p1, q0, q1, f.0, f.1, s, t);
      }
    }
  }

  // ----- the condition, guard by guard, in what a caller can compute

  /** The point guards: a segment that is too short counts as its first end. */
  predicate PointGuardHarmless(k: Scalars, epsilon: real)
    requires 0.0 <= epsilon && (k.aa <= epsilon || k.cc <= epsilon)
  {
    if k.aa <= epsilon && k.cc <= epsilon then k.dd >= 0.0 && k.ee <= 0.0
    else if k.aa <= epsilon then FirstSlope(k, 0.0, Clip(k.ee / k.cc)) >= 0.0
    else SecondSlope(k, Clip(-k.dd / k.aa), 0.0) <= 0.0
  }

  /** The parallel guard: nearly parallel segments are measured from the first end of the first one. */
  predicate ParallelGuardHarmless(k: Scalars)
    requires k.aa > 0.0 && k.cc > 0.0
  {
    if k.ee < 0.0 then SecondSlope(k, Clip(-k.dd / k.aa), 0.0) <= 0.0
    else if k.ee > k.cc then SecondSlope(k, Clip((k.bb - k.dd) / k.aa), 1.0) >= 0.0
    else FirstSlope(k, 0.0, k.ee / k.cc) >= 0.0
  }

  function RatiosOf(k: Scalars, epsilon: real): Ratios { Constrained(k.aa, k.bb, k.cc, k.dd, k.ee, epsilon) }

  /** Neither fraction is replaced by 0 for its small numerator. */
  predicate Unsnapped(k: Scalars, epsilon: real)
  {
    var r := RatiosOf(k, epsilon);
    Clear(r.sn, epsilon) && Clear(r.tn, epsilon)
  }

  function SnappedFractions(k: Scalars, epsilon: real): (real, real)
    requires 0.0 <= epsilon < k.aa && epsilon < k.cc
  {
    var r := RatiosOf(k, epsilon);
    QuotientsAreFractions(k.aa, k.bb, k.cc, k.dd, k.ee, epsilon);
    (Quotient(r.sn, r.sd, epsilon), Quotient(r.tn, r.td, epsilon))
  }

  /** The numerator guard has no clause of its own: it is never harmless. */
  predicate Harmless(k: Scalars, epsilon: real)
    requires 0.0 <= epsilon
  {
    if k.aa <= epsilon || k.cc <= epsilon then PointGuardHarmless(k, epsilon)
    else
      && Unsnapped(k, epsilon)
      && (Cross(k.aa, k.bb, k.cc, k.dd, k.ee).den > epsilon || ParallelGuardHarmless(k))
  }

  lemma SameRatios(k: Scalars, epsilon: real)
    requires 0.0 <= epsilon < Cross(k.aa, k.bb, k.cc, k.dd, k.ee).den
    ensures RatiosOf(k, epsilon) == RatiosOf(k, 0.0)
  {
    hide Cross, Repin;
  }

  lemma ZeroSnapsNothing(k: Scalars)
    ensures NoSnap(k.aa, k.bb, k.cc, k.dd, k.ee, 0.0)
  {
    hide Cross;
  }

  lemma SameQuotient(n: real, d: real, epsilon: real)
    requires d > 0.0 && 0.0 <= epsilon && Clear(n, epsilon)
    ensures Quotient(n, d, epsilon) == Quotient(n, d, 0.0)
  {}

  lemma RegularIsSolved(k: Scalars, epsilon: real)
    requires 0.0 <= epsilon < k.aa && epsilon < k.cc && Cross(k.aa, k.bb, k.cc, k.dd, k.ee).den > epsilon
    requires Unsnapped(k, epsilon)
    ensures var f := SnappedFractions(k, epsilon); SolvedAt(k, f.0, f.1)
  {
    hide Solved, Constrained, Cross, NoSnap, Quotient;
    SameRatios(k, epsilon);
    ZeroSnapsNothing(k);
    ConstrainedSolves(k.aa, k.bb, k.cc, k.dd, k.ee, 0.0);
    var r := RatiosOf(k, 0.0);
    SameQuotient(r.sn, r.sd, epsilon);
    SameQuotient(r.tn, r.td, epsilon);
  }

  /** `s` is the clipped quotient, so its own first-order condition holds. */
  lemma ClippedIs(n: real, d: real, s: real)
    requires d > 0.0 && s == Clip(n / d)
    ensures Resolved(s, n, d)
  {
    ClipResolves(n, d);
  }

  lemma SelfQuotient(d: real)
    requires d > 0.0
    ensures d / d == 1.0
  {}

  /** What the re-solved first fraction comes to. */
  lemma RepinnedIs(r: Ratios, n: real, aa: real, tn: real, epsilon: real)
    requires 0.0 <= epsilon < aa && r.sd > 0.0 && Clear(Repin(r, n, aa, tn).sn, epsilon)
    ensures var q := Repin(r, n, aa, tn);
            q.sd > 0.0 && Quotient(q.sn, q.sd, epsilon) == Clip(n / aa) && q.tn == tn && q.td == r.td
  {
    var x := n / aa;
    assert x * aa == n;
    if n < 0.0 {
      if x >= 0.0 { NotNegative(x, aa, n); }
    } else if n > aa {
      if x <= 1.0 { NotNegative(1.0 - x, aa, aa - n); }
      SelfQuotient(r.sd);
    } else {
      if x < 0.0 { Positive(-x, aa, -n); }
      if x > 1.0 { Positive(x - 1.0, aa, n - aa); }
    }
  }

  lemma LowReading(k: Scalars, s: real)
    requires k.aa > 0.0 && s == Clip(-k.dd / k.aa)
    ensures SolvedAt(k, s, 0.0) <==> SecondSlope(k, s, 0.0) <= 0.0
  {
    ClippedIs(-k.dd, k.aa, s);
    hide Clip;
    assert 0.0 * k.bb == 0.0 && 0.0 * k.cc == 0.0;
  }

  lemma HighReading(k: Scalars, s: real)
    requires k.aa > 0.0 && s == Clip((k.bb - k.dd) / k.aa)
    ensures SolvedAt(k, s, 1.0) <==> SecondSlope(k, s, 1.0) >= 0.0
  {
    ClippedIs(k.bb - k.dd, k.aa, s);
    hide Clip;
    assert 1.0 * k.bb == k.bb && 1.0 * k.cc == k.cc;
  }

  lemma FirstEndReading(k: Scalars, t: real)
    requires k.cc > 0.0 && t == Clip(k.ee / k.cc)
    ensures SolvedAt(k, 0.0, t) <==> FirstSlope(k, 0.0, t) >= 0.0
  {
    ClippedIs(k.ee, k.cc, t);
    hide Clip;
    assert 0.0 * k.aa == 0.0 && 0.0 * k.bb == 0.0;
  }

  /** The fractions under the parallel guard. */
  lemma ParallelFractions(k: Scalars, epsilon: real)
    requires 0.0 <= epsilon < k.aa && epsilon < k.cc && Cross(k.aa, k.bb, k.cc, k.dd, k.ee).den <= epsilon
    requires Unsnapped(k, epsilon)
    ensures SnappedFractions(k, epsilon) ==
            if k.ee < 0.0 then (Clip(-k.dd / k.aa), 0.0)
            else if k.ee > k.cc then (Clip((k.bb - k.dd) / k.aa), 1.0)
            else (0.0, k.ee / k.cc)
  {
    hide Cross, Clip, Quotient, Repin;
    var one := Ratios(0.0, 1.0, k.ee, k.cc);
    assert Unconstrained(k.aa, k.bb, k.cc, k.dd, k.ee, epsilon) == one;
    QuotientEnds(k.cc, epsilon);
    if k.ee < 0.0 {
      RepinnedIs(one, -k.dd, k.aa, 0.0, epsilon);
    } else if k.ee > k.cc {
      RepinnedIs(one, -k.dd + k.bb, k.aa, k.cc, epsilon);
    } else {
      QuotientIs(k.ee, k.cc, epsilon);
      QuotientIs(0.0, 1.0, epsilon);
    }
  }

  lemma QuotientEnds(d: real, epsilon: real)
    requires 0.0 <= epsilon < d
    ensures Quotient(0.0, d, epsilon) == 0.0 && Quotient(d, d, epsilon) == 1.0
  {
    UnitQuotient(d, epsilon);
  }

  lemma QuotientIs(n: real, d: real, epsilon: real)
    requires d > 0.0 && 0.0 <= epsilon && Clear(n, epsilon)
    ensures Quotient(n, d, epsilon) == n / d && 0.0 / d == 0.0
  {}

  lemma ParallelReading(k: Scalars, epsilon: real)
    requires 0.0 <= epsilon < k.aa && epsilon < k.cc && Cross(k.aa, k.bb, k.cc, k.dd, k.ee).den <= epsilon
    requires Unsnapped(k, epsilon)
    ensures var f := SnappedFractions(k, epsilon); SolvedAt(k, f.0, f.1) <==> ParallelGuardHarmless(k)
  {
    hide SnappedFractions, SolvedAt, Cross, Unsnapped, FirstSlope, SecondSlope, Clip;
    ParallelFractions(k, epsilon);
    if k.ee < 0.0 {
      LowReading(k, Clip(-k.dd / k.aa));
    } else if k.ee > k.cc {
      HighReading(k, Clip((k.bb - k.dd) / k.aa));
    } else {
      InsideClip(k.ee, k.cc);
      FirstEndReading(k, k.ee / k.cc);
    }
  }

  lemma InsideClip(n: real, d: real)
    requires 0.0 <= n <= d && d > 0.0
    ensures Clip(n / d) == n / d
  {
    var x := n / d;
    assert x * d == n;
    if x < 0.0 { Positive(-x, d, -n); }
    if x > 1.0 { Positive(x - 1.0, d, n - d); }
  }

  // ----- the numerator guard always does harm

  /** The first fraction is snapped after it was solved for the end `t` of the second segment. */
  lemma RepinSnaps(k: Scalars, r: Ratios, n: real, t: real, tn: real, epsilon: real)
    requires 0.0 <= epsilon < k.aa && r.sd > 0.0 && n == t * k.bb - k.dd
    requires var q := Repin(r, n, k.aa, tn); !Clear(q.sn, epsilon)
    ensures var q := Repin(r, n, k.aa, tn);
            q.sd > 0.0 && Quotient(q.sn, q.sd, epsilon) == 0.0 && !SolvedAt(k, 0.0, t)
  {
    assert n > 0.0;
    assert FirstSlope(k, 0.0, t) == -n;
  }

  lemma FirstPulls(k: Scalars, t: real)
    ensures FirstSlope(k, 0.0, t) < 0.0 ==> !SolvedAt(k, 0.0, t)
  {}

  lemma SecondPulls(k: Scalars, s: real)
    ensures SecondSlope(k, s, 0.0) > 0.0 ==> !SolvedAt(k, s, 0.0)
  {}

  lemma SlopeShift(k: Scalars, s: real, t: real)
    ensures FirstSlope(k, 0.0, t) == FirstSlope(k, s, t) - s * k.aa
    ensures SecondSlope(k, s, 0.0) == SecondSlope(k, s, t) + t * k.cc
  {}

  /** Only the first fraction of an interior solution is snapped: its slope pulls it back. */
  lemma FirstSnapHarms(k: Scalars, s: real, t: real)
    requires k.aa > 0.0 && s > 0.0 && FirstSlope(k, s, t) == 0.0
    ensures !SolvedAt(k, 0.0, t)
  {
    hide FirstSlope, SecondSlope, SolvedAt;
    SlopeShift(k, s, t);
    Positive(s, k.aa, s * k.aa);
    FirstPulls(k, t);
  }

  lemma SecondSnapHarms(k: Scalars, s: real, t: real)
    requires k.cc > 0.0 && t > 0.0 && SecondSlope(k, s, t) == 0.0
    ensures !SolvedAt(k, s, 0.0)
  {
    hide FirstSlope, SecondSlope, SolvedAt;
    SlopeShift(k, s, t);
    Positive(t, k.cc, t * k.cc);
    SecondPulls(k, s);
  }

  /** Both are snapped: at the origin the slopes cannot both point outwards, since the form is positive definite. */
  lemma BothSnapsHarm(k: Scalars)
    requires k.aa > 0.0
    requires var m := Cross(k.aa, k.bb, k.cc, k.dd, k.ee); m.den > 0.0 && m.sn > 0.0 && m.tn > 0.0
    ensures !SolvedAt(k, 0.0, 0.0)
  {
    hide SolvedAt;
    var m := Cross(k.aa, k.bb, k.cc, k.dd, k.ee);
    BothEndsReading(k);
    if k.dd >= 0.0 && k.ee <= 0.0 {
      var x, y := k.aa * m.sn - k.bb * m.tn, k.cc * m.tn - k.bb * m.sn;
      OuterSlopes(k, m, x, y);
      Definite(k.aa, k.bb, k.cc, m.den, m.sn, m.tn, x, y, m.sn * x + m.tn * y);
      hide Cross;
      NotNegative(m.sn, -x, -(m.sn * x));
      NotNegative(m.tn, -y, -(m.tn * y));
    }
  }

  lemma OuterSlopes(k: Scalars, m: Minors, x: real, y: real)
    requires m == Cross(k.aa, k.bb, k.cc, k.dd, k.ee) && m.den > 0.0 && k.dd >= 0.0 && k.ee <= 0.0
    requires x == k.aa * m.sn - k.bb * m.tn && y == k.cc * m.tn - k.bb * m.sn
    ensures x <= 0.0 && y <= 0.0
  {
    assert x == -(m.den * k.dd) && y == m.den * k.ee;
    hide Cross;
    NotNegative(m.den, k.dd, -x);
    NotNegative(m.den, -k.ee, -y);
  }

  /** The quadratic form is positive away from the origin. */
  lemma Definite(aa: real, bb: real, cc: real, den: real, s: real, t: real, x: real, y: real, form: real)
    requires aa > 0.0 && den == aa * cc - bb * bb && den > 0.0 && t > 0.0
    requires x == aa * s - bb * t && y == cc * t - bb * s && form == s * x + t * y
    ensures form > 0.0
  {
    var tt, xx := t * t, x * x;
    Positive(t, t, tt);
    Positive(den, tt, den * tt);
    assert xx >= 0.0;
    assert aa * form == xx + den * tt;
    if form <= 0.0 { NotNegative(aa, -form, -(aa * form)); }
  }

  /** What the second half of the routine does when it pins nothing. */
  lemma UnpinnedSnaps(k: Scalars, epsilon: real)
    requires 0.0 <= epsilon < k.aa && epsilon < k.cc && !Unsnapped(k, epsilon)
    requires var u := Unconstrained(k.aa, k.bb, k.cc, k.dd, k.ee, epsilon); 0.0 <= u.tn <= u.td
    ensures var f := SnappedFractions(k, epsilon); !SolvedAt(k, f.0, f.1)
  {
    var m := Cross(k.aa, k.bb, k.cc, k.dd, k.ee);
    var u := Unconstrained(k.aa, k.bb, k.cc, k.dd, k.ee, epsilon);
    assert RatiosOf(k, epsilon) == u;
    if m.den > epsilon && 0.0 <= m.sn <= m.den {
      InteriorSnaps(k, epsilon, m);
    } else {
      EdgeSnaps(k, epsilon, m, u);
    }
  }

  /** The first fraction is at an end, so it is the second one that is snapped. */
  lemma EdgeSnaps(k: Scalars, epsilon: real, m: Minors, u: Ratios)
    requires 0.0 <= epsilon < k.aa && epsilon < k.cc && !Unsnapped(k, epsilon)
    requires m == Cross(k.aa, k.bb, k.cc, k.dd, k.ee) && !(m.den > epsilon && 0.0 <= m.sn <= m.den)
    requires RatiosOf(k, epsilon) == u == Unconstrained(k.aa, k.bb, k.cc, k.dd, k.ee, epsilon)
    requires 0.0 <= u.tn <= u.td
    ensures var f := SnappedFractions(k, epsilon); !SolvedAt(k, f.0, f.1)
  {
    hide Cross, SolvedAt, Constrained, SecondSlope;
    SecondSlopeAtEnds(k);
    if m.den > epsilon && m.sn > m.den {
      UnitQuotient(m.den, epsilon);
      SecondPulls(k, 1.0);
    } else {
      SecondPulls(k, 0.0);
    }
  }

  lemma SecondSlopeAtEnds(k: Scalars)
    ensures SecondSlope(k, 0.0, 0.0) == k.ee && SecondSlope(k, 1.0, 0.0) == k.ee + k.bb
  {}

  lemma InteriorSnaps(k: Scalars, epsilon: real, m: Minors)
    requires 0.0 <= epsilon < k.aa && epsilon < k.cc && !Unsnapped(k, epsilon)
    requires m == Cross(k.aa, k.bb, k.cc, k.dd, k.ee) && m.den > epsilon
    requires 0.0 <= m.sn <= m.den && 0.0 <= m.tn <= m.den && RatiosOf(k, epsilon) == Ratios(m.sn, m.den, m.tn, m.den)
    ensures var f := SnappedFractions(k, epsilon); !SolvedAt(k, f.0, f.1)
  {
    hide Cross, SolvedAt, RatiosOf, FirstSlope, SecondSlope;
    var s, t := InteriorSolution(k, m);
    assert SnappedFractions(k, epsilon) == (Quotient(m.sn, m.den, epsilon), Quotient(m.tn, m.den, epsilon));
    hide SnappedFractions;
    if Clear(m.tn, epsilon) {
      QuotientIs(m.tn, m.den, epsilon);
      FirstSnapHarms(k, s, t);
    } else if Clear(m.sn, epsilon) {
      QuotientIs(m.sn, m.den, epsilon);
      SecondSnapHarms(k, s, t);
    } else {
      BothSnapsHarm(k);
    }
  }

  lemma InteriorSolution(k: Scalars, m: Minors) returns (s: real, t: real)
    requires m == Cross(k.aa, k.bb, k.cc, k.dd, k.ee) && m.den > 0.0
    ensures s == m.sn / m.den && t == m.tn / m.den
    ensures FirstSlope(k, s, t) == 0.0 && SecondSlope(k, s, t) == 0.0
    ensures (m.sn > 0.0 ==> s > 0.0) && (m.tn > 0.0 ==> t > 0.0)
  {
    s, t := m.sn / m.den, m.tn / m.den;
    QuotientOf(m.sn, m.den, s);
    QuotientOf(m.tn, m.den, t);
    Cramer(k.aa, k.bb, k.cc, k.dd, k.ee, m.den, s, t);
  }

  lemma QuotientOf(n: real, d: real, x: real)
    requires d > 0.0 && x == n / d
    ensures x * d == n && (n > 0.0 ==> x > 0.0)
  {
    assert x * d == n;
    if n > 0.0 && x <= 0.0 { NotNegative(-x, d, -n); }
  }

  /** For all segments and epsilons, a numerator that is snapped takes the fractions off the minimum. */
  lemma SnapAlwaysHarms(k: Scalars, epsilon: real)
    requires 0.0 <= epsilon < k.aa && epsilon < k.cc && !Unsnapped(k, epsilon)
    ensures var f := SnappedFractions(k, epsilon); !SolvedAt(k, f.0, f.1)
  {
    var u := Unconstrained(k.aa, k.bb, k.cc, k.dd, k.ee, epsilon);
    assert u.sd > 0.0 && u.td > epsilon;
    hide Unconstrained, Repin, SolvedAt;
    if u.tn < 0.0 {
      ZeroQuotient(u.td, epsilon);
      RepinKeeps(u, -k.dd, k.aa, 0.0);
      RepinSnaps(k, u, -k.dd, 0.0, 0.0, epsilon);
    } else if u.tn > u.td {
      UnitQuotient(u.td, epsilon);
      RepinKeeps(u, -k.dd + k.bb, k.aa, u.td);
      RepinSnaps(k, u, -k.dd + k.bb, 1.0, u.td, epsilon);
    } else {
      UnpinnedSnaps(k, epsilon);
    }
  }

  lemma RepinKeeps(r: Ratios, n: real, aa: real, tn: real)
    ensures Repin(r, n, aa, tn).tn == tn && Repin(r, n, aa, tn).td == r.td
  {}

  /** The numerator guard, for all segments longer than the epsilons: whenever it fires, the distance returned is
      not the least. */
  lemma NumeratorGuardAlwaysMisses(p0: Vec3, p1: Vec3, q0: Vec3, q1: Vec3, epsilon: real, pointEpsilon: real)
    requires 0.0 <= pointEpsilon <= epsilon
    requires var k := ScalarsOf(p0, p1, q0, q1); k.aa > epsilon && k.cc > epsilon && !Unsnapped(k, epsilon)
    ensures exists s, t :: Fraction(s) && Fraction(t) &&
              Gap(p0, p1, q0, q1, s, t) < SegmentGap(p0, p1, q0, q1, epsilon, pointEpsilon)
  {
    LeastIffHarmless(p0, p1, q0, q1, epsilon, pointEpsilon);
    hide Harmless, ScalarsOf, Gap, ClosestFractions, Unsnapped;
    SnappedIsHarmful(ScalarsOf(p0, p1, q0, q1), epsilon);
    var f := ClosestFractions(p0, p1, q0, q1, epsilon, pointEpsilon);
    assert Fraction(f.0) && Fraction(f.1);
  }

  lemma SnappedIsHarmful(k: Scalars, epsilon: real)
    requires 0.0 <= epsilon < k.aa && epsilon < k.cc && !Unsnapped(k, epsilon)
    ensures !Harmless(k, epsilon)
  {
    hide Unsnapped;
  }

  // ----- the exact condition

  lemma FractionsAre(p0: Vec3, p1: Vec3, q0: Vec3, q1: Vec3, epsilon: real, pointEpsilon: real)
    requires 0.0 <= pointEpsilon <= epsilon
    ensures var k := ScalarsOf(p0, p1, q0, q1);
            ClosestFractions(p0, p1, q0, q1, epsilon, pointEpsilon) ==
            if k.aa <= epsilon && k.cc <= epsilon then (0.0, 0.0)
            else if k.aa <= epsilon then (0.0, Clip(k.ee / k.cc))
            else if k.cc <= epsilon then (Clip(-k.dd / k.aa), 0.0)
            else SnappedFractions(k, epsilon)
  {
    var u, v, w := Sub(p1, p0), Sub(q1, q0), Sub(p0, q0);
    DotCommutes(v, w);
    NegatedDot(p0, q0, u);
    hide Dot, Sub, Clip, Constrained, Quotient;
  }

  /** For all segments and all epsilons, the result is the least distance exactly when the guard that fired, if
      any, is harmless. */
  lemma LeastIffHarmless(p0: Vec3, p1: Vec3, q0: Vec3, q1: Vec3, epsilon: real, pointEpsilon: real)
    requires 0.0 <= pointEpsilon <= epsilon
    ensures IsLeastGap(SegmentGap(p0, p1, q0, q1, epsilon, pointEpsilon), p0, p1, q0, q1)
            <==> Harmless(ScalarsOf(p0, p1, q0, q1), epsilon)
  {
    hide ClosestFractions, SegmentGap, IsLeastGap, SolvedAt, SnappedFractions, ScalarsOf, Unsnapped, FirstSlope,
         SecondSlope, Cross, ParallelGuardHarmless, Clip;
    LeastIffSolved(p0, p1, q0, q1, epsilon, pointEpsilon);
    FractionsAre(p0, p1, q0, q1, epsilon, pointEpsilon);
    var k := ScalarsOf(p0, p1, q0, q1);
    if k.aa <= epsilon && k.cc <= epsilon {
      BothEndsReading(k);
    } else if k.aa <= epsilon {
      FirstEndReading(k, Clip(k.ee / k.cc));
    } else if k.cc <= epsilon {
      LowReading(k, Clip(-k.dd / k.aa));
    } else if Unsnapped(k, epsilon) {
      if Cross(k.aa, k.bb, k.cc, k.dd, k.ee).den > epsilon { RegularIsSolved(k, epsilon); }
      else { ParallelReading(k, epsilon); }
    } else {
      SnapAlwaysHarms(k, epsilon);
    }
  }

  lemma BothEndsReading(k: Scalars)
    ensures SolvedAt(k, 0.0, 0.0) <==> k.dd >= 0.0 && k.ee <= 0.0
  {
    assert 0.0 * k.aa == 0.0 && 0.0 * k.bb == 0.0 && 0.0 * k.cc == 0.0;
  }

  // ----- how far off the point guards and the parallel guard can be

  /** Cauchy-Schwarz for bounds on the lengths. */
  lemma DotBound(y: Vec3, z: Vec3, d: real, r: real)
    requires d >= 0.0 && r >= 0.0 && SqNorm(y) <= d * d && SqNorm(z) <= r * r
    ensures Dot(y, z) <= d * r
  {
    hide Dot;
    SqNormNonNegative(y);
    SqNormNonNegative(z);
    CauchySchwarzAlways(y, z);
    ProductBound(Dot(y, y), Dot(z, z), d, r, Dot(y, z));
  }

  lemma CauchySchwarzAlways(y: Vec3, z: Vec3)
    ensures Dot(y, z) * Dot(y, z) <= Dot(y, y) * Dot(z, z)
  {
    hide Dot;
    if Dot(z, z) > 0.0 {
      CauchySchwarz(y, z);
    } else {
      NullVector(z);
      NullDot(y);
      var g := Dot(y, z);
      assert g * g == 0.0 && Dot(y, y) * 0.0 == 0.0;
    }
  }

  lemma NullDot(y: Vec3)
    ensures var o := Vec3(0.0, 0.0, 0.0); Dot(y, o) == 0.0 && Dot(o, o) == 0.0
  {}

  lemma ProductBound(a: real, c: real, d: real, r: real, g: real)
    requires 0.0 <= a <= d * d && 0.0 <= c <= r * r && d >= 0.0 && r >= 0.0 && g * g <= a * c
    ensures g <= d * r
  {
    var m, dd, rr := d * r, d * d, r * r;
    NotNegative(d, r, m);
    NotNegative(dd - a, c, dd * c - a * c);
    NotNegative(dd, rr - c, dd * rr - dd * c);
    assert dd * rr == m * m;
    if g > m { Positive(g - m, g + m, g * g - m * m); }
  }

  /** A length is at most another plus the length of the difference. */
  lemma Triangle(x: Vec3, y: Vec3, reported: real, d: real, r: real)
    requires reported >= 0.0 && d >= 0.0 && r >= 0.0
    requires reported * reported <= SqNorm(x) && SqNorm(y) <= d * d && SqNorm(Sub(x, y)) <= r * r
    ensures reported <= d + r
  {
    var z := Sub(x, y);
    assert Add(y, z) == x;
    SquareOfSum(y, z);
    DotBound(y, z, d, r);
    hide Dot, SqNorm, Add, Sub;
    var b := d + r;
    assert b * b == d * d + 2.0 * (d * r) + r * r;
    if reported > b { Positive(reported - b, reported + b, reported * reported - b * b); }
  }

  function Between(p0: Vec3, p1: Vec3, q0: Vec3, q1: Vec3, s: real, t: real): Vec3
  {
    Sub(Along(p0, p1, s), Along(q0, q1, t))
  }

  lemma BetweenApart(p0: Vec3, p1: Vec3, q0: Vec3, q1: Vec3, s: real, t: real, s': real, t': real)
    ensures Sub(Between(p0, p1, q0, q1, s', t'), Between(p0, p1, q0, q1, s, t))
            == Shift(Sub(p1, p0), Sub(q1, q0), s' - s, t' - t)
  {
    SeparationShift(p0, p1, q0, q1, s, t, s', t');
    var x, d := Between(p0, p1, q0, q1, s, t), Shift(Sub(p1, p0), Sub(q1, q0), s' - s, t' - t);
    hide Along, Shift;
    assert Sub(Add(x, d), x) == d;
  }

  lemma ShiftNorm(u: Vec3, v: Vec3, ds: real, dt: real)
    ensures SqNorm(Shift(u, v, ds, dt)) == ds * ds * Dot(u, u) - 2.0 * (ds * dt * Dot(u, v)) + dt * dt * Dot(v, v)
  {
    var d := Shift(u, v, ds, dt);
    DotShift(d, u, v, ds, dt);
    DotShift(u, u, v, ds, dt);
    DotShift(v, u, v, ds, dt);
    DotCommutes(u, v);
    hide Dot, Shift;
    var a, b, c := Dot(u, u), Dot(u, v), Dot(v, v);
    assert ds * (ds * a - dt * b) - dt * (ds * b - dt * c) == ds * ds * a - 2.0 * (ds * dt * b) + dt * dt * c;
  }

  lemma SlopesAre(p0: Vec3, p1: Vec3, q0: Vec3, q1: Vec3, s: real, t: real)
    ensures var k, x := ScalarsOf(p0, p1, q0, q1), Between(p0, p1, q0, q1, s, t);
            Dot(Sub(p1, p0), x) == FirstSlope(k, s, t) && Dot(Sub(q1, q0), x) == SecondSlope(k, s, t)
  {
    Gradient(p0, p1, q0, q1, s, t);
    hide Dot, Along;
  }

  /** Two points of the first segment, each with the foot of its perpendicular on the line of the second: how the
      separations differ. */
  lemma FeetApart(p0: Vec3, p1: Vec3, q0: Vec3, q1: Vec3, s: real, t: real, s': real, t': real)
    requires var k := ScalarsOf(p0, p1, q0, q1); SecondSlope(k, s, t) == 0.0 && SecondSlope(k, s', t') == 0.0
    ensures var k := ScalarsOf(p0, p1, q0, q1);
            SqNorm(Sub(Between(p0, p1, q0, q1, s', t'), Between(p0, p1, q0, q1, s, t))) * k.cc
            == (s' - s) * (s' - s) * (k.aa * k.cc - k.bb * k.bb)
  {
    var k, ds, dt := ScalarsOf(p0, p1, q0, q1), s' - s, t' - t;
    hide Dot, Between, Sub, Shift;
    BetweenApart(p0, p1, q0, q1, s, t, s', t');
    ShiftNorm(Sub(p1, p0), Sub(q1, q0), ds, dt);
    FeetSlopes(k, s, t, s', t');
    FeetAlgebra(k.aa, k.bb, k.cc, ds, dt);
  }

  lemma FeetSlopes(k: Scalars, s: real, t: real, s': real, t': real)
    requires SecondSlope(k, s, t) == 0.0 && SecondSlope(k, s', t') == 0.0
    ensures (s' - s) * k.bb == (t' - t) * k.cc
  {}

  lemma FeetAlgebra(aa: real, bb: real, cc: real, ds: real, dt: real)
    requires ds * bb == dt * cc
    ensures (ds * ds * aa - 2.0 * (ds * dt * bb) + dt * dt * cc) * cc == ds * ds * (aa * cc - bb * bb)
  {
    var m := ds * bb;
    assert dt * dt * cc * cc == m * m;
    assert ds * dt * bb * cc == m * m;
    assert ds * ds * (bb * bb) == m * m;
    assert ds * ds * aa * cc == ds * ds * (aa * cc);
  }

  /** Moving the second fraction away from where its slope holds it gains nothing. */
  lemma HeldSecond(p0: Vec3, p1: Vec3, q0: Vec3, q1: Vec3, s: real, t: real, t': real)
    requires var g := SecondSlope(ScalarsOf(p0, p1, q0, q1), s, t);
             g == 0.0 || (g < 0.0 && t' >= t) || (g > 0.0 && t' <= t)
    ensures Gap(p0, p1, q0, q1, s, t) <= Gap(p0, p1, q0, q1, s, t')
  {
    var k := ScalarsOf(p0, p1, q0, q1);
    MoveSecond(p0, p1, q0, q1, s, t, t');
    SlopesAre(p0, p1, q0, q1, s, t);
    SqNormNonNegative(Sub(q1, q0));
    var g, d := SecondSlope(k, s, t), t' - t;
    hide Gap, Dot, Along, Sub, SecondSlope;
    NoGain(d, -g, k.cc);
  }

  /** Likewise for the first fraction on an edge of the square. */
  lemma HeldFirst(p0: Vec3, p1: Vec3, q0: Vec3, q1: Vec3, s: real, t: real, s': real)
    requires var g := FirstSlope(ScalarsOf(p0, p1, q0, q1), s, t);
             g == 0.0 || (g > 0.0 && s' >= s) || (g < 0.0 && s' <= s)
    ensures Gap(p0, p1, q0, q1, s, t) <= Gap(p0, p1, q0, q1, s', t)
  {
    var k := ScalarsOf(p0, p1, q0, q1);
    MoveFirst(p0, p1, q0, q1, s, t, s');
    SlopesAre(p0, p1, q0, q1, s, t);
    SqNormNonNegative(Sub(p1, p0));
    var g, d := FirstSlope(k, s, t), s' - s;
    hide Gap, Dot, Along, Sub, FirstSlope;
    NoGain(d, g, k.aa);
  }

  lemma NoGain(d: real, g: real, a: real)
    requires a >= 0.0 && (g == 0.0 || (g > 0.0 && d >= 0.0) || (g < 0.0 && d <= 0.0))
    ensures Change(d, g, a) >= 0.0
  {
    var p, q := d * g, d * d;
    assert q >= 0.0;
    NotNegative(q, a, q * a);
    if g > 0.0 { NotNegative(d, g, p); } else if g < 0.0 { NotNegative(-d, -g, p); }
    assert Change(d, g, a) == 2.0 * p + q * a;
  }

  /** What a bound has to satisfy. */
  predicate Covers(r: real, k: Scalars, epsilon: real)
  {
    r >= 0.0 && r * r >= 4.0 * epsilon && (k.cc > epsilon ==> r * r * k.cc >= epsilon)
  }

  /** The line-to-line step costs at most the bound under the parallel guard. */
  lemma FeetWithin(p0: Vec3, p1: Vec3, q0: Vec3, q1: Vec3, s: real, t: real, s': real, t': real, epsilon: real, r: real)
    requires var k := ScalarsOf(p0, p1, q0, q1);
             && SecondSlope(k, s, t) == 0.0 && SecondSlope(k, s', t') == 0.0
             && 0.0 <= epsilon < k.cc && k.aa * k.cc - k.bb * k.bb <= epsilon && Covers(r, k, epsilon)
    requires Fraction(s) && Fraction(s')
    ensures SqNorm(Sub(Between(p0, p1, q0, q1, s', t'), Between(p0, p1, q0, q1, s, t))) <= r * r
  {
    hide SecondSlope, ScalarsOf, Between, SqNorm, Sub;
    var k, ds := ScalarsOf(p0, p1, q0, q1), s' - s;
    var n := SqNorm(Sub(Between(p0, p1, q0, q1, s', t'), Between(p0, p1, q0, q1, s, t)));
    FeetApart(p0, p1, q0, q1, s, t, s', t');
    Determinant(p0, p1, q0, q1);
    var den := k.aa * k.cc - k.bb * k.bb;
    WithinAlgebra(n, k.cc, ds * ds, den, epsilon, r * r, ds);
  }

  lemma Determinant(p0: Vec3, p1: Vec3, q0: Vec3, q1: Vec3)
    ensures var k := ScalarsOf(p0, p1, q0, q1); k.aa * k.cc - k.bb * k.bb >= 0.0
  {
    CauchySchwarzAlways(Sub(p1, p0), Sub(q1, q0));
    hide Dot;
  }

  lemma WithinAlgebra(n: real, cc: real, q: real, den: real, epsilon: real, rr: real, ds: real)
    requires cc > 0.0 && n * cc == q * den && 0.0 <= den <= epsilon && rr * cc >= epsilon
    requires -1.0 <= ds <= 1.0 && q == ds * ds
    ensures n <= rr
  {
    assert 0.0 <= q <= 1.0 by { NotNegative(1.0 - ds, 1.0 + ds, 1.0 - q); assert q >= 0.0; }
    NotNegative(1.0 - q, den, den - q * den);
    if n > rr { Positive(n - rr, cc, n * cc - rr * cc); }
  }

  // ----- the bound, guard by guard

  /** `reported` is the distance returned, `d` that of the points at `(s, t)`. */
  ghost predicate Distances(p0: Vec3, p1: Vec3, q0: Vec3, q1: Vec3, f: (real, real), s: real, t: real,
                            reported: real, d: real)
  {
    && Fraction(s) && Fraction(t) && reported >= 0.0 && d >= 0.0
    && reported * reported == Gap(p0, p1, q0, q1, f.0, f.1) && d * d == Gap(p0, p1, q0, q1, s, t)
  }

  /** By way of two other pairs of points: one no better than the result, one no worse than `(s, t)`. */
  lemma Detour(p0: Vec3, p1: Vec3, q0: Vec3, q1: Vec3, f: (real, real), s: real, t: real, reported: real, d: real,
               s1: real, t1: real, s2: real, t2: real, r: real)
    requires Distances(p0, p1, q0, q1, f, s, t, reported, d) && r >= 0.0
    requires Gap(p0, p1, q0, q1, f.0, f.1) <= Gap(p0, p1, q0, q1, s1, t1)
    requires Gap(p0, p1, q0, q1, s2, t2) <= Gap(p0, p1, q0, q1, s, t)
    requires SqNorm(Sub(Between(p0, p1, q0, q1, s1, t1), Between(p0, p1, q0, q1, s2, t2))) <= r * r
    ensures reported <= d + r
  {
    hide SqNorm, Sub, Along;
    Triangle(Between(p0, p1, q0, q1, s1, t1), Between(p0, p1, q0, q1, s2, t2), reported, d, r);
  }

  lemma ShortShift(p0: Vec3, p1: Vec3, q0: Vec3, q1: Vec3, s: real, t: real, s': real, t': real, epsilon: real, r: real)
    requires var k := ScalarsOf(p0, p1, q0, q1);
             Covers(r, k, epsilon) && (s' == s || k.aa <= epsilon) && (t' == t || k.cc <= epsilon)
    requires Fraction(s) && Fraction(s') && Fraction(t) && Fraction(t') && epsilon >= 0.0
    ensures SqNorm(Sub(Between(p0, p1, q0, q1, s', t'), Between(p0, p1, q0, q1, s, t))) <= r * r
  {
    hide Dot, Between, Shift, Sub;
    var k, u, v, ds, dt := ScalarsOf(p0, p1, q0, q1), Sub(p1, p0), Sub(q1, q0), s' - s, t' - t;
    BetweenApart(p0, p1, q0, q1, s, t, s', t');
    ShiftNorm(u, v, ds, dt);
    ShiftNorm(u, v, ds, -dt);
    SqNormNonNegative(Shift(u, v, ds, -dt));
    SqNormNonNegative(u);
    SqNormNonNegative(v);
    ShortAlgebra(k.aa, k.bb, k.cc, ds, dt, epsilon);
  }

  lemma ShortAlgebra(aa: real, bb: real, cc: real, ds: real, dt: real, epsilon: real)
    requires aa >= 0.0 && cc >= 0.0 && epsilon >= 0.0 && -1.0 <= ds <= 1.0 && -1.0 <= dt <= 1.0
    requires ds == 0.0 || aa <= epsilon
    requires dt == 0.0 || cc <= epsilon
    requires ds * ds * aa - 2.0 * (ds * -dt * bb) + -dt * -dt * cc >= 0.0
    ensures ds * ds * aa - 2.0 * (ds * dt * bb) + dt * dt * cc <= 4.0 * epsilon
  {
    var x, y, m := ds * ds * aa, dt * dt * cc, ds * dt * bb;
    assert ds * -dt * bb == -m && -dt * -dt * cc == y;
    SmallSquare(ds, aa, epsilon, x);
    SmallSquare(dt, cc, epsilon, y);
  }

  lemma SmallSquare(d: real, a: real, epsilon: real, x: real)
    requires a >= 0.0 && epsilon >= 0.0 && -1.0 <= d <= 1.0 && (d == 0.0 || a <= epsilon) && x == d * d * a
    ensures x <= epsilon
  {
    var q := d * d;
    NotNegative(1.0 - d, 1.0 + d, 1.0 - q);
    NotNegative(1.0 - q, a, a - x);
  }

  /** Under the parallel guard with the second fraction held at an end `tau`. */
  lemma EdgeBound(p0: Vec3, p1: Vec3, q0: Vec3, q1: Vec3, f: (real, real), s: real, t: real, reported: real, d: real,
                  epsilon: real, r: real)
    requires Distances(p0, p1, q0, q1, f, s, t, reported, d)
    requires var k := ScalarsOf(p0, p1, q0, q1);
             && 0.0 <= epsilon < k.cc && k.aa * k.cc - k.bb * k.bb <= epsilon && Covers(r, k, epsilon)
             && ((f.1 == 0.0 && SecondSlope(k, 0.0, f.1) < 0.0) || (f.1 == 1.0 && SecondSlope(k, 0.0, f.1) > 0.0))
    requires forall s' :: Fraction(s') ==> Gap(p0, p1, q0, q1, f.0, f.1) <= Gap(p0, p1, q0, q1, s', f.1)
    ensures reported <= d + r
  {
    hide Gap, Between, SqNorm, Sub, ScalarsOf;
    var k, tau := ScalarsOf(p0, p1, q0, q1), f.1;
    var g0, g := SecondSlope(k, 0.0, tau), SecondSlope(k, s, tau);
    if (tau == 0.0 && g <= 0.0) || (tau == 1.0 && g >= 0.0) {
      HeldSecond(p0, p1, q0, q1, s, tau, t);
      NoFarther(reported, d);
    } else {
      var s2 := Crossing(k, s, tau);
      var t1 := tau + g / k.cc;
      assert SecondSlope(k, s, t1) == 0.0 by { FootOf(k, s, tau, t1); }
      HeldSecond(p0, p1, q0, q1, s, t1, t);
      FeetWithin(p0, p1, q0, q1, s, t1, s2, tau, epsilon, r);
      Detour(p0, p1, q0, q1, f, s, t, reported, d, s2, tau, s, t1, r);
    }
  }

  lemma FootOf(k: Scalars, s: real, tau: real, t: real)
    requires k.cc > 0.0 && t == tau + SecondSlope(k, s, tau) / k.cc
    ensures SecondSlope(k, s, t) == 0.0
  {
    var g := SecondSlope(k, s, tau);
    assert g / k.cc * k.cc == g;
  }

  /** Where the foot passes the end `tau` on the way from the first end to `s`. */
  lemma Crossing(k: Scalars, s: real, tau: real) returns (s2: real)
    requires Fraction(s)
    requires var g0, g := SecondSlope(k, 0.0, tau), SecondSlope(k, s, tau);
             (g0 < 0.0 && g > 0.0) || (g0 > 0.0 && g < 0.0)
    ensures Fraction(s2) && SecondSlope(k, s2, tau) == 0.0
  {
    var g0, g := SecondSlope(k, 0.0, tau), SecondSlope(k, s, tau);
    var share := g0 / (g0 - g);
    assert share * (g0 - g) == g0;
    assert 0.0 <= share <= 1.0;
    s2 := share * s;
    PartOf(share, s, s2);
    assert s * k.bb == g - g0;
    assert s2 * k.bb == share * (s * k.bb);
  }

  lemma NoFarther(x: real, y: real)
    requires x >= 0.0 && y >= 0.0 && x * x <= y * y
    ensures x <= y
  {
    if x > y { Positive(x - y, x + y, x * x - y * y); }
  }

  /** A clipped quotient is held by its slope. */
  lemma ClipHolds(n: real, d: real, x: real, x': real)
    requires d > 0.0 && x == Clip(n / d) && Fraction(x')
    ensures var g := x * d - n; g == 0.0 || (g > 0.0 && x' >= x) || (g < 0.0 && x' <= x)
  {
    ClippedIs(n, d, x);
  }

  lemma FirstHeld(p0: Vec3, p1: Vec3, q0: Vec3, q1: Vec3, s: real, t: real, s': real, n: real)
    requires var k := ScalarsOf(p0, p1, q0, q1); k.aa > 0.0 && n == t * k.bb - k.dd && s == Clip(n / k.aa)
    requires Fraction(s')
    ensures Gap(p0, p1, q0, q1, s, t) <= Gap(p0, p1, q0, q1, s', t)
  {
    hide Gap, ScalarsOf, Clip;
    var k := ScalarsOf(p0, p1, q0, q1);
    ClipHolds(n, k.aa, s, s');
    HeldFirst(p0, p1, q0, q1, s, t, s');
  }

  lemma SecondHeld(p0: Vec3, p1: Vec3, q0: Vec3, q1: Vec3, t: real, t': real)
    requires var k := ScalarsOf(p0, p1, q0, q1); k.cc > 0.0 && t == Clip(k.ee / k.cc)
    requires Fraction(t')
    ensures Gap(p0, p1, q0, q1, 0.0, t) <= Gap(p0, p1, q0, q1, 0.0, t')
  {
    hide Gap, ScalarsOf, Clip;
    var k := ScalarsOf(p0, p1, q0, q1);
    ClipHolds(k.ee, k.cc, t, t');
    assert 0.0 * k.bb == 0.0;
    HeldSecond(p0, p1, q0, q1, 0.0, t, t');
  }

  lemma ParallelBound(p0: Vec3, p1: Vec3, q0: Vec3, q1: Vec3, s: real, t: real, reported: real, d: real,
                      epsilon: real, r: real)
    requires var k := ScalarsOf(p0, p1, q0, q1);
             && 0.0 <= epsilon < k.aa && epsilon < k.cc && Cross(k.aa, k.bb, k.cc, k.dd, k.ee).den <= epsilon
             && Unsnapped(k, epsilon) && Covers(r, k, epsilon)
             && Distances(p0, p1, q0, q1, SnappedFractions(k, epsilon), s, t, reported, d)
    ensures reported <= d + r
  {
    hide Gap, Clip, SnappedFractions, Unsnapped, ScalarsOf, Covers;
    var k := ScalarsOf(p0, p1, q0, q1);
    ParallelFractions(k, epsilon);
    var f := SnappedFractions(k, epsilon);
    if k.ee < 0.0 || k.ee > k.cc {
      var n := f.1 * k.bb - k.dd;
      assert n == if k.ee < 0.0 then -k.dd else k.bb - k.dd;
      forall s' | Fraction(s') ensures Gap(p0, p1, q0, q1, f.0, f.1) <= Gap(p0, p1, q0, q1, s', f.1) {
        FirstHeld(p0, p1, q0, q1, f.0, f.1, s', n);
      }
      EndSlopes(k);
      hide SecondSlope;
      EdgeBound(p0, p1, q0, q1, f, s, t, reported, d, epsilon, r);
    } else {
      MidBound(p0, p1, q0, q1, f, s, t, reported, d, epsilon, r);
    }
  }

  lemma EndSlopes(k: Scalars)
    ensures SecondSlope(k, 0.0, 0.0) == k.ee && SecondSlope(k, 0.0, 1.0) == k.ee - k.cc
  {}

  lemma MidBound(p0: Vec3, p1: Vec3, q0: Vec3, q1: Vec3, f: (real, real), s: real, t: real, reported: real, d: real,
                 epsilon: real, r: real)
    requires var k := ScalarsOf(p0, p1, q0, q1);
             && 0.0 <= epsilon < k.cc && k.aa * k.cc - k.bb * k.bb <= epsilon && Covers(r, k, epsilon)
             && f == (0.0, k.ee / k.cc)
    requires Distances(p0, p1, q0, q1, f, s, t, reported, d)
    ensures reported <= d + r
  {
    hide Gap, ScalarsOf, Between, SqNorm, Sub;
    var k := ScalarsOf(p0, p1, q0, q1);
    var t1 := 0.0 + SecondSlope(k, s, 0.0) / k.cc;
    FootOf(k, s, 0.0, t1);
    EndSlopes(k);
    FootOf(k, 0.0, 0.0, f.1);
    hide SecondSlope;
    HeldSecond(p0, p1, q0, q1, s, t1, t);
    FeetWithin(p0, p1, q0, q1, s, t1, 0.0, f.1, epsilon, r);
    Detour(p0, p1, q0, q1, f, s, t, reported, d, 0.0, f.1, s, t1, r);
  }

  lemma PointBound(p0: Vec3, p1: Vec3, q0: Vec3, q1: Vec3, f: (real, real), s: real, t: real, reported: real, d: real,
                   epsilon: real, r: real)
    requires var k := ScalarsOf(p0, p1, q0, q1);
             && 0.0 <= epsilon && (k.aa <= epsilon || k.cc <= epsilon) && Covers(r, k, epsilon)
             && f == (if k.aa <= epsilon && k.cc <= epsilon then (0.0, 0.0)
                      else if k.aa <= epsilon then (0.0, Clip(k.ee / k.cc)) else (Clip(-k.dd / k.aa), 0.0))
    requires Distances(p0, p1, q0, q1, f, s, t, reported, d)
    ensures reported <= d + r
  {
    hide Gap, Clip, ScalarsOf, Between, SqNorm, Sub;
    var k := ScalarsOf(p0, p1, q0, q1);
    if k.aa <= epsilon && k.cc <= epsilon {
      ShortShift(p0, p1, q0, q1, s, t, 0.0, 0.0, epsilon, r);
      Detour(p0, p1, q0, q1, f, s, t, reported, d, 0.0, 0.0, s, t, r);
    } else if k.aa <= epsilon {
      SecondHeld(p0, p1, q0, q1, f.1, t);
      ShortShift(p0, p1, q0, q1, s, t, 0.0, t, epsilon, r);
      Detour(p0, p1, q0, q1, f, s, t, reported, d, 0.0, t, s, t, r);
    } else {
      FirstHeld(p0, p1, q0, q1, f.0, 0.0, s, -k.dd);
      ShortShift(p0, p1, q0, q1, s, t, s, 0.0, epsilon, r);
      Detour(p0, p1, q0, q1, f, s, t, reported, d, s, 0.0, s, t, r);
    }
  }

  /** For all segments, as long as no fraction is snapped for its numerator: the distance returned exceeds that of
      any pair of points by at most `r`, where `r` covers `2 * sqrt(epsilon)` for the point guards and
      `sqrt(epsilon) / length` of the second segment for the parallel guard. */
  lemma GuardedDistanceBound(p0: Vec3, p1: Vec3, q0: Vec3, q1: Vec3, epsilon: real, pointEpsilon: real,
                             s: real, t: real, reported: real, d: real, r: real)
    requires 0.0 <= pointEpsilon <= epsilon && Fraction(s) && Fraction(t) && reported >= 0.0 && d >= 0.0
    requires var k := ScalarsOf(p0, p1, q0, q1);
             Covers(r, k, epsilon) && (k.aa > epsilon && k.cc > epsilon ==> Unsnapped(k, epsilon))
    requires reported * reported == SegmentGap(p0, p1, q0, q1, epsilon, pointEpsilon)
    requires d * d == Gap(p0, p1, q0, q1, s, t)
    ensures reported <= d + r
  {
    hide Gap, Clip, ScalarsOf, SnappedFractions, Unsnapped, ClosestFractions, Cross, Harmless;
    var k := ScalarsOf(p0, p1, q0, q1);
    var f := ClosestFractions(p0, p1, q0, q1, epsilon, pointEpsilon);
    FractionsAre(p0, p1, q0, q1, epsilon, pointEpsilon);
    assert Distances(p0, p1, q0, q1, f, s, t, reported, d);
    if k.aa <= epsilon || k.cc <= epsilon {
      PointBound(p0, p1, q0, q1, f, s, t, reported, d, epsilon, r);
    } else if Cross(k.aa, k.bb, k.cc, k.dd, k.ee).den <= epsilon {
      ParallelBound(p0, p1, q0, q1, s, t, reported, d, epsilon, r);
    } else {
      RegularIsHarmless(k, epsilon);
      LeastIffHarmless(p0, p1, q0, q1, epsilon, pointEpsilon);
      NoFarther(reported, d);
    }
  }

  lemma RegularIsHarmless(k: Scalars, epsilon: real)
    requires 0.0 <= epsilon < k.aa && epsilon < k.cc && Cross(k.aa, k.bb, k.cc, k.dd, k.ee).den > epsilon
    requires Unsnapped(k, epsilon)
    ensures Harmless(k, epsilon)
  {
    hide Cross, Unsnapped, SnappedFractions;
  }

  // ----- each guard does harm

  /** The parallel guard: two segments of length `2 * h` that cross at right angles in their midpoints are reported
      at distance `h`, for all `h` up to the fourth root of `epsilon / 16`. */
  lemma CrossingSegmentsMiss(h: real, epsilon: real, pointEpsilon: real)
    requires 0.0 <= pointEpsilon <= epsilon < 2.0 * (h * h) && 16.0 * (h * h) * (h * h) <= epsilon
    ensures var p0, p1, q0, q1 := Vec3(-h, 0.0, 0.0), Vec3(h, 0.0, 0.0), Vec3(0.0, -h, 0.0), Vec3(0.0, h, 0.0);
            && SegmentGap(p0, p1, q0, q1, epsilon, pointEpsilon) == h * h
            && Gap(p0, p1, q0, q1, 0.5, 0.5) == 0.0
            && !IsLeastGap(SegmentGap(p0, p1, q0, q1, epsilon, pointEpsilon), p0, p1, q0, q1)
  {
    hide ScalarsOf, Gap, SnappedFractions, ClosestFractions, IsLeastGap;
    var p0, p1, q0, q1 := Vec3(-h, 0.0, 0.0), Vec3(h, 0.0, 0.0), Vec3(0.0, -h, 0.0), Vec3(0.0, h, 0.0);
    var m := h * h;
    CrossingScalars(h, m);
    CrossingGaps(h, m);
    CrossingFractions(ScalarsOf(p0, p1, q0, q1), m, epsilon);
    FractionsAre(p0, p1, q0, q1, epsilon, pointEpsilon);
    NotLeast(m, p0, p1, q0, q1, 0.5, 0.5);
  }

  lemma CrossingScalars(h: real, m: real)
    requires m == h * h
    ensures ScalarsOf(Vec3(-h, 0.0, 0.0), Vec3(h, 0.0, 0.0), Vec3(0.0, -h, 0.0), Vec3(0.0, h, 0.0))
            == Scalars(4.0 * m, 0.0, 4.0 * m, -2.0 * m, 2.0 * m)
  {}

  lemma CrossingGaps(h: real, m: real)
    requires m == h * h
    ensures var p0, p1, q0, q1 := Vec3(-h, 0.0, 0.0), Vec3(h, 0.0, 0.0), Vec3(0.0, -h, 0.0), Vec3(0.0, h, 0.0);
            Gap(p0, p1, q0, q1, 0.0, 0.5) == m && Gap(p0, p1, q0, q1, 0.5, 0.5) == 0.0
  {
    hide SqNorm;
    var p0, p1, q0, q1 := Vec3(-h, 0.0, 0.0), Vec3(h, 0.0, 0.0), Vec3(0.0, -h, 0.0), Vec3(0.0, h, 0.0);
    var o := Vec3(0.0, 0.0, 0.0);
    assert Along(p0, p1, 0.0) == p0 && Along(p0, p1, 0.5) == o && Along(q0, q1, 0.5) == o;
    assert Sub(p0, o) == p0 && Sub(o, o) == o;
    AxisNorm(h);
  }

  lemma CrossingFractions(k: Scalars, m: real, epsilon: real)
    requires k == Scalars(4.0 * m, 0.0, 4.0 * m, -2.0 * m, 2.0 * m) && 0.0 <= epsilon < 2.0 * m
    requires 16.0 * m * m <= epsilon
    ensures SnappedFractions(k, epsilon) == (0.0, 0.5)
  {
    assert Cross(k.aa, k.bb, k.cc, k.dd, k.ee).den == 16.0 * m * m;
    hide Cross;
    assert RatiosOf(k, epsilon) == Ratios(0.0, 1.0, 2.0 * m, 4.0 * m);
    hide RatiosOf;
    ParallelFractions(k, epsilon);
    hide SnappedFractions;
    assert 2.0 * m / (4.0 * m) == 0.5;
  }

  /** The numerator guard: one fraction is set to 0 and the other is not solved again.  Two nearly parallel segments
      of length 1 that cross, the first in its middle, are reported half a length apart. */
  lemma SnappedFractionMisses(theta: real, epsilon: real, pointEpsilon: real)
    requires 0.0 <= pointEpsilon <= epsilon < 1.0 && epsilon < 0.9 * (theta * theta) && theta * theta <= 2.0 * epsilon
    ensures var p0, p1 := Vec3(-0.5, 0.0, 0.0), Vec3(0.5, 0.0, 0.0);
            var q0, q1 := Vec3(-0.9, -0.9 * theta, 0.0), Vec3(0.1, 0.1 * theta, 0.0);
            && SegmentGap(p0, p1, q0, q1, epsilon, pointEpsilon) == 0.25
            && Gap(p0, p1, q0, q1, 0.5, 0.9) == 0.0
            && !IsLeastGap(SegmentGap(p0, p1, q0, q1, epsilon, pointEpsilon), p0, p1, q0, q1)
  {
    hide ScalarsOf, Gap, SnappedFractions, ClosestFractions, IsLeastGap;
    var p0, p1 := Vec3(-0.5, 0.0, 0.0), Vec3(0.5, 0.0, 0.0);
    var q0, q1 := Vec3(-0.9, -0.9 * theta, 0.0), Vec3(0.1, 0.1 * theta, 0.0);
    var m := theta * theta;
    NearlyParallelScalars(theta, m);
    NearlyParallelGaps(theta);
    NearlyParallelFractions(ScalarsOf(p0, p1, q0, q1), m, epsilon);
    FractionsAre(p0, p1, q0, q1, epsilon, pointEpsilon);
    NotLeast(0.25, p0, p1, q0, q1, 0.5, 0.9);
  }

  lemma NearlyParallelScalars(theta: real, m: real)
    requires m == theta * theta
    ensures ScalarsOf(Vec3(-0.5, 0.0, 0.0), Vec3(0.5, 0.0, 0.0),
                      Vec3(-0.9, -0.9 * theta, 0.0), Vec3(0.1, 0.1 * theta, 0.0))
            == Scalars(1.0, 1.0, 1.0 + m, 0.4, 0.4 + 0.9 * m)
  {}

  lemma NearlyParallelGaps(theta: real)
    ensures var p0, p1 := Vec3(-0.5, 0.0, 0.0), Vec3(0.5, 0.0, 0.0);
            var q0, q1 := Vec3(-0.9, -0.9 * theta, 0.0), Vec3(0.1, 0.1 * theta, 0.0);
            Gap(p0, p1, q0, q1, 0.0, 0.9) == 0.25 && Gap(p0, p1, q0, q1, 0.5, 0.9) == 0.0
  {
    hide SqNorm, Along;
    var p0, p1 := Vec3(-0.5, 0.0, 0.0), Vec3(0.5, 0.0, 0.0);
    var q0, q1 := Vec3(-0.9, -0.9 * theta, 0.0), Vec3(0.1, 0.1 * theta, 0.0);
    var o := Vec3(0.0, 0.0, 0.0);
    AlongEnds(p0, p1);
    NearlyParallelPoints(theta);
    assert Sub(p0, o) == p0 && Sub(o, o) == o;
    hide Sub;
    AxisNorm(0.5);
    assert p0 == Vec3(-(0.5), 0.0, 0.0) && 0.5 * 0.5 == 0.25;
  }

  lemma NearlyParallelPoints(theta: real)
    ensures Along(Vec3(-0.5, 0.0, 0.0), Vec3(0.5, 0.0, 0.0), 0.5) == Vec3(0.0, 0.0, 0.0)
    ensures Along(Vec3(-0.9, -0.9 * theta, 0.0), Vec3(0.1, 0.1 * theta, 0.0), 0.9) == Vec3(0.0, 0.0, 0.0)
  {
    hide Along;
    AlongIs(Vec3(-0.5, 0.0, 0.0), Vec3(0.5, 0.0, 0.0), 0.5, Vec3(1.0, 0.0, 0.0));
    AlongIs(Vec3(-0.9, -0.9 * theta, 0.0), Vec3(0.1, 0.1 * theta, 0.0), 0.9, Vec3(1.0, theta, 0.0));
  }

  lemma AlongIs(a: Vec3, b: Vec3, s: real, v: Vec3)
    requires b.x - a.x == v.x && b.y - a.y == v.y && b.z - a.z == v.z
    ensures Along(a, b, s) == Vec3(a.x + s * v.x, a.y + s * v.y, a.z + s * v.z)
  {}

  lemma NearlyParallelFractions(k: Scalars, m: real, epsilon: real)
    requires k == Scalars(1.0, 1.0, 1.0 + m, 0.4, 0.4 + 0.9 * m) && 0.0 <= epsilon < 1.0
    requires epsilon < 0.9 * m && m <= 2.0 * epsilon
    ensures SnappedFractions(k, epsilon) == (0.0, 0.9)
  {
    assert Cross(k.aa, k.bb, k.cc, k.dd, k.ee) == Minors(m, 0.5 * m, 0.9 * m);
    hide Cross;
    assert RatiosOf(k, epsilon) == Ratios(0.5 * m, m, 0.9 * m, m);
    hide RatiosOf;
    assert 0.9 * m / m == 0.9;
  }

  /** Both happen with the shipped epsilons: 0.3 mm segments crossing at right angles, reported 0.15 mm apart, and
      segments of a metre at an angle of 1.4e-7, reported half a metre apart. */
  lemma ShippedEpsilonsMiss()
    ensures var h := 0.00015; EPSILON < 2.0 * (h * h) && 16.0 * (h * h) * (h * h) <= EPSILON
    ensures var theta := 0.00000014; EPSILON < 0.9 * (theta * theta) && theta * theta <= 2.0 * EPSILON
  {}
}
