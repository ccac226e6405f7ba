/** Closest distance between two finite 3-D segments, in exact real arithmetic.

    Distances are kept squared, so no square root is needed.  The two guards of
    `_segment_distance` against tiny denominators are the parameters `epsilon` and `pointEpsilon`.
 */
module SegmentDistance {
  import opened RealProducts

  datatype Vec3 = Vec3(x: real, y: real, z: real)

  function Add(a: Vec3, b: Vec3): Vec3 { Vec3(a.x + b.x, a.y + b.y, a.z + b.z) }

  function Sub(a: Vec3, b: Vec3): Vec3 { Vec3(a.x - b.x, a.y - b.y, a.z - b.z) }

  function Scale(k: real, a: Vec3): Vec3 { Vec3(k * a.x, k * a.y, k * a.z) }

  function Dot(a: Vec3, b: Vec3): real { a.x * b.x + a.y * b.y + a.z * b.z }

  function SqNorm(a: Vec3): real { Dot(a, a) }

  /** The point a fraction `s` of the way from `a` to `b`. */
  function Along(a: Vec3, b: Vec3, s: real): Vec3 { Add(a, Scale(s, Sub(b, a))) }

  predicate Fraction(s: real) { 0.0 <= s <= 1.0 }

  /** Squared distance between a point of the first segment and a point of the second. */
  function Gap(p0: Vec3, p1: Vec3, q0: Vec3, q1: Vec3, s: real, t: real): real
  {
    SqNorm(Sub(Along(p0, p1, s), Along(q0, q1, t)))
  }

  /** The reference notion: `d` is the least squared distance, and it is attained. */
  ghost predicate IsLeastGap(d: real, p0: Vec3, p1: Vec3, q0: Vec3, q1: Vec3)
  {
    && (exists s, t :: Fraction(s) && Fraction(t) && d == Gap(p0, p1, q0, q1, s, t))
    && (forall s, t :: Fraction(s) && Fraction(t) ==> d <= Gap(p0, p1, q0, q1, s, t))
  }

  // ----- the routines

  function Clip(v: real): (r: real)
    ensures Fraction(r)
    ensures Fraction(v) ==> r == v
  {
    if v < 0.0 then 0.0 else if v > 1.0 then 1.0 else v
  }

  function PointFraction(point: Vec3, start: Vec3, end: Vec3, pointEpsilon: real): (alpha: real)
    requires 0.0 <= pointEpsilon
    ensures Fraction(alpha)
  {
    var delta := Sub(end, start);
    if SqNorm(delta) <= pointEpsilon then 0.0
    else Clip(Dot(Sub(point, start), delta) / SqNorm(delta))
  }

  /** Numerators and denominators of the two fractions, as `_segment_distance` carries them. */
  datatype Ratios = Ratios(sn: real, sd: real, tn: real, td: real)

  /** The determinant of the normal equations and the two numerators of Cramer's rule. */
  datatype Minors = Minors(den: real, sn: real, tn: real)

  function Cross(aa: real, bb: real, cc: real, dd: real, ee: real): Minors
  {
    Minors(aa * cc - bb * bb, bb * ee - cc * dd, aa * ee - bb * dd)
  }

  function Unconstrained(aa: real, bb: real, cc: real, dd: real, ee: real, epsilon: real): Ratios
  {
    var k := Cross(aa, bb, cc, dd, ee);
    if k.den <= epsilon then Ratios(0.0, 1.0, ee, cc)
    else if k.sn < 0.0 then Ratios(0.0, k.den, ee, cc)
    else if k.sn > k.den then Ratios(k.den, k.den, ee + bb, cc)
    else Ratios(k.sn, k.den, k.tn, k.den)
  }

  /** Re-solve the first fraction once the second one is pinned to an end. */
  function Repin(r: Ratios, numerator: real, aa: real, tn: real): Ratios
  {
    if numerator < 0.0 then r.(sn := 0.0, tn := tn)
    else if numerator > aa then r.(sn := r.sd, tn := tn)
    else r.(sn := numerator, sd := aa, tn := tn)
  }

  function Constrained(aa: real, bb: real, cc: real, dd: real, ee: real, epsilon: real): Ratios
  {
    var r := Unconstrained(aa, bb, cc, dd, ee, epsilon);
    if r.tn < 0.0 then Repin(r, -dd, aa, 0.0)
    else if r.tn > r.td then Repin(r, -dd + bb, aa, r.td)
    else r
  }

  function Quotient(n: real, d: real, epsilon: real): real
    requires d > 0.0
  {
    if -epsilon <= n <= epsilon then 0.0 else n / d
  }

  /** Both fractions of `_segment_distance`; always inside [0, 1], whatever the epsilons. */
  function ClosestFractions(p0: Vec3, p1: Vec3, q0: Vec3, q1: Vec3, epsilon: real, pointEpsilon: real)
    : (f: (real, real))
    requires 0.0 <= pointEpsilon <= epsilon
    ensures Fraction(f.0) && Fraction(f.1)
  {
    var u, v, w := Sub(p1, p0), Sub(q1, q0), Sub(p0, q0);
    var aa, bb, cc, dd, ee := Dot(u, u), Dot(u, v), Dot(v, v), Dot(u, w), Dot(v, w);
    if aa <= epsilon && cc <= epsilon then (0.0, 0.0)
    else if aa <= epsilon then (0.0, PointFraction(p0, q0, q1, pointEpsilon))
    else if cc <= epsilon then (PointFraction(q0, p0, p1, pointEpsilon), 0.0)
    else
      var r := Constrained(aa, bb, cc, dd, ee, epsilon);
      QuotientsAreFractions(aa, bb, cc, dd, ee, epsilon);
      (Quotient(r.sn, r.sd, epsilon), Quotient(r.tn, r.td, epsilon))
  }

  function SegmentGap(p0: Vec3, p1: Vec3, q0: Vec3, q1: Vec3, epsilon: real, pointEpsilon: real): real
    requires 0.0 <= pointEpsilon <= epsilon
  {
    var f := ClosestFractions(p0, p1, q0, q1, epsilon, pointEpsilon);
    Gap(p0, p1, q0, q1, f.0, f.1)
  }

  const EPSILON: real := 0.00000000000001
  const POINT_EPSILON: real := 0.00000000000000000001

  lemma QuotientWithin(n: real, d: real, epsilon: real)
    requires 0.0 <= n <= d && 0.0 < d
    ensures Fraction(Quotient(n, d, epsilon))
  {}

  lemma QuotientsAreFractions(aa: real, bb: real, cc: real, dd: real, ee: real, epsilon: real)
    requires 0.0 <= epsilon < aa && epsilon < cc
    ensures var r := Constrained(aa, bb, cc, dd, ee, epsilon);
            && r.sd > 0.0 && r.td > 0.0
            && Fraction(Quotient(r.sn, r.sd, epsilon)) && Fraction(Quotient(r.tn, r.td, epsilon))
  {
    var r := Constrained(aa, bb, cc, dd, ee, epsilon);
    QuotientWithin(r.sn, r.sd, epsilon);
    QuotientWithin(r.tn, r.td, epsilon);
  }

  // ----- optimality: first-order conditions of a convex quadratic on the unit square

  /** First-order conditions at (s, t), for the gradient (gs, -gt) of half the squared gap. */
  predicate Stationary(s: real, t: real, gs: real, gt: real)
  {
    && (s > 0.0 ==> gs <= 0.0) && (s < 1.0 ==> gs >= 0.0)
    && (t > 0.0 ==> gt >= 0.0) && (t < 1.0 ==> gt <= 0.0)
  }

  lemma OneSided(g: real, x: real, x': real, p: real)
    requires Fraction(x) && Fraction(x') && p == g * (x' - x)
    requires (x > 0.0 ==> g <= 0.0) && (x < 1.0 ==> g >= 0.0)
    ensures p >= 0.0
  {}

  lemma SqNormNonNegative(a: Vec3)
    ensures SqNorm(a) >= 0.0
  {}

  lemma DotAdd(a: Vec3, b: Vec3, c: Vec3)
    ensures Dot(Add(a, b), c) == Dot(a, c) + Dot(b, c) && Dot(c, Add(a, b)) == Dot(c, a) + Dot(c, b)
  {}

  lemma DotScale(k: real, a: Vec3, c: Vec3)
    ensures Dot(Scale(k, a), c) == k * Dot(a, c) && Dot(c, Scale(k, a)) == k * Dot(c, a)
  {}

  lemma SquareOfSum(a: Vec3, b: Vec3)
    ensures SqNorm(Add(a, b)) == SqNorm(a) + 2.0 * Dot(a, b) + SqNorm(b)
  {}

  /** Moving both points changes the separation by `ds * u - dt * v`. */
  function Shift(u: Vec3, v: Vec3, ds: real, dt: real): Vec3 { Add(Scale(ds, u), Scale(-dt, v)) }

  lemma SeparationShift(p0: Vec3, p1: Vec3, q0: Vec3, q1: Vec3, s: real, t: real, s': real, t': real)
    ensures Sub(Along(p0, p1, s'), Along(q0, q1, t'))
         == Add(Sub(Along(p0, p1, s), Along(q0, q1, t)), Shift(Sub(p1, p0), Sub(q1, q0), s' - s, t' - t))
  {}

  lemma Linear(s: real, s': real, k: real)
    ensures s' * k == s * k + (s' - s) * k && (-(s' - s)) * k == s * k - s' * k
  {}

  lemma DotShift(x: Vec3, u: Vec3, v: Vec3, ds: real, dt: real)
    ensures Dot(x, Shift(u, v, ds, dt)) == ds * Dot(u, x) - dt * Dot(v, x)
  {}

  /** The first-order conditions suffice for a global minimum. */
  lemma StationaryIsLeast(p0: Vec3, p1: Vec3, q0: Vec3, q1: Vec3, s: real, t: real, s': real, t': real)
    requires Fraction(s) && Fraction(t) && Fraction(s') && Fraction(t')
    requires var x := Sub(Along(p0, p1, s), Along(q0, q1, t));
             Stationary(s, t, Dot(Sub(p1, p0), x), Dot(Sub(q1, q0), x))
    ensures Gap(p0, p1, q0, q1, s, t) <= Gap(p0, p1, q0, q1, s', t')
  {
    hide Dot, Along, Shift, Sub, Add, Stationary, SqNorm;
    var u, v := Sub(p1, p0), Sub(q1, q0);
    var x := Sub(Along(p0, p1, s), Along(q0, q1, t));
    var d := Shift(u, v, s' - s, t' - t);
    SeparationShift(p0, p1, q0, q1, s, t, s', t');
    SquareOfSum(x, d);
    SqNormNonNegative(d);
    NoDescent(x, u, v, s, t, s', t');
    var here, cross, extra := SqNorm(x), Dot(x, d), SqNorm(d);
    assert SqNorm(Add(x, d)) == here + 2.0 * cross + extra;
  }

  lemma NoDescent(x: Vec3, u: Vec3, v: Vec3, s: real, t: real, s': real, t': real)
    requires Fraction(s) && Fraction(t) && Fraction(s') && Fraction(t') && Stationary(s, t, Dot(u, x), Dot(v, x))
    ensures Dot(x, Shift(u, v, s' - s, t' - t)) >= 0.0
  {
    hide Dot, Shift, Stationary;
    var ds, dt, gs, gt := s' - s, t' - t, Dot(u, x), Dot(v, x);
    DotShift(x, u, v, ds, dt);
    Ascent(gs, gt, s, t, s', t', ds, dt, ds * gs, dt * gt);
  }

  /** From a stationary point no direction inside the square descends. */
  lemma Ascent(gs: real, gt: real, s: real, t: real, s': real, t': real, ds: real, dt: real, ps: real, pt: real)
    requires Fraction(s) && Fraction(t) && Fraction(s') && Fraction(t') && Stationary(s, t, gs, gt)
    requires ds == s' - s && dt == t' - t && ps == ds * gs && pt == dt * gt
    ensures ps - pt >= 0.0
  {
    OneSided(gs, s, s', ps);
    OneSided(-gt, t, t', -pt);
  }

  /** The gradient along each segment, in the scalars `_segment_distance` computes. */
  lemma Gradient(p0: Vec3, p1: Vec3, q0: Vec3, q1: Vec3, s: real, t: real)
    ensures var u, v, w := Sub(p1, p0), Sub(q1, q0), Sub(p0, q0);
            var x := Sub(Along(p0, p1, s), Along(q0, q1, t));
            && Dot(u, x) == Dot(u, w) + s * Dot(u, u) - t * Dot(u, v)
            && Dot(v, x) == Dot(v, w) + s * Dot(u, v) - t * Dot(v, v)
  {
    var u, v, w := Sub(p1, p0), Sub(q1, q0), Sub(p0, q0);
    var x := Sub(Along(p0, p1, s), Along(q0, q1, t));
    assert x == Add(w, Shift(u, v, s, t));
    DotAdd(w, Shift(u, v, s, t), u);
    DotAdd(w, Shift(u, v, s, t), v);
    DotShift(u, u, v, s, t);
    DotShift(v, u, v, s, t);
  }

  /** The part of `u` orthogonal to `v`, scaled by |v|^2. */
  function Residual(u: Vec3, v: Vec3): Vec3 { Add(Scale(Dot(v, v), u), Scale(-Dot(u, v), v)) }

  /** Lagrange's identity scaled by |v|^2: it gives Cauchy-Schwarz and the parallel case. */
  lemma Lagrange(u: Vec3, v: Vec3)
    ensures SqNorm(Residual(u, v))
         == Dot(v, v) * (Dot(u, u) * Dot(v, v) - Dot(u, v) * Dot(u, v))
  {}

  lemma CauchySchwarz(u: Vec3, v: Vec3)
    requires Dot(v, v) > 0.0
    ensures Dot(u, u) * Dot(v, v) - Dot(u, v) * Dot(u, v) >= 0.0
  {
    Lagrange(u, v);
    SqNormNonNegative(Residual(u, v));
    SignOfFactor(Dot(v, v), Dot(u, u) * Dot(v, v) - Dot(u, v) * Dot(u, v));
  }

  lemma SignOfFactor(c: real, d: real)
    requires c > 0.0 && c * d >= 0.0
    ensures d >= 0.0
  {}

  lemma ZeroSquare(a: real, m: real)
    requires m == a * a
    ensures m >= 0.0 && (m <= 0.0 ==> a == 0.0)
  {
    if a > 0.0 { Positive(a, a, m); }
    if a < 0.0 { Positive(-a, -a, m); }
  }

  lemma NullVector(a: Vec3)
    requires SqNorm(a) <= 0.0
    ensures a == Vec3(0.0, 0.0, 0.0)
  {
    ZeroSquare(a.x, a.x * a.x);
    ZeroSquare(a.y, a.y * a.y);
    ZeroSquare(a.z, a.z * a.z);
  }

  lemma NullResidual(u: Vec3, v: Vec3)
    requires Dot(u, u) * Dot(v, v) - Dot(u, v) * Dot(u, v) == 0.0
    ensures SqNorm(Residual(u, v)) == 0.0
  {
    Lagrange(u, v);
    hide Dot, Residual, SqNorm;
  }

  lemma NullCombination(u: Vec3, v: Vec3, w: Vec3, cc: real, bb: real)
    requires Add(Scale(cc, u), Scale(-bb, v)) == Vec3(0.0, 0.0, 0.0)
    ensures cc * Dot(u, w) == bb * Dot(v, w)
  {}

  lemma NullResidualIsNull(u: Vec3, v: Vec3)
    requires Dot(u, u) * Dot(v, v) - Dot(u, v) * Dot(u, v) == 0.0
    ensures Residual(u, v) == Vec3(0.0, 0.0, 0.0)
  {
    NullResidual(u, v);
    NullVector(Residual(u, v));
  }

  /** Parallel segments: both conditions on the interior of the square say the same thing. */
  lemma Parallel(u: Vec3, v: Vec3, w: Vec3)
    ensures Dot(u, u) * Dot(v, v) - Dot(u, v) * Dot(u, v) == 0.0
            ==> Dot(v, v) * Dot(u, w) == Dot(u, v) * Dot(v, w)
  {
    if Dot(u, u) * Dot(v, v) - Dot(u, v) * Dot(u, v) == 0.0 {
      NullResidualIsNull(u, v);
      NullCombination(u, v, w, Dot(v, v), Dot(u, v));
    }
  }

  // The scalar core: each branch of the routine satisfies the first-order conditions.
  // `gs = dd + s*aa - t*bb` and `gt = ee + s*bb - t*cc`.

  /** Second fraction pinned to 0 while the unpinned solution has the first at 0. */
  lemma PinnedLowFromLow(aa: real, bb: real, cc: real, dd: real, ee: real, s: real)
    requires aa > 0.0 && cc > 0.0 && aa * cc - bb * bb >= 0.0
    requires bb * ee <= cc * dd && ee < 0.0
    requires 0.0 <= s && (s > 0.0 ==> s * aa <= -dd)
    ensures ee + s * bb <= 0.0
  {}

  /** Second fraction pinned to 0 while the unpinned solution (s0, t0) has s0 in [0, 1]. */
  lemma PinnedLowFromInterior(aa: real, bb: real, cc: real, dd: real, ee: real, s0: real, t0: real, s: real)
    requires aa > 0.0 && aa * cc - bb * bb >= 0.0
    requires dd + s0 * aa - t0 * bb == 0.0 && ee + s0 * bb - t0 * cc == 0.0
    requires Fraction(s0) && t0 < 0.0 && Fraction(s)
    requires (s > 0.0 ==> s * aa <= -dd) && (s < 1.0 ==> s * aa >= -dd)
    ensures ee + s * bb <= 0.0
  {}

  /** The first-order conditions in those scalars. */
  predicate Solved(aa: real, bb: real, cc: real, dd: real, ee: real, s: real, t: real)
  {
    Fraction(s) && Fraction(t) && Stationary(s, t, dd + s * aa - t * bb, ee + s * bb - t * cc)
  }

  /** `s` is `numerator / aa` clipped to [0, 1]. */
  predicate Resolved(s: real, numerator: real, aa: real)
  {
    Fraction(s) && (s > 0.0 ==> s * aa <= numerator) && (s < 1.0 ==> s * aa >= numerator)
  }

  /** What the second half of the routine leaves, given the unpinned second numerator `n` over `d`. */
  predicate Pinned(aa: real, bb: real, dd: real, s0: real, n: real, d: real, s: real, t: real)
  {
    || (0.0 <= n <= d && s == s0 && t * d == n)
    || (n < 0.0 && t == 0.0 && Resolved(s, -dd, aa))
    || (n > d && t == 1.0 && Resolved(s, -dd + bb, aa))
  }

  lemma FractionOf(t: real, n: real, d: real)
    requires 0.0 <= n <= d && 0.0 < d && t * d == n
    ensures Fraction(t)
  {}

  lemma LowRegion(aa: real, bb: real, cc: real, dd: real, ee: real, s: real, t: real)
    requires aa > 0.0 && cc > 0.0 && Cross(aa, bb, cc, dd, ee).den >= 0.0 && Cross(aa, bb, cc, dd, ee).sn <= 0.0
    requires Pinned(aa, bb, dd, 0.0, ee, cc, s, t)
    ensures Solved(aa, bb, cc, dd, ee, s, t)
  {
    if 0.0 <= ee <= cc {
      LowMiddle(bb, cc, dd, ee, t);
    } else if ee < 0.0 {
      PinnedLowFromLow(aa, bb, cc, dd, ee, s);
    } else {
      PinnedHighFromLow(aa, bb, cc, dd, ee, s);
    }
    hide Cross;
  }

  lemma LowMiddle(bb: real, cc: real, dd: real, ee: real, t: real)
    requires cc > 0.0 && bb * ee <= cc * dd && 0.0 <= ee <= cc && t * cc == ee
    ensures Fraction(t) && dd - t * bb >= 0.0
  {
    FractionOf(t, ee, cc);
    assert cc * (dd - t * bb) == cc * dd - bb * (t * cc);
    SignOfFactor(cc, dd - t * bb);
  }

  /** `PinnedLowFromLow` for the second segment reversed. */
  lemma PinnedHighFromLow(aa: real, bb: real, cc: real, dd: real, ee: real, s: real)
    requires aa > 0.0 && cc > 0.0 && aa * cc - bb * bb >= 0.0
    requires bb * ee <= cc * dd && ee > cc
    requires 0.0 <= s && (s > 0.0 ==> s * aa <= -dd + bb)
    ensures ee + s * bb - cc >= 0.0
  {
    var nb := -bb;
    assert nb * nb == bb * bb && nb * (cc - ee) == bb * ee - bb * cc && s * nb == -(s * bb);
    PinnedLowFromLow(aa, nb, cc, dd - bb, cc - ee, s);
  }

  /** Reversing the first segment exchanges the two ends of the first fraction. */
  lemma MirrorFirst(aa: real, bb: real, cc: real, dd: real, ee: real, s: real, t: real)
    requires Solved(aa, -bb, cc, -(dd + aa), ee + bb, 1.0 - s, t)
    ensures Solved(aa, bb, cc, dd, ee, s, t)
  {}

  lemma MirroredMinors(aa: real, bb: real, cc: real, dd: real, ee: real)
    ensures var k, m := Cross(aa, bb, cc, dd, ee), Cross(aa, -bb, cc, -(dd + aa), ee + bb);
            m.den == k.den && m.sn == k.den - k.sn
  {}

  lemma MirroredPin(aa: real, bb: real, dd: real, n: real, d: real, s: real, t: real)
    requires Pinned(aa, bb, dd, 1.0, n, d, s, t)
    ensures Pinned(aa, -bb, -(dd + aa), 0.0, n, d, 1.0 - s, t)
  {
    assert (1.0 - s) * aa == aa - s * aa;
  }

  lemma HighRegion(aa: real, bb: real, cc: real, dd: real, ee: real, s: real, t: real)
    requires aa > 0.0 && cc > 0.0 && 0.0 <= Cross(aa, bb, cc, dd, ee).den <= Cross(aa, bb, cc, dd, ee).sn
    requires Pinned(aa, bb, dd, 1.0, ee + bb, cc, s, t)
    ensures Solved(aa, bb, cc, dd, ee, s, t)
  {
    hide Cross, Pinned, Solved;
    MirroredMinors(aa, bb, cc, dd, ee);
    MirroredPin(aa, bb, dd, ee + bb, cc, s, t);
    LowRegion(aa, -bb, cc, -(dd + aa), ee + bb, 1.0 - s, t);
    MirrorFirst(aa, bb, cc, dd, ee, s, t);
  }

  lemma InteriorRegion(aa: real, bb: real, cc: real, dd: real, ee: real, s0: real, t0: real, s: real, t: real)
    requires aa > 0.0 && cc > 0.0 && aa * cc - bb * bb > 0.0 && Fraction(s0)
    requires dd + s0 * aa - t0 * bb == 0.0 && ee + s0 * bb - t0 * cc == 0.0
    requires Pinned(aa, bb, dd, s0, t0, 1.0, s, t)
    ensures Solved(aa, bb, cc, dd, ee, s, t)
  {
    if t0 < 0.0 {
      PinnedLowFromInterior(aa, bb, cc, dd, ee, s0, t0, s);
    } else if t0 > 1.0 {
      assert aa * cc - (-bb) * (-bb) == aa * cc - bb * bb;
      assert (dd - bb) + s0 * aa - (1.0 - t0) * (-bb) == 0.0;
      assert (cc - ee) + s0 * (-bb) - (1.0 - t0) * cc == 0.0;
      PinnedLowFromInterior(aa, -bb, cc, dd - bb, cc - ee, s0, 1.0 - t0, s);
      assert s * (-bb) == -(s * bb);
    }
  }

  /** The unconstrained solution zeroes both gradients. */
  lemma Cramer(aa: real, bb: real, cc: real, dd: real, ee: real, den: real, s0: real, t0: real)
    requires den == aa * cc - bb * bb && den > 0.0
    requires s0 * den == bb * ee - cc * dd && t0 * den == aa * ee - bb * dd
    ensures dd + s0 * aa - t0 * bb == 0.0 && ee + s0 * bb - t0 * cc == 0.0
  {}

  /** An epsilon guard never fires on `x` unless `x` is exactly zero. */
  predicate Clear(x: real, epsilon: real) { x == 0.0 || x > epsilon || x < -epsilon }

  /** No guard of the routine replaces a non-zero quantity by zero. */
  predicate NoSnap(aa: real, bb: real, cc: real, dd: real, ee: real, epsilon: real)
  {
    var k := Cross(aa, bb, cc, dd, ee);
    && epsilon < 1.0 && Clear(k.den, epsilon)
    && Clear(k.sn, epsilon) && Clear(-dd, epsilon) && Clear(-dd + bb, epsilon)
    && Clear(k.tn, epsilon) && Clear(ee, epsilon) && Clear(ee + bb, epsilon)
  }

  lemma ExactQuotient(n: real, d: real, epsilon: real)
    requires 0.0 <= epsilon && d > 0.0 && Clear(n, epsilon)
    ensures Quotient(n, d, epsilon) * d == n
  {}

  lemma UnitQuotient(d: real, epsilon: real)
    requires 0.0 <= epsilon < d
    ensures Quotient(d, d, epsilon) == 1.0
  {
    var x := Quotient(d, d, epsilon);
    assert (x - 1.0) * d == 0.0;
    SignOfFactor(d, x - 1.0);
    SignOfFactor(d, 1.0 - x);
  }

  lemma RepinResolves(r: Ratios, numerator: real, aa: real, tn: real, epsilon: real)
    requires 0.0 <= epsilon < aa && r.sd > epsilon && Clear(numerator, epsilon)
    ensures var r' := Repin(r, numerator, aa, tn);
            && r'.tn == tn && r'.td == r.td && r'.sd > 0.0
            && Resolved(Quotient(r'.sn, r'.sd, epsilon), numerator, aa)
  {
    if numerator < 0.0 {
    } else if numerator > aa {
      UnitQuotient(r.sd, epsilon);
    } else {
      QuotientWithin(numerator, aa, epsilon);
      ExactQuotient(numerator, aa, epsilon);
    }
  }

  /** What `NoSnap` says about the numbers the first half of the routine hands on. */
  lemma UnconstrainedClear(aa: real, bb: real, cc: real, dd: real, ee: real, epsilon: real)
    requires 0.0 <= epsilon < cc && NoSnap(aa, bb, cc, dd, ee, epsilon)
    ensures var u := Unconstrained(aa, bb, cc, dd, ee, epsilon);
            u.sd > epsilon && u.td > epsilon && Clear(u.tn, epsilon)
  {}

  /** The second half of the routine pins the fractions as `Pinned` says. */
  lemma RepinPins(u: Ratios, aa: real, bb: real, dd: real, epsilon: real, r: Ratios)
    requires 0.0 <= epsilon < aa && u.sd > epsilon && u.td > epsilon
    requires Clear(u.tn, epsilon) && Clear(-dd, epsilon) && Clear(-dd + bb, epsilon)
    requires r == if u.tn < 0.0 then Repin(u, -dd, aa, 0.0)
                  else if u.tn > u.td then Repin(u, -dd + bb, aa, u.td) else u
    ensures r.sd > 0.0 && r.td > 0.0
    ensures Pinned(aa, bb, dd, Quotient(u.sn, u.sd, epsilon), u.tn, u.td,
                   Quotient(r.sn, r.sd, epsilon), Quotient(r.tn, r.td, epsilon))
  {
    hide Repin, Resolved;
    if u.tn < 0.0 {
      RepinResolves(u, -dd, aa, 0.0, epsilon);
    } else if u.tn > u.td {
      RepinResolves(u, -dd + bb, aa, u.td, epsilon);
      UnitQuotient(u.td, epsilon);
    } else {
      ExactQuotient(u.tn, u.td, epsilon);
    }
  }

  lemma InteriorSolves(aa: real, bb: real, cc: real, dd: real, ee: real, s0: real, t0: real, s: real, t: real)
    requires var k := Cross(aa, bb, cc, dd, ee);
             aa > 0.0 && cc > 0.0 && k.den > 0.0 && s0 * k.den == k.sn && t0 * k.den == k.tn
    requires Fraction(s0)
    requires Pinned(aa, bb, dd, s0, t0, 1.0, s, t)
    ensures Solved(aa, bb, cc, dd, ee, s, t)
  {
    hide Pinned, Solved;
    Cramer(aa, bb, cc, dd, ee, aa * cc - bb * bb, s0, t0);
    InteriorRegion(aa, bb, cc, dd, ee, s0, t0, s, t);
  }

  /** Every branch of the routine ends in a point satisfying the first-order conditions. */
  lemma ConstrainedSolves(aa: real, bb: real, cc: real, dd: real, ee: real, epsilon: real)
    requires 0.0 <= epsilon < aa && epsilon < cc && Cross(aa, bb, cc, dd, ee).den >= 0.0
    requires Cross(aa, bb, cc, dd, ee).den == 0.0 ==> Cross(aa, bb, cc, dd, ee).sn == 0.0
    requires NoSnap(aa, bb, cc, dd, ee, epsilon)
    ensures var r := Constrained(aa, bb, cc, dd, ee, epsilon);
            && r.sd > 0.0 && r.td > 0.0
            && Solved(aa, bb, cc, dd, ee, Quotient(r.sn, r.sd, epsilon), Quotient(r.tn, r.td, epsilon))
  {
    var u := Unconstrained(aa, bb, cc, dd, ee, epsilon);
    var r := Constrained(aa, bb, cc, dd, ee, epsilon);
    UnconstrainedClear(aa, bb, cc, dd, ee, epsilon);
    RepinPins(u, aa, bb, dd, epsilon, r);
    RegionSolves(aa, bb, cc, dd, ee, epsilon, u, Quotient(u.sn, u.sd, epsilon),
                 Quotient(r.sn, r.sd, epsilon), Quotient(r.tn, r.td, epsilon));
  }

  lemma RegionSolves(aa: real, bb: real, cc: real, dd: real, ee: real, epsilon: real, u: Ratios,
                     s0: real, s: real, t: real)
    requires 0.0 <= epsilon < aa && epsilon < cc && Cross(aa, bb, cc, dd, ee).den >= 0.0
    requires Cross(aa, bb, cc, dd, ee).den == 0.0 ==> Cross(aa, bb, cc, dd, ee).sn == 0.0
    requires NoSnap(aa, bb, cc, dd, ee, epsilon)
    requires u == Unconstrained(aa, bb, cc, dd, ee, epsilon) && u.sd > 0.0 && s0 == Quotient(u.sn, u.sd, epsilon)
    requires Pinned(aa, bb, dd, s0, u.tn, u.td, s, t)
    ensures Solved(aa, bb, cc, dd, ee, s, t)
  {
    hide Solved, Pinned, Quotient, Cross;
    var k := Cross(aa, bb, cc, dd, ee);
    if k.den <= epsilon || k.sn < 0.0 {
      ZeroQuotient(u.sd, epsilon);
      LowRegion(aa, bb, cc, dd, ee, s, t);
    } else if k.sn > k.den {
      UnitQuotient(k.den, epsilon);
      HighRegion(aa, bb, cc, dd, ee, s, t);
    } else {
      ExactQuotient(k.sn, k.den, epsilon);
      var t0 := InteriorQuotients(aa, bb, dd, k.sn, k.tn, k.den, s0, s, t);
      InteriorSolves(aa, bb, cc, dd, ee, s0, t0, s, t);
    }
  }

  lemma ZeroQuotient(d: real, epsilon: real)
    requires 0.0 <= epsilon && d > 0.0
    ensures Quotient(0.0, d, epsilon) == 0.0
  {}

  lemma InteriorQuotients(aa: real, bb: real, dd: real, sn: real, tn: real, den: real, s0: real, s: real, t: real)
    returns (t0: real)
    requires 0.0 <= sn <= den && den > 0.0 && s0 * den == sn
    requires Pinned(aa, bb, dd, s0, tn, den, s, t)
    ensures Fraction(s0) && t0 * den == tn && Pinned(aa, bb, dd, s0, t0, 1.0, s, t)
  {
    FractionOf(s0, sn, den);
    t0 := tn / den;
    PinnedByQuotient(aa, bb, dd, s0, tn, den, t0, s, t);
  }

  /** Dividing the second numerator through by its denominator changes no branch. */
  lemma PinnedByQuotient(aa: real, bb: real, dd: real, s0: real, n: real, d: real, q: real, s: real, t: real)
    requires d > 0.0 && q * d == n && Pinned(aa, bb, dd, s0, n, d, s, t)
    ensures Pinned(aa, bb, dd, s0, q, 1.0, s, t)
  {
    if q > 0.0 { Positive(q, d, n); }
    if q < 0.0 { Positive(-q, d, -n); }
    if q > 1.0 { Positive(q - 1.0, d, n - d); }
    if q < 1.0 { Positive(1.0 - q, d, d - n); }
    if 0.0 <= n <= d {
      assert (t - q) * d == 0.0;
      SignOfFactor(d, t - q); SignOfFactor(d, q - t);
    }
  }

  // ----- the theorems

  /** What a caller can test to know that no epsilon guard replaces a non-zero quantity. */
  ghost predicate Exact(p0: Vec3, p1: Vec3, q0: Vec3, q1: Vec3, epsilon: real)
  {
    var u, v, w := Sub(p1, p0), Sub(q1, q0), Sub(p0, q0);
    && Clear(Dot(u, u), epsilon) && Clear(Dot(v, v), epsilon)
    && (Dot(u, u) > epsilon && Dot(v, v) > epsilon
        ==> NoSnap(Dot(u, u), Dot(u, v), Dot(v, v), Dot(u, w), Dot(v, w), epsilon))
  }

  lemma ClipResolves(n: real, d: real)
    requires d > 0.0
    ensures Resolved(Clip(n / d), n, d)
  {}

  lemma NullDirection(u: Vec3, x: Vec3, epsilon: real)
    requires 0.0 <= epsilon && Dot(u, u) <= epsilon && Clear(Dot(u, u), epsilon)
    ensures Dot(u, x) == 0.0
  {
    SqNormNonNegative(u);
    NullVector(u);
  }

  lemma DotCommutes(a: Vec3, b: Vec3)
    ensures Dot(a, b) == Dot(b, a)
  {}

  lemma NegatedDot(a: Vec3, b: Vec3, d: Vec3)
    ensures Dot(Sub(b, a), d) == -Dot(d, Sub(a, b)) && Dot(Sub(a, b), d) == Dot(d, Sub(a, b))
  {}

  lemma PointSolved(cc: real, ee: real, t: real)
    requires Resolved(t, ee, cc)
    ensures Solved(0.0, 0.0, cc, 0.0, ee, 0.0, t) && Solved(cc, 0.0, 0.0, -ee, 0.0, t, 0.0)
  {}

  lemma DegenerateFirst(p0: Vec3, p1: Vec3, q0: Vec3, q1: Vec3, epsilon: real, pointEpsilon: real)
    requires 0.0 <= pointEpsilon <= epsilon
    requires var u, v := Sub(p1, p0), Sub(q1, q0);
             Dot(u, u) <= epsilon && Clear(Dot(u, u), epsilon) && Clear(Dot(v, v), epsilon)
    ensures var f := ClosestFractions(p0, p1, q0, q1, epsilon, pointEpsilon);
            var x := Sub(Along(p0, p1, f.0), Along(q0, q1, f.1));
            Stationary(f.0, f.1, Dot(Sub(p1, p0), x), Dot(Sub(q1, q0), x))
  {
    hide Dot, Along, Stationary, Solved;
    var u, v, w := Sub(p1, p0), Sub(q1, q0), Sub(p0, q0);
    var f := ClosestFractions(p0, p1, q0, q1, epsilon, pointEpsilon);
    NullDirection(u, w, epsilon);
    NullDirection(u, v, epsilon);
    NullDirection(u, u, epsilon);
    if Dot(v, v) <= epsilon {
      NullDirection(v, w, epsilon);
      NullDirection(v, v, epsilon);
    } else {
      NegatedDot(p0, q0, v);
      ClipResolves(Dot(v, w), Dot(v, v));
    }
    PointSolved(Dot(v, v), Dot(v, w), f.1);
    SolvedIsStationary(p0, p1, q0, q1, f.0, f.1);
  }

  lemma DegenerateSecond(p0: Vec3, p1: Vec3, q0: Vec3, q1: Vec3, epsilon: real, pointEpsilon: real)
    requires 0.0 <= pointEpsilon <= epsilon
    requires var u, v := Sub(p1, p0), Sub(q1, q0);
             Dot(u, u) > epsilon && Dot(v, v) <= epsilon && Clear(Dot(v, v), epsilon)
    ensures var f := ClosestFractions(p0, p1, q0, q1, epsilon, pointEpsilon);
            var x := Sub(Along(p0, p1, f.0), Along(q0, q1, f.1));
            Stationary(f.0, f.1, Dot(Sub(p1, p0), x), Dot(Sub(q1, q0), x))
  {
    hide Dot, Along, Stationary, Solved;
    var u, v, w := Sub(p1, p0), Sub(q1, q0), Sub(p0, q0);
    var f := ClosestFractions(p0, p1, q0, q1, epsilon, pointEpsilon);
    NullDirection(v, w, epsilon);
    NullDirection(v, u, epsilon);
    NullDirection(v, v, epsilon);
    DotCommutes(u, v);
    NegatedDot(p0, q0, u);
    ClipResolves(-Dot(u, w), Dot(u, u));
    PointSolved(Dot(u, u), -Dot(u, w), f.0);
    SolvedIsStationary(p0, p1, q0, q1, f.0, f.1);
  }

  lemma ScalarFacts(u: Vec3, v: Vec3, w: Vec3)
    requires Dot(v, v) > 0.0
    ensures var k := Cross(Dot(u, u), Dot(u, v), Dot(v, v), Dot(u, w), Dot(v, w));
            k.den >= 0.0 && (k.den == 0.0 ==> k.sn == 0.0)
  {
    CauchySchwarz(u, v);
    Parallel(u, v, w);
    hide Dot;
  }

  lemma RegularSolved(u: Vec3, v: Vec3, w: Vec3, epsilon: real)
    requires 0.0 <= epsilon && Dot(u, u) > epsilon && Dot(v, v) > epsilon
    requires NoSnap(Dot(u, u), Dot(u, v), Dot(v, v), Dot(u, w), Dot(v, w), epsilon)
    ensures var r := Constrained(Dot(u, u), Dot(u, v), Dot(v, v), Dot(u, w), Dot(v, w), epsilon);
            && r.sd > 0.0 && r.td > 0.0
            && Solved(Dot(u, u), Dot(u, v), Dot(v, v), Dot(u, w), Dot(v, w),
                      Quotient(r.sn, r.sd, epsilon), Quotient(r.tn, r.td, epsilon))
  {
    hide Dot, Constrained, Quotient, Solved, NoSnap, Cross;
    ScalarFacts(u, v, w);
    ConstrainedSolves(Dot(u, u), Dot(u, v), Dot(v, v), Dot(u, w), Dot(v, w), epsilon);
  }

  lemma SolvedIsStationary(p0: Vec3, p1: Vec3, q0: Vec3, q1: Vec3, s: real, t: real)
    requires var u, v, w := Sub(p1, p0), Sub(q1, q0), Sub(p0, q0);
             Solved(Dot(u, u), Dot(u, v), Dot(v, v), Dot(u, w), Dot(v, w), s, t)
    ensures var x := Sub(Along(p0, p1, s), Along(q0, q1, t));
            Stationary(s, t, Dot(Sub(p1, p0), x), Dot(Sub(q1, q0), x))
  {
    hide Dot, Along;
    Gradient(p0, p1, q0, q1, s, t);
  }

  lemma RegularPair(p0: Vec3, p1: Vec3, q0: Vec3, q1: Vec3, epsilon: real, pointEpsilon: real)
    requires 0.0 <= pointEpsilon <= epsilon
    requires var u, v, w := Sub(p1, p0), Sub(q1, q0), Sub(p0, q0);
             && Dot(u, u) > epsilon && Dot(v, v) > epsilon
             && NoSnap(Dot(u, u), Dot(u, v), Dot(v, v), Dot(u, w), Dot(v, w), epsilon)
    ensures var f := ClosestFractions(p0, p1, q0, q1, epsilon, pointEpsilon);
            var x := Sub(Along(p0, p1, f.0), Along(q0, q1, f.1));
            Stationary(f.0, f.1, Dot(Sub(p1, p0), x), Dot(Sub(q1, q0), x))
  {
    var u, v, w := Sub(p1, p0), Sub(q1, q0), Sub(p0, q0);
    var f := ClosestFractions(p0, p1, q0, q1, epsilon, pointEpsilon);
    hide Dot, Constrained, Quotient, NoSnap, Solved, Along, Stationary, Cross;
    RegularSolved(u, v, w, epsilon);
    SolvedIsStationary(p0, p1, q0, q1, f.0, f.1);
  }

  lemma FractionsAreStationary(p0: Vec3, p1: Vec3, q0: Vec3, q1: Vec3, epsilon: real, pointEpsilon: real)
    requires 0.0 <= pointEpsilon <= epsilon && Exact(p0, p1, q0, q1, epsilon)
    ensures var f := ClosestFractions(p0, p1, q0, q1, epsilon, pointEpsilon);
            var x := Sub(Along(p0, p1, f.0), Along(q0, q1, f.1));
            Stationary(f.0, f.1, Dot(Sub(p1, p0), x), Dot(Sub(q1, q0), x))
  {
    if Dot(Sub(p1, p0), Sub(p1, p0)) <= epsilon {
      DegenerateFirst(p0, p1, q0, q1, epsilon, pointEpsilon);
    } else if Dot(Sub(q1, q0), Sub(q1, q0)) <= epsilon {
      DegenerateSecond(p0, p1, q0, q1, epsilon, pointEpsilon);
    } else {
      RegularPair(p0, p1, q0, q1, epsilon, pointEpsilon);
    }
  }

  /** Main theorem: where no guard snaps, the routine returns the least distance, and attains it. */
  lemma SegmentGapIsLeast(p0: Vec3, p1: Vec3, q0: Vec3, q1: Vec3, epsilon: real, pointEpsilon: real)
    requires 0.0 <= pointEpsilon <= epsilon && Exact(p0, p1, q0, q1, epsilon)
    ensures IsLeastGap(SegmentGap(p0, p1, q0, q1, epsilon, pointEpsilon), p0, p1, q0, q1)
  {
    var f := ClosestFractions(p0, p1, q0, q1, epsilon, pointEpsilon);
    var d := SegmentGap(p0, p1, q0, q1, epsilon, pointEpsilon);
    FractionsAreStationary(p0, p1, q0, q1, epsilon, pointEpsilon);
    assert Fraction(f.0) && Fraction(f.1) && d == Gap(p0, p1, q0, q1, f.0, f.1);
    forall s, t | Fraction(s) && Fraction(t) ensures d <= Gap(p0, p1, q0, q1, s, t) {
      StationaryIsLeast(p0, p1, q0, q1, f.0, f.1, s, t);
    }
  }

  /** With the epsilons read as exact zero the theorem holds for all segments. */
  lemma ExactSegmentGapIsLeast(p0: Vec3, p1: Vec3, q0: Vec3, q1: Vec3)
    ensures IsLeastGap(SegmentGap(p0, p1, q0, q1, 0.0, 0.0), p0, p1, q0, q1)
  {
    SegmentGapIsLeast(p0, p1, q0, q1, 0.0, 0.0);
  }

  lemma GapSymmetries(p0: Vec3, p1: Vec3, q0: Vec3, q1: Vec3, s: real, t: real)
    ensures Gap(p0, p1, q0, q1, s, t) == Gap(q0, q1, p0, p1, t, s)
    ensures Gap(p0, p1, q0, q1, s, t) == Gap(p1, p0, q0, q1, 1.0 - s, t)
  {
    var a, b := Along(p0, p1, s), Along(q0, q1, t);
    assert Sub(a, b) == Scale(-1.0, Sub(b, a));
    DotScale(-1.0, Sub(b, a), Sub(a, b));
    DotScale(-1.0, Sub(b, a), Sub(b, a));
    Linear(s, 1.0, p1.x - p0.x); Linear(s, 1.0, p1.y - p0.y); Linear(s, 1.0, p1.z - p0.z);
    assert Along(p1, p0, 1.0 - s) == a;
  }

  /** The branches treat the two segments, and the ends of each, quite differently; the result does not. */
  lemma SegmentGapSymmetric(p0: Vec3, p1: Vec3, q0: Vec3, q1: Vec3)
    ensures SegmentGap(p0, p1, q0, q1, 0.0, 0.0) == SegmentGap(q0, q1, p0, p1, 0.0, 0.0)
    ensures SegmentGap(p0, p1, q0, q1, 0.0, 0.0) == SegmentGap(p1, p0, q0, q1, 0.0, 0.0)
  {
    var d, e, g := SegmentGap(p0, p1, q0, q1, 0.0, 0.0), SegmentGap(q0, q1, p0, p1, 0.0, 0.0),
                   SegmentGap(p1, p0, q0, q1, 0.0, 0.0);
    var f, h, k := ClosestFractions(p0, p1, q0, q1, 0.0, 0.0), ClosestFractions(q0, q1, p0, p1, 0.0, 0.0),
                   ClosestFractions(p1, p0, q0, q1, 0.0, 0.0);
    ExactSegmentGapIsLeast(p0, p1, q0, q1);
    ExactSegmentGapIsLeast(q0, q1, p0, p1);
    ExactSegmentGapIsLeast(p1, p0, q0, q1);
    GapSymmetries(p0, p1, q0, q1, f.0, f.1);
    GapSymmetries(p0, p1, q0, q1, h.1, h.0);
    GapSymmetries(p1, p0, q0, q1, k.0, k.1);
    assert e <= Gap(q0, q1, p0, p1, f.1, f.0);
    assert d <= Gap(p0, p1, q0, q1, h.1, h.0);
    assert g <= Gap(p1, p0, q0, q1, 1.0 - f.0, f.1);
    assert d <= Gap(p0, p1, q0, q1, 1.0 - k.0, k.1);
  }

  lemma AlongEnds(a: Vec3, b: Vec3)
    ensures Along(a, b, 0.0) == a && Along(a, b, 1.0) == b
  {}

  lemma AxisNorm(ell: real)
    ensures SqNorm(Vec3(ell, 0.0, 0.0)) == ell * ell && SqNorm(Vec3(-ell, 0.0, 0.0)) == ell * ell
    ensures SqNorm(Vec3(0.0, 0.0, 0.0)) == 0.0
  {}

  lemma SnappedGap(p0: Vec3, p1: Vec3, q: Vec3, epsilon: real, pointEpsilon: real)
    requires 0.0 <= pointEpsilon <= epsilon
    requires Dot(Sub(p1, p0), Sub(p1, p0)) <= epsilon && Dot(Sub(q, q), Sub(q, q)) <= epsilon
    ensures SegmentGap(p0, p1, q, q, epsilon, pointEpsilon) == Gap(p0, p1, q, q, 0.0, 0.0)
  {
    hide Dot, Gap;
  }

  lemma AxisGaps(p0: Vec3, p1: Vec3, ell: real)
    requires p0 == Vec3(0.0, 0.0, 0.0) && p1 == Vec3(ell, 0.0, 0.0)
    ensures Gap(p0, p1, p1, p1, 0.0, 0.0) == ell * ell && Gap(p0, p1, p1, p1, 1.0, 0.0) == 0.0
  {
    AlongEnds(p0, p1);
    AlongEnds(p1, p1);
    AxisNorm(ell);
    hide Along, SqNorm;
    assert Sub(p0, p1) == Vec3(-ell, 0.0, 0.0) && Sub(p1, p1) == p0;
  }

  /** The epsilons do matter: a segment no longer than the square root of epsilon counts as its first
      end, so a point touching its other end is reported at distance `ell`, not 0. */
  lemma SnappedSegmentMisses(ell: real, epsilon: real, pointEpsilon: real)
    requires 0.0 <= pointEpsilon <= epsilon && ell > 0.0 && ell * ell <= epsilon
    ensures var p0, p1 := Vec3(0.0, 0.0, 0.0), Vec3(ell, 0.0, 0.0);
            !IsLeastGap(SegmentGap(p0, p1, p1, p1, epsilon, pointEpsilon), p0, p1, p1, p1)
  {
    hide Dot, Gap, SegmentGap;
    var p0, p1 := Vec3(0.0, 0.0, 0.0), Vec3(ell, 0.0, 0.0);
    var m := ell * ell;
    Positive(ell, ell, m);
    AxisNorm(ell);
    AxisGaps(p0, p1, ell);
    assert Sub(p1, p0) == p1 && Sub(p1, p1) == p0;
    SnappedGap(p0, p1, p1, epsilon, pointEpsilon);
    NotLeast(m, p0, p1, p1, p1, 1.0, 0.0);
  }

  lemma NotLeast(d: real, p0: Vec3, p1: Vec3, q0: Vec3, q1: Vec3, s: real, t: real)
    requires Fraction(s) && Fraction(t) && Gap(p0, p1, q0, q1, s, t) < d
    ensures !IsLeastGap(d, p0, p1, q0, q1)
  {
    hide Gap;
  }
}
