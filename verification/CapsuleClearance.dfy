/** What the guard's margin says about the capsules themselves: all points of the one against all of the other. */
module CapsuleClearance {
  import opened RealProducts
  import opened SegmentDistance
  import opened SegmentGuards
  import opened StepGuard

  /** The point is within the radius of some point of the axis. */
  ghost predicate InCapsule(p: Vec3, c: Capsule)
  {
    exists s :: Fraction(s) && NearAxis(p, c, s)
  }

  predicate NearAxis(p: Vec3, c: Capsule, s: real)
  {
    SqNorm(Sub(p, Along(c.start, c.end, s))) <= c.radius * c.radius
  }

  /** Every point of the one capsule is farther than `clearance` from every point of the other. */
  ghost predicate CapsulesApart(a: Capsule, b: Capsule, clearance: real)
  {
    forall p, q :: InCapsule(p, a) && InCapsule(q, b) ==> SqNorm(Sub(p, q)) > clearance * clearance
  }

  predicate Sized(a: Capsule, b: Capsule, clearance: real) { a.radius >= 0.0 && b.radius >= 0.0 && clearance >= 0.0 }

  // ----- the triangle inequality

  lemma DotBound(u: Vec3, v: Vec3, m: real, n: real)
    requires m >= 0.0 && n >= 0.0 && SqNorm(u) <= m * m && SqNorm(v) <= n * n
    ensures Dot(u, v) <= m * n
  {
    SqNormNonNegative(u);
    SqNormNonNegative(v);
    if SqNorm(v) > 0.0 {
      CauchySchwarz(u, v);
      hide Dot;
      ProductBound(Dot(u, v), SqNorm(u), SqNorm(v), m, n);
    } else {
      NullVector(v);
      NotNegative(m, n, m * n);
    }
  }

  /** `d * d <= x * y` with `x` and `y` within two squares. */
  lemma ProductBound(d: real, x: real, y: real, m: real, n: real)
    requires m >= 0.0 && n >= 0.0 && 0.0 <= x <= m * m && 0.0 <= y <= n * n && x * y - d * d >= 0.0
    ensures d <= m * n
  {
    var p := m * n;
    NotNegative(m, n, p);
    NotNegative(m * m - x, y, (m * m - x) * y);
    NotNegative(m * m, n * n - y, m * m * (n * n - y));
    assert p * p == m * m * (n * n);
    assert p * p - d * d >= 0.0;
    if d > p { Positive(d - p, d + p, (d - p) * (d + p)); }
  }

  lemma Triangle(u: Vec3, v: Vec3, m: real, n: real)
    requires m >= 0.0 && n >= 0.0 && SqNorm(u) <= m * m && SqNorm(v) <= n * n
    ensures SqNorm(Add(u, v)) <= (m + n) * (m + n)
  {
    SquareOfSum(u, v);
    DotBound(u, v, m, n);
    hide Dot, SqNorm;
    SumSquared(m, n);
  }

  lemma SumSquared(m: real, n: real)
    ensures (m + n) * (m + n) == m * m + 2.0 * (m * n) + n * n
  {}

  lemma SameLength(u: Vec3, v: Vec3)
    ensures SqNorm(Sub(u, v)) == SqNorm(Sub(v, u))
  {}

  lemma ThroughTheMiddle(p: Vec3, q: Vec3, x: Vec3, y: Vec3)
    ensures Sub(x, y) == Add(Add(Sub(p, q), Sub(x, p)), Sub(q, y))
  {}

  /** Points of the capsules within `clearance` of each other have axis points within the threshold. */
  lemma AxesAreNear(a: Capsule, b: Capsule, clearance: real, p: Vec3, q: Vec3, s: real, t: real)
    requires Sized(a, b, clearance) && NearAxis(p, a, s) && NearAxis(q, b, t)
    requires SqNorm(Sub(p, q)) <= clearance * clearance
    ensures var h := a.radius + b.radius + clearance; Gap(a.start, a.end, b.start, b.end, s, t) <= h * h
  {
    var x, y := Along(a.start, a.end, s), Along(b.start, b.end, t);
    SameLength(p, x);
    ThroughTheMiddle(p, q, x, y);
    hide SqNorm, Add, Sub, Along;
    Triangle(Sub(p, q), Sub(x, p), clearance, a.radius);
    Triangle(Add(Sub(p, q), Sub(x, p)), Sub(q, y), clearance + a.radius, b.radius);
    assert clearance + a.radius + b.radius == a.radius + b.radius + clearance;
  }

  // ----- points on the way from one axis to the other

  lemma ScaledNorm(k: real, d: Vec3)
    ensures SqNorm(Scale(k, d)) == k * k * SqNorm(d)
  {
    DotScale(k, d, d);
    DotScale(k, d, Scale(k, d));
  }

  /** A part `r / h` of a vector no longer than `h` is no longer than `r`. */
  lemma PartIsShort(d: Vec3, h: real, r: real)
    requires h > 0.0 && r >= 0.0 && SqNorm(d) <= h * h
    ensures SqNorm(Scale(r / h, d)) <= r * r
  {
    var k := r / h;
    ScaledNorm(k, d);
    assert k * h == r;
    hide SqNorm;
    NotNegative(k * k, h * h - SqNorm(d), k * k * (h * h - SqNorm(d)));
    assert k * k * (h * h) == r * r;
  }

  /** The point a part `k` of the way from `x` along `d`. */
  lemma Offsets(x: Vec3, y: Vec3, k: real, m: real)
    ensures var d := Sub(x, y); var p, q := Sub(x, Scale(k, d)), Add(y, Scale(m, d));
            && SqNorm(Sub(p, x)) == SqNorm(Scale(k, d)) && Sub(q, y) == Scale(m, d)
            && Sub(p, q) == Scale(1.0 - k - m, d)
  {}

  /** Axis points within the threshold have points of the capsules within `clearance` of each other beside them. */
  lemma CapsulesAreNear(a: Capsule, b: Capsule, clearance: real, s: real, t: real) returns (p: Vec3, q: Vec3)
    requires Sized(a, b, clearance)
    requires var h := a.radius + b.radius + clearance; Gap(a.start, a.end, b.start, b.end, s, t) <= h * h
    ensures NearAxis(p, a, s) && NearAxis(q, b, t) && SqNorm(Sub(p, q)) <= clearance * clearance
  {
    var h := a.radius + b.radius + clearance;
    var x, y := Along(a.start, a.end, s), Along(b.start, b.end, t);
    hide SqNorm, Sub, Along;
    if h == 0.0 {
      p, q := x, y;
      NoLength(x);
      NoLength(y);
    } else {
      p, q := Between(x, y, a.radius, b.radius, clearance);
    }
  }

  lemma NoLength(x: Vec3)
    ensures SqNorm(Sub(x, x)) == 0.0
  {}

  /** Points beside `x` and `y` on the line between them. */
  lemma Between(x: Vec3, y: Vec3, ra: real, rb: real, c: real) returns (p: Vec3, q: Vec3)
    requires ra >= 0.0 && rb >= 0.0 && c >= 0.0 && ra + rb + c > 0.0
    requires var h := ra + rb + c; SqNorm(Sub(x, y)) <= h * h
    ensures SqNorm(Sub(p, x)) <= ra * ra && SqNorm(Sub(q, y)) <= rb * rb && SqNorm(Sub(p, q)) <= c * c
  {
    hide SqNorm, Sub, Add, Scale;
    var h, d := ra + rb + c, Sub(x, y);
    p, q := Sub(x, Scale(ra / h, d)), Add(y, Scale(rb / h, d));
    Offsets(x, y, ra / h, rb / h);
    Shares(ra, rb, c, h);
    PartIsShort(d, h, ra);
    PartIsShort(d, h, rb);
    PartIsShort(d, h, c);
  }

  lemma Shares(a: real, b: real, c: real, h: real)
    requires h > 0.0 && h == a + b + c
    ensures 1.0 - a / h - b / h == c / h
  {
    var x, y, z := a / h, b / h, c / h;
    assert x * h == a && y * h == b && z * h == c;
    var rest := 1.0 - x - y - z;
    assert rest * h == 0.0;
    if rest > 0.0 { Positive(rest, h, rest * h); }
    if rest < 0.0 { Positive(-rest, h, -(rest * h)); }
  }

  lemma NearIsNotApart(a: Capsule, b: Capsule, clearance: real, s: real, t: real)
    requires Sized(a, b, clearance) && Fraction(s) && Fraction(t)
    requires var h := a.radius + b.radius + clearance; Gap(a.start, a.end, b.start, b.end, s, t) <= h * h
    ensures !CapsulesApart(a, b, clearance)
  {
    hide Gap, SqNorm, Sub, NearAxis;
    var p, q := CapsulesAreNear(a, b, clearance, s, t);
    assert InCapsule(p, a) && InCapsule(q, b);
  }

  /** All points of the axes keep the threshold exactly if all points of the capsules keep the clearance. */
  lemma CapsulesApartIff(a: Capsule, b: Capsule, clearance: real)
    requires Sized(a, b, clearance)
    ensures CapsulesApart(a, b, clearance) <==> AxesApart(a, b, Threshold(a, b, clearance))
  {
    hide Gap, SqNorm, Sub, NearAxis;
    if AxesApart(a, b, Threshold(a, b, clearance)) {
      forall p, q | InCapsule(p, a) && InCapsule(q, b) ensures SqNorm(Sub(p, q)) > clearance * clearance {
        var s :| Fraction(s) && NearAxis(p, a, s);
        var t :| Fraction(t) && NearAxis(q, b, t);
        if SqNorm(Sub(p, q)) <= clearance * clearance { AxesAreNear(a, b, clearance, p, q, s, t); }
      }
    }
    if CapsulesApart(a, b, clearance) {
      var h := Threshold(a, b, clearance);
      forall s, t | Fraction(s) && Fraction(t) ensures Gap(a.start, a.end, b.start, b.end, s, t) > h * h {
        if Gap(a.start, a.end, b.start, b.end, s, t) <= h * h { NearIsNotApart(a, b, clearance, s, t); }
      }
    }
  }

  /** Where no epsilon guard of the distance routine does harm, a pair has a positive margin exactly if every point of
      the one capsule is farther than the clearance from every point of the other; and whatever the guards do, capsules
      that far apart have a positive margin. */
  lemma MarginSeparatesCapsules(a: Capsule, b: Capsule, clearance: real, root: real -> real)
    requires IsRoot(root) && Sized(a, b, clearance)
    ensures CapsulesApart(a, b, clearance) ==> PairMargin(a, b, clearance, root) > 0.0
    ensures Harmless(PairScalars(a, b), EPSILON) ==>
              (PairMargin(a, b, clearance, root) > 0.0 <==> CapsulesApart(a, b, clearance))
  {
    hide AxesApart, CapsulesApart, IsRoot, PairMargin, Harmless;
    assert Threshold(a, b, clearance) >= 0.0;
    CapsulesApartIff(a, b, clearance);
    if AxesApart(a, b, Threshold(a, b, clearance)) { ApartHasMargin(a, b, clearance, root); }
    MarginSeparatesAxes(a, b, root);
    if Harmless(PairScalars(a, b), EPSILON) { assert MarginTells(a, b, clearance, root); }
  }
}
