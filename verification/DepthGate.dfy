/** The two-scale edge-bleed gate of the depth filter, on disparity maps.

    A disparity map is a rectangular grid of reals in which 0 marks a hole.  Dilation takes the greatest
    entry of the part of a square window that lies in the image. */
module DepthGate {
  import opened RealProducts

  type Image<T> = seq<seq<T>>

  predicate Rect<T>(g: Image<T>) { forall i, k :: 0 <= i < |g| && 0 <= k < |g| ==> |g[i]| == |g[k]| }

  predicate In<T>(g: Image<T>, i: int, j: int) { 0 <= i < |g| && 0 <= j < |g[i]| }

  /** `(y, x)` lies in the image and in the square of radius `k` about `(i, j)`. */
  predicate Within<T>(g: Image<T>, i: int, j: int, k: nat, y: int, x: int)
  {
    In(g, y, x) && i - k <= y <= i + k && j - k <= x <= j + k
  }

  // ----- dilation

  function Max(a: real, b: real): real { if a >= b then a else b }

  function RowMax(row: seq<real>, lo: nat, hi: nat): real
    requires lo < hi <= |row|
  {
    if hi == lo + 1 then row[lo] else Max(RowMax(row, lo, hi - 1), row[hi - 1])
  }

  function BoxMax(g: Image<real>, top: nat, bottom: nat, lo: nat, hi: nat): real
    requires top < bottom <= |g| && lo < hi && forall y :: top <= y < bottom ==> hi <= |g[y]|
  {
    if bottom == top + 1 then RowMax(g[top], lo, hi)
    else Max(BoxMax(g, top, bottom - 1, lo, hi), RowMax(g[bottom - 1], lo, hi))
  }

  function Low(i: int, k: nat): nat { if i - k < 0 then 0 else i - k }

  function High(i: int, k: nat, n: nat): int { if i + k + 1 > n then n else i + k + 1 }

  /** The dilated value at `(i, j)`. */
  function WindowMax(g: Image<real>, i: nat, j: nat, k: nat): real
    requires Rect(g) && In(g, i, j)
  {
    BoxMax(g, Low(i, k), High(i, k, |g|), Low(j, k), High(j, k, |g[i]|))
  }

  lemma {:induction false} RowBound(row: seq<real>, lo: nat, hi: nat, x: int)
    requires lo <= x < hi <= |row|
    ensures row[x] <= RowMax(row, lo, hi)
  {
    if x < hi - 1 { RowBound(row, lo, hi - 1, x); }
  }

  lemma {:induction false} BoxBound(g: Image<real>, top: nat, bottom: nat, lo: nat, hi: nat, y: int, x: int)
    requires top <= y < bottom <= |g| && lo <= x < hi && forall y :: top <= y < bottom ==> hi <= |g[y]|
    ensures g[y][x] <= BoxMax(g, top, bottom, lo, hi)
  {
    if y < bottom - 1 { BoxBound(g, top, bottom - 1, lo, hi, y, x); } else { RowBound(g[y], lo, hi, x); }
  }

  lemma {:induction false} RowGreatest(row: seq<real>, lo: nat, hi: nat) returns (x: int)
    requires lo < hi <= |row|
    ensures lo <= x < hi && row[x] == RowMax(row, lo, hi)
  {
    x := hi - 1;
    if hi > lo + 1 && RowMax(row, lo, hi) != row[x] { x := RowGreatest(row, lo, hi - 1); }
  }

  lemma {:induction false} BoxGreatest(g: Image<real>, top: nat, bottom: nat, lo: nat, hi: nat) returns (y: int, x: int)
    requires top < bottom <= |g| && lo < hi && forall y :: top <= y < bottom ==> hi <= |g[y]|
    ensures top <= y < bottom && lo <= x < hi && g[y][x] == BoxMax(g, top, bottom, lo, hi)
  {
    y := bottom - 1;
    x := RowGreatest(g[y], lo, hi);
    if bottom > top + 1 && BoxMax(g, top, bottom, lo, hi) != g[y][x]
        { y, x := BoxGreatest(g, top, bottom - 1, lo, hi); }
  }

  /** The dilated value bounds every entry of the window ... */
  lemma WindowBound(g: Image<real>, i: nat, j: nat, k: nat, y: int, x: int)
    requires Rect(g) && In(g, i, j) && Within(g, i, j, k, y, x)
    ensures g[y][x] <= WindowMax(g, i, j, k)
  {
    BoxBound(g, Low(i, k), High(i, k, |g|), Low(j, k), High(j, k, |g[i]|), y, x);
  }

  /** ... and is one of them. */
  lemma Greatest(g: Image<real>, i: nat, j: nat, k: nat) returns (y: int, x: int)
    requires Rect(g) && In(g, i, j)
    ensures Within(g, i, j, k, y, x) && g[y][x] == WindowMax(g, i, j, k)
  {
    y, x := BoxGreatest(g, Low(i, k), High(i, k, |g|), Low(j, k), High(j, k, |g[i]|));
  }

  // ----- the gate

  datatype Gate = Gate(radius: int, nearRadius: int, margin: real, constant: real)
  {
    /** What the filter insists on. */
    predicate Allowed() { 1 <= nearRadius < radius }

    function Gain(): real
      requires Allowed()
    {
      radius as real / nearRadius as real
    }
  }

  const DEFAULT_GATE: Gate := Gate(7, 2, 1.0, 19375.3)

  /** The quantisation allowance at disparity `d`. */
  function Quantum(gate: Gate, d: real): real
    requires gate.Allowed() && gate.constant != 0.0
  {
    d * d * ((1.0 + gate.Gain()) / gate.constant)
  }

  function Step(g: Image<real>, i: nat, j: nat, k: nat): real
    requires Rect(g) && In(g, i, j)
  {
    WindowMax(g, i, j, k) - g[i][j]
  }

  predicate Fires(g: Image<real>, i: nat, j: nat, gate: Gate)
    requires Rect(g) && In(g, i, j) && gate.Allowed() && gate.constant != 0.0
  {
    Exceeds(Step(g, i, j, gate.radius), Step(g, i, j, gate.nearRadius), gate.Gain(),
            gate.margin + Quantum(gate, g[i][j]))
  }

  /** The wide step is more than the near step, scaled up, explains. */
  predicate Exceeds(wide: real, near: real, gain: real, slack: real) { wide > near * gain + slack }

  lemma NotExceeding(wide: real, near: real, larger: real, gain: real, slack: real)
    requires gain >= 0.0 && near <= larger && !Exceeds(wide, near, gain, slack)
    ensures !Exceeds(wide, larger, gain, slack)
  {
    Scaled(gain, near, larger);
  }

  // ----- planes

  function Deviation(g: Image<real>, c: real, a: real, b: real, y: int, x: int): real
    requires In(g, y, x)
  {
    g[y][x] - (c + a * y as real + b * x as real)
  }

  /** Every valid disparity is within `e` of the plane `c + a*row + b*column`. */
  ghost predicate NearPlane(g: Image<real>, c: real, a: real, b: real, e: real)
  {
    forall y, x :: In(g, y, x) ==>
      g[y][x] == 0.0 || (g[y][x] > 0.0 && -e <= Deviation(g, c, a, b, y, x) <= e)
  }

  ghost predicate NoHole<T>(g: Image<T>, hole: T, i: int, j: int, k: nat)
  {
    forall y, x :: Within(g, i, j, k, y, x) ==> g[y][x] != hole
  }

  /** The offset inside the near window that goes with offset `d` of the wide one along an axis of slope `a`. */
  function NearOffset(a: real, d: int, r: int): int
  {
    if (a > 0.0 && d > 0) || (a < 0.0 && d < 0) then if d > r then r else if d < -r then -r else d else 0
  }

  /** The pixel is valid, and so is the near pixel that goes with each valid pixel of its wide window: a condition on
      the places of the holes and on the signs of the slopes. */
  ghost predicate Supported<T>(g: Image<T>, hole: T, i: int, j: int, gate: Gate, a: real, b: real)
    requires Rect(g) && In(g, i, j) && gate.Allowed()
  {
    && g[i][j] != hole
    && forall y, x :: Within(g, i, j, gate.radius, y, x) && g[y][x] != hole ==>
         Seen(g, hole, i + NearOffset(a, y - i, gate.nearRadius), j + NearOffset(b, x - j, gate.nearRadius))
  }

  predicate Seen<T(==)>(g: Image<T>, hole: T, y: int, x: int) { In(g, y, x) && g[y][x] != hole }

  lemma SupportedBy<T>(g: Image<T>, hole: T, i: int, j: int, gate: Gate, a: real, b: real, y: int, x: int)
    requires Rect(g) && In(g, i, j) && gate.Allowed() && Supported(g, hole, i, j, gate, a, b)
    ensures g[i][j] != hole
    ensures Within(g, i, j, gate.radius, y, x) && g[y][x] != hole ==>
              Seen(g, hole, i + NearOffset(a, y - i, gate.nearRadius), j + NearOffset(b, x - j, gate.nearRadius))
  {
    hide NearOffset, Seen;
  }

  /** A near window without a hole supports the pixel, whatever the slopes and the holes farther out. */
  lemma NoHoleSupports<T>(g: Image<T>, hole: T, i: nat, j: nat, gate: Gate, a: real, b: real)
    requires Rect(g) && In(g, i, j) && gate.Allowed() && NoHole(g, hole, i, j, gate.nearRadius)
    ensures Supported(g, hole, i, j, gate, a, b)
  {
    assert Within(g, i, j, gate.nearRadius, i, j);
    hide NearOffset;
    forall y, x | Within(g, i, j, gate.radius, y, x) && g[y][x] != hole
      ensures Seen(g, hole, i + NearOffset(a, y - i, gate.nearRadius), j + NearOffset(b, x - j, gate.nearRadius))
    {
      var y', x' := NearPixel(g, i, j, gate, a, b, y, x);
    }
  }

  /** Along one axis the near window sees at least `1/gain` of the rise of the wide window. */
  lemma AxisRise(a: real, d: int, r: int, radius: int)
    requires 1 <= r < radius && -radius <= d <= radius
    ensures var e := NearOffset(a, d, r);
            -r <= e <= r && (0 <= e <= d || d <= e <= 0)
            && a * d as real <= radius as real / r as real * (a * e as real)
  {
    var e, gain := NearOffset(a, d, r), radius as real / r as real;
    assert gain * r as real == radius as real && gain >= 1.0;
    if a > 0.0 && d > 0 {
      Shrunk(gain, d, e, r, radius);
      Scaled(a, d as real, gain * e as real);
      Swap(a, gain, e as real);
    } else if a < 0.0 && d < 0 {
      Shrunk(gain, -d, -e, r, radius);
      Scaled(-a, (-d) as real, gain * (-e) as real);
      Swap(-a, gain, (-e) as real);
      assert (-a) * (-e) as real == a * e as real;
      assert (-a) * (-d) as real == a * d as real;
    } else {
      NotAbove(a, d as real);
    }
  }

  lemma Shrunk(gain: real, d: int, e: int, r: int, radius: int)
    requires 1 <= r < radius && 0 < d <= radius && gain >= 1.0 && gain * r as real == radius as real
    requires e == if d > r then r else d
    ensures d as real <= gain * e as real
  {
    if d <= r { ScaledUp(gain, d as real); }
  }

  lemma Swap(x: real, y: real, z: real)
    ensures x * (y * z) == y * (x * z)
  {}

  lemma ScaledUp(gain: real, x: real)
    requires gain >= 1.0 && x >= 0.0
    ensures gain * x >= x
  {}

  lemma Scaled(a: real, x: real, y: real)
    requires a >= 0.0 && x <= y
    ensures a * x <= a * y
  {}

  lemma NotAbove(a: real, x: real)
    requires !(a > 0.0 && x > 0.0) && !(a < 0.0 && x < 0.0)
    ensures a * x <= 0.0
  {}

  /** From the rises of the plane to the steps of a map that deviates from it by at most `e`. */
  lemma FromRises(gain: real, slack: real, e: real, here: real, there: real, corner: real, wide: real, near: real,
                  rise: real, nearRise: real)
    requires gain >= 1.0 && -e <= here <= e && -e <= there <= e && -e <= corner <= e
    requires wide == rise + there - here && near == nearRise + corner - here
    requires Covers(gain, nearRise, rise) && Tolerates(gain, slack, e)
    ensures !Exceeds(wide, near, gain, slack)
  {
    assert gain * nearRise == gain * near + gain * (here - corner);
    Scaled(gain, here - corner, e - corner);
    Scaled(gain - 1.0, here, e);
    Scaled(gain, -corner, e);
    assert gain * (here - corner) - here == (gain - 1.0) * here + gain * -corner;
    assert (gain - 1.0) * e + gain * e + e == 2.0 * gain * e;
  }

  function Axis(a: real, d: int): real { a * d as real }

  function Rise(a: real, b: real, dy: int, dx: int): real { Axis(a, dy) + Axis(b, dx) }

  lemma StepOnPlane(g: Image<real>, c: real, a: real, b: real, i: int, j: int, y: int, x: int)
    requires In(g, i, j) && In(g, y, x)
    ensures g[y][x] - g[i][j] == Rise(a, b, y - i, x - j)
                                 + Deviation(g, c, a, b, y, x) - Deviation(g, c, a, b, i, j)
  {
    assert a * (y - i) as real == a * y as real - a * i as real;
    assert b * (x - j) as real == b * x as real - b * j as real;
  }

  /** The rise of a plane to any pixel of the wide window is bounded by its rise to one of the near window. */
  lemma NearPixel<T>(g: Image<T>, i: nat, j: nat, gate: Gate, a: real, b: real, y: int, x: int)
    returns (y': int, x': int)
    requires Rect(g) && In(g, i, j) && gate.Allowed() && Within(g, i, j, gate.radius, y, x)
    ensures y' == i + NearOffset(a, y - i, gate.nearRadius) && x' == j + NearOffset(b, x - j, gate.nearRadius)
    ensures Within(g, i, j, gate.nearRadius, y', x')
    ensures Covers(gate.Gain(), Rise(a, b, y' - i, x' - j), Rise(a, b, y - i, x - j))
  {
    var r, radius := gate.nearRadius, gate.radius;
    var dy, dx := NearOffset(a, y - i, r), NearOffset(b, x - j, r);
    y', x' := i + dy, j + dx;
    hide NearOffset;
    GainRise(gate, a, y - i);
    GainRise(gate, b, x - j);
    hide Gate.Gain, Covers, Axis;
    CoversSum(gate.Gain(), Axis(a, dy), Axis(a, y - i), Axis(b, dx), Axis(b, x - j));
  }

  lemma GainRise(gate: Gate, a: real, d: int)
    requires gate.Allowed() && -gate.radius <= d <= gate.radius
    ensures var e := NearOffset(a, d, gate.nearRadius);
            -gate.nearRadius <= e <= gate.nearRadius && (0 <= e <= d || d <= e <= 0)
            && Covers(gate.Gain(), Axis(a, e), Axis(a, d))
  {
    AxisRise(a, d, gate.nearRadius, gate.radius);
  }

  /** A rise over the near window, scaled up by the gain, accounts for the rise over the wide one. */
  predicate Covers(gain: real, near: real, wide: real) { wide <= gain * near }

  lemma CoversSum(gain: real, near: real, wide: real, near': real, wide': real)
    requires Covers(gain, near, wide) && Covers(gain, near', wide')
    ensures Covers(gain, near + near', wide + wide')
  {
    assert gain * (near + near') == gain * near + gain * near';
  }

  /** Slack for a map that deviates from a plane by `e`. */
  predicate Tolerates(gain: real, slack: real, e: real) { 2.0 * gain * e <= slack }

  /** A surface within `e` of a plane of any slope is not cut: the gate fires on no supported pixel, so on none whose
      near window has no hole, at the image border as in its middle, as long as the margin and the quantisation
      allowance cover `2 * gain * e`. */
  lemma NearPlaneSurvives(g: Image<real>, i: nat, j: nat, gate: Gate, c: real, a: real, b: real, e: real)
    requires Rect(g) && In(g, i, j) && gate.Allowed() && gate.constant != 0.0
    requires NearPlane(g, c, a, b, e) && Supported(g, 0.0, i, j, gate, a, b)
    requires Tolerates(gate.Gain(), gate.margin + Quantum(gate, g[i][j]), e)
    ensures !Fires(g, i, j, gate)
  {
    hide Gate.Gain, Quantum, Fires, Tolerates, Covers, Exceeds, Deviation, Rise, NearOffset, WindowMax, Supported;
    var gain := gate.Gain();
    var y, x := Greatest(g, i, j, gate.radius);
    var y', x' := NearPixel(g, i, j, gate, a, b, y, x);
    WindowBound(g, i, j, gate.radius, i, j);
    SupportedBy(g, 0.0, i, j, gate, a, b, y, x);
    assert g[i][j] > 0.0 && g[y'][x'] > 0.0;
    GainIsLarge(gate);
    StepOnPlane(g, c, a, b, i, j, y, x);
    StepOnPlane(g, c, a, b, i, j, y', x');
    var here, there, corner := Deviation(g, c, a, b, i, j), Deviation(g, c, a, b, y, x), Deviation(g, c, a, b, y', x');
    assert -e <= here <= e && -e <= there <= e && -e <= corner <= e;
    hide *;
    var wide, near := g[y][x] - g[i][j], g[y'][x'] - g[i][j];
    FromRises(gain, gate.margin + Quantum(gate, g[i][j]), e, here, there, corner, wide, near,
        Rise(a, b, y - i, x - j), Rise(a, b, y' - i, x' - j));
    NotFired(g, i, j, gate, y, x, y', x');
  }

  lemma GainIsLarge(gate: Gate)
    requires gate.Allowed()
    ensures gate.Gain() >= 1.0
  {}

  lemma NotFired(g: Image<real>, i: nat, j: nat, gate: Gate, y: int, x: int, y': int, x': int)
    requires Rect(g) && In(g, i, j) && gate.Allowed() && gate.constant != 0.0
    requires In(g, y, x) && g[y][x] == WindowMax(g, i, j, gate.radius) && Within(g, i, j, gate.nearRadius, y', x')
    requires !Exceeds(g[y][x] - g[i][j], g[y'][x'] - g[i][j], gate.Gain(), gate.margin + Quantum(gate, g[i][j]))
    ensures !Fires(g, i, j, gate)
  {
    hide Quantum, Gate.Gain, Exceeds, WindowMax;
    GainIsLarge(gate);
    WindowBound(g, i, j, gate.nearRadius, y', x');
    NotExceeding(g[y][x] - g[i][j], g[y'][x'] - g[i][j], Step(g, i, j, gate.nearRadius), gate.Gain(),
                 gate.margin + Quantum(gate, g[i][j]));
  }

  /** An exact plane loses no supported pixel: one is cut only if some valid pixel of its wide window has a hole at the
      near pixel that goes with it. */
  lemma PlaneSurvives(g: Image<real>, i: nat, j: nat, gate: Gate, c: real, a: real, b: real)
    requires Rect(g) && In(g, i, j) && gate.Allowed() && gate.constant > 0.0 && gate.margin >= 0.0
    requires NearPlane(g, c, a, b, 0.0) && Supported(g, 0.0, i, j, gate, a, b)
    ensures !Fires(g, i, j, gate)
  {
    QuantumIsPositive(gate, g[i][j]);
    NearPlaneSurvives(g, i, j, gate, c, a, b, 0.0);
  }

  lemma QuantumIsPositive(gate: Gate, d: real)
    requires gate.Allowed() && gate.constant > 0.0
    ensures Quantum(gate, d) >= 0.0
  {
    var k := (1.0 + gate.Gain()) / gate.constant;
    assert d * d >= 0.0 && k > 0.0;
    Scaled(k, 0.0, d * d);
  }

  /** On any map, a pixel with nothing nearer in its wide window is never cut. */
  lemma NearestPixelSurvives(g: Image<real>, i: nat, j: nat, gate: Gate)
    requires Rect(g) && In(g, i, j) && gate.Allowed() && gate.constant > 0.0 && gate.margin >= 0.0
    requires forall y, x :: Within(g, i, j, gate.radius, y, x) ==> g[y][x] <= g[i][j]
    ensures !Fires(g, i, j, gate)
  {
    QuantumIsPositive(gate, g[i][j]);
    GainIsLarge(gate);
    assert Within(g, i, j, gate.nearRadius, i, j);
    var y, x := Greatest(g, i, j, gate.radius);
    assert g[y][x] <= g[i][j];
    hide *;
    FlatNearby(g[y][x] - g[i][j], gate.Gain(), gate.margin + Quantum(gate, g[i][j]));
    assert g[i][j] - g[i][j] == 0.0;
    NotFired(g, i, j, gate, y, x, i, j);
  }

  lemma FlatNearby(wide: real, gain: real, slack: real)
    requires wide <= 0.0 <= slack
    ensures !Exceeds(wide, 0.0, gain, slack)
  {}

  /** What the gate is for: a pixel whose near window shows nothing nearer, with something nearer by more
      than margin and allowance inside the wide window, is cut. */
  lemma StepBehindFlatIsCut(g: Image<real>, i: nat, j: nat, gate: Gate, y: int, x: int)
    requires Rect(g) && In(g, i, j) && gate.Allowed() && gate.constant != 0.0
    requires forall y', x' :: Within(g, i, j, gate.nearRadius, y', x') ==> g[y'][x'] <= g[i][j]
    requires Within(g, i, j, gate.radius, y, x) && g[y][x] - g[i][j] > gate.margin + Quantum(gate, g[i][j])
    ensures Fires(g, i, j, gate)
  {
    WindowBound(g, i, j, gate.nearRadius, i, j);
    var y', x' := Greatest(g, i, j, gate.nearRadius);
    WindowBound(g, i, j, gate.radius, y, x);
    hide WindowMax, Quantum, Gate.Gain;
    assert Step(g, i, j, gate.nearRadius) == 0.0;
  }

  /** A valid pixel of the wide window that no valid pixel of the near window accounts for: a condition on the slopes
      of the plane and the places of the holes. */
  ghost predicate Unexplained(g: Image<real>, i: nat, j: nat, gate: Gate, a: real, b: real, y: int, x: int)
    requires Rect(g) && In(g, i, j) && gate.Allowed() && gate.constant != 0.0
  {
    && Within(g, i, j, gate.radius, y, x) && g[y][x] != 0.0
    && forall y', x' :: Within(g, i, j, gate.nearRadius, y', x') && g[y'][x'] != 0.0 ==>
         Exceeds(Rise(a, b, y - i, x - j), Rise(a, b, y' - i, x' - j), gate.Gain(),
                 gate.margin + Quantum(gate, g[i][j]))
  }

  lemma ExactRise(g: Image<real>, i: nat, j: nat, c: real, a: real, b: real, y: int, x: int)
    requires NearPlane(g, c, a, b, 0.0) && In(g, i, j) && In(g, y, x) && g[i][j] != 0.0 && g[y][x] != 0.0
    ensures g[y][x] - g[i][j] == Rise(a, b, y - i, x - j)
  {
    hide Deviation, Rise;
    StepOnPlane(g, c, a, b, i, j, y, x);
  }

  /** On an exact plane with any holes, a valid pixel is cut exactly when the holes leave some valid pixel of its
      wide window unexplained. */
  lemma PlaneIsCutIff(g: Image<real>, i: nat, j: nat, gate: Gate, c: real, a: real, b: real)
    requires Rect(g) && In(g, i, j) && gate.Allowed() && gate.constant != 0.0
    requires NearPlane(g, c, a, b, 0.0) && g[i][j] != 0.0
    ensures Fires(g, i, j, gate) <==> exists y, x :: Unexplained(g, i, j, gate, a, b, y, x)
  {
    hide WindowMax, Quantum, Gate.Gain, Exceeds, Rise;
    var slack, gain := gate.margin + Quantum(gate, g[i][j]), gate.Gain();
    GainIsLarge(gate);
    var near, wide := WindowMax(g, i, j, gate.nearRadius), WindowMax(g, i, j, gate.radius);
    var y0, x0 := Greatest(g, i, j, gate.nearRadius);
    WindowBound(g, i, j, gate.nearRadius, i, j);
    assert g[i][j] > 0.0 && g[y0][x0] > 0.0;
    ExactRise(g, i, j, c, a, b, y0, x0);
    if Fires(g, i, j, gate) {
      var y, x := Greatest(g, i, j, gate.radius);
      WindowBound(g, i, j, gate.radius, i, j);
      ExactRise(g, i, j, c, a, b, y, x);
      forall y', x' | Within(g, i, j, gate.nearRadius, y', x') && g[y'][x'] != 0.0
        ensures Exceeds(Rise(a, b, y - i, x - j), Rise(a, b, y' - i, x' - j), gain, slack)
      {
        ExactRise(g, i, j, c, a, b, y', x');
        WindowBound(g, i, j, gate.nearRadius, y', x');
        StillExceeds(wide - g[i][j], wide - g[i][j], near - g[i][j], g[y'][x'] - g[i][j], gain, slack);
      }
      assert Unexplained(g, i, j, gate, a, b, y, x);
    } else if y, x :| Unexplained(g, i, j, gate, a, b, y, x) {
      ExactRise(g, i, j, c, a, b, y, x);
      WindowBound(g, i, j, gate.radius, y, x);
      StillExceeds(g[y][x] - g[i][j], wide - g[i][j], near - g[i][j], near - g[i][j], gain, slack);
    }
  }

  lemma StillExceeds(wide: real, wider: real, near: real, nearer: real, gain: real, slack: real)
    requires gain >= 0.0 && wide <= wider && nearer <= near && Exceeds(wide, near, gain, slack)
    ensures Exceeds(wider, nearer, gain, slack)
  {
    Scaled(gain, nearer, near);
  }

  /** The hole condition is needed: with a hole beside it, a pixel of an exact plane is cut. */
  lemma HoleBesidePlaneIsCut()
    ensures var g := [[10.0, 0.0, 30.0]];
            var gate := Gate(2, 1, 1.0, 19375.3);
            Rect(g) && NearPlane(g, 10.0, 0.0, 10.0, 0.0) && Fires(g, 0, 0, gate)
  {
    var g, gate := [[10.0, 0.0, 30.0]], Gate(2, 1, 1.0, 19375.3);
    assert Within(g, 0, 0, 2, 0, 2);
    assert Quantum(gate, 10.0) == 300.0 / 19375.3;
    StepBehindFlatIsCut(g, 0, 0, gate, 0, 2);
  }

  // ----- depth maps in whole millimetres

  /** The disparity map of a depth map; 0 stays 0. */
  function Disparity(depth: Image<nat>, constant: real): (g: Image<real>)
    ensures |g| == |depth| && forall i :: 0 <= i < |g| ==> |g[i]| == |depth[i]|
    ensures forall i, j :: In(depth, i, j) ==> g[i][j] == PixelDisparity(depth[i][j], constant)
  {
    seq(|depth|, i requires 0 <= i < |depth| =>
      seq(|depth[i]|, j requires 0 <= j < |depth[i]| => PixelDisparity(depth[i][j], constant)))
  }

  function PixelDisparity(m: nat, constant: real): real
  {
    if m == 0 then 0.0 else constant / m as real
  }

  /** Every valid depth is at least `least` and is the depth of the plane `c + a*row + b*column`, in
      disparity, rounded to a whole millimetre. */
  ghost predicate RoundedPlane(depth: Image<nat>, constant: real, c: real, a: real, b: real, least: nat)
  {
    forall y, x :: In(depth, y, x) && depth[y][x] != 0 ==>
      depth[y][x] >= least && RoundsTo(c + a * y as real + b * x as real, constant, depth[y][x])
  }

  /** `m` is within half a millimetre of the depth whose disparity is `d`. */
  ghost predicate RoundsTo(d: real, constant: real, m: nat)
  {
    d > 0.0 && -0.5 <= constant / d - m as real <= 0.5
  }

  /** What rounding to a millimetre at depth `least` or more can do to a disparity. */
  function RoundingError(constant: real, least: nat): real
    requires least >= 1
  {
    ErrorAt(constant, least as real)
  }

  function ErrorAt(constant: real, l: real): real
    requires l >= 1.0
  {
    constant / (2.0 * l * (l - 0.5))
  }

  /** With `m` near `z`, the disparities differ by `const/(m*z)` times the difference. */
  lemma RoundingBound(d: real, constant: real, m: nat, least: nat)
    requires constant > 0.0 && least >= 1 && m >= least && RoundsTo(d, constant, m)
    ensures var e := RoundingError(constant, least); -e <= constant / m as real - d <= e
  {
    hide ErrorAt;
    var z := constant / d;
    Recover(constant, d, z);
    GapBound(constant, m as real, z, least as real);
  }

  lemma GapBound(constant: real, n: real, z: real, l: real)
    requires constant > 0.0 && l >= 1.0 && n >= l && -0.5 <= z - n <= 0.5
    ensures z > 0.0 && -ErrorAt(constant, l) <= constant / n - constant / z <= ErrorAt(constant, l)
  {
    DisparityGap(constant, n, z);
    var k, gap := constant / (n * z), constant / n - constant / z;
    KBound(constant, n, z, l, k);
    HalfBound(k, z - n, gap);
  }

  lemma HalfBound(k: real, x: real, p: real)
    requires k > 0.0 && -0.5 <= x <= 0.5 && p == k * x
    ensures -(k * 0.5) <= p <= k * 0.5
  {
    var up, down := k * (0.5 - x), k * (x + 0.5);
    NotNegative(k, 0.5 - x, up);
    NotNegative(k, x + 0.5, down);
    assert up == k * 0.5 - p && down == p + k * 0.5;
  }

  lemma Recover(constant: real, d: real, z: real)
    requires d > 0.0 && constant > 0.0 && z == constant / d
    ensures z > 0.0 && d == constant / z
  {
    assert z * d == constant;
  }

  lemma DisparityGap(constant: real, n: real, z: real)
    requires n > 0.0 && z > 0.0 && constant > 0.0
    ensures n * z > 0.0 && constant / n - constant / z == constant / (n * z) * (z - n)
  {
    var p := n * z;
    Positive(n, z, p);
    var k := constant / p;
    assert k * p == constant;
    assert constant / n == k * z by { assert k * z * n == constant; }
    assert constant / z == k * n by { assert k * n * z == constant; }
  }

  lemma KBound(constant: real, n: real, z: real, l: real, k: real)
    requires constant > 0.0 && n >= l && z >= l - 0.5 && l >= 1.0 && n * z > 0.0 && k == constant / (n * z)
    ensures k > 0.0 && k * 0.5 <= constant / (2.0 * l * (l - 0.5))
  {
    var p, q := n * z, l * (l - 0.5);
    Positive(l, l - 0.5, q);
    Scaled(n, l - 0.5, z);
    Scaled(l - 0.5, l, n);
    assert q <= p;
    assert 2.0 * l * (l - 0.5) == 2.0 * q;
    Quotients(constant, p, q);
    assert constant / (2.0 * q) == constant / q * 0.5;
  }

  lemma Quotients(c: real, p: real, q: real)
    requires c > 0.0 && p >= q > 0.0
    ensures 0.0 < c / p <= c / q
  {}

  /** A plane rounded to whole millimetres, at depths of `least` or more, is not cut at a supported pixel either. */
  lemma RoundedPlaneSurvives(depth: Image<nat>, i: nat, j: nat, gate: Gate, c: real, a: real, b: real, least: nat)
    requires Rect(depth) && In(depth, i, j) && gate.Allowed() && gate.constant > 0.0 && least >= 1
    requires RoundedPlane(depth, gate.constant, c, a, b, least)
    requires Supported(depth, 0, i, j, gate, a, b)
    requires Tolerates(gate.Gain(), gate.margin, RoundingError(gate.constant, least))
    ensures var g := Disparity(depth, gate.constant); Rect(g) && !Fires(g, i, j, gate)
  {
    var g, e := Disparity(depth, gate.constant), RoundingError(gate.constant, least);
    RoundedIsNearPlane(depth, gate.constant, c, a, b, least);
    hide RoundingError, NearPlane, RoundedPlane, Tolerates, Fires, Gate.Gain, Supported, Disparity;
    SameHoles(depth, gate.constant);
    SameSupport(depth, g, i, j, gate, a, b);
    QuantumIsPositive(gate, g[i][j]);
    MoreSlack(gate.Gain(), gate.margin, gate.margin + Quantum(gate, g[i][j]), e);
    NearPlaneSurvives(g, i, j, gate, c, a, b, e);
  }

  lemma SameHoles(depth: Image<nat>, constant: real)
    requires constant > 0.0
    ensures var g := Disparity(depth, constant);
            forall y, x :: In(g, y, x) <==> In(depth, y, x)
    ensures var g := Disparity(depth, constant);
            forall y, x :: In(depth, y, x) ==> (g[y][x] != 0.0 <==> depth[y][x] != 0)
  {
    var g := Disparity(depth, constant);
    forall y, x | In(depth, y, x) ensures g[y][x] != 0.0 <==> depth[y][x] != 0 {
      if depth[y][x] != 0 { PositiveDisparity(constant, depth[y][x]); }
    }
  }

  /** The holes of a depth map are those of its disparity map. */
  lemma SameSupport(depth: Image<nat>, g: Image<real>, i: nat, j: nat, gate: Gate, a: real, b: real)
    requires Rect(depth) && Rect(g) && In(depth, i, j) && In(g, i, j) && gate.Allowed()
    requires Supported(depth, 0, i, j, gate, a, b) && forall y, x :: In(g, y, x) <==> In(depth, y, x)
    requires forall y, x :: In(depth, y, x) && In(g, y, x) ==> (g[y][x] != 0.0 <==> depth[y][x] != 0)
    ensures Supported(g, 0.0, i, j, gate, a, b)
  {
    hide NearOffset;
    SupportedBy(depth, 0, i, j, gate, a, b, i, j);
    forall y, x | Within(g, i, j, gate.radius, y, x) && g[y][x] != 0.0
      ensures Seen(g, 0.0, i + NearOffset(a, y - i, gate.nearRadius), j + NearOffset(b, x - j, gate.nearRadius))
    {
      hide Supported;
      SupportedBy(depth, 0, i, j, gate, a, b, y, x);
    }
  }

  lemma MoreSlack(gain: real, slack: real, more: real, e: real)
    requires Tolerates(gain, slack, e) && slack <= more
    ensures Tolerates(gain, more, e)
  {}

  lemma RoundedIsNearPlane(depth: Image<nat>, constant: real, c: real, a: real, b: real, least: nat)
    requires RoundedPlane(depth, constant, c, a, b, least) && constant > 0.0 && least >= 1
    ensures NearPlane(Disparity(depth, constant), c, a, b, RoundingError(constant, least))
  {
    var g := Disparity(depth, constant);
    forall y, x | In(g, y, x)
      ensures g[y][x] == 0.0
              || (g[y][x] > 0.0
                  && -RoundingError(constant, least) <= Deviation(g, c, a, b, y, x) <= RoundingError(constant, least))
    {
      if depth[y][x] != 0 {
        RoundingBound(c + a * y as real + b * x as real, constant, depth[y][x], least);
        PositiveDisparity(constant, depth[y][x]);
      }
    }
  }

  lemma PositiveDisparity(constant: real, m: nat)
    requires constant > 0.0 && m != 0
    ensures PixelDisparity(m, constant) > 0.0
  {}

  /** The shipped settings meet the condition from the near clip at 280 mm on. */
  lemma DefaultGateKeepsPlanes(depth: Image<nat>, i: nat, j: nat, c: real, a: real, b: real)
    requires Rect(depth) && In(depth, i, j) && RoundedPlane(depth, DEFAULT_GATE.constant, c, a, b, 280)
    requires Supported(depth, 0, i, j, DEFAULT_GATE, a, b)
    ensures var g := Disparity(depth, DEFAULT_GATE.constant); Rect(g) && !Fires(g, i, j, DEFAULT_GATE)
  {
    assert RoundingError(19375.3, 280) <= 0.13;
    assert DEFAULT_GATE.Gain() == 3.5;
    RoundedPlaneSurvives(depth, i, j, DEFAULT_GATE, c, a, b, 280);
  }
}
