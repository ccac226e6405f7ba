/** The fixed-fixture guard: capsule clearance of one joint state, the sampled check of one
    commanded step, and the sampled evidence for a whole joint trajectory.

    `check` stands for the guard's state check after forward kinematics, `norm` for the Euclidean
    norm of a joint vector, and `root` for the square root; all three are parameters.
 */
module StepGuard {
  import opened RealProducts
  import opened SegmentDistance
  import opened SegmentGuards

  const ARM_DOF: nat := 6

  datatype Witness = Witness(pair: (string, string), distance: real, threshold: real, margin: real)

  datatype CollisionState = CollisionState(valid: bool, margin: real, blame: Witness)

  datatype Capsule = Capsule(start: Vec3, end: Vec3, radius: real)

  datatype Checked<T> = Accepted(value: T) | Refused

  // ----- one joint state

  /** `root` is the non-negative square root on non-negative numbers. */
  ghost predicate IsRoot(root: real -> real)
  {
    forall x :: x >= 0.0 ==> root(x) >= 0.0 && root(x) * root(x) == x
  }

  function PairGap(a: Capsule, b: Capsule): real
  {
    SegmentGap(a.start, a.end, b.start, b.end, EPSILON, POINT_EPSILON)
  }

  function Threshold(a: Capsule, b: Capsule, clearance: real): real { a.radius + b.radius + clearance }

  function PairMargin(a: Capsule, b: Capsule, clearance: real, root: real -> real): real
  {
    root(PairGap(a, b)) - Threshold(a, b, clearance)
  }

  /** Every pair the guard is configured with names two capsules of the model. */
  predicate Configured(world: map<string, Capsule>, pairs: seq<(string, string)>)
  {
    |pairs| > 0 && forall k :: 0 <= k < |pairs| ==> pairs[k].0 in world && pairs[k].1 in world
  }

  method CheckState(world: map<string, Capsule>, pairs: seq<(string, string)>, clearance: real, root: real -> real)
    returns (state: CollisionState)
    requires Configured(world, pairs)
    ensures forall k :: 0 <= k < |pairs| ==>
              state.margin <= PairMargin(world[pairs[k].0], world[pairs[k].1], clearance, root)
    ensures exists k :: 0 <= k < |pairs| && FirstClosest(world, pairs, clearance, root, state, k)
    ensures state.valid <==>
              forall k :: 0 <= k < |pairs| ==>
                PairMargin(world[pairs[k].0], world[pairs[k].1], clearance, root) > 0.0
  {
    var a, b := world[pairs[0].0], world[pairs[0].1];
    var closest := Witness(pairs[0], root(PairGap(a, b)), Threshold(a, b, clearance),
        PairMargin(a, b, clearance, root));
    ghost var at := 0;
    for i := 1 to |pairs|
      invariant 0 <= at < i && closest.pair == pairs[at]
      invariant closest.margin == PairMargin(world[pairs[at].0], world[pairs[at].1], clearance, root)
      invariant closest.distance == root(PairGap(world[pairs[at].0], world[pairs[at].1]))
      invariant closest.threshold == Threshold(world[pairs[at].0], world[pairs[at].1], clearance)
      invariant forall k :: 0 <= k < at ==>
                  closest.margin < PairMargin(world[pairs[k].0], world[pairs[k].1], clearance, root)
      invariant forall k :: 0 <= k < i ==>
                  closest.margin <= PairMargin(world[pairs[k].0], world[pairs[k].1], clearance, root)
    {
      a, b := world[pairs[i].0], world[pairs[i].1];
      var distance, threshold := root(PairGap(a, b)), Threshold(a, b, clearance);
      if distance - threshold < closest.margin {
        closest := Witness(pairs[i], distance, threshold, distance - threshold);
        at := i;
      }
    }
    state := CollisionState(closest.margin > 0.0, closest.margin, closest);
    assert FirstClosest(world, pairs, clearance, root, state, at);
  }

  /** The state blames pair `k`, with its distance and threshold, and every earlier pair has a greater margin. */
  ghost predicate FirstClosest(world: map<string, Capsule>, pairs: seq<(string, string)>, clearance: real,
                               root: real -> real, state: CollisionState, k: nat)
    requires Configured(world, pairs) && k < |pairs|
  {
    var a, b := world[pairs[k].0], world[pairs[k].1];
    && state.blame == Witness(pairs[k], root(PairGap(a, b)), Threshold(a, b, clearance), state.margin)
    && state.margin == PairMargin(a, b, clearance, root) == state.blame.distance - state.blame.threshold
    && forall j :: 0 <= j < k ==> state.margin < PairMargin(world[pairs[j].0], world[pairs[j].1], clearance, root)
  }

  lemma RootOrder(root: real -> real, x: real, h: real)
    requires IsRoot(root) && x >= 0.0 && h >= 0.0
    ensures root(x) > h <==> x > h * h
  {
    var r := root(x);
    if r > h { Positive(r - h, r + h, r * r - h * h); }
    if r <= h { assert (h - r) * (h + r) >= 0.0; }
  }

  lemma GapNonNegative(a: Capsule, b: Capsule)
    ensures PairGap(a, b) >= 0.0
  {
    var f := ClosestFractions(a.start, a.end, b.start, b.end, EPSILON, POINT_EPSILON);
    SqNormNonNegative(Sub(Along(a.start, a.end, f.0), Along(b.start, b.end, f.1)));
  }

  /** All points of the two axes are farther apart than `h`. */
  ghost predicate AxesApart(a: Capsule, b: Capsule, h: real)
  {
    forall s, t :: Fraction(s) && Fraction(t) ==> Gap(a.start, a.end, b.start, b.end, s, t) > h * h
  }

  /** At this clearance a positive margin means exactly that the axes keep their threshold everywhere. */
  ghost predicate MarginTells(a: Capsule, b: Capsule, clearance: real, root: real -> real)
  {
    PairMargin(a, b, clearance, root) > 0.0 <==> AxesApart(a, b, Threshold(a, b, clearance))
  }

  function PairScalars(a: Capsule, b: Capsule): Scalars { ScalarsOf(a.start, a.end, b.start, b.end) }

  /** Whatever the guards do, axes that keep their threshold have a positive margin: there are no false alarms. */
  lemma ApartHasMargin(a: Capsule, b: Capsule, clearance: real, root: real -> real)
    requires IsRoot(root) && Threshold(a, b, clearance) >= 0.0 && AxesApart(a, b, Threshold(a, b, clearance))
    ensures PairMargin(a, b, clearance, root) > 0.0
  {
    hide Gap, IsRoot, PairGap;
    var s, t := PairAttains(a, b);
    GapNonNegative(a, b);
    RootOrder(root, PairGap(a, b), Threshold(a, b, clearance));
  }

  lemma PairAttains(a: Capsule, b: Capsule) returns (s: real, t: real)
    ensures Fraction(s) && Fraction(t) && PairGap(a, b) == Gap(a.start, a.end, b.start, b.end, s, t)
  {
    hide Gap, ClosestFractions;
    var f := ClosestFractions(a.start, a.end, b.start, b.end, EPSILON, POINT_EPSILON);
    s, t := f.0, f.1;
  }

  /** For every pair of capsules: the margin tells clear from blocked at every clearance exactly when no epsilon
      guard of the distance routine does harm. */
  lemma MarginSeparatesAxes(a: Capsule, b: Capsule, root: real -> real)
    requires IsRoot(root)
    ensures (forall clearance :: Threshold(a, b, clearance) >= 0.0 ==> MarginTells(a, b, clearance, root))
            <==> Harmless(PairScalars(a, b), EPSILON)
  {
    hide Harmless, PairScalars, IsLeastGap, IsRoot, PairMargin;
    LeastIffHarmless(a.start, a.end, b.start, b.end, EPSILON, POINT_EPSILON);
    assert PairScalars(a, b) == ScalarsOf(a.start, a.end, b.start, b.end) by { PairScalarsAre(a, b); }
    if Harmless(PairScalars(a, b), EPSILON) {
      forall clearance | Threshold(a, b, clearance) >= 0.0 ensures MarginTells(a, b, clearance, root) {
        LeastTells(a, b, clearance, root);
      }
    } else {
      var clearance := Misjudged(a, b, root);
    }
  }

  lemma PairScalarsAre(a: Capsule, b: Capsule)
    ensures PairScalars(a, b) == ScalarsOf(a.start, a.end, b.start, b.end)
  {}

  lemma LeastTells(a: Capsule, b: Capsule, clearance: real, root: real -> real)
    requires IsRoot(root) && Threshold(a, b, clearance) >= 0.0
    requires IsLeastGap(PairGap(a, b), a.start, a.end, b.start, b.end)
    ensures MarginTells(a, b, clearance, root)
  {
    hide Gap, SegmentGap, IsRoot;
    GapNonNegative(a, b);
    RootOrder(root, PairGap(a, b), Threshold(a, b, clearance));
  }

  /** A clearance at which a harmful guard lets a blocked pair pass. */
  lemma Misjudged(a: Capsule, b: Capsule, root: real -> real) returns (clearance: real)
    requires IsRoot(root) && !IsLeastGap(PairGap(a, b), a.start, a.end, b.start, b.end)
    ensures Threshold(a, b, clearance) >= 0.0 && !MarginTells(a, b, clearance, root)
  {
    hide Gap, IsRoot, PairGap;
    var s0, t0 := PairAttains(a, b);
    GapNonNegative(a, b);
    var s, t :| Fraction(s) && Fraction(t) && Gap(a.start, a.end, b.start, b.end, s, t) < PairGap(a, b);
    var gap := Gap(a.start, a.end, b.start, b.end, s, t);
    GapIsSquare(a, b, s, t);
    RootIs(root, gap);
    var h := root(gap);
    clearance := h - a.radius - b.radius;
    RootOrder(root, PairGap(a, b), h);
    assert Threshold(a, b, clearance) == h;
    assert !AxesApart(a, b, h);
  }

  lemma GapIsSquare(a: Capsule, b: Capsule, s: real, t: real)
    ensures Gap(a.start, a.end, b.start, b.end, s, t) >= 0.0
  {
    SqNormNonNegative(Sub(Along(a.start, a.end, s), Along(b.start, b.end, t)));
  }

  lemma RootIs(root: real -> real, x: real)
    requires IsRoot(root) && x >= 0.0
    ensures root(x) >= 0.0 && root(x) * root(x) == x
  {}

  /** For every pair on which no fraction is snapped, degenerate and nearly parallel ones included, a margin of more
      than `r` means that the axes keep their threshold. */
  lemma MarginWithSlack(a: Capsule, b: Capsule, clearance: real, root: real -> real, r: real)
    requires IsRoot(root) && Threshold(a, b, clearance) >= 0.0
    requires var k := PairScalars(a, b);
             SegmentGuards.Covers(r, k, EPSILON) && (k.aa > EPSILON && k.cc > EPSILON ==> Unsnapped(k, EPSILON))
    requires PairMargin(a, b, clearance, root) > r
    ensures AxesApart(a, b, Threshold(a, b, clearance))
  {
    hide Gap, IsRoot, Unsnapped, SegmentGuards.Covers, SegmentGap;
    var h := Threshold(a, b, clearance);
    GapNonNegative(a, b);
    RootIs(root, PairGap(a, b));
    PairScalarsAre(a, b);
    forall s, t | Fraction(s) && Fraction(t) ensures Gap(a.start, a.end, b.start, b.end, s, t) > h * h {
      GapIsSquare(a, b, s, t);
      var gap := Gap(a.start, a.end, b.start, b.end, s, t);
      RootIs(root, gap);
      GuardedDistanceBound(a.start, a.end, b.start, b.end, EPSILON, POINT_EPSILON, s, t, root(PairGap(a, b)),
          root(gap), r);
      RootOrder(root, gap, h);
    }
  }

  // ----- one commanded step

  type Joints = seq<real>

  function Difference(a: Joints, b: Joints): Joints
    requires |a| == |b|
  {
    seq(|a|, i requires 0 <= i < |a| => a[i] - b[i])
  }

  function ScaleJoints(c: real, a: Joints): Joints { seq(|a|, i requires 0 <= i < |a| => c * a[i]) }

  /** The joint vector a fraction `alpha` of the way along the step. */
  function Blend(a: Joints, b: Joints, alpha: real): Joints
    requires |a| == |b|
  {
    seq(|a|, i requires 0 <= i < |a| => a[i] + alpha * (b[i] - a[i]))
  }

  /** Sample `k` of the `n + 1` samples that cover a step. */
  function Sample(a: Joints, b: Joints, n: nat, k: nat): Joints
    requires |a| == |b| && n > 0
  {
    Blend(a, b, k as real / n as real)
  }

  function Ceil(x: real): int { -((-x).Floor) }

  function IntervalCount(length: real, maxStep: real): (n: nat)
    requires length >= 0.0 && maxStep > 0.0
    ensures n >= 1 && length <= n as real * maxStep
    ensures n > 1 ==> length > (n - 1) as real * maxStep
  {
    CountBounds(length, maxStep);
    var c := Ceil(length / maxStep);
    if c < 1 then 1 else c
  }

  lemma CountBounds(length: real, maxStep: real)
    requires length >= 0.0 && maxStep > 0.0
    ensures var c := Ceil(length / maxStep);
            && length <= c as real * maxStep && length > (c - 1) as real * maxStep
            && c >= 0 && (c == 0 ==> length <= maxStep)
  {
    var q := length / maxStep;
    var c := Ceil(q);
    assert q * maxStep == length;
    assert (c - 1) as real < q <= c as real;
    assert (c as real - q) * maxStep >= 0.0;
    Positive(q - (c - 1) as real, maxStep, length - (c - 1) as real * maxStep);
    if q < 0.0 { Positive(-q, maxStep, -length); assert false; }
  }

  /** A norm: non-negative and homogeneous, as the Euclidean norm is. */
  ghost predicate IsNorm(norm: Joints -> real)
  {
    && (forall v :: norm(v) >= 0.0)
    && (forall c, v :: norm(ScaleJoints(c, v)) == Abs(c) * norm(v))
  }

  function Abs(x: real): real { if x < 0.0 then -x else x }

  /** The clearance margin changes by at most `rate` per unit of joint distance. */
  ghost predicate Lipschitz(check: Joints -> CollisionState, norm: Joints -> real, rate: real)
  {
    && rate >= 0.0
    && forall a, b :: |a| == |b| ==> Abs(check(a).margin - check(b).margin) <= rate * norm(Difference(a, b))
  }

  datatype StepDecision = StepDecision(allowed: bool, escaping: bool, blame: Witness,
                                       currentMargin: real, targetMargin: real)

  method CheckStep(current: Joints, target: Joints, check: Joints -> CollisionState, norm: Joints -> real,
                   maxStep: real, improvement: real)
    returns (r: Checked<StepDecision>)
    requires IsNorm(norm)
    ensures r.Refused? <==> |current| != ARM_DOF || |target| != ARM_DOF || maxStep <= 0.0
    ensures r.Accepted? ==>
              Verdict(check, current, target, IntervalCount(norm(Difference(target, current)), maxStep),
                      improvement, r.value)
  {
    if |current| != ARM_DOF || |target| != ARM_DOF || maxStep <= 0.0 {
      return Refused;
    }
    var currentState, targetState := check(current), check(target);
    var n := IntervalCount(norm(Difference(target, current)), maxStep);
    hide Blend, Difference, Ceil, IsNorm;
    var states := seq(n + 1, k requires 0 <= k < n + 1 => check(Sample(current, target, n, k)));
    if currentState.valid {
      for k := 1 to n + 1
        invariant forall j :: 1 <= j < k ==> check(Sample(current, target, n, j)).valid
      {
        if !states[k].valid {
          assert FirstBlocked(check, current, target, n, k, states[k].blame);
          return Accepted(StepDecision(false, false, states[k].blame, currentState.margin, targetState.margin));
        }
      }
      return Accepted(StepDecision(true, false, targetState.blame, currentState.margin, targetState.margin));
    }
    var previous := currentState.margin;
    for k := 1 to n + 1
      invariant previous == MarginAt(check, current, target, n, k - 1)
      invariant forall j :: 1 <= j < k ==>
                  MarginAt(check, current, target, n, j) + improvement >= MarginAt(check, current, target, n, j - 1)
    {
      if states[k].margin + improvement < previous {
        assert FirstDeeper(check, current, target, n, improvement, k, states[k].blame);
        return Accepted(StepDecision(false, false, states[k].blame, currentState.margin, targetState.margin));
      }
      previous := states[k].margin;
    }
    var escaping := targetState.margin >= currentState.margin + improvement;
    r := Accepted(StepDecision(escaping, escaping, targetState.blame, currentState.margin, targetState.margin));
  }

  /** What the decision says about the states at the ends and at the samples in between. */
  ghost predicate Verdict(check: Joints -> CollisionState, current: Joints, target: Joints, n: nat,
                          improvement: real, d: StepDecision)
    requires |current| == |target| && n > 0
  {
    && d.currentMargin == check(current).margin && d.targetMargin == check(target).margin
    && (d.escaping ==> d.allowed)
    && (d.allowed && !d.escaping <==> SamplesClear(check, current, target, n))
    && (d.escaping <==>
        && !check(current).valid && d.targetMargin >= d.currentMargin + improvement
        && NeverDeepens(check, current, target, n, improvement))
    && (!d.allowed && check(current).valid ==>
        exists k :: 1 <= k <= n && FirstBlocked(check, current, target, n, k, d.blame))
    && (!d.allowed && !check(current).valid && !NeverDeepens(check, current, target, n, improvement) ==>
        exists k :: 1 <= k <= n && FirstDeeper(check, current, target, n, improvement, k, d.blame))
    && (d.allowed || (!check(current).valid && NeverDeepens(check, current, target, n, improvement)) ==>
        d.blame == check(target).blame)
  }

  ghost predicate SamplesClear(check: Joints -> CollisionState, a: Joints, b: Joints, n: nat)
    requires |a| == |b| && n > 0
  {
    check(a).valid && forall k :: 1 <= k <= n ==> check(Sample(a, b, n, k)).valid
  }

  /** The margin the escape test compares sample `k` with: sample 0 is the current state itself. */
  function MarginAt(check: Joints -> CollisionState, a: Joints, b: Joints, n: nat, k: nat): real
    requires |a| == |b| && n > 0
  {
    if k == 0 then check(a).margin else check(Sample(a, b, n, k)).margin
  }

  ghost predicate NeverDeepens(check: Joints -> CollisionState, a: Joints, b: Joints, n: nat, improvement: real)
    requires |a| == |b| && n > 0
  {
    forall k :: 1 <= k <= n ==> MarginAt(check, a, b, n, k) + improvement >= MarginAt(check, a, b, n, k - 1)
  }

  ghost predicate FirstBlocked(check: Joints -> CollisionState, a: Joints, b: Joints, n: nat, k: nat, w: Witness)
    requires |a| == |b| && n > 0
  {
    && !check(Sample(a, b, n, k)).valid && check(Sample(a, b, n, k)).blame == w
    && forall j :: 1 <= j < k ==> check(Sample(a, b, n, j)).valid
  }

  ghost predicate FirstDeeper(check: Joints -> CollisionState, a: Joints, b: Joints, n: nat, improvement: real, k: nat,
                              w: Witness)
    requires |a| == |b| && n > 0 && k >= 1
  {
    && MarginAt(check, a, b, n, k) + improvement < MarginAt(check, a, b, n, k - 1)
    && check(Sample(a, b, n, k)).blame == w
    && forall j :: 1 <= j < k ==> MarginAt(check, a, b, n, j) + improvement >= MarginAt(check, a, b, n, j - 1)
  }

  /** An allowed escape may dip between samples, but by at most `improvement` per sample. */
  lemma {:induction false} EscapeFloor(check: Joints -> CollisionState, a: Joints, b: Joints, n: nat,
                                       improvement: real, k: nat)
    requires |a| == |b| && n > 0 && k <= n && NeverDeepens(check, a, b, n, improvement)
    ensures MarginAt(check, a, b, n, k) >= check(a).margin - k as real * improvement
  {
    if k > 0 {
      EscapeFloor(check, a, b, n, improvement, k - 1);
      assert k as real * improvement == (k - 1) as real * improvement + improvement;
    }
  }

  // ----- from the samples to the continuous path

  /** Some sample lies within half an interval of every fraction. */
  lemma NearestSample(alpha: real, n: nat) returns (k: nat)
    requires Fraction(alpha) && n > 0
    ensures k <= n && Abs(alpha - k as real / n as real) * n as real <= 0.5
  {
    var m := n as real;
    var x := alpha * m;
    NotNegative(alpha, m, x);
    NotNegative(1.0 - alpha, m, m - x);
    k := (x + 0.5).Floor;
    ScaledDistance(alpha, m, k as real, k as real / m);
  }

  lemma ScaledDistance(alpha: real, m: real, k: real, beta: real)
    requires m > 0.0 && beta == k / m
    ensures Abs(alpha - beta) * m == Abs(alpha * m - k)
  {
    var d := alpha - beta;
    assert beta * m == k;
    var p := d * m;
    assert p == alpha * m - k;
    if d >= 0.0 { NotNegative(d, m, p); } else { NotNegative(-d, m, -p); }
  }

  lemma BlendDistance(norm: Joints -> real, a: Joints, b: Joints, alpha: real, beta: real)
    requires IsNorm(norm) && |a| == |b|
    ensures norm(Difference(Blend(a, b, alpha), Blend(a, b, beta))) == Abs(alpha - beta) * norm(Difference(b, a))
  {
    var d := Difference(Blend(a, b, alpha), Blend(a, b, beta));
    var e := ScaleJoints(alpha - beta, Difference(b, a));
    forall i | 0 <= i < |a| ensures d[i] == e[i] {
      assert alpha * (b[i] - a[i]) - beta * (b[i] - a[i]) == (alpha - beta) * (b[i] - a[i]);
    }
    assert d == e;
  }

  lemma HalfStep(gap: real, n: nat, length: real, maxStep: real)
    requires 0.0 <= gap && gap * n as real <= 0.5 && 0.0 <= length <= n as real * maxStep && n > 0 && maxStep > 0.0
    ensures gap * length <= maxStep / 2.0
  {
    assert gap * length <= gap * (n as real * maxStep) by { assert gap * (n as real * maxStep - length) >= 0.0; }
    assert gap * (n as real * maxStep) == (gap * n as real) * maxStep;
    assert (0.5 - gap * n as real) * maxStep >= 0.0;
  }

  /** How far a margin can fall within half a step of a sample. */
  function Slack(rate: real, maxStep: real): real { rate * (maxStep / 2.0) }

  /** Every point of the path lies within half a step of the sample nearest to it. */
  lemma NearSampleDistance(norm: Joints -> real, a: Joints, b: Joints, n: nat, maxStep: real, alpha: real)
    returns (k: nat)
    requires IsNorm(norm) && |a| == |b| && maxStep > 0.0 && Fraction(alpha)
    requires n > 0 && norm(Difference(b, a)) <= n as real * maxStep
    ensures k <= n && Abs(alpha - k as real / n as real) * n as real <= 0.5
    ensures norm(Difference(Blend(a, b, alpha), Sample(a, b, n, k))) <= maxStep / 2.0
  {
    var length := norm(Difference(b, a));
    k := NearestSample(alpha, n);
    BlendDistance(norm, a, b, alpha, k as real / n as real);
    hide Blend, Difference;
    HalfStep(Abs(alpha - k as real / n as real), n, length, maxStep);
  }

  /** So its margin differs from that sample's by at most the slack. */
  lemma NearSampleMargin(check: Joints -> CollisionState, norm: Joints -> real, rate: real, a: Joints, b: Joints,
                         maxStep: real, alpha: real)
    returns (k: nat)
    requires IsNorm(norm) && Lipschitz(check, norm, rate) && |a| == |b| && maxStep > 0.0 && Fraction(alpha)
    ensures var n := IntervalCount(norm(Difference(b, a)), maxStep);
            && k <= n && Abs(alpha - k as real / n as real) * n as real <= 0.5
            && Abs(check(Blend(a, b, alpha)).margin - check(Sample(a, b, n, k)).margin) <= Slack(rate, maxStep)
  {
    hide Abs, Slack, Lipschitz, Difference, Ceil;
    var n := IntervalCount(norm(Difference(b, a)), maxStep);
    k := NearSampleDistance(norm, a, b, n, maxStep, alpha);
    MarginsDiffer(check, norm, rate, Blend(a, b, alpha), Sample(a, b, n, k), maxStep);
  }

  lemma MarginsDiffer(check: Joints -> CollisionState, norm: Joints -> real, rate: real, p: Joints, q: Joints,
                      maxStep: real)
    requires Lipschitz(check, norm, rate) && |p| == |q| && norm(Difference(p, q)) <= maxStep / 2.0
    ensures Abs(check(p).margin - check(q).margin) <= Slack(rate, maxStep)
  {
    hide Difference, Slack, Abs;
    ScaledBound(rate, norm(Difference(p, q)), maxStep);
  }

  /** A path whose samples are all clear is clear, up to half a step, at every continuous point. */
  lemma SampledPathIsClear(check: Joints -> CollisionState, norm: Joints -> real, rate: real, a: Joints, b: Joints,
                           maxStep: real, alpha: real)
    requires IsNorm(norm) && Lipschitz(check, norm, rate) && |a| == |b| && maxStep > 0.0 && Fraction(alpha)
    requires var n := IntervalCount(norm(Difference(b, a)), maxStep);
             forall k :: 0 <= k <= n ==> check(Sample(a, b, n, k)).margin > 0.0
    ensures check(Blend(a, b, alpha)).margin > -Slack(rate, maxStep)
  {
    hide Blend, Difference, IntervalCount, IsNorm, Sample, Slack, Lipschitz;
    var k := NearSampleMargin(check, norm, rate, a, b, maxStep, alpha);
  }

  /** Along an allowed escape every continuous point, not only every sample, is at least the current margin less
      the tolerance times the number of the nearest sample, up to half a step. */
  lemma EscapePathFloor(check: Joints -> CollisionState, norm: Joints -> real, rate: real, a: Joints, b: Joints,
                        maxStep: real, improvement: real, alpha: real)
    returns (k: nat)
    requires IsNorm(norm) && Lipschitz(check, norm, rate) && |a| == |b| && maxStep > 0.0 && Fraction(alpha)
    requires NeverDeepens(check, a, b, IntervalCount(norm(Difference(b, a)), maxStep), improvement)
    ensures var n := IntervalCount(norm(Difference(b, a)), maxStep);
            && k <= n && Abs(alpha - k as real / n as real) * n as real <= 0.5
            && check(Blend(a, b, alpha)).margin
               >= check(a).margin - k as real * improvement - Slack(rate, maxStep)
  {
    var n := IntervalCount(norm(Difference(b, a)), maxStep);
    hide Blend, Difference, IntervalCount, IsNorm, Sample, Slack, Lipschitz, NeverDeepens;
    k := NearSampleMargin(check, norm, rate, a, b, maxStep, alpha);
    EscapeFloor(check, a, b, n, improvement, k);
    FirstSampleIsStart(a, b, n);
    assert MarginAt(check, a, b, n, k) == check(Sample(a, b, n, k)).margin;
  }

  lemma ScaledBound(rate: real, d: real, maxStep: real)
    requires rate >= 0.0 && d <= maxStep / 2.0
    ensures rate * d <= Slack(rate, maxStep)
  {
    assert rate * (maxStep / 2.0 - d) >= 0.0;
  }

  /** What an allowed, non-escaping step promises about the continuous motion it admits. */
  lemma AllowedStepIsClear(check: Joints -> CollisionState, norm: Joints -> real, rate: real,
                           current: Joints, target: Joints, maxStep: real, alpha: real)
    requires IsNorm(norm) && Lipschitz(check, norm, rate) && |current| == |target| && maxStep > 0.0 && Fraction(alpha)
    requires forall q :: check(q).valid <==> check(q).margin > 0.0
    requires SamplesClear(check, current, target, IntervalCount(norm(Difference(target, current)), maxStep))
    ensures check(Blend(current, target, alpha)).margin > -Slack(rate, maxStep)
  {
    var n := IntervalCount(norm(Difference(target, current)), maxStep);
    FirstSampleIsStart(current, target, n);
    SampledPathIsClear(check, norm, rate, current, target, maxStep, alpha);
  }

  lemma FirstSampleIsStart(a: Joints, b: Joints, n: nat)
    requires |a| == |b| && n > 0
    ensures Sample(a, b, n, 0) == a && Sample(a, b, n, n) == b
  {
    assert n as real / n as real == 1.0;
    assert 0 as real / n as real == 0.0;
  }
}
