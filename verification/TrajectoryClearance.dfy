/** Resolution-bounded clearance evidence for a whole joint trajectory, and the sample list that
    the smooth clearance cost is computed from. */
module TrajectoryClearance {
  import opened SegmentDistance
  import opened StepGuard

  datatype Segment = Segment(index: nat, intervals: nat, samples: nat, valid: bool, margin: real, alpha: real,
                             blame: Witness)

  datatype Evidence = Evidence(valid: bool, margin: real, segmentIndex: nat, blame: Witness,
                               segments: seq<Segment>, stateChecks: nat)

  /** At least two waypoints, each with one value per arm joint. */
  predicate Trajectory(path: seq<Joints>)
  {
    |path| >= 2 && forall i :: 0 <= i < |path| ==> |path[i]| == ARM_DOF
  }

  function Intervals(path: seq<Joints>, norm: Joints -> real, maxStep: real, i: nat): (n: nat)
    requires Trajectory(path) && i + 1 < |path| && maxStep > 0.0 && IsNorm(norm)
    ensures n > 0
  {
    IntervalCount(norm(Difference(path[i + 1], path[i])), maxStep)
  }

  /** Sample `k` of edge `i`. */
  function EdgeSample(path: seq<Joints>, norm: Joints -> real, maxStep: real, i: nat, k: nat): Joints
    requires Trajectory(path) && i + 1 < |path| && maxStep > 0.0 && IsNorm(norm)
  {
    Sample(path[i], path[i + 1], Intervals(path, norm, maxStep, i), k)
  }

  function EdgeMargin(path: seq<Joints>, check: Joints -> CollisionState, norm: Joints -> real, maxStep: real,
                      i: nat, k: nat): real
    requires Trajectory(path) && i + 1 < |path| && maxStep > 0.0 && IsNorm(norm)
  {
    check(EdgeSample(path, norm, maxStep, i, k)).margin
  }

  predicate ClearState(state: CollisionState) { state.valid && state.margin > 0.0 }

  /** What one segment record says about the samples of its edge; the minimum is the first one. */
  ghost predicate Describes(seg: Segment, check: Joints -> CollisionState, a: Joints, b: Joints, n: nat)
    requires |a| == |b| && n > 0
  {
    && seg.intervals == n && seg.samples == n + 1
    && (seg.valid <==> forall k :: 0 <= k <= n ==> ClearState(check(Sample(a, b, n, k))))
    && (forall k :: 0 <= k <= n ==> seg.margin <= check(Sample(a, b, n, k)).margin)
    && exists k :: 0 <= k <= n && FirstMinimum(seg, check, a, b, n, k)
  }

  ghost predicate FirstMinimum(seg: Segment, check: Joints -> CollisionState, a: Joints, b: Joints, n: nat, k: nat)
    requires |a| == |b| && n > 0
  {
    && seg.alpha == k as real / n as real
    && check(Sample(a, b, n, k)).margin == seg.margin && check(Sample(a, b, n, k)).blame == seg.blame
    && forall j :: 0 <= j < k ==> check(Sample(a, b, n, j)).margin > seg.margin
  }

  method EvaluateSegment(index: nat, a: Joints, b: Joints, n: nat, check: Joints -> CollisionState)
    returns (seg: Segment)
    requires |a| == |b| && n > 0
    ensures seg.index == index && Describes(seg, check, a, b, n)
  {
    hide Blend, Sample;
    var first := check(Sample(a, b, n, 0));
    var margin, alpha, blame, valid := first.margin, 0 as real / n as real, first.blame, ClearState(first);
    ghost var at := 0;
    for k := 1 to n + 1
      invariant 0 <= at < k && alpha == at as real / n as real
      invariant check(Sample(a, b, n, at)).margin == margin && check(Sample(a, b, n, at)).blame == blame
      invariant forall j :: 0 <= j < at ==> check(Sample(a, b, n, j)).margin > margin
      invariant forall j :: 0 <= j < k ==> margin <= check(Sample(a, b, n, j)).margin
      invariant valid <==> forall j :: 0 <= j < k ==> ClearState(check(Sample(a, b, n, j)))
    {
      var state := check(Sample(a, b, n, k));
      valid := valid && ClearState(state);
      if state.margin < margin {
        margin, alpha, blame := state.margin, k as real / n as real, state.blame;
        at := k;
      }
    }
    seg := Segment(index, n, n + 1, valid, margin, alpha, blame);
    assert FirstMinimum(seg, check, a, b, n, at);
  }

  /** Samples over all edges before edge `i`, both ends of every edge included. */
  function ChecksBefore(path: seq<Joints>, norm: Joints -> real, maxStep: real, i: nat): nat
    requires Trajectory(path) && i < |path| && maxStep > 0.0 && IsNorm(norm)
  {
    if i == 0 then 0
    else ChecksBefore(path, norm, maxStep, i - 1) + Intervals(path, norm, maxStep, i - 1) + 1
  }

  ghost predicate Covers(segments: seq<Segment>, path: seq<Joints>, check: Joints -> CollisionState,
                         norm: Joints -> real, maxStep: real)
    requires Trajectory(path) && |segments| < |path| && maxStep > 0.0 && IsNorm(norm)
  {
    forall i :: 0 <= i < |segments| ==>
      && segments[i].index == i
      && Describes(segments[i], check, path[i], path[i + 1], Intervals(path, norm, maxStep, i))
  }

  method Evaluate(path: seq<Joints>, check: Joints -> CollisionState, norm: Joints -> real, maxStep: real)
    returns (r: Checked<Evidence>)
    requires IsNorm(norm)
    ensures r.Refused? <==> !Trajectory(path) || maxStep <= 0.0
    ensures r.Accepted? ==> Faithful(r.value, path, check, norm, maxStep)
  {
    if !Trajectory(path) || maxStep <= 0.0 {
      return Refused;
    }
    hide Covers, Least, AllValid, Describes, IsNorm, Intervals;
    var n := Intervals(path, norm, maxStep, 0);
    var seg := EvaluateSegment(0, path[0], path[1], n, check);
    var segments, best, stateChecks := [seg], 0, n + 1;
    FirstSegment(seg, path, check, norm, maxStep);
    for i := 1 to |path| - 1
      invariant |segments| == i && Covers(segments, path, check, norm, maxStep)
      invariant best < i && Least(segments, best)
      invariant stateChecks == ChecksBefore(path, norm, maxStep, i)
    {
      n := Intervals(path, norm, maxStep, i);
      seg := EvaluateSegment(i, path[i], path[i + 1], n, check);
      NextSegment(segments, best, seg, path, check, norm, maxStep);
      if seg.margin < segments[best].margin {
        best := i;
      }
      segments := segments + [seg];
      stateChecks := stateChecks + n + 1;
    }
    r := Accepted(Evidence(AllValid(segments), segments[best].margin, best, segments[best].blame, segments,
        stateChecks));
  }

  predicate AllValid(segments: seq<Segment>) { forall i :: 0 <= i < |segments| ==> segments[i].valid }

  lemma FirstSegment(seg: Segment, path: seq<Joints>, check: Joints -> CollisionState, norm: Joints -> real,
      maxStep: real)
    requires Trajectory(path) && maxStep > 0.0 && IsNorm(norm) && seg.index == 0
    requires Describes(seg, check, path[0], path[1], Intervals(path, norm, maxStep, 0))
    ensures Covers([seg], path, check, norm, maxStep) && Least([seg], 0)
    ensures ChecksBefore(path, norm, maxStep, 1) == Intervals(path, norm, maxStep, 0) + 1
  {
    hide Describes, IsNorm, Intervals;
    assert ChecksBefore(path, norm, maxStep, 0) == 0;
  }

  lemma NextSegment(segments: seq<Segment>, best: nat, seg: Segment, path: seq<Joints>,
                    check: Joints -> CollisionState, norm: Joints -> real, maxStep: real)
    requires Trajectory(path) && maxStep > 0.0 && IsNorm(norm) && |segments| + 1 < |path|
    requires Covers(segments, path, check, norm, maxStep) && Least(segments, best) && seg.index == |segments|
    requires var i := |segments|; Describes(seg, check, path[i], path[i + 1], Intervals(path, norm, maxStep, i))
    ensures Covers(segments + [seg], path, check, norm, maxStep)
    ensures best < |segments|
    ensures Least(segments + [seg], if seg.margin < segments[best].margin then |segments| else best)
  {
    hide Describes, IsNorm, Intervals;
  }

  /** Segment `best` is the first of the least margin. */
  ghost predicate Least(segments: seq<Segment>, best: nat)
  {
    && best < |segments|
    && (forall j :: 0 <= j < |segments| ==> segments[best].margin <= segments[j].margin)
    && (forall j :: 0 <= j < best ==> segments[best].margin < segments[j].margin)
  }

  ghost predicate Faithful(e: Evidence, path: seq<Joints>, check: Joints -> CollisionState,
                           norm: Joints -> real, maxStep: real)
    requires Trajectory(path) && maxStep > 0.0 && IsNorm(norm)
  {
    && |e.segments| == |path| - 1 && Covers(e.segments, path, check, norm, maxStep)
    && (e.valid <==> AllValid(e.segments))
    && Least(e.segments, e.segmentIndex)
    && e.margin == e.segments[e.segmentIndex].margin && e.blame == e.segments[e.segmentIndex].blame
    && e.stateChecks == ChecksBefore(path, norm, maxStep, |path| - 1)
  }

  /** Valid evidence clears every continuous point of every edge, up to half a step. */
  lemma ValidEvidenceIsClear(e: Evidence, path: seq<Joints>, check: Joints -> CollisionState,
                             norm: Joints -> real, maxStep: real, rate: real, i: nat, alpha: real)
    requires Trajectory(path) && maxStep > 0.0 && IsNorm(norm)
    requires Faithful(e, path, check, norm, maxStep) && e.valid
    requires Lipschitz(check, norm, rate) && i + 1 < |path| && Fraction(alpha)
    ensures check(Blend(path[i], path[i + 1], alpha)).margin > -Slack(rate, maxStep)
  {
    hide Blend, Sample, Slack, Lipschitz, IsNorm;
    assert Describes(e.segments[i], check, path[i], path[i + 1], Intervals(path, norm, maxStep, i));
    assert e.segments[i].valid;
    SampledPathIsClear(check, norm, rate, path[i], path[i + 1], maxStep, alpha);
  }

  // ----- the sample list behind the smooth cost

  /** Margins of all samples up to the end of edge `i - 1`; the shared waypoints appear once. */
  function MarginList(path: seq<Joints>, check: Joints -> CollisionState, norm: Joints -> real, maxStep: real, i: nat)
    : seq<real>
    requires Trajectory(path) && i < |path| && maxStep > 0.0 && IsNorm(norm)
  {
    if i == 0 then [check(path[0]).margin]
    else MarginList(path, check, norm, maxStep, i - 1)
         + EdgeMargins(path, check, norm, maxStep, i - 1, Intervals(path, norm, maxStep, i - 1))
  }

  /** Margins of samples 1 to `m` of edge `i`. */
  function EdgeMargins(path: seq<Joints>, check: Joints -> CollisionState, norm: Joints -> real, maxStep: real,
                       i: nat, m: nat): (ms: seq<real>)
    requires Trajectory(path) && i + 1 < |path| && maxStep > 0.0 && IsNorm(norm)
    ensures |ms| == m
  {
    seq(m, k requires 0 <= k < m => EdgeMargin(path, check, norm, maxStep, i, k + 1))
  }

  method SampleMargins(path: seq<Joints>, check: Joints -> CollisionState, norm: Joints -> real, maxStep: real)
    returns (margins: seq<real>)
    requires Trajectory(path) && maxStep > 0.0 && IsNorm(norm)
    ensures margins == MarginList(path, check, norm, maxStep, |path| - 1)
  {
    margins := [check(path[0]).margin];
    for i := 0 to |path| - 1
      invariant margins == MarginList(path, check, norm, maxStep, i)
    {
      var n := Intervals(path, norm, maxStep, i);
      for step := 1 to n + 1
        invariant margins == MarginList(path, check, norm, maxStep, i)
                             + EdgeMargins(path, check, norm, maxStep, i, step - 1)
      {
        margins := margins + [EdgeMargin(path, check, norm, maxStep, i, step)];
      }
    }
  }

  /** The two samplers agree: the cost sees exactly the margins the evidence was formed from. */
  lemma {:induction false} SameSamples(path: seq<Joints>, check: Joints -> CollisionState, norm: Joints -> real,
                                       maxStep: real, i: nat, m: real)
    requires Trajectory(path) && i < |path| && maxStep > 0.0 && IsNorm(norm)
    ensures (m in MarginList(path, check, norm, maxStep, i)) <==>
            m == check(path[0]).margin || exists e, k ::
              && 0 <= e < i && 0 <= k <= Intervals(path, norm, maxStep, e)
              && m == EdgeMargin(path, check, norm, maxStep, e, k)
    decreases i
  {
    hide Sample, IntervalCount, IsNorm;
    if i > 0 {
      var n := Intervals(path, norm, maxStep, i - 1);
      var edge := EdgeMargins(path, check, norm, maxStep, i - 1, n);
      SameSamples(path, check, norm, maxStep, i - 1, m);
      SampleEnds(path, norm, maxStep, i - 1);
      if m in edge {
        var k :| 0 <= k < n && edge[k] == m;
        assert m == EdgeMargin(path, check, norm, maxStep, i - 1, k + 1);
      }
      var p: nat := i - 1;
      if exists k :: 0 <= k <= n && m == EdgeMargin(path, check, norm, maxStep, p, k) {
        var k :| 0 <= k <= n && m == EdgeMargin(path, check, norm, maxStep, p, k);
        if k > 0 {
          assert edge[k - 1] == m;
        } else {
          WaypointListed(path, check, norm, maxStep, i - 1);
        }
      }
    }
  }

  lemma SampleEnds(path: seq<Joints>, norm: Joints -> real, maxStep: real, i: nat)
    requires Trajectory(path) && i + 1 < |path| && maxStep > 0.0 && IsNorm(norm)
    ensures EdgeSample(path, norm, maxStep, i, 0) == path[i]
    ensures EdgeSample(path, norm, maxStep, i, Intervals(path, norm, maxStep, i)) == path[i + 1]
  {
    FirstSampleIsStart(path[i], path[i + 1], Intervals(path, norm, maxStep, i));
  }

  lemma WaypointListed(path: seq<Joints>, check: Joints -> CollisionState, norm: Joints -> real, maxStep: real, i: nat)
    requires Trajectory(path) && i < |path| && maxStep > 0.0 && IsNorm(norm)
    ensures check(path[i]).margin in MarginList(path, check, norm, maxStep, i)
  {
    hide Sample, IntervalCount, IsNorm;
    if i > 0 {
      var n := Intervals(path, norm, maxStep, i - 1);
      var edge := EdgeMargins(path, check, norm, maxStep, i - 1, n);
      SampleEnds(path, norm, maxStep, i - 1);
      assert edge[n - 1] == check(path[i]).margin;
    }
  }

  /** So the minimum the penalty reports, taken from the evidence, is the minimum of its own samples. */
  lemma PenaltyMinimum(e: Evidence, path: seq<Joints>, check: Joints -> CollisionState, norm: Joints -> real,
                       maxStep: real)
    requires Trajectory(path) && maxStep > 0.0 && IsNorm(norm) && Faithful(e, path, check, norm, maxStep)
    ensures var margins := MarginList(path, check, norm, maxStep, |path| - 1);
            e.margin in margins && forall m :: m in margins ==> e.margin <= m
  {
    hide Sample, IntervalCount, IsNorm;
    var last := |path| - 1;
    var b := e.segmentIndex;
    var n := Intervals(path, norm, maxStep, b);
    assert Describes(e.segments[b], check, path[b], path[b + 1], n);
    var k :| 0 <= k <= n && FirstMinimum(e.segments[b], check, path[b], path[b + 1], n, k);
    assert e.margin == EdgeMargin(path, check, norm, maxStep, b, k);
    SameSamples(path, check, norm, maxStep, last, e.margin);
    SampleEnds(path, norm, maxStep, 0);
    assert check(path[0]).margin == EdgeMargin(path, check, norm, maxStep, 0, 0);
    forall m | m in MarginList(path, check, norm, maxStep, last) ensures e.margin <= m {
      SameSamples(path, check, norm, maxStep, last, m);
      var i, j :| 0 <= i < last && 0 <= j <= Intervals(path, norm, maxStep, i)
                  && m == EdgeMargin(path, check, norm, maxStep, i, j);
      assert Describes(e.segments[i], check, path[i], path[i + 1], Intervals(path, norm, maxStep, i));
    }
  }
}
