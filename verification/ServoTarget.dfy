/** What the servo's target filter and its control tick do, on the numbers themselves. */
module ServoTarget {
  import opened Options
  import opened RealProducts
  import opened Sorting
  import opened ServoCore

  // ----- the median

  /** Along one axis: an entry with less than half of the entries below it and at most half above it. */
  ghost predicate LowMiddle(key: Vec -> real, s: seq<Vec>, v: real)
  {
    (exists p :: p in s && key(p) == v) && 2 * Below(key, s, v) < |s| && 2 * Above(key, s, v) <= |s|
  }

  /** The same from the other side. */
  ghost predicate HighMiddle(key: Vec -> real, s: seq<Vec>, v: real)
  {
    (exists p :: p in s && key(p) == v) && 2 * Below(key, s, v) <= |s| && 2 * Above(key, s, v) < |s|
  }

  /** The median is half way between the lower and the upper middle entry, so at most half of the entries lie strictly
      on either side of it. */
  lemma MedianIsMiddle(key: Vec -> real, s: seq<Vec>) returns (lo: real, hi: real)
    requires s != []
    ensures LowMiddle(key, s, lo) && HighMiddle(key, s, hi) && lo <= hi && Median(key, s) == (lo + hi) / 2.0
    ensures 2 * Below(key, s, Median(key, s)) <= |s| && 2 * Above(key, s, Median(key, s)) <= |s|
  {
    hide Sort, Below, Above, Median, Ordered;
    SortKeeps(key, s);
    MedianIsHalfWay(key, s);
    var n, t := |s|, Sort(key, s);
    var a, b := (n - 1) / 2, n / 2;
    lo, hi := key(t[a]), key(t[b]);
    var i := SortedEntry(key, s, a);
    var j := SortedEntry(key, s, b);
    assert s[i] in s && s[j] in s;
    SortedRank(key, s, a, lo);
    SortedRank(key, s, a + 1, lo);
    SortedRank(key, s, b, hi);
    SortedRank(key, s, b + 1, hi);
    SortedRank(key, s, b, Median(key, s));
    SortedRank(key, s, a + 1, Median(key, s));
  }

  lemma MedianIsHalfWay(key: Vec -> real, s: seq<Vec>)
    requires s != [] && |Sort(key, s)| == |s| && Ordered(key, Sort(key, s))
    ensures var t, n := Sort(key, s), |s|;
            && key(t[(n - 1) / 2]) <= key(t[n / 2])
            && Median(key, s) == (key(t[(n - 1) / 2]) + key(t[n / 2])) / 2.0
  {
    hide Sort;
  }

  lemma MedianOfOne(p: Vec, s: seq<Vec>)
    requires s != [] && forall q :: q in s ==> q == p
    ensures MedianPoint(s) == p
  {
    hide Median;
    MedianBetween(X, s);
    MedianBetween(Y, s);
    MedianBetween(Z, s);
  }

  // ----- one reading, case by case

  /** Neither too old, nor malformed. */
  predicate Usable(s: Settings, r: Reading)
  {
    && !(r.captureAge.Some? && r.captureAge.value > s.maxCaptureAge)
    && r.finite && r.at.z > 0.0
  }

  /** The squared distance of two points. */
  function Gap(a: Vec, b: Vec): real
  {
    (a.x - b.x) * (a.x - b.x) + (a.y - b.y) * (a.y - b.y) + (a.z - b.z) * (a.z - b.z)
  }

  /** `kept` is the newest part of `all`, of length `n` or all of it. */
  ghost predicate Newest(kept: seq<Vec>, all: seq<Vec>, n: int)
  {
    |kept| <= |all| && kept == all[|all| - |kept|..] && (|kept| == n || (kept == all && |all| < n))
  }

  /** Along each axis the error against `m` is scaled by `b`. */
  predicate ErrorScaled(t: Vec, c: Vec, m: Vec, b: real)
  {
    t.x - m.x == b * (c.x - m.x) && t.y - m.y == b * (c.y - m.y) && t.z - m.z == b * (c.z - m.z)
  }

  /** A reading near the target is taken into the window, and the target's error against the window's median shrinks by
      the factor `1 - alpha`. */
  lemma NearReadingBlends(s: Settings, c: Core, r: Reading)
    requires s.Valid() && Usable(s, r) && c.target.Some? && Gap(r.at, c.target.value) <= s.maxJump * s.maxJump
    ensures var c' := Observed(s, c, r);
            && Newest(c'.samples, c.samples + [r.at], s.window) && c'.outliers == [] && c'.target.Some?
            && c'.samples != []
            && ErrorScaled(c'.target.value, c.target.value, MedianPoint(c'.samples), 1.0 - s.alpha)
            && c'.received == Some(r.stamp) && c'.accepted == c.accepted + 1 && c'.rejected == c.rejected
            && c'.rebases == c.rebases && c'.stale == c.stale && c'.raw == Some(r.at)
            && (r.transforms ==> c'.geometry == c'.target && c'.transformsReceived == Some(r.stamp))
            && (!r.transforms ==> c'.geometry.None? && c'.transformsReceived.None?)
  {
    hide MedianPoint, Coherent, Far, Gap, Bounded, Newest;
    FarIsGap(s, r.at, c.target.value);
    BoundedIsNewest(c.samples + [r.at], s.window);
    BlendScales(s.alpha, MedianPoint(Observed(s, c, r).samples), c.target.value);
  }

  lemma BlendScales(alpha: real, m: Vec, c: Vec)
    ensures ErrorScaled(BlendPoint(alpha, m, c), c, m, 1.0 - alpha)
  {
    AxisScales(alpha, m.x, c.x);
    AxisScales(alpha, m.y, c.y);
    AxisScales(alpha, m.z, c.z);
  }

  lemma AxisScales(alpha: real, m: real, c: real)
    ensures Blend(alpha, m, c) - m == (1.0 - alpha) * (c - m)
  {}

  /** The first reading is the target. */
  lemma FirstReadingIsTarget(s: Settings, c: Core, r: Reading)
    requires s.Valid() && Usable(s, r) && c.target.None? && c.samples == []
    ensures var c' := Observed(s, c, r);
            && c'.target == Some(r.at) && c'.samples == [r.at] && c'.received == Some(r.stamp)
            && c'.accepted == c.accepted + 1 && c'.rejected == c.rejected && c'.rebases == c.rebases
            && (r.transforms ==> c'.geometry == c'.target && c'.transformsReceived == Some(r.stamp))
            && (!r.transforms ==> c'.geometry.None? && c'.transformsReceived.None?)
  {
    hide Coherent, MedianPoint;
    assert [] + [r.at] == [r.at];
    MedianOfOne(r.at, [r.at]);
  }

  /** The cluster holds enough points, and all of them lie within the spread of its median. */
  ghost predicate Tight(s: Settings, cluster: seq<Vec>)
  {
    && |cluster| >= s.rebaseSamples && cluster != []
    && forall p :: p in cluster ==> Gap(p, MedianPoint(cluster)) <= s.rebaseSpread * s.rebaseSpread
  }

  /** A reading that jumps joins the cluster of outliers.  If that is then full and tight, the filter restarts with it
      and the target is its median; if not, target and window stay. */
  lemma FarReadingRebasesIff(s: Settings, c: Core, r: Reading)
    requires s.Valid() && Usable(s, r) && c.target.Some? && Gap(r.at, c.target.value) > s.maxJump * s.maxJump
    ensures var c' := Observed(s, c, r);
            exists cluster :: && Newest(cluster, c.outliers + [r.at], s.rebaseSamples)
                              && Rejoined(s, c, r, cluster, c')
  {
    hide MedianPoint, BlendPoint, Coherent, Far, Gap, Bounded, Newest, Tight, Observed, Taken;
    var c', cluster := Observed(s, c, r), Bounded(c.outliers + [r.at], s.rebaseSamples);
    FarCases(s, c, r);
    BoundedIsNewest(c.outliers + [r.at], s.rebaseSamples);
    BoundedIsNewest(cluster, s.window);
    TightIsCoherent(s, cluster);
    var o := WithOutlier(s, Noted(c, r), r);
    if Relocated(s, o) { TakenAfresh(s, Rebased(s, o), r); }
    assert Rejoined(s, c, r, cluster, c');
  }

  lemma FarCases(s: Settings, c: Core, r: Reading)
    requires s.Valid() && Usable(s, r) && c.target.Some? && Gap(r.at, c.target.value) > s.maxJump * s.maxJump
    ensures var o := WithOutlier(s, Noted(c, r), r);
            Observed(s, c, r) == if Relocated(s, o) then Taken(s, Rebased(s, o), r) else o
  {
    hide Coherent, Far, Gap, Bounded, Taken;
    FarIsGap(s, r.at, c.target.value);
  }

  /** A filter without a target takes the median of the window it holds. */
  lemma TakenAfresh(s: Settings, c: Core, r: Reading)
    requires s.Valid() && c.target.None? && c.samples != []
    ensures Taken(s, c, r) ==
            c.(target := Some(MedianPoint(c.samples)), received := Some(r.stamp), accepted := c.accepted + 1,
               geometry := if r.transforms then Some(MedianPoint(c.samples)) else c.geometry,
               transformsReceived := if r.transforms then Some(r.stamp) else c.transformsReceived)
  {
    hide MedianPoint, Bounded;
  }

  lemma FarIsGap(s: Settings, a: Vec, b: Vec)
    ensures Far(s, a, b) <==> Gap(a, b) > s.maxJump * s.maxJump
  {}

  lemma BoundedIsNewest(all: seq<Vec>, n: int)
    requires n >= 1
    ensures Newest(Bounded(all, n), all, n) && (all != [] ==> Bounded(all, n) != [])
  {}

  ghost predicate Rejoined(s: Settings, c: Core, r: Reading, cluster: seq<Vec>, c': Core)
  {
    && c'.rejected == c.rejected + 1 && c'.stale == c.stale && c'.raw == Some(r.at)
    && if Tight(s, cluster) then
         && Newest(c'.samples, cluster, s.window) && c'.samples != [] && c'.target == Some(MedianPoint(c'.samples))
         && c'.outliers == [] && c'.rebases == c.rebases + 1 && c'.accepted == c.accepted + 1
         && c'.received == Some(r.stamp)
         && (r.transforms ==> c'.geometry == c'.target && c'.transformsReceived == Some(r.stamp))
         && (!r.transforms ==> c'.geometry.None? && c'.transformsReceived.None?)
       else
         && c'.samples == c.samples && c'.target == c.target && c'.received == c.received
         && c'.outliers == cluster && c'.rebases == c.rebases && c'.accepted == c.accepted
         && (r.transforms ==> c'.geometry == c.geometry && c'.transformsReceived == c.transformsReceived)
         && (!r.transforms ==> c'.geometry.None? && c'.transformsReceived.None?)
  }

  lemma TightIsCoherent(s: Settings, cluster: seq<Vec>)
    requires s.Valid() && cluster != []
    ensures Tight(s, cluster) <==> |cluster| >= s.rebaseSamples && Coherent(s, cluster)
  {
    hide MedianPoint;
    forall i | 0 <= i < |cluster|
      ensures Apart(cluster[i], MedianPoint(cluster)) == Gap(cluster[i], MedianPoint(cluster)) && cluster[i] in cluster
    {}
  }

  /** An unusable reading changes nothing but the counts of refused ones. */
  lemma UnusableReadingIsIgnored(s: Settings, c: Core, r: Reading)
    requires s.Valid() && !Usable(s, r)
    ensures var late := r.captureAge.Some? && r.captureAge.value > s.maxCaptureAge;
            Observed(s, c, r) == if late then c.(rejected := c.rejected + 1, stale := c.stale + 1) else c
  {
    hide Taken;
  }

  // ----- convergence

  function Power(b: real, k: nat): real { if k == 0 then 1.0 else b * Power(b, k - 1) }

  lemma ScaledTwice(t: Vec, c: Vec, d: Vec, m: Vec, a: real, b: real, ab: real)
    requires ErrorScaled(c, d, m, b) && ErrorScaled(t, c, m, a) && ab == a * b
    ensures ErrorScaled(t, d, m, ab)
  {
    Associates(a, b, d.x - m.x);
    Associates(a, b, d.y - m.y);
    Associates(a, b, d.z - m.z);
  }

  lemma Associates(a: real, b: real, x: real)
    ensures a * (b * x) == a * b * x
  {}

  lemma SquareShrinks(b: real, e: real, e': real)
    requires 0.0 <= b <= 1.0 && e' == b * e
    ensures e' * e' <= e * e
  {
    if e >= 0.0 {
      PartOf(b, e, e');
      Larger(e', e);
    } else {
      PartOf(b, e, e');
      Larger(-e', -e);
      assert (-e') * (-e') == e' * e' && (-e) * (-e) == e * e;
    }
  }

  lemma Larger(x: real, y: real)
    requires 0.0 <= x <= y
    ensures x * x <= y * y
  {
    NotNegative(y - x, y + x, (y - x) * (y + x));
    assert (y - x) * (y + x) == y * y - x * x;
  }

  lemma GapShrinks(t: Vec, c: Vec, p: Vec, b: real)
    requires 0.0 <= b <= 1.0 && ErrorScaled(t, c, p, b)
    ensures Gap(p, t) <= Gap(p, c)
  {
    SquareShrinks(b, c.x - p.x, t.x - p.x);
    SquareShrinks(b, c.y - p.y, t.y - p.y);
    SquareShrinks(b, c.z - p.z, t.z - p.z);
    Flip(p, t);
    Flip(p, c);
    hide Gap;
  }

  lemma Flip(p: Vec, c: Vec)
    ensures Gap(p, c) == (c.x - p.x) * (c.x - p.x) + (c.y - p.y) * (c.y - p.y) + (c.z - p.z) * (c.z - p.z)
  {
    Opposite(p.x, c.x);
    Opposite(p.y, c.y);
    Opposite(p.z, c.z);
  }

  lemma Opposite(a: real, b: real)
    ensures (a - b) * (a - b) == (b - a) * (b - a)
  {}

  ghost predicate OnlyHolds(c: Core, p: Vec) { forall q :: q in c.samples ==> q == p }

  /** Once the window holds one point only, `k` more readings of that point leave `(1 - alpha)^k` of the target's error
      against it. */
  lemma {:induction false} ErrorDecays(s: Settings, c: Core, readings: seq<Reading>, p: Vec)
    requires s.Valid() && c.target.Some? && OnlyHolds(c, p) && Gap(p, c.target.value) <= s.maxJump * s.maxJump
    requires forall i :: 0 <= i < |readings| ==> Usable(s, readings[i]) && readings[i].at == p
    ensures var c' := ObservedAll(s, c, readings);
            && c'.target.Some? && OnlyHolds(c', p) && Gap(p, c'.target.value) <= s.maxJump * s.maxJump
            && ErrorScaled(c'.target.value, c.target.value, p, Power(1.0 - s.alpha, |readings|))
  {
    hide Observed, Gap, MedianPoint, ErrorScaled, Usable, OnlyHolds, Power;
    if readings == [] {
      ScaledByOne(c.target.value, p);
      PowerOfNone(1.0 - s.alpha);
    } else {
      var k := |readings| - 1;
      ErrorDecays(s, c, readings[..k], p);
      var b := ObservedAll(s, c, readings[..k]);
      var d := Observed(s, b, readings[k]);
      DecaysOnce(s, b, readings[k], p);
      PowerStep(1.0 - s.alpha, k);
      ScaledTwice(d.target.value, b.target.value, c.target.value, p, 1.0 - s.alpha, Power(1.0 - s.alpha, k),
                  Power(1.0 - s.alpha, |readings|));
    }
  }

  lemma PowerOfNone(b: real)
    ensures Power(b, 0) == 1.0
  {}

  lemma PowerStep(b: real, k: nat)
    ensures Power(b, k + 1) == b * Power(b, k)
  {}

  lemma ScaledByOne(c: Vec, p: Vec)
    ensures ErrorScaled(c, c, p, 1.0)
  {}

  lemma DecaysOnce(s: Settings, c: Core, r: Reading, p: Vec)
    requires s.Valid() && c.target.Some? && OnlyHolds(c, p) && Gap(p, c.target.value) <= s.maxJump * s.maxJump
    requires Usable(s, r) && r.at == p
    ensures var c' := Observed(s, c, r);
            && c'.target.Some? && OnlyHolds(c', p) && Gap(p, c'.target.value) <= s.maxJump * s.maxJump
            && ErrorScaled(c'.target.value, c.target.value, p, 1.0 - s.alpha)
  {
    hide Observed, Gap, MedianPoint, ErrorScaled, Newest, Usable;
    NearReadingBlends(s, c, r);
    var c' := Observed(s, c, r);
    forall q | q in c'.samples ensures q == p { NewestIsPart(c'.samples, c.samples + [r.at], s.window, q); }
    MedianOfOne(p, c'.samples);
    GapShrinks(c'.target.value, c.target.value, p, 1.0 - s.alpha);
  }

  lemma NewestIsPart(kept: seq<Vec>, all: seq<Vec>, n: int, q: Vec)
    requires Newest(kept, all, n) && q in kept
    ensures q in all
  {}

  /** With `alpha` 1 the target is the window's median after every reading that is taken. */
  lemma FullWeightFollows(s: Settings, c: Core, r: Reading)
    requires s.Valid() && s.alpha == 1.0 && Usable(s, r)
    requires c.target.Some? && Gap(r.at, c.target.value) <= s.maxJump * s.maxJump
    ensures var c' := Observed(s, c, r); c'.samples != [] && c'.target == Some(MedianPoint(c'.samples))
  {
    hide Observed, Gap, MedianPoint;
    NearReadingBlends(s, c, r);
  }

  // ----- the tick

  /** The controller is asked: not done, a target, no fresh target without usable geometry, no blocked posture. */
  predicate Asked(s: Settings, c: Core, now: real, tracking: bool, blocked: bool)
  {
    && !c.done && c.target.Some? && c.received.Some?
    && !(Fresh(s, c, now, tracking) && !Placed(s, c, now))
    && !(blocked && c.lastPhase == PostureAdjust)
  }

  /** The target is tracked and was received within the timeout. */
  predicate Fresh(s: Settings, c: Core, now: real, tracking: bool)
  {
    tracking && c.received.Some? && now - c.received.value <= s.targetTimeout
  }

  predicate Placed(s: Settings, c: Core, now: real)
  {
    c.geometry.Some? && c.transformsReceived.Some? && now - c.transformsReceived.value <= s.geometryTimeout
  }

  /** What one tick puts out: the controller's velocities exactly if it is asked and, for the published ones, the servo
      is live; zero otherwise.  It is given the geometry exactly of a fresh target. */
  lemma TickPublishes(s: Settings, c: Core, now: real, tracking: bool, blocked: bool, d: Decision)
    requires s.Valid()
    ensures var t := Ticked(s, c, now, tracking, blocked, d); var out := t.1;
            var asked := Asked(s, c, now, tracking, blocked);
            && (out.branch.Controlled? <==> asked)
            && (asked ==> out.branch.given == if Fresh(s, c, now, tracking) then c.geometry else None)
            && (out.proposedLinear, out.proposedAngular) == (if asked then (d.linear, d.angular) else (0.0, 0.0))
            && (out.publishedLinear, out.publishedAngular)
               == (if asked && s.live then (d.linear, d.angular) else (0.0, 0.0))
            && out.done == t.0.done && (t.0.done <==> c.done || (asked && d.phase == HandoffReady))
            && (asked ==> t.0.lastPhase == d.phase)
            && t.0 == c.(lastPhase := t.0.lastPhase, done := t.0.done)
  {}

  /** Event `i` is a tick that asks the controller and is told to hand off. */
  ghost predicate HandsOff(s: Settings, events: seq<Event>, i: nat)
    requires s.Valid()
  {
    && i < |events| && events[i].DoTick? && events[i].decision.phase == HandoffReady
    && Asked(s, Tracked(s, events[..i]).core, events[i].now, events[i].tracking, events[i].blocked)
  }

  ghost predicate HandedOff(s: Settings, events: seq<Event>, i: nat)
    requires s.Valid()
  {
    HandsOff(s, events, i) && forall k :: i < k < |events| ==> !events[k].DoReset?
  }

  /** In every run the servo is done exactly if some tick handed off and nothing has reset it since. */
  lemma {:induction false} DoneIffHandedOff(s: Settings, events: seq<Event>)
    requires s.Valid()
    ensures Tracked(s, events).core.done <==> exists i: nat :: HandedOff(s, events, i)
  {
    if events != [] {
      var n := |events| - 1;
      var before, e := events[..n], events[n];
      DoneIffHandedOff(s, before);
      DoneStep(s, events, n);
      forall i: nat ensures HandedOff(s, events, i) <==>
          (i == n && HandsOff(s, events, n)) || (HandedOff(s, before, i) && !e.DoReset?)
      {
        HandedOffStep(s, events, n, i);
      }
      hide Tracked, HandsOff, HandedOff;
      if HandsOff(s, events, n) { assert HandedOff(s, events, n); }
      if i: nat :| HandedOff(s, before, i) { assert HandedOff(s, events, i) || e.DoReset?; }
    }
  }

  lemma HandedOffStep(s: Settings, events: seq<Event>, n: nat, i: nat)
    requires s.Valid() && |events| == n + 1
    ensures HandedOff(s, events, i) <==>
            (i == n && HandsOff(s, events, n)) || (HandedOff(s, events[..n], i) && !events[n].DoReset?)
  {
    hide Tracked, Asked;
    var before := events[..n];
    if i < n { assert before[..i] == events[..i] && before[i] == events[i]; }
    forall k | 0 <= k < n ensures before[k] == events[k] {}
  }

  lemma DoneStep(s: Settings, events: seq<Event>, n: nat)
    requires s.Valid() && |events| == n + 1
    ensures Tracked(s, events).core.done <==>
            !events[n].DoReset? && (Tracked(s, events[..n]).core.done || HandsOff(s, events, n))
  {
    var t, e := Tracked(s, events[..n]), events[n];
    assert Tracked(s, events) == Advanced(s, t, e);
    hide Tracked, Observed, Ticked, Used, Asked;
    match e
    case Observe(r) => ObservationsFinishNothing(s, t.core, r);
    case DoTick(now, tracking, blocked, d) => TickPublishes(s, t.core, now, tracking, blocked, d);
    case DoReset =>
  }

  lemma ObservationsFinishNothing(s: Settings, c: Core, r: Reading)
    requires s.Valid()
    ensures Observed(s, c, r).done == c.done
  {
    hide MedianPoint, BlendPoint, Coherent, Far;
  }
}
