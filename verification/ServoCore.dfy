/** The depth servo's core: a target filter with outlier rejection and rebase, and the freshness decision of
    one control tick.

    Positions are exact triples, distances are compared by their squares, and the geometry derived from a
    target and its transforms is represented by that target.  The reactive controller's decision is a
    parameter of the tick. */
module ServoCore {
  import opened Options
  import opened RealProducts
  import opened Sorting

  datatype Vec = Vec(x: real, y: real, z: real)

  function X(v: Vec): real { v.x }

  function Y(v: Vec): real { v.y }

  function Z(v: Vec): real { v.z }

  datatype Settings = Settings(live: bool, targetTimeout: real, maxCaptureAge: real, window: int, alpha: real,
                               maxJump: real, rebaseSamples: int, rebaseSpread: real, geometryTimeout: real)
  {
    /** The checks of the settings that matter here, the ordering of the two timeouts among them. */
    predicate Valid()
    {
      && targetTimeout > 0.0 && maxCaptureAge > 0.0 && window >= 1 && 0.0 < alpha <= 1.0 && maxJump > 0.0
      && rebaseSamples >= 2 && rebaseSpread > 0.0 && geometryTimeout > 0.0 && targetTimeout <= geometryTimeout
    }
  }

  /** One call: the capture age if known and finite, whether all numbers are finite, the raw target, the receipt
      stamp, and whether both transforms came with it. */
  datatype Reading = Reading(captureAge: Option<real>, finite: bool, at: Vec, stamp: real, transforms: bool)

  datatype Phase = Unset | PostureAdjust | HandoffReady | BaseApproach | TransformUnavailable | SomePhase(name: string)

  datatype Core = Core(target: Option<Vec>, raw: Option<Vec>, received: Option<real>, samples: seq<Vec>,
                       outliers: seq<Vec>, accepted: nat, rejected: nat, stale: nat, rebases: nat,
                       geometry: Option<Vec>, transformsReceived: Option<real>, lastPhase: Phase, done: bool)

  const INITIAL: Core := Core(None, None, None, [], [], 0, 0, 0, 0, None, None, Unset, false)

  // ----- one observation

  /** A queue that keeps its last `n` entries. */
  function Bounded(s: seq<Vec>, n: int): seq<Vec>
    requires n >= 0
  {
    if |s| <= n then s else s[|s| - n..]
  }

  lemma BoundedKeeps(s: seq<Vec>, n: int)
    requires n >= 1
    ensures s != [] ==> Bounded(s, n) != []
    ensures |Bounded(s, n)| <= n && forall v :: v in Bounded(s, n) ==> v in s
  {}

  function Square(x: real): real { x * x }

  function Apart(a: Vec, b: Vec): real { Square(a.x - b.x) + Square(a.y - b.y) + Square(a.z - b.z) }

  predicate Far(s: Settings, a: Vec, b: Vec) { Apart(a, b) > Square(s.maxJump) }

  /** The statistical median: the middle entry, or the mean of the two in the middle. */
  function Median(key: Vec -> real, s: seq<Vec>): real
    requires s != []
  {
    SortKeeps(key, s);
    var t, n := Sort(key, s), |s|;
    if n % 2 == 1 then key(t[n / 2]) else (key(t[n / 2 - 1]) + key(t[n / 2])) / 2.0
  }

  function MedianPoint(s: seq<Vec>): Vec
    requires s != []
  {
    Vec(Median(X, s), Median(Y, s), Median(Z, s))
  }

  predicate Coherent(s: Settings, cluster: seq<Vec>)
    requires cluster != []
  {
    forall i :: 0 <= i < |cluster| ==> Apart(cluster[i], MedianPoint(cluster)) <= Square(s.rebaseSpread)
  }

  function Blend(alpha: real, a: real, b: real): real { alpha * a + (1.0 - alpha) * b }

  function BlendPoint(alpha: real, a: Vec, b: Vec): Vec
  {
    Vec(Blend(alpha, a.x, b.x), Blend(alpha, a.y, b.y), Blend(alpha, a.z, b.z))
  }

  predicate IsStale(s: Settings, r: Reading) { r.captureAge.Some? && r.captureAge.value > s.maxCaptureAge }

  predicate Malformed(r: Reading) { !r.finite || r.at.z <= 0.0 }

  /** What an accepted observation does to the filter. */
  function Taken(s: Settings, c: Core, r: Reading): Core
    requires s.Valid()
  {
    var samples := if c.target.Some? || c.samples == [] then Bounded(c.samples + [r.at], s.window) else c.samples;
    var median := MedianPoint(samples);
    var target := if c.target.None? then median else BlendPoint(s.alpha, median, c.target.value);
    c.(samples := samples, target := Some(target), received := Some(r.stamp), accepted := c.accepted + 1,
       geometry := if r.transforms then Some(target) else c.geometry,
       transformsReceived := if r.transforms then Some(r.stamp) else c.transformsReceived)
  }

  function Noted(c: Core, r: Reading): Core
  {
    if r.transforms then c.(raw := Some(r.at))
    else c.(raw := Some(r.at), geometry := None, transformsReceived := None)
  }

  predicate Jumps(s: Settings, c: Core, r: Reading) { c.target.Some? && Far(s, r.at, c.target.value) }

  function WithOutlier(s: Settings, c: Core, r: Reading): Core
    requires s.Valid()
  {
    c.(outliers := Bounded(c.outliers + [r.at], s.rebaseSamples), rejected := c.rejected + 1)
  }

  predicate Relocated(s: Settings, c: Core)
    requires s.Valid()
  {
    |c.outliers| >= s.rebaseSamples && Coherent(s, c.outliers)
  }

  /** The filter restarted from its cluster of outliers. */
  function Rebased(s: Settings, c: Core): Core
    requires s.Valid()
  {
    c.(samples := Bounded(c.outliers, s.window), outliers := [], target := None, rebases := c.rebases + 1)
  }

  function Observed(s: Settings, c: Core, r: Reading): Core
    requires s.Valid()
  {
    if IsStale(s, r) then c.(rejected := c.rejected + 1, stale := c.stale + 1)
    else if Malformed(r) then c
    else
      var n := Noted(c, r);
      if Jumps(s, n, r) then
        var o := WithOutlier(s, n, r);
        if Relocated(s, o) then Taken(s, Rebased(s, o), r) else o
      else Taken(s, if n.target.Some? then n.(outliers := []) else n, r)
  }

  // ----- one tick

  datatype Decision = Decision(phase: Phase, linear: real, angular: real)

  /** Which way the tick went; the controller is given the geometry only when target and transforms are fresh. */
  datatype Branch = Finished | NoTarget | NoTransforms | Blocked | Controlled(given: Option<Vec>)

  datatype Output = Output(branch: Branch, proposedLinear: real, proposedAngular: real, publishedLinear: real,
                           publishedAngular: real, done: bool)

  function Age(now: real, stamp: real): real { if now - stamp > 0.0 then now - stamp else 0.0 }

  predicate FreshTracking(s: Settings, c: Core, now: real, tracking: bool)
  {
    tracking && c.received.Some? && Age(now, c.received.value) <= s.targetTimeout
  }

  predicate FreshTransforms(s: Settings, c: Core, now: real)
  {
    && c.geometry.Some? && c.transformsReceived.Some?
    && Age(now, c.transformsReceived.value) <= s.geometryTimeout
  }

  function Zero(c: Core, branch: Branch): Output { Output(branch, 0.0, 0.0, 0.0, 0.0, c.done) }

  function Ticked(s: Settings, c: Core, now: real, tracking: bool, blocked: bool, d: Decision): (Core, Output)
  {
    if c.done then (c, Zero(c, Finished))
    else if c.target.None? || c.received.None? then (c, Zero(c, NoTarget))
    else if FreshTracking(s, c, now, tracking) && !FreshTransforms(s, c, now) then
      (c.(lastPhase := TransformUnavailable), Zero(c, NoTransforms))
    else if blocked && c.lastPhase == PostureAdjust then (c, Zero(c, Blocked))
    else
      var given := if FreshTracking(s, c, now, tracking) then c.geometry else None;
      var c' := c.(lastPhase := d.phase, done := d.phase == HandoffReady);
      (c', Output(Controlled(given), d.linear, d.angular, if s.live then d.linear else 0.0,
                  if s.live then d.angular else 0.0, c'.done))
  }

  // ----- the class

  class DepthServoCore {
    const settings: Settings
    var target: Option<Vec>
    var raw: Option<Vec>
    var received: Option<real>
    var samples: seq<Vec>
    var outliers: seq<Vec>
    var accepted: nat
    var rejected: nat
    var staleRejected: nat
    var rebases: nat
    var geometry: Option<Vec>
    var transformsReceived: Option<real>
    var lastPhase: Phase
    var done: bool

    constructor (settings: Settings)
      ensures this.settings == settings && Value() == INITIAL
    {
      this.settings := settings;
      target, raw, received, samples, outliers := None, None, None, [], [];
      accepted, rejected, staleRejected, rebases := 0, 0, 0, 0;
      geometry, transformsReceived, lastPhase, done := None, None, Unset, false;
    }

    function Value(): Core
      reads this
    {
      Core(target, raw, received, samples, outliers, accepted, rejected, staleRejected, rebases, geometry,
           transformsReceived, lastPhase, done)
    }

    method ObserveTarget(r: Reading) returns (taken: bool)
      requires settings.Valid()
      modifies this
      ensures Value() == Observed(settings, old(Value()), r)
      ensures taken <==> accepted == old(accepted) + 1
    {
      hide Coherent, Far, Taken;
      if r.captureAge.Some? && r.captureAge.value > settings.maxCaptureAge {
        RefuseStale();
        return false;
      }
      if !r.finite || r.at.z <= 0.0 {
        return false;
      }
      Note(r);
      if target.Some? {
        if Far(settings, r.at, target.value) {
          AddOutlier(r);
          if |outliers| < settings.rebaseSamples || !Coherent(settings, outliers) {
            return false;
          }
          Rebase();
        } else {
          ClearOutliers();
        }
      }
      Take(r);
      return true;
    }

    method RefuseStale()
      modifies this
      ensures Value() == old(Value()).(rejected := old(rejected) + 1, stale := old(staleRejected) + 1)
    {
      rejected, staleRejected := rejected + 1, staleRejected + 1;
    }

    /** A reading whose transforms failed drops the geometry, whatever becomes of the reading. */
    method Note(r: Reading)
      modifies this
      ensures Value() == Noted(old(Value()), r)
    {
      if !r.transforms {
        geometry, transformsReceived := None, None;
      }
      raw := Some(r.at);
    }

    method AddOutlier(r: Reading)
      requires settings.Valid()
      modifies this
      ensures Value() == WithOutlier(settings, old(Value()), r)
    {
      outliers := Bounded(outliers + [r.at], settings.rebaseSamples);
      rejected := rejected + 1;
    }

    method ClearOutliers()
      modifies this
      ensures Value() == old(Value()).(outliers := [])
    {
      outliers := [];
    }

    method Rebase()
      requires settings.Valid()
      modifies this
      ensures Value() == Rebased(settings, old(Value()))
    {
      samples := Bounded(outliers, settings.window);
      outliers := [];
      target := None;
      rebases := rebases + 1;
    }

    method Take(r: Reading)
      requires settings.Valid()
      modifies this
      ensures Value() == Taken(settings, old(Value()), r) && accepted == old(accepted) + 1
    {
      hide MedianPoint, BlendPoint, Bounded;
      var kept := if target.Some? || samples == [] then Bounded(samples + [r.at], settings.window) else samples;
      BoundedKeeps(samples + [r.at], settings.window);
      var median := MedianPoint(kept);
      var moved := if target.None? then median else BlendPoint(settings.alpha, median, target.value);
      if r.transforms {
        geometry, transformsReceived := Some(moved), Some(r.stamp);
      }
      samples, target, received, accepted := kept, Some(moved), Some(r.stamp), accepted + 1;
    }

    method Tick(now: real, tracking: bool, blocked: bool, d: Decision) returns (out: Output)
      modifies this
      ensures (Value(), out) == Ticked(settings, old(Value()), now, tracking, blocked, d)
    {
      if done {
        return Zero(Value(), Finished);
      }
      if target.None? || received.None? {
        return Zero(Value(), NoTarget);
      }
      var freshTracking := tracking && Age(now, received.value) <= settings.targetTimeout;
      var freshTransforms := geometry.Some? && transformsReceived.Some?
                             && Age(now, transformsReceived.value) <= settings.geometryTimeout;
      if freshTracking && !freshTransforms {
        lastPhase := TransformUnavailable;
        return Zero(Value(), NoTransforms);
      }
      if blocked && lastPhase == PostureAdjust {
        return Zero(Value(), Blocked);
      }
      lastPhase := d.phase;
      if d.phase == HandoffReady {
        done := true;
      }
      return Output(Controlled(if freshTracking && freshTransforms then geometry else None), d.linear, d.angular,
                    if settings.live then d.linear else 0.0, if settings.live then d.angular else 0.0, done);
    }

    method Reset()
      modifies this
      ensures Value() == INITIAL
    {
      ClearTarget();
      accepted, rejected, staleRejected, rebases := 0, 0, 0, 0;
      geometry, transformsReceived, lastPhase, done := None, None, Unset, false;
    }

    method ClearTarget()
      modifies this
      ensures Value() == old(Value()).(target := None, raw := None, received := None, samples := [], outliers := [])
    {
      target, raw, received, samples, outliers := None, None, None, [], [];
    }
  }

  // ----- runs

  datatype Event =
    | Observe(reading: Reading)
    | DoTick(now: real, tracking: bool, blocked: bool, decision: Decision)
    | DoReset

  /** A core, the raw observations its filter has used since the last rebase, and the number of calls since the
      last reset that were not refused as malformed. */
  datatype Track = Track(core: Core, used: seq<Vec>, answered: nat)

  function Used(s: Settings, c: Core, used: seq<Vec>, r: Reading): seq<Vec>
    requires s.Valid()
  {
    if IsStale(s, r) || Malformed(r) then used
    else if Jumps(s, c, r) then
      var o := WithOutlier(s, c, r);
      if Relocated(s, o) then Rebased(s, o).samples else used
    else used + [r.at]
  }

  function Advanced(s: Settings, t: Track, e: Event): Track
    requires s.Valid()
  {
    match e
    case Observe(r) => Track(Observed(s, t.core, r), Used(s, t.core, t.used, r),
                             t.answered + if !IsStale(s, r) && Malformed(r) then 0 else 1)
    case DoTick(now, tracking, blocked, d) => t.(core := Ticked(s, t.core, now, tracking, blocked, d).0)
    case DoReset => Track(INITIAL, [], 0)
  }

  function Tracked(s: Settings, events: seq<Event>): Track
    requires s.Valid()
  {
    if events == [] then Track(INITIAL, [], 0)
    else Advanced(s, Tracked(s, events[..|events| - 1]), events[|events| - 1])
  }

  /** Stamps and geometry agree with the target. */
  ghost predicate Synchronised(s: Settings, c: Core)
  {
    && (c.target.None? <==> c.samples == []) && (c.target.None? <==> c.received.None?)
    && (c.geometry.None? <==> c.transformsReceived.None?)
    && (c.geometry.Some? ==> c.geometry == c.target && c.transformsReceived == c.received)
    && |c.samples| <= s.window && |c.outliers| <= s.rebaseSamples && (c.target.None? ==> c.outliers == [])
  }

  lemma TakenSynchronised(s: Settings, c: Core, r: Reading)
    requires s.Valid() && |c.samples| <= s.window && |c.outliers| <= s.rebaseSamples
    requires !r.transforms ==> c.geometry.None? && c.transformsReceived.None?
    ensures Synchronised(s, Taken(s, c, r))
  {
    hide MedianPoint, BlendPoint;
  }

  lemma ObservedSynchronised(s: Settings, c: Core, r: Reading)
    requires s.Valid() && Synchronised(s, c)
    ensures Synchronised(s, Observed(s, c, r))
  {
    hide Taken, Coherent, Far;
    if !IsStale(s, r) && !Malformed(r) {
      var n := Noted(c, r);
      if Jumps(s, n, r) {
        var o := WithOutlier(s, n, r);
        if Relocated(s, o) { TakenSynchronised(s, Rebased(s, o), r); }
      } else {
        TakenSynchronised(s, if n.target.Some? then n.(outliers := []) else n, r);
      }
    }
  }

  /** In every run: geometry present means that target and transforms carry one receipt stamp and that the
      geometry was derived from the target the core now holds. */
  lemma {:induction false} RunSynchronised(s: Settings, events: seq<Event>)
    requires s.Valid()
    ensures Synchronised(s, Tracked(s, events).core)
  {
    if events != [] {
      var t, e := Tracked(s, events[..|events| - 1]), events[|events| - 1];
      RunSynchronised(s, events[..|events| - 1]);
      hide Observed;
      if e.Observe? { ObservedSynchronised(s, t.core, e.reading); }
    }
  }

  /** After any run, a tick reports missing transforms exactly when a fresh tracked target has no geometry:
      never because the geometry is too old.  Otherwise a fresh target reaches the controller with its own
      geometry. */
  lemma TransformsAreNeverTooOld(s: Settings, events: seq<Event>, now: real, tracking: bool, blocked: bool, d: Decision)
    requires s.Valid()
    ensures var c := Tracked(s, events).core;
            var branch := Ticked(s, c, now, tracking, blocked, d).1.branch;
            && (branch == NoTransforms <==> !c.done && FreshTracking(s, c, now, tracking) && c.geometry.None?)
            && (branch.Controlled? ==> branch.given == if FreshTracking(s, c, now, tracking) then c.target else None)
  {
    RunSynchronised(s, events);
    hide Tracked;
  }

  // ----- the filter stays inside what it has seen

  /** Along one axis, `v` lies between two of the points. */
  ghost predicate Between(key: Vec -> real, v: real, points: seq<Vec>)
  {
    (exists p :: p in points && key(p) <= v) && (exists p :: p in points && v <= key(p))
  }

  ghost predicate InBox(v: Vec, points: seq<Vec>)
  {
    Between(X, v.x, points) && Between(Y, v.y, points) && Between(Z, v.z, points)
  }

  lemma MedianBetween(key: Vec -> real, s: seq<Vec>)
    requires s != []
    ensures Between(key, Median(key, s), s)
  {
    var n := |s|;
    var a := SortedEntry(key, s, n / 2);
    if n % 2 == 0 {
      var b := SortedEntry(key, s, n / 2 - 1);
      SortKeeps(key, s);
      assert key(s[b]) <= Median(key, s) <= key(s[a]);
    }
    assert s[a] in s;
  }

  lemma BlendBetween(key: Vec -> real, alpha: real, a: real, b: real, points: seq<Vec>)
    requires 0.0 < alpha <= 1.0 && Between(key, a, points) && Between(key, b, points)
    ensures Between(key, Blend(alpha, a, b), points)
  {
    var lo, hi := if a <= b then a else b, if a <= b then b else a;
    var step := alpha * (a - b);
    assert Blend(alpha, a, b) == b + step;
    assert (1.0 - alpha) * (a - b) == (a - b) - step;
    PartOf(alpha, a - b, step);
    assert lo <= Blend(alpha, a, b) <= hi;
    var p :| p in points && key(p) <= lo;
    var q :| q in points && hi <= key(q);
  }

  lemma BetweenMore(key: Vec -> real, v: real, points: seq<Vec>, more: seq<Vec>)
    requires Between(key, v, points) && forall p :: p in points ==> p in more
    ensures Between(key, v, more)
  {
    var p :| p in points && key(p) <= v;
    var q :| q in points && v <= key(q);
    assert p in more && q in more;
  }

  lemma BoxMore(v: Vec, points: seq<Vec>, more: seq<Vec>)
    requires InBox(v, points) && forall p :: p in points ==> p in more
    ensures InBox(v, more)
  {
    BetweenMore(X, v.x, points, more);
    BetweenMore(Y, v.y, points, more);
    BetweenMore(Z, v.z, points, more);
  }

  lemma MedianInBox(s: seq<Vec>)
    requires s != []
    ensures InBox(MedianPoint(s), s)
  {
    MedianBetween(X, s);
    MedianBetween(Y, s);
    MedianBetween(Z, s);
    hide Median, Between;
  }

  lemma BlendInBox(alpha: real, a: Vec, b: Vec, points: seq<Vec>)
    requires 0.0 < alpha <= 1.0 && InBox(a, points) && InBox(b, points)
    ensures InBox(BlendPoint(alpha, a, b), points)
  {
    hide Between, Blend;
    BlendBetween(X, alpha, a.x, b.x, points);
    BlendBetween(Y, alpha, a.y, b.y, points);
    BlendBetween(Z, alpha, a.z, b.z, points);
  }

  /** The filter has used every sample it holds, only points in front of the camera, and its target is inside
      their box; held outliers are in front of the camera too. */
  ghost predicate Enclosed(c: Core, used: seq<Vec>)
  {
    && (forall p :: p in c.samples ==> p in used)
    && (forall p :: p in used || p in c.outliers ==> p.z > 0.0)
    && (c.target.Some? ==> InBox(c.target.value, used))
  }

  /** Accepting one observation, where the used points are those before it and, unless the filter was just
      rebased, the observation itself. */
  lemma TakenEnclosed(s: Settings, c: Core, used: seq<Vec>, r: Reading, used': seq<Vec>)
    requires s.Valid() && Enclosed(c, used) && r.at.z > 0.0
    requires used' == if c.target.Some? || c.samples == [] then used + [r.at] else used
    ensures Enclosed(Taken(s, c, r), used')
  {
    hide InBox, MedianPoint, BlendPoint;
    var samples := if c.target.Some? || c.samples == [] then Bounded(c.samples + [r.at], s.window) else c.samples;
    BoundedKeeps(c.samples + [r.at], s.window);
    assert samples == Taken(s, c, r).samples;
    assert forall p :: p in samples ==> p in used';
    var median := MedianPoint(samples);
    MedianInBox(samples);
    BoxMore(median, samples, used');
    if c.target.Some? {
      BoxMore(c.target.value, used, used');
      BlendInBox(s.alpha, median, c.target.value, used');
    }
  }

  lemma ObservedEnclosed(s: Settings, c: Core, used: seq<Vec>, r: Reading)
    requires s.Valid() && Enclosed(c, used) && (c.target.None? ==> c.samples == [])
    ensures Enclosed(Observed(s, c, r), Used(s, c, used, r))
  {
    hide InBox, Coherent, Far, Taken;
    if !IsStale(s, r) && !Malformed(r) {
      var n := Noted(c, r);
      if Jumps(s, n, r) {
        var o := WithOutlier(s, n, r);
        BoundedKeeps(n.outliers + [r.at], s.rebaseSamples);
        assert Enclosed(o, used);
        if Relocated(s, o) {
          var b := Rebased(s, o);
          BoundedKeeps(o.outliers, s.window);
          TakenEnclosed(s, b, b.samples, r, b.samples);
          SameRebase(s, c, r);
        }
      } else {
        var m := if n.target.Some? then n.(outliers := []) else n;
        TakenEnclosed(s, m, used, r, used + [r.at]);
      }
    }
  }

  /** Noting a reading does not touch what decides a rebase. */
  lemma SameRebase(s: Settings, c: Core, r: Reading)
    requires s.Valid()
    ensures Jumps(s, Noted(c, r), r) == Jumps(s, c, r)
    ensures var o, o' := WithOutlier(s, c, r), WithOutlier(s, Noted(c, r), r);
            Relocated(s, o) == Relocated(s, o') && Rebased(s, o).samples == Rebased(s, o').samples
  {
    hide Far, Coherent;
  }

  /** In every run the filtered target lies in the box of the raw observations used since the last rebase, so
      it stays in front of the camera. */
  lemma {:induction false} TargetStaysInBox(s: Settings, events: seq<Event>)
    requires s.Valid()
    ensures var t := Tracked(s, events);
            Enclosed(t.core, t.used) && (t.core.target.Some? ==> t.core.target.value.z > 0.0)
  {
    if events != [] {
      var t, e := Tracked(s, events[..|events| - 1]), events[|events| - 1];
      TargetStaysInBox(s, events[..|events| - 1]);
      RunSynchronised(s, events[..|events| - 1]);
      hide Observed, Used, InBox;
      if e.Observe? { ObservedEnclosed(s, t.core, t.used, e.reading); }
    }
    BoxIsInFront(Tracked(s, events));
  }

  lemma BoxIsInFront(t: Track)
    requires Enclosed(t.core, t.used)
    ensures t.core.target.Some? ==> t.core.target.value.z > 0.0
  {
    if t.core.target.Some? {
      var p :| p in t.used && Z(p) <= t.core.target.value.z;
    }
  }

  // ----- accounting

  lemma ObservedAccounts(s: Settings, c: Core, r: Reading)
    requires s.Valid()
    ensures var c' := Observed(s, c, r);
            && c'.accepted + c'.rejected - c'.rebases
               == c.accepted + c.rejected - c.rebases + (if !IsStale(s, r) && Malformed(r) then 0 else 1)
            && c'.rebases >= c.rebases
  {
    hide MedianPoint, BlendPoint, Coherent, Far, Bounded;
    BoundedKeeps(c.samples + [r.at], s.window);
  }

  /** In every run, accepted plus rejected less rebases is the number of calls since the last reset that were
      not refused as malformed; a stale call counts as rejected. */
  lemma {:induction false} CountersAccount(s: Settings, events: seq<Event>)
    requires s.Valid()
    ensures var t := Tracked(s, events); t.core.accepted + t.core.rejected - t.core.rebases == t.answered
  {
    if events != [] {
      var t, e := Tracked(s, events[..|events| - 1]), events[|events| - 1];
      CountersAccount(s, events[..|events| - 1]);
      hide Observed, Used;
      if e.Observe? { ObservedAccounts(s, t.core, e.reading); }
    }
  }

  // ----- a coherent cluster always takes over

  predicate Readable(s: Settings, r: Reading) { !IsStale(s, r) && !Malformed(r) }

  /** The points of the readings that are not refused. */
  function Points(s: Settings, readings: seq<Reading>): seq<Vec>
  {
    if readings == [] then []
    else
      var r := readings[|readings| - 1];
      Points(s, readings[..|readings| - 1]) + if Readable(s, r) then [r.at] else []
  }

  function ObservedAll(s: Settings, c: Core, readings: seq<Reading>): Core
    requires s.Valid()
  {
    if readings == [] then c
    else Observed(s, ObservedAll(s, c, readings[..|readings| - 1]), readings[|readings| - 1])
  }

  /** Until a rebase, readings that all jump from the target leave it alone and fill the queue of outliers. */
  lemma {:induction false} OutliersQueue(s: Settings, c: Core, readings: seq<Reading>)
    requires s.Valid() && c.target.Some?
    requires forall i :: 0 <= i < |readings| && Readable(s, readings[i]) ==> Far(s, readings[i].at, c.target.value)
    ensures var c' := ObservedAll(s, c, readings);
            c'.rebases > c.rebases
            || (c'.rebases == c.rebases && c'.target == c.target
                && Bounded(c'.outliers, s.rebaseSamples) == Bounded(c.outliers + Points(s, readings), s.rebaseSamples)
                && (Points(s, readings) != [] ==> !Relocated(s, c') && |c'.outliers| <= s.rebaseSamples))
  {
    hide Far, Coherent, Observed, Bounded, Relocated, Readable;
    if readings == [] {
      assert c.outliers + [] == c.outliers;
    } else {
      var k := |readings| - 1;
      var before, r := readings[..k], readings[k];
      OutliersQueue(s, c, before);
      var b := ObservedAll(s, c, before);
      ObservedAccounts(s, b, r);
      if !Readable(s, r) {
        UnreadableKeeps(s, b, r);
        assert Points(s, before) + [] == Points(s, before);
      } else if b.rebases == c.rebases {
        LastOnly(b.outliers, r.at, s.rebaseSamples);
        LastOnly(c.outliers + Points(s, before), r.at, s.rebaseSamples);
        BoundedTwice(b.outliers + [r.at], s.rebaseSamples);
        assert c.outliers + Points(s, before) + [r.at] == c.outliers + Points(s, readings);
        RebaseCounts(s, b, r);
      }
    }
  }

  lemma UnreadableKeeps(s: Settings, c: Core, r: Reading)
    requires s.Valid() && !Readable(s, r)
    ensures var c' := Observed(s, c, r);
            c'.rebases == c.rebases && c'.target == c.target && c'.outliers == c.outliers
            && Relocated(s, c') == Relocated(s, c)
  {
    hide Far, Coherent, Taken;
  }

  /** A jump either rebases or joins the queue. */
  lemma RebaseCounts(s: Settings, c: Core, r: Reading)
    requires s.Valid() && Readable(s, r) && Jumps(s, c, r)
    ensures var c' := Observed(s, c, r);
            c'.rebases == c.rebases + 1
            || (c'.rebases == c.rebases && c'.target == c.target && !Relocated(s, c')
                && c'.outliers == Bounded(c.outliers + [r.at], s.rebaseSamples))
  {
    hide Far, Coherent, MedianPoint, BlendPoint, Bounded;
    BoundedKeeps(c.samples + [r.at], s.window);
  }

  lemma LastOnly(s: seq<Vec>, p: Vec, n: int)
    requires n >= 1
    ensures Bounded(s + [p], n) == Bounded(Bounded(s, n) + [p], n)
  {}

  lemma BoundedTwice(s: seq<Vec>, n: int)
    requires n >= 1
    ensures Bounded(Bounded(s, n), n) == Bounded(s, n) && |Bounded(s, n)| <= n
  {}

  /** Whatever the filter holds: readings of which `rebaseSamples` are not refused, all of them jumping from the
      current target and close enough together, force a rebase. */
  lemma CoherentOutliersRebase(s: Settings, c: Core, readings: seq<Reading>)
    requires s.Valid() && c.target.Some?
    requires forall i :: 0 <= i < |readings| && Readable(s, readings[i]) ==> Far(s, readings[i].at, c.target.value)
    requires |Points(s, readings)| == s.rebaseSamples && Coherent(s, Points(s, readings))
    ensures ObservedAll(s, c, readings).rebases > c.rebases
  {
    var c', points := ObservedAll(s, c, readings), Points(s, readings);
    OutliersQueue(s, c, readings);
    hide ObservedAll, Points, Coherent, Far;
    assert Bounded(c.outliers + points, s.rebaseSamples) == points;
  }
}
