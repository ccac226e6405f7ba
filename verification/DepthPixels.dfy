/** What each stage of the depth filter does to one pixel, on the depths themselves, and what the chain of them does to
    the range of the map. */
module DepthPixels {
  import opened Options
  import opened RealProducts
  import opened Sorting
  import opened DepthGate
  import opened DepthFilter

  // ----- range

  /** The clamp keeps exactly the holes and the depths in range, and makes a hole of every other pixel. */
  lemma ClampKeepsRange(d: Image<nat>, least: int, most: int, i: nat, j: nat)
    requires In(d, i, j)
    ensures In(Clamped(d, least, most), i, j)
    ensures Clamped(d, least, most)[i][j] == if least <= d[i][j] <= most then d[i][j] else 0
  {}

  // ----- the gate

  /** A wide pixel at disparity `far` stands out from `here` by more than any step to `close` explains. */
  predicate StandsOut(far: real, close: real, here: real, gate: Gate)
    requires gate.Allowed() && gate.constant != 0.0
  {
    var gain := gate.radius as real / gate.nearRadius as real;
    far - here > (close - here) * gain + (gate.margin + here * here * ((1.0 + gain) / gate.constant))
  }

  /** The wide pixel `(y, x)` stands out over every pixel of the near window. */
  ghost predicate StandsOutAt(g: Image<real>, i: nat, j: nat, gate: Gate, y: int, x: int)
    requires In(g, i, j) && gate.Allowed() && gate.constant != 0.0
  {
    && Within(g, i, j, gate.radius, y, x)
    && forall y', x' :: Within(g, i, j, gate.nearRadius, y', x') ==> StandsOut(g[y][x], g[y'][x'], g[i][j], gate)
  }

  /** On every disparity map the gate fires at a pixel exactly if some pixel of the wide window stands out over all of
      the near one. */
  lemma FiresIff(g: Image<real>, i: nat, j: nat, gate: Gate)
    requires Rect(g) && In(g, i, j) && gate.Allowed() && gate.constant != 0.0
    ensures Fires(g, i, j, gate) <==> exists y, x :: StandsOutAt(g, i, j, gate, y, x)
  {
    hide WindowMax, StandsOut;
    var wy, wx := Greatest(g, i, j, gate.radius);
    var ny, nx := Greatest(g, i, j, gate.nearRadius);
    var wide, near, here := WindowMax(g, i, j, gate.radius), WindowMax(g, i, j, gate.nearRadius), g[i][j];
    FiresAtWidest(g, i, j, gate);
    hide Fires;
    if Fires(g, i, j, gate) {
      forall y', x' | Within(g, i, j, gate.nearRadius, y', x') ensures StandsOut(g[wy][wx], g[y'][x'], here, gate) {
        WindowBound(g, i, j, gate.nearRadius, y', x');
        StandsOutMore(wide, near, wide, g[y'][x'], here, gate);
      }
      assert StandsOutAt(g, i, j, gate, wy, wx);
    }
    if y, x :| StandsOutAt(g, i, j, gate, y, x) {
      WindowBound(g, i, j, gate.radius, y, x);
      assert StandsOut(g[y][x], g[ny][nx], here, gate);
      StandsOutMore(g[y][x], near, wide, near, here, gate);
    }
  }

  lemma FiresAtWidest(g: Image<real>, i: nat, j: nat, gate: Gate)
    requires Rect(g) && In(g, i, j) && gate.Allowed() && gate.constant != 0.0
    ensures Fires(g, i, j, gate) <==>
            StandsOut(WindowMax(g, i, j, gate.radius), WindowMax(g, i, j, gate.nearRadius), g[i][j], gate)
  {
    hide WindowMax;
  }

  lemma StandsOutMore(far: real, close: real, farther: real, closer: real, here: real, gate: Gate)
    requires gate.Allowed() && gate.constant != 0.0 && StandsOut(far, close, here, gate)
    requires far <= farther && closer <= close
    ensures StandsOut(farther, closer, here, gate)
  {
    var gain := gate.radius as real / gate.nearRadius as real;
    var slack := gate.margin + here * here * ((1.0 + gain) / gate.constant);
    assert gain >= 0.0 by { GainIsLarge(gate); }
    assert Exceeds(far - here, close - here, gain, slack);
    StillExceeds(far - here, farther - here, close - here, closer - here, gain, slack);
  }

  /** On a depth map: a valid pixel is dropped exactly if, in disparity, some wide pixel stands out over all near ones.
      A hole has disparity 0. */
  lemma GateDropsIff(d: Image<nat>, gate: Gate, i: nat, j: nat)
    requires Rect(d) && In(d, i, j) && gate.Allowed() && gate.constant != 0.0
    ensures var r, g := Gated(d, gate), Disparity(d, gate.constant);
            && In(r, i, j) && In(g, i, j)
            && (d[i][j] != 0 ==> g[i][j] * d[i][j] as real == gate.constant)
            && (d[i][j] == 0 ==> g[i][j] == 0.0)
            && r[i][j] == if d[i][j] > 0 && exists y, x :: StandsOutAt(g, i, j, gate, y, x) then 0 else d[i][j]
  {
    hide Fires;
    FiresIff(Disparity(d, gate.constant), i, j, gate);
  }

  // ----- the median

  /** The offsets of the window, with the border pixels repeated, at which the depth is below `v`. */
  ghost function Lower(d: Image<nat>, i: nat, j: nat, r: nat, v: nat): set<(int, int)>
    requires Rect(d) && In(d, i, j)
  {
    var k: int := r;
    set dy: int, dx: int | -k <= dy <= k && -k <= dx <= k && Padded(d, i, j, i + dy, j + dx) < v :: (dy, dx)
  }

  ghost function Higher(d: Image<nat>, i: nat, j: nat, r: nat, v: nat): set<(int, int)>
    requires Rect(d) && In(d, i, j)
  {
    var k: int := r;
    set dy: int, dx: int | -k <= dy <= k && -k <= dx <= k && Padded(d, i, j, i + dy, j + dx) > v :: (dy, dx)
  }

  predicate InSquare(r: int, dy: int, dx: int) { -r <= dy <= r && -r <= dx <= r }

  /** The image continued beyond its border by the pixels on the border. */
  function Padded(d: Image<nat>, i: nat, j: nat, y: int, x: int): nat
    requires Rect(d) && In(d, i, j)
  {
    var n, m := |d|, |d[i]|;
    var row := if y < 0 then 0 else if y < n then y else n - 1;
    d[row][if x < 0 then 0 else if x < m then x else m - 1]
  }

  /** `v` is a depth of the window, and fewer than half of its entries lie below it and fewer than half above. */
  ghost predicate Middle(d: Image<nat>, i: nat, j: nat, r: nat, v: nat)
    requires Rect(d) && In(d, i, j)
  {
    && (exists y, x :: Within(d, i, j, r, y, x) && d[y][x] == v)
    && 2 * |Lower(d, i, j, r, v)| < (2 * r + 1) * (2 * r + 1)
    && 2 * |Higher(d, i, j, r, v)| < (2 * r + 1) * (2 * r + 1)
  }

  lemma {:induction false} ImageSize<A, B>(s: set<A>, f: A -> B, image: set<B>)
    requires forall y :: y in image ==> exists x :: x in s && f(x) == y
    ensures |image| <= |s|
  {
    if s == {} {
      assert image == {};
    } else {
      var a :| a in s;
      var rest := image - {f(a)};
      forall y | y in rest ensures exists x :: x in s - {a} && f(x) == y {
        var x :| x in s && f(x) == y;
        assert x in s - {a};
      }
      ImageSize(s - {a}, f, rest);
      assert image <= rest + {f(a)};
    }
  }

  /** The offset that position `t` of a window of side `n` stands for. */
  function Offset(t: int, n: int, r: int): (int, int)
    requires n > 0
  {
    (t / n - r, t % n - r)
  }

  lemma OffsetOf(r: nat, dy: int, dx: int) returns (t: nat)
    requires 1 <= r <= 2 && InSquare(r, dy, dx)
    ensures var n := 2 * r + 1; t < n * n && Offset(t, n, r) == (dy, dx)
  {
    if r == 1 {
      t := 3 * (dy + 1) + dx + 1;
    } else {
      t := 5 * (dy + 2) + dx + 2;
    }
  }

  lemma EntryAt(d: Image<nat>, i: nat, j: nat, r: nat, t: nat)
    requires Rect(d) && In(d, i, j) && 1 <= r <= 2 && t < (2 * r + 1) * (2 * r + 1)
    ensures var (dy, dx) := Offset(t, 2 * r + 1, r);
            InSquare(r, dy, dx) && Replicated(d, i, j, r)[t] == Padded(d, i, j, i + dy, j + dx)
  {
    Quotient(t, 2 * r + 1);
  }

  /** Offsets whose positions all lie in `places` are no more than those. */
  lemma OffsetsAtMost(r: nat, places: set<nat>, offsets: set<(int, int)>)
    requires 1 <= r <= 2
    requires forall o :: o in offsets ==> InSquare(r, o.0, o.1)
    requires forall t: nat :: t < (2 * r + 1) * (2 * r + 1) && Offset(t, 2 * r + 1, r) in offsets ==> t in places
    ensures |offsets| <= |places|
  {
    var n := 2 * r + 1;
    var place: nat -> (int, int) := t => Offset(t, n, r);
    forall o | o in offsets ensures exists t :: t in places && place(t) == o {
      var t := OffsetOf(r, o.0, o.1);
      assert t in places && place(t) == o;
    }
    ImageSize(places, place, offsets);
  }

  lemma MedianIsMiddle(d: Image<nat>, i: nat, j: nat, r: nat)
    requires Rect(d) && In(d, i, j) && 1 <= r <= 2
    ensures Middle(d, i, j, r, Median(d, i, j, r))
  {
    hide Median, Replicated, Below, Above, Lower, Higher;
    var s, v := Replicated(d, i, j, r), Median(d, i, j, r);
    var y, x := MedianIsInWindow(d, i, j, r);
    MedianRank(d, i, j, r);
    LowerAtMost(d, i, j, r, v);
    HigherAtMost(d, i, j, r, v);
  }

  lemma LowerAtMost(d: Image<nat>, i: nat, j: nat, r: nat, v: nat)
    requires Rect(d) && In(d, i, j) && 1 <= r <= 2
    ensures |Lower(d, i, j, r, v)| <= Below(Millimetres, Replicated(d, i, j, r), v as real)
  {
    hide Replicated, Padded, Below, Offset;
    var s := Replicated(d, i, j, r);
    var places, rest := RankPlaces(Millimetres, s, v as real);
    forall t: nat | t < (2 * r + 1) * (2 * r + 1) && Offset(t, 2 * r + 1, r) in Lower(d, i, j, r, v)
      ensures t in places
    {
      EntryAt(d, i, j, r, t);
    }
    OffsetsAtMost(r, places, Lower(d, i, j, r, v));
  }

  lemma HigherAtMost(d: Image<nat>, i: nat, j: nat, r: nat, v: nat)
    requires Rect(d) && In(d, i, j) && 1 <= r <= 2
    ensures |Higher(d, i, j, r, v)| <= Above(Millimetres, Replicated(d, i, j, r), v as real)
  {
    hide Replicated, Padded, Above, Offset;
    var s := Replicated(d, i, j, r);
    var rest, places := RankPlaces(Millimetres, s, v as real);
    forall t: nat | t < (2 * r + 1) * (2 * r + 1) && Offset(t, 2 * r + 1, r) in Higher(d, i, j, r, v)
      ensures t in places
    {
      EntryAt(d, i, j, r, t);
    }
    OffsetsAtMost(r, places, Higher(d, i, j, r, v));
  }

  lemma MedianRank(d: Image<nat>, i: nat, j: nat, r: nat)
    requires Rect(d) && In(d, i, j) && 1 <= r <= 2
    ensures var s, v := Replicated(d, i, j, r), Median(d, i, j, r) as real;
            && 2 * Below(Millimetres, s, v) < (2 * r + 1) * (2 * r + 1)
            && 2 * Above(Millimetres, s, v) < (2 * r + 1) * (2 * r + 1)
  {
    hide Sort, Below, Above, Replicated, Median;
    var s, v := Replicated(d, i, j, r), Median(d, i, j, r);
    var n := WindowSize(r);
    MedianAt(d, i, j, r);
    SortedRank(Millimetres, s, n / 2, v as real);
    SortedRank(Millimetres, s, n / 2 + 1, v as real);
  }

  lemma WindowSize(r: nat) returns (n: nat)
    requires 1 <= r <= 2
    ensures n == (2 * r + 1) * (2 * r + 1) && n % 2 == 1
  {
    n := if r == 1 then 9 else 25;
  }

  lemma MedianAt(d: Image<nat>, i: nat, j: nat, r: nat)
    requires Rect(d) && In(d, i, j) && 1 <= r <= 2
    ensures var s := Replicated(d, i, j, r);
            |Sort(Millimetres, s)| == |s| > 0 && Median(d, i, j, r) == Sort(Millimetres, s)[|s| / 2]
  {
    hide Sort, Replicated;
    SortKeeps(Millimetres, Replicated(d, i, j, r));
    var n := WindowSize(r);
  }

  /** Smoothing puts the middle of the large window where that has no hole, else of the 3x3 window where that has none
      and the large one is not it, and leaves every other pixel alone. */
  lemma SmoothingTakesMiddle(d: Image<nat>, ksize: int, i: nat, j: nat)
    requires Rect(d) && In(d, i, j)
    ensures In(Smoothed(d, ksize), i, j)
    ensures var r: nat := if ksize >= 5 then 2 else 1;
            var v := Smoothed(d, ksize)[i][j];
            if NoHole(d, 0, i, j, r) then Middle(d, i, j, r, v)
            else if NoHole(d, 0, i, j, 1) then Middle(d, i, j, 1, v)
            else v == d[i][j]
  {
    hide Median, Middle;
    MedianIsMiddle(d, i, j, 1);
    MedianIsMiddle(d, i, j, 2);
    WholeIsNoHole(d, i, j, 1);
    WholeIsNoHole(d, i, j, 2);
  }

  lemma WholeIsNoHole(d: Image<nat>, i: nat, j: nat, r: nat)
    ensures Whole(d, i, j, r) <==> NoHole(d, 0, i, j, r)
  {}

  // ----- the temporal blend

  /** Where both maps are valid and differ by no more than the threshold, the result is the weighted mean cut to whole
      millimetres; everywhere else it is the current depth. */
  lemma BlendIsWeighted(prev: Image<nat>, d: Image<nat>, alpha: real, change: int, i: nat, j: nat)
    requires SameShape(prev, d) && In(d, i, j) && 0.0 <= alpha <= 1.0
    requires prev[i][j] <= UINT16_MAX && d[i][j] <= UINT16_MAX
    ensures In(Blended(Some(prev), d, alpha, change), i, j)
    ensures var p, c, v := prev[i][j], d[i][j], Blended(Some(prev), d, alpha, change)[i][j];
            if p > 0 && c > 0 && c - p <= change && p - c <= change then
              v as real <= p as real + alpha * (c as real - p as real) < v as real + 1.0
            else v == c
  {
    var p, c := prev[i][j], d[i][j];
    hide Mix, Trunc;
    if Static(p, c, change) {
      MixIsMean(alpha, c, p);
      MixBetween(alpha, c, p);
      var x := Mix(alpha, c, p);
      if p <= c { TruncBetween(x, p, c); } else { TruncBetween(x, c, p); }
      TruncBelow(x);
    }
  }

  lemma MixIsMean(alpha: real, c: nat, p: nat)
    ensures Mix(alpha, c, p) == p as real + alpha * (c as real - p as real)
  {}

  lemma TruncBelow(x: real)
    requires x >= 0.0
    ensures Trunc(x) as real <= x < Trunc(x) as real + 1.0
  {}

  // ----- the chain

  /** The stages run in this order, each on the result of the one before it. */
  lemma ChainOrder(cfg: Config, d: Image<nat>, prev: Option<Image<nat>>, kept: (int, int) -> bool)
    requires Rect(d) && !cfg.EdgeFails()
    ensures var clamped := if cfg.clamp then Clamped(d, cfg.least, cfg.most) else d;
            Rect(clamped)
            && var carved := if !cfg.edge then clamped
                             else if cfg.gradMode then Ungraded(clamped, cfg.maxGrad)
                             else Gated(clamped, Gate(cfg.radius, cfg.nearRadius, cfg.margin, cfg.constant));
               var mopped := if cfg.speckle then Despeckled(carved, cfg.constant, kept) else carved;
               Rect(mopped)
               && var smooth := if cfg.median then Smoothed(mopped, cfg.ksize) else mopped;
                  var last := if prev.Some? && SameShape(prev.value, smooth) then prev else None;
                  Chain(cfg, 5, d, prev, kept).image
                  == if cfg.temporal then Blended(last, smooth, cfg.alpha, cfg.change) else smooth
  {
    hide Count, Clamped, Ungraded, Gated, Despeckled, Smoothed, Blended, SameShape;
    assert Chain(cfg, 1, d, prev, kept) ==
           Stepped(Chain(cfg, 0, d, prev, kept), cfg.clamp, "clamp", Clamped(d, cfg.least, cfg.most));
    var a := Chain(cfg, 1, d, prev, kept).image;
    assert Chain(cfg, 2, d, prev, kept).image == EdgeStage(cfg, a);
    var b := Chain(cfg, 2, d, prev, kept).image;
    assert Chain(cfg, 3, d, prev, kept).image == if cfg.speckle then Despeckled(b, cfg.constant, kept) else b;
    var c := Chain(cfg, 3, d, prev, kept).image;
    assert Chain(cfg, 4, d, prev, kept).image == if cfg.median then Smoothed(c, cfg.ksize) else c;
  }

  /** Every valid depth lies in the range. */
  ghost predicate Ranged(d: Image<nat>, least: int, most: int)
  {
    forall i, j :: In(d, i, j) && d[i][j] != 0 ==> least <= d[i][j] <= most
  }

  lemma StageKeepsRange(cfg: Config, k: nat, d: Image<nat>, prev: Option<Image<nat>>, kept: (int, int) -> bool)
    requires k < 5 && Rect(d) && !cfg.EdgeFails() && 0.0 <= cfg.alpha <= 1.0 && cfg.most <= UINT16_MAX
    requires k > 0 ==> Ranged(d, cfg.least, cfg.most)
    requires prev.Some? ==> Ranged(prev.value, cfg.least, cfg.most)
    ensures Ranged(Stage(cfg, k, d, prev, kept), cfg.least, cfg.most)
  {
    if k == 0 {
      ClampRanges(d, cfg.least, cfg.most);
    } else if k == 3 {
      MedianRanges(d, cfg.ksize, cfg.least, cfg.most);
    } else if k == 4 {
      BlendRanges(if prev.Some? && SameShape(prev.value, d) then prev else None, d, cfg);
    } else {
      CutRanges(cfg, k, d, prev, kept);
    }
    hide *;
  }

  lemma ClampRanges(d: Image<nat>, least: int, most: int)
    ensures Ranged(Clamped(d, least, most), least, most)
  {
    var r := Clamped(d, least, most);
    forall i, j | In(r, i, j) && r[i][j] != 0 ensures least <= r[i][j] <= most { assert In(d, i, j); }
  }

  lemma CutRanges(cfg: Config, k: nat, d: Image<nat>, prev: Option<Image<nat>>, kept: (int, int) -> bool)
    requires 1 <= k <= 2 && Rect(d) && !cfg.EdgeFails() && Ranged(d, cfg.least, cfg.most)
    ensures Ranged(Stage(cfg, k, d, prev, kept), cfg.least, cfg.most)
  {
    hide Fires, Spread, FixedPoint;
    var r := Stage(cfg, k, d, prev, kept);
    forall i, j | In(r, i, j) && r[i][j] != 0 ensures cfg.least <= r[i][j] <= cfg.most {
      assert In(d, i, j) && r[i][j] == d[i][j];
    }
  }

  lemma MedianRanges(d: Image<nat>, ksize: int, least: int, most: int)
    requires Rect(d) && Ranged(d, least, most)
    ensures Ranged(Smoothed(d, ksize), least, most)
  {
    var r := Smoothed(d, ksize);
    forall i, j | In(r, i, j) && r[i][j] != 0 ensures least <= r[i][j] <= most {
      assert In(d, i, j);
      if r[i][j] != d[i][j] {
        var k, y, x := SmoothingStaysInWindow(d, ksize, i, j);
        assert In(d, y, x);
      }
    }
  }

  lemma BlendRanges(prev: Option<Image<nat>>, d: Image<nat>, cfg: Config)
    requires prev.Some? ==> SameShape(prev.value, d) && Ranged(prev.value, cfg.least, cfg.most)
    requires Ranged(d, cfg.least, cfg.most) && 0.0 <= cfg.alpha <= 1.0 && cfg.most <= UINT16_MAX
    ensures Ranged(Blended(prev, d, cfg.alpha, cfg.change), cfg.least, cfg.most)
  {
    var r := Blended(prev, d, cfg.alpha, cfg.change);
    hide BlendedPixel;
    forall i, j | In(r, i, j) && r[i][j] != 0 ensures cfg.least <= r[i][j] <= cfg.most {
      assert In(d, i, j);
      if prev.Some? {
        assert In(prev.value, i, j);
        BlendInRange(prev.value[i][j], d[i][j], cfg);
      }
    }
  }

  lemma BlendInRange(p: nat, c: nat, cfg: Config)
    requires p != 0 ==> cfg.least <= p <= cfg.most
    requires c != 0 ==> cfg.least <= c <= cfg.most
    requires 0.0 <= cfg.alpha <= 1.0 && cfg.most <= UINT16_MAX
    ensures var v := BlendedPixel(p, c, cfg.alpha, cfg.change); v != 0 ==> cfg.least <= v <= cfg.most
  {
    hide Trunc, Mix;
    if Static(p, c, cfg.change) { BlendIsBetween(p, c, cfg.alpha, cfg.change); }
  }

  /** With the clamp on, every valid depth that comes out of the filter is in range, for any settings of the other
      stages, provided the previous map's are. */
  lemma {:induction false} ChainStaysInRange(cfg: Config, n: nat, d: Image<nat>, prev: Option<Image<nat>>,
                                             kept: (int, int) -> bool)
    requires 1 <= n <= 5 && Rect(d) && !cfg.EdgeFails() && cfg.clamp
    requires 0.0 <= cfg.alpha <= 1.0 && cfg.most <= UINT16_MAX
    requires prev.Some? ==> Ranged(prev.value, cfg.least, cfg.most)
    ensures Ranged(Chain(cfg, n, d, prev, kept).image, cfg.least, cfg.most)
  {
    hide Stage, Ranged, Count, Rect;
    if n > 1 { ChainStaysInRange(cfg, n - 1, d, prev, kept); }
    StageKeepsRange(cfg, n - 1, Chain(cfg, n - 1, d, prev, kept).image, prev, kept);
  }
}
