/** The stages of the depth filter and the chain that runs them.

    A depth map is a grid of millimetres in which 0 marks a hole.  The stages work on two-dimensional
    arrays: each copies its input and then writes the copy under a mask.  Each is proved against a function
    on grids.  The connected-component filter of the speckle stage is a parameter: it keeps any set of
    pixels.  Arithmetic is exact. */
module DepthFilter {
  import opened Options
  import opened RealProducts
  import opened DepthGate
  import opened Sorting

  // ----- grids and arrays

  predicate SameShape<S, T>(a: Image<S>, b: Image<T>)
  {
    |a| == |b| && forall i :: 0 <= i < |a| ==> |a[i]| == |b[i]|
  }

  /** Every valid pixel of `b` is valid in `a`. */
  ghost predicate MaskShrinks(a: Image<nat>, b: Image<nat>)
  {
    SameShape(a, b) && forall i, j :: In(b, i, j) && b[i][j] != 0 ==> a[i][j] != 0
  }

  ghost predicate MaskKept(a: Image<nat>, b: Image<nat>)
  {
    SameShape(a, b) && forall i, j :: In(b, i, j) ==> (b[i][j] != 0 <==> a[i][j] != 0)
  }

  function Rows<T>(a: array2<T>): (g: Image<T>)
    reads a
    ensures Rect(g) && |g| == a.Length0 && forall i :: 0 <= i < |g| ==> |g[i]| == a.Length1
    ensures forall i, j :: In(g, i, j) ==> g[i][j] == a[i, j]
  {
    seq(a.Length0, i requires 0 <= i < a.Length0 reads a =>
      seq(a.Length1, j requires 0 <= j < a.Length1 reads a => a[i, j]))
  }

  lemma SameImage<T>(a: Image<T>, b: Image<T>)
    requires SameShape(a, b) && forall i, j :: In(a, i, j) ==> a[i][j] == b[i][j]
    ensures a == b
  {
    forall i | 0 <= i < |a| ensures a[i] == b[i] {
      forall j | 0 <= j < |a[i]| ensures a[i][j] == b[i][j] { assert In(a, i, j); }
    }
  }

  function RowCount(row: seq<nat>): nat
  {
    if row == [] then 0 else RowCount(row[..|row| - 1]) + if row[|row| - 1] != 0 then 1 else 0
  }

  /** The number of valid pixels. */
  function Count(d: Image<nat>): nat
  {
    if d == [] then 0 else Count(d[..|d| - 1]) + RowCount(d[|d| - 1])
  }

  lemma {:induction false} RowCountShrinks(a: seq<nat>, b: seq<nat>)
    requires |a| == |b| && forall j :: 0 <= j < |a| ==> b[j] != 0 ==> a[j] != 0
    ensures RowCount(b) <= RowCount(a)
  {
    if a != [] {
      var n := |a| - 1;
      forall j | 0 <= j < n ensures b[..n][j] != 0 ==> a[..n][j] != 0 { assert a[..n][j] == a[j] && b[..n][j] == b[j]; }
      RowCountShrinks(a[..n], b[..n]);
    }
  }

  lemma {:induction false} CountShrinks(a: Image<nat>, b: Image<nat>)
    requires MaskShrinks(a, b)
    ensures Count(b) <= Count(a)
  {
    if a != [] {
      var n := |a| - 1;
      forall j | 0 <= j < |a[n]| ensures b[n][j] != 0 ==> a[n][j] != 0 { assert In(b, n, j); }
      RowCountShrinks(a[n], b[n]);
      forall i, j | In(b[..n], i, j) && b[..n][i][j] != 0 ensures a[..n][i][j] != 0 { assert In(b, i, j); }
      CountShrinks(a[..n], b[..n]);
    }
  }

  lemma CountKept(a: Image<nat>, b: Image<nat>)
    requires MaskKept(a, b)
    ensures Count(b) == Count(a)
  {
    CountShrinks(a, b);
    CountShrinks(b, a);
  }

  // ----- what each stage computes

  function ClampedPixel(m: nat, least: int, most: int): nat
  {
    if m > 0 && (m < least || m > most) then 0 else m
  }

  function Clamped(d: Image<nat>, least: int, most: int): (r: Image<nat>)
    ensures SameShape(d, r) && forall i, j :: In(d, i, j) ==> r[i][j] == ClampedPixel(d[i][j], least, most)
  {
    seq(|d|, i requires 0 <= i < |d| => seq(|d[i]|, j requires 0 <= j < |d[i]| => ClampedPixel(d[i][j], least, most)))
  }

  function Gated(d: Image<nat>, gate: Gate): (r: Image<nat>)
    requires Rect(d) && gate.Allowed() && gate.constant != 0.0
    ensures SameShape(d, r)
    ensures var g := Disparity(d, gate.constant);
            forall i, j :: In(d, i, j) ==> r[i][j] == if d[i][j] > 0 && Fires(g, i, j, gate) then 0 else d[i][j]
  {
    var g := Disparity(d, gate.constant);
    seq(|d|, i requires 0 <= i < |d| => seq(|d[i]|, j requires 0 <= j < |d[i]| =>
      if d[i][j] > 0 && Fires(g, i, j, gate) then 0 else d[i][j]))
  }

  /** Depths with holes read as `hole`, for the morphology of the gradient gate. */
  function Filled(d: Image<nat>, hole: real, sign: real): (r: Image<real>)
    ensures SameShape(d, r) && forall i, j :: In(d, i, j) ==>
        r[i][j] == sign * if d[i][j] > 0 then d[i][j] as real else hole
  {
    seq(|d|, i requires 0 <= i < |d| => seq(|d[i]|, j requires 0 <= j < |d[i]| =>
      sign * if d[i][j] > 0 then d[i][j] as real else hole))
  }

  /** Greatest minus least over the 3x3 window; eroding is dilating the negated map. */
  function Spread(d: Image<nat>, i: nat, j: nat): real
    requires Rect(d) && In(d, i, j)
  {
    WindowMax(Filled(d, 0.0, 1.0), i, j, 1) + WindowMax(Filled(d, 1000000.0, -1.0), i, j, 1)
  }

  function Ungraded(d: Image<nat>, grad: real): (r: Image<nat>)
    requires Rect(d)
    ensures SameShape(d, r)
    ensures forall i, j :: In(d, i, j) ==> r[i][j] == if d[i][j] > 0 && Spread(d, i, j) > grad then 0 else d[i][j]
  {
    seq(|d|, i requires 0 <= i < |d| => seq(|d[i]|, j requires 0 <= j < |d[i]| =>
      if d[i][j] > 0 && Spread(d, i, j) > grad then 0 else d[i][j]))
  }

  const FIXED_SCALE: real := 128.0
  const FIXED_MIN_MM: nat := 100
  const INT16_MAX: int := 32767

  /** Truncation toward zero. */
  function Trunc(x: real): int { if x >= 0.0 then x.Floor else -((-x).Floor) }

  function Clip(x: real, lo: real, hi: real): real { if x < lo then lo else if x > hi then hi else x }

  /** The 16-bit value the component filter sees; a zero constant selects the millimetre path. */
  function FixedPoint(m: nat, constant: real): int
  {
    if constant == 0.0 then Trunc(Clip(m as real, 0.0, INT16_MAX as real))
    else if m >= FIXED_MIN_MM then Trunc(Clip(PixelDisparity(m, constant) * FIXED_SCALE, 0.0, INT16_MAX as real))
    else 0
  }

  function DespeckledPixel(m: nat, constant: real, kept: bool): nat
  {
    if FixedPoint(m, constant) == 0 || !kept then 0 else m
  }

  function Despeckled(d: Image<nat>, constant: real, kept: (int, int) -> bool): (r: Image<nat>)
    ensures SameShape(d, r) && forall i, j :: In(d, i, j) ==> r[i][j] == DespeckledPixel(d[i][j], constant, kept(i, j))
  {
    seq(|d|, i requires 0 <= i < |d| => seq<nat>(|d[i]|, j requires 0 <= j < |d[i]| =>
      DespeckledPixel(d[i][j], constant, kept(i, j))))
  }

  predicate Whole(d: Image<nat>, i: int, j: int, r: nat)
  {
    forall y, x | 0 <= y < |d| && 0 <= x < |d[y]| && Within(d, i, j, r, y, x) :: d[y][x] != 0
  }

  function Millimetres(m: nat): real { m as real }

  function Edge(i: int, n: nat): int { if i < 0 then 0 else if i >= n then n - 1 else i }

  /** The square window with the border pixels repeated. */
  function Replicated(d: Image<nat>, i: nat, j: nat, r: nat): (s: seq<nat>)
    requires Rect(d) && In(d, i, j)
    ensures |s| == (2 * r + 1) * (2 * r + 1)
  {
    var n := 2 * r + 1;
    seq(n * n, t requires 0 <= t < n * n => d[Edge(i - r + t / n, |d|)][Edge(j - r + t % n, |d[i]|)])
  }

  function Median(d: Image<nat>, i: nat, j: nat, r: nat): nat
    requires Rect(d) && In(d, i, j) && 1 <= r <= 2
  {
    var s := Sort(Millimetres, Replicated(d, i, j, r));
    SortKeeps(Millimetres, Replicated(d, i, j, r));
    s[|s| / 2]
  }

  function Large(ksize: int): nat { if ksize >= 5 then 2 else 1 }

  function SmoothedPixel(d: Image<nat>, i: nat, j: nat, ksize: int): nat
    requires Rect(d) && In(d, i, j)
  {
    if Whole(d, i, j, Large(ksize)) then Median(d, i, j, Large(ksize))
    else if ksize >= 5 && Whole(d, i, j, 1) then Median(d, i, j, 1)
    else d[i][j]
  }

  function Smoothed(d: Image<nat>, ksize: int): (r: Image<nat>)
    requires Rect(d)
    ensures SameShape(d, r) && forall i, j :: In(d, i, j) ==> r[i][j] == SmoothedPixel(d, i, j, ksize)
  {
    seq(|d|, i requires 0 <= i < |d| => seq(|d[i]|, j requires 0 <= j < |d[i]| => SmoothedPixel(d, i, j, ksize)))
  }

  const UINT16_MAX: nat := 65535

  predicate Static(p: nat, c: nat, change: int)
  {
    p > 0 && c > 0 && -change <= c - p <= change
  }

  function Mix(alpha: real, c: nat, p: nat): real { alpha * c as real + (1.0 - alpha) * p as real }

  function BlendedPixel(p: nat, c: nat, alpha: real, change: int): nat
  {
    var v := if Static(p, c, change) then Trunc(Mix(alpha, c, p)) else c;
    if v < 0 then 0 else if v > UINT16_MAX then UINT16_MAX else v
  }

  function Blended(prev: Option<Image<nat>>, d: Image<nat>, alpha: real, change: int): (r: Image<nat>)
    requires prev.Some? ==> SameShape(prev.value, d)
    ensures SameShape(d, r)
    ensures prev.None? ==> r == d
    ensures prev.Some? ==> forall i, j :: In(d, i, j) ==>
        r[i][j] == BlendedPixel(prev.value[i][j], d[i][j], alpha, change)
  {
    if prev.None? then d else
    seq(|d|, i requires 0 <= i < |d| => seq(|d[i]|, j requires 0 <= j < |d[i]| =>
      BlendedPixel(prev.value[i][j], d[i][j], alpha, change)))
  }

  // ----- what the stages mean

  /** The median of a window is one of its pixels. */
  lemma MedianIsInWindow(d: Image<nat>, i: nat, j: nat, r: nat) returns (y: int, x: int)
    requires Rect(d) && In(d, i, j) && 1 <= r <= 2
    ensures Within(d, i, j, r, y, x) && Median(d, i, j, r) == d[y][x]
  {
    var s := Replicated(d, i, j, r);
    var t := SortedEntry(Millimetres, s, |s| / 2);
    hide Sort;
    y, x := ReplicatedPixel(d, i, j, r, t);
  }

  lemma ReplicatedPixel(d: Image<nat>, i: nat, j: nat, r: nat, t: nat) returns (y: int, x: int)
    requires Rect(d) && In(d, i, j) && t < (2 * r + 1) * (2 * r + 1)
    ensures Within(d, i, j, r, y, x) && Replicated(d, i, j, r)[t] == d[y][x]
  {
    var n := 2 * r + 1;
    Quotient(t, n);
    y, x := Edge(i - r + t / n, |d|), Edge(j - r + t % n, |d[i]|);
  }

  lemma Quotient(t: nat, n: nat)
    requires n >= 1 && t < n * n
    ensures 0 <= t / n < n && 0 <= t % n < n
  {}

  /** Smoothing neither fills a hole nor makes one. */
  lemma SmoothingKeepsMask(d: Image<nat>, ksize: int)
    requires Rect(d)
    ensures MaskKept(d, Smoothed(d, ksize))
  {
    var s := Smoothed(d, ksize);
    forall i, j | In(s, i, j) ensures s[i][j] != 0 <==> d[i][j] != 0 {
      var r := Large(ksize);
      assert Within(d, i, j, 1, i, j) && Within(d, i, j, r, i, j);
      if Whole(d, i, j, r) { var y, x := MedianIsInWindow(d, i, j, r); }
      else if ksize >= 5 && Whole(d, i, j, 1) { var y, x := MedianIsInWindow(d, i, j, 1); }
    }
  }

  /** A pixel that smoothing changes lies in a window without holes and gets a depth found in that window,
      hence one between the least and the greatest there. */
  lemma SmoothingStaysInWindow(d: Image<nat>, ksize: int, i: nat, j: nat) returns (r: nat, y: int, x: int)
    requires Rect(d) && In(d, i, j) && Smoothed(d, ksize)[i][j] != d[i][j]
    ensures 1 <= r <= 2 && Whole(d, i, j, r) && Within(d, i, j, r, y, x) && Smoothed(d, ksize)[i][j] == d[y][x]
  {
    r := if Whole(d, i, j, Large(ksize)) then Large(ksize) else 1;
    y, x := MedianIsInWindow(d, i, j, r);
  }

  /** For every constant: the speckle stage drops a valid pixel exactly when the component filter does or, with a
      constant set, when it lies under the floor or so far that its disparity rounds to 0; and short of that the
      fixed-point value is the truncated one exactly until it saturates. */
  lemma SpeckleDropsExactly(m: nat, constant: real, kept: bool)
    requires m > 0
    ensures DespeckledPixel(m, constant, kept) == 0 <==>
            !kept || (constant != 0.0 && (m < FIXED_MIN_MM || m as real > FIXED_SCALE * constant))
    ensures constant > 0.0 && m >= FIXED_MIN_MM ==>
              (FixedPoint(m, constant) == Trunc(PixelDisparity(m, constant) * FIXED_SCALE)
               <==> FIXED_SCALE * constant < (INT16_MAX + 1) as real * m as real)
  {
    if constant != 0.0 && m >= FIXED_MIN_MM {
      var n, scaled := m as real, FIXED_SCALE * constant;
      var v := constant / n * FIXED_SCALE;
      assert v * n == scaled;
      QuotientSide(v, n, scaled, 1.0);
      QuotientSide(v, n, scaled, 32768.0);
      QuotientSide(v, n, scaled, 0.0);
      assert PixelDisparity(m, constant) * FIXED_SCALE == v;
      TruncatedClip(v);
    }
  }

  /** On which side of `bound` a quotient lies. */
  lemma QuotientSide(v: real, n: real, scaled: real, bound: real)
    requires n > 0.0 && v * n == scaled
    ensures v < bound <==> scaled < bound * n
  {
    if v < bound { Positive(bound - v, n, bound * n - scaled); }
    else { NotNegative(v - bound, n, scaled - bound * n); }
  }

  lemma TruncatedClip(v: real)
    ensures var c := Trunc(Clip(v, 0.0, INT16_MAX as real));
            (c == 0 <==> v < 1.0) && (v >= 0.0 ==> (c == Trunc(v) <==> v < 32768.0))
  {}

  /** So with the shipped constant a 16-bit depth is dropped for the floor or by the component filter, and in no
      other way, and nothing saturates. */
  lemma ShippedConstantFits(m: nat, kept: bool)
    requires 0 < m <= UINT16_MAX
    ensures var constant := DEFAULT_GATE.constant;
            && (DespeckledPixel(m, constant, kept) == 0 <==> m < FIXED_MIN_MM || !kept)
            && (m >= FIXED_MIN_MM ==> FixedPoint(m, constant) == Trunc(PixelDisparity(m, constant) * FIXED_SCALE))
  {
    SpeckleDropsExactly(m, DEFAULT_GATE.constant, kept);
  }

  /** For a weight between 0 and 1 a blended depth lies between the two it blends. */
  lemma BlendIsBetween(p: nat, c: nat, alpha: real, change: int)
    requires 0.0 <= alpha <= 1.0 && p <= UINT16_MAX && c <= UINT16_MAX && Static(p, c, change)
    ensures var v := BlendedPixel(p, c, alpha, change); p <= v <= c || c <= v <= p
  {
    hide Trunc, Mix;
    var x := Mix(alpha, c, p);
    MixBetween(alpha, c, p);
    if p <= c { TruncBetween(x, p, c); } else { TruncBetween(x, c, p); }
  }

  lemma MixBetween(alpha: real, c: nat, p: nat)
    requires 0.0 <= alpha <= 1.0
    ensures p <= c ==> p as real <= Mix(alpha, c, p) <= c as real
    ensures c <= p ==> c as real <= Mix(alpha, c, p) <= p as real
  {
    var x, y := c as real, p as real;
    var step := alpha * (x - y);
    assert Mix(alpha, c, p) == y + step;
    PartOf(alpha, x - y, step);
  }

  lemma TruncBetween(x: real, lo: nat, hi: nat)
    requires lo as real <= x <= hi as real
    ensures lo <= Trunc(x) <= hi
  {}

  /** The gradient gate drops exactly the valid pixels with two valid neighbours too far apart in depth. */
  lemma SpreadIsOfValidPixels(d: Image<nat>, i: nat, j: nat, grad: real)
    requires Rect(d) && In(d, i, j) && d[i][j] > 0 && forall y, x :: In(d, y, x) ==> d[y][x] <= UINT16_MAX
    ensures Spread(d, i, j) > grad <==>
            exists y, x, y', x' ::
              && Within(d, i, j, 1, y, x) && Within(d, i, j, 1, y', x') && d[y][x] > 0 && d[y'][x'] > 0
              && d[y][x] as real - d[y'][x'] as real > grad
  {
    var hi, lo := Filled(d, 0.0, 1.0), Filled(d, 1000000.0, -1.0);
    var y, x := Greatest(hi, i, j, 1);
    var y', x' := Greatest(lo, i, j, 1);
    WindowBound(hi, i, j, 1, i, j);
    WindowBound(lo, i, j, 1, i, j);
    hide WindowMax;
    assert d[y][x] > 0 && d[y'][x'] > 0;
    assert Spread(d, i, j) == d[y][x] as real - d[y'][x'] as real;
    assert Within(d, i, j, 1, y, x) && Within(d, i, j, 1, y', x');
    forall b, a, b', a' | Within(d, i, j, 1, b, a) && Within(d, i, j, 1, b', a') && d[b][a] > 0 && d[b'][a'] > 0
      ensures d[b][a] as real - d[b'][a'] as real <= Spread(d, i, j)
    {
      WindowBound(hi, i, j, 1, b, a);
      WindowBound(lo, i, j, 1, b', a');
    }
  }

  // ----- the chain of stages

  datatype Config = Config(enabled: bool, constant: real, clamp: bool, least: int, most: int, edge: bool,
                           gradMode: bool, radius: int, nearRadius: int, margin: real, maxGrad: real, speckle: bool,
                           median: bool, ksize: int, temporal: bool, alpha: real, change: int)
  {
    function EdgeGate(): Gate { Gate(radius, nearRadius, margin, constant) }

    /** The edge stage raises an error: bad radii, or a division by a zero constant. */
    predicate EdgeFails() { edge && !gradMode && !(EdgeGate().Allowed() && constant != 0.0) }
  }

  datatype Progress = Progress(image: Image<nat>, dropped: map<string, int>)

  const STAGES: seq<string> := ["clamp", "edge", "speckle", "median", "temporal"]

  function Stepped(p: Progress, on: bool, name: string, next: Image<nat>): Progress
  {
    if on then Progress(next, p.dropped[name := Count(p.image) - Count(next)]) else p
  }

  function EdgeStage(cfg: Config, d: Image<nat>): Image<nat>
    requires Rect(d) && !cfg.EdgeFails()
  {
    if !cfg.edge then d else if cfg.gradMode then Ungraded(d, cfg.maxGrad) else Gated(d, cfg.EdgeGate())
  }

  /** The image of stage `k` applied to `d`. */
  function Stage(cfg: Config, k: nat, d: Image<nat>, prev: Option<Image<nat>>, kept: (int, int) -> bool): Image<nat>
    requires k < 5 && Rect(d) && !cfg.EdgeFails()
  {
    match k
    case 0 => Clamped(d, cfg.least, cfg.most)
    case 1 => EdgeStage(cfg, d)
    case 2 => Despeckled(d, cfg.constant, kept)
    case 3 => Smoothed(d, cfg.ksize)
    case _ => Blended(if prev.Some? && SameShape(prev.value, d) then prev else None, d, cfg.alpha, cfg.change)
  }

  function Enabled(cfg: Config, k: nat): bool
  {
    match k case 0 => cfg.clamp case 1 => cfg.edge case 2 => cfg.speckle case 3 => cfg.median case _ => cfg.temporal
  }

  /** What the first `n` stages have made of `d`. */
  function Chain(cfg: Config, n: nat, d: Image<nat>, prev: Option<Image<nat>>, kept: (int, int) -> bool): (p: Progress)
    requires n <= 5 && Rect(d) && !cfg.EdgeFails()
    ensures Rect(p.image)
  {
    if n == 0 then Progress(d, map[])
    else
      var p := Chain(cfg, n - 1, d, prev, kept);
      Stepped(p, Enabled(cfg, n - 1), STAGES[n - 1], Stage(cfg, n - 1, p.image, prev, kept))
  }

  function Entry(dropped: map<string, int>, name: string): int { if name in dropped then dropped[name] else 0 }

  /** The sum of the drop counts of the first `n` stages. */
  function Total(dropped: map<string, int>, n: nat): int
    requires n <= 5
  {
    if n == 0 then 0 else Total(dropped, n - 1) + Entry(dropped, STAGES[n - 1])
  }

  lemma StageShrinksMask(cfg: Config, k: nat, d: Image<nat>, prev: Option<Image<nat>>, kept: (int, int) -> bool)
    requires k < 5 && Rect(d) && !cfg.EdgeFails()
    ensures MaskShrinks(d, Stage(cfg, k, d, prev, kept))
  {
    if k == 3 { SmoothingKeepsMask(d, cfg.ksize); }
  }

  lemma StagesDistinct(a: nat, b: nat)
    requires a < b < 5
    ensures STAGES[a] != STAGES[b]
  {
    assert |"clamp"| == 5 && |"edge"| == 4 && |"speckle"| == 7 && |"median"| == 6 && |"temporal"| == 8;
  }

  lemma {:induction false} TotalUpdated(dropped: map<string, int>, n: nat, k: nat, v: int)
    requires n <= k < 5
    ensures Total(dropped[STAGES[k] := v], n) == Total(dropped, n)
  {
    if n > 0 {
      TotalUpdated(dropped, n - 1, k, v);
      StagesDistinct(n - 1, k);
    }
  }

  /** One drop count, not negative, for each of the first `n` stages that is enabled, and no other. */
  ghost predicate Tallied(cfg: Config, n: nat, dropped: map<string, int>)
    requires n <= 5
  {
    && (forall k :: 0 <= k < n ==> (STAGES[k] in dropped <==> Enabled(cfg, k)) && Entry(dropped, STAGES[k]) >= 0)
    && (forall k :: n <= k < 5 ==> STAGES[k] !in dropped)
  }

  /** After any number of stages, for any settings: valid pixels were valid before, and the drop counts add up
      to what is missing. */
  lemma {:induction false} ChainAccounts(cfg: Config, n: nat, d: Image<nat>, prev: Option<Image<nat>>,
                                         kept: (int, int) -> bool)
    requires n <= 5 && Rect(d) && !cfg.EdgeFails()
    ensures var p := Chain(cfg, n, d, prev, kept);
            MaskShrinks(d, p.image) && Count(d) - Count(p.image) == Total(p.dropped, n) && Tallied(cfg, n, p.dropped)
  {
    if n > 0 {
      var m := n - 1;
      hide Count, MaskKept, MaskShrinks, Total, Tallied, Stage, SameShape, Rect;
      ChainAccounts(cfg, m, d, prev, kept);
      var p := Chain(cfg, m, d, prev, kept);
      var next := Stage(cfg, m, p.image, prev, kept);
      var q := Stepped(p, Enabled(cfg, m), STAGES[m], next);
      assert q == Chain(cfg, n, d, prev, kept);
      hide Chain;
      StageShrinksMask(cfg, m, p.image, prev, kept);
      CountShrinks(p.image, next);
      AccountStep(cfg, m, p, q, next);
      Shrinks(d, p.image, next);
    }
  }

  lemma Shrinks(a: Image<nat>, b: Image<nat>, c: Image<nat>)
    requires MaskShrinks(a, b) && MaskShrinks(b, c)
    ensures MaskShrinks(a, c)
  {}

  lemma AccountStep(cfg: Config, m: nat, p: Progress, q: Progress, next: Image<nat>)
    requires m < 5 && q == Stepped(p, Enabled(cfg, m), STAGES[m], next) && Count(next) <= Count(p.image)
    requires Tallied(cfg, m, p.dropped)
    ensures Total(q.dropped, m + 1) == Total(p.dropped, m) + Count(p.image) - Count(q.image)
    ensures Tallied(cfg, m + 1, q.dropped)
  {
    hide Count;
    TotalUpdated(p.dropped, m, m, Count(p.image) - Count(next));
    forall k | 0 <= k < 5 && k != m ensures STAGES[k] != STAGES[m] {
      if k < m { StagesDistinct(k, m); } else { StagesDistinct(m, k); }
    }
  }

  /** The median stage never drops a pixel. */
  lemma MedianDropsNothing(cfg: Config, d: Image<nat>, prev: Option<Image<nat>>, kept: (int, int) -> bool)
    requires Rect(d) && !cfg.EdgeFails() && cfg.median
    ensures Entry(Chain(cfg, 5, d, prev, kept).dropped, "median") == 0
  {
    var p := Chain(cfg, 3, d, prev, kept);
    SmoothingKeepsMask(p.image, cfg.ksize);
    CountKept(p.image, Smoothed(p.image, cfg.ksize));
    StagesDistinct(3, 4);
    assert Chain(cfg, 4, d, prev, kept).dropped["median"] == 0;
  }
}
