/** The depth filter as the program runs it: two-dimensional arrays, copied and then written in place under
    a mask.  Each method is proved against the grid function of its stage. */
module DepthStages {
  import opened Options
  import opened DepthGate
  import opened DepthFilter

  method Copy(depth: array2<nat>) returns (out: array2<nat>)
    ensures fresh(out) && out.Length0 == depth.Length0 && out.Length1 == depth.Length1
    ensures forall i, j :: 0 <= i < out.Length0 && 0 <= j < out.Length1 ==> out[i, j] == depth[i, j]
  {
    out := new nat[depth.Length0, depth.Length1];
    forall i, j | 0 <= i < out.Length0 && 0 <= j < out.Length1 { out[i, j] := depth[i, j]; }
  }

  method ClampRange(depth: array2<nat>, least: int, most: int) returns (out: array2<nat>)
    ensures fresh(out) && Rows(out) == Clamped(Rows(depth), least, most)
  {
    out := Copy(depth);
    forall i, j | 0 <= i < out.Length0 && 0 <= j < out.Length1 && depth[i, j] > 0
        && (depth[i, j] < least || depth[i, j] > most) {
      out[i, j] := 0;
    }
    SameImage(Rows(out), Clamped(Rows(depth), least, most));
  }

  method ToDisparity(depth: array2<nat>, constant: real) returns (out: array2<real>)
    ensures fresh(out) && Rows(out) == Disparity(Rows(depth), constant)
  {
    out := new real[depth.Length0, depth.Length1];
    forall i, j | 0 <= i < out.Length0 && 0 <= j < out.Length1 {
      out[i, j] := constant / (if depth[i, j] >= 1 then depth[i, j] else 1) as real;
    }
    forall i, j | 0 <= i < out.Length0 && 0 <= j < out.Length1 && depth[i, j] == 0 { out[i, j] := 0.0; }
    SameImage(Rows(out), Disparity(Rows(depth), constant));
  }

  method Dilate(g: array2<real>, k: nat) returns (out: array2<real>)
    ensures fresh(out) && SizedAs(out, g)
    ensures forall i, j :: 0 <= i < g.Length0 && 0 <= j < g.Length1 ==> out[i, j] == WindowMax(Rows(g), i, j, k)
  {
    var rows := Rows(g);
    out := new real[g.Length0, g.Length1];
    forall i, j | 0 <= i < out.Length0 && 0 <= j < out.Length1 { out[i, j] := WindowMax(rows, i, j, k); }
  }

  predicate SizedAs(a: array2<real>, b: array2<real>) { a.Length0 == b.Length0 && a.Length1 == b.Length1 }

  method Subtract(a: array2<real>, b: array2<real>)
    requires SizedAs(a, b) && a != b
    modifies a
    ensures forall i, j :: 0 <= i < a.Length0 && 0 <= j < a.Length1 ==> a[i, j] == old(a[i, j]) - b[i, j]
  {
    forall i, j | 0 <= i < a.Length0 && 0 <= j < a.Length1 { a[i, j] := a[i, j] - b[i, j]; }
  }

  method Add(a: array2<real>, b: array2<real>)
    requires SizedAs(a, b) && a != b
    modifies a
    ensures forall i, j :: 0 <= i < a.Length0 && 0 <= j < a.Length1 ==> a[i, j] == old(a[i, j]) + b[i, j]
  {
    forall i, j | 0 <= i < a.Length0 && 0 <= j < a.Length1 { a[i, j] := a[i, j] + b[i, j]; }
  }

  function Times(x: real, k: real): real { x * k }

  method Scale(a: array2<real>, k: real)
    modifies a
    ensures forall i, j :: 0 <= i < a.Length0 && 0 <= j < a.Length1 ==> a[i, j] == Times(old(a[i, j]), k)
  {
    forall i, j | 0 <= i < a.Length0 && 0 <= j < a.Length1 { a[i, j] := a[i, j] * k; }
  }

  method Shift(a: array2<real>, k: real)
    modifies a
    ensures forall i, j :: 0 <= i < a.Length0 && 0 <= j < a.Length1 ==> a[i, j] == old(a[i, j]) + k
  {
    forall i, j | 0 <= i < a.Length0 && 0 <= j < a.Length1 { a[i, j] := a[i, j] + k; }
  }

  method Quanta(disp: array2<real>, gate: Gate) returns (out: array2<real>)
    requires gate.Allowed() && gate.constant != 0.0
    ensures fresh(out) && SizedAs(out, disp)
    ensures forall i, j :: 0 <= i < out.Length0 && 0 <= j < out.Length1 ==> out[i, j] == Quantum(gate, disp[i, j])
  {
    out := new real[disp.Length0, disp.Length1];
    var k := (1.0 + gate.Gain()) / gate.constant;
    forall i, j | 0 <= i < out.Length0 && 0 <= j < out.Length1 { out[i, j] := disp[i, j] * disp[i, j] * k; }
  }

  /** The right-hand side of the gate at one pixel. */
  function Threshold(g: Image<real>, i: nat, j: nat, gate: Gate): real
    requires Rect(g) && In(g, i, j) && gate.Allowed() && gate.constant != 0.0
  {
    Times(WindowMax(g, i, j, gate.nearRadius) - g[i][j], gate.Gain()) + gate.margin + Quantum(gate, g[i][j])
  }

  lemma FiresAboveThreshold(g: Image<real>, i: nat, j: nat, gate: Gate)
    requires Rect(g) && In(g, i, j) && gate.Allowed() && gate.constant != 0.0
    ensures Fires(g, i, j, gate) <==> WindowMax(g, i, j, gate.radius) - g[i][j] > Threshold(g, i, j, gate)
  {
    hide WindowMax, Quantum, Gate.Gain;
  }

  method Thresholds(disp: array2<real>, gate: Gate) returns (near: array2<real>)
    requires gate.Allowed() && gate.constant != 0.0
    ensures fresh(near) && SizedAs(near, disp)
    ensures forall i, j :: 0 <= i < near.Length0 && 0 <= j < near.Length1 ==>
        near[i, j] == Threshold(Rows(disp), i, j, gate)
  {
    hide WindowMax, Gate.Gain, Quantum, Times;
    near := Dilate(disp, gate.nearRadius);
    Subtract(near, disp);
    Scale(near, gate.Gain());
    Shift(near, gate.margin);
    var quant := Quanta(disp, gate);
    Add(near, quant);
  }

  /** The two-scale gate; `None` for the errors of bad radii and of a zero constant. */
  method RemoveEdgeBleed(depth: array2<nat>, gate: Gate) returns (r: Option<array2<nat>>)
    ensures r.Some? <==> gate.Allowed() && gate.constant != 0.0
    ensures r.Some? ==> fresh(r.value) && Rows(r.value) == Gated(Rows(depth), gate)
  {
    hide WindowMax, Gate.Gain, Quantum, Times, Threshold, Fires, PixelDisparity;
    if gate.radius < 1 || gate.nearRadius < 1 || gate.nearRadius >= gate.radius || gate.constant == 0.0 {
      return None;
    }
    var disp := ToDisparity(depth, gate.constant);
    var near := Thresholds(disp, gate);
    var wide := Dilate(disp, gate.radius);
    Subtract(wide, disp);
    var out := Copy(depth);
    forall i, j | 0 <= i < out.Length0 && 0 <= j < out.Length1 && depth[i, j] > 0 && wide[i, j] > near[i, j] {
      out[i, j] := 0;
    }
    forall i, j | In(Rows(out), i, j) ensures Rows(out)[i][j] == Gated(Rows(depth), gate)[i][j] {
      FiresAboveThreshold(Rows(disp), i, j, gate);
    }
    SameImage(Rows(out), Gated(Rows(depth), gate));
    return Some(out);
  }

  method RemoveFlyingPixels(depth: array2<nat>, maxGrad: real) returns (out: array2<nat>)
    ensures fresh(out) && Rows(out) == Ungraded(Rows(depth), maxGrad)
  {
    hide Spread;
    var rows := Rows(depth);
    out := Copy(depth);
    forall i, j | 0 <= i < out.Length0 && 0 <= j < out.Length1 && depth[i, j] > 0 && Spread(rows, i, j) > maxGrad {
      out[i, j] := 0;
    }
    SameImage(Rows(out), Ungraded(rows, maxGrad));
  }

  /** The component filter is given `work` and sets to 0 every pixel it does not keep. */
  method FilterSpeckles(work: array2<int>, kept: (int, int) -> bool)
    modifies work
    ensures forall i, j :: 0 <= i < work.Length0 && 0 <= j < work.Length1 ==>
              work[i, j] == if kept(i, j) then old(work[i, j]) else 0
  {
    forall i, j | 0 <= i < work.Length0 && 0 <= j < work.Length1 && !kept(i, j) { work[i, j] := 0; }
  }

  method RemoveSpeckles(depth: array2<nat>, constant: real, kept: (int, int) -> bool) returns (out: array2<nat>)
    ensures fresh(out) && Rows(out) == Despeckled(Rows(depth), constant, kept)
  {
    hide FixedPoint;
    var work := new int[depth.Length0, depth.Length1];
    forall i, j | 0 <= i < work.Length0 && 0 <= j < work.Length1 { work[i, j] := FixedPoint(depth[i, j], constant); }
    FilterSpeckles(work, kept);
    out := Copy(depth);
    forall i, j | 0 <= i < out.Length0 && 0 <= j < out.Length1 && work[i, j] == 0 { out[i, j] := 0; }
    SameImage(Rows(out), Despeckled(Rows(depth), constant, kept));
  }

  method SmoothBanding(depth: array2<nat>, ksize: int) returns (out: array2<nat>)
    ensures fresh(out) && Rows(out) == Smoothed(Rows(depth), ksize)
  {
    hide Median, Whole;
    var rows, k := Rows(depth), Large(ksize);
    out := Copy(depth);
    forall i, j | 0 <= i < out.Length0 && 0 <= j < out.Length1 && Whole(rows, i, j, k)
        { out[i, j] := Median(rows, i, j, k); }
    if k > 1 {
      forall i, j | 0 <= i < out.Length0 && 0 <= j < out.Length1 && Whole(rows, i, j, 1) && !Whole(rows, i, j, k) {
        out[i, j] := Median(rows, i, j, 1);
      }
    }
    SameImage(Rows(out), Smoothed(rows, ksize));
  }

  function RowsIf(prev: array2?<nat>): Option<Image<nat>>
    reads prev
  {
    if prev == null then None else Some(Rows(prev))
  }

  method TemporalEma(prev: array2?<nat>, depth: array2<nat>, alpha: real, change: int) returns (out: array2<nat>)
    ensures fresh(out)
    ensures var p := RowsIf(prev);
            Rows(out) == Blended(if p.Some? && SameShape(p.value, Rows(depth)) then p else None, Rows(depth),
                                 alpha, change)
  {
    hide BlendedPixel;
    out := Copy(depth);
    if prev == null || prev.Length0 != depth.Length0 || prev.Length1 != depth.Length1 {
      SameImage(Rows(out), Rows(depth));
      if prev != null && SameShape(Rows(prev), Rows(depth)) {
        SameImage(Rows(out), Blended(Some(Rows(prev)), Rows(depth), alpha, change));
      }
      return;
    }
    forall i, j | 0 <= i < out.Length0 && 0 <= j < out.Length1
        { out[i, j] := BlendedPixel(prev[i, j], depth[i, j], alpha, change); }
    SameImage(Rows(out), Blended(Some(Rows(prev)), Rows(depth), alpha, change));
  }

  // ----- the chain

  datatype Report = Report(stages: seq<string>, inValid: Option<nat>, outValid: Option<nat>, removed: int,
                           dropped: map<string, int>)

  datatype Filtering = Failed | Filtered(report: Report)

  function ActiveStages(cfg: Config, n: nat): seq<string>
    requires n <= 5
  {
    if n == 0 || !cfg.enabled then []
    else ActiveStages(cfg, n - 1) + if Enabled(cfg, n - 1) then [STAGES[n - 1]] else []
  }

  /** Stage `k`, if enabled, and its drop count. */
  method RunStage(cfg: Config, k: nat, image: array2<nat>, dropped: map<string, int>, prev: array2?<nat>,
                  kept: (int, int) -> bool) returns (out: array2<nat>, dropped': map<string, int>)
    requires k < 5 && !cfg.EdgeFails()
    ensures Progress(Rows(out), dropped') == StageStep(cfg, k, Progress(Rows(image), dropped), RowsIf(prev), kept)
  {
    hide Clamped, Count, Gated, Ungraded, Despeckled, Smoothed, Blended, SameShape;
    out, dropped' := image, dropped;
    if !Enabled(cfg, k) {
      return;
    }
    var before := Count(Rows(out));
    if k == 0 {
      out := ClampRange(out, cfg.least, cfg.most);
    } else if k == 1 && cfg.gradMode {
      out := RemoveFlyingPixels(out, cfg.maxGrad);
    } else if k == 1 {
      var gated := RemoveEdgeBleed(out, cfg.EdgeGate());
      out := gated.value;
    } else if k == 2 {
      out := RemoveSpeckles(out, cfg.constant, kept);
    } else if k == 3 {
      out := SmoothBanding(out, cfg.ksize);
    } else {
      out := TemporalEma(prev, out, cfg.alpha, cfg.change);
    }
    dropped' := dropped[STAGES[k] := before - Count(Rows(out))];
  }

  function StageStep(cfg: Config, k: nat, p: Progress, prev: Option<Image<nat>>, kept: (int, int) -> bool): Progress
    requires k < 5 && Rect(p.image) && !cfg.EdgeFails()
  {
    Stepped(p, Enabled(cfg, k), STAGES[k], Stage(cfg, k, p.image, prev, kept))
  }

  lemma ChainStart(cfg: Config, d: Image<nat>, prev: Option<Image<nat>>, kept: (int, int) -> bool)
    requires Rect(d) && !cfg.EdgeFails()
    ensures Chain(cfg, 0, d, prev, kept) == Progress(d, map[])
  {}

  lemma ChainStep(cfg: Config, k: nat, d: Image<nat>, prev: Option<Image<nat>>, kept: (int, int) -> bool)
    requires k < 5 && Rect(d) && !cfg.EdgeFails()
    ensures Chain(cfg, k + 1, d, prev, kept) == StageStep(cfg, k, Chain(cfg, k, d, prev, kept), prev, kept)
  {}

  /** The enabled stages in order.  The result is the chain of the stage functions; the report's drop counts
      are its own and add up to `removed`.  Disabled, the filter hands back its input. */
  method FilterDepth(depth: array2<nat>, cfg: Config, prev: array2?<nat>, kept: (int, int) -> bool)
    returns (out: array2<nat>, r: Filtering)
    ensures r.Failed? <==> cfg.enabled && cfg.EdgeFails()
    ensures !cfg.enabled ==> out == depth && r == Filtered(Report([], None, None, 0, map[]))
    ensures cfg.enabled && r.Filtered? ==>
              var p := Chain(cfg, 5, Rows(depth), RowsIf(prev), kept);
              && Rows(out) == p.image && MaskShrinks(Rows(depth), Rows(out))
              && r.report == Report(ActiveStages(cfg, 5), Some(Count(Rows(depth))), Some(Count(p.image)),
                                    Total(p.dropped, 5), p.dropped)
  {
    hide *;
    if !cfg.enabled {
      return depth, Filtered(Report([], None, None, 0, map[]));
    }
    if cfg.EdgeFails() {
      return depth, Failed;
    }
    ghost var d, last := Rows(depth), RowsIf(prev);
    ChainStart(cfg, d, last, kept);
    var inValid := Count(Rows(depth));
    var dropped: map<string, int> := map[];
    out, dropped := RunStage(cfg, 0, depth, dropped, prev, kept);
    ChainStep(cfg, 0, d, last, kept);
    out, dropped := RunStage(cfg, 1, out, dropped, prev, kept);
    ChainStep(cfg, 1, d, last, kept);
    out, dropped := RunStage(cfg, 2, out, dropped, prev, kept);
    ChainStep(cfg, 2, d, last, kept);
    out, dropped := RunStage(cfg, 3, out, dropped, prev, kept);
    ChainStep(cfg, 3, d, last, kept);
    out, dropped := RunStage(cfg, 4, out, dropped, prev, kept);
    ChainStep(cfg, 4, d, last, kept);
    var outValid := Count(Rows(out));
    ChainAccounts(cfg, 5, d, last, kept);
    CountShrinks(d, Rows(out));
    r := Filtered(Report(ActiveStages(cfg, 5), Some(inValid), Some(outValid), inValid - outValid, dropped));
  }
}
