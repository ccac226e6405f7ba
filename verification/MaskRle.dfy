/** Column-major run-length encoding of a boolean mask.

    The service encodes with array operations (change points, then differences); the reference is the
    per-pixel loop it replaced. */
module MaskRle {

  /** Rows of pixels, all of the same width. */
  type Mask = seq<seq<bool>>

  predicate Rectangular(mask: Mask, height: nat, width: nat)
  {
    |mask| == height && forall i :: 0 <= i < height ==> |mask[i]| == width
  }

  /** `array.reshape(-1, order="F")`: the first `cols` columns, one after the other. */
  function Flatten(mask: Mask, height: nat, cols: nat): (flat: seq<bool>)
    requires |mask| == height && forall i :: 0 <= i < height ==> |mask[i]| >= cols
    ensures |flat| == cols * height
  {
    if cols == 0 then []
    else Flatten(mask, height, cols - 1) + seq(height, i requires 0 <= i < height => mask[i][cols - 1])
  }

  // ----- the vectorised encoder

  /** Positions where a pixel differs from the one before it, in order. */
  function Changes(flat: seq<bool>): seq<int>
  {
    if |flat| <= 1 then []
    else
      var n := |flat| - 1;
      Changes(flat[..n]) + if flat[n] != flat[n - 1] then [n] else []
  }

  /** The run boundaries, without the final one. */
  function Edges(flat: seq<bool>): (edges: seq<int>)
    ensures |edges| > 0
  {
    [0] + Changes(flat)
  }

  function Diff(bounds: seq<int>): seq<int>
    requires |bounds| > 0
  {
    seq(|bounds| - 1, i requires 0 <= i < |bounds| - 1 => bounds[i + 1] - bounds[i])
  }

  function Counts(flat: seq<bool>): seq<int>
  {
    if flat == [] then [0]
    else
      var counts := Diff(Edges(flat) + [|flat|]);
      if flat[0] then [0] + counts else counts
  }

  /** The run-length document of a mask: its size and its counts. */
  datatype Rle = Rle(height: nat, width: nat, counts: seq<int>)

  function EncodeCocoRle(mask: Mask, height: nat, width: nat): Rle
    requires Rectangular(mask, height, width)
  {
    Rle(height, width, Counts(Flatten(mask, height, width)))
  }

  // ----- the per-pixel reference

  /** The runs of a pixel row, background first; the last run is still open. */
  function Runs(flat: seq<bool>): (counts: seq<int>)
    ensures |counts| > 0
  {
    if flat == [] then [0] else Extend(Runs(flat[..|flat| - 1]), flat[|flat| - 1])
  }

  /** One more pixel joins the last run, or opens the next one. */
  function Extend(counts: seq<int>, pixel: bool): (more: seq<int>)
    requires |counts| > 0
    ensures |more| > 0
  {
    var last := |counts| - 1;
    if Colour(last) == pixel then counts[last := counts[last] + 1] else counts + [1]
  }

  /** The colour of run `i`: runs alternate, and run 0 is background. */
  function Colour(i: nat): bool { i % 2 == 1 }

  method PixelLoop(flat: seq<bool>) returns (counts: seq<int>)
    ensures counts == Runs(flat)
  {
    counts := [];
    var current, run := false, 0;
    for i := 0 to |flat|
      invariant counts + [run] == Runs(flat[..i])
      invariant current == Colour(|counts|)
    {
      assert flat[..i + 1][..i] == flat[..i];
      if flat[i] != current {
        counts := counts + [run];
        run := 0;
        current := flat[i];
      }
      run := run + 1;
    }
    counts := counts + [run];
    assert flat[..|flat|] == flat;
  }

  lemma DiffSnoc(bounds: seq<int>, x: int)
    requires |bounds| > 0
    ensures Diff(bounds + [x]) == Diff(bounds) + [x - bounds[|bounds| - 1]]
  {}

  lemma EdgesStep(flat: seq<bool>, n: nat)
    requires |flat| == n + 1 && n > 0
    ensures flat[n] == flat[n - 1] ==> Edges(flat) == Edges(flat[..n])
    ensures flat[n] != flat[n - 1] ==> Edges(flat) == Edges(flat[..n]) + [n]
  {
    var c := Changes(flat[..n]);
    assert [0] + (c + [n]) == ([0] + c) + [n];
  }

  function Head(flat: seq<bool>): seq<int>
    requires flat != []
  {
    if flat[0] then [0] else []
  }

  lemma CountsBody(flat: seq<bool>)
    requires flat != []
    ensures Counts(flat) == Head(flat) + Diff(Edges(flat) + [|flat|])
  {
    hide Diff, Edges;
  }

  /** Adding one pixel extends the last run or opens a new one. */
  lemma CountsStep(flat: seq<bool>, n: nat)
    requires |flat| == n + 1 && n > 0
    ensures var counts, more := Counts(flat[..n]), Counts(flat);
            && (flat[n] == flat[n - 1] ==> |counts| > 0 && more == counts[|counts| - 1 := counts[|counts| - 1] + 1])
            && (flat[n] != flat[n - 1] ==> more == counts + [1])
  {
    hide Counts, Edges, Diff, Head;
    var p := Edges(flat[..n]);
    CountsBody(flat[..n]);
    CountsBody(flat);
    EdgesStep(flat, n);
    assert Head(flat[..n]) == Head(flat) by { SameHead(flat, n); }
    if flat[n] == flat[n - 1] {
      DiffSnoc(p, n);
      DiffSnoc(p, n + 1);
      Append(Head(flat), Diff(p), n - p[|p| - 1]);
    } else {
      DiffSnoc(p + [n], n + 1);
      Regroup(Head(flat), Diff(p + [n]), [1]);
    }
  }

  lemma SameHead(flat: seq<bool>, n: nat)
    requires 0 < n <= |flat|
    ensures Head(flat[..n]) == Head(flat)
  {}

  lemma Regroup(a: seq<int>, b: seq<int>, c: seq<int>)
    ensures a + (b + c) == (a + b) + c
  {}

  lemma Append(z: seq<int>, d: seq<int>, e: int)
    ensures var counts := z + (d + [e]); counts[|counts| - 1 := counts[|counts| - 1] + 1] == z + (d + [e + 1])
  {}

  /** The last run has the colour of the last pixel. */
  lemma {:induction false} LastColour(flat: seq<bool>)
    requires flat != []
    ensures Colour(|Runs(flat)| - 1) == flat[|flat| - 1]
  {
    var n := |flat| - 1;
    if n > 0 { LastColour(flat[..n]); }
  }

  /** The vectorised encoder is the per-pixel loop, for every mask. */
  lemma {:induction false} VectorisedIsLoop(flat: seq<bool>)
    ensures Counts(flat) == Runs(flat)
  {
    if |flat| == 1 {
      OnePixel(flat);
    } else if |flat| > 1 {
      var n := |flat| - 1;
      VectorisedIsLoop(flat[..n]);
      VectorisedStep(flat, n);
    }
  }

  lemma VectorisedStep(flat: seq<bool>, n: nat)
    requires |flat| == n + 1 && n > 0 && Counts(flat[..n]) == Runs(flat[..n])
    ensures Counts(flat) == Runs(flat)
  {
    hide *;
    CountsStep(flat, n);
    LastColour(flat[..n]);
    RunsSnoc(flat, n);
    ExtendBySameColour(Counts(flat[..n]), Counts(flat), flat[n], flat[n] == flat[n - 1]);
  }

  lemma RunsSnoc(flat: seq<bool>, n: nat)
    requires |flat| == n + 1
    ensures Runs(flat) == Extend(Runs(flat[..n]), flat[n])
  {}

  /** What a pixel does to the counts: it grows the last run if that has its colour, else it opens the next one. */
  lemma ExtendBySameColour(counts: seq<int>, more: seq<int>, pixel: bool, same: bool)
    requires |counts| > 0 && same == (Colour(|counts| - 1) == pixel)
    requires more == if same then counts[|counts| - 1 := counts[|counts| - 1] + 1] else counts + [1]
    ensures more == Extend(counts, pixel)
  {
    hide Colour;
  }

  lemma OnePixel(flat: seq<bool>)
    requires |flat| == 1
    ensures Counts(flat) == Runs(flat)
  {
    hide *;
    CountsBody(flat);
    DiffSnoc([0], 1);
    OneEdge(flat);
    OneRun(flat);
    OneHead(flat);
  }

  lemma OneEdge(flat: seq<bool>)
    requires |flat| == 1
    ensures Edges(flat) == [0] && Diff([0]) == [] && |flat| == 1
  {}

  lemma OneRun(flat: seq<bool>)
    requires |flat| == 1
    ensures Runs(flat) == if flat[0] then [0, 1] else [1]
  {
    RunsSnoc(flat, 0);
    assert flat[..0] == [] && Runs([]) == [0];
    hide Runs;
  }

  lemma OneHead(flat: seq<bool>)
    requires |flat| == 1
    ensures Head(flat) + [1] == if flat[0] then [0, 1] else [1]
  {}

  // ----- decoding

  /** Write out each run in its colour. */
  function Decode(counts: seq<int>): seq<bool>
    requires forall i :: 0 <= i < |counts| ==> counts[i] >= 0
  {
    if counts == [] then []
    else
      var last := |counts| - 1;
      Decode(counts[..last]) + seq(counts[last], _ => Colour(last))
  }

  function Sum(counts: seq<int>): int
  {
    if counts == [] then 0 else Sum(counts[..|counts| - 1]) + counts[|counts| - 1]
  }

  ghost predicate WellFormed(counts: seq<int>)
  {
    |counts| > 0 && counts[0] >= 0 && forall i :: 1 <= i < |counts| ==> counts[i] > 0
  }

  lemma GrowLast(counts: seq<int>)
    requires |counts| > 0 && forall i :: 0 <= i < |counts| ==> counts[i] >= 0
    ensures var last := |counts| - 1;
            var more := counts[last := counts[last] + 1];
            Decode(more) == Decode(counts) + [Colour(last)] && Sum(more) == Sum(counts) + 1
  {
    var last := |counts| - 1;
    var more := counts[last := counts[last] + 1];
    assert more[..last] == counts[..last];
    var run := seq(counts[last], _ => Colour(last));
    assert seq(more[last], _ => Colour(last)) == run + [Colour(last)];
  }

  lemma OpenRun(counts: seq<int>)
    requires forall i :: 0 <= i < |counts| ==> counts[i] >= 0
    ensures Decode(counts + [1]) == Decode(counts) + [Colour(|counts|)] && Sum(counts + [1]) == Sum(counts) + 1
  {
    assert (counts + [1])[..|counts|] == counts;
    assert seq(1, _ => Colour(|counts|)) == [Colour(|counts|)];
  }

  lemma ExtendDecodes(counts: seq<int>, pixel: bool)
    requires WellFormed(counts)
    ensures WellFormed(Extend(counts, pixel))
    ensures Decode(Extend(counts, pixel)) == Decode(counts) + [pixel] && Sum(Extend(counts, pixel)) == Sum(counts) + 1
  {
    hide Decode, Sum;
    if Colour(|counts| - 1) == pixel { GrowLast(counts); } else { OpenRun(counts); }
  }

  /** Decoding the counts gives the pixels back; they sum to the pixel count, and only the first run,
      the background one, may be empty. */
  lemma {:induction false} RunsDecode(flat: seq<bool>)
    ensures WellFormed(Runs(flat)) && Decode(Runs(flat)) == flat && Sum(Runs(flat)) == |flat|
  {
    if flat == [] {
      assert Runs(flat)[..0] == [];
    } else {
      var n := |flat| - 1;
      RunsDecode(flat[..n]);
      ExtendDecodes(Runs(flat[..n]), flat[n]);
      hide Decode, Sum, Extend, WellFormed;
      assert flat == flat[..n] + [flat[n]];
    }
  }

  /** Where pixel (i, j) goes: column-major order. */
  function Place(height: nat, i: nat, j: nat): nat { j * height + i }

  /** `Flatten` read back. */
  lemma {:induction false} FlattenAt(mask: Mask, height: nat, cols: nat, i: nat, j: nat)
    requires |mask| == height && (forall k :: 0 <= k < height ==> |mask[k]| >= cols) && i < height && j < cols
    ensures Place(height, i, j) < |Flatten(mask, height, cols)|
    ensures Flatten(mask, height, cols)[Place(height, i, j)] == mask[i][j]
  {
    var before := Flatten(mask, height, cols - 1);
    assert cols * height == (cols - 1) * height + height;
    if j < cols - 1 {
      FlattenAt(mask, height, cols - 1, i, j);
    } else {
      assert j * height == |before|;
    }
  }

  /** Main theorem: the counts of a mask decode to the mask, pixel by pixel, and cover it exactly. */
  lemma EncodeRoundTrip(mask: Mask, height: nat, width: nat)
    requires Rectangular(mask, height, width)
    ensures var counts := EncodeCocoRle(mask, height, width).counts;
            && WellFormed(counts) && Sum(counts) == |Decode(counts)| == width * height
            && forall i: nat, j: nat :: i < height && j < width ==>
                 Place(height, i, j) < |Decode(counts)| && Decode(counts)[Place(height, i, j)] == mask[i][j]
  {
    var flat := Flatten(mask, height, width);
    VectorisedIsLoop(flat);
    RunsDecode(flat);
    hide Flatten, Counts, Decode, Sum, Place;
    forall i: nat, j: nat | i < height && j < width
      ensures Place(height, i, j) < |flat| && flat[Place(height, i, j)] == mask[i][j]
    {
      FlattenAt(mask, height, width, i, j);
    }
  }
}
