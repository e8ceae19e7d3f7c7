/**
 * The live training-data stream of scripts/module3_stream.py: each call
 * takes a fresh 200×200 line-of-sight displacement, updates the persisted
 * peat-moisture deficit with the rule of Accumulator, draws a fire mask
 * from the dryness index, appends 500 sampled pixels to the training table
 * and returns the mean index with a fire flag.
 */
module Stream {
  import opened Wrappers
  import opened Grids
  import opened Accumulator
  import opened TrainingTable

  const H: nat := 200
  const W: nat := 200
  const SampleCount: nat := 500

  /** A cell burns when its uniform draw falls below 0.15 times its dryness index. */
  const FireScale: real := 0.15

  /** The step reports fire when more than 1% of the cells burn. */
  const FireFlagLevel: real := 0.01

  /** `(u < fire_prob * 0.15).astype(int)`, with `u` the uniform draw of every cell. */
  function FireMask(index: Grid, u: Grid): (m: Mask)
    requires SameShape(u, index)
    ensures SameShape(m, index)
    ensures forall i, j :: 0 <= i < |index| && 0 <= j < |index[i]| ==>
      (m[i][j] == 0 || m[i][j] == 1) && (m[i][j] == 1 <==> u[i][j] < index[i][j] * FireScale)
  {
    seq(|index|, i requires 0 <= i < |index| =>
      seq(|index[i]|, j requires 0 <= j < |index[i]| =>
        if u[i][j] < index[i][j] * FireScale then 1 else 0))
  }

  /** Where the index is 0 the burn threshold is 0, which no draw in [0, 1) falls below. */
  lemma NoFireWithoutDryness(cum: Grid, u: Grid)
    requires SameShape(u, cum) && AllIn(u, 0.0, 1.0)
    ensures forall i, j :: 0 <= i < |cum| && 0 <= j < |cum[i]| && cum[i][j] == 0.0 ==>
      FireMask(IndexGrid(cum), u)[i][j] == 0
  {
  }

  /** Position p of a flattened h×w raster is cell (p / w, p % w). */
  lemma FlatCell<T>(g: seq<seq<T>>, p: int)
    requires Rect(g, H, W) && 0 <= p < H * W
    ensures |Flatten(g)| == H * W
    ensures 0 <= p / W < H && 0 <= p % W < W
    ensures Flatten(g)[p] == g[p / W][p % W]
  {
    FlattenAt(g, H, W, p / W, p % W);
  }

  /**
   * The 500-row batch: `np.random.choice(dryness_idx.size, 500)` draws the
   * flat positions `idx` (with replacement, so repeats are allowed) and row
   * k takes position idx[k] of the flattened index and fire mask, every row
   * stamped with the same time `now`.
   */
  function SampleBatch(index: Grid, mask: Mask, idx: seq<int>, now: DateTime): (b: seq<Row>)
    requires Rect(index, H, W) && Rect(mask, H, W)
    requires forall k :: 0 <= k < |idx| ==> 0 <= idx[k] < H * W
    ensures |b| == |idx|
    ensures forall k :: 0 <= k < |idx| ==> b[k].timestamp == now
  {
    FlattenLength(index, H, W);
    FlattenLength(mask, H, W);
    seq(|idx|, k requires 0 <= k < |idx| => Row(now, Flatten(index)[idx[k]], Flatten(mask)[idx[k]]))
  }

  /** Row k of the batch describes cell (idx[k] / 200, idx[k] % 200) of the rasters. */
  lemma SampleBatchCells(index: Grid, mask: Mask, idx: seq<int>, now: DateTime)
    requires Rect(index, H, W) && Rect(mask, H, W)
    requires forall k :: 0 <= k < |idx| ==> 0 <= idx[k] < H * W
    ensures var b := SampleBatch(index, mask, idx, now);
      forall k :: 0 <= k < |idx| ==>
        && 0 <= idx[k] / W < H && 0 <= idx[k] % W < W
        && b[k].dryness == index[idx[k] / W][idx[k] % W]
        && b[k].fireOccurred == mask[idx[k] / W][idx[k] % W]
  {
    FlattenLength(index, H, W);
    FlattenLength(mask, H, W);
    forall k | 0 <= k < |idx|
      ensures 0 <= idx[k] / W < H && 0 <= idx[k] % W < W
      ensures Flatten(index)[idx[k]] == index[idx[k] / W][idx[k] % W]
      ensures Flatten(mask)[idx[k]] == mask[idx[k] / W][idx[k] % W]
    {
      FlatCell(index, idx[k]);
      FlatCell(mask, idx[k]);
    }
  }

  /** Every sampled row has an index in [0, 1] and a fire value of 0 or 1. */
  lemma SampledValues(cum: Grid, u: Grid, idx: seq<int>, now: DateTime)
    requires Rect(cum, H, W) && Rect(u, H, W)
    requires forall k :: 0 <= k < |idx| ==> 0 <= idx[k] < H * W
    ensures var index := IndexGrid(cum);
      var b := SampleBatch(index, FireMask(index, u), idx, now);
      forall k :: 0 <= k < |b| ==> 0.0 <= b[k].dryness <= 1.0 && 0 <= b[k].fireOccurred <= 1
  {
    var index := IndexGrid(cum);
    SampleBatchCells(index, FireMask(index, u), idx, now);
  }

  /** `float(dryness_idx.mean())`. */
  function MeanIndex(index: Grid): (m: real)
    requires Rect(index, H, W) && AllIn(index, 0.0, 1.0)
    ensures 0.0 <= m <= 1.0
  {
    RasterNonEmpty(index);
    MeanWithin(index, 0.0, 1.0);
    Mean(index)
  }

  /** `int(fire_mask.mean() > 0.01)`. */
  function FireFlag(mask: Mask): (f: int)
    requires Rect(mask, H, W)
    ensures |Flatten(AsReal(mask))| > 0
    ensures f == 0 || f == 1
    ensures f == 1 <==> Mean(AsReal(mask)) > FireFlagLevel
  {
    RasterNonEmpty(mask);
    FlattenSameLength(AsReal(mask), mask);
    if Mean(AsReal(mask)) > FireFlagLevel then 1 else 0
  }

  /** A deficit of zero everywhere gives no burning cell, so the fire flag is 0. */
  lemma NoDeficitNoFlag(cum: Grid, u: Grid)
    requires Rect(cum, H, W) && Rect(u, H, W)
    requires AllIn(cum, 0.0, 0.0) && AllIn(u, 0.0, 1.0)
    ensures FireFlag(FireMask(IndexGrid(cum), u)) == 0
  {
    var mask := FireMask(IndexGrid(cum), u);
    NoFireWithoutDryness(cum, u);
    assert AllIn(AsReal(mask), 0.0, 0.0);
    RasterNonEmpty(mask);
    FlattenSameLength(AsReal(mask), mask);
    MeanWithin(AsReal(mask), 0.0, 0.0);
  }

  /** The file the stream owns besides the table: the deficit state dryness_state.npy. */
  class StreamState {
    var deficit: Option<Grid>

    ghost predicate Valid()
      reads this
    {
      deficit.Some? ==> Rect(deficit.value, H, W) && AllIn(deficit.value, 0.0, AbsMaxCm)
    }

    /** Before the first call no state is saved. */
    constructor ()
      ensures Valid() && deficit == None
    {
      deficit := None;
    }

    /**
     * run_module_3_stream on the displacement `disp` (metres), the uniform
     * fire draws `u`, the sampled flat positions `idx` and the clock `now`.
     * The saved deficit becomes the updated one, the table grows by exactly
     * the 500-row batch (with a header only if it did not exist), and the
     * mean index and fire flag are returned.
     */
    method RunModule3Stream(table: TrainingCsv, disp: Grid, u: Grid, idx: seq<int>, now: DateTime)
      returns (meanIndex: real, fireFlag: int)
      requires Valid() && table.Valid()
      requires Rect(disp, H, W) && Rect(u, H, W) && AllIn(u, 0.0, 1.0)
      requires |idx| == SampleCount && forall k :: 0 <= k < |idx| ==> 0 <= idx[k] < H * W
      modifies this, table
      ensures Valid() && table.Valid() && table.present
      ensures deficit == Some(UpdateGrid(PriorDeficit(old(deficit), disp), disp))
      ensures var index := IndexGrid(deficit.value);
        var batch := SampleBatch(index, FireMask(index, u), idx, now);
        && |batch| == SampleCount
        && table.lines == old(table.lines) + (if old(table.present) then [] else [Header]) + Records(batch)
        && table.Rows() == old(table.Rows()) + batch
      ensures meanIndex == MeanIndex(IndexGrid(deficit.value))
      ensures fireFlag == FireFlag(FireMask(IndexGrid(deficit.value), u))
    {
      var cum := PriorDeficit(deficit, disp);
      cum := UpdateGrid(cum, disp);
      deficit := Some(cum);
      var index := IndexGrid(cum);
      var mask := FireMask(index, u);
      var batch := SampleBatch(index, mask, idx, now);
      table.Append(batch);
      meanIndex := MeanIndex(index);
      fireFlag := FireFlag(mask);
    }
  }
}
