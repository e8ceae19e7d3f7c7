/**
 * The peat-moisture deficit update that scripts/module3_historical.py
 * (displacement_to_dryness) and scripts/module3_stream.py
 * (run_module_3_stream) both spell out, with the same constants:
 *
 *   deficit' = clip(deficit + sub − 0.3·up, 0, 10)   (centimetres)
 *
 * where sub is the subsidence and up the uplift of the line-of-sight
 * displacement in centimetres, and the dryness index deficit/10, which
 * scripts/dryness_model.py computes the same way.
 */
module Accumulator {
  import opened Wrappers
  import opened Grids

  const AbsMaxCm: real := 10.0
  const RecoveryFactor: real := 0.3

  /**
   * The deficit an update starts from: the saved state when its file
   * exists, otherwise `np.zeros_like` of the input displacement.
   */
  function PriorDeficit(saved: Option<Grid>, disp: Grid): (cum: Grid)
    ensures saved.Some? ==> cum == saved.value
    ensures saved.None? ==> SameShape(cum, disp) && AllIn(cum, 0.0, 0.0)
  {
    if saved.Some? then saved.value else ZerosLike(disp)
  }

  /** `step_sub = clip(-disp_cm, 0, None)`. */
  function StepSub(dlos: real): (r: real)
    ensures r >= 0.0
    ensures dlos <= 0.0 ==> r == -100.0 * dlos
    ensures dlos >= 0.0 ==> r == 0.0
  {
    ClipLow(-(dlos * 100.0))
  }

  /** `step_up = clip(disp_cm, 0, None) * RECOVERY_FACTOR`. */
  function StepUp(dlos: real): (r: real)
    ensures r >= 0.0
    ensures dlos >= 0.0 ==> r == 30.0 * dlos
    ensures dlos <= 0.0 ==> r == 0.0
  {
    ClipLow(dlos * 100.0) * RecoveryFactor
  }

  /**
   * The deficit after one epoch: every centimetre of subsidence adds one
   * centimetre, every centimetre of uplift removes 0.3, and the result is
   * held in [0, 10] whatever the displacement.
   */
  function DeficitStep(cum: real, dlos: real): (c: real)
    ensures 0.0 <= c <= AbsMaxCm
    ensures dlos <= 0.0 ==> c == Clip(cum - 100.0 * dlos, 0.0, AbsMaxCm)
    ensures dlos >= 0.0 ==> c == Clip(cum - 30.0 * dlos, 0.0, AbsMaxCm)
  {
    Clip(cum + StepSub(dlos) - StepUp(dlos), 0.0, AbsMaxCm)
  }

  /** `clip(cum / ABS_MAX_CM, 0, 1)`: exactly deficit/10 on a deficit in range. */
  function DrynessIndex(cum: real): (r: real)
    ensures 0.0 <= r <= 1.0
    ensures 0.0 <= cum <= AbsMaxCm ==> r == cum / AbsMaxCm
  {
    Clip(cum / AbsMaxCm, 0.0, 1.0)
  }

  /** A still surface leaves an in-range deficit where it was. */
  lemma ZeroDisplacementKeeps(cum: real)
    requires 0.0 <= cum <= AbsMaxCm
    ensures DeficitStep(cum, 0.0) == cum
  {
  }

  /** More subsidence never lowers the deficit: the update is non-increasing in the displacement. */
  lemma DeficitAntitone(cum: real, d1: real, d2: real)
    requires d1 <= d2
    ensures DeficitStep(cum, d1) >= DeficitStep(cum, d2)
  {
  }

  /**
   * Rewetting is slower than drying: x cm of subsidence followed by x cm of
   * uplift leaves the deficit 0.7·x above where it started.
   */
  lemma SubsidenceThenUplift(c: real, x: real)
    requires 0.0 <= c && 0.0 <= x && c + x <= AbsMaxCm
    ensures DeficitStep(DeficitStep(c, -x / 100.0), x / 100.0) == c + 0.7 * x
    ensures c + 0.7 * x >= c
  {
  }

  /** n epochs of the same displacement, starting from `cum`. */
  function Repeat(cum: real, dlos: real, n: nat): (c: real)
    ensures n > 0 ==> 0.0 <= c <= AbsMaxCm
  {
    if n == 0 then cum else DeficitStep(Repeat(cum, dlos, n - 1), dlos)
  }

  /**
   * A sustained drought saturates: subsiding s > 0 metres every epoch, the
   * deficit has risen by at least 100·s·n cm after n epochs, or reached the
   * cap of 10 cm and stays there, never beyond it.
   */
  lemma {:induction false} SustainedDroughtRises(cum: real, s: real, n: nat)
    requires s > 0.0 && 0.0 <= cum <= AbsMaxCm
    ensures Repeat(cum, -s, n) == AbsMaxCm || Repeat(cum, -s, n) >= cum + 100.0 * s * n as real
    ensures Repeat(cum, -s, n) <= AbsMaxCm
  {
    if n > 0 {
      SustainedDroughtRises(cum, s, n - 1);
      var prev := Repeat(cum, -s, n - 1);
      assert Repeat(cum, -s, n) == Clip(prev + 100.0 * s, 0.0, AbsMaxCm);
      assert 100.0 * s * n as real == 100.0 * s * (n - 1) as real + 100.0 * s;
    }
  }

  /** Hence after n >= 10 / (100·s) epochs of drought the index is exactly 1. */
  lemma SustainedDroughtSaturates(cum: real, s: real, n: nat)
    requires s > 0.0 && 0.0 <= cum <= AbsMaxCm
    requires 100.0 * s * n as real >= AbsMaxCm
    ensures Repeat(cum, -s, n) == AbsMaxCm
    ensures DrynessIndex(Repeat(cum, -s, n)) == 1.0
  {
    SustainedDroughtRises(cum, s, n);
  }

  /** The update over whole rasters of one shape. */
  function UpdateGrid(cum: Grid, dlos: Grid): (r: Grid)
    requires SameShape(cum, dlos)
    ensures SameShape(r, dlos)
    ensures AllIn(r, 0.0, AbsMaxCm)
    ensures forall i, j :: 0 <= i < |dlos| && 0 <= j < |dlos[i]| ==>
      r[i][j] == DeficitStep(cum[i][j], dlos[i][j])
  {
    ZipCells(cum, dlos, DeficitStep)
  }

  /** The index raster of a deficit raster, cell by cell deficit/10 when the deficit is in range. */
  function IndexGrid(cum: Grid): (r: Grid)
    ensures SameShape(r, cum)
    ensures AllIn(r, 0.0, 1.0)
    ensures AllIn(cum, 0.0, AbsMaxCm) ==>
      forall i, j :: 0 <= i < |cum| && 0 <= j < |cum[i]| ==> r[i][j] == cum[i][j] / AbsMaxCm
  {
    MapCells(cum, DrynessIndex)
  }

  /** The mean index of any non-empty deficit raster lies in [0, 1]. */
  lemma MeanIndexWithin(cum: Grid)
    requires |Flatten(cum)| > 0
    ensures |Flatten(IndexGrid(cum))| > 0
    ensures 0.0 <= Mean(IndexGrid(cum)) <= 1.0
  {
    FlattenSameLength(IndexGrid(cum), cum);
    MeanWithin(IndexGrid(cum), 0.0, 1.0);
  }
}
