/**
 * The live dryness calculator of scripts/dryness_model.py. Its update rule
 * differs from the one in the module-3 scripts: drying is weighted 0.7/5 and
 * rewetting 0.3/5, and the rewetting term has already been multiplied by the
 * recovery factor 0.3, so uplift is discounted twice. The index (deficit/10)
 * is the one defined in Accumulator.
 */
module DrynessModel {
  import opened Wrappers
  import opened Grids
  import Accumulator

  const MaxDryCm: real := 10.0

  /** `increase = clip(-disp_cm, 0, None)`: subsidence in centimetres. */
  function Increase(dispM: real): (r: real)
    ensures r >= 0.0
    ensures r > 0.0 <==> dispM < 0.0
    ensures dispM <= 0.0 ==> r == -100.0 * dispM
  {
    ClipLow(-(dispM * 100.0))
  }

  /** `decrease = clip(disp_cm, 0, None) * RECOVERY_FACTOR`: discounted uplift. */
  function Decrease(dispM: real): (r: real)
    ensures r >= 0.0
    ensures r > 0.0 <==> dispM > 0.0
    ensures dispM >= 0.0 ==> r == 30.0 * dispM
  {
    ClipLow(dispM * 100.0) * Accumulator.RecoveryFactor
  }

  /** A pixel either dries or rewets in one step, never both. */
  lemma DryingXorRewetting(dispM: real)
    ensures Increase(dispM) == 0.0 || Decrease(dispM) == 0.0
    ensures dispM == 0.0 ==> Increase(dispM) == 0.0 && Decrease(dispM) == 0.0
  {
  }

  /**
   * The new deficit of one pixel: clip(old + 0.7·increase/5 − 0.3·decrease/5, 0, 10).
   * In terms of the raw movement that is +0.14 per cm of subsidence and
   * −0.018 per cm of uplift.
   */
  function LiveDeficitStep(cum: real, dispM: real): (c: real)
    ensures 0.0 <= c <= MaxDryCm
    ensures dispM <= 0.0 ==> c == Clip(cum - 14.0 * dispM, 0.0, MaxDryCm)
    ensures dispM >= 0.0 ==> c == Clip(cum - 1.8 * dispM, 0.0, MaxDryCm)
  {
    Clip(cum + 0.7 * (Increase(dispM) / 5.0) - 0.3 * (Decrease(dispM) / 5.0), 0.0, MaxDryCm)
  }

  /** For equal subsidence and uplift, drying moves the deficit further than rewetting does. */
  lemma DryingOutweighsRewetting(cum: real, x: real)
    requires x > 0.0
    requires 0.0 <= cum && cum + 0.14 * (100.0 * x) <= MaxDryCm && cum - 0.018 * (100.0 * x) >= 0.0
    ensures LiveDeficitStep(cum, -x) - cum > cum - LiveDeficitStep(cum, x) > 0.0
  {
  }

  /** Starting dry-free, 5 cm of subsidence gives a deficit of 0.7 cm and an index of 0.07. */
  lemma FiveCentimetreScenario()
    ensures LiveDeficitStep(0.0, -0.05) == 0.7
    ensures Accumulator.DrynessIndex(LiveDeficitStep(0.0, -0.05)) == 0.07
  {
  }

  /** The per-pixel update over whole rasters. */
  function LiveUpdateGrid(cum: Grid, disp: Grid): (r: Grid)
    requires SameShape(cum, disp)
    ensures SameShape(r, disp)
    ensures AllIn(r, 0.0, MaxDryCm)
    ensures forall i, j :: 0 <= i < |disp| && 0 <= j < |disp[i]| ==>
      r[i][j] == LiveDeficitStep(cum[i][j], disp[i][j])
  {
    ZipCells(cum, disp, LiveDeficitStep)
  }

  datatype Failure = ShapeMismatch

  /**
   * The files run_module_2 owns: the cumulative deficit (dryness_state.npy)
   * and the index raster (dryness_index.tif). None means absent.
   */
  class LiveDryness {
    var deficit: Option<Grid>
    var indexRaster: Option<Grid>

    /** First run: no state file, no output raster. */
    constructor ()
      ensures deficit == None && indexRaster == None
    {
      deficit := None;
      indexRaster := None;
    }

    /**
     * run_module_2 on the displacement raster `disp` (metres): updates and
     * saves the deficit, writes the index raster and returns its mean. A saved
     * deficit whose shape differs from the input aborts the step before any
     * file is written.
     */
    method RunModule2(disp: Grid) returns (r: Result<real, Failure>)
      requires IsRaster(disp)
      modifies this
      ensures old(deficit).Some? && !SameShape(old(deficit).value, disp) ==>
        r == Err(ShapeMismatch) && deficit == old(deficit) && indexRaster == old(indexRaster)
      ensures old(deficit).None? || SameShape(old(deficit).value, disp) ==>
        && deficit == Some(LiveUpdateGrid(Accumulator.PriorDeficit(old(deficit), disp), disp))
        && indexRaster == Some(Accumulator.IndexGrid(deficit.value))
        && |Flatten(indexRaster.value)| > 0
        && r == Ok(Mean(indexRaster.value))
        && 0.0 <= r.value <= 1.0
    {
      var cum := Accumulator.PriorDeficit(deficit, disp);
      if !SameShape(cum, disp) {
        return Err(ShapeMismatch);
      }
      cum := LiveUpdateGrid(cum, disp);
      deficit := Some(cum);
      var index := Accumulator.IndexGrid(cum);
      indexRaster := Some(index);
      RasterNonEmpty(disp);
      FlattenSameLength(cum, disp);
      Accumulator.MeanIndexWithin(cum);
      r := Ok(Mean(index));
    }
  }
}
