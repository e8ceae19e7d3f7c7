/**
 * The synthetic archive generator of scripts/module3_historical.py: 120
 * epochs ten days apart from 1 January 2020, each driven by a month-based
 * seasonal bias, an ENSO oscillation, random drought and rain pulses, an
 * AR(1) memory of the cumulative deficit, a ramp and a trend. Every epoch
 * writes a dryness raster and a clustered fire mask.
 */
module Historical {
  import opened Grids
  import opened Calendar
  import opened SynthUtils
  import opened Accumulator

  const H: nat := 200
  const W: nat := 200
  const Epochs: nat := 120
  const EpochDays: nat := 10
  const StartDate: Date := Date(2020, 1, 1)

  /**
   * displacement_to_dryness(dlos, cum): the updated deficit in [0, 10] and
   * its index in [0, 1], the index being deficit/10 cell by cell.
   */
  function DisplacementToDryness(dlos: Grid, cum: Grid): (r: (Grid, Grid))
    requires SameShape(cum, dlos)
    ensures SameShape(r.1, dlos) && SameShape(r.0, dlos)
    ensures AllIn(r.1, 0.0, AbsMaxCm) && AllIn(r.0, 0.0, 1.0)
    ensures forall i, j :: 0 <= i < |dlos| && 0 <= j < |dlos[i]| ==>
      r.1[i][j] == DeficitStep(cum[i][j], dlos[i][j]) && r.0[i][j] == r.1[i][j] / AbsMaxCm
  {
    var next := UpdateGrid(cum, dlos);
    (IndexGrid(next), next)
  }

  /** The monsoon months recharge, the dry months subside, the transitions are neutral. */
  function SeasonalBias(month: int): (b: real)
    ensures month in {11, 12, 1, 2} ==> b == 0.015
    ensures month in {6, 7, 8, 9} ==> b == -0.025
    ensures month !in {11, 12, 1, 2, 6, 7, 8, 9} ==> b == 0.0
  {
    if month in [11, 12, 1, 2] then 0.015
    else if month in [6, 7, 8, 9] then -0.025
    else 0.0
  }

  /** The calendar date of epoch t: 1 January 2020 plus 10·t days. */
  function EpochDate(t: nat): (d: Date)
    requires t < Epochs
    ensures ValidDate(d)
  {
    AddDays(StartDate, EpochDays * t)
  }

  /** The two rasters epoch t writes, `dry_<YYYYMMDD>.tif` and `fire_<YYYYMMDD>.tif`. */
  function DryFileName(d: Date): string
    requires ValidDate(d)
  {
    "dry_" + Format(d) + ".tif"
  }

  function FireFileName(d: Date): string
    requires ValidDate(d)
  {
    "fire_" + Format(d) + ".tif"
  }

  /**
   * The opaque numerical kernels of an epoch: sinCycle(x) = sin(2πx),
   * cosInc = cos(37°), exp, and the fire-mask blur at sigma 2.
   */
  datatype Physics = Physics(sinCycle: real -> real, cosInc: real, exp: real -> real, blur: Grid -> Grid)

  /** exp is positive and the blur keeps a 200×200 raster 200×200, as gaussian_filter does. */
  ghost predicate ValidPhysics(env: Physics)
  {
    && PositiveFn(env.exp)
    && forall g :: Rect(g, H, W) ==> Rect(env.blur(g), H, W)
  }

  /**
   * The random inputs of an epoch: the smooth noise field, the drought and
   * rain draws, and the uniform grid of the fire draw.
   */
  datatype EpochDraws = EpochDraws(noise: Grid, droughtDraw: real, rainDraw: real, fireDraws: Grid)

  predicate WellShaped(draws: seq<EpochDraws>)
  {
    forall t :: 0 <= t < |draws| ==> Rect(draws[t].noise, H, W) && Rect(draws[t].fireDraws, H, W)
  }

  /** seasonal bias + ENSO term + the drought (−0.06) and rain (+0.08) pulses. */
  function ClimateBias(t: nat, month: int, droughtDraw: real, rainDraw: real, sinCycle: real -> real): (b: real)
    ensures var base := SeasonalBias(month) + 0.02 * sinCycle(t as real / 90.0);
      && (droughtDraw >= 0.05 && rainDraw >= 0.03 ==> b == base)
      && (droughtDraw < 0.05 && rainDraw >= 0.03 ==> b == base - 0.06)
      && (droughtDraw >= 0.05 && rainDraw < 0.03 ==> b == base + 0.08)
      && (droughtDraw < 0.05 && rainDraw < 0.03 ==> b == base + 0.02)
  {
    SeasonalBias(month) + 0.02 * sinCycle(t as real / 90.0)
    + (if droughtDraw < 0.05 then -0.06 else 0.0)
    + (if rainDraw < 0.03 then 0.08 else 0.0)
  }

  /** The fixed ramp of the archive. */
  function HistoricalRamp(): (r: Grid)
    ensures Rect(r, H, W)
  {
    PlanarRamp(H, W, 0.000012, -0.000009)
  }

  /** `cum / 100`: the deficit, in metres, is the AR(1) memory term. */
  function Memory(cum: Grid): (m: Grid)
    ensures SameShape(m, cum)
    ensures forall i, j :: 0 <= i < |cum| && 0 <= j < |cum[i]| ==> m[i][j] == cum[i][j] / 100.0
  {
    MapCells(cum, v => v / 100.0)
  }

  /** The vertical displacement of epoch t given the deficit carried in. */
  function EpochVertical(t: nat, cum: Grid, draw: EpochDraws, env: Physics): (dvert: Grid)
    requires t < Epochs
    requires Rect(cum, H, W) && Rect(draw.noise, H, W)
    ensures Rect(dvert, H, W)
    ensures forall i, j :: 0 <= i < H && 0 <= j < W ==>
      dvert[i][j] == 0.92 * (cum[i][j] / 100.0) + draw.noise[i][j]
        + 0.00015 * t as real + SeasonalComponent(t, 0.004, 36, env.sinCycle) + HistoricalRamp()[i][j]
        + ClimateBias(t, EpochDate(t).month, draw.droughtDraw, draw.rainDraw, env.sinCycle)
  {
    var climate := ClimateBias(t, EpochDate(t).month, draw.droughtDraw, draw.rainDraw, env.sinCycle);
    var withTrend := AddScalar(Ar1Series(Memory(cum), draw.noise, 0.92), 0.00015 * t as real);
    var withSeason := AddScalar(withTrend, SeasonalComponent(t, 0.004, 36, env.sinCycle));
    AddScalar(Add(withSeason, HistoricalRamp()), climate)
  }

  /** The line-of-sight displacement of epoch t. */
  function EpochLos(t: nat, cum: Grid, draw: EpochDraws, env: Physics): (dlos: Grid)
    requires t < Epochs
    requires Rect(cum, H, W) && Rect(draw.noise, H, W)
    ensures Rect(dlos, H, W)
  {
    LosFromVertical(EpochVertical(t, cum, draw, env), env.cosInc)
  }

  /**
   * The deficit after the first n epochs: zeros before epoch 0, then each
   * epoch's output deficit is the next epoch's input.
   */
  function CumAfter(n: nat, draws: seq<EpochDraws>, env: Physics): (cum: Grid)
    requires n <= |draws| <= Epochs && WellShaped(draws)
    ensures Rect(cum, H, W)
    ensures AllIn(cum, 0.0, AbsMaxCm)
  {
    if n == 0 then Zeros(H, W)
    else
      var prev := CumAfter(n - 1, draws, env);
      DisplacementToDryness(EpochLos(n - 1, prev, draws[n - 1], env), prev).1
  }

  /** What epoch t writes. */
  datatype EpochOutput = EpochOutput(dryFile: string, fireFile: string, dryness: Grid, fireMask: Mask)

  /**
   * The output of epoch t, from the deficit carried into it: written under
   * the names of its date, its dryness raster is the deficit carried out of
   * the epoch divided by 10 (so in [0, 1]), and its fire mask holds only 0
   * and 1.
   */
  function EpochResult(t: nat, draws: seq<EpochDraws>, env: Physics): (out: EpochOutput)
    requires t < |draws| <= Epochs && WellShaped(draws) && ValidPhysics(env)
    ensures out.dryFile == DryFileName(EpochDate(t)) && out.fireFile == FireFileName(EpochDate(t))
    ensures Rect(out.dryness, H, W) && AllIn(out.dryness, 0.0, 1.0)
    ensures forall i, j :: 0 <= i < H && 0 <= j < W ==>
      out.dryness[i][j] == CumAfter(t + 1, draws, env)[i][j] / AbsMaxCm
    ensures forall i, j :: 0 <= i < |out.fireMask| && 0 <= j < |out.fireMask[i]| ==>
      out.fireMask[i][j] == 0 || out.fireMask[i][j] == 1
  {
    var prev := CumAfter(t, draws, env);
    var step := DisplacementToDryness(EpochLos(t, prev, draws[t], env), prev);
    assert step.1 == CumAfter(t + 1, draws, env);
    var prob := FireProbabilityGrid(step.0, -1.1, 3.4, env.exp);
    EpochOutput(DryFileName(EpochDate(t)), FireFileName(EpochDate(t)), step.0,
                ClusterMask(prob, draws[t].fireDraws, env.blur))
  }

  /** The fire mask of every epoch is a 200×200 raster, the blur keeping the shape of the raw draw. */
  lemma EpochMaskShape(t: nat, draws: seq<EpochDraws>, env: Physics)
    requires t < |draws| <= Epochs && WellShaped(draws) && ValidPhysics(env)
    ensures Rect(EpochResult(t, draws, env).fireMask, H, W)
  {
    var prev := CumAfter(t, draws, env);
    var step := DisplacementToDryness(EpochLos(t, prev, draws[t], env), prev);
    var prob := FireProbabilityGrid(step.0, -1.1, 3.4, env.exp);
    assert Rect(RawFires(prob, draws[t].fireDraws), H, W);
  }

  /**
   * run_module3_historical: the epoch loop. The deficit starts at zero and is
   * threaded from each epoch into the next; the epochs' rasters are returned
   * in epoch order instead of being written to the two archive directories.
   */
  method RunModule3Historical(draws: seq<EpochDraws>, env: Physics) returns (out: seq<EpochOutput>)
    requires |draws| == Epochs && WellShaped(draws) && ValidPhysics(env)
    ensures |out| == Epochs
    ensures forall t :: 0 <= t < Epochs ==> out[t] == EpochResult(t, draws, env)
  {
    var cum := Zeros(H, W);
    out := [];
    for t := 0 to Epochs
      invariant cum == CumAfter(t, draws, env)
      invariant ResultsUpTo(out, t, draws, env)
    {
      var result;
      result, cum := RunEpoch(t, cum, draws, env);
      ExtendResults(out, result, t, draws, env);
      out := out + [result];
    }
  }

  /** `out` holds the outputs of epochs 0 .. t-1, in order. */
  ghost predicate ResultsUpTo(out: seq<EpochOutput>, t: nat, draws: seq<EpochDraws>, env: Physics)
    requires t <= |draws| <= Epochs && WellShaped(draws) && ValidPhysics(env)
  {
    |out| == t && forall k :: 0 <= k < t ==> out[k] == EpochResult(k, draws, env)
  }

  lemma ExtendResults(out: seq<EpochOutput>, result: EpochOutput, t: nat, draws: seq<EpochDraws>, env: Physics)
    requires t < |draws| <= Epochs && WellShaped(draws) && ValidPhysics(env)
    requires ResultsUpTo(out, t, draws, env) && result == EpochResult(t, draws, env)
    ensures ResultsUpTo(out + [result], t + 1, draws, env)
  {
    var ext := out + [result];
    forall k | 0 <= k < t + 1 ensures ext[k] == EpochResult(k, draws, env) {
      if k < t {
        assert ext[k] == out[k];
      }
    }
  }

  /** One pass of the epoch loop's body: from the deficit carried in, the epoch's rasters and the deficit carried out. */
  method RunEpoch(t: nat, cum: Grid, draws: seq<EpochDraws>, env: Physics)
    returns (result: EpochOutput, next: Grid)
    requires t < |draws| == Epochs && WellShaped(draws) && ValidPhysics(env)
    requires cum == CumAfter(t, draws, env)
    ensures next == CumAfter(t + 1, draws, env)
    ensures result == EpochResult(t, draws, env)
  {
    var date := AddDays(StartDate, EpochDays * t);
    var dlos := EpochLos(t, cum, draws[t], env);
    var step := DisplacementToDryness(dlos, cum);
    var dryness := step.0;
    next := step.1;
    var prob := FireProbabilityGrid(dryness, -1.1, 3.4, env.exp);
    var mask := ClusterMask(prob, draws[t].fireDraws, env.blur);
    result := EpochOutput(DryFileName(date), FireFileName(date), dryness, mask);
  }
}
