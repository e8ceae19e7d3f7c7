/**
 * The live displacement generator of scripts/module2_stream.py: a balanced
 * demo cycle of 10 drying steps followed by 5 rewetting steps, an AR(1)
 * vertical field with ramp, trend and phase bias, at most one random shock
 * per step, and the persisted previous vertical field.
 */
module LiveDisplacement {
  import opened Wrappers
  import opened Grids
  import opened SynthUtils

  const DrySteps: int := 10
  const WetSteps: int := 5
  const CycleLen: int := DrySteps + WetSteps

  const DryBias: real := -0.012
  const WetBias: real := 0.008

  const DroughtChance: real := 0.12
  const DroughtMag: real := -0.03
  const StormChance: real := 0.08
  const StormMag: real := 0.03

  const TrendCoef: real := 0.00005
  const ArPhi: real := 0.93

  const H: nat := 200
  const W: nat := 200

  datatype Phase = Dry | Wet

  datatype Shock = Drought | Storm | NoShock

  /** The phase of step t: the first DrySteps steps of every cycle dry, the rest wet. */
  function PhaseOf(t: int): (p: Phase)
    ensures p == Dry <==> 0 <= t % CycleLen < DrySteps
    ensures p == Wet <==> DrySteps <= t % CycleLen < DrySteps + WetSteps
  {
    if t % CycleLen < DrySteps then Dry else Wet
  }

  /** The schedule repeats every 15 steps. */
  lemma PhasePeriodic(t: int)
    ensures PhaseOf(t + CycleLen) == PhaseOf(t)
  {
    ModUnique(t + CycleLen, CycleLen, t / CycleLen + 1, t % CycleLen);
  }

  /** Within cycle c, steps 15c .. 15c+9 are dry and steps 15c+10 .. 15c+14 are wet. */
  lemma PhaseWithinCycle(c: int, k: int)
    requires 0 <= k < CycleLen
    ensures PhaseOf(c * CycleLen + k) == Dry <==> k < DrySteps
    ensures PhaseOf(c * CycleLen + k) == Wet <==> DrySteps <= k
  {
    ModUnique(c * CycleLen + k, CycleLen, c, k);
  }

  /** Subsidence bias while drying, uplift bias while rewetting. */
  function PhaseBias(p: Phase): (b: real)
    ensures p == Dry ==> b == DryBias && b < 0.0
    ensures p == Wet ==> b == WetBias && b > 0.0
  {
    if p == Dry then DryBias else WetBias
  }

  /**
   * The extreme event of a step, from the one uniform draw the step makes:
   * a drought needs the dry phase, a storm the wet phase.
   */
  function ShockOf(p: Phase, draw: real): (s: Shock)
    ensures s == Drought <==> p == Dry && draw < DroughtChance
    ensures s == Storm <==> p == Wet && draw < StormChance
  {
    if p == Dry && draw < DroughtChance then Drought
    else if p == Wet && draw < StormChance then Storm
    else NoShock
  }

  /** The offset a shock adds to the whole grid. */
  function ShockMagnitude(s: Shock): (m: real)
    ensures s == NoShock <==> m == 0.0
    ensures s == Drought ==> m < 0.0
    ensures s == Storm ==> m > 0.0
  {
    match s
    case Drought => DroughtMag
    case Storm => StormMag
    case NoShock => 0.0
  }

  /** The fixed ramp of the live generator. */
  function LiveRamp(): (r: Grid)
    ensures Rect(r, H, W)
  {
    PlanarRamp(H, W, 0.00002, -0.000015)
  }

  /** The AR(1) memory: the persisted grid, or zeros when no state was saved yet. */
  function PriorOrZeros(saved: Option<Grid>): (prev: Grid)
    ensures saved.None? ==> prev == Zeros(H, W)
    ensures saved.Some? ==> prev == saved.value
  {
    if saved.Some? then saved.value else Zeros(H, W)
  }

  /** The vertical displacement of step t (metres). */
  function Vertical(prev: Grid, innovation: Grid, t: int, draw: real): (dvert: Grid)
    requires Rect(prev, H, W) && Rect(innovation, H, W)
    ensures Rect(dvert, H, W)
    ensures forall i, j :: 0 <= i < H && 0 <= j < W ==>
      dvert[i][j] == ArPhi * prev[i][j] + innovation[i][j] + LiveRamp()[i][j]
                     + TrendCoef * t as real + PhaseBias(PhaseOf(t))
                     + ShockMagnitude(ShockOf(PhaseOf(t), draw))
  {
    var phase := PhaseOf(t);
    var base := AddScalar(AddScalar(Add(Ar1Series(prev, innovation, ArPhi), LiveRamp()),
                                    TrendCoef * t as real), PhaseBias(phase));
    AddScalar(base, ShockMagnitude(ShockOf(phase, draw)))
  }

  /**
   * Outside a shock, each cell is 0.93·prev + innovation + ramp + 0.00005·t
   * plus the phase bias; a drought adds -0.03 in a dry step, a storm +0.03 in
   * a wet step, never both.
   */
  lemma VerticalComposition(prev: Grid, innovation: Grid, t: int, draw: real, i: nat, j: nat)
    requires Rect(prev, H, W) && Rect(innovation, H, W) && i < H && j < W
    ensures var base := 0.93 * prev[i][j] + innovation[i][j] + (0.00002 * j as real - 0.000015 * i as real)
                        + 0.00005 * t as real;
      var v := Vertical(prev, innovation, t, draw)[i][j];
      && (t % 15 < 10 && draw >= 0.12 ==> v == base - 0.012)
      && (t % 15 < 10 && draw < 0.12 ==> v == base - 0.012 - 0.03)
      && (t % 15 >= 10 && draw >= 0.08 ==> v == base + 0.008)
      && (t % 15 >= 10 && draw < 0.08 ==> v == base + 0.008 + 0.03)
  {
  }

  /** A cold start (no saved state) starts the memory from a zero grid, so the AR(1) term is the innovation. */
  lemma ColdStartMemory(innovation: Grid)
    requires Rect(innovation, H, W)
    ensures Ar1Series(PriorOrZeros(None), innovation, ArPhi) == innovation
  {
    Ar1FromZero(innovation, H, W, ArPhi);
  }

  /**
   * The files the generator owns: the persisted vertical field
   * (live_state.npz, key dvert_prev) and the line-of-sight raster
   * (displacement.tif). None means the file does not exist yet.
   */
  class DisplacementStream {
    var dvertPrev: Option<Grid>
    var losRaster: Option<Grid>

    ghost predicate Valid()
      reads this
    {
      dvertPrev.Some? ==> Rect(dvertPrev.value, H, W)
    }

    /** First run: neither file exists. */
    constructor ()
      ensures Valid() && dvertPrev == None && losRaster == None
    {
      dvertPrev := None;
      losRaster := None;
    }

    /**
     * generate_live_displacement(t): loads the previous vertical field (or
     * zeros), builds the new vertical field, writes its line-of-sight
     * projection and persists the VERTICAL field as the next memory.
     * `innovation` is the smooth noise field of the step, `draw` its one
     * uniform draw, `cosInc` the cosine of the 37° incidence.
     */
    method GenerateLiveDisplacement(t: int, innovation: Grid, draw: real, cosInc: real)
      requires Valid() && Rect(innovation, H, W)
      modifies this
      ensures Valid()
      ensures dvertPrev == Some(Vertical(PriorOrZeros(old(dvertPrev)), innovation, t, draw))
      ensures losRaster == Some(LosFromVertical(dvertPrev.value, cosInc))
    {
      var prev := PriorOrZeros(dvertPrev);
      var dvert := Vertical(prev, innovation, t, draw);
      var dlos := LosFromVertical(dvert, cosInc);
      losRaster := Some(dlos);
      dvertPrev := Some(dvert);
    }
  }
}
