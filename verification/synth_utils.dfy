/**
 * The stateless field synthesiser of scripts/synth_utils.py: planar ramp,
 * AR(1) step, seasonal term, line-of-sight projection, logistic fire
 * probability and the draw-blur-threshold cluster mask.
 *
 * Transcendental functions and random draws are parameters:
 *   sinCycle  stands for x ↦ sin(2πx) (every sine in the source has that form),
 *   cosInc    for cos(incidence) with the incidence in radians,
 *   exp       for the exponential,
 *   blur      for scipy's gaussian_filter at the caller's sigma,
 *   u         for a grid of uniform draws in [0, 1).
 */
module SynthUtils {
  import opened Grids

  /** planar_ramp(h, w, ax, ay): an h×w tilt whose cell (y, x) holds ax·x + ay·y. */
  function PlanarRamp(h: nat, w: nat, ax: real, ay: real): (r: Grid)
    ensures Rect(r, h, w)
    ensures forall y, x :: 0 <= y < h && 0 <= x < w ==> r[y][x] == ax * x as real + ay * y as real
  {
    seq(h, y => seq(w, x => ax * x as real + ay * y as real))
  }

  /** ar1_series(prev, innovation, phi) = phi·prev + innovation, element-wise. */
  function Ar1Series(prev: Grid, innovation: Grid, phi: real): (r: Grid)
    requires SameShape(prev, innovation)
    ensures SameShape(r, prev)
    ensures forall i, j :: 0 <= i < |prev| && 0 <= j < |prev[i]| ==>
      r[i][j] == phi * prev[i][j] + innovation[i][j]
  {
    ZipCells(prev, innovation, (p, e) => phi * p + e)
  }

  /** With no memory (a zero previous grid) the AR(1) step is the innovation itself. */
  lemma Ar1FromZero(innovation: Grid, h: nat, w: nat, phi: real)
    requires Rect(innovation, h, w)
    ensures Ar1Series(Zeros(h, w), innovation, phi) == innovation
  {
    var r := Ar1Series(Zeros(h, w), innovation, phi);
    assert |r| == |innovation|;
    forall i | 0 <= i < h ensures r[i] == innovation[i] {
      assert |r[i]| == |innovation[i]|;
      forall j | 0 <= j < w ensures r[i][j] == innovation[i][j] {
        assert Zeros(h, w)[i][j] == 0.0;
      }
    }
  }

  /** seasonal_component(t, amp, period) = amp·sin(2π·(t mod period)/period). */
  function SeasonalComponent(t: int, amp: real, period: int, sinCycle: real -> real): (s: real)
    requires period > 0
    ensures var phase := (t % period) as real / period as real;
      0.0 <= phase < 1.0 && s == amp * sinCycle(phase)
  {
    amp * sinCycle((t % period) as real / period as real)
  }

  /** The seasonal term repeats with the period. */
  lemma SeasonalPeriodic(t: int, amp: real, period: int, sinCycle: real -> real)
    requires period > 0
    ensures SeasonalComponent(t + period, amp, period, sinCycle)
         == SeasonalComponent(t, amp, period, sinCycle)
  {
    ModUnique(t + period, period, t / period + 1, t % period);
  }

  /** At the start of every cycle the seasonal term is 0 (sin 0 = 0). */
  lemma SeasonalZeroAtCycleStart(t: int, amp: real, period: int, sinCycle: real -> real)
    requires period > 0 && t % period == 0
    requires sinCycle(0.0) == 0.0
    ensures SeasonalComponent(t, amp, period, sinCycle) == 0.0
  {
  }

  /** |seasonal term| <= |amp|, since |sin| <= 1. */
  lemma SeasonalBounded(t: int, amp: real, period: int, sinCycle: real -> real)
    requires period > 0
    requires forall x :: -1.0 <= sinCycle(x) <= 1.0
    ensures -Abs(amp) <= SeasonalComponent(t, amp, period, sinCycle) <= Abs(amp)
  {
    var s := sinCycle((t % period) as real / period as real);
    assert -1.0 <= s <= 1.0;
    assert SeasonalComponent(t, amp, period, sinCycle) == amp * s;
    if amp >= 0.0 {
      assert amp * s <= amp * 1.0;
      assert amp * -1.0 <= amp * s;
    } else {
      assert amp * s <= amp * -1.0;
      assert amp * 1.0 <= amp * s;
    }
  }

  function Abs(x: real): real { if x < 0.0 then -x else x }

  /** los_from_vertical(d, incidence) = d·cos(incidence), element-wise. */
  function LosFromVertical(dvert: Grid, cosInc: real): (r: Grid)
    ensures SameShape(r, dvert)
    ensures forall i, j :: 0 <= i < |dvert| && 0 <= j < |dvert[i]| ==>
      r[i][j] == dvert[i][j] * cosInc
  {
    MapCells(dvert, v => v * cosInc)
  }

  /**
   * The projection is linear and, for an incidence below 90° (cos > 0), keeps
   * the sign of every cell: subsidence stays subsidence and uplift stays uplift.
   */
  lemma LosPreservesSign(dvert: Grid, cosInc: real)
    requires cosInc > 0.0
    ensures var r := LosFromVertical(dvert, cosInc);
      forall i, j :: 0 <= i < |dvert| && 0 <= j < |dvert[i]| ==>
        (r[i][j] < 0.0 <==> dvert[i][j] < 0.0) &&
        (r[i][j] == 0.0 <==> dvert[i][j] == 0.0) &&
        (r[i][j] > 0.0 <==> dvert[i][j] > 0.0)
  {
    var r := LosFromVertical(dvert, cosInc);
    forall i, j | 0 <= i < |dvert| && 0 <= j < |dvert[i]|
      ensures (r[i][j] < 0.0 <==> dvert[i][j] < 0.0) &&
              (r[i][j] == 0.0 <==> dvert[i][j] == 0.0) &&
              (r[i][j] > 0.0 <==> dvert[i][j] > 0.0)
    {
      SignOfProduct(dvert[i][j], cosInc);
    }
  }

  lemma SignOfProduct(v: real, c: real)
    requires c > 0.0
    ensures v * c < 0.0 <==> v < 0.0
    ensures v * c == 0.0 <==> v == 0.0
    ensures v * c > 0.0 <==> v > 0.0
  {
    if v < 0.0 { assert v * c < 0.0 * c; }
    if v > 0.0 { assert v * c > 0.0 * c; }
  }

  /** Projection of a sum is the sum of the projections. */
  lemma LosAdditive(a: Grid, b: Grid, cosInc: real)
    requires SameShape(a, b)
    ensures LosFromVertical(Add(a, b), cosInc)
         == Add(LosFromVertical(a, cosInc), LosFromVertical(b, cosInc))
  {
    var l := LosFromVertical(Add(a, b), cosInc);
    var r := Add(LosFromVertical(a, cosInc), LosFromVertical(b, cosInc));
    assert |l| == |r|;
    forall i | 0 <= i < |l| ensures l[i] == r[i] {
      assert |l[i]| == |r[i]|;
      forall j | 0 <= j < |l[i]| ensures l[i][j] == r[i][j] {
        assert l[i][j] == (a[i][j] + b[i][j]) * cosInc;
      }
    }
  }

  /** `exp` is positive everywhere, as the exponential is. */
  ghost predicate PositiveFn(exp: real -> real)
  {
    forall x :: exp(x) > 0.0
  }

  /** `exp` is non-decreasing, as the exponential is. */
  ghost predicate MonotoneFn(exp: real -> real)
  {
    forall x, y :: x <= y ==> exp(x) <= exp(y)
  }

  /** logistic(p) = 1 / (1 + exp(-p)): a probability strictly between 0 and 1. */
  function Logistic(p: real, exp: real -> real): (r: real)
    requires PositiveFn(exp)
    ensures 0.0 < r < 1.0
  {
    var e := exp(-p);
    assert e > 0.0;
    assert 1.0 / (1.0 + e) < 1.0 by { assert 1.0 < 1.0 + e; }
    1.0 / (1.0 + e)
  }

  /** fire_probability_from_dryness(d, bias, scale) = logistic(bias + scale·d). */
  function FireProbability(dryness: real, bias: real, scale: real, exp: real -> real): (r: real)
    requires PositiveFn(exp)
    ensures 0.0 < r < 1.0
  {
    Logistic(bias + scale * dryness, exp)
  }

  /** A drier cell never gets a lower fire probability (for scale >= 0). */
  lemma FireProbabilityMonotone(d1: real, d2: real, bias: real, scale: real, exp: real -> real)
    requires PositiveFn(exp) && MonotoneFn(exp)
    requires scale >= 0.0 && d1 <= d2
    ensures FireProbability(d1, bias, scale, exp) <= FireProbability(d2, bias, scale, exp)
  {
    var p1, p2 := bias + scale * d1, bias + scale * d2;
    assert scale * d1 <= scale * d2;
    var e1, e2 := exp(-p1), exp(-p2);
    assert e2 <= e1;
    assert 1.0 / (1.0 + e1) <= 1.0 / (1.0 + e2) by {
      ReciprocalAntitone(1.0 + e2, 1.0 + e1);
    }
  }

  lemma ReciprocalAntitone(a: real, b: real)
    requires 0.0 < a <= b
    ensures 1.0 / b <= 1.0 / a
  {
    assert 1.0 / a - 1.0 / b == (b - a) / (a * b);
  }

  /** The probability map of a whole dryness grid. */
  function FireProbabilityGrid(dryness: Grid, bias: real, scale: real, exp: real -> real): (r: Grid)
    requires PositiveFn(exp)
    ensures SameShape(r, dryness)
    ensures AllIn(r, 0.0, 1.0)
    ensures forall i, j :: 0 <= i < |dryness| && 0 <= j < |dryness[i]| ==>
      r[i][j] == FireProbability(dryness[i][j], bias, scale, exp)
  {
    MapCells(dryness, d => FireProbability(d, bias, scale, exp))
  }

  /** The raw per-pixel draw `uniform < prob`, as floats 0/1. */
  function RawFires(prob: Grid, u: Grid): (r: Grid)
    requires SameShape(prob, u)
    ensures SameShape(r, prob)
  {
    ZipCells(u, prob, (x, p) => if x < p then 1.0 else 0.0)
  }

  /** cluster_mask: blur the raw draws and keep the cells whose blurred value exceeds 0.35. */
  function ClusterMask(prob: Grid, u: Grid, blur: Grid -> Grid): (m: Mask)
    requires SameShape(prob, u)
    ensures var smooth := blur(RawFires(prob, u));
      SameShape(m, smooth) &&
      forall i, j :: 0 <= i < |m| && 0 <= j < |m[i]| ==>
        (m[i][j] == 0 || m[i][j] == 1) && (m[i][j] == 1 <==> smooth[i][j] > 0.35)
  {
    var smooth := blur(RawFires(prob, u));
    seq(|smooth|, i requires 0 <= i < |smooth| =>
      seq(|smooth[i]|, j requires 0 <= j < |smooth[i]| => if smooth[i][j] > 0.35 then 1 else 0))
  }

  /**
   * A zero probability field never ignites: no raw draw fires, the blur of a
   * zero field is zero, so no cell reaches the 0.35 threshold.
   */
  lemma ClusterMaskOfZeroProbability(prob: Grid, u: Grid, blur: Grid -> Grid, h: nat, w: nat)
    requires Rect(prob, h, w) && Rect(u, h, w)
    requires AllIn(prob, 0.0, 0.0) && AllIn(u, 0.0, 1.0)
    requires blur(Zeros(h, w)) == Zeros(h, w)
    ensures var m := ClusterMask(prob, u, blur);
      Rect(m, h, w) && forall i, j :: 0 <= i < h && 0 <= j < w ==> m[i][j] == 0
  {
    var raw := RawFires(prob, u);
    forall i | 0 <= i < h ensures raw[i] == Zeros(h, w)[i] {
      forall j | 0 <= j < w ensures raw[i][j] == 0.0 {
        assert !(u[i][j] < prob[i][j]);
      }
    }
    assert raw == Zeros(h, w);
  }
}
