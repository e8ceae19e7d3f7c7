/**
 * Two-dimensional rasters as nested sequences (row index first, as numpy
 * arrays of shape (height, width)), and the numpy operations the pipeline
 * applies to them: element-wise arithmetic, np.clip, flatten and mean.
 */
module Grids {

  /** A raster of displacement, deficit or dryness values. */
  type Grid = seq<seq<real>>

  /** An integer raster (fire masks are 0/1 uint8 rasters). */
  type Mask = seq<seq<int>>

  /** `g` has shape (h, w). */
  predicate Rect<T>(g: seq<seq<T>>, h: nat, w: nat)
  {
    |g| == h && forall i :: 0 <= i < h ==> |g[i]| == w
  }

  /** A raster read from disk: rectangular with at least one pixel. */
  predicate IsRaster<T>(g: seq<seq<T>>)
  {
    |g| > 0 && |g[0]| > 0 && Rect(g, |g|, |g[0]|)
  }

  /** Equal shapes, row by row. */
  predicate SameShape<T, U>(a: seq<seq<T>>, b: seq<seq<U>>)
  {
    |a| == |b| && forall i :: 0 <= i < |a| ==> |a[i]| == |b[i]|
  }

  /** Every cell of `g` lies in [lo, hi]. */
  predicate AllIn(g: Grid, lo: real, hi: real)
  {
    forall i, j :: 0 <= i < |g| && 0 <= j < |g[i]| ==> lo <= g[i][j] <= hi
  }

  /** np.clip(x, lo, hi) for lo <= hi. */
  function Clip(x: real, lo: real, hi: real): (r: real)
    requires lo <= hi
    ensures lo <= r <= hi
    ensures lo <= x <= hi ==> r == x
    ensures x < lo ==> r == lo
    ensures hi < x ==> r == hi
  {
    if x < lo then lo else if hi < x then hi else x
  }

  /** np.clip(x, 0, None). */
  function ClipLow(x: real): (r: real)
    ensures r >= 0.0
    ensures r == x || r == 0.0
    ensures r > 0.0 <==> x > 0.0
  {
    if x < 0.0 then 0.0 else x
  }

  /** np.zeros((h, w)). */
  function Zeros(h: nat, w: nat): (z: Grid)
    ensures Rect(z, h, w)
    ensures forall i, j :: 0 <= i < h && 0 <= j < w ==> z[i][j] == 0.0
  {
    seq(h, i => seq(w, j => 0.0))
  }

  /** An element-wise numpy expression of one array. */
  function MapCells(g: Grid, f: real -> real): (r: Grid)
    ensures SameShape(r, g)
    ensures forall i, j :: 0 <= i < |g| && 0 <= j < |g[i]| ==> r[i][j] == f(g[i][j])
  {
    seq(|g|, i requires 0 <= i < |g| => seq(|g[i]|, j requires 0 <= j < |g[i]| => f(g[i][j])))
  }

  /** `np.zeros_like(g)`: a zero raster of the same shape. */
  function ZerosLike(g: Grid): (z: Grid)
    ensures SameShape(z, g)
    ensures AllIn(z, 0.0, 0.0)
  {
    MapCells(g, v => 0.0)
  }

  /** An element-wise numpy expression of two arrays of the same shape. */
  function ZipCells(a: Grid, b: Grid, f: (real, real) -> real): (r: Grid)
    requires SameShape(a, b)
    ensures SameShape(r, a)
    ensures forall i, j :: 0 <= i < |a| && 0 <= j < |a[i]| ==> r[i][j] == f(a[i][j], b[i][j])
  {
    seq(|a|, i requires 0 <= i < |a| =>
      seq(|a[i]|, j requires 0 <= j < |a[i]| => f(a[i][j], b[i][j])))
  }

  /** `array + scalar` (numpy broadcasting of a scalar). */
  function AddScalar(g: Grid, s: real): (r: Grid)
    ensures SameShape(r, g)
    ensures forall i, j :: 0 <= i < |g| && 0 <= j < |g[i]| ==> r[i][j] == g[i][j] + s
  {
    MapCells(g, v => v + s)
  }

  /** `a + b` for arrays of one shape. */
  function Add(a: Grid, b: Grid): (r: Grid)
    requires SameShape(a, b)
    ensures SameShape(r, a)
    ensures forall i, j :: 0 <= i < |a| && 0 <= j < |a[i]| ==> r[i][j] == a[i][j] + b[i][j]
  {
    ZipCells(a, b, (x, y) => x + y)
  }

  /** An integer mask as floats (`mask.astype(float)`). */
  function AsReal(m: Mask): (r: Grid)
    ensures SameShape(r, m)
    ensures forall i, j :: 0 <= i < |m| && 0 <= j < |m[i]| ==> r[i][j] == m[i][j] as real
  {
    seq(|m|, i requires 0 <= i < |m| =>
      seq(|m[i]|, j requires 0 <= j < |m[i]| => m[i][j] as real))
  }

  /** Row-major `flatten()`. */
  function Flatten<T>(g: seq<seq<T>>): seq<T>
  {
    if g == [] then [] else g[0] + Flatten(g[1..])
  }

  /** Flattening an h×w raster gives h·w values. */
  lemma {:induction false} FlattenLength<T>(g: seq<seq<T>>, h: nat, w: nat)
    requires Rect(g, h, w)
    ensures |Flatten(g)| == h * w
  {
    if h > 0 {
      assert Rect(g[1..], h - 1, w) by {
        forall i | 0 <= i < h - 1 ensures |g[1..][i]| == w { assert g[1..][i] == g[i + 1]; }
      }
      FlattenLength(g[1..], h - 1, w);
      assert h * w == (h - 1) * w + w;
    }
  }

  /** The flattened array holds cell (i, j) of an h×w raster at position i·w + j. */
  lemma {:induction false} FlattenAt<T>(g: seq<seq<T>>, h: nat, w: nat, i: nat, j: nat)
    requires Rect(g, h, w) && i < h && j < w
    ensures |Flatten(g)| == h * w
    ensures i * w + j < h * w
    ensures Flatten(g)[i * w + j] == g[i][j]
  {
    FlattenLength(g, h, w);
    CellOffsetBound(i, j, h, w);
    var rest := g[1..];
    assert Rect(rest, h - 1, w) by {
      forall r | 0 <= r < h - 1 ensures |rest[r]| == w { assert rest[r] == g[r + 1]; }
    }
    assert Flatten(g) == g[0] + Flatten(rest);
    if i == 0 {
      assert (g[0] + Flatten(rest))[j] == g[0][j];
    } else {
      RowOffset(i, j, h, w);
      FlattenAt(rest, h - 1, w, i - 1, j);
      var k := (i - 1) * w + j;
      assert (g[0] + Flatten(rest))[w + k] == Flatten(rest)[k];
      assert rest[i - 1] == g[i];
    }
  }

  /** The row-major offset of cell (i, j) lies inside an h×w raster. */
  lemma CellOffsetBound(i: nat, j: nat, h: nat, w: nat)
    requires i < h && j < w
    ensures i * w + j < h * w
  {
    MulMonotone(i + 1, h, w);
    assert (i + 1) * w == i * w + w;
  }

  lemma {:induction false} MulMonotone(a: nat, b: nat, w: nat)
    requires a <= b
    ensures a * w <= b * w
  {
    if a < b {
      MulMonotone(a, b - 1, w);
      assert b * w == (b - 1) * w + w;
    }
  }

  /** Euclidean remainder is determined by any decomposition x = a·p + b with 0 <= b < p. */
  lemma ModUnique(x: int, p: int, a: int, b: int)
    requires p > 0 && 0 <= b < p && x == a * p + b
    ensures x % p == b
  {
    var q, r := x / p, x % p;
    assert x == q * p + r;
    assert (a - q) * p == r - b;
    if a > q {
      MulMonotone(1, a - q, p);
      assert false;
    } else if a < q {
      MulMonotone(1, q - a, p);
      assert false;
    }
  }

  /** Arithmetic of row-major offsets: row i of an h×w raster starts one row after row i - 1. */
  lemma RowOffset(i: nat, j: nat, h: nat, w: nat)
    requires 0 < i < h && j < w
    ensures i * w + j == w + ((i - 1) * w + j)
    ensures (i - 1) * w + j < (h - 1) * w
  {
    assert i * w == (i - 1) * w + w;
    CellOffsetBound(i - 1, j, h - 1, w);
  }

  /** Rasters of one shape flatten to sequences of one length. */
  lemma {:induction false} FlattenSameLength<T, U>(a: seq<seq<T>>, b: seq<seq<U>>)
    requires SameShape(a, b)
    ensures |Flatten(a)| == |Flatten(b)|
  {
    if a != [] {
      assert SameShape(a[1..], b[1..]) by {
        forall i | 0 <= i < |a[1..]| ensures |a[1..][i]| == |b[1..][i]| {
          assert a[1..][i] == a[i + 1] && b[1..][i] == b[i + 1];
        }
      }
      FlattenSameLength(a[1..], b[1..]);
    }
  }

  /** Every flattened value of a raster whose cells lie in [lo, hi] lies in [lo, hi]. */
  lemma {:induction false} FlattenAllIn(g: Grid, lo: real, hi: real)
    requires AllIn(g, lo, hi)
    ensures forall k :: 0 <= k < |Flatten(g)| ==> lo <= Flatten(g)[k] <= hi
  {
    if g != [] {
      assert AllIn(g[1..], lo, hi) by {
        forall i, j | 0 <= i < |g[1..]| && 0 <= j < |g[1..][i]|
          ensures lo <= g[1..][i][j] <= hi
        {
          assert g[1..][i] == g[i + 1];
        }
      }
      FlattenAllIn(g[1..], lo, hi);
      forall k | 0 <= k < |Flatten(g)| ensures lo <= Flatten(g)[k] <= hi {
        if k < |g[0]| {
          assert Flatten(g)[k] == g[0][k];
        } else {
          assert Flatten(g)[k] == Flatten(g[1..])[k - |g[0]|];
        }
      }
    }
  }

  /** Sum of a sequence of values. */
  function Sum(s: seq<real>): real
  {
    if s == [] then 0.0 else s[0] + Sum(s[1..])
  }

  /** A sum of n values in [lo, hi] lies in [n·lo, n·hi]. */
  lemma {:induction false} SumWithin(s: seq<real>, lo: real, hi: real)
    requires forall k :: 0 <= k < |s| ==> lo <= s[k] <= hi
    ensures |s| as real * lo <= Sum(s) <= |s| as real * hi
  {
    if s != [] {
      SumWithin(s[1..], lo, hi);
      assert |s[1..]| as real == |s| as real - 1.0;
    }
  }

  /** np.mean over every element of the array. */
  function Mean(g: Grid): real
    requires |Flatten(g)| > 0
  {
    Sum(Flatten(g)) / |Flatten(g)| as real
  }

  /** The mean of a raster whose cells lie in [lo, hi] lies in [lo, hi]. */
  lemma MeanWithin(g: Grid, lo: real, hi: real)
    requires |Flatten(g)| > 0
    requires AllIn(g, lo, hi)
    ensures lo <= Mean(g) <= hi
  {
    FlattenAllIn(g, lo, hi);
    AverageWithin(Flatten(g), lo, hi);
  }

  /** The average of values in [lo, hi] lies in [lo, hi]. */
  lemma AverageWithin(s: seq<real>, lo: real, hi: real)
    requires |s| > 0
    requires forall k :: 0 <= k < |s| ==> lo <= s[k] <= hi
    ensures lo <= Sum(s) / |s| as real <= hi
  {
    SumWithin(s, lo, hi);
    DivideWithin(Sum(s), |s| as real, lo, hi);
  }

  lemma DivideWithin(x: real, n: real, lo: real, hi: real)
    requires n > 0.0
    requires n * lo <= x <= n * hi
    ensures lo <= x / n <= hi
  {
    DivideMonotone(n * lo, x, n);
    DivideMonotone(x, n * hi, n);
  }

  lemma DivideMonotone(a: real, b: real, n: real)
    requires n > 0.0 && a <= b
    ensures a / n <= b / n
  {
    assert b / n - a / n == (b - a) / n;
  }

  /** A raster with at least one pixel has a non-empty flattening. */
  lemma RasterNonEmpty<T>(g: seq<seq<T>>)
    requires IsRaster(g)
    ensures |Flatten(g)| == |g| * |g[0]| > 0
  {
    FlattenLength(g, |g|, |g[0]|);
  }
}
