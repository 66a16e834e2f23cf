/** The similarity engine of `calculate_image_similarity`: two grayscale
    rasters, already resized to 64x64 and converted to luminance, are compared
    by four sub-scores (pixel error, structure, histogram, edges) that are
    combined with the weights 0.3/0.3/0.2/0.2 and clamped to [0,1].

    Pixels are `int`s in 0..255 and scores are exact reals.  Resizing, the
    luminance conversion and the edge operator are not modelled: a raster
    arrives already normalised, or as `None` when that step raised, and the
    edge comparison arrives as the mean absolute difference of the two edge
    fields. */
module Similarity {
  import opened Common

  /** Side of the canonical square the scorer resizes both images to. */
  const Side := 64
  /** Number of pixels of a canonical raster. */
  const PixelCount := Side * Side
  /** `255 ** 2`, the largest possible squared pixel difference. */
  const MaxSquaredError: real := 65025.0
  /** The histogram has 32 bins over 0..256, each 8 intensity levels wide. */
  const Bins := 32
  const BinWidth := 8

  const MseWeight: real := 0.3
  const StructuralWeight: real := 0.3
  const HistogramWeight: real := 0.2
  const EdgeWeight: real := 0.2

  /** Every pixel is an 8-bit luminance value. */
  predicate IsGray(a: seq<int>)
  {
    forall i :: 0 <= i < |a| ==> 0 <= a[i] <= 255
  }

  /** Two rasters of the same, non-zero size. */
  predicate Comparable(a: seq<int>, b: seq<int>)
  {
    |a| == |b| && |a| > 0 && IsGray(a) && IsGray(b)
  }

  /** What `resize((64, 64))` followed by `convert('L')` produces. */
  predicate IsCanonical(a: seq<int>)
  {
    |a| == PixelCount && IsGray(a)
  }

  /** `max(0, min(1, x))`. */
  function Clamp01(x: real): (r: real)
    ensures 0.0 <= r <= 1.0
    ensures 0.0 <= x <= 1.0 ==> r == x
  {
    if x < 0.0 then 0.0 else if x > 1.0 then 1.0 else x
  }

  function Min(x: real, y: real): real
  {
    if x <= y then x else y
  }

  // ---------------------------------------------------------------------
  // 1. Pixel error (mean squared error)
  // ---------------------------------------------------------------------

  /** Sum over all pixels of the squared difference, computed on integers. */
  function SquaredErrorSum(a: seq<int>, b: seq<int>): real
    requires |a| == |b|
  {
    if a == [] then 0.0
    else
      ((a[0] - b[0]) * (a[0] - b[0])) as real + SquaredErrorSum(a[1..], b[1..])
  }

  lemma ProductMonotonic(x: int, y: int, z: int)
    requires 0 <= x <= y && 0 <= z
    ensures x * z <= y * z
  {
  }

  /** The square of a difference of two 8-bit values lies in 0..255**2 and
      is zero only for equal values. */
  lemma SquaredDifferenceBounds(x: int, y: int)
    requires 0 <= x <= 255 && 0 <= y <= 255
    ensures 0 <= (x - y) * (x - y) <= 65025
    ensures (x - y) * (x - y) == 0 <==> x == y
  {
    var d := if x >= y then x - y else y - x;
    assert (x - y) * (x - y) == d * d;
    ProductMonotonic(d, 255, d);
    ProductMonotonic(d, 255, 255);
    if d != 0 {
      ProductMonotonic(1, d, d);
    }
  }

  lemma {:induction false} SquaredErrorSumBounds(a: seq<int>, b: seq<int>)
    requires |a| == |b| && IsGray(a) && IsGray(b)
    ensures 0.0 <= SquaredErrorSum(a, b) <= |a| as real * MaxSquaredError
  {
    if a != [] {
      assert IsGray(a[1..]) && IsGray(b[1..]);
      SquaredErrorSumBounds(a[1..], b[1..]);
      SquaredDifferenceBounds(a[0], b[0]);
    }
  }

  /** The squared-error sum vanishes exactly on identical rasters. */
  lemma {:induction false} SquaredErrorSumZero(a: seq<int>, b: seq<int>)
    requires |a| == |b| && IsGray(a) && IsGray(b)
    ensures SquaredErrorSum(a, b) == 0.0 <==> a == b
  {
    if a != [] {
      assert IsGray(a[1..]) && IsGray(b[1..]);
      SquaredErrorSumZero(a[1..], b[1..]);
      SquaredErrorSumBounds(a[1..], b[1..]);
      SquaredDifferenceBounds(a[0], b[0]);
      assert a == [a[0]] + a[1..] && b == [b[0]] + b[1..];
    }
  }

  lemma {:induction false} SquaredErrorSumSymmetric(a: seq<int>, b: seq<int>)
    requires |a| == |b|
    ensures SquaredErrorSum(a, b) == SquaredErrorSum(b, a)
  {
    if a != [] {
      SquaredErrorSumSymmetric(a[1..], b[1..]);
      var d := a[0] - b[0];
      assert (b[0] - a[0]) * (b[0] - a[0]) == (-d) * (-d) == d * d;
    }
  }

  /** A sum of `n` terms, each between 0 and `c`, has its mean between 0
      and `c`. */
  lemma MeanBounded(sum: real, n: real, c: real)
    requires n > 0.0 && 0.0 <= sum <= n * c
    ensures 0.0 <= sum / n <= c
  {
    assert sum / n <= (n * c) / n;
  }

  /** `1 - mse / 255**2`, with the mean squared error taken over exact
      integer differences: the pixel-error sub-score as intended. */
  function MseSubScore(a: seq<int>, b: seq<int>): (r: real)
    requires Comparable(a, b)
    ensures 0.0 <= r <= 1.0
    ensures r == 1.0 <==> a == b
  {
    SquaredErrorSumBounds(a, b);
    SquaredErrorSumZero(a, b);
    var n := |a| as real;
    var mse := SquaredErrorSum(a, b) / n;
    MeanBounded(SquaredErrorSum(a, b), n, MaxSquaredError);
    1.0 - mse / MaxSquaredError
  }

  /** numpy's `uint8` arithmetic: every result is taken modulo 256. */
  function Wrap8(x: int): (r: int)
    ensures 0 <= r < 256
  {
    x % 256
  }

  /** The squared-error sum exactly as `(img1_array - img2_array) ** 2`
      computes it on two `uint8` arrays: the difference wraps modulo 256,
      and so does its square. */
  function WrappedSquaredErrorSum(a: seq<int>, b: seq<int>): real
    requires |a| == |b|
  {
    if a == [] then 0.0
    else
      var d := Wrap8(a[0] - b[0]);
      Wrap8(d * d) as real + WrappedSquaredErrorSum(a[1..], b[1..])
  }

  lemma {:induction false} WrappedSquaredErrorSumBounds(a: seq<int>, b: seq<int>)
    requires |a| == |b|
    ensures 0.0 <= WrappedSquaredErrorSum(a, b) <= |a| as real * 255.0
  {
    if a != [] {
      WrappedSquaredErrorSumBounds(a[1..], b[1..]);
    }
  }

  /** A sum of wrapped squares whose every term wraps to zero is zero. */
  lemma {:induction false} WrappedSquaredErrorSumVanishes(a: seq<int>, b: seq<int>)
    requires |a| == |b|
    requires forall i :: 0 <= i < |a| ==> Wrap8(Wrap8(a[i] - b[i]) * Wrap8(a[i] - b[i])) == 0
    ensures WrappedSquaredErrorSum(a, b) == 0.0
  {
    if a != [] {
      assert forall i :: 0 <= i < |a| - 1 ==> a[1..][i] == a[i + 1] && b[1..][i] == b[i + 1];
      WrappedSquaredErrorSumVanishes(a[1..], b[1..]);
    }
  }

  /** The pixel-error sub-score as the source computes it: because the mean
      squared error is taken over wrapped `uint8` squares it never exceeds
      255, so this sub-score never drops below `1 - 255/65025`. */
  function MseSubScoreAsWritten(a: seq<int>, b: seq<int>): (r: real)
    requires Comparable(a, b)
    ensures 1.0 - 255.0 / MaxSquaredError <= r <= 1.0
  {
    WrappedSquaredErrorSumBounds(a, b);
    var n := |a| as real;
    var mse := WrappedSquaredErrorSum(a, b) / n;
    MeanBounded(WrappedSquaredErrorSum(a, b), n, 255.0);
    assert mse / MaxSquaredError <= 255.0 / MaxSquaredError;
    1.0 - mse / MaxSquaredError
  }

  /** A uniformly black raster. */
  function Black(): (a: seq<int>)
    ensures IsCanonical(a)
  {
    seq(PixelCount, _ => 0)
  }

  /** A uniformly mid-grey raster (every pixel 128). */
  function MidGrey(): (a: seq<int>)
    ensures IsCanonical(a)
  {
    seq(PixelCount, _ => 128)
  }

  /** The wrap-around hides a difference of 128 levels on every pixel: the
      source scores a black raster against a mid-grey one as a perfect
      pixel-error match, while the intended sub-score does not. */
  lemma WrappedMseMissesDifference()
    ensures Black() != MidGrey()
    ensures MseSubScoreAsWritten(Black(), MidGrey()) == 1.0
    ensures MseSubScore(Black(), MidGrey()) < 1.0
  {
    var a, b := Black(), MidGrey();
    assert a[0] != b[0];
    forall i | 0 <= i < |a|
      ensures Wrap8(Wrap8(a[i] - b[i]) * Wrap8(a[i] - b[i])) == 0
    {
      assert a[i] - b[i] == -128;
      assert Wrap8(-128) == 128;
      assert Wrap8(128 * 128) == 0;
    }
    WrappedSquaredErrorSumVanishes(a, b);
  }

  // ---------------------------------------------------------------------
  // 2. Structural (SSIM-like) score from global means and variances
  // ---------------------------------------------------------------------

  function PixelSum(a: seq<int>): int
  {
    if a == [] then 0 else a[0] + PixelSum(a[1..])
  }

  /** `np.mean`. */
  function Mean(a: seq<int>): real
    requires |a| > 0
  {
    PixelSum(a) as real / |a| as real
  }

  /** Sum over pixels of `(a[i] - ma) * (b[i] - mb)`. */
  function CrossSum(a: seq<int>, ma: real, b: seq<int>, mb: real): real
    requires |a| == |b|
  {
    if a == [] then 0.0
    else (a[0] as real - ma) * (b[0] as real - mb) + CrossSum(a[1..], ma, b[1..], mb)
  }

  /** `np.var` (population variance, divisor n). */
  function Variance(a: seq<int>): real
    requires |a| > 0
  {
    CrossSum(a, Mean(a), a, Mean(a)) / |a| as real
  }

  /** `np.mean(img1_centered * img2_centered)`. */
  function Covariance(a: seq<int>, b: seq<int>): real
    requires |a| == |b| > 0
  {
    CrossSum(a, Mean(a), b, Mean(b)) / |a| as real
  }

  lemma {:induction false} CrossSumSymmetric(a: seq<int>, ma: real, b: seq<int>, mb: real)
    requires |a| == |b|
    ensures CrossSum(a, ma, b, mb) == CrossSum(b, mb, a, ma)
  {
    if a != [] {
      CrossSumSymmetric(a[1..], ma, b[1..], mb);
    }
  }

  lemma {:induction false} CrossSumSquaresNonNegative(a: seq<int>, m: real)
    ensures CrossSum(a, m, a, m) >= 0.0
  {
    if a != [] {
      CrossSumSquaresNonNegative(a[1..], m);
      var d := a[0] as real - m;
      assert d * d >= 0.0;
    }
  }

  lemma VarianceNonNegative(a: seq<int>)
    requires |a| > 0
    ensures Variance(a) >= 0.0
  {
    CrossSumSquaresNonNegative(a, Mean(a));
  }

  /** The structural sub-score: when both variances vanish (two flat
      rasters) it is 1 for equal rasters and 0 otherwise; else the ratio
      `(2*cov + 0.01) / (var1 + var2 + 0.01)`, clamped to [0,1].  For 8-bit
      rasters `np.allclose` holds exactly when the rasters are equal. */
  function StructuralSubScore(a: seq<int>, b: seq<int>): (r: real)
    requires Comparable(a, b)
    ensures 0.0 <= r <= 1.0
  {
    var va, vb := Variance(a), Variance(b);
    if va + vb == 0.0 then
      (if a == b then 1.0 else 0.0)
    else
      VarianceNonNegative(a);
      VarianceNonNegative(b);
      Clamp01((2.0 * Covariance(a, b) + 0.01) / (va + vb + 0.01))
  }

  lemma StructuralSubScoreSymmetric(a: seq<int>, b: seq<int>)
    requires Comparable(a, b)
    ensures StructuralSubScore(a, b) == StructuralSubScore(b, a)
  {
    CrossSumSymmetric(a, Mean(a), b, Mean(b));
  }

  lemma StructuralSubScoreOfIdentical(a: seq<int>)
    requires Comparable(a, a)
    ensures StructuralSubScore(a, a) == 1.0
  {
    VarianceNonNegative(a);
    var v := Variance(a);
    assert Covariance(a, a) == v;
    if v + v != 0.0 {
      assert (2.0 * v + 0.01) / (v + v + 0.01) == 1.0;
    }
  }

  /** A flat raster: every pixel has gray level `v`. */
  predicate FlatAt(a: seq<int>, v: int)
  {
    forall i :: 0 <= i < |a| ==> a[i] == v
  }

  lemma {:induction false} PixelSumOfFlat(a: seq<int>, v: int)
    requires FlatAt(a, v)
    ensures PixelSum(a) == |a| * v
  {
    if a != [] {
      PixelSumOfFlat(a[1..], v);
    }
  }

  lemma {:induction false} CrossSumAtLevel(a: seq<int>, v: int)
    requires FlatAt(a, v)
    ensures CrossSum(a, v as real, a, v as real) == 0.0
  {
    if a != [] {
      CrossSumAtLevel(a[1..], v);
    }
  }

  /** A flat raster has its level as mean and no variance. */
  lemma FlatRasterHasNoVariance(a: seq<int>, v: int)
    requires |a| > 0 && FlatAt(a, v)
    ensures Mean(a) == v as real
    ensures Variance(a) == 0.0
  {
    PixelSumOfFlat(a, v);
    assert (|a| * v) as real == |a| as real * v as real;
    CrossSumAtLevel(a, v);
  }

  /** Two flat rasters take the zero-variance branch: they score 1 when
      their levels agree and 0 when they differ. */
  lemma FlatRastersCompareByLevel(a: seq<int>, b: seq<int>, v: int, w: int)
    requires Comparable(a, b) && FlatAt(a, v) && FlatAt(b, w)
    ensures StructuralSubScore(a, b) == (if v == w then 1.0 else 0.0)
  {
    FlatRasterHasNoVariance(a, v);
    FlatRasterHasNoVariance(b, w);
    if v == w {
      assert a == b;
    } else {
      assert a[0] != b[0];
    }
  }

  // ---------------------------------------------------------------------
  // 3. Histogram intersection over 32 bins
  // ---------------------------------------------------------------------

  /** The bin `np.histogram(bins=32, range=(0, 256))` puts a value in. */
  function BinOf(v: int): int
  {
    v / BinWidth
  }

  function Zeros(n: nat): (h: seq<nat>)
    ensures |h| == n
  {
    seq(n, _ => 0)
  }

  /** The 32-bin histogram; values outside 0..255 are not counted. */
  function Histogram(a: seq<int>): (h: seq<nat>)
    ensures |h| == Bins
  {
    if a == [] then Zeros(Bins)
    else
      var h := Histogram(a[..|a| - 1]);
      var v := a[|a| - 1];
      if 0 <= v < 256 then h[BinOf(v) := h[BinOf(v)] + 1] else h
  }

  /** How many pixels of `a` have a level in 0..255 that falls in bin `k`. */
  function BinCount(a: seq<int>, k: int): nat
  {
    if a == [] then 0
    else (if 0 <= a[0] < 256 && BinOf(a[0]) == k then 1 else 0) + BinCount(a[1..], k)
  }

  lemma {:induction false} BinCountOfAppend(a: seq<int>, v: int, k: int)
    ensures BinCount(a + [v], k) == BinCount(a, k) + (if 0 <= v < 256 && BinOf(v) == k then 1 else 0)
  {
    if a != [] {
      assert (a + [v])[1..] == a[1..] + [v];
      BinCountOfAppend(a[1..], v, k);
    }
  }

  /** Bin `k` of the histogram counts exactly the pixels whose level falls
      in `[8k, 8k + 8)`. */
  lemma {:induction false} HistogramCountsBin(a: seq<int>, k: int)
    requires 0 <= k < Bins
    ensures Histogram(a)[k] == BinCount(a, k)
  {
    if a != [] {
      var front := a[..|a| - 1];
      HistogramCountsBin(front, k);
      BinCountOfAppend(front, a[|a| - 1], k);
      assert front + [a[|a| - 1]] == a;
    }
  }

  /** `np.sum` of a histogram. */
  function Total(h: seq<nat>): nat
  {
    if h == [] then 0 else h[0] + Total(h[1..])
  }

  lemma {:induction false} TotalOfZeros(n: nat)
    ensures Total(Zeros(n)) == 0
  {
    if n > 0 {
      assert Zeros(n)[1..] == Zeros(n - 1);
      TotalOfZeros(n - 1);
    }
  }

  lemma {:induction false} TotalOfIncrement(h: seq<nat>, k: nat)
    requires k < |h|
    ensures Total(h[k := h[k] + 1]) == Total(h) + 1
  {
    if k > 0 {
      assert h[k := h[k] + 1][1..] == h[1..][k - 1 := h[1..][k - 1] + 1];
      TotalOfIncrement(h[1..], k - 1);
    } else {
      assert h[k := h[k] + 1][1..] == h[1..];
    }
  }

  /** Every pixel of an 8-bit raster lands in exactly one bin. */
  lemma {:induction false} HistogramCountsEveryPixel(a: seq<int>)
    requires IsGray(a)
    ensures Total(Histogram(a)) == |a|
  {
    if a == [] {
      TotalOfZeros(Bins);
    } else {
      var p := a[..|a| - 1];
      assert IsGray(p);
      HistogramCountsEveryPixel(p);
      TotalOfIncrement(Histogram(p), BinOf(a[|a| - 1]));
    }
  }

  /** `hist / np.sum(hist)`, each count divided by the total. */
  function Normalized(h: seq<nat>, total: real): (p: seq<real>)
    requires total > 0.0
    ensures |p| == |h|
    ensures forall k :: 0 <= k < |p| ==> p[k] == h[k] as real / total
    ensures forall k :: 0 <= k < |p| ==> p[k] >= 0.0
  {
    if h == [] then [] else [h[0] as real / total] + Normalized(h[1..], total)
  }

  function SumReals(p: seq<real>): real
  {
    if p == [] then 0.0 else p[0] + SumReals(p[1..])
  }

  lemma {:induction false} NormalizedSum(h: seq<nat>, total: real)
    requires total > 0.0
    ensures SumReals(Normalized(h, total)) == Total(h) as real / total
  {
    if h != [] {
      NormalizedSum(h[1..], total);
      assert Normalized(h, total)[1..] == Normalized(h[1..], total);
    }
  }

  /** `np.sum(np.minimum(p, q))`. */
  function Intersection(p: seq<real>, q: seq<real>): real
    requires |p| == |q|
  {
    if p == [] then 0.0 else Min(p[0], q[0]) + Intersection(p[1..], q[1..])
  }

  lemma {:induction false} IntersectionBounds(p: seq<real>, q: seq<real>)
    requires |p| == |q|
    requires forall k :: 0 <= k < |p| ==> p[k] >= 0.0 && q[k] >= 0.0
    ensures 0.0 <= Intersection(p, q) <= SumReals(p)
  {
    if p != [] {
      IntersectionBounds(p[1..], q[1..]);
    }
  }

  lemma {:induction false} IntersectionSymmetric(p: seq<real>, q: seq<real>)
    requires |p| == |q|
    ensures Intersection(p, q) == Intersection(q, p)
  {
    if p != [] {
      IntersectionSymmetric(p[1..], q[1..]);
    }
  }

  lemma {:induction false} IntersectionWithItself(p: seq<real>)
    ensures Intersection(p, p) == SumReals(p)
  {
    if p != [] {
      IntersectionWithItself(p[1..]);
    }
  }

  /** A histogram with some count, divided by its own total, sums to 1. */
  lemma NormalizedByTotalSumsToOne(h: seq<nat>)
    requires Total(h) > 0
    ensures SumReals(Normalized(h, Total(h) as real)) == 1.0
  {
    var t := Total(h) as real;
    DividedByItself(t);
    NormalizedSum(h, t);
  }

  lemma DividedByItself(t: real)
    requires t > 0.0
    ensures t / t == 1.0
  {
  }

  /** Every bin of the histogram holds its count. */
  lemma HistogramIsBinCounts(a: seq<int>)
    ensures forall k :: 0 <= k < Bins ==> Histogram(a)[k] == BinCount(a, k)
  {
    forall k | 0 <= k < Bins
      ensures Histogram(a)[k] == BinCount(a, k)
    {
      HistogramCountsBin(a, k);
    }
  }

  /** A raster's histogram, normalised to sum to 1: bin k holds the share
      of the pixels whose level falls in it. */
  function Distribution(a: seq<int>): (p: seq<real>)
    requires |a| > 0 && IsGray(a)
    ensures |p| == Bins
    ensures forall k :: 0 <= k < Bins ==> p[k] == BinCount(a, k) as real / |a| as real
    ensures forall k :: 0 <= k < |p| ==> p[k] >= 0.0
    ensures SumReals(p) == 1.0
  {
    HistogramCountsEveryPixel(a);
    HistogramIsBinCounts(a);
    var h := Histogram(a);
    NormalizedByTotalSumsToOne(h);
    Normalized(h, Total(h) as real)
  }

  /** The histogram sub-score: intersection of the two normalised
      histograms. */
  function HistogramSubScore(a: seq<int>, b: seq<int>): (r: real)
    requires Comparable(a, b)
    ensures 0.0 <= r <= 1.0
  {
    IntersectionBounds(Distribution(a), Distribution(b));
    Intersection(Distribution(a), Distribution(b))
  }

  lemma HistogramSubScoreSymmetric(a: seq<int>, b: seq<int>)
    requires Comparable(a, b)
    ensures HistogramSubScore(a, b) == HistogramSubScore(b, a)
  {
    IntersectionSymmetric(Distribution(a), Distribution(b));
  }

  lemma HistogramSubScoreOfIdentical(a: seq<int>)
    requires Comparable(a, a)
    ensures HistogramSubScore(a, a) == 1.0
  {
    IntersectionWithItself(Distribution(a));
  }

  // ---------------------------------------------------------------------
  // 4. Edge comparison
  // ---------------------------------------------------------------------

  /** The edge operator chosen: scipy's Sobel filter, or the `np.gradient`
      fallback used when scipy cannot be imported. */
  datatype EdgeOperator = Sobel | Gradient

  /** The divisor that turns the mean absolute edge difference into a score:
      255 for Sobel, 510 for the sum of the two gradient components. */
  function EdgeScale(op: EdgeOperator): real
  {
    match op
    case Sobel => 255.0
    case Gradient => 510.0
  }

  /** `max(0, 1 - diff / scale)`, where `diff` is the mean absolute
      difference between the two edge fields. */
  function EdgeSubScore(op: EdgeOperator, diff: real): (r: real)
    requires diff >= 0.0
    ensures 0.0 <= r <= 1.0
    ensures r == 1.0 <==> diff == 0.0
  {
    var e := 1.0 - diff / EdgeScale(op);
    if e < 0.0 then 0.0 else e
  }

  /** Sum over pixels of `|ea[i] - eb[i]|`, taken on integers. */
  function AbsDifferenceSum(ea: seq<int>, eb: seq<int>): nat
    requires |ea| == |eb|
  {
    if ea == [] then 0
    else (if ea[0] >= eb[0] then ea[0] - eb[0] else eb[0] - ea[0]) + AbsDifferenceSum(ea[1..], eb[1..])
  }

  lemma {:induction false} AbsDifferenceSumSymmetric(ea: seq<int>, eb: seq<int>)
    requires |ea| == |eb|
    ensures AbsDifferenceSum(ea, eb) == AbsDifferenceSum(eb, ea)
  {
    if ea != [] {
      AbsDifferenceSumSymmetric(ea[1..], eb[1..]);
    }
  }

  /** The mean absolute difference of two edge fields as intended: the
      difference is taken on integers before its absolute value. */
  function EdgeDifference(ea: seq<int>, eb: seq<int>): (d: real)
    requires |ea| == |eb| > 0
    ensures d >= 0.0
  {
    AbsDifferenceSum(ea, eb) as real / |ea| as real
  }

  /** The edge difference does not depend on the order of the two fields. */
  lemma EdgeDifferenceSymmetric(ea: seq<int>, eb: seq<int>)
    requires |ea| == |eb| > 0
    ensures EdgeDifference(ea, eb) == EdgeDifference(eb, ea)
  {
    AbsDifferenceSumSymmetric(ea, eb);
  }

  /** An edge field does not differ from itself. */
  lemma {:induction false} EdgeDifferenceWithItself(e: seq<int>)
    requires |e| > 0
    ensures AbsDifferenceSum(e, e) == 0
    ensures EdgeDifference(e, e) == 0.0
  {
    if |e| > 1 {
      EdgeDifferenceWithItself(e[1..]);
    }
  }

  /** Sum over pixels of `img1_edges - img2_edges` as `uint8` subtraction
      leaves it: wrapped modulo 256, so `np.abs` has nothing left to do. */
  function WrappedDifferenceSum(ea: seq<int>, eb: seq<int>): nat
    requires |ea| == |eb|
  {
    if ea == [] then 0 else Wrap8(ea[0] - eb[0]) + WrappedDifferenceSum(ea[1..], eb[1..])
  }

  /** The Sobel edge difference as the source computes it on the `uint8`
      edge fields of two `uint8` rasters. */
  function EdgeDifferenceAsWritten(ea: seq<int>, eb: seq<int>): (d: real)
    requires |ea| == |eb| > 0
    ensures d >= 0.0
  {
    WrappedDifferenceSum(ea, eb) as real / |ea| as real
  }

  /** As written, the Sobel edge difference depends on the order: an edge
      value of 10 against 0 counts as 10, but 0 against 10 counts as 246,
      and the two orders get different edge sub-scores; the intended
      difference counts 10 both ways. */
  lemma WrappedEdgeDifferenceIsAsymmetric()
    ensures EdgeDifferenceAsWritten([10], [0]) == 10.0
    ensures EdgeDifferenceAsWritten([0], [10]) == 246.0
    ensures EdgeSubScore(Sobel, EdgeDifferenceAsWritten([10], [0]))
            != EdgeSubScore(Sobel, EdgeDifferenceAsWritten([0], [10]))
    ensures EdgeDifference([10], [0]) == EdgeDifference([0], [10]) == 10.0
  {
    assert WrappedDifferenceSum([10], [0]) == 10;
    assert Wrap8(0 - 10) == 246;
    assert WrappedDifferenceSum([0], [10]) == 246;
    assert AbsDifferenceSum([10], [0]) == 10;
    assert AbsDifferenceSum([0], [10]) == 10;
  }

  // ---------------------------------------------------------------------
  // Composite score
  // ---------------------------------------------------------------------

  /** The weighted sum of the four sub-scores, clamped to [0,1]. */
  function Combine(mse: real, structural: real, histogram: real, edge: real): real
  {
    Clamp01(MseWeight * mse + StructuralWeight * structural
            + HistogramWeight * histogram + EdgeWeight * edge)
  }

  /** The weights sum to 1, so for sub-scores in [0,1] the final clamp never
      changes the weighted sum, and four perfect sub-scores give exactly 1. */
  lemma CombineIsConvex(mse: real, structural: real, histogram: real, edge: real)
    requires 0.0 <= mse <= 1.0 && 0.0 <= structural <= 1.0
    requires 0.0 <= histogram <= 1.0 && 0.0 <= edge <= 1.0
    ensures MseWeight + StructuralWeight + HistogramWeight + EdgeWeight == 1.0
    ensures Combine(mse, structural, histogram, edge)
         == MseWeight * mse + StructuralWeight * structural
            + HistogramWeight * histogram + EdgeWeight * edge
    ensures Combine(1.0, 1.0, 1.0, 1.0) == 1.0
  {
  }

  /** `calculate_image_similarity`.  `probe` and `reference` are the two
      rasters after resizing and conversion, or `None` when that step raised;
      any exception inside the scorer makes it return 0.0. */
  function ImageSimilarity(probe: Option<seq<int>>, reference: Option<seq<int>>,
                      op: EdgeOperator, edgeDiff: real): (r: real)
    requires probe.Some? ==> IsCanonical(probe.value)
    requires reference.Some? ==> IsCanonical(reference.value)
    requires edgeDiff >= 0.0
    ensures 0.0 <= r <= 1.0
    ensures probe.None? || reference.None? ==> r == 0.0
  {
    if probe.None? || reference.None? then 0.0
    else
      var a, b := probe.value, reference.value;
      Combine(MseSubScore(a, b), StructuralSubScore(a, b),
              HistogramSubScore(a, b), EdgeSubScore(op, edgeDiff))
  }

  /** The score does not depend on which image is the probe, provided both
      orders are given the same edge difference.  That holds for the
      intended edge difference (`SimilaritySymmetricOnEdgeFields`) and for
      the float-valued gradient fallback, but not for the Sobel branch as
      written (`WrappedEdgeDifferenceIsAsymmetric`). */
  lemma SimilaritySymmetric(probe: Option<seq<int>>, reference: Option<seq<int>>,
                            op: EdgeOperator, edgeDiff: real)
    requires probe.Some? ==> IsCanonical(probe.value)
    requires reference.Some? ==> IsCanonical(reference.value)
    requires edgeDiff >= 0.0
    ensures ImageSimilarity(probe, reference, op, edgeDiff) == ImageSimilarity(reference, probe, op, edgeDiff)
  {
    if probe.Some? && reference.Some? {
      var a, b := probe.value, reference.value;
      SquaredErrorSumSymmetric(a, b);
      StructuralSubScoreSymmetric(a, b);
      HistogramSubScoreSymmetric(a, b);
    }
  }

  /** With the intended edge difference of the two edge fields, swapping
      the images leaves the score unchanged. */
  lemma SimilaritySymmetricOnEdgeFields(a: seq<int>, b: seq<int>, ea: seq<int>, eb: seq<int>, op: EdgeOperator)
    requires IsCanonical(a) && IsCanonical(b)
    requires |ea| == |eb| > 0
    ensures ImageSimilarity(Some(a), Some(b), op, EdgeDifference(ea, eb))
            == ImageSimilarity(Some(b), Some(a), op, EdgeDifference(eb, ea))
  {
    EdgeDifferenceSymmetric(ea, eb);
    SimilaritySymmetric(Some(a), Some(b), op, EdgeDifference(ea, eb));
  }

  /** An image compared with itself, its edge field with itself, scores
      exactly 1. */
  lemma SimilarityOfIdenticalEdgeFields(a: seq<int>, e: seq<int>, op: EdgeOperator)
    requires IsCanonical(a) && |e| > 0
    ensures ImageSimilarity(Some(a), Some(a), op, EdgeDifference(e, e)) == 1.0
  {
    EdgeDifferenceWithItself(e);
    SimilarityOfIdentical(a, op);
  }

  /** An image compared with itself (identical edge fields) scores exactly 1. */
  lemma SimilarityOfIdentical(a: seq<int>, op: EdgeOperator)
    requires IsCanonical(a)
    ensures ImageSimilarity(Some(a), Some(a), op, 0.0) == 1.0
  {
    StructuralSubScoreOfIdentical(a);
    HistogramSubScoreOfIdentical(a);
  }
}
