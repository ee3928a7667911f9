/** Mean and sample variance of an integer column, the z-score
    `(a - mean) / std` of each value, and the three bands the script selects
    with boolean masks: good (-1 <= z <= 1), regular (1 < z <= 3 or
    -3 <= z < -1) and bad (z > 3 or z < -3). Arithmetic is exact; the
    standard deviation is a given positive real whose square is the sample
    variance. */
module Stats {
  import opened Selection

  function Sum(xs: seq<int>): int {
    if xs == [] then 0 else Sum(xs[..|xs| - 1]) + xs[|xs| - 1]
  }

  function RealSum(xs: seq<real>): real {
    if xs == [] then 0.0 else RealSum(xs[..|xs| - 1]) + xs[|xs| - 1]
  }

  /** `Series.mean()`, the arithmetic mean. */
  function Mean(xs: seq<int>): real
    requires |xs| > 0
  {
    Sum(xs) as real / |xs| as real
  }

  /** The sum of squared deviations from `m`. */
  function SquaredDeviations(xs: seq<int>, m: real): (r: real)
    ensures r >= 0.0
  {
    if xs == [] then 0.0
    else
      SquaredDeviations(xs[..|xs| - 1], m) + Square(xs[|xs| - 1] as real - m)
  }

  function Square(x: real): (r: real)
    ensures r >= 0.0
  {
    MulNonNegative(Abs(x), Abs(x));
    Abs(x) * Abs(x)
  }

  function Abs(x: real): real {
    if x < 0.0 then -x else x
  }

  /** The variance behind `Series.std()`: Bessel-corrected, divisor n - 1. */
  function SampleVariance(xs: seq<int>): (v: real)
    requires |xs| >= 2
    ensures v >= 0.0
  {
    SquaredDeviations(xs, Mean(xs)) / (|xs| - 1) as real
  }

  /** `std` is what `Series.std()` returns for `xs`: the non-negative square root of
      the sample variance. */
  predicate IsSampleStd(xs: seq<int>, std: real)
    requires |xs| >= 2
  {
    std >= 0.0 && std * std == SampleVariance(xs)
  }

  /** How many standard deviations `a` lies above the mean (below, when negative). */
  function ZScore(a: int, mean: real, std: real): (z: real)
    requires std > 0.0
    ensures z * std == a as real - mean
  {
    (a as real - mean) / std
  }

  /** The `zscore` column: the z-score of every age, in row order (line 89). */
  function ZScores(ages: seq<int>, mean: real, std: real): (zs: seq<real>)
    requires std > 0.0
    ensures |zs| == |ages|
  {
    seq(|ages|, i requires 0 <= i < |ages| => ZScore(ages[i], mean, std))
  }

  // ---------------------------------------------------------------- the mean

  lemma {:induction false} SumBounds(xs: seq<int>, lo: int, hi: int)
    requires forall i :: 0 <= i < |xs| ==> lo <= xs[i] <= hi
    ensures |xs| * lo <= Sum(xs) <= |xs| * hi
  {
    if xs != [] {
      var xs' := xs[..|xs| - 1];
      SumBounds(xs', lo, hi);
      assert |xs| * lo == |xs'| * lo + lo && |xs| * hi == |xs'| * hi + hi;
    }
  }

  /** The mean lies between any lower and upper bound of the values. */
  lemma MeanBounds(xs: seq<int>, lo: int, hi: int)
    requires |xs| > 0
    requires forall i :: 0 <= i < |xs| ==> lo <= xs[i] <= hi
    ensures lo as real <= Mean(xs) <= hi as real
  {
    SumBounds(xs, lo, hi);
    CastProduct(|xs|, lo);
    CastProduct(|xs|, hi);
    QuotientBounds(Sum(xs) as real, |xs| as real, lo as real, hi as real);
  }

  lemma CastProduct(a: int, b: int)
    ensures (a * b) as real == a as real * b as real
  {
  }

  lemma QuotientBounds(s: real, n: real, lo: real, hi: real)
    requires n > 0.0 && n * lo <= s <= n * hi
    ensures lo <= s / n <= hi
  {
    var q := s / n;
    assert q * n == s;
    if q < lo { MulStrict(n, q, lo); }
    if q > hi { MulStrict(n, hi, q); }
  }

  lemma MulStrict(a: real, b: real, c: real)
    requires a > 0.0 && b < c
    ensures a * b < a * c
  {
    assert a * c - a * b == a * (c - b);
  }

  /** A constant column sums to its length times the constant. */
  lemma {:induction false} SumConstant(xs: seq<int>, c: int)
    requires forall i :: 0 <= i < |xs| ==> xs[i] == c
    ensures Sum(xs) == |xs| * c
  {
    if xs != [] {
      SumConstant(xs[..|xs| - 1], c);
    }
  }

  // ------------------------------------------------- deviations and z-scores

  function Deviations(xs: seq<int>, m: real): (ds: seq<real>)
    ensures |ds| == |xs|
  {
    seq(|xs|, i requires 0 <= i < |xs| => xs[i] as real - m)
  }

  lemma {:induction false} RealSumDeviations(xs: seq<int>, m: real)
    ensures RealSum(Deviations(xs, m)) == Sum(xs) as real - |xs| as real * m
  {
    if xs != [] {
      var xs' := xs[..|xs| - 1];
      assert Deviations(xs, m)[..|xs| - 1] == Deviations(xs', m);
      RealSumDeviations(xs', m);
    }
  }

  /** The deviations from the mean sum to zero. */
  lemma DeviationsSumToZero(xs: seq<int>)
    requires |xs| > 0
    ensures RealSum(Deviations(xs, Mean(xs))) == 0.0
  {
    RealSumDeviations(xs, Mean(xs));
    assert |xs| as real * Mean(xs) == Sum(xs) as real;
  }

  lemma {:induction false} RealSumScaled(ds: seq<real>, s: real)
    requires s > 0.0
    ensures RealSum(seq(|ds|, i requires 0 <= i < |ds| => ds[i] / s)) == RealSum(ds) / s
  {
    if ds != [] {
      var ds' := ds[..|ds| - 1];
      var q := seq(|ds|, i requires 0 <= i < |ds| => ds[i] / s);
      assert q[..|q| - 1] == seq(|ds'|, i requires 0 <= i < |ds'| => ds'[i] / s);
      RealSumScaled(ds', s);
    }
  }

  /** With the mean of the ages, the z-scores sum to zero, whatever the positive
      standard deviation. */
  lemma ZScoresSumToZero(ages: seq<int>, std: real)
    requires |ages| > 0 && std > 0.0
    ensures RealSum(ZScores(ages, Mean(ages), std)) == 0.0
  {
    var ds := Deviations(ages, Mean(ages));
    assert ZScores(ages, Mean(ages), std) == seq(|ds|, i requires 0 <= i < |ds| => ds[i] / std);
    RealSumScaled(ds, std);
    DeviationsSumToZero(ages);
  }

  /** For a positive standard deviation the z-score orders values as the values
      themselves are ordered. */
  lemma ZScoreOrder(a1: int, a2: int, mean: real, std: real)
    requires std > 0.0
    ensures a1 <= a2 <==> ZScore(a1, mean, std) <= ZScore(a2, mean, std)
    ensures a1 < a2 <==> ZScore(a1, mean, std) < ZScore(a2, mean, std)
  {
    var d1, d2 := a1 as real - mean, a2 as real - mean;
    assert ZScore(a1, mean, std) * std == d1 && ZScore(a2, mean, std) * std == d2;
    DivisionOrder(d1, d2, std);
  }

  lemma DivisionOrder(x: real, y: real, s: real)
    requires s > 0.0
    ensures x <= y <==> x / s <= y / s
    ensures x < y <==> x / s < y / s
  {
    assert y / s - x / s == (y - x) / s;
  }

  // --------------------------------------------------------------- variance

  lemma {:induction false} SquaredDeviationsOfConstant(xs: seq<int>, c: int)
    requires forall i :: 0 <= i < |xs| ==> xs[i] == c
    ensures SquaredDeviations(xs, c as real) == 0.0
  {
    if xs != [] {
      SquaredDeviationsOfConstant(xs[..|xs| - 1], c);
    }
  }

  /** A value away from `m` makes the squared deviations positive. */
  lemma {:induction false} SquaredDeviationsPositive(xs: seq<int>, m: real, i: nat)
    requires i < |xs| && xs[i] as real != m
    ensures SquaredDeviations(xs, m) > 0.0
  {
    var n := |xs| - 1;
    var d := xs[n] as real - m;
    if i == n {
      SquarePositive(d);
    } else {
      assert xs[..n][i] == xs[i];
      SquaredDeviationsPositive(xs[..n], m, i);
    }
  }

  lemma SquarePositive(d: real)
    requires d != 0.0
    ensures Square(d) > 0.0
  {
    SquareStrict(0.0, Abs(d));
  }

  lemma MulNonNegative(a: real, b: real)
    requires a >= 0.0 && b >= 0.0
    ensures a * b >= 0.0
  {
  }

  lemma MulPositive(a: real, b: real)
    requires a > 0.0 && b > 0.0
    ensures a * b > 0.0
  {
  }

  /** The sample variance is zero exactly when every value is the same: the
      degenerate column for which no z-score exists. */
  lemma VarianceZeroIffConstant(xs: seq<int>)
    requires |xs| >= 2
    ensures SampleVariance(xs) == 0.0 <==> forall i :: 0 <= i < |xs| ==> xs[i] == xs[0]
  {
    if forall i :: 0 <= i < |xs| ==> xs[i] == xs[0] {
      SumConstant(xs, xs[0]);
      assert Mean(xs) == xs[0] as real;
      SquaredDeviationsOfConstant(xs, xs[0]);
    } else {
      var i :| 0 <= i < |xs| && xs[i] != xs[0];
      var k := if xs[i] as real != Mean(xs) then i else 0;
      SquaredDeviationsPositive(xs, Mean(xs), k);
      DivisionOrder(0.0, SquaredDeviations(xs, Mean(xs)), (|xs| - 1) as real);
    }
  }

  // ------------------------------------------------------------------ bands

  /** The mask of `good_ages` (line 95): z within [-1, 1], both edges included. */
  predicate IsGood(z: real) {
    z <= 1.0 && z >= -1.0
  }

  /** The mask of `regular_ages` (line 96): z in (1, 3] or in [-3, -1). */
  predicate IsRegular(z: real) {
    (z > 1.0 && z <= 3.0) || (z < -1.0 && z >= -3.0)
  }

  /** The mask of `bad_ages` (line 97): z above 3 or below -3. */
  predicate IsBad(z: real) {
    z > 3.0 || z < -3.0
  }

  datatype Band = Good | Regular | Bad

  /** The band a z-score falls in. */
  function BandOf(z: real): (b: Band)
    ensures b == Good <==> IsGood(z)
    ensures b == Regular <==> IsRegular(z)
    ensures b == Bad <==> IsBad(z)
  {
    if Abs(z) <= 1.0 then Good else if Abs(z) <= 3.0 then Regular else Bad
  }

  /** Every z-score is in exactly one of the three masks, and the masks are bands of
      its absolute value with inclusive upper edges. */
  lemma BandsPartition(z: real)
    ensures ExactlyOne(IsGood(z), IsRegular(z), IsBad(z))
    ensures IsGood(z) <==> Abs(z) <= 1.0
    ensures IsRegular(z) <==> 1.0 < Abs(z) <= 3.0
    ensures IsBad(z) <==> Abs(z) > 3.0
  {
  }

  /** The edges as written: |z| = 1 is good, |z| = 3 is regular and not bad. */
  lemma BandEdges()
    ensures IsGood(1.0) && IsGood(-1.0) && IsGood(0.0)
    ensures IsRegular(1.0000001) && IsRegular(-1.0000001)
    ensures IsRegular(3.0) && IsRegular(-3.0) && !IsBad(3.0) && !IsBad(-3.0)
    ensures IsBad(3.0000001) && IsBad(-3.0000001)
  {
  }

  lemma AbsBySquares(x: real, k: real)
    requires k >= 0.0
    ensures Abs(x) <= k <==> Square(x) <= Square(k)
  {
    var a := Abs(x);
    if a < k { SquareStrict(a, k); }
    if k < a { SquareStrict(k, a); }
  }

  lemma SquareStrict(k: real, a: real)
    requires 0.0 <= k < a
    ensures k * k < a * a
  {
    MulPositive(a - k, a + k);
    assert a * a - k * k == (a - k) * (a + k);
  }

  /** The bands without a square root: a value is good when its squared deviation is
      at most the variance, and bad when it exceeds nine times the variance. */
  lemma BandsBySquares(a: int, mean: real, std: real, variance: real)
    requires std > 0.0 && std * std == variance
    ensures var d := a as real - mean;
      && (IsGood(ZScore(a, mean, std)) <==> Square(d) <= variance)
      && (IsBad(ZScore(a, mean, std)) <==> Square(d) > 9.0 * variance)
      && (IsRegular(ZScore(a, mean, std)) <==> variance < Square(d) <= 9.0 * variance)
  {
    var d := a as real - mean;
    var z := ZScore(a, mean, std);
    assert z * std == d;
    AbsScale(z, std);
    SquareOfStd(std, variance);
    BandsByAbsDeviation(z, Abs(d), std);
    AbsBySquares(d, std);
    AbsBySquares(d, 3.0 * std);
  }

  /** The bands of z-score z in terms of |z| * std. */
  lemma BandsByAbsDeviation(z: real, ad: real, std: real)
    requires std > 0.0 && Abs(z) * std == ad
    ensures IsGood(z) <==> ad <= std
    ensures IsBad(z) <==> ad > 3.0 * std
    ensures IsRegular(z) <==> std < ad <= 3.0 * std
  {
    ScaledBound(Abs(z), ad, std, 1.0);
    ScaledBound(Abs(z), ad, std, 3.0);
    BandsPartition(z);
  }

  lemma AbsScale(z: real, s: real)
    requires s > 0.0
    ensures Abs(z) * s == Abs(z * s)
  {
    if z < 0.0 {
      MulStrict(s, z, 0.0);
      assert Abs(z) * s == -(z * s);
    } else {
      MulNonNegative(z, s);
    }
  }

  lemma SquareOfStd(std: real, variance: real)
    requires std > 0.0 && std * std == variance
    ensures Square(std) == variance && Square(3.0 * std) == 9.0 * variance
  {
    assert Abs(3.0 * std) == 3.0 * std;
    assert (3.0 * std) * (3.0 * std) == 9.0 * (std * std);
  }

  lemma ScaledBound(q: real, x: real, s: real, k: real)
    requires s > 0.0 && q * s == x
    ensures q <= k <==> x <= k * s
  {
    if q < k { MulStrict(s, q, k); }
    if k < q { MulStrict(s, k, q); }
  }

  // --------------------------------------------------- band selections

  function GoodMask(zs: seq<real>): (m: seq<bool>)
    ensures |m| == |zs|
  {
    seq(|zs|, i requires 0 <= i < |zs| => IsGood(zs[i]))
  }

  function RegularMask(zs: seq<real>): (m: seq<bool>)
    ensures |m| == |zs|
  {
    seq(|zs|, i requires 0 <= i < |zs| => IsRegular(zs[i]))
  }

  function BadMask(zs: seq<real>): (m: seq<bool>)
    ensures |m| == |zs|
  {
    seq(|zs|, i requires 0 <= i < |zs| => IsBad(zs[i]))
  }

  /** `good_ages`, `regular_ages` and `bad_ages` together hold every age exactly once. */
  lemma BandSelectionsPartition(ages: seq<int>, zs: seq<real>)
    requires |zs| == |ages|
    ensures |Select(ages, GoodMask(zs))| + |Select(ages, RegularMask(zs))| + |Select(ages, BadMask(zs))| == |ages|
    ensures multiset(Select(ages, GoodMask(zs))) + multiset(Select(ages, RegularMask(zs))) + multiset(Select(ages, BadMask(zs)))
         == multiset(ages)
  {
    forall i | 0 <= i < |ages| ensures ExactlyOne(GoodMask(zs)[i], RegularMask(zs)[i], BadMask(zs)[i]) {
      BandsPartition(zs[i]);
    }
    SelectPartition(ages, GoodMask(zs), RegularMask(zs), BadMask(zs));
    SelectPartitionSizes(ages, GoodMask(zs), RegularMask(zs), BadMask(zs));
  }
}
