// `otsu` of utils-image.swift: the grey level that best splits a histogram
// into background and foreground, in Swift's integer arithmetic.

module Otsu {
  /** `/` on `Int` as this program redefines it (utils.swift:39-41):
      `floor(Double(a) / Double(b))`, the quotient rounded down. It agrees
      with Swift's built-in truncating `/` whenever the operands have the
      same sign, as a histogram's sums do. */
  function Quot(a: int, b: int): int
    requires b != 0
  {
    if 0 < b then a / b else (-a) / (-b)
  }

  /** `histogram[0] + … + histogram[n - 1]`: the background weight `wB`
      once bin `n - 1` is added. */
  function Weight(h: seq<int>, n: int): int
    requires 0 <= n <= |h|
  {
    if n == 0 then 0 else Weight(h, n - 1) + h[n - 1]
  }

  /** `0 * histogram[0] + … + (n - 1) * histogram[n - 1]`. */
  function Moment(h: seq<int>, n: int): int
    requires 0 <= n <= |h|
  {
    if n == 0 then 0 else Moment(h, n - 1) + (n - 1) * h[n - 1]
  }

  /** `sumB` once bin `n - 1` is reached: the loop adds `i * histogram[i]`
      only for bins where the background weight is not 0. */
  function BackgroundMoment(h: seq<int>, n: int): int
    requires 0 <= n <= |h|
  {
    if n == 0 then 0
    else BackgroundMoment(h, n - 1) + if Weight(h, n) != 0 then (n - 1) * h[n - 1] else 0
  }

  /** Bin `i` ends the scan: the background already holds `valuesCount`
      values, so the foreground is empty. */
  predicate Full(h: seq<int>, valuesCount: int, i: int)
    requires 0 <= i < |h|
  {
    Weight(h, i + 1) != 0 && valuesCount - Weight(h, i + 1) == 0
  }

  /** The first bin from `i` on that ends the scan, or `|h|`. */
  function StopFrom(h: seq<int>, valuesCount: int, i: int): (s: int)
    requires 0 <= i <= |h|
    ensures i <= s <= |h|
    decreases |h| - i
  {
    if i == |h| then |h| else if Full(h, valuesCount, i) then i else StopFrom(h, valuesCount, i + 1)
  }

  /** The bin at which the scan breaks off, or `|h|`. */
  function Stop(h: seq<int>, valuesCount: int): int
  {
    StopFrom(h, valuesCount, 0)
  }

  /** The scan runs over every bin before `Stop` and breaks at `Stop`. */
  lemma {:induction false} StopFirst(h: seq<int>, valuesCount: int, i: int)
    requires 0 <= i <= |h|
    ensures forall m | i <= m < StopFrom(h, valuesCount, i) :: !Full(h, valuesCount, m)
    ensures StopFrom(h, valuesCount, i) < |h| ==> Full(h, valuesCount, StopFrom(h, valuesCount, i))
    decreases |h| - i
  {
    if i < |h| && !Full(h, valuesCount, i) {
      StopFirst(h, valuesCount, i + 1);
    }
  }

  /** The integer between-class variance `varianceBetween` at bin `i`, or 0
      where the loop skips the bin or the variance is not positive (a value
      that cannot beat `varianceMax`, which starts at 0). */
  function Score(h: seq<int>, valuesCount: int, i: int): (v: int)
    requires 0 <= i < |h|
    ensures 0 <= v
    ensures Weight(h, i + 1) == 0 ==> v == 0
  {
    var wB := Weight(h, i + 1);
    var wF := valuesCount - wB;
    if wB == 0 || wF == 0 then 0
    else
      var sumB := BackgroundMoment(h, i + 1);
      var mB := Quot(sumB, wB);
      var mF := Quot(Moment(h, |h|) - sumB, wF);
      var variance := wB * wF * (mB - mF) * (mB - mF);
      if variance < 0 then 0 else variance
  }

  /** `otsu(histogram:valuesCount:)`: the first bin before the break with
      the largest between-class variance, and 0 when no bin has a positive
      one. */
  method Threshold(histogram: seq<int>, valuesCount: int) returns (threshold: int)
    ensures Stop(histogram, valuesCount) == 0 ==> threshold == 0
    ensures Stop(histogram, valuesCount) != 0 ==>
      0 <= threshold < Stop(histogram, valuesCount) &&
      (forall i | 0 <= i < Stop(histogram, valuesCount) :: Score(histogram, valuesCount, i) <= Score(histogram, valuesCount, threshold)) &&
      (forall i | 0 <= i < threshold :: Score(histogram, valuesCount, i) < Score(histogram, valuesCount, threshold))
  {
    ghost var h := histogram;
    var sum := 0;
    for i := 0 to |histogram|
      invariant sum == Moment(h, i)
    {
      sum := sum + i * histogram[i];
    }
    var sumB := 0;
    var wB := 0;
    var wF := 0;
    var varianceMax := 0;
    threshold := 0;
    for i := 0 to |histogram|
      invariant wB == Weight(h, i) && sumB == BackgroundMoment(h, i)
      invariant StopFrom(h, valuesCount, i) == Stop(h, valuesCount)
      invariant 0 <= varianceMax && forall m | 0 <= m < i :: Score(h, valuesCount, m) <= varianceMax
      invariant i == 0 ==> threshold == 0 && varianceMax == 0
      invariant i != 0 ==> 0 <= threshold < i && varianceMax == Score(h, valuesCount, threshold)
      invariant i != 0 ==> forall m | 0 <= m < threshold :: Score(h, valuesCount, m) < varianceMax
    {
      wB := wB + histogram[i];
      if wB == 0 {
        continue;
      }
      wF := valuesCount - wB;
      if wF == 0 {
        break;
      }
      sumB := sumB + i * histogram[i];
      var mB := Quot(sumB, wB);
      var mF := Quot(sum - sumB, wF);
      var varianceBetween := wB * wF * (mB - mF) * (mB - mF);
      assert Score(h, valuesCount, i) == if varianceBetween < 0 then 0 else varianceBetween;
      if varianceBetween > varianceMax {
        varianceMax := varianceBetween;
        threshold := i;
      }
    }
  }
}
