// `maxIndex` of utils-image.swift: the centre of the square window of a
// Hough accumulator with the largest sum.

module Windows {

  /** `s[lo] + … + s[hi - 1]`. */
  function Sum(s: seq<int>, lo: int, hi: int): int
    requires 0 <= lo <= hi <= |s|
    decreases hi - lo
  {
    if lo == hi then 0 else Sum(s, lo, hi - 1) + s[hi - 1]
  }

  /** The sum may also be taken from the front. */
  lemma {:induction false} SumFront(s: seq<int>, lo: int, hi: int)
    requires 0 <= lo < hi <= |s|
    ensures Sum(s, lo, hi) == s[lo] + Sum(s, lo + 1, hi)
    decreases hi - lo
  {
    if lo + 1 < hi {
      SumFront(s, lo, hi - 1);
    }
  }

  /** Sliding a window one place on drops its first element and adds the
      next one. */
  lemma Slide(s: seq<int>, lo: int, hi: int)
    requires 0 <= lo < hi < |s|
    ensures Sum(s, lo + 1, hi + 1) == Sum(s, lo, hi) + s[hi] - s[lo]
  {
    SumFront(s, lo, hi);
  }

  /** `Slide` down column `j` of a matrix. */
  lemma SlideColumn(a: Matrix, rows: int, cols: int, j: int, lo: int, hi: int)
    requires IsMatrix(a, rows, cols) && 0 <= j < cols && 0 <= lo < hi < rows
    ensures Sum(Column(a, rows, cols, j), lo + 1, hi + 1) == Sum(Column(a, rows, cols, j), lo, hi) + a[hi][j] - a[lo][j]
  {
    Slide(Column(a, rows, cols, j), lo, hi);
  }

  /** A sum of non-negative numbers is not negative. */
  lemma {:induction false} SumNonNegative(s: seq<int>, lo: int, hi: int)
    requires 0 <= lo <= hi <= |s| && forall m | lo <= m < hi :: 0 <= s[m]
    ensures 0 <= Sum(s, lo, hi)
    decreases hi - lo
  {
    if lo < hi {
      SumNonNegative(s, lo, hi - 1);
    }
  }

  /** An accumulator: `a[i][j]` with `i` the angle and `j` the distance. */
  type Matrix = seq<seq<int>>

  predicate IsMatrix(a: Matrix, rows: int, cols: int)
  {
    |a| == rows && 0 <= cols && forall i | 0 <= i < rows :: |a[i]| == cols
  }

  /** Column `j` of `a`. */
  function Column(a: Matrix, rows: int, cols: int, j: int): (c: seq<int>)
    requires IsMatrix(a, rows, cols) && 0 <= j < cols
    ensures |c| == rows && forall i | 0 <= i < rows :: c[i] == a[i][j]
  {
    seq(rows, i requires 0 <= i < rows => a[i][j])
  }

  /** `sumH`: entry `[t][j]` is `a[t][j] + … + a[t + 2r][j]`. */
  function Strips(a: Matrix, rows: int, cols: int, r: int): (s: Matrix)
    requires IsMatrix(a, rows, cols) && 0 <= r && 2 * r + 1 <= rows
    ensures IsMatrix(s, rows - 2 * r, cols)
  {
    seq(rows - 2 * r, t requires 0 <= t < rows - 2 * r =>
      seq(cols, j requires 0 <= j < cols => Sum(Column(a, rows, cols, j), t, t + 2 * r + 1)))
  }

  /** `sumV`: entry `[t][s]` is the sum of the `(2r+1)²` entries of `a` in
      rows `t … t + 2r` and columns `s … s + 2r`. */
  function Boxes(a: Matrix, rows: int, cols: int, r: int): (b: Matrix)
    requires IsMatrix(a, rows, cols) && 0 <= r && 2 * r + 1 <= rows && 2 * r + 1 <= cols
    ensures IsMatrix(b, rows - 2 * r, cols - 2 * r)
  {
    var strips := Strips(a, rows, cols, r);
    seq(rows - 2 * r, t requires 0 <= t < rows - 2 * r =>
      seq(cols - 2 * r, s requires 0 <= s < cols - 2 * r => Sum(strips[t], s, s + 2 * r + 1)))
  }

  /** `x` and `y` are matrices of the same shape that agree outside column
      `j`. */
  predicate AgreeBesides(x: Matrix, y: Matrix, rows: int, cols: int, j: int)
  {
    IsMatrix(x, rows, cols) && IsMatrix(y, rows, cols) &&
    forall t, m | 0 <= t < rows && 0 <= m < cols && m != j :: x[t][m] == y[t][m]
  }

  /** Writing an entry of column `j` keeps the agreement outside it. */
  lemma WriteBesides(x: Matrix, y: Matrix, rows: int, cols: int, j: int, t: int, v: int)
    requires AgreeBesides(x, y, rows, cols, j) && 0 <= t < rows && 0 <= j < cols
    ensures AgreeBesides(x[t := x[t][j := v]], y, rows, cols, j)
  {
  }

  /** One column of the first loop of `maxIndex`: the first strip sum of
      column `j` from scratch, each next one by sliding the strip down. */
  method FillColumn(a: Matrix, rows: int, cols: int, r: int, j: int, sumH: Matrix) returns (sumH': Matrix)
    requires IsMatrix(a, rows, cols) && 0 <= r && 2 * r + 1 <= rows && 0 <= j < cols
    requires IsMatrix(sumH, rows - 2 * r, cols) && forall t | 0 <= t < rows - 2 * r :: sumH[t][j] == 0
    ensures AgreeBesides(sumH', sumH, rows - 2 * r, cols, j)
    ensures forall t | 0 <= t < rows - 2 * r :: sumH'[t][j] == Sum(Column(a, rows, cols, j), t, t + 2 * r + 1)
  {
    ghost var column := Column(a, rows, cols, j);
    sumH' := sumH;
    for i := 0 to 2 * r + 1
      invariant AgreeBesides(sumH', sumH, rows - 2 * r, cols, j)
      invariant sumH'[0][j] == Sum(column, 0, i)
    {
      WriteBesides(sumH', sumH, rows - 2 * r, cols, j, 0, sumH'[0][j] + a[i][j]);
      sumH' := sumH'[0 := sumH'[0][j := sumH'[0][j] + a[i][j]]];
    }
    for i := r + 1 to rows - r
      invariant AgreeBesides(sumH', sumH, rows - 2 * r, cols, j)
      invariant forall t | 0 <= t < i - r :: sumH'[t][j] == Sum(column, t, t + 2 * r + 1)
    {
      SlideColumn(a, rows, cols, j, i - r - 1, i + r);
      WriteBesides(sumH', sumH, rows - 2 * r, cols, j, i - r, sumH'[i - r - 1][j] + a[i + r][j] - a[i - r - 1][j]);
      sumH' := sumH'[i - r := sumH'[i - r][j := sumH'[i - r - 1][j] + a[i + r][j] - a[i - r - 1][j]]];
    }
  }

  /** The first loop of `maxIndex`, column by column. */
  method SumStrips(a: Matrix, rows: int, cols: int, r: int) returns (sumH: Matrix)
    requires IsMatrix(a, rows, cols) && 0 <= r && 2 * r + 1 <= rows
    ensures sumH == Strips(a, rows, cols, r)
  {
    ghost var want := Strips(a, rows, cols, r);
    sumH := seq(rows - 2 * r, t => seq(cols, j => 0));
    for j := 0 to cols
      invariant IsMatrix(sumH, rows - 2 * r, cols)
      invariant forall t, m | 0 <= t < rows - 2 * r && 0 <= m < j :: sumH[t][m] == want[t][m]
      invariant forall t, m | 0 <= t < rows - 2 * r && j <= m < cols :: sumH[t][m] == 0
    {
      sumH := FillColumn(a, rows, cols, r, j, sumH);
    }
    forall t | 0 <= t < rows - 2 * r
      ensures sumH[t] == want[t]
    {
    }
  }

  /** The second loop of `maxIndex`: row by row, the first window sum of
      the strips from scratch, each next one by sliding. */
  method SumBoxes(sumH: Matrix, rows: int, cols: int, r: int) returns (sumV: Matrix)
    requires IsMatrix(sumH, rows, cols) && 0 <= r && 2 * r + 1 <= cols
    ensures IsMatrix(sumV, rows, cols - 2 * r)
    ensures forall t, s | 0 <= t < rows && 0 <= s < cols - 2 * r :: sumV[t][s] == Sum(sumH[t], s, s + 2 * r + 1)
  {
    sumV := seq(rows, t => seq(cols - 2 * r, s => 0));
    for i := 0 to rows
      invariant IsMatrix(sumV, rows, cols - 2 * r)
      invariant forall t, s | 0 <= t < i && 0 <= s < cols - 2 * r :: sumV[t][s] == Sum(sumH[t], s, s + 2 * r + 1)
      invariant forall t, s | i <= t < rows && 0 <= s < cols - 2 * r :: sumV[t][s] == 0
    {
      for j := 0 to 2 * r + 1
        invariant IsMatrix(sumV, rows, cols - 2 * r)
        invariant forall t, s | 0 <= t < i && 0 <= s < cols - 2 * r :: sumV[t][s] == Sum(sumH[t], s, s + 2 * r + 1)
        invariant forall t, s | i < t < rows && 0 <= s < cols - 2 * r :: sumV[t][s] == 0
        invariant sumV[i][0] == Sum(sumH[i], 0, j)
      {
        sumV := sumV[i := sumV[i][0 := sumV[i][0] + sumH[i][j]]];
      }
      for j := r + 1 to cols - r
        invariant IsMatrix(sumV, rows, cols - 2 * r)
        invariant forall t, s | 0 <= t < i && 0 <= s < cols - 2 * r :: sumV[t][s] == Sum(sumH[t], s, s + 2 * r + 1)
        invariant forall t, s | i < t < rows && 0 <= s < cols - 2 * r :: sumV[t][s] == 0
        invariant forall s | 0 <= s < j - r :: sumV[i][s] == Sum(sumH[i], s, s + 2 * r + 1)
      {
        Slide(sumH[i], j - r - 1, j + r);
        sumV := sumV[i := sumV[i][j - r := sumV[i][j - r - 1] + sumH[i][j + r] - sumH[i][j - r - 1]]];
      }
    }
  }

  /** `(p, q)` comes before `(t, s)` in row-major order. */
  predicate Before(p: int, q: int, t: int, s: int)
  {
    p < t || (p == t && q < s)
  }

  /** The last loop of `maxIndex`: the first entry, in row-major order,
      above `-1` and above every entry before it, or `(0, 0)` when no
      entry is above `-1`. */
  method FindMax(sumV: Matrix, rows: int, cols: int) returns (thetaIndex: int, rhoIndex: int)
    requires IsMatrix(sumV, rows, cols) && 1 <= rows && 1 <= cols
    ensures 0 <= thetaIndex < rows && 0 <= rhoIndex < cols
    ensures forall p, q | 0 <= p < rows && 0 <= q < cols ::
      sumV[p][q] <= sumV[thetaIndex][rhoIndex] || sumV[p][q] <= -1
    ensures forall p, q | 0 <= p < rows && 0 <= q < cols && Before(p, q, thetaIndex, rhoIndex) ::
      sumV[p][q] < sumV[thetaIndex][rhoIndex]
    ensures sumV[thetaIndex][rhoIndex] <= -1 ==> thetaIndex == 0 && rhoIndex == 0
  {
    thetaIndex, rhoIndex := 0, 0;
    var maxValue := -1;
    for i := 0 to rows
      invariant 0 <= thetaIndex < rows && 0 <= rhoIndex < cols
      invariant maxValue == -1 || -1 < maxValue == sumV[thetaIndex][rhoIndex]
      invariant maxValue == -1 ==> thetaIndex == 0 && rhoIndex == 0
      invariant forall p, q | 0 <= p < i && 0 <= q < cols :: sumV[p][q] <= maxValue
      invariant forall p, q | 0 <= p < rows && 0 <= q < cols && Before(p, q, thetaIndex, rhoIndex) ::
        sumV[p][q] < sumV[thetaIndex][rhoIndex]
    {
      for j := 0 to cols
        invariant 0 <= thetaIndex < rows && 0 <= rhoIndex < cols
        invariant maxValue == -1 || -1 < maxValue == sumV[thetaIndex][rhoIndex]
        invariant maxValue == -1 ==> thetaIndex == 0 && rhoIndex == 0
        invariant forall p, q | 0 <= p < rows && 0 <= q < cols && Before(p, q, i, j) :: sumV[p][q] <= maxValue
        invariant forall p, q | 0 <= p < rows && 0 <= q < cols && Before(p, q, thetaIndex, rhoIndex) ::
          sumV[p][q] < sumV[thetaIndex][rhoIndex]
      {
        if sumV[i][j] > maxValue {
          thetaIndex, rhoIndex := i, j;
          maxValue := sumV[i][j];
        }
      }
    }
  }

  /** `maxIndex(in:radius:)`: the centre of the first window, in row-major
      order, whose sum is above `-1` and above every window before it, or
      `(radius, radius)` when no sum is; for an accumulator without
      negative entries, a window with the largest sum. */
  method MaxIndex(accumulator: Matrix, radius: int) returns (theta: int, rho: int)
    requires |accumulator| >= 1 && IsMatrix(accumulator, |accumulator|, |accumulator[0]|) && 0 <= radius
    requires 2 * radius + 1 <= |accumulator| && 2 * radius + 1 <= |accumulator[0]|
    ensures var rows, cols := |accumulator|, |accumulator[0]|;
      radius <= theta < rows - radius && radius <= rho < cols - radius
    ensures var rows, cols := |accumulator|, |accumulator[0]|;
      var boxes := Boxes(accumulator, rows, cols, radius);
      (forall p, q | 0 <= p < rows - 2 * radius && 0 <= q < cols - 2 * radius ::
        boxes[p][q] <= boxes[theta - radius][rho - radius] || boxes[p][q] <= -1) &&
      (forall p, q | 0 <= p < rows - 2 * radius && 0 <= q < cols - 2 * radius && Before(p, q, theta - radius, rho - radius) ::
        boxes[p][q] < boxes[theta - radius][rho - radius])
    ensures var rows, cols := |accumulator|, |accumulator[0]|;
      Boxes(accumulator, rows, cols, radius)[theta - radius][rho - radius] <= -1 ==> theta == radius && rho == radius
    ensures var rows, cols := |accumulator|, |accumulator[0]|;
      var boxes := Boxes(accumulator, rows, cols, radius);
      (forall i, j | 0 <= i < rows && 0 <= j < cols :: 0 <= accumulator[i][j]) ==>
      forall p, q | 0 <= p < rows - 2 * radius && 0 <= q < cols - 2 * radius ::
        boxes[p][q] <= boxes[theta - radius][rho - radius]
  {
    var thetasCount := |accumulator|;
    var rhosCount := |accumulator[0]|;
    var sumH := SumStrips(accumulator, thetasCount, rhosCount, radius);
    var sumV := SumBoxes(sumH, thetasCount - 2 * radius, rhosCount, radius);
    ghost var boxes := Boxes(accumulator, thetasCount, rhosCount, radius);
    assert forall t, s | 0 <= t < thetasCount - 2 * radius && 0 <= s < rhosCount - 2 * radius :: sumV[t][s] == boxes[t][s];
    var thetaIndex, rhoIndex := FindMax(sumV, thetasCount - 2 * radius, rhosCount - 2 * radius);
    if forall i, j | 0 <= i < thetasCount && 0 <= j < rhosCount :: 0 <= accumulator[i][j] {
      BoxesNonNegative(accumulator, thetasCount, rhosCount, radius, thetaIndex, rhoIndex);
    }
    theta, rho := thetaIndex + radius, rhoIndex + radius;
  }

  /** Window sums of an accumulator without negative entries are not
      negative. */
  lemma BoxesNonNegative(a: Matrix, rows: int, cols: int, r: int, t: int, s: int)
    requires IsMatrix(a, rows, cols) && 0 <= r && 2 * r + 1 <= rows && 2 * r + 1 <= cols
    requires forall i, j | 0 <= i < rows && 0 <= j < cols :: 0 <= a[i][j]
    requires 0 <= t < rows - 2 * r && 0 <= s < cols - 2 * r
    ensures 0 <= Boxes(a, rows, cols, r)[t][s]
  {
    var strips := Strips(a, rows, cols, r);
    forall m | 0 <= m < cols
      ensures 0 <= strips[t][m]
    {
      SumNonNegative(Column(a, rows, cols, m), t, t + 2 * r + 1);
    }
    SumNonNegative(strips[t], s, s + 2 * r + 1);
  }
}
