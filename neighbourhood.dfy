// `neighboringPixelsValue` of utils-image.swift: the number of dark pixels
// in the square around a pixel.

module Neighbourhood {
  import opened Grids
  import Thinning

  /** `v` moved into `0 … n`. */
  function Clamp(v: int, n: int): int
  {
    if v < 0 then 0 else if n < v then n else v
  }

  /** A product of smaller non-negative factors is smaller. */
  lemma ProductBound(a: int, b: int, c: int, d: int)
    requires 0 <= a <= c && 0 <= b <= d
    ensures a * b <= c * d
  {
    assert a * b <= c * b;
  }

  /** `neighboringPixelsValue(image:x:y:radius:)`: 0 for a pixel outside
      the image, otherwise the number of true pixels of the
      `(2 radius + 1)²` square around it that lie inside the image. */
  method NeighboringPixelsValue(image: Grid, x: int, y: int, radius: int) returns (sum: int)
    requires 1 <= |image| && Rect(image, |image|, |image[0]|) && 0 <= radius
    ensures var width, height := |image|, |image[0]|;
      if x < 0 || x >= width || y < 0 || y >= height then sum == 0
      else sum == BoxCount(image, Clamp(x - radius, width), Clamp(x + radius + 1, width),
                                  Clamp(y - radius, height), Clamp(y + radius + 1, height))
    ensures 0 <= sum <= (2 * radius + 1) * (2 * radius + 1)
  {
    var width := |image|;
    var height := |image[0]|;
    if x < 0 || x >= width || y < 0 || y >= height {
      return 0;
    }
    sum := 0;
    ghost var ilo, jlo, jhi := Clamp(x - radius, width), Clamp(y - radius, height), Clamp(y + radius + 1, height);
    for i := x - radius to x + radius + 1
      invariant ilo <= Clamp(i, width) <= width
      invariant sum == BoxCount(image, ilo, Clamp(i, width), jlo, jhi)
    {
      if 0 <= i && i < width {
        ghost var before := sum;
        for j := y - radius to y + radius + 1
          invariant jlo <= Clamp(j, height) <= jhi
          invariant sum == before + RowCount(image[i], jlo, Clamp(j, height))
        {
          if 0 <= j && j < height {
            sum := sum + if image[i][j] then 1 else 0;
          }
        }
      }
    }
    WindowBound(image, width, height, x, y, radius);
  }

  /** The square around a pixel holds at most `(2 radius + 1)²` pixels. */
  lemma WindowBound(image: Grid, width: int, height: int, x: int, y: int, radius: int)
    requires Rect(image, width, height) && 0 <= x < width && 0 <= y < height && 0 <= radius
    ensures BoxCount(image, Clamp(x - radius, width), Clamp(x + radius + 1, width),
                            Clamp(y - radius, height), Clamp(y + radius + 1, height)) <= (2 * radius + 1) * (2 * radius + 1)
  {
    var ilo, ihi, jlo, jhi := Clamp(x - radius, width), Clamp(x + radius + 1, width), Clamp(y - radius, height), Clamp(y + radius + 1, height);
    BoxCountBound(image, ilo, ihi, jlo, jhi);
    ProductBound(ihi - ilo, jhi - jlo, 2 * radius + 1, 2 * radius + 1);
  }

  /** With radius 1, the value at an inner pixel is the pixel itself plus
      its eight neighbours `p2 … p9`. */
  lemma NeighboursAround(image: Grid, x: int, y: int)
    requires 1 <= |image| && Rect(image, |image|, |image[0]|) && Thinning.Inner(|image|, |image[0]|, x, y)
    ensures BoxCount(image, x - 1, x + 2, y - 1, y + 2) ==
      Int(image[x][y]) + Thinning.Neighbours(Thinning.Ring(image, |image|, |image[0]|, x, y))
  {
    var w, h := |image|, |image[0]|;
    RowThree(image[x - 1], y);
    RowThree(image[x], y);
    RowThree(image[x + 1], y);
    assert BoxCount(image, x - 1, x - 1, y - 1, y + 2) == 0;
    assert BoxCount(image, x - 1, x, y - 1, y + 2) == RowCount(image[x - 1], y - 1, y + 2);
    assert BoxCount(image, x - 1, x + 1, y - 1, y + 2) == BoxCount(image, x - 1, x, y - 1, y + 2) + RowCount(image[x], y - 1, y + 2);
  }

  /** Three pixels of a row. */
  lemma RowThree(row: seq<bool>, y: int)
    requires 1 <= y && y + 1 < |row|
    ensures RowCount(row, y - 1, y + 2) == Int(row[y - 1]) + Int(row[y]) + Int(row[y + 1])
  {
    assert RowCount(row, y - 1, y - 1) == 0;
    assert RowCount(row, y - 1, y) == Int(row[y - 1]);
    assert RowCount(row, y - 1, y + 1) == Int(row[y - 1]) + Int(row[y]);
  }
}
