// Boolean images as grids of pixels, and the pixel counts the image
// helpers of utils-image.swift rest on.

module Grids {
  /** A binary image: `g[i][j]` is the pixel in column `i` and row `j`
      (`result[i][j]` of `BinaryImage`), true where the image is dark. */
  type Grid = seq<seq<bool>>

  /** `g` has `w` columns of `h` pixels each. */
  predicate Rect(g: Grid, w: int, h: int)
  {
    |g| == w && forall i | 0 <= i < |g| :: |g[i]| == h
  }

  /** `Bool.int`: 1 for true, 0 for false. */
  function Int(b: bool): (r: int)
    ensures 0 <= r <= 1 && (r == 1 <==> b)
  {
    if b then 1 else 0
  }

  /** The number of true pixels `row[j]` with `lo <= j < hi`. */
  function RowCount(row: seq<bool>, lo: int, hi: int): (r: nat)
    requires 0 <= lo <= hi <= |row|
    ensures r <= hi - lo
    decreases hi - lo
  {
    if lo == hi then 0 else RowCount(row, lo, hi - 1) + Int(row[hi - 1])
  }

  /** Every column of `g` from `ilo` to `ihi` reaches row `jhi`. */
  predicate Spans(g: Grid, ilo: int, ihi: int, jlo: int, jhi: int)
  {
    0 <= ilo <= ihi <= |g| && 0 <= jlo <= jhi && forall i | ilo <= i < ihi :: jhi <= |g[i]|
  }

  /** The number of true pixels `g[i][j]` with `ilo <= i < ihi` and
      `jlo <= j < jhi`. */
  function BoxCount(g: Grid, ilo: int, ihi: int, jlo: int, jhi: int): (r: nat)
    requires Spans(g, ilo, ihi, jlo, jhi)
    decreases ihi - ilo
  {
    if ilo == ihi then 0 else BoxCount(g, ilo, ihi - 1, jlo, jhi) + RowCount(g[ihi - 1], jlo, jhi)
  }

  /** A box holds no more true pixels than it has places. */
  lemma {:induction false} BoxCountBound(g: Grid, ilo: int, ihi: int, jlo: int, jhi: int)
    requires Spans(g, ilo, ihi, jlo, jhi)
    ensures BoxCount(g, ilo, ihi, jlo, jhi) <= (ihi - ilo) * (jhi - jlo)
    decreases ihi - ilo
  {
    if ilo != ihi {
      BoxCountBound(g, ilo, ihi - 1, jlo, jhi);
      assert (ihi - ilo) * (jhi - jlo) == (ihi - 1 - ilo) * (jhi - jlo) + (jhi - jlo);
    }
  }

  /** The number of true pixels of the whole image. */
  function Count(g: Grid, w: int, h: int): (r: nat)
    requires Rect(g, w, h) && 0 <= h
  {
    BoxCount(g, 0, w, 0, h)
  }

  /** `g'` has every true pixel in the same place as a true pixel of `g`. */
  predicate Within(g': Grid, g: Grid, w: int, h: int)
    requires Rect(g', w, h) && Rect(g, w, h)
  {
    forall i, j | 0 <= i < w && 0 <= j < h :: g'[i][j] ==> g[i][j]
  }

  /** A row with fewer true pixels counts no more of them, and strictly
      fewer when the rows differ. */
  lemma {:induction false} RowShrinks(row': seq<bool>, row: seq<bool>, hi: nat)
    requires hi <= |row'| == |row| && forall j | 0 <= j < hi :: row'[j] ==> row[j]
    ensures RowCount(row', 0, hi) <= RowCount(row, 0, hi)
    ensures row'[..hi] != row[..hi] ==> RowCount(row', 0, hi) < RowCount(row, 0, hi)
  {
    if hi != 0 {
      RowShrinks(row', row, hi - 1);
      if row'[..hi] != row[..hi] && row'[..hi - 1] == row[..hi - 1] {
        assert row'[..hi] == row'[..hi - 1] + [row'[hi - 1]];
        assert row[..hi] == row[..hi - 1] + [row[hi - 1]];
      }
    }
  }

  /** Clearing pixels lowers the count, strictly when a pixel is cleared. */
  lemma {:induction false} BoxShrinks(g': Grid, g: Grid, w: int, h: int, ihi: int)
    requires Rect(g', w, h) && Rect(g, w, h) && Within(g', g, w, h) && 0 <= h && 0 <= ihi <= w
    ensures BoxCount(g', 0, ihi, 0, h) <= BoxCount(g, 0, ihi, 0, h)
    ensures g'[..ihi] != g[..ihi] ==> BoxCount(g', 0, ihi, 0, h) < BoxCount(g, 0, ihi, 0, h)
    decreases ihi
  {
    if ihi != 0 {
      BoxShrinks(g', g, w, h, ihi - 1);
      var i := ihi - 1;
      assert forall j | 0 <= j < h :: g'[i][j] ==> g[i][j];
      RowShrinks(g'[i], g[i], h);
      assert g'[i][..h] == g'[i] && g[i][..h] == g[i];
      if g'[..ihi] != g[..ihi] && g'[..i] == g[..i] {
        assert g'[..ihi] == g'[..i] + [g'[i]];
        assert g[..ihi] == g[..i] + [g[i]];
      }
    }
  }

  /** An image inside another has no more true pixels, and strictly fewer
      unless the two are the same. */
  lemma CountShrinks(g': Grid, g: Grid, w: int, h: int)
    requires Rect(g', w, h) && Rect(g, w, h) && Within(g', g, w, h) && 0 <= h
    ensures Count(g', w, h) <= Count(g, w, h)
    ensures g' != g ==> Count(g', w, h) < Count(g, w, h)
  {
    BoxShrinks(g', g, w, h, w);
    assert g'[..w] == g' && g[..w] == g;
  }
}
