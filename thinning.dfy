// What one pass of `BinaryImage.erode` (utils-image.swift) removes: the
// two sub-iterations of Zhang-Suen thinning, as functions of the image.

module Thinning {
  import opened Grids

  /** Pixel `(i, j)` has all eight neighbours inside the image. */
  predicate Inner(w: int, h: int, i: int, j: int)
  {
    1 <= i < w - 1 && 1 <= j < h - 1
  }

  /** The neighbours `p2 … p9` of an inner pixel, clockwise from the one
      above it. */
  function Ring(g: Grid, w: int, h: int, i: int, j: int): (p: seq<bool>)
    requires Rect(g, w, h) && Inner(w, h, i, j)
    ensures |p| == 8
  {
    [g[i][j - 1], g[i + 1][j - 1], g[i + 1][j], g[i + 1][j + 1],
     g[i][j + 1], g[i - 1][j + 1], g[i - 1][j], g[i - 1][j - 1]]
  }

  /** The number of true neighbours, `n`. */
  function Neighbours(p: seq<bool>): (n: int)
    requires |p| == 8
    ensures 0 <= n <= 8
    ensures n == 0 <==> forall m | 0 <= m < 8 :: !p[m]
    ensures n == 8 <==> forall m | 0 <= m < 8 :: p[m]
  {
    Int(p[0]) + Int(p[1]) + Int(p[2]) + Int(p[3]) + Int(p[4]) + Int(p[5]) + Int(p[6]) + Int(p[7])
  }

  /** The number of false-to-true steps going once round the ring, `s`. */
  function Transitions(p: seq<bool>): (s: int)
    requires |p| == 8
    ensures 0 <= s <= 4
    ensures (forall m | 0 <= m < 8 :: p[m]) || (forall m | 0 <= m < 8 :: !p[m]) ==> s == 0
  {
    Int(!p[0] && p[1]) + Int(!p[1] && p[2]) + Int(!p[2] && p[3]) + Int(!p[3] && p[4]) +
    Int(!p[4] && p[5]) + Int(!p[5] && p[6]) + Int(!p[6] && p[7]) + Int(!p[7] && p[0])
  }

  /** The test of sub-iteration `k` on a true pixel with neighbours `p`. */
  predicate Removable(p: seq<bool>, k: int)
    requires |p| == 8
  {
    Transitions(p) == 1 && 2 <= Neighbours(p) <= 6 &&
    !(if k == 0 then p[0] && p[2] && p[4] else p[0] && p[2] && p[6]) &&
    !(if k == 0 then p[2] && p[4] && p[6] else p[0] && p[4] && p[6])
  }

  /** Sub-iteration `k` marks `(i, j)` in `shouldRemove`. */
  predicate Marked(g: Grid, w: int, h: int, k: int, i: int, j: int)
    requires Rect(g, w, h)
  {
    Inner(w, h, i, j) && g[i][j] && Removable(Ring(g, w, h, i, j), k)
  }

  /** The `shouldRemove` grid of sub-iteration `k`. */
  function Marks(g: Grid, w: int, h: int, k: int): (m: Grid)
    requires Rect(g, w, h) && 0 <= h
    ensures Rect(m, w, h)
  {
    seq(w, i requires 0 <= i < w => seq(h, j requires 0 <= j < h => Marked(g, w, h, k, i, j)))
  }

  /** The image after clearing the marked pixels the second double loop
      visits: columns `1 ..< w - 1`, rows `0 ..< h - 1`. */
  function Cleared(g: Grid, m: Grid, w: int, h: int): (g': Grid)
    requires Rect(g, w, h) && Rect(m, w, h) && 0 <= h
    ensures Rect(g', w, h)
  {
    seq(w, i requires 0 <= i < w => seq(h, j requires 0 <= j < h =>
      g[i][j] && !(1 <= i < w - 1 && 0 <= j < h - 1 && m[i][j])))
  }

  /** Sub-iteration `k` of `erode`. */
  function Pass(g: Grid, w: int, h: int, k: int): (g': Grid)
    requires Rect(g, w, h) && 0 <= h
    ensures Rect(g', w, h)
  {
    Cleared(g, Marks(g, w, h, k), w, h)
  }

  /** `erode`: sub-iteration 0, then sub-iteration 1 on its outcome. */
  function Eroded(g: Grid, w: int, h: int): (g': Grid)
    requires Rect(g, w, h) && 0 <= h
    ensures Rect(g', w, h)
  {
    Pass(Pass(g, w, h, 0), w, h, 1)
  }

  /** A pass clears exactly the true inner pixels its test accepts, and
      keeps every other pixel, the border included. */
  lemma PassPixel(g: Grid, w: int, h: int, k: int, i: int, j: int)
    requires Rect(g, w, h) && 0 <= h && 0 <= i < w && 0 <= j < h
    ensures Pass(g, w, h, k)[i][j] == (g[i][j] && !Marked(g, w, h, k, i, j))
    ensures !Inner(w, h, i, j) ==> Pass(g, w, h, k)[i][j] == g[i][j]
    ensures g[i][j] && !Pass(g, w, h, k)[i][j] ==>
      var p := Ring(g, w, h, i, j); Transitions(p) == 1 && 2 <= Neighbours(p) <= 6
  {
  }

  /** A pass only turns true pixels false. */
  lemma PassWithin(g: Grid, w: int, h: int, k: int)
    requires Rect(g, w, h) && 0 <= h
    ensures Within(Pass(g, w, h, k), g, w, h)
  {
    forall i, j | 0 <= i < w && 0 <= j < h
      ensures Pass(g, w, h, k)[i][j] ==> g[i][j]
    {
      PassPixel(g, w, h, k, i, j);
    }
  }

  /** End points, isolated pixels and pixels deep inside a shape survive
      every pass: the test wants two to six true neighbours. */
  lemma PassKeepsEnds(g: Grid, w: int, h: int, k: int, i: int, j: int)
    requires Rect(g, w, h) && 0 <= h && Inner(w, h, i, j) && g[i][j]
    requires Neighbours(Ring(g, w, h, i, j)) <= 1 || Neighbours(Ring(g, w, h, i, j)) >= 7
    ensures Pass(g, w, h, k)[i][j]
  {
    PassPixel(g, w, h, k, i, j);
  }

  /** `erode` only turns pixels false, never touches the border, and the
      count of true pixels drops unless nothing changed. */
  lemma ErodeShrinks(g: Grid, w: int, h: int)
    requires Rect(g, w, h) && 0 <= h
    ensures Within(Eroded(g, w, h), g, w, h)
    ensures forall i, j | 0 <= i < w && 0 <= j < h && !Inner(w, h, i, j) :: Eroded(g, w, h)[i][j] == g[i][j]
    ensures Count(Eroded(g, w, h), w, h) <= Count(g, w, h)
    ensures Eroded(g, w, h) != g ==> Count(Eroded(g, w, h), w, h) < Count(g, w, h)
  {
    var g1 := Pass(g, w, h, 0);
    PassWithin(g, w, h, 0);
    PassWithin(g1, w, h, 1);
    forall i, j | 0 <= i < w && 0 <= j < h && !Inner(w, h, i, j)
      ensures Eroded(g, w, h)[i][j] == g[i][j]
    {
      PassPixel(g, w, h, 0, i, j);
      PassPixel(g1, w, h, 1, i, j);
    }
    CountShrinks(Eroded(g, w, h), g, w, h);
  }

  /** `thin`: `erode` again and again until a pass changes nothing. */
  function Thinned(g: Grid, w: int, h: int): (g': Grid)
    requires Rect(g, w, h) && 0 <= h
    ensures Rect(g', w, h)
    decreases Count(g, w, h)
  {
    var e := Eroded(g, w, h);
    if e == g then g else ErodeShrinks(g, w, h); Thinned(e, w, h)
  }

  /** Thinning ends in an image `erode` leaves alone, inside the original,
      with the border unchanged. */
  lemma {:induction false} ThinnedFixed(g: Grid, w: int, h: int)
    requires Rect(g, w, h) && 0 <= h
    ensures Eroded(Thinned(g, w, h), w, h) == Thinned(g, w, h)
    ensures Within(Thinned(g, w, h), g, w, h)
    ensures forall i, j | 0 <= i < w && 0 <= j < h && !Inner(w, h, i, j) :: Thinned(g, w, h)[i][j] == g[i][j]
    decreases Count(g, w, h)
  {
    var e := Eroded(g, w, h);
    ErodeShrinks(g, w, h);
    if e != g {
      ThinnedFixed(e, w, h);
    }
  }
}
