// `BinaryImage` of utils-image.swift: the pixel grid and the passes that
// thin it and clear its isolated pixels in place.

module BinaryImages {
  import opened Grids
  import opened Thinning

  /** An image with no pixel set. */
  function Blank(w: int, h: int): (g: Grid)
    requires 0 <= w && 0 <= h
    ensures Rect(g, w, h) && forall i, j | 0 <= i < w && 0 <= j < h :: !g[i][j]
  {
    seq(w, i => seq(h, j => false))
  }

  /** The first double loop of one `erode` sub-iteration: it fills
      `shouldRemove` from the pixels as they were before the sub-iteration. */
  method MarkPass(g: Grid, w: int, h: int, k: int) returns (shouldRemove: Grid)
    requires Rect(g, w, h) && 0 <= h && 2 <= w && (w == 2 || 2 <= h)
    ensures shouldRemove == Marks(g, w, h, k)
  {
    shouldRemove := Blank(w, h);
    for i := 1 to w - 1
      invariant Rect(shouldRemove, w, h)
      invariant forall a, b | 0 <= a < w && 0 <= b < h :: shouldRemove[a][b] == (a < i && Marked(g, w, h, k, a, b))
    {
      for j := 1 to h - 1
        invariant Rect(shouldRemove, w, h)
        invariant forall a, b | 0 <= a < w && a != i && 0 <= b < h :: shouldRemove[a][b] == (a < i && Marked(g, w, h, k, a, b))
        invariant forall b | 0 <= b < h :: shouldRemove[i][b] == (b < j && Marked(g, w, h, k, i, b))
      {
        if g[i][j] {
          var remove := Removable(Ring(g, w, h, i, j), k);
          if remove {
            shouldRemove := shouldRemove[i := shouldRemove[i][j := true]];
          }
        }
      }
    }
    forall a | 0 <= a < w
      ensures shouldRemove[a] == Marks(g, w, h, k)[a]
    {
    }
  }

  /** The second double loop of one `erode` sub-iteration: columns
      `1 ..< w - 1`, rows `0 ..< h - 1`, each marked pixel turned false. */
  method ClearMarked(g: Grid, shouldRemove: Grid, w: int, h: int) returns (g': Grid)
    requires Rect(g, w, h) && Rect(shouldRemove, w, h) && 0 <= h && 2 <= w && (w == 2 || 1 <= h)
    ensures g' == Cleared(g, shouldRemove, w, h)
  {
    g' := g;
    for i := 1 to w - 1
      invariant Rect(g', w, h)
      invariant forall a, b | 0 <= a < w && 0 <= b < h ::
        g'[a][b] == (g[a][b] && !(1 <= a < i && b < h - 1 && shouldRemove[a][b]))
    {
      for j := 0 to h - 1
        invariant Rect(g', w, h)
        invariant forall a, b | 0 <= a < w && 0 <= b < h ::
          g'[a][b] == (g[a][b] && !((1 <= a < i || (a == i && b < j)) && b < h - 1 && shouldRemove[a][b]))
      {
        if shouldRemove[i][j] {
          g' := g'[i := g'[i][j := false]];
        }
      }
    }
    forall a | 0 <= a < w
      ensures g'[a] == Cleared(g, shouldRemove, w, h)[a]
    {
    }
  }

  /** `erode` on the pixels: sub-iterations 0 and 1, each marking from the
      image it starts with and then clearing. */
  method ErodeGrid(g: Grid, w: int, h: int) returns (g': Grid)
    requires Rect(g, w, h) && 0 <= h && 2 <= w && (w == 2 || 2 <= h)
    ensures g' == Eroded(g, w, h)
  {
    g' := g;
    for k := 0 to 2
      invariant Rect(g', w, h)
      invariant g' == if k == 0 then g else if k == 1 then Pass(g, w, h, 0) else Eroded(g, w, h)
    {
      var shouldRemove := MarkPass(g', w, h, k);
      g' := ClearMarked(g', shouldRemove, w, h);
    }
  }

  /** The comparison loop of `thin`: it stops at the first pixel that
      differs. */
  method Differs(old_: Grid, new_: Grid, w: int, h: int) returns (shouldRepeat: bool)
    requires Rect(old_, w, h) && Rect(new_, w, h) && 0 <= w && 0 <= h
    ensures shouldRepeat <==> old_ != new_
  {
    shouldRepeat := false;
    label outerLoop:
    for i := 0 to w
      invariant forall a, b | 0 <= a < i && 0 <= b < h :: old_[a][b] == new_[a][b]
    {
      for j := 0 to h
        invariant forall b | 0 <= b < j :: old_[i][b] == new_[i][b]
      {
        if old_[i][j] != new_[i][j] {
          shouldRepeat := true;
          break outerLoop;
        }
      }
    }
    if !shouldRepeat {
      forall a | 0 <= a < w
        ensures old_[a] == new_[a]
      {
      }
    }
  }

  /** Pixel `(i, j)` lies in the sweep of `removeNoise`: columns
      `1 ..< w - margin`, rows `1 ..< h - margin`. */
  predicate Swept(w: int, h: int, margin: int, i: int, j: int)
  {
    1 <= i < w - margin && 1 <= j < h - margin
  }

  /** No pixel among the eight around the inner pixel `(i, j)` is true. */
  predicate Lonely(g: Grid, w: int, h: int, i: int, j: int)
    requires Rect(g, w, h) && Inner(w, h, i, j)
  {
    !(g[i][j - 1] || g[i - 1][j - 1] || g[i + 1][j - 1] || g[i - 1][j] ||
      g[i + 1][j] || g[i][j + 1] || g[i - 1][j + 1] || g[i + 1][j + 1])
  }

  /** The image without the true pixels of the sweep that have no true
      neighbour. */
  function Denoised(g: Grid, w: int, h: int, margin: int): (g': Grid)
    requires Rect(g, w, h) && 0 <= h && 1 <= margin
    ensures Rect(g', w, h)
  {
    seq(w, i requires 0 <= i < w => seq(h, j requires 0 <= j < h =>
      g[i][j] && !(Swept(w, h, margin, i, j) && Lonely(g, w, h, i, j))))
  }

  /** The pixels the sweep has cleared before reaching `(i, j)`. */
  predicate SweptBefore(g': Grid, g: Grid, w: int, h: int, margin: int, i: int, j: int)
    requires Rect(g', w, h) && Rect(g, w, h) && 1 <= margin
  {
    forall a, b | 0 <= a < w && 0 <= b < h ::
      g'[a][b] == (g[a][b] && !((a < i || (a == i && b < j)) && Swept(w, h, margin, a, b) && Lonely(g, w, h, a, b)))
  }

  /** A true pixel still to be visited sees its neighbours as they were:
      the sweep has only cleared lonely pixels, and none of those is next
      to a true pixel. */
  lemma Unchanged(g': Grid, g: Grid, w: int, h: int, margin: int, i: int, j: int)
    requires Rect(g', w, h) && Rect(g, w, h) && 1 <= margin && Swept(w, h, margin, i, j)
    requires SweptBefore(g', g, w, h, margin, i, j) && g[i][j]
    ensures Lonely(g', w, h, i, j) == Lonely(g, w, h, i, j)
  {
    forall a, b | i - 1 <= a <= i + 1 && j - 1 <= b <= j + 1 && (a, b) != (i, j) && Swept(w, h, margin, a, b)
      ensures !Lonely(g, w, h, a, b)
    {
    }
  }

  /** `removeNoise` on the pixels: the sweep clears a true pixel when no
      pixel around it is true, looking at the image as the sweep has
      left it so far. */
  method DenoiseGrid(g: Grid, w: int, h: int, margin: int) returns (g': Grid)
    requires Rect(g, w, h) && 0 <= h && 1 <= margin <= 2 && 1 + margin <= w && (w == 1 + margin || 1 + margin <= h)
    ensures g' == Denoised(g, w, h, margin)
  {
    g' := g;
    for i := 1 to w - margin
      invariant Rect(g', w, h) && SweptBefore(g', g, w, h, margin, i, 1)
    {
      for j := 1 to h - margin
        invariant Rect(g', w, h) && SweptBefore(g', g, w, h, margin, i, j)
      {
        if g'[i][j] {
          Unchanged(g', g, w, h, margin, i, j);
        }
        if g'[i][j] && !(g'[i][j - 1] || g'[i - 1][j - 1] || g'[i + 1][j - 1] || g'[i - 1][j] ||
                         g'[i + 1][j] || g'[i][j + 1] || g'[i - 1][j + 1] || g'[i + 1][j + 1])
        {
          g' := g'[i := g'[i][j := false]];
        }
      }
    }
    forall a | 0 <= a < w
      ensures g'[a] == Denoised(g, w, h, margin)[a]
    {
    }
  }

  /** Clearing the lonely pixels leaves none: a second `removeNoise`
      changes nothing. */
  lemma DenoisedStable(g: Grid, w: int, h: int, margin: int)
    requires Rect(g, w, h) && 0 <= h && 1 <= margin
    ensures Denoised(Denoised(g, w, h, margin), w, h, margin) == Denoised(g, w, h, margin)
  {
    var d := Denoised(g, w, h, margin);
    forall i, j | 0 <= i < w && 0 <= j < h && Swept(w, h, margin, i, j) && d[i][j]
      ensures !Lonely(d, w, h, i, j)
    {
      var a, b :| i - 1 <= a <= i + 1 && j - 1 <= b <= j + 1 && (a, b) != (i, j) && g[a][b];
      assert d[a][b];
    }
    forall a | 0 <= a < w
      ensures Denoised(d, w, h, margin)[a] == d[a]
    {
    }
  }

  /** A 3 by 3 image whose only true pixel is the centre. */
  const Speck: Grid := [[false, false, false], [false, true, false], [false, false, false]]

  /** The sweep of `removeNoise` as written, columns and rows `1 ..< 3 - 2`,
      is empty on a 3 by 3 image, so the lonely centre pixel stays; sweeping
      the inner pixels `1 ..< 3 - 1` clears it. */
  lemma RemoveNoiseAsWrittenMisses()
    ensures Rect(Speck, 3, 3) && Lonely(Speck, 3, 3, 1, 1) && Speck[1][1]
    ensures Denoised(Speck, 3, 3, 2) == Speck
    ensures !Denoised(Speck, 3, 3, 1)[1][1]
  {
    assert Denoised(Speck, 3, 3, 2)[0] == Speck[0];
    assert Denoised(Speck, 3, 3, 2)[1] == Speck[1];
    assert Denoised(Speck, 3, 3, 2)[2] == Speck[2];
  }

  /** A binary image; the file it was read from and written to is not part
      of this model, only its pixels are. */
  class BinaryImage {
    var result: Grid
    const width: int
    const height: int

    ghost predicate Valid()
      reads this
    {
      Rect(result, width, height) && 0 <= height
    }

    /** The image with the given pixels, as `init(fileURL:)` leaves it once
        the file is decoded. */
    constructor (pixels: Grid, width: int, height: int)
      requires Rect(pixels, width, height) && 0 <= height
      ensures Valid() && result == pixels && this.width == width && this.height == height
    {
      this.width, this.height := width, height;
      result := pixels;
    }

    /** `erode`: both sub-iterations of one thinning pass. */
    method Erode()
      requires Valid() && 2 <= width && (width == 2 || 2 <= height)
      modifies this
      ensures Valid() && result == Eroded(old(result), width, height)
    {
      result := ErodeGrid(result, width, height);
    }

    /** `thin`: `erode` until a pass changes no pixel. */
    method Thin()
      requires Valid() && 2 <= width && (width == 2 || 2 <= height)
      modifies this
      ensures Valid() && result == Thinned(old(result), width, height)
      ensures Eroded(result, width, height) == result && Within(result, old(result), width, height)
    {
      ThinnedFixed(result, width, height);
      var shouldRepeat := true;
      while shouldRepeat
        invariant Valid()
        invariant shouldRepeat ==> Thinned(result, width, height) == Thinned(old(result), width, height)
        invariant !shouldRepeat ==> result == Thinned(old(result), width, height)
        decreases Count(result, width, height) + if shouldRepeat then 1 else 0
      {
        var oldResult := result;
        Erode();
        ErodeShrinks(oldResult, width, height);
        shouldRepeat := Differs(oldResult, result, width, height);
      }
    }

    /** `removeNoise`, sweeping every inner pixel. */
    method RemoveNoise()
      requires Valid() && 2 <= width && (width == 2 || 2 <= height)
      modifies this
      ensures Valid() && result == Denoised(old(result), width, height, 1)
    {
      result := DenoiseGrid(result, width, height, 1);
    }

    /** `removeNoise` as written: the sweep stops one column and one row
        short of the last inner ones. */
    method RemoveNoiseAsWritten()
      requires Valid() && 3 <= width && (width == 3 || 3 <= height)
      modifies this
      ensures Valid() && result == Denoised(old(result), width, height, 2)
    {
      result := DenoiseGrid(result, width, height, 2);
    }
  }
}
