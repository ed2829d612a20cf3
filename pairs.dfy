// getPairs: all pairs of two different elements of a set. The Swift set is
// iterated in its own order; here that order is the order of a sequence of
// distinct elements.

module Pairs {

  /** The pair `(x, y)`, followed by `(y, x)` when `ordered`. */
  function Both<T>(x: T, y: T, ordered: bool): (r: seq<(T, T)>)
    ensures |r| == if ordered then 2 else 1
    ensures r[0] == (x, y) && (ordered ==> r[1] == (y, x))
  {
    if ordered then [(x, y), (y, x)] else [(x, y)]
  }

  /** What the inner loop appends for the element `x` and the elements `ys` after it. */
  function Row<T>(x: T, ys: seq<T>, ordered: bool): seq<(T, T)>
  {
    if ys == [] then [] else Row(x, ys[..|ys| - 1], ordered) + Both(x, ys[|ys| - 1], ordered)
  }

  /** What the outer loop has built after its first `i` rounds. */
  function RowsUpTo<T>(data: seq<T>, i: nat, ordered: bool): seq<(T, T)>
    requires i <= |data|
  {
    if i == 0 then [] else RowsUpTo(data, i - 1, ordered) + Row(data[i - 1], data[i..], ordered)
  }

  function AllPairs<T>(data: seq<T>, ordered: bool): seq<(T, T)>
  {
    RowsUpTo(data, |data|, ordered)
  }

  /** `p` is a pair of two positions `i < j` of `data`, either way round when `ordered`. */
  predicate IsPair<T(==)>(data: seq<T>, ordered: bool, p: (T, T))
  {
    exists i, j :: 0 <= i < j < |data| &&
      (p == (data[i], data[j]) || (ordered && p == (data[j], data[i])))
  }

  function Width(ordered: bool): nat
  {
    if ordered then 2 else 1
  }

  lemma SliceStep<T>(data: seq<T>, lo: nat, k: nat)
    requires lo <= k < |data|
    ensures data[lo..k + 1][..k - lo] == data[lo..k]
    ensures data[lo..k + 1][k - lo] == data[k]
  {
  }

  /** The source's nested `while` loops (CreasePatternAnalyzer/utils.swift:794-809). */
  method GetPairs<T>(data: seq<T>, ordered: bool) returns (pairs: seq<(T, T)>)
    ensures pairs == AllPairs(data, ordered)
  {
    pairs := [];
    var index := 0;
    while index != |data|
      invariant 0 <= index <= |data|
      invariant pairs == RowsUpTo(data, index, ordered)
    {
      var indexNew := index + 1;
      while indexNew != |data|
        invariant index + 1 <= indexNew <= |data|
        invariant pairs == RowsUpTo(data, index, ordered) + Row(data[index], data[index + 1..indexNew], ordered)
      {
        SliceStep(data, index + 1, indexNew);
        pairs := pairs + [(data[index], data[indexNew])];
        if ordered {
          pairs := pairs + [(data[indexNew], data[index])];
        }
        indexNew := indexNew + 1;
      }
      assert data[index + 1..indexNew] == data[index + 1..];
      index := index + 1;
    }
  }

  lemma {:induction false} RowLength<T>(x: T, ys: seq<T>, ordered: bool)
    ensures |Row(x, ys, ordered)| == Width(ordered) * |ys|
    decreases |ys|
  {
    if ys != [] {
      RowLength(x, ys[..|ys| - 1], ordered);
    }
  }

  lemma {:induction false} RowsUpToLength<T>(data: seq<T>, i: nat, ordered: bool)
    requires i <= |data|
    ensures 2 * |RowsUpTo(data, i, ordered)| == Width(ordered) * (i * (2 * |data| - i - 1))
  {
    if i > 0 {
      RowsUpToLength(data, i - 1, ordered);
      RowLength(data[i - 1], data[i..], ordered);
      assert |RowsUpTo(data, i, ordered)| == |RowsUpTo(data, i - 1, ordered)| + |Row(data[i - 1], data[i..], ordered)|;
      StepLength(|data|, i, Width(ordered));
    }
  }

  /** The count after round `i` from the count after round `i - 1`. */
  lemma StepLength(n: int, i: int, w: int)
    requires w == 1 || w == 2
    ensures w * ((i - 1) * (2 * n - (i - 1) - 1)) + 2 * (w * (n - i)) == w * (i * (2 * n - i - 1))
  {
    assert (i - 1) * (2 * n - (i - 1) - 1) + 2 * (n - i) == i * (2 * n - i - 1);
  }

  /** One pair for every two-element subset, two when `ordered`: `n(n-1)/2` times the width. */
  lemma PairsCount<T>(data: seq<T>, ordered: bool)
    ensures 2 * |AllPairs(data, ordered)| == Width(ordered) * (|data| * (|data| - 1))
  {
    RowsUpToLength(data, |data|, ordered);
    assert 2 * |data| - |data| - 1 == |data| - 1;
  }

  lemma {:induction false} RowMembers<T>(x: T, ys: seq<T>, ordered: bool, p: (T, T))
    ensures p in Row(x, ys, ordered) <==>
      exists k :: 0 <= k < |ys| && (p == (x, ys[k]) || (ordered && p == (ys[k], x)))
    decreases |ys|
  {
    if ys != [] {
      var front := ys[..|ys| - 1];
      RowMembers(x, front, ordered, p);
      if p in Row(x, ys, ordered) {
        if p !in Row(x, front, ordered) {
          assert p == (x, ys[|ys| - 1]) || (ordered && p == (ys[|ys| - 1], x));
        } else {
          var k :| 0 <= k < |front| && (p == (x, front[k]) || (ordered && p == (front[k], x)));
          assert ys[k] == front[k];
        }
      }
      if exists k :: 0 <= k < |ys| && (p == (x, ys[k]) || (ordered && p == (ys[k], x))) {
        var k :| 0 <= k < |ys| && (p == (x, ys[k]) || (ordered && p == (ys[k], x)));
        if k < |front| {
          assert front[k] == ys[k];
        } else {
          assert p in Both(x, ys[|ys| - 1], ordered);
        }
      }
    }
  }

  lemma {:induction false} RowsUpToMembers<T>(data: seq<T>, i: nat, ordered: bool, p: (T, T))
    requires i <= |data|
    ensures p in RowsUpTo(data, i, ordered) <==>
      exists a, b :: 0 <= a < i && a < b < |data| &&
        (p == (data[a], data[b]) || (ordered && p == (data[b], data[a])))
  {
    if i > 0 {
      RowsUpToMembers(data, i - 1, ordered, p);
      var ys := data[i..];
      RowMembers(data[i - 1], ys, ordered, p);
      if p in Row(data[i - 1], ys, ordered) {
        var k :| 0 <= k < |ys| && (p == (data[i - 1], ys[k]) || (ordered && p == (ys[k], data[i - 1])));
        assert ys[k] == data[i + k];
      }
      if exists a, b :: 0 <= a < i && a < b < |data| && (p == (data[a], data[b]) || (ordered && p == (data[b], data[a]))) {
        var a, b :| 0 <= a < i && a < b < |data| &&
          (p == (data[a], data[b]) || (ordered && p == (data[b], data[a])));
        if a == i - 1 {
          assert ys[b - i] == data[b];
        }
      }
    }
  }

  /** Exactly the pairs of two different positions are listed, both ways round when `ordered`. */
  lemma PairsMembers<T>(data: seq<T>, ordered: bool, p: (T, T))
    ensures p in AllPairs(data, ordered) <==> IsPair(data, ordered, p)
  {
    RowsUpToMembers(data, |data|, ordered, p);
  }
}
