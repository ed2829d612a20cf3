// `Array.minIndex()` of Array+minIndex.swift: the place of the smallest
// element, the first one on a tie.

module MinIndex {
  import opened Wrappers

  /** `i` is the first place of a smallest element of `s`. */
  predicate FirstMinimum(s: seq<int>, i: int)
  {
    0 <= i < |s| && (forall j | 0 <= j < |s| :: s[i] <= s[j]) && (forall j | 0 <= j < i :: s[i] < s[j])
  }

  /** A sequence has at most one first smallest place. */
  lemma FirstMinimumUnique(s: seq<int>, i: int, k: int)
    requires FirstMinimum(s, i)
    ensures FirstMinimum(s, k) <==> k == i
  {
    if 0 <= k < i {
      assert s[i] < s[k];
    } else if i < k < |s| {
      assert s[i] <= s[k];
    }
  }

  /** `minIndex()` as written: the loop runs over `0 ..< count - 1`, so the
      answer is the first smallest place of all but the last element (of
      the only element when there is one). */
  method MinIndexAsWritten(s: seq<int>) returns (r: Option<int>)
    ensures r.None? <==> |s| == 0
    ensures r.Some? ==> FirstMinimum(s[..if |s| == 1 then 1 else |s| - 1], r.value)
  {
    if |s| < 1 {
      return None;
    }
    var minIndex := 0;
    var minValue := s[0];
    for i := 0 to |s| - 1
      invariant FirstMinimum(s[..if i == 0 then 1 else i], minIndex) && minValue == s[minIndex]
    {
      if s[i] < minValue {
        minIndex := i;
        minValue := s[i];
      }
    }
    return Some(minIndex);
  }

  /** With `[2, 1]` the loop only looks at the 2, and answers 0 although the
      smallest element is at 1. */
  lemma MinIndexAsWrittenMissesLast()
    ensures FirstMinimum([2, 1][..1], 0)
    ensures !FirstMinimum([2, 1], 0) && FirstMinimum([2, 1], 1)
  {
    var s: seq<int> := [2, 1];
    assert s[..1] == [2];
    assert s[0] > s[1];
  }

  /** `minIndex()` with the loop over every element: the first place of the
      smallest element, and `nil` for an empty array. */
  method MinIndex(s: seq<int>) returns (r: Option<int>)
    ensures r.None? <==> |s| == 0
    ensures r.Some? ==> FirstMinimum(s, r.value)
  {
    if |s| < 1 {
      return None;
    }
    var minIndex := 0;
    var minValue := s[0];
    for i := 0 to |s|
      invariant FirstMinimum(s[..if i == 0 then 1 else i], minIndex) && minValue == s[minIndex]
    {
      if s[i] < minValue {
        minIndex := i;
        minValue := s[i];
      }
    }
    assert s[..|s|] == s;
    return Some(minIndex);
  }
}
