/** Merging steps (utils.swift, `coalesceInstructions` and
    `insertInstruction`): a step that only names an intersection is folded
    into the latest earlier fold step whose fold is one of the two lines
    that cross there; its sentence goes right after that step's first
    sentence and its point joins that step's picture. */
module Coalescing {
  import opened Wrappers
  import opened References
  import opened Finder
  import Instructions

  /* ---------------------------------------------------------------------
     `insertInstruction`
     --------------------------------------------------------------------- */

  /** `index(of: ".")`: where the first sentence of `s` ends. */
  function FirstStop(s: string): (k: nat)
    requires '.' in s
    ensures k < |s| && s[k] == '.' && '.' !in s[..k]
  {
    if s[0] == '.' then 0
    else
      assert '.' in s[1..] by {
        var i :| 0 <= i < |s| && s[i] == '.';
        assert s[1..][i - 1] == '.';
      }
      var k := 1 + FirstStop(s[1..]);
      assert s[..k] == [s[0]] + s[1..][..k - 1];
      k
  }

  /** `s` with `t` inserted right after its first full stop. */
  function InsertAfterStop(s: string, t: string): (r: string)
    requires '.' in s
    ensures |r| == |s| + |t|
    ensures r[..FirstStop(s) + 1] == s[..FirstStop(s) + 1]
    ensures r[FirstStop(s) + 1..FirstStop(s) + 1 + |t|] == t
    ensures r[FirstStop(s) + 1 + |t|..] == s[FirstStop(s) + 1..]
  {
    var k := FirstStop(s);
    var r := s[..k + 1] + t + s[k + 1..];
    assert r[..k + 1] == s[..k + 1];
    assert r[k + 1..k + 1 + |t|] == t;
    assert r[k + 1 + |t|..] == s[k + 1..];
    r
  }

  /** The inserted text can be taken out again, and the first sentence,
      and so where it ends, are unchanged. */
  lemma InsertAfterStopInverse(s: string, t: string)
    requires '.' in s
    ensures var r := InsertAfterStop(s, t); var k := FirstStop(s);
      r[..k + 1] + r[k + 1 + |t|..] == s
      && '.' in r && FirstStop(r) == k
  {
    var r := InsertAfterStop(s, t);
    var k := FirstStop(s);
    assert s == s[..k + 1] + s[k + 1..];
    assert r[k] == '.' by {
      assert r[..k + 1][k] == s[..k + 1][k];
    }
    assert r[..k] == s[..k] by {
      assert r[..k] == r[..k + 1][..k];
      assert s[..k] == s[..k + 1][..k];
    }
    FirstStopIsFirst(r, k);
  }

  /** A full stop with none before it is the first one. */
  lemma {:induction false} FirstStopIsFirst(s: string, k: nat)
    requires k < |s| && s[k] == '.' && '.' !in s[..k]
    ensures '.' in s && FirstStop(s) == k
    decreases k
  {
    assert s[k] in s;
    if k > 0 {
      assert s[0] == s[..k][0];
      assert s[1..][k - 1] == '.';
      assert s[1..][..k - 1] == s[..k][1..];
      FirstStopIsFirst(s[1..], k - 1);
    }
  }

  /** `insertInstruction(fromIndex:toIndex:)`: the sentence of step `i`,
      after a space, right after the first sentence of step `j`. The
      program force-unwraps the position of the full stop. */
  method InsertInstruction(f: ReferenceFinder, i: nat, j: nat)
    modifies f`instructions
    requires i < |f.instructions| && j < |f.instructions| && '.' in f.instructions[j]
    ensures f.instructions == old(f.instructions)[j := InsertAfterStop(old(f.instructions)[j], " " + old(f.instructions)[i])]
  {
    var s := f.instructions[j];
    var k := FirstStop(s);
    f.instructions := f.instructions[j := s[..k + 1] + (" " + f.instructions[i]) + s[k + 1..]];
  }

  /* ---------------------------------------------------------------------
     `coalesceInstructions`
     --------------------------------------------------------------------- */

  /** Step `dj` folds one of the two lines that cross at point step `di`;
      lines are equal when their keys are. */
  predicate Continues(key: LineRef -> int, dj: Diagram, di: Diagram)
    requires |di.lines| == 2
  {
    dj.fold.Some? && (key(di.lines[0]) == key(dj.fold.value) || key(di.lines[1]) == key(dj.fold.value))
  }

  /** The latest step below `j` that point step `i` continues. */
  function MergeTarget(key: LineRef -> int, ds: seq<Diagram>, i: nat, j: nat): (r: Option<nat>)
    requires j <= i < |ds| && |ds[i].lines| == 2
    ensures r.Some? ==>
      r.value < j && Continues(key, ds[r.value], ds[i]) && forall k | r.value < k < j :: !Continues(key, ds[k], ds[i])
    ensures r.None? ==> forall k | 0 <= k < j :: !Continues(key, ds[k], ds[i])
    decreases j
  {
    if j == 0 then None
    else if Continues(key, ds[j - 1], ds[i]) then Some(j - 1)
    else MergeTarget(key, ds, i, j - 1)
  }

  /** The inner loop of `coalesceInstructions`. */
  method FindTarget(key: LineRef -> int, ds: seq<Diagram>, i: nat) returns (r: Option<nat>)
    requires i < |ds| && |ds[i].lines| == 2
    ensures r == MergeTarget(key, ds, i, i)
  {
    var j: nat := i;
    while j > 0
      invariant j <= i
      invariant MergeTarget(key, ds, i, i) == MergeTarget(key, ds, i, j)
    {
      if ds[j - 1].fold.Some? {
        var lines := ds[i].lines;
        if key(lines[0]) == key(ds[j - 1].fold.value) || key(lines[1]) == key(ds[j - 1].fold.value) {
          return Some(j - 1);
        }
      }
      j := j - 1;
    }
    return None;
  }

  /** `remove(at:)`. */
  function RemoveAt<X>(s: seq<X>, i: nat): (r: seq<X>)
    requires i < |s|
    ensures |r| == |s| - 1
    ensures forall k | 0 <= k < i :: r[k] == s[k]
    ensures forall k | i <= k < |r| :: r[k] == s[k + 1]
  {
    seq(|s| - 1, k requires 0 <= k < |s| - 1 => if k < i then s[k] else s[k + 1])
  }

  /** Point step `i` merged into fold step `j`. */
  function Merge(ds: seq<Diagram>, ins: seq<string>, i: nat, j: nat): (seq<Diagram>, seq<string>)
    requires j < i < |ds| == |ins| && '.' in ins[j] && |ds[i].points| == 1
  {
    var dj := ds[j].(points := ds[j].points + [ds[i].points[0]]);
    (RemoveAt(ds[j := dj], i), RemoveAt(ins[j := InsertAfterStop(ins[j], " " + ins[i])], i))
  }

  /** The turn of the outer loop for step `i`. */
  function CoalesceStep(key: LineRef -> int, ds: seq<Diagram>, ins: seq<string>, i: nat): (r: (seq<Diagram>, seq<string>))
    requires Shaped(ds, ins) && i < |ds|
    ensures Shaped(r.0, r.1) && |ds| - 1 <= |r.0| <= |ds|
  {
    assert WellShaped(ds[i]);
    if ds[i].fold.None? && MergeTarget(key, ds, i, i).Some? then
      var j := MergeTarget(key, ds, i, i).value;
      MergeShaped(ds, ins, i, j);
      Merge(ds, ins, i, j)
    else (ds, ins)
  }

  /** Merging keeps the steps shaped. */
  lemma MergeShaped(ds: seq<Diagram>, ins: seq<string>, i: nat, j: nat)
    requires Shaped(ds, ins) && j < i < |ds| && ds[j].fold.Some? && ds[i].fold.None?
    ensures '.' in ins[j] && |ds[i].points| == 1
    ensures Shaped(Merge(ds, ins, i, j).0, Merge(ds, ins, i, j).1)
  {
    assert WellShaped(ds[i]);
    var r := Merge(ds, ins, i, j);
    InsertAfterStopInverse(ins[j], " " + ins[i]);
    forall k | 0 <= k < |r.0| ensures WellShaped(r.0[k]) {
      if k < i && k != j {
        assert r.0[k] == ds[k];
      } else if k >= i {
        assert r.0[k] == ds[k + 1];
      }
    }
    forall k | 0 <= k < |r.0| && r.0[k].fold.Some? ensures '.' in r.1[k] {
      if k < i && k != j {
        assert r.0[k] == ds[k] && r.1[k] == ins[k];
      } else if k >= i {
        assert r.0[k] == ds[k + 1] && r.1[k] == ins[k + 1];
      }
    }
  }

  /** The outer loop from step `i` down to step 1. */
  function CoalesceDown(key: LineRef -> int, ds: seq<Diagram>, ins: seq<string>, i: int): (r: (seq<Diagram>, seq<string>))
    requires Shaped(ds, ins) && i < |ds|
    ensures Shaped(r.0, r.1)
    decreases i
  {
    if i < 1 then (ds, ins)
    else
      var next := CoalesceStep(key, ds, ins, i);
      CoalesceDown(key, next.0, next.1, i - 1)
  }

  /** `coalesceInstructions()` on the pictures and sentences: every step
      but the last, from the second last down to the second. */
  function Coalesced(key: LineRef -> int, ds: seq<Diagram>, ins: seq<string>): (r: (seq<Diagram>, seq<string>))
    requires Shaped(ds, ins)
    ensures Shaped(r.0, r.1)
  {
    CoalesceDown(key, ds, ins, |ds| - 2)
  }

  /** `coalesceInstructions()`. */
  method CoalesceInstructions(f: ReferenceFinder)
    modifies f`diagrams, f`instructions
    requires f.Valid()
    ensures (f.diagrams, f.instructions) == Coalesced(Instructions.LineKeyOf(f.config), old(f.diagrams), old(f.instructions))
    ensures f.Valid()
  {
    var key := Instructions.LineKeyOf(f.config);
    var i := |f.instructions| - 2;
    while i >= 1
      invariant f.Valid() && i < |f.diagrams|
      invariant Coalesced(key, old(f.diagrams), old(f.instructions)) == CoalesceDown(key, f.diagrams, f.instructions, i)
    {
      if f.diagrams[i].fold.None? {
        assert WellShaped(f.diagrams[i]);
        var target := FindTarget(key, f.diagrams, i);
        if target.Some? {
          var j := target.value;
          MergeShaped(f.diagrams, f.instructions, i, j);
          f.diagrams := f.diagrams[j := f.diagrams[j].(points := f.diagrams[j].points + [f.diagrams[i].points[0]])];
          InsertInstruction(f, i, j);
          f.diagrams := RemoveAt(f.diagrams, i);
          f.instructions := RemoveAt(f.instructions, i);
        }
      }
      i := i - 1;
    }
  }

  /* ---------------------------------------------------------------------
     What coalescing keeps
     --------------------------------------------------------------------- */

  /** The folds of the steps, in order. */
  function FoldSteps(ds: seq<Diagram>): seq<LineRef>
    decreases |ds|
  {
    if ds == [] then [] else FoldSteps(ds[..|ds| - 1]) + Instructions.FoldAsCrease(ds[|ds| - 1])
  }

  lemma {:induction false} FoldStepsAppend(a: seq<Diagram>, b: seq<Diagram>)
    ensures FoldSteps(a + b) == FoldSteps(a) + FoldSteps(b)
    decreases |b|
  {
    if b == [] {
      assert a + b == a;
    } else {
      assert (a + b)[..|a + b| - 1] == a + b[..|b| - 1];
      assert (a + b)[|a + b| - 1] == b[|b| - 1];
      FoldStepsAppend(a, b[..|b| - 1]);
    }
  }

  lemma FoldStepsOne(d: Diagram)
    ensures FoldSteps([d]) == Instructions.FoldAsCrease(d)
  {
    assert [d][..0] == [];
  }

  /** The folds of four stretches of steps, the second a single step. */
  lemma FoldStepsSplit(a: seq<Diagram>, x: Diagram, mid: seq<Diagram>, z: seq<Diagram>)
    ensures FoldSteps(a + [x] + mid + z) == FoldSteps(a) + Instructions.FoldAsCrease(x) + FoldSteps(mid) + FoldSteps(z)
  {
    FoldStepsAppend(a + [x] + mid, z);
    FoldStepsAppend(a + [x], mid);
    FoldStepsAppend(a, [x]);
    FoldStepsOne(x);
  }

  /** Merging a point step keeps the folds and their order. */
  lemma FoldStepsMerge(ds: seq<Diagram>, ins: seq<string>, i: nat, j: nat)
    requires j < i < |ds| == |ins| && '.' in ins[j] && |ds[i].points| == 1 && ds[i].fold.None?
    ensures FoldSteps(Merge(ds, ins, i, j).0) == FoldSteps(ds)
  {
    var dj := ds[j].(points := ds[j].points + [ds[i].points[0]]);
    var a, mid, z := ds[..j], ds[j + 1..i], ds[i + 1..];
    assert ds == a + [ds[j]] + (mid + [ds[i]]) + z;
    assert Merge(ds, ins, i, j).0 == a + [dj] + mid + z;
    FoldStepsAppend(mid, [ds[i]]);
    FoldStepsOne(ds[i]);
    assert FoldSteps(mid + [ds[i]]) == FoldSteps(mid) + [] == FoldSteps(mid);
    assert Instructions.FoldAsCrease(dj) == Instructions.FoldAsCrease(ds[j]);
    FoldStepsSplit(a, ds[j], mid + [ds[i]], z);
    FoldStepsSplit(a, dj, mid, z);
  }

  /** Coalescing keeps every fold step, in order: only steps without a
      fold are merged away. */
  lemma {:induction false} CoalesceKeepsFolds(key: LineRef -> int, ds: seq<Diagram>, ins: seq<string>, i: int)
    requires Shaped(ds, ins) && i < |ds|
    ensures FoldSteps(CoalesceDown(key, ds, ins, i).0) == FoldSteps(ds)
    decreases i
  {
    if i >= 1 {
      var next := CoalesceStep(key, ds, ins, i);
      assert WellShaped(ds[i]);
      if ds[i].fold.None? && MergeTarget(key, ds, i, i).Some? {
        MergeShaped(ds, ins, i, MergeTarget(key, ds, i, i).value);
        FoldStepsMerge(ds, ins, i, MergeTarget(key, ds, i, i).value);
      }
      CoalesceKeepsFolds(key, next.0, next.1, i - 1);
    }
  }

  /** One turn never touches a step above `i`, so not the last one. */
  lemma StepKeepsLast(key: LineRef -> int, ds: seq<Diagram>, ins: seq<string>, i: nat)
    requires Shaped(ds, ins) && i < |ds| - 1
    ensures var r := CoalesceStep(key, ds, ins, i);
      i < |r.0| && r.0[|r.0| - 1] == ds[|ds| - 1] && r.1[|r.1| - 1] == ins[|ins| - 1]
  {
    assert WellShaped(ds[i]);
    if ds[i].fold.None? && MergeTarget(key, ds, i, i).Some? {
      var j := MergeTarget(key, ds, i, i).value;
      MergeShaped(ds, ins, i, j);
      var dj := ds[j].(points := ds[j].points + [ds[i].points[0]]);
      var ds' := ds[j := dj];
      var ins' := ins[j := InsertAfterStop(ins[j], " " + ins[i])];
      assert ds'[|ds| - 1] == ds[|ds| - 1] && ins'[|ins| - 1] == ins[|ins| - 1];
    }
  }

  /** Coalescing never touches the last step, `d` with sentence `t`. */
  lemma {:induction false} CoalesceKeepsLast(key: LineRef -> int, ds: seq<Diagram>, ins: seq<string>, i: int, d: Diagram, t: string)
    requires Shaped(ds, ins) && i < |ds| - 1 && ds != [] && ds[|ds| - 1] == d && ins[|ins| - 1] == t
    ensures var r := CoalesceDown(key, ds, ins, i);
      |r.0| >= 1 && r.0[|r.0| - 1] == d && r.1[|r.1| - 1] == t
    decreases i
  {
    if i >= 1 {
      var next := CoalesceStep(key, ds, ins, i);
      StepKeepsLast(key, ds, ins, i);
      CoalesceKeepsLast(key, next.0, next.1, i - 1, d, t);
      CoalesceDownStep(key, ds, ins, i);
    }
  }

  /** The outer loop from step `i` is turn `i`, then the loop from `i - 1`. */
  lemma CoalesceDownStep(key: LineRef -> int, ds: seq<Diagram>, ins: seq<string>, i: int)
    requires Shaped(ds, ins) && 1 <= i < |ds|
    ensures var next := CoalesceStep(key, ds, ins, i);
      CoalesceDown(key, ds, ins, i) == CoalesceDown(key, next.0, next.1, i - 1)
  {
  }

  /** What `coalesceInstructions()` keeps: the fold steps in order, and
      the last step as it was. */
  lemma CoalescedKeeps(key: LineRef -> int, ds: seq<Diagram>, ins: seq<string>)
    requires Shaped(ds, ins)
    ensures FoldSteps(Coalesced(key, ds, ins).0) == FoldSteps(ds)
    ensures ds != [] ==> var r := Coalesced(key, ds, ins);
      r.0 != [] && r.0[|r.0| - 1] == ds[|ds| - 1] && r.1[|r.1| - 1] == ins[|ins| - 1]
  {
    CoalesceKeepsFolds(key, ds, ins, |ds| - 2);
    if ds != [] {
      CoalesceKeepsLast(key, ds, ins, |ds| - 2, ds[|ds| - 1], ins[|ins| - 1]);
    }
  }
}
