/** Matching the user's point or line against every reference built
    (utils.swift, `matchedPoints` and `matchedLines`): each reference within
    the tolerance is returned, in rank order, and its errors are written
    into the finder. */
module Matching {
  import opened Geometry
  import opened References
  import opened Finder
  import opened Enumeration
  import Construction

  /** The distance from the input point to a point reference. */
  function DistanceError(c: Config, input: Vector, p: PointRef): real {
    Sub(input, p.point).Magnitude(c.libm)
  }

  /** The shift and the angle from the input line to a line reference. */
  function LineErrors(c: Config, input: Line, l: LineRef): (real, real) {
    Difference(c.libm, input, l.line)
  }

  /** The points of `s` within `maxError` of the input, in their order. */
  function PointsNear(c: Config, maxError: real, input: Vector, s: seq<PointRef>): (r: seq<PointRef>)
    ensures forall p :: p in r <==> p in s && DistanceError(c, input, p) <= maxError
    ensures |r| <= |s|
    decreases |s|
  {
    if s == [] then []
    else
      var p := s[|s| - 1];
      assert forall q :: q in s <==> q in s[..|s| - 1] || q == p by {
        assert s == s[..|s| - 1] + [p];
      }
      PointsNear(c, maxError, input, s[..|s| - 1]) + (if DistanceError(c, input, p) <= maxError then [p] else [])
  }

  /** The lines of `s` whose shift and angle from the input are both within
      their limits, in their order. */
  function LinesNear(c: Config, maxShift: real, maxAngle: real, input: Line, s: seq<LineRef>): (r: seq<LineRef>)
    ensures forall l :: l in r <==> l in s && LineErrors(c, input, l).0 <= maxShift && LineErrors(c, input, l).1 <= maxAngle
    ensures |r| <= |s|
    decreases |s|
  {
    if s == [] then []
    else
      var l := s[|s| - 1];
      var e := LineErrors(c, input, l);
      assert forall q :: q in s <==> q in s[..|s| - 1] || q == l by {
        assert s == s[..|s| - 1] + [l];
      }
      LinesNear(c, maxShift, maxAngle, input, s[..|s| - 1]) + (if e.0 <= maxShift && e.1 <= maxAngle then [l] else [])
  }

  /** The errors written by a run of matches: `values[i]` under `keys[i]`, in
      turn, over what was there. */
  function Record(errors: map<int, real>, keys: seq<int>, values: seq<real>): (r: map<int, real>)
    requires |keys| == |values|
    ensures r.Keys == errors.Keys + set k <- keys
    ensures forall k <- errors | k !in keys :: r[k] == errors[k]
    decreases |keys|
  {
    if keys == [] then errors
    else
      var n := |keys| - 1;
      assert forall k :: k in keys <==> k in keys[..n] || k == keys[n] by {
        assert keys == keys[..n] + [keys[n]];
      }
      Record(errors, keys[..n], values[..n])[keys[n] := values[n]]
  }

  /** A key written more than once keeps the value written last. */
  lemma {:induction false} RecordLast(errors: map<int, real>, keys: seq<int>, values: seq<real>, i: int)
    requires |keys| == |values| && 0 <= i < |keys| && keys[i] !in keys[i + 1..]
    ensures Record(errors, keys, values)[keys[i]] == values[i]
    decreases |keys|
  {
    var n := |keys| - 1;
    if i < n {
      assert keys[..n][i] == keys[i] && values[..n][i] == values[i];
      assert keys[..n][i + 1..] == keys[i + 1..n];
      assert keys[n] in keys[i + 1..];
      RecordLast(errors, keys[..n], values[..n], i);
    }
  }

  /** The bucket keys of a run of references. */
  function PointKeys(c: Config, s: seq<PointRef>): (r: seq<int>)
    ensures |r| == |s| && forall i | 0 <= i < |s| :: r[i] == PointRefKey(c, s[i])
  {
    seq(|s|, i requires 0 <= i < |s| => PointRefKey(c, s[i]))
  }

  function LineKeys(c: Config, s: seq<LineRef>): (r: seq<int>)
    ensures |r| == |s| && forall i | 0 <= i < |s| :: r[i] == LineRefKey(c, s[i])
  {
    seq(|s|, i requires 0 <= i < |s| => LineRefKey(c, s[i]))
  }

  function Distances(c: Config, input: Vector, s: seq<PointRef>): (r: seq<real>)
    ensures |r| == |s| && forall i | 0 <= i < |s| :: r[i] == DistanceError(c, input, s[i])
  {
    seq(|s|, i requires 0 <= i < |s| => DistanceError(c, input, s[i]))
  }

  function Shifts(c: Config, input: Line, s: seq<LineRef>): (r: seq<real>)
    ensures |r| == |s| && forall i | 0 <= i < |s| :: r[i] == LineErrors(c, input, s[i]).0
  {
    seq(|s|, i requires 0 <= i < |s| => LineErrors(c, input, s[i]).0)
  }

  function Angles(c: Config, input: Line, s: seq<LineRef>): (r: seq<real>)
    ensures |r| == |s| && forall i | 0 <= i < |s| :: r[i] == LineErrors(c, input, s[i]).1
  {
    seq(|s|, i requires 0 <= i < |s| => LineErrors(c, input, s[i]).1)
  }

  /** The references of all ranks, rank by rank. */
  lemma FlattenSnoc<X(!new)>(xss: seq<seq<X>>, ys: seq<X>)
    ensures Flatten(xss + [ys]) == Flatten(xss) + ys
    decreases |xss|
  {
    if xss != [] {
      assert (xss + [ys])[1..] == xss[1..] + [ys];
      FlattenSnoc(xss[1..], ys);
    }
  }

  /** `matchedPoints(for:)`: every point of every rank within the largest
      distance error, in rank order; each one's distance error is written. */
  method MatchedPoints(f: ReferenceFinder, input: Vector) returns (matched: seq<PointRef>)
    modifies f`marks
    ensures matched == PointsNear(f.config, f.maxDistanceError, input, Flatten(f.allPoints))
    ensures f.marks == old(f.marks).(distanceErrors :=
      Record(old(f.marks.distanceErrors), PointKeys(f.config, matched), Distances(f.config, input, matched)))
  {
    matched := [];
    ghost var seen: seq<PointRef> := [];
    for i := 0 to |f.allPoints|
      invariant seen == Flatten(f.allPoints[..i])
      invariant matched == PointsNear(f.config, f.maxDistanceError, input, seen)
      invariant f.marks == old(f.marks).(distanceErrors :=
        Record(old(f.marks.distanceErrors), PointKeys(f.config, matched), Distances(f.config, input, matched)))
    {
      var rankPoints := f.allPoints[i];
      TakeNone(seen, rankPoints);
      for j := 0 to |rankPoints|
        invariant matched == PointsNear(f.config, f.maxDistanceError, input, seen + rankPoints[..j])
        invariant f.marks == old(f.marks).(distanceErrors :=
          Record(old(f.marks.distanceErrors), PointKeys(f.config, matched), Distances(f.config, input, matched)))
      {
        var point := rankPoints[j];
        var distanceError := Sub(input, point.point).Magnitude(f.config.libm);
        TakeNext(seen, rankPoints, j);
        PointsNearSnoc(f.config, f.maxDistanceError, input, seen + rankPoints[..j], point);
        if distanceError <= f.maxDistanceError {
          RecordNext(old(f.marks.distanceErrors), PointKeys(f.config, matched), Distances(f.config, input, matched),
            PointRefKey(f.config, point), distanceError);
          PointsSnoc(f.config, input, matched, point);
          f.marks := f.marks.(distanceErrors := f.marks.distanceErrors[PointRefKey(f.config, point) := distanceError]);
          matched := matched + [point];
        }
      }
      Construction.SliceNext(f.allPoints, i);
      FlattenSnoc(f.allPoints[..i], rankPoints);
      seen := seen + rankPoints;
    }
    TakeNone(seen, f.allPoints);
  }

  /** `matchedLines(for:)`: every line of every rank whose shift and angle
      from the input are within the largest errors, in rank order; each
      one's shift and angle errors are written. */
  method MatchedLines(f: ReferenceFinder, input: Line) returns (matched: seq<LineRef>)
    modifies f`marks
    ensures matched == LinesNear(f.config, f.maxShiftError, f.maxAngleError, input, Flatten(f.allLines))
    ensures f.marks == old(f.marks).(
      shiftErrors := Record(old(f.marks.shiftErrors), LineKeys(f.config, matched), Shifts(f.config, input, matched)),
      angleErrors := Record(old(f.marks.angleErrors), LineKeys(f.config, matched), Angles(f.config, input, matched)))
  {
    matched := [];
    ghost var seen: seq<LineRef> := [];
    for i := 0 to |f.allLines|
      invariant seen == Flatten(f.allLines[..i])
      invariant matched == LinesNear(f.config, f.maxShiftError, f.maxAngleError, input, seen)
      invariant f.marks == LineMarks(old(f.marks), f.config, input, matched)
    {
      var rankLines := f.allLines[i];
      TakeNone(seen, rankLines);
      for j := 0 to |rankLines|
        invariant matched == LinesNear(f.config, f.maxShiftError, f.maxAngleError, input, seen + rankLines[..j])
        invariant f.marks == LineMarks(old(f.marks), f.config, input, matched)
      {
        var line := rankLines[j];
        var (shiftError, angleError) := Difference(f.config.libm, input, line.line);
        TakeNext(seen, rankLines, j);
        LinesNearSnoc(f.config, f.maxShiftError, f.maxAngleError, input, seen + rankLines[..j], line);
        if shiftError <= f.maxShiftError && angleError <= f.maxAngleError {
          var key := LineRefKey(f.config, line);
          LineMarksNext(old(f.marks), f.config, input, matched, line);
          f.marks := f.marks.(angleErrors := f.marks.angleErrors[key := angleError],
                              shiftErrors := f.marks.shiftErrors[key := shiftError]);
          matched := matched + [line];
        }
      }
      Construction.SliceNext(f.allLines, i);
      FlattenSnoc(f.allLines[..i], rankLines);
      seen := seen + rankLines;
    }
    TakeNone(seen, f.allLines);
  }

  /** The finder's marks once the shift and angle errors of the lines `s`
      are written. */
  function LineMarks(m: Marks, c: Config, input: Line, s: seq<LineRef>): Marks {
    m.(shiftErrors := Record(m.shiftErrors, LineKeys(c, s), Shifts(c, input, s)),
       angleErrors := Record(m.angleErrors, LineKeys(c, s), Angles(c, input, s)))
  }

  /** Writing the errors of one more line is one more update of each map. */
  lemma LineMarksNext(m: Marks, c: Config, input: Line, s: seq<LineRef>, l: LineRef)
    ensures var m' := LineMarks(m, c, input, s);
      LineMarks(m, c, input, s + [l]) == m'.(angleErrors := m'.angleErrors[LineRefKey(c, l) := LineErrors(c, input, l).1],
                                             shiftErrors := m'.shiftErrors[LineRefKey(c, l) := LineErrors(c, input, l).0])
  {
    LinesSnoc(c, input, s, l);
    RecordNext(m.shiftErrors, LineKeys(c, s), Shifts(c, input, s), LineRefKey(c, l), LineErrors(c, input, l).0);
    RecordNext(m.angleErrors, LineKeys(c, s), Angles(c, input, s), LineRefKey(c, l), LineErrors(c, input, l).1);
  }

  /** Recording one more error is one more map update. */
  lemma RecordNext(errors: map<int, real>, keys: seq<int>, values: seq<real>, k: int, v: real)
    requires |keys| == |values|
    ensures Record(errors, keys + [k], values + [v]) == Record(errors, keys, values)[k := v]
  {
    assert (keys + [k])[..|keys|] == keys;
    assert (values + [v])[..|values|] == values;
  }

  lemma TakeNext<X>(s: seq<X>, t: seq<X>, j: int)
    requires 0 <= j < |t|
    ensures s + t[..j + 1] == (s + t[..j]) + [t[j]]
  {
  }

  lemma TakeNone<X, Y>(s: seq<X>, t: seq<Y>)
    ensures s + [] == s && t[..0] == [] && t[..|t|] == t
  {
  }

  lemma PointsSnoc(c: Config, input: Vector, s: seq<PointRef>, p: PointRef)
    ensures PointKeys(c, s + [p]) == PointKeys(c, s) + [PointRefKey(c, p)]
    ensures Distances(c, input, s + [p]) == Distances(c, input, s) + [DistanceError(c, input, p)]
  {
  }

  lemma LinesSnoc(c: Config, input: Line, s: seq<LineRef>, l: LineRef)
    ensures LineKeys(c, s + [l]) == LineKeys(c, s) + [LineRefKey(c, l)]
    ensures Shifts(c, input, s + [l]) == Shifts(c, input, s) + [LineErrors(c, input, l).0]
    ensures Angles(c, input, s + [l]) == Angles(c, input, s) + [LineErrors(c, input, l).1]
  {
  }

  lemma PointsNearSnoc(c: Config, maxError: real, input: Vector, s: seq<PointRef>, p: PointRef)
    ensures PointsNear(c, maxError, input, s + [p])
      == PointsNear(c, maxError, input, s) + (if DistanceError(c, input, p) <= maxError then [p] else [])
  {
    assert (s + [p])[..|s|] == s;
  }

  lemma LinesNearSnoc(c: Config, maxShift: real, maxAngle: real, input: Line, s: seq<LineRef>, l: LineRef)
    ensures var e := LineErrors(c, input, l);
      LinesNear(c, maxShift, maxAngle, input, s + [l])
      == LinesNear(c, maxShift, maxAngle, input, s) + (if e.0 <= maxShift && e.1 <= maxAngle then [l] else [])
  {
    assert (s + [l])[..|s|] == s;
  }
}
