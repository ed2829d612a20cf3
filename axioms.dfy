/** The Huzita-Justin fold operations and the cubic solver behind axiom 6
    (Axioms.swift).

    Each operation proposes folds from points and lines, and keeps only folds
    that the paper contains (the line cuts the paper into two flaps that are
    not too skinny). The paper is the reference finder's rectangle. */
module Axioms {
  import opened Libm
  import opened Wrappers
  import opened Geometry
  import opened Paper

  /** Axiom 1: the fold through `p1` and `p2`. */
  function Axiom1(c: Config, paper: Rectangle, p1: Vector, p2: Vector): (r: Option<Line>)
    requires paper.sides.Some?
    ensures r.Some? ==> r.value.Has(p1) && r.value.Has(p2) && Contains(c, paper, r.value)
    ensures r.None? <==> !Contains(c, paper, LineThrough(c.libm, p1, p2))
  {
    var fold := LineThrough(c.libm, p1, p2);
    if Contains(c, paper, fold) then Some(fold) else None
  }

  /** Axiom 2: the fold that brings `p1` onto `p2`, through their midpoint
      with normal along `p1 - p2`. */
  function Axiom2(c: Config, paper: Rectangle, p1: Vector, p2: Vector): (r: Option<Line>)
    requires paper.sides.Some?
    ensures r.Some? ==> r.value.Has(DivScalar(Add(p1, p2), 2.0)) && Contains(c, paper, r.value)
    ensures r.Some? && SqrtLaw(c.libm) && p1 != p2 ==> r.value.Reflection(p1) == p2
  {
    var unitNormal := DivScalar(Sub(p1, p2), 2.0).Normalized(c.libm);
    var midPoint := DivScalar(Add(p1, p2), 2.0);
    var fold := Geometry.AtPoint(midPoint, unitNormal);
    Axiom2Reflects(c.libm, p1, p2);
    if Contains(c, paper, fold) then Some(fold) else None
  }

  /** Reflection across the axiom 2 fold takes `p1` to `p2`. */
  lemma Axiom2Reflects(m: Libm, p1: Vector, p2: Vector)
    ensures SqrtLaw(m) && p1 != p2 ==>
      var n := DivScalar(Sub(p1, p2), 2.0).Normalized(m);
      Geometry.AtPoint(DivScalar(Add(p1, p2), 2.0), n).Reflection(p1) == p2
  {
    if SqrtLaw(m) && p1 != p2 {
      Axiom2ReflectsOnto(m, p1, p2);
    }
  }

  lemma Axiom2ReflectsOnto(m: Libm, p1: Vector, p2: Vector)
    requires SqrtLaw(m) && p1 != p2
    ensures var n := DivScalar(Sub(p1, p2), 2.0).Normalized(m);
      Geometry.AtPoint(DivScalar(Add(p1, p2), 2.0), n).Reflection(p1) == p2
  {
    var u := DivScalar(Sub(p1, p2), 2.0);
    assert u != Vector(0.0, 0.0);
    NormalizedIsUnit(m, u);
    var n := u.Normalized(m);
    var mid := DivScalar(Add(p1, p2), 2.0);
    CanonicalReflection(n.Dot(mid), n, p1);
    ReflectsOntoOther(p1, p2, n, u.Magnitude(m));
  }

  /** A reflection across the line through the midpoint of `p` and `q`,
      whose unit normal is parallel to `p - q`, exchanges `p` and `q`. */
  lemma ReflectsOntoOther(p: Vector, q: Vector, n: Vector, s: real)
    requires IsUnit(n)
    requires Scale(n, s) == DivScalar(Sub(p, q), 2.0)
    ensures Line(n.Dot(DivScalar(Add(p, q), 2.0)), n).Reflection(p) == q
  {
    var mid := DivScalar(Add(p, q), 2.0);
    var t := n.Dot(mid) - p.Dot(n);
    assert n.x * s == (p.x - q.x) / 2.0 && n.y * s == (p.y - q.y) / 2.0;
    OffsetToMidpoint(p.x, p.y, q.x, q.y, n.x, n.y, s);
    assert t == -s;
  }

  /** The signed offset of `p` from the bisector is minus the half-distance. */
  lemma OffsetToMidpoint(px: real, py: real, qx: real, qy: real, nx: real, ny: real, s: real)
    requires nx * nx + ny * ny == 1.0
    requires nx * s == (px - qx) / 2.0 && ny * s == (py - qy) / 2.0
    ensures nx * Div(px + qx, 2.0) + ny * Div(py + qy, 2.0) - (px * nx + py * ny) == -s
  {
    calc {
      nx * Div(px + qx, 2.0) + ny * Div(py + qy, 2.0) - (px * nx + py * ny);
      -(nx * ((px - qx) / 2.0) + ny * ((py - qy) / 2.0));
      -(nx * (nx * s) + ny * (ny * s));
      { UnitTimes(nx, ny, s); }
      -s;
    }
  }

  lemma UnitTimes(nx: real, ny: real, s: real)
    requires nx * nx + ny * ny == 1.0
    ensures nx * (nx * s) + ny * (ny * s) == s
  {
    calc {
      nx * (nx * s) + ny * (ny * s);
      (nx * nx + ny * ny) * s;
      1.0 * s;
    }
  }

  /** Axiom 3: the folds that bring `line1` onto `line2`. Parallel lines give
      the one line halfway between the distances, along `line1`'s normal;
      crossing lines give the bisectors of the angle that the paper
      contains. */
  function Axiom3(c: Config, paper: Rectangle, line1: Line, line2: Line): (r: seq<Line>)
    requires paper.sides.Some?
    ensures line1.IsParallel(c.eps, line2) ==>
      r == [FromUnitNormal((line1.distance + line2.distance) / 2.0, line1.unitNormal)]
    ensures !line1.IsParallel(c.eps, line2) ==>
      |r| <= 2 && forall f <- r :: f.Has(Intersection(c.eps, line1, line2).value) && Contains(c, paper, f)
    ensures !line1.IsParallel(c.eps, line2) && |r| == 2 ==>
      r[0].unitNormal.Dot(r[1].unitNormal) == 0.0
  {
    match Intersection(c.eps, line1, line2)
    case None =>
      [FromUnitNormal((line1.distance + line2.distance) / 2.0, line1.unitNormal)]
    case Some(p) =>
      BisectorFolds(c, paper, p, DivScalar(Add(line1.unitNormal, line2.unitNormal), 2.0).Normalized(c.libm))
  }

  /** The folds through `p` along `direction` and perpendicular to it that
      the paper contains. */
  function BisectorFolds(c: Config, paper: Rectangle, p: Vector, direction: Vector): (r: seq<Line>)
    requires paper.sides.Some?
    ensures |r| <= 2
    ensures forall f <- r :: f.Has(p)
    ensures forall f <- r :: Contains(c, paper, f)
    ensures |r| == 2 ==> Perpendicular(r[0].unitNormal, r[1].unitNormal)
  {
    var fold1 := Geometry.AtPoint(p, direction);
    var fold2 := Geometry.AtPoint(p, direction.RotatedBy90());
    BisectorNormalsPerpendicular(p, direction);
    var keep1 := Contains(c, paper, fold1);
    var keep2 := Contains(c, paper, fold2);
    if keep1 && keep2 then [fold1, fold2]
    else if keep1 then [fold1]
    else if keep2 then [fold2]
    else []
  }

  /** The two bisector normals stay perpendicular whatever signs the
      initialisers give them. */
  lemma SignedPerpendicular(v: Vector)
    ensures forall a: real, b: real {:trigger Scale(v, a), Scale(v.RotatedBy90(), b)} ::
      Scale(v, a).Dot(Scale(v.RotatedBy90(), b)) == 0.0
    ensures v.Dot(v.RotatedBy90()) == 0.0
    ensures forall a: real {:trigger Scale(v, a)} :: Scale(v, a).Dot(v.RotatedBy90()) == 0.0
    ensures forall b: real {:trigger Scale(v.RotatedBy90(), b)} :: v.Dot(Scale(v.RotatedBy90(), b)) == 0.0
  {
    forall a: real, b: real
      ensures Scale(v, a).Dot(Scale(v.RotatedBy90(), b)) == 0.0
    {
      PerpendicularScaled(v.x, v.y, a, b);
    }
    forall a: real
      ensures Scale(v, a).Dot(v.RotatedBy90()) == 0.0
    {
      PerpendicularScaled(v.x, v.y, a, 1.0);
    }
    forall b: real
      ensures v.Dot(Scale(v.RotatedBy90(), b)) == 0.0
    {
      PerpendicularScaled(v.x, v.y, 1.0, b);
    }
  }

  /** Two vectors at a right angle. */
  ghost predicate Perpendicular(a: Vector, b: Vector) {
    a.Dot(b) == 0.0
  }

  lemma BisectorNormalsPerpendicular(p: Vector, v: Vector)
    ensures Perpendicular(Geometry.AtPoint(p, v).unitNormal, Geometry.AtPoint(p, v.RotatedBy90()).unitNormal)
  {
    SignedNormalsPerpendicular(v, Geometry.AtPoint(p, v).unitNormal, Geometry.AtPoint(p, v.RotatedBy90()).unitNormal);
  }

  lemma SignedNormalsPerpendicular(v: Vector, n1: Vector, n2: Vector)
    requires n1 == v || n1 == Scale(v, -1.0)
    requires n2 == v.RotatedBy90() || n2 == Scale(v.RotatedBy90(), -1.0)
    ensures n1.Dot(n2) == 0.0
  {
    var a := if n1 == v then 1.0 else -1.0;
    var b := if n2 == v.RotatedBy90() then 1.0 else -1.0;
    assert n1 == Scale(v, a) && n2 == Scale(v.RotatedBy90(), b);
    PerpendicularScaled(v.x, v.y, a, b);
  }

  lemma PerpendicularScaled(x: real, y: real, a: real, b: real)
    ensures (x * a) * (-y * b) + (y * a) * (x * b) == 0.0
  {
    calc {
      (x * a) * (-y * b) + (y * a) * (x * b);
      -(x * y) * (a * b) + (x * y) * (a * b);
    }
  }

  /** Axiom 4: the fold through `p` perpendicular to `line`, offered only
      when the foot of the perpendicular from `p` is on the paper. */
  function Axiom4(c: Config, paper: Rectangle, p: Vector, line: Line): (r: Option<Line>)
    requires paper.sides.Some?
    ensures !paper.Encloses(c.eps, line.Projection(p)) ==> r == None
    ensures r.Some? ==> r.value.Has(p) && Contains(c, paper, r.value)
    ensures r.Some? ==> r.value.unitNormal.Dot(line.unitNormal) == 0.0
  {
    if paper.Encloses(c.eps, line.Projection(p)) then
      var fold := Geometry.AtPoint(p, line.unitNormal.RotatedBy90());
      SignedPerpendicular(line.unitNormal);
      DotSymmetric(line.unitNormal.RotatedBy90(), line.unitNormal);
      DotSymmetric(Scale(line.unitNormal.RotatedBy90(), -1.0), line.unitNormal);
      if Contains(c, paper, fold) then Some(fold) else None
    else None
  }

  /** Axiom 5: the folds through `p2` that bring `p1` onto `line`. The image
      of `p1` is where the circle about `p2` through `p1` meets `line`. */
  function Axiom5(c: Config, paper: Rectangle, p1: Vector, line: Line, p2: Vector): (r: seq<Line>)
    requires paper.sides.Some?
    ensures var radius := Sub(p1, p2).Magnitude(c.libm);
      var centerToLine := Scale(line.unitNormal, line.distance - line.unitNormal.Dot(p2));
      (radius < centerToLine.Magnitude(c.libm) ==> r == [])
      && (!(radius < centerToLine.Magnitude(c.libm)) && radius - centerToLine.Magnitude(c.libm) < c.eps ==>
            r == [Geometry.AtPoint(p2, line.unitNormal)])
    ensures |r| <= 2 && forall f <- r :: f.Has(p2)
    ensures var radius := Sub(p1, p2).Magnitude(c.libm);
      var centerToLine := Scale(line.unitNormal, line.distance - line.unitNormal.Dot(p2));
      SqrtLaw(c.libm) && IsUnit(line.unitNormal)
      && !(radius < centerToLine.Magnitude(c.libm)) && !(radius - centerToLine.Magnitude(c.libm) < c.eps) ==>
        forall f <- r :: line.Has(f.Reflection(p1))
  {
    var m := c.libm;
    var radius := Sub(p1, p2).Magnitude(m);
    var centerToLine := Scale(line.unitNormal, line.distance - line.unitNormal.Dot(p2));
    if radius < centerToLine.Magnitude(m) then []
    else if radius - centerToLine.Magnitude(m) < c.eps then [Geometry.AtPoint(p2, line.unitNormal)]
    else Axiom5Crossings(c, paper, p1, line, p2)
  }

  /** Axiom 5 as evidently intended: in the tangent branch the fold goes
      through `p2` with its normal along `p1` minus the point where the
      circle touches `line`, so that it is the perpendicular bisector of the
      two. Elsewhere it is `Axiom5`. */
  function Axiom5Corrected(c: Config, paper: Rectangle, p1: Vector, line: Line, p2: Vector): (r: seq<Line>)
    requires paper.sides.Some?
    ensures |r| <= 2 && forall f <- r :: f.Has(p2)
    ensures var radius := Sub(p1, p2).Magnitude(c.libm);
      var cm := CenterToLine(line, p2).Magnitude(c.libm);
      SqrtLaw(c.libm) && IsUnit(line.unitNormal) && (radius == cm || c.eps <= radius - cm) ==>
        forall f <- r :: line.Has(f.Reflection(p1))
  {
    var m := c.libm;
    var radius := Sub(p1, p2).Magnitude(m);
    var cm := CenterToLine(line, p2).Magnitude(m);
    if radius < cm then []
    else if radius - cm < c.eps then [TangentFold(m, p1, line, p2)]
    else Axiom5Crossings(c, paper, p1, line, p2)
  }

  /** The corrected tangent fold: through `p2`, with normal `p1 - touch`,
      where `touch` is the foot of the perpendicular from `p2` on `line`.
      When the circle touches the line exactly, it takes `p1` to `touch`. */
  function TangentFold(m: Libm, p1: Vector, line: Line, p2: Vector): (f: Line)
    ensures f.Has(p2)
    ensures SqrtLaw(m) && IsUnit(line.unitNormal)
            && Sub(p1, p2).Magnitude(m) == CenterToLine(line, p2).Magnitude(m) ==>
      f.Reflection(p1) == Add(CenterToLine(line, p2), p2) && line.Has(f.Reflection(p1))
  {
    TouchFoldReflects(m, p1, line, p2);
    AtPointNormal(m, p2, Sub(p1, Add(CenterToLine(line, p2), p2)))
  }

  lemma TouchFoldReflects(m: Libm, p1: Vector, line: Line, p2: Vector)
    ensures SqrtLaw(m) && IsUnit(line.unitNormal)
            && Sub(p1, p2).Magnitude(m) == CenterToLine(line, p2).Magnitude(m) ==>
      var touch := Add(CenterToLine(line, p2), p2);
      line.Has(touch) && AtPointNormal(m, p2, Sub(p1, touch)).Reflection(p1) == touch
  {
    var ctl := CenterToLine(line, p2);
    var touch := Add(ctl, p2);
    if SqrtLaw(m) && IsUnit(line.unitNormal) && Sub(p1, p2).Magnitude(m) == ctl.Magnitude(m) {
      TouchPoint(m, p1, line, p2);
      BisectorThroughCentre(m, p1, p2, touch);
    }
  }

  /** Where the circle touches the line exactly: the foot of the
      perpendicular is on the line and as far from `p2` as `p1` is. */
  lemma TouchPoint(m: Libm, p1: Vector, line: Line, p2: Vector)
    requires SqrtLaw(m) && IsUnit(line.unitNormal)
    requires Sub(p1, p2).Magnitude(m) == CenterToLine(line, p2).Magnitude(m)
    ensures var touch := Add(CenterToLine(line, p2), p2);
      line.Has(touch) && Sub(touch, p2).MagnitudeSquared() == Sub(p1, p2).MagnitudeSquared()
  {
    var u := line.unitNormal;
    var k := line.distance - u.Dot(p2);
    var ctl := CenterToLine(line, p2);
    var touch := Add(ctl, p2);
    UnitTimes(u.x, u.y, k);
    assert u.Dot(touch) == u.Dot(p2) + u.Dot(ctl);
    SquareRootsAgree(m, Sub(p1, p2), ctl);
    assert Sub(touch, p2) == ctl;
  }

  /** Two vectors whose lengths (square roots of squared lengths) agree
      have equal squared lengths. */
  lemma SquareRootsAgree(m: Libm, v: Vector, w: Vector)
    requires SqrtLaw(m) && v.Magnitude(m) == w.Magnitude(m)
    ensures v.MagnitudeSquared() == w.MagnitudeSquared()
  {
    SquareSign(v.x);
    SquareSign(v.y);
    SquareSign(w.x);
    SquareSign(w.y);
    var a, b := v.MagnitudeSquared(), w.MagnitudeSquared();
    assert m.sqrt(a) * m.sqrt(a) == a;
    assert m.sqrt(b) * m.sqrt(b) == b;
  }

  /** A fold through `p2` whose normal is `p1 - q`, for `q` as far from `p2`
      as `p1`, is the perpendicular bisector of `p1` and `q`. */
  lemma BisectorThroughCentre(m: Libm, p1: Vector, p2: Vector, q: Vector)
    requires SqrtLaw(m)
    requires Sub(q, p2).MagnitudeSquared() == Sub(p1, p2).MagnitudeSquared()
    ensures AtPointNormal(m, p2, Sub(p1, q)).Reflection(p1) == q
  {
    if p1 == q {
      ZeroNormalFold(m, p2, p1);
    } else {
      MidpointPerpendicular(p1, p2, q);
      SameFoldAlongNormal(m, p2, DivScalar(Add(p1, q), 2.0), Sub(p1, q));
      FoldThroughMidpoint(m, p1, q);
    }
  }

  /** A zero normal gives a degenerate line whose reflection moves nothing. */
  lemma ZeroNormalFold(m: Libm, point: Vector, p: Vector)
    ensures AtPointNormal(m, point, Vector(0.0, 0.0)).Reflection(p) == p
  {
    ZeroNormalVanishes(m, point);
    DegenerateReflection(AtPointNormal(m, point, Vector(0.0, 0.0)), point, p);
  }

  lemma ZeroNormalVanishes(m: Libm, point: Vector)
    ensures var l := AtPointNormal(m, point, Vector(0.0, 0.0));
      l.unitNormal.x == 0.0 && l.unitNormal.y == 0.0
  {
    var l := AtPointNormal(m, point, Vector(0.0, 0.0));
    var n := Vector(0.0, 0.0).Normalized(m);
    ZeroNumerator(Vector(0.0, 0.0).Magnitude(m));
    assert n.x == 0.0 && n.y == 0.0;
    if l.unitNormal != n {
      ZeroTimes(n.x, -1.0);
      ZeroTimes(n.y, -1.0);
    }
  }

  /** A line with a zero normal through some point fixes every point. */
  lemma DegenerateReflection(l: Line, point: Vector, p: Vector)
    requires l.unitNormal.x == 0.0 && l.unitNormal.y == 0.0 && l.Has(point)
    ensures l.Reflection(p) == p
  {
    ZeroDot(l.unitNormal, point);
    ZeroDot(l.unitNormal, p);
    ReflectionFixesLine(l, p);
  }

  lemma ZeroDot(n: Vector, p: Vector)
    requires n.x == 0.0 && n.y == 0.0
    ensures n.Dot(p) == 0.0
  {
    ZeroTimes(n.x, p.x);
    ZeroTimes(n.y, p.y);
  }

  lemma ZeroTimes(a: real, b: real)
    requires a == 0.0
    ensures a * b == 0.0
  {
  }

  lemma ZeroNumerator(b: real)
    ensures Div(0.0, b) == 0.0
  {
  }

  /** `p2`, as far from `q` as from `p1`, lies where `p1 - q` is
      perpendicular to the offset from their midpoint. */
  lemma MidpointPerpendicular(p1: Vector, p2: Vector, q: Vector)
    requires Sub(q, p2).MagnitudeSquared() == Sub(p1, p2).MagnitudeSquared()
    ensures Sub(p1, q).Dot(Sub(p2, DivScalar(Add(p1, q), 2.0))) == 0.0
  {
    var mid := DivScalar(Add(p1, q), 2.0);
    var h := Sub(p1, mid);
    var e := Sub(p2, mid);
    assert Sub(p1, p2) == Vector(h.x - e.x, h.y - e.y);
    assert Sub(q, p2) == Vector(-h.x - e.x, -h.y - e.y);
    EqualOffsets(h.x, h.y, e.x, e.y);
    assert Sub(p1, q) == Vector(2.0 * h.x, 2.0 * h.y);
  }

  /** Two points whose offset is perpendicular to `w` give the same line
      with normal `w`. */
  lemma SameFoldAlongNormal(m: Libm, p: Vector, q: Vector, w: Vector)
    requires SqrtLaw(m) && w != Vector(0.0, 0.0)
    requires w.Dot(Sub(p, q)) == 0.0
    ensures AtPointNormal(m, p, w) == AtPointNormal(m, q, w)
  {
    NormalizedIsUnit(m, w);
    var n := w.Normalized(m);
    var s := w.Magnitude(m);
    NonzeroLength(w.x, w.y, s);
    var e := Sub(p, q);
    assert e.x * (n.x * s) + e.y * (n.y * s) == 0.0;
    PerpendicularAfterScaling(e.x, e.y, n.x, n.y, s);
    assert n.Dot(p) == n.Dot(q);
  }

  /** The tangent branch as written: for `p2` at the origin, `line` the
      line `y = 1` and `p1 = (1, 0)`, the circle touches the line at
      `(0, 1)`, yet the fold `axiom5` returns is the line `y = 0`, which
      leaves `p1` where it is, off `line`. */
  lemma Axiom5TangentMisses(c: Config, paper: Rectangle, p1: Vector, line: Line, p2: Vector)
    requires paper.sides.Some? && 0.0 < c.eps
    requires line == Line(1.0, Vector(0.0, 1.0)) && p1 == Vector(1.0, 0.0) && p2 == Vector(0.0, 0.0)
    ensures var r := Axiom5(c, paper, p1, line, p2);
      r == [Line(0.0, Vector(0.0, 1.0))] && r[0].Reflection(p1) == p1 && !line.Has(r[0].Reflection(p1))
  {
    ExampleTangent(c, paper, p1, line, p2);
    FixedOffLine();
  }

  /** The example takes the tangent branch. */
  lemma ExampleTangent(c: Config, paper: Rectangle, p1: Vector, line: Line, p2: Vector)
    requires paper.sides.Some? && 0.0 < c.eps
    requires line == Line(1.0, Vector(0.0, 1.0)) && p1 == Vector(1.0, 0.0) && p2 == Vector(0.0, 0.0)
    ensures Axiom5(c, paper, p1, line, p2) == [Line(0.0, Vector(0.0, 1.0))]
  {
    ExampleTouches(c.libm, p1, line, p2);
    TouchingTakesTangent(c, paper, p1, line, p2);
    ExampleOffsets(line, p1, p2);
  }

  lemma ExampleTouches(m: Libm, p1: Vector, line: Line, p2: Vector)
    requires line == Line(1.0, Vector(0.0, 1.0)) && p1 == Vector(1.0, 0.0) && p2 == Vector(0.0, 0.0)
    ensures Sub(p1, p2).Magnitude(m) == Scale(line.unitNormal, line.distance - line.unitNormal.Dot(p2)).Magnitude(m)
  {
    ExampleOffsets(line, p1, p2);
    ExampleLengths(m);
  }

  /** When the radius equals the distance to the line, axiom 5 as written
      returns the fold through `p2` parallel to the line. */
  lemma TouchingTakesTangent(c: Config, paper: Rectangle, p1: Vector, line: Line, p2: Vector)
    requires paper.sides.Some? && 0.0 < c.eps
    requires Sub(p1, p2).Magnitude(c.libm)
             == Scale(line.unitNormal, line.distance - line.unitNormal.Dot(p2)).Magnitude(c.libm)
    ensures Axiom5(c, paper, p1, line, p2) == [Geometry.AtPoint(p2, line.unitNormal)]
  {
  }

  /** In the example, `p1 - p2` is `(1, 0)` and the offset from `p2` to the
      line is `(0, 1)`. */
  lemma ExampleOffsets(line: Line, p1: Vector, p2: Vector)
    requires line == Line(1.0, Vector(0.0, 1.0)) && p1 == Vector(1.0, 0.0) && p2 == Vector(0.0, 0.0)
    ensures Sub(p1, p2) == Vector(1.0, 0.0)
    ensures Scale(line.unitNormal, line.distance - line.unitNormal.Dot(p2)) == Vector(0.0, 1.0)
    ensures Geometry.AtPoint(p2, line.unitNormal) == Line(0.0, Vector(0.0, 1.0))
  {
    var u := line.unitNormal;
    ZeroTimes(p2.x, u.x);
    ZeroTimes(p2.y, u.y);
    assert u.Dot(p2) == 0.0;
    var k := line.distance - u.Dot(p2);
    ZeroTimes(u.x, k);
    OneTimes(u.y, k);
  }

  lemma OneTimes(a: real, b: real)
    requires a == 1.0 && b == 1.0
    ensures a * b == 1.0
  {
  }

  /** Both offsets have length one, so the circle touches the line. */
  lemma ExampleLengths(m: Libm)
    ensures Vector(1.0, 0.0).Magnitude(m) == Vector(0.0, 1.0).Magnitude(m)
  {
    assert Vector(1.0, 0.0).MagnitudeSquared() == 1.0;
    assert Vector(0.0, 1.0).MagnitudeSquared() == 1.0;
  }

  /** The fold `y = 0` leaves `(1, 0)` in place, off the line `y = 1`. */
  lemma FixedOffLine()
    ensures Line(0.0, Vector(0.0, 1.0)).Reflection(Vector(1.0, 0.0)) == Vector(1.0, 0.0)
    ensures !Line(1.0, Vector(0.0, 1.0)).Has(Vector(1.0, 0.0))
  {
    ReflectionFixesLine(Line(0.0, Vector(0.0, 1.0)), Vector(1.0, 0.0));
  }

  /** Axiom 5 when the circle about `p2` through `p1` cuts `line` twice: a
      fold for each crossing point, each bringing `p1` onto `line`. */
  function Axiom5Crossings(c: Config, paper: Rectangle, p1: Vector, line: Line, p2: Vector): (r: seq<Line>)
    ensures |r| <= 2 && forall f <- r :: f.Has(p2)
    ensures SqrtLaw(c.libm) && IsUnit(line.unitNormal) && CircleMeets(c.libm, p1, line, p2) ==>
      forall f <- r :: line.Has(f.Reflection(p1))
  {
    CrossingFoldsOnLine(c, paper, p1, line, p2, true);
    CrossingFoldsOnLine(c, paper, p1, line, p2, false);
    Axiom5Fold(c, paper, p1, p2, CrossingPoint(c.libm, p1, line, p2, true))
      + Axiom5Fold(c, paper, p1, p2, CrossingPoint(c.libm, p1, line, p2, false))
  }

  /** One branch of axiom 5: the fold through `p2` and the midpoint of `p1`
      and its image, when the image is on the paper and the midpoint is not
      `p2` itself. */
  function Axiom5Fold(c: Config, paper: Rectangle, p1: Vector, p2: Vector, image: Vector): (r: seq<Line>)
    ensures |r| <= 1 && forall f <- r :: f.Has(p2) && f.Has(DivScalar(Add(p1, image), 2.0))
    ensures !paper.Encloses(c.eps, image) || PointEq(c, p2, DivScalar(Add(p1, image), 2.0)) ==> r == []
    ensures SqrtLaw(c.libm) && Sub(image, p2).MagnitudeSquared() == Sub(p1, p2).MagnitudeSquared() ==>
      forall f <- r :: f.Reflection(p1) == image
  {
    if paper.Encloses(c.eps, image) then
      var mid := DivScalar(Add(p1, image), 2.0);
      if !PointEq(c, p2, mid) then
        EquidistantFold(c.libm, p1, p2, image);
        [LineThrough(c.libm, p2, mid)]
      else []
    else []
  }

  /** The circle about `p2` through `p1` reaches `line`: its radius is not
      below the distance from `p2` to the line. */
  predicate CircleMeets(m: Libm, p1: Vector, line: Line, p2: Vector) {
    !(Sub(p1, p2).Magnitude(m) < CenterToLine(line, p2).Magnitude(m))
  }

  /** `centerToLine` of axiom 5: from `p2` to the foot of its perpendicular
      on `line`. */
  function CenterToLine(line: Line, p2: Vector): Vector {
    Scale(line.unitNormal, line.distance - line.unitNormal.Dot(p2))
  }

  /** Half the chord the circle about `p2` through `p1` cuts from `line`. */
  function HalfChordLength(m: Libm, p1: Vector, line: Line, p2: Vector): real {
    var radius := Sub(p1, p2).Magnitude(m);
    m.sqrt(radius * radius - CenterToLine(line, p2).MagnitudeSquared())
  }

  /** `point1` (with `plus`) or `point2` of axiom 5: the foot of the
      perpendicular from `p2` moved along the line by the half-chord. */
  function CrossingPoint(m: Libm, p1: Vector, line: Line, p2: Vector, plus: bool): Vector {
    var addVector := Scale(line.unitNormal.RotatedBy90(), HalfChordLength(m, p1, line, p2));
    if plus then Add(Add(CenterToLine(line, p2), p2), addVector)
    else Sub(Add(CenterToLine(line, p2), p2), addVector)
  }

  /** The fold axiom 5 makes from either crossing point brings `p1` onto
      `line`. */
  lemma CrossingFoldsOnLine(c: Config, paper: Rectangle, p1: Vector, line: Line, p2: Vector, plus: bool)
    ensures SqrtLaw(c.libm) && IsUnit(line.unitNormal) && CircleMeets(c.libm, p1, line, p2) ==>
      forall f <- Axiom5Fold(c, paper, p1, p2, CrossingPoint(c.libm, p1, line, p2, plus)) ::
        line.Has(f.Reflection(p1))
  {
    CircleMeetsLine(c.libm, p1, line, p2, plus);
  }

  /** Where the circle about `p2` through `p1` meets `line`: with a unit
      normal and a square root that behaves, both crossing points that axiom
      5 computes are on the line and exactly as far from `p2` as `p1` is. */
  lemma CircleMeetsLine(m: Libm, p1: Vector, line: Line, p2: Vector, plus: bool)
    ensures SqrtLaw(m) && IsUnit(line.unitNormal) && CircleMeets(m, p1, line, p2) ==>
      var point := CrossingPoint(m, p1, line, p2, plus);
      line.Has(point) && Sub(point, p2).MagnitudeSquared() == Sub(p1, p2).MagnitudeSquared()
  {
    if SqrtLaw(m) && IsUnit(line.unitNormal) && CircleMeets(m, p1, line, p2) {
      CrossingOnCircle(m, p1, line, p2, plus);
    }
  }

  lemma CrossingOnCircle(m: Libm, p1: Vector, line: Line, p2: Vector, plus: bool)
    requires SqrtLaw(m) && IsUnit(line.unitNormal) && CircleMeets(m, p1, line, p2)
    ensures var point := CrossingPoint(m, p1, line, p2, plus);
      line.Has(point) && Sub(point, p2).MagnitudeSquared() == Sub(p1, p2).MagnitudeSquared()
  {
    var k := line.distance - line.unitNormal.Dot(p2);
    HalfChord(m, p1, line, p2);
    CrossingGeometry(line.unitNormal, CenterToLine(line, p2), k, HalfChordLength(m, p1, line, p2), p2, plus);
  }

  /** The half-chord `a` of axiom 5 satisfies `a^2 + k^2 = |p1 - p2|^2`,
      with `k` the signed distance from `p2` to the line. */
  lemma HalfChord(m: Libm, p1: Vector, line: Line, p2: Vector)
    requires SqrtLaw(m) && IsUnit(line.unitNormal) && CircleMeets(m, p1, line, p2)
    ensures var k := line.distance - line.unitNormal.Dot(p2);
      var a := HalfChordLength(m, p1, line, p2);
      a * a + k * k == Sub(p1, p2).MagnitudeSquared()
  {
    var u := line.unitNormal;
    var k := line.distance - u.Dot(p2);
    var r2 := Sub(p1, p2).MagnitudeSquared();
    var c2 := Scale(u, k).MagnitudeSquared();
    SquareSign(p1.x - p2.x);
    SquareSign(p1.y - p2.y);
    SquareSign(u.x * k);
    SquareSign(u.y * k);
    var radius := m.sqrt(r2);
    var cm := m.sqrt(c2);
    assert radius * radius == r2 && 0.0 <= radius;
    assert cm * cm == c2 && 0.0 <= cm;
    ScaledUnitLength(u.x, u.y, k);
    SquareMonotone(cm, radius);
    var d := radius * radius - c2;
    assert 0.0 <= d;
    assert m.sqrt(d) * m.sqrt(d) == d;
  }

  /** The crossing point `p2 + k u +- a u'`, with `u'` the right-angle turn
      of the unit `u`, is `k` further along `u` than `p2` and `k^2 + a^2`
      away from it, squared. */
  lemma CrossingGeometry(u: Vector, ctl: Vector, k: real, a: real, p2: Vector, plus: bool)
    requires IsUnit(u) && ctl == Scale(u, k)
    ensures var point := if plus then Add(Add(ctl, p2), Scale(u.RotatedBy90(), a))
                         else Sub(Add(ctl, p2), Scale(u.RotatedBy90(), a));
      u.Dot(point) == u.Dot(p2) + k && Sub(point, p2).MagnitudeSquared() == k * k + a * a
  {
    var point := if plus then Add(Add(ctl, p2), Scale(u.RotatedBy90(), a))
                 else Sub(Add(ctl, p2), Scale(u.RotatedBy90(), a));
    var sg := if plus then 1.0 else -1.0;
    assert Sub(point, p2) == Vector(k * u.x + sg * (-u.y * a), k * u.y + sg * (u.x * a));
    CrossingOffset(u.x, u.y, k, a, sg);
    assert u.Dot(point) == u.Dot(p2) + u.Dot(Sub(point, p2));
  }

  /** The offset `k u + sg a u'` from the centre, with `u'` the right-angle
      turn of the unit `u` and `sg` a sign, has `k` along `u` and squared
      length `k^2 + a^2`. */
  lemma CrossingOffset(ux: real, uy: real, k: real, a: real, sg: real)
    requires ux * ux + uy * uy == 1.0 && sg * sg == 1.0
    ensures ux * (k * ux + sg * (-uy * a)) + uy * (k * uy + sg * (ux * a)) == k
    ensures (k * ux + sg * (-uy * a)) * (k * ux + sg * (-uy * a))
            + (k * uy + sg * (ux * a)) * (k * uy + sg * (ux * a)) == k * k + a * a
  {
    calc {
      ux * (k * ux + sg * (-uy * a)) + uy * (k * uy + sg * (ux * a));
      k * (ux * ux + uy * uy) + sg * a * (uy * ux - ux * uy);
      k;
    }
    calc {
      (k * ux + sg * (-uy * a)) * (k * ux + sg * (-uy * a))
        + (k * uy + sg * (ux * a)) * (k * uy + sg * (ux * a));
      k * k * (ux * ux + uy * uy) + (sg * sg) * (a * a) * (ux * ux + uy * uy);
      k * k + a * a;
    }
  }

  lemma ScaledUnitLength(ux: real, uy: real, k: real)
    requires ux * ux + uy * uy == 1.0
    ensures (ux * k) * (ux * k) + (uy * k) * (uy * k) == k * k
  {
    calc {
      (ux * k) * (ux * k) + (uy * k) * (uy * k);
      (ux * ux + uy * uy) * (k * k);
      k * k;
    }
  }

  lemma SquareMonotone(a: real, b: real)
    requires 0.0 <= a <= b
    ensures a * a <= b * b
  {
    assert a * a <= a * b <= b * b;
  }

  /** A fold through `p2` and the midpoint of `p1` and `q`, where `q` is as
      far from `p2` as `p1` is, is their perpendicular bisector: it takes
      `p1` to `q`. */
  lemma EquidistantFold(m: Libm, p1: Vector, p2: Vector, q: Vector)
    ensures SqrtLaw(m) && p2 != DivScalar(Add(p1, q), 2.0)
            && Sub(q, p2).MagnitudeSquared() == Sub(p1, p2).MagnitudeSquared() ==>
      LineThrough(m, p2, DivScalar(Add(p1, q), 2.0)).Reflection(p1) == q
  {
    var mid := DivScalar(Add(p1, q), 2.0);
    if SqrtLaw(m) && p2 != mid && Sub(q, p2).MagnitudeSquared() == Sub(p1, p2).MagnitudeSquared() {
      var e := Sub(p2, mid);
      var h := Sub(p1, mid);
      assert Sub(p1, p2) == Vector(h.x - e.x, h.y - e.y);
      assert Sub(q, p2) == Vector(-h.x - e.x, -h.y - e.y);
      EqualOffsets(h.x, h.y, e.x, e.y);
      assert e != Vector(0.0, 0.0);
      NormalizedIsUnit(m, e);
      var u := e.Normalized(m);
      var s := e.Magnitude(m);
      NonzeroLength(e.x, e.y, s);
      PerpendicularAfterScaling(h.x, h.y, u.x, u.y, s);
      var n := u.RotatedBy90();
      ParallelToUnit(n.x, n.y, h.x, h.y);
      assert h == DivScalar(Sub(p1, q), 2.0);
      ReflectsOntoOther(p1, q, n, h.Dot(n));
      ChordPerpendicular(m, p2, mid);
      DotSymmetric(n, mid);
      CanonicalReflection(p2.Dot(n), n, p1);
    }
  }

  /** `p1 - p2 = h - e` and `q - p2 = -h - e` have equal lengths only when
      `h` is perpendicular to `e`. */
  lemma EqualOffsets(hx: real, hy: real, ex: real, ey: real)
    requires (hx - ex) * (hx - ex) + (hy - ey) * (hy - ey)
             == (-hx - ex) * (-hx - ex) + (-hy - ey) * (-hy - ey)
    ensures hx * ex + hy * ey == 0.0
  {
    assert (-hx - ex) * (-hx - ex) + (-hy - ey) * (-hy - ey)
           - ((hx - ex) * (hx - ex) + (hy - ey) * (hy - ey)) == 4.0 * (hx * ex + hy * ey);
  }

  lemma PerpendicularAfterScaling(hx: real, hy: real, ux: real, uy: real, s: real)
    requires s != 0.0
    requires hx * (ux * s) + hy * (uy * s) == 0.0
    ensures hx * ux + hy * uy == 0.0
  {
    assert (hx * ux + hy * uy) * s == 0.0;
    ZeroProduct(hx * ux + hy * uy, s);
  }

  /** In the plane, a vector perpendicular to the turn of a unit vector `n`
      is its own projection onto `n`. */
  lemma ParallelToUnit(nx: real, ny: real, hx: real, hy: real)
    requires nx * nx + ny * ny == 1.0
    requires hx * ny == hy * nx
    ensures Scale(Vector(nx, ny), Vector(hx, hy).Dot(Vector(nx, ny))) == Vector(hx, hy)
  {
    calc {
      nx * (hx * nx + hy * ny);
      hx * (nx * nx) + ny * (hy * nx);
      hx * (nx * nx) + ny * (hx * ny);
      hx * (nx * nx + ny * ny);
      hx;
    }
    calc {
      ny * (hx * nx + hy * ny);
      nx * (hx * ny) + hy * (ny * ny);
      nx * (hy * nx) + hy * (ny * ny);
      hy * (nx * nx + ny * ny);
      hy;
    }
  }

  /** The coefficients of the cubic whose roots place `p1` on `line1` while
      `p2` lands on `line2`, in the frame where `line1` is the x-axis. */
  datatype Frame = Frame(u1: Vector, u1P: Vector, x1: real, x2: real, y1: real, y2: real,
                         u2x: real, u2y: real, d2: real, z: real) {
    function A(): real { u2x }
    function B(): real { -(2.0 * u2x * x2 + u2y * y1 + z) }
    function C(): real { y1 * (2.0 * u2y * x2 + u2x * (2.0 * y2 - y1)) }
    function D(): real { -y1 * y1 * (u2y * (2.0 * y2 - y1) + z) }
  }

  function Axiom6Frame(p1: Vector, line1: Line, p2: Vector, line2: Line): (f: Frame)
    ensures f.u1 == line1.unitNormal && f.u1P == Scale(line1.unitNormal.RotatedBy90(), -1.0)
    ensures f.A() == line2.unitNormal.Dot(f.u1P)
  {
    var u1 := line1.unitNormal;
    var u2 := line2.unitNormal;
    var u1P := Scale(u1.RotatedBy90(), -1.0);
    var v1 := Sub(p1, Scale(u1, line1.distance));
    var v2 := Sub(p2, Scale(u1, line1.distance));
    var x1 := v1.Dot(u1P);
    var x2 := v2.Dot(u1P) - x1;
    var y1 := v1.Dot(u1);
    var y2 := v2.Dot(u1);
    var u2x := u2.Dot(u1P);
    var u2y := u2.Dot(u1);
    var d2 := line2.distance - u2.Dot(Scale(u1, line1.distance)) - u2x * x1;
    var z := d2 - u2x * x2 - u2y * y2;
    Frame(u1, u1P, x1, x2, y1, y2, u2x, u2y, d2, z)
  }

  /** The image of `p1` on `line1` that a root of the cubic stands for. */
  function FoldedImage(line1: Line, f: Frame, root: real): (q: Vector)
    ensures (IsUnit(line1.unitNormal) && f.u1 == line1.unitNormal
             && f.u1P == Scale(line1.unitNormal.RotatedBy90(), -1.0)) ==> line1.Has(q)
  {
    var q := Add(Scale(f.u1, line1.distance), Scale(f.u1P, root + f.x1));
    FoldedImageOnLine(line1, f, root);
    q
  }

  lemma FoldedImageOnLine(line1: Line, f: Frame, root: real)
    ensures (IsUnit(line1.unitNormal) && f.u1 == line1.unitNormal
             && f.u1P == Scale(line1.unitNormal.RotatedBy90(), -1.0)) ==>
      line1.Has(Add(Scale(f.u1, line1.distance), Scale(f.u1P, root + f.x1)))
  {
    if IsUnit(line1.unitNormal) && f.u1 == line1.unitNormal
       && f.u1P == Scale(line1.unitNormal.RotatedBy90(), -1.0) {
      ImageOnLine(line1.unitNormal.x, line1.unitNormal.y, line1.distance, root + f.x1);
    }
  }

  lemma ImageOnLine(ux: real, uy: real, d: real, t: real)
    requires ux * ux + uy * uy == 1.0
    ensures ux * (ux * d + (-(-uy) * t)) + uy * (uy * d + (-ux) * t) == d
  {
    calc {
      ux * (ux * d + (-(-uy) * t)) + uy * (uy * d + (-ux) * t);
      (ux * ux + uy * uy) * d + (ux * uy - uy * ux) * t;
      { assert ux * uy - uy * ux == 0.0; }
      (ux * ux + uy * uy) * d;
      1.0 * d;
    }
  }

  /** The fold axiom 6 makes from one root, if it passes every test: the
      image of `p1` is not `p1` and is on the paper, the paper contains the
      fold, the side test holds, and the image of `p2` is on the paper. The
      side test multiplies `line1.distance - p1 . u1` by
      `line1.distance - p1 . u2`, with `p1` in both factors. */
  function Axiom6Fold(c: Config, paper: Rectangle, p1: Vector, line1: Line, p2: Vector, line2: Line,
                      root: real): (r: Option<Line>)
    requires paper.sides.Some?
    ensures r.Some? ==> Contains(c, paper, r.value) && paper.Encloses(c.eps, r.value.Reflection(p2))
    ensures r.Some? ==> (line1.distance - p1.Dot(line1.unitNormal)) * (line1.distance - p1.Dot(line2.unitNormal)) >= 0.0
    ensures r.Some? && SqrtLaw(c.libm) && IsUnit(line1.unitNormal) ==>
      line1.Has(r.value.Reflection(p1)) && paper.Encloses(c.eps, r.value.Reflection(p1))
    ensures r.Some? && SqrtLaw(c.libm) && IsUnit(line1.unitNormal)
            && CubicAt(Axiom6Frame(p1, line1, p2, line2), root) == 0.0 ==>
      line2.Has(r.value.Reflection(p2))
  {
    var f := Axiom6Frame(p1, line1, p2, line2);
    var p1Folded := FoldedImage(line1, f, root);
    if PointEq(c, p1, p1Folded) || !paper.Encloses(c.eps, p1Folded) then None
    else
      var fold := AtPointNormal(c.libm, DivScalar(Add(p1, p1Folded), 2.0), Sub(p1, p1Folded));
      if !Contains(c, paper, fold)
         || (line1.distance - p1.Dot(line1.unitNormal)) * (line1.distance - p1.Dot(line2.unitNormal)) < 0.0
      then None
      else if !paper.Encloses(c.eps, fold.Reflection(p2)) then None
      else
        assert p1 != p1Folded;
        FoldThroughMidpoint(c.libm, p1, p1Folded);
        RootPlacesP2(c.libm, p1, line1, p2, line2, root);
        Some(fold)
  }

  /** The fold through the midpoint of `p` and `q` with normal along `p - q`
      takes `p` to `q`. */
  lemma FoldThroughMidpoint(m: Libm, p: Vector, q: Vector)
    ensures SqrtLaw(m) && p != q ==>
      AtPointNormal(m, DivScalar(Add(p, q), 2.0), Sub(p, q)).Reflection(p) == q
  {
    if SqrtLaw(m) && p != q {
      MidpointFoldReflects(m, p, q);
    }
  }

  lemma MidpointFoldReflects(m: Libm, p: Vector, q: Vector)
    requires SqrtLaw(m) && p != q
    ensures AtPointNormal(m, DivScalar(Add(p, q), 2.0), Sub(p, q)).Reflection(p) == q
  {
    var w := Sub(p, q);
    assert w != Vector(0.0, 0.0);
    NormalizedIsUnit(m, w);
    var n := w.Normalized(m);
    CanonicalReflection(n.Dot(DivScalar(Add(p, q), 2.0)), n, p);
    var s := w.Magnitude(m);
    HalfNormal(n, s, w);
    ReflectsOntoOther(p, q, n, s / 2.0);
  }

  lemma HalfNormal(n: Vector, s: real, w: Vector)
    requires Scale(n, s) == w
    ensures Scale(n, s / 2.0) == DivScalar(w, 2.0)
  {
    HalfScale(n.x, s, w.x);
    HalfScale(n.y, s, w.y);
  }

  lemma HalfScale(a: real, s: real, w: real)
    requires a * s == w
    ensures a * (s / 2.0) == Div(w, 2.0)
  {
  }

  /** The value of axiom 6's cubic at `t`. */
  function CubicAt(f: Frame, t: real): real {
    f.A() * t * t * t + f.B() * t * t + f.C() * t + f.D()
  }

  lemma RootPlacesP2(m: Libm, p1: Vector, line1: Line, p2: Vector, line2: Line, t: real)
    ensures var q := FoldedImage(line1, Axiom6Frame(p1, line1, p2, line2), t);
      SqrtLaw(m) && IsUnit(line1.unitNormal) && CubicAt(Axiom6Frame(p1, line1, p2, line2), t) == 0.0
      && p1 != q ==>
        line2.Has(AtPointNormal(m, DivScalar(Add(p1, q), 2.0), Sub(p1, q)).Reflection(p2))
  {
    var q := FoldedImage(line1, Axiom6Frame(p1, line1, p2, line2), t);
    if SqrtLaw(m) && IsUnit(line1.unitNormal) && CubicAt(Axiom6Frame(p1, line1, p2, line2), t) == 0.0
       && p1 != q {
      Axiom6PlacesP2(m, p1, line1, p2, line2, t);
    }
  }

  /** For an exact root of the cubic, the fold through the midpoint of `p1`
      and its image also brings `p2` onto `line2`. */
  lemma Axiom6PlacesP2(m: Libm, p1: Vector, line1: Line, p2: Vector, line2: Line, t: real)
    requires SqrtLaw(m) && IsUnit(line1.unitNormal)
    requires CubicAt(Axiom6Frame(p1, line1, p2, line2), t) == 0.0
    requires p1 != FoldedImage(line1, Axiom6Frame(p1, line1, p2, line2), t)
    ensures var q := FoldedImage(line1, Axiom6Frame(p1, line1, p2, line2), t);
      line2.Has(AtPointNormal(m, DivScalar(Add(p1, q), 2.0), Sub(p1, q)).Reflection(p2))
  {
    var f := Axiom6Frame(p1, line1, p2, line2);
    var u, d1 := line1.unitNormal, line1.distance;
    var q := FoldedImage(line1, f, t);
    FrameCoordinates(p1, line1, p2, line2);
    OffsetCoordinates(u, d1, p1);
    OffsetCoordinates(u, d1, p2);
    ImageCoordinates(u, d1, t + f.x1);
    DotScaleRight(line2.unitNormal, u, d1);
    CubicFactored(f, t);
    FoldInFrame(m, f, line2.unitNormal, d1, line2.distance, p1, p2, q, t);
  }

  /** Axiom 6's second half in the frame `f` of `line1`, with `p1`, `p2`,
      the image `q` of `p1` and `line2`'s normal `u2` given by their
      coordinates. */
  lemma FoldInFrame(m: Libm, f: Frame, u2: Vector, d1: real, dist2: real, p1: Vector, p2: Vector, q: Vector, t: real)
    requires SqrtLaw(m) && IsUnit(f.u1) && f.u1P == Scale(f.u1.RotatedBy90(), -1.0) && p1 != q
    requires p1.Dot(f.u1P) == f.x1 && p1.Dot(f.u1) == f.y1 + d1
      && p2.Dot(f.u1P) == f.x2 + f.x1 && p2.Dot(f.u1) == f.y2 + d1
      && q.Dot(f.u1P) == t + f.x1 && q.Dot(f.u1) == d1
      && u2.Dot(f.u1P) == f.u2x && u2.Dot(f.u1) == f.u2y
    requires f.d2 == dist2 - d1 * f.u2y - f.u2x * f.x1
    requires f.z == f.d2 - f.u2x * f.x2 - f.u2y * f.y2
    requires CubicVanishes(t, f.x2, f.y1, f.y2, f.u2x, f.u2y, f.z)
    ensures u2.Dot(AtPointNormal(m, DivScalar(Add(p1, q), 2.0), Sub(p1, q)).Reflection(p2)) == dist2
  {
    var mid := DivScalar(Add(p1, q), 2.0);
    var w := Sub(p1, q);
    MidpointReflectionEquation(m, p1, q, p2, u2);
    ReadingOnLine2(f, u2, d1, dist2, p1, p2, q, t, u2.Dot(AtPointNormal(m, mid, w).Reflection(p2)));
  }

  lemma MidpointReflectionEquation(m: Libm, p1: Vector, q: Vector, x: Vector, g: Vector)
    requires SqrtLaw(m) && p1 != q
    ensures var mid, w := DivScalar(Add(p1, q), 2.0), Sub(p1, q);
      ReflectionEquation(g.Dot(AtPointNormal(m, mid, w).Reflection(x)), g.Dot(x), w.Dot(w),
                         g.Dot(w), Sub(x, mid).Dot(w))
  {
    ApartDifference(p1, q);
    ReflectionAlong(m, DivScalar(Add(p1, q), 2.0), Sub(p1, q), x, g);
  }

  /** A reading `ri` along `u2` that satisfies the reflection's equation is
      `line2`'s distance. */
  lemma ReadingOnLine2(f: Frame, u2: Vector, d1: real, dist2: real, p1: Vector, p2: Vector, q: Vector, t: real, ri: real)
    requires IsUnit(f.u1) && f.u1P == Scale(f.u1.RotatedBy90(), -1.0) && p1 != q
    requires p1.Dot(f.u1P) == f.x1 && p1.Dot(f.u1) == f.y1 + d1
      && p2.Dot(f.u1P) == f.x2 + f.x1 && p2.Dot(f.u1) == f.y2 + d1
      && q.Dot(f.u1P) == t + f.x1 && q.Dot(f.u1) == d1
      && u2.Dot(f.u1P) == f.u2x && u2.Dot(f.u1) == f.u2y
    requires f.d2 == dist2 - d1 * f.u2y - f.u2x * f.x1
    requires f.z == f.d2 - f.u2x * f.x2 - f.u2y * f.y2
    requires CubicVanishes(t, f.x2, f.y1, f.y2, f.u2x, f.u2y, f.z)
    requires var mid, w := DivScalar(Add(p1, q), 2.0), Sub(p1, q);
      ReflectionEquation(ri, u2.Dot(p2), w.Dot(w), u2.Dot(w), Sub(p2, mid).Dot(w))
    ensures ri == dist2
  {
    var rp := f.u2x * (f.x2 + f.x1) + f.u2y * (f.y2 + d1);
    var n := -t * -t + f.y1 * f.y1;
    var g := f.u2x * -t + f.u2y * f.y1;
    var l := (f.x2 - t / 2.0) * -t + (f.y2 - f.y1 / 2.0) * f.y1;
    ReadingInFrame(f.u1, u2, d1, p1, p2, q, t, f.x1, f.x2, f.y1, f.y2, f.u2x, f.u2y, ri, rp, n, g, l);
    Axiom6Combine(ri, rp, n, g, l, t, f.x1, f.x2, f.y1, f.y2, f.u2x, f.u2y, f.d2, f.z, d1, dist2);
  }

  /** The reflection's equation for the reading `ri` along `u2`, in the
      frame's coordinates. */
  lemma ReadingInFrame(u: Vector, u2: Vector, d1: real, p1: Vector, p2: Vector, q: Vector,
                       t: real, x1: real, x2: real, y1: real, y2: real, u2x: real, u2y: real,
                       ri: real, rp: real, n: real, g: real, l: real)
    requires IsUnit(u) && p1 != q
    requires var uP := Scale(u.RotatedBy90(), -1.0);
      p1.Dot(uP) == x1 && p1.Dot(u) == y1 + d1
      && p2.Dot(uP) == x2 + x1 && p2.Dot(u) == y2 + d1
      && q.Dot(uP) == t + x1 && q.Dot(u) == d1
      && u2.Dot(uP) == u2x && u2.Dot(u) == u2y
    requires var mid, w := DivScalar(Add(p1, q), 2.0), Sub(p1, q);
      ReflectionEquation(ri, u2.Dot(p2), w.Dot(w), u2.Dot(w), Sub(p2, mid).Dot(w))
    requires rp == u2x * (x2 + x1) + u2y * (y2 + d1) && n == -t * -t + y1 * y1
    requires g == u2x * -t + u2y * y1 && l == (x2 - t / 2.0) * -t + (y2 - y1 / 2.0) * y1
    ensures ReflectionEquation(ri, rp, n, g, l)
  {
    var mid := DivScalar(Add(p1, q), 2.0);
    var w := Sub(p1, q);
    FrameProducts(u, u2, d1, p1, p2, q, t, x1, x2, y1, y2, u2x, u2y);
  }

  /** `ri |w|^2 == rp |w|^2 - 2 g l` with `|w|^2` written `n`, not zero. */
  ghost predicate ReflectionEquation(ri: real, rp: real, n: real, g: real, l: real) {
    ri * n == rp * n - 2.0 * g * l && n != 0.0
  }

  /** The products the reflection needs, from the coordinates. */
  lemma FrameProducts(u: Vector, u2: Vector, d1: real, p1: Vector, p2: Vector, q: Vector,
                      t: real, x1: real, x2: real, y1: real, y2: real, u2x: real, u2y: real)
    requires IsUnit(u)
    requires var uP := Scale(u.RotatedBy90(), -1.0);
      p1.Dot(uP) == x1 && p1.Dot(u) == y1 + d1
      && p2.Dot(uP) == x2 + x1 && p2.Dot(u) == y2 + d1
      && q.Dot(uP) == t + x1 && q.Dot(u) == d1
      && u2.Dot(uP) == u2x && u2.Dot(u) == u2y
    ensures var mid, w := DivScalar(Add(p1, q), 2.0), Sub(p1, q);
      w.Dot(w) == -t * -t + y1 * y1
      && u2.Dot(w) == u2x * -t + u2y * y1
      && Sub(p2, mid).Dot(w) == (x2 - t / 2.0) * -t + (y2 - y1 / 2.0) * y1
      && u2.Dot(p2) == u2x * (x2 + x1) + u2y * (y2 + d1)
  {
    var uP := Scale(u.RotatedBy90(), -1.0);
    var mid, w := DivScalar(Add(p1, q), 2.0), Sub(p1, q);
    DotSub(p1, q, uP);
    DotSub(p1, q, u);
    DotMid(p1, q, uP);
    DotMid(p1, q, u);
    DotSub(p2, mid, uP);
    DotSub(p2, mid, u);
    FrameProduct(u, w, w, -t, y1, -t, y1);
    FrameProduct(u, u2, w, u2x, u2y, -t, y1);
    FrameProduct(u, Sub(p2, mid), w, x2 - t / 2.0, y2 - y1 / 2.0, -t, y1);
    FrameProduct(u, u2, p2, u2x, u2y, x2 + x1, y2 + d1);
  }

  /** The cubic's value in its factored form. */
  lemma CubicFactored(f: Frame, t: real)
    ensures CubicAt(f, t)
      == -f.z * (t * t + f.y1 * f.y1)
         + 2.0 * ((f.x2 - t / 2.0) * -t + (f.y2 - f.y1 / 2.0) * f.y1) * (f.u2x * t - f.u2y * f.y1)
    ensures CubicAt(f, t) == 0.0 <==> CubicVanishes(t, f.x2, f.y1, f.y2, f.u2x, f.u2y, f.z)
  {
    CubicIdentity(f.A(), f.B(), f.C(), f.D(), t, f.x2, f.y1, f.y2, f.u2x, f.u2y, f.z);
  }

  /** The frame's coordinates, as the program computes them. */
  lemma FrameCoordinates(p1: Vector, line1: Line, p2: Vector, line2: Line)
    ensures var f := Axiom6Frame(p1, line1, p2, line2);
      f.x1 == Sub(p1, Scale(line1.unitNormal, line1.distance)).Dot(f.u1P)
      && f.x2 == Sub(p2, Scale(line1.unitNormal, line1.distance)).Dot(f.u1P) - f.x1
      && f.y1 == Sub(p1, Scale(line1.unitNormal, line1.distance)).Dot(line1.unitNormal)
      && f.y2 == Sub(p2, Scale(line1.unitNormal, line1.distance)).Dot(line1.unitNormal)
      && f.u2x == line2.unitNormal.Dot(f.u1P) && f.u2y == line2.unitNormal.Dot(line1.unitNormal)
      && f.d2 == line2.distance - line2.unitNormal.Dot(Scale(line1.unitNormal, line1.distance)) - f.u2x * f.x1
      && f.z == f.d2 - f.u2x * f.x2 - f.u2y * f.y2
  {
  }

  lemma ApartDifference(p: Vector, q: Vector)
    requires p != q
    ensures Sub(p, q) != Vector(0.0, 0.0) && Sub(p, q).Dot(Sub(p, q)) != 0.0
  {
    var w := Sub(p, q);
    if w.Dot(w) == 0.0 {
      SquaresVanish(w.x, w.y);
    }
  }

  /** The frame of a unit normal `u`: `u` turned by -90 degrees, then `u`. */
  lemma FrameProduct(u: Vector, a: Vector, b: Vector, ap: real, au: real, bp: real, bu: real)
    requires IsUnit(u)
    requires var uP := Scale(u.RotatedBy90(), -1.0);
      a.Dot(uP) == ap && a.Dot(u) == au && b.Dot(uP) == bp && b.Dot(u) == bu
    ensures a.Dot(b) == ap * bp + au * bu
  {
    var uP := Scale(u.RotatedBy90(), -1.0);
    assert uP == Vector(u.y, -u.x);
    assert ap == a.x * u.y + a.y * -u.x && bp == b.x * u.y + b.y * -u.x;
    FrameDotScalar(u.x, u.y, a.x, a.y, b.x, b.y, ap, au, bp, bu);
  }

  lemma FrameDotScalar(ux: real, uy: real, wx: real, wy: real, vx: real, vy: real,
                       ap: real, au: real, bp: real, bu: real)
    requires ux * ux + uy * uy == 1.0
    requires ap == wx * uy + wy * -ux && au == wx * ux + wy * uy
    requires bp == vx * uy + vy * -ux && bu == vx * ux + vy * uy
    ensures wx * vx + wy * vy == ap * bp + au * bu
  {
    calc {
      ap * bp + au * bu;
      (wx * uy - wy * ux) * (vx * uy - vy * ux) + (wx * ux + wy * uy) * (vx * ux + vy * uy);
      wx * vx * (ux * ux + uy * uy) + wy * vy * (ux * ux + uy * uy);
      wx * vx + wy * vy;
    }
  }

  /** Coordinates of `p - u * d1` in the frame of `u`. */
  lemma OffsetCoordinates(u: Vector, d1: real, p: Vector)
    requires IsUnit(u)
    ensures var uP := Scale(u.RotatedBy90(), -1.0);
      Sub(p, Scale(u, d1)).Dot(uP) == p.Dot(uP) && Sub(p, Scale(u, d1)).Dot(u) == p.Dot(u) - d1
  {
    OffsetScalar(u.x, u.y, d1, p.x, p.y);
  }

  lemma OffsetScalar(ux: real, uy: real, d1: real, px: real, py: real)
    requires ux * ux + uy * uy == 1.0
    ensures (px - ux * d1) * (-uy * -1.0) + (py - uy * d1) * (ux * -1.0)
            == px * (-uy * -1.0) + py * (ux * -1.0)
    ensures (px - ux * d1) * ux + (py - uy * d1) * uy == px * ux + py * uy - d1
  {
    assert (px - ux * d1) * ux + (py - uy * d1) * uy == px * ux + py * uy - d1 * (ux * ux + uy * uy);
  }

  /** Coordinates of `u * d1 + uP * s` in the frame of `u`. */
  lemma ImageCoordinates(u: Vector, d1: real, s: real)
    requires IsUnit(u)
    ensures var uP := Scale(u.RotatedBy90(), -1.0);
      var q := Add(Scale(u, d1), Scale(uP, s));
      q.Dot(uP) == s && q.Dot(u) == d1
  {
    ImageScalar(u.x, u.y, d1, s);
  }

  lemma ImageScalar(ux: real, uy: real, d1: real, s: real)
    requires ux * ux + uy * uy == 1.0
    ensures (ux * d1 + (-uy * -1.0) * s) * (-uy * -1.0) + (uy * d1 + (ux * -1.0) * s) * (ux * -1.0) == s
    ensures (ux * d1 + (-uy * -1.0) * s) * ux + (uy * d1 + (ux * -1.0) * s) * uy == d1
  {
    assert (ux * d1 + (-uy * -1.0) * s) * (-uy * -1.0) + (uy * d1 + (ux * -1.0) * s) * (ux * -1.0)
           == s * (ux * ux + uy * uy);
    assert (ux * d1 + (-uy * -1.0) * s) * ux + (uy * d1 + (ux * -1.0) * s) * uy
           == d1 * (ux * ux + uy * uy);
  }

  lemma DotSub(a: Vector, b: Vector, g: Vector)
    ensures Sub(a, b).Dot(g) == a.Dot(g) - b.Dot(g)
  {
  }

  lemma DotMid(a: Vector, b: Vector, g: Vector)
    ensures DivScalar(Add(a, b), 2.0).Dot(g) == (a.Dot(g) + b.Dot(g)) / 2.0
  {
  }

  lemma DotScaleRight(g: Vector, a: Vector, k: real)
    ensures g.Dot(Scale(a, k)) == k * g.Dot(a)
  {
  }

  /** The reflection in the line through `mid` with normal along `w`, read
      along `g` and multiplied by `|w|^2`:
      `g . x |w|^2 - 2 (g . w) ((x - mid) . w)`. */
  lemma ReflectionAlong(m: Libm, mid: Vector, w: Vector, x: Vector, g: Vector)
    requires SqrtLaw(m) && w != Vector(0.0, 0.0)
    ensures g.Dot(AtPointNormal(m, mid, w).Reflection(x)) * w.Dot(w)
      == g.Dot(x) * w.Dot(w) - 2.0 * g.Dot(w) * Sub(x, mid).Dot(w)
  {
    NormalizedIsUnit(m, w);
    var n := w.Normalized(m);
    var s := w.Magnitude(m);
    SquareSign(w.x);
    SquareSign(w.y);
    assert s * s == w.MagnitudeSquared();
    var k := n.Dot(mid) - x.Dot(n);
    CanonicalReflection(n.Dot(mid), n, x);
    ReflectedAlong(g, x, n, k);
    DotScaled(g, n, s, w);
    DotScaled(mid, n, s, w);
    DotScaled(x, n, s, w);
    DotSymmetric(n, mid);
    DotSub(x, mid, w);
    DotSymmetric(mid, w);
    ExpandScaled(g.Dot(x), k, g.Dot(n), s);
  }

  lemma ReflectedAlong(g: Vector, x: Vector, n: Vector, k: real)
    ensures g.Dot(Add(x, Scale(Scale(n, 2.0), k))) == g.Dot(x) + 2.0 * k * g.Dot(n)
  {
  }

  lemma DotScaled(g: Vector, n: Vector, s: real, w: Vector)
    requires Scale(n, s) == w
    ensures g.Dot(n) * s == g.Dot(w)
  {
  }

  lemma ExpandScaled(a: real, k: real, gn: real, s: real)
    ensures (a + 2.0 * k * gn) * (s * s) == a * (s * s) + 2.0 * (k * s) * (gn * s)
  {
  }

  /** The cubic of axiom 6 in its factored form: `-z |w|^2` plus twice the
      offset of `p2` from the midpoint along `w` times `u2 . w` negated. */
  lemma CubicIdentity(a: real, b: real, c: real, d: real,
                      t: real, x2: real, y1: real, y2: real, u2x: real, u2y: real, z: real)
    requires var yy := 2.0 * y2 - y1;
      a == u2x && b == -(2.0 * u2x * x2 + u2y * y1 + z)
      && c == y1 * (2.0 * u2y * x2 + u2x * yy) && d == -y1 * y1 * (u2y * yy + z)
    ensures a * t * t * t + b * t * t + c * t + d
      == -z * (t * t + y1 * y1)
         + 2.0 * ((x2 - t / 2.0) * -t + (y2 - y1 / 2.0) * y1) * (u2x * t - u2y * y1)
  {
    var yy := 2.0 * y2 - y1;
    assert 2.0 * ((x2 - t / 2.0) * -t + (y2 - y1 / 2.0) * y1) == t * t - 2.0 * x2 * t + y1 * yy;
    calc {
      (t * t - 2.0 * x2 * t + y1 * yy) * (u2x * t - u2y * y1);
      u2x * t * t * t - 2.0 * x2 * u2x * t * t - u2y * y1 * t * t
      + u2x * y1 * yy * t + 2.0 * x2 * u2y * y1 * t - u2y * y1 * y1 * yy;
    }
  }

  /** The cubic, in its factored form, is zero at `t`. */
  ghost predicate CubicVanishes(t: real, x2: real, y1: real, y2: real, u2x: real, u2y: real, z: real) {
    -z * (t * t + y1 * y1)
    + 2.0 * ((x2 - t / 2.0) * -t + (y2 - y1 / 2.0) * y1) * (u2x * t - u2y * y1) == 0.0
  }

  /** The last step of axiom 6's second half: with a root of the cubic,
      `u2 . image |w|^2 == d2' |w|^2`. */
  lemma Axiom6Combine(ri: real, rp: real, n: real, g: real, l: real, t: real,
                      x1: real, x2: real, y1: real, y2: real, u2x: real, u2y: real,
                      d2: real, z: real, d1: real, dist2: real)
    requires ReflectionEquation(ri, rp, n, g, l)
    requires n == -t * -t + y1 * y1
    requires g == u2x * -t + u2y * y1
    requires l == (x2 - t / 2.0) * -t + (y2 - y1 / 2.0) * y1
    requires rp == u2x * (x2 + x1) + u2y * (y2 + d1)
    requires d2 == dist2 - d1 * u2y - u2x * x1
    requires z == d2 - u2x * x2 - u2y * y2
    requires CubicVanishes(t, x2, y1, y2, u2x, u2y, z)
    ensures ri == dist2
  {
    assert n == t * t + y1 * y1;
    assert -2.0 * g * l == 2.0 * l * (u2x * t - u2y * y1);
    assert rp + z == dist2;
    CancelNonzero(ri, dist2, n);
  }

  lemma CancelNonzero(k: real, j: real, n: real)
    requires n != 0.0 && k * n == j * n
    ensures k == j
  {
    DifferenceTimes(k, j, n);
    ZeroProduct(k - j, n);
  }

  /** Axiom 6: one fold per root of the cubic that passes every test, in the
      order of the roots. */
  function Axiom6Folds(c: Config, paper: Rectangle, p1: Vector, line1: Line, p2: Vector, line2: Line,
                       roots: seq<real>): (r: seq<Line>)
    requires paper.sides.Some?
    ensures |r| <= |roots|
    ensures forall k <- r :: exists root <- roots :: Axiom6Fold(c, paper, p1, line1, p2, line2, root) == Some(k)
  {
    if roots == [] then []
    else
      var rest := Axiom6Folds(c, paper, p1, line1, p2, line2, roots[..|roots| - 1]);
      match Axiom6Fold(c, paper, p1, line1, p2, line2, roots[|roots| - 1])
      case None => rest
      case Some(k) => rest + [k]
  }

  /** The roots of axiom 6's cubic. */
  function Axiom6Roots(c: Config, p1: Vector, line1: Line, p2: Vector, line2: Line): (roots: seq<real>)
    ensures |roots| <= 3
  {
    var f := Axiom6Frame(p1, line1, p2, line2);
    SolveCubic(c, f.A(), f.B(), f.C(), f.D())
  }

  /** What every fold of axiom 6 satisfies: the paper contains it, it
      leaves the image of `p2` on the paper, and (with an exact square root
      and a unit normal) it brings `p1` onto `line1`; when moreover the
      roots it was made from are exact roots of the cubic, it brings `p2`
      onto `line2`. */
  ghost predicate Axiom6Valid(c: Config, paper: Rectangle, p1: Vector, line1: Line, p2: Vector, line2: Line,
                              roots: seq<real>, k: Line)
    requires paper.sides.Some?
  {
    Contains(c, paper, k) && paper.Encloses(c.eps, k.Reflection(p2))
    && (SqrtLaw(c.libm) && IsUnit(line1.unitNormal) ==> line1.Has(k.Reflection(p1)))
    && (SqrtLaw(c.libm) && IsUnit(line1.unitNormal)
        && (forall root <- roots :: CubicAt(Axiom6Frame(p1, line1, p2, line2), root) == 0.0) ==>
          line2.Has(k.Reflection(p2)))
  }

  /** `axiom6(bring:to:and:on:)`: at most three folds that bring `p1` onto
      `line1` and `p2` onto the paper. */
  method Axiom6(c: Config, paper: Rectangle, p1: Vector, line1: Line, p2: Vector, line2: Line)
    returns (folds: seq<Line>)
    requires paper.sides.Some?
    ensures folds == Axiom6Folds(c, paper, p1, line1, p2, line2, Axiom6Roots(c, p1, line1, p2, line2))
    ensures |folds| <= 3
    ensures forall k <- folds :: Axiom6Valid(c, paper, p1, line1, p2, line2, Axiom6Roots(c, p1, line1, p2, line2), k)
  {
    var roots := Axiom6Roots(c, p1, line1, p2, line2);
    folds := [];
    for i := 0 to |roots|
      invariant folds == Axiom6Folds(c, paper, p1, line1, p2, line2, roots[..i])
    {
      var fold := Axiom6Fold(c, paper, p1, line1, p2, line2, roots[i]);
      Axiom6FoldsStep(c, paper, p1, line1, p2, line2, roots, i);
      if fold.Some? {
        folds := folds + [fold.value];
      }
    }
    assert roots[..|roots|] == roots;
    FoldsPassTests(c, paper, p1, line1, p2, line2, roots);
  }

  lemma Axiom6FoldsStep(c: Config, paper: Rectangle, p1: Vector, line1: Line, p2: Vector, line2: Line,
                        roots: seq<real>, i: nat)
    requires paper.sides.Some? && i < |roots|
    ensures Axiom6Folds(c, paper, p1, line1, p2, line2, roots[..i + 1])
      == Axiom6Folds(c, paper, p1, line1, p2, line2, roots[..i])
         + match Axiom6Fold(c, paper, p1, line1, p2, line2, roots[i])
           case None => []
           case Some(k) => [k]
  {
    assert roots[..i + 1][..i] == roots[..i];
  }

  lemma {:induction false} FoldsPassTests(c: Config, paper: Rectangle, p1: Vector, line1: Line,
                                          p2: Vector, line2: Line, roots: seq<real>)
    requires paper.sides.Some?
    ensures forall k <- Axiom6Folds(c, paper, p1, line1, p2, line2, roots) ::
      Axiom6Valid(c, paper, p1, line1, p2, line2, roots, k)
  {
    forall k <- Axiom6Folds(c, paper, p1, line1, p2, line2, roots)
      ensures Axiom6Valid(c, paper, p1, line1, p2, line2, roots, k)
    {
      var root :| root in roots && Axiom6Fold(c, paper, p1, line1, p2, line2, root) == Some(k);
    }
  }

  /** The reduced cubic `t^3 + 3 q t + 2 r` of `a x^3 + b x^2 + c x + d`
      (Cardano), with powers through libm's `pow`. */
  function CubicQ(a: real, b: real, cc: real): real {
    Div(3.0 * a * cc - b * b, 9.0 * a * a)
  }

  function CubicR(m: Libm, a: real, b: real, cc: real, d: real): real {
    Div(9.0 * a * b * cc - 27.0 * a * a * d - 2.0 * m.pow(b, 3.0), 54.0 * m.pow(a, 3.0))
  }

  function CubicDiscriminant(m: Libm, a: real, b: real, cc: real, d: real): real {
    m.pow(CubicQ(a, b, cc), 3.0) + m.pow(CubicR(m, a, b, cc, d), 2.0)
  }

  /** `solveCubic`: the real roots of `a x^3 + b x^2 + cc x + d`, falling
      back to the quadratic and the linear equation when the leading
      coefficients are within epsilon of zero. */
  function SolveCubic(c: Config, a: real, b: real, cc: real, d: real): (roots: seq<real>)
    ensures |roots| <= 3
    ensures Abs(a) < c.eps && Abs(b) < c.eps && Abs(cc) < c.eps ==> roots == []
    ensures Abs(a) < c.eps && Abs(b) < c.eps && !(Abs(cc) < c.eps) ==>
      |roots| == 1 && (0.0 < c.eps ==> cc * roots[0] + d == 0.0)
    ensures Abs(a) < c.eps && !(Abs(b) < c.eps) ==> |roots| <= 2
    ensures Abs(a) < c.eps && !(Abs(b) < c.eps) && 0.0 < c.eps && SqrtLaw(c.libm) ==>
      forall x <- roots :: c.eps <= cc * cc - 4.0 * b * d ==> b * x * x + cc * x + d == 0.0
  {
    if Abs(a) < c.eps then
      if Abs(b) < c.eps then
        if Abs(cc) < c.eps then [] else SolveLinear(c.eps, cc, d)
      else SolveQuadratic(c, b, cc, d)
    else SolveReducedCubic(c, a, b, cc, d)
  }

  /** The root of `cc x + d` for `cc` not within epsilon of zero. */
  function SolveLinear(eps: real, cc: real, d: real): (roots: seq<real>)
    requires !(Abs(cc) < eps)
    ensures |roots| == 1 && (0.0 < eps ==> cc * roots[0] + d == 0.0)
  {
    LinearRoot(cc, d, eps);
    [Div(-d, cc)]
  }

  /** The roots of `b x^2 + cc x + d` by the quadratic formula: none for a
      negative discriminant, one double root for a discriminant below
      epsilon, two otherwise. */
  function SolveQuadratic(c: Config, b: real, cc: real, d: real): (roots: seq<real>)
    requires !(Abs(b) < c.eps)
    ensures |roots| <= 2
    ensures var disc := cc * cc - 4.0 * b * d;
      (disc < 0.0 ==> roots == [])
      && (0.0 <= disc < c.eps ==> |roots| == 1)
      && (0.0 <= disc && c.eps <= disc ==> |roots| == 2)
    ensures c.eps <= cc * cc - 4.0 * b * d && 0.0 < c.eps && SqrtLaw(c.libm) ==>
      forall x <- roots :: b * x * x + cc * x + d == 0.0
  {
    var disc := cc * cc - 4.0 * b * d;
    if disc < 0.0 then []
    else if disc < c.eps then [Div(-cc, 2.0 * b)]
    else
      var sd := c.libm.sqrt(disc);
      QuadraticRoots(c.libm, b, cc, d, c.eps);
      [Div(-cc + sd, 2.0 * b), Div(-cc - sd, 2.0 * b)]
  }

  /** Cardano's method: three trigonometric roots for a negative
      discriminant, a double and a simple root (one triple root when `r` is
      zero) for a discriminant below epsilon, one real root otherwise. */
  function SolveReducedCubic(c: Config, a: real, b: real, cc: real, d: real): (roots: seq<real>)
    ensures var disc := CubicDiscriminant(c.libm, a, b, cc, d);
      (disc < 0.0 ==> |roots| == 3)
      && (0.0 <= disc < c.eps ==>
            |roots| == (if CubicR(c.libm, a, b, cc, d) == 0.0 then 1 else 2))
      && (0.0 <= disc && c.eps <= disc ==> |roots| == 1)
  {
    var m := c.libm;
    var q := CubicQ(a, b, cc);
    var r := CubicR(m, a, b, cc, d);
    var disc := CubicDiscriminant(m, a, b, cc, d);
    var f := Div(b, 3.0 * a);
    if disc < 0.0 then
      var theta := Div(m.acos(Div(r, m.sqrt(-m.pow(q, 3.0)))), 3.0);
      var e := 2.0 * m.sqrt(-q);
      [e * m.cos(theta) - f, e * m.cos(theta + 2.0 * Pi / 3.0) - f, e * m.cos(theta + 4.0 * Pi / 3.0) - f]
    else if disc < c.eps then
      if r == 0.0 then [Div(-b, 3.0 * a)]
      else
        var e := m.cbrt(r);
        [2.0 * e - f, -e - f]
    else
      var sqrtOfDiscriminant := m.sqrt(disc);
      [m.cbrt(r + sqrtOfDiscriminant) + m.cbrt(r - sqrtOfDiscriminant) - f]
  }

  /** The linear branch's root is exact. */
  lemma LinearRoot(cc: real, d: real, eps: real)
    requires !(Abs(cc) < eps)
    ensures 0.0 < eps ==> cc * Div(-d, cc) + d == 0.0
  {
  }

  lemma QuadraticRoots(m: Libm, b: real, cc: real, d: real, eps: real)
    requires !(Abs(b) < eps) && eps <= cc * cc - 4.0 * b * d
    ensures 0.0 < eps && SqrtLaw(m) ==>
      var sd := m.sqrt(cc * cc - 4.0 * b * d);
      var x1 := Div(-cc + sd, 2.0 * b);
      var x2 := Div(-cc - sd, 2.0 * b);
      b * x1 * x1 + cc * x1 + d == 0.0 && b * x2 * x2 + cc * x2 + d == 0.0
  {
    if 0.0 < eps && SqrtLaw(m) {
      var sd := m.sqrt(cc * cc - 4.0 * b * d);
      QuadraticRoot(b, cc, d, sd);
      QuadraticRoot(b, cc, d, -sd);
    }
  }

  /** The quadratic formula: with `sd * sd == cc^2 - 4 b d`, the value
      `(-cc + sd) / (2 b)` is a root of `b x^2 + cc x + d`. */
  lemma QuadraticRoot(b: real, cc: real, d: real, sd: real)
    requires b != 0.0
    requires sd * sd == cc * cc - 4.0 * b * d
    ensures var x := Div(-cc + sd, 2.0 * b); b * x * x + cc * x + d == 0.0
  {
    var x := (-cc + sd) / (2.0 * b);
    assert 2.0 * b * x == -cc + sd;
    QuadraticIdentity(b, cc, d, sd, x);
  }

  lemma QuadraticIdentity(b: real, cc: real, d: real, sd: real, x: real)
    requires b != 0.0
    requires 2.0 * b * x == -cc + sd
    requires sd * sd == cc * cc - 4.0 * b * d
    ensures b * x * x + cc * x + d == 0.0
  {
    var y := 2.0 * b * x;
    assert 4.0 * b * (b * x * x + cc * x + d) == y * y + 2.0 * cc * y + 4.0 * b * d;
    assert y * y + 2.0 * cc * y + 4.0 * b * d == (-cc + sd) * (-cc + sd) + 2.0 * cc * (-cc + sd) + 4.0 * b * d;
    assert (-cc + sd) * (-cc + sd) + 2.0 * cc * (-cc + sd) + 4.0 * b * d == sd * sd - cc * cc + 4.0 * b * d;
    ZeroProduct(4.0 * b, b * x * x + cc * x + d);
  }

  /** Axiom 7: the fold perpendicular to `line2` that brings `p` onto
      `line1`. Nothing guards against `line2` being perpendicular to
      `line1`, where the fold's distance divides by zero. */
  function Axiom7(c: Config, paper: Rectangle, p: Vector, line1: Line, line2: Line): (r: Option<Line>)
    requires paper.sides.Some?
    ensures r.Some? ==> paper.Encloses(c.eps, r.value.Reflection(p)) && Contains(c, paper, r.value)
    ensures r.Some? ==> r.value.unitNormal.Dot(line2.unitNormal) == 0.0
    ensures r.Some? && line2.unitNormal.RotatedBy90().Dot(line1.unitNormal) != 0.0 ==>
      line1.Has(r.value.Reflection(p))
  {
    var fold := Axiom7Fold(p, line1, line2);
    if paper.Encloses(c.eps, fold.Reflection(p)) && Contains(c, paper, fold) then Some(fold) else None
  }

  /** The fold axiom 7 proposes before the paper is consulted. */
  function Axiom7Fold(p: Vector, line1: Line, line2: Line): (fold: Line)
    ensures fold.unitNormal.Dot(line2.unitNormal) == 0.0
    ensures line2.unitNormal.RotatedBy90().Dot(line1.unitNormal) != 0.0 ==>
      line1.Has(fold.Reflection(p))
  {
    var u1 := line1.unitNormal;
    var u2 := line2.unitNormal;
    var u2P := u2.RotatedBy90();
    var foldDistance := Div(line1.distance - p.Dot(u1), 2.0 * u2P.Dot(u1)) + p.Dot(u2P);
    SignedPerpendicular(u2);
    DotSymmetric(u2P, u2);
    DotSymmetric(Scale(u2P, -1.0), u2);
    CanonicalReflection(foldDistance, u2P, p);
    Axiom7Reflects(p, line1, u2P, foldDistance);
    FromUnitNormal(foldDistance, u2P)
  }

  lemma Axiom7Reflects(p: Vector, line1: Line, n: Vector, foldDistance: real)
    requires foldDistance == Div(line1.distance - p.Dot(line1.unitNormal), 2.0 * n.Dot(line1.unitNormal)) + p.Dot(n)
    ensures n.Dot(line1.unitNormal) != 0.0 ==> line1.Has(Line(foldDistance, n).Reflection(p))
  {
    if n.Dot(line1.unitNormal) != 0.0 {
      Axiom7ReflectsOnto(p, line1, n, foldDistance);
    }
  }

  lemma Axiom7ReflectsOnto(p: Vector, line1: Line, n: Vector, foldDistance: real)
    requires n.Dot(line1.unitNormal) != 0.0
    requires foldDistance == Div(line1.distance - p.Dot(line1.unitNormal), 2.0 * n.Dot(line1.unitNormal)) + p.Dot(n)
    ensures line1.Has(Line(foldDistance, n).Reflection(p))
  {
    var u1 := line1.unitNormal;
    var t := foldDistance - p.Dot(n);
    DivTimes(line1.distance - p.Dot(u1), 2.0 * n.Dot(u1));
    assert t * (2.0 * n.Dot(u1)) == line1.distance - p.Dot(u1);
    assert Line(foldDistance, n).Reflection(p) == Vector(p.x + n.x * 2.0 * t, p.y + n.y * 2.0 * t);
    ReflectedOffset(p.x, p.y, n.x, n.y, u1.x, u1.y, line1.distance, t);
  }

  lemma ReflectedOffset(px: real, py: real, nx: real, ny: real, ux: real, uy: real, d: real, t: real)
    requires t * (2.0 * (nx * ux + ny * uy)) == d - (px * ux + py * uy)
    ensures ux * (px + nx * 2.0 * t) + uy * (py + ny * 2.0 * t) == d
  {
    calc {
      ux * (px + nx * 2.0 * t) + uy * (py + ny * 2.0 * t);
      (px * ux + py * uy) + t * (2.0 * (nx * ux + ny * uy));
    }
  }
}
