/** The paper and other axis-aligned rectangles
    (CreasePatternAnalyzer/Models/Rectangle.swift).

    A rectangle made from two corners also carries its four edge lines and
    the seed references for its edges and corners; one made from a single
    point (the start of a bounding box) has none, and `including` keeps
    whatever the rectangle had. */
module Paper {
  import opened Libm
  import opened Wrappers
  import opened Geometry
  import opened References

  /** The edge lines and the seed references of a rectangle. */
  datatype Sides = Sides(
    leftLine: Line,
    bottomLine: Line,
    rightLine: Line,
    topLine: Line,
    leftRef: LineRef,
    bottomRef: LineRef,
    rightRef: LineRef,
    topRef: LineRef,
    bottomLeftRef: PointRef,
    bottomRightRef: PointRef,
    topLeftRef: PointRef,
    topRightRef: PointRef)

  datatype Rectangle = Rectangle(bottomLeft: Vector, topRight: Vector, sides: Option<Sides>) {

    function Width(): real {
      topRight.x - bottomLeft.x
    }

    function Height(): real {
      topRight.y - bottomLeft.y
    }

    /** The longer side over the shorter one. */
    function AspectRatio(): (r: real)
      ensures 0.0 < Width() && 0.0 < Height() ==> 1.0 <= r
      ensures 0.0 < Width() && 0.0 < Height() ==>
        r * Min(Width(), Height()) == Max(Width(), Height())
    {
      var w, h := Width(), Height();
      if w <= h then
        AtLeastOne(h, w);
        Div(h, w)
      else
        AtLeastOne(w, h);
        Div(w, h)
    }

    /** `encloses(point:)`: inside the rectangle grown by `eps` on every side. */
    predicate Encloses(eps: real, p: Vector) {
      bottomLeft.x - eps <= p.x && p.x <= topRight.x + eps
      && bottomLeft.y - eps <= p.y && p.y <= topRight.y + eps
    }

    /** `encloses(x:)`: within the closed horizontal span, without tolerance. */
    predicate EnclosesX(x: real) {
      bottomLeft.x <= x && x <= topRight.x
    }

    /** `encloses(y:)`: within the closed vertical span, without tolerance. */
    predicate EnclosesY(y: real) {
      bottomLeft.y <= y && y <= topRight.y
    }

    /** `including(point:)`: the corners stretched just enough to reach `p`. */
    function Including(p: Vector): (r: Rectangle)
      ensures r.sides == sides
      ensures r.bottomLeft == Vector(Min(bottomLeft.x, p.x), Min(bottomLeft.y, p.y))
      ensures r.topRight == Vector(Max(topRight.x, p.x), Max(topRight.y, p.y))
      ensures r.Encloses(0.0, p)
      ensures bottomLeft.x <= topRight.x && bottomLeft.y <= topRight.y ==>
        r.Encloses(0.0, bottomLeft) && r.Encloses(0.0, topRight)
      ensures Encloses(0.0, p) ==> r == this
    {
      var blx := if bottomLeft.x > p.x then p.x else bottomLeft.x;
      var bly := if bottomLeft.y > p.y then p.y else bottomLeft.y;
      var trx := if topRight.x < p.x then p.x else topRight.x;
      var trY := if topRight.y < p.y then p.y else topRight.y;
      Rectangle(Vector(blx, bly), Vector(trx, trY), sides)
    }

    /** The corner references: bottom left, bottom right, top left, top right. */
    function Corners(): (r: seq<PointRef>)
      requires sides.Some?
      ensures |r| == 4 && r[0] == sides.value.bottomLeftRef && r[3] == sides.value.topRightRef
    {
      var s := sides.value;
      [s.bottomLeftRef, s.bottomRightRef, s.topLeftRef, s.topRightRef]
    }

    /** Carries its seed references: the corners and edges, all of rank 0,
        which the engine treats as corners and edges. */
    predicate Seeded() {
      sides.Some?
      && (forall q <- Corners() :: q.rank == 0 && !IsNotCorner(q))
      && (forall l <- Edges() :: l.rank == 0 && !IsNotEdge(l))
    }

    /** The edge references: left, bottom, right, top. */
    function Edges(): (r: seq<LineRef>)
      requires sides.Some?
      ensures |r| == 4 && r[0] == sides.value.leftRef && r[3] == sides.value.topRef
    {
      var s := sides.value;
      [s.leftRef, s.bottomRef, s.rightRef, s.topRef]
    }
  }

  /** `init(point:)`: a degenerate rectangle with no edges. */
  function AtPoint(p: Vector): (r: Rectangle)
    ensures r.sides == None && r.Width() == 0.0 && r.Height() == 0.0 && r.Encloses(0.0, p)
  {
    Rectangle(p, p, None)
  }

  /** `init(bottomLeft:topRight:)`: the four edges, with unit normals (1, 0)
      and (0, 1) at the corners' coordinates, and the four corners, each the
      meeting point of its two edges. No check that the corners are ordered. */
  function FromCorners(bottomLeft: Vector, topRight: Vector): (r: Rectangle)
    ensures r.bottomLeft == bottomLeft && r.topRight == topRight && r.sides.Some?
    ensures var s := r.sides.value;
      s.leftLine == FromUnitNormal(bottomLeft.x, Vector(1.0, 0.0))
      && s.bottomLine == FromUnitNormal(bottomLeft.y, Vector(0.0, 1.0))
      && s.rightLine == FromUnitNormal(topRight.x, Vector(1.0, 0.0))
      && s.topLine == FromUnitNormal(topRight.y, Vector(0.0, 1.0))
    ensures var s := r.sides.value;
      s.leftRef == SeedLine(s.leftLine, "the left edge")
      && s.bottomRef == SeedLine(s.bottomLine, "the bottom edge")
      && s.rightRef == SeedLine(s.rightLine, "the right edge")
      && s.topRef == SeedLine(s.topLine, "the top edge")
    ensures var s := r.sides.value;
      s.bottomLeftRef.firstLine == s.leftRef && s.bottomLeftRef.secondLine == s.bottomRef
      && s.topLeftRef.firstLine == s.leftRef && s.topLeftRef.secondLine == s.topRef
      && s.topRightRef.firstLine == s.rightRef && s.topRightRef.secondLine == s.topRef
      && s.bottomRightRef.firstLine == s.rightRef && s.bottomRightRef.secondLine == s.bottomRef
    ensures var s := r.sides.value;
      s.bottomLeftRef.point == bottomLeft && s.topRightRef.point == topRight
      && s.topLeftRef.point == Vector(bottomLeft.x, topRight.y)
      && s.bottomRightRef.point == Vector(topRight.x, bottomLeft.y)
    ensures forall q <- r.Corners() :: q.rank == 0 && !IsNotCorner(q)
    ensures forall l <- r.Edges() :: l.rank == 0 && !IsNotEdge(l)
    ensures r.Seeded()
  {
    var leftLine := FromUnitNormal(bottomLeft.x, Vector(1.0, 0.0));
    var bottomLine := FromUnitNormal(bottomLeft.y, Vector(0.0, 1.0));
    var rightLine := FromUnitNormal(topRight.x, Vector(1.0, 0.0));
    var topLine := FromUnitNormal(topRight.y, Vector(0.0, 1.0));
    var leftRef := SeedLine(leftLine, "the left edge");
    var bottomRef := SeedLine(bottomLine, "the bottom edge");
    var rightRef := SeedLine(rightLine, "the right edge");
    var topRef := SeedLine(topLine, "the top edge");
    var sides := Sides(
      leftLine, bottomLine, rightLine, topLine,
      leftRef, bottomRef, rightRef, topRef,
      SeedPoint(leftRef, bottomRef, Vector(bottomLeft.x, bottomLeft.y), "the bottom left corner"),
      SeedPoint(rightRef, bottomRef, Vector(topRight.x, bottomLeft.y), "the bottom right corner"),
      SeedPoint(leftRef, topRef, Vector(bottomLeft.x, topRight.y), "the top left corner"),
      SeedPoint(rightRef, topRef, Vector(topRight.x, topRight.y), "the top right corner"));
    Rectangle(bottomLeft, topRight, Some(sides))
  }

  /** Each corner of a rectangle made from two corners lies on both of the
      edges it cites. */
  lemma CornersOnTheirEdges(bottomLeft: Vector, topRight: Vector)
    ensures forall q <- FromCorners(bottomLeft, topRight).Corners() ::
        q.firstLine.line.Has(q.point) && q.secondLine.line.Has(q.point)
  {
    OnAxisLine(bottomLeft.x, bottomLeft.y, true);
    OnAxisLine(bottomLeft.x, topRight.y, true);
    OnAxisLine(topRight.x, bottomLeft.y, true);
    OnAxisLine(topRight.x, topRight.y, true);
    OnAxisLine(bottomLeft.y, bottomLeft.x, false);
    OnAxisLine(bottomLeft.y, topRight.x, false);
    OnAxisLine(topRight.y, bottomLeft.x, false);
    OnAxisLine(topRight.y, topRight.x, false);
  }

  /** The vertical line at `a` holds `(a, b)`; the horizontal one holds `(b, a)`. */
  lemma OnAxisLine(a: real, b: real, vertical: bool)
    ensures vertical ==> FromUnitNormal(a, Vector(1.0, 0.0)).Has(Vector(a, b))
    ensures !vertical ==> FromUnitNormal(a, Vector(0.0, 1.0)).Has(Vector(b, a))
  {
  }

  /** `init(width:height:)`: the rectangle from the origin. */
  function FromSize(width: real, height: real): (r: Rectangle)
    ensures r == FromCorners(Vector(0.0, 0.0), Vector(width, height))
    ensures r.Width() == width && r.Height() == height
  {
    FromCorners(Vector(0.0, 0.0), Vector(width, height))
  }

  /** `getBoundingBox(_:_:)` */
  function BoundingBox2(p1: Vector, p2: Vector): (r: Rectangle)
    ensures r.bottomLeft == Vector(Min(p1.x, p2.x), Min(p1.y, p2.y))
    ensures r.topRight == Vector(Max(p1.x, p2.x), Max(p1.y, p2.y))
    ensures r.Encloses(0.0, p1) && r.Encloses(0.0, p2)
  {
    AtPoint(p1).Including(p2)
  }

  /** `getBoundingBox(_:_:_:)` */
  function BoundingBox3(p1: Vector, p2: Vector, p3: Vector): (r: Rectangle)
    ensures r.bottomLeft == Vector(Min(Min(p1.x, p2.x), p3.x), Min(Min(p1.y, p2.y), p3.y))
    ensures r.topRight == Vector(Max(Max(p1.x, p2.x), p3.x), Max(Max(p1.y, p2.y), p3.y))
    ensures r.Encloses(0.0, p1) && r.Encloses(0.0, p2) && r.Encloses(0.0, p3)
  {
    AtPoint(p1).Including(p2).Including(p3)
  }

  /** Inserting into the local point set of `clip`: a point bucket-equal to
      one already present is not added. */
  function InsertPoint(c: Config, s: seq<Vector>, p: Vector): (r: seq<Vector>)
    ensures (exists q <- s :: PointEq(c, q, p)) ==> r == s
    ensures (forall q <- s :: !PointEq(c, q, p)) ==> r == s + [p]
  {
    if exists q <- s :: PointEq(c, q, p) then s else s + [p]
  }

  /** No two points of the sequence share a bucket. */
  predicate Distinct(c: Config, s: seq<Vector>) {
    forall i, j :: 0 <= i < j < |s| ==> !PointEq(c, s[i], s[j])
  }

  /** One edge's contribution to `clip`: its crossing, when there is one and
      it lies within the edge's span, is inserted. */
  function AddCrossing(c: Config, s: seq<Vector>, crossing: Option<Vector>, withinSpan: bool): (r: seq<Vector>)
    requires Distinct(c, s)
    ensures Distinct(c, r) && |r| <= |s| + 1
    ensures forall q <- r :: q in s || (crossing.Some? && withinSpan && q == crossing.value)
    ensures forall q <- s :: q in r
  {
    if crossing.Some? && withinSpan then InsertPoint(c, s, crossing.value) else s
  }

  /** `p` is where `line` meets one of the rectangle's edges, within that
      edge's span. */
  predicate Crossing(c: Config, r: Rectangle, line: Line, p: Vector)
    requires r.sides.Some?
  {
    var sd := r.sides.value;
    (Intersection(c.eps, line, sd.leftLine) == Some(p) && r.EnclosesY(p.y))
    || (Intersection(c.eps, line, sd.rightLine) == Some(p) && r.EnclosesY(p.y))
    || (Intersection(c.eps, line, sd.bottomLine) == Some(p) && r.EnclosesX(p.x))
    || (Intersection(c.eps, line, sd.topLine) == Some(p) && r.EnclosesX(p.x))
  }

  /** The edge crossings `clip` collects: the left, right, bottom and top
      edges in that order, each kept when it meets the line within that
      edge's span and is not bucket-equal to one already kept. */
  function EdgeCrossings(c: Config, r: Rectangle, line: Line): (s: seq<Vector>)
    requires r.sides.Some?
    ensures Distinct(c, s) && |s| <= 4
    ensures forall p <- s :: Crossing(c, r, line, p)
  {
    var sd := r.sides.value;
    var left := Intersection(c.eps, line, sd.leftLine);
    var right := Intersection(c.eps, line, sd.rightLine);
    var bottom := Intersection(c.eps, line, sd.bottomLine);
    var top := Intersection(c.eps, line, sd.topLine);
    var s1 := AddCrossing(c, [], left, left.Some? && r.EnclosesY(left.value.y));
    var s2 := AddCrossing(c, s1, right, right.Some? && r.EnclosesY(right.value.y));
    var s3 := AddCrossing(c, s2, bottom, bottom.Some? && r.EnclosesX(bottom.value.x));
    AddCrossing(c, s3, top, top.Some? && r.EnclosesX(top.value.x))
  }

  /** `clip(line:)`: the first two bucket-distinct edge crossings, or nothing
      when fewer than two were found. */
  function Clip(c: Config, r: Rectangle, line: Line): (res: Option<(Vector, Vector)>)
    requires r.sides.Some?
    ensures res.None? <==> |EdgeCrossings(c, r, line)| < 2
    ensures res.Some? ==> !PointEq(c, res.value.0, res.value.1)
    ensures res.Some? ==> Crossing(c, r, line, res.value.0) && Crossing(c, r, line, res.value.1)
    ensures res.Some? && 0.0 < c.eps ==> line.Has(res.value.0) && line.Has(res.value.1)
  {
    var s := EdgeCrossings(c, r, line);
    if |s| < 2 then None
    else
      OnLineWhenCrossing(c, r, line, s[0]);
      OnLineWhenCrossing(c, r, line, s[1]);
      Some((s[0], s[1]))
  }

  /** A crossing lies on the clipped line. */
  lemma OnLineWhenCrossing(c: Config, r: Rectangle, line: Line, p: Vector)
    requires r.sides.Some?
    requires p in EdgeCrossings(c, r, line)
    ensures 0.0 < c.eps ==> line.Has(p)
  {
    assert Crossing(c, r, line, p);
  }

  /** The perpendicular bisector of the chord that `clip` cuts from `line`. */
  function Bisector(line: Line, p1: Vector, p2: Vector): (b: Line)
    ensures b.unitNormal == line.unitNormal.RotatedBy90() || b.unitNormal == Scale(line.unitNormal.RotatedBy90(), -1.0)
    ensures b.Has(DivScalar(Add(p1, p2), 2.0))
  {
    var normal := line.unitNormal.RotatedBy90();
    var mid := DivScalar(Add(p1, p2), 2.0);
    FromUnitNormal(mid.Dot(normal), normal)
  }

  /** `makesSkinnyFlap(line:)`: the line cannot be clipped, its bisector
      cannot be clipped, or one of the two triangles the bisector's ends
      make with the chord is too elongated. */
  predicate MakesSkinnyFlap(c: Config, r: Rectangle, line: Line)
    requires r.sides.Some?
  {
    match Clip(c, r, line)
    case None => true
    case Some((p1, p2)) =>
      match Clip(c, r, Bisector(line, p1, p2))
      case None => true
      case Some((b1, b2)) =>
        Abs(BoundingBox3(p1, p2, b1).AspectRatio()) > c.maxAspectRatio
        || Abs(BoundingBox3(p1, p2, b2).AspectRatio()) > c.maxAspectRatio
  }

  /** `contains(line:)` */
  predicate Contains(c: Config, r: Rectangle, line: Line)
    requires r.sides.Some?
  {
    !MakesSkinnyFlap(c, r, line)
  }

  /** A line that the paper contains crosses it at two bucket-distinct
      points, its bisector does too, and both flaps are within the aspect
      bound. */
  lemma ContainedLineIsClipped(c: Config, r: Rectangle, line: Line)
    requires r.sides.Some?
    ensures Contains(c, r, line) <==>
      Clip(c, r, line).Some?
      && var (p1, p2) := Clip(c, r, line).value;
      Clip(c, r, Bisector(line, p1, p2)).Some?
      && var (b1, b2) := Clip(c, r, Bisector(line, p1, p2)).value;
      Abs(BoundingBox3(p1, p2, b1).AspectRatio()) <= c.maxAspectRatio
      && Abs(BoundingBox3(p1, p2, b2).AspectRatio()) <= c.maxAspectRatio
  {
  }

  /** `b / a` is at least one when `0 < a <= b`, and multiplies back. */
  lemma AtLeastOne(b: real, a: real)
    ensures 0.0 < a <= b ==> 1.0 <= Div(b, a) && Div(b, a) * a == b
  {
    if 0.0 < a <= b {
      var q := b / a;
      assert q * a == b;
      if q < 1.0 {
        LessTimesPositive(q, 1.0, a);
      }
    }
  }

  lemma LessTimesPositive(q: real, k: real, a: real)
    requires q < k && 0.0 < a
    ensures q * a < k * a
  {
  }
}
