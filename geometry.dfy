/** Points, vectors and lines in normal form
    (CreasePatternAnalyzer/Models/PointVector.swift and
    CreasePatternAnalyzer/Models/Line.swift).

    Both types are values. The program reads its tolerances and grid sizes
    from the global reference finder; here they arrive in a `Config`. */
module Geometry {
  import opened Libm
  import opened Wrappers

  /** The settings of the reference finder that geometry, paper and axioms
      read: libm, the tolerance epsilon, the paper's size (for the bucket
      keys), the bucket grid, the flap aspect-ratio bound and the minimum
      intersection angle. */
  datatype Config = Config(
    libm: Libm,
    eps: real,
    paperWidth: real,
    paperHeight: real,
    numX: int,
    numY: int,
    numRadius: int,
    numAngle: int,
    maxAspectRatio: real,
    minAngle: real)

  /** `PointVector`: a point or a vector of the plane. */
  datatype Vector = Vector(x: real, y: real) {

    function MagnitudeSquared(): real {
      x * x + y * y
    }

    function Dot(p: Vector): real {
      x * p.x + y * p.y
    }

    function Magnitude(m: Libm): real {
      m.sqrt(MagnitudeSquared())
    }

    /** Counterclockwise rotation by `angle` radians. */
    function RotatedBy(m: Libm, angle: real): Vector {
      var sn := m.sin(angle);
      var cs := m.cos(angle);
      Vector(x * cs - y * sn, x * sn + y * cs)
    }

    /** Counterclockwise rotation by a right angle. */
    function RotatedBy90(): Vector {
      Vector(-y, x)
    }

    function Normalized(m: Libm): Vector {
      var mag := Magnitude(m);
      Vector(Div(x, mag), Div(y, mag))
    }

    /** Components closer to zero than `eps` become zero. */
    function Chopped(eps: real): (r: Vector)
      ensures Abs(x) < eps ==> r.x == 0.0
      ensures eps <= Abs(x) ==> r.x == x
      ensures Abs(y) < eps ==> r.y == 0.0
      ensures eps <= Abs(y) ==> r.y == y
    {
      Vector(if Abs(x) < eps then 0.0 else x, if Abs(y) < eps then 0.0 else y)
    }
  }

  // Binary operators: componentwise, and with a scalar applied to both components.

  function Add(a: Vector, b: Vector): Vector { Vector(a.x + b.x, a.y + b.y) }
  function Sub(a: Vector, b: Vector): Vector { Vector(a.x - b.x, a.y - b.y) }
  function Mul(a: Vector, b: Vector): Vector { Vector(a.x * b.x, a.y * b.y) }
  function Quot(a: Vector, b: Vector): Vector { Vector(Div(a.x, b.x), Div(a.y, b.y)) }
  function AddScalar(a: Vector, d: real): Vector { Vector(a.x + d, a.y + d) }
  function SubScalar(a: Vector, d: real): Vector { Vector(a.x - d, a.y - d) }
  function Scale(a: Vector, d: real): Vector { Vector(a.x * d, a.y * d) }
  function DivScalar(a: Vector, d: real): Vector { Vector(Div(a.x, d), Div(a.y, d)) }

  /** The four compound assignments update `left` one component at a time. */
  method AddAssign(left: Vector, right: Vector) returns (left': Vector)
    ensures left' == Add(left, right)
    ensures Sub(left', right) == left
  {
    left' := left;
    left' := left'.(x := left'.x + right.x);
    left' := left'.(y := left'.y + right.y);
  }

  method SubAssign(left: Vector, right: Vector) returns (left': Vector)
    ensures left' == Sub(left, right)
    ensures Add(left', right) == left
  {
    left' := left;
    left' := left'.(x := left'.x - right.x);
    left' := left'.(y := left'.y - right.y);
  }

  method MulAssign(left: Vector, right: Vector) returns (left': Vector)
    ensures left' == Mul(left, right)
  {
    left' := left;
    left' := left'.(x := left'.x * right.x);
    left' := left'.(y := left'.y * right.y);
  }

  method DivAssign(left: Vector, right: Vector) returns (left': Vector)
    ensures left' == Quot(left, right)
    ensures right.x != 0.0 && right.y != 0.0 ==> Mul(left', right) == left
  {
    left' := left;
    left' := left'.(x := Div(left'.x, right.x));
    left' := left'.(y := Div(left'.y, right.y));
  }

  /** `chop()`: the in-place form of `Chopped`. */
  method Chop(eps: real, v: Vector) returns (v': Vector)
    ensures v' == v.Chopped(eps)
  {
    v' := v;
    if Abs(v'.x) < eps { v' := v'.(x := 0.0); }
    if Abs(v'.y) < eps { v' := v'.(y := 0.0); }
  }

  lemma ChoppedIdempotent(eps: real, v: Vector)
    ensures v.Chopped(eps).Chopped(eps) == v.Chopped(eps)
  {
  }

  lemma AddThenSub(a: Vector, b: Vector)
    ensures Sub(Add(a, b), b) == a
    ensures Add(Sub(a, b), b) == a
  {
  }

  lemma DotSymmetric(a: Vector, b: Vector)
    ensures a.Dot(b) == b.Dot(a)
  {
  }

  /** The right-angle rotation is perpendicular to the vector and keeps its length. */
  lemma RotatedBy90Perpendicular(v: Vector)
    ensures v.RotatedBy90().Dot(v) == 0.0
    ensures v.RotatedBy90().MagnitudeSquared() == v.MagnitudeSquared()
  {
  }

  lemma RotatedBy90FourTimes(v: Vector)
    ensures v.RotatedBy90().RotatedBy90() == Scale(v, -1.0)
    ensures v.RotatedBy90().RotatedBy90().RotatedBy90().RotatedBy90() == v
  {
  }

  ghost predicate IsUnit(v: Vector) {
    v.MagnitudeSquared() == 1.0
  }

  /** With the square-root law, `normalized` of a non-zero vector has length 1
      and points the same way. */
  lemma NormalizedIsUnit(m: Libm, v: Vector)
    requires SqrtLaw(m)
    requires v != Vector(0.0, 0.0)
    ensures IsUnit(v.Normalized(m))
    ensures Scale(v.Normalized(m), v.Magnitude(m)) == v
  {
    var s := v.Magnitude(m);
    assert s * s == v.x * v.x + v.y * v.y;
    NonzeroLength(v.x, v.y, s);
    DividedByLength(v.x, v.y, s);
  }

  /** A square root of a non-zero vector's squared length is not zero. */
  lemma NonzeroLength(x: real, y: real, s: real)
    requires x != 0.0 || y != 0.0
    requires s * s == x * x + y * y
    ensures s != 0.0
  {
    if s == 0.0 {
      SquaresVanish(x, y);
    }
  }

  lemma SquaresVanish(x: real, y: real)
    requires x * x + y * y == 0.0
    ensures x == 0.0 && y == 0.0
  {
    SquareSign(x);
    SquareSign(y);
    ZeroProduct(x, x);
    ZeroProduct(y, y);
  }

  /** Dividing both components by a square root `s` of the squared length
      gives length 1, and multiplying back restores them. */
  lemma DividedByLength(x: real, y: real, s: real)
    requires s != 0.0
    requires s * s == x * x + y * y
    ensures Div(x, s) * Div(x, s) + Div(y, s) * Div(y, s) == 1.0
    ensures Div(x, s) * s == x && Div(y, s) * s == y
  {
    var a, b := x / s, y / s;
    assert a * s == x && b * s == y;
    ScaledSquares(a, b, s, x, y);
    CancelSquare(a * a + b * b, 1.0, s);
  }

  lemma ScaledSquares(a: real, b: real, s: real, x: real, y: real)
    requires a * s == x && b * s == y
    requires s * s == x * x + y * y
    ensures (a * a + b * b) * (s * s) == 1.0 * (s * s)
  {
    calc {
      (a * a + b * b) * (s * s);
      (a * s) * (a * s) + (b * s) * (b * s);
      x * x + y * y;
      s * s;
      1.0 * (s * s);
    }
  }

  /** A non-zero square can be cancelled from both sides. */
  lemma CancelSquare(k: real, j: real, s: real)
    requires s != 0.0
    requires k * (s * s) == j * (s * s)
    ensures k == j
  {
    DifferenceTimes(k, j, s * s);
    ZeroProduct(k - j, s * s);
    if s * s == 0.0 {
      ZeroProduct(s, s);
    }
  }

  lemma DifferenceTimes(k: real, j: real, u: real)
    requires k * u == j * u
    ensures (k - j) * u == 0.0
  {
  }

  lemma ZeroProduct(a: real, b: real)
    requires a * b == 0.0
    ensures a == 0.0 || b == 0.0
  {
  }

  lemma SquareSign(a: real)
    ensures 0.0 <= a * a
    ensures a != 0.0 ==> 0.0 < a * a
  {
    if a < 0.0 {
      assert a * a == (-a) * (-a);
    }
  }

  /** The bucket coordinates of a point on the grid that covers the paper. */
  function BucketX(c: Config, p: Vector): int {
    Floor(0.5 + Div(p.x, c.paperWidth) * c.numX as real)
  }

  function BucketY(c: Config, p: Vector): int {
    Floor(0.5 + Div(p.y, c.paperHeight) * c.numY as real)
  }

  /** `PointVector.hashValue` as written: `1 + nx*numY + ny`. Row `ny` runs
      over `0...numY` for points on the paper, `numY + 1` values, so the top
      cell of one column shares its hash with the bottom cell of the next. */
  function PointHashAsWritten(c: Config, p: Vector): int {
    1 + BucketX(c, p) * c.numY + BucketY(c, p)
  }

  /** The bucket key the rest of the model uses: rows are `numY + 1` apart. */
  function PointKey(c: Config, p: Vector): int {
    1 + BucketX(c, p) * (c.numY + 1) + BucketY(c, p)
  }

  /** Point equality as the model uses it: the two points have the same
      corrected key, so on the paper they fall in the same bucket. The
      program's `==` compares `PointHashAsWritten` instead, which also
      equates some points of distinct buckets. */
  predicate PointEq(c: Config, a: Vector, b: Vector) {
    PointKey(c, a) == PointKey(c, b)
  }

  /** On the paper (rows `0..numY`), the key identifies the bucket exactly. */
  lemma {:induction false} PointKeyIsBucket(c: Config, a: Vector, b: Vector)
    requires 0 <= c.numY
    requires 0 <= BucketY(c, a) <= c.numY && 0 <= BucketY(c, b) <= c.numY
    ensures PointEq(c, a, b) <==> BucketX(c, a) == BucketX(c, b) && BucketY(c, a) == BucketY(c, b)
  {
    if PointEq(c, a, b) {
      RowMajorInjective(BucketX(c, a), BucketY(c, a), BucketX(c, b), BucketY(c, b), c.numY + 1);
    }
  }

  lemma RowMajorInjective(xa: int, ya: int, xb: int, yb: int, n: int)
    requires 0 <= ya < n && 0 <= yb < n
    requires xa * n + ya == xb * n + yb
    ensures xa == xb && ya == yb
  {
    assert (xa - xb) * n == yb - ya;
    if xa > xb {
      AtLeastOnce(xa - xb, n);
    } else if xa < xb {
      AtLeastOnce(xb - xa, n);
    }
  }

  lemma AtLeastOnce(k: int, n: int)
    requires 1 <= k && 0 <= n
    ensures n <= k * n
  {
    assert k * n == (k - 1) * n + n;
    assert 0 <= (k - 1) * n;
  }

  /** The collision of the as-written hash: on the unit square with the
      default 5000 x 5000 grid, the top-edge point (0.5, 1) and the
      bottom-edge point (0.5002, 0) get the same hash, so `==` calls them
      equal although they lie a whole paper height apart. */
  lemma PointHashAsWrittenCollides(m: Libm)
    ensures var c := Config(m, 0.00000001, 1.0, 1.0, 5000, 5000, 5000, 5000, 10.0, 5.0);
      && PointHashAsWritten(c, Vector(0.5, 1.0)) == PointHashAsWritten(c, Vector(0.5002, 0.0))
      && !PointEq(c, Vector(0.5, 1.0), Vector(0.5002, 0.0))
  {
    var c := Config(m, 0.00000001, 1.0, 1.0, 5000, 5000, 5000, 5000, 10.0, 5.0);
    assert BucketX(c, Vector(0.5, 1.0)) == 2500;
    assert BucketY(c, Vector(0.5, 1.0)) == 5000;
    assert BucketX(c, Vector(0.5002, 0.0)) == 2501;
    assert BucketY(c, Vector(0.5002, 0.0)) == 0;
  }

  /** `Line`: the points `p` with `unitNormal . p == distance`. */
  datatype Line = Line(distance: real, unitNormal: Vector) {

    ghost predicate Has(p: Vector) {
      unitNormal.Dot(p) == distance
    }

    /** `y(fromX:)` */
    function YFromX(x: real): (r: real)
      ensures unitNormal.y != 0.0 ==> Has(Vector(x, r))
    {
      Div(distance - x * unitNormal.x, unitNormal.y)
    }

    /** `x(fromY:)` */
    function XFromY(y: real): (r: real)
      ensures unitNormal.x != 0.0 ==> Has(Vector(r, y))
    {
      Div(distance - y * unitNormal.y, unitNormal.x)
    }

    function Reflection(p: Vector): Vector {
      Add(p, Scale(Scale(unitNormal, 2.0), distance - p.Dot(unitNormal)))
    }

    function Projection(p: Vector): Vector {
      Add(p, Scale(unitNormal, distance - p.Dot(unitNormal)))
    }

    predicate IsParallel(eps: real, line: Line) {
      Abs(unitNormal.Dot(line.unitNormal.RotatedBy90())) < eps
    }

    predicate Contains(eps: real, p: Vector) {
      DistanceTo(p) < eps
    }

    function DistanceTo(p: Vector): (r: real)
      ensures 0.0 <= r
      ensures r == 0.0 <==> Has(p)
    {
      Abs(distance - p.Dot(unitNormal))
    }
  }

  /** The sign normalisation every initialiser ends with: a negative distance
      is negated together with the normal. */
  function Canonical(distance: real, normal: Vector): (l: Line)
    ensures 0.0 <= l.distance && l.distance == Abs(distance)
    ensures l == Line(distance, normal) || l == Line(-distance, Scale(normal, -1.0))
    ensures forall p: Vector :: l.Has(p) <==> Line(distance, normal).Has(p)
  {
    if distance < 0.0 then Line(-distance, Scale(normal, -1.0)) else Line(distance, normal)
  }

  lemma OnCanonical(d: real, n: Vector, p: Vector)
    requires n.Dot(p) == d
    ensures Canonical(d, n).Has(p)
  {
    assert Line(d, n).Has(p);
  }

  /** `Line(_:_:)`: the line through two points (meant to be distinct). */
  function LineThrough(m: Libm, p1: Vector, p2: Vector): (l: Line)
    ensures 0.0 <= l.distance
    ensures l.Has(p1) && l.Has(p2)
  {
    var n := Sub(p1, p2).Normalized(m).RotatedBy90();
    ChordPerpendicular(m, p1, p2);
    ThroughBoth(p1, p2, n);
    Canonical(p1.Dot(n), n)
  }

  lemma ThroughBoth(p1: Vector, p2: Vector, n: Vector)
    requires p2.Dot(n) == p1.Dot(n)
    ensures Canonical(p1.Dot(n), n).Has(p1) && Canonical(p1.Dot(n), n).Has(p2)
  {
    OnCanonical(p1.Dot(n), n, p1);
    OnCanonical(p1.Dot(n), n, p2);
  }

  /** The rotated direction of `p1 - p2` is perpendicular to it, so both
      points have the same offset along it. */
  lemma ChordPerpendicular(m: Libm, p1: Vector, p2: Vector)
    ensures p2.Dot(Sub(p1, p2).Normalized(m).RotatedBy90()) == p1.Dot(Sub(p1, p2).Normalized(m).RotatedBy90())
  {
    NormalPerpendicular(m, Sub(p1, p2));
    DotOffset(p1, p2, Sub(p1, p2).Normalized(m).RotatedBy90());
  }

  lemma NormalPerpendicular(m: Libm, v: Vector)
    ensures v.Dot(v.Normalized(m).RotatedBy90()) == 0.0
  {
    var mag := v.Magnitude(m);
    assert v.Normalized(m).RotatedBy90() == Vector(-Div(v.y, mag), Div(v.x, mag));
    ScaledPerpendicular(v, mag);
  }

  /** `v` is perpendicular to its right-angle rotation divided by any `mag`. */
  lemma ScaledPerpendicular(v: Vector, mag: real)
    ensures v.Dot(Vector(-Div(v.y, mag), Div(v.x, mag))) == 0.0
  {
    CrossOfScaled(v.x, v.y, mag);
  }

  lemma DotOffset(p1: Vector, p2: Vector, n: Vector)
    requires Sub(p1, p2).Dot(n) == 0.0
    ensures p2.Dot(n) == p1.Dot(n)
  {
  }

  lemma CrossOfScaled(x: real, y: real, mag: real)
    ensures x * (-Div(y, mag)) + y * Div(x, mag) == 0.0
  {
    if mag != 0.0 {
      var a, b := x / mag, y / mag;
      assert a * mag == x && b * mag == y;
      assert y * a == (b * mag) * a == (a * mag) * b == x * b;
    }
  }

  /** `Line(distance:unitNormal:)` */
  function FromUnitNormal(distance: real, unitNormal: Vector): (l: Line)
    ensures 0.0 <= l.distance && l.distance == Abs(distance)
    ensures l.unitNormal == unitNormal || l.unitNormal == Scale(unitNormal, -1.0)
    ensures forall p: Vector :: l.Has(p) <==> unitNormal.Dot(p) == distance
  {
    Canonical(distance, unitNormal)
  }

  /** `Line(distance:normal:)` */
  function FromNormal(m: Libm, distance: real, normal: Vector): (l: Line)
    ensures 0.0 <= l.distance && l.distance == Abs(distance)
    ensures l.unitNormal == normal.Normalized(m) || l.unitNormal == Scale(normal.Normalized(m), -1.0)
  {
    Canonical(distance, normal.Normalized(m))
  }

  /** `Line(point:unitNormal:)` */
  function AtPoint(point: Vector, unitNormal: Vector): (l: Line)
    ensures 0.0 <= l.distance
    ensures l.Has(point)
    ensures l.unitNormal == unitNormal || l.unitNormal == Scale(unitNormal, -1.0)
  {
    Canonical(unitNormal.Dot(point), unitNormal)
  }

  /** `Line(point:normal:)` */
  function AtPointNormal(m: Libm, point: Vector, normal: Vector): (l: Line)
    ensures 0.0 <= l.distance
    ensures l.Has(point)
    ensures l.unitNormal == normal.Normalized(m) || l.unitNormal == Scale(normal.Normalized(m), -1.0)
  {
    var n := normal.Normalized(m);
    Canonical(n.Dot(point), n)
  }

  /** Negating distance and normal together changes no reflection. */
  lemma CanonicalReflection(distance: real, normal: Vector, p: Vector)
    ensures Canonical(distance, normal).Reflection(p) == Line(distance, normal).Reflection(p)
  {
  }

  /** With a unit normal, reflecting twice gives the point back. */
  lemma ReflectionInvolution(l: Line, p: Vector)
    requires IsUnit(l.unitNormal)
    ensures l.Reflection(l.Reflection(p)) == p
  {
    var n := l.unitNormal;
    var t := l.distance - p.Dot(n);
    var q := l.Reflection(p);
    assert q == Vector(p.x + 2.0 * t * n.x, p.y + 2.0 * t * n.y);
    assert q.Dot(n) == p.Dot(n) + 2.0 * t * (n.x * n.x + n.y * n.y);
    assert l.distance - q.Dot(n) == -t;
  }

  /** Reflection leaves the points of the line where they are. */
  lemma ReflectionFixesLine(l: Line, p: Vector)
    requires l.Has(p)
    ensures l.Reflection(p) == p
  {
  }

  /** With a unit normal, the projection of a point lies on the line. */
  lemma ProjectionOnLine(l: Line, p: Vector)
    requires IsUnit(l.unitNormal)
    ensures l.Has(l.Projection(p))
  {
    var n := l.unitNormal;
    var t := l.distance - p.Dot(n);
    assert l.Projection(p).Dot(n) == p.Dot(n) + t * (n.x * n.x + n.y * n.y);
  }

  /** `hashValue` of a line: a quantised angle and a quantised distance.
      The doubled angle folds a line through the origin onto its opposite. */
  function LineKey(c: Config, l: Line): int {
    var m := c.libm;
    var fa := 1.0 + Div(m.atan2(l.unitNormal.y, l.unitNormal.x), 2.0 * Pi);
    var maxD := m.sqrt(m.pow(c.paperWidth, 2.0) + m.pow(c.paperHeight, 2.0));
    var nd := Floor(0.5 + Div(l.distance, maxD) * c.numRadius as real);
    var fa' := if nd == 0 then FmodOne(2.0 * fa) else fa;
    var na := Floor(0.5 + fa' * c.numAngle as real);
    1 + na * c.numRadius + nd
  }

  /** Line `==`: the two lines fall in the same bucket. */
  predicate LineEq(c: Config, a: Line, b: Line) {
    LineKey(c, a) == LineKey(c, b)
  }

  /** The angle in degrees between the normals of two lines. */
  function Angle(m: Libm, first: Line, second: Line): real {
    m.acos(first.unitNormal.Dot(second.unitNormal)) * Div(180.0, Pi)
  }

  /** The line `-` operator: the shift and the angle between two lines. */
  function Difference(m: Libm, first: Line, second: Line): (r: (real, real))
    ensures 0.0 <= r.0
    ensures r.1 == Angle(m, first, second)
  {
    (Abs(first.distance - first.unitNormal.Dot(second.unitNormal) * second.distance),
     Angle(m, first, second))
  }

  /** The determinant of the two normals; `x1*y2 - y1*x2`. */
  function Denominator(first: Line, second: Line): real {
    first.unitNormal.x * second.unitNormal.y - first.unitNormal.y * second.unitNormal.x
  }

  /** Cramer's rule; no point for (nearly) parallel lines. */
  function Intersection(eps: real, first: Line, second: Line): (r: Option<Vector>)
    ensures r.None? <==> first.IsParallel(eps, second)
    ensures r.Some? && 0.0 < eps ==> Denominator(first, second) != 0.0
    ensures r.Some? && 0.0 < eps ==> first.Has(r.value) && second.Has(r.value)
  {
    if first.IsParallel(eps, second) then None
    else
      var den := Denominator(first, second);
      var x := Div(first.distance * second.unitNormal.y - second.distance * first.unitNormal.y, den);
      var y := Div(second.distance * first.unitNormal.x - first.distance * second.unitNormal.x, den);
      CramerSolves(first, second, eps, x, y);
      Some(Vector(x, y))
  }

  lemma CramerSolves(first: Line, second: Line, eps: real, x: real, y: real)
    requires !first.IsParallel(eps, second)
    requires x == Div(first.distance * second.unitNormal.y - second.distance * first.unitNormal.y,
                      Denominator(first, second))
    requires y == Div(second.distance * first.unitNormal.x - first.distance * second.unitNormal.x,
                      Denominator(first, second))
    ensures 0.0 < eps ==> Denominator(first, second) != 0.0
    ensures 0.0 < eps ==> first.Has(Vector(x, y)) && second.Has(Vector(x, y))
  {
    var den := Denominator(first, second);
    assert first.unitNormal.Dot(second.unitNormal.RotatedBy90()) == -den;
    if 0.0 < eps {
      assert den != 0.0;
      var a, b := first.unitNormal, second.unitNormal;
      var d1, d2 := first.distance, second.distance;
      assert x * den == d1 * b.y - d2 * a.y;
      assert y * den == d2 * a.x - d1 * b.x;
      assert (a.x * x + a.y * y) * den == d1 * den by {
        calc {
          (a.x * x + a.y * y) * den;
          a.x * (x * den) + a.y * (y * den);
          a.x * (d1 * b.y - d2 * a.y) + a.y * (d2 * a.x - d1 * b.x);
          d1 * den;
        }
      }
      assert (b.x * x + b.y * y) * den == d2 * den by {
        calc {
          (b.x * x + b.y * y) * den;
          b.x * (x * den) + b.y * (y * den);
          b.x * (d1 * b.y - d2 * a.y) + b.y * (d2 * a.x - d1 * b.x);
          d2 * den;
        }
      }
    }
  }

  /** `intersection(angleConstraint:_:_:)`: no point when the lines meet at
      less than `minAngle` degrees. */
  function IntersectionWithAngle(c: Config, minAngle: real, first: Line, second: Line): (r: Option<Vector>)
    ensures Angle(c.libm, first, second) < minAngle ==> r == None
    ensures minAngle <= Angle(c.libm, first, second) ==> r == Intersection(c.eps, first, second)
  {
    if Angle(c.libm, first, second) >= minAngle then Intersection(c.eps, first, second) else None
  }
}
