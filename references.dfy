/** Point and line references (CreasePatternAnalyzer/References.swift).

    A reference is a point or a line together with how it was obtained: a
    point is the intersection of two line references, and a line is either an
    edge of the paper (no axiom) or the fold an axiom makes from earlier
    references. The program's references are objects whose provenance fields
    are constants; here they are values, so a reference can only cite
    references built before it and the provenance is acyclic by construction.
    The fields the program writes after construction (the label and the
    matching errors) are kept by the reference finder, keyed by the bucket key
    that also decides equality. */
module References {
  import opened Wrappers
  import opened Geometry

  /** The label every new reference starts with. */
  const Unlabelled: string := "_"

  /** `PointReference`: a point made by intersecting two lines. */
  datatype PointRef = PointRef(
    point: Vector,
    firstLine: LineRef,
    secondLine: LineRef,
    rank: int,
    initialLabel: string)

  /** `LineReference`: a line and the axiom that folded it (`None` for an
      edge of the paper). */
  datatype LineRef = LineRef(
    line: Line,
    axiom: Option<Axiom>,
    rank: int,
    initialLabel: string)

  /** `Axiom`: the Huzita-Justin operation and its inputs, in the order the
      instruction names them. */
  datatype Axiom =
    | A1(p1: PointRef, p2: PointRef)
    | A2(p1: PointRef, p2: PointRef)
    | A3(l1: LineRef, l2: LineRef)
    | A4(p1: PointRef, l1: LineRef)
    | A5(p1: PointRef, l1: LineRef, p2: PointRef)
    | A6(p1: PointRef, l1: LineRef, p2: PointRef, l2: LineRef)
    | A7(p1: PointRef, l1: LineRef, l2: LineRef)

  /** `PointReference(_:_:_:_:)`: a derived point of the given rank. */
  function DerivedPoint(firstLine: LineRef, secondLine: LineRef, point: Vector, rank: int): (r: PointRef)
    ensures r.initialLabel == Unlabelled && r.rank == rank
    ensures r.point == point && r.firstLine == firstLine && r.secondLine == secondLine
  {
    PointRef(point, firstLine, secondLine, rank, Unlabelled)
  }

  /** `PointReference(_:_:_:label:)`: a corner of the paper, rank 0. */
  function SeedPoint(firstLine: LineRef, secondLine: LineRef, point: Vector, name: string): (r: PointRef)
    ensures r.initialLabel == name && r.rank == 0
    ensures r.point == point && r.firstLine == firstLine && r.secondLine == secondLine
  {
    PointRef(point, firstLine, secondLine, 0, name)
  }

  /** `LineReference(_:label:)`: an edge of the paper, with no axiom and rank 0. */
  function SeedLine(line: Line, name: string): (r: LineRef)
    ensures r.axiom == None && r.rank == 0 && r.initialLabel == name && r.line == line
  {
    LineRef(line, None, 0, name)
  }

  /** `LineReference(_:_:_:)`: a fold made by `axiom`, of the given rank. */
  function DerivedLine(line: Line, axiom: Axiom, rank: int): (r: LineRef)
    ensures r.axiom == Some(axiom) && r.rank == rank && r.initialLabel == Unlabelled && r.line == line
  {
    LineRef(line, Some(axiom), rank, Unlabelled)
  }

  /** `isNotCorner()`: a point is a corner when it is a seed, i.e. was not
      derived with a rank. */
  predicate IsNotCorner(p: PointRef) {
    p.initialLabel == Unlabelled
  }

  /** `isNotEdge()`: a line is an edge when no axiom made it. */
  predicate IsNotEdge(l: LineRef) {
    l.axiom.Some?
  }

  /** `description` of a reference with the given current label:
      `"point X"` for a one-character label, otherwise the label itself. */
  function PointDescription(name: string): (r: string)
    ensures |name| == 1 ==> r == "point " + name
    ensures |name| != 1 ==> r == name
  {
    if |name| == 1 then "point " + name else name
  }

  function LineDescription(name: string): (r: string)
    ensures |name| == 1 ==> r == "line " + name
    ensures |name| != 1 ==> r == name
  {
    if |name| == 1 then "line " + name else name
  }

  /** A description always ends with the label it describes, and distinct
      one-letter labels give distinct descriptions. */
  lemma DescriptionsEndWithLabel(a: string, b: string)
    ensures PointDescription(a)[|PointDescription(a)| - |a|..] == a
    ensures LineDescription(a)[|LineDescription(a)| - |a|..] == a
    ensures |a| == 1 && |b| == 1 && PointDescription(a) == PointDescription(b) ==> a == b
    ensures |a| == 1 && |b| == 1 && LineDescription(a) == LineDescription(b) ==> a == b
  {
    if |a| == 1 && |b| == 1 {
      assert a == ("point " + a)[6..] && b == ("point " + b)[6..];
      assert a == ("line " + a)[5..] && b == ("line " + b)[5..];
    }
  }

  /** `hashValue` and `isEqual`: a reference is identified by the bucket key
      of its geometry alone, whatever its provenance, rank or label. */
  function PointRefKey(c: Config, p: PointRef): int {
    PointKey(c, p.point)
  }

  predicate PointRefEq(c: Config, a: PointRef, b: PointRef) {
    PointEq(c, a.point, b.point)
  }

  function LineRefKey(c: Config, l: LineRef): int {
    LineKey(c, l.line)
  }

  predicate LineRefEq(c: Config, a: LineRef, b: LineRef) {
    LineEq(c, a.line, b.line)
  }

  /** Reference equality is an equivalence that agrees with the hash and
      ignores everything but the geometry. */
  lemma RefEqualityIsKeyEquality(c: Config, a: PointRef, b: PointRef, l: LineRef, k: LineRef)
    ensures PointRefEq(c, a, b) <==> PointRefKey(c, a) == PointRefKey(c, b)
    ensures LineRefEq(c, l, k) <==> LineRefKey(c, l) == LineRefKey(c, k)
    ensures PointRefEq(c, a, a) && LineRefEq(c, l, l)
    ensures PointRefEq(c, a, b) ==> PointRefEq(c, b, a)
    ensures PointRefEq(c, a, b) ==> PointRefEq(c, a.(rank := 0, initialLabel := Unlabelled), b)
  {
  }

  /** The point inputs of an axiom, in the order the instruction names them. */
  function AxiomPoints(a: Axiom): (r: seq<PointRef>)
    ensures |r| == match a
      case A1(_, _) => 2 case A2(_, _) => 2 case A3(_, _) => 0 case A4(_, _) => 1
      case A5(_, _, _) => 2 case A6(_, _, _, _) => 2 case A7(_, _, _) => 1
  {
    match a
    case A1(p1, p2) => [p1, p2]
    case A2(p1, p2) => [p1, p2]
    case A3(_, _) => []
    case A4(p1, _) => [p1]
    case A5(p1, _, p2) => [p1, p2]
    case A6(p1, _, p2, _) => [p1, p2]
    case A7(p1, _, _) => [p1]
  }

  /** The line inputs of an axiom, in the order the instruction names them. */
  function AxiomLines(a: Axiom): (r: seq<LineRef>)
    ensures |r| == match a
      case A1(_, _) => 0 case A2(_, _) => 0 case A3(_, _) => 2 case A4(_, _) => 1
      case A5(_, _, _) => 1 case A6(_, _, _, _) => 2 case A7(_, _, _) => 2
  {
    match a
    case A1(_, _) => []
    case A2(_, _) => []
    case A3(l1, l2) => [l1, l2]
    case A4(_, l1) => [l1]
    case A5(_, l1, _) => [l1]
    case A6(_, l1, _, l2) => [l1, l2]
    case A7(_, l1, l2) => [l1, l2]
  }

  /** The length of the longest provenance chain below a reference. */
  function PointDepth(p: PointRef): nat
    decreases p, 2
  {
    1 + MaxNat(LineDepth(p.firstLine), LineDepth(p.secondLine))
  }

  function LineDepth(l: LineRef): nat
    decreases l, 1
  {
    match l.axiom
    case None => 0
    case Some(a) => 1 + AxiomDepth(a)
  }

  function AxiomDepth(a: Axiom): nat
    decreases a, 0
  {
    match a
    case A1(p1, p2) => MaxNat(PointDepth(p1), PointDepth(p2))
    case A2(p1, p2) => MaxNat(PointDepth(p1), PointDepth(p2))
    case A3(l1, l2) => MaxNat(LineDepth(l1), LineDepth(l2))
    case A4(p1, l1) => MaxNat(PointDepth(p1), LineDepth(l1))
    case A5(p1, l1, p2) => MaxNat(MaxNat(PointDepth(p1), LineDepth(l1)), PointDepth(p2))
    case A6(p1, l1, p2, l2) =>
      MaxNat(MaxNat(PointDepth(p1), LineDepth(l1)), MaxNat(PointDepth(p2), LineDepth(l2)))
    case A7(p1, l1, l2) => MaxNat(MaxNat(PointDepth(p1), LineDepth(l1)), LineDepth(l2))
  }

  function MaxNat(a: nat, b: nat): (r: nat)
    ensures a <= r && b <= r && (r == a || r == b)
  {
    if a <= b then b else a
  }

  /** Every input a reference cites lies strictly deeper down the provenance:
      no reference cites itself, directly or through other references. */
  lemma InputsAreShallower(l: LineRef)
    requires l.axiom.Some?
    ensures forall p <- AxiomPoints(l.axiom.value) :: PointDepth(p) < LineDepth(l)
    ensures forall k <- AxiomLines(l.axiom.value) :: LineDepth(k) < LineDepth(l)
    ensures l !in AxiomLines(l.axiom.value)
  {
  }

  lemma LinesOfPointAreShallower(p: PointRef)
    ensures LineDepth(p.firstLine) < PointDepth(p) && LineDepth(p.secondLine) < PointDepth(p)
  {
  }
}
