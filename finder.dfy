/** The reference finder's state (Models/ReferenceFinder.swift) and the
    records the instruction builder produces (Models/Diagram.swift).

    The program keeps one shared finder object; every engine operation reads
    and updates its fields. The labels and the matching errors that the
    program stores inside each reference object are kept here, in maps from
    the reference's bucket key (the key that also decides reference
    equality) to the value. */
module Finder {
  import opened Libm
  import opened Wrappers
  import opened Geometry
  import opened References
  import opened Paper

  /** The order in which each rank runs the axioms. */
  const AxiomOrder: seq<int> := [3, 2, 7, 6, 5, 4, 1]

  /** The label pools; labels are taken from the end. */
  const PointLabelPool: string := "LKJIHGFEDCBA"
  const LineLabelPool: string := "ZYXWVUTSRQPO"

  /** Every axiom runs exactly once per rank. */
  lemma AxiomOrderIsPermutation()
    ensures |AxiomOrder| == 7
    ensures forall a :: a in AxiomOrder <==> 1 <= a <= 7
    ensures forall i, j :: 0 <= i < j < |AxiomOrder| ==> AxiomOrder[i] != AxiomOrder[j]
  {
  }

  /** The pools hold twelve distinct letters each, share none, never hold
      the unlabelled marker, and hand out A, B, C, ... and O, P, Q, ... */
  lemma LabelPoolsAreDisjoint()
    ensures |PointLabelPool| == 12 && |LineLabelPool| == 12
    ensures forall i, j :: 0 <= i < j < 12 ==> PointLabelPool[i] != PointLabelPool[j]
    ensures forall i, j :: 0 <= i < j < 12 ==> LineLabelPool[i] != LineLabelPool[j]
    ensures forall ch :: ch in PointLabelPool ==> ch !in LineLabelPool
    ensures '_' !in PointLabelPool && '_' !in LineLabelPool
    ensures PointLabelPool[11] == 'A' && PointLabelPool[10] == 'B' && PointLabelPool[0] == 'L'
    ensures LineLabelPool[11] == 'O' && LineLabelPool[10] == 'P' && LineLabelPool[0] == 'Z'
  {
  }

  /** An arrow of a diagram, from where a point starts to where the fold
      takes it. Its drawing geometry is not part of this model. */
  datatype Arrow = Arrow(beginPoint: Vector, endPoint: Vector)

  /** `Diagram`: one step's picture. `fold` is absent for a step that only
      names an intersection. */
  datatype Diagram = Diagram(
    fold: Option<LineRef>,
    creases: seq<LineRef>,
    points: seq<PointRef>,
    lines: seq<LineRef>,
    arrows: seq<Arrow>)

  const EmptyDiagram: Diagram := Diagram(None, [], [], [], [])

  /** A step without a fold always names one point and its two lines. */
  predicate WellShaped(d: Diagram) {
    d.fold.None? ==> |d.lines| == 2 && |d.points| == 1
  }

  /** A reference of either kind, as `makeInstructions` handles them. */
  datatype Ref = PointR(pr: PointRef) | LineR(lr: LineRef)

  /** The references a reference cites, in the order the instruction builder
      pushes them. */
  function Inputs(r: Ref): (s: seq<Ref>)
    ensures r.PointR? ==> s == [LineR(r.pr.firstLine), LineR(r.pr.secondLine)]
    ensures r.LineR? && r.lr.axiom.None? ==> s == []
    ensures r.LineR? && r.lr.axiom.Some? ==> |s| == |AxiomPoints(r.lr.axiom.value)| + |AxiomLines(r.lr.axiom.value)|
  {
    match r
    case PointR(p) => [LineR(p.firstLine), LineR(p.secondLine)]
    case LineR(l) =>
      match l.axiom
      case None => []
      case Some(a) =>
        match a
        case A1(p1, p2) => [PointR(p1), PointR(p2)]
        case A2(p1, p2) => [PointR(p1), PointR(p2)]
        case A3(l1, l2) => [LineR(l1), LineR(l2)]
        case A4(p1, l1) => [PointR(p1), LineR(l1)]
        case A5(p1, l1, p2) => [PointR(p1), LineR(l1), PointR(p2)]
        case A6(p1, l1, p2, l2) => [PointR(p1), LineR(l1), PointR(p2), LineR(l2)]
        case A7(p1, l1, l2) => [PointR(p1), LineR(l1), LineR(l2)]
  }

  /** What the program stores in each reference object besides its
      geometry: its label and, once matched, its errors; kept here by the
      reference's bucket key. */
  datatype Marks = Marks(
    pointLabels: map<int, string>,
    lineLabels: map<int, string>,
    distanceErrors: map<int, real>,
    shiftErrors: map<int, real>,
    angleErrors: map<int, real>)

  /** No reference labelled, none matched. */
  const NoMarks: Marks := Marks(map[], map[], map[], map[], map[])

  /** The current label of a reference: what the finder last wrote for its
      key, or the label it was built with. */
  function PointLabel(c: Config, m: Marks, p: PointRef): string {
    var k := PointRefKey(c, p);
    if k in m.pointLabels then m.pointLabels[k] else p.initialLabel
  }

  function LineLabel(c: Config, m: Marks, l: LineRef): string {
    var k := LineRefKey(c, l);
    if k in m.lineLabels then m.lineLabels[k] else l.initialLabel
  }

  function Label(c: Config, m: Marks, r: Ref): string {
    match r
    case PointR(p) => PointLabel(c, m, p)
    case LineR(l) => LineLabel(c, m, l)
  }

  /** A reference whose label the finder itself has written, with a name. */
  predicate Recorded(c: Config, m: Marks, r: Ref) {
    match r
    case PointR(p) => PointRefKey(c, p) in m.pointLabels && m.pointLabels[PointRefKey(c, p)] != Unlabelled
    case LineR(l) => LineRefKey(c, l) in m.lineLabels && m.lineLabels[LineRefKey(c, l)] != Unlabelled
  }

  /** A reference that needs no instruction of its own: it is labelled, or
      it is a corner of the paper. */
  predicate Done(c: Config, m: Marks, r: Ref) {
    (r.PointR? && !IsNotCorner(r.pr)) || Label(c, m, r) != Unlabelled
  }

  /** A reference that has had its instruction: it is labelled and so is
      everything it cites (corners aside). */
  predicate Explained(c: Config, m: Marks, r: Ref) {
    Label(c, m, r) != Unlabelled && forall x <- Inputs(r) :: Done(c, m, x)
  }

  /** Every reference that has had its instruction keeps its label in the
      finder and is explained. */
  predicate AllExplained(c: Config, m: Marks, points: seq<PointRef>, lines: seq<LineRef>) {
    (forall p <- points :: Recorded(c, m, PointR(p)) && Explained(c, m, PointR(p)))
    && (forall l <- lines :: Recorded(c, m, LineR(l)) && Explained(c, m, LineR(l)))
  }

  /** Every step that folds a line has a sentence with a full stop, after
      which the steps merged into it are inserted. */
  predicate Punctuated(diagrams: seq<Diagram>, instructions: seq<string>)
    requires |diagrams| == |instructions|
  {
    forall k | 0 <= k < |diagrams| && diagrams[k].fold.Some? :: '.' in instructions[k]
  }

  /** The facts about the instructions the finder keeps: one picture per
      sentence, every picture well shaped and every fold sentence
      punctuated, and every referenced reference explained. */
  predicate Coherent(c: Config, m: Marks, points: seq<PointRef>, lines: seq<LineRef>,
                     diagrams: seq<Diagram>, instructions: seq<string>) {
    Shaped(diagrams, instructions) && AllExplained(c, m, points, lines)
  }

  /** One picture per sentence, every picture well shaped and every fold
      sentence punctuated. */
  predicate Shaped(diagrams: seq<Diagram>, instructions: seq<string>) {
    |diagrams| == |instructions|
    && (forall k | 0 <= k < |diagrams| :: WellShaped(diagrams[k]))
    && Punctuated(diagrams, instructions)
  }

  /** Labels only ever go from unlabelled to a name: a key never loses its
      entry, and an entry is unlabelled only if it already was. */
  predicate LabelsGrow(m0: Marks, m1: Marks) {
    (forall k <- m0.pointLabels :: k in m1.pointLabels)
    && (forall k <- m0.lineLabels :: k in m1.lineLabels)
    && (forall k <- m1.pointLabels :: m1.pointLabels[k] == Unlabelled ==> k in m0.pointLabels && m0.pointLabels[k] == Unlabelled)
    && (forall k <- m1.lineLabels :: m1.lineLabels[k] == Unlabelled ==> k in m0.lineLabels && m0.lineLabels[k] == Unlabelled)
  }

  /** What is labelled, recorded, done or explained stays so while labels grow. */
  lemma LabelsGrowKeep(c: Config, m0: Marks, m1: Marks, r: Ref)
    requires LabelsGrow(m0, m1)
    ensures Label(c, m0, r) != Unlabelled ==> Label(c, m1, r) != Unlabelled
    ensures Recorded(c, m0, r) ==> Recorded(c, m1, r)
    ensures Done(c, m0, r) ==> Done(c, m1, r)
    ensures Explained(c, m0, r) ==> Explained(c, m1, r)
  {
    forall x <- Inputs(r) ensures Done(c, m0, x) ==> Done(c, m1, x) {
      LabelOfGrows(c, m0, m1, x);
    }
    LabelOfGrows(c, m0, m1, r);
  }

  lemma AllExplainedGrow(c: Config, m0: Marks, m1: Marks, points: seq<PointRef>, lines: seq<LineRef>)
    requires LabelsGrow(m0, m1) && AllExplained(c, m0, points, lines)
    ensures AllExplained(c, m1, points, lines)
  {
    forall p <- points ensures Recorded(c, m1, PointR(p)) && Explained(c, m1, PointR(p)) {
      LabelsGrowKeep(c, m0, m1, PointR(p));
    }
    forall l <- lines ensures Recorded(c, m1, LineR(l)) && Explained(c, m1, LineR(l)) {
      LabelsGrowKeep(c, m0, m1, LineR(l));
    }
  }

  lemma LabelOfGrows(c: Config, m0: Marks, m1: Marks, r: Ref)
    requires LabelsGrow(m0, m1)
    ensures Label(c, m0, r) != Unlabelled ==> Label(c, m1, r) != Unlabelled
    ensures Recorded(c, m0, r) ==> Recorded(c, m1, r)
  {
  }

  /** `ReferenceFinder`: the engine's shared state. */
  class ReferenceFinder {
    /** Tolerance, bucket counts, paper size, flap and angle limits. */
    var config: Config
    var maxRank: int
    var useAxioms: seq<bool>
    var paper: Rectangle

    var numPoints: int
    var numLines: int
    var maxNumPoints: int
    var maxNumLines: int
    var maxNumMatches: int
    var maxAngleError: real
    var maxShiftError: real
    var maxDistanceError: real

    /** One set of references per rank. */
    var allPoints: seq<seq<PointRef>>
    var allLines: seq<seq<LineRef>>

    var diagrams: seq<Diagram>
    var instructions: seq<string>
    var referencedPoints: seq<PointRef>
    var referencedLines: seq<LineRef>

    /** The labels and matching errors of the references. */
    var marks: Marks

    /** The defaults: every axiom enabled, rank 6, the unit square, 5000
        buckets each way, and empty collections. */
    constructor (libm: Libm)
      ensures config == Config(libm, 0.00000001, 1.0, 1.0, 5000, 5000, 5000, 5000, 10.0, 5.0)
      ensures maxRank == 6 && useAxioms == [true, true, true, true, true, true, true]
      ensures paper == FromCorners(Vector(0.0, 0.0), Vector(1.0, 1.0))
      ensures numPoints == 0 && numLines == 0
      ensures maxNumPoints == 50000 && maxNumLines == 50000 && maxNumMatches == 15
      ensures maxAngleError == 2.0 && maxShiftError == 0.08 && maxDistanceError == 0.05
      ensures allPoints == [] && allLines == [] && diagrams == [] && instructions == []
      ensures referencedPoints == [] && referencedLines == []
      ensures marks == NoMarks
      ensures Valid()
    {
      config := Config(libm, 0.00000001, 1.0, 1.0, 5000, 5000, 5000, 5000, 10.0, 5.0);
      maxRank := 6;
      useAxioms := [true, true, true, true, true, true, true];
      paper := FromCorners(Vector(0.0, 0.0), Vector(1.0, 1.0));
      numPoints := 0;
      numLines := 0;
      maxNumPoints := 50000;
      maxNumLines := 50000;
      maxNumMatches := 15;
      maxAngleError := 2.0;
      maxShiftError := 0.08;
      maxDistanceError := 0.05;
      allPoints := [];
      allLines := [];
      diagrams := [];
      instructions := [];
      referencedPoints := [];
      referencedLines := [];
      marks := NoMarks;
    }

    /** `useAxiom(_:)`: whether axiom `axiom` (1 to 7) is enabled. */
    function UseAxiom(axiom: int): (r: bool)
      reads this
      requires |useAxioms| == 7 && 1 <= axiom <= 7
      ensures r <==> useAxioms[axiom - 1]
    {
      useAxioms[axiom - 1]
    }

    /** The facts every operation keeps. */
    predicate Valid()
      reads this
    {
      |useAxioms| == 7
      && paper.Seeded()
      && config.paperWidth == paper.Width() && config.paperHeight == paper.Height()
      && Coherent(config, marks, referencedPoints, referencedLines, diagrams, instructions)
    }
  }
}
