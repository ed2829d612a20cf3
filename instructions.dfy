/** The instruction builder (utils.swift, `makeInstructions`,
    `clearInstructions` and `Array.remove(elements:)`): starting from one
    reference, every reference it depends on that has no label yet is
    explained first, depth first with an explicit stack, and each explained
    reference gets a label, a diagram and a sentence. */
module Instructions {
  import opened Wrappers
  import opened Geometry
  import opened References
  import opened Finder
  import Matching
  import opened Generation

  /* ---------------------------------------------------------------------
     `Array.remove(elements:)` on lines
     --------------------------------------------------------------------- */

  /** `index(of:)`: the first position holding an element equal to `x`;
      references are equal when their bucket keys are. */
  function IndexOf<X>(key: X -> int, s: seq<X>, x: X): (r: Option<nat>)
    ensures r.Some? ==> r.value < |s| && key(s[r.value]) == key(x)
    ensures r.Some? ==> forall j | 0 <= j < r.value :: key(s[j]) != key(x)
    ensures r.None? ==> forall j | 0 <= j < |s| :: key(s[j]) != key(x)
  {
    if s == [] then None
    else if key(s[0]) == key(x) then Some(0)
    else
      match IndexOf(key, s[1..], x)
      case None => None
      case Some(i) => Some(i + 1)
  }

  /** `s` without its first element equal to `x`, if any. */
  function RemoveFirst<X>(key: X -> int, s: seq<X>, x: X): seq<X> {
    match IndexOf(key, s, x)
    case None => s
    case Some(i) => s[..i] + s[i + 1..]
  }

  /** `s` after `remove(elements: xs)`: for each element of `xs` in turn,
      its first equal is removed. */
  function RemovedAll<X>(key: X -> int, s: seq<X>, xs: seq<X>): seq<X>
    decreases |xs|
  {
    if xs == [] then s else RemoveFirst(key, RemovedAll(key, s, xs[..|xs| - 1]), xs[|xs| - 1])
  }

  /** How many elements of `s` have key `k`. */
  function KeyCount<X>(key: X -> int, s: seq<X>, k: int): nat
    decreases |s|
  {
    if s == [] then 0 else KeyCount(key, s[..|s| - 1], k) + (if key(s[|s| - 1]) == k then 1 else 0)
  }

  lemma {:induction false} KeyCountAppend<X>(key: X -> int, a: seq<X>, b: seq<X>, k: int)
    ensures KeyCount(key, a + b, k) == KeyCount(key, a, k) + KeyCount(key, b, k)
    decreases |b|
  {
    if b == [] {
      assert a + b == a;
    } else {
      assert (a + b)[..|a + b| - 1] == a + b[..|b| - 1];
      assert (a + b)[|a + b| - 1] == b[|b| - 1];
      KeyCountAppend(key, a, b[..|b| - 1], k);
    }
  }

  /** Removing the first equal of `x` takes one element of `x`'s key away,
      if there is one, and leaves every other key's count alone. */
  lemma RemoveFirstCount<X>(key: X -> int, s: seq<X>, x: X, k: int)
    ensures KeyCount(key, RemoveFirst(key, s, x), k)
      == if k == key(x) && KeyCount(key, s, k) > 0 then KeyCount(key, s, k) - 1 else KeyCount(key, s, k)
  {
    match IndexOf(key, s, x)
    case None =>
      NoKeyNoCount(key, s, key(x));
    case Some(i) =>
      assert s == s[..i] + [s[i]] + s[i + 1..];
      KeyCountAppend(key, s[..i] + [s[i]], s[i + 1..], k);
      KeyCountAppend(key, s[..i], [s[i]], k);
      KeyCountAppend(key, s[..i], s[i + 1..], k);
      assert KeyCount(key, [s[i]], k) == (if key(s[i]) == k then 1 else 0) by {
        assert [s[i]][..0] == [];
      }
  }

  lemma {:induction false} NoKeyNoCount<X>(key: X -> int, s: seq<X>, k: int)
    requires forall j | 0 <= j < |s| :: key(s[j]) != k
    ensures KeyCount(key, s, k) == 0
    decreases |s|
  {
    if s != [] {
      NoKeyNoCount(key, s[..|s| - 1], k);
    }
  }

  /** `remove(elements:)` takes away, key by key, as many elements as `xs`
      holds with that key, or all of them when there are fewer. */
  lemma {:induction false} RemovedAllCount<X>(key: X -> int, s: seq<X>, xs: seq<X>, k: int)
    ensures KeyCount(key, RemovedAll(key, s, xs), k)
      == if KeyCount(key, s, k) >= KeyCount(key, xs, k) then KeyCount(key, s, k) - KeyCount(key, xs, k) else 0
    decreases |xs|
  {
    if xs != [] {
      var init := xs[..|xs| - 1];
      RemovedAllCount(key, s, init, k);
      RemoveFirstCount(key, RemovedAll(key, s, init), xs[|xs| - 1], k);
    }
  }

  /** Removing never brings anything in: what is left is a sub-multiset. */
  lemma {:induction false} RemovedAllShrinks<X>(key: X -> int, s: seq<X>, xs: seq<X>)
    ensures multiset(RemovedAll(key, s, xs)) <= multiset(s)
    decreases |xs|
  {
    if xs != [] {
      var init := RemovedAll(key, s, xs[..|xs| - 1]);
      RemovedAllShrinks(key, s, xs[..|xs| - 1]);
      match IndexOf(key, init, xs[|xs| - 1])
      case None =>
      case Some(i) => DropOne(init, i);
    }
  }

  lemma DropOne<X>(s: seq<X>, i: int)
    requires 0 <= i < |s|
    ensures multiset(s[..i] + s[i + 1..]) <= multiset(s)
  {
    assert s == s[..i] + [s[i]] + s[i + 1..];
  }

  /** The key that decides line equality. */
  function LineKeyOf(c: Config): (key: LineRef -> int)
    ensures forall l :: key(l) == LineRefKey(c, l)
  {
    l => LineRefKey(c, l)
  }

  /** The loop of `remove(elements:)`. */
  method RemoveElements<X>(key: X -> int, s: seq<X>, elements: seq<X>) returns (r: seq<X>)
    ensures r == RemovedAll(key, s, elements)
  {
    r := s;
    for k := 0 to |elements|
      invariant r == RemovedAll(key, s, elements[..k])
    {
      assert elements[..k + 1][..k] == elements[..k];
      var i := IndexOf(key, r, elements[k]);
      if i.Some? {
        r := r[..i.value] + r[i.value + 1..];
      }
    }
    assert elements[..|elements|] == elements;
  }

  /* ---------------------------------------------------------------------
     Sentences
     --------------------------------------------------------------------- */

  function PointName(c: Config, m: Marks, p: PointRef): string {
    PointDescription(PointLabel(c, m, p))
  }

  function LineName(c: Config, m: Marks, l: LineRef): string {
    LineDescription(LineLabel(c, m, l))
  }

  /** The sentence for a point: the two lines that cross at it. */
  function PointSentence(c: Config, m: Marks, p: PointRef): string {
    "The intersection between " + LineName(c, m, p.firstLine) + " and " + LineName(c, m, p.secondLine)
      + " creates " + PointName(c, m, p) + "."
  }

  /** What a fold does with the axiom's inputs. */
  function FoldAction(c: Config, m: Marks, a: Axiom): string {
    match a
    case A1(p1, p2) => "(A1) Fold through " + PointName(c, m, p1) + " and " + PointName(c, m, p2)
    case A2(p1, p2) => "(A2) Fold " + PointName(c, m, p1) + " onto " + PointName(c, m, p2)
    case A3(l1, l2) => "(A3) Fold " + LineName(c, m, l1) + " onto " + LineName(c, m, l2)
    case A4(p1, l1) => "(A4) Fold through " + PointName(c, m, p1) + " perpendicular to " + LineName(c, m, l1)
    case A5(p1, l1, p2) =>
      "(A5) Fold " + PointName(c, m, p1) + " onto " + LineName(c, m, l1) + " through " + PointName(c, m, p2)
    case A6(p1, l1, p2, l2) =>
      "(A6) Simultaneously fold " + PointName(c, m, p1) + " onto " + LineName(c, m, l1) + " and "
        + PointName(c, m, p2) + " onto " + LineName(c, m, l2)
    case A7(p1, l1, l2) =>
      "(A7) Fold " + PointName(c, m, p1) + " onto " + LineName(c, m, l1) + " perpendicular to " + LineName(c, m, l2)
  }

  /** The sentence for a fold as the program writes it: the one for axiom 7
      has no full stop. */
  function FoldSentenceAsWritten(c: Config, m: Marks, l: LineRef, a: Axiom): string {
    FoldAction(c, m, a) + ", creating " + LineName(c, m, l) + (if a.A7? then "" else ".")
  }

  /** The sentence for a fold, every one ending with a full stop. */
  function FoldSentence(c: Config, m: Marks, l: LineRef, a: Axiom): string {
    FoldAction(c, m, a) + ", creating " + LineName(c, m, l) + "."
  }

  /** A sentence `head + name + "."` ends with the name and a full stop. */
  lemma EndsWithName(head: string, name: string)
    ensures var s := head + name + ".";
      |s| > |name| && s[|s| - 1] == '.' && s[|s| - 1 - |name|..|s| - 1] == name && '.' in s
  {
    var s := head + name + ".";
    assert s[|s| - 1 - |name|..|s| - 1] == name;
  }

  /** A point sentence names the point last and ends with a full stop. */
  lemma PointSentenceEndsWithName(c: Config, m: Marks, p: PointRef)
    ensures var s := PointSentence(c, m, p);
      |s| > |PointName(c, m, p)| && s[|s| - 1] == '.' && s[|s| - 1 - |PointName(c, m, p)|..|s| - 1] == PointName(c, m, p)
    ensures '.' in PointSentence(c, m, p)
  {
    EndsWithName("The intersection between " + LineName(c, m, p.firstLine) + " and " + LineName(c, m, p.secondLine)
      + " creates ", PointName(c, m, p));
  }

  /** A fold sentence names the line it creates last and ends with a full
      stop; as written, it is the same sentence for every axiom but 7. */
  lemma FoldSentenceEndsWithName(c: Config, m: Marks, l: LineRef, a: Axiom)
    ensures var s := FoldSentence(c, m, l, a);
      |s| > |LineName(c, m, l)| && s[|s| - 1] == '.' && s[|s| - 1 - |LineName(c, m, l)|..|s| - 1] == LineName(c, m, l)
    ensures '.' in FoldSentence(c, m, l, a)
    ensures !a.A7? ==> FoldSentenceAsWritten(c, m, l, a) == FoldSentence(c, m, l, a)
  {
    EndsWithName(FoldAction(c, m, a) + ", creating ", LineName(c, m, l));
  }

  /** A label without a full stop gives a name without one. */
  lemma NameWithoutStop(name: string)
    requires '.' !in name
    ensures '.' !in PointDescription(name) && '.' !in LineDescription(name)
  {
    if |name| == 1 {
      assert PointDescription(name) == "point " + name;
      assert LineDescription(name) == "line " + name;
    }
  }

  /** As written, an axiom 7 sentence whose labels have no full stop has
      none at all, so a point step merged into it finds nowhere to go. */
  lemma A7SentenceAsWrittenHasNoStop(c: Config, m: Marks, l: LineRef, p1: PointRef, l1: LineRef, l2: LineRef)
    requires '.' !in LineLabel(c, m, l) && '.' !in PointLabel(c, m, p1)
    requires '.' !in LineLabel(c, m, l1) && '.' !in LineLabel(c, m, l2)
    ensures '.' !in FoldSentenceAsWritten(c, m, l, A7(p1, l1, l2))
    ensures FoldSentence(c, m, l, A7(p1, l1, l2)) == FoldSentenceAsWritten(c, m, l, A7(p1, l1, l2)) + "."
  {
    NameWithoutStop(LineLabel(c, m, l));
    NameWithoutStop(PointLabel(c, m, p1));
    NameWithoutStop(LineLabel(c, m, l1));
    NameWithoutStop(LineLabel(c, m, l2));
    var s := "(A7) Fold " + PointName(c, m, p1);
    NoStopConcat("(A7) Fold ", PointName(c, m, p1));
    NoStopConcat(s, " onto ");
    NoStopConcat(s + " onto ", LineName(c, m, l1));
    s := s + " onto " + LineName(c, m, l1);
    NoStopConcat(s, " perpendicular to ");
    NoStopConcat(s + " perpendicular to ", LineName(c, m, l2));
    s := s + " perpendicular to " + LineName(c, m, l2);
    assert s == FoldAction(c, m, A7(p1, l1, l2));
    NoStopConcat(s, ", creating ");
    NoStopConcat(s + ", creating ", LineName(c, m, l));
    NoStopConcat(s + ", creating " + LineName(c, m, l), "");
  }

  lemma NoStopConcat(a: string, b: string)
    requires '.' !in a && '.' !in b
    ensures '.' !in a + b
  {
  }

  /* ---------------------------------------------------------------------
     Diagrams
     --------------------------------------------------------------------- */

  /** The previous step's picture, or an empty one. */
  function Previous(diagrams: seq<Diagram>): (d: Diagram)
    ensures diagrams == [] ==> d == EmptyDiagram
    ensures diagrams != [] ==> d == diagrams[|diagrams| - 1]
  {
    if diagrams == [] then EmptyDiagram else diagrams[|diagrams| - 1]
  }

  /** The old fold, when there is one, as a crease. */
  function FoldAsCrease(d: Diagram): (r: seq<LineRef>)
    ensures d.fold.None? ==> r == []
    ensures d.fold.Some? ==> r == [d.fold.value]
  {
    if d.fold.Some? then [d.fold.value] else []
  }

  /** The diagram of a point step: the previous picture with its fold made
      a crease, no arrow, and the point with its two lines. */
  function PointDiagram(diagrams: seq<Diagram>, p: PointRef): (d: Diagram)
    ensures d.fold.None? && d.lines == [p.firstLine, p.secondLine] && d.points == [p] && d.arrows == []
    ensures d.creases == Previous(diagrams).creases + FoldAsCrease(Previous(diagrams))
  {
    var prev := Previous(diagrams);
    prev.(arrows := [], creases := prev.creases + FoldAsCrease(prev), fold := None,
          lines := [p.firstLine, p.secondLine], points := [p])
  }

  /** The lines of a step that are folds, not edges. */
  function Folds(lines: seq<LineRef>): (r: seq<LineRef>)
    ensures forall x <- r :: x in lines && IsNotEdge(x)
    ensures forall x <- lines :: IsNotEdge(x) ==> x in r
    decreases |lines|
  {
    if lines == [] then []
    else
      var init := lines[..|lines| - 1];
      var x := lines[|lines| - 1];
      assert lines == init + [x];
      Folds(init) + (if IsNotEdge(x) then [x] else [])
  }

  /** The creases a fold step starts from: the previous picture's creases
      and the previous step's folded lines. */
  function CreasesBefore(diagrams: seq<Diagram>): seq<LineRef> {
    if diagrams == [] then [] else Previous(diagrams).creases + Folds(Previous(diagrams).lines)
  }

  /** The loop over the previous step's lines. */
  method CollectFolds(lines: seq<LineRef>) returns (r: seq<LineRef>)
    ensures r == Folds(lines)
  {
    r := [];
    for k := 0 to |lines|
      invariant r == Folds(lines[..k])
    {
      assert lines[..k + 1][..k] == lines[..k];
      if IsNotEdge(lines[k]) {
        r := r + [lines[k]];
      }
    }
    assert lines[..|lines|] == lines;
  }

  /** The diagram of a fold step: the new fold, its arrows, the axiom's
      inputs, and as creases everything drawn before except the lines the
      step names, then the previous fold. */
  function FoldPicture(c: Config, diagrams: seq<Diagram>, l: LineRef, a: Axiom, arrows: seq<Arrow>): Diagram {
    Diagram(Some(l), RemovedAll(LineKeyOf(c), CreasesBefore(diagrams), AxiomLines(a)) + FoldAsCrease(Previous(diagrams)),
            AxiomPoints(a), AxiomLines(a), arrows)
  }

  /** The loops that build a fold step's diagram. */
  method FoldDiagram(c: Config, diagrams: seq<Diagram>, l: LineRef, a: Axiom, arrows: seq<Arrow>) returns (d: Diagram)
    ensures d == FoldPicture(c, diagrams, l, a, arrows)
  {
    var creases: seq<LineRef> := [];
    var prev := EmptyDiagram;
    if |diagrams| > 0 {
      prev := diagrams[|diagrams| - 1];
      var folded := CollectFolds(prev.lines);
      creases := prev.creases + folded;
    }
    creases := RemoveElements(LineKeyOf(c), creases, AxiomLines(a));
    if prev.fold.Some? {
      creases := creases + [prev.fold.value];
    }
    d := Diagram(Some(l), creases, AxiomPoints(a), AxiomLines(a), arrows);
  }

  /** A fold step's creases all come from the pictures before it. */
  lemma FoldCreasesComeFromBefore(c: Config, diagrams: seq<Diagram>, l: LineRef, a: Axiom, arrows: seq<Arrow>, x: LineRef)
    requires x in FoldPicture(c, diagrams, l, a, arrows).creases
    ensures x in CreasesBefore(diagrams) || Previous(diagrams).fold == Some(x)
  {
    RemovedAllShrinks(LineKeyOf(c), CreasesBefore(diagrams), AxiomLines(a));
    if x in RemovedAll(LineKeyOf(c), CreasesBefore(diagrams), AxiomLines(a)) {
      assert x in multiset(RemovedAll(LineKeyOf(c), CreasesBefore(diagrams), AxiomLines(a)));
    }
  }

  /* ---------------------------------------------------------------------
     The work stack of `makeInstructions`
     --------------------------------------------------------------------- */

  /** An entry of the stack: a reference, and whether what it cites has
      been seen to already. */
  datatype Entry = Entry(ref: Ref, ready: bool)

  /** A reference whose instruction the builder writes: a point that is not
      a corner, or a line some axiom folded. */
  predicate Expandable(r: Ref) {
    (r.PointR? && IsNotCorner(r.pr)) || (r.LineR? && r.lr.axiom.Some?)
  }

  /** The entries pushed for the inputs of a reference: those for which
      `unlabelled` holds, in the order the reference cites them. */
  function Pending(unlabelled: Ref -> bool, xs: seq<Ref>): (r: seq<Entry>)
    ensures |r| <= |xs|
    ensures forall e <- r :: !e.ready && e.ref in xs
    ensures forall x <- xs :: unlabelled(x) ==> exists j | 0 <= j < |r| :: r[j] == Entry(x, false)
    decreases |xs|
  {
    if xs == [] then []
    else
      var init := Pending(unlabelled, xs[..|xs| - 1]);
      var x := xs[|xs| - 1];
      assert forall y <- xs :: y == x || y in xs[..|xs| - 1] by {
        assert xs == xs[..|xs| - 1] + [x];
      }
      var r := init + (if unlabelled(x) then [Entry(x, false)] else []);
      assert forall j | 0 <= j < |init| :: r[j] == init[j];
      assert unlabelled(x) ==> r[|init|] == Entry(x, false);
      r
  }

  /** Whether a reference is still unlabelled, as the builder tests before
      pushing it. */
  function UnlabelledIn(c: Config, m: Marks): (unlabelled: Ref -> bool)
    ensures forall x :: unlabelled(x) <==> Label(c, m, x) == Unlabelled
  {
    x => Label(c, m, x) == Unlabelled
  }

  /** Whether a reference is done, given the finder's current marks. */
  function DoneIn(c: Config, m: Marks): (done: Ref -> bool)
    ensures forall x :: done(x) <==> Done(c, m, x)
  {
    x => Done(c, m, x)
  }

  /** The finder has explained `r`, or it needs no instruction at all: a
      corner, or an edge of the paper. */
  predicate Settled(c: Config, m: Marks, points: seq<PointRef>, lines: seq<LineRef>, r: Ref) {
    Done(c, m, r)
    && match r
       case PointR(p) => HasPoint(c, points, p) || !IsNotCorner(p)
       case LineR(l) => HasLine(c, lines, l) || l.axiom.None?
  }

  /** Every ready entry is for a reference the builder explains, and each
      reference it cites is done or waits above it. */
  predicate Waiting(done: Ref -> bool, stack: seq<Entry>) {
    forall i | 0 <= i < |stack| && stack[i].ready ::
      Expandable(stack[i].ref)
      && forall x <- Inputs(stack[i].ref) :: done(x) || exists j | i < j < |stack| :: stack[j].ref == x
  }

  /** Popping a ready entry: everything it cites is done. */
  lemma WaitingTop(done: Ref -> bool, stack: seq<Entry>, top: Entry)
    requires Waiting(done, stack + [top]) && top.ready
    ensures Expandable(top.ref) && forall x <- Inputs(top.ref) :: done(x)
  {
    assert (stack + [top])[|stack|] == top;
  }

  /** Popping an entry whose reference is then done, while what was done
      stays done. */
  lemma WaitingPop(done: Ref -> bool, done': Ref -> bool, stack: seq<Entry>, top: Entry)
    requires Waiting(done, stack + [top]) && done'(top.ref)
    requires forall x :: done(x) ==> done'(x)
    ensures Waiting(done', stack)
  {
    var s := stack + [top];
    forall i | 0 <= i < |stack| && stack[i].ready
      ensures Expandable(stack[i].ref)
      ensures forall x <- Inputs(stack[i].ref) :: done'(x) || exists j | i < j < |stack| :: stack[j].ref == x
    {
      assert s[i] == stack[i];
      forall x <- Inputs(stack[i].ref) ensures done'(x) || exists j | i < j < |stack| :: stack[j].ref == x {
        if !done(x) {
          var j :| i < j < |s| && s[j].ref == x;
          if j < |stack| {
            assert stack[j].ref == x;
          } else {
            assert s[j] == top;
          }
        }
      }
    }
  }

  /** Replacing an unready entry by a ready one and the entries of what it
      cites that are not done. */
  lemma WaitingExpand(done: Ref -> bool, unlabelled: Ref -> bool, stack: seq<Entry>, r: Ref)
    requires Waiting(done, stack + [Entry(r, false)]) && Expandable(r)
    requires forall x :: !done(x) ==> unlabelled(x)
    ensures Waiting(done, stack + [Entry(r, true)] + Pending(unlabelled, Inputs(r)))
  {
    var before := stack + [Entry(r, false)];
    var pending := Pending(unlabelled, Inputs(r));
    var s := stack + [Entry(r, true)] + pending;
    assert forall j | 0 <= j < |stack| :: s[j] == stack[j] && before[j] == stack[j];
    assert s[|stack|] == Entry(r, true);
    assert forall j | 0 <= j < |pending| :: s[|stack| + 1 + j] == pending[j];
    forall i, x | 0 <= i < |s| && s[i].ready && x in Inputs(s[i].ref)
      ensures done(x) || exists j | i < j < |s| :: s[j].ref == x
    {
      if i < |stack| {
        assert before[i] == s[i];
        if !done(x) {
          var j :| i < j < |before| && before[j].ref == x;
          if j < |stack| {
            assert s[j].ref == x;
          } else {
            assert s[|stack|].ref == x;
          }
        }
      } else if i == |stack| {
        if !done(x) {
          var j :| 0 <= j < |pending| && pending[j] == Entry(x, false);
          assert s[|stack| + 1 + j].ref == x;
        }
      } else {
        assert false;
      }
    }
  }

  /** 6 to the power `n`. */
  function Pow6(n: nat): (r: nat)
    ensures r >= 1
  {
    if n == 0 then 1 else 6 * Pow6(n - 1)
  }

  lemma {:induction false} Pow6Grows(a: nat, b: nat)
    requires a <= b
    ensures Pow6(a) <= Pow6(b)
    decreases b
  {
    if a < b {
      Pow6Grows(a, b - 1);
    }
  }

  /** The length of the longest chain of references below `r`. */
  function Depth(r: Ref): nat {
    match r
    case PointR(p) => PointDepth(p)
    case LineR(l) => LineDepth(l)
  }

  /** Everything a reference cites lies deeper down, and a reference cites
      at most four others. */
  lemma InputsAreShallow(r: Ref)
    ensures |Inputs(r)| <= 4
    ensures forall x <- Inputs(r) :: Depth(x) < Depth(r)
  {
    match r
    case PointR(p) =>
      LinesOfPointAreShallower(p);
    case LineR(l) =>
      if l.axiom.Some? {
        InputsAreShallower(l);
        var a := l.axiom.value;
        forall x <- Inputs(r) ensures Depth(x) < Depth(r) {
          match a
          case A1(p1, p2) => assert p1 in AxiomPoints(a) && p2 in AxiomPoints(a);
          case A2(p1, p2) => assert p1 in AxiomPoints(a) && p2 in AxiomPoints(a);
          case A3(l1, l2) => assert l1 in AxiomLines(a) && l2 in AxiomLines(a);
          case A4(p1, l1) => assert p1 in AxiomPoints(a) && l1 in AxiomLines(a);
          case A5(p1, l1, p2) => assert p1 in AxiomPoints(a) && p2 in AxiomPoints(a) && l1 in AxiomLines(a);
          case A6(p1, l1, p2, l2) =>
            assert p1 in AxiomPoints(a) && p2 in AxiomPoints(a) && l1 in AxiomLines(a) && l2 in AxiomLines(a);
          case A7(p1, l1, l2) => assert p1 in AxiomPoints(a) && l1 in AxiomLines(a) && l2 in AxiomLines(a);
        }
      }
  }

  /** What an entry still costs: one step if ready, otherwise at most
      6^depth steps for it and everything below it. */
  function Weight(e: Entry): nat {
    if e.ready then 1 else Pow6(Depth(e.ref))
  }

  function StackWeight(s: seq<Entry>): nat
    decreases |s|
  {
    if s == [] then 0 else StackWeight(s[..|s| - 1]) + Weight(s[|s| - 1])
  }

  lemma {:induction false} StackWeightAppend(a: seq<Entry>, b: seq<Entry>)
    ensures StackWeight(a + b) == StackWeight(a) + StackWeight(b)
    decreases |b|
  {
    if b == [] {
      assert a + b == a;
    } else {
      assert (a + b)[..|a + b| - 1] == a + b[..|b| - 1];
      assert (a + b)[|a + b| - 1] == b[|b| - 1];
      StackWeightAppend(a, b[..|b| - 1]);
    }
  }

  /** Unready entries no deeper than `d` weigh at most 6^d each. */
  lemma {:induction false} PendingWeight(s: seq<Entry>, d: nat)
    requires forall e <- s :: !e.ready && Depth(e.ref) <= d
    ensures StackWeight(s) <= |s| * Pow6(d)
    decreases |s|
  {
    if s != [] {
      var init := s[..|s| - 1];
      assert forall e <- init :: e in s;
      PendingWeight(init, d);
      Pow6Grows(Depth(s[|s| - 1].ref), d);
      MulStep(|s|, Pow6(d));
    }
  }

  /** Expanding an entry makes the stack lighter, so the builder stops. */
  lemma ExpandIsLighter(unlabelled: Ref -> bool, stack: seq<Entry>, r: Ref)
    requires Expandable(r)
    ensures StackWeight(stack + [Entry(r, true)] + Pending(unlabelled, Inputs(r))) < StackWeight(stack + [Entry(r, false)])
  {
    var pending := Pending(unlabelled, Inputs(r));
    InputsAreShallow(r);
    var d := Depth(r);
    assert d >= 1 by {
      match r
      case PointR(p) =>
      case LineR(l) =>
    }
    PendingLight(unlabelled, r, d);
    StackWeightAppend(stack + [Entry(r, true)], pending);
    StackWeightAppend(stack, [Entry(r, true)]);
    StackWeightAppend(stack, [Entry(r, false)]);
    assert StackWeight([Entry(r, true)]) == 1 by {
      assert [Entry(r, true)][..0] == [];
    }
    assert StackWeight([Entry(r, false)]) == Pow6(d) by {
      assert [Entry(r, false)][..0] == [];
    }
  }

  /** The entries an expansion pushes weigh less than 6^depth - 1 together. */
  lemma PendingLight(unlabelled: Ref -> bool, r: Ref, d: nat)
    requires Expandable(r) && d == Depth(r) && d >= 1
    ensures StackWeight(Pending(unlabelled, Inputs(r))) + 1 < Pow6(d)
  {
    var pending := Pending(unlabelled, Inputs(r));
    InputsAreShallow(r);
    PendingWeight(pending, d - 1);
    AtMostFour(|pending|, Pow6(d - 1));
    assert Pow6(d) == 6 * Pow6(d - 1);
  }

  lemma MulStep(n: nat, p: nat)
    requires n >= 1
    ensures (n - 1) * p + p == n * p
  {
  }

  lemma AtMostFour(n: nat, p: nat)
    requires n <= 4
    ensures n * p <= 4 * p
  {
  }

  /* ---------------------------------------------------------------------
     Labels handed out by `makeInstructions`
     --------------------------------------------------------------------- */

  /** What is left of a label pool after some `popLast()` calls. */
  predicate PoolLeft(pool: string, full: string) {
    |pool| <= |full| && pool == full[..|pool|]
  }

  /** The label `popLast()` hands out: the pool's last letter. */
  function LastLabel(pool: string): (name: string)
    requires pool != []
    ensures |name| == 1 && name[0] == pool[|pool| - 1]
  {
    [pool[|pool| - 1]]
  }

  /** A label from a pool without `_` is a name, and popping it leaves what
      is left of the same pool. */
  lemma PopLabel(pool: string, full: string)
    requires PoolLeft(pool, full) && pool != [] && '_' !in full
    ensures LastLabel(pool) != Unlabelled
    ensures PoolLeft(pool[..|pool| - 1], full)
  {
    assert pool[|pool| - 1] == full[|pool| - 1];
    assert Unlabelled[0] == '_';
  }

  /** The marks after `point.label = name`. */
  function LabelPoint(c: Config, m: Marks, p: PointRef, name: string): (m': Marks)
    ensures m'.pointLabels.Keys == m.pointLabels.Keys + {PointRefKey(c, p)}
    ensures m'.lineLabels == m.lineLabels
  {
    m.(pointLabels := m.pointLabels[PointRefKey(c, p) := name])
  }

  /** The marks after `line.label = name`. */
  function LabelLine(c: Config, m: Marks, l: LineRef, name: string): (m': Marks)
    ensures m'.lineLabels.Keys == m.lineLabels.Keys + {LineRefKey(c, l)}
    ensures m'.pointLabels == m.pointLabels
  {
    m.(lineLabels := m.lineLabels[LineRefKey(c, l) := name])
  }

  /** Naming a reference lets labels grow, and the reference then reads
      back the name; every other key keeps its label. */
  lemma LabelPointGrows(c: Config, m: Marks, p: PointRef, name: string)
    requires name != Unlabelled
    ensures LabelsGrow(m, LabelPoint(c, m, p, name))
    ensures Recorded(c, LabelPoint(c, m, p, name), PointR(p))
    ensures PointLabel(c, LabelPoint(c, m, p, name), p) == name
    ensures forall k <- m.pointLabels | k != PointRefKey(c, p) :: LabelPoint(c, m, p, name).pointLabels[k] == m.pointLabels[k]
  {
  }

  lemma LabelLineGrows(c: Config, m: Marks, l: LineRef, name: string)
    requires name != Unlabelled
    ensures LabelsGrow(m, LabelLine(c, m, l, name))
    ensures Recorded(c, LabelLine(c, m, l, name), LineR(l))
    ensures LineLabel(c, LabelLine(c, m, l, name), l) == name
    ensures forall k <- m.lineLabels | k != LineRefKey(c, l) :: LabelLine(c, m, l, name).lineLabels[k] == m.lineLabels[k]
  {
  }

  lemma GrowTrans(m0: Marks, m1: Marks, m2: Marks)
    requires LabelsGrow(m0, m1) && LabelsGrow(m1, m2)
    ensures LabelsGrow(m0, m2)
  {
  }

  /** While labels grow, what is done stays done. */
  lemma GrowKeepsDone(c: Config, m0: Marks, m1: Marks)
    requires LabelsGrow(m0, m1)
    ensures forall x :: Done(c, m0, x) ==> Done(c, m1, x)
  {
    forall x ensures Done(c, m0, x) ==> Done(c, m1, x) {
      LabelsGrowKeep(c, m0, m1, x);
    }
  }

  /** A reference equal to one the finder has explained is done: labels
      are kept by key. */
  lemma ReferencedIsDone(c: Config, m: Marks, points: seq<PointRef>, lines: seq<LineRef>, r: Ref)
    requires AllExplained(c, m, points, lines)
    requires r.PointR? ==> HasPoint(c, points, r.pr)
    requires r.LineR? ==> HasLine(c, lines, r.lr)
    ensures Done(c, m, r)
  {
    match r
    case PointR(p) =>
      var q :| q in points && PointRefEq(c, q, p);
      assert Recorded(c, m, PointR(q));
    case LineR(l) =>
      var k :| k in lines && LineRefEq(c, k, l);
      assert Recorded(c, m, LineR(k));
  }

  /* ---------------------------------------------------------------------
     What each step of `makeInstructions` keeps
     --------------------------------------------------------------------- */

  /** A finder whose labels grow and whose referenced sets stay in place
      keeps what it has settled. */
  lemma SettledGrows(c: Config, m0: Marks, m1: Marks, points0: seq<PointRef>, points1: seq<PointRef>,
                     lines0: seq<LineRef>, lines1: seq<LineRef>, r: Ref)
    requires LabelsGrow(m0, m1) && points0 <= points1 && lines0 <= lines1
    requires Settled(c, m0, points0, lines0, r)
    ensures Settled(c, m1, points1, lines1, r)
  {
    LabelsGrowKeep(c, m0, m1, r);
    match r
    case PointR(p) =>
      if HasPoint(c, points0, p) {
        var q :| q in points0 && PointRefEq(c, q, p);
        assert q in points1;
      }
    case LineR(l) =>
      if HasLine(c, lines0, l) {
        var k :| k in lines0 && LineRefEq(c, k, l);
        assert k in lines1;
      }
  }

  /** Adding a step keeps the pictures well shaped and punctuated. */
  lemma StepCoheres(diagrams: seq<Diagram>, instructions: seq<string>, d: Diagram, t: string)
    requires |diagrams| == |instructions| && (forall k | 0 <= k < |diagrams| :: WellShaped(diagrams[k])) && Punctuated(diagrams, instructions)
    requires WellShaped(d) && (d.fold.Some? ==> '.' in t)
    ensures (forall k | 0 <= k < |diagrams + [d]| :: WellShaped((diagrams + [d])[k])) && Punctuated(diagrams + [d], instructions + [t])
  {
    var ds := diagrams + [d];
    var ts := instructions + [t];
    forall k | 0 <= k < |ds| && ds[k].fold.Some? ensures '.' in ts[k] {
      if k < |diagrams| {
        assert ds[k] == diagrams[k] && ts[k] == instructions[k];
      } else {
        assert ds[k] == d && ts[k] == t;
      }
    }
  }

  /** Explaining a point keeps the finder coherent. */
  lemma ExplainedPointCoheres(c: Config, m: Marks, m': Marks, points: seq<PointRef>, lines: seq<LineRef>,
                              diagrams: seq<Diagram>, instructions: seq<string>, p: PointRef, d: Diagram, t: string)
    requires Coherent(c, m, points, lines, diagrams, instructions)
    requires LabelsGrow(m, m') && Recorded(c, m', PointR(p)) && Explained(c, m', PointR(p))
    requires WellShaped(d) && (d.fold.Some? ==> '.' in t)
    ensures Coherent(c, m', SetInsertPoint(c, points, p), lines, diagrams + [d], instructions + [t])
  {
    AllExplainedGrow(c, m, m', points, lines);
    StepCoheres(diagrams, instructions, d, t);
  }

  /** Explaining a line keeps the finder coherent. */
  lemma ExplainedLineCoheres(c: Config, m: Marks, m': Marks, points: seq<PointRef>, lines: seq<LineRef>,
                             diagrams: seq<Diagram>, instructions: seq<string>, l: LineRef, d: Diagram, t: string)
    requires Coherent(c, m, points, lines, diagrams, instructions)
    requires LabelsGrow(m, m') && Recorded(c, m', LineR(l)) && Explained(c, m', LineR(l))
    requires WellShaped(d) && (d.fold.Some? ==> '.' in t)
    ensures Coherent(c, m', points, SetInsertLine(c, lines, l), diagrams + [d], instructions + [t])
  {
    AllExplainedGrow(c, m, m', points, lines);
    StepCoheres(diagrams, instructions, d, t);
  }

  /** Labelling a line the program did not fold keeps the finder coherent. */
  lemma GrowCoheres(c: Config, m: Marks, m': Marks, points: seq<PointRef>, lines: seq<LineRef>,
                    diagrams: seq<Diagram>, instructions: seq<string>)
    requires Coherent(c, m, points, lines, diagrams, instructions) && LabelsGrow(m, m')
    ensures Coherent(c, m', points, lines, diagrams, instructions)
  {
    AllExplainedGrow(c, m, m', points, lines);
  }

  lemma SplitLast<X>(s: seq<X>)
    requires s != []
    ensures s == s[..|s| - 1] + [s[|s| - 1]]
  {
  }

  lemma PrefixAppend<X>(a: seq<X>, b: seq<X>, x: X)
    requires a <= b
    ensures a <= b + [x]
  {
    assert (b + [x])[..|a|] == b[..|a|];
  }

  lemma PrefixTrans<X>(a: seq<X>, b: seq<X>, c: seq<X>)
    requires a <= b && |b| <= |c| && c[..|b|] == b
    ensures a <= c
  {
    assert c[..|a|] == c[..|b|][..|a|];
  }

  /** Popping an entry makes the stack lighter. */
  lemma PopIsLighter(stack: seq<Entry>, top: Entry)
    ensures StackWeight(stack) < StackWeight(stack + [top])
  {
    assert (stack + [top])[..|stack|] == stack;
  }

  /* ---------------------------------------------------------------------
     `makeInstructions`
     --------------------------------------------------------------------- */

  /** One point step keeps the finder coherent and lets labels grow. */
  lemma ExplainPointStep(c: Config, m: Marks, points: seq<PointRef>, lines: seq<LineRef>,
                         diagrams: seq<Diagram>, instructions: seq<string>, p: PointRef, pool: string)
    requires Coherent(c, m, points, lines, diagrams, instructions)
    requires PoolLeft(pool, PointLabelPool) && pool != []
    requires forall x <- Inputs(PointR(p)) :: Done(c, m, x)
    ensures PoolLeft(pool[..|pool| - 1], PointLabelPool)
    ensures var m' := LabelPoint(c, m, p, LastLabel(pool));
      LabelsGrow(m, m') && Done(c, m', PointR(p))
      && Coherent(c, m', SetInsertPoint(c, points, p), lines, diagrams + [PointDiagram(diagrams, p)],
                  instructions + [PointSentence(c, m', p)])
  {
    LabelPoolsAreDisjoint();
    PopLabel(pool, PointLabelPool);
    var m' := LabelPoint(c, m, p, LastLabel(pool));
    LabelPointGrows(c, m, p, LastLabel(pool));
    GrowKeepsDone(c, m, m');
    PointSentenceEndsWithName(c, m', p);
    ExplainedPointCoheres(c, m, m', points, lines, diagrams, instructions, p, PointDiagram(diagrams, p), PointSentence(c, m', p));
  }

  /** One fold step keeps the finder coherent and lets labels grow. */
  lemma ExplainLineStep(c: Config, m: Marks, points: seq<PointRef>, lines: seq<LineRef>,
                        diagrams: seq<Diagram>, instructions: seq<string>, l: LineRef, pool: string, arrows: seq<Arrow>)
    requires Coherent(c, m, points, lines, diagrams, instructions)
    requires PoolLeft(pool, LineLabelPool) && pool != [] && l.axiom.Some?
    requires forall x <- Inputs(LineR(l)) :: Done(c, m, x)
    ensures PoolLeft(pool[..|pool| - 1], LineLabelPool)
    ensures var m' := LabelLine(c, m, l, LastLabel(pool));
      LabelsGrow(m, m') && Done(c, m', LineR(l))
      && Coherent(c, m', points, SetInsertLine(c, lines, l), diagrams + [FoldPicture(c, diagrams, l, l.axiom.value, arrows)],
                  instructions + [FoldSentence(c, m', l, l.axiom.value)])
  {
    LabelPoolsAreDisjoint();
    PopLabel(pool, LineLabelPool);
    var m' := LabelLine(c, m, l, LastLabel(pool));
    LabelLineGrows(c, m, l, LastLabel(pool));
    GrowKeepsDone(c, m, m');
    FoldSentenceEndsWithName(c, m', l, l.axiom.value);
    ExplainedLineCoheres(c, m, m', points, lines, diagrams, instructions, l,
                         FoldPicture(c, diagrams, l, l.axiom.value, arrows), FoldSentence(c, m', l, l.axiom.value));
  }

  /** Popping an entry whose reference is now done keeps the stack
      waiting and keeps track of the reference the builder started from. */
  lemma PopKeeps(c: Config, m0: Marks, m1: Marks, points0: seq<PointRef>, points1: seq<PointRef>,
                 lines0: seq<LineRef>, lines1: seq<LineRef>, stack: seq<Entry>, top: Entry, reference: Ref)
    requires LabelsGrow(m0, m1) && points0 <= points1 && lines0 <= lines1
    requires Waiting(DoneIn(c, m0), stack + [top]) && Done(c, m1, top.ref)
    requires Settled(c, m0, points0, lines0, reference) || exists j | 0 <= j < |stack + [top]| :: (stack + [top])[j].ref == reference
    requires top.ref == reference ==> Settled(c, m1, points1, lines1, reference)
    ensures Waiting(DoneIn(c, m1), stack)
    ensures Settled(c, m1, points1, lines1, reference) || exists j | 0 <= j < |stack| :: stack[j].ref == reference
  {
    GrowKeepsDone(c, m0, m1);
    WaitingPop(DoneIn(c, m0), DoneIn(c, m1), stack, top);
    if Settled(c, m0, points0, lines0, reference) {
      SettledGrows(c, m0, m1, points0, points1, lines0, lines1, reference);
    } else {
      var j :| 0 <= j < |stack + [top]| && (stack + [top])[j].ref == reference;
      if j < |stack| {
        assert stack[j] == (stack + [top])[j];
      }
    }
  }

  /** Expanding an unready entry keeps the stack waiting, makes it
      lighter, and keeps track of the reference the builder started from. */
  lemma ExpandKeeps(c: Config, m: Marks, points: seq<PointRef>, lines: seq<LineRef>, stack: seq<Entry>, r: Ref, reference: Ref)
    requires Expandable(r) && Waiting(DoneIn(c, m), stack + [Entry(r, false)])
    requires Settled(c, m, points, lines, reference)
             || exists j | 0 <= j < |stack + [Entry(r, false)]| :: (stack + [Entry(r, false)])[j].ref == reference
    ensures var s := stack + [Entry(r, true)] + Pending(UnlabelledIn(c, m), Inputs(r));
      Waiting(DoneIn(c, m), s) && StackWeight(s) < StackWeight(stack + [Entry(r, false)])
      && (Settled(c, m, points, lines, reference) || exists j | 0 <= j < |s| :: s[j].ref == reference)
  {
    var s := stack + [Entry(r, true)] + Pending(UnlabelledIn(c, m), Inputs(r));
    WaitingExpand(DoneIn(c, m), UnlabelledIn(c, m), stack, r);
    ExpandIsLighter(UnlabelledIn(c, m), stack, r);
    if !Settled(c, m, points, lines, reference) {
      var j :| 0 <= j < |stack + [Entry(r, false)]| && (stack + [Entry(r, false)])[j].ref == reference;
      if j < |stack| {
        assert s[j] == stack[j] == (stack + [Entry(r, false)])[j];
      } else {
        assert s[|stack|].ref == reference;
      }
    }
  }

  /** The values `makeInstructions` works on: the finder's labels,
      referenced sets, pictures and sentences, its work stack and what is
      left of its two label pools. */
  datatype Work = Work(marks: Marks, points: seq<PointRef>, lines: seq<LineRef>, diagrams: seq<Diagram>,
                       instructions: seq<string>, stack: seq<Entry>, pointPool: string, linePool: string)

  /** What holds between the steps of `makeInstructions`: the finder is
      coherent, the pools are what is left of the full ones, every ready
      entry waits for what it cites, and the reference the builder started
      from is settled or still on the stack. */
  predicate Invariant(c: Config, w: Work, reference: Ref) {
    Coherent(c, w.marks, w.points, w.lines, w.diagrams, w.instructions)
    && PoolLeft(w.pointPool, PointLabelPool) && PoolLeft(w.linePool, LineLabelPool)
    && Waiting(DoneIn(c, w.marks), w.stack)
    && (Settled(c, w.marks, w.points, w.lines, reference) || exists j | 0 <= j < |w.stack| :: w.stack[j].ref == reference)
  }

  /** A later state of the same run: labels grew, the referenced sets,
      pictures and sentences only grew at the end, and every new sentence
      used up a label. */
  predicate Advanced(w0: Work, w1: Work) {
    LabelsGrow(w0.marks, w1.marks)
    && w0.points <= w1.points && w0.lines <= w1.lines
    && w0.diagrams <= w1.diagrams && w0.instructions <= w1.instructions
    && |w1.instructions| + |w1.pointPool| + |w1.linePool| <= |w0.instructions| + |w0.pointPool| + |w0.linePool|
  }

  lemma AdvancedTrans(w0: Work, w1: Work, w2: Work)
    requires Advanced(w0, w1) && Advanced(w1, w2)
    ensures Advanced(w0, w2)
  {
    GrowTrans(w0.marks, w1.marks, w2.marks);
    PrefixTrans(w0.points, w1.points, w2.points);
    PrefixTrans(w0.lines, w1.lines, w2.lines);
    PrefixTrans(w0.diagrams, w1.diagrams, w2.diagrams);
    PrefixTrans(w0.instructions, w1.instructions, w2.instructions);
  }

  /** The state after the point step for the ready entry on top. */
  function AfterPoint(c: Config, w: Work, p: PointRef): Work
    requires w.stack != [] && w.pointPool != []
  {
    var m' := LabelPoint(c, w.marks, p, LastLabel(w.pointPool));
    w.(marks := m', points := SetInsertPoint(c, w.points, p),
       diagrams := w.diagrams + [PointDiagram(w.diagrams, p)],
       instructions := w.instructions + [PointSentence(c, m', p)],
       stack := w.stack[..|w.stack| - 1], pointPool := w.pointPool[..|w.pointPool| - 1])
  }

  /** The state after the fold step for the ready entry on top, with the
      picture `d`. */
  function AfterFold(c: Config, w: Work, l: LineRef, d: Diagram): Work
    requires w.stack != [] && w.linePool != [] && l.axiom.Some?
  {
    var m' := LabelLine(c, w.marks, l, LastLabel(w.linePool));
    w.(marks := m', lines := SetInsertLine(c, w.lines, l),
       diagrams := w.diagrams + [d],
       instructions := w.instructions + [FoldSentence(c, m', l, l.axiom.value)],
       stack := w.stack[..|w.stack| - 1], linePool := w.linePool[..|w.linePool| - 1])
  }

  /** A point step keeps the invariant, advances, and lightens the stack. */
  lemma AfterPointKeeps(c: Config, w: Work, reference: Ref, p: PointRef)
    requires Invariant(c, w, reference) && w.stack != [] && w.stack[|w.stack| - 1] == Entry(PointR(p), true)
    requires w.pointPool != []
    ensures var w' := AfterPoint(c, w, p);
      Invariant(c, w', reference) && Advanced(w, w') && StackWeight(w'.stack) < StackWeight(w.stack)
  {
    var top := w.stack[|w.stack| - 1];
    var stack := w.stack[..|w.stack| - 1];
    SplitLast(w.stack);
    PopIsLighter(stack, top);
    WaitingTop(DoneIn(c, w.marks), stack, top);
    ExplainPointStep(c, w.marks, w.points, w.lines, w.diagrams, w.instructions, p, w.pointPool);
    var w' := AfterPoint(c, w, p);
    assert w'.marks == LabelPoint(c, w.marks, p, LastLabel(w.pointPool)) && w'.lines == w.lines;
    assert w'.stack == stack && w'.linePool == w.linePool && w'.pointPool == w.pointPool[..|w.pointPool| - 1];
    PrefixAppend(w.diagrams, w.diagrams, PointDiagram(w.diagrams, p));
    PrefixAppend(w.instructions, w.instructions, PointSentence(c, w'.marks, p));
    PopKeeps(c, w.marks, w'.marks, w.points, w'.points, w.lines, w'.lines, stack, top, reference);
  }

  /** A fold step keeps the invariant, advances, and lightens the stack. */
  lemma AfterFoldKeeps(c: Config, w: Work, reference: Ref, l: LineRef, arrows: seq<Arrow>)
    requires Invariant(c, w, reference) && w.stack != [] && w.stack[|w.stack| - 1] == Entry(LineR(l), true)
    requires w.linePool != [] && l.axiom.Some?
    ensures var w' := AfterFold(c, w, l, FoldPicture(c, w.diagrams, l, l.axiom.value, arrows));
      Invariant(c, w', reference) && Advanced(w, w') && StackWeight(w'.stack) < StackWeight(w.stack)
  {
    var top := w.stack[|w.stack| - 1];
    var stack := w.stack[..|w.stack| - 1];
    SplitLast(w.stack);
    PopIsLighter(stack, top);
    WaitingTop(DoneIn(c, w.marks), stack, top);
    ExplainLineStep(c, w.marks, w.points, w.lines, w.diagrams, w.instructions, l, w.linePool, arrows);
    var d := FoldPicture(c, w.diagrams, l, l.axiom.value, arrows);
    var w' := AfterFold(c, w, l, d);
    assert w'.marks == LabelLine(c, w.marks, l, LastLabel(w.linePool)) && w'.points == w.points;
    assert w'.stack == stack && w'.pointPool == w.pointPool && w'.linePool == w.linePool[..|w.linePool| - 1];
    PrefixAppend(w.diagrams, w.diagrams, d);
    PrefixAppend(w.instructions, w.instructions, FoldSentence(c, w'.marks, l, l.axiom.value));
    PopKeeps(c, w.marks, w'.marks, w.points, w'.points, w.lines, w'.lines, stack, top, reference);
  }

  /** The top entry needs a label from a pool that is empty: a ready entry,
      or an unready line that no axiom folded and that is not referenced
      yet. This is where the program's `popLast()!` traps. */
  predicate Starved(c: Config, w: Work) {
    w.stack != [] &&
    var top := w.stack[|w.stack| - 1];
    match top.ref
    case PointR(_) => top.ready && w.pointPool == []
    case LineR(l) => (top.ready || (!HasLine(c, w.lines, l) && l.axiom.None?)) && w.linePool == []
  }

  /** One turn of the loop of `makeInstructions` on a ready entry: label
      the reference and write its picture and sentence. It stops with
      `ok` false, and the state as it was, exactly where the program traps:
      when the pool the reference draws its label from is empty. */
  method StepReady(c: Config, w: Work, reference: Ref, arrowsOf: LineRef -> seq<Arrow>) returns (ok: bool, w': Work)
    requires Invariant(c, w, reference) && w.stack != [] && w.stack[|w.stack| - 1].ready
    ensures Advanced(w, w') && Coherent(c, w'.marks, w'.points, w'.lines, w'.diagrams, w'.instructions)
    ensures ok <==> !Starved(c, w)
    ensures !ok ==> w' == w
    ensures ok ==> Invariant(c, w', reference) && StackWeight(w'.stack) < StackWeight(w.stack)
    ensures var r := w.stack[|w.stack| - 1].ref;
      ok && r.PointR? ==> w.pointPool != [] && w' == AfterPoint(c, w, r.pr)
    ensures var r := w.stack[|w.stack| - 1].ref;
      ok && r.LineR? ==>
        w.linePool != [] && r.lr.axiom.Some? &&
        w' == AfterFold(c, w, r.lr, FoldPicture(c, w.diagrams, r.lr, r.lr.axiom.value, arrowsOf(r.lr)))
  {
    var top := w.stack[|w.stack| - 1];
    WaitingTop(DoneIn(c, w.marks), w.stack[..|w.stack| - 1], top) by {
      SplitLast(w.stack);
    }
    match top.ref {
    case PointR(p) =>
      if w.pointPool == [] {
        return false, w;
      }
      AfterPointKeeps(c, w, reference, p);
      w' := AfterPoint(c, w, p);
    case LineR(l) =>
      if w.linePool == [] {
        return false, w;
      }
      AfterFoldKeeps(c, w, reference, l, arrowsOf(l));
      var d := FoldDiagram(c, w.diagrams, l, l.axiom.value, arrowsOf(l));
      w' := AfterFold(c, w, l, d);
    }
    ok := true;
  }

  /** The state after an unready entry is expanded: it goes back ready,
      under entries for what it cites that has no label yet. */
  function AfterExpand(c: Config, w: Work): Work
    requires w.stack != []
  {
    var r := w.stack[|w.stack| - 1].ref;
    w.(stack := w.stack[..|w.stack| - 1] + [Entry(r, true)] + Pending(UnlabelledIn(c, w.marks), Inputs(r)))
  }

  /** The state after a line no axiom folded is given the next label. */
  function AfterName(c: Config, w: Work, l: LineRef): Work
    requires w.stack != [] && w.linePool != []
  {
    w.(marks := LabelLine(c, w.marks, l, LastLabel(w.linePool)), stack := w.stack[..|w.stack| - 1],
       linePool := w.linePool[..|w.linePool| - 1])
  }

  /** Skipping an entry whose reference is done already. */
  lemma SkipKeeps(c: Config, w: Work, reference: Ref)
    requires Invariant(c, w, reference) && w.stack != []
    requires var r := w.stack[|w.stack| - 1].ref;
      (r.PointR? && (HasPoint(c, w.points, r.pr) || !IsNotCorner(r.pr))) || (r.LineR? && HasLine(c, w.lines, r.lr))
    ensures var w' := w.(stack := w.stack[..|w.stack| - 1]);
      Invariant(c, w', reference) && Advanced(w, w') && StackWeight(w'.stack) < StackWeight(w.stack)
  {
    var top := w.stack[|w.stack| - 1];
    var stack := w.stack[..|w.stack| - 1];
    SplitLast(w.stack);
    PopIsLighter(stack, top);
    if top.ref.LineR? || IsNotCorner(top.ref.pr) {
      ReferencedIsDone(c, w.marks, w.points, w.lines, top.ref);
    }
    PopKeeps(c, w.marks, w.marks, w.points, w.points, w.lines, w.lines, stack, top, reference);
  }

  /** Naming a line no axiom folded. */
  lemma AfterNameKeeps(c: Config, w: Work, reference: Ref, l: LineRef)
    requires Invariant(c, w, reference) && w.stack != [] && w.stack[|w.stack| - 1].ref == LineR(l)
    requires w.linePool != [] && l.axiom.None?
    ensures var w' := AfterName(c, w, l);
      Invariant(c, w', reference) && Advanced(w, w') && StackWeight(w'.stack) < StackWeight(w.stack)
  {
    var top := w.stack[|w.stack| - 1];
    var stack := w.stack[..|w.stack| - 1];
    SplitLast(w.stack);
    PopIsLighter(stack, top);
    LabelPoolsAreDisjoint();
    PopLabel(w.linePool, LineLabelPool);
    var m' := LabelLine(c, w.marks, l, LastLabel(w.linePool));
    LabelLineGrows(c, w.marks, l, LastLabel(w.linePool));
    GrowCoheres(c, w.marks, m', w.points, w.lines, w.diagrams, w.instructions);
    assert Settled(c, m', w.points, w.lines, LineR(l));
    PopKeeps(c, w.marks, m', w.points, w.points, w.lines, w.lines, stack, top, reference);
  }

  /** Expanding an unready entry. */
  lemma AfterExpandKeeps(c: Config, w: Work, reference: Ref)
    requires Invariant(c, w, reference) && w.stack != []
    requires !w.stack[|w.stack| - 1].ready && Expandable(w.stack[|w.stack| - 1].ref)
    ensures var w' := AfterExpand(c, w);
      Invariant(c, w', reference) && Advanced(w, w') && StackWeight(w'.stack) < StackWeight(w.stack)
  {
    var top := w.stack[|w.stack| - 1];
    SplitLast(w.stack);
    ExpandKeeps(c, w.marks, w.points, w.lines, w.stack[..|w.stack| - 1], top.ref, reference);
  }

  /** An unready entry the builder drops: a point that is referenced
      already or a corner, or a line that is referenced already. */
  predicate Skipped(c: Config, w: Work, r: Ref) {
    match r
    case PointR(p) => HasPoint(c, w.points, p) || !IsNotCorner(p)
    case LineR(l) => HasLine(c, w.lines, l)
  }

  /** One turn of the loop of `makeInstructions` on an unready entry:
      skip what is referenced already and corners, label a line no axiom
      folded, or push the entry back ready above what it cites that has no
      label yet. Only the label of a line no axiom folded can fail, when
      the line pool is empty. */
  method StepUnready(c: Config, w: Work, reference: Ref) returns (ok: bool, w': Work)
    requires Invariant(c, w, reference) && w.stack != [] && !w.stack[|w.stack| - 1].ready
    ensures Advanced(w, w') && Coherent(c, w'.marks, w'.points, w'.lines, w'.diagrams, w'.instructions)
    ensures ok <==> !Starved(c, w)
    ensures !ok ==> w' == w
    ensures ok ==> Invariant(c, w', reference) && StackWeight(w'.stack) < StackWeight(w.stack)
    ensures var r := w.stack[|w.stack| - 1].ref;
      Skipped(c, w, r) ==> w' == w.(stack := w.stack[..|w.stack| - 1])
    ensures var r := w.stack[|w.stack| - 1].ref;
      !Skipped(c, w, r) && r.LineR? && r.lr.axiom.None? && ok ==> w.linePool != [] && w' == AfterName(c, w, r.lr)
    ensures var r := w.stack[|w.stack| - 1].ref;
      !Skipped(c, w, r) && Expandable(r) ==> w' == AfterExpand(c, w)
  {
    var top := w.stack[|w.stack| - 1];
    match top.ref {
    case PointR(p) =>
      if HasPoint(c, w.points, p) || !IsNotCorner(p) {
        SkipKeeps(c, w, reference);
        w' := w.(stack := w.stack[..|w.stack| - 1]);
      } else {
        AfterExpandKeeps(c, w, reference);
        w' := AfterExpand(c, w);
      }
    case LineR(l) =>
      if HasLine(c, w.lines, l) {
        SkipKeeps(c, w, reference);
        w' := w.(stack := w.stack[..|w.stack| - 1]);
      } else if l.axiom.None? {
        if w.linePool == [] {
          return false, w;
        }
        AfterNameKeeps(c, w, reference, l);
        w' := AfterName(c, w, l);
      } else {
        AfterExpandKeeps(c, w, reference);
        w' := AfterExpand(c, w);
      }
    }
    ok := true;
  }

  /** What one step of `makeInstructions` explained: the reference and
      the label it was given. */
  datatype Explanation = Explanation(ref: Ref, name: string)

  /** `s` ends with `t`. */
  predicate EndsWith(s: string, t: string) {
    |t| <= |s| && s[|s| - |t|..] == t
  }

  /** The picture and the sentence at place `i` are those of `e`: the
      picture shows the point, or folds the line, the sentence ends with
      the reference's name and a full stop, and the reference is among the
      referenced ones. */
  predicate Shows(c: Config, points: seq<PointRef>, lines: seq<LineRef>, diagrams: seq<Diagram>,
                  instructions: seq<string>, i: nat, e: Explanation) {
    i < |diagrams| && i < |instructions| &&
    match e.ref
    case PointR(p) =>
      HasPoint(c, points, p) && diagrams[i].points == [p] && EndsWith(instructions[i], PointDescription(e.name) + ".")
    case LineR(l) =>
      HasLine(c, lines, l) && diagrams[i].fold == Some(l) && EndsWith(instructions[i], LineDescription(e.name) + ".")
  }

  /** From `w0` to `w1` the builder wrote one picture and one sentence per
      entry of `log`, in the order of `log`, and nothing else. */
  predicate Logs(c: Config, w0: Work, w1: Work, log: seq<Explanation>) {
    |w0.diagrams| == |w0.instructions|
    && |w1.instructions| == |w0.instructions| + |log| && |w1.diagrams| == |w0.diagrams| + |log|
    && forall j | 0 <= j < |log| :: Shows(c, w1.points, w1.lines, w1.diagrams, w1.instructions, |w0.instructions| + j, log[j])
  }

  lemma EndsWithAppended(head: string, t: string)
    ensures EndsWith(head + t, t)
  {
    assert (head + t)[|head + t| - |t|..] == t;
  }

  lemma HasPointGrows(c: Config, s: seq<PointRef>, s': seq<PointRef>, p: PointRef)
    requires HasPoint(c, s, p) && |s| <= |s'| && s'[..|s|] == s
    ensures HasPoint(c, s', p)
  {
    var q :| q in s && PointRefEq(c, q, p);
    var i :| 0 <= i < |s| && s[i] == q;
    assert s'[i] == q;
  }

  lemma HasLineGrows(c: Config, s: seq<LineRef>, s': seq<LineRef>, l: LineRef)
    requires HasLine(c, s, l) && |s| <= |s'| && s'[..|s|] == s
    ensures HasLine(c, s', l)
  {
    var m :| m in s && LineRefEq(c, m, l);
    var i :| 0 <= i < |s| && s[i] == m;
    assert s'[i] == m;
  }

  /** What was shown stays shown while the referenced sets, pictures and
      sentences only grow at the end. */
  lemma ShowsGrow(c: Config, w: Work, w': Work, i: nat, e: Explanation)
    requires Shows(c, w.points, w.lines, w.diagrams, w.instructions, i, e)
    requires w.points <= w'.points && w.lines <= w'.lines && w.diagrams <= w'.diagrams && w.instructions <= w'.instructions
    ensures Shows(c, w'.points, w'.lines, w'.diagrams, w'.instructions, i, e)
  {
    assert w'.diagrams[i] == w.diagrams[i] && w'.instructions[i] == w.instructions[i];
    match e.ref
    case PointR(p) => HasPointGrows(c, w.points, w'.points, p);
    case LineR(l) => HasLineGrows(c, w.lines, w'.lines, l);
  }

  /** A step that writes nothing keeps the log. */
  lemma LogsKeep(c: Config, w0: Work, w1: Work, w2: Work, log: seq<Explanation>)
    requires Logs(c, w0, w1, log) && Advanced(w1, w2)
    requires w2.diagrams == w1.diagrams && w2.instructions == w1.instructions
    ensures Logs(c, w0, w2, log)
  {
    forall j | 0 <= j < |log|
      ensures Shows(c, w2.points, w2.lines, w2.diagrams, w2.instructions, |w0.instructions| + j, log[j])
    {
      ShowsGrow(c, w1, w2, |w0.instructions| + j, log[j]);
    }
  }

  /** A step that adds one picture and one sentence, showing `e`, adds `e`
      to the log. */
  lemma LogsAppend(c: Config, w0: Work, w1: Work, w2: Work, log: seq<Explanation>, e: Explanation)
    requires Logs(c, w0, w1, log)
    requires w1.points <= w2.points && w1.lines <= w2.lines && w1.diagrams <= w2.diagrams && w1.instructions <= w2.instructions
    requires |w2.instructions| == |w1.instructions| + 1 && |w2.diagrams| == |w1.diagrams| + 1
    requires Shows(c, w2.points, w2.lines, w2.diagrams, w2.instructions, |w1.instructions|, e)
    ensures Logs(c, w0, w2, log + [e])
  {
    var log' := log + [e];
    forall j | 0 <= j < |log'|
      ensures Shows(c, w2.points, w2.lines, w2.diagrams, w2.instructions, |w0.instructions| + j, log'[j])
    {
      if j < |log| {
        ShowsGrow(c, w1, w2, |w0.instructions| + j, log[j]);
      }
    }
  }

  /** A point step adds the point's picture and sentence to the log. */
  lemma LogsPoint(c: Config, w0: Work, w1: Work, log: seq<Explanation>, p: PointRef)
    requires Logs(c, w0, w1, log) && w1.stack != [] && w1.pointPool != []
    ensures var w2 := AfterPoint(c, w1, p);
      Logs(c, w0, w2, log + [Explanation(PointR(p), LastLabel(w1.pointPool))])
  {
    ShowsPoint(c, w1, p);
    LogsAppend(c, w0, w1, AfterPoint(c, w1, p), log, Explanation(PointR(p), LastLabel(w1.pointPool)));
  }

  /** A fold step adds the line's picture and sentence to the log. */
  lemma LogsFold(c: Config, w0: Work, w1: Work, log: seq<Explanation>, l: LineRef, d: Diagram)
    requires Logs(c, w0, w1, log) && w1.stack != [] && w1.linePool != [] && l.axiom.Some? && d.fold == Some(l)
    ensures var w2 := AfterFold(c, w1, l, d);
      Logs(c, w0, w2, log + [Explanation(LineR(l), LastLabel(w1.linePool))])
  {
    ShowsFold(c, w1, l, d);
    LogsAppend(c, w0, w1, AfterFold(c, w1, l, d), log, Explanation(LineR(l), LastLabel(w1.linePool)));
  }

  /** The point step shows the point, under its new label, in the picture
      and the sentence it adds. */
  lemma ShowsPoint(c: Config, w1: Work, p: PointRef)
    requires w1.stack != [] && w1.pointPool != [] && |w1.diagrams| == |w1.instructions|
    ensures var w2 := AfterPoint(c, w1, p);
      Shows(c, w2.points, w2.lines, w2.diagrams, w2.instructions, |w1.instructions|, Explanation(PointR(p), LastLabel(w1.pointPool)))
  {
    var name := LastLabel(w1.pointPool);
    var m' := LabelPoint(c, w1.marks, p, name);
    assert PointName(c, m', p) == PointDescription(name);
    EndsWithAppended("The intersection between " + LineName(c, m', p.firstLine) + " and "
      + LineName(c, m', p.secondLine) + " creates ", PointDescription(name) + ".");
  }

  /** The fold step shows the line, under its new label, in the picture
      and the sentence it adds. */
  lemma ShowsFold(c: Config, w1: Work, l: LineRef, d: Diagram)
    requires w1.stack != [] && w1.linePool != [] && l.axiom.Some? && d.fold == Some(l) && |w1.diagrams| == |w1.instructions|
    ensures var w2 := AfterFold(c, w1, l, d);
      Shows(c, w2.points, w2.lines, w2.diagrams, w2.instructions, |w1.instructions|, Explanation(LineR(l), LastLabel(w1.linePool)))
  {
    var name := LastLabel(w1.linePool);
    var m' := LabelLine(c, w1.marks, l, name);
    assert LineName(c, m', l) == LineDescription(name);
    EndsWithAppended(FoldAction(c, m', l.axiom.value) + ", creating ", LineDescription(name) + ".");
  }

  /** A ready entry explained: the log gains its reference and the label
      it took. */
  lemma LogsReady(c: Config, w0: Work, w1: Work, w2: Work, log: seq<Explanation>, arrowsOf: LineRef -> seq<Arrow>)
    returns (log': seq<Explanation>)
    requires Logs(c, w0, w1, log) && w1.stack != []
    requires var r := w1.stack[|w1.stack| - 1].ref;
      r.PointR? ==> w1.pointPool != [] && w2 == AfterPoint(c, w1, r.pr)
    requires var r := w1.stack[|w1.stack| - 1].ref;
      r.LineR? ==>
        w1.linePool != [] && r.lr.axiom.Some? &&
        w2 == AfterFold(c, w1, r.lr, FoldPicture(c, w1.diagrams, r.lr, r.lr.axiom.value, arrowsOf(r.lr)))
    ensures Logs(c, w0, w2, log')
    ensures var r := w1.stack[|w1.stack| - 1].ref;
      log' == log + [Explanation(r, LastLabel(if r.PointR? then w1.pointPool else w1.linePool))]
  {
    var r := w1.stack[|w1.stack| - 1].ref;
    match r {
    case PointR(p) =>
      LogsPoint(c, w0, w1, log, p);
      log' := log + [Explanation(r, LastLabel(w1.pointPool))];
    case LineR(l) =>
      LogsFold(c, w0, w1, log, l, FoldPicture(c, w1.diagrams, l, l.axiom.value, arrowsOf(l)));
      log' := log + [Explanation(r, LastLabel(w1.linePool))];
    }
  }

  /** One pass of the loop of `makeInstructions`: the top entry handled,
      ready or not, unless it needs a label from an empty pool; what it
      explains is added to the log. */
  method Advance(c: Config, ghost w0: Work, w: Work, reference: Ref, arrowsOf: LineRef -> seq<Arrow>, ghost log: seq<Explanation>)
    returns (ok: bool, w': Work, ghost log': seq<Explanation>)
    requires Invariant(c, w, reference) && w.stack != [] && Advanced(w0, w) && Logs(c, w0, w, log)
    ensures ok <==> !Starved(c, w)
    ensures !ok ==> w' == w && log' == log
    ensures ok ==> Invariant(c, w', reference) && StackWeight(w'.stack) < StackWeight(w.stack)
    ensures ok ==> Advanced(w0, w') && Logs(c, w0, w', log')
  {
    log' := log;
    var top := w.stack[|w.stack| - 1];
    if top.ready {
      ok, w' := StepReady(c, w, reference, arrowsOf);
      if ok {
        log' := LogsReady(c, w0, w, w', log, arrowsOf);
      }
    } else {
      ok, w' := StepUnready(c, w, reference);
      if ok {
        LogsKeep(c, w0, w, w', log);
      }
    }
    if ok {
      AdvancedTrans(w0, w, w');
    }
  }

/** `makeInstructions` on the finder's values, from a stack holding
      `reference` alone and full label pools. It runs until the stack is
      empty, or stops with `ok` false where the program traps, on an entry
      that needs a label from an empty pool. `log` lists what each step
      explained: one picture and one sentence were written for each of
      its entries, in order. */
  method BuildInstructions(c: Config, w: Work, reference: Ref, arrowsOf: LineRef -> seq<Arrow>)
    returns (ok: bool, w': Work, ghost log: seq<Explanation>)
    requires Coherent(c, w.marks, w.points, w.lines, w.diagrams, w.instructions)
    requires w.stack == [Entry(reference, false)] && w.pointPool == PointLabelPool && w.linePool == LineLabelPool
    ensures Advanced(w, w') && Coherent(c, w'.marks, w'.points, w'.lines, w'.diagrams, w'.instructions)
    ensures ok <==> w'.stack == []
    ensures !ok ==> Starved(c, w')
    ensures ok ==> Settled(c, w'.marks, w'.points, w'.lines, reference)
    ensures Logs(c, w, w', log)
  {
    w' := w;
    ok := true;
    log := [];
    assert w.stack[0].ref == reference;
    while w'.stack != []
      invariant Invariant(c, w', reference) && Advanced(w, w') && Logs(c, w, w', log)
      decreases StackWeight(w'.stack)
    {
      var next: Work;
      ok, next, log := Advance(c, w, w', reference, arrowsOf, log);
      if !ok {
        return;
      }
      w' := next;
    }
  }

  /** The values `makeInstructions` starts from: the finder's, a stack
      holding `reference` alone, and full label pools. */
  function Start(f: ReferenceFinder, reference: Ref): Work
    reads f
  {
    Work(f.marks, f.referencedPoints, f.referencedLines, f.diagrams, f.instructions,
         [Entry(reference, false)], PointLabelPool, LineLabelPool)
  }

  /** The finder holds the labels, referenced sets, pictures and sentences
      of `w`. */
  predicate Holds(f: ReferenceFinder, w: Work)
    reads f
  {
    w.marks == f.marks && w.points == f.referencedPoints && w.lines == f.referencedLines
    && w.diagrams == f.diagrams && w.instructions == f.instructions
  }

  /** `makeInstructions(for:)`: explain `reference` and, first, everything
      it depends on that has no label yet. It fails, where the program
      traps, exactly when a step needs a label from an empty pool; `last`
      is the state it stopped in. Each entry of `log` got one picture and
      one sentence, in order, and nothing else was written. */
  method MakeInstructions(f: ReferenceFinder, reference: Ref, arrowsOf: LineRef -> seq<Arrow>)
    returns (ok: bool, ghost last: Work, ghost log: seq<Explanation>)
    modifies f`referencedPoints, f`referencedLines, f`marks, f`diagrams, f`instructions
    requires f.Valid()
    ensures f.Valid() && LabelsGrow(old(f.marks), f.marks)
    ensures old(f.referencedPoints) <= f.referencedPoints && old(f.referencedLines) <= f.referencedLines
    ensures old(f.diagrams) <= f.diagrams && old(f.instructions) <= f.instructions
    ensures |f.instructions| <= |old(f.instructions)| + |PointLabelPool| + |LineLabelPool|
    ensures Holds(f, last)
    ensures ok <==> last.stack == []
    ensures !ok ==> Starved(f.config, last)
    ensures ok ==> Settled(f.config, f.marks, f.referencedPoints, f.referencedLines, reference)
    ensures Logs(f.config, old(Start(f, reference)), last, log)
  {
    var w := Start(f, reference);
    var w';
    ok, w', log := BuildInstructions(f.config, w, reference, arrowsOf);
    last := w';
    f.marks, f.referencedPoints, f.referencedLines, f.diagrams, f.instructions := w'.marks, w'.points, w'.lines, w'.diagrams, w'.instructions;
  }

  /* ---------------------------------------------------------------------
     `clearInstructions`
     --------------------------------------------------------------------- */

  /** The labels after the references `xs` are reset to `_`, by key. */
  function Unlabel<X>(labels: map<int, string>, key: X -> int, xs: seq<X>): map<int, string>
    decreases |xs|
  {
    if xs == [] then labels
    else Unlabel(labels, key, xs[..|xs| - 1])[key(xs[|xs| - 1]) := Unlabelled]
  }

  /** The key that decides point equality. */
  function PointKeyOf(c: Config): (key: PointRef -> int)
    ensures forall p :: key(p) == PointRefKey(c, p)
  {
    p => PointRefKey(c, p)
  }

  /** The loop that resets the labels of `xs`. */
  method UnlabelAll<X>(labels: map<int, string>, key: X -> int, xs: seq<X>) returns (r: map<int, string>)
    ensures r == Unlabel(labels, key, xs)
  {
    r := labels;
    for i := 0 to |xs|
      invariant r == Unlabel(labels, key, xs[..i])
    {
      assert xs[..i + 1][..i] == xs[..i];
      r := r[key(xs[i]) := Unlabelled];
    }
    assert xs[..|xs|] == xs;
  }

  /** After the references `xs` are reset, a key reads `_` if one of them
      has it, and reads as before otherwise. */
  lemma {:induction false} UnlabelAt<X>(labels: map<int, string>, key: X -> int, xs: seq<X>, k: int)
    ensures (exists x <- xs :: key(x) == k) ==> k in Unlabel(labels, key, xs) && Unlabel(labels, key, xs)[k] == Unlabelled
    ensures (forall x <- xs :: key(x) != k) ==>
      (k in Unlabel(labels, key, xs) <==> k in labels) && (k in labels ==> Unlabel(labels, key, xs)[k] == labels[k])
    decreases |xs|
  {
    if xs != [] {
      var init := xs[..|xs| - 1];
      var last := xs[|xs| - 1];
      assert xs == init + [last];
      UnlabelAt(labels, key, init, k);
      if key(last) != k && exists x <- xs :: key(x) == k {
        var x :| x in xs && key(x) == k;
        assert x in init;
      }
    }
  }

  /** After clearing, a reference equal to a referenced one reads as
      unlabelled, and any other reads as before. */
  lemma ClearedLabels(c: Config, m: Marks, points: seq<PointRef>, lines: seq<LineRef>, p: PointRef, l: LineRef)
    ensures var m' := m.(pointLabels := Unlabel(m.pointLabels, PointKeyOf(c), points),
                         lineLabels := Unlabel(m.lineLabels, LineKeyOf(c), lines));
      (HasPoint(c, points, p) ==> PointLabel(c, m', p) == Unlabelled)
      && (!HasPoint(c, points, p) ==> PointLabel(c, m', p) == PointLabel(c, m, p))
      && (HasLine(c, lines, l) ==> LineLabel(c, m', l) == Unlabelled)
      && (!HasLine(c, lines, l) ==> LineLabel(c, m', l) == LineLabel(c, m, l))
  {
    UnlabelAt(m.pointLabels, PointKeyOf(c), points, PointRefKey(c, p));
    UnlabelAt(m.lineLabels, LineKeyOf(c), lines, LineRefKey(c, l));
    if HasPoint(c, points, p) {
      var q :| q in points && PointRefEq(c, q, p);
      assert PointKeyOf(c)(q) == PointRefKey(c, p);
    } else {
      forall q <- points ensures PointKeyOf(c)(q) != PointRefKey(c, p) {
        assert !PointRefEq(c, q, p);
      }
    }
    if HasLine(c, lines, l) {
      var k :| k in lines && LineRefEq(c, k, l);
      assert LineKeyOf(c)(k) == LineRefKey(c, l);
    } else {
      forall k <- lines ensures LineKeyOf(c)(k) != LineRefKey(c, l) {
        assert !LineRefEq(c, k, l);
      }
    }
  }

  /** `clearInstructions()`: every referenced reference goes back to `_`,
      and the referenced sets, sentences and pictures are emptied. */
  method ClearInstructions(f: ReferenceFinder)
    modifies f`marks, f`referencedPoints, f`referencedLines, f`instructions, f`diagrams
    requires f.Valid()
    ensures f.marks == old(f.marks).(pointLabels := Unlabel(old(f.marks.pointLabels), PointKeyOf(f.config), old(f.referencedPoints)),
                                     lineLabels := Unlabel(old(f.marks.lineLabels), LineKeyOf(f.config), old(f.referencedLines)))
    ensures f.referencedPoints == [] && f.referencedLines == [] && f.instructions == [] && f.diagrams == []
    ensures f.Valid()
  {
    var pointLabels := UnlabelAll(f.marks.pointLabels, PointKeyOf(f.config), f.referencedPoints);
    var lineLabels := UnlabelAll(f.marks.lineLabels, LineKeyOf(f.config), f.referencedLines);
    f.marks := f.marks.(pointLabels := pointLabels, lineLabels := lineLabels);
    f.referencedPoints, f.referencedLines, f.instructions, f.diagrams := [], [], [], [];
  }
}
