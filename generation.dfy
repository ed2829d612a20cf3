/** Building the references rank by rank (utils.swift): the seven axiom
    generators, deduplication against earlier ranks, the soft line cap,
    the intersections that give each rank its points, and the matching of a
    target point or line against everything built.

    The program's rank sets are hash sets keyed by the references' bucket
    keys; here each is a sequence with pairwise distinct keys, in insertion
    order. Each generator's nested loops are modelled by the sequence of
    what they do, in loop order: a test of the line cap before each
    candidate, and the candidate fold the axiom proposes. One method then
    carries out that sequence, with the early return at the cap. */
module Generation {
  import opened Libm
  import opened Wrappers
  import opened Geometry
  import opened References
  import opened Paper
  import opened Axioms
  import opened Finder
  import opened Enumeration

  /** One step of a generator's loops. */
  datatype Event = Check | Offer(line: LineRef)

  /** What the generators read from the finder. */
  datatype Stock = Stock(
    c: Config,
    paper: Rectangle,
    points: seq<seq<PointRef>>,
    lines: seq<seq<LineRef>>,
    numLines: int,
    maxNumLines: int)

  predicate EarlierLine(c: Config, L: seq<seq<LineRef>>, rank: int, l: LineRef) {
    exists i | 0 <= i < rank :: HasLine(c, At(L, i), l)
  }

  predicate EarlierPoint(c: Config, P: seq<seq<PointRef>>, rank: int, p: PointRef) {
    exists i | 0 <= i < rank :: HasPoint(c, At(P, i), p)
  }

  /** `contains` on a set of references: some member has the same key. */
  predicate HasLine(c: Config, s: seq<LineRef>, l: LineRef) {
    exists m <- s :: LineRefEq(c, m, l)
  }

  predicate HasPoint(c: Config, s: seq<PointRef>, p: PointRef) {
    exists q <- s :: PointRefEq(c, q, p)
  }

  predicate LineKeysDistinct(c: Config, s: seq<LineRef>) {
    forall i, j | 0 <= i < j < |s| :: !LineRefEq(c, s[i], s[j])
  }

  predicate PointKeysDistinct(c: Config, s: seq<PointRef>) {
    forall i, j | 0 <= i < j < |s| :: !PointRefEq(c, s[i], s[j])
  }

  /** `Set.insert`: a line whose key is present already changes nothing. */
  function SetInsertLine(c: Config, s: seq<LineRef>, l: LineRef): (r: seq<LineRef>)
    ensures HasLine(c, r, l)
    ensures |s| <= |r| <= |s| + 1 && r[..|s|] == s
    ensures HasLine(c, s, l) ==> r == s
    ensures LineKeysDistinct(c, s) ==> LineKeysDistinct(c, r)
  {
    if HasLine(c, s, l) then s
    else
      assert (s + [l])[|s|] == l && l in s + [l] && LineRefEq(c, l, l);
      s + [l]
  }

  function SetInsertPoint(c: Config, s: seq<PointRef>, p: PointRef): (r: seq<PointRef>)
    ensures HasPoint(c, r, p)
    ensures |s| <= |r| <= |s| + 1 && r[..|s|] == s
    ensures HasPoint(c, s, p) ==> r == s
    ensures PointKeysDistinct(c, s) ==> PointKeysDistinct(c, r)
  {
    if HasPoint(c, s, p) then s
    else
      assert (s + [p])[|s|] == p && p in s + [p] && PointRefEq(c, p, p);
      s + [p]
  }

  /** What `insert(uniqueLine:into:forRank:)` leaves in `lines`. */
  ghost function InsertedLine(c: Config, L: seq<seq<LineRef>>, rank: int, l: LineRef, lines: seq<LineRef>): seq<LineRef> {
    if EarlierLine(c, L, rank, l) then lines else SetInsertLine(c, lines, l)
  }

  /** `insert(uniqueLine:into:forRank:)`: add `l` unless a set of a lower
      rank, or `lines` itself, holds an equal line. */
  method InsertUniqueLine(c: Config, L: seq<seq<LineRef>>, rank: int, l: LineRef, lines: seq<LineRef>)
    returns (lines': seq<LineRef>)
    requires 1 <= rank <= |L|
    ensures lines' == InsertedLine(c, L, rank, l, lines)
    ensures EarlierLine(c, L, rank, l) || HasLine(c, lines, l) ==> lines' == lines
    ensures !EarlierLine(c, L, rank, l) && !HasLine(c, lines, l) ==> lines' == lines + [l]
  {
    for i := 0 to rank
      invariant forall i' | 0 <= i' < i :: !HasLine(c, At(L, i'), l)
    {
      if HasLine(c, L[i], l) {
        assert HasLine(c, At(L, i), l);
        return lines;
      }
    }
    lines' := SetInsertLine(c, lines, l);
  }

  ghost function InsertedPoint(c: Config, P: seq<seq<PointRef>>, rank: int, p: PointRef, points: seq<PointRef>): seq<PointRef> {
    if EarlierPoint(c, P, rank, p) || PointRefKey(c, p) == 0 then points else SetInsertPoint(c, points, p)
  }

  /** `insert(uniquePoint:into:forRank:)`: as for lines, and a point whose
      key is 0 is never added. */
  method InsertUniquePoint(c: Config, P: seq<seq<PointRef>>, rank: int, p: PointRef, points: seq<PointRef>)
    returns (points': seq<PointRef>)
    requires 1 <= rank <= |P|
    ensures points' == InsertedPoint(c, P, rank, p, points)
    ensures EarlierPoint(c, P, rank, p) || PointRefKey(c, p) == 0 || HasPoint(c, points, p) ==>
      points' == points
    ensures !EarlierPoint(c, P, rank, p) && PointRefKey(c, p) != 0 && !HasPoint(c, points, p) ==>
      points' == points + [p]
  {
    for i := 0 to rank
      invariant forall i' | 0 <= i' < i :: !HasPoint(c, At(P, i'), p)
      invariant 0 < i ==> PointRefKey(c, p) != 0
    {
      if HasPoint(c, P[i], p) || PointRefKey(c, p) == 0 {
        assert PointRefKey(c, p) != 0 ==> HasPoint(c, At(P, i), p);
        return points;
      }
    }
    points' := SetInsertPoint(c, points, p);
  }

  /* ---------------------------------------------------------------------
     Carrying out a generator: the cap and the insertions
     --------------------------------------------------------------------- */

  /** The lines a generator leaves in `lines` after the given steps: it
      returns at the first cap test that finds the finder's count plus the
      new lines above the maximum. */
  ghost function Consume(c: Config, L: seq<seq<LineRef>>, rank: int, numLines: int, maxNumLines: int,
                         events: seq<Event>, lines: seq<LineRef>): seq<LineRef>
    decreases |events|
  {
    if events == [] then lines
    else match events[0]
      case Check =>
        if |lines| + numLines > maxNumLines then lines
        else Consume(c, L, rank, numLines, maxNumLines, events[1..], lines)
      case Offer(l) =>
        Consume(c, L, rank, numLines, maxNumLines, events[1..], InsertedLine(c, L, rank, l, lines))
  }

  /** Every offer comes straight after a cap test. */
  predicate Guarded(events: seq<Event>) {
    forall k | 0 <= k < |events| :: events[k].Offer? ==> 0 < k && events[k - 1].Check?
  }

  /** A generator only appends to `lines`, and every line it adds was
      offered and is new to every earlier rank. */
  lemma {:induction false} ConsumeAppends(c: Config, L: seq<seq<LineRef>>, rank: int, numLines: int, maxNumLines: int,
                                          events: seq<Event>, lines: seq<LineRef>)
    ensures var r := Consume(c, L, rank, numLines, maxNumLines, events, lines);
      |lines| <= |r| && r[..|lines|] == lines
      && forall k | |lines| <= k < |r| :: Offer(r[k]) in events && !EarlierLine(c, L, rank, r[k])
    decreases |events|
  {
    if events != [] {
      var rest := events[1..];
      match events[0]
      case Check =>
        if |lines| + numLines <= maxNumLines {
          ConsumeAppends(c, L, rank, numLines, maxNumLines, rest, lines);
          ShiftMembership(events);
        }
      case Offer(l) =>
        var lines1 := InsertedLine(c, L, rank, l, lines);
        ConsumeAppends(c, L, rank, numLines, maxNumLines, rest, lines1);
        ShiftMembership(events);
        var r := Consume(c, L, rank, numLines, maxNumLines, rest, lines1);
        assert r[..|lines|] == lines by {
          assert r[..|lines1|] == lines1 && lines1[..|lines|] == lines;
        }
        forall k | |lines| <= k < |r|
          ensures Offer(r[k]) in events && !EarlierLine(c, L, rank, r[k])
        {
          if k < |lines1| {
            assert lines1 != lines && r[k] == lines1[k] == l;
          }
        }
    }
  }

  /** A generator keeps the keys of `lines` pairwise distinct. */
  lemma {:induction false} ConsumeDistinct(c: Config, L: seq<seq<LineRef>>, rank: int, numLines: int, maxNumLines: int,
                                           events: seq<Event>, lines: seq<LineRef>)
    requires LineKeysDistinct(c, lines)
    ensures LineKeysDistinct(c, Consume(c, L, rank, numLines, maxNumLines, events, lines))
    decreases |events|
  {
    if events != [] {
      match events[0]
      case Check =>
        ConsumeDistinct(c, L, rank, numLines, maxNumLines, events[1..], lines);
      case Offer(l) =>
        ConsumeDistinct(c, L, rank, numLines, maxNumLines, events[1..], InsertedLine(c, L, rank, l, lines));
    }
  }

  lemma ShiftMembership(events: seq<Event>)
    requires events != []
    ensures forall e <- events[1..] :: e in events
  {
  }

  /** The soft cap: once the count of the finder plus the new lines exceeds
      the maximum, at most one more line gets in. */
  lemma {:induction false} ConsumeCap(c: Config, L: seq<seq<LineRef>>, rank: int, numLines: int, maxNumLines: int,
                                      events: seq<Event>, lines: seq<LineRef>)
    requires Guarded(events)
    ensures var r := Consume(c, L, rank, numLines, maxNumLines, events, lines);
      |r| <= |lines| || |r| + numLines <= maxNumLines + 1
    decreases |events|
  {
    if events != [] {
      assert events[0].Check? by {
        assert !events[0].Offer?;
      }
      if |lines| + numLines <= maxNumLines {
        var rest := events[1..];
        if |rest| > 0 && rest[0].Offer? {
          var l := rest[0].line;
          var lines1 := InsertedLine(c, L, rank, l, lines);
          assert Consume(c, L, rank, numLines, maxNumLines, rest, lines)
              == Consume(c, L, rank, numLines, maxNumLines, rest[1..], lines1);
          assert Guarded(rest[1..]) by {
            forall k | 0 <= k < |rest[1..]| && rest[1..][k].Offer?
              ensures 0 < k && rest[1..][k - 1].Check?
            {
              assert events[k + 2].Offer?;
            }
          }
          ConsumeCap(c, L, rank, numLines, maxNumLines, rest[1..], lines1);
          ConsumeAppends(c, L, rank, numLines, maxNumLines, rest[1..], lines1);
        } else {
          assert Guarded(rest) by {
            forall k | 0 <= k < |rest| && rest[k].Offer?
              ensures 0 < k && rest[k - 1].Check?
            {
              assert events[k + 1].Offer?;
            }
          }
          ConsumeCap(c, L, rank, numLines, maxNumLines, rest, lines);
        }
      }
    }
  }

  /** Below the cap nothing is dropped: if the lines end within the
      maximum, every offered line is in them or in an earlier rank. */
  lemma {:induction false} ConsumeComplete(c: Config, L: seq<seq<LineRef>>, rank: int, numLines: int, maxNumLines: int,
                                           events: seq<Event>, lines: seq<LineRef>)
    ensures var r := Consume(c, L, rank, numLines, maxNumLines, events, lines);
      |r| + numLines <= maxNumLines ==>
        forall l | Offer(l) in events :: EarlierLine(c, L, rank, l) || HasLine(c, r, l)
    decreases |events|
  {
    if events != [] {
      var r := Consume(c, L, rank, numLines, maxNumLines, events, lines);
      var rest := events[1..];
      assert forall e <- events :: e == events[0] || e in rest;
      match events[0]
      case Check =>
        if |lines| + numLines <= maxNumLines {
          ConsumeComplete(c, L, rank, numLines, maxNumLines, rest, lines);
        }
      case Offer(l0) =>
        var lines1 := InsertedLine(c, L, rank, l0, lines);
        ConsumeComplete(c, L, rank, numLines, maxNumLines, rest, lines1);
        ConsumeAppends(c, L, rank, numLines, maxNumLines, rest, lines1);
        if !EarlierLine(c, L, rank, l0) {
          HasLinePrefix(c, lines1, r, l0);
        }
    }
  }

  lemma HasLinePrefix(c: Config, s: seq<LineRef>, t: seq<LineRef>, l: LineRef)
    requires |s| <= |t| && t[..|s|] == s && HasLine(c, s, l)
    ensures HasLine(c, t, l)
  {
    var m :| m in s && LineRefEq(c, m, l);
    var j :| 0 <= j < |s| && s[j] == m;
    assert t[j] == m;
  }

  lemma GuardedConcat(a: seq<Event>, b: seq<Event>)
    requires Guarded(a) && Guarded(b)
    ensures Guarded(a + b)
  {
    forall k | 0 <= k < |a + b| && (a + b)[k].Offer?
      ensures 0 < k && (a + b)[k - 1].Check?
    {
      if k >= |a| {
        assert b[k - |a|].Offer?;
      }
    }
  }

  /** A `for` loop over `xs` whose body does `body(x)`. */
  function ForEach<X>(xs: seq<X>, body: X -> seq<Event>): (r: seq<Event>)
    requires forall x <- xs :: Guarded(body(x))
    ensures Guarded(r)
    ensures forall l :: Offer(l) in r <==> exists x <- xs :: Offer(l) in body(x)
  {
    if xs == [] then []
    else
      var rest := ForEach(xs[1..], body);
      GuardedConcat(body(xs[0]), rest);
      assert forall x <- xs :: x == xs[0] || x in xs[1..];
      body(xs[0]) + rest
  }

  /* ---------------------------------------------------------------------
     The generators' loops, axiom by axiom
     --------------------------------------------------------------------- */

  /** The folds axiom `a` gives for its inputs: at most one for axioms 1,
      2, 4 and 7, at most two for axioms 3 and 5, at most three for axiom
      6. */
  function AxiomFolds(c: Config, paper: Rectangle, a: Axiom): (r: seq<Line>)
    ensures a.A1? || a.A2? || a.A4? || a.A7? ==> |r| <= 1
    ensures a.A3? || a.A5? ==> |r| <= 2
    ensures |r| <= 3
  {
    if paper.sides.None? then []
    else
      match a
      case A1(p1, p2) => OptionalFold(Axiom1(c, paper, p1.point, p2.point))
      case A2(p1, p2) => OptionalFold(Axiom2(c, paper, p1.point, p2.point))
      case A3(l1, l2) => Axiom3(c, paper, l1.line, l2.line)
      case A4(p1, l1) => OptionalFold(Axiom4(c, paper, p1.point, l1.line))
      case A5(p1, l1, p2) => Axiom5(c, paper, p1.point, l1.line, p2.point)
      case A6(p1, l1, p2, l2) =>
        Axiom6Folds(c, paper, p1.point, l1.line, p2.point, l2.line, Axiom6Roots(c, p1.point, l1.line, p2.point, l2.line))
      case A7(p1, l1, l2) => OptionalFold(Axiom7(c, paper, p1.point, l1.line, l2.line))
  }

  function OptionalFold(fold: Option<Line>): (r: seq<Line>)
    ensures fold.None? <==> r == []
    ensures fold.Some? ==> r == [fold.value]
  {
    match fold
    case None => []
    case Some(k) => [k]
  }

  /** A line that an axiom giving several folds offers. */
  predicate EachFold(folds: seq<Line>, a: Axiom, rank: int, l: LineRef) {
    l.line in folds && l == DerivedLine(l.line, a, rank)
  }

  /** A cap test, then the fold if the axiom gives one. */
  function TryFold(folds: seq<Line>, a: Axiom, rank: int): (r: seq<Event>)
    requires |folds| <= 1
    ensures Guarded(r)
    ensures forall l :: Offer(l) in r <==> EachFold(folds, a, rank, l)
  {
    if folds == [] then [Check] else [Check, Offer(DerivedLine(folds[0], a, rank))]
  }

  /** A cap test before each of the folds the axiom gives. */
  function TryFolds(folds: seq<Line>, a: Axiom, rank: int): (r: seq<Event>)
    ensures Guarded(r)
    ensures forall l :: Offer(l) in r <==> EachFold(folds, a, rank, l)
  {
    ForEach(folds, (k: Line) => [Check, Offer(DerivedLine(k, a, rank))])
  }

  /** The number of the axiom that makes `a`. */
  function AxiomNumber(a: Axiom): (n: int)
    ensures 1 <= n <= 7
  {
    match a
    case A1(_, _) => 1
    case A2(_, _) => 2
    case A3(_, _) => 3
    case A4(_, _) => 4
    case A5(_, _, _) => 5
    case A6(_, _, _, _) => 6
    case A7(_, _, _) => 7
  }

  /** The tests a generator makes on a candidate before it asks the axiom
      for folds: the point is off the line it is brought to, the two points
      (lines) differ, and for axiom 6 the points do not lie crosswise on the
      lines. Axioms 1 to 3 test nothing. */
  predicate Tried(c: Config, a: Axiom) {
    match a
    case A1(_, _) => true
    case A2(_, _) => true
    case A3(_, _) => true
    case A4(p1, l1) => !l1.line.Contains(c.eps, p1.point)
    case A5(p1, l1, p2) =>
      !PointRefEq(c, p1, p2) && !l1.line.Contains(c.eps, p1.point) && !l1.line.Contains(c.eps, p2.point)
    case A6(p1, l1, p2, l2) =>
      !PointRefEq(c, p1, p2) && !LineRefEq(c, l1, l2)
      && !l1.line.Contains(c.eps, p1.point) && !l2.line.Contains(c.eps, p2.point)
      && !(l1.line.Contains(c.eps, p2.point) && l2.line.Contains(c.eps, p1.point))
    case A7(p1, l1, _) => !l1.line.Contains(c.eps, p1.point)
  }

  /** Whether the generator tests the cap once per candidate (axioms 1, 2, 4
      and 7, before the axiom is asked) or once per fold (axioms 3, 5 and 6). */
  function CapPerFold(axiom: int): bool {
    axiom == 3 || axiom == 5 || axiom == 6
  }

  /** The steps for one candidate. */
  function Step(tried: bool, folds: seq<Line>, a: Axiom, rank: int, perFold: bool): (r: seq<Event>)
    requires !perFold ==> |folds| <= 1
    ensures Guarded(r)
    ensures forall l :: Offer(l) in r <==> tried && EachFold(folds, a, rank, l)
  {
    if !tried then [] else if perFold then TryFolds(folds, a, rank) else TryFold(folds, a, rank)
  }

  /** The inputs generator `axiom` visits at `rank`, in loop order. */
  function GeneratorInputs(P: seq<seq<PointRef>>, L: seq<seq<LineRef>>, axiom: int, rank: int): seq<Axiom> {
    match axiom
    case 1 => PointPairs(P, rank, false)
    case 2 => PointPairs(P, rank, true)
    case 3 => LinePairs(L, rank)
    case 4 => LinePointPairs(P, L, rank)
    case 5 => Axiom5Inputs(P, L, rank)
    case 6 => Axiom6Inputs(P, L, rank)
    case 7 => Axiom7Inputs(P, L, rank)
    case _ => []
  }

  /** The steps of `generateAxiom1` ... `generateAxiom7` at `rank`. */
  function GeneratorEvents(s: Stock, axiom: int, rank: int): (r: seq<Event>)
    ensures Guarded(r)
    ensures forall l :: Offer(l) in r <==>
      exists a <- GeneratorInputs(s.points, s.lines, axiom, rank) ::
        Tried(s.c, a) && EachFold(AxiomFolds(s.c, s.paper, a), a, rank, l)
  {
    ForEach(GeneratorInputs(s.points, s.lines, axiom, rank), (a: Axiom) =>
      Step(Tried(s.c, a), AxiomFolds(s.c, s.paper, a), a, rank, CapPerFold(AxiomNumber(a))))
  }

  /** `generateAxiom1` ... `generateAxiom7`: the loops of generator `axiom`
      at `rank`, adding the folds they find to `lines`. */
  method GenerateAxiom(s: Stock, axiom: int, rank: int, lines: seq<LineRef>) returns (lines': seq<LineRef>)
    requires 1 <= rank <= |s.lines|
    ensures lines' == Consume(s.c, s.lines, rank, s.numLines, s.maxNumLines, GeneratorEvents(s, axiom, rank), lines)
  {
    var events := GeneratorEvents(s, axiom, rank);
    lines' := lines;
    for k := 0 to |events|
      invariant Consume(s.c, s.lines, rank, s.numLines, s.maxNumLines, events, lines)
             == Consume(s.c, s.lines, rank, s.numLines, s.maxNumLines, events[k..], lines')
    {
      assert events[k..][1..] == events[k + 1..];
      match events[k]
      case Check =>
        if |lines'| + s.numLines > s.maxNumLines {
          return;
        }
      case Offer(l) =>
        lines' := InsertUniqueLine(s.c, s.lines, rank, l, lines');
    }
  }

  /** A line generator `axiom` may add at `rank`: a fold of a candidate
      it visits and that passes its tests, carrying that axiom and
      candidate, the rank and no label. */
  predicate FoldOf(s: Stock, axiom: int, rank: int, l: LineRef) {
    l.axiom.Some? && l.axiom.value in GeneratorInputs(s.points, s.lines, axiom, rank)
    && Tried(s.c, l.axiom.value) && l.line in AxiomFolds(s.c, s.paper, l.axiom.value)
    && l.rank == rank && l.initialLabel == Unlabelled
  }

  /** Every fold of a candidate of generator `axiom` that passes its tests
      is in an earlier rank or has its key in `r`. */
  ghost predicate Kept(s: Stock, axiom: int, rank: int, r: seq<LineRef>) {
    forall a, k | a in GeneratorInputs(s.points, s.lines, axiom, rank) && Tried(s.c, a)
                  && k in AxiomFolds(s.c, s.paper, a) ::
      EarlierLine(s.c, s.lines, rank, DerivedLine(k, a, rank)) || HasLine(s.c, r, DerivedLine(k, a, rank))
  }

  /** What a generator does to `lines`: it only appends; what it appends
      are folds of its candidates that no earlier rank holds, with keys
      distinct from each other and from the lines it started with; it
      stops at most one line beyond the cap; and when it ends within the
      cap it has left out no fold of a candidate that passed its tests. */
  lemma GeneratedLines(s: Stock, axiom: int, rank: int, lines: seq<LineRef>)
    requires LineKeysDistinct(s.c, lines)
    ensures var r := Consume(s.c, s.lines, rank, s.numLines, s.maxNumLines, GeneratorEvents(s, axiom, rank), lines);
      |lines| <= |r| && r[..|lines|] == lines
      && LineKeysDistinct(s.c, r)
      && (|r| <= |lines| || |r| + s.numLines <= s.maxNumLines + 1)
      && (forall k | |lines| <= k < |r| :: FoldOf(s, axiom, rank, r[k]) && !EarlierLine(s.c, s.lines, rank, r[k]))
      && (|r| + s.numLines <= s.maxNumLines ==> Kept(s, axiom, rank, r))
  {
    var events := GeneratorEvents(s, axiom, rank);
    var r := Consume(s.c, s.lines, rank, s.numLines, s.maxNumLines, events, lines);
    ConsumeAppends(s.c, s.lines, rank, s.numLines, s.maxNumLines, events, lines);
    ConsumeDistinct(s.c, s.lines, rank, s.numLines, s.maxNumLines, events, lines);
    ConsumeCap(s.c, s.lines, rank, s.numLines, s.maxNumLines, events, lines);
    ConsumeComplete(s.c, s.lines, rank, s.numLines, s.maxNumLines, events, lines);
    forall a, k | a in GeneratorInputs(s.points, s.lines, axiom, rank) && Tried(s.c, a)
                  && k in AxiomFolds(s.c, s.paper, a)
      ensures Offer(DerivedLine(k, a, rank)) in events
    {
      assert EachFold(AxiomFolds(s.c, s.paper, a), a, rank, DerivedLine(k, a, rank));
    }
  }

  /** Every reference in rank set `i` has rank `i`. */
  ghost predicate RanksHonest(P: seq<seq<PointRef>>, L: seq<seq<LineRef>>) {
    (forall i, p | p in At(P, i) :: p.rank == i)
    && (forall i, l | l in At(L, i) :: l.rank == i)
  }

  /** The ranks of an axiom's inputs, added up. */
  function RankSum(a: Axiom): int {
    match a
    case A1(p1, p2) => p1.rank + p2.rank
    case A2(p1, p2) => p1.rank + p2.rank
    case A3(l1, l2) => l1.rank + l2.rank
    case A4(p1, l1) => p1.rank + l1.rank
    case A5(p1, l1, p2) => p1.rank + l1.rank + p2.rank
    case A6(p1, l1, p2, l2) => p1.rank + l1.rank + p2.rank + l2.rank
    case A7(p1, l1, l2) => p1.rank + l1.rank + l2.rank
  }

  /** The rank of a fold is one more than the ranks of its inputs added up;
      axiom 6 also revisits every combination of smaller total, whose folds
      the earlier ranks already hold. */
  lemma InputRanks(P: seq<seq<PointRef>>, L: seq<seq<LineRef>>, axiom: int, rank: int, a: Axiom)
    requires RanksHonest(P, L)
    requires a in GeneratorInputs(P, L, axiom, rank)
    ensures AxiomNumber(a) == axiom
    ensures RankSum(a) <= rank - 1
    ensures axiom != 6 ==> RankSum(a) == rank - 1
  {
    match axiom
    case 1 => PointPairsRanks(P, L, rank, false, a);
    case 2 => PointPairsRanks(P, L, rank, true, a);
    case 3 => LinePairsRanks(P, L, rank, a);
    case 4 => LinePointPairsRanks(P, L, rank, a);
    case 5 => Axiom5Ranks(P, L, rank, a);
    case 6 => Axiom6Ranks(P, L, rank, a);
    case 7 => Axiom7Ranks(P, L, rank, a);
  }

  lemma PointPairsRanks(P: seq<seq<PointRef>>, L: seq<seq<LineRef>>, rank: int, bisect: bool, a: Axiom)
    requires RanksHonest(P, L) && a in PointPairs(P, rank, bisect)
    ensures PointPairKind(bisect, a) && RankSum(a) == rank - 1
  {
    var i :| 0 <= i <= (rank - 1) / 2 && PointPairAt(P, rank, bisect, i, a);
    PointPairRanks(P, L, rank, bisect, i, a);
  }

  lemma LinePairsRanks(P: seq<seq<PointRef>>, L: seq<seq<LineRef>>, rank: int, a: Axiom)
    requires RanksHonest(P, L) && a in LinePairs(L, rank)
    ensures a.A3? && RankSum(a) == rank - 1
  {
    var i :| 0 <= i <= (rank - 1) / 2 && LinePairAt(L, rank, i, a);
    LinePairRanks(P, L, rank, i, a);
  }

  lemma LinePairRanks(P: seq<seq<PointRef>>, L: seq<seq<LineRef>>, rank: int, i: int, a: Axiom)
    requires RanksHonest(P, L) && LinePairAt(L, rank, i, a)
    ensures RankSum(a) == rank - 1
  {
    LineRank(P, L, i, a.l1);
    LineRank(P, L, rank - 1 - i, a.l2);
  }

  lemma LinePointPairsRanks(P: seq<seq<PointRef>>, L: seq<seq<LineRef>>, rank: int, a: Axiom)
    requires RanksHonest(P, L) && a in LinePointPairs(P, L, rank)
    ensures a.A4? && RankSum(a) == rank - 1
  {
    var i :| 0 <= i <= (rank - 1) / 2 && LinePointPairAt(P, L, rank, i, a);
    LinePointPairRanks(P, L, rank, i, a);
  }

  lemma LinePointPairRanks(P: seq<seq<PointRef>>, L: seq<seq<LineRef>>, rank: int, i: int, a: Axiom)
    requires RanksHonest(P, L) && LinePointPairAt(P, L, rank, i, a)
    ensures RankSum(a) == rank - 1
  {
    LineRank(P, L, i, a.l1);
    PointRank(P, L, rank - 1 - i, a.p1);
  }

  lemma PointPairRanks(P: seq<seq<PointRef>>, L: seq<seq<LineRef>>, rank: int, bisect: bool, i: int, a: Axiom)
    requires RanksHonest(P, L) && PointPairAt(P, rank, bisect, i, a)
    ensures RankSum(a) == rank - 1
  {
    PointRank(P, L, i, a.p1);
    PointRank(P, L, rank - 1 - i, a.p2);
  }

  lemma Axiom5Ranks(P: seq<seq<PointRef>>, L: seq<seq<LineRef>>, rank: int, a: Axiom)
    requires RanksHonest(P, L)
    requires a in Axiom5Inputs(P, L, rank)
    ensures a.A5? && RankSum(a) == rank - 1
  {
    var i :| 0 <= i < rank && Axiom5ByRank(P, L, rank, i, a);
    var j :| 0 <= j < rank - i && Axiom5At(P, L, rank, i, j, a);
    Axiom5AtRanks(P, L, rank, i, j, a);
  }

  lemma Axiom5AtRanks(P: seq<seq<PointRef>>, L: seq<seq<LineRef>>, rank: int, i: int, j: int, a: Axiom)
    requires RanksHonest(P, L) && Axiom5At(P, L, rank, i, j, a)
    ensures RankSum(a) == rank - 1
  {
    PointRank(P, L, i, a.p1);
    LineRank(P, L, j, a.l1);
    PointRank(P, L, rank - i - j - 1, a.p2);
  }

  lemma Axiom7Ranks(P: seq<seq<PointRef>>, L: seq<seq<LineRef>>, rank: int, a: Axiom)
    requires RanksHonest(P, L)
    requires a in Axiom7Inputs(P, L, rank)
    ensures a.A7? && RankSum(a) == rank - 1
  {
    var i :| 0 <= i < rank && Axiom7ByRank(P, L, rank, i, a);
    var j :| 0 <= j < rank - i && Axiom7At(P, L, rank, i, j, a);
    Axiom7AtRanks(P, L, rank, i, j, a);
  }

  lemma Axiom7AtRanks(P: seq<seq<PointRef>>, L: seq<seq<LineRef>>, rank: int, i: int, j: int, a: Axiom)
    requires RanksHonest(P, L) && Axiom7At(P, L, rank, i, j, a)
    ensures RankSum(a) == rank - 1
  {
    LineRank(P, L, i, a.l1);
    PointRank(P, L, j, a.p1);
    LineRank(P, L, rank - i - j - 1, a.l2);
  }

  lemma Axiom6Ranks(P: seq<seq<PointRef>>, L: seq<seq<LineRef>>, rank: int, a: Axiom)
    requires RanksHonest(P, L)
    requires a in Axiom6Inputs(P, L, rank)
    ensures a.A6? && RankSum(a) <= rank - 1
  {
    var sumP :| 0 <= sumP < rank && Axiom6BySumP(P, L, rank, sumP, a);
    var sumL :| 0 <= sumL < rank - sumP && Axiom6BySums(P, L, sumP, sumL, a);
    Axiom6SumsRanks(P, L, sumP, sumL, a);
  }

  lemma Axiom6SumsRanks(P: seq<seq<PointRef>>, L: seq<seq<LineRef>>, sumP: int, sumL: int, a: Axiom)
    requires RanksHonest(P, L) && Axiom6BySums(P, L, sumP, sumL, a)
    ensures a.A6? && RankSum(a) <= sumP + sumL
  {
    var i :| 0 <= i < sumP / 2 + 1 && Axiom6ByPointRanks(P, L, sumP, i, sumL, a);
    Axiom6RanksWithin(P, L, sumP, i, sumL, a);
  }

  lemma Axiom6RanksWithin(P: seq<seq<PointRef>>, L: seq<seq<LineRef>>, sumP: int, i: int, sumL: int, a: Axiom)
    requires RanksHonest(P, L)
    requires Axiom6ByPointRanks(P, L, sumP, i, sumL, a)
    ensures a.A6? && RankSum(a) <= sumP + sumL
  {
    var k :| 0 <= k < sumL + 1 && Axiom6ByLineRank(P, L, sumP, i, k, sumL, a);
    var m :| 0 <= m < sumL - k + 1 && Axiom6At(P, L, sumP, i, k, m, a);
    Axiom6AtRanks(P, L, sumP, i, k, m, a);
  }

  lemma Axiom6AtRanks(P: seq<seq<PointRef>>, L: seq<seq<LineRef>>, sumP: int, i: int, k: int, m: int, a: Axiom)
    requires RanksHonest(P, L) && Axiom6At(P, L, sumP, i, k, m, a)
    ensures RankSum(a) == sumP + k + m
  {
    PointRank(P, L, i, a.p1);
    PointRank(P, L, sumP - i, a.p2);
    LineRank(P, L, k, a.l1);
    LineRank(P, L, m, a.l2);
  }

  lemma PointRank(P: seq<seq<PointRef>>, L: seq<seq<LineRef>>, i: int, p: PointRef)
    requires RanksHonest(P, L) && p in At(P, i)
    ensures p.rank == i
  {
  }

  lemma LineRank(P: seq<seq<PointRef>>, L: seq<seq<LineRef>>, i: int, l: LineRef)
    requires RanksHonest(P, L) && l in At(L, i)
    ensures l.rank == i
  {
  }

  /* ---------------------------------------------------------------------
     Intersections
     --------------------------------------------------------------------- */

  /** The point `getIntersections` proposes for two lines: where they cross
      at no less than the minimum angle, if that is inside the paper grown
      by the tolerance. */
  function CrossingPoint(c: Config, paper: Rectangle, l1: LineRef, l2: LineRef, rank: int): Option<PointRef> {
    match IntersectionWithAngle(c, c.minAngle, l1.line, l2.line)
    case None => None
    case Some(v) => if paper.Encloses(c.eps, v) then Some(DerivedPoint(l1, l2, v, rank)) else None
  }

  /** `CrossingPoint` for the lines of one rank. */
  function Cross(c: Config, paper: Rectangle, rank: int): (LineRef, LineRef) -> Option<PointRef> {
    (l1: LineRef, l2: LineRef) => CrossingPoint(c, paper, l1, l2, rank)
  }

  /** The points proposed for `lines1` against `lines2`, in loop order. */
  function Crossings(cross: (LineRef, LineRef) -> Option<PointRef>, lines1: seq<LineRef>, lines2: seq<LineRef>): (r: seq<PointRef>)
    ensures forall p :: p in r <==> exists l1 <- lines1, l2 <- lines2 :: cross(l1, l2) == Some(p)
    decreases |lines1|
  {
    if lines1 == [] then []
    else
      var init := lines1[..|lines1| - 1];
      assert forall l <- lines1 :: l in init || l == lines1[|lines1| - 1];
      Crossings(cross, init, lines2) + CrossingRow(cross, lines1[|lines1| - 1], lines2)
  }

  function CrossingRow(cross: (LineRef, LineRef) -> Option<PointRef>, l1: LineRef, lines2: seq<LineRef>): (r: seq<PointRef>)
    ensures forall p :: p in r <==> exists l2 <- lines2 :: cross(l1, l2) == Some(p)
    decreases |lines2|
  {
    if lines2 == [] then []
    else
      var init := lines2[..|lines2| - 1];
      assert forall l <- lines2 :: l in init || l == lines2[|lines2| - 1];
      CrossingRow(cross, l1, init) + OptionalPoint(cross(l1, lines2[|lines2| - 1]))
  }

  function OptionalPoint(p: Option<PointRef>): (r: seq<PointRef>)
    ensures forall q :: q in r <==> p == Some(q)
  {
    match p
    case None => []
    case Some(q) => [q]
  }

  /** What `insert(uniquePoint:into:forRank:)` leaves after offering each of
      `ps` in turn. */
  ghost function InsertedPoints(c: Config, P: seq<seq<PointRef>>, rank: int, ps: seq<PointRef>, points: seq<PointRef>): seq<PointRef>
    decreases |ps|
  {
    if ps == [] then points
    else InsertedPoint(c, P, rank, ps[|ps| - 1], InsertedPoints(c, P, rank, ps[..|ps| - 1], points))
  }

  /** Offering points one by one: the set only grows, keeps its keys
      distinct, takes in only offered points that are new to every earlier
      rank and have a nonzero key, and ends up holding (a point with the key
      of) every offered point except those. */
  lemma {:induction false} InsertedPointsFacts(c: Config, P: seq<seq<PointRef>>, rank: int, ps: seq<PointRef>, points: seq<PointRef>)
    requires PointKeysDistinct(c, points)
    ensures var r := InsertedPoints(c, P, rank, ps, points);
      |points| <= |r| && r[..|points|] == points
      && PointKeysDistinct(c, r)
      && (forall k | |points| <= k < |r| :: r[k] in ps && !EarlierPoint(c, P, rank, r[k]) && PointRefKey(c, r[k]) != 0)
      && (forall p <- ps :: EarlierPoint(c, P, rank, p) || PointRefKey(c, p) == 0 || HasPoint(c, r, p))
    decreases |ps|
  {
    if ps != [] {
      var init, p := ps[..|ps| - 1], ps[|ps| - 1];
      InsertedPointsFacts(c, P, rank, init, points);
      var r0 := InsertedPoints(c, P, rank, init, points);
      var r := InsertedPoint(c, P, rank, p, r0);
      assert r[..|r0|] == r0;
      assert r[..|points|] == points by {
        assert r0[..|points|] == points;
      }
      forall q <- ps | !EarlierPoint(c, P, rank, q) && PointRefKey(c, q) != 0
        ensures HasPoint(c, r, q)
      {
        if q != p {
          assert q in init;
          HasPointPrefix(c, r0, r, q);
        }
      }
    }
  }

  lemma HasPointPrefix(c: Config, s: seq<PointRef>, t: seq<PointRef>, p: PointRef)
    requires |s| <= |t| && t[..|s|] == s && HasPoint(c, s, p)
    ensures HasPoint(c, t, p)
  {
    var m :| m in s && PointRefEq(c, m, p);
    var j :| 0 <= j < |s| && s[j] == m;
    assert t[j] == m;
  }

  /** `getIntersections(_:_:forRank:)`: the points where the lines of
      `lines1` cross those of `lines2`, without the points earlier ranks
      hold. */
  method GetIntersections(c: Config, paper: Rectangle, P: seq<seq<PointRef>>, lines1: seq<LineRef>, lines2: seq<LineRef>,
                          rank: int) returns (points: seq<PointRef>)
    requires 1 <= rank <= |P|
    ensures points == InsertedPoints(c, P, rank, Crossings(Cross(c, paper, rank), lines1, lines2), [])
  {
    points := [];
    for i := 0 to |lines1|
      invariant points == InsertedPoints(c, P, rank, Crossings(Cross(c, paper, rank), lines1[..i], lines2), [])
    {
      ghost var done := Crossings(Cross(c, paper, rank), lines1[..i], lines2);
      assert done + CrossingRow(Cross(c, paper, rank), lines1[i], lines2[..0]) == done by {
        assert lines2[..0] == [];
      }
      for j := 0 to |lines2|
        invariant points == InsertedPoints(c, P, rank, done + CrossingRow(Cross(c, paper, rank), lines1[i], lines2[..j]), [])
      {
        CrossingStep(c, P, paper, done, lines1[i], lines2, j, rank);
        match IntersectionWithAngle(c, c.minAngle, lines1[i].line, lines2[j].line)
        case Some(v) =>
          if paper.Encloses(c.eps, v) {
            points := InsertUniquePoint(c, P, rank, DerivedPoint(lines1[i], lines2[j], v, rank), points);
          }
        case None =>
      }
      RowDone(Cross(c, paper, rank), lines1, lines2, i);
    }
    assert lines1[..|lines1|] == lines1;
  }

  /** One turn of the inner loop of `getIntersections`. */
  lemma CrossingStep(c: Config, P: seq<seq<PointRef>>, paper: Rectangle, done: seq<PointRef>, l1: LineRef, lines2: seq<LineRef>,
                     j: int, rank: int)
    requires 0 <= j < |lines2|
    ensures var before := done + CrossingRow(Cross(c, paper, rank), l1, lines2[..j]);
      var after := done + CrossingRow(Cross(c, paper, rank), l1, lines2[..j + 1]);
      match Cross(c, paper, rank)(l1, lines2[j])
      case None => after == before
      case Some(p) => InsertedPoints(c, P, rank, after, []) == InsertedPoint(c, P, rank, p, InsertedPoints(c, P, rank, before, []))
  {
    assert lines2[..j + 1][..j] == lines2[..j];
    var before := done + CrossingRow(Cross(c, paper, rank), l1, lines2[..j]);
    var after := done + CrossingRow(Cross(c, paper, rank), l1, lines2[..j + 1]);
    var opt := OptionalPoint(Cross(c, paper, rank)(l1, lines2[j]));
    assert after == before + opt;
    if opt != [] {
      assert after[..|after| - 1] == before;
    }
  }

  /** The end of the inner loop of `getIntersections`. */
  lemma RowDone(cross: (LineRef, LineRef) -> Option<PointRef>, lines1: seq<LineRef>, lines2: seq<LineRef>, i: int)
    requires 0 <= i < |lines1|
    ensures Crossings(cross, lines1[..i + 1], lines2) == Crossings(cross, lines1[..i], lines2) + CrossingRow(cross, lines1[i], lines2[..|lines2|])
  {
    var s := lines1[..i + 1];
    assert s[..|s| - 1] == lines1[..i] && s[|s| - 1] == lines1[i];
    assert lines2[..|lines2|] == lines2;
  }

  /** `formUnion`: each point of `b` in turn, added unless its key is
      already present. */
  function UnionPoints(c: Config, a: seq<PointRef>, b: seq<PointRef>): seq<PointRef>
    decreases |b|
  {
    if b == [] then a else SetInsertPoint(c, UnionPoints(c, a, b[..|b| - 1]), b[|b| - 1])
  }

  /** The union extends `a`, takes its points from `a` and `b` only, and
      keeps keys distinct. */
  lemma {:induction false} UnionPointsSound(c: Config, a: seq<PointRef>, b: seq<PointRef>)
    ensures var r := UnionPoints(c, a, b);
      |a| <= |r| && r[..|a|] == a
      && (forall x <- r :: x in a || x in b)
      && (PointKeysDistinct(c, a) ==> PointKeysDistinct(c, r))
    decreases |b|
  {
    if b != [] {
      var init := UnionPoints(c, a, b[..|b| - 1]);
      var r := SetInsertPoint(c, init, b[|b| - 1]);
      UnionPointsSound(c, a, b[..|b| - 1]);
      assert r[..|a|] == a by {
        assert r[..|init|] == init;
        assert init[..|a|] == a;
      }
    }
  }

  /** The union extends `a` and holds (a point with the key of) every point
      of `b`. */
  lemma {:induction false} UnionPointsComplete(c: Config, a: seq<PointRef>, b: seq<PointRef>)
    ensures var r := UnionPoints(c, a, b);
      |a| <= |r| && r[..|a|] == a && forall x <- b :: HasPoint(c, r, x)
    decreases |b|
  {
    if b != [] {
      var init := UnionPoints(c, a, b[..|b| - 1]);
      var r := SetInsertPoint(c, init, b[|b| - 1]);
      UnionPointsComplete(c, a, b[..|b| - 1]);
      assert r[..|a|] == a by {
        assert r[..|init|] == init;
        assert init[..|a|] == a;
      }
      assert forall x <- b :: x in b[..|b| - 1] || x == b[|b| - 1];
      forall x <- b[..|b| - 1] ensures HasPoint(c, r, x) {
        HasPointPrefix(c, init, r, x);
      }
    }
  }

  /** Folding `formUnion` over a sequence of sets, first to last. */
  function UnionAll(c: Config, rows: seq<seq<PointRef>>): seq<PointRef>
    decreases |rows|
  {
    if rows == [] then [] else UnionPoints(c, UnionAll(c, rows[..|rows| - 1]), rows[|rows| - 1])
  }

  /** The union of sets keeps keys distinct. */
  lemma {:induction false} UnionAllDistinct(c: Config, rows: seq<seq<PointRef>>)
    ensures PointKeysDistinct(c, UnionAll(c, rows))
    decreases |rows|
  {
    if rows != [] {
      UnionAllDistinct(c, rows[..|rows| - 1]);
      UnionPointsSound(c, UnionAll(c, rows[..|rows| - 1]), rows[|rows| - 1]);
    }
  }

  /** Every point of the union comes from one of the sets. */
  lemma {:induction false} UnionAllSound(c: Config, rows: seq<seq<PointRef>>)
    ensures forall x <- UnionAll(c, rows) :: exists k | 0 <= k < |rows| :: x in rows[k]
    decreases |rows|
  {
    if rows != [] {
      var init := rows[..|rows| - 1];
      UnionAllSound(c, init);
      UnionPointsSound(c, UnionAll(c, init), rows[|rows| - 1]);
      forall x <- UnionAll(c, rows) ensures exists k | 0 <= k < |rows| :: x in rows[k] {
        if x in UnionAll(c, init) {
          var k :| 0 <= k < |init| && x in init[k];
          assert x in rows[k];
        } else {
          assert x in rows[|rows| - 1];
        }
      }
    }
  }

  /** The union holds (a point with the key of) every point of every set. */
  lemma {:induction false} UnionAllComplete(c: Config, rows: seq<seq<PointRef>>)
    ensures forall k, x | 0 <= k < |rows| && x in rows[k] :: HasPoint(c, UnionAll(c, rows), x)
    decreases |rows|
  {
    if rows != [] {
      var init := rows[..|rows| - 1];
      var a := UnionAll(c, init);
      var r := UnionAll(c, rows);
      UnionAllComplete(c, init);
      UnionPointsComplete(c, a, rows[|rows| - 1]);
      forall k, x | 0 <= k < |rows| && x in rows[k] ensures HasPoint(c, r, x) {
        if k < |init| {
          assert x in init[k];
          HasPointPrefix(c, a, r, x);
        }
      }
    }
  }

  /** The sets `getIntersections` returns in the first `n` turns of the
      loop over `i` in `makeAllPointsAndLines`: the crossings of the lines
      of ranks `i` and `rank - i`, without the points earlier ranks hold. */
  ghost function RankRows(c: Config, cross: (LineRef, LineRef) -> Option<PointRef>, P: seq<seq<PointRef>>,
                          L: seq<seq<LineRef>>, rank: int, n: nat): seq<seq<PointRef>> {
    seq(n, i => InsertedPoints(c, P, rank, RankCrossings(cross, L, rank, i), []))
  }

  /** The points proposed for the lines of ranks `i` and `rank - i`. */
  function RankCrossings(cross: (LineRef, LineRef) -> Option<PointRef>, L: seq<seq<LineRef>>, rank: int, i: int): seq<PointRef> {
    Crossings(cross, At(L, i), At(L, rank - i))
  }

  /** The loop over `i` in `makeAllPointsAndLines`: the new points of
      `rank`, once its lines are stored. */
  method NewPoints(c: Config, paper: Rectangle, P: seq<seq<PointRef>>, L: seq<seq<LineRef>>, rank: int)
    returns (newPoints: seq<PointRef>)
    requires 1 <= rank <= |P| && rank < |L|
    ensures newPoints == UnionAll(c, RankRows(c, Cross(c, paper, rank), P, L, rank, rank / 2 + 1))
  {
    newPoints := [];
    assert RankRows(c, Cross(c, paper, rank), P, L, rank, 0) == [];
    for i := 0 to rank / 2 + 1
      invariant newPoints == UnionAll(c, RankRows(c, Cross(c, paper, rank), P, L, rank, i))
    {
      var j := rank - i;
      var points := GetIntersections(c, paper, P, L[i], L[j], rank);
      RankRowsStep(c, Cross(c, paper, rank), P, L, rank, i);
      newPoints := UnionPoints(c, newPoints, points);
    }
  }

  lemma RankRowsStep(c: Config, cross: (LineRef, LineRef) -> Option<PointRef>, P: seq<seq<PointRef>>, L: seq<seq<LineRef>>,
                     rank: int, i: nat)
    requires i <= rank < |L|
    ensures UnionAll(c, RankRows(c, cross, P, L, rank, i + 1))
         == UnionPoints(c, UnionAll(c, RankRows(c, cross, P, L, rank, i)), InsertedPoints(c, P, rank, Crossings(cross, L[i], L[rank - i]), []))
  {
    var rows := RankRows(c, cross, P, L, rank, i + 1);
    RankRowsLast(c, cross, P, L, rank, i);
    assert RankCrossings(cross, L, rank, i) == Crossings(cross, L[i], L[rank - i]);
    UnionAllLast(c, rows);
  }

  lemma RankRowsLast(c: Config, cross: (LineRef, LineRef) -> Option<PointRef>, P: seq<seq<PointRef>>, L: seq<seq<LineRef>>,
                     rank: int, i: nat)
    ensures var rows := RankRows(c, cross, P, L, rank, i + 1);
      rows[..|rows| - 1] == RankRows(c, cross, P, L, rank, i)
      && rows[|rows| - 1] == InsertedPoints(c, P, rank, RankCrossings(cross, L, rank, i), [])
  {
  }

  lemma UnionAllLast(c: Config, rows: seq<seq<PointRef>>)
    requires rows != []
    ensures UnionAll(c, rows) == UnionPoints(c, UnionAll(c, rows[..|rows| - 1]), rows[|rows| - 1])
  {
  }

  /** A crossing of a line of rank `i` with one of rank `rank - i`, for
      one of the first `n` values of `i`. */
  ghost predicate CrossingOf(cross: (LineRef, LineRef) -> Option<PointRef>, L: seq<seq<LineRef>>, rank: int, n: int, p: PointRef) {
    exists i | 0 <= i < n :: p in RankCrossings(cross, L, rank, i)
  }

  /** The new points of a rank: keys pairwise distinct, and each a crossing
      of the lines of two ranks adding up to `rank`, new to every earlier
      rank and with a nonzero key. */
  lemma RankPointsSound(c: Config, cross: (LineRef, LineRef) -> Option<PointRef>, P: seq<seq<PointRef>>,
                        L: seq<seq<LineRef>>, rank: int, n: nat)
    ensures var r := UnionAll(c, RankRows(c, cross, P, L, rank, n));
      PointKeysDistinct(c, r)
      && forall p <- r :: CrossingOf(cross, L, rank, n, p) && !EarlierPoint(c, P, rank, p) && PointRefKey(c, p) != 0
  {
    var rows := RankRows(c, cross, P, L, rank, n);
    UnionAllDistinct(c, rows);
    UnionAllSound(c, rows);
    forall p <- UnionAll(c, rows)
      ensures CrossingOf(cross, L, rank, n, p) && !EarlierPoint(c, P, rank, p) && PointRefKey(c, p) != 0
    {
      var k :| 0 <= k < n && p in rows[k];
      InsertedPointsFacts(c, P, rank, RankCrossings(cross, L, rank, k), []);
      var j :| 0 <= j < |rows[k]| && rows[k][j] == p;
    }
  }

  /** No crossing is lost: every crossing of the lines of two ranks adding
      up to `rank` is among the new points, unless an earlier rank holds it
      or its key is zero. */
  lemma RankPointsComplete(c: Config, cross: (LineRef, LineRef) -> Option<PointRef>, P: seq<seq<PointRef>>,
                           L: seq<seq<LineRef>>, rank: int, n: nat)
    ensures forall p | CrossingOf(cross, L, rank, n, p) ::
      EarlierPoint(c, P, rank, p) || PointRefKey(c, p) == 0 || HasPoint(c, UnionAll(c, RankRows(c, cross, P, L, rank, n)), p)
  {
    forall p | CrossingOf(cross, L, rank, n, p) && !EarlierPoint(c, P, rank, p) && PointRefKey(c, p) != 0
      ensures HasPoint(c, UnionAll(c, RankRows(c, cross, P, L, rank, n)), p)
    {
      var k :| 0 <= k < n && p in RankCrossings(cross, L, rank, k);
      CrossingKept(c, cross, P, L, rank, n, k, p);
    }
  }

  lemma CrossingKept(c: Config, cross: (LineRef, LineRef) -> Option<PointRef>, P: seq<seq<PointRef>>,
                     L: seq<seq<LineRef>>, rank: int, n: nat, k: nat, p: PointRef)
    requires k < n && p in RankCrossings(cross, L, rank, k)
    requires !EarlierPoint(c, P, rank, p) && PointRefKey(c, p) != 0
    ensures HasPoint(c, UnionAll(c, RankRows(c, cross, P, L, rank, n)), p)
  {
    var rows := RankRows(c, cross, P, L, rank, n);
    UnionAllComplete(c, rows);
    InsertedPointsFacts(c, P, rank, RankCrossings(cross, L, rank, k), []);
    assert rows[k] == InsertedPoints(c, P, rank, RankCrossings(cross, L, rank, k), []);
    var m :| m in rows[k] && PointRefEq(c, m, p);
    HasPointSameKey(c, UnionAll(c, rows), m, p);
  }

  lemma HasPointSameKey(c: Config, s: seq<PointRef>, m: PointRef, p: PointRef)
    requires HasPoint(c, s, m) && PointRefEq(c, m, p)
    ensures HasPoint(c, s, p)
  {
    var q :| q in s && PointRefEq(c, q, m);
  }
}
