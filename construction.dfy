/** Building every rank (utils.swift, `makeAllPointsAndLines`): rank 0 is
    the paper's corners and edges; each later rank first runs the enabled
    generators in the finder's axiom order, then intersects its new lines
    with the lines of every rank that adds up to it. */
module Construction {
  import opened Wrappers
  import opened Geometry
  import opened References
  import opened Paper
  import opened Finder
  import opened Enumeration
  import opened Generation

  /* ---------------------------------------------------------------------
     The lines of one rank
     --------------------------------------------------------------------- */

  /** The lines of `rank` after the first `n` turns of the loop over the
      finder's axiom order. */
  ghost function AxiomLoop(s: Stock, useAxioms: seq<bool>, rank: int, n: nat): seq<LineRef>
    requires |useAxioms| == 7 && n <= 7
  {
    if n == 0 then []
    else
      var prev := AxiomLoop(s, useAxioms, rank, n - 1);
      var axiom := AxiomOrder[n - 1];
      if useAxioms[axiom - 1] then Consume(s.c, s.lines, rank, s.numLines, s.maxNumLines, GeneratorEvents(s, axiom, rank), prev)
      else prev
  }

  /** The loop over `main.axioms` in `makeAllPointsAndLines`: every enabled
      generator adds its folds to the one set of new lines. */
  method NewLines(s: Stock, useAxioms: seq<bool>, rank: int) returns (newLines: seq<LineRef>)
    requires |useAxioms| == 7 && 1 <= rank <= |s.lines|
    ensures newLines == AxiomLoop(s, useAxioms, rank, 7)
  {
    newLines := [];
    AxiomOrderIsPermutation();
    for k := 0 to 7
      invariant newLines == AxiomLoop(s, useAxioms, rank, k)
    {
      var axiom := AxiomOrder[k];
      if useAxioms[axiom - 1] {
        newLines := GenerateAxiom(s, axiom, rank, newLines);
      }
    }
  }

  /** A line an enabled generator may add at `rank` and that no earlier
      rank holds. */
  predicate NewFold(s: Stock, useAxioms: seq<bool>, rank: int, l: LineRef)
    requires |useAxioms| == 7
  {
    (exists axiom | 1 <= axiom <= 7 :: useAxioms[axiom - 1] && FoldOf(s, axiom, rank, l))
    && !EarlierLine(s.c, s.lines, rank, l)
  }

  /** The new lines of a rank: keys pairwise distinct, each a fold an
      enabled generator found and no earlier rank holds, and, unless there
      are none, at most one more than the cap allows. */
  lemma {:induction false} AxiomLoopSound(s: Stock, useAxioms: seq<bool>, rank: int, n: nat)
    requires |useAxioms| == 7 && n <= 7
    ensures var r := AxiomLoop(s, useAxioms, rank, n);
      LineKeysDistinct(s.c, r)
      && (|r| == 0 || |r| + s.numLines <= s.maxNumLines + 1)
      && forall k | 0 <= k < |r| :: NewFold(s, useAxioms, rank, r[k]) && r[k].rank == rank
  {
    if n > 0 {
      AxiomLoopSound(s, useAxioms, rank, n - 1);
      var axiom := AxiomOrder[n - 1];
      if useAxioms[axiom - 1] {
        AxiomLoopStepSound(s, useAxioms, rank, axiom, AxiomLoop(s, useAxioms, rank, n - 1));
      }
    }
  }

  lemma AxiomLoopStepSound(s: Stock, useAxioms: seq<bool>, rank: int, axiom: int, prev: seq<LineRef>)
    requires |useAxioms| == 7 && 1 <= axiom <= 7 && useAxioms[axiom - 1]
    requires LineKeysDistinct(s.c, prev)
    requires |prev| == 0 || |prev| + s.numLines <= s.maxNumLines + 1
    requires forall k | 0 <= k < |prev| :: NewFold(s, useAxioms, rank, prev[k]) && prev[k].rank == rank
    ensures var r := Consume(s.c, s.lines, rank, s.numLines, s.maxNumLines, GeneratorEvents(s, axiom, rank), prev);
      LineKeysDistinct(s.c, r)
      && (|r| == 0 || |r| + s.numLines <= s.maxNumLines + 1)
      && forall k | 0 <= k < |r| :: NewFold(s, useAxioms, rank, r[k]) && r[k].rank == rank
  {
    var r := Consume(s.c, s.lines, rank, s.numLines, s.maxNumLines, GeneratorEvents(s, axiom, rank), prev);
    GeneratedLines(s, axiom, rank, prev);
    if |r| == |prev| {
      assert r == prev by {
        assert r[..|prev|] == r;
      }
    }
    forall k | 0 <= k < |r| ensures NewFold(s, useAxioms, rank, r[k]) && r[k].rank == rank {
      if k < |prev| {
        assert r[k] == prev[k] by {
          assert r[..|prev|][k] == r[k];
        }
      } else {
        assert FoldOf(s, axiom, rank, r[k]);
      }
    }
  }

  /** No fold is lost: when the new lines stay within the cap, every fold
      that enabled generator `AxiomOrder[k]` found is in an earlier rank or
      among them. */
  lemma {:induction false} AxiomLoopComplete(s: Stock, useAxioms: seq<bool>, rank: int, n: nat, k: nat)
    requires |useAxioms| == 7 && k < n <= 7 && useAxioms[AxiomOrder[k] - 1]
    requires |AxiomLoop(s, useAxioms, rank, n)| + s.numLines <= s.maxNumLines
    ensures Kept(s, AxiomOrder[k], rank, AxiomLoop(s, useAxioms, rank, n))
  {
    var prev := AxiomLoop(s, useAxioms, rank, n - 1);
    var r := AxiomLoop(s, useAxioms, rank, n);
    var axiom := AxiomOrder[n - 1];
    if useAxioms[axiom - 1] {
      ConsumeAppends(s.c, s.lines, rank, s.numLines, s.maxNumLines, GeneratorEvents(s, axiom, rank), prev);
    }
    if k == n - 1 {
      AxiomLoopSound(s, useAxioms, rank, n - 1);
      GeneratedLines(s, axiom, rank, prev);
    } else {
      AxiomLoopComplete(s, useAxioms, rank, n - 1, k);
      KeptGrows(s, AxiomOrder[k], rank, prev, r);
    }
  }

  /** Adding lines keeps every fold that was kept. */
  lemma KeptGrows(s: Stock, axiom: int, rank: int, r: seq<LineRef>, r': seq<LineRef>)
    requires Kept(s, axiom, rank, r) && |r| <= |r'| && r'[..|r|] == r
    ensures Kept(s, axiom, rank, r')
  {
    forall a, k | a in GeneratorInputs(s.points, s.lines, axiom, rank) && Tried(s.c, a)
                  && k in AxiomFolds(s.c, s.paper, a)
                  && !EarlierLine(s.c, s.lines, rank, DerivedLine(k, a, rank))
      ensures HasLine(s.c, r', DerivedLine(k, a, rank))
    {
      HasLinePrefix(s.c, r, r', DerivedLine(k, a, rank));
    }
  }

  /* ---------------------------------------------------------------------
     Every rank
     --------------------------------------------------------------------- */

  /** `formUnion` for lines: each line of `b` in turn, added unless its key
      is already present. */
  function UnionLines(c: Config, a: seq<LineRef>, b: seq<LineRef>): seq<LineRef>
    decreases |b|
  {
    if b == [] then a else SetInsertLine(c, UnionLines(c, a, b[..|b| - 1]), b[|b| - 1])
  }

  /** The union extends `a`, takes its lines from `a` and `b` only, and
      keeps keys distinct. */
  lemma {:induction false} UnionLinesSound(c: Config, a: seq<LineRef>, b: seq<LineRef>)
    ensures var r := UnionLines(c, a, b);
      |a| <= |r| && r[..|a|] == a
      && (forall x <- r :: x in a || x in b)
      && (LineKeysDistinct(c, a) ==> LineKeysDistinct(c, r))
    decreases |b|
  {
    if b != [] {
      var init := UnionLines(c, a, b[..|b| - 1]);
      var r := SetInsertLine(c, init, b[|b| - 1]);
      UnionLinesSound(c, a, b[..|b| - 1]);
      assert r[..|a|] == a by {
        assert r[..|init|] == init;
        assert init[..|a|] == a;
      }
    }
  }

  /** The number of references in all ranks. */
  function Total<X>(s: seq<seq<X>>): nat
    decreases |s|
  {
    if s == [] then 0 else Total(s[..|s| - 1]) + |s[|s| - 1]|
  }

  lemma TotalAppend<X>(s: seq<seq<X>>, x: seq<X>)
    ensures Total(s + [x]) == Total(s) + |x|
  {
    assert (s + [x])[..|s|] == s;
  }

  /** The finder's count as `makeAllPointsAndLines` keeps it: rank 0's size,
      then, after each rank, the running total of the ranks 1 and up added
      again. */
  function CountAsWritten<X>(s: seq<seq<X>>): int
    requires |s| >= 1
    decreases |s|
  {
    if |s| == 1 then |s[0]| else CountAsWritten(s[..|s| - 1]) + (Total(s) - |s[0]|)
  }

  /** The total counts rank 0 at least. */
  lemma {:induction false} TotalCountsFirst<X>(s: seq<seq<X>>)
    requires |s| >= 1
    ensures Total(s) >= |s[0]|
    decreases |s|
  {
    if |s| > 1 {
      TotalCountsFirst(s[..|s| - 1]);
    }
  }

  /** The count as written never falls short of the references stored, and
      overshoots as soon as two ranks past rank 0 exist and rank 1 is not
      empty. */
  lemma {:induction false} CountAsWrittenOvercounts<X>(s: seq<seq<X>>)
    requires |s| >= 1
    ensures CountAsWritten(s) >= Total(s)
    ensures |s| >= 3 && |s[1]| > 0 ==> CountAsWritten(s) > Total(s)
    decreases |s|
  {
    if |s| > 1 {
      var init := s[..|s| - 1];
      CountAsWrittenOvercounts(init);
      TotalCountsFirst(init);
      if |s| >= 3 && |s[1]| > 0 {
        assert init[..2] == s[..2];
        TotalPrefix(init, 2);
        TotalTwo(s[..2]);
      }
    }
  }

  /** A prefix counts no more than the whole. */
  lemma {:induction false} TotalPrefix<X>(s: seq<seq<X>>, k: nat)
    requires k <= |s|
    ensures Total(s[..k]) <= Total(s)
    decreases |s|
  {
    if k < |s| {
      assert s[..k] == s[..|s| - 1][..k];
      TotalPrefix(s[..|s| - 1], k);
      assert Total(s) == Total(s[..|s| - 1]) + |s[|s| - 1]|;
    } else {
      assert s[..k] == s;
    }
  }

  lemma TotalTwo<X>(s: seq<seq<X>>)
    requires |s| == 2
    ensures Total(s) == |s[0]| + |s[1]|
  {
    assert s[..1][..0] == [];
    assert Total(s[..1]) == |s[0]|;
  }

  /** Corners and edges 4, then ranks of 2 and 3 new lines: 9 lines are
      stored but 11 are counted, since rank 1's 2 lines are added twice. */
  lemma CountAsWrittenExample()
    ensures var s := [[0, 0, 0, 0], [0, 0], [0, 0, 0]];
      Total(s) == 9 && CountAsWritten(s) == 11
  {
    var s := [[0, 0, 0, 0], [0, 0], [0, 0, 0]];
    assert s[..2] == [[0, 0, 0, 0], [0, 0]];
    TotalTwo(s[..2]);
    assert Total(s) == 9;
    assert CountAsWritten(s[..2]) == 6 by {
      assert s[..2][..1] == [[0, 0, 0, 0]];
    }
  }

  /** What `makeAllPointsAndLines` stores at rank `n`, given ranks 0 to
      `n - 1`: first the lines the enabled generators add, in the finder's
      axiom order, with the lines stored so far counted; then the crossings
      of the lines of every two ranks `i <= n - i`. */
  ghost predicate RankBuilt(c: Config, paper: Rectangle, gen: (Stock, int) -> seq<LineRef>, maxNumLines: int,
                            P: seq<seq<PointRef>>, L: seq<seq<LineRef>>, n: int)
    requires 1 <= n < |P| && n < |L|
  {
    L[n] == gen(Stock(c, paper, P[..n], L[..n], Total(L[..n]), maxNumLines), n)
    && P[n] == UnionAll(c, RankRows(c, Cross(c, paper, n), P[..n], L[..n + 1], n, n / 2 + 1))
  }

  /** The sets `makeAllPointsAndLines` stores: rank 0 holds the paper's
      corners and edges, and every later rank is built from the ranks
      before it. */
  ghost predicate Constructed(c: Config, paper: Rectangle, gen: (Stock, int) -> seq<LineRef>, maxNumLines: int,
                              P: seq<seq<PointRef>>, L: seq<seq<LineRef>>)
    requires paper.sides.Some?
  {
    1 <= |P| == |L|
    && P[0] == UnionPoints(c, [], paper.Corners())
    && L[0] == UnionLines(c, [], paper.Edges())
    && forall n | 1 <= n < |P| :: RankBuilt(c, paper, gen, maxNumLines, P, L, n)
  }

  /** Storing one more rank leaves what the earlier ranks were built from
      unchanged. */
  lemma RankBuiltExtend(c: Config, paper: Rectangle, gen: (Stock, int) -> seq<LineRef>, maxNumLines: int,
                        P: seq<seq<PointRef>>, L: seq<seq<LineRef>>, newPoints: seq<PointRef>, newLines: seq<LineRef>, n: int)
    requires 1 <= n < |P| && n < |L|
    requires RankBuilt(c, paper, gen, maxNumLines, P, L, n)
    ensures RankBuilt(c, paper, gen, maxNumLines, P + [newPoints], L + [newLines], n)
  {
    assert (P + [newPoints])[..n] == P[..n];
    assert (L + [newLines])[..n] == L[..n];
    assert (L + [newLines])[..n + 1] == L[..n + 1];
  }

  /** The rank built from all the stored ranks. */
  lemma RankBuiltNext(c: Config, paper: Rectangle, gen: (Stock, int) -> seq<LineRef>, maxNumLines: int,
                      P: seq<seq<PointRef>>, L: seq<seq<LineRef>>, newPoints: seq<PointRef>, newLines: seq<LineRef>)
    requires 1 <= |P| == |L|
    requires newLines == gen(Stock(c, paper, P, L, Total(L), maxNumLines), |L|)
    requires newPoints == UnionAll(c, RankRows(c, Cross(c, paper, |L|), P, L + [newLines], |L|, |L| / 2 + 1))
    ensures RankBuilt(c, paper, gen, maxNumLines, P + [newPoints], L + [newLines], |L|)
  {
    assert (P + [newPoints])[..|P|] == P;
    assert (L + [newLines])[..|L|] == L;
    assert (L + [newLines])[..|L| + 1] == L + [newLines];
  }

  /** The lines the enabled generators add at `rank`, given the stored
      ranks: the loop over the finder's axiom order. */
  ghost function Generators(useAxioms: seq<bool>): (gen: (Stock, int) -> seq<LineRef>)
    requires |useAxioms| == 7
    ensures forall s, rank :: gen(s, rank) == AxiomLoop(s, useAxioms, rank, 7)
  {
    (s: Stock, rank: int) => AxiomLoop(s, useAxioms, rank, 7)
  }

  /** A source of new lines whose lines at `rank` have that rank, are new
      to every earlier rank, have distinct keys, and overrun the cap by at
      most one. */
  ghost predicate SoundGenerator(gen: (Stock, int) -> seq<LineRef>) {
    forall s: Stock, rank: int ::
      LineKeysDistinct(s.c, gen(s, rank))
      && (|gen(s, rank)| == 0 || |gen(s, rank)| + s.numLines <= s.maxNumLines + 1)
      && forall l <- gen(s, rank) :: l.rank == rank && !EarlierLine(s.c, s.lines, rank, l)
  }

  /** The enabled generators are such a source. */
  lemma GeneratorsSound(useAxioms: seq<bool>)
    requires |useAxioms| == 7
    ensures SoundGenerator(Generators(useAxioms))
  {
    forall s: Stock, rank: int
      ensures var r := AxiomLoop(s, useAxioms, rank, 7);
        LineKeysDistinct(s.c, r)
        && (|r| == 0 || |r| + s.numLines <= s.maxNumLines + 1)
        && forall l <- r :: l.rank == rank && !EarlierLine(s.c, s.lines, rank, l)
    {
      NewLinesFacts(s, useAxioms, rank);
    }
  }

  /** The new lines of a rank have that rank, are new and have distinct
      keys, and overrun the cap by at most one. */
  lemma NewLinesFacts(s: Stock, useAxioms: seq<bool>, rank: int)
    requires |useAxioms| == 7
    ensures var r := AxiomLoop(s, useAxioms, rank, 7);
      LineKeysDistinct(s.c, r)
      && (|r| == 0 || |r| + s.numLines <= s.maxNumLines + 1)
      && forall l <- r :: l.rank == rank && !EarlierLine(s.c, s.lines, rank, l)
  {
    AxiomLoopSound(s, useAxioms, rank, 7);
    LinesOfRank(s.c, s.lines, rank, AxiomLoop(s, useAxioms, rank, 7));
  }

  /** A sequence of new lines of a rank, read by membership. */
  lemma LinesOfRank(c: Config, L: seq<seq<LineRef>>, rank: int, r: seq<LineRef>)
    requires forall k | 0 <= k < |r| :: r[k].rank == rank && !EarlierLine(c, L, rank, r[k])
    ensures forall l <- r :: l.rank == rank && !EarlierLine(c, L, rank, l)
  {
  }

  /** Every set holds keys pairwise distinct. */
  ghost predicate PointSetsDistinct(c: Config, P: seq<seq<PointRef>>) {
    forall i | 0 <= i < |P| :: PointKeysDistinct(c, P[i])
  }

  ghost predicate LineSetsDistinct(c: Config, L: seq<seq<LineRef>>) {
    forall i | 0 <= i < |L| :: LineKeysDistinct(c, L[i])
  }

  /** No key of set `i` is in an earlier set. */
  ghost predicate PointsOnce(c: Config, P: seq<seq<PointRef>>) {
    forall i, p | 0 <= i < |P| && p in P[i] :: !EarlierPoint(c, P, i, p)
  }

  ghost predicate LinesOnce(c: Config, L: seq<seq<LineRef>>) {
    forall i, l | 0 <= i < |L| && l in L[i] :: !EarlierLine(c, L, i, l)
  }

  /** No point past rank 0 has key zero. */
  ghost predicate NoZeroKeys(c: Config, P: seq<seq<PointRef>>) {
    forall i, p | 1 <= i < |P| && p in P[i] :: PointRefKey(c, p) != 0
  }

  /** What the stored ranks keep: every reference in set `i` has rank `i`;
      keys are distinct within a set and no key of set `i` is in an earlier
      set; no stored crossing has key zero; and the lines overrun the cap by
      at most one, unless only the edges are stored. */
  ghost predicate Stored(c: Config, maxNumLines: int, P: seq<seq<PointRef>>, L: seq<seq<LineRef>>) {
    |P| == |L| >= 1
    && RanksHonest(P, L)
    && PointSetsDistinct(c, P) && LineSetsDistinct(c, L)
    && PointsOnce(c, P) && LinesOnce(c, L)
    && NoZeroKeys(c, P)
    && (Total(L) <= maxNumLines + 1 || Total(L) == |L[0]|)
  }

  /** Every set of ranks `makeAllPointsAndLines` stores keeps what `Stored`
      says. */
  lemma ConstructedStored(c: Config, paper: Rectangle, gen: (Stock, int) -> seq<LineRef>, maxNumLines: int,
                          P: seq<seq<PointRef>>, L: seq<seq<LineRef>>)
    requires paper.Seeded()
    requires SoundGenerator(gen) && Constructed(c, paper, gen, maxNumLines, P, L)
    ensures Stored(c, maxNumLines, P, L)
  {
    var corners := paper.Corners();
    var edges := paper.Edges();
    UnionPointsSound(c, [], corners);
    UnionLinesSound(c, [], edges);
    FirstStored(c, maxNumLines, P[0], L[0]);
    SliceEnds(P);
    SliceEnds(L);
    for k := 1 to |P|
      invariant Stored(c, maxNumLines, P[..k], L[..k])
    {
      StoredStep(c, paper, gen, maxNumLines, P, L, k);
    }
  }

  lemma StoredStep(c: Config, paper: Rectangle, gen: (Stock, int) -> seq<LineRef>, maxNumLines: int,
                   P: seq<seq<PointRef>>, L: seq<seq<LineRef>>, k: int)
    requires SoundGenerator(gen) && 1 <= k < |P| == |L|
    requires RankBuilt(c, paper, gen, maxNumLines, P, L, k)
    requires Stored(c, maxNumLines, P[..k], L[..k])
    ensures Stored(c, maxNumLines, P[..k + 1], L[..k + 1])
  {
    var s := Stock(c, paper, P[..k], L[..k], Total(L[..k]), maxNumLines);
    assert L[k] == gen(s, k);
    NewPointsFacts(c, paper, P[..k], L[..k + 1], k);
    SliceNext(P, k);
    SliceNext(L, k);
    ExtendStored(c, maxNumLines, P[..k], L[..k], P[k], L[k]);
  }

  /** Rank 0 alone keeps `Stored`. */
  lemma FirstStored(c: Config, maxNumLines: int, points: seq<PointRef>, lines: seq<LineRef>)
    requires PointKeysDistinct(c, points) && LineKeysDistinct(c, lines)
    requires forall p <- points :: p.rank == 0
    requires forall l <- lines :: l.rank == 0
    ensures Stored(c, maxNumLines, [points], [lines])
  {
    forall i | i != 0 ensures At([points], i) == [] && At([lines], i) == [] {
    }
    assert [lines][..0] == [];
  }

  /** The new points of a rank have that rank, are new, have distinct
      nonzero keys. */
  lemma NewPointsFacts(c: Config, paper: Rectangle, P: seq<seq<PointRef>>, L: seq<seq<LineRef>>, rank: nat)
    ensures var r := UnionAll(c, RankRows(c, Cross(c, paper, rank), P, L, rank, rank / 2 + 1));
      PointKeysDistinct(c, r)
      && forall p <- r :: p.rank == rank && !EarlierPoint(c, P, rank, p) && PointRefKey(c, p) != 0
  {
    var r := UnionAll(c, RankRows(c, Cross(c, paper, rank), P, L, rank, rank / 2 + 1));
    RankPointsSound(c, Cross(c, paper, rank), P, L, rank, rank / 2 + 1);
    forall p <- r ensures p.rank == rank {
      CrossingRank(c, paper, L, rank, rank / 2 + 1, p);
    }
  }

  /** A crossing of the lines of two ranks has the rank it was found for. */
  lemma CrossingRank(c: Config, paper: Rectangle, L: seq<seq<LineRef>>, rank: int, n: int, p: PointRef)
    requires CrossingOf(Cross(c, paper, rank), L, rank, n, p)
    ensures p.rank == rank
  {
    var i :| 0 <= i < n && p in RankCrossings(Cross(c, paper, rank), L, rank, i);
    var l1, l2 :| l1 in At(L, i) && l2 in At(L, rank - i) && Cross(c, paper, rank)(l1, l2) == Some(p);
  }

  /** Storing a new rank whose references are new, of that rank and with
      distinct keys keeps `Stored`. */
  lemma ExtendStored(c: Config, maxNumLines: int, P: seq<seq<PointRef>>, L: seq<seq<LineRef>>,
                     newPoints: seq<PointRef>, newLines: seq<LineRef>)
    requires Stored(c, maxNumLines, P, L)
    requires LineKeysDistinct(c, newLines) && PointKeysDistinct(c, newPoints)
    requires forall l <- newLines :: l.rank == |L| && !EarlierLine(c, L, |L|, l)
    requires forall p <- newPoints :: p.rank == |P| && !EarlierPoint(c, P, |P|, p) && PointRefKey(c, p) != 0
    requires |newLines| == 0 || |newLines| + Total(L) <= maxNumLines + 1
    ensures Stored(c, maxNumLines, P + [newPoints], L + [newLines])
  {
    ExtendHonest(P, L, newPoints, newLines);
    ExtendPoints(c, P, newPoints);
    ExtendLines(c, L, newLines);
    TotalAppend(L, newLines);
    assert (L + [newLines])[0] == L[0];
  }

  /** Taking one more element of a sequence appends it. */
  lemma SliceNext<X>(s: seq<X>, k: int)
    requires 0 <= k < |s|
    ensures s[..k + 1] == s[..k] + [s[k]]
  {
  }

  /** The first element alone, and the whole sequence, as slices. */
  lemma SliceEnds<X>(s: seq<X>)
    requires 1 <= |s|
    ensures s[..1] == [s[0]] && s[..|s|] == s
  {
  }

  lemma AtAppend<X>(s: seq<seq<X>>, x: seq<X>, i: int)
    ensures At(s + [x], i) == if i == |s| then x else At(s, i)
  {
  }

  lemma ExtendHonest(P: seq<seq<PointRef>>, L: seq<seq<LineRef>>, newPoints: seq<PointRef>, newLines: seq<LineRef>)
    requires RanksHonest(P, L) && |P| == |L|
    requires forall p <- newPoints :: p.rank == |P|
    requires forall l <- newLines :: l.rank == |L|
    ensures RanksHonest(P + [newPoints], L + [newLines])
  {
    forall i, p | p in At(P + [newPoints], i) ensures p.rank == i {
      AtAppend(P, newPoints, i);
      if i != |P| {
        PointRank(P, L, i, p);
      }
    }
    forall i, l | l in At(L + [newLines], i) ensures l.rank == i {
      AtAppend(L, newLines, i);
      if i != |L| {
        LineRank(P, L, i, l);
      }
    }
  }

  lemma ExtendPoints(c: Config, P: seq<seq<PointRef>>, newPoints: seq<PointRef>)
    requires PointSetsDistinct(c, P) && PointsOnce(c, P) && NoZeroKeys(c, P)
    requires PointKeysDistinct(c, newPoints)
    requires forall p <- newPoints :: !EarlierPoint(c, P, |P|, p) && PointRefKey(c, p) != 0
    ensures var P' := P + [newPoints];
      PointSetsDistinct(c, P') && PointsOnce(c, P') && NoZeroKeys(c, P')
  {
    var P' := P + [newPoints];
    forall i, p | 0 <= i < |P'| && p in P'[i] ensures !EarlierPoint(c, P', i, p) {
      forall j | 0 <= j < i ensures At(P', j) == At(P, j) {
        AtAppend(P, newPoints, j);
      }
      if i < |P| {
        assert p in P[i];
      } else {
        assert p in newPoints;
      }
    }
  }

  lemma ExtendLines(c: Config, L: seq<seq<LineRef>>, newLines: seq<LineRef>)
    requires LineSetsDistinct(c, L) && LinesOnce(c, L)
    requires LineKeysDistinct(c, newLines)
    requires forall l <- newLines :: !EarlierLine(c, L, |L|, l)
    ensures var L' := L + [newLines];
      LineSetsDistinct(c, L') && LinesOnce(c, L')
  {
    var L' := L + [newLines];
    forall i, l | 0 <= i < |L'| && l in L'[i] ensures !EarlierLine(c, L', i, l) {
      forall j | 0 <= j < i ensures At(L', j) == At(L, j) {
        AtAppend(L, newLines, j);
      }
      if i < |L| {
        assert l in L[i];
      } else {
        assert l in newLines;
      }
    }
  }

  /** No fold is lost: while the lines stay within the cap, every fold of a
      candidate that an enabled generator considered at rank `n` is stored at
      rank `n` or earlier. */
  lemma ConstructedKeepsFolds(c: Config, paper: Rectangle, useAxioms: seq<bool>, maxNumLines: int,
                              P: seq<seq<PointRef>>, L: seq<seq<LineRef>>, n: int, axiom: int)
    requires paper.sides.Some? && |useAxioms| == 7
    requires Constructed(c, paper, Generators(useAxioms), maxNumLines, P, L) && 1 <= n < |L|
    requires 1 <= axiom <= 7 && useAxioms[axiom - 1]
    requires Total(L[..n + 1]) <= maxNumLines
    ensures Kept(Stock(c, paper, P[..n], L[..n], Total(L[..n]), maxNumLines), axiom, n, L[n])
  {
    var s := Stock(c, paper, P[..n], L[..n], Total(L[..n]), maxNumLines);
    RankLines(c, paper, Generators(useAxioms), maxNumLines, P, L, n);
    SliceNext(L, n);
    TotalAppend(L[..n], L[n]);
    AxiomLoopKeeps(s, useAxioms, n, axiom);
  }

  /** The lines stored at rank `n` are what the generators add there. */
  lemma RankLines(c: Config, paper: Rectangle, gen: (Stock, int) -> seq<LineRef>, maxNumLines: int,
                  P: seq<seq<PointRef>>, L: seq<seq<LineRef>>, n: int)
    requires paper.sides.Some?
    requires Constructed(c, paper, gen, maxNumLines, P, L) && 1 <= n < |L|
    ensures L[n] == gen(Stock(c, paper, P[..n], L[..n], Total(L[..n]), maxNumLines), n)
  {
    assert RankBuilt(c, paper, gen, maxNumLines, P, L, n);
  }

  /** Every enabled generator keeps its folds in the lines of a rank that
      stays within the cap. */
  lemma AxiomLoopKeeps(s: Stock, useAxioms: seq<bool>, rank: int, axiom: int)
    requires |useAxioms| == 7 && 1 <= axiom <= 7 && useAxioms[axiom - 1]
    requires |AxiomLoop(s, useAxioms, rank, 7)| + s.numLines <= s.maxNumLines
    ensures Kept(s, axiom, rank, AxiomLoop(s, useAxioms, rank, 7))
  {
    var k := AxiomSlot(axiom);
    AxiomLoopComplete(s, useAxioms, rank, 7, k);
  }

  /** Where an axiom stands in the finder's axiom order. */
  lemma AxiomSlot(axiom: int) returns (k: nat)
    requires 1 <= axiom <= 7
    ensures k < 7 && AxiomOrder[k] == axiom
  {
    k := if axiom == 3 then 0 else if axiom == 2 then 1 else if axiom == 7 then 2
      else if axiom == 6 then 3 else if axiom == 5 then 4 else if axiom == 4 then 5 else 6;
  }

  /** No crossing is lost: every crossing of the lines of two ranks adding
      up to `n` is stored at rank `n` or earlier, unless its key is zero. */
  lemma ConstructedKeepsCrossings(c: Config, paper: Rectangle, gen: (Stock, int) -> seq<LineRef>, maxNumLines: int,
                                  P: seq<seq<PointRef>>, L: seq<seq<LineRef>>, n: int, p: PointRef)
    requires paper.sides.Some?
    requires Constructed(c, paper, gen, maxNumLines, P, L) && 1 <= n < |L|
    requires CrossingOf(Cross(c, paper, n), L[..n + 1], n, n / 2 + 1, p) && PointRefKey(c, p) != 0
    ensures EarlierPoint(c, P, n + 1, p)
  {
    RankPoints(c, paper, gen, maxNumLines, P, L, n);
    CrossingStored(c, Cross(c, paper, n), P[..n], L[..n + 1], n, P[n], p);
    EarlierPointNext(c, P, n, p);
  }

  /** A crossing with a nonzero key is in an earlier set or in the set the
      crossings of its rank make. */
  lemma CrossingStored(c: Config, cross: (LineRef, LineRef) -> Option<PointRef>, P: seq<seq<PointRef>>,
                       L: seq<seq<LineRef>>, n: int, newPoints: seq<PointRef>, p: PointRef)
    requires 0 <= n && newPoints == UnionAll(c, RankRows(c, cross, P, L, n, n / 2 + 1))
    requires CrossingOf(cross, L, n, n / 2 + 1, p) && PointRefKey(c, p) != 0
    ensures EarlierPoint(c, P, n, p) || HasPoint(c, newPoints, p)
  {
    RankPointsComplete(c, cross, P, L, n, n / 2 + 1);
  }

  /** The points stored at rank `n` are the crossings of that rank. */
  lemma RankPoints(c: Config, paper: Rectangle, gen: (Stock, int) -> seq<LineRef>, maxNumLines: int,
                   P: seq<seq<PointRef>>, L: seq<seq<LineRef>>, n: int)
    requires paper.sides.Some?
    requires Constructed(c, paper, gen, maxNumLines, P, L) && 1 <= n < |L|
    ensures P[n] == UnionAll(c, RankRows(c, Cross(c, paper, n), P[..n], L[..n + 1], n, n / 2 + 1))
  {
    assert RankBuilt(c, paper, gen, maxNumLines, P, L, n);
  }

  /** A point in one of the first `n` sets, or in set `n`, is in one of the
      first `n + 1` sets. */
  lemma EarlierPointNext(c: Config, P: seq<seq<PointRef>>, n: int, p: PointRef)
    requires 0 <= n < |P|
    requires EarlierPoint(c, P[..n], n, p) || HasPoint(c, P[n], p)
    ensures EarlierPoint(c, P, n + 1, p)
  {
    if EarlierPoint(c, P[..n], n, p) {
      var i :| 0 <= i < n && HasPoint(c, At(P[..n], i), p);
      assert At(P, i) == At(P[..n], i);
    } else {
      assert At(P, n) == P[n];
    }
  }

  /* ---------------------------------------------------------------------
     The driver
     --------------------------------------------------------------------- */

  /** Storing the rank built from all the stored ranks keeps the sets
      constructed. */
  lemma ConstructedNext(c: Config, paper: Rectangle, gen: (Stock, int) -> seq<LineRef>, maxNumLines: int,
                        P: seq<seq<PointRef>>, L: seq<seq<LineRef>>, newPoints: seq<PointRef>, newLines: seq<LineRef>)
    requires paper.sides.Some? && Constructed(c, paper, gen, maxNumLines, P, L)
    requires newLines == gen(Stock(c, paper, P, L, Total(L), maxNumLines), |L|)
    requires newPoints == UnionAll(c, RankRows(c, Cross(c, paper, |L|), P, L + [newLines], |L|, |L| / 2 + 1))
    ensures Constructed(c, paper, gen, maxNumLines, P + [newPoints], L + [newLines])
  {
    RankBuiltNext(c, paper, gen, maxNumLines, P, L, newPoints, newLines);
    forall n | 1 <= n < |P|
      ensures RankBuilt(c, paper, gen, maxNumLines, P + [newPoints], L + [newLines], n)
    {
      RankBuiltExtend(c, paper, gen, maxNumLines, P, L, newPoints, newLines, n);
    }
  }

  /** The ranks `makeAllPointsAndLines` builds, with their counts. */
  method BuildRanks(c: Config, paper: Rectangle, useAxioms: seq<bool>, maxNumLines: int, maxRank: int)
    returns (points: seq<seq<PointRef>>, lines: seq<seq<LineRef>>, numPoints: int, numLines: int)
    requires paper.sides.Some? && |useAxioms| == 7 && maxRank >= 1
    ensures |points| == maxRank + 1
    ensures Constructed(c, paper, Generators(useAxioms), maxNumLines, points, lines)
    ensures numPoints == Total(points) && numLines == Total(lines)
  {
    ghost var gen := Generators(useAxioms);
    points := [UnionPoints(c, [], paper.Corners())];
    lines := [UnionLines(c, [], paper.Edges())];
    numPoints := |points[0]|;
    numLines := |lines[0]|;
    assert Total(points) == numPoints && Total(lines) == numLines by {
      assert points[..0] == [] && lines[..0] == [];
    }
    for rank := 1 to maxRank + 1
      invariant |points| == |lines| == rank
      invariant Constructed(c, paper, gen, maxNumLines, points, lines)
      invariant numPoints == Total(points) && numLines == Total(lines)
    {
      var newLines := NewLines(Stock(c, paper, points, lines, numLines, maxNumLines), useAxioms, rank);
      var newPoints := NewPoints(c, paper, points, lines + [newLines], rank);
      ConstructedNext(c, paper, gen, maxNumLines, points, lines, newPoints, newLines);
      TotalAppend(points, newPoints);
      TotalAppend(lines, newLines);
      points := points + [newPoints];
      lines := lines + [newLines];
      numPoints := numPoints + |newPoints|;
      numLines := numLines + |newLines|;
    }
  }

  /** `makeAllPointsAndLines`: forgets the instructions and every stored
      reference, stores the paper's corners and edges as rank 0, then builds
      ranks 1 to `maxRank` in turn, counting what it stores. Every stored
      reference is a new object, unlabelled unless it is a corner or an
      edge, so the labels and errors kept by key start empty. */
  method MakeAllPointsAndLines(f: ReferenceFinder)
    modifies f`allPoints, f`allLines, f`numPoints, f`numLines, f`referencedPoints, f`referencedLines
    modifies f`diagrams, f`instructions, f`marks
    requires f.Valid() && f.maxRank >= 1
    ensures |f.allPoints| == f.maxRank + 1
    ensures Constructed(f.config, f.paper, Generators(f.useAxioms), f.maxNumLines, f.allPoints, f.allLines)
    ensures f.numPoints == Total(f.allPoints) && f.numLines == Total(f.allLines)
    ensures f.referencedPoints == [] && f.referencedLines == [] && f.diagrams == [] && f.instructions == []
    ensures f.marks == NoMarks
    ensures f.Valid()
  {
    var points, lines, numPoints, numLines := BuildRanks(f.config, f.paper, f.useAxioms, f.maxNumLines, f.maxRank);
    StoreRanks(f, points, lines, numPoints, numLines);
  }

  /** Replaces the stored ranks and their counts, and forgets the
      instructions, the references they cite and every label and error. */
  method StoreRanks(f: ReferenceFinder, points: seq<seq<PointRef>>, lines: seq<seq<LineRef>>,
                    numPoints: int, numLines: int)
    modifies f`allPoints, f`allLines, f`numPoints, f`numLines, f`referencedPoints, f`referencedLines
    modifies f`diagrams, f`instructions, f`marks
    requires f.Valid()
    ensures f.allPoints == points && f.allLines == lines && f.numPoints == numPoints && f.numLines == numLines
    ensures f.referencedPoints == [] && f.referencedLines == [] && f.diagrams == [] && f.instructions == []
    ensures f.marks == NoMarks
    ensures f.Valid()
  {
    f.allPoints, f.allLines, f.numPoints, f.numLines := points, lines, numPoints, numLines;
    f.referencedPoints, f.referencedLines := [], [];
    f.diagrams, f.instructions := [], [];
    f.marks := NoMarks;
  }
}
