/** The candidate inputs of each axiom generator: the nested loops of
    `generateAxiom1` ... `generateAxiom7` (utils.swift) over the ranks and the
    references of each rank, listed in loop order. The tests a generator makes
    on a candidate before folding it are applied where the candidates are
    used, so each list here holds every combination the loops visit. */
module Enumeration {
  import opened References

  /** The rank set `i`, or nothing outside the ranks built so far. */
  function At<X>(s: seq<seq<X>>, i: int): seq<X> {
    if 0 <= i < |s| then s[i] else []
  }

  /** Nested `for` loops: the candidates of each iteration of the outer
      loop, in turn. */
  function Flatten<X(!new)>(xss: seq<seq<X>>): (r: seq<X>)
    ensures forall x :: x in r <==> exists k | 0 <= k < |xss| :: x in xss[k]
  {
    if xss == [] then []
    else
      var rest := Flatten(xss[1..]);
      assert forall k | 1 <= k < |xss| :: xss[k] == xss[1..][k - 1];
      xss[0] + rest
  }

  /* Axioms 1 and 2 ------------------------------------------------------ */

  /** The inputs `generateAxiom1` (`bisect` false) and `generateAxiom2`
      (`bisect` true) try: every pair of points whose ranks `i` and
      `rank - 1 - i` add up to `rank - 1`, with `i <= rank - 1 - i`. */
  function PointPairs(P: seq<seq<PointRef>>, rank: int, bisect: bool): (r: seq<Axiom>)
    ensures forall a :: a in r <==> exists i | 0 <= i <= (rank - 1) / 2 :: PointPairAt(P, rank, bisect, i, a)
  {
    PointPairsBelow(P, rank, bisect, (rank - 1) / 2 + 1)
  }

  /** Iterations `0`, ..., `n - 1` of the rank loop. */
  function PointPairsBelow(P: seq<seq<PointRef>>, rank: int, bisect: bool, n: int): (r: seq<Axiom>)
    ensures forall a :: a in r <==> exists i | 0 <= i < n :: PointPairAt(P, rank, bisect, i, a)
  {
    if n <= 0 then []
    else
      var rows := seq(n, i requires 0 <= i < n => PointPairCell(P, rank, bisect, i));
      assert forall i | 0 <= i < n :: rows[i] == PointPairCell(P, rank, bisect, i);
      assert forall a :: a in Flatten(rows) <==> exists i | 0 <= i < n :: PointPairAt(P, rank, bisect, i, a) by {
        forall a ensures (exists i | 0 <= i < n :: PointPairAt(P, rank, bisect, i, a)) ==> a in Flatten(rows) {
          if i :| 0 <= i < n && PointPairAt(P, rank, bisect, i, a) {
            assert a in rows[i];
          }
        }
      }
      Flatten(rows)
  }

  predicate PointPairKind(bisect: bool, a: Axiom) {
    if bisect then a.A2? else a.A1?
  }

  /** The candidates of iteration `i` of the rank loop. */
  predicate PointPairAt(P: seq<seq<PointRef>>, rank: int, bisect: bool, i: int, a: Axiom) {
    PointPairKind(bisect, a) && a.p1 in At(P, i) && a.p2 in At(P, rank - 1 - i)
  }

  function PointPairCell(P: seq<seq<PointRef>>, rank: int, bisect: bool, i: int): (r: seq<Axiom>)
    ensures forall a :: a in r <==> PointPairAt(P, rank, bisect, i, a)
  {
    PointPairsOf(At(P, i), At(P, rank - 1 - i), bisect)
  }

  function PointPair(p1: PointRef, p2: PointRef, bisect: bool): Axiom {
    if bisect then A2(p1, p2) else A1(p1, p2)
  }

  function PointPairsOf(points1: seq<PointRef>, points2: seq<PointRef>, bisect: bool): (r: seq<Axiom>)
    ensures forall a :: a in r <==> PointPairKind(bisect, a) && a.p1 in points1 && a.p2 in points2
  {
    var rows := seq(|points1|, k requires 0 <= k < |points1| => PointPairRow(points1[k], points2, bisect));
    assert forall k | 0 <= k < |points1| :: rows[k] == PointPairRow(points1[k], points2, bisect);
    Flatten(rows)
  }

  function PointPairRow(p1: PointRef, points2: seq<PointRef>, bisect: bool): (r: seq<Axiom>)
    ensures forall a :: a in r <==> PointPairKind(bisect, a) && a.p1 == p1 && a.p2 in points2
  {
    var r := seq(|points2|, m requires 0 <= m < |points2| => PointPair(p1, points2[m], bisect));
    assert forall m | 0 <= m < |points2| :: r[m] == PointPair(p1, points2[m], bisect);
    r
  }

  /* Axiom 3 ------------------------------------------------------------- */

  /** The inputs `generateAxiom3` tries: every pair of lines whose ranks
      `i` and `rank - 1 - i` add up to `rank - 1`, with `i <= rank - 1 - i`. */
  function LinePairs(L: seq<seq<LineRef>>, rank: int): (r: seq<Axiom>)
    ensures forall a :: a in r <==> exists i | 0 <= i <= (rank - 1) / 2 :: LinePairAt(L, rank, i, a)
  {
    LinePairsBelow(L, rank, (rank - 1) / 2 + 1)
  }

  /** Iterations `0`, ..., `n - 1` of the rank loop. */
  function LinePairsBelow(L: seq<seq<LineRef>>, rank: int, n: int): (r: seq<Axiom>)
    ensures forall a :: a in r <==> exists i | 0 <= i < n :: LinePairAt(L, rank, i, a)
  {
    if n <= 0 then []
    else
      var rows := seq(n, i requires 0 <= i < n => LinePairCell(L, rank, i));
      assert forall i | 0 <= i < n :: rows[i] == LinePairCell(L, rank, i);
      assert forall a :: a in Flatten(rows) <==> exists i | 0 <= i < n :: LinePairAt(L, rank, i, a) by {
        forall a ensures (exists i | 0 <= i < n :: LinePairAt(L, rank, i, a)) ==> a in Flatten(rows) {
          if i :| 0 <= i < n && LinePairAt(L, rank, i, a) {
            assert a in rows[i];
          }
        }
      }
      Flatten(rows)
  }

  predicate LinePairAt(L: seq<seq<LineRef>>, rank: int, i: int, a: Axiom) {
    a.A3? && a.l1 in At(L, i) && a.l2 in At(L, rank - 1 - i)
  }

  function LinePairCell(L: seq<seq<LineRef>>, rank: int, i: int): (r: seq<Axiom>)
    ensures forall a :: a in r <==> LinePairAt(L, rank, i, a)
  {
    LinePairsOf(At(L, i), At(L, rank - 1 - i))
  }

  function LinePairsOf(lines1: seq<LineRef>, lines2: seq<LineRef>): (r: seq<Axiom>)
    ensures forall a :: a in r <==> a.A3? && a.l1 in lines1 && a.l2 in lines2
  {
    var rows := seq(|lines1|, k requires 0 <= k < |lines1| => LinePairRow(lines1[k], lines2));
    assert forall k | 0 <= k < |lines1| :: rows[k] == LinePairRow(lines1[k], lines2);
    Flatten(rows)
  }

  function LinePairRow(l1: LineRef, lines2: seq<LineRef>): (r: seq<Axiom>)
    ensures forall a :: a in r <==> a.A3? && a.l1 == l1 && a.l2 in lines2
  {
    var r := seq(|lines2|, m requires 0 <= m < |lines2| => A3(l1, lines2[m]));
    assert forall m | 0 <= m < |lines2| :: r[m] == A3(l1, lines2[m]);
    r
  }

  /* Axiom 4 ------------------------------------------------------------- */

  /** The inputs `generateAxiom4` tries: a line of rank `i` and a point of
      rank `rank - 1 - i`, with `i <= rank - 1 - i`. */
  function LinePointPairs(P: seq<seq<PointRef>>, L: seq<seq<LineRef>>, rank: int): (r: seq<Axiom>)
    ensures forall a :: a in r <==> exists i | 0 <= i <= (rank - 1) / 2 :: LinePointPairAt(P, L, rank, i, a)
  {
    LinePointPairsBelow(P, L, rank, (rank - 1) / 2 + 1)
  }

  /** Iterations `0`, ..., `n - 1` of the rank loop. */
  function LinePointPairsBelow(P: seq<seq<PointRef>>, L: seq<seq<LineRef>>, rank: int, n: int): (r: seq<Axiom>)
    ensures forall a :: a in r <==> exists i | 0 <= i < n :: LinePointPairAt(P, L, rank, i, a)
  {
    if n <= 0 then []
    else
      var rows := seq(n, i requires 0 <= i < n => LinePointPairCell(P, L, rank, i));
      assert forall i | 0 <= i < n :: rows[i] == LinePointPairCell(P, L, rank, i);
      assert forall a :: a in Flatten(rows) <==> exists i | 0 <= i < n :: LinePointPairAt(P, L, rank, i, a) by {
        forall a ensures (exists i | 0 <= i < n :: LinePointPairAt(P, L, rank, i, a)) ==> a in Flatten(rows) {
          if i :| 0 <= i < n && LinePointPairAt(P, L, rank, i, a) {
            assert a in rows[i];
          }
        }
      }
      Flatten(rows)
  }

  predicate LinePointPairAt(P: seq<seq<PointRef>>, L: seq<seq<LineRef>>, rank: int, i: int, a: Axiom) {
    a.A4? && a.l1 in At(L, i) && a.p1 in At(P, rank - 1 - i)
  }

  function LinePointPairCell(P: seq<seq<PointRef>>, L: seq<seq<LineRef>>, rank: int, i: int): (r: seq<Axiom>)
    ensures forall a :: a in r <==> LinePointPairAt(P, L, rank, i, a)
  {
    LinePointPairsOf(At(L, i), At(P, rank - 1 - i))
  }

  function LinePointPairsOf(lines: seq<LineRef>, points: seq<PointRef>): (r: seq<Axiom>)
    ensures forall a :: a in r <==> a.A4? && a.l1 in lines && a.p1 in points
  {
    var rows := seq(|lines|, k requires 0 <= k < |lines| => LinePointRow(lines[k], points));
    assert forall k | 0 <= k < |lines| :: rows[k] == LinePointRow(lines[k], points);
    Flatten(rows)
  }

  function LinePointRow(line: LineRef, points: seq<PointRef>): (r: seq<Axiom>)
    ensures forall a :: a in r <==> a.A4? && a.l1 == line && a.p1 in points
  {
    var r := seq(|points|, m requires 0 <= m < |points| => A4(points[m], line));
    assert forall m | 0 <= m < |points| :: r[m] == A4(points[m], line);
    r
  }

  /* Axiom 5 ------------------------------------------------------------- */

  /** The inputs `generateAxiom5` tries: a point of rank `i`, a line of
      rank `j` and a second point of rank `k = rank - 1 - i - j`, with
      `i != k`. */
  function Axiom5Inputs(P: seq<seq<PointRef>>, L: seq<seq<LineRef>>, rank: int): (r: seq<Axiom>)
    ensures forall a :: a in r <==> exists i | 0 <= i < rank :: Axiom5ByRank(P, L, rank, i, a)
  {
    if rank <= 0 then []
    else
      var rows := seq(rank, i requires 0 <= i < rank => Axiom5Rank(P, L, rank, i));
      assert forall i | 0 <= i < rank :: rows[i] == Axiom5Rank(P, L, rank, i);
      assert forall a :: a in Flatten(rows) <==> exists i | 0 <= i < rank :: Axiom5ByRank(P, L, rank, i, a) by {
        forall a ensures (exists i | 0 <= i < rank :: Axiom5ByRank(P, L, rank, i, a)) ==> a in Flatten(rows) {
          if i :| 0 <= i < rank && Axiom5ByRank(P, L, rank, i, a) {
            assert a in rows[i];
          }
        }
      }
      Flatten(rows)
  }

  /** The candidates of iteration `i` of the outer rank loop. */
  predicate Axiom5ByRank(P: seq<seq<PointRef>>, L: seq<seq<LineRef>>, rank: int, i: int, a: Axiom) {
    exists j | 0 <= j < rank - i :: Axiom5At(P, L, rank, i, j, a)
  }

  /** The candidates of iteration `i`, `j` of the two rank loops. */
  predicate Axiom5At(P: seq<seq<PointRef>>, L: seq<seq<LineRef>>, rank: int, i: int, j: int, a: Axiom) {
    i != rank - i - j - 1 && a.A5? && a.p1 in At(P, i) && a.l1 in At(L, j) && a.p2 in At(P, rank - i - j - 1)
  }

  /** One iteration of the outer rank loop. */
  function Axiom5Rank(P: seq<seq<PointRef>>, L: seq<seq<LineRef>>, rank: int, i: int): (r: seq<Axiom>)
    ensures forall a :: a in r <==> Axiom5ByRank(P, L, rank, i, a)
  {
    if rank - i <= 0 then []
    else
      var rows := seq(rank - i, j requires 0 <= j < rank - i => Axiom5Cell(P, L, rank, i, j));
      assert forall j | 0 <= j < rank - i :: rows[j] == Axiom5Cell(P, L, rank, i, j);
      assert forall a :: a in Flatten(rows) <==> exists j | 0 <= j < rank - i :: Axiom5At(P, L, rank, i, j, a) by {
        forall a ensures (exists j | 0 <= j < rank - i :: Axiom5At(P, L, rank, i, j, a)) ==> a in Flatten(rows) {
          if j :| 0 <= j < rank - i && Axiom5At(P, L, rank, i, j, a) {
            assert a in rows[j];
          }
        }
      }
      Flatten(rows)
  }

  function Axiom5Cell(P: seq<seq<PointRef>>, L: seq<seq<LineRef>>, rank: int, i: int, j: int): (r: seq<Axiom>)
    ensures forall a :: a in r <==> Axiom5At(P, L, rank, i, j, a)
  {
    if i != rank - i - j - 1 then Axiom5Triples(At(P, i), At(L, j), At(P, rank - i - j - 1)) else []
  }

  function Axiom5Triples(points1: seq<PointRef>, lines: seq<LineRef>, points2: seq<PointRef>): (r: seq<Axiom>)
    ensures forall a :: a in r <==> a.A5? && a.p1 in points1 && a.l1 in lines && a.p2 in points2
  {
    var rows := seq(|points1|, k requires 0 <= k < |points1| => Axiom5Row(points1[k], lines, points2));
    assert forall k | 0 <= k < |points1| :: rows[k] == Axiom5Row(points1[k], lines, points2);
    Flatten(rows)
  }

  function Axiom5Row(p1: PointRef, lines: seq<LineRef>, points2: seq<PointRef>): (r: seq<Axiom>)
    ensures forall a :: a in r <==> a.A5? && a.p1 == p1 && a.l1 in lines && a.p2 in points2
  {
    var rows := seq(|lines|, k requires 0 <= k < |lines| => Axiom5Column(p1, lines[k], points2));
    assert forall k | 0 <= k < |lines| :: rows[k] == Axiom5Column(p1, lines[k], points2);
    Flatten(rows)
  }

  function Axiom5Column(p1: PointRef, line: LineRef, points2: seq<PointRef>): (r: seq<Axiom>)
    ensures forall a :: a in r <==> a.A5? && a.p1 == p1 && a.l1 == line && a.p2 in points2
  {
    var r := seq(|points2|, m requires 0 <= m < |points2| => A5(p1, line, points2[m]));
    assert forall m | 0 <= m < |points2| :: r[m] == A5(p1, line, points2[m]);
    r
  }

  /* Axiom 7 ------------------------------------------------------------- */

  /** The inputs `generateAxiom7` tries: a line of rank `i`, a point of
      rank `j` and a second line of rank `k = rank - 1 - i - j`, with
      `i != k`. */
  function Axiom7Inputs(P: seq<seq<PointRef>>, L: seq<seq<LineRef>>, rank: int): (r: seq<Axiom>)
    ensures forall a :: a in r <==> exists i | 0 <= i < rank :: Axiom7ByRank(P, L, rank, i, a)
  {
    if rank <= 0 then []
    else
      var rows := seq(rank, i requires 0 <= i < rank => Axiom7Rank(P, L, rank, i));
      assert forall i | 0 <= i < rank :: rows[i] == Axiom7Rank(P, L, rank, i);
      assert forall a :: a in Flatten(rows) <==> exists i | 0 <= i < rank :: Axiom7ByRank(P, L, rank, i, a) by {
        forall a ensures (exists i | 0 <= i < rank :: Axiom7ByRank(P, L, rank, i, a)) ==> a in Flatten(rows) {
          if i :| 0 <= i < rank && Axiom7ByRank(P, L, rank, i, a) {
            assert a in rows[i];
          }
        }
      }
      Flatten(rows)
  }

  /** The candidates of iteration `i` of the outer rank loop. */
  predicate Axiom7ByRank(P: seq<seq<PointRef>>, L: seq<seq<LineRef>>, rank: int, i: int, a: Axiom) {
    exists j | 0 <= j < rank - i :: Axiom7At(P, L, rank, i, j, a)
  }

  /** The candidates of iteration `i`, `j` of the two rank loops. */
  predicate Axiom7At(P: seq<seq<PointRef>>, L: seq<seq<LineRef>>, rank: int, i: int, j: int, a: Axiom) {
    i != rank - i - j - 1 && a.A7? && a.l1 in At(L, i) && a.p1 in At(P, j) && a.l2 in At(L, rank - i - j - 1)
  }

  /** One iteration of the outer rank loop. */
  function Axiom7Rank(P: seq<seq<PointRef>>, L: seq<seq<LineRef>>, rank: int, i: int): (r: seq<Axiom>)
    ensures forall a :: a in r <==> Axiom7ByRank(P, L, rank, i, a)
  {
    if rank - i <= 0 then []
    else
      var rows := seq(rank - i, j requires 0 <= j < rank - i => Axiom7Cell(P, L, rank, i, j));
      assert forall j | 0 <= j < rank - i :: rows[j] == Axiom7Cell(P, L, rank, i, j);
      assert forall a :: a in Flatten(rows) <==> exists j | 0 <= j < rank - i :: Axiom7At(P, L, rank, i, j, a) by {
        forall a ensures (exists j | 0 <= j < rank - i :: Axiom7At(P, L, rank, i, j, a)) ==> a in Flatten(rows) {
          if j :| 0 <= j < rank - i && Axiom7At(P, L, rank, i, j, a) {
            assert a in rows[j];
          }
        }
      }
      Flatten(rows)
  }

  function Axiom7Cell(P: seq<seq<PointRef>>, L: seq<seq<LineRef>>, rank: int, i: int, j: int): (r: seq<Axiom>)
    ensures forall a :: a in r <==> Axiom7At(P, L, rank, i, j, a)
  {
    if i != rank - i - j - 1 then Axiom7Triples(At(L, i), At(P, j), At(L, rank - i - j - 1)) else []
  }

  function Axiom7Triples(lines1: seq<LineRef>, points: seq<PointRef>, lines2: seq<LineRef>): (r: seq<Axiom>)
    ensures forall a :: a in r <==> a.A7? && a.l1 in lines1 && a.p1 in points && a.l2 in lines2
  {
    var rows := seq(|lines1|, k requires 0 <= k < |lines1| => Axiom7Row(lines1[k], points, lines2));
    assert forall k | 0 <= k < |lines1| :: rows[k] == Axiom7Row(lines1[k], points, lines2);
    Flatten(rows)
  }

  function Axiom7Row(l1: LineRef, points: seq<PointRef>, lines2: seq<LineRef>): (r: seq<Axiom>)
    ensures forall a :: a in r <==> a.A7? && a.l1 == l1 && a.p1 in points && a.l2 in lines2
  {
    var rows := seq(|points|, k requires 0 <= k < |points| => Axiom7Column(l1, points[k], lines2));
    assert forall k | 0 <= k < |points| :: rows[k] == Axiom7Column(l1, points[k], lines2);
    Flatten(rows)
  }

  function Axiom7Column(l1: LineRef, p: PointRef, lines2: seq<LineRef>): (r: seq<Axiom>)
    ensures forall a :: a in r <==> a.A7? && a.l1 == l1 && a.p1 == p && a.l2 in lines2
  {
    var r := seq(|lines2|, m requires 0 <= m < |lines2| => A7(p, l1, lines2[m]));
    assert forall m | 0 <= m < |lines2| :: r[m] == A7(p, l1, lines2[m]);
    r
  }

  /* Axiom 6 ------------------------------------------------------------- */

  /** The inputs `generateAxiom6` tries: points of ranks `i` and
      `sumP - i` with `i <= sumP / 2`, and lines of ranks `k <= sumL` and
      `m <= sumL - k`, for every `sumP + sumL <= rank - 1`. */
  function Axiom6Inputs(P: seq<seq<PointRef>>, L: seq<seq<LineRef>>, rank: int): (r: seq<Axiom>)
    ensures forall a :: a in r <==> exists sumP | 0 <= sumP < rank :: Axiom6BySumP(P, L, rank, sumP, a)
  {
    if rank <= 0 then []
    else
      var rows := seq(rank, sumP requires 0 <= sumP < rank => Axiom6SumP(P, L, rank, sumP));
      assert forall sumP | 0 <= sumP < rank :: rows[sumP] == Axiom6SumP(P, L, rank, sumP);
      assert forall a :: a in Flatten(rows) <==> exists sumP | 0 <= sumP < rank :: Axiom6BySumP(P, L, rank, sumP, a) by {
        forall a ensures (exists sumP | 0 <= sumP < rank :: Axiom6BySumP(P, L, rank, sumP, a)) ==> a in Flatten(rows) {
          if sumP :| 0 <= sumP < rank && Axiom6BySumP(P, L, rank, sumP, a) {
            assert a in rows[sumP];
          }
        }
      }
      Flatten(rows)
  }

  /** The candidates for one sum `sumP` of the point ranks. */
  ghost predicate Axiom6BySumP(P: seq<seq<PointRef>>, L: seq<seq<LineRef>>, rank: int, sumP: int, a: Axiom) {
    exists sumL | 0 <= sumL < rank - sumP :: Axiom6BySums(P, L, sumP, sumL, a)
  }

  /** The candidates for sums `sumP` and `sumL` of the point and line ranks. */
  ghost predicate Axiom6BySums(P: seq<seq<PointRef>>, L: seq<seq<LineRef>>, sumP: int, sumL: int, a: Axiom) {
    exists i | 0 <= i < sumP / 2 + 1 :: Axiom6ByPointRanks(P, L, sumP, i, sumL, a)
  }

  /** The candidates with points of ranks `i` and `sumP - i`. */
  ghost predicate Axiom6ByPointRanks(P: seq<seq<PointRef>>, L: seq<seq<LineRef>>, sumP: int, i: int, sumL: int, a: Axiom) {
    exists k | 0 <= k < sumL + 1 :: Axiom6ByLineRank(P, L, sumP, i, k, sumL, a)
  }

  /** The candidates with points of ranks `i` and `sumP - i` and a first
      line of rank `k`. */
  ghost predicate Axiom6ByLineRank(P: seq<seq<PointRef>>, L: seq<seq<LineRef>>, sumP: int, i: int, k: int, sumL: int, a: Axiom) {
    exists m | 0 <= m < sumL - k + 1 :: Axiom6At(P, L, sumP, i, k, m, a)
  }

  /** The candidates of one iteration of the five rank loops. */
  predicate Axiom6At(P: seq<seq<PointRef>>, L: seq<seq<LineRef>>, sumP: int, i: int, k: int, m: int, a: Axiom) {
    a.A6? && a.p1 in At(P, i) && a.p2 in At(P, sumP - i) && a.l1 in At(L, k) && a.l2 in At(L, m)
  }

  /** One iteration of the loop over point-rank sums. */
  function Axiom6SumP(P: seq<seq<PointRef>>, L: seq<seq<LineRef>>, rank: int, sumP: int): (r: seq<Axiom>)
    ensures forall a :: a in r <==> Axiom6BySumP(P, L, rank, sumP, a)
  {
    if rank - sumP <= 0 then []
    else
      var rows := seq(rank - sumP, sumL requires 0 <= sumL < rank - sumP => Axiom6Sums(P, L, sumP, sumL));
      assert forall sumL | 0 <= sumL < rank - sumP :: rows[sumL] == Axiom6Sums(P, L, sumP, sumL);
      assert forall a :: a in Flatten(rows) <==> exists sumL | 0 <= sumL < rank - sumP :: Axiom6BySums(P, L, sumP, sumL, a) by {
        forall a ensures (exists sumL | 0 <= sumL < rank - sumP :: Axiom6BySums(P, L, sumP, sumL, a)) ==> a in Flatten(rows) {
          if sumL :| 0 <= sumL < rank - sumP && Axiom6BySums(P, L, sumP, sumL, a) {
            assert a in rows[sumL];
          }
        }
      }
      Flatten(rows)
  }

  /** One iteration of the loop over line-rank sums. */
  function Axiom6Sums(P: seq<seq<PointRef>>, L: seq<seq<LineRef>>, sumP: int, sumL: int): (r: seq<Axiom>)
    ensures forall a :: a in r <==> Axiom6BySums(P, L, sumP, sumL, a)
  {
    if sumP / 2 + 1 <= 0 then []
    else
      var rows := seq(sumP / 2 + 1, i requires 0 <= i < sumP / 2 + 1 => Axiom6PointRanks(P, L, sumP, i, sumL));
      assert forall i | 0 <= i < sumP / 2 + 1 :: rows[i] == Axiom6PointRanks(P, L, sumP, i, sumL);
      assert forall a :: a in Flatten(rows) <==> exists i | 0 <= i < sumP / 2 + 1 :: Axiom6ByPointRanks(P, L, sumP, i, sumL, a) by {
        forall a ensures (exists i | 0 <= i < sumP / 2 + 1 :: Axiom6ByPointRanks(P, L, sumP, i, sumL, a)) ==> a in Flatten(rows) {
          if i :| 0 <= i < sumP / 2 + 1 && Axiom6ByPointRanks(P, L, sumP, i, sumL, a) {
            assert a in rows[i];
          }
        }
      }
      Flatten(rows)
  }

  /** One iteration of the loop over the first point's rank. */
  function Axiom6PointRanks(P: seq<seq<PointRef>>, L: seq<seq<LineRef>>, sumP: int, i: int, sumL: int): (r: seq<Axiom>)
    ensures forall a :: a in r <==> Axiom6ByPointRanks(P, L, sumP, i, sumL, a)
  {
    if sumL + 1 <= 0 then []
    else
      var rows := seq(sumL + 1, k requires 0 <= k < sumL + 1 => Axiom6LineRank(P, L, sumP, i, k, sumL));
      assert forall k | 0 <= k < sumL + 1 :: rows[k] == Axiom6LineRank(P, L, sumP, i, k, sumL);
      assert forall a :: a in Flatten(rows) <==> exists k | 0 <= k < sumL + 1 :: Axiom6ByLineRank(P, L, sumP, i, k, sumL, a) by {
        forall a ensures (exists k | 0 <= k < sumL + 1 :: Axiom6ByLineRank(P, L, sumP, i, k, sumL, a)) ==> a in Flatten(rows) {
          if k :| 0 <= k < sumL + 1 && Axiom6ByLineRank(P, L, sumP, i, k, sumL, a) {
            assert a in rows[k];
          }
        }
      }
      Flatten(rows)
  }

  /** One iteration of the loop over the first line's rank. */
  function Axiom6LineRank(P: seq<seq<PointRef>>, L: seq<seq<LineRef>>, sumP: int, i: int, k: int, sumL: int): (r: seq<Axiom>)
    ensures forall a :: a in r <==> Axiom6ByLineRank(P, L, sumP, i, k, sumL, a)
  {
    if sumL - k + 1 <= 0 then []
    else
      var rows := seq(sumL - k + 1, m requires 0 <= m < sumL - k + 1 => Axiom6Cell(P, L, sumP, i, k, m));
      assert forall m | 0 <= m < sumL - k + 1 :: rows[m] == Axiom6Cell(P, L, sumP, i, k, m);
      assert forall a :: a in Flatten(rows) <==> exists m | 0 <= m < sumL - k + 1 :: Axiom6At(P, L, sumP, i, k, m, a) by {
        forall a ensures (exists m | 0 <= m < sumL - k + 1 :: Axiom6At(P, L, sumP, i, k, m, a)) ==> a in Flatten(rows) {
          if m :| 0 <= m < sumL - k + 1 && Axiom6At(P, L, sumP, i, k, m, a) {
            assert a in rows[m];
          }
        }
      }
      Flatten(rows)
  }

  function Axiom6Cell(P: seq<seq<PointRef>>, L: seq<seq<LineRef>>, sumP: int, i: int, k: int, m: int): (r: seq<Axiom>)
    ensures forall a :: a in r <==> Axiom6At(P, L, sumP, i, k, m, a)
  {
    Axiom6Quads(At(P, i), At(P, sumP - i), At(L, k), At(L, m))
  }

  function Axiom6Quads(points1: seq<PointRef>, points2: seq<PointRef>, lines1: seq<LineRef>, lines2: seq<LineRef>): (r: seq<Axiom>)
    ensures forall a :: a in r <==> a.A6? && a.p1 in points1 && a.p2 in points2 && a.l1 in lines1 && a.l2 in lines2
  {
    var rows := seq(|points1|, k requires 0 <= k < |points1| => Axiom6Row(points1[k], points2, lines1, lines2));
    assert forall k | 0 <= k < |points1| :: rows[k] == Axiom6Row(points1[k], points2, lines1, lines2);
    Flatten(rows)
  }

  function Axiom6Row(p1: PointRef, points2: seq<PointRef>, lines1: seq<LineRef>, lines2: seq<LineRef>): (r: seq<Axiom>)
    ensures forall a :: a in r <==> a.A6? && a.p1 == p1 && a.p2 in points2 && a.l1 in lines1 && a.l2 in lines2
  {
    var rows := seq(|points2|, k requires 0 <= k < |points2| => Axiom6Plane(p1, points2[k], lines1, lines2));
    assert forall k | 0 <= k < |points2| :: rows[k] == Axiom6Plane(p1, points2[k], lines1, lines2);
    Flatten(rows)
  }

  function Axiom6Plane(p1: PointRef, p2: PointRef, lines1: seq<LineRef>, lines2: seq<LineRef>): (r: seq<Axiom>)
    ensures forall a :: a in r <==> a.A6? && a.p1 == p1 && a.p2 == p2 && a.l1 in lines1 && a.l2 in lines2
  {
    var rows := seq(|lines1|, k requires 0 <= k < |lines1| => Axiom6Column(p1, p2, lines1[k], lines2));
    assert forall k | 0 <= k < |lines1| :: rows[k] == Axiom6Column(p1, p2, lines1[k], lines2);
    Flatten(rows)
  }

  function Axiom6Column(p1: PointRef, p2: PointRef, l1: LineRef, lines2: seq<LineRef>): (r: seq<Axiom>)
    ensures forall a :: a in r <==> a.A6? && a.p1 == p1 && a.p2 == p2 && a.l1 == l1 && a.l2 in lines2
  {
    var r := seq(|lines2|, m requires 0 <= m < |lines2| => A6(p1, l1, p2, lines2[m]));
    assert forall m | 0 <= m < |lines2| :: r[m] == A6(p1, l1, p2, lines2[m]);
    r
  }
}
