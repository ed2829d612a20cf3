// The repair loop of `insert(data)` in Tree.swift as the program runs it:
// with its own `rightRotate`, which can leave a parent link pointing at the
// wrong node, after which the loop reads that link and goes on. Also the
// generator's `next()` on such links. Node `==` compares the data, and the
// data of different nodes differ, so it is node identity here.

module TreeAsWritten {
  import opened Wrappers
  import opened TreeShape
  import opened TreeRotation

  /** Where one round of the repair loop leaves the tree: the loop goes on
      from node `c`, or it is over, or the program traps on a `nil` it
      unwraps. */
  datatype Round = Again(k: Links, col: seq<Color>, c: int) | Over(k: Links, col: seq<Color>) | Trap

  /** How the repair ends: with the root painted black, with a trap, or
      with its rounds used up. */
  datatype Run = Done(k: Links, col: seq<Color>) | Trapped | Unfinished

  lemma LeftRotatedBounded(k: Links, n: nat, x: int)
    requires Bounded(k, n) && 0 <= x < n && k.right[x] != -1
    ensures Bounded(LeftRotated(k, x), n)
  {
    var y := k.right[x];
    var parent1 := if k.left[y] != -1 then k.parent[k.left[y] := x] else k.parent;
    assert forall i | 0 <= i < n :: -1 <= parent1[i] < n;
  }

  lemma RightRotatedAsWrittenBounded(k: Links, n: nat, x: int)
    requires Bounded(k, n) && 0 <= x < n && k.left[x] != -1
    ensures Bounded(RightRotatedAsWritten(k, x), n)
  {
    var y := k.left[x];
    var left1 := k.left[x := k.right[y]];
    var parent1 := if left1[y] != -1 then k.parent[left1[y] := x] else k.parent;
    assert forall i | 0 <= i < n :: -1 <= left1[i] < n && -1 <= parent1[i] < n;
  }

  /** Case 3 on the left as written: `parent` black, `grandparent` red, and
      the source's `rightRotate(grandparent)`, which traps when
      `grandparent.left` is `nil`. */
  function ZagLeft(k: Links, col: seq<Color>, c: int, p: int, g: int): (r: Round)
    requires Bounded(k, |col|) && 0 <= c < |col| && 0 <= p < |col| && 0 <= g < |col|
    ensures r.Again? ==> Bounded(r.k, |col|) && |r.col| == |col| && r.c == c
    ensures r.Again? <==> k.left[g] != -1
    ensures !r.Over?
  {
    if k.left[g] == -1 then Trap
    else
      RightRotatedAsWrittenBounded(k, |col|, g);
      Again(RightRotatedAsWritten(k, g), col[p := Black][g := Red], c)
  }

  /** Case 3 on the right: `parent` black, `grandparent` red, and
      `leftRotate(grandparent)`, which traps when `grandparent.right` is
      `nil`. */
  function ZagRight(k: Links, col: seq<Color>, c: int, p: int, g: int): (r: Round)
    requires Bounded(k, |col|) && 0 <= c < |col| && 0 <= p < |col| && 0 <= g < |col|
    ensures r.Again? ==> Bounded(r.k, |col|) && |r.col| == |col| && r.c == c
    ensures r.Again? <==> k.right[g] != -1
    ensures !r.Over?
  {
    if k.right[g] == -1 then Trap
    else
      LeftRotatedBounded(k, |col|, g);
      Again(LeftRotated(k, g), col[p := Black][g := Red], c)
  }

  /** After the case 2 rotation: `node` moves to `c1`, and `parent` and
      `grandparent` are read again from the links; a `nil` on the way
      traps. Then case 3. */
  function Reread(k: Links, col: seq<Color>, c1: int, onLeft: bool): (r: Round)
    requires Bounded(k, |col|) && -1 <= c1 < |col|
    ensures r.Again? ==> Bounded(r.k, |col|) && |r.col| == |col| && 0 <= r.c < |col|
    ensures !r.Over?
  {
    if c1 == -1 || k.parent[c1] == -1 || k.parent[k.parent[c1]] == -1 then Trap
    else if onLeft then ZagLeft(k, col, c1, k.parent[c1], k.parent[k.parent[c1]])
    else ZagRight(k, col, c1, k.parent[c1], k.parent[k.parent[c1]])
  }

  /** One round of the loop of `insert(data)` from `node` = `c`, with the
      source's rotations: the loop's test, then case 1, or case 2 and
      case 3, or case 3, on the side of the parent. The test reads the
      colour of `node.parent`, which traps when a node other than the root
      has no parent. */
  function RoundFrom(k: Links, col: seq<Color>, c: int): (r: Round)
    requires Bounded(k, |col|) && 0 <= c < |col|
    ensures r.Again? ==> Bounded(r.k, |col|) && |r.col| == |col| && 0 <= r.c < |col|
    ensures r.Over? ==> r.k == k && r.col == col
    ensures r.Over? <==> c == k.root || (k.parent[c] != -1 && (col[k.parent[c]] != Red || k.parent[k.parent[c]] == -1))
  {
    if c == k.root then Over(k, col)
    else if k.parent[c] == -1 then Trap
    else
      var p := k.parent[c];
      if col[p] != Red || k.parent[p] == -1 then Over(k, col)
      else
        var g := k.parent[p];
        if p == k.left[g] then
          var u := k.right[g];
          if u != -1 && col[u] == Red then Again(k, col[p := Black][u := Black][g := Red], g)
          else if c == k.right[p] then
            LeftRotatedBounded(k, |col|, p);
            var k1 := LeftRotated(k, p);
            Reread(k1, col, k1.left[c], true)
          else ZagLeft(k, col, c, p, g)
        else
          var u := k.left[g];
          if u != -1 && col[u] == Red then Again(k, col[p := Black][u := Black][g := Red], g)
          else if c == k.left[p] then
            RightRotatedAsWrittenBounded(k, |col|, p);
            var k1 := RightRotatedAsWritten(k, p);
            Reread(k1, col, k1.right[c], false)
          else ZagRight(k, col, c, p, g)
  }

  /** The repair loop and the final `root.color = .Black`, as written,
      for at most `fuel` rounds. When it ends, every pointer is still a
      node or `nil`, and the root is black. */
  function Repaired(k: Links, col: seq<Color>, c: int, fuel: nat): (r: Run)
    requires Bounded(k, |col|) && 0 <= c < |col|
    ensures r.Done? ==> Bounded(r.k, |col|) && |r.col| == |col| && 0 <= r.k.root < |col| && r.col[r.k.root] == Black
    ensures fuel == 0 ==> r == Unfinished
    decreases fuel
  {
    if fuel == 0 then Unfinished
    else
      var r := RoundFrom(k, col, c);
      if r.Again? then Repaired(r.k, r.col, r.c, fuel - 1) else Finished(r)
  }

  /** How a run ends after a round that does not go on. */
  function Finished(r: Round): (run: Run)
    requires !r.Again? && (r.Over? ==> Bounded(r.k, |r.col|))
    ensures run.Done? <==> r.Over? && r.k.root != -1
  {
    if r.Trap? || r.k.root == -1 then Trapped else Done(r.k, r.col[r.k.root := Black])
  }

  /** One round of the run: it ends it, or leaves the rest to the next
      round. */
  lemma RepairedRound(k: Links, col: seq<Color>, c: int, fuel: nat, r: Round, rest: nat)
    requires Bounded(k, |col|) && 0 <= c < |col| && fuel > 0 && r == RoundFrom(k, col, c) && rest == fuel - 1
    ensures !r.Again? ==> Repaired(k, col, c, fuel) == Finished(r)
    ensures r.Again? ==> Repaired(k, col, c, fuel) == Repaired(r.k, r.col, r.c, rest)
  {
  }

  /** The loop of `insert(data)` as written, round by round, giving up
      after `fuel` rounds. */
  method Repair(k: Links, col: seq<Color>, c: int, fuel: nat) returns (run: Run)
    requires Bounded(k, |col|) && 0 <= c < |col|
    ensures run == Repaired(k, col, c, fuel)
  {
    var r, left := Again(k, col, c), fuel;
    while left > 0 && r.Again?
      invariant !r.Trap? ==> Bounded(r.k, |r.col|) && |r.col| == |col|
      invariant r.Again? ==> 0 <= r.c < |col|
      invariant r.Again? ==> Repaired(r.k, r.col, r.c, left) == Repaired(k, col, c, fuel)
      invariant !r.Again? ==> Finished(r) == Repaired(k, col, c, fuel)
      decreases left
    {
      ghost var was, wasLeft := r, left;
      r, left := RoundFrom(r.k, r.col, r.c), left - 1;
      RepairedRound(was.k, was.col, was.c, wasLeft, r, left);
    }
    if r.Again? {
      run := Unfinished;
    } else {
      run := Finished(r);
    }
  }

  /** The leftmost node below `c`, as `init(root)` and `next()` walk down
      `left` links; `None` when `fuel` steps do not reach it. */
  function LeftmostFrom(k: Links, c: int, fuel: nat): (r: Option<int>)
    requires Bounded(k, |k.left|) && -1 <= c < |k.left|
    ensures r.Some? ==> -1 <= r.value < |k.left| && (r.value != -1 ==> k.left[r.value] == -1)
    ensures r.Some? ==> (r.value == -1 <==> c == -1)
    decreases fuel
  {
    if c == -1 || k.left[c] == -1 then Some(c)
    else if fuel == 0 then None
    else LeftmostFrom(k, k.left[c], fuel - 1)
  }

  /** The climb of `next()` from `c`: up the `parent` links until arriving
      from a left child, or to `nil` past a node without a parent. */
  function ClimbFrom(k: Links, c: int, fuel: nat): (r: Option<int>)
    requires Bounded(k, |k.left|) && 0 <= c < |k.left|
    ensures r.Some? ==> -1 <= r.value < |k.left|
    decreases fuel
  {
    var p := k.parent[c];
    if p == -1 then Some(-1)
    else if k.left[p] == c then Some(p)
    else if fuel == 0 then None
    else ClimbFrom(k, p, fuel - 1)
  }

  /** Where `next()` moves from `c`: down the right subtree to its
      leftmost node, or up. */
  function NextFrom(k: Links, c: int, fuel: nat): (r: Option<int>)
    requires Bounded(k, |k.left|) && 0 <= c < |k.left|
    ensures r.Some? ==> -1 <= r.value < |k.left|
  {
    if k.right[c] != -1 then LeftmostFrom(k, k.right[c], fuel) else ClimbFrom(k, c, fuel)
  }

  /** The values the generator hands out from node `c` on, reading the
      links as they are; `None` when `fuel` does not suffice. */
  function YieldsFrom(key: seq<int>, k: Links, c: int, fuel: nat): (r: Option<seq<int>>)
    requires Bounded(k, |key|) && -1 <= c < |key|
    ensures r.Some? ==> (forall v <- r.value :: v in key) && |r.value| <= fuel
    ensures r.Some? && c != -1 ==> r.value != [] && r.value[0] == key[c]
    decreases fuel
  {
    if c == -1 then Some([])
    else if fuel == 0 then None
    else
      match NextFrom(k, c, fuel)
      case None => None
      case Some(d) =>
        match YieldsFrom(key, k, d, fuel - 1)
        case None => None
        case Some(s) => Some([key[c]] + s)
  }

  /** Everything a fresh generator hands out, `init(root)` then `next()`
      until `nil`, on the links as they are. */
  function Generated(key: seq<int>, k: Links, fuel: nat): (r: Option<seq<int>>)
    requires Bounded(k, |key|)
    ensures r.Some? ==> forall v <- r.value :: v in key
    ensures r.Some? && k.root != -1 ==> r.value != []
  {
    match LeftmostFrom(k, k.root, fuel)
    case None => None
    case Some(c) => YieldsFrom(key, k, c, fuel)
  }

  /** The number of black nodes on `path`. */
  function Blacks(col: seq<Color>, path: seq<int>): nat
    requires forall j | 0 <= j < |path| :: 0 <= path[j] < |col|
  {
    if path == [] then 0
    else Blacks(col, path[..|path| - 1]) + if col[path[|path| - 1]] == Black then 1 else 0
  }

  /** `path` goes down from the root by `left` and `right` links and ends
      at a node with a `nil` child. */
  predicate DownPath(k: Links, n: nat, path: seq<int>)
  {
    Bounded(k, n) && path != [] && path[0] == k.root && (forall j | 0 <= j < |path| :: 0 <= path[j] < n) &&
    (forall j | 0 <= j < |path| - 1 :: path[j + 1] == k.left[path[j]] || path[j + 1] == k.right[path[j]]) &&
    (k.left[path[|path| - 1]] == -1 || k.right[path[|path| - 1]] == -1)
  }
}
