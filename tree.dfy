// Tree.swift: a red-black tree that only grows. Its nodes are kept by
// index: node `i` holds `key[i]` and `color[i]`, and its `left`, `right`
// and `parent` links, -1 standing for `nil`. The ghost `shape` records
// which node sits where.

module RedBlackTree {
  import opened Wrappers
  import opened TreeShape
  import opened TreeRotation
  import opened TreeColoring
  import opened TreeTraversal
  import TreeAsWritten

  /** The arena holds one binary search tree laid out as `t`, with a
      colour per node. */
  ghost predicate Sound(key: seq<int>, k: Links, col: seq<Color>, t: Shape)
  {
    TreeShape.Tree(t, k, |key|) && |col| == |key| && Increasing(Keys(t, key))
  }

  /** No red node has a red parent, and the root is black. */
  ghost predicate RedBlackColours(col: seq<Color>, k: Links)
  {
    RedRedFree(col, k.parent) && (k.root == -1 || (0 <= k.root < |col| && col[k.root] == Black))
  }

  /** `treeInsert(data)` on the tree's fields: hangs a new red node
      holding `x` where the search for `x` ends, or, when `x` is already
      there, leaves the tree as it is; `node` is the node holding `x`.
      `size` goes up by one and back down when `x` was there. */
  method TreeInsertInto(key: seq<int>, k: Links, col: seq<Color>, size: int, ghost t: Shape, x: int)
    returns (key': seq<int>, k': Links, col': seq<Color>, size': int, node: int, ghost t': Shape)
    requires TreeShape.Tree(t, k, |key|) && Increasing(Keys(t, key)) && |col| == |key|
    ensures TreeShape.Tree(t', k', |key'|) && Increasing(Keys(t', key')) && |col'| == |key'|
    ensures 0 <= node < |key'| && key'[node] == x
    ensures x in Keys(t, key) ==> key' == key && k' == k && col' == col && size' == size && t' == t
    ensures x !in Keys(t, key) ==>
      node == |key| && key' == key + [x] && col' == col + [Red] && size' == size + 1 &&
      if k.root == -1 then k' == Links([-1], [-1], [-1], node)
      else 0 <= k'.parent[node] < node && k' == Attach(k, k'.parent[node], x > key[k'.parent[node]])
    ensures multiset(Keys(t', key')) ==
      if x in Keys(t, key) then multiset(Keys(t, key)) else multiset(Keys(t, key)) + multiset{x}
    ensures RedRedFree(col, k.parent) ==> RedRedFreeExcept(col', k'.parent, node)
  {
    var n := |key|;
    size' := size + 1;
    if k.root == -1 {
      assert t == Leaf;
      key', k', col' := key + [x], Links([-1], [-1], [-1], n), col + [Red];
      t' := Node(n, Leaf, Leaf);
      node := n;
      return;
    }
    TreeBounded(t, k, n);
    var cur := k.root;
    while true
      invariant 0 <= cur < n && OnPath(t, key, x, cur) && size' == size + 1
      decreases n - Depth(t, cur)
    {
      PathIn(t, key, x, cur);
      NodeFacts(t, -1, k, cur);
      ParentDepth(t, -1, k, cur);
      PathStep(t, -1, k, key, x, cur);
      if x > key[cur] {
        if k.right[cur] != -1 {
          ParentDepth(t, -1, k, k.right[cur]);
          cur := k.right[cur];
        } else {
          t' := GrowFacts(t, k, key, col, x, cur);
          key', k', col', node := key + [x], Attach(k, cur, true), col + [Red], n;
          return;
        }
      } else if x < key[cur] {
        if k.left[cur] != -1 {
          ParentDepth(t, -1, k, k.left[cur]);
          cur := k.left[cur];
        } else {
          t' := GrowFacts(t, k, key, col, x, cur);
          key', k', col', node := key + [x], Attach(k, cur, false), col + [Red], n;
          return;
        }
      } else {
        PathFound(t, key, x, cur, n);
        size' := size' - 1;
        break;
      }
    }
    key', k', col', node, t' := key, k, col, cur, t;
  }

  /** How far the repair still has to go from `c`: its depth, plus the
      size of the tree while its parent is red. */
  ghost function Rank(t: Shape, k: Links, col: seq<Color>, c: int): nat
  {
    Depth(t, c) +
      if 0 <= c < |k.parent| && c != k.root && 0 <= k.parent[c] < |col| && col[k.parent[c]] == Red
      then |col| else 0
  }

  /** The repair loop of `insert(data)` and the blackening of the root,
      on the tree's fields, starting from `node`. The rotations move nodes
      but keep them, and their data, in order. Started from a new red node
      that alone may have a red parent, it leaves no red node with a red
      parent and a black root. */
  method Repair(key: seq<int>, k: Links, col: seq<Color>, ghost t: Shape, node: int)
    returns (k': Links, col': seq<Color>, ghost t': Shape)
    requires TreeShape.Tree(t, k, |key|) && |col| == |key| && 0 <= node < |key|
    ensures TreeShape.Tree(t', k', |key|) && Ids(t') == Ids(t) && Keys(t', key) == Keys(t, key)
    ensures |col'| == |col| && 0 <= k'.root < |key| && col'[k'.root] == Black
    ensures RedRedFreeExcept(col, k.parent, node) && col[node] == Red ==> RedRedFree(col', k'.parent)
  {
    var n := |key|;
    ghost var good := RedRedFreeExcept(col, k.parent, node) && col[node] == Red;
    k', col', t' := k, col, t;
    var c := node;
    TreeBounded(t', k', n);
    Hang(t', k', n, c);
    while c != k'.root && col'[k'.parent[c]] == Red
      invariant TreeShape.Tree(t', k', n) && Ids(t') == Ids(t) && |col'| == n
      invariant 0 <= c < n && (k'.parent[c] == -1 <==> c == k'.root) && (c != k'.root ==> 0 <= k'.parent[c] < n)
      invariant c != k'.root ==> (k'.parent[k'.parent[c]] == -1 <==> k'.parent[c] == k'.root)
      invariant good ==> RedRedFreeExcept(col', k'.parent, c) && col'[c] == Red
      decreases Rank(t', k', col', c)
    {
      Hang(t', k', n, c);
      var p := k'.parent[c];
      var g := k'.parent[p];
      if g == -1 {
        break;
      }
      if p == k'.left[g] {
        k', col', t', c := RepairLeft(key, k', col', t', c, good);
      } else {
        k', col', t', c := RepairRight(key, k', col', t', c, good);
      }
      Hang(t', k', n, c);
    }
    TreeBounded(t', k', n);
    SameOrder(t, t', key);
    if good {
      Settle(k', n, col', c);
    }
    col' := col'[k'.root := Black];
  }

  /** What one round of the repair loop achieves: a well-formed tree over
      the same nodes, a smaller `Rank`, and the only red-red violation, if
      any, at the new current node. */
  ghost predicate Progress(n: nat, t: Shape, k: Links, col: seq<Color>, c: int,
                           t': Shape, k': Links, col': seq<Color>, c': int, good: bool)
  {
    TreeShape.Tree(t', k', n) && Ids(t') == Ids(t) && |col'| == n && 0 <= c' < n &&
    Rank(t', k', col', c') < Rank(t, k, col, c) &&
    (good ==> RedRedFreeExcept(col', k'.parent, c') && col'[c'] == Red)
  }

  /** Case 1: recolouring moves the violation two levels up. */
  lemma RecolourProgress(t: Shape, k: Links, n: nat, col: seq<Color>, c: nat, u: int, good: bool)
    requires TreeShape.Tree(t, k, n) && |col| == n && c < n && c != k.root
    requires 0 <= k.parent[c] < n && 0 <= k.parent[k.parent[c]] < n
    requires var p := k.parent[c]; var g := k.parent[p];
      col[p] == Red && u == (if k.left[g] == p then k.right[g] else k.left[g]) && 0 <= u < n && col[u] == Red
    requires good ==> RedRedFreeExcept(col, k.parent, c) && col[c] == Red
    ensures var p := k.parent[c]; var g := k.parent[p];
      Progress(n, t, k, col, c, t, k, col[p := Black][u := Black][g := Red], g, good)
  {
    var p := k.parent[c];
    var g := k.parent[p];
    RecolourStep(t, k, n, col, c, u, good);
    assert Rank(t, k, col, c) == Depth(t, c) + n;
    assert Rank(t, k, col[p := Black][u := Black][g := Red], g) <= Depth(t, g) + n;
  }

  /** Case 3 on the left: after the right rotation at the grandparent the
      current node has a black parent, so the loop stops. */
  lemma ZagLeftProgress(t: Shape, k: Links, col: seq<Color>, c: int, t1: Shape, k1: Links, c1: nat, n: nat, good: bool)
    requires TreeShape.Tree(t1, k1, n) && |col| == n && c1 < n
    requires 0 <= k1.parent[c1] < n && 0 <= k1.parent[k1.parent[c1]] < n
    requires var p := k1.parent[c1]; var g := k1.parent[p];
      k1.left[p] == c1 && k1.left[g] == p && (k1.right[g] == -1 || (0 <= k1.right[g] < n && col[k1.right[g]] == Black))
    requires good ==> RedRedFreeExcept(col, k1.parent, c1) && col[c1] == Red && col[k1.parent[c1]] == Red
    requires Ids(t1) == Ids(t) && Rank(t, k, col, c) >= n
    ensures Bounded(k1, n) && |k1.left| == n && k1.left[k1.parent[k1.parent[c1]]] != -1
    ensures var p := k1.parent[c1]; var g := k1.parent[p];
      Progress(n, t, k, col, c, RotateRightAt(t1, g), RightRotated(k1, g), col[p := Black][g := Red], c1, good)
  {
    var p := k1.parent[c1];
    var g := k1.parent[p];
    ZagLeftStep(t1, k1, n, col, c1, good);
    assert col[p := Black][g := Red][RightRotated(k1, g).parent[c1]] == Black;
  }

  /** Case 3 on the right, mirrored. */
  lemma ZagRightProgress(t: Shape, k: Links, col: seq<Color>, c: int, t1: Shape, k1: Links, c1: nat, n: nat, good: bool)
    requires TreeShape.Tree(t1, k1, n) && |col| == n && c1 < n
    requires 0 <= k1.parent[c1] < n && 0 <= k1.parent[k1.parent[c1]] < n
    requires var p := k1.parent[c1]; var g := k1.parent[p];
      k1.right[p] == c1 && k1.right[g] == p && (k1.left[g] == -1 || (0 <= k1.left[g] < n && col[k1.left[g]] == Black))
    requires good ==> RedRedFreeExcept(col, k1.parent, c1) && col[c1] == Red && col[k1.parent[c1]] == Red
    requires Ids(t1) == Ids(t) && Rank(t, k, col, c) >= n
    ensures Bounded(k1, n) && |k1.right| == n && k1.right[k1.parent[k1.parent[c1]]] != -1
    ensures var p := k1.parent[c1]; var g := k1.parent[p];
      Progress(n, t, k, col, c, RotateLeftAt(t1, g), LeftRotated(k1, g), col[p := Black][g := Red], c1, good)
  {
    var p := k1.parent[c1];
    var g := k1.parent[p];
    ZagRightStep(t1, k1, n, col, c1, good);
    assert col[p := Black][g := Red][LeftRotated(k1, g).parent[c1]] == Black;
  }

  /** One round of the repair loop when the parent `p` of `c` is the left
      child of the grandparent `g`. Case 1, a red uncle: `p` and the uncle
      turn black, `g` red, and the repair goes on from `g`. Otherwise, case
      2 when `c` is a right child: rotate left at `p` and go on from `p`;
      then case 3: `p` turns black, `g` red, and a right rotation at `g`
      ends the repair. */
  method RepairLeft(key: seq<int>, k: Links, col: seq<Color>, ghost t: Shape, c: int, ghost good: bool)
    returns (k': Links, col': seq<Color>, ghost t': Shape, c': int)
    requires TreeShape.Tree(t, k, |key|) && |col| == |key| && 0 <= c < |key| && c != k.root
    requires 0 <= k.parent[c] < |key| && 0 <= k.parent[k.parent[c]] < |key|
    requires var p := k.parent[c]; col[p] == Red && k.left[k.parent[p]] == p
    requires good ==> RedRedFreeExcept(col, k.parent, c) && col[c] == Red
    ensures Progress(|key|, t, k, col, c, t', k', col', c', good)
  {
    var n := |key|;
    var p := k.parent[c];
    var g := k.parent[p];
    var u := k.right[g];
    TreeBounded(t, k, n);
    if u != -1 && col[u] == Red {
      RecolourProgress(t, k, n, col, c, u, good);
      k', col', t', c' := k, col[p := Black][u := Black][g := Red], t, g;
    } else {
      assert Rank(t, k, col, c) >= n;
      var k1, t1, c1 := k, t, c;
      if c == k.right[p] {
        ZigLeftStep(t, k, n, col, c, good);
        k1, t1, c1 := LeftRotated(k, p), RotateLeftAt(t, p), p;
      }
      ZagLeftProgress(t, k, col, c, t1, k1, c1, n, good);
      var p1 := k1.parent[c1];
      k', col', t', c' := RightRotated(k1, g), col[p1 := Black][g := Red], RotateRightAt(t1, g), c1;
    }
  }

  /** `RepairLeft` mirrored, for a parent that is the right child of the
      grandparent. */
  method RepairRight(key: seq<int>, k: Links, col: seq<Color>, ghost t: Shape, c: int, ghost good: bool)
    returns (k': Links, col': seq<Color>, ghost t': Shape, c': int)
    requires TreeShape.Tree(t, k, |key|) && |col| == |key| && 0 <= c < |key| && c != k.root
    requires 0 <= k.parent[c] < |key| && 0 <= k.parent[k.parent[c]] < |key|
    requires var p := k.parent[c]; col[p] == Red && k.right[k.parent[p]] == p
    requires good ==> RedRedFreeExcept(col, k.parent, c) && col[c] == Red
    ensures Progress(|key|, t, k, col, c, t', k', col', c', good)
  {
    var n := |key|;
    var p := k.parent[c];
    var g := k.parent[p];
    var u := k.left[g];
    TreeBounded(t, k, n);
    if u != -1 && col[u] == Red {
      RecolourProgress(t, k, n, col, c, u, good);
      k', col', t', c' := k, col[p := Black][u := Black][g := Red], t, g;
    } else {
      assert Rank(t, k, col, c) >= n;
      var k1, t1, c1 := k, t, c;
      if c == k.left[p] {
        ZigRightStep(t, k, n, col, c, good);
        k1, t1, c1 := RightRotated(k, p), RotateRightAt(t, p), p;
      }
      ZagRightProgress(t, k, col, c, t1, k1, c1, n, good);
      var p1 := k1.parent[c1];
      k', col', t', c' := LeftRotated(k1, g), col[p1 := Black][g := Red], RotateLeftAt(t1, g), c1;
    }
  }

  /** `insert(data)` on the tree's fields, with the repair skipped when
      `x` was already there. */
  method InsertInto(key: seq<int>, k: Links, col: seq<Color>, size: int, ghost t: Shape, x: int)
    returns (key': seq<int>, k': Links, col': seq<Color>, size': int, ghost t': Shape)
    requires Sound(key, k, col, t) && size == |key| && RedBlackColours(col, k)
    ensures Sound(key', k', col', t') && size' == |key'| && RedBlackColours(col', k')
    ensures multiset(Keys(t', key')) ==
      if x in Keys(t, key) then multiset(Keys(t, key)) else multiset(Keys(t, key)) + multiset{x}
    ensures x in Keys(t, key) ==> key' == key && k' == k && col' == col && t' == t
    ensures Values(Keys(t', key')) == Values(Keys(t, key)) + {x}
  {
    var node;
    key', k', col', size', node, t' := TreeInsertInto(key, k, col, size, t, x);
    if size' != size {
      k', col', t' := Repair(key', k', col', t', node);
    }
    GainsOne(Keys(t, key), Keys(t', key'), x);
  }

  /** `insert(data)` on the tree's fields as written: `treeInsert` leaves
      the fields `k1`, `col1`, and the repair, with the source's
      `rightRotate`, runs from the node holding `x` even when that node was
      there already, for at most `fuel` rounds. */
  method InsertAsWrittenInto(key: seq<int>, k: Links, col: seq<Color>, size: int, ghost t: Shape, x: int, fuel: nat)
    returns (key': seq<int>, size': int, k1: Links, col1: seq<Color>, node: int, run: TreeAsWritten.Run)
    requires Sound(key, k, col, t) && size == |key|
    ensures key' == (if x in Keys(t, key) then key else key + [x]) && size' == |key'|
    ensures 0 <= node < |key'| && key'[node] == x && Bounded(k1, |key'|) && |col1| == |key'|
    ensures x in Keys(t, key) ==> k1 == k && col1 == col
    ensures x !in Keys(t, key) ==>
      node == |key| && col1 == col + [Red] &&
      if k.root == -1 then k1 == Links([-1], [-1], [-1], node)
      else 0 <= k1.parent[node] < node && k1 == Attach(k, k1.parent[node], x > key[k1.parent[node]])
    ensures run == TreeAsWritten.Repaired(k1, col1, node, fuel)
    ensures run.Done? ==> Bounded(run.k, |key'|) && |run.col| == |key'| && run.col[run.k.root] == Black
  {
    ghost var t1;
    key', k1, col1, size', node, t1 := TreeInsertInto(key, k, col, size, t, x);
    TreeBounded(t1, k1, |key'|);
    run := TreeAsWritten.Repair(k1, col1, node, fuel);
  }

  /** `insert(items)` on the tree's fields. */
  method InsertAllInto(key: seq<int>, k: Links, col: seq<Color>, size: int, ghost t: Shape, items: seq<int>)
    returns (key': seq<int>, k': Links, col': seq<Color>, size': int, ghost t': Shape)
    requires Sound(key, k, col, t) && size == |key| && RedBlackColours(col, k)
    ensures Sound(key', k', col', t') && size' == |key'| && RedBlackColours(col', k')
    ensures Values(Keys(t', key')) == Values(Keys(t, key)) + Values(items)
  {
    key', k', col', size', t' := key, k, col, size, t;
    for j := 0 to |items|
      invariant Sound(key', k', col', t') && RedBlackColours(col', k') && size' == |key'|
      invariant Values(Keys(t', key')) == Values(Keys(t, key)) + Values(items[..j])
    {
      key', k', col', size', t' := AddOne(key', k', col', size', t', items[j]);
      ValuesNext(items, j);
    }
    assert items[..|items|] == items;
  }

  /** One step of `insert(items)`: `insert(data)` as a change of the tree's
      value set. */
  method AddOne(key: seq<int>, k: Links, col: seq<Color>, size: int, ghost t: Shape, x: int)
    returns (key': seq<int>, k': Links, col': seq<Color>, size': int, ghost t': Shape)
    requires Sound(key, k, col, t) && size == |key| && RedBlackColours(col, k)
    ensures Sound(key', k', col', t') && RedBlackColours(col', k') && size' == |key'|
    ensures Values(Keys(t', key')) == Values(Keys(t, key)) + {x}
  {
    key', k', col', size', t' := InsertInto(key, k, col, size, t, x);
  }

  /** A multiset that gains `x` unless it already held it gains `x` as a
      set. */
  lemma GainsOne(s: seq<int>, s': seq<int>, x: int)
    requires multiset(s') == if x in s then multiset(s) else multiset(s) + multiset{x}
    ensures Values(s') == Values(s) + {x}
  {
    forall y ensures y in s' <==> y in s || y == x {
      assert y in s' <==> y in multiset(s');
      assert y in s <==> y in multiset(s);
    }
  }

  /** A strictly increasing sequence has as many values as places. */
  lemma {:induction false} DistinctCount(s: seq<int>)
    requires Increasing(s)
    ensures |Values(s)| == |s|
  {
    if s != [] {
      var u := s[..|s| - 1];
      assert Increasing(u);
      DistinctCount(u);
      ValuesNext(s, |s| - 1);
      assert s[..|s|] == s;
      assert s[|s| - 1] !in u;
    }
  }

  /** The values a sequence holds. */
  ghost function Values(s: seq<int>): set<int>
  {
    set y | y in s
  }

  lemma ValuesNext(s: seq<int>, j: nat)
    requires j < |s|
    ensures Values(s[..j + 1]) == Values(s[..j]) + {s[j]}
  {
    assert s[..j + 1] == s[..j] + [s[j]];
  }

  /** A tree holding 1 to 6 on which inserting 4 a second time, as written,
      leaves a red node under a red node; node `i` holds `DupKey[i]`. */
  const DupKey: seq<int> := [5, 2, 6, 1, 4, 3]
  const DupColours: seq<Color> := [Black, Red, Black, Black, Black, Red]
  const DupLinks: Links := Links([1, 3, -1, -1, 5, -1], [2, 4, -1, -1, -1, -1], [-1, 0, 0, 1, 1, 4], 0)
  const DupShape: Shape := Node(0, Node(1, Node(3, Leaf, Leaf), Node(4, Node(5, Leaf, Leaf), Leaf)), Node(2, Leaf, Leaf))

  /** The tree above is sound and holds 4 at node 4. */
  lemma DuplicateSound()
    ensures Sound(DupKey, DupLinks, DupColours, DupShape) && Bounded(DupLinks, 6)
    ensures DupKey[4] == 4 && 4 in Keys(DupShape, DupKey)
  {
    DuplicateTree();
    DuplicateKeys();
    TreeBounded(DupShape, DupLinks, 6);
  }

  /** In order, the tree above lists 1 to 6. */
  lemma DuplicateKeys()
    ensures Keys(DupShape, DupKey) == [1, 2, 3, 4, 5, 6]
  {
  }

  /** The links of the tree above follow its shape, which names each node
      once. */
  lemma DuplicateTree()
    ensures TreeShape.Tree(DupShape, DupLinks, 6)
  {
    DuplicateLinked();
    assert Ids(DupShape) == [3, 1, 5, 4, 0, 2];
    assert Distinct(Ids(DupShape)) by {
      var s := Ids(DupShape);
      forall a, b | 0 <= a < b < |s| ensures s[a] != s[b] {
        assert a == 0 || a == 1 || a == 2 || a == 3 || a == 4;
      }
    }
  }

  /** The links of the tree above follow its shape. */
  lemma DuplicateLinked()
    ensures Linked(DupShape, -1, DupLinks)
  {
    var left := Node(1, Node(3, Leaf, Leaf), Node(4, Node(5, Leaf, Leaf), Leaf));
    assert Linked(Node(4, Node(5, Leaf, Leaf), Leaf), 1, DupLinks);
    assert Linked(left, 0, DupLinks);
  }

  /** The tree above keeps the colour rules; node 4's parent is red, its
      uncle black, node 4 is a right child and its parent a left child. */
  lemma DuplicateStart()
    ensures RedBlackColours(DupColours, DupLinks)
    ensures DupLinks.parent[4] == 1 && DupColours[1] == Red && DupLinks.right[1] == 4
    ensures DupLinks.parent[1] == 0 && DupLinks.left[0] == 1 && DupColours[DupLinks.right[0]] == Black
  {
  }

  /** Inserting 4 into the tree above as written: `treeInsert` hands back
      node 4, so the repair loop runs from it. It rotates left at node 1,
      paints node 4 black and node 0 red and, with the source's
      `rightRotate`, rotates right at node 0, which leaves node 1 (holding
      2) below node 4 but with node 0 as its recorded parent. The loop reads
      that parent, red, and recolours. The tree it ends with has no red
      node under a red one, but node 1's parent link is wrong, and one path
      down holds three black nodes where another holds two. */
  lemma DuplicateRepairBreaks()
    ensures Bounded(DupLinks, 6) && 0 <= 4 < |DupColours|
    ensures var kEnd := Links([-1, 3, -1, -1, 1, -1], [2, 5, -1, -1, 0, -1], [4, 0, 0, 1, -1, 1], 4);
      var colEnd := [Black, Black, Black, Black, Black, Red];
      TreeAsWritten.Repaired(DupLinks, DupColours, 4, 3) == TreeAsWritten.Done(kEnd, colEnd) &&
      RedRedFree(colEnd, kEnd.parent) && kEnd.left[4] == 1 && kEnd.parent[1] == 0 && !WellPointed(kEnd, 6) &&
      TreeAsWritten.DownPath(kEnd, 6, [4, 1, 3]) && TreeAsWritten.DownPath(kEnd, 6, [4, 0]) &&
      TreeAsWritten.Blacks(colEnd, [4, 1, 3]) == 3 && TreeAsWritten.Blacks(colEnd, [4, 0]) == 2
  {
    DuplicateRun();
    DuplicateEnd();
  }

  /** The tree the repair ends with: no red node under a red one, node 1
      recorded under node 0 while it hangs below node 4, and paths down
      with three and two black nodes. */
  lemma DuplicateEnd()
    ensures var colEnd := [Black, Black, Black, Black, Black, Red];
      RedRedFree(colEnd, DupEnd.parent) && DupEnd.left[4] == 1 && DupEnd.parent[1] == 0 && !WellPointed(DupEnd, 6) &&
      TreeAsWritten.DownPath(DupEnd, 6, [4, 1, 3]) && TreeAsWritten.DownPath(DupEnd, 6, [4, 0]) &&
      TreeAsWritten.Blacks(colEnd, [4, 1, 3]) == 3 && TreeAsWritten.Blacks(colEnd, [4, 0]) == 2
  {
    DuplicateEndLinks();
    DuplicateEndColours();
  }

  /** Node 1 hangs below node 4 but records node 0 as its parent; two paths
      lead down from the root. */
  lemma DuplicateEndLinks()
    ensures DupEnd.left[4] == 1 && DupEnd.parent[1] == 0 && !WellPointed(DupEnd, 6)
    ensures TreeAsWritten.DownPath(DupEnd, 6, [4, 1, 3]) && TreeAsWritten.DownPath(DupEnd, 6, [4, 0])
  {
    var kEnd := DupEnd;
    assert Bounded(kEnd, 6) by {
      forall i | 0 <= i < 6
        ensures -1 <= kEnd.left[i] < 6 && -1 <= kEnd.right[i] < 6 && -1 <= kEnd.parent[i] < 6
      {
        assert i == 0 || i == 1 || i == 2 || i == 3 || i == 4 || i == 5;
      }
    }
    assert !(kEnd.parent[1] != -1 ==> kEnd.left[kEnd.parent[1]] == 1 || kEnd.right[kEnd.parent[1]] == 1);
    assert TreeAsWritten.DownPath(kEnd, 6, [4, 1, 3]) by {
      var path := [4, 1, 3];
      forall j | 0 <= j < |path| - 1 ensures path[j + 1] == kEnd.left[path[j]] || path[j + 1] == kEnd.right[path[j]] {
        assert j == 0 || j == 1;
      }
    }
  }

  /** The colours the repair ends with: no red node under a red one, and
      three black nodes on one path, two on the other. */
  lemma DuplicateEndColours()
    ensures var colEnd := [Black, Black, Black, Black, Black, Red];
      RedRedFree(colEnd, DupEnd.parent) &&
      TreeAsWritten.Blacks(colEnd, [4, 1, 3]) == 3 && TreeAsWritten.Blacks(colEnd, [4, 0]) == 2
  {
    var kEnd := DupEnd;
    var colEnd := [Black, Black, Black, Black, Black, Red];
    forall i | 0 <= i < |kEnd.parent| && i < |colEnd| && i != -1 && colEnd[i] == Red && 0 <= kEnd.parent[i] < |colEnd|
      ensures colEnd[kEnd.parent[i]] == Black
    {
      assert i == 0 || i == 1 || i == 2 || i == 3 || i == 4 || i == 5;
    }
    assert TreeAsWritten.Blacks(colEnd, [4, 1, 3]) == 3 by {
      assert [4, 1, 3][..2] == [4, 1] && [4, 1][..1] == [4] && [4][..0] == [];
    }
    assert TreeAsWritten.Blacks(colEnd, [4, 0]) == 2 by {
      assert [4, 0][..1] == [4] && [4][..0] == [];
    }
  }

  /** The repair after inserting 4 runs its three rounds and ends. */
  lemma DuplicateRun()
    ensures Bounded(DupLinks, 6)
    ensures TreeAsWritten.Repaired(DupLinks, DupColours, 4, 3) == TreeAsWritten.Done(DupEnd, [Black, Black, Black, Black, Black, Red])
  {
    DuplicateRounds();
    var col2, col3 := [Red, Red, Black, Black, Black, Red], [Black, Black, Black, Black, Red, Red];
    assert TreeAsWritten.Repaired(DupEnd, col3, 4, 1) == TreeAsWritten.Done(DupEnd, [Black, Black, Black, Black, Black, Red]);
    assert TreeAsWritten.Repaired(DupEnd, col2, 1, 2) == TreeAsWritten.Done(DupEnd, [Black, Black, Black, Black, Black, Red]);
  }

  /** The tree the insertion of 4 above ends with. */
  const DupEnd: Links := Links([-1, 3, -1, -1, 1, -1], [2, 5, -1, -1, 0, -1], [4, 0, 0, 1, -1, 1], 4)

  /** The three rounds of the repair loop in the insertion of 4 above. */
  lemma DuplicateRounds()
    ensures Bounded(DupLinks, 6) && Bounded(DupEnd, 6)
    ensures TreeAsWritten.RoundFrom(DupLinks, DupColours, 4) == TreeAsWritten.Again(DupEnd, [Red, Red, Black, Black, Black, Red], 1)
    ensures TreeAsWritten.RoundFrom(DupEnd, [Red, Red, Black, Black, Black, Red], 1) == TreeAsWritten.Again(DupEnd, [Black, Black, Black, Black, Red, Red], 4)
    ensures TreeAsWritten.RoundFrom(DupEnd, [Black, Black, Black, Black, Red, Red], 4) == TreeAsWritten.Over(DupEnd, [Black, Black, Black, Black, Red, Red])
  {
    DuplicateFirstRound();
    assert DupEnd.parent[1] == 0 && DupEnd.parent[0] == 4 && DupEnd.left[4] == 1;
  }

  /** Case 2 and case 3 on the left, the second with the source's
      `rightRotate`. */
  lemma DuplicateFirstRound()
    ensures Bounded(DupLinks, 6) && Bounded(DupEnd, 6)
    ensures TreeAsWritten.RoundFrom(DupLinks, DupColours, 4) == TreeAsWritten.Again(DupEnd, [Red, Red, Black, Black, Black, Red], 1)
  {
    DuplicateRotations();
  }

  /** The two rotations of the first round, link by link. */
  lemma DuplicateRotations()
    ensures Bounded(DupLinks, 6) && LeftRotated(DupLinks, 1) == Links([4, 3, -1, -1, 1, -1], [2, 5, -1, -1, -1, -1], [-1, 4, 0, 1, 0, 1], 0)
    ensures Bounded(Links([4, 3, -1, -1, 1, -1], [2, 5, -1, -1, -1, -1], [-1, 4, 0, 1, 0, 1], 0), 6)
    ensures RightRotatedAsWritten(Links([4, 3, -1, -1, 1, -1], [2, 5, -1, -1, -1, -1], [-1, 4, 0, 1, 0, 1], 0), 0) == DupEnd
  {
    DuplicateSound();
    var k1 := LeftRotated(DupLinks, 1);
    assert k1.left == [4, 3, -1, -1, 1, -1];
    assert k1.right == [2, 5, -1, -1, -1, -1];
    assert k1.parent == [-1, 4, 0, 1, 0, 1];
    var k2 := RightRotatedAsWritten(k1, 0);
    assert k2.left == DupEnd.left;
    assert k2.right == DupEnd.right;
    assert k2.parent == DupEnd.parent;
  }

  /** Inserting 3, 2 and 1 into an empty tree as written. The first two
      need no repair. After 1 hangs red below the red node of 2, case 3
      rotates right at the node of 3 with the source's `rightRotate`,
      which records the node of 3 as the parent of the node of 1. The loop
      reads that parent, red, and recolours: the tree ends as 2 over 1 and
      3, all black, with the node of 1 still pointing at the node of 3.
      `toArray()` follows the child links and lists 1, 2, 3; the generator
      climbs the parent links and hands out 1 alone. */
  lemma ThreeTwoOneAsWritten()
    ensures var k0 := Links([-1], [-1], [-1], 0);
      TreeAsWritten.Repaired(k0, [Red], 0, 1) == TreeAsWritten.Done(k0, [Black])
    ensures var k0, k1 := Links([-1], [-1], [-1], 0), Attach(Links([-1], [-1], [-1], 0), 0, false);
      Bounded(k1, 2) && 2 < 3 && TreeAsWritten.Repaired(k1, [Black, Red], 1, 1) == TreeAsWritten.Done(k1, [Black, Red]) &&
      Sound([3, 2], k1, [Black, Red], Node(0, Node(1, Leaf, Leaf), Leaf)) && RedBlackColours([Black, Red], k1)
    ensures var k2 := Attach(Attach(Links([-1], [-1], [-1], 0), 0, false), 1, false);
      var kEnd := Links([-1, 2, -1], [-1, 0, -1], [1, -1, 0], 1);
      Bounded(k2, 3) && TreeAsWritten.Repaired(k2, [Black, Red, Red], 2, 3) == TreeAsWritten.Done(kEnd, [Black, Black, Black]) &&
      kEnd.left[1] == 2 && kEnd.parent[2] == 0 && !WellPointed(kEnd, 3) &&
      Keys(Node(1, Node(2, Leaf, Leaf), Node(0, Leaf, Leaf)), [3, 2, 1]) == [1, 2, 3] &&
      TreeAsWritten.Generated([3, 2, 1], kEnd, 3) == Some([1])
  {
    ThreeTwoAsWritten();
    ThreeTwoOneRun();
    ThreeTwoOneEnd();
    ThreeTwoOneGenerated();
  }

  /** The links that insertion leaves: the node of 1 hangs below the node
      of 2 but records the node of 3 as its parent, and the child links
      still list 1, 2, 3. */
  lemma ThreeTwoOneEnd()
    ensures var kEnd := Links([-1, 2, -1], [-1, 0, -1], [1, -1, 0], 1);
      kEnd.left[1] == 2 && kEnd.parent[2] == 0 && !WellPointed(kEnd, 3) &&
      Keys(Node(1, Node(2, Leaf, Leaf), Node(0, Leaf, Leaf)), [3, 2, 1]) == [1, 2, 3]
  {
    var k3 := Links([-1, 2, -1], [-1, 0, -1], [1, -1, 0], 1);
    assert !(k3.parent[2] != -1 ==> k3.left[k3.parent[2]] == 2 || k3.right[k3.parent[2]] == 2);
    assert Ids(Node(1, Node(2, Leaf, Leaf), Node(0, Leaf, Leaf))) == [2, 1, 0];
  }

  /** Inserting 3 and then 2 as written: the repair only paints the root
      black, and the tree is a sound red-black tree. */
  lemma ThreeTwoAsWritten()
    ensures var k0 := Links([-1], [-1], [-1], 0);
      TreeAsWritten.Repaired(k0, [Red], 0, 1) == TreeAsWritten.Done(k0, [Black])
    ensures var k1 := Attach(Links([-1], [-1], [-1], 0), 0, false);
      Bounded(k1, 2) && TreeAsWritten.Repaired(k1, [Black, Red], 1, 1) == TreeAsWritten.Done(k1, [Black, Red]) &&
      Sound([3, 2], k1, [Black, Red], Node(0, Node(1, Leaf, Leaf), Leaf)) && RedBlackColours([Black, Red], k1)
  {
    var k1 := Attach(Links([-1], [-1], [-1], 0), 0, false);
    assert k1 == Links([1, -1], [-1, -1], [-1, 0], 0);
    var t1 := Node(0, Node(1, Leaf, Leaf), Leaf);
    assert Ids(t1) == [1, 0];
    assert Linked(t1, -1, k1);
    assert Keys(t1, [3, 2]) == [2, 3];
  }

  /** The repair after inserting 1 runs its two rounds and ends. */
  lemma ThreeTwoOneRun()
    ensures var k2 := Attach(Attach(Links([-1], [-1], [-1], 0), 0, false), 1, false);
      Bounded(k2, 3) &&
      TreeAsWritten.Repaired(k2, [Black, Red, Red], 2, 3) == TreeAsWritten.Done(Links([-1, 2, -1], [-1, 0, -1], [1, -1, 0], 1), [Black, Black, Black])
  {
    ThreeTwoOneRounds();
    var k3 := Links([-1, 2, -1], [-1, 0, -1], [1, -1, 0], 1);
    assert TreeAsWritten.Repaired(k3, [Black, Red, Black], 1, 1) == TreeAsWritten.Done(k3, [Black, Black, Black]);
  }

  /** The two rounds of the repair loop when 1 goes in: case 3 on the left
      with the source's `rightRotate`, then case 1 on the right, reading
      the parent link that rotation got wrong. */
  lemma ThreeTwoOneRounds()
    ensures var k2, k3 := Attach(Attach(Links([-1], [-1], [-1], 0), 0, false), 1, false), Links([-1, 2, -1], [-1, 0, -1], [1, -1, 0], 1);
      Bounded(k2, 3) && Bounded(k3, 3) &&
      TreeAsWritten.RoundFrom(k2, [Black, Red, Red], 2) == TreeAsWritten.Again(k3, [Red, Black, Red], 2) &&
      TreeAsWritten.RoundFrom(k3, [Red, Black, Red], 2) == TreeAsWritten.Again(k3, [Black, Red, Black], 1)
  {
    ThreeTwoOneRotation();
  }

  /** The tree after 3, 2 and 1 go in, before the repair, and the
      source's `rightRotate` at its root. */
  lemma ThreeTwoOneRotation()
    ensures Attach(Attach(Links([-1], [-1], [-1], 0), 0, false), 1, false) == Links([1, 2, -1], [-1, -1, -1], [-1, 0, 1], 0)
    ensures Bounded(Links([1, 2, -1], [-1, -1, -1], [-1, 0, 1], 0), 3)
    ensures RightRotatedAsWritten(Links([1, 2, -1], [-1, -1, -1], [-1, 0, 1], 0), 0) == Links([-1, 2, -1], [-1, 0, -1], [1, -1, 0], 1)
  {
    var k1 := Attach(Links([-1], [-1], [-1], 0), 0, false);
    assert k1 == Links([1, -1], [-1, -1], [-1, 0], 0);
    var k2 := Links([1, 2, -1], [-1, -1, -1], [-1, 0, 1], 0);
    var k3 := RightRotatedAsWritten(k2, 0);
    assert k3.left == [-1, 2, -1] && k3.right == [-1, 0, -1] && k3.parent == [1, -1, 0];
  }

  /** On the links that insertion leaves, the generator starts at the node
      of 1, climbs past the root and stops. */
  lemma ThreeTwoOneGenerated()
    ensures var k3 := Links([-1, 2, -1], [-1, 0, -1], [1, -1, 0], 1);
      Bounded(k3, 3) && TreeAsWritten.Generated([3, 2, 1], k3, 3) == Some([1])
  {
    var k3 := Links([-1, 2, -1], [-1, 0, -1], [1, -1, 0], 1);
    assert TreeAsWritten.LeftmostFrom(k3, 1, 3) == Some(2);
    assert TreeAsWritten.NextFrom(k3, 2, 3) == Some(-1);
    assert TreeAsWritten.YieldsFrom([3, 2, 1], k3, -1, 2) == Some([]);
    assert [3, 2, 1][2] == 1 && [1] + [] == [1];
    assert TreeAsWritten.YieldsFrom([3, 2, 1], k3, 2, 3) == Some([1]);
  }

  class Tree {
    var key: seq<int>
    var left: seq<int>
    var right: seq<int>
    var parent: seq<int>
    var color: seq<Color>
    var root: int
    var size: int
    ghost var shape: Shape

    function Fields(): Links
      reads this
    {
      Links(left, right, parent, root)
    }

    /** The nodes form one binary search tree laid out as `shape`, and
        `size` counts them. */
    ghost predicate Valid()
      reads this
    {
      Sound(key, Fields(), color, shape) && size == |key|
    }

    /** The data in the tree, in order. */
    ghost function Contents(): seq<int>
      reads this
    {
      Keys(shape, key)
    }

    ghost predicate RedBlack()
      reads this
    {
      RedBlackColours(color, Fields())
    }

    constructor()
      ensures Valid() && RedBlack() && Contents() == [] && size == 0
    {
      key, left, right, parent, color := [], [], [], [], [];
      root, size := -1, 0;
      shape := Leaf;
    }

    /** The data in the tree, as a set. */
    ghost function Elements(): set<int>
      reads this
    {
      Values(Keys(shape, key))
    }

    /** Replaces the tree's fields by the given ones. */
    method Store(key': seq<int>, k': Links, col': seq<Color>, size': int, ghost t': Shape)
      modifies this
      ensures key == key' && Fields() == k' && color == col' && size == size' && shape == t'
    {
      key, left, right, parent, root, color, size, shape := key', k'.left, k'.right, k'.parent, k'.root, col', size', t';
    }

    /** `treeInsert(data)`: hangs `x` in a new red leaf, or, when `x` is
        already present, leaves the tree as it is and returns its node. */
    method TreeInsert(x: int) returns (node: int)
      requires Valid()
      modifies this
      ensures Valid() && 0 <= node < |key| && key[node] == x
      ensures x in old(Contents()) ==>
        key == old(key) && Fields() == old(Fields()) && color == old(color) && shape == old(shape)
      ensures x !in old(Contents()) ==>
        node == old(|key|) && key == old(key) + [x] && color == old(color) + [Red] && size == old(size) + 1
      ensures multiset(Contents()) ==
        if x in old(Contents()) then old(multiset(Contents())) else old(multiset(Contents())) + multiset{x}
      ensures old(RedRedFree(color, parent)) ==> RedRedFreeExcept(color, parent, node)
    {
      var key', k', col', size', node', t' := TreeInsertInto(key, Fields(), color, size, shape, x);
      Store(key', k', col', size', t');
      node := node';
    }

    /** `insert(data)`, with the repair skipped when `data` was already in
        the tree: the tree stays a red-black tree and gains `x`. */
    method Insert(x: int)
      requires Valid() && RedBlack()
      modifies this
      ensures Valid() && RedBlack()
      ensures multiset(Contents()) ==
        if x in old(Contents()) then old(multiset(Contents())) else old(multiset(Contents())) + multiset{x}
      ensures Elements() == old(Elements()) + {x}
    {
      var key', k', col', size', t' := InsertInto(key, Fields(), color, size, shape, x);
      Store(key', k', col', size', t');
    }

    /** `insert(items)`: inserts the values one after another; `size`
        ends up counting the distinct values. */
    method InsertAll(items: seq<int>)
      requires Valid() && RedBlack()
      modifies this
      ensures Valid() && RedBlack()
      ensures Elements() == old(Elements()) + Values(items)
      ensures size == |Elements()|
    {
      var key', k', col', size', t' := InsertAllInto(key, Fields(), color, size, shape, items);
      DistinctCount(Keys(t', key'));
      Store(key', k', col', size', t');
    }

    /** `toArray()`: the data in order, each value once. */
    method ToArray() returns (a: seq<int>)
      requires Valid()
      ensures a == Contents() && Increasing(a) && |a| == size
    {
      a := InOrder(key, Fields(), shape);
    }

    /** `generate()`: a generator standing on the first node in order. */
    method Generate() returns (g: TreeGenerator)
      requires Valid()
      ensures fresh(g) && g.Valid() && g.Remaining() == Contents()
    {
      g := new TreeGenerator(key, Fields(), shape);
    }

    /** `insert(data)` as written, its repair loop given at most `fuel`
        rounds: the repair also runs from a node that already held `x`,
        and rotates right with the source's `rightRotate`. When the repair
        ends, the tree holds its result, which need not be valid any more;
        when the program would trap, or the rounds run out, the tree is
        left as it was. */
    method InsertAsWritten(x: int, fuel: nat) returns (run: TreeAsWritten.Run)
      requires Valid()
      modifies this
      ensures run.Done? ==>
        key == (if x in old(Contents()) then old(key) else old(key) + [x]) && size == |key| &&
        Fields() == run.k && color == run.col && Bounded(Fields(), |key|) && |color| == |key| && 0 <= root < |color| && color[root] == Black
      ensures !run.Done? ==> unchanged(this)
      ensures x in old(Contents()) ==>
        Bounded(old(Fields()), |old(color)|) &&
        exists node | 0 <= node < |old(color)| && old(key)[node] == x :: run == TreeAsWritten.Repaired(old(Fields()), old(color), node, fuel)
    {
      var key', size', k1, col1, node, r := InsertAsWrittenInto(key, Fields(), color, size, shape, x, fuel);
      run := r;
      if run.Done? {
        Store(key', run.k, run.col, size', shape);
      }
    }

    /** `leftRotate(x)`: the right child of `x` takes its place. */
    method LeftRotate(x: int)
      requires Bounded(Fields(), |left|) && 0 <= x < |left| && right[x] != -1
      modifies this
      ensures Fields() == LeftRotated(old(Fields()), x) && shape == RotateLeftAt(old(shape), x)
      ensures key == old(key) && color == old(color) && size == old(size)
    {
      shape := RotateLeftAt(shape, x);
      var savedParent := parent[x];
      var newNode := right[x];
      right := right[x := left[newNode]];
      if right[x] != -1 {
        parent := parent[right[x] := x];
      }
      left := left[newNode := x];
      parent := parent[x := newNode];
      parent := parent[newNode := savedParent];
      if savedParent == -1 {
        root := newNode;
        return;
      }
      if x == left[savedParent] {
        left := left[savedParent := newNode];
      } else {
        right := right[savedParent := newNode];
      }
    }

    /** `rightRotate(x)`, with the moved subtree re-parented to `x`: the
        left child of `x` takes its place. */
    method RightRotate(x: int)
      requires Bounded(Fields(), |left|) && 0 <= x < |left| && left[x] != -1
      modifies this
      ensures Fields() == RightRotated(old(Fields()), x) && shape == RotateRightAt(old(shape), x)
      ensures key == old(key) && color == old(color) && size == old(size)
    {
      shape := RotateRightAt(shape, x);
      var savedParent := parent[x];
      var newNode := left[x];
      left := left[x := right[newNode]];
      if left[x] != -1 {
        parent := parent[left[x] := x];
      }
      right := right[newNode := x];
      parent := parent[x := newNode];
      parent := parent[newNode := savedParent];
      if savedParent == -1 {
        root := newNode;
        return;
      }
      if x == left[savedParent] {
        left := left[savedParent := newNode];
      } else {
        right := right[savedParent := newNode];
      }
    }

    /** `rightRotate(x)` as written: it re-parents the left child of the
        node moving up instead of the subtree handed to `x`. */
    method RightRotateAsWritten(x: int)
      requires Bounded(Fields(), |left|) && 0 <= x < |left| && left[x] != -1
      modifies this
      ensures Fields() == RightRotatedAsWritten(old(Fields()), x)
      ensures key == old(key) && color == old(color) && size == old(size) && shape == old(shape)
    {
      var savedParent := parent[x];
      var newNode := left[x];
      left := left[x := right[newNode]];
      if left[newNode] != -1 {
        parent := parent[left[newNode] := x];
      }
      right := right[newNode := x];
      parent := parent[x := newNode];
      parent := parent[newNode := savedParent];
      if savedParent == -1 {
        root := newNode;
        return;
      }
      if x == left[savedParent] {
        left := left[savedParent := newNode];
      } else {
        right := right[savedParent := newNode];
      }
    }
  }

  /** `TreeGenerator`: walks the nodes of a tree in order, one `next()` at
      a time. `position` counts the values handed out so far. */
  class TreeGenerator {
    const key: seq<int>
    const links: Links
    ghost const shape: Shape
    var node: int
    ghost var position: nat

    ghost predicate Valid()
      reads this
    {
      TreeShape.Tree(shape, links, |key|) && position <= |Ids(shape)| && node == At(shape, position)
    }

    /** The values still to come. */
    ghost function Remaining(): seq<int>
      reads this
    {
      var all := Keys(shape, key);
      if position <= |all| then all[position..] else []
    }

    /** `init(root)`: stands on the leftmost node, or on `nil` for the
        empty tree. */
    constructor(key: seq<int>, links: Links, ghost shape: Shape)
      requires TreeShape.Tree(shape, links, |key|)
      ensures Valid() && position == 0 && Remaining() == Keys(shape, key)
      ensures this.key == key && this.links == links && this.shape == shape
    {
      this.key, this.links, this.shape := key, links, shape;
      position := 0;
      new;
      node := First(links, shape);
    }

    /** `next()`: the next value in order, or `None` once every value has
        been handed out. */
    method Next() returns (r: Option<int>)
      requires Valid()
      modifies this
      ensures Valid()
      ensures old(Remaining()) == [] ==> r == None && Remaining() == []
      ensures old(Remaining()) != [] ==> r == Some(old(Remaining())[0]) && Remaining() == old(Remaining())[1..]
    {
      var node';
      node', r := TreeTraversal.Next(key, links, shape, node, position);
      node := node';
      if r.Some? {
        position := position + 1;
      }
    }
  }
}
