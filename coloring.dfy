// The colour rules the insertion of Tree.swift restores, and what each
// case of its repair loop does to them.

module TreeColoring {
  import opened TreeShape
  import opened TreeRotation

  /** No red node other than `c` has a red parent. */
  predicate RedRedFreeExcept(col: seq<Color>, parent: seq<int>, c: int)
  {
    forall i {:trigger parent[i]} | 0 <= i < |parent| && i < |col| && i != c && col[i] == Red && 0 <= parent[i] < |col| ::
      col[parent[i]] == Black
  }

  /** No red node has a red parent. */
  predicate RedRedFree(col: seq<Color>, parent: seq<int>)
  {
    RedRedFreeExcept(col, parent, -1)
  }

  /** A new red leaf hung below a node of a tree without red-red pairs
      is the only node that may break the rule. */
  lemma AttachFree(col: seq<Color>, k: Links, c: nat, onRight: bool)
    requires c < |col| && Bounded(k, |col|) && RedRedFree(col, k.parent)
    ensures RedRedFreeExcept(col + [Red], Attach(k, c, onRight).parent, |col|)
  {
    var col', parent' := col + [Red], Attach(k, c, onRight).parent;
    forall i | 0 <= i < |parent'| && i < |col'| && i != |col| && col'[i] == Red && 0 <= parent'[i] < |col'|
      ensures col'[parent'[i]] == Black
    {
      assert col'[i] == col[i] && parent'[i] == k.parent[i];
    }
  }

  /** Case 1: parent and uncle are red. They turn black and the
      grandparent red; only the grandparent may now break the rule. */
  lemma Recolour(k: Links, n: nat, col: seq<Color>, c: nat, u: int)
    requires Bounded(k, n) && Parented(k, n) && |col| == n && c < n
    requires k.parent[c] != -1 && k.parent[k.parent[c]] != -1
    requires var p := k.parent[c]; var g := k.parent[p];
      col[p] == Red && (u == k.left[g] || u == k.right[g]) && u != p && u != -1 && col[u] == Red &&
      p != g && u != g
    ensures var p := k.parent[c]; var g := k.parent[p];
      RedRedFreeExcept(col, k.parent, c) ==> RedRedFreeExcept(col[p := Black][u := Black][g := Red], k.parent, g)
  {
    if RedRedFreeExcept(col, k.parent, c) {
      RecolourColours(k, n, col, c, u);
    }
  }

  lemma RecolourColours(k: Links, n: nat, col: seq<Color>, c: nat, u: int)
    requires Bounded(k, n) && Parented(k, n) && |col| == n && c < n && RedRedFreeExcept(col, k.parent, c)
    requires k.parent[c] != -1 && k.parent[k.parent[c]] != -1
    requires var p := k.parent[c]; var g := k.parent[p];
      col[p] == Red && (u == k.left[g] || u == k.right[g]) && u != p && u != -1 && col[u] == Red &&
      p != g && u != g
    ensures var p := k.parent[c]; var g := k.parent[p];
      RedRedFreeExcept(col[p := Black][u := Black][g := Red], k.parent, g)
  {
    var p := k.parent[c];
    var g := k.parent[p];
    var col' := col[p := Black][u := Black][g := Red];
    forall i | 0 <= i < n && i != g && col'[i] == Red && 0 <= k.parent[i] < n
      ensures col'[k.parent[i]] == Black
    {
      var q := k.parent[i];
      assert i != p && i != u && col[i] == Red;
      if q != p && q != u && q != g && i != c {
        assert col[q] == Black;
      }
    }
  }

  /** Case 2: rotating left at the parent makes the parent the
      node to repair, now the left child of the old node, which sits
      below the grandparent. */
  lemma ZigLeft(k: Links, n: nat, col: seq<Color>, c: nat)
    requires Bounded(k, n) && Parented(k, n) && |col| == n && c < n
    requires k.parent[c] != -1 && k.parent[k.parent[c]] != -1
    requires var p := k.parent[c]; var g := k.parent[p];
      col[p] == Red && k.right[p] == c && k.left[g] == p
    requires var p := k.parent[c];
      Apart4(p, c, k.left[c], k.parent[p]) && (k.left[c] != -1 ==> k.parent[k.left[c]] == c)
    ensures var p := k.parent[c]; var g := k.parent[p]; var k' := LeftRotated(k, p);
      (RedRedFreeExcept(col, k.parent, c) && col[c] == Red ==> RedRedFreeExcept(col, k'.parent, p)) &&
      k'.parent[p] == c && k'.left[c] == p &&
      k'.parent[c] == g && k'.left[g] == c && k'.right[g] == k.right[g]
  {
    var p := k.parent[c];
    var g := k.parent[p];
    var b := k.left[c];
    var k' := LeftRotated(k, p);
    LeftRotatedFields(k, p);
    if RedRedFreeExcept(col, k.parent, c) && col[c] == Red {
      assert col[g] == Black;
      assert b == -1 || col[b] == Black;
      forall i | 0 <= i < n && i != p && col[i] == Red && 0 <= k'.parent[i] < n
        ensures col[k'.parent[i]] == Black
      {
        if i != c && i != b {
          assert k'.parent[i] == k.parent[i];
        }
      }
    }
  }

  /** Case 2, mirrored: rotating right at the parent makes the parent the
      node to repair, now the right child of the old node, which sits
      below the grandparent. */
  lemma ZigRight(k: Links, n: nat, col: seq<Color>, c: nat)
    requires Bounded(k, n) && Parented(k, n) && |col| == n && c < n
    requires k.parent[c] != -1 && k.parent[k.parent[c]] != -1
    requires var p := k.parent[c]; var g := k.parent[p];
      col[p] == Red && k.left[p] == c && k.right[g] == p
    requires var p := k.parent[c];
      Apart4(p, c, k.right[c], k.parent[p]) && (k.right[c] != -1 ==> k.parent[k.right[c]] == c)
    ensures var p := k.parent[c]; var g := k.parent[p]; var k' := RightRotated(k, p);
      (RedRedFreeExcept(col, k.parent, c) && col[c] == Red ==> RedRedFreeExcept(col, k'.parent, p)) &&
      k'.parent[p] == c && k'.right[c] == p &&
      k'.parent[c] == g && k'.right[g] == c && k'.left[g] == k.left[g]
  {
    var p := k.parent[c];
    var g := k.parent[p];
    var b := k.right[c];
    var k' := RightRotated(k, p);
    RightRotatedFields(k, p);
    if RedRedFreeExcept(col, k.parent, c) && col[c] == Red {
      assert col[g] == Black;
      assert b == -1 || col[b] == Black;
      forall i | 0 <= i < n && i != p && col[i] == Red && 0 <= k'.parent[i] < n
        ensures col[k'.parent[i]] == Black
      {
        if i != c && i != b {
          assert k'.parent[i] == k.parent[i];
        }
      }
    }
  }

  /** Case 3: parent and node both left children, uncle black
      or `nil`. The parent turns black, the grandparent red, and rotating
      right at the grandparent leaves no red node with a red parent. */
  lemma ZagLeft(k: Links, n: nat, col: seq<Color>, c: nat)
    requires Bounded(k, n) && Parented(k, n) && |col| == n && c < n
    requires k.parent[c] != -1 && k.parent[k.parent[c]] != -1
    requires var p := k.parent[c]; var g := k.parent[p];
      k.left[p] == c && k.left[g] == p && (k.right[g] == -1 || col[k.right[g]] == Black)
    requires var p := k.parent[c]; var g := k.parent[p];
      Apart4(g, p, k.right[p], k.parent[g]) && (k.right[p] != -1 ==> k.parent[k.right[p]] == p)
    ensures var p := k.parent[c]; var g := k.parent[p]; var k' := RightRotated(k, g);
      (RedRedFreeExcept(col, k.parent, c) && col[p] == Red ==> RedRedFree(col[p := Black][g := Red], k'.parent)) &&
      k'.parent[c] == p
  {
    var p := k.parent[c];
    RightRotatedFields(k, k.parent[p]);
    if RedRedFreeExcept(col, k.parent, c) && col[p] == Red {
      ZagLeftColours(k, n, col, c);
    }
  }

  lemma ZagLeftColours(k: Links, n: nat, col: seq<Color>, c: nat)
    requires Bounded(k, n) && Parented(k, n) && |col| == n && c < n && RedRedFreeExcept(col, k.parent, c)
    requires k.parent[c] != -1 && k.parent[k.parent[c]] != -1
    requires var p := k.parent[c]; var g := k.parent[p];
      col[p] == Red && k.left[p] == c && k.left[g] == p && (k.right[g] == -1 || col[k.right[g]] == Black)
    requires var p := k.parent[c]; var g := k.parent[p];
      Apart4(g, p, k.right[p], k.parent[g]) && (k.right[p] != -1 ==> k.parent[k.right[p]] == p)
    ensures var p := k.parent[c]; var g := k.parent[p]; var k' := RightRotated(k, g);
      RedRedFree(col[p := Black][g := Red], k'.parent)
  {
    var p := k.parent[c];
    var g := k.parent[p];
    var b := k.right[p];
    var col' := col[p := Black][g := Red];
    var k' := RightRotated(k, g);
    RightRotatedFields(k, g);
    assert b == -1 || col[b] == Black;
    forall i | 0 <= i < n && col'[i] == Red && 0 <= k'.parent[i] < n
      ensures col'[k'.parent[i]] == Black
    {
      if i != g && i != b && i != p {
        assert k'.parent[i] == k.parent[i] && col[i] == Red;
      }
    }
  }

  /** Case 3, mirrored: parent and node both right children, uncle black
      or `nil`. The parent turns black, the grandparent red, and rotating
      left at the grandparent leaves no red node with a red parent. */
  lemma ZagRight(k: Links, n: nat, col: seq<Color>, c: nat)
    requires Bounded(k, n) && Parented(k, n) && |col| == n && c < n
    requires k.parent[c] != -1 && k.parent[k.parent[c]] != -1
    requires var p := k.parent[c]; var g := k.parent[p];
      k.right[p] == c && k.right[g] == p && (k.left[g] == -1 || col[k.left[g]] == Black)
    requires var p := k.parent[c]; var g := k.parent[p];
      Apart4(g, p, k.left[p], k.parent[g]) && (k.left[p] != -1 ==> k.parent[k.left[p]] == p)
    ensures var p := k.parent[c]; var g := k.parent[p]; var k' := LeftRotated(k, g);
      (RedRedFreeExcept(col, k.parent, c) && col[p] == Red ==> RedRedFree(col[p := Black][g := Red], k'.parent)) &&
      k'.parent[c] == p
  {
    var p := k.parent[c];
    LeftRotatedFields(k, k.parent[p]);
    if RedRedFreeExcept(col, k.parent, c) && col[p] == Red {
      ZagRightColours(k, n, col, c);
    }
  }

  lemma ZagRightColours(k: Links, n: nat, col: seq<Color>, c: nat)
    requires Bounded(k, n) && Parented(k, n) && |col| == n && c < n && RedRedFreeExcept(col, k.parent, c)
    requires k.parent[c] != -1 && k.parent[k.parent[c]] != -1
    requires var p := k.parent[c]; var g := k.parent[p];
      col[p] == Red && k.right[p] == c && k.right[g] == p && (k.left[g] == -1 || col[k.left[g]] == Black)
    requires var p := k.parent[c]; var g := k.parent[p];
      Apart4(g, p, k.left[p], k.parent[g]) && (k.left[p] != -1 ==> k.parent[k.left[p]] == p)
    ensures var p := k.parent[c]; var g := k.parent[p]; var k' := LeftRotated(k, g);
      RedRedFree(col[p := Black][g := Red], k'.parent)
  {
    var p := k.parent[c];
    var g := k.parent[p];
    var b := k.left[p];
    var col' := col[p := Black][g := Red];
    var k' := LeftRotated(k, g);
    LeftRotatedFields(k, g);
    assert b == -1 || col[b] == Black;
    forall i | 0 <= i < n && col'[i] == Red && 0 <= k'.parent[i] < n
      ensures col'[k'.parent[i]] == Black
    {
      if i != g && i != b && i != p {
        assert k'.parent[i] == k.parent[i] && col[i] == Red;
      }
    }
  }

  /** When the loop stops, blackening the root leaves no red node with a
      red parent. */
  lemma Settle(k: Links, n: nat, col: seq<Color>, c: nat)
    requires Bounded(k, n) && |col| == n && c < n && RedRedFreeExcept(col, k.parent, c) && 0 <= k.root
    requires k.parent[c] == -1 <==> c == k.root
    requires c == k.root || col[k.parent[c]] == Black || k.parent[k.parent[c]] == -1
    requires k.parent[c] != -1 && k.parent[k.parent[c]] == -1 ==> k.parent[c] == k.root
    ensures RedRedFree(col[k.root := Black], k.parent)
  {
    var col' := col[k.root := Black];
    forall i | 0 <= i < n && col'[i] == Red && 0 <= k.parent[i] < n
      ensures col'[k.parent[i]] == Black
    {
      if i != c {
        assert col[i] == Red;
      }
    }
  }

  /** What hanging the new node below `c` does to the tree, its data and
      its colours: `t'` is the shape that results. */
  lemma GrowFacts(t: Shape, k: Links, key: seq<int>, col: seq<Color>, x: int, c: nat) returns (t': Shape)
    requires Tree(t, k, |key|) && Increasing(Keys(t, key)) && |col| == |key| && c < |key| && OnPath(t, key, x, c)
    requires (x > KeyAt(key, c) && k.right[c] == -1) || (x < KeyAt(key, c) && k.left[c] == -1)
    ensures var k', key' := Attach(k, c, x > KeyAt(key, c)), key + [x];
      x !in Keys(t, key) && Tree(t', k', |key'|) && Increasing(Keys(t', key')) &&
      multiset(Keys(t', key')) == multiset(Keys(t, key)) + multiset{x} && k'.parent[|key|] == c &&
      (RedRedFree(col, k.parent) ==> RedRedFreeExcept(col + [Red], k'.parent, |key|))
  {
    InsertTree(t, k, key, x, c);
    TreeBounded(t, k, |key|);
    if RedRedFree(col, k.parent) {
      AttachFree(col, k, c, x > KeyAt(key, c));
    }
    t' := Insert(t, key, x, |key|);
  }

  /** Where the node being repaired, its parent `p` and its grandparent
      `g` sit: three different nodes, `g` two levels above the node, and
      every child's parent is the node it hangs from. */
  lemma Climb(t: Shape, k: Links, n: nat, c: nat)
    requires Tree(t, k, n) && c < n && 0 <= k.parent[c] < n && 0 <= k.parent[k.parent[c]] < n
    ensures Bounded(k, n)
    ensures var p := k.parent[c]; var g := k.parent[p];
      (k.left[p] == c || k.right[p] == c) && (k.left[g] == p || k.right[g] == p) &&
      p != g && c != g && Depth(t, g) + 2 == Depth(t, c) &&
      (k.left[g] != -1 ==> k.left[g] != g && k.parent[k.left[g]] == g) &&
      (k.right[g] != -1 ==> k.right[g] != g && k.parent[k.right[g]] == g) &&
      (k.left[c] != -1 ==> k.parent[k.left[c]] == c) && (k.right[c] != -1 ==> k.parent[k.right[c]] == c)
  {
    var p := k.parent[c];
    var g := k.parent[p];
    TreeBounded(t, k, n);
    NodeFacts(t, -1, k, c);
    NodeFacts(t, -1, k, p);
    NodeFacts(t, -1, k, g);
    ParentDepth(t, -1, k, c);
    ParentDepth(t, -1, k, p);
    if k.left[g] != -1 {
      NodeFacts(t, -1, k, k.left[g]);
    }
    if k.right[g] != -1 {
      NodeFacts(t, -1, k, k.right[g]);
    }
  }

  /** Before case 3 on the left: the nodes the right rotation at the
      grandparent touches are apart, and the parent's right child hangs
      from it. */
  lemma ZagLeftApart(t: Shape, k: Links, n: nat, c: nat)
    requires Tree(t, k, n) && Bounded(k, n) && c < n && k.parent[c] != -1 && k.parent[k.parent[c]] != -1
    requires var p := k.parent[c]; k.left[k.parent[p]] == p
    ensures var p := k.parent[c]; var g := k.parent[p];
      Apart4(g, p, k.right[p], k.parent[g]) && (k.right[p] != -1 ==> k.parent[k.right[p]] == p)
  {
    var p := k.parent[c];
    TreeBounded(t, k, n);
    RightApart(t, -1, k, k.parent[p]);
    NodeFacts(t, -1, k, p);
  }

  /** Before case 3 on the right: the nodes the left rotation at the
      grandparent touches are apart, and the parent's left child hangs
      from it. */
  lemma ZagRightApart(t: Shape, k: Links, n: nat, c: nat)
    requires Tree(t, k, n) && Bounded(k, n) && c < n && k.parent[c] != -1 && k.parent[k.parent[c]] != -1
    requires var p := k.parent[c]; k.right[k.parent[p]] == p
    ensures var p := k.parent[c]; var g := k.parent[p];
      Apart4(g, p, k.left[p], k.parent[g]) && (k.left[p] != -1 ==> k.parent[k.left[p]] == p)
  {
    var p := k.parent[c];
    TreeBounded(t, k, n);
    LeftApart(t, -1, k, k.parent[p]);
    NodeFacts(t, -1, k, p);
  }

  /** Case 2 on the left as one step on a whole tree: the node `c`, a
      right child, and its parent `p` change places by a left rotation at
      `p`; `p` is then the node to repair, the left child of `c`, which is
      the left child of the grandparent. */
  lemma ZigLeftStep(t: Shape, k: Links, n: nat, col: seq<Color>, c: nat, good: bool)
    requires Tree(t, k, n) && |col| == n && c < n && 0 <= k.parent[c] < n && 0 <= k.parent[k.parent[c]] < n
    requires var p := k.parent[c]; var g := k.parent[p];
      col[p] == Red && k.right[p] == c && k.left[g] == p
    requires good ==> RedRedFreeExcept(col, k.parent, c) && col[c] == Red
    ensures Bounded(k, n) && k.right[k.parent[c]] != -1
    ensures var p := k.parent[c]; var g := k.parent[p]; var k' := LeftRotated(k, p);
      Tree(RotateLeftAt(t, p), k', n) && Ids(RotateLeftAt(t, p)) == Ids(t) &&
      k'.left[c] == p && k'.parent[p] == c && k'.parent[c] == g && k'.left[g] == c &&
      k'.right[g] == k.right[g] && (good ==> RedRedFreeExcept(col, k'.parent, p) && col[p] == Red)
  {
    var p := k.parent[c];
    TreeBounded(t, k, n);
    Climb(t, k, n, c);
    LeftApart(t, -1, k, p);
    ZigLeft(k, n, col, c);
    RotateLeftTree(t, k, n, p);
  }

  /** Case 2 on the right, mirrored. */
  lemma ZigRightStep(t: Shape, k: Links, n: nat, col: seq<Color>, c: nat, good: bool)
    requires Tree(t, k, n) && |col| == n && c < n && 0 <= k.parent[c] < n && 0 <= k.parent[k.parent[c]] < n
    requires var p := k.parent[c]; var g := k.parent[p];
      col[p] == Red && k.left[p] == c && k.right[g] == p
    requires good ==> RedRedFreeExcept(col, k.parent, c) && col[c] == Red
    ensures Bounded(k, n) && k.left[k.parent[c]] != -1
    ensures var p := k.parent[c]; var g := k.parent[p]; var k' := RightRotated(k, p);
      Tree(RotateRightAt(t, p), k', n) && Ids(RotateRightAt(t, p)) == Ids(t) &&
      k'.right[c] == p && k'.parent[p] == c && k'.parent[c] == g && k'.right[g] == c &&
      k'.left[g] == k.left[g] && (good ==> RedRedFreeExcept(col, k'.parent, p) && col[p] == Red)
  {
    var p := k.parent[c];
    TreeBounded(t, k, n);
    Climb(t, k, n, c);
    RightApart(t, -1, k, p);
    ZigRight(k, n, col, c);
    RotateRightTree(t, k, n, p);
  }

  /** Case 3 on the left as one step on a whole tree: `c` and its parent
      `p` are left children and the uncle is black or `nil`; `p` turns
      black, the grandparent `g` red, and a right rotation at `g` puts `p`
      in its place. The repair is then over. */
  lemma ZagLeftStep(t: Shape, k: Links, n: nat, col: seq<Color>, c: nat, good: bool)
    requires Tree(t, k, n) && |col| == n && c < n && 0 <= k.parent[c] < n && 0 <= k.parent[k.parent[c]] < n
    requires var p := k.parent[c]; var g := k.parent[p];
      k.left[p] == c && k.left[g] == p && (k.right[g] == -1 || (0 <= k.right[g] < n && col[k.right[g]] == Black))
    requires good ==> RedRedFreeExcept(col, k.parent, c) && col[c] == Red && col[k.parent[c]] == Red
    ensures Bounded(k, n) && k.left[k.parent[k.parent[c]]] != -1
    ensures var p := k.parent[c]; var g := k.parent[p]; var k' := RightRotated(k, g);
      var col' := col[p := Black][g := Red];
      Tree(RotateRightAt(t, g), k', n) && Ids(RotateRightAt(t, g)) == Ids(t) &&
      k'.parent[c] == p && c != p && c != g && Depth(RotateRightAt(t, g), c) < n &&
      (good ==> RedRedFree(col', k'.parent))
  {
    var p := k.parent[c];
    var g := k.parent[p];
    TreeBounded(t, k, n);
    Climb(t, k, n, c);
    ZagLeftApart(t, k, n, c);
    ZagLeft(k, n, col, c);
    RotateRightTree(t, k, n, g);
    var t' := RotateRightAt(t, g);
    TreeBounded(t', RightRotated(k, g), n);
    ParentDepth(t', -1, RightRotated(k, g), c);
  }

  /** Case 3 on the right, mirrored. */
  lemma ZagRightStep(t: Shape, k: Links, n: nat, col: seq<Color>, c: nat, good: bool)
    requires Tree(t, k, n) && |col| == n && c < n && 0 <= k.parent[c] < n && 0 <= k.parent[k.parent[c]] < n
    requires var p := k.parent[c]; var g := k.parent[p];
      k.right[p] == c && k.right[g] == p && (k.left[g] == -1 || (0 <= k.left[g] < n && col[k.left[g]] == Black))
    requires good ==> RedRedFreeExcept(col, k.parent, c) && col[c] == Red && col[k.parent[c]] == Red
    ensures Bounded(k, n) && k.right[k.parent[k.parent[c]]] != -1
    ensures var p := k.parent[c]; var g := k.parent[p]; var k' := LeftRotated(k, g);
      var col' := col[p := Black][g := Red];
      Tree(RotateLeftAt(t, g), k', n) && Ids(RotateLeftAt(t, g)) == Ids(t) &&
      k'.parent[c] == p && c != p && c != g && Depth(RotateLeftAt(t, g), c) < n &&
      (good ==> RedRedFree(col', k'.parent))
  {
    var p := k.parent[c];
    var g := k.parent[p];
    TreeBounded(t, k, n);
    Climb(t, k, n, c);
    ZagRightApart(t, k, n, c);
    ZagRight(k, n, col, c);
    RotateLeftTree(t, k, n, g);
    var t' := RotateLeftAt(t, g);
    TreeBounded(t', LeftRotated(k, g), n);
    ParentDepth(t', -1, LeftRotated(k, g), c);
  }

  /** Case 1 as one step on a whole tree: the parent `p` and the uncle `u`
      are red; they turn black, the grandparent `g` red, and the repair
      goes on from `g`, two levels up. */
  lemma RecolourStep(t: Shape, k: Links, n: nat, col: seq<Color>, c: nat, u: int, good: bool)
    requires Tree(t, k, n) && |col| == n && c < n && 0 <= k.parent[c] < n && 0 <= k.parent[k.parent[c]] < n
    requires var p := k.parent[c]; var g := k.parent[p];
      col[p] == Red && u == (if k.left[g] == p then k.right[g] else k.left[g]) && 0 <= u < n && col[u] == Red
    requires good ==> RedRedFreeExcept(col, k.parent, c) && col[c] == Red
    ensures var p := k.parent[c]; var g := k.parent[p];
      var col' := col[p := Black][u := Black][g := Red];
      Depth(t, g) + 2 == Depth(t, c) && (good ==> RedRedFreeExcept(col', k.parent, g))
  {
    TreeBounded(t, k, n);
    Climb(t, k, n, c);
    Recolour(k, n, col, c, u);
  }

  /** Only the root has no parent, and a parent is a node that has its
      child on one side. */
  lemma Hang(t: Shape, k: Links, n: nat, c: nat)
    requires Tree(t, k, n) && c < n
    ensures k.parent[c] == -1 <==> c == k.root
    ensures c != k.root ==> 0 <= k.parent[c] < n && (k.parent[k.parent[c]] == -1 <==> k.parent[c] == k.root)
    ensures c != k.root && k.parent[k.parent[c]] != -1 ==>
      var p := k.parent[c]; 0 <= k.parent[p] < n && (k.left[k.parent[p]] == p || k.right[k.parent[p]] == p)
  {
    TreeBounded(t, k, n);
  }
}
