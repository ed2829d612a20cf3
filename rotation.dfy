// The rotations `leftRotate` and `rightRotate` of Tree.swift, as the
// pointer updates they perform, and what they do to the tree's shape.

module TreeRotation {
  import opened TreeShape

  /** Every pointer is `nil` (-1) or a node below `n`. */
  predicate Bounded(k: Links, n: nat)
  {
    |k.left| == n && |k.right| == n && |k.parent| == n && -1 <= k.root < n &&
    forall i | 0 <= i < n :: -1 <= k.left[i] < n && -1 <= k.right[i] < n && -1 <= k.parent[i] < n
  }

  /** `leftRotate(x)`, statement by statement: `y = x.right` takes the
      place of `x`, which becomes its left child and takes over `y`'s old
      left subtree `b`. */
  function LeftRotated(k: Links, x: int): Links
    requires Bounded(k, |k.left|) && 0 <= x < |k.left| && k.right[x] != -1
  {
    var p, y := k.parent[x], k.right[x];
    var b := k.left[y];
    var right1 := k.right[x := b];
    var parent1 := if b != -1 then k.parent[b := x] else k.parent;
    var left1 := k.left[y := x];
    var parent2 := parent1[x := y][y := p];
    if p == -1 then Links(left1, right1, parent2, y)
    else if left1[p] == x then Links(left1[p := y], right1, parent2, k.root)
    else Links(left1, right1[p := y], parent2, k.root)
  }

  /** `rightRotate(x)` as it is meant: `y = x.left` takes the place of
      `x`, which takes over `y`'s old right subtree `b`, whose top gets
      `x` as its parent. */
  function RightRotated(k: Links, x: int): Links
    requires Bounded(k, |k.left|) && 0 <= x < |k.left| && k.left[x] != -1
  {
    var p, y := k.parent[x], k.left[x];
    var b := k.right[y];
    var left1 := k.left[x := b];
    var parent1 := if b != -1 then k.parent[b := x] else k.parent;
    var right1 := k.right[y := x];
    var parent2 := parent1[x := y][y := p];
    if p == -1 then Links(left1, right1, parent2, y)
    else if left1[p] == x then Links(left1[p := y], right1, parent2, k.root)
    else Links(left1, right1[p := y], parent2, k.root)
  }

  /** `rightRotate(x)` as written: the parent that is set to `x` is that of
      `y`'s LEFT child, which stays below `y`; the moved subtree keeps `y`
      as its parent. */
  function RightRotatedAsWritten(k: Links, x: int): Links
    requires Bounded(k, |k.left|) && 0 <= x < |k.left| && k.left[x] != -1
  {
    var p, y := k.parent[x], k.left[x];
    var left1 := k.left[x := k.right[y]];
    var a := left1[y];
    var parent1 := if a != -1 then k.parent[a := x] else k.parent;
    var right1 := k.right[y := x];
    var parent2 := parent1[x := y][y := p];
    if p == -1 then Links(left1, right1, parent2, y)
    else if left1[p] == x then Links(left1[p := y], right1, parent2, k.root)
    else Links(left1, right1[p := y], parent2, k.root)
  }

  /** A node's parent has it as a child, and no node has the same child
      on both sides. */
  predicate Parented(k: Links, n: nat)
    requires Bounded(k, n)
  {
    (forall i | 0 <= i < n && k.parent[i] != -1 :: k.left[k.parent[i]] == i || k.right[k.parent[i]] == i) &&
    (forall i | 0 <= i < n && k.left[i] != -1 :: k.left[i] != k.right[i])
  }

  /** A whole tree's pointers stay among its nodes, it has them all,
      parents know their children, and only the root has no parent. */
  lemma TreeBounded(t: Shape, k: Links, n: nat)
    requires Tree(t, k, n)
    ensures Bounded(k, n) && Parented(k, n) && forall i | 0 <= i < n :: i in Ids(t)
    ensures forall i | 0 <= i < n :: k.parent[i] == -1 <==> i == k.root
  {
    Pointed(t, k, n);
  }

  /** The four nodes a rotation at `x` touches are different nodes. */
  predicate Apart4(x: int, y: int, b: int, p: int)
  {
    x != y && x != p && y != p && (b != -1 ==> b != x && b != y && b != p)
  }

  /** What `leftRotate(x)` leaves in each field, node by node. */
  lemma LeftRotatedFields(k: Links, x: int)
    requires Bounded(k, |k.left|) && 0 <= x < |k.left| && k.right[x] != -1
    requires Apart4(x, k.right[x], k.left[k.right[x]], k.parent[x])
    ensures var k', p, y := LeftRotated(k, x), k.parent[x], k.right[x];
      var b := k.left[y];
      |k'.left| == |k'.right| == |k'.parent| == |k.left| &&
      (forall j | 0 <= j < |k.left| ::
        k'.left[j] == if j == y then x else if j == p && k.left[p] == x then y else k.left[j]) &&
      (forall j | 0 <= j < |k.left| ::
        k'.right[j] == if j == x then b else if j == p && k.left[p] != x then y else k.right[j]) &&
      (forall j | 0 <= j < |k.left| ::
        k'.parent[j] == if j == y then p else if j == x then y else if j == b then x else k.parent[j]) &&
      k'.root == if p == -1 then y else k.root
  {
    var p := k.parent[x];
    if p == -1 {
    } else if k.left[p] == x {
    } else {
    }
  }

  /** What `rightRotate(x)` leaves in each field, node by node. */
  lemma RightRotatedFields(k: Links, x: int)
    requires Bounded(k, |k.left|) && 0 <= x < |k.left| && k.left[x] != -1
    requires Apart4(x, k.left[x], k.right[k.left[x]], k.parent[x])
    ensures var k', p, y := RightRotated(k, x), k.parent[x], k.left[x];
      var b := k.right[y];
      |k'.left| == |k'.right| == |k'.parent| == |k.left| &&
      (forall j | 0 <= j < |k.left| ::
        k'.right[j] == if j == y then x else if j == p && k.left[p] != x then y else k.right[j]) &&
      (forall j | 0 <= j < |k.left| ::
        k'.left[j] == if j == x then b else if j == p && k.left[p] == x then y else k.left[j]) &&
      (forall j | 0 <= j < |k.left| ::
        k'.parent[j] == if j == y then p else if j == x then y else if j == b then x else k.parent[j]) &&
      k'.root == if p == -1 then y else k.root
  {
    var p := k.parent[x];
    if p == -1 {
    } else if k.left[p] == x {
    } else {
    }
  }

  /** Where the nodes a left rotation at `x` touches sit in the tree. */
  lemma {:induction false} LeftApart(t: Shape, up: int, k: Links, x: int)
    requires Bounded(k, |k.left|) && 0 <= x < |k.left| && k.right[x] != -1
    requires Linked(t, up, k) && Distinct(Ids(t)) && up !in Ids(t) && x in Ids(t)
    ensures var p, y := k.parent[x], k.right[x];
      var b := k.left[y];
      Apart4(x, y, b, p) && y in Ids(t) && (b == -1 || b in Ids(t)) &&
      (x == Top(t) ==> p == up) && (x != Top(t) ==> p in Ids(t))
  {
    match t
    case Node(i, l, r) =>
      Apart(i, l, r);
      if i == x {
        match r
        case Node(y, b, c) =>
          Apart(y, b, c);
          assert y in Ids(t);
          if b.Node? {
            assert b.id in Ids(b);
            assert b.id in Ids(t);
          }
      } else if x in Ids(l) {
        LeftApart(l, i, k, x);
        assert forall j | j in Ids(l) :: j in Ids(t);
        assert i in Ids(t);
      } else {
        LeftApart(r, i, k, x);
        assert forall j | j in Ids(r) :: j in Ids(t);
        assert i in Ids(t);
      }
  }

  /** Where the nodes a right rotation at `x` touches sit in the tree. */
  lemma {:induction false} RightApart(t: Shape, up: int, k: Links, x: int)
    requires Bounded(k, |k.left|) && 0 <= x < |k.left| && k.left[x] != -1
    requires Linked(t, up, k) && Distinct(Ids(t)) && up !in Ids(t) && x in Ids(t)
    ensures var p, y := k.parent[x], k.left[x];
      var b := k.right[y];
      Apart4(x, y, b, p) && y in Ids(t) && (b == -1 || b in Ids(t)) &&
      (x == Top(t) ==> p == up) && (x != Top(t) ==> p in Ids(t))
  {
    match t
    case Node(i, l, r) =>
      Apart(i, l, r);
      if i == x {
        match l
        case Node(y, a, b) =>
          Apart(y, a, b);
          assert y in Ids(t);
          if b.Node? {
            assert b.id in Ids(b);
            assert b.id in Ids(t);
          }
      } else if x in Ids(l) {
        RightApart(l, i, k, x);
        assert forall j | j in Ids(l) :: j in Ids(t);
        assert i in Ids(t);
      } else {
        RightApart(r, i, k, x);
        assert forall j | j in Ids(r) :: j in Ids(t);
        assert i in Ids(t);
      }
  }

  /** The shape after a left rotation at `x`. */
  function RotateLeftAt(t: Shape, x: nat): Shape
  {
    match t
    case Leaf => Leaf
    case Node(i, l, r) =>
      if i == x then
        match r
        case Leaf => t
        case Node(y, b, c) => Node(y, Node(x, l, b), c)
      else Node(i, RotateLeftAt(l, x), RotateLeftAt(r, x))
  }

  /** The shape after a right rotation at `x`. */
  function RotateRightAt(t: Shape, x: nat): Shape
  {
    match t
    case Leaf => Leaf
    case Node(i, l, r) =>
      if i == x then
        match l
        case Leaf => t
        case Node(y, a, b) => Node(y, a, Node(x, b, r))
      else Node(i, RotateRightAt(l, x), RotateRightAt(r, x))
  }

  lemma {:induction false} RotateAbsent(t: Shape, x: nat)
    requires x !in Ids(t)
    ensures RotateLeftAt(t, x) == t && RotateRightAt(t, x) == t
  {
    match t
    case Leaf =>
    case Node(i, l, r) =>
      assert forall j | j in Ids(l) :: j in Ids(t);
      assert forall j | j in Ids(r) :: j in Ids(t);
      RotateAbsent(l, x);
      RotateAbsent(r, x);
  }

  /** The nodes of a linked subtree have their fields. */
  lemma Within(t: Shape, up: int, k: Links)
    requires Linked(t, up, k)
    ensures forall j | j in Ids(t) :: j < |k.left| && j < |k.right| && j < |k.parent|
  {
    forall j | j in Ids(t) ensures j < |k.left| && j < |k.right| && j < |k.parent| {
      LinkedBelow(t, up, k, j);
    }
  }

  /** The left rotation at the top of a subtree relinks it as its new shape. */
  lemma RotateLeftHere(l: Shape, y: nat, b: Shape, c: Shape, up: int, k: Links, x: nat)
    requires Bounded(k, |k.left|) && x < |k.left|
    requires Linked(Node(x, l, Node(y, b, c)), up, k) && Distinct(Ids(Node(x, l, Node(y, b, c))))
    requires up !in Ids(Node(x, l, Node(y, b, c)))
    ensures Linked(Node(y, Node(x, l, b), c), up, LeftRotated(k, x))
  {
    var t, k' := Node(x, l, Node(y, b, c)), LeftRotated(k, x);
    Apart(x, l, Node(y, b, c));
    Apart(y, b, c);
    assert x in Ids(t);
    LeftApart(t, up, k, x);
    LeftRotatedFields(k, x);
    Within(l, x, k);
    Within(b, y, k);
    Within(c, y, k);
    LinkedFrame(l, x, k, k');
    LinkedMoved(b, y, x, k, k');
    LinkedFrame(c, y, k, k');
  }

  /** The right rotation at the top of a subtree relinks it as its new shape. */
  lemma RotateRightHere(y: nat, a: Shape, b: Shape, r: Shape, up: int, k: Links, x: nat)
    requires Bounded(k, |k.left|) && x < |k.left|
    requires Linked(Node(x, Node(y, a, b), r), up, k) && Distinct(Ids(Node(x, Node(y, a, b), r)))
    requires up !in Ids(Node(x, Node(y, a, b), r))
    ensures Linked(Node(y, a, Node(x, b, r)), up, RightRotated(k, x))
  {
    var t, k' := Node(x, Node(y, a, b), r), RightRotated(k, x);
    Apart(x, Node(y, a, b), r);
    Apart(y, a, b);
    assert x in Ids(t);
    RightApart(t, up, k, x);
    RightRotatedFields(k, x);
    Within(a, y, k);
    Within(b, y, k);
    Within(r, x, k);
    LinkedFrame(a, y, k, k');
    LinkedMoved(b, y, x, k, k');
    LinkedFrame(r, x, k, k');
  }


  /** What a left rotation at `x` does to a subtree holding `x`. */
  predicate LeftRotatesTo(t: Shape, up: int, k: Links, x: nat)
    requires Bounded(k, |k.left|) && x < |k.left| && k.right[x] != -1
  {
    Ids(RotateLeftAt(t, x)) == Ids(t) &&
    Top(RotateLeftAt(t, x)) == (if x == Top(t) then k.right[x] else Top(t)) &&
    Linked(RotateLeftAt(t, x), up, LeftRotated(k, x))
  }

  lemma RotateLeftTop(t: Shape, up: int, k: Links, x: nat)
    requires Bounded(k, |k.left|) && x < |k.left| && k.right[x] != -1
    requires Linked(t, up, k) && Distinct(Ids(t)) && up !in Ids(t) && t.Node? && t.id == x
    ensures LeftRotatesTo(t, up, k, x)
  {
    var l, r := t.left, t.right;
    var t' := Node(r.id, Node(x, l, r.left), r.right);
    assert RotateLeftAt(t, x) == t';
    assert Ids(t') == Ids(t);
    RotateLeftHere(l, r.id, r.left, r.right, up, k, x);
  }

  /** A left rotation at `x` keeps the nodes in order and relinks the tree
      as the rotated shape. */
  lemma {:induction false} RotateLeftLinked(t: Shape, up: int, k: Links, x: nat)
    requires Bounded(k, |k.left|) && x < |k.left| && k.right[x] != -1
    requires Linked(t, up, k) && Distinct(Ids(t)) && up !in Ids(t) && x in Ids(t)
    ensures LeftRotatesTo(t, up, k, x)
  {
    match t
    case Node(i, l, r) =>
      Apart(i, l, r);
      if i == x {
        RotateLeftTop(t, up, k, x);
      } else if x in Ids(l) {
        RotateLeftLinked(l, i, k, x);
        RotateLeftInLeft(i, l, r, up, k, x);
      } else {
        RotateLeftLinked(r, i, k, x);
        RotateLeftInRight(i, l, r, up, k, x);
      }
  }

  lemma RotateLeftInLeft(i: nat, l: Shape, r: Shape, up: int, k: Links, x: nat)
    requires Bounded(k, |k.left|) && x < |k.left| && k.right[x] != -1
    requires Linked(Node(i, l, r), up, k) && Distinct(Ids(Node(i, l, r))) && up !in Ids(Node(i, l, r))
    requires i != x && x in Ids(l) && LeftRotatesTo(l, i, k, x)
    ensures LeftRotatesTo(Node(i, l, r), up, k, x)
  {
    var t, k' := Node(i, l, r), LeftRotated(k, x);
    Apart(i, l, r);
    assert i in Ids(t);
    LinkedBelow(t, up, k, i);
    LeftApart(l, i, k, x);
    LeftRotatedFields(k, x);
    RotateAbsent(r, x);
    Within(r, i, k);
    LinkedFrame(r, i, k, k');
  }

  lemma RotateLeftInRight(i: nat, l: Shape, r: Shape, up: int, k: Links, x: nat)
    requires Bounded(k, |k.left|) && x < |k.left| && k.right[x] != -1
    requires Linked(Node(i, l, r), up, k) && Distinct(Ids(Node(i, l, r))) && up !in Ids(Node(i, l, r))
    requires i != x && x in Ids(r) && LeftRotatesTo(r, i, k, x)
    ensures LeftRotatesTo(Node(i, l, r), up, k, x)
  {
    var t, k' := Node(i, l, r), LeftRotated(k, x);
    Apart(i, l, r);
    assert i in Ids(t);
    LinkedBelow(t, up, k, i);
    LeftApart(r, i, k, x);
    LeftRotatedFields(k, x);
    RotateAbsent(l, x);
    Within(l, i, k);
    LinkedFrame(l, i, k, k');
  }

  /** What a right rotation at `x` does to a subtree holding `x`. */
  predicate RightRotatesTo(t: Shape, up: int, k: Links, x: nat)
    requires Bounded(k, |k.left|) && x < |k.left| && k.left[x] != -1
  {
    Ids(RotateRightAt(t, x)) == Ids(t) &&
    Top(RotateRightAt(t, x)) == (if x == Top(t) then k.left[x] else Top(t)) &&
    Linked(RotateRightAt(t, x), up, RightRotated(k, x))
  }

  lemma RotateRightTop(t: Shape, up: int, k: Links, x: nat)
    requires Bounded(k, |k.left|) && x < |k.left| && k.left[x] != -1
    requires Linked(t, up, k) && Distinct(Ids(t)) && up !in Ids(t) && t.Node? && t.id == x
    ensures RightRotatesTo(t, up, k, x)
  {
    var l, r := t.left, t.right;
    var t' := Node(l.id, l.left, Node(x, l.right, r));
    assert RotateRightAt(t, x) == t';
    assert Ids(t') == Ids(t);
    RotateRightHere(l.id, l.left, l.right, r, up, k, x);
  }

  /** A right rotation at `x` keeps the nodes in order and relinks the tree
      as the rotated shape. */
  lemma {:induction false} RotateRightLinked(t: Shape, up: int, k: Links, x: nat)
    requires Bounded(k, |k.left|) && x < |k.left| && k.left[x] != -1
    requires Linked(t, up, k) && Distinct(Ids(t)) && up !in Ids(t) && x in Ids(t)
    ensures RightRotatesTo(t, up, k, x)
  {
    match t
    case Node(i, l, r) =>
      Apart(i, l, r);
      if i == x {
        RotateRightTop(t, up, k, x);
      } else if x in Ids(l) {
        RotateRightLinked(l, i, k, x);
        RotateRightInLeft(i, l, r, up, k, x);
      } else {
        RotateRightLinked(r, i, k, x);
        RotateRightInRight(i, l, r, up, k, x);
      }
  }

  lemma RotateRightInLeft(i: nat, l: Shape, r: Shape, up: int, k: Links, x: nat)
    requires Bounded(k, |k.left|) && x < |k.left| && k.left[x] != -1
    requires Linked(Node(i, l, r), up, k) && Distinct(Ids(Node(i, l, r))) && up !in Ids(Node(i, l, r))
    requires i != x && x in Ids(l) && RightRotatesTo(l, i, k, x)
    ensures RightRotatesTo(Node(i, l, r), up, k, x)
  {
    var t, k' := Node(i, l, r), RightRotated(k, x);
    Apart(i, l, r);
    assert i in Ids(t);
    LinkedBelow(t, up, k, i);
    RightApart(l, i, k, x);
    RightRotatedFields(k, x);
    RotateAbsent(r, x);
    Within(r, i, k);
    LinkedFrame(r, i, k, k');
  }

  lemma RotateRightInRight(i: nat, l: Shape, r: Shape, up: int, k: Links, x: nat)
    requires Bounded(k, |k.left|) && x < |k.left| && k.left[x] != -1
    requires Linked(Node(i, l, r), up, k) && Distinct(Ids(Node(i, l, r))) && up !in Ids(Node(i, l, r))
    requires i != x && x in Ids(r) && RightRotatesTo(r, i, k, x)
    ensures RightRotatesTo(Node(i, l, r), up, k, x)
  {
    var t, k' := Node(i, l, r), RightRotated(k, x);
    Apart(i, l, r);
    assert i in Ids(t);
    LinkedBelow(t, up, k, i);
    RightApart(r, i, k, x);
    RightRotatedFields(k, x);
    RotateAbsent(l, x);
    Within(l, i, k);
    LinkedFrame(l, i, k, k');
  }

  /** `leftRotate(x)` on a whole tree gives a whole tree, with the same
      nodes in the same order. */
  lemma RotateLeftTree(t: Shape, k: Links, n: nat, x: nat)
    requires Tree(t, k, n) && Bounded(k, n) && x < n && k.right[x] != -1
    ensures Tree(RotateLeftAt(t, x), LeftRotated(k, x), n)
    ensures Ids(RotateLeftAt(t, x)) == Ids(t)
  {
    TreeBounded(t, k, n);
    LeftApart(t, -1, k, x);
    LeftRotatedFields(k, x);
    RotateLeftLinked(t, -1, k, x);
  }

  /** `rightRotate(x)` on a whole tree gives a whole tree, with the same
      nodes in the same order. */
  lemma RotateRightTree(t: Shape, k: Links, n: nat, x: nat)
    requires Tree(t, k, n) && Bounded(k, n) && x < n && k.left[x] != -1
    ensures Tree(RotateRightAt(t, x), RightRotated(k, x), n)
    ensures Ids(RotateRightAt(t, x)) == Ids(t)
  {
    TreeBounded(t, k, n);
    RightApart(t, -1, k, x);
    RightRotatedFields(k, x);
    RotateRightLinked(t, -1, k, x);
  }

  /** Inserting 3, 2 and 1 rotates right at the node of 3 (index 0), whose
      left child holds 2 (index 1) and whose left grandchild holds 1
      (index 2). As written, the rotation makes 1 the child of 2 but
      records 3 as its parent; the intended rotation leaves a tree. */
  lemma RightRotateAsWrittenBreaks()
    ensures var t, k := Node(0, Node(1, Node(2, Leaf, Leaf), Leaf), Leaf), Links([1, 2, -1], [-1, -1, -1], [-1, 0, 1], 0);
      Tree(t, k, 3) && Increasing(Keys(t, [3, 2, 1])) && Bounded(k, 3) &&
      Tree(RotateRightAt(t, 0), RightRotated(k, 0), 3) &&
      RightRotatedAsWritten(k, 0).left[1] == 2 && RightRotatedAsWritten(k, 0).parent[2] == 0 &&
      !WellPointed(RightRotatedAsWritten(k, 0), 3)
  {
    var t, k := Node(0, Node(1, Node(2, Leaf, Leaf), Leaf), Leaf), Links([1, 2, -1], [-1, -1, -1], [-1, 0, 1], 0);
    assert Ids(t) == [2, 1, 0];
    assert Tree(t, k, 3);
    RotateRightTree(t, k, 3, 0);
  }
}
