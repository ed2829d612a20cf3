// The ghost picture behind the red-black tree of Tree.swift. Nodes live at
// indices 0..n-1; their `left`, `right` and `parent` fields and the tree's
// `root` are sequences indexed by node, with -1 for `nil`. A `Shape` says
// which node sits where, and `Linked` ties it to the pointer fields.

module TreeShape {

  datatype Color = Red | Black

  /** Where the nodes sit: a binary tree of node indices. */
  datatype Shape = Leaf | Node(id: nat, left: Shape, right: Shape)

  /** The pointer fields of every node, by index, and the tree's `root`. */
  datatype Links = Links(left: seq<int>, right: seq<int>, parent: seq<int>, root: int)

  /** The node at the top of `t`, or -1 (`nil`) for the empty tree. */
  function Top(t: Shape): int
  {
    if t.Node? then t.id else -1
  }

  /** The nodes of `t` in order. */
  function Ids(t: Shape): seq<nat>
  {
    match t
    case Leaf => []
    case Node(i, l, r) => Ids(l) + [i] + Ids(r)
  }

  predicate Distinct(s: seq<nat>)
  {
    forall a, b | 0 <= a < b < |s| :: s[a] != s[b]
  }

  /** The data of node `i`. */
  function KeyAt(key: seq<int>, i: int): int
  {
    if 0 <= i < |key| then key[i] else 0
  }

  /** The data of the nodes of `t` in order. */
  function Keys(t: Shape, key: seq<int>): (r: seq<int>)
    ensures |r| == |Ids(t)|
  {
    match t
    case Leaf => []
    case Node(i, l, r) => Keys(l, key) + [KeyAt(key, i)] + Keys(r, key)
  }

  predicate Increasing(s: seq<int>)
  {
    forall a, b | 0 <= a < b < |s| :: s[a] < s[b]
  }

  /** The pointer fields agree with `t`, whose top node has parent `up`. */
  predicate Linked(t: Shape, up: int, k: Links)
  {
    match t
    case Leaf => true
    case Node(i, l, r) =>
      i < |k.left| && i < |k.right| && i < |k.parent| &&
      k.left[i] == Top(l) && k.right[i] == Top(r) && k.parent[i] == up &&
      Linked(l, i, k) && Linked(r, i, k)
  }

  /** The whole tree: linked from `root`, every node exactly once. */
  predicate Tree(t: Shape, k: Links, n: nat)
  {
    |k.left| == n && |k.right| == n && |k.parent| == n &&
    Linked(t, -1, k) && k.root == Top(t) && Distinct(Ids(t)) && |Ids(t)| == n
  }

  /** The pointer facts the tree keeps, node by node. */
  predicate WellPointed(k: Links, n: nat)
  {
    |k.left| == n && |k.right| == n && |k.parent| == n && -1 <= k.root < n &&
    (forall i | 0 <= i < n :: -1 <= k.left[i] < n && -1 <= k.right[i] < n && -1 <= k.parent[i] < n) &&
    (forall i | 0 <= i < n && k.left[i] != -1 :: k.parent[k.left[i]] == i && k.left[i] != k.right[i]) &&
    (forall i | 0 <= i < n && k.right[i] != -1 :: k.parent[k.right[i]] == i) &&
    (forall i | 0 <= i < n && k.parent[i] != -1 ::
      (k.left[k.parent[i]] == i || k.right[k.parent[i]] == i) && k.parent[i] != i &&
      k.parent[k.parent[i]] != i) &&
    (forall i | 0 <= i < n :: k.parent[i] == -1 <==> i == k.root)
  }

  lemma Apart(i: nat, l: Shape, r: Shape)
    requires Distinct(Ids(Node(i, l, r)))
    ensures Distinct(Ids(l)) && Distinct(Ids(r)) && i !in Ids(l) && i !in Ids(r)
    ensures forall j | j in Ids(l) :: j !in Ids(r)
  {
    var s, m := Ids(Node(i, l, r)), |Ids(l)|;
    assert s == Ids(l) + [i] + Ids(r);
    assert s[m] == i;
    forall a | 0 <= a < m ensures s[a] == Ids(l)[a] {
    }
    forall b | 0 <= b < |Ids(r)| ensures s[m + 1 + b] == Ids(r)[b] {
    }
    forall a, b | 0 <= a < b < |Ids(l)| ensures Ids(l)[a] != Ids(l)[b] {
      assert s[a] == Ids(l)[a] && s[b] == Ids(l)[b];
    }
    forall a, b | 0 <= a < b < |Ids(r)| ensures Ids(r)[a] != Ids(r)[b] {
      assert s[m + 1 + a] == Ids(r)[a] && s[m + 1 + b] == Ids(r)[b];
    }
    forall a, b | 0 <= a < m && 0 <= b < |Ids(r)| ensures Ids(l)[a] != Ids(r)[b] {
      assert s[a] == Ids(l)[a] && s[m + 1 + b] == Ids(r)[b];
    }
    forall a | 0 <= a < m ensures Ids(l)[a] != i {
      assert s[a] == Ids(l)[a];
    }
    forall b | 0 <= b < |Ids(r)| ensures Ids(r)[b] != i {
      assert s[m + 1 + b] == Ids(r)[b];
    }
  }

  /** Every node of a linked tree has its fields. */
  lemma {:induction false} LinkedBelow(t: Shape, up: int, k: Links, j: int)
    requires Linked(t, up, k) && j in Ids(t)
    ensures j < |k.left| && j < |k.right| && j < |k.parent|
  {
    match t
    case Node(i, l, r) =>
      if j in Ids(l) {
        LinkedBelow(l, i, k, j);
      } else if j in Ids(r) {
        LinkedBelow(r, i, k, j);
      }
  }

  /** `Linked` reads only the fields of the nodes of `t`. */
  lemma {:induction false} LinkedFrame(t: Shape, up: int, k: Links, k': Links)
    requires Linked(t, up, k)
    requires forall j | j in Ids(t) ::
      j < |k.left| && j < |k.right| && j < |k.parent| && j < |k'.left| && j < |k'.right| && j < |k'.parent| &&
      k'.left[j] == k.left[j] && k'.right[j] == k.right[j] && k'.parent[j] == k.parent[j]
    ensures Linked(t, up, k')
  {
    match t
    case Leaf =>
    case Node(i, l, r) =>
      assert i in Ids(t);
      assert forall j | j in Ids(l) :: j in Ids(t);
      assert forall j | j in Ids(r) :: j in Ids(t);
      LinkedFrame(l, i, k, k');
      LinkedFrame(r, i, k, k');
  }

  /** The same when the top node also gets a new parent. */
  lemma LinkedMoved(t: Shape, up: int, up': int, k: Links, k': Links)
    requires Linked(t, up, k) && Distinct(Ids(t))
    requires forall j | j in Ids(t) ::
      j < |k.left| && j < |k.right| && j < |k.parent| && j < |k'.left| && j < |k'.right| && j < |k'.parent| &&
      k'.left[j] == k.left[j] && k'.right[j] == k.right[j] && (j != Top(t) ==> k'.parent[j] == k.parent[j])
    requires t.Node? ==> k'.parent[t.id] == up'
    ensures Linked(t, up', k')
  {
    match t
    case Leaf =>
    case Node(i, l, r) =>
      Apart(i, l, r);
      assert i in Ids(t);
      assert forall j | j in Ids(l) :: j in Ids(t);
      assert forall j | j in Ids(r) :: j in Ids(t);
      LinkedFrame(l, i, k, k');
      LinkedFrame(r, i, k, k');
  }

  /** What a linked tree says about one of its nodes `j`. */
  lemma {:induction false} NodeFacts(t: Shape, up: int, k: Links, j: int)
    requires Linked(t, up, k) && Distinct(Ids(t)) && j in Ids(t) && up !in Ids(t)
    ensures j < |k.left| && j < |k.right| && j < |k.parent|
    ensures k.left[j] == -1 || (k.left[j] in Ids(t) && 0 <= k.left[j] < |k.parent| &&
      k.parent[k.left[j]] == j && k.left[j] != k.right[j])
    ensures k.right[j] == -1 || (k.right[j] in Ids(t) && 0 <= k.right[j] < |k.parent| &&
      k.parent[k.right[j]] == j)
    ensures j == Top(t) ==> k.parent[j] == up
    ensures j != Top(t) ==> (k.parent[j] in Ids(t) && 0 <= k.parent[j] < |k.parent| &&
      k.parent[j] < |k.left| && k.parent[j] < |k.right| && k.parent[j] != j &&
      k.parent[k.parent[j]] != j && (k.left[k.parent[j]] == j || k.right[k.parent[j]] == j))
  {
    match t
    case Node(i, l, r) =>
      Apart(i, l, r);
      LinkedBelow(t, up, k, j);
      if j == i {
        if l.Node? {
          assert l.id in Ids(l);
          LinkedBelow(l, i, k, l.id);
        }
        if r.Node? {
          assert r.id in Ids(r);
          LinkedBelow(r, i, k, r.id);
        }
      } else if j in Ids(l) {
        NodeFacts(l, i, k, j);
        assert i in Ids(t);
      } else {
        NodeFacts(r, i, k, j);
        assert i in Ids(t);
      }
  }

  function Elements(s: seq<nat>): set<nat>
  {
    set a | a in s
  }

  lemma {:induction false} DistinctCard(s: seq<nat>)
    requires Distinct(s)
    ensures |Elements(s)| == |s|
  {
    if s != [] {
      var front, x := s[..|s| - 1], s[|s| - 1];
      assert Distinct(front) by {
        forall a, b | 0 <= a < b < |front| ensures front[a] != front[b] {
          assert front[a] == s[a] && front[b] == s[b];
        }
      }
      DistinctCard(front);
      forall a | 0 <= a < |front| ensures front[a] != x {
        assert front[a] == s[a];
      }
      var A, S := Elements(front), Elements(s);
      assert x !in A;
      forall a | a in S ensures a in A + {x} {
        var b :| 0 <= b < |s| && s[b] == a;
        if b < |front| {
          assert front[b] == a;
        }
      }
      forall a | a in A + {x} ensures a in S {
        if a in A {
          var b :| 0 <= b < |front| && front[b] == a;
          assert s[b] == a;
        } else {
          assert s[|s| - 1] == a;
        }
      }
      assert S == A + {x};
      assert A * {x} == {};
      assert |S| == |A| + 1;
    }
  }

  /** The indices below `n`. */
  function Range(n: nat): (r: seq<nat>)
    ensures |r| == n && forall i | 0 <= i < n :: r[i] == i
  {
    seq(n, i requires 0 <= i < n => i)
  }

  /** `n` distinct indices below `n` are all of them. */
  lemma Covers(s: seq<nat>, n: nat)
    requires Distinct(s) && |s| == n && forall a | 0 <= a < |s| :: s[a] < n
    ensures forall i | 0 <= i < n :: i in s
  {
    var A := Elements(s);
    var R := Range(n);
    var B := Elements(R);
    DistinctCard(s);
    DistinctCard(R);
    forall a | a in A ensures a in B {
      assert R[a] == a;
    }
    assert B == A + (B - A);
    assert |B - A| == 0;
    forall i | 0 <= i < n ensures i in s {
      assert R[i] == i;
      assert i in B;
    }
  }

  /** A whole tree keeps its pointer facts node by node. */
  lemma Pointed(t: Shape, k: Links, n: nat)
    requires Tree(t, k, n)
    ensures WellPointed(k, n)
    ensures forall i | 0 <= i < n :: i in Ids(t)
  {
    var s := Ids(t);
    forall a | 0 <= a < |s| ensures s[a] < n {
      LinkedBelow(t, -1, k, s[a]);
    }
    Covers(s, n);
    forall i | 0 <= i < n
      ensures -1 <= k.left[i] < n && -1 <= k.right[i] < n && -1 <= k.parent[i] < n
      ensures k.left[i] != -1 ==> k.parent[k.left[i]] == i && k.left[i] != k.right[i]
      ensures k.right[i] != -1 ==> k.parent[k.right[i]] == i
      ensures k.parent[i] != -1 ==>
        (k.left[k.parent[i]] == i || k.right[k.parent[i]] == i) && k.parent[i] != i && k.parent[k.parent[i]] != i
      ensures k.parent[i] == -1 <==> i == k.root
    {
      NodeFacts(t, -1, k, i);
      if k.left[i] != -1 {
        LinkedBelow(t, -1, k, k.left[i]);
      }
      if k.right[i] != -1 {
        LinkedBelow(t, -1, k, k.right[i]);
      }
      if i != Top(t) {
        LinkedBelow(t, -1, k, k.parent[i]);
      }
    }
    if t.Node? {
      assert t.id in Ids(t);
      LinkedBelow(t, -1, k, t.id);
    }
  }

  // Sequences built from the parts of a node.

  lemma DistinctJoin(a: seq<nat>, i: nat, b: seq<nat>)
    requires Distinct(a) && Distinct(b) && i !in a && i !in b
    requires forall j | j in a :: j !in b
    ensures Distinct(a + [i] + b)
  {
    var s, m := a + [i] + b, |a|;
    forall x, y | 0 <= x < y < |s| ensures s[x] != s[y] {
      if y < m {
        assert s[x] == a[x] && s[y] == a[y];
      } else if y == m {
        assert s[x] == a[x] && a[x] in a;
      } else if x < m {
        assert s[x] == a[x] && a[x] in a && s[y] == b[y - m - 1] && b[y - m - 1] in b;
      } else if x == m {
        assert s[y] == b[y - m - 1] && b[y - m - 1] in b;
      } else {
        assert s[x] == b[x - m - 1] && s[y] == b[y - m - 1];
      }
    }
  }

  lemma IncreasingJoin(a: seq<int>, v: int, b: seq<int>)
    requires Increasing(a) && Increasing(b)
    requires forall j | j in a :: j < v
    requires forall j | j in b :: v < j
    ensures Increasing(a + [v] + b)
  {
    var s, m := a + [v] + b, |a|;
    forall x, y | 0 <= x < y < |s| ensures s[x] < s[y] {
      if y < m {
        assert s[x] == a[x] && s[y] == a[y];
      } else if y == m {
        assert s[x] == a[x] && a[x] in a;
      } else if x < m {
        assert s[x] == a[x] && a[x] in a && s[y] == b[y - m - 1] && b[y - m - 1] in b;
      } else if x == m {
        assert s[y] == b[y - m - 1] && b[y - m - 1] in b;
      } else {
        assert s[x] == b[x - m - 1] && s[y] == b[y - m - 1];
      }
    }
  }

  lemma IncreasingSplit(a: seq<int>, v: int, b: seq<int>)
    requires Increasing(a + [v] + b)
    ensures Increasing(a) && Increasing(b)
    ensures forall j | j in a :: j < v
    ensures forall j | j in b :: v < j
  {
    var s, m := a + [v] + b, |a|;
    assert s[m] == v;
    forall x | 0 <= x < m ensures s[x] == a[x] {
    }
    forall y | 0 <= y < |b| ensures s[m + 1 + y] == b[y] {
    }
  }

  // Binary-search-tree insertion, as `treeInsert` walks it.

  /** The shape after inserting `x` as node `newId`: down to the right of
      larger data, to the left of smaller, nothing new when `x` is there. */
  function Insert(t: Shape, key: seq<int>, x: int, newId: nat): Shape
  {
    match t
    case Leaf => Node(newId, Leaf, Leaf)
    case Node(i, l, r) =>
      if x > KeyAt(key, i) then Node(i, l, Insert(r, key, x, newId))
      else if x < KeyAt(key, i) then Node(i, Insert(l, key, x, newId), r)
      else t
  }

  /** Node `c` is on the path the search for `x` walks down. */
  predicate OnPath(t: Shape, key: seq<int>, x: int, c: int)
  {
    match t
    case Leaf => false
    case Node(i, l, r) =>
      i == c || (x > KeyAt(key, i) && OnPath(r, key, x, c)) || (x < KeyAt(key, i) && OnPath(l, key, x, c))
  }

  lemma {:induction false} PathIn(t: Shape, key: seq<int>, x: int, c: int)
    requires OnPath(t, key, x, c)
    ensures c in Ids(t)
  {
    match t
    case Node(i, l, r) =>
      if i != c {
        if x > KeyAt(key, i) && OnPath(r, key, x, c) {
          PathIn(r, key, x, c);
        } else {
          PathIn(l, key, x, c);
        }
      }
  }

  /** The search goes on to the child on the side of `x`. */
  lemma {:induction false} PathStep(t: Shape, up: int, k: Links, key: seq<int>, x: int, c: int)
    requires Linked(t, up, k) && OnPath(t, key, x, c) && 0 <= c < |k.left| && c < |k.right|
    ensures x > KeyAt(key, c) && k.right[c] != -1 ==> OnPath(t, key, x, k.right[c])
    ensures x < KeyAt(key, c) && k.left[c] != -1 ==> OnPath(t, key, x, k.left[c])
  {
    match t
    case Node(i, l, r) =>
      if i != c {
        if x > KeyAt(key, i) && OnPath(r, key, x, c) {
          PathStep(r, i, k, key, x, c);
        } else {
          PathStep(l, i, k, key, x, c);
        }
      }
  }

  /** Finding `x` at `c` leaves the shape as it is. */
  lemma {:induction false} PathFound(t: Shape, key: seq<int>, x: int, c: int, newId: nat)
    requires OnPath(t, key, x, c) && KeyAt(key, c) == x
    ensures Insert(t, key, x, newId) == t && x in Keys(t, key)
  {
    match t
    case Node(i, l, r) =>
      if i != c {
        if x > KeyAt(key, i) && OnPath(r, key, x, c) {
          PathFound(r, key, x, c, newId);
        } else {
          PathFound(l, key, x, c, newId);
        }
      }
  }

  /** Reaching an empty child on the side of `x` means `x` is not in the tree. */
  lemma {:induction false} PathMissing(t: Shape, up: int, k: Links, key: seq<int>, x: int, c: int)
    requires Linked(t, up, k) && OnPath(t, key, x, c) && Increasing(Keys(t, key))
    requires 0 <= c < |k.left| && c < |k.right|
    requires (x > KeyAt(key, c) && k.right[c] == -1) || (x < KeyAt(key, c) && k.left[c] == -1)
    ensures x !in Keys(t, key)
  {
    match t
    case Node(i, l, r) =>
      IncreasingSplit(Keys(l, key), KeyAt(key, i), Keys(r, key));
      if i != c {
        if x > KeyAt(key, i) && OnPath(r, key, x, c) {
          PathMissing(r, i, k, key, x, c);
        } else {
          PathMissing(l, i, k, key, x, c);
        }
      }
  }

  /** The fields after `treeInsert` hangs the new node `|k.left|` below `c`. */
  function Attach(k: Links, c: nat, onRight: bool): Links
    requires c < |k.left| == |k.right| == |k.parent|
  {
    var n := |k.left|;
    if onRight then Links(k.left + [-1], (k.right + [-1])[c := n], (k.parent + [-1])[n := c], k.root)
    else Links((k.left + [-1])[c := n], k.right + [-1], (k.parent + [-1])[n := c], k.root)
  }

  /** Hanging the new node below `c` leaves every subtree without `c` linked. */
  lemma AttachKeeps(t: Shape, up: int, k: Links, c: nat, onRight: bool)
    requires c < |k.left| == |k.right| == |k.parent|
    requires Linked(t, up, k) && c !in Ids(t)
    ensures Linked(t, up, Attach(k, c, onRight))
  {
    var k' := Attach(k, c, onRight);
    forall j | j in Ids(t)
      ensures j < |k.left| && j < |k'.left| && j < |k'.right| && j < |k'.parent|
      ensures k'.left[j] == k.left[j] && k'.right[j] == k.right[j] && k'.parent[j] == k.parent[j]
    {
      LinkedBelow(t, up, k, j);
    }
    LinkedFrame(t, up, k, k');
  }

  /** The search ends at `c` itself: the new node becomes its child. */
  lemma AttachHere(l: Shape, r: Shape, up: int, k: Links, c: nat, onRight: bool)
    requires c < |k.left| == |k.right| == |k.parent|
    requires Linked(Node(c, l, r), up, k) && Distinct(Ids(Node(c, l, r))) && up != c
    requires if onRight then r == Leaf else l == Leaf
    ensures var n := Node(|k.left|, Leaf, Leaf);
      Linked(if onRight then Node(c, l, n) else Node(c, n, r), up, Attach(k, c, onRight))
  {
    Apart(c, l, r);
    AttachKeeps(l, c, k, c, onRight);
    AttachKeeps(r, c, k, c, onRight);
  }

  /** Hanging the new node below `c` leaves the links of every other old node alone. */
  lemma AttachOther(k: Links, c: nat, onRight: bool, i: nat)
    requires c < |k.left| == |k.right| == |k.parent| && i < |k.left| && i != c
    ensures var k' := Attach(k, c, onRight);
      i < |k'.left| && i < |k'.right| && i < |k'.parent|
      && k'.left[i] == k.left[i] && k'.right[i] == k.right[i] && k'.parent[i] == k.parent[i]
  {
  }

  /** Hanging the new node where the search ends links the inserted shape. */
  lemma {:induction false} AttachLinked(t: Shape, up: int, k: Links, key: seq<int>, x: int, c: nat)
    requires c < |k.left| == |k.right| == |k.parent|
    requires Linked(t, up, k) && Distinct(Ids(t)) && OnPath(t, key, x, c) && up !in Ids(t)
    requires (x > KeyAt(key, c) && k.right[c] == -1) || (x < KeyAt(key, c) && k.left[c] == -1)
    ensures Linked(Insert(t, key, x, |k.left|), up, Attach(k, c, x > KeyAt(key, c)))
  {
    var onRight := x > KeyAt(key, c);
    match t
    case Node(i, l, r) =>
      Apart(i, l, r);
      if i == c {
        assert i in Ids(t);
        AttachHere(l, r, up, k, c, onRight);
      } else {
        assert i in Ids(t);
        LinkedBelow(t, up, k, i);
        AttachOther(k, c, onRight, i);
        var n := |k.left|;
        if x > KeyAt(key, i) && OnPath(r, key, x, c) {
          PathIn(r, key, x, c);
          AttachKeeps(l, i, k, c, onRight);
          AttachLinked(r, i, k, key, x, c);
          assert Insert(t, key, x, n) == Node(i, l, Insert(r, key, x, n)) && Top(Insert(r, key, x, n)) == Top(r);
        } else {
          PathIn(l, key, x, c);
          AttachKeeps(r, i, k, c, onRight);
          AttachLinked(l, i, k, key, x, c);
          assert Insert(t, key, x, n) == Node(i, Insert(l, key, x, n), r) && Top(Insert(l, key, x, n)) == Top(l);
        }
      }
  }

  /** A new node goes in once, as `newId`. */
  lemma {:induction false} InsertIds(t: Shape, key: seq<int>, x: int, newId: nat)
    requires Distinct(Ids(t)) && newId !in Ids(t) && x !in Keys(t, key)
    ensures Distinct(Ids(Insert(t, key, x, newId))) && |Ids(Insert(t, key, x, newId))| == |Ids(t)| + 1
    ensures forall j :: j in Ids(Insert(t, key, x, newId)) <==> j in Ids(t) || j == newId
  {
    match t
    case Leaf =>
      assert Ids(Insert(t, key, x, newId)) == [newId];
    case Node(i, l, r) =>
      Apart(i, l, r);
      if x > KeyAt(key, i) {
        InsertIds(r, key, x, newId);
        DistinctJoin(Ids(l), i, Ids(Insert(r, key, x, newId)));
      } else {
        InsertIds(l, key, x, newId);
        DistinctJoin(Ids(Insert(l, key, x, newId)), i, Ids(r));
      }
  }

  /** Keys of nodes below `|key|` do not change when data is appended. */
  lemma {:induction false} KeysExtend(t: Shape, key: seq<int>, more: seq<int>)
    requires forall j | j in Ids(t) :: j < |key|
    ensures Keys(t, key + more) == Keys(t, key)
  {
    match t
    case Leaf =>
    case Node(i, l, r) =>
      assert i in Ids(t);
      assert forall j | j in Ids(l) :: j in Ids(t);
      assert forall j | j in Ids(r) :: j in Ids(t);
      KeysExtend(l, key, more);
      KeysExtend(r, key, more);
  }

  /** Putting a new right subtree back beside the rest. */
  lemma JoinRight(a: seq<int>, v: int, b: seq<int>, b': seq<int>, x: int)
    requires Increasing(a + [v] + b) && Increasing(b') && v < x
    requires multiset(b') == if x in b then multiset(b) else multiset(b) + multiset{x}
    ensures Increasing(a + [v] + b')
    ensures x in a + [v] + b <==> x in b
    ensures multiset(a + [v] + b') ==
      if x in b then multiset(a + [v] + b) else multiset(a + [v] + b) + multiset{x}
  {
    IncreasingSplit(a, v, b);
    forall j | j in b' ensures v < j {
      assert j in multiset(b');
      if x in b {
        assert j in multiset(b);
      } else if j != x {
        assert j in multiset(b) + multiset{x};
        assert j in multiset(b);
      }
      assert j in b || j == x;
    }
    IncreasingJoin(a, v, b');
  }

  /** Putting a new left subtree back beside the rest. */
  lemma JoinLeft(a: seq<int>, a': seq<int>, v: int, b: seq<int>, x: int)
    requires Increasing(a + [v] + b) && Increasing(a') && x < v
    requires multiset(a') == if x in a then multiset(a) else multiset(a) + multiset{x}
    ensures Increasing(a' + [v] + b)
    ensures x in a + [v] + b <==> x in a
    ensures multiset(a' + [v] + b) ==
      if x in a then multiset(a + [v] + b) else multiset(a + [v] + b) + multiset{x}
  {
    IncreasingSplit(a, v, b);
    forall j | j in a' ensures j < v {
      assert j in multiset(a');
      if x in a {
        assert j in multiset(a);
      } else if j != x {
        assert j in multiset(a) + multiset{x};
        assert j in multiset(a);
      }
      assert j in a || j == x;
    }
    IncreasingJoin(a', v, b);
  }

  /** What `InsertKeys` states, for one shape. */
  predicate InsertsKey(t: Shape, key: seq<int>, x: int)
  {
    var s, s' := Keys(t, key), Keys(Insert(t, key, x, |key|), key + [x]);
    Increasing(s') && (x in s ==> Insert(t, key, x, |key|) == t) &&
    multiset(s') == if x in s then multiset(s) else multiset(s) + multiset{x}
  }

  /** Insertion keeps the data in increasing order and adds `x` once. */
  lemma {:induction false} InsertKeys(t: Shape, key: seq<int>, x: int)
    requires Increasing(Keys(t, key)) && forall j | j in Ids(t) :: j < |key|
    ensures InsertsKey(t, key, x)
  {
    match t
    case Leaf =>
      assert Keys(Insert(t, key, x, |key|), key + [x]) == [x];
    case Node(i, l, r) =>
      IdsBelow(i, l, r, |key|);
      IncreasingSplit(Keys(l, key), key[i], Keys(r, key));
      if x > key[i] {
        InsertKeys(r, key, x);
        InsertKeysRight(i, l, r, key, x);
      } else if x < key[i] {
        InsertKeys(l, key, x);
        InsertKeysLeft(i, l, r, key, x);
      } else {
        InsertKeysHere(i, l, r, key, x);
      }
  }

  lemma IdsBelow(i: nat, l: Shape, r: Shape, n: nat)
    requires forall j | j in Ids(Node(i, l, r)) :: j < n
    ensures i < n && (forall j | j in Ids(l) :: j < n) && (forall j | j in Ids(r) :: j < n)
  {
    assert i in Ids(Node(i, l, r));
    assert forall j | j in Ids(l) :: j in Ids(Node(i, l, r));
    assert forall j | j in Ids(r) :: j in Ids(Node(i, l, r));
  }

  lemma InsertKeysHere(i: nat, l: Shape, r: Shape, key: seq<int>, x: int)
    requires i < |key| && x == key[i] && Increasing(Keys(Node(i, l, r), key))
    requires forall j | j in Ids(Node(i, l, r)) :: j < |key|
    ensures InsertsKey(Node(i, l, r), key, x)
  {
    var t := Node(i, l, r);
    assert Insert(t, key, x, |key|) == t;
    KeysExtend(t, key, [x]);
    assert Keys(t, key) == Keys(l, key) + [x] + Keys(r, key);
  }


  lemma InsertKeysRight(i: nat, l: Shape, r: Shape, key: seq<int>, x: int)
    requires i < |key| && x > key[i] && Increasing(Keys(Node(i, l, r), key))
    requires forall j | j in Ids(l) :: j < |key|
    requires InsertsKey(r, key, x)
    ensures InsertsKey(Node(i, l, r), key, x)
  {
    var t, key' := Node(i, l, r), key + [x];
    var r' := Insert(r, key, x, |key|);
    assert Insert(t, key, x, |key|) == Node(i, l, r');
    KeysExtend(l, key, [x]);
    assert KeyAt(key', i) == key[i];
    var a, b, b' := Keys(l, key), Keys(r, key), Keys(r', key');
    assert Keys(t, key) == a + [key[i]] + b;
    assert Keys(Node(i, l, r'), key') == a + [key[i]] + b';
    JoinRight(a, key[i], b, b', x);
  }


  lemma InsertKeysLeft(i: nat, l: Shape, r: Shape, key: seq<int>, x: int)
    requires i < |key| && x < key[i] && Increasing(Keys(Node(i, l, r), key))
    requires forall j | j in Ids(r) :: j < |key|
    requires InsertsKey(l, key, x)
    ensures InsertsKey(Node(i, l, r), key, x)
  {
    var t, key' := Node(i, l, r), key + [x];
    var l' := Insert(l, key, x, |key|);
    assert Insert(t, key, x, |key|) == Node(i, l', r);
    KeysExtend(r, key, [x]);
    assert KeyAt(key', i) == key[i];
    var a, a', b := Keys(l, key), Keys(l', key'), Keys(r, key);
    assert Keys(t, key) == a + [key[i]] + b;
    assert Keys(Node(i, l', r), key') == a' + [key[i]] + b;
    JoinLeft(a, a', key[i], b, x);
  }


  /** A whole tree after `treeInsert` hangs a new node where the search
      for `x` ends: still a tree, data still increasing, `x` added once. */
  lemma InsertTree(t: Shape, k: Links, key: seq<int>, x: int, c: nat)
    requires Tree(t, k, |key|) && Increasing(Keys(t, key)) && c < |key| && OnPath(t, key, x, c)
    requires (x > KeyAt(key, c) && k.right[c] == -1) || (x < KeyAt(key, c) && k.left[c] == -1)
    ensures x !in Keys(t, key)
    ensures Tree(Insert(t, key, x, |key|), Attach(k, c, x > KeyAt(key, c)), |key| + 1)
    ensures Increasing(Keys(Insert(t, key, x, |key|), key + [x]))
    ensures multiset(Keys(Insert(t, key, x, |key|), key + [x])) == multiset(Keys(t, key)) + multiset{x}
  {
    var n := |key|;
    forall j | j in Ids(t) ensures j < n {
      LinkedBelow(t, -1, k, j);
    }
    PathMissing(t, -1, k, key, x, c);
    InsertKeys(t, key, x);
    InsertLinks(t, k, key, x, c);
  }

  lemma InsertLinks(t: Shape, k: Links, key: seq<int>, x: int, c: nat)
    requires Tree(t, k, |key|) && c < |key| && OnPath(t, key, x, c) && x !in Keys(t, key)
    requires (x > KeyAt(key, c) && k.right[c] == -1) || (x < KeyAt(key, c) && k.left[c] == -1)
    requires forall j | j in Ids(t) :: j < |key|
    ensures Tree(Insert(t, key, x, |key|), Attach(k, c, x > KeyAt(key, c)), |key| + 1)
  {
    var n, t' := |key|, Insert(t, key, x, |key|);
    AttachLinked(t, -1, k, key, x, c);
    InsertIds(t, key, x, n);
    PathIn(t, key, x, c);
    assert t.Node? && Top(t') == Top(t);
  }


  /** How far below the top of `t` node `c` sits. */
  function Depth(t: Shape, c: int): nat
  {
    match t
    case Leaf => 0
    case Node(i, l, r) =>
      if c == i then 0
      else if c in Ids(l) then 1 + Depth(l, c)
      else if c in Ids(r) then 1 + Depth(r, c)
      else 0
  }

  /** A parent sits one level above its child, and no node deeper than
      the tree is large. */
  lemma {:induction false} ParentDepth(t: Shape, up: int, k: Links, c: int)
    requires Linked(t, up, k) && Distinct(Ids(t)) && up !in Ids(t) && c in Ids(t)
    ensures c < |k.parent| && Depth(t, c) < |Ids(t)|
    ensures c != Top(t) ==> k.parent[c] in Ids(t) && Depth(t, k.parent[c]) + 1 == Depth(t, c)
  {
    LinkedBelow(t, up, k, c);
    match t
    case Node(i, l, r) =>
      Apart(i, l, r);
      if c in Ids(l) {
        ParentDepth(l, i, k, c);
        assert forall j | j in Ids(l) :: j in Ids(t);
      } else if c in Ids(r) {
        ParentDepth(r, i, k, c);
        assert forall j | j in Ids(r) :: j in Ids(t);
      }
  }

  /** The subtree whose top is `c`; empty when `c` is not in `t`. */
  function Sub(t: Shape, c: int): Shape
  {
    match t
    case Leaf => Leaf
    case Node(i, l, r) =>
      if c == i then t
      else if c in Ids(l) then Sub(l, c)
      else Sub(r, c)
  }

  lemma {:induction false} SubAbsent(t: Shape, c: int)
    requires c !in Ids(t)
    ensures Sub(t, c) == Leaf
  {
    match t
    case Leaf =>
    case Node(i, l, r) =>
      assert i in Ids(t);
      assert forall j | j in Ids(r) :: j in Ids(t);
      SubAbsent(r, c);
  }

  /** The subtree below a node is that node over the subtrees below its
      children. */
  lemma {:induction false} SubFacts(t: Shape, up: int, k: Links, c: int)
    requires Linked(t, up, k) && Distinct(Ids(t)) && up !in Ids(t) && c in Ids(t)
    ensures c < |k.left| && c < |k.right|
    ensures Sub(t, c) == Node(c, Sub(t, k.left[c]), Sub(t, k.right[c]))
  {
    LinkedBelow(t, up, k, c);
    match t
    case Node(i, l, r) =>
      Apart(i, l, r);
      assert forall j | j in Ids(l) :: j in Ids(t);
      assert forall j | j in Ids(r) :: j in Ids(t);
      if c == i {
        SubTop(l, r, i);
      } else if c in Ids(l) {
        SubFacts(l, i, k, c);
        SubBelow(i, l, r, up, k, c, l);
      } else {
        SubFacts(r, i, k, c);
        SubBelow(i, l, r, up, k, c, r);
      }
  }

  /** Carries `SubFacts` from the subtree `s` holding `c` up to its parent. */
  lemma SubBelow(i: nat, l: Shape, r: Shape, up: int, k: Links, c: int, s: Shape)
    requires Linked(Node(i, l, r), up, k) && Distinct(Ids(Node(i, l, r))) && (s == l || s == r)
    requires c in Ids(s) && c < |k.left| && c < |k.right|
    requires Sub(s, c) == Node(c, Sub(s, k.left[c]), Sub(s, k.right[c]))
    ensures Sub(Node(i, l, r), c) == Node(c, Sub(Node(i, l, r), k.left[c]), Sub(Node(i, l, r), k.right[c]))
  {
    Apart(i, l, r);
    NodeFacts(s, i, k, c);
    SubInside(i, l, r, c);
    SubInside(i, l, r, k.left[c]);
    SubInside(i, l, r, k.right[c]);
    if k.left[c] == -1 || k.right[c] == -1 {
      SubAbsent(s, -1);
    }
  }

  lemma SubTop(l: Shape, r: Shape, i: nat)
    requires Distinct(Ids(Node(i, l, r)))
    ensures Sub(Node(i, l, r), Top(l)) == l && Sub(Node(i, l, r), Top(r)) == r
  {
    Apart(i, l, r);
    if l.Node? {
      assert l.id in Ids(l);
    } else {
      SubAbsent(Node(i, l, r), -1);
    }
    if r.Node? {
      assert r.id in Ids(r);
      SubAbsent(l, r.id);
      SubAbsent(Node(i, l, r), -1);
    } else {
      SubAbsent(Node(i, l, r), -1);
    }
  }

  lemma SubInside(i: nat, l: Shape, r: Shape, c: int)
    requires Distinct(Ids(Node(i, l, r))) && c != i
    ensures c in Ids(l) ==> Sub(Node(i, l, r), c) == Sub(l, c)
    ensures c in Ids(r) ==> Sub(Node(i, l, r), c) == Sub(r, c)
    ensures c !in Ids(l) && c !in Ids(r) ==> Sub(Node(i, l, r), c) == Leaf
  {
    Apart(i, l, r);
    if c !in Ids(l) && c !in Ids(r) {
      SubAbsent(Node(i, l, r), c);
    }
  }

  /** The data of the nodes listed in `s`, in the same order. */
  function DataOf(s: seq<nat>, key: seq<int>): (r: seq<int>)
    ensures |r| == |s| && forall j | 0 <= j < |s| :: r[j] == KeyAt(key, s[j])
  {
    seq(|s|, j requires 0 <= j < |s| => KeyAt(key, s[j]))
  }

  /** The data of a tree in order is the data of its nodes in order, so
      two shapes with the same nodes in the same order hold the same data. */
  lemma {:induction false} KeysIds(t: Shape, key: seq<int>)
    ensures Keys(t, key) == DataOf(Ids(t), key)
  {
    match t
    case Leaf =>
    case Node(i, l, r) =>
      KeysIds(l, key);
      KeysIds(r, key);
      var a, b := Ids(l), Ids(r);
      var s := a + [i] + b;
      var m := |a|;
      forall j | 0 <= j < |s| ensures DataOf(s, key)[j] == (DataOf(a, key) + [KeyAt(key, i)] + DataOf(b, key))[j] {
        if j < m {
          assert s[j] == a[j];
        } else if j > m {
          assert s[j] == b[j - m - 1];
        }
      }
  }

  /** Two shapes with the same nodes in the same order hold the same data
      in the same order. */
  lemma SameOrder(t: Shape, t': Shape, key: seq<int>)
    requires Ids(t) == Ids(t')
    ensures Keys(t, key) == Keys(t', key)
  {
    KeysIds(t, key);
    KeysIds(t', key);
  }
}
