// Tree.swift: the two in-order walks over the tree, `toArray` with an
// explicit stack and `TreeGenerator`, which climbs along `parent` links.
// Both work on the node arena of `TreeShape` and are proved to list the
// nodes of the ghost shape in order.

module TreeTraversal {
  import opened Wrappers
  import opened TreeShape
  import opened TreeRotation

  /** Each subtree occupies one run of consecutive places in the in-order
      list of node ids, with `a` before it and `b` after it. */
  lemma {:induction false} Segment(t: Shape, x: int) returns (a: seq<nat>, b: seq<nat>)
    requires x in Ids(t)
    ensures Ids(t) == a + Ids(Sub(t, x)) + b
  {
    match t
    case Node(i, l, r) =>
      if x == i {
        a, b := [], [];
        assert Ids(t) == [] + Ids(t) + [];
      } else if x in Ids(l) {
        var a', b' := Segment(l, x);
        a, b := a', b' + [i] + Ids(r);
        JoinLeftOf(a', Ids(Sub(l, x)), b', i, Ids(r));
      } else {
        var a', b' := Segment(r, x);
        a, b := Ids(l) + [i] + a', b';
        JoinRightOf(Ids(l), i, a', Ids(Sub(r, x)), b');
      }
  }

  lemma JoinLeftOf(a: seq<nat>, s: seq<nat>, b: seq<nat>, i: nat, r: seq<nat>)
    ensures (a + s + b) + [i] + r == a + s + (b + [i] + r)
  {
  }

  lemma JoinRightOf(l: seq<nat>, i: nat, a: seq<nat>, s: seq<nat>, b: seq<nat>)
    ensures l + [i] + (a + s + b) == (l + [i] + a) + s + b
  {
  }

  /** Where a node and its in-order neighbours sit in a list that holds
      its subtree `l + [v] + r` between `a` and `b`. */
  lemma Around(a: seq<nat>, l: seq<nat>, v: nat, r: seq<nat>, b: seq<nat>)
    ensures var s := a + (l + [v] + r) + b; |a| + |l| < |s| && s[|a| + |l|] == v
    ensures l != [] ==> (a + (l + [v] + r) + b)[|a| + |l| - 1] == l[|l| - 1]
    ensures r != [] ==> (a + (l + [v] + r) + b)[|a| + |l| + 1] == r[0]
  {
  }

  /** A node appears at one place only in a list without repeats. */
  lemma Unique(s: seq<nat>, a: int, b: int)
    requires Distinct(s) && 0 <= a < |s| && 0 <= b < |s| && s[a] == s[b]
    ensures a == b
  {
  }

  /** The node below `c` reached by following `left` links, as the
      generator's initialiser and `next()` do: the first node of the
      subtree of `c` in order. */
  method Leftmost(k: Links, ghost t: Shape, c: int) returns (d: int)
    requires TreeShape.Tree(t, k, |k.left|) && c in Ids(t)
    ensures d in Ids(t) && Ids(Sub(t, c)) != [] && d == Ids(Sub(t, c))[0]
  {
    SubFacts(t, -1, k, c);
    d := c;
    while k.left[d] != -1
      invariant 0 <= d < |k.left| && d in Ids(t) && Ids(Sub(t, d)) != [] && Ids(Sub(t, d))[0] == Ids(Sub(t, c))[0]
      decreases |Ids(Sub(t, d))|
    {
      SubFacts(t, -1, k, d);
      NodeFacts(t, -1, k, d);
      SubFacts(t, -1, k, k.left[d]);
      d := k.left[d];
    }
    SubFacts(t, -1, k, d);
    SubAbsent(t, -1);
  }

  /** The node the generator starts from: the first in order, or `nil`
      for the empty tree. */
  method First(k: Links, ghost t: Shape) returns (d: int)
    requires TreeShape.Tree(t, k, |k.left|)
    ensures d == if Ids(t) == [] then -1 else Ids(t)[0]
  {
    if k.root == -1 {
      d := -1;
    } else {
      assert t.Node? && Sub(t, k.root) == t && k.root == t.id;
      assert Ids(t) == Ids(t.left) + [t.id] + Ids(t.right);
      d := Leftmost(k, t, k.root);
    }
  }

  /** The step of `next()` from the node at place `i` in order: down the
      right subtree to its leftmost node when there is one, otherwise up
      until the walk arrives from a left child; `nil` after the last node. */
  method Successor(k: Links, ghost t: Shape, c: int, ghost i: nat) returns (d: int)
    requires TreeShape.Tree(t, k, |k.left|) && i < |Ids(t)| && Ids(t)[i] == c
    ensures d == if i + 1 < |Ids(t)| then Ids(t)[i + 1] else -1
  {
    NodeFacts(t, -1, k, c);
    SubFacts(t, -1, k, c);
    if k.right[c] != -1 {
      d := Leftmost(k, t, k.right[c]);
      DownRight(t, k, c, i);
      return;
    }
    SubAbsent(t, -1);
    var cur := c;
    while true
      invariant cur in Ids(t) && Ids(Sub(t, cur)) != [] && Ids(Sub(t, cur))[|Ids(Sub(t, cur))| - 1] == c
      decreases Depth(t, cur)
    {
      NodeFacts(t, -1, k, cur);
      if k.parent[cur] == -1 {
        AtRoot(t, k, cur, i);
        return -1;
      }
      var p := k.parent[cur];
      ParentDepth(t, -1, k, cur);
      if k.left[p] == cur {
        UpFromLeft(t, k, cur, c, i);
        return p;
      }
      UpFromRight(t, k, cur);
      cur := p;
    }
  }

  /** With a right subtree, the node after `c` is the first node of it. */
  lemma DownRight(t: Shape, k: Links, c: int, i: nat)
    requires TreeShape.Tree(t, k, |k.left|) && i < |Ids(t)| && Ids(t)[i] == c
    requires c < |k.right| && k.right[c] != -1 && k.right[c] in Ids(t)
    requires Sub(t, c) == Node(c, Sub(t, k.left[c]), Sub(t, k.right[c]))
    ensures Ids(Sub(t, k.right[c])) != [] && i + 1 < |Ids(t)| && Ids(t)[i + 1] == Ids(Sub(t, k.right[c]))[0]
  {
    var a, b := Segment(t, c);
    SubFacts(t, -1, k, k.right[c]);
    var l := Ids(Sub(t, k.left[c]));
    Around(a, l, c, Ids(Sub(t, k.right[c])), b);
    Unique(Ids(t), i, |a| + |l|);
  }

  /** Climbing from the root: `c` ends the whole tree, so it is last. */
  lemma AtRoot(t: Shape, k: Links, cur: int, i: nat)
    requires TreeShape.Tree(t, k, |k.left|) && i < |Ids(t)| && cur in Ids(t)
    requires cur < |k.parent| && k.parent[cur] == -1
    requires Ids(Sub(t, cur)) != [] && Ids(Sub(t, cur))[|Ids(Sub(t, cur))| - 1] == Ids(t)[i]
    ensures i + 1 == |Ids(t)|
  {
    NodeFacts(t, -1, k, cur);
    assert cur == Top(t) && Sub(t, cur) == t;
    Unique(Ids(t), i, |Ids(t)| - 1);
  }

  /** Arriving at `p` from its left child `cur`, whose subtree ends with
      `c`: `p` comes right after `c`. */
  lemma UpFromLeft(t: Shape, k: Links, cur: int, c: int, i: nat)
    requires TreeShape.Tree(t, k, |k.left|) && i < |Ids(t)| && Ids(t)[i] == c && cur in Ids(t)
    requires cur < |k.parent| && 0 <= k.parent[cur] < |k.left| && k.parent[cur] in Ids(t) && k.left[k.parent[cur]] == cur
    requires Ids(Sub(t, cur)) != [] && Ids(Sub(t, cur))[|Ids(Sub(t, cur))| - 1] == c
    ensures i + 1 < |Ids(t)| && Ids(t)[i + 1] == k.parent[cur]
  {
    var p := k.parent[cur];
    SubFacts(t, -1, k, p);
    var a, b := Segment(t, p);
    var l := Ids(Sub(t, cur));
    Around(a, l, p, Ids(Sub(t, k.right[p])), b);
    Unique(Ids(t), i, |a| + |l| - 1);
  }

  /** Arriving at `p` from its right child `cur`: the subtree of `p` ends
      where that of `cur` does. */
  lemma UpFromRight(t: Shape, k: Links, cur: int)
    requires TreeShape.Tree(t, k, |k.left|) && cur in Ids(t)
    requires cur < |k.parent| && 0 <= k.parent[cur] < |k.left| && k.parent[cur] in Ids(t)
    requires k.left[k.parent[cur]] != cur && (k.left[k.parent[cur]] == cur || k.right[k.parent[cur]] == cur)
    requires Ids(Sub(t, cur)) != []
    ensures Ids(Sub(t, k.parent[cur])) != []
    ensures Ids(Sub(t, k.parent[cur]))[|Ids(Sub(t, k.parent[cur]))| - 1] == Ids(Sub(t, cur))[|Ids(Sub(t, cur))| - 1]
  {
    SubFacts(t, -1, k, k.parent[cur]);
  }

  /** The node the generator stands on after handing out `i` values. */
  ghost function At(t: Shape, i: nat): int
  {
    if i < |Ids(t)| then Ids(t)[i] else -1
  }

  /** `next()`: hands out the data of the current node and moves to the
      next node in order; `nil` once the walk has passed the last node. */
  method Next(key: seq<int>, k: Links, ghost t: Shape, node: int, ghost i: nat)
    returns (node': int, r: Option<int>)
    requires TreeShape.Tree(t, k, |key|) && i <= |Ids(t)| && node == At(t, i)
    ensures i < |Ids(t)| ==> r == Some(Keys(t, key)[i]) && node' == At(t, i + 1)
    ensures i == |Ids(t)| ==> r == None && node' == -1
  {
    if node == -1 {
      assert i == |Ids(t)|;
      return -1, None;
    }
    KeysIds(t, key);
    NodeFacts(t, -1, k, node);
    node' := Successor(k, t, node, i);
    r := Some(key[node]);
  }

  /** `toArray()`: the explicit-stack walk lists the data in order. */
  method InOrder(key: seq<int>, k: Links, ghost t: Shape) returns (a: seq<int>)
    requires TreeShape.Tree(t, k, |key|)
    ensures a == Keys(t, key)
  {
    SubAbsent(t, -1);
    var stack: seq<int> := [];
    var node := k.root;
    a := [];
    if node != -1 {
      assert t.Node? && node in Ids(t);
    }
    while |stack| != 0 || node != -1
      invariant (node == -1 || node in Ids(t)) && forall s <- stack :: s in Ids(t)
      invariant Keys(t, key) == a + Keys(Sub(t, node), key) + Unwind(t, key, stack)
      decreases |Unwind(t, key, stack)| + |Keys(Sub(t, node), key)|, |Keys(Sub(t, node), key)|
    {
      if node != -1 {
        AfterNode(t, k, key, node);
        UnwindPush(t, key, stack, node);
        Regroup(a, Keys(Sub(t, k.left[node]), key), After(t, key, node), Unwind(t, key, stack));
        stack := stack + [node];
        node := k.left[node];
      } else {
        var s := stack[|stack| - 1];
        AfterNode(t, k, key, s);
        Regroup2(a, Keys(Sub(t, node), key), key[s], Keys(Sub(t, k.right[s]), key), Unwind(t, key, stack[..|stack| - 1]));
        stack := stack[..|stack| - 1];
        a := a + [key[s]];
        node := k.right[s];
      }
    }
  }

  lemma Regroup(a: seq<int>, l: seq<int>, m: seq<int>, u: seq<int>)
    ensures a + (l + m) + u == a + l + (m + u)
  {
  }

  lemma Regroup2(a: seq<int>, e: seq<int>, v: int, r: seq<int>, u: seq<int>)
    requires e == []
    ensures a + e + (([v] + r) + u) == (a + [v]) + r + u
  {
  }

  /** The subtree of a node splits into its left subtree and what follows
      it on the stack. */
  lemma AfterNode(t: Shape, k: Links, key: seq<int>, s: int)
    requires TreeShape.Tree(t, k, |key|) && s in Ids(t)
    ensures 0 <= s < |key| && s < |k.left| && s < |k.right|
    ensures (k.left[s] == -1 || k.left[s] in Ids(t)) && (k.right[s] == -1 || k.right[s] in Ids(t))
    ensures Keys(Sub(t, s), key) == Keys(Sub(t, k.left[s]), key) + After(t, key, s)
    ensures After(t, key, s) == [key[s]] + Keys(Sub(t, k.right[s]), key)
  {
    NodeFacts(t, -1, k, s);
    SubFacts(t, -1, k, s);
    var l, r := Keys(Sub(t, k.left[s]), key), Keys(Sub(t, k.right[s]), key);
    assert l + [key[s]] + r == l + ([key[s]] + r);
  }

  lemma UnwindPush(t: Shape, key: seq<int>, stack: seq<int>, s: int)
    ensures Unwind(t, key, stack + [s]) == After(t, key, s) + Unwind(t, key, stack)
  {
    assert (stack + [s])[..|stack|] == stack;
  }

  /** The data still to come from a node on the stack: its own, then its
      right subtree's. */
  ghost function After(t: Shape, key: seq<int>, s: int): seq<int>
  {
    match Sub(t, s)
    case Leaf => []
    case Node(i, _, r) => [KeyAt(key, i)] + Keys(r, key)
  }

  /** The data still to come from the whole stack, top first. */
  ghost function Unwind(t: Shape, key: seq<int>, stack: seq<int>): seq<int>
  {
    if stack == [] then [] else After(t, key, stack[|stack| - 1]) + Unwind(t, key, stack[..|stack| - 1])
  }

  /** Running the generator to its end: it yields the data in order, the
      same sequence as `toArray()`. */
  method Drain(key: seq<int>, k: Links, ghost t: Shape) returns (a: seq<int>)
    requires TreeShape.Tree(t, k, |key|)
    ensures a == Keys(t, key)
  {
    var node := First(k, t);
    ghost var i := 0;
    a := [];
    while true
      invariant i <= |Ids(t)| && node == At(t, i) && a == Keys(t, key)[..i]
      decreases |Ids(t)| - i
    {
      var r;
      node, r := Next(key, k, t, node, i);
      if r.None? {
        assert Keys(t, key)[..i] == Keys(t, key);
        return;
      }
      TakeNext(Keys(t, key), i);
      a := a + [r.value];
      i := i + 1;
    }
  }

  lemma TakeNext(s: seq<int>, i: nat)
    requires i < |s|
    ensures s[..i + 1] == s[..i] + [s[i]]
  {
  }
}
