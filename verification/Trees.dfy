/** Trees as graphs: each node but the root is linked to its parent. */
module Trees {
  import opened Sequences

  /** The nodes in an order in which each node's parent comes before it. A node without a
      parent starts a tree of its own. */
  ghost predicate IsForest<T>(order: seq<T>, parent: map<T, T>) {
    && Distinct(order)
    && (forall x | x in parent :: x in order)
    && forall k | 0 <= k < |order| && order[k] in parent :: parent[order[k]] in order[..k]
  }

  /** One tree; links to nodes outside it do not matter. */
  ghost predicate IsTree<T>(order: seq<T>, parent: map<T, T>) {
    && order != [] && Distinct(order) && (order[0] in parent ==> parent[order[0]] !in order)
    && forall k | 0 < k < |order| :: order[k] in parent && parent[order[k]] in order[..k]
  }

  ghost predicate Linked<T>(parent: map<T, T>, a: T, b: T) {
    (a in parent && parent[a] == b) || (b in parent && parent[b] == a)
  }

  ghost predicate LinkedAt<T>(parent: map<T, T>, p: seq<T>, k: nat) {
    0 < k < |p| && Linked(parent, p[k - 1], p[k])
  }

  /** A path over the links that visits no node twice. */
  ghost predicate IsPath<T>(order: seq<T>, parent: map<T, T>, p: seq<T>, u: T, v: T) {
    && p != [] && p[0] == u && p[|p| - 1] == v && Distinct(p)
    && (forall x | x in p :: x in order)
    && forall k | 0 < k < |p| :: LinkedAt(parent, p, k)
  }

  lemma OnlyRoot<T>(order: seq<T>, parent: map<T, T>, root: T)
    requires order != [] && IsForest(order, parent) && root in order
    requires forall x | x in order :: x in parent <==> x != root
    ensures IsTree(order, parent) && order[0] == root
  {
  }

  /** Adding a node before all others. */
  lemma AddFirst<T>(order: seq<T>, parent: map<T, T>, x: T)
    requires IsForest(order, parent) && x !in order
    ensures IsForest([x] + order, parent)
  {
    var all := [x] + order;
    forall k | 0 <= k < |all| && all[k] in parent ensures parent[all[k]] in all[..k] {
      var m := k - 1;
      assert all[k] == order[m] && parent[order[m]] in order[..m];
      assert all[..k] == [x] + order[..m];
    }
  }

  /** Linking a root to the first node. */
  lemma LinkToFirst<T>(order: seq<T>, parent: map<T, T>, x: T)
    requires IsForest(order, parent) && x in order && x !in parent && x != order[0]
    ensures IsForest(order, parent[x := order[0]])
  {
  }

  /** Adding a leaf. */
  lemma AddLeaf<T>(order: seq<T>, parent: map<T, T>, leaf: T, over: T)
    requires IsForest(order, parent) && leaf !in order && leaf !in parent && over in order
    ensures IsForest(order + [leaf], parent[leaf := over])
  {
    var all, parent' := order + [leaf], parent[leaf := over];
    forall k | 0 <= k < |all| && all[k] in parent' ensures parent'[all[k]] in all[..k] {
      if k < |order| {
        assert all[..k] == order[..k];
      } else {
        assert all[..k] == order;
      }
    }
  }

  lemma AddRoot<T>(order: seq<T>, parent: map<T, T>, root: T)
    requires IsForest(order, parent) && root !in order
    ensures IsForest(order + [root], parent)
  {
    var all := order + [root];
    forall k | 0 <= k < |all| && all[k] in parent ensures parent[all[k]] in all[..k] {
      assert all[k] == order[k] && all[..k] == order[..k];
    }
  }

  // ---- paths in a tree ---------------------------------------------------------------------

  lemma Front<T>(order: seq<T>, parent: map<T, T>)
    requires IsTree(order, parent) && |order| > 1
    ensures var front, w := order[..|order| - 1], order[|order| - 1];
            && IsTree(front, parent) && w !in front && w in parent && parent[w] in front
            && forall x :: x in order <==> x in front || x == w
  {
    var front := order[..|order| - 1];
    forall k | 0 < k < |front| ensures front[k] in parent && parent[front[k]] in front[..k] {
      assert front[k] == order[k] && front[..k] == order[..k];
    }
    assert order == front + [order[|order| - 1]];
  }

  /** The last node has one link, to its parent. */
  lemma LastIsLeaf<T>(order: seq<T>, parent: map<T, T>, x: T)
    requires IsTree(order, parent) && |order| > 1 && x in order && Linked(parent, x, order[|order| - 1])
    ensures x == parent[order[|order| - 1]]
  {
  }

  lemma Prepend<T>(order: seq<T>, parent: map<T, T>, w: T, p: seq<T>, u: T, v: T)
    requires IsPath(order, parent, p, u, v) && w in order && w !in p && Linked(parent, w, u)
    ensures IsPath(order, parent, [w] + p, w, v)
  {
    forall k | 0 < k < |[w] + p| ensures LinkedAt(parent, [w] + p, k) {
      if k > 1 { assert LinkedAt(parent, p, k - 1); }
    }
  }

  lemma Append<T>(order: seq<T>, parent: map<T, T>, p: seq<T>, w: T, u: T, v: T)
    requires IsPath(order, parent, p, u, v) && w in order && w !in p && Linked(parent, v, w)
    ensures IsPath(order, parent, p + [w], u, w)
  {
    forall k | 0 < k < |p + [w]| ensures LinkedAt(parent, p + [w], k) {
      if k < |p| { assert LinkedAt(parent, p, k); }
    }
  }

  /** The part of a path from i up to j. */
  lemma Part<T>(order: seq<T>, parent: map<T, T>, p: seq<T>, u: T, v: T, i: nat, j: nat)
    requires IsPath(order, parent, p, u, v) && i < j <= |p|
    ensures IsPath(order, parent, p[i..j], p[i], p[j - 1])
  {
    forall k | 0 < k < |p[i..j]| ensures LinkedAt(parent, p[i..j], k) {
      assert LinkedAt(parent, p, i + k);
    }
  }

  /** A path keeps to any nodes that hold it. */
  lemma Within<T>(order: seq<T>, other: seq<T>, parent: map<T, T>, p: seq<T>, u: T, v: T)
    requires IsPath(order, parent, p, u, v) && forall x | x in p :: x in other
    ensures IsPath(other, parent, p, u, v)
  {
  }

  lemma {:induction false} PathExists<T>(order: seq<T>, parent: map<T, T>, u: T, v: T) returns (p: seq<T>)
    requires IsTree(order, parent) && u in order && v in order
    ensures IsPath(order, parent, p, u, v)
    decreases |order|
  {
    if u == v {
      p := [u];
    } else {
      Front(order, parent);
      var front, w := order[..|order| - 1], order[|order| - 1];
      hide IsTree, Distinct;
      var a, b := if u == w then parent[w] else u, if v == w then parent[w] else v;
      p := PathExists(front, parent, a, b);
      Within(front, order, parent, p, a, b);
      if u == w {
        Prepend(order, parent, w, p, a, v);
        p := [w] + p;
      } else if v == w {
        Append(order, parent, p, w, u, b);
        p := p + [w];
      }
    }
  }

  /** A path between other nodes does not pass a leaf. */
  lemma AvoidsLast<T>(order: seq<T>, parent: map<T, T>, p: seq<T>, u: T, v: T)
    requires IsTree(order, parent) && |order| > 1 && IsPath(order, parent, p, u, v)
    requires u != order[|order| - 1] && v != order[|order| - 1]
    ensures IsPath(order[..|order| - 1], parent, p, u, v)
  {
    var w := order[|order| - 1];
    Front(order, parent);
    forall k | 0 <= k < |p| ensures p[k] != w {
      if p[k] == w {
        assert LinkedAt(parent, p, k) && LinkedAt(parent, p, k + 1);
        LastIsLeaf(order, parent, p[k - 1]);
        LastIsLeaf(order, parent, p[k + 1]);
        assert false;
      }
    }
    Within(order, order[..|order| - 1], parent, p, u, v);
  }

  lemma FromLast<T>(order: seq<T>, parent: map<T, T>, p: seq<T>, v: T)
    requires IsTree(order, parent) && |order| > 1 && IsPath(order, parent, p, order[|order| - 1], v) && |p| > 1
    ensures IsPath(order[..|order| - 1], parent, p[1..], parent[order[|order| - 1]], v)
    ensures p == [order[|order| - 1]] + p[1..]
  {
    var w := order[|order| - 1];
    assert LinkedAt(parent, p, 1);
    LastIsLeaf(order, parent, p[1]);
    Part(order, parent, p, w, v, 1, |p|);
    assert p[1..|p|] == p[1..];
    OthersInFront(order, parent, p, 0);
    Within(order, order[..|order| - 1], parent, p[1..], p[1], v);
  }

  lemma ToLast<T>(order: seq<T>, parent: map<T, T>, p: seq<T>, u: T)
    requires IsTree(order, parent) && |order| > 1 && IsPath(order, parent, p, u, order[|order| - 1]) && |p| > 1
    ensures IsPath(order[..|order| - 1], parent, p[..|p| - 1], u, parent[order[|order| - 1]])
    ensures p == p[..|p| - 1] + [order[|order| - 1]]
  {
    var w, n := order[|order| - 1], |p| - 1;
    assert LinkedAt(parent, p, n);
    LastIsLeaf(order, parent, p[n - 1]);
    Part(order, parent, p, u, w, 0, n);
    assert p[0..n] == p[..n];
    OthersInFront(order, parent, p, n);
    Within(order, order[..|order| - 1], parent, p[..n], u, p[n - 1]);
  }

  lemma OthersInFront<T>(order: seq<T>, parent: map<T, T>, p: seq<T>, i: nat)
    requires IsTree(order, parent) && |order| > 1 && i < |p| && Distinct(p) && p[i] == order[|order| - 1]
    requires forall x | x in p :: x in order
    ensures forall k | 0 <= k < |p| && k != i :: p[k] in order[..|order| - 1]
  {
    Front(order, parent);
    forall k | 0 <= k < |p| && k != i ensures p[k] in order[..|order| - 1] {
      assert p[k] in p;
    }
  }

  lemma EndsDiffer<T>(order: seq<T>, parent: map<T, T>, p: seq<T>, u: T, v: T)
    requires IsPath(order, parent, p, u, v) && u != v
    ensures |p| > 1 && |order| > 1
  {
    assert u in p && v in p;
  }

  /** There is only one path between two nodes of a tree. */
  lemma {:induction false} PathUnique<T>(order: seq<T>, parent: map<T, T>, p: seq<T>, q: seq<T>, u: T, v: T)
    requires IsTree(order, parent) && IsPath(order, parent, p, u, v) && IsPath(order, parent, q, u, v)
    ensures p == q
    decreases |order|
  {
    if u != v {
      EndsDiffer(order, parent, p, u, v);
      EndsDiffer(order, parent, q, u, v);
      hide IsPath, Distinct;
      var front, w := order[..|order| - 1], order[|order| - 1];
      if u == w {
        FromLast(order, parent, p, v);
        FromLast(order, parent, q, v);
        Front(order, parent);
        PathUnique(front, parent, p[1..], q[1..], parent[w], v);
      } else if v == w {
        ToLast(order, parent, p, u);
        ToLast(order, parent, q, u);
        Front(order, parent);
        PathUnique(front, parent, p[..|p| - 1], q[..|q| - 1], u, parent[w]);
      } else {
        AvoidsLast(order, parent, p, u, v);
        AvoidsLast(order, parent, q, u, v);
        Front(order, parent);
        PathUnique(front, parent, p, q, u, v);
      }
    } else {
      assert p == [u] && q == [u];
    }
  }
}
