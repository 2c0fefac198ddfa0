/** Document order: the comparator used where the browser has none, and the sort that
    leaves each node once. */
module DocumentOrder {
  import opened Options
  import opened Sequences
  import opened Dom

  // ---- what document order is -----------------------------------------------------

  /** n, then the subtrees of its children in order. */
  function Preorder(t: Tree, n: Node): (s: seq<Node>)
    requires t.Valid() && n in t.children
    ensures s != [] && s[0] == n
    ensures forall x | x in s :: x in t.children
    decreases t.bound - t.depth[n], 1, 0
  {
    [n] + PreorderFrom(t, n, 0)
  }

  function PreorderFrom(t: Tree, n: Node, i: nat): (s: seq<Node>)
    requires t.Valid() && n in t.children && i <= |t.children[n]|
    ensures forall x | x in s :: x in t.children
    decreases t.bound - t.depth[n], 0, |t.children[n]| - i
  {
    if i == |t.children[n]| then []
    else
      assert t.Linked(n, i) && t.Attached(t.children[n][i]);
      Preorder(t, t.children[n][i]) + PreorderFrom(t, n, i + 1)
  }

  ghost predicate Ordered(s: seq<Node>, a: Node, b: Node) {
    exists i, j :: 0 <= i < j < |s| && s[i] == a && s[j] == b
  }

  lemma DistinctConcat(s: seq<Node>, v: seq<Node>)
    requires Distinct(s) && Distinct(v) && forall x | x in s :: x !in v
    ensures Distinct(s + v)
  {
    forall i, j | 0 <= i < j < |s + v| ensures (s + v)[i] != (s + v)[j] {
      if i < |s| <= j { assert (s + v)[i] in s && (s + v)[j] in v; }
    }
  }

  /** Where x stands in s. */
  ghost function IndexOf(s: seq<Node>, x: Node): (i: nat)
    requires x in s
    ensures i < |s| && s[i] == x
  {
    var i :| 0 <= i < |s| && s[i] == x;
    i
  }

  lemma OrderedWithin(u: seq<Node>, s: seq<Node>, v: seq<Node>, a: Node, b: Node)
    requires Ordered(s, a, b)
    ensures Ordered(u + s + v, a, b)
  {
    var i, j :| 0 <= i < j < |s| && s[i] == a && s[j] == b;
    var w := u + s + v;
    assert w[|u| + i] == a && w[|u| + j] == b;
  }

  lemma OrderedAcross(s: seq<Node>, v: seq<Node>, a: Node, b: Node)
    requires a in s && b in v
    ensures Ordered(s + v, a, b)
  {
    var i :| 0 <= i < |s| && s[i] == a;
    var j :| 0 <= j < |v| && v[j] == b;
    assert (s + v)[i] == a && (s + v)[|s| + j] == b;
  }

  // ---- the subtrees of siblings are disjoint blocks --------------------------------

  /** The k-th ancestor (the top node answers for itself). */
  function Up(t: Tree, n: Node, k: nat): Node
    decreases k
  {
    if k == 0 || n !in t.parent then n else Up(t, t.parent[n], k - 1)
  }

  lemma {:induction false} UpParent(t: Tree, x: Node, k: nat, c: Node)
    requires t.Valid() && Up(t, x, k) == c && c in t.parent
    ensures Up(t, x, k + 1) == t.parent[c]
    decreases k
  {
    if k > 0 && x in t.parent { UpParent(t, t.parent[x], k - 1, c); }
  }

  lemma {:induction false} PreorderUp(t: Tree, n: Node, x: Node)
    requires t.Valid() && n in t.children && x in Preorder(t, n)
    ensures t.depth[n] <= t.depth[x] && Up(t, x, t.depth[x] - t.depth[n]) == n
    decreases t.bound - t.depth[n], 1, 0
  {
    if x != n {
      var c := PreorderFromUp(t, n, 0, x);
      UpParent(t, x, t.depth[x] - t.depth[c], c);
    }
  }

  lemma {:induction false} PreorderFromUp(t: Tree, n: Node, i: nat, x: Node) returns (c: Node)
    requires t.Valid() && n in t.children && i <= |t.children[n]| && x in PreorderFrom(t, n, i)
    ensures c in t.parent && t.parent[c] == n && t.Attached(c) && i <= t.index[c]
    ensures t.depth[c] <= t.depth[x] && Up(t, x, t.depth[x] - t.depth[c]) == c
    decreases t.bound - t.depth[n], 0, |t.children[n]| - i
  {
    c := t.children[n][i];
    assert t.Linked(n, i) && t.Attached(c);
    if x in Preorder(t, c) {
      PreorderUp(t, c, x);
    } else {
      c := PreorderFromUp(t, n, i + 1, x);
    }
  }

  lemma {:induction false} PreorderDistinct(t: Tree, n: Node)
    requires t.Valid() && n in t.children
    ensures Distinct(Preorder(t, n))
    decreases t.bound - t.depth[n], 1, 0
  {
    PreorderFromDistinct(t, n, 0);
    if n in PreorderFrom(t, n, 0) { var c := PreorderFromUp(t, n, 0, n); }
  }

  lemma {:induction false} PreorderFromDistinct(t: Tree, n: Node, i: nat)
    requires t.Valid() && n in t.children && i <= |t.children[n]|
    ensures Distinct(PreorderFrom(t, n, i))
    decreases t.bound - t.depth[n], 0, |t.children[n]| - i
  {
    if i < |t.children[n]| {
      var c := t.children[n][i];
      assert t.Linked(n, i) && t.Attached(c);
      PreorderDistinct(t, c);
      PreorderFromDistinct(t, n, i + 1);
      forall x | x in Preorder(t, c) ensures x !in PreorderFrom(t, n, i + 1) {
        PreorderUp(t, c, x);
        if x in PreorderFrom(t, n, i + 1) { var d := PreorderFromUp(t, n, i + 1, x); }
      }
      DistinctConcat(Preorder(t, c), PreorderFrom(t, n, i + 1));
    }
  }

  /** A child's subtree is a block of its parent's, and earlier children come first. */
  lemma {:induction false} ChildBlock(t: Tree, n: Node, i: nat, c: Node) returns (u: seq<Node>, v: seq<Node>)
    requires t.Valid() && c in t.parent && t.parent[c] == n && n in t.children
    requires c in t.index && i <= t.index[c]
    ensures PreorderFrom(t, n, i) == u + Preorder(t, c) + v
    decreases t.index[c] - i
  {
    assert t.Attached(c);
    if i == t.index[c] {
      u, v := [], PreorderFrom(t, n, i + 1);
    } else {
      u, v := ChildBlock(t, n, i + 1, c);
      assert t.Linked(n, i) && t.Attached(t.children[n][i]);
      u := Preorder(t, t.children[n][i]) + u;
    }
  }

  lemma OrderedInParent(t: Tree, c: Node, a: Node, b: Node)
    requires t.Valid() && c in t.parent && c in t.children && t.parent[c] in t.children
    requires Ordered(Preorder(t, c), a, b)
    ensures Ordered(Preorder(t, t.parent[c]), a, b)
  {
    assert t.Attached(c);
    var u, v := ChildBlock(t, t.parent[c], 0, c);
    OrderedWithin([t.parent[c]] + u, Preorder(t, c), v, a, b);
    assert Preorder(t, t.parent[c]) == [t.parent[c]] + u + Preorder(t, c) + v;
  }

  lemma {:induction false} SiblingsOrdered(t: Tree, n: Node, i: nat, x: Node, y: Node, a: Node, b: Node)
    requires t.Valid() && n in t.children
    requires x in t.parent && y in t.parent && t.parent[x] == t.parent[y] == n
    requires x in t.index && y in t.index && i <= t.index[x] < t.index[y]
    requires x in t.children && y in t.children && a in Preorder(t, x) && b in Preorder(t, y)
    ensures Ordered(PreorderFrom(t, n, i), a, b)
    decreases t.index[x] - i
  {
    assert t.Attached(x) && t.Attached(y);
    if i == t.index[x] {
      var u, v := ChildBlock(t, n, i + 1, y);
      OrderedAcross(Preorder(t, x), PreorderFrom(t, n, i + 1), a, b);
    } else {
      SiblingsOrdered(t, n, i + 1, x, y, a, b);
      var p := t.children[n][i];
      assert t.Linked(n, i) && t.Attached(p);
      OrderedWithin(Preorder(t, p), PreorderFrom(t, n, i + 1), [], a, b);
      assert PreorderFrom(t, n, i) == Preorder(t, p) + PreorderFrom(t, n, i + 1) + [];
    }
  }

  // ---- ancestor lists ---------------------------------------------------------------

  /** The ancestors of n from the top down, ending with n itself. */
  function RootFirst(t: Tree, n: Node): (s: seq<Node>)
    requires t.Valid() && n in t.children
    ensures s != [] && s[|s| - 1] == n
    decreases t.depth[n]
  {
    if n in t.parent then
      assert t.Attached(n);
      RootFirst(t, t.parent[n]) + [n]
    else [n]
  }

  function Top(t: Tree, n: Node): Node
    requires t.Valid() && n in t.children
  {
    RootFirst(t, n)[0]
  }

  lemma {:induction false} RootFirstLinks(t: Tree, n: Node, k: nat)
    requires t.Valid() && n in t.children && k < |RootFirst(t, n)|
    ensures var s := RootFirst(t, n);
            && s[k] in t.children
            && (k == 0 ==> s[k] !in t.parent)
            && (k > 0 ==> s[k] in t.parent && t.parent[s[k]] == s[k - 1])
    decreases t.depth[n]
  {
    if n in t.parent {
      assert t.Attached(n);
      if k < |RootFirst(t, n)| - 1 { RootFirstLinks(t, t.parent[n], k); }
    }
  }

  lemma InParent(t: Tree, n: Node)
    requires t.Valid() && n in t.parent
    ensures t.Attached(n) && forall x | x in Preorder(t, n) :: x in Preorder(t, t.parent[n])
  {
    assert t.Attached(n);
    var u, v := ChildBlock(t, t.parent[n], 0, n);
  }

  /** Every node on the ancestor list of n has all of n's subtree below it. */
  lemma {:induction false} BelowAncestors(t: Tree, n: Node, x: Node, k: nat)
    requires t.Valid() && n in t.children && x in Preorder(t, n) && k < |RootFirst(t, n)|
    ensures RootFirst(t, n)[k] in t.children && x in Preorder(t, RootFirst(t, n)[k])
    decreases t.depth[n]
  {
    if k < |RootFirst(t, n)| - 1 {
      InParent(t, n);
      BelowAncestors(t, t.parent[n], x, k);
    }
  }

  /** Order under a node is order under the top of its tree. */
  lemma {:induction false} OrderedFromTop(t: Tree, n: Node, a: Node, b: Node)
    requires t.Valid() && n in t.children && Ordered(Preorder(t, n), a, b)
    ensures Top(t, n) in t.children && Ordered(Preorder(t, Top(t, n)), a, b)
    decreases t.depth[n]
  {
    if n in t.parent {
      assert t.Attached(n);
      OrderedInParent(t, n, a, b);
      OrderedFromTop(t, t.parent[n], a, b);
    }
  }

  lemma {:induction false} SamePrefix(t: Tree, a: Node, k: nat)
    requires t.Valid() && a in t.children && k < |RootFirst(t, a)|
    ensures RootFirst(t, a)[k] in t.children
    ensures RootFirst(t, RootFirst(t, a)[k]) == RootFirst(t, a)[..k + 1]
    decreases t.depth[a]
  {
    if k < |RootFirst(t, a)| - 1 {
      assert t.Attached(a);
      SamePrefix(t, t.parent[a], k);
    }
  }

  /** Where two ancestor lists part decides the order: a list that ends there belongs to
      an ancestor, and otherwise two children of one node lead on. */
  lemma DivergenceOrders(t: Tree, a: Node, b: Node, i: nat)
    requires t.Valid() && a in t.children && b in t.children && Top(t, a) == Top(t, b)
    requires var ap, bp := RootFirst(t, a), RootFirst(t, b);
             && 0 < i <= |ap| && i < |bp| && ap[..i] == bp[..i]
             && (i < |ap| ==>
                  && ap[i] in t.parent && bp[i] in t.parent && ap[i] in t.index && bp[i] in t.index
                  && t.parent[ap[i]] == t.parent[bp[i]] && t.index[ap[i]] < t.index[bp[i]])
    ensures Top(t, a) in t.children && Ordered(Preorder(t, Top(t, a)), a, b)
  {
    hide Ordered, Up, Preorder, PreorderFrom;
    var ap, bp := RootFirst(t, a), RootFirst(t, b);
    var c := ap[i - 1];
    assert c == ap[..i][i - 1] == bp[..i][i - 1];
    SamePrefix(t, a, i - 1);
    BelowAncestors(t, b, b, i);
    RootFirstLinks(t, b, i);
    if i < |ap| {
      BelowAncestors(t, a, a, i);
      RootFirstLinks(t, a, i);
      ChildrenLead(t, c, ap[i], bp[i], a, b);
    } else {
      AncestorLeads(t, c, bp[i], b);
    }
    OrderedFromTop(t, c, a, b);
  }

  /** Below an earlier child comes before below a later one. */
  lemma ChildrenLead(t: Tree, c: Node, x: Node, y: Node, a: Node, b: Node)
    requires t.Valid() && c in t.children && x in t.children && y in t.children
    requires x in t.parent && y in t.parent && t.parent[x] == t.parent[y] == c
    requires x in t.index && y in t.index && t.index[x] < t.index[y]
    requires a in Preorder(t, x) && b in Preorder(t, y)
    ensures Ordered(Preorder(t, c), a, b)
  {
    hide Ordered;
    SiblingsOrdered(t, c, 0, x, y, a, b);
    OrderedWithin([c], PreorderFrom(t, c, 0), [], a, b);
    assert [c] + PreorderFrom(t, c, 0) + [] == Preorder(t, c);
  }

  /** A node comes before what is below a child of it. */
  lemma AncestorLeads(t: Tree, c: Node, y: Node, b: Node)
    requires t.Valid() && c in t.children && y in t.parent && t.parent[y] == c && y in t.children
    requires b in Preorder(t, y)
    ensures Ordered(Preorder(t, c), c, b)
  {
    hide Ordered;
    assert t.Attached(y);
    var u, v := ChildBlock(t, c, 0, y);
    OrderedAcross([c], PreorderFrom(t, c, 0), c, b);
  }

  // ---- the order the comparator gives -------------------------------------------------

  /** The nodes of one tree as the comparator orders them: document order, except that the
      top node goes last when it is not the document. */
  function Listing(t: Tree, document: Node, top: Node): seq<Node>
    requires t.Valid() && top in t.children
  {
    if top == document then Preorder(t, top) else Preorder(t, top)[1..] + [top]
  }

  lemma ListingDistinct(t: Tree, document: Node, top: Node)
    requires t.Valid() && top in t.children
    ensures Distinct(Listing(t, document, top))
    ensures forall x :: x in Listing(t, document, top) <==> x in Preorder(t, top)
  {
    PreorderDistinct(t, top);
    var p := Preorder(t, top);
    assert p == [p[0]] + p[1..];
  }

  lemma ListedInTree(t: Tree, document: Node, n: Node)
    requires t.Valid() && n in t.children
    ensures Top(t, n) in t.children && n in Listing(t, document, Top(t, n))
  {
    BelowAncestors(t, n, n, 0);
    ListingDistinct(t, document, Top(t, n));
  }

  /** In one tree the listing is document order for exactly those pairs that do not
      involve a top node other than the document. */
  lemma ListingIsDocumentOrder(t: Tree, document: Node, a: Node, b: Node)
    requires t.Valid() && a in t.children && b in t.children && a != b && Top(t, a) == Top(t, b)
    ensures var top := Top(t, a);
            && top in t.children
            && ((Ordered(Listing(t, document, top), a, b) <==> Ordered(Preorder(t, top), a, b)) <==>
                (top == document || (a != top && b != top)))
  {
    var top := Top(t, a);
    ListedInTree(t, document, a);
    ListedInTree(t, document, b);
    ListingDistinct(t, document, top);
    PreorderDistinct(t, top);
    if top != document { TopGoesLast(Preorder(t, top), a, b); }
  }

  /** A tree of two elements that is in no document. */
  const DETACHED := Tree(map[1 := [2], 2 := []], map[2 := 1], map[2 := 0], map[1 := 0, 2 := 1], 1, {1, 2},
                         map[1 := {}, 2 := {}], map[1 := "div", 2 := "p"])

  lemma DetachedIsTree()
    ensures DETACHED.Valid()
  {
  }

  /** Its top comes last. */
  lemma DetachedTopIsLast()
    ensures DETACHED.Valid() && Top(DETACHED, 1) == Top(DETACHED, 2) == 1
    ensures Ordered(Preorder(DETACHED, 1), 1, 2) && Ordered(Listing(DETACHED, 0, 1), 2, 1)
  {
    DetachedIsTree();
    hide Tree.Valid;
    assert Preorder(DETACHED, 2) == [2];
    assert PreorderFrom(DETACHED, 1, 1) == [];
    assert Preorder(DETACHED, 1) == [1, 2];
    assert Listing(DETACHED, 0, 1) == [2] + [1];
    OrderedAcross([2], [1], 2, 1);
  }

  lemma TopGoesLast(p: seq<Node>, a: Node, b: Node)
    requires p != [] && Distinct(p) && a in p && b in p && a != b
    ensures (Ordered(p[1..] + [p[0]], a, b) <==> Ordered(p, a, b)) <==> (a != p[0] && b != p[0])
  {
    var q := p[1..] + [p[0]];
    var i, j := IndexOf(p, a), IndexOf(p, b);
    var i', j' := if i == 0 then |p| - 1 else i - 1, if j == 0 then |p| - 1 else j - 1;
    assert q[i'] == a && q[j'] == b;
    assert Distinct(q);
    OrderedAt(p, i, j);
    OrderedAt(q, i', j');
  }

  lemma OrderedAt(s: seq<Node>, i: nat, j: nat)
    requires Distinct(s) && i < |s| && j < |s|
    ensures Ordered(s, s[i], s[j]) <==> i < j
  {
  }

  function At(s: seq<Node>, i: nat): Option<Node> {
    if i < |s| then Some(s[i]) else None
  }

  lemma OneMoreAlike(ap: seq<Node>, bp: seq<Node>, i: nat)
    requires i <= |ap| && i <= |bp| && ap[..i] == bp[..i] && At(ap, i) == At(bp, i)
    requires ap != [] && bp != [] && ap[|ap| - 1] != bp[|bp| - 1]
    ensures i < |ap| && i < |bp| && ap[..i + 1] == bp[..i + 1]
  {
    assert ap[..|ap|] == ap && bp[..|bp|] == bp;
    if i < |ap| && i < |bp| {
      assert ap[..i + 1] == ap[..i] + [ap[i]] && bp[..i + 1] == bp[..i] + [bp[i]];
    }
  }

  /** indexOf */
  function Find(s: seq<Node>, x: Node): (i: int)
    ensures -1 <= i < |s|
    ensures if i < 0 then x !in s else s[i] == x && x !in s[..i]
  {
    if s == [] then -1
    else if x in s[..|s| - 1] then Find(s[..|s| - 1], x)
    else if s[|s| - 1] == x then |s| - 1 else -1
  }

  // ---- nodes of different trees ---------------------------------------------------------

  /** How the comparator orders nodes of different trees. */
  function CrossOrder(t: Tree, document: Node, preferredDoc: Node, sortInput: Option<seq<Node>>, a: Node, b: Node): int
    requires t.Valid() && a in t.children && b in t.children
  {
    if a == document then -1
    else if b == document then 1
    else if a in t.parent && b !in t.parent then -1
    else if a !in t.parent && b in t.parent then 1
    else if a !in t.parent then
      if sortInput.Some? then Find(sortInput.value, a) - Find(sortInput.value, b) else 0
    else if Top(t, a) == preferredDoc then -1
    else if Top(t, b) == preferredDoc then 1
    else 0
  }

  lemma {:induction false} UpStays(t: Tree, x: Node, k: nat, l: nat)
    requires k <= l && Up(t, x, k) !in t.parent
    ensures Up(t, x, l) == Up(t, x, k)
    decreases k
  {
    if k > 0 && x in t.parent { UpStays(t, t.parent[x], k - 1, l - 1); }
  }

  /** No node is in two trees. */
  lemma TreesApart(t: Tree, a: Node, b: Node, x: Node)
    requires t.Valid() && a in t.children && b in t.children && a !in t.parent && b !in t.parent
    requires x in Preorder(t, a) && x in Preorder(t, b)
    ensures a == b
  {
    PreorderUp(t, a, x);
    PreorderUp(t, b, x);
    var k, l := t.depth[x] - t.depth[a], t.depth[x] - t.depth[b];
    if k <= l { UpStays(t, x, k, l); } else { UpStays(t, x, l, k); }
  }

  lemma TopIsTop(t: Tree, n: Node)
    requires t.Valid() && n in t.children
    ensures Top(t, n) in t.children && Top(t, n) !in t.parent && n in Preorder(t, Top(t, n))
  {
    RootFirstLinks(t, n, 0);
    BelowAncestors(t, n, n, 0);
  }

  /** What the comparator answers for two nodes. */
  ghost predicate IsOrder(t: Tree, document: Node, preferredDoc: Node, sortInput: Option<seq<Node>>,
      a: Node, b: Node, r: int)
    requires t.Valid() && a in t.children && b in t.children
  {
    && (a == b ==> r == 0)
    && (a != b && Top(t, a) != Top(t, b) ==> r == CrossOrder(t, document, preferredDoc, sortInput, a, b))
    && (a != b && Top(t, a) == Top(t, b) ==>
         && Top(t, a) in t.children && r != 0
         && (r < 0 <==> Ordered(Listing(t, document, Top(t, a)), a, b))
         && (r > 0 <==> Ordered(Listing(t, document, Top(t, a)), b, a)))
  }

  lemma OnlyTop(t: Tree, n: Node)
    requires t.Valid() && n in t.children && n !in t.parent
    ensures Top(t, n) == n
  {
  }

  // ---- the comparator as an order ---------------------------------------------------------

  datatype Ordering = Ordering(t: Tree, document: Node, preferredDoc: Node, sortInput: Option<seq<Node>>)
  {
    ghost predicate Sound() { t.Valid() && document !in t.parent }

    function Cross(a: Node, b: Node): int
      requires t.Valid() && a in t.children && b in t.children
    {
      CrossOrder(t, document, preferredDoc, sortInput, a, b)
    }
  }

  /** The comparator puts a before b. */
  ghost predicate Before(o: Ordering, a: Node, b: Node)
    requires o.Sound()
  {
    && a in o.t.children && b in o.t.children && a != b
    && if Top(o.t, a) == Top(o.t, b) then
         Top(o.t, a) in o.t.children && Ordered(Listing(o.t, o.document, Top(o.t, a)), a, b)
       else o.Cross(a, b) < 0
  }

  /** Different nodes that the comparator takes for equal: neither is the document, they are
      in different trees, and they are both top nodes, which the input does not tell apart,
      or both not, in trees other than the preferred document's. */
  ghost predicate Tied(o: Ordering, a: Node, b: Node)
    requires o.Sound()
  {
    && a in o.t.children && b in o.t.children && Top(o.t, a) != Top(o.t, b)
    && a != o.document && b != o.document
    && if a in o.t.parent then
         b in o.t.parent && Top(o.t, a) != o.preferredDoc && Top(o.t, b) != o.preferredDoc
       else
         && b !in o.t.parent
         && (o.sortInput.None? || Find(o.sortInput.value, a) == Find(o.sortInput.value, b))
  }

  /** What the sign of the comparator's answer means. */
  lemma SignIs(o: Ordering, a: Node, b: Node, r: int)
    requires o.Sound() && a in o.t.children && b in o.t.children
    requires IsOrder(o.t, o.document, o.preferredDoc, o.sortInput, a, b, r)
    ensures (r < 0 <==> Before(o, a, b)) && (r > 0 <==> Before(o, b, a)) && (r == 0 <==> a == b || Tied(o, a, b))
  {
    hide Ordered, Listing;
  }

  /** Of two different nodes one is before the other, or they are tied, and never two of
      these. */
  lemma OneOfThree(o: Ordering, a: Node, b: Node)
    requires o.Sound() && a in o.t.children && b in o.t.children && a != b
    ensures Tied(o, a, b) <==> !Before(o, a, b) && !Before(o, b, a)
    ensures !(Before(o, a, b) && Before(o, b, a)) && (Tied(o, a, b) <==> Tied(o, b, a))
  {
    hide Ordered, Listing;
    if Top(o.t, a) == Top(o.t, b) {
      ListedInTree(o.t, o.document, a);
      ListedInTree(o.t, o.document, b);
      ListingDistinct(o.t, o.document, Top(o.t, a));
      EitherOrder(Listing(o.t, o.document, Top(o.t, a)), a, b);
    }
  }

  /** The document, then the preferred document's nodes, other nodes, and other tops. */
  function Rank(o: Ordering, a: Node): nat
    requires o.t.Valid() && a in o.t.children
  {
    if a == o.document then 0
    else if a !in o.t.parent then 3
    else if Top(o.t, a) == o.preferredDoc then 1 else 2
  }

  lemma RankDecides(o: Ordering, a: Node, b: Node)
    requires o.Sound() && a in o.t.children && b in o.t.children
    ensures Rank(o, a) < Rank(o, b) ==> Before(o, a, b)
    ensures Before(o, a, b) ==> Rank(o, a) <= Rank(o, b)
    ensures Before(o, a, b) && Rank(o, a) == Rank(o, b) && Top(o.t, a) != Top(o.t, b) ==>
              && a !in o.t.parent && b !in o.t.parent && o.sortInput.Some?
              && Find(o.sortInput.value, a) < Find(o.sortInput.value, b)
    ensures Rank(o, a) == Rank(o, b) == 0 ==> a == b
  {
    hide Ordered, Listing;
    if a != b && (a !in o.t.parent || b !in o.t.parent) { TopOrder(o.t, o.document, a, b); }
  }

  lemma OrderedThrice(s: seq<Node>, a: Node, b: Node, c: Node)
    requires Distinct(s) && Ordered(s, a, b) && Ordered(s, b, c)
    ensures Ordered(s, a, c) && a != c
  {
  }

  /** The comparator's order is transitive, ties or not. */
  lemma BeforeTrans(o: Ordering, a: Node, b: Node, c: Node)
    requires o.Sound() && Before(o, a, b) && Before(o, b, c)
    ensures Before(o, a, c)
  {
    hide Ordered, Listing, CrossOrder;
    RankDecides(o, a, b);
    RankDecides(o, b, c);
    RankDecides(o, a, c);
    if Rank(o, a) == Rank(o, c) {
      if Top(o.t, a) == Top(o.t, b) && Top(o.t, b) == Top(o.t, c) {
        var top := Top(o.t, a);
        ListingDistinct(o.t, o.document, top);
        OrderedThrice(Listing(o.t, o.document, top), a, b, c);
      } else {
        TopsTrans(o, a, b, c);
      }
    }
  }

  /** Top nodes go by the input. */
  lemma TopsTrans(o: Ordering, a: Node, b: Node, c: Node)
    requires o.Sound() && Before(o, a, b) && Before(o, b, c)
    requires Rank(o, a) == Rank(o, b) == Rank(o, c) && !(Top(o.t, a) == Top(o.t, b) == Top(o.t, c))
    ensures Before(o, a, c)
  {
    hide Ordered, Listing;
    RankDecides(o, a, b);
    RankDecides(o, b, c);
    if a !in o.t.parent { OnlyTop(o.t, a); }
    if b !in o.t.parent { OnlyTop(o.t, b); }
    if c !in o.t.parent { OnlyTop(o.t, c); }
  }

  ghost predicate NoTies(o: Ordering, s: seq<Node>)
    requires o.Sound()
  {
    && (forall x | x in s :: x in o.t.children)
    && (forall x, y | x in s && y in s :: !Tied(o, x, y))
  }

  ghost predicate StrictTotal(o: Ordering, s: seq<Node>)
    requires o.Sound()
  {
    && (forall a | a in s :: !Before(o, a, a))
    && (forall a, b, c | a in s && b in s && c in s && Before(o, a, b) && Before(o, b, c) :: Before(o, a, c))
    && (forall a, b | a in s && b in s && a != b :: Before(o, a, b) || Before(o, b, a))
  }

  /** The comparator is a strict total order on nodes if and only if no two of them tie. */
  lemma TotalUnlessTied(o: Ordering, s: seq<Node>)
    requires o.Sound() && forall x | x in s :: x in o.t.children
    ensures StrictTotal(o, s) <==> NoTies(o, s)
  {
    hide Before, Tied;
    forall a | a in s ensures !Before(o, a, a) && !Tied(o, a, a) { NotBeforeSelf(o, a); }
    forall a, b | a in s && b in s && a != b ensures Tied(o, a, b) <==> !Before(o, a, b) && !Before(o, b, a) {
      OneOfThree(o, a, b);
    }
    forall a, b, c | a in s && b in s && c in s && Before(o, a, b) && Before(o, b, c) ensures Before(o, a, c) {
      BeforeTrans(o, a, b, c);
    }
  }

  lemma NotBeforeSelf(o: Ordering, a: Node)
    requires o.Sound()
    ensures !Before(o, a, a) && !Tied(o, a, a)
  {
  }

  // ---- two trees ------------------------------------------------------------------------------

  /** The document's tree, then one other. */
  function Whole(t: Tree, document: Node, other: Node): seq<Node>
    requires t.Valid() && other in t.children
  {
    (if other == document || document !in t.children then [] else Preorder(t, document)) + Listing(t, document, other)
  }

  lemma WholeDistinct(t: Tree, document: Node, other: Node)
    requires t.Valid() && document !in t.parent && other in t.children && other !in t.parent
    ensures Distinct(Whole(t, document, other))
  {
    ListingDistinct(t, document, other);
    if other != document && document in t.children {
      PreorderDistinct(t, document);
      forall x | x in Preorder(t, document) ensures x !in Listing(t, document, other) {
        if x in Preorder(t, other) { TreesApart(t, document, other, x); }
      }
      DistinctConcat(Preorder(t, document), Listing(t, document, other));
    } else {
      assert [] + Listing(t, document, other) == Listing(t, document, other);
    }
  }

  lemma InWhole(t: Tree, document: Node, other: Node, x: Node)
    requires t.Valid() && other in t.children && x in t.children && (Top(t, x) == other || Top(t, x) == document)
    ensures x in Whole(t, document, other)
  {
    ListedInTree(t, document, x);
    TopIsTop(t, x);
  }

  /** In the document's tree and one other. */
  ghost predicate Within(t: Tree, document: Node, preferredDoc: Node, other: Node, x: Node)
    requires t.Valid()
  {
    x in t.children && (Top(t, x) == other || (Top(t, x) == document && preferredDoc == document))
  }

  /** Over both trees the comparator's order is that of one list. */
  lemma FollowsWhole(o: Ordering, other: Node, a: Node, b: Node)
    requires o.Sound() && other in o.t.children && other !in o.t.parent
    requires Within(o.t, o.document, o.preferredDoc, other, a) && Within(o.t, o.document, o.preferredDoc, other, b)
    ensures var s := Whole(o.t, o.document, other);
            a in s && b in s && (Before(o, a, b) <==> Ordered(s, a, b)) && !Tied(o, a, b)
  {
    hide Ordered, Whole, Listing, CrossOrder, Top, Distinct;
    var t, document := o.t, o.document;
    var s := Whole(t, document, other);
    InWhole(t, document, other, a);
    InWhole(t, document, other, b);
    WholeDistinct(t, document, other);
    if a == b {
      NotBeforeItself(s, a);
    } else {
      EitherOrder(s, a, b);
      OneOfThree(o, a, b);
      if Top(t, a) == Top(t, b) {
        TopIsTop(t, a);
        if Before(o, a, b) {
          OrderedInWhole(t, document, other, a, b);
        } else {
          OrderedInWhole(t, document, other, b, a);
        }
      } else {
        AcrossWhole(o, other, a, b);
      }
    }
  }

  lemma NotBeforeItself(s: seq<Node>, a: Node)
    requires Distinct(s)
    ensures !Ordered(s, a, a)
  {
  }

  lemma OrderedInWhole(t: Tree, document: Node, other: Node, a: Node, b: Node)
    requires t.Valid() && other in t.children && a in t.children
    requires Top(t, a) in t.children && Ordered(Listing(t, document, Top(t, a)), a, b)
    requires Top(t, a) == other || Top(t, a) == document
    ensures Ordered(Whole(t, document, other), a, b)
  {
    hide Preorder, Listing, Ordered;
    var v, whole := Listing(t, document, other), Whole(t, document, other);
    var u := if other == document || document !in t.children then [] else Preorder(t, document);
    if Top(t, a) == other {
      OrderedWithin(u, v, [], a, b);
      assert whole == u + v + [];
    } else {
      ListingOfDocument(t, document);
      OrderedWithin([], u, v, a, b);
      assert whole == [] + u + v;
    }
  }

  lemma ListingOfDocument(t: Tree, document: Node)
    requires t.Valid() && document in t.children
    ensures Listing(t, document, document) == Preorder(t, document)
  {
  }

  lemma AcrossWhole(o: Ordering, other: Node, a: Node, b: Node)
    requires o.Sound() && other in o.t.children && other !in o.t.parent
    requires Within(o.t, o.document, o.preferredDoc, other, a) && Within(o.t, o.document, o.preferredDoc, other, b)
    requires Top(o.t, a) != Top(o.t, b)
    ensures o.Cross(a, b) != 0 && !Tied(o, a, b)
    ensures var (first, second) := if o.Cross(a, b) < 0 then (a, b) else (b, a);
            Ordered(Whole(o.t, o.document, other), first, second)
  {
    var t, document := o.t, o.document;
    TopIsTop(t, a);
    TopIsTop(t, b);
    ListedInTree(t, document, a);
    ListedInTree(t, document, b);
    if a !in t.parent { OnlyTop(t, a); }
    if b !in t.parent { OnlyTop(t, b); }
    if Top(t, a) == document {
      OrderedAcross(Preorder(t, document), Listing(t, document, other), a, b);
    } else {
      OrderedAcross(Preorder(t, document), Listing(t, document, other), b, a);
    }
  }

  /** Two nodes that are in no document, nor in one tree. */
  const APART := Tree(map[1 := [], 2 := []], map[], map[], map[1 := 0, 2 := 0], 0, {1, 2},
                      map[1 := {}, 2 := {}], map[1 := "p", 2 := "p"])

  /** The comparator takes them for equal. */
  lemma ApartIsTied()
    ensures var o := Ordering(APART, 0, 0, None); o.Sound() && Tied(o, 1, 2) && o.Cross(1, 2) == 0
  {
  }

  class Sorter {
    var hasDuplicate: bool
    const document: Node
    const preferredDoc: Node

    constructor (document: Node, preferredDoc: Node)
      ensures this.document == document && this.preferredDoc == preferredDoc && !hasDuplicate
    {
      this.document, this.preferredDoc, hasDuplicate := document, preferredDoc, false;
    }

    /** Order of two siblings; a missing node is an ancestor list that has run out. */
    method SiblingCheck(t: Tree, a: Option<Node>, b: Option<Node>) returns (r: int)
      requires t.Valid()
      ensures a.None? ==> r == -1
      ensures a.Some? && b.None? ==> r == 1
      ensures a.Some? && b.Some? && a != b && a.value in t.parent && b.value in t.parent
              && t.parent[a.value] == t.parent[b.value] ==>
              && a.value in t.index && b.value in t.index && t.index[a.value] != t.index[b.value]
              && r == if t.index[a.value] < t.index[b.value] then -1 else 1
    {
      if b.Some? && a.Some? {
        var cur := a.value;
        if a.value in t.parent { assert t.Attached(a.value); }
        if b.value in t.parent { assert t.Attached(b.value); }
        while t.NextSibling(cur).Some?
          invariant cur == a.value ||
            (a.value in t.parent && cur in t.parent && t.parent[cur] == t.parent[a.value] && t.Attached(cur)
             && a.value in t.index && t.index[a.value] < t.index[cur])
          invariant (b.value in t.parent && a.value in t.parent && t.parent[a.value] == t.parent[b.value]
                     && a != b && t.index[a.value] < t.index[b.value]) ==> t.index[cur] < t.index[b.value]
          decreases if cur in t.parent && cur in t.index && t.parent[cur] in t.children
                    then |t.children[t.parent[cur]]| - t.index[cur] else 0
        {
          assert t.Linked(t.parent[cur], t.index[cur] + 1);
          cur := t.NextSibling(cur).value;
          assert t.Attached(cur);
          if cur == b.value { return -1; }
        }
      }
      r := if a.Some? then 1 else -1;
    }

    method AncestorList(t: Tree, n: Node) returns (up: seq<Node>)
      requires t.Valid() && n in t.children
      ensures up == RootFirst(t, n)
    {
      var cur := n;
      up := [n];
      while t.ParentNode(cur).Some?
        invariant cur in t.children && up != [] && up[0] == cur
        invariant RootFirst(t, n) == RootFirst(t, cur) + up[1..]
        decreases t.depth[cur]
      {
        assert t.Attached(cur);
        var p := t.ParentNode(cur).value;
        assert RootFirst(t, cur) + up[1..] == RootFirst(t, p) + ([cur] + up[1..]);
        cur := p;
        up := [cur] + up;
      }
    }

    /** Where two lists with different ends first differ. */
    method FirstDifference(ap: seq<Node>, bp: seq<Node>) returns (i: nat)
      requires ap != [] && bp != [] && ap[|ap| - 1] != bp[|bp| - 1]
      ensures i <= |ap| && i <= |bp| && ap[..i] == bp[..i] && At(ap, i) != At(bp, i)
    {
      i := 0;
      while At(ap, i) == At(bp, i)
        invariant i <= |ap| && i <= |bp| && ap[..i] == bp[..i]
        decreases |ap| - i
      {
        OneMoreAlike(ap, bp, i);
        i := i + 1;
      }
    }

    /** The comparator. Within one tree it follows the listing above, so it is a strict
        total order there; nodes of different trees it orders by what they are. */
    method SortOrder(t: Tree, sortInput: Option<seq<Node>>, a: Node, b: Node) returns (r: int)
      requires t.Valid() && a in t.children && b in t.children && document !in t.parent
      modifies this`hasDuplicate
      ensures hasDuplicate == (old(hasDuplicate) || a == b)
      ensures IsOrder(t, document, preferredDoc, sortInput, a, b, r)
    {
      hide Ordered, Listing;
      if a == b {
        hasDuplicate := true;
        return 0;
      }
      var aup, bup := t.ParentNode(a), t.ParentNode(b);
      if aup.None? || bup.None? {
        TopOrder(t, document, a, b);
        r := if a == document then -1
             else if b == document then 1
             else if aup.Some? then -1
             else if bup.Some? then 1
             else if sortInput.Some? then Find(sortInput.value, a) - Find(sortInput.value, b)
             else 0;
        return;
      }
      if aup == bup {
        assert t.Attached(a) && t.Attached(b);
        r := SiblingCheck(t, Some(a), Some(b));
        InnerOrder(t, document, a, b, |RootFirst(t, a)| - 1);
        return;
      }
      var ap := AncestorList(t, a);
      var bp := AncestorList(t, b);
      var i := FirstDifference(ap, bp);
      if i > 0 {
        InnerOrder(t, document, a, b, i);
        r := SiblingCheck(t, At(ap, i), At(bp, i));
      } else {
        r := if At(ap, i) == Some(preferredDoc) then -1 else if At(bp, i) == Some(preferredDoc) then 1 else 0;
      }
    }

    function OrderOf(t: Tree, sortInput: Option<seq<Node>>): Ordering {
      Ordering(t, document, preferredDoc, sortInput)
    }

    /** Array.prototype.sort is the host's. Any comparison sort will do; what the engine
        relies on is this contract: a permutation in the comparator's order, found while
        comparing two equal nodes at least once if there were any. */
    method HostSort(t: Tree, sortInput: Option<seq<Node>>, results: seq<Node>) returns (s: seq<Node>)
      requires OrderOf(t, sortInput).Sound() && NoTies(OrderOf(t, sortInput), results)
      modifies this`hasDuplicate
      ensures multiset(s) == multiset(results)
      ensures Ascends(OrderOf(t, sortInput), s)
      ensures !Distinct(s) ==> hasDuplicate
    {
      hide Before, Tied, NoTies;
      s := [];
      for i := 0 to |results|
        invariant multiset(s) == multiset(results[..i])
        invariant Ascends(OrderOf(t, sortInput), s)
        invariant !Distinct(s) ==> hasDuplicate
      {
        assert results[..i + 1] == results[..i] + [results[i]];
        FewerTies(OrderOf(t, sortInput), results, i, s);
        s := Insert(t, sortInput, s, results[i]);
      }
      assert results[..|results|] == results;
    }

    method Insert(t: Tree, sortInput: Option<seq<Node>>, s: seq<Node>, x: Node) returns (u: seq<Node>)
      requires OrderOf(t, sortInput).Sound() && Ascends(OrderOf(t, sortInput), s)
      requires NoTies(OrderOf(t, sortInput), s + [x])
      requires !Distinct(s) ==> hasDuplicate
      modifies this`hasDuplicate
      ensures multiset(u) == multiset(s) + multiset{x}
      ensures Ascends(OrderOf(t, sortInput), u)
      ensures !Distinct(u) ==> hasDuplicate
    {
      hide Before, Tied, Distinct, Ascends;
      ghost var o := OrderOf(t, sortInput);
      var k := |s|;
      while k > 0
        invariant 0 <= k <= |s|
        invariant !Distinct(s) ==> hasDuplicate
        invariant forall j | k <= j < |s| :: Before(o, x, s[j])
      {
        assert s[k - 1] in s + [x] && x in s + [x];
        var c := Compare(t, sortInput, s[k - 1], x);
        if c <= 0 { break; }
        k := k - 1;
      }
      assert x in s + [x];
      InsertAscends(o, s, k, x);
      InsertedMembers(s, k, x);
      if !hasDuplicate { InsertDistinct(o, s, k, x); }
      u := s[..k] + [x] + s[k..];
    }

    /** The comparator, between nodes that do not tie. */
    method Compare(t: Tree, sortInput: Option<seq<Node>>, a: Node, b: Node) returns (r: int)
      requires var o := OrderOf(t, sortInput);
               o.Sound() && a in t.children && b in t.children && !Tied(o, a, b)
      modifies this`hasDuplicate
      ensures hasDuplicate == (old(hasDuplicate) || a == b)
      ensures var o := OrderOf(t, sortInput);
              (r == 0 <==> a == b) && (r < 0 <==> Before(o, a, b)) && (r > 0 <==> Before(o, b, a))
    {
      hide Before, Tied, IsOrder;
      r := SortOrder(t, sortInput, a, b);
      SignIs(OrderOf(t, sortInput), a, b, r);
    }

    /** Sort, then drop every node that repeats its predecessor. The result lists each
        node of the input once, in order. A sort that is not stable compares by the input
        where nothing else decides. */
    method UniqueSort(t: Tree, results: seq<Node>, detectDuplicates: bool, sortStable: bool) returns (r: seq<Node>)
      requires var o := OrderOf(t, if sortStable then None else Some(results)); o.Sound() && NoTies(o, results)
      modifies this`hasDuplicate
      ensures Rises(OrderOf(t, if sortStable then None else Some(results)), r)
      ensures forall x :: x in r <==> x in results
    {
      hide Before, Tied, NoTies, Ascends, Rises, Kept;
      hasDuplicate := !detectDuplicates;
      var sortInput := if sortStable then None else Some(results);
      r := HostSort(t, sortInput, results);
      SameMembers(results, r);
      SameKept(r);
      KeptRises(OrderOf(t, sortInput), r);
      if hasDuplicate {
        r := DropRepeats(r);
      } else {
        KeepsAll(r);
      }
    }
  }

  lemma SameMembers(a: seq<Node>, b: seq<Node>)
    requires multiset(a) == multiset(b)
    ensures forall x :: x in b <==> x in a
  {
    assert forall x :: x in a <==> x in multiset(a);
    assert forall x :: x in b <==> x in multiset(b);
  }

  lemma KeepsAll(s: seq<Node>)
    requires Distinct(s)
    ensures Kept(s, 0) == s
  {
    NoRepeats(s, 0, |s|);
    assert s[0..|s|] + [] == s;
  }

  /** The two orders exclude each other. */
  lemma EitherOrder(s: seq<Node>, a: Node, b: Node)
    requires Distinct(s) && a in s && b in s && a != b
    ensures Ordered(s, a, b) <==> !Ordered(s, b, a)
  {
  }

  /** A pair of which one node is the top of their tree. */
  lemma TopOrder(t: Tree, document: Node, a: Node, b: Node)
    requires t.Valid() && a in t.children && b in t.children && a != b
    requires a !in t.parent || b !in t.parent
    ensures Top(t, a) == Top(t, b) ==>
            && Top(t, a) in t.children
            && (a in t.parent <==> b !in t.parent)
            && (Ordered(Listing(t, document, Top(t, a)), a, b) <==>
                  (a == document || (b !in t.parent && b != document)))
            && (Ordered(Listing(t, document, Top(t, a)), b, a) <==>
                  (b == document || (a !in t.parent && a != document)))
  {
    if Top(t, a) == Top(t, b) {
      var top := Top(t, a);
      ListedInTree(t, document, a);
      ListedInTree(t, document, b);
      ListingDistinct(t, document, top);
      var s := Listing(t, document, top);
      var k := if top == document then 0 else |s| - 1;
      assert s[k] == top;
      OrderedAt(s, IndexOf(s, a), IndexOf(s, b));
      EitherOrder(s, a, b);
    }
  }

  /** A pair below the top: where their ancestor lists part decides. */
  lemma InnerOrder(t: Tree, document: Node, a: Node, b: Node, i: nat)
    requires t.Valid() && a in t.parent && b in t.parent && a != b && a in t.children && b in t.children
    requires var ap, bp := RootFirst(t, a), RootFirst(t, b);
             0 < i <= |ap| && i <= |bp| && ap[..i] == bp[..i] && At(ap, i) != At(bp, i)
    ensures var top, x, y := Top(t, a), At(RootFirst(t, a), i), At(RootFirst(t, b), i);
            && top == Top(t, b) && top in t.children
            && (x.Some? && y.Some? ==>
                 && x.value in t.parent && y.value in t.parent && x.value in t.index && y.value in t.index
                 && t.parent[x.value] == t.parent[y.value] && t.index[x.value] != t.index[y.value])
            && (Ordered(Listing(t, document, top), a, b) <==>
                 x.None? || (y.Some? && t.index[x.value] < t.index[y.value]))
            && (Ordered(Listing(t, document, top), b, a) <==>
                 y.None? || (x.Some? && t.index[y.value] < t.index[x.value]))
  {
    var ap, bp := RootFirst(t, a), RootFirst(t, b);
    assert ap[0] == ap[..i][0] == bp[0];
    var top := ap[0];
    if i < |ap| && i < |bp| {
      RootFirstLinks(t, a, i);
      RootFirstLinks(t, b, i);
      assert ap[i - 1] == ap[..i][i - 1] == bp[i - 1];
      assert t.Attached(ap[i]) && t.Attached(bp[i]);
    }
    ListedInTree(t, document, a);
    ListedInTree(t, document, b);
    RootFirstLinks(t, a, 0);
    ListingDistinct(t, document, top);
    ListingIsDocumentOrder(t, document, a, b);
    ListingIsDocumentOrder(t, document, b, a);
    EitherOrder(Listing(t, document, top), a, b);
    if i == |ap| || (i < |bp| && t.index[ap[i]] < t.index[bp[i]]) {
      DivergenceOrders(t, a, b, i);
    } else {
      DivergenceOrders(t, b, a, i);
    }
  }

  // ---- sorting and dropping repeats ---------------------------------------------------

  /** Each node is before or equal to those after it. */
  ghost predicate Ascends(o: Ordering, s: seq<Node>)
    requires o.Sound()
  {
    && (forall x | x in s :: x in o.t.children)
    && forall i, j | 0 <= i < j < |s| :: s[i] == s[j] || Before(o, s[i], s[j])
  }

  /** Each node is before those after it. */
  ghost predicate Rises(o: Ordering, s: seq<Node>)
    requires o.Sound()
  {
    && (forall x | x in s :: x in o.t.children)
    && forall i, j | 0 <= i < j < |s| :: Before(o, s[i], s[j])
  }

  lemma FewerTies(o: Ordering, results: seq<Node>, i: nat, s: seq<Node>)
    requires o.Sound() && NoTies(o, results) && i < |results| && multiset(s) == multiset(results[..i])
    ensures NoTies(o, s + [results[i]]) && results[i] in o.t.children
  {
    hide Tied;
    forall x | x in s + [results[i]] ensures x in results {
      if x in s {
        assert x in multiset(results[..i]);
        assert x in results[..i];
      }
    }
  }

  /** Everything up to k is before x, or equal to it at the end. */
  lemma UpTo(o: Ordering, s: seq<Node>, k: nat, x: Node, i: nat)
    requires o.Sound() && Ascends(o, s) && i < k <= |s| && (s[k - 1] == x || Before(o, s[k - 1], x))
    ensures s[i] == x || Before(o, s[i], x)
  {
    hide Before;
    if i < k - 1 && s[i] != s[k - 1] && s[k - 1] != x { BeforeTrans(o, s[i], s[k - 1], x); }
  }

  lemma InsertAscends(o: Ordering, s: seq<Node>, k: nat, x: Node)
    requires o.Sound() && Ascends(o, s) && k <= |s| && x in o.t.children
    requires forall j | k <= j < |s| :: Before(o, x, s[j])
    requires k > 0 ==> s[k - 1] == x || Before(o, s[k - 1], x)
    ensures Ascends(o, s[..k] + [x] + s[k..])
  {
    hide Before;
    var u := s[..k] + [x] + s[k..];
    forall i, j | 0 <= i < j < |u| ensures u[i] == u[j] || Before(o, u[i], u[j]) {
      if j == k { UpTo(o, s, k, x, i); }
    }
  }

  lemma InsertDistinct(o: Ordering, s: seq<Node>, k: nat, x: Node)
    requires o.Sound() && Ascends(o, s) && Distinct(s) && k <= |s|
    requires forall j | k <= j < |s| :: Before(o, x, s[j])
    requires k > 0 ==> Before(o, s[k - 1], x)
    ensures Distinct(s[..k] + [x] + s[k..])
  {
    forall i | 0 <= i < |s| ensures s[i] != x {
      if i < k - 1 { BeforeTrans(o, s[i], s[k - 1], x); }
    }
    assert Distinct(s);
    DistinctWith(s, k, x);
  }

  lemma DistinctWith(s: seq<Node>, k: nat, x: Node)
    requires Distinct(s) && k <= |s| && forall i | 0 <= i < |s| :: s[i] != x
    ensures Distinct(s[..k] + [x] + s[k..])
  {
  }

  lemma InsertedMembers(s: seq<Node>, k: nat, x: Node)
    requires k <= |s|
    ensures forall y | y in s[..k] + [x] + s[k..] :: y in s || y == x
    ensures multiset(s[..k] + [x] + s[k..]) == multiset(s) + multiset{x}
  {
    assert s == s[..k] + s[k..];
  }

  /** s[k] repeats its predecessor. */
  predicate Repeats(s: seq<Node>, k: nat)
    requires k < |s|
  {
    k > 0 && s[k - 1] == s[k]
  }

  function Kept(s: seq<Node>, k: nat): seq<Node>
    requires k <= |s|
    decreases |s| - k
  {
    if k == |s| then [] else (if Repeats(s, k) then [] else [s[k]]) + Kept(s, k + 1)
  }

  lemma {:induction false} NoRepeats(s: seq<Node>, lo: nat, hi: nat)
    requires lo <= hi <= |s| && forall k | lo <= k < hi :: !Repeats(s, k)
    ensures Kept(s, lo) == s[lo..hi] + Kept(s, hi)
    decreases hi - lo
  {
    if lo < hi { NoRepeats(s, lo + 1, hi); }
  }

  /** The places that repeat, in increasing order. */
  ghost predicate AreRepeats(s: seq<Node>, places: seq<nat>) {
    && (forall k | 0 <= k < |places| :: places[k] < |s| && Repeats(s, places[k]))
    && (forall k, l | 0 <= k < l < |places| :: places[k] < places[l])
    && (forall k | 0 <= k < |s| && Repeats(s, k) :: k in places)
  }

  method FindRepeats(results: seq<Node>) returns (duplicates: seq<nat>)
    ensures AreRepeats(results, duplicates)
  {
    duplicates := [];
    var i := 0;
    while i < |results|
      invariant 0 <= i <= |results|
      invariant forall k | 0 <= k < |duplicates| ::
        duplicates[k] <= i && duplicates[k] < |results| && Repeats(results, duplicates[k])
      invariant forall k, l | 0 <= k < l < |duplicates| :: duplicates[k] < duplicates[l]
      invariant forall k: nat | k < |results| && k <= i && Repeats(results, k) :: k in duplicates
    {
      var elem := results[i];
      i := i + 1;
      if i < |results| && elem == results[i] {
        duplicates := duplicates + [i];
      }
    }
  }

  /** Collect the places that repeat, then splice them out from the last to the first. */
  method DropRepeats(results: seq<Node>) returns (r: seq<Node>)
    ensures r == Kept(results, 0)
  {
    var duplicates := FindRepeats(results);
    r := results;
    var j := |duplicates|;
    ghost var bound := |results|;
    while j > 0
      invariant 0 <= j <= |duplicates|
      invariant bound == if j == |duplicates| then |results| else duplicates[j]
      invariant r == results[..bound] + Kept(results, bound)
    {
      j := j - 1;
      var d := duplicates[j];
      BetweenRepeats(results, duplicates, j, d + 1, bound);
      assert r == results[..d + 1] + Kept(results, d + 1);
      Splice(results, r, d);
      r := r[..d] + r[d + 1..];
      bound := d;
    }
    BetweenRepeats(results, duplicates, -1, 0, bound);
  }

  lemma Splice(s: seq<Node>, r: seq<Node>, d: nat)
    requires d < |s| && Repeats(s, d) && r == s[..d + 1] + Kept(s, d + 1)
    ensures d < |r| && r[..d] + r[d + 1..] == s[..d] + Kept(s, d)
  {
  }

  /** Between two neighbouring places nothing repeats. */
  lemma BetweenRepeats(s: seq<Node>, places: seq<nat>, j: int, lo: nat, hi: nat)
    requires AreRepeats(s, places) && -1 <= j < |places|
    requires lo == if j < 0 then 0 else places[j] + 1
    requires hi == if j + 1 == |places| then |s| else places[j + 1]
    ensures lo <= hi <= |s| && Kept(s, lo) == s[lo..hi] + Kept(s, hi)
  {
    forall k | lo <= k < hi ensures !Repeats(s, k) {
      assert k !in places;
    }
    NoRepeats(s, lo, hi);
  }

  /** The members of s, in the order of the listing. */
  function Among(listing: seq<Node>, s: set<Node>): seq<Node> {
    if listing == [] then []
    else Among(listing[..|listing| - 1], s) + if listing[|listing| - 1] in s then [listing[|listing| - 1]] else []
  }

  ghost predicate Increasing(listing: seq<Node>, s: seq<Node>) {
    && (forall x | x in s :: x in listing)
    && (forall i, j | 0 <= i < j < |s| :: IndexOf(listing, s[i]) < IndexOf(listing, s[j]))
  }

  lemma {:induction false} KeptWithin(s: seq<Node>, k: nat)
    requires k <= |s|
    ensures forall x | x in Kept(s, k) :: x in s[k..]
    decreases |s| - k
  {
    if k < |s| { KeptWithin(s, k + 1); }
  }

  lemma {:induction false} KeptHolds(s: seq<Node>, k: nat, x: Node)
    requires k <= |s| && x in s[k..]
    ensures x in Kept(s, k) || (k > 0 && s[k - 1] == x)
    decreases |s| - k
  {
    if s[k] != x { KeptHolds(s, k + 1, x); }
  }

  lemma KeptOrAfter(s: seq<Node>, k: nat, x: Node)
    requires k < |s| && x in Kept(s, k)
    ensures x in Kept(s, k + 1) || (x == s[k] && !Repeats(s, k))
  {
  }

  /** What is kept comes after what went before. */
  lemma {:induction false} KeptAfter(o: Ordering, s: seq<Node>, k: nat)
    requires o.Sound() && Ascends(o, s) && 0 < k <= |s|
    ensures forall x | x in Kept(s, k) :: Before(o, s[k - 1], x)
    decreases |s| - k
  {
    hide Before;
    if k < |s| {
      KeptAfter(o, s, k + 1);
      forall x | x in Kept(s, k) ensures Before(o, s[k - 1], x) {
        KeptOrAfter(s, k, x);
        if s[k - 1] != s[k] && x in Kept(s, k + 1) { BeforeTrans(o, s[k - 1], s[k], x); }
      }
    }
  }

  lemma {:induction false} KeptRisesFrom(o: Ordering, s: seq<Node>, k: nat)
    requires o.Sound() && Ascends(o, s) && k <= |s|
    ensures Rises(o, Kept(s, k))
    decreases |s| - k
  {
    hide Before, Ascends, Rises, Repeats;
    if k < |s| {
      KeptRisesFrom(o, s, k + 1);
      KeptAfter(o, s, k + 1);
      Listed(o, s, k);
      var rest := Kept(s, k + 1);
      RisesCons(o, s[k], rest);
      assert Kept(s, k) == [s[k]] + rest || Kept(s, k) == [] + rest == rest;
    } else {
      NothingRises(o);
    }
  }

  lemma Listed(o: Ordering, s: seq<Node>, k: nat)
    requires o.Sound() && Ascends(o, s) && k < |s|
    ensures s[k] in o.t.children
  {
    assert s[k] in s;
  }

  lemma NothingRises(o: Ordering)
    requires o.Sound()
    ensures Rises(o, [])
  {
  }

  lemma RisesCons(o: Ordering, x: Node, s: seq<Node>)
    requires o.Sound() && Rises(o, s) && x in o.t.children && forall y | y in s :: Before(o, x, y)
    ensures Rises(o, [x] + s)
  {
    hide Before;
    assert forall i | 0 <= i < |s| :: s[i] in s;
  }

  lemma KeptRises(o: Ordering, s: seq<Node>)
    requires o.Sound() && Ascends(o, s)
    ensures Rises(o, Kept(s, 0))
  {
    KeptRisesFrom(o, s, 0);
  }

  /** A rising list holds nothing twice. */
  lemma RisesDistinct(o: Ordering, s: seq<Node>)
    requires o.Sound() && Rises(o, s)
    ensures Distinct(s)
  {
  }

  lemma SameKept(s: seq<Node>)
    ensures forall x :: x in Kept(s, 0) <==> x in s
  {
    assert s[0..] == s;
    KeptWithin(s, 0);
    forall x | x in s ensures x in Kept(s, 0) { KeptHolds(s, 0, x); }
  }

  /** There is one rising list of the same nodes. */
  lemma {:induction false} RisingIsOne(o: Ordering, s: seq<Node>, r: seq<Node>)
    requires o.Sound() && Rises(o, s) && Rises(o, r) && forall x :: x in s <==> x in r
    ensures s == r
    decreases |s|
  {
    hide Before;
    if s == [] {
      NoMembers(r, s);
    } else {
      SameFirst(o, s, r);
      SameTail(o, s, r);
      RisingIsOne(o, s[1..], r[1..]);
      assert s == [s[0]] + s[1..] && r == [r[0]] + r[1..];
    }
  }

  lemma SameFirst(o: Ordering, s: seq<Node>, r: seq<Node>)
    requires o.Sound() && Rises(o, s) && Rises(o, r) && s != [] && forall x :: x in s <==> x in r
    ensures r != [] && s[0] == r[0]
  {
    hide Before;
    assert s[0] in r && r[0] in s;
    var k :| 0 <= k < |r| && r[k] == s[0];
    var l :| 0 <= l < |s| && s[l] == r[0];
    if k > 0 && l > 0 {
      NotBeforeSelf(o, s[0]);
      OneOfThree(o, r[0], s[0]);
    }
  }

  lemma SameTail(o: Ordering, s: seq<Node>, r: seq<Node>)
    requires o.Sound() && Rises(o, s) && Rises(o, r) && s != [] && r != [] && s[0] == r[0]
    requires forall x :: x in s <==> x in r
    ensures Rises(o, s[1..]) && Rises(o, r[1..]) && forall x :: x in s[1..] <==> x in r[1..]
  {
    hide Before;
    RisesDistinct(o, s);
    RisesDistinct(o, r);
    HeadAndTail(s);
    HeadAndTail(r);
  }

  lemma HeadAndTail(s: seq<Node>)
    requires Distinct(s) && s != []
    ensures forall x :: x in s[1..] <==> x in s && x != s[0]
  {
    assert s == [s[0]] + s[1..];
  }

  /** In the document's tree and one other, a rising list is what it holds of the list of
      both, in that order; so there is just one. */
  lemma RisesInWhole(o: Ordering, other: Node, s: seq<Node>, members: set<Node>)
    requires o.Sound() && Rises(o, s) && other in o.t.children && other !in o.t.parent
    requires forall x :: x in s <==> x in members
    requires forall x | x in s :: Within(o.t, o.document, o.preferredDoc, other, x)
    ensures s == Among(Whole(o.t, o.document, other), members)
  {
    hide Before, Within, Ordered, Whole;
    var whole := Whole(o.t, o.document, other);
    WholeDistinct(o.t, o.document, other);
    forall x | x in s ensures x in whole { FollowsWhole(o, other, x, x); }
    forall i, j | 0 <= i < j < |s| ensures IndexOf(whole, s[i]) < IndexOf(whole, s[j]) {
      assert s[i] in s && s[j] in s;
      FollowsWhole(o, other, s[i], s[j]);
      OrderedAt(whole, IndexOf(whole, s[i]), IndexOf(whole, s[j]));
    }
    IncreasingIsAmong(whole, s, members);
  }

  // ---- what a tie does ------------------------------------------------------------------------

  /** A list that a sort by the comparator may return: nothing is before what precedes it. */
  ghost predicate NotDescending(o: Ordering, s: seq<Node>)
    requires o.Sound()
  {
    forall i, j | 0 <= i < j < |s| :: !Before(o, s[j], s[i])
  }

  lemma SortedAscends(o: Ordering, s: seq<Node>)
    requires o.Sound() && NotDescending(o, s) && NoTies(o, s)
    ensures Ascends(o, s)
  {
    hide Before, Tied;
    forall i, j | 0 <= i < j < |s| ensures s[i] == s[j] || Before(o, s[i], s[j]) {
      assert s[i] in s && s[j] in s;
      if s[i] != s[j] { OneOfThree(o, s[i], s[j]); }
    }
  }

  /** Of two nodes, one of them twice, every sort drops the repeat if and only if they do
      not tie. */
  lemma TieKeepsRepeat(o: Ordering, a: Node, b: Node)
    requires o.Sound() && a in o.t.children && b in o.t.children && a != b
    ensures (forall s | multiset(s) == multiset([a, b, a]) && NotDescending(o, s) :: Distinct(Kept(s, 0))) <==>
            !Tied(o, a, b)
  {
    hide Before, Tied, Kept;
    OneOfThree(o, a, b);
    NotBeforeSelf(o, a);
    NotBeforeSelf(o, b);
    if Tied(o, a, b) {
      var s := [a, b, a];
      assert multiset(s) == multiset([a, b, a]) && NotDescending(o, s);
      NothingAdjacent(a, b);
    } else {
      forall s | multiset(s) == multiset([a, b, a]) && NotDescending(o, s) ensures Distinct(Kept(s, 0)) {
        forall x | x in s ensures x == a || x == b { assert x in multiset([a, b, a]); }
        SortedAscends(o, s);
        KeptRises(o, s);
        RisesDistinct(o, Kept(s, 0));
      }
    }
  }

  lemma NothingAdjacent(a: Node, b: Node)
    requires a != b
    ensures Kept([a, b, a], 0) == [a, b, a] && !Distinct([a, b, a])
  {
    NoRepeats([a, b, a], 0, 3);
    assert [a, b, a][0..3] + [] == [a, b, a];
    assert [a, b, a][0] == [a, b, a][2];
  }

  /** Two nodes of no document, one of them twice: this order is the comparator's, and the
      repeat stays. */
  lemma RepeatStays()
    ensures var o, s := Ordering(APART, 0, 0, None), [1, 2, 1];
            o.Sound() && Tied(o, 1, 2) && NotDescending(o, s) && Kept(s, 0) == s && !Distinct(s)
  {
    var o := Ordering(APART, 0, 0, None);
    ApartIsTied();
    OneOfThree(o, 1, 2);
    NotBeforeSelf(o, 1);
    NothingAdjacent(1, 2);
  }

  /** A strictly increasing list is fixed by its members. */
  lemma {:induction false} IncreasingIsAmong(listing: seq<Node>, s: seq<Node>, members: set<Node>)
    requires Distinct(listing) && Increasing(listing, s)
    requires forall x | x in listing :: x in s <==> x in members
    ensures s == Among(listing, members)
  {
    if listing == [] {
      NoMembers(s, listing);
    } else {
      var last := listing[|listing| - 1];
      if last in members {
        LastIsLast(listing, s);
        InFront(listing, s[..|s| - 1]);
        IncreasingIsAmong(listing[..|listing| - 1], s[..|s| - 1], members);
      } else {
        InFront(listing, s);
        IncreasingIsAmong(listing[..|listing| - 1], s, members);
      }
    }
  }

  lemma NoMembers(s: seq<Node>, t: seq<Node>)
    requires forall x | x in s :: x in t
    ensures s != [] ==> t != []
  {
    if s != [] { assert s[0] in t; }
  }

  /** A list without the last entry of the listing lies within the rest of it. */
  lemma InFront(listing: seq<Node>, s: seq<Node>)
    requires listing != [] && Distinct(listing) && Increasing(listing, s)
    requires listing[|listing| - 1] !in s
    ensures Distinct(listing[..|listing| - 1]) && Increasing(listing[..|listing| - 1], s)
    ensures forall x | x in listing[..|listing| - 1] :: x in listing && x != listing[|listing| - 1]
  {
  }

  lemma LastIsLast(listing: seq<Node>, s: seq<Node>)
    requires Distinct(listing) && Increasing(listing, s) && listing != []
    requires listing[|listing| - 1] in s
    ensures s != [] && s == s[..|s| - 1] + [listing[|listing| - 1]]
    ensures listing[|listing| - 1] !in s[..|s| - 1] && Increasing(listing, s[..|s| - 1])
    ensures forall x | x in s && x != listing[|listing| - 1] :: x in s[..|s| - 1]
  {
    var last := listing[|listing| - 1];
    var k :| 0 <= k < |s| && s[k] == last;
    assert s[|s| - 1] in s;
    assert IndexOf(listing, s[k]) == |listing| - 1;
    assert k == |s| - 1;
    assert s == s[..|s| - 1] + [last];
    assert forall x | x in s[..|s| - 1] :: x in s;
  }
}
