/** What a selection gives, token by token and candidate by candidate: which elements end a
    selector, where the context comes in, and what is counted. */
module Meaning {
  import opened Options
  import opened Dom
  import opened Selectors
  import opened Chains
  import opened Engine

  // ---- the combinators ---------------------------------------------------------------------

  /** The node this many levels above n. */
  function Up(t: Tree, n: Node, levels: nat): Option<Node>
    decreases levels
  {
    if levels == 0 then Some(n)
    else if n in t.parent then Up(t, t.parent[n], levels - 1)
    else None
  }

  lemma {:induction false} UpIsAncestor(t: Tree, a: Node, b: Node, k: nat)
    requires t.Valid() && k > 0 && Up(t, b, k) == Some(a)
    ensures Ancestor(t, a, b)
    decreases k
  {
    if k > 1 { UpIsAncestor(t, a, t.parent[b], k - 1); }
  }

  lemma {:induction false} LevelsUp(t: Tree, a: Node, b: Node) returns (k: nat)
    requires t.Valid() && Ancestor(t, a, b)
    ensures k > 0 && Up(t, b, k) == Some(a)
    decreases if b in t.depth then t.depth[b] else 0
  {
    assert t.Attached(b);
    k := 0;
    if t.parent[b] != a { k := LevelsUp(t, a, t.parent[b]); }
    k := k + 1;
  }

  lemma AncestorIsUp(t: Tree, a: Node, b: Node)
    requires t.Valid()
    ensures Ancestor(t, a, b) <==> exists k: nat :: k > 0 && Up(t, b, k) == Some(a)
  {
    if Ancestor(t, a, b) {
      var k := LevelsUp(t, a, b);
    }
    if k: nat :| k > 0 && Up(t, b, k) == Some(a) { UpIsAncestor(t, a, b, k); }
  }

  /** n is the i-th child of p. */
  predicate IsChild(t: Tree, p: Node, i: int, n: Node) {
    p in t.children && 0 <= i < |t.children[p]| && t.children[p][i] == n
  }

  lemma ChildIs(t: Tree, p: Node, i: int, n: Node)
    requires t.Valid()
    ensures IsChild(t, p, i, n) <==> n in t.parent && t.parent[n] == p && t.Attached(n) && t.index[n] == i
  {
    if IsChild(t, p, i, n) { assert t.Linked(p, i) && t.Attached(n); }
    if n in t.parent { assert t.Attached(n); }
  }

  lemma BeforeIs(t: Tree, a: Node, b: Node)
    requires t.Valid()
    ensures Chains.Before(t, a, b) <==> exists p, i, j :: IsChild(t, p, i, a) && IsChild(t, p, j, b) && i < j
  {
    if Chains.Before(t, a, b) {
      assert t.Attached(a) && t.Attached(b);
      var p, i, j := t.parent[a], t.index[a], t.index[b];
      ChildIs(t, p, i, a);
      ChildIs(t, p, j, b);
    }
    if p, i, j :| IsChild(t, p, i, a) && IsChild(t, p, j, b) && i < j {
      ChildIs(t, p, i, a);
      ChildIs(t, p, j, b);
    }
  }

  /** Child: of the parent. Descendant: at any level below. General: a later child of the
      same parent. Adjacent: with no element in between. */
  lemma RelationsAre(t: Tree, a: Node, b: Node)
    requires t.Valid()
    ensures Related(t, Child, a, b) <==> Up(t, b, 1) == Some(a)
    ensures Related(t, Descendant, a, b) <==> exists k: nat :: k > 0 && Up(t, b, k) == Some(a)
    ensures Related(t, General, a, b) <==> exists p, i, j :: IsChild(t, p, i, a) && IsChild(t, p, j, b) && i < j
    ensures Related(t, Adjacent, a, b) <==>
            exists p, i, j :: IsChild(t, p, i, a) && IsChild(t, p, j, b) && i < j
                              && forall k | i < k < j :: t.children[p][k] !in t.elements
  {
    AncestorIsUp(t, a, b);
    BeforeIs(t, a, b);
    AdjacentIs(t, a, b);
    if b in t.parent { assert Up(t, b, 1) == Up(t, t.parent[b], 0); }
  }

  lemma AdjacentIs(t: Tree, a: Node, b: Node)
    requires t.Valid()
    ensures Related(t, Adjacent, a, b) <==>
            exists p, i, j :: IsChild(t, p, i, a) && IsChild(t, p, j, b) && i < j
                              && forall k | i < k < j :: t.children[p][k] !in t.elements
  {
    if Related(t, Adjacent, a, b) {
      assert t.Attached(a) && t.Attached(b);
      var p, i, j := t.parent[a], t.index[a], t.index[b];
      forall k | i < k < j ensures t.children[p][k] !in t.elements {
        assert t.Linked(p, k);
        assert Chains.Before(t, a, t.children[p][k]) && Chains.Before(t, t.children[p][k], b);
      }
      ChildIs(t, p, i, a);
      ChildIs(t, p, j, b);
    }
    if p, i, j :| IsChild(t, p, i, a) && IsChild(t, p, j, b) && i < j
                  && forall k | i < k < j :: t.children[p][k] !in t.elements {
      ChildIs(t, p, i, a);
      ChildIs(t, p, j, b);
      forall x | x in t.elements && Chains.Before(t, a, x) ensures !Chains.Before(t, x, b) {
        assert t.Attached(x);
        assert t.children[p][t.index[x]] == x;
      }
    }
  }

  // ---- positions -----------------------------------------------------------------------------

  /** The children of p with an index from lo on and before hi that the test counts for n. */
  function CountedFrom(t: Tree, ofType: bool, n: Node, ns: seq<Node>, lo: nat, hi: nat): set<nat> {
    set k | lo <= k < hi && k < |ns| && Counts(t, ofType, n, ns[k])
  }

  /** An element of the same name, or any element. */
  predicate Counts(t: Tree, ofType: bool, n: Node, x: Node) {
    if ofType then x in t.names && n in t.names && t.names[x] == t.names[n] else x in t.elements
  }

  lemma {:induction false} CountIs(t: Tree, ofType: bool, n: Node, ns: seq<Node>, lo: nat, hi: nat)
    requires lo <= hi <= |ns|
    ensures Count(t, ofType, n, ns[lo..hi]) == |CountedFrom(t, ofType, n, ns, lo, hi)|
    decreases hi
  {
    if lo < hi {
      CountIs(t, ofType, n, ns, lo, hi - 1);
      assert ns[lo..hi][..hi - 1 - lo] == ns[lo..hi - 1];
      assert CountedFrom(t, ofType, n, ns, lo, hi) ==
             CountedFrom(t, ofType, n, ns, lo, hi - 1) + if Counts(t, ofType, n, ns[hi - 1]) then {hi - 1} else {};
    } else {
      assert ns[lo..hi] == [];
      assert CountedFrom(t, ofType, n, ns, lo, hi) == {};
    }
  }

  /** A child that is counted itself stands after as many counted children as its position
      says, itself included, from whichever end. */
  lemma PositionIs(t: Tree, fromEnd: bool, ofType: bool, p: Node, i: nat)
    requires t.Valid() && p in t.children && i < |t.children[p]|
    ensures var kids, n := t.children[p], t.children[p][i];
            && n in t.parent
            && Position(t, fromEnd, ofType, n) ==
               if !Counts(t, ofType, n, n) then 0
               else if fromEnd then |CountedFrom(t, ofType, n, kids, i, |kids|)|
               else |CountedFrom(t, ofType, n, kids, 0, i + 1)|
  {
    var kids, n := t.children[p], t.children[p][i];
    assert t.Linked(p, i) && t.Attached(n);
    CountIs(t, ofType, n, kids, i, |kids|);
    CountIs(t, ofType, n, kids, 0, i + 1);
    assert kids[i..|kids|] == kids[i..] && kids[0..i + 1] == kids[..i + 1];
  }

  // ---- selectors -------------------------------------------------------------------------------

  predicate IsOfContext(env: Env, x: Node) {
    env.context == Single(x) || (env.context.Many? && x in env.context.nodes)
  }

  /** A single simple selector is looked for below the context, unless the context is the
      document itself, or the document is XML. */
  lemma OneFilter(env: Env, f: Filter, n: Node)
    requires env.tree.Valid()
    ensures Ends([Simple(f)], env, n) <==>
            Satisfies(env.tree, f, n)
            && (env.xml || env.context == Single(env.document)
                || exists x :: IsOfContext(env, x) && Ancestor(env.tree, x, n))
  {
    assert [Simple(f)][..0] == [];
    AcceptsFilter(env, None, [Simple(f)], n);
    NothingElse(env, None, n);
    ContextAncestor(env, n);
  }

  /** A leading combinator relates to the context, whatever it is. */
  lemma OneCombinator(env: Env, c: Combinator, n: Node)
    requires env.tree.Valid()
    ensures Ends([Relative(c)], env, n) <==>
            exists x :: IsOfContext(env, x) && Related(env.tree, c, x, n)
                        && (c.Child? || c.Descendant? || x in env.tree.elements)
  {
    assert BodyOf([Relative(c)]) == [];
    NothingElse(env, Some(c), n);
    ContextRelated(env, c, n);
  }

  lemma NothingElse(env: Env, leading: Option<Combinator>, n: Node)
    requires env.tree.Valid()
    ensures Accepts(env, leading, [], n) <==> Anchored(env, leading, n)
  {
    if Anchored(env, leading, n) { assert IsChain(env, leading, Parse([]), [n]); }
  }

  lemma ContextRelated(env: Env, c: Combinator, n: Node)
    requires env.tree.Valid()
    ensures RelatedToContext(env, c, n) <==>
            exists x :: IsOfContext(env, x) && Related(env.tree, c, x, n)
                        && (c.Child? || c.Descendant? || x in env.tree.elements)
  {
    hide Related;
  }

  lemma ContextAncestor(env: Env, n: Node)
    requires env.tree.Valid()
    ensures Anchored(env, None, n) <==>
            env.xml || env.context == Single(env.document)
            || exists x :: IsOfContext(env, x) && Ancestor(env.tree, x, n)
  {
    if x :| IsOfContext(env, x) && Ancestor(env.tree, x, n) {
      assert InContext(env.context, x) && Related(env.tree, Descendant, x, n);
    }
    if x :| InContext(env.context, x) && Related(env.tree, Descendant, x, n) {
      assert IsOfContext(env, x);
    }
  }

  /** One simple selector more is another test of the same element. */
  lemma OneMoreFilter(env: Env, tokens: seq<Token>, f: Filter, n: Node)
    requires env.tree.Valid() && tokens != []
    ensures Ends(tokens + [Simple(f)], env, n) <==> Ends(tokens, env, n) && Satisfies(env.tree, f, n)
  {
    AcceptsFilter(env, LeadingOf(tokens), BodyBefore(tokens, Simple(f)), n);
  }

  /** With one combinator more, the selector so far ends at a related element. */
  lemma OneMoreCombinator(env: Env, tokens: seq<Token>, c: Combinator, n: Node)
    requires env.tree.Valid() && tokens != []
    ensures Ends(tokens + [Relative(c)], env, n) <==>
            exists a :: Related(env.tree, c, a, n) && a in env.tree.elements && Ends(tokens, env, a)
  {
    AcceptsCombinator(env, LeadingOf(tokens), BodyBefore(tokens, Relative(c)), n);
  }

  function BodyBefore(tokens: seq<Token>, token: Token): (body: seq<Token>)
    requires tokens != []
    ensures LeadingOf(tokens + [token]) == LeadingOf(tokens) && body == BodyOf(tokens + [token])
    ensures body != [] && body[|body| - 1] == token && body[..|body| - 1] == BodyOf(tokens)
  {
    BodyOf(tokens + [token])
  }

  /** One node for each compound selector, each related to the next, wherever they begin. */
  ghost predicate Chained(t: Tree, c: Compounds, chain: seq<Node>)
    requires t.Valid() && |c.filters| == |c.combinators| + 1
  {
    && |chain| == |c.filters|
    && (forall i, j | 0 <= i < |chain| && 0 <= j < |c.filters[i]| :: Satisfies(t, c.filters[i][j], chain[i]))
    && (forall i | 0 <= i < |c.combinators| ::
          chain[i] in t.elements && Related(t, c.combinators[i], chain[i], chain[i + 1]))
  }

  /** A selector without a leading combinator accepts what ends a chain. Given one node, or
      several, to look in, and not the whole document or XML, the chain begins below such a
      node; otherwise it may begin anywhere. */
  lemma PlainSelectors(env: Env, tokens: seq<Token>, n: Node)
    requires env.tree.Valid() && tokens != [] && tokens[0].Simple?
    ensures Ends(tokens, env, n) <==>
            exists chain: seq<Node> ::
              |chain| > 0 && chain[|chain| - 1] == n && Chained(env.tree, Parse(tokens), chain)
              && (env.xml || env.context == Single(env.document)
                  || exists x :: IsOfContext(env, x) && Ancestor(env.tree, x, chain[0]))
  {
    forall chain: seq<Node> | |chain| > 0
      ensures IsChain(env, None, Parse(tokens), chain) <==>
              Chained(env.tree, Parse(tokens), chain)
              && (env.xml || env.context == Single(env.document)
                  || exists x :: IsOfContext(env, x) && Ancestor(env.tree, x, chain[0]))
    {
      ChainBegins(env, Parse(tokens), chain);
    }
  }

  lemma ChainBegins(env: Env, c: Compounds, chain: seq<Node>)
    requires env.tree.Valid() && |c.filters| == |c.combinators| + 1 && |chain| > 0
    ensures IsChain(env, None, c, chain) <==>
            Chained(env.tree, c, chain)
            && (env.xml || env.context == Single(env.document)
                || exists x :: IsOfContext(env, x) && Ancestor(env.tree, x, chain[0]))
  {
    ContextAncestor(env, chain[0]);
    hide Anchored, Related, Satisfies;
  }

  // ---- what is selected --------------------------------------------------------------------------

  lemma {:induction false} SubjectsFilter(groups: seq<seq<Token>>, env: Env, elems: seq<Node>, n: Node)
    requires env.tree.Valid()
    ensures multiset(Subjects(groups, env, elems))[n] == if IsSubject(groups, env, n) then multiset(elems)[n] else 0
  {
    hide IsSubject;
    if elems != [] {
      SubjectsFilter(groups, env, elems[..|elems| - 1], n);
      assert elems == elems[..|elems| - 1] + [elems[|elems| - 1]];
    }
  }

  /** Each candidate that ends some group, as often as it is a candidate, and nothing else. */
  lemma SubjectsCount(groups: seq<seq<Token>>, env: Env, elems: seq<Node>, n: Node)
    requires env.tree.Valid()
    ensures multiset(Subjects(groups, env, elems))[n] ==
            if exists g :: g in groups && Ends(g, env, n) then multiset(elems)[n] else 0
  {
    hide Ends, Subjects;
    SubjectsFilter(groups, env, elems, n);
    if i :| 0 <= i < |groups| && Ends(groups[i], env, n) { assert groups[i] in groups; }
  }

  /** In the order of the candidates. */
  lemma {:induction false} SubjectsInOrder(groups: seq<seq<Token>>, env: Env, a: seq<Node>, b: seq<Node>)
    requires env.tree.Valid()
    ensures Subjects(groups, env, a + b) == Subjects(groups, env, a) + Subjects(groups, env, b)
  {
    hide IsSubject;
    if b == [] {
      assert a + b == a;
    } else {
      SubjectsInOrder(groups, env, a, b[..|b| - 1]);
      assert (a + b)[..|a + b| - 1] == a + b[..|b| - 1];
    }
  }
}
