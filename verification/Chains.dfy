/** What a selector means, stated without any walk: a chain of nodes, one per compound
    selector, each related to the next by the combinator between them (section 8 of
    Selectors Level 3), and the first anchored to the context. */
module Chains {
  import opened Options
  import opened Dom
  import opened Selectors

  datatype Combinator = Child | Descendant | Adjacent | General

  datatype Filter = Test(name: string) | Nth(fromEnd: bool, ofType: bool, first: int, last: int)

  datatype Token = Relative(combinator: Combinator) | Simple(filter: Filter)

  /** Expr.relative: which link a combinator follows, and whether only one stop counts. */
  function DirectionOf(c: Combinator): Direction {
    if c.Child? || c.Descendant? then ToParent else ToPreviousSibling
  }

  predicate IsNearest(c: Combinator) { c.Child? || c.Adjacent? }

  ghost predicate SameParent(t: Tree, a: Node, b: Node) {
    a in t.parent && b in t.parent && t.parent[a] == t.parent[b]
  }

  ghost predicate Before(t: Tree, a: Node, b: Node)
    requires t.Valid()
  {
    && SameParent(t, a, b)
    && (assert t.Attached(a) && t.Attached(b); t.index[a] < t.index[b])
  }

  /** a stands in relation c to b, whatever kind of node a is. */
  ghost predicate Related(t: Tree, c: Combinator, a: Node, b: Node)
    requires t.Valid()
  {
    match c
    case Child => b in t.parent && t.parent[b] == a
    case Descendant => Ancestor(t, a, b)
    case Adjacent => Before(t, a, b) && forall x | x in t.elements && Before(t, a, x) :: !Before(t, x, b)
    case General => Before(t, a, b)
  }

  ghost predicate Satisfies(t: Tree, f: Filter, n: Node)
    requires t.Valid()
  {
    match f
    case Test(l) => n in t.labels && l in t.labels[n]
    case Nth(fromEnd, ofType, a, b) => n in t.parent && Selects(a, b, Position(t, fromEnd, ofType, n))
  }

  predicate InContext(context: Context, x: Node) {
    if context.Single? then x == context.node else x in context.nodes
  }

  /** n stands in relation c to a context node, which may be a document, and so not an
      element, where c looks for a parent or an ancestor. */
  ghost predicate RelatedToContext(env: Env, c: Combinator, n: Node)
    requires env.tree.Valid()
  {
    exists x :: InContext(env.context, x) && Related(env.tree, c, x, n) &&
                (DirectionOf(c).ToParent? || x in env.tree.elements)
  }

  /** The first node of a chain: related to the context by a leading combinator if there
      is one, otherwise below the context wherever that is not implied. */
  ghost predicate Anchored(env: Env, leading: Option<Combinator>, a: Node)
    requires env.tree.Valid()
  {
    match leading
    case None => ContextIsImplied(env) || RelatedToContext(env, Descendant, a)
    case Some(c) => RelatedToContext(env, c, a)
  }

  datatype Compounds = Compounds(filters: seq<seq<Filter>>, combinators: seq<Combinator>)

  /** Tokens after a leading combinator, cut at the combinators. */
  function Parse(body: seq<Token>): (c: Compounds)
    ensures |c.filters| == |c.combinators| + 1
  {
    if body == [] then Compounds([[]], [])
    else
      var c := Parse(body[..|body| - 1]);
      match body[|body| - 1]
      case Relative(r) => Compounds(c.filters + [[]], c.combinators + [r])
      case Simple(f) =>
        var k := |c.filters| - 1;
        Compounds(c.filters[k := c.filters[k] + [f]], c.combinators)
  }

  ghost predicate IsChain(env: Env, leading: Option<Combinator>, c: Compounds, chain: seq<Node>)
    requires env.tree.Valid() && |c.filters| == |c.combinators| + 1
  {
    && |chain| == |c.filters|
    && Anchored(env, leading, chain[0])
    && (forall i, j | 0 <= i < |chain| && 0 <= j < |c.filters[i]| :: Satisfies(env.tree, c.filters[i][j], chain[i]))
    && (forall i | 0 <= i < |c.combinators| ::
          chain[i] in env.tree.elements && Related(env.tree, c.combinators[i], chain[i], chain[i + 1]))
  }

  /** n is the subject of the selector. */
  ghost predicate Accepts(env: Env, leading: Option<Combinator>, body: seq<Token>, n: Node)
    requires env.tree.Valid()
  {
    exists chain: seq<Node> ::
      |chain| > 0 && chain[|chain| - 1] == n && IsChain(env, leading, Parse(body), chain)
  }

  function LeadingOf(tokens: seq<Token>): Option<Combinator> {
    if tokens != [] && tokens[0].Relative? then Some(tokens[0].combinator) else None
  }

  function BodyOf(tokens: seq<Token>): seq<Token> {
    if LeadingOf(tokens).Some? then tokens[1..] else tokens
  }

  // ---- what the walks reach -------------------------------------------------------

  /** A walk follows combinator c; only the one towards the context may stop at a
      node that is not an element. */
  predicate Follows(w: Matcher, c: Combinator) {
    w.Walk? && w.dir == DirectionOf(c) && w.nearest == IsNearest(c)
  }

  /** A walk succeeds exactly when some stop in its relation satisfies the inner matcher. */
  lemma ReachesRelated(env: Env, w: Matcher, c: Combinator, n: Node)
    requires env.tree.Valid() && Follows(w, c)
    ensures Reaches(env, w, n) <==>
            exists a :: Related(env.tree, c, a, n) && Stops(env.tree, w, a) && Holds(env, w.inner, a)
  {
    match c
    case Child => ReachesParent(env, w, n);
    case Descendant => ReachesAncestor(env, w, n);
    case Adjacent => ReachesAdjacent(env, w, n);
    case General => ReachesBefore(env, w, n);
  }

  lemma ReachesParent(env: Env, w: Matcher, n: Node)
    requires env.tree.Valid() && Follows(w, Child)
    ensures Reaches(env, w, n) <==>
            exists a :: Related(env.tree, Child, a, n) && Stops(env.tree, w, a) && Holds(env, w.inner, a)
  {
  }

  lemma {:induction false} ReachesAncestor(env: Env, w: Matcher, n: Node)
    requires env.tree.Valid() && Follows(w, Descendant)
    ensures Reaches(env, w, n) <==>
            exists a :: Related(env.tree, Descendant, a, n) && Stops(env.tree, w, a) && Holds(env, w.inner, a)
    decreases Rank(env.tree, ToParent, n)
  {
    var t := env.tree;
    if n in t.parent {
      var p := t.parent[n];
      NextDescends(t, ToParent, n);
      ReachesAncestor(env, w, p);
      assert Next(t, ToParent, n) == Some(p) && Ancestor(t, p, n);
      if Reaches(env, w, p) {
        var a :| Related(t, Descendant, a, p) && Stops(t, w, a) && Holds(env, w.inner, a);
        assert Related(t, Descendant, a, n);
      }
    }
  }

  lemma {:induction false} ReachesBefore(env: Env, w: Matcher, n: Node)
    requires env.tree.Valid() && Follows(w, General)
    ensures Reaches(env, w, n) <==>
            exists a :: Related(env.tree, General, a, n) && Stops(env.tree, w, a) && Holds(env, w.inner, a)
    decreases Rank(env.tree, ToPreviousSibling, n)
  {
    var t := env.tree;
    match t.PreviousSibling(n)
    case None =>
      NothingBefore(t, n);
    case Some(p) =>
      NextDescends(t, ToPreviousSibling, n);
      BeforeStep(t, p, n);
      ReachesBefore(env, w, p);
      if Reaches(env, w, p) {
        var a :| Related(t, General, a, p) && Stops(t, w, a) && Holds(env, w.inner, a);
        assert Related(t, General, a, n);
      }
  }

  lemma {:induction false} ReachesAdjacent(env: Env, w: Matcher, n: Node)
    requires env.tree.Valid() && Follows(w, Adjacent)
    ensures Reaches(env, w, n) <==>
            exists a :: Related(env.tree, Adjacent, a, n) && Stops(env.tree, w, a) && Holds(env, w.inner, a)
    decreases Rank(env.tree, ToPreviousSibling, n)
  {
    var t := env.tree;
    match t.PreviousSibling(n)
    case None =>
      NothingBefore(t, n);
    case Some(p) =>
      NextDescends(t, ToPreviousSibling, n);
      BeforeStep(t, p, n);
      if p in t.elements {
        assert Related(t, Adjacent, p, n);
      } else {
        ReachesAdjacent(env, w, p);
        if Reaches(env, w, p) {
          var a :| Related(t, Adjacent, a, p) && Stops(t, w, a) && Holds(env, w.inner, a);
          assert Related(t, Adjacent, a, n);
        }
      }
  }

  lemma NothingBefore(t: Tree, n: Node)
    requires t.Valid() && t.PreviousSibling(n).None?
    ensures forall a :: !Before(t, a, n)
  {
  }

  /** Before n come its previous sibling p and what comes before p. */
  lemma BeforeStep(t: Tree, p: Node, n: Node)
    requires t.Valid() && t.PreviousSibling(n) == Some(p)
    ensures forall a :: Before(t, a, n) <==> a == p || Before(t, a, p)
    ensures Before(t, p, n)
  {
    assert t.Attached(n);
    assert t.Linked(t.parent[n], t.index[n] - 1);
    assert t.Attached(p) && t.index[p] == t.index[n] - 1;
    forall a ensures Before(t, a, n) <==> a == p || Before(t, a, p) {
      if a in t.parent { assert t.Attached(a); }
    }
  }

  // ---- compiled form --------------------------------------------------------------

  function FilterMatcher(f: Filter): Matcher {
    match f
    case Test(l) => Label(l)
    case Nth(fromEnd, ofType, a, b) => NthChild(fromEnd, ofType, a, b)
  }

  function ElementMatcher(ms: seq<Matcher>): Matcher
    requires ms != []
  {
    if |ms| > 1 then All(ms) else ms[0]
  }

  function Parts(m: Matcher): seq<Matcher> {
    if m.All? then m.matchers else [m]
  }

  /** ms is the compiled form of these tokens, whatever numbers its walks carry. */
  predicate Compiled(ms: seq<Matcher>, leading: Option<Combinator>, body: seq<Token>)
    decreases |body|
  {
    if body == [] then
      && |ms| == 1 && ms[0].Root?
      && ms[0].leadingRelative == leading.Some?
      && var c := if leading.Some? then leading.value else Descendant;
      && IsBaseWalk(ms[0].matchContext, c, IsContext)
      && IsBaseWalk(ms[0].matchAnyContext, c, InContextList)
    else
      var init := body[..|body| - 1];
      match body[|body| - 1]
      case Relative(c) =>
        |ms| == 1 && Follows(ms[0], c) && !ms[0].base && Compiled(Parts(ms[0].inner), leading, init)
      case Simple(f) =>
        |ms| > 1 && ms[|ms| - 1] == FilterMatcher(f) && Compiled(ms[..|ms| - 1], leading, init)
  }

  predicate IsBaseWalk(w: Matcher, c: Combinator, inner: Matcher) {
    Follows(w, c) && w.base && w.inner == inner
  }

  lemma {:induction false} CompiledParts(ms: seq<Matcher>, leading: Option<Combinator>, body: seq<Token>)
    requires Compiled(ms, leading, body)
    ensures |ms| >= 1 && !ms[0].All?
    ensures Parts(ElementMatcher(ms)) == ms
    decreases |body|
  {
    if body != [] {
      var init := body[..|body| - 1];
      if body[|body| - 1].Simple? { CompiledParts(ms[..|ms| - 1], leading, init); }
    }
  }

  /** The walk towards the context. */
  lemma BaseWalkMeaning(env: Env, w: Matcher, c: Combinator, n: Node)
    requires env.tree.Valid() && IsBaseWalk(w, c, if env.context.Single? then IsContext else InContextList)
    ensures Reaches(env, w, n) <==> RelatedToContext(env, c, n)
  {
    var t := env.tree;
    ReachesRelated(env, w, c, n);
    if Reaches(env, w, n) {
      var a :| Related(t, c, a, n) && Stops(t, w, a) && Holds(env, w.inner, a);
      assert InContext(env.context, a);
    }
    if RelatedToContext(env, c, n) {
      var x :| InContext(env.context, x) && Related(t, c, x, n) && (DirectionOf(c).ToParent? || x in t.elements);
      assert Stops(t, w, x) && Holds(env, w.inner, x);
    }
  }

  lemma RootMeaning(env: Env, m: Matcher, leading: Option<Combinator>, n: Node)
    requires env.tree.Valid() && Compiled([m], leading, [])
    ensures Holds(env, m, n) <==> Anchored(env, leading, n)
  {
    var c := if leading.Some? then leading.value else Descendant;
    BaseWalkMeaning(env, if env.context.Single? then m.matchContext else m.matchAnyContext, c, n);
  }

  ghost predicate AllHold(env: Env, ms: seq<Matcher>, n: Node)
    requires env.tree.Valid()
  {
    forall i | 0 <= i < |ms| :: Holds(env, ms[i], n)
  }

  lemma PartsMeaning(env: Env, m: Matcher, n: Node)
    requires env.tree.Valid()
    ensures Holds(env, m, n) <==> AllHold(env, Parts(m), n)
  {
    if !m.All? { assert Parts(m)[0] == m; }
  }

  /** Compilation preserves meaning: the compiled form of a token list accepts n exactly
      when n ends a chain for it. */
  lemma {:induction false} CompiledMeaning(env: Env, ms: seq<Matcher>, leading: Option<Combinator>,
      body: seq<Token>, n: Node)
    requires env.tree.Valid() && Compiled(ms, leading, body)
    ensures AllHold(env, ms, n) <==> Accepts(env, leading, body, n)
    decreases |body|
  {
    hide AllHold, Accepts, Holds, Parse;
    if body == [] {
      NoTokensMeaning(env, ms, leading, n);
    } else {
      var init := body[..|body| - 1];
      match body[|body| - 1]
      case Simple(f) =>
        CompiledMeaning(env, ms[..|ms| - 1], leading, init, n);
        FilterMeaning(env, ms, f, n);
        AcceptsFilter(env, leading, body, n);
      case Relative(c) =>
        forall a ensures AllHold(env, Parts(ms[0].inner), a) <==> Accepts(env, leading, init, a) {
          CompiledMeaning(env, Parts(ms[0].inner), leading, init, a);
        }
        WalkMeaning(env, ms[0], c, leading, body, n);
        OneHolds(env, ms, n);
    }
  }

  lemma OneHolds(env: Env, ms: seq<Matcher>, n: Node)
    requires env.tree.Valid() && |ms| == 1
    ensures AllHold(env, ms, n) <==> Holds(env, ms[0], n)
  {
  }

  lemma NoTokensMeaning(env: Env, ms: seq<Matcher>, leading: Option<Combinator>, n: Node)
    requires env.tree.Valid() && Compiled(ms, leading, [])
    ensures AllHold(env, ms, n) <==> Accepts(env, leading, [], n)
  {
    assert ms == [ms[0]];
    RootMeaning(env, ms[0], leading, n);
    if Anchored(env, leading, n) { assert IsChain(env, leading, Parse([]), [n]); }
  }

  lemma FilterMeaning(env: Env, ms: seq<Matcher>, f: Filter, n: Node)
    requires env.tree.Valid() && |ms| > 1 && ms[|ms| - 1] == FilterMatcher(f)
    ensures AllHold(env, ms, n) <==> AllHold(env, ms[..|ms| - 1], n) && Satisfies(env.tree, f, n)
  {
  }

  lemma WalkMeaning(env: Env, w: Matcher, c: Combinator, leading: Option<Combinator>, body: seq<Token>, n: Node)
    requires env.tree.Valid() && Follows(w, c) && !w.base
    requires body != [] && body[|body| - 1] == Relative(c)
    requires forall a :: AllHold(env, Parts(w.inner), a) <==> Accepts(env, leading, body[..|body| - 1], a)
    ensures Holds(env, w, n) <==> Accepts(env, leading, body, n)
  {
    ReachesRelated(env, w, c, n);
    forall a ensures Holds(env, w.inner, a) <==> Accepts(env, leading, body[..|body| - 1], a) {
      PartsMeaning(env, w.inner, a);
    }
    AcceptsCombinator(env, leading, body, n);
  }

  lemma AcceptsFilter(env: Env, leading: Option<Combinator>, body: seq<Token>, n: Node)
    requires env.tree.Valid() && body != [] && body[|body| - 1].Simple?
    ensures Accepts(env, leading, body, n) <==>
            Accepts(env, leading, body[..|body| - 1], n) && Satisfies(env.tree, body[|body| - 1].filter, n)
  {
    var init, f := body[..|body| - 1], body[|body| - 1].filter;
    var c, d := Parse(init), Parse(body);
    var k := |c.filters| - 1;
    assert d.filters[k][|c.filters[k]|] == f;
    forall chain: seq<Node> | |chain| > 0 && chain[|chain| - 1] == n
      ensures IsChain(env, leading, d, chain) <==> IsChain(env, leading, c, chain) && Satisfies(env.tree, f, n)
    {
      if IsChain(env, leading, d, chain) {
        forall i, j | 0 <= i < |chain| && 0 <= j < |c.filters[i]|
          ensures Satisfies(env.tree, c.filters[i][j], chain[i])
        {
          assert c.filters[i][j] == d.filters[i][j];
        }
      }
    }
  }

  lemma AcceptsCombinator(env: Env, leading: Option<Combinator>, body: seq<Token>, n: Node)
    requires env.tree.Valid() && body != [] && body[|body| - 1].Relative?
    ensures Accepts(env, leading, body, n) <==>
            exists a :: Related(env.tree, body[|body| - 1].combinator, a, n) && a in env.tree.elements &&
                        Accepts(env, leading, body[..|body| - 1], a)
  {
    var r := body[|body| - 1].combinator;
    if Accepts(env, leading, body, n) {
      var chain: seq<Node> :|
        |chain| > 0 && chain[|chain| - 1] == n && IsChain(env, leading, Parse(body), chain);
      FrontOfChain(env, leading, body, chain);
      assert Related(env.tree, r, chain[|chain| - 2], n);
    }
    if a :| Related(env.tree, r, a, n) && a in env.tree.elements && Accepts(env, leading, body[..|body| - 1], a) {
      LongerChain(env, leading, body, a, n);
    }
  }

  lemma FrontOfChain(env: Env, leading: Option<Combinator>, body: seq<Token>, chain: seq<Node>)
    requires env.tree.Valid() && body != [] && body[|body| - 1].Relative?
    requires IsChain(env, leading, Parse(body), chain)
    ensures |chain| > 1 && Accepts(env, leading, body[..|body| - 1], chain[|chain| - 2])
    ensures chain[|chain| - 2] in env.tree.elements
    ensures Related(env.tree, body[|body| - 1].combinator, chain[|chain| - 2], chain[|chain| - 1])
  {
    var front := chain[..|chain| - 1];
    ShorterChain(env, leading, Parse(body[..|body| - 1]), body[|body| - 1].combinator, chain);
    assert |front| > 0 && front[|front| - 1] == chain[|chain| - 2];
  }

  lemma ShorterChain(env: Env, leading: Option<Combinator>, c: Compounds, r: Combinator, chain: seq<Node>)
    requires env.tree.Valid() && |c.filters| == |c.combinators| + 1
    requires IsChain(env, leading, Compounds(c.filters + [[]], c.combinators + [r]), chain)
    ensures |chain| > 1 && IsChain(env, leading, c, chain[..|chain| - 1])
    ensures chain[|chain| - 2] in env.tree.elements && Related(env.tree, r, chain[|chain| - 2], chain[|chain| - 1])
  {
    var d := Compounds(c.filters + [[]], c.combinators + [r]);
    var front := chain[..|chain| - 1];
    assert d.combinators[|c.combinators|] == r;
    forall i, j | 0 <= i < |front| && 0 <= j < |c.filters[i]|
      ensures Satisfies(env.tree, c.filters[i][j], front[i])
    {
      assert c.filters[i][j] == d.filters[i][j];
    }
    forall i | 0 <= i < |c.combinators|
      ensures front[i] in env.tree.elements && Related(env.tree, c.combinators[i], front[i], front[i + 1])
    {
      assert d.combinators[i] == c.combinators[i];
    }
  }

  lemma LongerChain(env: Env, leading: Option<Combinator>, body: seq<Token>, a: Node, n: Node)
    requires env.tree.Valid() && body != [] && body[|body| - 1].Relative?
    requires Accepts(env, leading, body[..|body| - 1], a) && a in env.tree.elements
    requires Related(env.tree, body[|body| - 1].combinator, a, n)
    ensures Accepts(env, leading, body, n)
  {
    var front: seq<Node> :|
      |front| > 0 && front[|front| - 1] == a && IsChain(env, leading, Parse(body[..|body| - 1]), front);
    AddToChain(env, leading, Parse(body[..|body| - 1]), body[|body| - 1].combinator, front, n);
    assert |front + [n]| > 0 && (front + [n])[|front + [n]| - 1] == n;
  }

  lemma AddToChain(env: Env, leading: Option<Combinator>, c: Compounds, r: Combinator, chain: seq<Node>, n: Node)
    requires env.tree.Valid() && |c.filters| == |c.combinators| + 1 && IsChain(env, leading, c, chain)
    requires chain[|chain| - 1] in env.tree.elements && Related(env.tree, r, chain[|chain| - 1], n)
    ensures IsChain(env, leading, Compounds(c.filters + [[]], c.combinators + [r]), chain + [n])
  {
    hide Related, Satisfies, Anchored, Parse;
    var d, all := Compounds(c.filters + [[]], c.combinators + [r]), chain + [n];
    assert all[0] == chain[0];
    forall i, j | 0 <= i < |all| && 0 <= j < |d.filters[i]| ensures Satisfies(env.tree, d.filters[i][j], all[i]) {
      assert d.filters[i] == c.filters[i];
    }
    forall i | 0 <= i < |d.combinators|
      ensures all[i] in env.tree.elements && Related(env.tree, d.combinators[i], all[i], all[i + 1])
    {
      if i < |c.combinators| { assert d.combinators[i] == c.combinators[i]; }
    }
  }
}
