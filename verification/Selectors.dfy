/** What a compiled selector is, and what it means on a tree. */
module Selectors {
  import opened Options
  import opened Dom

  datatype Direction = ToParent | ToPreviousSibling

  datatype Context = Single(node: Node) | Many(nodes: seq<Node>)

  /** The closures the compiler builds, as data: one constructor per closure shape.
      `Label` stands for any simple filter whose answer depends on the element alone. */
  datatype Matcher =
    | Label(name: string)
    | NthChild(fromEnd: bool, ofType: bool, first: int, last: int)
    | IsContext
    | InContextList
    | Root(leadingRelative: bool, matchContext: Matcher, matchAnyContext: Matcher)
    | All(matchers: seq<Matcher>)
    | Walk(doneName: nat, dir: Direction, nearest: bool, base: bool, inner: Matcher)

  /** What stays fixed while one top-level selection runs. */
  datatype Env = Env(tree: Tree, document: Node, context: Context, xml: bool)
  {
    /** The context of a top-level run, unless it is the whole document. */
    function OutermostContext(): Option<Context> {
      if context == Single(document) then None else Some(context)
    }
  }

  function Next(t: Tree, dir: Direction, n: Node): Option<Node> {
    match dir
    case ToParent => t.ParentNode(n)
    case ToPreviousSibling => t.PreviousSibling(n)
  }

  /** How many more steps a walk in this direction can take at most. */
  function Rank(t: Tree, dir: Direction, n: Node): nat {
    match dir
    case ToParent => if n in t.depth then t.depth[n] else 0
    case ToPreviousSibling => if n in t.index then t.index[n] else 0
  }

  lemma NextDescends(t: Tree, dir: Direction, n: Node)
    requires t.Valid()
    requires Next(t, dir, n).Some?
    ensures Next(t, dir, n).value in t.children
    ensures Rank(t, dir, Next(t, dir, n).value) < Rank(t, dir, n)
  {
    assert t.Attached(n);
    if dir.ToPreviousSibling? {
      assert t.Linked(t.parent[n], t.index[n] - 1);
    }
  }

  /** checkNonElements: only the walk towards the context stops at a document node. */
  predicate Stops(t: Tree, w: Matcher, n: Node)
    requires w.Walk?
  {
    n in t.elements || (w.base && w.dir.ToParent?)
  }

  /** The siblings an nth-child test counts. */
  predicate Counted(t: Tree, ofType: bool, elem: Node, n: Node) {
    if ofType then n in t.names && elem in t.names && t.names[n] == t.names[elem] else n in t.elements
  }

  function Count(t: Tree, ofType: bool, elem: Node, ns: seq<Node>): (c: nat)
    ensures c <= |ns|
  {
    if ns == [] then 0
    else Count(t, ofType, elem, ns[..|ns| - 1]) + if Counted(t, ofType, elem, ns[|ns| - 1]) then 1 else 0
  }

  lemma {:induction false} CountSplit(t: Tree, ofType: bool, elem: Node, a: seq<Node>, b: seq<Node>)
    ensures Count(t, ofType, elem, a + b) == Count(t, ofType, elem, a) + Count(t, ofType, elem, b)
  {
    if b == [] {
      assert a + b == a;
    } else {
      CountSplit(t, ofType, elem, a, b[..|b| - 1]);
      assert (a + b)[..|a + b| - 1] == a + b[..|b| - 1];
    }
  }

  /** 1-based place of n among the counted children of its parent, from either end;
      0 for a node the test does not count. */
  function Position(t: Tree, fromEnd: bool, ofType: bool, n: Node): nat
    requires t.Valid() && n in t.parent
  {
    assert t.Attached(n);
    var kids := t.children[t.parent[n]];
    if !Counted(t, ofType, n, n) then 0
    else if fromEnd then Count(t, ofType, n, kids[t.index[n]..])
    else Count(t, ofType, n, kids[..t.index[n] + 1])
  }

  /** A counted node's places from the two ends add up to one more than the total. */
  lemma PositionsMeet(t: Tree, ofType: bool, n: Node)
    requires t.Valid() && n in t.parent && Counted(t, ofType, n, n)
    ensures t.Attached(n)
    ensures Position(t, false, ofType, n) + Position(t, true, ofType, n) ==
            Count(t, ofType, n, t.children[t.parent[n]]) + 1
  {
    assert t.Attached(n);
    var kids, i := t.children[t.parent[n]], t.index[n];
    assert kids == kids[..i] + kids[i..] && kids[i..] == [n] + kids[i + 1..];
    assert kids[..i + 1] == kids[..i] + [n];
    CountSplit(t, ofType, n, kids[..i], kids[i..]);
    CountSplit(t, ofType, n, kids[..i], [n]);
    CountSplit(t, ofType, n, [n], kids[i + 1..]);
  }

  /** position = a*k + b */
  predicate IsTerm(a: int, b: int, k: nat, position: int) {
    position == a * k + b
  }

  /** Section 6.6.5.2 of Selectors Level 3: a, b select the positions a*k + b, k >= 0. */
  ghost predicate Selects(a: int, b: int, position: int) {
    exists k: nat :: IsTerm(a, b, k, position)
  }

  /** What a matcher says of a node when nothing is remembered between calls. */
  ghost predicate Holds(env: Env, m: Matcher, n: Node)
    requires env.tree.Valid()
    decreases m, 1, 0
  {
    match m
    case Label(l) => n in env.tree.labels && l in env.tree.labels[n]
    case NthChild(fromEnd, ofType, first, last) =>
      n in env.tree.parent && Selects(first, last, Position(env.tree, fromEnd, ofType, n))
    case IsContext => env.context == Single(n)
    case InContextList => env.context.Many? && n in env.context.nodes
    case Root(leading, one, any) =>
      || (!leading && ContextIsImplied(env))
      || if env.context.Single? then Holds(env, one, n) else Holds(env, any, n)
    case All(ms) => forall i | 0 <= i < |ms| :: Holds(env, ms[i], n)
    case Walk(_, _, _, _, _) => Reaches(env, m, n)
  }

  /** In XML mode, and whenever the context is not the outermost one, no test is made. */
  predicate ContextIsImplied(env: Env) {
    env.xml || env.OutermostContext() != Some(env.context)
  }

  /** A node beyond n in the walk's direction satisfies the inner matcher: the nearest
      stop for `>` and `+`, any stop for the others. */
  ghost predicate Reaches(env: Env, w: Matcher, n: Node)
    requires env.tree.Valid() && w.Walk?
    decreases w, 0, Rank(env.tree, w.dir, n)
  {
    match Next(env.tree, w.dir, n)
    case None => false
    case Some(p) =>
      NextDescends(env.tree, w.dir, n);
      if !Stops(env.tree, w, p) then Reaches(env, w, p)
      else if w.nearest then Holds(env, w.inner, p)
      else Holds(env, w.inner, p) || Reaches(env, w, p)
  }

  /** What a remembered answer at n stands for: n itself or a node beyond it will do. */
  ghost predicate ReachesFrom(env: Env, w: Matcher, n: Node)
    requires env.tree.Valid() && w.Walk?
  {
    Holds(env, w.inner, n) || Reaches(env, w, n)
  }

  /** Nothing in m waives the context test outside XML mode but inside it. */
  ghost predicate IgnoresMode(env: Env, m: Matcher) {
    match m
    case Root(leading, one, any) =>
      (leading || ContextIsImplied(env)) && IgnoresMode(env, one) && IgnoresMode(env, any)
    case All(ms) => forall i | 0 <= i < |ms| :: IgnoresMode(env, ms[i])
    case Walk(_, _, _, _, inner) => IgnoresMode(env, inner)
    case _ => true
  }

  /** XML mode walks without remembering; for such matchers it gives the same answers. */
  lemma {:induction false} XmlModeAgrees(env: Env, m: Matcher, n: Node)
    requires env.tree.Valid() && IgnoresMode(env, m)
    ensures Holds(env, m, n) <==> Holds(env.(xml := true), m, n)
    decreases m, 1, 0
  {
    match m
    case Root(_, one, any) =>
      XmlModeAgrees(env, one, n);
      XmlModeAgrees(env, any, n);
    case All(ms) =>
      forall i | 0 <= i < |ms| ensures Holds(env, ms[i], n) <==> Holds(env.(xml := true), ms[i], n) {
        XmlModeAgrees(env, ms[i], n);
      }
    case Walk(_, _, _, _, _) => XmlWalkAgrees(env, m, n);
    case _ =>
  }

  lemma {:induction false} XmlWalkAgrees(env: Env, w: Matcher, n: Node)
    requires env.tree.Valid() && w.Walk? && IgnoresMode(env, w)
    ensures Reaches(env, w, n) <==> Reaches(env.(xml := true), w, n)
    decreases w, 0, Rank(env.tree, w.dir, n)
  {
    if Next(env.tree, w.dir, n).Some? {
      var p := Next(env.tree, w.dir, n).value;
      NextDescends(env.tree, w.dir, n);
      XmlModeAgrees(env, w.inner, p);
      XmlWalkAgrees(env, w, p);
    }
  }

  ghost function DoneNames(m: Matcher): set<nat> {
    match m
    case Root(_, one, any) => DoneNames(one) + DoneNames(any)
    case All(ms) => set i, d | 0 <= i < |ms| && d in DoneNames(ms[i]) :: d
    case Walk(d, _, _, _, inner) => {d} + DoneNames(inner)
    case _ => {}
  }

  /** Every walk was numbered after the walks inside it, and its number leads back to it. */
  ghost predicate Registered(m: Matcher, registry: map<nat, Matcher>) {
    match m
    case Root(_, one, any) => Registered(one, registry) && Registered(any, registry)
    case All(ms) => forall i | 0 <= i < |ms| :: Registered(ms[i], registry)
    case Walk(d, _, _, _, inner) =>
      && d in registry && registry[d] == m
      && (forall e | e in DoneNames(inner) :: e < d)
      && Registered(inner, registry)
    case _ => true
  }

  lemma {:induction false} RegisteredGrows(m: Matcher, registry: map<nat, Matcher>, d: nat, w: Matcher)
    requires Registered(m, registry) && d !in registry
    ensures Registered(m, registry[d := w])
  {
    match m
    case Root(_, one, any) =>
      RegisteredGrows(one, registry, d, w);
      RegisteredGrows(any, registry, d, w);
    case All(ms) =>
      forall i | 0 <= i < |ms| ensures Registered(ms[i], registry[d := w]) {
        RegisteredGrows(ms[i], registry, d, w);
      }
    case Walk(_, _, _, _, inner) => RegisteredGrows(inner, registry, d, w);
    case _ =>
  }

  lemma {:induction false} DoneNamesRegistered(m: Matcher, registry: map<nat, Matcher>)
    requires Registered(m, registry)
    ensures DoneNames(m) <= registry.Keys
  {
    match m
    case Root(_, one, any) =>
      DoneNamesRegistered(one, registry);
      DoneNamesRegistered(any, registry);
    case All(ms) =>
      forall i | 0 <= i < |ms| ensures DoneNames(ms[i]) <= registry.Keys {
        DoneNamesRegistered(ms[i], registry);
      }
    case Walk(_, _, _, _, inner) => DoneNamesRegistered(inner, registry);
    case _ =>
  }

  /** JavaScript's remainder: the sign of the dividend. */
  function Rem(x: int, y: int): int
    requires y != 0
  {
    if x >= 0 then x % y else -((-x) % y)
  }

  /** The test that closes an nth-child matcher: `% 0` is NaN, which equals nothing. */
  predicate NthTest(position: int, first: int, last: int) {
    var diff := position - last;
    diff == first ||
    (first != 0 && Rem(diff, first) == 0 && (diff as real) / (first as real) >= 0.0)
  }

  /** The closing arithmetic decides exactly whether the position is some a*k + b. */
  lemma NthTestSelects(position: int, a: int, b: int)
    ensures NthTest(position, a, b) <==> Selects(a, b, position)
  {
    var diff := position - b;
    if NthTest(position, a, b) {
      if diff == a {
        assert IsTerm(a, b, 1, position);
      } else {
        QuotientOfMultiple(diff, a);
        assert IsTerm(a, b, diff / a, position);
      }
    }
    if Selects(a, b, position) {
      var k: nat :| IsTerm(a, b, k, position);
      if a != 0 { MultipleHasNoRemainder(diff, a, k); }
    }
  }

  lemma QuotientOfMultiple(diff: int, a: int)
    requires a != 0 && Rem(diff, a) == 0 && (diff as real) / (a as real) >= 0.0
    ensures diff == a * (diff / a) && diff / a >= 0
  {
    var q := if diff >= 0 then diff / a else -((-diff) / a);
    assert diff == a * q;
    assert (diff as real) == (a as real) * (q as real);
    assert (diff as real) / (a as real) == q as real;
    assert diff / a == q by { QuotientIsUnique(diff, a, q); }
  }

  lemma QuotientIsUnique(x: int, a: int, q: int)
    requires a != 0 && x == a * q
    ensures x / a == q && x % a == 0
  {
    var d := x / a - q;
    assert a * d == a * (x / a) - a * q;
    assert a * d + x % a == 0;
    SmallMultiple(a, d);
  }

  lemma SmallMultiple(a: int, d: int)
    requires -(if a >= 0 then a else -a) < a * d <= 0
    ensures d == 0
  {
  }

  lemma MultipleHasNoRemainder(diff: int, a: int, k: nat)
    requires a != 0 && diff == a * k
    ensures Rem(diff, a) == 0 && (diff as real) / (a as real) >= 0.0
  {
    var q: int := k;
    QuotientIsUnique(diff, a, q);
    assert -diff == a * -q;
    QuotientIsUnique(-diff, a, -q);
    assert (diff as real) == (a as real) * (k as real);
    assert (diff as real) / (a as real) == k as real;
  }
}
