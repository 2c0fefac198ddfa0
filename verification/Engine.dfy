/** The running engine: compiled matchers, and everything they remember on elements.

    Both memo schemes are in the heap. A combinator walk creates one `CacheEntry` and
    stores that same object on every node it passes; the answer is written into it
    afterwards, so the nodes share it. The nth-child counter leaves its place on the
    parent and resumes from there. */
module Engine {
  import opened Options
  import opened Dom
  import opened Selectors
  import opened Chains

  /** The array [dirruns, doneName, answer] of one walk; an answer not yet written
      is undefined, which reads as false. */
  class CacheEntry {
    const run: nat
    const doneName: nat
    var answer: bool

    constructor (run: nat, doneName: nat)
      ensures this.run == run && this.doneName == doneName && !answer
    {
      this.run, this.doneName, answer := run, doneName, false;
    }
  }

  datatype Place = Place(run: nat, nodeIndex: nat, diff: nat)

  datatype Selection = Selection(env: Env, elems: seq<Node>, matchers: seq<Matcher>)

  class Sizzle {
    var dirruns: nat
    var done: nat
    var slots: map<(Node, Direction), CacheEntry>  // elem[expando][dir]
    var nth: map<Node, Place>                      // parent[expando]["nth"]
    var nthLast: map<Node, (nat, nat)>             // elem[expando]["nth-last"]
    var outermostContext: Option<Context>
    ghost var registry: map<nat, Matcher>

    constructor ()
      ensures dirruns == 0 && done == 0 && registry == map[] && NothingNewer()
    {
      dirruns, done, slots, nth, nthLast, registry := 0, 0, map[], map[], map[], map[];
      outermostContext := None;
    }

    /** An entry of the current run, found where its walk would look for it, holds the
        true answer for that node. Entries of earlier runs promise nothing. */
    ghost predicate SlotOk(env: Env, n: Node, dir: Direction)
      requires env.tree.Valid() && (n, dir) in slots
      reads `slots, `dirruns, `registry, slots[(n, dir)]
    {
      var e := slots[(n, dir)];
      && e.run <= dirruns
      && (e.run == dirruns ==>
        && e.doneName in registry
        && var w := registry[e.doneName];
        && w.Walk? && w.dir == dir && Stops(env.tree, w, n)
        && (e.answer <==> ReachesFrom(env, w, n)))
    }

    ghost predicate NthOk(env: Env, p: Node)
      requires env.tree.Valid() && p in nth
      reads `nth, `dirruns
    {
      var c := nth[p];
      && c.run <= dirruns
      && (c.run == dirruns ==>
        && p in env.tree.children && c.nodeIndex < |env.tree.children[p]|
        && c.diff == Count(env.tree, false, 0, env.tree.children[p][..c.nodeIndex + 1]))
    }

    ghost predicate NthLastOk(env: Env, n: Node)
      requires env.tree.Valid() && n in nthLast
      reads `nthLast, `dirruns
    {
      var c := nthLast[n];
      && c.0 <= dirruns
      && (c.0 == dirruns ==>
        && n in env.tree.parent && n in env.tree.elements
        && c.1 == Position(env.tree, true, false, n))
    }

    /** Every slot is right, except those still held by the walks under way. */
    ghost predicate SlotsOk(env: Env, open: set<CacheEntry>)
      requires env.tree.Valid()
      reads `slots, `dirruns, `registry, slots.Values
    {
      forall k | k in slots :: slots[k] in open || SlotOk(env, k.0, k.1)
    }

    ghost predicate NthsOk(env: Env)
      requires env.tree.Valid()
      reads `nth, `dirruns
    {
      forall p | p in nth :: NthOk(env, p)
    }

    ghost predicate NthLastsOk(env: Env)
      requires env.tree.Valid()
      reads `nthLast, `dirruns
    {
      forall n | n in nthLast :: NthLastOk(env, n)
    }

    ghost predicate Inv(env: Env, open: set<CacheEntry>)
      requires env.tree.Valid()
      reads this, slots.Values
    {
      SlotsOk(env, open) && NthsOk(env) && NthLastsOk(env) && outermostContext == env.OutermostContext()
    }

    /** No entry anywhere claims to be of a run after the latest one. */
    ghost predicate NothingNewer()
      reads this, slots.Values
    {
      && (forall k | k in slots :: slots[k].run <= dirruns)
      && (forall p | p in nth :: nth[p].run <= dirruns)
      && (forall n | n in nthLast :: nthLast[n].0 <= dirruns)
    }

    /** Every slot is as before, or holds an entry made since, or one of those named. */
    twostate predicate Keeps(named: set<CacheEntry>)
      reads this
    {
      forall k | k in slots ::
        fresh(slots[k]) || slots[k] in named || (k in old(slots) && slots[k] == old(slots[k]))
    }

    /** A compiled matcher, memo schemes included, answers what it means. */
    method Match(env: Env, m: Matcher, n: Node, ghost open: set<CacheEntry>) returns (r: bool)
      requires env.tree.Valid() && Registered(m, registry)
      requires Inv(env, open)
      requires forall e | e in open :: e.doneName !in DoneNames(m)
      modifies this`slots, this`nth, this`nthLast
      ensures r <==> Holds(env, m, n)
      ensures Inv(env, open)
      ensures Keeps({})
      decreases m, 1
    {
      match m
      case Label(l) =>
        r := n in env.tree.labels && l in env.tree.labels[n];
      case NthChild(fromEnd, ofType, first, last) =>
        r := MatchNthChild(env, fromEnd, ofType, first, last, n);
      case IsContext =>
        r := env.context == Single(n);
      case InContextList =>
        r := env.context.Many? && n in env.context.nodes;
      case Root(leading, one, any) =>
        if !leading && (env.xml || outermostContext != Some(env.context)) {
          r := true;
        } else if env.context.Single? {
          r := Match(env, one, n, open);
        } else {
          r := Match(env, any, n, open);
        }
      case All(ms) =>
        var i := |ms|;
        while i > 0
          invariant 0 <= i <= |ms|
          invariant forall j | i <= j < |ms| :: Holds(env, ms[j], n)
          invariant Inv(env, open)
          invariant Keeps({})
        {
          i := i - 1;
          var b := Match(env, ms[i], n, open);
          if !b { return false; }
        }
        r := true;
      case Walk(_, _, nearest, _, _) =>
        if nearest {
          r := MatchNearest(env, m, n, open);
        } else if env.xml {
          r := MatchPlain(env, m, n, open);
        } else {
          r := MatchCached(env, m, n, open);
        }
    }

    method MatchNearest(env: Env, w: Matcher, n: Node, ghost open: set<CacheEntry>) returns (r: bool)
      requires env.tree.Valid() && w.Walk? && w.nearest && Registered(w, registry)
      requires Inv(env, open)
      requires forall e | e in open :: e.doneName !in DoneNames(w)
      modifies this`slots, this`nth, this`nthLast
      ensures r <==> Reaches(env, w, n)
      ensures Inv(env, open)
      ensures Keeps({})
      decreases w, 0
    {
      var elem := n;
      while Next(env.tree, w.dir, elem).Some?
        invariant unchanged(this)
        invariant Reaches(env, w, n) <==> Reaches(env, w, elem)
        decreases Rank(env.tree, w.dir, elem)
      {
        NextDescends(env.tree, w.dir, elem);
        elem := Next(env.tree, w.dir, elem).value;
        if Stops(env.tree, w, elem) {
          r := Match(env, w.inner, elem, open);
          return;
        }
      }
      r := false;
    }

    method MatchPlain(env: Env, w: Matcher, n: Node, ghost open: set<CacheEntry>) returns (r: bool)
      requires env.tree.Valid() && w.Walk? && !w.nearest && Registered(w, registry)
      requires Inv(env, open)
      requires forall e | e in open :: e.doneName !in DoneNames(w)
      modifies this`slots, this`nth, this`nthLast
      ensures r <==> Reaches(env, w, n)
      ensures Inv(env, open)
      ensures Keeps({})
      decreases w, 0
    {
      var elem := n;
      while Next(env.tree, w.dir, elem).Some?
        invariant Reaches(env, w, n) <==> Reaches(env, w, elem)
        invariant Inv(env, open)
        invariant Keeps({})
        decreases Rank(env.tree, w.dir, elem)
      {
        NextDescends(env.tree, w.dir, elem);
        elem := Next(env.tree, w.dir, elem).value;
        if Stops(env.tree, w, elem) {
          var b := Match(env, w.inner, elem, open);
          if b { return true; }
        }
      }
      r := false;
    }

    /** The remembering walk. Until it ends, its own entry is open: nodes already carry
        it, but no matcher inside the walk can read it. */
    method MatchCached(env: Env, w: Matcher, n: Node, ghost open: set<CacheEntry>) returns (r: bool)
      requires env.tree.Valid() && w.Walk? && !w.nearest && Registered(w, registry)
      requires Inv(env, open)
      requires forall e | e in open :: e.doneName !in DoneNames(w)
      modifies this`slots, this`nth, this`nthLast
      ensures r <==> Reaches(env, w, n)
      ensures Inv(env, open)
      ensures Keeps({})
      decreases w, 0
    {
      hide Holds, Registered, DoneNames, NthsOk, NthLastsOk;
      ghost var answer := Reaches(env, w, n);
      var newCache := new CacheEntry(dirruns, w.doneName);
      var elem := n;
      while Next(env.tree, w.dir, elem).Some?
        invariant answer <==> Reaches(env, w, elem)
        invariant Inv(env, open + {newCache})
        invariant Keeps({})
        invariant !newCache.answer
        invariant Carries(env, w, newCache, answer, Rank(env.tree, w.dir, elem))
        decreases Rank(env.tree, w.dir, elem)
      {
        ReachesNext(env, w, elem);
        elem := Next(env.tree, w.dir, elem).value;
        if Stops(env.tree, w, elem) {
          var stop := Pass(env, w, elem, newCache, open, answer);
          if stop { return newCache.answer; }
        }
      }
      Close(env, w, newCache, open);
      r := false;
    }

    /** One stop of the walk: take over what is remembered here, or visit the node. */
    method Pass(env: Env, w: Matcher, elem: Node, newCache: CacheEntry, ghost open: set<CacheEntry>, ghost answer: bool)
      returns (stop: bool)
      requires env.tree.Valid() && w.Walk? && Registered(w, registry) && Stops(env.tree, w, elem)
      requires Inv(env, open + {newCache})
      requires newCache.run == dirruns && newCache.doneName == w.doneName && !newCache.answer
      requires forall e | e in open :: e.doneName !in DoneNames(w)
      requires answer <==> ReachesFrom(env, w, elem)
      requires Carries(env, w, newCache, answer, Rank(env.tree, w.dir, elem) + 1)
      modifies this`slots, this`nth, this`nthLast, newCache
      ensures stop ==> newCache.answer == answer && Inv(env, open)
      ensures !stop ==> !newCache.answer && (answer <==> Reaches(env, w, elem)) && Inv(env, open + {newCache})
      ensures !stop ==> Carries(env, w, newCache, answer, Rank(env.tree, w.dir, elem))
      ensures Keeps({newCache})
      decreases w.inner, 3
    {
      var key := (elem, w.dir);
      if key in slots && slots[key].run == dirruns && slots[key].doneName == w.doneName {
        assert SlotOk(env, elem, w.dir);
        newCache.answer := slots[key].answer;
        assert forall k | k in slots && slots[k] != newCache :: old(SlotOk(env, k.0, k.1)) ==> SlotOk(env, k.0, k.1);
        Close(env, w, newCache, open);
        return true;
      }
      var b := Visit(env, w, elem, newCache, open);
      if b { Close(env, w, newCache, open); }
      return b;
    }

    /** The nodes that carry e lie no further on than `rank`, and all await one answer. */
    ghost predicate Carries(env: Env, w: Matcher, e: CacheEntry, answer: bool, rank: nat)
      requires env.tree.Valid() && w.Walk?
      reads this
    {
      forall k | k in slots && slots[k] == e ::
        && k.1 == w.dir && Stops(env.tree, w, k.0) && rank <= Rank(env.tree, w.dir, k.0)
        && (ReachesFrom(env, w, k.0) <==> answer)
    }

    /** Put the walk's entry on elem, test elem, and write the outcome into the entry. */
    method Visit(env: Env, w: Matcher, elem: Node, newCache: CacheEntry, ghost open: set<CacheEntry>)
      returns (b: bool)
      requires env.tree.Valid() && w.Walk? && Registered(w, registry)
      requires Inv(env, open + {newCache})
      requires newCache.doneName == w.doneName
      requires forall e | e in open :: e.doneName !in DoneNames(w)
      modifies this`slots, this`nth, this`nthLast, newCache
      ensures b <==> Holds(env, w.inner, elem)
      ensures newCache.answer == b
      ensures Inv(env, open + {newCache})
      ensures Keeps({newCache})
      ensures forall k | k in slots && slots[k] == newCache ::
                k == (elem, w.dir) || (k in old(slots) && slots[k] == old(slots[k]))
      decreases w.inner, 2
    {
      InnerNames(w, registry);
      Put(env, (elem, w.dir), newCache, open);
      b := Match(env, w.inner, elem, open + {newCache});
      Note(env, newCache, b, open);
    }

    method Put(env: Env, key: (Node, Direction), newCache: CacheEntry, ghost open: set<CacheEntry>)
      requires env.tree.Valid() && Inv(env, open + {newCache})
      modifies this`slots
      ensures Inv(env, open + {newCache}) && slots == old(slots)[key := newCache]
    {
      hide Holds, Reaches, ReachesFrom, Stops;
      slots := slots[key := newCache];
      assert forall k | k in slots && k in old(slots) && slots[k] == old(slots[k]) ::
        old(SlotOk(env, k.0, k.1)) ==> SlotOk(env, k.0, k.1);
    }

    method Note(env: Env, newCache: CacheEntry, b: bool, ghost open: set<CacheEntry>)
      requires env.tree.Valid() && Inv(env, open + {newCache})
      modifies newCache`answer
      ensures Inv(env, open + {newCache}) && newCache.answer == b
    {
      hide Holds, Reaches, ReachesFrom, Stops;
      newCache.answer := b;
      assert forall k | k in slots && slots[k] != newCache :: old(SlotOk(env, k.0, k.1)) ==> SlotOk(env, k.0, k.1);
    }

    /** A walk that has written its answer no longer needs its entry held open. */
    lemma Close(env: Env, w: Matcher, e: CacheEntry, open: set<CacheEntry>)
      requires env.tree.Valid() && w.Walk? && Registered(w, registry)
      requires Inv(env, open + {e})
      requires e.run == dirruns && e.doneName == w.doneName
      requires Carries(env, w, e, e.answer, 0)
      ensures Inv(env, open)
    {
    }

    method MatchNthChild(env: Env, fromEnd: bool, ofType: bool, first: int, last: int, n: Node) returns (r: bool)
      requires env.tree.Valid() && NthsOk(env) && NthLastsOk(env)
      modifies this`nth, this`nthLast
      ensures r <==> n in env.tree.parent && Selects(first, last, Position(env.tree, fromEnd, ofType, n))
      ensures NthsOk(env) && NthLastsOk(env)
    {
      if n !in env.tree.parent { return false; }
      NthTestSelects(Position(env.tree, fromEnd, ofType, n), first, last);
      if first == 1 && last == 0 {
        assert IsTerm(1, 0, Position(env.tree, fromEnd, ofType, n), Position(env.tree, fromEnd, ofType, n));
        return true;
      }
      var useCache := !env.xml && !ofType;
      var diff: nat;
      if !fromEnd && useCache {
        diff := ResumeCount(env, n);
      } else if useCache && n in nthLast && nthLast[n].0 == dirruns {
        diff := nthLast[n].1;
      } else {
        diff := CountFromStart(env, fromEnd, ofType, useCache, n);
      }
      r := NthTest(diff, first, last);
    }

    /** The forward counter, with the place it keeps on the parent. */
    method ResumeCount(env: Env, n: Node) returns (diff: nat)
      requires env.tree.Valid() && n in env.tree.parent && NthsOk(env)
      modifies this`nth
      ensures diff == Position(env.tree, false, false, n)
      ensures NthsOk(env)
    {
      var t, parent := env.tree, env.tree.parent[n];
      assert t.Attached(n);
      var nodeIndex, found := 0, false;
      diff := 0;
      if parent in nth && nth[parent].run == dirruns {
        assert NthOk(env, parent);
        nodeIndex, diff := nth[parent].nodeIndex, nth[parent].diff;
        CountIgnoresElem(t, 0, n, t.children[parent][..nodeIndex + 1]);
      }
      found, nodeIndex, diff := CountForward(t, n, nodeIndex, diff);
      if found {
        CountIgnoresElem(t, 0, n, t.children[parent][..nodeIndex + 1]);
        nth := nth[parent := Place(dirruns, nodeIndex, diff)];
      }
    }

    /** The other counts: from either end, keeping a count on each node passed when
        that is allowed. */
    method CountFromStart(env: Env, fromEnd: bool, ofType: bool, useCache: bool, n: Node) returns (diff: nat)
      requires env.tree.Valid() && n in env.tree.parent && NthLastsOk(env)
      requires useCache ==> fromEnd && !ofType
      modifies this`nthLast
      ensures diff == Position(env.tree, fromEnd, ofType, n)
      ensures NthLastsOk(env)
    {
      var t, parent := env.tree, env.tree.parent[n];
      assert t.Attached(n);
      var kids := t.children[parent];
      var i := if fromEnd then |kids| - 1 else 0;
      diff := 0;
      while 0 <= i < |kids|
        invariant -1 <= i <= |kids|
        invariant if fromEnd then diff == Count(t, ofType, n, kids[i + 1..]) else diff == Count(t, ofType, n, kids[..i])
        invariant Counted(t, ofType, n, n) ==> if fromEnd then t.index[n] <= i else i <= t.index[n]
        invariant NthLastsOk(env)
        decreases if fromEnd then i + 1 else |kids| - i
      {
        var node := kids[i];
        assert t.Linked(parent, i);
        CountOneMore(t, ofType, n, kids, i);
        if Counted(t, ofType, n, node) {
          diff := diff + 1;
          if useCache {
            nthLast := nthLast[node := (dirruns, diff)];
            CountIgnoresElem(t, node, n, kids[i..]);
          }
          if node == n { return; }
        }
        i := if fromEnd then i - 1 else i + 1;
      }
      diff := 0;
    }

    ghost predicate Numbered()
      reads this
    {
      forall d | d in registry :: d < done
    }

    method AddCombinator(inner: Matcher, c: Combinator, base: bool) returns (w: Matcher)
      requires Numbered() && Registered(inner, registry)
      modifies this`done, this`registry
      ensures Numbered() && Registered(w, registry)
      ensures Follows(w, c) && w.base == base && w.inner == inner
      ensures forall m | Registered(m, old(registry)) :: Registered(m, registry)
    {
      w := Walk(done, DirectionOf(c), IsNearest(c), base, inner);
      DoneNamesRegistered(inner, registry);
      forall m | Registered(m, registry) ensures Registered(m, registry[done := w]) {
        RegisteredGrows(m, registry, done, w);
      }
      registry := registry[done := w];
      done := done + 1;
    }

    /** Nest closures left to right: a combinator wraps everything compiled so far. */
    method MatcherFromTokens(tokens: seq<Token>) returns (m: Matcher)
      requires tokens != [] && Numbered()
      modifies this`done, this`registry
      ensures Numbered() && Registered(m, registry)
      ensures CompiledFrom(m, tokens)
      ensures forall m' | Registered(m', old(registry)) :: Registered(m', registry)
    {
      var leading, body := LeadingOf(tokens), BodyOf(tokens);
      var implicit := if leading.Some? then leading.value else Descendant;
      var matchContext := AddCombinator(IsContext, implicit, true);
      var matchAnyContext := AddCombinator(InContextList, implicit, true);
      var matchers := [Root(leading.Some?, matchContext, matchAnyContext)];
      var i := 0;
      while i < |body|
        invariant 0 <= i <= |body| && Numbered()
        invariant Compiled(matchers, leading, body[..i])
        invariant forall k | 0 <= k < |matchers| :: Registered(matchers[k], registry)
        invariant forall m' | Registered(m', old(registry)) :: Registered(m', registry)
      {
        assert body[..i + 1][..i] == body[..i];
        CompiledParts(matchers, leading, body[..i]);
        match body[i] {
          case Relative(c) =>
            var w := AddCombinator(ElementMatcher(matchers), c, false);
            matchers := [w];
          case Simple(f) =>
            var longer := matchers + [FilterMatcher(f)];
            assert longer[..|longer| - 1] == matchers;
            matchers := longer;
        }
        i := i + 1;
      }
      assert body[..i] == body;
      CompiledParts(matchers, leading, body);
      m := ElementMatcher(matchers);
    }

    /** One matcher per comma-separated group, last group first. */
    method Compile(groups: seq<seq<Token>>) returns (matchers: seq<Matcher>)
      requires Numbered() && forall g | g in groups :: g != []
      modifies this`done, this`registry
      ensures Numbered() && |matchers| == |groups|
      ensures forall k | 0 <= k < |matchers| :: Registered(matchers[k], registry)
      ensures forall k | 0 <= k < |matchers| :: CompiledFrom(matchers[k], groups[|groups| - 1 - k])
      ensures forall m' | Registered(m', old(registry)) :: Registered(m', registry)
    {
      hide CompiledFrom, Registered, Numbered;
      matchers := [];
      var i := |groups|;
      while i > 0
        invariant 0 <= i <= |groups| && Numbered() && |matchers| == |groups| - i
        invariant forall k | 0 <= k < |matchers| :: Registered(matchers[k], registry)
        invariant forall k | 0 <= k < |matchers| :: CompiledFrom(matchers[k], groups[|groups| - 1 - k])
        invariant forall m' | Registered(m', old(registry)) :: Registered(m', registry)
      {
        i := i - 1;
        assert groups[i] in groups;
        var m := MatcherFromTokens(groups[i]);
        matchers := matchers + [m];
      }
    }

    /** Compile a selector and run it: the result is the candidates that end a chain for
        one of its groups, whatever the engine remembers from earlier work. */
    method Find(groups: seq<seq<Token>>, env: Env, elems: seq<Node>) returns (r: seq<Node>)
      requires env.tree.Valid() && Numbered() && NothingNewer() && forall g | g in groups :: g != []
      modifies this
      ensures r == Subjects(groups, env, elems)
      ensures Numbered() && NothingNewer()
      ensures forall m | Registered(m, old(registry)) :: Registered(m, registry)
    {
      var matchers := Compile(groups);
      var s := Selection(env, elems, matchers);
      r := Select(s, []);
      SelectedSubjects(groups, s, |elems|);
      assert elems[..|elems|] == elems;
    }

    /** One top-level run over the candidates: first matcher that accepts wins. */
    method Select(s: Selection, results: seq<Node>) returns (r: seq<Node>)
      requires s.env.tree.Valid() && NothingNewer()
      requires forall i | 0 <= i < |s.matchers| :: Registered(s.matchers[i], registry)
      modifies this`dirruns, this`slots, this`nth, this`nthLast, this`outermostContext
      ensures r == results + Selected(s, |s.elems|)
      ensures NothingNewer() && outermostContext == old(outermostContext)
    {
      hide Holds, Registered, DoneNames;
      var contextBackup := outermostContext;
      dirruns := dirruns + 1;
      outermostContext := if s.env.context != Single(s.env.document) then Some(s.env.context) else None;
      r := results;
      var i := 0;
      while i < |s.elems|
        invariant 0 <= i <= |s.elems|
        invariant r == results + Selected(s, i)
        invariant Inv(s.env, {})
      {
        var j := 0;
        while j < |s.matchers|
          invariant 0 <= j <= |s.matchers|
          invariant r == results + Selected(s, i)
          invariant Inv(s.env, {})
          invariant forall k | 0 <= k < j :: !Holds(s.env, s.matchers[k], s.elems[i])
        {
          var b := Match(s.env, s.matchers[j], s.elems[i], {});
          if b { break; }
          j := j + 1;
        }
        if j < |s.matchers| { r := r + [s.elems[i]]; }
        i := i + 1;
      }
      outermostContext := contextBackup;
    }

    /** Any sequence of runs, each on its own tree: what one run remembers never
        misleads another. */
    method SelectAll(runs: seq<Selection>) returns (rs: seq<seq<Node>>)
      requires NothingNewer()
      requires forall i | 0 <= i < |runs| :: runs[i].env.tree.Valid()
      requires forall i, j | 0 <= i < |runs| && 0 <= j < |runs[i].matchers| :: Registered(runs[i].matchers[j], registry)
      modifies this`dirruns, this`slots, this`nth, this`nthLast, this`outermostContext
      ensures |rs| == |runs|
      ensures forall i | 0 <= i < |runs| :: rs[i] == Selected(runs[i], |runs[i].elems|)
      ensures NothingNewer()
    {
      rs := [];
      for k := 0 to |runs|
        invariant |rs| == k && NothingNewer()
        invariant forall i | 0 <= i < k :: rs[i] == Selected(runs[i], |runs[i].elems|)
      {
        var r := Select(runs[k], []);
        rs := rs + [r];
      }
    }
  }

  /** Count forward from a place already reached (index 0 means from scratch), wrapping
      once to the first child when the end comes before n. */
  method CountForward(t: Tree, n: Node, fromIndex: nat, fromDiff: nat)
    returns (found: bool, nodeIndex: nat, diff: nat)
    requires t.Valid() && n in t.parent
    requires fromIndex != 0 ==>
      && fromIndex < |t.children[t.parent[n]]|
      && fromDiff == Count(t, false, n, t.children[t.parent[n]][..fromIndex + 1])
    ensures found <==> n in t.elements
    ensures diff == Position(t, false, false, n)
    ensures found ==> nodeIndex == t.index[n] && t.Attached(n)
  {
    assert t.Attached(n);
    var parent := t.parent[n];
    var kids := t.children[parent];
    nodeIndex, diff := fromIndex, fromDiff;
    var node := if nodeIndex != 0 then Some(kids[nodeIndex]) else None;
    var start := true;
    found := false;
    while true
      invariant node.Some? ==> nodeIndex < |kids| && node.value == kids[nodeIndex]
      invariant node.Some? ==> diff == Count(t, false, n, kids[..nodeIndex + 1])
      invariant node.None? ==> start
      invariant !start && n in t.elements ==> nodeIndex < t.index[n]
      decreases start, if node.Some? then |kids| - nodeIndex else |kids| + 1
    {
      if node.Some? { assert t.Linked(parent, nodeIndex); }
      nodeIndex := nodeIndex + 1;
      node := if node.Some? then t.NextSibling(node.value) else None;
      if node.None? {
        diff, nodeIndex := 0, 0;
        if !start { break; }
        node, start := Some(kids[0]), false;
      }
      assert kids[..nodeIndex + 1][..nodeIndex] == kids[..nodeIndex];
      assert t.Linked(parent, nodeIndex);
      if node.value in t.elements {
        diff := diff + 1;
        if node.value == n { return true, nodeIndex, diff; }
      }
    }
  }

  /** The first `count` candidates that some matcher accepts, in order. */
  ghost function Selected(s: Selection, count: nat): seq<Node>
    requires s.env.tree.Valid() && count <= |s.elems|
  {
    if count == 0 then []
    else
      var n := s.elems[count - 1];
      Selected(s, count - 1) +
      if exists j :: 0 <= j < |s.matchers| && Holds(s.env, s.matchers[j], n) then [n] else []
  }

  /** The candidates that some group accepts, in order. */
  ghost function Subjects(groups: seq<seq<Token>>, env: Env, elems: seq<Node>): seq<Node>
    requires env.tree.Valid()
  {
    if elems == [] then []
    else
      var n := elems[|elems| - 1];
      Subjects(groups, env, elems[..|elems| - 1]) + if IsSubject(groups, env, n) then [n] else []
  }

  ghost predicate IsSubject(groups: seq<seq<Token>>, env: Env, n: Node)
    requires env.tree.Valid()
  {
    exists i :: 0 <= i < |groups| && Ends(groups[i], env, n)
  }

  ghost predicate Ends(tokens: seq<Token>, env: Env, n: Node)
    requires env.tree.Valid()
  {
    Accepts(env, LeadingOf(tokens), BodyOf(tokens), n)
  }

  predicate CompiledFrom(m: Matcher, tokens: seq<Token>) {
    Compiled(Parts(m), LeadingOf(tokens), BodyOf(tokens))
  }

  lemma {:induction false} SelectedSubjects(groups: seq<seq<Token>>, s: Selection, count: nat)
    requires s.env.tree.Valid() && count <= |s.elems| && |s.matchers| == |groups|
    requires forall k | 0 <= k < |s.matchers| :: CompiledFrom(s.matchers[k], groups[|groups| - 1 - k])
    ensures Selected(s, count) == Subjects(groups, s.env, s.elems[..count])
  {
    hide Holds, CompiledFrom, IsSubject;
    if count > 0 {
      assert s.elems[..count][..count - 1] == s.elems[..count - 1];
      SelectedSubjects(groups, s, count - 1);
      SomeMatcherHolds(groups, s, s.elems[count - 1]);
    }
  }

  /** Some matcher holds of n exactly when n is a subject. */
  lemma SomeMatcherHolds(groups: seq<seq<Token>>, s: Selection, n: Node)
    requires s.env.tree.Valid() && |s.matchers| == |groups|
    requires forall k | 0 <= k < |s.matchers| :: CompiledFrom(s.matchers[k], groups[|groups| - 1 - k])
    ensures (exists j :: 0 <= j < |s.matchers| && Holds(s.env, s.matchers[j], n)) <==> IsSubject(groups, s.env, n)
  {
    forall k | 0 <= k < |groups| ensures Holds(s.env, s.matchers[k], n) <==> Ends(groups[|groups| - 1 - k], s.env, n) {
      var g := groups[|groups| - 1 - k];
      CompiledMeaning(s.env, Parts(s.matchers[k]), LeadingOf(g), BodyOf(g), n);
    }
    if IsSubject(groups, s.env, n) {
      var i :| 0 <= i < |groups| && Ends(groups[i], s.env, n);
      assert Holds(s.env, s.matchers[|groups| - 1 - i], n);
    }
  }

  /** A walk has a number of its own, apart from those inside it. */
  lemma InnerNames(w: Matcher, registry: map<nat, Matcher>)
    requires w.Walk? && Registered(w, registry)
    ensures Registered(w.inner, registry) && w.doneName !in DoneNames(w.inner) && DoneNames(w.inner) <= DoneNames(w)
  {
  }

  lemma ReachesNext(env: Env, w: Matcher, n: Node)
    requires env.tree.Valid() && w.Walk? && !w.nearest && Next(env.tree, w.dir, n).Some?
    ensures var p := Next(env.tree, w.dir, n).value;
            && Rank(env.tree, w.dir, p) < Rank(env.tree, w.dir, n)
            && (Reaches(env, w, n) <==> if Stops(env.tree, w, p) then ReachesFrom(env, w, p) else Reaches(env, w, p))
  {
    NextDescends(env.tree, w.dir, n);
  }

  /** Counting one more node, at either end of the stretch counted so far. */
  lemma CountOneMore(t: Tree, ofType: bool, n: Node, kids: seq<Node>, i: nat)
    requires i < |kids|
    ensures Count(t, ofType, n, kids[..i + 1]) ==
            Count(t, ofType, n, kids[..i]) + if Counted(t, ofType, n, kids[i]) then 1 else 0
    ensures Count(t, ofType, n, kids[i..]) ==
            Count(t, ofType, n, kids[i + 1..]) + if Counted(t, ofType, n, kids[i]) then 1 else 0
  {
    assert kids[i..] == [kids[i]] + kids[i + 1..];
    CountSplit(t, ofType, n, [kids[i]], kids[i + 1..]);
    assert kids[..i + 1][..i] == kids[..i];
  }

  lemma {:induction false} CountIgnoresElem(t: Tree, a: Node, b: Node, ns: seq<Node>)
    ensures Count(t, false, a, ns) == Count(t, false, b, ns)
  {
    if ns != [] { CountIgnoresElem(t, a, b, ns[..|ns| - 1]); }
  }
}
