/** Networks as they are: nodes known by name, and links between names. */
module Networks {
  import opened Sequences
  import opened Topology
  import opened HostNames

  predicate Adjacent(wires: seq<Wire>, a: string, b: string) {
    (a, b) in wires || (b, a) in wires
  }

  /** The k-th step of w is along a link. */
  predicate StepAt(wires: seq<Wire>, w: seq<string>, k: nat) {
    0 < k < |w| && Adjacent(wires, w[k - 1], w[k])
  }

  ghost predicate IsWalk(wires: seq<Wire>, w: seq<string>, a: string, b: string) {
    && w != [] && w[0] == a && w[|w| - 1] == b
    && forall k | 0 < k < |w| :: StepAt(wires, w, k)
  }

  ghost predicate Connected(wires: seq<Wire>, a: string, b: string) {
    exists w :: IsWalk(wires, w, a, b)
  }

  /** A walk within the network that passes no node twice. */
  ghost predicate IsSimplePath(names: set<string>, wires: seq<Wire>, p: seq<string>, a: string, b: string) {
    IsWalk(wires, p, a, b) && Distinct(p) && forall x | x in p :: x in names
  }

  ghost predicate OnlyPath(names: set<string>, wires: seq<Wire>, p: seq<string>, a: string, b: string) {
    IsSimplePath(names, wires, p, a, b) && forall q | IsSimplePath(names, wires, q, a, b) :: q == p
  }

  /** One simple path between any two nodes, and one link fewer than nodes. */
  ghost predicate IsTreeNet(names: set<string>, wires: seq<Wire>) {
    && |wires| == |names| - 1
    && forall a, b | a in names && b in names :: exists p :: OnlyPath(names, wires, p, a, b)
  }

  // ---- names and what was added under them -------------------------------------------------

  function Named(p: seq<Node>): seq<string> {
    seq(|p|, k requires 0 <= k < |p| => NameOf(p[k]))
  }

  predicate Joined(links: seq<Link>, x: Node, y: Node) {
    (x, y) in links || (y, x) in links
  }

  predicate JoinedAt(links: seq<Link>, r: seq<Node>, k: nat) {
    0 < k < |r| && Joined(links, r[k - 1], r[k])
  }

  ghost predicate IsRoute(links: seq<Link>, r: seq<Node>, x: Node, y: Node) {
    && r != [] && r[0] == x && r[|r| - 1] == y
    && forall k | 0 < k < |r| :: JoinedAt(links, r, k)
  }

  lemma WireOfLink(links: seq<Link>, x: Node, y: Node)
    requires (x, y) in links
    ensures (NameOf(x), NameOf(y)) in WiresOf(links)
  {
    var k :| 0 <= k < |links| && links[k] == (x, y);
    assert WiresOf(links)[k] == (NameOf(x), NameOf(y));
  }

  lemma JoinedAdjacent(links: seq<Link>, x: Node, y: Node)
    requires Joined(links, x, y)
    ensures Adjacent(WiresOf(links), NameOf(x), NameOf(y))
  {
    if (x, y) in links { WireOfLink(links, x, y); } else { WireOfLink(links, y, x); }
  }

  lemma AdjacentJoined(links: seq<Link>, a: string, b: string) returns (x: Node, y: Node)
    requires Adjacent(WiresOf(links), a, b)
    ensures NameOf(x) == a && NameOf(y) == b && Joined(links, x, y)
  {
    var wires := WiresOf(links);
    if (a, b) in wires {
      var k :| 0 <= k < |wires| && wires[k] == (a, b);
      assert links[k] in links;
      x, y := links[k].0, links[k].1;
    } else {
      var k :| 0 <= k < |wires| && wires[k] == (b, a);
      assert links[k] in links;
      x, y := links[k].1, links[k].0;
    }
  }

  lemma RouteIsWalk(links: seq<Link>, r: seq<Node>, x: Node, y: Node)
    requires IsRoute(links, r, x, y)
    ensures IsWalk(WiresOf(links), Named(r), NameOf(x), NameOf(y))
  {
    hide NameOf, WiresOf;
    forall k | 0 < k < |r| ensures StepAt(WiresOf(links), Named(r), k) {
      assert JoinedAt(links, r, k);
      JoinedAdjacent(links, r[k - 1], r[k]);
    }
  }

  lemma BackAndForth(wires: seq<Wire>, u: seq<string>, v: seq<string>, a: string, b: string, hub: string)
    requires IsWalk(wires, u, a, hub) && IsWalk(wires, v, b, hub)
    ensures Connected(wires, a, b)
  {
    var n := |u| + |v| - 1;
    var w := seq(n, (k: int) requires 0 <= k < n => if k < |u| then u[k] else v[n - 1 - k]);
    forall k | 0 < k < |w| ensures StepAt(wires, w, k) {
      if k < |u| { assert StepAt(wires, u, k); } else { assert w[k - 1] == v[n - k] && StepAt(wires, v, n - k); }
    }
    assert IsWalk(wires, w, a, b);
  }

  // ---- one name, one node ---------------------------------------------------------------------

  ghost predicate OneNameEach(nodes: seq<Node>) {
    forall x, y | x in nodes && y in nodes && NameOf(x) == NameOf(y) :: x == y
  }

  /** The hosts among the nodes are those of the racks. */
  ghost predicate HostsOf(racks: seq<seq<string>>, nodes: seq<Node>) {
    forall x: Node | x.Host? :: x in nodes <==> IsHost(racks, x)
  }

  lemma FirstLetters(x: Node)
    ensures NameOf(x) != []
    ensures NameOf(x)[0] == match x { case Tor(_) => 't' case Switch(_) => 's' case Host(_, _) => 'h' }
  {
  }

  /** Only hosts can share a name. */
  lemma SharedAreHosts(x: Node, y: Node)
    requires NameOf(x) == NameOf(y) && x != y
    ensures x.Host? && y.Host?
  {
    FirstLetters(x);
    FirstLetters(y);
    if !x.Host? && !y.Host? { SwitchNamesDiffer(x, y); }
  }

  lemma NamesTellApart(racks: seq<seq<string>>, nodes: seq<Node>)
    requires HostsOf(racks, nodes)
    ensures OneNameEach(nodes) <==> !exists r, x :: Clash(racks, r, x)
  {
    NamesShared(racks);
    if x, y :| x in nodes && y in nodes && NameOf(x) == NameOf(y) && x != y {
      SharedAreHosts(x, y);
      assert SameHost(racks, x, y);
    }
    if a, b :| SameHost(racks, a, b) && a != b {
      assert a in nodes && b in nodes;
    }
  }

  lemma {:induction false} AsManyNames(nodes: seq<Node>)
    requires Distinct(nodes) && OneNameEach(nodes)
    ensures |NamesOf(nodes)| == |nodes|
  {
    if nodes != [] {
      var front, x := nodes[..|nodes| - 1], nodes[|nodes| - 1];
      assert nodes == front + [x];
      AsManyNames(front);
      assert NameOf(x) !in NamesOf(front);
      assert NamesOf(nodes) == NamesOf(front) + {NameOf(x)};
    }
  }
}
