/** The fat tree over the racks, and when it is a tree. */
module FatTree {
  import opened Sequences
  import opened Trees
  import opened Topology
  import opened HostNames
  import opened Networks

  function FatNodes(racks: seq<seq<string>>): seq<Node> {
    AllNodes(racks, |racks|) + TreeNodes(TorsOf(|racks|), 1)
  }

  function FatLinks(racks: seq<seq<string>>): seq<Link> {
    AllLinks(racks, |racks|) + TreeLinks(TorsOf(|racks|), 1)
  }

  /** The network of a fat tree over these racks, built. */
  method BuildFatTree(racks: seq<seq<string>>, counter: Dpids) returns (net: Topology)
    modifies counter
    ensures net.nodes == FatNodes(racks) && net.links == FatLinks(racks)
    ensures IsNet(net.nodes, net.links, net.order, Roots(TorsOf(|racks|)))
    ensures net.names == NamesOf(net.nodes) && net.wires == WiresOf(net.links)
    ensures IdsOk(net.nodes, net.dpids, net.ids, counter.dpid)
    ensures IsTreeNet(net.names, net.wires) <==> racks != [] && !exists r, x :: Clash(racks, r, x)
  {
    net := new Topology(racks, counter);
    TorsInNodes(racks, |racks|);
    net.FatTree();
    TreeByName(racks, net.order);
  }

  lemma {:induction false} TorsInNodes(racks: seq<seq<string>>, n: nat)
    requires n <= |racks|
    ensures Among(TorsOf(n), AllNodes(racks, n), 1) && Distinct(TorsOf(n))
  {
    if n > 0 {
      TorsInNodes(racks, n - 1);
      assert TorsOf(n) == TorsOf(n - 1) + [Tor(n)];
      assert RackNodes(n, |racks[n - 1]|)[0] == Tor(n);
    }
  }

  // ---- hosts are leaves ------------------------------------------------------------------

  lemma {:induction false} TreeHasSwitches(todo: seq<Node>, c: nat)
    requires forall x | x in todo :: !x.Host?
    ensures forall x | x in TreeNodes(todo, c) :: x.Switch?
    ensures forall l | l in TreeLinks(todo, c) :: !l.0.Host? && !l.1.Host?
    decreases |todo|
  {
    if |todo| > 1 {
      var row := Row(c, (|todo| + 1) / 2);
      TreeHasSwitches(row, c + |row|);
      RoundHasSwitches(todo, c, |todo|);
    }
  }

  lemma {:induction false} RoundHasSwitches(todo: seq<Node>, c: nat, i: nat)
    requires i <= |todo| && forall x | x in todo :: !x.Host?
    ensures forall l | l in RoundLinks(todo, c, i) :: !l.0.Host? && !l.1.Host?
  {
    if i > 0 { RoundHasSwitches(todo, c, i - 1); }
  }

  lemma FatHosts(racks: seq<seq<string>>)
    ensures HostsOf(racks, FatNodes(racks))
  {
    TreeHasSwitches(TorsOf(|racks|), 1);
    forall x: Node | x.Host? ensures x in FatNodes(racks) <==> IsHost(racks, x) {
      RackNodeIs(racks, |racks|, x);
    }
  }

  lemma FatTor(racks: seq<seq<string>>, i: nat)
    requires 1 <= i <= |racks|
    ensures Tor(i) in FatNodes(racks)
  {
    RackNodeIs(racks, |racks|, Tor(i));
  }

  lemma HostHasOneLink(racks: seq<seq<string>>, x: Node, y: Node)
    requires x.Host? && Joined(FatLinks(racks), x, y)
    ensures y == Tor(x.rack)
  {
    TreeHasSwitches(TorsOf(|racks|), 1);
    HostLinkIs(racks, |racks|, (x, y));
    HostLinkIs(racks, |racks|, (y, x));
  }

  lemma HostIsJoined(racks: seq<seq<string>>, x: Node)
    requires IsHost(racks, x)
    ensures Joined(FatLinks(racks), x, Tor(x.rack))
  {
    HostLinkIs(racks, |racks|, (x, Tor(x.rack)));
  }

  // ---- paths by name and paths in the tree ----------------------------------------------------

  lemma LinksAreAmong(nodes: seq<Node>, links: seq<Link>, order: seq<Node>, roots: set<Node>, x: Node, y: Node)
    requires IsNet(nodes, links, order, roots) && Joined(links, x, y)
    ensures x in nodes && y in nodes && Linked(ParentOf(links), x, y)
  {
    LinkedByLinks(nodes, links, order, roots, x, y);
    var parent := ParentOf(links);
    var child := if x in parent && parent[x] == y then x else y;
    var k :| 0 <= k < |order| && order[k] == child;
    assert parent[order[k]] in order[..k];
  }

  /** With a name for each node, a path by name is a path in the tree. */
  lemma PathByName(nodes: seq<Node>, links: seq<Link>, order: seq<Node>, root: Node, q: seq<string>, x: Node, y: Node)
    returns (p: seq<Node>)
    requires IsNet(nodes, links, order, {root}) && OneNameEach(nodes) && x in nodes && y in nodes
    requires IsSimplePath(NamesOf(nodes), WiresOf(links), q, NameOf(x), NameOf(y))
    ensures Named(p) == q && IsPath(order, ParentOf(links), p, x, y)
  {
    p := NodesNamed(nodes, q);
    DifferentNames(p);
    LinkedByName(nodes, links, order, root, p);
    EndsByName(nodes, q, p, x, y);
    hide IsNet, NameOf, NamesOf, WiresOf, ParentOf, OneNameEach, IsSimplePath, LinkedAt, Linked, Distinct;
  }

  lemma EndsByName(nodes: seq<Node>, q: seq<string>, p: seq<Node>, x: Node, y: Node)
    requires OneNameEach(nodes) && x in nodes && y in nodes && p != [] && forall k | 0 <= k < |p| :: p[k] in nodes
    requires Named(p) == q && q[0] == NameOf(x) && q[|q| - 1] == NameOf(y)
    ensures p[0] == x && p[|p| - 1] == y
  {
    hide NameOf;
    assert Named(p)[0] == NameOf(p[0]) && Named(p)[|p| - 1] == NameOf(p[|p| - 1]);
  }

  lemma DifferentNames(p: seq<Node>)
    requires Distinct(Named(p))
    ensures Distinct(p)
  {
    forall k, l | 0 <= k < l < |p| ensures p[k] != p[l] {
      assert Named(p)[k] != Named(p)[l];
    }
  }

  lemma LinkedByName(nodes: seq<Node>, links: seq<Link>, order: seq<Node>, root: Node, p: seq<Node>)
    requires IsNet(nodes, links, order, {root}) && OneNameEach(nodes) && forall k | 0 <= k < |p| :: p[k] in nodes
    requires |Named(p)| == |p| && forall k | 0 < k < |p| :: StepAt(WiresOf(links), Named(p), k)
    ensures forall x | x in p :: x in order
    ensures forall k | 0 < k < |p| :: LinkedAt(ParentOf(links), p, k)
  {
    assert forall k | 0 <= k < |p| :: p[k] in order;
    hide IsNet, NameOf, NamesOf, WiresOf, ParentOf, OneNameEach, Linked, LinkedAt, StepAt, Named;
    forall k | 0 < k < |p| ensures LinkedAt(ParentOf(links), p, k) {
      assert StepAt(WiresOf(links), Named(p), k);
      LinkedAtByName(nodes, links, order, root, p, k);
    }
  }

  lemma LinkedAtByName(nodes: seq<Node>, links: seq<Link>, order: seq<Node>, root: Node, p: seq<Node>, k: nat)
    requires IsNet(nodes, links, order, {root}) && OneNameEach(nodes)
    requires StepAt(WiresOf(links), Named(p), k) && p[k - 1] in nodes && p[k] in nodes
    ensures LinkedAt(ParentOf(links), p, k)
  {
    hide IsNet, ParentOf, NameOf, NamesOf, OneNameEach, WiresOf, Linked, Adjacent;
    assert Named(p)[k - 1] == NameOf(p[k - 1]) && Named(p)[k] == NameOf(p[k]);
    NeighboursByName(nodes, links, order, root, p[k - 1], p[k]);
  }

  lemma NodesNamed(nodes: seq<Node>, q: seq<string>) returns (p: seq<Node>)
    requires forall a | a in q :: a in NamesOf(nodes)
    ensures Named(p) == q && |p| == |q| && forall k | 0 <= k < |p| :: p[k] in nodes && NameOf(p[k]) == q[k]
  {
    assert forall k | 0 <= k < |q| :: q[k] in q;
    p := seq(|q|, k requires 0 <= k < |q| => NodeOf(nodes, q[k]));
  }

  lemma NeighboursByName(nodes: seq<Node>, links: seq<Link>, order: seq<Node>, root: Node, x: Node, y: Node)
    requires IsNet(nodes, links, order, {root}) && OneNameEach(nodes) && x in nodes && y in nodes
    requires Adjacent(WiresOf(links), NameOf(x), NameOf(y))
    ensures Linked(ParentOf(links), x, y)
  {
    var u, v := AdjacentJoined(links, NameOf(x), NameOf(y));
    LinksAreAmong(nodes, links, order, {root}, u, v);
  }

  ghost function NodeOf(nodes: seq<Node>, name: string): (x: Node)
    requires name in NamesOf(nodes)
    ensures x in nodes && NameOf(x) == name
  {
    var x :| x in nodes && NameOf(x) == name;
    x
  }

  /** A path in the tree has the links of a route. */
  lemma PathIsRoute(nodes: seq<Node>, links: seq<Link>, order: seq<Node>, root: Node, p: seq<Node>, x: Node, y: Node)
    requires IsNet(nodes, links, order, {root}) && IsPath(order, ParentOf(links), p, x, y)
    ensures IsRoute(links, p, x, y) && IsWalk(WiresOf(links), Named(p), NameOf(x), NameOf(y))
    ensures forall a | a in Named(p) :: a in NamesOf(nodes)
  {
    forall k | 0 < k < |p| ensures JoinedAt(links, p, k) {
      assert LinkedAt(ParentOf(links), p, k);
      LinkedByLinks(nodes, links, order, {root}, p[k - 1], p[k]);
    }
    RouteIsWalk(links, p, x, y);
    forall a | a in Named(p) ensures a in NamesOf(nodes) {
      var k :| 0 <= k < |p| && a == NameOf(p[k]);
      assert p[k] in p;
    }
  }

  lemma NamesMakeATree(nodes: seq<Node>, links: seq<Link>, order: seq<Node>, root: Node)
    requires IsNet(nodes, links, order, {root}) && OneNameEach(nodes)
    ensures IsTreeNet(NamesOf(nodes), WiresOf(links))
  {
    assert NamesOf(nodes) == NamesOf(order);
    AsManyNames(order);
    forall a, b | a in NamesOf(nodes) && b in NamesOf(nodes)
      ensures exists p :: OnlyPath(NamesOf(nodes), WiresOf(links), p, a, b)
    {
      var p := OnePathByName(nodes, links, order, root, NodeOf(nodes, a), NodeOf(nodes, b));
    }
  }

  lemma OnePathByName(nodes: seq<Node>, links: seq<Link>, order: seq<Node>, root: Node, x: Node, y: Node)
    returns (q: seq<string>)
    requires IsNet(nodes, links, order, {root}) && OneNameEach(nodes) && x in nodes && y in nodes
    ensures OnlyPath(NamesOf(nodes), WiresOf(links), q, NameOf(x), NameOf(y))
  {
    var p := NetIsTree(nodes, links, order, root, x, y);
    q := Named(p);
    PathIsRoute(nodes, links, order, root, p, x, y);
    DistinctByName(nodes, order, p);
    forall q' | IsSimplePath(NamesOf(nodes), WiresOf(links), q', NameOf(x), NameOf(y)) ensures q' == q {
      var p' := PathByName(nodes, links, order, root, q', x, y);
    }
  }

  lemma DistinctByName(nodes: seq<Node>, order: seq<Node>, p: seq<Node>)
    requires OneNameEach(nodes) && Distinct(p) && (forall z | z in p :: z in order)
    requires forall z | z in order :: z in nodes
    ensures Distinct(Named(p))
  {
    forall k, l | 0 <= k < l < |p| ensures Named(p)[k] != Named(p)[l] {
      assert p[k] in p && p[l] in p;
    }
  }

  // ---- two hosts with one name close a circle ---------------------------------------------------

  /** Between ToR switches there is a path over switches only. */
  lemma PathOverSwitches(racks: seq<seq<string>>, order: seq<Node>, root: Node, i: nat, j: nat) returns (p: seq<Node>)
    requires IsNet(FatNodes(racks), FatLinks(racks), order, {root}) && 1 <= i <= |racks| && 1 <= j <= |racks|
    ensures IsSimplePath(NamesOf(FatNodes(racks)), WiresOf(FatLinks(racks)), Named(p), NameOf(Tor(i)), NameOf(Tor(j)))
    ensures forall x | x in p :: !x.Host?
  {
    var nodes, links := FatNodes(racks), FatLinks(racks);
    FatTor(racks, i);
    FatTor(racks, j);
    p := NetIsTree(nodes, links, order, root, Tor(i), Tor(j));
    PathIsRoute(nodes, links, order, root, p, Tor(i), Tor(j));
    forall k | 0 <= k < |p| ensures !p[k].Host? {
      if p[k].Host? {
        assert JoinedAt(links, p, k) && JoinedAt(links, p, k + 1);
        HostHasOneLink(racks, p[k], p[k - 1]);
        HostHasOneLink(racks, p[k], p[k + 1]);
        assert false;
      }
    }
    forall k, l | 0 <= k < l < |p| ensures Named(p)[k] != Named(p)[l] {
      if NameOf(p[k]) == NameOf(p[l]) { SwitchNamesDiffer(p[k], p[l]); }
    }
  }

  lemma SharedNameCloses(racks: seq<seq<string>>, order: seq<Node>, root: Node, a: Node, b: Node)
    requires IsNet(FatNodes(racks), FatLinks(racks), order, {root}) && SameHost(racks, a, b) && a != b
    ensures !IsTreeNet(NamesOf(FatNodes(racks)), WiresOf(FatLinks(racks)))
  {
    SharedIsTwin(racks, a, b);
    hide NameOf, NamesOf, WiresOf, FatNodes, FatLinks, IsSimplePath, IsTreeNet, IsNet, Twins;
    var p := PathOverSwitches(racks, order, root, a.rack, b.rack);
    var q := [NameOf(Tor(a.rack)), NameOf(a), NameOf(Tor(b.rack))];
    PathOverHost(racks, a, b);
    assert Named(p) != q by {
      if Named(p) == q {
        assert NameOf(p[1]) == q[1] == NameOf(a) && p[1] in p;
        SharedAreHosts(p[1], a);
      }
    }
    TwoPathsNoTree(NamesOf(FatNodes(racks)), WiresOf(FatLinks(racks)), Named(p), q,
                   NameOf(Tor(a.rack)), NameOf(Tor(b.rack)));
  }

  lemma TwoPathsNoTree(names: set<string>, wires: seq<Wire>, p: seq<string>, q: seq<string>, a: string, b: string)
    requires IsSimplePath(names, wires, p, a, b) && IsSimplePath(names, wires, q, a, b) && p != q
    ensures !IsTreeNet(names, wires)
  {
    assert a in names && b in names by { assert p[0] in p && p[|p| - 1] in p; }
    if r :| OnlyPath(names, wires, r, a, b) { assert false; }
  }

  lemma PathOverHost(racks: seq<seq<string>>, a: Node, b: Node)
    requires SameHost(racks, a, b) && a.rack != b.rack
    ensures IsSimplePath(NamesOf(FatNodes(racks)), WiresOf(FatLinks(racks)),
              [NameOf(Tor(a.rack)), NameOf(a), NameOf(Tor(b.rack))], NameOf(Tor(a.rack)), NameOf(Tor(b.rack)))
  {
    var u, v := Tor(a.rack), Tor(b.rack);
    HostIsJoined(racks, a);
    HostIsJoined(racks, b);
    JoinedAdjacent(FatLinks(racks), a, u);
    JoinedAdjacent(FatLinks(racks), b, v);
    FatTor(racks, a.rack);
    FatTor(racks, b.rack);
    FatHosts(racks);
    if NameOf(u) == NameOf(a) { SharedAreHosts(u, a); }
    if NameOf(v) == NameOf(a) { SharedAreHosts(v, a); }
    if NameOf(u) == NameOf(v) { SharedAreHosts(u, v); }
    TwoSteps(NamesOf(FatNodes(racks)), WiresOf(FatLinks(racks)), NameOf(u), NameOf(a), NameOf(v));
  }

  lemma TwoSteps(names: set<string>, wires: seq<Wire>, a: string, b: string, c: string)
    requires a in names && b in names && c in names && a != b && b != c && a != c
    requires Adjacent(wires, a, b) && Adjacent(wires, b, c)
    ensures IsSimplePath(names, wires, [a, b, c], a, c)
  {
  }

  /** The fat tree is a tree if and only if there are racks and no two hosts get the same name. */
  lemma TreeByName(racks: seq<seq<string>>, order: seq<Node>)
    requires IsNet(FatNodes(racks), FatLinks(racks), order, Roots(TorsOf(|racks|)))
    ensures IsTreeNet(NamesOf(FatNodes(racks)), WiresOf(FatLinks(racks))) <==>
            racks != [] && !exists r, x :: Clash(racks, r, x)
  {
    if racks == [] {
      NothingBuilt();
    } else {
      SomeTreeByName(racks, order);
    }
  }

  lemma NothingBuilt()
    ensures !IsTreeNet(NamesOf(FatNodes([])), WiresOf(FatLinks([])))
  {
    assert FatNodes([]) == [] && FatLinks([]) == [];
    assert NamesOf([]) == {};
  }

  lemma SomeTreeByName(racks: seq<seq<string>>, order: seq<Node>)
    requires racks != [] && IsNet(FatNodes(racks), FatLinks(racks), order, {Root(TorsOf(|racks|), 1)})
    ensures IsTreeNet(NamesOf(FatNodes(racks)), WiresOf(FatLinks(racks))) <==> !exists r, x :: Clash(racks, r, x)
  {
    var nodes, links, root := FatNodes(racks), FatLinks(racks), Root(TorsOf(|racks|), 1);
    FatHosts(racks);
    NamesTellApart(racks, nodes);
    NamesShared(racks);
    if OneNameEach(nodes) {
      NamesMakeATree(nodes, links, order, root);
    } else {
      var a, b :| SameHost(racks, a, b) && a != b;
      SharedNameCloses(racks, order, root, a, b);
    }
  }
}
