/** The emulated network: racks of hosts behind ToR switches, joined by a tree of switches. */
module Topology {
  import opened Sequences
  import opened Trees
  import opened Numerals

  datatype Node = Tor(rack: nat) | Switch(id: nat) | Host(rack: nat, host: nat)

  type Link = (Node, Node)

  /** What the network itself knows of a link: the names of its ends. */
  type Wire = (string, string)

  /** A node's name in the network. */
  function NameOf(n: Node): string {
    match n
    case Tor(rack) => "tor" + Dec(rack)
    case Switch(id) => "s" + Dec(id)
    case Host(rack, host) => "h" + (Pad2(rack) + Pad2(host))
  }

  function NamesOf(nodes: seq<Node>): set<string> { set x | x in nodes :: NameOf(x) }

  function WiresOf(links: seq<Link>): seq<Wire> {
    seq(|links|, k requires 0 <= k < |links| => (NameOf(links[k].0), NameOf(links[k].1)))
  }

  /** Each link's first end gets the second as its parent. */
  function ParentOf(links: seq<Link>): map<Node, Node> {
    if links == [] then map[]
    else ParentOf(links[..|links| - 1])[links[|links| - 1].0 := links[|links| - 1].1]
  }

  /** A network of nodes and links: a forest, as `order` shows, with these roots. */
  ghost predicate IsNet(nodes: seq<Node>, links: seq<Link>, order: seq<Node>, roots: set<Node>) {
    var parent := ParentOf(links);
    && IsForest(order, parent)
    && |nodes| == |order| && (forall x :: x in nodes <==> x in order)
    && |parent| == |links| && |links| + |roots| == |nodes|
    && (forall x :: x in roots <==> x in order && x !in parent)
  }

  lemma ParentOfMore(links: seq<Link>, x: Node, over: Node)
    ensures ParentOf(links + [(x, over)]) == ParentOf(links)[x := over]
  {
  }

  lemma MapGrows(m: map<Node, Node>, x: Node, y: Node)
    requires x !in m
    ensures |m[x := y]| == |m| + 1
  {
  }

  lemma NetEmpty()
    ensures IsNet([], [], [], SetOf([]))
  {
  }

  lemma RootAdded(nodes: seq<Node>, links: seq<Link>, order: seq<Node>, roots: set<Node>, x: Node)
    requires IsNet(nodes, links, order, roots) && x !in nodes
    ensures IsNet(nodes + [x], links, order + [x], roots + {x})
  {
    AddRoot(order, ParentOf(links), x);
  }

  lemma LeafAdded(nodes: seq<Node>, links: seq<Link>, order: seq<Node>, roots: set<Node>, x: Node, over: Node)
    requires IsNet(nodes, links, order, roots) && x !in nodes && over in nodes
    ensures IsNet(nodes + [x], links + [(x, over)], order + [x], roots)
  {
    AddLeaf(order, ParentOf(links), x, over);
    ParentOfMore(links, x, over);
    MapGrows(ParentOf(links), x, over);
  }

  lemma TopAdded(nodes: seq<Node>, links: seq<Link>, order: seq<Node>, roots: set<Node>, sw: Node)
    requires IsNet(nodes, links, order, roots) && sw !in nodes
    ensures IsNet(nodes + [sw], links, [sw] + order, roots + {sw})
  {
    AddFirst(order, ParentOf(links), sw);
  }

  lemma LinkedUp(nodes: seq<Node>, links: seq<Link>, order: seq<Node>, roots: set<Node>, x: Node)
    requires IsNet(nodes, links, order, roots) && x in roots && x != order[0]
    ensures IsNet(nodes, links + [(x, order[0])], order, roots - {x})
  {
    LinkToFirst(order, ParentOf(links), x);
    ParentOfMore(links, x, order[0]);
    MapGrows(ParentOf(links), x, order[0]);
    assert |roots - {x}| == |roots| - 1;
  }

  // ---- the racks ------------------------------------------------------------------------

  function RackNodes(r: nat, hosts: nat): seq<Node> {
    [Tor(r)] + seq(hosts, (i: nat) => Host(r, i + 1))
  }

  function RackLinks(r: nat, hosts: nat): seq<Link> {
    seq(hosts, (i: nat) => (Host(r, i + 1), Tor(r)))
  }

  /** The nodes and links of the first n racks, which are numbered from one. */
  function AllNodes(racks: seq<seq<string>>, n: nat): seq<Node>
    requires n <= |racks|
  {
    if n == 0 then [] else AllNodes(racks, n - 1) + RackNodes(n, |racks[n - 1]|)
  }

  function AllLinks(racks: seq<seq<string>>, n: nat): seq<Link>
    requires n <= |racks|
  {
    if n == 0 then [] else AllLinks(racks, n - 1) + RackLinks(n, |racks[n - 1]|)
  }

  function TorsOf(n: nat): seq<Node> { seq(n, (i: nat) => Tor(i + 1)) }

  lemma NoRacks(racks: seq<seq<string>>)
    ensures AllNodes(racks, 0) == [] && AllLinks(racks, 0) == [] && TorsOf(0) == [] && UpToRack([], 0)
  {
  }

  lemma NextRack(racks: seq<seq<string>>, n: nat)
    requires 0 < n <= |racks|
    ensures AllNodes(racks, n) == AllNodes(racks, n - 1) + RackNodes(n, |racks[n - 1]|)
    ensures AllLinks(racks, n) == AllLinks(racks, n - 1) + RackLinks(n, |racks[n - 1]|)
    ensures TorsOf(n) == TorsOf(n - 1) + [Tor(n)]
  {
  }

  ghost function SetOf(s: seq<Node>): set<Node> { set x | x in s }

  ghost predicate UpToRack(nodes: seq<Node>, n: nat) {
    forall x | x in nodes :: !x.Switch? && 1 <= x.rack <= n
  }

  lemma {:induction false} HostLinkIs(racks: seq<seq<string>>, n: nat, l: Link)
    requires n <= |racks|
    ensures l in AllLinks(racks, n) <==>
            l.0.Host? && l.1 == Tor(l.0.rack) && 1 <= l.0.rack <= n && 1 <= l.0.host <= |racks[l.0.rack - 1]|
  {
    if n > 0 {
      HostLinkIs(racks, n - 1, l);
      var more := RackLinks(n, |racks[n - 1]|);
      if l.0.Host? && l.1 == Tor(l.0.rack) && l.0.rack == n && 1 <= l.0.host <= |racks[n - 1]| {
        assert more[l.0.host - 1] == l;
      }
    }
  }

  lemma {:induction false} RackNodeIs(racks: seq<seq<string>>, n: nat, x: Node)
    requires n <= |racks|
    ensures x in AllNodes(racks, n) <==>
            !x.Switch? && 1 <= x.rack <= n && (x.Host? ==> 1 <= x.host <= |racks[x.rack - 1]|)
  {
    if n > 0 {
      RackNodeIs(racks, n - 1, x);
      OneRackHas(n, |racks[n - 1]|, x);
    }
  }

  lemma OneRackHas(r: nat, hosts: nat, x: Node)
    ensures x in RackNodes(r, hosts) <==> !x.Switch? && x.rack == r && (x.Host? ==> 1 <= x.host <= hosts)
  {
    var all := RackNodes(r, hosts);
    if !x.Switch? && x.rack == r && (x.Host? ==> 1 <= x.host <= hosts) {
      assert all[if x.Tor? then 0 else x.host] == x;
    }
  }

  // ---- the network, as it is built ---------------------------------------------------------

  /** Datapath ids are handed out from one counter. */
  class Dpids {
    var dpid: nat

    constructor ()
      ensures dpid == 0
    {
      dpid := 0;
    }

    method MakeDpid() returns (id: string)
      modifies this
      ensures dpid == old(dpid) + 1 && id == Hex(dpid)
    {
      dpid := dpid + 1;
      id := Hex(dpid);
    }
  }

  function SwitchCount(nodes: seq<Node>): nat {
    if nodes == [] then 0 else SwitchCount(nodes[..|nodes| - 1]) + if nodes[|nodes| - 1].Host? then 0 else 1
  }

  /** Every switch has a datapath id of its own: numbers in turn, the latest for the last
      switch that was added. */
  ghost predicate IdsOk(nodes: seq<Node>, dpids: map<Node, string>, ids: map<Node, nat>, last: nat) {
    && ids.Keys == dpids.Keys && (forall x :: x in dpids <==> x in nodes && !x.Host?)
    && (forall x | x in ids :: dpids[x] == Hex(ids[x]) && ids[x] <= last)
    && (forall x, y | x in ids && y in ids && x != y :: ids[x] != ids[y])
    && (forall k | 0 <= k < |nodes| && !nodes[k].Host? :: IdAt(nodes, ids, last, k))
  }

  /** As many numbers were handed out after this one as switches came after. */
  predicate IdAt(nodes: seq<Node>, ids: map<Node, nat>, last: nat, k: nat) {
    k < |nodes| && nodes[k] in ids && ids[nodes[k]] + SwitchCount(nodes[k + 1..]) == last
  }

  lemma NextAt(nodes: seq<Node>, n: Node, k: nat)
    requires k < |nodes|
    ensures SwitchCount((nodes + [n])[k + 1..]) == SwitchCount(nodes[k + 1..]) + if n.Host? then 0 else 1
  {
    assert (nodes + [n])[k + 1..] == nodes[k + 1..] + [n];
  }

  lemma SwitchIdAdded(nodes: seq<Node>, dpids: map<Node, string>, ids: map<Node, nat>, last: nat, n: Node)
    requires IdsOk(nodes, dpids, ids, last) && n !in nodes && !n.Host?
    ensures IdsOk(nodes + [n], dpids[n := Hex(last + 1)], ids[n := last + 1], last + 1)
  {
    var more, ids' := nodes + [n], ids[n := last + 1];
    forall k | 0 <= k < |more| && !more[k].Host? ensures IdAt(more, ids', last + 1, k) {
      if k < |nodes| {
        assert more[k] == nodes[k] != n && IdAt(nodes, ids, last, k);
        NextAt(nodes, n, k);
      } else {
        assert more[k + 1..] == [];
      }
    }
  }

  lemma HostIdAdded(nodes: seq<Node>, dpids: map<Node, string>, ids: map<Node, nat>, last: nat, n: Node)
    requires IdsOk(nodes, dpids, ids, last) && n.Host?
    ensures IdsOk(nodes + [n], dpids, ids, last)
  {
    var more := nodes + [n];
    forall k | 0 <= k < |more| && !more[k].Host? ensures IdAt(more, ids, last, k) {
      assert more[k] == nodes[k] && IdAt(nodes, ids, last, k);
      NextAt(nodes, n, k);
    }
  }

  /** The id of each switch, read as a hexadecimal number, is its turn. */
  lemma IdsInTurn(nodes: seq<Node>, dpids: map<Node, string>, ids: map<Node, nat>, last: nat, k: nat)
    requires IdsOk(nodes, dpids, ids, last) && k < |nodes| && !nodes[k].Host?
    ensures nodes[k] in dpids && Proper(dpids[nodes[k]], 16)
    ensures ValueOf(dpids[nodes[k]], 16) + SwitchCount(nodes[k + 1..]) == last
  {
    assert IdAt(nodes, ids, last, k);
    HexIs(ids[nodes[k]]);
  }

  /** No two switches have the same datapath id. */
  lemma IdsDiffer(nodes: seq<Node>, dpids: map<Node, string>, ids: map<Node, nat>, last: nat, x: Node, y: Node)
    requires IdsOk(nodes, dpids, ids, last) && x in nodes && y in nodes && !x.Host? && !y.Host?
    ensures x in dpids && y in dpids && (dpids[x] == dpids[y] ==> x == y)
  {
    HexIs(ids[x]);
    HexIs(ids[y]);
  }

  // ---- the tree over the ToR switches -------------------------------------------------------

  /** m switches, numbered from c on. */
  function Row(c: nat, m: nat): seq<Node> { seq(m, (j: nat) => Switch(c + j)) }

  /** The links of one round for the first i nodes: two and two go under one switch. */
  function RoundLinks(todo: seq<Node>, c: nat, i: nat): seq<Link>
    requires i <= |todo|
  {
    if i == 0 then [] else RoundLinks(todo, c, i - 1) + [(todo[i - 1], Switch(c + (i - 1) / 2))]
  }

  function TreeNodes(todo: seq<Node>, c: nat): seq<Node>
    decreases |todo|
  {
    var m := (|todo| + 1) / 2;
    if |todo| <= 1 then [] else Row(c, m) + TreeNodes(Row(c, m), c + m)
  }

  function TreeLinks(todo: seq<Node>, c: nat): seq<Link>
    decreases |todo|
  {
    var m := (|todo| + 1) / 2;
    if |todo| <= 1 then [] else RoundLinks(todo, c, |todo|) + TreeLinks(Row(c, m), c + m)
  }

  function Root(todo: seq<Node>, c: nat): Node
    requires todo != []
    decreases |todo|
  {
    var m := (|todo| + 1) / 2;
    if |todo| == 1 then todo[0] else Root(Row(c, m), c + m)
  }

  /** The one root of the tree over these switches, if there are any. */
  ghost function Roots(todo: seq<Node>): set<Node> {
    if todo == [] then {} else {Root(todo, 1)}
  }

  ghost predicate Before(nodes: seq<Node>, c: nat) {
    forall x | x in nodes && x.Switch? :: x.id < c
  }

  /** These nodes are in the network, whose switches come before number c. */
  ghost predicate Among(todo: seq<Node>, nodes: seq<Node>, c: nat) {
    Before(nodes, c) && forall x | x in todo :: x in nodes
  }

  ghost function Left(todo: seq<Node>, i: nat): set<Node> {
    set k | i <= k < |todo| :: todo[k]
  }

  ghost function Pair(todo: seq<Node>, i: nat): set<Node>
    requires i < |todo|
  {
    if i + 1 < |todo| then {todo[i], todo[i + 1]} else {todo[i]}
  }

  function PairLinks(todo: seq<Node>, i: nat, sw: Node): seq<Link>
    requires i < |todo|
  {
    [(todo[i], sw)] + if i + 1 < |todo| then [(todo[i + 1], sw)] else []
  }

  lemma LeftAfter(todo: seq<Node>, i: nat, newTodo: seq<Node>, sw: Node)
    requires i < |todo| && Distinct(todo) && (forall x | x in newTodo :: x !in todo)
    ensures Left(todo, i) + SetOf(newTodo) - Pair(todo, i) + {sw} == Left(todo, i + 2) + SetOf(newTodo + [sw])
  {
  }

  lemma NetPair(nodes: seq<Node>, links: seq<Link>, order: seq<Node>, roots: set<Node>,
      todo: seq<Node>, i: nat, sw: Node)
    requires IsNet(nodes, links, order, roots) && sw !in nodes
    requires i < |todo| && Distinct(todo) && forall k | i <= k < |todo| :: todo[k] in roots && todo[k] != sw
    ensures IsNet(nodes + [sw], links + PairLinks(todo, i, sw), [sw] + order, roots - Pair(todo, i) + {sw})
  {
    hide IsNet;
    TopAdded(nodes, links, order, roots, sw);
    LinkedUp(nodes + [sw], links, [sw] + order, roots + {sw}, todo[i]);
    if i + 1 < |todo| {
      LinkedUp(nodes + [sw], links + [(todo[i], sw)], [sw] + order, roots + {sw} - {todo[i]}, todo[i + 1]);
      assert links + [(todo[i], sw)] + [(todo[i + 1], sw)] == links + PairLinks(todo, i, sw);
      assert roots + {sw} - {todo[i]} - {todo[i + 1]} == roots - Pair(todo, i) + {sw};
    } else {
      assert links + [(todo[i], sw)] == links + PairLinks(todo, i, sw);
      assert roots + {sw} - {todo[i]} == roots - Pair(todo, i) + {sw};
    }
  }

  lemma NoRoundLinks(todo: seq<Node>, c: nat)
    ensures RoundLinks(todo, c, 0) == []
  {
  }

  lemma RoundStep(nodes: seq<Node>, links: seq<Link>, todo: seq<Node>, c: nat)
    requires |todo| > 1
    ensures var row, links' := Row(c, (|todo| + 1) / 2), links + RoundLinks(todo, c, |todo|);
            && nodes + TreeNodes(todo, c) == (nodes + row) + TreeNodes(row, c + |row|)
            && links + TreeLinks(todo, c) == links' + TreeLinks(row, c + |row|)
            && Root(todo, c) == Root(row, c + |row|)
  {
    hide RoundLinks;
    var row := Row(c, (|todo| + 1) / 2);
    assert nodes + (row + TreeNodes(row, c + |row|)) == (nodes + row) + TreeNodes(row, c + |row|);
    var a, b := RoundLinks(todo, c, |todo|), TreeLinks(row, c + |row|);
    assert links + (a + b) == (links + a) + b;
  }

  lemma TreeDone(nodes: seq<Node>, links: seq<Link>, todo: seq<Node>, c: nat)
    requires |todo| <= 1
    ensures nodes + TreeNodes(todo, c) == nodes && links + TreeLinks(todo, c) == links
    ensures SetOf(todo) == if todo == [] then {} else {Root(todo, c)}
  {
  }

  lemma PairStep(links: seq<Link>, todo: seq<Node>, c: nat, i: nat)
    requires i < |todo| && i % 2 == 0
    ensures links + RoundLinks(todo, c, i) + PairLinks(todo, i, Switch(c + i / 2)) ==
            links + RoundLinks(todo, c, if i + 2 < |todo| then i + 2 else |todo|)
  {
  }

  /** Later switches are none of the nodes so far. */
  lemma NewSwitches(nodes: seq<Node>, todo: seq<Node>, c: nat, m: nat)
    requires Before(nodes, c) && forall x | x in todo :: x in nodes
    ensures (forall x | x in Row(c, m) :: x !in todo) && Switch(c + m) !in nodes + Row(c, m)
    ensures Before(nodes + Row(c, m) + [Switch(c + m)], c + m + 1)
  {
  }

  /** A network has one node for each name, however often it is added. `nodes` and `links`
      are what was added, told apart by number. */
  class Topology {
    const counter: Dpids
    var names: set<string>
    var wires: seq<Wire>
    var torSwitches: seq<Node>
    var dpids: map<Node, string>
    ghost var nodes: seq<Node>
    ghost var links: seq<Link>
    ghost var order: seq<Node>
    ghost var ids: map<Node, nat>

    ghost predicate Labelled()
      reads `names, `wires, `nodes, `links, `dpids, `ids, counter
    {
      names == NamesOf(nodes) && wires == WiresOf(links) && IdsOk(nodes, dpids, ids, counter.dpid)
    }

    ghost predicate Valid(roots: set<Node>)
      reads `names, `wires, `nodes, `links, `order, `dpids, `ids, counter
    {
      Labelled() && IsNet(nodes, links, order, roots)
    }

    constructor (racks: seq<seq<string>>, counter: Dpids)
      modifies counter
      ensures this.counter == counter && Valid(SetOf(torSwitches)) && UpToRack(nodes, |racks|)
      ensures nodes == AllNodes(racks, |racks|) && links == AllLinks(racks, |racks|) && torSwitches == TorsOf(|racks|)
    {
      this.counter := counter;
      names, wires, torSwitches, dpids := {}, [], [], map[];
      nodes, links, order, ids := [], [], [], map[];
      new;
      NetEmpty();
      AddRacks(racks);
    }

    method AddRacks(racks: seq<seq<string>>)
      requires Valid(SetOf(torSwitches)) && nodes == [] && links == [] && torSwitches == []
      modifies this, counter
      ensures Valid(SetOf(torSwitches)) && UpToRack(nodes, |racks|)
      ensures nodes == AllNodes(racks, |racks|) && links == AllLinks(racks, |racks|) && torSwitches == TorsOf(|racks|)
    {
      hide IsNet, IdsOk, AllNodes, AllLinks, TorsOf, RackNodes, RackLinks, UpToRack, NamesOf, WiresOf;
      NoRacks(racks);
      var rackCount := 1;
      while rackCount <= |racks|
        invariant 1 <= rackCount <= |racks| + 1
        invariant Valid(SetOf(torSwitches)) && UpToRack(nodes, rackCount - 1)
        invariant nodes == AllNodes(racks, rackCount - 1) && links == AllLinks(racks, rackCount - 1)
        invariant torSwitches == TorsOf(rackCount - 1)
      {
        NextRack(racks, rackCount);
        AddRack(rackCount, racks[rackCount - 1]);
        rackCount := rackCount + 1;
      }
    }

    method AddSwitch(n: Node)
      requires Labelled() && n !in nodes && !n.Host?
      modifies `names, `nodes, `dpids, `ids, counter
      ensures Labelled() && nodes == old(nodes) + [n]
    {
      hide IdsOk, NameOf;
      SwitchIdAdded(nodes, dpids, ids, counter.dpid, n);
      var id := counter.MakeDpid();
      nodes, dpids, ids := nodes + [n], dpids[n := id], ids[n := counter.dpid];
      names := names + {NameOf(n)};
    }

    method AddHostNode(n: Node)
      requires Labelled() && n.Host?
      modifies `names, `nodes
      ensures Labelled() && nodes == old(nodes) + [n]
    {
      HostIdAdded(nodes, dpids, ids, counter.dpid, n);
      nodes := nodes + [n];
      names := names + {NameOf(n)};
    }

    method AddLink(a: Node, b: Node)
      requires Labelled()
      modifies `wires, `links
      ensures Labelled() && links == old(links) + [(a, b)]
    {
      links := links + [(a, b)];
      wires := wires + [(NameOf(a), NameOf(b))];
    }

    /** A ToR switch with its hosts. */
    method AddRack(rackCount: nat, hosts: seq<string>)
      requires rackCount > 0 && UpToRack(nodes, rackCount - 1) && Valid(SetOf(torSwitches))
      modifies this, counter
      ensures nodes == old(nodes) + RackNodes(rackCount, |hosts|) && links == old(links) + RackLinks(rackCount, |hosts|)
      ensures torSwitches == old(torSwitches) + [Tor(rackCount)] && UpToRack(nodes, rackCount)
      ensures Valid(SetOf(torSwitches))
    {
      hide IsNet, IdsOk;
      AddTor(rackCount);
      ghost var roots := SetOf(torSwitches);
      var hostCount := 1;
      while hostCount <= |hosts|
        invariant 1 <= hostCount <= |hosts| + 1
        invariant nodes == old(nodes) + RackNodes(rackCount, hostCount - 1)
        invariant links == old(links) + RackLinks(rackCount, hostCount - 1)
        invariant torSwitches == old(torSwitches) + [Tor(rackCount)] && Tor(rackCount) in nodes
        invariant Valid(roots)
      {
        AddHost(rackCount, hostCount, roots);
        hostCount := hostCount + 1;
      }
    }

    method AddTor(rackCount: nat)
      requires Tor(rackCount) !in nodes && Valid(SetOf(torSwitches))
      modifies this, counter
      ensures nodes == old(nodes) + [Tor(rackCount)] && links == old(links)
      ensures torSwitches == old(torSwitches) + [Tor(rackCount)] && Valid(SetOf(torSwitches))
    {
      hide IsNet, IdsOk;
      var torSwitch := Tor(rackCount);
      RootAdded(nodes, links, order, SetOf(torSwitches), torSwitch);
      AddSwitch(torSwitch);
      order := order + [torSwitch];
      torSwitches := torSwitches + [torSwitch];
      assert SetOf(torSwitches) == SetOf(old(torSwitches)) + {torSwitch};
    }

    method AddHost(rackCount: nat, hostCount: nat, ghost roots: set<Node>)
      requires Host(rackCount, hostCount) !in nodes && Tor(rackCount) in nodes && Valid(roots)
      modifies `names, `wires, `nodes, `links, `order
      ensures nodes == old(nodes) + [Host(rackCount, hostCount)]
      ensures links == old(links) + [(Host(rackCount, hostCount), Tor(rackCount))]
      ensures Valid(roots)
    {
      hide IsNet, IdsOk;
      var host := Host(rackCount, hostCount);
      LeafAdded(nodes, links, order, roots, host, Tor(rackCount));
      AddHostNode(host);
      AddLink(host, Tor(rackCount));
      order := order + [host];
    }

    /** Joins the ToR switches in rounds: each round puts a switch over every two that are
        left, the last one alone if need be. */
    method FatTree()
      requires Valid(SetOf(torSwitches)) && Distinct(torSwitches)
      requires Among(torSwitches, nodes, 1)
      modifies `names, `wires, `nodes, `links, `order, `dpids, `ids, counter
      ensures nodes == old(nodes) + TreeNodes(torSwitches, 1) && links == old(links) + TreeLinks(torSwitches, 1)
      ensures Valid(Roots(torSwitches))
    {
      hide IsNet, IdsOk, TreeNodes, TreeLinks, Root, RoundLinks, Among, Row, SetOf, Distinct;
      ghost var allNodes, allLinks := nodes + TreeNodes(torSwitches, 1), links + TreeLinks(torSwitches, 1);
      ghost var roots := Roots(torSwitches);
      var todo, switchCount: nat := torSwitches, 1;
      while |todo| > 1
        invariant Distinct(todo) && Valid(SetOf(todo)) && Among(todo, nodes, switchCount)
        invariant nodes + TreeNodes(todo, switchCount) == allNodes
        invariant links + TreeLinks(todo, switchCount) == allLinks
        invariant if todo == [] then roots == {} else roots == {Root(todo, switchCount)}
        decreases |todo|
      {
        RoundStep(nodes, links, todo, switchCount);
        todo := Round(todo, switchCount);
        switchCount := switchCount + |todo|;
      }
      TreeDone(nodes, links, todo, switchCount);
    }

    /** One round: a new switch over every two of `todo`. */
    method Round(todo: seq<Node>, switchCount: nat) returns (newTodo: seq<Node>)
      requires |todo| > 1 && Distinct(todo) && Valid(SetOf(todo)) && Among(todo, nodes, switchCount)
      modifies `names, `wires, `nodes, `links, `order, `dpids, `ids, counter
      ensures newTodo == Row(switchCount, (|todo| + 1) / 2) && Distinct(newTodo) && |newTodo| == (|todo| + 1) / 2
      ensures nodes == old(nodes) + newTodo && links == old(links) + RoundLinks(todo, switchCount, |todo|)
      ensures Valid(SetOf(newTodo)) && Among(newTodo, nodes, switchCount + |newTodo|)
    {
      hide IsNet, IdsOk, RoundLinks, PairLinks, Before;
      ghost var nodes0, links0 := nodes, links;
      newTodo := [];
      var i := 0;
      NoRoundLinks(todo, switchCount);
      assert Left(todo, i) + SetOf(newTodo) == SetOf(todo);
      while i < |todo|
        invariant 0 <= i <= |todo| + 1 && i % 2 == 0
        invariant newTodo == Row(switchCount, i / 2) && nodes == nodes0 + newTodo
        invariant links == links0 + RoundLinks(todo, switchCount, if i < |todo| then i else |todo|)
        invariant Before(nodes, switchCount + |newTodo|)
        invariant Valid(Left(todo, i) + SetOf(newTodo))
      {
        var sw := Switch(switchCount + |newTodo|);
        NewSwitches(nodes0, todo, switchCount, |newTodo|);
        LeftAfter(todo, i, newTodo, sw);
        PairStep(links0, todo, switchCount, i);
        PutOver(todo, i, sw, Left(todo, i) + SetOf(newTodo));
        newTodo := newTodo + [sw];
        i := i + 2;
      }
      assert Left(todo, i) + SetOf(newTodo) == SetOf(newTodo);
    }

    method PutOver(todo: seq<Node>, i: nat, sw: Node, ghost roots: set<Node>)
      requires i < |todo| && Distinct(todo) && sw.Switch? && sw !in nodes && Valid(roots)
      requires forall k | i <= k < |todo| :: todo[k] in roots && todo[k] != sw
      modifies `names, `wires, `nodes, `links, `order, `dpids, `ids, counter
      ensures nodes == old(nodes) + [sw]
      ensures links == old(links) + PairLinks(todo, i, sw)
      ensures Valid(roots - Pair(todo, i) + {sw})
    {
      hide IsNet, IdsOk;
      NetPair(nodes, links, order, roots, todo, i, sw);
      AddSwitch(sw);
      order := [sw] + order;
      AddLink(todo[i], sw);
      if |todo| > i + 1 { AddLink(todo[i + 1], sw); }
    }
  }

  // ---- it is a tree -------------------------------------------------------------------------

  lemma {:induction false} ParentsAreLinks(links: seq<Link>, x: Node, p: Node)
    requires |ParentOf(links)| == |links|
    ensures (x, p) in links <==> x in ParentOf(links) && ParentOf(links)[x] == p
    decreases |links|
  {
    if links != [] {
      var front, l := links[..|links| - 1], links[|links| - 1];
      assert links == front + [l];
      FewerParents(front);
      NewParent(ParentOf(front), l.0, l.1);
      ParentsAreLinks(front, x, p);
      ParentsAreLinks(front, l.0, p);
    }
  }

  lemma NewParent(m: map<Node, Node>, x: Node, y: Node)
    ensures |m[x := y]| == if x in m then |m| else |m| + 1
  {
  }

  lemma {:induction false} FewerParents(links: seq<Link>)
    ensures |ParentOf(links)| <= |links|
    decreases |links|
  {
    if links != [] {
      var front, l := links[..|links| - 1], links[|links| - 1];
      FewerParents(front);
      NewParent(ParentOf(front), l.0, l.1);
    }
  }

  /** One link fewer than nodes, and just one path between any two. */
  lemma NetIsTree(nodes: seq<Node>, links: seq<Link>, order: seq<Node>, root: Node, u: Node, v: Node)
    returns (p: seq<Node>)
    requires IsNet(nodes, links, order, {root}) && u in nodes && v in nodes
    ensures IsTree(order, ParentOf(links)) && order[0] == root && |links| == |nodes| - 1
    ensures IsPath(order, ParentOf(links), p, u, v)
    ensures forall q | IsPath(order, ParentOf(links), q, u, v) :: q == p
  {
    assert root in {root};
    OnlyRoot(order, ParentOf(links), root);
    p := PathExists(order, ParentOf(links), u, v);
    forall q | IsPath(order, ParentOf(links), q, u, v) ensures q == p {
      PathUnique(order, ParentOf(links), q, p, u, v);
    }
  }

  lemma LinkedByLinks(nodes: seq<Node>, links: seq<Link>, order: seq<Node>, roots: set<Node>, a: Node, b: Node)
    requires IsNet(nodes, links, order, roots)
    ensures Linked(ParentOf(links), a, b) <==> (a, b) in links || (b, a) in links
  {
    ParentsAreLinks(links, a, b);
    ParentsAreLinks(links, b, a);
  }

  // ---- all racks are equally deep --------------------------------------------------------------

  function Height(n: nat): nat
    requires n > 0
  {
    if n == 1 then 0 else 1 + Height((n + 1) / 2)
  }

  function Pow2(k: nat): nat { if k == 0 then 1 else 2 * Pow2(k - 1) }

  /** The height is the logarithm to base two, rounded up. */
  lemma {:induction false} HeightIsLog(n: nat)
    requires n > 0
    ensures n <= Pow2(Height(n)) && (n > 1 ==> Pow2(Height(n) - 1) < n)
  {
    if n > 1 { HeightIsLog((n + 1) / 2); }
  }

  /** From x, this many links up, lies r. */
  ghost predicate Above(links: seq<Link>, x: Node, steps: nat, r: Node)
    decreases steps
  {
    if steps == 0 then x == r else exists p :: (x, p) in links && Above(links, p, steps - 1, r)
  }

  lemma {:induction false} RoundLinksHas(todo: seq<Node>, c: nat, n: nat, i: nat)
    requires i < n <= |todo|
    ensures (todo[i], Switch(c + i / 2)) in RoundLinks(todo, c, n)
  {
    if i < n - 1 { RoundLinksHas(todo, c, n - 1, i); }
  }

  /** Every ToR switch is as far below the root as the height of the tree. */
  lemma {:induction false} EquallyDeep(links: seq<Link>, todo: seq<Node>, c: nat, i: nat)
    requires i < |todo| && forall l | l in TreeLinks(todo, c) :: l in links
    ensures Above(links, todo[i], Height(|todo|), Root(todo, c))
    decreases |todo|
  {
    hide TreeLinks, Row;
    if |todo| > 1 {
      var row := NextRow(todo, c, i);
      EquallyDeep(links, row, c + |row|, i / 2);
    }
  }

  /** One round up: the next row, and the link to it. */
  lemma NextRow(todo: seq<Node>, c: nat, i: nat) returns (row: seq<Node>)
    requires i < |todo| && |todo| > 1
    ensures |row| == (|todo| + 1) / 2 < |todo| && row == Row(c, |row|) && i / 2 < |row|
    ensures Root(todo, c) == Root(row, c + |row|)
    ensures (todo[i], row[i / 2]) in TreeLinks(todo, c)
    ensures forall l | l in TreeLinks(row, c + |row|) :: l in TreeLinks(todo, c)
  {
    hide TreeLinks, RoundLinks, Root;
    row := Row(c, (|todo| + 1) / 2);
    RoundLinksHas(todo, c, |todo|, i);
    RoundStep([], [], todo, c);
    TreeSplit(todo, c);
  }

  // ---- names ------------------------------------------------------------------------------------

  /** Switches have different names. */
  lemma SwitchNamesDiffer(x: Node, y: Node)
    requires !x.Host? && !y.Host? && NameOf(x) == NameOf(y)
    ensures x == y
  {
    assert NameOf(x)[0] == (if x.Tor? then 't' else 's') && NameOf(y)[0] == (if y.Tor? then 't' else 's');
    if x.Tor? {
      assert NameOf(x)[3..] == Dec(x.rack) && NameOf(y)[3..] == Dec(y.rack);
      NumeralInjective(x.rack, y.rack, 10);
    } else {
      assert NameOf(x)[1..] == Dec(x.id) && NameOf(y)[1..] == Dec(y.id);
      NumeralInjective(x.id, y.id, 10);
    }
  }

  /** A name says which node it is: its letters, then its numbers in decimal digits, those of
      a host at least two digits long. */
  lemma NamesSpelled(n: Node) returns (p: string, q: string)
    ensures ValueOf(p, 10) == if n.Switch? then n.id else n.rack
    ensures n.Tor? ==> NameOf(n) == "tor" + p && Proper(p, 10)
    ensures n.Switch? ==> NameOf(n) == "s" + p && Proper(p, 10)
    ensures n.Host? ==> NameOf(n) == "h" + (p + q) && ValueOf(q, 10) == n.host
    ensures n.Host? ==> (if |p| > 2 then Proper(p, 10) else |p| == 2) && (if |q| > 2 then Proper(q, 10) else |q| == 2)
  {
    match n
    case Tor(rack) =>
      p, q := Dec(rack), [];
      DecIs(rack);
    case Switch(id) =>
      p, q := Dec(id), [];
      DecIs(id);
    case Host(rack, host) =>
      p, q := Pad2(rack), Pad2(host);
      Pad2Is(rack);
      Pad2Is(host);
  }

  // ---- one or two under each switch ----------------------------------------------------------------

  lemma {:induction false} RoundLinkIs(todo: seq<Node>, c: nat, i: nat, x: Node, j: nat)
    requires i <= |todo|
    ensures (x, Switch(c + j)) in RoundLinks(todo, c, i) <==>
            (2 * j < i && todo[2 * j] == x) || (2 * j + 1 < i && todo[2 * j + 1] == x)
  {
    if i > 0 { RoundLinkIs(todo, c, i - 1, x, j); }
  }

  lemma {:induction false} RoundGoesUp(todo: seq<Node>, c: nat, i: nat)
    requires i <= |todo|
    ensures forall l | l in RoundLinks(todo, c, i) :: l.1.Switch? && c <= l.1.id < c + (i + 1) / 2
  {
    if i > 0 { RoundGoesUp(todo, c, i - 1); }
  }

  lemma {:induction false} LaterSwitches(todo: seq<Node>, c: nat)
    ensures forall x | x in TreeNodes(todo, c) :: x.Switch? && x.id >= c
    ensures forall l | l in TreeLinks(todo, c) :: l.1.Switch? && l.1.id >= c
    decreases |todo|
  {
    if |todo| > 1 {
      var m := (|todo| + 1) / 2;
      LaterSwitches(Row(c, m), c + m);
      RoundGoesUp(todo, c, |todo|);
    }
  }

  /** The switches of the tree are put over one or two nodes each. */
  lemma {:induction false} OneOrTwoBelow(todo: seq<Node>, c: nat, sw: Node) returns (x: Node, y: Node)
    requires sw in TreeNodes(todo, c)
    ensures forall l: Link | l.1 == sw :: l in TreeLinks(todo, c) <==> l.0 == x || l.0 == y
    decreases |todo|
  {
    hide TreeLinks, TreeNodes;
    var row := Row(c, (|todo| + 1) / 2);
    TreeSplit(todo, c);
    LaterSwitches(row, c + |row|);
    RoundGoesUp(todo, c, |todo|);
    if sw in row {
      var j := sw.id - c;
      x, y := todo[2 * j], if 2 * j + 1 < |todo| then todo[2 * j + 1] else todo[2 * j];
      forall l: Link | l.1 == sw ensures l in TreeLinks(todo, c) <==> l.0 == x || l.0 == y {
        RoundLinkIs(todo, c, |todo|, l.0, j);
      }
    } else {
      x, y := OneOrTwoBelow(row, c + |row|, sw);
    }
  }

  lemma TreeSplit(todo: seq<Node>, c: nat)
    ensures TreeNodes(todo, c) != [] ==> |todo| > 1
    ensures |todo| > 1 ==>
              var row := Row(c, (|todo| + 1) / 2);
              && TreeNodes(todo, c) == row + TreeNodes(row, c + |row|)
              && TreeLinks(todo, c) == RoundLinks(todo, c, |todo|) + TreeLinks(row, c + |row|)
  {
  }

  /** The switches of the tree are numbered in the order in which they are added. */
  lemma {:induction false} NumberedInTurn(todo: seq<Node>, c: nat, k: nat)
    requires k < |TreeNodes(todo, c)|
    ensures TreeNodes(todo, c)[k] == Switch(c + k)
    decreases |todo|
  {
    var row := Row(c, (|todo| + 1) / 2);
    TreeSplit(todo, c);
    hide TreeNodes;
    if k >= |row| { NumberedInTurn(row, c + |row|, k - |row|); }
  }
}
