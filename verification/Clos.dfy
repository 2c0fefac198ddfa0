/** The Clos network: two core switches over pods of two switches, each over two racks. */
module Clos {
  import opened Sequences
  import opened Topology
  import opened HostNames
  import opened Networks

  type Racks = seq<seq<string>>

  /** The racks that are in a pod: all, or all but an odd last one. */
  function Wired(n: nat): (r: nat)
    ensures r <= n <= r + 1 && (r == n <==> n % 2 == 0)
  {
    n / 2 * 2
  }

  const CORE := [Switch(1), Switch(2)]

  /** The two switches of pod p. */
  function PodSwitch(p: nat, e: nat): Node { Switch(3 + 2 * p + e) }

  function PodNodes(pods: nat): seq<Node> {
    if pods == 0 then [] else PodNodes(pods - 1) + [PodSwitch(pods - 1, 0), PodSwitch(pods - 1, 1)]
  }

  /** Both switches of a pod are linked to both of its racks. */
  function OnePodLinks(p: nat): seq<Link> {
    [(PodSwitch(p, 0), Tor(2 * p + 1)), (PodSwitch(p, 1), Tor(2 * p + 1)),
     (PodSwitch(p, 0), Tor(2 * p + 2)), (PodSwitch(p, 1), Tor(2 * p + 2))]
  }

  function PodLinks(pods: nat): seq<Link> {
    if pods == 0 then [] else PodLinks(pods - 1) + OnePodLinks(pods - 1)
  }

  /** The k-th pod switch is linked to both core switches. */
  function CoreLinks(k: nat): seq<Link> {
    if k == 0 then [] else CoreLinks(k - 1) + [(Switch(1), Switch(2 + k)), (Switch(2), Switch(2 + k))]
  }

  // ---- the network, as it is built -----------------------------------------------------

  /** Rounding up comes after the integer division, so an odd rack is in no pod. */
  method BuildClos(racks: seq<seq<string>>, counter: Dpids) returns (net: Topology)
    modifies counter
    ensures net.nodes == NodesOf(racks) && net.links == LinksOf(racks)
    ensures net.names == NamesOf(net.nodes) && net.wires == WiresOf(net.links)
    ensures IdsOk(net.nodes, net.dpids, net.ids, counter.dpid)
  {
    hide IsNet, IdsOk, AllNodes, AllLinks, PodNodes, PodLinks, CoreLinks, TorsOf, NamesOf, WiresOf;
    net := new Topology(racks, counter);
    TorCount(|racks|);
    var numPods := |racks| / 2;
    BuildCore(net);
    var pod := BuildPods(net, numPods);
    WireCore(net, pod, numPods);
    Assembled(racks);
  }

  lemma TorCount(n: nat)
    ensures |TorsOf(n)| == n
  {
  }

  lemma Assembled(racks: Racks)
    ensures AllNodes(racks, |racks|) + CORE + PodNodes(|racks| / 2) == NodesOf(racks)
    ensures AllLinks(racks, |racks|) + PodLinks(|racks| / 2) + CoreLinks(Wired(|racks|)) == LinksOf(racks)
  {
    hide AllNodes, AllLinks, PodNodes, PodLinks, CoreLinks;
    Concat(AllNodes(racks, |racks|), CORE, PodNodes(|racks| / 2));
    Concat(AllLinks(racks, |racks|), PodLinks(|racks| / 2), CoreLinks(Wired(|racks|)));
  }

  method BuildCore(net: Topology)
    requires net.Labelled() && Before(net.nodes, 1)
    modifies net`names, net`nodes, net`dpids, net`ids, net.counter
    ensures net.nodes == old(net.nodes) + CORE && net.Labelled() && Before(net.nodes, 3)
  {
    hide IdsOk, NamesOf, WiresOf;
    net.AddSwitch(Switch(1));
    net.AddSwitch(Switch(2));
    assert net.nodes == old(net.nodes) + CORE;
  }

  method BuildPods(net: Topology, numPods: nat) returns (pod: seq<Node>)
    requires |net.torSwitches| >= 2 * numPods && net.torSwitches == TorsOf(|net.torSwitches|)
    requires net.Labelled() && Before(net.nodes, 3)
    modifies net`names, net`wires, net`nodes, net`links, net`dpids, net`ids, net.counter
    ensures pod == PodNodes(numPods) && net.Labelled()
    ensures net.nodes == old(net.nodes) + PodNodes(numPods) && net.links == old(net.links) + PodLinks(numPods)
  {
    hide IdsOk, NamesOf, WiresOf, Before;
    ghost var nodes, links := net.nodes, net.links;
    pod := [];
    for p := 0 to numPods
      invariant net.Labelled() && Before(net.nodes, 3 + 2 * p)
      invariant pod == PodNodes(p) && net.nodes == nodes + PodNodes(p) && net.links == links + PodLinks(p)
    {
      BuildPod(net, p);
      pod := pod + [PodSwitch(p, 0), PodSwitch(p, 1)];
    }
  }

  method BuildPod(net: Topology, p: nat)
    requires |net.torSwitches| >= 2 * p + 2 && net.torSwitches == TorsOf(|net.torSwitches|)
    requires net.Labelled() && Before(net.nodes, 3 + 2 * p)
    modifies net`names, net`wires, net`nodes, net`links, net`dpids, net`ids, net.counter
    ensures net.nodes == old(net.nodes) + [PodSwitch(p, 0), PodSwitch(p, 1)]
    ensures net.links == old(net.links) + OnePodLinks(p)
    ensures net.Labelled() && Before(net.nodes, 3 + 2 * (p + 1))
  {
    hide IdsOk, NamesOf, WiresOf;
    ghost var links := net.links;
    var p1, p2 := PodSwitch(p, 0), PodSwitch(p, 1);
    net.AddSwitch(p1);
    net.AddSwitch(p2);
    for i := p * 2 to (p + 1) * 2
      invariant net.nodes == old(net.nodes) + [p1, p2] && net.Labelled()
      invariant net.links == links + OnePodLinks(p)[..2 * (i - p * 2)]
    {
      var tor := net.torSwitches[i];
      net.AddLink(p1, tor);
      net.AddLink(p2, tor);
    }
  }

  method WireCore(net: Topology, pod: seq<Node>, numPods: nat)
    requires pod == PodNodes(numPods) && net.Labelled()
    modifies net`wires, net`links
    ensures net.links == old(net.links) + CoreLinks(numPods * 2) && net.Labelled()
  {
    hide IdsOk, NamesOf, WiresOf;
    PodSwitchAt(numPods, 0);
    ghost var links := net.links;
    for k := 0 to |pod|
      invariant net.links == links + CoreLinks(k) && net.Labelled()
    {
      PodSwitchAt(numPods, k);
      var i1, i2 := (k * 2) % 2, (k * 2 + 1) % 2;
      net.AddLink(CORE[i1], pod[k]);
      net.AddLink(CORE[i2], pod[k]);
    }
  }

  lemma {:induction false} PodSwitchAt(pods: nat, k: nat)
    ensures |PodNodes(pods)| == 2 * pods && (k < 2 * pods ==> PodNodes(pods)[k] == Switch(3 + k))
  {
    if pods > 0 { PodSwitchAt(pods - 1, k); }
  }

  // ---- which nodes are linked ---------------------------------------------------------------

  /** Host to its ToR switch, pod switch to the ToR switches of its pod, core to pod switch. */
  predicate IsLink(racks: Racks, l: Link) {
    var n := |racks|;
    match l
    case (Host(r, h), Tor(r')) => r == r' && 1 <= r <= n && 1 <= h <= |racks[r - 1]|
    case (Switch(s), Tor(r)) => s >= 3 && 1 <= r <= Wired(n) && (s - 3) / 2 == (r - 1) / 2
    case (Switch(c), Switch(s)) => 1 <= c <= 2 && 3 <= s < 3 + Wired(n)
    case _ => false
  }

  function LinksOf(racks: Racks): seq<Link> {
    AllLinks(racks, |racks|) + (PodLinks(|racks| / 2) + CoreLinks(Wired(|racks|)))
  }

  function NodesOf(racks: Racks): seq<Node> {
    AllNodes(racks, |racks|) + (CORE + PodNodes(|racks| / 2))
  }

  lemma {:induction false} PodLinkIs(pods: nat, l: Link)
    ensures l in PodLinks(pods) <==>
            && l.0.Switch? && l.1.Tor? && l.0.id >= 3 && 1 <= l.1.rack <= 2 * pods
            && (l.0.id - 3) / 2 == (l.1.rack - 1) / 2
  {
    if pods > 0 { PodLinkIs(pods - 1, l); }
  }

  lemma {:induction false} CoreLinkIs(k: nat, l: Link)
    ensures l in CoreLinks(k) <==> l.0.Switch? && l.1.Switch? && 1 <= l.0.id <= 2 && 3 <= l.1.id < 3 + k
  {
    if k > 0 { CoreLinkIs(k - 1, l); }
  }

  lemma LinkIs(racks: Racks, l: Link)
    ensures l in LinksOf(racks) <==> IsLink(racks, l)
  {
    hide AllLinks, PodLinks, CoreLinks;
    HostLinkIs(racks, |racks|, l);
    PodLinkIs(|racks| / 2, l);
    CoreLinkIs(Wired(|racks|), l);
  }

  predicate IsNode(racks: Racks, x: Node) {
    match x
    case Tor(r) => 1 <= r <= |racks|
    case Host(r, h) => 1 <= r <= |racks| && 1 <= h <= |racks[r - 1]|
    case Switch(s) => 1 <= s < 3 + Wired(|racks|)
  }

  lemma {:induction false} PodNodeIs(pods: nat, x: Node)
    ensures x in PodNodes(pods) <==> x.Switch? && 3 <= x.id < 3 + 2 * pods
  {
    if pods > 0 { PodNodeIs(pods - 1, x); }
  }

  lemma NodeIs(racks: Racks, x: Node)
    ensures x in NodesOf(racks) <==> IsNode(racks, x)
  {
    RackNodeIs(racks, |racks|, x);
    PodNodeIs(|racks| / 2, x);
    assert x in CORE <==> x == CORE[0] || x == CORE[1];
  }

  // ---- each node and each link once ------------------------------------------------------------

  lemma {:induction false} RacksOnce(racks: Racks, n: nat)
    requires n <= |racks|
    ensures Distinct(AllNodes(racks, n)) && Distinct(AllLinks(racks, n))
  {
    if n > 0 {
      var nodes, links := RackNodes(n, |racks[n - 1]|), RackLinks(n, |racks[n - 1]|);
      RacksOnce(racks, n - 1);
      OneRackOnce(n, |racks[n - 1]|);
      forall x | x in AllNodes(racks, n - 1) ensures x !in nodes {
        RackNodeIs(racks, n - 1, x);
        OneRackHas(n, |racks[n - 1]|, x);
      }
      forall l | l in AllLinks(racks, n - 1) ensures l !in links {
        HostLinkIs(racks, n - 1, l);
      }
      DistinctBoth(AllNodes(racks, n - 1), nodes);
      DistinctBoth(AllLinks(racks, n - 1), links);
    }
  }

  lemma OneRackOnce(r: nat, hosts: nat)
    ensures Distinct(RackNodes(r, hosts)) && Distinct(RackLinks(r, hosts))
  {
  }

  lemma {:induction false} PodsOnce(pods: nat)
    ensures Distinct(PodNodes(pods)) && Distinct(PodLinks(pods))
  {
    if pods > 0 {
      var nodes, links := [PodSwitch(pods - 1, 0), PodSwitch(pods - 1, 1)], OnePodLinks(pods - 1);
      PodsOnce(pods - 1);
      OnePodOnce(pods - 1);
      hide Distinct, OnePodLinks;
      forall x | x in PodNodes(pods - 1) ensures x !in nodes { PodNodeIs(pods - 1, x); }
      forall l | l in PodLinks(pods - 1) ensures l !in links { PodLinkIs(pods - 1, l); }
      DistinctBoth(PodNodes(pods - 1), nodes);
      DistinctBoth(PodLinks(pods - 1), links);
    }
  }

  lemma OnePodOnce(p: nat)
    ensures Distinct([PodSwitch(p, 0), PodSwitch(p, 1)]) && Distinct(OnePodLinks(p))
    ensures forall l | l in OnePodLinks(p) :: l.1.Tor? && l.1.rack > 2 * p
  {
  }

  lemma {:induction false} CoreOnce(k: nat)
    ensures Distinct(CoreLinks(k))
  {
    if k > 0 {
      var links := [(Switch(1), Switch(2 + k)), (Switch(2), Switch(2 + k))];
      CoreOnce(k - 1);
      forall l | l in CoreLinks(k - 1) ensures l !in links { CoreLinkIs(k - 1, l); }
      DistinctBoth(CoreLinks(k - 1), links);
    }
  }

  /** No node and no link is added twice. */
  lemma AddedOnce(racks: Racks)
    ensures Distinct(NodesOf(racks)) && Distinct(LinksOf(racks))
  {
    hide AllNodes, AllLinks, PodNodes, PodLinks, CoreLinks, Distinct;
    var n, pods := |racks|, |racks| / 2;
    RacksOnce(racks, n);
    PodsOnce(pods);
    CoreOnce(Wired(n));
    CoreIsDistinct();
    PartsDisjoint(racks);
    DistinctBoth(CORE, PodNodes(pods));
    DistinctBoth(AllNodes(racks, n), CORE + PodNodes(pods));
    DistinctBoth(PodLinks(pods), CoreLinks(Wired(n)));
    DistinctBoth(AllLinks(racks, n), PodLinks(pods) + CoreLinks(Wired(n)));
  }

  lemma PartsDisjoint(racks: Racks)
    ensures Disjoint(CORE, PodNodes(|racks| / 2))
    ensures Disjoint(AllNodes(racks, |racks|), CORE + PodNodes(|racks| / 2))
    ensures Disjoint(PodLinks(|racks| / 2), CoreLinks(Wired(|racks|)))
    ensures Disjoint(AllLinks(racks, |racks|), PodLinks(|racks| / 2) + CoreLinks(Wired(|racks|)))
  {
    hide AllNodes, AllLinks, PodNodes, PodLinks, CoreLinks;
    var n, pods := |racks|, |racks| / 2;
    forall x | x in CORE ensures x !in PodNodes(pods) { PodNodeIs(pods, x); }
    forall x | x in AllNodes(racks, n) ensures x !in CORE + PodNodes(pods) {
      RackNodeIs(racks, n, x);
      PodNodeIs(pods, x);
    }
    forall l | l in PodLinks(pods) ensures l !in CoreLinks(Wired(n)) {
      PodLinkIs(pods, l);
      CoreLinkIs(Wired(n), l);
    }
    forall l | l in AllLinks(racks, n) ensures l !in PodLinks(pods) + CoreLinks(Wired(n)) {
      HostLinkIs(racks, n, l);
      PodLinkIs(pods, l);
      CoreLinkIs(Wired(n), l);
    }
  }

  lemma CoreIsDistinct()
    ensures Distinct(CORE)
  {
  }

  // ---- routes over the switches ----------------------------------------------------------------

  lemma JoinedIs(racks: Racks, x: Node, y: Node)
    ensures Joined(LinksOf(racks), x, y) <==> IsLink(racks, (x, y)) || IsLink(racks, (y, x))
  {
    LinkIs(racks, (x, y));
    LinkIs(racks, (y, x));
  }

  function Pod(r: nat): nat
    requires r > 0
  {
    (r - 1) / 2
  }

  /** A switch of rack r's pod, not this one. */
  function SwitchOf(r: nat, avoid: Node): Node
    requires r > 0
  {
    PodSwitch(Pod(r), if avoid == PodSwitch(Pod(r), 0) then 1 else 0)
  }

  function CoreBut(avoid: Node): Node { if avoid == Switch(1) then Switch(2) else Switch(1) }

  /** A way between ToR switches around one switch. */
  function WayAround(i: nat, j: nat, avoid: Node): seq<Node>
    requires i > 0 && j > 0
  {
    if i == j then [Tor(i)]
    else if Pod(i) == Pod(j) then [Tor(i), SwitchOf(i, avoid), Tor(j)]
    else [Tor(i), SwitchOf(i, avoid), CoreBut(avoid), SwitchOf(j, avoid), Tor(j)]
  }

  lemma TorToPod(racks: Racks, i: nat, avoid: Node)
    requires 1 <= i <= Wired(|racks|)
    ensures Joined(LinksOf(racks), Tor(i), SwitchOf(i, avoid)) && Joined(LinksOf(racks), SwitchOf(i, avoid), Tor(i))
  {
    JoinedIs(racks, Tor(i), SwitchOf(i, avoid));
    JoinedIs(racks, SwitchOf(i, avoid), Tor(i));
  }

  lemma PodToCore(racks: Racks, i: nat, avoid: Node)
    requires 1 <= i <= Wired(|racks|)
    ensures Joined(LinksOf(racks), SwitchOf(i, avoid), CoreBut(avoid))
    ensures Joined(LinksOf(racks), CoreBut(avoid), SwitchOf(i, avoid))
  {
    JoinedIs(racks, SwitchOf(i, avoid), CoreBut(avoid));
    JoinedIs(racks, CoreBut(avoid), SwitchOf(i, avoid));
  }

  lemma SamePod(i: nat, j: nat, avoid: Node)
    requires i > 0 && j > 0 && Pod(i) == Pod(j)
    ensures SwitchOf(i, avoid) == SwitchOf(j, avoid)
  {
  }

  lemma WayIsRoute(racks: Racks, i: nat, j: nat, avoid: Node)
    requires |racks| % 2 == 0 && 1 <= i <= |racks| && 1 <= j <= |racks|
    ensures IsRoute(LinksOf(racks), WayAround(i, j, avoid), Tor(i), Tor(j))
  {
    TorToPod(racks, i, avoid);
    TorToPod(racks, j, avoid);
    PodToCore(racks, i, avoid);
    PodToCore(racks, j, avoid);
    if Pod(i) == Pod(j) { SamePod(i, j, avoid); }
    hide Pod, SwitchOf, CoreBut, LinksOf, Joined;
  }

  lemma WayAvoids(i: nat, j: nat, avoid: Node)
    requires i > 0 && j > 0 && avoid.Switch?
    ensures forall x | x in WayAround(i, j, avoid) :: x != avoid && !x.Host?
  {
  }

  /** With an even number of racks, no core or pod switch cuts two racks off each other. */
  lemma NoSwitchCuts(racks: Racks, i: nat, j: nat, avoid: Node)
    requires |racks| % 2 == 0 && 1 <= i <= |racks| && 1 <= j <= |racks| && avoid.Switch?
    ensures var w := Named(WayAround(i, j, avoid));
            && IsWalk(WiresOf(LinksOf(racks)), w, NameOf(Tor(i)), NameOf(Tor(j))) && NameOf(avoid) !in w
            && |w| - 1 == if i == j then 0 else if Pod(i) == Pod(j) then 2 else 4
  {
    var r := WayAround(i, j, avoid);
    WayIsRoute(racks, i, j, avoid);
    WayAvoids(i, j, avoid);
    RouteIsWalk(LinksOf(racks), r, Tor(i), Tor(j));
    forall k | 0 <= k < |r| ensures Named(r)[k] != NameOf(avoid) {
      if NameOf(r[k]) == NameOf(avoid) { SwitchNamesDiffer(r[k], avoid); }
    }
  }

  // ---- distances, by name ----------------------------------------------------------------------

  /** A node with this name is next to ToR switch i. */
  ghost predicate NextTo(racks: Racks, i: nat, a: string, x: Node) {
    && i > 0 && NameOf(x) == a
    && match x {
         case Host(r, h) => r == i && IsHost(racks, x)
         case Switch(s) => s >= 3 && (s - 3) / 2 == Pod(i) && i <= Wired(|racks|)
         case Tor(_) => false
       }
  }

  lemma JoinedToTor(racks: Racks, i: nat, y: Node)
    requires IsLink(racks, (Tor(i), y)) || IsLink(racks, (y, Tor(i)))
    ensures i > 0 && NextTo(racks, i, NameOf(y), y)
  {
    hide NameOf;
  }

  lemma NextToTor(racks: Racks, i: nat, a: string) returns (x: Node)
    requires i > 0 && Adjacent(WiresOf(LinksOf(racks)), NameOf(Tor(i)), a)
    ensures NextTo(racks, i, a, x)
  {
    hide NameOf, WiresOf, LinksOf, Wired, IsHost;
    var t, y := AdjacentJoined(LinksOf(racks), NameOf(Tor(i)), a);
    if t != Tor(i) { SharedAreHosts(t, Tor(i)); }
    JoinedIs(racks, t, y);
    JoinedToTor(racks, i, y);
    x := y;
  }

  lemma AdjacentBack(wires: seq<Wire>, a: string, b: string)
    ensures Adjacent(wires, a, b) <==> Adjacent(wires, b, a)
  {
  }

  /** Names next to two racks: a shared host, or a switch of their pod. */
  lemma NextToBoth(racks: Racks, i: nat, j: nat, a: string, x: Node, y: Node)
    requires NextTo(racks, i, a, x) && NextTo(racks, j, a, y) && i != j
    ensures Pod(i) == Pod(j) || Twins(racks, i, j)
  {
    if x != y {
      SharedAreHosts(x, y);
      SharedIsTwin(racks, x, y);
    }
  }

  /** What is next to a rack is not next to what is next to a rack. */
  lemma NotNextToEachOther(racks: Racks, i: nat, j: nat, a: string, b: string, x: Node, y: Node)
    requires NextTo(racks, i, a, x) && NextTo(racks, j, b, y)
    ensures !Adjacent(WiresOf(LinksOf(racks)), a, b)
  {
    if Adjacent(WiresOf(LinksOf(racks)), a, b) {
      var u, v := AdjacentJoined(LinksOf(racks), a, b);
      if u != x { SharedAreHosts(u, x); }
      if v != y { SharedAreHosts(v, y); }
      JoinedIs(racks, u, v);
    }
  }

  lemma TorNotNextToTor(racks: Racks, i: nat, j: nat, x: Node)
    ensures !NextTo(racks, i, NameOf(Tor(j)), x)
  {
    if NameOf(x) == NameOf(Tor(j)) && x != Tor(j) { SharedAreHosts(x, Tor(j)); }
  }

  /** There is no shorter way, unless the racks are in different pods and share a host by
      name: then two links do. */
  lemma Distance(racks: Racks, i: nat, j: nat, w: seq<string>)
    requires i > 0 && j > 0 && i != j && IsWalk(WiresOf(LinksOf(racks)), w, NameOf(Tor(i)), NameOf(Tor(j)))
    ensures |w| - 1 >= if Pod(i) == Pod(j) || Twins(racks, i, j) then 2 else 4
  {
    hide NameOf, LinksOf, WiresOf, Pod, Twins;
    if NameOf(Tor(i)) == NameOf(Tor(j)) { SwitchNamesDiffer(Tor(i), Tor(j)); }
    if 1 < |w| < 5 {
      var n := |w| - 1;
      var x, y := EndsOfWalk(racks, i, j, w);
      TorNotNextToTor(racks, i, j, x);
      if n == 2 {
        NextToBoth(racks, i, j, w[1], x, y);
      } else if n == 3 {
        assert StepAt(WiresOf(LinksOf(racks)), w, 2);
        NotNextToEachOther(racks, i, j, w[1], w[2], x, y);
      }
    }
  }

  lemma EndsOfWalk(racks: Racks, i: nat, j: nat, w: seq<string>) returns (x: Node, y: Node)
    requires i > 0 && j > 0 && |w| > 1 && IsWalk(WiresOf(LinksOf(racks)), w, NameOf(Tor(i)), NameOf(Tor(j)))
    ensures NextTo(racks, i, w[1], x) && NextTo(racks, j, w[|w| - 2], y)
  {
    var wires, n := WiresOf(LinksOf(racks)), |w| - 1;
    assert StepAt(wires, w, 1) && StepAt(wires, w, n);
    AdjacentBack(wires, w[n - 1], w[n]);
    x := NextToTor(racks, i, w[1]);
    y := NextToTor(racks, j, w[n - 1]);
  }

  lemma SharedHostIsShort(racks: Racks, i: nat, j: nat) returns (w: seq<string>)
    requires Twins(racks, i, j)
    ensures IsWalk(WiresOf(LinksOf(racks)), w, NameOf(Tor(i)), NameOf(Tor(j))) && |w| == 3
  {
    var a, b := TwinsShare(racks, i, j);
    HostToTor(racks, a);
    HostToTor(racks, b);
    JoinedAdjacent(LinksOf(racks), Tor(i), a);
    JoinedAdjacent(LinksOf(racks), b, Tor(j));
    w := [NameOf(Tor(i)), NameOf(a), NameOf(Tor(j))];
    hide NameOf, WiresOf, LinksOf;
    assert StepAt(WiresOf(LinksOf(racks)), w, 1) && StepAt(WiresOf(LinksOf(racks)), w, 2);
  }

  lemma HostToTor(racks: Racks, x: Node)
    requires IsHost(racks, x)
    ensures Joined(LinksOf(racks), x, Tor(x.rack)) && Joined(LinksOf(racks), Tor(x.rack), x)
  {
    JoinedIs(racks, x, Tor(x.rack));
    JoinedIs(racks, Tor(x.rack), x);
  }

  /** Racks of different pods are four links apart if and only if they are not twins. */
  lemma FourAcross(racks: Racks, i: nat, j: nat)
    requires |racks| % 2 == 0 && 1 <= i <= |racks| && 1 <= j <= |racks| && Pod(i) != Pod(j)
    ensures (exists w :: IsWalk(WiresOf(LinksOf(racks)), w, NameOf(Tor(i)), NameOf(Tor(j))) && |w| < 5)
            <==> Twins(racks, i, j)
  {
    if w :| IsWalk(WiresOf(LinksOf(racks)), w, NameOf(Tor(i)), NameOf(Tor(j))) && |w| < 5 {
      Distance(racks, i, j, w);
    }
    if Twins(racks, i, j) {
      var w := SharedHostIsShort(racks, i, j);
    }
  }

  // ---- connected --------------------------------------------------------------------------------

  /** A way to the first core switch, for all but an odd last rack. */
  function ToCore(x: Node): seq<Node>
    requires x.Switch? ==> x.id >= 1
    requires !x.Switch? ==> x.rack >= 1
  {
    match x
    case Switch(s) => if s == 1 then [x] else if s == 2 then [x, Switch(3), Switch(1)] else [x, Switch(1)]
    case Tor(r) => [x, PodSwitch(Pod(r), 0), Switch(1)]
    case Host(r, _) => [x, Tor(r), PodSwitch(Pod(r), 0), Switch(1)]
  }

  lemma ToCoreIsRoute(racks: Racks, x: Node)
    requires |racks| >= 2 && IsNode(racks, x) && (!x.Switch? ==> x.rack <= Wired(|racks|))
    ensures IsRoute(LinksOf(racks), ToCore(x), x, Switch(1))
  {
    var w := ToCore(x);
    forall k | 0 < k < |w| ensures JoinedAt(LinksOf(racks), w, k) {
      JoinedIs(racks, w[k - 1], w[k]);
    }
  }

  const HUB := NameOf(Switch(1))

  lemma ReachesCore(racks: Racks, x: Node)
    requires |racks| >= 2 && IsNode(racks, x) && (!x.Switch? ==> x.rack <= Wired(|racks|))
    ensures IsWalk(WiresOf(LinksOf(racks)), Named(ToCore(x)), NameOf(x), HUB)
  {
    ToCoreIsRoute(racks, x);
    RouteIsWalk(LinksOf(racks), ToCore(x), x, Switch(1));
  }

  lemma OneMoreStep(wires: seq<Wire>, w: seq<string>, a: string, b: string, c: string)
    requires IsWalk(wires, w, b, c) && Adjacent(wires, a, b)
    ensures IsWalk(wires, [a] + w, a, c)
  {
    forall k | 0 < k < |[a] + w| ensures StepAt(wires, [a] + w, k) {
      if k > 1 { assert StepAt(wires, w, k - 1); }
    }
  }

  /** The last rack's number is another's and some digits more, as that rack's hosts' are. */
  ghost predicate LastShares(racks: Racks) {
    exists r, x :: Clash(racks, r, x) && Join(r, x) == |racks|
  }

  /** The odd last rack reaches the core over a host it shares by name. */
  lemma LastReachesCore(racks: Racks) returns (w: seq<string>)
    requires |racks| % 2 == 1 && LastShares(racks)
    ensures IsWalk(WiresOf(LinksOf(racks)), w, NameOf(Tor(|racks|)), HUB)
  {
    var n := |racks|;
    var r, x :| Clash(racks, r, x) && Join(r, x) == n;
    JoinIsMore(r, x);
    assert Twins(racks, r, n);
    var a, b := TwinsShare(racks, r, n);
    ReachesCore(racks, a);
    HostToTor(racks, b);
    JoinedAdjacent(LinksOf(racks), Tor(n), b);
    w := Named(ToCore(a));
    OneMoreStep(WiresOf(LinksOf(racks)), w, NameOf(Tor(n)), NameOf(a), HUB);
    w := [NameOf(Tor(n))] + w;
  }

  lemma AllReachCore(racks: Racks, x: Node) returns (w: seq<string>)
    requires |racks| > 0 && (|racks| % 2 == 0 || LastShares(racks)) && IsNode(racks, x)
    ensures IsWalk(WiresOf(LinksOf(racks)), w, NameOf(x), HUB)
  {
    if |racks| % 2 == 1 { LastIsLate(racks); }
    hide Wired;
    if !x.Switch? && x.rack > Wired(|racks|) {
      w := LateReachesCore(racks, x);
    } else {
      ReachesCore(racks, x);
      w := Named(ToCore(x));
    }
  }

  lemma LateReachesCore(racks: Racks, x: Node) returns (w: seq<string>)
    requires |racks| % 2 == 1 && LastShares(racks) && IsNode(racks, x) && !x.Switch? && x.rack == |racks|
    ensures IsWalk(WiresOf(LinksOf(racks)), w, NameOf(x), HUB)
  {
    w := LastReachesCore(racks);
    if x.Host? {
      HostToTor(racks, x);
      JoinedAdjacent(LinksOf(racks), x, Tor(x.rack));
      OneMoreStep(WiresOf(LinksOf(racks)), w, NameOf(x), NameOf(Tor(x.rack)), HUB);
      w := [NameOf(x)] + w;
    }
  }

  lemma LastIsLate(racks: Racks)
    requires LastShares(racks)
    ensures |racks| >= 2
  {
    var r, x :| Clash(racks, r, x) && Join(r, x) == |racks|;
    JoinIsMore(r, x);
  }

  /** The last of an odd number of racks, or one of its hosts. */
  ghost predicate OfLast(racks: Racks, a: string, x: Node) {
    NameOf(x) == a && (x == Tor(|racks|) || (x.Host? && x.rack == |racks| && IsHost(racks, x)))
  }

  lemma StaysOfLast(racks: Racks, a: string, b: string, x: Node) returns (y: Node)
    requires |racks| % 2 == 1 && !LastShares(racks) && OfLast(racks, a, x)
    requires Adjacent(WiresOf(LinksOf(racks)), a, b)
    ensures OfLast(racks, b, y)
  {
    hide NameOf, WiresOf, LinksOf, LastShares, Twins;
    var u, v := AdjacentJoined(LinksOf(racks), a, b);
    JoinedIs(racks, u, v);
    y := v;
    if u != x {
      SharedAreHosts(u, x);
      SharedIsTwin(racks, u, x);
      NotLastTwin(racks, u.rack);
    }
  }

  lemma NotLastTwin(racks: Racks, r: nat)
    requires !LastShares(racks) && r <= |racks|
    ensures !Twins(racks, r, |racks|)
  {
    forall x: nat | x > 0 ensures Join(|racks|, x) >= 10 * |racks| { JoinIsMore(|racks|, x); }
  }

  /** Without a shared host, only its own hosts can be reached from that rack. */
  lemma {:induction false} LastRackAlone(racks: Racks, w: seq<string>, b: string) returns (y: Node)
    requires |racks| % 2 == 1 && !LastShares(racks)
    requires IsWalk(WiresOf(LinksOf(racks)), w, NameOf(Tor(|racks|)), b)
    ensures OfLast(racks, b, y)
    decreases |w|
  {
    if |w| == 1 {
      y := Tor(|racks|);
    } else {
      var front, wires := w[..|w| - 1], WiresOf(LinksOf(racks));
      forall k | 0 < k < |front| ensures StepAt(wires, front, k) { assert StepAt(wires, w, k); }
      var x := LastRackAlone(racks, front, front[|front| - 1]);
      assert StepAt(wires, w, |w| - 1);
      y := StaysOfLast(racks, w[|w| - 2], b, x);
    }
  }

  lemma CoreNotOfLast(racks: Racks, x: Node)
    ensures !OfLast(racks, HUB, x)
  {
    if NameOf(x) == HUB && x != Switch(1) { SharedAreHosts(x, Switch(1)); }
  }

  lemma NoRacksAlone(racks: Racks, w: seq<string>)
    requires racks == []
    ensures !IsWalk(WiresOf(LinksOf(racks)), w, HUB, NameOf(Switch(2)))
  {
    if HUB == NameOf(Switch(2)) { SwitchNamesDiffer(Switch(1), Switch(2)); }
    if |w| > 1 && StepAt(WiresOf(LinksOf(racks)), w, 1) {
      var u, v := AdjacentJoined(LinksOf(racks), w[0], w[1]);
      JoinedIs(racks, u, v);
    }
  }

  ghost predicate AllConnected(racks: Racks) {
    forall a, b | a in NamesOf(NodesOf(racks)) && b in NamesOf(NodesOf(racks)) ::
      Connected(WiresOf(LinksOf(racks)), a, b)
  }

  lemma EvenConnects(racks: Racks)
    requires |racks| > 0 && (|racks| % 2 == 0 || LastShares(racks))
    ensures AllConnected(racks)
  {
    forall a, b | a in NamesOf(NodesOf(racks)) && b in NamesOf(NodesOf(racks))
      ensures Connected(WiresOf(LinksOf(racks)), a, b)
    {
      var x, y :| x in NodesOf(racks) && NameOf(x) == a && y in NodesOf(racks) && NameOf(y) == b;
      NodeIs(racks, x);
      NodeIs(racks, y);
      var u := AllReachCore(racks, x);
      var v := AllReachCore(racks, y);
      BackAndForth(WiresOf(LinksOf(racks)), u, v, a, b, HUB);
    }
  }

  lemma OddCutsOff(racks: Racks)
    requires racks == [] || (|racks| % 2 == 1 && !LastShares(racks))
    ensures !AllConnected(racks)
  {
    var x := if racks == [] then Switch(2) else Tor(|racks|);
    NodeIs(racks, x);
    NodeIs(racks, Switch(1));
    var a, b := if racks == [] then HUB else NameOf(x), if racks == [] then NameOf(x) else HUB;
    if AllConnected(racks) {
      assert Connected(WiresOf(LinksOf(racks)), a, b);
      var w :| IsWalk(WiresOf(LinksOf(racks)), w, a, b);
      if racks == [] {
        NoRacksAlone(racks, w);
      } else {
        var y := LastRackAlone(racks, w, HUB);
        CoreNotOfLast(racks, y);
      }
    }
  }

  /** The network is connected if and only if there are racks and their number is even, or
      a host of the last rack has the name of another rack's. */
  lemma ConnectedIfEven(racks: Racks)
    ensures AllConnected(racks) <==> |racks| > 0 && (|racks| % 2 == 0 || LastShares(racks))
  {
    if |racks| > 0 && (|racks| % 2 == 0 || LastShares(racks)) {
      EvenConnects(racks);
    } else {
      OddCutsOff(racks);
    }
  }

  // ---- where it fails ---------------------------------------------------------------------------

  lemma CrowdedClashes(more: Racks)
    ensures Clash(Crowded() + more, 10, 1) && Join(10, 1) == 101
  {
    var racks := Crowded() + more;
    assert racks[9] == Crowded()[9] && racks[100] == Crowded()[100];
  }

  /** 102 racks, of which two in different pods are two links apart. */
  lemma CrowdedIsClose()
    ensures var racks := Crowded() + [["a"]];
            && |racks| % 2 == 0 && Pod(10) != Pod(101)
            && exists w :: IsWalk(WiresOf(LinksOf(racks)), w, NameOf(Tor(10)), NameOf(Tor(101))) && |w| < 5
  {
    hide NameOf, WiresOf, LinksOf, Crowded, Clash;
    var racks := Crowded() + [["a"]];
    CrowdedClashes([["a"]]);
    CrowdedSize();
    ClashingTwins(racks);
    FourAcross(racks, 10, 101);
  }

  lemma CrowdedSize()
    ensures |Crowded()| == 101
  {
  }

  lemma ClashingTwins(racks: Racks)
    requires Clash(racks, 10, 1) && Join(10, 1) == 101
    ensures Twins(racks, 10, 101)
  {
  }

  /** One rack, which is not connected to the core. */
  lemma OneRackAlone()
    ensures !AllConnected([["a"]])
  {
    var racks := [["a"]];
    if LastShares(racks) { LastIsLate(racks); }
    ConnectedIfEven(racks);
  }

  /** 101 racks, an odd number, which a shared host connects. */
  lemma CrowdedIsConnected()
    ensures |Crowded()| % 2 == 1 && AllConnected(Crowded())
  {
    CrowdedClashes([]);
    assert Crowded() + [] == Crowded();
    assert LastShares(Crowded());
    ConnectedIfEven(Crowded());
  }
}
