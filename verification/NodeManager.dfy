/** One node manager: the containers it holds, and what it reports of them. */
module NodeManager {
  import opened Options
  import opened Sequences
  import opened MapReduce

  /** `queue` holds the containers whose end has not been polled yet. */
  datatype Node = Node(
    running: map<ContainerId, Task>,
    waiting: seq<ContainerId>,
    queue: set<ContainerId>,
    ams: seq<ContainerId>,
    completed: seq<ContainerId>,
    released: seq<ContainerId>)

  datatype Report = Running(container: ContainerId) | Complete(container: ContainerId, success: bool)

  const EMPTY := Node(map[], [], {}, [], [], [])

  function AddTask(n: Node, c: ContainerId, t: Task): Node {
    n.(waiting := n.waiting + [c], queue := n.queue + {c}, running := n.running[c := t])
  }

  function AddAm(n: Node, c: ContainerId): Node {
    n.(ams := n.ams + [c])
  }

  /** The application master gives its own container back. */
  ghost function GiveBack(n: Node, c: ContainerId): Node {
    n.(ams := Without(n.ams, c), completed := n.completed + [c])
  }

  /** Containers whose transmissions are all complete start their work phase. */
  function StartWork(n: Node, ready: set<ContainerId>): Node {
    n.(waiting := NotIn(n.waiting, ready))
  }

  function NotIn(s: seq<ContainerId>, ready: set<ContainerId>): seq<ContainerId> {
    if s == [] then []
    else NotIn(s[..|s| - 1], ready) + if s[|s| - 1] in ready then [] else [s[|s| - 1]]
  }

  /** Each polled container ends, in whatever phase it is. */
  function Expire(n: Node, polled: seq<ContainerId>): Node {
    if polled == [] then n
    else
      var m := Expire(n, polled[..|polled| - 1]);
      var c := polled[|polled| - 1];
      m.(queue := m.queue - {c}, running := m.running - {c}, completed := m.completed + [c])
  }

  function Terminal(cs: seq<ContainerId>, success: bool): (r: seq<Report>)
    ensures |r| == |cs|
  {
    seq(|cs|, i requires 0 <= i < |cs| => Complete(cs[i], success))
  }

  /** The terminal statuses of one heartbeat: completed ones, then released ones. */
  function Ended(n: Node): seq<Report> {
    Terminal(n.completed, true) + Terminal(n.released, false)
  }

  function Reported(n: Node): Node {
    n.(completed := [], released := [])
  }

  /** What the resource manager wants gone: an AM container is dropped silently, any other
      is taken off every list and noted as released. */
  ghost function ReleaseOne(n: Node, c: ContainerId): Node {
    if c in n.ams then n.(ams := Without(n.ams, c))
    else n.(running := n.running - {c}, queue := n.queue - {c}, waiting := Without(n.waiting, c),
            released := n.released + [c])
  }

  ghost function Release(n: Node, cleanup: seq<ContainerId>): Node {
    if cleanup == [] then n else ReleaseOne(Release(n, cleanup[..|cleanup| - 1]), cleanup[|cleanup| - 1])
  }

  /** One middleStep, with the clock's and the resource manager's choices made. */
  datatype Beat = Beat(ready: set<ContainerId>, polled: seq<ContainerId>, cleanup: seq<ContainerId>)

  function BeforeReport(n: Node, b: Beat): Node {
    Expire(StartWork(n, b.ready), b.polled)
  }

  ghost function AfterBeat(n: Node, b: Beat): Node {
    Release(Reported(BeforeReport(n, b)), b.cleanup)
  }

  function BeatReports(n: Node, b: Beat): seq<Report> {
    Ended(BeforeReport(n, b))
  }

  /** The queue is polled, each container once; cleanup names each container once, and
      only ones just reported as running. */
  ghost predicate Legal(n: Node, b: Beat) {
    && Distinct(b.polled) && (forall c | c in b.polled :: c in n.queue)
    && Distinct(b.cleanup) && (forall c | c in b.cleanup :: c in BeforeReport(n, b).running || c in n.ams)
  }

  // ---- every container is somewhere, once ------------------------------------------------

  ghost function Held(n: Node): multiset<ContainerId> {
    multiset(n.running.Keys) + multiset(n.ams) + multiset(n.completed) + multiset(n.released)
  }

  function ContainersOf(rs: seq<Report>): (cs: seq<ContainerId>)
    ensures |cs| == |rs| && forall i | 0 <= i < |rs| :: cs[i] == rs[i].container
  {
    seq(|rs|, i requires 0 <= i < |rs| => rs[i].container)
  }

  lemma ContainersEnded(n: Node)
    ensures ContainersOf(Ended(n)) == n.completed + n.released
  {
  }

  lemma KeysWithout(m: map<ContainerId, Task>, c: ContainerId)
    requires c in m
    ensures multiset(m.Keys) == multiset((m - {c}).Keys) + multiset{c}
  {
  }

  /** Polled or cleaned up, one running container moves to a list of ended ones. */
  lemma EndOne(n: Node, c: ContainerId)
    requires n.queue == n.running.Keys && c in n.running
    ensures Held(Expire(n, [c])) == Held(n)
    ensures c !in n.ams ==> Held(ReleaseOne(n, c)) == Held(n)
  {
    KeysWithout(n.running, c);
    assert [c][..0] == [];
  }

  lemma {:induction false} ExpireKeeps(n: Node, polled: seq<ContainerId>)
    requires n.queue == n.running.Keys && Distinct(polled) && forall c | c in polled :: c in n.queue
    ensures var m := Expire(n, polled);
            && Held(m) == Held(n) && m.queue == m.running.Keys
            && (forall c | c in n.running && c !in polled :: c in m.running)
            && m.ams == n.ams && m.released == n.released && m.completed == n.completed + polled
  {
    if polled != [] {
      var front, c := polled[..|polled| - 1], polled[|polled| - 1];
      Front(polled);
      ExpireKeeps(n, front);
      EndOne(Expire(n, front), c);
      var m := Expire(n, front);
      assert [c][..0] == [];
      assert Expire(n, polled) == Expire(m, [c]);
    }
  }

  lemma Front(s: seq<ContainerId>)
    requires s != [] && Distinct(s)
    ensures Distinct(s[..|s| - 1]) && s[|s| - 1] !in s[..|s| - 1]
    ensures forall x :: x in s <==> x in s[..|s| - 1] || x == s[|s| - 1]
    ensures s == s[..|s| - 1] + [s[|s| - 1]]
  {
  }

  /** The application-master containers among cs. */
  function AmsAmong(ams: seq<ContainerId>, cs: seq<ContainerId>): seq<ContainerId> {
    if cs == [] then []
    else AmsAmong(ams, cs[..|cs| - 1]) + if cs[|cs| - 1] in ams then [cs[|cs| - 1]] else []
  }

  lemma ReleaseOneKeeps(n: Node, c: ContainerId)
    requires n.queue == n.running.Keys && (c in n.running || c in n.ams)
    ensures var m := ReleaseOne(n, c);
            && Held(n) == Held(m) + (if c in n.ams then multiset{c} else multiset{})
            && m.queue == m.running.Keys && m.completed == n.completed
            && m.released == (if c in n.ams then n.released else n.released + [c])
            && multiset(m.ams) == (if c in n.ams then multiset(n.ams) - multiset{c} else multiset(n.ams))
            && m.running == (if c in n.ams then n.running else n.running - {c})
  {
    WithoutCounts(n.ams, c);
    if c !in n.ams { EndOne(n, c); } else { assert c in multiset(n.ams); }
  }

  lemma {:induction false} ReleaseAms(n: Node, cleanup: seq<ContainerId>)
    requires Distinct(cleanup)
    ensures multiset(Release(n, cleanup).ams) + multiset(AmsAmong(n.ams, cleanup)) == multiset(n.ams)
    ensures forall c | c in AmsAmong(n.ams, cleanup) :: c in cleanup
    ensures forall c | c !in cleanup :: c in Release(n, cleanup).ams <==> c in n.ams
  {
    if cleanup != [] {
      var front, c := cleanup[..|cleanup| - 1], cleanup[|cleanup| - 1];
      Front(cleanup);
      ReleaseAms(n, front);
      var m := Release(n, front);
      WithoutCounts(m.ams, c);
      assert c in n.ams ==> c in multiset(m.ams);
      forall x | x !in cleanup ensures x in Release(n, cleanup).ams <==> x in n.ams {
        assert x in multiset(Release(n, cleanup).ams) <==> x in multiset(m.ams);
      }
    }
  }

  lemma {:induction false} ReleaseKeeps(n: Node, cleanup: seq<ContainerId>)
    requires n.queue == n.running.Keys && Distinct(cleanup)
    requires forall c | c in cleanup :: c in n.running || c in n.ams
    ensures var m := Release(n, cleanup);
            && Held(n) == Held(m) + multiset(AmsAmong(n.ams, cleanup))
            && m.queue == m.running.Keys && m.completed == n.completed
            && (forall c | c in n.running && c !in cleanup :: c in m.running)
  {
    hide Held, ReleaseOne, Distinct;
    if cleanup != [] {
      var front, c := cleanup[..|cleanup| - 1], cleanup[|cleanup| - 1];
      Front(cleanup);
      ReleaseKeeps(n, front);
      ReleaseAms(n, front);
      var m := Release(n, front);
      ReleaseOneKeeps(m, c);
      assert AmsAmong(n.ams, cleanup) == AmsAmong(n.ams, front) + if c in n.ams then [c] else [];
      assert multiset(AmsAmong(n.ams, cleanup)) ==
             multiset(AmsAmong(n.ams, front)) + if c in n.ams then multiset{c} else multiset{};
    }
  }

  /** A heartbeat moves containers from list to list and into its report; only
      application-master containers the resource manager names are dropped without one. */
  lemma BeatKeeps(n: Node, b: Beat)
    requires n.queue == n.running.Keys && Legal(n, b)
    ensures var m := AfterBeat(n, b);
            && Held(n) == Held(m) + multiset(ContainersOf(BeatReports(n, b))) + multiset(AmsAmong(n.ams, b.cleanup))
            && m.queue == m.running.Keys
  {
    var w := StartWork(n, b.ready);
    ExpireKeeps(w, b.polled);
    var e := BeforeReport(n, b);
    assert Held(e) == Held(n);
    var q := Reported(e);
    ContainersEnded(e);
    assert multiset(ContainersOf(Ended(e))) == multiset(e.completed) + multiset(e.released);
    assert Held(e) == Held(q) + multiset(ContainersOf(Ended(e)));
    assert q.ams == n.ams && q.queue == q.running.Keys;
    ReleaseKeeps(q, b.cleanup);
  }

  lemma {:induction false} ReleasedAre(n: Node, cleanup: seq<ContainerId>, c: ContainerId)
    requires Distinct(cleanup)
    ensures c in Release(n, cleanup).released <==> c in n.released || (c in cleanup && c !in n.ams)
  {
    if cleanup != [] {
      var front, x := cleanup[..|cleanup| - 1], cleanup[|cleanup| - 1];
      Front(cleanup);
      ReleasedAre(n, front, c);
      ReleaseAms(n, front);
    }
  }

  /** A container ends in success exactly if it ran out or was given back, and is reported
      so with the next heartbeat; it ends in an abortion exactly if the resource manager
      wanted it gone, and is reported so with the heartbeat after that. */
  lemma BeatReportsAre(n: Node, b: Beat, c: ContainerId)
    requires n.queue == n.running.Keys && Legal(n, b)
    ensures Complete(c, true) in BeatReports(n, b) <==> c in n.completed || c in b.polled
    ensures Complete(c, false) in BeatReports(n, b) <==> c in n.released
    ensures Running(c) !in BeatReports(n, b)
    ensures c in AfterBeat(n, b).released <==> c in b.cleanup && c !in n.ams
    ensures AfterBeat(n, b).completed == []
  {
    ExpireKeeps(StartWork(n, b.ready), b.polled);
    var e := BeforeReport(n, b);
    ReleasedAre(Reported(e), b.cleanup, c);
    ReleaseKeeps(Reported(e), b.cleanup);
    TerminalAre(e.completed, true, c);
    TerminalAre(e.released, false, c);
  }

  lemma TerminalAre(cs: seq<ContainerId>, success: bool, c: ContainerId)
    ensures forall r | r in Terminal(cs, success) :: r.Complete? && r.success == success
    ensures Complete(c, success) in Terminal(cs, success) <==> c in cs
  {
    if c in cs {
      var i :| 0 <= i < |cs| && cs[i] == c;
      assert Terminal(cs, success)[i] == Complete(c, success);
    }
  }

  // ---- whole runs of one node manager ------------------------------------------------------

  datatype Op = Add(container: ContainerId, task: Task) | Am(container: ContainerId)
              | Cleanup(container: ContainerId) | Tick(beat: Beat)

  /** The node with everything it was ever given, ever reported as ended, or dropped. */
  datatype History = History(node: Node, added: set<ContainerId>, reports: seq<Report>, dropped: seq<ContainerId>)

  /** Container ids are new; the application master only gives back what it has here. */
  ghost predicate Allowed(h: History, op: Op) {
    match op
    case Add(c, _) => c !in h.added
    case Am(c) => c !in h.added
    case Cleanup(c) => c in h.node.ams
    case Tick(b) => Legal(h.node, b)
  }

  ghost function Apply(h: History, op: Op): History {
    match op
    case Add(c, t) => h.(node := AddTask(h.node, c, t), added := h.added + {c})
    case Am(c) => h.(node := AddAm(h.node, c), added := h.added + {c})
    case Cleanup(c) => h.(node := GiveBack(h.node, c))
    case Tick(b) => h.(node := AfterBeat(h.node, b), reports := h.reports + BeatReports(h.node, b),
                       dropped := h.dropped + AmsAmong(h.node.ams, b.cleanup))
  }

  ghost function After(ops: seq<Op>): History {
    if ops == [] then History(EMPTY, {}, [], []) else Apply(After(ops[..|ops| - 1]), ops[|ops| - 1])
  }

  ghost predicate AllAllowed(ops: seq<Op>) {
    forall i | 0 <= i < |ops| :: Allowed(After(ops[..i]), ops[i])
  }

  /** How many places and past statuses know this container. */
  ghost function Places(h: History, c: ContainerId): nat {
    Held(h.node)[c] + multiset(ContainersOf(h.reports))[c] + multiset(h.dropped)[c]
  }

  ghost predicate Accounted(h: History) {
    && h.node.queue == h.node.running.Keys
    && forall c :: Places(h, c) == if c in h.added then 1 else 0
  }

  lemma AddHeld(n: Node, c: ContainerId, t: Task)
    requires c !in n.running
    ensures Held(AddTask(n, c, t)) == Held(n) + multiset{c}
  {
  }

  lemma GiveBackHeld(n: Node, c: ContainerId)
    requires c in n.ams
    ensures Held(GiveBack(n, c)) == Held(n)
  {
    WithoutCounts(n.ams, c);
    assert c in multiset(n.ams);
  }

  lemma GrownKeeps(h: History, m: Node, c: ContainerId)
    requires Accounted(h) && c !in h.added && m.queue == m.running.Keys
    requires Held(m) == Held(h.node) + multiset{c}
    ensures Accounted(h.(node := m, added := h.added + {c}))
  {
  }

  lemma MovedKeeps(h: History, m: Node, reports: seq<Report>, drops: seq<ContainerId>)
    requires Accounted(h) && m.queue == m.running.Keys
    requires Held(h.node) == Held(m) + multiset(ContainersOf(reports)) + multiset(drops)
    ensures Accounted(h.(node := m, reports := h.reports + reports, dropped := h.dropped + drops))
  {
    var h' := h.(node := m, reports := h.reports + reports, dropped := h.dropped + drops);
    assert ContainersOf(h.reports + reports) == ContainersOf(h.reports) + ContainersOf(reports);
    forall x ensures Places(h', x) == if x in h'.added then 1 else 0 {
      assert Places(h, x) == if x in h.added then 1 else 0;
    }
  }

  lemma AddKeeps(h: History, c: ContainerId, t: Task)
    requires Accounted(h) && c !in h.added
    ensures Accounted(Apply(h, Add(c, t)))
  {
    assert Places(h, c) == 0;
    AddHeld(h.node, c, t);
    GrownKeeps(h, AddTask(h.node, c, t), c);
  }

  lemma CleanupKeeps(h: History, c: ContainerId)
    requires Accounted(h) && c in h.node.ams
    ensures Accounted(Apply(h, Cleanup(c)))
  {
    GiveBackHeld(h.node, c);
    MovedKeeps(h, GiveBack(h.node, c), [], []);
    assert h.reports + [] == h.reports && h.dropped + [] == h.dropped;
  }

  lemma TickKeeps(h: History, b: Beat)
    requires Accounted(h) && Legal(h.node, b)
    ensures Accounted(Apply(h, Tick(b)))
  {
    BeatKeeps(h.node, b);
    MovedKeeps(h, AfterBeat(h.node, b), BeatReports(h.node, b), AmsAmong(h.node.ams, b.cleanup));
  }

  lemma ApplyKeeps(h: History, op: Op)
    requires Accounted(h) && Allowed(h, op)
    ensures Accounted(Apply(h, op))
  {
    match op
    case Add(c, t) => AddKeeps(h, c, t);
    case Am(c) => GrownKeeps(h, AddAm(h.node, c), c);
    case Cleanup(c) => CleanupKeeps(h, c);
    case Tick(b) => TickKeeps(h, b);
  }

  lemma {:induction false} RunAccounted(ops: seq<Op>)
    requires AllAllowed(ops)
    ensures Accounted(After(ops))
  {
    if ops != [] {
      var front := ops[..|ops| - 1];
      forall i | 0 <= i < |front| ensures Allowed(After(front[..i]), front[i]) {
        assert front[..i] == ops[..i];
      }
      RunAccounted(front);
      assert ops[..|ops| - 1] == front;
      ApplyKeeps(After(front), ops[|ops| - 1]);
    }
  }

  /** Over a whole run every container is in exactly one place, and at most one terminal
      status, success or abortion, is ever sent for it. */
  lemma EachContainerOnce(ops: seq<Op>, c: ContainerId)
    requires AllAllowed(ops)
    ensures var h := After(ops);
            && Places(h, c) == (if c in h.added then 1 else 0)
            && (forall i, j | 0 <= i < j < |h.reports| :: h.reports[i].container != h.reports[j].container)
  {
    RunAccounted(ops);
    var h := After(ops);
    forall i, j | 0 <= i < j < |h.reports| ensures h.reports[i].container != h.reports[j].container {
      ReportedOnce(h, i, j);
    }
  }

  lemma ReportedOnce(h: History, i: nat, j: nat)
    requires Accounted(h) && i < j < |h.reports|
    ensures h.reports[i].container != h.reports[j].container
  {
    var cs := ContainersOf(h.reports);
    var x := cs[i];
    assert multiset(cs)[x] <= Places(h, x) <= 1;
    assert cs == cs[..j] + cs[j..];
    assert x in cs[..j] && cs[j] in cs[j..];
    assert multiset(cs)[x] == multiset(cs[..j])[x] + multiset(cs[j..])[x];
  }

  // ---- the same, in place --------------------------------------------------------------------

  class NMSimulator {
    var runningContainers: map<ContainerId, Task>
    var containersWaitingForTransmission: seq<ContainerId>
    var containerQueue: set<ContainerId>
    var amContainerList: seq<ContainerId>
    var completedContainerList: seq<ContainerId>
    var releasedContainerList: seq<ContainerId>

    ghost function State(): Node
      reads this
    {
      Node(runningContainers, containersWaitingForTransmission, containerQueue, amContainerList,
           completedContainerList, releasedContainerList)
    }

    constructor ()
      ensures State() == EMPTY
    {
      runningContainers, containersWaitingForTransmission, containerQueue := map[], [], {};
      amContainerList, completedContainerList, releasedContainerList := [], [], [];
    }

    method AddNewContainer(c: ContainerId, t: Option<Task>)
      modifies this
      ensures State() == match t {
                case None => old(AddAm(State(), c))
                case Some(task) => old(AddTask(State(), c, task))
              }
    {
      match t
      case None =>
        amContainerList := amContainerList + [c];
      case Some(task) =>
        containersWaitingForTransmission := containersWaitingForTransmission + [c];
        containerQueue := containerQueue + {c};
        runningContainers := runningContainers[c := task];
    }

    method CleanupContainer(c: ContainerId)
      modifies this
      ensures State() == old(GiveBack(State(), c))
    {
      amContainerList := RemoveFirst(amContainerList, c);
      completedContainerList := completedContainerList + [c];
    }

    /** Running containers in any order, then the ended ones, which are reported once. */
    method GenerateContainerStatusList() returns (rs: seq<Report>, alive: nat)
      modifies this
      ensures alive <= |rs| && rs[alive..] == old(Ended(State()))
      ensures forall i | 0 <= i < alive :: rs[i].Running?
      ensures forall c :: Running(c) in rs[..alive] <==> c in old(runningContainers) || c in old(amContainerList)
      ensures State() == old(Reported(State()))
    {
      rs := [];
      var left := runningContainers.Keys;
      while left != {}
        invariant left <= runningContainers.Keys
        invariant forall i | 0 <= i < |rs| :: rs[i].Running?
        invariant forall c :: Running(c) in rs <==> c in runningContainers && c !in left
        decreases left
      {
        var c :| c in left;
        rs, left := rs + [Running(c)], left - {c};
      }
      for i := 0 to |amContainerList|
        invariant forall j | 0 <= j < |rs| :: rs[j].Running?
        invariant forall c :: Running(c) in rs <==> c in runningContainers || c in amContainerList[..i]
      {
        rs := rs + [Running(amContainerList[i])];
      }
      alive := |rs|;
      ghost var front := rs;
      for i := 0 to |completedContainerList|
        invariant rs == front + Terminal(completedContainerList[..i], true)
      {
        rs := rs + [Complete(completedContainerList[i], true)];
      }
      ghost var middle := rs;
      for i := 0 to |releasedContainerList|
        invariant rs == middle + Terminal(releasedContainerList[..i], false)
      {
        rs := rs + [Complete(releasedContainerList[i], false)];
      }
      assert amContainerList[..|amContainerList|] == amContainerList;
      assert completedContainerList[..|completedContainerList|] == completedContainerList;
      assert releasedContainerList[..|releasedContainerList|] == releasedContainerList;
      assert rs[..alive] == front;
      completedContainerList, releasedContainerList := [], [];
    }

    /** One heartbeat. What the clock and the resource manager decide comes in as `b`. */
    method MiddleStep(b: Beat) returns (rs: seq<Report>, alive: nat)
      modifies this
      ensures State() == old(AfterBeat(State(), b))
      ensures alive <= |rs| && rs[alive..] == old(BeatReports(State(), b))
      ensures forall i | 0 <= i < alive :: rs[i].Running?
    {
      StartWorking(b.ready);
      Poll(b.polled);
      rs, alive := GenerateContainerStatusList();
      CleanUp(b.cleanup);
    }

    method StartWorking(ready: set<ContainerId>)
      modifies this
      ensures State() == old(StartWork(State(), ready))
    {
      var waiting, stillWaiting := containersWaitingForTransmission, [];
      for i := 0 to |waiting|
        invariant stillWaiting == NotIn(waiting[..i], ready)
      {
        assert waiting[..i + 1][..i] == waiting[..i];
        if waiting[i] !in ready { stillWaiting := stillWaiting + [waiting[i]]; }
      }
      assert waiting[..|waiting|] == waiting;
      containersWaitingForTransmission := stillWaiting;
    }

    method Poll(polled: seq<ContainerId>)
      modifies this
      ensures State() == old(Expire(State(), polled))
    {
      ghost var n := State();
      for i := 0 to |polled|
        invariant State() == Expire(n, polled[..i])
      {
        var c := polled[i];
        assert polled[..i + 1][..i] == polled[..i];
        runningContainers := runningContainers - {c};
        containerQueue := containerQueue - {c};
        completedContainerList := completedContainerList + [c];
      }
      assert polled[..|polled|] == polled;
    }

    method CleanUp(cleanup: seq<ContainerId>)
      modifies this
      ensures State() == old(Release(State(), cleanup))
    {
      ghost var n := State();
      for i := 0 to |cleanup|
        invariant State() == Release(n, cleanup[..i])
      {
        assert cleanup[..i + 1][..i] == cleanup[..i];
        CleanUpOne(cleanup[i]);
      }
      assert cleanup[..|cleanup|] == cleanup;
    }

    method CleanUpOne(c: ContainerId)
      modifies this
      ensures State() == old(ReleaseOne(State(), c))
    {
      if c in amContainerList {
        amContainerList := RemoveFirst(amContainerList, c);
      } else {
        runningContainers := runningContainers - {c};
        containerQueue := containerQueue - {c};
        containersWaitingForTransmission := RemoveFirst(containersWaitingForTransmission, c);
        releasedContainerList := releasedContainerList + [c];
      }
    }
  }
}
