/** One application, its node managers and a small nondeterministic resource manager, as
    a step system. What every step keeps holds in every run.

    The application master empties its response queue before it asks again, so at any
    time at most one response is there: `inbox` is what is left of it. Its parts may be
    handled with other steps in between. */
module Cluster {
  import opened Options
  import opened Sequences
  import opened MapReduce
  import opened NodeManager

  datatype Inbox = Inbox(statuses: seq<Status>, check: bool, grants: seq<ContainerId>)
  {
    predicate Empty() { statuses == [] && !check && grants == [] }
  }

  /** The resource manager: containers it owes per priority, grants and terminal statuses
      it will hand over with the next response, and the next container id. */
  datatype Manager = Manager(
    owedMaps: nat, owedReduces: nat, granted: seq<ContainerId>, completed: seq<Status>, next: nat)

  datatype Sys = Sys(app: App, inbox: Inbox, rm: Manager, nodes: seq<Node>)

  datatype Step = Handle | Allocate | Grant(kind: Kind, node: nat) | Heartbeat(node: nat, beat: Beat)

  // ---- the steps -----------------------------------------------------------------------

  function HandleOneStatus(s: Sys): Sys
    requires s.inbox.statuses != []
  {
    s.(app := HandleStatus(s.app, s.inbox.statuses[0]), inbox := s.inbox.(statuses := s.inbox.statuses[1..]))
  }

  /** When all is done the AM container is given back to its node, and the run is over. */
  ghost function HandleCheck(s: Sys): Sys {
    s.(app := CheckFinished(s.app), nodes := NodesAfterCheck(s.app, s.nodes), inbox := s.inbox.(check := false))
  }

  ghost function NodesAfterCheck(app: App, nodes: seq<Node>): seq<Node> {
    if app.amRunning && app.AllDone() && app.amContainer.Some? && app.amContainer.value.node < |nodes| then
      var am := app.amContainer.value;
      nodes[am.node := GiveBack(nodes[am.node], am)]
    else nodes
  }

  /** The task a grant goes to, if any waits. */
  function NextScheduled(app: App): seq<Task> {
    if app.maps.scheduled != [] then app.maps.scheduled else app.reduces.scheduled
  }

  function HandleOneGrant(s: Sys): Sys
    requires s.inbox.grants != [] && s.inbox.grants[0].node < |s.nodes|
  {
    var c := s.inbox.grants[0];
    s.(app := HandleGrant(s.app, c), nodes := NodesAfterGrant(s.app, s.nodes, c),
       inbox := s.inbox.(grants := s.inbox.grants[1..]))
  }

  function NodesAfterGrant(app: App, nodes: seq<Node>, c: ContainerId): seq<Node>
    requires c.node < |nodes|
  {
    if NextScheduled(app) == [] then nodes else Launched(nodes, c, NextScheduled(app)[0])
  }

  function Launched(nodes: seq<Node>, c: ContainerId, t: Task): seq<Node>
    requires c.node < |nodes|
  {
    nodes[c.node := AddTask(nodes[c.node], c, t)]
  }

  /** Ask and be answered. An ask replaces what is owed at its priority: its ANY count,
      which `PackageRequests` shows to be the number of tasks asked for. */
  function DoAllocate(s: Sys): Sys {
    var rm := match NextAsk(s.app) {
      case Nothing => s.rm
      case Containers(Maps, tasks) => s.rm.(owedMaps := |tasks|)
      case Containers(Reduces, tasks) => s.rm.(owedReduces := |tasks|)
    };
    Sys(MapReduce.Send(s.app), Inbox(s.rm.completed, true, s.rm.granted), rm.(granted := [], completed := []), s.nodes)
  }

  function DoGrant(s: Sys, kind: Kind, node: nat): Sys
    requires if kind.Maps? then s.rm.owedMaps > 0 else s.rm.owedReduces > 0
  {
    var rm := s.rm.(granted := s.rm.granted + [ContainerId(s.rm.next, node)], next := s.rm.next + 1);
    s.(rm := if kind.Maps? then rm.(owedMaps := rm.owedMaps - 1) else rm.(owedReduces := rm.owedReduces - 1))
  }

  function StatusesOf(rs: seq<Report>): (ss: seq<Status>)
    ensures |ss| == |rs|
    ensures forall i | 0 <= i < |rs| :: ss[i].container == rs[i].container
  {
    seq(|rs|, i requires 0 <= i < |rs| => Status(rs[i].container, rs[i].Complete? && rs[i].success))
  }

  ghost function DoHeartbeat(s: Sys, k: nat, b: Beat): Sys
    requires k < |s.nodes|
  {
    s.(nodes := s.nodes[k := AfterBeat(s.nodes[k], b)],
       rm := s.rm.(completed := s.rm.completed + StatusesOf(BeatReports(s.nodes[k], b))))
  }

  /** Handling goes on while the inbox lasts; then the application asks, unless it is
      finished. A grant is owed; a cleanup names task containers just reported running. */
  ghost predicate Enabled(s: Sys, step: Step) {
    match step
    case Handle => !s.inbox.Empty() && (s.inbox.grants != [] ==> s.inbox.grants[0].node < |s.nodes|)
    case Allocate => s.inbox.Empty() && !s.app.isFinished
    case Grant(kind, node) => node < |s.nodes| && if kind.Maps? then s.rm.owedMaps > 0 else s.rm.owedReduces > 0
    case Heartbeat(k, b) => k < |s.nodes| && Legal(s.nodes[k], b) && forall c | c in b.cleanup :: c !in s.nodes[k].ams
  }

  ghost function Do(s: Sys, step: Step): Sys
    requires Enabled(s, step)
  {
    match step
    case Handle =>
      if s.inbox.statuses != [] then HandleOneStatus(s)
      else if s.inbox.check then HandleCheck(s)
      else HandleOneGrant(s)
    case Allocate => DoAllocate(s)
    case Grant(kind, node) => DoGrant(s, kind, node)
    case Heartbeat(k, b) => DoHeartbeat(s, k, b)
  }

  ghost predicate GrantsKnown(s: Sys) {
    forall c | c in s.inbox.grants :: c.node < |s.nodes|
  }

  function Size(inbox: Inbox): nat {
    |inbox.statuses| + |inbox.grants| + if inbox.check then 1 else 0
  }

  /** The inbox handled to its end, or until restart() waits for a new AM container. */
  ghost function Drained(s: Sys): Sys
    requires GrantsKnown(s)
    decreases Size(s.inbox)
  {
    if s.inbox.Empty() || s.app.amContainer.None? then s else Drained(Do(s, Handle))
  }

  /** The AM container has just been placed. */
  ghost predicate Initial(s: Sys, tasks: seq<Task>) {
    && s.app.amContainer.Some?
    && var am := s.app.amContainer.value;
    && am.id == 0 && am.node < |s.nodes|
    && s.app == Started(Init(tasks), am)
    && (forall k | 0 <= k < |s.nodes| :: s.nodes[k] == if k == am.node then AddAm(EMPTY, am) else EMPTY)
    && s.inbox == Inbox([], false, [])
    && s.rm == Manager(0, 0, [], [], 1)
  }

  // ---- the invariant --------------------------------------------------------------------

  /** Every task of a kind is in exactly one place, and success is counted once each. */
  ghost predicate Conserved(t: Tasks, all: seq<Task>) {
    && Everywhere(t) == multiset(all)
    && t.finished == |t.finishedTasks| && t.total == |all|
  }

  predicate Untouched(t: Tasks) {
    t.scheduled == [] && t.failed == [] && t.assignments == map[] && t.finished == 0
  }

  predicate Sized(t: Tasks) {
    |t.pending| + |t.failed| + |t.scheduled| + |t.assignments| + t.finished == t.total
  }

  predicate AppOk(app: App) {
    && Sized(app.maps) && Sized(app.reduces)
    && app.finishedContainers == app.maps.finished + app.reduces.finished
    && app.totalContainers == app.maps.total + app.reduces.total
    && app.amContainer.Some? && app.amContainer.value.id == 0
    && (app.isFinished <==> !app.amRunning)
    && (app.isFinished ==> app.AllDone())
    && (app.maps.finished < app.maps.total ==> Untouched(app.reduces))
    && (app.maps.pending != [] ==> Untouched(app.maps))
    && (app.reduces.pending != [] ==> Untouched(app.reduces))
  }

  ghost predicate AllConserved(app: App) {
    Conserved(app.maps, app.allMaps) && Conserved(app.reduces, app.allReduces)
  }

  /** Containers owed or granted and not yet used are as many as the tasks that wait. */
  predicate TokensOk(s: Sys) {
    && s.rm.owedMaps + s.rm.owedReduces + |s.rm.granted| + |s.inbox.grants|
       == |s.app.maps.scheduled| + |s.app.reduces.scheduled|
    && (s.app.maps.finished < s.app.maps.total ==> s.rm.owedReduces == 0)
    && (s.app.maps.finished == s.app.maps.total ==> s.rm.owedMaps == 0)
  }

  function Assigned(app: App, c: ContainerId): nat {
    (if c in app.maps.assignments then 1 else 0) + (if c in app.reduces.assignments then 1 else 0)
  }

  ghost function Times(cs: seq<ContainerId>, c: ContainerId): nat { multiset(cs)[c] }

  /** An id is granted, in the inbox, or assigned, at most once, and was handed out. */
  ghost predicate FreshOk(s: Sys) {
    && s.rm.next > 0
    && forall c :: Times(s.rm.granted, c) + Times(s.inbox.grants, c) + Assigned(s.app, c)
                <= if 0 < c.id < s.rm.next && c.node < |s.nodes| then 1 else 0
  }

  function Named(ss: seq<Status>, c: ContainerId): nat {
    if ss == [] then 0 else (if ss[0].container == c then 1 else 0) + Named(ss[1..], c)
  }

  function Sum(counts: seq<nat>): nat {
    if counts == [] then 0 else counts[0] + Sum(counts[1..])
  }

  ghost function Counts(nodes: seq<Node>, c: ContainerId): seq<nat> {
    seq(|nodes|, i requires 0 <= i < |nodes| => Held(nodes[i])[c])
  }

  ghost function HeldBy(nodes: seq<Node>, c: ContainerId): nat { Sum(Counts(nodes, c)) }

  /** A container is on some node, or its end is on the way to the application, exactly
      while the application counts on it; the AM container always is. */
  ghost predicate PlacedOk(s: Sys) {
    forall c :: HeldBy(s.nodes, c) + Named(s.rm.completed, c) + Named(s.inbox.statuses, c)
                == Assigned(s.app, c) + if s.app.amContainer == Some(c) then 1 else 0
  }

  ghost predicate NodesOk(s: Sys) {
    && (forall k | 0 <= k < |s.nodes| :: s.nodes[k].queue == s.nodes[k].running.Keys)
    && (forall k, x | 0 <= k < |s.nodes| && x in s.nodes[k].ams :: s.app.amContainer == Some(x))
    && s.app.amContainer.Some? && s.app.amContainer.value.node < |s.nodes|
    && (s.app.amRunning ==> s.app.amContainer.value in s.nodes[s.app.amContainer.value.node].ams)
    && Named(s.inbox.statuses, s.app.amContainer.value) == 0
    && (s.app.amRunning ==> Named(s.rm.completed, s.app.amContainer.value) == 0)
  }

  ghost predicate Inv(s: Sys) {
    AllConserved(s.app) && AppOk(s.app) && TokensOk(s) && FreshOk(s) && PlacedOk(s) && NodesOk(s)
  }

  // ---- sums ---------------------------------------------------------------------------------

  lemma {:induction false} SumUpdate(counts: seq<nat>, k: nat, n: nat)
    requires k < |counts|
    ensures Sum(counts[k := n]) + counts[k] == Sum(counts) + n
  {
    if k > 0 {
      SumUpdate(counts[1..], k - 1, n);
      assert counts[k := n][1..] == counts[1..][k - 1 := n];
    }
  }

  lemma {:induction false} SumAtLeast(counts: seq<nat>, k: nat)
    requires k < |counts|
    ensures Sum(counts) >= counts[k]
  {
    if k > 0 { SumAtLeast(counts[1..], k - 1); }
  }

  lemma {:induction false} SumOfZeros(counts: seq<nat>)
    ensures Sum(counts) == 0 <==> forall k | 0 <= k < |counts| :: counts[k] == 0
  {
    if counts != [] {
      SumOfZeros(counts[1..]);
      assert forall k | 0 < k < |counts| :: counts[k] == counts[1..][k - 1];
    }
  }

  lemma HeldByUpdate(nodes: seq<Node>, k: nat, m: Node, c: ContainerId)
    requires k < |nodes|
    ensures HeldBy(nodes[k := m], c) + Held(nodes[k])[c] == HeldBy(nodes, c) + Held(m)[c]
  {
    SumUpdate(Counts(nodes, c), k, Held(m)[c]);
    assert Counts(nodes[k := m], c) == Counts(nodes, c)[k := Held(m)[c]];
  }

  lemma HeldByAtLeast(nodes: seq<Node>, k: nat, c: ContainerId)
    requires k < |nodes|
    ensures HeldBy(nodes, c) >= Held(nodes[k])[c]
  {
    SumAtLeast(Counts(nodes, c), k);
  }

  lemma {:induction false} NamedConcat(a: seq<Status>, b: seq<Status>, c: ContainerId)
    ensures Named(a + b, c) == Named(a, c) + Named(b, c)
  {
    if a == [] {
      assert a + b == b;
    } else {
      NamedConcat(a[1..], b, c);
      assert (a + b)[1..] == a[1..] + b;
    }
  }

  lemma {:induction false} NamedCounts(ss: seq<Status>, cs: seq<ContainerId>, c: ContainerId)
    requires |ss| == |cs| && forall i | 0 <= i < |ss| :: ss[i].container == cs[i]
    ensures Named(ss, c) == multiset(cs)[c]
  {
    if ss != [] {
      NamedCounts(ss[1..], cs[1..], c);
      assert cs == [cs[0]] + cs[1..];
    }
  }

  // ---- the application --------------------------------------------------------------------

  lemma SizeWithout(t: Tasks, c: ContainerId)
    requires c in t.assignments
    ensures |t.assignments - {c}| == |t.assignments| - 1
  {
  }

  lemma StatusConserves(app: App, st: Status)
    requires AllConserved(app) && Assigned(app, st.container) == 1
    ensures AllConserved(HandleStatus(app, st))
  {
    var c := st.container;
    if c in app.maps.assignments {
      if st.success { SucceedKeeps(app.maps, c); } else { FailKeeps(app.maps, c); }
    } else {
      if st.success { SucceedKeeps(app.reduces, c); } else { FailKeeps(app.reduces, c); }
    }
  }

  /** What a status changes: one container fewer is counted on, nothing is scheduled. */
  lemma StatusMoves(app: App, st: Status)
    requires AppOk(app) && Assigned(app, st.container) == 1
    ensures var app' := HandleStatus(app, st);
            && AppOk(app') && app'.amContainer == app.amContainer && app'.amRunning == app.amRunning
            && app'.maps.scheduled == app.maps.scheduled && app'.reduces.scheduled == app.reduces.scheduled
            && app'.maps.total == app.maps.total
            && (app.maps.finished == app.maps.total ==> app'.maps.finished == app.maps.total)
  {
    var c := st.container;
    if c in app.maps.assignments { SizeWithout(app.maps, c); } else { SizeWithout(app.reduces, c); }
  }

  lemma StatusUnassigns(app: App, st: Status, x: ContainerId)
    requires Assigned(app, st.container) == 1
    ensures Assigned(HandleStatus(app, st), x) == Assigned(app, x) - if x == st.container then 1 else 0
  {
  }

  lemma GrantConserves(app: App, c: ContainerId)
    requires AllConserved(app) && Assigned(app, c) == 0
    ensures AllConserved(HandleGrant(app, c))
  {
    if app.maps.scheduled != [] {
      LaunchKeeps(app.maps, c);
    } else if app.reduces.scheduled != [] {
      LaunchKeeps(app.reduces, c);
    }
  }

  lemma GrantMoves(app: App, c: ContainerId)
    requires AppOk(app) && NextScheduled(app) != [] && Assigned(app, c) == 0
    ensures var app' := HandleGrant(app, c);
            && AppOk(app') && app'.amContainer == app.amContainer && app'.amRunning == app.amRunning
            && app'.maps.finished == app.maps.finished && app'.maps.total == app.maps.total
            && |app'.maps.scheduled| + |app'.reduces.scheduled| + 1 == |app.maps.scheduled| + |app.reduces.scheduled|
  {
  }

  lemma SendConserves(app: App)
    requires AllConserved(app)
    ensures AllConserved(MapReduce.Send(app))
  {
    hide NextAsk, Everywhere;
    ScheduleKeeps(app.maps);
    ScheduleKeeps(app.reduces);
  }

  lemma SendMoves(app: App)
    requires AppOk(app)
    ensures var app' := MapReduce.Send(app);
            && AppOk(app') && app'.amContainer == app.amContainer && app'.amRunning == app.amRunning
            && app'.maps.finished == app.maps.finished && app'.maps.total == app.maps.total
            && app'.maps.assignments == app.maps.assignments && app'.reduces.assignments == app.reduces.assignments
  {
  }

  // ---- every step keeps the invariant -----------------------------------------------------------

  /** A status in the inbox is about a container the application counts on. */
  lemma InboxIsAssigned(s: Sys)
    requires FreshOk(s) && PlacedOk(s) && NodesOk(s) && s.inbox.statuses != []
    ensures Assigned(s.app, s.inbox.statuses[0].container) == 1
  {
  }

  lemma HandleStatusKeeps(s: Sys)
    requires Inv(s) && s.inbox.statuses != []
    ensures Inv(HandleOneStatus(s))
  {
    InboxIsAssigned(s);
    StatusConserves(s.app, s.inbox.statuses[0]);
    StatusMoves(s.app, s.inbox.statuses[0]);
    HandleStatusPlaces(s);
  }

  lemma HandleStatusPlaces(s: Sys)
    requires FreshOk(s) && PlacedOk(s) && NodesOk(s) && s.inbox.statuses != [] && AppOk(s.app)
    ensures var s' := HandleOneStatus(s); FreshOk(s') && PlacedOk(s') && NodesOk(s')
  {
    var s', st := HandleOneStatus(s), s.inbox.statuses[0];
    InboxIsAssigned(s);
    StatusMoves(s.app, st);
    forall c
      ensures Named(s.inbox.statuses, c) == Named(s'.inbox.statuses, c) + if c == st.container then 1 else 0
      ensures Assigned(s'.app, c) == Assigned(s.app, c) - if c == st.container then 1 else 0
    {
      StatusUnassigns(s.app, st, c);
    }
  }

  lemma HandleCheckKeeps(s: Sys)
    requires Inv(s)
    ensures Inv(HandleCheck(s))
  {
    var s', am := HandleCheck(s), s.app.amContainer.value;
    if s.app.amRunning && s.app.AllDone() { GiveBackPlaces(s, am); }
  }

  lemma GiveBackPlaces(s: Sys, am: ContainerId)
    requires NodesOk(s) && s.app.amContainer == Some(am) && s.app.amRunning
    ensures var nodes := s.nodes[am.node := GiveBack(s.nodes[am.node], am)];
            && (forall c :: HeldBy(nodes, c) == HeldBy(s.nodes, c))
            && (forall k | 0 <= k < |nodes| :: nodes[k].queue == nodes[k].running.Keys)
            && (forall k, x | 0 <= k < |nodes| && x in nodes[k].ams :: x == am)
  {
    var n := s.nodes[am.node];
    GiveBackHeld(n, am);
    forall c ensures HeldBy(s.nodes[am.node := GiveBack(n, am)], c) == HeldBy(s.nodes, c) {
      HeldByUpdate(s.nodes, am.node, GiveBack(n, am), c);
    }
    forall x | x in Without(n.ams, am) ensures x == am {
      WithoutWithin(n.ams, am, x);
      assert x in s.nodes[am.node].ams && s.app.amContainer == Some(x);
    }
    var nodes := s.nodes[am.node := GiveBack(n, am)];
    forall k, x | 0 <= k < |nodes| && x in nodes[k].ams ensures x == am {
      if k != am.node { assert x in s.nodes[k].ams && s.app.amContainer == Some(x); }
    }
  }

  /** No granted container is dropped: a task waits for it. */
  lemma GrantFindsTask(s: Sys)
    requires TokensOk(s) && FreshOk(s) && PlacedOk(s) && AppOk(s.app) && s.inbox.grants != []
    ensures NextScheduled(s.app) != []
    ensures var c := s.inbox.grants[0];
            && Assigned(s.app, c) == 0 && c.id > 0 && c.node < |s.nodes| && HeldBy(s.nodes, c) == 0
  {
  }

  lemma HandleGrantKeeps(s: Sys)
    requires Inv(s) && s.inbox.grants != []
    ensures s.inbox.grants[0].node < |s.nodes| && Inv(HandleOneGrant(s))
  {
    hide HandleGrant, AllConserved, AppOk, FreshOk, PlacedOk, NodesOk, NodesAfterGrant;
    GrantFindsTask(s);
    GrantConserves(s.app, s.inbox.grants[0]);
    GrantMoves(s.app, s.inbox.grants[0]);
    HandleGrantPlaces(s);
  }

  lemma HandleGrantPlaces(s: Sys)
    requires TokensOk(s) && FreshOk(s) && PlacedOk(s) && NodesOk(s) && AppOk(s.app) && s.inbox.grants != []
    ensures s.inbox.grants[0].node < |s.nodes|
    ensures var s' := HandleOneGrant(s); FreshOk(s') && PlacedOk(s') && NodesOk(s')
  {
    GrantFindsTask(s);
    var c, t := s.inbox.grants[0], NextScheduled(s.app)[0];
    GrantChanges(s);
    LaunchShape(s.nodes, c, t);
    forall x ensures HeldBy(Launched(s.nodes, c, t), x) == HeldBy(s.nodes, x) + if x == c then 1 else 0 {
      LaunchHeld(s.nodes, c, t, x);
    }
    AbsorbGrant(s, HandleOneGrant(s), c);
  }

  lemma GrantChanges(s: Sys)
    requires s.inbox.grants != [] && s.inbox.grants[0].node < |s.nodes| && NextScheduled(s.app) != []
    requires AppOk(s.app) && Assigned(s.app, s.inbox.grants[0]) == 0
    ensures var (s', c) := (HandleOneGrant(s), s.inbox.grants[0]);
            && s.inbox.grants == [c] + s'.inbox.grants && s'.inbox.statuses == s.inbox.statuses && s'.rm == s.rm
            && s'.app.amContainer == s.app.amContainer && s'.app.amRunning == s.app.amRunning
            && s'.nodes == Launched(s.nodes, c, NextScheduled(s.app)[0])
            && forall x :: Assigned(s'.app, x) == Assigned(s.app, x) + if x == c then 1 else 0
  {
  }

  /** One container leaves the inbox, is counted on, and is held by a node. */
  lemma AbsorbGrant(s: Sys, s': Sys, c: ContainerId)
    requires FreshOk(s) && PlacedOk(s) && NodesOk(s)
    requires s.inbox.grants == [c] + s'.inbox.grants && s'.inbox.statuses == s.inbox.statuses && s'.rm == s.rm
    requires s'.app.amContainer == s.app.amContainer && s'.app.amRunning == s.app.amRunning
    requires |s'.nodes| == |s.nodes|
    requires forall k | 0 <= k < |s.nodes| :: s'.nodes[k].queue == s'.nodes[k].running.Keys
    requires forall k | 0 <= k < |s.nodes| :: s'.nodes[k].ams == s.nodes[k].ams
    requires forall x :: Assigned(s'.app, x) == Assigned(s.app, x) + if x == c then 1 else 0
    requires forall x :: HeldBy(s'.nodes, x) == HeldBy(s.nodes, x) + if x == c then 1 else 0
    ensures FreshOk(s') && PlacedOk(s') && NodesOk(s')
  {
    forall x
      ensures Times(s'.rm.granted, x) + Times(s'.inbox.grants, x) + Assigned(s'.app, x)
              <= if 0 < x.id < s'.rm.next && x.node < |s'.nodes| then 1 else 0
    {
      assert Times(s.inbox.grants, x) == Times(s'.inbox.grants, x) + if x == c then 1 else 0;
    }
  }

  lemma LaunchShape(nodes: seq<Node>, c: ContainerId, t: Task)
    requires c.node < |nodes| && forall k | 0 <= k < |nodes| :: nodes[k].queue == nodes[k].running.Keys
    ensures forall k | 0 <= k < |nodes| :: Launched(nodes, c, t)[k].queue == Launched(nodes, c, t)[k].running.Keys
    ensures forall k | 0 <= k < |nodes| :: Launched(nodes, c, t)[k].ams == nodes[k].ams
  {
  }

  lemma LaunchHeld(nodes: seq<Node>, c: ContainerId, t: Task, x: ContainerId)
    requires c.node < |nodes| && HeldBy(nodes, c) == 0
    ensures HeldBy(Launched(nodes, c, t), x) == HeldBy(nodes, x) + if x == c then 1 else 0
  {
    var n := nodes[c.node];
    HeldByAtLeast(nodes, c.node, c);
    NotRunning(n, c);
    AddHeld(n, c, t);
    HeldByUpdate(nodes, c.node, AddTask(n, c, t), x);
  }

  lemma NotRunning(n: Node, c: ContainerId)
    requires Held(n)[c] == 0
    ensures c !in n.running
  {
  }

  lemma AllocateKeeps(s: Sys)
    requires Inv(s) && s.inbox.Empty() && !s.app.isFinished
    ensures Inv(DoAllocate(s))
  {
    SendConserves(s.app);
    SendMoves(s.app);
    AllocateTokens(s);
    AllocatePlaces(s);
  }

  lemma AllocatePlaces(s: Sys)
    requires AppOk(s.app) && FreshOk(s) && PlacedOk(s) && NodesOk(s) && s.inbox.Empty() && !s.app.isFinished
    ensures var s' := DoAllocate(s); FreshOk(s') && PlacedOk(s') && NodesOk(s')
  {
    SendMoves(s.app);
    var s' := DoAllocate(s);
    assert s'.rm.next == s.rm.next && s'.inbox.grants == s.rm.granted && s'.rm.granted == s.inbox.grants;
    assert s'.inbox.statuses == s.rm.completed && s'.rm.completed == s.inbox.statuses;
    forall c ensures Assigned(s'.app, c) == Assigned(s.app, c) {}
  }

  lemma AllocateTokens(s: Sys)
    requires AppOk(s.app) && TokensOk(s) && s.inbox.Empty() && !s.app.isFinished
    ensures TokensOk(DoAllocate(s))
  {
  }

  lemma GrantKeeps(s: Sys, kind: Kind, node: nat)
    requires Inv(s) && Enabled(s, Grant(kind, node))
    ensures Inv(DoGrant(s, kind, node))
  {
    var s' := DoGrant(s, kind, node);
    assert TokensOk(s');
    GrantFresh(s, kind, node);
  }

  lemma GrantFresh(s: Sys, kind: Kind, node: nat)
    requires FreshOk(s) && Enabled(s, Grant(kind, node))
    ensures FreshOk(DoGrant(s, kind, node))
  {
  }

  lemma {:induction false} NoAms(ams: seq<ContainerId>, cs: seq<ContainerId>)
    requires forall c | c in cs :: c !in ams
    ensures AmsAmong(ams, cs) == []
  {
    if cs != [] { NoAms(ams, cs[..|cs| - 1]); }
  }

  /** A heartbeat of a node whose AM container is left alone. */
  lemma BeatMoves(n: Node, b: Beat, c: ContainerId)
    requires n.queue == n.running.Keys && Legal(n, b) && forall x | x in b.cleanup :: x !in n.ams
    ensures Held(n)[c] == Held(AfterBeat(n, b))[c] + Named(StatusesOf(BeatReports(n, b)), c)
    ensures AfterBeat(n, b).queue == AfterBeat(n, b).running.Keys
    ensures c in AfterBeat(n, b).ams <==> c in n.ams
  {
    BeatKeeps(n, b);
    NoAms(n.ams, b.cleanup);
    NamedCounts(StatusesOf(BeatReports(n, b)), ContainersOf(BeatReports(n, b)), c);
    ExpireKeeps(StartWork(n, b.ready), b.polled);
    var q := Reported(BeforeReport(n, b));
    ReleaseAms(q, b.cleanup);
    assert multiset(AfterBeat(n, b).ams) == multiset(n.ams);
    assert c in multiset(AfterBeat(n, b).ams) <==> c in multiset(n.ams);
  }

  lemma HeartbeatKeeps(s: Sys, k: nat, b: Beat)
    requires Inv(s) && Enabled(s, Heartbeat(k, b))
    ensures Inv(DoHeartbeat(s, k, b))
  {
    forall c ensures MovedTo(s.nodes[k], AfterBeat(s.nodes[k], b), StatusesOf(BeatReports(s.nodes[k], b)), c) {
      BeatMoves(s.nodes[k], b, c);
    }
    BeatMoves(s.nodes[k], b, s.app.amContainer.value);
    ReportPlaces(s, k, AfterBeat(s.nodes[k], b), StatusesOf(BeatReports(s.nodes[k], b)));
  }

  ghost predicate MovedTo(n: Node, m: Node, more: seq<Status>, c: ContainerId) {
    Held(n)[c] == Held(m)[c] + Named(more, c) && (c in m.ams <==> c in n.ams)
  }

  lemma ReportPlaces(s: Sys, k: nat, m: Node, more: seq<Status>)
    requires FreshOk(s) && PlacedOk(s) && NodesOk(s) && AppOk(s.app) && k < |s.nodes|
    requires m.queue == m.running.Keys && forall c :: MovedTo(s.nodes[k], m, more, c)
    ensures var s' := s.(nodes := s.nodes[k := m], rm := s.rm.(completed := s.rm.completed + more));
            FreshOk(s') && PlacedOk(s') && NodesOk(s')
  {
    var s' := s.(nodes := s.nodes[k := m], rm := s.rm.(completed := s.rm.completed + more));
    forall c ensures HeldBy(s'.nodes, c) + Named(s'.rm.completed, c) == HeldBy(s.nodes, c) + Named(s.rm.completed, c) {
      assert MovedTo(s.nodes[k], m, more, c);
      HeldByUpdate(s.nodes, k, m, c);
      NamedConcat(s.rm.completed, more, c);
    }
    forall j, x | 0 <= j < |s'.nodes| && x in s'.nodes[j].ams ensures s.app.amContainer == Some(x) {
      assert MovedTo(s.nodes[k], m, more, x);
    }
    if s.app.amRunning { AmStays(s, s', k, m, more); }
  }

  lemma AmStays(s: Sys, s': Sys, k: nat, m: Node, more: seq<Status>)
    requires FreshOk(s) && PlacedOk(s) && NodesOk(s) && AppOk(s.app) && k < |s.nodes| && s.app.amRunning
    requires forall c :: MovedTo(s.nodes[k], m, more, c)
    requires s' == s.(nodes := s.nodes[k := m], rm := s.rm.(completed := s.rm.completed + more)) && PlacedOk(s')
    ensures var am := s.app.amContainer.value;
            am in s'.nodes[am.node].ams && Named(s'.rm.completed, am) == 0
  {
    var am := s.app.amContainer.value;
    assert MovedTo(s.nodes[k], m, more, am);
    assert am in s'.nodes[am.node].ams;
    HeldByAtLeast(s'.nodes, am.node, am);
    assert am in multiset(s'.nodes[am.node].ams);
    assert Assigned(s.app, am) == 0;
  }
}
