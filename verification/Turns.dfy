/** The application master's turns are runs of the cluster: what its methods do in place is
    what the run theorems speak of. */
module Turns {
  import opened Sequences
  import opened MapReduce
  import opened NodeManager
  import opened Cluster
  import opened Runs
  import opened PackageRequests
  import opened Application

  /** What the application master can see of the cluster. */
  ghost function View(s: Sys): Sys { s.(rm := NO_MANAGER, inbox := NO_MAIL) }

  /** The response that is there to be handled. */
  function Queue(s: Sys): seq<Response> {
    if s.inbox.Empty() then [] else [Response(s.inbox.statuses, s.inbox.grants)]
  }

  /** What the resource manager will answer next. */
  function Answer(s: Sys): Response { Response(s.rm.completed, s.rm.granted) }

  /** Nothing of the response is handled yet. */
  predicate Unopened(s: Sys) { s.inbox.Empty() || s.inbox.check }

  /** Each request for any node replaces what is owed at its priority. */
  function Owing(rm: Manager, ask: seq<Request>): Manager {
    if ask == [] then rm
    else
      var before, r := Owing(rm, ask[..|ask| - 1]), ask[|ask| - 1];
      if r.name != ANY then before
      else if r.priority == PRIORITY_MAP then before.(owedMaps := r.count)
      else if r.priority == PRIORITY_REDUCE then before.(owedReduces := r.count)
      else before
  }

  // ---- handling ------------------------------------------------------------------------------

  /** The class's handling of the queue is a run of handling steps. */
  lemma HandlingIsARun(s: Sys) returns (steps: seq<Step>)
    requires Inv(s) && Unopened(s)
    ensures Runs.Runs(s, steps) && Kills(steps) == 0 && Inv(End(s, steps))
    ensures var t := End(s, steps); t.inbox == NO_MAIL && t.rm == s.rm
    ensures forall r | r in Queue(s) :: Deliverable(|s.nodes|, r)
    ensures HandledAll(View(s), Queue(s)) == View(End(s, steps))
  {
    steps := DrainedIsARun(s);
    RunKeeps(s, steps);
    DrainedNodes(s);
    DrainedView(s);
    HandledIsDrained(s);
    hide Inv, Drained, HandledAll, Runs.Runs, Do;
  }

  lemma DrainedView(s: Sys)
    requires GrantsKnown(s)
    ensures Drained(s).rm == s.rm && GrantsKnown(s.(rm := NO_MANAGER))
    ensures Drained(s.(rm := NO_MANAGER)) == Drained(s).(rm := NO_MANAGER)
  {
    DrainedLeavesManager(s, NO_MANAGER);
    DrainedLeavesManager(s, s.rm);
    assert s.(rm := s.rm) == s;
  }

  lemma HandledIsDrained(s: Sys)
    requires GrantsKnown(s) && Unopened(s) && s.app.amContainer.Some?
    requires Drained(s).inbox == NO_MAIL
    requires GrantsKnown(s.(rm := NO_MANAGER)) && Drained(s.(rm := NO_MANAGER)) == Drained(s).(rm := NO_MANAGER)
    ensures forall r | r in Queue(s) :: Deliverable(|s.nodes|, r)
    ensures HandledAll(View(s), Queue(s)) == View(Drained(s))
  {
    if s.inbox.Empty() {
      assert Drained(s) == s;
    } else {
      hide Drained;
      assert View(s).(inbox := Inbox(s.inbox.statuses, true, s.inbox.grants)) == s.(rm := NO_MANAGER);
      assert Queue(s)[1..] == [];
    }
  }

  // ---- asking --------------------------------------------------------------------------------

  lemma {:induction false} OthersOwing(rm: Manager, ask: seq<Request>, priority: int)
    requires forall r | r in ask :: r.priority == priority
    ensures var m := Owing(rm, ask);
            && m.granted == rm.granted && m.completed == rm.completed && m.next == rm.next
            && (priority != PRIORITY_MAP ==> m.owedMaps == rm.owedMaps)
            && (priority != PRIORITY_REDUCE ==> m.owedReduces == rm.owedReduces)
  {
    if ask != [] { OthersOwing(rm, ask[..|ask| - 1], priority); }
  }

  /** The last request is the one for any node, and it decides. */
  lemma PackageOwes(rm: Manager, ask: seq<Request>, tasks: seq<Task>, kind: Kind)
    requires tasks != [] && IsPackage(ask, tasks, if kind.Maps? then PRIORITY_MAP else PRIORITY_REDUCE)
    ensures Owing(rm, ask) == if kind.Maps? then rm.(owedMaps := |tasks|) else rm.(owedReduces := |tasks|)
  {
    var priority := if kind.Maps? then PRIORITY_MAP else PRIORITY_REDUCE;
    LastIsAny(ask, tasks, priority);
    OthersOwing(rm, ask[..|ask| - 1], priority);
  }

  lemma LastIsAny(ask: seq<Request>, tasks: seq<Task>, priority: int)
    requires tasks != [] && IsPackage(ask, tasks, priority)
    ensures ask != [] && ask[|ask| - 1] == Request(ANY, priority, |tasks|)
  {
    var n, m :| 0 <= n <= m <= |ask| && Covers(ask[..n], tasks, Host) && Covers(ask[n..m], tasks, Rack)
                && ask[m..] == [Request(ANY, priority, |tasks|)];
    assert ask[m..][0] == ask[m] && |ask[m..]| == 1;
  }

  /** What the requests make the resource manager owe is what the cluster's step says. */
  lemma AskingIsAStep(s: Sys, ask: seq<Request>)
    requires Inv(s) && s.inbox == NO_MAIL && !s.app.isFinished && Asks(s.app, ask)
    ensures Enabled(s, Allocate)
    ensures DoAllocate(s).rm == Owing(s.rm, ask).(granted := [], completed := [])
  {
    match NextAsk(s.app)
    case Nothing =>
    case Containers(kind, tasks) => PackageOwes(s.rm, ask, tasks, kind);
  }

  // ---- a turn ----------------------------------------------------------------------------------

  lemma {:induction false} RunsAdd(s: Sys, steps: seq<Step>, last: Step)
    requires Runs.Runs(s, steps) && Kills(steps) == 0 && Enabled(End(s, steps), last) && KillsOf(last) == 0
    ensures Runs.Runs(s, steps + [last]) && Kills(steps + [last]) == 0
    ensures End(s, steps + [last]) == Do(End(s, steps), last)
    decreases |steps|
  {
    First(End(s, steps), last, []);
    assert [last] + [] == [last];
    Join(s, steps, [last]);
  }

  /** The class is where the cluster is. */
  ghost predicate Mirrors(am: MRAMSimulator, s: Sys)
    reads am, am.nodes
  {
    am.Valid() && Inv(s) && Unopened(s) && am.Now(NO_MAIL) == View(s) && am.responseQueue == Queue(s)
  }

  method HandleQueue(am: MRAMSimulator, ghost s: Sys) returns (ghost steps: seq<Step>)
    requires Mirrors(am, s)
    modifies am, am.nodes
    ensures Runs.Runs(s, steps) && Kills(steps) == 0
    ensures var t := End(s, steps); Mirrors(am, t) && t.inbox == NO_MAIL && t.rm == s.rm
  {
    hide *;
    Opened(am, s);
    steps := HandlingIsARun(s);
    ghost var t := End(s, steps);
    var left := am.ProcessResponseQueue();
    SeenOfAm(am, left, t);
    Closed(am, left, t);
  }

  lemma Opened(am: MRAMSimulator, s: Sys)
    requires Mirrors(am, s)
    ensures am.Valid() && Inv(s) && Unopened(s) && am.Now(NO_MAIL) == View(s) && am.responseQueue == Queue(s)
    ensures am.amContainer.Some? && am.isFinished == s.app.isFinished
    ensures am.State() == s.app && am.NodeStates() == s.nodes && |am.nodes| == |s.nodes|
  {
    SeenOfAm(am, NO_MAIL, s);
  }

  lemma Closed(am: MRAMSimulator, left: Inbox, s: Sys)
    requires am.Valid() && Inv(s) && am.Now(left) == View(s) && am.responseQueue == [] && s.inbox == NO_MAIL
    ensures Mirrors(am, s)
  {
    hide Inv;
    assert am.Now(left).inbox == NO_MAIL;
  }

  lemma SeenOfAm(am: MRAMSimulator, left: Inbox, s: Sys)
    requires Inv(s) && am.Now(left) == View(s)
    ensures am.amContainer.Some? && am.isFinished == s.app.isFinished
    ensures am.State() == s.app && |am.nodes| == |s.nodes|
  {
    assert am.State() == am.Now(left).app && am.NodeStates() == am.Now(left).nodes;
  }

  method SendNext(am: MRAMSimulator, answer: Response, ghost s: Sys) returns (sent: bool, ask: seq<Request>)
    requires Mirrors(am, s) && s.inbox == NO_MAIL && answer == Answer(s)
    modifies am
    ensures sent <==> !s.app.isFinished
    ensures sent ==> Enabled(s, Allocate) && Mirrors(am, Do(s, Allocate))
    ensures sent ==> Do(s, Allocate).rm == Owing(s.rm, ask).(granted := [], completed := [])
    ensures !sent ==> Mirrors(am, s)
  {
    hide *;
    Opened(am, s);
    sent, ask := am.SendContainerRequest();
    if sent { Deliver(am, answer, s, ask); } else { NotSent(am, s); }
  }

  method Deliver(am: MRAMSimulator, answer: Response, ghost s: Sys, ghost ask: seq<Request>)
    requires Inv(s) && s.inbox == NO_MAIL && !s.app.isFinished && Asks(s.app, ask) && answer == Answer(s)
    requires am.Valid() && am.NodeStates() == s.nodes && am.State() == MapReduce.Send(s.app)
    requires am.responseQueue == Queue(s)
    modifies am`responseQueue
    ensures Enabled(s, Allocate) && Mirrors(am, Do(s, Allocate))
    ensures Do(s, Allocate).rm == Owing(s.rm, ask).(granted := [], completed := [])
  {
    hide *;
    AskingIsAStep(s, ask);
    DoKeeps(s, Allocate);
    am.responseQueue := am.responseQueue + [answer];
    Sent(am, s, answer);
  }

  lemma Sent(am: MRAMSimulator, s: Sys, answer: Response)
    requires Enabled(s, Allocate) && Inv(Do(s, Allocate)) && s.inbox == NO_MAIL && answer == Answer(s)
    requires am.Valid() && am.NodeStates() == s.nodes && am.State() == MapReduce.Send(s.app)
    requires am.responseQueue == Queue(s) + [answer]
    ensures Mirrors(am, Do(s, Allocate)) && Do(s, Allocate).rm == DoAllocate(s).rm
  {
    hide Inv, MapReduce.Send, MRAMSimulator.State;
    Mirror(am, DoAllocate(s));
  }

  lemma NotSent(am: MRAMSimulator, s: Sys)
    requires Inv(s) && s.inbox == NO_MAIL && s.app.isFinished
    requires am.Valid() && am.NodeStates() == s.nodes && am.State() == MapReduce.Send(s.app)
    requires am.responseQueue == Queue(s)
    ensures Mirrors(am, s)
  {
    assert MapReduce.Send(s.app) == s.app;
    hide Inv, MRAMSimulator.State;
    Mirror(am, s);
  }

  /** One turn: the queue is handled, the next request is sent, and the answer is queued. From
      any reachable state of the cluster this is a run of it, and leads to the state it says. */
  method MiddleStep(am: MRAMSimulator, answer: Response, ghost s: Sys)
    returns (sent: bool, ask: seq<Request>, stop: bool, ghost steps: seq<Step>)
    requires Mirrors(am, s) && answer == Answer(s)
    modifies am, am.nodes
    ensures Runs.Runs(s, steps) && Kills(steps) == 0 && Mirrors(am, End(s, steps))
    ensures End(s, steps).rm == if sent then Owing(s.rm, ask).(granted := [], completed := []) else s.rm
    ensures (sent <==> !stop) && (stop <==> End(s, steps).app.isFinished)
  {
    hide Mirrors, Owing;
    steps := HandleQueue(am, s);
    ghost var t := End(s, steps);
    sent, ask := SendNext(am, answer, t);
    if sent {
      RunsAdd(s, steps, Allocate);
      steps := steps + [Allocate];
    }
    stop := Finished(am, End(s, steps));
  }

  method Finished(am: MRAMSimulator, ghost s: Sys) returns (stop: bool)
    requires Mirrors(am, s)
    ensures stop <==> s.app.isFinished
  {
    stop := am.isFinished;
  }

  // ---- the start, and what goes on between two turns --------------------------------------------

  lemma Mirror(am: MRAMSimulator, s: Sys)
    requires am.Valid() && Inv(s) && Unopened(s)
    requires am.State() == s.app && am.NodeStates() == s.nodes && am.responseQueue == Queue(s)
    ensures Mirrors(am, s)
  {
    hide Inv, Unopened, Queue, MRAMSimulator.State;
  }

  /** The application is set up over empty node managers, and its container has come. */
  method Start(tasks: seq<Task>, nodes: seq<NMSimulator>, container: ContainerId)
    returns (am: MRAMSimulator, ghost s: Sys)
    requires Distinct(nodes) && (forall k | 0 <= k < |nodes| :: nodes[k].State() == EMPTY)
    requires container.id == 0 && container.node < |nodes|
    modifies nodes
    ensures fresh(am) && am.nodes == nodes && Initial(s, tasks) && Mirrors(am, s)
  {
    am := SetUp(tasks, nodes, container);
    s := Sys(am.State(), NO_MAIL, Manager(0, 0, [], [], 1), am.NodeStates());
    hide *;
    Beginning(s, tasks, container);
    InitialInv(s, tasks);
    Mirror(am, s);
  }

  method SetUp(tasks: seq<Task>, nodes: seq<NMSimulator>, container: ContainerId) returns (am: MRAMSimulator)
    requires Distinct(nodes) && (forall k | 0 <= k < |nodes| :: nodes[k].State() == EMPTY)
    requires container.id == 0 && container.node < |nodes|
    modifies nodes
    ensures fresh(am) && am.nodes == nodes && am.Valid() && am.State() == Started(Init(tasks), container)
    ensures am.NodeStates() == seq(|nodes|, k => EMPTY)[container.node := AddAm(EMPTY, container)]
    ensures am.responseQueue == []
  {
    hide Init, Started, AddAm, MRAMSimulator.State;
    am := new MRAMSimulator(tasks, nodes);
    assert am.NodeStates() == seq(|nodes|, k => EMPTY);
    am.StartAM(container);
  }

  lemma Beginning(s: Sys, tasks: seq<Task>, am: ContainerId)
    requires am.id == 0 && am.node < |s.nodes| && s.app == Started(Init(tasks), am)
    requires s.nodes == seq(|s.nodes|, k => EMPTY)[am.node := AddAm(EMPTY, am)]
    requires s.inbox == NO_MAIL && s.rm == Manager(0, 0, [], [], 1)
    ensures Initial(s, tasks) && Unopened(s) && Queue(s) == []
  {
  }

  /** A node manager's heartbeat is the cluster's: its terminal statuses reach the manager. */
  method NodeStep(am: MRAMSimulator, k: nat, b: Beat, ghost s: Sys) returns (rs: seq<Report>, alive: nat)
    requires Mirrors(am, s) && Enabled(s, Heartbeat(k, b)) && k < |am.nodes|
    modifies am.nodes
    ensures Mirrors(am, Do(s, Heartbeat(k, b))) && alive <= |rs|
    ensures Do(s, Heartbeat(k, b)).rm.completed == s.rm.completed + StatusesOf(rs[alive..])
  {
    hide *;
    Opened(am, s);
    BeatShape(s, k, b);
    DoKeeps(s, Heartbeat(k, b));
    rs, alive := OneBeat(am, k, b);
    Mirror(am, Do(s, Heartbeat(k, b)));
  }

  lemma BeatShape(s: Sys, k: nat, b: Beat)
    requires Enabled(s, Heartbeat(k, b)) && Unopened(s)
    ensures k < |s.nodes|
    ensures var t := Do(s, Heartbeat(k, b));
            && t.app == s.app && t.nodes == s.nodes[k := AfterBeat(s.nodes[k], b)]
            && Unopened(t) && Queue(t) == Queue(s)
            && t.rm.completed == s.rm.completed + StatusesOf(BeatReports(s.nodes[k], b))
  {
  }

  method OneBeat(am: MRAMSimulator, k: nat, b: Beat) returns (rs: seq<Report>, alive: nat)
    requires Distinct(am.nodes) && k < |am.nodes|
    modifies am.nodes
    ensures am.NodeStates() == old(am.NodeStates()[k := AfterBeat(am.NodeStates()[k], b)])
    ensures alive <= |rs| && rs[alive..] == old(BeatReports(am.NodeStates()[k], b))
  {
    hide AfterBeat, BeatReports;
    rs, alive := am.nodes[k].MiddleStep(b);
  }

  /** A grant is the resource manager's own affair. */
  lemma GrantIsUnseen(am: MRAMSimulator, s: Sys, kind: Kind, node: nat)
    requires Mirrors(am, s) && Enabled(s, Grant(kind, node))
    ensures Mirrors(am, Do(s, Grant(kind, node)))
  {
    hide *;
    Opened(am, s);
    GrantShape(s, kind, node);
    DoKeeps(s, Grant(kind, node));
    Mirror(am, Do(s, Grant(kind, node)));
  }

  lemma GrantShape(s: Sys, kind: Kind, node: nat)
    requires Enabled(s, Grant(kind, node)) && Unopened(s)
    ensures var t := Do(s, Grant(kind, node));
            t.app == s.app && t.nodes == s.nodes && Unopened(t) && Queue(t) == Queue(s)
  {
  }
}
