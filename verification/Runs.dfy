/** Whole runs of the cluster: what holds in every reachable state, that a run can always
    go on to finish, and how much work it takes. */
module Runs {
  import opened Options
  import opened MapReduce
  import opened NodeManager
  import opened Cluster

  ghost predicate Runs(s: Sys, steps: seq<Step>)
    decreases |steps|
  {
    steps != [] ==> Enabled(s, steps[0]) && Runs(Do(s, steps[0]), steps[1..])
  }

  ghost function End(s: Sys, steps: seq<Step>): Sys
    requires Runs(s, steps)
    decreases |steps|
  {
    if steps == [] then s else End(Do(s, steps[0]), steps[1..])
  }

  // ---- the invariant holds throughout --------------------------------------------------

  lemma HeldInitially(s: Sys, tasks: seq<Task>, c: ContainerId)
    requires Initial(s, tasks)
    ensures HeldBy(s.nodes, c) == if s.app.amContainer == Some(c) then 1 else 0
  {
    var am := s.app.amContainer.value;
    var empty := seq(|s.nodes|, i => EMPTY);
    assert s.nodes == empty[am.node := AddAm(EMPTY, am)];
    assert Held(EMPTY)[c] == 0;
    SumOfZeros(Counts(empty, c));
    HeldByUpdate(empty, am.node, AddAm(EMPTY, am), c);
    assert multiset(AddAm(EMPTY, am).ams)[c] == if c == am then 1 else 0;
  }

  lemma NewTasksConserved(all: seq<Task>)
    ensures Conserved(NewTasks(all), all)
  {
  }

  lemma InitialInv(s: Sys, tasks: seq<Task>)
    requires Initial(s, tasks)
    ensures Inv(s)
  {
    forall c ensures HeldBy(s.nodes, c) == if s.app.amContainer == Some(c) then 1 else 0 {
      HeldInitially(s, tasks, c);
    }
    NewTasksConserved(OfKind(tasks, "map"));
    NewTasksConserved(OfKind(tasks, "reduce"));
  }

  lemma DoKeeps(s: Sys, step: Step)
    requires Inv(s) && Enabled(s, step)
    ensures Inv(Do(s, step))
  {
    match step
    case Handle =>
      if s.inbox.statuses != [] { HandleStatusKeeps(s); }
      else if s.inbox.check { HandleCheckKeeps(s); }
      else { HandleGrantKeeps(s); }
    case Allocate => AllocateKeeps(s);
    case Grant(kind, node) => GrantKeeps(s, kind, node);
    case Heartbeat(k, b) => HeartbeatKeeps(s, k, b);
  }

  lemma TasksStay(s: Sys, step: Step)
    requires Enabled(s, step)
    ensures Do(s, step).app.allMaps == s.app.allMaps && Do(s, step).app.allReduces == s.app.allReduces
  {
  }

  lemma {:induction false} RunKeeps(s: Sys, steps: seq<Step>)
    requires Inv(s) && Runs(s, steps)
    ensures var t := End(s, steps);
            Inv(t) && t.app.allMaps == s.app.allMaps && t.app.allReduces == s.app.allReduces
    decreases |steps|
  {
    if steps != [] {
      DoKeeps(s, steps[0]);
      TasksStay(s, steps[0]);
      RunKeeps(Do(s, steps[0]), steps[1..]);
    }
  }

  /** Whatever is killed and asked for again: every task of the trace is in one place, once;
      the counters agree; and kind by kind as many containers are owed or on their way as
      tasks wait. */
  lemma NothingLost(s: Sys, tasks: seq<Task>, steps: seq<Step>)
    requires Initial(s, tasks) && Runs(s, steps)
    ensures var t := End(s, steps); var (maps, reduces) := (t.app.maps, t.app.reduces);
            && (forall x :: Everywhere(maps)[x] == if x.kind == "map" then multiset(tasks)[x] else 0)
            && (forall x :: Everywhere(reduces)[x] == if x.kind == "reduce" then multiset(tasks)[x] else 0)
            && maps.finished == |maps.finishedTasks| && reduces.finished == |reduces.finishedTasks|
            && t.app.finishedContainers == maps.finished + reduces.finished <= t.app.totalContainers
            && ((forall x | x in tasks :: x.kind == "map" || x.kind == "reduce") ==> t.app.totalContainers == |tasks|)
            && (if maps.finished < maps.total then
                  && t.rm.owedMaps + |t.rm.granted| + |t.inbox.grants| == |maps.scheduled|
                  && t.rm.owedReduces == 0 && reduces.scheduled == []
                else
                  && t.rm.owedReduces + |t.rm.granted| + |t.inbox.grants| == |reduces.scheduled|
                  && t.rm.owedMaps == 0 && maps.scheduled == [])
  {
    hide *;
    InitialInv(s, tasks);
    RunKeeps(s, steps);
    KeepsTrace(s, tasks, steps);
    TraceOf(End(s, steps).app, tasks);
    CountsAgree(End(s, steps));
  }

  lemma KeepsTrace(s: Sys, tasks: seq<Task>, steps: seq<Step>)
    requires Initial(s, tasks) && Runs(s, steps)
    ensures var app := End(s, steps).app;
            && app.allMaps == OfKind(tasks, "map") && app.allReduces == OfKind(tasks, "reduce")
            && AllConserved(app) && AppOk(app)
  {
    hide OfKind, AllConserved, AppOk, TokensOk, FreshOk, PlacedOk, NodesOk;
    InitialInv(s, tasks);
    RunKeeps(s, steps);
  }

  lemma CountsAgree(t: Sys)
    requires Inv(t)
    ensures var (maps, reduces) := (t.app.maps, t.app.reduces);
            && maps.finished == |maps.finishedTasks| && reduces.finished == |reduces.finishedTasks|
            && t.app.finishedContainers == maps.finished + reduces.finished <= t.app.totalContainers
            && (if maps.finished < maps.total then
                  && t.rm.owedMaps + |t.rm.granted| + |t.inbox.grants| == |maps.scheduled|
                  && t.rm.owedReduces == 0 && reduces.scheduled == []
                else
                  && t.rm.owedReduces + |t.rm.granted| + |t.inbox.grants| == |reduces.scheduled|
                  && t.rm.owedMaps == 0 && maps.scheduled == [])
  {
    hide Everywhere, FreshOk, PlacedOk, NodesOk;
  }

  /** What the application keeps of the trace. */
  lemma TraceOf(app: App, tasks: seq<Task>)
    requires AllConserved(app) && AppOk(app)
    requires app.allMaps == OfKind(tasks, "map") && app.allReduces == OfKind(tasks, "reduce")
    ensures forall x :: Everywhere(app.maps)[x] == if x.kind == "map" then multiset(tasks)[x] else 0
    ensures forall x :: Everywhere(app.reduces)[x] == if x.kind == "reduce" then multiset(tasks)[x] else 0
    ensures (forall x | x in tasks :: x.kind == "map" || x.kind == "reduce") ==> app.totalContainers == |tasks|
  {
    hide Everywhere, OfKind;
    forall x ensures multiset(OfKind(tasks, "map"))[x] == if x.kind == "map" then multiset(tasks)[x] else 0 {
      OfKindCounts(tasks, "map", x);
    }
    forall x ensures multiset(OfKind(tasks, "reduce"))[x] == if x.kind == "reduce" then multiset(tasks)[x] else 0 {
      OfKindCounts(tasks, "reduce", x);
    }
    if forall x | x in tasks :: x.kind == "map" || x.kind == "reduce" { KindsAddUp(tasks); }
  }

  /** Reduces start when every map has finished. */
  lemma ReducesWaitForMaps(s: Sys, tasks: seq<Task>, steps: seq<Step>)
    requires Initial(s, tasks) && Runs(s, steps)
    ensures var app := End(s, steps).app;
            !Untouched(app.reduces) ==> app.maps.Idle() && app.maps.finished == app.maps.total
  {
    InitialInv(s, tasks);
    RunKeeps(s, steps);
    AllFinishedIsIdle(End(s, steps).app.maps);
  }

  lemma AllFinishedIsIdle(t: Tasks)
    requires Sized(t)
    ensures t.finished == t.total <==> t.Idle()
  {
  }

  /** A finished application has finished every task. */
  lemma FinishedMeansDone(s: Sys, tasks: seq<Task>, steps: seq<Step>)
    requires Initial(s, tasks) && Runs(s, steps) && End(s, steps).app.isFinished
    ensures var app := End(s, steps).app;
            && (forall x :: multiset(app.maps.finishedTasks)[x] == if x.kind == "map" then multiset(tasks)[x] else 0)
            && (forall x ::
                  multiset(app.reduces.finishedTasks)[x] == if x.kind == "reduce" then multiset(tasks)[x] else 0)
            && app.maps.Idle() && app.reduces.Idle() && app.finishedContainers == app.totalContainers
  {
    hide *;
    KeepsTrace(s, tasks, steps);
    TraceOf(End(s, steps).app, tasks);
    AllDoneAtEnd(End(s, steps).app);
  }

  lemma AllDoneAtEnd(app: App)
    requires AllConserved(app) && AppOk(app) && app.isFinished
    ensures multiset(app.maps.finishedTasks) == Everywhere(app.maps)
    ensures multiset(app.reduces.finishedTasks) == Everywhere(app.reduces)
    ensures app.maps.Idle() && app.reduces.Idle() && app.finishedContainers == app.totalContainers
  {
    AllFinishedIsIdle(app.maps);
    AllFinishedIsIdle(app.reduces);
    IdleIsFinished(app.maps, app.allMaps);
    IdleIsFinished(app.reduces, app.allReduces);
  }

  lemma IdleIsFinished(t: Tasks, all: seq<Task>)
    requires Conserved(t, all) && t.Idle()
    ensures multiset(t.finishedTasks) == multiset(all) == Everywhere(t)
  {
  }

  // ---- the AM container is released once -----------------------------------------------

  ghost function Releases(s: Sys, steps: seq<Step>): nat
    requires Runs(s, steps)
    decreases |steps|
  {
    if steps == [] then 0
    else
      var t := Do(s, steps[0]);
      (if s.app.amRunning && !t.app.amRunning then 1 else 0) + Releases(t, steps[1..])
  }

  lemma {:induction false} ReleasedOnce(s: Sys, steps: seq<Step>)
    requires Inv(s) && Runs(s, steps)
    ensures Releases(s, steps) == if !s.app.isFinished && End(s, steps).app.isFinished then 1 else 0
    ensures s.app.isFinished ==> End(s, steps).app.isFinished
    decreases |steps|
  {
    if steps != [] {
      DoKeeps(s, steps[0]);
      NeverRevives(s, steps[0]);
      ReleasedOnce(Do(s, steps[0]), steps[1..]);
    }
  }

  lemma NeverRevives(s: Sys, step: Step)
    requires Inv(s) && Enabled(s, step)
    ensures s.app.isFinished ==> Do(s, step).app.isFinished
  {
    if step.Handle? && s.inbox.statuses != [] { InboxIsAssigned(s); }
  }

  // ---- the work that is left -------------------------------------------------------------

  function Load(t: Tasks): nat { 3 * (|t.pending| + |t.failed|) + 2 * |t.scheduled| + |t.assignments| }

  function Failing(ss: seq<Status>): nat {
    if ss == [] then 0 else (if ss[0].success then 0 else 1) + Failing(ss[1..])
  }

  function Released(nodes: seq<Node>): seq<nat> {
    seq(|nodes|, i requires 0 <= i < |nodes| => |nodes[i].released|)
  }

  /** Handling work still to do. A kill that is on its way costs three more. */
  function Left(s: Sys): nat {
    Load(s.app.maps) + Load(s.app.reduces) + (if s.app.isFinished then 0 else 1)
    + 3 * (Failing(s.inbox.statuses) + Failing(s.rm.completed) + Sum(Released(s.nodes)))
  }

  /** What a step does of it. */
  ghost function Worth(s: Sys, step: Step): nat
    requires Enabled(s, step)
  {
    match step
    case Handle =>
      if s.inbox.statuses != [] || !s.inbox.check then 1
      else if s.app.amRunning && s.app.AllDone() then 1 else 0
    case Allocate => if NextAsk(s.app).Nothing? then 0 else |NextAsk(s.app).tasks|
    case Grant(_, _) => 0
    case Heartbeat(_, _) => 0
  }

  ghost function Work(s: Sys, steps: seq<Step>): nat
    requires Runs(s, steps)
    decreases |steps|
  {
    if steps == [] then 0 else Worth(s, steps[0]) + Work(Do(s, steps[0]), steps[1..])
  }

  function KillsOf(step: Step): nat { if step.Heartbeat? then |step.beat.cleanup| else 0 }

  function Kills(steps: seq<Step>): nat {
    if steps == [] then 0 else KillsOf(steps[0]) + Kills(steps[1..])
  }

  lemma {:induction false} FailingConcat(a: seq<Status>, b: seq<Status>)
    ensures Failing(a + b) == Failing(a) + Failing(b)
  {
    if a == [] {
      assert a + b == b;
    } else {
      FailingConcat(a[1..], b);
      assert (a + b)[1..] == a[1..] + b;
    }
  }

  lemma {:induction false} FailingSplit(ss: seq<Status>, n: nat)
    requires n <= |ss| && forall i | 0 <= i < |ss| :: ss[i].success <==> i < n
    ensures Failing(ss) == |ss| - n
  {
    if ss != [] { FailingSplit(ss[1..], if n == 0 then 0 else n - 1); }
  }

  lemma StatusWork(s: Sys)
    requires FreshOk(s) && PlacedOk(s) && NodesOk(s) && s.inbox.statuses != []
    ensures Left(HandleOneStatus(s)) + 1 == Left(s)
  {
    InboxIsAssigned(s);
    var c := s.inbox.statuses[0].container;
    if c in s.app.maps.assignments { SizeWithout(s.app.maps, c); } else { SizeWithout(s.app.reduces, c); }
  }

  lemma GrantWork(s: Sys)
    requires TokensOk(s) && FreshOk(s) && PlacedOk(s) && AppOk(s.app) && s.inbox.grants != []
    ensures s.inbox.grants[0].node < |s.nodes| && Left(HandleOneGrant(s)) + 1 == Left(s)
  {
    GrantFindsTask(s);
    var c := s.inbox.grants[0];
    GrantLoad(s.app, c);
    assert Released(Launched(s.nodes, c, NextScheduled(s.app)[0])) == Released(s.nodes);
  }

  lemma GrantLoad(app: App, c: ContainerId)
    requires NextScheduled(app) != [] && Assigned(app, c) == 0
    ensures var app' := HandleGrant(app, c);
            && Load(app'.maps) + Load(app'.reduces) + 1 == Load(app.maps) + Load(app.reduces)
            && app'.isFinished == app.isFinished
  {
  }

  lemma CheckWork(s: Sys)
    requires AppOk(s.app) && NodesOk(s)
    ensures Left(HandleCheck(s)) + (if s.app.amRunning && s.app.AllDone() then 1 else 0) == Left(s)
  {
    assert Released(HandleCheck(s).nodes) == Released(s.nodes);
  }

  lemma AllocateWork(s: Sys)
    requires AppOk(s.app) && Enabled(s, Allocate)
    ensures Left(DoAllocate(s)) + Worth(s, Allocate) == Left(s)
  {
    hide Failing, Sum, Released;
  }

  lemma OwingWork(s: Sys, kind: Kind, node: nat)
    requires Enabled(s, Grant(kind, node))
    ensures Left(DoGrant(s, kind, node)) == Left(s)
  {
  }

  lemma {:induction false} ReleasedAll(n: Node, cleanup: seq<ContainerId>)
    requires forall c | c in cleanup :: c !in n.ams
    ensures Release(n, cleanup).released == n.released + cleanup && Release(n, cleanup).ams == n.ams
  {
    if cleanup != [] {
      ReleasedAll(n, cleanup[..|cleanup| - 1]);
      assert cleanup == cleanup[..|cleanup| - 1] + [cleanup[|cleanup| - 1]];
    }
  }

  lemma HeartbeatWork(s: Sys, k: nat, b: Beat)
    requires Enabled(s, Heartbeat(k, b)) && NodesOk(s)
    ensures Left(DoHeartbeat(s, k, b)) == Left(s) + 3 * |b.cleanup|
  {
    var n, rs := s.nodes[k], BeatReports(s.nodes[k], b);
    ExpireKeeps(StartWork(n, b.ready), b.polled);
    ReleasedAll(Reported(BeforeReport(n, b)), b.cleanup);
    FailingConcat(s.rm.completed, StatusesOf(rs));
    FailingSplit(StatusesOf(rs), |n.completed + b.polled|);
    var nodes := s.nodes[k := AfterBeat(n, b)];
    assert Released(nodes) == Released(s.nodes)[k := |b.cleanup|];
    SumUpdate(Released(s.nodes), k, |b.cleanup|);
  }

  lemma StepWork(s: Sys, step: Step)
    requires Inv(s) && Enabled(s, step)
    ensures Left(Do(s, step)) + Worth(s, step) == Left(s) + 3 * KillsOf(step)
  {
    hide Left, HandleOneStatus, HandleOneGrant, HandleCheck, DoAllocate, DoHeartbeat, Legal, App.AllDone;
    match step
    case Handle =>
      if s.inbox.statuses != [] { StatusWork(s); }
      else if s.inbox.check { CheckWork(s); }
      else { GrantWork(s); }
    case Allocate => AllocateWork(s);
    case Grant(kind, node) => OwingWork(s, kind, node);
    case Heartbeat(k, b) => HeartbeatWork(s, k, b);
  }

  /** Work done and work left add up. */
  lemma {:induction false} WorkLaw(s: Sys, steps: seq<Step>)
    requires Inv(s) && Runs(s, steps)
    ensures Left(End(s, steps)) + Work(s, steps) == Left(s) + 3 * Kills(steps)
    decreases |steps|
  {
    if steps != [] {
      StepWork(s, steps[0]);
      DoKeeps(s, steps[0]);
      WorkLaw(Do(s, steps[0]), steps[1..]);
    }
  }

  /** However it goes, a run asks, launches and handles a bounded number of times: three
      per task and three more per kill, and one for the end. */
  lemma WorkIsBounded(s: Sys, tasks: seq<Task>, steps: seq<Step>)
    requires Initial(s, tasks) && Runs(s, steps)
    ensures Work(s, steps) <= 3 * s.app.totalContainers + 1 + 3 * Kills(steps)
  {
    InitialInv(s, tasks);
    WorkLaw(s, steps);
    SumOfZeros(Released(s.nodes));
  }

  // ---- a run can always finish ------------------------------------------------------------

  ghost predicate Progresses(s: Sys, steps: seq<Step>) {
    Runs(s, steps) && Kills(steps) == 0 && Work(s, steps) > 0
  }

  lemma First(s: Sys, step: Step, rest: seq<Step>)
    requires Enabled(s, step) && KillsOf(step) == 0 && Runs(Do(s, step), rest) && Kills(rest) == 0
    ensures Runs(s, [step] + rest) && Kills([step] + rest) == 0
    ensures Work(s, [step] + rest) == Worth(s, step) + Work(Do(s, step), rest)
    ensures End(s, [step] + rest) == End(Do(s, step), rest)
  {
  }

  /** There is something in the inbox that counts. */
  lemma InboxProgresses(s: Sys) returns (steps: seq<Step>)
    requires Inv(s)
    requires s.inbox.statuses != [] || s.inbox.grants != [] || (s.inbox.check && s.app.AllDone() && s.app.amRunning)
    ensures Progresses(s, steps)
  {
    if s.inbox.grants != [] { GrantFindsTask(s); }
    steps := [];
    if s.inbox.statuses == [] && s.inbox.check && !(s.app.amRunning && s.app.AllDone()) {
      DoKeeps(s, Handle);
      var s' := Do(s, Handle);
      GrantFindsTask(s');
      First(s', Handle, []);
      steps := [Handle] + [];
    }
    First(s, Handle, steps);
    steps := [Handle] + steps;
  }

  /** There is something to hand over, or the end to notice. */
  lemma AllocateProgresses(s: Sys) returns (steps: seq<Step>)
    requires Inv(s) && s.inbox.Empty() && !s.app.isFinished
    requires s.rm.completed != [] || s.rm.granted != [] || s.app.AllDone()
    ensures Progresses(s, steps)
  {
    DoKeeps(s, Allocate);
    SendMoves(s.app);
    steps := InboxProgresses(Do(s, Allocate));
    First(s, Allocate, steps);
    steps := [Allocate] + steps;
  }

  lemma OwedProgresses(s: Sys) returns (steps: seq<Step>)
    requires Inv(s) && s.inbox.Empty() && !s.app.isFinished && s.rm.owedMaps + s.rm.owedReduces > 0
    ensures Progresses(s, steps)
  {
    var step := Grant(if s.rm.owedMaps > 0 then Maps else Reduces, s.app.amContainer.value.node);
    DoKeeps(s, step);
    steps := AllocateProgresses(Do(s, step));
    First(s, step, steps);
    steps := [step] + steps;
  }

  /** A container that ends is reported. */
  lemma NodeProgresses(s: Sys, k: nat, c: ContainerId) returns (steps: seq<Step>)
    requires Inv(s) && s.inbox.Empty() && !s.app.isFinished
    requires k < |s.nodes| && Held(s.nodes[k])[c] > 0 && c !in s.nodes[k].ams
    ensures Progresses(s, steps)
  {
    var step := LastBeat(s, k, c);
    DoKeeps(s, step);
    steps := AllocateProgresses(Do(s, step));
    First(s, step, steps);
    steps := [step] + steps;
  }

  lemma LastBeat(s: Sys, k: nat, c: ContainerId) returns (step: Step)
    requires NodesOk(s) && k < |s.nodes| && Held(s.nodes[k])[c] > 0 && c !in s.nodes[k].ams
    ensures Enabled(s, step) && KillsOf(step) == 0
    ensures var s' := Do(s, step); s'.rm.completed != [] && s'.inbox == s.inbox && s'.app == s.app
  {
    var n := s.nodes[k];
    var b := Beat({}, if c in n.running then [c] else [], []);
    HeldSomewhere(n, c);
    ExpireKeeps(StartWork(n, b.ready), b.polled);
    step := Heartbeat(k, b);
  }

  lemma HeldSomewhere(n: Node, c: ContainerId)
    requires Held(n)[c] > 0 && c !in n.ams
    ensures c in n.running || c in n.completed || c in n.released
  {
  }

  /** With nothing under way and nothing to ask, a task has its container on a node. */
  lemma SomeContainer(s: Sys) returns (k: nat, c: ContainerId)
    requires Inv(s) && s.inbox.Empty() && !s.app.isFinished && NextAsk(s.app).Nothing? && !s.app.AllDone()
    requires s.rm.completed == [] && s.rm.granted == [] && s.rm.owedMaps + s.rm.owedReduces == 0
    ensures k < |s.nodes| && Held(s.nodes[k])[c] > 0 && c !in s.nodes[k].ams
  {
    c := SomeAssigned(s.app);
    assert Times(s.rm.granted, c) + Times(s.inbox.grants, c) + Assigned(s.app, c)
           <= if 0 < c.id < s.rm.next && c.node < |s.nodes| then 1 else 0;
    assert HeldBy(s.nodes, c) > 0;
    SumOfZeros(Counts(s.nodes, c));
    k :| 0 <= k < |s.nodes| && Counts(s.nodes, c)[k] != 0;
  }

  lemma SomeAssigned(app: App) returns (c: ContainerId)
    requires AppOk(app) && !app.isFinished && NextAsk(app).Nothing? && !app.AllDone()
    requires app.maps.scheduled == [] && app.reduces.scheduled == []
    ensures Assigned(app, c) > 0
  {
    var t := if app.maps.finished != app.maps.total then app.maps else app.reduces;
    assert |t.assignments| > 0;
    assert t.assignments != map[];
    c :| c in t.assignments;
  }

  /** No reachable unfinished state is stuck: without another kill, work gets done. */
  lemma NeverStuck(s: Sys) returns (steps: seq<Step>)
    requires Inv(s) && !s.app.isFinished
    ensures Progresses(s, steps)
  {
    if s.inbox.statuses != [] || s.inbox.grants != [] || (s.inbox.check && s.app.AllDone()) {
      steps := InboxProgresses(s);
    } else if s.inbox.check {
      DoKeeps(s, Handle);
      steps := QuietProgresses(Do(s, Handle));
      First(s, Handle, steps);
      steps := [Handle] + steps;
    } else {
      steps := QuietProgresses(s);
    }
  }

  lemma QuietProgresses(s: Sys) returns (steps: seq<Step>)
    requires Inv(s) && !s.app.isFinished && s.inbox.Empty()
    ensures Progresses(s, steps)
  {
    if s.rm.completed != [] || s.rm.granted != [] || s.app.AllDone() {
      steps := AllocateProgresses(s);
    } else if s.rm.owedMaps + s.rm.owedReduces > 0 {
      steps := OwedProgresses(s);
    } else if NextAsk(s.app).Nothing? {
      var k, c := SomeContainer(s);
      steps := NodeProgresses(s, k, c);
    } else {
      First(s, Allocate, []);
      steps := [Allocate] + [];
    }
  }

  lemma {:induction false} Join(s: Sys, a: seq<Step>, b: seq<Step>)
    requires Runs(s, a) && Kills(a) == 0 && Runs(End(s, a), b) && Kills(b) == 0
    ensures Runs(s, a + b) && End(s, a + b) == End(End(s, a), b) && Kills(a + b) == 0
    decreases |a|
  {
    if a == [] {
      assert a + b == b;
    } else {
      Join(Do(s, a[0]), a[1..], b);
      First(s, a[0], a[1..] + b);
      assert a + b == [a[0]] + (a[1..] + b);
    }
  }

  /** Every run, wherever it is, can be continued to the end without another kill. */
  lemma {:induction false} CanFinish(s: Sys) returns (steps: seq<Step>)
    requires Inv(s)
    ensures Runs(s, steps) && Kills(steps) == 0 && End(s, steps).app.isFinished
    decreases Left(s)
  {
    steps := [];
    if !s.app.isFinished {
      steps := NeverStuck(s);
      RunKeeps(s, steps);
      WorkLaw(s, steps);
      var more := CanFinish(End(s, steps));
      Join(s, steps, more);
      steps := steps + more;
    }
  }

  // ---- handling a whole response is a run of steps -------------------------------------------

  lemma {:induction false} DrainedIsARun(s: Sys) returns (steps: seq<Step>)
    requires Inv(s)
    ensures GrantsKnown(s) && Runs(s, steps) && Kills(steps) == 0 && End(s, steps) == Drained(s)
    decreases Size(s.inbox)
  {
    KnownGrants(s);
    steps := [];
    if !s.inbox.Empty() {
      HandleEnabled(s);
      hide Do, Inv;
      steps := DrainedIsARun(Do(s, Handle));
      First(s, Handle, steps);
      steps := [Handle] + steps;
    }
  }

  lemma HandleEnabled(s: Sys)
    requires Inv(s) && !s.inbox.Empty()
    ensures Enabled(s, Handle) && Inv(Do(s, Handle))
    ensures GrantsKnown(s) && GrantsKnown(Do(s, Handle))
    ensures Drained(s) == Drained(Do(s, Handle))
    ensures Size(Do(s, Handle).inbox) < Size(s.inbox)
  {
    hide Inv, Legal, HandleStatus, HandleGrant, NodesAfterCheck, NodesAfterGrant, CheckFinished;
    InvKnowsGrants(s);
    DoKeeps(s, Handle);
    InvKnowsGrants(Do(s, Handle));
  }

  lemma InvKnowsGrants(s: Sys)
    requires Inv(s)
    ensures GrantsKnown(s) && s.app.amContainer.Some?
  {
    KnownGrants(s);
  }

  lemma KnownGrants(s: Sys)
    requires FreshOk(s)
    ensures GrantsKnown(s)
  {
  }

  /** The application master handles a response without the resource manager. */
  lemma {:induction false} DrainedLeavesManager(s: Sys, rm: Manager)
    requires GrantsKnown(s)
    ensures Drained(s.(rm := rm)) == Drained(s).(rm := rm)
    decreases Size(s.inbox)
  {
    if !s.inbox.Empty() && s.app.amContainer.Some? {
      assert Do(s.(rm := rm), Handle) == Do(s, Handle).(rm := rm);
      DrainedLeavesManager(Do(s, Handle), rm);
    }
  }
}
