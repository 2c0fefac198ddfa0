/** What a launch does, over whole runs: which node runs which task, and in which order tasks
    are launched. */
module Launches {
  import opened Options
  import opened Sequences
  import opened MapReduce
  import opened NodeManager
  import opened Cluster
  import opened Runs

  // ---- what a node runs is what it was given --------------------------------------------

  /** A node holds containers granted on it, and runs under each the task the application
      has assigned to it; the application's own container is given back with the end. */
  ghost predicate Agrees(s: Sys, k: nat, c: ContainerId)
    requires k < |s.nodes|
  {
    && (Held(s.nodes[k])[c] > 0 ==> c.node == k)
    && (s.app.isFinished && s.app.amContainer == Some(c) ==> c !in s.nodes[k].ams)
    && (c in s.nodes[k].running ==>
          || (c in s.app.maps.assignments && s.app.maps.assignments[c] == s.nodes[k].running[c])
          || (c in s.app.reduces.assignments && s.app.reduces.assignments[c] == s.nodes[k].running[c]))
  }

  ghost predicate AllAgree(s: Sys) {
    forall k, c | 0 <= k < |s.nodes| :: Agrees(s, k, c)
  }

  lemma StatusAgrees(s: Sys)
    requires Inv(s) && AllAgree(s) && s.inbox.statuses != []
    ensures AllAgree(HandleOneStatus(s))
  {
    var s', x := HandleOneStatus(s), s.inbox.statuses[0].container;
    InboxIsAssigned(s);
    forall k, c | 0 <= k < |s'.nodes| ensures Agrees(s', k, c) {
      assert Agrees(s, k, c);
      HeldByAtLeast(s.nodes, k, x);
    }
  }

  lemma CheckAgrees(s: Sys)
    requires Inv(s) && AllAgree(s)
    ensures AllAgree(HandleCheck(s))
  {
    hide Inv, AppOk, TokensOk, FreshOk, PlacedOk, NodesOk, AllConserved, HandleCheck, Agrees, App.AllDone;
    HeldOnce(s);
    SameNodes(s);
    forall k, c | 0 <= k < |s.nodes| {
      CheckAgreesAt(s, k, c);
    }
  }

  lemma SameNodes(s: Sys)
    ensures |HandleCheck(s).nodes| == |s.nodes|
  {
  }

  lemma HeldOnce(s: Sys)
    requires Inv(s)
    ensures s.app.amContainer.Some? && s.app.amContainer.value.node < |s.nodes|
    ensures var am := s.app.amContainer.value;
            && multiset(s.nodes[am.node].ams)[am] <= 1
            && (s.app.amRunning ==> am in s.nodes[am.node].ams)
  {
    var am := s.app.amContainer.value;
    HeldByAtLeast(s.nodes, am.node, am);
    assert Times(s.rm.granted, am) + Times(s.inbox.grants, am) + Assigned(s.app, am) <= 0;
  }

  lemma CheckAgreesAt(s: Sys, k: nat, c: ContainerId)
    requires k < |s.nodes| && Agrees(s, k, c) && s.app.amContainer.Some? && s.app.amContainer.value.node < |s.nodes|
    requires var am := s.app.amContainer.value;
             multiset(s.nodes[am.node].ams)[am] <= 1 && (s.app.amRunning ==> am in s.nodes[am.node].ams)
    ensures |HandleCheck(s).nodes| == |s.nodes| && Agrees(HandleCheck(s), k, c)
  {
    hide App.AllDone, Held;
    var am := s.app.amContainer.value;
    var n := s.nodes[am.node];
    AmIsHeld(s.nodes[k], am);
    if s.app.amRunning && s.app.AllDone() {
      GiveBackHeld(n, am);
      LastOne(n.ams, am);
    }
  }

  lemma AmIsHeld(n: Node, am: ContainerId)
    ensures am in n.ams ==> Held(n)[am] > 0
  {
  }

  lemma LastOne(ams: seq<ContainerId>, am: ContainerId)
    requires multiset(ams)[am] <= 1
    ensures am !in Without(ams, am)
  {
    WithoutCounts(ams, am);
    assert am in Without(ams, am) <==> am in multiset(Without(ams, am));
  }

  lemma GrantAgrees(s: Sys)
    requires Inv(s) && AllAgree(s) && s.inbox.grants != [] && s.inbox.grants[0].node < |s.nodes|
    ensures AllAgree(HandleOneGrant(s))
  {
    hide Inv, AppOk, TokensOk, PlacedOk, FreshOk, AllConserved, HandleOneGrant, Agrees;
    GrantFinds(s);
    forall k, x | 0 <= k < |s.nodes| { GrantAgreesAt(s, k, x); }
  }

  lemma GrantFinds(s: Sys)
    requires Inv(s) && s.inbox.grants != []
    ensures var c := s.inbox.grants[0];
            && NextScheduled(s.app) != [] && Assigned(s.app, c) == 0 && c.node < |s.nodes|
            && HeldBy(s.nodes, c) == 0 && |HandleOneGrant(s).nodes| == |s.nodes|
  {
    GrantFindsTask(s);
  }

  lemma GrantAgreesAt(s: Sys, k: nat, x: ContainerId)
    requires s.inbox.grants != [] && s.inbox.grants[0].node < |s.nodes| && NextScheduled(s.app) != []
    requires HeldBy(s.nodes, s.inbox.grants[0]) == 0 && Assigned(s.app, s.inbox.grants[0]) == 0
    requires k < |s.nodes| && |HandleOneGrant(s).nodes| == |s.nodes| && Agrees(s, k, x)
    ensures Agrees(HandleOneGrant(s), k, x)
  {
    var c := s.inbox.grants[0];
    HeldByAtLeast(s.nodes, k, c);
    if k == c.node {
      NotRunning(s.nodes[k], c);
      AddHeld(s.nodes[k], c, NextScheduled(s.app)[0]);
    }
  }

  lemma {:induction false} ReleaseOnlyRemoves(n: Node, cleanup: seq<ContainerId>, c: ContainerId)
    ensures var m := Release(n, cleanup); c in m.running ==> c in n.running && m.running[c] == n.running[c]
  {
    if cleanup != [] { ReleaseOnlyRemoves(n, cleanup[..|cleanup| - 1], c); }
  }

  lemma {:induction false} ExpireOnlyRemoves(n: Node, polled: seq<ContainerId>, c: ContainerId)
    ensures var m := Expire(n, polled); c in m.running ==> c in n.running && m.running[c] == n.running[c]
  {
    if polled != [] { ExpireOnlyRemoves(n, polled[..|polled| - 1], c); }
  }

  lemma BeatAgrees(s: Sys, k: nat, b: Beat)
    requires Inv(s) && AllAgree(s) && Enabled(s, Heartbeat(k, b))
    ensures AllAgree(DoHeartbeat(s, k, b))
  {
    hide Inv, AppOk, TokensOk, FreshOk, PlacedOk, AllConserved, Agrees, Legal, Held, BeatReports, AfterBeat,
         BeforeReport;
    forall j, c | 0 <= j < |s.nodes| ensures Agrees(DoHeartbeat(s, k, b), j, c) {
      assert Agrees(s, j, c);
      BeatAgreesAt(s, k, b, j, c);
    }
  }

  lemma BeatAgreesAt(s: Sys, k: nat, b: Beat, j: nat, c: ContainerId)
    requires Inv(s) && Enabled(s, Heartbeat(k, b)) && j < |s.nodes| && Agrees(s, j, c)
    ensures Agrees(DoHeartbeat(s, k, b), j, c)
  {
    hide AppOk, TokensOk, FreshOk, PlacedOk, AllConserved, Legal, Held, BeatReports;
    var n := s.nodes[k];
    BeatMoves(n, b, c);
    ExpireOnlyRemoves(StartWork(n, b.ready), b.polled, c);
    ReleaseOnlyRemoves(Reported(BeforeReport(n, b)), b.cleanup, c);
  }

  lemma StepAgrees(s: Sys, step: Step)
    requires Inv(s) && AllAgree(s) && Enabled(s, step)
    ensures AllAgree(Do(s, step))
  {
    match step
    case Handle =>
      if s.inbox.statuses != [] { StatusAgrees(s); }
      else if s.inbox.check { CheckAgrees(s); }
      else { GrantAgrees(s); }
    case Allocate => AllocateAgrees(s);
    case Grant(kind, node) =>
      forall k, c | 0 <= k < |s.nodes| ensures Agrees(Do(s, step), k, c) { assert Agrees(s, k, c); }
    case Heartbeat(k, b) => BeatAgrees(s, k, b);
  }

  lemma AllocateAgrees(s: Sys)
    requires Inv(s) && AllAgree(s) && Enabled(s, Allocate)
    ensures AllAgree(DoAllocate(s))
  {
    SendMoves(s.app);
    forall k, c | 0 <= k < |s.nodes| ensures Agrees(DoAllocate(s), k, c) { assert Agrees(s, k, c); }
  }

  lemma {:induction false} RunAgrees(s: Sys, steps: seq<Step>)
    requires Inv(s) && AllAgree(s) && Runs.Runs(s, steps)
    ensures AllAgree(End(s, steps))
    decreases |steps|
  {
    hide Inv, AllAgree, Do, Enabled;
    if steps != [] {
      assert Enabled(s, steps[0]);
      DoKeeps(s, steps[0]);
      StepAgrees(s, steps[0]);
      RunAgrees(Do(s, steps[0]), steps[1..]);
    }
  }

  lemma InitialAgrees(s: Sys, tasks: seq<Task>)
    requires Initial(s, tasks)
    ensures AllAgree(s)
  {
    forall k, c | 0 <= k < |s.nodes| ensures Agrees(s, k, c) {
      assert Held(EMPTY)[c] == 0;
      assert multiset(AddAm(EMPTY, s.app.amContainer.value).ams)[c] == if Some(c) == s.app.amContainer then 1 else 0;
    }
  }

  /** Once the application is finished, no node holds its container as running any more: its
      end is noted there, or has been reported. */
  lemma FinishedGivesBack(s: Sys, tasks: seq<Task>, steps: seq<Step>)
    requires Initial(s, tasks) && Runs.Runs(s, steps) && End(s, steps).app.isFinished
    ensures End(s, steps).app.amContainer.Some?
    ensures var t, am := End(s, steps), End(s, steps).app.amContainer.value;
            && am.node < |t.nodes| && (forall k | 0 <= k < |t.nodes| :: am !in t.nodes[k].ams)
            && multiset(t.nodes[am.node].completed)[am] + multiset(t.nodes[am.node].released)[am]
               + Named(t.rm.completed, am) == 1
  {
    hide *;
    InitialInv(s, tasks);
    InitialAgrees(s, tasks);
    RunKeeps(s, steps);
    RunAgrees(s, steps);
    AmIsGone(End(s, steps));
  }

  lemma AmIsGone(t: Sys)
    requires Inv(t) && AllAgree(t) && t.app.isFinished
    ensures t.app.amContainer.Some?
    ensures var am := t.app.amContainer.value;
            && am.node < |t.nodes| && (forall k | 0 <= k < |t.nodes| :: am !in t.nodes[k].ams)
            && multiset(t.nodes[am.node].completed)[am] + multiset(t.nodes[am.node].released)[am]
               + Named(t.rm.completed, am) == 1
  {
    var am := t.app.amContainer.value;
    forall k | 0 <= k < |t.nodes| ensures am !in t.nodes[k].ams && (k != am.node ==> Counts(t.nodes, am)[k] == 0) {
      assert Agrees(t, k, am);
    }
    SumOfOne(Counts(t.nodes, am), am.node);
    assert Times(t.rm.granted, am) + Times(t.inbox.grants, am) + Assigned(t.app, am) <= 0;
    assert Agrees(t, am.node, am);
    assert am !in t.nodes[am.node].running;
  }

  /** In every reachable state: a container that runs is on the node it was granted on, and
      runs the task the application has assigned to it; and a container the application
      counts on is held by that node alone, or its end is on the way. */
  lemma NodesRunAssigned(s: Sys, tasks: seq<Task>, steps: seq<Step>)
    requires Initial(s, tasks) && Runs.Runs(s, steps)
    ensures var t := End(s, steps); var (maps, reduces) := (t.app.maps.assignments, t.app.reduces.assignments);
            && (forall k, c | 0 <= k < |t.nodes| && c in t.nodes[k].running ::
                  && c.node == k
                  && ((c in maps && maps[c] == t.nodes[k].running[c])
                      || (c in reduces && reduces[c] == t.nodes[k].running[c])))
            && (forall c | c in maps || c in reduces ::
                  && c.node < |t.nodes|
                  && Held(t.nodes[c.node])[c] + Named(t.rm.completed, c) + Named(t.inbox.statuses, c) == 1)
  {
    hide *;
    InitialInv(s, tasks);
    InitialAgrees(s, tasks);
    RunKeeps(s, steps);
    RunAgrees(s, steps);
    RunningThere(End(s, steps));
    AssignedThere(End(s, steps));
  }

  lemma AssignedThere(t: Sys)
    requires Inv(t) && AllAgree(t)
    ensures forall c | c in t.app.maps.assignments || c in t.app.reduces.assignments ::
              && c.node < |t.nodes|
              && Held(t.nodes[c.node])[c] + Named(t.rm.completed, c) + Named(t.inbox.statuses, c) == 1
  {
    hide Inv, AllAgree, Held, Named;
    forall c | c in t.app.maps.assignments || c in t.app.reduces.assignments
      ensures c.node < |t.nodes|
      ensures Held(t.nodes[c.node])[c] + Named(t.rm.completed, c) + Named(t.inbox.statuses, c) == 1
    {
      HeldThere(t, c);
    }
  }

  lemma RunningThere(t: Sys)
    requires AllAgree(t)
    ensures forall k, c | 0 <= k < |t.nodes| && c in t.nodes[k].running ::
              && c.node == k
              && ((c in t.app.maps.assignments && t.app.maps.assignments[c] == t.nodes[k].running[c])
                  || (c in t.app.reduces.assignments && t.app.reduces.assignments[c] == t.nodes[k].running[c]))
  {
    forall k, c | 0 <= k < |t.nodes| && c in t.nodes[k].running ensures Agrees(t, k, c) && Held(t.nodes[k])[c] > 0 {}
  }

  lemma HeldThere(t: Sys, c: ContainerId)
    requires Inv(t) && AllAgree(t) && Assigned(t.app, c) > 0
    ensures c.node < |t.nodes|
    ensures Held(t.nodes[c.node])[c] + Named(t.rm.completed, c) + Named(t.inbox.statuses, c) == 1
  {
    assert Times(t.rm.granted, c) + Times(t.inbox.grants, c) + Assigned(t.app, c)
           <= if 0 < c.id < t.rm.next && c.node < |t.nodes| then 1 else 0;
    forall k | 0 <= k < |t.nodes| && k != c.node ensures Counts(t.nodes, c)[k] == 0 {
      assert Agrees(t, k, c);
    }
    SumOfOne(Counts(t.nodes, c), c.node);
  }

  lemma {:induction false} SumOfOne(counts: seq<nat>, k: nat)
    requires k < |counts| && forall j | 0 <= j < |counts| && j != k :: counts[j] == 0
    ensures Sum(counts) == counts[k]
  {
    SumUpdate(counts, k, 0);
    SumOfZeros(counts[k := 0]);
  }

  // ---- in which order tasks are launched -------------------------------------------------

  /** The task the application newly counts on after a step, seen from its assignments. */
  ghost function NewlyAssigned(s: Sys, step: Step, kind: Kind): seq<Task>
    requires Enabled(s, step)
  {
    var (before, after) := (TasksOf(s.app, kind).assignments, TasksOf(Do(s, step).app, kind).assignments);
    if s.inbox.grants != [] && s.inbox.grants[0] in after && s.inbox.grants[0] !in before
    then [after[s.inbox.grants[0]]] else []
  }

  function TasksOf(app: App, kind: Kind): Tasks {
    if kind.Maps? then app.maps else app.reduces
  }

  /** The tasks a step asks for. */
  function AskedFor(s: Sys, step: Step, kind: Kind): seq<Task> {
    if step.Allocate? && NextAsk(s.app).Containers? && NextAsk(s.app).kind == kind then NextAsk(s.app).tasks else []
  }

  ghost function LaunchOrder(s: Sys, steps: seq<Step>, kind: Kind): seq<Task>
    requires Runs.Runs(s, steps)
    decreases |steps|
  {
    if steps == [] then [] else NewlyAssigned(s, steps[0], kind) + LaunchOrder(Do(s, steps[0]), steps[1..], kind)
  }

  ghost function AskOrder(s: Sys, steps: seq<Step>, kind: Kind): seq<Task>
    requires Runs.Runs(s, steps)
    decreases |steps|
  {
    if steps == [] then [] else AskedFor(s, steps[0], kind) + AskOrder(Do(s, steps[0]), steps[1..], kind)
  }

  lemma StepInOrder(s: Sys, step: Step, kind: Kind)
    requires Inv(s) && Enabled(s, step)
    ensures NewlyAssigned(s, step, kind) + TasksOf(Do(s, step).app, kind).scheduled
            == TasksOf(s.app, kind).scheduled + AskedFor(s, step, kind)
  {
    hide Inv, Enabled, Do, AppOk, TokensOk, FreshOk, PlacedOk, NodesOk, AllConserved;
    if step.Handle? && s.inbox.statuses != [] {
      StatusOrder(s, kind);
    } else if step.Handle? && !s.inbox.check {
      GrantOrder(s, kind);
    } else {
      OtherOrder(s, step, kind);
    }
  }

  lemma StatusOrder(s: Sys, kind: Kind)
    requires Inv(s) && Enabled(s, Handle) && s.inbox.statuses != []
    ensures NewlyAssigned(s, Handle, kind) == []
    ensures TasksOf(Do(s, Handle).app, kind).scheduled == TasksOf(s.app, kind).scheduled
  {
    hide AppOk, TokensOk, AllConserved, NodesAfterCheck;
    InboxIsAssigned(s);
  }

  lemma GrantOrder(s: Sys, kind: Kind)
    requires Inv(s) && Enabled(s, Handle) && s.inbox.statuses == [] && !s.inbox.check
    ensures NewlyAssigned(s, Handle, kind) + TasksOf(Do(s, Handle).app, kind).scheduled
            == TasksOf(s.app, kind).scheduled
  {
    hide AppOk, TokensOk, FreshOk, PlacedOk, NodesOk, AllConserved, NodesAfterCheck, NodesAfterGrant;
    GrantFindsTask(s);
  }

  lemma AllocateOrder(t: Tasks)
    ensures Schedule(t).scheduled == t.scheduled + Wanted(t) && Schedule(t).assignments == t.assignments
    ensures t.scheduled + [] == t.scheduled
  {
  }

  lemma OtherOrder(s: Sys, step: Step, kind: Kind)
    requires Inv(s) && Enabled(s, step) && (step.Handle? ==> s.inbox.statuses == [] && s.inbox.check)
    ensures NewlyAssigned(s, step, kind) == []
    ensures TasksOf(Do(s, step).app, kind).scheduled == TasksOf(s.app, kind).scheduled + AskedFor(s, step, kind)
  {
    hide AppOk, TokensOk, FreshOk, PlacedOk, NodesOk, AllConserved, NodesAfterCheck, Legal;
    if step.Allocate? {
      AllocateOrder(TasksOf(s.app, kind));
    } else {
      assert TasksOf(s.app, kind).scheduled + [] == TasksOf(s.app, kind).scheduled;
    }
  }

  lemma Regroup(n: seq<Task>, l: seq<Task>, e: seq<Task>, m: seq<Task>, o: seq<Task>, b: seq<Task>, a: seq<Task>)
    requires n + m == b + a && l + e == m + o
    ensures (n + l) + e == b + (a + o)
  {
    assert (n + l) + e == n + (m + o) == (n + m) + o;
  }

  /** Tasks are launched in the order they were asked for, kind by kind, and those still
      waiting are the last ones. */
  lemma {:induction false} LaunchedInOrder(s: Sys, steps: seq<Step>, kind: Kind)
    requires Inv(s) && Runs.Runs(s, steps)
    ensures LaunchOrder(s, steps, kind) + TasksOf(End(s, steps).app, kind).scheduled
            == TasksOf(s.app, kind).scheduled + AskOrder(s, steps, kind)
    decreases |steps|
  {
    hide Inv, Do, Enabled, NewlyAssigned, AskedFor, TasksOf;
    if steps != [] {
      assert Enabled(s, steps[0]);
      DoKeeps(s, steps[0]);
      StepInOrder(s, steps[0], kind);
      var t := Do(s, steps[0]);
      LaunchedInOrder(t, steps[1..], kind);
      Regroup(NewlyAssigned(s, steps[0], kind), LaunchOrder(t, steps[1..], kind),
              TasksOf(End(s, steps).app, kind).scheduled,
              TasksOf(t.app, kind).scheduled, AskOrder(t, steps[1..], kind),
              TasksOf(s.app, kind).scheduled, AskedFor(s, steps[0], kind));
    }
  }

  // ---- in which order they are asked for --------------------------------------------------

  /** The task whose container a step learns to have been aborted. */
  function FailedIn(s: Sys, step: Step, kind: Kind): seq<Task> {
    var known := TasksOf(s.app, kind).assignments;
    if step.Handle? && s.inbox.statuses != [] && !s.inbox.statuses[0].success && s.inbox.statuses[0].container in known
    then [known[s.inbox.statuses[0].container]] else []
  }

  ghost function FailOrder(s: Sys, steps: seq<Step>, kind: Kind): seq<Task>
    requires Runs.Runs(s, steps)
    decreases |steps|
  {
    if steps == [] then [] else FailedIn(s, steps[0], kind) + FailOrder(Do(s, steps[0]), steps[1..], kind)
  }

  function ToAsk(t: Tasks): seq<Task> { t.pending + t.failed }

  lemma StepAsksInOrder(s: Sys, step: Step, kind: Kind)
    requires Inv(s) && Enabled(s, step)
    ensures AskedFor(s, step, kind) + ToAsk(TasksOf(Do(s, step).app, kind))
            == ToAsk(TasksOf(s.app, kind)) + FailedIn(s, step, kind)
  {
    hide Inv, Enabled, Do, AppOk, TokensOk, FreshOk, PlacedOk, NodesOk, AllConserved;
    if step.Handle? && s.inbox.statuses != [] {
      FailedLast(s, kind);
    } else {
      OthersKeep(s, step, kind);
    }
  }

  lemma FailedLast(s: Sys, kind: Kind)
    requires Inv(s) && Enabled(s, Handle) && s.inbox.statuses != []
    ensures AskedFor(s, Handle, kind) == []
    ensures ToAsk(TasksOf(Do(s, Handle).app, kind)) == ToAsk(TasksOf(s.app, kind)) + FailedIn(s, Handle, kind)
  {
    hide TokensOk, AllConserved, NodesAfterCheck;
    InboxIsAssigned(s);
    NotBoth(s, s.inbox.statuses[0].container);
    var t := TasksOf(s.app, kind);
    assert t.pending + (t.failed + FailedIn(s, Handle, kind)) == (t.pending + t.failed) + FailedIn(s, Handle, kind);
    assert ToAsk(t) + [] == ToAsk(t);
  }

  lemma NotBoth(s: Sys, c: ContainerId)
    requires FreshOk(s)
    ensures !(c in s.app.maps.assignments && c in s.app.reduces.assignments)
  {
    assert Times(s.rm.granted, c) + Times(s.inbox.grants, c) + Assigned(s.app, c)
           <= if 0 < c.id < s.rm.next && c.node < |s.nodes| then 1 else 0;
  }

  lemma OthersKeep(s: Sys, step: Step, kind: Kind)
    requires Inv(s) && Enabled(s, step) && (step.Handle? ==> s.inbox.statuses == [])
    ensures FailedIn(s, step, kind) == []
    ensures AskedFor(s, step, kind) + ToAsk(TasksOf(Do(s, step).app, kind)) == ToAsk(TasksOf(s.app, kind)) + []
  {
    hide TokensOk, FreshOk, PlacedOk, NodesOk, AllConserved, NodesAfterCheck, NodesAfterGrant, Legal;
    var t := TasksOf(s.app, kind);
    if step.Allocate? {
      AllAsked(t);
    } else {
      assert ToAsk(t) + [] == ToAsk(t) == [] + ToAsk(t);
    }
  }

  lemma AllAsked(t: Tasks)
    ensures t.pending != [] && t.failed == [] ==> Wanted(t) + ToAsk(Schedule(t)) == ToAsk(t) + []
    ensures t.pending == [] ==> Wanted(t) + ToAsk(Schedule(t)) == ToAsk(t) + []
    ensures ToAsk(t) + [] == ToAsk(t) == [] + ToAsk(t)
  {
  }

  /** Tasks are asked for in the order of the trace, and again in the order in which their
      containers are learnt to have been aborted; those not asked for yet are the last ones. */
  lemma {:induction false} AskedInOrder(s: Sys, steps: seq<Step>, kind: Kind)
    requires Inv(s) && Runs.Runs(s, steps)
    ensures AskOrder(s, steps, kind) + ToAsk(TasksOf(End(s, steps).app, kind))
            == ToAsk(TasksOf(s.app, kind)) + FailOrder(s, steps, kind)
    decreases |steps|
  {
    hide Inv, Do, Enabled, FailedIn, AskedFor, TasksOf, ToAsk;
    if steps != [] {
      assert Enabled(s, steps[0]);
      DoKeeps(s, steps[0]);
      StepAsksInOrder(s, steps[0], kind);
      var t := Do(s, steps[0]);
      AskedInOrder(t, steps[1..], kind);
      Regroup(AskedFor(s, steps[0], kind), AskOrder(t, steps[1..], kind), ToAsk(TasksOf(End(s, steps).app, kind)),
              ToAsk(TasksOf(t.app, kind)), FailOrder(t, steps[1..], kind),
              ToAsk(TasksOf(s.app, kind)), FailedIn(s, steps[0], kind));
    }
  }
}
