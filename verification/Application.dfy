/** The application master itself: lists, maps and counters changed in place. Handling a
    response takes exactly the cluster's handling steps, on its own state and on the node
    managers it calls. */
module Application {
  import opened Options
  import opened Sequences
  import opened MapReduce
  import opened NodeManager
  import opened Cluster
  import opened PackageRequests

  class MRAMSimulator {
    var pendingMaps: seq<Task>
    var pendingFailedMaps: seq<Task>
    var scheduledMaps: seq<Task>
    var assignedMaps: map<ContainerId, Task>
    var pendingReduces: seq<Task>
    var pendingFailedReduces: seq<Task>
    var scheduledReduces: seq<Task>
    var assignedReduces: map<ContainerId, Task>
    var allMaps: seq<Task>
    var allReduces: seq<Task>
    var mapFinished: nat
    var mapTotal: nat
    var reduceFinished: nat
    var reduceTotal: nat
    var finishedContainers: nat
    var totalContainers: nat
    var isAMContainerRunning: bool
    var amContainer: Option<ContainerId>
    var isFinished: bool
    var responseQueue: seq<Response>
    const nodes: seq<NMSimulator>
    ghost var doneMaps: seq<Task>
    ghost var doneReduces: seq<Task>

    ghost function MapTasks(): Tasks
      reads `pendingMaps, `pendingFailedMaps, `scheduledMaps, `assignedMaps, `doneMaps, `mapFinished, `mapTotal
    {
      Tasks(pendingMaps, pendingFailedMaps, scheduledMaps, assignedMaps, doneMaps, mapFinished, mapTotal)
    }

    ghost function ReduceTasks(): Tasks
      reads `pendingReduces, `pendingFailedReduces, `scheduledReduces, `assignedReduces, `doneReduces,
            `reduceFinished, `reduceTotal
    {
      Tasks(pendingReduces, pendingFailedReduces, scheduledReduces, assignedReduces, doneReduces,
            reduceFinished, reduceTotal)
    }

    ghost function State(): App
      reads `pendingMaps, `pendingFailedMaps, `scheduledMaps, `assignedMaps, `doneMaps, `mapFinished, `mapTotal
      reads `pendingReduces, `pendingFailedReduces, `scheduledReduces, `assignedReduces, `doneReduces,
            `reduceFinished, `reduceTotal
      reads `finishedContainers, `totalContainers, `allMaps, `allReduces, `amContainer, `isAMContainerRunning,
            `isFinished
    {
      App(MapTasks(), ReduceTasks(), finishedContainers, totalContainers, allMaps, allReduces,
          amContainer, isAMContainerRunning, isFinished)
    }

    ghost function NodeStates(): seq<Node>
      reads nodes
    {
      seq(|nodes|, i requires 0 <= i < |nodes| reads nodes => nodes[i].State())
    }

    /** The cluster as the application master sees it, with this much of a response left. */
    ghost function Now(inbox: Inbox): Sys
      reads this, nodes
    {
      Sys(State(), inbox, NO_MANAGER, NodeStates())
    }

    ghost predicate Valid()
      reads `isAMContainerRunning, `amContainer
    {
      && Distinct(nodes)
      && (isAMContainerRunning ==> amContainer.Some? && amContainer.value.node < |nodes|)
    }

    constructor (containerList: seq<Task>, nodes: seq<NMSimulator>)
      requires Distinct(nodes)
      ensures Valid() && State() == Init(containerList) && this.nodes == nodes && responseQueue == []
    {
      var maps, reduces := [], [];
      for i := 0 to |containerList|
        invariant maps == OfKind(containerList[..i], "map") && reduces == OfKind(containerList[..i], "reduce")
      {
        assert containerList[..i + 1][..i] == containerList[..i];
        if containerList[i].kind == "map" {
          maps := maps + [containerList[i]];
        } else if containerList[i].kind == "reduce" {
          reduces := reduces + [containerList[i]];
        }
      }
      assert containerList[..|containerList|] == containerList;
      this.nodes := nodes;
      pendingMaps, allMaps, mapTotal := maps, maps, |maps|;
      pendingReduces, allReduces, reduceTotal := reduces, reduces, |reduces|;
      totalContainers := |maps| + |reduces|;
      pendingFailedMaps, scheduledMaps, assignedMaps, mapFinished, doneMaps := [], [], map[], 0, [];
      pendingFailedReduces, scheduledReduces, assignedReduces, reduceFinished, doneReduces := [], [], map[], 0, [];
      finishedContainers, isAMContainerRunning, amContainer, isFinished, responseQueue := 0, false, None, false, [];
    }

    /** The container for the application master has come. */
    method StartAM(container: ContainerId)
      requires Valid() && container.node < |nodes|
      modifies this, nodes
      ensures Valid() && State() == old(Started(State(), container)) && responseQueue == old(responseQueue)
      ensures NodeStates() == old(NodeStates()[container.node := AddAm(NodeStates()[container.node], container)])
    {
      nodes[container.node].AddNewContainer(container, None);
      amContainer, isAMContainerRunning := Some(container), true;
    }

    /** All responses in turn. Where restart() waits for a new AM container, this ends with
        what is left of the response. */
    method ProcessResponseQueue() returns (left: Inbox)
      requires Valid() && amContainer.Some? && forall r | r in responseQueue :: Deliverable(|nodes|, r)
      modifies this, nodes
      ensures Valid() && (amContainer.Some? ==> responseQueue == [] && left == NO_MAIL)
      ensures Now(left) == HandledAll(old(Now(NO_MAIL)), old(responseQueue))
    {
      ghost var start, rs := Now(NO_MAIL), responseQueue;
      left := NO_MAIL;
      while responseQueue != []
        invariant Valid() && |NodeStates()| == |start.nodes|
        invariant forall r | r in responseQueue :: Deliverable(|nodes|, r)
        invariant amContainer.Some? && left == NO_MAIL
        invariant HandledAll(Now(NO_MAIL), responseQueue) == HandledAll(start, rs)
      {
        var response := responseQueue[0];
        responseQueue := responseQueue[1..];
        left := ProcessResponse(response);
        if amContainer.None? { return; }
      }
    }

    method ProcessResponse(response: Response) returns (left: Inbox)
      requires Valid() && amContainer.Some? && Deliverable(|nodes|, response)
      modifies this, nodes
      ensures Valid() && responseQueue == old(responseQueue)
      ensures Now(left) == Handled(old(Now(NO_MAIL)), response) && (amContainer.Some? ==> left == NO_MAIL)
    {
      ghost var end := Handled(Now(NO_MAIL), response);
      for i := 0 to |response.completed|
        invariant Valid() && amContainer.Some? && responseQueue == old(responseQueue)
        invariant Drained(Now(Inbox(response.completed[i..], true, response.granted))) == end
      {
        ProcessStatus(response.completed[i]);
        assert response.completed[i..][1..] == response.completed[i + 1..];
        if amContainer.None? {
          left := Inbox(response.completed[i + 1..], true, response.granted);
          return;
        }
      }
      CheckFinished();
      LaunchAll(response.granted);
      left := NO_MAIL;
    }

    method LaunchAll(granted: seq<ContainerId>)
      requires Valid() && amContainer.Some? && forall c | c in granted :: c.node < |nodes|
      modifies this, nodes
      ensures Valid() && amContainer.Some? && responseQueue == old(responseQueue)
      ensures Now(NO_MAIL) == Drained(old(Now(Inbox([], false, granted))))
    {
      ghost var end := Drained(Now(Inbox([], false, granted)));
      for i := 0 to |granted|
        invariant Valid() && amContainer.Some? && responseQueue == old(responseQueue)
        invariant Drained(Now(Inbox([], false, granted[i..]))) == end
      {
        Launch(granted[i]);
        assert granted[i..][1..] == granted[i + 1..];
      }
    }

    method ProcessStatus(status: Status)
      requires Valid()
      modifies this
      ensures Valid() && responseQueue == old(responseQueue)
      ensures State() == old(HandleStatus(State(), status))
    {
      if status.success {
        ProcessSuccess(status.container);
      } else {
        ProcessFailure(status.container);
      }
    }

    lemma Known()
      ensures State().maps == MapTasks() && State().reduces == ReduceTasks()
      ensures MapTasks().assignments == assignedMaps && ReduceTasks().assignments == assignedReduces
      ensures MapTasks().finished == mapFinished && ReduceTasks().finished == reduceFinished
      ensures MapTasks().total == mapTotal && ReduceTasks().total == reduceTotal
    {
    }

    method ProcessSuccess(containerId: ContainerId)
      modifies `doneMaps, `assignedMaps, `mapFinished, `doneReduces, `assignedReduces, `reduceFinished,
               `finishedContainers, `isFinished
      ensures isFinished <==> old(isFinished || (containerId !in assignedMaps && containerId !in assignedReduces))
      ensures State() == old(HandleStatus(State(), Status(containerId, true)))
    {
      hide Succeed, MapTasks, ReduceTasks;
      Known();
      if containerId in assignedMaps {
        FinishMap(containerId);
      } else if containerId in assignedReduces {
        FinishReduce(containerId);
      } else {
        isFinished := true;
      }
    }

    method ProcessFailure(containerId: ContainerId)
      modifies `assignedMaps, `assignedReduces, `finishedContainers, `isFinished, `isAMContainerRunning, `amContainer,
               `mapFinished, `pendingFailedMaps, `pendingMaps, `doneMaps,
               `reduceFinished, `pendingFailedReduces, `pendingReduces, `doneReduces
      ensures isAMContainerRunning ==> old(isAMContainerRunning) && amContainer == old(amContainer)
      ensures old(containerId !in assignedMaps && containerId !in assignedReduces) ==>
                !isAMContainerRunning && amContainer == None
      ensures State() == old(HandleStatus(State(), Status(containerId, false)))
    {
      hide Fail, Restart, MapTasks, ReduceTasks;
      Known();
      if containerId in assignedMaps {
        FailMap(containerId);
      } else if containerId in assignedReduces {
        FailReduce(containerId);
      } else {
        ClearForRestart();
      }
    }

    method FinishMap(containerId: ContainerId)
      requires containerId in assignedMaps
      modifies `doneMaps, `assignedMaps, `mapFinished, `finishedContainers
      ensures MapTasks() == old(Succeed(MapTasks(), containerId)) && finishedContainers == old(finishedContainers) + 1
    {
      doneMaps := doneMaps + [assignedMaps[containerId]];
      assignedMaps := assignedMaps - {containerId};
      mapFinished := mapFinished + 1;
      finishedContainers := finishedContainers + 1;
    }

    method FinishReduce(containerId: ContainerId)
      requires containerId in assignedReduces
      modifies `doneReduces, `assignedReduces, `reduceFinished, `finishedContainers
      ensures ReduceTasks() == old(Succeed(ReduceTasks(), containerId))
      ensures finishedContainers == old(finishedContainers) + 1
    {
      doneReduces := doneReduces + [assignedReduces[containerId]];
      assignedReduces := assignedReduces - {containerId};
      reduceFinished := reduceFinished + 1;
      finishedContainers := finishedContainers + 1;
    }

    method FailMap(containerId: ContainerId)
      requires containerId in assignedMaps
      modifies `pendingFailedMaps, `assignedMaps
      ensures MapTasks() == old(Fail(MapTasks(), containerId))
    {
      pendingFailedMaps := pendingFailedMaps + [assignedMaps[containerId]];
      assignedMaps := assignedMaps - {containerId};
    }

    method FailReduce(containerId: ContainerId)
      requires containerId in assignedReduces
      modifies `pendingFailedReduces, `assignedReduces
      ensures ReduceTasks() == old(Fail(ReduceTasks(), containerId))
    {
      pendingFailedReduces := pendingFailedReduces + [assignedReduces[containerId]];
      assignedReduces := assignedReduces - {containerId};
    }

    /** The first part of restart(). */
    method ClearForRestart()
      modifies `finishedContainers, `isFinished, `isAMContainerRunning, `amContainer,
               `mapFinished, `pendingFailedMaps, `pendingMaps, `doneMaps,
               `reduceFinished, `pendingFailedReduces, `pendingReduces, `doneReduces
      ensures State() == old(Restart(State()))
      ensures !isAMContainerRunning && !isFinished && amContainer == None
      ensures mapFinished == reduceFinished == finishedContainers == 0
      ensures pendingMaps == allMaps && pendingReduces == pendingFailedMaps == pendingFailedReduces == []
    {
      ClearMaps();
      ClearReduces();
      finishedContainers, isFinished, isAMContainerRunning, amContainer := 0, false, false, None;
    }

    method ClearMaps()
      modifies `mapFinished, `pendingFailedMaps, `pendingMaps, `doneMaps
      ensures mapFinished == 0 && pendingMaps == allMaps && pendingFailedMaps == []
      ensures MapTasks() == old(MapTasks()).(pending := allMaps, failed := [], finished := 0, finishedTasks := [])
    {
      mapFinished, pendingFailedMaps, pendingMaps, doneMaps := 0, [], [], [];
      pendingMaps := pendingMaps + allMaps;
      assert pendingMaps == allMaps;
    }

    /** `pendingReduces` is added to itself when it is empty. */
    method ClearReduces()
      modifies `reduceFinished, `pendingFailedReduces, `pendingReduces, `doneReduces
      ensures reduceFinished == 0 && pendingReduces == [] && pendingFailedReduces == []
      ensures ReduceTasks() == old(ReduceTasks()).(pending := [], failed := [], finished := 0, finishedTasks := [])
    {
      reduceFinished, pendingFailedReduces, pendingReduces, doneReduces := 0, [], [], [];
      pendingReduces := pendingReduces + pendingReduces;
      assert pendingReduces == [];
    }

    method CheckFinished()
      requires Valid()
      modifies this, nodes
      ensures Valid() && responseQueue == old(responseQueue)
      ensures State() == old(MapReduce.CheckFinished(State()))
      ensures NodeStates() == old(NodesAfterCheck(State(), NodeStates()))
    {
      hide MapTasks, ReduceTasks, GiveBack;
      Known();
      if isAMContainerRunning && mapFinished == mapTotal && reduceFinished == reduceTotal {
        nodes[amContainer.value.node].CleanupContainer(amContainer.value);
        isAMContainerRunning := false;
        isFinished := true;
      }
    }

    method Launch(container: ContainerId)
      requires Valid() && container.node < |nodes|
      modifies this, nodes
      ensures Valid() && responseQueue == old(responseQueue)
      ensures State() == old(HandleGrant(State(), container))
      ensures NodeStates() == old(NodesAfterGrant(State(), NodeStates(), container))
    {
      var cs := NextTask(container);
      if cs.Some? { nodes[container.node].AddNewContainer(container, cs); }
    }

    method NextTask(container: ContainerId) returns (cs: Option<Task>)
      modifies `scheduledMaps, `assignedMaps, `scheduledReduces, `assignedReduces
      ensures State() == old(HandleGrant(State(), container))
      ensures cs == old(if NextScheduled(State()) == [] then None else Some(NextScheduled(State())[0]))
    {
      if scheduledMaps != [] {
        cs := Some(scheduledMaps[0]);
        scheduledMaps := scheduledMaps[1..];
        assignedMaps := assignedMaps[container := cs.value];
      } else if scheduledReduces != [] {
        cs := Some(scheduledReduces[0]);
        scheduledReduces := scheduledReduces[1..];
        assignedReduces := assignedReduces[container := cs.value];
      } else {
        cs := None;
      }
    }

    /** What is sent: nothing once finished, else requests for the tasks of the next ask. */
    method SendContainerRequest() returns (sent: bool, ask: seq<Request>)
      modifies `pendingMaps, `pendingFailedMaps, `scheduledMaps,
               `pendingReduces, `pendingFailedReduces, `scheduledReduces
      ensures State() == old(MapReduce.Send(State()))
      ensures sent <==> !old(isFinished)
      ensures Asks(old(State()), ask)
    {
      hide MapTasks, ReduceTasks, IsPackage;
      Known();
      sent, ask := false, [];
      if isFinished { return; }
      if isAMContainerRunning {
        if mapFinished != mapTotal {
          ask := AskForMaps();
        } else if reduceFinished != reduceTotal {
          ask := AskForReduces();
        }
      }
      sent := true;
    }

    method AskForMaps() returns (ask: seq<Request>)
      modifies `pendingMaps, `pendingFailedMaps, `scheduledMaps
      ensures MapTasks() == old(Schedule(MapTasks()))
      ensures var tasks := old(Wanted(MapTasks()));
              if tasks == [] then ask == [] else IsPackage(ask, tasks, PRIORITY_MAP)
    {
      ask := [];
      if pendingMaps != [] {
        ask := Package(pendingMaps, PRIORITY_MAP);
        scheduledMaps, pendingMaps := scheduledMaps + pendingMaps, [];
      } else if pendingFailedMaps != [] && scheduledMaps == [] {
        ask := Package(pendingFailedMaps, PRIORITY_MAP);
        scheduledMaps, pendingFailedMaps := scheduledMaps + pendingFailedMaps, [];
      }
    }

    method AskForReduces() returns (ask: seq<Request>)
      modifies `pendingReduces, `pendingFailedReduces, `scheduledReduces
      ensures ReduceTasks() == old(Schedule(ReduceTasks()))
      ensures var tasks := old(Wanted(ReduceTasks()));
              if tasks == [] then ask == [] else IsPackage(ask, tasks, PRIORITY_REDUCE)
    {
      ask := [];
      if pendingReduces != [] {
        ask := Package(pendingReduces, PRIORITY_REDUCE);
        scheduledReduces, pendingReduces := scheduledReduces + pendingReduces, [];
      } else if pendingFailedReduces != [] && scheduledReduces == [] {
        ask := Package(pendingFailedReduces, PRIORITY_REDUCE);
        scheduledReduces, pendingFailedReduces := scheduledReduces + pendingFailedReduces, [];
      }
    }
  }

  /** These are the requests for the tasks of the next ask. */
  ghost predicate Asks(app: App, ask: seq<Request>) {
    match NextAsk(app)
    case Nothing => ask == []
    case Containers(kind, tasks) => IsPackage(ask, tasks, if kind.Maps? then 20 else 10)
  }

  const NO_MANAGER := Manager(0, 0, [], [], 0)

  const NO_MAIL := Inbox([], false, [])

  ghost predicate Deliverable(n: nat, r: Response) {
    forall c | c in r.granted :: c.node < n
  }

  /** One response, by the cluster's own steps. */
  ghost function Handled(s: Sys, r: Response): (t: Sys)
    requires Deliverable(|s.nodes|, r)
    ensures |t.nodes| == |s.nodes|
  {
    var s' := s.(inbox := Inbox(r.completed, true, r.granted));
    assert GrantsKnown(s');
    DrainedNodes(s');
    Drained(s')
  }

  ghost function HandledAll(s: Sys, rs: seq<Response>): Sys
    requires forall r | r in rs :: Deliverable(|s.nodes|, r)
    decreases |rs|
  {
    if rs == [] || s.app.amContainer.None? then s else HandledAll(Handled(s, rs[0]), rs[1..])
  }

  lemma {:induction false} DrainedNodes(s: Sys)
    requires GrantsKnown(s)
    ensures var t := Drained(s);
            |t.nodes| == |s.nodes| && (t.app.amContainer.Some? ==> t.inbox == NO_MAIL)
    decreases Size(s.inbox)
  {
    if !s.inbox.Empty() && s.app.amContainer.Some? { DrainedNodes(Do(s, Handle)); }
  }
}
