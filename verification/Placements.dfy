/** Where the tasks of a run have been put: a reduce that starts finds every map placed. */
module Placements {
  import opened Options
  import opened MapReduce
  import opened Cluster
  import opened Runs
  import ContainerSimulator

  /** The container each task was last given. */
  type Places = map<Task, ContainerId>

  /** A step that launches gives the next waiting task the first granted container. */
  predicate Launches(s: Sys, step: Step) {
    step.Handle? && s.inbox.statuses == [] && !s.inbox.check && s.inbox.grants != [] && NextScheduled(s.app) != []
  }

  function Placed(s: Sys, step: Step, places: Places): Places {
    if Launches(s, step) then places[NextScheduled(s.app)[0] := s.inbox.grants[0]] else places
  }

  ghost function PlacedBy(s: Sys, steps: seq<Step>, places: Places): Places
    requires Runs.Runs(s, steps)
    decreases |steps|
  {
    if steps == [] then places else PlacedBy(Do(s, steps[0]), steps[1..], Placed(s, steps[0], places))
  }

  /** Each task that has a container, or has had one to its end, has a place. */
  predicate AllHavePlaces(t: Tasks, places: Places) {
    && (forall c | c in t.assignments :: t.assignments[c] in places)
    && (forall x | x in t.finishedTasks :: x in places)
  }

  lemma StepPlaces(s: Sys, step: Step, places: Places)
    requires Inv(s) && Enabled(s, step) && AllHavePlaces(s.app.maps, places)
    ensures AllHavePlaces(Do(s, step).app.maps, Placed(s, step, places))
  {
    match step
    case Handle =>
      if s.inbox.statuses != [] {
        StatusPlaces(s.app, s.inbox.statuses[0], places);
        InboxIsAssigned(s);
      } else if !s.inbox.check {
        LaunchPlaces(s.app, s.inbox.grants[0], places);
      }
    case Allocate =>
    case Grant(_, _) =>
    case Heartbeat(_, _) =>
  }

  lemma StatusPlaces(app: App, st: Status, places: Places)
    requires AllHavePlaces(app.maps, places)
    ensures Assigned(app, st.container) > 0 ==> AllHavePlaces(HandleStatus(app, st).maps, places)
  {
  }

  lemma LaunchPlaces(app: App, c: ContainerId, places: Places)
    requires AllHavePlaces(app.maps, places)
    ensures AllHavePlaces(HandleGrant(app, c).maps,
              if NextScheduled(app) != [] then places[NextScheduled(app)[0] := c] else places)
  {
  }

  lemma {:induction false} RunPlaces(s: Sys, steps: seq<Step>, places: Places)
    requires Inv(s) && Runs.Runs(s, steps) && AllHavePlaces(s.app.maps, places)
    ensures AllHavePlaces(End(s, steps).app.maps, PlacedBy(s, steps, places))
    decreases |steps|
  {
    if steps != [] {
      DoKeeps(s, steps[0]);
      StepPlaces(s, steps[0], places);
      RunPlaces(Do(s, steps[0]), steps[1..], Placed(s, steps[0], places));
    }
  }

  /** The hosts of the maps' containers, as a reduce looks for them. */
  function MapHosts(maps: seq<Task>, places: Places, hostOf: nat -> string): seq<Option<string>> {
    seq(|maps|, k requires 0 <= k < |maps| => if maps[k] in places then Some(hostOf(places[maps[k]].node)) else None)
  }

  /** Whenever a reduce waits for a container or has one, every map has had its own: fetching
      cannot fail for want of one. */
  lemma ReducesFindMaps(s: Sys, tasks: seq<Task>, steps: seq<Step>, hostOf: nat -> string)
    requires Initial(s, tasks) && Runs.Runs(s, steps) && !Untouched(End(s, steps).app.reduces)
    ensures ContainerSimulator.AllPlaced(MapHosts(End(s, steps).app.allMaps, PlacedBy(s, steps, map[]), hostOf))
  {
    var app, places := End(s, steps).app, PlacedBy(s, steps, map[]);
    InitialInv(s, tasks);
    RunPlaces(s, steps, map[]);
    RunKeeps(s, steps);
    ReducesWaitForMaps(s, tasks, steps);
    assert Conserved(app.maps, app.allMaps);
    hide *;
    FinishedHavePlaces(app.maps, app.allMaps, places);
    PlacedHaveHosts(app.allMaps, places, hostOf);
  }

  lemma FinishedHavePlaces(t: Tasks, all: seq<Task>, places: Places)
    requires Conserved(t, all) && t.Idle() && AllHavePlaces(t, places)
    ensures forall x | x in all :: x in places
  {
    IdleIsFinished(t, all);
    forall x | x in all ensures x in places {
      assert x in multiset(all);
      assert x in t.finishedTasks;
    }
  }

  lemma PlacedHaveHosts(all: seq<Task>, places: Places, hostOf: nat -> string)
    requires forall x | x in all :: x in places
    ensures ContainerSimulator.AllPlaced(MapHosts(all, places, hostOf))
  {
    assert forall k | 0 <= k < |all| :: all[k] in all;
  }
}
