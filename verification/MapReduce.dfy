/** The application master's bookkeeping, as a value: where every task is, and how each
    message moves it. `Application` is the same in place, method by method. */
module MapReduce {
  import opened Options

  datatype Task = Task(id: nat, kind: string, rack: string, host: string)

  /** A container id, with the node it was granted on. */
  datatype ContainerId = ContainerId(id: nat, node: nat)

  datatype Status = Status(container: ContainerId, success: bool)

  datatype Response = Response(completed: seq<Status>, granted: seq<ContainerId>)

  datatype Kind = Maps | Reduces

  /** The tasks of one kind. `finishedTasks` is history: the program only counts. */
  datatype Tasks = Tasks(
    pending: seq<Task>,
    failed: seq<Task>,
    scheduled: seq<Task>,
    assignments: map<ContainerId, Task>,
    finishedTasks: seq<Task>,
    finished: nat,
    total: nat)
  {
    predicate Idle() { pending == [] && failed == [] && scheduled == [] && assignments == map[] }
  }

  datatype App = App(
    maps: Tasks,
    reduces: Tasks,
    finishedContainers: nat,
    totalContainers: nat,
    allMaps: seq<Task>,
    allReduces: seq<Task>,
    amContainer: Option<ContainerId>,
    amRunning: bool,
    isFinished: bool)
  {
    predicate AllDone() { maps.finished == maps.total && reduces.finished == reduces.total }
  }

  function OfKind(tasks: seq<Task>, kind: string): seq<Task> {
    if tasks == [] then []
    else OfKind(tasks[..|tasks| - 1], kind) +
         if tasks[|tasks| - 1].kind == kind then [tasks[|tasks| - 1]] else []
  }

  /** Each task of the kind as often as it is there, and no other. */
  lemma {:induction false} OfKindCounts(tasks: seq<Task>, kind: string, t: Task)
    ensures multiset(OfKind(tasks, kind))[t] == if t.kind == kind then multiset(tasks)[t] else 0
  {
    if tasks != [] {
      OfKindCounts(tasks[..|tasks| - 1], kind, t);
      assert tasks == tasks[..|tasks| - 1] + [tasks[|tasks| - 1]];
    }
  }

  /** In the order of the list. */
  lemma {:induction false} OfKindInOrder(a: seq<Task>, b: seq<Task>, kind: string)
    ensures OfKind(a + b, kind) == OfKind(a, kind) + OfKind(b, kind)
  {
    if b == [] {
      assert a + b == a;
    } else {
      OfKindInOrder(a, b[..|b| - 1], kind);
      assert (a + b)[..|a + b| - 1] == a + b[..|b| - 1];
    }
  }

  /** Nothing of a list but its maps and its reduces is taken; together they are as many. */
  lemma {:induction false} KindsAddUp(tasks: seq<Task>)
    requires forall t | t in tasks :: t.kind == "map" || t.kind == "reduce"
    ensures |OfKind(tasks, "map")| + |OfKind(tasks, "reduce")| == |tasks|
  {
    if tasks != [] {
      assert tasks[|tasks| - 1] in tasks;
      KindsAddUp(tasks[..|tasks| - 1]);
    }
  }

  function NewTasks(tasks: seq<Task>): Tasks {
    Tasks(tasks, [], [], map[], [], 0, |tasks|)
  }

  /** After init, before the AM container is there. */
  function Init(tasks: seq<Task>): App {
    var maps, reduces := OfKind(tasks, "map"), OfKind(tasks, "reduce");
    App(NewTasks(maps), NewTasks(reduces), 0, |maps| + |reduces|, maps, reduces, None, false, false)
  }

  function Started(app: App, am: ContainerId): App {
    app.(amContainer := Some(am), amRunning := true)
  }

  // ---- handling a response ----------------------------------------------------------

  function Succeed(t: Tasks, c: ContainerId): Tasks
    requires c in t.assignments
  {
    t.(assignments := t.assignments - {c}, finishedTasks := t.finishedTasks + [t.assignments[c]],
       finished := t.finished + 1)
  }

  function Fail(t: Tasks, c: ContainerId): Tasks
    requires c in t.assignments
  {
    t.(assignments := t.assignments - {c}, failed := t.failed + [t.assignments[c]])
  }

  function Launch(t: Tasks, c: ContainerId): Tasks
    requires t.scheduled != []
  {
    t.(scheduled := t.scheduled[1..], assignments := t.assignments[c := t.scheduled[0]])
  }

  /** Completed container: a known id ends its task, an unknown one is the AM's own. */
  function HandleStatus(app: App, s: Status): App {
    var c := s.container;
    if s.success then
      if c in app.maps.assignments then
        app.(maps := Succeed(app.maps, c), finishedContainers := app.finishedContainers + 1)
      else if c in app.reduces.assignments then
        app.(reduces := Succeed(app.reduces, c), finishedContainers := app.finishedContainers + 1)
      else app.(isFinished := true)
    else
      if c in app.maps.assignments then app.(maps := Fail(app.maps, c))
      else if c in app.reduces.assignments then app.(reduces := Fail(app.reduces, c))
      else Restart(app)
  }

  /** What restart() does before it asks for a new AM container. */
  function Restart(app: App): App {
    App(
      app.maps.(pending := app.allMaps, failed := [], finished := 0, finishedTasks := []),
      app.reduces.(pending := [], failed := [], finished := 0, finishedTasks := []),
      0, app.totalContainers, app.allMaps, app.allReduces, None, false, false)
  }

  function CheckFinished(app: App): App {
    if app.amRunning && app.AllDone() then app.(amRunning := false, isFinished := true) else app
  }

  function HandleGrant(app: App, c: ContainerId): App {
    if app.maps.scheduled != [] then app.(maps := Launch(app.maps, c))
    else if app.reduces.scheduled != [] then app.(reduces := Launch(app.reduces, c))
    else app
  }

  // ---- asking ------------------------------------------------------------------------

  datatype Ask = Nothing | Containers(kind: Kind, tasks: seq<Task>)

  function Schedule(t: Tasks): Tasks {
    if t.pending != [] then t.(scheduled := t.scheduled + t.pending, pending := [])
    else if t.failed != [] && t.scheduled == [] then t.(scheduled := t.scheduled + t.failed, failed := [])
    else t
  }

  function Wanted(t: Tasks): seq<Task> {
    if t.pending != [] then t.pending else if t.scheduled == [] then t.failed else []
  }

  function AskOf(kind: Kind, t: Tasks): Ask {
    if Wanted(t) == [] then Nothing else Containers(kind, Wanted(t))
  }

  /** What the next request asks for. */
  function NextAsk(app: App): Ask {
    if app.isFinished || !app.amRunning then Nothing
    else if app.maps.finished != app.maps.total then AskOf(Maps, app.maps)
    else if app.reduces.finished != app.reduces.total then AskOf(Reduces, app.reduces)
    else Nothing
  }

  function Send(app: App): App {
    match NextAsk(app)
    case Nothing => app
    case Containers(Maps, _) => app.(maps := Schedule(app.maps))
    case Containers(Reduces, _) => app.(reduces := Schedule(app.reduces))
  }

  // ---- conservation -------------------------------------------------------------------

  /** The values of a map, counted. */
  ghost function Values(m: map<ContainerId, Task>): multiset<Task>
    decreases m.Keys
  {
    if m == map[] then multiset{}
    else Values(m - {Pick(m)}) + multiset{m[Pick(m)]}
  }

  ghost function Pick(m: map<ContainerId, Task>): (c: ContainerId)
    requires m != map[]
    ensures c in m
  {
    assert m.Keys != {};
    var c :| c in m.Keys;
    c
  }

  lemma RemovalsCommute(m: map<ContainerId, Task>, c: ContainerId, d: ContainerId)
    ensures m - {c} - {d} == m - {d} - {c}
  {
  }

  lemma {:induction false} ValuesWithout(m: map<ContainerId, Task>, c: ContainerId)
    requires c in m
    ensures Values(m) == Values(m - {c}) + multiset{m[c]}
    decreases m.Keys
  {
    var d := Pick(m);
    if d != c {
      RemovalsCommute(m, c, d);
      ValuesWithout(m - {d}, c);
      ValuesWithout(m - {c}, d);
    }
  }

  lemma ValuesWith(m: map<ContainerId, Task>, c: ContainerId, t: Task)
    requires c !in m
    ensures Values(m[c := t]) == Values(m) + multiset{t}
  {
    ValuesWithout(m[c := t], c);
    assert m[c := t] - {c} == m;
  }

  /** Every task of this kind, wherever it is. */
  ghost function Everywhere(t: Tasks): multiset<Task> {
    multiset(t.pending) + multiset(t.failed) + multiset(t.scheduled) + Values(t.assignments) + multiset(t.finishedTasks)
  }

  lemma SucceedKeeps(t: Tasks, c: ContainerId)
    requires c in t.assignments
    ensures Everywhere(Succeed(t, c)) == Everywhere(t)
  {
    ValuesWithout(t.assignments, c);
  }

  lemma FailKeeps(t: Tasks, c: ContainerId)
    requires c in t.assignments
    ensures Everywhere(Fail(t, c)) == Everywhere(t)
  {
    ValuesWithout(t.assignments, c);
  }

  lemma LaunchKeeps(t: Tasks, c: ContainerId)
    requires t.scheduled != [] && c !in t.assignments
    ensures Everywhere(Launch(t, c)) == Everywhere(t)
  {
    ValuesWith(t.assignments, c, t.scheduled[0]);
    assert t.scheduled == [t.scheduled[0]] + t.scheduled[1..];
  }

  lemma ScheduleKeeps(t: Tasks)
    ensures Everywhere(Schedule(t)) == Everywhere(t)
  {
  }

  /** A restart forgets and repeats: the maps are conserved only if none was scheduled or
      assigned, the reduces only if all were. */
  lemma RestartConserves(app: App)
    requires Everywhere(app.maps) == multiset(app.allMaps)
    ensures Everywhere(Restart(app).maps) == Everywhere(app.maps) <==>
            app.maps.scheduled == [] && app.maps.assignments == map[]
    ensures Everywhere(Restart(app).reduces) == Everywhere(app.reduces) <==>
            app.reduces.pending == [] && app.reduces.failed == [] && app.reduces.finishedTasks == []
  {
  }

  /** A started application with one reduce, not yet asked for: a restart loses it. */
  lemma RestartLosesReduce()
    ensures var r, am := Task(0, "reduce", "rack", "host"), ContainerId(0, 0);
            var app := Started(Init([r]), am);
            && app.amRunning && app.reduces.pending == [r] && Everywhere(app.reduces) == multiset{r}
            && Everywhere(Restart(app).reduces) == multiset{}
  {
    var r := Task(0, "reduce", "rack", "host");
    assert OfKind([r], "reduce") == [r];
  }

  /** One with a map that has been asked for: a restart doubles it. */
  lemma RestartDoublesMap()
    ensures var m, am := Task(0, "map", "rack", "host"), ContainerId(0, 0);
            var app := Send(Started(Init([m]), am));
            && app.amRunning && app.maps.scheduled == [m] && Everywhere(app.maps) == multiset{m}
            && Everywhere(Restart(app).maps) == multiset{m, m}
  {
    hide Everywhere;
    var m, am := Task(0, "map", "rack", "host"), ContainerId(0, 0);
    assert OfKind([m], "map") == [m];
    var app := Send(Started(Init([m]), am));
    Unassigned(app.maps);
    Unassigned(Restart(app).maps);
  }

  lemma Unassigned(t: Tasks)
    requires t.failed == [] && t.assignments == map[] && t.finishedTasks == []
    ensures Everywhere(t) == multiset(t.pending) + multiset(t.scheduled)
  {
  }
}
