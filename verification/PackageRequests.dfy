/** Container requests for a list of tasks: per node, per rack, and anywhere. */
module PackageRequests {
  import opened Options
  import opened MapReduce

  const PRIORITY_REDUCE := 10
  const PRIORITY_MAP := 20

  const ANY := "*"

  datatype Request = Request(name: string, priority: int, count: nat)

  datatype Level = Host | Rack

  function NameOf(level: Level, t: Task): string { if level.Host? then t.host else t.rack }

  function CountOf(tasks: seq<Task>, level: Level, name: string): nat {
    if tasks == [] then 0
    else CountOf(tasks[..|tasks| - 1], level, name) + if NameOf(level, tasks[|tasks| - 1]) == name then 1 else 0
  }

  /** One request per name, for as many containers as tasks have that name. */
  ghost predicate Covers(rs: seq<Request>, tasks: seq<Task>, level: Level) {
    && (forall i, j | 0 <= i < j < |rs| :: rs[i].name != rs[j].name)
    && (forall i | 0 <= i < |rs| :: rs[i].count == CountOf(tasks, level, rs[i].name))
    && forall t | t in tasks :: exists i :: 0 <= i < |rs| && rs[i].name == NameOf(level, t)
  }

  ghost predicate IsPackage(ask: seq<Request>, tasks: seq<Task>, priority: int) {
    && (forall r | r in ask :: r.priority == priority && r.count > 0)
    && exists n, m | 0 <= n <= m <= |ask| ::
        && Covers(ask[..n], tasks, Host) && Covers(ask[n..m], tasks, Rack)
        && ask[m..] == if tasks == [] then [] else [Request(ANY, priority, |tasks|)]
  }

  // ---- each level asks for every task once ------------------------------------------------

  function Total(rs: seq<Request>): nat {
    if rs == [] then 0 else Total(rs[..|rs| - 1]) + rs[|rs| - 1].count
  }

  function Others(tasks: seq<Task>, level: Level, name: string): seq<Task> {
    if tasks == [] then []
    else
      var t := tasks[|tasks| - 1];
      Others(tasks[..|tasks| - 1], level, name) + if NameOf(level, t) == name then [] else [t]
  }

  lemma {:induction false} OthersSize(tasks: seq<Task>, level: Level, name: string)
    ensures |tasks| == |Others(tasks, level, name)| + CountOf(tasks, level, name)
  {
    if tasks != [] { OthersSize(tasks[..|tasks| - 1], level, name); }
  }

  lemma {:induction false} OthersCount(tasks: seq<Task>, level: Level, name: string, other: string)
    requires other != name
    ensures CountOf(Others(tasks, level, name), level, other) == CountOf(tasks, level, other)
  {
    if tasks != [] {
      var t, front := tasks[|tasks| - 1], tasks[..|tasks| - 1];
      OthersCount(front, level, name, other);
      if NameOf(level, t) != name {
        assert (Others(front, level, name) + [t])[..|Others(front, level, name)|] == Others(front, level, name);
      } else {
        assert Others(tasks, level, name) == Others(front, level, name);
      }
    }
  }

  lemma {:induction false} OthersAre(tasks: seq<Task>, level: Level, name: string, t: Task)
    ensures t in Others(tasks, level, name) <==> t in tasks && NameOf(level, t) != name
  {
    if tasks != [] {
      OthersAre(tasks[..|tasks| - 1], level, name, t);
      assert tasks == tasks[..|tasks| - 1] + [tasks[|tasks| - 1]];
    }
  }

  lemma NoneCovered(tasks: seq<Task>, level: Level)
    requires Covers([], tasks, level)
    ensures tasks == []
  {
    if tasks != [] {
      FirstIn(tasks);
      assert false;
    }
  }

  lemma FirstIn(tasks: seq<Task>)
    requires tasks != []
    ensures exists t :: t in tasks
  {
    assert tasks[0] in tasks;
  }

  /** Node requests sum to the number of tasks, and so do rack requests. */
  lemma {:induction false} CoversAll(rs: seq<Request>, tasks: seq<Task>, level: Level)
    requires Covers(rs, tasks, level)
    ensures Total(rs) == |tasks|
    decreases |rs|
  {
    if rs == [] {
      NoneCovered(tasks, level);
    } else {
      var front, r := rs[..|rs| - 1], rs[|rs| - 1];
      var rest := Others(tasks, level, r.name);
      OthersSize(tasks, level, r.name);
      forall i | 0 <= i < |front| ensures front[i].count == CountOf(rest, level, front[i].name) {
        OthersCount(tasks, level, r.name, front[i].name);
      }
      forall t | t in rest ensures exists i :: 0 <= i < |front| && front[i].name == NameOf(level, t) {
        OthersAre(tasks, level, r.name, t);
        var i :| 0 <= i < |rs| && rs[i].name == NameOf(level, t);
        assert front[i].name == NameOf(level, t);
      }
      CoversAll(front, rest, level);
    }
  }

  /** What `Package` asks for adds up, level by level, to one container per task. */
  lemma PackageAddsUp(ask: seq<Request>, tasks: seq<Task>, priority: int) returns (n: nat, m: nat)
    requires IsPackage(ask, tasks, priority)
    ensures n <= m <= |ask| && Total(ask[..n]) == Total(ask[n..m]) == Total(ask[m..]) == |tasks|
  {
    n, m :| n <= m <= |ask| && Covers(ask[..n], tasks, Host) && Covers(ask[n..m], tasks, Rack)
            && ask[m..] == if tasks == [] then [] else [Request(ANY, priority, |tasks|)];
    CoversAll(ask[..n], tasks, Host);
    CoversAll(ask[n..m], tasks, Rack);
    assert Total([]) == 0;
  }

  ghost predicate HasRequest(rs: seq<Request>, name: string) {
    exists i :: 0 <= i < |rs| && rs[i].name == name
  }

  // ---- what is asked for, task by task -----------------------------------------------------

  function WithHost(tasks: seq<Task>, name: string): set<nat> {
    set k: nat | k < |tasks| && tasks[k].host == name
  }

  function WithRack(tasks: seq<Task>, name: string): set<nat> {
    set k: nat | k < |tasks| && tasks[k].rack == name
  }

  lemma {:induction false} HostsCounted(tasks: seq<Task>, name: string)
    ensures CountOf(tasks, Host, name) == |WithHost(tasks, name)|
  {
    if tasks != [] {
      var front, n := tasks[..|tasks| - 1], |tasks| - 1;
      HostsCounted(front, name);
      assert WithHost(tasks, name) == WithHost(front, name) + if tasks[n].host == name then {n} else {};
    }
  }

  lemma {:induction false} RacksCounted(tasks: seq<Task>, name: string)
    ensures CountOf(tasks, Rack, name) == |WithRack(tasks, name)|
  {
    if tasks != [] {
      var front, n := tasks[..|tasks| - 1], |tasks| - 1;
      RacksCounted(front, name);
      assert WithRack(tasks, name) == WithRack(front, name) + if tasks[n].rack == name then {n} else {};
    }
  }

  /** One request for each of these names, with the number of its tasks. */
  ghost predicate ForHosts(rs: seq<Request>, tasks: seq<Task>, priority: int) {
    && (forall i, j | 0 <= i < j < |rs| :: rs[i].name != rs[j].name)
    && (forall t | t in tasks :: HasRequest(rs, t.host))
    && forall i | 0 <= i < |rs| ::
         rs[i].priority == priority && 0 < rs[i].count == |WithHost(tasks, rs[i].name)|
  }

  ghost predicate ForRacks(rs: seq<Request>, tasks: seq<Task>, priority: int) {
    && (forall i, j | 0 <= i < j < |rs| :: rs[i].name != rs[j].name)
    && (forall t | t in tasks :: HasRequest(rs, t.rack))
    && forall i | 0 <= i < |rs| ::
         rs[i].priority == priority && 0 < rs[i].count == |WithRack(tasks, rs[i].name)|
  }

  lemma HostsAre(rs: seq<Request>, tasks: seq<Task>, priority: int)
    requires Covers(rs, tasks, Host) && forall r | r in rs :: r.priority == priority && r.count > 0
    ensures ForHosts(rs, tasks, priority)
  {
    forall i | 0 <= i < |rs|
      ensures rs[i].priority == priority && 0 < rs[i].count == |WithHost(tasks, rs[i].name)|
    {
      assert rs[i] in rs;
      HostsCounted(tasks, rs[i].name);
    }
    forall t | t in tasks ensures HasRequest(rs, t.host) {
      var i :| 0 <= i < |rs| && rs[i].name == NameOf(Host, t);
      assert rs[i].name == t.host;
    }
  }

  lemma RacksAre(rs: seq<Request>, tasks: seq<Task>, priority: int)
    requires Covers(rs, tasks, Rack) && forall r | r in rs :: r.priority == priority && r.count > 0
    ensures ForRacks(rs, tasks, priority)
  {
    forall i | 0 <= i < |rs|
      ensures rs[i].priority == priority && 0 < rs[i].count == |WithRack(tasks, rs[i].name)|
    {
      assert rs[i] in rs;
      RacksCounted(tasks, rs[i].name);
    }
    forall t | t in tasks ensures HasRequest(rs, t.rack) {
      var i :| 0 <= i < |rs| && rs[i].name == NameOf(Rack, t);
      assert rs[i].name == t.rack;
    }
  }

  /** Requests for the tasks' hosts, then for their racks, each name once and with the number
      of tasks that have it, then one for as many containers anywhere as there are tasks. */
  lemma RequestsAre(ask: seq<Request>, tasks: seq<Task>, priority: int)
    returns (hosts: seq<Request>, racks: seq<Request>)
    requires IsPackage(ask, tasks, priority)
    ensures ForHosts(hosts, tasks, priority) && ForRacks(racks, tasks, priority)
    ensures ask == hosts + racks + if tasks == [] then [] else [Request("*", priority, |tasks|)]
  {
    hide Covers, ForHosts, ForRacks;
    var n, m :| 0 <= n <= m <= |ask| && Covers(ask[..n], tasks, Host) && Covers(ask[n..m], tasks, Rack)
            && ask[m..] == if tasks == [] then [] else [Request(ANY, priority, |tasks|)];
    hosts, racks := ask[..n], ask[n..m];
    HostsAre(hosts, tasks, priority);
    RacksAre(racks, tasks, priority);
    assert ask == ask[..n] + ask[n..m] + ask[m..];
  }

  // ---- the requests, built in place -----------------------------------------------------------

  ghost predicate Counted(m: map<string, nat>, tasks: seq<Task>, level: Level) {
    && (forall name | name in m :: m[name] == CountOf(tasks, level, name) > 0)
    && forall t | t in tasks :: NameOf(level, t) in m
  }

  lemma NoneCounted()
    ensures forall level :: Counted(map[], [], level)
  {
  }

  lemma CountedMore(m: map<string, nat>, all: seq<Task>, i: nat, level: Level)
    requires i < |all| && Counted(m, all[..i], level)
    ensures var name := NameOf(level, all[i]);
            Counted(m[name := 1 + if name in m then m[name] else 0], all[..i + 1], level)
  {
    var tasks, t := all[..i], all[i];
    assert all[..i + 1] == tasks + [t] && all[..i + 1][..i] == tasks;
    if NameOf(level, t) !in m { NotCounted(tasks, level, NameOf(level, t)); }
  }

  lemma {:induction false} NotCounted(tasks: seq<Task>, level: Level, name: string)
    requires forall t | t in tasks :: NameOf(level, t) != name
    ensures CountOf(tasks, level, name) == 0
  {
    if tasks != [] { NotCounted(tasks[..|tasks| - 1], level, name); }
  }

  method Package(csList: seq<Task>, priority: int) returns (ask: seq<Request>)
    ensures IsPackage(ask, csList, priority)
  {
    hide Counted, Covers, IsPackage;
    var rackLocal: map<string, nat>, nodeLocal: map<string, nat>, anyRequest: Option<nat> := map[], map[], None;
    NoneCounted();
    for i := 0 to |csList|
      invariant Counted(rackLocal, csList[..i], Rack) && Counted(nodeLocal, csList[..i], Host)
      invariant anyRequest == if i == 0 then None else Some(i)
    {
      var cs := csList[i];
      CountedMore(rackLocal, csList, i, Rack);
      CountedMore(nodeLocal, csList, i, Host);
      if cs.rack in rackLocal {
        rackLocal := rackLocal[cs.rack := rackLocal[cs.rack] + 1];
      } else {
        rackLocal := rackLocal[cs.rack := 1];
      }
      if cs.host in nodeLocal {
        nodeLocal := nodeLocal[cs.host := nodeLocal[cs.host] + 1];
      } else {
        nodeLocal := nodeLocal[cs.host := 1];
      }
      anyRequest := if anyRequest.None? then Some(1) else Some(anyRequest.value + 1);
    }
    assert csList[..|csList|] == csList;
    var nodes := Requests(nodeLocal, priority, csList, Host);
    var racks := Requests(rackLocal, priority, csList, Rack);
    var last := if anyRequest.Some? then [Request(ANY, priority, anyRequest.value)] else [];
    ask := nodes + racks + last;
    Packed(nodes, racks, last, csList, priority);
  }

  lemma Packed(nodes: seq<Request>, racks: seq<Request>, last: seq<Request>, tasks: seq<Task>, priority: int)
    requires Covers(nodes, tasks, Host) && forall r | r in nodes :: r.priority == priority && r.count > 0
    requires Covers(racks, tasks, Rack) && forall r | r in racks :: r.priority == priority && r.count > 0
    requires last == if tasks == [] then [] else [Request(ANY, priority, |tasks|)]
    ensures IsPackage(nodes + racks + last, tasks, priority)
  {
    hide Covers;
    var ask, n, m := nodes + racks + last, |nodes|, |nodes| + |racks|;
    assert ask[..n] == nodes && ask[n..m] == racks && ask[m..] == last;
  }

  /** Each name but those left has its request. */
  ghost predicate Asked(rs: seq<Request>, m: map<string, nat>, left: set<string>, priority: int) {
    && (forall i | 0 <= i < |rs| ::
          rs[i].name in m && rs[i].name !in left && rs[i].count == m[rs[i].name] && rs[i].priority == priority)
    && (forall name | name in m && name !in left :: HasRequest(rs, name))
    && forall i, j | 0 <= i < j < |rs| :: rs[i].name != rs[j].name
  }

  lemma AskedOne(rs: seq<Request>, m: map<string, nat>, left: set<string>, priority: int, name: string)
    requires Asked(rs, m, left, priority) && name in left && name in m
    ensures Asked(rs + [Request(name, priority, m[name])], m, left - {name}, priority)
  {
    var more := rs + [Request(name, priority, m[name])];
    forall x | x in m && x !in left - {name} ensures HasRequest(more, x) {
      if x == name {
        assert more[|rs|].name == x;
      } else {
        assert HasRequest(rs, x);
        var i :| 0 <= i < |rs| && rs[i].name == x;
        assert more[i].name == x;
      }
    }
  }

  lemma AskedCovers(rs: seq<Request>, m: map<string, nat>, priority: int, tasks: seq<Task>, level: Level)
    requires Asked(rs, m, {}, priority) && Counted(m, tasks, level)
    ensures Covers(rs, tasks, level) && forall r | r in rs :: r.priority == priority && r.count > 0
  {
    forall t | t in tasks ensures exists i :: 0 <= i < |rs| && rs[i].name == NameOf(level, t) {
      assert HasRequest(rs, NameOf(level, t));
    }
  }

  method Requests(m: map<string, nat>, priority: int, ghost tasks: seq<Task>, ghost level: Level)
    returns (rs: seq<Request>)
    requires Counted(m, tasks, level)
    ensures Covers(rs, tasks, level) && forall r | r in rs :: r.priority == priority && r.count > 0
  {
    hide HasRequest, Counted, Covers;
    rs := [];
    var left := m.Keys;
    while left != {}
      invariant left <= m.Keys && Asked(rs, m, left, priority)
      decreases left
    {
      var name :| name in left;
      AskedOne(rs, m, left, priority, name);
      rs, left := rs + [Request(name, priority, m[name])], left - {name};
    }
    AskedCovers(rs, m, priority, tasks, level);
  }
}
