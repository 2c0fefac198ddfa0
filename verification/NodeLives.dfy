/** The containers of one node manager and their lives: what the node does to its lists, and
    what its methods do to the simulators, are the events of those lives. */
module NodeLives {
  import opened Sequences
  import opened MapReduce
  import N = NodeManager
  import L = Lives
  import C = ContainerSimulator

  /** A node, with the life of each simulator in a container of it. */
  datatype Timed = Timed(node: N.Node, lives: map<ContainerId, L.Life>, clock: int)

  /** A heartbeat with its times: the transmissions heard of, those polled, those cleaned up. */
  datatype Turn = Turn(
    messages: seq<int>, startAt: int, pollAt: int, polled: seq<ContainerId>, cleanup: seq<ContainerId>)

  /** The lists of the node say in which state each simulator is. */
  ghost predicate Consistent(t: Timed) {
    && t.node.queue == t.node.running.Keys && Distinct(t.node.waiting)
    && (forall c | c in t.lives ::
          && (c in t.node.waiting <==> t.lives[c].waiting) && (c in t.node.queue <==> t.lives[c].queued)
          && t.lives[c].clock <= t.clock && c !in t.node.ams)
    && (forall c | c in t.node.waiting || c in t.node.queue :: c in t.lives)
  }

  function ReadyNow(t: Timed, messages: seq<int>): set<ContainerId> {
    set c | c in t.lives && L.Ready(t.lives[c], messages)
  }

  /** The same heartbeat, as the node manager sees it. */
  function BeatOf(t: Timed, turn: Turn): N.Beat {
    N.Beat(ReadyNow(t, turn.messages), turn.polled, turn.cleanup)
  }

  function EventOf(turn: Turn, c: ContainerId): L.Event {
    L.Beat(turn.messages, turn.startAt, turn.pollAt, c in turn.polled)
  }

  /** What is polled has expired. */
  ghost predicate Allowed(t: Timed, turn: Turn) {
    && N.Legal(t.node, BeatOf(t, turn)) && t.clock <= turn.startAt <= turn.pollAt
    && forall c | c in turn.polled && c in t.lives ::
         L.Started(t.lives[c], turn.messages, turn.startAt).sim.endTime <= turn.pollAt
  }

  ghost function Turned(t: Timed, turn: Turn): Timed {
    Timed(N.AfterBeat(t.node, BeatOf(t, turn)),
          map c | c in t.lives && c !in turn.cleanup :: L.Apply(t.lives[c], EventOf(turn, c)), turn.pollAt)
  }

  // ---- a heartbeat is an event of every life ------------------------------------------------------

  lemma {:induction false} NotInIs(s: seq<ContainerId>, ready: set<ContainerId>)
    requires Distinct(s)
    ensures Distinct(N.NotIn(s, ready)) && forall c :: c in N.NotIn(s, ready) <==> c in s && c !in ready
  {
    if s != [] {
      var front, x := s[..|s| - 1], s[|s| - 1];
      assert s == front + [x] && x !in front;
      NotInIs(front, ready);
    }
  }

  lemma {:induction false} ExpireIs(n: N.Node, polled: seq<ContainerId>)
    ensures var m := N.Expire(n, polled);
            && m.waiting == n.waiting && m.ams == n.ams
            && (forall c :: c in m.queue <==> c in n.queue && c !in polled)
            && (forall c :: c in m.running <==> c in n.running && c !in polled)
  {
    if polled != [] {
      var front, x := polled[..|polled| - 1], polled[|polled| - 1];
      assert polled == front + [x];
      ExpireIs(n, front);
    }
  }

  lemma {:induction false} WithoutIs(s: seq<ContainerId>, x: ContainerId)
    requires Distinct(s)
    ensures Distinct(Without(s, x)) && forall c :: c in Without(s, x) <==> c in s && c != x
  {
    if s != [] {
      assert s == [s[0]] + s[1..] && s[0] !in s[1..];
      if s[0] != x {
        WithoutIs(s[1..], x);
        var rest := Without(s[1..], x);
        assert forall k | 0 <= k < |rest| :: rest[k] in rest;
      }
    }
  }

  /** Cleaning up takes task containers off every list. */
  lemma {:induction false} ReleaseIs(n: N.Node, cleanup: seq<ContainerId>)
    requires Distinct(n.waiting) && forall c | c in n.waiting || c in n.queue || c in n.running :: c !in n.ams
    ensures var m := N.Release(n, cleanup);
            && Distinct(m.waiting)
            && (forall c :: c in m.waiting <==> c in n.waiting && c !in cleanup)
            && (forall c :: c in m.queue <==> c in n.queue && c !in cleanup)
            && (forall c :: c in m.running <==> c in n.running && c !in cleanup)
            && (forall c :: c in m.ams ==> c in n.ams)
  {
    if cleanup != [] {
      var front, x := cleanup[..|cleanup| - 1], cleanup[|cleanup| - 1];
      assert cleanup == front + [x];
      ReleaseIs(n, front);
      var m := N.Release(n, front);
      WithoutIs(m.waiting, x);
      forall c | c in Without(m.ams, x) ensures c in m.ams { WithoutWithin(m.ams, x, c); }
    }
  }

  /** The lists after a heartbeat. */
  lemma ListsAfter(t: Timed, turn: Turn)
    requires Consistent(t) && Allowed(t, turn)
    ensures var m := N.AfterBeat(t.node, BeatOf(t, turn));
            && Distinct(m.waiting) && m.queue == m.running.Keys
            && (forall c :: c in m.waiting <==>
                  c in t.node.waiting && c !in ReadyNow(t, turn.messages) && c !in turn.cleanup)
            && (forall c :: c in m.queue <==> c in t.node.queue && c !in turn.polled && c !in turn.cleanup)
            && (forall c :: c in m.ams ==> c in t.node.ams)
  {
    hide L.Started, L.Ready;
    var b := BeatOf(t, turn);
    var w := N.StartWork(t.node, b.ready);
    NotInIs(t.node.waiting, b.ready);
    ExpireIs(w, b.polled);
    ReleaseIs(N.Reported(N.Expire(w, b.polled)), b.cleanup);
  }

  /** A heartbeat of the node is an event of each life, followed by a kill for those cleaned
      up, and the lists and the lives still agree. */
  lemma TurnLives(t: Timed, turn: Turn)
    requires Consistent(t) && Allowed(t, turn)
    ensures forall c | c in t.lives ::
              && L.Enabled(t.lives[c], EventOf(turn, c))
              && (c in turn.cleanup ==> L.Enabled(L.Apply(t.lives[c], EventOf(turn, c)), L.Kill))
    ensures Consistent(Turned(t, turn))
  {
    hide C.Hear, N.AfterBeat, N.BeforeReport;
    ListsAfter(t, turn);
    CleanupRuns(t, turn);
  }

  /** What is cleaned up was just reported as running. */
  lemma CleanupRuns(t: Timed, turn: Turn)
    requires Consistent(t) && Allowed(t, turn)
    ensures forall c | c in turn.cleanup && c in t.lives :: c in t.node.queue && c !in turn.polled
  {
    ExpireIs(N.StartWork(t.node, ReadyNow(t, turn.messages)), turn.polled);
  }

  /** A launch puts the simulator's life on, in a container of this node. */
  lemma LaunchLives(t: Timed, c: ContainerId, task: Task, l: L.Life, at: int, fetches: bool, replies: seq<int>)
    requires Consistent(t) && t.clock <= at && L.Enabled(l, L.Launch(at, fetches, replies))
    requires c !in t.lives && c !in t.node.ams
    ensures Consistent(Timed(N.AddTask(t.node, c, task), t.lives[c := L.Launched(l, at, fetches, replies)], at))
  {
  }

  // ---- over many heartbeats --------------------------------------------------------------------------

  ghost predicate AllAllowed(t: Timed, turns: seq<Turn>)
    decreases |turns|
  {
    turns == [] || (Allowed(t, turns[0]) && AllAllowed(Turned(t, turns[0]), turns[1..]))
  }

  ghost function After(t: Timed, turns: seq<Turn>): Timed
    decreases |turns|
  {
    if turns == [] then t else After(Turned(t, turns[0]), turns[1..])
  }

  /** Whatever the node does, as long as a container is not cleaned up its simulator's life
      goes on, event by event. */
  lemma {:induction false} LivesGoOn(t: Timed, turns: seq<Turn>, c: ContainerId) returns (es: seq<L.Event>)
    requires Consistent(t) && AllAllowed(t, turns) && c in t.lives && c in After(t, turns).lives
    ensures Consistent(After(t, turns)) && L.Beats(es)
    ensures L.Run(t.lives[c], es) && L.End(t.lives[c], es) == After(t, turns).lives[c]
    decreases |turns|
  {
    hide L.Enabled, L.Apply, Allowed, Consistent, N.AfterBeat;
    es := [];
    if turns != [] {
      TurnLives(t, turns[0]);
      StillThere(Turned(t, turns[0]), turns[1..], c);
      es := LivesGoOn(Turned(t, turns[0]), turns[1..], c);
      var e := EventOf(turns[0], c);
      assert ([e] + es)[0] == e && ([e] + es)[1..] == es;
      es := [e] + es;
    }
  }

  /** No life comes back. */
  lemma {:induction false} StillThere(t: Timed, turns: seq<Turn>, c: ContainerId)
    requires c in After(t, turns).lives
    ensures c in t.lives
    decreases |turns|
  {
    hide N.AfterBeat, L.Apply;
    if turns != [] { StillThere(Turned(t, turns[0]), turns[1..], c); }
  }

  // ---- the simulators themselves ------------------------------------------------------------------------

  /** Starting the transmissions is the launch of the simulator's life. */
  method StartLife(cs: C.ContainerSimulator, enabled: bool, now: int, net: C.NetworkEmulator,
      maps: seq<C.ContainerSimulator>, ghost l: L.Life)
    returns (ok: bool, ghost e: L.Event)
    requires cs.assignedContainer.Some? && cs.State() == l.sim && L.Enabled(l, L.Launch(now, false, []))
    modifies cs`openTransmissions, cs`endTime, net
    ensures ok ==> e.Launch? && e.at == now && L.Enabled(l, e) && cs.State() == L.Apply(l, e).sim
  {
    var before := cs.openTransmissions;
    ghost var was := cs.State();
    ok := cs.StartTransmission(enabled, now, net, maps);
    if enabled && !(cs.isMap && cs.assignedContainer.value in cs.splitLocations) {
      ghost var replies := cs.openTransmissions[|before|..];
      e := L.Launch(now, true, replies);
      assert ok ==> cs.openTransmissions == before + replies;
      assert ok ==> cs.State() == C.Fetch(was, replies, now);
    } else {
      e := L.Launch(now, false, []);
    }
  }

  /** Telling the waiting simulators what has arrived and starting those that are ready is the
      first half of a heartbeat in each of their lives. */
  method HearAndStart(waiting: seq<C.ContainerSimulator>, messages: seq<int>, startAt: int, ghost lives: seq<L.Life>)
    returns (still: seq<C.ContainerSimulator>)
    requires Distinct(waiting) && |lives| == |waiting|
    requires forall k | 0 <= k < |waiting| :: waiting[k].State() == lives[k].sim && lives[k].waiting
    modifies waiting`openTransmissions, waiting`endTime
    ensures forall k | 0 <= k < |waiting| ::
              && waiting[k].State() == L.Started(lives[k], messages, startAt).sim
              && (waiting[k] in still <==> L.Started(lives[k], messages, startAt).waiting)
  {
    for i := 0 to |messages|
      invariant forall k | 0 <= k < |waiting| :: waiting[k].State() == C.Hear(lives[k].sim, messages[..i])
    {
      C.NotifyAll(waiting, messages[i]);
      HeardOneMore(lives, messages, i);
    }
    assert messages[..|messages|] == messages;
    assert forall k | 0 <= k < |waiting| :: waiting[k] in waiting;
    still := C.StartReady(waiting, startAt);
  }

  lemma HeardOneMore(lives: seq<L.Life>, messages: seq<int>, i: nat)
    requires i < |messages|
    ensures forall k | 0 <= k < |lives| ::
              C.Hear(C.Hear(lives[k].sim, messages[..i]), [messages[i]]) == C.Hear(lives[k].sim, messages[..i + 1])
  {
    assert messages[..i + 1][..i] == messages[..i] && [messages[i]][..0] == [];
    forall k | 0 <= k < |lives|
      ensures C.Hear(C.Hear(lives[k].sim, messages[..i]), [messages[i]]) == C.Hear(lives[k].sim, messages[..i + 1])
    {
      var s := C.WithoutAll(lives[k].sim.open, messages[..i]);
      assert C.WithoutAll(s, []) == s;
    }
  }
}
