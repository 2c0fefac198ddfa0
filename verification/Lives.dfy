/** The life of one container simulator under its node managers: launches, heartbeats, kills.
    When it ends, has it done its work? */
module Lives {
  import opened Options
  import opened ContainerSimulator

  /** The attempt under way: when it was launched, the transmissions it asked for, those it
      was told of, and when it began its work. */
  datatype Attempt = Attempt(launched: int, asked: seq<int>, heard: seq<int>, began: Option<int>)

  /** `fetched`: when transmissions were last asked for, in this attempt or an earlier one. */
  datatype Life = Life(sim: Sim, waiting: bool, queued: bool, attempt: Attempt, fetched: Option<int>,
                       ended: Option<int>, clock: int)

  /** `fetches`: the launch asks for transmissions, with these replies. A heartbeat first hears
      of completed transmissions, then starts ready work, then polls. */
  datatype Event =
    | Launch(at: int, fetches: bool, replies: seq<int>)
    | Beat(messages: seq<int>, startAt: int, pollAt: int, poll: bool)
    | Kill

  function Born(lifeTime: int): Life {
    Life(New(lifeTime), false, false, Attempt(0, [], [], None), None, None, 0)
  }

  function Launched(l: Life, at: int, fetches: bool, replies: seq<int>): Life {
    l.(sim := if fetches then Fetch(l.sim, replies, at) else l.sim, waiting := true, queued := true,
       attempt := Attempt(at, if fetches then replies else [], [], None),
       fetched := if fetches then Some(at) else l.fetched, clock := at)
  }

  function Ready(l: Life, messages: seq<int>): bool {
    l.waiting && Hear(l.sim, messages).open == []
  }

  /** The first half of a heartbeat. */
  function Started(l: Life, messages: seq<int>, at: int): Life {
    if !l.waiting then l
    else
      var a := l.attempt.(heard := l.attempt.heard + messages);
      if Ready(l, messages) then
        l.(sim := Work(Hear(l.sim, messages), at), waiting := false, attempt := a.(began := Some(at)))
      else l.(sim := Hear(l.sim, messages), attempt := a)
  }

  function Beaten(l: Life, messages: seq<int>, startAt: int, pollAt: int, poll: bool): Life {
    var m := Started(l, messages, startAt);
    if poll then m.(queued := false, ended := Some(pollAt), clock := pollAt) else m.(clock := pollAt)
  }

  /** Time does not go back; what is polled has expired; what has ended is not launched
      again. */
  predicate Enabled(l: Life, e: Event) {
    match e
    case Launch(at, _, _) => !l.queued && l.ended.None? && l.clock <= at
    case Beat(messages, startAt, pollAt, poll) =>
      && l.clock <= startAt <= pollAt
      && (poll ==> l.queued && Started(l, messages, startAt).sim.endTime <= pollAt)
    case Kill => l.queued
  }

  function Apply(l: Life, e: Event): Life {
    match e
    case Launch(at, fetches, replies) => Launched(l, at, fetches, replies)
    case Beat(messages, startAt, pollAt, poll) => Beaten(l, messages, startAt, pollAt, poll)
    case Kill => l.(waiting := false, queued := false)
  }

  predicate Run(l: Life, es: seq<Event>)
    decreases |es|
  {
    es == [] || (Enabled(l, es[0]) && Run(Apply(l, es[0]), es[1..]))
  }

  function End(l: Life, es: seq<Event>): Life
    decreases |es|
  {
    if es == [] then l else End(Apply(l, es[0]), es[1..])
  }

  // ---- every life ------------------------------------------------------------------------

  /** At p it has worked its life time, after all it asked for had arrived. */
  predicate Worked(l: Life, p: int) {
    && l.attempt.began.Some? && l.attempt.began.value + l.sim.lifeTime <= p
    && multiset(l.attempt.asked) <= multiset(l.attempt.heard)
  }

  /** At p it has waited fifty life times. */
  predicate TimedOut(l: Life, since: int, p: int) {
    since + l.sim.lifeTime * 50 <= p
  }

  /** What holds of the attempt under way, whatever was before it. */
  predicate Attempting(l: Life) {
    && multiset(l.attempt.asked) <= multiset(l.sim.open) + multiset(l.attempt.heard)
    && (l.attempt.began.Some? ==> l.sim.open == [])
    && (l.attempt.began.Some? && l.queued ==> l.sim.endTime == l.attempt.began.value + l.sim.lifeTime)
    && (l.waiting ==> l.attempt.began.None?)
    && (l.queued ==> l.ended.None? && (l.waiting || l.attempt.began.Some?))
    && (!l.queued && l.ended.None? ==> !l.waiting)
  }

  predicate FetchedOrWorked(l: Life) {
    l.ended.Some? ==>
      || Worked(l, l.ended.value)
      || (l.fetched.Some? && TimedOut(l, l.fetched.value, l.ended.value))
  }

  predicate Tracked(l: Life, lifeTime: int) {
    && l.sim.lifeTime == lifeTime && Attempting(l) && FetchedOrWorked(l)
    && (l.sim.open != [] ==> l.fetched.Some? && l.sim.endTime == l.fetched.value + lifeTime * 50)
  }

  lemma StartedTracked(l: Life, lifeTime: int, messages: seq<int>, at: int)
    requires Tracked(l, lifeTime)
    ensures Tracked(Started(l, messages, at), lifeTime)
  {
    WithoutAllCounts(l.sim.open, messages);
  }

  lemma StepTracked(l: Life, lifeTime: int, e: Event)
    requires Tracked(l, lifeTime) && Enabled(l, e)
    ensures Tracked(Apply(l, e), lifeTime)
  {
    match e
    case Launch(at, fetches, replies) =>
    case Beat(messages, startAt, pollAt, poll) => StartedTracked(l, lifeTime, messages, startAt);
    case Kill =>
  }

  lemma {:induction false} RunTracked(l: Life, lifeTime: int, es: seq<Event>)
    requires Tracked(l, lifeTime) && Run(l, es)
    ensures Tracked(End(l, es), lifeTime)
    decreases |es|
  {
    if es != [] {
      StepTracked(l, lifeTime, es[0]);
      RunTracked(Apply(l, es[0]), lifeTime, es[1..]);
    }
  }

  /** However often a simulator is killed and launched again: when it ends, either it has
      worked its life time after its transmissions, or fifty life times have passed since
      transmissions were last asked for. */
  lemma EndsForAReason(lifeTime: int, es: seq<Event>)
    requires Run(Born(lifeTime), es)
    ensures var l := End(Born(lifeTime), es);
            l.ended.Some? ==>
              || Worked(l, l.ended.value)
              || (l.fetched.Some? && l.fetched.value + lifeTime * 50 <= l.ended.value)
  {
    RunTracked(Born(lifeTime), lifeTime, es);
  }

  // ---- one attempt -------------------------------------------------------------------------

  /** When it ended, it had worked, or waited fifty life times in this attempt. */
  predicate InTime(l: Life) {
    l.ended.Some? ==> Worked(l, l.ended.value) || TimedOut(l, l.attempt.launched, l.ended.value)
  }

  /** The launch asks for transmissions, or none is left over from an earlier attempt, or
      the old time-out is late enough. */
  predicate Fresh(l: Life, at: int, fetches: bool) {
    || fetches || l.sim.open == []
    || at + l.sim.lifeTime * 50 <= if l.sim.endTime < at then at else l.sim.endTime
  }

  predicate Beats(es: seq<Event>) {
    forall k | 0 <= k < |es| :: es[k].Beat?
  }

  predicate OnTime(l: Life) {
    && Attempting(l) && InTime(l) && l.attempt.launched <= l.clock
    && (l.queued && l.sim.open != [] ==>
          TimedOut(l, l.attempt.launched, if l.sim.endTime < l.clock then l.clock else l.sim.endTime))
  }

  lemma StartedOnTime(l: Life, messages: seq<int>, at: int)
    requires OnTime(l)
    ensures OnTime(Started(l, messages, at))
  {
    WithoutAllCounts(l.sim.open, messages);
  }

  lemma BeatOnTime(l: Life, e: Event)
    requires OnTime(l) && Enabled(l, e) && e.Beat?
    ensures OnTime(Apply(l, e))
  {
    StartedOnTime(l, e.messages, e.startAt);
    var m := Started(l, e.messages, e.startAt);
    assert m.queued == l.queued && m.clock == l.clock;
    hide Started;
  }

  lemma {:induction false} BeatsOnTime(l: Life, es: seq<Event>)
    requires OnTime(l) && Run(l, es) && Beats(es)
    ensures OnTime(End(l, es))
    decreases |es|
  {
    if es != [] {
      BeatOnTime(l, es[0]);
      BeatsOnTime(Apply(l, es[0]), es[1..]);
    }
  }

  lemma LaunchOnTime(l: Life, at: int, fetches: bool, replies: seq<int>)
    requires Enabled(l, Launch(at, fetches, replies)) && Fresh(l, at, fetches)
    ensures OnTime(Launched(l, at, fetches, replies))
  {
  }

  /** An attempt ends in time, however it goes on, if and only if its launch is fresh: a
      transmission left open by a killed attempt is not forgotten, and neither is its
      time-out, when the next attempt has nothing to fetch. */
  lemma AttemptEndsInTime(l: Life, at: int, fetches: bool, replies: seq<int>)
    requires Enabled(l, Launch(at, fetches, replies))
    ensures var m := Launched(l, at, fetches, replies);
            (forall es | Beats(es) && Run(m, es) :: InTime(End(m, es))) <==> Fresh(l, at, fetches)
  {
    var m := Launched(l, at, fetches, replies);
    if Fresh(l, at, fetches) {
      LaunchOnTime(l, at, fetches, replies);
      forall es | Beats(es) && Run(m, es) ensures InTime(End(m, es)) { BeatsOnTime(m, es); }
    } else {
      var es := PolledAtOnce(l, at, replies);
      assert Beats(es) && Run(m, es) && !InTime(End(m, es));
    }
  }

  lemma PolledAtOnce(l: Life, at: int, replies: seq<int>) returns (es: seq<Event>)
    requires Enabled(l, Launch(at, false, replies)) && !Fresh(l, at, false)
    ensures var m := Launched(l, at, false, replies); Beats(es) && Run(m, es) && !InTime(End(m, es))
  {
    var m := Launched(l, at, false, replies);
    var t := if l.sim.endTime < at then at else l.sim.endTime;
    var e := Beat([], t, t, true);
    es := [e];
    assert WithoutAll(l.sim.open, []) == l.sim.open;
    assert es[1..] == [] && Run(Apply(m, e), []) && End(m, es) == End(Apply(m, e), []) == Apply(m, e);
  }

  /** Nothing is killed while it still waits for a transmission. */
  predicate CleanKills(l: Life, es: seq<Event>)
    decreases |es|
  {
    es == [] || ((es[0].Kill? ==> l.sim.open == []) && CleanKills(Apply(l, es[0]), es[1..]))
  }

  predicate Clean(l: Life) {
    OnTime(l) && (!l.queued && l.ended.None? ==> l.sim.open == [])
  }

  lemma StepClean(l: Life, e: Event)
    requires Clean(l) && Enabled(l, e) && (e.Kill? ==> l.sim.open == [])
    ensures Clean(Apply(l, e))
  {
    match e
    case Launch(at, fetches, replies) => LaunchOnTime(l, at, fetches, replies);
    case Beat(_, _, _, _) => BeatOnTime(l, e);
    case Kill =>
  }

  lemma {:induction false} RunClean(l: Life, es: seq<Event>)
    requires Clean(l) && Run(l, es) && CleanKills(l, es)
    ensures Clean(End(l, es))
    decreases |es|
  {
    if es != [] {
      StepClean(l, es[0]);
      RunClean(Apply(l, es[0]), es[1..]);
    }
  }

  /** In every life without such a kill the last attempt ends in time. */
  lemma CleanLivesEndInTime(lifeTime: int, es: seq<Event>)
    requires Run(Born(lifeTime), es) && CleanKills(Born(lifeTime), es)
    ensures InTime(End(Born(lifeTime), es))
  {
    RunClean(Born(lifeTime), es);
  }

  /** With such a kill it need not: launched again at 450 where its data is, this one ends
      at 500, having neither worked nor waited for long. */
  lemma EndsTooSoon()
    ensures var es := [Launch(0, true, [1]), Kill, Launch(450, false, []), Beat([], 500, 500, true)];
            Run(Born(10), es) && !InTime(End(Born(10), es))
  {
  }
}
