/** Periodic tasks: a first step, middle steps at a fixed interval, and a last step. */
module TaskRunner {
  import opened Options

  datatype Step = First | Middle | Last

  /** Where a task is in its schedule. */
  datatype Clock = Clock(startTime: int, endTime: int, nextRun: int, repeatInterval: int)

  datatype Error = EndBeforeStart | NegativeInterval | DivisionByZero | NotAMultiple

  function StepOf(c: Clock): Step {
    if c.nextRun == c.startTime then First else if c.nextRun < c.endTime then Middle else Last
  }

  /** After a step that left the end time at `end`: the schedule, and whether it is queued
      again. */
  function AfterStep(c: Clock, end: int): (Clock, bool) {
    var d := c.(endTime := end);
    if StepOf(c).Last? then (d, false)
    else
      var next := d.(nextRun := d.nextRun + d.repeatInterval);
      (next, StepOf(c).Middle? || next.nextRun <= end)
  }

  class Task {
    var start: int
    var end: int
    var nextRun: int
    var startTime: int
    var endTime: int
    var repeatInterval: int
    var queued: bool

    ghost function State(): Clock
      reads this
    {
      Clock(startTime, endTime, nextRun, repeatInterval)
    }

    constructor () {
    }

    /** A zero interval is not caught by its own check, but by the division after it. */
    method Init(startTime: int, endTime: int, repeatInterval: int) returns (error: Option<Error>)
      modifies this
      ensures error.None? <==> repeatInterval > 0 && exists n: nat :: endTime - startTime == Times(n, repeatInterval)
      ensures error == Some(EndBeforeStart) <==> endTime < startTime
      ensures error == Some(DivisionByZero) <==> endTime >= startTime && repeatInterval == 0
      ensures error.None? ==> start == startTime && end == endTime && this.repeatInterval == repeatInterval
      ensures error.Some? ==> start == old(start) && end == old(end) && this.repeatInterval == old(this.repeatInterval)
    {
      if repeatInterval > 0 { Multiple(endTime - startTime, repeatInterval); }
      if endTime - startTime < 0 { return Some(EndBeforeStart); }
      if repeatInterval < 0 { return Some(NegativeInterval); }
      if repeatInterval == 0 { return Some(DivisionByZero); }
      if (endTime - startTime) % repeatInterval != 0 { return Some(NotAMultiple); }
      start, end, this.repeatInterval := startTime, endTime, repeatInterval;
      error := None;
    }

    method TimeRebase(now: int)
      modifies this
      ensures State() == Clock(now + old(start), now + old(end), now + old(start), old(repeatInterval))
      ensures start == old(start) && end == old(end)
    {
      startTime, endTime := now + start, now + end;
      nextRun := startTime;
    }

    method SetEndTime(et: int)
      modifies `endTime
      ensures endTime == et
    {
      endTime := et;
    }

    /** One execution. The step may move the end time. */
    method Run(moved: Option<int>) returns (step: Step)
      modifies `endTime, `nextRun, `queued
      ensures step == old(StepOf(State()))
      ensures (State(), queued) == old(AfterStep(State(), if moved.Some? then moved.value else endTime))
    {
      queued := false;
      if nextRun == startTime {
        step := First;
        if moved.Some? { SetEndTime(moved.value); }
        nextRun := nextRun + repeatInterval;
        if nextRun <= endTime { queued := true; }
      } else if nextRun < endTime {
        step := Middle;
        if moved.Some? { SetEndTime(moved.value); }
        nextRun := nextRun + repeatInterval;
        queued := true;
      } else {
        step := Last;
        if moved.Some? { SetEndTime(moved.value); }
      }
    }
  }

  function Times(n: int, interval: int): int { n * interval }

  lemma Multiple(d: int, interval: int)
    requires interval > 0
    ensures d >= 0 && d % interval == 0 <==> exists n: nat :: d == Times(n, interval)
  {
    if d >= 0 && d % interval == 0 { assert d == Times(d / interval, interval); }
    if n: nat :| d == Times(n, interval) { NoRemainder(n, interval); }
  }

  lemma NoRemainder(n: nat, interval: int)
    requires interval > 0
    ensures Times(n, interval) >= 0 && Times(n, interval) % interval == 0
  {
    var d := Times(n, interval);
    var q, r := d / interval, d % interval;
    assert d == interval * q + r;
    var e := n - q;
    assert e * interval == r;
  }

  // ---- a whole run ---------------------------------------------------------------------

  /** When the k-th execution is due. */
  function Due(c: Clock, k: nat): int { c.startTime + Times(k, c.repeatInterval) }

  /** The executions from the k-th on, when the k-th leaves the end time at ends[k]. */
  function Executions(c: Clock, ends: seq<int>, k: nat): seq<(Step, int)>
    requires k <= |ends|
    decreases |ends| - k
  {
    if k == |ends| then []
    else
      var (next, queued) := AfterStep(c, ends[k]);
      [(StepOf(c), c.nextRun)] + if queued then Executions(next, ends, k + 1) else []
  }

  /** The schedule is at its k-th execution, with the end time as the last one left it. */
  predicate IsAt(c: Clock, ends: seq<int>, k: nat) {
    && c.repeatInterval >= 1 && k <= |ends| && c.nextRun == Due(c, k)
    && (k > 0 ==> c.endTime == ends[k - 1])
  }

  /** Execution m is the first, after the first one, that is not due before the end. */
  ghost predicate EndsAt(c: Clock, ends: seq<int>, m: nat) {
    && 0 < m < |ends| && Due(c, m) >= ends[m - 1]
    && forall j | 0 < j < m :: Due(c, j) < ends[j - 1]
  }

  lemma DueNext(c: Clock, k: nat)
    requires c.repeatInterval >= 1
    ensures Due(c, 0) == c.startTime && (k > 0 ==> Due(c, k) > c.startTime)
    ensures Due(c, k + 1) == Due(c, k) + c.repeatInterval
  {
  }

  lemma {:induction false} ExecutionAt(c: Clock, ends: seq<int>, k: nat, m: nat, j: nat)
    requires IsAt(c, ends, k) && EndsAt(c, ends, m) && k <= j <= m
    requires k == 0 ==> Due(c, 1) <= ends[0]
    ensures var run := Executions(c, ends, k);
            && |run| == m + 1 - k
            && run[j - k] == (if j == 0 then First else if j < m then Middle else Last, Due(c, j))
    decreases |ends| - k
  {
    DueNext(c, k);
    if k < m {
      var next := AfterStep(c, ends[k]).0;
      assert forall i: nat :: Due(next, i) == Due(c, i);
      ExecutionAt(next, ends, k + 1, m, if j == k then m else j);
    }
  }

  /** However the end time moves: executions come at the interval, the first one once, the
      last one once and at the end, just when the time has reached the end time in force. */
  lemma Schedule(c: Clock, ends: seq<int>, m: nat)
    requires IsAt(c, ends, 0) && EndsAt(c, ends, m) && Due(c, 1) <= ends[0]
    ensures var run := Executions(c, ends, 0);
            && |run| == m + 1
            && forall j | 0 <= j <= m ::
                 run[j] == (if j == 0 then First else if j < m then Middle else Last, Due(c, j))
  {
    var run := Executions(c, ends, 0);
    ExecutionAt(c, ends, 0, m, m);
    forall j | 0 <= j <= m
      ensures run[j] == (if j == 0 then First else if j < m then Middle else Last, Due(c, j))
    {
      ExecutionAt(c, ends, 0, m, j);
    }
  }

  /** If the first step leaves the end before the next time, it is the only one. */
  lemma OnlyFirst(c: Clock, ends: seq<int>)
    requires IsAt(c, ends, 0) && ends != [] && Due(c, 1) > ends[0]
    ensures Executions(c, ends, 0) == [(First, c.startTime)]
  {
  }

  /** Undisturbed, a task over n intervals runs n + 1 times; over none, only its first step. */
  lemma Undisturbed(c: Clock, n: nat, ends: seq<int>)
    requires c.repeatInterval >= 1 && c.nextRun == c.startTime && |ends| > n
    requires c.endTime == Due(c, n) && forall k | 0 <= k < |ends| :: ends[k] == c.endTime
    ensures var run := Executions(c, ends, 0);
            && |run| == n + 1
            && forall j | 0 <= j <= n ::
                 run[j] == (if j == 0 then First else if j < n then Middle else Last, Due(c, j))
  {
    DueNext(c, 0);
    if n == 0 {
      OnlyFirst(c, ends);
    } else {
      forall j: nat | j < n ensures Due(c, j) < Due(c, n) {
        DueLater(c, j, n);
      }
      if n > 1 { DueLater(c, 1, n); }
      Schedule(c, ends, n);
    }
  }

  lemma {:induction false} DueLater(c: Clock, j: nat, n: nat)
    requires c.repeatInterval >= 1 && j < n
    ensures Due(c, j) < Due(c, n)
  {
  }
}
