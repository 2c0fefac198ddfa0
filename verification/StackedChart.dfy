/** A whole chart of stacked series: each series is stacked on the series before it that has
    the same key, in the order the series come. */
module StackedChart {
  import opened Polylines
  import opened Stack
  import opened Options

  datatype Series = Series(stack: Option<string>, lines: bool, withbottom: bool, points: seq<Row>)
  {
    function Mode(): Mode { Stack.Mode(lines, withbottom, false) }
  }

  /** Sorted by key, with or without gaps. */
  ghost predicate Stackable(s: Series) {
    Sorted(s.points) && Fits(s.points, s.Mode())
  }

  /** A line with increasing keys, with or without gaps. */
  ghost predicate Drawable(s: Series) {
    s.lines && Increasing(s.points) && Fits(s.points, s.Mode())
  }

  ghost predicate IsMatch(all: seq<Series>, n: nat, k: nat) {
    && k < n < |all| && all[k].stack == all[n].stack
    && forall i | k < i < n :: all[i].stack != all[n].stack
  }

  /** The nearest series before this one with the same key. */
  method FindMatchingSeries(n: nat, allseries: seq<Series>) returns (res: Option<nat>)
    requires n < |allseries|
    ensures res.Some? ==> IsMatch(allseries, n, res.value)
    ensures res.None? ==> forall k | 0 <= k < n :: allseries[k].stack != allseries[n].stack
  {
    res := None;
    for i := 0 to |allseries|
      invariant i <= n
      invariant res.Some? ==> res.value < i && allseries[res.value].stack == allseries[n].stack
      invariant forall k | (if res.Some? then res.value else -1) < k < i :: allseries[k].stack != allseries[n].stack
    {
      if i == n { break; }
      if allseries[i].stack == allseries[n].stack { res := Some(i); }
    }
  }

  ghost predicate Alone(all: seq<Series>, n: nat)
    requires n < |all|
  {
    all[n].stack.None? || forall k | 0 <= k < n :: all[k].stack != all[n].stack
  }

  /** Series n on top of series k, as it already is. */
  ghost function StackedOn(s: Series, below: Series): seq<Row>
    requires Stackable(s) && Sorted(below.points)
  {
    SortedReady(s.points, below.points);
    Merge(s.points, below.points, 0, 0, true, s.Mode())
  }

  ghost predicate Shaped(raw: seq<Series>, done: seq<Series>) {
    && |done| == |raw|
    && forall k | 0 <= k < |raw| ::
         Stackable(raw[k]) && Sorted(done[k].points) && done[k].stack == raw[k].stack
  }

  /** Series n is right for what was processed before it. */
  ghost predicate Result(raw: seq<Series>, done: seq<Series>, n: nat)
    requires Shaped(raw, done) && n < |raw|
  {
    && (Alone(raw, n) ==> done[n] == raw[n])
    && forall k | 0 <= k < n && raw[n].stack.Some? && IsMatch(raw, n, k) ::
         done[n].points == StackedOn(raw[n], done[k])
  }

  ghost predicate Processed(raw: seq<Series>, done: seq<Series>) {
    Shaped(raw, done) && forall n | 0 <= n < |raw| :: Result(raw, done, n)
  }

  lemma ResultsStay(raw: seq<Series>, done: seq<Series>, next: seq<Series>, n: nat)
    requires Shaped(raw, done) && Shaped(raw, next) && n < |raw| && next == done[n := next[n]]
    requires forall i | 0 <= i < n :: Result(raw, done, i)
    ensures forall i | 0 <= i < n :: Result(raw, next, i)
  {
    forall i | 0 <= i < n ensures Result(raw, next, i) {
      assert Result(raw, done, i);
    }
  }

  method ProcessDatapoints(raw: seq<Series>) returns (done: seq<Series>)
    requires forall k | 0 <= k < |raw| :: Stackable(raw[k])
    ensures Processed(raw, done)
  {
    done := raw;
    for n := 0 to |raw|
      invariant Shaped(raw, done) && forall k | n <= k < |raw| :: done[k] == raw[k]
      invariant forall i | 0 <= i < n :: Result(raw, done, i)
    {
      var s := ProcessOne(raw, done, n);
      ResultsStay(raw, done, done[n := s], n);
      done := done[n := s];
    }
  }

  method ProcessOne(ghost raw: seq<Series>, done: seq<Series>, n: nat) returns (s: Series)
    requires Shaped(raw, done) && n < |raw| && done[n] == raw[n]
    ensures Shaped(raw, done[n := s]) && Result(raw, done[n := s], n)
  {
    s := done[n];
    if s.stack.Some? {
      var other := FindMatchingSeries(n, done);
      if other.Some? {
        var below := done[other.value];
        SortedReady(s.points, below.points);
        MergeSorted(s.points, below.points, 0, 0, true, s.Mode());
        var points := StackData(s.points, below.points, s.lines, s.withbottom);
        s := s.(points := points);
        OneMatch(raw, done, n, other.value);
      }
    }
  }

  lemma OneMatch(raw: seq<Series>, done: seq<Series>, n: nat, k: nat)
    requires Shaped(raw, done) && n < |raw| && IsMatch(done, n, k)
    ensures IsMatch(raw, n, k) && forall l | 0 <= l < n && IsMatch(raw, n, l) :: l == k
  {
  }

  // ---- every series is drawn on the sum of those below it -----------------------------------

  predicate AddUp(v: real, w: real, y: real) { y == v + w }

  /** y is the sum of the first n series with this key at x, all of which have a value there. */
  ghost predicate IsTotal(raw: seq<Series>, n: nat, key: string, x: real, y: real)
    requires n <= |raw|
  {
    if n == 0 then y == 0.0
    else if raw[n - 1].stack == Some(key) then
      exists v: real, w: real :: OnGraph(raw[n - 1].points, x, v) && AddUp(v, w, y) && IsTotal(raw, n - 1, key, x, w)
    else IsTotal(raw, n - 1, key, x, y)
  }

  lemma {:induction false} TotalSkips(raw: seq<Series>, k: nat, n: nat, key: string, x: real, y: real)
    requires k <= n <= |raw| && forall i | k <= i < n :: raw[i].stack != Some(key)
    ensures IsTotal(raw, n, key, x, y) <==> IsTotal(raw, k, key, x, y)
  {
    if k < n { TotalSkips(raw, k, n - 1, key, x, y); }
  }

  /** In a stack of lines each series draws the sum of all series up to it with its key: just
      where all of them have a value, and nothing else. */
  lemma {:induction false} StacksAddUp(raw: seq<Series>, done: seq<Series>, n: nat, x: real, y: real)
    requires Processed(raw, done) && n < |done| && raw[n].stack.Some?
    requires forall k | 0 <= k <= n && raw[k].stack == raw[n].stack :: Drawable(raw[k])
    ensures Increasing(done[n].points)
    ensures OnGraph(done[n].points, x, y) <==> IsTotal(raw, n + 1, raw[n].stack.value, x, y)
    decreases n
  {
    hide OnGraph, Merge, IsMatch, IsTotal, Increasing, Result, Alone;
    assert Drawable(raw[n]);
    var other := Nearest(raw, n, n);
    if other.Some? {
      var k := other.value;
      NearestMatches(raw, n, k);
      forall z ensures OnGraph(done[k].points, x, z) <==> IsTotal(raw, k + 1, raw[n].stack.value, x, z) {
        StacksAddUp(raw, done, k, x, z);
      }
      StacksAddUp(raw, done, k, x, y);
      Stacked(raw, done, n, k);
      StackPoints(raw[n].points, done[k].points, raw[n].Mode(), x);
      StackIsSum(raw[n].points, done[k].points, raw[n].Mode(), x, y);
      OneMore(raw, done[k].points, n, k + 1, x, y);
    } else {
      NoneMatches(raw, n);
      Stacked(raw, done, n, n);
      OneMoreAlone(raw, n, x, y);
    }
  }

  lemma NoneMatches(raw: seq<Series>, n: nat)
    requires n < |raw| && forall k | 0 <= k < n :: raw[k].stack != raw[n].stack
    ensures Alone(raw, n)
  {
  }

  lemma NearestMatches(raw: seq<Series>, n: nat, k: nat)
    requires IsMatch(raw, n, k)
    ensures k < n < |raw| && raw[k].stack == raw[n].stack && forall i | k < i < n :: raw[i].stack != raw[n].stack
  {
  }

  lemma Stacked(raw: seq<Series>, done: seq<Series>, n: nat, k: nat)
    requires Processed(raw, done) && n < |raw| && raw[n].stack.Some?
    ensures IsMatch(raw, n, k) ==>
              && k < |done| && Stackable(raw[n]) && Sorted(done[k].points)
              && done[n].points == StackedOn(raw[n], done[k])
    ensures Alone(raw, n) ==> done[n] == raw[n]
  {
    assert Result(raw, done, n);
  }

  lemma OneMore(raw: seq<Series>, below: seq<Row>, n: nat, k: nat, x: real, y: real)
    requires k <= n < |raw| && raw[n].stack.Some? && forall i | k <= i < n :: raw[i].stack != raw[n].stack
    requires forall z :: OnGraph(below, x, z) <==> IsTotal(raw, k, raw[n].stack.value, x, z)
    ensures Summed(raw[n].points, below, raw[n].Mode(), x, y) <==> IsTotal(raw, n + 1, raw[n].stack.value, x, y)
  {
    hide OnGraph;
    forall z ensures IsTotal(raw, n, raw[n].stack.value, x, z) <==> OnGraph(below, x, z) {
      TotalSkips(raw, k, n, raw[n].stack.value, x, z);
    }
    if v: real, w: real :| OnGraph(raw[n].points, x, v) && IsTotal(raw, n, raw[n].stack.value, x, w) && AddUp(v, w, y) {
      SummedBy(raw[n].points, below, raw[n].Mode(), x, v, w);
    }
  }

  lemma OneMoreAlone(raw: seq<Series>, n: nat, x: real, y: real)
    requires n < |raw| && raw[n].stack.Some? && forall k | 0 <= k < n :: raw[k].stack != raw[n].stack
    ensures OnGraph(raw[n].points, x, y) <==> IsTotal(raw, n + 1, raw[n].stack.value, x, y)
  {
    hide OnGraph;
    forall w: real ensures IsTotal(raw, n, raw[n].stack.value, x, w) <==> w == 0.0 {
      TotalSkips(raw, 0, n, raw[n].stack.value, x, w);
    }
    assert OnGraph(raw[n].points, x, y) ==> IsTotal(raw, n, raw[n].stack.value, x, 0.0) && AddUp(y, 0.0, y);
  }

  lemma {:induction false} Nearest(raw: seq<Series>, n: nat, i: nat) returns (res: Option<nat>)
    requires i <= n < |raw| && forall k | i <= k < n :: raw[k].stack != raw[n].stack
    ensures res.Some? ==> IsMatch(raw, n, res.value)
    ensures res.None? ==> forall k | 0 <= k < n :: raw[k].stack != raw[n].stack
  {
    if i == 0 {
      res := None;
    } else if raw[i - 1].stack == raw[n].stack {
      res := Some(i - 1);
    } else {
      res := Nearest(raw, n, i - 1);
    }
  }

  // ---- every bar stands on the bars below it ---------------------------------------------------

  /** Bars with increasing keys, with or without gaps. */
  ghost predicate Upright(s: Series) {
    !s.lines && Increasing(s.points) && Fits(s.points, s.Mode())
  }

  /** How high the first n series of this key stand at x: the nearest one, if it has a bar
      there, and what that bar stands on. */
  ghost function Standing(raw: seq<Series>, n: nat, key: string, x: real): real
    requires n <= |raw|
  {
    if n == 0 then 0.0
    else if raw[n - 1].stack != Some(key) then Standing(raw, n - 1, key, x)
    else if From(raw[n - 1].points, 0, x) then ValueAt(raw[n - 1].points, 0, x) + Standing(raw, n - 1, key, x)
    else 0.0
  }

  /** Bar for bar: raised, with its start, by what it stands on. */
  ghost predicate Stands(bars: seq<Row>, points: seq<Row>, raw: seq<Series>, n: nat, key: string, bottom: bool)
    requires n <= |raw|
  {
    && |bars| == |points|
    && forall k | 0 <= k < |bars| ::
         points[k].Point? && OnTop(bars[k], points[k], Standing(raw, n, key, points[k].x), bottom)
  }

  lemma {:induction false} StandingSkips(raw: seq<Series>, k: nat, n: nat, key: string, x: real)
    requires k <= n <= |raw| && forall i | k <= i < n :: raw[i].stack != Some(key)
    ensures Standing(raw, n, key, x) == Standing(raw, k, key, x)
  {
    if k < n { StandingSkips(raw, k, n - 1, key, x); }
  }

  /** In a stack of bars each bar reaches from the top of the bar it stands on to its own
      value on top of that, and the bars of a series are as many as before, in their places. */
  lemma {:induction false} BarsStackUp(raw: seq<Series>, done: seq<Series>, n: nat)
    requires Processed(raw, done) && n < |done| && raw[n].stack.Some?
    requires forall k | 0 <= k <= n && raw[k].stack == raw[n].stack :: Upright(raw[k])
    ensures Increasing(done[n].points)
    ensures Stands(Points(done[n].points), Points(raw[n].points), raw, n, raw[n].stack.value, raw[n].withbottom)
    decreases n
  {
    hide Merge, IsMatch, Standing, Stands, Increasing, Result, Alone, Raised, Fits;
    assert Upright(raw[n]);
    var key := raw[n].stack.value;
    var other := Nearest(raw, n, n);
    if other.Some? {
      var k := other.value;
      NearestMatches(raw, n, k);
      assert Upright(raw[k]);
      BarsStackUp(raw, done, k);
      Stacked(raw, done, n, k);
      StackedBars(raw[n].points, done[k].points, raw[n].Mode());
      forall x ensures ValueAt(done[k].points, 0, x) == Standing(raw, n, key, x) {
        ValueStands(raw, done[k].points, k, n, key, x);
      }
      RaisedStands(raw, raw[n].points, done[k].points, done[n].points, n, key, raw[n].Mode());
    } else {
      NoneMatches(raw, n);
      Stacked(raw, done, n, n);
      forall x ensures Standing(raw, n, key, x) == 0.0 {
        StandingSkips(raw, 0, n, key, x);
        StandsOnNothing(raw, key, x);
      }
      AloneStands(raw, n);
    }
  }

  lemma StandsOnNothing(raw: seq<Series>, key: string, x: real)
    ensures Standing(raw, 0, key, x) == 0.0
  {
  }

  lemma AloneStands(raw: seq<Series>, n: nat)
    requires n < |raw| && Upright(raw[n]) && raw[n].stack.Some?
    requires forall x :: Standing(raw, n, raw[n].stack.value, x) == 0.0
    ensures Stands(Points(raw[n].points), Points(raw[n].points), raw, n, raw[n].stack.value, raw[n].withbottom)
  {
    hide Standing;
    var points := Points(raw[n].points);
    forall k | 0 <= k < |points| ensures points[k].Point? && (raw[n].withbottom ==> points[k].rest != []) {
      PointIn(raw[n].points, 0, points[k]);
    }
  }

  /** What the series below shows at x is how high everything up to it stands. */
  lemma ValueStands(raw: seq<Series>, below: seq<Row>, k: nat, n: nat, key: string, x: real)
    requires k < n < |raw| && raw[k].stack == Some(key) && forall i | k < i < n :: raw[i].stack != Some(key)
    requires Stands(Points(below), Points(raw[k].points), raw, k, key, raw[k].withbottom)
    ensures ValueAt(below, 0, x) == Standing(raw, n, key, x)
  {
    hide Stands, From;
    StandingSkips(raw, k + 1, n, key, x);
    ValueOfPoints(below, 0, x);
    ValueOfPoints(raw[k].points, 0, x);
    ValueOfStands(Points(below), Points(raw[k].points), raw, k, key, raw[k].withbottom, 0, x);
    FromPoints(raw[k].points, x);
  }

  lemma {:induction false} ValueOfStands(bars: seq<Row>, points: seq<Row>, raw: seq<Series>, n: nat, key: string,
      bottom: bool, j: nat, x: real)
    requires n <= |raw| && Stands(bars, points, raw, n, key, bottom) && j <= |bars|
    ensures ValueAt(bars, j, x) == if From(points, j, x) then ValueAt(points, j, x) + Standing(raw, n, key, x) else 0.0
    decreases |bars| - j
  {
    hide Standing;
    if j < |bars| { ValueOfStands(bars, points, raw, n, key, bottom, j + 1, x); }
  }

  lemma RaisedStands(raw: seq<Series>, P: seq<Row>, Q: seq<Row>, R: seq<Row>, n: nat, key: string, m: Stack.Mode)
    requires n <= |raw| && Increasing(P) && !m.fill && Raised(Points(R), Points(P), Q, 0, m)
    requires forall x :: ValueAt(Q, 0, x) == Standing(raw, n, key, x)
    ensures Stands(Points(R), Points(P), raw, n, key, m.bottom) && Increasing(R)
  {
    hide Standing, ValueAt, PointsFrom;
    PointsIncrease(P, 0);
    PointsIncrease(R, 0);
    var bars, points := Points(R), Points(P);
    forall k | 0 <= k < |bars|
      ensures points[k].Point? && OnTop(bars[k], points[k], Standing(raw, n, key, points[k].x), m.bottom)
    {
      assert Becomes(bars[k], points[k], Q, 0, m);
    }
  }

  // ---- rows and their points -------------------------------------------------------------------

  lemma {:induction false} PointIn(rows: seq<Row>, k: nat, r: Row)
    requires k <= |rows|
    ensures r in PointsFrom(rows, k) <==> r.Point? && r in rows[k..]
    decreases |rows| - k
  {
    if k < |rows| { PointIn(rows, k + 1, r); }
  }

  lemma FromPoints(rows: seq<Row>, x: real)
    ensures From(rows, 0, x) <==> From(Points(rows), 0, x)
  {
    hide PointsFrom;
    if l :| 0 <= l < |rows| && rows[l].Point? && rows[l].x == x {
      PointIn(rows, 0, rows[l]);
    }
    if l :| 0 <= l < |Points(rows)| && Points(rows)[l].Point? && Points(rows)[l].x == x {
      PointIn(rows, 0, Points(rows)[l]);
    }
  }

  /** Keys increase from row k on. */
  ghost predicate IncreasingFrom(rows: seq<Row>, k: nat) {
    forall a, b | k <= a < b < |rows| && rows[a].Point? && rows[b].Point? :: rows[a].x < rows[b].x
  }

  lemma {:induction false} PointsIncrease(rows: seq<Row>, k: nat)
    requires k <= |rows|
    ensures IncreasingFrom(rows, k) <==> Increasing(PointsFrom(rows, k))
    ensures IncreasingFrom(rows, 0) <==> Increasing(rows)
    decreases |rows| - k
  {
    hide PointsFrom, After;
    if k < |rows| {
      PointsIncrease(rows, k + 1);
      FirstIncreases(rows, k);
      AfterPoints(rows, k + 1, if rows[k].Point? then rows[k].x else 0.0);
      PointsStep(rows, k);
      hide IncreasingFrom, Increasing;
      if rows[k].Point? { ConsIncreases(rows[k], PointsFrom(rows, k + 1)); }
    } else {
      PointsEnd(rows);
    }
  }

  lemma PointsStep(rows: seq<Row>, k: nat)
    requires k < |rows|
    ensures PointsFrom(rows, k) == if rows[k].Gap? then PointsFrom(rows, k + 1) else [rows[k]] + PointsFrom(rows, k + 1)
  {
    assert [] + PointsFrom(rows, k + 1) == PointsFrom(rows, k + 1);
  }

  lemma PointsEnd(rows: seq<Row>)
    ensures PointsFrom(rows, |rows|) == []
  {
  }

  lemma FirstIncreases(rows: seq<Row>, k: nat)
    requires k < |rows|
    ensures IncreasingFrom(rows, k) <==>
            IncreasingFrom(rows, k + 1) && (rows[k].Point? ==> After(rows, k + 1, rows[k].x))
  {
  }

  lemma {:induction false} AfterPoints(rows: seq<Row>, k: nat, x: real)
    requires k <= |rows|
    ensures After(rows, k, x) <==> forall q | q in PointsFrom(rows, k) && q.Point? :: x < q.x
    decreases |rows| - k
  {
    if k < |rows| {
      AfterPoints(rows, k + 1, x);
      assert After(rows, k, x) <==> After(rows, k + 1, x) && (rows[k].Point? ==> x < rows[k].x);
      hide After;
    }
  }

  lemma ConsIncreases(r: Row, rest: seq<Row>)
    requires r.Point?
    ensures Increasing([r] + rest) <==> Increasing(rest) && forall q | q in rest && q.Point? :: r.x < q.x
  {
    var all := [r] + rest;
    if Increasing(all) {
      forall a, b | 0 <= a < b < |rest| && rest[a].Point? && rest[b].Point? ensures rest[a].x < rest[b].x {
        assert all[a + 1] == rest[a] && all[b + 1] == rest[b];
      }
      forall q | q in rest && q.Point? ensures r.x < q.x {
        var l :| 0 <= l < |rest| && rest[l] == q;
        assert all[0] == r && all[l + 1] == q;
      }
    }
  }

  lemma {:induction false} ValueShifts(r: Row, rows: seq<Row>, j: nat, x: real)
    requires j <= |rows|
    ensures ValueAt([r] + rows, j + 1, x) == ValueAt(rows, j, x)
    decreases |rows| - j
  {
    if j < |rows| { ValueShifts(r, rows, j + 1, x); }
  }

  lemma {:induction false} ValueOfPoints(rows: seq<Row>, j: nat, x: real)
    requires j <= |rows|
    ensures ValueAt(rows, j, x) == ValueAt(PointsFrom(rows, j), 0, x)
    decreases |rows| - j
  {
    if j < |rows| {
      ValueOfPoints(rows, j + 1, x);
      var rest := PointsFrom(rows, j + 1);
      if rows[j].Gap? {
        assert [] + rest == rest;
      } else {
        assert PointsFrom(rows, j) == [rows[j]] + rest;
        ValueOfCons(rows[j], rest, x);
      }
    }
  }

  lemma ValueOfCons(r: Row, rows: seq<Row>, x: real)
    ensures ValueAt([r] + rows, 0, x) == if r.Point? && r.x == x then r.y else ValueAt(rows, 0, x)
  {
    ValueShifts(r, rows, 0, x);
  }

  // ---- when bars add up ----------------------------------------------------------------------------

  /** The sum of all bars the first n series of this key have at x. */
  ghost function AllBars(raw: seq<Series>, n: nat, key: string, x: real): real
    requires n <= |raw|
  {
    if n == 0 then 0.0
    else AllBars(raw, n - 1, key, x) + if raw[n - 1].stack == Some(key) then ValueAt(raw[n - 1].points, 0, x) else 0.0
  }

  /** The nearest series of this key among the first n that has no bar at x: its number, or
      none at all. */
  ghost function Missing(raw: seq<Series>, n: nat, key: string, x: real): (k: nat)
    requires n <= |raw|
    ensures k <= n
  {
    if n == 0 then 0
    else if raw[n - 1].stack == Some(key) && !From(raw[n - 1].points, 0, x) then n - 1
    else Missing(raw, n - 1, key, x)
  }

  lemma {:induction false} StandingIs(raw: seq<Series>, n: nat, key: string, x: real)
    requires n <= |raw|
    ensures AllBars(raw, n, key, x) == Standing(raw, n, key, x) + AllBars(raw, Missing(raw, n, key, x), key, x)
  {
    if n > 0 {
      StandingIs(raw, n - 1, key, x);
      NoBarThere(raw[n - 1].points, 0, x);
    }
  }

  lemma {:induction false} NoBarThere(rows: seq<Row>, j: nat, x: real)
    requires j <= |rows|
    ensures !From(rows, j, x) ==> ValueAt(rows, j, x) == 0.0
    decreases |rows| - j
  {
    if j < |rows| { NoBarThere(rows, j + 1, x); }
  }

  /** A bar stands on the sum of all bars below it just when those below the nearest missing
      bar come to nothing; where no bar is missing there are none. */
  lemma BarsAddUp(raw: seq<Series>, n: nat, key: string, x: real)
    requires n <= |raw|
    ensures Standing(raw, n, key, x) == AllBars(raw, n, key, x) <==>
            AllBars(raw, Missing(raw, n, key, x), key, x) == 0.0
    ensures (forall k | 0 <= k < n && raw[k].stack == Some(key) :: From(raw[k].points, 0, x)) ==>
              Standing(raw, n, key, x) == AllBars(raw, n, key, x)
  {
    StandingIs(raw, n, key, x);
    if forall k | 0 <= k < n && raw[k].stack == Some(key) :: From(raw[k].points, 0, x) { NoneMissing(raw, n, key, x); }
  }

  lemma {:induction false} NoneMissing(raw: seq<Series>, n: nat, key: string, x: real)
    requires n <= |raw| && forall k | 0 <= k < n && raw[k].stack == Some(key) :: From(raw[k].points, 0, x)
    ensures Missing(raw, n, key, x) == 0
  {
    hide From;
    if n > 0 { NoneMissing(raw, n - 1, key, x); }
  }

  /** Three bars at one place, but the middle series lacks its: the upper bar is drawn over
      the lower one, from nothing up. */
  lemma BarsOverlap()
    ensures var low := Series(Some("a"), false, true, [Point(1.0, 3.0, [0.0])]);
            var middle := Series(Some("a"), false, true, [Point(2.0, 1.0, [0.0])]);
            var high := Series(Some("a"), false, true, [Point(1.0, 2.0, [0.0])]);
            var raw := [low, middle, high];
            && Upright(low) && Upright(middle) && Upright(high)
            && Standing(raw, 2, "a", 1.0) == 0.0 && AllBars(raw, 2, "a", 1.0) == 3.0
            && forall done: seq<Series> | Processed(raw, done) :: Points(done[2].points) == [Point(1.0, 2.0, [0.0])]
  {
    var low := Series(Some("a"), false, true, [Point(1.0, 3.0, [0.0])]);
    var middle := Series(Some("a"), false, true, [Point(2.0, 1.0, [0.0])]);
    var high := Series(Some("a"), false, true, [Point(1.0, 2.0, [0.0])]);
    var raw := [low, middle, high];
    assert !From(middle.points, 0, 1.0);
    assert ValueAt(low.points, 0, 1.0) == 3.0 && ValueAt(middle.points, 0, 1.0) == 0.0;
    assert AllBars(raw, 0, "a", 1.0) == 0.0 && AllBars(raw, 1, "a", 1.0) == 3.0;
    forall done: seq<Series> | Processed(raw, done) ensures Points(done[2].points) == [Point(1.0, 2.0, [0.0])] {
      BarsStackUp(raw, done, 2);
      OneBar(high.points[0]);
      var bars := Points(done[2].points);
      assert raw[2] == high && Points(high.points) == high.points;
      assert OnTop(bars[0], high.points[0], Standing(raw, 2, "a", 1.0), true);
      assert bars[0].rest == [0.0] && bars == [bars[0]];
    }
  }

  lemma OneBar(p: Row)
    requires p.Point?
    ensures Points([p]) == [p]
  {
    assert PointsFrom([p], 1) == [];
  }
}
