/** Stacking one series on another, and filling between two: a walk along both that
    interpolates where only one has a point. */
module Stack {
  import opened Polylines

  /** `bottom`: rows have a third column that holds where the fill starts. `fill`: set that
      column to the other series instead of adding the other series to the value. */
  datatype Mode = Mode(lines: bool, bottom: bool, fill: bool)

  /** Neighbouring points differ in x. */
  ghost predicate NoVertical(rows: seq<Row>) {
    forall k | 0 <= k < |rows| - 1 && rows[k].Point? && rows[k + 1].Point? :: rows[k].x != rows[k + 1].x
  }

  ghost predicate Sorted(rows: seq<Row>) {
    forall k, l | 0 <= k < l < |rows| && rows[k].Point? && rows[l].Point? :: rows[k].x <= rows[l].x
  }

  /** No point of A before i is beyond one of B from j on. */
  ghost predicate Behind(A: seq<Row>, i: nat, B: seq<Row>, j: nat) {
    forall k, l | 0 <= k < i && k < |A| && j <= l < |B| && A[k].Point? && B[l].Point? :: A[k].x <= B[l].x
  }

  /** Interpolating will not divide by zero: for sorted series, with vertical steps or
      without, and for any others without vertical steps. */
  ghost predicate Ready(P: seq<Row>, Q: seq<Row>, i: nat, j: nat) {
    || (NoVertical(P) && NoVertical(Q))
    || (Sorted(P) && Sorted(Q) && Behind(P, i, Q, j) && Behind(Q, j, P, i))
  }

  lemma SortedReady(P: seq<Row>, Q: seq<Row>)
    requires Sorted(P) && Sorted(Q)
    ensures Ready(P, Q, 0, 0)
  {
  }

  predicate Fits(rows: seq<Row>, m: Mode) {
    m.bottom ==> forall k | 0 <= k < |rows| && rows[k].Point? :: rows[k].rest != []
  }

  /** A row at x: `y` is the series' own value, `bottom` what it stands on. */
  function Put(x: real, y: real, bottom: real, rest: seq<real>, m: Mode): Row
    requires m.bottom ==> rest != []
  {
    Point(x, if m.fill then y else y + bottom,
          if !m.bottom then rest else if m.fill then rest[0 := bottom] else rest[0 := rest[0] + bottom])
  }

  datatype Step = Step(out: seq<Row>, i: nat, j: nat, fromgap: bool)

  /** One turn of the walk, at point i of the series and point j of the other one. */
  function Next(P: seq<Row>, Q: seq<Row>, i: nat, j: nat, fromgap: bool, m: Mode): Step
    requires i < |P| && j <= |Q| && Fits(P, m) && Ready(P, Q, i, j)
  {
    if P[i].Gap? then Step([Gap], i + 1, j, fromgap)
    else if j == |Q| then Step(if m.lines then [] else [P[i]], i + 1, j, fromgap)
    else if Q[j].Gap? then Step([Gap], i, j + 1, true)
    else if P[i].x == Q[j].x then Step([Put(P[i].x, P[i].y, Q[j].y, P[i].rest, m)], i + 1, j + 1, false)
    else if P[i].x > Q[j].x then Step(AtOther(P, Q, i, j, m), i, j + 1, false)
    else if fromgap && m.lines then Step([], i + 1, j, fromgap)
    else Step([Put(P[i].x, P[i].y, Below(P, Q, i, j, m), P[i].rest, m)], i + 1, j, false)
  }

  function AtOther(P: seq<Row>, Q: seq<Row>, i: nat, j: nat, m: Mode): seq<Row>
    requires i < |P| && j < |Q| && P[i].Point? && Q[j].Point? && Q[j].x < P[i].x
    requires Fits(P, m) && Ready(P, Q, i, j)
  {
    if m.lines && i > 0 && P[i - 1].Point? then
      [Put(Q[j].x, Line(P[i], P[i - 1], Q[j].x), Q[j].y, P[i].rest, m)]
    else []
  }

  function Below(P: seq<Row>, Q: seq<Row>, i: nat, j: nat, m: Mode): real
    requires i < |P| && j < |Q| && P[i].Point? && Q[j].Point? && P[i].x < Q[j].x && Ready(P, Q, i, j)
  {
    if m.lines && j > 0 && Q[j - 1].Point? then Line(Q[j], Q[j - 1], P[i].x) else 0.0
  }

  /** A turn keeps the points passed behind those ahead. */
  lemma NextReady(P: seq<Row>, Q: seq<Row>, i: nat, j: nat, fromgap: bool, m: Mode)
    requires i < |P| && j <= |Q| && Fits(P, m) && Ready(P, Q, i, j)
    ensures var s := Next(P, Q, i, j, fromgap, m); s.i <= |P| && s.j <= |Q| && Ready(P, Q, s.i, s.j)
  {
  }

  function Merge(P: seq<Row>, Q: seq<Row>, i: nat, j: nat, fromgap: bool, m: Mode): seq<Row>
    requires i <= |P| && j <= |Q| && Fits(P, m) && Ready(P, Q, i, j)
    decreases |P| - i + |Q| - j
  {
    if i == |P| then []
    else
      NextReady(P, Q, i, j, fromgap, m);
      var s := Next(P, Q, i, j, fromgap, m);
      s.out + Merge(P, Q, s.i, s.j, s.fromgap, m)
  }

  lemma MergeDone(P: seq<Row>, Q: seq<Row>, j: nat, fromgap: bool, m: Mode, before: seq<Row>)
    requires j <= |Q| && Fits(P, m) && Ready(P, Q, |P|, j)
    ensures before + Merge(P, Q, |P|, j, fromgap, m) == before
  {
  }

  lemma MergeStep(P: seq<Row>, Q: seq<Row>, i: nat, j: nat, fromgap: bool, m: Mode, before: seq<Row>)
    requires i < |P| && j <= |Q| && Fits(P, m) && Ready(P, Q, i, j)
    ensures var s := Next(P, Q, i, j, fromgap, m);
            before + Merge(P, Q, i, j, fromgap, m) == (before + s.out) + Merge(P, Q, s.i, s.j, s.fromgap, m)
  {
  }

  method StackData(points: seq<Row>, otherpoints: seq<Row>, withlines: bool, withbottom: bool)
    returns (newpoints: seq<Row>)
    requires Fits(points, Mode(withlines, withbottom, false)) && Ready(points, otherpoints, 0, 0)
    ensures newpoints == Merge(points, otherpoints, 0, 0, true, Mode(withlines, withbottom, false))
  {
    hide Merge, Ready, Put, AtOther, Below, Fits;
    newpoints := [];
    var fromgap, i, j := true, 0, 0;
    ghost var m := Mode(withlines, withbottom, false);
    ghost var whole := Merge(points, otherpoints, 0, 0, true, m);
    while true
      invariant 0 <= i <= |points| && 0 <= j <= |otherpoints|
      invariant Ready(points, otherpoints, i, j)
      invariant newpoints + Merge(points, otherpoints, i, j, fromgap, m) == whole
      decreases |points| - i + |otherpoints| - j
    {
      if i >= |points| {
        MergeDone(points, otherpoints, j, fromgap, m, newpoints);
        break;
      }
      ghost var s, before := Next(points, otherpoints, i, j, fromgap, m), newpoints;
      MergeStep(points, otherpoints, i, j, fromgap, m, newpoints);
      NextReady(points, otherpoints, i, j, fromgap, m);
      if points[i].Gap? {
        newpoints := newpoints + [points[i]];
        i := i + 1;
      } else if j >= |otherpoints| {
        if !withlines { newpoints := newpoints + [points[i]]; }
        i := i + 1;
      } else if otherpoints[j].Gap? {
        newpoints := newpoints + [Gap];
        fromgap := true;
        j := j + 1;
      } else {
        newpoints, i, j, fromgap := StackPair(points, otherpoints, i, j, fromgap, withlines, withbottom, newpoints);
      }
      assert newpoints == before + s.out && (i, j, fromgap) == (s.i, s.j, s.fromgap);
    }
  }

  /** Both have a point. */
  method StackPair(points: seq<Row>, otherpoints: seq<Row>, i0: nat, j0: nat, fromgap0: bool,
      withlines: bool, withbottom: bool, rows: seq<Row>)
    returns (newpoints: seq<Row>, i: nat, j: nat, fromgap: bool)
    requires Fits(points, Mode(withlines, withbottom, false)) && Ready(points, otherpoints, i0, j0)
    requires i0 < |points| && j0 < |otherpoints| && points[i0].Point? && otherpoints[j0].Point?
    ensures var s := Next(points, otherpoints, i0, j0, fromgap0, Mode(withlines, withbottom, false));
            newpoints == rows + s.out && i == s.i && j == s.j && fromgap == s.fromgap
  {
    newpoints, i, j, fromgap := rows, i0, j0, fromgap0;
    var l := |newpoints|;
    var px, py, qx, qy, bottom := points[i].x, points[i].y, otherpoints[j].x, otherpoints[j].y, 0.0;
    if px == qx {
      newpoints := newpoints + [points[i]];
      newpoints := newpoints[l := newpoints[l].(y := newpoints[l].y + qy)];
      bottom := qy;
      i, j := i + 1, j + 1;
    } else if px > qx {
      if withlines && i > 0 && points[i - 1].Point? {
        var intery := Interpolate(px, py, points[i - 1].x, points[i - 1].y, qx);
        newpoints := newpoints + [Point(qx, intery + qy, points[i].rest)];
        bottom := qy;
      }
      j := j + 1;
    } else {
      if fromgap && withlines {
        i := i + 1;
        return;
      }
      newpoints := newpoints + [points[i]];
      if withlines && j > 0 && otherpoints[j - 1].Point? {
        bottom := Interpolate(qx, qy, otherpoints[j - 1].x, otherpoints[j - 1].y, px);
      }
      newpoints := newpoints[l := newpoints[l].(y := newpoints[l].y + bottom)];
      i := i + 1;
    }
    fromgap := false;
    if l != |newpoints| && withbottom {
      newpoints := newpoints[l := newpoints[l].(rest := newpoints[l].rest[0 := newpoints[l].rest[0] + bottom])];
    }
  }

  method ComputeFillBottoms(points: seq<Row>, otherpoints: seq<Row>, withlines: bool, withbottom: bool)
    returns (newpoints: seq<Row>)
    requires Fits(points, Mode(withlines, withbottom, true)) && Ready(points, otherpoints, 0, 0)
    ensures newpoints == Merge(points, otherpoints, 0, 0, true, Mode(withlines, withbottom, true))
  {
    hide Merge, Ready, Put, AtOther, Below, Fits;
    newpoints := [];
    var fromgap, i, j := true, 0, 0;
    ghost var m := Mode(withlines, withbottom, true);
    ghost var whole := Merge(points, otherpoints, 0, 0, true, m);
    while true
      invariant 0 <= i <= |points| && 0 <= j <= |otherpoints|
      invariant Ready(points, otherpoints, i, j)
      invariant newpoints + Merge(points, otherpoints, i, j, fromgap, m) == whole
      decreases |points| - i + |otherpoints| - j
    {
      if i >= |points| {
        MergeDone(points, otherpoints, j, fromgap, m, newpoints);
        break;
      }
      ghost var s, before := Next(points, otherpoints, i, j, fromgap, m), newpoints;
      MergeStep(points, otherpoints, i, j, fromgap, m, newpoints);
      NextReady(points, otherpoints, i, j, fromgap, m);
      if points[i].Gap? {
        newpoints := newpoints + [points[i]];
        i := i + 1;
      } else if j >= |otherpoints| {
        if !withlines { newpoints := newpoints + [points[i]]; }
        i := i + 1;
      } else if otherpoints[j].Gap? {
        newpoints := newpoints + [Gap];
        fromgap := true;
        j := j + 1;
      } else {
        newpoints, i, j, fromgap := FillPair(points, otherpoints, i, j, fromgap, withlines, withbottom, newpoints);
      }
      assert newpoints == before + s.out && (i, j, fromgap) == (s.i, s.j, s.fromgap);
    }
  }

  /** Both have a point. */
  method FillPair(points: seq<Row>, otherpoints: seq<Row>, i0: nat, j0: nat, fromgap0: bool,
      withlines: bool, withbottom: bool, rows: seq<Row>)
    returns (newpoints: seq<Row>, i: nat, j: nat, fromgap: bool)
    requires Fits(points, Mode(withlines, withbottom, true)) && Ready(points, otherpoints, i0, j0)
    requires i0 < |points| && j0 < |otherpoints| && points[i0].Point? && otherpoints[j0].Point?
    ensures var s := Next(points, otherpoints, i0, j0, fromgap0, Mode(withlines, withbottom, true));
            newpoints == rows + s.out && i == s.i && j == s.j && fromgap == s.fromgap
  {
    newpoints, i, j, fromgap := rows, i0, j0, fromgap0;
    var l := |newpoints|;
    var px, py, qx, qy, bottom := points[i].x, points[i].y, otherpoints[j].x, otherpoints[j].y, 0.0;
    if px == qx {
      newpoints := newpoints + [points[i]];
      bottom := qy;
      i, j := i + 1, j + 1;
    } else if px > qx {
      if withlines && i > 0 && points[i - 1].Point? {
        var intery := Interpolate(px, py, points[i - 1].x, points[i - 1].y, qx);
        newpoints := newpoints + [Point(qx, intery, points[i].rest)];
        bottom := qy;
      }
      j := j + 1;
    } else {
      if fromgap && withlines {
        i := i + 1;
        return;
      }
      newpoints := newpoints + [points[i]];
      if withlines && j > 0 && otherpoints[j - 1].Point? {
        bottom := Interpolate(qx, qy, otherpoints[j - 1].x, otherpoints[j - 1].y, px);
      }
      i := i + 1;
    }
    fromgap := false;
    if l != |newpoints| && withbottom {
      newpoints := newpoints[l := newpoints[l].(rest := newpoints[l].rest[0 := bottom])];
    }
  }

  // ---- what the walk yields is sorted again ---------------------------------------------------

  ghost predicate NotBefore(rows: seq<Row>, k: nat, b: real) {
    forall l | k <= l < |rows| && rows[l].Point? :: rows[l].x >= b
  }

  lemma {:induction false} MergeNotBefore(P: seq<Row>, Q: seq<Row>, i: nat, j: nat, fromgap: bool, m: Mode, b: real)
    requires i <= |P| && j <= |Q| && Fits(P, m) && Ready(P, Q, i, j) && NotBefore(P, i, b) && NotBefore(Q, j, b)
    ensures NotBefore(Merge(P, Q, i, j, fromgap, m), 0, b)
    decreases |P| - i + |Q| - j
  {
    hide Line, Interpolate, NoVertical, Sorted, Behind, Ready;
    if i < |P| {
      var s := Next(P, Q, i, j, fromgap, m);
      NextReady(P, Q, i, j, fromgap, m);
      MergeNotBefore(P, Q, s.i, s.j, s.fromgap, m, b);
    }
  }

  lemma NextSorted(P: seq<Row>, Q: seq<Row>, i: nat, j: nat, fromgap: bool, m: Mode)
    requires i < |P| && j <= |Q| && Fits(P, m) && Ready(P, Q, i, j) && Sorted(P) && Sorted(Q)
    ensures var s := Next(P, Q, i, j, fromgap, m);
            && |s.out| <= 1 && s.i <= |P| && s.j <= |Q| && s.i + s.j > i + j
            && (s.out != [] && s.out[0].Point? ==> NotBefore(P, s.i, s.out[0].x) && NotBefore(Q, s.j, s.out[0].x))
  {
    hide Line, Interpolate;
  }

  lemma SortedCons(r: Row, rows: seq<Row>)
    requires Sorted(rows) && (r.Point? ==> NotBefore(rows, 0, r.x))
    ensures Sorted([r] + rows)
  {
  }

  lemma {:induction false} MergeSorted(P: seq<Row>, Q: seq<Row>, i: nat, j: nat, fromgap: bool, m: Mode)
    requires i <= |P| && j <= |Q| && Fits(P, m) && Ready(P, Q, i, j) && Sorted(P) && Sorted(Q)
    ensures Sorted(Merge(P, Q, i, j, fromgap, m))
    decreases |P| - i + |Q| - j
  {
    hide Next, Ready, NotBefore;
    if i < |P| {
      var s := Next(P, Q, i, j, fromgap, m);
      NextReady(P, Q, i, j, fromgap, m);
      NextSorted(P, Q, i, j, fromgap, m);
      MergeSorted(P, Q, s.i, s.j, s.fromgap, m);
      var R := Merge(P, Q, s.i, s.j, s.fromgap, m);
      if s.out == [] {
        assert s.out + R == R;
      } else {
        assert s.out == [s.out[0]];
        if s.out[0].Point? { MergeNotBefore(P, Q, s.i, s.j, s.fromgap, m, s.out[0].x); }
        SortedCons(s.out[0], R);
      }
    }
  }

  // ---- what the walk yields for two lines ---------------------------------------------------------

  /** The points walked past come before those ahead. */
  ghost predicate Apart(P: seq<Row>, Q: seq<Row>, i: nat, j: nat) {
    && (forall k, l | 0 <= k < i && k < |P| && j <= l < |Q| && P[k].Point? && Q[l].Point? :: P[k].x < Q[l].x)
    && (forall k, l | i <= k < |P| && 0 <= l < j && l < |Q| && P[k].Point? && Q[l].Point? :: Q[l].x < P[k].x)
  }

  /** The walk is at row i of the series and row j of the other one. */
  ghost predicate Walking(P: seq<Row>, Q: seq<Row>, i: nat, j: nat, fromgap: bool) {
    && i <= |P| && j <= |Q| && Increasing(P) && Increasing(Q) && Apart(P, Q, i, j)
    && (fromgap <==> !Goes(Q, j))
  }

  /** A line comes up to row i. */
  predicate Goes(rows: seq<Row>, i: nat) { 0 < i <= |rows| && rows[i - 1].Point? }

  lemma IncreasingReady(P: seq<Row>, Q: seq<Row>, i: nat, j: nat)
    requires Increasing(P) && Increasing(Q)
    ensures Ready(P, Q, i, j)
  {
  }

  /** What is to be drawn: the sum of both, or for a fill the series itself, where both have a
      value. */
  ghost predicate Summed(P: seq<Row>, Q: seq<Row>, m: Mode, x: real, y: real) {
    exists p: real, q: real :: OnGraph(P, x, p) && OnGraph(Q, x, q) && y == p + Share(q, m)
  }

  function Share(q: real, m: Mode): real { if m.fill then 0.0 else q }

  /** The last row put: where both lines come along, it is right and joins the next one. */
  ghost predicate LastOk(P: seq<Row>, Q: seq<Row>, i: nat, j: nat, m: Mode, last: Row) {
    if Goes(P, i) && Goes(Q, j) then
      && last.Point? && P[i - 1].x <= last.x && Q[j - 1].x <= last.x
      && (last.x == P[i - 1].x || last.x == Q[j - 1].x)
      && Summed(P, Q, m, last.x, last.y)
    else last.Gap?
  }

  function Latest(last: Row, out: seq<Row>): Row { if out == [] then last else out[|out| - 1] }

  lemma SummedBy(P: seq<Row>, Q: seq<Row>, m: Mode, x: real, p: real, q: real)
    requires OnGraph(P, x, p) && OnGraph(Q, x, q)
    ensures Summed(P, Q, m, x, p + Share(q, m))
  {
  }

  // Both rows are points: what the turn puts, and what is drawn up to there.

  predicate BothPoints(P: seq<Row>, Q: seq<Row>, i: nat, j: nat) {
    i < |P| && j < |Q| && P[i].Point? && Q[j].Point?
  }

  /** The turn's row is where one of the two has its point. */
  function Nearer(P: seq<Row>, Q: seq<Row>, i: nat, j: nat): real
    requires BothPoints(P, Q, i, j)
  {
    if P[i].x <= Q[j].x then P[i].x else Q[j].x
  }

  /** A row is put if both have a value there, and it is right. */
  lemma PutIsSum(P: seq<Row>, Q: seq<Row>, i: nat, j: nat, fromgap: bool, m: Mode)
    requires Walking(P, Q, i, j, fromgap) && Fits(P, m) && m.lines && BothPoints(P, Q, i, j)
    ensures Ready(P, Q, i, j)
    ensures var out, c := Next(P, Q, i, j, fromgap, m).out, Nearer(P, Q, i, j);
            && |out| <= 1
            && (out != [] <==> (P[i].x == c || Goes(P, i)) && (Q[j].x == c || Goes(Q, j)))
            && (out != [] ==> out[0].Point? && out[0].x == c && Summed(P, Q, m, c, out[0].y))
  {
    hide Line, Interpolate, OnGraph, Summed, Ready;
    IncreasingReady(P, Q, i, j);
    var out := Next(P, Q, i, j, fromgap, m).out;
    if P[i].x == Q[j].x {
      PutAtBoth(P, Q, i, j, m);
    } else if P[i].x > Q[j].x {
      if Goes(P, i) {
        PutAtOther(P, Q, i, j, m);
      }
    } else if !fromgap {
      PutAtOwn(P, Q, i, j, m);
    }
  }

  lemma PutAtBoth(P: seq<Row>, Q: seq<Row>, i: nat, j: nat, m: Mode)
    requires BothPoints(P, Q, i, j) && P[i].x == Q[j].x
    ensures Summed(P, Q, m, P[i].x, P[i].y + Share(Q[j].y, m))
  {
    assert MarkAt(P, i, P[i].x, P[i].y) && MarkAt(Q, j, Q[j].x, Q[j].y);
    SummedBy(P, Q, m, P[i].x, P[i].y, Q[j].y);
  }

  lemma PutAtOther(P: seq<Row>, Q: seq<Row>, i: nat, j: nat, m: Mode)
    requires Increasing(P) && Increasing(Q) && Apart(P, Q, i, j) && BothPoints(P, Q, i, j)
    requires Q[j].x < P[i].x && Goes(P, i)
    ensures P[i - 1].x < Q[j].x
    ensures Summed(P, Q, m, Q[j].x, Line(P[i], P[i - 1], Q[j].x) + Share(Q[j].y, m))
  {
    hide Interpolate;
    LineReversed(P[i - 1], P[i], Q[j].x);
    assert JoinAt(P, i, Q[j].x, Line(P[i], P[i - 1], Q[j].x)) && MarkAt(Q, j, Q[j].x, Q[j].y);
    SummedBy(P, Q, m, Q[j].x, Line(P[i], P[i - 1], Q[j].x), Q[j].y);
  }

  lemma PutAtOwn(P: seq<Row>, Q: seq<Row>, i: nat, j: nat, m: Mode)
    requires Increasing(P) && Increasing(Q) && Apart(P, Q, i, j) && BothPoints(P, Q, i, j)
    requires P[i].x < Q[j].x && Goes(Q, j)
    ensures Q[j - 1].x < P[i].x
    ensures Summed(P, Q, m, P[i].x, P[i].y + Share(Line(Q[j], Q[j - 1], P[i].x), m))
  {
    hide Interpolate;
    LineReversed(Q[j - 1], Q[j], P[i].x);
    assert JoinAt(Q, j, P[i].x, Line(Q[j], Q[j - 1], P[i].x)) && MarkAt(P, i, P[i].x, P[i].y);
    SummedBy(P, Q, m, P[i].x, P[i].y, Line(Q[j], Q[j - 1], P[i].x));
  }

  /** The value of a line just before its row i, where it comes along. */
  lemma OnUpTo(rows: seq<Row>, i: nat, x: real, y: real)
    requires Increasing(rows) && i < |rows| && rows[i].Point? && Past(rows, i, x) && x <= rows[i].x
    ensures Goes(rows, i) ==> (OnGraph(rows, x, y) <==> y == Line(rows[i - 1], rows[i], x))
    ensures !Goes(rows, i) && x < rows[i].x ==> !OnGraph(rows, x, y)
    ensures x == rows[i].x ==> (OnGraph(rows, x, y) <==> y == rows[i].y)
  {
    hide OnGraph, Line;
    if Goes(rows, i) {
      OnSegment(rows, i, x, y);
    } else if x < rows[i].x {
      OnNothing(rows, i, x, y);
    }
    if x == rows[i].x { OnPoint(rows, i, y); }
  }

  /** Up to the turn's row, the sum is the line from the last row to it. */
  lemma SumUpTo(P: seq<Row>, Q: seq<Row>, i: nat, j: nat, fromgap: bool, m: Mode, last: Row, x: real, y: real)
    requires Walking(P, Q, i, j, fromgap) && Fits(P, m) && m.lines && BothPoints(P, Q, i, j)
    requires LastOk(P, Q, i, j, m, last) && Past(P, i, x) && Past(Q, j, x) && x <= Nearer(P, Q, i, j)
    ensures Ready(P, Q, i, j)
    ensures var out := Next(P, Q, i, j, fromgap, m).out;
            Summed(P, Q, m, x, y) <==> out != [] && (Joins(last, out[0], x, y) || Marks(out[0], x, y))
  {
    hide Next, OnGraph, Line, Interpolate, Ready;
    PutIsSum(P, Q, i, j, fromgap, m);
    var out, c := Next(P, Q, i, j, fromgap, m).out, Nearer(P, Q, i, j);
    if Goes(P, i) && Goes(Q, j) {
      SumOnLine(P, Q, i, j, m, last, out[0], x, y);
    } else if x == c {
      if out != [] { OneSum(P, Q, m, c, y, out[0].y); }
      else { NoSum(P, Q, i, j, m, x, y); }
    } else {
      NoSum(P, Q, i, j, m, x, y);
    }
  }

  lemma OneSum(P: seq<Row>, Q: seq<Row>, m: Mode, x: real, y: real, z: real)
    requires Increasing(P) && Increasing(Q) && Summed(P, Q, m, x, z)
    ensures Summed(P, Q, m, x, y) <==> y == z
  {
    hide OnGraph;
    var p: real, q: real :| OnGraph(P, x, p) && OnGraph(Q, x, q) && z == p + Share(q, m);
    if p': real, q': real :| OnGraph(P, x, p') && OnGraph(Q, x, q') && y == p' + Share(q', m) {
      OneValue(P, x, p, p');
      OneValue(Q, x, q, q');
    }
  }

  /** Where a line that does not come along has no point, there is no sum. */
  lemma NoSum(P: seq<Row>, Q: seq<Row>, i: nat, j: nat, m: Mode, x: real, y: real)
    requires Increasing(P) && Increasing(Q) && BothPoints(P, Q, i, j) && Past(P, i, x) && Past(Q, j, x)
    requires x <= P[i].x && x <= Q[j].x
    requires (!Goes(P, i) && x < P[i].x) || (!Goes(Q, j) && x < Q[j].x)
    ensures !Summed(P, Q, m, x, y)
  {
    hide OnGraph;
    if p: real, q: real :| OnGraph(P, x, p) && OnGraph(Q, x, q) && y == p + Share(q, m) {
      OnUpTo(P, i, x, p);
      OnUpTo(Q, j, x, q);
    }
  }

  lemma SumOnLine(P: seq<Row>, Q: seq<Row>, i: nat, j: nat, m: Mode, last: Row, r: Row, x: real, y: real)
    requires Increasing(P) && Increasing(Q) && Apart(P, Q, i, j) && BothPoints(P, Q, i, j)
    requires Goes(P, i) && Goes(Q, j) && LastOk(P, Q, i, j, m, last)
    requires r.Point? && r.x == Nearer(P, Q, i, j) && Summed(P, Q, m, r.x, r.y)
    requires Past(P, i, x) && Past(Q, j, x) && x <= r.x
    ensures Summed(P, Q, m, x, y) <==> Joins(last, r, x, y) || Marks(r, x, y)
  {
    hide OnGraph, Interpolate;
    SumIsLine(P, Q, i, j, m, last.x, last.y);
    SumIsLine(P, Q, i, j, m, r.x, r.y);
    SumIsLine(P, Q, i, j, m, x, y);
    LineEnds(last, r);
    LineOfLines(last, r, P[i - 1], P[i], Q[j - 1], Q[j], !m.fill, x);
  }

  lemma SumIsLine(P: seq<Row>, Q: seq<Row>, i: nat, j: nat, m: Mode, x: real, y: real)
    requires Increasing(P) && Increasing(Q) && BothPoints(P, Q, i, j) && Goes(P, i) && Goes(Q, j)
    requires P[i - 1].x <= x <= P[i].x && Q[j - 1].x <= x <= Q[j].x
    ensures Summed(P, Q, m, x, y) <==> y == Line(P[i - 1], P[i], x) + Share(Line(Q[j - 1], Q[j], x), m)
  {
    hide OnGraph, Interpolate;
    var p, q := Line(P[i - 1], P[i], x), Line(Q[j - 1], Q[j], x);
    OnSegment(P, i, x, p);
    OnSegment(Q, j, x, q);
    SummedBy(P, Q, m, x, p, q);
    OneSum(P, Q, m, x, y, p + Share(q, m));
  }

  // ---- turn by turn -------------------------------------------------------------------------------

  lemma NextWalking(P: seq<Row>, Q: seq<Row>, i: nat, j: nat, fromgap: bool, m: Mode)
    requires Walking(P, Q, i, j, fromgap) && Fits(P, m) && m.lines && i < |P|
    ensures Ready(P, Q, i, j)
    ensures var s := Next(P, Q, i, j, fromgap, m);
            s.i + s.j > i + j && |s.out| <= 1 && Ready(P, Q, s.i, s.j) && s.i <= |P| && s.j <= |Q|
            && (j < |Q| ==> Walking(P, Q, s.i, s.j, s.fromgap))
  {
    hide Line, Interpolate;
    IncreasingReady(P, Q, i, j);
    NextReady(P, Q, i, j, fromgap, m);
  }

  lemma NextLast(P: seq<Row>, Q: seq<Row>, i: nat, j: nat, fromgap: bool, m: Mode, last: Row)
    requires Walking(P, Q, i, j, fromgap) && Fits(P, m) && m.lines && i < |P| && j < |Q|
    requires LastOk(P, Q, i, j, m, last)
    ensures Ready(P, Q, i, j)
    ensures var s := Next(P, Q, i, j, fromgap, m); LastOk(P, Q, s.i, s.j, m, Latest(last, s.out))
  {
    hide Line, Interpolate, OnGraph, Summed;
    IncreasingReady(P, Q, i, j);
    if BothPoints(P, Q, i, j) { PutIsSum(P, Q, i, j, fromgap, m); }
  }

  /** Past the end of the other series only gaps are put. */
  lemma {:induction false} OnlyGaps(P: seq<Row>, Q: seq<Row>, i: nat, fromgap: bool, m: Mode)
    requires i <= |P| && Fits(P, m) && m.lines && Ready(P, Q, i, |Q|)
    ensures AllGaps(Merge(P, Q, i, |Q|, fromgap, m))
    decreases |P| - i
  {
    hide Line, Interpolate, Ready;
    if i < |P| {
      NextReady(P, Q, i, |Q|, fromgap, m);
      OnlyGaps(P, Q, i + 1, fromgap, m);
      var out, R := Next(P, Q, i, |Q|, fromgap, m).out, Merge(P, Q, i + 1, |Q|, fromgap, m);
      assert AllGaps(out + R);
    }
  }

  lemma {:induction false} MergeBeyond(P: seq<Row>, Q: seq<Row>, i: nat, j: nat, fromgap: bool, m: Mode, b: real)
    requires i <= |P| && j <= |Q| && Fits(P, m) && Ready(P, Q, i, j) && After(P, i, b) && After(Q, j, b)
    ensures After(Merge(P, Q, i, j, fromgap, m), 0, b)
    decreases |P| - i + |Q| - j
  {
    hide Line, Interpolate, NoVertical, Sorted, Behind, Ready;
    if i < |P| {
      var s := Next(P, Q, i, j, fromgap, m);
      NextReady(P, Q, i, j, fromgap, m);
      MergeBeyond(P, Q, s.i, s.j, s.fromgap, m, b);
    }
  }

  /** What comes after the turn's rows is beyond them. */
  lemma RestBeyond(P: seq<Row>, Q: seq<Row>, i: nat, j: nat, fromgap: bool, m: Mode)
    requires Walking(P, Q, i, j, fromgap) && Fits(P, m) && m.lines && BothPoints(P, Q, i, j)
    ensures Ready(P, Q, i, j)
    ensures var s := Next(P, Q, i, j, fromgap, m);
            && Ready(P, Q, s.i, s.j) && s.i <= |P| && s.j <= |Q|
            && After(Merge(P, Q, s.i, s.j, s.fromgap, m), 0, Nearer(P, Q, i, j))
  {
    hide Line, Interpolate, Merge, Ready;
    NextWalking(P, Q, i, j, fromgap, m);
    var s := Next(P, Q, i, j, fromgap, m);
    MergeBeyond(P, Q, s.i, s.j, s.fromgap, m, Nearer(P, Q, i, j));
  }

  // ---- what is drawn from here on -------------------------------------------------------------------

  lemma NothingBefore(rows: seq<Row>, b: real, x: real, y: real)
    requires After(rows, 0, b) && x <= b
    ensures !OnGraph(rows, x, y)
  {
  }

  lemma Far(r: Row, rows: seq<Row>, x: real, y: real)
    requires r.Point? && After(rows, 0, r.x) && x <= r.x
    ensures OnGraph([r] + rows, x, y) <==> Marks(r, x, y)
  {
    hide OnGraph, Interpolate;
    OnCons(r, rows, x, y);
    NothingBefore(rows, r.x, x, y);
    if rows != [] && rows[0].Point? { LineEnds(r, rows[0]); }
  }

  /** Nothing of a list is drawn from the row before it up to that row. */
  lemma NotOnLast(last: Row, rows: seq<Row>, x: real, y: real)
    requires last.Gap? || last.x < x
    ensures OnGraph([last] + rows, x, y) <==> (rows != [] && Joins(last, rows[0], x, y)) || OnGraph(rows, x, y)
  {
    hide OnGraph;
    OnCons(last, rows, x, y);
  }

  /** A gap, or the last row, changes nothing ahead of it. */
  lemma AfterGap(last: Row, rows: seq<Row>, x: real, y: real)
    requires last.Gap? || last.x < x
    ensures OnGraph([last] + ([Gap] + rows), x, y) <==> OnGraph([Gap] + rows, x, y)
  {
    hide OnGraph;
    NotOnLast(last, [Gap] + rows, x, y);
  }

  lemma AheadOfRow(last: Row, r: Row, rows: seq<Row>, x: real, y: real)
    requires (last.Gap? || last.x < x) && r.Point? && r.x < x
    ensures OnGraph([last] + ([r] + rows), x, y) <==> OnGraph([r] + rows, x, y)
  {
    hide OnGraph;
    NotOnLast(last, [r] + rows, x, y);
  }

  lemma LastIsPast(P: seq<Row>, Q: seq<Row>, i: nat, j: nat, m: Mode, last: Row, x: real)
    requires LastOk(P, Q, i, j, m, last) && Past(P, i, x) && Past(Q, j, x)
    ensures last.Gap? || last.x < x
  {
  }

  /** Ahead of what is walked past, the rows to come draw the sum, joined to the last row. */
  lemma {:induction false} MergeDraws(P: seq<Row>, Q: seq<Row>, i: nat, j: nat, fromgap: bool, m: Mode, last: Row,
      x: real, y: real)
    requires Walking(P, Q, i, j, fromgap) && Fits(P, m) && m.lines && LastOk(P, Q, i, j, m, last)
    requires Past(P, i, x) && Past(Q, j, x)
    ensures Ready(P, Q, i, j)
    ensures OnGraph([last] + Merge(P, Q, i, j, fromgap, m), x, y) <==> Summed(P, Q, m, x, y)
    decreases |P| - i + |Q| - j
  {
    hide OnGraph, Line, Interpolate, Next, Ready, LastOk, Walking, Summed, Fits;
    LastIsPast(P, Q, i, j, m, last, x);
    if EndOfWalk(P, Q, i, j) {
      DrawsNoMore(P, Q, i, j, fromgap, m, last, x, y);
    } else {
      WalkOn(P, Q, i, j, fromgap, m, last);
      var s := Next(P, Q, i, j, fromgap, m);
      var R := Merge(P, Q, s.i, s.j, s.fromgap, m);
      if BothPoints(P, Q, i, j) && x <= Nearer(P, Q, i, j) {
        SumUpTo(P, Q, i, j, fromgap, m, last, x, y);
        DrawsUpTo(P, Q, i, j, fromgap, m, last, x, y);
      } else {
        WalkedPast(P, Q, i, j, fromgap, m, x);
        MergeDraws(P, Q, s.i, s.j, s.fromgap, m, Latest(last, s.out), x, y);
        DrawsBeyond(P, Q, i, j, fromgap, m, last, x, y);
      }
    }
  }

  predicate EndOfWalk(P: seq<Row>, Q: seq<Row>, i: nat, j: nat) { i >= |P| || (j >= |Q| && P[i].Point?) }

  lemma WalkOn(P: seq<Row>, Q: seq<Row>, i: nat, j: nat, fromgap: bool, m: Mode, last: Row)
    requires Walking(P, Q, i, j, fromgap) && Fits(P, m) && m.lines && LastOk(P, Q, i, j, m, last)
    requires !EndOfWalk(P, Q, i, j)
    ensures i < |P| && j <= |Q| && Ready(P, Q, i, j)
    ensures var s := Next(P, Q, i, j, fromgap, m);
            && s.i <= |P| && s.j <= |Q| && s.i + s.j > i + j && |s.out| <= 1 && Ready(P, Q, s.i, s.j)
            && Walking(P, Q, s.i, s.j, s.fromgap) && LastOk(P, Q, s.i, s.j, m, Latest(last, s.out))
            && Merge(P, Q, i, j, fromgap, m) == s.out + Merge(P, Q, s.i, s.j, s.fromgap, m)
  {
    hide Line, Interpolate, Summed;
    NextWalking(P, Q, i, j, fromgap, m);
    if j < |Q| { NextLast(P, Q, i, j, fromgap, m, last); }
  }

  lemma DrawsNoMore(P: seq<Row>, Q: seq<Row>, i: nat, j: nat, fromgap: bool, m: Mode, last: Row, x: real, y: real)
    requires Walking(P, Q, i, j, fromgap) && Fits(P, m) && m.lines && EndOfWalk(P, Q, i, j)
    requires Past(P, i, x) && Past(Q, j, x) && (last.Gap? || last.x < x)
    ensures Ready(P, Q, i, j)
    ensures !OnGraph([last] + Merge(P, Q, i, j, fromgap, m), x, y) && !Summed(P, Q, m, x, y)
  {
    hide OnGraph, Line, Interpolate, Next;
    IncreasingReady(P, Q, i, j);
    var R := Merge(P, Q, i, j, fromgap, m);
    if i < |P| { OnlyGaps(P, Q, i, fromgap, m); }
    OnGaps(R, x, y);
    NotOnLast(last, R, x, y);
    if p: real, q: real :| OnGraph(P, x, p) && OnGraph(Q, x, q) && y == p + Share(q, m) {
      if i == |P| { OnNothing(P, i, x, p); } else { OnNothing(Q, j, x, q); }
    }
  }

  lemma DrawsUpTo(P: seq<Row>, Q: seq<Row>, i: nat, j: nat, fromgap: bool, m: Mode, last: Row, x: real, y: real)
    requires Walking(P, Q, i, j, fromgap) && Fits(P, m) && m.lines && BothPoints(P, Q, i, j)
    requires LastOk(P, Q, i, j, m, last) && (last.Gap? || last.x < x) && x <= Nearer(P, Q, i, j)
    ensures Ready(P, Q, i, j)
    ensures var out := Next(P, Q, i, j, fromgap, m).out;
            OnGraph([last] + Merge(P, Q, i, j, fromgap, m), x, y) <==>
            out != [] && (Joins(last, out[0], x, y) || Marks(out[0], x, y))
  {
    hide OnGraph, Line, Interpolate, Next, Ready, Summed;
    PutIsSum(P, Q, i, j, fromgap, m);
    RestBeyond(P, Q, i, j, fromgap, m);
    var s := Next(P, Q, i, j, fromgap, m);
    var R := Merge(P, Q, s.i, s.j, s.fromgap, m);
    NotOnLast(last, s.out + R, x, y);
    if s.out == [] {
      assert s.out + R == R;
      NothingBefore(R, Nearer(P, Q, i, j), x, y);
    } else {
      assert s.out == [s.out[0]];
      Far(s.out[0], R, x, y);
    }
  }

  lemma WalkedPast(P: seq<Row>, Q: seq<Row>, i: nat, j: nat, fromgap: bool, m: Mode, x: real)
    requires Walking(P, Q, i, j, fromgap) && Fits(P, m) && m.lines && !EndOfWalk(P, Q, i, j)
    requires Past(P, i, x) && Past(Q, j, x) && (BothPoints(P, Q, i, j) ==> Nearer(P, Q, i, j) < x)
    ensures i < |P| && j <= |Q| && Ready(P, Q, i, j)
    ensures var s := Next(P, Q, i, j, fromgap, m); Past(P, s.i, x) && Past(Q, s.j, x)
  {
    hide Line, Interpolate;
    IncreasingReady(P, Q, i, j);
  }

  lemma DrawsBeyond(P: seq<Row>, Q: seq<Row>, i: nat, j: nat, fromgap: bool, m: Mode, last: Row, x: real, y: real)
    requires Walking(P, Q, i, j, fromgap) && Fits(P, m) && m.lines && !EndOfWalk(P, Q, i, j)
    requires (last.Gap? || last.x < x) && (BothPoints(P, Q, i, j) ==> Nearer(P, Q, i, j) < x)
    ensures i < |P| && j <= |Q| && Ready(P, Q, i, j)
    ensures var s := Next(P, Q, i, j, fromgap, m);
            && s.i <= |P| && s.j <= |Q| && Ready(P, Q, s.i, s.j)
            && var R := Merge(P, Q, s.i, s.j, s.fromgap, m);
            OnGraph([last] + Merge(P, Q, i, j, fromgap, m), x, y) <==> OnGraph([Latest(last, s.out)] + R, x, y)
  {
    hide OnGraph, Line, Interpolate, Summed, Ready, AtOther, Below;
    NextWalking(P, Q, i, j, fromgap, m);
    var s := Next(P, Q, i, j, fromgap, m);
    var R := Merge(P, Q, s.i, s.j, s.fromgap, m);
    if s.out == [] {
      assert s.out + R == R;
    } else if s.out[0].Gap? {
      assert s.out == [Gap];
      AfterGap(last, R, x, y);
    } else {
      PutIsSum(P, Q, i, j, fromgap, m);
      assert s.out == [s.out[0]];
      AheadOfRow(last, s.out[0], R, x, y);
    }
  }

  // ---- the series drawn is the sum ----------------------------------------------------------------

  /** What is drawn is the sum of both series, or for a fill the series itself, run by run,
      wherever both have a value and nowhere else. */
  lemma StackIsSum(P: seq<Row>, Q: seq<Row>, m: Mode, x: real, y: real)
    requires Increasing(P) && Increasing(Q) && Fits(P, m) && m.lines
    ensures Ready(P, Q, 0, 0)
    ensures OnGraph(Merge(P, Q, 0, 0, true, m), x, y) <==> Summed(P, Q, m, x, y)
  {
    hide OnGraph, Line, Interpolate, Next, Summed, Merge;
    IncreasingReady(P, Q, 0, 0);
    MergeDraws(P, Q, 0, 0, true, m, Gap, x, y);
    NotOnLast(Gap, Merge(P, Q, 0, 0, true, m), x, y);
  }

  // ---- the points of the result ---------------------------------------------------------------------

  lemma FromRest(rows: seq<Row>, i: nat, x: real)
    requires i < |rows|
    ensures From(rows, i, x) <==> (rows[i].Point? && rows[i].x == x) || From(rows, i + 1, x)
  {
  }

  lemma FromCons(r: Row, rows: seq<Row>, x: real)
    ensures From([r] + rows, 0, x) <==> (r.Point? && r.x == x) || From(rows, 0, x)
  {
    var all := [r] + rows;
    if l :| 0 <= l < |rows| && rows[l].Point? && rows[l].x == x { assert all[l + 1].x == x; }
    if l :| 0 <= l < |all| && all[l].Point? && all[l].x == x {
      if l > 0 { assert rows[l - 1].x == x; }
    }
    assert all[0] == r;
  }

  lemma FromFar(rows: seq<Row>, k: nat, b: real, x: real)
    requires After(rows, k, b) && x <= b
    ensures !From(rows, k, x)
  {
  }

  /** There are points just where both have a value and one has a point. */
  ghost predicate IsPlace(P: seq<Row>, Q: seq<Row>, i: nat, j: nat, x: real) {
    Has(P, x) && Has(Q, x) && (From(P, i, x) || From(Q, j, x))
  }

  lemma BothHave(P: seq<Row>, Q: seq<Row>, m: Mode, x: real, y: real)
    ensures Summed(P, Q, m, x, y) ==> Has(P, x) && Has(Q, x)
    ensures Has(P, x) && Has(Q, x) ==> exists z :: Summed(P, Q, m, x, z)
  {
    hide OnGraph;
    if Has(P, x) && Has(Q, x) {
      var p :| OnGraph(P, x, p);
      var q :| OnGraph(Q, x, q);
      SummedBy(P, Q, m, x, p, q);
    }
  }

  lemma {:induction false} MergeAt(P: seq<Row>, Q: seq<Row>, i: nat, j: nat, fromgap: bool, m: Mode, x: real)
    requires Walking(P, Q, i, j, fromgap) && Fits(P, m) && m.lines && Past(P, i, x) && Past(Q, j, x)
    ensures Ready(P, Q, i, j)
    ensures From(Merge(P, Q, i, j, fromgap, m), 0, x) <==> IsPlace(P, Q, i, j, x)
    decreases |P| - i + |Q| - j
  {
    hide OnGraph, Line, Interpolate, Next, Ready, Walking, Fits, Has, From;
    if EndOfWalk(P, Q, i, j) {
      NoPlaces(P, Q, i, j, fromgap, m, x);
    } else {
      var s := Walked(P, Q, i, j, fromgap, m);
      if BothPoints(P, Q, i, j) && x <= Nearer(P, Q, i, j) {
        PlacesUpTo(P, Q, i, j, fromgap, m, x);
      } else {
        WalkedPast(P, Q, i, j, fromgap, m, x);
        MergeAt(P, Q, s.i, s.j, s.fromgap, m, x);
        PlacesBeyond(P, Q, i, j, fromgap, m, x);
      }
    }
  }

  lemma Walked(P: seq<Row>, Q: seq<Row>, i: nat, j: nat, fromgap: bool, m: Mode) returns (s: Step)
    requires Walking(P, Q, i, j, fromgap) && Fits(P, m) && m.lines && !EndOfWalk(P, Q, i, j)
    ensures i < |P| && j <= |Q| && Ready(P, Q, i, j) && s == Next(P, Q, i, j, fromgap, m)
    ensures s.i <= |P| && s.j <= |Q| && s.i + s.j > i + j && |s.out| <= 1 && Ready(P, Q, s.i, s.j)
    ensures Walking(P, Q, s.i, s.j, s.fromgap)
    ensures Merge(P, Q, i, j, fromgap, m) == s.out + Merge(P, Q, s.i, s.j, s.fromgap, m)
  {
    hide Line, Interpolate;
    NextWalking(P, Q, i, j, fromgap, m);
    s := Next(P, Q, i, j, fromgap, m);
  }

  lemma NoPlaces(P: seq<Row>, Q: seq<Row>, i: nat, j: nat, fromgap: bool, m: Mode, x: real)
    requires Walking(P, Q, i, j, fromgap) && Fits(P, m) && m.lines && EndOfWalk(P, Q, i, j)
    requires Past(P, i, x) && Past(Q, j, x)
    ensures Ready(P, Q, i, j)
    ensures !From(Merge(P, Q, i, j, fromgap, m), 0, x) && !IsPlace(P, Q, i, j, x)
  {
    hide OnGraph, Line, Interpolate, Next;
    IncreasingReady(P, Q, i, j);
    if i < |P| { OnlyGaps(P, Q, i, fromgap, m); }
    if p, q :| OnGraph(P, x, p) && OnGraph(Q, x, q) {
      if i == |P| { OnNothing(P, i, x, p); } else { OnNothing(Q, j, x, q); }
    }
  }

  lemma PlacesUpTo(P: seq<Row>, Q: seq<Row>, i: nat, j: nat, fromgap: bool, m: Mode, x: real)
    requires Walking(P, Q, i, j, fromgap) && Fits(P, m) && m.lines && BothPoints(P, Q, i, j)
    requires Past(P, i, x) && Past(Q, j, x) && x <= Nearer(P, Q, i, j)
    ensures Ready(P, Q, i, j)
    ensures From(Merge(P, Q, i, j, fromgap, m), 0, x) <==> IsPlace(P, Q, i, j, x)
  {
    hide OnGraph, Line, Interpolate, Next, Summed, Has;
    PutIsSum(P, Q, i, j, fromgap, m);
    RestBeyond(P, Q, i, j, fromgap, m);
    var s := Walked(P, Q, i, j, fromgap, m);
    var R, c := Merge(P, Q, s.i, s.j, s.fromgap, m), Nearer(P, Q, i, j);
    FromFar(R, 0, c, x);
    if s.out == [] {
      assert s.out + R == R;
      NoValueAt(P, Q, i, j, m);
    } else {
      assert s.out == [s.out[0]];
      FromCons(s.out[0], R, x);
      BothHave(P, Q, m, c, s.out[0].y);
    }
    FromAhead(P, i, x);
    FromAhead(Q, j, x);
  }

  /** No points from i on come before row i's. */
  lemma FromAhead(rows: seq<Row>, i: nat, x: real)
    requires Increasing(rows) && i < |rows| && rows[i].Point? && x <= rows[i].x
    ensures From(rows, i, x) <==> x == rows[i].x
  {
  }

  lemma NoValueAt(P: seq<Row>, Q: seq<Row>, i: nat, j: nat, m: Mode)
    requires Increasing(P) && Increasing(Q) && Apart(P, Q, i, j) && BothPoints(P, Q, i, j)
    requires !((P[i].x == Nearer(P, Q, i, j) || Goes(P, i)) && (Q[j].x == Nearer(P, Q, i, j) || Goes(Q, j)))
    ensures !(Has(P, Nearer(P, Q, i, j)) && Has(Q, Nearer(P, Q, i, j)))
  {
    hide OnGraph;
    var c := Nearer(P, Q, i, j);
    if p, q :| OnGraph(P, c, p) && OnGraph(Q, c, q) {
      if P[i].x == c { OnUpTo(Q, j, c, q); } else { OnUpTo(P, i, c, p); }
    }
  }

  lemma PlacesBeyond(P: seq<Row>, Q: seq<Row>, i: nat, j: nat, fromgap: bool, m: Mode, x: real)
    requires Walking(P, Q, i, j, fromgap) && Fits(P, m) && m.lines && !EndOfWalk(P, Q, i, j)
    requires BothPoints(P, Q, i, j) ==> Nearer(P, Q, i, j) < x
    ensures i < |P| && j <= |Q| && Ready(P, Q, i, j)
    ensures var s := Next(P, Q, i, j, fromgap, m);
            && s.i <= |P| && s.j <= |Q| && Ready(P, Q, s.i, s.j)
            && (From(Merge(P, Q, i, j, fromgap, m), 0, x) <==> From(Merge(P, Q, s.i, s.j, s.fromgap, m), 0, x))
            && (IsPlace(P, Q, i, j, x) <==> IsPlace(P, Q, s.i, s.j, x))
  {
    hide OnGraph, Line, Interpolate, Summed, Has, From, AtOther, Below;
    var s := Walked(P, Q, i, j, fromgap, m);
    var R := Merge(P, Q, s.i, s.j, s.fromgap, m);
    if s.out == [] {
      assert s.out + R == R;
    } else {
      assert s.out == [s.out[0]];
      if BothPoints(P, Q, i, j) { PutIsSum(P, Q, i, j, fromgap, m); }
      FromCons(s.out[0], R, x);
    }
    if s.i > i { FromRest(P, i, x); }
    if s.j > j { FromRest(Q, j, x); }
  }

  lemma IncreasingCons(r: Row, rows: seq<Row>)
    requires Increasing(rows) && (r.Point? ==> After(rows, 0, r.x))
    ensures Increasing([r] + rows)
  {
  }

  lemma {:induction false} MergeIncreasing(P: seq<Row>, Q: seq<Row>, i: nat, j: nat, fromgap: bool, m: Mode)
    requires Walking(P, Q, i, j, fromgap) && Fits(P, m) && m.lines
    ensures Ready(P, Q, i, j) && Increasing(Merge(P, Q, i, j, fromgap, m))
    decreases |P| - i + |Q| - j
  {
    hide Line, Interpolate, Next, Ready, Walking, Fits, Increasing, After;
    if EndOfWalk(P, Q, i, j) {
      EndIncreases(P, Q, i, j, fromgap, m);
    } else {
      var s := Walked(P, Q, i, j, fromgap, m);
      MergeIncreasing(P, Q, s.i, s.j, s.fromgap, m);
      var R := Merge(P, Q, s.i, s.j, s.fromgap, m);
      if s.out == [] {
        assert s.out + R == R;
      } else {
        assert s.out == [s.out[0]];
        OutBefore(P, Q, i, j, fromgap, m);
        IncreasingCons(s.out[0], R);
      }
    }
  }

  lemma EndIncreases(P: seq<Row>, Q: seq<Row>, i: nat, j: nat, fromgap: bool, m: Mode)
    requires Walking(P, Q, i, j, fromgap) && Fits(P, m) && m.lines && EndOfWalk(P, Q, i, j)
    ensures Ready(P, Q, i, j) && Increasing(Merge(P, Q, i, j, fromgap, m))
  {
    hide Line, Interpolate, Next;
    IncreasingReady(P, Q, i, j);
    if i < |P| { OnlyGaps(P, Q, i, fromgap, m); }
  }

  lemma OutBefore(P: seq<Row>, Q: seq<Row>, i: nat, j: nat, fromgap: bool, m: Mode)
    requires Walking(P, Q, i, j, fromgap) && Fits(P, m) && m.lines && !EndOfWalk(P, Q, i, j)
    ensures i < |P| && j <= |Q| && Ready(P, Q, i, j)
    ensures var s := Next(P, Q, i, j, fromgap, m);
            && s.i <= |P| && s.j <= |Q| && Ready(P, Q, s.i, s.j)
            && (s.out != [] && s.out[0].Point? ==>
                  After(Merge(P, Q, s.i, s.j, s.fromgap, m), 0, s.out[0].x))
  {
    hide Line, Interpolate, Merge, Summed, After;
    NextWalking(P, Q, i, j, fromgap, m);
    if BothPoints(P, Q, i, j) {
      PutIsSum(P, Q, i, j, fromgap, m);
      RestBeyond(P, Q, i, j, fromgap, m);
    }
  }

  /** The points have increasing keys, and are those of both series where both have a value. */
  lemma StackPoints(P: seq<Row>, Q: seq<Row>, m: Mode, x: real)
    requires Increasing(P) && Increasing(Q) && Fits(P, m) && m.lines
    ensures Ready(P, Q, 0, 0)
    ensures var R := Merge(P, Q, 0, 0, true, m); Increasing(R) && (From(R, 0, x) <==> IsPlace(P, Q, 0, 0, x))
  {
    MergeAt(P, Q, 0, 0, true, m, x);
    MergeIncreasing(P, Q, 0, 0, true, m);
  }

  // ---- where the fill starts ------------------------------------------------------------------------

  /** The third column of each point is this. */
  ghost predicate Based(P: seq<Row>, m: Mode, base: real) {
    m.bottom ==> forall k | 0 <= k < |P| && P[k].Point? :: P[k].rest != [] && P[k].rest[0] == base
  }

  function Bottoms(rows: seq<Row>): seq<Row>
    requires forall k | 0 <= k < |rows| && rows[k].Point? :: rows[k].rest != []
  {
    seq(|rows|, k requires 0 <= k < |rows| => if rows[k].Gap? then Gap else Point(rows[k].x, rows[k].rest[0], []))
  }

  /** The same points, all at one height. */
  function Flat(rows: seq<Row>, base: real): seq<Row> {
    seq(|rows|, k requires 0 <= k < |rows| => if rows[k].Gap? then Gap else Point(rows[k].x, base, []))
  }

  const SUM := Mode(true, false, false)

  lemma LineOfFlat(p: Row, q: Row, x: real)
    requires p.Point? && q.Point? && p.x != q.x && p.y == q.y
    ensures Line(p, q, x) == p.y
  {
  }

  /** The bottoms are what stacking on a level line yields. */
  lemma {:induction false} BottomsAreMerge(P: seq<Row>, Q: seq<Row>, i: nat, j: nat, fromgap: bool, m: Mode, base: real)
    requires i <= |P| && j <= |Q| && Increasing(P) && Increasing(Q) && Fits(P, m) && m.lines && m.bottom
    requires Based(P, m, base) && Ready(P, Q, i, j)
    ensures var F, R := Flat(P, if m.fill then 0.0 else base), Merge(P, Q, i, j, fromgap, m);
            && Increasing(F) && Ready(F, Q, i, j)
            && (forall k | 0 <= k < |R| && R[k].Point? :: R[k].rest != [])
            && Bottoms(R) == Merge(F, Q, i, j, fromgap, SUM)
    decreases |P| - i + |Q| - j
  {
    hide Next, Ready, Based, Flat, Increasing, Bottoms;
    var F := Flat(P, if m.fill then 0.0 else base);
    FlatIncreases(P, Q, i, j, if m.fill then 0.0 else base);
    if i < |P| {
      var s := Next(P, Q, i, j, fromgap, m);
      NextReady(P, Q, i, j, fromgap, m);
      NextFlat(P, Q, i, j, fromgap, m, base);
      BottomsAreMerge(P, Q, s.i, s.j, s.fromgap, m, base);
      BottomsConcat(s.out, Merge(P, Q, s.i, s.j, s.fromgap, m));
    } else {
      NoBottoms();
    }
  }

  lemma NoBottoms()
    ensures Bottoms([]) == []
  {
  }

  lemma BottomsConcat(a: seq<Row>, b: seq<Row>)
    requires (forall k | 0 <= k < |a| && a[k].Point? :: a[k].rest != [])
    requires (forall k | 0 <= k < |b| && b[k].Point? :: b[k].rest != [])
    ensures forall k | 0 <= k < |a + b| && (a + b)[k].Point? :: (a + b)[k].rest != []
    ensures Bottoms(a + b) == Bottoms(a) + Bottoms(b)
  {
  }

  lemma FlatIncreases(P: seq<Row>, Q: seq<Row>, i: nat, j: nat, base: real)
    requires Increasing(P) && Increasing(Q)
    ensures |Flat(P, base)| == |P| && Fits(Flat(P, base), SUM)
    ensures Increasing(Flat(P, base)) && Ready(Flat(P, base), Q, i, j)
  {
    IncreasingReady(Flat(P, base), Q, i, j);
  }

  lemma NextFlat(P: seq<Row>, Q: seq<Row>, i: nat, j: nat, fromgap: bool, m: Mode, base: real)
    requires i < |P| && j <= |Q| && Increasing(P) && Increasing(Q) && Fits(P, m) && m.lines && m.bottom
    requires Based(P, m, base) && Ready(P, Q, i, j) && Ready(Flat(P, if m.fill then 0.0 else base), Q, i, j)
    ensures var s := Next(P, Q, i, j, fromgap, m);
            var f := Next(Flat(P, if m.fill then 0.0 else base), Q, i, j, fromgap, SUM);
            && s.i == f.i <= |P| && s.j == f.j <= |Q| && s.i + s.j > i + j && s.fromgap == f.fromgap
            && (forall k | 0 <= k < |s.out| && s.out[k].Point? :: s.out[k].rest != []) && Bottoms(s.out) == f.out
  {
    hide Interpolate, Ready;
    var F := Flat(P, if m.fill then 0.0 else base);
    if BothPoints(P, Q, i, j) && Q[j].x < P[i].x && Goes(P, i) { LineOfFlat(F[i], F[i - 1], Q[j].x); }
  }

  /** The fill under the series starts at the other one, on top of what the third column
      held: over all that both share. */
  lemma FillStartsAtOther(P: seq<Row>, Q: seq<Row>, m: Mode, base: real, x: real, y: real)
    requires Increasing(P) && Increasing(Q) && Fits(P, m) && m.lines && m.bottom && Based(P, m, base)
    ensures Ready(P, Q, 0, 0)
    ensures var R := Merge(P, Q, 0, 0, true, m);
            && (forall k | 0 <= k < |R| && R[k].Point? :: R[k].rest != [])
            && (OnGraph(Bottoms(R), x, y) <==> Has(P, x) && OnGraph(Q, x, y - if m.fill then 0.0 else base))
  {
    hide OnGraph, Line, Interpolate, Merge;
    var level := if m.fill then 0.0 else base;
    IncreasingReady(P, Q, 0, 0);
    BottomsAreMerge(P, Q, 0, 0, true, m, base);
    StackIsSum(Flat(P, level), Q, SUM, x, y);
    FlatSum(P, Q, level, x, y);
  }

  lemma FlatSum(P: seq<Row>, Q: seq<Row>, level: real, x: real, y: real)
    requires Increasing(P)
    ensures Summed(Flat(P, level), Q, SUM, x, y) <==> Has(P, x) && OnGraph(Q, x, y - level)
  {
    hide OnGraph, Line, Interpolate;
    FlatHas(P, level, x);
    if Has(P, x) && OnGraph(Q, x, y - level) {
      SummedBy(Flat(P, level), Q, SUM, x, level, y - level);
    }
  }

  /** A level line is at its level, wherever the series has a value. */
  lemma FlatHas(P: seq<Row>, level: real, x: real)
    requires Increasing(P)
    ensures forall z :: OnGraph(Flat(P, level), x, z) <==> Has(P, x) && z == level
  {
    var F := Flat(P, level);
    forall z ensures OnGraph(F, x, z) ==> Has(P, x) && z == level {
      if k: nat :| MarkAt(F, k, x, z) {
        assert MarkAt(P, k, x, P[k].y);
        assert OnGraph(P, x, P[k].y);
      }
      if k: nat :| JoinAt(F, k, x, z) {
        LineOfFlat(F[k - 1], F[k], x);
        assert JoinAt(P, k, x, Line(P[k - 1], P[k], x));
        assert OnGraph(P, x, Line(P[k - 1], P[k], x));
      }
    }
    if y :| OnGraph(P, x, y) {
      if k: nat :| MarkAt(P, k, x, y) { assert MarkAt(F, k, x, level); }
      if k: nat :| JoinAt(P, k, x, y) {
        LineOfFlat(F[k - 1], F[k], x);
        assert JoinAt(F, k, x, level);
      }
    }
  }

  // ---- bars --------------------------------------------------------------------------------------

  /** What the other series has at exactly this x. */
  function ValueAt(Q: seq<Row>, j: nat, x: real): real
    requires j <= |Q|
    decreases |Q| - j
  {
    if j == |Q| then 0.0
    else if Q[j].Point? && Q[j].x == x then Q[j].y
    else ValueAt(Q, j + 1, x)
  }

  lemma {:induction false} NoValue(Q: seq<Row>, j: nat, x: real)
    requires j <= |Q| && After(Q, j, x)
    ensures ValueAt(Q, j, x) == 0.0
    decreases |Q| - j
  {
    if j < |Q| { NoValue(Q, j + 1, x); }
  }

  /** The points from row k on, without the gaps. */
  function PointsFrom(rows: seq<Row>, k: nat): seq<Row>
    requires k <= |rows|
    decreases |rows| - k
  {
    if k == |rows| then [] else (if rows[k].Gap? then [] else [rows[k]]) + PointsFrom(rows, k + 1)
  }

  function Points(rows: seq<Row>): seq<Row> { PointsFrom(rows, 0) }

  lemma {:induction false} PointsOfCons(r: Row, rows: seq<Row>, all: seq<Row>, k: nat)
    requires all == [r] + rows && k <= |rows|
    ensures PointsFrom(all, k + 1) == PointsFrom(rows, k)
    decreases |rows| - k
  {
    if k < |rows| {
      PointsOfCons(r, rows, all, k + 1);
      assert all[k + 1] == rows[k];
    }
  }

  /** One of the points from row j on is at x or beyond. */
  ghost predicate Extends(Q: seq<Row>, j: nat, x: real) {
    exists l :: j <= l < |Q| && Q[l].Point? && Q[l].x >= x
  }

  /** The bar raised by this much: where it ends and, if it has a bottom, where it starts. */
  predicate OnTop(bar: Row, p: Row, height: real, bottom: bool) {
    && bar.Point? && p.Point? && bar.x == p.x && bar.y == p.y + height
    && if bottom then
         |bar.rest| == |p.rest| > 0 && bar.rest[0] == p.rest[0] + height && bar.rest[1..] == p.rest[1..]
       else bar.rest == p.rest
  }

  /** The bar as high as it was, and starting at this height instead. */
  predicate FilledFrom(bar: Row, p: Row, start: real, bottom: bool) {
    && bar.Point? && p.Point? && bar.x == p.x && bar.y == p.y
    && if bottom then |bar.rest| == |p.rest| > 0 && bar.rest[0] == start && bar.rest[1..] == p.rest[1..]
       else bar.rest == p.rest
  }

  /** What becomes of a bar over what the other series has at its place from row j on: on top
      of it, or filled from it; not filled from anything once the other series has ended. */
  ghost predicate Becomes(bar: Row, p: Row, Q: seq<Row>, j: nat, m: Mode)
    requires j <= |Q|
  {
    && p.Point? && (m.bottom ==> p.rest != [])
    && if !m.fill then OnTop(bar, p, ValueAt(Q, j, p.x), m.bottom)
       else if Extends(Q, j, p.x) then FilledFrom(bar, p, ValueAt(Q, j, p.x), m.bottom)
       else bar == p
  }

  /** Bar for bar. */
  ghost predicate Raised(bars: seq<Row>, points: seq<Row>, Q: seq<Row>, j: nat, m: Mode)
    requires j <= |Q|
  {
    |bars| == |points| && forall k | 0 <= k < |bars| :: Becomes(bars[k], points[k], Q, j, m)
  }

  lemma {:induction false} PointsAfter(rows: seq<Row>, k: nat, b: real)
    requires k <= |rows| && After(rows, k, b)
    ensures forall l | 0 <= l < |PointsFrom(rows, k)| :: PointsFrom(rows, k)[l].Point? && PointsFrom(rows, k)[l].x > b
    decreases |rows| - k
  {
    if k < |rows| { PointsAfter(rows, k + 1, b); }
  }

  lemma {:induction false} BarsFrom(P: seq<Row>, Q: seq<Row>, i: nat, j: nat, fromgap: bool, m: Mode)
    requires i <= |P| && j <= |Q| && Increasing(P) && Increasing(Q) && Apart(P, Q, i, j)
    requires Fits(P, m) && !m.lines
    ensures Ready(P, Q, i, j)
    ensures Raised(Points(Merge(P, Q, i, j, fromgap, m)), PointsFrom(P, i), Q, j, m)
    decreases |P| - i + |Q| - j
  {
    hide ValueAt, Raised, PointsFrom, Ready;
    IncreasingReady(P, Q, i, j);
    if i == |P| {
      NoBars(P, Q, i, j, fromgap, m);
    } else {
      NextApart(P, Q, i, j, fromgap, m);
      var s := Next(P, Q, i, j, fromgap, m);
      BarsFrom(P, Q, s.i, s.j, s.fromgap, m);
      NextBar(P, Q, i, j, fromgap, m, Merge(P, Q, s.i, s.j, s.fromgap, m));
    }
  }

  lemma NoBars(P: seq<Row>, Q: seq<Row>, i: nat, j: nat, fromgap: bool, m: Mode)
    requires i == |P| && j <= |Q| && Fits(P, m) && Ready(P, Q, i, j)
    ensures Raised(Points(Merge(P, Q, i, j, fromgap, m)), PointsFrom(P, i), Q, j, m)
  {
  }

  lemma NextApart(P: seq<Row>, Q: seq<Row>, i: nat, j: nat, fromgap: bool, m: Mode)
    requires i < |P| && j <= |Q| && Increasing(P) && Increasing(Q) && Apart(P, Q, i, j) && Ready(P, Q, i, j)
    requires Fits(P, m)
    ensures var s := Next(P, Q, i, j, fromgap, m);
            i <= s.i <= |P| && s.j <= |Q| && s.i + s.j > i + j && Apart(P, Q, s.i, s.j)
  {
    hide Line, Interpolate, Ready;
  }

  lemma NextBar(P: seq<Row>, Q: seq<Row>, i: nat, j: nat, fromgap: bool, m: Mode, R: seq<Row>)
    requires i < |P| && j <= |Q| && Increasing(P) && Increasing(Q) && Apart(P, Q, i, j) && Ready(P, Q, i, j)
    requires Fits(P, m) && !m.lines
    requires var s := Next(P, Q, i, j, fromgap, m);
             s.i <= |P| && s.j <= |Q| && Raised(Points(R), PointsFrom(P, s.i), Q, s.j, m)
    ensures Raised(Points(Next(P, Q, i, j, fromgap, m).out + R), PointsFrom(P, i), Q, j, m)
  {
    hide Line, Interpolate, Ready, Raised, Becomes, ValueAt, Extends;
    var s := Next(P, Q, i, j, fromgap, m);
    if s.out == [] {
      assert s.out + R == R && [] + Points(R) == Points(R);
    } else {
      assert s.out == [s.out[0]];
      PointsOfCons(s.out[0], R, s.out + R, 0);
      assert Points(s.out + R) == (if s.out[0].Gap? then [] else s.out) + Points(R);
    }
    if s.j == j {
      NextOwnBar(P, Q, i, j, fromgap, m, Points(R));
    } else {
      PassBars(P, Q, i, j, fromgap, m, Points(R));
    }
  }

  /** The turn puts the series' own row. */
  lemma NextOwnBar(P: seq<Row>, Q: seq<Row>, i: nat, j: nat, fromgap: bool, m: Mode, bars: seq<Row>)
    requires i < |P| && j <= |Q| && Increasing(P) && Increasing(Q) && Apart(P, Q, i, j) && Ready(P, Q, i, j)
    requires Fits(P, m) && !m.lines
    requires Next(P, Q, i, j, fromgap, m).j == j && Raised(bars, PointsFrom(P, i + 1), Q, j, m)
    ensures var out := Next(P, Q, i, j, fromgap, m).out;
            && |out| == 1
            && Raised((if out[0].Gap? then [] else out) + bars, PointsFrom(P, i), Q, j, m)
  {
    hide Line, Interpolate, Ready, Raised;
    var out := Next(P, Q, i, j, fromgap, m).out;
    if P[i].Point? {
      NoValue(Q, j, P[i].x);
      if j < |Q| { assert Extends(Q, j, P[i].x); }
      RaisedCons(out[0], P[i], bars, PointsFrom(P, i + 1), Q, j, m);
      assert out == [out[0]];
    } else {
      assert [] + bars == bars && [] + PointsFrom(P, i + 1) == PointsFrom(P, i + 1);
    }
  }

  /** The turn passes a row of the other series, which is behind all bars to come. */
  lemma PassBars(P: seq<Row>, Q: seq<Row>, i: nat, j: nat, fromgap: bool, m: Mode, bars: seq<Row>)
    requires i < |P| && j < |Q| && Increasing(P) && Increasing(Q) && Apart(P, Q, i, j) && Ready(P, Q, i, j)
    requires Fits(P, m) && !m.lines
    requires var s := Next(P, Q, i, j, fromgap, m);
             s.i <= |P| && s.j == j + 1 && Raised(bars, PointsFrom(P, s.i), Q, j + 1, m)
    ensures var s := Next(P, Q, i, j, fromgap, m);
            && |s.out| <= 1
            && Raised((if s.out == [] || s.out[0].Gap? then [] else s.out) + bars, PointsFrom(P, i), Q, j, m)
  {
    hide Line, Interpolate, Ready, Raised;
    var s := Next(P, Q, i, j, fromgap, m);
    if Q[j].Point? { PointsAfter(P, s.i, Q[j].x); }
    RaisedPast(bars, PointsFrom(P, s.i), Q, j, m);
    if s.i > i {
      assert Extends(Q, j, P[i].x);
      RaisedCons(s.out[0], P[i], bars, PointsFrom(P, s.i), Q, j, m);
      assert s.out == [s.out[0]];
    } else {
      assert [] + bars == bars;
    }
  }

  lemma RaisedPast(bars: seq<Row>, points: seq<Row>, Q: seq<Row>, j: nat, m: Mode)
    requires j < |Q| && Raised(bars, points, Q, j + 1, m)
    requires Q[j].Point? ==> forall k | 0 <= k < |points| :: points[k].Point? && points[k].x > Q[j].x
    ensures Raised(bars, points, Q, j, m)
  {
    forall k | 0 <= k < |bars| ensures Becomes(bars[k], points[k], Q, j, m) {
      assert Becomes(bars[k], points[k], Q, j + 1, m);
      ExtendsPast(Q, j, points[k].x);
    }
  }

  lemma ExtendsPast(Q: seq<Row>, j: nat, x: real)
    requires j < |Q| && (Q[j].Point? ==> x > Q[j].x)
    ensures Extends(Q, j, x) <==> Extends(Q, j + 1, x)
    ensures ValueAt(Q, j, x) == ValueAt(Q, j + 1, x)
  {
  }

  lemma RaisedCons(bar: Row, p: Row, bars: seq<Row>, points: seq<Row>, Q: seq<Row>, j: nat, m: Mode)
    requires j <= |Q| && Raised(bars, points, Q, j, m) && Becomes(bar, p, Q, j, m)
    ensures Raised([bar] + bars, [p] + points, Q, j, m)
  {
    hide ValueAt, Becomes;
  }

  /** Bars keep their places. Stacked, each gains what the other series has there, at its end
      and, if it has a bottom, at its start; filled, it starts at what the other series has. */
  lemma StackedBars(P: seq<Row>, Q: seq<Row>, m: Mode)
    requires Increasing(P) && Increasing(Q) && Fits(P, m) && !m.lines
    ensures Ready(P, Q, 0, 0)
    ensures Raised(Points(Merge(P, Q, 0, 0, true, m)), Points(P), Q, 0, m)
  {
    BarsFrom(P, Q, 0, 0, true, m);
  }

  // ---- the other columns -----------------------------------------------------------------------------

  /** Row r is row k of the series, or lies on the line up to it, and has its further columns. */
  ghost predicate FromRow(P: seq<Row>, k: nat, r: Row, m: Mode) {
    && k < |P| && P[k].Point? && r.Point?
    && (r.x == P[k].x || (Goes(P, k) && P[k - 1].x < r.x < P[k].x))
    && if m.bottom then |r.rest| == |P[k].rest| > 0 && r.rest[1..] == P[k].rest[1..] else r.rest == P[k].rest
  }

  lemma OutFromRow(P: seq<Row>, Q: seq<Row>, i: nat, j: nat, fromgap: bool, m: Mode)
    requires i < |P| && j <= |Q| && Increasing(P) && Increasing(Q) && Apart(P, Q, i, j) && Ready(P, Q, i, j)
    requires Fits(P, m)
    ensures forall r | r in Next(P, Q, i, j, fromgap, m).out && r.Point? :: FromRow(P, i, r, m)
  {
    hide Line, Interpolate, Ready;
  }

  /** All columns but the value and the bottom are those of the series' own rows. */
  lemma {:induction false} ColumnsKept(P: seq<Row>, Q: seq<Row>, i: nat, j: nat, fromgap: bool, m: Mode, r: Row)
    requires i <= |P| && j <= |Q| && Increasing(P) && Increasing(Q) && Apart(P, Q, i, j) && Ready(P, Q, i, j)
    requires Fits(P, m) && r in Merge(P, Q, i, j, fromgap, m) && r.Point?
    ensures exists k :: i <= k < |P| && FromRow(P, k, r, m)
    decreases |P| - i + |Q| - j
  {
    hide FromRow, Next, Apart, Increasing, Ready, Fits;
    var s := Next(P, Q, i, j, fromgap, m);
    OutFromRow(P, Q, i, j, fromgap, m);
    NextApart(P, Q, i, j, fromgap, m);
    NextReady(P, Q, i, j, fromgap, m);
    if r in s.out {
      assert FromRow(P, i, r, m);
    } else {
      ColumnsKept(P, Q, s.i, s.j, s.fromgap, m, r);
    }
  }
}
