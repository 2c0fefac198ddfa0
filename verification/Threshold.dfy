/** Splitting a series in two at a threshold. */
module Threshold {
  import opened Polylines
  import opened Geometry
  import opened Clip

  datatype Side = Upper | Lower

  /** A gap compares as zero. */
  function SideOf(r: Row, below: real): Side {
    if (if r.Gap? then 0.0 else r.y) < below then Lower else Upper
  }

  predicate Crosses(rows: seq<Row>, i: nat, below: real, lines: bool)
    requires i < |rows|
  {
    lines && i > 0 && rows[i].Point? && rows[i - 1].Point? && SideOf(rows[i], below) != SideOf(rows[i - 1], below)
  }

  function CrossingX(px: real, py: real, x: real, y: real, below: real): real
    requires y != py
  {
    x + (below - y) * (x - px) / (y - py)
  }

  function Crossing(prev: Row, cur: Row, below: real): Row
    requires prev.Point? && cur.Point? && prev.y != cur.y
  {
    Point(CrossingX(prev.x, prev.y, cur.x, cur.y, below), below, cur.rest)
  }

  // ---- the split, in place ------------------------------------------------------------

  /** What row i adds to the output of this side. */
  function Emit(rows: seq<Row>, i: nat, below: real, lines: bool, side: Side): seq<Row>
    requires i < |rows|
  {
    var own := SideOf(rows[i], below) == side;
    if !Crosses(rows, i, below, lines) then
      if own then [rows[i]] else []
    else
      var crossing := Crossing(rows[i - 1], rows[i], below);
      if own then [Gap, crossing, rows[i]] else [crossing]
  }

  function Out(rows: seq<Row>, n: nat, below: real, lines: bool, side: Side): seq<Row>
    requires n <= |rows|
  {
    if n == 0 then [] else Out(rows, n - 1, below, lines, side) + Emit(rows, n - 1, below, lines, side)
  }

  datatype Lists = Lists(newpoints: seq<Row>, threspoints: seq<Row>)
  {
    function Push(p: Side, r: Row): Lists {
      if p.Upper? then this.(newpoints := newpoints + [r]) else this.(threspoints := threspoints + [r])
    }

    function At(p: Side): seq<Row> { if p.Upper? then newpoints else threspoints }
  }

  method ThresholdData(origpoints: seq<Row>, below: real, addCrossingPoints: bool)
    returns (newpoints: seq<Row>, threspoints: seq<Row>)
    ensures newpoints == Out(origpoints, |origpoints|, below, addCrossingPoints, Upper)
    ensures threspoints == Out(origpoints, |origpoints|, below, addCrossingPoints, Lower)
  {
    var lists, p := Lists([], []), Upper;
    for i := 0 to |origpoints|
      invariant i > 0 ==> p == SideOf(origpoints[i - 1], below)
      invariant lists.newpoints == Out(origpoints, i, below, addCrossingPoints, Upper)
      invariant lists.threspoints == Out(origpoints, i, below, addCrossingPoints, Lower)
    {
      lists, p := Place(origpoints, i, below, addCrossingPoints, lists, p);
    }
    newpoints, threspoints := lists.newpoints, lists.threspoints;
  }

  /** One turn: `prevp` is where the last row went. */
  method Place(origpoints: seq<Row>, i: nat, below: real, addCrossingPoints: bool, before: Lists, prevp: Side)
    returns (lists: Lists, p: Side)
    requires i < |origpoints| && (i > 0 ==> prevp == SideOf(origpoints[i - 1], below))
    ensures p == SideOf(origpoints[i], below)
    ensures lists.newpoints == before.newpoints + Emit(origpoints, i, below, addCrossingPoints, Upper)
    ensures lists.threspoints == before.threspoints + Emit(origpoints, i, below, addCrossingPoints, Lower)
  {
    lists := before;
    var r := origpoints[i];
    p := if (if r.Gap? then 0.0 else r.y) < below then Lower else Upper;
    if addCrossingPoints && prevp != p && r.Point? && i > 0 && origpoints[i - 1].Point? {
      var crossing := Crossing(origpoints[i - 1], r, below);
      lists := lists.Push(prevp, crossing);
      lists := lists.Push(p, Gap);
      lists := lists.Push(p, crossing);
      assert lists.At(p) + [r] == before.At(p) + [Gap, crossing, r];
    }
    lists := lists.Push(p, r);
  }

  // ---- where the rows come from ----------------------------------------------------------

  ghost predicate IsCrossing(r: Row, rows: seq<Row>, i: nat, below: real) {
    0 < i < |rows| && Crosses(rows, i, below, true) && r == Crossing(rows[i - 1], rows[i], below)
  }

  /** A row of an output is an original on its side, a crossing of neighbours, or a gap. */
  lemma {:induction false} OutRows(rows: seq<Row>, n: nat, below: real, lines: bool, side: Side, r: Row)
    requires n <= |rows| && r in Out(rows, n, below, lines, side)
    ensures r.Gap? || (exists i :: IsCrossing(r, rows, i, below)) || (r in rows && SideOf(r, below) == side)
    ensures r.Point? ==> if side.Upper? then r.y >= below else r.y <= below
  {
    if r in Out(rows, n - 1, below, lines, side) {
      OutRows(rows, n - 1, below, lines, side, r);
    } else {
      assert r in Emit(rows, n - 1, below, lines, side);
      if Crosses(rows, n - 1, below, lines) && r == Crossing(rows[n - 2], rows[n - 1], below) {
        assert IsCrossing(r, rows, n - 1, below);
      }
    }
  }

  lemma {:induction false} OutGrows(rows: seq<Row>, k: nat, n: nat, below: real, lines: bool, side: Side)
    requires k <= n <= |rows|
    ensures Out(rows, k, below, lines, side) <= Out(rows, n, below, lines, side)
  {
    if k < n { OutGrows(rows, k, n - 1, below, lines, side); }
  }

  /** Every original is in the output of its side, and they are in order: original k ends
      what the rows up to it have put there. */
  lemma OriginalsKept(rows: seq<Row>, k: nat, below: real, lines: bool)
    requires k < |rows|
    ensures var side := SideOf(rows[k], below);
            var before, upto := Out(rows, k, below, lines, side), Out(rows, k + 1, below, lines, side);
            before < upto <= Out(rows, |rows|, below, lines, side) && upto[|upto| - 1] == rows[k]
  {
    OutGrows(rows, k + 1, |rows|, below, lines, SideOf(rows[k], below));
  }

  // ---- how often each row is there ---------------------------------------------------------

  /** What row i adds where the line crosses: the crossing for either output, and a gap. */
  function AddedAt(rows: seq<Row>, i: nat, below: real, lines: bool): multiset<Row>
    requires i < |rows|
  {
    if Crosses(rows, i, below, lines) then
      var crossing := Crossing(rows[i - 1], rows[i], below);
      multiset{Gap, crossing, crossing}
    else multiset{}
  }

  function Added(rows: seq<Row>, n: nat, below: real, lines: bool): multiset<Row>
    requires n <= |rows|
  {
    if n == 0 then multiset{} else Added(rows, n - 1, below, lines) + AddedAt(rows, n - 1, below, lines)
  }

  /** The outputs together are the originals, each once, and two crossings and a gap wherever
      a line crosses. */
  lemma {:induction false} EachRowOnce(rows: seq<Row>, n: nat, below: real, lines: bool)
    requires n <= |rows|
    ensures multiset(Out(rows, n, below, lines, Upper)) + multiset(Out(rows, n, below, lines, Lower)) ==
            multiset(rows[..n]) + Added(rows, n, below, lines)
    ensures !lines ==> Added(rows, n, below, lines) == multiset{}
  {
    hide Emit, AddedAt, Out, Added;
    if n > 0 {
      EachRowOnce(rows, n - 1, below, lines);
      EmittedOnce(rows, n - 1, below, lines);
      AddedMore(rows, n, below, lines);
      OneRowMore(rows, n, below, lines);
    } else {
      NothingOut(rows, below, lines);
    }
  }

  lemma OneRowMore(rows: seq<Row>, n: nat, below: real, lines: bool)
    requires 0 < n <= |rows|
    requires multiset(Out(rows, n - 1, below, lines, Upper)) + multiset(Out(rows, n - 1, below, lines, Lower)) ==
             multiset(rows[..n - 1]) + Added(rows, n - 1, below, lines)
    requires multiset(Emit(rows, n - 1, below, lines, Upper)) + multiset(Emit(rows, n - 1, below, lines, Lower)) ==
             multiset{rows[n - 1]} + AddedAt(rows, n - 1, below, lines)
    ensures multiset(Out(rows, n, below, lines, Upper)) + multiset(Out(rows, n, below, lines, Lower)) ==
            multiset(rows[..n]) + Added(rows, n, below, lines)
  {
    hide Emit, AddedAt, Out, Added;
    OutMore(rows, n, below, lines, Upper);
    OutMore(rows, n, below, lines, Lower);
    AddedMore(rows, n, below, lines);
    Mixed(multiset(Out(rows, n - 1, below, lines, Upper)), multiset(Out(rows, n - 1, below, lines, Lower)),
          multiset(rows[..n - 1]), Added(rows, n - 1, below, lines),
          multiset(Emit(rows, n - 1, below, lines, Upper)), multiset(Emit(rows, n - 1, below, lines, Lower)),
          multiset{rows[n - 1]}, AddedAt(rows, n - 1, below, lines));
  }

  lemma OutMore(rows: seq<Row>, n: nat, below: real, lines: bool, side: Side)
    requires 0 < n <= |rows|
    ensures multiset(Out(rows, n, below, lines, side)) ==
            multiset(Out(rows, n - 1, below, lines, side)) + multiset(Emit(rows, n - 1, below, lines, side))
  {
    hide Emit;
  }

  lemma AddedMore(rows: seq<Row>, n: nat, below: real, lines: bool)
    requires 0 < n <= |rows|
    ensures Added(rows, n, below, lines) == Added(rows, n - 1, below, lines) + AddedAt(rows, n - 1, below, lines)
    ensures multiset(rows[..n]) == multiset(rows[..n - 1]) + multiset{rows[n - 1]}
  {
    hide AddedAt;
    assert rows[..n] == rows[..n - 1] + [rows[n - 1]];
  }

  lemma Mixed(a: multiset<Row>, b: multiset<Row>, c: multiset<Row>, d: multiset<Row>,
      e: multiset<Row>, f: multiset<Row>, g: multiset<Row>, h: multiset<Row>)
    requires a + b == c + d && e + f == g + h
    ensures (a + e) + (b + f) == (c + g) + (d + h)
  {
    forall x ensures ((a + e) + (b + f))[x] == ((c + g) + (d + h))[x] {
      assert (a + b)[x] == (c + d)[x] && (e + f)[x] == (g + h)[x];
    }
  }

  lemma EmittedOnce(rows: seq<Row>, i: nat, below: real, lines: bool)
    requires i < |rows|
    ensures multiset(Emit(rows, i, below, lines, Upper)) + multiset(Emit(rows, i, below, lines, Lower)) ==
            multiset{rows[i]} + AddedAt(rows, i, below, lines)
    ensures !lines ==> AddedAt(rows, i, below, lines) == multiset{}
  {
    hide CrossingX;
  }

  /** Without lines an output is the originals of its side, each as often as it is there. */
  lemma {:induction false} SideCounts(rows: seq<Row>, n: nat, below: real, r: Row)
    requires n <= |rows|
    ensures var lower := if r.Gap? then 0.0 < below else r.y < below;
            && multiset(Out(rows, n, below, false, Upper))[r] == (if lower then 0 else multiset(rows[..n])[r])
            && multiset(Out(rows, n, below, false, Lower))[r] == (if lower then multiset(rows[..n])[r] else 0)
  {
    hide Emit, Out, Added;
    if n > 0 {
      SideCounts(rows, n - 1, below, r);
      EmittedAt(rows, n - 1, below, r);
      OutMore(rows, n, below, false, Upper);
      OutMore(rows, n, below, false, Lower);
      AddedMore(rows, n, below, false);
    } else {
      NothingOut(rows, below, false);
    }
  }

  lemma NothingOut(rows: seq<Row>, below: real, lines: bool)
    ensures Out(rows, 0, below, lines, Upper) == [] && Out(rows, 0, below, lines, Lower) == []
    ensures rows[..0] == [] && Added(rows, 0, below, lines) == multiset{}
  {
  }

  lemma EmittedAt(rows: seq<Row>, i: nat, below: real, r: Row)
    requires i < |rows|
    ensures var lower := if r.Gap? then 0.0 < below else r.y < below;
            && multiset(Emit(rows, i, below, false, Upper))[r] == (if lower || r != rows[i] then 0 else 1)
            && multiset(Emit(rows, i, below, false, Lower))[r] == (if lower && r == rows[i] then 1 else 0)
  {
  }

  /** And in their order. */
  lemma {:induction false} SideInOrder(a: seq<Row>, b: seq<Row>, n: nat, below: real, side: Side)
    requires n <= |b|
    ensures Out(a + b, |a| + n, below, false, side) == Out(a, |a|, below, false, side) + Out(b, n, below, false, side)
  {
    if n > 0 {
      SideInOrder(a, b, n - 1, below, side);
      assert (a + b)[|a| + n - 1] == b[n - 1];
    } else {
      OutOfFront(a, b, |a|, below, side);
    }
  }

  lemma {:induction false} OutOfFront(a: seq<Row>, b: seq<Row>, n: nat, below: real, side: Side)
    requires n <= |a|
    ensures Out(a + b, n, below, false, side) == Out(a, n, below, false, side)
  {
    if n > 0 { OutOfFront(a, b, n - 1, below, side); }
  }

  // ---- what is drawn -----------------------------------------------------------------------

  /** The segments a line series draws. */
  function Segments(rows: seq<Row>): seq<(Row, Row)> {
    if |rows| < 2 then []
    else Segments(rows[..|rows| - 1]) + Joined(rows[|rows| - 2], rows[|rows| - 1])
  }

  function Joined(a: Row, b: Row): seq<(Row, Row)> {
    if a.Point? && b.Point? then [(a, b)] else []
  }

  /** The part of a segment on one side of the threshold. */
  function Part(a: Row, b: Row, below: real, side: Side): seq<(Row, Row)> {
    if !a.Point? || !b.Point? then []
    else if SideOf(a, below) == SideOf(b, below) then if SideOf(a, below) == side then [(a, b)] else []
    else if SideOf(a, below) == side then [(a, Crossing(a, b, below))]
    else [(Crossing(a, b, below), b)]
  }

  /** The parts of all segments of the first n rows. */
  function Parts(rows: seq<Row>, n: nat, below: real, side: Side): seq<(Row, Row)>
    requires n <= |rows|
  {
    if n < 2 then [] else Parts(rows, n - 1, below, side) + Part(rows[n - 2], rows[n - 1], below, side)
  }

  /** Row i follows a gap that went to the other output, and its own has points already:
      they get joined. */
  ghost predicate Bridges(rows: seq<Row>, i: nat, below: real) {
    && 0 < i < |rows| && rows[i].Point? && rows[i - 1].Gap?
    && SideOf(rows[i], below) != SideOf(Gap, below)
    && exists k :: 0 <= k < i && rows[k].Point? && SideOf(rows[k], below) == SideOf(rows[i], below)
  }

  ghost function CountBridges(rows: seq<Row>, n: nat, below: real, side: Side): nat
    requires n <= |rows|
  {
    if n == 0 then 0
    else CountBridges(rows, n - 1, below, side) +
         if Bridges(rows, n - 1, below) && SideOf(rows[n - 1], below) == side then 1 else 0
  }

  lemma SegmentsAppend(rows: seq<Row>, r: Row)
    ensures Segments(rows + [r]) == Segments(rows) + if rows == [] then [] else Joined(rows[|rows| - 1], r)
  {
  }

  /** How an output ends after n rows: with the last original, if that went here; and an
      output that gets no gaps ends with a point once a point has gone here. */
  ghost predicate EndsRight(out: seq<Row>, rows: seq<Row>, n: nat, below: real, side: Side) {
    && n <= |rows| && (n == 0 ==> out == [])
    && (n > 0 && SideOf(rows[n - 1], below) == side ==> out != [] && out[|out| - 1] == rows[n - 1])
    && (side != SideOf(Gap, below) ==>
          && (out != [] ==> out[|out| - 1].Point?)
          && (out != [] <==> exists k :: 0 <= k < n && rows[k].Point? && SideOf(rows[k], below) == side))
  }

  lemma {:induction false} LastOut(rows: seq<Row>, n: nat, below: real, side: Side)
    requires n <= |rows|
    ensures EndsRight(Out(rows, n, below, true, side), rows, n, below, side)
  {
    if n > 0 { LastOut(rows, n - 1, below, side); }
  }

  lemma SegmentsRestart(rows: seq<Row>, c: Row, r: Row)
    ensures Segments(rows + [Gap, c, r]) == Segments(rows) + Joined(c, r)
  {
    hide Segments;
    SegmentsAppend(rows, Gap);
    SegmentsAppend(rows + [Gap], c);
    SegmentsAppend(rows + [Gap] + [c], r);
    assert rows + [Gap, c, r] == rows + [Gap] + [c] + [r];
  }

  /** What one row adds to the segments drawn. */
  lemma EmitSegments(rows: seq<Row>, n: nat, below: real, side: Side, out: seq<Row>)
    requires n < |rows| && EndsRight(out, rows, n, below, side)
    ensures var drawn := Segments(out + Emit(rows, n, below, true, side));
            if Bridges(rows, n, below) && SideOf(rows[n], below) == side
            then |drawn| == |Segments(out)| + 1 && (n > 0 ==> Part(rows[n - 1], rows[n], below, side) == [])
            else drawn == Segments(out) + if n == 0 then [] else Part(rows[n - 1], rows[n], below, side)
  {
    hide CrossingX;
    if Crosses(rows, n, below, true) {
      CrossingSegments(out, rows[n - 1], rows[n], below, side);
    } else {
      PlainSegments(rows, n, below, side, out);
    }
  }

  lemma PlainSegments(rows: seq<Row>, n: nat, below: real, side: Side, out: seq<Row>)
    requires n < |rows| && EndsRight(out, rows, n, below, side) && !Crosses(rows, n, below, true)
    ensures var drawn := Segments(out + if SideOf(rows[n], below) == side then [rows[n]] else []);
            if Bridges(rows, n, below) && SideOf(rows[n], below) == side
            then |drawn| == |Segments(out)| + 1 && (n > 0 ==> Part(rows[n - 1], rows[n], below, side) == [])
            else drawn == Segments(out) + if n == 0 then [] else Part(rows[n - 1], rows[n], below, side)
  {
    SegmentsAppend(out, rows[n]);
    assert out + [] == out;
  }

  lemma CrossingSegments(out: seq<Row>, prev: Row, cur: Row, below: real, side: Side)
    requires prev.Point? && cur.Point? && SideOf(prev, below) != SideOf(cur, below)
    requires SideOf(prev, below) == side ==> out != [] && out[|out| - 1] == prev
    ensures var c := Crossing(prev, cur, below);
            Segments(out + if SideOf(cur, below) == side then [Gap, c, cur] else [c]) ==
            Segments(out) + Part(prev, cur, below, side)
  {
    var c := Crossing(prev, cur, below);
    if SideOf(cur, below) == side { SegmentsRestart(out, c, cur); } else { SegmentsAppend(out, c); }
  }

  lemma {:induction false} SegmentsAreParts(rows: seq<Row>, n: nat, below: real, side: Side)
    requires n <= |rows|
    ensures var drawn := Segments(Out(rows, n, below, true, side));
            && |drawn| == |Parts(rows, n, below, side)| + CountBridges(rows, n, below, side)
            && (CountBridges(rows, n, below, side) == 0 ==> drawn == Parts(rows, n, below, side))
  {
    if n > 0 {
      SegmentsAreParts(rows, n - 1, below, side);
      LastOut(rows, n - 1, below, side);
      EmitSegments(rows, n - 1, below, side, Out(rows, n - 1, below, true, side));
    }
  }

  lemma {:induction false} BridgesCounted(rows: seq<Row>, n: nat, below: real)
    requires n <= |rows|
    ensures CountBridges(rows, n, below, Upper) == 0 && CountBridges(rows, n, below, Lower) == 0 <==>
            forall i | 0 <= i < n :: !Bridges(rows, i, below)
  {
    if n > 0 { BridgesCounted(rows, n - 1, below); }
  }

  /** Together the two outputs draw the original segments, cut at the threshold, and nothing
      else, exactly if no point bridges a gap. */
  lemma SplitIsExact(rows: seq<Row>, below: real)
    ensures (forall side :: Segments(Out(rows, |rows|, below, true, side)) == Parts(rows, |rows|, below, side)) <==>
            forall i | 0 <= i < |rows| :: !Bridges(rows, i, below)
  {
    SegmentsAreParts(rows, |rows|, below, Upper);
    SegmentsAreParts(rows, |rows|, below, Lower);
    BridgesCounted(rows, |rows|, below);
    if forall side :: Segments(Out(rows, |rows|, below, true, side)) == Parts(rows, |rows|, below, side) {
      assert Segments(Out(rows, |rows|, below, true, Upper)) == Parts(rows, |rows|, below, Upper);
      assert Segments(Out(rows, |rows|, below, true, Lower)) == Parts(rows, |rows|, below, Lower);
    } else {
      var side :| Segments(Out(rows, |rows|, below, true, side)) != Parts(rows, |rows|, below, side);
      SegmentsAreParts(rows, |rows|, below, side);
    }
  }

  function PtOf(r: Row): Pt
    requires r.Point?
  {
    Pt(r.x, r.y)
  }

  /** The crossing is the point of the segment at the threshold. */
  lemma CrossingIsCut(a: Row, b: Row, below: real)
    requires a.Point? && b.Point? && SideOf(a, below) != SideOf(b, below)
    ensures var s := (below - a.y) / (b.y - a.y);
            0.0 <= s <= 1.0 && PtOf(Crossing(a, b, below)) == At(PtOf(a), PtOf(b), s)
    ensures Crossing(a, b, below).y == below && Crossing(a, b, below).rest == b.rest
  {
    var s, d, w := (below - a.y) / (b.y - a.y), b.y - a.y, b.x - a.x;
    Cut(a.y, b.y, below, s);
    Scale(below - a.y, d);
    assert below - b.y == (s - 1.0) * d;
    assert (below - b.y) * w == ((s - 1.0) * w) * d;
    Quotient((below - b.y) * w, (s - 1.0) * w, d);
    assert (s - 1.0) * w == s * w - w;
  }

  lemma Quotient(a: real, q: real, d: real)
    requires d != 0.0 && a == q * d
    ensures a / d == q
  {
  }

  ghost predicate Covers(parts: seq<(Row, Row)>, p: Pt) {
    exists k :: 0 <= k < |parts| && parts[k].0.Point? && parts[k].1.Point? && On(p, PtOf(parts[k].0), PtOf(parts[k].1))
  }

  /** The parts of a segment are its points from the threshold up, and from it down. */
  lemma PartsAreHalves(a: Row, b: Row, below: real, p: Pt)
    requires a.Point? && b.Point?
    ensures Covers(Part(a, b, below, Upper), p) <==> On(p, PtOf(a), PtOf(b)) && p.y >= below
    ensures Covers(Part(a, b, below, Lower), p) ==> On(p, PtOf(a), PtOf(b)) && p.y <= below
    ensures On(p, PtOf(a), PtOf(b)) && p.y < below ==> Covers(Part(a, b, below, Lower), p)
  {
    if SideOf(a, below) == SideOf(b, below) {
      WholeIsHalf(a, b, below, p);
    } else {
      var c := Crossing(a, b, below);
      CoversOne(a, c, p);
      CoversOne(c, b, p);
      CutsAreHalves(PtOf(a), PtOf(b), PtOf(c), a, b, below, p);
    }
  }

  lemma CoversOne(c: Row, d: Row, p: Pt)
    requires c.Point? && d.Point?
    ensures Covers([(c, d)], p) <==> On(p, PtOf(c), PtOf(d))
  {
    var parts := [(c, d)];
    if On(p, PtOf(c), PtOf(d)) { assert parts[0].0 == c && parts[0].1 == d; }
  }

  lemma WholeIsHalf(a: Row, b: Row, below: real, p: Pt)
    requires a.Point? && b.Point? && SideOf(a, below) == SideOf(b, below)
    ensures Covers(Part(a, b, below, Upper), p) <==> On(p, PtOf(a), PtOf(b)) && p.y >= below
    ensures Covers(Part(a, b, below, Lower), p) ==> On(p, PtOf(a), PtOf(b)) && p.y <= below
    ensures On(p, PtOf(a), PtOf(b)) && p.y < below ==> Covers(Part(a, b, below, Lower), p)
  {
    var v, w := PtOf(a), PtOf(b);
    CoversOne(a, b, p);
    assert !Covers([], p);
    if SideOf(a, below).Upper? {
      KeepAll(v, w, YMin(below));
    } else {
      DropAll(v, w, YMin(below));
      KeepAll(v, w, YMax(below));
    }
  }

  lemma CutsAreHalves(v: Pt, w: Pt, c: Pt, a: Row, b: Row, below: real, p: Pt)
    requires a.Point? && b.Point? && v == PtOf(a) && w == PtOf(b) && SideOf(a, below) != SideOf(b, below)
    requires c == PtOf(Crossing(a, b, below))
    ensures On(p, v, w) && p.y >= below <==> if SideOf(a, below).Upper? then On(p, v, c) else On(p, c, w)
    ensures On(p, v, w) && p.y <= below <==> if SideOf(a, below).Upper? then On(p, c, w) else On(p, v, c)
  {
    CrossingIsCut(a, b, below);
    if SideOf(a, below).Upper? {
      CutLast(v, w, YMin(below));
      if v.y > below { CutFirst(v, w, YMax(below)); } else { TouchesFirst(v, w, below); }
    } else {
      CutFirst(v, w, YMin(below));
      if w.y > below { CutLast(v, w, YMax(below)); } else { TouchesLast(v, w, below); }
    }
  }

  lemma TouchesFirst(v: Pt, w: Pt, below: real)
    requires v.y == below > w.y
    ensures At(v, w, (below - v.y) / (w.y - v.y)) == v && IsClip(v, w, YMax(below), true, v, w)
  {
    Ends(v, w);
    KeepAll(v, w, YMax(below));
    Quotient(below - v.y, 0.0, w.y - v.y);
  }

  lemma TouchesLast(v: Pt, w: Pt, below: real)
    requires w.y == below > v.y
    ensures At(v, w, (below - v.y) / (w.y - v.y)) == w && IsClip(v, w, YMax(below), true, v, w)
  {
    Ends(v, w);
    KeepAll(v, w, YMax(below));
    Quotient(below - v.y, 1.0, w.y - v.y);
  }

  // ---- both outputs together cover the original ------------------------------------------------

  lemma CoversMore(parts: seq<(Row, Row)>, more: seq<(Row, Row)>, p: Pt)
    ensures Covers(parts + more, p) <==> Covers(parts, p) || Covers(more, p)
  {
    var all, n := parts + more, |parts|;
    if k :| 0 <= k < n && parts[k].0.Point? && parts[k].1.Point? && On(p, PtOf(parts[k].0), PtOf(parts[k].1)) {
      assert all[k] == parts[k];
    }
    if k :| 0 <= k < |more| && more[k].0.Point? && more[k].1.Point? && On(p, PtOf(more[k].0), PtOf(more[k].1)) {
      assert all[n + k] == more[k];
    }
    if k :| 0 <= k < |all| && all[k].0.Point? && all[k].1.Point? && On(p, PtOf(all[k].0), PtOf(all[k].1)) {
      if k < n { assert parts[k] == all[k]; } else { assert more[k - n] == all[k]; }
    }
  }

  /** What one segment becomes, if there is one. */
  lemma PartsCoverOne(a: Row, b: Row, below: real, p: Pt)
    ensures Covers(Part(a, b, below, Upper), p) <==> Covers(Joined(a, b), p) && p.y >= below
    ensures Covers(Part(a, b, below, Lower), p) ==> Covers(Joined(a, b), p) && p.y <= below
    ensures Covers(Joined(a, b), p) && p.y < below ==> Covers(Part(a, b, below, Lower), p)
  {
    if a.Point? && b.Point? {
      PartsAreHalves(a, b, below, p);
      CoversOne(a, b, p);
    } else {
      assert !Covers([], p);
    }
  }

  lemma {:induction false} PartsCover(rows: seq<Row>, n: nat, below: real, p: Pt)
    requires n <= |rows|
    ensures Covers(Parts(rows, n, below, Upper), p) <==> Covers(Segments(rows[..n]), p) && p.y >= below
    ensures Covers(Parts(rows, n, below, Lower), p) ==> Covers(Segments(rows[..n]), p) && p.y <= below
    ensures Covers(Segments(rows[..n]), p) && p.y < below ==> Covers(Parts(rows, n, below, Lower), p)
  {
    if n < 2 {
      assert !Covers([], p);
    } else {
      var a, b := rows[n - 2], rows[n - 1];
      PartsCover(rows, n - 1, below, p);
      PartsCoverOne(a, b, below, p);
      assert rows[..n][..n - 1] == rows[..n - 1];
      assert Segments(rows[..n]) == Segments(rows[..n - 1]) + Joined(a, b);
      CoversMore(Segments(rows[..n - 1]), Joined(a, b), p);
      CoversMore(Parts(rows, n - 1, below, Upper), Part(a, b, below, Upper), p);
      CoversMore(Parts(rows, n - 1, below, Lower), Part(a, b, below, Lower), p);
    }
  }

  /** Where no point bridges a gap, the outputs together cover exactly what the original
      covers: the upper one all of it from the threshold up, the lower one all below and
      nothing above. */
  lemma SplitCovers(rows: seq<Row>, below: real, p: Pt)
    requires forall i | 0 <= i < |rows| :: !Bridges(rows, i, below)
    ensures var upper, lower := Out(rows, |rows|, below, true, Upper), Out(rows, |rows|, below, true, Lower);
            && (Covers(Segments(rows), p) <==> Covers(Segments(upper), p) || Covers(Segments(lower), p))
            && (Covers(Segments(upper), p) <==> Covers(Segments(rows), p) && p.y >= below)
            && (Covers(Segments(lower), p) ==> p.y <= below)
  {
    BridgesCounted(rows, |rows|, below);
    SegmentsAreParts(rows, |rows|, below, Upper);
    SegmentsAreParts(rows, |rows|, below, Lower);
    PartsCover(rows, |rows|, below, p);
    assert rows[..|rows|] == rows;
  }

  /** A line over a gap: both points are above five, the gap counts as below. */
  lemma GapIsLost()
    ensures var rows := [Point(0.0, 10.0, []), Gap, Point(2.0, 10.0, [])];
            Segments(rows) == [] && Segments(Out(rows, 3, 5.0, true, Upper)) == [(rows[0], rows[2])]
  {
  }
}
