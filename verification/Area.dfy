/** Filling a line series down to its bottom: one loop that sweeps forward along the top of
    each run of points, back along its bottom, and on to the next run. */
module Area {
  import opened Polylines
  import opened Geometry
  import opened Clip
  import opened Options

  // ---- one segment ---------------------------------------------------------------------

  /** The part of a segment between the vertical borders. */
  function ClipX(a: Pt, b: Pt, axes: Axes): Option<(Pt, Pt)> {
    match ClipTo(a, b, XMin(axes.xmin))
    case None => None
    case Some((c, d)) => ClipTo(c, d, XMax(axes.xmax))
  }

  /** The part between the horizontal borders, if not both ends lie beyond the same one. */
  function ClipY(c: Pt, d: Pt, axes: Axes): (Pt, Pt)
    requires axes.ymin <= axes.ymax
    requires !(c.y >= axes.ymax && d.y >= axes.ymax) && !(c.y <= axes.ymin && d.y <= axes.ymin)
  {
    OnBorder(c, d, YMin(axes.ymin));
    var (e, f) := ClipTo(c, d, YMin(axes.ymin)).value;
    ClipTo(e, f, YMax(axes.ymax)).value
  }

  /** The lines drawn for a segment: along a border where it lies beyond it. */
  function Sketch(c: Pt, d: Pt, axes: Axes): (lines: seq<Pt>)
    requires axes.ymin <= axes.ymax
    ensures |lines| >= 2 && lines[0].x == c.x && lines[|lines| - 1].x == d.x
  {
    if c.y >= axes.ymax && d.y >= axes.ymax then [Pt(c.x, axes.ymax), Pt(d.x, axes.ymax)]
    else if c.y <= axes.ymin && d.y <= axes.ymin then [Pt(c.x, axes.ymin), Pt(d.x, axes.ymin)]
    else
      var (e, f) := ClipY(c, d, axes);
      (if e.x != c.x then [Pt(c.x, e.y)] else []) + [e, f] + (if f.x != d.x then [f, Pt(d.x, f.y)] else [])
  }

  method SketchSegment(a: Pt, b: Pt, axes: Axes) returns (visible: bool, lines: seq<Pt>)
    requires axes.ymin <= axes.ymax
    ensures lines == Lines(a, b, axes) && (visible <==> lines != [])
  {
    var c, d;
    visible, c, d := ClipXMin(a, b, axes.xmin);
    if !visible { return false, []; }
    visible, c, d := ClipXMax(c, d, axes.xmax);
    if !visible { return false, []; }
    if c.y >= axes.ymax && d.y >= axes.ymax {
      return true, [Pt(c.x, axes.ymax), Pt(d.x, axes.ymax)];
    } else if c.y <= axes.ymin && d.y <= axes.ymin {
      return true, [Pt(c.x, axes.ymin), Pt(d.x, axes.ymin)];
    }
    var e, f := CutY(c, d, axes);
    lines := [];
    if e.x != c.x { lines := lines + [Pt(c.x, e.y)]; }
    lines := lines + [e, f];
    if f.x != d.x { lines := lines + [f, Pt(d.x, f.y)]; }
  }

  method CutY(c: Pt, d: Pt, axes: Axes) returns (e: Pt, f: Pt)
    requires axes.ymin <= axes.ymax
    requires !(c.y >= axes.ymax && d.y >= axes.ymax) && !(c.y <= axes.ymin && d.y <= axes.ymin)
    ensures (e, f) == ClipY(c, d, axes)
  {
    e, f := c, d;
    OnBorder(e, f, YMin(axes.ymin));
    if e.y <= f.y && e.y < axes.ymin && f.y >= axes.ymin {
      e := Pt(Along(c.x, d.x, (axes.ymin - c.y) / (d.y - c.y)), axes.ymin);
    } else if f.y <= e.y && f.y < axes.ymin && e.y >= axes.ymin {
      f := Pt(Along(c.x, d.x, (axes.ymin - c.y) / (d.y - c.y)), axes.ymin);
    }
    OnBorder(e, f, YMax(axes.ymax));
    if e.y >= f.y && e.y > axes.ymax && f.y <= axes.ymax {
      e := Pt(Along(e.x, f.x, (axes.ymax - e.y) / (f.y - e.y)), axes.ymax);
    } else if f.y >= e.y && f.y > axes.ymax && e.y <= axes.ymax {
      f := Pt(Along(e.x, f.x, (axes.ymax - e.y) / (f.y - e.y)), axes.ymax);
    }
  }

  function Lines(a: Pt, b: Pt, axes: Axes): seq<Pt>
    requires axes.ymin <= axes.ymax
  {
    match ClipX(a, b, axes)
    case None => []
    case Some((c, d)) => Sketch(c, d, axes)
  }

  // ---- a run of points, and all of them ---------------------------------------------------

  datatype AreaOp = BeginPath | Path(op: PathOp) | Fill

  function LineTos(ps: seq<Pt>): seq<AreaOp> {
    seq(|ps|, i requires 0 <= i < |ps| => Path(LineTo(ps[i])))
  }

  /** A data point at its value, or at its bottom. */
  function Top(r: Row): Pt
    requires r.Point?
  {
    Pt(r.x, r.y)
  }

  function Bottom(r: Row): Pt
    requires r.Point? && r.rest != []
  {
    Pt(r.x, r.rest[0])
  }

  /** Each point has a bottom, in its third column. */
  ghost predicate Bottomed(rows: seq<Row>) {
    forall k | 0 <= k < |rows| && rows[k].Point? :: rows[k].rest != []
  }

  /** The lines between neighbours, along the top, and back along the bottom. */
  function TopLines(a: Row, b: Row, axes: Axes): seq<Pt>
    requires axes.ymin <= axes.ymax
  {
    if a.Gap? || b.Gap? then [] else Lines(Top(a), Top(b), axes)
  }

  function BottomLines(a: Row, b: Row, axes: Axes): seq<Pt>
    requires axes.ymin <= axes.ymax && (a.Point? ==> a.rest != []) && (b.Point? ==> b.rest != [])
  {
    if a.Gap? || b.Gap? then [] else Lines(Bottom(a), Bottom(b), axes)
  }

  /** Along the tops of rows lo to hi. */
  ghost function Forward(rows: seq<Row>, lo: nat, hi: int, axes: Axes): seq<Pt>
    requires hi < |rows| && axes.ymin <= axes.ymax
  {
    if hi <= lo then []
    else Forward(rows, lo, hi - 1, axes) + TopLines(rows[hi - 1], rows[hi], axes)
  }

  /** Back along the bottoms of rows hi to lo. */
  ghost function Backward(rows: seq<Row>, lo: nat, hi: int, axes: Axes): seq<Pt>
    requires hi < |rows| && axes.ymin <= axes.ymax && Bottomed(rows)
  {
    if hi <= lo then []
    else BottomLines(rows[hi], rows[hi - 1], axes) + Backward(rows, lo, hi - 1, axes)
  }

  /** One run of points, rows lo to hi - 1: an area is drawn if anything of it is visible. */
  ghost function RunArea(rows: seq<Row>, lo: nat, hi: nat, axes: Axes, base: real): seq<AreaOp>
    requires hi <= |rows| && axes.ymin <= axes.ymax && Bottomed(rows)
  {
    var top := Forward(rows, lo, hi - 1, axes);
    if top == [] then []
    else
      [BeginPath, Path(MoveTo(Pt(top[0].x, base)))] + LineTos(top) + LineTos(Backward(rows, lo, hi - 1, axes)) + [Fill]
  }

  /** The areas of the runs from row lo on, of which rows lo to i - 1 are points. */
  ghost function Areas(rows: seq<Row>, lo: nat, i: nat, axes: Axes, base: real): seq<AreaOp>
    requires axes.ymin <= axes.ymax && Bottomed(rows)
    decreases |rows| - i
  {
    if i > |rows| then []
    else if i == |rows| then RunArea(rows, lo, i, axes, base)
    else if rows[i].Gap? then RunArea(rows, lo, i, axes, base) + Areas(rows, i + 1, i + 1, axes, base)
    else Areas(rows, lo, i + 1, axes, base)
  }

  // ---- the sweep -----------------------------------------------------------------------------

  /** Reading outside the points gives nothing, like a gap. */
  function RowAt(rows: seq<Row>, i: int): Row {
    if 0 <= i < |rows| then rows[i] else Gap
  }

  function Min(a: int, b: int): int { if a < b then a else b }

  ghost predicate Sweepable(rows: seq<Row>, axes: Axes) {
    axes.ymin <= axes.ymax && Bottomed(rows)
  }

  /** Going forward with no area open: the run at hand starts at row r, and nothing since row
      `start` is visible. */
  ghost predicate Closed(rows: seq<Row>, axes: Axes, base: real, start: nat, r: nat, i: nat,
      ops: seq<AreaOp>, whole: seq<AreaOp>) {
    && Sweepable(rows, axes) && start <= r <= i <= |rows| + 2
    && (forall k | r <= k < Min(i, |rows|) :: rows[k].Point?)
    && Forward(rows, start, Min(i, |rows| - 1), axes) == []
    && ops + Areas(rows, r, i, axes, base) == whole
  }

  /** Going forward with the area of the run open: its top is drawn up to row i. */
  ghost predicate Opened(rows: seq<Row>, axes: Axes, base: real, start: nat, r: nat, i: nat,
      before: seq<AreaOp>, ops: seq<AreaOp>, whole: seq<AreaOp>) {
    && Sweepable(rows, axes) && start <= r < i < |rows|
    && (forall k | r <= k <= i :: rows[k].Point?)
    && Forward(rows, start, r, axes) == []
    && var top := Forward(rows, r, i, axes);
    && top != []
    && ops == before + [BeginPath, Path(MoveTo(Pt(top[0].x, base)))] + LineTos(top)
    && before + Areas(rows, r, i, axes, base) == whole
  }

  /** Going back from row `end`, to row `start`. */
  ghost predicate Swept(rows: seq<Row>, axes: Axes, base: real, start: nat, i: nat, end: nat,
      ops: seq<AreaOp>, whole: seq<AreaOp>) {
    && Sweepable(rows, axes) && start <= i <= end <= |rows| && start < end
    && ops + LineTos(Backward(rows, start, Min(i, end - 1), axes)) + [Fill] + Areas(rows, end + 1, end + 1, axes, base)
       == whole
  }

  lemma {:induction false} ForwardSplit(rows: seq<Row>, lo: nat, r: nat, hi: int, axes: Axes)
    requires lo <= r <= hi < |rows| && axes.ymin <= axes.ymax
    ensures Forward(rows, lo, hi, axes) == Forward(rows, lo, r, axes) + Forward(rows, r, hi, axes)
    decreases hi
  {
    hide TopLines;
    if r < hi {
      ForwardSplit(rows, lo, r, hi - 1, axes);
    } else {
      assert Forward(rows, r, hi, axes) == [];
    }
  }

  lemma {:induction false} BackwardSplit(rows: seq<Row>, lo: nat, r: nat, hi: int, axes: Axes)
    requires lo <= r <= hi < |rows| && Sweepable(rows, axes)
    ensures Backward(rows, lo, hi, axes) == Backward(rows, r, hi, axes) + Backward(rows, lo, r, axes)
    decreases hi
  {
    hide BottomLines;
    if r < hi {
      BackwardSplit(rows, lo, r, hi - 1, axes);
    } else {
      assert Backward(rows, r, hi, axes) == [];
    }
  }

  /** Whether a segment is visible only depends on its keys, and not on its direction. */
  lemma HiddenEitherWay(a: Pt, b: Pt, c: Pt, d: Pt, axes: Axes)
    requires axes.ymin <= axes.ymax && a.x == d.x && b.x == c.x
    ensures Lines(a, b, axes) == [] <==> Lines(c, d, axes) == []
  {
    OnBorder(a, b, XMin(axes.xmin));
    OnBorder(c, d, XMin(axes.xmin));
  }

  lemma {:induction false} HiddenBack(rows: seq<Row>, lo: nat, hi: int, axes: Axes)
    requires hi < |rows| && Sweepable(rows, axes) && Forward(rows, lo, hi, axes) == []
    ensures Backward(rows, lo, hi, axes) == []
    decreases hi
  {
    if lo < hi {
      HiddenBack(rows, lo, hi - 1, axes);
      if rows[hi - 1].Point? && rows[hi].Point? {
        HiddenEitherWay(Top(rows[hi - 1]), Top(rows[hi]), Bottom(rows[hi]), Bottom(rows[hi - 1]), axes);
      }
    }
  }

  lemma ClosedSkip(rows: seq<Row>, axes: Axes, base: real, start: nat, r: nat, i: nat,
      ops: seq<AreaOp>, whole: seq<AreaOp>)
    requires Closed(rows, axes, base, start, r, i, ops, whole) && i < |rows| + 2
    requires TopLines(RowAt(rows, i), RowAt(rows, i + 1), axes) == []
    ensures Closed(rows, axes, base, start, if RowAt(rows, i).Gap? then i + 1 else r, i + 1, ops, whole)
  {
    hide Lines, Backward, RunArea, TopLines;
    if RowAt(rows, i).Gap? && i <= |rows| { NothingInRun(rows, axes, base, start, r, i); }
  }

  lemma NothingInRun(rows: seq<Row>, axes: Axes, base: real, start: nat, r: nat, i: nat)
    requires Sweepable(rows, axes) && start <= r <= i <= |rows|
    requires Forward(rows, start, Min(i, |rows| - 1), axes) == []
    ensures RunArea(rows, r, i, axes, base) == []
  {
    hide TopLines, Backward;
    if r < i {
      ForwardSplit(rows, start, i - 1, Min(i, |rows| - 1), axes);
      ForwardSplit(rows, start, r, i - 1, axes);
    }
  }

  lemma ClosedOpen(rows: seq<Row>, axes: Axes, base: real, start: nat, r: nat, i: nat,
      ops: seq<AreaOp>, whole: seq<AreaOp>)
    requires Closed(rows, axes, base, start, r, i, ops, whole) && i + 1 < |rows|
    requires rows[i].Point? && rows[i + 1].Point? && Lines(Top(rows[i]), Top(rows[i + 1]), axes) != []
    ensures var lines := Lines(Top(rows[i]), Top(rows[i + 1]), axes);
            Opened(rows, axes, base, start, r, i + 1, ops,
                   ops + [BeginPath, Path(MoveTo(Pt(lines[0].x, base)))] + LineTos(lines), whole)
  {
    hide Lines, RunArea, Backward;
    ForwardSplit(rows, start, r, i, axes);
    assert Forward(rows, r, i + 1, axes) == [] + TopLines(rows[i], rows[i + 1], axes);
  }

  lemma LineTosConcat(a: seq<Pt>, b: seq<Pt>)
    ensures LineTos(a + b) == LineTos(a) + LineTos(b)
  {
  }

  lemma OpenedMore(rows: seq<Row>, axes: Axes, base: real, start: nat, r: nat, i: nat,
      before: seq<AreaOp>, ops: seq<AreaOp>, whole: seq<AreaOp>)
    requires Opened(rows, axes, base, start, r, i, before, ops, whole) && RowAt(rows, i + 1).Point?
    ensures Opened(rows, axes, base, start, r, i + 1, before,
                   ops + LineTos(Lines(Top(rows[i]), Top(rows[i + 1]), axes)), whole)
  {
    hide Lines, RunArea, Backward;
  }

  lemma Turn(rows: seq<Row>, axes: Axes, base: real, start: nat, r: nat, i: nat,
      before: seq<AreaOp>, ops: seq<AreaOp>, whole: seq<AreaOp>)
    requires Opened(rows, axes, base, start, r, i, before, ops, whole) && RowAt(rows, i + 1).Gap?
    ensures Swept(rows, axes, base, start, i + 1, i + 1, ops, whole) && start <= i
  {
    BackwardSplit(rows, start, r, i, axes);
    HiddenBack(rows, start, r, axes);
    AreasAtGap(rows, axes, base, r, i);
    assert Backward(rows, start, i, axes) == Backward(rows, r, i, axes);
    var top := Forward(rows, r, i, axes);
    Regroup(before, [BeginPath, Path(MoveTo(Pt(top[0].x, base)))], LineTos(top),
            LineTos(Backward(rows, r, i, axes)), [Fill], Areas(rows, i + 2, i + 2, axes, base));
  }

  lemma Regroup(before: seq<AreaOp>, h: seq<AreaOp>, t: seq<AreaOp>, b: seq<AreaOp>, f: seq<AreaOp>, a: seq<AreaOp>)
    ensures (before + h + t) + b + f + a == before + ((h + t + b + f) + a)
  {
  }

  lemma AreasAtGap(rows: seq<Row>, axes: Axes, base: real, r: nat, i: nat)
    requires Sweepable(rows, axes) && i < |rows| && rows[i].Point? && RowAt(rows, i + 1).Gap?
    ensures Areas(rows, r, i, axes, base) == RunArea(rows, r, i + 1, axes, base) + Areas(rows, i + 2, i + 2, axes, base)
  {
  }

  lemma SweptMore(rows: seq<Row>, axes: Axes, base: real, start: nat, i: nat, end: nat,
      ops: seq<AreaOp>, whole: seq<AreaOp>)
    requires Swept(rows, axes, base, start, i, end, ops, whole) && start < i && RowAt(rows, end).Gap?
    ensures Swept(rows, axes, base, start, i - 1, end,
                  ops + LineTos(BottomLines(RowAt(rows, i), RowAt(rows, i - 1), axes)), whole)
  {
    hide BottomLines, Areas;
    if i < end {
      var lines, rest := BottomLines(rows[i], rows[i - 1], axes), Backward(rows, start, i - 1, axes);
      LineTosConcat(lines, rest);
      assert (ops + LineTos(lines)) + LineTos(rest) == ops + LineTos(lines + rest);
    } else {
      GapHasNoLines(rows, i, axes);
      assert ops + LineTos([]) == ops;
    }
  }

  lemma GapHasNoLines(rows: seq<Row>, i: nat, axes: Axes)
    requires Sweepable(rows, axes) && RowAt(rows, i).Gap?
    ensures BottomLines(RowAt(rows, i), RowAt(rows, i - 1), axes) == []
  {
  }

  lemma SweptEnd(rows: seq<Row>, axes: Axes, base: real, start: nat, end: nat, ops: seq<AreaOp>, whole: seq<AreaOp>)
    requires Swept(rows, axes, base, start, start, end, ops, whole)
    ensures Closed(rows, axes, base, end + 1, end + 1, end + 1, ops + [Fill], whole)
  {
  }

  /** The level areas go down to. */
  function Base(axes: Axes): real {
    var above := if axes.ymin > 0.0 then axes.ymin else 0.0;
    if above < axes.ymax then above else axes.ymax
  }

  lemma Starts(rows: seq<Row>, axes: Axes, base: real)
    requires Sweepable(rows, axes)
    ensures Closed(rows, axes, base, 0, 0, 0, [], Areas(rows, 0, 0, axes, base))
  {
  }

  lemma Stops(rows: seq<Row>, axes: Axes, base: real, start: nat, r: nat, i: nat, ops: seq<AreaOp>, whole: seq<AreaOp>)
    requires Closed(rows, axes, base, start, r, i, ops, whole) && i > |rows|
    ensures ops == whole
  {
  }

  method PlotLineArea(points: seq<Row>, axes: Axes) returns (ops: seq<AreaOp>)
    requires Sweepable(points, axes)
    ensures ops == Areas(points, 0, 0, axes, Base(axes))
  {
    hide Closed, Opened, Swept, Areas;
    ops := [];
    var bottom, i, ps, areaOpen, segmentStart, segmentEnd := Base(axes), 0, 1, false, 0, 0;
    ghost var r, before, whole: seq<AreaOp> := 0, [], Areas(points, 0, 0, axes, bottom);
    Starts(points, axes, bottom);
    while true
      invariant 0 <= segmentStart && 0 <= segmentEnd && 0 <= r && (ps == 1 || ps == -1)
      invariant 0 <= i && if ps == 1 then i <= |points| + 2 else segmentStart <= i <= segmentEnd <= |points|
      invariant ps == 1 && areaOpen ==> i < |points| && points[i].Point?
      invariant ps == -1 ==> areaOpen && RowAt(points, segmentEnd).Gap?
      invariant ps == 1 && !areaOpen ==> Closed(points, axes, bottom, segmentStart, r, i, ops, whole)
      invariant ps == 1 && areaOpen ==> Opened(points, axes, bottom, segmentStart, r, i, before, ops, whole)
      invariant ps == -1 ==> Swept(points, axes, bottom, segmentStart, i, segmentEnd, ops, whole)
      decreases |points| + 3 - (if ps == 1 then i else segmentEnd), if ps == 1 then 0 else i - segmentStart + 1
    {
      if ps > 0 && i > |points| + 1 {
        Stops(points, axes, bottom, segmentStart, r, i, ops, whole);
        break;
      }
      i := i + ps;
      var p1, p2 := RowAt(points, i - ps), RowAt(points, i);
      if areaOpen {
        if ps > 0 && p1.Point? && p2.Gap? {
          Turn(points, axes, bottom, segmentStart, r, i - 1, before, ops, whole);
          segmentEnd := i;
          ps := -ps;
          continue;
        }
        if ps < 0 && i == segmentStart + ps {
          SweptEnd(points, axes, bottom, segmentStart, segmentEnd, ops, whole);
          ops := ops + [Fill];
          areaOpen := false;
          ps := -ps;
          segmentStart := segmentEnd + ps;
          i := segmentStart;
          r := i;
          continue;
        }
      }
      ghost var ops0, wasOpen := ops, areaOpen;
      if p1.Gap? || p2.Gap? {
        if ps == 1 {
          ClosedSkip(points, axes, bottom, segmentStart, r, i - 1, ops, whole);
          r := if p1.Gap? then i else r;
        } else {
          SweptMore(points, axes, bottom, segmentStart, i + 1, segmentEnd, ops, whole);
          assert ops + LineTos([]) == ops;
        }
        continue;
      }
      // The value is in the second column going forward, in the third going back.
      var a, b := if ps == 1 then Top(p1) else Bottom(p1), if ps == 1 then Top(p2) else Bottom(p2);
      var visible, lines := SketchSegment(a, b, axes);
      if !visible {
        assert ops + LineTos(lines) == ops;
      } else {
        if !areaOpen {
          ops := ops + [BeginPath, Path(MoveTo(Pt(lines[0].x, bottom)))];
          before, areaOpen := ops0, true;
        }
        ops := ops + LineTos(lines);
      }
      if ps == -1 {
        SweptMore(points, axes, bottom, segmentStart, i + 1, segmentEnd, ops0, whole);
      } else if wasOpen {
        OpenedMore(points, axes, bottom, segmentStart, r, i - 1, before, ops0, whole);
      } else if visible {
        ClosedOpen(points, axes, bottom, segmentStart, r, i - 1, ops0, whole);
      } else {
        ClosedSkip(points, axes, bottom, segmentStart, r, i - 1, ops0, whole);
      }
    }
  }

  // ---- what the lines of a segment draw ------------------------------------------------------

  function ClampY(y: real, axes: Axes): real {
    if y < axes.ymin then axes.ymin else if y > axes.ymax then axes.ymax else y
  }

  function Clamp(p: Pt, axes: Axes): Pt { Pt(p.x, ClampY(p.y, axes)) }

  ghost predicate Drawn(lines: seq<Pt>, p: Pt) {
    exists k :: 0 < k < |lines| && On(p, lines[k - 1], lines[k])
  }

  lemma InsideParams(c: Pt, d: Pt, axes: Axes) returns (s1: real, s2: real)
    requires axes.ymin <= axes.ymax
    requires !(c.y >= axes.ymax && d.y >= axes.ymax) && !(c.y <= axes.ymin && d.y <= axes.ymin)
    ensures 0.0 <= s1 <= s2 <= 1.0 && ClipY(c, d, axes) == (At(c, d, s1), At(c, d, s2))
    ensures if c.y == ClampY(c.y, axes) then s1 == 0.0 else At(c, d, s1).y == ClampY(c.y, axes)
    ensures if d.y == ClampY(d.y, axes) then s2 == 1.0 else At(c, d, s2).y == ClampY(d.y, axes)
  {
    var u1, u2 := ClipParams(c, d, YMin(axes.ymin));
    var e, f := At(c, d, u1), At(c, d, u2);
    var v1, v2 := ClipParams(e, f, YMax(axes.ymax));
    AtPart(c, d, u1, u2, v1);
    AtPart(c, d, u1, u2, v2);
    AlongBetween(u1, u2, v1);
    AlongBetween(u1, u2, v2);
    Monotone(u1, u2, v1, v2);
    Ends(e, f);
    s1, s2 := Along(u1, u2, v1), Along(u1, u2, v2);
  }

  /** Clamped, a value stays on the border up to s1, changes evenly up to s2, and stays. */
  lemma ClampAlong(f1: real, f2: real, axes: Axes, s1: real, s2: real, t: real)
    requires axes.ymin <= axes.ymax && 0.0 <= s1 <= s2 <= 1.0 && 0.0 <= t <= 1.0
    requires if f1 == ClampY(f1, axes) then s1 == 0.0 else Along(f1, f2, s1) == ClampY(f1, axes)
    requires if f2 == ClampY(f2, axes) then s2 == 1.0 else Along(f1, f2, s2) == ClampY(f2, axes)
    ensures ClampY(Along(f1, f2, t), axes) == Along(f1, f2, if t < s1 then s1 else if t > s2 then s2 else t)
  {
    assert Along(f1, f2, 0.0) == f1 && Along(f1, f2, 1.0) == f2;
    Monotone(f1, f2, 0.0, t);
    Monotone(f1, f2, t, 1.0);
    Monotone(f1, f2, 0.0, s1);
    Monotone(f1, f2, s2, 1.0);
    Monotone(f1, f2, s1, t);
    Monotone(f1, f2, t, s2);
    Monotone(f1, f2, s1, s2);
  }

  /** Clamped points of a segment, over a part of it. */
  ghost predicate OnClamped(p: Pt, c: Pt, d: Pt, axes: Axes, s1: real, s2: real) {
    exists t: real :: s1 <= t <= s2 && p == Clamp(At(c, d, t), axes)
  }

  lemma FlatEnd(c: Pt, d: Pt, axes: Axes, y: real, s1: real, s2: real, p: Pt)
    requires 0.0 <= s1 <= s2 <= 1.0 && forall t | s1 <= t <= s2 :: ClampY(Along(c.y, d.y, t), axes) == y
    ensures OnClamped(p, c, d, axes, s1, s2) <==> On(p, Pt(Along(c.x, d.x, s1), y), Pt(Along(c.x, d.x, s2), y))
  {
    FlatPart(c, d, y, s1, s2, p);
    if t: real :| s1 <= t <= s2 && p == Clamp(At(c, d, t), axes) { assert p == Pt(Along(c.x, d.x, t), y); }
    if t: real :| s1 <= t <= s2 && p == Pt(Along(c.x, d.x, t), y) { assert p == Clamp(At(c, d, t), axes); }
  }

  lemma InnerPart(c: Pt, d: Pt, axes: Axes, s1: real, s2: real, p: Pt)
    requires 0.0 <= s1 <= s2 <= 1.0
    requires forall t | s1 <= t <= s2 :: ClampY(Along(c.y, d.y, t), axes) == Along(c.y, d.y, t)
    ensures OnClamped(p, c, d, axes, s1, s2) <==> On(p, At(c, d, s1), At(c, d, s2))
  {
    OnPart(c, d, s1, s2, p);
    if t: real :| s1 <= t <= s2 && p == Clamp(At(c, d, t), axes) { assert p == At(c, d, t); }
    if t: real :| s1 <= t <= s2 && p == At(c, d, t) { assert p == Clamp(At(c, d, t), axes); }
  }

  /** The lines of a segment draw the segment, clamped to the axes. */
  lemma SketchIsClamped(c: Pt, d: Pt, axes: Axes, p: Pt)
    requires axes.ymin <= axes.ymax
    ensures Drawn(Sketch(c, d, axes), p) <==> OnClamped(p, c, d, axes, 0.0, 1.0)
  {
    Ends(c, d);
    if (c.y >= axes.ymax && d.y >= axes.ymax) || (c.y <= axes.ymin && d.y <= axes.ymin) {
      var y := if c.y >= axes.ymax && d.y >= axes.ymax then axes.ymax else axes.ymin;
      forall t | 0.0 <= t <= 1.0 ensures ClampY(Along(c.y, d.y, t), axes) == y { AlongBetween(c.y, d.y, t); }
      FlatEnd(c, d, axes, y, 0.0, 1.0, p);
      DrawnOne([Pt(c.x, y), Pt(d.x, y)], p);
    } else {
      var s1, s2 := InsideParams(c, d, axes);
      PartlyInside(c, d, axes, s1, s2, p);
    }
  }

  lemma DrawnOne(lines: seq<Pt>, p: Pt)
    requires |lines| == 2
    ensures Drawn(lines, p) <==> On(p, lines[0], lines[1])
  {
  }

  lemma PartlyInside(c: Pt, d: Pt, axes: Axes, s1: real, s2: real, p: Pt)
    requires axes.ymin <= axes.ymax && 0.0 <= s1 <= s2 <= 1.0
    requires !(c.y >= axes.ymax && d.y >= axes.ymax) && !(c.y <= axes.ymin && d.y <= axes.ymin)
    requires ClipY(c, d, axes) == (At(c, d, s1), At(c, d, s2))
    requires if c.y == ClampY(c.y, axes) then s1 == 0.0 else At(c, d, s1).y == ClampY(c.y, axes)
    requires if d.y == ClampY(d.y, axes) then s2 == 1.0 else At(c, d, s2).y == ClampY(d.y, axes)
    ensures Drawn(Sketch(c, d, axes), p) <==> OnClamped(p, c, d, axes, 0.0, 1.0)
  {
    var e, f := At(c, d, s1), At(c, d, s2);
    forall t | 0.0 <= t <= 1.0
      ensures ClampY(Along(c.y, d.y, t), axes) == Along(c.y, d.y, if t < s1 then s1 else if t > s2 then s2 else t)
    {
      ClampAlong(c.y, d.y, axes, s1, s2, t);
    }
    FlatEnd(c, d, axes, e.y, 0.0, s1, p);
    InnerPart(c, d, axes, s1, s2, p);
    FlatEnd(c, d, axes, f.y, s2, 1.0, p);
    ThreeParts(p, c, d, axes, s1, s2);
    Ends(c, d);
    DrawnParts(c, d, e, f, p);
  }

  lemma ThreeParts(p: Pt, c: Pt, d: Pt, axes: Axes, s1: real, s2: real)
    requires 0.0 <= s1 <= s2 <= 1.0
    ensures OnClamped(p, c, d, axes, 0.0, 1.0) <==>
            OnClamped(p, c, d, axes, 0.0, s1) || OnClamped(p, c, d, axes, s1, s2) || OnClamped(p, c, d, axes, s2, 1.0)
  {
  }

  /** The lines from c's key along to e, on to f, and along to d's key. */
  lemma DrawnParts(c: Pt, d: Pt, e: Pt, f: Pt, p: Pt)
    ensures var lines := (if e.x != c.x then [Pt(c.x, e.y)] else []) + [e, f]
                         + (if f.x != d.x then [f, Pt(d.x, f.y)] else []);
            Drawn(lines, p) <==> On(p, Pt(c.x, e.y), e) || On(p, e, f) || On(p, f, Pt(d.x, f.y))
  {
    var front, back := if e.x != c.x then [Pt(c.x, e.y)] else [], if f.x != d.x then [f, Pt(d.x, f.y)] else [];
    var lines := front + [e, f] + back;
    var k := |front|;
    assert lines[k] == e && lines[k + 1] == f;
    Degenerate(e, p);
    Degenerate(f, p);
    Ends(e, f);
    if On(p, e, f) { assert On(p, lines[k + 1 - 1], lines[k + 1]); }
    if e.x != c.x && On(p, Pt(c.x, e.y), e) { assert On(p, lines[1 - 1], lines[1]); }
    if f.x != d.x && On(p, f, Pt(d.x, f.y)) { assert On(p, lines[k + 3 - 1], lines[k + 3]); }
  }

  lemma Degenerate(q: Pt, p: Pt)
    ensures On(p, q, q) <==> p == q
  {
    Ends(q, q);
    forall t ensures At(q, q, t) == q {
      assert t * 0.0 == 0.0;
    }
  }

  /** A point of the segment, between the vertical borders, clamped to the horizontal ones. */
  ghost predicate Shown(a: Pt, b: Pt, axes: Axes, p: Pt) {
    exists q :: On(q, a, b) && axes.xmin <= q.x <= axes.xmax && p == Clamp(q, axes)
  }

  /** What the lines between two points draw: the segment between the vertical borders, with
      its values clamped to the horizontal ones. */
  lemma LinesAreClamped(a: Pt, b: Pt, axes: Axes, p: Pt)
    requires axes.ymin <= axes.ymax
    ensures Drawn(Lines(a, b, axes), p) <==> Shown(a, b, axes, p)
  {
    ClipIsExact(a, b, XMin(axes.xmin));
    match ClipTo(a, b, XMin(axes.xmin)) {
      case None =>
      case Some((c, d)) =>
        ClipIsExact(c, d, XMax(axes.xmax));
        match ClipTo(c, d, XMax(axes.xmax)) {
          case None =>
          case Some((e, f)) =>
            SketchIsClamped(e, f, axes, p);
            ClampedPoint(e, f, axes, p);
        }
    }
  }

  lemma ClampedPoint(c: Pt, d: Pt, axes: Axes, p: Pt)
    ensures OnClamped(p, c, d, axes, 0.0, 1.0) <==> exists q :: On(q, c, d) && p == Clamp(q, axes)
  {
  }

  // ---- what the lines along a run draw ---------------------------------------------------------

  ghost predicate TopShown(rows: seq<Row>, k: nat, axes: Axes, p: Pt) {
    0 < k < |rows| && rows[k - 1].Point? && rows[k].Point? && Shown(Top(rows[k - 1]), Top(rows[k]), axes, p)
  }

  /** Some segment from row lo to row hi shows p. */
  ghost predicate SeriesShown(rows: seq<Row>, lo: nat, hi: int, axes: Axes, p: Pt) {
    exists k: nat :: lo < k <= hi && TopShown(rows, k, axes, p)
  }

  ghost predicate BottomShown(rows: seq<Row>, k: nat, axes: Axes, p: Pt)
    requires Bottomed(rows)
  {
    0 < k < |rows| && rows[k - 1].Point? && rows[k].Point? && Shown(Bottom(rows[k]), Bottom(rows[k - 1]), axes, p)
  }

  ghost predicate BottomsShown(rows: seq<Row>, lo: nat, hi: int, axes: Axes, p: Pt)
    requires Bottomed(rows)
  {
    exists k: nat :: lo < k <= hi && BottomShown(rows, k, axes, p)
  }

  ghost predicate SortedRun(rows: seq<Row>, lo: nat, hi: nat) {
    && lo <= hi < |rows| && (forall k | lo <= k <= hi :: rows[k].Point?)
    && forall k, l | lo <= k <= l <= hi :: rows[k].x <= rows[l].x
  }

  lemma InRows(rows: seq<Row>, lo: nat, hi: nat)
    requires SortedRun(rows, lo, hi)
    ensures hi < |rows|
  {
  }

  lemma Shorter(rows: seq<Row>, lo: nat, hi: nat)
    requires SortedRun(rows, lo, hi) && lo < hi
    ensures hi < |rows| && rows[hi - 1].Point? && rows[hi].Point? && rows[hi - 1].x <= rows[hi].x
    ensures SortedRun(rows, lo, hi - 1)
    ensures Bottomed(rows) ==> rows[hi - 1].rest != [] && rows[hi].rest != []
  {
  }

  predicate Between(p: Pt, axes: Axes) { axes.xmin <= p.x <= axes.xmax }

  /** The second path goes on where the first ends, or one of them is not there. */
  predicate Meet(u: seq<Pt>, v: seq<Pt>) {
    u == [] || v == [] || (|u| >= 2 && |v| >= 2 && u[|u| - 1] == v[0])
  }

  lemma DrawnBoth(u: seq<Pt>, v: seq<Pt>, p: Pt)
    requires Meet(u, v)
    ensures Drawn(u + v, p) <==> Drawn(u, p) || Drawn(v, p)
  {
    if u == [] {
      assert u + v == v;
    } else if v == [] {
      assert u + v == u;
    } else {
      DrawnInBoth(u, v, p);
    }
  }

  lemma DrawnInBoth(u: seq<Pt>, v: seq<Pt>, p: Pt)
    requires |u| >= 2 && |v| >= 2 && u[|u| - 1] == v[0]
    ensures Drawn(u + v, p) <==> Drawn(u, p) || Drawn(v, p)
  {
    var w, n := u + v, |u|;
    Degenerate(v[0], p);
    Ends(u[n - 2], u[n - 1]);
    if k :| 0 < k < |u| && On(p, u[k - 1], u[k]) { assert On(p, w[k - 1], w[k]); }
    if k :| 0 < k < |v| && On(p, v[k - 1], v[k]) { assert On(p, w[n + k - 1], w[n + k]); }
    if k :| 0 < k < |w| && On(p, w[k - 1], w[k]) {
      if k < n {
        assert On(p, u[k - 1], u[k]);
      } else if k == n {
        assert On(p, u[n - 1 - 1], u[n - 1]);
      } else {
        assert On(p, v[k - n - 1], v[k - n]);
      }
    }
  }

  /** The lines of a segment start and end at its ends, clamped, where these are between the
      vertical borders; and there are none if both are beyond the same one. */
  lemma LineEndsAre(a: Pt, b: Pt, axes: Axes)
    requires axes.ymin <= axes.ymax
    ensures var lines := Lines(a, b, axes);
            && (lines != [] ==> |lines| >= 2)
            && (Between(a, axes) ==> lines != [] && lines[0] == Clamp(a, axes))
            && (Between(b, axes) ==> lines != [] && lines[|lines| - 1] == Clamp(b, axes))
            && (a.x < axes.xmin && b.x < axes.xmin ==> lines == [])
            && (a.x > axes.xmax && b.x > axes.xmax ==> lines == [])
  {
    OnBorder(a, b, XMin(axes.xmin));
    match ClipTo(a, b, XMin(axes.xmin)) {
      case None =>
      case Some((c, d)) =>
        ClippedBeyond(a, b, axes);
        OnBorder(c, d, XMax(axes.xmax));
        match ClipTo(c, d, XMax(axes.xmax)) {
          case None =>
          case Some((e, f)) => SketchEnds(e, f, axes);
        }
    }
  }

  lemma ClippedBeyond(a: Pt, b: Pt, axes: Axes)
    requires ClipTo(a, b, XMin(axes.xmin)).Some?
    ensures var (c, d) := ClipTo(a, b, XMin(axes.xmin)).value;
            a.x > axes.xmax && b.x > axes.xmax ==> c.x > axes.xmax && d.x > axes.xmax
  {
    var s1, s2 := ClipParams(a, b, XMin(axes.xmin));
    AlongBetween(a.x, b.x, s1);
    AlongBetween(a.x, b.x, s2);
  }

  lemma SketchEnds(c: Pt, d: Pt, axes: Axes)
    requires axes.ymin <= axes.ymax
    ensures var lines := Sketch(c, d, axes);
            lines[0] == Clamp(c, axes) && lines[|lines| - 1] == Clamp(d, axes)
  {
    if !(c.y >= axes.ymax && d.y >= axes.ymax) && !(c.y <= axes.ymin && d.y <= axes.ymin) {
      var s1, s2 := InsideParams(c, d, axes);
      Ends(c, d);
    }
  }

  lemma {:induction false} ForwardEnds(rows: seq<Row>, lo: nat, hi: nat, axes: Axes)
    requires SortedRun(rows, lo, hi) && axes.ymin <= axes.ymax
    ensures var path := Forward(rows, lo, hi, axes);
            && (path != [] ==> |path| >= 2)
            && (rows[hi].x < axes.xmin ==> path == [])
            && (path != [] && Between(Top(rows[hi]), axes) ==> path[|path| - 1] == Clamp(Top(rows[hi]), axes))
    decreases hi
  {
    if lo < hi {
      ForwardEnds(rows, lo, hi - 1, axes);
      LineEndsAre(Top(rows[hi - 1]), Top(rows[hi]), axes);
      hide Lines;
    }
  }

  /** Along the top of a run with increasing keys exactly the series between the vertical
      borders is drawn, clamped to the horizontal ones; where two segments meet, nothing is
      added. */
  lemma {:induction false} TopIsClamped(rows: seq<Row>, lo: nat, hi: nat, axes: Axes, p: Pt)
    requires SortedRun(rows, lo, hi) && axes.ymin <= axes.ymax
    ensures Drawn(Forward(rows, lo, hi, axes), p) <==> SeriesShown(rows, lo, hi, axes, p)
    decreases hi
  {
    hide *;
    if lo < hi {
      Shorter(rows, lo, hi);
      TopIsClamped(rows, lo, hi - 1, axes, p);
      TopMeets(rows, lo, hi, axes);
      LinesAreClamped(Top(rows[hi - 1]), Top(rows[hi]), axes, p);
      DrawnBoth(Forward(rows, lo, hi - 1, axes), Lines(Top(rows[hi - 1]), Top(rows[hi]), axes), p);
      TopStep(rows, lo, hi, axes, p);
    } else {
      InRows(rows, lo, hi);
      NoTop(rows, lo, hi, axes, p);
    }
  }

  lemma NoTop(rows: seq<Row>, lo: nat, hi: nat, axes: Axes, p: Pt)
    requires hi <= lo && hi < |rows| && axes.ymin <= axes.ymax
    ensures !Drawn(Forward(rows, lo, hi, axes), p) && !SeriesShown(rows, lo, hi, axes, p)
  {
  }

  lemma TopStep(rows: seq<Row>, lo: nat, hi: nat, axes: Axes, p: Pt)
    requires lo < hi < |rows| && rows[hi - 1].Point? && rows[hi].Point? && axes.ymin <= axes.ymax
    ensures Forward(rows, lo, hi, axes) ==
            Forward(rows, lo, hi - 1, axes) + Lines(Top(rows[hi - 1]), Top(rows[hi]), axes)
    ensures SeriesShown(rows, lo, hi, axes, p) <==>
            SeriesShown(rows, lo, hi - 1, axes, p) || Shown(Top(rows[hi - 1]), Top(rows[hi]), axes, p)
  {
    hide Lines, Shown;
    assert TopShown(rows, hi, axes, p) <==> Shown(Top(rows[hi - 1]), Top(rows[hi]), axes, p);
  }

  lemma TopMeets(rows: seq<Row>, lo: nat, hi: nat, axes: Axes)
    requires SortedRun(rows, lo, hi) && axes.ymin <= axes.ymax && lo < hi
    ensures rows[hi - 1].Point? && rows[hi].Point?
    ensures Meet(Forward(rows, lo, hi - 1, axes), Lines(Top(rows[hi - 1]), Top(rows[hi]), axes))
  {
    hide Forward, Lines, Clamp, Between, Meet, SortedRun;
    Shorter(rows, lo, hi);
    var a, b := Top(rows[hi - 1]), Top(rows[hi]);
    ForwardEnds(rows, lo, hi - 1, axes);
    LineEndsAre(a, b, axes);
    Meeting(Forward(rows, lo, hi - 1, axes), Lines(a, b, axes), a, axes);
  }

  /** Two paths with a common end, where it is between the borders; beyond one of them, there
      is at most one path. */
  lemma Meeting(u: seq<Pt>, v: seq<Pt>, m: Pt, axes: Axes)
    requires (u != [] ==> |u| >= 2) && (v != [] ==> |v| >= 2)
    requires m.x < axes.xmin || m.x > axes.xmax ==> u == [] || v == []
    requires u != [] && v != [] && Between(m, axes) ==> u[|u| - 1] == v[0]
    ensures Meet(u, v)
  {
  }

  lemma {:induction false} BackwardStarts(rows: seq<Row>, lo: nat, hi: nat, axes: Axes)
    requires SortedRun(rows, lo, hi) && axes.ymin <= axes.ymax && Bottomed(rows)
    ensures var path := Backward(rows, lo, hi, axes);
            && (path != [] ==> |path| >= 2)
            && (rows[hi].x < axes.xmin ==> path == [])
            && (path != [] && Between(Bottom(rows[hi]), axes) ==> path[0] == Clamp(Bottom(rows[hi]), axes))
    decreases hi
  {
    if lo < hi {
      BackwardStarts(rows, lo, hi - 1, axes);
      LineEndsAre(Bottom(rows[hi]), Bottom(rows[hi - 1]), axes);
      hide Lines;
    }
  }

  /** Back along the bottom the same is drawn of the series of the bottoms. */
  lemma {:induction false} BottomIsClamped(rows: seq<Row>, lo: nat, hi: nat, axes: Axes, p: Pt)
    requires SortedRun(rows, lo, hi) && axes.ymin <= axes.ymax && Bottomed(rows)
    ensures Drawn(Backward(rows, lo, hi, axes), p) <==> BottomsShown(rows, lo, hi, axes, p)
    decreases hi
  {
    hide *;
    if lo < hi {
      Shorter(rows, lo, hi);
      BottomIsClamped(rows, lo, hi - 1, axes, p);
      BottomMeets(rows, lo, hi, axes);
      LinesAreClamped(Bottom(rows[hi]), Bottom(rows[hi - 1]), axes, p);
      DrawnBoth(Lines(Bottom(rows[hi]), Bottom(rows[hi - 1]), axes), Backward(rows, lo, hi - 1, axes), p);
      BottomStep(rows, lo, hi, axes, p);
    } else {
      InRows(rows, lo, hi);
      NoBottom(rows, lo, hi, axes, p);
    }
  }

  lemma NoBottom(rows: seq<Row>, lo: nat, hi: nat, axes: Axes, p: Pt)
    requires hi <= lo && hi < |rows| && axes.ymin <= axes.ymax && Bottomed(rows)
    ensures !Drawn(Backward(rows, lo, hi, axes), p) && !BottomsShown(rows, lo, hi, axes, p)
  {
  }

  lemma BottomStep(rows: seq<Row>, lo: nat, hi: nat, axes: Axes, p: Pt)
    requires lo < hi < |rows| && rows[hi - 1].Point? && rows[hi].Point? && axes.ymin <= axes.ymax && Bottomed(rows)
    ensures Backward(rows, lo, hi, axes) ==
            Lines(Bottom(rows[hi]), Bottom(rows[hi - 1]), axes) + Backward(rows, lo, hi - 1, axes)
    ensures BottomsShown(rows, lo, hi, axes, p) <==>
            BottomsShown(rows, lo, hi - 1, axes, p) || Shown(Bottom(rows[hi]), Bottom(rows[hi - 1]), axes, p)
  {
    hide Lines, Shown;
    assert BottomShown(rows, hi, axes, p) <==> Shown(Bottom(rows[hi]), Bottom(rows[hi - 1]), axes, p);
  }

  lemma BottomMeets(rows: seq<Row>, lo: nat, hi: nat, axes: Axes)
    requires SortedRun(rows, lo, hi) && axes.ymin <= axes.ymax && Bottomed(rows) && lo < hi
    ensures rows[hi - 1].Point? && rows[hi].Point?
    ensures Meet(Lines(Bottom(rows[hi]), Bottom(rows[hi - 1]), axes), Backward(rows, lo, hi - 1, axes))
  {
    hide Backward, Lines, Clamp, Between, Meet, SortedRun;
    Shorter(rows, lo, hi);
    var a, b := Bottom(rows[hi]), Bottom(rows[hi - 1]);
    BackwardStarts(rows, lo, hi - 1, axes);
    LineEndsAre(a, b, axes);
    Meeting(Lines(a, b, axes), Backward(rows, lo, hi - 1, axes), b, axes);
  }

  // ---- areas are opened and filled in turn ------------------------------------------------------

  /** Paths are begun and filled in turn, lines only drawn in between; none is left open. */
  predicate Balanced(ops: seq<AreaOp>, open: bool) {
    if ops == [] then !open
    else
      match ops[0]
      case BeginPath => !open && Balanced(ops[1..], true)
      case Path(_) => open && Balanced(ops[1..], open)
      case Fill => open && Balanced(ops[1..], false)
  }

  lemma {:induction false} PathsBalanced(paths: seq<AreaOp>, rest: seq<AreaOp>)
    requires (forall k | 0 <= k < |paths| :: paths[k].Path?) && Balanced(rest, false)
    ensures Balanced(paths + [Fill] + rest, true)
  {
    var ops := paths + [Fill] + rest;
    if paths == [] {
      assert ops[1..] == rest;
    } else {
      PathsBalanced(paths[1..], rest);
      assert ops[0] == paths[0] && ops[1..] == paths[1..] + [Fill] + rest;
    }
  }

  lemma RunBalanced(rows: seq<Row>, lo: nat, hi: nat, axes: Axes, base: real, rest: seq<AreaOp>)
    requires hi <= |rows| && Sweepable(rows, axes) && Balanced(rest, false)
    ensures Balanced(RunArea(rows, lo, hi, axes, base) + rest, false)
  {
    hide Forward, Backward;
    var top := Forward(rows, lo, hi - 1, axes);
    if top == [] {
      assert [] + rest == rest;
    } else {
      var paths := [Path(MoveTo(Pt(top[0].x, base)))] + LineTos(top) + LineTos(Backward(rows, lo, hi - 1, axes));
      PathsBalanced(paths, rest);
      var ops := RunArea(rows, lo, hi, axes, base) + rest;
      assert ops[0] == BeginPath && ops[1..] == paths + [Fill] + rest;
    }
  }

  /** No area stays open, and none is begun in another. */
  lemma {:induction false} AreasBalanced(rows: seq<Row>, lo: nat, i: nat, axes: Axes, base: real)
    requires Sweepable(rows, axes)
    ensures Balanced(Areas(rows, lo, i, axes, base), false)
    decreases |rows| - i
  {
    hide RunArea;
    if i == |rows| {
      RunBalanced(rows, lo, i, axes, base, []);
      assert RunArea(rows, lo, i, axes, base) + [] == RunArea(rows, lo, i, axes, base);
    } else if i < |rows| {
      if rows[i].Gap? {
        AreasBalanced(rows, i + 1, i + 1, axes, base);
        RunBalanced(rows, lo, i, axes, base, Areas(rows, i + 1, i + 1, axes, base));
      } else {
        AreasBalanced(rows, lo, i + 1, axes, base);
      }
    }
  }

  // ---- which areas there are ---------------------------------------------------------------------

  /** The level on the chart that is nearest to zero. */
  lemma BaseIs(axes: Axes)
    requires axes.ymin <= axes.ymax
    ensures axes.ymin <= 0.0 <= axes.ymax ==> Base(axes) == 0.0
    ensures axes.ymin > 0.0 ==> Base(axes) == axes.ymin
    ensures axes.ymax < 0.0 ==> Base(axes) == axes.ymax
  {
  }

  /** A run with increasing keys that shows anything is one area: from the base up to where
      its top begins, along its top, back along its bottom, and filled. */
  lemma RunIs(rows: seq<Row>, lo: nat, hi: nat, axes: Axes, base: real) returns (top: seq<Pt>, bottom: seq<Pt>)
    requires SortedRun(rows, lo, hi) && Sweepable(rows, axes)
    ensures var area := RunArea(rows, lo, hi + 1, axes, base);
            area == if top == [] then []
                    else [BeginPath, Path(MoveTo(Pt(top[0].x, base)))] + LineTos(top + bottom) + [Fill]
    ensures forall p :: Drawn(top, p) <==> SeriesShown(rows, lo, hi, axes, p)
    ensures forall p :: Drawn(bottom, p) <==> BottomsShown(rows, lo, hi, axes, p)
    ensures top == [] <==> forall p :: !SeriesShown(rows, lo, hi, axes, p)
  {
    hide Drawn, SeriesShown, BottomsShown, Forward, Backward;
    top, bottom := Forward(rows, lo, hi, axes), Backward(rows, lo, hi, axes);
    forall p ensures Drawn(top, p) <==> SeriesShown(rows, lo, hi, axes, p) {
      TopIsClamped(rows, lo, hi, axes, p);
    }
    forall p ensures Drawn(bottom, p) <==> BottomsShown(rows, lo, hi, axes, p) {
      BottomIsClamped(rows, lo, hi, axes, p);
    }
    LineTosConcat(top, bottom);
    ForwardEnds(rows, lo, hi, axes);
    SomethingDrawn(top);
  }

  lemma SomethingDrawn(lines: seq<Pt>)
    requires lines != [] ==> |lines| >= 2
    ensures lines == [] <==> forall p :: !Drawn(lines, p)
  {
    if lines != [] {
      Ends(lines[0], lines[1]);
      assert On(lines[0], lines[1 - 1], lines[1]);
      assert Drawn(lines, lines[0]);
    }
  }

  /** A series without gaps is one run. */
  lemma {:induction false} OneRun(rows: seq<Row>, i: nat, axes: Axes, base: real)
    requires Sweepable(rows, axes) && i <= |rows| && forall k | i <= k < |rows| :: rows[k].Point?
    ensures Areas(rows, 0, i, axes, base) == RunArea(rows, 0, |rows|, axes, base)
    decreases |rows| - i
  {
    if i < |rows| { OneRun(rows, i + 1, axes, base); }
  }

  /** A gap parts the series: the areas before it, and those after it. */
  lemma AreasPart(a: seq<Row>, b: seq<Row>, axes: Axes, base: real)
    requires Sweepable(a, axes) && Sweepable(b, axes)
    ensures Sweepable(a + [Gap] + b, axes)
    ensures Areas(a + [Gap] + b, 0, 0, axes, base) == Areas(a, 0, 0, axes, base) + Areas(b, 0, 0, axes, base)
  {
    BothSweepable(a, b, axes);
    AreasBefore(a, b, 0, 0, axes, base);
    AreasAfter(a + [Gap], b, 0, 0, axes, base);
  }

  /** The same rows, d further on, give the same lines. */
  lemma {:induction false} SameForward(u: seq<Row>, v: seq<Row>, d: nat, lo: nat, hi: int, axes: Axes)
    requires hi < |u| && d + hi < |v| && axes.ymin <= axes.ymax && forall k | lo <= k <= hi :: v[d + k] == u[k]
    ensures Forward(v, d + lo, d + hi, axes) == Forward(u, lo, hi, axes)
    decreases hi
  {
    hide TopLines;
    if hi > lo {
      SameForward(u, v, d, lo, hi - 1, axes);
      assert v[d + (hi - 1)] == u[hi - 1];
    }
  }

  lemma {:induction false} SameBackward(u: seq<Row>, v: seq<Row>, d: nat, lo: nat, hi: int, axes: Axes)
    requires hi < |u| && d + hi < |v| && Sweepable(u, axes) && Sweepable(v, axes)
    requires forall k | lo <= k <= hi :: v[d + k] == u[k]
    ensures Backward(v, d + lo, d + hi, axes) == Backward(u, lo, hi, axes)
    decreases hi
  {
    hide BottomLines;
    if hi > lo {
      SameBackward(u, v, d, lo, hi - 1, axes);
      assert v[d + (hi - 1)] == u[hi - 1];
    }
  }

  lemma SameRun(u: seq<Row>, v: seq<Row>, d: nat, lo: nat, hi: nat, axes: Axes, base: real)
    requires hi <= |u| && d + hi <= |v| && Sweepable(u, axes) && Sweepable(v, axes)
    requires forall k | lo <= k < hi :: v[d + k] == u[k]
    ensures RunArea(v, d + lo, d + hi, axes, base) == RunArea(u, lo, hi, axes, base)
  {
    hide Forward, Backward;
    SameForward(u, v, d, lo, hi - 1, axes);
    SameBackward(u, v, d, lo, hi - 1, axes);
  }

  lemma BothSweepable(a: seq<Row>, b: seq<Row>, axes: Axes)
    requires Sweepable(a, axes) && Sweepable(b, axes)
    ensures Sweepable(a + b, axes) && Sweepable(a + [Gap], axes)
  {
  }

  lemma AreasStep(rows: seq<Row>, lo: nat, i: nat, axes: Axes, base: real)
    requires Sweepable(rows, axes)
    ensures Areas(rows, lo, i, axes, base) ==
            if i > |rows| then []
            else if i == |rows| then RunArea(rows, lo, i, axes, base)
            else if rows[i].Gap? then RunArea(rows, lo, i, axes, base) + Areas(rows, i + 1, i + 1, axes, base)
            else Areas(rows, lo, i + 1, axes, base)
  {
  }

  lemma {:induction false} AreasBefore(a: seq<Row>, b: seq<Row>, lo: nat, i: nat, axes: Axes, base: real)
    requires Sweepable(a, axes) && Sweepable(b, axes) && i <= |a|
    ensures var all := a + [Gap] + b;
            && Sweepable(all, axes)
            && Areas(all, lo, i, axes, base) ==
               Areas(a, lo, i, axes, base) + Areas(all, |a| + 1, |a| + 1, axes, base)
    decreases |a| - i
  {
    hide Areas, RunArea, Bottomed;
    var all := a + [Gap] + b;
    BothSweepable(a, b, axes);
    BothSweepable(a + [Gap], b, axes);
    SameRun(a, all, 0, lo, i, axes, base);
    AreasStep(all, lo, i, axes, base);
    AreasStep(a, lo, i, axes, base);
    if i < |a| {
      assert all[i] == a[i];
      if a[i].Gap? { AreasBefore(a, b, i + 1, i + 1, axes, base); } else { AreasBefore(a, b, lo, i + 1, axes, base); }
    } else {
      assert all[i] == Gap;
    }
  }

  lemma {:induction false} AreasAfter(a: seq<Row>, b: seq<Row>, lo: nat, i: nat, axes: Axes, base: real)
    requires Sweepable(a, axes) && Sweepable(b, axes) && i <= |b| + 1
    ensures Sweepable(a + b, axes)
    ensures Areas(a + b, |a| + lo, |a| + i, axes, base) == Areas(b, lo, i, axes, base)
    decreases |b| + 1 - i
  {
    hide Areas, RunArea, Bottomed;
    BothSweepable(a, b, axes);
    AreasStep(a + b, |a| + lo, |a| + i, axes, base);
    AreasStep(b, lo, i, axes, base);
    if i <= |b| {
      SameRun(b, a + b, |a|, lo, i, axes, base);
      assert i < |b| ==> (a + b)[|a| + i] == b[i];
      if i < |b| && b[i].Point? {
        AreasAfter(a, b, lo, i + 1, axes, base);
      } else {
        AreasAfter(a, b, i + 1, i + 1, axes, base);
      }
    }
  }
}
