/** Drawing a line series inside the axes: each segment is clipped four times. */
module Clip {
  import opened Polylines
  import opened Geometry
  import opened Options

  datatype Border = YMin(c: real) | YMax(c: real) | XMin(c: real) | XMax(c: real)

  predicate Within(p: Pt, border: Border) {
    match border
    case YMin(c) => p.y >= c
    case YMax(c) => p.y <= c
    case XMin(c) => p.x >= c
    case XMax(c) => p.x <= c
  }

  datatype Axes = Axes(xmin: real, xmax: real, ymin: real, ymax: real)

  predicate InAxes(p: Pt, axes: Axes) {
    axes.xmin <= p.x <= axes.xmax && axes.ymin <= p.y <= axes.ymax
  }

  /** What is kept of a segment is what lies within the border, and all of it. */
  ghost predicate IsClip(a: Pt, b: Pt, border: Border, keep: bool, c: Pt, d: Pt) {
    if keep then forall p :: On(p, c, d) <==> On(p, a, b) && Within(p, border)
    else forall p :: On(p, a, b) ==> !Within(p, border)
  }

  lemma KeepPart(a: Pt, b: Pt, border: Border, s1: real, s2: real)
    requires 0.0 <= s1 <= s2 <= 1.0
    requires forall t | 0.0 <= t <= 1.0 :: Within(At(a, b, t), border) <==> s1 <= t <= s2
    ensures IsClip(a, b, border, true, At(a, b, s1), At(a, b, s2))
  {
    forall p ensures On(p, At(a, b, s1), At(a, b, s2)) <==> On(p, a, b) && Within(p, border) {
      OnPart(a, b, s1, s2, p);
    }
  }

  function Coord(p: Pt, border: Border): real {
    if border.YMin? || border.YMax? then p.y else p.x
  }

  /** Where a segment crosses the border. */
  function CutAt(a: Pt, b: Pt, border: Border): real
    requires Within(a, border) != Within(b, border)
  {
    (border.c - Coord(a, border)) / (Coord(b, border) - Coord(a, border))
  }

  lemma CutFirst(a: Pt, b: Pt, border: Border)
    requires !Within(a, border) && Within(b, border)
    ensures var c := At(a, b, CutAt(a, b, border)); Coord(c, border) == border.c && IsClip(a, b, border, true, c, b)
  {
    var s, f1, f2 := CutAt(a, b, border), Coord(a, border), Coord(b, border);
    Cut(f1, f2, border.c, s);
    forall t | 0.0 <= t <= 1.0 ensures Within(At(a, b, t), border) <==> s <= t <= 1.0 {
      Cut(f1, f2, border.c, t);
      assert Coord(At(a, b, t), border) == Along(f1, f2, t);
    }
    KeepPart(a, b, border, s, 1.0);
    Ends(a, b);
  }

  lemma CutLast(a: Pt, b: Pt, border: Border)
    requires Within(a, border) && !Within(b, border)
    ensures var d := At(a, b, CutAt(a, b, border)); Coord(d, border) == border.c && IsClip(a, b, border, true, a, d)
  {
    var s, f1, f2 := CutAt(a, b, border), Coord(a, border), Coord(b, border);
    Cut(f1, f2, border.c, s);
    forall t | 0.0 <= t <= 1.0 ensures Within(At(a, b, t), border) <==> 0.0 <= t <= s {
      Cut(f1, f2, border.c, t);
      assert Coord(At(a, b, t), border) == Along(f1, f2, t);
    }
    KeepPart(a, b, border, 0.0, s);
    Ends(a, b);
  }

  lemma KeepAll(a: Pt, b: Pt, border: Border)
    requires Within(a, border) && Within(b, border)
    ensures IsClip(a, b, border, true, a, b)
  {
    forall t | 0.0 <= t <= 1.0 ensures Within(At(a, b, t), border) {
      AlongBetween(a.x, b.x, t);
      AlongBetween(a.y, b.y, t);
    }
  }

  lemma DropAll(a: Pt, b: Pt, border: Border)
    requires !Within(a, border) && !Within(b, border)
    ensures IsClip(a, b, border, false, a, b)
  {
    forall t | 0.0 <= t <= 1.0 ensures !Within(At(a, b, t), border) {
      AlongBetween(a.x, b.x, t);
      AlongBetween(a.y, b.y, t);
    }
  }

  /** The ends of what is kept. */
  function ClipTo(a: Pt, b: Pt, border: Border): Option<(Pt, Pt)> {
    if Within(a, border) then
      Some((a, if Within(b, border) then b else At(a, b, CutAt(a, b, border))))
    else if Within(b, border) then Some((At(a, b, CutAt(a, b, border)), b))
    else None
  }

  lemma ClipIsExact(a: Pt, b: Pt, border: Border)
    ensures match ClipTo(a, b, border) {
              case None => IsClip(a, b, border, false, a, b)
              case Some((c, d)) => IsClip(a, b, border, true, c, d) && Within(c, border) && Within(d, border)
            }
  {
    if Within(a, border) {
      if Within(b, border) { KeepAll(a, b, border); } else { CutLast(a, b, border); }
    } else {
      if Within(b, border) { CutFirst(a, b, border); } else { DropAll(a, b, border); }
    }
  }

  lemma OnBorder(a: Pt, b: Pt, border: Border)
    ensures Within(a, border) != Within(b, border) ==> Coord(At(a, b, CutAt(a, b, border)), border) == border.c
  {
  }

  /** Where the ends of what is kept lie on the segment. */
  lemma ClipParams(a: Pt, b: Pt, border: Border) returns (s1: real, s2: real)
    requires Within(a, border) || Within(b, border)
    ensures 0.0 <= s1 <= s2 <= 1.0 && ClipTo(a, b, border) == Some((At(a, b, s1), At(a, b, s2)))
    ensures if Within(a, border) then s1 == 0.0 else Coord(At(a, b, s1), border) == border.c
    ensures if Within(b, border) then s2 == 1.0 else Coord(At(a, b, s2), border) == border.c
  {
    Ends(a, b);
    OnBorder(a, b, border);
    s1, s2 := 0.0, 1.0;
    if Within(a, border) != Within(b, border) {
      Cut(Coord(a, border), Coord(b, border), border.c, 0.0);
      if Within(a, border) { s2 := CutAt(a, b, border); } else { s1 := CutAt(a, b, border); }
    }
  }

  method ClipYMin(a: Pt, b: Pt, min: real) returns (keep: bool, c: Pt, d: Pt)
    ensures ClipTo(a, b, YMin(min)) == if keep then Some((c, d)) else None
  {
    keep, c, d := true, a, b;
    if a.y <= b.y && a.y < min {
      if b.y < min { return false, a, b; }
      CutFirst(a, b, YMin(min));
      c := Pt(Along(a.x, b.x, (min - a.y) / (b.y - a.y)), min);
    } else if b.y <= a.y && b.y < min {
      if a.y < min { return false, a, b; }
      CutLast(a, b, YMin(min));
      d := Pt(Along(a.x, b.x, (min - a.y) / (b.y - a.y)), min);
    }
  }

  method ClipYMax(a: Pt, b: Pt, max: real) returns (keep: bool, c: Pt, d: Pt)
    ensures ClipTo(a, b, YMax(max)) == if keep then Some((c, d)) else None
  {
    keep, c, d := true, a, b;
    if a.y >= b.y && a.y > max {
      if b.y > max { return false, a, b; }
      CutFirst(a, b, YMax(max));
      c := Pt(Along(a.x, b.x, (max - a.y) / (b.y - a.y)), max);
    } else if b.y >= a.y && b.y > max {
      if a.y > max { return false, a, b; }
      CutLast(a, b, YMax(max));
      d := Pt(Along(a.x, b.x, (max - a.y) / (b.y - a.y)), max);
    }
  }

  method ClipXMin(a: Pt, b: Pt, min: real) returns (keep: bool, c: Pt, d: Pt)
    ensures ClipTo(a, b, XMin(min)) == if keep then Some((c, d)) else None
  {
    keep, c, d := true, a, b;
    if a.x <= b.x && a.x < min {
      if b.x < min { return false, a, b; }
      CutFirst(a, b, XMin(min));
      c := Pt(min, Along(a.y, b.y, (min - a.x) / (b.x - a.x)));
    } else if b.x <= a.x && b.x < min {
      if a.x < min { return false, a, b; }
      CutLast(a, b, XMin(min));
      d := Pt(min, Along(a.y, b.y, (min - a.x) / (b.x - a.x)));
    }
  }

  method ClipXMax(a: Pt, b: Pt, max: real) returns (keep: bool, c: Pt, d: Pt)
    ensures ClipTo(a, b, XMax(max)) == if keep then Some((c, d)) else None
  {
    keep, c, d := true, a, b;
    if a.x >= b.x && a.x > max {
      if b.x > max { return false, a, b; }
      CutFirst(a, b, XMax(max));
      c := Pt(max, Along(a.y, b.y, (max - a.x) / (b.x - a.x)));
    } else if b.x >= a.x && b.x > max {
      if a.x > max { return false, a, b; }
      CutLast(a, b, XMax(max));
      d := Pt(max, Along(a.y, b.y, (max - a.x) / (b.x - a.x)));
    }
  }

  /** All four clips: what is kept is what lies in the axes. */
  method ClipSegment(a: Pt, b: Pt, axes: Axes) returns (keep: bool, c: Pt, d: Pt)
    ensures keep ==> forall p :: On(p, c, d) <==> On(p, a, b) && InAxes(p, axes)
    ensures !keep ==> forall p :: On(p, a, b) ==> !InAxes(p, axes)
  {
    ClipIsExact(a, b, YMin(axes.ymin));
    keep, c, d := ClipYMin(a, b, axes.ymin);
    if !keep { return; }
    ClipIsExact(c, d, YMax(axes.ymax));
    keep, c, d := ClipYMax(c, d, axes.ymax);
    if !keep { return; }
    ClipIsExact(c, d, XMin(axes.xmin));
    keep, c, d := ClipXMin(c, d, axes.xmin);
    if !keep { return; }
    ClipIsExact(c, d, XMax(axes.xmax));
    keep, c, d := ClipXMax(c, d, axes.xmax);
  }

  // ---- the path ------------------------------------------------------------------------

  datatype PathOp = MoveTo(p: Pt) | LineTo(p: Pt)

  /** The k-th operation draws a line that passes through p. */
  ghost predicate DrawsAt(path: seq<PathOp>, k: nat, p: Pt) {
    0 < k < |path| && path[k].LineTo? && On(p, path[k - 1].p, path[k].p)
  }

  ghost predicate Draws(path: seq<PathOp>, p: Pt) {
    exists k: nat :: DrawsAt(path, k, p)
  }

  ghost predicate SegmentAt(points: seq<Row>, i: nat, p: Pt) {
    && 0 < i < |points| && points[i - 1].Point? && points[i].Point?
    && On(p, Pt(points[i - 1].x, points[i - 1].y), Pt(points[i].x, points[i].y))
  }

  /** The point lies on the line series, up to its n-th point. */
  ghost predicate OnSeries(points: seq<Row>, n: nat, p: Pt) {
    exists i: nat :: i < n && SegmentAt(points, i, p)
  }

  lemma DrawsMore(path: seq<PathOp>, more: seq<PathOp>, last: Pt, c: Pt, d: Pt, p: Pt)
    requires more == [MoveTo(c), LineTo(d)] || (more == [LineTo(d)] && path != [] && last == c)
    requires path != [] ==> path[|path| - 1].p == last
    ensures Draws(path + more, p) <==> Draws(path, p) || On(p, c, d)
  {
    var all := path + more;
    if Draws(path, p) {
      var k: nat :| DrawsAt(path, k, p);
      assert DrawsAt(all, k, p);
    }
    if On(p, c, d) { assert DrawsAt(all, |all| - 1, p); }
    if Draws(all, p) {
      var k: nat :| DrawsAt(all, k, p);
      if k < |path| { assert DrawsAt(path, k, p); }
    }
  }

  lemma SeriesMore(points: seq<Row>, n: nat, p: Pt)
    ensures OnSeries(points, n + 1, p) <==> OnSeries(points, n, p) || SegmentAt(points, n, p)
  {
  }

  /** What is drawn is the line series within the axes, no more and no less. */
  method PlotLine(points: seq<Row>, axes: Axes) returns (path: seq<PathOp>)
    ensures forall p :: Draws(path, p) <==> OnSeries(points, |points|, p) && InAxes(p, axes)
  {
    path := [];
    var prev: Option<Pt> := None;
    var i := 1;
    while i < |points|
      invariant 1 <= i
      invariant |points| > 0 ==> i <= |points|
      invariant if prev.None? then path == [] else path != [] && path[|path| - 1].p == prev.value
      invariant forall p :: Draws(path, p) <==> OnSeries(points, i, p) && InAxes(p, axes)
    {
      ghost var before := path;
      if points[i - 1].Point? && points[i].Point? {
        var a, b := Pt(points[i - 1].x, points[i - 1].y), Pt(points[i].x, points[i].y);
        var keep, c, d := ClipSegment(a, b, axes);
        if keep {
          ghost var last := if prev.Some? then prev.value else c;
          var more := if prev != Some(c) then [MoveTo(c), LineTo(d)] else [LineTo(d)];
          path := path + more;
          prev := Some(d);
          forall p ensures Draws(path, p) <==> Draws(before, p) || On(p, c, d) {
            DrawsMore(before, more, last, c, d, p);
          }
        }
      }
      forall p ensures OnSeries(points, i + 1, p) <==> OnSeries(points, i, p) || SegmentAt(points, i, p) {
        SeriesMore(points, i, p);
      }
      i := i + 1;
    }
  }
}
