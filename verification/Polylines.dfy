/** Line series as data points, and the function a series draws. */
module Polylines {

  /** A data point: a gap, or a key, a value and further columns. */
  datatype Row = Gap | Point(x: real, y: real, rest: seq<real>)

  /** Keys increase from point to point, over gaps as well. */
  ghost predicate Increasing(rows: seq<Row>) {
    forall k, l | 0 <= k < l < |rows| && rows[k].Point? && rows[l].Point? :: rows[k].x < rows[l].x
  }

  /** The value at x of the line through two points. */
  function Interpolate(x0: real, y0: real, x1: real, y1: real, x: real): real
    requires x0 != x1
  {
    y0 + (y1 - y0) * (x - x0) / (x1 - x0)
  }

  function Line(p: Row, q: Row, x: real): real
    requires p.Point? && q.Point? && p.x != q.x
  {
    Interpolate(p.x, p.y, q.x, q.y, x)
  }

  lemma LineEnds(p: Row, q: Row)
    requires p.Point? && q.Point? && p.x != q.x
    ensures Line(p, q, p.x) == p.y && Line(p, q, q.x) == q.y
  {
  }

  /** It does not matter from which end a line is drawn. */
  lemma LineReversed(p: Row, q: Row, x: real)
    requires p.Point? && q.Point? && p.x != q.x
    ensures Line(p, q, x) == Line(q, p, x)
  {
  }

  lemma LineIsAffine(p: Row, q: Row, x: real)
    requires p.Point? && q.Point? && p.x != q.x
    ensures var m := (q.y - p.y) / (q.x - p.x); Line(p, q, x) == m * x + (p.y - m * p.x)
  {
  }

  /** One of the points from k on is at x. */
  ghost predicate From(rows: seq<Row>, k: nat, x: real) {
    exists l :: k <= l < |rows| && rows[l].Point? && rows[l].x == x
  }

  /** A line between two points of a line, or of a sum of lines, is that line or sum. */
  lemma LineOfLines(r: Row, r': Row, p: Row, p': Row, q: Row, q': Row, add: bool, x: real)
    requires r.Point? && r'.Point? && p.Point? && p'.Point? && q.Point? && q'.Point?
    requires r.x != r'.x && p.x != p'.x && q.x != q'.x
    requires r.y == Line(p, p', r.x) + if add then Line(q, q', r.x) else 0.0
    requires r'.y == Line(p, p', r'.x) + if add then Line(q, q', r'.x) else 0.0
    ensures Line(r, r', x) == Line(p, p', x) + if add then Line(q, q', x) else 0.0
  {
    hide Interpolate;
    var m, c := SlopeOf(p, p');
    var n, d := 0.0, 0.0;
    if add { n, d := SlopeOf(q, q'); }
    LineOfSum(r, r', m, c, n, d, x);
  }

  lemma LineOfSum(r: Row, r': Row, m: real, c: real, n: real, d: real, x: real)
    requires r.Point? && r'.Point? && r.x != r'.x
    requires r.y == (m * r.x + c) + (n * r.x + d) && r'.y == (m * r'.x + c) + (n * r'.x + d)
    ensures Line(r, r', x) == (m * x + c) + (n * x + d)
  {
  }

  lemma SlopeOf(p: Row, q: Row) returns (m: real, c: real)
    requires p.Point? && q.Point? && p.x != q.x
    ensures forall x :: Line(p, q, x) == m * x + c
  {
    m := (q.y - p.y) / (q.x - p.x);
    c := p.y - m * p.x;
    forall x ensures Line(p, q, x) == m * x + c {
      LineIsAffine(p, q, x);
    }
  }

  // ---- what a series draws ----------------------------------------------------------------------

  /** (x, y) lies on the line between two points. */
  predicate Joins(a: Row, b: Row, x: real, y: real) {
    a.Point? && b.Point? && a.x < b.x && a.x <= x <= b.x && y == Line(a, b, x)
  }

  predicate Marks(r: Row, x: real, y: real) {
    r.Point? && r.x == x && r.y == y
  }

  ghost predicate MarkAt(rows: seq<Row>, k: nat, x: real, y: real) { k < |rows| && Marks(rows[k], x, y) }

  ghost predicate JoinAt(rows: seq<Row>, k: nat, x: real, y: real) {
    0 < k < |rows| && Joins(rows[k - 1], rows[k], x, y)
  }

  /** (x, y) is a point of the series, or lies between two neighbours: its graph. */
  ghost predicate OnGraph(rows: seq<Row>, x: real, y: real) {
    (exists k: nat :: MarkAt(rows, k, x, y)) || (exists k: nat :: JoinAt(rows, k, x, y))
  }

  /** The series has a value at x. */
  ghost predicate Has(rows: seq<Row>, x: real) { exists y :: OnGraph(rows, x, y) }

  /** All points of the first i rows come before x. */
  ghost predicate Past(rows: seq<Row>, i: nat, x: real) {
    forall k | 0 <= k < i && k < |rows| && rows[k].Point? :: rows[k].x < x
  }

  /** All points from row k on come after x. */
  ghost predicate After(rows: seq<Row>, k: nat, x: real) {
    forall l | k <= l < |rows| && rows[l].Point? :: x < rows[l].x
  }

  lemma OnCons(r: Row, rows: seq<Row>, x: real, y: real)
    ensures OnGraph([r] + rows, x, y) <==>
            Marks(r, x, y) || (rows != [] && Joins(r, rows[0], x, y)) || OnGraph(rows, x, y)
  {
    hide Joins, Marks;
    var all := [r] + rows;
    assert MarkAt(all, 0, x, y) <==> Marks(r, x, y);
    assert JoinAt(all, 1, x, y) <==> rows != [] && Joins(r, rows[0], x, y);
    if k: nat :| MarkAt(rows, k, x, y) { assert MarkAt(all, k + 1, x, y); }
    if k: nat :| JoinAt(rows, k, x, y) { assert JoinAt(all, k + 1, x, y); }
    if k: nat :| MarkAt(all, k, x, y) {
      if k > 0 { assert MarkAt(rows, k - 1, x, y); }
    }
    if k: nat :| JoinAt(all, k, x, y) {
      if k > 1 { assert JoinAt(rows, k - 1, x, y); }
    }
  }

  /** Between two neighbours the line between them is all there is. */
  lemma OnSegment(rows: seq<Row>, k: nat, x: real, y: real)
    requires Increasing(rows) && 0 < k < |rows| && rows[k - 1].Point? && rows[k].Point?
    requires rows[k - 1].x <= x <= rows[k].x
    ensures OnGraph(rows, x, y) <==> y == Line(rows[k - 1], rows[k], x)
  {
    hide Interpolate;
    if y == Line(rows[k - 1], rows[k], x) { assert JoinAt(rows, k, x, y); }
    LineEnds(rows[k - 1], rows[k]);
    if l: nat :| MarkAt(rows, l, x, y) { assert l == k - 1 || l == k; }
    if l: nat :| JoinAt(rows, l, x, y) {
      LineEnds(rows[l - 1], rows[l]);
      assert l == k - 1 || l == k || l == k + 1;
    }
  }

  lemma OnPoint(rows: seq<Row>, k: nat, y: real)
    requires Increasing(rows) && k < |rows| && rows[k].Point?
    ensures OnGraph(rows, rows[k].x, y) <==> y == rows[k].y
  {
    hide Interpolate;
    var x := rows[k].x;
    if y == rows[k].y { assert MarkAt(rows, k, x, y); }
    if l: nat :| MarkAt(rows, l, x, y) { assert l == k; }
    if l: nat :| JoinAt(rows, l, x, y) {
      LineEnds(rows[l - 1], rows[l]);
      assert l == k || l == k + 1;
    }
  }

  /** Before a point with no neighbour, and after the last point, there is nothing. */
  lemma OnNothing(rows: seq<Row>, i: nat, x: real, y: real)
    requires Increasing(rows) && i <= |rows| && Past(rows, i, x)
    requires i < |rows| ==> rows[i].Point? && x < rows[i].x && (i > 0 ==> rows[i - 1].Gap?)
    ensures !OnGraph(rows, x, y)
  {
  }

  ghost predicate AllGaps(rows: seq<Row>) {
    forall k | 0 <= k < |rows| :: rows[k].Gap?
  }

  lemma OnGaps(rows: seq<Row>, x: real, y: real)
    requires AllGaps(rows)
    ensures !OnGraph(rows, x, y)
  {
  }

  /** There is at most one value. */
  lemma OneValue(rows: seq<Row>, x: real, y: real, z: real)
    requires Increasing(rows) && OnGraph(rows, x, y) && OnGraph(rows, x, z)
    ensures y == z
  {
    hide Interpolate;
    if k: nat :| MarkAt(rows, k, x, y) {
      OnPoint(rows, k, y);
      OnPoint(rows, k, z);
    } else {
      var k: nat :| JoinAt(rows, k, x, y);
      OnSegment(rows, k, x, y);
      OnSegment(rows, k, x, z);
    }
  }
}
