/** Points and line segments in the plane. */
module Geometry {

  datatype Pt = Pt(x: real, y: real)

  /** A value that changes evenly from f1 to f2. */
  function Along(f1: real, f2: real, t: real): real { f1 + t * (f2 - f1) }

  /** The point that lies this part of the way from a to b. */
  function At(a: Pt, b: Pt, t: real): Pt {
    Pt(Along(a.x, b.x, t), Along(a.y, b.y, t))
  }

  ghost predicate On(p: Pt, a: Pt, b: Pt) {
    exists t: real :: 0.0 <= t <= 1.0 && p == At(a, b, t)
  }

  /** Where it takes the value c, and on which side of that it is above or below c. */
  lemma Cut(f1: real, f2: real, c: real, t: real)
    requires f1 != f2 && (f1 <= c <= f2 || f2 <= c <= f1)
    ensures var s := (c - f1) / (f2 - f1);
            && 0.0 <= s <= 1.0 && Along(f1, f2, s) == c
            && (f1 < f2 ==> (Along(f1, f2, t) >= c <==> t >= s) && (Along(f1, f2, t) <= c <==> t <= s))
            && (f1 > f2 ==> (Along(f1, f2, t) >= c <==> t <= s) && (Along(f1, f2, t) <= c <==> t >= s))
  {
    var d, s := f2 - f1, (c - f1) / (f2 - f1);
    Scale(c - f1, d);
    assert Along(f1, f2, t) - c == (t - s) * d;
    Sign(t - s, d);
  }

  lemma Scale(a: real, d: real)
    requires d != 0.0 && (0.0 <= a <= d || d <= a <= 0.0)
    ensures 0.0 <= a / d <= 1.0 && (a / d) * d == a
  {
  }

  lemma Sign(u: real, d: real)
    requires d != 0.0
    ensures d > 0.0 ==> (u * d >= 0.0 <==> u >= 0.0) && (u * d <= 0.0 <==> u <= 0.0)
    ensures d < 0.0 ==> (u * d >= 0.0 <==> u <= 0.0) && (u * d <= 0.0 <==> u >= 0.0)
  {
  }

  /** A part of a segment. */
  lemma AtPart(a: Pt, b: Pt, s1: real, s2: real, u: real)
    ensures At(At(a, b, s1), At(a, b, s2), u) == At(a, b, Along(s1, s2, u))
  {
  }

  /** The part of a segment between two of its points holds just the points between. */
  lemma OnPart(a: Pt, b: Pt, s1: real, s2: real, p: Pt)
    requires 0.0 <= s1 <= s2 <= 1.0
    ensures On(p, At(a, b, s1), At(a, b, s2)) <==> exists t: real :: s1 <= t <= s2 && p == At(a, b, t)
  {
    if On(p, At(a, b, s1), At(a, b, s2)) { var t := FromPart(a, b, s1, s2, p); }
    if t: real :| s1 <= t <= s2 && p == At(a, b, t) { IntoPart(a, b, s1, s2, p, t); }
  }

  lemma FromPart(a: Pt, b: Pt, s1: real, s2: real, p: Pt) returns (t: real)
    requires s1 <= s2 && On(p, At(a, b, s1), At(a, b, s2))
    ensures s1 <= t <= s2 && p == At(a, b, t)
  {
    var u: real :| 0.0 <= u <= 1.0 && p == At(At(a, b, s1), At(a, b, s2), u);
    AtPart(a, b, s1, s2, u);
    AlongBetween(s1, s2, u);
    t := Along(s1, s2, u);
  }

  lemma IntoPart(a: Pt, b: Pt, s1: real, s2: real, p: Pt, t: real)
    requires s1 <= t <= s2 && p == At(a, b, t)
    ensures On(p, At(a, b, s1), At(a, b, s2))
  {
    var u := Back(s1, s2, t);
    AtPart(a, b, s1, s2, u);
    assert At(At(a, b, s1), At(a, b, s2), u) == p;
  }

  lemma Back(s1: real, s2: real, t: real) returns (u: real)
    requires s1 <= t <= s2
    ensures 0.0 <= u <= 1.0 && Along(s1, s2, u) == t
  {
    u := 0.0;
    if s1 < s2 {
      var n, d := t - s1, s2 - s1;
      u := n / d;
      Scale(n, d);
    }
  }

  lemma AlongBetween(f1: real, f2: real, t: real)
    requires 0.0 <= t <= 1.0
    ensures if f1 <= f2 then f1 <= Along(f1, f2, t) <= f2 else f2 <= Along(f1, f2, t) <= f1
  {
    if f1 != f2 {
      Sign(t, f2 - f1);
      Sign(1.0 - t, f2 - f1);
      assert (1.0 - t) * (f2 - f1) == (f2 - f1) - t * (f2 - f1);
    }
  }

  lemma Ends(a: Pt, b: Pt)
    ensures At(a, b, 0.0) == a && At(a, b, 1.0) == b
  {
  }

  /** A changing value meets each level once. */
  lemma Monotone(f1: real, f2: real, s: real, t: real)
    ensures f1 < f2 ==> (Along(f1, f2, s) <= Along(f1, f2, t) <==> s <= t)
    ensures f1 > f2 ==> (Along(f1, f2, s) <= Along(f1, f2, t) <==> s >= t)
    ensures f1 == f2 ==> Along(f1, f2, s) == Along(f1, f2, t)
  {
  }

  /** A part of a segment, flattened to one height. */
  lemma FlatPart(a: Pt, b: Pt, y: real, s1: real, s2: real, p: Pt)
    requires 0.0 <= s1 <= s2 <= 1.0
    ensures On(p, Pt(Along(a.x, b.x, s1), y), Pt(Along(a.x, b.x, s2), y)) <==>
            exists t: real :: s1 <= t <= s2 && p == Pt(Along(a.x, b.x, t), y)
  {
    var c, d := Pt(a.x, y), Pt(b.x, y);
    forall t ensures At(c, d, t) == Pt(Along(a.x, b.x, t), y) {
      assert t * (y - y) == 0.0;
    }
    OnPart(c, d, s1, s2, p);
    if t: real :| s1 <= t <= s2 && p == Pt(Along(a.x, b.x, t), y) { assert p == At(c, d, t); }
    if t: real :| s1 <= t <= s2 && p == At(c, d, t) { assert p == Pt(Along(a.x, b.x, t), y); }
  }
}
