/** When the hosts of a network have names of their own: a rack's and a host's number are
    written one after the other, each with at least two digits. */
module HostNames {
  import opened Numerals
  import opened Topology

  predicate IsHost(racks: seq<seq<string>>, x: Node) {
    x.Host? && 1 <= x.rack <= |racks| && 1 <= x.host <= |racks[x.rack - 1]|
  }

  /** The digits of r followed by those of x. */
  function Join(r: nat, x: nat): (n: nat)
    ensures n >= r
  {
    if x < 10 then 10 * r + x else 10 * Join(r, Rest(x, 10)) + Last(x, 10)
  }

  /** Rack r has so many hosts that one has the digits of x before two others, and the rack
      whose number is r followed by x has a host. */
  predicate Clash(racks: seq<seq<string>>, r: nat, x: nat) {
    && 10 <= r <= |racks| && 1 <= x && 100 * x < |racks[r - 1]|
    && Join(r, x) <= |racks| && racks[Join(r, x) - 1] != []
  }

  lemma SplitAlike(a: string, b: string, c: string, d: string)
    requires a + b == c + d && (|a| == |c| || |b| == |d|)
    ensures a == c && b == d
  {
    assert (a + b)[..|a|] == a && (c + d)[..|c|] == c;
    assert (a + b)[|a|..] == b && (c + d)[|c|..] == d;
  }

  lemma DecStep(n: nat, d: nat)
    requires d < 10 && n > 0
    ensures Dec(10 * n + d) == Dec(n) + [Digit(d)]
  {
    assert Rest(10 * n + d, 10) == n && Last(10 * n + d, 10) == d;
  }

  lemma {:induction false} JoinDec(r: nat, x: nat)
    requires r > 0
    ensures Dec(Join(r, x)) == Dec(r) + Dec(x)
  {
    if x < 10 {
      DecStep(r, x);
    } else {
      JoinDec(r, Rest(x, 10));
      DecStep(Join(r, Rest(x, 10)), Last(x, 10));
      LastDigit(x, 10);
    }
  }

  /** The first k digits are a number, and the rest of the digits counts for more. */
  lemma {:induction false} FirstDigits(n: nat, k: nat) returns (m: nat)
    requires n > 0 && 1 <= k <= |Dec(n)|
    ensures m > 0 && Dec(m) == Dec(n)[..k]
    ensures var dropped := |Dec(n)| - k;
            && n >= m && (dropped >= 1 ==> n >= 10 * m) && (dropped >= 2 ==> n >= 100 * m)
  {
    if k == |Dec(n)| {
      m := n;
    } else {
      m := FirstDigits(Rest(n, 10), k);
    }
  }

  lemma Pad2IsLong(n: nat)
    ensures |Pad2(n)| >= 2 && (n >= 10 ==> Pad2(n) == Dec(n)) && (|Pad2(n)| > 2 ==> n >= 100)
    ensures n < 10 ==> Pad2(n)[0] == '0'
  {
    if n < 100 { Pad2IsTwo(n); }
  }

  lemma Hundreds(x: nat)
    requires x > 0
    ensures Dec(100 * x) == Dec(x) + Pad2(0) && Dec(100 * x + 1) == Dec(x) + Pad2(1)
  {
    DecStep(x, 0);
    DecStep(10 * x, 0);
    DecStep(10 * x, 1);
  }

  lemma SameName(r: nat, x: nat)
    requires 10 <= r && 1 <= x
    ensures Pad2(r) + Pad2(100 * x + 1) == Pad2(Join(r, x)) + Pad2(1)
  {
    hide *;
    var n, h := Join(r, x), 100 * x + 1;
    JoinDec(r, x);
    Hundreds(x);
    Pad2IsLong(r);
    Pad2IsLong(n);
    Pad2IsLong(h);
    assert Dec(r) + (Dec(x) + Pad2(1)) == (Dec(r) + Dec(x)) + Pad2(1);
  }

  lemma ClashCollides(racks: seq<seq<string>>, r: nat, x: nat)
    requires Clash(racks, r, x)
    ensures IsHost(racks, Host(r, 100 * x + 1)) && IsHost(racks, Host(Join(r, x), 1))
    ensures NameOf(Host(r, 100 * x + 1)) == NameOf(Host(Join(r, x), 1))
  {
    hide Pad2, Join;
    SameName(r, x);
  }

  lemma ShorterRack(racks: seq<seq<string>>, a: Node, b: Node) returns (x: nat)
    requires IsHost(racks, a) && IsHost(racks, b) && NameOf(a) == NameOf(b)
    requires |Pad2(a.rack)| < |Pad2(b.rack)|
    ensures Clash(racks, a.rack, x) && Join(a.rack, x) == b.rack
  {
    var r := a.rack;
    var i, j := |Pad2(r)|, |Pad2(b.host)|;
    Pad2IsLong(r);
    Pad2IsLong(a.host);
    Pad2IsLong(b.rack);
    Pad2IsLong(b.host);
    NamesAlign(a, b);
    NoLeadingZero(b.rack);
    assert Dec(b.rack)[..i] == Pad2(r);
    assert Pad2(r)[0] == Dec(b.rack)[0];
    var k := |Dec(a.host)| - j;
    x := FirstDigits(a.host, k);
    assert Dec(b.rack) == Dec(r) + Dec(x);
    JoinDec(r, x);
    NumeralInjective(b.rack, Join(r, x), 10);
    if a.host == 100 * x {
      Hundreds(x);
      Pad2Injective(b.host, 0);
    }
  }

  /** The longer rack number goes on with the first digits of the other's host number. */
  lemma NamesAlign(a: Node, b: Node)
    requires a.Host? && b.Host? && NameOf(a) == NameOf(b) && |Pad2(a.rack)| < |Pad2(b.rack)|
    ensures var i, j, s, t := |Pad2(a.rack)|, |Pad2(b.host)|, Pad2(b.rack), Pad2(a.host);
            && |t| > j && |s| - i == |t| - j && s == Pad2(a.rack) + t[..|t| - j] && t[|t| - j..] == Pad2(b.host)
  {
    var p, t, s, u := Pad2(a.rack), Pad2(a.host), Pad2(b.rack), Pad2(b.host);
    hide Pad2;
    SplitAlike("h", p + t, "h", s + u);
    var d := |s| - |p|;
    assert |t| == d + |u|;
    assert s == (s + u)[..|s|] == (p + t)[..|s|] == p + t[..d];
    assert u == (s + u)[|s|..] == (p + t)[|s|..] == t[d..];
  }

  /** The number of one rack goes on, in the number of the other, as host numbers do. */
  ghost predicate Twins(racks: seq<seq<string>>, i: nat, j: nat) {
    exists x: nat :: (Clash(racks, i, x) && Join(i, x) == j) || (Clash(racks, j, x) && Join(j, x) == i)
  }

  ghost predicate SameHost(racks: seq<seq<string>>, a: Node, b: Node) {
    IsHost(racks, a) && IsHost(racks, b) && NameOf(a) == NameOf(b)
  }

  /** Different hosts with one name are in different racks, and these are twins. */
  lemma SharedIsTwin(racks: seq<seq<string>>, a: Node, b: Node)
    requires SameHost(racks, a, b) && a != b
    ensures a.rack != b.rack && Twins(racks, a.rack, b.rack)
  {
    if |Pad2(a.rack)| < |Pad2(b.rack)| {
      var x := ShorterRack(racks, a, b);
    } else if |Pad2(b.rack)| < |Pad2(a.rack)| {
      var x := ShorterRack(racks, b, a);
    } else {
      SplitAlike("h", Pad2(a.rack) + Pad2(a.host), "h", Pad2(b.rack) + Pad2(b.host));
      SplitAlike(Pad2(a.rack), Pad2(a.host), Pad2(b.rack), Pad2(b.host));
      Pad2Injective(a.rack, b.rack);
      Pad2Injective(a.host, b.host);
      assert false;
    }
  }

  lemma TwinsShare(racks: seq<seq<string>>, i: nat, j: nat) returns (a: Node, b: Node)
    requires Twins(racks, i, j)
    ensures SameHost(racks, a, b) && a.rack == i && b.rack == j && i != j
  {
    var x: nat :| (Clash(racks, i, x) && Join(i, x) == j) || (Clash(racks, j, x) && Join(j, x) == i);
    if Clash(racks, i, x) && Join(i, x) == j {
      ClashCollides(racks, i, x);
      JoinIsMore(i, x);
      a, b := Host(i, 100 * x + 1), Host(j, 1);
    } else {
      ClashCollides(racks, j, x);
      JoinIsMore(j, x);
      a, b := Host(i, 1), Host(j, 100 * x + 1);
    }
  }

  /** Two hosts share a name just when the digits of some rack's number go on, in another
      rack's number, as the host numbers of the first rack do. */
  lemma NamesShared(racks: seq<seq<string>>)
    ensures (exists a, b :: SameHost(racks, a, b) && a != b) <==> (exists r, x :: Clash(racks, r, x))
  {
    if a, b :| SameHost(racks, a, b) && a != b {
      SharedIsTwin(racks, a, b);
    }
    if r, x :| Clash(racks, r, x) {
      assert Twins(racks, r, Join(r, x));
      var a, b := TwinsShare(racks, r, Join(r, x));
    }
  }

  /** With a host in every rack it is enough to look for a rack of more than a hundred hosts. */
  lemma FullRacks(racks: seq<seq<string>>)
    requires forall k | 0 <= k < |racks| :: racks[k] != []
    ensures (exists r, x :: Clash(racks, r, x)) <==>
            exists r :: 10 <= r && 10 * r < |racks| && |racks[r - 1]| > 100
  {
    if r, x :| Clash(racks, r, x) { JoinIsMore(r, x); }
    if r: nat :| 10 <= r && 10 * r < |racks| && |racks[r - 1]| > 100 { assert Clash(racks, r, 1); }
  }

  lemma {:induction false} JoinIsMore(r: nat, x: nat)
    requires x > 0
    ensures Join(r, x) > 10 * r
  {
    if x >= 10 { JoinIsMore(r, Rest(x, 10)); }
  }

  /** Such a network: rack 10 has 101 hosts, and there are 101 racks. */
  function Crowded(): seq<seq<string>> {
    seq(101, (k: nat) => if k == 9 then seq(101, (h: nat) => "a") else ["a"])
  }

  /** Host 101 of rack 10 and host 1 of rack 101 have one name in it. */
  lemma HostNamesCollide()
    ensures Clash(Crowded(), 10, 1) && SameHost(Crowded(), Host(10, 101), Host(101, 1))
    ensures NameOf(Host(10, 101)) == "h10101"
  {
    ClashCollides(Crowded(), 10, 1);
  }
}
