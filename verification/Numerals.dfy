/** Numbers as text, as names and identifiers are built from them. */
module Numerals {

  /** Decimal or hexadecimal. */
  predicate IsBase(base: nat) { base == 10 || base == 16 }

  function Digit(i: nat): char
    requires i < 16
  {
    if i < 10 then '0' + i as char else 'a' + (i - 10) as char
  }

  function Rest(n: nat, base: nat): (q: nat)
    requires IsBase(base)
    ensures if n >= base then q < n else q == 0
  {
    if base == 10 then n / 10 else n / 16
  }

  function Last(n: nat, base: nat): (d: nat)
    requires IsBase(base)
    ensures d < base && (n < base ==> d == n)
  {
    if base == 10 then n % 10 else n % 16
  }

  /** The number in this base, with as few digits as possible. */
  function Numeral(n: nat, base: nat): (s: string)
    requires IsBase(base)
    ensures s != []
  {
    if n < base then [Digit(n)] else Numeral(Rest(n, base), base) + [Digit(Last(n, base))]
  }

  /** %i */
  function Dec(n: nat): string { Numeral(n, 10) }

  /** %x */
  function Hex(n: nat): string { Numeral(n, 16) }

  /** %02i */
  function Pad2(n: nat): string { if n < 10 then "0" + Dec(n) else Dec(n) }

  lemma LastDigit(n: nat, base: nat)
    requires IsBase(base)
    ensures var s := Numeral(n, base);
            && s[|s| - 1] == Digit(Last(n, base))
            && (n < base ==> |s| == 1 && Rest(n, base) == 0)
            && (n >= base ==> s[..|s| - 1] == Numeral(Rest(n, base), base) && |s| > 1)
  {
  }

  lemma SameDigit(i: nat, j: nat)
    requires i < 16 && j < 16 && Digit(i) == Digit(j)
    ensures i == j
  {
  }

  lemma SameParts(m: nat, n: nat, base: nat)
    requires IsBase(base) && Rest(m, base) == Rest(n, base) && Last(m, base) == Last(n, base)
    ensures m == n
  {
  }

  lemma {:induction false} NumeralInjective(m: nat, n: nat, base: nat)
    requires IsBase(base) && Numeral(m, base) == Numeral(n, base)
    ensures m == n
  {
    LastDigit(m, base);
    LastDigit(n, base);
    hide Numeral, Digit, Rest, Last;
    SameDigit(Last(m, base), Last(n, base));
    if m >= base { NumeralInjective(Rest(m, base), Rest(n, base), base); }
    SameParts(m, n, base);
  }

  lemma {:induction false} NoLeadingZero(n: nat)
    requires n > 0
    ensures Dec(n)[0] != '0'
  {
    if n >= 10 { NoLeadingZero(n / 10); }
  }

  lemma Pad2Injective(m: nat, n: nat)
    requires Pad2(m) == Pad2(n)
    ensures m == n
  {
    if m > 0 { NoLeadingZero(m); }
    if n > 0 { NoLeadingZero(n); }
    if m < 10 && n < 10 {
      assert Pad2(m)[1] == Digit(m) && Pad2(n)[1] == Digit(n);
      SameDigit(m, n);
    } else if m >= 10 && n >= 10 {
      NumeralInjective(m, n, 10);
    }
  }

  lemma Pad2IsTwo(n: nat)
    requires n < 100
    ensures |Pad2(n)| == 2
  {
    if n >= 10 { assert |Dec(n / 10)| == 1; }
  }

  // ---- reading numerals ------------------------------------------------------------------

  function DigitValue(c: char): nat {
    if '0' <= c <= '9' then c as nat - '0' as nat
    else if 'a' <= c <= 'f' then 10 + (c as nat - 'a' as nat)
    else 16
  }

  /** The number these characters stand for in this base. */
  function ValueOf(s: string, base: nat): nat {
    if s == [] then 0 else base * ValueOf(s[..|s| - 1], base) + DigitValue(s[|s| - 1])
  }

  /** Digits of the base, and no zero in front that could be left out. */
  ghost predicate Proper(s: string, base: nat) {
    && s != [] && (forall k | 0 <= k < |s| :: DigitValue(s[k]) < base)
    && (s[0] == '0' ==> |s| == 1)
  }

  lemma DigitIs(i: nat)
    requires i < 16
    ensures DigitValue(Digit(i)) == i && (Digit(i) == '0' ==> i == 0)
  {
  }

  /** A numeral stands for its number in its base. */
  lemma {:induction false} NumeralIs(n: nat, base: nat)
    requires IsBase(base)
    ensures ValueOf(Numeral(n, base), base) == n && Proper(Numeral(n, base), base)
    ensures n > 0 ==> Numeral(n, base)[0] != '0'
  {
    LastDigit(n, base);
    DigitIs(Last(n, base));
    var s := Numeral(n, base);
    if n >= base {
      NumeralIs(Rest(n, base), base);
      assert s[0] == s[..|s| - 1][0];
      forall k | 0 <= k < |s| ensures DigitValue(s[k]) < base {
        if k < |s| - 1 { assert s[k] == s[..|s| - 1][k]; }
      }
    } else {
      assert s[..0] == [] && ValueOf([], base) == 0;
    }
  }

  lemma DecIs(n: nat)
    ensures ValueOf(Dec(n), 10) == n && Proper(Dec(n), 10)
  {
    NumeralIs(n, 10);
  }

  lemma HexIs(n: nat)
    ensures ValueOf(Hex(n), 16) == n && Proper(Hex(n), 16)
  {
    NumeralIs(n, 16);
  }

  /** At least two digits, with a zero in front just of a single one. */
  lemma Pad2Is(n: nat)
    ensures ValueOf(Pad2(n), 10) == n
    ensures if |Pad2(n)| > 2 then Proper(Pad2(n), 10) else |Pad2(n)| == 2
    ensures forall k | 0 <= k < |Pad2(n)| :: DigitValue(Pad2(n)[k]) < 10
  {
    DecIs(n);
    if n < 10 {
      assert Pad2(n)[..1] == "0" && "0"[..0] == [] && Dec(n)[..0] == [];
      assert ValueOf("0", 10) == 0;
    } else if n < 100 {
      Pad2IsTwo(n);
    } else {
      assert |Dec(n)| == |Dec(n / 10)| + 1 && |Dec(n / 10)| == |Dec(n / 10 / 10)| + 1;
    }
  }
}
