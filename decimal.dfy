/** Decimal rendering of non-negative integers (what `${n}` and String(n)
    produce for them) and a reader for that rendering, so that the time formats
    built on top of it can be shown to lose no information. */
module Decimal {
  import opened Wrappers

  predicate IsDigit(c: char) { '0' <= c <= '9' }

  predicate AllDigits(s: string) { forall i :: 0 <= i < |s| ==> IsDigit(s[i]) }

  function DigitValue(c: char): (d: nat)
    requires IsDigit(c)
    ensures d < 10
  {
    c as int - '0' as int
  }

  function DigitChar(d: nat): (c: char)
    requires d < 10
    ensures IsDigit(c) && DigitValue(c) == d
  {
    ('0' as int + d) as char
  }

  /** The shortest decimal numeral of n. */
  function NatToString(n: nat): (s: string)
    ensures 1 <= |s| && AllDigits(s)
    ensures n < 10 <==> |s| == 1
    ensures |s| > 1 ==> s[0] != '0'
  {
    if n < 10 then [DigitChar(n)] else NatToString(n / 10) + [DigitChar(n % 10)]
  }

  /** String(i) for an integer that may be negative: a '-' sign, then the digits. */
  function IntToString(i: int): (s: string)
    ensures i >= 0 ==> s == NatToString(i)
    ensures i < 0 ==> s == "-" + NatToString(-i)
  {
    if i < 0 then "-" + NatToString(-i) else NatToString(i)
  }

  /** The number a string of digits denotes. */
  function Value(s: string): nat
    requires AllDigits(s)
  {
    if s == [] then 0 else Value(s[..|s| - 1]) * 10 + DigitValue(s[|s| - 1])
  }

  lemma {:induction false} ValueOfNatToString(n: nat)
    ensures Value(NatToString(n)) == n
  {
    if n >= 10 {
      var s := NatToString(n);
      assert s[..|s| - 1] == NatToString(n / 10);
      ValueOfNatToString(n / 10);
    }
  }

  /** A leading '0' (as added by padding) does not change the value. */
  lemma {:induction false} ValueIgnoresLeadingZero(s: string)
    requires AllDigits(s)
    ensures AllDigits("0" + s) && Value("0" + s) == Value(s)
  {
    var t := "0" + s;
    if s == [] {
      assert t[..|t| - 1] == [];
    } else {
      assert t[..|t| - 1] == "0" + s[..|s| - 1];
      assert t[|t| - 1] == s[|s| - 1];
      ValueIgnoresLeadingZero(s[..|s| - 1]);
    }
  }

  /** The length of the longest prefix of s made of digits. */
  function LeadingDigits(s: string): (k: nat)
    ensures k <= |s|
    ensures AllDigits(s[..k])
    ensures k < |s| ==> !IsDigit(s[k])
  {
    if s == [] || !IsDigit(s[0]) then 0
    else
      var k := 1 + LeadingDigits(s[1..]);
      assert s[..k] == [s[0]] + s[1..][..k - 1];
      k
  }

  /** Reads a number off the front of s: its value and the rest of the string,
      or None when s does not start with a digit. */
  function ReadNat(s: string): Option<(nat, string)>
  {
    var k := LeadingDigits(s);
    if k == 0 then None else Some((Value(s[..k]), s[k..]))
  }

  /** rest cannot continue a numeral that precedes it. */
  predicate EndsNumeral(rest: string) { rest == [] || !IsDigit(rest[0]) }

  lemma {:induction false} LeadingDigitsOfNumeral(d: string, rest: string)
    requires AllDigits(d) && EndsNumeral(rest)
    ensures LeadingDigits(d + rest) == |d|
  {
    if d == [] {
      assert d + rest == rest;
    } else {
      assert (d + rest)[0] == d[0];
      assert (d + rest)[1..] == d[1..] + rest;
      LeadingDigitsOfNumeral(d[1..], rest);
    }
  }

  lemma ReadDigitsThen(d: string, rest: string)
    requires |d| > 0 && AllDigits(d) && EndsNumeral(rest)
    ensures ReadNat(d + rest) == Some((Value(d), rest))
  {
    LeadingDigitsOfNumeral(d, rest);
    assert (d + rest)[..|d|] == d;
    assert (d + rest)[|d|..] == rest;
  }

  /** Reading back a rendered number gives the number and leaves the rest. */
  lemma ReadNatToString(n: nat, rest: string)
    requires EndsNumeral(rest)
    ensures ReadNat(NatToString(n) + rest) == Some((n, rest))
  {
    ReadDigitsThen(NatToString(n), rest);
    ValueOfNatToString(n);
  }
}
