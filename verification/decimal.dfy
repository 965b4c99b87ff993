/** Python's `str()` on integers: the decimal rendering the vision processor
    uses for a transaction's item id, together with its inverse `int()`. */
module Decimal {

  predicate IsDigit(c: char) {
    '0' <= c <= '9'
  }

  function DigitChar(d: nat): (c: char)
    requires d < 10
  {
    (d + 48) as char
  }

  function DigitValue(c: char): nat {
    if IsDigit(c) then c as int - 48 else 0
  }

  /** Decimal rendering of a natural number: digits only, never empty, and no
      leading zero except for "0" itself. */
  function NatText(n: nat): (s: string)
    ensures |s| > 0
    ensures forall i :: 0 <= i < |s| ==> IsDigit(s[i])
    ensures |s| > 1 ==> s[0] != '0'
    ensures n < 10 <==> |s| == 1
  {
    if n < 10 then [DigitChar(n)] else NatText(n / 10) + [DigitChar(n % 10)]
  }

  /** `str(i)` for any Python int: a minus sign before the magnitude when negative. */
  function IntText(i: int): (s: string)
    ensures |s| > 0
    ensures s[0] == '-' <==> i < 0
  {
    if i < 0 then "-" + NatText(-i) else NatText(i)
  }

  /** `int(s)` on a string of decimal digits. */
  function ParseNat(s: string): nat {
    if |s| == 0 then 0 else ParseNat(s[..|s| - 1]) * 10 + DigitValue(s[|s| - 1])
  }

  /** `int(s)` on an optionally signed decimal string. */
  function ParseInt(s: string): int {
    if |s| > 0 && s[0] == '-' then 0 - ParseNat(s[1..]) as int else ParseNat(s)
  }

  lemma {:induction false} NatRoundTrip(n: nat)
    ensures ParseNat(NatText(n)) == n
  {
    var s := NatText(n);
    if n >= 10 {
      NatRoundTrip(n / 10);
      assert s[..|s| - 1] == NatText(n / 10);
    }
  }

  /** A leading '-' negates the digits that follow it. */
  lemma NegParse(t: string)
    ensures ParseInt("-" + t) == 0 - ParseNat(t) as int
  {
    assert ("-" + t)[1..] == t;
  }

  /** Reading back a rendered id gives the id: `int(str(i)) == i`. */
  lemma {:induction false} IntRoundTrip(i: int)
    ensures ParseInt(IntText(i)) == i
  {
    if i < 0 {
      assert IntText(i) == "-" + NatText(-i);
      NegParse(NatText(-i));
      NatRoundTrip(-i);
    } else {
      assert IntText(i) == NatText(i);
      assert IsDigit(NatText(i)[0]);
      NatRoundTrip(i);
    }
  }

  /** Distinct ids render to distinct strings, so the text id in a transaction
      names exactly one item. */
  lemma IntTextInjective(a: int, b: int)
    ensures IntText(a) == IntText(b) <==> a == b
  {
    IntRoundTrip(a);
    IntRoundTrip(b);
  }
}
