/** Decimal text of integers, as JavaScript prints an integral number
    (`n.toString()` and `${n}` in a template literal) whose magnitude is
    below 1e21; from 1e21 on JavaScript switches to exponent notation
    ("1e+21"), which is not modelled. */
module Decimal {

  predicate IsDigit(c: char) {
    '0' <= c <= '9'
  }

  function DigitChar(d: nat): (c: char)
    requires d < 10
    ensures IsDigit(c)
  {
    "0123456789"[d]
  }

  function DigitValue(c: char): (d: nat)
    requires IsDigit(c)
    ensures d < 10
  {
    c as int - '0' as int
  }

  /** The decimal digits of `n`, most significant first, with no leading zero. */
  function NatToString(n: nat): (s: string)
    ensures |s| >= 1
    ensures forall i :: 0 <= i < |s| ==> IsDigit(s[i])
    ensures s[0] == '0' ==> n == 0
  {
    if n < 10 then [DigitChar(n)] else NatToString(n / 10) + [DigitChar(n % 10)]
  }

  /** Text of the shape `IntToString` prints: an optional minus sign, then digits. */
  predicate IsIntText(s: string) {
    |s| >= 1 && (s[0] == '-' || IsDigit(s[0])) && forall i :: 0 < i < |s| ==> IsDigit(s[i])
  }

  /** An integer's text: a minus sign before the digits of a negative number. */
  function IntToString(i: int): (s: string)
    ensures IsIntText(s)
    ensures i < 0 <==> s[0] == '-'
  {
    if i < 0 then "-" + NatToString(-i) else NatToString(i)
  }

  /** Reads back a run of decimal digits. */
  function ParseNat(s: string): nat
    requires forall i :: 0 <= i < |s| ==> IsDigit(s[i])
  {
    if s == [] then 0 else 10 * ParseNat(s[..|s| - 1]) + DigitValue(s[|s| - 1])
  }

  /** Reads back an optionally signed run of decimal digits. */
  function ParseInt(s: string): int
    requires IsIntText(s)
  {
    if s[0] == '-' then -(ParseNat(s[1..]) as int) else ParseNat(s)
  }

  lemma DigitRoundTrip(d: nat)
    requires d < 10
    ensures DigitValue(DigitChar(d)) == d
  {
  }

  /** Reading the digits of `n` back gives `n`. */
  lemma {:induction false} ParseNatToString(n: nat)
    ensures ParseNat(NatToString(n)) == n
  {
    if n < 10 {
      DigitRoundTrip(n);
      assert [DigitChar(n)][..0] == [];
    } else {
      var s, prefix := NatToString(n), NatToString(n / 10);
      assert s[..|s| - 1] == prefix && s[|s| - 1] == DigitChar(n % 10) by {
        assert s == prefix + [DigitChar(n % 10)];
      }
      ParseNatToString(n / 10);
      DigitRoundTrip(n % 10);
      assert ParseNat(s) == 10 * (n / 10) + n % 10;
    }
  }

  /** Reading an integer's text back gives the integer. */
  lemma ParseIntToString(i: int)
    ensures ParseInt(IntToString(i)) == i
  {
    if i < 0 {
      ParseSignedToString(-i);
    } else {
      ParseNatToString(i);
    }
  }

  /** Reading back a minus sign and the digits of `n` gives `-n`. */
  lemma ParseSignedToString(n: nat)
    requires n > 0
    ensures IntToString(-(n as int)) == "-" + NatToString(n)
    ensures ParseInt("-" + NatToString(n)) == -(n as int)
  {
    var digits := NatToString(n);
    assert ("-" + digits)[1..] == digits;
    ParseNatToString(n);
  }
}
