/** Decimal text of whole numbers, as JavaScript writes an integer-valued
    number inside a template literal (`${n}`). */
module Numerals {

  function DigitChar(d: nat): (c: char)
    requires d < 10
    ensures '0' <= c <= '9' && c as int - '0' as int == d
  {
    "0123456789"[d]
  }

  /** Every character is a decimal digit. */
  predicate IsDigits(s: string) {
    forall i :: 0 <= i < |s| ==> '0' <= s[i] <= '9'
  }

  /** The decimal digits of `n`, most significant first, no leading zero. */
  function NatToString(n: nat): (s: string)
    ensures |s| >= 1
    ensures IsDigits(s)
    ensures |s| > 1 ==> s[0] != '0'
  {
    if n < 10 then [DigitChar(n)] else NatToString(n / 10) + [DigitChar(n % 10)]
  }

  /** The number a string of decimal digits denotes. */
  function DigitsValue(s: string): nat
    requires IsDigits(s)
  {
    if s == [] then 0
    else DigitsValue(s[..|s| - 1]) * 10 + (s[|s| - 1] as int - '0' as int)
  }

  /** Reading the digits back gives the number. */
  lemma {:induction false} NatToStringRoundTrip(n: nat)
    ensures DigitsValue(NatToString(n)) == n
  {
    var s := NatToString(n);
    if n < 10 {
      assert s[..0] == [];
    } else {
      NatToStringRoundTrip(n / 10);
      assert s[..|s| - 1] == NatToString(n / 10);
    }
  }

  /** `String(i)` for an integer: a minus sign before the digits of a
      negative number. Reading the digits back gives the magnitude. */
  function IntToString(i: int): (s: string)
    ensures |s| >= 1
    ensures s[0] == '-' <==> i < 0
    ensures var digits := if i < 0 then s[1..] else s;
      IsDigits(digits) && DigitsValue(digits) == if i < 0 then -i else i
  {
    if i < 0 then
      MinusRoundTrip(-i);
      "-" + NatToString(-i)
    else
      DigitsRoundTrip(i);
      NatToString(i)
  }

  /** Unsigned text starts with a digit and reads back as the number. */
  lemma DigitsRoundTrip(n: nat)
    ensures var s := NatToString(n);
      s[0] != '-' && IsDigits(s) && DigitsValue(s) == n
  {
    NatToStringRoundTrip(n);
    assert '0' <= NatToString(n)[0] <= '9';
  }

  /** The digits after the minus sign read back as the magnitude. */
  lemma MinusRoundTrip(n: nat)
    ensures var s := "-" + NatToString(n);
      s[1..] == NatToString(n) && IsDigits(s[1..]) && DigitsValue(s[1..]) == n
  {
    NatToStringRoundTrip(n);
    assert ("-" + NatToString(n))[1..] == NatToString(n);
  }
}
