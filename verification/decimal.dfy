/** Python's `str` on integers, as it appears inside f-strings, and its inverse
    on canonical decimal text (no leading zeros, no "-0"). */
module Decimal {
  import opened Base

  predicate IsDigit(c: char) { '0' <= c <= '9' }

  predicate AllDigits(s: string) { forall i :: 0 <= i < |s| ==> IsDigit(s[i]) }

  function DigitChar(d: nat): (c: char)
    requires d < 10
    ensures IsDigit(c)
    ensures c == '0' <==> d == 0
  {
    ('0' as int + d) as char
  }

  function DigitValue(c: char): (d: nat)
    requires IsDigit(c)
    ensures d < 10 && DigitChar(d) == c
  {
    c as int - '0' as int
  }

  /** Text `str(n)` produces for a natural number: digits only, and a leading
      zero only in "0" itself. */
  predicate Canonical(s: string) {
    s != [] && AllDigits(s) && (s[0] == '0' ==> |s| == 1)
  }

  /** `str(n)` for n >= 0. */
  function NatToDecimal(n: nat): (s: string)
    ensures Canonical(s)
    ensures s[0] == '0' <==> n == 0
    decreases n
  {
    if n < 10 then [DigitChar(n)] else NatToDecimal(n / 10) + [DigitChar(n % 10)]
  }

  /** `str(k)` for any integer: a minus sign before the magnitude when negative. */
  function IntToDecimal(k: int): (s: string)
    ensures s != []
    ensures forall i :: 0 <= i < |s| ==> s[i] == '-' || IsDigit(s[i])
  {
    if k < 0 then "-" + NatToDecimal(-k) else NatToDecimal(k)
  }

  /** The number a string of digits denotes, most significant digit first. */
  function DecimalValue(s: string): nat
    requires AllDigits(s)
    decreases |s|
  {
    if s == [] then 0 else 10 * DecimalValue(s[..|s| - 1]) + DigitValue(s[|s| - 1])
  }

  /** Reads back exactly the texts `IntToDecimal` produces. */
  function ParseInt(s: string): Option<int> {
    if s != [] && s[0] == '-' then
      if Canonical(s[1..]) && s[1..] != "0" then Some(0 - DecimalValue(s[1..]) as int) else None
    else if Canonical(s) then Some(DecimalValue(s))
    else None
  }

  lemma {:induction false} NatRoundTrip(n: nat)
    ensures DecimalValue(NatToDecimal(n)) == n
    decreases n
  {
    if n >= 10 {
      var s := NatToDecimal(n);
      assert s[..|s| - 1] == NatToDecimal(n / 10);
      NatRoundTrip(n / 10);
    }
  }

  lemma {:induction false} LeadingNonZeroIsPositive(s: string)
    requires s != [] && AllDigits(s) && s[0] != '0'
    ensures DecimalValue(s) >= 1
    decreases |s|
  {
    if |s| > 1 {
      LeadingNonZeroIsPositive(s[..|s| - 1]);
    } else {
      assert DigitChar(DigitValue(s[0])) == s[0];
    }
  }

  lemma {:induction false} CanonicalRoundTrip(s: string)
    requires Canonical(s)
    ensures NatToDecimal(DecimalValue(s)) == s
    decreases |s|
  {
    var d := DigitValue(s[|s| - 1]);
    if |s| == 1 {
      assert NatToDecimal(d) == [DigitChar(d)];
    } else {
      var p := s[..|s| - 1];
      CanonicalRoundTrip(p);
      LeadingNonZeroIsPositive(p);
      var v := DecimalValue(s);
      assert v == 10 * DecimalValue(p) + d;
      assert v / 10 == DecimalValue(p) && v % 10 == d;
      assert s == p + [s[|s| - 1]];
    }
  }

  /** Every integer's text parses back to it. */
  lemma IntRoundTrip(k: int)
    ensures ParseInt(IntToDecimal(k)) == Some(k)
  {
    var s := IntToDecimal(k);
    if k < 0 {
      assert s[1..] == NatToDecimal(-k);
      NatRoundTrip(-k);
    } else {
      NatRoundTrip(k);
    }
  }

  /** Whatever parses is exactly the text of the integer it parses to. */
  lemma ParseIntSound(s: string, k: int)
    requires ParseInt(s) == Some(k)
    ensures IntToDecimal(k) == s
  {
    if s != [] && s[0] == '-' {
      var t := s[1..];
      LeadingNonZeroIsPositive(t);
      CanonicalRoundTrip(t);
      assert s == "-" + t;
    } else {
      CanonicalRoundTrip(s);
    }
  }
}
