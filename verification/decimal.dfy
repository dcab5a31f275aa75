/**
The `%d` conversion that pixy_error uses to print an error code it does not
know, together with the reading back of such text, so that the printed code is
known to identify the original one.
*/
module Decimal {

  predicate IsDigit(c: char) {
    '0' <= c <= '9'
  }

  function DigitChar(d: nat): (c: char)
    requires d < 10
    ensures IsDigit(c)
    ensures c as int - '0' as int == d
  {
    "0123456789"[d]
  }

  /** Decimal digits of `n`, most significant first, without leading zeros. */
  function NatToDigits(n: nat): (s: string)
    ensures |s| >= 1
    ensures forall i :: 0 <= i < |s| ==> IsDigit(s[i])
    ensures |s| > 1 ==> s[0] != '0'
    decreases n
  {
    if n < 10 then [DigitChar(n)] else NatToDigits(n / 10) + [DigitChar(n % 10)]
  }

  /** What `printf("%d", n)` writes. */
  function IntToDecimal(n: int): (s: string)
    ensures |s| >= 1
    ensures n < 0 <==> s[0] == '-'
    ensures s[0] == '-' || IsDigit(s[0])
    ensures forall i :: 1 <= i < |s| ==> IsDigit(s[i])
  {
    if n < 0 then "-" + NatToDigits(-n) else NatToDigits(n)
  }

  /** The value of a string of decimal digits. */
  function DigitsToNat(s: string): nat
    requires forall i :: 0 <= i < |s| ==> IsDigit(s[i])
  {
    if |s| == 0 then 0
    else
      assert IsDigit(s[|s| - 1]);
      DigitsToNat(s[..|s| - 1]) * 10 + (s[|s| - 1] as int - '0' as int)
  }

  /** Reads back an optionally signed decimal numeral. */
  function ParseDecimal(s: string): int
    requires |s| >= 1
    requires s[0] == '-' || IsDigit(s[0])
    requires forall i :: 1 <= i < |s| ==> IsDigit(s[i])
  {
    if s[0] == '-' then -(DigitsToNat(s[1..]) as int) else DigitsToNat(s)
  }

  lemma {:induction false} DigitsRoundTrip(n: nat)
    ensures DigitsToNat(NatToDigits(n)) == n
    decreases n
  {
    var s := NatToDigits(n);
    if n >= 10 {
      DigitsRoundTrip(n / 10);
      assert s[..|s| - 1] == NatToDigits(n / 10);
    }
  }

  /** The printed numeral determines the number: reading it back gives `n`. */
  lemma DecimalRoundTrip(n: int)
    ensures ParseDecimal(IntToDecimal(n)) == n
  {
    if n < 0 {
      DigitsRoundTrip(-n);
      assert IntToDecimal(n)[1..] == NatToDigits(-n);
    } else {
      DigitsRoundTrip(n);
    }
  }

  /** Hence distinct codes are printed as distinct numerals. */
  lemma DecimalInjective(m: int, n: int)
    ensures IntToDecimal(m) == IntToDecimal(n) <==> m == n
  {
    DecimalRoundTrip(m);
    DecimalRoundTrip(n);
  }
}
