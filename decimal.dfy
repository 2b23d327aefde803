/**
 * Decimal digit strings: the integer-to-text conversion that both native
 * modules use for coordinates and extents (Java's Integer.toString, and the
 * integral part of Swift's description of a CGFloat), and the value of a run
 * of digits, which JavaScript's Number() reads back.
 */
module Decimal {

  predicate IsDigit(c: char) {
    '0' <= c <= '9'
  }

  predicate AllDigits(s: string) {
    forall i :: 0 <= i < |s| ==> IsDigit(s[i])
  }

  function DigitChar(d: nat): (c: char)
    requires d < 10
  {
    ('0' as int + d) as char
  }

  function DigitValue(c: char): nat
    requires IsDigit(c)
  {
    c as int - '0' as int
  }

  /** The value of a run of decimal digits, most significant first. */
  function DigitsValue(s: string): nat
    requires AllDigits(s)
  {
    if |s| == 0 then 0 else 10 * DigitsValue(s[..|s| - 1]) + DigitValue(s[|s| - 1])
  }

  /** The shortest decimal numeral of `n`. */
  function NatDigits(n: nat): string
  {
    if n < 10 then [DigitChar(n)] else NatDigits(n / 10) + [DigitChar(n % 10)]
  }

  /** Integer.toString: a minus sign followed by the digits of the magnitude. */
  function IntToString(n: int): (r: string)
    ensures |r| >= 1
    ensures r[0] == '-' <==> n < 0
    ensures r[0] == '0' <==> n == 0
  {
    NatDigitsLeading(if n < 0 then -n else n);
    if n < 0 then "-" + NatDigits(-n) else NatDigits(n)
  }

  /** A numeral starts with a digit, and with a zero only when it is "0": there are no leading zeros. */
  lemma {:induction false} NatDigitsLeading(n: nat)
    ensures |NatDigits(n)| >= 1 && IsDigit(NatDigits(n)[0])
    ensures NatDigits(n)[0] == '0' <==> n == 0
  {
    if n >= 10 {
      NatDigitsLeading(n / 10);
    }
  }

  /** NatDigits produces a non-empty run of digits whose value is `n`. */
  lemma {:induction false} NatDigitsValue(n: nat)
    ensures |NatDigits(n)| >= 1
    ensures AllDigits(NatDigits(n))
    ensures DigitsValue(NatDigits(n)) == n
  {
    if n >= 10 {
      NatDigitsValue(n / 10);
      var s := NatDigits(n);
      assert s[..|s| - 1] == NatDigits(n / 10);
    }
  }

  /** Neither numeral contains a space, so a space-separated list of them is unambiguous. */
  lemma IntToStringShape(n: int)
    ensures |IntToString(n)| >= 1
    ensures ' ' !in IntToString(n)
    ensures n >= 0 ==> AllDigits(IntToString(n))
    ensures n < 0 ==> IntToString(n)[0] == '-' && AllDigits(IntToString(n)[1..])
  {
    NatDigitsValue(if n < 0 then -n else n);
  }
}
