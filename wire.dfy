/**
 * Number text exchanged over the native bridge: what the native modules write
 * (Integer.toString on Android, Swift's description of an integral CGFloat on
 * iOS) and what JavaScript's Number() reads back from it.
 */
module Wire {
  import opened Wrappers
  import opened Decimal
  import opened Js

  /** Swift's description of an integral Float or CGFloat value, e.g. "12.0" or "-3.0". */
  function FloatText(n: int): (r: string)
    ensures |r| >= 3
    ensures r[0] == '-' <==> n < 0
  {
    IntToString(n) + ".0"
  }

  /** The text has no space and ends in ".0". */
  lemma FloatTextShape(n: int)
    ensures ' ' !in FloatText(n)
    ensures FloatText(n)[|FloatText(n)| - 2..] == ".0"
  {
    IntToStringShape(n);
  }

  lemma LeadingDigitsOfDigits(ds: string, rest: string)
    requires AllDigits(ds)
    requires rest == [] || !IsDigit(rest[0])
    ensures LeadingDigits(ds + rest) == |ds|
  {
    if |ds| > 0 {
      assert (ds + rest)[1..] == ds[1..] + rest;
      LeadingDigitsOfDigits(ds[1..], rest);
    }
  }

  /** Number() reads back what Integer.toString wrote. */
  lemma NumberOfIntToString(n: int)
    ensures ToNumber(IntToString(n)) == Num(n as real)
  {
    var m: nat := if n < 0 then -n else n;
    NatDigitsValue(m);
    var ds := NatDigits(m);
    LeadingDigitsOfDigits(ds, []);
    assert ds + [] == ds;
    assert ds[..|ds|] == ds;
    if n < 0 {
      assert IntToString(n)[1..] == ds;
    }
  }

  lemma FractionOfZero()
    ensures AllDigits("0") && Fraction("0") == 0.0
  {
    assert "0"[1..] == "";
  }

  lemma UnsignedWithPoint(s: string, k: nat)
    requires k == LeadingDigits(s) && 0 < k < |s| && s[k] == '.' && AllDigits(s[k + 1..])
    ensures Unsigned(s) == Some(DigitsValue(s[..k]) as real + Fraction(s[k + 1..]))
  {
  }

  lemma LeadingDigitsPointZero(ds: string)
    requires |ds| >= 1 && AllDigits(ds)
    ensures LeadingDigits(ds + ".0") == |ds|
  {
    LeadingDigitsOfDigits(ds, ".0");
  }

  lemma UnsignedPointZero(ds: string)
    requires |ds| >= 1 && AllDigits(ds)
    ensures Unsigned(ds + ".0") == Some(DigitsValue(ds) as real)
  {
    var body := ds + ".0";
    LeadingDigitsPointZero(ds);
    assert body[|ds| + 1..] == "0";
    assert body[..|ds|] == ds;
    FractionOfZero();
    UnsignedWithPoint(body, |ds|);
  }

  lemma ToNumberUnsigned(t: string, v: real)
    requires t != "" && t[0] != '-' && t[0] != '+' && Unsigned(t) == Some(v)
    ensures ToNumber(t) == Num(v)
  {
  }

  lemma ToNumberNegated(t: string, v: real)
    requires t != "" && t[0] == '-' && Unsigned(t[1..]) == Some(v)
    ensures ToNumber(t) == Num(-v)
  {
  }

  lemma PointZeroOfNegative(m: nat)
    requires m > 0
    ensures ToNumber(FloatText(0 - m as int)) == Num(-(m as real))
  {
    NatDigitsValue(m);
    var ds := NatDigits(m);
    UnsignedPointZero(ds);
    var t := FloatText(0 - m as int);
    assert t == "-" + (ds + ".0");
    assert t[1..] == ds + ".0";
    ToNumberNegated(t, m as real);
  }

  lemma PointZeroOfNatural(m: nat)
    ensures ToNumber(FloatText(m)) == Num(m as real)
  {
    NatDigitsValue(m);
    var ds := NatDigits(m);
    UnsignedPointZero(ds);
    var t := FloatText(m);
    assert t == ds + ".0";
    assert IsDigit(t[0]);
    ToNumberUnsigned(t, m as real);
  }

  /** Number() reads back an integral value written with a ".0" suffix. */
  lemma NumberOfPointZero(n: int)
    ensures ToNumber(FloatText(n)) == Num(n as real)
  {
    if n < 0 {
      PointZeroOfNegative(-n);
    } else {
      PointZeroOfNatural(n);
    }
  }
}
