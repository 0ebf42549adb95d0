/** Automatic numbering of clients (`C`), suppliers (`F`) and invoices (`FA`):
    the next number after the largest one stored, written after the prefix
    with Python's `{n:06d}` format. The SQL query that finds the largest
    stored number is outside the model; its value is an input. */
module Numbering {
  import opened Text

  const ClientPrefix: string := "C"
  const SupplierPrefix: string := "F"
  const InvoicePrefix: string := "FA"

  function Zeros(k: nat): (z: string)
    ensures |z| == k && forall i :: 0 <= i < k ==> z[i] == '0'
  {
    seq(k, _ => '0')
  }

  /** `digits` padded with zeros on the left to at least `width` characters. */
  function ZeroPad(digits: string, width: nat): (r: string)
    ensures |r| == if |digits| < width then width else |digits|
    ensures EndsWith(r, digits)
  {
    var padded := if |digits| < width then Zeros(width - |digits|) + digits else digits;
    assert padded[|padded| - |digits|..] == digits;
    padded
  }

  /** `f"{n:06d}"`: at least six characters, zeros inserted after the sign. */
  function Format06(n: int): (s: string)
    ensures |s| >= 6
    ensures n >= 0 <==> (s[0] != '-')
  {
    if n >= 0 then ZeroPad(DecimalNat(n), 6)
    else
      var z := ZeroPad(DecimalNat(-n), 5);
      assert z[|z| - |DecimalNat(-n)|..] == DecimalNat(-n);
      assert IsDigit(z[|z| - 1]);
      "-" + z
  }

  function Code(prefix: string, n: int): (c: string)
    ensures StartsWith(c, prefix) && |c| >= |prefix| + 6
  {
    assert (prefix + Format06(n))[..|prefix|] == prefix;
    prefix + Format06(n)
  }

  /** `(last + 1) if last else 1`, where `last` is the largest number
      stored, None when there is none. */
  function NextNumber(last: Option<int>): (n: int)
    ensures last.Some? && last.value > 0 ==> n > last.value
    ensures last.None? || last.value == 0 ==> n == 1
    ensures last.Some? && last.value != 0 ==> n == last.value + 1
  {
    match last
    case Some(value) => if value != 0 then value + 1 else 1
    case None => 1
  }

  // ------------------------------------------------------------ properties

  lemma {:induction false} ZerosValue(k: nat)
    ensures AllDigits(Zeros(k)) && DigitsValue(Zeros(k)) == 0
  {
    if k > 0 {
      ZerosValue(k - 1);
      assert Zeros(k)[..k - 1] == Zeros(k - 1);
    }
  }

  /** Leading zeros do not change a decimal value. */
  lemma {:induction false} LeadingZeros(k: nat, d: string)
    requires AllDigits(d)
    ensures AllDigits(Zeros(k) + d) && DigitsValue(Zeros(k) + d) == DigitsValue(d)
    decreases |d|
  {
    var s := Zeros(k) + d;
    if d == [] {
      assert s == Zeros(k);
      ZerosValue(k);
    } else {
      LeadingZeros(k, d[..|d| - 1]);
      assert s[..|s| - 1] == Zeros(k) + d[..|d| - 1];
    }
  }

  lemma PaddedValue(n: nat, width: nat)
    ensures AllDigits(ZeroPad(DecimalNat(n), width))
    ensures ParseUnsigned(ZeroPad(DecimalNat(n), width)) == Some(n)
  {
    var d := DecimalNat(n);
    DecimalNatValue(n);
    if |d| < width {
      LeadingZeros(width - |d|, d);
    }
  }

  lemma ParseDigits(s: string)
    requires s != [] && AllDigits(s)
    ensures ParseInt(s) == Some(DigitsValue(s))
  {
    StripNoSpace(s);
  }

  lemma ParseMinusDigits(s: string)
    requires s != [] && AllDigits(s)
    ensures ParseInt("-" + s) == Some(-(DigitsValue(s) as int))
  {
    var t := "-" + s;
    StripNoSpace(t);
    assert t[1..] == s;
  }

  /** Reading the code back after the prefix with `int()` gives the number:
      the format loses nothing. */
  lemma CodeRoundTrip(prefix: string, n: int)
    ensures ParseInt(Code(prefix, n)[|prefix|..]) == Some(n)
  {
    assert Code(prefix, n)[|prefix|..] == Format06(n);
    Format06Value(n);
  }

  /** `int()` reads the `:06d` text of any number back as that number. */
  lemma Format06Value(n: int)
    ensures ParseInt(Format06(n)) == Some(n)
  {
    if n >= 0 {
      Format06NonNegative(n);
    } else {
      Format06Negative(n);
    }
  }

  lemma Format06NonNegative(n: nat)
    ensures ParseInt(Format06(n)) == Some(n)
  {
    var s := ZeroPad(DecimalNat(n), 6);
    assert Format06(n) == s;
    PaddedValue(n, 6);
    ParseDigits(s);
  }

  lemma Format06Negative(n: int)
    requires n < 0
    ensures ParseInt(Format06(n)) == Some(n)
  {
    var z := ZeroPad(DecimalNat(-n), 5);
    assert Format06(n) == "-" + z;
    PaddedValue(-n, 5);
    assert DigitsValue(z) == -n;
    ParseMinusDigits(z);
  }

  /** Distinct numbers give distinct codes. */
  lemma CodeInjective(prefix: string, a: int, b: int)
    requires Code(prefix, a) == Code(prefix, b)
    ensures a == b
  {
    CodeRoundTrip(prefix, a);
    CodeRoundTrip(prefix, b);
  }

  /** From a positive stored maximum, the new code differs from every code
      with a number up to that maximum. */
  lemma NextCodeIsNew(prefix: string, last: int, m: int)
    requires last > 0 && m <= last
    ensures Code(prefix, NextNumber(Some(last))) != Code(prefix, m)
  {
    if Code(prefix, NextNumber(Some(last))) == Code(prefix, m) {
      CodeInjective(prefix, NextNumber(Some(last)), m);
    }
  }

  function Pow10(k: nat): (p: nat)
    ensures p >= 1
  {
    if k == 0 then 1 else 10 * Pow10(k - 1)
  }

  lemma {:induction false} DecimalNatLength(n: nat, k: nat)
    requires 1 <= k && n < Pow10(k)
    ensures |DecimalNat(n)| <= k
  {
    if n >= 10 {
      assert Pow10(1) == 10;
      assert n / 10 < Pow10(k - 1);
      DecimalNatLength(n / 10, k - 1);
    }
  }

  /** Numbers from 0 to 999999 take exactly six characters, and so do the
      negative ones down to -99999. */
  lemma SixCharacterCodes(n: int)
    requires -100000 < n < 1000000
    ensures |Format06(n)| == 6
  {
    assert Pow10(5) == 100000 && Pow10(6) == 1000000;
    if n >= 0 { DecimalNatLength(n, 6); } else { DecimalNatLength(-n, 5); }
  }

  lemma FirstCodes()
    ensures Code(ClientPrefix, NextNumber(None)) == "C000001"
    ensures Code(InvoicePrefix, NextNumber(Some(41))) == "FA000042"
  {
    assert DecimalNat(1) == "1";
    assert DecimalNat(42) == DecimalNat(4) + "2";
  }
}
