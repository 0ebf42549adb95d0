/** The SIRET check of the accounting application's validation manager: a
    Luhn-style checksum over the fourteen digits, in which the digits at odd
    positions (0-based, counted from the left) are doubled. The standard Luhn
    algorithm (ISO/IEC 7812-1, Annex B) doubles every second digit counted
    from the right, which for fourteen digits are the even positions; the
    lemmas at the end relate the two. */
module Siret {
  import opened Text

  /** What one digit adds to the sum when the digits at positions of parity
      `p` are doubled: a doubled digit above 9 counts by its digit sum. */
  function Weight(i: nat, c: char, p: nat): (w: nat)
    requires IsDigit(c)
    ensures w <= 9
    ensures i % 2 != p ==> w == DigitValue(c)
    ensures i % 2 == p ==> w == if DigitValue(c) < 5 then 2 * DigitValue(c) else 2 * DigitValue(c) - 9
  {
    var n := DigitValue(c);
    if i % 2 == p then
      var m := 2 * n;
      if m > 9 then m / 10 + m % 10 else m
    else n
  }

  /** The checksum of a digit string, doubling the positions of parity `p`. */
  function WeightedSum(s: string, p: nat): nat
    requires AllDigits(s)
  {
    if s == [] then 0 else WeightedSum(s[..|s| - 1], p) + Weight(|s| - 1, s[|s| - 1], p)
  }

  /** `validate_siret` as written: fourteen characters, all ASCII digits, and
      the sum with odd positions doubled is a multiple of 10. */
  predicate SiretValid(s: string)
  {
    |s| == 14 && AllDigits(s) && WeightedSum(s, 1) % 10 == 0
  }

  /** The loop of `validate_siret`: the length test first, then one digit at
      a time, a character that `int()` refuses ending the check with false. */
  method ValidateSiret(siret: string) returns (ok: bool)
    ensures ok <==> SiretValid(siret)
  {
    if |siret| != 14 {
      return false;
    }
    var total: nat := 0;
    var i := 0;
    while i < |siret|
      invariant 0 <= i <= |siret|
      invariant AllDigits(siret[..i])
      invariant total == WeightedSum(siret[..i], 1)
    {
      if !IsDigit(siret[i]) {
        return false;
      }
      var n := DigitValue(siret[i]);
      if i % 2 == 1 {
        n := n * 2;
        if n > 9 {
          n := n / 10 + n % 10;
        }
      }
      assert siret[..i + 1][..i] == siret[..i];
      total := total + n;
      i := i + 1;
    }
    assert siret[..i] == siret;
    ok := total % 10 == 0;
  }

  /** The standard Luhn check on a digit string of any length: every second
      digit counted from the right is doubled. */
  predicate LuhnValid(s: string)
  {
    AllDigits(s) && WeightedSum(s, |s| % 2) % 10 == 0 && s != []
  }

  /** A SIRET checked with the standard algorithm. */
  predicate SiretLuhnValid(s: string)
  {
    |s| == 14 && LuhnValid(s)
  }

  // ------------------------------------------------------------ properties

  lemma {:induction false} WeightedSumZeroTail(s: string, p: nat)
    requires AllDigits(s)
    ensures AllDigits(s + "0") && WeightedSum(s + "0", p) == WeightedSum(s, p)
  {
    var t := s + "0";
    assert t[..|t| - 1] == s;
  }

  /** The check as written is the standard Luhn check of the number with a
      0 appended: shifting every digit one place to the left of the check
      digit swaps the doubled and the kept positions. */
  lemma SiretIsLuhnOfShifted(s: string)
    requires |s| == 14
    ensures SiretValid(s) <==> LuhnValid(s + "0")
  {
    if AllDigits(s) {
      WeightedSumZeroTail(s, 1);
    } else {
      var k :| 0 <= k < |s| && !IsDigit(s[k]);
      assert (s + "0")[k] == s[k];
    }
  }

  /** A run of zeros adds nothing to either sum. */
  lemma {:induction false} ZeroPrefixSum(s: string, n: nat, p: nat)
    requires n <= |s| && forall i :: 0 <= i < n ==> s[i] == '0'
    ensures AllDigits(s[..n]) && WeightedSum(s[..n], p) == 0
  {
    if n > 0 {
      ZeroPrefixSum(s, n - 1, p);
      assert s[..n][..n - 1] == s[..n - 1];
    }
  }

  /** Twelve zeros followed by 1 and 8 pass the standard check (2 + 8) and
      fail the check as written (1 + 7). */
  lemma ZerosThenOneEight(s: string)
    requires |s| == 14 && s[12] == '1' && s[13] == '8'
    requires forall i :: 0 <= i < 12 ==> s[i] == '0'
    ensures SiretLuhnValid(s) && !SiretValid(s)
  {
    ZeroPrefixSum(s, 12, 0);
    ZeroPrefixSum(s, 12, 1);
    assert s[..13][..12] == s[..12];
    assert s[..14][..13] == s[..13];
    assert s[..14] == s;
    assert AllDigits(s[..13]);
    assert WeightedSum(s[..13], 0) == 2 && WeightedSum(s[..13], 1) == 1;
    assert AllDigits(s);
    assert WeightedSum(s, 0) == 10 && WeightedSum(s, 1) == 8;
  }

  /** A fourteen-digit number that the standard check accepts and the check
      as written refuses. */
  lemma LuhnValidSiretRejected()
    ensures SiretLuhnValid("00000000000018")
    ensures !SiretValid("00000000000018")
  {
    ZerosThenOneEight("00000000000018");
  }
}
