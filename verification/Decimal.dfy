/** Decimal numerals as printf writes them, and the truncation of snprintf. */
module Decimal {
  import opened Common

  function Pow10(k: nat): (p: nat)
    ensures p > 0
  {
    if k == 0 then 1 else 10 * Pow10(k - 1)
  }

  function DigitChar(d: nat): char
    requires d < 10
  {
    '0' + d as char
  }

  predicate IsDigit(c: char) {
    '0' <= c <= '9'
  }

  predicate AllDigits(s: seq<char>) {
    forall i :: 0 <= i < |s| ==> IsDigit(s[i])
  }

  function DigitValue(c: char): (d: nat)
    requires IsDigit(c)
    ensures d < 10
  {
    (c - '0') as nat
  }

  /** "%zu". */
  function Digits(n: nat): (s: seq<char>)
    ensures s != [] && AllDigits(s)
  {
    if n < 10 then [DigitChar(n)] else Digits(n / 10) + [DigitChar(n % 10)]
  }

  /** "%ld". */
  function SignedDigits(z: int): (s: seq<char>)
    ensures s != []
    ensures forall i :: 0 <= i < |s| ==> IsDigit(s[i]) || s[i] == '-'
  {
    if z < 0 then "-" + Digits(-z) else Digits(z)
  }

  function ParseNat(s: seq<char>): nat
    requires AllDigits(s)
  {
    if s == [] then 0 else 10 * ParseNat(s[..|s| - 1]) + DigitValue(s[|s| - 1])
  }

  lemma {:induction false} DigitsRoundTrip(n: nat)
    ensures ParseNat(Digits(n)) == n
  {
    if n < 10 {
      assert Digits(n)[..0] == [];
    } else {
      DigitsRoundTrip(n / 10);
      assert Digits(n)[..|Digits(n)| - 1] == Digits(n / 10);
    }
  }

  lemma {:induction false} NoLeadingZero(n: nat)
    ensures Digits(n)[0] == '0' <==> n == 0
  {
    if n < 10 {
    } else {
      NoLeadingZero(n / 10);
    }
  }

  /** The numeral of n has at most k digits exactly when n < 10^k. */
  lemma {:induction false} DigitsLength(n: nat, k: nat)
    requires k > 0
    ensures |Digits(n)| <= k <==> n < Pow10(k)
    decreases k
  {
    if n >= 10 && k > 1 {
      DigitsLength(n / 10, k - 1);
    } else if k == 1 {
      assert Pow10(1) == 10;
    } else {
      PowAtLeast(k);
    }
  }

  lemma {:induction false} PowAtLeast(k: nat)
    requires k > 0
    ensures Pow10(k) >= 10
  {
    if k > 1 {
      PowAtLeast(k - 1);
    }
  }

  /** A numeral without leading zeros is the one Digits writes for its value. */
  lemma {:induction false} DigitsCanonical(s: seq<char>)
    requires s != [] && AllDigits(s) && (s[0] == '0' ==> |s| == 1)
    ensures Digits(ParseNat(s)) == s
  {
    var last := |s| - 1;
    assert ParseNat(s) == 10 * ParseNat(s[..last]) + DigitValue(s[last]);
    assert DigitChar(DigitValue(s[last])) == s[last];
    if last == 0 {
      assert s[..0] == [];
    } else {
      DigitsCanonical(s[..last]);
      NoLeadingZero(ParseNat(s[..last]));
      assert s == s[..last] + [s[last]];
    }
  }

  /** What snprintf leaves at its destination: at most limit - 1 characters and a NUL. */
  function Snprintf(limit: nat, text: seq<char>): (s: seq<char>)
    requires limit > 0
    ensures |s| <= limit
    ensures |text| < limit ==> s == text + ['\0']
  {
    text[..Min(limit - 1, |text|)] + ['\0']
  }

  /** Two signed numerals each followed by something that starts with neither a digit nor a sign. */
  lemma SignedPrefixInjective(a: int, b: int, s: seq<char>, t: seq<char>)
    requires s != [] && t != [] && !IsDigit(s[0]) && s[0] != '-' && !IsDigit(t[0]) && t[0] != '-'
    requires SignedDigits(a) + s == SignedDigits(b) + t
    ensures a == b && s == t
  {
    var x, y := SignedDigits(a), SignedDigits(b);
    assert (x + s)[|x|] == s[0] && (y + t)[|y|] == t[0];
    assert |x| == |y|;
    assert x == (x + s)[..|x|] && y == (y + t)[..|y|];
    assert s == (x + s)[|x|..] && t == (y + t)[|y|..];
    SignedInjective(a, b);
  }

  lemma SignedInjective(a: int, b: int)
    requires SignedDigits(a) == SignedDigits(b)
    ensures a == b
  {
    var x, y := SignedDigits(a), SignedDigits(b);
    if a < 0 {
      assert x[0] == '-';
      assert b < 0;
      assert Digits(-a) == x[1..] && Digits(-b) == y[1..];
      DigitsRoundTrip(-a);
      DigitsRoundTrip(-b);
    } else {
      assert IsDigit(x[0]);
      assert b >= 0;
      DigitsRoundTrip(a);
      DigitsRoundTrip(b);
    }
  }
}
