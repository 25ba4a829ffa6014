/** Decimal text of integers as the two printers of the library produce it, and an
    independent reader. */
module Decimal {
  import opened Strings

  function DigitChar(d: nat): char
    requires d < 10
  {
    "0123456789"[d]
  }

  predicate IsDigit(c: char) {
    '0' <= c <= '9'
  }

  function DigitValue(c: char): nat
    requires IsDigit(c)
  {
    (c - '0') as nat
  }

  /** The digits the loop of formatInteger emits, least significant first; none for 0. */
  function RevDigits(n: nat): string {
    if n == 0 then "" else [DigitChar(n % 10)] + RevDigits(n / 10)
  }

  function Reverse(s: string): (r: string)
    ensures |r| == |s| && forall i :: 0 <= i < |s| ==> r[i] == s[|s| - 1 - i]
  {
    if s == "" then "" else Reverse(s[1..]) + [s[0]]
  }

  /** What formatInteger appends for v. */
  function FormatInt(v: int): string {
    if v < 0 then Reverse(RevDigits(-v) + "-") else Reverse(RevDigits(v))
  }

  /** What printf's %d and %zd produce for a natural number. */
  function PrintNat(n: nat): string {
    if n == 0 then "0" else FormatInt(n)
  }

  // ----- the reader -----

  predicate AllDigits(s: string) {
    forall i :: 0 <= i < |s| ==> IsDigit(s[i])
  }

  /** Positional value, most significant digit first. */
  function NatValue(s: string): nat
    requires AllDigits(s)
  {
    if s == "" then 0 else NatValue(s[..|s| - 1]) * 10 + DigitValue(s[|s| - 1])
  }

  /** A numeral is a non-empty digit string without a leading zero (but "0" itself),
      with an optional minus sign. */
  predicate IsNumeral(s: string) {
    s != "" && AllDigits(s) && (s[0] == '0' ==> |s| == 1)
  }

  function ParseInt(s: string): Option<int> {
    if s != "" && s[0] == '-'
    then if IsNumeral(s[1..]) then Some(0 - NatValue(s[1..]) as int) else None
    else if IsNumeral(s) then Some(NatValue(s)) else None
  }

  // ----- round trips -----

  lemma {:induction false} RevDigitsAreDigits(n: nat)
    ensures AllDigits(RevDigits(n))
    ensures n > 0 ==> RevDigits(n) != "" && RevDigits(n)[|RevDigits(n)| - 1] != '0'
  {
    if n > 0 {
      var rest := RevDigits(n / 10);
      RevDigitsAreDigits(n / 10);
      assert RevDigits(n) == [DigitChar(n % 10)] + rest;
      if n >= 10 {
        assert RevDigits(n)[|rest|] == rest[|rest| - 1];
      }
    }
  }

  lemma {:induction false} ReversedValue(n: nat)
    ensures AllDigits(Reverse(RevDigits(n))) && NatValue(Reverse(RevDigits(n))) == n
  {
    RevDigitsAreDigits(n);
    if n > 0 {
      ReversedValue(n / 10);
      var s := Reverse(RevDigits(n));
      assert RevDigits(n)[1..] == RevDigits(n / 10);
      assert s[..|s| - 1] == Reverse(RevDigits(n / 10));
    }
  }

  lemma PositiveRoundTrip(n: int)
    requires n > 0
    ensures ParseInt(FormatInt(n)) == Some(n)
  {
    RevDigitsAreDigits(n);
    ReversedValue(n);
    var digits := Reverse(RevDigits(n));
    assert FormatInt(n) == digits && digits[0] != '-';
  }

  lemma NegativeRoundTrip(n: int)
    requires n > 0
    ensures ParseInt(FormatInt(-n)) == Some(-n)
  {
    RevDigitsAreDigits(n);
    ReversedValue(n);
    assert FormatInt(-n)[0] == '-';
    assert FormatInt(-n)[1..] == Reverse(RevDigits(n));
  }

  /** The text of v is read back as v if and only if v is not zero: for zero, formatInteger
      prints nothing. Never a leading zero. */
  lemma FormatIntRoundTrip(v: int)
    ensures ParseInt(FormatInt(v)) == Some(v) <==> v != 0
    ensures FormatInt(0) == ""
  {
    if v < 0 {
      NegativeRoundTrip(-v);
    } else if v > 0 {
      PositiveRoundTrip(v);
    }
  }

  lemma PrintNatRoundTrip(n: nat)
    ensures IsNumeral(PrintNat(n)) && NatValue(PrintNat(n)) == n
  {
    RevDigitsAreDigits(n);
    ReversedValue(n);
    if n == 0 {
      assert "0"[..0] == "";
    }
  }

  // ----- lengths -----

  function Pow10(k: nat): nat {
    if k == 0 then 1 else 10 * Pow10(k - 1)
  }

  lemma {:induction false} DigitCount(n: nat, k: nat)
    ensures |RevDigits(n)| <= k <==> n < Pow10(k)
    decreases k
  {
    if n > 0 && k > 0 {
      DigitCount(n / 10, k - 1);
    } else if n == 0 {
      Pow10Positive(k);
    }
  }

  lemma Pow10Positive(k: nat)
    ensures Pow10(k) > 0
  {
  }

  lemma Pow10Thirteen()
    ensures Pow10(13) == 10_000_000_000_000
  {
    assert Pow10(5) == 100000;
    assert Pow10(9) == 1000000000;
  }

  lemma Pow10Twenty()
    ensures Pow10(20) == 100_000_000_000_000_000_000
  {
    Pow10Thirteen();
    assert Pow10(16) == 10_000_000_000_000_000;
  }

  /** A 64-bit magnitude has at most twenty digits. */
  lemma SixtyFourBits(n: nat)
    requires n < 0x1_0000_0000_0000_0000
    ensures |RevDigits(n)| <= 20
  {
    Pow10Twenty();
    DigitCount(n, 20);
  }
}
