/**
 Base-10 numerals: the digits of a natural number, Go's
 `strconv.ParseInt(s, 10, 64)` and its inverse `strconv.FormatInt(n, 10)`.
 */
module Decimal {
  import opened Common

  const MinInt64: int := -0x8000_0000_0000_0000
  const MaxInt64: int := 0x7fff_ffff_ffff_ffff

  predicate IsDigit(c: char)
  {
    '0' <= c <= '9'
  }

  predicate AllDigits(s: string)
  {
    forall i :: 0 <= i < |s| ==> IsDigit(s[i])
  }

  function DigitValue(c: char): nat
    requires IsDigit(c)
  {
    c as int - '0' as int
  }

  function DigitChar(d: nat): (c: char)
    requires d < 10
    ensures IsDigit(c) && DigitValue(c) == d
  {
    ('0' as int + d) as char
  }

  /** The number a string of digits denotes, most significant digit first. */
  function DigitsValue(s: string): nat
    requires AllDigits(s)
  {
    if |s| == 0 then 0 else DigitsValue(s[..|s| - 1]) * 10 + DigitValue(s[|s| - 1])
  }

  /** The shortest base-10 numeral of `n`. */
  function NatToDecimal(n: nat): (s: string)
    ensures |s| > 0 && AllDigits(s)
    ensures n < 10 ==> |s| == 1
    ensures 10 <= n < 100 ==> |s| == 2
  {
    if n < 10 then [DigitChar(n)] else NatToDecimal(n / 10) + [DigitChar(n % 10)]
  }

  lemma {:induction false} NatToDecimalValue(n: nat)
    ensures DigitsValue(NatToDecimal(n)) == n
  {
    var s := NatToDecimal(n);
    if n >= 10 {
      NatToDecimalValue(n / 10);
      assert s[..|s| - 1] == NatToDecimal(n / 10);
    } else {
      assert s[..0] == [];
    }
  }

  /** `strconv.FormatInt(n, 10)`: a minus sign for negative numbers, then the digits. */
  function FormatInt(n: int): string
  {
    if n < 0 then "-" + NatToDecimal(-n) else NatToDecimal(n)
  }

  /** The digits after an optional leading sign. */
  function Unsigned(s: string): string
  {
    if |s| > 0 && (s[0] == '+' || s[0] == '-') then s[1..] else s
  }

  /** The value of a sign-and-digits string. */
  function SignedValue(s: string): int
    requires AllDigits(Unsigned(s))
  {
    var magnitude: int := DigitsValue(Unsigned(s));
    if |s| > 0 && s[0] == '-' then -magnitude else magnitude
  }

  /**
   `strconv.ParseInt(s, 10, 64)`: an optional `+` or `-`, then at least one
   decimal digit, the value fitting in 64 signed bits; `None` for
   everything else.
   */
  function ParseInt64(s: string): (r: Option<int>)
    ensures r.Some? <==>
      |Unsigned(s)| > 0 && AllDigits(Unsigned(s)) && MinInt64 <= SignedValue(s) <= MaxInt64
    ensures r.Some? ==> r.value == SignedValue(s)
  {
    var body := Unsigned(s);
    if |body| == 0 || !AllDigits(body) then None
    else
      var v := SignedValue(s);
      if MinInt64 <= v <= MaxInt64 then Some(v) else None
  }

  /** Formatting a 64-bit integer and parsing it back gives the integer. */
  lemma FormatThenParse(n: int)
    requires MinInt64 <= n <= MaxInt64
    ensures ParseInt64(FormatInt(n)) == Some(n)
  {
    var s := FormatInt(n);
    if n < 0 {
      NatToDecimalValue(-n);
      assert Unsigned(s) == NatToDecimal(-n);
    } else {
      NatToDecimalValue(n);
      var d := NatToDecimal(n);
      assert IsDigit(d[0]);
      assert Unsigned(s) == d;
    }
  }
}
