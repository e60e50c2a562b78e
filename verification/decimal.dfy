/** Decimal numerals: what `printf("%d")` writes for a non-negative number and
    what `strtol(s, &end, 10)` reads back. */
module Decimal {
  import opened Strings

  predicate IsDigit(c: char) {
    '0' <= c <= '9'
  }

  predicate AllDigits(s: string) {
    forall i :: 0 <= i < |s| ==> IsDigit(s[i])
  }

  function DigitChar(d: nat): (c: char)
    requires d < 10
    ensures IsDigit(c)
  {
    ('0' as int + d) as char
  }

  function DigitValue(c: char): (d: nat)
    requires IsDigit(c)
    ensures d < 10 && DigitChar(d) == c
  {
    c as int - '0' as int
  }

  /** `%d` of a non-negative number: its digits, most significant first. */
  function NatToDecimal(n: nat): (s: string)
    ensures |s| > 0 && AllDigits(s)
  {
    if n < 10 then [DigitChar(n)] else NatToDecimal(n / 10) + [DigitChar(n % 10)]
  }

  /** The number a string of digits denotes. */
  function DecimalValue(s: string): nat
    requires AllDigits(s)
  {
    if s == [] then 0 else 10 * DecimalValue(s[..|s| - 1]) + DigitValue(s[|s| - 1])
  }

  /** Reading back what `%d` wrote gives the number, and the numeral has no
      leading zero (so it is the only digit string without one that
      denotes `n`). */
  lemma {:induction false} DecimalRoundTrip(n: nat)
    ensures DecimalValue(NatToDecimal(n)) == n
    ensures NatToDecimal(n)[0] == '0' ==> n == 0
  {
    if n >= 10 {
      DecimalRoundTrip(n / 10);
      var s := NatToDecimal(n);
      assert s[..|s| - 1] == NatToDecimal(n / 10);
    }
  }

  // ----------------------------------------------------------------- strtol

  /** Index of the first character of `s` at or after `i` that is not white
      space. */
  function SkipSpace(s: string, i: nat): (j: nat)
    requires i <= |s|
    ensures i <= j <= |s| && AllSpace(s[i..j])
    ensures j < |s| ==> !IsSpace(s[j])
    decreases |s| - i
  {
    if i < |s| && IsSpace(s[i]) then
      var j := SkipSpace(s, i + 1);
      assert s[i..j] == [s[i]] + s[i + 1..j];
      j
    else i
  }

  /** Index just past the run of digits starting at `i`. */
  function DigitsEnd(s: string, i: nat): (j: nat)
    requires i <= |s|
    ensures i <= j <= |s| && AllDigits(s[i..j])
    ensures j < |s| ==> !IsDigit(s[j])
    decreases |s| - i
  {
    if i < |s| && IsDigit(s[i]) then
      var j := DigitsEnd(s, i + 1);
      assert s[i..j] == [s[i]] + s[i + 1..j];
      j
    else i
  }

  /** The value `strtol` converts and where `*endptr` points. When no digit
      follows the optional white space and sign, nothing is converted: the
      value is 0 and `*endptr` is the start of the string. Clamping of values
      beyond the range of `long` is not modelled. */
  datatype Conversion = Conversion(value: int, end: nat)

  function Strtol(s: string): (c: Conversion)
    ensures c.end <= |s|
  {
    var i := SkipSpace(s, 0);
    var j := if i < |s| && (s[i] == '+' || s[i] == '-') then i + 1 else i;
    var k := DigitsEnd(s, j);
    if k == j then Conversion(0, 0)
    else
      var magnitude := DecimalValue(s[j..k]);
      Conversion(if i < |s| && s[i] == '-' then -(magnitude as int) else magnitude, k)
  }

  /** A decimal numeral is read back whole by `strtol` and gives its
      number. */
  lemma StrtolReadsNumeral(n: nat)
    ensures Strtol(NatToDecimal(n)) == Conversion(n, |NatToDecimal(n)|)
  {
    var s := NatToDecimal(n);
    assert !IsSpace(s[0]) && s[0] != '+' && s[0] != '-';
    assert SkipSpace(s, 0) == 0;
    var k := DigitsEnd(s, 0);
    assert k == |s|;
    assert s[0..k] == s;
    DecimalRoundTrip(n);
  }
}
