/** Decimal printing of naturals, and the parsing of unsigned 64-bit integers. */
module Decimal {
  import opened Wrappers

  const U64_MAX: nat := 0xFFFF_FFFF_FFFF_FFFF

  predicate IsDigit(c: char) {
    '0' <= c <= '9'
  }

  function DigitChar(d: nat): (c: char)
    requires d < 10
    ensures IsDigit(c) && DigitValue(c) == d
  {
    '0' + d as char
  }

  function DigitValue(c: char): (d: nat)
    requires IsDigit(c)
    ensures d < 10
  {
    c as int - '0' as int
  }

  function PrintNat(n: nat): (s: string)
    ensures s != [] && forall i :: 0 <= i < |s| ==> IsDigit(s[i])
  {
    if n < 10 then [DigitChar(n)] else PrintNat(n / 10) + [DigitChar(n % 10)]
  }

  predicate AllDigits(s: string) {
    forall i :: 0 <= i < |s| ==> IsDigit(s[i])
  }

  function Value(digits: string): nat
    requires AllDigits(digits)
  {
    if digits == [] then 0 else 10 * Value(digits[..|digits| - 1]) + DigitValue(digits[|digits| - 1])
  }

  // One optional plus sign, then at least one digit, and a value that fits.
  function ParseU64(s: string): Option<nat> {
    var digits := if s != [] && s[0] == '+' then s[1..] else s;
    if digits == [] || !AllDigits(digits) then None
    else
      var n := Value(digits);
      if n <= U64_MAX then Some(n) else None
  }

  lemma {:induction false} ValueOfPrint(n: nat)
    ensures Value(PrintNat(n)) == n
  {
    var s := PrintNat(n);
    if n < 10 {
      assert s[..|s| - 1] == [];
    } else {
      ValueOfPrint(n / 10);
      assert s[..|s| - 1] == PrintNat(n / 10);
    }
  }

  /** Parsing undoes printing on every 64-bit value, and refuses every larger one. */
  lemma ParsePrint(n: nat)
    ensures ParseU64(PrintNat(n)) == if n <= U64_MAX then Some(n) else None
  {
    ValueOfPrint(n);
    assert IsDigit(PrintNat(n)[0]);
  }

  const I64_MAX: int := 0x7FFF_FFFF_FFFF_FFFF
  const I64_MIN: int := -0x8000_0000_0000_0000

  function PrintInt(n: int): string {
    if n < 0 then "-" + PrintNat(-n) else PrintNat(n)
  }

  // One optional sign, then at least one digit, and a value that fits.
  function ParseI64(s: string): Option<int> {
    var negative := s != [] && s[0] == '-';
    var digits := if s != [] && (s[0] == '+' || s[0] == '-') then s[1..] else s;
    if digits == [] || !AllDigits(digits) then None
    else
      var value: int := Value(digits);
      var n := if negative then -value else value;
      if I64_MIN <= n <= I64_MAX then Some(n) else None
  }

  /** Parsing undoes printing on every signed 64-bit value. */
  lemma ParsePrintInt(n: int)
    requires I64_MIN <= n <= I64_MAX
    ensures ParseI64(PrintInt(n)) == Some(n)
  {
    hide PrintNat, Value;
    var digits := PrintNat(if n < 0 then -n else n);
    ValueOfPrint(if n < 0 then -n else n);
    assert IsDigit(digits[0]);
    if n < 0 {
      assert PrintInt(n)[1..] == digits;
    }
  }
}
