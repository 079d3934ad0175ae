/** The text of an integer literal and its value as Rust's `i64::from_str`
    reads it: an optional `+` or `-`, then one or more ASCII decimal digits,
    and a value that fits in 64 signed bits; anything else is rejected. */
module IntegerText {
  import opened Results

  const I64_MIN: int := -0x8000_0000_0000_0000
  const I64_MAX: int := 0x7FFF_FFFF_FFFF_FFFF

  predicate InI64(v: int) {
    I64_MIN <= v <= I64_MAX
  }

  predicate IsDigit(c: char) {
    '0' <= c <= '9'
  }

  /** A non-empty run of decimal digits. */
  predicate IsDigits(s: string) {
    |s| > 0 && forall i :: 0 <= i < |s| ==> IsDigit(s[i])
  }

  function DigitValue(c: char): (d: nat)
    requires IsDigit(c)
    ensures d < 10
  {
    (c as int) - ('0' as int)
  }

  function DigitChar(d: nat): (c: char)
    requires d < 10
    ensures IsDigit(c) && DigitValue(c) == d
  {
    ('0' as int + d) as char
  }

  /** The value of a digit string, read most significant digit first. */
  function DigitsValue(s: string): nat
    requires forall i :: 0 <= i < |s| ==> IsDigit(s[i])
  {
    if s == [] then 0 else 10 * DigitsValue(s[..|s| - 1]) + DigitValue(s[|s| - 1])
  }

  /** `i64::from_str`: `Some(v)` exactly when the text is a signed or
      unsigned digit string whose value `v` is a 64-bit signed integer. */
  function ParseI64(s: string): (r: Option<int>)
    ensures r.Some? ==> InI64(r.value)
    ensures r.Some? ==> IsDigits(s) || (|s| > 1 && (s[0] == '-' || s[0] == '+') && IsDigits(s[1..]))
  {
    if |s| > 0 && s[0] == '-' && IsDigits(s[1..]) then
      var v := 0 - DigitsValue(s[1..]) as int;
      if InI64(v) then Some(v) else None
    else if |s| > 0 && s[0] == '+' && IsDigits(s[1..]) then
      var v := DigitsValue(s[1..]);
      if InI64(v) then Some(v) else None
    else if IsDigits(s) && InI64(DigitsValue(s)) then
      Some(DigitsValue(s))
    else
      None
  }

  /** The shortest decimal text of a natural number. */
  function NatText(n: nat): string {
    if n < 10 then [DigitChar(n)] else NatText(n / 10) + [DigitChar(n % 10)]
  }

  /** The decimal text of an integer, with a leading `-` when negative. */
  function IntText(n: int): string {
    if n < 0 then "-" + NatText(0 - n) else NatText(n)
  }

  lemma {:induction false} NatTextValue(n: nat)
    ensures IsDigits(NatText(n)) && DigitsValue(NatText(n)) == n
  {
    var s := NatText(n);
    if n < 10 {
      assert s[..|s| - 1] == [];
    } else {
      NatTextValue(n / 10);
      assert s[..|s| - 1] == NatText(n / 10);
    }
  }

  /** Reading back the text of any 64-bit integer gives that integer. */
  lemma ParseIntText(n: int)
    requires InI64(n)
    ensures ParseI64(IntText(n)) == Some(n)
  {
    if n < 0 {
      NatTextValue(-n);
      assert IntText(n)[1..] == NatText(-n);
    } else {
      NatTextValue(n);
    }
  }
}
