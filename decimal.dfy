/** Decimal text of integers, as Python writes and reads it: `str(n)` (used by
    the f-string that builds the request URL) and `int(s)` followed by the cast
    to a 64-bit integer (what `astype(int)` does to the `date` column). */
module Decimal {
  import opened Wrappers

  const Int64Min: int := -0x8000_0000_0000_0000
  const Int64Max: int := 0x7fff_ffff_ffff_ffff

  predicate InInt64(n: int) {
    Int64Min <= n <= Int64Max
  }

  predicate IsDigit(c: char) {
    '0' <= c <= '9'
  }

  predicate AllDigits(s: string) {
    forall i | 0 <= i < |s| :: IsDigit(s[i])
  }

  function DigitValue(c: char): (d: nat)
    requires IsDigit(c)
    ensures d < 10
  {
    c as int - '0' as int
  }

  function DigitChar(d: nat): (c: char)
    requires d < 10
    ensures IsDigit(c) && DigitValue(c) == d
  {
    ('0' as int + d) as char
  }

  /** The number a string of decimal digits denotes, most significant first. */
  function DigitsValue(s: string): nat
    requires AllDigits(s)
  {
    if s == [] then 0 else DigitsValue(s[..|s| - 1]) * 10 + DigitValue(s[|s| - 1])
  }

  /** The shortest decimal text of a natural number. */
  function NatDigits(n: nat): (s: string)
    ensures 0 < |s| && AllDigits(s)
  {
    if n < 10 then [DigitChar(n)] else NatDigits(n / 10) + [DigitChar(n % 10)]
  }

  lemma {:induction false} DigitsValueOfNatDigits(n: nat)
    ensures DigitsValue(NatDigits(n)) == n
  {
    var s := NatDigits(n);
    if n < 10 {
      assert s[..|s| - 1] == [];
    } else {
      DigitsValueOfNatDigits(n / 10);
      assert s[..|s| - 1] == NatDigits(n / 10);
    }
  }

  /** `str(n)` for a Python int: an optional minus sign, then the digits. */
  function FormatInt(n: int): (s: string)
    ensures 0 < |s|
    ensures forall i | 0 <= i < |s| :: IsDigit(s[i]) || (i == 0 && s[i] == '-')
  {
    if n < 0 then "-" + NatDigits(-n) else NatDigits(n)
  }

  /** `int(s)` followed by the conversion to a 64-bit integer: an optional
      leading sign, then at least one decimal digit; anything else, or a value
      outside the 64-bit range, raises (None). */
  function ParseInt64(s: string): (r: Option<int>)
    ensures r.Some? ==> InInt64(r.value)
    ensures r.Some? ==> 0 < |s| && AllDigits(s[1..]) && (IsDigit(s[0]) || (1 < |s| && s[0] in "+-"))
  {
    var signed := 0 < |s| && s[0] in "+-";
    var body := if signed then s[1..] else s;
    if body == [] || !AllDigits(body) then None
    else
      var magnitude: int := DigitsValue(body);
      var n := if signed && s[0] == '-' then -magnitude else magnitude;
      if InInt64(n) then Some(n) else None
  }

  /** Every text made of an optional sign and at least one digit is read as
      its signed decimal value, and accepted exactly when that value fits in
      64 bits; leading zeros and `-0` included. */
  lemma ParseInt64Reads(sign: string, digits: string)
    requires sign == "" || sign == "+" || sign == "-"
    requires digits != [] && AllDigits(digits)
    ensures var n: int := if sign == "-" then 0 - DigitsValue(digits) else DigitsValue(digits);
            ParseInt64(sign + digits) == if InInt64(n) then Some(n) else None
  {
    var s := sign + digits;
    if sign == "" {
      assert s == digits;
      assert IsDigit(s[0]);
    } else {
      assert s[0] == sign[0];
      assert s[1..] == digits;
    }
  }

  /** Reading back what `str` wrote gives the same integer. */
  lemma ParseFormatRoundTrip(n: int)
    requires InInt64(n)
    ensures ParseInt64(FormatInt(n)) == Some(n)
  {
    var s := FormatInt(n);
    if n < 0 {
      DigitsValueOfNatDigits(-n);
      assert s[1..] == NatDigits(-n);
    } else {
      DigitsValueOfNatDigits(n);
      assert IsDigit(s[0]);
    }
  }
}
