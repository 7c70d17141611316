/**
  Decimal text and numbers: `format!("{}", n)` for unsigned integers, the
  `from_str` parsers of `u64` and `i32`, and the syntax `f64::from_str` accepts.
 */
module Numbers {
  import opened Wrappers

  const U32_LIMIT: nat := 0x1_0000_0000
  const U64_LIMIT: nat := 0x1_0000_0000_0000_0000
  const I32_MIN: int := -0x8000_0000
  const I32_MAX: int := 0x7FFF_FFFF

  newtype u32 = x: int | 0 <= x < 0x1_0000_0000

  predicate IsDigit(c: char) {
    '0' <= c <= '9'
  }

  predicate AllDigits(s: string) {
    forall i :: 0 <= i < |s| ==> IsDigit(s[i])
  }

  function DigitChar(d: nat): (c: char)
    requires d < 10
    ensures IsDigit(c) && c as int - '0' as int == d
  {
    ('0' as int + d) as char
  }

  /** The value of a string of decimal digits, most significant first. */
  function DigitsValue(s: string): nat
    requires AllDigits(s)
  {
    if s == [] then 0 else 10 * DigitsValue(s[..|s| - 1]) + (s[|s| - 1] as int - '0' as int)
  }

  /** `n.to_string()`: the decimal digits of `n`, without leading zeros. */
  function DecimalString(n: nat): (s: string)
    ensures s != [] && AllDigits(s)
    ensures DigitsValue(s) == n
    ensures s[0] == '0' ==> n == 0 && |s| == 1
  {
    if n < 10 then [DigitChar(n)]
    else
      var prefix := DecimalString(n / 10);
      var s := prefix + [DigitChar(n % 10)];
      assert s[..|s| - 1] == prefix;
      s
  }

  /** Every character of a printed number is a digit. */
  lemma DecimalStringDigits(n: nat)
    ensures forall c :: c in DecimalString(n) ==> IsDigit(c)
  {
    var s := DecimalString(n);
    forall c | c in s ensures IsDigit(c) {
      var i :| 0 <= i < |s| && s[i] == c;
    }
  }

  /** Decimal text is one-to-one: different numbers print differently. */
  lemma DecimalStringInjective(m: nat, n: nat)
    requires DecimalString(m) == DecimalString(n)
    ensures m == n
  {
  }

  /**
    The digits after an optional leading '+' (and, when `signed`, '-'), with the
    sign that was there: how `from_str` on a Rust integer type reads its input.
    Fails on the empty string, on a lone sign and on any other character.
   */
  function SignedDigits(s: string, signed: bool): (r: Option<(bool, nat)>)
    ensures r.Some? ==> (r.value.0 ==> signed)
  {
    if s == [] then None
    else
      var negative := signed && s[0] == '-';
      var digits := if s[0] == '+' || negative then s[1..] else s;
      if digits == [] || !AllDigits(digits) then None
      else Some((negative, DigitsValue(digits)))
  }

  /** `u64::from_str`. */
  function ParseU64(s: string): (r: Option<nat>)
    ensures r.Some? ==> r.value < U64_LIMIT
  {
    match SignedDigits(s, false)
    case None => None
    case Some((_, v)) => if v < U64_LIMIT then Some(v) else None
  }

  /** `i32::from_str`. */
  function ParseI32(s: string): (r: Option<int>)
    ensures r.Some? ==> I32_MIN <= r.value <= I32_MAX
  {
    match SignedDigits(s, true)
    case None => None
    case Some((negative, v)) =>
      var x := if negative then -(v as int) else v as int;
      if I32_MIN <= x <= I32_MAX then Some(x) else None
  }

  /** Printing a `u64` and parsing it back gives the number again. */
  lemma ParseU64Decimal(n: nat)
    requires n < U64_LIMIT
    ensures ParseU64(DecimalString(n)) == Some(n)
  {
    var s := DecimalString(n);
    assert IsDigit(s[0]);
  }

  /** Printing a number and parsing it as an `i32` gives it back exactly when it fits. */
  lemma ParseI32Decimal(n: nat)
    ensures ParseI32(DecimalString(n)) == if n <= I32_MAX then Some(n) else None
  {
    var s := DecimalString(n);
    assert IsDigit(s[0]);
  }

  // ---------------------------------------------------------------- f64 syntax

  /** ASCII letters folded to lower case; `f64::from_str` compares "inf" and "nan" that way. */
  function AsciiLower(s: string): (t: string)
    ensures |t| == |s|
  {
    if s == [] then []
    else
      var c := s[0];
      [if 'A' <= c <= 'Z' then (c as int + 32) as char else c] + AsciiLower(s[1..])
  }

  /** Index of the first 'e' or 'E', or `|s|`. */
  function ExponentMark(s: string): (i: nat)
    ensures i <= |s|
    ensures i < |s| ==> s[i] == 'e' || s[i] == 'E'
    ensures forall k :: 0 <= k < i ==> s[k] != 'e' && s[k] != 'E'
  {
    if s == [] || s[0] == 'e' || s[0] == 'E' then 0 else 1 + ExponentMark(s[1..])
  }

  /** Digits with at most one '.', and at least one digit: `Digit+ | Digit+ '.' Digit* | Digit* '.' Digit+`. */
  predicate IsMantissa(m: string) {
    (m != [] && AllDigits(m))
    || exists d :: 0 <= d < |m| && m[d] == '.' && AllDigits(m[..d]) && AllDigits(m[d + 1..]) && |m| >= 2
  }

  /** `Sign? Digit+`, the part after the exponent mark. */
  predicate IsExponent(x: string) {
    var y := if x != [] && (x[0] == '+' || x[0] == '-') then x[1..] else x;
    y != [] && AllDigits(y)
  }

  /**
    The strings `f64::from_str` accepts: an optional sign, then "inf",
    "infinity" or "nan" in any ASCII case, or a decimal number with an optional
    exponent. No surrounding whitespace is allowed.
   */
  predicate IsF64Literal(s: string) {
    var t := if s != [] && (s[0] == '+' || s[0] == '-') then s[1..] else s;
    var lower := AsciiLower(t);
    lower == "inf" || lower == "infinity" || lower == "nan"
    || (var e := ExponentMark(t);
        IsMantissa(t[..e]) && (e == |t| || IsExponent(t[e + 1..])))
  }

  /** Every printed natural number is a valid `f64` literal. */
  lemma DecimalIsF64Literal(n: nat)
    ensures IsF64Literal(DecimalString(n))
  {
    var s := DecimalString(n);
    assert IsDigit(s[0]);
    assert ExponentMark(s) == |s|;
    assert s[..|s|] == s;
  }
}
