/**
 * JavaScript's global `parseInt(string)` called without a radix, as both the
 * client (script.js:144) and the server (server.js:148) call it on altitude
 * tokens: leading white space is skipped, one optional sign is read, a `0x`/`0X`
 * prefix switches to radix 16, and the longest run of digits of the radix that
 * follows is the value; no digit at all gives NaN, here `None`. The comparisons
 * the callers make (`< 0`, `> 60000`) are exact on `int`, so the rounding of
 * large results to a double does not change any outcome; `-0` becomes 0, which
 * also compares like `-0`.
 */
module JsInt {
  import opened Wrappers
  import opened Text

  predicate IsHexDigit(c: char) { IsDigit(c) || 'a' <= c <= 'f' || 'A' <= c <= 'F' }

  /** The value of one digit character in radix 16 (and so also in radix 10). */
  function DigitValue(c: char): nat {
    if IsDigit(c) then c as int - '0' as int
    else if 'a' <= c <= 'f' then c as int - 'a' as int + 10
    else if 'A' <= c <= 'F' then c as int - 'A' as int + 10
    else 0
  }

  /** The number the first `n` characters of `s` denote as digits of `radix`, most significant first. */
  function PrefixValue(s: string, n: nat, radix: nat): nat
    requires n <= |s|
  {
    if n == 0 then 0 else PrefixValue(s, n - 1, radix) * radix + DigitValue(s[n - 1])
  }

  /** The leading run of decimal (or, with `hex`, hexadecimal) digits of `body` and its value. */
  function LeadingNumber(body: string, hex: bool): Option<nat> {
    var n := if hex then Run(body, 0, IsHexDigit) else Run(body, 0, IsDigit);
    if n == 0 then None else Some(PrefixValue(body, n, if hex then 16 else 10))
  }

  /** The number after the sign: a `0x` or `0X` prefix selects radix 16. */
  function ParseUnsigned(unsigned: string): Option<nat> {
    if |unsigned| >= 2 && unsigned[0] == '0' && (unsigned[1] == 'x' || unsigned[1] == 'X')
    then LeadingNumber(unsigned[2..], true)
    else LeadingNumber(unsigned, false)
  }

  /** The sign applied to the number read after it. */
  function Signed(negative: bool, v: Option<nat>): Option<int> {
    match v
    case None => None
    case Some(n) => Some(if negative then -(n as int) else n)
  }

  /** `parseInt(input)`; `None` stands for NaN. */
  function ParseInt(input: string): Option<int> {
    var s := TrimStart(input);
    if s != [] && s[0] == '-' then Signed(true, ParseUnsigned(s[1..]))
    else if s != [] && s[0] == '+' then Signed(false, ParseUnsigned(s[1..]))
    else Signed(false, ParseUnsigned(s))
  }

  // ---------------------------------------------------------------- decimal numerals

  function DigitChar(d: nat): char
    requires d < 10
  {
    ('0' as int + d) as char
  }

  /** The decimal numeral of `n`, without leading zeros: `String(n)` for a non-negative integer. */
  function Digits(n: nat): (r: string)
    ensures |r| >= 1 && AllDigits(r)
    ensures |r| > 1 ==> r[0] != '0'
    ensures r[0] == '0' ==> n == 0
  {
    if n < 10 then [DigitChar(n)] else Digits(n / 10) + [DigitChar(n % 10)]
  }

  /** `String(i)` for an integer. */
  function IntString(i: int): string {
    if i < 0 then "-" + Digits(-i) else Digits(i)
  }

  /** Characters after the first `n` do not change their value. */
  lemma {:induction false} PrefixValueOfConcat(a: string, b: string, n: nat, radix: nat)
    requires n <= |a|
    ensures PrefixValue(a + b, n, radix) == PrefixValue(a, n, radix)
  {
    if n > 0 {
      PrefixValueOfConcat(a, b, n - 1, radix);
      assert (a + b)[n - 1] == a[n - 1];
    }
  }

  /** A decimal numeral denotes the number it was written from. */
  lemma {:induction false} ValueOfDigits(n: nat)
    ensures PrefixValue(Digits(n), |Digits(n)|, 10) == n
  {
    if n >= 10 {
      var d := Digits(n / 10);
      ValueOfDigits(n / 10);
      PrefixValueOfConcat(d, [DigitChar(n % 10)], |d|, 10);
    }
  }

  lemma RunOfDigits(d: string, rest: string)
    requires AllDigits(d)
    requires rest == [] || !IsDigit(rest[0])
    ensures Run(d + rest, 0, IsDigit) == |d|
  {
    RunAcrossPrefix(d, rest, 0, IsDigit);
  }

  /** A run of decimal digits followed by a character that cannot continue it is read as its value. */
  lemma ParseUnsignedDecimal(d: string, rest: string)
    requires |d| >= 1 && AllDigits(d)
    requires rest == [] || (!IsDigit(rest[0]) && (d[0] != '0' || (rest[0] != 'x' && rest[0] != 'X')))
    ensures ParseUnsigned(d + rest) == Some(PrefixValue(d, |d|, 10))
  {
    var unsigned := d + rest;
    if |unsigned| >= 2 && unsigned[0] == '0' {
      if |d| == 1 { assert unsigned[1] == rest[0]; } else { assert unsigned[1] == d[1]; }
    }
    RunOfDigits(d, rest);
    PrefixValueOfConcat(d, rest, |d|, 10);
  }

  /** White space before the number changes nothing. */
  lemma ParseIntIgnoresLeadingSpace(ws: string, t: string)
    requires forall k :: 0 <= k < |ws| ==> IsJsSpace(ws[k])
    ensures ParseInt(ws + t) == ParseInt(t)
  {
    RunAcrossPrefix(ws, t, 0, IsJsSpace);
    var n := Run(t, 0, IsJsSpace);
    assert (ws + t)[|ws| + n..] == t[n..];
  }

  lemma ParseIntReadsNatural(d: string, rest: string)
    requires |d| >= 1 && AllDigits(d)
    requires rest == [] || (!IsDigit(rest[0]) && (d[0] != '0' || (rest[0] != 'x' && rest[0] != 'X')))
    ensures ParseInt(d + rest) == Signed(false, Some(PrefixValue(d, |d|, 10)))
  {
    var u := d + rest;
    assert IsDigit(u[0]);
    assert Run(u, 0, IsJsSpace) == 0;
    assert TrimStart(u) == u;
    ParseUnsignedDecimal(d, rest);
  }

  lemma ParseIntAfterMinus(u: string)
    requires u != [] && u[0] == '-'
    ensures ParseInt(u) == Signed(true, ParseUnsigned(u[1..]))
  {
    assert Run(u, 0, IsJsSpace) == 0;
    assert TrimStart(u) == u;
  }

  lemma ParseIntReadsNegative(d: string, rest: string)
    requires |d| >= 1 && AllDigits(d)
    requires rest == [] || (!IsDigit(rest[0]) && (d[0] != '0' || (rest[0] != 'x' && rest[0] != 'X')))
    ensures ParseInt("-" + (d + rest)) == Signed(true, Some(PrefixValue(d, |d|, 10)))
  {
    var u := "-" + (d + rest);
    ParseIntAfterMinus(u);
    assert u[1..] == d + rest;
    ParseUnsignedDecimal(d, rest);
  }

  /**
   * `parseInt` reads the leading integer of its input: the decimal numeral of
   * an integer followed by anything that cannot continue the numeral.
   */
  lemma ParseIntReadsLeadingInteger(i: int, rest: string)
    requires rest == [] || (!IsDigit(rest[0]) && (i != 0 || (rest[0] != 'x' && rest[0] != 'X')))
    ensures ParseInt(IntString(i) + rest) == Some(i)
  {
    var magnitude: nat := if i < 0 then -i else i;
    var d := Digits(magnitude);
    ValueOfDigits(magnitude);
    if i < 0 {
      ParseIntReadsNegative(d, rest);
      assert IntString(i) + rest == "-" + (d + rest);
    } else {
      ParseIntReadsNatural(d, rest);
    }
  }

  /** The decimal numeral of an integer parses back to it. */
  lemma ParseIntRoundTrip(i: int)
    ensures ParseInt(IntString(i)) == Some(i)
  {
    ParseIntReadsLeadingInteger(i, "");
    assert IntString(i) + "" == IntString(i);
  }

  /** Without a digit after the optional sign the result is NaN. */
  lemma ParseIntNaN(t: string)
    requires var s := TrimStart(t);
      var u := if s != [] && (s[0] == '-' || s[0] == '+') then s[1..] else s;
      u == [] || !IsDigit(u[0])
    ensures ParseInt(t) == None
  {
  }

  /** The `0x` prefix makes the rest hexadecimal: a route altitude of `0x1F` is 31 feet. */
  lemma ParseIntHexExample()
    ensures ParseInt("0x1F") == Some(31)
    ensures ParseInt("-0x10") == Some(-16)
    ensures ParseInt("0x") == None
  {
    assert Run("0x1F", 0, IsJsSpace) == 0;
    assert TrimStart("0x1F") == "0x1F";
    assert ParseUnsigned("0x1F") == LeadingNumber("1F", true);
    assert Run("1F", 0, IsHexDigit) == 2;
    assert PrefixValue("1F", 2, 16) == PrefixValue("1F", 1, 16) * 16 + DigitValue('F') == 31;
    assert Run("-0x10", 0, IsJsSpace) == 0;
    assert TrimStart("-0x10") == "-0x10";
    assert "-0x10"[1..] == "0x10";
    assert ParseUnsigned("0x10") == LeadingNumber("10", true);
    assert Run("10", 0, IsHexDigit) == 2;
    assert PrefixValue("10", 2, 16) == PrefixValue("10", 1, 16) * 16 + DigitValue('0') == 16;
    assert Run("0x", 0, IsJsSpace) == 0;
    assert TrimStart("0x") == "0x";
  }
}
