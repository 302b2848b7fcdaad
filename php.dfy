/**
 * The few pieces of PHP's runtime that api.php leans on: the truthiness of
 * `!$x`, `trim`, `intval`, integer-to-string conversion, `round` to one
 * decimal and the way a float with one decimal is printed.
 */
module Php {

  /** A scalar that a decoded JSON request or a fetched row can hold. */
  datatype Scalar = NullValue | IntValue(n: int) | StrValue(s: string)

  /** `$input[$name] ?? $default`: a missing key and a null value both give the default. */
  function Coalesce(input: map<string, Scalar>, name: string, default: Scalar): (v: Scalar)
    ensures v != NullValue || default == NullValue
    ensures name in input && input[name] != NullValue ==> v == input[name]
    ensures !(name in input && input[name] != NullValue) ==> v == default
  {
    if name in input && input[name] != NullValue then input[name] else default
  }

  /** PHP's `(bool)$v`: null, 0, "" and "0" are false, everything else true. */
  predicate Truthy(v: Scalar)
  {
    match v
    case NullValue => false
    case IntValue(n) => n != 0
    case StrValue(s) => s != "" && s != "0"
  }

  /** PHP's `(string)$v`. */
  function ToText(v: Scalar): string
  {
    match v
    case NullValue => ""
    case IntValue(n) => IntToString(n)
    case StrValue(s) => s
  }

  /** A truthy scalar prints as neither "" nor "0". */
  lemma TruthyText(v: Scalar)
    requires Truthy(v)
    ensures ToText(v) != "" && ToText(v) != "0"
  {
    if v.IntValue? && v.n > 0 {
      assert NatToString(v.n)[0] != '0';
    }
  }

  // ---------------------------------------------------------------------------
  // trim

  /** The characters `trim` strips by default: space, tab, newline, carriage return, NUL, vertical tab. */
  predicate IsTrimChar(c: char)
  {
    c == ' ' || c == '\t' || c == '\n' || c == '\r' || c == '\0' || c == '\U{B}'
  }

  function TrimLeft(s: string): (r: string)
    ensures |r| <= |s| && r == s[|s| - |r|..]
    ensures r != [] ==> !IsTrimChar(r[0])
    ensures forall i :: 0 <= i < |s| - |r| ==> IsTrimChar(s[i])
  {
    if s != [] && IsTrimChar(s[0]) then TrimLeft(s[1..]) else s
  }

  function TrimRight(s: string): (r: string)
    ensures |r| <= |s| && r == s[..|r|]
    ensures r != [] ==> !IsTrimChar(r[|r| - 1])
    ensures forall i :: |r| <= i < |s| ==> IsTrimChar(s[i])
  {
    if s != [] && IsTrimChar(s[|s| - 1]) then TrimRight(s[..|s| - 1]) else s
  }

  /** `trim($s)`: the longest middle part of `s` that neither starts nor ends with a trim character. */
  function Trim(s: string): (r: string)
    ensures r != [] ==> !IsTrimChar(r[0]) && !IsTrimChar(r[|r| - 1])
    ensures r == [] <==> forall i :: 0 <= i < |s| ==> IsTrimChar(s[i])
    ensures exists i, j ::
      0 <= i <= j <= |s| && r == s[i..j] && forall k :: 0 <= k < i || j <= k < |s| ==> IsTrimChar(s[k])
  {
    var left := TrimLeft(s);
    var r := TrimRight(left);
    var i := |s| - |left|;
    assert r == s[i..i + |r|];
    r
  }

  /** `trim` leaves alone a string that neither starts nor ends with a trim character. */
  lemma TrimUntouched(s: string)
    requires s != [] && !IsTrimChar(s[0]) && !IsTrimChar(s[|s| - 1])
    ensures Trim(s) == s
  {
    assert TrimLeft(s) == s;
  }

  // ---------------------------------------------------------------------------
  // integers and their decimal text

  predicate IsDigit(c: char)
  {
    '0' <= c <= '9'
  }

  function DigitChar(d: nat): (c: char)
    requires d < 10
    ensures IsDigit(c) && c as int - '0' as int == d
  {
    ('0' as int + d) as char
  }

  function DigitValue(c: char): (d: nat)
    requires IsDigit(c)
    ensures d < 10 && DigitChar(d) == c
  {
    c as int - '0' as int
  }

  /** The decimal digits of `n`, without leading zeros. */
  function NatToString(n: nat): (s: string)
    ensures s != [] && forall i :: 0 <= i < |s| ==> IsDigit(s[i])
    ensures s[0] == '0' ==> n == 0
  {
    if n < 10 then [DigitChar(n)] else NatToString(n / 10) + [DigitChar(n % 10)]
  }

  /** PHP's conversion of an integer to a string: a minus sign, then the digits of its magnitude. */
  function IntToString(n: int): string
  {
    if n < 0 then "-" + NatToString(-n) else NatToString(n)
  }

  /** The value of a string of decimal digits. */
  function DigitsValue(s: string): nat
    requires forall i :: 0 <= i < |s| ==> IsDigit(s[i])
  {
    if s == [] then 0 else DigitsValue(s[..|s| - 1]) * 10 + DigitValue(s[|s| - 1])
  }

  /** The longest prefix of `s` made only of decimal digits. */
  function LeadingDigits(s: string): (r: string)
    ensures |r| <= |s| && r == s[..|r|]
    ensures forall i :: 0 <= i < |r| ==> IsDigit(r[i])
    ensures |r| < |s| ==> !IsDigit(s[|r|])
  {
    if s != [] && IsDigit(s[0]) then [s[0]] + LeadingDigits(s[1..]) else []
  }

  /** The white space that `intval` skips before the number. */
  predicate IsSpace(c: char)
  {
    c == ' ' || c == '\t' || c == '\n' || c == '\r' || c == '\U{B}' || c == '\U{C}'
  }

  function SkipSpace(s: string): (r: string)
    ensures |r| <= |s| && r == s[|s| - |r|..]
    ensures r != [] ==> !IsSpace(r[0])
  {
    if s != [] && IsSpace(s[0]) then SkipSpace(s[1..]) else s
  }

  /**
   * `intval($s)` for a string: leading white space, an optional sign, then the
   * longest run of decimal digits; a string with no such run gives 0.
   */
  function IntVal(s: string): int
  {
    var t := SkipSpace(s);
    if t != [] && t[0] == '-' then -(DigitsValue(LeadingDigits(t[1..])) as int)
    else if t != [] && t[0] == '+' then DigitsValue(LeadingDigits(t[1..]))
    else DigitsValue(LeadingDigits(t))
  }

  /** `intval($v)` for any scalar. */
  function IntValOf(v: Scalar): int
  {
    match v
    case NullValue => 0
    case IntValue(n) => n
    case StrValue(s) => IntVal(s)
  }

  lemma {:induction false} DigitsValueOfNatToString(n: nat)
    ensures DigitsValue(NatToString(n)) == n
  {
    if n >= 10 {
      var s := NatToString(n);
      assert s[..|s| - 1] == NatToString(n / 10);
      DigitsValueOfNatToString(n / 10);
    }
  }

  lemma {:induction false} LeadingDigitsOfDigits(s: string, rest: string)
    requires forall i :: 0 <= i < |s| ==> IsDigit(s[i])
    requires rest == [] || !IsDigit(rest[0])
    ensures LeadingDigits(s + rest) == s
  {
    if s != [] {
      assert (s + rest)[1..] == s[1..] + rest;
      LeadingDigitsOfDigits(s[1..], rest);
    }
  }

  /** `intval` reads back every integer PHP prints. */
  lemma IntValOfIntToString(n: int)
    ensures IntVal(IntToString(n)) == n
  {
    var m := Abs(n);
    assert IntToString(n) == (if n < 0 then "-" else "") + NatToString(m) + [];
    IntValOfNumeral(m, [], n < 0);
  }

  // ---------------------------------------------------------------------------
  // round(x, 1) and float printing, with the value held in tenths

  function Abs(x: int): nat
  {
    if x < 0 then -x else x
  }

  /**
   * The integer nearest to `a / b`, halves rounded away from zero: how PHP's
   * `round` treats the exact quotient.
   */
  function RoundHalfAwayDiv(a: int, b: int): (r: int)
    requires b > 0
    ensures 2 * Abs(a - r * b) <= b
    ensures 2 * Abs(a - r * b) == b ==> Abs(r * b) > Abs(a)
    ensures (a >= 0 ==> r >= 0) && (a <= 0 ==> r <= 0)
  {
    if a >= 0 then RoundUpperHalf(a, b)
    else
      var q: int := RoundUpperHalf(-a, b);
      NegatedProduct(q, b);
      -q
  }

  lemma NegatedProduct(q: int, b: int)
    ensures (-q) * b == -(q * b)
  {
  }

  function RoundUpperHalf(a: nat, b: int): (r: nat)
    requires b > 0
    ensures 2 * Abs(a - r * b) <= b
    ensures 2 * Abs(a - r * b) == b ==> r * b > a
  {
    var q := (2 * a + b) / (2 * b);
    assert 2 * a + b - 2 * b < q * (2 * b) <= 2 * a + b;
    q
  }

  /** Rounding a quotient never leaves the integer bounds the quotient lies within. */
  lemma RoundHalfAwayDivBounds(a: int, b: int, lo: int, hi: int)
    requires b > 0
    requires lo * b <= a <= hi * b
    ensures lo <= RoundHalfAwayDiv(a, b) <= hi
  {
    var r := RoundHalfAwayDiv(a, b);
    if r > hi {
      MulGap(r, hi, b);
    }
    if r < lo {
      MulGap(lo, r, b);
    }
  }

  /** Two different multiples of `b` lie at least `b` apart. */
  lemma MulGap(x: int, y: int, b: int)
    requires x > y && b > 0
    ensures x * b - y * b >= b
  {
    var d := x - y;
    assert x * b - y * b == d * b;
    assert d * b == (d - 1) * b + b;
  }

  /**
   * How PHP prints a float that holds `tenths / 10`: no trailing ".0", one
   * decimal otherwise, and "-0" for a negative value that rounded to zero.
   */
  function RenderTenths(tenths: int, negative: bool): string
  {
    var sign := if tenths < 0 || (tenths == 0 && negative) then "-" else "";
    var a := Abs(tenths);
    sign + NatToString(a / 10) + (if a % 10 == 0 then "" else "." + [DigitChar(a % 10)])
  }

  /**
   * The printed value shows a decimal point exactly when the tenths digit is
   * not zero, and then it ends with that point and that digit.
   */
  lemma RenderTenthsFraction(tenths: int, negative: bool)
    ensures var text := RenderTenths(tenths, negative);
      Abs(tenths) % 10 != 0 ==>
        |text| >= 2 && text[|text| - 2..] == "." + [DigitChar(Abs(tenths) % 10)] &&
        forall k :: 0 <= k < |text| - 2 ==> text[k] != '.'
    ensures Abs(tenths) % 10 == 0 ==> forall k :: 0 <= k < |RenderTenths(tenths, negative)| ==> RenderTenths(tenths, negative)[k] != '.'
  {
    var a := Abs(tenths);
    var sign: string := if tenths < 0 || (tenths == 0 && negative) then "-" else "";
    var whole := sign + NatToString(a / 10);
    assert forall k :: 0 <= k < |whole| ==> whole[k] != '.' by {
      forall k | 0 <= k < |whole|
        ensures whole[k] != '.'
      {
        if k >= |sign| {
          assert whole[k] == NatToString(a / 10)[k - |sign|];
        }
      }
    }
    if a % 10 != 0 {
      assert RenderTenths(tenths, negative) == whole + ("." + [DigitChar(a % 10)]);
    } else {
      assert RenderTenths(tenths, negative) == whole + "";
    }
  }

  /** `intval` of a printed tenths value is the whole part, truncated toward zero. */
  lemma IntValOfRenderTenths(tenths: int, negative: bool)
    ensures IntVal(RenderTenths(tenths, negative)) == if tenths < 0 then -(Abs(tenths) / 10) else tenths / 10
  {
    var a := Abs(tenths);
    var frac: string := if a % 10 == 0 then "" else "." + [DigitChar(a % 10)];
    var neg := tenths < 0 || (tenths == 0 && negative);
    IntValOfNumeral(a / 10, frac, neg);
  }

  lemma IntValOfNumeral(n: nat, rest: string, neg: bool)
    requires rest == [] || rest[0] == '.'
    ensures IntVal((if neg then "-" else "") + NatToString(n) + rest) == if neg then -(n as int) else n
  {
    if neg {
      IntValNegative(n, rest);
    } else {
      assert "" + NatToString(n) == NatToString(n);
      IntValPositive(n, rest);
    }
  }

  lemma IntValNegative(n: nat, rest: string)
    requires rest == [] || rest[0] == '.'
    ensures IntVal("-" + NatToString(n) + rest) == -(n as int)
  {
    var digits := NatToString(n);
    var body := digits + rest;
    LeadingDigitsOfDigits(digits, rest);
    DigitsValueOfNatToString(n);
    assert "-" + digits + rest == "-" + body;
    IntValSigned("-" + body, body);
  }

  lemma IntValPositive(n: nat, rest: string)
    requires rest == [] || rest[0] == '.'
    ensures IntVal(NatToString(n) + rest) == n
  {
    var digits := NatToString(n);
    LeadingDigitsOfDigits(digits, rest);
    DigitsValueOfNatToString(n);
    IntValUnsigned(digits + rest);
  }

  lemma IntValSigned(t: string, body: string)
    requires t == "-" + body
    ensures IntVal(t) == -(DigitsValue(LeadingDigits(body)) as int)
  {
    assert SkipSpace(t) == t;
    assert t[1..] == body;
  }

  lemma IntValUnsigned(t: string)
    requires t != [] && IsDigit(t[0])
    ensures IntVal(t) == DigitsValue(LeadingDigits(t))
  {
    assert !IsSpace(t[0]) && t[0] != '-' && t[0] != '+';
    assert SkipSpace(t) == t;
  }
}
