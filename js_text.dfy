/** The few JavaScript string primitives the application relies on:
    the `\s` character class, `toLowerCase` (ASCII part), the decimal
    rendering of an integer in a template literal, and `parseInt(s, 10)`. */
module JsText {
  import opened Wrappers

  /** ECMAScript WhiteSpace and LineTerminator code points: the class `\s`
      matches in a regular expression and the prefix `parseInt` skips. */
  predicate IsWhitespace(c: char) {
    || c == '\t' || c == '\n' || c == '\U{000B}' || c == '\U{000C}' || c == '\r'
    || c == ' ' || c == '\U{00A0}' || c == '\U{1680}'
    || ('\U{2000}' <= c <= '\U{200A}')
    || c == '\U{2028}' || c == '\U{2029}' || c == '\U{202F}' || c == '\U{205F}'
    || c == '\U{3000}' || c == '\U{FEFF}'
  }

  predicate IsDigit(c: char) {
    '0' <= c <= '9'
  }

  predicate AllDigits(s: string) {
    forall i :: 0 <= i < |s| ==> IsDigit(s[i])
  }

  predicate NoWhitespace(s: string) {
    forall i :: 0 <= i < |s| ==> !IsWhitespace(s[i])
  }

  predicate IsUpperAscii(c: char) {
    'A' <= c <= 'Z'
  }

  function LowerChar(c: char): (d: char)
    ensures !IsUpperAscii(d)
    ensures IsWhitespace(d) <==> IsWhitespace(c)
    ensures !IsUpperAscii(c) ==> d == c
  {
    if IsUpperAscii(c) then (c as int + 32) as char else c
  }

  /** `s.toLowerCase()` restricted to the ASCII letters. */
  function LowerAscii(s: string): (t: string)
    ensures |t| == |s|
    ensures forall i :: 0 <= i < |s| ==> t[i] == LowerChar(s[i])
  {
    seq(|s|, i requires 0 <= i < |s| => LowerChar(s[i]))
  }

  // ---------------------------------------------------------------------
  // Decimal rendering of integers, as `${n}` produces it for safe integers
  // ---------------------------------------------------------------------

  function DigitChar(d: nat): (c: char)
    requires d < 10
    ensures IsDigit(c)
  {
    ('0' as int + d) as char
  }

  function DigitValue(c: char): (d: nat)
    requires IsDigit(c)
    ensures d < 10 && DigitChar(d) == c
  {
    c as int - '0' as int
  }

  /** The shortest decimal numeral of `n`: digits only, no leading zero. */
  function NatToString(n: nat): (s: string)
    ensures 1 <= |s| && AllDigits(s)
    ensures |s| > 1 ==> s[0] != '0'
    decreases n
  {
    if n < 10 then [DigitChar(n)] else NatToString(n / 10) + [DigitChar(n % 10)]
  }

  function IntToString(i: int): (s: string)
    ensures s != [] && !IsWhitespace(s[0])
  {
    if i < 0 then "-" + NatToString(-i) else NatToString(i)
  }

  // ---------------------------------------------------------------------
  // parseInt(s, 10)
  // ---------------------------------------------------------------------

  /** The value of a digit string read as a decimal numeral. */
  function DigitsValue(s: string): nat
    requires AllDigits(s)
    decreases |s|
  {
    if s == [] then 0 else DigitsValue(s[..|s| - 1]) * 10 + DigitValue(s[|s| - 1])
  }

  /** The longest prefix of `s` made of decimal digits. */
  function DigitPrefix(s: string): (p: string)
    ensures |p| <= |s| && p == s[..|p|]
    ensures AllDigits(p)
    ensures |p| < |s| ==> !IsDigit(s[|p|])
  {
    if s == [] || !IsDigit(s[0]) then [] else [s[0]] + DigitPrefix(s[1..])
  }

  /** `s` with its leading white space removed. */
  function TrimStart(s: string): (t: string)
    ensures |t| <= |s| && t == s[|s| - |t|..]
    ensures forall i :: 0 <= i < |s| - |t| ==> IsWhitespace(s[i])
    ensures t != [] ==> !IsWhitespace(t[0])
  {
    if s != [] && IsWhitespace(s[0]) then TrimStart(s[1..]) else s
  }

  /** `parseInt(s, 10)`: skip leading white space, read an optional sign,
      then the longest run of decimal digits; `None` stands for `NaN`
      (no digit at all). Anything after the digits is ignored. */
  function ParseInt(s: string): Option<int> {
    ParseSigned(TrimStart(s))
  }

  /** The part of `parseInt` after the white space: sign, then digits. */
  function ParseSigned(t: string): Option<int> {
    if t != [] && t[0] == '-' then
      match ParseDigits(t[1..])
      case None => None
      case Some(m) => Some(-m)
    else if t != [] && t[0] == '+' then ParseDigits(t[1..])
    else ParseDigits(t)
  }

  /** The value of the leading run of digits, `None` when there is none. */
  function ParseDigits(u: string): Option<int> {
    var digits := DigitPrefix(u);
    if digits == [] then None else Some(DigitsValue(digits))
  }

  lemma {:induction false} DigitsValueOfNatToString(n: nat)
    ensures DigitsValue(NatToString(n)) == n
    decreases n
  {
    var s := NatToString(n);
    if n >= 10 {
      DigitsValueOfNatToString(n / 10);
      assert s[..|s| - 1] == NatToString(n / 10);
    }
  }

  /** The first character and the tail of a concatenation whose left part
      is not empty. */
  lemma TailOfAppend(a: string, b: string)
    requires a != []
    ensures (a + b)[0] == a[0] && (a + b)[1..] == a[1..] + b
    ensures [a[0]] + (a[1..] + b) == a + b
  {
    assert a == [a[0]] + a[1..];
  }

  lemma {:induction false} DigitPrefixOfDigits(digits: string, rest: string)
    requires AllDigits(digits)
    requires rest == [] || !IsDigit(rest[0])
    ensures DigitPrefix(digits + rest) == digits
    decreases |digits|
  {
    if digits == [] {
      assert digits + rest == rest;
    } else {
      TailOfAppend(digits, rest);
      DigitPrefixOfDigits(digits[1..], rest);
    }
  }

  lemma {:induction false} TrimStartOfBlank(blank: string, s: string)
    requires s == [] || !IsWhitespace(s[0])
    requires forall i :: 0 <= i < |blank| ==> IsWhitespace(blank[i])
    ensures TrimStart(blank + s) == s
    decreases |blank|
  {
    if blank == [] {
      assert blank + s == s;
    } else {
      TailOfAppend(blank, s);
      TrimStartOfBlank(blank[1..], s);
    }
  }

  /** `parseInt` reads back what `${i}` writes, even with leading white
      space before it and any non-digit text after it. */
  lemma ParseIntOfIntToString(blank: string, i: int, rest: string)
    requires forall k :: 0 <= k < |blank| ==> IsWhitespace(blank[k])
    requires rest == [] || !IsDigit(rest[0])
    ensures ParseInt(blank + IntToString(i) + rest) == Some(i)
  {
    var t := IntToString(i) + rest;
    TrimStartOfBlank(blank, t);
    AppendAssociative(blank, IntToString(i), rest);
    ParseSignedOfNumeral(i, rest);
  }

  /** `parseInt` reads back what `${i}` writes when nothing precedes it. */
  lemma ParseIntOfNumeral(i: int, rest: string)
    requires rest == [] || !IsDigit(rest[0])
    ensures ParseInt(IntToString(i) + rest) == Some(i)
  {
    var t := IntToString(i) + rest;
    TrimStartOfBlank([], t);
    assert [] + t == t;
    ParseSignedOfNumeral(i, rest);
  }

  lemma ParseDigitsOfNumeral(n: nat, rest: string)
    requires rest == [] || !IsDigit(rest[0])
    ensures ParseDigits(NatToString(n) + rest) == Some(n)
  {
    DigitPrefixOfDigits(NatToString(n), rest);
    DigitsValueOfNatToString(n);
  }

  lemma ParseSignedOfMinus(u: string)
    ensures ParseSigned("-" + u) == if ParseDigits(u).None? then None else Some(-ParseDigits(u).value)
  {
    assert ("-" + u)[0] == '-' && ("-" + u)[1..] == u;
  }

  lemma ParseSignedOfDigit(u: string)
    requires u != [] && IsDigit(u[0])
    ensures ParseSigned(u) == ParseDigits(u)
  {
  }

  lemma AppendAssociative(a: string, b: string, c: string)
    ensures a + b + c == a + (b + c)
  {
  }

  lemma ParseSignedOfNegative(n: nat, rest: string)
    requires rest == [] || !IsDigit(rest[0])
    ensures ParseSigned("-" + NatToString(n) + rest) == Some(-(n as int))
  {
    var numeral := NatToString(n);
    AppendAssociative("-", numeral, rest);
    ParseDigitsOfNumeral(n, rest);
    ParseSignedOfMinus(numeral + rest);
  }

  lemma ParseSignedOfNatural(n: nat, rest: string)
    requires rest == [] || !IsDigit(rest[0])
    ensures ParseSigned(NatToString(n) + rest) == Some(n)
  {
    var numeral := NatToString(n);
    ParseDigitsOfNumeral(n, rest);
    assert (numeral + rest)[0] == numeral[0];
    ParseSignedOfDigit(numeral + rest);
  }

  lemma ParseSignedOfNumeral(i: int, rest: string)
    requires rest == [] || !IsDigit(rest[0])
    ensures ParseSigned(IntToString(i) + rest) == Some(i)
  {
    if i < 0 {
      ParseSignedOfNegative(-i, rest);
    } else {
      ParseSignedOfNatural(i, rest);
    }
  }

  /** Distinct numbers render as distinct numerals. */
  lemma IntToStringInjective(i: int, j: int)
    requires i != j
    ensures IntToString(i) != IntToString(j)
  {
    var si, sj := IntToString(i), IntToString(j);
    ParseSignedOfNumeral(i, []);
    ParseSignedOfNumeral(j, []);
    assert si + [] == si && sj + [] == sj;
    assert ParseSigned(si) != ParseSigned(sj);
  }
}
