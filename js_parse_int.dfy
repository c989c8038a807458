/** The global `parseInt(string)` of JavaScript, called with no radix, as
    section 19.2.5 of ECMA-262 defines it: skip leading white space, read an
    optional sign, read an optional "0x"/"0X" prefix that switches to base 16,
    then take the longest run of digits of that base.  No digits gives NaN. */
module JsParseInt {

  /** The Number values parseInt can produce, as far as this model needs them:
      NaN, or a finite integral value. */
  datatype NumberValue = NaN | Finite(value: int)

  /** The two bases parseInt uses when no radix is given. */
  type Radix = r: nat | r == 10 || r == 16 witness 10

  /** StrWhiteSpaceChar: WhiteSpace (TAB, VT, FF, ZWNBSP and every Zs space)
      or LineTerminator (LF, CR, LS, PS). */
  predicate IsStrWhiteSpaceChar(c: char) {
    c == '\t' || c == '\U{000B}' || c == '\U{000C}' || c == '\U{FEFF}'
    || c == ' ' || c == '\U{00A0}' || c == '\U{1680}' || ('\U{2000}' <= c <= '\U{200A}')
    || c == '\U{202F}' || c == '\U{205F}' || c == '\U{3000}'
    || c == '\n' || c == '\r' || c == '\U{2028}' || c == '\U{2029}'
  }

  predicate IsDecimalDigit(c: char) {
    '0' <= c <= '9'
  }

  predicate IsRadixDigit(c: char, radix: Radix) {
    IsDecimalDigit(c) || (radix == 16 && ('a' <= c <= 'f' || 'A' <= c <= 'F'))
  }

  /** The value of a digit; letters count from 10 in either case. */
  function DigitValue(c: char): (d: nat)
    requires IsRadixDigit(c, 16)
    ensures d < 16
    ensures IsDecimalDigit(c) <==> d < 10
  {
    if IsDecimalDigit(c) then c as nat - '0' as nat
    else if 'a' <= c <= 'f' then c as nat - 'a' as nat + 10
    else c as nat - 'A' as nat + 10
  }

  /** Step 2 of parseInt: the string with its leading white space removed. */
  function TrimStart(s: string): (r: string)
    ensures |r| <= |s|
    ensures r == [] || !IsStrWhiteSpaceChar(r[0])
  {
    if s != [] && IsStrWhiteSpaceChar(s[0]) then TrimStart(s[1..]) else s
  }

  /** What TrimStart removes is white space, and what it keeps is the rest. */
  lemma {:induction false} TrimStartRemovesOnlyWhiteSpace(s: string)
    ensures var r := TrimStart(s);
      r == s[|s| - |r|..] && forall i :: 0 <= i < |s| - |r| ==> IsStrWhiteSpaceChar(s[i])
  {
    if s != [] && IsStrWhiteSpaceChar(s[0]) {
      TrimStartRemovesOnlyWhiteSpace(s[1..]);
    }
  }

  /** The longest prefix of `s` made of digits of the given base. */
  function DigitPrefix(s: string, radix: Radix): (z: string)
    ensures |z| <= |s|
  {
    if s != [] && IsRadixDigit(s[0], radix) then [s[0]] + DigitPrefix(s[1..], radix) else []
  }

  /** DigitPrefix is a prefix of its input, made of digits, and followed by
      a non-digit or by nothing. */
  lemma {:induction false} DigitPrefixIsLongestDigitRun(s: string, radix: Radix)
    ensures var z := DigitPrefix(s, radix);
      z == s[..|z|] && AllDigits(z, radix) && (|z| == |s| || !IsRadixDigit(s[|z|], radix))
  {
    if s != [] && IsRadixDigit(s[0], radix) {
      DigitPrefixIsLongestDigitRun(s[1..], radix);
    }
  }

  predicate AllDigits(z: string, radix: Radix) {
    forall i :: 0 <= i < |z| ==> IsRadixDigit(z[i], radix)
  }

  /** The mathematical value of a digit string, most significant digit first. */
  function DigitsValue(z: string, radix: Radix): nat
    requires AllDigits(z, radix)
  {
    if z == [] then 0
    else DigitsValue(z[..|z| - 1], radix) * radix + DigitValue(z[|z| - 1])
  }

  /** parseInt(s) with the radix argument left undefined.  A number is read
      only when a digit follows the leading white space, directly or after
      one sign. */
  function ParseInt(s: string): (r: NumberValue)
    ensures var t := TrimStart(s);
      r.Finite? ==> t != [] && (IsDecimalDigit(t[0]) || (t[0] in "+-" && |t| > 1 && IsDecimalDigit(t[1])))
  {
    ParseSigned(TrimStart(s))
  }

  /** Steps 3 to 16 of parseInt, on text that no longer starts with white space. */
  function ParseSigned(t: string): NumberValue
  {
    if t != [] && t[0] == '-' then Negate(ParseUnsigned(t[1..]))
    else if t != [] && t[0] == '+' then ParseUnsigned(t[1..])
    else ParseUnsigned(t)
  }

  /** The digits after the sign: base 16 after "0x" or "0X", base 10 otherwise. */
  function ParseUnsigned(u: string): NumberValue
  {
    if |u| >= 2 && u[0] == '0' && (u[1] == 'x' || u[1] == 'X') then ParseDigits(u[2..], 16)
    else ParseDigits(u, 10)
  }

  function ParseDigits(v: string, radix: Radix): NumberValue
  {
    var z := DigitPrefix(v, radix);
    DigitPrefixIsLongestDigitRun(v, radix);
    if z == [] then NaN else Finite(DigitsValue(z, radix))
  }

  function Negate(n: NumberValue): NumberValue {
    match n
    case NaN => NaN
    case Finite(v) => Finite(-v)
  }

  /** Reference formatter: the decimal digits of a natural number, without
      leading zeros (what Number.prototype.toString gives for it). */
  function NatDigits(n: nat): (s: string)
    ensures |s| >= 1 && AllDigits(s, 10)
    ensures s[0] == '0' <==> n == 0
  {
    if n < 10 then ['0' + n as char] else NatDigits(n / 10) + ['0' + (n % 10) as char]
  }

  /** Reference formatter: an integer in decimal, with '-' for negatives. */
  function DecimalString(n: int): (s: string)
    ensures |s| >= 1 && !IsStrWhiteSpaceChar(s[0]) && s[0] != '+'
    ensures s[0] == '-' <==> n < 0
  {
    if n < 0 then "-" + NatDigits(-n) else NatDigits(n)
  }

  lemma {:induction false} DigitsValueOfNatDigits(n: nat)
    ensures DigitsValue(NatDigits(n), 10) == n
  {
    if n >= 10 {
      var init := NatDigits(n / 10);
      var s := NatDigits(n);
      assert s[..|s| - 1] == init;
      DigitsValueOfNatDigits(n / 10);
    }
  }

  /** A run of digits followed by a non-digit is read exactly up to that
      non-digit. */
  lemma {:induction false} DigitPrefixStopsAtNonDigit(z: string, t: string, radix: Radix)
    requires AllDigits(z, radix)
    requires t == [] || !IsRadixDigit(t[0], radix)
    ensures DigitPrefix(z + t, radix) == z
  {
    if z != [] {
      assert (z + t)[1..] == z[1..] + t;
      DigitPrefixStopsAtNonDigit(z[1..], t, radix);
    } else {
      assert z + t == t;
    }
  }

  lemma TrimStartOfNonSpace(s: string)
    requires s == [] || !IsStrWhiteSpaceChar(s[0])
    ensures TrimStart(s) == s
  {
  }

  lemma ParseDigitsOfDigits(z: string, t: string, radix: Radix)
    requires z != [] && AllDigits(z, radix)
    requires t == [] || !IsRadixDigit(t[0], radix)
    ensures ParseDigits(z + t, radix) == Finite(DigitsValue(z, radix))
  {
    DigitPrefixStopsAtNonDigit(z, t, radix);
  }

  /** The unsigned part of a decimal string is read in base 10. */
  lemma ParseUnsignedOfNatDigits(m: nat, t: string)
    requires t == [] || !IsDecimalDigit(t[0])
    requires m == 0 && t != [] ==> t[0] != 'x' && t[0] != 'X'
    ensures ParseUnsigned(NatDigits(m) + t) == Finite(m)
  {
    var d := NatDigits(m);
    var u := d + t;
    if m == 0 {
      assert d == "0";
      assert |u| >= 2 ==> u[1] == t[0];
    } else {
      assert u[0] == d[0] != '0';
    }
    assert ParseUnsigned(u) == ParseDigits(u, 10);
    ParseDigitsOfDigits(d, t, 10);
    DigitsValueOfNatDigits(m);
  }

  /** Prefix semantics: parseInt reads back the decimal form of any integer,
      whatever non-digit text follows it, except that a lone "0" followed by
      "x" or "X" is taken as the start of a hexadecimal literal. */
  lemma ParseIntOfDecimalString(n: int, t: string)
    requires t == [] || !IsDecimalDigit(t[0])
    requires n == 0 && t != [] ==> t[0] != 'x' && t[0] != 'X'
    ensures ParseInt(DecimalString(n) + t) == Finite(n)
  {
    if n < 0 {
      var u := NatDigits(-n) + t;
      assert DecimalString(n) + t == "-" + u;
      ParseUnsignedOfNatDigits(-n, t);
      ParseIntOfMinus(u);
    } else {
      ParseUnsignedOfNatDigits(n, t);
      ParseSignedOfUnsigned(NatDigits(n) + t);
    }
  }

  /** A leading '-' is read as the sign, and the rest as the unsigned part. */
  lemma ParseIntOfMinus(u: string)
    ensures ParseInt("-" + u) == Negate(ParseUnsigned(u))
  {
    var s := "-" + u;
    TrimStartOfNonSpace(s);
    assert s[1..] == u;
  }

  /** Leading white space never changes what parseInt reads. */
  lemma {:induction false} ParseIntSkipsWhiteSpace(w: string, s: string)
    requires forall i :: 0 <= i < |w| ==> IsStrWhiteSpaceChar(w[i])
    ensures ParseInt(w + s) == ParseInt(s)
  {
    TrimStartSkipsWhiteSpace(w, s);
  }

  lemma {:induction false} TrimStartSkipsWhiteSpace(w: string, s: string)
    requires forall i :: 0 <= i < |w| ==> IsStrWhiteSpaceChar(w[i])
    ensures TrimStart(w + s) == TrimStart(s)
  {
    if w != [] {
      var ws := w + s;
      assert ws[0] == w[0] && IsStrWhiteSpaceChar(ws[0]);
      assert ws[1..] == w[1..] + s;
      assert TrimStart(ws) == TrimStart(ws[1..]);
      TrimStartSkipsWhiteSpace(w[1..], s);
    } else {
      assert w + s == s;
    }
  }

  /** A '-' directly before the text negates what parseInt reads, NaN
      staying NaN; the text itself must not start with space or a sign. */
  lemma ParseIntOfNegated(s: string)
    requires s == [] || (!IsStrWhiteSpaceChar(s[0]) && s[0] != '+' && s[0] != '-')
    ensures ParseInt("-" + s) == Negate(ParseInt(s))
  {
    ParseIntOfMinus(s);
    TrimStartOfNonSpace(s);
  }

  /** After "0x" or "0X" parseInt reads hexadecimal digits; with no
      hexadecimal digit after the prefix the result is NaN. */
  lemma ParseIntOfHexLiteral(x: char, z: string, t: string)
    requires x == 'x' || x == 'X'
    requires AllDigits(z, 16)
    requires t == [] || !IsRadixDigit(t[0], 16)
    ensures ParseInt(['0', x] + z + t) == if z == [] then NaN else Finite(DigitsValue(z, 16))
  {
    var v := z + t;
    var s := ['0', x] + v;
    assert ['0', x] + z + t == s;
    ParseSignedOfUnsigned(s);
    ParseUnsignedOfHexPrefix(x, v);
    DigitPrefixStopsAtNonDigit(z, t, 16);
  }

  /** Text starting with a digit has no sign to read. */
  lemma ParseSignedOfUnsigned(s: string)
    requires s != [] && IsDecimalDigit(s[0])
    ensures ParseInt(s) == ParseUnsigned(s)
  {
    TrimStartOfNonSpace(s);
  }

  lemma ParseUnsignedOfHexPrefix(x: char, v: string)
    requires x == 'x' || x == 'X'
    ensures ParseUnsigned(['0', x] + v) == ParseDigits(v, 16)
  {
    assert (['0', x] + v)[2..] == v;
  }

  /** Text that, after white space, starts with neither a sign nor a digit
      is not a number. */
  lemma ParseIntWithoutLeadingDigit(s: string)
    requires TrimStart(s) == [] || !(IsDecimalDigit(TrimStart(s)[0]) || TrimStart(s)[0] in "+-")
    ensures ParseInt(s) == NaN
  {
    var t := TrimStart(s);
    assert ParseSigned(t) == ParseUnsigned(t) == ParseDigits(t, 10);
  }

  /** "42abc" is read as 42 and "12.5" as 12: reading stops at the first non-digit. */
  lemma ParseIntStopsAtFirstNonDigit()
    ensures ParseInt("42abc") == Finite(42)
    ensures ParseInt("12.5") == Finite(12)
  {
    assert DecimalString(42) + "abc" == "42abc";
    ParseIntOfDecimalString(42, "abc");
    assert DecimalString(12) + ".5" == "12.5";
    ParseIntOfDecimalString(12, ".5");
  }

  /** "-5" is read as -5 and "0" as 0. */
  lemma ParseIntSignedExamples()
    ensures ParseInt("-5") == Finite(-5)
    ensures ParseInt("0") == Finite(0)
  {
    assert DecimalString(-5) + "" == "-5";
    ParseIntOfDecimalString(-5, "");
    assert DecimalString(0) + "" == "0";
    ParseIntOfDecimalString(0, "");
  }

  /** "abc" and "" are not numbers. */
  lemma ParseIntRejectsText()
    ensures ParseInt("abc") == NaN
    ensures ParseInt("") == NaN
  {
    TrimStartOfNonSpace("abc");
    ParseIntWithoutLeadingDigit("abc");
    ParseIntWithoutLeadingDigit("");
  }

  /** "  7" is read as 7. */
  lemma ParseIntSpaceExample()
    ensures ParseInt("  7") == Finite(7)
  {
    assert DecimalString(7) + "" == "7";
    ParseIntOfDecimalString(7, "");
    assert "  " + "7" == "  7";
    ParseIntSkipsWhiteSpace("  ", "7");
  }

  /** "0x1A" is read as 26 and "0xg" is not a number. */
  lemma ParseIntHexExamples()
    ensures ParseInt("0x1A") == Finite(26)
    ensures ParseInt("0xg") == NaN
  {
    assert ['0', 'x'] + "1A" + "" == "0x1A";
    ParseIntOfHexLiteral('x', "1A", "");
    assert DigitsValue("1A", 16) == 26 by {
      assert "1A"[..1] == "1";
      assert "1"[..0] == "";
    }
    assert ['0', 'x'] + "" + "g" == "0xg";
    ParseIntOfHexLiteral('x', "", "g");
  }
}
