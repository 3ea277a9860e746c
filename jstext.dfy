/**
 * The parts of JavaScript's string and number library that the resolver relies on:
 * `trim`, ASCII `toLowerCase`, `includes`, `Number.prototype.toString` on integers
 * and `parseInt(s, 10)`.
 */
module JsText {

  /** ECMAScript white space and line terminators: the characters `trim` and `parseInt` skip. */
  predicate IsSpace(c: char) {
    c == '\t' || c == '\n' || c == '\U{000B}' || c == '\U{000C}' || c == '\r' || c == ' '
    || c == '\U{00A0}' || c == '\U{1680}' || ('\U{2000}' <= c <= '\U{200A}')
    || c == '\U{2028}' || c == '\U{2029}' || c == '\U{202F}' || c == '\U{205F}'
    || c == '\U{3000}' || c == '\U{FEFF}'
  }

  /** Every character of `s` is white space (so the empty string is blank). */
  predicate Blank(s: string) {
    forall i | 0 <= i < |s| :: IsSpace(s[i])
  }

  /** `s.trimStart()`: `s` without its leading white space. */
  function TrimStart(s: string): (r: string)
    ensures |r| <= |s| && r == s[|s| - |r|..]
    ensures Blank(s[..|s| - |r|])
    ensures r == [] || !IsSpace(r[0])
  {
    if s != [] && IsSpace(s[0]) then TrimStart(s[1..]) else s
  }

  /** `s.trimEnd()`: `s` without its trailing white space. */
  function TrimEnd(s: string): (r: string)
    ensures |r| <= |s| && r == s[..|r|]
    ensures Blank(s[|r|..])
    ensures r == [] || !IsSpace(r[|r| - 1])
  {
    if s != [] && IsSpace(s[|s| - 1]) then TrimEnd(s[..|s| - 1]) else s
  }

  /** `s.trim()`. */
  function Trim(s: string): string {
    TrimEnd(TrimStart(s))
  }

  /** `s.trim() === ''` holds exactly when `s` is made of white space only. */
  lemma TrimEmptyIffBlank(s: string)
    ensures Trim(s) == [] <==> Blank(s)
  {
    var t := TrimStart(s);
    var k := |s| - |t|;
    assert t[0..] == t;
    assert s[..|s|] == s;
    if t != [] {
      assert t[0] == s[k];
    }
  }

  /** ASCII `toLowerCase` on one character. */
  function LowerChar(c: char): char {
    if 'A' <= c <= 'Z' then (c as int + 32) as char else c
  }

  /** ASCII `toLowerCase`: the same length, each character lowered on its own. */
  function ToLower(s: string): (r: string)
    ensures |r| == |s|
    ensures forall i | 0 <= i < |s| :: r[i] == LowerChar(s[i])
  {
    seq(|s|, i requires 0 <= i < |s| => LowerChar(s[i]))
  }

  /** Lowering a string does not change whether it is blank. */
  lemma LowerKeepsBlank(s: string)
    ensures Blank(ToLower(s)) <==> Blank(s)
  {
    var r := ToLower(s);
    if Blank(r) {
      forall i | 0 <= i < |s| ensures IsSpace(s[i]) {
        assert IsSpace(r[i]);
      }
    }
  }

  predicate StartsWith(s: string, p: string) {
    |p| <= |s| && s[..|p|] == p
  }

  /** `s.includes(p)`. */
  predicate Includes(s: string, p: string)
    decreases |s|
  {
    StartsWith(s, p) || (s != [] && Includes(s[1..], p))
  }

  /** `Includes` finds `p` exactly when `p` occurs at some position of `s`. */
  lemma {:induction false} IncludesIffOccurs(s: string, p: string)
    ensures Includes(s, p) <==> exists i :: 0 <= i <= |s| && StartsWith(s[i..], p)
  {
    if s == [] {
      if Includes(s, p) {
        assert StartsWith(s[0..], p);
      }
    } else {
      IncludesIffOccurs(s[1..], p);
      if Includes(s, p) {
        if StartsWith(s, p) {
          assert StartsWith(s[0..], p);
        } else {
          var i :| 0 <= i <= |s| - 1 && StartsWith(s[1..][i..], p);
          assert s[1..][i..] == s[i + 1..];
        }
      }
      if exists i :: 0 <= i <= |s| && StartsWith(s[i..], p) {
        var i :| 0 <= i <= |s| && StartsWith(s[i..], p);
        if i == 0 {
          assert s[0..] == s;
        } else {
          assert s[i..] == s[1..][i - 1..];
        }
      }
    }
  }

  predicate IsDigit(c: char) {
    '0' <= c <= '9'
  }

  predicate AllDigits(s: string) {
    forall i | 0 <= i < |s| :: IsDigit(s[i])
  }

  function DigitChar(d: nat): (c: char)
    requires d < 10
    ensures IsDigit(c) && c as int - '0' as int == d
  {
    ('0' as int + d) as char
  }

  /** The number a string of decimal digits denotes. */
  function DigitsValue(s: string): nat
    requires AllDigits(s)
    decreases |s|
  {
    if s == [] then 0 else 10 * DigitsValue(s[..|s| - 1]) + (s[|s| - 1] as int - '0' as int)
  }

  /** `n.toString()` on a non-negative integer: its decimal digits. */
  function NatToString(n: nat): (r: string)
    ensures r != [] && AllDigits(r)
    decreases n
  {
    if n < 10 then [DigitChar(n)] else NatToString(n / 10) + [DigitChar(n % 10)]
  }

  lemma {:induction false} NatToStringValue(n: nat)
    ensures DigitsValue(NatToString(n)) == n
  {
    if n >= 10 {
      NatToStringValue(n / 10);
      var s := NatToString(n / 10);
      assert (s + [DigitChar(n % 10)])[..|s|] == s;
    }
  }

  /** `i.toString()` (and `${i}`) on an integer: a minus sign for negatives, then the digits. */
  function IntToString(i: int): (r: string)
    ensures r != []
    ensures r[0] == '-' <==> i < 0
    ensures AllDigits(if i < 0 then r[1..] else r)
    ensures '/' !in r
  {
    if i < 0 then "-" + NatToString(-i) else NatToString(i)
  }

  /** What `parseInt` returns: an integral number or NaN. */
  datatype IntOrNaN = Int(value: int) | NaN

  /** The longest prefix of `s` made of decimal digits. */
  function DigitPrefix(s: string): (r: string)
    ensures |r| <= |s| && r == s[..|r|] && AllDigits(r)
    ensures |r| < |s| ==> !IsDigit(s[|r|])
  {
    if s != [] && IsDigit(s[0]) then [s[0]] + DigitPrefix(s[1..]) else []
  }

  /** The value of the digit prefix of `body`; NaN when `body` does not start with a digit. */
  function ParseDigits(body: string): IntOrNaN {
    var digits := DigitPrefix(body);
    if digits == [] then NaN else Int(DigitsValue(digits))
  }

  /** Unary minus on a parse result: NaN stays NaN. */
  function Negate(x: IntOrNaN): IntOrNaN {
    match x
    case NaN => NaN
    case Int(v) => Int(-v)
  }

  /** The optional sign, then the digits. */
  function ParseSigned(t: string): IntOrNaN {
    if t != [] && t[0] == '-' then Negate(ParseDigits(t[1..]))
    else if t != [] && t[0] == '+' then ParseDigits(t[1..])
    else ParseDigits(t)
  }

  /**
   * `parseInt(s, 10)`: skip leading white space, take an optional sign, then as many
   * decimal digits as follow; NaN when no digit follows.
   */
  function ParseInt(s: string): IntOrNaN {
    ParseSigned(TrimStart(s))
  }

  /** `trimStart` keeps a string that starts with a character other than white space. */
  lemma TrimStartKeeps(s: string)
    requires s != [] && !IsSpace(s[0])
    ensures TrimStart(s) == s
  {
  }

  lemma {:induction false} DigitPrefixOfDigits(d: string, rest: string)
    requires AllDigits(d)
    requires rest == [] || !IsDigit(rest[0])
    ensures DigitPrefix(d + rest) == d
  {
    if d != [] {
      DigitPrefixOfDigits(d[1..], rest);
      assert (d + rest)[1..] == d[1..] + rest;
    }
  }

  /** Digits followed by a non-digit: the digit prefix is exactly the digits. */
  lemma ParseDigitsOf(d: string, rest: string)
    requires d != [] && AllDigits(d)
    requires rest == [] || !IsDigit(rest[0])
    ensures ParseDigits(d + rest) == Int(DigitsValue(d))
  {
    DigitPrefixOfDigits(d, rest);
  }

  /** Text starting with a digit has neither white space nor a sign to skip. */
  lemma ParseIntUnsignedText(t: string)
    requires t != [] && IsDigit(t[0])
    ensures ParseInt(t) == ParseDigits(t)
  {
    TrimStartKeeps(t);
  }

  /** A minus sign followed by `u` parses to the negated value of `u`'s digits. */
  lemma ParseIntNegativeText(u: string)
    ensures ParseInt("-" + u) == Negate(ParseDigits(u))
  {
    TrimStartKeeps("-" + u);
    assert ("-" + u)[1..] == u;
  }

  /** Unsigned digits followed by a non-digit parse to their value. */
  lemma ParseIntUnsigned(d: string, rest: string)
    requires d != [] && AllDigits(d)
    requires rest == [] || !IsDigit(rest[0])
    ensures ParseInt(d + rest) == Int(DigitsValue(d))
  {
    assert (d + rest)[0] == d[0];
    ParseIntUnsignedText(d + rest);
    ParseDigitsOf(d, rest);
  }

  /** A minus sign, then digits followed by a non-digit, parse to the negated value. */
  lemma ParseIntNegative(d: string, rest: string)
    requires d != [] && AllDigits(d)
    requires rest == [] || !IsDigit(rest[0])
    ensures ParseInt("-" + (d + rest)) == Int(-(DigitsValue(d) as int))
  {
    ParseIntNegativeText(d + rest);
    ParseDigitsOf(d, rest);
  }

  /** A negative integer's text, followed by a non-digit, parses back to the integer. */
  lemma ParseIntReadsNegative(n: int, rest: string)
    requires n < 0
    requires rest == [] || !IsDigit(rest[0])
    ensures ParseInt(IntToString(n) + rest) == Int(n)
  {
    var x := NatToString(-n);
    assert ParseInt("-" + (x + rest)) == Int(n) by {
      ParseIntNegative(x, rest);
      NatToStringValue(-n);
    }
    NegativeText(n, rest);
  }

  lemma NegativeText(n: int, rest: string)
    requires n < 0
    ensures IntToString(n) + rest == "-" + (NatToString(-n) + rest)
  {
    ConcatAssoc("-", NatToString(-n), rest);
  }

  /**
   * `parseInt` reads back what `toString` wrote, and stops at the first character that
   * is not a digit: `parseInt("12abc", 10)` is 12.
   */
  lemma ParseIntReadsDigitPrefix(n: int, rest: string)
    requires rest == [] || !IsDigit(rest[0])
    ensures ParseInt(IntToString(n) + rest) == Int(n)
  {
    if n < 0 {
      ParseIntReadsNegative(n, rest);
    } else {
      NatToStringValue(n);
      ParseIntUnsigned(NatToString(n), rest);
    }
  }

  lemma ConcatAssoc(a: string, b: string, c: string)
    ensures a + b + c == a + (b + c)
  {
  }

  /** `parseInt(n.toString(), 10) === n` for every integer `n`. */
  lemma ParseIntToString(n: int)
    ensures ParseInt(IntToString(n)) == Int(n)
  {
    ParseIntReadsDigitPrefix(n, "");
    assert IntToString(n) + "" == IntToString(n);
  }

  /** Text with no digit at all parses to NaN (`parseInt("abc", 10)`). */
  lemma ParseIntNoDigits(s: string)
    requires forall i | 0 <= i < |s| :: !IsDigit(s[i])
    ensures ParseInt(s) == NaN
  {
    var t := TrimStart(s);
    var body := if t != [] && (t[0] == '-' || t[0] == '+') then t[1..] else t;
    if body != [] {
      assert body[0] == s[|s| - |body|];
    }
  }
}
