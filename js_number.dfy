/**
 * The two JavaScript number conversions the service relies on: the global
 * `parseInt(string)` with no radix argument (used on every `:id` path segment)
 * and `String(n)` / template-literal interpolation of an integer (used by the
 * display labels). JavaScript's `NaN` is `None`.
 */
module JsNumber {
  import opened Wrappers

  /** StrWhiteSpaceChar of ECMA-262: a WhiteSpace (including every Zs space) or a LineTerminator code point. */
  predicate IsWhiteSpace(c: char) {
    var n := c as int;
    n == 0x09 || n == 0x0A || n == 0x0B || n == 0x0C || n == 0x0D || n == 0x20 ||
    n == 0xA0 || n == 0x1680 || (0x2000 <= n <= 0x200A) || n == 0x2028 || n == 0x2029 ||
    n == 0x202F || n == 0x205F || n == 0x3000 || n == 0xFEFF
  }

  /** A digit of the given radix; parseInt with no radix only ever uses 10 or 16. */
  predicate IsDigit(c: char, radix: nat) {
    ('0' <= c <= '9') || (radix == 16 && (('a' <= c <= 'f') || ('A' <= c <= 'F')))
  }

  predicate AllDigits(s: string, radix: nat) {
    forall i :: 0 <= i < |s| ==> IsDigit(s[i], radix)
  }

  function DigitValue(c: char): (d: nat)
    requires IsDigit(c, 16)
    ensures '0' <= c <= '9' ==> d == (c as int) - ('0' as int)
    ensures d < 16 && (IsDigit(c, 10) ==> d < 10)
  {
    if '0' <= c <= '9' then (c as int) - ('0' as int)
    else if 'a' <= c <= 'f' then (c as int) - ('a' as int) + 10
    else (c as int) - ('A' as int) + 10
  }

  /** The string with its leading white space removed (TrimString(s, start)). */
  function TrimStart(s: string): (r: string)
    ensures |r| <= |s| && r == s[|s| - |r|..]
    ensures forall i :: 0 <= i < |s| - |r| ==> IsWhiteSpace(s[i])
    ensures r == [] || !IsWhiteSpace(r[0])
  {
    if s != [] && IsWhiteSpace(s[0]) then TrimStart(s[1..]) else s
  }

  /** The length of the longest prefix of `s` made of digits of `radix`. */
  function DigitPrefixLength(s: string, radix: nat): (n: nat)
    ensures n <= |s| && AllDigits(s[..n], radix)
    ensures n == |s| || !IsDigit(s[n], radix)
  {
    if s != [] && IsDigit(s[0], radix) then 1 + DigitPrefixLength(s[1..], radix) else 0
  }

  /** The value of a digit string read in `radix`, most significant digit first. */
  function DigitsValue(d: string, radix: nat): nat
    requires radix == 10 || radix == 16
    requires AllDigits(d, radix)
  {
    if d == [] then 0 else DigitsValue(d[..|d| - 1], radix) * radix + DigitValue(d[|d| - 1])
  }

  predicate HasHexPrefix(u: string) {
    |u| >= 2 && u[0] == '0' && (u[1] == 'x' || u[1] == 'X')
  }

  /** The digits after the sign: radix 16 after a `0x`/`0X` prefix, else radix 10; no digit is `NaN`. */
  function ParseMagnitude(u: string): Option<nat> {
    var hex := HasHexPrefix(u);
    var radix := if hex then 16 else 10;
    var v := if hex then u[2..] else u;
    var n := DigitPrefixLength(v, radix);
    if n == 0 then None else Some(DigitsValue(v[..n], radix))
  }

  /** The sign, then the magnitude, of a string that starts after the white space. */
  function ParseSigned(t: string): Option<int> {
    if |t| > 0 && (t[0] == '-' || t[0] == '+') then
      match ParseMagnitude(t[1..])
      case None => None
      case Some(m) => Some(if t[0] == '-' then -(m as int) else m)
    else
      match ParseMagnitude(t)
      case None => None
      case Some(m) => Some(m)
  }

  /**
   * `parseInt(s)`: skip leading white space, take an optional sign, then read
   * the magnitude; any trailing text is ignored. `-0` is the same key as `0`
   * for a Map, so it is modelled as 0.
   */
  function ParseInt(s: string): Option<int> {
    ParseSigned(TrimStart(s))
  }

  function DigitChar(d: nat): (c: char)
    requires d < 10
    ensures IsDigit(c, 10) && DigitValue(c) == d
  {
    ((('0' as int) + d) as char)
  }

  /** `String(n)` for a non-negative integer: its shortest decimal numeral. */
  function DecimalString(n: nat): (r: string)
    ensures |r| >= 1 && AllDigits(r, 10)
    ensures DigitsValue(r, 10) == n
    ensures r[0] == '0' <==> n == 0
    ensures n == 0 ==> r == "0"
  {
    if n < 10 then [DigitChar(n)]
    else
      var prefix := DecimalString(n / 10);
      var r := prefix + [DigitChar(n % 10)];
      assert r[..|r| - 1] == prefix;
      r
  }

  /** `String(i)` for any integer: a minus sign before the numeral of a negative number. */
  function NumberToString(i: int): string {
    if i < 0 then "-" + DecimalString(-i) else DecimalString(i)
  }

  /** A digit string followed by a non-digit reads as exactly that digit string. */
  lemma DigitRun(d: string, rest: string)
    requires |d| >= 1 && AllDigits(d, 10)
    requires rest == [] || !IsDigit(rest[0], 10)
    ensures DigitPrefixLength(d + rest, 10) == |d|
    ensures (d + rest)[..|d|] == d
  {
  }

  /**
   * The numeral of any integer, followed by text that does not continue it,
   * parses back to that integer: `String(i)` and `parseInt` are inverse, and
   * a numeric prefix such as "7" in "7abc" or "1" in "1.5" is what parseInt
   * keeps. After a lone "0" the text must not start with `x`, which would make
   * a hexadecimal prefix ("0x1A" is 26).
   */
  lemma ParseIntNumberPrefix(i: int, rest: string)
    requires rest == [] || !IsDigit(rest[0], 10)
    requires i == 0 ==> rest == [] || (rest[0] != 'x' && rest[0] != 'X')
    ensures ParseInt(NumberToString(i) + rest) == Some(i)
  {
    var s := NumberToString(i) + rest;
    NumeralThenRest(i, rest);
    if i < 0 {
      NegativeNumeral(-i, rest, s);
    } else {
      NonNegativeNumeral(i, rest, s);
    }
  }

  /** Where the sign and the digits of `String(i)` sit in front of the rest. */
  lemma NumeralThenRest(i: int, rest: string)
    ensures i < 0 ==> NumberToString(i) + rest == "-" + (DecimalString(-i) + rest)
    ensures i >= 0 ==> NumberToString(i) + rest == DecimalString(i) + rest
  {
    if i < 0 {
      assert ("-" + DecimalString(-i)) + rest == "-" + (DecimalString(-i) + rest);
    }
  }

  lemma NegativeNumeral(m: nat, rest: string, s: string)
    requires m > 0 && (rest == [] || !IsDigit(rest[0], 10))
    requires s == "-" + (DecimalString(m) + rest)
    ensures ParseInt(s) == Some(-(m as int))
  {
    NumeralMagnitude(m, rest);
    assert s[0] == '-' && s[1..] == DecimalString(m) + rest;
    TrimStartKeeps(s);
  }

  lemma NonNegativeNumeral(m: nat, rest: string, s: string)
    requires rest == [] || !IsDigit(rest[0], 10)
    requires m == 0 ==> rest == [] || (rest[0] != 'x' && rest[0] != 'X')
    requires s == DecimalString(m) + rest
    ensures ParseInt(s) == Some(m)
  {
    var d := DecimalString(m);
    NumeralMagnitude(m, rest);
    assert s[0] == d[0] && IsDigit(d[0], 10);
    TrimStartKeeps(s);
  }

  lemma NumeralMagnitude(m: nat, rest: string)
    requires rest == [] || !IsDigit(rest[0], 10)
    requires m == 0 ==> rest == [] || (rest[0] != 'x' && rest[0] != 'X')
    ensures ParseMagnitude(DecimalString(m) + rest) == Some(m)
  {
    var d := DecimalString(m);
    assert (d + rest)[0] == d[0];
    assert |d| == 1 ==> |d + rest| < 2 || (d + rest)[1] == rest[0];
    MagnitudeOfDigitRun(d, rest);
  }

  /** A string that does not start with white space is its own trimmed form. */
  lemma TrimStartKeeps(s: string)
    requires s == [] || !IsWhiteSpace(s[0])
    ensures ParseInt(s) == ParseSigned(s)
  {
  }

  lemma MagnitudeOfDigitRun(d: string, rest: string)
    requires |d| >= 1 && AllDigits(d, 10)
    requires rest == [] || !IsDigit(rest[0], 10)
    requires !HasHexPrefix(d + rest)
    ensures ParseMagnitude(d + rest) == Some(DigitsValue(d, 10))
  {
    DigitRun(d, rest);
  }

  /** Leading white space never changes what parseInt reads. */
  lemma {:induction false} ParseIntSkipsWhiteSpace(ws: string, s: string)
    requires forall i :: 0 <= i < |ws| ==> IsWhiteSpace(ws[i])
    ensures ParseInt(ws + s) == ParseInt(s)
  {
    TrimStartSkipsWhiteSpace(ws, s);
  }

  lemma {:induction false} TrimStartSkipsWhiteSpace(ws: string, s: string)
    requires forall i :: 0 <= i < |ws| ==> IsWhiteSpace(ws[i])
    ensures TrimStart(ws + s) == TrimStart(s)
  {
    if ws != [] {
      assert (ws + s)[1..] == ws[1..] + s;
      TrimStartSkipsWhiteSpace(ws[1..], s);
    } else {
      assert ws + s == s;
    }
  }

  /** A segment without any decimal digit is `NaN`, so it can never name a record. */
  lemma NoDecimalDigitIsNaN(s: string)
    requires forall i :: 0 <= i < |s| ==> !('0' <= s[i] <= '9')
    ensures ParseInt(s) == None
  {
    var t := TrimStart(s);
    var u := if |t| > 0 && (t[0] == '-' || t[0] == '+') then t[1..] else t;
    if |u| > 0 {
      var k := |s| - |u|;
      assert u[0] == s[k];
      assert !HasHexPrefix(u);
    }
  }

  /**
   * Exactly when parseInt gives a number: after the white space and an
   * optional sign comes a decimal digit, and a `0x` prefix is followed by a
   * hexadecimal digit. Every other segment is `NaN`.
   */
  lemma ParseIntIsNumber(s: string)
    ensures var t := TrimStart(s);
      var u := if |t| > 0 && (t[0] == '-' || t[0] == '+') then t[1..] else t;
      ParseInt(s).Some? <==> |u| > 0 && IsDigit(u[0], 10) && (HasHexPrefix(u) ==> |u| > 2 && IsDigit(u[2], 16))
  {
    var t := TrimStart(s);
    var u := if |t| > 0 && (t[0] == '-' || t[0] == '+') then t[1..] else t;
    assert ParseInt(s).Some? <==> ParseMagnitude(u).Some?;
    if HasHexPrefix(u) {
      assert DigitPrefixLength(u[2..], 16) > 0 <==> |u| > 2 && IsDigit(u[2], 16);
    } else {
      assert DigitPrefixLength(u, 10) > 0 <==> |u| > 0 && IsDigit(u[0], 10);
    }
  }

  /** A path segment with a numeric prefix reads as that prefix. */
  lemma NumericPrefixExample()
    ensures ParseInt("7abc") == Some(7)
  {
    assert NumberToString(7) == "7" by { assert DigitChar(7) == '7'; }
    assert NumberToString(7) + "abc" == "7abc";
    ParseIntNumberPrefix(7, "abc");
  }

  /** A decimal fraction reads as its integer part. */
  lemma FractionExample()
    ensures ParseInt("1.5") == Some(1)
  {
    assert NumberToString(1) == "1" by { assert DigitChar(1) == '1'; }
    assert NumberToString(1) + ".5" == "1.5";
    ParseIntNumberPrefix(1, ".5");
  }

  /** A segment of letters is `NaN`. */
  lemma LettersExample()
    ensures ParseInt("abc") == None
  {
    var abc := "abc";
    forall i | 0 <= i < |abc| ensures !('0' <= abc[i] <= '9') {
      assert i == 0 || i == 1 || i == 2;
    }
    NoDecimalDigitIsNaN(abc);
  }
}
