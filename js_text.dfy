/**
 * The two JavaScript string builtins the form relies on:
 * `String.prototype.trim` and `parseInt(s, 10)`.
 * Whitespace is the ASCII set (space, tab, line feed, vertical tab,
 * form feed, carriage return); `parseInt` yields `None` where JavaScript
 * yields NaN.
 */
module JsText {
  import opened Wrappers

  predicate IsWhitespace(c: char) {
    c == ' ' || '\t' <= c <= '\r'
  }

  predicate IsDigit(c: char) {
    '0' <= c <= '9'
  }

  predicate AllWhitespace(s: string) {
    forall i :: 0 <= i < |s| ==> IsWhitespace(s[i])
  }

  predicate AllDigits(s: string) {
    forall i :: 0 <= i < |s| ==> IsDigit(s[i])
  }

  /** A string with no whitespace at either end. */
  predicate IsTrimmed(s: string) {
    s == [] || (!IsWhitespace(s[0]) && !IsWhitespace(s[|s| - 1]))
  }

  // ---------------------------------------------------------------------
  // String.prototype.trim
  // ---------------------------------------------------------------------

  /** How many whitespace characters `s` starts with. */
  function LeadingWhitespace(s: string): (n: nat)
    ensures n <= |s|
    ensures forall i :: 0 <= i < n ==> IsWhitespace(s[i])
    ensures n == |s| || !IsWhitespace(s[n])
  {
    if s != [] && IsWhitespace(s[0]) then 1 + LeadingWhitespace(s[1..]) else 0
  }

  /** How many whitespace characters `s` ends with. */
  function TrailingWhitespace(s: string): (n: nat)
    ensures n <= |s|
    ensures forall i :: |s| - n <= i < |s| ==> IsWhitespace(s[i])
    ensures n == |s| || !IsWhitespace(s[|s| - 1 - n])
  {
    if s != [] && IsWhitespace(s[|s| - 1]) then 1 + TrailingWhitespace(s[..|s| - 1]) else 0
  }

  function TrimStart(s: string): string {
    s[LeadingWhitespace(s)..]
  }

  function TrimEnd(s: string): string {
    s[..|s| - TrailingWhitespace(s)]
  }

  /** `s.trim()`: the leading whitespace removed, then the trailing whitespace. */
  function Trim(s: string): string {
    TrimEnd(TrimStart(s))
  }

  /**
   * What `trim` returns: a contiguous piece of `s` with no whitespace at
   * either end, all of whose surroundings in `s` are whitespace.
   */
  lemma TrimIsInnerPart(s: string)
    ensures exists i, j :: 0 <= i <= j <= |s| && Trim(s) == s[i..j]
              && AllWhitespace(s[..i]) && AllWhitespace(s[j..])
    ensures IsTrimmed(Trim(s))
  {
    var i := LeadingWhitespace(s);
    var t := s[i..];
    var m := TrailingWhitespace(t);
    var j := |s| - m;
    assert Trim(s) == s[i..j];
    assert AllWhitespace(s[..i]);
    assert AllWhitespace(s[j..]) by {
      forall k | 0 <= k < |s| - j ensures IsWhitespace(s[j..][k]) {
        assert s[j..][k] == t[|t| - m + k];
      }
    }
    var r := Trim(s);
    if r != [] {
      assert r[0] == s[i];
      assert r[|r| - 1] == t[|t| - 1 - m];
    }
  }

  /** `trim` gives the empty string exactly when the whole input is whitespace. */
  lemma TrimEmptyIff(s: string)
    ensures Trim(s) == [] <==> AllWhitespace(s)
  {
    var i := LeadingWhitespace(s);
    var t := s[i..];
    if Trim(s) == [] {
      assert TrailingWhitespace(t) == |t|;
    }
  }

  /** Trimming a string that has no whitespace at either end changes nothing. */
  lemma TrimOfTrimmed(s: string)
    requires IsTrimmed(s)
    ensures Trim(s) == s
  {
    if s != [] {
      assert LeadingWhitespace(s) == 0;
      assert TrailingWhitespace(s) == 0;
    }
  }

  // ---------------------------------------------------------------------
  // parseInt(s, 10)
  // ---------------------------------------------------------------------

  function DigitValue(c: char): (d: nat)
    requires IsDigit(c)
    ensures d < 10
  {
    (c as int) - ('0' as int)
  }

  function DigitChar(d: nat): (c: char)
    requires d < 10
    ensures IsDigit(c) && DigitValue(c) == d
  {
    (('0' as int) + d) as char
  }

  /** The number of decimal digits `s` starts with: the longest run of them. */
  function DigitRun(s: string): (n: nat)
    ensures n <= |s|
    ensures forall i :: 0 <= i < n ==> IsDigit(s[i])
    ensures n == |s| || !IsDigit(s[n])
  {
    if s != [] && IsDigit(s[0]) then 1 + DigitRun(s[1..]) else 0
  }

  /** The value of a string of decimal digits, most significant first. */
  function DigitsValue(ds: string): nat
    requires AllDigits(ds)
  {
    if ds == [] then 0
    else DigitsValue(ds[..|ds| - 1]) * 10 + DigitValue(ds[|ds| - 1])
  }

  /**
   * `parseInt(s, 10)`: skip leading whitespace, accept one optional sign,
   * take the longest run of decimal digits; no digits at all gives `None`
   * (JavaScript's NaN). Whatever follows the digits is ignored.
   */
  function ParseInt(s: string): Option<int>
  {
    ParseSigned(TrimStart(s))
  }

  /** The part of `parseInt` after the whitespace: an optional sign, then the digits. */
  function ParseSigned(t: string): Option<int>
  {
    if t != [] && t[0] == '-' then
      match ParseDigits(t[1..])
      case None => None
      case Some(v) => Some(-v)
    else if t != [] && t[0] == '+' then ParseDigits(t[1..])
    else ParseDigits(t)
  }

  /** The value of the leading run of digits; `None` when there is none. */
  function ParseDigits(b: string): Option<int>
  {
    var n := DigitRun(b);
    if n == 0 then None else Some(DigitsValue(b[..n]))
  }

  // ---------------------------------------------------------------------
  // The decimal rendering of a number, the partner of ParseInt
  // ---------------------------------------------------------------------

  /** The decimal numeral of `n`, without leading zeros. */
  function Decimal(n: nat): (s: string)
    ensures s != [] && AllDigits(s)
    ensures n > 0 ==> s[0] != '0'
  {
    if n < 10 then [DigitChar(n)]
    else Decimal(n / 10) + [DigitChar(n % 10)]
  }

  lemma {:induction false} DigitsValueOfDecimal(n: nat)
    ensures DigitsValue(Decimal(n)) == n
  {
    var s := Decimal(n);
    if n >= 10 {
      DigitsValueOfDecimal(n / 10);
      assert s[..|s| - 1] == Decimal(n / 10);
    }
  }

  /**
   * `parseInt` of leading whitespace, one optional sign and a body that
   * starts with the digits of `v`: the signed `v`.
   */
  lemma ParseIntOfBody(pad: string, sign: string, body: string, v: int)
    requires AllWhitespace(pad)
    requires sign == [] || sign == ['+'] || sign == ['-']
    requires body != [] && IsDigit(body[0])
    requires ParseDigits(body) == Some(v)
    ensures ParseInt(pad + (sign + body)) == Some(if sign == ['-'] then -v else v)
  {
    ParseIntSkipsPadding(pad, sign + body);
    ParseSignedOfBody(sign, body, v);
  }

  lemma ParseIntSkipsPadding(pad: string, t: string)
    requires AllWhitespace(pad)
    requires t == [] || !IsWhitespace(t[0])
    ensures ParseInt(pad + t) == ParseSigned(t)
  {
    LeadingWhitespaceOfPadded(pad, t);
    assert (pad + t)[|pad|..] == t;
  }

  lemma ParseSignedOfBody(sign: string, body: string, v: int)
    requires sign == [] || sign == ['+'] || sign == ['-']
    requires body != [] && IsDigit(body[0])
    requires ParseDigits(body) == Some(v)
    ensures ParseSigned(sign + body) == Some(if sign == ['-'] then -v else v)
  {
    var t := sign + body;
    if sign == [] {
      assert t == body;
    } else {
      assert t[0] == sign[0] && t[1..] == body;
    }
  }

  lemma ParseDigitsOfPrefix(digits: string, rest: string)
    requires digits != [] && AllDigits(digits)
    requires rest == [] || !IsDigit(rest[0])
    ensures ParseDigits(digits + rest) == Some(DigitsValue(digits))
  {
    DigitRunOfPrefix(digits, rest);
    assert (digits + rest)[..|digits|] == digits;
  }

  /**
   * The round trip: `parseInt` reads back the number a numeral denotes,
   * after any leading whitespace and one optional sign, whatever non-digit
   * text follows (so `"12abc"` gives 12 and `"-1"` gives -1).
   */
  lemma ParseIntOfNumeral(pad: string, sign: string, n: nat, rest: string)
    requires AllWhitespace(pad)
    requires sign == [] || sign == ['+'] || sign == ['-']
    requires rest == [] || !IsDigit(rest[0])
    ensures ParseInt(pad + (sign + (Decimal(n) + rest))) == Some(if sign == ['-'] then -(n as int) else n)
  {
    var digits := Decimal(n);
    ParseDigitsOfPrefix(digits, rest);
    DigitsValueOfDecimal(n);
    assert (digits + rest)[0] == digits[0];
    ParseIntOfBody(pad, sign, digits + rest, n);
  }

  lemma {:induction false} LeadingWhitespaceOfPadded(pad: string, t: string)
    requires AllWhitespace(pad)
    requires t == [] || !IsWhitespace(t[0])
    ensures LeadingWhitespace(pad + t) == |pad|
  {
    if pad != [] {
      assert (pad + t)[1..] == pad[1..] + t;
      LeadingWhitespaceOfPadded(pad[1..], t);
    } else {
      assert pad + t == t;
    }
  }

  lemma {:induction false} DigitRunOfPrefix(d: string, rest: string)
    requires AllDigits(d)
    requires rest == [] || !IsDigit(rest[0])
    ensures DigitRun(d + rest) == |d|
  {
    if d != [] {
      assert (d + rest)[1..] == d[1..] + rest;
      DigitRunOfPrefix(d[1..], rest);
    } else {
      assert d + rest == rest;
    }
  }

  /**
   * The converse of ParseIntOfBody: when no digit follows the leading
   * whitespace and the one optional sign, `parseInt` gives NaN
   * (`"abc1"`, `"+-1"`, `"- 5"`, `"  x9"`).
   */
  lemma ParseIntNaN(pad: string, sign: string, body: string)
    requires AllWhitespace(pad)
    requires sign == [] || sign == ['+'] || sign == ['-']
    requires body == [] || !IsDigit(body[0])
    requires sign == [] ==> body == [] || (body[0] != '+' && body[0] != '-' && !IsWhitespace(body[0]))
    ensures ParseInt(pad + (sign + body)) == None
  {
    var t := sign + body;
    ParseIntSkipsPadding(pad, t);
    if sign == [] {
      assert t == body;
    } else {
      assert t[0] == sign[0] && t[1..] == body;
    }
  }

  /** A string with no decimal digit in it is NaN to `parseInt` (`"abc"`, `"   "`, `""`). */
  lemma ParseIntNoDigits(s: string)
    requires forall i :: 0 <= i < |s| ==> !IsDigit(s[i])
    ensures ParseInt(s) == None
  {
    var k := LeadingWhitespace(s);
    var t := s[k..];
    if t != [] {
      assert t[0] == s[k];
      var b := t[1..];
      assert b != [] ==> b[0] == s[k + 1];
    }
  }
}
