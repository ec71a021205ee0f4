/**
 * Character classes and string helpers with the meaning ECMAScript gives them:
 * the `\s`, `.` and `[\$\w]` classes of regular expressions, `String.prototype.trim`,
 * the decimal string of a number, and the reading of a string as an array index.
 */
module Text {
  import opened Wrappers

  /** ECMAScript line terminators: the characters `.` does not match. */
  predicate IsLineTerminator(c: char) {
    c == '\n' || c == '\r' || c == '\U{2028}' || c == '\U{2029}'
  }

  /** The `\s` class: white space and line terminators. */
  predicate IsWs(c: char) {
    c == ' ' || c == '\t' || c == '\U{000B}' || c == '\U{000C}' || c == '\U{00A0}' || c == '\U{1680}'
    || ('\U{2000}' <= c <= '\U{200A}') || c == '\U{202F}' || c == '\U{205F}' || c == '\U{3000}'
    || c == '\U{FEFF}' || IsLineTerminator(c)
  }

  /** The `.` class (no `s` flag): anything but a line terminator. */
  predicate IsDot(c: char) {
    !IsLineTerminator(c)
  }

  /** The `[\$\w]` class of identifier characters. */
  predicate IsWordChar(c: char) {
    ('a' <= c <= 'z') || ('A' <= c <= 'Z') || ('0' <= c <= '9') || c == '_' || c == '$'
  }

  predicate StartsWith(t: string, prefix: string) {
    |prefix| <= |t| && t[..|prefix|] == prefix
  }

  /** Substring test, as a regular expression without anchors performs it. */
  predicate Contains(s: string, sub: string)
    decreases |s|
  {
    StartsWith(s, sub) || (s != [] && Contains(s[1..], sub))
  }

  /** Length of the longest prefix of `t` made of white space. */
  function WsRun(t: string): (n: nat)
    ensures n <= |t|
    ensures forall i :: 0 <= i < n ==> IsWs(t[i])
    ensures n < |t| ==> !IsWs(t[n])
    decreases |t|
  {
    if t != [] && IsWs(t[0]) then 1 + WsRun(t[1..]) else 0
  }

  /** Length of the longest suffix of `t` made of white space. */
  function WsRunEnd(t: string): (n: nat)
    ensures n <= |t|
    ensures forall i :: |t| - n <= i < |t| ==> IsWs(t[i])
    ensures n < |t| ==> !IsWs(t[|t| - n - 1])
    decreases |t|
  {
    if t != [] && IsWs(t[|t| - 1]) then 1 + WsRunEnd(t[..|t| - 1]) else 0
  }

  /** Length of the longest prefix of `t` that `.` can match character by character. */
  function DotRun(t: string): (n: nat)
    ensures n <= |t|
    ensures forall i :: 0 <= i < n ==> IsDot(t[i])
    ensures n < |t| ==> !IsDot(t[n])
    decreases |t|
  {
    if t != [] && IsDot(t[0]) then 1 + DotRun(t[1..]) else 0
  }

  /** Length of the longest prefix of `t` made of identifier characters. */
  function IdRun(t: string): (n: nat)
    ensures n <= |t|
    ensures forall i :: 0 <= i < n ==> IsWordChar(t[i])
    ensures n < |t| ==> !IsWordChar(t[n])
    decreases |t|
  {
    if t != [] && IsWordChar(t[0]) then 1 + IdRun(t[1..]) else 0
  }

  /**
   * `String.prototype.trim` (and the polyfill `replace(/^\s+|\s+$/g, '')`):
   * the result is the part of `s` that starts after its leading white space,
   * it neither starts nor ends with white space, and only white space follows it.
   */
  function Trim(s: string): (r: string)
    ensures |r| <= |s| - WsRun(s)
    ensures r == s[WsRun(s)..WsRun(s) + |r|]
    ensures forall k :: WsRun(s) + |r| <= k < |s| ==> IsWs(s[k])
    ensures r == [] || (!IsWs(r[0]) && !IsWs(r[|r| - 1]))
  {
    var rest := s[WsRun(s)..];
    rest[..|rest| - WsRunEnd(rest)]
  }

  /** Neither starts nor ends with white space. */
  predicate Trimmed(t: string) {
    t == [] || (!IsWs(t[0]) && !IsWs(t[|t| - 1]))
  }

  /** Trimming gives a trimmed string, and a trimmed string is its own trim. */
  lemma TrimmedFixed(t: string)
    ensures Trimmed(Trim(t))
    ensures Trimmed(t) ==> Trim(t) == t
  {
    if Trimmed(t) {
      assert WsRun(t) == 0;
      assert t[0..] == t;
      assert WsRunEnd(t) == 0;
    }
  }

  lemma TrimIdempotent(s: string)
    ensures Trim(Trim(s)) == Trim(s)
  {
    TrimmedFixed(s);
    TrimmedFixed(Trim(s));
  }

  // ---- decimal strings -------------------------------------------------

  predicate IsDigit(c: char) {
    '0' <= c <= '9'
  }

  function DigitValue(c: char): nat
    requires IsDigit(c)
  {
    c as int - '0' as int
  }

  function DigitChar(d: nat): (c: char)
    requires d < 10
    ensures IsDigit(c) && DigitValue(c) == d
  {
    ('0' as int + d) as char
  }

  /** `String(n)` for a non-negative integer: digits, no leading zero. */
  function DecimalString(n: nat): (r: string)
    ensures r != []
    ensures forall i :: 0 <= i < |r| ==> IsDigit(r[i])
    ensures |r| > 1 ==> r[0] != '0'
    ensures n < 10 <==> |r| == 1
  {
    if n < 10 then [DigitChar(n)] else DecimalString(n / 10) + [DigitChar(n % 10)]
  }

  /** The number a string of decimal digits denotes. */
  function DigitsValue(s: string): nat
    requires forall i :: 0 <= i < |s| ==> IsDigit(s[i])
  {
    if s == [] then 0 else DigitsValue(s[..|s| - 1]) * 10 + DigitValue(s[|s| - 1])
  }

  /**
   * The array index a property key denotes: JavaScript reads `a[key]` as an
   * element only when `key` is the canonical decimal string of an index.
   */
  function ParseIndex(key: string): Option<nat> {
    if key != [] && (forall i :: 0 <= i < |key| ==> IsDigit(key[i])) && (|key| == 1 || key[0] != '0')
    then Some(DigitsValue(key))
    else None
  }

  lemma {:induction false} DigitsValueOfDecimal(n: nat)
    ensures DigitsValue(DecimalString(n)) == n
  {
    var r := DecimalString(n);
    if n >= 10 {
      DigitsValueOfDecimal(n / 10);
      assert r[..|r| - 1] == DecimalString(n / 10);
    }
  }

  /** Reading back the decimal string of an index gives the index. */
  lemma ParseDecimal(n: nat)
    ensures ParseIndex(DecimalString(n)) == Some(n)
  {
    DigitsValueOfDecimal(n);
  }

  lemma {:induction false} DigitsValuePositive(s: string)
    requires s != [] && s[0] != '0'
    requires forall i :: 0 <= i < |s| ==> IsDigit(s[i])
    ensures DigitsValue(s) > 0
    decreases |s|
  {
    if |s| > 1 {
      DigitsValuePositive(s[..|s| - 1]);
    }
  }

  /** Only canonical decimal strings are read as indices: the reading is one to one. */
  lemma {:induction false} DecimalOfParsed(s: string, n: nat)
    requires ParseIndex(s) == Some(n)
    ensures DecimalString(n) == s
    decreases |s|
  {
    if |s| > 1 {
      var init := s[..|s| - 1];
      DigitsValuePositive(init);
      assert ParseIndex(init) == Some(DigitsValue(init));
      DecimalOfParsed(init, DigitsValue(init));
      assert s == init + [s[|s| - 1]];
    }
  }
}
