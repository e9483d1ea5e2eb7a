/**
 * The PHP string primitives the application relies on: `trim`, `ltrim`,
 * `ctype_digit`, the `(int)` cast, string truthiness, and the decimal
 * rendering of an integer (`(string) $int`).
 */
module Text {

  /** The characters PHP's `trim()` strips by default: " \t\n\r\0\x0B". */
  predicate IsTrimSpace(c: char) {
    c == ' ' || c == '\t' || c == '\n' || c == '\r' || c == '\0' || c == '\U{000B}'
  }

  /** Leading part of `trim`: drops trim-space characters from the front. */
  function TrimStart(s: string): (r: string)
    ensures |r| <= |s| && r == s[|s| - |r|..]
    ensures forall i :: 0 <= i < |s| - |r| ==> IsTrimSpace(s[i])
    ensures r == [] || !IsTrimSpace(r[0])
  {
    if |s| > 0 && IsTrimSpace(s[0]) then TrimStart(s[1..]) else s
  }

  /** Trailing part of `trim`: drops trim-space characters from the back. */
  function TrimEnd(s: string): (r: string)
    ensures |r| <= |s| && r == s[..|r|]
    ensures forall i :: |r| <= i < |s| ==> IsTrimSpace(s[i])
    ensures r == [] || !IsTrimSpace(r[|r| - 1])
  {
    if |s| > 0 && IsTrimSpace(s[|s| - 1]) then TrimEnd(s[..|s| - 1]) else s
  }

  /** PHP `trim($s)`. */
  function Trim(s: string): (r: string)
    ensures |r| <= |s|
    ensures r == [] || (!IsTrimSpace(r[0]) && !IsTrimSpace(r[|r| - 1]))
  {
    TrimEnd(TrimStart(s))
  }

  /** A string with no trim-space at either end is its own trim. */
  lemma TrimOfTrimmed(s: string)
    requires s == [] || (!IsTrimSpace(s[0]) && !IsTrimSpace(s[|s| - 1]))
    ensures Trim(s) == s
  {
    assert TrimStart(s) == s;
  }

  /** Trimming twice is trimming once. */
  lemma TrimIdempotent(s: string)
    ensures Trim(Trim(s)) == Trim(s)
  {
    TrimOfTrimmed(Trim(s));
  }

  /** Padding a string that has no trim-space at its ends, and trimming, gives it back. */
  lemma {:induction false} TrimPadded(pre: string, core: string, post: string)
    requires forall i :: 0 <= i < |pre| ==> IsTrimSpace(pre[i])
    requires forall i :: 0 <= i < |post| ==> IsTrimSpace(post[i])
    requires core == [] || (!IsTrimSpace(core[0]) && !IsTrimSpace(core[|core| - 1]))
    ensures Trim(pre + core + post) == core
  {
    var tail := core + post;
    assert pre + core + post == pre + tail;
    if core == [] {
      assert tail == post;
      TrimStartConcatSpaces(pre, post);
    } else {
      assert tail[0] == core[0];
      TrimStartPadded(pre, tail);
      TrimEndPadded(core, post);
    }
  }

  lemma {:induction false} TrimStartConcatSpaces(a: string, b: string)
    requires forall i :: 0 <= i < |a| ==> IsTrimSpace(a[i])
    requires forall i :: 0 <= i < |b| ==> IsTrimSpace(b[i])
    ensures TrimStart(a + b) == []
  {
    var w := a + b;
    assert forall i :: 0 <= i < |w| ==> IsTrimSpace(w[i]);
    AllSpacesTrimToEmpty(w);
  }

  lemma {:induction false} AllSpacesTrimToEmpty(w: string)
    requires forall i :: 0 <= i < |w| ==> IsTrimSpace(w[i])
    ensures TrimStart(w) == []
  {
    if w != [] {
      AllSpacesTrimToEmpty(w[1..]);
    }
  }

  lemma {:induction false} TrimStartPadded(pre: string, rest: string)
    requires forall i :: 0 <= i < |pre| ==> IsTrimSpace(pre[i])
    requires rest == [] || !IsTrimSpace(rest[0])
    ensures TrimStart(pre + rest) == rest
  {
    if pre != [] {
      assert (pre + rest)[1..] == pre[1..] + rest;
      TrimStartPadded(pre[1..], rest);
    }
  }

  lemma {:induction false} TrimEndPadded(core: string, post: string)
    requires forall i :: 0 <= i < |post| ==> IsTrimSpace(post[i])
    requires core == [] || !IsTrimSpace(core[|core| - 1])
    ensures TrimEnd(core + post) == core
  {
    if post != [] {
      assert (core + post)[..|core + post| - 1] == core + post[..|post| - 1];
      TrimEndPadded(core, post[..|post| - 1]);
    } else {
      assert core + post == core;
    }
  }

  /** PHP `ltrim($s, $c)` for a single character `c`. */
  function LtrimChar(s: string, c: char): (r: string)
    ensures |r| <= |s| && r == s[|s| - |r|..]
    ensures forall i :: 0 <= i < |s| - |r| ==> s[i] == c
    ensures r == [] || r[0] != c
  {
    if |s| > 0 && s[0] == c then LtrimChar(s[1..], c) else s
  }

  /** PHP string truthiness: only "" and "0" are falsy. */
  predicate Truthy(s: string) {
    s != "" && s != "0"
  }

  predicate IsDigit(c: char) {
    '0' <= c <= '9'
  }

  predicate AllDigits(s: string) {
    forall i :: 0 <= i < |s| ==> IsDigit(s[i])
  }

  /** PHP `ctype_digit($s)` on a string: non-empty and only ASCII digits. */
  predicate CtypeDigit(s: string) {
    |s| > 0 && AllDigits(s)
  }

  function DigitValue(c: char): nat
    requires IsDigit(c)
  {
    c as int - '0' as int
  }

  /** The value of a string of decimal digits, most significant first. */
  function DigitsValue(s: string): nat
    requires AllDigits(s)
  {
    if s == [] then 0 else DigitsValue(s[..|s| - 1]) * 10 + DigitValue(s[|s| - 1])
  }

  function DigitChar(d: nat): (c: char)
    requires d < 10
    ensures IsDigit(c) && DigitValue(c) == d
  {
    ('0' as int + d) as char
  }

  /** `(string) $n` for a non-negative integer: its decimal digits, no leading zero. */
  function DecimalString(n: nat): (r: string)
    ensures CtypeDigit(r)
    ensures DigitsValue(r) == n
    ensures r[0] == '0' ==> r == "0"
  {
    if n < 10 then [DigitChar(n)]
    else
      var r := DecimalString(n / 10) + [DigitChar(n % 10)];
      assert r[..|r| - 1] == DecimalString(n / 10);
      r
  }

  /** `(string) $n` for any integer. */
  function IntString(n: int): string {
    if n < 0 then "-" + DecimalString(-n) else DecimalString(n)
  }

  /** The whitespace PHP skips in front of a numeric string: " \t\n\r\v\f". */
  predicate IsNumericSpace(c: char) {
    c == ' ' || c == '\t' || c == '\n' || c == '\r' || c == '\U{000B}' || c == '\U{000C}'
  }

  function SkipNumericSpace(s: string): (r: string)
    ensures |r| <= |s| && r == s[|s| - |r|..]
    ensures r == [] || !IsNumericSpace(r[0])
  {
    if |s| > 0 && IsNumericSpace(s[0]) then SkipNumericSpace(s[1..]) else s
  }

  /** The longest prefix of `s` made of digits. */
  function DigitPrefix(s: string): (r: string)
    ensures |r| <= |s| && r == s[..|r|]
    ensures AllDigits(r)
    ensures |r| == |s| || !IsDigit(s[|r|])
  {
    if |s| > 0 && IsDigit(s[0]) then [s[0]] + DigitPrefix(s[1..]) else []
  }

  /**
   * PHP `(int) $s`: optional leading whitespace, an optional sign, then the
   * longest run of digits; a string with no such digits casts to 0.
   */
  function IntCast(s: string): int {
    var t := SkipNumericSpace(s);
    if |t| > 0 && t[0] == '-' then -(DigitsValue(DigitPrefix(t[1..])) as int)
    else if |t| > 0 && t[0] == '+' then DigitsValue(DigitPrefix(t[1..]))
    else DigitsValue(DigitPrefix(t))
  }

  /** On a `ctype_digit` string the cast reads every digit, so the result is never negative. */
  lemma CastOfDigits(s: string)
    requires CtypeDigit(s)
    ensures IntCast(s) == DigitsValue(s) >= 0
  {
    assert !IsNumericSpace(s[0]);
    assert SkipNumericSpace(s) == s;
    assert DigitPrefix(s) == s;
  }

  /** Casting the decimal rendering of an integer gives the integer back. */
  lemma CastOfIntString(n: int)
    ensures IntCast(IntString(n)) == n
  {
    if n < 0 {
      var d := DecimalString(-n);
      var s := "-" + d;
      assert SkipNumericSpace(s) == s;
      assert s[1..] == d;
      assert DigitPrefix(d) == d;
    } else {
      CastOfDigits(DecimalString(n));
    }
  }
}
