/**
 * The JavaScript string primitives the registration form and the relay rely on:
 * `String.prototype.trim`, the `\s` class, ASCII lower-casing, `String(n)` for a
 * natural number and `Number(s)` for a decimal integer literal.
 */
module Strings {
  import opened Wrappers

  /** ECMAScript LineTerminator code points (what `.` in a regular expression refuses). */
  predicate IsLineTerminator(c: char) {
    c == '\n' || c == '\r' || c == '\U{2028}' || c == '\U{2029}'
  }

  /** ECMAScript WhiteSpace or LineTerminator: what `trim` strips and what `\s` matches. */
  predicate IsWhitespace(c: char) {
    IsLineTerminator(c) || c == '\t' || c == '\U{B}' || c == '\U{C}' || c == ' '
    || c == '\U{A0}' || c == '\U{FEFF}' || c == '\U{1680}'
    || ('\U{2000}' <= c <= '\U{200A}') || c == '\U{202F}' || c == '\U{205F}' || c == '\U{3000}'
  }

  predicate IsDigit(c: char) {
    '0' <= c <= '9'
  }

  predicate AllWhitespace(s: string) {
    forall k :: 0 <= k < |s| ==> IsWhitespace(s[k])
  }

  /** The leading-whitespace removal half of `trim`. */
  function TrimStart(s: string): (r: string)
    ensures |r| <= |s| && r == s[|s| - |r|..]
    ensures |r| > 0 ==> !IsWhitespace(r[0])
  {
    if |s| > 0 && IsWhitespace(s[0]) then
      var r := TrimStart(s[1..]);
      assert s[1..][|s| - 1 - |r|..] == s[|s| - |r|..];
      r
    else s
  }

  /** Everything leading-whitespace removal drops is whitespace. */
  lemma {:induction false} TrimStartStrips(s: string)
    ensures AllWhitespace(s[..|s| - |TrimStart(s)|])
  {
    if |s| > 0 && IsWhitespace(s[0]) {
      var r := TrimStart(s[1..]);
      TrimStartStrips(s[1..]);
      var lead := s[1..][..|s| - 1 - |r|];
      assert s[..|s| - |r|] == [s[0]] + lead;
      AllWhitespaceConcat([s[0]], lead);
    }
  }

  /** The trailing-whitespace removal half of `trim`. */
  function TrimEnd(s: string): (r: string)
    ensures |r| <= |s| && r == s[..|r|]
    ensures AllWhitespace(s[|r|..])
    ensures |r| > 0 ==> !IsWhitespace(r[|r| - 1])
  {
    if |s| > 0 && IsWhitespace(s[|s| - 1]) then
      var r := TrimEnd(s[..|s| - 1]);
      var trail := s[..|s| - 1][|r|..];
      assert s[..|s| - 1][..|r|] == s[..|r|];
      assert s[|r|..] == trail + [s[|s| - 1]];
      AllWhitespaceConcat(trail, [s[|s| - 1]]);
      r
    else s
  }

  /** Whitespace followed by whitespace is whitespace. */
  lemma AllWhitespaceConcat(a: string, b: string)
    requires AllWhitespace(a) && AllWhitespace(b)
    ensures AllWhitespace(a + b)
  {
    forall k | 0 <= k < |a + b|
      ensures IsWhitespace((a + b)[k])
    {
      if k < |a| {
        assert (a + b)[k] == a[k];
      } else {
        assert (a + b)[k] == b[k - |a|];
      }
    }
  }

  /** `String.prototype.trim`: the string with whitespace removed from both ends. */
  function Trim(s: string): (r: string)
    ensures |r| <= |s|
    ensures |r| > 0 ==> !IsWhitespace(r[0]) && !IsWhitespace(r[|r| - 1])
    ensures r == [] <==> AllWhitespace(s)
  {
    var t := TrimStart(s);
    var r := TrimEnd(t);
    TrimStartStrips(s);
    assert r == [] ==> s == s[..|s| - |t|] + t[|r|..];
    r
  }

  /** Trimming keeps exactly the core of a string padded with whitespace on both sides. */
  lemma {:induction false} TrimPadded(pre: string, core: string, post: string)
    requires AllWhitespace(pre) && AllWhitespace(post)
    requires |core| > 0 && !IsWhitespace(core[0]) && !IsWhitespace(core[|core| - 1])
    ensures Trim(pre + core + post) == core
  {
    var rest := core + post;
    assert pre + core + post == pre + rest;
    assert rest[0] == core[0];
    TrimStartPadded(pre, rest);
    TrimEndPadded(core, post);
    assert TrimStart(rest) == rest;
  }

  lemma {:induction false} TrimStartPadded(pre: string, rest: string)
    requires AllWhitespace(pre)
    requires |rest| > 0 && !IsWhitespace(rest[0])
    ensures TrimStart(pre + rest) == rest
  {
    if |pre| > 0 {
      assert (pre + rest)[1..] == pre[1..] + rest;
      TrimStartPadded(pre[1..], rest);
    }
  }

  lemma {:induction false} TrimEndPadded(rest: string, post: string)
    requires AllWhitespace(post)
    requires |rest| > 0 && !IsWhitespace(rest[|rest| - 1])
    ensures TrimEnd(rest + post) == rest
  {
    if |post| > 0 {
      assert (rest + post)[..|rest + post| - 1] == rest + post[..|post| - 1];
      TrimEndPadded(rest, post[..|post| - 1]);
    }
  }

  /** A string with no whitespace at either end is its own trim. */
  lemma TrimUnpadded(s: string)
    requires |s| > 0 && !IsWhitespace(s[0]) && !IsWhitespace(s[|s| - 1])
    ensures Trim(s) == s
  {
    TrimPadded([], s, []);
    assert [] + s + [] == s;
  }

  lemma {:induction false} TrimStartAppend(x: string, post: string)
    requires |x| > 0 && !IsWhitespace(x[|x| - 1])
    ensures TrimStart(x + post) == TrimStart(x) + post
  {
    if IsWhitespace(x[0]) {
      assert (x + post)[1..] == x[1..] + post;
      TrimStartAppend(x[1..], post);
    }
  }

  /** Leading-whitespace removal never goes past a non-whitespace character. */
  lemma {:induction false} TrimStartStopsAt(x: string, i: nat)
    requires i < |x| && !IsWhitespace(x[i])
    ensures |TrimStart(x)| >= |x| - i
  {
    if IsWhitespace(x[0]) {
      assert x[1..][i - 1] == x[i];
      TrimStartStopsAt(x[1..], i - 1);
    }
  }

  /** Trimming `x + pad`, where `x` ends in a non-whitespace character and `pad` is
      whitespace, removes `pad` and the leading whitespace of `x`. */
  lemma TrimDropsPad(x: string, pad: string)
    requires |x| > 0 && !IsWhitespace(x[|x| - 1])
    requires AllWhitespace(pad)
    ensures Trim(x + pad) == TrimStart(x)
  {
    TrimStartAppend(x, pad);
    var t := TrimStart(x);
    assert |t| > 0 by {
      TrimStartStopsAt(x, |x| - 1);
    }
    assert t[|t| - 1] == x[|x| - 1];
    TrimEndPadded(t, pad);
  }

  /** A suffix of `x` at least `n` long ends with the last `n` characters of `x`. */
  lemma SuffixEndsWith(x: string, t: string, n: nat)
    requires |t| <= |x| && t == x[|x| - |t|..] && n <= |t|
    ensures EndsWith(t, x[|x| - n..])
  {
    var a, b := t[|t| - n..], x[|x| - n..];
    forall k | 0 <= k < n
      ensures a[k] == b[k]
    {
      assert a[k] == t[|t| - n + k];
    }
  }

  /** Trimming `x + pad`, where `pad` is whitespace, keeps every character of `x` from the
      first non-whitespace one at or before position `|x| - n` to the end. */
  lemma TrimKeepsTail(x: string, pad: string, n: nat)
    requires 0 < n <= |x| && !IsWhitespace(x[|x| - n]) && !IsWhitespace(x[|x| - 1])
    requires AllWhitespace(pad)
    ensures EndsWith(Trim(x + pad), x[|x| - n..])
  {
    TrimDropsPad(x, pad);
    TrimStartStopsAt(x, |x| - n);
    SuffixEndsWith(x, TrimStart(x), n);
  }

  /** Lower-casing commutes with taking a suffix. */
  lemma ToLowerTail(s: string, n: nat)
    requires n <= |s|
    ensures ToLower(s)[|s| - n..] == ToLower(s[|s| - n..])
  {
  }

  /** `trim` is idempotent: a trimmed string has nothing left to strip. */
  lemma TrimIdempotent(s: string)
    ensures Trim(Trim(s)) == Trim(s)
  {
    var t := Trim(s);
    if |t| > 0 {
      TrimUnpadded(t);
    }
  }

  /** ASCII upper-case letters map to lower case; every other character is kept. */
  function LowerChar(c: char): char {
    if 'A' <= c <= 'Z' then (c as int - 'A' as int + 'a' as int) as char else c
  }

  /** `String.prototype.toLowerCase` restricted to the ASCII letters. */
  function ToLower(s: string): (r: string)
    ensures |r| == |s|
    ensures forall k :: 0 <= k < |s| ==> r[k] == LowerChar(s[k])
    ensures forall k :: 0 <= k < |r| ==> !('A' <= r[k] <= 'Z')
    ensures forall k :: 0 <= k < |s| && !('A' <= s[k] <= 'Z') ==> r[k] == s[k]
  {
    seq(|s|, k requires 0 <= k < |s| => LowerChar(s[k]))
  }

  /** `String.prototype.endsWith`. */
  predicate EndsWith(s: string, suffix: string) {
    |suffix| <= |s| && s[|s| - |suffix|..] == suffix
  }

  /** A string that ends with `suffix` is some prefix followed by `suffix`. */
  lemma EndsWithSplit(s: string, suffix: string)
    requires EndsWith(s, suffix)
    ensures s == s[..|s| - |suffix|] + suffix
  {
  }

  /** Any string followed by `suffix` ends with `suffix`. */
  lemma EndsWithAppend(p: string, suffix: string)
    ensures EndsWith(p + suffix, suffix)
  {
    assert (p + suffix)[|p|..] == suffix;
  }

  /** Lower-casing twice is lower-casing once. */
  lemma ToLowerIdempotent(s: string)
    ensures ToLower(ToLower(s)) == ToLower(s)
  {
    var once := ToLower(s);
    assert forall k :: 0 <= k < |s| ==> ToLower(once)[k] == once[k];
  }

  /** `s.length`: the number of UTF-16 code units, two for each character outside the Basic
      Multilingual Plane. */
  function Utf16Length(s: string): (n: nat)
    ensures |s| <= n <= 2 * |s|
    ensures (forall k :: 0 <= k < |s| ==> s[k] as int < 0x10000) ==> n == |s|
  {
    if s == [] then 0 else (if s[0] as int < 0x10000 then 1 else 2) + Utf16Length(s[1..])
  }

  /** A single character outside the Basic Multilingual Plane has length 2. */
  lemma Utf16LengthAstral(c: char)
    requires c as int >= 0x10000
    ensures Utf16Length([c]) == 2
  {
    assert [c][1..] == [];
  }

  function DigitChar(d: nat): (c: char)
    requires d < 10
    ensures IsDigit(c) && DigitValue(c) == d
  {
    ('0' as int + d) as char
  }

  function DigitValue(c: char): (d: nat)
    requires IsDigit(c)
    ensures d < 10
  {
    c as int - '0' as int
  }

  /** `String(n)` for a natural number: its shortest decimal representation. */
  function DecimalString(n: nat): (r: string)
    ensures |r| > 0 && forall k :: 0 <= k < |r| ==> IsDigit(r[k])
    ensures n < 10 ==> r == [DigitChar(n)]
  {
    if n < 10 then [DigitChar(n)] else DecimalString(n / 10) + [DigitChar(n % 10)]
  }

  predicate AllDigits(s: string) {
    forall k :: 0 <= k < |s| ==> IsDigit(s[k])
  }

  /** The value of a string of decimal digits, most significant first. */
  function DigitsValue(s: string): nat
    requires AllDigits(s)
  {
    if |s| == 0 then 0 else DigitsValue(s[..|s| - 1]) * 10 + DigitValue(s[|s| - 1])
  }

  /** `Number(s)` on decimal integer literals: surrounding whitespace ignored, the empty
      string is 0, an optional sign, then one or more digits; anything else is `NaN` (None). */
  function ParseNumber(s: string): (r: Option<int>)
    ensures AllWhitespace(s) ==> r == Some(0)
  {
    var t := Trim(s);
    if t == [] then Some(0)
    else if AllDigits(t) then Some(DigitsValue(t))
    else if (t[0] == '+' || t[0] == '-') && |t| > 1 && AllDigits(t[1..]) then
      var v: int := DigitsValue(t[1..]);
      Some(if t[0] == '-' then -v else v)
    else None
  }

  lemma {:induction false} DigitsValueOfDecimal(n: nat)
    ensures DigitsValue(DecimalString(n)) == n
  {
    if n >= 10 {
      var r := DecimalString(n);
      assert r[..|r| - 1] == DecimalString(n / 10);
      DigitsValueOfDecimal(n / 10);
    }
  }

  /** `Number(String(n)) == n`: the decimal string of a count reads back as that count. */
  lemma ParseDecimalString(n: nat)
    ensures ParseNumber(DecimalString(n)) == Some(n)
  {
    var r := DecimalString(n);
    TrimUnpadded(r);
    assert AllDigits(r);
    DigitsValueOfDecimal(n);
  }
}
