/**
 * The two regular expressions of the booking form's validity gate, each given twice:
 * once as the literal meaning of the unanchored `RegExp.prototype.test` (some substring
 * matches the whole pattern), and once as the check the form actually needs, proved equal.
 */
module Patterns {
  import opened Strings

  /** The class `[\d\s-]`. */
  predicate IsPhoneChar(c: char) {
    IsDigit(c) || IsWhitespace(c) || c == '-'
  }

  /** Every character of `s[lo..hi]` is in `[\d\s-]`. */
  predicate PhoneCharsBetween(s: string, lo: int, hi: int)
    requires 0 <= lo <= hi <= |s|
  {
    forall k | lo <= k < hi :: IsPhoneChar(s[k])
  }

  /** `s[a..b]` is matched in full by `\+?\d[\d\s-]{6,}`; `d` is where `\d` matched. */
  ghost predicate PhoneMatchesAt(s: string, a: int, d: int, b: int) {
    0 <= a <= d < b <= |s|
    && (d == a || (d == a + 1 && s[a] == '+')) && IsDigit(s[d])
    && b - (d + 1) >= 6 && PhoneCharsBetween(s, d + 1, b)
  }

  /** `/\+?\d[\d\s-]{6,}/.test(s)`: some substring of `s` matches the pattern. */
  ghost predicate PhoneRegexTest(s: string) {
    exists a, d, b :: PhoneMatchesAt(s, a, d, b)
  }

  /** A digit at `i` followed by six characters of `[\d\s-]`. */
  predicate PhoneRunAt(s: string, i: int) {
    0 <= i && i + 7 <= |s| && IsDigit(s[i]) && PhoneCharsBetween(s, i + 1, i + 7)
  }

  /** The phone check: a digit followed by at least six digits, whitespace characters or dashes. */
  predicate PhoneOk(s: string)
    ensures PhoneOk(s) ==> |s| >= 7
  {
    exists i | 0 <= i < |s| :: PhoneRunAt(s, i)
  }

  /** The phone check accepts exactly the strings the unanchored regular expression matches. */
  lemma PhoneOkIsRegexTest(s: string)
    ensures PhoneOk(s) <==> PhoneRegexTest(s)
  {
    if PhoneOk(s) {
      var i :| 0 <= i < |s| && PhoneRunAt(s, i);
      assert PhoneMatchesAt(s, i, i, i + 7);
    }
    if PhoneRegexTest(s) {
      var a, d, b :| PhoneMatchesAt(s, a, d, b);
      assert PhoneRunAt(s, d);
    }
  }

  /** No character of `s[lo..hi]` is a line terminator: `.` matches each of them. */
  predicate OnOneLine(s: string, lo: int, hi: int)
    requires 0 <= lo <= hi <= |s|
  {
    forall k | lo <= k < hi :: !IsLineTerminator(s[k])
  }

  /** `s[a..b]` is matched in full by `.+@.+\..+`, with the `@` at `i` and the `\.` at `j`. */
  ghost predicate EmailMatchesAt(s: string, a: int, i: int, j: int, b: int) {
    0 <= a < i && i + 1 < j && j + 1 < b <= |s| && s[i] == '@' && s[j] == '.'
    && OnOneLine(s, a, i) && OnOneLine(s, i + 1, j) && OnOneLine(s, j + 1, b)
  }

  /** `/.+@.+\..+/.test(s)`: some substring of `s` matches the pattern. */
  ghost predicate EmailRegexTest(s: string) {
    exists a, i, j, b :: EmailMatchesAt(s, a, i, j, b)
  }

  /** An `@` at `i` preceded by a character, a dot at `j` with at least one character between
      them and one after it, none of them a line terminator. */
  predicate EmailShapeAt(s: string, i: int, j: int) {
    1 <= i && i + 2 <= j && j + 2 <= |s| && s[i] == '@' && s[j] == '.'
    && !IsLineTerminator(s[i - 1]) && !IsLineTerminator(s[j + 1]) && OnOneLine(s, i + 1, j)
  }

  /** The email check. */
  predicate EmailOk(s: string)
    ensures EmailOk(s) ==> |s| >= 5 && '@' in s && '.' in s
  {
    exists i, j | 0 <= i < j < |s| :: EmailShapeAt(s, i, j)
  }

  /** The email check accepts exactly the strings the unanchored regular expression matches. */
  lemma EmailOkIsRegexTest(s: string)
    ensures EmailOk(s) <==> EmailRegexTest(s)
  {
    if EmailOk(s) {
      var i, j :| 0 <= i < j < |s| && EmailShapeAt(s, i, j);
      assert EmailMatchesAt(s, i - 1, i, j, j + 2);
    }
    if EmailRegexTest(s) {
      var a, i, j, b :| EmailMatchesAt(s, a, i, j, b);
      assert EmailShapeAt(s, i, j);
    }
  }
}
