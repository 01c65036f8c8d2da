/**
 * `encodeURIComponent` as ECMAScript defines it: every character outside the unreserved
 * set is replaced by the percent-encoded bytes of its UTF-8 form (section 2.1 of RFC 3986,
 * upper-case hexadecimal). Dafny characters are Unicode scalar values, so the lone
 * surrogates for which the JavaScript function throws cannot occur here.
 *
 * Its partner is a decoder for percent-encoded UTF-8; encoding then decoding gives back the
 * original string, and an encoded string holds no character that has a meaning in a query.
 */
module UriComponent {
  import opened Wrappers

  /** Characters `encodeURIComponent` leaves alone: letters, digits and `-_.!~*'()`. */
  predicate IsUnreserved(c: char) {
    ('A' <= c <= 'Z') || ('a' <= c <= 'z') || ('0' <= c <= '9')
    || c == '-' || c == '_' || c == '.' || c == '!' || c == '~' || c == '*' || c == '\'' || c == '(' || c == ')'
  }

  predicate IsHexDigit(c: char) {
    ('0' <= c <= '9') || ('A' <= c <= 'F') || ('a' <= c <= 'f')
  }

  /** What may appear in an encoded component: unreserved characters, `%` and hex digits. */
  predicate IsEncodedChar(c: char) {
    IsUnreserved(c) || c == '%' || IsHexDigit(c)
  }

  function HexDigit(d: nat): (c: char)
    requires d < 16
    ensures IsHexDigit(c) && HexValue(c) == d
  {
    if d < 10 then ('0' as int + d) as char else ('A' as int + d - 10) as char
  }

  function HexValue(c: char): (d: nat)
    requires IsHexDigit(c)
    ensures d < 16
  {
    if '0' <= c <= '9' then c as int - '0' as int
    else if 'A' <= c <= 'F' then c as int - 'A' as int + 10
    else c as int - 'a' as int + 10
  }

  /** One byte as `%XY`. */
  function PercentByte(b: nat): (r: string)
    requires b < 256
  {
    ['%', HexDigit(b / 16), HexDigit(b % 16)]
  }

  predicate AreBytes(bs: seq<nat>) {
    forall k :: 0 <= k < |bs| ==> bs[k] < 256
  }

  /** A sequence of bytes, each percent-encoded. */
  function Escapes(bs: seq<nat>): (r: string)
    requires AreBytes(bs)
    ensures |r| == 3 * |bs|
    ensures forall k :: 0 <= k < |r| ==> IsEncodedChar(r[k])
  {
    if bs == [] then [] else PercentByte(bs[0]) + Escapes(bs[1..])
  }

  /** The UTF-8 encoding of a Unicode scalar value. */
  function Utf8(c: char): (bs: seq<nat>)
    ensures 1 <= |bs| <= 4 && AreBytes(bs)
  {
    var cp := c as int;
    var q1 := cp / 64;
    var q2 := q1 / 64;
    var q3 := q2 / 64;
    if cp < 0x80 then [cp]
    else if cp < 0x800 then [0xC0 + q1, 0x80 + cp % 64]
    else if cp < 0x10000 then [0xE0 + q2, 0x80 + q1 % 64, 0x80 + cp % 64]
    else [0xF0 + q3, 0x80 + q2 % 64, 0x80 + q1 % 64, 0x80 + cp % 64]
  }

  /** The encoding of one character. */
  function EncodeChar(c: char): (r: string)
    ensures 0 < |r| && forall k :: 0 <= k < |r| ==> IsEncodedChar(r[k])
  {
    if IsUnreserved(c) then [c] else Escapes(Utf8(c))
  }

  /** `encodeURIComponent(s)`. */
  function EncodeURIComponent(s: string): (r: string)
    ensures forall k :: 0 <= k < |r| ==> IsEncodedChar(r[k])
    ensures |s| <= |r|
  {
    if s == [] then [] else EncodeChar(s[0]) + EncodeURIComponent(s[1..])
  }

  /** The byte percent-encoded at escape position `m` of `s`, if there is one. */
  function ByteAt(s: string, m: nat): (r: Option<nat>)
    ensures r.Some? ==> 3 * m + 3 <= |s| && r.value < 256
  {
    if 3 * m + 3 <= |s| && s[3 * m] == '%' && IsHexDigit(s[3 * m + 1]) && IsHexDigit(s[3 * m + 2])
    then Some(16 * HexValue(s[3 * m + 1]) + HexValue(s[3 * m + 2]))
    else None
  }

  /** The length of the UTF-8 sequence a lead byte announces, or 0 for a byte that cannot lead. */
  function SequenceLength(b: nat): nat {
    if b < 0x80 then 1
    else if 0xC0 <= b < 0xE0 then 2
    else if 0xE0 <= b < 0xF0 then 3
    else if 0xF0 <= b < 0xF8 then 4
    else 0
  }

  /** The code-point bits of a lead byte. */
  function LeadBits(b: nat, n: nat): int {
    if n == 1 then b else if n == 2 then b - 0xC0 else if n == 3 then b - 0xE0 else b - 0xF0
  }

  /** The smallest code point an `n`-byte sequence may carry (shorter forms are refused). */
  function MinCodePoint(n: nat): nat {
    if n <= 1 then 0 else if n == 2 then 0x80 else if n == 3 then 0x800 else 0x10000
  }

  predicate IsScalar(cp: int) {
    (0 <= cp < 0xD800) || (0xE000 <= cp < 0x110000)
  }

  /** Folds the continuation bytes at escape positions `m .. n-1` into `acc`. */
  function Continue(s: string, m: nat, n: nat, acc: int): Option<int>
    decreases n - m
  {
    if m >= n then Some(acc)
    else match ByteAt(s, m)
      case Some(b) => if 0x80 <= b < 0xC0 then Continue(s, m + 1, n, acc * 64 + b - 0x80) else None
      case None => None
  }

  /** Decodes the first character of `s` and says how many characters it took. */
  function DecodeOne(s: string): (r: Option<(char, nat)>)
    requires |s| > 0
    ensures r.Some? ==> 0 < r.value.1 <= |s|
  {
    if s[0] != '%' then Some((s[0], 1))
    else match ByteAt(s, 0)
      case None => None
      case Some(b0) =>
        var n := SequenceLength(b0);
        if n == 0 || 3 * n > |s| then None
        else match Continue(s, 1, n, LeadBits(b0, n))
          case None => None
          case Some(cp) => if IsScalar(cp) && cp >= MinCodePoint(n) then Some((cp as char, 3 * n)) else None
  }

  /** Decodes a percent-encoded UTF-8 string; None when an escape is malformed. */
  function Decode(s: string): Option<string>
    decreases |s|
  {
    if s == [] then Some([])
    else match DecodeOne(s)
      case None => None
      case Some((c, n)) =>
        match Decode(s[n..])
        case None => None
        case Some(rest) => Some([c] + rest)
  }

  lemma {:induction false} EscapesAt(bs: seq<nat>, t: string, m: nat)
    requires AreBytes(bs) && m < |bs|
    ensures ByteAt(Escapes(bs) + t, m) == Some(bs[m])
  {
    var u := Escapes(bs[1..]) + t;
    assert Escapes(bs) + t == PercentByte(bs[0]) + u;
    if m == 0 {
      ByteAtPercent(bs[0], u);
    } else {
      EscapesAt(bs[1..], t, m - 1);
      ByteAtShift(PercentByte(bs[0]), u, m - 1);
    }
  }

  /** A percent-encoded byte at the front reads back as that byte. */
  lemma ByteAtPercent(b: nat, u: string)
    requires b < 256
    ensures ByteAt(PercentByte(b) + u, 0) == Some(b)
  {
    var s := PercentByte(b) + u;
    assert s[0] == '%' && s[1] == HexDigit(b / 16) && s[2] == HexDigit(b % 16);
  }

  /** Escape position `m + 1` behind a three-character prefix is escape position `m` of the rest. */
  lemma ByteAtShift(p: string, u: string, m: nat)
    requires |p| == 3
    ensures ByteAt(p + u, m + 1) == ByteAt(u, m)
  {
    var s := p + u;
    if 3 * m + 3 <= |u| {
      assert s[3 * m + 3] == u[3 * m] && s[3 * m + 4] == u[3 * m + 1] && s[3 * m + 5] == u[3 * m + 2];
    }
  }

  lemma ContinueStep(s: string, m: nat, n: nat, acc: int, b: nat)
    requires m < n && ByteAt(s, m) == Some(b) && 0x80 <= b < 0xC0
    ensures Continue(s, m, n, acc) == Continue(s, m + 1, n, acc * 64 + b - 0x80)
  {
  }

  /** Under escapes `bs` (the UTF-8 form of `c`), `s` decodes to `c` and takes `3 * |bs|` characters. */
  ghost predicate EscapedAs(s: string, c: char, bs: seq<nat>) {
    bs == Utf8(c) && 3 * |bs| <= |s| && s[0] == '%' && forall m :: 0 <= m < |bs| ==> ByteAt(s, m) == Some(bs[m])
  }

  lemma DecodeOneByte(s: string, c: char)
    requires c as int < 0x80 && EscapedAs(s, c, Utf8(c))
    ensures DecodeOne(s) == Some((c, 3))
  {
    assert ByteAt(s, 0) == Some(c as int);
  }

  lemma DecodeTwoBytes(s: string, c: char)
    requires 0x80 <= c as int < 0x800 && EscapedAs(s, c, Utf8(c))
    ensures DecodeOne(s) == Some((c, 6))
  {
    var cp := c as int;
    var q1 := cp / 64;
    var bs := Utf8(c);
    assert ByteAt(s, 0) == Some(bs[0]) && ByteAt(s, 1) == Some(bs[1]);
    assert SequenceLength(bs[0]) == 2;
    ContinueStep(s, 1, 2, q1, bs[1]);
    assert q1 * 64 + cp % 64 == cp;
  }

  lemma DecodeThreeBytes(s: string, c: char)
    requires 0x800 <= c as int < 0x10000 && EscapedAs(s, c, Utf8(c))
    ensures DecodeOne(s) == Some((c, 9))
  {
    var cp := c as int;
    var q1 := cp / 64;
    var q2 := q1 / 64;
    var bs := Utf8(c);
    assert ByteAt(s, 0) == Some(bs[0]) && ByteAt(s, 1) == Some(bs[1]) && ByteAt(s, 2) == Some(bs[2]);
    assert SequenceLength(bs[0]) == 3;
    ContinueStep(s, 1, 3, q2, bs[1]);
    ContinueStep(s, 2, 3, q1, bs[2]);
    assert q2 * 64 + q1 % 64 == q1;
    assert q1 * 64 + cp % 64 == cp;
  }

  lemma DecodeFourBytes(s: string, c: char)
    requires 0x10000 <= c as int && EscapedAs(s, c, Utf8(c))
    ensures DecodeOne(s) == Some((c, 12))
  {
    var cp := c as int;
    var q1 := cp / 64;
    var q2 := q1 / 64;
    var q3 := q2 / 64;
    var bs := Utf8(c);
    assert q1 < 0x4400 && q2 < 0x110 && q3 < 5;
    assert ByteAt(s, 0) == Some(bs[0]) && ByteAt(s, 1) == Some(bs[1]);
    assert ByteAt(s, 2) == Some(bs[2]) && ByteAt(s, 3) == Some(bs[3]);
    assert SequenceLength(bs[0]) == 4;
    ContinueStep(s, 1, 4, q3, bs[1]);
    ContinueStep(s, 2, 4, q2, bs[2]);
    ContinueStep(s, 3, 4, q1, bs[3]);
    assert q3 * 64 + q2 % 64 == q2;
    assert q2 * 64 + q1 % 64 == q1;
    assert q1 * 64 + cp % 64 == cp;
  }

  /** The decoder reads one encoded character back, whatever follows it. */
  lemma DecodeOneEncodeChar(c: char, t: string)
    ensures DecodeOne(EncodeChar(c) + t) == Some((c, |EncodeChar(c)|))
  {
    if !IsUnreserved(c) {
      var s := EncodeChar(c) + t;
      var bs := Utf8(c);
      forall m | 0 <= m < |bs| ensures ByteAt(s, m) == Some(bs[m]) {
        EscapesAt(bs, t, m);
      }
      assert s[0] == '%' by { EscapesAt(bs, t, 0); }
      assert EscapedAs(s, c, bs);
      if c as int < 0x80 {
        DecodeOneByte(s, c);
      } else if c as int < 0x800 {
        DecodeTwoBytes(s, c);
      } else if c as int < 0x10000 {
        DecodeThreeBytes(s, c);
      } else {
        DecodeFourBytes(s, c);
      }
    }
  }

  /** Decoding undoes `encodeURIComponent`: distinct keys never collide once encoded. */
  lemma {:induction false} DecodeEncode(s: string)
    ensures Decode(EncodeURIComponent(s)) == Some(s)
  {
    if s != [] {
      var e := EncodeChar(s[0]);
      var t := EncodeURIComponent(s[1..]);
      DecodeOneEncodeChar(s[0], t);
      assert (e + t)[|e|..] == t;
      DecodeEncode(s[1..]);
      assert [s[0]] + s[1..] == s;
    }
  }

  /** An encoded component holds no `&`, `=`, `#`, `?` or `/`: it is one query value. */
  lemma EncodedHasNoDelimiters(s: string)
    ensures var e := EncodeURIComponent(s);
      '&' !in e && '=' !in e && '#' !in e && '?' !in e && '/' !in e
  {
    var e := EncodeURIComponent(s);
    forall k | 0 <= k < |e| ensures e[k] != '&' && e[k] != '=' && e[k] != '#' && e[k] != '?' && e[k] != '/' {
      assert IsEncodedChar(e[k]);
    }
  }
}
