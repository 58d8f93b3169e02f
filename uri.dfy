/**
 * `encodeURIComponent`, which the study links use to put subject and topic
 * names into search URLs, and the percent-decoding that undoes it.
 *
 * A string is a sequence of Unicode scalar values. `encodeURIComponent`
 * maps every character to its UTF-8 bytes. It keeps the bytes of the
 * unreserved ASCII characters as they are and writes every other byte as
 * `%` and two upper-case hexadecimal digits. Since unreserved characters
 * are ASCII, and ASCII characters are the only ones whose UTF-8 form is
 * a single byte below 0x80, this is the same as the character-by-character
 * description of ECMA-262, section 19.2.6.5.
 */
module Uri {
  import opened Records

  type Byte = b: int | 0 <= b < 256

  /** The characters `encodeURIComponent` leaves alone: `A-Z a-z 0-9 - _ . ! ~ * ' ( )`. */
  predicate Unreserved(c: char) {
    ('A' <= c <= 'Z') || ('a' <= c <= 'z') || ('0' <= c <= '9')
    || c == '-' || c == '_' || c == '.' || c == '!' || c == '~' || c == '*'
    || c == '\'' || c == '(' || c == ')'
  }

  predicate IsHexDigit(c: char) {
    ('0' <= c <= '9') || ('A' <= c <= 'F')
  }

  /** A character of an encoded string: unreserved, `%`, or an upper-case hex digit. */
  predicate UriChar(c: char) {
    Unreserved(c) || c == '%' || IsHexDigit(c)
  }

  predicate IsContinuation(b: Byte) {
    0x80 <= b < 0xC0
  }

  // ---------------------------------------------------------------------
  // UTF-8
  // ---------------------------------------------------------------------

  /** The UTF-8 form of one scalar value. */
  function Utf8Char(c: char): (r: seq<Byte>)
    ensures 1 <= |r| <= 4
    ensures |r| == 1 <==> c as int < 0x80
    ensures |r| == 1 ==> r[0] == c as int
    ensures |r| > 1 ==> 0xC0 <= r[0]
  {
    var n := c as int;
    if n < 0x80 then [n]
    else if n < 0x800 then [0xC0 + n / 64, 0x80 + n % 64]
    else if n < 0x10000 then [0xE0 + n / 4096, 0x80 + (n / 64) % 64, 0x80 + n % 64]
    else [0xF0 + n / 262144, 0x80 + (n / 4096) % 64, 0x80 + (n / 64) % 64, 0x80 + n % 64]
  }

  function Utf8(s: string): seq<Byte> {
    if s == [] then [] else Utf8Char(s[0]) + Utf8(s[1..])
  }

  function Prepend<T>(x: T, o: Option<seq<T>>): (r: Option<seq<T>>)
    ensures r.Some? <==> o.Some?
    ensures r.Some? ==> r.value == [x] + o.value
  {
    match o
    case None => None
    case Some(xs) => Some([x] + xs)
  }

  /**
   * Decoding of UTF-8: None on a truncated sequence, a stray continuation
   * byte, an over-long form, a surrogate or a value past U+10FFFF.
   */
  function Utf8Decode(bs: seq<Byte>): Option<string>
    decreases |bs|
  {
    if bs == [] then Some([])
    else
      var b0: int := bs[0];
      if b0 < 0x80 then Prepend(b0 as char, Utf8Decode(bs[1..]))
      else if 0xC0 <= b0 < 0xE0 && 2 <= |bs| && IsContinuation(bs[1]) then
        var n := (b0 - 0xC0) * 64 + (bs[1] as int - 0x80);
        if 0x80 <= n then Prepend(n as char, Utf8Decode(bs[2..])) else None
      else if 0xE0 <= b0 < 0xF0 && 3 <= |bs| && IsContinuation(bs[1]) && IsContinuation(bs[2]) then
        var n := (b0 - 0xE0) * 4096 + (bs[1] as int - 0x80) * 64 + (bs[2] as int - 0x80);
        if 0x800 <= n && !(0xD800 <= n < 0xE000) then Prepend(n as char, Utf8Decode(bs[3..])) else None
      else if 0xF0 <= b0 < 0xF8 && 4 <= |bs| && IsContinuation(bs[1]) && IsContinuation(bs[2])
              && IsContinuation(bs[3]) then
        var n := (b0 - 0xF0) * 262144 + (bs[1] as int - 0x80) * 4096 + (bs[2] as int - 0x80) * 64 + (bs[3] as int - 0x80);
        if 0x10000 <= n < 0x110000 then Prepend(n as char, Utf8Decode(bs[4..])) else None
      else None
  }

  lemma Utf8CharDecode(c: char, rest: seq<Byte>)
    ensures Utf8Decode(Utf8Char(c) + rest) == Prepend(c, Utf8Decode(rest))
  {
    var n := c as int;
    if n < 0x80 {
      assert (Utf8Char(c) + rest)[1..] == rest;
    } else if n < 0x800 {
      Utf8TwoBytes(c, rest);
    } else if n < 0x10000 {
      Utf8ThreeBytes(c, rest);
    } else {
      Utf8FourBytes(c, rest);
    }
  }

  lemma Utf8TwoBytes(c: char, rest: seq<Byte>)
    requires 0x80 <= c as int < 0x800
    ensures Utf8Decode(Utf8Char(c) + rest) == Prepend(c, Utf8Decode(rest))
  {
    var n := c as int;
    var u := Utf8Char(c);
    assert u == [0xC0 + n / 64, 0x80 + n % 64];
    var bs := u + rest;
    assert bs[0] == 0xC0 + n / 64 && bs[1] == 0x80 + n % 64;
    assert (n / 64) * 64 + n % 64 == n;
    assert bs[2..] == rest;
  }

  lemma Utf8ThreeBytes(c: char, rest: seq<Byte>)
    requires 0x800 <= c as int < 0x10000
    ensures Utf8Decode(Utf8Char(c) + rest) == Prepend(c, Utf8Decode(rest))
  {
    var n := c as int;
    var u := Utf8Char(c);
    assert u == [0xE0 + n / 4096, 0x80 + (n / 64) % 64, 0x80 + n % 64];
    var bs := u + rest;
    assert bs[0] == 0xE0 + n / 4096 && bs[1] == 0x80 + (n / 64) % 64 && bs[2] == 0x80 + n % 64;
    assert (n / 4096) * 4096 + ((n / 64) % 64) * 64 + n % 64 == n;
    assert bs[3..] == rest;
  }

  lemma Utf8FourBytes(c: char, rest: seq<Byte>)
    requires 0x10000 <= c as int
    ensures Utf8Decode(Utf8Char(c) + rest) == Prepend(c, Utf8Decode(rest))
  {
    var n := c as int;
    var u := Utf8Char(c);
    assert u == [0xF0 + n / 262144, 0x80 + (n / 4096) % 64, 0x80 + (n / 64) % 64, 0x80 + n % 64];
    var bs := u + rest;
    assert bs[0] == 0xF0 + n / 262144 && bs[1] == 0x80 + (n / 4096) % 64;
    assert bs[2] == 0x80 + (n / 64) % 64 && bs[3] == 0x80 + n % 64;
    assert (n / 262144) * 262144 + ((n / 4096) % 64) * 4096 + ((n / 64) % 64) * 64 + n % 64 == n;
    assert bs[4..] == rest;
  }

  /** UTF-8 decoding undoes UTF-8 encoding. */
  lemma {:induction false} Utf8RoundTrip(s: string)
    ensures Utf8Decode(Utf8(s)) == Some(s)
  {
    if s != [] {
      Utf8RoundTrip(s[1..]);
      Utf8CharDecode(s[0], Utf8(s[1..]));
      assert [s[0]] + s[1..] == s;
    }
  }

  // ---------------------------------------------------------------------
  // Percent-encoding of bytes
  // ---------------------------------------------------------------------

  function HexDigit(d: int): (c: char)
    requires 0 <= d < 16
    ensures IsHexDigit(c)
  {
    if d < 10 then ('0' as int + d) as char else ('A' as int + d - 10) as char
  }

  /** The value of a hexadecimal digit of either case. */
  function HexValue(c: char): (r: Option<int>)
    ensures r.Some? ==> 0 <= r.value < 16
    ensures forall d :: 0 <= d < 16 ==> (r == Some(d) <== c == HexDigit(d))
  {
    if '0' <= c <= '9' then Some(c as int - '0' as int)
    else if 'A' <= c <= 'F' then Some(c as int - 'A' as int + 10)
    else if 'a' <= c <= 'f' then Some(c as int - 'a' as int + 10)
    else None
  }

  /** One byte: itself when it is an unreserved character, `%XX` otherwise. */
  function PercentByte(b: Byte): (r: string)
    ensures forall i :: 0 <= i < |r| ==> UriChar(r[i])
    ensures |r| == 1 <==> b < 0x80 && Unreserved(b as char)
  {
    if b < 0x80 && Unreserved(b as char) then [b as char]
    else ['%', HexDigit(b / 16), HexDigit(b % 16)]
  }

  function PercentBytes(bs: seq<Byte>): (r: string)
    ensures forall i :: 0 <= i < |r| ==> UriChar(r[i])
  {
    if bs == [] then []
    else
      var h, t := PercentByte(bs[0]), PercentBytes(bs[1..]);
      assert forall i :: |h| <= i < |h| + |t| ==> (h + t)[i] == t[i - |h|];
      h + t
  }

  /** Reads back the bytes of a percent-encoded string; None on a malformed escape or a non-ASCII character. */
  function PercentDecode(s: string): Option<seq<Byte>>
    decreases |s|
  {
    if s == [] then Some([])
    else if s[0] == '%' then
      if 3 <= |s| && HexValue(s[1]).Some? && HexValue(s[2]).Some? then
        Prepend(HexValue(s[1]).value * 16 + HexValue(s[2]).value, PercentDecode(s[3..]))
      else None
    else if (s[0] as int) < 0x80 then Prepend(s[0] as int, PercentDecode(s[1..]))
    else None
  }

  lemma PercentByteDecode(b: Byte, rest: string)
    ensures PercentDecode(PercentByte(b) + rest) == Prepend(b, PercentDecode(rest))
  {
    var p := PercentByte(b);
    if b < 0x80 && Unreserved(b as char) {
      assert (p + rest)[1..] == rest;
    } else {
      assert (p + rest)[3..] == rest;
      assert HexValue(p[1]) == Some(b / 16);
      assert HexValue(p[2]) == Some(b % 16);
    }
  }

  lemma {:induction false} PercentRoundTrip(bs: seq<Byte>)
    ensures PercentDecode(PercentBytes(bs)) == Some(bs)
  {
    if bs != [] {
      PercentRoundTrip(bs[1..]);
      PercentByteDecode(bs[0], PercentBytes(bs[1..]));
      assert [bs[0]] + bs[1..] == bs;
    }
  }

  // ---------------------------------------------------------------------
  // The whole encoding
  // ---------------------------------------------------------------------

  /** `encodeURIComponent` */
  function EncodeURIComponent(s: string): (r: string)
    ensures forall i :: 0 <= i < |r| ==> UriChar(r[i])
  {
    PercentBytes(Utf8(s))
  }

  /** Percent-decoding followed by UTF-8 decoding. */
  function DecodeURIComponent(s: string): Option<string> {
    match PercentDecode(s)
    case None => None
    case Some(bs) => Utf8Decode(bs)
  }

  /** Decoding gives back every encoded string. */
  lemma EncodeRoundTrip(s: string)
    ensures DecodeURIComponent(EncodeURIComponent(s)) == Some(s)
  {
    PercentRoundTrip(Utf8(s));
    Utf8RoundTrip(s);
  }

  /** An encoded component has no query or line separators, so it stays one search term of one line. */
  lemma EncodedHasNoSeparators(s: string)
    ensures '+' !in EncodeURIComponent(s) && ' ' !in EncodeURIComponent(s)
    ensures '\n' !in EncodeURIComponent(s) && '&' !in EncodeURIComponent(s)
    ensures '=' !in EncodeURIComponent(s) && '#' !in EncodeURIComponent(s)
  {
  }

  /** A string of unreserved characters is its own encoding. */
  lemma {:induction false} EncodeUnreserved(s: string)
    requires forall i :: 0 <= i < |s| ==> Unreserved(s[i])
    ensures EncodeURIComponent(s) == s
  {
    if s != [] {
      EncodeUnreserved(s[1..]);
      assert Utf8(s) == [s[0] as int] + Utf8(s[1..]);
      assert ([s[0] as int] + Utf8(s[1..]))[1..] == Utf8(s[1..]);
      assert [s[0]] + s[1..] == s;
    }
  }
}
