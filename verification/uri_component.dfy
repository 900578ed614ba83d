/**
 * JavaScript's `encodeURIComponent`, which the home page applies to the
 * product URL before placing it in the `url` query parameter, and the
 * matching `decodeURIComponent` that reads it back: every character outside
 * the unreserved set `A-Z a-z 0-9 - _ . ! ~ * ' ( )` becomes the `%XX`
 * escapes (upper-case hex) of its UTF-8 bytes.
 */
module UriComponent {
  import opened Wrappers

  type Byte = b: int | 0 <= b < 256

  /** The characters `encodeURIComponent` leaves as they are. */
  predicate Unreserved(c: char) {
    || ('A' <= c <= 'Z') || ('a' <= c <= 'z') || ('0' <= c <= '9')
    || c == '-' || c == '_' || c == '.' || c == '!' || c == '~' || c == '*'
    || c == '\'' || c == '(' || c == ')'
  }

  const HexDigits: string := "0123456789ABCDEF"

  predicate IsUpperHex(c: char) {
    ('0' <= c <= '9') || ('A' <= c <= 'F')
  }

  /** The value of one hex digit, either case. */
  function HexValue(c: char): (r: Option<int>)
    ensures r.Some? ==> 0 <= r.value < 16
  {
    if '0' <= c <= '9' then Some(c as int - '0' as int)
    else if 'A' <= c <= 'F' then Some(c as int - 'A' as int + 10)
    else if 'a' <= c <= 'f' then Some(c as int - 'a' as int + 10)
    else None
  }

  /** The UTF-8 encoding of one character: one to four bytes by code point range. */
  function Utf8(c: char): (bs: seq<Byte>)
    ensures 1 <= |bs| <= 4
  {
    var n := c as int;
    var q1 := n / 64;
    var q2 := q1 / 64;
    var q3 := q2 / 64;
    if n < 0x80 then [n]
    else if n < 0x800 then [0xC0 + q1, 0x80 + n % 64]
    else if n < 0x10000 then [0xE0 + q2, 0x80 + q1 % 64, 0x80 + n % 64]
    else [0xF0 + q3, 0x80 + q2 % 64, 0x80 + q1 % 64, 0x80 + n % 64]
  }

  /** `%XX` for one byte. */
  function Escape(b: Byte): string {
    ['%', HexDigits[b / 16], HexDigits[b % 16]]
  }

  lemma HexDigitIsUpperHex(d: int)
    requires 0 <= d < 16
    ensures IsUpperHex(HexDigits[d])
  {
  }

  /** The escapes of a byte sequence, three characters per byte. */
  function EscapeAll(bs: seq<Byte>): (r: string)
    ensures |r| == 3 * |bs|
    ensures forall k :: 0 <= k < |bs| ==> r[3 * k] == '%'
    ensures forall k :: 0 <= k < |bs| ==> r[3 * k + 1] == HexDigits[bs[k] / 16]
    ensures forall k :: 0 <= k < |bs| ==> r[3 * k + 2] == HexDigits[bs[k] % 16]
    decreases |bs|
  {
    if bs == [] then []
    else
      var t := EscapeAll(bs[1..]);
      var r := Escape(bs[0]) + t;
      assert forall k :: 1 <= k < |bs| ==> r[3 * k] == t[3 * (k - 1)] && bs[k] == bs[1..][k - 1];
      assert forall k :: 1 <= k < |bs| ==> r[3 * k + 1] == t[3 * (k - 1) + 1];
      assert forall k :: 1 <= k < |bs| ==> r[3 * k + 2] == t[3 * (k - 1) + 2];
      r
  }

  /** Every character the escapes use is `%` or an upper-case hex digit. */
  lemma EscapeAllAlphabet(bs: seq<Byte>, i: int)
    requires 0 <= i < |EscapeAll(bs)|
    ensures EscapeAll(bs)[i] == '%' || IsUpperHex(EscapeAll(bs)[i])
  {
    var k := i / 3;
    assert i == 3 * k || i == 3 * k + 1 || i == 3 * k + 2;
    HexDigitIsUpperHex(bs[k] / 16);
    HexDigitIsUpperHex(bs[k] % 16);
  }

  function EncodeChar(c: char): string {
    if Unreserved(c) then [c] else EscapeAll(Utf8(c))
  }

  predicate InEncodedAlphabet(c: char) {
    Unreserved(c) || c == '%' || IsUpperHex(c)
  }

  lemma EncodeCharAlphabet(c: char)
    ensures forall i :: 0 <= i < |EncodeChar(c)| ==> InEncodedAlphabet(EncodeChar(c)[i])
  {
    if !Unreserved(c) {
      forall i | 0 <= i < |EncodeChar(c)|
        ensures InEncodedAlphabet(EncodeChar(c)[i])
      {
        EscapeAllAlphabet(Utf8(c), i);
      }
    }
  }

  lemma AppendAlphabet(a: string, b: string)
    requires forall i :: 0 <= i < |a| ==> InEncodedAlphabet(a[i])
    requires forall i :: 0 <= i < |b| ==> InEncodedAlphabet(b[i])
    ensures forall i :: 0 <= i < |a + b| ==> InEncodedAlphabet((a + b)[i])
  {
    forall i | 0 <= i < |a + b|
      ensures InEncodedAlphabet((a + b)[i])
    {
      if i >= |a| {
        assert (a + b)[i] == b[i - |a|];
      }
    }
  }

  /** `encodeURIComponent`: unreserved characters are kept, every other one becomes escapes. */
  function Encode(s: string): (r: string)
    ensures forall i :: 0 <= i < |r| ==> InEncodedAlphabet(r[i])
    ensures (forall i :: 0 <= i < |s| ==> Unreserved(s[i])) ==> r == s
    decreases |s|
  {
    if s == [] then []
    else
      var head, t := EncodeChar(s[0]), Encode(s[1..]);
      EncodeCharAlphabet(s[0]);
      AppendAlphabet(head, t);
      assert (forall i :: 0 <= i < |s| ==> Unreserved(s[i])) ==> head == [s[0]];
      head + t
  }

  // ---------------------------------------------------------------------------
  // Decoding

  /** The byte escaped at characters `3k .. 3k+3` of `t`, if they are a `%XX` escape. */
  function ReadByte(t: string, k: nat): Option<Byte> {
    if 3 * k + 3 <= |t| && t[3 * k] == '%' && HexValue(t[3 * k + 1]).Some? && HexValue(t[3 * k + 2]).Some? then
      Some(HexValue(t[3 * k + 1]).value * 16 + HexValue(t[3 * k + 2]).value)
    else None
  }

  /** The six payload bits of continuation byte `k`, if it is one. */
  function Continuation(t: string, k: nat): Option<int> {
    match ReadByte(t, k)
    case Some(b) => if 0x80 <= b < 0xC0 then Some(b - 0x80) else None
    case None => None
  }

  /**
   * One UTF-8 sequence spelled as escapes at the start of `t`: the character
   * and the number of text characters consumed. Overlong forms, surrogates
   * and code points past U+10FFFF are refused, as `decodeURIComponent` does.
   */
  function DecodeSequence(t: string): (r: Option<(char, nat)>)
    ensures r.Some? ==> 3 <= r.value.1 <= |t|
  {
    match ReadByte(t, 0)
    case None => None
    case Some(b0) =>
      if b0 < 0x80 then Some((b0 as char, 3))
      else if 0xC0 <= b0 < 0xE0 then
        var x1 := Continuation(t, 1);
        if x1.None? then None
        else
          var cp := (b0 - 0xC0) * 64 + x1.value;
          if cp < 0x80 then None else Some((cp as char, 6))
      else if 0xE0 <= b0 < 0xF0 then
        var x1, x2 := Continuation(t, 1), Continuation(t, 2);
        if x1.None? || x2.None? then None
        else
          var cp := ((b0 - 0xE0) * 64 + x1.value) * 64 + x2.value;
          if cp < 0x800 || (0xD800 <= cp < 0xE000) then None else Some((cp as char, 9))
      else if 0xF0 <= b0 < 0xF8 then
        var x1, x2, x3 := Continuation(t, 1), Continuation(t, 2), Continuation(t, 3);
        if x1.None? || x2.None? || x3.None? then None
        else
          var cp := (((b0 - 0xF0) * 64 + x1.value) * 64 + x2.value) * 64 + x3.value;
          if cp < 0x10000 || 0x110000 <= cp then None else Some((cp as char, 12))
      else None
  }

  function Prepend(c: char, rest: Option<string>): Option<string> {
    match rest
    case Some(s) => Some([c] + s)
    case None => None
  }

  /** `decodeURIComponent`: escapes become the characters they spell; a malformed one is an error. */
  function Decode(t: string): Option<string>
    decreases |t|
  {
    if t == [] then Some([])
    else if t[0] != '%' then Prepend(t[0], Decode(t[1..]))
    else
      match DecodeSequence(t)
      case None => None
      case Some(cn) => Prepend(cn.0, Decode(t[cn.1..]))
  }

  // ---------------------------------------------------------------------------
  // Round trip

  lemma HexDigitValue(d: int)
    requires 0 <= d < 16
    ensures HexValue(HexDigits[d]) == Some(d)
  {
  }

  /** A `%` followed by two hex digits reads as the byte they spell. */
  lemma ReadByteOf(t: string, k: nat, hi: int, lo: int)
    requires 3 * k + 3 <= |t| && t[3 * k] == '%'
    requires HexValue(t[3 * k + 1]) == Some(hi) && HexValue(t[3 * k + 2]) == Some(lo)
    ensures ReadByte(t, k) == Some(hi * 16 + lo)
  {
  }

  lemma EscapedCharsAt(bs: seq<Byte>, rest: string, k: nat)
    requires k < |bs|
    ensures var t := EscapeAll(bs) + rest;
            && 3 * k + 3 <= |t| && t[3 * k] == '%'
            && t[3 * k + 1] == HexDigits[bs[k] / 16] && t[3 * k + 2] == HexDigits[bs[k] % 16]
  {
    var e := EscapeAll(bs);
    assert (e + rest)[3 * k] == e[3 * k] && (e + rest)[3 * k + 1] == e[3 * k + 1] && (e + rest)[3 * k + 2] == e[3 * k + 2];
  }

  /** Each `%XX` the encoder writes reads back as its byte. */
  lemma ReadEscapedByte(bs: seq<Byte>, rest: string, k: nat)
    requires k < |bs|
    ensures ReadByte(EscapeAll(bs) + rest, k) == Some(bs[k])
  {
    var t, b := EscapeAll(bs) + rest, bs[k];
    EscapedCharsAt(bs, rest, k);
    HexDigitValue(b / 16);
    HexDigitValue(b % 16);
    var hi, lo := b / 16, b % 16;
    ReadByteOf(t, k, hi, lo);
    assert hi * 16 + lo == b;
    var r := ReadByte(t, k);
    assert r.Some? && r.value == hi * 16 + lo;
    assert r.value == b;
  }

  lemma DecodeOneByte(t: string, n: int)
    requires 0 <= n < 0x80 && ReadByte(t, 0) == Some(n)
    ensures DecodeSequence(t) == Some((n as char, 3))
  {
  }

  lemma DecodeTwoBytes(t: string, n: int)
    requires 0x80 <= n < 0x800
    requires ReadByte(t, 0) == Some(0xC0 + n / 64) && ReadByte(t, 1) == Some(0x80 + n % 64)
    ensures DecodeSequence(t) == Some((n as char, 6))
  {
    assert Continuation(t, 1) == Some(n % 64);
    assert (n / 64) * 64 + n % 64 == n;
  }

  lemma DecodeThreeBytes(t: string, n: int)
    requires 0x800 <= n < 0x10000 && !(0xD800 <= n < 0xE000)
    requires ReadByte(t, 0) == Some(0xE0 + n / 64 / 64)
    requires ReadByte(t, 1) == Some(0x80 + (n / 64) % 64) && ReadByte(t, 2) == Some(0x80 + n % 64)
    ensures DecodeSequence(t) == Some((n as char, 9))
  {
    var q1 := n / 64;
    var q2 := q1 / 64;
    assert Continuation(t, 1) == Some(q1 % 64) && Continuation(t, 2) == Some(n % 64);
    assert q2 * 64 + q1 % 64 == q1;
    assert q1 * 64 + n % 64 == n;
  }

  lemma DecodeFourBytes(t: string, n: int)
    requires 0x10000 <= n < 0x110000
    requires ReadByte(t, 0) == Some(0xF0 + n / 64 / 64 / 64)
    requires ReadByte(t, 1) == Some(0x80 + (n / 64 / 64) % 64)
    requires ReadByte(t, 2) == Some(0x80 + (n / 64) % 64) && ReadByte(t, 3) == Some(0x80 + n % 64)
    ensures DecodeSequence(t) == Some((n as char, 12))
  {
    var q1 := n / 64;
    var q2 := q1 / 64;
    var q3 := q2 / 64;
    assert Continuation(t, 1) == Some(q2 % 64);
    assert Continuation(t, 2) == Some(q1 % 64) && Continuation(t, 3) == Some(n % 64);
    assert q3 * 64 + q2 % 64 == q2;
    assert q2 * 64 + q1 % 64 == q1;
    assert q1 * 64 + n % 64 == n;
  }

  /** The escapes of one character decode to that character and nothing more. */
  lemma DecodeEscapedChar(c: char, rest: string)
    requires !Unreserved(c)
    ensures DecodeSequence(EscapeAll(Utf8(c)) + rest) == Some((c, 3 * |Utf8(c)|))
  {
    var n := c as int;
    if n < 0x80 {
      EscapedOneByte(c, rest);
    } else if n < 0x800 {
      EscapedTwoBytes(c, rest);
    } else if n < 0x10000 {
      EscapedThreeBytes(c, rest);
    } else {
      EscapedFourBytes(c, rest);
    }
  }

  lemma EscapedOneByte(c: char, rest: string)
    requires c as int < 0x80
    ensures DecodeSequence(EscapeAll(Utf8(c)) + rest) == Some((c, 3)) && |Utf8(c)| == 1
  {
    var bs, n := Utf8(c), c as int;
    assert bs == [n];
    ReadEscapedByte(bs, rest, 0);
    DecodeOneByte(EscapeAll(bs) + rest, n);
  }

  lemma EscapedTwoBytes(c: char, rest: string)
    requires 0x80 <= c as int < 0x800
    ensures DecodeSequence(EscapeAll(Utf8(c)) + rest) == Some((c, 6)) && |Utf8(c)| == 2
  {
    var bs, n := Utf8(c), c as int;
    assert bs == [0xC0 + n / 64, 0x80 + n % 64];
    ReadEscapedByte(bs, rest, 0);
    ReadEscapedByte(bs, rest, 1);
    DecodeTwoBytes(EscapeAll(bs) + rest, n);
  }

  lemma EscapedThreeBytes(c: char, rest: string)
    requires 0x800 <= c as int < 0x10000
    ensures DecodeSequence(EscapeAll(Utf8(c)) + rest) == Some((c, 9)) && |Utf8(c)| == 3
  {
    var bs, n := Utf8(c), c as int;
    assert bs == [0xE0 + n / 64 / 64, 0x80 + (n / 64) % 64, 0x80 + n % 64];
    ReadEscapedByte(bs, rest, 0);
    ReadEscapedByte(bs, rest, 1);
    ReadEscapedByte(bs, rest, 2);
    DecodeThreeBytes(EscapeAll(bs) + rest, n);
  }

  lemma EscapedFourBytes(c: char, rest: string)
    requires 0x10000 <= c as int
    ensures DecodeSequence(EscapeAll(Utf8(c)) + rest) == Some((c, 12)) && |Utf8(c)| == 4
  {
    var bs, n := Utf8(c), c as int;
    assert bs == [0xF0 + n / 64 / 64 / 64, 0x80 + (n / 64 / 64) % 64, 0x80 + (n / 64) % 64, 0x80 + n % 64];
    ReadEscapedByte(bs, rest, 0);
    ReadEscapedByte(bs, rest, 1);
    ReadEscapedByte(bs, rest, 2);
    ReadEscapedByte(bs, rest, 3);
    DecodeFourBytes(EscapeAll(bs) + rest, n);
  }

  /** Decoding the encoding of one character peels off exactly that character. */
  lemma DecodeEncodeChar(c: char, rest: string)
    ensures Decode(EncodeChar(c) + rest) == Prepend(c, Decode(rest))
  {
    var t := EncodeChar(c) + rest;
    if Unreserved(c) {
      assert t[1..] == rest;
    } else {
      DecodeEscapedChar(c, rest);
      assert t[0] == '%';
      assert t[3 * |Utf8(c)|..] == rest;
    }
  }

  /** `decodeURIComponent(encodeURIComponent(s)) == s` for every string. */
  lemma {:induction false} DecodeEncode(s: string)
    ensures Decode(Encode(s)) == Some(s)
    decreases |s|
  {
    if s != [] {
      DecodeEncode(s[1..]);
      DecodeEncodeChar(s[0], Encode(s[1..]));
      assert [s[0]] + s[1..] == s;
    }
  }

  /** Two strings with the same encoding are equal: no information is lost. */
  lemma EncodeInjective(s: string, s': string)
    requires Encode(s) == Encode(s')
    ensures s == s'
  {
    DecodeEncode(s);
    DecodeEncode(s');
  }

  /**
   * Separators of a URL are escaped: `:` `/` `?` `#` `=` `&`, space, and the
   * `+` a query parser reads as a space never survive encoding.
   */
  lemma SeparatorsEscaped(s: string, i: int)
    requires 0 <= i < |Encode(s)|
    ensures Encode(s)[i] !in {':', '/', '?', '#', '=', '&', '+', ' '}
  {
    assert InEncodedAlphabet(Encode(s)[i]);
  }
}
