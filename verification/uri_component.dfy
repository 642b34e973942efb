/** `encodeURIComponent` as the upload route applies it to an object-store key, and the
    decoding that a reader of the public URL applies to get the key back. */
module UriComponent {
  import opened Records

  type Byte = b: int | 0 <= b < 256

  /** The characters `encodeURIComponent` leaves as they are: A-Z a-z 0-9 - _ . ! ~ * ' ( ) */
  predicate IsUnreserved(c: char) {
    ('A' <= c <= 'Z') || ('a' <= c <= 'z') || ('0' <= c <= '9')
    || c == '-' || c == '_' || c == '.' || c == '!' || c == '~' || c == '*' || c == '\'' || c == '(' || c == ')'
  }

  predicate IsUpperHex(c: char) {
    ('0' <= c <= '9') || ('A' <= c <= 'F')
  }

  /** What may appear in an encoded component: unreserved characters, `%` and upper-case hex digits. */
  predicate IsUriSafe(s: string) {
    forall i :: 0 <= i < |s| ==> IsUnreserved(s[i]) || s[i] == '%' || IsUpperHex(s[i])
  }

  predicate IsContinuation(b: Byte) {
    0x80 <= b < 0xC0
  }

  /** The UTF-8 encoding of one character (a Unicode scalar value). */
  function Utf8(c: char): (bs: seq<Byte>)
    ensures 1 <= |bs| <= 4
    ensures |bs| == 1 <==> c as int < 0x80
    ensures |bs| == 1 ==> bs[0] == c as int
  {
    var cp := c as int;
    if cp < 0x80 then [cp]
    else if cp < 0x800 then [0xC0 + cp / 64, 0x80 + cp % 64]
    else if cp < 0x10000 then
      var q := cp / 64;
      [0xE0 + q / 64, 0x80 + q % 64, 0x80 + cp % 64]
    else
      var q := cp / 64;
      var q' := q / 64;
      [0xF0 + q' / 64, 0x80 + q' % 64, 0x80 + q % 64, 0x80 + cp % 64]
  }

  function Utf8String(s: string): seq<Byte> {
    if s == [] then [] else Utf8(s[0]) + Utf8String(s[1..])
  }

  function HexDigit(d: nat): (c: char)
    requires d < 16
    ensures IsUpperHex(c)
  {
    "0123456789ABCDEF"[d]
  }

  /** Each byte as `%` followed by two upper-case hex digits. */
  function PercentEncode(bs: seq<Byte>): (t: string)
    ensures |t| == 3 * |bs|
    ensures IsUriSafe(t)
  {
    if bs == [] then []
    else ['%', HexDigit(bs[0] / 16), HexDigit(bs[0] % 16)] + PercentEncode(bs[1..])
  }

  function EncodeChar(c: char): (t: string)
    ensures |t| >= 1 && IsUriSafe(t)
  {
    if IsUnreserved(c) then [c] else PercentEncode(Utf8(c))
  }

  /** `encodeURIComponent`: only unreserved characters, `%` and hex digits remain, and a
      string of unreserved characters is left as it is. */
  function EncodeComponent(s: string): (t: string)
    ensures IsUriSafe(t)
    ensures |t| >= |s|
    ensures (forall i :: 0 <= i < |s| ==> IsUnreserved(s[i])) ==> t == s
  {
    if s == [] then []
    else
      var t := EncodeChar(s[0]) + EncodeComponent(s[1..]);
      assert IsUnreserved(s[0]) && EncodeComponent(s[1..]) == s[1..] ==> t == s;
      t
  }

  function HexValue(c: char): Option<nat> {
    if '0' <= c <= '9' then Some(c as int - '0' as int)
    else if 'A' <= c <= 'F' then Some(c as int - 'A' as int + 10)
    else if 'a' <= c <= 'f' then Some(c as int - 'a' as int + 10)
    else None
  }

  function Prepend(bs: seq<Byte>, r: Option<seq<Byte>>): Option<seq<Byte>> {
    match r
    case None => None
    case Some(rest) => Some(bs + rest)
  }

  /** The bytes a component denotes: `%XX` is the byte XX, any other character stands for
      its own UTF-8 encoding; a `%` not followed by two hex digits is malformed. */
  function Unescape(t: string): Option<seq<Byte>>
    decreases |t|
  {
    if t == [] then Some([])
    else if t[0] == '%' then
      if |t| >= 3 && HexValue(t[1]).Some? && HexValue(t[2]).Some? && HexValue(t[1]).value < 16 && HexValue(t[2]).value < 16
      then Prepend([16 * HexValue(t[1]).value + HexValue(t[2]).value], Unescape(t[3..]))
      else None
    else Prepend(Utf8(t[0]), Unescape(t[1..]))
  }

  function Cons(c: char, r: Option<string>): Option<string> {
    match r
    case None => None
    case Some(rest) => Some([c] + rest)
  }

  predicate IsScalar(cp: int) {
    (0 <= cp < 0xD800) || (0xE000 <= cp < 0x110000)
  }

  /** Strict UTF-8 decoding: shortest forms only, no surrogates, nothing above U+10FFFF. */
  function Utf8Decode(bs: seq<Byte>): Option<string>
    decreases |bs|
  {
    if bs == [] then Some([])
    else
      var b0: int := bs[0];
      if b0 < 0x80 then Cons(b0 as char, Utf8Decode(bs[1..]))
      else if 0xC0 <= b0 < 0xE0 && |bs| >= 2 && IsContinuation(bs[1]) then
        var cp := (b0 - 0xC0) * 64 + (bs[1] as int - 0x80);
        if 0x80 <= cp then Cons(cp as char, Utf8Decode(bs[2..])) else None
      else if 0xE0 <= b0 < 0xF0 && |bs| >= 3 && IsContinuation(bs[1]) && IsContinuation(bs[2]) then
        var cp := ((b0 - 0xE0) * 64 + (bs[1] as int - 0x80)) * 64 + (bs[2] as int - 0x80);
        if 0x800 <= cp && IsScalar(cp) then Cons(cp as char, Utf8Decode(bs[3..])) else None
      else if 0xF0 <= b0 < 0xF8 && |bs| >= 4 && IsContinuation(bs[1]) && IsContinuation(bs[2]) && IsContinuation(bs[3]) then
        var cp := (((b0 - 0xF0) * 64 + (bs[1] as int - 0x80)) * 64 + (bs[2] as int - 0x80)) * 64 + (bs[3] as int - 0x80);
        if 0x10000 <= cp < 0x110000 then Cons(cp as char, Utf8Decode(bs[4..])) else None
      else None
  }

  /** `decodeURIComponent`: the text whose UTF-8 encoding the component denotes. */
  function DecodeComponent(t: string): Option<string> {
    match Unescape(t)
    case None => None
    case Some(bs) => Utf8Decode(bs)
  }

  /** Reading a written hex digit gives back its value. */
  lemma HexValueOfDigit(d: nat)
    requires d < 16
    ensures HexValue(HexDigit(d)) == Some(d)
  {
    var digits := "0123456789ABCDEF";
    assert digits[d] == HexDigit(d);
  }

  lemma UnescapeByte(b: Byte, tail: string)
    ensures Unescape(['%', HexDigit(b / 16), HexDigit(b % 16)] + tail) == Prepend([b], Unescape(tail))
  {
    var hi, lo := b / 16, b % 16;
    var t := ['%', HexDigit(hi), HexDigit(lo)] + tail;
    HexValueOfDigit(hi);
    HexValueOfDigit(lo);
    assert t[0] == '%' && t[1] == HexDigit(hi) && t[2] == HexDigit(lo) && t[3..] == tail;
    assert 16 * hi + lo == b;
  }

  lemma PrependTwice(b: seq<Byte>, bs: seq<Byte>, r: Option<seq<Byte>>)
    ensures Prepend(b, Prepend(bs, r)) == Prepend(b + bs, r)
  {
    match r {
      case None =>
      case Some(x) => assert b + (bs + x) == (b + bs) + x;
    }
  }

  lemma {:induction false} UnescapePercent(bs: seq<Byte>, rest: string)
    ensures Unescape(PercentEncode(bs) + rest) == Prepend(bs, Unescape(rest))
  {
    if bs == [] {
      assert PercentEncode(bs) + rest == rest;
      match Unescape(rest) {
        case None =>
        case Some(r) => assert bs + r == r;
      }
    } else {
      var b := bs[0];
      var tail := PercentEncode(bs[1..]) + rest;
      assert PercentEncode(bs) + rest == ['%', HexDigit(b / 16), HexDigit(b % 16)] + tail;
      UnescapeByte(b, tail);
      UnescapePercent(bs[1..], rest);
      PrependTwice([b], bs[1..], Unescape(rest));
      assert [b] + bs[1..] == bs;
    }
  }

  lemma UnescapeChar(c: char, rest: string)
    ensures Unescape(EncodeChar(c) + rest) == Prepend(Utf8(c), Unescape(rest))
  {
    if IsUnreserved(c) {
      assert ([c] + rest)[1..] == rest;
    } else {
      UnescapePercent(Utf8(c), rest);
    }
  }

  lemma {:induction false} UnescapeEncode(s: string)
    ensures Unescape(EncodeComponent(s)) == Some(Utf8String(s))
  {
    if s != [] {
      UnescapeEncode(s[1..]);
      UnescapeChar(s[0], EncodeComponent(s[1..]));
    }
  }

  lemma Utf8DecodeChar(c: char, rest: seq<Byte>)
    ensures Utf8Decode(Utf8(c) + rest) == Cons(c, Utf8Decode(rest))
  {
    var cp := c as int;
    var bs := Utf8(c) + rest;
    if cp < 0x80 {
      assert bs[1..] == rest;
      assert bs[0] as char == c;
    } else if cp < 0x800 {
      assert bs[2..] == rest;
      assert (bs[0] - 0xC0) * 64 + (bs[1] as int - 0x80) == cp;
    } else if cp < 0x10000 {
      assert bs[3..] == rest;
      var q := cp / 64;
      assert (bs[0] - 0xE0) * 64 + (bs[1] as int - 0x80) == q;
      assert q * 64 + (bs[2] as int - 0x80) == cp;
    } else {
      assert bs[4..] == rest;
      var q := cp / 64;
      var q' := q / 64;
      assert (bs[0] - 0xF0) * 64 + (bs[1] as int - 0x80) == q';
      assert q' * 64 + (bs[2] as int - 0x80) == q;
      assert q * 64 + (bs[3] as int - 0x80) == cp;
    }
  }

  lemma {:induction false} Utf8RoundTrip(s: string)
    ensures Utf8Decode(Utf8String(s)) == Some(s)
  {
    if s != [] {
      Utf8RoundTrip(s[1..]);
      Utf8DecodeChar(s[0], Utf8String(s[1..]));
      assert [s[0]] + s[1..] == s;
    }
  }

  /** Decoding an encoded component gives back the original text. */
  lemma DecodeEncode(s: string)
    ensures DecodeComponent(EncodeComponent(s)) == Some(s)
  {
    UnescapeEncode(s);
    Utf8RoundTrip(s);
  }
}
