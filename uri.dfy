/**
 * `encodeURIComponent` as JavaScript defines it: the characters `A-Z a-z 0-9 - _ . ! ~ * ' ( )`
 * are kept, every other character is written as the UTF-8 bytes of its code point, each byte as
 * `%` and two upper-case hexadecimal digits (percent-encoding, section 2.1 of RFC 3986).
 * `DecodeURIComponent` is the inverse, used to state the round trip.
 */
module Uri {
  import opened Wrappers

  /** The characters `encodeURIComponent` leaves as they are. */
  predicate Unescaped(c: char) {
    ('A' <= c <= 'Z') || ('a' <= c <= 'z') || ('0' <= c <= '9') || c in "-_.!~*'()"
  }

  /** A character that can appear in the output of `encodeURIComponent`. */
  predicate EncodedChar(c: char) {
    Unescaped(c) || c == '%'
  }

  function HexDigit(n: int): (c: char)
    requires 0 <= n < 16
    ensures Unescaped(c)
  {
    if n < 10 then ('0' as int + n) as char else ('A' as int + n - 10) as char
  }

  /** The value of a hexadecimal digit of either case, or -1. */
  function HexValue(c: char): int {
    if '0' <= c <= '9' then c as int - '0' as int
    else if 'A' <= c <= 'F' then c as int - 'A' as int + 10
    else if 'a' <= c <= 'f' then c as int - 'a' as int + 10
    else -1
  }

  predicate IsByte(b: int) { 0 <= b < 256 }

  /** The UTF-8 encoding of a Unicode scalar value. */
  function Utf8(c: char): (bs: seq<int>)
    ensures 1 <= |bs| <= 4
    ensures forall i :: 0 <= i < |bs| ==> IsByte(bs[i])
  {
    var cp := c as int;
    if cp < 0x80 then [cp]
    else if cp < 0x800 then [0xC0 + cp / 64, 0x80 + cp % 64]
    else if cp < 0x10000 then [0xE0 + cp / 4096, 0x80 + (cp / 64) % 64, 0x80 + cp % 64]
    else [0xF0 + cp / 262144, 0x80 + (cp / 4096) % 64, 0x80 + (cp / 64) % 64, 0x80 + cp % 64]
  }

  function PercentByte(b: int): string
    requires IsByte(b)
  {
    ['%', HexDigit(b / 16), HexDigit(b % 16)]
  }

  function PercentBytes(bs: seq<int>): (r: string)
    requires forall i :: 0 <= i < |bs| ==> IsByte(bs[i])
    ensures |r| == 3 * |bs|
    ensures forall i :: 0 <= i < |r| ==> EncodedChar(r[i])
  {
    if bs == [] then "" else PercentByte(bs[0]) + PercentBytes(bs[1..])
  }

  function EncodeChar(c: char): (r: string)
    ensures forall i :: 0 <= i < |r| ==> EncodedChar(r[i])
  {
    if Unescaped(c) then [c] else PercentBytes(Utf8(c))
  }

  /** `encodeURIComponent(s)`. */
  function EncodeURIComponent(s: string): (r: string)
    ensures forall i :: 0 <= i < |r| ==> EncodedChar(r[i])
  {
    if s == [] then "" else EncodeChar(s[0]) + EncodeURIComponent(s[1..])
  }

  /** The byte that a leading `%XX` stands for. */
  function ReadByte(s: string): Option<int> {
    if |s| >= 3 && s[0] == '%' && HexValue(s[1]) >= 0 && HexValue(s[2]) >= 0
    then Some(HexValue(s[1]) * 16 + HexValue(s[2]))
    else None
  }

  /** The `n` bytes that `n` leading `%XX` triplets stand for. */
  function ReadBytes(s: string, n: nat): Option<seq<int>> {
    if n == 0 then Some([])
    else match ReadByte(s)
      case None => None
      case Some(b) =>
        if |s| < 3 then None
        else match ReadBytes(s[3..], n - 1)
          case None => None
          case Some(rest) => Some([b] + rest)
  }

  /** The length of the UTF-8 sequence a leading byte opens, or 0 if it cannot lead one. */
  function SequenceLength(b0: int): nat {
    if b0 < 0x80 then 1
    else if 0xC0 <= b0 < 0xE0 then 2
    else if 0xE0 <= b0 < 0xF0 then 3
    else if 0xF0 <= b0 < 0xF8 then 4
    else 0
  }

  predicate Continuation(b: int) { 0x80 <= b < 0xC0 }

  /** The scalar value a well-formed, shortest-form UTF-8 sequence encodes. */
  function DecodeScalar(bs: seq<int>): Option<char>
  {
    var cp :=
      if |bs| == 1 && 0 <= bs[0] < 0x80 then bs[0]
      else if |bs| == 2 && Continuation(bs[1]) then (bs[0] - 0xC0) * 64 + (bs[1] - 0x80)
      else if |bs| == 3 && Continuation(bs[1]) && Continuation(bs[2]) then
        (bs[0] - 0xE0) * 4096 + (bs[1] - 0x80) * 64 + (bs[2] - 0x80)
      else if |bs| == 4 && Continuation(bs[1]) && Continuation(bs[2]) && Continuation(bs[3]) then
        (bs[0] - 0xF0) * 262144 + (bs[1] - 0x80) * 4096 + (bs[2] - 0x80) * 64 + (bs[3] - 0x80)
      else -1;
    var least := if |bs| == 1 then 0 else if |bs| == 2 then 0x80 else if |bs| == 3 then 0x800 else 0x10000;
    if least <= cp && (cp < 0xD800 || 0xE000 <= cp < 0x110000) then Some(cp as char) else None
  }

  /** `decodeURIComponent(s)`; `None` where JavaScript throws `URIError`. */
  function DecodeURIComponent(s: string): Option<string>
    decreases |s|
  {
    if s == [] then Some([])
    else if s[0] != '%' then
      match DecodeURIComponent(s[1..])
      case None => None
      case Some(t) => Some([s[0]] + t)
    else match ReadByte(s)
      case None => None
      case Some(b0) =>
        var n := SequenceLength(b0);
        if n == 0 || |s| < 3 * n then None
        else match ReadBytes(s, n)
          case None => None
          case Some(bs) =>
            match DecodeScalar(bs)
            case None => None
            case Some(ch) =>
              match DecodeURIComponent(s[3 * n..])
              case None => None
              case Some(t) => Some([ch] + t)
  }

  /** A string of characters `encodeURIComponent` keeps is its own encoding. */
  lemma {:induction false} EncodeUnescaped(s: string)
    requires forall i :: 0 <= i < |s| ==> Unescaped(s[i])
    ensures EncodeURIComponent(s) == s
  {
    if s != [] {
      EncodeUnescaped(s[1..]);
      assert s == [s[0]] + s[1..];
    }
  }

  lemma HexRoundTrip(n: int)
    requires 0 <= n < 16
    ensures HexValue(HexDigit(n)) == n
  {
  }

  lemma ReadPercentByte(b: int, tail: string)
    requires IsByte(b)
    ensures ReadByte(PercentByte(b) + tail) == Some(b)
  {
    HexRoundTrip(b / 16);
    HexRoundTrip(b % 16);
  }

  lemma {:induction false} ReadPercentBytes(bs: seq<int>, tail: string)
    requires forall i :: 0 <= i < |bs| ==> IsByte(bs[i])
    ensures ReadBytes(PercentBytes(bs) + tail, |bs|) == Some(bs)
  {
    if bs != [] {
      var head, rest := PercentByte(bs[0]), PercentBytes(bs[1..]) + tail;
      var s := PercentBytes(bs) + tail;
      assert s == head + rest by {
        assert PercentBytes(bs) == head + PercentBytes(bs[1..]);
      }
      ReadPercentByte(bs[0], rest);
      assert s[3..] == rest;
      ReadPercentBytes(bs[1..], tail);
      assert [bs[0]] + bs[1..] == bs;
    }
  }

  lemma Utf8Decodes2(cp: int)
    requires 0x80 <= cp < 0x800
    ensures DecodeScalar([0xC0 + cp / 64, 0x80 + cp % 64]) == Some(cp as char)
  {
    var q, r := cp / 64, cp % 64;
    assert cp == q * 64 + r && 0 <= r < 64;
    var bs := [0xC0 + q, 0x80 + r];
    assert Continuation(bs[1]);
    assert (bs[0] - 0xC0) * 64 + (bs[1] - 0x80) == cp;
  }

  lemma Utf8Decodes3(cp: int)
    requires 0x800 <= cp < 0x10000 && (cp < 0xD800 || 0xE000 <= cp)
    ensures DecodeScalar([0xE0 + cp / 4096, 0x80 + (cp / 64) % 64, 0x80 + cp % 64]) == Some(cp as char)
  {
    var q, r := cp / 64, cp % 64;
    var q2, r2 := q / 64, q % 64;
    assert cp == q * 64 + r && 0 <= r < 64;
    assert q == q2 * 64 + r2 && 0 <= r2 < 64;
    assert q2 == cp / 4096;
    var bs := [0xE0 + q2, 0x80 + r2, 0x80 + r];
    assert Continuation(bs[1]) && Continuation(bs[2]);
    assert (bs[0] - 0xE0) * 4096 + (bs[1] - 0x80) * 64 + (bs[2] - 0x80) == cp;
  }

  lemma Utf8Decodes4(cp: int)
    requires 0x10000 <= cp < 0x110000
    ensures DecodeScalar([0xF0 + cp / 262144, 0x80 + (cp / 4096) % 64, 0x80 + (cp / 64) % 64, 0x80 + cp % 64])
      == Some(cp as char)
  {
    var q, r := cp / 64, cp % 64;
    var q2, r2 := q / 64, q % 64;
    var q3, r3 := q2 / 64, q2 % 64;
    assert cp == q * 64 + r && 0 <= r < 64;
    assert q == q2 * 64 + r2 && 0 <= r2 < 64;
    assert q2 == q3 * 64 + r3 && 0 <= r3 < 64;
    assert q2 == cp / 4096 && q3 == cp / 262144;
    var bs := [0xF0 + q3, 0x80 + r3, 0x80 + r2, 0x80 + r];
    assert Continuation(bs[1]) && Continuation(bs[2]) && Continuation(bs[3]);
    assert (bs[0] - 0xF0) * 262144 + (bs[1] - 0x80) * 4096 + (bs[2] - 0x80) * 64 + (bs[3] - 0x80) == cp;
  }

  lemma Utf8Decodes(c: char)
    ensures SequenceLength(Utf8(c)[0]) == |Utf8(c)|
    ensures DecodeScalar(Utf8(c)) == Some(c)
  {
    var cp := c as int;
    if cp < 0x80 {
    } else if cp < 0x800 {
      Utf8Decodes2(cp);
    } else if cp < 0x10000 {
      Utf8Decodes3(cp);
    } else {
      Utf8Decodes4(cp);
    }
  }

  /** What the decoder reads from percent-encoded bytes followed by `tail`. */
  lemma PercentPieces(bs: seq<int>, tail: string)
    requires |bs| >= 1 && forall i :: 0 <= i < |bs| ==> IsByte(bs[i])
    ensures |PercentBytes(bs) + tail| >= 3 * |bs|
    ensures (PercentBytes(bs) + tail)[0] == '%'
    ensures ReadByte(PercentBytes(bs) + tail) == Some(bs[0])
    ensures ReadBytes(PercentBytes(bs) + tail, |bs|) == Some(bs)
    ensures (PercentBytes(bs) + tail)[3 * |bs|..] == tail
  {
    ReadPercentBytes(bs, tail);
    ReadBytesHead(PercentBytes(bs) + tail, |bs|);
    var enc := PercentBytes(bs);
    assert (enc + tail)[|enc|..] == tail;
  }

  /** Reading one or more bytes reads the first byte first, so the text starts with `%`. */
  lemma ReadBytesHead(s: string, n: nat)
    requires n >= 1 && ReadBytes(s, n).Some?
    ensures |s| >= 3 && s[0] == '%'
    ensures |ReadBytes(s, n).value| >= 1 && ReadByte(s) == Some(ReadBytes(s, n).value[0])
  {
  }

  /** The pieces the decoder reads from an escaped character's encoding followed by `tail`. */
  lemma EscapedPieces(c: char, tail: string)
    requires !Unescaped(c)
    ensures var s := EncodeChar(c) + tail; var n := |Utf8(c)|;
      && s != [] && s[0] == '%' && ReadByte(s) == Some(Utf8(c)[0])
      && SequenceLength(Utf8(c)[0]) == n && |s| >= 3 * n
      && ReadBytes(s, n) == Some(Utf8(c)) && DecodeScalar(Utf8(c)) == Some(c)
      && s[3 * n..] == tail
  {
    Utf8Decodes(c);
    PercentPieces(Utf8(c), tail);
  }

  lemma DecodeEncodeChar(c: char, tail: string)
    ensures DecodeURIComponent(EncodeChar(c) + tail) ==
      match DecodeURIComponent(tail) case None => None case Some(t) => Some([c] + t)
  {
    var s := EncodeChar(c) + tail;
    if Unescaped(c) {
      assert s[0] == c && s[1..] == tail;
    } else {
      EscapedPieces(c, tail);
    }
  }

  /** `decodeURIComponent(encodeURIComponent(s)) === s` for every string. */
  lemma {:induction false} DecodeEncode(s: string)
    ensures DecodeURIComponent(EncodeURIComponent(s)) == Some(s)
  {
    if s != [] {
      DecodeEncode(s[1..]);
      DecodeEncodeChar(s[0], EncodeURIComponent(s[1..]));
      assert [s[0]] + s[1..] == s;
    }
  }
}
