/**
 * UTF-8, as `String.toByteArray(Charsets.UTF_8)` and
 * `ByteArray.toString(Charsets.UTF_8)` apply it to messages and to the
 * installation identifier carried in the advertisement.
 */
module Utf8 {
  import opened Ble

  /** U+FFFD, what the decoder yields for a byte that starts no well-formed sequence. */
  const REPLACEMENT: char := 0xFFFD as char

  predicate IsContinuation(b: byte) { 0x80 <= b < 0xC0 }

  /** The UTF-8 encoding of one Unicode scalar value. */
  function EncodeChar(c: char): (r: Bytes)
    ensures 1 <= |r| <= 4
    ensures |r| == 1 <==> (c as int) < 0x80
  {
    var cp := c as int;
    if cp < 0x80 then [cp as byte]
    else if cp < 0x800 then [(0xC0 + cp / 64) as byte, (0x80 + cp % 64) as byte]
    else if cp < 0x10000 then
      [(0xE0 + cp / 4096) as byte, (0x80 + (cp / 64) % 64) as byte, (0x80 + cp % 64) as byte]
    else
      [(0xF0 + cp / 262144) as byte, (0x80 + (cp / 4096) % 64) as byte,
       (0x80 + (cp / 64) % 64) as byte, (0x80 + cp % 64) as byte]
  }

  function Encode(s: string): (r: Bytes)
    ensures |r| >= |s|
    ensures r == [] <==> s == []
    ensures (forall i :: 0 <= i < |s| ==> (s[i] as int) < 0x80) ==> |r| == |s|
  {
    if s == [] then [] else EncodeChar(s[0]) + Encode(s[1..])
  }

  /**
   * The scalar value a well-formed sequence at the head of `b` encodes, with
   * the sequence's length; None when the head byte starts no well-formed
   * sequence (a stray continuation byte, an overlong form, a surrogate, a
   * value beyond U+10FFFF, or a sequence cut short).
   */
  function DecodeHead(b: Bytes): (r: Option<(char, nat)>)
    requires b != []
    ensures r.Some? ==> 1 <= r.value.1 <= |b| && r.value.1 <= 4
  {
    var b0 := b[0] as int;
    if b0 < 0x80 then Some((b0 as char, 1))
    else if 0xC2 <= b0 < 0xE0 && |b| >= 2 && IsContinuation(b[1]) then
      var cp := (b0 - 0xC0) * 64 + (b[1] as int - 0x80);
      Some((cp as char, 2))
    else if 0xE0 <= b0 < 0xF0 && |b| >= 3 && IsContinuation(b[1]) && IsContinuation(b[2]) then
      var cp := (b0 - 0xE0) * 4096 + (b[1] as int - 0x80) * 64 + (b[2] as int - 0x80);
      if 0x800 <= cp && !(0xD800 <= cp < 0xE000) then Some((cp as char, 3)) else None
    else if 0xF0 <= b0 < 0xF5 && |b| >= 4 && IsContinuation(b[1]) && IsContinuation(b[2]) && IsContinuation(b[3]) then
      var cp := (b0 - 0xF0) * 262144 + (b[1] as int - 0x80) * 4096 + (b[2] as int - 0x80) * 64 + (b[3] as int - 0x80);
      if 0x10000 <= cp < 0x110000 then Some((cp as char, 4)) else None
    else None
  }

  function Decode(b: Bytes): (r: string)
    ensures |r| <= |b|
    ensures r == [] <==> b == []
    decreases |b|
  {
    if b == [] then []
    else match DecodeHead(b)
      case None => [REPLACEMENT] + Decode(b[1..])
      case Some((c, n)) => [c] + Decode(b[n..])
  }

  /** The decoder reads back the first character of an encoding, and exactly its bytes. */
  lemma {:induction false} DecodeHeadEncodeChar(c: char, rest: Bytes)
    ensures DecodeHead(EncodeChar(c) + rest) == Some((c, |EncodeChar(c)|))
  {
    var cp := c as int;
    if cp < 0x80 {
    } else if cp < 0x800 {
      DecodeHeadTwo(c, rest);
    } else if cp < 0x10000 {
      DecodeHeadThree(c, rest);
    } else {
      DecodeHeadFour(c, rest);
    }
  }

  lemma {:induction false} DecodeHeadTwo(c: char, rest: Bytes)
    requires 0x80 <= c as int < 0x800
    ensures DecodeHead(EncodeChar(c) + rest) == Some((c, 2))
  {
    var cp := c as int;
    var e := EncodeChar(c) + rest;
    assert e[0] as int == 0xC0 + cp / 64 && e[1] as int == 0x80 + cp % 64;
    assert (cp / 64) * 64 + cp % 64 == cp;
  }

  lemma {:induction false} DecodeHeadThree(c: char, rest: Bytes)
    requires 0x800 <= c as int < 0x10000
    ensures DecodeHead(EncodeChar(c) + rest) == Some((c, 3))
  {
    var cp := c as int;
    var e := EncodeChar(c) + rest;
    var q := cp / 64;
    assert e[0] as int == 0xE0 + cp / 4096 && e[1] as int == 0x80 + q % 64 && e[2] as int == 0x80 + cp % 64;
    assert cp / 4096 == q / 64;
    assert q * 64 + cp % 64 == cp;
    assert (q / 64) * 64 + q % 64 == q;
  }

  lemma {:induction false} DecodeHeadFour(c: char, rest: Bytes)
    requires 0x10000 <= c as int
    ensures DecodeHead(EncodeChar(c) + rest) == Some((c, 4))
  {
    var cp := c as int;
    var e := EncodeChar(c) + rest;
    var q := cp / 64;
    var q2 := q / 64;
    assert e[0] as int == 0xF0 + cp / 262144 && e[1] as int == 0x80 + (cp / 4096) % 64;
    assert e[2] as int == 0x80 + q % 64 && e[3] as int == 0x80 + cp % 64;
    assert cp / 4096 == q2;
    assert cp / 262144 == q2 / 64;
    assert q * 64 + cp % 64 == cp;
    assert q2 * 64 + q % 64 == q;
    assert (q2 / 64) * 64 + q2 % 64 == q2;
  }

  /** Decoding undoes encoding: every string survives the byte round trip. */
  lemma {:induction false} DecodeEncode(s: string)
    ensures Decode(Encode(s)) == s
  {
    if s != [] {
      var head := EncodeChar(s[0]);
      var tail := Encode(s[1..]);
      DecodeHeadEncodeChar(s[0], tail);
      assert (head + tail)[|head|..] == tail;
      DecodeEncode(s[1..]);
    }
  }
}
