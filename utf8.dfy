/**
 * Bytes and the UTF-8 boundary of Swift strings.
 *
 * `String.data(using: .utf8)` is total on Swift strings (Encode below), and
 * `String(data:encoding: .utf8)` is a strict decoder that gives nil on a byte
 * sequence that is not well-formed UTF-8 (Decode below). Dafny's `char` is a
 * Unicode scalar value, as a Swift `Unicode.Scalar` is.
 */
module Utf8 {
  import opened Wrappers

  /** One byte of a Foundation `Data`. */
  type uint8 = x: int | 0 <= x < 0x100

  predicate IsScalarValue(n: int) {
    0 <= n < 0xD800 || 0xE000 <= n < 0x11_0000
  }

  predicate IsAscii(s: string) {
    forall i :: 0 <= i < |s| ==> s[i] as int < 0x80
  }

  /** The UTF-8 bytes of one scalar value (RFC 3629, section 3). */
  function EncodeScalar(c: char): (bs: seq<uint8>)
    ensures 1 <= |bs| <= 4
    ensures (c as int < 0x80) <==> |bs| == 1
    ensures c as int < 0x80 ==> bs == [c as int]
  {
    var n := c as int;
    if n < 0x80 then
      [n]
    else if n < 0x800 then
      [0xC0 + n / 0x40, 0x80 + n % 0x40]
    else if n < 0x1_0000 then
      var q := n / 0x40;
      [0xE0 + q / 0x40, 0x80 + q % 0x40, 0x80 + n % 0x40]
    else
      var q := n / 0x40;
      var q2 := q / 0x40;
      [0xF0 + q2 / 0x40, 0x80 + q2 % 0x40, 0x80 + q % 0x40, 0x80 + n % 0x40]
  }

  /** `String.data(using: .utf8)`, which never returns nil for a Swift string. */
  function Encode(s: string): seq<uint8> {
    if s == [] then [] else EncodeScalar(s[0]) + Encode(s[1..])
  }

  predicate IsContinuation(b: uint8) {
    0x80 <= b < 0xC0
  }

  /**
   * Decodes the scalar value at the head of `bs`, giving it and the number of
   * bytes it takes, or None when the head is not a well-formed UTF-8 sequence
   * (a stray continuation byte, a truncated sequence, an overlong form, a
   * surrogate or a value above U+10FFFF).
   */
  function DecodeFirst(bs: seq<uint8>): (r: Option<(char, nat)>)
    ensures r.Some? ==> 1 <= r.value.1 <= |bs|
  {
    if |bs| == 0 then None
    else if bs[0] < 0x80 then
      Some((bs[0] as char, 1))
    else if 0xC0 <= bs[0] < 0xE0 then
      if |bs| >= 2 && IsContinuation(bs[1]) then
        var n := (bs[0] as int - 0xC0) * 0x40 + (bs[1] as int - 0x80);
        if 0x80 <= n then Some((n as char, 2)) else None
      else None
    else if 0xE0 <= bs[0] < 0xF0 then
      if |bs| >= 3 && IsContinuation(bs[1]) && IsContinuation(bs[2]) then
        var n := (bs[0] as int - 0xE0) * 0x1000 + (bs[1] as int - 0x80) * 0x40 + (bs[2] as int - 0x80);
        if 0x800 <= n && IsScalarValue(n) then Some((n as char, 3)) else None
      else None
    else if 0xF0 <= bs[0] < 0xF8 then
      if |bs| >= 4 && IsContinuation(bs[1]) && IsContinuation(bs[2]) && IsContinuation(bs[3]) then
        var n := (bs[0] as int - 0xF0) * 0x4_0000 + (bs[1] as int - 0x80) * 0x1000 + (bs[2] as int - 0x80) * 0x40 + (bs[3] as int - 0x80);
        if 0x1_0000 <= n < 0x11_0000 then Some((n as char, 4)) else None
      else None
    else None
  }

  /** `String(data: bs, encoding: .utf8)`: nil unless `bs` is well-formed UTF-8. */
  function Decode(bs: seq<uint8>): Option<string>
    decreases |bs|
  {
    if bs == [] then Some("")
    else
      match DecodeFirst(bs)
      case None => None
      case Some((c, k)) =>
        var rest :- Decode(bs[k..]);
        Some([c] + rest)
  }

  lemma DecodeFirstOfEncodeScalar(c: char, rest: seq<uint8>)
    ensures DecodeFirst(EncodeScalar(c) + rest) == Some((c, |EncodeScalar(c)|))
  {
    var n := c as int;
    var bs := EncodeScalar(c) + rest;
    if n < 0x80 {
    } else if n < 0x800 {
      assert bs[0] == 0xC0 + n / 0x40 && bs[1] == 0x80 + n % 0x40;
      assert (bs[0] as int - 0xC0) * 0x40 + (bs[1] as int - 0x80) == n;
    } else if n < 0x1_0000 {
      var q := n / 0x40;
      assert bs[0] == 0xE0 + q / 0x40 && bs[1] == 0x80 + q % 0x40 && bs[2] == 0x80 + n % 0x40;
      assert (bs[0] as int - 0xE0) * 0x1000 + (bs[1] as int - 0x80) * 0x40 + (bs[2] as int - 0x80) == n;
    } else {
      var q := n / 0x40;
      var q2 := q / 0x40;
      assert bs[0] == 0xF0 + q2 / 0x40 && bs[1] == 0x80 + q2 % 0x40;
      assert bs[2] == 0x80 + q % 0x40 && bs[3] == 0x80 + n % 0x40;
      assert (bs[0] as int - 0xF0) * 0x4_0000 + (bs[1] as int - 0x80) * 0x1000 + (bs[2] as int - 0x80) * 0x40 + (bs[3] as int - 0x80) == n;
    }
  }

  /** Decoding the UTF-8 bytes of a string gives the string back. */
  lemma {:induction false} DecodeEncode(s: string)
    ensures Decode(Encode(s)) == Some(s)
  {
    if s != [] {
      var head := EncodeScalar(s[0]);
      var tail := Encode(s[1..]);
      DecodeFirstOfEncodeScalar(s[0], tail);
      assert (head + tail)[|head|..] == tail;
      DecodeEncode(s[1..]);
      assert [s[0]] + s[1..] == s;
    }
  }

  lemma EncodeScalarOfDecodeFirst(bs: seq<uint8>)
    requires DecodeFirst(bs).Some?
    ensures EncodeScalar(DecodeFirst(bs).value.0) == bs[..DecodeFirst(bs).value.1]
  {
    var b0 := bs[0] as int;
    if b0 < 0x80 {
    } else if b0 < 0xE0 {
      var n := (b0 - 0xC0) * 0x40 + (bs[1] as int - 0x80);
      assert n / 0x40 == b0 - 0xC0 && n % 0x40 == bs[1] as int - 0x80;
    } else if b0 < 0xF0 {
      var n := (b0 - 0xE0) * 0x1000 + (bs[1] as int - 0x80) * 0x40 + (bs[2] as int - 0x80);
      var q := n / 0x40;
      assert q == (b0 - 0xE0) * 0x40 + (bs[1] as int - 0x80) && n % 0x40 == bs[2] as int - 0x80;
      assert q / 0x40 == b0 - 0xE0 && q % 0x40 == bs[1] as int - 0x80;
    } else {
      var n := (b0 - 0xF0) * 0x4_0000 + (bs[1] as int - 0x80) * 0x1000 + (bs[2] as int - 0x80) * 0x40 + (bs[3] as int - 0x80);
      var q := n / 0x40;
      var q2 := q / 0x40;
      assert q == (b0 - 0xF0) * 0x1000 + (bs[1] as int - 0x80) * 0x40 + (bs[2] as int - 0x80) && n % 0x40 == bs[3] as int - 0x80;
      assert q2 == (b0 - 0xF0) * 0x40 + (bs[1] as int - 0x80) && q % 0x40 == bs[2] as int - 0x80;
      assert q2 / 0x40 == b0 - 0xF0 && q2 % 0x40 == bs[1] as int - 0x80;
    }
  }

  /** Decoding succeeds only on the UTF-8 bytes of the string it gives. */
  lemma {:induction false} EncodeDecode(bs: seq<uint8>)
    requires Decode(bs).Some?
    ensures Encode(Decode(bs).value) == bs
  {
    if bs != [] {
      var (c, k) := DecodeFirst(bs).value;
      EncodeScalarOfDecodeFirst(bs);
      EncodeDecode(bs[k..]);
      var s := Decode(bs).value;
      assert s == [c] + Decode(bs[k..]).value;
      assert s[0] == c && s[1..] == Decode(bs[k..]).value;
      assert bs == bs[..k] + bs[k..];
    }
  }

  /** Decode is exactly the inverse of Encode. */
  lemma DecodeIff(bs: seq<uint8>, s: string)
    ensures Decode(bs) == Some(s) <==> Encode(s) == bs
  {
    if Decode(bs) == Some(s) {
      EncodeDecode(bs);
    }
    if Encode(s) == bs {
      DecodeEncode(s);
    }
  }

  /** The UTF-8 bytes of an ASCII string are its characters' code points, one per character. */
  lemma {:induction false} EncodeAscii(s: string)
    requires IsAscii(s)
    ensures |Encode(s)| == |s|
    ensures forall i :: 0 <= i < |s| ==> Encode(s)[i] == s[i] as int
  {
    if s != [] {
      assert IsAscii(s[1..]) by {
        forall i | 0 <= i < |s[1..]| ensures s[1..][i] as int < 0x80 {
          assert s[1..][i] == s[i + 1];
        }
      }
      EncodeAscii(s[1..]);
      assert s[0] as int < 0x80;
    }
  }
}
