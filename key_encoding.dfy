/**
 * The `encodedKey` text form of agreement keys
 * (Sources/NeedleTailCrypto/Extensions/PrivateKey+Extension.swift and
 * PublicKey+Extension.swift): the key's raw bytes in base64 (section 4 of
 * RFC 4648), percent-encoded with the alphanumerics as the allowed set
 * (section 2.1 of RFC 3986), which leaves `+`, `/` and `=` as `%2B`, `%2F`
 * and `%3D`.
 *
 * Each operation has its inverse here: Base64Decode, PercentDecode and
 * KeyStringDecode, which undoes `encodedKey`.
 */
module KeyEncoding {
  import opened Wrappers
  import opened Utf8

  // ---------------------------------------------------------------- base64

  /** The character of a 6-bit value in the base64 alphabet (RFC 4648, section 4, table 1). */
  function Base64Char(v: int): char
    requires 0 <= v < 64
  {
    if v < 26 then ('A' as int + v) as char
    else if v < 52 then ('a' as int + (v - 26)) as char
    else if v < 62 then ('0' as int + (v - 52)) as char
    else if v == 62 then '+'
    else '/'
  }

  predicate IsBase64Char(c: char) {
    ('A' <= c <= 'Z') || ('a' <= c <= 'z') || ('0' <= c <= '9') || c == '+' || c == '/'
  }

  /** The 6-bit value of a base64 character. */
  function Base64Value(c: char): (v: int)
    requires IsBase64Char(c)
    ensures 0 <= v < 64 && Base64Char(v) == c
  {
    if 'A' <= c <= 'Z' then c as int - 'A' as int
    else if 'a' <= c <= 'z' then c as int - 'a' as int + 26
    else if '0' <= c <= '9' then c as int - '0' as int + 52
    else if c == '+' then 62
    else 63
  }

  lemma Base64CharValue(v: int)
    requires 0 <= v < 64
    ensures IsBase64Char(Base64Char(v)) && Base64Value(Base64Char(v)) == v
  {
  }

  /** The four characters of one group of one to three bytes, padded with `=` (RFC 4648, section 4). */
  function EncodeGroup(g: seq<uint8>): (s: string)
    requires 1 <= |g| <= 3
    ensures |s| == 4
  {
    var b0 := g[0] as int;
    var b1 := if |g| > 1 then g[1] as int else 0;
    var b2 := if |g| > 2 then g[2] as int else 0;
    [ Base64Char(b0 / 4),
      Base64Char(b0 % 4 * 16 + b1 / 16),
      if |g| > 1 then Base64Char(b1 % 16 * 4 + b2 / 64) else '=',
      if |g| > 2 then Base64Char(b2 % 64) else '=' ]
  }

  /** `Data.base64EncodedString()`. */
  function Base64Encode(bs: seq<uint8>): (s: string)
    ensures |s| == 4 * ((|bs| + 2) / 3)
    decreases |bs|
  {
    if |bs| == 0 then ""
    else if |bs| <= 3 then EncodeGroup(bs)
    else EncodeGroup(bs[..3]) + Base64Encode(bs[3..])
  }

  /** The bytes of one group of four characters, or None when it is not a group Base64Encode writes. */
  function DecodeGroup(s: string): Option<seq<uint8>>
    requires |s| == 4
  {
    if !IsBase64Char(s[0]) || !IsBase64Char(s[1]) then None
    else
      var v0 := Base64Value(s[0]);
      var v1 := Base64Value(s[1]);
      var b0 := v0 * 4 + v1 / 16;
      if s[2] == '=' && s[3] == '=' then
        if v1 % 16 == 0 then Some([b0]) else None
      else if IsBase64Char(s[2]) && s[3] == '=' then
        var v2 := Base64Value(s[2]);
        if v2 % 4 == 0 then Some([b0, v1 % 16 * 16 + v2 / 4]) else None
      else if IsBase64Char(s[2]) && IsBase64Char(s[3]) then
        var v2 := Base64Value(s[2]);
        var v3 := Base64Value(s[3]);
        Some([b0, v1 % 16 * 16 + v2 / 4, v2 % 4 * 64 + v3])
      else None
  }

  /** A strict RFC 4648 decoder, the inverse of Base64Encode: padding only in the last group, with zero padding bits, and the text a multiple of four long. */
  function Base64Decode(s: string): Option<seq<uint8>>
    decreases |s|
  {
    if s == [] then Some([])
    else if |s| < 4 then None
    else
      var first :- DecodeGroup(s[..4]);
      if |s| > 4 && |first| < 3 then None
      else
        var rest :- Base64Decode(s[4..]);
        Some(first + rest)
  }

  /** The 6-bit values of a group split its bytes at the right bits. */
  lemma SextetsOfBytes(b0: int, b1: int, b2: int)
    requires 0 <= b0 < 0x100 && 0 <= b1 < 0x100 && 0 <= b2 < 0x100
    ensures var v1 := b0 % 4 * 16 + b1 / 16; b0 / 4 * 4 + v1 / 16 == b0 && v1 % 16 == b1 / 16
    ensures var v2 := b1 % 16 * 4 + b2 / 64; v2 / 4 == b1 % 16 && v2 % 4 == b2 / 64
    ensures b1 / 16 * 16 + b1 % 16 == b1 && b2 / 64 * 64 + b2 % 64 == b2
  {
  }

  lemma DecodeEncodeGroup(g: seq<uint8>)
    requires 1 <= |g| <= 3
    ensures DecodeGroup(EncodeGroup(g)) == Some(g)
  {
    var b0 := g[0] as int;
    var b1 := if |g| > 1 then g[1] as int else 0;
    var b2 := if |g| > 2 then g[2] as int else 0;
    var v0, v1, v2, v3 := b0 / 4, b0 % 4 * 16 + b1 / 16, b1 % 16 * 4 + b2 / 64, b2 % 64;
    SextetsOfBytes(b0, b1, b2);
    Base64CharValue(v0);
    Base64CharValue(v1);
    Base64CharValue(v2);
    Base64CharValue(v3);
    var s := EncodeGroup(g);
    assert s[0] == Base64Char(v0) && s[1] == Base64Char(v1);
    if |g| == 1 {
      assert s[2] == '=' && s[3] == '=';
      assert [b0] == g;
    } else if |g| == 2 {
      assert s[2] == Base64Char(v2) && s[3] == '=';
      assert [b0, b1] == g;
    } else {
      assert s[2] == Base64Char(v2) && s[3] == Base64Char(v3);
      assert [b0, b1, b2] == g;
    }
  }

  /** Decoding the base64 text of some bytes gives the bytes back. */
  lemma {:induction false} Base64RoundTrip(bs: seq<uint8>)
    ensures Base64Decode(Base64Encode(bs)) == Some(bs)
    decreases |bs|
  {
    if |bs| == 0 {
    } else if |bs| <= 3 {
      DecodeEncodeGroup(bs);
      var s := EncodeGroup(bs);
      assert s[..4] == s && s[4..] == [];
      assert bs + [] == bs;
    } else {
      var head := EncodeGroup(bs[..3]);
      var tail := Base64Encode(bs[3..]);
      var s := head + tail;
      assert s[..4] == head && s[4..] == tail;
      DecodeEncodeGroup(bs[..3]);
      Base64RoundTrip(bs[3..]);
      assert bs[..3] + bs[3..] == bs;
    }
  }

  /** The number of `=` characters that end the base64 text of `n` bytes. */
  function PadCount(n: nat): nat {
    (3 - n % 3) % 3
  }

  lemma PadCountShift(n: nat)
    requires n >= 3
    ensures PadCount(n - 3) == PadCount(n)
  {
    assert (n - 3) % 3 == n % 3;
  }

  function Repeat(s: string, k: nat): (r: string)
    ensures |r| == k * |s|
  {
    if k == 0 then "" else s + Repeat(s, k - 1)
  }

  function NonAlnumCount(s: string): nat {
    if s == [] then 0 else (if IsAsciiAlnum(s[0]) then 0 else 1) + NonAlnumCount(s[1..])
  }

  lemma GroupShape(g: seq<uint8>) returns (body: string)
    requires 1 <= |g| <= 3
    ensures EncodeGroup(g) == body + Repeat("=", PadCount(|g|))
    ensures IsBase64Text(body)
    ensures |g| == 3 ==> body == EncodeGroup(g)
  {
    var s := EncodeGroup(g);
    var b0 := g[0] as int;
    var b1 := if |g| > 1 then g[1] as int else 0;
    var b2 := if |g| > 2 then g[2] as int else 0;
    Base64CharValue(b0 / 4);
    Base64CharValue(b0 % 4 * 16 + b1 / 16);
    Base64CharValue(b1 % 16 * 4 + b2 / 64);
    Base64CharValue(b2 % 64);
    if |g| == 1 {
      body := s[..2];
      assert Repeat("=", 2) == "==";
    } else if |g| == 2 {
      body := s[..3];
      assert Repeat("=", 1) == "=";
    } else {
      body := s;
      assert Repeat("=", 0) == "";
    }
    assert s == body + Repeat("=", PadCount(|g|));
  }

  /** A text in the base64 alphabet, without padding. */
  predicate IsBase64Text(s: string) {
    forall i :: 0 <= i < |s| ==> IsBase64Char(s[i])
  }

  lemma Base64TextConcat(s: string, t: string)
    requires IsBase64Text(s) && IsBase64Text(t)
    ensures IsBase64Text(s + t)
  {
    forall i | 0 <= i < |s + t| ensures IsBase64Char((s + t)[i]) {
      if i >= |s| {
        assert (s + t)[i] == t[i - |s|];
      }
    }
  }

  /**
   * The base64 text of `bs` is a body in the alphabet followed by exactly
   * PadCount(|bs|) `=` characters.
   */
  lemma {:induction false} Base64Shape(bs: seq<uint8>) returns (body: string)
    ensures Base64Encode(bs) == body + Repeat("=", PadCount(|bs|))
    ensures IsBase64Text(body)
    decreases |bs|
  {
    if |bs| == 0 {
      body := "";
    } else if |bs| <= 3 {
      body := GroupShape(bs);
    } else {
      var head := GroupShape(bs[..3]);
      var rest := Base64Shape(bs[3..]);
      Base64TextConcat(head, rest);
      body := head + rest;
      var pads := Repeat("=", PadCount(|bs|));
      PadCountShift(|bs|);
      calc {
        Base64Encode(bs);
        head + Base64Encode(bs[3..]);
        head + (rest + pads);
        body + pads;
      }
    }
  }

  // ------------------------------------------------------ percent encoding

  /** Membership in the allowed set: the ASCII letters and digits. */
  predicate IsAsciiAlnum(c: char) {
    ('A' <= c <= 'Z') || ('a' <= c <= 'z') || ('0' <= c <= '9')
  }

  /** An upper-case hexadecimal digit (RFC 3986, section 2.1 recommends upper case). */
  function HexDigitUpper(v: int): char
    requires 0 <= v < 16
  {
    if v < 10 then ('0' as int + v) as char else ('A' as int + (v - 10)) as char
  }

  predicate IsHexDigit(c: char) {
    ('0' <= c <= '9') || ('A' <= c <= 'F') || ('a' <= c <= 'f')
  }

  /** The value of a hexadecimal digit of either case. */
  function HexValue(c: char): (v: int)
    requires IsHexDigit(c)
    ensures 0 <= v < 16
  {
    if '0' <= c <= '9' then c as int - '0' as int
    else if 'A' <= c <= 'F' then c as int - 'A' as int + 10
    else c as int - 'a' as int + 10
  }

  /** Each byte as a percent-encoded triplet `%XY`. */
  function PercentEscapeBytes(bs: seq<uint8>): (s: string)
    ensures |s| == 3 * |bs|
  {
    if bs == [] then "" else ['%', HexDigitUpper(bs[0] / 16), HexDigitUpper(bs[0] % 16)] + PercentEscapeBytes(bs[1..])
  }

  /** What one character becomes: itself when allowed, otherwise its UTF-8 bytes as triplets. */
  function EncodeChar(c: char): string {
    if IsAsciiAlnum(c) then [c] else PercentEscapeBytes(EncodeScalar(c))
  }

  /** `addingPercentEncoding(withAllowedCharacters: .alphanumerics)`, for ASCII letters and digits. */
  function PercentEncodeAlnum(s: string): (r: string)
    ensures |r| >= |s|
    // the text is left as it is exactly when every character is allowed; otherwise it grows
    ensures |r| == |s| <==> forall i | 0 <= i < |s| :: IsAsciiAlnum(s[i])
    ensures |r| == |s| ==> r == s
  {
    if s == [] then ""
    else
      var tail := PercentEncodeAlnum(s[1..]);
      assert (forall i | 0 <= i < |s| :: IsAsciiAlnum(s[i])) <==>
        IsAsciiAlnum(s[0]) && forall i | 0 <= i < |s[1..]| :: IsAsciiAlnum(s[1..][i]) by {
        forall i | 0 < i < |s| ensures s[i] == s[1..][i - 1] { }
      }
      assert s == [s[0]] + s[1..];
      EncodeChar(s[0]) + tail
  }

  /** The bytes a percent-encoded text stands for: triplets are bytes, other characters their UTF-8 bytes. */
  function PercentDecodeBytes(s: string): Option<seq<uint8>>
    decreases |s|
  {
    if s == [] then Some([])
    else if s[0] == '%' then
      if |s| >= 3 && IsHexDigit(s[1]) && IsHexDigit(s[2]) then
        var rest :- PercentDecodeBytes(s[3..]);
        Some([HexValue(s[1]) * 16 + HexValue(s[2])] + rest)
      else None
    else
      var rest :- PercentDecodeBytes(s[1..]);
      Some(EncodeScalar(s[0]) + rest)
  }

  /** `removingPercentEncoding`: None on a broken triplet or bytes that are not UTF-8. */
  function PercentDecode(s: string): Option<string> {
    var bytes :- PercentDecodeBytes(s);
    Decode(bytes)
  }

  lemma HexDigitRoundTrip(v: int)
    requires 0 <= v < 16
    ensures IsHexDigit(HexDigitUpper(v)) && HexValue(HexDigitUpper(v)) == v
  {
  }

  lemma {:induction false} PercentDecodeEscaped(bs: seq<uint8>, t: string, r: seq<uint8>)
    requires PercentDecodeBytes(t) == Some(r)
    ensures PercentDecodeBytes(PercentEscapeBytes(bs) + t) == Some(bs + r)
  {
    if bs != [] {
      var b := bs[0] as int;
      var rest := PercentEscapeBytes(bs[1..]) + t;
      var s := PercentEscapeBytes(bs) + t;
      assert s == ['%', HexDigitUpper(b / 16), HexDigitUpper(b % 16)] + rest;
      assert s[0] == '%' && s[1] == HexDigitUpper(b / 16) && s[2] == HexDigitUpper(b % 16) && s[3..] == rest;
      PercentDecodeEscaped(bs[1..], t, r);
      HexDigitRoundTrip(b / 16);
      HexDigitRoundTrip(b % 16);
      assert HexValue(s[1]) * 16 + HexValue(s[2]) == b;
      assert [bs[0]] + (bs[1..] + r) == bs + r;
    } else {
      assert PercentEscapeBytes(bs) + t == t && bs + r == r;
    }
  }

  lemma {:induction false} PercentDecodeBytesOfEncode(s: string)
    ensures PercentDecodeBytes(PercentEncodeAlnum(s)) == Some(Encode(s))
  {
    if s != [] {
      var c := s[0];
      var tail := PercentEncodeAlnum(s[1..]);
      PercentDecodeBytesOfEncode(s[1..]);
      if IsAsciiAlnum(c) {
        var t := [c] + tail;
        assert t[0] == c && t[1..] == tail;
      } else {
        PercentDecodeEscaped(EncodeScalar(c), tail, Encode(s[1..]));
      }
    }
  }

  /** Percent-decoding undoes the percent-encoding of any string. */
  lemma PercentRoundTrip(s: string)
    ensures PercentDecode(PercentEncodeAlnum(s)) == Some(s)
  {
    PercentDecodeBytesOfEncode(s);
    DecodeEncode(s);
  }

  /**
   * `addingPercentEncoding(withAllowedCharacters:)` itself. It gives nil only
   * on text that is not valid Unicode, which a Swift string never is, and a
   * result that percent-decodes to the input.
   */
  function AddingPercentEncoding(s: string): (r: Option<string>)
    ensures r.Some? && PercentDecode(r.value) == Some(s)
  {
    PercentRoundTrip(s);
    Some(PercentEncodeAlnum(s))
  }

  lemma {:induction false} PercentEncodeConcat(s: string, t: string)
    ensures PercentEncodeAlnum(s + t) == PercentEncodeAlnum(s) + PercentEncodeAlnum(t)
  {
    if s == [] {
      assert s + t == t;
    } else {
      assert (s + t)[0] == s[0] && (s + t)[1..] == s[1..] + t;
      PercentEncodeConcat(s[1..], t);
    }
  }

  lemma {:induction false} PercentEncodePads(k: nat)
    ensures PercentEncodeAlnum(Repeat("=", k)) == Repeat("%3D", k)
  {
    if k > 0 {
      assert Repeat("=", k) == "=" + Repeat("=", k - 1);
      PercentEncodeConcat("=", Repeat("=", k - 1));
      PercentEncodePads(k - 1);
    }
  }

  /** Each percent sign of `t` starts the triplet of `+` or `/` (`second` is false) or also of `=` (`second` is true). */
  predicate EscapesOf(t: string, pads: bool) {
    forall i {:trigger t[i]} | 0 <= i < |t| && t[i] == '%' ::
      i + 2 < |t| && ((t[i + 1] == '2' && (t[i + 2] == 'B' || t[i + 2] == 'F')) || (pads && t[i + 1] == '3' && t[i + 2] == 'D'))
  }

  predicate AlnumOrPercent(t: string) {
    forall i :: 0 <= i < |t| ==> IsAsciiAlnum(t[i]) || t[i] == '%'
  }

  lemma EscapesConcat(a: string, b: string, pads: bool)
    requires EscapesOf(a, pads) && EscapesOf(b, pads)
    ensures EscapesOf(a + b, pads)
  {
    var t := a + b;
    forall i | 0 <= i < |t| && t[i] == '%'
      ensures i + 2 < |t| && ((t[i + 1] == '2' && (t[i + 2] == 'B' || t[i + 2] == 'F')) || (pads && t[i + 1] == '3' && t[i + 2] == 'D'))
    {
      if i < |a| {
        assert a[i] == '%';
        assert t[i + 1] == a[i + 1] && t[i + 2] == a[i + 2];
      } else {
        var j := i - |a|;
        assert b[j] == '%';
        assert t[i + 1] == b[j + 1] && t[i + 2] == b[j + 2];
      }
    }
  }

  /** The percent-encoding of a text in the base64 alphabet, `=` included when `pads`. */
  lemma {:induction false} EncodeBase64Text(s: string, pads: bool)
    requires forall i :: 0 <= i < |s| ==> IsBase64Char(s[i]) || (pads && s[i] == '=')
    ensures EscapesOf(PercentEncodeAlnum(s), pads) && AlnumOrPercent(PercentEncodeAlnum(s))
    ensures |PercentEncodeAlnum(s)| == |s| + 2 * NonAlnumCount(s)
  {
    if s != [] {
      var c := s[0];
      var head := EncodeChar(c);
      assert forall i :: 0 <= i < |s[1..]| ==> IsBase64Char(s[1..][i]) || (pads && s[1..][i] == '=') by {
        forall i | 0 <= i < |s[1..]| ensures IsBase64Char(s[1..][i]) || (pads && s[1..][i] == '=') {
          assert s[1..][i] == s[i + 1];
        }
      }
      EncodeBase64Text(s[1..], pads);
      assert EscapesOf(head, pads) && AlnumOrPercent(head) && |head| == 1 + 2 * (if IsAsciiAlnum(c) then 0 else 1) by {
        if c == '+' {
          assert head == "%2B";
        } else if c == '/' {
          assert head == "%2F";
        } else if c == '=' {
          assert head == "%3D";
        }
      }
      EscapesConcat(head, PercentEncodeAlnum(s[1..]), pads);
      var tail := PercentEncodeAlnum(s[1..]);
      assert AlnumOrPercent(head + tail) by {
        forall i | 0 <= i < |head + tail| ensures IsAsciiAlnum((head + tail)[i]) || (head + tail)[i] == '%' {
          if i >= |head| {
            assert (head + tail)[i] == tail[i - |head|];
          }
        }
      }
    }
  }

  /** The number of `%3D` triplets that end `t`. */
  function TrailingEscapedPads(t: string): nat
    decreases |t|
  {
    if |t| >= 3 && t[|t| - 3..] == "%3D" then 1 + TrailingEscapedPads(t[..|t| - 3]) else 0
  }

  lemma {:induction false} TrailingEscapedPadsAppend(t: string, k: nat)
    requires EscapesOf(t, false)
    ensures TrailingEscapedPads(t + Repeat("%3D", k)) == k
  {
    if k == 0 {
      assert t + Repeat("%3D", k) == t;
      if |t| >= 3 && t[|t| - 3] == '%' {
        assert t[|t| - 2] == '2';
        assert t[|t| - 3..][1] == '2';
      }
    } else {
      var u := t + Repeat("%3D", k);
      assert Repeat("%3D", k) == Repeat("%3D", k - 1) + "%3D" by {
        RepeatSnoc("%3D", k);
      }
      assert u == (t + Repeat("%3D", k - 1)) + "%3D";
      assert u[|u| - 3..] == "%3D" && u[..|u| - 3] == t + Repeat("%3D", k - 1);
      TrailingEscapedPadsAppend(t, k - 1);
    }
  }

  lemma {:induction false} RepeatSnoc(s: string, k: nat)
    requires k > 0
    ensures Repeat(s, k) == Repeat(s, k - 1) + s
  {
    if k > 1 {
      RepeatSnoc(s, k - 1);
      assert Repeat(s, k) == s + (Repeat(s, k - 2) + s);
    }
  }

  // ------------------------------------------------------------ encodedKey

  /**
   * The `encodedKey` of a key whose `rawRepresentation` is `raw`. The
   * fallback to the bare base64 text is never taken.
   */
  function EncodedKeyOf(raw: seq<uint8>): (text: string)
    ensures text == PercentEncodeAlnum(Base64Encode(raw))
  {
    var base64 := Base64Encode(raw);
    AddingPercentEncoding(base64).GetOr(base64)
  }

  /** The raw bytes an `encodedKey` text stands for, or None when it is not one. */
  function KeyStringDecode(text: string): Option<seq<uint8>> {
    var base64 :- PercentDecode(text);
    Base64Decode(base64)
  }

  /** Decoding an `encodedKey` gives the raw key back. */
  lemma EncodedKeyRoundTrip(raw: seq<uint8>)
    ensures KeyStringDecode(EncodedKeyOf(raw)) == Some(raw)
  {
    Base64RoundTrip(raw);
  }

  /** Two keys with the same `encodedKey` have the same raw bytes. */
  lemma EncodedKeyInjective(raw1: seq<uint8>, raw2: seq<uint8>)
    requires EncodedKeyOf(raw1) == EncodedKeyOf(raw2)
    ensures raw1 == raw2
  {
    EncodedKeyRoundTrip(raw1);
    EncodedKeyRoundTrip(raw2);
  }

  /**
   * An `encodedKey` holds only ASCII letters, digits and `%`, each `%` opens
   * `%2B`, `%2F` or `%3D`, it ends with exactly PadCount(|raw|) `%3D`
   * triplets, and it is two characters longer than the base64 text per
   * escaped character.
   */
  lemma EncodedKeyShape(raw: seq<uint8>)
    ensures AlnumOrPercent(EncodedKeyOf(raw))
    ensures EscapesOf(EncodedKeyOf(raw), true)
    ensures TrailingEscapedPads(EncodedKeyOf(raw)) == PadCount(|raw|)
    ensures |EncodedKeyOf(raw)| == 4 * ((|raw| + 2) / 3) + 2 * NonAlnumCount(Base64Encode(raw))
  {
    var base64 := Base64Encode(raw);
    var body := Base64Shape(raw);
    var k := PadCount(|raw|);
    EncodeBase64Text(base64, true);
    EncodeBase64Text(body, false);
    PercentEncodeConcat(body, Repeat("=", k));
    PercentEncodePads(k);
    TrailingEscapedPadsAppend(PercentEncodeAlnum(body), k);
  }

  /** A key of at least one byte has a non-empty `encodedKey`. */
  lemma EncodedKeyNonEmpty(raw: seq<uint8>)
    requires |raw| > 0
    ensures |EncodedKeyOf(raw)| >= 4
  {
    EncodedKeyShape(raw);
  }

  /** A 32-byte key (Curve25519, or a P-256 private key) ends with exactly one `%3D`. */
  lemma EncodedKey32(raw: seq<uint8>)
    requires |raw| == 32
    ensures TrailingEscapedPads(EncodedKeyOf(raw)) == 1
    ensures |EncodedKeyOf(raw)| == 44 + 2 * NonAlnumCount(Base64Encode(raw))
  {
    EncodedKeyShape(raw);
  }

  // ----------------------------------------------------------- key types

  /** The curves of the four `KeyAgreement` namespaces. */
  datatype Curve = Curve25519 | P256 | P384 | P521

  /** `<curve>.KeyAgreement.PrivateKey`, known by its raw bytes. */
  datatype AgreementPrivateKey = AgreementPrivateKey(curve: Curve, rawRepresentation: seq<uint8>) {
    /** `encodedKey`, the same computation for every curve. */
    function EncodedKey(): (text: string)
      ensures KeyStringDecode(text) == Some(rawRepresentation)
    {
      EncodedKeyRoundTrip(rawRepresentation);
      EncodedKeyOf(rawRepresentation)
    }
  }

  /** `<curve>.KeyAgreement.PublicKey`, known by its raw bytes. */
  datatype AgreementPublicKey = AgreementPublicKey(curve: Curve, rawRepresentation: seq<uint8>) {
    /** `encodedKey`, the same computation for every curve. */
    function EncodedKey(): (text: string)
      ensures KeyStringDecode(text) == Some(rawRepresentation)
    {
      EncodedKeyRoundTrip(rawRepresentation);
      EncodedKeyOf(rawRepresentation)
    }
  }
}
