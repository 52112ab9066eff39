/**
 * Byte strings and the two text codecs the protocol relies on:
 * lowercase hexadecimal (binascii.hexlify / unhexlify, hashlib's hexdigest)
 * and UTF-8 (str.encode('utf8')).
 */
module Codec {

  type byte = x: int | 0 <= x < 256

  datatype Option<+T> = None | Some(value: T)

  /** An all-zero byte string, as `b'\x00' * size` builds it. */
  function Zeros(size: int): (z: seq<byte>)
    ensures |z| == (if size > 0 then size else 0)
    ensures forall i :: 0 <= i < |z| ==> z[i] == 0
  {
    if size <= 0 then [] else seq(size, _ => 0)
  }

  // ---------------------------------------------------------------------
  // Hexadecimal
  // ---------------------------------------------------------------------

  /** The lowercase hex digit for a nibble. */
  function HexDigit(v: nat): (c: char)
    requires v < 16
    ensures IsLowerHexChar(c) && HexValue(c) == v
  {
    if v < 10 then ('0' as int + v) as char else ('a' as int + v - 10) as char
  }

  predicate IsLowerHexChar(c: char) {
    ('0' <= c <= '9') || ('a' <= c <= 'f')
  }

  /** Characters binascii.unhexlify accepts: digits and both letter cases. */
  predicate IsHexChar(c: char) {
    ('0' <= c <= '9') || ('a' <= c <= 'f') || ('A' <= c <= 'F')
  }

  function HexValue(c: char): (v: nat)
    requires IsHexChar(c)
    ensures v < 16
  {
    if '0' <= c <= '9' then c as int - '0' as int
    else if 'a' <= c <= 'f' then c as int - 'a' as int + 10
    else c as int - 'A' as int + 10
  }

  /** binascii.hexlify(bytes).decode(): two lowercase digits per byte, high nibble first. */
  function Hex(b: seq<byte>): (s: string)
    ensures |s| == 2 * |b|
    ensures forall i :: 0 <= i < |s| ==> IsLowerHexChar(s[i])
    ensures IsAscii(s)
  {
    if b == [] then []
    else [HexDigit(b[0] / 16), HexDigit(b[0] % 16)] + Hex(b[1..])
  }

  /**
   * binascii.unhexlify(s): None where it raises binascii.Error (odd length or
   * a character that is not a hex digit).
   */
  function Unhex(s: string): (r: Option<seq<byte>>)
    ensures r.Some? <==> |s| % 2 == 0 && forall i :: 0 <= i < |s| ==> IsHexChar(s[i])
    ensures r.Some? ==> 2 * |r.value| == |s|
  {
    if s == [] then Some([])
    else if |s| == 1 || !IsHexChar(s[0]) || !IsHexChar(s[1]) then None
    else match Unhex(s[2..])
      case None => None
      case Some(rest) => Some([(HexValue(s[0]) * 16 + HexValue(s[1]))] + rest)
  }

  /** Decoding the hex of any byte string gives the byte string back. */
  lemma {:induction false} HexRoundTrip(b: seq<byte>)
    ensures Unhex(Hex(b)) == Some(b)
  {
    if b != [] {
      var s := Hex(b);
      HexRoundTrip(b[1..]);
      assert s[2..] == Hex(b[1..]);
      assert HexValue(s[0]) * 16 + HexValue(s[1]) == b[0];
      assert [b[0]] + b[1..] == b;
    }
  }

  /** Hex is injective: equal hex strings come from equal byte strings. */
  lemma HexInjective(a: seq<byte>, b: seq<byte>)
    requires Hex(a) == Hex(b)
    ensures a == b
  {
    HexRoundTrip(a);
    HexRoundTrip(b);
  }

  // ---------------------------------------------------------------------
  // UTF-8
  // ---------------------------------------------------------------------

  /** The UTF-8 encoding of one Unicode scalar value (RFC 3629 section 3). */
  function EncodeChar(c: char): (r: seq<byte>)
    ensures 1 <= |r| <= 4
    ensures (|r| == 1) <==> (c as int < 0x80)
    ensures |r| == 1 ==> r[0] == c as int
  {
    var cp := c as int;
    if cp < 0x80 then [cp]
    else if cp < 0x800 then
      [(0xC0 + cp / 0x40), (0x80 + cp % 0x40)]
    else if cp < 0x10000 then
      [(0xE0 + cp / 0x1000), (0x80 + (cp / 0x40) % 0x40), (0x80 + cp % 0x40)]
    else
      [(0xF0 + cp / 0x40000), (0x80 + (cp / 0x1000) % 0x40),
       (0x80 + (cp / 0x40) % 0x40), (0x80 + cp % 0x40)]
  }

  /** s.encode('utf8'): the encodings of the characters, in order. */
  function Utf8(s: string): (r: seq<byte>)
    ensures |s| <= |r| <= 4 * |s|
  {
    if s == [] then [] else EncodeChar(s[0]) + Utf8(s[1..])
  }

  /**
   * Encoding distributes over concatenation: feeding a hash the encodings of
   * two strings one after the other is feeding it the encoding of their
   * concatenation.
   */
  lemma {:induction false} Utf8Append(a: string, b: string)
    ensures Utf8(a + b) == Utf8(a) + Utf8(b)
  {
    if a != [] {
      var ab := a + b;
      assert ab != [] && ab[0] == a[0] && ab[1..] == a[1..] + b;
      assert Utf8(ab) == EncodeChar(a[0]) + Utf8(a[1..] + b);
      Utf8Append(a[1..], b);
      assert Utf8(a) == EncodeChar(a[0]) + Utf8(a[1..]);
    } else {
      assert a + b == b;
    }
  }

  predicate IsAscii(s: string) {
    forall i :: 0 <= i < |s| ==> s[i] as int < 0x80
  }

  /** An ASCII string encodes to one byte per character, each its code. */
  lemma {:induction false} Utf8Ascii(s: string)
    requires IsAscii(s)
    ensures |Utf8(s)| == |s|
    ensures forall i :: 0 <= i < |s| ==> Utf8(s)[i] == s[i] as int
  {
    if s != [] {
      Utf8Ascii(s[1..]);
    }
  }
}
