/** Little-endian integers and text as bytes: the primitives both codecs are written in. */
module Bytes {
  import opened Wrappers

  type Byte = b: int | 0 <= b < 256

  const U16_LIMIT: nat := 0x1_0000
  const U32_LIMIT: nat := 0x1_0000_0000
  const U64_LIMIT: nat := 0x1_0000_0000_0000_0000

  type U16 = n: nat | n < U16_LIMIT
  type U32 = n: nat | n < U32_LIMIT
  type U64 = n: nat | n < U64_LIMIT

  /** 256 to the power `width`: the number of values `width` bytes can hold. */
  function Radix(width: nat): (r: nat)
    ensures r > 0
  {
    if width == 0 then 1 else 256 * Radix(width - 1)
  }

  lemma RadixValues()
    ensures Radix(2) == U16_LIMIT && Radix(4) == U32_LIMIT && Radix(8) == U64_LIMIT
  {
    assert Radix(1) == 256 && Radix(3) == 256 * Radix(2);
    assert Radix(5) == 256 * Radix(4) && Radix(6) == 256 * Radix(5) && Radix(7) == 256 * Radix(6);
  }

  function EncodeLe(n: nat, width: nat): (s: seq<Byte>)
    ensures |s| == width
  {
    if width == 0 then [] else [n % 256] + EncodeLe(n / 256, width - 1)
  }

  function DecodeLe(s: seq<Byte>): nat {
    if s == [] then 0 else s[0] + 256 * DecodeLe(s[1..])
  }

  /** What is written in `width` bytes is read back, as long as it fits. */
  lemma {:induction false} EncodeThenDecode(n: nat, width: nat)
    requires n < Radix(width)
    ensures DecodeLe(EncodeLe(n, width)) == n
  {
    if width > 0 {
      EncodeThenDecode(n / 256, width - 1);
      var s := EncodeLe(n, width);
      assert s[1..] == EncodeLe(n / 256, width - 1);
    }
  }

  /** Every byte string is the encoding of the number it is read as, which always fits. */
  lemma {:induction false} DecodeThenEncode(s: seq<Byte>)
    ensures DecodeLe(s) < Radix(|s|)
    ensures EncodeLe(DecodeLe(s), |s|) == s
  {
    if s != [] {
      DecodeThenEncode(s[1..]);
      LowByte(s[0], DecodeLe(s[1..]));
      assert s == [s[0]] + s[1..];
    }
  }

  lemma LowByte(b: Byte, high: nat)
    ensures (b + 256 * high) % 256 == b && (b + 256 * high) / 256 == high
  {
  }

  lemma U16RoundTrip(n: U16)
    ensures DecodeLe(EncodeLe(n, 2)) == n
  {
    RadixValues();
    EncodeThenDecode(n, 2);
  }

  lemma U32RoundTrip(n: U32)
    ensures DecodeLe(EncodeLe(n, 4)) == n
  {
    RadixValues();
    EncodeThenDecode(n, 4);
  }

  lemma U64RoundTrip(n: U64)
    ensures DecodeLe(EncodeLe(n, 8)) == n
  {
    RadixValues();
    EncodeThenDecode(n, 8);
  }

  datatype ByteReadError = Truncated(needed: nat, actual: nat)

  function ReadExact(buffer: seq<Byte>, offset: nat, len: nat): (r: Result<seq<Byte>, ByteReadError>)
    ensures r.Ok? <==> offset + len <= |buffer|
    ensures r.Ok? ==> |r.value| == len && buffer[offset..offset + len] == r.value
  {
    if offset + len <= |buffer| then Ok(buffer[offset..offset + len])
    else Err(Truncated(offset + len, |buffer|))
  }

  function ReadU16(buffer: seq<Byte>, offset: nat): (r: Result<U16, ByteReadError>)
    ensures r.Ok? <==> offset + 2 <= |buffer|
  {
    var bytes :- ReadExact(buffer, offset, 2);
    RadixValues();
    DecodeThenEncode(bytes);
    Ok(DecodeLe(bytes))
  }

  function ReadU32(buffer: seq<Byte>, offset: nat): (r: Result<U32, ByteReadError>)
    ensures r.Ok? <==> offset + 4 <= |buffer|
  {
    var bytes :- ReadExact(buffer, offset, 4);
    RadixValues();
    DecodeThenEncode(bytes);
    Ok(DecodeLe(bytes))
  }

  function ReadU64(buffer: seq<Byte>, offset: nat): (r: Result<U64, ByteReadError>)
    ensures r.Ok? <==> offset + 8 <= |buffer|
  {
    var bytes :- ReadExact(buffer, offset, 8);
    RadixValues();
    DecodeThenEncode(bytes);
    Ok(DecodeLe(bytes))
  }

  /** A read of a field written little-endian returns what was written. */
  lemma ReadBack32(buffer: seq<Byte>, offset: nat, n: U32)
    requires offset + 4 <= |buffer| && buffer[offset..offset + 4] == EncodeLe(n, 4)
    ensures ReadU32(buffer, offset) == Ok(n)
  {
    U32RoundTrip(n);
  }

  lemma ReadBack16(buffer: seq<Byte>, offset: nat, n: U16)
    requires offset + 2 <= |buffer| && buffer[offset..offset + 2] == EncodeLe(n, 2)
    ensures ReadU16(buffer, offset) == Ok(n)
  {
    U16RoundTrip(n);
  }

  lemma ReadBack64(buffer: seq<Byte>, offset: nat, n: U64)
    requires offset + 8 <= |buffer| && buffer[offset..offset + 8] == EncodeLe(n, 8)
    ensures ReadU64(buffer, offset) == Ok(n)
  {
    U64RoundTrip(n);
  }

  /** The bytes a field was read from are its little-endian encoding. */
  lemma FieldBytes32(buffer: seq<Byte>, offset: nat)
    requires offset + 4 <= |buffer|
    ensures buffer[offset..offset + 4] == EncodeLe(ReadU32(buffer, offset).value, 4)
  {
    DecodeThenEncode(buffer[offset..offset + 4]);
  }

  lemma FieldBytes16(buffer: seq<Byte>, offset: nat)
    requires offset + 2 <= |buffer|
    ensures buffer[offset..offset + 2] == EncodeLe(ReadU16(buffer, offset).value, 2)
  {
    DecodeThenEncode(buffer[offset..offset + 2]);
  }

  lemma FieldBytes64(buffer: seq<Byte>, offset: nat)
    requires offset + 8 <= |buffer|
    ensures buffer[offset..offset + 8] == EncodeLe(ReadU64(buffer, offset).value, 8)
  {
    DecodeThenEncode(buffer[offset..offset + 8]);
  }

  // ----- text -----

  predicate IsContinuation(b: Byte) { 0x80 <= b < 0xC0 }

  /** Number of bytes of the first UTF-8 sequence of `s`, or 0 when it is malformed
      (RFC 3629, section 4). */
  function SequenceLen(s: seq<Byte>): (k: nat)
    requires s != []
    ensures k <= |s|
  {
    var b := s[0];
    if b < 0x80 then 1
    else if 0xC2 <= b < 0xE0 && |s| >= 2 && IsContinuation(s[1]) then 2
    else if 0xE0 <= b < 0xF0 && |s| >= 3 && IsContinuation(s[1]) && IsContinuation(s[2])
            && (b == 0xE0 ==> s[1] >= 0xA0) && (b == 0xED ==> s[1] < 0xA0) then 3
    else if 0xF0 <= b < 0xF5 && |s| >= 4 && IsContinuation(s[1]) && IsContinuation(s[2])
            && IsContinuation(s[3]) && (b == 0xF0 ==> s[1] >= 0x90) && (b == 0xF4 ==> s[1] < 0x90) then 4
    else 0
  }

  predicate ValidUtf8(s: seq<Byte>) {
    s == [] || (var k := SequenceLen(s); k > 0 && ValidUtf8(s[k..]))
  }

  predicate IsAscii(s: seq<Byte>) {
    forall i :: 0 <= i < |s| ==> s[i] < 128
  }

  lemma {:induction false} AsciiIsUtf8(s: seq<Byte>)
    requires IsAscii(s)
    ensures ValidUtf8(s)
  {
    if s != [] {
      assert SequenceLen(s) == 1;
      AsciiIsUtf8(s[1..]);
    }
  }
}
