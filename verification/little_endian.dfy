/** The `read_u32_le`, `read_i32_le`, `read_i64_le` and `read_u64_le` helpers:
    fixed-width little-endian reads from a byte buffer that fail (return
    `None`) when the field runs past the end of the buffer. Signed reads use
    two's complement. `LeBytes` is the matching encoder, used to state what the
    readers compute and to build buffers in round-trip lemmas. */
module LittleEndian {
  import opened Wrappers
  import opened Ints

  /** The number of distinct values an `n`-byte field can hold. */
  function Pow256(n: nat): (r: nat)
    ensures r > 0
  {
    if n == 0 then 1 else 256 * Pow256(n - 1)
  }

  lemma FieldWidths()
    ensures Pow256(4) == TWO_32
    ensures Pow256(8) == TWO_64
  {
    assert Pow256(1) == 0x100;
    assert Pow256(2) == 0x1_0000;
    assert Pow256(3) == 0x100_0000;
    assert Pow256(4) == 0x1_0000_0000;
    assert Pow256(5) == 0x100_0000_0000;
    assert Pow256(6) == 0x1_0000_0000_0000;
    assert Pow256(7) == 0x100_0000_0000_0000;
  }

  /** The unsigned value of `bytes`, least significant byte first; it always
      fits in the field's width. */
  function LeValue(bytes: seq<U8>): (v: nat)
    ensures v < Pow256(|bytes|)
  {
    if |bytes| == 0 then 0 else bytes[0] + 256 * LeValue(bytes[1..])
  }

  /** The `width`-byte little-endian encoding of `v`. */
  function LeBytes(v: nat, width: nat): (bytes: seq<U8>)
    requires v < Pow256(width)
    ensures |bytes| == width
  {
    if width == 0 then [] else [v % 256] + LeBytes(v / 256, width - 1)
  }

  /** Decoding an encoding gives the value back. */
  lemma {:induction false} LeValueOfLeBytes(v: nat, width: nat)
    requires v < Pow256(width)
    ensures LeValue(LeBytes(v, width)) == v
  {
    if width > 0 {
      var bytes := LeBytes(v, width);
      assert bytes[1..] == LeBytes(v / 256, width - 1);
      LeValueOfLeBytes(v / 256, width - 1);
    }
  }

  /** Encoding a decoded field gives the same bytes back: every field is the
      encoding of exactly one value. */
  lemma {:induction false} LeBytesOfLeValue(bytes: seq<U8>)
    ensures LeBytes(LeValue(bytes), |bytes|) == bytes
  {
    if |bytes| > 0 {
      var rest := LeValue(bytes[1..]);
      var v := LeValue(bytes);
      assert v == bytes[0] + 256 * rest;
      assert v % 256 == bytes[0];
      assert v / 256 == rest;
      LeBytesOfLeValue(bytes[1..]);
    }
  }

  /** Two fields of the same width hold the same value exactly when they hold
      the same bytes. */
  lemma LeValueInjective(a: seq<U8>, b: seq<U8>)
    requires |a| == |b|
    ensures LeValue(a) == LeValue(b) <==> a == b
  {
    LeBytesOfLeValue(a);
    LeBytesOfLeValue(b);
  }

  /** Two's-complement reinterpretation of 32 and 64 bits (`from_le_bytes` of
      a signed type). */
  function ToI32(v: U32): (x: I32)
    ensures x % TWO_32 == v
  {
    if v < TWO_31 then v else v - TWO_32
  }

  function ToI64(v: U64): (x: I64)
    ensures x % TWO_64 == v
  {
    if v < TWO_63 then v else v - TWO_64
  }

  /** The bit pattern of a signed value; undoes `ToI32`/`ToI64`. */
  lemma SignedRoundTrip32(x: I32)
    ensures ToI32(x % TWO_32) == x
  {
  }

  lemma SignedRoundTrip64(x: I64)
    ensures ToI64(x % TWO_64) == x
  {
  }

  /** `read_u32_le(data, offset)` */
  function ReadU32Le(data: seq<U8>, offset: nat): (r: Option<U32>)
    ensures r.None? <==> offset + 4 > |data|
    ensures r.Some? ==> data[offset..offset + 4] == LeBytes(r.value, 4)
  {
    if offset + 4 > |data| then None
    else
      FieldWidths();
      LeBytesOfLeValue(data[offset..offset + 4]);
      Some(LeValue(data[offset..offset + 4]))
  }

  /** `read_i32_le(data, offset)` */
  function ReadI32Le(data: seq<U8>, offset: nat): (r: Option<I32>)
    ensures r.None? <==> offset + 4 > |data|
    ensures r.Some? ==> data[offset..offset + 4] == LeBytes(r.value % TWO_32, 4)
  {
    var raw :- ReadU32Le(data, offset);
    FieldWidths();
    Some(ToI32(raw))
  }

  /** `read_u64_le(data, offset)` */
  function ReadU64Le(data: seq<U8>, offset: nat): (r: Option<U64>)
    ensures r.None? <==> offset + 8 > |data|
    ensures r.Some? ==> data[offset..offset + 8] == LeBytes(r.value, 8)
  {
    if offset + 8 > |data| then None
    else
      FieldWidths();
      LeBytesOfLeValue(data[offset..offset + 8]);
      Some(LeValue(data[offset..offset + 8]))
  }

  /** `read_i64_le(data, offset)` */
  function ReadI64Le(data: seq<U8>, offset: nat): (r: Option<I64>)
    ensures r.None? <==> offset + 8 > |data|
    ensures r.Some? ==> data[offset..offset + 8] == LeBytes(r.value % TWO_64, 8)
  {
    var raw :- ReadU64Le(data, offset);
    FieldWidths();
    Some(ToI64(raw))
  }

  /** Reading back a 32-bit field that was written as `LeBytes(v, 4)` yields
      `v`: the reader is the inverse of the encoder. */
  lemma ReadU32OfEncoded(data: seq<U8>, offset: nat, v: U32)
    requires offset + 4 <= |data|
    requires data[offset..offset + 4] == (FieldWidths(); LeBytes(v, 4))
    ensures ReadU32Le(data, offset) == Some(v)
  {
    FieldWidths();
    LeValueOfLeBytes(v, 4);
  }

  lemma ReadU64OfEncoded(data: seq<U8>, offset: nat, v: U64)
    requires offset + 8 <= |data|
    requires data[offset..offset + 8] == (FieldWidths(); LeBytes(v, 8))
    ensures ReadU64Le(data, offset) == Some(v)
  {
    FieldWidths();
    LeValueOfLeBytes(v, 8);
  }

  lemma ReadI32OfEncoded(data: seq<U8>, offset: nat, x: I32)
    requires offset + 4 <= |data|
    requires data[offset..offset + 4] == (FieldWidths(); LeBytes(x % TWO_32, 4))
    ensures ReadI32Le(data, offset) == Some(x)
  {
    ReadU32OfEncoded(data, offset, x % TWO_32);
    assert ReadU32Le(data, offset).value == x % TWO_32;
    SignedRoundTrip32(x);
  }

  lemma ReadI64OfEncoded(data: seq<U8>, offset: nat, x: I64)
    requires offset + 8 <= |data|
    requires data[offset..offset + 8] == (FieldWidths(); LeBytes(x % TWO_64, 8))
    ensures ReadI64Le(data, offset) == Some(x)
  {
    ReadU64OfEncoded(data, offset, x % TWO_64);
    assert ReadU64Le(data, offset).value == x % TWO_64;
    SignedRoundTrip64(x);
  }
}
