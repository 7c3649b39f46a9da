/** The fixed-width encodings of HBase's Bytes utility that the tools rely on:
    Bytes.toBytes(int) / Bytes.toInt (4 bytes) and Bytes.toBytes(long) /
    Bytes.toLong (8 bytes), both big-endian two's complement. */
module Bytes {
  import opened Wrappers

  /** One byte, by its unsigned value; Java's signed byte has the same bits. */
  type Byte = b: int | 0 <= b < 256

  const INT_BYTES: nat := 4
  const LONG_BYTES: nat := 8

  const TWO_POW_32: int := 0x1_0000_0000
  const TWO_POW_64: int := 0x1_0000_0000_0000_0000

  /** Java int and long. */
  type Int32 = x: int | -0x8000_0000 <= x < 0x8000_0000
  type Int64 = x: int | -0x8000_0000_0000_0000 <= x < 0x8000_0000_0000_0000

  /** A decode asked for a fixed width that the stored bytes do not have. */
  datatype DecodeError = WidthMismatch(expected: nat, actual: nat)

  function Pow256(n: nat): (p: nat)
    ensures p >= 1
  {
    if n == 0 then 1 else 256 * Pow256(n - 1)
  }

  lemma Pow256Widths()
    ensures Pow256(INT_BYTES) == TWO_POW_32
    ensures Pow256(LONG_BYTES) == TWO_POW_64
  {
  }

  /** The unsigned number whose big-endian digits in base 256 are b. */
  function FromBigEndian(b: seq<Byte>): (u: nat)
    ensures u < Pow256(|b|)
  {
    if b == [] then 0 else FromBigEndian(b[..|b| - 1]) * 256 + b[|b| - 1]
  }

  /** The n big-endian base-256 digits of u. */
  function ToBigEndian(u: nat, n: nat): (b: seq<Byte>)
    requires u < Pow256(n)
    ensures |b| == n
    ensures FromBigEndian(b) == u
  {
    if n == 0 then []
    else
      var b := ToBigEndian(u / 256, n - 1) + [u % 256];
      assert b[..n - 1] == ToBigEndian(u / 256, n - 1);
      b
  }

  /** Reading n bytes as a number and writing that number back in n bytes
      gives the same bytes. */
  lemma {:induction false} ToFromBigEndian(b: seq<Byte>)
    ensures ToBigEndian(FromBigEndian(b), |b|) == b
  {
    if b != [] {
      var front, last := b[..|b| - 1], b[|b| - 1];
      ToFromBigEndian(front);
      var u := FromBigEndian(b);
      assert u / 256 == FromBigEndian(front) && u % 256 == last;
      assert b == front + [last];
    }
  }

  /** Half the values of n bytes: the signed range is -Half(n) .. Half(n) - 1. */
  function Half(n: nat): (h: int)
    requires 0 < n
    ensures 2 * h == Pow256(n)
  {
    128 * Pow256(n - 1)
  }

  /** Two's complement in n bytes: the unsigned value that stands for x. */
  function ToUnsigned(x: int, n: nat): (u: nat)
    requires 0 < n && -Half(n) <= x < Half(n)
    ensures u < Pow256(n)
  {
    if x < 0 then x + Pow256(n) else x
  }

  /** Two's complement in n bytes: the signed value that u stands for. */
  function ToSigned(u: nat, n: nat): (x: int)
    requires 0 < n && u < Pow256(n)
    ensures -Half(n) <= x < Half(n)
    ensures ToUnsigned(x, n) == u
  {
    if u >= Half(n) then u - Pow256(n) else u
  }

  /** Bytes.toBytes(int). */
  function IntToBytes(x: Int32): (b: seq<Byte>)
    ensures |b| == INT_BYTES
  {
    Pow256Widths();
    ToBigEndian(ToUnsigned(x, INT_BYTES), INT_BYTES)
  }

  /** Bytes.toInt on a 4-byte value. */
  function BytesToInt(b: seq<Byte>): Int32
    requires |b| == INT_BYTES
  {
    Pow256Widths();
    ToSigned(FromBigEndian(b), INT_BYTES)
  }

  /** Bytes.toBytes(long). */
  function LongToBytes(x: Int64): (b: seq<Byte>)
    ensures |b| == LONG_BYTES
  {
    Pow256Widths();
    ToBigEndian(ToUnsigned(x, LONG_BYTES), LONG_BYTES)
  }

  /** Bytes.toLong on an 8-byte value. */
  function BytesToLong(b: seq<Byte>): Int64
    requires |b| == LONG_BYTES
  {
    Pow256Widths();
    ToSigned(FromBigEndian(b), LONG_BYTES)
  }

  /** An int written with Bytes.toBytes is read back unchanged by Bytes.toInt. */
  lemma IntBytesRoundTrip(x: Int32)
    ensures BytesToInt(IntToBytes(x)) == x
  {
    Pow256Widths();
  }

  /** Any 4 bytes read by Bytes.toInt are written back unchanged by Bytes.toBytes. */
  lemma BytesIntRoundTrip(b: seq<Byte>)
    requires |b| == INT_BYTES
    ensures IntToBytes(BytesToInt(b)) == b
  {
    Pow256Widths();
    ToFromBigEndian(b);
  }

  /** Any 8 bytes read by Bytes.toLong are written back unchanged by Bytes.toBytes. */
  lemma BytesLongRoundTrip(b: seq<Byte>)
    requires |b| == LONG_BYTES
    ensures LongToBytes(BytesToLong(b)) == b
  {
    Pow256Widths();
    ToFromBigEndian(b);
  }

  /** A long written with Bytes.toBytes is read back unchanged by Bytes.toLong. */
  lemma LongBytesRoundTrip(x: Int64)
    ensures BytesToLong(LongToBytes(x)) == x
  {
    Pow256Widths();
  }

  /** Bytes.toInt with the width made explicit: anything but 4 bytes is an error here,
      where the library's own result for such input is not part of the model. */
  function DecodeInt(b: seq<Byte>): (r: Result<Int32, DecodeError>)
    ensures r.Ok? <==> |b| == INT_BYTES
    ensures r.Ok? ==> IntToBytes(r.value) == b
    ensures r.Err? ==> r.error == WidthMismatch(INT_BYTES, |b|)
  {
    if |b| == INT_BYTES then BytesIntRoundTrip(b); Ok(BytesToInt(b)) else Err(WidthMismatch(INT_BYTES, |b|))
  }

  /** Bytes.toLong with the width made explicit: anything but 8 bytes is an error here,
      where the library's own result for such input is not part of the model. */
  function DecodeLong(b: seq<Byte>): (r: Result<Int64, DecodeError>)
    ensures r.Ok? <==> |b| == LONG_BYTES
    ensures r.Ok? ==> LongToBytes(r.value) == b
    ensures r.Err? ==> r.error == WidthMismatch(LONG_BYTES, |b|)
  {
    if |b| == LONG_BYTES then BytesLongRoundTrip(b); Ok(BytesToLong(b)) else Err(WidthMismatch(LONG_BYTES, |b|))
  }

  /** Java int arithmetic: the Int32 congruent to x modulo 2^32. */
  function WrapInt32(x: int): (r: Int32)
    ensures (x - r) % TWO_POW_32 == 0
  {
    var u := x % TWO_POW_32;
    if u >= TWO_POW_32 / 2 then u - TWO_POW_32 else u
  }
}
