/** Little-endian integers over byte sequences, as BinaryReader reads them. */
module Bytes {
  import opened Ints

  type byte = bv8

  function Pow256(n: nat): (r: nat)
    ensures r >= 1
  {
    if n == 0 then 1 else 256 * Pow256(n - 1)
  }

  /** The unsigned little-endian value of `bs` (the first byte is the least significant). */
  function LeUnsigned(bs: seq<byte>): (r: nat)
    ensures r < Pow256(|bs|)
  {
    if bs == [] then 0 else bs[0] as int + 256 * LeUnsigned(bs[1..])
  }

  /** The `n`-byte little-endian encoding of `x`. */
  function EncodeLe(x: nat, n: nat): (bs: seq<byte>)
    requires x < Pow256(n)
    ensures |bs| == n
  {
    if n == 0 then [] else [ByteOf(x % 256)] + EncodeLe(x / 256, n - 1)
  }

  lemma {:induction false} DecodeEncode(x: nat, n: nat)
    requires x < Pow256(n)
    ensures LeUnsigned(EncodeLe(x, n)) == x
  {
    if n > 0 {
      DecodeEncode(x / 256, n - 1);
      var bs := EncodeLe(x, n);
      assert bs[1..] == EncodeLe(x / 256, n - 1);
      assert x == x % 256 + 256 * (x / 256);
    }
  }

  lemma {:induction false} EncodeDecode(bs: seq<byte>)
    ensures EncodeLe(LeUnsigned(bs), |bs|) == bs
  {
    if bs != [] {
      EncodeDecode(bs[1..]);
      var lo, hi := bs[0] as int, LeUnsigned(bs[1..]);
      var x := LeUnsigned(bs);
      assert x == lo + 256 * hi;
      DivModByte(lo, hi);
      assert EncodeLe(x, |bs|) == [ByteOf(lo)] + EncodeLe(hi, |bs| - 1);
      ByteOfValue(bs[0]);
      assert [bs[0]] + bs[1..] == bs;
    }
  }

  /**
   * The byte whose value is v, counted up one at a time. It stands for the
   * cast `v as byte`, whose int-to-bitvector conversion the solver handles
   * poorly; counting keeps every proof about encodings in integer arithmetic.
   */
  function ByteOf(v: nat): (b: byte)
    requires v < 256
    ensures b as int == v
  {
    if v == 0 then 0 else ByteOf(v - 1) + 1
  }

  lemma ByteOfValue(b: byte)
    ensures ByteOf(b as int) == b
  {
    var c := ByteOf(b as int);
    assert c as int == b as int;
  }

  lemma DivModByte(lo: int, hi: int)
    requires 0 <= lo < 256
    ensures (lo + 256 * hi) % 256 == lo && (lo + 256 * hi) / 256 == hi
  {
  }

  /** Two's-complement reinterpretation of an unsigned `bits`-wide value. */
  function Signed(u: nat, n: nat): (r: int)
    requires u < Pow256(n)
    ensures -(Pow256(n) as int) <= r < Pow256(n)
  {
    if n > 0 && 2 * u >= Pow256(n) then u - Pow256(n) else u
  }

  predicate Within(data: seq<byte>, p: int, n: nat) { 0 <= p && p + n <= |data| }

  /** The unsigned 16-bit little-endian value at offset p. */
  function U16At(data: seq<byte>, p: int): (r: nat)
    requires Within(data, p, 2)
    ensures r < TWO_16
  {
    data[p] as int + 0x100 * data[p + 1] as int
  }

  /** The unsigned 32-bit little-endian value at offset p. */
  function U32At(data: seq<byte>, p: int): (r: nat)
    requires Within(data, p, 4)
    ensures r < TWO_32
  {
    data[p] as int + 0x100 * data[p + 1] as int + 0x1_0000 * data[p + 2] as int + 0x100_0000 * data[p + 3] as int
  }

  /** BinaryReader.ReadInt16 at offset p: the two's-complement reading of U16At. */
  function I16At(data: seq<byte>, p: int): (r: int)
    requires Within(data, p, 2)
    ensures IsInt16(r)
  {
    var u := U16At(data, p);
    if u >= 0x8000 then u - TWO_16 else u
  }

  /** BinaryReader.ReadInt32 at offset p: the two's-complement reading of U32At. */
  function I32At(data: seq<byte>, p: int): (r: int)
    requires Within(data, p, 4)
    ensures IsInt32(r)
  {
    var u := U32At(data, p);
    if u >= TWO_31 then u - TWO_32 else u
  }

  /** The fixed-width readers agree with the general little-endian decoding. */
  lemma U32AtIsLe(data: seq<byte>, p: int)
    requires Within(data, p, 4)
    ensures U32At(data, p) == LeUnsigned(data[p..p + 4])
  {
    var bs := data[p..p + 4];
    assert bs[3..][1..] == [] && bs[2..][1..] == bs[3..] && bs[1..][1..] == bs[2..];
    assert LeUnsigned(bs[3..]) == data[p + 3] as int;
    assert LeUnsigned(bs[2..]) == data[p + 2] as int + 0x100 * LeUnsigned(bs[3..]);
    assert LeUnsigned(bs[1..]) == data[p + 1] as int + 0x100 * LeUnsigned(bs[2..]);
  }

  lemma U16AtIsLe(data: seq<byte>, p: int)
    requires Within(data, p, 2)
    ensures U16At(data, p) == LeUnsigned(data[p..p + 2])
  {
    var bs := data[p..p + 2];
    assert bs[1..][1..] == [];
    assert LeUnsigned(bs[1..]) == data[p + 1] as int;
  }

  /** The 32-bit reader agrees with the general two's-complement reinterpretation. */
  lemma I32AtIsSigned(data: seq<byte>, p: int)
    requires Within(data, p, 4)
    ensures U32At(data, p) < Pow256(4) && I32At(data, p) == Signed(U32At(data, p), 4)
  {
    assert Pow256(4) == TWO_32;
  }
}
