/**
 * The byte layout of `java.io.DataOutputStream` and of the matching reads of
 * `java.io.RandomAccessFile`: every integer is written high byte first, in
 * two's complement; a float or double is written as the integer holding its
 * IEEE 754 interchange word.
 */
module DataStream {
  import opened JavaTypes
  import opened Ieee

  /** An octet as `DataOutputStream` writes it: its unsigned value. */
  type byte = b: int | 0 <= b < 256

  // --- 32-bit and 64-bit words ------------------------------------------

  /** `256^k`. */
  function Pow256(k: nat): (p: nat)
    ensures p >= 1
  {
    if k == 0 then 1 else 0x100 * Pow256(k - 1)
  }

  /** The low `k` bytes of `w`, high byte first. */
  function BigEndian(w: nat, k: nat): (s: seq<byte>)
    ensures |s| == k
  {
    if k == 0 then [] else BigEndian(w / 0x100, k - 1) + [w % 0x100]
  }

  /** The number whose bytes, high byte first, are `s`. */
  function FromBigEndian(s: seq<byte>): (w: nat)
    ensures w < Pow256(|s|)
  {
    if s == [] then 0 else FromBigEndian(s[..|s| - 1]) * 0x100 + s[|s| - 1]
  }

  /** A number below `256^k` reads back from its `k` bytes. */
  lemma {:induction false} BigEndianRoundTrip(w: nat, k: nat)
    requires w < Pow256(k)
    ensures FromBigEndian(BigEndian(w, k)) == w
  {
    if k > 0 {
      var s := BigEndian(w, k);
      assert s[..k - 1] == BigEndian(w / 0x100, k - 1);
      BigEndianRoundTrip(w / 0x100, k - 1);
    }
  }

  /** The four bytes of a 32-bit word. */
  function EncodeWord32(w: Float32): (s: seq<byte>)
    ensures |s| == 4
  {
    BigEndian(w, 4)
  }

  /** The 32-bit word whose bytes, high byte first, are `s`. */
  function DecodeWord32(s: seq<byte>): (w: Float32)
    requires |s| == 4
  {
    assert Pow256(4) == 0x1_0000_0000;
    FromBigEndian(s)
  }

  lemma Word32RoundTrip(w: Float32)
    ensures DecodeWord32(EncodeWord32(w)) == w
  {
    assert Pow256(4) == 0x1_0000_0000;
    BigEndianRoundTrip(w, 4);
  }

  /** The eight bytes of a 64-bit word. */
  function EncodeWord64(w: Float64): (s: seq<byte>)
    ensures |s| == 8
  {
    BigEndian(w, 8)
  }

  /** The 64-bit word whose bytes, high byte first, are `s`. */
  function DecodeWord64(s: seq<byte>): (w: Float64)
    requires |s| == 8
  {
    assert Pow256(8) == 0x1_0000_0000_0000_0000;
    FromBigEndian(s)
  }

  lemma Word64RoundTrip(w: Float64)
    ensures DecodeWord64(EncodeWord64(w)) == w
  {
    assert Pow256(8) == 0x1_0000_0000_0000_0000;
    BigEndianRoundTrip(w, 8);
  }

  // --- writeInt / readInt -----------------------------------------------

  /** The two's-complement word of an `int`. */
  function Unsigned32(x: int32): (w: Float32)
    ensures x >= 0 ==> w == x
    ensures x < 0 ==> w == x + 0x1_0000_0000
  {
    x % 0x1_0000_0000
  }

  /** The `int` whose two's-complement word is `w`. */
  function Signed32(w: Float32): (x: int32)
    ensures Unsigned32(x) == w
  {
    if w <= Int32Max then w else w - 0x1_0000_0000
  }

  function EncodeInt32(x: int32): (s: seq<byte>)
    ensures |s| == 4
  {
    EncodeWord32(Unsigned32(x))
  }

  function DecodeInt32(s: seq<byte>): (x: int32)
    requires |s| == 4
  {
    Signed32(DecodeWord32(s))
  }

  lemma Int32RoundTrip(x: int32)
    ensures DecodeInt32(EncodeInt32(x)) == x
  {
    Word32RoundTrip(Unsigned32(x));
  }

  lemma Int32Injective(x: int32, y: int32)
    requires EncodeInt32(x) == EncodeInt32(y)
    ensures x == y
  {
    Int32RoundTrip(x);
    Int32RoundTrip(y);
  }

  // --- writeFloat / readFloat -------------------------------------------

  /** `writeFloat`: the word of `floatToIntBits`, so every NaN is written as the canonical one, as `writeInt` would. */
  function EncodeFloat(w: Float32): (s: seq<byte>)
    ensures |s| == 4
  {
    EncodeWord32(FloatToIntBits(w))
  }

  /** `readFloat` gives back a float that `Float.compare` calls equal to the one written. */
  lemma FloatRoundTrip(w: Float32)
    ensures DecodeWord32(EncodeFloat(w)) == FloatToIntBits(w)
    ensures FloatCompareEqual(DecodeWord32(EncodeFloat(w)), w)
    ensures !IsNaN32(w) ==> DecodeWord32(EncodeFloat(w)) == w
  {
    Word32RoundTrip(FloatToIntBits(w));
    FloatToIntBitsIdempotent(w);
  }

  // --- writeLong / readLong ---------------------------------------------

  /** The two's-complement word of a `long`. */
  function Unsigned64(x: int64): (w: Float64)
    ensures x >= 0 ==> w == x
    ensures x < 0 ==> w == x + 0x1_0000_0000_0000_0000
  {
    x % 0x1_0000_0000_0000_0000
  }

  /** The `long` whose two's-complement word is `w`. */
  function Signed64(w: Float64): (x: int64)
    ensures Unsigned64(x) == w
  {
    if w <= Int64Max then w else w - 0x1_0000_0000_0000_0000
  }

  function EncodeInt64(x: int64): (s: seq<byte>)
    ensures |s| == 8
  {
    EncodeWord64(Unsigned64(x))
  }

  function DecodeInt64(s: seq<byte>): (x: int64)
    requires |s| == 8
  {
    Signed64(DecodeWord64(s))
  }

  lemma Int64RoundTrip(x: int64)
    ensures DecodeInt64(EncodeInt64(x)) == x
  {
    Word64RoundTrip(Unsigned64(x));
  }

  // --- locating a value inside a byte sequence --------------------------

  /** Bytes `i .. j` of the bytes at `p .. q` are the bytes at `p + i .. p + j`. */
  lemma SliceOfSlice(b: seq<byte>, p: nat, q: nat, i: nat, j: nat)
    requires p <= q <= |b| && i <= j <= q - p
    ensures b[p..q][i..j] == b[p + i..p + j]
  {
    assert forall t | 0 <= t < j - i :: b[p..q][i..j][t] == b[p + i..p + j][t];
  }

  /** A slice lying within the front part of a concatenation is a slice of that part. */
  lemma SliceOfConcatLeft(u: seq<byte>, v: seq<byte>, i: nat, j: nat)
    requires i <= j <= |u|
    ensures (u + v)[i..j] == u[i..j]
  {
    assert forall t | 0 <= t < j - i :: (u + v)[i..j][t] == u[i..j][t];
  }

  /** A slice lying within the back part of a concatenation is a slice of that part. */
  lemma SliceOfConcatRight(u: seq<byte>, v: seq<byte>, i: nat, j: nat)
    requires i <= j <= |v|
    ensures (u + v)[|u| + i..|u| + j] == v[i..j]
  {
    assert forall t | 0 <= t < j - i :: (u + v)[|u| + i..|u| + j][t] == v[i..j][t];
  }
  /** The bytes `e` sit in `b` from offset `p` on. */
  predicate At(b: seq<byte>, p: nat, e: seq<byte>)
  {
    p + |e| <= |b| && b[p..p + |e|] == e
  }

  /** Where `u + v` sits at `p`, `u` sits at `p` and `v` right after it. */
  lemma AtConcat(b: seq<byte>, p: nat, u: seq<byte>, v: seq<byte>)
    requires At(b, p, u + v)
    ensures At(b, p, u) && At(b, p + |u|, v)
  {
    var q := p + |u| + |v|;
    SliceOfSlice(b, p, q, 0, |u|);
    SliceOfConcatLeft(u, v, 0, |u|);
    SliceOfSlice(b, p, q, |u|, |u| + |v|);
    SliceOfConcatRight(u, v, 0, |v|);
  }

  lemma AtInt32(b: seq<byte>, p: nat, x: int32)
    requires At(b, p, EncodeInt32(x))
    ensures p + 4 <= |b| && DecodeInt32(b[p..p + 4]) == x
  {
    Int32RoundTrip(x);
  }

  lemma AtFloat(b: seq<byte>, p: nat, w: Float32)
    requires At(b, p, EncodeFloat(w))
    ensures p + 4 <= |b| && DecodeWord32(b[p..p + 4]) == FloatToIntBits(w)
  {
    FloatRoundTrip(w);
  }

  lemma AtInt64(b: seq<byte>, p: nat, x: int64)
    requires At(b, p, EncodeInt64(x))
    ensures p + 8 <= |b| && DecodeInt64(b[p..p + 8]) == x
  {
    Int64RoundTrip(x);
  }

  lemma AtWord64(b: seq<byte>, p: nat, w: Float64)
    requires At(b, p, EncodeWord64(w))
    ensures p + 8 <= |b| && DecodeWord64(b[p..p + 8]) == w
  {
    Word64RoundTrip(w);
  }
}
