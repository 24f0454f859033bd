/**
 * Java's `float` and `double` values as IEEE 754-2008 binary32 and binary64
 * interchange words (section 3.4 of the standard), with the few operations
 * of `java.lang.Float` and `java.lang.Double` the source relies on.
 */
module Ieee {

  /** A Java `float`, held as its binary32 word read as an unsigned number. */
  type Float32 = w: int | 0 <= w < 0x1_0000_0000

  /** A Java `double`, held as its binary64 word read as an unsigned number. */
  type Float64 = w: int | 0 <= w < 0x1_0000_0000_0000_0000

  /** The single NaN word `Float.floatToIntBits` reports for every NaN. */
  const CanonicalNaN32: Float32 := 0x7FC0_0000

  predicate IsNaN32(w: Float32)
  {
    (w / 0x80_0000) % 0x100 == 0xFF && w % 0x80_0000 != 0
  }

  /** `+0.0f` or `-0.0f`: the words that compare `==` to `+0.0f`. */
  predicate IsZero32(w: Float32)
  {
    w % 0x8000_0000 == 0
  }

  /** `Float.floatToIntBits`: the word itself, with every NaN collapsed to one. */
  function FloatToIntBits(w: Float32): (r: Float32)
    ensures IsNaN32(r) <==> IsNaN32(w)
    ensures IsNaN32(w) || r == w
  {
    if IsNaN32(w) then CanonicalNaN32 else w
  }

  lemma FloatToIntBitsIdempotent(w: Float32)
    ensures FloatToIntBits(FloatToIntBits(w)) == FloatToIntBits(w)
  {
  }

  /** `Float.compare(a, b) == 0`, which compares the words of `floatToIntBits`. */
  predicate FloatCompareEqual(a: Float32, b: Float32)
  {
    FloatToIntBits(a) == FloatToIntBits(b)
  }

  /** Float.compare(a, b) == 0 is an equivalence relation ... */
  lemma FloatCompareEquivalence(a: Float32, b: Float32, c: Float32)
    ensures FloatCompareEqual(a, a)
    ensures FloatCompareEqual(a, b) ==> FloatCompareEqual(b, a)
    ensures FloatCompareEqual(a, b) && FloatCompareEqual(b, c) ==> FloatCompareEqual(a, c)
  {
  }

  /** ... that distinguishes every two words except two NaNs. */
  lemma FloatCompareEqualIsBitEquality(a: Float32, b: Float32)
    requires !IsNaN32(a)
    ensures FloatCompareEqual(a, b) <==> a == b
  {
  }

  /** 2 to the power `e`, as a real. */
  function Pow2(e: int): (r: real)
    ensures r > 0.0
    decreases if e < 0 then -e else e
  {
    if e == 0 then 1.0 else if e > 0 then 2.0 * Pow2(e - 1) else Pow2(e + 1) / 2.0
  }

  /**
   * The number a finite binary32 word denotes. The model has no infinities
   * and no NaN; it gives those words the value 0.
   */
  function Float32Value(w: Float32): (r: real)
    ensures w < 0x8000_0000 ==> r >= 0.0
    ensures w >= 0x8000_0000 ==> r <= 0.0
  {
    var biased := (w / 0x80_0000) % 0x100;
    var fraction := w % 0x80_0000;
    var magnitude :=
      if biased == 0 then fraction as real * Pow2(-149)
      else if biased == 0xFF then 0.0
      else (fraction + 0x80_0000) as real * Pow2(biased - 150);
    if w < 0x8000_0000 then magnitude else -magnitude
  }

  /** The number a finite binary64 word denotes (0 for infinities and NaN, as above). */
  function Float64Value(w: Float64): (r: real)
    ensures w < 0x8000_0000_0000_0000 ==> r >= 0.0
    ensures w >= 0x8000_0000_0000_0000 ==> r <= 0.0
  {
    var biased := (w / 0x10_0000_0000_0000) % 0x800;
    var fraction := w % 0x10_0000_0000_0000;
    var magnitude :=
      if biased == 0 then fraction as real * Pow2(-1074)
      else if biased == 0x7FF then 0.0
      else (fraction + 0x10_0000_0000_0000) as real * Pow2(biased - 1075);
    if w < 0x8000_0000_0000_0000 then magnitude else -magnitude
  }

  // --- the binary64 word of a non-negative long -------------------------

  function Pow2Nat(k: nat): (r: nat)
    ensures r >= 1
  {
    if k == 0 then 1 else 2 * Pow2Nat(k - 1)
  }

  lemma {:induction false} Pow2NatAdd(a: nat, b: nat)
    ensures Pow2Nat(a) * Pow2Nat(b) == Pow2Nat(a + b)
  {
    if a > 0 {
      Pow2NatAdd(a - 1, b);
    }
  }

  lemma {:induction false} Pow2NatMonotone(a: nat, b: nat)
    requires a <= b
    ensures Pow2Nat(a) <= Pow2Nat(b)
  {
    if a < b {
      Pow2NatMonotone(a, b - 1);
    }
  }

  /** The position of the highest set bit of `t`. */
  function HighestBit(t: nat): (k: nat)
    requires t >= 1
    ensures Pow2Nat(k) <= t < Pow2Nat(k + 1)
  {
    if t == 1 then 0 else 1 + HighestBit(t / 2)
  }

  /** The 52 fraction bits of `t`, whose highest set bit is bit `k`. */
  function Fraction(t: nat, k: nat): (m: nat)
    requires k <= 52 && Pow2Nat(k) <= t < Pow2Nat(k + 1)
    ensures m < 0x10_0000_0000_0000
  {
    var a, b := t - Pow2Nat(k), Pow2Nat(52 - k);
    FractionBelow(t, k);
    a * b
  }

  lemma FractionBelow(t: nat, k: nat)
    requires k <= 52 && Pow2Nat(k) <= t < Pow2Nat(k + 1)
    ensures 0 <= (t - Pow2Nat(k)) * Pow2Nat(52 - k) < 0x10_0000_0000_0000
  {
    var a, c, b := t - Pow2Nat(k), Pow2Nat(k), Pow2Nat(52 - k);
    assert Pow2Nat(k + 1) == 2 * c;
    MulBelow(a, c, b);
    Pow2NatAdd(k, 52 - k);
    assert k + (52 - k) == 52;
    Pow2Nat52();
    assert a * b < c * b == 0x10_0000_0000_0000;
    MulNonNegative(a, b);
  }

  lemma MulNonNegative(a: nat, b: nat)
    ensures 0 <= a * b
  {
  }

  lemma MulBelow(a: nat, c: nat, b: nat)
    requires a < c && b >= 1
    ensures a * b < c * b
  {
  }

  lemma WordBounds(k: nat, mantissa: nat)
    requires k <= 52 && mantissa < 0x10_0000_0000_0000
    ensures 0x3FF0_0000_0000_0000 <= (k + 1023) * 0x10_0000_0000_0000 + mantissa < 0x8000_0000_0000_0000
  {
    assert (k + 1023) * 0x10_0000_0000_0000 <= 1075 * 0x10_0000_0000_0000;
  }

  lemma Pow2Nat52()
    ensures Pow2Nat(52) == 0x10_0000_0000_0000
  {
    assert Pow2Nat(13) == 0x2000;
    Pow2NatAdd(13, 13);
    Pow2NatAdd(26, 26);
  }

  lemma HighestBitBelow53(t: nat)
    requires 1 <= t < Pow2Nat(53)
    ensures HighestBit(t) <= 52
  {
    var k := HighestBit(t);
    if k > 52 {
      Pow2NatMonotone(53, k);
    }
  }

  /**
   * The binary64 word, as an unsigned number, of `(double) t` for a long
   * `0 <= t < 2^53`: every such long converts exactly, with biased exponent
   * `1023 + k` for its highest set bit `k` and the bits below `k` as fraction.
   */
  function DoubleWordOfLong(t: nat): (word: nat)
    requires t < Pow2Nat(53)
    ensures t == 0 ==> word == 0
    ensures t >= 1 ==> 0x3FF0_0000_0000_0000 <= word < 0x8000_0000_0000_0000
  {
    if t == 0 then 0
    else
      HighestBitBelow53(t);
      var k := HighestBit(t);
      WordBounds(k, Fraction(t, k));
      (k + 1023) * 0x10_0000_0000_0000 + Fraction(t, k)
  }
}
