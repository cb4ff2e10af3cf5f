/** The zig-zag map between signed integers and wire values, as arithmetic and as the
    shift-and-xor spelling of it. */
module ZigZag {
  import opened Varint
  import opened Words

  type i64 = x: int | -0x8000_0000_0000_0000 <= x < 0x8000_0000_0000_0000

  /** Small magnitudes of either sign map to small numbers. */
  function ZigZagEncode(v: i64): (u: u64)
  {
    if v >= 0 then 2 * v else -2 * v - 1
  }

  function ZigZagDecode(u: u64): (v: i64)
  {
    if u % 2 == 0 then u / 2 else -(u / 2) - 1
  }

  /** Every signed value survives the round trip, and every wire value is someone's image. */
  lemma ZigZagInverse(v: i64, u: u64)
    ensures ZigZagDecode(ZigZagEncode(v)) == v
    ensures ZigZagEncode(ZigZagDecode(u)) == u
  {
  }

  // ---------------------------------------------------------------- the bit form

  const SIGN: bv64 := 0x8000_0000_0000_0000

  /** `v >> 63` with the sign copied in. */
  function SignFill(v: bv64): bv64
  {
    if v & SIGN == 0 then 0 else 0xFFFF_FFFF_FFFF_FFFF
  }

  function EncodeBits(v: bv64): bv64
  {
    (v << 1) ^ SignFill(v)
  }

  function DecodeBits(u: bv64): bv64
  {
    (u >> 1) ^ (!(u & 1) + 1)
  }

  /** A non-negative word is doubled; the complement of a negative one is doubled and made odd. */
  lemma EncodeShape(v: bv64)
    ensures v & SIGN == 0 ==> EncodeBits(v) >> 1 == v && EncodeBits(v) & 1 == 0
    ensures v & SIGN != 0 ==> EncodeBits(v) >> 1 == !v && EncodeBits(v) & 1 != 0
  {
  }

  lemma MinusLowBit(b: bv64)
    requires b == 0 || b == 1
    ensures !b + 1 == if b == 0 then 0 else 0xFFFF_FFFF_FFFF_FFFF
  {
  }

  lemma LowBit(u: bv64)
    ensures u & 1 == 0 || u & 1 == 1
  {
  }

  lemma XorOnes(x: bv64)
    ensures x ^ 0xFFFF_FFFF_FFFF_FFFF == !x && x ^ 0 == x
  {
  }

  lemma DecodeShape(u: bv64)
    ensures DecodeBits(u) == if u & 1 == 0 then u >> 1 else !(u >> 1)
  {
    LowBit(u);
    MinusLowBit(u & 1);
    XorOnes(u >> 1);
  }

  lemma EncodeEven(u: bv64)
    requires u & 1 == 0
    ensures EncodeBits(u >> 1) == u
  {
  }

  lemma EncodeOdd(u: bv64)
    requires u & 1 != 0
    ensures EncodeBits(!(u >> 1)) == u
  {
  }

  lemma DoubleNot(v: bv64)
    ensures !(!v) == v
  {
  }

  /** The two bit forms undo each other on every word. */
  lemma BitsInverse(v: bv64)
    ensures DecodeBits(EncodeBits(v)) == v
    ensures EncodeBits(DecodeBits(v)) == v
  {
    DecodeShape(EncodeBits(v));
    EncodeShape(v);
    DoubleNot(v);
    DecodeShape(v);
    if v & 1 == 0 { EncodeEven(v); } else { EncodeOdd(v); }
  }

  // ---------------------------------------------------------------- the two forms are one

  /** The number a word denotes as two's complement. */
  function TwosComplement(v: bv64): (n: i64)
  {
    if Digits(v) < 0x8000_0000_0000_0000 then Digits(v) else Digits(v) - U64_LIMIT
  }

  lemma NotBits(v: bv64)
    ensures Bits7(!v) == 127 - Bits7(v)
  {
    assert (!v & 0x01 != 0) == (v & 0x01 == 0) && (!v & 0x02 != 0) == (v & 0x02 == 0);
    assert (!v & 0x04 != 0) == (v & 0x04 == 0) && (!v & 0x08 != 0) == (v & 0x08 == 0);
    assert (!v & 0x10 != 0) == (v & 0x10 == 0) && (!v & 0x20 != 0) == (v & 0x20 == 0);
    assert (!v & 0x40 != 0) == (v & 0x40 == 0);
  }

  lemma NotShifted(v: bv64)
    ensures (!v >> 7) & 0x7f == !(v >> 7) & 0x7f && (!v >> 14) & 0x7f == !(v >> 14) & 0x7f
    ensures (!v >> 21) & 0x7f == !(v >> 21) & 0x7f && (!v >> 28) & 0x7f == !(v >> 28) & 0x7f
    ensures (!v >> 35) & 0x7f == !(v >> 35) & 0x7f && (!v >> 42) & 0x7f == !(v >> 42) & 0x7f
    ensures (!v >> 49) & 0x7f == !(v >> 49) & 0x7f && (!v >> 56) & 0x7f == !(v >> 56) & 0x7f
    ensures !v >> 63 == if v >> 63 == 0 then 1 else 0
    ensures v >> 63 == 0 || v >> 63 == 1
  {
  }

  lemma NotDigit(v: bv64, w: bv64)
    requires w & 0x7f == !v & 0x7f
    ensures Bits7(w) == 127 - Bits7(v)
  {
    Bits7Mask(w);
    Bits7Mask(!v);
    NotBits(v);
  }

  lemma UnitBits()
    ensures Bits7(0) == 0 && Bits7(1) == 1
  {
  }

  lemma NotDigits(v: bv64)
    ensures Digits(!v) == U64_LIMIT - 1 - Digits(v)
  {
    hide Bits7;
    NotShifted(v);
    NotBits(v);
    NotDigit(v >> 7, !v >> 7); NotDigit(v >> 14, !v >> 14); NotDigit(v >> 21, !v >> 21); NotDigit(v >> 28, !v >> 28);
    NotDigit(v >> 35, !v >> 35); NotDigit(v >> 42, !v >> 42); NotDigit(v >> 49, !v >> 49); NotDigit(v >> 56, !v >> 56);
    UnitBits();
  }

  function Low(v: bv64): nat
  {
    if v & 1 == 0 then 0 else 1
  }

  /** Halving moves a digit's low bit out and the low bit of the digit above in. */
  predicate Halved(v: bv64, half: bv64, above: bv64)
  {
    Bits7(v) + 128 * Low(above) == 2 * Bits7(half) + Low(v)
  }

  lemma HalfFlags(v: bv64)
    ensures ((v >> 1) & 0x01 != 0) == (v & 0x02 != 0) && ((v >> 1) & 0x02 != 0) == (v & 0x04 != 0)
    ensures ((v >> 1) & 0x04 != 0) == (v & 0x08 != 0) && ((v >> 1) & 0x08 != 0) == (v & 0x10 != 0)
    ensures ((v >> 1) & 0x10 != 0) == (v & 0x20 != 0) && ((v >> 1) & 0x20 != 0) == (v & 0x40 != 0)
    ensures ((v >> 1) & 0x40 != 0) == ((v >> 7) & 0x01 != 0)
  {
  }

  lemma HalfDigit(v: bv64, half: bv64, above: bv64)
    requires half == v >> 1 && above == v >> 7
    ensures Halved(v, half, above)
  {
    HalfFlags(v);
  }

  lemma HalfDigitwise(v: bv64, above: bv64, half: bv64, rest: bv64)
    requires above == v >> 7 && half == v >> 1 && rest == half >> 7
    requires Digits(above) == 2 * Digits(rest) + Low(above)
    ensures Digits(v) == 2 * Digits(half) + Low(v)
  {
    hide Digits, Bits7, Low;
    DigitsShift(v);
    DigitsShift(half);
    HalfDigit(v, half, above);
  }

  lemma HalfOfOne(v: bv64, half: bv64, above: bv64)
    requires half == v >> 1 && above == v >> 7 && v < 128 && half < 128 && above == 0
    ensures Digits(v) == 2 * Digits(half) + Low(v)
  {
    hide Digits, Bits7;
    SmallIsDigit(v);
    SmallIsDigit(half);
    HalfDigit(v, half, above);
  }

  lemma HalfSmall(v: bv64)
    requires v < 128
    ensures Digits(v) == 2 * Digits(v >> 1) + Low(v)
  {
    hide *;
    assert v >> 1 < 128 && v >> 7 == 0;
    HalfOfOne(v, v >> 1, v >> 7);
  }

  lemma HalfCommutes(v: bv64)
    ensures Digits((v >> 1) >> 7) == Digits((v >> 7) >> 1)
  {
    hide *;
    assert (v >> 1) >> 7 == (v >> 7) >> 1;
  }

  lemma HalfStep(v: bv64)
    requires Digits(v >> 7) == 2 * Digits((v >> 7) >> 1) + Low(v >> 7)
    ensures Digits(v) == 2 * Digits(v >> 1) + Low(v)
  {
    hide *;
    HalfCommutes(v);
    HalfDigitwise(v, v >> 7, v >> 1, (v >> 1) >> 7);
  }

  lemma {:induction false} HalfDigits(v: bv64)
    ensures Digits(v) == 2 * Digits(v >> 1) + Low(v)
    decreases v
  {
    hide *;
    if v < 128 {
      HalfSmall(v);
    } else {
      SmallShift(v);
      HalfDigits(v >> 7);
      HalfStep(v);
    }
  }

  /** The shift-and-xor forms compute the arithmetic ones, on every word of either kind. */
  lemma BitsAreArithmetic(v: bv64)
    ensures TwosComplement(DecodeBits(v)) == ZigZagDecode(Digits(v))
    ensures Digits(EncodeBits(v)) == ZigZagEncode(TwosComplement(v))
  {
    hide Digits, EncodeBits, DecodeBits, Bits7;
    DecodesAlike(v);
    DecodesAlike(EncodeBits(v));
    BitsInverse(v);
    ZigZagInverse(0, Digits(EncodeBits(v)));
  }

  lemma DecodesAlike(u: bv64)
    ensures TwosComplement(DecodeBits(u)) == ZigZagDecode(Digits(u))
  {
    hide Digits, DecodeBits, Bits7;
    DecodeShape(u);
    HalfDigits(u);
    NotDigits(u >> 1);
  }
}
