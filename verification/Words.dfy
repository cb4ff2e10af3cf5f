/** 64-bit words and the numbers they hold, digit by digit in base 128.
    Facts about bits and facts about numbers are kept in separate lemmas. */
module Words {
  import opened Varint

  // ---------------------------------------------------------------- one digit

  function Flags(b0: bool, b1: bool, b2: bool, b3: bool, b4: bool, b5: bool, b6: bool): bv64
  {
    (if b0 then 0x01 else 0) | (if b1 then 0x02 else 0) | (if b2 then 0x04 else 0) |
    (if b3 then 0x08 else 0) | (if b4 then 0x10 else 0) | (if b5 then 0x20 else 0) |
    (if b6 then 0x40 else 0)
  }

  function Sum(b0: bool, b1: bool, b2: bool, b3: bool, b4: bool, b5: bool, b6: bool): nat
  {
    (if b0 then 1 else 0) + (if b1 then 2 else 0) + (if b2 then 4 else 0) + (if b3 then 8 else 0) +
    (if b4 then 16 else 0) + (if b5 then 32 else 0) + (if b6 then 64 else 0)
  }

  /** The number in the low seven bits. */
  function Bits7(v: bv64): (d: nat)
    ensures d < 128
  {
    Sum(v & 0x01 != 0, v & 0x02 != 0, v & 0x04 != 0, v & 0x08 != 0, v & 0x10 != 0, v & 0x20 != 0, v & 0x40 != 0)
  }

  /** The word holding one digit. */
  function Word7(d: nat): bv64
    requires d < 128
  {
    var (d1, d2, d3) := (d / 2, d / 2 / 2, d / 2 / 2 / 2);
    var (d4, d5, d6) := (d3 / 2, d3 / 2 / 2, d3 / 2 / 2 / 2);
    Flags(d % 2 == 1, d1 % 2 == 1, d2 % 2 == 1, d3 % 2 == 1, d4 % 2 == 1, d5 % 2 == 1, d6 % 2 == 1)
  }

  lemma FlagsSum(b0: bool, b1: bool, b2: bool, b3: bool, b4: bool, b5: bool, b6: bool)
    ensures Bits7(Flags(b0, b1, b2, b3, b4, b5, b6)) == Sum(b0, b1, b2, b3, b4, b5, b6)
    ensures Flags(b0, b1, b2, b3, b4, b5, b6) < 128
  {
  }

  lemma DigitSum(d: nat)
    requires d < 128
    ensures var (d1, d2, d3) := (d / 2, d / 2 / 2, d / 2 / 2 / 2);
            var (d4, d5, d6) := (d3 / 2, d3 / 2 / 2, d3 / 2 / 2 / 2);
            Sum(d % 2 == 1, d1 % 2 == 1, d2 % 2 == 1, d3 % 2 == 1, d4 % 2 == 1, d5 % 2 == 1, d6 % 2 == 1) == d
  {
    var (d1, d2, d3) := (d / 2, d / 2 / 2, d / 2 / 2 / 2);
    var (d4, d5, d6) := (d3 / 2, d3 / 2 / 2, d3 / 2 / 2 / 2);
    assert d6 == if d6 % 2 == 1 then 1 else 0;
    Halve(d); Halve(d1); Halve(d2); Halve(d3); Halve(d4); Halve(d5);
  }

  lemma Halve(d: nat)
    ensures d == 2 * (d / 2) + if d % 2 == 1 then 1 else 0
  {
  }

  lemma Word7Bits(d: nat)
    requires d < 128
    ensures Bits7(Word7(d)) == d && Word7(d) < 128
  {
    var (d1, d2, d3) := (d / 2, d / 2 / 2, d / 2 / 2 / 2);
    var (d4, d5, d6) := (d3 / 2, d3 / 2 / 2, d3 / 2 / 2 / 2);
    FlagsSum(d % 2 == 1, d1 % 2 == 1, d2 % 2 == 1, d3 % 2 == 1, d4 % 2 == 1, d5 % 2 == 1, d6 % 2 == 1);
    DigitSum(d);
  }

  lemma Bits7Mask(v: bv64)
    ensures Bits7(v & 0x7f) == Bits7(v)
  {
  }

  lemma Bits7Bit(v: bv64)
    requires v < 2
    ensures Bits7(v) < 2
  {
    assert v & 0x02 == 0 && v & 0x04 == 0 && v & 0x08 == 0 && v & 0x10 == 0 && v & 0x20 == 0 && v & 0x40 == 0;
  }

  /** The word holding one octet. */
  function Word8(b: byte): bv64
  {
    Word7(b % 128) | (if b >= 128 then 0x80 else 0)
  }

  /** The octet in the low eight bits. */
  function LowByte(v: bv64): (b: byte)
  {
    Bits7(v) + (if v & 0x80 != 0 then 128 else 0)
  }

  // ---------------------------------------------------------------- ten digits

  /** Nine digits of seven bits and the topmost bit. */
  function Join(x0: bv64, x1: bv64, x2: bv64, x3: bv64, x4: bv64,
                x5: bv64, x6: bv64, x7: bv64, x8: bv64, x9: bv64): bv64
  {
    x0 | (x1 << 7) | (x2 << 14) | (x3 << 21) | (x4 << 28) |
    (x5 << 35) | (x6 << 42) | (x7 << 49) | (x8 << 56) | (x9 << 63)
  }

  lemma JoinDigits(x0: bv64, x1: bv64, x2: bv64, x3: bv64, x4: bv64,
                   x5: bv64, x6: bv64, x7: bv64, x8: bv64, x9: bv64, w: bv64)
    requires x0 < 128 && x1 < 128 && x2 < 128 && x3 < 128 && x4 < 128
    requires x5 < 128 && x6 < 128 && x7 < 128 && x8 < 128 && x9 < 2
    requires w == Join(x0, x1, x2, x3, x4, x5, x6, x7, x8, x9)
    ensures w & 0x7f == x0 && (w >> 7) & 0x7f == x1 && (w >> 14) & 0x7f == x2 && (w >> 21) & 0x7f == x3
    ensures (w >> 28) & 0x7f == x4 && (w >> 35) & 0x7f == x5 && (w >> 42) & 0x7f == x6
    ensures (w >> 49) & 0x7f == x7 && (w >> 56) & 0x7f == x8 && w >> 63 == x9
  {
  }

  function Horner(d0: nat, d1: nat, d2: nat, d3: nat, d4: nat, d5: nat, d6: nat, d7: nat, d8: nat, d9: nat): nat
  {
    d0 + 128 * (d1 + 128 * (d2 + 128 * (d3 + 128 * (d4 + 128 * (d5 + 128 * (d6 + 128 * (d7 + 128 * (d8 + 128 * d9))))))))
  }

  /** The number a 64-bit word denotes, all digits at once. */
  function Digits(v: bv64): (n: u64)
  {
    TopBit(v);
    Horner(Bits7(v), Bits7(v >> 7), Bits7(v >> 14), Bits7(v >> 21), Bits7(v >> 28),
           Bits7(v >> 35), Bits7(v >> 42), Bits7(v >> 49), Bits7(v >> 56), Bits7(v >> 63))
  }

  /** The word holding a number: the conversion to the 64-bit accumulator. */
  function WordOf(n: u64): bv64
  {
    var (n1, n2, n3) := (n / 128, n / 128 / 128, n / 128 / 128 / 128);
    var (n4, n5, n6) := (n3 / 128, n3 / 128 / 128, n3 / 128 / 128 / 128);
    var (n7, n8, n9) := (n6 / 128, n6 / 128 / 128, n6 / 128 / 128 / 128);
    Join(Word7(n % 128), Word7(n1 % 128), Word7(n2 % 128), Word7(n3 % 128), Word7(n4 % 128),
         Word7(n5 % 128), Word7(n6 % 128), Word7(n7 % 128), Word7(n8 % 128), Word7(n9))
  }

  lemma TopBit(v: bv64)
    ensures Bits7(v >> 63) < 2
  {
    assert v >> 63 < 2;
    Bits7Bit(v >> 63);
  }

  lemma SameDigit(y: bv64, x: bv64)
    requires y & 0x7f == x
    ensures Bits7(y) == Bits7(x)
  {
    Bits7Mask(y);
  }

  lemma JoinBits(x0: bv64, x1: bv64, x2: bv64, x3: bv64, x4: bv64,
                 x5: bv64, x6: bv64, x7: bv64, x8: bv64, x9: bv64, w: bv64)
    requires w & 0x7f == x0 && (w >> 7) & 0x7f == x1 && (w >> 14) & 0x7f == x2 && (w >> 21) & 0x7f == x3
    requires (w >> 28) & 0x7f == x4 && (w >> 35) & 0x7f == x5 && (w >> 42) & 0x7f == x6
    requires (w >> 49) & 0x7f == x7 && (w >> 56) & 0x7f == x8 && w >> 63 == x9
    ensures Digits(w) == Horner(Bits7(x0), Bits7(x1), Bits7(x2), Bits7(x3), Bits7(x4),
                               Bits7(x5), Bits7(x6), Bits7(x7), Bits7(x8), Bits7(x9))
  {
    SameDigit(w, x0); SameDigit(w >> 7, x1); SameDigit(w >> 14, x2); SameDigit(w >> 21, x3);
    SameDigit(w >> 28, x4); SameDigit(w >> 35, x5); SameDigit(w >> 42, x6);
    SameDigit(w >> 49, x7); SameDigit(w >> 56, x8);
  }

  lemma JoinNat(x0: bv64, x1: bv64, x2: bv64, x3: bv64, x4: bv64,
                x5: bv64, x6: bv64, x7: bv64, x8: bv64, x9: bv64, w: bv64)
    requires x0 < 128 && x1 < 128 && x2 < 128 && x3 < 128 && x4 < 128
    requires x5 < 128 && x6 < 128 && x7 < 128 && x8 < 128 && x9 < 2
    requires w == Join(x0, x1, x2, x3, x4, x5, x6, x7, x8, x9)
    ensures Digits(w) == Horner(Bits7(x0), Bits7(x1), Bits7(x2), Bits7(x3), Bits7(x4),
                               Bits7(x5), Bits7(x6), Bits7(x7), Bits7(x8), Bits7(x9))
  {
    JoinDigits(x0, x1, x2, x3, x4, x5, x6, x7, x8, x9, w);
    JoinBits(x0, x1, x2, x3, x4, x5, x6, x7, x8, x9, w);
  }

  lemma Word7One(d: nat)
    requires d < 2
    ensures Word7(d) < 2
  {
    FlagsOne(d % 2 == 1);
  }

  lemma FlagsOne(b: bool)
    ensures Flags(b, false, false, false, false, false, false) < 2
  {
  }

  lemma DigitsOfWordOf(n: u64)
    ensures Digits(WordOf(n)) == n
  {
    var (n1, n2, n3) := (n / 128, n / 128 / 128, n / 128 / 128 / 128);
    var (n4, n5, n6) := (n3 / 128, n3 / 128 / 128, n3 / 128 / 128 / 128);
    var (n7, n8, n9) := (n6 / 128, n6 / 128 / 128, n6 / 128 / 128 / 128);
    Word7Bits(n % 128); Word7Bits(n1 % 128); Word7Bits(n2 % 128); Word7Bits(n3 % 128); Word7Bits(n4 % 128);
    Word7Bits(n5 % 128); Word7Bits(n6 % 128); Word7Bits(n7 % 128); Word7Bits(n8 % 128); Word7Bits(n9);
    Word7One(n9);
    JoinNat(Word7(n % 128), Word7(n1 % 128), Word7(n2 % 128), Word7(n3 % 128), Word7(n4 % 128),
            Word7(n5 % 128), Word7(n6 % 128), Word7(n7 % 128), Word7(n8 % 128), Word7(n9), WordOf(n));
    HornerDigits(n);
  }

  lemma HornerDigits(n: u64)
    ensures var (n1, n2, n3) := (n / 128, n / 128 / 128, n / 128 / 128 / 128);
            var (n4, n5, n6) := (n3 / 128, n3 / 128 / 128, n3 / 128 / 128 / 128);
            var (n7, n8, n9) := (n6 / 128, n6 / 128 / 128, n6 / 128 / 128 / 128);
            n == Horner(n % 128, n1 % 128, n2 % 128, n3 % 128, n4 % 128, n5 % 128, n6 % 128, n7 % 128, n8 % 128, n9)
  {
  }

  // ---------------------------------------------------------------- one digit at a time

  lemma Shifts(v: bv64)
    ensures (v >> 7) >> 7 == v >> 14 && (v >> 7) >> 14 == v >> 21 && (v >> 7) >> 21 == v >> 28
    ensures (v >> 7) >> 28 == v >> 35 && (v >> 7) >> 35 == v >> 42 && (v >> 7) >> 42 == v >> 49
    ensures (v >> 7) >> 49 == v >> 56 && (v >> 7) >> 56 == v >> 63 && (v >> 7) >> 63 == 0
  {
  }

  /** Shifting a word by seven drops its lowest digit. */
  lemma DigitsShift(v: bv64)
    ensures Digits(v) == Bits7(v) + 128 * Digits(v >> 7)
    ensures Digits(v) % 128 == Bits7(v) && Digits(v) / 128 == Digits(v >> 7)
  {
    Shifts(v);
    assert Bits7(0) == 0;
  }

  lemma SmallShift(v: bv64)
    ensures v < 128 <==> v >> 7 == 0
  {
  }

  lemma SmallShifts(v: bv64)
    requires v < 128
    ensures v >> 7 == 0 && v >> 14 == 0 && v >> 21 == 0 && v >> 28 == 0 && v >> 35 == 0
    ensures v >> 42 == 0 && v >> 49 == 0 && v >> 56 == 0 && v >> 63 == 0
  {
  }

  lemma OneDigit(v: bv64)
    requires v >> 7 == 0 && v >> 14 == 0 && v >> 21 == 0 && v >> 28 == 0 && v >> 35 == 0
    requires v >> 42 == 0 && v >> 49 == 0 && v >> 56 == 0 && v >> 63 == 0
    ensures Digits(v) == Bits7(v)
  {
    assert Bits7(0) == 0;
  }

  lemma SmallIsDigit(v: bv64)
    requires v < 128
    ensures Digits(v) == Bits7(v)
  {
    SmallShifts(v);
    OneDigit(v);
  }

  lemma ClearBits(v: bv64)
    requires Bits7(v) == 0
    ensures v & 0x7f == 0
  {
  }

  lemma AllClear(v: bv64)
    requires Digits(v) == 0
    ensures v == 0
  {
    ClearBits(v); ClearBits(v >> 7); ClearBits(v >> 14); ClearBits(v >> 21); ClearBits(v >> 28);
    ClearBits(v >> 35); ClearBits(v >> 42); ClearBits(v >> 49); ClearBits(v >> 56); ClearBits(v >> 63);
    ClearWord(v);
  }

  lemma ClearWord(v: bv64)
    requires v & 0x7f == 0 && (v >> 7) & 0x7f == 0 && (v >> 14) & 0x7f == 0 && (v >> 21) & 0x7f == 0
    requires (v >> 28) & 0x7f == 0 && (v >> 35) & 0x7f == 0 && (v >> 42) & 0x7f == 0
    requires (v >> 49) & 0x7f == 0 && (v >> 56) & 0x7f == 0 && (v >> 63) & 0x7f == 0
    ensures v == 0
  {
  }

  // ---------------------------------------------------------------- the denotation

  /** The number a 64-bit word denotes. */
  function NatOf(v: bv64): (n: nat)
    decreases v
  {
    if v < 128 then Bits7(v)
    else
      SmallShift(v);
      Bits7(v) + 128 * NatOf(v >> 7)
  }

  lemma {:induction false} NatOfDigits(v: bv64)
    ensures NatOf(v) == Digits(v)
    decreases v
  {
    if v < 128 {
      SmallIsDigit(v);
    } else {
      SmallShift(v);
      NatOfDigits(v >> 7);
      DigitsShift(v);
    }
  }

  /** The conversions between words and numbers are inverse on every 64-bit value. */
  lemma NatOfWordOf(n: u64)
    ensures NatOf(WordOf(n)) == n
  {
    NatOfDigits(WordOf(n));
    DigitsOfWordOf(n);
  }

  lemma NatOfIsU64(v: bv64)
    ensures NatOf(v) < U64_LIMIT
  {
    NatOfDigits(v);
  }

  lemma LongIsPositive(v: bv64)
    requires v != 0
    ensures NatOf(v) > 0
  {
    NatOfDigits(v);
    if Digits(v) == 0 { AllClear(v); }
  }

  /** Exactly the words below 128 denote one-digit numbers. */
  lemma NatOfSmall(v: bv64)
    ensures v < 128 <==> NatOf(v) < 128
  {
    if v >= 128 {
      SmallShift(v);
      LongIsPositive(v >> 7);
    }
  }
}
