/** The word-parallel kernels: eight varint bytes are spread from, or gathered into,
    one 64-bit word. Each is compared with the byte-at-a-time reference in `Varint`. */
module BitKernels {
  import opened Varint
  import opened Words

  // ---------------------------------------------------------------- spread and gather

  /** Two groups of 28 bits, one per half word. */
  function Round28(v: bv64): bv64
  {
    var w := v & 0x00FFFFFFFFFFFFFF;
    (w & 0x000000000FFFFFFF) | ((w & 0x00FFFFFFF0000000) << 4)
  }

  function Added14(w: bv64): bv64
  {
    w + 3 * (w & 0x0FFFC0000FFFC000)
  }

  function Added7(w: bv64): bv64
  {
    w + (w & 0x3F803F803F803F80)
  }

  /** Eight groups of seven bits, one per byte; the last two rounds are spelled as an add. */
  function Spread7(v: bv64): bv64
  {
    Added7(Added14(Round28(v)))
  }

  function Gather7(w: bv64): bv64
  {
    var w14 := (w & 0x007F007F007F007F) | ((w & 0x7F007F007F007F00) >> 1);
    var w28 := (w14 & 0x00003FFF00003FFF) | ((w14 & 0x3FFF00003FFF0000) >> 2);
    (w28 & 0x000000000FFFFFFF) | ((w28 & 0x0FFFFFFF00000000) >> 4)
  }

  function Masked14(w: bv64): bv64
  {
    (w & 0x00003FFF00003FFF) | ((w & 0x0FFFC0000FFFC000) << 2)
  }

  function Masked7(w: bv64): bv64
  {
    (w & 0x007F007F007F007F) | ((w & 0x3F803F803F803F80) << 1)
  }

  lemma AddRound14(w: bv64)
    requires w & 0x0FFFFFFF0FFFFFFF == w
    ensures Added14(w) == Masked14(w)
    ensures Masked14(w) & 0x3FFF3FFF3FFF3FFF == Masked14(w)
  {
  }

  lemma AddRound7(w: bv64)
    requires w & 0x3FFF3FFF3FFF3FFF == w
    ensures Added7(w) == Masked7(w)
  {
  }

  lemma AddRounds(w: bv64)
    requires w & 0x0FFFFFFF0FFFFFFF == w
    ensures Added7(Added14(w)) == Masked7(Masked14(w))
  {
    AddRound14(w);
    AddRound7(Masked14(w));
  }

  lemma Round28Fits(v: bv64)
    ensures Round28(v) & 0x0FFFFFFF0FFFFFFF == Round28(v)
  {
  }

  /** The adds are the split-mask-and-recombine rounds: no group carries into the next. */
  lemma SpreadIsMasks(v: bv64)
    ensures Spread7(v) == Masked7(Masked14(Round28(v)))
  {
    Round28Fits(v);
    AddRounds(Round28(v));
  }

  lemma MasksInverse(v: bv64)
    ensures Gather7(Masked7(Masked14(Round28(v)))) == v & 0x00FFFFFFFFFFFFFF
  {
  }

  /** `gather7` undoes `spread7` on the low 56 bits. */
  lemma GatherSpread(v: bv64)
    ensures Gather7(Spread7(v)) == v & 0x00FFFFFFFFFFFFFF
  {
    SpreadIsMasks(v);
    MasksInverse(v);
  }

  // ---------------------------------------------------------------- padded encoding

  /** The code's byte loop over a word. */
  function EncodeWord(v: bv64): (s: seq<byte>)
    ensures |s| >= 1
    decreases v
  {
    if v < 128 then [Bits7(v)]
    else
      SmallShift(v);
      [Bits7(v) + 128] + EncodeWord(v >> 7)
  }

  lemma {:induction false} EncodeWordIsReference(v: bv64)
    ensures EncodeWord(v) == Encode(NatOf(v))
    decreases v
  {
    NatOfSmall(v);
    if v >= 128 {
      SmallShift(v);
      EncodeWordIsReference(v >> 7);
    }
  }

  /** `i` digits dropped. */
  function Drop(v: bv64, i: nat): bv64
  {
    if i == 0 then v else Drop(v >> 7, i - 1)
  }

  /** Every byte of a varint but the last is a tagged digit; the last is a plain one. */
  lemma {:induction false} EncodeWordAt(v: bv64, i: nat)
    requires i < |EncodeWord(v)|
    ensures EncodeWord(v)[i] == Bits7(Drop(v, i)) + if i < |EncodeWord(v)| - 1 then 128 else 0
    decreases i
  {
    if v >= 128 && i > 0 {
      EncodeWordAt(v >> 7, i - 1);
    }
  }

  /** Bits up to and including the highest set one: 64 - countl_zero. */
  function BitWidth(v: bv64): (n: nat)
    decreases v
  {
    if v == 0 then 0 else
      HalfIsSmaller(v);
      1 + BitWidth(v >> 1)
  }

  lemma HalfIsSmaller(v: bv64)
    requires v != 0
    ensures v >> 1 < v
  {
  }

  lemma BitWidthStep(v: bv64, w: bv64)
    requires v != 0 && w == v >> 1
    ensures BitWidth(v) == 1 + BitWidth(w)
  {
  }

  lemma SevenHalves(v: bv64)
    requires v >= 128
    ensures v >> 1 >> 1 == v >> 2 && v >> 2 >> 1 == v >> 3 && v >> 3 >> 1 == v >> 4
    ensures v >> 4 >> 1 == v >> 5 && v >> 5 >> 1 == v >> 6 && v >> 6 >> 1 == v >> 7
    ensures v != 0 && v >> 1 != 0 && v >> 2 != 0 && v >> 3 != 0 && v >> 4 != 0 && v >> 5 != 0 && v >> 6 != 0
  {
  }

  lemma BitWidthOfLong(v: bv64)
    requires v >= 128
    ensures BitWidth(v) == 7 + BitWidth(v >> 7)
  {
    hide BitWidth;
    SevenHalves(v);
    BitWidthStep(v, v >> 1); BitWidthStep(v >> 1, v >> 2); BitWidthStep(v >> 2, v >> 3);
    BitWidthStep(v >> 3, v >> 4); BitWidthStep(v >> 4, v >> 5); BitWidthStep(v >> 5, v >> 6);
    BitWidthStep(v >> 6, v >> 7);
  }

  lemma BitWidthOfShort(v: bv64)
    requires v < 128
    ensures BitWidth(v) <= 7
  {
    ShortHalves(v);
    if v != 0 { BitWidthStep(v, v >> 1); }
    if v >> 1 != 0 { BitWidthStep(v >> 1, v >> 2); }
    if v >> 2 != 0 { BitWidthStep(v >> 2, v >> 3); }
    if v >> 3 != 0 { BitWidthStep(v >> 3, v >> 4); }
    if v >> 4 != 0 { BitWidthStep(v >> 4, v >> 5); }
    if v >> 5 != 0 { BitWidthStep(v >> 5, v >> 6); }
    if v >> 6 != 0 { BitWidthStep(v >> 6, v >> 7); }
  }

  lemma ShortHalves(v: bv64)
    requires v < 128
    ensures v >> 1 >> 1 == v >> 2 && v >> 2 >> 1 == v >> 3 && v >> 3 >> 1 == v >> 4
    ensures v >> 4 >> 1 == v >> 5 && v >> 5 >> 1 == v >> 6 && v >> 6 >> 1 == v >> 7 && v >> 7 == 0
    ensures v >> 6 == 0 ==> v >> 7 == 0
  {
  }

  /** The multiply-and-shift length is ceil(width / 7), which is the number of bytes. */
  lemma {:induction false} LengthFormula(v: bv64)
    requires v != 0
    ensures |EncodeWord(v)| == (BitWidth(v) + 6) / 7
    ensures BitWidth(v) <= 7 * |EncodeWord(v)|
    decreases v
  {
    if v < 128 {
      BitWidthOfShort(v);
      BitWidthStep(v, v >> 1);
    } else {
      BitWidthOfLong(v);
      SmallShift(v);
      LengthFormula(v >> 7);
    }
  }

  lemma ShortLength(b: nat)
    requires b <= 70
    ensures (b * 9 + 64) / 64 == if b == 0 then 1 else (b + 6) / 7
  {
    if b <= 7 {
    } else if b <= 14 {
    } else if b <= 21 {
    } else if b <= 28 {
    } else if b <= 35 {
    } else if b <= 42 {
    } else if b <= 49 {
    } else if b <= 56 {
    } else if b <= 63 {
    }
  }

  lemma DropTen(v: bv64)
    ensures Drop(v, 1) == v >> 7 && Drop(v, 2) == v >> 14 && Drop(v, 3) == v >> 21 && Drop(v, 4) == v >> 28
    ensures Drop(v, 5) == v >> 35 && Drop(v, 6) == v >> 42 && Drop(v, 7) == v >> 49 && Drop(v, 8) == v >> 56
    ensures Drop(v, 9) == v >> 63
  {
    DropShift(v, 0, v); Shifts(v);
    DropShift(v, 1, v >> 7);
    assert v >> 14 >> 7 == v >> 21 && v >> 21 >> 7 == v >> 28 && v >> 28 >> 7 == v >> 35;
    assert v >> 35 >> 7 == v >> 42 && v >> 42 >> 7 == v >> 49 && v >> 49 >> 7 == v >> 56 && v >> 56 >> 7 == v >> 63;
    DropShift(v, 2, v >> 14); DropShift(v, 3, v >> 21); DropShift(v, 4, v >> 28); DropShift(v, 5, v >> 35);
    DropShift(v, 6, v >> 42); DropShift(v, 7, v >> 49); DropShift(v, 8, v >> 56);
  }

  lemma {:induction false} DropShift(v: bv64, i: nat, w: bv64)
    requires Drop(v, i) == w
    ensures Drop(v, i + 1) == w >> 7
    decreases i
  {
    if i > 0 { DropShift(v >> 7, i - 1, w); }
  }

  /** Byte `i` of the padded word carries digit `i` and the continuation bit. */
  lemma SpreadDigits(v: bv64)
    ensures var w := Masked7(Masked14(Round28(v))) | 0x8080808080808080;
            && w & 0xff == (v & 0x7f) | 0x80
            && (w >> 8) & 0xff == ((v >> 7) & 0x7f) | 0x80
            && (w >> 16) & 0xff == ((v >> 14) & 0x7f) | 0x80
            && (w >> 24) & 0xff == ((v >> 21) & 0x7f) | 0x80
            && (w >> 32) & 0xff == ((v >> 28) & 0x7f) | 0x80
            && (w >> 40) & 0xff == ((v >> 35) & 0x7f) | 0x80
            && (w >> 48) & 0xff == ((v >> 42) & 0x7f) | 0x80
            && (w >> 56) & 0xff == ((v >> 49) & 0x7f) | 0x80
  {
  }

  lemma LowByteMask(w: bv64, x: bv64)
    requires w & 0xff == (x & 0x7f) | 0x80
    ensures LowByte(w) == Bits7(x) + 128
  {
    assert w & 0x7f == x & 0x7f && w & 0x80 != 0;
    Bits7Mask(w);
    Bits7Mask(x);
  }

  /** Ten tagged digits, the last one bare. */
  predicate IsPadded(v: bv64, s: seq<byte>)
  {
    && |s| == VARINT_MAX_BYTES
    && (forall i :: 0 <= i < 9 ==> s[i] == Bits7(Drop(v, i)) + 128)
    && s[9] == Bits7(Drop(v, 9))
  }

  lemma PaddedWord(v: bv64, w: bv64)
    requires w & 0xff == (v & 0x7f) | 0x80
    requires (w >> 8) & 0xff == ((v >> 7) & 0x7f) | 0x80
    requires (w >> 16) & 0xff == ((v >> 14) & 0x7f) | 0x80
    requires (w >> 24) & 0xff == ((v >> 21) & 0x7f) | 0x80
    requires (w >> 32) & 0xff == ((v >> 28) & 0x7f) | 0x80
    requires (w >> 40) & 0xff == ((v >> 35) & 0x7f) | 0x80
    requires (w >> 48) & 0xff == ((v >> 42) & 0x7f) | 0x80
    requires (w >> 56) & 0xff == ((v >> 49) & 0x7f) | 0x80
    ensures LowByte(w) == Bits7(v) + 128 && LowByte(w >> 8) == Bits7(v >> 7) + 128
    ensures LowByte(w >> 16) == Bits7(v >> 14) + 128 && LowByte(w >> 24) == Bits7(v >> 21) + 128
    ensures LowByte(w >> 32) == Bits7(v >> 28) + 128 && LowByte(w >> 40) == Bits7(v >> 35) + 128
    ensures LowByte(w >> 48) == Bits7(v >> 42) + 128 && LowByte(w >> 56) == Bits7(v >> 49) + 128
  {
    LowByteMask(w, v); LowByteMask(w >> 8, v >> 7); LowByteMask(w >> 16, v >> 14); LowByteMask(w >> 24, v >> 21);
    LowByteMask(w >> 32, v >> 28); LowByteMask(w >> 40, v >> 35); LowByteMask(w >> 48, v >> 42);
    LowByteMask(w >> 56, v >> 49);
  }

  lemma TailBytes(v: bv64)
    ensures LowByte(((v >> 56) & 0x7f) | 0x80) == Bits7(v >> 56) + 128
    ensures LowByte(v >> 63) == Bits7(v >> 63)
  {
    assert (((v >> 56) & 0x7f) | 0x80) & 0xff == ((v >> 56) & 0x7f) | 0x80;
    LowByteMask(((v >> 56) & 0x7f) | 0x80, v >> 56);
    assert (v >> 63) & 0x80 == 0;
  }

  lemma SpreadWord(v: bv64, w: bv64)
    requires w == Spread7(v) | 0x8080808080808080
    ensures LowByte(w) == Bits7(v) + 128 && LowByte(w >> 8) == Bits7(v >> 7) + 128
    ensures LowByte(w >> 16) == Bits7(v >> 14) + 128 && LowByte(w >> 24) == Bits7(v >> 21) + 128
    ensures LowByte(w >> 32) == Bits7(v >> 28) + 128 && LowByte(w >> 40) == Bits7(v >> 35) + 128
    ensures LowByte(w >> 48) == Bits7(v >> 42) + 128 && LowByte(w >> 56) == Bits7(v >> 49) + 128
  {
    SpreadIsMasks(v);
    SpreadDigits(v);
    PaddedWord(v, w);
  }

  /** The bytes laid down before the last one is untagged: eight from the spread word,
      two from what is left of a 64-bit value. */
  method PadWord(v: bv64) returns (s: seq<byte>)
    ensures IsPadded(v, s)
  {
    hide Spread7, LowByte, Bits7;
    var w := Spread7(v) | 0x8080808080808080;
    SpreadWord(v, w);
    TailBytes(v);
    DropTen(v);
    s := [LowByte(w), LowByte(w >> 8), LowByte(w >> 16), LowByte(w >> 24),
          LowByte(w >> 32), LowByte(w >> 40), LowByte(w >> 48), LowByte(w >> 56),
          LowByte(((v >> 56) & 0x7f) | 0x80), LowByte(v >> 63)];
  }

  /** Untagging byte n - 1 leaves exactly the byte loop's output in the first n bytes. */
  lemma PaddedIsReference(v: bv64, s: seq<byte>, n: nat)
    requires IsPadded(v, s) && n == |EncodeWord(v)| && n <= VARINT_MAX_BYTES
    ensures s[..n][n - 1 := s[n - 1] % 128] == EncodeWord(v)
  {
    var t := s[..n][n - 1 := s[n - 1] % 128];
    forall i | 0 <= i < n ensures t[i] == EncodeWord(v)[i] {
      EncodeWordAt(v, i);
    }
  }

  lemma PaddedLength(v: bv64)
    requires v >= 128
    ensures (BitWidth(v) * 9 + 64) / 64 == |EncodeWord(v)| <= VARINT_MAX_BYTES
  {
    EncodeWordIsReference(v);
    NatOfIsU64(v);
    DecodeEncode(NatOf(v), []);
    LengthFormula(v);
    BitWidthOfLong(v);
    ShortLength(BitWidth(v));
  }

  /** The padded bytes of a value and how many of them are the varint. */
  method Pad(value: u64) returns (s: seq<byte>, n: nat)
    requires value >= 128
    ensures |s| == VARINT_MAX_BYTES && 1 <= n <= VARINT_MAX_BYTES
    ensures s[..n][n - 1 := s[n - 1] % 128] == Encode(value)
  {
    var v := WordOf(value);
    NatOfWordOf(value);
    NatOfSmall(v);
    s := PadWord(v);
    PaddedLength(v);
    n := (BitWidth(v) * 9 + 64) / 64;
    PaddedIsReference(v, s, n);
    EncodeWordIsReference(v);
  }

  /** Write a varint where ten bytes are writable. Bytes past the returned length are
      scratch, but no store leaves the ten-byte window. */
  method EncodeVarintPadded(out: array<byte>, o: nat, value: u64) returns (n: nat)
    requires o + VARINT_MAX_BYTES <= out.Length
    modifies out
    ensures n == |Encode(value)| && n <= VARINT_MAX_BYTES
    ensures out[o..o + n] == Encode(value)
    ensures out[..o] == old(out[..o]) && out[o + VARINT_MAX_BYTES..] == old(out[o + VARINT_MAX_BYTES..])
  {
    DecodeEncode(value, []);
    if value < 128 {
      out[o] := value;
      return 1;
    }
    var padded, size := Pad(value);
    n := size;
    forall i | 0 <= i < VARINT_MAX_BYTES { out[o + i] := padded[i]; }
    out[o + n - 1] := out[o + n - 1] % 128;
    assert out[o..o + n] == padded[..n][n - 1 := padded[n - 1] % 128];
  }

  /** The byte-at-a-time encoder. */
  method EncodeVarint(value: u64) returns (s: seq<byte>)
    ensures s == Encode(value)
  {
    s := [];
    var v: u64 := value;
    while v >= 128
      invariant s + Encode(v) == Encode(value)
      decreases v
    {
      s := s + [v % 128 + 128];
      v := v / 128;
    }
    s := s + [v];
  }
}
