/** The decoder's varint readers: eight bytes at once inside a full window, byte by
    byte at the buffer tail. All of them agree with `Varint.Decode` on value, cursor,
    truncation and over-64-bit rejection. */
module VarintReaders {
  import opened Varint
  import opened Words
  import opened BitKernels

  // ---------------------------------------------------------------- eight bytes as a word

  /** The low byte of `w` is the octet `b`: its digit and its continuation bit. */
  predicate Lane(w: bv64, b: byte)
  {
    Bits7(w) == b % 128 && (w & 0x80 != 0 <==> b >= 128)
  }

  lemma Word8Parts(d: bv64, tag: bool, x: bv64)
    requires d < 128 && x == d | (if tag then 0x80 else 0)
    ensures x < 256 && x & 0x7f == d && (x & 0x80 != 0 <==> tag)
  {
  }

  lemma Word8Lane(b: byte)
    ensures Lane(Word8(b), b) && Word8(b) < 256
  {
    Word7Bits(b % 128);
    Word8Parts(Word7(b % 128), b >= 128, Word8(b));
    Bits7Mask(Word8(b));
  }

  lemma LaneMove(w: bv64, x: bv64, b: byte)
    requires w & 0xff == x && Lane(x, b)
    ensures Lane(w, b)
  {
    LaneBits(w, x);
    Bits7Mask(w);
    Bits7Mask(x);
  }

  lemma LaneBits(w: bv64, x: bv64)
    requires w & 0xff == x
    ensures w & 0x7f == x & 0x7f && w & 0x80 == x & 0x80
  {
  }

  /** The bytes of `w`, lowest first, are those of `s`. */
  predicate ByteView(w: bv64, s: seq<byte>)
  {
    s == [] || (Lane(w, s[0]) && ByteView(w >> 8, s[1..]))
  }

  lemma ByteViewCons(w: bv64, h: bv64, b: byte, t: seq<byte>)
    requires h == w >> 8 && Lane(w, b) && ByteView(h, t)
    ensures ByteView(w, [b] + t)
  {
    assert ([b] + t)[1..] == t;
  }

  lemma ByteViewEight(w0: bv64, w1: bv64, w2: bv64, w3: bv64, w4: bv64, w5: bv64, w6: bv64, w7: bv64, s: seq<byte>)
    requires |s| >= 8
    requires w1 == w0 >> 8 && w2 == w1 >> 8 && w3 == w2 >> 8 && w4 == w3 >> 8
    requires w5 == w4 >> 8 && w6 == w5 >> 8 && w7 == w6 >> 8
    requires Lane(w0, s[0]) && Lane(w1, s[1]) && Lane(w2, s[2]) && Lane(w3, s[3])
    requires Lane(w4, s[4]) && Lane(w5, s[5]) && Lane(w6, s[6]) && Lane(w7, s[7])
    ensures ByteView(w0, s[..8])
  {
    var t7: seq<byte> := [s[7]] + [];
    ByteViewCons(w7, w7 >> 8, s[7], []);
    var t6 := [s[6]] + t7; ByteViewCons(w6, w7, s[6], t7);
    var t5 := [s[5]] + t6; ByteViewCons(w5, w6, s[5], t6);
    var t4 := [s[4]] + t5; ByteViewCons(w4, w5, s[4], t5);
    var t3 := [s[3]] + t4; ByteViewCons(w3, w4, s[3], t4);
    var t2 := [s[2]] + t3; ByteViewCons(w2, w3, s[2], t3);
    var t1 := [s[1]] + t2; ByteViewCons(w1, w2, s[1], t2);
    var t0 := [s[0]] + t1; ByteViewCons(w0, w1, s[0], t1);
    assert t0 == s[..8];
  }

  lemma TwoLanes(w: bv64, v: bv64, x: bv64, y: bv64, b: byte, c: byte)
    requires w & 0xff == x && v & 0xff == y && Lane(x, b) && Lane(y, c)
    ensures Lane(w, b) && Lane(v, c)
  {
    LaneMove(w, x, b);
    LaneMove(v, y, c);
  }

  lemma ByteShifts(x0: bv64, x1: bv64, x2: bv64, x3: bv64, x4: bv64, x5: bv64, x6: bv64, x7: bv64, w: bv64)
      returns (w1: bv64, w2: bv64, w3: bv64, w4: bv64, w5: bv64, w6: bv64, w7: bv64)
    requires x0 < 256 && x1 < 256 && x2 < 256 && x3 < 256 && x4 < 256 && x5 < 256 && x6 < 256 && x7 < 256
    requires w == x0 | (x1 << 8) | (x2 << 16) | (x3 << 24) | (x4 << 32) | (x5 << 40) | (x6 << 48) | (x7 << 56)
    ensures w1 == w >> 8 && w2 == w1 >> 8 && w3 == w2 >> 8 && w4 == w3 >> 8
    ensures w5 == w4 >> 8 && w6 == w5 >> 8 && w7 == w6 >> 8
    ensures w & 0xff == x0 && w1 & 0xff == x1 && w2 & 0xff == x2 && w3 & 0xff == x3
    ensures w4 & 0xff == x4 && w5 & 0xff == x5 && w6 & 0xff == x6 && w7 & 0xff == x7
  {
    w1 := w >> 8; w2 := w1 >> 8; w3 := w2 >> 8; w4 := w3 >> 8; w5 := w4 >> 8; w6 := w5 >> 8; w7 := w6 >> 8;
  }

  /** Eight little-endian bytes of memory as one word. */
  method Load64(s: seq<byte>) returns (w: bv64)
    requires |s| >= 8
    ensures ByteView(w, s[..8])
  {
    var x0 := LoadByte(s[0]); var x1 := LoadByte(s[1]); var x2 := LoadByte(s[2]); var x3 := LoadByte(s[3]);
    var x4 := LoadByte(s[4]); var x5 := LoadByte(s[5]); var x6 := LoadByte(s[6]); var x7 := LoadByte(s[7]);
    w := x0 | (x1 << 8) | (x2 << 16) | (x3 << 24) | (x4 << 32) | (x5 << 40) | (x6 << 48) | (x7 << 56);
    var w1, w2, w3, w4, w5, w6, w7 := ByteShifts(x0, x1, x2, x3, x4, x5, x6, x7, w);
    TwoLanes(w, w1, x0, x1, s[0], s[1]);
    TwoLanes(w2, w3, x2, x3, s[2], s[3]);
    TwoLanes(w4, w5, x4, x5, s[4], s[5]);
    TwoLanes(w6, w7, x6, x7, s[6], s[7]);
    ByteViewEight(w, w1, w2, w3, w4, w5, w6, w7, s);
  }

  method LoadByte(b: byte) returns (x: bv64)
    ensures Lane(x, b) && x < 256
  {
    x := Word8(b);
    Word8Lane(b);
  }

  // ---------------------------------------------------------------- finding the terminator

  /** Index of the lowest nonzero byte, which is what `countr_zero(t) >> 3` computes. */
  function LowestByte(t: bv64): (n: nat)
    requires t != 0
    decreases t
  {
    if t & 0xff != 0 then 0
    else
      ByteShift(t);
      1 + LowestByte(t >> 8)
  }

  lemma ByteShift(t: bv64)
    requires t != 0 && t & 0xff == 0
    ensures t >> 8 != 0 && t >> 8 < t
  {
  }

  /** `j` clear bytes below a byte holding only its top bit. */
  predicate SignAt(t: bv64, j: nat)
  {
    if j == 0 then t & 0xff == 0x80 else t & 0xff == 0 && SignAt(t >> 8, j - 1)
  }

  lemma {:induction false} LowestByteAt(t: bv64, j: nat)
    requires SignAt(t, j)
    ensures t != 0 && LowestByte(t) == j
    decreases j
  {
    if j == 0 {
      SignNonzero(t);
    } else {
      LowestByteAt(t >> 8, j - 1);
      ShiftNonzero(t);
    }
  }

  lemma SignNonzero(t: bv64)
    requires t & 0xff == 0x80
    ensures t != 0 && t & 0xff != 0
  {
  }

  lemma ShiftNonzero(t: bv64)
    requires t >> 8 != 0
    ensures t != 0
  {
  }

  /** `j` tagged bytes and then an untagged one. */
  predicate StopsAt(w: bv64, j: nat)
  {
    if j == 0 then w & 0x80 == 0 else w & 0x80 != 0 && StopsAt(w >> 8, j - 1)
  }

  /** A mask that selects the continuation bit of at least `j + 1` bytes. */
  predicate TagMask(m: bv64, j: nat)
  {
    m & 0xff == 0x80 && (j > 0 ==> TagMask(m >> 8, j - 1))
  }

  lemma TermByte(w: bv64, m: bv64)
    requires m & 0xff == 0x80
    ensures (!w & m) & 0xff == if w & 0x80 == 0 then 0x80 else 0
    ensures (!w & m) >> 8 == !(w >> 8) & (m >> 8)
  {
  }

  lemma {:induction false} TermAt(w: bv64, m: bv64, j: nat)
    requires StopsAt(w, j) && TagMask(m, j)
    ensures SignAt(!w & m, j)
    decreases j
  {
    TermByte(w, m);
    if j > 0 { TermAt(w >> 8, m >> 8, j - 1); }
  }

  lemma AllTags(j: nat)
    requires j < 8
    ensures TagMask(0x8080808080808080, j)
  {
    assert TagMask(0x80, 0);
    LongerMask(0x80, 0x8080, j - 6);
    LongerMask(0x8080, 0x808080, j - 5);
    LongerMask(0x808080, 0x80808080, j - 4);
    LongerMask(0x80808080, 0x8080808080, j - 3);
    LongerMask(0x8080808080, 0x808080808080, j - 2);
    LongerMask(0x808080808080, 0x80808080808080, j - 1);
    LongerMask(0x80808080808080, 0x8080808080808080, j);
  }

  lemma LongerMask(h: bv64, m: bv64, j: int)
    requires m & 0xff == 0x80 && m >> 8 == h
    requires j > 0 ==> TagMask(h, j - 1)
    ensures j >= 0 ==> TagMask(m, j)
  {
  }

  lemma {:induction false} ViewStop(w: bv64, s: seq<byte>, j: nat)
    requires ByteView(w, s) && j < |s| && s[j] < 128 && forall i :: 0 <= i < j ==> s[i] >= 128
    ensures StopsAt(w, j)
    decreases j
  {
    if j > 0 {
      assert s[1..][j - 1] == s[j] && forall i :: 0 <= i < j - 1 ==> s[1..][i] == s[i + 1];
      ViewStop(w >> 8, s[1..], j - 1);
    }
  }

  // ---------------------------------------------------------------- keeping the first bytes

  /** `m` selects the lowest `n` bytes. */
  predicate KeepMask(m: bv64, n: nat)
  {
    if n == 0 then m == 0 else m & 0xff == 0xff && KeepMask(m >> 8, n - 1)
  }

  /** All ones shifted right by 64 - 8n. */
  function LowBytes(n: nat): (m: bv64)
    requires 1 <= n <= 8
  {
    match n
    case 1 => 0xff
    case 2 => 0xffff
    case 3 => 0xffffff
    case 4 => 0xffffffff
    case 5 => 0xffffffffff
    case 6 => 0xffffffffffff
    case 7 => 0xffffffffffffff
    case 8 => 0xffffffffffffffff
  }

  lemma LongerKeep(h: bv64, m: bv64, n: nat)
    requires m & 0xff == 0xff && m >> 8 == h && KeepMask(h, n)
    ensures KeepMask(m, n + 1)
  {
  }

  lemma LowBytesKeep(n: nat)
    requires 1 <= n <= 8
    ensures KeepMask(LowBytes(n), n)
  {
    assert KeepMask(0, 0);
    LongerKeep(0, 0xff, 0);
    LongerKeep(0xff, 0xffff, 1);
    LongerKeep(0xffff, 0xffffff, 2);
    LongerKeep(0xffffff, 0xffffffff, 3);
    LongerKeep(0xffffffff, 0xffffffffff, 4);
    LongerKeep(0xffffffffff, 0xffffffffffff, 5);
    LongerKeep(0xffffffffffff, 0xffffffffffffff, 6);
    LongerKeep(0xffffffffffffff, 0xffffffffffffffff, 7);
  }

  function ZeroBytes(n: nat): (s: seq<byte>)
    ensures |s| == n
  {
    if n == 0 then [] else [0] + ZeroBytes(n - 1)
  }

  lemma ZeroLane()
    ensures Lane(0, 0) && (0 as bv64) >> 8 == 0
  {
  }

  lemma {:induction false} ZeroView(n: nat)
    ensures ByteView(0, ZeroBytes(n))
  {
    ZeroLane();
    if n > 0 {
      ZeroView(n - 1);
      ByteViewCons(0, 0, 0, ZeroBytes(n - 1));
    }
  }

  lemma KeepByte(w: bv64, m: bv64, b: byte)
    requires m & 0xff == 0xff && Lane(w, b)
    ensures Lane(w & m, b) && (w & m) >> 8 == (w >> 8) & (m >> 8)
  {
    assert (w & m) & 0x7f == w & 0x7f && (w & m) & 0x80 == w & 0x80;
    Bits7Mask(w);
    Bits7Mask(w & m);
  }

  lemma KeepNone(w: bv64, n: nat)
    ensures ByteView(w & 0, ZeroBytes(n))
  {
    assert w & 0 == 0;
    ZeroView(n);
  }

  lemma KeepOne(w: bv64, m: bv64, b: byte, t: seq<byte>)
    requires m & 0xff == 0xff && Lane(w, b) && ByteView((w >> 8) & (m >> 8), t)
    ensures ByteView(w & m, [b] + t)
  {
    KeepByte(w, m, b);
    ByteViewCons(w & m, (w & m) >> 8, b, t);
  }

  lemma {:induction false} KeepView(w: bv64, m: bv64, s: seq<byte>, n: nat)
    requires n <= |s| && ByteView(w, s) && KeepMask(m, n)
    ensures ByteView(w & m, s[..n] + ZeroBytes(|s| - n))
    decreases n
  {
    if n == 0 {
      KeepNone(w, |s|);
      assert s[..0] + ZeroBytes(|s|) == ZeroBytes(|s|);
    } else {
      var t := s[1..][..n - 1] + ZeroBytes(|s| - n);
      KeepView(w >> 8, m >> 8, s[1..], n - 1);
      KeepOne(w, m, s[0], t);
      assert s[..n] + ZeroBytes(|s| - n) == [s[0]] + t;
    }
  }

  // ---------------------------------------------------------------- the gathered value

  /** Seven bits a byte, low first. */
  function Packed(s: seq<byte>): (v: nat)
  {
    if s == [] then 0 else s[0] % 128 + 128 * Packed(s[1..])
  }

  lemma {:induction false} PackedOfZeros(n: nat)
    ensures Packed(ZeroBytes(n)) == 0
    decreases n
  {
    if n > 0 {
      PackedOfZeros(n - 1);
      assert ZeroBytes(n)[1..] == ZeroBytes(n - 1);
    }
  }

  lemma {:induction false} PackedZeros(s: seq<byte>, n: nat)
    ensures Packed(s + ZeroBytes(n)) == Packed(s)
    decreases |s|
  {
    if s == [] {
      PackedOfZeros(n);
      assert s + ZeroBytes(n) == ZeroBytes(n);
    } else {
      assert (s + ZeroBytes(n))[1..] == s[1..] + ZeroBytes(n);
      PackedZeros(s[1..], n);
    }
  }

  lemma {:induction false} DecodePacked(s: seq<byte>, k: nat, j: nat)
    requires j < |s| && j + k <= 9 && s[j] < 128 && (j + k == 9 ==> s[j] <= 1)
    requires forall i :: 0 <= i < j ==> s[i] >= 128
    ensures var r := DecodeFrom(s, k); r.Got? && r.value == Packed(s[..j + 1]) && r.size == j + 1
    decreases j
  {
    if j == 0 {
      assert s[..1] == [s[0]] && [s[0]][1..] == [];
    } else {
      assert s[1..][..j] == s[..j + 1][1..];
      DecodePacked(s[1..], k + 1, j - 1);
    }
  }

  lemma {:induction false} DecodeTooLong(s: seq<byte>, k: nat)
    requires k <= 9 && 10 <= |s| + k && s[9 - k] > 1 && forall i :: 0 <= i < 9 - k ==> s[i] >= 128
    ensures DecodeFrom(s, k) == Overlong
    decreases 9 - k
  {
    if k < 9 { DecodeTooLong(s[1..], k + 1); }
  }

  lemma NatStep(v: bv64, h: bv64, d: nat)
    requires h == v >> 7 && Bits7(v) == d
    ensures NatOf(v) == d + 128 * NatOf(h)
  {
    SmallShift(v);
    assert Bits7(0) == 0;
  }

  /** The digits of `v`, lowest first, and nothing above them. */
  predicate DigitView(v: bv64, s: seq<byte>)
  {
    if s == [] then v == 0 else Bits7(v) == s[0] % 128 && DigitView(v >> 7, s[1..])
  }

  lemma {:induction false} DigitViewValue(v: bv64, s: seq<byte>)
    requires DigitView(v, s)
    ensures NatOf(v) == Packed(s)
    decreases |s|
  {
    if s == [] {
      assert Bits7(0) == 0;
    } else {
      DigitViewValue(v >> 7, s[1..]);
      NatStep(v, v >> 7, s[0] % 128);
    }
  }

  lemma DigitViewCons(v: bv64, h: bv64, b: byte, t: seq<byte>)
    requires h == v >> 7 && Bits7(v) == b % 128 && DigitView(h, t)
    ensures DigitView(v, [b] + t)
  {
    assert ([b] + t)[1..] == t;
  }

  lemma GatherLanes(w0: bv64, w1: bv64, w2: bv64, w3: bv64, w4: bv64, w5: bv64, w6: bv64, w7: bv64, g: bv64, x: bv64)
      returns (g1: bv64, g2: bv64, g3: bv64, g4: bv64, g5: bv64, g6: bv64, g7: bv64, g8: bv64)
    requires w1 == w0 >> 8 && w2 == w1 >> 8 && w3 == w2 >> 8 && w4 == w3 >> 8
    requires w5 == w4 >> 8 && w6 == w5 >> 8 && w7 == w6 >> 8 && x < 256
    requires g == Gather7(w0) | (x << 56)
    ensures g1 == g >> 7 && g2 == g1 >> 7 && g3 == g2 >> 7 && g4 == g3 >> 7
    ensures g5 == g4 >> 7 && g6 == g5 >> 7 && g7 == g6 >> 7 && g8 == g7 >> 7
    ensures g & 0x7f == w0 & 0x7f && g1 & 0x7f == w1 & 0x7f && g2 & 0x7f == w2 & 0x7f && g3 & 0x7f == w3 & 0x7f
    ensures g4 & 0x7f == w4 & 0x7f && g5 & 0x7f == w5 & 0x7f && g6 & 0x7f == w6 & 0x7f && g7 & 0x7f == w7 & 0x7f
    ensures g8 == x
  {
    g1 := g >> 7; g2 := g1 >> 7; g3 := g2 >> 7; g4 := g3 >> 7; g5 := g4 >> 7; g6 := g5 >> 7; g7 := g6 >> 7; g8 := g7 >> 7;
  }

  lemma MaskedDigit(g: bv64, w: bv64, b: byte)
    requires g & 0x7f == w & 0x7f && Lane(w, b)
    ensures Bits7(g) == b % 128
  {
    Bits7Mask(g);
    Bits7Mask(w);
  }

  lemma UnfoldView(w: bv64, s: seq<byte>)
    requires s != [] && ByteView(w, s)
    ensures Lane(w, s[0]) && ByteView(w >> 8, s[1..])
  {
  }

  /** Gathering eight bytes and putting `x` above them gives their digits, then `x`'s. */
  lemma GatherView(w: bv64, s: seq<byte>, g: bv64, x: bv64, t: seq<byte>)
    requires |s| == 8 && ByteView(w, s) && x < 256 && g == Gather7(w) | (x << 56) && DigitView(x, t)
    ensures DigitView(g, s + t)
  {
    var w1 := w >> 8; UnfoldView(w, s);
    var w2 := w1 >> 8; UnfoldView(w1, s[1..]);
    var w3 := w2 >> 8; UnfoldView(w2, s[1..][1..]);
    var w4 := w3 >> 8; UnfoldView(w3, s[1..][1..][1..]);
    var w5 := w4 >> 8; UnfoldView(w4, s[1..][1..][1..][1..]);
    var w6 := w5 >> 8; UnfoldView(w5, s[1..][1..][1..][1..][1..]);
    var w7 := w6 >> 8; UnfoldView(w6, s[1..][1..][1..][1..][1..][1..]);
    UnfoldView(w7, s[1..][1..][1..][1..][1..][1..][1..]);
    var g1, g2, g3, g4, g5, g6, g7, g8 := GatherLanes(w, w1, w2, w3, w4, w5, w6, w7, g, x);
    TwoDigits(g, g1, w, w1, s[0], s[1]);
    TwoDigits(g2, g3, w2, w3, s[2], s[3]);
    TwoDigits(g4, g5, w4, w5, s[4], s[5]);
    TwoDigits(g6, g7, w6, w7, s[6], s[7]);
    GatherDigits(g, g1, g2, g3, g4, g5, g6, g7, g8, s, t);
  }

  lemma TwoDigits(g: bv64, h: bv64, w: bv64, v: bv64, b: byte, c: byte)
    requires g & 0x7f == w & 0x7f && h & 0x7f == v & 0x7f && Lane(w, b) && Lane(v, c)
    ensures Bits7(g) == b % 128 && Bits7(h) == c % 128
  {
    MaskedDigit(g, w, b);
    MaskedDigit(h, v, c);
  }

  lemma GatherDigits(g: bv64, g1: bv64, g2: bv64, g3: bv64, g4: bv64, g5: bv64, g6: bv64, g7: bv64, g8: bv64,
                     s: seq<byte>, t: seq<byte>)
    requires |s| == 8 && DigitView(g8, t)
    requires g1 == g >> 7 && g2 == g1 >> 7 && g3 == g2 >> 7 && g4 == g3 >> 7
    requires g5 == g4 >> 7 && g6 == g5 >> 7 && g7 == g6 >> 7 && g8 == g7 >> 7
    requires Bits7(g) == s[0] % 128 && Bits7(g1) == s[1] % 128 && Bits7(g2) == s[2] % 128 && Bits7(g3) == s[3] % 128
    requires Bits7(g4) == s[4] % 128 && Bits7(g5) == s[5] % 128 && Bits7(g6) == s[6] % 128 && Bits7(g7) == s[7] % 128
    ensures DigitView(g, s + t)
  {
    var t7 := [s[7]] + t; DigitViewCons(g7, g8, s[7], t);
    var t6 := [s[6]] + t7; DigitViewCons(g6, g7, s[6], t7);
    var t5 := [s[5]] + t6; DigitViewCons(g5, g6, s[5], t6);
    var t4 := [s[4]] + t5; DigitViewCons(g4, g5, s[4], t5);
    var t3 := [s[3]] + t4; DigitViewCons(g3, g4, s[3], t4);
    var t2 := [s[2]] + t3; DigitViewCons(g2, g3, s[2], t3);
    var t1 := [s[1]] + t2; DigitViewCons(g1, g2, s[1], t2);
    DigitViewCons(g, g1, s[0], t1);
    assert [s[0]] + t1 == s + t;
  }

  lemma NoTail(w: bv64)
    ensures Gather7(w) == Gather7(w) | ((0 as bv64) << 56) && DigitView(0, [])
  {
  }

  lemma EightValue(u: bv64, t: seq<byte>)
    requires |t| == 8 && ByteView(u, t)
    ensures NatOf(Gather7(u)) == Packed(t)
  {
    NoTail(u);
    GatherView(u, t, Gather7(u), 0, []);
    assert t + [] == t;
    DigitViewValue(Gather7(u), t);
  }

  lemma KeptView(w: bv64, s: seq<byte>, n: nat)
    requires |s| == 8 && 1 <= n <= 8 && ByteView(w, s)
    ensures ByteView(w & LowBytes(n), s[..n] + ZeroBytes(8 - n))
  {
    LowBytesKeep(n);
    KeepView(w, LowBytes(n), s, n);
  }

  /** A varint that ends within the first eight bytes. */
  lemma ShortValue(w: bv64, s: seq<byte>, n: nat)
    requires |s| == 8 && 1 <= n <= 8 && ByteView(w, s)
    ensures NatOf(Gather7(w & LowBytes(n))) == Packed(s[..n])
  {
    KeptView(w, s, n);
    EightValue(w & LowBytes(n), s[..n] + ZeroBytes(8 - n));
    PackedZeros(s[..n], 8 - n);
  }

  /** The word of one digit. */
  method DigitWord(b: byte) returns (x: bv64)
    ensures x < 128 && DigitView(x, [b])
  {
    x := Word7(b % 128);
    Word7Bits(b % 128);
    SmallShift(x);
    assert [b][1..] == [];
  }

  /** The word of the topmost bit. */
  method BitWord(b: byte) returns (y: bv64)
    requires b <= 1
    ensures y < 2 && DigitView(y, [b])
  {
    if b == 0 { y := 0; } else { y := 1; }
    BitView(y, b);
  }

  lemma BitView(y: bv64, b: byte)
    requires (b == 0 && y == 0) || (b == 1 && y == 1)
    ensures DigitView(y, [b])
  {
    assert [b][1..] == [] && y >> 7 == 0;
    assert Bits7(0) == 0 && Bits7(1) == 1;
  }

  lemma NineBytes(w: bv64, s: seq<byte>, x: bv64, v: bv64)
    requires |s| >= 9 && ByteView(w, s[..8]) && x < 128 && DigitView(x, [s[8]]) && v == Gather7(w) | (x << 56)
    ensures NatOf(v) == Packed(s[..9])
  {
    TopView(w, s[..8], v, x, [s[8]]);
    assert s[..8] + [s[8]] == s[..9];
  }

  lemma TwoDigitView(x: bv64, y: bv64, z: bv64, b8: byte, b9: byte)
    requires x < 128 && y < 2 && DigitView(x, [b8]) && DigitView(y, [b9]) && z == x | (y << 7)
    ensures DigitView(z, [b8, b9]) && z < 256
  {
    TwoDigitWord(x, y);
    FirstDigit(z, x, b8);
    DigitViewCons(z, y, b8, [b9]);
    assert [b8] + [b9] == [b8, b9];
  }

  lemma FirstDigit(z: bv64, x: bv64, b: byte)
    requires z & 0x7f == x && DigitView(x, [b])
    ensures Bits7(z) == b % 128
  {
    Bits7Mask(z);
  }

  lemma TwoDigitWord(x: bv64, y: bv64)
    requires x < 128 && y < 2
    ensures (x | (y << 7)) & 0x7f == x && (x | (y << 7)) >> 7 == y && x | (y << 7) < 256 && x & 0x7f == x
  {
  }

  lemma TopTwo(g: bv64, x: bv64, y: bv64)
    ensures g | (x << 56) | (y << 63) == g | ((x | (y << 7)) << 56)
  {
  }

  lemma TenBytes(w: bv64, s: seq<byte>, x: bv64, y: bv64, v: bv64)
    requires |s| >= 10 && ByteView(w, s[..8]) && v == Gather7(w) | (x << 56) | (y << 63)
    requires x < 128 && y < 2 && DigitView(x, [s[8]]) && DigitView(y, [s[9]])
    ensures NatOf(v) == Packed(s[..10])
  {
    TopTwo(Gather7(w), x, y);
    TwoDigitView(x, y, x | (y << 7), s[8], s[9]);
    TopView(w, s[..8], v, x | (y << 7), [s[8], s[9]]);
    assert s[..8] + [s[8], s[9]] == s[..10];
  }

  lemma TopView(w: bv64, s: seq<byte>, v: bv64, z: bv64, t: seq<byte>)
    requires |s| == 8 && ByteView(w, s) && z < 256 && v == Gather7(w) | (z << 56) && DigitView(z, t)
    ensures NatOf(v) == Packed(s + t)
  {
    GatherView(w, s, v, z, t);
    DigitViewValue(v, s + t);
  }

  // ---------------------------------------------------------------- the readers

  /** Index of the first byte without a continuation bit, found eight bytes at a time;
      8 when all eight are tagged. */
  method FindStop(w: bv64, s: seq<byte>) returns (j: nat)
    requires |s| == 8 && ByteView(w, s)
    ensures j <= 8 && (forall i :: 0 <= i < j ==> s[i] >= 128) && (j < 8 ==> s[j] < 128)
  {
    ghost var k := 0;
    while k < 8 && s[k] >= 128
      invariant k <= 8 && forall i :: 0 <= i < k ==> s[i] >= 128
      decreases 8 - k
    {
      k := k + 1;
    }
    var term := !w & 0x8080808080808080;
    if k < 8 {
      ViewStop(w, s, k);
      AllTags(k);
      TermAt(w, 0x8080808080808080, k);
      LowestByteAt(term, k);
    } else {
      AllTaggedTerm(w, 0x8080808080808080, s);
    }
    if term != 0 { j := LowestByte(term); } else { j := 8; }
  }

  lemma AllTaggedTerm(w: bv64, m: bv64, s: seq<byte>)
    requires |s| == 8 && ByteView(w, s) && m == 0x8080808080808080
    requires forall i :: 0 <= i < 8 ==> s[i] >= 128
    ensures !w & m == 0
  {
    var w1 := w >> 8; UnfoldView(w, s);
    var w2 := w1 >> 8; UnfoldView(w1, s[1..]);
    var w3 := w2 >> 8; UnfoldView(w2, s[1..][1..]);
    var w4 := w3 >> 8; UnfoldView(w3, s[1..][1..][1..]);
    var w5 := w4 >> 8; UnfoldView(w4, s[1..][1..][1..][1..]);
    var w6 := w5 >> 8; UnfoldView(w5, s[1..][1..][1..][1..][1..]);
    var w7 := w6 >> 8; UnfoldView(w6, s[1..][1..][1..][1..][1..][1..]);
    UnfoldView(w7, s[1..][1..][1..][1..][1..][1..][1..]);
    AllBitsSet(w, w1, w2, w3, w4, w5, w6, w7);
  }

  lemma AllBitsSet(w: bv64, w1: bv64, w2: bv64, w3: bv64, w4: bv64, w5: bv64, w6: bv64, w7: bv64)
    requires w1 == w >> 8 && w2 == w1 >> 8 && w3 == w2 >> 8 && w4 == w3 >> 8
    requires w5 == w4 >> 8 && w6 == w5 >> 8 && w7 == w6 >> 8
    requires w & 0x80 != 0 && w1 & 0x80 != 0 && w2 & 0x80 != 0 && w3 & 0x80 != 0
    requires w4 & 0x80 != 0 && w5 & 0x80 != 0 && w6 & 0x80 != 0 && w7 & 0x80 != 0
    ensures !w & 0x8080808080808080 == 0
  {
  }

  method GatherShort(w: bv64, s: seq<byte>, n: nat) returns (v: nat)
    requires |s| == 8 && 1 <= n <= 8 && ByteView(w, s)
    ensures v == Packed(s[..n])
  {
    ShortValue(w, s, n);
    v := NatOf(Gather7(w & LowBytes(n)));
  }

  method GatherNine(w: bv64, s: seq<byte>) returns (v: nat)
    requires |s| >= 9 && ByteView(w, s[..8])
    ensures v == Packed(s[..9])
  {
    var x := DigitWord(s[8]);
    NineBytes(w, s, x, Gather7(w) | (x << 56));
    v := NatOf(Gather7(w) | (x << 56));
  }

  method GatherTen(w: bv64, s: seq<byte>) returns (v: nat)
    requires |s| >= 10 && s[9] <= 1 && ByteView(w, s[..8])
    ensures v == Packed(s[..10])
  {
    var x := DigitWord(s[8]);
    var y := BitWord(s[9]);
    TenBytes(w, s, x, y, Gather7(w) | (x << 56) | (y << 63));
    v := NatOf(Gather7(w) | (x << 56) | (y << 63));
  }

  method ShortVarint(w: bv64, s: seq<byte>, j: nat) returns (r: Varint)
    requires |s| == 8 && j < 8 && ByteView(w, s)
    requires s[j] < 128 && forall i :: 0 <= i < j ==> s[i] >= 128
    ensures r == Decode(s) && r.Got? && r.size == j + 1
  {
    DecodePacked(s, 0, j);
    var v := GatherShort(w, s, j + 1);
    r := Got(v, j + 1);
  }

  method NineByteVarint(w: bv64, s: seq<byte>) returns (r: Varint)
    requires |s| >= 9 && ByteView(w, s[..8]) && s[8] < 128 && forall i :: 0 <= i < 8 ==> s[i] >= 128
    ensures r == Decode(s) && r.Got? && r.size == 9
  {
    DecodePacked(s, 0, 8);
    var v := GatherNine(w, s);
    r := Got(v, 9);
  }

  method TenByteVarint(w: bv64, s: seq<byte>) returns (r: Varint)
    requires |s| >= 10 && ByteView(w, s[..8]) && s[9] <= 1 && forall i :: 0 <= i < 9 ==> s[i] >= 128
    ensures r == Decode(s) && r.Got? && r.size == 10
  {
    DecodePacked(s, 0, 9);
    var v := GatherTen(w, s);
    r := Got(v, 10);
  }

  method WindowedVarint(t: seq<byte>) returns (r: Varint)
    requires |t| == VARINT_MAX_BYTES
    ensures r == Decode(t) && !r.Cut?
  {
    var w := Load64(t);
    var j := FindStop(w, t[..8]);
    assert forall i :: 0 <= i < 8 ==> t[i] == t[..8][i];
    if j < 8 {
      r := ShortVarint(w, t[..8], j);
      DecodeStable(t[..8], t[8..]);
      assert t[..8] + t[8..] == t;
    } else if t[8] < 128 {
      r := NineByteVarint(w, t);
    } else if t[9] > 1 {
      DecodeTooLong(t, 0);
      r := Overlong;
    } else {
      r := TenByteVarint(w, t);
    }
  }

  /** Read one varint where ten bytes are readable; the cursor passes an over-long one too. */
  method GetVarintWindowed(s: seq<byte>, p: nat) returns (r: Varint, q: nat)
    requires p + VARINT_MAX_BYTES <= |s|
    ensures r == Decode(s[p..]) && !r.Cut?
    ensures q == p + if r.Got? then r.size else VARINT_MAX_BYTES
  {
    r := WindowedVarint(s[p..p + VARINT_MAX_BYTES]);
    DecodeStable(s[p..p + VARINT_MAX_BYTES], s[p + VARINT_MAX_BYTES..]);
    assert s[p..] == s[p..p + VARINT_MAX_BYTES] + s[p + VARINT_MAX_BYTES..];
    q := p + if r.Got? then r.size else VARINT_MAX_BYTES;
  }

  /** Index of the first untagged of eight bytes; 8 when all are tagged. */
  method StopOf(t: seq<byte>) returns (j: nat)
    requires |t| >= 8
    ensures j <= 8 && (forall i :: 0 <= i < j ==> t[i] >= 128) && (j < 8 ==> t[j] < 128)
  {
    var w := Load64(t);
    j := FindStop(w, t[..8]);
    assert forall i :: 0 <= i < 8 ==> t[i] == t[..8][i];
  }

  /** Step over one varint where ten bytes are readable, without building its value. */
  method SkipVarintWindowed(s: seq<byte>, p: nat) returns (ok: bool, q: nat)
    requires p + VARINT_MAX_BYTES <= |s|
    ensures var r := Decode(s[p..]); !r.Cut? && ok == r.Got? && q == p + if ok then r.size else VARINT_MAX_BYTES
  {
    ghost var t := s[p..];
    var j := StopOf(s[p..p + VARINT_MAX_BYTES]);
    assert forall i :: 0 <= i < 8 ==> t[i] == s[p..p + VARINT_MAX_BYTES][i];
    if j < 8 {
      DecodePacked(t, 0, j);
      return true, p + j + 1;
    }
    if s[p + 8] < 128 {
      DecodePacked(t, 0, 8);
      return true, p + 9;
    }
    if s[p + 9] > 1 {
      DecodeTooLong(t, 0);
      return false, p + 10;
    }
    DecodePacked(t, 0, 9);
    return true, p + 10;
  }

  /** Fewer than ten bytes are left: the loop can only finish or run dry. */
  method TailVarint(s: seq<byte>, p: nat) returns (r: Varint)
    requires p <= |s| < p + VARINT_MAX_BYTES
    ensures r == Decode(s[p..])
  {
    ghost var t := s[p..];
    var q, v: nat, scale: nat := p, 0, 1;
    while q < |s|
      invariant p <= q <= |s|
      invariant forall i :: 0 <= i < q - p ==> t[i] >= 128
      invariant Running(t, q - p, v, scale)
    {
      v := v + s[q] % 128 * scale;
      scale := 128 * scale;
      assert Running(t, q - p + 1, v, scale) by { RunningStep(t, q - p); }
      if s[q] < 128 {
        DecodePacked(t, 0, q - p);
        return Got(v, q - p + 1);
      }
      q := q + 1;
    }
    DecodeRunsDry(t, 0);
    return Cut;
  }

  function Scale(n: nat): (r: nat)
  {
    if n == 0 then 1 else 128 * Scale(n - 1)
  }

  /** The accumulator after `n` bytes. */
  predicate Running(t: seq<byte>, n: nat, v: nat, scale: nat)
    requires n <= |t|
  {
    v == Packed(t[..n]) && scale == Scale(n)
  }

  lemma {:induction false} PackedLast(s: seq<byte>, b: byte)
    ensures Packed(s + [b]) == Packed(s) + b % 128 * Scale(|s|)
    decreases |s|
  {
    if s == [] {
      assert [b][1..] == [] && [] + [b] == [b];
    } else {
      assert (s + [b])[1..] == s[1..] + [b];
      PackedLast(s[1..], b);
      var d, k := b % 128, Scale(|s| - 1);
      assert 128 * (d * k) == d * (128 * k);
    }
  }

  lemma RunningStep(t: seq<byte>, n: nat)
    requires n < |t|
    ensures Packed(t[..n + 1]) == Packed(t[..n]) + t[n] % 128 * Scale(n)
  {
    assert t[..n + 1] == t[..n] + [t[n]];
    PackedLast(t[..n], t[n]);
  }

  lemma {:induction false} DecodeRunsDry(s: seq<byte>, k: nat)
    requires k + |s| <= 9 && forall i :: 0 <= i < |s| ==> s[i] >= 128
    ensures DecodeFrom(s, k) == Cut
    decreases |s|
  {
    if s != [] { DecodeRunsDry(s[1..], k + 1); }
  }

  /** Read one varint of `s[p..end]`; a truncated one leaves the cursor where it was. */
  method GetVarint(s: seq<byte>, p: nat, end: nat) returns (r: Varint, q: nat)
    requires p <= end <= |s|
    ensures r == Decode(s[p..end])
    ensures r.Got? ==> q == p + r.size <= end
    ensures r.Cut? ==> q == p
  {
    if p < end && s[p] < 128 {
      return Got(s[p], 1), p + 1;
    }
    if end - p >= VARINT_MAX_BYTES {
      r, q := GetVarintWindowed(s[..end], p);
      assert s[..end][p..] == s[p..end];
      return;
    }
    r := TailVarint(s[..end], p);
    assert s[..end][p..] == s[p..end];
    q := if r.Got? then p + r.size else p;
  }

  /** Step over one varint of `s[p..end]`. */
  method SkipVarint(s: seq<byte>, p: nat, end: nat) returns (ok: bool, overlong: bool, q: nat)
    requires p <= end <= |s|
    ensures var r := Decode(s[p..end]);
            && ok == r.Got? && overlong == r.Overlong?
            && (ok ==> q == p + r.size <= end) && (!ok && !overlong ==> q == p)
  {
    if p < end && s[p] < 128 {
      return true, false, p + 1;
    }
    if end - p >= VARINT_MAX_BYTES {
      ok, q := SkipVarintWindowed(s[..end], p);
      assert s[..end][p..] == s[p..end];
      return ok, !ok, q;
    }
    ghost var t := s[p..end];
    q := p;
    while q < end
      invariant p <= q <= end
      invariant forall i :: 0 <= i < q - p ==> t[i] >= 128
    {
      q := q + 1;
      if s[q - 1] < 128 {
        DecodePacked(t, 0, q - 1 - p);
        return true, false, q;
      }
    }
    DecodeRunsDry(t, 0);
    return false, false, p;
  }
}
