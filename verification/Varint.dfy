/** The base-128 varint of the wire format: the reference encoder and decoder
    that every fast path of the codec is compared against. */
module Varint {

  /** One octet of the wire. */
  type byte = x: int | 0 <= x < 256

  const U64_LIMIT: nat := 0x1_0000_0000_0000_0000

  /** The codec's 64-bit accumulator. */
  type u64 = x: nat | x < U64_LIMIT

  /** Widest varint: ceil(64 / 7). */
  const VARINT_MAX_BYTES: nat := 10

  datatype Varint =
    | Cut                          // the bytes end inside the varint
    | Overlong                     // wider than 64 bits
    | Got(value: u64, size: nat)   // a whole varint and how many bytes it took

  /** Exclusive bound of the values that fit above `k` digits of a 64-bit accumulator. */
  function Room(k: nat): nat
    requires k <= 9
  {
    match k
    case 0 => U64_LIMIT
    case 1 => 0x200_0000_0000_0000
    case 2 => 0x4_0000_0000_0000
    case 3 => 0x800_0000_0000
    case 4 => 0x10_0000_0000
    case 5 => 0x2000_0000
    case 6 => 0x40_0000
    case 7 => 0x8000
    case 8 => 0x100
    case 9 => 2
  }

  /** Decode after `k` digits have been read: the tenth byte may only be 0 or 1. */
  function DecodeFrom(s: seq<byte>, k: nat): (r: Varint)
    requires k <= 9
    ensures r.Got? ==> 1 <= r.size <= |s| && r.size + k <= 10 && r.value < Room(k)
    decreases 9 - k
  {
    if s == [] then Cut
    else if k == 9 then
      if s[0] > 1 then Overlong else Got(s[0], 1)
    else if s[0] < 128 then Got(s[0], 1)
    else
      match DecodeFrom(s[1..], k + 1)
      case Cut => Cut
      case Overlong => Overlong
      case Got(v, n) => Got(s[0] - 128 + 128 * v, n + 1)
  }

  /** The reference decoder. */
  function Decode(s: seq<byte>): (r: Varint)
    ensures r.Got? ==> 1 <= r.size <= |s| && r.size <= VARINT_MAX_BYTES
  {
    DecodeFrom(s, 0)
  }

  /** The reference encoder: seven bits a byte, low first, every byte but the last tagged. */
  function Encode(v: nat): (s: seq<byte>)
    ensures |s| >= 1
  {
    if v < 128 then [v] else [v % 128 + 128] + Encode(v / 128)
  }

  /** A varint encoding is decoded again whatever follows it. */
  lemma {:induction false} DecodeEncodeFrom(v: nat, k: nat, rest: seq<byte>)
    requires k <= 9 && v < Room(k)
    ensures DecodeFrom(Encode(v) + rest, k) == Got(v, |Encode(v)|)
    decreases 9 - k
  {
    if v >= 128 {
      DecodeEncodeFrom(v / 128, k + 1, rest);
      assert (Encode(v) + rest)[1..] == Encode(v / 128) + rest;
    }
  }

  lemma DecodeEncode(v: u64, rest: seq<byte>)
    ensures Decode(Encode(v) + rest) == Got(v, |Encode(v)|)
    ensures |Encode(v)| <= VARINT_MAX_BYTES
  {
    DecodeEncodeFrom(v, 0, rest);
  }

  /** A verdict on a varint never changes when more bytes arrive. */
  lemma {:induction false} DecodeStableFrom(s: seq<byte>, k: nat, t: seq<byte>)
    requires k <= 9
    ensures !DecodeFrom(s, k).Cut? ==> DecodeFrom(s + t, k) == DecodeFrom(s, k)
    decreases 9 - k
  {
    if s != [] && k < 9 && s[0] >= 128 {
      assert (s + t)[1..] == s[1..] + t;
      DecodeStableFrom(s[1..], k + 1, t);
    }
  }

  lemma DecodeStable(s: seq<byte>, t: seq<byte>)
    ensures !Decode(s).Cut? ==> Decode(s + t) == Decode(s)
  {
    DecodeStableFrom(s, 0, t);
  }

  lemma {:induction false} CutIsTaggedFrom(s: seq<byte>, k: nat)
    requires k <= 9 && DecodeFrom(s, k).Cut?
    ensures |s| + k < 10
    ensures forall i :: 0 <= i < |s| ==> s[i] >= 128
    decreases 9 - k
  {
    if s != [] && k < 9 && s[0] >= 128 {
      CutIsTaggedFrom(s[1..], k + 1);
      assert forall i :: 1 <= i < |s| ==> s[i] == s[1..][i - 1];
    }
  }

  /** Only fewer than ten bytes, all of them tagged, can be a cut varint. */
  lemma CutIsShort(s: seq<byte>)
    requires Decode(s).Cut?
    ensures |s| < VARINT_MAX_BYTES
    ensures forall i :: 0 <= i < |s| ==> s[i] >= 128
  {
    CutIsTaggedFrom(s, 0);
  }

  lemma TakeTail(s: seq<byte>, m: nat)
    requires 0 < m <= |s|
    ensures s[..m] != [] && s[..m][0] == s[0] && s[..m][1..] == s[1..][..m - 1]
  {
  }

  /** A varint does not look past its last byte. */
  lemma {:induction false} DecodeLocalFrom(s: seq<byte>, k: nat, m: nat)
    requires k <= 9 && m <= |s| && DecodeFrom(s, k).Got? && DecodeFrom(s, k).size <= m
    ensures DecodeFrom(s[..m], k) == DecodeFrom(s, k)
    decreases 9 - k
  {
    TakeTail(s, m);
    if k < 9 && s[0] >= 128 {
      DecodeLocalFrom(s[1..], k + 1, m - 1);
    }
  }

  lemma DecodeLocal(s: seq<byte>, m: nat)
    requires m <= |s| && Decode(s).Got? && Decode(s).size <= m
    ensures Decode(s[..m]) == Decode(s)
  {
    DecodeLocalFrom(s, 0, m);
  }
}
