/** The storage a decode writes: one leaf per member, addressed by the ids on the way to it.
    All of it has fixed room, so nothing here grows from a wire number. */
module Destination {
  import opened Varint
  import opened WireFormat
  import opened Handlers

  type Path = seq<nat>

  datatype Value = Number(n: int) | Bits(raw: seq<byte>)

  datatype Leaf =
    | Scalar(value: Value)
    | Text(buf: seq<byte>, len: nat)     // fixed-room string or blob: its bytes and its length
    | Raw(buf: seq<byte>)                // caller buffer of a truncating blob read
    | Items(items: seq<Value>)           // native array: as many items as its length
    | Length(n: nat)                     // wrapper array: how many elements it has

  type Dest = map<Path, Leaf>

  function Zeros(n: nat): (s: seq<byte>)
    ensures |s| == n
  {
    seq(n, i => 0)
  }

  function DefaultOf(e: Elem): Value
  {
    match e
    case Fp32Elem => Bits(Zeros(4))
    case Fp64Elem => Bits(Zeros(8))
    case _ => Number(0)
  }

  // ---------------------------------------------------------------- wrapper arrays

  function LengthAt(d: Dest, here: Path): nat
  {
    if here in d && d[here].Length? then d[here].n else 0
  }

  /** The array is extended until it holds index `id`; what it gains is at the element default. */
  function Place(d: Dest, here: Path, id: nat): Dest
  {
    if LengthAt(d, here) > id then d else d[here := Length(id + 1)]
  }

  function PlaceIf(placed: bool, d: Dest, here: Path, id: nat): Dest
  {
    if placed then Place(d, here, id) else d
  }

  /** Everything below `key` and at it. */
  predicate Under(key: Path, k: Path) { key <= k }

  /** A wrapper sequence replaces its array whole when it begins. */
  function Prepare(node: Node, d: Dest, key: Path): Dest
  {
    if node.Struct? then d
    else (map k | k in d && !Under(key, k) :: d[k])[key := Length(0)]
  }

  // ---------------------------------------------------------------- fixed-room values

  function TextAt(d: Dest, key: Path, room: nat): (t: Leaf)
    ensures t.Text? && |t.buf| == room
  {
    if key in d && d[key].Text? && |d[key].buf| == room then d[key] else Text(Zeros(room), 0)
  }

  function RawAt(d: Dest, key: Path, room: nat): (t: Leaf)
    ensures t.Raw? && |t.buf| == room
  {
    if key in d && d[key].Raw? && |d[key].buf| == room then d[key] else Raw(Zeros(room))
  }

  function ItemsAt(d: Dest, key: Path): seq<Value>
  {
    if key in d && d[key].Items? then d[key].items else []
  }

  function Repeat(v: Value, n: nat): (s: seq<Value>)
    ensures |s| == n
  {
    seq(n, i => v)
  }

  /** `resize`: slots that enter the array are at the element default. */
  function Resize(items: seq<Value>, n: nat, v: Value): (r: seq<Value>)
    ensures |r| == n
    ensures |items| == n ==> r == items
  {
    if n <= |items| then items[..n] else items + Repeat(v, n - |items|)
  }

  function SpanAt(d: Dest, key: Path, e: Elem, extent: nat): (s: seq<Value>)
    ensures |s| == extent
  {
    if |ItemsAt(d, key)| == extent then ItemsAt(d, key) else Repeat(DefaultOf(e), extent)
  }

  /** `memcpy` of a piece to offset `i`, as far as the room goes. */
  function Splice<T>(buf: seq<T>, i: nat, piece: seq<T>): (r: seq<T>)
    ensures |r| == |buf|
    ensures forall k :: 0 <= k < |buf| ==> r[k] == if i <= k < i + |piece| then piece[k - i] else buf[k]
  {
    seq(|buf|, k requires 0 <= k < |buf| => if i <= k < i + |piece| then piece[k - i] else buf[k])
  }

  /** Copying piece by piece is copying the whole. */
  lemma SplicePieces<T>(buf: seq<T>, i: nat, a: seq<T>, b: seq<T>)
    ensures Splice(Splice(buf, i, a), i + |a|, b) == Splice(buf, i, a + b)
  {
  }

  lemma SpliceOne<T>(buf: seq<T>, i: nat, x: T)
    ensures Splice(buf, i, [x]) == if i < |buf| then buf[i := x] else buf
  {
  }
}
