/** Messages as trees, and two encoders of them: one that looks ahead to see whether a
    sequence has content, and one that holds its header back until content comes. */
module Tree {
  import opened Varint
  import opened WireFormat
  import opened ZigZag

  datatype Field =
    | UnsignedField(id: nat, u: u64)
    | SignedField(id: nat, i: i64)
    | FloatField(id: nat, wide: bool, raw: seq<byte>)
    | TextField(id: nat, isString: bool, text: seq<byte>)
    | UnsignedArray(id: nat, us: seq<u64>)
    | SignedArray(id: nat, ss: seq<i64>)
    | FloatArray(id: nat, wide: bool, raws: seq<seq<byte>>)

  /** A field, or a sequence that is kept even when nothing is in it, or dropped then. */
  datatype Item =
    | Leaf(field: Field)
    | Sub(id: nat, items: seq<Item>, keep: bool)

  datatype Call = Write(field: Field) | Begin(id: nat) | End | EndKeep

  // ---------------------------------------------------------------- fields

  function FloatFix(wide: bool): Fix
  {
    if wide then Fp64 else Fp32
  }

  /** `headerWord` followed by nothing. */
  function HeaderBytes(id: nat, w: Wire): seq<byte>
  {
    Encode(HeaderWord(id, w))
  }

  function Varints(vs: seq<nat>): seq<byte>
  {
    if vs == [] then [] else Encode(vs[0]) + Varints(vs[1..])
  }

  lemma {:induction false} VarintsSplit(a: seq<nat>, b: seq<nat>)
    ensures Varints(a + b) == Varints(a) + Varints(b)
    decreases |a|
  {
    hide Encode;
    if a == [] {
      assert a + b == b;
    } else {
      assert (a + b)[1..] == a[1..] + b;
      VarintsSplit(a[1..], b);
    }
  }

  lemma VarintsOne(v: nat)
    ensures Varints([v]) == Encode(v)
  {
    hide Encode;
    assert Varints([]) == [];
  }

  function Joined(raws: seq<seq<byte>>): seq<byte>
  {
    if raws == [] then [] else raws[0] + Joined(raws[1..])
  }

  function ZigZags(ss: seq<i64>): (vs: seq<nat>)
    ensures |vs| == |ss|
  {
    seq(|ss|, k requires 0 <= k < |ss| => ZigZagEncode(ss[k]))
  }

  /** The bytes of one field. */
  function FieldBytes(f: Field): (s: seq<byte>)
    ensures s != []
  {
    match f
    case UnsignedField(id, u) => HeaderBytes(id, Unsigned) + Encode(u)
    case SignedField(id, i) => HeaderBytes(id, Signed) + Encode(ZigZagEncode(i))
    case FloatField(id, wide, raw) => HeaderBytes(id, Fixlen) + Encode(FixlenWord(|raw|, FloatFix(wide))) + raw
    case TextField(id, isString, text) =>
      HeaderBytes(id, Fixlen) + Encode(FixlenWord(|text|, if isString then String else Blob)) + text
    case UnsignedArray(id, us) => HeaderBytes(id, ArrayUnsigned) + Encode(|us|) + Varints(us)
    case SignedArray(id, ss) => HeaderBytes(id, ArraySigned) + Encode(|ss|) + Varints(ZigZags(ss))
    case FloatArray(id, wide, raws) =>
      HeaderBytes(id, ArrayFixlen) + Encode(|raws|) + Encode(FixlenWord(FloatWidth(FloatFix(wide)), FloatFix(wide))) + Joined(raws)
  }

  const END_MARK: seq<byte> := [7]

  lemma EndMark()
    ensures HeaderBytes(0, SequenceEnd) == END_MARK
  {
  }

  /** The wire form of every kind of field, number by number: tags 0 to 5 in the low three bits under the id,
      subtypes 0 to 3 under a fixlen payload's length, elements in the order they were given. */
  lemma FieldLayout(f: Field)
    ensures f.UnsignedField? ==> FieldBytes(f) == Encode(8 * f.id) + Encode(f.u)
    ensures f.SignedField? ==> FieldBytes(f) == Encode(8 * f.id + 1) + Encode(if f.i >= 0 then 2 * (f.i as int) else -2 * (f.i as int) - 1)
    ensures f.FloatField? && |f.raw| == (if f.wide then 8 else 4) ==>
      FieldBytes(f) == Encode(8 * f.id + 2) + Encode(if f.wide then 65 else 32) + f.raw
    ensures f.TextField? ==> FieldBytes(f) == Encode(8 * f.id + 2) + Encode(8 * |f.text| + if f.isString then 2 else 3) + f.text
    ensures f.UnsignedArray? ==> FieldBytes(f) == Encode(8 * f.id + 3) + Encode(|f.us|) + Varints(f.us)
    ensures f.SignedArray? ==> exists ws: seq<nat> ::
      && |ws| == |f.ss| && (forall k :: 0 <= k < |ws| ==> ws[k] == if f.ss[k] >= 0 then 2 * (f.ss[k] as int) else -2 * (f.ss[k] as int) - 1)
      && FieldBytes(f) == Encode(8 * f.id + 4) + Encode(|f.ss|) + Varints(ws)
    ensures f.FloatArray? ==>
      FieldBytes(f) == Encode(8 * f.id + 5) + Encode(|f.raws|) + Encode(if f.wide then 65 else 32) + Joined(f.raws)
  {
    hide Encode;
    if f.SignedArray? { assert |ZigZags(f.ss)| == |f.ss|; }
  }

  /** And of a sequence: tag 6 before it and a 7 behind it. */
  lemma SequenceLayout(id: nat, items: seq<Item>)
    ensures ItemBytes(Sub(id, items, true)) == Encode(8 * id + 6) + TreeBytes(items) + [7]
  {
    hide Encode, TreeBytes;
  }

  // ---------------------------------------------------------------- with look-ahead

  /** A sequence is framed when it is kept or when something inside it emits bytes. */
  function ItemBytes(i: Item): seq<byte>
  {
    match i
    case Leaf(f) => FieldBytes(f)
    case Sub(id, items, keep) =>
      var body := TreeBytes(items);
      if keep || body != [] then HeaderBytes(id, SequenceStart) + body + END_MARK else []
  }

  function TreeBytes(items: seq<Item>): seq<byte>
  {
    if items == [] then [] else ItemBytes(items[0]) + TreeBytes(items[1..])
  }

  /** The calls that write a tree. */
  function ItemCalls(i: Item): seq<Call>
  {
    match i
    case Leaf(f) => [Write(f)]
    case Sub(id, items, keep) => [Begin(id)] + TreeCalls(items) + [if keep then EndKeep else End]
  }

  function TreeCalls(items: seq<Item>): seq<Call>
  {
    if items == [] then [] else ItemCalls(items[0]) + TreeCalls(items[1..])
  }

  // ---------------------------------------------------------------- holding headers back

  /** The ids held back, outermost first, the open sequences, and the bytes that have gone out. */
  datatype Hold = Hold(pending: seq<nat>, depth: nat, out: seq<byte>)

  function Starts(ids: seq<nat>): seq<byte>
  {
    if ids == [] then [] else HeaderBytes(ids[0], SequenceStart) + Starts(ids[1..])
  }

  function Commit(h: Hold): Hold
  {
    Hold([], h.depth, h.out + Starts(h.pending))
  }

  function Do(h: Hold, call: Call): Hold
  {
    match call
    case Write(f) => var g := Commit(h); g.(out := g.out + FieldBytes(f))
    case Begin(id) => h.(pending := h.pending + [id], depth := h.depth + 1)
    case End =>
      var g := h.(depth := if h.depth > 0 then h.depth - 1 else 0);
      if g.pending != [] then g.(pending := g.pending[..|g.pending| - 1]) else g.(out := g.out + END_MARK)
    case EndKeep =>
      var g := Commit(h.(depth := if h.depth > 0 then h.depth - 1 else 0));
      g.(out := g.out + END_MARK)
  }

  function DoAll(h: Hold, calls: seq<Call>): Hold
    decreases |calls|
  {
    if calls == [] then h else DoAll(Do(h, calls[0]), calls[1..])
  }

  lemma {:induction false} DoAllSplit(h: Hold, a: seq<Call>, b: seq<Call>)
    ensures DoAll(h, a + b) == DoAll(DoAll(h, a), b)
    decreases |a|
  {
    if a == [] {
      assert a + b == b;
    } else {
      assert (a + b)[1..] == a[1..] + b && (a + b)[0] == a[0];
      DoAllSplit(Do(h, a[0]), a[1..], b);
    }
  }

  lemma {:induction false} StartsSplit(a: seq<nat>, b: seq<nat>)
    ensures Starts(a + b) == Starts(a) + Starts(b)
    decreases |a|
  {
    if a == [] {
      assert a + b == b;
    } else {
      assert (a + b)[1..] == a[1..] + b;
      StartsSplit(a[1..], b);
    }
  }

  /** What writing bytes `s` at this point amounts to: nothing at all, or the headers held back
      and then the bytes. */
  function Emit(h: Hold, s: seq<byte>): Hold
  {
    if s == [] then h else Hold([], h.depth, h.out + Starts(h.pending) + s)
  }

  lemma EmitEmit(h: Hold, a: seq<byte>, b: seq<byte>)
    ensures Emit(Emit(h, a), b) == Emit(h, a + b)
  {
    if a != [] && b != [] {
      assert Starts([]) == [];
      assert h.out + Starts(h.pending) + a + Starts([]) + b == h.out + Starts(h.pending) + (a + b);
    } else if a == [] {
      assert a + b == b;
    } else {
      assert a + b == a;
    }
  }

  /** Deciding without look-ahead whether a frame exists writes what look-ahead would have written,
      and a tree that writes nothing leaves no trace. */
  lemma {:induction false} HoldBackRefines(h: Hold, items: seq<Item>)
    ensures DoAll(h, TreeCalls(items)) == Emit(h, TreeBytes(items))
    decreases items, 0
  {
    if items != [] {
      DoAllSplit(h, ItemCalls(items[0]), TreeCalls(items[1..]));
      ItemRefines(h, items[0]);
      HoldBackRefines(Emit(h, ItemBytes(items[0])), items[1..]);
      EmitEmit(h, ItemBytes(items[0]), TreeBytes(items[1..]));
    }
  }

  lemma {:induction false} ItemRefines(h: Hold, i: Item)
    ensures DoAll(h, ItemCalls(i)) == Emit(h, ItemBytes(i))
    decreases i, 0
  {
    match i
    case Leaf(f) => assert DoAll(h, [Write(f)]) == DoAll(Do(h, Write(f)), []);
    case Sub(id, items, keep) => SubRefines(h, id, items, keep);
  }

  lemma {:induction false} SubRefines(h: Hold, id: nat, items: seq<Item>, keep: bool)
    ensures DoAll(h, [Begin(id)] + TreeCalls(items) + [if keep then EndKeep else End]) == Emit(h, ItemBytes(Sub(id, items, keep)))
    decreases items, 1
  {
    var last := if keep then EndKeep else End;
    var h1 := Do(h, Begin(id));
    var body := TreeBytes(items);
    DoAllSplit(h, [Begin(id)], TreeCalls(items));
    DoAllSplit(h, [Begin(id)] + TreeCalls(items), [last]);
    assert DoAll(h, [Begin(id)]) == DoAll(h1, []);
    HoldBackRefines(h1, items);
    SubEnds(h, id, body, keep);
    var h2 := Emit(h1, body);
    assert DoAll(h2, [last]) == DoAll(Do(h2, last), []);
  }

  /** The end of a sequence whose body wrote `body`. */
  lemma SubEnds(h: Hold, id: nat, body: seq<byte>, keep: bool)
    ensures Do(Emit(Do(h, Begin(id)), body), if keep then EndKeep else End)
            == Emit(h, if keep || body != [] then HeaderBytes(id, SequenceStart) + body + END_MARK else [])
  {
    hide HeaderBytes, Encode;
    var h1 := Do(h, Begin(id));
    var (start, before) := (HeaderBytes(id, SequenceStart), h.out + Starts(h.pending));
    StartsSplit(h.pending, [id]);
    assert Starts([id]) == start + Starts([]) == start;
    assert h1.pending[..|h1.pending| - 1] == h.pending;
    Framed(h.out, Starts(h.pending), start, body);
  }

  lemma Framed(out: seq<byte>, starts: seq<byte>, start: seq<byte>, body: seq<byte>)
    ensures out + (starts + start) + body + END_MARK == out + starts + (start + body + END_MARK)
    ensures out + (starts + start) + body + [] + END_MARK == out + starts + (start + body + END_MARK)
    ensures body == [] ==> out + (starts + start) + END_MARK == out + starts + (start + body + END_MARK)
  {
  }

  /** A message written from a fresh stream. */
  lemma MessageBytes(items: seq<Item>)
    ensures DoAll(FRESH, TreeCalls(items)) == Hold([], 0, TreeBytes(items))
  {
    HoldBackRefines(FRESH, items);
  }

  // ---------------------------------------------------------------- what the run of held ids is

  /** The depth after a run, or none if it ends a sequence that was not begun. */
  function Depth(calls: seq<Call>, d: nat): Option<nat>
  {
    if calls == [] then Some(d)
    else
      match calls[0]
      case Write(_) => Depth(calls[1..], d)
      case Begin(_) => Depth(calls[1..], d + 1)
      case _ => if d == 0 then None else Depth(calls[1..], d - 1)
  }

  /** What has gone out, piece by piece. */
  datatype Piece = Start(id: nat) | Mark | Content(field: Field)

  function PieceBytes(p: Piece): seq<byte>
  {
    match p
    case Start(id) => HeaderBytes(id, SequenceStart)
    case Mark => END_MARK
    case Content(f) => FieldBytes(f)
  }

  function PiecesBytes(ps: seq<Piece>): seq<byte>
  {
    if ps == [] then [] else PieceBytes(ps[0]) + PiecesBytes(ps[1..])
  }

  function StartPieces(ids: seq<nat>): (ps: seq<Piece>)
    ensures |ps| == |ids|
  {
    seq(|ids|, k requires 0 <= k < |ids| => Start(ids[k]))
  }

  /** What a call sends. */
  function Sent(h: Hold, call: Call): seq<Piece>
  {
    match call
    case Write(f) => StartPieces(h.pending) + [Content(f)]
    case Begin(_) => []
    case End => if h.pending != [] then [] else [Mark]
    case EndKeep => StartPieces(h.pending) + [Mark]
  }

  function SentAll(h: Hold, calls: seq<Call>): seq<Piece>
    decreases |calls|
  {
    if calls == [] then [] else Sent(h, calls[0]) + SentAll(Do(h, calls[0]), calls[1..])
  }

  lemma {:induction false} PiecesSplit(a: seq<Piece>, b: seq<Piece>)
    ensures PiecesBytes(a + b) == PiecesBytes(a) + PiecesBytes(b)
    decreases |a|
  {
    hide PieceBytes;
    if a == [] {
      assert a + b == b;
    } else {
      assert (a + b)[1..] == a[1..] + b;
      PiecesSplit(a[1..], b);
    }
  }

  lemma {:induction false} StartsArePieces(ids: seq<nat>)
    ensures PiecesBytes(StartPieces(ids)) == Starts(ids)
    decreases |ids|
  {
    hide HeaderBytes;
    if ids != [] {
      assert StartPieces(ids)[1..] == StartPieces(ids[1..]);
      StartsArePieces(ids[1..]);
    }
  }

  lemma OnePiece(p: Piece)
    ensures PiecesBytes([p]) == PieceBytes(p)
  {
    hide PieceBytes;
    assert PiecesBytes([]) == [];
  }

  lemma SentBytes(h: Hold, call: Call)
    ensures Do(h, call).out == h.out + PiecesBytes(Sent(h, call))
  {
    hide HeaderBytes, FieldBytes;
    StartsArePieces(h.pending);
    if call.Write? {
      OnePiece(Content(call.field));
      PiecesSplit(StartPieces(h.pending), [Content(call.field)]);
    } else if call.End? || call.EndKeep? {
      OnePiece(Mark);
      PiecesSplit(StartPieces(h.pending), [Mark]);
    }
  }

  /** The pieces are the bytes. */
  lemma {:induction false} SentAllBytes(h: Hold, calls: seq<Call>)
    ensures DoAll(h, calls).out == h.out + PiecesBytes(SentAll(h, calls))
    decreases |calls|
  {
    if calls == [] {
      assert PiecesBytes([]) == [];
      assert h.out + [] == h.out;
    } else {
      hide Do, Sent, PieceBytes, PiecesBytes;
      var (a, b) := (Sent(h, calls[0]), SentAll(Do(h, calls[0]), calls[1..]));
      SentBytes(h, calls[0]);
      SentAllBytes(Do(h, calls[0]), calls[1..]);
      PiecesSplit(a, b);
      Reassociate(h.out, PiecesBytes(a), PiecesBytes(b));
    }
  }

  lemma Reassociate(a: seq<byte>, b: seq<byte>, c: seq<byte>)
    ensures a + b + c == a + (b + c)
  {
  }

  /** The ids of the sequences that are open after a run, outermost first. */
  function Opens(calls: seq<Call>, open: seq<nat>): (ids: seq<nat>)
    requires Depth(calls, |open|).Some?
    ensures |ids| == Depth(calls, |open|).value
    decreases |calls|
  {
    if calls == [] then open else Opens(calls[1..], OpenAfter(calls[0], open))
  }

  function OpenAfter(call: Call, open: seq<nat>): seq<nat>
  {
    match call
    case Write(_) => open
    case Begin(id) => open + [id]
    case _ => if open == [] then [] else open[..|open| - 1]
  }

  /** The frames a receiver of the pieces has seen begin and not end; none if one ends that did not begin. */
  function Frames(ps: seq<Piece>, open: seq<nat>): Option<seq<nat>>
    decreases |ps|
  {
    if ps == [] then Some(open)
    else
      match ps[0]
      case Start(id) => Frames(ps[1..], open + [id])
      case Mark => if open == [] then None else Frames(ps[1..], open[..|open| - 1])
      case Content(_) => Frames(ps[1..], open)
  }

  lemma {:induction false} FramesSplit(a: seq<Piece>, b: seq<Piece>, open: seq<nat>)
    requires Frames(a, open).Some?
    ensures Frames(a + b, open) == Frames(b, Frames(a, open).value)
    decreases |a|
  {
    if a == [] {
      assert a + b == b;
    } else {
      assert (a + b)[1..] == a[1..] + b;
      match a[0]
      case Start(id) => FramesSplit(a[1..], b, open + [id]);
      case Mark => FramesSplit(a[1..], b, open[..|open| - 1]);
      case Content(_) => FramesSplit(a[1..], b, open);
    }
  }

  lemma {:induction false} FramesStart(ids: seq<nat>, open: seq<nat>)
    ensures Frames(StartPieces(ids), open) == Some(open + ids)
    decreases |ids|
  {
    if ids == [] {
      assert open + ids == open;
    } else {
      assert StartPieces(ids)[1..] == StartPieces(ids[1..]);
      FramesStart(ids[1..], open + [ids[0]]);
      assert open + [ids[0]] + ids[1..] == open + ids;
    }
  }

  /** How many headers and how many end markers are among the pieces. */
  function StartCount(ps: seq<Piece>): nat
  {
    if ps == [] then 0 else (if ps[0].Start? then 1 else 0) + StartCount(ps[1..])
  }

  function MarkCount(ps: seq<Piece>): nat
  {
    if ps == [] then 0 else (if ps[0].Mark? then 1 else 0) + MarkCount(ps[1..])
  }

  lemma {:induction false} FramesCount(ps: seq<Piece>, open: seq<nat>)
    requires Frames(ps, open).Some?
    ensures |open| + StartCount(ps) == |Frames(ps, open).value| + MarkCount(ps)
    decreases |ps|
  {
    if ps != [] {
      match ps[0]
      case Start(id) => FramesCount(ps[1..], open + [id]);
      case Mark => FramesCount(ps[1..], open[..|open| - 1]);
      case Content(_) => FramesCount(ps[1..], open);
    }
  }

  /** The held ids are the innermost open sequences, in order; the others have their headers out. */
  predicate Tallied(h: Hold, opens: seq<nat>)
  {
    |opens| == h.depth && |h.pending| <= h.depth && h.pending == opens[h.depth - |h.pending|..]
  }

  function FramesOut(h: Hold, opens: seq<nat>): seq<nat>
    requires Tallied(h, opens)
  {
    opens[..h.depth - |h.pending|]
  }

  lemma TalliedOn(h: Hold, opens: seq<nat>, call: Call)
    requires Tallied(h, opens) && (call.End? || call.EndKeep? ==> h.depth > 0)
    ensures Tallied(Do(h, call), OpenAfter(call, opens))
    ensures Frames(Sent(h, call), FramesOut(h, opens)) == Some(FramesOut(Do(h, call), OpenAfter(call, opens)))
  {
    hide FieldBytes, Starts;
    var out := FramesOut(h, opens);
    assert out + h.pending == opens;
    FramesStart(h.pending, out);
    match call
    case Write(f) =>
      FramesSplit(StartPieces(h.pending), [Content(f)], out);
      assert [Content(f)][1..] == [] && opens[..h.depth] == opens;
    case EndKeep =>
      FramesSplit(StartPieces(h.pending), [Mark], out);
      assert [Mark][1..] == [] && opens[..|opens| - 1][..h.depth - 1] == opens[..|opens| - 1];
    case Begin(id) =>
      assert (opens + [id])[h.depth - |h.pending|..] == h.pending + [id];
      assert (opens + [id])[..h.depth - |h.pending|] == out;
    case End =>
      var rest := opens[..|opens| - 1];
      if h.pending != [] {
        assert rest[..h.depth - |h.pending|] == out;
      } else {
        assert out == opens && rest[..h.depth - 1] == rest && [Mark][1..] == [];
      }
  }

  /** Over every run that ends no sequence it did not begin: the held ids are a suffix of the open ones,
      and the frames in the bytes that have gone out are exactly the rest. */
  lemma {:induction false} RunTallied(h: Hold, opens: seq<nat>, calls: seq<Call>)
    requires Tallied(h, opens) && Depth(calls, |opens|).Some?
    ensures Tallied(DoAll(h, calls), Opens(calls, opens))
    ensures Frames(SentAll(h, calls), FramesOut(h, opens)) == Some(FramesOut(DoAll(h, calls), Opens(calls, opens)))
    decreases |calls|
  {
    hide Do, Sent;
    if calls != [] {
      TalliedOn(h, opens, calls[0]);
      RunTallied(Do(h, calls[0]), OpenAfter(calls[0], opens), calls[1..]);
      FramesSplit(Sent(h, calls[0]), SentAll(Do(h, calls[0]), calls[1..]), FramesOut(h, opens));
    }
  }

  const FRESH := Hold([], 0, [])

  /** From a fresh stream: the bytes are the pieces, the held ids are a suffix of the open ids, and the
      headers less the end markers that have gone out are the depth less what is held. */
  lemma RunKeepsTally(calls: seq<Call>)
    requires Depth(calls, 0).Some?
    ensures var (h, ids, ps) := (DoAll(FRESH, calls), Opens(calls, []), SentAll(FRESH, calls));
            && h.out == PiecesBytes(ps)
            && h.depth == |ids| == Depth(calls, 0).value && |h.pending| <= h.depth
            && h.pending == ids[h.depth - |h.pending|..] && Frames(ps, []) == Some(ids[..h.depth - |h.pending|])
            && StartCount(ps) - MarkCount(ps) == h.depth - |h.pending|
  {
    RunTallied(FRESH, [], calls);
    SentAllBytes(FRESH, calls);
    FramesCount(SentAll(FRESH, calls), []);
    hide DoAll, SentAll, PiecesBytes, Frames, StartCount, MarkCount;
  }

  /** No sequence is begun beyond the depth limit: what the stream refuses is not among the calls. */
  predicate WithinDepth(calls: seq<Call>, d: nat)
  {
    d <= MAX_DEPTH &&
    (calls == [] || match calls[0]
                    case Write(_) => WithinDepth(calls[1..], d)
                    case Begin(_) => WithinDepth(calls[1..], d + 1)
                    case _ => d > 0 && WithinDepth(calls[1..], d - 1))
  }

  lemma {:induction false} DepthHolds(calls: seq<Call>, d: nat)
    requires WithinDepth(calls, d)
    ensures Depth(calls, d).Some? && Depth(calls, d).value <= MAX_DEPTH
    decreases |calls|
  {
    if calls != [] {
      match calls[0]
      case Write(_) => DepthHolds(calls[1..], d);
      case Begin(_) => DepthHolds(calls[1..], d + 1);
      case _ => DepthHolds(calls[1..], d - 1);
    }
  }

  /** A push never fails: whatever was written before, the room of `MAX_DEPTH` ids takes one more for
      every sequence the stream lets begin. */
  lemma PushHasRoom(calls: seq<Call>, id: nat)
    requires WithinDepth(calls + [Begin(id)], 0)
    ensures |DoAll(FRESH, calls).pending| < MAX_DEPTH
    ensures |DoAll(FRESH, calls + [Begin(id)]).pending| <= MAX_DEPTH
  {
    DepthHolds(calls + [Begin(id)], 0);
    RunKeepsTally(calls + [Begin(id)]);
    DoAllSplit(FRESH, calls, [Begin(id)]);
    var h := DoAll(FRESH, calls);
    assert DoAll(h, [Begin(id)]) == DoAll(Do(h, Begin(id)), []);
  }

  // ---------------------------------------------------------------- balanced runs are trees

  /** A sequence that is still open, and what is in it so far. */
  datatype Open = Open(id: nat, items: seq<Item>)

  datatype Build = Build(base: seq<Item>, opens: seq<Open>)

  function Put(b: Build, i: Item): Build
  {
    if b.opens == [] then b.(base := b.base + [i])
    else
      var last := b.opens[|b.opens| - 1];
      b.(opens := b.opens[..|b.opens| - 1] + [last.(items := last.items + [i])])
  }

  function Close(b: Build, keep: bool): Build
    requires b.opens != []
  {
    var last := b.opens[|b.opens| - 1];
    Put(b.(opens := b.opens[..|b.opens| - 1]), Sub(last.id, last.items, keep))
  }

  predicate Balanced(calls: seq<Call>)
  {
    Depth(calls, 0) == Some(0)
  }

  function Grow1(b: Build, call: Call): (r: Build)
    requires call.End? || call.EndKeep? ==> b.opens != []
    ensures |r.opens| == |b.opens| + (if call.Begin? then 1 else 0) - (if call.End? || call.EndKeep? then 1 else 0)
  {
    match call
    case Write(f) => Put(b, Leaf(f))
    case Begin(id) => b.(opens := b.opens + [Open(id, [])])
    case End => Close(b, false)
    case EndKeep => Close(b, true)
  }

  function Grow(b: Build, calls: seq<Call>): (r: Build)
    requires Depth(calls, |b.opens|).Some?
    ensures |r.opens| == Depth(calls, |b.opens|).value
    decreases |calls|
  {
    if calls == [] then b else Grow(Grow1(b, calls[0]), calls[1..])
  }

  /** The calls that led here. */
  function OpenCalls(opens: seq<Open>): seq<Call>
  {
    if opens == [] then []
    else
      var last := opens[|opens| - 1];
      OpenCalls(opens[..|opens| - 1]) + ([Begin(last.id)] + TreeCalls(last.items))
  }

  function BuildCalls(b: Build): seq<Call>
  {
    TreeCalls(b.base) + OpenCalls(b.opens)
  }

  lemma {:induction false} TreeCallsPut(items: seq<Item>, i: Item)
    ensures TreeCalls(items + [i]) == TreeCalls(items) + ItemCalls(i)
    decreases |items|
  {
    if items == [] {
      assert items + [i] == [i] && [i][1..] == [];
      assert TreeCalls([]) == [];
    } else {
      assert (items + [i])[1..] == items[1..] + [i];
      TreeCallsPut(items[1..], i);
    }
  }

  lemma OpenLast(opens: seq<Open>, o: Open)
    ensures OpenCalls(opens + [o]) == OpenCalls(opens) + ([Begin(o.id)] + TreeCalls(o.items))
  {
    assert (opens + [o])[..|opens|] == opens;
    hide TreeCalls;
  }

  lemma Assoc(a: seq<Call>, b: seq<Call>, c: seq<Call>, d: seq<Call>, e: seq<Call>)
    ensures a + (b + (c + (d + e))) == a + (b + (c + d)) + e
  {
  }

  lemma PutCalls(b: Build, i: Item)
    ensures BuildCalls(Put(b, i)) == BuildCalls(b) + ItemCalls(i)
  {
    if b.opens == [] {
      TreeCallsPut(b.base, i);
    } else {
      var (init, last) := (b.opens[..|b.opens| - 1], b.opens[|b.opens| - 1]);
      TreeCallsPut(last.items, i);
      OpenLast(init, last);
      OpenLast(init, last.(items := last.items + [i]));
      assert b.opens == init + [last];
      hide TreeCalls, ItemCalls, OpenCalls;
      Assoc(TreeCalls(b.base), OpenCalls(init), [Begin(last.id)], TreeCalls(last.items), ItemCalls(i));
    }
  }

  lemma CloseCalls(b: Build, keep: bool)
    requires b.opens != []
    ensures BuildCalls(Close(b, keep)) == BuildCalls(b) + [if keep then EndKeep else End]
  {
    var (init, last) := (b.opens[..|b.opens| - 1], b.opens[|b.opens| - 1]);
    PutCalls(b.(opens := init), Sub(last.id, last.items, keep));
    hide TreeCalls;
  }

  lemma Grow1Calls(b: Build, call: Call)
    requires call.End? || call.EndKeep? ==> b.opens != []
    ensures BuildCalls(Grow1(b, call)) == BuildCalls(b) + [call]
  {
    hide BuildCalls, Put, Close;
    match call
    case Write(f) => PutCalls(b, Leaf(f));
    case Begin(id) => BeginCalls(b, id);
    case End => CloseCalls(b, false);
    case EndKeep => CloseCalls(b, true);
  }

  lemma {:induction false} GrowCalls(b: Build, calls: seq<Call>)
    requires Depth(calls, |b.opens|).Some?
    ensures BuildCalls(Grow(b, calls)) == BuildCalls(b) + calls
    decreases |calls|
  {
    hide BuildCalls, Grow1;
    if calls == [] {
      assert BuildCalls(b) + [] == BuildCalls(b);
    } else {
      Grow1Calls(b, calls[0]);
      GrowCalls(Grow1(b, calls[0]), calls[1..]);
      assert BuildCalls(b) + [calls[0]] + calls[1..] == BuildCalls(b) + calls;
    }
  }

  lemma BeginCalls(b: Build, id: nat)
    ensures BuildCalls(b.(opens := b.opens + [Open(id, [])])) == BuildCalls(b) + [Begin(id)]
  {
    var opens := b.opens + [Open(id, [])];
    assert opens[..|opens| - 1] == b.opens && TreeCalls([]) == [];
  }

  /** The tree a balanced run of calls writes. */
  function TreeOf(calls: seq<Call>): seq<Item>
    requires Balanced(calls)
  {
    Grow(Build([], []), calls).base
  }

  /** Every balanced run of calls is the run of a tree, so it writes what look-ahead would. */
  lemma BalancedRun(calls: seq<Call>)
    requires Balanced(calls)
    ensures TreeCalls(TreeOf(calls)) == calls
    ensures DoAll(FRESH, calls) == Hold([], 0, TreeBytes(TreeOf(calls)))
  {
    var b := Build([], []);
    GrowCalls(b, calls);
    assert BuildCalls(b) == [];
    var g := Grow(b, calls);
    assert g.opens == [] && OpenCalls([]) == [];
    assert BuildCalls(g) == TreeCalls(g.base) + [] == TreeCalls(g.base);
    assert BuildCalls(b) + calls == calls;
    MessageBytes(TreeOf(calls));
  }
}
