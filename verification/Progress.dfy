/** Whole pieces at once: what a run of the machine does over a stretch of payload bytes or
    elements, so that a decoder that copies pieces can be compared with it. */
module Progress {
  import opened Varint
  import opened WireFormat
  import opened Handlers
  import opened Destination
  import opened Utf8
  import opened Machine

  /** No header announces more than this. */
  const CAP_NEED_MAX: nat := ARRAY_MAX * FIXLEN_MAX

  lemma {:induction false} TollAdd(path: seq<Frame>, a: nat, b: nat)
    ensures Toll(path, a + b) == Toll(path, a) + Toll(path, b)
    decreases |path|
  {
    if path != [] { TollAdd(path[..|path| - 1], a, b); }
  }

  lemma {:induction false} TollZero(path: seq<Frame>)
    ensures Toll(path, 0) == 0
    decreases |path|
  {
    if path != [] { TollZero(path[..|path| - 1]); }
  }

  lemma TollPush(path: seq<Frame>, f: Frame, n: nat)
    ensures Toll(path + [f], n) == Toll(path, n) + if f.skip then n else 0
  {
    assert (path + [f])[..|path|] == path;
  }

  /** Nothing on the way to a level that is being read is skipped. */
  lemma {:induction false} TollLive(root: Node, path: seq<Frame>, n: nat)
    requires LevelAt(root, path).Live?
    ensures Toll(path, n) == 0
    decreases |path|
  {
    if path != [] { TollLive(root, path[..|path| - 1], n); }
  }

  /** The state after `n` more bytes of the field in hand, `units` of its units, none its last. */
  function Amid(s: State, n: nat, units: nat, d: Dest, q: nat): State
    requires s.pend.Busy?
  {
    State(s.path, Busy(s.pend.h, s.pend.skip, s.pend.done + units, q), d, s.span + n,
          s.disc + Toll(s.path, n) + if s.pend.skip then n else 0)
  }

  /** The state after the last `n` bytes of the field in hand. */
  function Past(s: State, n: nat, d: Dest): State
    requires s.pend.Busy?
  {
    State(s.path, Idle, d, s.span + n, s.disc + Toll(s.path, n) + if s.pend.skip then n else 0)
  }

  lemma AmidNothing(s: State)
    requires s.pend.Busy?
    ensures Amid(s, 0, 0, s.dest, s.pend.utf8) == s
  {
    TollZero(s.path);
  }

  lemma AmidAmid(s: State, n: nat, units: nat, d: Dest, q: nat, n2: nat, units2: nat, d2: Dest, q2: nat)
    requires s.pend.Busy?
    ensures Amid(Amid(s, n, units, d, q), n2, units2, d2, q2) == Amid(s, n + n2, units + units2, d2, q2)
    ensures Past(Amid(s, n, units, d, q), n2, d2) == Past(s, n + n2, d2)
  {
    TollAdd(s.path, n, n2);
  }

  /** The first `n` bytes take the machine from `s` to `t`. */
  predicate Leads(c: Config, s: State, b: seq<byte>, t: State, n: nat)
    requires n <= |b|
  {
    Good(c, t) && Run(c, s, b) == Run(c, t, b[n..])
  }

  lemma StepLeads(c: Config, s: State, b: seq<byte>, t: State, n: nat)
    requires Good(c, s) && Machine.Step(c, s, b) == Go(t, n) && n <= |b|
    ensures Leads(c, s, b, t, n)
  {
    StepGood(c, s, b);
    hide Machine.Step, Good;
  }

  lemma StepStops(c: Config, s: State, b: seq<byte>)
    ensures var o := Machine.Step(c, s, b);
            && (o.Need? ==> Run(c, s, b) == Stuck(s, b))
            && (o.Fail? ==> Run(c, s, b) == Failed(o.why, o.at, o.dest))
  {
    hide Machine.Step;
  }

  // ---------------------------------------------------------------- stepping over bytes

  lemma SkipByte(c: Config, s: State, b: seq<byte>)
    requires Good(c, s) && s.pend.Busy? && s.pend.skip && !VarintPayload(s.pend.h.wire) && b != []
    ensures Machine.Step(c, s, b) ==
      if s.pend.done + 1 < SkipUnits(s.pend.h) then Go(Amid(s, 1, 1, s.dest, s.pend.utf8), 1) else Go(Past(s, 1, s.dest), 1)
  {
  }

  lemma {:induction false} SkipBytes(c: Config, s: State, b: seq<byte>, k: nat)
    requires Good(c, s) && s.pend.Busy? && s.pend.skip && !VarintPayload(s.pend.h.wire)
    requires k <= |b| && s.pend.done + k < SkipUnits(s.pend.h)
    ensures Leads(c, s, b, Amid(s, k, k, s.dest, s.pend.utf8), k)
    decreases k
  {
    hide Machine.Step, Run, Good;
    if k == 0 {
      AmidNothing(s);
      assert b[0..] == b;
    } else {
      var s1 := Amid(s, 1, 1, s.dest, s.pend.utf8);
      SkipByte(c, s, b);
      StepLeads(c, s, b, s1, 1);
      assert b[1..][k - 1..] == b[k..];
      SkipBytes(c, s1, b[1..], k - 1);
      AmidAmid(s, 1, 1, s.dest, s.pend.utf8, k - 1, k - 1, s.dest, s.pend.utf8);
    }
  }

  lemma SkipBytesEnd(c: Config, s: State, b: seq<byte>, k: nat)
    requires Good(c, s) && s.pend.Busy? && s.pend.skip && !VarintPayload(s.pend.h.wire)
    requires 1 <= k <= |b| && s.pend.done + k == SkipUnits(s.pend.h)
    ensures Leads(c, s, b, Past(s, k, s.dest), k)
  {
    hide Machine.Step, Run, Good;
    SkipBytes(c, s, b, k - 1);
    var s1 := Amid(s, k - 1, k - 1, s.dest, s.pend.utf8);
    AmidAmid(s, k - 1, k - 1, s.dest, s.pend.utf8, 1, 1, s.dest, s.pend.utf8);
    SkipByte(c, s1, b[k - 1..]);
    StepLeads(c, s1, b[k - 1..], Past(s1, 1, s.dest), 1);
    assert b[k - 1..][1..] == b[k..];
  }

  // ---------------------------------------------------------------- text in pieces

  predicate ReadingText(c: Config, s: State, isString: bool, room: nat)
  {
    && Good(c, s) && s.pend.Busy? && !s.pend.skip && IsState(s.pend.utf8)
    && var a := ReadInHand(c, s); a.Take? && a.read.ReadText? && a.read.isString == isString && a.read.room == room
  }

  function KeyOf(s: State): Path
    requires s.pend.Busy?
  {
    Ids(s.path) + [s.pend.h.id]
  }

  function TextCopied(d: Dest, key: Path, room: nat, i: nat, piece: seq<byte>): Dest
  {
    var t := TextAt(d, key, room);
    if piece == [] then d else d[key := Text(Splice(t.buf, i, piece), t.len)]
  }

  function Scanned(isString: bool, q: nat, piece: seq<byte>): (r: nat)
    requires IsState(q)
    ensures IsState(r)
  {
    if isString then Advance(q, piece) else q
  }

  lemma TextCopiedTwice(d: Dest, key: Path, room: nat, i: nat, a: seq<byte>, b: seq<byte>)
    ensures TextCopied(TextCopied(d, key, room, i, a), key, room, i + |a|, b) == TextCopied(d, key, room, i, a + b)
  {
    SplicePieces(TextAt(d, key, room).buf, i, a, b);
    if a == [] { assert a + b == b; }
    if b == [] { assert a + b == a; }
  }

  function TextAmid(s: State, isString: bool, room: nat, piece: seq<byte>): State
    requires s.pend.Busy? && IsState(s.pend.utf8)
  {
    Amid(s, |piece|, |piece|, TextCopied(s.dest, KeyOf(s), room, s.pend.done, piece), Scanned(isString, s.pend.utf8, piece))
  }

  lemma TextByte(c: Config, s: State, b: seq<byte>, isString: bool, room: nat)
    requires ReadingText(c, s, isString, room) && b != [] && s.pend.done + 1 < s.pend.h.len
    ensures Machine.Step(c, s, b) == Go(TextAmid(s, isString, room, b[..1]), 1)
  {
    SpliceOne(TextAt(s.dest, KeyOf(s), room).buf, s.pend.done, b[0]);
    assert b[..1] == [b[0]];
    AdvanceOne(s.pend.utf8, b[0]);
  }

  lemma TextAmidTwice(s: State, isString: bool, room: nat, a: seq<byte>, b: seq<byte>)
    requires s.pend.Busy? && IsState(s.pend.utf8)
    ensures TextAmid(TextAmid(s, isString, room, a), isString, room, b) == TextAmid(s, isString, room, a + b)
  {
    var (d, q) := (TextCopied(s.dest, KeyOf(s), room, s.pend.done, a), Scanned(isString, s.pend.utf8, a));
    TextCopiedTwice(s.dest, KeyOf(s), room, s.pend.done, a, b);
    AdvanceSplit(s.pend.utf8, a, b);
    AmidAmid(s, |a|, |a|, d, q, |b|, |b|, TextCopied(d, KeyOf(s), room, s.pend.done + |a|, b), Scanned(isString, q, b));
  }

  /** A piece of text that does not end it. */
  lemma {:induction false} TextPiece(c: Config, s: State, b: seq<byte>, k: nat, isString: bool, room: nat)
    requires ReadingText(c, s, isString, room) && k <= |b| && s.pend.done + k < s.pend.h.len
    ensures Leads(c, s, b, TextAmid(s, isString, room, b[..k]), k)
    decreases k
  {
    hide Machine.Step, Run, Good;
    if k == 0 {
      AmidNothing(s);
      assert b[0..] == b && b[..0] == [];
    } else {
      TextByte(c, s, b, isString, room);
      var s1 := TextAmid(s, isString, room, b[..1]);
      StepLeads(c, s, b, s1, 1);
      TextPiece(c, s1, b[1..], k - 1, isString, room);
      assert b[1..][k - 1..] == b[k..] && b[..1] + b[1..][..k - 1] == b[..k];
      TextAmidTwice(s, isString, room, b[..1], b[1..][..k - 1]);
    }
  }

  function TextPublished(s: State, n: nat, room: nat, piece: seq<byte>): State
    requires s.pend.Busy?
  {
    var d := TextCopied(s.dest, KeyOf(s), room, s.pend.done, piece);
    Past(s, n, d[KeyOf(s) := Text(TextAt(d, KeyOf(s), room).buf, s.pend.h.len)])
  }

  /** Where a text ends: published whole, or refused if a string's bytes are not UTF-8. */
  function TextEnded(c: Config, s: State, n: nat, isString: bool, room: nat, piece: seq<byte>, rest: seq<byte>): Outcome
    requires s.pend.Busy? && IsState(s.pend.utf8)
  {
    if isString && Scanned(isString, s.pend.utf8, piece) != ACCEPT then Failed(Invalid, {KeyOf(s)}, s.dest - {KeyOf(s)})
    else Run(c, TextPublished(s, n, room, piece), rest)
  }

  lemma TextLastStep(c: Config, s: State, b: seq<byte>, isString: bool, room: nat)
    requires ReadingText(c, s, isString, room) && b != [] && s.pend.done + 1 == s.pend.h.len
    ensures Machine.Step(c, s, b) ==
              if isString && Scanned(isString, s.pend.utf8, [b[0]]) != ACCEPT then Fail(Invalid, {KeyOf(s)}, s.dest - {KeyOf(s)})
              else Go(TextPublished(s, 1, room, [b[0]]), 1)
  {
    var key := KeyOf(s);
    SpliceOne(TextAt(s.dest, key, room).buf, s.pend.done, b[0]);
    AdvanceOne(s.pend.utf8, b[0]);
    assert Machine.Step(c, s, b) == TextStep(s, b, key, isString, room);
  }

  lemma TextLast(c: Config, s: State, b: seq<byte>, isString: bool, room: nat)
    requires ReadingText(c, s, isString, room) && b != [] && s.pend.done + 1 == s.pend.h.len
    ensures Run(c, s, b) == TextEnded(c, s, 1, isString, room, [b[0]], b[1..])
    ensures (isString && Scanned(isString, s.pend.utf8, [b[0]]) != ACCEPT) || Good(c, TextPublished(s, 1, room, [b[0]]))
  {
    hide Machine.Step, Run, Good;
    TextLastStep(c, s, b, isString, room);
    StepStops(c, s, b);
    if Machine.Step(c, s, b).Go? { StepLeads(c, s, b, TextPublished(s, 1, room, [b[0]]), 1); }
  }

  lemma TextEnd(c: Config, s: State, b: seq<byte>, k: nat, isString: bool, room: nat)
    requires ReadingText(c, s, isString, room) && 1 <= k <= |b| && s.pend.done + k == s.pend.h.len
    ensures Run(c, s, b) == TextEnded(c, s, k, isString, room, b[..k], b[k..])
    ensures (isString && Scanned(isString, s.pend.utf8, b[..k]) != ACCEPT) || Good(c, TextPublished(s, k, room, b[..k]))
  {
    hide Machine.Step, Run, Good;
    TextPiece(c, s, b, k - 1, isString, room);
    var (a, z) := (b[..k - 1], b[k - 1..]);
    var s1 := TextAmid(s, isString, room, a);
    TextLast(c, s1, z, isString, room);
    assert a + [z[0]] == b[..k] && z[1..] == b[k..];
    TextEndedTwice(c, s, isString, room, a, z[0], b[k..]);
  }

  lemma TextCopiedHere(d: Dest, key: Path, room: nat, done: nat, piece: seq<byte>)
    ensures TextCopied(d, key, room, done, piece) - {key} == d - {key}
  {
  }

  lemma TextEndedTwice(c: Config, s: State, isString: bool, room: nat, a: seq<byte>, x: byte, rest: seq<byte>)
    requires s.pend.Busy? && IsState(s.pend.utf8)
    ensures TextEnded(c, TextAmid(s, isString, room, a), 1, isString, room, [x], rest)
            == TextEnded(c, s, |a| + 1, isString, room, a + [x], rest)
    ensures TextPublished(TextAmid(s, isString, room, a), 1, room, [x]) == TextPublished(s, |a| + 1, room, a + [x])
    ensures TextAmid(s, isString, room, a).dest - {KeyOf(s)} == s.dest - {KeyOf(s)}
    ensures Scanned(isString, TextAmid(s, isString, room, a).pend.utf8, [x]) == Scanned(isString, s.pend.utf8, a + [x])
  {
    hide Machine.Step, Run, Good, TextCopied, TextAt, Advance, Past, Amid;
    var key := KeyOf(s);
    var s1 := TextAmid(s, isString, room, a);
    TextAmidFacts(s, isString, room, a);
    AdvanceSplit(s.pend.utf8, a, [x]);
    TextCopiedTwice(s.dest, key, room, s.pend.done, a, [x]);
    TextCopiedHere(s.dest, key, room, s.pend.done, a);
    var d := TextCopied(s.dest, key, room, s.pend.done, a + [x]);
    TextPast(s, |a| + 1, s1.dest, s1.pend.utf8, d[key := Text(TextAt(d, key, room).buf, s.pend.h.len)]);
  }

  lemma TextAmidFacts(s: State, isString: bool, room: nat, piece: seq<byte>)
    requires s.pend.Busy? && IsState(s.pend.utf8)
    ensures var t := TextAmid(s, isString, room, piece);
            && t.pend == Busy(s.pend.h, s.pend.skip, s.pend.done + |piece|, Scanned(isString, s.pend.utf8, piece))
            && t.path == s.path && KeyOf(t) == KeyOf(s) && t.dest == TextCopied(s.dest, KeyOf(s), room, s.pend.done, piece)
            && t == Amid(s, |piece|, |piece|, t.dest, t.pend.utf8)
  {
    hide TextCopied, Advance, Toll;
  }

  lemma TextPast(s: State, k: nat, d: Dest, q: nat, d2: Dest)
    requires s.pend.Busy? && k >= 1
    ensures Past(Amid(s, k - 1, k - 1, d, q), 1, d2) == Past(s, k, d2)
  {
    AmidAmid(s, k - 1, k - 1, d, q, 1, 1, d2, q);
  }

  // ---------------------------------------------------------------- truncating blob reads

  function RawCopied(d: Dest, key: Path, room: nat, i: nat, piece: seq<byte>): Dest
  {
    if i < room && piece != [] then d[key := Raw(Splice(RawAt(d, key, room).buf, i, piece))] else d
  }

  lemma RawCopiedTwice(d: Dest, key: Path, room: nat, i: nat, a: seq<byte>, b: seq<byte>)
    ensures RawCopied(RawCopied(d, key, room, i, a), key, room, i + |a|, b) == RawCopied(d, key, room, i, a + b)
  {
    var buf := RawAt(d, key, room).buf;
    SplicePieces(buf, i, a, b);
    if a == [] { assert a + b == b; }
    if b == [] { assert a + b == a; }
    if i + |a| >= room { assert Splice(Splice(buf, i, a), i + |a|, b) == Splice(buf, i, a); }
  }

  predicate ReadingRaw(c: Config, s: State, room: nat)
  {
    && Good(c, s) && s.pend.Busy? && !s.pend.skip && IsState(s.pend.utf8)
    && var a := ReadInHand(c, s); a.Take? && a.read == ReadRaw(room)
  }

  lemma RawByte(c: Config, s: State, b: seq<byte>, room: nat)
    requires ReadingRaw(c, s, room) && b != []
    ensures var d := RawCopied(s.dest, KeyOf(s), room, s.pend.done, [b[0]]);
            Machine.Step(c, s, b) ==
              if s.pend.done + 1 < s.pend.h.len then Go(Amid(s, 1, 1, d, s.pend.utf8), 1) else Go(Past(s, 1, d), 1)
  {
    SpliceOne(RawAt(s.dest, KeyOf(s), room).buf, s.pend.done, b[0]);
    assert Machine.Step(c, s, b) == RawStep(s, b, KeyOf(s), room);
  }

  lemma {:induction false} RawPiece(c: Config, s: State, b: seq<byte>, k: nat, room: nat)
    requires ReadingRaw(c, s, room) && k <= |b| && s.pend.done + k < s.pend.h.len
    ensures Leads(c, s, b, Amid(s, k, k, RawCopied(s.dest, KeyOf(s), room, s.pend.done, b[..k]), s.pend.utf8), k)
    decreases k
  {
    hide Machine.Step, Run, Good;
    if k == 0 {
      AmidNothing(s);
      assert b[0..] == b && b[..0] == [];
    } else {
      RawByte(c, s, b, room);
      var (key, i, q) := (KeyOf(s), s.pend.done, s.pend.utf8);
      var d := RawCopied(s.dest, key, room, i, [b[0]]);
      var s1 := Amid(s, 1, 1, d, q);
      StepLeads(c, s, b, s1, 1);
      RawPiece(c, s1, b[1..], k - 1, room);
      assert b[1..][k - 1..] == b[k..] && [b[0]] + b[1..][..k - 1] == b[..k];
      RawCopiedTwice(s.dest, key, room, i, [b[0]], b[1..][..k - 1]);
      AmidAmid(s, 1, 1, d, q, k - 1, k - 1, RawCopied(d, key, room, i + 1, b[1..][..k - 1]), q);
    }
  }

  lemma RawEnd(c: Config, s: State, b: seq<byte>, k: nat, room: nat)
    requires ReadingRaw(c, s, room) && 1 <= k <= |b| && s.pend.done + k == s.pend.h.len
    ensures Leads(c, s, b, Past(s, k, RawCopied(s.dest, KeyOf(s), room, s.pend.done, b[..k])), k)
  {
    hide Machine.Step, Run, Good;
    var (a, z) := (b[..k - 1], b[k - 1..]);
    var (key, i, q) := (KeyOf(s), s.pend.done, s.pend.utf8);
    RawPiece(c, s, b, k - 1, room);
    var d := RawCopied(s.dest, key, room, i, a);
    var s1 := Amid(s, k - 1, k - 1, d, q);
    RawByte(c, s1, z, room);
    StepLeads(c, s1, z, Past(s1, 1, RawCopied(d, key, room, i + k - 1, [z[0]])), 1);
    assert a + [z[0]] == b[..k] && z[1..] == b[k..];
    RawCopiedTwice(s.dest, key, room, i, a, [z[0]]);
    TextPast(s, k, d, q, RawCopied(d, key, room, i + k - 1, [z[0]]));
  }

  // ---------------------------------------------------------------- arrays

  /** The array a typed read fills. */
  predicate ReadingItems(c: Config, s: State, r: Read)
  {
    && (r.ReadArray? || r.ReadSpan?)
    && Good(c, s) && s.pend.Busy? && !s.pend.skip && IsState(s.pend.utf8)
    && var a := ReadInHand(c, s); a.Take? && a.read == r
  }

  function ItemsOf(d: Dest, key: Path, r: Read): seq<Value>
    requires r.ReadArray? || r.ReadSpan?
  {
    if r.ReadArray? then ItemsAt(d, key) else SpanAt(d, key, r.elem, r.extent)
  }

  function RangeOf(r: Read): Range
    requires r.ReadArray? || r.ReadSpan?
  {
    if r.ReadArray? then r.range else Unarmed
  }

  lemma ItemStep(c: Config, s: State, b: seq<byte>, r: Read)
    requires ReadingItems(c, s, r)
    ensures Machine.Step(c, s, b) == ElementStep(s, b, KeyOf(s), r.elem, RangeOf(r), ItemsOf(s.dest, KeyOf(s), r))
  {
  }

  function ItemsCopied(d: Dest, key: Path, items: seq<Value>, i: nat, vs: seq<Value>): Dest
  {
    if i < |items| && vs != [] then d[key := Items(Splice(items, i, vs))] else d
  }

  /** The element patterns of a fixlen array's payload. */
  function Floats(e: Elem, piece: seq<byte>): (vs: seq<Value>)
    decreases |piece|
  {
    var w := ElemWidth(e);
    if |piece| < w then [] else [Bits(piece[..w])] + Floats(e, piece[w..])
  }

  function FloatBytes(e: Elem, k: nat): nat
  {
    if e == Fp32Elem then 4 * k else 8 * k
  }

  lemma ItemsAfter(d: Dest, key: Path, r: Read, i: nat, v: Value, vs: seq<Value>)
    requires r.ReadArray? || r.ReadSpan?
    ensures var items := ItemsOf(d, key, r);
            var e := StoreItem(d, key, items, i, v);
            && ItemsOf(e, key, r) == Splice(items, i, [v])
            && ItemsCopied(e, key, ItemsOf(e, key, r), i + 1, vs) == ItemsCopied(d, key, items, i, [v] + vs)
  {
    var items := ItemsOf(d, key, r);
    SpliceOne(items, i, v);
    SplicePieces(items, i, [v], vs);
    if i + 1 >= |items| || vs == [] { assert Splice(Splice(items, i, [v]), i + 1, vs) == Splice(items, i, [v]); }
  }

  lemma FloatItem(c: Config, s: State, b: seq<byte>, r: Read)
    requires ReadingItems(c, s, r) && IsFloat(r.elem) && |b| >= ElemWidth(r.elem)
    ensures var w := ElemWidth(r.elem);
            var d := StoreItem(s.dest, KeyOf(s), ItemsOf(s.dest, KeyOf(s), r), s.pend.done, Bits(b[..w]));
            Machine.Step(c, s, b) ==
              if s.pend.done + 1 < s.pend.h.count then Go(Amid(s, w, 1, d, s.pend.utf8), w) else Go(Past(s, w, d), w)
  {
    ItemStep(c, s, b, r);
    hide Machine.Step, Run, Good;
  }

  /** A fixlen array taken in one move is the array taken element by element. */
  lemma {:induction false} FloatItems(c: Config, s: State, b: seq<byte>, k: nat, r: Read)
    requires ReadingItems(c, s, r) && IsFloat(r.elem) && 1 <= k && s.pend.done + k == s.pend.h.count
    requires FloatBytes(r.elem, k) <= |b|
    ensures var n := FloatBytes(r.elem, k);
            Leads(c, s, b, Past(s, n, ItemsCopied(s.dest, KeyOf(s), ItemsOf(s.dest, KeyOf(s), r), s.pend.done,
                                                  Floats(r.elem, b[..n]))), n)
    decreases k
  {
    hide Machine.Step, Run, Good;
    var (w, n, key, i, q) := (ElemWidth(r.elem), FloatBytes(r.elem, k), KeyOf(s), s.pend.done, s.pend.utf8);
    FloatItem(c, s, b, r);
    var items := ItemsOf(s.dest, key, r);
    var v := Bits(b[..w]);
    var d := StoreItem(s.dest, key, items, i, v);
    var vs := Floats(r.elem, b[w..n]);
    assert b[..n][..w] == b[..w] && b[..n][w..] == b[w..n];
    assert Floats(r.elem, b[..n]) == [v] + vs;
    ItemsAfter(s.dest, key, r, i, v, vs);
    if k == 1 {
      assert vs == [];
      StepLeads(c, s, b, Past(s, w, d), w);
    } else {
      var s1 := Amid(s, w, 1, d, q);
      StepLeads(c, s, b, s1, w);
      FloatItems(c, s1, b[w..], k - 1, r);
      assert b[w..][n - w..] == b[n..] && b[w..][..n - w] == b[w..n];
      AmidAmid(s, w, 1, d, q, n - w, 0, ItemsCopied(d, key, ItemsOf(d, key, r), i + 1, vs), q);
    }
  }

  /** The state after one unit of the field in hand. */
  function Onward(s: State, units: nat, n: nat, d: Dest): State
    requires s.pend.Busy?
  {
    if s.pend.done + 1 < units then Amid(s, n, 1, d, s.pend.utf8) else Past(s, n, d)
  }

  /** The state after one element of an array, `n` bytes wide. */
  function ItemStored(s: State, n: nat, r: Read, v: Value): State
    requires s.pend.Busy? && (r.ReadArray? || r.ReadSpan?)
  {
    Onward(s, s.pend.h.count, n, StoreItem(s.dest, KeyOf(s), ItemsOf(s.dest, KeyOf(s), r), s.pend.done, v))
  }

  /** One integer element. */
  lemma IntItem(c: Config, s: State, b: seq<byte>, r: Read)
    requires ReadingItems(c, s, r) && !IsFloat(r.elem)
    ensures Decode(b).Cut? ==> Run(c, s, b) == Stuck(s, b)
    ensures Decode(b).Overlong? ==> Run(c, s, b) == Failed(Invalid, {}, s.dest)
    ensures var v := Decode(b);
            v.Got? ==>
              if !InRange(r.elem, RangeOf(r), v.value) then Run(c, s, b) == Failed(Invalid, {}, s.dest)
              else Leads(c, s, b, ItemStored(s, v.size, r, IntValue(r.elem, v.value)), v.size)
  {
    ItemStep(c, s, b, r);
    hide Machine.Step, Run, Good;
    StepStops(c, s, b);
    var v := Decode(b);
    if v.Got? && InRange(r.elem, RangeOf(r), v.value) {
      StepLeads(c, s, b, ItemStored(s, v.size, r, IntValue(r.elem, v.value)), v.size);
    }
  }

  /** One fixlen element, when the array comes piece by piece. */
  lemma FloatOne(c: Config, s: State, b: seq<byte>, r: Read)
    requires ReadingItems(c, s, r) && IsFloat(r.elem)
    ensures var w := ElemWidth(r.elem);
            if |b| < w then Run(c, s, b) == Stuck(s, b)
            else Leads(c, s, b, ItemStored(s, w, r, Bits(b[..w])), w)
  {
    ItemStep(c, s, b, r);
    hide Machine.Step, Run, Good;
    StepStops(c, s, b);
    var w := ElemWidth(r.elem);
    if |b| >= w { StepLeads(c, s, b, ItemStored(s, w, r, Bits(b[..w])), w); }
  }

  // ---------------------------------------------------------------- single values

  predicate ReadingOne(c: Config, s: State, r: Read)
  {
    && Good(c, s) && s.pend.Busy? && !s.pend.skip && IsState(s.pend.utf8)
    && var a := ReadInHand(c, s); a.Take? && a.read == r && (r.ReadUnsigned? || r.ReadSigned? || r.ReadBool? || r.ReadFloat?)
  }

  function ElemOf(r: Read): Elem
  {
    if r.ReadSigned? then SignedElem else if r.ReadBool? then BoolElem else UnsignedElem
  }

  lemma OneVarint(c: Config, s: State, b: seq<byte>, r: Read)
    requires ReadingOne(c, s, r) && !r.ReadFloat?
    ensures Decode(b).Cut? ==> Run(c, s, b) == Stuck(s, b)
    ensures Decode(b).Overlong? ==> Run(c, s, b) == Failed(Invalid, {}, s.dest)
    ensures var v := Decode(b);
            v.Got? ==> Leads(c, s, b, Past(s, v.size, s.dest[KeyOf(s) := Scalar(IntValue(ElemOf(r), v.value))]), v.size)
  {
    assert Machine.Step(c, s, b) == ScalarStep(s, b, KeyOf(s), ElemOf(r));
    hide Machine.Step, Run, Good;
    StepStops(c, s, b);
    var v := Decode(b);
    if v.Got? { StepLeads(c, s, b, Past(s, v.size, s.dest[KeyOf(s) := Scalar(IntValue(ElemOf(r), v.value))]), v.size); }
  }

  lemma OneFloat(c: Config, s: State, b: seq<byte>, r: Read)
    requires ReadingOne(c, s, r) && r.ReadFloat?
    ensures var w := FloatWidth(r.fix);
            if |b| < w then Run(c, s, b) == Stuck(s, b)
            else Leads(c, s, b, Past(s, w, s.dest[KeyOf(s) := Scalar(Bits(b[..w]))]), w)
  {
    assert Machine.Step(c, s, b) == FloatStep(s, b, KeyOf(s), r.fix);
    hide Machine.Step, Run, Good;
    StepStops(c, s, b);
    var w := FloatWidth(r.fix);
    if |b| >= w { StepLeads(c, s, b, Past(s, w, s.dest[KeyOf(s) := Scalar(Bits(b[..w]))]), w); }
  }

  lemma SkipOne(c: Config, s: State, b: seq<byte>)
    requires Good(c, s) && s.pend.Busy? && s.pend.skip && VarintPayload(s.pend.h.wire)
    ensures Decode(b).Cut? ==> Run(c, s, b) == Stuck(s, b)
    ensures Decode(b).Overlong? ==> Run(c, s, b) == Failed(Invalid, {}, s.dest)
    ensures var v := Decode(b);
            v.Got? ==> Leads(c, s, b, Onward(s, SkipUnits(s.pend.h), v.size, s.dest), v.size)
  {
    assert Machine.Step(c, s, b) == SkipStep(s, b);
    hide Machine.Step, Run, Good;
    StepStops(c, s, b);
    var v := Decode(b);
    if v.Got? { StepLeads(c, s, b, Onward(s, SkipUnits(s.pend.h), v.size, s.dest), v.size); }
  }

  /** At the end of the bytes, whatever the state is waiting for has not come. */
  lemma AtEnd(c: Config, s: State)
    requires Good(c, s)
    ensures Run(c, s, []) == Stuck(s, [])
  {
    var o := Machine.Step(c, s, []);
    assert !o.Go?;
    assert Decode([]) == Cut;
    assert o.Need?;
  }

  lemma InHandState(c: Config, s: State)
    requires Good(c, s) && s.pend.Busy?
    ensures IsState(s.pend.utf8)
  {
  }

  /** A field that is stepped over has something left to step over. */
  lemma InHandSkip(c: Config, s: State)
    requires Good(c, s) && s.pend.Busy? && s.pend.skip
    ensures s.pend.done < SkipUnits(s.pend.h) && s.pend.h.wire != SequenceStart && s.pend.h.wire != SequenceEnd
  {
  }

  /** A half-read field is still asked for, is not finished, and has been begun. */
  lemma InHandRead(c: Config, s: State)
    requires Good(c, s) && s.pend.Busy? && !s.pend.skip
    ensures var a := ReadInHand(c, s);
            && a.Take? && !a.read.ReadMessage? && s.pend.done < ReadUnits(a.read, s.pend.h)
            && Started(a.read, s.pend.h, s.dest, KeyOf(s)) == s.dest
            && PlaceIf(a.placed, s.dest, Ids(s.path), s.pend.h.id) == s.dest
  {
  }

  /** Only texts and arrays have anything to begin. */
  lemma StartedIdle(r: Read, h: Header, d: Dest, key: Path)
    ensures !r.ReadText? && !r.ReadArray? && !r.ReadMessage? ==> Started(r, h, d, key) == d
    ensures r.ReadText? && h.len > 0 ==> Started(r, h, d, key) == d
  {
  }

  // ---------------------------------------------------------------- headers

  lemma Slices<T>(s: seq<T>, p: nat, end: nat, n: nat)
    requires p + n <= end <= |s|
    ensures s[p..end][..n] == s[p..p + n] && s[p..end][n..] == s[p + n..end]
  {
  }

  lemma AtBoundary(c: Config, s: State, b: seq<byte>)
    requires s.pend.Idle?
    ensures Machine.Step(c, s, b) == BoundaryStep(c, s, b)
  {
  }

  /** What reads a field's header at a level's boundary reads the machine's next item. */
  lemma FieldRun(c: Config, s: State, b: seq<byte>, h: Header, n: nat, notElement: bool)
    requires Good(c, s) && s.pend.Idle? && n <= |b|
    requires BoundaryStep(c, s, b) == OfferField(c, if s.path == [] then s.(span := 0, disc := 0) else s, h, n, notElement)
    ensures var o := OfferField(c, if s.path == [] then s.(span := 0, disc := 0) else s, h, n, notElement);
            && (o.Fail? ==> Run(c, s, b) == Failed(o.why, o.at, o.dest))
            && (o.Go? ==> Leads(c, s, b, o.next, n))
  {
    AtBoundary(c, s, b);
    hide Machine.Step, Run, Good, Leads;
    StepStops(c, s, b);
    var o := OfferField(c, if s.path == [] then s.(span := 0, disc := 0) else s, h, n, notElement);
    if o.Go? { StepLeads(c, s, b, o.next, n); }
  }
}
