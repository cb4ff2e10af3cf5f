/** The decode as a machine over items: each step consumes one field header, one varint,
    one float, one payload byte or one end marker, or needs more bytes, or refuses. A step
    never looks past its item, so how the bytes were divided cannot matter. */
module Machine {
  import opened Varint
  import opened WireFormat
  import opened Handlers
  import opened Destination
  import opened ZigZag
  import opened Utf8

  /** A sequence that has been entered: its field id, and whether it is being skipped. */
  datatype Frame = Frame(id: nat, skip: bool)

  /** The field in hand: its header, whether it was declined, how many of its units (payload
      bytes, elements) are done, and the UTF-8 state of a string payload. */
  datatype Pend = Idle | Busy(h: Header, skip: bool, done: nat, utf8: nat)

  /** `span` counts the bytes of the current top-level field, `disc` discounts those spent on
      skipped subtrees (once per enclosing declined field). */
  datatype State = State(path: seq<Frame>, pend: Pend, dest: Dest, span: nat, disc: nat)

  /** The handler schema of the message and the receiver's byte budget for one top-level field. */
  datatype Config = Config(root: Node, cap: nat)

  /** `at` holds the destination keys whose content a refusal leaves unspecified. */
  datatype StepResult =
    | Need
    | Fail(why: Refusal, at: set<Path>, dest: Dest)
    | Go(next: State, size: nat)

  const START := State([], Idle, map[], 0, 0)

  // ---------------------------------------------------------------- levels

  function Ids(path: seq<Frame>): (ids: Path)
    ensures |ids| == |path|
  {
    seq(|path|, i requires 0 <= i < |path| => path[i].id)
  }

  /** What `n` bytes inside `path` are discounted: once for every sequence on it that is being skipped. */
  function Toll(path: seq<Frame>, n: nat): (t: nat)
  {
    if path == [] then 0 else Toll(path[..|path| - 1], n) + if path[|path| - 1].skip then n else 0
  }

  /** The header a re-entered sequence is handed back under. */
  function SequenceHeader(id: nat): Header
  {
    Header(id, SequenceStart, Fp32, 0, 0)
  }

  /** The typed read a level's handler makes of a child sequence. */
  function ChildLevel(l: Level, f: Frame): Level
  {
    if f.skip then Skipped
    else
      match AnswerTo(l, SequenceHeader(f.id))
      case Take(ReadMessage(node), _) => Live(node)
      case _ => Skipped
  }

  function LevelAt(root: Node, path: seq<Frame>): Level
  {
    if path == [] then Live(root) else ChildLevel(LevelAt(root, path[..|path| - 1]), path[|path| - 1])
  }

  // ---------------------------------------------------------------- the field-span cap

  function SpanLive(span: nat, disc: nat): nat
  {
    if span > disc then span - disc else 0
  }

  predicate Exceeds(cap: nat, consumed: nat, need: nat)
  {
    consumed > cap || need > cap - consumed
  }

  /** Does the header state a size the schema can bound? */
  predicate SchemaBounds(w: Wire)
  {
    w == Fixlen || w == ArrayUnsigned || w == ArraySigned || w == ArrayFixlen
  }

  /** What a top-level field is known to need, judged from its header. */
  function HeaderNeed(h: Header): nat
  {
    match h.wire
    case Fixlen => h.len
    case ArrayFixlen => h.count * h.len
    case ArrayUnsigned => h.count
    case ArraySigned => h.count
    case _ => 0
  }

  // ---------------------------------------------------------------- headers

  /** Units of payload a declined field has. */
  function SkipUnits(h: Header): nat
  {
    match h.wire
    case Fixlen => h.len
    case ArrayUnsigned => h.count
    case ArraySigned => h.count
    case ArrayFixlen => h.count * h.len
    case _ => 1
  }

  /** Units of payload a typed read consumes. */
  function ReadUnits(r: Read, h: Header): nat
  {
    match r
    case ReadText(_, _, _) => h.len
    case ReadRaw(_) => h.len
    case ReadArray(_, _, _, _) => h.count
    case ReadSpan(_, _) => h.count
    case _ => 1
  }

  /** What a typed read does to its destination before the first payload byte. */
  function Started(r: Read, h: Header, d: Dest, key: Path): Dest
  {
    match r
    case ReadText(_, _, room) => if h.len == 0 then d[key := Text(TextAt(d, key, room).buf, 0)] else d
    case ReadArray(e, _, _, _) => d[key := Items(Resize(ItemsAt(d, key), h.count, DefaultOf(e)))]
    case ReadMessage(node) => Prepare(node, d, key)
    case _ => d
  }

  /** A declined field: its sequence is entered to be walked, its payload will be stepped over. */
  function SkipField(s: State, h: Header, n: nat, d: Dest): (r: StepResult)
    ensures !r.Need? && (r.Go? ==> r.size == n)
  {
    var s1 := s.(dest := d, span := s.span + n, disc := s.disc + Toll(s.path, n) + n);
    if h.wire == SequenceStart then
      if |s.path| >= MAX_DEPTH then Fail(Invalid, {}, d)
      else Go(s1.(path := s.path + [Frame(h.id, true)]), n)
    else if SkipUnits(h) == 0 then Go(s1, n)
    else Go(s1.(pend := Busy(h, true, 0, ACCEPT)), n)
  }

  /** A field the handler reads. */
  function TakeField(s: State, r: Read, h: Header, n: nat, d: Dest): (o: StepResult)
    ensures !o.Need? && (o.Go? ==> o.size == n)
  {
    var key := Ids(s.path) + [h.id];
    var d1 := Started(r, h, d, key);
    var s1 := s.(dest := d1, span := s.span + n, disc := s.disc + Toll(s.path, n));
    if r.ReadMessage? then
      if |s.path| >= MAX_DEPTH then Fail(Invalid, {key}, d1 - {key})
      else Go(s1.(path := s.path + [Frame(h.id, false)]), n)
    else if ReadUnits(r, h) == 0 then Go(s1, n)
    else Go(s1.(pend := Busy(h, false, 0, ACCEPT)), n)
  }

  /** What the handler of the level `s` stands in does with a field; a field the index gate
      found to be no element of its array is never put to it. */
  function AnswerHere(c: Config, s: State, h: Header, notElement: bool): Answer
  {
    if notElement then Decline(false) else AnswerTo(LevelAt(c.root, s.path), h)
  }

  /** Put a field to its level's handler. */
  function Offer(c: Config, s: State, h: Header, n: nat, a: Answer): (r: StepResult)
    ensures !r.Need? && (r.Go? ==> r.size == n)
  {
    var key := Ids(s.path) + [h.id];
    var d := PlaceIf(a.placed, s.dest, Ids(s.path), h.id);
    match a
    case Decline(_) => SkipField(s, h, n, d)
    case Refuse(why, _) => Fail(why, {key}, d - {key})
    case Take(r, _) => TakeField(s, r, h, n, d)
  }

  /** A top-level field over the cap: the schema bound still speaks first, and a declined
      field is never capped. */
  function OverCap(s: State, h: Header, n: nat, a: Answer): (r: StepResult)
    ensures !r.Need? && (r.Go? ==> r.size == n)
  {
    var key := Ids(s.path) + [h.id];
    var d := PlaceIf(a.placed, s.dest, Ids(s.path), h.id);
    if !SchemaBounds(h.wire) then Fail(Limit, {}, s.dest)
    else if a.Decline? then SkipField(s, h, n, d)
    else if a.Refuse? && a.why != Argument then Fail(a.why, {key}, d - {key})
    else Fail(Limit, {key}, d - {key})
  }

  function OfferField(c: Config, s: State, h: Header, n: nat, notElement: bool): (r: StepResult)
    ensures !r.Need? && (r.Go? ==> r.size == n)
  {
    var a := AnswerHere(c, s, h, notElement);
    if s.path == [] && Exceeds(c.cap, n, HeaderNeed(h)) then OverCap(s, h, n, a) else Offer(c, s, h, n, a)
  }

  function EndLevel(s: State, n: nat): (r: StepResult)
    ensures !r.Need? && (r.Go? ==> r.size == n)
  {
    if s.path == [] then Fail(Invalid, {}, s.dest)
    else Go(s.(path := s.path[..|s.path| - 1], span := s.span + n, disc := s.disc + Toll(s.path, n)), n)
  }

  /** Between fields. A top-level field starts a new span; inside a live sequence the span
      accrued so far is measured before the next field. */
  function BoundaryStep(c: Config, s: State, b: seq<byte>): (o: StepResult)
    ensures o.Go? ==> 1 <= o.size <= |b|
  {
    if b == [] then Need
    else
      var l := LevelAt(c.root, s.path);
      var top := s.path == [];
      if !top && l.Live? && Exceeds(c.cap, SpanLive(s.span, s.disc), 0) then Fail(Limit, {}, s.dest)
      else
        match ReadHeader(if top then OPEN_GATE else GateOf(l), b)
        case CutHeader => Need
        case BadHeader(why) => Fail(why, {}, s.dest)
        case LevelEnd(n) => EndLevel(s, n)
        case FieldAt(h, n, notElement) =>
          OfferField(c, if top then s.(span := 0, disc := 0) else s, h, n, notElement)
  }

  // ---------------------------------------------------------------- payloads

  /** One more unit of the field in hand, which took `n` bytes and left the destination at `d`. */
  function NextUnit(s: State, units: nat, n: nat, d: Dest, utf8: nat): (o: StepResult)
    requires s.pend.Busy?
    ensures o.Go? && o.size == n
  {
    var toll := Toll(s.path, n) + if s.pend.skip then n else 0;
    var s1 := s.(dest := d, span := s.span + n, disc := s.disc + toll);
    if s.pend.done + 1 >= units then Go(s1.(pend := Idle), n)
    else Go(s1.(pend := s.pend.(done := s.pend.done + 1, utf8 := utf8)), n)
  }

  predicate VarintPayload(w: Wire)
  {
    w == Unsigned || w == Signed || w == ArrayUnsigned || w == ArraySigned
  }

  function SkipStep(s: State, b: seq<byte>): (o: StepResult)
    requires s.pend.Busy?
    ensures o.Go? ==> 1 <= o.size <= |b|
  {
    var h := s.pend.h;
    if VarintPayload(h.wire) then
      match Decode(b)
      case Cut => Need
      case Overlong => Fail(Invalid, {}, s.dest)
      case Got(_, n) => NextUnit(s, SkipUnits(h), n, s.dest, s.pend.utf8)
    else if b == [] then Need
    else NextUnit(s, SkipUnits(h), 1, s.dest, s.pend.utf8)
  }

  /** The value a wire integer has for an element type. */
  function IntValue(e: Elem, raw: u64): Value
  {
    match e
    case SignedElem => Number(ZigZagDecode(raw))
    case BoolElem => Number(if raw != 0 then 1 else 0)
    case _ => Number(raw)
  }

  /** An element outside the declared range is malformed; booleans are bounded by nothing. */
  predicate InRange(e: Elem, range: Range, raw: u64)
  {
    match range
    case Unarmed => true
    case Within(lo, hi) =>
      match e
      case UnsignedElem => raw <= WrapU64(hi) && (lo <= 0 || raw >= lo)
      case SignedElem => lo <= ZigZagDecode(raw) <= hi
      case _ => true
  }

  /** `static_cast<uint64_t>` of a bound. */
  function WrapU64(v: int): nat
  {
    v % U64_LIMIT
  }

  function ElemWidth(e: Elem): nat
  {
    if e == Fp32Elem then 4 else 8
  }

  predicate IsFloat(e: Elem)
  {
    e == Fp32Elem || e == Fp64Elem
  }

  /** Store element `i`, if the destination reaches that far. */
  function StoreItem(d: Dest, key: Path, items: seq<Value>, i: nat, v: Value): Dest
  {
    if i < |items| then d[key := Items(items[i := v])] else d
  }

  /** One array element. `items` is the destination's current content. */
  function ElementStep(s: State, b: seq<byte>, key: Path, e: Elem, range: Range, items: seq<Value>): (o: StepResult)
    requires s.pend.Busy?
    ensures o.Go? ==> 1 <= o.size <= |b|
  {
    var (h, i) := (s.pend.h, s.pend.done);
    if IsFloat(e) then
      if |b| < ElemWidth(e) then Need
      else NextUnit(s, h.count, ElemWidth(e), StoreItem(s.dest, key, items, i, Bits(b[..ElemWidth(e)])), s.pend.utf8)
    else
      match Decode(b)
      case Cut => Need
      case Overlong => Fail(Invalid, {}, s.dest)
      case Got(raw, n) =>
        if !InRange(e, range, raw) then Fail(Invalid, {}, s.dest)
        else NextUnit(s, h.count, n, StoreItem(s.dest, key, items, i, IntValue(e, raw)), s.pend.utf8)
  }

  function ScalarStep(s: State, b: seq<byte>, key: Path, e: Elem): (o: StepResult)
    requires s.pend.Busy?
    ensures o.Go? ==> 1 <= o.size <= |b|
  {
    match Decode(b)
    case Cut => Need
    case Overlong => Fail(Invalid, {}, s.dest)
    case Got(raw, n) => NextUnit(s, 1, n, s.dest[key := Scalar(IntValue(e, raw))], s.pend.utf8)
  }

  /** One payload byte into a fixed-room text; the verdict on UTF-8 and the length wait for the last. */
  function TextStep(s: State, b: seq<byte>, key: Path, isString: bool, room: nat): (o: StepResult)
    requires s.pend.Busy? && IsState(s.pend.utf8)
    ensures o.Go? ==> 1 <= o.size <= |b|
  {
    if b == [] then Need
    else
      var (h, i) := (s.pend.h, s.pend.done);
      var t := TextAt(s.dest, key, room);
      var buf := if i < room then t.buf[i := b[0]] else t.buf;
      var q := if isString then StepByte(s.pend.utf8, b[0]) else s.pend.utf8;
      if i + 1 < h.len then NextUnit(s, h.len, 1, s.dest[key := Text(buf, t.len)], q)
      else if isString && q != ACCEPT then Fail(Invalid, {key}, s.dest - {key})
      else NextUnit(s, h.len, 1, s.dest[key := Text(buf, h.len)], q)
  }

  function RawStep(s: State, b: seq<byte>, key: Path, room: nat): (o: StepResult)
    requires s.pend.Busy?
    ensures o.Go? ==> 1 <= o.size <= |b|
  {
    if b == [] then Need
    else
      var i := s.pend.done;
      var t := RawAt(s.dest, key, room);
      NextUnit(s, s.pend.h.len, 1, if i < room then s.dest[key := Raw(t.buf[i := b[0]])] else s.dest, s.pend.utf8)
  }

  function FloatStep(s: State, b: seq<byte>, key: Path, f: Fix): (o: StepResult)
    requires s.pend.Busy?
    ensures o.Go? ==> 1 <= o.size <= |b|
  {
    var n := FloatWidth(f);
    if |b| < n then Need else NextUnit(s, 1, n, s.dest[key := Scalar(Bits(b[..n]))], s.pend.utf8)
  }

  /** The next unit of a typed read. */
  function ReadStep(s: State, b: seq<byte>, r: Read): (o: StepResult)
    requires s.pend.Busy? && IsState(s.pend.utf8)
    ensures o.Go? ==> 1 <= o.size <= |b|
  {
    var key := Ids(s.path) + [s.pend.h.id];
    match r
    case ReadUnsigned => ScalarStep(s, b, key, UnsignedElem)
    case ReadSigned => ScalarStep(s, b, key, SignedElem)
    case ReadBool => ScalarStep(s, b, key, BoolElem)
    case ReadFloat(f) => FloatStep(s, b, key, f)
    case ReadText(isString, _, room) => TextStep(s, b, key, isString, room)
    case ReadRaw(room) => RawStep(s, b, key, room)
    case ReadArray(e, _, range, _) => ElementStep(s, b, key, e, range, ItemsAt(s.dest, key))
    case ReadSpan(e, extent) => ElementStep(s, b, key, e, Unarmed, SpanAt(s.dest, key, e, extent))
    case ReadMessage(_) => Need
  }

  /** The read the suspended field's handler makes of it. */
  function ReadInHand(c: Config, s: State): Answer
    requires s.pend.Busy?
  {
    AnswerTo(LevelAt(c.root, s.path), s.pend.h)
  }

  function Step(c: Config, s: State, b: seq<byte>): (o: StepResult)
    ensures o.Go? ==> 1 <= o.size <= |b|
  {
    if s.pend.Idle? then BoundaryStep(c, s, b)
    else if s.pend.skip then SkipStep(s, b)
    else
      var a := ReadInHand(c, s);
      if a.Take? && IsState(s.pend.utf8) then ReadStep(s, b, a.read) else Need
  }

  // ---------------------------------------------------------------- what every step keeps

  lemma BoundaryStable(c: Config, s: State, b: seq<byte>, t: seq<byte>)
    ensures !BoundaryStep(c, s, b).Need? ==> BoundaryStep(c, s, b + t) == BoundaryStep(c, s, b)
  {
    if b != [] {
      HeaderStable(if s.path == [] then OPEN_GATE else GateOf(LevelAt(c.root, s.path)), b, t);
    }
  }

  lemma PayloadStable(s: State, b: seq<byte>, t: seq<byte>, r: Read)
    requires s.pend.Busy? && IsState(s.pend.utf8)
    ensures !SkipStep(s, b).Need? ==> SkipStep(s, b + t) == SkipStep(s, b)
    ensures !ReadStep(s, b, r).Need? ==> ReadStep(s, b + t, r) == ReadStep(s, b, r)
  {
    DecodeStable(b, t);
    assert |b| >= 4 ==> (b + t)[..4] == b[..4];
    assert |b| >= 8 ==> (b + t)[..8] == b[..8];
  }

  /** A step's verdict does not depend on what follows its item. */
  lemma StepStable(c: Config, s: State, b: seq<byte>, t: seq<byte>)
    ensures !Step(c, s, b).Need? ==> Step(c, s, b + t) == Step(c, s, b)
  {
    if s.pend.Idle? {
      BoundaryStable(c, s, b, t);
    } else if s.pend.skip {
      DecodeStable(b, t);
    } else {
      var a := ReadInHand(c, s);
      if a.Take? && IsState(s.pend.utf8) { PayloadStable(s, b, t, a.read); }
    }
  }

  lemma BoundaryLocal(c: Config, s: State, b: seq<byte>)
    ensures var o := BoundaryStep(c, s, b); o.Go? ==> BoundaryStep(c, s, b[..o.size]) == o
  {
    if b != [] {
      HeaderLocal(if s.path == [] then OPEN_GATE else GateOf(LevelAt(c.root, s.path)), b);
    }
  }

  lemma PayloadLocal(s: State, b: seq<byte>, r: Read)
    requires s.pend.Busy? && IsState(s.pend.utf8)
    ensures var o := SkipStep(s, b); o.Go? ==> SkipStep(s, b[..o.size]) == o
    ensures var o := ReadStep(s, b, r); o.Go? ==> ReadStep(s, b[..o.size], r) == o
  {
    var v := Decode(b);
    if v.Got? { DecodeLocal(b, v.size); }
    assert |b| >= 4 ==> b[..4][..4] == b[..4];
    assert |b| >= 8 ==> b[..8][..8] == b[..8];
  }

  /** A step looks at its item alone: cut right after it, the bytes give the same step. */
  lemma StepLocal(c: Config, s: State, b: seq<byte>)
    ensures var o := Step(c, s, b); o.Go? ==> Step(c, s, b[..o.size]) == o
  {
    if s.pend.Idle? {
      BoundaryLocal(c, s, b);
    } else if s.pend.skip {
      var v := Decode(b);
      if v.Got? { DecodeLocal(b, v.size); }
    } else {
      var a := ReadInHand(c, s);
      if a.Take? && IsState(s.pend.utf8) { PayloadLocal(s, b, a.read); }
    }
  }

  // ---------------------------------------------------------------- reachable states

  /** A frame that is not skipped was entered by a typed read of its level's handler. */
  predicate FrameOk(l: Level, f: Frame)
  {
    f.skip || (var a := AnswerTo(l, SequenceHeader(f.id)); a.Take? && a.read.ReadMessage?)
  }

  /** An entered wrapper element has its place in its container. */
  predicate FramePlaced(l: Level, f: Frame, d: Dest, here: Path)
  {
    !f.skip && AnswerTo(l, SequenceHeader(f.id)).placed ==> LengthAt(d, here) > f.id
  }

  predicate PathOk(root: Node, path: seq<Frame>, d: Dest)
  {
    path == [] ||
    var (init, f) := (path[..|path| - 1], path[|path| - 1]);
    PathOk(root, init, d) && FrameOk(LevelAt(root, init), f) && FramePlaced(LevelAt(root, init), f, d, Ids(init))
  }

  /** Offering the half-read field again would find nothing left to begin. */
  predicate ReadOk(a: Answer, p: Pend, d: Dest, here: Path)
    requires p.Busy?
  {
    && a.Take? && !a.read.ReadMessage? && p.done < ReadUnits(a.read, p.h)
    && Started(a.read, p.h, d, here + [p.h.id]) == d
    && (a.placed ==> LengthAt(d, here) > p.h.id)
  }

  predicate PendOk(c: Config, s: State)
  {
    s.pend.Busy? ==>
      && IsState(s.pend.utf8)
      && (s.pend.done == 0 ==> s.pend.utf8 == ACCEPT)
      && s.pend.h.wire != SequenceStart && s.pend.h.wire != SequenceEnd
      && if s.pend.skip then s.pend.done < SkipUnits(s.pend.h)
         else ReadOk(ReadInHand(c, s), s.pend, s.dest, Ids(s.path))
  }

  predicate Good(c: Config, s: State)
  {
    |s.path| <= MAX_DEPTH && PathOk(c.root, s.path, s.dest) && PendOk(c, s)
  }

  /** No container on the way to depth `n` gets shorter. */
  ghost predicate KeepsLengths(d: Dest, e: Dest, n: nat)
  {
    forall k: Path :: |k| <= n ==> LengthAt(d, k) <= LengthAt(e, k)
  }

  lemma {:induction false} PathOkKept(root: Node, path: seq<Frame>, d: Dest, e: Dest)
    requires PathOk(root, path, d) && KeepsLengths(d, e, |path|)
    ensures PathOk(root, path, e)
    decreases |path|
  {
    if path != [] { PathOkKept(root, path[..|path| - 1], d, e); }
  }

  lemma PathOkPush(root: Node, path: seq<Frame>, f: Frame, d: Dest)
    requires PathOk(root, path, d) && FrameOk(LevelAt(root, path), f) && FramePlaced(LevelAt(root, path), f, d, Ids(path))
    ensures PathOk(root, path + [f], d)
  {
    assert (path + [f])[..|path|] == path;
  }

  lemma PlaceKeeps(d: Dest, here: Path, id: nat, placed: bool)
    ensures KeepsLengths(d, PlaceIf(placed, d, here, id), |here|)
    ensures placed ==> LengthAt(PlaceIf(placed, d, here, id), here) > id
  {
  }

  lemma LeafKeeps(d: Dest, key: Path, leaf: Leaf, n: nat)
    requires |key| > n
    ensures KeepsLengths(d, d[key := leaf], n)
  {
  }

  lemma StartedKeeps(r: Read, h: Header, d: Dest, key: Path)
    requires |key| > 0
    ensures KeepsLengths(d, Started(r, h, d, key), |key| - 1)
  {
    if r.ReadMessage? {
      assert forall k: Path :: |k| < |key| ==> !Under(key, k);
    }
  }

  /** Beginning a field twice is beginning it once. */
  lemma StartedTwice(r: Read, h: Header, d: Dest, key: Path)
    requires !r.ReadMessage?
    ensures Started(r, h, Started(r, h, d, key), key) == Started(r, h, d, key)
  {
    var e := Started(r, h, d, key);
    if r.ReadArray? {
      assert ItemsAt(e, key) == Resize(ItemsAt(d, key), h.count, DefaultOf(r.elem));
    }
  }

  lemma AnswerShape(l: Level, h: Header)
    ensures var a := AnswerTo(l, h);
            a.Take? ==> TagMatches(a.read, h)
  {
  }

  lemma GoodSkip(c: Config, s: State, h: Header, n: nat, d: Dest)
    requires Good(c, s) && s.pend.Idle? && h.wire != SequenceEnd && KeepsLengths(s.dest, d, |s.path|)
    ensures var o := SkipField(s, h, n, d); o.Go? ==> Good(c, o.next)
  {
    PathOkKept(c.root, s.path, s.dest, d);
    if h.wire == SequenceStart { PathOkPush(c.root, s.path, Frame(h.id, true), d); }
  }

  lemma GoodTake(c: Config, s: State, r: Read, h: Header, n: nat, d: Dest, placed: bool)
    requires Good(c, s) && s.pend.Idle? && h.wire != SequenceEnd && KeepsLengths(s.dest, d, |s.path|)
    requires h.wire == SequenceStart ==> h == SequenceHeader(h.id)
    requires AnswerTo(LevelAt(c.root, s.path), h) == Take(r, placed) && (placed ==> LengthAt(d, Ids(s.path)) > h.id)
    ensures var o := TakeField(s, r, h, n, d); o.Go? ==> Good(c, o.next)
  {
    var key := Ids(s.path) + [h.id];
    var d1 := Started(r, h, d, key);
    AnswerShape(LevelAt(c.root, s.path), h);
    StartedKeeps(r, h, d, key);
    PathOkKept(c.root, s.path, s.dest, d1);
    if r.ReadMessage? {
      PathOkPush(c.root, s.path, Frame(h.id, false), d1);
    } else {
      StartedTwice(r, h, d, key);
    }
  }

  lemma GoodOffer(c: Config, s: State, h: Header, n: nat, notElement: bool)
    requires Good(c, s) && s.pend.Idle? && h.wire != SequenceEnd
    requires h.wire == SequenceStart ==> h == SequenceHeader(h.id)
    ensures var o := OfferField(c, s, h, n, notElement); o.Go? ==> Good(c, o.next)
  {
    var a := AnswerHere(c, s, h, notElement);
    PlaceKeeps(s.dest, Ids(s.path), h.id, a.placed);
    var d := PlaceIf(a.placed, s.dest, Ids(s.path), h.id);
    GoodSkip(c, s, h, n, d);
    if a.Take? { GoodTake(c, s, a.read, h, n, d, a.placed); }
  }

  lemma GoodBoundary(c: Config, s: State, b: seq<byte>)
    requires Good(c, s) && s.pend.Idle?
    ensures var o := BoundaryStep(c, s, b); o.Go? ==> Good(c, o.next)
  {
    if b != [] {
      var l := LevelAt(c.root, s.path);
      match ReadHeader(if s.path == [] then OPEN_GATE else GateOf(l), b)
      case FieldAt(h, n, notElement) =>
        GoodOffer(c, if s.path == [] then s.(span := 0, disc := 0) else s, h, n, notElement);
      case _ =>
    }
  }

  /** Storing a unit leaves a field that needs no beginning. */
  lemma GoodUnit(c: Config, s: State, n: nat, d: Dest, q: nat, units: nat)
    requires Good(c, s) && s.pend.Busy? && IsState(q) && KeepsLengths(s.dest, d, |s.path|)
    requires units == if s.pend.skip then SkipUnits(s.pend.h) else ReadUnits(ReadInHand(c, s).read, s.pend.h)
    requires !s.pend.skip ==>
      var r := ReadInHand(c, s).read; var key := Ids(s.path) + [s.pend.h.id];
      Started(r, s.pend.h, d, key) == d
    ensures Good(c, NextUnit(s, units, n, d, q).next)
  {
    PathOkKept(c.root, s.path, s.dest, d);
  }

  /** What the step of a typed read leaves: its store stays within the field's own leaf and
      the field stays begun. */
  predicate UnitStep(s: State, b: seq<byte>, r: Read, o: StepResult)
    requires s.pend.Busy? && IsState(s.pend.utf8)
  {
    var key := Ids(s.path) + [s.pend.h.id];
    o.Go? ==>
      && (o.next.dest == s.dest || (key in o.next.dest && o.next.dest == s.dest[key := o.next.dest[key]]))
      && Started(r, s.pend.h, o.next.dest, key) == o.next.dest
      && o == NextUnit(s, ReadUnits(r, s.pend.h), o.size, o.next.dest, NextUtf8(s, b, r))
  }

  lemma TextShape(s: State, b: seq<byte>, r: Read)
    requires s.pend.Busy? && IsState(s.pend.utf8) && r.ReadText? && s.pend.done < s.pend.h.len
    ensures UnitStep(s, b, r, ReadStep(s, b, r))
  {
  }

  lemma ItemsShape(s: State, b: seq<byte>, r: Read)
    requires s.pend.Busy? && IsState(s.pend.utf8) && r.ReadArray?
    requires Started(r, s.pend.h, s.dest, Ids(s.path) + [s.pend.h.id]) == s.dest
    ensures UnitStep(s, b, r, ReadStep(s, b, r))
  {
    hide Decode, InRange, IntValue, Toll, DefaultOf;
    var key := Ids(s.path) + [s.pend.h.id];
    var items := ItemsAt(s.dest, key);
    assert key in s.dest && |items| == s.pend.h.count;
    var o := ElementStep(s, b, key, r.elem, r.range, items);
    if o.Go? { assert key in o.next.dest && |ItemsAt(o.next.dest, key)| == s.pend.h.count; }
  }

  lemma OtherShape(s: State, b: seq<byte>, r: Read)
    requires s.pend.Busy? && IsState(s.pend.utf8) && !r.ReadMessage? && !r.ReadText? && !r.ReadArray?
    ensures UnitStep(s, b, r, ReadStep(s, b, r))
  {
    hide Decode, InRange, IntValue, Advance, StepByte;
  }

  lemma UnitShape(s: State, b: seq<byte>, r: Read)
    requires s.pend.Busy? && IsState(s.pend.utf8) && !r.ReadMessage? && s.pend.done < ReadUnits(r, s.pend.h)
    requires Started(r, s.pend.h, s.dest, Ids(s.path) + [s.pend.h.id]) == s.dest
    ensures UnitStep(s, b, r, ReadStep(s, b, r))
  {
    hide UnitStep, ReadStep, Started;
    if r.ReadText? { TextShape(s, b, r); }
    else if r.ReadArray? { ItemsShape(s, b, r); }
    else { OtherShape(s, b, r); }
  }

  function NextUtf8(s: State, b: seq<byte>, r: Read): (q: nat)
    requires s.pend.Busy? && IsState(s.pend.utf8)
    ensures IsState(q)
  {
    if r.ReadText? && r.isString && b != [] then StepByte(s.pend.utf8, b[0]) else s.pend.utf8
  }

  lemma GoodPayload(c: Config, s: State, b: seq<byte>)
    requires Good(c, s) && s.pend.Busy?
    ensures var o := Step(c, s, b); o.Go? ==> Good(c, o.next)
  {
    var o := Step(c, s, b);
    if !o.Go? { return; }
    var key := Ids(s.path) + [s.pend.h.id];
    if s.pend.skip {
      GoodUnit(c, s, o.size, s.dest, s.pend.utf8, SkipUnits(s.pend.h));
    } else {
      var r := ReadInHand(c, s).read;
      var d := o.next.dest;
      UnitShape(s, b, r);
      if d != s.dest { LeafKeeps(s.dest, key, d[key], |s.path|); }
      GoodUnit(c, s, o.size, d, NextUtf8(s, b, r), ReadUnits(r, s.pend.h));
    }
  }

  lemma StepGood(c: Config, s: State, b: seq<byte>)
    requires Good(c, s)
    ensures var o := Step(c, s, b); o.Go? ==> Good(c, o.next)
  {
    if s.pend.Idle? { GoodBoundary(c, s, b); } else { GoodPayload(c, s, b); }
  }

  /** Whatever a reachable state still waits for is shorter than the longest field header. */
  lemma NeedIsShort(c: Config, s: State, b: seq<byte>)
    requires Good(c, s) && Step(c, s, b).Need?
    ensures |b| < 30
  {
    hide Good, LevelAt, AnswerTo, ReadHeader, Decode, OfferField, EndLevel, NextUnit, TextAt, RawAt, StoreItem, ItemsAt, SpanAt, InRange, IntValue, StepByte, Exceeds, SkipUnits;
    assert s.pend.Busy? && !s.pend.skip ==> IsState(s.pend.utf8) && ReadInHand(c, s).Take? && !ReadInHand(c, s).read.ReadMessage? by {
      GoodRead(c, s);
    }
    if Decode(b).Cut? { CutIsShort(b); }
  }

  lemma GoodRead(c: Config, s: State)
    requires Good(c, s)
    ensures s.pend.Busy? && !s.pend.skip ==> IsState(s.pend.utf8) && ReadInHand(c, s).Take? && !ReadInHand(c, s).read.ReadMessage?
  {
  }

  // ---------------------------------------------------------------- runs

  /** Where a run ends: refused, or out of bytes with `rest` of them the start of a cut item. */
  datatype Outcome =
    | Failed(why: Refusal, at: set<Path>, dest: Dest)
    | Stuck(state: State, rest: seq<byte>)

  function Run(c: Config, s: State, b: seq<byte>): (o: Outcome)
    decreases |b|
  {
    match Step(c, s, b)
    case Need => Stuck(s, b)
    case Fail(why, at, d) => Failed(why, at, d)
    case Go(s1, n) => Run(c, s1, b[n..])
  }

  /** Running over the first part and then over what it left plus the rest is running over it all. */
  lemma {:induction false} RunSplit(c: Config, s: State, a: seq<byte>, b: seq<byte>)
    ensures var o := Run(c, s, a);
            Run(c, s, a + b) == if o.Stuck? then Run(c, o.state, o.rest + b) else o
    decreases |a|
  {
    hide Step;
    StepStable(c, s, a, b);
    var r := Step(c, s, a);
    if r.Go? {
      assert (a + b)[r.size..] == a[r.size..] + b;
      RunSplit(c, r.next, a[r.size..], b);
    }
  }

  /** A run that has not been refused stops in a reachable state, holding the start of one item. */
  lemma {:induction false} RunGood(c: Config, s: State, b: seq<byte>)
    requires Good(c, s)
    ensures var o := Run(c, s, b);
            o.Stuck? ==> Good(c, o.state) && Step(c, o.state, o.rest).Need? && |o.rest| <= |b|
                         && o.rest == b[|b| - |o.rest|..] && |o.rest| < 30
    decreases |b|
  {
    hide Step, Good;
    var r := Step(c, s, b);
    if r.Go? {
      StepGood(c, s, b);
      RunGood(c, r.next, b[r.size..]);
    } else if r.Need? {
      NeedIsShort(c, s, b);
    }
  }
}
