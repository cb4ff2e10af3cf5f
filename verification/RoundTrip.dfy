/** What the encoder writes, the decoder reads back: every field of the tree at its place in
    the destination, nothing else, and a sequence without content leaves no trace. */
module RoundTrip {
  import opened Varint
  import opened WireFormat
  import opened Handlers
  import opened Destination
  import opened ZigZag
  import opened Utf8
  import opened Machine
  import opened Progress
  import opened Levels
  import opened Parser
  import opened Tree
  import opened Encoder
  import opened Verdicts

  // ---------------------------------------------------------------- a field's two parts

  function HeaderOf(f: Field): (h: WireFormat.Header)
    ensures h.id == f.id && h.wire != SequenceStart && h.wire != Wire.SequenceEnd
  {
    match f
    case UnsignedField(id, _) => Header(id, Unsigned, Fp32, 0, 0)
    case SignedField(id, _) => Header(id, Signed, Fp32, 0, 0)
    case FloatField(id, wide, raw) => Header(id, Fixlen, FloatFix(wide), |raw|, 0)
    case TextField(id, isString, text) => Header(id, Fixlen, if isString then String else Blob, |text|, 0)
    case UnsignedArray(id, us) => Header(id, ArrayUnsigned, Fp32, 0, |us|)
    case SignedArray(id, ss) => Header(id, ArraySigned, Fp32, 0, |ss|)
    case FloatArray(id, wide, raws) => Header(id, ArrayFixlen, FloatFix(wide), FloatWidth(FloatFix(wide)), |raws|)
  }

  function HeadBytes(f: Field): seq<byte>
  {
    match f
    case UnsignedField(id, _) => HeaderBytes(id, Unsigned)
    case SignedField(id, _) => HeaderBytes(id, Signed)
    case FloatField(id, wide, raw) => HeaderBytes(id, Fixlen) + Encode(FixlenWord(|raw|, FloatFix(wide)))
    case TextField(id, isString, text) => HeaderBytes(id, Fixlen) + Encode(FixlenWord(|text|, if isString then String else Blob))
    case UnsignedArray(id, us) => HeaderBytes(id, ArrayUnsigned) + Encode(|us|)
    case SignedArray(id, ss) => HeaderBytes(id, ArraySigned) + Encode(|ss|)
    case FloatArray(id, wide, raws) =>
      HeaderBytes(id, ArrayFixlen) + Encode(|raws|) + Encode(FixlenWord(FloatWidth(FloatFix(wide)), FloatFix(wide)))
  }

  function BodyBytes(f: Field): seq<byte>
  {
    match f
    case UnsignedField(_, u) => Encode(u)
    case SignedField(_, i) => Encode(ZigZagEncode(i))
    case FloatField(_, _, raw) => raw
    case TextField(_, _, text) => text
    case UnsignedArray(_, us) => Varints(us)
    case SignedArray(_, ss) => Varints(ZigZags(ss))
    case FloatArray(_, _, raws) => Joined(raws)
  }

  lemma TwoParts(f: Field)
    ensures FieldBytes(f) == HeadBytes(f) + BodyBytes(f)
  {
    hide Encode, HeaderBytes, Varints, Joined;
  }

  lemma WordReads(v: u64, rest: seq<byte>)
    ensures Decode(Encode(v) + rest) == Got(v, |Encode(v)|) && (Encode(v) + rest)[|Encode(v)|..] == rest
  {
    DecodeEncode(v, rest);
  }

  lemma TagReads(id: nat, w: Wire, rest: seq<byte>)
    requires id <= ID_MAX
    ensures ParseTag(HeaderBytes(id, w) + rest) == TagIs(id, w, |HeaderBytes(id, w)|)
    ensures (HeaderBytes(id, w) + rest)[|HeaderBytes(id, w)|..] == rest
  {
    var word := HeaderWord(id, w);
    WordReads(word, rest);
    assert word / 8 == id && word % 8 == WireCode(w);
    CodeOfWire(w);
    hide Encode, Decode;
  }

  lemma CodeOfWire(w: Wire)
    ensures WireOf(WireCode(w)) == w
  {
  }

  lemma CodeOfFix(fix: Fix)
    ensures FixOf(FixCode(fix)) == Some(fix)
  {
  }

  lemma FixReads(len: nat, fix: Fix, rest: seq<byte>)
    requires len <= FIXLEN_MAX && (fix == Fp32 ==> len == 4) && (fix == Fp64 ==> len == 8)
    ensures ParseMeta(Fixlen, Encode(FixlenWord(len, fix)) + rest) == MetaIs(fix, len, 0, |Encode(FixlenWord(len, fix))|)
    ensures (Encode(FixlenWord(len, fix)) + rest)[|Encode(FixlenWord(len, fix))|..] == rest
  {
    var word := FixlenWord(len, fix);
    WordReads(word, rest);
    assert word / 8 == len && word % 8 == FixCode(fix);
    CodeOfFix(fix);
    hide Encode, Decode, FixOf, FixCode;
  }

  lemma CountReads(n: nat, rest: seq<byte>)
    requires n <= ARRAY_MAX
    ensures ParseCount(Encode(n) + rest) == MetaIs(Fp32, 0, n, |Encode(n)|)
    ensures (Encode(n) + rest)[|Encode(n)|..] == rest
  {
    WordReads(n, rest);
    hide Encode, Decode;
  }

  lemma ArrayWordsRead(n: nat, fix: Fix, rest: seq<byte>)
    requires n <= ARRAY_MAX && (fix == Fp32 || fix == Fp64)
    ensures var (a, b) := (Encode(n), Encode(FixlenWord(FloatWidth(fix), fix)));
            ParseMeta(ArrayFixlen, a + b + rest) == MetaIs(fix, FloatWidth(fix), n, |a| + |b|)
  {
    var (a, b) := (Encode(n), Encode(FixlenWord(FloatWidth(fix), fix)));
    CountReads(n, b + rest);
    assert a + b + rest == a + (b + rest);
    var word := FixlenWord(FloatWidth(fix), fix);
    WordReads(word, rest);
    assert word / 8 == FloatWidth(fix) && word % 8 == FixCode(fix);
    CodeOfFix(fix);
    hide Encode, Decode, FixOf, FixCode, ParseCount;
  }

  /** The metadata after a field's tag. */
  lemma MetaReads(f: Field, rest: seq<byte>)
    requires WellTyped(f) && Accepts(f)
    ensures var h := HeaderOf(f);
            var n := |HeadBytes(f)| - |HeaderBytes(f.id, h.wire)|;
            n >= 0 && |HeaderBytes(f.id, h.wire)| <= |HeadBytes(f)|
            && ParseMeta(h.wire, HeadBytes(f)[|HeaderBytes(f.id, h.wire)|..] + rest) == MetaIs(h.fix, h.len, h.count, n)
            && HeadBytes(f) == HeaderBytes(f.id, h.wire) + HeadBytes(f)[|HeaderBytes(f.id, h.wire)|..]
  {
    hide Encode, Decode, HeaderBytes, ParseCount, FixlenWord, Utf8.Utf8;
    match f
    case UnsignedField(id, _) =>
    case SignedField(id, _) =>
    case FloatField(id, wide, raw) =>
      var w := Encode(FixlenWord(|raw|, FloatFix(wide)));
      FixReads(|raw|, FloatFix(wide), rest);
      Nonempty(HeaderBytes(id, Fixlen), w);
    case TextField(id, isString, text) =>
      var fix := if isString then String else Blob;
      FixReads(|text|, fix, rest);
      Nonempty(HeaderBytes(id, Fixlen), Encode(FixlenWord(|text|, fix)));
    case UnsignedArray(id, us) =>
      CountReads(|us|, rest);
      Nonempty(HeaderBytes(id, ArrayUnsigned), Encode(|us|));
    case SignedArray(id, ss) =>
      CountReads(|ss|, rest);
      Nonempty(HeaderBytes(id, ArraySigned), Encode(|ss|));
    case FloatArray(id, wide, raws) =>
      var fix := FloatFix(wide);
      ArrayWordsRead(|raws|, fix, rest);
      var (tag, a, b) := (HeaderBytes(id, ArrayFixlen), Encode(|raws|), Encode(FixlenWord(FloatWidth(fix), fix)));
      Assoc3(tag, a, b);
      Nonempty(tag, a + b);
  }

  /** A field's header is read back, under any gate its index is within. */
  lemma HeaderReads(g: Gate, f: Field, rest: seq<byte>)
    requires WellTyped(f) && Accepts(f) && !(g.bound >= 0 && f.id >= g.bound)
    ensures ReadHeader(g, HeadBytes(f) + rest) == FieldAt(HeaderOf(f), |HeadBytes(f)|, false)
  {
    var (h, tag) := (HeaderOf(f), HeaderBytes(f.id, HeaderOf(f).wire));
    MetaReads(f, rest);
    var meta := HeadBytes(f)[|tag|..];
    TagReads(f.id, h.wire, meta + rest);
    Assoc3(tag, meta, rest);
    hide HeadBytes, HeaderBytes, ParseTag, ParseMeta, Accepts, ReadHeader, HeaderOf;
    FromParts(g, HeadBytes(f) + rest, f.id, h.wire, |tag|, h.fix, h.len, h.count, |meta|);
  }

  lemma Assoc3(a: seq<byte>, b: seq<byte>, c: seq<byte>)
    ensures a + b + c == a + (b + c)
  {
  }

  lemma FromParts(g: Gate, s: seq<byte>, id: nat, w: Wire, n: nat, fix: Fix, len: nat, count: nat, k: nat)
    requires ParseTag(s) == TagIs(id, w, n) && w != Wire.SequenceEnd && !(g.bound >= 0 && id >= g.bound)
    requires ParseMeta(w, s[n..]) == MetaIs(fix, len, count, k)
    ensures ReadHeader(g, s) == FieldAt(Header(id, w, fix, len, count), n + k, false)
  {
    hide ParseTag, ParseMeta;
  }

  lemma StartReads(g: Gate, id: nat, rest: seq<byte>)
    requires id <= ID_MAX && !(g.bound >= 0 && id >= g.bound)
    ensures var start := HeaderBytes(id, SequenceStart);
            ReadHeader(g, start + rest) == FieldAt(SequenceHeader(id), |start|, false)
  {
    TagReads(id, SequenceStart, rest);
    hide HeaderBytes, ParseTag;
  }

  lemma EndReads(g: Gate, rest: seq<byte>)
    ensures ReadHeader(g, END_MARK + rest) == LevelEnd(1)
  {
    EndMark();
    TagReads(0, Wire.SequenceEnd, rest);
    hide HeaderBytes, ParseTag;
  }

  /** A level that takes a field has its index within the gate it armed. */
  lemma GateAdmits(l: Level, h: WireFormat.Header)
    requires AnswerTo(l, h).Take?
    ensures !(GateOf(l).bound >= 0 && h.id >= GateOf(l).bound)
  {
  }

  // ---------------------------------------------------------------- payloads

  /** The item was whole: it left the destination at `d` and took `n` bytes. */
  predicate EndsAs(s: State, o: Parse, rest: seq<byte>, d: Dest, n: nat)
  {
    o.Whole? && o.rest == rest && At(o.next, s.path) && o.next.dest == d && o.next.span == s.span + n
  }

  function IntValues(e: Elem, words: seq<u64>): (vs: seq<Value>)
    ensures |vs| == |words|
  {
    seq(|words|, k requires 0 <= k < |words| => IntValue(e, words[k]))
  }

  function FloatValues(raws: seq<seq<byte>>): (vs: seq<Value>)
    ensures |vs| == |raws|
  {
    seq(|raws|, k requires 0 <= k < |raws| => Bits(raws[k]))
  }

  /** Elements from `vs` on, stored from where the field stands. */
  function Filled(s: State, r: Read, vs: seq<Value>): Dest
    requires s.pend.Busy? && (r.ReadArray? || r.ReadSpan?)
  {
    ItemsCopied(s.dest, KeyOf(s), ItemsOf(s.dest, KeyOf(s), r), s.pend.done, vs)
  }

  lemma FilledOn(s: State, r: Read, n: nat, v: Value, vs: seq<Value>)
    requires s.pend.Busy? && (r.ReadArray? || r.ReadSpan?)
    ensures var t := ItemStored(s, n, r, v);
            && (t.pend.Busy? ==> Filled(t, r, vs) == Filled(s, r, [v] + vs))
            && t.dest == Filled(s, r, [v])
  {
    hide ItemsOf, Toll, KeyOf, Splice;
    ItemsAfter(s.dest, KeyOf(s), r, s.pend.done, v, vs);
    SpliceOne(ItemsOf(s.dest, KeyOf(s), r), s.pend.done, v);
    KeyStays(s, n, r, v);
  }

  lemma KeyStays(s: State, n: nat, r: Read, v: Value)
    requires s.pend.Busy? && (r.ReadArray? || r.ReadSpan?)
    ensures var t := ItemStored(s, n, r, v); t.pend.Busy? ==> KeyOf(t) == KeyOf(s)
  {
    hide ItemsOf, StoreItem, Toll;
  }

  /** One more integer element at the head of the bytes. */
  lemma IntegerNext(s: State, r: Read, w: u64, b: seq<byte>)
    requires s.pend.Busy? && (r.ReadArray? || r.ReadSpan?) && !IsFloat(r.elem) && InRange(r.elem, RangeOf(r), w)
    ensures var t := ItemStored(s, |Encode(w)|, r, IntValue(r.elem, w));
            ParseItems(s, r, Encode(w) + b) == if t.pend.Idle? then Whole(t, b) else ParseItems(t, r, b)
  {
    WordReads(w, b);
    hide Encode, Decode, InRange, IntValue, ItemStored;
  }

  lemma IntegersSplit(e: Elem, words: seq<u64>, rest: seq<byte>)
    requires words != []
    ensures var (w, more) := (words[0], words[1..]);
            && Varints(words) + rest == Encode(w) + (Varints(more) + rest) && |Varints(words)| == |Encode(w)| + |Varints(more)|
            && IntValues(e, words) == [IntValue(e, w)] + IntValues(e, more)
            && (more == [] ==> Varints(more) + rest == rest && Varints(more) == [] && IntValues(e, words) == [IntValue(e, w)])
  {
    hide Encode, IntValue;
    Assoc3(Encode(words[0]), Varints(words[1..]), rest);
  }

  lemma StoredShape(s: State, n: nat, r: Read, v: Value)
    requires s.pend.Busy? && (r.ReadArray? || r.ReadSpan?)
    ensures var t := ItemStored(s, n, r, v);
            && t.path == s.path && t.span == s.span + n
            && (if s.pend.done + 1 < s.pend.h.count then t.pend.Busy? && t.pend.h == s.pend.h && t.pend.done == s.pend.done + 1
                else t.pend.Idle?)
  {
    hide ItemsOf, StoreItem, Toll, KeyOf;
  }

  lemma {:induction false} IntegersParse(s: State, r: Read, words: seq<u64>, rest: seq<byte>)
    requires s.pend.Busy? && (r.ReadArray? || r.ReadSpan?) && !IsFloat(r.elem)
    requires 0 < |words| && s.pend.done + |words| == s.pend.h.count
    requires forall k :: 0 <= k < |words| ==> InRange(r.elem, RangeOf(r), words[k])
    ensures EndsAs(s, ParseItems(s, r, Varints(words) + rest), rest, Filled(s, r, IntValues(r.elem, words)), |Varints(words)|)
    decreases |words|
  {
    hide Encode, Decode, InRange, IntValue, ParseItems, Filled, ItemStored, Varints, IntValues, RangeOf;
    var (w, more) := (words[0], words[1..]);
    IntegersSplit(r.elem, words, rest);
    IntegerNext(s, r, w, Varints(more) + rest);
    FilledOn(s, r, |Encode(w)|, IntValue(r.elem, w), IntValues(r.elem, more));
    StoredShape(s, |Encode(w)|, r, IntValue(r.elem, w));
    if more != [] { IntegersParse(ItemStored(s, |Encode(w)|, r, IntValue(r.elem, w)), r, more, rest); }
  }

  lemma FloatNext(s: State, r: Read, raw: seq<byte>, b: seq<byte>)
    requires s.pend.Busy? && (r.ReadArray? || r.ReadSpan?) && IsFloat(r.elem) && |raw| == ElemWidth(r.elem)
    ensures var t := ItemStored(s, |raw|, r, Bits(raw));
            ParseItems(s, r, raw + b) == if t.pend.Idle? then Whole(t, b) else ParseItems(t, r, b)
  {
    assert (raw + b)[..|raw|] == raw && (raw + b)[|raw|..] == b;
    hide ItemStored, Decode, InRange, IntValue;
  }

  lemma {:induction false} FloatsParse(s: State, r: Read, raws: seq<seq<byte>>, rest: seq<byte>)
    requires s.pend.Busy? && (r.ReadArray? || r.ReadSpan?) && IsFloat(r.elem)
    requires 0 < |raws| && s.pend.done + |raws| == s.pend.h.count
    requires forall k :: 0 <= k < |raws| ==> |raws[k]| == ElemWidth(r.elem)
    ensures EndsAs(s, ParseItems(s, r, Joined(raws) + rest), rest, Filled(s, r, FloatValues(raws)), |Joined(raws)|)
    decreases |raws|
  {
    var (raw, more) := (raws[0], raws[1..]);
    FloatNext(s, r, raw, Joined(more) + rest);
    FilledOn(s, r, |raw|, Bits(raw), FloatValues(more));
    assert FloatValues(raws) == [Bits(raw)] + FloatValues(more);
    Assoc3(raw, Joined(more), rest);
    var t := ItemStored(s, |raw|, r, Bits(raw));
    hide ParseItems, Filled, ItemsOf, StoreItem;
    if more == [] {
      assert Joined(more) + rest == rest && FloatValues(raws) == [Bits(raw)];
    } else {
      FloatsParse(t, r, more, rest);
    }
  }

  // ---------------------------------------------------------------- what a read leaves

  /** The values of a field are ones the read admits. */
  predicate Admits(r: Read, f: Field)
  {
    match f
    case UnsignedArray(_, us) => r.ReadArray? || r.ReadSpan? ==> forall k :: 0 <= k < |us| ==> InRange(r.elem, RangeOf(r), us[k])
    case SignedArray(_, ss) => r.ReadArray? || r.ReadSpan? ==> forall k :: 0 <= k < |ss| ==> InRange(r.elem, RangeOf(r), ZigZagEncode(ss[k]))
    case _ => true
  }

  function FieldValues(r: Read, f: Field): seq<Value>
    requires r.ReadArray? || r.ReadSpan?
  {
    match f
    case UnsignedArray(_, us) => IntValues(r.elem, us)
    case SignedArray(_, ss) => IntValues(r.elem, ZigZagWords(ss))
    case FloatArray(_, _, raws) => FloatValues(raws)
    case _ => []
  }

  /** The destination after a typed read has taken a whole field. */
  function Stored(d: Dest, key: Path, r: Read, f: Field): Dest
  {
    match r
    case ReadUnsigned => if f.UnsignedField? then d[key := Scalar(Number(f.u))] else d
    case ReadBool => if f.UnsignedField? then d[key := Scalar(Number(if f.u != 0 then 1 else 0))] else d
    case ReadSigned => if f.SignedField? then d[key := Scalar(Number(f.i))] else d
    case ReadFloat(_) => if f.FloatField? then d[key := Scalar(Bits(f.raw))] else d
    case ReadText(_, _, room) => if f.TextField? then d[key := Text(Splice(TextAt(d, key, room).buf, 0, f.text), |f.text|)] else d
    case ReadRaw(room) => if f.TextField? then RawCopied(d, key, room, 0, f.text) else d
    case ReadArray(e, _, _, _) =>
      var d1 := Started(r, HeaderOf(f), d, key);
      ItemsCopied(d1, key, ItemsOf(d1, key, r), 0, FieldValues(r, f))
    case ReadSpan(e, _) => ItemsCopied(d, key, ItemsOf(d, key, r), 0, FieldValues(r, f))
    case ReadMessage(_) => d
  }

  /** The state a taken field's header leads to. */
  predicate AtPayload(c: Config, s: State, d: Dest, r: Read, f: Field)
  {
    && s.pend == Busy(HeaderOf(f), false, 0, ACCEPT) && ReadInHand(c, s).Take? && ReadInHand(c, s).read == r
    && TagMatches(r, HeaderOf(f)) && s.dest == Started(r, HeaderOf(f), d, KeyOf(s)) && 0 < ReadUnits(r, HeaderOf(f))
  }

  lemma ScalarReads(c: Config, s: State, d: Dest, r: Read, f: Field, rest: seq<byte>)
    requires AtPayload(c, s, d, r, f) && (f.UnsignedField? || f.SignedField?)
    ensures EndsAs(s, ParsePayload(c, s, BodyBytes(f) + rest), rest, Stored(d, KeyOf(s), r, f), |BodyBytes(f)|)
  {
    WordReads(if f.UnsignedField? then f.u else ZigZagEncode(f.i), rest);
    if f.SignedField? { ZigZagInverse(f.i, 0); }
    hide Encode, Decode, AnswerTo, LevelAt, Toll, ZigZagEncode, ZigZagDecode;
  }

  lemma BytesRead(c: Config, s: State, d: Dest, r: Read, f: Field, rest: seq<byte>)
    requires AtPayload(c, s, d, r, f) && (f.FloatField? || f.TextField?) && WellTyped(f) && Accepts(f)
    ensures EndsAs(s, ParsePayload(c, s, BodyBytes(f) + rest), rest, Stored(d, KeyOf(s), r, f), |BodyBytes(f)|)
  {
    var body := BodyBytes(f);
    assert (body + rest)[..|body|] == body && (body + rest)[|body|..] == rest;
    hide Decode, AnswerTo, LevelAt, Toll, Utf8.Utf8, Splice, TextAt, RawCopied;
  }

  lemma ArrayReads(c: Config, s: State, d: Dest, r: Read, f: Field, rest: seq<byte>)
    requires AtPayload(c, s, d, r, f) && (f.UnsignedArray? || f.SignedArray? || f.FloatArray?) && WellTyped(f) && Admits(r, f)
    ensures EndsAs(s, ParsePayload(c, s, BodyBytes(f) + rest), rest, Stored(d, KeyOf(s), r, f), |BodyBytes(f)|)
  {
    match f
    case UnsignedArray(_, us) => IntegersParse(s, r, us, rest);
    case SignedArray(_, ss) => IntegersParse(s, r, ZigZagWords(ss), rest);
    case FloatArray(_, _, raws) => FloatsParse(s, r, raws, rest);
    case _ =>
    hide Decode, AnswerTo, LevelAt, Toll, ParseItems, ItemsOf, ItemsCopied, Varints, Joined, IntValues, FloatValues, InRange;
  }

  // ---------------------------------------------------------------- one field

  /** What the span counter shows after `n` bytes of a field. */
  function SpanAfter(s: State, n: nat): nat
  {
    (if s.path == [] then 0 else s.span) + n
  }

  /** There is room under the cap for `n` more bytes. */
  predicate UnderCap(c: Config, s: State, n: nat)
  {
    SpanAfter(s, n) <= c.cap
  }

  lemma VarintsLong(ws: seq<nat>)
    ensures |Varints(ws)| >= |ws|
  {
    hide Encode;
    if ws != [] { VarintsLong(ws[1..]); }
  }

  lemma JoinedLong(raws: seq<seq<byte>>, w: nat)
    requires forall k :: 0 <= k < |raws| ==> |raws[k]| == w
    ensures |Joined(raws)| == |raws| * w
  {
    if raws != [] { JoinedLong(raws[1..], w); }
  }

  /** What a header announces is no more than what follows it. */
  lemma NeedIsBody(f: Field)
    requires WellTyped(f)
    ensures HeaderNeed(HeaderOf(f)) <= |BodyBytes(f)|
  {
    hide Encode, Varints, Joined;
    match f
    case UnsignedArray(_, us) => VarintsLong(us);
    case SignedArray(_, ss) => VarintsLong(ZigZags(ss));
    case FloatArray(_, wide, raws) => JoinedLong(raws, FloatWidth(FloatFix(wide)));
    case _ =>
  }

  /** A read leaves an empty field where it began it. */
  lemma StoredEmpty(d: Dest, key: Path, r: Read, f: Field)
    requires TagMatches(r, HeaderOf(f)) && ReadUnits(r, HeaderOf(f)) == 0 && !r.ReadMessage?
    ensures Stored(d, key, r, f) == Started(r, HeaderOf(f), d, key) && BodyBytes(f) == []
  {
    if r.ReadText? { assert Splice(TextAt(d, key, r.room).buf, 0, f.text) == TextAt(d, key, r.room).buf; }
    hide Encode, ItemsOf, InRange, IntValue;
  }

  /** A header its level takes, with room under the cap for what it announces. */
  lemma BoundaryTakes(c: Config, s: State, b: seq<byte>, h: WireFormat.Header, n: nat, r: Read, placed: bool)
    requires s.pend.Idle? && b != [] && AnswerTo(LevelAt(c.root, s.path), h) == Take(r, placed)
    requires ReadHeader(if s.path == [] then OPEN_GATE else GateOf(LevelAt(c.root, s.path)), b) == FieldAt(h, n, false)
    requires UnderCap(c, s, n + HeaderNeed(h))
    ensures var s0 := if s.path == [] then s.(span := 0, disc := 0) else s;
            BoundaryStep(c, s, b) == TakeField(s0, r, h, n, PlaceIf(placed, s.dest, Ids(s.path), h.id))
  {
    hide AnswerTo, LevelAt, GateOf, ReadHeader, HeaderNeed, TakeField, SkipField, PlaceIf;
  }

  /** The step at the header of a field that its level takes. */
  lemma HeaderSteps(c: Config, s: State, f: Field, r: Read, placed: bool, rest: seq<byte>)
    requires s.pend.Idle? && WellTyped(f) && Accepts(f) && AnswerTo(LevelAt(c.root, s.path), HeaderOf(f)) == Take(r, placed)
    requires UnderCap(c, s, |FieldBytes(f)|)
    ensures var b := FieldBytes(f) + rest;
            var d := PlaceIf(placed, s.dest, Ids(s.path), f.id);
            var n := |HeadBytes(f)|;
            var s0 := if s.path == [] then s.(span := 0, disc := 0) else s;
            n <= |FieldBytes(f)| && b[n..] == BodyBytes(f) + rest && BoundaryStep(c, s, b) == TakeField(s0, r, HeaderOf(f), n, d)
  {
    var l := LevelAt(c.root, s.path);
    var g := if s.path == [] then OPEN_GATE else GateOf(l);
    GateAdmits(l, HeaderOf(f));
    TwoParts(f);
    HeaderReads(g, f, BodyBytes(f) + rest);
    Assoc3(HeadBytes(f), BodyBytes(f), rest);
    NeedIsBody(f);
    Nonempty(HeadBytes(f), BodyBytes(f) + rest);
    hide HeadBytes, BodyBytes, FieldBytes, AnswerTo, LevelAt, GateOf, ReadHeader, HeaderNeed, TakeField, SkipField, PlaceIf, HeaderOf, BoundaryStep;
    BoundaryTakes(c, s, FieldBytes(f) + rest, HeaderOf(f), |HeadBytes(f)|, r, placed);
  }

  lemma Nonempty(a: seq<byte>, b: seq<byte>)
    ensures |a + b| == |a| + |b| && (a + b)[|a|..] == b && (a != [] ==> a + b != [])
  {
  }

  lemma TakenState(c: Config, s: State, d0: Dest, f: Field, r: Read, n: nat)
    requires s.pend.Idle? && AnswerTo(LevelAt(c.root, s.path), HeaderOf(f)).Take? && AnswerTo(LevelAt(c.root, s.path), HeaderOf(f)).read == r
    ensures var o := TakeField(s, r, HeaderOf(f), n, d0);
            && TagMatches(r, HeaderOf(f)) && !r.ReadMessage?
            && o.Go? && o.size == n && o.next.path == s.path && o.next.span == s.span + n
            && (if ReadUnits(r, HeaderOf(f)) == 0 then
                  o.next.pend.Idle? && o.next.dest == Started(r, HeaderOf(f), d0, Ids(s.path) + [f.id])
                else AtPayload(c, o.next, d0, r, f))
  {
    AnswerShape(LevelAt(c.root, s.path), HeaderOf(f));
    hide AnswerTo, LevelAt, Started, Toll;
  }

  lemma BodyReads(c: Config, s: State, d: Dest, r: Read, f: Field, rest: seq<byte>)
    requires AtPayload(c, s, d, r, f) && WellTyped(f) && Accepts(f) && Admits(r, f)
    ensures EndsAs(s, ParsePayload(c, s, BodyBytes(f) + rest), rest, Stored(d, KeyOf(s), r, f), |BodyBytes(f)|)
  {
    hide AtPayload, BodyBytes, ParsePayload, Stored, EndsAs, Accepts, Admits;
    if f.UnsignedField? || f.SignedField? { ScalarReads(c, s, d, r, f, rest); }
    else if f.FloatField? || f.TextField? { BytesRead(c, s, d, r, f, rest); }
    else { ArrayReads(c, s, d, r, f, rest); }
  }

  /** The item was whole: it left the destination at `d`, and the span counter `n` bytes on. */
  predicate ReadsAs(s: State, o: Parse, rest: seq<byte>, path: seq<Frame>, d: Dest, span: nat)
  {
    o.Whole? && o.rest == rest && At(o.next, path) && o.next.dest == d && o.next.span == span
  }

  /** A field that its level takes is read back. */
  lemma FieldReads(c: Config, s: State, f: Field, r: Read, placed: bool, rest: seq<byte>)
    requires s.pend.Idle? && WellTyped(f) && Accepts(f) && AnswerTo(LevelAt(c.root, s.path), HeaderOf(f)) == Take(r, placed)
    requires UnderCap(c, s, |FieldBytes(f)|) && Admits(r, f)
    ensures var d := PlaceIf(placed, s.dest, Ids(s.path), f.id);
            var b := FieldBytes(f) + rest;
            && ReadsAs(s, ParseField(c, s, b), rest, s.path, Stored(d, Ids(s.path) + [f.id], r, f), SpanAfter(s, |FieldBytes(f)|))
            && !EndsHere(c, s, b)
  {
    hide HeadBytes, BodyBytes, FieldBytes, AnswerTo, LevelAt, TakeField, PlaceIf, HeaderOf, BoundaryStep, ParsePayload, Stored, Started,
         ParseField, EndsHere, AtPayload, Accepts, Admits, Ids, WellTyped;
    HeaderSteps(c, s, f, r, placed, rest);
    var (b, n) := (FieldBytes(f) + rest, |HeadBytes(f)|);
    var d := PlaceIf(placed, s.dest, Ids(s.path), f.id);
    var s0 := if s.path == [] then s.(span := 0, disc := 0) else s;
    TakenState(c, s0, d, f, r, n);
    TwoParts(f);
    FieldPays(c, s, b);
    var t := TakeField(s0, r, HeaderOf(f), n, d).next;
    if ReadUnits(r, HeaderOf(f)) > 0 {
      PayloadKey(c, t, d, r, f);
      BodyReads(c, t, d, r, f, rest);
    } else {
      StoredEmpty(d, Ids(s.path) + [f.id], r, f);
      assert [] + rest == rest;
    }
  }

  lemma PayloadKey(c: Config, t: State, d: Dest, r: Read, f: Field)
    requires AtPayload(c, t, d, r, f)
    ensures t.pend.Busy? && KeyOf(t) == Ids(t.path) + [f.id]
  {
  }

  /** The field is its header and its payload. */
  lemma FieldPays(c: Config, s: State, b: seq<byte>)
    requires BoundaryStep(c, s, b).Go? && BoundaryStep(c, s, b).next.path == s.path
    ensures var o := BoundaryStep(c, s, b);
            ParseField(c, s, b) == if o.next.pend.Busy? then ParsePayload(c, o.next, b[o.size..]) else Whole(o.next, b[o.size..])
    ensures !EndsHere(c, s, b)
  {
    hide BoundaryStep, ParsePayload;
  }

  // ---------------------------------------------------------------- trees

  /** A level takes every item of a tree that emits bytes: with a typed read that admits it, or as
      a sequence whose handler takes what is in it. */
  ghost predicate TakesItem(l: Level, d: nat, i: Item)
    decreases i
  {
    match i
    case Leaf(f) =>
      WellTyped(f) && Accepts(f) && AnswerTo(l, HeaderOf(f)).Take? && Admits(AnswerTo(l, HeaderOf(f)).read, f)
    case Sub(id, items, _) =>
      ItemBytes(i) != [] ==>
        && id <= ID_MAX && d < MAX_DEPTH
        && var a := AnswerTo(l, SequenceHeader(id));
           a.Take? && a.read.ReadMessage? && TakesTree(Live(a.read.node), d + 1, items)
  }

  ghost predicate TakesTree(l: Level, d: nat, items: seq<Item>)
    decreases items
  {
    items == [] || (TakesItem(l, d, items[0]) && TakesTree(l, d, items[1..]))
  }

  /** The destination a tree stands for: each value where its ids lead, an element's place in its
      container, and nothing for a sequence that emits no bytes. */
  function StoredItem(d: Dest, here: Path, l: Level, i: Item): Dest
    decreases i
  {
    match i
    case Leaf(f) =>
      (match AnswerTo(l, HeaderOf(f))
       case Take(r, placed) => Stored(PlaceIf(placed, d, here, f.id), here + [f.id], r, f)
       case _ => d)
    case Sub(id, items, _) =>
      if ItemBytes(i) == [] then d
      else
        match AnswerTo(l, SequenceHeader(id))
        case Take(ReadMessage(node), placed) =>
          StoredTree(Prepare(node, PlaceIf(placed, d, here, id), here + [id]), here + [id], Live(node), items)
        case _ => d
  }

  function StoredTree(d: Dest, here: Path, l: Level, items: seq<Item>): Dest
    decreases items
  {
    if items == [] then d else StoredTree(StoredItem(d, here, l, items[0]), here, l, items[1..])
  }

  /** A sequence's header, taken by its level, enters it. */
  lemma StartSteps(c: Config, s: State, id: nat, node: Node, placed: bool, rest: seq<byte>)
    requires s.pend.Idle? && id <= ID_MAX && |s.path| < MAX_DEPTH
    requires AnswerTo(LevelAt(c.root, s.path), SequenceHeader(id)) == Take(ReadMessage(node), placed)
    requires UnderCap(c, s, |HeaderBytes(id, SequenceStart)|)
    ensures var start := HeaderBytes(id, SequenceStart);
            var o := BoundaryStep(c, s, start + rest);
            && o.Go? && o.size == |start| && (start + rest)[|start|..] == rest && |start| > 0
            && o.next.pend.Idle? && o.next.path == s.path + [Frame(id, false)] && o.next.span == SpanAfter(s, |start|)
            && o.next.dest == Prepare(node, PlaceIf(placed, s.dest, Ids(s.path), id), Ids(s.path) + [id])
            && LevelAt(c.root, o.next.path) == Live(node) && Ids(o.next.path) == Ids(s.path) + [id]
  {
    var l := LevelAt(c.root, s.path);
    var start := HeaderBytes(id, SequenceStart);
    GateAdmits(l, SequenceHeader(id));
    StartReads(if s.path == [] then OPEN_GATE else GateOf(l), id, rest);
    Nonempty(start, rest);
    LevelBelow(c.root, s.path, Frame(id, false));
    assert Ids(s.path + [Frame(id, false)]) == Ids(s.path) + [id];
    assert HeaderNeed(SequenceHeader(id)) == 0;
    StartNonempty(id);
    hide HeaderBytes, AnswerTo, LevelAt, GateOf, ReadHeader, HeaderNeed, PlaceIf, Prepare, Ids, Toll, SkipField, BoundaryStep, TakeField;
    BoundaryTakes(c, s, start + rest, SequenceHeader(id), |start|, ReadMessage(node), placed);
    SequenceTaken(if s.path == [] then s.(span := 0, disc := 0) else s, id, node, |start|, PlaceIf(placed, s.dest, Ids(s.path), id));
  }

  lemma SequenceTaken(s: State, id: nat, node: Node, n: nat, d: Dest)
    requires s.pend.Idle? && |s.path| < MAX_DEPTH
    ensures var o := TakeField(s, ReadMessage(node), SequenceHeader(id), n, d);
            && o.Go? && o.size == n && o.next.pend.Idle? && o.next.path == s.path + [Frame(id, false)]
            && o.next.span == s.span + n && o.next.dest == Prepare(node, d, Ids(s.path) + [id])
  {
    hide Prepare, Toll, Ids;
  }

  lemma StartNonempty(id: nat)
    ensures HeaderBytes(id, SequenceStart) != []
  {
  }

  lemma EndSteps(c: Config, s: State, rest: seq<byte>)
    requires s.pend.Idle? && s.path != [] && s.span <= c.cap
    ensures var b := END_MARK + rest;
            EndsHere(c, s, b) && ReadsAs(s, ParseLevel(c, s, b), rest, s.path[..|s.path| - 1], s.dest, s.span + 1)
  {
    EndReads(GateOf(LevelAt(c.root, s.path)), rest);
    Nonempty(END_MARK, rest);
    hide LevelAt, GateOf, ReadHeader, Toll, OfferField, ParseField;
  }

  /** One item that emits bytes is one field to the parser. */
  lemma {:induction false} ItemReads(c: Config, s: State, l: Level, i: Item, rest: seq<byte>)
    requires s.pend.Idle? && l == LevelAt(c.root, s.path) && TakesItem(l, |s.path|, i) && ItemBytes(i) != []
    requires UnderCap(c, s, |ItemBytes(i)|)
    ensures var b := ItemBytes(i) + rest;
            && ReadsAs(s, ParseField(c, s, b), rest, s.path, StoredItem(s.dest, Ids(s.path), l, i), SpanAfter(s, |ItemBytes(i)|))
            && !EndsHere(c, s, b)
    decreases i, 0
  {
    match i
    case Leaf(f) =>
      var a := AnswerTo(l, HeaderOf(f));
      hide Stored, FieldBytes, ParseField, EndsHere, Accepts, Admits, PlaceIf, AnswerTo, LevelAt;
      FieldReads(c, s, f, a.read, a.placed, rest);
    case Sub(id, items, keep) => SubReads(c, s, l, id, items, keep, rest);
  }

  lemma {:induction false} SubReads(c: Config, s: State, l: Level, id: nat, items: seq<Item>, keep: bool, rest: seq<byte>)
    requires s.pend.Idle? && l == LevelAt(c.root, s.path)
    requires TakesItem(l, |s.path|, Sub(id, items, keep)) && ItemBytes(Sub(id, items, keep)) != []
    requires UnderCap(c, s, |ItemBytes(Sub(id, items, keep))|)
    ensures var i := Sub(id, items, keep);
            var b := ItemBytes(i) + rest;
            && ReadsAs(s, ParseField(c, s, b), rest, s.path, StoredItem(s.dest, Ids(s.path), l, i), SpanAfter(s, |ItemBytes(i)|))
            && !EndsHere(c, s, b)
    decreases items, 2
  {
    hide HeaderBytes, TreeBytes, ItemBytes, BoundaryStep, Prepare, PlaceIf, AnswerTo, LevelAt, Ids, ParseLevel, ParseField,
         EndsHere, TakesItem, TakesTree, StoredItem, StoredTree;
    var (start, body) := (HeaderBytes(id, SequenceStart), TreeBytes(items));
    var i := Sub(id, items, keep);
    var a := AnswerTo(l, SequenceHeader(id));
    SubBytes(id, items, keep);
    FramedRest(start, body, END_MARK, rest);
    TakesSub(l, |s.path|, id, items, keep);
    StoredSub(s.dest, Ids(s.path), l, id, items, keep);
    StartSteps(c, s, id, a.read.node, a.placed, body + (END_MARK + rest));
    var t := BoundaryStep(c, s, ItemBytes(i) + rest).next;
    FieldEnters(c, s, ItemBytes(i) + rest);
    LevelReads(c, t, Live(a.read.node), items, rest);
    assert t.path[..|t.path| - 1] == s.path;
  }

  lemma TakesSub(l: Level, d: nat, id: nat, items: seq<Item>, keep: bool)
    requires TakesItem(l, d, Sub(id, items, keep)) && ItemBytes(Sub(id, items, keep)) != []
    ensures id <= ID_MAX && d < MAX_DEPTH && AnswerTo(l, SequenceHeader(id)).Take? && AnswerTo(l, SequenceHeader(id)).read.ReadMessage?
    ensures TakesTree(Live(AnswerTo(l, SequenceHeader(id)).read.node), d + 1, items)
  {
    hide AnswerTo, ItemBytes;
  }

  lemma StoredSub(d: Dest, here: Path, l: Level, id: nat, items: seq<Item>, keep: bool)
    requires ItemBytes(Sub(id, items, keep)) != []
    requires AnswerTo(l, SequenceHeader(id)).Take? && AnswerTo(l, SequenceHeader(id)).read.ReadMessage?
    ensures var a := AnswerTo(l, SequenceHeader(id));
            StoredItem(d, here, l, Sub(id, items, keep))
            == StoredTree(Prepare(a.read.node, PlaceIf(a.placed, d, here, id), here + [id]), here + [id], Live(a.read.node), items)
  {
    hide AnswerTo, ItemBytes, Prepare, PlaceIf;
  }

  /** The field is the sequence its header enters. */
  lemma FieldEnters(c: Config, s: State, b: seq<byte>)
    requires BoundaryStep(c, s, b).Go? && |BoundaryStep(c, s, b).next.path| == |s.path| + 1
    ensures var o := BoundaryStep(c, s, b);
            ParseField(c, s, b) == ParseLevel(c, o.next, b[o.size..]) && !EndsHere(c, s, b)
  {
    hide BoundaryStep, ParseLevel;
  }

  lemma SubBytes(id: nat, items: seq<Item>, keep: bool)
    requires ItemBytes(Sub(id, items, keep)) != []
    ensures ItemBytes(Sub(id, items, keep)) == HeaderBytes(id, SequenceStart) + TreeBytes(items) + END_MARK
  {
  }

  lemma FramedRest(a: seq<byte>, b: seq<byte>, c: seq<byte>, rest: seq<byte>)
    ensures a + b + c + rest == a + (b + (c + rest)) && |a + b + c| == |a| + |b| + |c|
  {
  }

  /** The items of a sequence, up to its end marker. */
  lemma {:induction false} LevelReads(c: Config, s: State, l: Level, items: seq<Item>, rest: seq<byte>)
    requires s.pend.Idle? && s.path != [] && l == LevelAt(c.root, s.path) && TakesTree(l, |s.path|, items)
    requires s.span + |TreeBytes(items)| + 1 <= c.cap
    ensures ReadsAs(s, ParseLevel(c, s, TreeBytes(items) + (END_MARK + rest)), rest, s.path[..|s.path| - 1],
                    StoredTree(s.dest, Ids(s.path), l, items), s.span + |TreeBytes(items)| + 1)
    decreases items, 1
  {
    hide LevelAt, Ids, ItemBytes, BoundaryStep, ParseField, EndsHere, StoredItem, TakesItem, ParseLevel;
    if items == [] {
      assert [] + (END_MARK + rest) == END_MARK + rest;
      EndSteps(c, s, rest);
    } else {
      var (i, more) := (items[0], items[1..]);
      Assoc3(ItemBytes(i), TreeBytes(more), END_MARK + rest);
      Nonempty(ItemBytes(i), TreeBytes(more));
      if ItemBytes(i) == [] {
        NothingStored(s.dest, Ids(s.path), l, i);
        assert [] + TreeBytes(more) == TreeBytes(more);
        LevelReads(c, s, l, more, rest);
      } else {
        ItemReads(c, s, l, i, TreeBytes(more) + (END_MARK + rest));
        var t := ParseField(c, s, ItemBytes(i) + (TreeBytes(more) + (END_MARK + rest))).next;
        LevelReads(c, t, l, more, rest);
        LevelOn(c, s, i, more, rest);
      }
    }
  }

  lemma LevelOn(c: Config, s: State, i: Item, more: seq<Item>, rest: seq<byte>)
    requires var b := ItemBytes(i) + (TreeBytes(more) + (END_MARK + rest));
             !EndsHere(c, s, b) && ParseField(c, s, b).Whole? && ParseField(c, s, b).rest == TreeBytes(more) + (END_MARK + rest)
    ensures var b := ItemBytes(i) + (TreeBytes(more) + (END_MARK + rest));
            ParseLevel(c, s, b) == ParseLevel(c, ParseField(c, s, b).next, TreeBytes(more) + (END_MARK + rest))
  {
    hide ParseField, EndsHere, ItemBytes, TreeBytes;
  }

  lemma NothingStored(d: Dest, here: Path, l: Level, i: Item)
    requires ItemBytes(i) == []
    ensures StoredItem(d, here, l, i) == d
  {
    hide FieldBytes;
  }

  /** Each top-level item is within the receiver's budget for one. */
  predicate WithinCap(items: seq<Item>, cap: nat)
  {
    forall k :: 0 <= k < |items| ==> |ItemBytes(items[k])| <= cap
  }

  /** The fields of a message. */
  lemma {:induction false} MessageReads(c: Config, s: State, items: seq<Item>)
    requires At(s, []) && TakesTree(Live(c.root), 0, items) && WithinCap(items, c.cap)
    ensures ParseMessage(c, s, TreeBytes(items)) == Accepted(StoredTree(s.dest, [], Live(c.root), items))
    decreases items
  {
    hide ItemBytes, BoundaryStep, EndsHere;
    if items != [] {
      var (i, more) := (items[0], items[1..]);
      assert WithinCap(more, c.cap) by { assert forall k :: 0 <= k < |more| ==> more[k] == items[k + 1]; }
      Nonempty(ItemBytes(i), TreeBytes(more));
      if ItemBytes(i) == [] {
        NothingStored(s.dest, [], Live(c.root), i);
        assert [] + TreeBytes(more) == TreeBytes(more);
        MessageReads(c, s, more);
      } else {
        assert Ids(s.path) == [];
        ItemReads(c, s, Live(c.root), i, TreeBytes(more));
        MessageReads(c, ParseField(c, s, TreeBytes(items)).next, more);
      }
    }
  }

  /** The end-to-end law: a message the encoder writes, fed to a decoder whose schema takes what is
      in it, is complete and leaves exactly the values of its tree. */
  lemma RoundTrips(c: Config, items: seq<Item>)
    requires TakesTree(Live(c.root), 0, items) && WithinCap(items, c.cap)
    ensures var o := Run(c, START, TreeBytes(items));
            Verdict(o) == Complete && Agrees(StoredTree(map[], [], Live(c.root), items), o)
  {
    hide Run, ParseMessage, StoredTree, TreeBytes, TakesTree;
    MessageReads(c, START, items);
    OneShot(c, TreeBytes(items));
  }

  // ---------------------------------------------------------------- every accepted tree has a schema

  /** What the encoder takes, from depth `d`. */
  ghost predicate EncoderTakes(items: seq<Item>, d: nat)
    decreases items
  {
    items == [] ||
    (&& EncoderTakes(items[1..], d)
     && match items[0]
        case Leaf(f) => WellTyped(f) && Accepts(f)
        case Sub(id, inner, _) => id <= ID_MAX && d < MAX_DEPTH && EncoderTakes(inner, d + 1))
  }

  /** The same kind of field: one schema member can be both. */
  predicate SameKind(i: Item, j: Item)
  {
    match i
    case Sub(_, _, _) => j.Sub?
    case Leaf(f) => j.Leaf? && LeafRead(f) == LeafRead(j.field)
  }

  /** The items of all the sequences with one id. */
  function InnerOf(items: seq<Item>, id: nat): seq<Item>
  {
    if items == [] then []
    else (if items[0].Sub? && items[0].id == id then items[0].items else []) + InnerOf(items[1..], id)
  }

  function Weight(items: seq<Item>): nat
    decreases items
  {
    if items == [] then 0
    else (match items[0] case Leaf(_) => 1 case Sub(_, inner, _) => 1 + Weight(inner)) + Weight(items[1..])
  }

  lemma {:induction false} WeightAdds(a: seq<Item>, b: seq<Item>)
    ensures Weight(a + b) == Weight(a) + Weight(b)
    decreases |a|
  {
    if a == [] {
      assert a + b == b;
    } else {
      assert (a + b)[1..] == a[1..] + b;
      WeightAdds(a[1..], b);
    }
  }

  lemma {:induction false} InnerLess(items: seq<Item>, id: nat)
    ensures Weight(InnerOf(items, id)) <= Weight(items)
    ensures (exists i <- items :: i.Sub? && i.id == id) ==> Weight(InnerOf(items, id)) < Weight(items)
    decreases |items|
  {
    if items != [] {
      InnerLess(items[1..], id);
      WeightAdds(if items[0].Sub? && items[0].id == id then items[0].items else [], InnerOf(items[1..], id));
      forall i | i in items && i.Sub? && i.id == id ensures i == items[0] || i in items[1..] {}
    }
  }

  /** One id, one kind, in every sequence and across the sequences of one id. */
  ghost predicate Uniform(items: seq<Item>)
    decreases Weight(items)
  {
    && (forall i <- items, j <- items :: IdOf(i) == IdOf(j) ==> SameKind(i, j))
    && (forall i <- items :: i.Sub? ==> (InnerLess(items, i.id); Uniform(InnerOf(items, i.id))))
  }

  /** A read for a field's kind, with room for the most the format can announce. */
  function LeafRead(f: Field): Read
  {
    match f
    case UnsignedField(_, _) => ReadUnsigned
    case SignedField(_, _) => ReadSigned
    case FloatField(_, wide, _) => ReadFloat(FloatFix(wide))
    case TextField(_, isString, _) => ReadText(isString, Declared(FIXLEN_MAX), FIXLEN_MAX)
    case UnsignedArray(_, _) => ReadArray(UnsignedElem, Declared(ARRAY_MAX), Unarmed, ARRAY_MAX)
    case SignedArray(_, _) => ReadArray(SignedElem, Declared(ARRAY_MAX), Unarmed, ARRAY_MAX)
    case FloatArray(_, wide, _) => ReadArray(if wide then Fp64Elem else Fp32Elem, Declared(ARRAY_MAX), Unarmed, ARRAY_MAX)
  }

  function IdSet(items: seq<Item>): set<nat>
  {
    set i <- items :: IdOf(i)
  }

  function FirstOf(items: seq<Item>, id: nat): (i: Item)
    requires id in IdSet(items)
    ensures i in items && IdOf(i) == id
  {
    if IdOf(items[0]) == id then items[0] else FirstOf(items[1..], id)
  }

  function ReadFor(items: seq<Item>, id: nat): Read
    requires id in IdSet(items)
    decreases Weight(items), 0
  {
    match FirstOf(items, id)
    case Leaf(f) => LeafRead(f)
    case Sub(_, _, _) => InnerLess(items, id); ReadMessage(Struct(FieldsOf(InnerOf(items, id))))
  }

  /** The schema a tree's own fields make. */
  function FieldsOf(items: seq<Item>): map<nat, Read>
    decreases Weight(items), 1
  {
    map id <- IdSet(items) :: ReadFor(items, id)
  }

  lemma MemberOf(items: seq<Item>, i: Item)
    requires Uniform(items) && i in items
    ensures IdOf(i) in FieldsOf(items)
    ensures i.Leaf? ==> FieldsOf(items)[IdOf(i)] == LeafRead(i.field)
    ensures i.Sub? ==> FieldsOf(items)[IdOf(i)] == ReadMessage(Struct(FieldsOf(InnerOf(items, i.id))))
  {
    hide LeafRead;
    assert IdOf(i) in IdSet(items);
    assert SameKind(FirstOf(items, IdOf(i)), i);
  }

  lemma {:induction false} InnerHolds(items: seq<Item>, i: Item)
    requires i in items && i.Sub?
    ensures forall x <- i.items :: x in InnerOf(items, i.id)
    decreases |items|
  {
    if i != items[0] { InnerHolds(items[1..], i); }
  }

  lemma LeafTaken(fields: map<nat, Read>, f: Field)
    requires WellTyped(f) && Accepts(f) && f.id in fields && fields[f.id] == LeafRead(f)
    ensures var a := AnswerTo(Live(Struct(fields)), HeaderOf(f)); a == Take(LeafRead(f), false) && Admits(a.read, f)
  {
    hide Utf8.Utf8;
  }

  /** The schema of a whole tree takes every part of it. */
  lemma {:induction false} SchemaTakes(all: seq<Item>, d: nat, items: seq<Item>)
    requires Uniform(all) && EncoderTakes(items, d) && forall i <- items :: i in all
    ensures TakesTree(Live(Struct(FieldsOf(all))), d, items)
    decreases items
  {
    hide FieldsOf, Accepts, Admits, ItemBytes, Uniform, InnerOf, LeafRead;
    if items != [] {
      var (i, l) := (items[0], Live(Struct(FieldsOf(all))));
      SchemaTakes(all, d, items[1..]);
      MemberOf(all, i);
      match i
      case Leaf(f) => LeafTaken(FieldsOf(all), f);
      case Sub(id, inner, _) =>
        InnerHolds(all, i);
        UniformInner(all, i);
        SchemaTakes(InnerOf(all, id), d + 1, inner);
        assert AnswerTo(l, SequenceHeader(id)) == Take(ReadMessage(Struct(FieldsOf(InnerOf(all, id)))), false);
    }
  }

  lemma UniformInner(items: seq<Item>, i: Item)
    requires Uniform(items) && i in items && i.Sub?
    ensures Uniform(InnerOf(items, i.id))
  {
    hide InnerOf, SameKind;
  }

  /** Every tree the encoder accepts, one kind to an id, is read back whole under the schema of its own
      fields: at any depth up to the limit, for every kind of field, every value and every repetition. */
  lemma AcceptedTreesReturn(items: seq<Item>, cap: nat)
    requires EncoderTakes(items, 0) && Uniform(items) && WithinCap(items, cap)
    ensures var c := Config(Struct(FieldsOf(items)), cap);
            var o := Run(c, START, TreeBytes(items));
            Verdict(o) == Complete && Agrees(StoredTree(map[], [], Live(c.root), items), o)
  {
    hide Run, StoredTree, TreeBytes, FieldsOf, Uniform, Agrees, Verdict, WithinCap;
    SchemaTakes(items, 0, items);
    RoundTrips(Config(Struct(FieldsOf(items)), cap), items);
  }

  /** Two kinds under one id are beyond any schema: a struct that takes one of them declines the other. */
  lemma OneKindPerId(fields: map<nat, Read>, d: nat, i: Item, j: Item)
    requires TakesItem(Live(Struct(fields)), d, i) && TakesItem(Live(Struct(fields)), d, j)
    requires ItemBytes(i) != [] && ItemBytes(j) != [] && IdOf(i) == IdOf(j)
    ensures SameKind(i, j)
  {
    hide ItemBytes, Accepts, Admits, TakesTree;
  }

  // ---------------------------------------------------------------- the tree that comes back

  /** The tree without the sequences that emit nothing. */
  function Pruned(items: seq<Item>): seq<Item>
    decreases items
  {
    if items == [] then []
    else
      var rest := Pruned(items[1..]);
      if ItemBytes(items[0]) == [] then rest
      else
        match items[0]
        case Leaf(_) => [items[0]] + rest
        case Sub(id, inner, keep) => [Sub(id, Pruned(inner), keep)] + rest
  }

  /** It is written as the same bytes, and stands for the same values. */
  lemma {:induction false} PrunedSame(items: seq<Item>, d: Dest, here: Path, l: Level)
    ensures TreeBytes(Pruned(items)) == TreeBytes(items)
    ensures StoredTree(d, here, l, Pruned(items)) == StoredTree(d, here, l, items)
    decreases items
  {
    hide FieldBytes, HeaderBytes, AnswerTo, Stored, PlaceIf, Prepare;
    if items != [] {
      var (i, more) := (items[0], items[1..]);
      var d1 := StoredItem(d, here, l, i);
      PrunedSame(more, d1, here, l);
      if ItemBytes(i) == [] {
        assert [] + TreeBytes(more) == TreeBytes(more);
      } else if i.Sub? {
        var j := Sub(i.id, Pruned(i.items), i.keep);
        PrunedSub(i, d, here, l);
        assert Pruned(items) == [j] + Pruned(more);
      } else {
        assert Pruned(items) == [i] + Pruned(more);
      }
    }
  }

  lemma {:induction false} PrunedSub(i: Item, d: Dest, here: Path, l: Level)
    requires i.Sub?
    ensures var j := Sub(i.id, Pruned(i.items), i.keep); ItemBytes(j) == ItemBytes(i) && StoredItem(d, here, l, j) == StoredItem(d, here, l, i)
    decreases i
  {
    hide FieldBytes, HeaderBytes, AnswerTo, Stored, PlaceIf, Prepare;
    PrunedSame(i.items, d, here, l);
    var a := AnswerTo(l, SequenceHeader(i.id));
    if a.Take? && a.read.ReadMessage? {
      PrunedSame(i.items, Prepare(a.read.node, PlaceIf(a.placed, d, here, i.id), here + [i.id]), here + [i.id], Live(a.read.node));
    }
  }

  // ---------------------------------------------------------------- each value at its place

  /** Below `key` and at it something may have changed, and the length at `here`. */
  predicate SameBut(d: Dest, e: Dest, here: Path, key: Path, k: Path)
  {
    !(key <= k) && k != here ==> (k in d <==> k in e) && (k in d ==> d[k] == e[k])
  }

  lemma StoredStays(d: Dest, key: Path, r: Read, f: Field, k: Path)
    requires k != key
    ensures var e := Stored(d, key, r, f); (k in d <==> k in e) && (k in d ==> d[k] == e[k])
  {
    hide ItemsOf, FieldValues, TextAt, RawAt, Splice, Resize;
  }

  lemma PlacedStays(placed: bool, d: Dest, here: Path, id: nat, k: Path)
    requires k != here
    ensures var e := PlaceIf(placed, d, here, id); (k in d <==> k in e) && (k in d ==> d[k] == e[k])
  {
  }

  lemma PreparedStays(node: Node, d: Dest, key: Path, k: Path)
    requires !(key <= k)
    ensures var e := Prepare(node, d, key); (k in d <==> k in e) && (k in d ==> d[k] == e[k])
  {
  }

  /** An item touches nothing beside its own key but its container's length. */
  lemma {:induction false} ItemStays(d: Dest, here: Path, l: Level, i: Item, k: Path)
    ensures SameBut(d, StoredItem(d, here, l, i), here, here + [if i.Leaf? then i.field.id else i.id], k)
    decreases i, 0
  {
    hide ItemBytes, AnswerTo, Stored, PlaceIf, Prepare, HeaderOf;
    var id := if i.Leaf? then i.field.id else i.id;
    var key := here + [id];
    if !(key <= k) && k != here {
      match i
      case Leaf(f) =>
        var a := AnswerTo(l, HeaderOf(f));
        if a.Take? {
          PlacedStays(a.placed, d, here, id, k);
          StoredStays(PlaceIf(a.placed, d, here, id), key, a.read, f, k);
        }
      case Sub(_, items, _) =>
        var a := AnswerTo(l, SequenceHeader(id));
        if ItemBytes(i) != [] && a.Take? && a.read.ReadMessage? {
          PlacedStays(a.placed, d, here, id, k);
          PreparedStays(a.read.node, PlaceIf(a.placed, d, here, id), key, k);
          TreeStaysBelow(Prepare(a.read.node, PlaceIf(a.placed, d, here, id), key), key, Live(a.read.node), items, k);
        }
    }
  }

  lemma {:induction false} TreeStaysBelow(d: Dest, here: Path, l: Level, items: seq<Item>, k: Path)
    requires !(here <= k)
    ensures var e := StoredTree(d, here, l, items); (k in d <==> k in e) && (k in d ==> d[k] == e[k])
    decreases items, 1
  {
    hide StoredItem;
    if items != [] {
      var key := here + [if items[0].Leaf? then items[0].field.id else items[0].id];
      ItemStays(d, here, l, items[0], k);
      TreeStaysBelow(StoredItem(d, here, l, items[0]), here, l, items[1..], k);
    }
  }

  function IdOf(i: Item): nat
  {
    if i.Leaf? then i.field.id else i.id
  }

  /** Items after it have other ids: what the first one stored stays. */
  lemma {:induction false} LaterStay(d: Dest, here: Path, l: Level, items: seq<Item>, id: nat, k: Path)
    requires here + [id] <= k && forall j :: 0 <= j < |items| ==> IdOf(items[j]) != id
    ensures var e := StoredTree(d, here, l, items); (k in d <==> k in e) && (k in d ==> d[k] == e[k])
    decreases |items|
  {
    hide StoredItem;
    if items != [] {
      var key := here + [IdOf(items[0])];
      assert k[|here|] == id && key[|here|] == IdOf(items[0]);
      ItemStays(d, here, l, items[0], k);
      LaterStay(StoredItem(d, here, l, items[0]), here, l, items[1..], id, k);
    }
  }

  /** The value a scalar read makes of a field. */
  function LeafOf(r: Read, f: Field): Leaf
  {
    match r
    case ReadUnsigned => if f.UnsignedField? then Scalar(Number(f.u)) else Length(0)
    case ReadBool => if f.UnsignedField? then Scalar(Number(if f.u != 0 then 1 else 0)) else Length(0)
    case ReadSigned => if f.SignedField? then Scalar(Number(f.i)) else Length(0)
    case ReadFloat(_) => if f.FloatField? then Scalar(Bits(f.raw)) else Length(0)
    case _ => Length(0)
  }

  /** How many elements an array field has. */
  function CountOf(f: Field): nat
  {
    match f
    case UnsignedArray(_, us) => |us|
    case SignedArray(_, ss) => |ss|
    case FloatArray(_, _, raws) => |raws|
    case _ => 0
  }

  /** `v` is element `k` of the field, as it was written; to a reader of booleans, whether it is not zero. */
  predicate ElementIs(e: Elem, f: Field, k: nat, v: Value)
    requires k < CountOf(f)
  {
    match f
    case UnsignedArray(_, us) => v == Number(if e == BoolElem then (if us[k] == 0 then 0 else 1) else us[k])
    case SignedArray(_, ss) => v == Number(ss[k])
    case FloatArray(_, _, raws) => v == Bits(raws[k])
  }

  lemma ValuesAre(r: Read, f: Field)
    requires TagMatches(r, HeaderOf(f)) && (r.ReadArray? || r.ReadSpan?)
    ensures |FieldValues(r, f)| == CountOf(f)
    ensures forall k :: 0 <= k < CountOf(f) ==> ElementIs(r.elem, f, k, FieldValues(r, f)[k])
  {
    if f.SignedArray? {
      forall k | 0 <= k < |f.ss| ensures IntValue(r.elem, ZigZagWords(f.ss)[k]) == Number(f.ss[k]) { ZigZagInverse(f.ss[k], 0); }
    }
    hide ZigZagEncode, ZigZagDecode;
  }

  /** A scalar read stores the field's value, whatever was there before. */
  lemma FoundScalar(d: Dest, key: Path, r: Read, f: Field)
    requires TagMatches(r, HeaderOf(f)) && (r.ReadUnsigned? || r.ReadSigned? || r.ReadBool? || r.ReadFloat?)
    ensures Found(Stored(d, key, r, f), key, r, f)
  {
  }

  lemma FoundArray(d: Dest, key: Path, r: Read, f: Field)
    requires TagMatches(r, HeaderOf(f)) && r.ReadArray?
    ensures Found(Stored(d, key, r, f), key, r, f)
  {
    ValuesAre(r, f);
    hide FieldValues, ElementIs;
    var d1 := Started(r, HeaderOf(f), d, key);
    var (items, vs) := (ItemsOf(d1, key, r), FieldValues(r, f));
    assert |vs| == |items|;
    assert Splice(items, 0, vs) == vs;
  }

  /** The field's value, where a read has put it: all of it, or as much as the reader made room for. */
  predicate Found(e: Dest, key: Path, r: Read, f: Field)
  {
    match r
    case ReadText(_, _, room) =>
      && f.TextField? && key in e && e[key].Text? && |e[key].buf| == room && e[key].len == |f.text|
      && |f.text| <= room && e[key].buf[..|f.text|] == f.text
    case ReadRaw(room) =>
      f.TextField? &&
      var n := if |f.text| < room then |f.text| else room;
      n > 0 ==> key in e && e[key].Raw? && |e[key].buf| == room && e[key].buf[..n] == f.text[..n]
    case ReadSpan(_, extent) =>
      var n := if CountOf(f) < extent then CountOf(f) else extent;
      n > 0 ==> key in e && e[key].Items? && |e[key].items| == extent && forall k :: 0 <= k < n ==> ElementIs(r.elem, f, k, e[key].items[k])
    case ReadArray(_, _, _, _) =>
      && key in e && e[key].Items? && |e[key].items| == CountOf(f)
      && forall k :: 0 <= k < CountOf(f) ==> ElementIs(r.elem, f, k, e[key].items[k])
    case ReadMessage(_) => false
    case _ => key in e && e[key] == LeafOf(r, f)
  }

  lemma SpliceFront<T>(buf: seq<T>, piece: seq<T>)
    ensures var n := if |piece| < |buf| then |piece| else |buf|; Splice(buf, 0, piece)[..n] == piece[..n]
  {
  }

  lemma FoundText(d: Dest, key: Path, r: Read, f: Field)
    requires TagMatches(r, HeaderOf(f)) && (r.ReadText? || r.ReadRaw?) && (r.ReadText? ==> |f.text| <= r.room)
    ensures Found(Stored(d, key, r, f), key, r, f)
  {
    SpliceFront(if r.ReadText? then TextAt(d, key, r.room).buf else RawAt(d, key, r.room).buf, f.text);
    hide TextAt, RawAt, Splice;
    if |f.text| > 0 { assert f.text != []; }
    assert f.text[..|f.text|] == f.text;
  }

  lemma FoundSpan(d: Dest, key: Path, r: Read, f: Field)
    requires TagMatches(r, HeaderOf(f)) && r.ReadSpan?
    ensures Found(Stored(d, key, r, f), key, r, f)
  {
    hide SpanAt, FieldValues, ElementIs;
    ValuesAre(r, f);
  }

  lemma FoundStored(d: Dest, key: Path, l: Level, f: Field)
    requires AnswerTo(l, HeaderOf(f)).Take?
    ensures var r := AnswerTo(l, HeaderOf(f)).read; Found(Stored(d, key, r, f), key, r, f)
  {
    AnswerShape(l, HeaderOf(f));
    if f.TextField? { TextFits(l, f); }
    var r := AnswerTo(l, HeaderOf(f)).read;
    hide AnswerTo, Stored, LeafOf, FieldValues;
    if r.ReadText? || r.ReadRaw? { FoundText(d, key, r, f); }
    else if r.ReadSpan? { FoundSpan(d, key, r, f); }
    else if r.ReadArray? { FoundArray(d, key, r, f); }
    else { FoundScalar(d, key, r, f); }
  }

  lemma TextFits(l: Level, f: Field)
    requires AnswerTo(l, HeaderOf(f)).Take? && f.TextField?
    ensures var r := AnswerTo(l, HeaderOf(f)).read; r.ReadText? ==> |f.text| <= r.room
  {
  }

  /** In a message whose fields have different ids, a field its level takes is found at its id, with
      the value it was written with, by every kind of read. */
  lemma {:induction false} FieldIsThere(d: Dest, here: Path, l: Level, items: seq<Item>, k: nat)
    requires k < |items| && items[k].Leaf? && forall j :: k < j < |items| ==> IdOf(items[j]) != IdOf(items[k])
    requires AnswerTo(l, HeaderOf(items[k].field)).Take?
    ensures var f := items[k].field;
            Found(StoredTree(d, here, l, items), here + [f.id], AnswerTo(l, HeaderOf(f)).read, f)
    decreases k
  {
    var f := items[k].field;
    hide Found;
    if k > 0 {
      FieldIsThere(StoredItem(d, here, l, items[0]), here, l, items[1..], k - 1);
    } else {
      var a := AnswerTo(l, HeaderOf(f));
      var d1 := StoredItem(d, here, l, items[0]);
      FoundStored(PlaceIf(a.placed, d, here, f.id), here + [f.id], l, f);
      hide StoredItem, AnswerTo, Stored, PlaceIf;
      LaterStay(d1, here, l, items[1..], f.id, here + [f.id]);
      FoundLater(d1, StoredTree(d1, here, l, items[1..]), here + [f.id], a.read, f);
    }
  }

  lemma FoundLater(d: Dest, e: Dest, key: Path, r: Read, f: Field)
    requires Found(d, key, r, f) && (key in d <==> key in e) && (key in d ==> d[key] == e[key])
    ensures Found(e, key, r, f)
  {
    hide LeafOf;
  }

  /** The whole way: what was written under an id is, after the decode, at that id; every scalar, every byte
      of a text, every element of an array in its place. */
  lemma FieldReturns(c: Config, items: seq<Item>, k: nat)
    requires TakesTree(Live(c.root), 0, items) && WithinCap(items, c.cap)
    requires k < |items| && items[k].Leaf? && forall j :: k < j < |items| ==> IdOf(items[j]) != IdOf(items[k])
    ensures var (o, f) := (Run(c, START, TreeBytes(items)), items[k].field);
            && Verdict(o) == Complete && AnswerTo(Live(c.root), HeaderOf(f)).Take?
            && Found(o.state.dest, [f.id], AnswerTo(Live(c.root), HeaderOf(f)).read, f)
  {
    hide Run, StoredTree, TreeBytes, AnswerTo, Found, WithinCap;
    RoundTrips(c, items);
    TakesLeaf(Live(c.root), 0, items, k);
    FieldIsThere(map[], [], Live(c.root), items, k);
    assert [] + [items[k].field.id] == [items[k].field.id];
  }

  lemma {:induction false} TakesLeaf(l: Level, d: nat, items: seq<Item>, k: nat)
    requires TakesTree(l, d, items) && k < |items| && items[k].Leaf?
    ensures AnswerTo(l, HeaderOf(items[k].field)).Take?
    decreases k
  {
    hide AnswerTo, Accepts, Admits;
    if k > 0 { TakesLeaf(l, d, items[1..], k - 1); }
  }

  /** And so inside a sequence, from the destination the sequence began with. */
  lemma SequenceIsThere(d: Dest, here: Path, l: Level, items: seq<Item>, k: nat, p: Path)
    requires k < |items| && items[k].Sub? && ItemBytes(items[k]) != []
    requires forall j :: k < j < |items| ==> IdOf(items[j]) != IdOf(items[k])
    requires var a := AnswerTo(l, SequenceHeader(items[k].id)); a.Take? && a.read.ReadMessage?
    ensures var (i, a) := (items[k], AnswerTo(l, SequenceHeader(items[k].id)));
            var key := here + [i.id];
            var d0 := StoredTree(d, here, l, items[..k]);
            var inner := StoredTree(Prepare(a.read.node, PlaceIf(a.placed, d0, here, i.id), key), key, Live(a.read.node), i.items);
            var e := StoredTree(d, here, l, items);
            key <= p ==> (p in e <==> p in inner) && (p in e ==> e[p] == inner[p])
    decreases k
  {
    hide ItemBytes, AnswerTo, PlaceIf, Prepare;
    if k > 0 {
      assert items[1..][..k - 1] == items[..k][1..] && items[..k][0] == items[0];
      SequenceIsThere(StoredItem(d, here, l, items[0]), here, l, items[1..], k - 1, p);
    } else {
      assert items[..0] == [];
      if here + [items[0].id] <= p { LaterStay(StoredItem(d, here, l, items[0]), here, l, items[1..], items[0].id, p); }
    }
  }
}
