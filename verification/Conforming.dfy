/** What a completed decode can have left in its destination, whatever the bytes: only places the schema
    has, and in them only values the schema allows. */
module Conforming {
  import opened Varint
  import opened WireFormat
  import opened Handlers
  import opened Destination
  import opened Utf8
  import opened Machine
  import opened Progress
  import opened Levels
  import opened Parser
  import opened Framing
  import opened Verdicts
  import opened Declining
  import opened Containers
  import opened Growing
  import opened Histories
  import opened Admission
  import opened Values

  // ---------------------------------------------------------------- values and places

  /** The length of an array: within its declared count, or the receiver's limit where none is declared,
      and within its room. */
  predicate LengthOk(node: Node, leaf: Leaf)
  {
    leaf.Length? &&
    match node
    case Struct(_) => false
    case TextSeq(_, cap, _, dynCap, _, destCap, _) => IndexRoom(cap, dynCap, destCap, leaf.n)
    case RowSeq(cap, dynCap, destCap, _) => IndexRoom(cap, dynCap, destCap, leaf.n)
  }

  predicate IndexRoom(cap: int, dynCap: int, destCap: int, n: nat)
  {
    (cap >= 0 ==> n <= cap) && (cap < 0 && dynCap >= 0 ==> n <= dynCap) && (destCap >= 0 ==> n <= destCap)
  }

  /** What a read can leave. */
  ghost predicate LeafOk(r: Read, leaf: Leaf)
  {
    match r
    case ReadUnsigned => leaf.Scalar? && leaf.value.Number? && 0 <= leaf.value.n < 0x1_0000_0000_0000_0000
    case ReadSigned => leaf.Scalar? && leaf.value.Number? && -0x8000_0000_0000_0000 <= leaf.value.n < 0x8000_0000_0000_0000
    case ReadBool => leaf == Scalar(Number(0)) || leaf == Scalar(Number(1))
    case ReadFloat(fix) => leaf.Scalar? && leaf.value.Bits? && |leaf.value.raw| == if fix == Fp32 then 4 else 8
    case ReadText(isString, bound, room) =>
      leaf.Text? && |leaf.buf| == room && leaf.len <= bound.max && leaf.len <= room && (isString ==> Utf8.Utf8(leaf.buf[..leaf.len]))
    case ReadRaw(room) => leaf.Raw? && |leaf.buf| == room
    case ReadArray(e, bound, range, room) =>
      leaf.Items? && |leaf.items| <= bound.max && |leaf.items| <= room && forall v <- leaf.items :: ElementOk(e, range, v)
    case ReadSpan(_, extent) => leaf.Items? && |leaf.items| == extent
    case ReadMessage(node) => LengthOk(node, leaf)
  }

  /** The read of one member of a level. */
  function MemberOn(n: Node, id: nat): Option<Read>
  {
    match n
    case Struct(fields) => if id in fields then Some(fields[id]) else None
    case RowSeq(_, _, _, row) => Some(row)
    case TextSeq(isString, _, maxlen, _, elemDynCap, _, room) =>
      Some(ReadText(isString, if maxlen >= 0 then Declared(maxlen) else Capped(elemDynCap), room))
  }

  /** The read at a place of the schema. */
  function ReadOn(n: Node, k: Path): Option<Read>
    requires k != []
    decreases |k|
  {
    var m := MemberOn(n, k[0]);
    if m.None? || |k| == 1 then m
    else if m.value.ReadMessage? then ReadOn(m.value.node, k[1..])
    else None
  }

  ghost predicate PlaceOk(root: Node, k: Path, leaf: Leaf)
  {
    if k == [] then LengthOk(root, leaf) else ReadOn(root, k).Some? && LeafOk(ReadOn(root, k).value, leaf)
  }

  ghost predicate Conforms(root: Node, d: Dest)
  {
    forall k <- d :: PlaceOk(root, k, d[k])
  }

  /** The part of the schema a level's handler is. */
  ghost predicate Part(root: Node, here: Path, n: Node)
  {
    && (forall k: Path :: k != [] ==> ReadOn(root, here + k) == ReadOn(n, k))
    && (forall leaf: Leaf :: LengthOk(n, leaf) ==> PlaceOk(root, here, leaf))
  }

  lemma PartBelow(root: Node, here: Path, n: Node, id: nat, child: Node)
    requires Part(root, here, n) && MemberOn(n, id) == Some(ReadMessage(child))
    ensures Part(root, here + [id], child)
  {
    hide LengthOk, MemberOn;
    forall k: Path | k != [] ensures ReadOn(root, here + [id] + k) == ReadOn(child, k)
    {
      assert here + [id] + k == here + ([id] + k) && ([id] + k)[1..] == k;
    }
    assert ReadOn(root, here + [id]) == ReadOn(n, [id]);
  }

  lemma PartMember(root: Node, here: Path, n: Node, id: nat, leaf: Leaf)
    requires Part(root, here, n) && MemberOn(n, id).Some? && LeafOk(MemberOn(n, id).value, leaf)
    ensures PlaceOk(root, here + [id], leaf)
  {
    hide LengthOk, LeafOk, MemberOn;
    assert ReadOn(root, here + [id]) == ReadOn(n, [id]);
  }

  lemma ConformsAt(root: Node, d: Dest, e: Dest, key: Path)
    requires Conforms(root, d) && OnlyAt(d, e, key) && (key in e ==> PlaceOk(root, key, e[key]))
    ensures Conforms(root, e)
  {
    hide PlaceOk;
    var (f, g) := (d - {key}, e - {key});
    forall k | k in e ensures PlaceOk(root, k, e[k])
    {
      if k != key {
        assert k in g && g[k] == e[k];
        assert k in f && f[k] == d[k];
      }
    }
  }

  // ---------------------------------------------------------------- answers

  /** What a level takes, it takes by its member's read; what it places is within the bounds. */
  lemma TakenMember(n: Node, h: Header)
    ensures var a := AnswerTo(Live(n), h);
            && (a.Take? ==> MemberOn(n, h.id) == Some(a.read) && Tagged(a.read, h)
                            && (HasBound(a.read) ==> SizeOf(a.read, h) <= a.read.bound.max && SizeOf(a.read, h) <= a.read.room))
            && (a.placed ==> LengthOk(n, Length(h.id + 1)))
  {
  }

  lemma PlacedConforms(root: Node, here: Path, n: Node, d: Dest, h: Header, placed: bool)
    requires Part(root, here, n) && Conforms(root, d) && (placed ==> LengthOk(n, Length(h.id + 1)))
    ensures Conforms(root, PlaceIf(placed, d, here, h.id))
  {
    hide PlaceOk, LengthOk, ReadOn;
    if placed { ConformsAt(root, d, PlaceIf(placed, d, here, h.id), here); }
  }

  lemma PreparedConforms(root: Node, node: Node, d: Dest, key: Path)
    requires Conforms(root, d) && (!node.Struct? ==> PlaceOk(root, key, Length(0)))
    ensures Conforms(root, Prepare(node, d, key))
  {
    hide PlaceOk;
  }

  lemma NoneYet(node: Node)
    requires !node.Struct?
    ensures LengthOk(node, Length(0))
  {
  }

  // ---------------------------------------------------------------- payloads

  /** The read of the field in hand stands where it can. */
  ghost predicate HandOk(c: Config, t: State, r: Read)
  {
    && t.pend.Busy? && !t.pend.skip && t.pend.done == 0 && ReadInHand(c, t).Take? && ReadInHand(c, t).read == r && !r.ReadMessage?
    && Tagged(r, t.pend.h) && ReadUnits(r, t.pend.h) > 0
    && (HasBound(r) ==> SizeOf(r, t.pend.h) <= r.bound.max && SizeOf(r, t.pend.h) <= r.room)
    && (r.ReadArray? ==> KeyOf(t) in t.dest && |ItemsAt(t.dest, KeyOf(t))| == t.pend.h.count)
    && (!r.ReadArray? && KeyOf(t) in t.dest ==> LeafOk(r, t.dest[KeyOf(t)]))
  }

  lemma {:induction false} SpanOk(s: State, r: Read, b: seq<byte>)
    requires s.pend.Busy? && r.ReadSpan? && (KeyOf(s) in s.dest ==> LeafOk(r, s.dest[KeyOf(s)]))
    ensures var o := ParseItems(s, r, b); o.Whole? && KeyOf(s) in o.next.dest ==> LeafOk(r, o.next.dest[KeyOf(s)])
    decreases if s.pend.done < s.pend.h.count then s.pend.h.count - s.pend.done else 0
  {
    hide Decode, Toll, InRange, IntValue, DefaultOf;
    var w := ElemWidth(r.elem);
    var x := if IsFloat(r.elem) then Got(0, w) else Decode(b);
    if !(IsFloat(r.elem) && |b| < w) && x.Got? && (IsFloat(r.elem) || InRange(r.elem, RangeOf(r), x.value)) {
      var t := ItemStored(s, x.size, r, if IsFloat(r.elem) then Bits(b[..w]) else IntValue(r.elem, x.value));
      if t.pend.Busy? { SpanOk(t, r, b[x.size..]); }
    }
  }

  lemma ArrayOk(s: State, r: Read, b: seq<byte>)
    requires s.pend.Busy? && r.ReadArray? && s.pend.done == 0 && 0 < s.pend.h.count <= r.bound.max && s.pend.h.count <= r.room
    requires KeyOf(s) in s.dest && |ItemsAt(s.dest, KeyOf(s))| == s.pend.h.count
    ensures var o := ParseItems(s, r, b); o.Whole? && KeyOf(s) in o.next.dest ==> LeafOk(r, o.next.dest[KeyOf(s)])
  {
    hide ParseItems, Decoded, ElementOk;
    SameElements(s, r, b);
    ElementsOk(r.elem, r.range, s.pend.h.count, b);
    var d := Decoded(r.elem, r.range, s.pend.h.count, b);
    assert ItemsAt(s.dest, KeyOf(s))[..0] + d.values == d.values;
  }

  lemma TextLeafOk(c: Config, t: State, r: Read, b: seq<byte>)
    requires HandOk(c, t, r) && (r.ReadText? || r.ReadRaw?)
    ensures var o := ParsePayload(c, t, b); o.Whole? && KeyOf(t) in o.next.dest ==> LeafOk(r, o.next.dest[KeyOf(t)])
  {
    hide Utf8.Utf8, ReadInHand, Toll, Splice;
    if r.ReadText? && |b| >= t.pend.h.len { Front(TextAt(t.dest, KeyOf(t), r.room).buf, b[..t.pend.h.len]); }
  }

  lemma PayloadOk(c: Config, t: State, r: Read, b: seq<byte>)
    requires HandOk(c, t, r)
    ensures var o := ParsePayload(c, t, b); o.Whole? && KeyOf(t) in o.next.dest ==> LeafOk(r, o.next.dest[KeyOf(t)])
  {
    if r.ReadText? || r.ReadRaw? {
      TextLeafOk(c, t, r, b);
    } else if r.ReadArray? {
      ArrayOk(t, r, b);
      hide ParseItems, LeafOk;
    } else if r.ReadSpan? {
      SpanOk(t, r, b);
      hide ParseItems, LeafOk;
    } else {
      hide Decode, ReadInHand, Toll;
    }
  }

  // ---------------------------------------------------------------- fields, levels, messages

  /** A field without a payload leaves an empty value, or nothing. */
  lemma EmptyOk(r: Read, h: Header, d: Dest, key: Path)
    requires Tagged(r, h) && ReadUnits(r, h) == 0 && !r.ReadMessage? && (key in d ==> LeafOk(r, d[key]))
    requires HasBound(r) ==> SizeOf(r, h) <= r.bound.max && SizeOf(r, h) <= r.room
    ensures var e := Started(r, h, d, key); key in e ==> LeafOk(r, e[key])
  {
    if r.ReadText? { NothingIsUtf8(TextAt(d, key, r.room).buf); }
    hide Utf8.Utf8, ElementOk;
  }

  lemma NothingIsUtf8(buf: seq<byte>)
    ensures Utf8.Utf8(buf[..0])
  {
    GrammarIsAutomaton(buf[..0]);
  }

  /** The field in hand, once its header was taken. */
  lemma TakenHand(c: Config, t: State, h: Header, d: Dest, key: Path, r: Read)
    requires t.pend.Busy? && t.pend.h == h && !t.pend.skip && t.pend.done == 0 && KeyOf(t) == key && ReadInHand(c, t).Take? && ReadInHand(c, t).read == r && !r.ReadMessage?
    requires Tagged(r, h) && ReadUnits(r, h) > 0 && t.dest == Started(r, h, d, key) && (key in d ==> LeafOk(r, d[key]))
    requires HasBound(r) ==> SizeOf(r, h) <= r.bound.max && SizeOf(r, h) <= r.room
    ensures HandOk(c, t, r)
  {
    hide ReadInHand, LeafOk, Resize, KeyOf, Tagged;
  }

  /** What a leaf member held before is a value of its own. */
  lemma HeldOk(root: Node, here: Path, n: Node, d: Dest, id: nat, r: Read)
    requires Part(root, here, n) && Conforms(root, d) && MemberOn(n, id) == Some(r)
    ensures here + [id] in d ==> LeafOk(r, d[here + [id]])
  {
    hide LeafOk, LengthOk, MemberOn;
    if here + [id] in d {
      assert PlaceOk(root, here + [id], d[here + [id]]);
      assert ReadOn(root, here + [id]) == ReadOn(n, [id]);
    }
  }

  lemma {:induction false} LeafConforms(c: Config, s: State, n: Node, b: seq<byte>)
    requires Good(c, s) && s.pend.Idle? && (s.path != [] || b != []) && !EndsHere(c, s, b) && ParseField(c, s, b).Whole?
    requires LevelAt(c.root, s.path) == Live(n) && Part(c.root, Ids(s.path), n) && Conforms(c.root, s.dest) && HeaderAt(c, s, b).FieldAt?
    requires var r := HeaderAt(c, s, b);
             var a := AnswerHere(c, s, r.header, r.notElement); a.Take? && !a.read.ReadMessage?
    ensures Conforms(c.root, ParseField(c, s, b).next.dest)
  {
    hide BoundaryStep, Good, EndsHere, HeaderAt, ParseField, ParseLevel, RestOfField, AnswerTo, LevelAt, AnswerHere, PlaceIf, Part, Conforms, LeafOk, MemberOn,
         PlaceOk, LengthOk, Started, Tagged, OnlyAt, FreshField;
    var r := HeaderAt(c, s, b);
    var (h, here, key) := (r.header, Ids(s.path), Ids(s.path) + [r.header.id]);
    var a := AnswerHere(c, s, h, r.notElement);
    LevelAnswers(c, s, n, h, r.notElement);
    TakenMember(n, h);
    FieldOpens(c, s, b);
    FieldFresh(c, s, b);
    LeafHeader(a, h);
    HandUnits(c, s, b);
    var (t, rest, d) := (BoundaryStep(c, s, b).next, b[r.size..], PlaceIf(a.placed, s.dest, here, h.id));
    PlacedConforms(c.root, here, n, s.dest, h, a.placed);
    HeldOk(c.root, here, n, d, h.id, a.read);
    AnsweredLeaf(s.dest, here, h, a);
    Began(a.read, h, d, key);
    LeafEnds(c, t, h, d, key, a, rest, r.notElement);
    var e := ParseField(c, s, b).next.dest;
    if key in e { PartMember(c.root, here, n, h.id, e[key]); }
    ConformsAt(c.root, d, e, key);
  }

  /** There is a payload to read exactly if there is something in it. */
  lemma HandUnits(c: Config, s: State, b: seq<byte>)
    requires s.pend.Idle? && BoundaryStep(c, s, b).Go? && HeaderAt(c, s, b).FieldAt? && HeaderAt(c, s, b).header.wire != SequenceStart
    requires var r := HeaderAt(c, s, b); AnswerHere(c, s, r.header, r.notElement).Take?
    ensures var r := HeaderAt(c, s, b);
            BoundaryStep(c, s, b).next.pend.Idle? <==> ReadUnits(AnswerHere(c, s, r.header, r.notElement).read, r.header) == 0
  {
    var r := HeaderAt(c, s, b);
    BoundaryReads(c, s, b);
    OfferAnswered(c, Opening(s), r.header, r.size, r.notElement);
    AnswerShape(LevelAt(c.root, s.path), r.header);
    var a := AnswerHere(c, s, r.header, r.notElement);
    assert AnswerHere(c, Opening(s), r.header, r.notElement) == a;
    hide BoundaryStep, HeaderAt, OfferField, AnswerTo, LevelAt, TagMatches, Answered, AnsweredDest;
    AnsweredShape(Opening(s), r.header, r.size, a);
  }

  lemma LevelAnswers(c: Config, s: State, n: Node, h: Header, notElement: bool)
    requires LevelAt(c.root, s.path) == Live(n)
    ensures AnswerHere(c, s, h, notElement).Take? ==> AnswerHere(c, s, h, notElement) == AnswerTo(Live(n), h)
    ensures AnswerHere(c, s, h, notElement).placed ==> AnswerHere(c, s, h, notElement) == AnswerTo(Live(n), h)
  {
    hide LevelAt, AnswerTo;
  }

  lemma LeafHeader(a: Answer, h: Header)
    requires a.Take? && !a.read.ReadMessage? && Tagged(a.read, h)
    ensures h.wire != SequenceStart
  {
  }

  lemma AnsweredLeaf(d: Dest, here: Path, h: Header, a: Answer)
    requires a.Take?
    ensures AnsweredDest(d, here, h, a) == Started(a.read, h, PlaceIf(a.placed, d, here, h.id), here + [h.id])
  {
    hide Started, PlaceIf;
  }

  /** The payload, if there is one, leaves a value of its read. */
  lemma LeafEnds(c: Config, t: State, h: Header, d: Dest, key: Path, a: Answer, rest: seq<byte>, notElement: bool)
    requires RestOfField(c, t, rest).Whole? && a.Take? && !a.read.ReadMessage? && Tagged(a.read, h) && t.dest == Started(a.read, h, d, key)
    requires FreshField(c, t, h, rest) && (t.pend.Busy? ==> !t.pend.skip) && Ids(t.path) + [h.id] == key
    requires AnswerTo(LevelAt(c.root, t.path), h) == a && (key in d ==> LeafOk(a.read, d[key])) && OnlyAt(d, t.dest, key)
    requires HasBound(a.read) ==> SizeOf(a.read, h) <= a.read.bound.max && SizeOf(a.read, h) <= a.read.room
    requires t.pend.Idle? ==> ReadUnits(a.read, h) == 0
    requires t.pend.Busy? ==> ReadUnits(a.read, h) > 0
    ensures var e := RestOfField(c, t, rest).next.dest; OnlyAt(d, e, key) && (key in e ==> LeafOk(a.read, e[key]))
  {
    hide Good, AnswerTo, LevelAt, Started, Tagged, LeafOk, OnlyAt, ParsePayload, PayloadSize, Toll;
    if t.pend.Busy? {
      PaidSettled(c, t, rest);
      TakenHand(c, t, h, d, key, a.read);
      PayloadOk(c, t, a.read, rest);
      OnlyTwice(d, t.dest, RestOfField(c, t, rest).next.dest, key);
    } else {
      EmptyOk(a.read, h, d, key);
    }
  }

  lemma {:induction false} FieldConforms(c: Config, s: State, n: Node, b: seq<byte>)
    requires Good(c, s) && s.pend.Idle? && (s.path != [] || b != []) && !EndsHere(c, s, b) && ParseField(c, s, b).Whole?
    requires LevelAt(c.root, s.path) == Live(n) && Part(c.root, Ids(s.path), n) && Conforms(c.root, s.dest) && HeaderAt(c, s, b).FieldAt?
    ensures Conforms(c.root, ParseField(c, s, b).next.dest)
    decreases |b|, 0
  {
    hide BoundaryStep, Good, EndsHere, HeaderAt, ParseField, ParseLevel, AnswerTo, LevelAt, AnswerHere, PlaceIf, Part, Conforms, MemberOn, LengthOk, Prepare, Tagged;
    var r := HeaderAt(c, s, b);
    var (h, here) := (r.header, Ids(s.path));
    var a := AnswerHere(c, s, h, r.notElement);
    LevelAnswers(c, s, n, h, r.notElement);
    TakenMember(n, h);
    HeaderEffectRefuses(c, s, b);
    PlacedConforms(c.root, here, n, s.dest, h, a.placed);
    if a.Decline? {
      DeclinedStores(c, s, b);
    } else if a.read.ReadMessage? {
      TakenIsElement(c, s, n, h, r.notElement);
      SequenceBegun(c, s, n, b, a);
      PartBelow(c.root, here, n, h.id, a.read.node);
      if !a.read.node.Struct? { NoneYet(a.read.node); PartHere(c.root, here + [h.id], a.read.node, Length(0)); }
      PreparedConforms(c.root, a.read.node, PlaceIf(a.placed, s.dest, here, h.id), here + [h.id]);
      LevelConforms(c, BoundaryStep(c, s, b).next, a.read.node, b[r.size..]);
    } else {
      LeafConforms(c, s, n, b);
    }
  }

  lemma TakenIsElement(c: Config, s: State, n: Node, h: Header, notElement: bool)
    requires AnswerHere(c, s, h, notElement).Take?
    ensures !notElement
  {
  }

  lemma PartHere(root: Node, here: Path, n: Node, leaf: Leaf)
    requires Part(root, here, n) && LengthOk(n, leaf)
    ensures PlaceOk(root, here, leaf)
  {
  }

  lemma {:induction false} LevelConforms(c: Config, s: State, n: Node, b: seq<byte>)
    requires Good(c, s) && s.pend.Idle? && s.path != [] && LevelAt(c.root, s.path) == Live(n) && ParseLevel(c, s, b).Whole?
    requires Part(c.root, Ids(s.path), n) && Conforms(c.root, s.dest)
    ensures Conforms(c.root, ParseLevel(c, s, b).next.dest)
    decreases |b|, 1
  {
    hide Good, BoundaryStep, EndsHere, ParseField, HeaderAt, Follows, LevelAt, Part, Conforms;
    if EndsHere(c, s, b) {
      EndKeeps(c, s, b);
    } else {
      FieldFollows(c, s, b);
      var o := ParseField(c, s, b);
      FollowsWhole(c, s, b, o);
      FieldHasHeader(c, s, b);
      FieldConforms(c, s, n, b);
      LevelConforms(c, o.next, n, o.rest);
    }
  }

  lemma {:induction false} MessageConforms(c: Config, s: State, b: seq<byte>)
    requires Good(c, s) && At(s, []) && ParseMessage(c, s, b).Accepted? && Part(c.root, [], c.root) && Conforms(c.root, s.dest)
    ensures Conforms(c.root, ParseMessage(c, s, b).dest)
    decreases |b|
  {
    hide Good, BoundaryStep, EndsHere, ParseField, HeaderAt, Follows, Part, Conforms;
    if b != [] {
      TopNeverEnds(c, s, b);
      FieldFollows(c, s, b);
      var o := ParseField(c, s, b);
      FollowsWhole(c, s, b, o);
      FieldHasHeader(c, s, b);
      TopLevelIs(c, s, b, []);
      FieldConforms(c, s, c.root, b);
      MessageConforms(c, o.next, o.rest);
    }
  }

  lemma RootPart(root: Node)
    ensures Part(root, [], root)
  {
    forall k: Path | k != [] ensures ReadOn(root, [] + k) == ReadOn(root, k) { assert [] + k == k; }
  }

  /** Whatever bytes a decode accepts: every place of the destination is one the schema has, and what is there
      is a value its read allows. Every text is within its bound and its room, a string is UTF-8; every array is
      within its bound and its room, every element of it in its range; every wrapper array is within its count. */
  lemma CompleteConforms(c: Config, b: seq<byte>)
    requires Verdict(Run(c, START, b)) == Complete
    ensures Conforms(c.root, Run(c, START, b).state.dest)
  {
    hide Run, ParseMessage, Part, PlaceOk;
    GoodStart(c);
    OneShot(c, b);
    RootPart(c.root);
    MessageConforms(c, START, b);
  }
}
