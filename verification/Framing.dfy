/** How far a field reaches, told from the bytes alone: the same for a reader, for a reader with
    too little room, and for one that steps over it. */
module Framing {
  import opened Varint
  import opened WireFormat
  import opened Handlers
  import opened Destination
  import opened Utf8
  import opened Machine
  import opened Progress
  import opened Levels
  import opened Parser

  /** The bytes of `n` varints. */
  function VarintsSize(n: nat, b: seq<byte>): (r: Option<nat>)
    ensures r.Some? ==> r.value <= |b|
  {
    if n == 0 then Some(0)
    else
      match Decode(b)
      case Got(_, k) =>
        (match VarintsSize(n - 1, b[k..])
         case Some(m) => Some(k + m)
         case None => None)
      case _ => None
  }

  function BytesSize(n: nat, b: seq<byte>): (r: Option<nat>)
    ensures r.Some? ==> r.value <= |b|
  {
    if n <= |b| then Some(n) else None
  }

  function PayloadSize(h: Header, b: seq<byte>): (r: Option<nat>)
    ensures r.Some? ==> r.value <= |b|
  {
    match h.wire
    case Unsigned => VarintsSize(1, b)
    case Signed => VarintsSize(1, b)
    case ArrayUnsigned => VarintsSize(h.count, b)
    case ArraySigned => VarintsSize(h.count, b)
    case Fixlen => BytesSize(h.len, b)
    case ArrayFixlen => BytesSize(h.count * h.len, b)
    case _ => None
  }

  /** A field with its header. */
  function FieldSize(b: seq<byte>): (r: Option<nat>)
    ensures r.Some? ==> 0 < r.value <= |b|
    decreases |b|, 0
  {
    match ReadHeader(OPEN_GATE, b)
    case FieldAt(h, n, _) =>
      var inner := if h.wire == SequenceStart then SequenceSize(b[n..]) else PayloadSize(h, b[n..]);
      if inner.Some? then Some(n + inner.value) else None
    case _ => None
  }

  /** The fields of a sequence and its end marker. */
  function SequenceSize(b: seq<byte>): (r: Option<nat>)
    ensures r.Some? ==> r.value <= |b|
    decreases |b|, 1
  {
    var h := ReadHeader(OPEN_GATE, b);
    if h.LevelEnd? then Some(h.size)
    else
      match FieldSize(b)
      case Some(n) =>
        (match SequenceSize(b[n..])
         case Some(k) => Some(n + k)
         case None => None)
      case None => None
  }

  /** An index gate may refuse a header, but it does not change what a header is. */
  lemma AnyGate(g: Gate, b: seq<byte>)
    ensures var (r, o) := (ReadHeader(g, b), ReadHeader(OPEN_GATE, b));
            && (r.FieldAt? ==> o == r.(notElement := false))
            && (r.LevelEnd? <==> o.LevelEnd?) && (r.LevelEnd? ==> o == r)
  {
  }

  /** `o` left just what follows the field's own bytes. */
  predicate Takes(b: seq<byte>, o: Parse, n: Option<nat>)
  {
    o.Whole? ==> n.Some? && n.value <= |b| && o.rest == b[n.value..]
  }

  lemma {:induction false} VarintsTaken(s: State, b: seq<byte>)
    requires s.pend.Busy? && s.pend.done < SkipUnits(s.pend.h)
    ensures Takes(b, ParseVarints(s, b), VarintsSize(SkipUnits(s.pend.h) - s.pend.done, b))
    decreases SkipUnits(s.pend.h) - s.pend.done
  {
    hide Decode, SkipUnits, Toll;
    var x := Decode(b);
    if x.Got? {
      var t := Onward(s, SkipUnits(s.pend.h), x.size, s.dest);
      if t.pend.Busy? {
        VarintsTaken(t, b[x.size..]);
        var m := VarintsSize(SkipUnits(s.pend.h) - t.pend.done, b[x.size..]);
        if m.Some? { assert b[x.size..][m.value..] == b[x.size + m.value..]; }
      } else {
        assert VarintsSize(0, b[x.size..]) == Some(0);
      }
    }
  }

  lemma {:induction false} IntegersTaken(s: State, r: Read, b: seq<byte>)
    requires s.pend.Busy? && (r.ReadArray? || r.ReadSpan?) && !IsFloat(r.elem) && s.pend.done < s.pend.h.count
    ensures Takes(b, ParseItems(s, r, b), VarintsSize(s.pend.h.count - s.pend.done, b))
    decreases s.pend.h.count - s.pend.done
  {
    hide Decode, Toll, InRange, IntValue, ItemsOf, StoreItem, KeyOf;
    var x := Decode(b);
    if x.Got? && InRange(r.elem, RangeOf(r), x.value) {
      var t := ItemStored(s, x.size, r, IntValue(r.elem, x.value));
      if t.pend.Busy? {
        IntegersTaken(t, r, b[x.size..]);
        var m := VarintsSize(s.pend.h.count - t.pend.done, b[x.size..]);
        if m.Some? { assert b[x.size..][m.value..] == b[x.size + m.value..]; }
      } else {
        assert VarintsSize(0, b[x.size..]) == Some(0);
      }
    }
  }

  lemma FloatParsed(s: State, r: Read, b: seq<byte>)
    requires s.pend.Busy? && (r.ReadArray? || r.ReadSpan?) && IsFloat(r.elem)
    ensures var w := ElemWidth(r.elem);
            var t := ItemStored(s, w, r, Bits(b[..if w <= |b| then w else 0]));
            ParseItems(s, r, b) == if |b| < w then Short else if t.pend.Idle? then Whole(t, b[w..]) else ParseItems(t, r, b[w..])
  {
    hide Toll, ItemsOf, StoreItem, KeyOf, Decode, InRange, IntValue;
  }

  lemma {:induction false} FloatsTaken(s: State, r: Read, b: seq<byte>)
    requires s.pend.Busy? && (r.ReadArray? || r.ReadSpan?) && IsFloat(r.elem) && s.pend.done < s.pend.h.count
    ensures Takes(b, ParseItems(s, r, b), BytesSize(FloatBytes(r.elem, s.pend.h.count - s.pend.done), b))
    decreases s.pend.h.count - s.pend.done
  {
    hide Toll, ItemsOf, StoreItem, KeyOf, Decode, InRange, IntValue, ParseItems;
    var w := ElemWidth(r.elem);
    FloatParsed(s, r, b);
    if |b| >= w {
      var t := ItemStored(s, w, r, Bits(b[..w]));
      if t.pend.Busy? {
        FloatsTaken(t, r, b[w..]);
        var n := FloatBytes(r.elem, s.pend.h.count - t.pend.done);
        if n <= |b| - w { assert b[w..][n..] == b[w + n..]; }
      }
    }
  }

  /** The length a header states is its element's width, or its float's. */
  predicate WidthStated(h: Header)
  {
    && (h.wire == ArrayFixlen ==> h.len == FloatWidth(h.fix))
    && (h.wire == Fixlen && h.fix.Fp32? ==> h.len == 4)
    && (h.wire == Fixlen && h.fix.Fp64? ==> h.len == 8)
  }

  lemma ReadTaken(c: Config, s: State, b: seq<byte>, r: Read)
    requires s.pend.Busy? && !s.pend.skip && s.pend.done == 0 && WidthStated(s.pend.h)
    requires ReadInHand(c, s).Take? && ReadInHand(c, s).read == r && TagMatches(r, s.pend.h) && 0 < ReadUnits(r, s.pend.h)
    ensures Takes(b, ParsePayload(c, s, b), PayloadSize(s.pend.h, b))
  {
    hide Decode, Toll, AnswerTo, LevelAt, Past, IntValue, RawCopied, Utf8.Utf8, Splice, ParseItems, TextAt, VarintsSize;
    OneSize(b);
    match r
    case ReadArray(_, _, _, _) => ArrayTaken(s, r, b);
    case ReadSpan(_, _) => ArrayTaken(s, r, b);
    case _ =>
  }

  lemma PayloadTaken(c: Config, s: State, b: seq<byte>)
    requires Good(c, s) && s.pend.Busy? && s.pend.done == 0 && WidthStated(s.pend.h)
    ensures Takes(b, ParsePayload(c, s, b), PayloadSize(s.pend.h, b))
  {
    if s.pend.skip {
      InHandSkip(c, s);
      hide Good, Decode, Toll, ReadInHand, Past;
      if VarintPayload(s.pend.h.wire) { VarintsTaken(s, b); }
    } else {
      InHandRead(c, s);
      AnswerShape(LevelAt(c.root, s.path), s.pend.h);
      hide Good, AnswerTo, LevelAt, Started, PlaceIf, ParsePayload, PayloadSize;
      ReadTaken(c, s, b, ReadInHand(c, s).read);
    }
  }

  lemma OneSize(b: seq<byte>)
    ensures VarintsSize(1, b) == if Decode(b).Got? then Some(Decode(b).size) else None
  {
    hide Decode;
    var x := Decode(b);
    if x.Got? { assert VarintsSize(0, b[x.size..]) == Some(0); }
  }

  lemma ArrayTaken(s: State, r: Read, b: seq<byte>)
    requires s.pend.Busy? && s.pend.done == 0 && (r.ReadArray? || r.ReadSpan?) && 0 < s.pend.h.count && ElemMatches(r.elem, s.pend.h)
    requires s.pend.h.wire == ArrayFixlen ==> s.pend.h.len == FloatWidth(s.pend.h.fix)
    ensures Takes(b, ParseItems(s, r, b), PayloadSize(s.pend.h, b))
  {
    hide ParseItems;
    if IsFloat(r.elem) { FloatsTaken(s, r, b); } else { IntegersTaken(s, r, b); }
  }

  /** A header that opens a field says how far it reaches. */
  lemma BoundaryFrames(c: Config, s: State, b: seq<byte>)
    requires s.pend.Idle? && BoundaryStep(c, s, b).Go?
    ensures var (o, h) := (BoundaryStep(c, s, b), ReadHeader(OPEN_GATE, b));
            if EndsHere(c, s, b) then h == LevelEnd(o.size)
            else
              && h.FieldAt? && h.size == o.size && WidthStated(h.header)
              && (|o.next.path| > |s.path| <==> h.header.wire == SequenceStart)
              && (o.next.pend.Busy? ==> o.next.pend.h == h.header)
              && (|o.next.path| <= |s.path| && o.next.pend.Idle? ==> PayloadSize(h.header, b[h.size..]) == Some(0))
  {
    var g := if s.path == [] then OPEN_GATE else GateOf(LevelAt(c.root, s.path));
    AnyGate(g, b);
    var h := ReadHeader(g, b);
    if h.FieldAt? {
      HeaderFramed(g, b);
      OfferFrames(c, if s.path == [] then s.(span := 0, disc := 0) else s, h.header, h.size, h.notElement, b[h.size..]);
    }
    hide ReadHeader, OfferField, LevelAt, GateOf, PayloadSize, Exceeds, SpanLive;
  }

  lemma HeaderFramed(g: Gate, b: seq<byte>)
    requires ReadHeader(g, b).FieldAt?
    ensures WidthStated(ReadHeader(g, b).header)
  {
  }

  lemma OfferFrames(c: Config, s: State, h: Header, n: nat, notElement: bool, rest: seq<byte>)
    requires s.pend.Idle? && h.wire != SequenceEnd
    ensures var o := OfferField(c, s, h, n, notElement);
            o.Go? ==>
              && o.size == n && |o.next.path| >= |s.path|
              && (|o.next.path| > |s.path| <==> h.wire == SequenceStart)
              && (o.next.pend.Busy? ==> o.next.pend.h == h)
              && (|o.next.path| <= |s.path| && o.next.pend.Idle? ==> PayloadSize(h, rest) == Some(0))
  {
    var a := AnswerHere(c, s, h, notElement);
    AnswerShape(LevelAt(c.root, s.path), h);
    hide AnswerTo, LevelAt, PlaceIf, Started, Exceeds, HeaderNeed, Toll, Decode;
    assert VarintsSize(0, rest) == Some(0) && BytesSize(0, rest) == Some(0);
  }

  lemma TakesOn(b: seq<byte>, n: nat, o: Parse, k: Option<nat>)
    requires n <= |b| && Takes(b[n..], o, k)
    ensures Takes(b, o, if k.Some? then Some(n + k.value) else None)
  {
    if o.Whole? { assert b[n..][k.value..] == b[n + k.value..]; }
  }

  lemma TakesNow(b: seq<byte>, n: nat, t: State)
    requires n <= |b|
    ensures Takes(b, Whole(t, b[n..]), Some(n + 0))
  {
  }

  lemma SequenceSizeIs(b: seq<byte>)
    requires !ReadHeader(OPEN_GATE, b).LevelEnd? && FieldSize(b).Some?
    ensures var (n, k) := (FieldSize(b).value, SequenceSize(b[FieldSize(b).value..]));
            SequenceSize(b) == if k.Some? then Some(n + k.value) else None
  {
    hide FieldSize, ReadHeader;
  }

  lemma FieldSizeIs(b: seq<byte>)
    requires ReadHeader(OPEN_GATE, b).FieldAt?
    ensures var (h, n) := (ReadHeader(OPEN_GATE, b).header, ReadHeader(OPEN_GATE, b).size);
            var inner := if h.wire == SequenceStart then SequenceSize(b[n..]) else PayloadSize(h, b[n..]);
            FieldSize(b) == if inner.Some? then Some(n + inner.value) else None
  {
    hide SequenceSize, PayloadSize, ReadHeader;
  }

  /** Every field that is whole, read or declined by whatever handler, ends where its framing says. */
  lemma {:induction false} FieldTaken(c: Config, s: State, b: seq<byte>)
    requires Good(c, s) && s.pend.Idle? && (s.path != [] || b != []) && !EndsHere(c, s, b)
    ensures Takes(b, ParseField(c, s, b), FieldSize(b))
    decreases |b|, 0
  {
    var o := BoundaryStep(c, s, b);
    if o.Go? {
      BoundaryFrames(c, s, b);
      BoundaryFollows(c, s, b);
      BoundaryShape(c, s, b);
      var (t, n) := (o.next, o.size);
      FieldSizeIs(b);
      hide BoundaryStep, Good, ReadHeader, ParsePayload, PayloadSize, Leads, WidthStated, FieldSize, SequenceSize, ParseLevel, Takes;
      if |t.path| > |s.path| {
        LevelTaken(c, t, b[n..]);
        TakesOn(b, n, ParseLevel(c, t, b[n..]), SequenceSize(b[n..]));
      } else if t.pend.Busy? {
        PayloadTaken(c, t, b[n..]);
        TakesOn(b, n, ParsePayload(c, t, b[n..]), PayloadSize(t.pend.h, b[n..]));
      } else {
        TakesNow(b, n, t);
      }
    }
  }

  lemma {:induction false} LevelTaken(c: Config, s: State, b: seq<byte>)
    requires Good(c, s) && s.pend.Idle? && s.path != []
    ensures Takes(b, ParseLevel(c, s, b), SequenceSize(b))
    decreases |b|, 1
  {
    hide BoundaryStep, Good, ReadHeader, ParseField, Follows, FieldSize;
    if EndsHere(c, s, b) {
      BoundaryFrames(c, s, b);
    } else {
      hide EndsHere, SequenceSize;
      FieldTaken(c, s, b);
      FieldFollows(c, s, b);
      var o := ParseField(c, s, b);
      if o.Whole? {
        NotEnding(c, s, b);
        SequenceSizeIs(b);
        FollowsWhole(c, s, b, o);
        LevelTaken(c, o.next, o.rest);
        TakesOn(b, FieldSize(b).value, ParseLevel(c, o.next, o.rest), SequenceSize(o.rest));
      }
    }
  }

  lemma NotEnding(c: Config, s: State, b: seq<byte>)
    requires s.path != [] && s.pend.Idle? && !EndsHere(c, s, b) && ParseField(c, s, b).Whole?
    ensures !ReadHeader(OPEN_GATE, b).LevelEnd?
  {
    BoundaryFrames(c, s, b);
    hide BoundaryStep, ReadHeader;
  }

  /** Read and skip consume the same bytes: two handlers that both get past a field, each in its own
      way, stand at the same byte behind it. */
  lemma ReadAndSkipAgree(c1: Config, s1: State, c2: Config, s2: State, b: seq<byte>)
    requires Good(c1, s1) && s1.pend.Idle? && Good(c2, s2) && s2.pend.Idle? && b != []
    requires !EndsHere(c1, s1, b) && !EndsHere(c2, s2, b)
    requires ParseField(c1, s1, b).Whole? && ParseField(c2, s2, b).Whole?
    ensures ParseField(c1, s1, b).rest == ParseField(c2, s2, b).rest
  {
    hide Good, EndsHere, ParseField, FieldSize;
    FieldTaken(c1, s1, b);
    FieldTaken(c2, s2, b);
  }
}
