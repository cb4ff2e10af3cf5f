/** Arrays of strings, of blobs and of rows: which elements are taken, which are refused and in which tier,
    and which are walked; and that what was written as an array comes back as one. */
module Elements {
  import opened Varint
  import opened WireFormat
  import opened Handlers
  import opened Destination
  import opened Utf8
  import opened Machine
  import opened Progress
  import opened Levels
  import opened Parser
  import opened Framing
  import opened Verdicts
  import opened Declining
  import opened Admission

  // ---------------------------------------------------------------- indices

  /** An index below the declared count, or the receiver's limit where none is declared, and below the room. */
  predicate IndexFits(cap: int, dynCap: int, destCap: int, id: nat)
  {
    (cap >= 0 ==> id < cap) && (cap < 0 && dynCap >= 0 ==> id < dynCap) && (destCap >= 0 ==> id < destCap)
  }

  /** Which of them an index that does not fit breaks first. */
  function Tier(cap: int, dynCap: int, id: nat): Refusal
  {
    if cap >= 0 && id >= cap then Invalid
    else if cap < 0 && dynCap >= 0 && id >= dynCap then Limit
    else Argument
  }

  predicate Unstated(cap: int, dynCap: int, destCap: int)
  {
    cap < 0 && dynCap < 0 && destCap < 0
  }

  lemma RefusalIs(cap: int, dynCap: int, destCap: int, id: nat)
    ensures IndexRefusal(id, cap, dynCap, destCap)
            == if Unstated(cap, dynCap, destCap) then Some(Argument)
               else if IndexFits(cap, dynCap, destCap, id) then None else Some(Tier(cap, dynCap, id))
  {
  }

  /** The wire type of a row's own field. */
  function RowTag(r: Read): Wire
  {
    match r
    case ReadUnsigned => Unsigned
    case ReadBool => Unsigned
    case ReadSigned => Signed
    case ReadFloat(_) => Fixlen
    case ReadText(_, _, _) => Fixlen
    case ReadRaw(_) => Fixlen
    case ReadMessage(_) => SequenceStart
    case ReadArray(e, _, _, _) => ArrayTag(e)
    case ReadSpan(e, _) => ArrayTag(e)
  }

  function ArrayTag(e: Elem): Wire
  {
    match e
    case SignedElem => ArraySigned
    case Fp32Elem => ArrayFixlen
    case Fp64Elem => ArrayFixlen
    case _ => ArrayUnsigned
  }

  /** An element of the array by its type: for strings and blobs the subtype counts, for rows the wire type. */
  predicate IsElement(node: Node, h: Header)
    requires !node.Struct?
  {
    match node
    case TextSeq(isString, _, _, _, _, _, _) => h.wire == Fixlen && h.fix == if isString then String else Blob
    case RowSeq(_, _, _, row) => h.wire == RowTag(row)
  }

  predicate IndexIn(node: Node, id: nat)
    requires !node.Struct?
  {
    IndexFits(node.cap, node.dynCap, node.destCap, id)
  }

  /** The gate stops an element whose index does not fit, at its header; another field at such an index is
      no element. */
  lemma GateTable(node: Node, b: seq<byte>, h: Header, n: nat)
    requires !node.Struct? && ReadHeader(OPEN_GATE, b) == FieldAt(h, n, false)
    ensures ReadHeader(GateOf(Live(node)), b)
            == if !IndexIn(node, h.id) && IsElement(node, h) then BadHeader(Tier(node.cap, node.dynCap, h.id)) else FieldAt(h, n, !IndexIn(node, h.id))
  {
    hide Decode, ParseTag, ParseMeta;
  }

  // ---------------------------------------------------------------- runs

  /** A field's header comes next, in an array that is being read. */
  ghost predicate ElementNext(c: Config, s: State, node: Node, b: seq<byte>, h: Header, n: nat)
  {
    && Good(c, s) && s.pend.Idle? && s.path != [] && LevelAt(c.root, s.path) == Live(node) && !node.Struct?
    && ReadHeader(OPEN_GATE, b) == FieldAt(h, n, false) && s.span <= c.cap + s.disc
  }

  lemma ElementRuns(c: Config, s: State, node: Node, b: seq<byte>, h: Header, n: nat)
    requires ElementNext(c, s, node, b, h, n)
    ensures !IndexIn(node, h.id) && IsElement(node, h) ==> Verdict(Run(c, s, b)) == Stopped(Tier(node.cap, node.dynCap, h.id))
    ensures !(!IndexIn(node, h.id) && IsElement(node, h)) ==>
      var (o, a) := (BoundaryStep(c, s, b), if IndexIn(node, h.id) then AnswerTo(Live(node), h) else Decline(false));
      && o == Offer(c, s, h, n, a)
      && (o.Fail? ==> Run(c, s, b) == Failed(o.why, o.at, o.dest))
      && (o.Go? ==> n <= |b| && Good(c, o.next) && Run(c, s, b) == Run(c, o.next, b[n..]))
  {
    hide Run, Good, LevelAt, GateOf, AnswerTo, Offer, BoundaryStep, ReadHeader, IndexIn, IsElement;
    NotNothing(b);
    GateTable(node, b, h, n);
    GatedStep(c, s, node, b);
    BoundaryFollows(c, s, b);
    var o := BoundaryStep(c, s, b);
    if o.Go? { LeadsRun(c, s, b, o.next, o.size); }
  }

  lemma GatedStep(c: Config, s: State, node: Node, b: seq<byte>)
    requires s.path != [] && LevelAt(c.root, s.path) == Live(node) && b != [] && s.span <= c.cap + s.disc
    ensures var (o, r) := (BoundaryStep(c, s, b), ReadHeader(GateOf(Live(node)), b));
            && (r.BadHeader? ==> o == Fail(r.why, {}, s.dest))
            && (r.FieldAt? ==> o == Offer(c, s, r.header, r.size, if r.notElement then Decline(false) else AnswerTo(Live(node), r.header)))
  {
    assert !Exceeds(c.cap, SpanLive(s.span, s.disc), 0);
    hide LevelAt, GateOf, ReadHeader, AnswerTo, Offer, EndLevel, SpanLive, Exceeds;
  }

  /** The element has its place and is read. */
  ghost predicate ElementReads(c: Config, s: State, b: seq<byte>, h: Header, n: nat, r: Read)
  {
    && BoundaryStep(c, s, b).Go? && n <= |b| &&
    var (t, here) := (BoundaryStep(c, s, b).next, Ids(s.path));
    && Good(c, t) && Run(c, s, b) == Run(c, t, b[n..])
    && t.dest == Started(r, h, Place(s.dest, here, h.id), here + [h.id])
    && if r.ReadMessage? then t.path == s.path + [Frame(h.id, false)] && t.pend.Idle?
       else t.path == s.path && t.pend == if ReadUnits(r, h) == 0 then Idle else Busy(h, false, 0, ACCEPT)
  }

  /** The field is walked; where a row of the array's wire type has another subtype, its place was made. */
  ghost predicate ElementWalks(c: Config, s: State, b: seq<byte>, h: Header, n: nat, placed: bool)
  {
    && BoundaryStep(c, s, b).Go? && n <= |b| &&
    var (t, here) := (BoundaryStep(c, s, b).next, Ids(s.path));
    && Good(c, t) && Run(c, s, b) == Run(c, t, b[n..])
    && t.dest == (if placed then Place(s.dest, here, h.id) else s.dest)
    && if h.wire == SequenceStart then t.path == s.path + [Frame(h.id, true)] && t.pend.Idle?
       else t.path == s.path && t.pend == if SkipUnits(h) == 0 then Idle else Busy(h, true, 0, ACCEPT)
  }

  /** An array of strings or blobs, case by case: over an index bound the tier of that bound; without a bound
      for its elements or for its indices the call was wrong; over the elements' declared bound malformed, over
      the receiver's a limit; without room the call was wrong; any other field walked; and else it is read. */
  lemma TextElement(c: Config, s: State, node: Node, b: seq<byte>, h: Header, n: nat)
    requires ElementNext(c, s, node, b, h, n) && node.TextSeq?
    ensures var m := if node.maxlen >= 0 then node.maxlen else node.elemDynCap;
            var (fits, elem, o) := (IndexIn(node, h.id), IsElement(node, h), Run(c, s, b));
            && (elem && !fits ==> Verdict(o) == Stopped(Tier(node.cap, node.dynCap, h.id)))
            && (fits && m < 0 ==> Verdict(o) == Stopped(Argument))
            && (elem && fits && 0 <= m < h.len ==> Verdict(o) == Stopped(if node.maxlen >= 0 then Invalid else Limit))
            && (elem && fits && h.len <= m && Unstated(node.cap, node.dynCap, node.destCap) ==> Verdict(o) == Stopped(Argument))
            && (elem && fits && h.len <= m && !Unstated(node.cap, node.dynCap, node.destCap) && h.len > node.room ==> Verdict(o) == Stopped(Argument))
            && (elem && fits && h.len <= m && !Unstated(node.cap, node.dynCap, node.destCap) && h.len <= node.room ==>
                  ElementReads(c, s, b, h, n, ReadText(node.isString, if node.maxlen >= 0 then Declared(m) else Capped(m), node.room)))
            && (!elem && (fits ==> m >= 0) && h.wire != SequenceStart ==> ElementWalks(c, s, b, h, n, false))
  {
    RefusalIs(node.cap, node.dynCap, node.destCap, h.id);
    hide Run, LevelAt, Good, ReadHeader, BoundaryStep, IndexRefusal, Toll, Started, SkipUnits, IndexFits, Unstated, Tier;
    ElementRuns(c, s, node, b, h, n);
  }

  /** The row's own read would be refused for want of a bound, or for its size. */
  predicate RowBroken(row: Read, h: Header)
  {
    HasBound(row) && (row.bound.max < 0 || (Tagged(row, h) && (SizeOf(row, h) > row.bound.max || SizeOf(row, h) > row.room)))
  }

  function RowTier(row: Read, h: Header): Refusal
    requires RowBroken(row, h)
  {
    if row.bound.max < 0 then Argument
    else if SizeOf(row, h) > row.bound.max then if row.bound.Declared? then Invalid else Limit
    else Argument
  }

  lemma RowAnswer(node: Node, h: Header)
    requires node.RowSeq?
    ensures AnswerTo(Live(node), h)
            == if !IsElement(node, h) then Decline(false)
               else if Unstated(node.cap, node.dynCap, node.destCap) then Refuse(Argument, false)
               else if !IndexIn(node, h.id) then Refuse(Tier(node.cap, node.dynCap, h.id), false)
               else if RowBroken(node.row, h) then Refuse(RowTier(node.row, h), true)
               else if Tagged(node.row, h) then Take(node.row, true)
               else Decline(true)
  {
    RefusalIs(node.cap, node.dynCap, node.destCap, h.id);
    TaggedIs(node.row, h);
    RowWireIs(node.row);
    hide IndexRefusal, IndexFits, Unstated, Tier, Tagged, TagMatches, RowTag, RowWire;
  }

  /** An array of rows, case by case. */
  lemma RowElement(c: Config, s: State, node: Node, b: seq<byte>, h: Header, n: nat)
    requires ElementNext(c, s, node, b, h, n) && node.RowSeq? && |s.path| < 255
    ensures var (fits, elem, o) := (IndexIn(node, h.id), IsElement(node, h), Run(c, s, b));
            && (elem && !fits ==> Verdict(o) == Stopped(Tier(node.cap, node.dynCap, h.id)))
            && (elem && fits && Unstated(node.cap, node.dynCap, node.destCap) ==> Verdict(o) == Stopped(Argument))
            && (elem && fits && !Unstated(node.cap, node.dynCap, node.destCap) ==>
                  && (RowBroken(node.row, h) ==> Verdict(o) == Stopped(RowTier(node.row, h)))
                  && (!RowBroken(node.row, h) && Tagged(node.row, h) ==> ElementReads(c, s, b, h, n, node.row))
                  && (!RowBroken(node.row, h) && !Tagged(node.row, h) ==> ElementWalks(c, s, b, h, n, true)))
            && (!elem ==> ElementWalks(c, s, b, h, n, false))
  {
    hide Run, LevelAt, Good, ReadHeader, BoundaryStep, Toll, Started, SkipUnits, IndexFits, Unstated, Tier, Tagged, AnswerTo, RowBroken, RowTier, IsElement, IndexIn, Place;
    RowAnswer(node, h);
    ElementRuns(c, s, node, b, h, n);
  }

  lemma RowWireIs(r: Read)
    ensures RowWire(r) == RowTag(r)
  {
  }

  /** The index gate speaks at the tag, before a count or a payload has come. */
  lemma TagStops(c: Config, s: State, node: Node, b: seq<byte>, v: u64, n: nat)
    requires Good(c, s) && s.pend.Idle? && s.path != [] && LevelAt(c.root, s.path) == Live(node) && !node.Struct? && s.span <= c.cap + s.disc
    requires Decode(b) == Got(v, n) && v / 8 <= 0x7fff_ffff && v % 8 != 7 && v % 8 != 2
    requires node.RowSeq? && WireOf(v % 8) == RowTag(node.row) && !IndexIn(node, v / 8)
    ensures Verdict(Run(c, s, b)) == Stopped(Tier(node.cap, node.dynCap, v / 8))
  {
    RowWireIs(node.row);
    GateAtTag(node, b, v, n);
    assert b != [];
    hide Run, Good, LevelAt, GateOf, ReadHeader, BoundaryStep, Decode;
    GatedStep(c, s, node, b);
    BoundaryFollows(c, s, b);
  }

  lemma GateAtTag(node: Node, b: seq<byte>, v: u64, n: nat)
    requires !node.Struct? && Decode(b) == Got(v, n) && v / 8 <= 0x7fff_ffff && v % 8 != 7 && v % 8 != 2
    requires node.RowSeq? && WireOf(v % 8) == RowWire(node.row) && !IndexIn(node, v / 8)
    ensures ReadHeader(GateOf(Live(node)), b) == BadHeader(Tier(node.cap, node.dynCap, v / 8))
  {
    hide Decode;
  }
}
