/** Wrapper arrays: a sequence whose field ids are indices. Its length is the highest accepted
    index plus one, and what is no element of it leaves it alone, with one exception. */
module Collectors {
  import opened Varint
  import opened WireFormat
  import opened Handlers
  import opened Destination
  import opened Utf8
  import opened Machine
  import opened Progress
  import opened Levels
  import opened Parser
  import opened Framing
  import opened Verdicts
  import opened Declining
  import opened Histories
  import opened Containers

  predicate Wrapper(node: Node)
  {
    !node.Struct?
  }

  // ---------------------------------------------------------------- what extends the container

  /** The subtype a row read asks for, where its wire type leaves one open. */
  function RowFix(row: Read): Option<Fix>
  {
    match row
    case ReadFloat(f) => Some(f)
    case ReadText(isString, _, _) => Some(TextFix(isString))
    case ReadRaw(_) => Some(Blob)
    case ReadArray(e, _, _, _) => if e == Fp32Elem then Some(Fp32) else if e == Fp64Elem then Some(Fp64) else None
    case ReadSpan(e, _) => if e == Fp32Elem then Some(Fp32) else if e == Fp64Elem then Some(Fp64) else None
    case _ => None
  }

  /** A row read the schema can state: floats are floats, and a bounded read has a bound. */
  predicate Sound(row: Read)
  {
    && (row.ReadFloat? ==> row.fix == Fp32 || row.fix == Fp64)
    && (row.ReadText? || row.ReadArray? ==> row.bound.max >= 0)
  }

  /** The promise: a field that is declined for its tag never extends the container. It holds for
      string and blob arrays, and for rows of messages and integers; it fails for a row whose wire
      type leaves a subtype open, exactly when the subtype is the wrong one. */
  lemma DeclinedYetPlaced(node: Node, h: Header)
    requires Wrapper(node) && (node.RowSeq? ==> Sound(node.row))
    ensures AnswerTo(Live(node), h) == Decline(true) <==>
      && node.RowSeq? && h.wire == RowWire(node.row) && RowFix(node.row).Some? && h.fix != RowFix(node.row).value
      && IndexRefusal(h.id, node.cap, node.dynCap, node.destCap).None?
  {
    hide IndexRefusal;
  }

  /** A refused index never extends it either: no element is placed that its bounds do not admit. */
  lemma PlacedIsAdmitted(node: Node, h: Header)
    requires Wrapper(node) && AnswerTo(Live(node), h).placed
    ensures IndexRefusal(h.id, node.cap, node.dynCap, node.destCap).None?
    ensures node.cap >= 0 ==> h.id < node.cap
    ensures node.destCap >= 0 ==> h.id < node.destCap
    ensures node.cap < 0 && node.dynCap >= 0 ==> h.id < node.dynCap
  {
  }

  /** Every accepted element is placed, so its slot exists before it is read. */
  lemma TakenIsPlaced(node: Node, h: Header)
    requires Wrapper(node) && AnswerTo(Live(node), h).Take?
    ensures AnswerTo(Live(node), h).placed
  {
  }

  /** The field offered to a wrapper level: the container's length is raised to its index plus one
      just when the level answers with its place. */
  lemma OfferedLength(c: Config, s: State, h: Header, n: nat, a: Answer)
    requires Offer(c, s, h, n, a).Go?
    ensures var t := Offer(c, s, h, n, a).next;
            LengthAt(t.dest, Ids(s.path)) == if a.placed then Max(LengthAt(s.dest, Ids(s.path)), h.id + 1) else LengthAt(s.dest, Ids(s.path))
  {
    var d := PlaceIf(a.placed, s.dest, Ids(s.path), h.id);
    var key := Ids(s.path) + [h.id];
    if a.Take? {
      StartedKeeps(a.read, h, d, key);
      StartedLength(a.read, h, d, Ids(s.path), key);
    }
    hide Started, Toll;
  }

  lemma StartedLength(r: Read, h: Header, d: Dest, here: Path, key: Path)
    requires |key| == |here| + 1 && here <= key
    ensures LengthAt(Started(r, h, d, key), here) == LengthAt(d, here)
  {
    assert !(key <= here);
    hide TextAt, ItemsAt, Resize;
  }

  // ---------------------------------------------------------------- the length of a decoded array

  /** Where the schema has a message or an array: the handler that is entered there. */
  function NodeOn(n: Node, k: Path): Option<Node>
    decreases |k|
  {
    if k == [] then Some(n)
    else
      match n
      case Struct(fields) => if k[0] in fields && fields[k[0]].ReadMessage? then NodeOn(fields[k[0]].node, k[1..]) else None
      case RowSeq(_, _, _, row) => if row.ReadMessage? then NodeOn(row.node, k[1..]) else None
      case TextSeq(_, _, _, _, _, _, _) => None
  }

  lemma TakenNode(n: Node, h: Header, k: Path)
    requires k != [] && k[0] == h.id && NodeOn(n, k).Some? && AnswerTo(Live(n), h).Take?
    ensures var r := AnswerTo(Live(n), h).read; r.ReadMessage? && NodeOn(r.node, k[1..]) == NodeOn(n, k)
  {
  }

  /** No value is stored where an array or a message stands. */
  lemma {:induction false} NoValueThere(n: Node, g: Gate, k: Path, b: seq<byte>)
    requires NodeOn(n, k).Some?
    ensures Event.Stored !in History(n, g, k, b)
    decreases |b|, 0
  {
    hide ReadHeader, FieldSize, FieldHistory;
    var r := ReadHeader(g, b);
    if r.FieldAt? && FieldSize(b).Some? {
      NoValueIn(n, r.header, r.notElement, k, b[r.size..]);
      NoValueThere(n, g, k, b[FieldSize(b).value..]);
    }
  }

  lemma {:induction false} NoValueIn(n: Node, h: Header, notElement: bool, k: Path, rest: seq<byte>)
    requires NodeOn(n, k).Some?
    ensures Event.Stored !in FieldHistory(n, h, notElement, k, rest)
    decreases |rest|, 1
  {
    hide AnswerTo, NodeOn, History;
    var a := if notElement then Decline(false) else AnswerTo(Live(n), h);
    if k != [] && h.id == k[0] && a.Take? {
      TakenNode(n, h, k);
      NoValueThere(a.read.node, GateOf(Live(a.read.node)), k[1..], rest);
    }
  }

  /** The length a history leaves: one more than the highest index placed since the array last began. */
  function LengthAfter(es: seq<Event>, before: nat): nat
    decreases |es|
  {
    if es == [] then before
    else
      match es[0]
      case Placed(id) => LengthAfter(es[1..], Max(before, id + 1))
      case _ => LengthAfter(es[1..], 0)
  }

  lemma {:induction false} ComesLength(v: Option<Leaf>, es: seq<Event>, w: Option<Leaf>)
    requires Comes(v, es, w) && Event.Stored !in es
    ensures LengthOf(w) == LengthAfter(es, LengthOf(v))
    decreases |es|
  {
    if es != [] {
      match es[0]
      case Cleared => ComesLength(None, es[1..], w);
      case Begun => ComesLength(Some(Length(0)), es[1..], w);
      case Placed(id) => ComesLength(Some(Length(Max(LengthOf(v), id + 1))), es[1..], w);
      case Stored =>
    }
  }

  /** Whatever bytes a decode accepts: an array, however deep in the message, is as long as the highest
      index that was given a place since the array last began, plus one; and zero if none was. */
  lemma DecodedLength(c: Config, b: seq<byte>, k: Path)
    requires Verdict(Run(c, START, b)) == Complete && NodeOn(c.root, k).Some?
    ensures LengthAt(Run(c, START, b).state.dest, k) == LengthAfter(History(c.root, OPEN_GATE, k, b), 0)
  {
    hide Run, History, Comes;
    DecodeComes(c, b, k);
    NoValueThere(c.root, OPEN_GATE, k, b);
    ComesLength(None, History(c.root, OPEN_GATE, k, b), LeafAt(Run(c, START, b).state.dest, k));
  }

  // ---------------------------------------------------------------- one array

  /** The indices that are given a place among the fields of an array, in order. */
  function PlacedIds(n: Node, g: Gate, b: seq<byte>): seq<nat>
    decreases |b|
  {
    match ReadHeader(g, b)
    case FieldAt(h, _, notElement) =>
      (match FieldSize(b)
       case Some(m) => (if !notElement && AnswerTo(Live(n), h).placed then [h.id] else []) + PlacedIds(n, g, b[m..])
       case None => [])
    case _ => []
  }

  function Highest(ids: seq<nat>): nat
  {
    if ids == [] then 0 else Max(ids[0] + 1, Highest(ids[1..]))
  }

  /** It is a maximum. */
  lemma {:induction false} HighestIs(ids: seq<nat>)
    ensures Highest(ids) == 0 <==> ids == []
    ensures ids != [] ==> Highest(ids) - 1 in ids
    ensures forall id <- ids :: id < Highest(ids)
    decreases |ids|
  {
    if ids != [] {
      HighestIs(ids[1..]);
      assert ids[0] in ids;
      forall id | id in ids ensures id < Highest(ids) { assert id == ids[0] || id in ids[1..]; }
    }
  }

  function PlacedEvents(ids: seq<nat>): (es: seq<Event>)
    ensures |es| == |ids|
  {
    seq(|ids|, i requires 0 <= i < |ids| => Placed(ids[i]))
  }

  /** At the array's own place its elements are placed, and nothing else happens. */
  lemma {:induction false} ArrayHistory(n: Node, g: Gate, b: seq<byte>)
    ensures History(n, g, [], b) == PlacedEvents(PlacedIds(n, g, b))
    decreases |b|
  {
    hide ReadHeader, FieldSize, AnswerTo;
    var r := ReadHeader(g, b);
    if r.FieldAt? && FieldSize(b).Some? { ArrayHistory(n, g, b[FieldSize(b).value..]); }
  }

  lemma {:induction false} PlacedLength(ids: seq<nat>, before: nat)
    ensures LengthAfter(PlacedEvents(ids), before) == Max(before, Highest(ids))
    decreases |ids|
  {
    if ids != [] {
      assert PlacedEvents(ids)[1..] == PlacedEvents(ids[1..]);
      PlacedLength(ids[1..], Max(before, ids[0] + 1));
    }
  }

  /** A whole array of whatever bytes: declined, mistyped and unplaced elements included, its length is
      what it was or the highest placed index plus one, and the decode runs on behind it. */
  lemma LevelLength(c: Config, s: State, n: Node, b: seq<byte>)
    requires Good(c, s) && s.pend.Idle? && s.path != [] && LevelAt(c.root, s.path) == Live(n) && ParseLevel(c, s, b).Whole?
    ensures var o := ParseLevel(c, s, b);
            && LengthAt(o.next.dest, Ids(s.path)) == Max(LengthAt(s.dest, Ids(s.path)), Highest(PlacedIds(n, GateOf(Live(n)), b)))
            && Run(c, s, b) == Run(c, o.next, o.rest)
  {
    hide Good, Run, ParseLevel, History, LevelAt, Comes, PlacedIds, LengthAfter, Highest;
    var (es, here) := (History(n, GateOf(Live(n)), [], b), Ids(s.path));
    assert here + [] == here;
    LevelComes(c, s, n, b, []);
    ArrayHistory(n, GateOf(Live(n)), b);
    PlacedLength(PlacedIds(n, GateOf(Live(n)), b), LengthAt(s.dest, here));
    ComesLength(LeafAt(s.dest, here), es, LeafAt(ParseLevel(c, s, b).next.dest, here));
    LevelFollows(c, s, b);
    FollowsWhole(c, s, b, ParseLevel(c, s, b));
  }

  /** Nothing happens at an index that was not placed, or below it. */
  lemma {:induction false} UnplacedHistory(n: Node, g: Gate, b: seq<byte>, id: nat, tail: Path)
    requires Wrapper(n) && id !in PlacedIds(n, g, b)
    ensures History(n, g, [id] + tail, b) == []
    decreases |b|
  {
    hide ReadHeader, FieldSize, AnswerTo;
    var r := ReadHeader(g, b);
    if r.FieldAt? && FieldSize(b).Some? {
      UnplacedHistory(n, g, b[FieldSize(b).value..], id, tail);
      if AnswerTo(Live(n), r.header).Take? { TakenIsPlaced(n, r.header); }
    }
  }

  /** So what is there stays as it was: the default, in an array that has just begun. */
  lemma UnplacedStays(c: Config, s: State, n: Node, b: seq<byte>, id: nat, tail: Path)
    requires Good(c, s) && s.pend.Idle? && s.path != [] && LevelAt(c.root, s.path) == Live(n) && ParseLevel(c, s, b).Whole?
    requires Wrapper(n) && id !in PlacedIds(n, GateOf(Live(n)), b)
    ensures LeafAt(ParseLevel(c, s, b).next.dest, Ids(s.path) + ([id] + tail)) == LeafAt(s.dest, Ids(s.path) + ([id] + tail))
  {
    hide Good, ParseLevel, History, LevelAt;
    LevelComes(c, s, n, b, [id] + tail);
    UnplacedHistory(n, GateOf(Live(n)), b, id, tail);
  }

  // ---------------------------------------------------------------- what is not there

  /** Can anything be there after the events? */
  function MayHold(es: seq<Event>, before: bool): bool
    decreases |es|
  {
    if es == [] then before else MayHold(es[1..], !es[0].Cleared?)
  }

  lemma {:induction false} ComesHolding(v: Option<Leaf>, es: seq<Event>, w: Option<Leaf>)
    requires Comes(v, es, w) && w.Some?
    ensures MayHold(es, v.Some?)
    decreases |es|
  {
    if es != [] {
      match es[0]
      case Cleared => ComesHolding(None, es[1..], w);
      case Begun => ComesHolding(Some(Length(0)), es[1..], w);
      case Placed(id) => ComesHolding(Some(Length(Max(LengthOf(v), id + 1))), es[1..], w);
      case Stored =>
        var x: Option<Leaf> :| Comes(x, es[1..], w);
        ComesHolding(x, es[1..], w);
        MayHoldMore(es[1..], x.Some?);
    }
  }

  lemma MayHoldMore(es: seq<Event>, before: bool)
    requires MayHold(es, before)
    ensures MayHold(es, true)
    decreases |es|
  {
  }

  /** Whatever bytes a decode accepts: where nothing was placed or stored since an array around it last
      began, or ever, the destination holds nothing: the default. */
  lemma AbsentIsDefault(c: Config, b: seq<byte>, k: Path)
    requires Verdict(Run(c, START, b)) == Complete && !MayHold(History(c.root, OPEN_GATE, k, b), false)
    ensures k !in Run(c, START, b).state.dest
  {
    hide Run, History, Comes;
    DecodeComes(c, b, k);
    if k in Run(c, START, b).state.dest { ComesHolding(None, History(c.root, OPEN_GATE, k, b), LeafAt(Run(c, START, b).state.dest, k)); }
  }

  /** What one array field does: its array begins, its placed indices are placed, and an index that
      was not placed is cleared. */
  lemma ArrayField(n: Node, h: Header, rest: seq<byte>, id: nat, tail: Path)
    requires AnswerTo(Live(n), h).Take? && AnswerTo(Live(n), h).read.ReadMessage? && Wrapper(AnswerTo(Live(n), h).read.node)
    ensures var child := AnswerTo(Live(n), h).read.node;
            var ids := PlacedIds(child, GateOf(Live(child)), rest);
            && FieldHistory(n, h, false, [h.id], rest) == [Begun] + PlacedEvents(ids)
            && (id !in ids ==> FieldHistory(n, h, false, [h.id, id] + tail, rest) == [Cleared])
  {
    hide AnswerTo, History, PlacedIds, GateOf;
    var child := AnswerTo(Live(n), h).read.node;
    ArrayHistory(child, GateOf(Live(child)), rest);
    assert [h.id][1..] == [] && ([h.id, id] + tail)[1..] == [id] + tail;
    if id !in PlacedIds(child, GateOf(Live(child)), rest) { UnplacedHistory(child, GateOf(Live(child)), rest, id, tail); }
  }

  // ---------------------------------------------------------------- where the promise fails

  const FLOAT_ROWS := RowSeq(4, -1, -1, ReadArray(Fp32Elem, Declared(8), Unarmed, 8))

  const FLOAT_ROWS_SCHEMA := Config(Struct(map[7 := ReadMessage(FLOAT_ROWS)]), 64)

  /** Sequence 7, in it at index 2 an array of one double, and the sequence's end. */
  const DOUBLE_ROW: seq<byte> := [62, 21, 1, 65, 0, 0, 0, 0, 0, 0, 0, 0, 7]

  lemma SmallVarint(b: seq<byte>)
    requires b != [] && b[0] < 128
    ensures Decode(b) == Got(b[0], 1)
  {
  }

  lemma SmallTag(b: seq<byte>)
    requires b != [] && b[0] < 128
    ensures ParseTag(b) == TagIs(b[0] / 8, WireOf(b[0] % 8), 1)
  {
    hide Decode;
    SmallVarint(b);
  }

  lemma RowMeta(b: seq<byte>)
    requires |b| > 2 && b[0] == 1 && b[1] == 65
    ensures ParseMeta(ArrayFixlen, b) == MetaIs(Fp64, 8, 1, 2)
  {
    hide Decode;
    SmallVarint(b);
    SmallVarint(b[1..]);
  }

  lemma ReadsField(g: Gate, b: seq<byte>, id: nat, w: Wire, m: Meta)
    requires ParseTag(b) == TagIs(id, w, 1) && w != SequenceEnd && ParseMeta(w, b[1..]) == m && m.MetaIs? && (g.bound < 0 || id < g.bound)
    ensures ReadHeader(g, b) == FieldAt(Header(id, w, m.fix, m.len, m.count), 1 + m.size, false)
  {
    hide ParseTag, ParseMeta;
  }

  lemma ReadsEnd(g: Gate, b: seq<byte>, id: nat)
    requires ParseTag(b) == TagIs(id, SequenceEnd, 1)
    ensures ReadHeader(g, b) == LevelEnd(1)
  {
    hide ParseTag, ParseMeta;
  }

  lemma DoubleRowHeaders()
    ensures ReadHeader(OPEN_GATE, DOUBLE_ROW) == FieldAt(SequenceHeader(7), 1, false)
    ensures ReadHeader(GateOf(Live(FLOAT_ROWS)), DOUBLE_ROW[1..]) == FieldAt(Header(2, ArrayFixlen, Fp64, 8, 1), 3, false)
    ensures ReadHeader(GateOf(Live(FLOAT_ROWS)), [7]) == LevelEnd(1)
  {
    hide ReadHeader, ParseTag;
    SmallTag(DOUBLE_ROW);
    ReadsField(OPEN_GATE, DOUBLE_ROW, 7, SequenceStart, MetaIs(Fp32, 0, 0, 0));
    SmallTag(DOUBLE_ROW[1..]);
    RowMeta(DOUBLE_ROW[1..][1..]);
    ReadsField(GateOf(Live(FLOAT_ROWS)), DOUBLE_ROW[1..], 2, ArrayFixlen, MetaIs(Fp64, 8, 1, 2));
    SmallTag([7]);
    ReadsEnd(GateOf(Live(FLOAT_ROWS)), [7], 0);
  }

  const BEGUN_ROWS := State([Frame(7, false)], Idle, map[[7] := Length(0)], 1, 0)

  lemma RowsBegin()
    ensures BoundaryStep(FLOAT_ROWS_SCHEMA, START, DOUBLE_ROW) == Go(BEGUN_ROWS, 1)
  {
    hide BoundaryStep, ReadHeader, AnswerTo, Prepare, OfferField, TakeField, LevelAt;
    var c := FLOAT_ROWS_SCHEMA;
    DoubleRowHeaders();
    RowsTaken();
    assert CapAllows(c, START) && HeaderAt(c, START, DOUBLE_ROW) == FieldAt(SequenceHeader(7), 1, false);
    BoundaryReads(c, START, DOUBLE_ROW);
    AnsweredOffer(c, START, SequenceHeader(7), 1, false);
    SequenceEntered(START, FLOAT_ROWS, 7, 1, map[]);
  }

  lemma SequenceEntered(s: State, node: Node, id: nat, n: nat, d: Dest)
    requires s.pend.Idle? && s.path == []
    ensures TakeField(s, ReadMessage(node), SequenceHeader(id), n, d)
            == Go(State([Frame(id, false)], Idle, Prepare(node, d, [id]), s.span + n, s.disc), n)
  {
    hide Prepare;
    assert Ids(s.path) + [id] == [id] && s.path + [Frame(id, false)] == [Frame(id, false)];
  }

  lemma RowsTaken()
    ensures LevelAt(FLOAT_ROWS_SCHEMA.root, []) == Live(FLOAT_ROWS_SCHEMA.root)
    ensures AnswerTo(Live(FLOAT_ROWS_SCHEMA.root), SequenceHeader(7)) == Take(ReadMessage(FLOAT_ROWS), false)
    ensures Prepare(FLOAT_ROWS, map[], [7]) == map[[7] := Length(0)]
  {
  }

  /** The row is declined, for its subtype, after its place was made. */
  lemma RowDeclined()
    ensures AnswerTo(Live(FLOAT_ROWS), Header(2, ArrayFixlen, Fp64, 8, 1)) == Decline(true)
    ensures var o := BoundaryStep(FLOAT_ROWS_SCHEMA, BEGUN_ROWS, DOUBLE_ROW[1..]);
            && o.Go? && o.size == 3 && o.next.path == BEGUN_ROWS.path && o.next.dest == map[[7] := Length(3)] && o.next.span == 4
            && o.next.pend == Busy(Header(2, ArrayFixlen, Fp64, 8, 1), true, 0, ACCEPT)
  {
    hide ReadHeader;
    DoubleRowHeaders();
    RowsLevel();
    assert Ids(BEGUN_ROWS.path) == [7];
    hide LevelAt, GateOf;
  }

  lemma RowsLevel()
    ensures LevelAt(FLOAT_ROWS_SCHEMA.root, BEGUN_ROWS.path) == Live(FLOAT_ROWS)
  {
    assert BEGUN_ROWS.path[..0] == [];
  }

  lemma RowSkipped(t: State)
    requires t.pend == Busy(Header(2, ArrayFixlen, Fp64, 8, 1), true, 0, ACCEPT)
    ensures ParsePayload(FLOAT_ROWS_SCHEMA, t, [0, 0, 0, 0, 0, 0, 0, 0, 7]) == Whole(Past(t, 8, t.dest), [7])
  {
    assert [0, 0, 0, 0, 0, 0, 0, 0, 7][8..] == [7];
    hide Toll;
  }

  lemma RowStepped()
    ensures var o := ParseField(FLOAT_ROWS_SCHEMA, BEGUN_ROWS, DOUBLE_ROW[1..]);
            o.Whole? && o.rest == [7] && At(o.next, BEGUN_ROWS.path) && o.next.dest == map[[7] := Length(3)] && o.next.span == 12
    ensures !EndsHere(FLOAT_ROWS_SCHEMA, BEGUN_ROWS, DOUBLE_ROW[1..])
  {
    hide BoundaryStep, Toll, ParsePayload;
    RowDeclined();
    assert DOUBLE_ROW[1..][3..] == [0, 0, 0, 0, 0, 0, 0, 0, 7];
    RowSkipped(BoundaryStep(FLOAT_ROWS_SCHEMA, BEGUN_ROWS, DOUBLE_ROW[1..]).next);
  }

  lemma RowsEnd(s: State)
    requires At(s, BEGUN_ROWS.path) && s.dest == map[[7] := Length(3)] && s.span <= 64
    ensures var o := ParseLevel(FLOAT_ROWS_SCHEMA, s, [7]); o.Whole? && o.rest == [] && At(o.next, []) && o.next.dest == s.dest
  {
    hide ReadHeader, Toll;
    DoubleRowHeaders();
    RowsLevel();
    hide LevelAt, GateOf;
    assert s.path[..0] == [];
  }

  /** The promise that a field skipped for its tag is never an element, broken: rows of floats are
      declared, a row of doubles comes, the decode is complete, and the array it was no element of
      has grown to hold it. */
  lemma WrongFloatRow()
    ensures var o := Run(FLOAT_ROWS_SCHEMA, START, DOUBLE_ROW);
            Verdict(o) == Complete && LengthAt(o.state.dest, [7]) == 3 && forall k <- o.state.dest :: k == [7]
    ensures AnswerTo(Live(FLOAT_ROWS), Header(2, ArrayFixlen, Fp64, 8, 1)) == Decline(true)
  {
    hide BoundaryStep, EndsHere, Run, AnswerTo;
    RowsBegin();
    RowDeclined();
    RowStepped();
    var o := ParseField(FLOAT_ROWS_SCHEMA, BEGUN_ROWS, DOUBLE_ROW[1..]);
    RowsEnd(o.next);
    var c := FLOAT_ROWS_SCHEMA;
    assert ParseLevel(c, BEGUN_ROWS, DOUBLE_ROW[1..]) == ParseLevel(c, o.next, [7]);
    assert ParseField(c, START, DOUBLE_ROW) == ParseLevel(c, BEGUN_ROWS, DOUBLE_ROW[1..]);
    assert ParseMessage(c, START, DOUBLE_ROW) == Accepted(map[[7] := Length(3)]);
    OneShot(c, DOUBLE_ROW);
  }
}
