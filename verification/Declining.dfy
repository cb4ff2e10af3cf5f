/** A receiver that declines fields another receiver reads, at any depth and any number of them,
    still ends with the other's values for the fields it does read. */
module Declining {
  import opened Varint
  import opened WireFormat
  import opened Handlers
  import opened Destination
  import opened Utf8
  import opened Machine
  import opened Progress
  import opened Levels
  import opened Parser
  import opened Framing
  import opened Verdicts

  // ---------------------------------------------------------------- schemas with less in them

  /** `n2` reads what `n1` reads, less some fields of some structs. */
  ghost predicate TrimsNode(n2: Node, n1: Node)
    decreases n2
  {
    match n2
    case Struct(fields) => n1.Struct? && forall id <- fields :: id in n1.fields && Trims(fields[id], n1.fields[id])
    case TextSeq(_, _, _, _, _, _, _) => n1 == n2
    case RowSeq(cap, dynCap, destCap, row) =>
      n1.RowSeq? && n1.cap == cap && n1.dynCap == dynCap && n1.destCap == destCap && Trims(row, n1.row)
  }

  ghost predicate Trims(r2: Read, r1: Read)
    decreases r2
  {
    if r2.ReadMessage? then r1.ReadMessage? && TrimsNode(r2.node, r1.node) else r1 == r2
  }

  /** Is there a place for `k` in the storage of a schema? */
  predicate HasPlace(n: Node, k: Path)
    decreases |k|
  {
    k == [] ||
    match n
    case Struct(fields) => k[0] in fields && (fields[k[0]].ReadMessage? ==> HasPlace(fields[k[0]].node, k[1..]))
    case TextSeq(_, _, _, _, _, _, _) => true
    case RowSeq(_, _, _, row) => row.ReadMessage? ==> HasPlace(row.node, k[1..])
  }

  lemma {:induction false} KeptPrefix(n: Node, k: Path, tail: Path)
    requires HasPlace(n, k + tail)
    ensures HasPlace(n, k)
    decreases |k|
  {
    if k != [] {
      assert (k + tail)[1..] == k[1..] + tail;
      match n
      case Struct(fields) => if fields[k[0]].ReadMessage? { KeptPrefix(fields[k[0]].node, k[1..], tail); }
      case RowSeq(_, _, _, row) => if row.ReadMessage? { KeptPrefix(row.node, k[1..], tail); }
      case _ =>
    }
  }

  /** What of a destination a schema has a place for. */
  function Restrict(d: Dest, n: Node): Dest
  {
    map k | k in d && HasPlace(n, k) :: d[k]
  }

  lemma RestrictKept(d: Dest, n: Node, key: Path, leaf: Leaf)
    requires HasPlace(n, key)
    ensures Restrict(d[key := leaf], n) == Restrict(d, n)[key := leaf]
    ensures key in d <==> key in Restrict(d, n)
    ensures key in d ==> d[key] == Restrict(d, n)[key]
  {
    hide HasPlace;
  }

  /** Only what is at `key` differs. */
  predicate OnlyAt(d: Dest, e: Dest, key: Path)
  {
    d - {key} == e - {key}
  }

  lemma RestrictLost(d: Dest, e: Dest, n: Node, key: Path)
    requires OnlyAt(d, e, key) && !HasPlace(n, key)
    ensures Restrict(d, n) == Restrict(e, n)
  {
    hide HasPlace;
    var (f, g) := (d - {key}, e - {key});
    forall k | HasPlace(n, k) ensures (k in d <==> k in e) && (k in d ==> d[k] == e[k])
    {
      assert (k in f <==> k in d) && (k in g <==> k in e);
      assert k in f ==> f[k] == d[k];
      assert k in g ==> g[k] == e[k];
    }
  }

  lemma PlaceKept(d: Dest, n: Node, here: Path, id: nat)
    requires HasPlace(n, here)
    ensures Restrict(Place(d, here, id), n) == Place(Restrict(d, n), here, id)
  {
    RestrictKept(d, n, here, Length(id + 1));
    hide HasPlace, Restrict;
  }

  lemma PrepareKept(node: Node, d: Dest, n: Node, key: Path)
    requires HasPlace(n, key)
    ensures Restrict(Prepare(node, d, key), n) == Prepare(node, Restrict(d, n), key)
  {
    hide HasPlace;
    if !node.Struct? {
      var e := map k | k in d && !Under(key, k) :: d[k];
      RestrictKept(e, n, key, Length(0));
      assert Restrict(e, n) == map k | k in Restrict(d, n) && !Under(key, k) :: Restrict(d, n)[k];
    }
  }

  lemma StartedKept(r: Read, h: Header, d: Dest, n: Node, key: Path)
    requires HasPlace(n, key)
    ensures Restrict(Started(r, h, d, key), n) == Started(r, h, Restrict(d, n), key)
  {
    hide HasPlace, Prepare, Restrict, Resize;
    match r
    case ReadText(_, _, room) => RestrictKept(d, n, key, Text(TextAt(d, key, room).buf, 0));
    case ReadArray(e, _, _, _) => RestrictKept(d, n, key, Items(Resize(ItemsAt(d, key), h.count, DefaultOf(e))));
    case ReadMessage(node) => PrepareKept(node, d, n, key);
    case _ =>
  }

  /** What starts below a place the schema does not have leaves no trace in it. */
  lemma StartedLost(r: Read, h: Header, d: Dest, n: Node, key: Path)
    requires !HasPlace(n, key)
    ensures Restrict(Started(r, h, d, key), n) == Restrict(d, n)
  {
    forall k | Under(key, k) ensures !HasPlace(n, k)
    {
      assert k == key + k[|key|..];
      if HasPlace(n, k) { KeptPrefix(n, key, k[|key|..]); }
    }
    hide HasPlace, Resize, TextAt, ItemsAt;
  }

  // ---------------------------------------------------------------- payloads

  /** A payload that is taken whole costs its bytes and touches its own leaf; declined, not even that. */
  predicate Spent(s: State, b: seq<byte>, o: Parse)
    requires s.pend.Busy?
  {
    o.Whole? ==>
      && |o.rest| <= |b|
      && o.next == Past(s, |b| - |o.rest|, o.next.dest)
      && OnlyAt(s.dest, o.next.dest, KeyOf(s))
      && (s.pend.skip ==> o.next.dest == s.dest)
  }

  lemma SettledOn(s: State, b: seq<byte>, n: nat, d: Dest, o: Parse)
    requires s.pend.Busy? && n <= |b| && OnlyAt(s.dest, d, KeyOf(s)) && (s.pend.skip ==> d == s.dest)
    requires Spent(Amid(s, n, 1, d, s.pend.utf8), b[n..], o)
    ensures Spent(s, b, o)
  {
    hide OnlyAt;
    if o.Whole? {
      AmidAmid(s, n, 1, d, s.pend.utf8, |b| - n - |o.rest|, 0, o.next.dest, 0);
      OnlyTwice(s.dest, d, o.next.dest, KeyOf(s));
    }
  }

  lemma OnlyTwice(d: Dest, e: Dest, f: Dest, key: Path)
    requires OnlyAt(d, e, key) && OnlyAt(e, f, key)
    ensures OnlyAt(d, f, key)
  {
  }

  lemma {:induction false} VarintsSettled(s: State, b: seq<byte>)
    requires s.pend.Busy? && s.pend.skip
    ensures Spent(s, b, ParseVarints(s, b))
    decreases if s.pend.done < SkipUnits(s.pend.h) then SkipUnits(s.pend.h) - s.pend.done else 0
  {
    hide Decode, SkipUnits, Toll, Spent;
    var x := Decode(b);
    if x.Got? {
      var t := Onward(s, SkipUnits(s.pend.h), x.size, s.dest);
      if t.pend.Busy? {
        VarintsSettled(t, b[x.size..]);
        SettledOn(s, b, x.size, s.dest, ParseVarints(t, b[x.size..]));
      } else {
        SettledNow(s, b, x.size, s.dest);
      }
    } else {
      SettledNot(s, b, ParseVarints(s, b));
    }
  }

  lemma SettledNow(s: State, b: seq<byte>, n: nat, d: Dest)
    requires s.pend.Busy? && n <= |b| && OnlyAt(s.dest, d, KeyOf(s)) && (s.pend.skip ==> d == s.dest)
    ensures Spent(s, b, Whole(Past(s, n, d), b[n..]))
  {
    assert |b| - |b[n..]| == n;
  }

  lemma SettledNot(s: State, b: seq<byte>, o: Parse)
    requires s.pend.Busy? && !o.Whole?
    ensures Spent(s, b, o)
  {
  }

  lemma {:induction false} ItemsSettled(s: State, r: Read, b: seq<byte>)
    requires s.pend.Busy? && !s.pend.skip && (r.ReadArray? || r.ReadSpan?)
    ensures Spent(s, b, ParseItems(s, r, b))
    decreases if s.pend.done < s.pend.h.count then s.pend.h.count - s.pend.done else 0
  {
    hide Decode, Toll, Spent, InRange, IntValue, ItemsOf;
    var w := ElemWidth(r.elem);
    var x := if IsFloat(r.elem) then Got(0, w) else Decode(b);
    if (IsFloat(r.elem) && |b| < w) || !x.Got? || (!IsFloat(r.elem) && !InRange(r.elem, RangeOf(r), x.value)) {
      SettledNot(s, b, ParseItems(s, r, b));
    } else {
      var v := if IsFloat(r.elem) then Bits(b[..w]) else IntValue(r.elem, x.value);
      var d := StoreItem(s.dest, KeyOf(s), ItemsOf(s.dest, KeyOf(s), r), s.pend.done, v);
      var t := ItemStored(s, x.size, r, v);
      if t.pend.Busy? {
        ItemsSettled(t, r, b[x.size..]);
        SettledOn(s, b, x.size, d, ParseItems(t, r, b[x.size..]));
      } else {
        SettledNow(s, b, x.size, d);
      }
    }
  }

  lemma PayloadSettled(c: Config, s: State, b: seq<byte>)
    requires s.pend.Busy?
    ensures Spent(s, b, ParsePayload(c, s, b))
  {
    hide Decode, Toll, IntValue, Utf8.Utf8, Splice, TextAt, RawAt, ReadInHand, ParseItems, ParseVarints;
    if s.pend.skip {
      if VarintPayload(s.pend.h.wire) { VarintsSettled(s, b); }
    } else {
      var a := ReadInHand(c, s);
      if a.Take? && (a.read.ReadArray? || a.read.ReadSpan?) { ItemsSettled(s, a.read, b); }
    }
  }

  /** A declined field whose bytes are all there is stepped over. */
  lemma {:induction false} VarintsSkipped(s: State, b: seq<byte>)
    requires s.pend.Busy? && s.pend.done < SkipUnits(s.pend.h) && VarintsSize(SkipUnits(s.pend.h) - s.pend.done, b).Some?
    ensures ParseVarints(s, b).Whole?
    decreases SkipUnits(s.pend.h) - s.pend.done
  {
    hide Decode, SkipUnits, Toll;
    var x := Decode(b);
    var t := Onward(s, SkipUnits(s.pend.h), x.size, s.dest);
    if t.pend.Busy? { VarintsSkipped(t, b[x.size..]); }
  }

  lemma PayloadSkipped(c: Config, s: State, b: seq<byte>)
    requires Good(c, s) && s.pend.Busy? && s.pend.skip && s.pend.done == 0 && PayloadSize(s.pend.h, b).Some?
    ensures ParsePayload(c, s, b).Whole?
  {
    InHandSkip(c, s);
    hide Good, Decode, Toll, Past;
    if VarintPayload(s.pend.h.wire) { VarintsSkipped(s, b); }
  }

  /** The same field in hand, of destinations that agree where the schema has a place. */
  predicate Twins(s1: State, s2: State, n: Node)
  {
    && s1.pend.Busy? && s1.pend == s2.pend && !s1.pend.skip && Ids(s1.path) == Ids(s2.path)
    && s2.dest == Restrict(s1.dest, n) && HasPlace(n, KeyOf(s1))
  }

  /** What the other does, this one does, with the same bytes and the same values. */
  predicate Twinned(o1: Parse, o2: Parse, n: Node)
  {
    o1.Whole? ==> o2.Whole? && o2.rest == o1.rest && o2.next.dest == Restrict(o1.next.dest, n)
  }

  lemma SameItems(d: Dest, n: Node, key: Path, r: Read, i: nat, v: Value)
    requires HasPlace(n, key) && (r.ReadArray? || r.ReadSpan?)
    ensures ItemsOf(Restrict(d, n), key, r) == ItemsOf(d, key, r)
    ensures Restrict(StoreItem(d, key, ItemsOf(d, key, r), i, v), n) == StoreItem(Restrict(d, n), key, ItemsOf(d, key, r), i, v)
  {
    var items := ItemsOf(d, key, r);
    RestrictKept(d, n, key, Items(if i < |items| then items[i := v] else items));
    hide HasPlace, Restrict, DefaultOf;
  }

  lemma {:induction false} ItemsTwinned(s1: State, s2: State, n: Node, r: Read, b: seq<byte>)
    requires Twins(s1, s2, n) && (r.ReadArray? || r.ReadSpan?)
    ensures Twinned(ParseItems(s1, r, b), ParseItems(s2, r, b), n)
    decreases if s1.pend.done < s1.pend.h.count then s1.pend.h.count - s1.pend.done else 0
  {
    hide Decode, Toll, InRange, IntValue, ItemsOf, HasPlace, Restrict, StoreItem;
    var w := ElemWidth(r.elem);
    var x := if IsFloat(r.elem) then Got(0, w) else Decode(b);
    if (IsFloat(r.elem) && |b| < w) || !x.Got? || (!IsFloat(r.elem) && !InRange(r.elem, RangeOf(r), x.value)) {
    } else {
      var v := if IsFloat(r.elem) then Bits(b[..w]) else IntValue(r.elem, x.value);
      SameItems(s1.dest, n, KeyOf(s1), r, s1.pend.done, v);
      var (t1, t2) := (ItemStored(s1, x.size, r, v), ItemStored(s2, x.size, r, v));
      if t1.pend.Busy? { ItemsTwinned(t1, t2, n, r, b[x.size..]); }
    }
  }

  lemma BytesTwinned(c1: Config, s1: State, c2: Config, s2: State, n: Node, b: seq<byte>)
    requires Twins(s1, s2, n) && ReadInHand(c1, s1).Take? && ReadInHand(c2, s2) == ReadInHand(c1, s1)
    requires ReadInHand(c1, s1).read.ReadText? || ReadInHand(c1, s1).read.ReadRaw?
    ensures Twinned(ParsePayload(c1, s1, b), ParsePayload(c2, s2, b), n)
  {
    var (key, d, h) := (KeyOf(s1), s1.dest, s1.pend.h);
    hide Toll, Utf8.Utf8, Splice, ReadInHand, HasPlace, Restrict;
    match ReadInHand(c1, s1).read
    case ReadText(isString, _, room) =>
      if |b| >= h.len { RestrictKept(d, n, key, Text(Splice(TextAt(d, key, room).buf, 0, b[..h.len]), h.len)); }
    case ReadRaw(room) =>
      if |b| >= h.len { RestrictKept(d, n, key, Raw(Splice(RawAt(d, key, room).buf, 0, b[..h.len]))); }
  }

  lemma PayloadTwinned(c1: Config, s1: State, c2: Config, s2: State, n: Node, b: seq<byte>)
    requires Twins(s1, s2, n) && ReadInHand(c1, s1).Take? && ReadInHand(c2, s2) == ReadInHand(c1, s1)
    ensures Twinned(ParsePayload(c1, s1, b), ParsePayload(c2, s2, b), n)
  {
    hide Decode, Toll, IntValue, ReadInHand, ParseItems, HasPlace, Restrict, ParseText, RawCopied;
    var (r, key, d) := (ReadInHand(c1, s1).read, KeyOf(s1), s1.dest);
    if r.ReadText? || r.ReadRaw? {
      BytesTwinned(c1, s1, c2, s2, n, b);
    } else if r.ReadArray? || r.ReadSpan? {
      ItemsTwinned(s1, s2, n, r, b);
    } else if r.ReadFloat? {
      if |b| >= FloatWidth(r.fix) { RestrictKept(d, n, key, Scalar(Bits(b[..FloatWidth(r.fix)]))); }
    } else if Decode(b).Got? {
      RestrictKept(d, n, key, Scalar(IntValue(ElemOf(r), Decode(b).value)));
    }
  }

  // ---------------------------------------------------------------- levels

  /** Along `p2` whatever `p1` skips is skipped, and possibly more. */
  predicate Lags(p1: seq<Frame>, p2: seq<Frame>)
  {
    && |p1| == |p2|
    && Ids(p1) == Ids(p2)
    && forall i :: 0 <= i < |p1| && p1[i].skip ==> p2[i].skip
  }

  lemma {:induction false} TollLags(p1: seq<Frame>, p2: seq<Frame>, n: nat)
    requires Lags(p1, p2)
    ensures Toll(p1, n) <= Toll(p2, n)
    decreases |p1|
  {
    if p1 != [] {
      assert Ids(p1[..|p1| - 1]) == Ids(p1)[..|p1| - 1] && Ids(p2[..|p2| - 1]) == Ids(p2)[..|p2| - 1];
      TollLags(p1[..|p1| - 1], p2[..|p2| - 1], n);
    }
  }

  /** The storage below `k` is that of a level with handler `n`. */
  ghost predicate Reaches(root: Node, k: Path, n: Node)
  {
    forall tail: Path :: HasPlace(root, k + tail) == HasPlace(n, tail)
  }

  /** A level both read, the second with less; or one the second skips, for which it has no place
      unless the first skips it too. */
  ghost predicate LevelsMatch(root: Node, k: Path, l1: Level, l2: Level)
  {
    match l2
    case Live(n2) => l1.Live? && TrimsNode(n2, l1.node) && Reaches(root, k, n2)
    case Skipped => l1.Skipped? || !HasPlace(root, k)
  }

  /** One answer, but for a message that is read with less in it. */
  ghost predicate Alike(a1: Answer, a2: Answer)
  {
    a1.placed == a2.placed && if a1.Take? && a2.Take? then Trims(a2.read, a1.read) else a1 == a2
  }

  lemma AskAlike(r1: Read, r2: Read, h: Header, placed: bool)
    requires Trims(r2, r1)
    ensures Alike(Ask(r1, h, placed), Ask(r2, h, placed))
  {
    hide TrimsNode;
  }

  /** What two handlers that match make of a field: the same, or the second declines what it
      has no place for. */
  lemma AnswersMatch(root: Node, k: Path, l1: Level, l2: Level, h: Header)
    requires LevelsMatch(root, k, l1, l2)
    ensures var (a1, a2) := (AnswerTo(l1, h), AnswerTo(l2, h));
            || (l2.Live? && Alike(a1, a2))
            || (a2 == Decline(false) && !HasPlace(root, k + [h.id]) && (a1.placed ==> !HasPlace(root, k)))
            || a1 == a2 == Decline(false)
  {
    var (a1, a2) := (AnswerTo(l1, h), AnswerTo(l2, h));
    match l2
    case Live(Struct(fields)) =>
      if h.id in fields {
        AskAlike(l1.node.fields[h.id], fields[h.id], h, false);
      } else {
        assert HasPlace(root, k + [h.id]) == HasPlace(l2.node, [h.id]);
      }
    case Live(RowSeq(_, _, _, row)) => AskAlike(l1.node.row, row, h, true);
    case Live(TextSeq(_, _, _, _, _, _, _)) =>
    case Skipped =>
      if !HasPlace(root, k) && HasPlace(root, k + [h.id]) { KeptPrefix(root, k, [h.id]); }
  }

  lemma GatesMatch(root: Node, k: Path, l1: Level, l2: Level)
    requires LevelsMatch(root, k, l1, l2)
    ensures GateOf(l2) == GateOf(l1) || (l2.Skipped? && GateOf(l2) == OPEN_GATE)
  {
    match l2
    case Live(RowSeq(_, _, _, row)) => SameWire(l1.node.row, row);
    case _ =>
  }

  lemma SameWire(r1: Read, r2: Read)
    requires Trims(r2, r1)
    ensures RowWire(r1) == RowWire(r2)
  {
    hide TrimsNode;
  }

  /** Where both read a child message. */
  lemma ChildReaches(root: Node, k: Path, n: Node, id: nat, child: Node)
    requires Reaches(root, k, n)
    requires AnswerTo(Live(n), SequenceHeader(id)).Take? && AnswerTo(Live(n), SequenceHeader(id)).read == ReadMessage(child)
    ensures Reaches(root, k + [id], child)
  {
    forall tail: Path ensures HasPlace(root, k + [id] + tail) == HasPlace(child, tail)
    {
      assert k + [id] + tail == k + ([id] + tail);
      assert ([id] + tail)[1..] == tail;
      assert HasPlace(root, k + ([id] + tail)) == HasPlace(n, [id] + tail);
    }
  }

  lemma LiveKept(root: Node, k: Path, n: Node)
    requires Reaches(root, k, n)
    ensures HasPlace(root, k)
  {
    assert k + [] == k;
    assert HasPlace(root, k + []) == HasPlace(n, []);
  }

  /** A field that is read has its place. */
  lemma TakenKept(root: Node, k: Path, n: Node, h: Header)
    requires Reaches(root, k, n) && AnswerTo(Live(n), h).Take?
    ensures HasPlace(root, k + [h.id])
  {
    assert HasPlace(root, k + [h.id]) == HasPlace(n, [h.id]);
    assert [h.id][1..] == [];
    match n
    case Struct(fields) => assert fields[h.id].ReadMessage? ==> HasPlace(fields[h.id].node, []);
    case RowSeq(_, _, _, row) => assert row.ReadMessage? ==> HasPlace(row.node, []);
    case _ =>
  }

  // ---------------------------------------------------------------- a field's beginning

  /** The same bytes spent, no less discounted, and the values of the fields that have a place. */
  predicate Ledger(root: Node, s1: State, s2: State)
  {
    s1.span == s2.span && s1.disc <= s2.disc && s2.dest == Restrict(s1.dest, root)
  }

  /** Both in the same level, each under its own handler. */
  ghost predicate Side(c1: Config, c2: Config, p1: seq<Frame>, p2: seq<Frame>)
  {
    Lags(p1, p2) && LevelsMatch(c2.root, Ids(p1), LevelAt(c1.root, p1), LevelAt(c2.root, p2))
  }

  /** A child sequence has been entered, by both. */
  ghost predicate BothEnter(c1: Config, c2: Config, s1: State, s2: State, t1: State, t2: State)
  {
    && t1.pend.Idle? && t2.pend.Idle? && |t1.path| == |s1.path| + 1 && |t2.path| == |s2.path| + 1
    && t1.path[..|s1.path|] == s1.path && t2.path[..|s2.path|] == s2.path && Side(c1, c2, t1.path, t2.path)
  }

  /** A field is in hand: for both in the same way, or the second walks it and has no place for
      what the first makes of it. */
  ghost predicate InHand(c1: Config, c2: Config, s1: State, s2: State, t1: State, t2: State)
  {
    && t1.path == s1.path && t2.path == s2.path
    && (|| (t1.pend == t2.pend
            && (t1.pend.Busy? ==> Twins(t1, t2, c2.root) && ReadInHand(c1, t1).Take? && ReadInHand(c2, t2) == ReadInHand(c1, t1)))
        || ((t2.pend.Busy? ==> t2.pend.skip) && (t1.pend.Busy? && !t1.pend.skip ==> !HasPlace(c2.root, KeyOf(t1)))))
  }

  /** How a step between fields goes on, for both. */
  ghost predicate GoesOn(c1: Config, c2: Config, s1: State, s2: State, h: Header, t1: State, t2: State)
  {
    && Ledger(c2.root, t1, t2)
    && if h.wire == SequenceStart then BothEnter(c1, c2, s1, s2, t1, t2) else InHand(c1, c2, s1, s2, t1, t2)
  }

  lemma SidePush(c1: Config, c2: Config, p1: seq<Frame>, p2: seq<Frame>, f1: Frame, f2: Frame)
    requires Side(c1, c2, p1, p2) && f1.id == f2.id && (f1.skip ==> f2.skip)
    requires LevelsMatch(c2.root, Ids(p1) + [f1.id], ChildLevel(LevelAt(c1.root, p1), f1), ChildLevel(LevelAt(c2.root, p2), f2))
    ensures Side(c1, c2, p1 + [f1], p2 + [f2])
  {
    assert (p1 + [f1])[..|p1|] == p1 && (p2 + [f2])[..|p2|] == p2;
    assert Ids(p1 + [f1]) == Ids(p1) + [f1.id] && Ids(p2 + [f2]) == Ids(p2) + [f2.id];
    hide LevelsMatch, ChildLevel;
  }

  lemma DeclinedDest(root: Node, here: Path, h: Header, d: Dest, a: Answer)
    requires !a.Refuse? && (a.Take? ==> !HasPlace(root, here + [h.id])) && (a.placed ==> !HasPlace(root, here))
    ensures var e := PlaceIf(a.placed, d, here, h.id);
            Restrict(if a.Take? then Started(a.read, h, e, here + [h.id]) else e, root) == Restrict(d, root)
  {
    hide Started, HasPlace, Restrict;
    var e := PlaceIf(a.placed, d, here, h.id);
    if a.placed { RestrictLost(d, e, root, here); }
    if a.Take? { StartedLost(a.read, h, e, root, here + [h.id]); }
  }

  lemma DeclinedSide(c1: Config, c2: Config, p1: seq<Frame>, p2: seq<Frame>, h: Header, a: Answer)
    requires Side(c1, c2, p1, p2) && h == SequenceHeader(h.id)
    requires a.Take? ==> a == AnswerTo(LevelAt(c1.root, p1), h) && !HasPlace(c2.root, Ids(p1) + [h.id])
    ensures Side(c1, c2, p1 + [Frame(h.id, !a.Take?)], p2 + [Frame(h.id, true)])
  {
    hide AnswerTo, HasPlace, LevelAt, Side;
    SidePush(c1, c2, p1, p2, Frame(h.id, !a.Take?), Frame(h.id, true));
  }

  lemma SideLevels(c1: Config, c2: Config, p1: seq<Frame>, p2: seq<Frame>, n: nat)
    requires Side(c1, c2, p1, p2)
    ensures |p1| == |p2| && Ids(p1) == Ids(p2) && Toll(p1, n) <= Toll(p2, n)
    ensures LevelsMatch(c2.root, Ids(p1), LevelAt(c1.root, p1), LevelAt(c2.root, p2))
  {
    TollLags(p1, p2, n);
    hide LevelsMatch;
  }

  /** What a handler that did not refuse did with a field. */
  function Answered(s: State, h: Header, n: nat, a: Answer): StepResult
  {
    var d := PlaceIf(a.placed, s.dest, Ids(s.path), h.id);
    if a.Take? then TakeField(s, a.read, h, n, d) else SkipField(s, h, n, d)
  }

  function AnsweredDest(d: Dest, here: Path, h: Header, a: Answer): Dest
  {
    var e := PlaceIf(a.placed, d, here, h.id);
    if a.Take? then Started(a.read, h, e, here + [h.id]) else e
  }

  /** How many units of payload follow. */
  function UnitsAfter(h: Header, a: Answer): nat
  {
    if a.Take? then ReadUnits(a.read, h) else SkipUnits(h)
  }

  lemma AnsweredShape(s: State, h: Header, n: nat, a: Answer)
    requires s.pend.Idle? && !a.Refuse? && (a.Take? ==> TagMatches(a.read, h))
    ensures var o := Answered(s, h, n, a);
            && (o.Go? <==> (h.wire == SequenceStart ==> |s.path| < MAX_DEPTH))
            && (o.Go? ==>
                  && o.next.path == (if h.wire == SequenceStart then s.path + [Frame(h.id, !a.Take?)] else s.path)
                  && o.next.pend == (if h.wire == SequenceStart || UnitsAfter(h, a) == 0 then Idle else Busy(h, !a.Take?, 0, ACCEPT))
                  && o.next.dest == AnsweredDest(s.dest, Ids(s.path), h, a)
                  && o.next.span == s.span + n && o.next.disc == s.disc + Toll(s.path, n) + if a.Take? then 0 else n)
  {
    hide PlaceIf, Started, Toll, Ids;
  }

  /** The second declines: whatever the first does is below a place the second does not have. */
  lemma DeclinedGoesOn(c1: Config, c2: Config, s1: State, s2: State, h: Header, n: nat, a1: Answer, a2: Answer)
    requires Side(c1, c2, s1.path, s2.path) && Ledger(c2.root, s1, s2) && s1.pend.Idle? && s2.pend.Idle?
    requires h.wire == SequenceStart ==> h == SequenceHeader(h.id)
    requires !a1.Refuse? && (a1.Take? ==> a1 == AnswerTo(LevelAt(c1.root, s1.path), h) && !HasPlace(c2.root, Ids(s1.path) + [h.id]))
    requires a2.Decline?
    requires AnsweredDest(s2.dest, Ids(s1.path), h, a2) == Restrict(AnsweredDest(s1.dest, Ids(s1.path), h, a1), c2.root)
    ensures var (o1, o2) := (Answered(s1, h, n, a1), Answered(s2, h, n, a2));
            o1.Go? ==> o2.Go? && GoesOn(c1, c2, s1, s2, h, o1.next, o2.next)
  {
    AnswerShape(LevelAt(c1.root, s1.path), h);
    hide Answered, UnitsAfter, AnsweredDest, AnswerTo, LevelAt, HasPlace, Restrict, Toll, Side, TagMatches, Ids, Twins, ReadInHand;
    AnsweredShape(s1, h, n, a1);
    AnsweredShape(s2, h, n, a2);
    SideLevels(c1, c2, s1.path, s2.path, n);
    if h.wire == SequenceStart { DeclinedSide(c1, c2, s1.path, s2.path, h, a1); }
  }

  lemma DeclinedAlike(root: Node, here: Path, n: Node, h: Header, d: Dest, placed: bool)
    requires Reaches(root, here, n)
    ensures AnsweredDest(Restrict(d, root), here, h, Decline(placed)) == Restrict(AnsweredDest(d, here, h, Decline(placed)), root)
  {
    LiveKept(root, here, n);
    hide HasPlace, Restrict, Place, Reaches;
    PlaceKept(d, root, here, h.id);
  }

  lemma DeclinedDests(root: Node, here: Path, h: Header, d: Dest, a: Answer)
    requires !a.Refuse? && (a.Take? ==> !HasPlace(root, here + [h.id])) && (a.placed ==> !HasPlace(root, here))
    ensures AnsweredDest(Restrict(d, root), here, h, Decline(false)) == Restrict(AnsweredDest(d, here, h, a), root)
  {
    hide Started, HasPlace, Restrict;
    DeclinedDest(root, here, h, d, a);
  }

  lemma TakenDests(root: Node, here: Path, n: Node, h: Header, d: Dest, a1: Answer, a2: Answer)
    requires Reaches(root, here, n) && a2 == AnswerTo(Live(n), h) && a1.Take? && a2.Take? && Alike(a1, a2)
    ensures AnsweredDest(Restrict(d, root), here, h, a2) == Restrict(AnsweredDest(d, here, h, a1), root)
    ensures HasPlace(root, here + [h.id])
  {
    LiveKept(root, here, n);
    TakenKept(root, here, n, h);
    hide Started, HasPlace, Restrict, AnswerTo, Place, Reaches, TrimsNode;
    var e := PlaceIf(a1.placed, d, here, h.id);
    if a1.placed { PlaceKept(d, root, here, h.id); }
    StartsAlike(a1.read, a2.read, h, Restrict(e, root), here + [h.id]);
    StartedKept(a1.read, h, e, root, here + [h.id]);
  }

  lemma TakenSide(c1: Config, c2: Config, p1: seq<Frame>, p2: seq<Frame>, h: Header)
    requires Side(c1, c2, p1, p2) && LevelAt(c2.root, p2).Live? && h == SequenceHeader(h.id)
    requires var (a1, a2) := (AnswerTo(LevelAt(c1.root, p1), h), AnswerTo(LevelAt(c2.root, p2), h));
             a1.Take? && a2.Take? && Alike(a1, a2) && a2.read.ReadMessage?
    ensures Side(c1, c2, p1 + [Frame(h.id, false)], p2 + [Frame(h.id, false)])
  {
    hide AnswerTo, HasPlace, LevelAt, Reaches, TrimsNode, Lags;
    var l2 := LevelAt(c2.root, p2);
    ChildReaches(c2.root, Ids(p1), l2.node, h.id, AnswerTo(l2, h).read.node);
    SidePush(c1, c2, p1, p2, Frame(h.id, false), Frame(h.id, false));
  }

  lemma TakenInHand(c1: Config, c2: Config, s1: State, s2: State, h: Header, t1: State, t2: State)
    requires t1.path == s1.path && t2.path == s2.path && Ids(s1.path) == Ids(s2.path) && t1.pend == t2.pend
    requires t1.pend.Busy? ==> t1.pend.h == h && !t1.pend.skip
    requires t2.dest == Restrict(t1.dest, c2.root) && HasPlace(c2.root, Ids(s1.path) + [h.id])
    requires var (a1, a2) := (AnswerTo(LevelAt(c1.root, s1.path), h), AnswerTo(LevelAt(c2.root, s2.path), h)); a1.Take? && a1 == a2
    ensures InHand(c1, c2, s1, s2, t1, t2)
  {
    hide AnswerTo, LevelAt, HasPlace, Restrict, Ids;
  }

  /** Both read the field. */
  lemma TakenGoesOn(c1: Config, c2: Config, s1: State, s2: State, h: Header, n: nat, a1: Answer, a2: Answer)
    requires Side(c1, c2, s1.path, s2.path) && Ledger(c2.root, s1, s2) && s1.pend.Idle? && s2.pend.Idle?
    requires h.wire == SequenceStart ==> h == SequenceHeader(h.id)
    requires LevelAt(c2.root, s2.path).Live?
    requires a1 == AnswerTo(LevelAt(c1.root, s1.path), h) && a2 == AnswerTo(LevelAt(c2.root, s2.path), h)
    requires a1.Take? && a2.Take? && Alike(a1, a2)
    ensures var (o1, o2) := (Answered(s1, h, n, a1), Answered(s2, h, n, a2));
            o1.Go? ==> o2.Go? && GoesOn(c1, c2, s1, s2, h, o1.next, o2.next)
  {
    hide Answered, AnsweredDest, AnswerTo, LevelAt, HasPlace, Restrict, Toll, Side, Ids, ReadUnits, Trims, InHand, Started, TagMatches;
    AnswerShape(LevelAt(c1.root, s1.path), h);
    AnswerShape(LevelAt(c2.root, s2.path), h);
    StartsAlike(a1.read, a2.read, h, s1.dest, []);
    MessageTag(a1.read, h);
    MessageTag(a2.read, h);
    AnsweredShape(s1, h, n, a1);
    AnsweredShape(s2, h, n, a2);
    SideLevels(c1, c2, s1.path, s2.path, n);
    TakenDests(c2.root, Ids(s1.path), LevelAt(c2.root, s2.path).node, h, s1.dest, a1, a2);
    if h.wire == SequenceStart {
      TakenSide(c1, c2, s1.path, s2.path, h);
    } else if Answered(s1, h, n, a1).Go? {
      TakenInHand(c1, c2, s1, s2, h, Answered(s1, h, n, a1).next, Answered(s2, h, n, a2).next);
    }
  }

  lemma MessageTag(r: Read, h: Header)
    requires TagMatches(r, h)
    ensures r.ReadMessage? <==> h.wire == SequenceStart
  {
  }

  lemma StartsAlike(r1: Read, r2: Read, h: Header, d: Dest, key: Path)
    requires Trims(r2, r1)
    ensures Started(r1, h, d, key) == Started(r2, h, d, key)
    ensures ReadUnits(r1, h) == ReadUnits(r2, h) && r1.ReadMessage? == r2.ReadMessage? && (r1 == r2 || r2.ReadMessage?)
  {
  }

  /** Put to both handlers, a field the first accepts goes on for both. */
  lemma OfferGoesOn(c1: Config, c2: Config, s1: State, s2: State, h: Header, n: nat, e1: bool, e2: bool)
    requires Side(c1, c2, s1.path, s2.path) && Ledger(c2.root, s1, s2) && s1.pend.Idle? && s2.pend.Idle?
    requires h.wire == SequenceStart ==> h == SequenceHeader(h.id)
    requires c1.cap == c2.cap && (e1 == e2 || LevelAt(c2.root, s2.path).Skipped?)
    ensures var (o1, o2) := (OfferField(c1, s1, h, n, e1), OfferField(c2, s2, h, n, e2));
            o1.Go? ==> o2.Go? && GoesOn(c1, c2, s1, s2, h, o1.next, o2.next)
  {
    var (k, l1, l2) := (Ids(s1.path), LevelAt(c1.root, s1.path), LevelAt(c2.root, s2.path));
    var (a1, a2) := (AnswerHere(c1, s1, h, e1), AnswerHere(c2, s2, h, e2));
    assert l2.Skipped? ==> AnswerTo(l2, h) == Decline(false);
    hide OfferField, Answered, AnsweredDest, AnswerTo, LevelAt, HasPlace, Restrict, Side, Ids, GoesOn, Reaches, TrimsNode, Trims, Exceeds, HeaderNeed, Ledger;
    if OfferField(c1, s1, h, n, e1).Go? {
      OfferAnswered(c1, s1, h, n, e1);
      SideLevels(c1, c2, s1.path, s2.path, n);
      AnswersMatch(c2.root, k, l1, l2, h);
      LedgerDest(c2.root, s1, s2);
      if a1.Take? && a2.Take? {
        TakenGoesOn(c1, c2, s1, s2, h, n, a1, a2);
      } else {
        if l2.Live? && a1.Decline? && a1 == a2 {
          DeclinedAlike(c2.root, k, l2.node, h, s1.dest, a1.placed);
        } else {
          DeclinedDests(c2.root, k, h, s1.dest, a1);
        }
        DeclinedGoesOn(c1, c2, s1, s2, h, n, a1, a2);
      }
      AnsweredOffer(c2, s2, h, n, e2);
    }
  }

  lemma LedgerDest(root: Node, s1: State, s2: State)
    requires Ledger(root, s1, s2)
    ensures s2.dest == Restrict(s1.dest, root)
  {
  }

  lemma OfferAnswered(c: Config, s: State, h: Header, n: nat, notElement: bool)
    requires OfferField(c, s, h, n, notElement).Go?
    ensures var a := AnswerHere(c, s, h, notElement);
            && !a.Refuse? && OfferField(c, s, h, n, notElement) == Answered(s, h, n, a)
            && (s.path == [] && Exceeds(c.cap, n, HeaderNeed(h)) ==> SchemaBounds(h.wire) && a.Decline?)
  {
    hide AnswerHere, PlaceIf, TakeField, SkipField, Exceeds, HeaderNeed;
  }

  lemma AnsweredOffer(c: Config, s: State, h: Header, n: nat, notElement: bool)
    requires !AnswerHere(c, s, h, notElement).Refuse?
    requires s.path == [] && Exceeds(c.cap, n, HeaderNeed(h)) ==> SchemaBounds(h.wire) && AnswerHere(c, s, h, notElement).Decline?
    ensures OfferField(c, s, h, n, notElement) == Answered(s, h, n, AnswerHere(c, s, h, notElement))
  {
    hide AnswerHere, PlaceIf, TakeField, SkipField, Exceeds, HeaderNeed;
  }

  /** Both in the same place of the same bytes. */
  ghost predicate Abreast(c1: Config, c2: Config, s1: State, s2: State)
  {
    && c1.cap == c2.cap && Good(c1, s1) && Good(c2, s2) && s1.pend.Idle? && s2.pend.Idle?
    && Side(c1, c2, s1.path, s2.path) && Ledger(c2.root, s1, s2)
  }

  lemma HeaderForm(g: Gate, b: seq<byte>)
    requires ReadHeader(g, b).FieldAt?
    ensures var h := ReadHeader(g, b).header;
            h.wire != SequenceEnd && (h.wire == SequenceStart ==> h == SequenceHeader(h.id))
  {
    hide Decode;
  }

  /** The header at hand, under the gate of its level. */
  function HeaderAt(c: Config, s: State, b: seq<byte>): HeaderRead
  {
    ReadHeader(if s.path == [] then OPEN_GATE else GateOf(LevelAt(c.root, s.path)), b)
  }

  /** Under either gate the header is the same; only whether an index is no element may differ. */
  lemma HeadersMatch(c1: Config, c2: Config, s1: State, s2: State, b: seq<byte>)
    requires Side(c1, c2, s1.path, s2.path)
    ensures var (r1, r2) := (HeaderAt(c1, s1, b), HeaderAt(c2, s2, b));
            && (r1.LevelEnd? ==> r2 == r1)
            && (r1.FieldAt? ==> r2 == r1 || (LevelAt(c2.root, s2.path).Skipped? && r2 == r1.(notElement := false)))
  {
    hide ReadHeader, LevelsMatch, Side, LevelAt, GateOf;
    SideLevels(c1, c2, s1.path, s2.path, 0);
    GatesMatch(c2.root, Ids(s1.path), LevelAt(c1.root, s1.path), LevelAt(c2.root, s2.path));
    AnyGate(GateOf(LevelAt(c1.root, s1.path)), b);
  }

  /** Does the span so far let the level go on? */
  predicate CapAllows(c: Config, s: State)
  {
    s.path == [] || LevelAt(c.root, s.path).Skipped? || !Exceeds(c.cap, SpanLive(s.span, s.disc), 0)
  }

  lemma CapHolds(c1: Config, c2: Config, s1: State, s2: State)
    requires c1.cap == c2.cap && Ledger(c2.root, s1, s2) && Side(c1, c2, s1.path, s2.path) && CapAllows(c1, s1)
    ensures CapAllows(c2, s2)
  {
    hide Side, LevelAt, Restrict;
    SideLevels(c1, c2, s1.path, s2.path, 0);
  }

  /** The level both are in ends for both. */
  predicate BothLeave(root: Node, s1: State, s2: State, t1: State, t2: State)
  {
    && s1.path != [] && s2.path != [] && t1.pend.Idle? && t2.pend.Idle?
    && t1.path == s1.path[..|s1.path| - 1] && t2.path == s2.path[..|s2.path| - 1] && Ledger(root, t1, t2)
  }

  lemma EndMatches(c1: Config, c2: Config, s1: State, s2: State, n: nat)
    requires Side(c1, c2, s1.path, s2.path) && Ledger(c2.root, s1, s2) && s1.pend.Idle? && s2.pend.Idle?
    requires EndLevel(s1, n).Go?
    ensures EndLevel(s2, n).Go? && BothLeave(c2.root, s1, s2, EndLevel(s1, n).next, EndLevel(s2, n).next)
  {
    hide Side, Toll, Restrict;
    SideLevels(c1, c2, s1.path, s2.path, n);
  }

  /** The span counters as a step between fields finds them. */
  function Opening(s: State): State
  {
    if s.path == [] then s.(span := 0, disc := 0) else s
  }

  lemma BoundaryReads(c: Config, s: State, b: seq<byte>)
    ensures var (o, r) := (BoundaryStep(c, s, b), HeaderAt(c, s, b));
            && (o.Go? ==> b != [] && CapAllows(c, s) && (r.LevelEnd? || r.FieldAt?))
            && (b != [] && CapAllows(c, s) && r.LevelEnd? ==> o == EndLevel(s, r.size))
            && (b != [] && CapAllows(c, s) && r.FieldAt? ==> o == OfferField(c, Opening(s), r.header, r.size, r.notElement))
  {
    hide LevelAt, GateOf, ReadHeader, OfferField, EndLevel, SpanLive, Exceeds;
  }

  /** What the first's step between fields does, the second's does. */
  lemma BoundaryMatches(c1: Config, c2: Config, s1: State, s2: State, b: seq<byte>)
    requires Abreast(c1, c2, s1, s2) && BoundaryStep(c1, s1, b).Go?
    ensures var (o1, o2, r) := (BoundaryStep(c1, s1, b), BoundaryStep(c2, s2, b), HeaderAt(c1, s1, b));
            && o2.Go? && o2.size == o1.size
            && if r.LevelEnd? then BothLeave(c2.root, s1, s2, o1.next, o2.next)
               else r.FieldAt? && GoesOn(c1, c2, s1, s2, r.header, o1.next, o2.next)
  {
    hide Good, LevelAt, HeaderAt, OfferField, EndLevel, Side, GoesOn, BothLeave, Ledger, CapAllows, BoundaryStep;
    var (r1, r2) := (HeaderAt(c1, s1, b), HeaderAt(c2, s2, b));
    BoundaryReads(c1, s1, b);
    CapHolds(c1, c2, s1, s2);
    HeadersMatch(c1, c2, s1, s2, b);
    BoundaryReads(c2, s2, b);
    if r1.LevelEnd? {
      EndMatches(c1, c2, s1, s2, r1.size);
    } else {
      FormAt(c1, s1, b);
      SideLevels(c1, c2, s1.path, s2.path, 0);
      OpeningLedger(c2.root, s1, s2);
      OfferGoesOn(c1, c2, Opening(s1), Opening(s2), r1.header, r1.size, r1.notElement, r2.notElement);
      OpeningGoesOn(c1, c2, s1, s2, r1.header, BoundaryStep(c1, s1, b).next, BoundaryStep(c2, s2, b).next);
    }
  }

  lemma FormAt(c: Config, s: State, b: seq<byte>)
    requires HeaderAt(c, s, b).FieldAt?
    ensures var h := HeaderAt(c, s, b).header;
            h.wire != SequenceEnd && (h.wire == SequenceStart ==> h == SequenceHeader(h.id))
  {
    hide ReadHeader, LevelAt, GateOf;
    HeaderForm(if s.path == [] then OPEN_GATE else GateOf(LevelAt(c.root, s.path)), b);
  }

  lemma OpeningGoesOn(c1: Config, c2: Config, s1: State, s2: State, h: Header, t1: State, t2: State)
    requires GoesOn(c1, c2, Opening(s1), Opening(s2), h, t1, t2)
    ensures GoesOn(c1, c2, s1, s2, h, t1, t2)
  {
    hide Side, Twins, Ledger, ReadInHand, HasPlace;
  }

  lemma OpeningLedger(root: Node, s1: State, s2: State)
    requires Ledger(root, s1, s2) && |s1.path| == |s2.path|
    ensures Ledger(root, Opening(s1), Opening(s2))
  {
  }

  // ---------------------------------------------------------------- whole fields

  /** The payload of what is in hand, if there is any. */
  ghost function RestOfField(c: Config, t: State, b: seq<byte>): Parse
  {
    if t.pend.Busy? then ParsePayload(c, t, b) else Whole(t, b)
  }

  predicate FreshField(c: Config, t: State, h: Header, b: seq<byte>)
  {
    Good(c, t) && if t.pend.Busy? then t.pend.h == h && t.pend.done == 0 else PayloadSize(h, b) == Some(0)
  }

  /** What a payload leaves, whether there was one or not. */
  predicate PaidFor(t: State, b: seq<byte>, o: Parse)
  {
    o.Whole? ==>
      && |o.rest| <= |b| && o.next.pend.Idle? && o.next.path == t.path
      && o.next.span == t.span + (|b| - |o.rest|)
      && o.next.disc == t.disc + Toll(t.path, |b| - |o.rest|) + (if t.pend.Busy? && t.pend.skip then |b| - |o.rest| else 0)
      && (if t.pend.Busy? && !t.pend.skip then OnlyAt(t.dest, o.next.dest, KeyOf(t)) else o.next.dest == t.dest)
  }

  lemma PaidSettled(c: Config, t: State, b: seq<byte>)
    ensures PaidFor(t, b, RestOfField(c, t, b))
  {
    hide ParsePayload, Toll, OnlyAt;
    TollZero(t.path);
    if t.pend.Busy? { PayloadSettled(c, t, b); }
  }

  lemma PaidTaken(c: Config, t: State, h: Header, b: seq<byte>)
    requires FreshField(c, t, h, b) && WidthStated(h)
    ensures Takes(b, RestOfField(c, t, b), PayloadSize(h, b))
  {
    hide Good, ParsePayload, PayloadSize, WidthStated;
    if t.pend.Busy? { PayloadTaken(c, t, b); }
  }

  lemma PaidSkipped(c: Config, t: State, h: Header, b: seq<byte>)
    requires FreshField(c, t, h, b) && (t.pend.Busy? ==> t.pend.skip) && PayloadSize(h, b).Some?
    ensures RestOfField(c, t, b).Whole?
  {
    hide Good, ParsePayload, PayloadSize;
    if t.pend.Busy? { PayloadSkipped(c, t, b); }
  }

  /** The second walks the field. */
  lemma WalkedBeside(c1: Config, c2: Config, t1: State, t2: State, h: Header, b: seq<byte>)
    requires FreshField(c1, t1, h, b) && FreshField(c2, t2, h, b) && WidthStated(h) && Ledger(c2.root, t1, t2) && Side(c1, c2, t1.path, t2.path)
    requires (t2.pend.Busy? ==> t2.pend.skip) && (t1.pend.Busy? && !t1.pend.skip ==> !HasPlace(c2.root, KeyOf(t1)))
    requires RestOfField(c1, t1, b).Whole?
    ensures var (o1, o2) := (RestOfField(c1, t1, b), RestOfField(c2, t2, b));
            o2.Whole? && o2.rest == o1.rest && Ledger(c2.root, o1.next, o2.next)
  {
    hide Good, RestOfField, Side, WidthStated, HasPlace, Toll, Restrict, OnlyAt, PayloadSize;
    PaidTaken(c1, t1, h, b);
    PaidSkipped(c2, t2, h, b);
    PaidTaken(c2, t2, h, b);
    PaidSettled(c1, t1, b);
    PaidSettled(c2, t2, b);
    var o1 := RestOfField(c1, t1, b);
    var n := |b| - |o1.rest|;
    SideLevels(c1, c2, t1.path, t2.path, n);
    TollZero(t1.path);
    if t1.pend.Busy? && !t1.pend.skip { RestrictLost(t1.dest, o1.next.dest, c2.root, KeyOf(t1)); }
  }

  /** Both read it. */
  lemma ReadBeside(c1: Config, c2: Config, t1: State, t2: State, b: seq<byte>)
    requires Ledger(c2.root, t1, t2) && Side(c1, c2, t1.path, t2.path) && t1.pend == t2.pend
    requires t1.pend.Busy? ==> Twins(t1, t2, c2.root) && ReadInHand(c1, t1).Take? && ReadInHand(c2, t2) == ReadInHand(c1, t1)
    requires RestOfField(c1, t1, b).Whole?
    ensures var (o1, o2) := (RestOfField(c1, t1, b), RestOfField(c2, t2, b));
            o2.Whole? && o2.rest == o1.rest && Ledger(c2.root, o1.next, o2.next)
  {
    PaidSettled(c1, t1, b);
    PaidSettled(c2, t2, b);
    hide Side, Toll, Restrict, OnlyAt, ParsePayload, ReadInHand;
    if t1.pend.Busy? { PayloadTwinned(c1, t1, c2, t2, c2.root, b); }
    SideLevels(c1, c2, t1.path, t2.path, |b| - |RestOfField(c1, t1, b).rest|);
  }

  /** Both past the same item, each at its own path. */
  ghost predicate Beside(c1: Config, c2: Config, o1: Parse, o2: Parse, p1: seq<Frame>, p2: seq<Frame>)
  {
    o1.Whole? ==>
      && o2.Whole? && o2.rest == o1.rest && At(o1.next, p1) && At(o2.next, p2)
      && Good(c1, o1.next) && Good(c2, o2.next) && Ledger(c2.root, o1.next, o2.next)
  }

  lemma EndsIs(c: Config, s: State, b: seq<byte>)
    requires s.pend.Idle? && BoundaryStep(c, s, b).Go?
    ensures EndsHere(c, s, b) <==> HeaderAt(c, s, b).LevelEnd?
  {
    BoundaryFrames(c, s, b);
    AnyGate(if s.path == [] then OPEN_GATE else GateOf(LevelAt(c.root, s.path)), b);
    hide BoundaryStep, ReadHeader, LevelAt, GateOf, EndsHere;
  }

  /** A step that opens a field leaves it fresh. */
  lemma FieldFresh(c: Config, s: State, b: seq<byte>)
    requires Good(c, s) && s.pend.Idle? && BoundaryStep(c, s, b).Go? && !EndsHere(c, s, b) && (InField(s) || b != [])
    ensures var (o, r) := (BoundaryStep(c, s, b), HeaderAt(c, s, b));
            && r.FieldAt? && WidthStated(r.header) && Good(c, o.next)
            && (|o.next.path| > |s.path| <==> r.header.wire == SequenceStart)
            && (r.header.wire != SequenceStart ==> FreshField(c, o.next, r.header, b[o.size..]))
  {
    BoundaryFrames(c, s, b);
    BoundaryShape(c, s, b);
    BoundaryFollows(c, s, b);
    AnyGate(if s.path == [] then OPEN_GATE else GateOf(LevelAt(c.root, s.path)), b);
    hide BoundaryStep, ReadHeader, LevelAt, GateOf, Good, Leads, WidthStated, PayloadSize;
  }

  lemma SameHeader(c1: Config, c2: Config, s1: State, s2: State, b: seq<byte>)
    requires Side(c1, c2, s1.path, s2.path) && HeaderAt(c1, s1, b).FieldAt?
    ensures HeaderAt(c2, s2, b).FieldAt? && HeaderAt(c2, s2, b).header == HeaderAt(c1, s1, b).header
  {
    HeadersMatch(c1, c2, s1, s2, b);
    hide HeaderAt, Side;
  }

  /** A payload, for both. */
  lemma PayloadBeside(c1: Config, c2: Config, s1: State, s2: State, t1: State, t2: State, h: Header, b: seq<byte>)
    requires InHand(c1, c2, s1, s2, t1, t2) && Ledger(c2.root, t1, t2) && Side(c1, c2, s1.path, s2.path)
    requires FreshField(c1, t1, h, b) && FreshField(c2, t2, h, b) && WidthStated(h) && RestOfField(c1, t1, b).Whole?
    ensures var (o1, o2) := (RestOfField(c1, t1, b), RestOfField(c2, t2, b));
            o2.Whole? && o2.rest == o1.rest && Ledger(c2.root, o1.next, o2.next)
  {
    hide RestOfField, Ledger, Side, FreshField, WidthStated, Twins, ReadInHand, HasPlace;
    if t1.pend == t2.pend
       && (t1.pend.Busy? ==> Twins(t1, t2, c2.root) && ReadInHand(c1, t1).Take? && ReadInHand(c2, t2) == ReadInHand(c1, t1)) {
      ReadBeside(c1, c2, t1, t2, b);
    } else {
      WalkedBeside(c1, c2, t1, t2, h, b);
    }
  }

  /** A field after its first step. */
  lemma FieldIs(c: Config, s: State, b: seq<byte>)
    requires BoundaryStep(c, s, b).Go?
    ensures var (t, n) := (BoundaryStep(c, s, b).next, BoundaryStep(c, s, b).size);
            ParseField(c, s, b) == if |t.path| > |s.path| then ParseLevel(c, t, b[n..]) else RestOfField(c, t, b[n..])
  {
    hide BoundaryStep, ParseLevel, ParsePayload;
  }

  /** A whole field the first gets past, the second gets past. */
  lemma {:induction false} FieldBeside(c1: Config, c2: Config, s1: State, s2: State, b: seq<byte>)
    requires Abreast(c1, c2, s1, s2) && (s1.path != [] || b != [])
    requires !EndsHere(c1, s1, b) && ParseField(c1, s1, b).Whole?
    ensures !EndsHere(c2, s2, b)
    ensures Beside(c1, c2, ParseField(c1, s1, b), ParseField(c2, s2, b), s1.path, s2.path)
    decreases |b|, 0
  {
    SideLevels(c1, c2, s1.path, s2.path, 0);
    BoundaryMatches(c1, c2, s1, s2, b);
    var (o1, o2, h) := (BoundaryStep(c1, s1, b), BoundaryStep(c2, s2, b), HeaderAt(c1, s1, b).header);
    EndsIs(c1, s1, b);
    FieldFresh(c1, s1, b);
    SameHeader(c1, c2, s1, s2, b);
    EndsIs(c2, s2, b);
    FieldFresh(c2, s2, b);
    FieldIs(c1, s1, b);
    FieldIs(c2, s2, b);
    FieldFollows(c1, s1, b);
    FieldFollows(c2, s2, b);
    hide BoundaryStep, Good, EndsHere, HeaderAt, Side, Ledger, ParseField, ParseLevel, Follows, InHand, WidthStated, FreshField, RestOfField;
    var (t1, t2, rest) := (o1.next, o2.next, b[o1.size..]);
    if h.wire == SequenceStart {
      LevelBeside(c1, c2, t1, t2, rest);
    } else {
      PayloadBeside(c1, c2, s1, s2, t1, t2, h, rest);
    }
    FollowsWhole(c1, s1, b, ParseField(c1, s1, b));
    FollowsWhole(c2, s2, b, ParseField(c2, s2, b));
  }

  lemma {:induction false} LevelBeside(c1: Config, c2: Config, s1: State, s2: State, b: seq<byte>)
    requires Abreast(c1, c2, s1, s2) && s1.path != [] && ParseLevel(c1, s1, b).Whole?
    ensures s2.path != []
    ensures Beside(c1, c2, ParseLevel(c1, s1, b), ParseLevel(c2, s2, b), s1.path[..|s1.path| - 1], s2.path[..|s2.path| - 1])
    decreases |b|, 1
  {
    SideLevels(c1, c2, s1.path, s2.path, 0);
    LevelFollows(c1, s1, b);
    LevelFollows(c2, s2, b);
    hide BoundaryStep, Good, Side, Ledger, ParseField, Follows, EndsHere, HeaderAt;
    if EndsHere(c1, s1, b) {
      EndsGo(c1, s1, b);
      BoundaryMatches(c1, c2, s1, s2, b);
      EndsIs(c1, s1, b);
      HeadersMatch(c1, c2, s1, s2, b);
      EndsIs(c2, s2, b);
    } else {
      FieldBeside(c1, c2, s1, s2, b);
      LevelBeside(c1, c2, ParseField(c1, s1, b).next, ParseField(c2, s2, b).next, ParseField(c1, s1, b).rest);
    }
    FollowsWhole(c1, s1, b, ParseLevel(c1, s1, b));
    FollowsWhole(c2, s2, b, ParseLevel(c2, s2, b));
  }

  lemma EndsGo(c: Config, s: State, b: seq<byte>)
    requires EndsHere(c, s, b)
    ensures BoundaryStep(c, s, b).Go?
  {
    hide BoundaryStep;
  }

  lemma {:induction false} MessageBeside(c1: Config, c2: Config, s1: State, s2: State, b: seq<byte>)
    requires Abreast(c1, c2, s1, s2) && s1.path == [] && ParseMessage(c1, s1, b).Accepted?
    ensures ParseMessage(c2, s2, b) == Accepted(Restrict(ParseMessage(c1, s1, b).dest, c2.root))
    decreases |b|
  {
    hide Good, Side, EndsHere, ParseField;
    SideLevels(c1, c2, s1.path, s2.path, 0);
    if b != [] {
      TopNeverEnds(c1, s1, b);
      FieldBeside(c1, c2, s1, s2, b);
      MessageBeside(c1, c2, ParseField(c1, s1, b).next, ParseField(c2, s2, b).next, ParseField(c1, s1, b).rest);
    }
  }

  lemma StartsAbreast(c1: Config, c2: Config)
    requires c1.cap == c2.cap && TrimsNode(c2.root, c1.root)
    ensures Abreast(c1, c2, START, START)
  {
    GoodStart(c1);
    GoodStart(c2);
    forall tail: Path ensures HasPlace(c2.root, [] + tail) == HasPlace(c2.root, tail) { assert [] + tail == tail; }
    assert Restrict(map[], c2.root) == map[];
    hide Good, HasPlace, Restrict, TrimsNode;
  }

  /** A message that is complete for one receiver is complete for every receiver that declines some
      of its fields, at any depth, and leaves there the same values of all the others and nothing else. */
  lemma DecliningKeepsOthers(c1: Config, c2: Config, b: seq<byte>)
    requires c1.cap == c2.cap && TrimsNode(c2.root, c1.root)
    requires Verdict(Run(c1, START, b)) == Complete
    ensures Verdict(Run(c2, START, b)) == Complete
    ensures Run(c2, START, b).state.dest == Restrict(Run(c1, START, b).state.dest, c2.root)
  {
    hide Run, ParseMessage, Restrict, TrimsNode;
    OneShot(c1, b);
    OneShot(c2, b);
    StartsAbreast(c1, c2);
    MessageBeside(c1, c2, START, START, b);
  }
}
