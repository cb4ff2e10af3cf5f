/** Arrays written and read back: every element that fits its array arrives at its index. */
module ArrayTrip {
  import opened Varint
  import opened WireFormat
  import opened Handlers
  import opened Destination
  import opened Utf8
  import opened Machine
  import opened Progress
  import opened Levels
  import opened Verdicts
  import opened Tree
  import opened Encoder
  import opened RoundTrip
  import opened Containers
  import opened Collectors
  import opened Admission
  import opened Elements

  // ---------------------------------------------------------------- what an array takes

  /** A string or blob its array has a place and room for. */
  ghost predicate TextFor(node: Node, i: Item)
    requires node.TextSeq?
  {
    && i.Leaf? && i.field.TextField? && i.field.isString == node.isString
    && i.field.id <= 0x7fff_ffff && |i.field.text| <= 0x7fff_ffff && (node.isString ==> Utf8.Utf8(i.field.text))
    && |i.field.text| <= (if node.maxlen >= 0 then node.maxlen else node.elemDynCap) && |i.field.text| <= node.room
    && IndexIn(node, i.field.id) && !Unstated(node.cap, node.dynCap, node.destCap)
  }

  function TextRead(node: Node): Read
    requires node.TextSeq?
  {
    ReadText(node.isString, if node.maxlen >= 0 then Declared(node.maxlen) else Capped(node.elemDynCap), node.room)
  }

  lemma TextLeafTaken(node: Node, d: nat, i: Item)
    requires node.TextSeq? && TextFor(node, i)
    ensures TakesItem(Live(node), d, i) && AnswerTo(Live(node), HeaderOf(i.field)) == Take(TextRead(node), true)
  {
    hide Utf8.Utf8;
    RefusalIs(node.cap, node.dynCap, node.destCap, i.field.id);
    hide IndexRefusal, IndexFits, Unstated;
  }

  lemma {:induction false} TextsTaken(node: Node, d: nat, items: seq<Item>)
    requires node.TextSeq? && forall i <- items :: TextFor(node, i)
    ensures TakesTree(Live(node), d, items)
    decreases |items|
  {
    hide TextFor, TakesItem;
    if items != [] {
      TextLeafTaken(node, d, items[0]);
      TextsTaken(node, d, items[1..]);
    }
  }

  /** A row its array has a place for, and that a struct member with the same read would take. */
  ghost predicate RowFor(node: Node, d: nat, i: Item)
    requires node.RowSeq?
  {
    && TakesItem(Live(Struct(map[IdOf(i) := node.row])), d, i)
    && IndexIn(node, IdOf(i)) && !Unstated(node.cap, node.dynCap, node.destCap)
  }

  lemma RowTaken(node: Node, d: nat, i: Item)
    requires node.RowSeq? && RowFor(node, d, i)
    ensures TakesItem(Live(node), d, i)
  {
    var h := if i.Leaf? then HeaderOf(i.field) else SequenceHeader(i.id);
    var l := Live(Struct(map[IdOf(i) := node.row]));
    assert AnswerTo(l, h) == Ask(node.row, h, false);
    assert Ask(node.row, h, false).Take? ==> Ask(node.row, h, true) == Take(node.row, true) && Ask(node.row, h, false).read == node.row;
    AnswerShape(l, h);
    RowTagged(node.row, h);
    RefusalIs(node.cap, node.dynCap, node.destCap, h.id);
    assert Ask(node.row, h, false).Take? ==> AnswerTo(Live(node), h) == Take(node.row, true);
    hide Ask, AnswerTo, IndexRefusal, Accepts, Admits, ItemBytes, IndexFits, TakesTree;
  }

  lemma RowTagged(r: Read, h: Header)
    ensures TagMatches(r, h) ==> h.wire == RowWire(r)
  {
  }

  lemma {:induction false} RowItemsTaken(node: Node, d: nat, items: seq<Item>)
    requires node.RowSeq? && forall i <- items :: RowFor(node, d, i)
    ensures TakesTree(Live(node), d, items)
    decreases |items|
  {
    hide RowFor, TakesItem;
    if items != [] {
      RowTaken(node, d, items[0]);
      RowItemsTaken(node, d, items[1..]);
    }
  }

  // ---------------------------------------------------------------- its length

  /** The highest id of the items that emit bytes, plus one; zero if none does. */
  function Longest(items: seq<Item>): nat
  {
    if items == [] then 0
    else
      var rest := Longest(items[1..]);
      if ItemBytes(items[0]) == [] then rest else Max(IdOf(items[0]) + 1, rest)
  }

  lemma StoredLength(d: Dest, here: Path, r: Read, f: Field, id: nat)
    ensures LengthAt(Stored(d, here + [id], r, f), here) == LengthAt(d, here)
  {
    StoredStays(d, here + [id], r, f, here);
  }

  lemma ItemLength(d: Dest, here: Path, node: Node, depth: nat, i: Item)
    requires Wrapper(node) && TakesItem(Live(node), depth, i)
    ensures LengthAt(StoredItem(d, here, Live(node), i), here)
            == if ItemBytes(i) == [] then LengthAt(d, here) else Max(LengthAt(d, here), IdOf(i) + 1)
  {
    var l := Live(node);
    match i
    case Leaf(f) =>
      var a := AnswerTo(l, HeaderOf(f));
      TakenIsPlaced(node, HeaderOf(f));
      StoredLength(PlaceIf(a.placed, d, here, f.id), here, a.read, f, f.id);
      hide AnswerTo, Stored, FieldBytes, Accepts, Admits;
    case Sub(id, items, keep) =>
      if ItemBytes(i) != [] {
        TakesSub(l, depth, id, items, keep);
        var a := AnswerTo(l, SequenceHeader(id));
        TakenIsPlaced(node, SequenceHeader(id));
        var key := here + [id];
        var d1 := PlaceIf(a.placed, d, here, id);
        PreparedStays(a.read.node, d1, key, here);
        TreeStaysBelow(Prepare(a.read.node, d1, key), key, Live(a.read.node), items, here);
      }
      hide AnswerTo, ItemBytes, Prepare, StoredTree, TakesItem;
  }

  lemma {:induction false} ArrayLength(d: Dest, here: Path, node: Node, depth: nat, items: seq<Item>)
    requires Wrapper(node) && TakesTree(Live(node), depth, items)
    ensures LengthAt(StoredTree(d, here, Live(node), items), here) == Max(LengthAt(d, here), Longest(items))
    decreases |items|
  {
    hide ItemBytes, StoredItem, TakesItem;
    if items != [] {
      ItemLength(d, here, node, depth, items[0]);
      ArrayLength(StoredItem(d, here, Live(node), items[0]), here, node, depth, items[1..]);
    }
  }

  // ---------------------------------------------------------------- the whole way

  /** A message with one array in it. */
  function ArrayMessage(key: nat, items: seq<Item>): seq<Item>
  {
    [Sub(key, items, true)]
  }

  lemma ArrayStored(root: Node, key: nat, node: Node, items: seq<Item>)
    requires root == Struct(map[key := ReadMessage(node)])
    ensures StoredTree(map[], [], Live(root), ArrayMessage(key, items)) == StoredTree(Prepare(node, map[], [key]), [key], Live(node), items)
    ensures ItemBytes(ArrayMessage(key, items)[0]) != []
    ensures TakesTree(Live(node), 1, items) && key <= ID_MAX ==> TakesTree(Live(root), 0, ArrayMessage(key, items))
  {
    assert [] + [key] == [key];
    assert AnswerTo(Live(root), SequenceHeader(key)) == Take(ReadMessage(node), false);
    assert ArrayMessage(key, items)[1..] == [];
    hide StoredTree, TakesTree, Prepare, TreeBytes, HeaderBytes;
    StoredTwice(root, key, node, items);
    TakesOne(root, key, node, items);
  }

  lemma StoredTwice(root: Node, key: nat, node: Node, items: seq<Item>)
    requires root == Struct(map[key := ReadMessage(node)]) && ItemBytes(Sub(key, items, true)) != []
    ensures StoredTree(map[], [], Live(root), ArrayMessage(key, items)) == StoredTree(Prepare(node, map[], [key]), [key], Live(node), items)
  {
    hide Prepare, ItemBytes;
    assert [] + [key] == [key];
    var i := Sub(key, items, true);
    var e := StoredTree(Prepare(node, map[], [key]), [key], Live(node), items);
    assert StoredItem(map[], [], Live(root), i) == e;
    assert ArrayMessage(key, items)[1..] == [];
    assert StoredTree(e, [], Live(root), []) == e;
  }

  lemma TakesOne(root: Node, key: nat, node: Node, items: seq<Item>)
    requires root == Struct(map[key := ReadMessage(node)])
    ensures TakesTree(Live(node), 1, items) && key <= ID_MAX ==> TakesTree(Live(root), 0, ArrayMessage(key, items))
  {
    hide ItemBytes;
    assert ArrayMessage(key, items)[1..] == [];
    assert TakesTree(Live(root), 0, []);
    if TakesTree(Live(node), 1, items) && key <= ID_MAX { assert TakesItem(Live(root), 0, Sub(key, items, true)); }
  }

  /** An array of whatever its handler takes, written and read: the decode is complete, the array is as long as
      its highest index plus one, and every element that no later one replaced is at its index. */
  lemma ArrayReturns(c: Config, key: nat, node: Node, items: seq<Item>)
    requires c.root == Struct(map[key := ReadMessage(node)]) && Wrapper(node) && key <= ID_MAX && TakesTree(Live(node), 1, items)
    requires |ItemBytes(Sub(key, items, true))| <= c.cap
    ensures var o := Run(c, START, TreeBytes(ArrayMessage(key, items)));
            && Verdict(o) == Complete && LengthAt(o.state.dest, [key]) == Longest(items)
            && forall k :: 0 <= k < |items| && items[k].Leaf? && (forall j :: k < j < |items| ==> IdOf(items[j]) != IdOf(items[k])) ==>
                 AnswerTo(Live(node), HeaderOf(items[k].field)).Take?
                 && Found(o.state.dest, [key] + [items[k].field.id], AnswerTo(Live(node), HeaderOf(items[k].field)).read, items[k].field)
  {
    hide Run, StoredTree, TreeBytes, AnswerTo, Found, ItemBytes, TakesTree, Prepare, Longest;
    ArrayStored(c.root, key, node, items);
    RoundTrips(c, ArrayMessage(key, items));
    var d := Prepare(node, map[], [key]);
    ArrayLength(d, [key], node, 1, items);
    PreparedLength(node, key);
    forall k | 0 <= k < |items| && items[k].Leaf? && forall j :: k < j < |items| ==> IdOf(items[j]) != IdOf(items[k])
      ensures AnswerTo(Live(node), HeaderOf(items[k].field)).Take?
      ensures Found(StoredTree(d, [key], Live(node), items), [key] + [items[k].field.id], AnswerTo(Live(node), HeaderOf(items[k].field)).read, items[k].field)
    {
      TakesLeaf(Live(node), 1, items, k);
      FieldIsThere(d, [key], Live(node), items, k);
    }
  }

  lemma PreparedLength(node: Node, key: nat)
    requires Wrapper(node)
    ensures LengthAt(Prepare(node, map[], [key]), [key]) == 0
  {
  }

  /** The text is there, every byte of it. */
  predicate Arrived(d: Dest, at: Path, text: seq<byte>)
  {
    && at in d && d[at].Text? && d[at].len == |text|
    && |text| <= |d[at].buf| && d[at].buf[..|text|] == text
  }

  /** Strings or blobs below every bound of their array and its elements come back: the array is as long as the
      highest index plus one, and each text is at its index, every byte of it. */
  lemma TextsReturn(c: Config, key: nat, node: Node, items: seq<Item>)
    requires c.root == Struct(map[key := ReadMessage(node)]) && node.TextSeq? && key <= ID_MAX && forall i <- items :: TextFor(node, i)
    requires |ItemBytes(Sub(key, items, true))| <= c.cap
    ensures var o := Run(c, START, TreeBytes(ArrayMessage(key, items)));
            && Verdict(o) == Complete && LengthAt(o.state.dest, [key]) == Longest(items)
            && forall k :: 0 <= k < |items| && (forall j :: k < j < |items| ==> IdOf(items[j]) != IdOf(items[k])) ==>
                 items[k].Leaf? && items[k].field.TextField? && Arrived(o.state.dest, [key] + [items[k].field.id], items[k].field.text)
  {
    hide Run, TreeBytes, AnswerTo, ItemBytes, TakesTree, Longest, TextFor;
    TextsTaken(node, 1, items);
    ArrayReturns(c, key, node, items);
    forall k | 0 <= k < |items| ensures items[k].Leaf? && AnswerTo(Live(node), HeaderOf(items[k].field)) == Take(TextRead(node), true)
    {
      assert items[k] in items;
      IsText(node, items[k]);
      TextLeafTaken(node, 1, items[k]);
    }
  }

  lemma IsText(node: Node, i: Item)
    requires node.TextSeq? && TextFor(node, i)
    ensures i.Leaf? && i.field.TextField?
  {
    hide Utf8.Utf8;
  }

  /** So do rows. */
  lemma RowsReturn(c: Config, key: nat, node: Node, items: seq<Item>)
    requires c.root == Struct(map[key := ReadMessage(node)]) && node.RowSeq? && key <= ID_MAX && forall i <- items :: RowFor(node, 1, i)
    requires |ItemBytes(Sub(key, items, true))| <= c.cap
    ensures var o := Run(c, START, TreeBytes(ArrayMessage(key, items)));
            && Verdict(o) == Complete && LengthAt(o.state.dest, [key]) == Longest(items)
            && forall k :: 0 <= k < |items| && items[k].Leaf? && (forall j :: k < j < |items| ==> IdOf(items[j]) != IdOf(items[k])) ==>
                 Found(o.state.dest, [key] + [items[k].field.id], node.row, items[k].field)
  {
    hide Run, TreeBytes, AnswerTo, ItemBytes, TakesTree, Longest, RowFor, Found;
    RowItemsTaken(node, 1, items);
    ArrayReturns(c, key, node, items);
    forall k | 0 <= k < |items| && items[k].Leaf? && AnswerTo(Live(node), HeaderOf(items[k].field)).Take?
      ensures AnswerTo(Live(node), HeaderOf(items[k].field)).read == node.row
    {
      RowReads(node, HeaderOf(items[k].field));
    }
  }

  lemma RowReads(node: Node, h: Header)
    requires node.RowSeq? && AnswerTo(Live(node), h).Take?
    ensures AnswerTo(Live(node), h).read == node.row
  {
  }
}
