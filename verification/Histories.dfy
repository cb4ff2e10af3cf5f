/** What a decode does at one place of its destination, told from the bytes alone: which fields reach
    the place, which clear it, and which only pass by. */
module Histories {
  import opened Varint
  import opened WireFormat
  import opened Handlers
  import opened Destination
  import opened Machine
  import opened Progress
  import opened Levels
  import opened Parser
  import opened Framing
  import opened Verdicts
  import opened Declining
  import opened Containers

  // ---------------------------------------------------------------- what a message does at a place

  /** What happens at one place of the destination: an array around it begins and clears it, the array
      it is begins anew, an element of it is given its place, a value is stored. */
  datatype Event = Cleared | Begun | Placed(id: nat) | Stored

  /** What a field does at `k`, told from its level's handler, its header and the bytes behind it. */
  function FieldHistory(n: Node, h: Header, notElement: bool, k: Path, rest: seq<byte>): seq<Event>
    decreases |rest|, 1
  {
    var a := if notElement then Decline(false) else AnswerTo(Live(n), h);
    if k == [] then (if a.placed then [Placed(h.id)] else [])
    else if h.id != k[0] || !a.Take? then []
    else
      match a.read
      case ReadMessage(child) =>
        (if child.Struct? then [] else if |k| == 1 then [Begun] else [Cleared])
        + History(child, GateOf(Live(child)), k[1..], rest)
      case _ => if |k| == 1 then [Event.Stored] else []
  }

  /** What the fields of a level do at `k`, one after another. */
  function History(n: Node, g: Gate, k: Path, b: seq<byte>): seq<Event>
    decreases |b|, 0
  {
    match ReadHeader(g, b)
    case FieldAt(h, size, notElement) =>
      (match FieldSize(b)
       case Some(m) => FieldHistory(n, h, notElement, k, b[size..]) + History(n, g, k, b[m..])
       case None => [])
    case _ => []
  }

  function LeafAt(d: Dest, k: Path): Option<Leaf>
  {
    if k in d then Some(d[k]) else None
  }

  function LengthOf(v: Option<Leaf>): nat
  {
    if v.Some? && v.value.Length? then v.value.n else 0
  }

  /** `v` becomes `w` through the events. */
  ghost predicate Comes(v: Option<Leaf>, es: seq<Event>, w: Option<Leaf>)
    decreases |es|
  {
    if es == [] then v == w
    else
      match es[0]
      case Cleared => Comes(None, es[1..], w)
      case Begun => Comes(Some(Length(0)), es[1..], w)
      case Placed(id) => Comes(Some(Length(Max(LengthOf(v), id + 1))), es[1..], w)
      case Stored => exists x: Option<Leaf> :: Comes(x, es[1..], w)
  }

  lemma {:induction false} ComesOn(u: Option<Leaf>, a: seq<Event>, v: Option<Leaf>, b: seq<Event>, w: Option<Leaf>)
    requires Comes(u, a, v) && Comes(v, b, w)
    ensures Comes(u, a + b, w)
    decreases |a|
  {
    if a == [] {
      assert a + b == b;
    } else {
      assert (a + b)[1..] == a[1..] + b && (a + b)[0] == a[0];
      match a[0]
      case Cleared => ComesOn(None, a[1..], v, b, w);
      case Begun => ComesOn(Some(Length(0)), a[1..], v, b, w);
      case Placed(id) => ComesOn(Some(Length(Max(LengthOf(u), id + 1))), a[1..], v, b, w);
      case Stored =>
        var x: Option<Leaf> :| Comes(x, a[1..], v);
        ComesOn(x, a[1..], v, b, w);
    }
  }

  lemma ComesOne(v: Option<Leaf>, e: Event, w: Option<Leaf>)
    requires match e
             case Cleared => w == None
             case Begun => w == Some(Length(0))
             case Placed(id) => w == Some(Length(Max(LengthOf(v), id + 1)))
             case Stored => true
    ensures Comes(v, [e], w)
  {
    assert [e][1..] == [];
    assert Comes(w, [], w);
    if e.Stored? { assert Comes(w, [e][1..], w); }
  }

  // ---------------------------------------------------------------- what a field leaves alone

  predicate SameAt(d: Dest, e: Dest, k: Path)
  {
    LeafAt(d, k) == LeafAt(e, k)
  }

  /** A read's beginning is at its own place and below. */
  lemma StartsBelow(r: Read, h: Header, d: Dest, key: Path, k: Path)
    requires !(key <= k)
    ensures SameAt(d, Started(r, h, d, key), k)
  {
    hide TextAt, ItemsAt, Resize;
  }

  lemma AnsweredElsewhere(d: Dest, here: Path, h: Header, a: Answer, k: Path)
    requires !(here + [h.id] <= k) && k != here
    ensures SameAt(d, AnsweredDest(d, here, h, a), k)
  {
    hide Started;
    var e := PlaceIf(a.placed, d, here, h.id);
    if a.Take? { StartsBelow(a.read, h, e, here + [h.id], k); }
  }

  /** What a step at a field's header does to the destination. */
  lemma HeaderEffect(c: Config, s: State, b: seq<byte>)
    requires s.pend.Idle? && BoundaryStep(c, s, b).Go? && HeaderAt(c, s, b).FieldAt?
    ensures var (o, r) := (BoundaryStep(c, s, b), HeaderAt(c, s, b));
            var a := AnswerHere(c, s, r.header, r.notElement);
            && !a.Refuse? && o.size == r.size && (a.Take? ==> TagMatches(a.read, r.header))
            && o.next.dest == AnsweredDest(s.dest, Ids(s.path), r.header, a)
            && o.next.path == (if r.header.wire == SequenceStart then s.path + [Frame(r.header.id, !a.Take?)] else s.path)
            && (o.next.pend.Busy? ==> o.next.pend.h == r.header && o.next.pend.skip == !a.Take?)
            && (r.header.wire == SequenceStart ==> o.next.pend.Idle?)
  {
    var r := HeaderAt(c, s, b);
    BoundaryReads(c, s, b);
    OfferAnswered(c, Opening(s), r.header, r.size, r.notElement);
    AnswerShape(LevelAt(c.root, s.path), r.header);
    var a := AnswerHere(c, s, r.header, r.notElement);
    assert AnswerHere(c, Opening(s), r.header, r.notElement) == a;
    hide BoundaryStep, HeaderAt, OfferField, AnswerTo, LevelAt, TagMatches, Answered, AnsweredDest;
    AnsweredShape(Opening(s), r.header, r.size, a);
    assert Ids(Opening(s).path) == Ids(s.path) && Opening(s).dest == s.dest;
  }

  /** A field that is taken whole, after its header. */
  lemma FieldOpens(c: Config, s: State, b: seq<byte>)
    requires Good(c, s) && s.pend.Idle? && (s.path != [] || b != []) && !EndsHere(c, s, b) && ParseField(c, s, b).Whole?
    requires HeaderAt(c, s, b).FieldAt?
    ensures BoundaryStep(c, s, b).Go?
    ensures var (t, r) := (BoundaryStep(c, s, b).next, HeaderAt(c, s, b));
            var (a, rest) := (AnswerHere(c, s, r.header, r.notElement), b[r.size..]);
            && BoundaryStep(c, s, b).size == r.size && Good(c, t) && !a.Refuse? && (a.Take? ==> TagMatches(a.read, r.header))
            && t.dest == AnsweredDest(s.dest, Ids(s.path), r.header, a)
            && t.path == (if r.header.wire == SequenceStart then s.path + [Frame(r.header.id, !a.Take?)] else s.path)
            && (t.pend.Busy? ==> t.pend.h == r.header && t.pend.skip == !a.Take?) && (r.header.wire == SequenceStart ==> t.pend.Idle?)
            && ParseField(c, s, b) == if r.header.wire == SequenceStart then ParseLevel(c, t, rest) else RestOfField(c, t, rest)
  {
    hide BoundaryStep, Good, EndsHere, HeaderAt, ParseLevel, ParsePayload, AnswerHere, FreshField, AnsweredDest, WidthStated, TagMatches;
    FieldFresh(c, s, b);
    FieldIs(c, s, b);
    HeaderEffect(c, s, b);
  }

  /** Every key is at the place of a field, below it, or elsewhere; a field leaves the rest alone. */
  lemma {:induction false} FieldElsewhere(c: Config, s: State, b: seq<byte>, k: Path)
    requires Good(c, s) && s.pend.Idle? && (s.path != [] || b != []) && !EndsHere(c, s, b) && ParseField(c, s, b).Whole?
    requires !(Ids(s.path) + [HeaderAt(c, s, b).header.id] <= k) && k != Ids(s.path) && HeaderAt(c, s, b).FieldAt?
    ensures SameAt(s.dest, ParseField(c, s, b).next.dest, k)
    decreases |b|, 0
  {
    hide BoundaryStep, Good, EndsHere, HeaderAt, ParseField, ParseLevel, RestOfField, AnswerHere, AnsweredDest, FreshField;
    FieldOpens(c, s, b);
    var (o, h) := (BoundaryStep(c, s, b), HeaderAt(c, s, b).header);
    var a := AnswerHere(c, s, h, HeaderAt(c, s, b).notElement);
    AnsweredElsewhere(s.dest, Ids(s.path), h, a, k);
    if h.wire == SequenceStart {
      IdsPush(s.path, Frame(h.id, !a.Take?));
      LevelElsewhere(c, o.next, b[o.size..], k);
    } else {
      PaidElsewhere(c, o.next, b[o.size..], k);
    }
  }

  lemma IdsPush(path: seq<Frame>, f: Frame)
    ensures Ids(path + [f]) == Ids(path) + [f.id]
  {
  }

  lemma PaidElsewhere(c: Config, t: State, b: seq<byte>, k: Path)
    requires RestOfField(c, t, b).Whole? && (t.pend.Busy? && !t.pend.skip ==> k != KeyOf(t))
    ensures SameAt(t.dest, RestOfField(c, t, b).next.dest, k)
  {
    PaidSettled(c, t, b);
    hide RestOfField, Toll;
    if t.pend.Busy? && !t.pend.skip { OnlyElsewhere(t.dest, RestOfField(c, t, b).next.dest, KeyOf(t), k); }
  }

  lemma OnlyElsewhere(d: Dest, e: Dest, key: Path, k: Path)
    requires OnlyAt(d, e, key) && k != key
    ensures SameAt(d, e, k)
  {
    var (f, g) := (d - {key}, e - {key});
    assert (k in f <==> k in d) && (k in g <==> k in e);
  }

  lemma {:induction false} LevelElsewhere(c: Config, s: State, b: seq<byte>, k: Path)
    requires Good(c, s) && s.pend.Idle? && s.path != [] && ParseLevel(c, s, b).Whole? && !(Ids(s.path) <= k)
    ensures SameAt(s.dest, ParseLevel(c, s, b).next.dest, k)
    decreases |b|, 1
  {
    hide Good, BoundaryStep, EndsHere, ParseField, HeaderAt, Follows;
    if EndsHere(c, s, b) {
      EndKeeps(c, s, b);
    } else {
      FieldFollows(c, s, b);
      var o := ParseField(c, s, b);
      FollowsWhole(c, s, b, o);
      FieldHasHeader(c, s, b);
      FieldElsewhere(c, s, b, k);
      LevelElsewhere(c, o.next, o.rest, k);
    }
  }

  lemma EndKeeps(c: Config, s: State, b: seq<byte>)
    requires s.pend.Idle? && EndsHere(c, s, b)
    ensures BoundaryStep(c, s, b).Go? && BoundaryStep(c, s, b).next.dest == s.dest && HeaderAt(c, s, b).LevelEnd?
  {
    EndsGo(c, s, b);
    EndsIs(c, s, b);
    BoundaryReads(c, s, b);
    hide BoundaryStep, HeaderAt, EndsHere;
  }

  lemma FieldHasHeader(c: Config, s: State, b: seq<byte>)
    requires Good(c, s) && s.pend.Idle? && (s.path != [] || b != []) && !EndsHere(c, s, b) && ParseField(c, s, b).Whole?
    ensures BoundaryStep(c, s, b).Go? && HeaderAt(c, s, b).FieldAt?
  {
    hide Good, BoundaryStep, HeaderAt, ParseLevel, ParsePayload, EndsHere;
    FieldFresh(c, s, b);
  }

  /** Nothing is stored in a sequence nobody asked for. */
  lemma {:induction false} SkippedStores(c: Config, s: State, b: seq<byte>)
    requires Good(c, s) && s.pend.Idle? && s.path != [] && LevelAt(c.root, s.path).Skipped? && ParseLevel(c, s, b).Whole?
    ensures ParseLevel(c, s, b).next.dest == s.dest
    decreases |b|, 1
  {
    hide Good, BoundaryStep, EndsHere, ParseField, HeaderAt, Follows, LevelAt;
    if EndsHere(c, s, b) {
      EndKeeps(c, s, b);
    } else {
      FieldFollows(c, s, b);
      var o := ParseField(c, s, b);
      FollowsWhole(c, s, b, o);
      FieldHasHeader(c, s, b);
      DeclinedAway(c, s, b);
      DeclinedStores(c, s, b);
      SkippedStores(c, o.next, o.rest);
    }
  }

  lemma DeclinedAway(c: Config, s: State, b: seq<byte>)
    requires LevelAt(c.root, s.path).Skipped? && HeaderAt(c, s, b).FieldAt?
    ensures var r := HeaderAt(c, s, b); AnswerHere(c, s, r.header, r.notElement) == Decline(false)
  {
    hide LevelAt, HeaderAt;
  }

  /** A declined field stores nothing; at most its place was made. */
  lemma {:induction false} DeclinedStores(c: Config, s: State, b: seq<byte>)
    requires Good(c, s) && s.pend.Idle? && (s.path != [] || b != []) && !EndsHere(c, s, b) && ParseField(c, s, b).Whole?
    requires var r := HeaderAt(c, s, b); r.FieldAt? && AnswerHere(c, s, r.header, r.notElement).Decline?
    ensures var r := HeaderAt(c, s, b);
            var a := AnswerHere(c, s, r.header, r.notElement);
            ParseField(c, s, b).next.dest == PlaceIf(a.placed, s.dest, Ids(s.path), r.header.id)
    decreases |b|, 0
  {
    hide BoundaryStep, Good, EndsHere, HeaderAt, ParseField, ParseLevel, RestOfField, AnswerHere, FreshField, PlaceIf, LevelAt, Toll;
    FieldOpens(c, s, b);
    var (o, h) := (BoundaryStep(c, s, b), HeaderAt(c, s, b).header);
    if h.wire == SequenceStart {
      SkipLevel(c.root, s.path, Frame(h.id, true));
      SkippedStores(c, o.next, b[o.size..]);
    } else {
      PaidSettled(c, o.next, b[o.size..]);
    }
  }

  lemma SkipLevel(root: Node, path: seq<Frame>, f: Frame)
    requires f.skip
    ensures LevelAt(root, path + [f]) == Skipped
  {
    assert (path + [f])[..|path|] == path;
  }

  // ---------------------------------------------------------------- a decode follows the history

  /** A field that is taken whole does at every place what its history says. */
  lemma {:induction false} FieldComes(c: Config, s: State, n: Node, b: seq<byte>, k: Path)
    requires Good(c, s) && s.pend.Idle? && (s.path != [] || b != []) && !EndsHere(c, s, b) && ParseField(c, s, b).Whole?
    requires LevelAt(c.root, s.path) == Live(n) && HeaderAt(c, s, b).FieldAt?
    ensures var r := HeaderAt(c, s, b);
            Comes(LeafAt(s.dest, Ids(s.path) + k), FieldHistory(n, r.header, r.notElement, k, b[r.size..]),
                  LeafAt(ParseField(c, s, b).next.dest, Ids(s.path) + k))
    decreases |b|, 0, 2
  {
    var r := HeaderAt(c, s, b);
    var (here, h) := (Ids(s.path), r.header);
    var a := AnswerHere(c, s, h, r.notElement);
    assert a == if r.notElement then Decline(false) else AnswerTo(Live(n), h);
    hide BoundaryStep, Good, EndsHere, HeaderAt, ParseField, ParseLevel, AnswerTo, LevelAt, History, AnswerHere, Comes;
    if k == [] {
      assert here + k == here;
      HereComes(c, s, b, here, a);
    } else if h.id != k[0] {
      Elsewhere(here, h.id, k);
      FieldElsewhere(c, s, b, here + k);
      NothingComes(LeafAt(s.dest, here + k));
    } else if a.Decline? {
      DeclinedStores(c, s, b);
      PlacedElsewhere(a.placed, s.dest, here, h.id, k);
      NothingComes(LeafAt(s.dest, here + k));
    } else {
      HeaderEffectRefuses(c, s, b);
      TakenComes(c, s, n, b, k, a);
    }
  }

  lemma HeaderEffectRefuses(c: Config, s: State, b: seq<byte>)
    requires Good(c, s) && s.pend.Idle? && (s.path != [] || b != []) && !EndsHere(c, s, b) && ParseField(c, s, b).Whole?
    requires HeaderAt(c, s, b).FieldAt?
    ensures !AnswerHere(c, s, HeaderAt(c, s, b).header, HeaderAt(c, s, b).notElement).Refuse?
  {
    hide BoundaryStep, Good, EndsHere, HeaderAt, ParseLevel, ParsePayload, AnswerHere;
    FieldHasHeader(c, s, b);
    HeaderEffect(c, s, b);
  }

  lemma NothingComes(v: Option<Leaf>)
    ensures Comes(v, [], v)
  {
  }

  lemma Elsewhere(here: Path, id: nat, k: Path)
    requires k != [] && k[0] != id
    ensures !(here + [id] <= here + k) && here + k != here
  {
    assert (here + k)[|here|] == k[0];
  }

  lemma PlacedElsewhere(placed: bool, d: Dest, here: Path, id: nat, k: Path)
    requires k != []
    ensures SameAt(d, PlaceIf(placed, d, here, id), here + k)
  {
  }

  lemma PlacedHere(placed: bool, d: Dest, here: Path, id: nat)
    ensures LeafAt(PlaceIf(placed, d, here, id), here)
            == if placed then Some(Length(Max(LengthOf(LeafAt(d, here)), id + 1))) else LeafAt(d, here)
  {
  }

  /** At the level's own place: the field was given its element's place, or was not. */
  lemma HereComes(c: Config, s: State, b: seq<byte>, here: Path, a: Answer)
    requires Good(c, s) && s.pend.Idle? && (s.path != [] || b != []) && !EndsHere(c, s, b) && ParseField(c, s, b).Whole?
    requires HeaderAt(c, s, b).FieldAt? && here == Ids(s.path) && a == AnswerHere(c, s, HeaderAt(c, s, b).header, HeaderAt(c, s, b).notElement)
    ensures var r := HeaderAt(c, s, b);
            Comes(LeafAt(s.dest, here), if a.placed then [Placed(r.header.id)] else [], LeafAt(ParseField(c, s, b).next.dest, here))
  {
    hide BoundaryStep, Good, EndsHere, HeaderAt, ParseField, ParseLevel, RestOfField, AnswerHere, FreshField, PlaceIf, LevelAt, Comes, AnsweredDest, LeafAt;
    FieldOpens(c, s, b);
    var (o, h) := (BoundaryStep(c, s, b), HeaderAt(c, s, b).header);
    PlacedHere(a.placed, s.dest, here, h.id);
    AnsweredHere(s.dest, here, h, a);
    Longer(here, h.id);
    if h.wire == SequenceStart {
      IdsPush(s.path, Frame(h.id, !a.Take?));
      LevelElsewhere(c, o.next, b[o.size..], here);
    } else {
      PaidElsewhere(c, o.next, b[o.size..], here);
    }
    if a.placed { ComesOne(LeafAt(s.dest, here), Placed(h.id), LeafAt(ParseField(c, s, b).next.dest, here)); }
    else { NothingComes(LeafAt(s.dest, here)); }
  }

  lemma Longer(here: Path, id: nat)
    ensures !(here + [id] <= here) && here + [id] != here
  {
    assert |here + [id]| == |here| + 1;
  }

  lemma AnsweredHere(d: Dest, here: Path, h: Header, a: Answer)
    ensures SameAt(PlaceIf(a.placed, d, here, h.id), AnsweredDest(d, here, h, a), here)
  {
    hide Started, PlaceIf;
    Longer(here, h.id);
    if a.Take? { StartsBelow(a.read, h, PlaceIf(a.placed, d, here, h.id), here + [h.id], here); }
  }

  /** A sequence that is read has been entered. */
  lemma SequenceBegun(c: Config, s: State, n: Node, b: seq<byte>, a: Answer)
    requires Good(c, s) && s.pend.Idle? && (s.path != [] || b != []) && !EndsHere(c, s, b) && ParseField(c, s, b).Whole?
    requires LevelAt(c.root, s.path) == Live(n) && HeaderAt(c, s, b).FieldAt? && a.Take? && a.read.ReadMessage?
    requires var r := HeaderAt(c, s, b); !r.notElement && a == AnswerTo(Live(n), r.header)
    ensures BoundaryStep(c, s, b).Go? && BoundaryStep(c, s, b).size == HeaderAt(c, s, b).size
    ensures var (t, h) := (BoundaryStep(c, s, b).next, HeaderAt(c, s, b).header);
            && Good(c, t) && t.pend.Idle? && t.path == s.path + [Frame(h.id, false)] && Ids(t.path) == Ids(s.path) + [h.id]
            && LevelAt(c.root, t.path) == Live(a.read.node)
            && t.dest == Prepare(a.read.node, PlaceIf(a.placed, s.dest, Ids(s.path), h.id), Ids(s.path) + [h.id])
            && ParseField(c, s, b) == ParseLevel(c, t, b[HeaderAt(c, s, b).size..])
  {
    var r := HeaderAt(c, s, b);
    assert AnswerHere(c, s, r.header, r.notElement) == a;
    hide BoundaryStep, Good, EndsHere, HeaderAt, ParseField, ParseLevel, RestOfField, AnswerTo, LevelAt, AnswerHere, FreshField, AnsweredDest, Prepare, PlaceIf;
    FieldOpens(c, s, b);
    FormAt(c, s, b);
    EntersBelow(s.dest, Ids(s.path), r.header, a);
    IdsPush(s.path, Frame(r.header.id, false));
    LevelBelow(c.root, s.path, Frame(r.header.id, false));
  }

  /** Below the place of a sequence that is read. */
  lemma {:induction false} MessageBelow(c: Config, s: State, n: Node, b: seq<byte>, k: Path, a: Answer)
    requires Good(c, s) && s.pend.Idle? && (s.path != [] || b != []) && !EndsHere(c, s, b) && ParseField(c, s, b).Whole?
    requires LevelAt(c.root, s.path) == Live(n) && HeaderAt(c, s, b).FieldAt? && k != [] && a.Take? && a.read.ReadMessage?
    requires var r := HeaderAt(c, s, b); k[0] == r.header.id && !r.notElement && a == AnswerTo(Live(n), r.header)
    ensures var r := HeaderAt(c, s, b);
            Comes(LeafAt(s.dest, Ids(s.path) + k), FieldHistory(n, r.header, r.notElement, k, b[r.size..]),
                  LeafAt(ParseField(c, s, b).next.dest, Ids(s.path) + k))
    decreases |b|, 0, 0
  {
    hide BoundaryStep, Good, EndsHere, HeaderAt, ParseField, ParseLevel, AnswerTo, LevelAt, Comes, History, PlaceIf, Prepare, Ids, LeafAt;
    SequenceBegun(c, s, n, b, a);
    var (r, t) := (HeaderAt(c, s, b), BoundaryStep(c, s, b).next);
    var (h, here, rest, child) := (r.header, Ids(s.path), b[r.size..], a.read.node);
    var d := PlaceIf(a.placed, s.dest, here, h.id);
    assert here + k == here + [h.id] + k[1..];
    PlacedElsewhere(a.placed, s.dest, here, h.id, k);
    PreparedComes(child, d, here + [h.id], k);
    LevelComes(c, t, child, rest, k[1..]);
    var first := if child.Struct? then [] else if |k| == 1 then [Begun] else [Cleared];
    ComesOn(LeafAt(s.dest, here + k), first, LeafAt(t.dest, here + k), History(child, GateOf(Live(child)), k[1..], rest),
            LeafAt(ParseField(c, s, b).next.dest, here + k));
  }

  /** Below the place of a field that is read. */
  lemma {:induction false} TakenComes(c: Config, s: State, n: Node, b: seq<byte>, k: Path, a: Answer)
    requires Good(c, s) && s.pend.Idle? && (s.path != [] || b != []) && !EndsHere(c, s, b) && ParseField(c, s, b).Whole?
    requires LevelAt(c.root, s.path) == Live(n) && HeaderAt(c, s, b).FieldAt? && k != [] && a.Take?
    requires var r := HeaderAt(c, s, b); k[0] == r.header.id && !r.notElement && a == AnswerTo(Live(n), r.header) && a == AnswerHere(c, s, r.header, r.notElement)
    ensures var r := HeaderAt(c, s, b);
            Comes(LeafAt(s.dest, Ids(s.path) + k), FieldHistory(n, r.header, r.notElement, k, b[r.size..]),
                  LeafAt(ParseField(c, s, b).next.dest, Ids(s.path) + k))
    decreases |b|, 0, 1
  {
    hide BoundaryStep, Good, EndsHere, HeaderAt, ParseField, ParseLevel, RestOfField, AnswerTo, LevelAt, AnswerHere, AnsweredDest, Comes, History,
         LeafAt, PlaceIf;
    if a.read.ReadMessage? {
      MessageBelow(c, s, n, b, k, a);
    } else {
      var (r, here) := (HeaderAt(c, s, b), Ids(s.path));
      FieldOpens(c, s, b);
      PlacedElsewhere(a.placed, s.dest, here, r.header.id, k);
      LeafComes(c, s, b, BoundaryStep(c, s, b).next, b[r.size..], r.header, a, k, PlaceIf(a.placed, s.dest, here, r.header.id));
    }
  }

  lemma EntersBelow(d: Dest, here: Path, h: Header, a: Answer)
    requires a.Take? && a.read.ReadMessage?
    ensures AnsweredDest(d, here, h, a) == Prepare(a.read.node, PlaceIf(a.placed, d, here, h.id), here + [h.id])
  {
    hide Prepare, PlaceIf;
  }

  lemma PreparedComes(child: Node, d: Dest, key: Path, k: Path)
    requires k != []
    ensures Comes(LeafAt(d, key + k[1..]), if child.Struct? then [] else if |k| == 1 then [Begun] else [Cleared],
                  LeafAt(Prepare(child, d, key), key + k[1..]))
  {
    var (v, w) := (LeafAt(d, key + k[1..]), LeafAt(Prepare(child, d, key), key + k[1..]));
    if child.Struct? {
      NothingComes(v);
    } else if |k| == 1 {
      assert key + k[1..] == key;
      ComesOne(v, Begun, w);
    } else {
      assert Under(key, key + k[1..]) && |key + k[1..]| > |key|;
      ComesOne(v, Cleared, w);
    }
  }

  /** A value read at its own place, and nowhere else. */
  lemma LeafComes(c: Config, s: State, b: seq<byte>, t: State, rest: seq<byte>, h: Header, a: Answer, k: Path, d: Dest)
    requires a.Take? && !a.read.ReadMessage? && TagMatches(a.read, h) && k != [] && k[0] == h.id
    requires d == PlaceIf(a.placed, s.dest, Ids(s.path), h.id) && SameAt(s.dest, d, Ids(s.path) + k)
    requires t.path == s.path && t.dest == AnsweredDest(s.dest, Ids(s.path), h, a) && (t.pend.Busy? ==> t.pend.h == h)
    requires ParseField(c, s, b) == RestOfField(c, t, rest) && ParseField(c, s, b).Whole?
    ensures Comes(LeafAt(s.dest, Ids(s.path) + k), if |k| == 1 then [Event.Stored] else [],
                  LeafAt(ParseField(c, s, b).next.dest, Ids(s.path) + k))
  {
    hide ParseField, RestOfField, Comes, AnsweredDest, TagMatches;
    var (here, key) := (Ids(s.path), Ids(s.path) + [h.id]);
    var (v, w) := (LeafAt(s.dest, here + k), LeafAt(ParseField(c, s, b).next.dest, here + k));
    if |k| == 1 {
      ComesOne(v, Event.Stored, w);
    } else {
      assert |here + k| > |key|;
      LeafBelow(d, s.dest, here, h, a, here + k);
      PaidElsewhere(c, t, rest, here + k);
      NothingComes(v);
    }
  }

  lemma LeafBelow(d: Dest, d0: Dest, here: Path, h: Header, a: Answer, k: Path)
    requires a.Take? && !a.read.ReadMessage? && d == PlaceIf(a.placed, d0, here, h.id) && k != here + [h.id]
    ensures SameAt(d, AnsweredDest(d0, here, h, a), k)
  {
    hide PlaceIf, TextAt, ItemsAt, Resize;
  }

  /** The fields of a level do, one after another, what its history says. */
  lemma {:induction false} LevelComes(c: Config, s: State, n: Node, b: seq<byte>, k: Path)
    requires Good(c, s) && s.pend.Idle? && s.path != [] && LevelAt(c.root, s.path) == Live(n) && ParseLevel(c, s, b).Whole?
    ensures Comes(LeafAt(s.dest, Ids(s.path) + k), History(n, GateOf(Live(n)), k, b), LeafAt(ParseLevel(c, s, b).next.dest, Ids(s.path) + k))
    decreases |b|, 1
  {
    hide Good, BoundaryStep, EndsHere, ParseField, HeaderAt, Follows, LevelAt, FieldHistory, Comes, FieldSize;
    var here := Ids(s.path);
    HeaderIs(c, s, n, b);
    if EndsHere(c, s, b) {
      EndKeeps(c, s, b);
      NothingComes(LeafAt(s.dest, here + k));
    } else {
      FieldFollows(c, s, b);
      var o := ParseField(c, s, b);
      FollowsWhole(c, s, b, o);
      FieldHasHeader(c, s, b);
      FieldTaken(c, s, b);
      FieldComes(c, s, n, b, k);
      LevelComes(c, o.next, n, o.rest, k);
      var r := HeaderAt(c, s, b);
      ComesOn(LeafAt(s.dest, here + k), FieldHistory(n, r.header, r.notElement, k, b[r.size..]), LeafAt(o.next.dest, here + k),
              History(n, GateOf(Live(n)), k, o.rest), LeafAt(ParseLevel(c, s, b).next.dest, here + k));
    }
  }

  lemma HeaderIs(c: Config, s: State, n: Node, b: seq<byte>)
    requires s.path != [] && LevelAt(c.root, s.path) == Live(n)
    ensures HeaderAt(c, s, b) == ReadHeader(GateOf(Live(n)), b)
  {
    hide LevelAt, GateOf, ReadHeader;
  }

  /** The fields of a message. */
  lemma {:induction false} MessageComes(c: Config, s: State, b: seq<byte>, k: Path)
    requires Good(c, s) && At(s, []) && ParseMessage(c, s, b).Accepted?
    ensures Comes(LeafAt(s.dest, k), History(c.root, OPEN_GATE, k, b), LeafAt(ParseMessage(c, s, b).dest, k))
    decreases |b|
  {
    hide Good, BoundaryStep, EndsHere, ParseField, HeaderAt, Follows, FieldHistory, Comes, FieldSize;
    if b == [] {
      NoHeader(OPEN_GATE);
      NothingComes(LeafAt(s.dest, k));
    } else {
      TopNeverEnds(c, s, b);
      FieldFollows(c, s, b);
      var o := ParseField(c, s, b);
      FollowsWhole(c, s, b, o);
      FieldHasHeader(c, s, b);
      FieldTaken(c, s, b);
      TopLevelIs(c, s, b, k);
      FieldComes(c, s, c.root, b, k);
      MessageComes(c, o.next, o.rest, k);
      var r := HeaderAt(c, s, b);
      ComesOn(LeafAt(s.dest, k), FieldHistory(c.root, r.header, r.notElement, k, b[r.size..]), LeafAt(o.next.dest, k),
              History(c.root, OPEN_GATE, k, o.rest), LeafAt(ParseMessage(c, s, b).dest, k));
    }
  }

  lemma NoHeader(g: Gate)
    ensures ReadHeader(g, []) == CutHeader
  {
    assert Decode([]) == Cut;
  }

  lemma TopLevelIs(c: Config, s: State, b: seq<byte>, k: Path)
    requires s.path == []
    ensures LevelAt(c.root, s.path) == Live(c.root) && HeaderAt(c, s, b) == ReadHeader(OPEN_GATE, b) && Ids(s.path) + k == k
  {
    hide ReadHeader;
  }

  /** Whatever bytes a decode accepts, its destination holds at every place what the bytes' history
      makes of it, and nothing where the history makes nothing. */
  lemma DecodeComes(c: Config, b: seq<byte>, k: Path)
    requires Verdict(Run(c, START, b)) == Complete
    ensures Comes(None, History(c.root, OPEN_GATE, k, b), LeafAt(Run(c, START, b).state.dest, k))
  {
    hide Run, ParseMessage, Comes, History;
    GoodStart(c);
    OneShot(c, b);
    MessageComes(c, START, b, k);
  }
}
