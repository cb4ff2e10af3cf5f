/** What values a decode stores, and which it refuses to: payload by payload, over runs of the whole
    decoder, with every comparison and every conversion written out. */
module Values {
  import opened Varint
  import opened WireFormat
  import opened Handlers
  import opened Destination
  import opened Utf8
  import opened Machine
  import opened Progress
  import opened Levels
  import opened Parser
  import opened Framing
  import opened Verdicts
  import opened Declining
  import opened Growing
  import opened Admission

  // ---------------------------------------------------------------- the elements of an array

  /** What an element read under a range can be. */
  predicate ElementOk(e: Elem, range: Range, v: Value)
  {
    match e
    case UnsignedElem =>
      v.Number? && 0 <= v.n < 0x1_0000_0000_0000_0000 && (range.Within? ==> range.lo <= v.n && (range.hi >= 0 ==> v.n <= range.hi))
    case SignedElem =>
      v.Number? && -0x8000_0000_0000_0000 <= v.n < 0x8000_0000_0000_0000 && (range.Within? ==> range.lo <= v.n <= range.hi)
    case BoolElem => v == Number(0) || v == Number(1)
    case Fp32Elem => v.Bits? && |v.raw| == 4
    case Fp64Elem => v.Bits? && |v.raw| == 8
  }

  lemma OneOk(e: Elem, range: Range, b: seq<byte>)
    requires NextElement(e, range, b).ElementIs?
    ensures ElementOk(e, range, NextElement(e, range, b).value)
  {
    hide Decode;
  }

  /** Whatever bytes they are decoded from. */
  lemma {:induction false} ElementsOk(e: Elem, range: Range, n: nat, b: seq<byte>)
    ensures forall v <- Decoded(e, range, n, b).values :: ElementOk(e, range, v)
    decreases n
  {
    hide NextElement, Decoded, ElementOk;
    DecodedOn(e, range, n, b);
    var x := NextElement(e, range, b);
    if n > 0 && x.ElementIs? {
      OneOk(e, range, b);
      ElementsOk(e, range, n - 1, b[x.size..]);
    }
  }

  /** The varints at the head of the bytes, at most `n` of them. */
  function Words(n: nat, b: seq<byte>): (ws: seq<u64>)
    ensures |ws| <= n
    decreases n
  {
    if n == 0 then []
    else
      match Decode(b)
      case Got(w, k) => [w] + Words(n - 1, b[k..])
      case _ => []
  }

  /** Outside the declared range, whose ends are 64-bit integers. */
  predicate Outside(e: Elem, range: Range, w: u64)
  {
    range.Within? &&
    match e
    case UnsignedElem => w < range.lo || w > (if range.hi >= 0 then range.hi else range.hi + 0x1_0000_0000_0000_0000)
    case SignedElem => Undone(w) < range.lo || Undone(w) > range.hi
    case _ => false
  }

  /** Zig-zag undone. */
  function Undone(w: u64): int
  {
    if w % 2 == 0 then w / 2 else -(w / 2) - 1
  }

  function WordValue(e: Elem, w: u64): Value
  {
    match e
    case SignedElem => Number(Undone(w))
    case BoolElem => Number(if w == 0 then 0 else 1)
    case _ => Number(w)
  }

  predicate Int64(range: Range)
  {
    range.Within? ==> -0x8000_0000_0000_0000 <= range.lo && -0x8000_0000_0000_0000 <= range.hi < 0x8000_0000_0000_0000
  }

  lemma WordDecides(e: Elem, range: Range, b: seq<byte>)
    requires !IsFloat(e) && Int64(range) && Decode(b).Got?
    ensures var (w, x) := (Decode(b).value, NextElement(e, range, b));
            if Outside(e, range, w) then x == BadElement else x == ElementIs(WordValue(e, w), Decode(b).size)
  {
    hide Decode;
  }

  /** An array whose words are all there is refused exactly if one of them is outside the range, wherever
      it stands; otherwise it is their values, in order. */
  lemma {:induction false} WordsDecide(e: Elem, range: Range, n: nat, b: seq<byte>)
    requires !IsFloat(e) && Int64(range) && |Words(n, b)| == n
    ensures var (ws, r) := (Words(n, b), Decoded(e, range, n, b));
            && (r.bad <==> exists w <- ws :: Outside(e, range, w))
            && (!r.bad ==> |r.values| == n && forall k :: 0 <= k < n ==> r.values[k] == WordValue(e, ws[k]))
    decreases n
  {
    hide NextElement, Decoded, Decode, Outside, WordValue;
    DecodedOn(e, range, n, b);
    if n > 0 {
      var (w, k) := (Decode(b).value, Decode(b).size);
      WordDecides(e, range, b);
      WordsDecide(e, range, n - 1, b[k..]);
      var (ws, more) := (Words(n, b), Words(n - 1, b[k..]));
      assert ws == [w] + more && w in ws;
      assert forall v <- more :: v in ws;
      if !Outside(e, range, w) {
        assert forall v <- ws :: v == w || v in more;
      }
    }
  }

  // ---------------------------------------------------------------- payloads

  /** The run has passed the field: `leaf` is at its place, everything else is as the field began it. */
  ghost predicate Stores(c: Config, s: State, b: seq<byte>, h: Header, leaf: Leaf, rest: seq<byte>)
  {
    exists u: State ::
      && Good(c, u) && u.pend.Idle? && u.path == s.path && Run(c, s, b) == Run(c, u, rest)
      && Ids(s.path) + [h.id] in u.dest && u.dest[Ids(s.path) + [h.id]] == leaf
      && OnlyAt(s.dest, u.dest, Ids(s.path) + [h.id])
  }

  /** A field that is read is its payload's parse. */
  lemma PayloadRuns(c: Config, s: State, b: seq<byte>, h: Header, n: nat, r: Read)
    requires FieldNext(c, s, b, h, n) && Reads(c, s, b, h, n, r) && !r.ReadMessage? && ReadUnits(r, h) > 0
    requires h.id in Members(c, s) && Members(c, s)[h.id] == r && Ask(r, h, false) == Take(r, false)
    ensures var (t, o) := (BoundaryStep(c, s, b).next, ParsePayload(c, BoundaryStep(c, s, b).next, b[n..]));
            && t.pend == Busy(h, false, 0, ACCEPT) && t.path == s.path && t.dest == Started(r, h, s.dest, Ids(s.path) + [h.id])
            && ReadInHand(c, t) == Take(r, false) && KeyOf(t) == Ids(s.path) + [h.id]
            && (o.Bad? ==> Run(c, s, b) == Failed(o.why, o.at, o.dest))
            && (o.Whole? ==> Good(c, o.next) && o.next.pend.Idle? && o.next.path == s.path && Run(c, s, b) == Run(c, o.next, o.rest)
                             && OnlyAt(t.dest, o.next.dest, KeyOf(t)))
  {
    hide Run, Good, LevelAt, AnswerTo, Ask, BoundaryStep, ParsePayload, Started, ReadHeader, Toll;
    var t := BoundaryStep(c, s, b).next;
    MemberAnswer(c, s, h);
    PayloadFollows(c, t, b[n..]);
    PayloadSettled(c, t, b[n..]);
  }

  lemma Began(r: Read, h: Header, d: Dest, key: Path)
    requires !r.ReadMessage?
    ensures OnlyAt(d, Started(r, h, d, key), key)
  {
    hide TextAt, ItemsAt, Resize;
  }

  /** The run has passed a field with its value in place. */
  lemma StoresNow(c: Config, s: State, b: seq<byte>, h: Header, n: nat, r: Read, leaf: Leaf)
    requires FieldNext(c, s, b, h, n) && Reads(c, s, b, h, n, r) && !r.ReadMessage? && ReadUnits(r, h) > 0
    requires h.id in Members(c, s) && Members(c, s)[h.id] == r && Ask(r, h, false) == Take(r, false)
    requires var o := ParsePayload(c, BoundaryStep(c, s, b).next, b[n..]);
             o.Whole? && Ids(s.path) + [h.id] in o.next.dest && o.next.dest[Ids(s.path) + [h.id]] == leaf
    ensures Stores(c, s, b, h, leaf, ParsePayload(c, BoundaryStep(c, s, b).next, b[n..]).rest)
  {
    hide Run, Good, LevelAt, AnswerTo, Ask, BoundaryStep, ParsePayload, Started, ReadHeader, FieldNext, OnlyAt;
    PayloadRuns(c, s, b, h, n, r);
    Began(r, h, s.dest, Ids(s.path) + [h.id]);
    var (t, o) := (BoundaryStep(c, s, b).next, ParsePayload(c, BoundaryStep(c, s, b).next, b[n..]));
    OnlyTwice(s.dest, t.dest, o.next.dest, Ids(s.path) + [h.id]);
  }

  /** An integer, signed or not, or a boolean. */
  lemma ScalarDecides(c: Config, s: State, b: seq<byte>, h: Header, n: nat, r: Read)
    requires FieldNext(c, s, b, h, n) && h.id in Members(c, s) && Members(c, s)[h.id] == r
    requires (r.ReadUnsigned? || r.ReadSigned? || r.ReadBool?) && Tagged(r, h) && !Beyond(c, s, h, n)
    ensures var v := Decode(b[n..]);
            && (v.Overlong? ==> Verdict(Run(c, s, b)) == Stopped(Invalid))
            && (v.Got? && r.ReadUnsigned? ==> Stores(c, s, b, h, Scalar(Number(v.value)), b[n..][v.size..]))
            && (v.Got? && r.ReadSigned? ==> Stores(c, s, b, h, Scalar(Number(Undone(v.value))), b[n..][v.size..]))
            && (v.Got? && r.ReadBool? ==> Stores(c, s, b, h, Scalar(Number(if v.value == 0 then 0 else 1)), b[n..][v.size..]))
  {
    hide Run, Good, LevelAt, BoundaryStep, ReadHeader, Decode, Stores, FieldNext, OverBudget;
    TypeDecides(c, s, b, h, n, r);
    TaggedIs(r, h);
    PayloadRuns(c, s, b, h, n, r);
    var v := Decode(b[n..]);
    if v.Got? {
      StoresNow(c, s, b, h, n, r, Scalar(WordValue(if r.ReadSigned? then SignedElem else if r.ReadBool? then BoolElem else UnsignedElem, v.value)));
    }
  }

  /** A float is its bytes. */
  lemma FloatDecides(c: Config, s: State, b: seq<byte>, h: Header, n: nat, r: Read)
    requires FieldNext(c, s, b, h, n) && h.id in Members(c, s) && Members(c, s)[h.id] == r
    requires r.ReadFloat? && Tagged(r, h) && !Beyond(c, s, h, n)
    ensures var w := if r.fix == Fp32 then 4 else 8;
            |b| - n >= w ==> Stores(c, s, b, h, Scalar(Bits(b[n..][..w])), b[n..][w..])
  {
    hide Run, Good, LevelAt, BoundaryStep, ReadHeader, Stores, FieldNext, OverBudget;
    TypeDecides(c, s, b, h, n, r);
    TaggedIs(r, h);
    PayloadRuns(c, s, b, h, n, r);
    var w := if r.fix == Fp32 then 4 else 8;
    if |b| - n >= w { StoresNow(c, s, b, h, n, r, Scalar(Bits(b[n..][..w]))); }
  }

  /** A string or blob whose payload is all there: a string that is not UTF-8 is malformed, anything else is
      stored, its length and every byte of it. */
  lemma TextDecides(c: Config, s: State, b: seq<byte>, h: Header, n: nat, r: Read)
    requires FieldNext(c, s, b, h, n) && h.id in Members(c, s) && Members(c, s)[h.id] == r
    requires r.ReadText? && Tagged(r, h) && h.len <= r.bound.max && h.len <= r.room && !Beyond(c, s, h, n)
    requires 0 < h.len <= |b| - n
    ensures var text := b[n..][..h.len];
            && (r.isString && !Utf8.Utf8(text) ==> Verdict(Run(c, s, b)) == Stopped(Invalid))
            && (!(r.isString && !Utf8.Utf8(text)) ==>
                  exists buf: seq<byte> :: |buf| == r.room && buf[..h.len] == text && Stores(c, s, b, h, Text(buf, h.len), b[n..][h.len..]))
  {
    hide Run, Good, LevelAt, BoundaryStep, ReadHeader, Stores, FieldNext, OverBudget, Utf8.Utf8;
    BoundDecides(c, s, b, h, n, r);
    TaggedIs(r, h);
    PayloadRuns(c, s, b, h, n, r);
    var (t, text) := (BoundaryStep(c, s, b).next, b[n..][..h.len]);
    if !(r.isString && !Utf8.Utf8(text)) {
      var was := TextAt(t.dest, KeyOf(t), r.room).buf;
      var buf := Splice(was, 0, text);
      Front(was, text);
      StoresNow(c, s, b, h, n, r, Text(buf, h.len));
    }
  }

  lemma Front(buf: seq<byte>, text: seq<byte>)
    requires |text| <= |buf|
    ensures Splice(buf, 0, text)[..|text|] == text
  {
  }

  /** An array of integers or booleans whose words are all there: malformed exactly if one of them is outside
      the declared range, and otherwise stored, every element the value of its word. */
  lemma ArrayDecides(c: Config, s: State, b: seq<byte>, h: Header, n: nat, r: Read)
    requires FieldNext(c, s, b, h, n) && h.id in Members(c, s) && Members(c, s)[h.id] == r
    requires r.ReadArray? && Tagged(r, h) && h.count <= r.bound.max && h.count <= r.room && !Beyond(c, s, h, n)
    requires !IsFloat(r.elem) && Int64(r.range) && n <= |b| && |Words(h.count, b[n..])| == h.count > 0
    ensures var ws := Words(h.count, b[n..]);
            && ((exists w <- ws :: Outside(r.elem, r.range, w)) ==> Verdict(Run(c, s, b)) == Stopped(Invalid))
            && (!(exists w <- ws :: Outside(r.elem, r.range, w)) ==>
                  exists items: seq<Value>, rest: seq<byte> ::
                    && |items| == h.count && (forall k :: 0 <= k < h.count ==> items[k] == WordValue(r.elem, ws[k]))
                    && Stores(c, s, b, h, Items(items), rest))
  {
    hide Run, Good, LevelAt, BoundaryStep, ReadHeader, Stores, FieldNext, OverBudget, Words, Outside, WordValue, Decoded, ParseItems, Splice;
    BoundDecides(c, s, b, h, n, r);
    TaggedIs(r, h);
    PayloadRuns(c, s, b, h, n, r);
    var (t, payload) := (BoundaryStep(c, s, b).next, b[n..]);
    WordsDecide(r.elem, r.range, h.count, payload);
    SameElements(t, r, payload);
    var d := Decoded(r.elem, r.range, h.count, payload);
    BadItems(t, r, payload);
    if !d.bad {
      assert ItemsAt(t.dest, KeyOf(t))[..0] + d.values == d.values;
      var o := ParseItems(t, r, payload);
      assert o.next.dest[KeyOf(t)] == Items(d.values);
      StoresNow(c, s, b, h, n, r, Items(d.values));
    }
  }

  lemma {:induction false} BadItems(s: State, r: Read, b: seq<byte>)
    requires s.pend.Busy? && (r.ReadArray? || r.ReadSpan?)
    ensures ParseItems(s, r, b).Bad? ==> ParseItems(s, r, b).why == Invalid
    decreases if s.pend.done < s.pend.h.count then s.pend.h.count - s.pend.done else 0
  {
    hide Decode, Toll, InRange, IntValue, ItemsOf, StoreItem, KeyOf;
    var w := ElemWidth(r.elem);
    var x := if IsFloat(r.elem) then Got(0, w) else Decode(b);
    if !(IsFloat(r.elem) && |b| < w) && x.Got? && (IsFloat(r.elem) || InRange(r.elem, RangeOf(r), x.value)) {
      var t := ItemStored(s, x.size, r, if IsFloat(r.elem) then Bits(b[..w]) else IntValue(r.elem, x.value));
      if t.pend.Busy? { BadItems(t, r, b[x.size..]); }
    }
  }
}
