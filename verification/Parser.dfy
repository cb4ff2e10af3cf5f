/** The decode as a recursive descent over bytes that are all there: whole fields, whole
    payloads, a sequence by recursion. A field's header is the machine's own step between
    fields; everything after the header is taken whole, and no field is ever left half read. */
module Parser {
  import opened Varint
  import opened WireFormat
  import opened Handlers
  import opened Destination
  import opened Utf8
  import opened Machine
  import opened Progress
  import opened Levels

  /** `Whole`: the item is there, and `rest` follows it. */
  datatype Parse =
    | Whole(next: State, rest: seq<byte>)
    | Short
    | Bad(why: Refusal, at: set<Path>, dest: Dest)

  // ---------------------------------------------------------------- payloads

  /** What is left of an array that is being read. */
  function ParseItems(s: State, r: Read, b: seq<byte>): (o: Parse)
    requires s.pend.Busy? && (r.ReadArray? || r.ReadSpan?)
    ensures o.Whole? ==> |o.rest| <= |b|
    decreases if s.pend.done < s.pend.h.count then s.pend.h.count - s.pend.done else 0
  {
    var w := ElemWidth(r.elem);
    if IsFloat(r.elem) && |b| < w then Short
    else
      var x := if IsFloat(r.elem) then Got(0, w) else Decode(b);
      match x
      case Cut => Short
      case Overlong => Bad(Invalid, {}, s.dest)
      case Got(raw, n) =>
        if !IsFloat(r.elem) && !InRange(r.elem, RangeOf(r), raw) then Bad(Invalid, {}, s.dest)
        else
          var v := if IsFloat(r.elem) then Bits(b[..w]) else IntValue(r.elem, raw);
          var t := ItemStored(s, n, r, v);
          if t.pend.Idle? then Whole(t, b[n..]) else ParseItems(t, r, b[n..])
  }

  /** What is left of the varints of a declined field. */
  function ParseVarints(s: State, b: seq<byte>): (o: Parse)
    requires s.pend.Busy?
    ensures o.Whole? ==> |o.rest| <= |b|
    decreases if s.pend.done < SkipUnits(s.pend.h) then SkipUnits(s.pend.h) - s.pend.done else 0
  {
    match Decode(b)
    case Cut => Short
    case Overlong => Bad(Invalid, {}, s.dest)
    case Got(_, n) =>
      var t := Onward(s, SkipUnits(s.pend.h), n, s.dest);
      if t.pend.Idle? then Whole(t, b[n..]) else ParseVarints(t, b[n..])
  }

  /** A text: all of it, and UTF-8 if it is a string. */
  ghost function ParseText(s: State, isString: bool, room: nat, b: seq<byte>): (o: Parse)
    requires s.pend.Busy?
    ensures o.Whole? ==> |o.rest| <= |b|
  {
    var (key, len) := (KeyOf(s), s.pend.h.len);
    if |b| < len then Short
    else if isString && !Utf8.Utf8(b[..len]) then Bad(Invalid, {key}, s.dest - {key})
    else Whole(Past(s, len, s.dest[key := Text(Splice(TextAt(s.dest, key, room).buf, 0, b[..len]), len)]), b[len..])
  }

  /** The payload of the field in hand, from its first byte. */
  ghost function ParsePayload(c: Config, s: State, b: seq<byte>): (o: Parse)
    requires s.pend.Busy?
    ensures o.Whole? ==> |o.rest| <= |b|
  {
    var h := s.pend.h;
    if s.pend.skip then
      if VarintPayload(h.wire) then ParseVarints(s, b)
      else if |b| < SkipUnits(h) then Short
      else Whole(Past(s, SkipUnits(h), s.dest), b[SkipUnits(h)..])
    else
      match ReadInHand(c, s)
      case Take(r, _) =>
        (match r
         case ReadFloat(f) =>
           if |b| < FloatWidth(f) then Short
           else Whole(Past(s, FloatWidth(f), s.dest[KeyOf(s) := Scalar(Bits(b[..FloatWidth(f)]))]), b[FloatWidth(f)..])
         case ReadText(isString, _, room) => ParseText(s, isString, room, b)
         case ReadRaw(room) =>
           if |b| < h.len then Short
           else Whole(Past(s, h.len, RawCopied(s.dest, KeyOf(s), room, 0, b[..h.len])), b[h.len..])
         case ReadArray(_, _, _, _) => ParseItems(s, r, b)
         case ReadSpan(_, _) => ParseItems(s, r, b)
         case ReadMessage(_) => Short
         case _ =>
           match Decode(b)
           case Cut => Short
           case Overlong => Bad(Invalid, {}, s.dest)
           case Got(raw, n) => Whole(Past(s, n, s.dest[KeyOf(s) := Scalar(IntValue(ElemOf(r), raw))]), b[n..]))
      case _ => Short
  }

  // ---------------------------------------------------------------- fields and levels

  /** One field: its header, then its payload, or the whole of its sequence. */
  ghost function ParseField(c: Config, s: State, b: seq<byte>): (o: Parse)
    ensures o.Whole? ==> |o.rest| < |b|
    decreases |b|, 0
  {
    match BoundaryStep(c, s, b)
    case Need => Short
    case Fail(why, at, d) => Bad(why, at, d)
    case Go(t, n) =>
      if |t.path| > |s.path| then ParseLevel(c, t, b[n..])
      else if t.pend.Busy? then ParsePayload(c, t, b[n..])
      else Whole(t, b[n..])
  }

  /** Does the end marker of the level come next? */
  predicate EndsHere(c: Config, s: State, b: seq<byte>)
  {
    var o := BoundaryStep(c, s, b);
    o.Go? && |o.next.path| < |s.path|
  }

  /** The fields of a sequence, to its end marker. */
  ghost function ParseLevel(c: Config, s: State, b: seq<byte>): (o: Parse)
    ensures o.Whole? ==> |o.rest| <= |b|
    decreases |b|, 1
  {
    if EndsHere(c, s, b) then
      var o := BoundaryStep(c, s, b);
      Whole(o.next, b[o.size..])
    else
      match ParseField(c, s, b)
      case Whole(t, rest) => ParseLevel(c, t, rest)
      case Short => Short
      case Bad(why, at, d) => Bad(why, at, d)
  }

  datatype Message = Accepted(dest: Dest) | Truncated | Rejected(why: Refusal, at: set<Path>, dest: Dest)

  /** A message: whole fields one after another, to the last byte. */
  ghost function ParseMessage(c: Config, s: State, b: seq<byte>): Message
    decreases |b|
  {
    if b == [] then Accepted(s.dest)
    else
      match ParseField(c, s, b)
      case Whole(t, rest) => ParseMessage(c, t, rest)
      case Short => Truncated
      case Bad(why, at, d) => Rejected(why, at, d)
  }

  // ---------------------------------------------------------------- the machine runs the parser

  /** The machine, run over `b`, does what the parser says of the item at its head. */
  predicate Follows(c: Config, s: State, b: seq<byte>, o: Parse)
  {
    match o
    case Whole(t, rest) => |rest| <= |b| && rest == b[|b| - |rest|..] && Good(c, t) && Run(c, s, b) == Run(c, t, rest)
    case Short => Run(c, s, b).Stuck? && (InField(Run(c, s, b).state) || Run(c, s, b).rest != [])
    case Bad(why, at, d) => Run(c, s, b) == Failed(why, at, d)
  }

  predicate At(t: State, path: seq<Frame>)
  {
    t.path == path && t.pend.Idle?
  }

  lemma FollowsLeads(c: Config, s: State, b: seq<byte>, t: State, n: nat)
    requires n <= |b| && Leads(c, s, b, t, n)
    ensures Follows(c, s, b, Whole(t, b[n..]))
  {
    hide Run, Good;
  }

  /** One item after another. */
  lemma FollowsOn(c: Config, s: State, b: seq<byte>, t: State, n: nat, o: Parse)
    requires n <= |b| && Leads(c, s, b, t, n) && Follows(c, t, b[n..], o)
    ensures Follows(c, s, b, o)
  {
    hide Run, Good;
    if o.Whole? {
      var r := b[n..];
      assert r[|r| - |o.rest|..] == b[|b| - |o.rest|..];
    }
  }

  lemma {:induction false} ItemsFollow(c: Config, s: State, r: Read, b: seq<byte>)
    requires ReadingItems(c, s, r)
    ensures Follows(c, s, b, ParseItems(s, r, b)) && (ParseItems(s, r, b).Whole? ==> At(ParseItems(s, r, b).next, s.path))
    decreases if s.pend.done < s.pend.h.count then s.pend.h.count - s.pend.done else 0
  {
    hide Run, Good, Decode, AnswerTo, LevelAt, InRange, IntValue, Leads, Toll, ItemsOf;
    var w := ElemWidth(r.elem);
    if IsFloat(r.elem) { FloatOne(c, s, b, r); } else { IntItem(c, s, b, r); }
    if IsFloat(r.elem) && |b| < w { return; }
    var x := if IsFloat(r.elem) then Got(0, w) else Decode(b);
    if x.Got? && (IsFloat(r.elem) || InRange(r.elem, RangeOf(r), x.value)) {
      var t := ItemStored(s, x.size, r, if IsFloat(r.elem) then Bits(b[..w]) else IntValue(r.elem, x.value));
      if t.pend.Idle? {
        FollowsLeads(c, s, b, t, x.size);
      } else {
        LeadsGood(c, s, b, t, x.size);
        ItemsFollow(c, t, r, b[x.size..]);
        FollowsOn(c, s, b, t, x.size, ParseItems(t, r, b[x.size..]));
      }
    }
  }

  lemma LeadsGood(c: Config, s: State, b: seq<byte>, t: State, n: nat)
    requires n <= |b| && Leads(c, s, b, t, n)
    ensures Good(c, t)
  {
  }

  lemma {:induction false} VarintsFollow(c: Config, s: State, b: seq<byte>)
    requires Good(c, s) && s.pend.Busy? && s.pend.skip && VarintPayload(s.pend.h.wire)
    ensures Follows(c, s, b, ParseVarints(s, b)) && (ParseVarints(s, b).Whole? ==> At(ParseVarints(s, b).next, s.path))
    decreases if s.pend.done < SkipUnits(s.pend.h) then SkipUnits(s.pend.h) - s.pend.done else 0
  {
    hide Run, Good, Decode, Leads, Toll;
    SkipOne(c, s, b);
    var x := Decode(b);
    if x.Got? {
      var t := Onward(s, SkipUnits(s.pend.h), x.size, s.dest);
      if t.pend.Idle? {
        FollowsLeads(c, s, b, t, x.size);
      } else {
        LeadsGood(c, s, b, t, x.size);
        VarintsFollow(c, t, b[x.size..]);
        FollowsOn(c, s, b, t, x.size, ParseVarints(t, b[x.size..]));
      }
    }
  }

  /** A piece that is not the whole: the machine waits inside the field. */
  lemma FollowsShort(c: Config, s: State, b: seq<byte>, t: State)
    requires Leads(c, s, b, t, |b|) && t.pend.Busy?
    ensures Follows(c, s, b, Short)
  {
    assert b[|b|..] == [];
    AtEnd(c, t);
    hide Run, Good;
  }

  lemma TextFollows(c: Config, s: State, isString: bool, room: nat, b: seq<byte>)
    requires ReadingText(c, s, isString, room) && s.pend.done == 0 && s.pend.utf8 == ACCEPT && s.pend.h.len > 0
    ensures Follows(c, s, b, ParseText(s, isString, room, b))
  {
    var len := s.pend.h.len;
    hide Run, Good, AnswerTo, LevelAt, Leads, Advance, Utf8.Utf8;
    if |b| < len {
      TextPiece(c, s, b, |b|, isString, room);
      FollowsShort(c, s, b, TextAmid(s, isString, room, b[..|b|]));
    } else {
      GrammarIsAutomaton(b[..len]);
      TextEnd(c, s, b, len, isString, room);
      if !(isString && !Utf8.Utf8(b[..len])) {
        TextWhole(s, len, room, b[..len]);
        assert Leads(c, s, b, TextPublished(s, len, room, b[..len]), len) by { LeadsFrom(c, s, b, TextPublished(s, len, room, b[..len]), len); }
        FollowsLeads(c, s, b, TextPublished(s, len, room, b[..len]), len);
      }
    }
  }

  lemma LeadsFrom(c: Config, s: State, b: seq<byte>, t: State, n: nat)
    requires n <= |b| && Good(c, t) && Run(c, s, b) == Run(c, t, b[n..])
    ensures Leads(c, s, b, t, n)
  {
    hide Run, Good;
  }

  lemma TextWhole(s: State, n: nat, room: nat, piece: seq<byte>)
    requires s.pend.Busy? && s.pend.done == 0 && piece != []
    ensures TextPublished(s, n, room, piece)
            == Past(s, n, s.dest[KeyOf(s) := Text(Splice(TextAt(s.dest, KeyOf(s), room).buf, 0, piece), s.pend.h.len)])
  {
  }

  lemma SkippedFollows(c: Config, s: State, b: seq<byte>)
    requires Good(c, s) && s.pend.Busy? && s.pend.skip && s.pend.done == 0
    ensures Follows(c, s, b, ParsePayload(c, s, b)) && (ParsePayload(c, s, b).Whole? ==> At(ParsePayload(c, s, b).next, s.path))
  {
    InHandSkip(c, s);
    hide Run, Good, Leads, Toll, SkipUnits, ReadInHand, Decode;
    if VarintPayload(s.pend.h.wire) {
      VarintsFollow(c, s, b);
    } else if |b| < SkipUnits(s.pend.h) {
      SkipBytes(c, s, b, |b|);
      FollowsShort(c, s, b, Amid(s, |b|, |b|, s.dest, s.pend.utf8));
    } else {
      SkipBytesEnd(c, s, b, SkipUnits(s.pend.h));
      FollowsLeads(c, s, b, Past(s, SkipUnits(s.pend.h), s.dest), SkipUnits(s.pend.h));
    }
  }

  lemma OneFollows(c: Config, s: State, b: seq<byte>, r: Read)
    requires ReadingOne(c, s, r)
    ensures Follows(c, s, b, ParsePayload(c, s, b)) && (ParsePayload(c, s, b).Whole? ==> At(ParsePayload(c, s, b).next, s.path))
  {
    hide Run, Good, Leads, Toll, Decode, AnswerTo, LevelAt, IntValue;
    if r.ReadFloat? {
      OneFloat(c, s, b, r);
      var w := FloatWidth(r.fix);
      if |b| >= w { FollowsLeads(c, s, b, Past(s, w, s.dest[KeyOf(s) := Scalar(Bits(b[..w]))]), w); }
    } else {
      OneVarint(c, s, b, r);
      var x := Decode(b);
      if x.Got? { FollowsLeads(c, s, b, Past(s, x.size, s.dest[KeyOf(s) := Scalar(IntValue(ElemOf(r), x.value))]), x.size); }
    }
  }

  lemma RawFollows(c: Config, s: State, b: seq<byte>, room: nat)
    requires ReadingRaw(c, s, room) && s.pend.done == 0 && s.pend.h.len > 0
    ensures Follows(c, s, b, ParsePayload(c, s, b)) && (ParsePayload(c, s, b).Whole? ==> At(ParsePayload(c, s, b).next, s.path))
  {
    hide Run, Good, Leads, Toll, AnswerTo, LevelAt;
    var len := s.pend.h.len;
    if |b| < len {
      RawPiece(c, s, b, |b|, room);
      FollowsShort(c, s, b, Amid(s, |b|, |b|, RawCopied(s.dest, KeyOf(s), room, s.pend.done, b[..|b|]), s.pend.utf8));
    } else {
      RawEnd(c, s, b, len, room);
      FollowsLeads(c, s, b, Past(s, len, RawCopied(s.dest, KeyOf(s), room, 0, b[..len])), len);
    }
  }

  lemma PayloadFollows(c: Config, s: State, b: seq<byte>)
    requires Good(c, s) && s.pend.Busy? && s.pend.done == 0
    ensures Follows(c, s, b, ParsePayload(c, s, b)) && (ParsePayload(c, s, b).Whole? ==> At(ParsePayload(c, s, b).next, s.path))
  {
    if s.pend.skip {
      SkippedFollows(c, s, b);
    } else {
      InHandRead(c, s);
      InHandState(c, s);
      FreshUtf8(c, s);
      var r := ReadInHand(c, s).read;
      hide Run, Good, Leads, Toll, AnswerTo, LevelAt, Follows, Started, PlaceIf, Decode;
      match r
      case ReadText(isString, _, room) => TextFollows(c, s, isString, room, b);
      case ReadRaw(room) => RawFollows(c, s, b, room);
      case ReadArray(_, _, _, _) => ItemsFollow(c, s, r, b);
      case ReadSpan(_, _) => ItemsFollow(c, s, r, b);
      case ReadUnsigned => OneFollows(c, s, b, r);
      case ReadSigned => OneFollows(c, s, b, r);
      case ReadBool => OneFollows(c, s, b, r);
      case ReadFloat(_) => OneFollows(c, s, b, r);
    }
  }

  lemma FreshUtf8(c: Config, s: State)
    requires Good(c, s) && s.pend.Busy? && s.pend.done == 0
    ensures s.pend.utf8 == ACCEPT
  {
  }

  /** Where a step between fields can lead. */
  lemma BoundaryShape(c: Config, s: State, b: seq<byte>)
    requires s.pend.Idle?
    ensures var o := BoundaryStep(c, s, b);
            o.Go? ==>
              || (|o.next.path| < |s.path| && At(o.next, s.path[..|s.path| - 1]))
              || (o.next.path == s.path && (o.next.pend.Busy? ==> o.next.pend.done == 0))
              || (|o.next.path| == |s.path| + 1 && o.next.path[..|s.path|] == s.path && o.next.pend.Idle?)
  {
    hide LevelAt, AnswerTo, ReadHeader, Exceeds, SpanLive, GateOf, PlaceIf, Started, HeaderNeed;
  }

  lemma BoundaryFollows(c: Config, s: State, b: seq<byte>)
    requires Good(c, s) && s.pend.Idle? && (InField(s) || b != [])
    ensures var o := BoundaryStep(c, s, b);
            && (o.Need? ==> Follows(c, s, b, Short))
            && (o.Fail? ==> Follows(c, s, b, Bad(o.why, o.at, o.dest)))
            && (o.Go? ==> Leads(c, s, b, o.next, o.size) && Good(c, o.next))
  {
    AtBoundary(c, s, b);
    StepStops(c, s, b);
    hide Machine.Step, Run, Good, BoundaryStep;
    var o := BoundaryStep(c, s, b);
    if o.Go? {
      StepLeads(c, s, b, o.next, o.size);
      LeadsGood(c, s, b, o.next, o.size);
    }
  }

  /** A field, when the level does not end here. */
  lemma {:induction false} FieldFollows(c: Config, s: State, b: seq<byte>)
    requires Good(c, s) && s.pend.Idle? && (s.path != [] || b != []) && !EndsHere(c, s, b)
    ensures Follows(c, s, b, ParseField(c, s, b)) && (ParseField(c, s, b).Whole? ==> At(ParseField(c, s, b).next, s.path))
    decreases |b|, 0
  {
    BoundaryShape(c, s, b);
    BoundaryFollows(c, s, b);
    hide Run, Good, Leads, BoundaryStep, Follows, ParsePayload;
    var o := BoundaryStep(c, s, b);
    if o.Go? {
      var (t, n) := (o.next, o.size);
      if |t.path| > |s.path| {
        LevelFollows(c, t, b[n..]);
        FollowsOn(c, s, b, t, n, ParseLevel(c, t, b[n..]));
        assert t.path[..|t.path| - 1] == s.path;
      } else if t.pend.Busy? {
        PayloadFollows(c, t, b[n..]);
        FollowsOn(c, s, b, t, n, ParsePayload(c, t, b[n..]));
      } else {
        FollowsLeads(c, s, b, t, n);
      }
    }
  }

  /** A sequence to its end marker. */
  lemma {:induction false} LevelFollows(c: Config, s: State, b: seq<byte>)
    requires Good(c, s) && s.pend.Idle? && s.path != []
    ensures Follows(c, s, b, ParseLevel(c, s, b))
    ensures ParseLevel(c, s, b).Whole? ==> At(ParseLevel(c, s, b).next, s.path[..|s.path| - 1])
    decreases |b|, 1
  {
    hide Run, Good, Leads, BoundaryStep, Follows;
    if EndsHere(c, s, b) {
      BoundaryShape(c, s, b);
      BoundaryFollows(c, s, b);
      var o := BoundaryStep(c, s, b);
      FollowsLeads(c, s, b, o.next, o.size);
    } else {
      FieldFollows(c, s, b);
      var o := ParseField(c, s, b);
      if o.Whole? {
        FollowsWhole(c, s, b, o);
        LevelFollows(c, o.next, o.rest);
        FollowsAfter(c, s, b, o, ParseLevel(c, o.next, o.rest));
      }
    }
  }

  lemma FollowsWhole(c: Config, s: State, b: seq<byte>, o: Parse)
    requires o.Whole? && Follows(c, s, b, o)
    ensures Good(c, o.next) && |o.rest| <= |b| && o.rest == b[|b| - |o.rest|..] && Run(c, s, b) == Run(c, o.next, o.rest)
  {
    hide Run, Good;
  }

  lemma FollowsAfter(c: Config, s: State, b: seq<byte>, o: Parse, o2: Parse)
    requires o.Whole? && Follows(c, s, b, o) && Follows(c, o.next, o.rest, o2)
    ensures Follows(c, s, b, o2)
  {
    hide Run, Good;
    if o2.Whole? { assert o.rest[|o.rest| - |o2.rest|..] == b[|b| - |o2.rest|..]; }
  }

  /** What the machine's run says of a whole message, against the parser. */
  predicate Same(o: Outcome, m: Message)
  {
    match m
    case Accepted(d) => o.Stuck? && At(o.state, []) && o.rest == [] && o.state.dest == d
    case Truncated => o.Stuck? && (InField(o.state) || o.rest != [])
    case Rejected(why, at, d) => o == Failed(why, at, d)
  }

  lemma {:induction false} MessageFollows(c: Config, s: State, b: seq<byte>)
    requires Good(c, s) && At(s, [])
    ensures Same(Run(c, s, b), ParseMessage(c, s, b))
    decreases |b|
  {
    if b == [] {
      AtEnd(c, s);
    } else {
      TopNeverEnds(c, s, b);
      hide Run, Good, BoundaryStep, EndsHere;
      FieldFollows(c, s, b);
      var o := ParseField(c, s, b);
      if o.Whole? {
        FollowsWhole(c, s, b, o);
        MessageFollows(c, o.next, o.rest);
      }
    }
  }

  lemma TopNeverEnds(c: Config, s: State, b: seq<byte>)
    requires s.path == []
    ensures !EndsHere(c, s, b)
  {
  }
}
