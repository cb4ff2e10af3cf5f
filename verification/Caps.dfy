/** The field-span cap: raising it changes nothing but its own refusals, the schema speaks
    before it, and it never charges a receiver for bytes it did not ask for. */
module Caps {
  import opened Varint
  import opened WireFormat
  import opened Handlers
  import opened Destination
  import opened Utf8
  import opened Machine
  import opened Progress
  import opened Levels
  import opened Parser
  import opened Framing
  import opened Verdicts

  /** The same schema under another cap. */
  predicate Raised(c1: Config, c2: Config)
  {
    c1.root == c2.root && c1.cap <= c2.cap
  }

  lemma OfferUnderCaps(c1: Config, c2: Config, s: State, h: Header, n: nat, notElement: bool)
    requires Raised(c1, c2)
    ensures var o := OfferField(c1, s, h, n, notElement);
            o == OfferField(c2, s, h, n, notElement) || (o.Fail? && o.why == Limit)
  {
    hide AnswerTo, LevelAt, PlaceIf, SkipField, TakeField, HeaderNeed;
  }

  lemma StepUnderCaps(c1: Config, c2: Config, s: State, b: seq<byte>)
    requires Raised(c1, c2)
    ensures var o := Machine.Step(c1, s, b);
            o == Machine.Step(c2, s, b) || (o.Fail? && o.why == Limit)
  {
    if s.pend.Idle? && b != [] {
      var top := s.path == [];
      var h := ReadHeader(if top then OPEN_GATE else GateOf(LevelAt(c1.root, s.path)), b);
      if h.FieldAt? { OfferUnderCaps(c1, c2, if top then s.(span := 0, disc := 0) else s, h.header, h.size, h.notElement); }
      hide OfferField, ReadHeader, LevelAt, GateOf, EndLevel, SpanLive;
    }
    hide ReadStep, SkipStep, OfferField, EndLevel;
  }

  /** A run the lower cap does not stop is the same run under the higher one. */
  lemma {:induction false} CapMonotone(c1: Config, c2: Config, s: State, b: seq<byte>)
    requires Raised(c1, c2)
    ensures var o := Run(c1, s, b);
            o == Run(c2, s, b) || (o.Failed? && o.why == Limit)
    decreases |b|
  {
    StepUnderCaps(c1, c2, s, b);
    hide Machine.Step;
    var o := Machine.Step(c1, s, b);
    if o.Go? && o == Machine.Step(c2, s, b) { CapMonotone(c1, c2, o.next, b[o.size..]); }
  }

  // ---------------------------------------------------------------- the schema before the cap

  /** Between two top-level fields, with the header of the next one next. */
  predicate HeaderNext(s: State, b: seq<byte>, h: Header, n: nat)
  {
    At(s, []) && ReadHeader(OPEN_GATE, b) == FieldAt(h, n, false)
  }

  lemma HeaderOffered(c: Config, s: State, b: seq<byte>, h: Header, n: nat)
    requires HeaderNext(s, b, h, n)
    ensures BoundaryStep(c, s, b) == OfferField(c, s.(span := 0, disc := 0), h, n, false)
    ensures AnswerHere(c, s.(span := 0, disc := 0), h, false) == AnswerTo(Live(c.root), h)
    ensures Ids(s.path) == [] && h.wire != SequenceEnd && b != []
    ensures !SchemaBounds(h.wire) ==> n <= 10
  {
    assert LevelAt(c.root, s.path) == Live(c.root);
    if !SchemaBounds(h.wire) { SequenceHeaderShort(b); }
    hide OfferField, AnswerTo, LevelAt;
  }

  lemma RefusedOffer(c: Config, s: State, h: Header, n: nat)
    requires s.path == [] && SchemaBounds(h.wire)
    requires AnswerHere(c, s, h, false).Refuse? && AnswerHere(c, s, h, false).why == Invalid
    ensures var d := PlaceIf(AnswerHere(c, s, h, false).placed, s.dest, Ids(s.path), h.id);
            OfferField(c, s, h, n, false) == Fail(Invalid, {Ids(s.path) + [h.id]}, d - {Ids(s.path) + [h.id]})
  {
    hide AnswerHere, PlaceIf;
  }

  /** A field that breaks its schema, met between two top-level fields, is malformed under every cap,
      whatever follows its header, and what the message held so far is the same. */
  lemma SchemaSpeaks(c: Config, s: State, b: seq<byte>, h: Header, n: nat)
    requires Good(c, s) && HeaderNext(s, b, h, n) && SchemaBounds(h.wire)
    requires AnswerTo(Live(c.root), h).Refuse? && AnswerTo(Live(c.root), h).why == Invalid
    ensures Run(c, s, b) == Failed(Invalid, {[h.id]}, PlaceIf(AnswerTo(Live(c.root), h).placed, s.dest, [], h.id) - {[h.id]})
  {
    HeaderOffered(c, s, b, h, n);
    RefusedOffer(c, s.(span := 0, disc := 0), h, n);
    assert [] + [h.id] == [h.id];
    AtBoundary(c, s, b);
    StepStops(c, s, b);
    hide Run, Good, BoundaryStep, AnswerTo, PlaceIf, OfferField, AnswerHere, Machine.Step;
  }

  /** Precedence, over whole messages: after fields that are complete, a header that breaks its schema
      ends the decode as malformed, with the same values, under any two caps the fields before it pass. */
  lemma SchemaFirst(c1: Config, c2: Config, a: seq<byte>, b: seq<byte>, h: Header, n: nat)
    requires Raised(c1, c2) && Verdict(Run(c1, START, a)) == Complete
    requires ReadHeader(OPEN_GATE, b) == FieldAt(h, n, false) && SchemaBounds(h.wire)
    requires AnswerTo(Live(c1.root), h).Refuse? && AnswerTo(Live(c1.root), h).why == Invalid
    ensures Run(c1, START, a + b) == Run(c2, START, a + b) && Verdict(Run(c1, START, a + b)) == Stopped(Invalid)
    ensures Run(c1, START, a + b).dest == PlaceIf(AnswerTo(Live(c1.root), h).placed, Run(c1, START, a).state.dest, [], h.id) - {[h.id]}
  {
    hide Run, AnswerTo, PlaceIf, ReadHeader, Machine.Step, Good;
    GoodStart(c1);
    GoodStart(c2);
    CapMonotone(c1, c2, START, a);
    RunGood(c1, START, a);
    RunGood(c2, START, a);
    RunSplit(c1, START, a, b);
    RunSplit(c2, START, a, b);
    var s := Run(c1, START, a).state;
    assert [] + b == b;
    SchemaSpeaks(c1, s, b, h, n);
    SchemaSpeaks(c2, s, b, h, n);
  }

  // ---------------------------------------------------------------- what is declined is not capped

  /** A sequence nobody asked for, and everything in it, is walked without a thought of the cap. */
  predicate Uncapped(o: Parse)
  {
    o.Bad? ==> o.why == Invalid
  }

  lemma VarintsUncapped(s: State, b: seq<byte>)
    requires s.pend.Busy?
    ensures Uncapped(ParseVarints(s, b))
    decreases if s.pend.done < SkipUnits(s.pend.h) then SkipUnits(s.pend.h) - s.pend.done else 0
  {
    hide Decode, SkipUnits, Toll;
  }

  lemma SkippedUncapped(c: Config, s: State, b: seq<byte>)
    requires s.pend.Busy? && s.pend.skip
    ensures Uncapped(ParsePayload(c, s, b))
  {
    VarintsUncapped(s, b);
    hide ParseVarints;
  }

  /** In a level that is skipped every field is, and so is every level in it. */
  lemma SkippedStep(c: Config, s: State, b: seq<byte>)
    requires s.pend.Idle? && s.path != [] && LevelAt(c.root, s.path).Skipped?
    ensures var o := BoundaryStep(c, s, b);
            && (o.Fail? ==> o.why == Invalid)
            && (o.Go? && |o.next.path| > |s.path| ==> o.next.path == s.path + [Frame(o.next.path[|s.path|].id, true)])
            && (o.Go? && o.next.pend.Busy? ==> o.next.pend.skip)
  {
    assert AnswerTo(LevelAt(c.root, s.path), Header(0, Unsigned, Fp32, 0, 0)) == Decline(false);
    OpenGateRefuses(b);
    hide LevelAt, PlaceIf, Toll, SkipUnits, ReadHeader;
  }

  lemma OpenGateRefuses(b: seq<byte>)
    ensures ReadHeader(OPEN_GATE, b).BadHeader? ==> ReadHeader(OPEN_GATE, b).why == Invalid
  {
  }

  lemma SkipStays(root: Node, path: seq<Frame>, f: Frame)
    requires f.skip
    ensures LevelAt(root, path + [f]).Skipped?
  {
    assert (path + [f])[..|path|] == path;
  }

  lemma {:induction false} FieldUncapped(c: Config, s: State, b: seq<byte>)
    requires Good(c, s) && s.pend.Idle? && s.path != [] && LevelAt(c.root, s.path).Skipped? && !EndsHere(c, s, b)
    ensures Uncapped(ParseField(c, s, b))
    decreases |b|, 0
  {
    SkippedStep(c, s, b);
    BoundaryShape(c, s, b);
    BoundaryFollows(c, s, b);
    hide Good, LevelAt, BoundaryStep, ParsePayload, ParseLevel, EndsHere;
    var o := BoundaryStep(c, s, b);
    if o.Go? { Walked(c, s, b, o.next, o.size); }
  }

  /** What a declined header leads to. */
  lemma {:induction false} Walked(c: Config, s: State, b: seq<byte>, t: State, n: nat)
    requires Good(c, t) && n <= |b| && (t.pend.Busy? ==> t.pend.skip) && 0 < n
    requires |t.path| > |s.path| ==> t.pend.Idle? && t.path == s.path + [Frame(t.path[|s.path|].id, true)]
    ensures |t.path| > |s.path| ==> Uncapped(ParseLevel(c, t, b[n..]))
    ensures |t.path| <= |s.path| && t.pend.Busy? ==> Uncapped(ParsePayload(c, t, b[n..]))
    decreases |b| - n, 2
  {
    hide Good, LevelAt, ParsePayload, ParseLevel;
    if |t.path| > |s.path| {
      SkipStays(c.root, s.path, Frame(t.path[|s.path|].id, true));
      LevelUncapped(c, t, b[n..]);
    } else if t.pend.Busy? {
      SkippedUncapped(c, t, b[n..]);
    }
  }

  lemma {:induction false} LevelUncapped(c: Config, s: State, b: seq<byte>)
    requires Good(c, s) && s.pend.Idle? && s.path != [] && LevelAt(c.root, s.path).Skipped?
    ensures Uncapped(ParseLevel(c, s, b))
    decreases |b|, 1
  {
    hide Good, LevelAt, ParseField, EndsHere, Follows;
    if !EndsHere(c, s, b) {
      FieldUncapped(c, s, b);
      FieldFollows(c, s, b);
      var o := ParseField(c, s, b);
      if o.Whole? {
        FollowsWhole(c, s, b, o);
        LevelUncapped(c, o.next, o.rest);
      }
    }
  }

  lemma DeclinedOffer(c: Config, s: State, h: Header, n: nat)
    requires s.path == [] && s.pend.Idle? && AnswerHere(c, s, h, false).Decline?
    ensures var o := OfferField(c, s, h, n, false);
            if !SchemaBounds(h.wire) && n > c.cap then o == Fail(Limit, {}, s.dest)
            else
              && o.Go? && o.size == n && (o.next.pend.Busy? ==> o.next.pend.skip)
              && (|o.next.path| > |s.path| ==> o.next.pend.Idle? && o.next.path == s.path + [Frame(h.id, true)])
  {
    hide AnswerHere, PlaceIf, Toll, SkipUnits, Ids;
  }

  /** A declined top-level field, header and payload, however deep: the cap stops it exactly when its
      header states no size and is itself longer than the cap. */
  lemma DeclinedCapped(c: Config, s: State, b: seq<byte>, h: Header, n: nat)
    requires Good(c, s) && HeaderNext(s, b, h, n) && AnswerTo(Live(c.root), h).Decline?
    ensures Follows(c, s, b, ParseField(c, s, b))
    ensures ParseField(c, s, b).Bad? && ParseField(c, s, b).why == Limit <==> !SchemaBounds(h.wire) && n > c.cap
  {
    HeaderOffered(c, s, b, h, n);
    DeclinedOffer(c, s.(span := 0, disc := 0), h, n);
    TopNeverEnds(c, s, b);
    FieldFollows(c, s, b);
    BoundaryFollows(c, s, b);
    hide Run, Good, BoundaryStep, AnswerTo, OfferField, ParsePayload, ParseLevel, EndsHere, Follows;
    var o := BoundaryStep(c, s, b);
    if o.Go? { Walked(c, s, b, o.next, o.size); }
  }

  /** So a cap of ten bytes never stops a run inside a field that is declined: where the run is
      stopped with `Limit`, the field is whole, and it is the rest that was stopped. */
  lemma DeclinedNeverCapped(c: Config, s: State, b: seq<byte>, h: Header, n: nat)
    requires Good(c, s) && HeaderNext(s, b, h, n) && AnswerTo(Live(c.root), h).Decline? && c.cap >= 10
    requires Verdict(Run(c, s, b)) == Stopped(Limit)
    ensures var o := ParseField(c, s, b);
            o.Whole? && FieldSize(b) == Some(|b| - |o.rest|) && Run(c, s, b) == Run(c, o.next, o.rest)
  {
    hide Run, Good, ParseField, FieldSize, AnswerTo, EndsHere, BoundaryStep, OfferField, ReadHeader, Follows, Takes;
    DeclinedCapped(c, s, b, h, n);
    HeaderOffered(c, s, b, h, n);
    TopNeverEnds(c, s, b);
    FieldTaken(c, s, b);
    PastField(c, s, b, ParseField(c, s, b));
  }

  lemma PastField(c: Config, s: State, b: seq<byte>, o: Parse)
    requires Follows(c, s, b, o) && Takes(b, o, FieldSize(b))
    requires Verdict(Run(c, s, b)) == Stopped(Limit) && !(o.Bad? && o.why == Limit)
    ensures o.Whole? && FieldSize(b) == Some(|b| - |o.rest|) && Run(c, s, b) == Run(c, o.next, o.rest)
  {
    hide Run, Good, FieldSize;
  }

  /** A receiver that reads nothing is never stopped by a cap of ten bytes, whatever it is sent. */
  lemma {:induction false} ReadsNothing(c: Config, s: State, b: seq<byte>)
    requires Good(c, s) && At(s, []) && c.root == Struct(map[]) && c.cap >= 10
    ensures Verdict(Run(c, s, b)) != Stopped(Limit)
    decreases |b|
  {
    if Verdict(Run(c, s, b)) == Stopped(Limit) {
      if b == [] { AtEnd(c, s); }
      HeaderWanted(c, s, b);
      var r := ReadHeader(OPEN_GATE, b);
      hide Run, Good, ParseField, FieldSize, Follows;
      DeclinedNeverCapped(c, s, b, r.header, r.size);
      TopNeverEnds(c, s, b);
      FieldFollows(c, s, b);
      var o := ParseField(c, s, b);
      FollowsWhole(c, s, b, o);
      ReadsNothing(c, o.next, o.rest);
    }
  }

  /** Between two top-level fields only a field's header can lead to a refusal with `Limit`. */
  lemma HeaderWanted(c: Config, s: State, b: seq<byte>)
    requires Good(c, s) && At(s, []) && b != [] && Verdict(Run(c, s, b)) == Stopped(Limit)
    ensures var r := ReadHeader(OPEN_GATE, b); r.FieldAt? && HeaderNext(s, b, r.header, r.size)
  {
    AtBoundary(c, s, b);
    StepStops(c, s, b);
    OpenGateRefuses(b);
    if ReadHeader(OPEN_GATE, b).FieldAt? { OpenGateElement(b); }
    hide Run, Good, Machine.Step, ReadHeader, OfferField;
  }

  // ---------------------------------------------------------------- what the receiver is charged

  /** Does a step spend its bytes on something nobody asked for? */
  predicate OnSkipped(s: State, o: StepResult)
    requires o.Go?
  {
    || (exists i :: 0 <= i < |s.path| && s.path[i].skip)
    || (s.pend.Busy? && s.pend.skip)
    || (s.pend.Idle? && o.next.pend.Busy? && o.next.pend.skip)
    || (s.pend.Idle? && |o.next.path| > |s.path| && o.next.path[|o.next.path| - 1].skip)
  }

  /** Bytes of the current top-level field that were read, not walked. A top-level header begins
      a new field. */
  ghost function LiveAfter(s: State, o: StepResult, live: nat): nat
    requires o.Go?
  {
    var before := if s.path == [] && s.pend.Idle? then 0 else live;
    before + if OnSkipped(s, o) then 0 else o.size
  }

  lemma {:induction false} TollSkips(path: seq<Frame>, n: nat, i: nat)
    requires i < |path| && path[i].skip
    ensures Toll(path, n) >= n
    decreases |path|
  {
    if i < |path| - 1 { TollSkips(path[..|path| - 1], n, i); }
  }

  /** The discount never falls behind what was walked. */
  predicate Charged(s: State, live: nat)
  {
    s.span <= s.disc + live
  }

  /** A payload step spends its own bytes and is discounted for them along its path. */
  predicate Tolled(s: State, o: StepResult)
    requires s.pend.Busy?
  {
    o.Go? ==> o.next.span == s.span + o.size && o.next.disc == s.disc + Toll(s.path, o.size) + if s.pend.skip then o.size else 0
  }

  lemma ItemToll(s: State, b: seq<byte>, key: Path, e: Elem, range: Range, items: seq<Value>)
    requires s.pend.Busy?
    ensures Tolled(s, ElementStep(s, b, key, e, range, items))
  {
    hide Decode, InRange, IntValue, StoreItem, Toll;
  }

  lemma TextToll(s: State, b: seq<byte>, key: Path, isString: bool, room: nat)
    requires s.pend.Busy? && IsState(s.pend.utf8)
    ensures Tolled(s, TextStep(s, b, key, isString, room))
  {
    hide StepByte, TextAt, Toll;
  }

  lemma ReadToll(s: State, b: seq<byte>, r: Read)
    requires s.pend.Busy? && IsState(s.pend.utf8)
    ensures Tolled(s, ReadStep(s, b, r))
  {
    var key := Ids(s.path) + [s.pend.h.id];
    hide ElementStep, TextStep, Toll, Decode, ItemsAt, SpanAt, RawAt;
    match r
    case ReadText(isString, _, room) => TextToll(s, b, key, isString, room);
    case ReadArray(e, _, range, _) => ItemToll(s, b, key, e, range, ItemsAt(s.dest, key));
    case ReadSpan(e, extent) => ItemToll(s, b, key, e, Unarmed, SpanAt(s.dest, key, e, extent));
    case _ =>
  }

  lemma PayloadToll(c: Config, s: State, b: seq<byte>)
    requires s.pend.Busy?
    ensures Tolled(s, Machine.Step(c, s, b))
  {
    hide ReadStep, AnswerTo, LevelAt, Decode, Toll;
    var a := ReadInHand(c, s);
    if !s.pend.skip && a.Take? && IsState(s.pend.utf8) { ReadToll(s, b, a.read); }
  }

  lemma HeaderCharged(c: Config, s: State, b: seq<byte>)
    requires s.pend.Idle?
    ensures var o := Machine.Step(c, s, b);
            var s0 := if s.path == [] then s.(span := 0, disc := 0) else s;
            o.Go? ==>
              && o.next.span == s0.span + o.size && o.next.disc >= s0.disc + Toll(s.path, o.size)
              && (o.next.pend.Busy? && o.next.pend.skip ==> o.next.disc >= s0.disc + o.size)
              && (|o.next.path| > |s.path| && o.next.path[|o.next.path| - 1].skip ==> o.next.disc >= s0.disc + o.size)
  {
    hide AnswerTo, LevelAt, ReadHeader, Exceeds, SpanLive, HeaderNeed, PlaceIf, Started, GateOf, SkipUnits;
  }

  /** Every step keeps it: bytes are charged only where something is read. */
  lemma ChargedOn(c: Config, s: State, b: seq<byte>, live: nat)
    requires Charged(s, live)
    ensures var o := Machine.Step(c, s, b); o.Go? ==> Charged(o.next, LiveAfter(s, o, live))
  {
    if s.pend.Busy? { PayloadToll(c, s, b); } else { HeaderCharged(c, s, b); }
    hide Machine.Step;
    var o := Machine.Step(c, s, b);
    if o.Go? && exists i :: 0 <= i < |s.path| && s.path[i].skip {
      var i :| 0 <= i < |s.path| && s.path[i].skip;
      TollSkips(s.path, o.size, i);
    }
  }

  /** The reason for a refusal, where it is the field-span cap. */
  predicate SpanRefusal(c: Config, s: State, b: seq<byte>, live: nat)
  {
    if s.path != [] then live > c.cap
    else
      var h := ReadHeader(OPEN_GATE, b);
      && h.FieldAt? && !AnswerTo(Live(c.root), h.header).Decline?
      && h.size + HeaderNeed(h.header) > c.cap
  }

  /** A refusal with `Limit` that is not the handler's own: its declared caps, or its index gate. */
  predicate HandlersLimit(c: Config, s: State, b: seq<byte>)
  {
    var h := ReadHeader(if s.path == [] then OPEN_GATE else GateOf(LevelAt(c.root, s.path)), b);
    || h == BadHeader(Limit)
    || (h.FieldAt? && AnswerHere(c, s, h.header, h.notElement).Refuse? && AnswerHere(c, s, h.header, h.notElement).why == Limit)
  }

  lemma SequenceHeaderShort(b: seq<byte>)
    requires ReadHeader(OPEN_GATE, b).FieldAt? && !SchemaBounds(ReadHeader(OPEN_GATE, b).header.wire)
    ensures ReadHeader(OPEN_GATE, b).size <= 10
  {
  }

  lemma OpenGateElement(b: seq<byte>)
    requires ReadHeader(OPEN_GATE, b).FieldAt?
    ensures !ReadHeader(OPEN_GATE, b).notElement
  {
  }

  lemma LimitIsBoundary(c: Config, s: State, b: seq<byte>)
    requires s.pend.Busy?
    ensures var o := Machine.Step(c, s, b); !(o.Fail? && o.why == Limit)
  {
    hide Decode, AnswerTo, LevelAt, InRange, IntValue, StepByte, TextAt, RawAt, StoreItem, SpanAt, ItemsAt, NextUnit;
  }

  /** A receiver is stopped by the cap only for bytes it was reading, or for the declared size of
      a field it would have read; however many declined fields it walked, and however deep. */
  lemma SkippedNeverCharged(c: Config, s: State, b: seq<byte>, live: nat)
    requires Charged(s, live) && c.cap >= 10
    requires var o := Machine.Step(c, s, b); o.Fail? && o.why == Limit
    ensures HandlersLimit(c, s, b) || SpanRefusal(c, s, b, live)
  {
    if s.pend.Busy? {
      LimitIsBoundary(c, s, b);
    } else {
      var h := ReadHeader(OPEN_GATE, b);
      if s.path == [] && h.FieldAt? {
        OpenGateElement(b);
        if !SchemaBounds(h.header.wire) { SequenceHeaderShort(b); }
      }
      LimitAtBoundary(c, s, b, live);
    }
  }

  lemma LimitAtBoundary(c: Config, s: State, b: seq<byte>, live: nat)
    requires Charged(s, live) && c.cap >= 10 && s.pend.Idle?
    requires var o := BoundaryStep(c, s, b); o.Fail? && o.why == Limit
    requires var h := ReadHeader(OPEN_GATE, b);
             s.path == [] && h.FieldAt? ==> !h.notElement && (!SchemaBounds(h.header.wire) ==> h.size <= 10)
    ensures HandlersLimit(c, s, b) || SpanRefusal(c, s, b, live)
  {
    assert s.path == [] ==> LevelAt(c.root, s.path) == Live(c.root);
    hide AnswerTo, LevelAt, ReadHeader, GateOf, PlaceIf, Started;
  }

  /** Wherever a run is stopped with `Limit`, it was the handler's own, or the receiver was reading
      what the cap forbids. */
  ghost predicate FairlyStopped(c: Config, s: State, b: seq<byte>, live: nat)
    decreases |b|
  {
    match Machine.Step(c, s, b)
    case Need => true
    case Fail(why, _, _) => why == Limit ==> HandlersLimit(c, s, b) || SpanRefusal(c, s, b, live)
    case Go(t, n) => FairlyStopped(c, t, b[n..], LiveAfter(s, Machine.Step(c, s, b), live))
  }

  lemma {:induction false} RunsFairly(c: Config, s: State, b: seq<byte>, live: nat)
    requires Charged(s, live) && c.cap >= 10
    ensures FairlyStopped(c, s, b, live)
    decreases |b|
  {
    hide Machine.Step, HandlersLimit, SpanRefusal, LiveAfter, Charged;
    var o := Machine.Step(c, s, b);
    if o.Fail? && o.why == Limit { SkippedNeverCharged(c, s, b, live); }
    if o.Go? {
      ChargedOn(c, s, b, live);
      RunsFairly(c, o.next, b[o.size..], LiveAfter(s, o, live));
    }
  }
}
