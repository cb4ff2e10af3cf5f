/** The top level of the decode: where a field's span begins, where the cap is judged from a
    header alone, and where an over-cap field is first offered with its payload withheld. */
module TopLevel {
  import opened Varint
  import opened WireFormat
  import opened Handlers
  import opened Destination
  import opened Utf8
  import opened Machine
  import opened Progress
  import opened Cursor
  import opened Levels

  /** What a step at the top level does not change. */
  predicate TopKept(v: Look, w: Look)
  {
    && w.f.win == v.f.win && w.f.end == v.f.end && w.goal == v.goal && w.f.capInert == v.f.capInert
    && |w.ids| == |v.ids| && |w.skips| == |v.skips|
    && (w.f.refusal.None? ==> w.f.seqDepth == v.f.seqDepth && w.f.gate == v.f.gate && w.f.spanSkip == v.f.spanSkip)
  }

  /** How the parse of a window stands: refused, suspended, or between two top-level fields. */
  predicate TopDone(c: Config, v: Look, w: Look)
  {
    && TopKept(v, w)
    && if w.f.refusal.Some? then Refused(w)
       else if w.f.incomplete then
         Halted(c, w, []) && (TopLive(w.m) ==> Owed(w) == 0) && (InField(w.m) || w.f.p < w.f.end)
       else Flowing(c, w, [])
  }

  predicate TopAt(c: Config, v: Look)
  {
    Standing(c, v, [], Live(c.root)) && Flowing(c, v, [])
  }

  /** A new span begins. */
  function TopStart(v: Look): Look
  {
    v.(f := v.f.(spanCarry := 0, spanBase := v.f.p, spanSkipped := 0))
  }

  function FreshSpan(s: State): State
  {
    s.(span := 0, disc := 0)
  }

  lemma TopBoundary(c: Config, v: Look)
    requires TopAt(c, v) && v.f.p < v.f.end <= |v.f.win|
    ensures var (s, b) := (v.m, Rest(v.f));
            var h := ReadHeader(OPEN_GATE, b);
            && (h.CutHeader? ==> Run(c, s, b) == Stuck(s, b))
            && (h.BadHeader? ==> Run(c, s, b) == Failed(h.why, {}, s.dest))
            && (h.LevelEnd? ==> Run(c, s, b) == Failed(Invalid, {}, s.dest))
            && (h.FieldAt? ==> BoundaryStep(c, s, b) == OfferField(c, FreshSpan(s), h.header, h.size, h.notElement))
  {
    FlowingFacts(c, v, []);
    AtBoundary(c, v.m, Rest(v.f));
    StepStops(c, v.m, Rest(v.f));
    hide Machine.Step, Run, Good, LevelAt, ReadHeader, OfferField, Leads;
  }

  lemma TopCut(c: Config, v: Look, hdr: Header)
    requires TopAt(c, v) && v.f.p < v.f.end <= |v.f.win| && ReadHeader(OPEN_GATE, Rest(v.f)).CutHeader?
    ensures TopDone(c, v, SuspendedAt(TopStart(v), hdr))
  {
    TopBoundary(c, v);
    FlowingFacts(c, v, []);
    hide Run, Good, LevelAt, ReadHeader, BoundaryStep, OfferField;
  }

  lemma TopBad(c: Config, v: Look, hdr: Header, q: nat)
    requires TopAt(c, v) && v.f.p < v.f.end <= |v.f.win|
    requires var h := ReadHeader(OPEN_GATE, Rest(v.f)); h.BadHeader? || h.LevelEnd?
    ensures var h := ReadHeader(OPEN_GATE, Rest(v.f));
            var why := if h.BadHeader? then h.why else Invalid;
            var w := TopStart(v);
            TopDone(c, v, w.(f := w.f.(p := q, hdr := hdr, refusal := Some(why))))
  {
    TopBoundary(c, v);
    FlowingFacts(c, v, []);
    hide Run, Good, LevelAt, ReadHeader, BoundaryStep, OfferField;
  }

  // ---------------------------------------------------------------- the cap, from a header

  lemma Product(a: nat, b: nat, x: nat, y: nat)
    requires a <= x && b <= y
    ensures a * b <= x * y
  {
    calc <= {
      a * b;
      a * y;
      x * y;
    }
  }

  lemma HeaderBounds(g: Gate, b: seq<byte>)
    requires ReadHeader(g, b).FieldAt?
    ensures var h := ReadHeader(g, b).header; h.len <= FIXLEN_MAX && h.count <= ARRAY_MAX
  {
  }

  /** No header announces more than `CAP_NEED_MAX`, so nothing computed from one can wrap 64 bits. */
  lemma NeedBound(h: Header)
    requires h.len <= FIXLEN_MAX && h.count <= ARRAY_MAX
    ensures HeaderNeed(h) <= CAP_NEED_MAX < U64_LIMIT
    ensures SkipUnits(h) <= CAP_NEED_MAX || SkipUnits(h) == 1
  {
    Product(h.count, h.len, ARRAY_MAX, FIXLEN_MAX);
  }

  lemma InertHeader(c: Config, v: Look, n: nat)
    requires TopAt(c, v) && v.f.p < v.f.end <= |v.f.win| && ReadHeader(OPEN_GATE, Rest(v.f)).FieldAt?
    requires n == ReadHeader(OPEN_GATE, Rest(v.f)).size
    ensures v.f.p + n <= v.f.end && n > 0
    ensures v.f.capInert ==> !Exceeds(c.cap, n, HeaderNeed(ReadHeader(OPEN_GATE, Rest(v.f)).header))
  {
    HeaderBounds(OPEN_GATE, Rest(v.f));
    NeedBound(ReadHeader(OPEN_GATE, Rest(v.f)).header);
    HeaderSize(OPEN_GATE, Rest(v.f));
    hide Run, Good, LevelAt, ReadHeader, HeaderNeed;
  }

  lemma HeaderSize(g: Gate, b: seq<byte>)
    requires ReadHeader(g, b).FieldAt?
    ensures 1 <= ReadHeader(g, b).size <= |b| && (g == OPEN_GATE ==> !ReadHeader(g, b).notElement)
  {
  }

  // ---------------------------------------------------------------- offering a field

  /** The field's header has been read, from `v` to `w`. */
  predicate TopBegun(c: Config, v: Look, w: Look)
  {
    && w == TopStart(v).(f := TopStart(v).f.(p := w.f.p, hdr := w.f.hdr, consumed := false, pendDone := 0, utf8 := ACCEPT))
    && v.f.p < w.f.p <= v.f.end <= |v.f.win|
    && ReadHeader(OPEN_GATE, Rest(v.f)) == FieldAt(w.f.hdr, w.f.p - v.f.p, false)
  }

  lemma TopBegunFacts(c: Config, v: Look, w: Look)
    requires TopAt(c, v) && TopBegun(c, v, w)
    ensures v.f.p < w.f.p <= v.f.end <= |v.f.win| && InRun(c, v) && v.m.path == [] && v.m.pend.Idle? && Good(c, v.m)
    ensures v.goal == Run(c, v.m, Rest(v.f)) && v.m.dest == v.f.dest && Calm(v.f) && w.f.p - v.f.p <= |Rest(v.f)|
    ensures w == TopStart(v).(f := TopStart(v).f.(p := w.f.p, hdr := w.f.hdr, consumed := false, pendDone := 0, utf8 := ACCEPT))
    ensures BoundaryStep(c, v.m, Rest(v.f)) == OfferField(c, FreshSpan(v.m), w.f.hdr, w.f.p - v.f.p, false)
    ensures w.f.hdr.wire != SequenceEnd && (w.f.hdr.wire == SequenceStart ==> w.f.hdr == SequenceHeader(w.f.hdr.id))
  {
    hide Run, Good, LevelAt, ReadHeader, BoundaryStep, OfferField;
    HeaderShape(OPEN_GATE, Rest(v.f));
    TopBoundary(c, v);
    FlowingFacts(c, v, []);
  }

  /** The machine's step at the field's header. */
  function TopOffer(c: Config, v: Look, w: Look): StepResult
    requires v.f.p <= w.f.p
  {
    OfferField(c, FreshSpan(v.m), w.f.hdr, w.f.p - v.f.p, false)
  }

  lemma TopField(c: Config, s: State, b: seq<byte>, h: Header, n: nat)
    requires Good(c, s) && s.pend.Idle? && s.path == [] && n <= |b|
    requires BoundaryStep(c, s, b) == OfferField(c, FreshSpan(s), h, n, false)
    ensures var o := OfferField(c, FreshSpan(s), h, n, false);
            && (o.Fail? ==> Run(c, s, b) == Failed(o.why, o.at, o.dest))
            && (o.Go? ==> Leads(c, s, b, o.next, n) && o.next.span == n)
  {
    OfferSpan(c, FreshSpan(s), h, n, false);
    hide Machine.Step, Run, Good, Leads, BoundaryStep, OfferField;
    FieldRun(c, s, b, h, n, false);
  }

  lemma TopResumes(c: Config, v: Look, w: Look, o: StepResult)
    requires InRun(c, v) && v.f.p <= w.f.p <= v.f.end
    requires w == TopStart(v).(f := TopStart(v).f.(p := w.f.p, hdr := w.f.hdr, consumed := false, pendDone := 0, utf8 := ACCEPT))
    requires w.f.p - v.f.p <= |Rest(v.f)| && (o.Fail? ==> Run(c, v.m, Rest(v.f)) == Failed(o.why, o.at, o.dest))
    requires o.Go? ==> Leads(c, v.m, Rest(v.f), o.next, w.f.p - v.f.p) && o.next.span == w.f.p - v.f.p
    ensures Stepped(c, v, w, o)
  {
    hide Run, Good;
    Slices(v.f.win, v.f.p, v.f.end, w.f.p - v.f.p);
  }

  lemma TopStepsTo(c: Config, v: Look, w: Look)
    requires TopAt(c, v) && TopBegun(c, v, w)
    ensures v.f.p <= w.f.p && Stepped(c, v, w, OfferField(c, FreshSpan(v.m), w.f.hdr, w.f.p - v.f.p, false))
  {
    hide *;
    TopBegunFacts(c, v, w);
    TopField(c, v.m, Rest(v.f), w.f.hdr, w.f.p - v.f.p);
    TopResumes(c, v, w, OfferField(c, FreshSpan(v.m), w.f.hdr, w.f.p - v.f.p, false));
  }

  lemma TopSteps(c: Config, v: Look, w: Look)
    requires TopAt(c, v) && TopBegun(c, v, w)
    ensures v.f.p <= w.f.p && Stepped(c, v, w, TopOffer(c, v, w))
  {
    hide Stepped, TopAt, TopBegun, OfferField, FreshSpan;
    TopStepsTo(c, v, w);
  }

  /** A top-level field that is not over the cap, or is declined all the same, is put to the handler. */
  lemma TopPosed(c: Config, v: Look, w: Look)
    requires TopAt(c, v) && TopBegun(c, v, w)
    requires var a := AnswerTo(Live(c.root), w.f.hdr);
             (a.Decline? && SchemaBounds(w.f.hdr.wire)) || !Exceeds(c.cap, w.f.p - v.f.p, HeaderNeed(w.f.hdr))
    ensures var (n, a) := (w.f.p - v.f.p, AnswerTo(Live(c.root), w.f.hdr));
            var u := w.(m := NextState(FreshSpan(v.m), TopOffer(c, v, w), [], n, a));
            && Posed(c, u, [], a) && TopKept(v, u) && Standing(c, u, [], Live(c.root)) && Owed(u) == HeaderToll([], n, a)
  {
    TopSteps(c, v, w);
    TopBegunFacts(c, v, w);
    var (n, a) := (w.f.p - v.f.p, AnswerTo(Live(c.root), w.f.hdr));
    TopAtOffer(c, v, w);
    hide Run, Good, AnswerTo, LevelAt, GateOf, AtOffer, Posed, Offer, HeaderToll, InRun, TopAt, TopBegun, ReadHeader, OfferField, BoundaryStep, Stepped;
    Poses(c, FreshSpan(v.m), w, [], Live(c.root), n, a);
  }

  lemma TopAtOffer(c: Config, v: Look, w: Look)
    requires TopAt(c, v) && TopBegun(c, v, w) && v.f.p <= w.f.p && Stepped(c, v, w, TopOffer(c, v, w))
    requires w.f.hdr.wire != SequenceEnd && (w.f.hdr.wire == SequenceStart ==> w.f.hdr == SequenceHeader(w.f.hdr.id))
    requires var a := AnswerTo(Live(c.root), w.f.hdr);
             (a.Decline? && SchemaBounds(w.f.hdr.wire)) || !Exceeds(c.cap, w.f.p - v.f.p, HeaderNeed(w.f.hdr))
    ensures var (n, a) := (w.f.p - v.f.p, AnswerTo(Live(c.root), w.f.hdr));
            && TopOffer(c, v, w) == Offer(c, FreshSpan(v.m), w.f.hdr, n, a)
            && AtOffer(c, FreshSpan(v.m), w, [], Live(c.root), n, a) && TopKept(v, w) && w.f.spanSkipped == 0
            && Standing(c, w, [], Live(c.root))
  {
    hide Run, Good, AnswerTo, GateOf, Offer, OfferField, ReadHeader, Exceeds, HeaderNeed, Standing, InRun;
    TopBegunStanding(c, v, w);
    GoodFresh(c, v.m);
    TopIsOffer(c, FreshSpan(v.m), w.f.hdr, w.f.p - v.f.p);
  }

  lemma TopBegunStanding(c: Config, v: Look, w: Look)
    requires TopAt(c, v) && TopBegun(c, v, w)
    ensures Standing(c, w, [], Live(c.root)) && TopKept(v, w) && w.f.spanSkipped == 0
    ensures Calm(w.f) && !w.f.consumed && w.f.pendDone == 0 && w.f.utf8 == ACCEPT && w.f.p <= w.f.end <= |w.f.win|
    ensures w.f.dest == v.f.dest && v.m.dest == v.f.dest && v.m.path == [] && v.m.pend.Idle? && Good(c, v.m)
  {
    hide ReadHeader, Run, Good, GateOf;
  }

  lemma TopIsOffer(c: Config, s: State, h: Header, n: nat)
    requires s.path == []
    requires (AnswerTo(Live(c.root), h).Decline? && SchemaBounds(h.wire)) || !Exceeds(c.cap, n, HeaderNeed(h))
    ensures OfferField(c, s, h, n, false) == Offer(c, s, h, n, AnswerTo(Live(c.root), h))
  {
    hide AnswerTo, SkipField, TakeField, Exceeds, HeaderNeed;
  }

  lemma GoodFresh(c: Config, s: State)
    requires Good(c, s)
    ensures Good(c, FreshSpan(s))
  {
  }

  // ---------------------------------------------------------------- settling a field

  /** The handler has been offered a top-level field (`u`) and has left it (`w`). */
  predicate TopOffered(c: Config, v: Look, u: Look, w: Look, a: Answer)
  {
    && TopKept(v, u) && Posed(c, u, [], a) && Delivered(c, u, w, [], a) && (a.Take? ==> Owed(u) == 0)
  }

  lemma TopDelivered(c: Config, v: Look, u: Look, w: Look, a: Answer)
    requires TopOffered(c, v, u, w, a)
    ensures TopKept(v, w)
    ensures w.f.refusal.Some? ==> TopDone(c, v, w)
    ensures a.Refuse? ==> w.f.refusal.Some?
    ensures w.f.refusal.None? ==> w.f.p >= u.f.p && (a.Decline? <==> !w.f.incomplete && !w.f.consumed)
    ensures a.Decline? ==> w.f.refusal.None? && Skipping(c, w, []) && w.f.p == u.f.p && w.f.hdr.id == u.f.hdr.id
    ensures w.f.refusal.None? && a.Take? && w.f.consumed ==> TopDone(c, v, w) && !w.f.incomplete
    ensures w.f.refusal.None? && w.f.incomplete ==> Unsettled(c, w, [], u.f.hdr.id, false) && Owed(w) == 0
  {
    hide Run, Good, Saved, AnswerTo, Reading, PosedMessage;
    if a.Take? && w.f.refusal.None? { ReadSettled(c, u, w, [], u.f.hdr.id); }
  }

  /** A declined top-level field has been stepped over. */
  lemma TopSkipped(c: Config, v: Look, u: Look, w: Look, id: nat)
    requires TopKept(v, u) && SkipDone(c, u, w, [], id) && u.f.refusal.None?
    ensures TopKept(v, w)
    ensures w.f.refusal.Some? || !w.f.incomplete ==> TopDone(c, v, w)
    ensures w.f.refusal.None? ==> w.f.p >= u.f.p
    ensures w.f.refusal.None? && w.f.incomplete ==> Unsettled(c, w, [], id, true)
  {
    hide Run, Good, Saved;
  }

  /** The top level records where its field was cut. */
  lemma TopRecords(c: Config, v: Look, w: Look, id: nat, skip: bool)
    requires TopKept(v, w) && Unsettled(c, w, [], id, skip) && (!skip ==> Owed(w) == 0)
    requires w.f.seqDepth == 0 && |w.ids| == MAX_DEPTH + 1 && |w.skips| == MAX_DEPTH + 1
    ensures TopDone(c, v, Recorded(w, id, skip)) && Recorded(w, id, skip).f.incomplete
  {
    hide Run, Good;
  }

  lemma TopStanding(c: Config, v: Look, w: Look)
    requires Standing(c, v, [], Live(c.root)) && TopKept(v, w) && w.f.refusal.None?
    ensures Standing(c, w, [], Live(c.root))
  {
  }

  lemma TopChain(c: Config, v: Look, w: Look, x: Look)
    requires TopDone(c, v, w) && w.f.refusal.None? && TopDone(c, w, x)
    ensures TopDone(c, v, x)
  {
    hide Halted, Flowing, Refused, TopLive;
  }

  lemma TopAgain(c: Config, v: Look, w: Look)
    requires Standing(c, v, [], Live(c.root)) && TopDone(c, v, w) && w.f.refusal.None? && !w.f.incomplete
    ensures TopAt(c, w) && w.f.p <= w.f.end <= |w.f.win| && w.f.end == v.f.end
  {
    TopStanding(c, v, w);
    hide Run, Good, Standing;
  }

  /** A window that begins in the middle of a field. */
  lemma TopEntered(c: Config, v: Look, w: Look)
    requires FieldDone(c, v, w, []) && (TopLive(v.m) ==> Owed(v) == 0)
    requires w.f.refusal.None? && w.f.incomplete ==> TopLive(w.m) == TopLive(v.m) && InField(w.m)
    ensures TopDone(c, v, w)
  {
    hide Run, Good, TopLive, Saved;
  }

  // ---------------------------------------------------------------- a withheld offer

  /** The field as its handler sees it when its payload is withheld: the window ends at its header. */
  function Withheld(c: Config, v: Look, w: Look, a: Answer): Look
    requires v.f.p <= w.f.p
  {
    var (n, s) := (w.f.p - v.f.p, FreshSpan(v.m));
    var o := Offer(c, s, w.f.hdr, n, a);
    w.(m := NextState(s, o, [], n, a), goal := if o.Fail? then Failed(o.why, o.at, o.dest) else Run(c, o.next, []),
       f := w.f.(end := w.f.p))
  }

  lemma WithheldPosed(c: Config, v: Look, w: Look)
    requires TopAt(c, v) && TopBegun(c, v, w) && !w.f.capInert && SchemaBounds(w.f.hdr.wire)
    ensures v.f.p <= w.f.p
    ensures var a := AnswerTo(Live(c.root), w.f.hdr);
            var u := Withheld(c, v, w, a);
            Posed(c, u, [], a) && Standing(c, u, [], Live(c.root))
  {
    TopBegunFacts(c, v, w);
    var (n, a) := (w.f.p - v.f.p, AnswerTo(Live(c.root), w.f.hdr));
    WithheldAtOffer(c, v, w);
    hide Run, Good, AnswerTo, LevelAt, GateOf, AtOffer, Posed, Offer, HeaderToll, InRun, TopAt, TopBegun, ReadHeader, OfferField, BoundaryStep, Stepped;
    var x := Withheld(c, v, w, a);
    Poses(c, FreshSpan(v.m), x.(m := w.m), [], Live(c.root), n, a);
  }

  lemma WithheldAtOffer(c: Config, v: Look, w: Look)
    requires TopAt(c, v) && TopBegun(c, v, w) && !w.f.capInert && SchemaBounds(w.f.hdr.wire)
    ensures var (n, a) := (w.f.p - v.f.p, AnswerTo(Live(c.root), w.f.hdr));
            && AtOffer(c, FreshSpan(v.m), Withheld(c, v, w, a).(m := w.m), [], Live(c.root), n, a)
            && Standing(c, Withheld(c, v, w, a), [], Live(c.root))
  {
    TopBegunStanding(c, v, w);
    GoodFresh(c, v.m);
    TopBegunFacts(c, v, w);
    var (n, a) := (w.f.p - v.f.p, AnswerTo(Live(c.root), w.f.hdr));
    GoodPut(c, FreshSpan(v.m), w.f.hdr, n, a);
    assert w.f.spanCarry == 0 && w.f.spanBase == v.f.p;
    WithheldInRun(c, v, w, a, n);
    hide Run, Good, AnswerTo, GateOf, Offer, ReadHeader, NextState, OfferField, BoundaryStep, TopAt, TopBegun, SchemaBounds, TopKept, LevelAt, PlaceIf, HeaderToll, InRun, Standing;
  }

  lemma WithheldInRun(c: Config, v: Look, w: Look, a: Answer, n: nat)
    requires v.f.p <= w.f.p <= |w.f.win| && w.f.spanCarry == 0 && w.f.spanBase == v.f.p && !w.f.capInert
    requires n == w.f.p - v.f.p && Standing(c, w, [], Live(c.root))
    requires var o := Offer(c, FreshSpan(v.m), w.f.hdr, n, a); o.Go? ==> Good(c, o.next) && o.next.span == n
    ensures var o := Offer(c, FreshSpan(v.m), w.f.hdr, n, a);
            o.Go? ==> InRun(c, Withheld(c, v, w, a).(m := o.next))
    ensures Standing(c, Withheld(c, v, w, a), [], Live(c.root))
  {
    var o := Offer(c, FreshSpan(v.m), w.f.hdr, n, a);
    hide Run, Good, GateOf, Offer, NextState, LevelAt;
    if o.Go? {
      var u := Withheld(c, v, w, a).(m := o.next);
      assert Rest(u.f) == [];
    }
  }

  /** What a reachable state's field is put to leaves a reachable state. */
  lemma GoodPut(c: Config, s: State, h: Header, n: nat, a: Answer)
    requires Good(c, s) && s.pend.Idle? && h.wire != SequenceEnd && h.wire != SequenceStart
    requires a == AnswerTo(LevelAt(c.root, s.path), h)
    ensures var o := Offer(c, s, h, n, a); o.Go? ==> Good(c, o.next) && o.next.span == s.span + n
  {
    PlaceKeeps(s.dest, Ids(s.path), h.id, a.placed);
    var d := PlaceIf(a.placed, s.dest, Ids(s.path), h.id);
    GoodSkip(c, s, h, n, d);
    if a.Take? { GoodTake(c, s, a.read, h, n, d, a.placed); }
    hide Good, AnswerTo, LevelAt, PlaceIf;
  }

  lemma StartedElsewhere(r: Read, h: Header, d: Dest, key: Path)
    requires !r.ReadMessage?
    ensures Started(r, h, d, key) - {key} == d - {key}
  {
  }

  lemma WithheldFacts(c: Config, v: Look, w: Look, a: Answer)
    requires v.f.p <= w.f.p && w.f.p <= |w.f.win|
    ensures var (n, u) := (w.f.p - v.f.p, Withheld(c, v, w, a));
            var o := Offer(c, FreshSpan(v.m), w.f.hdr, n, a);
            && (o.Go? ==> u.goal == Run(c, u.m, []) && u.m == o.next)
            && (o.Fail? ==> u.goal == Failed(o.why, o.at, o.dest))
            && u.f == w.f.(end := w.f.p)
  {
    hide Run, Offer;
  }

  /** An engaged handler found no bytes: it has read nothing but an empty payload, and refused
      only what it refuses from the header. */
  lemma WithheldTaken(c: Config, u: Look, w: Look, id: nat)
    requires ReadDone(c, u, w, [], id) && u.f.p == u.f.end && Good(c, u.m) && u.goal == Run(c, u.m, [])
    ensures w.f.refusal.None? && (w.f.incomplete || w.f.consumed) && w.f.dest == u.m.dest
  {
    AtEnd(c, u.m);
    hide Run, Good, Saved;
    if w.f.refusal.None? { WithheldEnd(c, w); }
  }

  lemma WithheldEnd(c: Config, w: Look)
    requires InRun(c, w) ==> w.f.p == w.f.end
    ensures InRun(c, w) ==> w.goal == Stuck(w.m, [])
  {
    if InRun(c, w) {
      assert Rest(w.f) == [];
      AtEnd(c, w.m);
    }
    hide Run, Good;
  }

  /** The over-cap field of an engaged handler: the cap is this field's, unless the schema or a
      cap of the handler's own has refused it. */
  lemma OverCapRefuses(c: Config, v: Look, w: Look, x: Look)
    requires TopAt(c, v) && TopBegun(c, v, w) && !w.f.capInert && SchemaBounds(w.f.hdr.wire)
    requires Exceeds(c.cap, w.f.p - v.f.p, HeaderNeed(w.f.hdr)) && v.f.p <= w.f.p
    requires var a := AnswerTo(Live(c.root), w.f.hdr); !a.Decline? && Delivered(c, Withheld(c, v, w, a), x, [], a)
    ensures var a := AnswerTo(Live(c.root), w.f.hdr);
            var why := if a.Refuse? && a.why != Argument then a.why else Limit;
            && x.f.dest - {FieldKey([], w.f.hdr.id)} == PlaceIf(a.placed, w.f.dest, [], w.f.hdr.id) - {FieldKey([], w.f.hdr.id)}
            && v.goal == Failed(why, {FieldKey([], w.f.hdr.id)}, x.f.dest - {FieldKey([], w.f.hdr.id)})
            && (a.Refuse? ==> x.f.refusal == Some(a.why))
            && (a.Take? ==> x.f.refusal.None? && (x.f.incomplete || x.f.consumed))
  {
    TopSteps(c, v, w);
    TopBegunFacts(c, v, w);
    var (n, a) := (w.f.p - v.f.p, AnswerTo(Live(c.root), w.f.hdr));
    WithheldFacts(c, v, w, a);
    GoodFresh(c, v.m);
    OverCapStep(c, v, w, a);
    hide TopAt, TopBegun, ReadHeader, Run, Good, InRun, AnswerTo, LevelAt, Exceeds, HeaderNeed, Stepped, OfferField, BoundaryStep, Withheld;
    if a.Take? {
      GoodPut(c, FreshSpan(v.m), w.f.hdr, n, a);
      WithheldTaken(c, Withheld(c, v, w, a), x, w.f.hdr.id);
    }
  }

  lemma OverCapStep(c: Config, v: Look, w: Look, a: Answer)
    requires v.m.path == [] && v.m.dest == w.f.dest && SchemaBounds(w.f.hdr.wire) && v.f.p <= w.f.p
    requires Exceeds(c.cap, w.f.p - v.f.p, HeaderNeed(w.f.hdr)) && a == AnswerTo(Live(c.root), w.f.hdr)
    requires Stepped(c, v, w, TopOffer(c, v, w)) && !a.Decline?
    ensures var key := FieldKey([], w.f.hdr.id);
            var d := PlaceIf(a.placed, w.f.dest, [], w.f.hdr.id);
            v.goal == Failed(if a.Refuse? && a.why != Argument then a.why else Limit, {key}, d - {key})
    ensures a.Take? ==> !a.read.ReadMessage?
    ensures a.Take? ==>
            var key := FieldKey([], w.f.hdr.id);
            var d := PlaceIf(a.placed, w.f.dest, [], w.f.hdr.id);
            var o := Offer(c, FreshSpan(v.m), w.f.hdr, w.f.p - v.f.p, a);
            o.Go? && o.next.dest - {key} == d - {key}
    ensures a.Refuse? ==>
            var key := FieldKey([], w.f.hdr.id);
            var d := PlaceIf(a.placed, w.f.dest, [], w.f.hdr.id);
            Offer(c, FreshSpan(v.m), w.f.hdr, w.f.p - v.f.p, a) == Fail(a.why, {key}, d - {key})
  {
    AnswerShape(Live(c.root), w.f.hdr);
    if a.Take? && !a.read.ReadMessage? {
      StartedElsewhere(a.read, w.f.hdr, PlaceIf(a.placed, w.f.dest, [], w.f.hdr.id), FieldKey([], w.f.hdr.id));
    }
    hide Run, Good, AnswerTo, Exceeds, HeaderNeed, InRun, PlaceIf, Started;
  }

  /** The cursor and the goal put back after a withheld offer. */
  function Unheld(x: Look, v: Look, m: State): Look
  {
    x.(m := m, goal := v.goal, f := x.f.(end := v.f.end, incomplete := false, pendDone := 0))
  }

  lemma DeliveredKept(c: Config, u: Look, x: Look, path: seq<Frame>, a: Answer)
    requires Delivered(c, u, x, path, a)
    ensures Kept(u, x)
  {
    hide Refused, Flowing, Unsettled;
  }

  lemma OverCapDone(c: Config, v: Look, w: Look, x: Look, y: Look, a: Answer)
    requires TopAt(c, v) && TopBegun(c, v, w) && !w.f.capInert && SchemaBounds(w.f.hdr.wire) && v.f.p <= w.f.p
    requires Exceeds(c.cap, w.f.p - v.f.p, HeaderNeed(w.f.hdr))
    requires a == AnswerTo(Live(c.root), w.f.hdr) && !a.Decline? && Delivered(c, Withheld(c, v, w, a), x, [], a)
    requires var z := Unheld(x, v, y.m);
             y == if x.f.refusal.Some? && x.f.refusal.value != Argument then z else z.(f := z.f.(refusal := Some(Limit)))
    ensures TopDone(c, v, y)
    ensures x.f.incomplete || x.f.consumed || x.f.refusal.Some?
  {
    OverCapRefuses(c, v, w, x);
    DeliveredKept(c, Withheld(c, v, w, a), x, [], a);
    WithheldFacts(c, v, w, a);
    TopBegunStanding(c, v, w);
    hide TopAt, TopBegun, Run, Good, AnswerTo, Exceeds, HeaderNeed, Delivered, Standing, PlaceIf, Withheld, Offer;
  }

  lemma OverCapDeclined(c: Config, v: Look, w: Look, x: Look, a: Answer)
    requires TopAt(c, v) && TopBegun(c, v, w) && !w.f.capInert && SchemaBounds(w.f.hdr.wire) && v.f.p <= w.f.p
    requires a == AnswerTo(Live(c.root), w.f.hdr) && a.Decline? && Delivered(c, Withheld(c, v, w, a), x, [], a)
    ensures x.f.refusal.None? && !x.f.incomplete && !x.f.consumed
    ensures var y := Unheld(x, v, x.m);
            && Skipping(c, y, []) && TopKept(v, y) && Standing(c, y, [], Live(c.root)) && y.f.refusal.None?
            && y.f.p == w.f.p && y.f.hdr == w.f.hdr && y.f.incomplete == x.f.incomplete
  {
    TopPosed(c, v, w);
    TopIsOffer(c, FreshSpan(v.m), w.f.hdr, w.f.p - v.f.p);
    TopBegunStanding(c, v, w);
    hide TopAt, TopBegun, Run, Good, AnswerTo, Exceeds, HeaderNeed, Skipping, PlaceIf, Offer, OfferField, LevelAt, GateOf, InRun, HeaderToll, NextState;
  }

  lemma TopSeqDepth(c: Config, v: Look)
    requires TopAt(c, v)
    ensures v.f.seqDepth == 0 && Calm(v.f)
  {
    hide Run, Good;
  }

  lemma WithheldView(c: Config, v: Look, w: Look, a: Answer)
    requires v.f.p <= w.f.p
    ensures var u := Withheld(c, v, w, a); u.f == w.f.(end := w.f.p) && u.ids == w.ids && u.skips == w.skips
  {
    hide Offer, Run, NextState;
  }

  lemma HeldEnd(c: Config, v: Look, w: Look)
    requires TopBegun(c, v, w)
    ensures w.f.end == v.f.end && w.goal == v.goal
  {
    hide ReadHeader;
  }

  lemma OverCapEngages(c: Config, v: Look, w: Look, x: Look, a: Answer)
    requires TopAt(c, v) && TopBegun(c, v, w) && !w.f.capInert && SchemaBounds(w.f.hdr.wire) && v.f.p <= w.f.p
    requires Exceeds(c.cap, w.f.p - v.f.p, HeaderNeed(w.f.hdr))
    requires a == AnswerTo(Live(c.root), w.f.hdr) && !a.Decline? && Delivered(c, Withheld(c, v, w, a), x, [], a)
    ensures x.f.incomplete || x.f.consumed || x.f.refusal.Some?
  {
    hide *;
    OverCapRefuses(c, v, w, x);
  }

  /** A field whose header states no size the schema could bound has no one to ask. */
  lemma TopOverPlain(c: Config, v: Look, w: Look)
    requires TopAt(c, v) && TopBegun(c, v, w) && v.f.p <= w.f.p && !SchemaBounds(w.f.hdr.wire)
    requires Exceeds(c.cap, w.f.p - v.f.p, HeaderNeed(w.f.hdr))
    ensures TopDone(c, v, w.(f := w.f.(refusal := Some(Limit))))
  {
    TopSteps(c, v, w);
    TopBegunStanding(c, v, w);
    hide TopAt, TopBegun, Run, Good, AnswerTo, Exceeds, HeaderNeed, Standing, Offer, InRun, LevelAt;
  }

  lemma TopBegunInert(c: Config, v: Look, w: Look)
    requires TopAt(c, v) && TopBegun(c, v, w)
    ensures v.f.p < w.f.p <= v.f.end && w.f.spanCarry == 0 && w.f.spanBase == v.f.p && w.f.capInert == v.f.capInert
    ensures w.f.end == v.f.end && w.f.win == v.f.win
    ensures w.f.capInert ==> !Exceeds(c.cap, w.f.p - v.f.p, HeaderNeed(w.f.hdr))
  {
    InertHeader(c, v, w.f.p - v.f.p);
    hide Run, Good, ReadHeader, Exceeds, HeaderNeed;
  }

  lemma TopOfferedFrom(c: Config, v: Look, u: Look, w: Look, a: Answer, n: nat)
    requires TopKept(v, u) && Posed(c, u, [], a) && Delivered(c, u, w, [], a) && Owed(u) == HeaderToll([], n, a)
    ensures TopOffered(c, v, u, w, a)
  {
    hide Run, Good, Posed, Delivered, TopKept;
  }

  lemma SkipStanding(c: Config, u: Look, w: Look, id: nat)
    requires Standing(c, u, [], Live(c.root)) && SkipDone(c, u, w, [], id) && w.f.refusal.None?
    ensures w.f.seqDepth == 0 && |w.ids| == MAX_DEPTH + 1 && |w.skips| == MAX_DEPTH + 1
  {
    hide Run, Good, Flowing, Unsettled;
  }

  lemma TopBegunState(c: Config, v: Look, w: Look)
    requires TopBegun(c, v, w)
    ensures w.m == v.m && v.f.p < w.f.p
  {
    hide ReadHeader;
  }

  // ---------------------------------------------------------------- between windows

  /** The decoder at rest between two windows: the saved path and field are the machine's. */
  predicate Resting(c: Config, v: Look)
  {
    && v.f.refusal.None? && !v.f.replay && Good(c, v.m) && v.m.dest == v.f.dest && Standing(c, v, [], Live(c.root))
    && (if v.f.suspendDepth < 0 then v.f.suspendDepth == -1 && v.m.path == [] && v.m.pend.Idle?
        else v.f.suspendDepth == |v.m.path| && Saved(v, 0))
    && (v.m.path != [] || v.m.pend.Busy? ==> v.m.span == v.f.spanCarry)
    && (TopLive(v.m) ==> Owed(v) == 0)
  }

  /** Does the whole of a window stay out of the cap's reach? The sum is formed in 64 bits, and a
      sum that wrapped answers no. */
  predicate CapCannotFire(cap: nat, spanCarry: nat, n: nat)
  {
    var reach := (spanCarry + n) % U64_LIMIT;
    reach >= n && reach <= cap && cap - reach >= CAP_NEED_MAX
  }

  /** Where it says so, no span and no header of the window can reach the cap, whatever the bytes. */
  lemma CapCannotFireIsSound(cap: nat, spanCarry: nat, n: nat)
    requires cap < U64_LIMIT && spanCarry < U64_LIMIT && n < U64_LIMIT
    ensures CapCannotFire(cap, spanCarry, n) <==> spanCarry + n + CAP_NEED_MAX <= cap
    ensures CapCannotFire(cap, spanCarry, n) ==>
      forall consumed: nat, need: nat :: consumed <= spanCarry + n && need <= CAP_NEED_MAX ==> !Exceeds(cap, consumed, need)
  {
  }

  lemma CapInertHolds(cap: nat, spanCarry: nat, n: nat)
    requires spanCarry < U64_LIMIT && n < U64_LIMIT && CapCannotFire(cap, spanCarry, n)
    ensures spanCarry + n + CAP_NEED_MAX <= cap
  {
  }

  /** A window is opened. */
  function Opened(v: Look, s: seq<byte>, goal: Outcome, inert: bool): Look
  {
    v.(goal := goal,
       f := v.f.(win := s, p := 0, end := |s|, incomplete := false, replay := v.f.suspendDepth >= 0, spanBase := 0, capInert := inert))
  }

  lemma WindowOpens(c: Config, v: Look, s: seq<byte>, inert: bool)
    requires Resting(c, v) && (inert ==> v.f.spanCarry + |s| + CAP_NEED_MAX <= c.cap)
    ensures var u := Opened(v, s, Run(c, v.m, s), inert);
            && Standing(c, u, [], Live(c.root)) && (TopLive(u.m) ==> Owed(u) == 0)
            && (!u.f.replay ==> Flowing(c, u, [])) && (u.f.replay ==> Replaying(c, u, []))
  {
    assert s[0..|s|] == s;
    hide Run, Good;
  }

  /** A window is closed. */
  function Closed(w: Look): Look
    requires w.f.incomplete ==> w.f.p >= w.f.spanBase
  {
    w.(f := w.f.(replay := false, spanCarry := w.f.spanCarry + if w.f.incomplete then w.f.p - w.f.spanBase else 0))
  }

  lemma WindowCloses(c: Config, u: Look, w: Look)
    requires Standing(c, u, [], Live(c.root)) && TopDone(c, u, w) && u.f.end == |u.f.win|
    requires w.f.refusal.None? && !w.f.incomplete ==> w.f.p == w.f.end
    ensures w.f.refusal.Some? ==> Refused(w) && w.goal == u.goal && w.goal.Failed?
    ensures w.f.refusal.None? ==>
      && w.f.spanBase <= w.f.p <= |u.f.win| && Resting(c, Closed(w)) && w.goal == u.goal == Stuck(w.m, u.f.win[w.f.p..])
      && (if w.f.incomplete then w.f.suspendDepth >= 0 && (InField(w.m) || w.f.p < |u.f.win|)
          else w.f.p == |u.f.win| && w.f.suspendDepth == -1)
  {
    if w.f.refusal.None? {
      TopStanding(c, u, w);
      assert u.f.win[w.f.p..|u.f.win|] == u.f.win[w.f.p..];
      if !w.f.incomplete { FlowingEnd(c, w); }
    }
    hide Run, Good;
  }

  lemma FlowingEnd(c: Config, w: Look)
    requires Flowing(c, w, []) && w.f.p == w.f.end
    ensures w.goal == Stuck(w.m, [])
  {
    FlowingFacts(c, w, []);
    assert Rest(w.f) == [];
    AtEnd(c, w.m);
  }
}
