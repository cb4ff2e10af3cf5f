/** One level of the decode, as the decoder's fields see it: how a field's header is taken,
    how its handler is asked, and how the level ends, is suspended or is entered again. */
module Levels {
  import opened Varint
  import opened WireFormat
  import opened Handlers
  import opened Destination
  import opened Utf8
  import opened Machine
  import opened Progress
  import opened Cursor

  /** Is a field in progress at all? */
  predicate InField(s: State)
  {
    s.path != [] || s.pend.Busy?
  }

  /** Is the top-level field in progress one that is being read? */
  predicate TopLive(s: State)
  {
    if s.path == [] then s.pend.Busy? && !s.pend.skip else !s.path[0].skip
  }

  /** The parse stands in the level `path` leads to, whose handler is `l`. */
  predicate Standing(c: Config, v: Look, path: seq<Frame>, l: Level)
  {
    && |path| <= MAX_DEPTH && l == LevelAt(c.root, path) && v.f.seqDepth == |path|
    && v.f.gate == (if path == [] then OPEN_GATE else GateOf(l))
    && v.f.spanSkip == l.Skipped?
    && |v.ids| == MAX_DEPTH + 1 && |v.skips| == MAX_DEPTH + 1
  }

  /** A nested level is entered, for the first time or again. */
  predicate AtLevel(c: Config, v: Look, path: seq<Frame>, l: Level)
  {
    && path != [] && Standing(c, v, path, l)
    && (Flowing(c, v, path) || Replaying(c, v, path))
    && (l.Live? ==> Owed(v) == 0)
  }

  /** Between two fields of a nested level. */
  predicate AtField(c: Config, v: Look, path: seq<Frame>, l: Level)
  {
    && path != [] && Standing(c, v, path, l) && Flowing(c, v, path) && (l.Live? ==> Owed(v) == 0)
  }

  /** How a field of a level ends. */
  predicate FieldDone(c: Config, v: Look, w: Look, path: seq<Frame>)
  {
    && Kept(v, w) && Paid(v, w, path, false)
    && if w.f.refusal.Some? then Refused(w)
       else if w.f.incomplete then Halted(c, w, path)
       else Flowing(c, w, path)
  }

  /** How a nested level ends. */
  predicate LevelDone(c: Config, v: Look, w: Look, path: seq<Frame>)
    requires path != []
  {
    && Kept(v, w) && Paid(v, w, path, false)
    && if w.f.refusal.Some? then Refused(w)
       else if w.f.incomplete then Halted(c, w, path)
       else Flowing(c, w, path[..|path| - 1])
  }

  // ---------------------------------------------------------------- headers

  lemma FlowingFacts(c: Config, v: Look, path: seq<Frame>)
    requires Flowing(c, v, path)
    ensures v.f.spanBase <= v.f.p <= v.f.end <= |v.f.win| && v.m.path == path && v.m.pend.Idle? && v.m.dest == v.f.dest
    ensures Good(c, v.m) && Run(c, v.m, Rest(v.f)) == v.goal
    ensures Calm(v.f)
  {
    hide Run, Good;
  }

  /** The field's span, as the decoder counts it, is over the cap just when the machine finds it so. */
  lemma CapAgrees(c: Config, v: Look, path: seq<Frame>, l: Level)
    requires AtField(c, v, path, l) && v.f.spanBase <= v.f.p
    ensures l.Live? ==>
      var over := Exceeds(c.cap, SpanLive(v.m.span, v.m.disc), 0);
      && over == Exceeds(c.cap, SpanLive(v.f.spanCarry + (v.f.p - v.f.spanBase), v.f.spanSkipped), 0)
      && (v.f.capInert ==> !over)
  {
    hide Run, Good;
  }

  /** The machine's step at this boundary, from the header that was read. */
  lemma BoundaryIs(c: Config, v: Look, path: seq<Frame>, l: Level)
    requires AtField(c, v, path, l) && v.f.p < v.f.end <= |v.f.win|
    ensures var (s, b) := (v.m, Rest(v.f));
            var over := l.Live? && Exceeds(c.cap, SpanLive(s.span, s.disc), 0);
            var h := ReadHeader(v.f.gate, b);
            && (over ==> Run(c, s, b) == Failed(Limit, {}, s.dest))
            && (!over && h.CutHeader? ==> Run(c, s, b) == Stuck(s, b))
            && (!over && h.BadHeader? ==> Run(c, s, b) == Failed(h.why, {}, s.dest))
            && (!over && h.LevelEnd? ==> EndLevel(s, h.size).Go? && Leads(c, s, b, EndLevel(s, h.size).next, h.size))
            && (!over && h.FieldAt? ==> BoundaryStep(c, s, b) == OfferField(c, s, h.header, h.size, h.notElement))
  {
    FlowingFacts(c, v, path);
    AtBoundary(c, v.m, Rest(v.f));
    StepStops(c, v.m, Rest(v.f));
    var h := ReadHeader(v.f.gate, Rest(v.f));
    hide Machine.Step, Run, Good, LevelAt, ReadHeader, OfferField, Leads;
    if h.LevelEnd? && Machine.Step(c, v.m, Rest(v.f)).Go? {
      StepLeads(c, v.m, Rest(v.f), EndLevel(v.m, h.size).next, h.size);
    }
  }

  function SuspendedAt(v: Look, hdr: Header): Look
  {
    v.(f := v.f.(hdr := hdr, incomplete := true, suspendDepth := v.f.seqDepth, pend := false, pendSkip := false))
  }

  predicate Over(c: Config, v: Look, l: Level)
  {
    l.Live? && Exceeds(c.cap, SpanLive(v.m.span, v.m.disc), 0)
  }

  /** Where a level stops without a field: its span is over the cap, */
  lemma LevelOver(c: Config, v: Look, path: seq<Frame>, l: Level)
    requires AtField(c, v, path, l) && v.f.p < v.f.end <= |v.f.win| && Over(c, v, l)
    ensures LevelDone(c, v, v.(f := v.f.(refusal := Some(Limit))), path)
  {
    BoundaryIs(c, v, path, l);
    FlowingFacts(c, v, path);
    hide Run, Good, LevelAt, GateOf, ReadHeader, Exceeds, SpanLive;
  }

  lemma LevelHalts(c: Config, v: Look, path: seq<Frame>, l: Level, hdr: Header)
    requires AtField(c, v, path, l) && v.f.p <= v.f.end <= |v.f.win| && v.goal == Stuck(v.m, Rest(v.f))
    ensures LevelDone(c, v, SuspendedAt(v, hdr), path)
  {
    TollZero(path);
    hide Run, Good, LevelAt, GateOf;
  }

  /** the header is cut, */
  lemma LevelCut(c: Config, v: Look, path: seq<Frame>, l: Level, hdr: Header)
    requires AtField(c, v, path, l) && v.f.p < v.f.end <= |v.f.win| && !Over(c, v, l)
    requires ReadHeader(v.f.gate, Rest(v.f)).CutHeader?
    ensures LevelDone(c, v, SuspendedAt(v, hdr), path)
  {
    BoundaryIs(c, v, path, l);
    FlowingFacts(c, v, path);
    hide Run, Good, LevelAt, GateOf, ReadHeader, Exceeds, SpanLive, LevelDone, AtField, BoundaryStep, OfferField, SuspendedAt;
    LevelHalts(c, v, path, l, hdr);
  }

  /** malformed or over the armed index bound, */
  lemma LevelBad(c: Config, v: Look, path: seq<Frame>, l: Level, hdr: Header, q: nat)
    requires AtField(c, v, path, l) && v.f.p < v.f.end <= |v.f.win| && !Over(c, v, l)
    requires ReadHeader(v.f.gate, Rest(v.f)).BadHeader?
    ensures LevelDone(c, v, v.(f := v.f.(p := q, hdr := hdr, refusal := Some(ReadHeader(v.f.gate, Rest(v.f)).why))), path)
  {
    BoundaryIs(c, v, path, l);
    FlowingFacts(c, v, path);
    hide Run, Good, LevelAt, GateOf, ReadHeader, Exceeds, SpanLive;
  }

  lemma LevelLeft(c: Config, v: Look, path: seq<Frame>, l: Level, hdr: Header, n: nat)
    requires AtField(c, v, path, l) && v.f.p + n <= v.f.end <= |v.f.win|
    requires EndLevel(v.m, n).Go? && Leads(c, v.m, Rest(v.f), EndLevel(v.m, n).next, n)
    ensures LevelDone(c, v, v.(m := EndLevel(v.m, n).next, f := v.f.(p := v.f.p + n, hdr := hdr)), path)
  {
    hide Run, Good, LevelAt, GateOf;
    Slices(v.f.win, v.f.p, v.f.end, n);
  }

  /** or it is the end marker. */
  lemma LevelEnds(c: Config, v: Look, path: seq<Frame>, l: Level, hdr: Header, n: nat)
    requires AtField(c, v, path, l) && v.f.p < v.f.end <= |v.f.win| && !Over(c, v, l)
    requires ReadHeader(v.f.gate, Rest(v.f)) == LevelEnd(n)
    ensures v.m.path != [] && v.f.p + n <= v.f.end && EndLevel(v.m, n).Go?
    ensures LevelDone(c, v, v.(m := EndLevel(v.m, n).next, f := v.f.(p := v.f.p + n, hdr := hdr)), path)
  {
    FlowingFacts(c, v, path);
    BoundaryIs(c, v, path, l);
    assert v.f.p + n <= v.f.end by { HeaderFits(v.f.gate, Rest(v.f), n); }
    hide Run, Good, LevelAt, GateOf, ReadHeader, Exceeds, SpanLive, LevelDone, Leads, OfferField, AtField, Over, BoundaryStep;
    LevelLeft(c, v, path, l, hdr, n);
  }

  lemma HeaderFits(g: Gate, b: seq<byte>, n: nat)
    requires ReadHeader(g, b) == LevelEnd(n)
    ensures 1 <= n <= |b|
  {
  }

  /** No bytes are left and the level is still open. */
  lemma LevelOpen(c: Config, v: Look, path: seq<Frame>, l: Level)
    requires AtField(c, v, path, l) && v.f.p == v.f.end <= |v.f.win|
    ensures LevelDone(c, v, SuspendedAt(v, v.f.hdr), path)
  {
    FlowingFacts(c, v, path);
    AtEnd(c, v.m);
    assert Rest(v.f) == [];
    hide Run, Good, LevelAt, GateOf, LevelDone, AtField, SuspendedAt;
    LevelHalts(c, v, path, l, v.f.hdr);
  }

  // ---------------------------------------------------------------- offering a field

  /** The field's header has been read, from `v` to `w`. */
  predicate Begun(c: Config, v: Look, w: Look, path: seq<Frame>, l: Level, notElement: bool)
  {
    && w == v.(f := v.f.(p := w.f.p, hdr := w.f.hdr, consumed := false, pendDone := 0, utf8 := ACCEPT))
    && v.f.p < w.f.p <= v.f.end <= |v.f.win| && !Over(c, v, l)
    && ReadHeader(v.f.gate, Rest(v.f)) == FieldAt(w.f.hdr, w.f.p - v.f.p, notElement)
  }

  function FieldKey(path: seq<Frame>, id: nat): Path
  {
    Ids(path) + [id]
  }

  /** A sequence its handler reads is about to be entered, for the first time or again. */
  predicate PosedMessage(c: Config, v: Look, path: seq<Frame>, node: Node)
  {
    var f := Frame(v.f.hdr.id, false);
    var d := Prepare(node, v.f.dest, FieldKey(path, f.id));
    && |path| <= MAX_DEPTH && v.f.refusal.None? && !v.f.incomplete && !v.f.consumed
    && if v.f.replay then Replaying(c, v, path + [f]) && Owed(v) == 0
       else
         && v.f.suspendDepth == -1
         && if |path| == MAX_DEPTH then
              v.goal == Failed(Invalid, {FieldKey(path, f.id)}, d - {FieldKey(path, f.id)})
            else InRun(c, v) && v.m.path == path + [f] && v.m.pend.Idle? && v.m.dest == d && Owed(v) == 0
  }

  /** The handler is about to be asked about the field in hand, and will answer `a`. */
  predicate Posed(c: Config, v: Look, path: seq<Frame>, a: Answer)
  {
    var key := FieldKey(path, v.f.hdr.id);
    var d := PlaceIf(a.placed, v.f.dest, Ids(path), v.f.hdr.id);
    && v.f.refusal.None? && !v.f.incomplete && !v.f.consumed
    && match a
       case Refuse(why, _) => v.goal == Failed(why, {key}, d - {key})
       case Decline(_) => Skipping(c, v.(f := v.f.(dest := d)), path)
       case Take(r, _) =>
         && AnswerTo(LevelAt(c.root, path), v.f.hdr) == a
         && if r.ReadMessage? then
              PosedMessage(c, v.(f := v.f.(dest := d)), path, r.node) && v.f.hdr == SequenceHeader(v.f.hdr.id)
            else Reading(c, v.(f := v.f.(dest := d)), path, r)
  }

  /** What a field's `n` header bytes are owed. */
  function HeaderToll(path: seq<Frame>, n: nat, a: Answer): nat
  {
    Toll(path, n) + if a.Decline? then n else 0
  }

  /** Where the machine stands after a field's header; a refusal has only its bytes to account for. */
  function NextState(s: State, o: StepResult, path: seq<Frame>, n: nat, a: Answer): State
  {
    if o.Go? then o.next else s.(disc := s.disc + HeaderToll(path, n, a))
  }

  /** Where the machine goes from a field's header: refused, or to a state the rest of the
      window continues. */
  predicate Stepped(c: Config, v: Look, w: Look, o: StepResult)
  {
    && (o.Fail? ==> v.goal == Failed(o.why, o.at, o.dest))
    && (o.Go? ==> InRun(c, w.(m := o.next)))
  }

  lemma BegunFacts(c: Config, v: Look, w: Look, path: seq<Frame>, l: Level, notElement: bool)
    requires AtField(c, v, path, l) && Begun(c, v, w, path, l, notElement)
    ensures v.f.p < w.f.p <= v.f.end <= |v.f.win| && InRun(c, v) && v.m.path == path && path != [] && v.m.pend.Idle? && Good(c, v.m)
    ensures v.goal == Run(c, v.m, Rest(v.f)) && w.f.p - v.f.p <= |Rest(v.f)|
    ensures w == v.(f := v.f.(p := w.f.p, hdr := w.f.hdr, consumed := false, pendDone := 0, utf8 := ACCEPT))
    ensures BoundaryStep(c, v.m, Rest(v.f)) == OfferField(c, v.m, w.f.hdr, w.f.p - v.f.p, notElement)
    ensures w.f.hdr.wire != SequenceEnd && (w.f.hdr.wire == SequenceStart ==> w.f.hdr == SequenceHeader(w.f.hdr.id))
  {
    hide Run, Good, LevelAt, GateOf, ReadHeader, Exceeds, SpanLive, Leads, Machine.Step, BoundaryStep, OfferField, EndLevel;
    FlowingFacts(c, v, path);
    HeaderShape(v.f.gate, Rest(v.f));
    BoundaryIs(c, v, path, l);
  }

  lemma BegunSteps(c: Config, v: Look, w: Look, path: seq<Frame>, l: Level, notElement: bool)
    requires AtField(c, v, path, l) && Begun(c, v, w, path, l, notElement)
    ensures w.f.p >= v.f.p && Stepped(c, v, w, OfferField(c, v.m, w.f.hdr, w.f.p - v.f.p, notElement))
    ensures w.f.hdr.wire != SequenceEnd && (w.f.hdr.wire == SequenceStart ==> w.f.hdr == SequenceHeader(w.f.hdr.id))
  {
    hide *;
    BegunFacts(c, v, w, path, l, notElement);
    NestedField(c, v.m, Rest(v.f), w.f.hdr, w.f.p - v.f.p, notElement);
    Resumes(c, v, w, OfferField(c, v.m, w.f.hdr, w.f.p - v.f.p, notElement));
  }

  lemma NestedField(c: Config, s: State, b: seq<byte>, h: Header, n: nat, notElement: bool)
    requires Good(c, s) && s.pend.Idle? && s.path != [] && n <= |b|
    requires BoundaryStep(c, s, b) == OfferField(c, s, h, n, notElement)
    ensures var o := OfferField(c, s, h, n, notElement);
            && (o.Fail? ==> Run(c, s, b) == Failed(o.why, o.at, o.dest))
            && (o.Go? ==> Leads(c, s, b, o.next, n) && o.next.span == s.span + n)
  {
    OfferSpan(c, s, h, n, notElement);
    hide Machine.Step, Run, Good, Leads, BoundaryStep, OfferField;
    FieldRun(c, s, b, h, n, notElement);
  }

  lemma HeaderShape(g: Gate, b: seq<byte>)
    requires ReadHeader(g, b).FieldAt?
    ensures var h := ReadHeader(g, b).header; h.wire != SequenceEnd && (h.wire == SequenceStart ==> h == SequenceHeader(h.id))
  {
  }

  /** The header's own bytes are all a field has spent when it is offered. */
  lemma OfferSpan(c: Config, s: State, h: Header, n: nat, notElement: bool)
    ensures var o := OfferField(c, s, h, n, notElement); o.Go? ==> o.next.span == s.span + n
  {
  }

  lemma Resumes(c: Config, v: Look, w: Look, o: StepResult)
    requires InRun(c, v) && v.m.path != [] && v.f.p <= w.f.p <= v.f.end
    requires w == v.(f := v.f.(p := w.f.p, hdr := w.f.hdr, consumed := false, pendDone := 0, utf8 := ACCEPT))
    requires w.f.p - v.f.p <= |Rest(v.f)| && (o.Fail? ==> Run(c, v.m, Rest(v.f)) == Failed(o.why, o.at, o.dest))
    requires o.Go? ==> Leads(c, v.m, Rest(v.f), o.next, w.f.p - v.f.p) && o.next.span == v.m.span + (w.f.p - v.f.p)
    ensures Stepped(c, v, w, o)
  {
    hide Run, Good;
    Slices(v.f.win, v.f.p, v.f.end, w.f.p - v.f.p);
  }

  /** A field of level `path` stands at the end of its header, from machine state `s`. */
  predicate AtOffer(c: Config, s: State, u: Look, path: seq<Frame>, l: Level, n: nat, a: Answer)
  {
    && Standing(c, u, path, l) && Calm(u.f) && !u.f.consumed && u.f.pendDone == 0 && u.f.utf8 == ACCEPT
    && s.path == path && s.pend.Idle? && s.dest == u.f.dest && Good(c, s) && u.f.p <= u.f.end <= |u.f.win|
    && u.f.hdr.wire != SequenceEnd && (u.f.hdr.wire == SequenceStart ==> u.f.hdr == SequenceHeader(u.f.hdr.id))
    && (a == Decline(false) || a == AnswerTo(l, u.f.hdr))
    && (l.Live? ==> s.disc == u.f.spanSkipped)
    && var o := Offer(c, s, u.f.hdr, n, a);
       && (o.Fail? ==> u.goal == Failed(o.why, o.at, o.dest))
       && (o.Go? ==> InRun(c, u.(m := o.next)))
  }

  lemma PosesDecline(c: Config, s: State, u: Look, path: seq<Frame>, l: Level, n: nat, a: Answer)
    requires AtOffer(c, s, u, path, l, n, a) && a.Decline?
    ensures var o := Offer(c, s, u.f.hdr, n, a);
            && Posed(c, u.(m := NextState(u.m, o, path, n, a)), path, a)
            && (o.Go? ==> o.next.disc == s.disc + HeaderToll(path, n, a))
  {
    hide Run, Good, LevelAt, GateOf, Toll, AnswerTo, Prepare;
  }

  lemma PosesRefuse(c: Config, s: State, u: Look, path: seq<Frame>, l: Level, n: nat, a: Answer)
    requires AtOffer(c, s, u, path, l, n, a) && a.Refuse?
    ensures var o := Offer(c, s, u.f.hdr, n, a);
            o.Fail? && Posed(c, u.(m := NextState(u.m, o, path, n, a)), path, a)
  {
    hide Run, Good, LevelAt, GateOf, Toll, AnswerTo, Prepare, InRun;
  }

  lemma PosesRead(c: Config, s: State, u: Look, path: seq<Frame>, l: Level, n: nat, a: Answer)
    requires AtOffer(c, s, u, path, l, n, a) && a.Take? && !a.read.ReadMessage?
    ensures var o := Offer(c, s, u.f.hdr, n, a);
            && Posed(c, u.(m := NextState(u.m, o, path, n, a)), path, a)
            && (o.Go? ==> o.next.disc == s.disc + HeaderToll(path, n, a))
  {
    hide Run, Good, LevelAt, GateOf, Toll, AnswerTo, Prepare;
  }

  lemma PosesMessage(c: Config, s: State, u: Look, path: seq<Frame>, l: Level, n: nat, a: Answer)
    requires AtOffer(c, s, u, path, l, n, a) && a.Take? && a.read.ReadMessage?
    ensures var o := Offer(c, s, u.f.hdr, n, a);
            && Posed(c, u.(m := NextState(u.m, o, path, n, a)), path, a)
            && (o.Go? ==> o.next.disc == s.disc + HeaderToll(path, n, a))
  {
    AnswerShape(l, u.f.hdr);
    assert l.Live? by { OnlyLive(l, u.f.hdr); }
    TollLive(c.root, path, n);
    hide Run, Good, LevelAt, GateOf, Toll, AnswerTo, Prepare;
  }

  lemma OnlyLive(l: Level, h: Header)
    requires !AnswerTo(l, h).Decline?
    ensures l.Live?
  {
  }

  lemma Poses(c: Config, s: State, u: Look, path: seq<Frame>, l: Level, n: nat, a: Answer)
    requires AtOffer(c, s, u, path, l, n, a)
    ensures var o := Offer(c, s, u.f.hdr, n, a);
            && Posed(c, u.(m := NextState(u.m, o, path, n, a)), path, a)
            && (o.Go? ==> o.next.disc == s.disc + HeaderToll(path, n, a))
  {
    hide Posed, AtOffer, Offer, Toll, NextState, HeaderToll;
    match a
    case Decline(_) => PosesDecline(c, s, u, path, l, n, a);
    case Refuse(_, _) => PosesRefuse(c, s, u, path, l, n, a);
    case Take(r, _) => if r.ReadMessage? { PosesMessage(c, s, u, path, l, n, a); } else { PosesRead(c, s, u, path, l, n, a); }
  }

  // ---------------------------------------------------------------- settling a field

  /** What the handler did with the field it was offered. */
  predicate Delivered(c: Config, v: Look, w: Look, path: seq<Frame>, a: Answer)
  {
    match a
    case Decline(placed) => w == v.(f := v.f.(dest := PlaceIf(placed, v.f.dest, Ids(path), v.f.hdr.id)))
    case Refuse(_, _) => Kept(v, w) && Refused(w)
    case Take(_, _) => ReadDone(c, v, w, path, v.f.hdr.id)
  }

  /** The field has been offered, since `v0`: declined and still to be stepped over, or read. */
  predicate Settle(c: Config, v0: Look, w: Look, path: seq<Frame>, a: Answer, id: nat)
  {
    Kept(v0, w) &&
    if a.Decline? then
      && Skipping(c, w, path) && w.f.hdr.id == id && !w.f.consumed
      && v0.f.p <= w.f.p && Owed(w) == Owed(v0) + Toll(path, w.f.p - v0.f.p) + w.f.p - v0.f.p
    else if a.Refuse? then Refused(w)
    else ReadDone(c, v0, w, path, id)
  }

  /** From the start of its header (`v0`) over its offer (`u`) to what the handler left (`w`). */
  lemma Settles(c: Config, v0: Look, u: Look, w: Look, path: seq<Frame>, a: Answer)
    requires Kept(v0, u) && v0.f.p <= u.f.p && Owed(u) == Owed(v0) + HeaderToll(path, u.f.p - v0.f.p, a)
    requires Posed(c, u, path, a) && Delivered(c, u, w, path, a)
    ensures Settle(c, v0, w, path, a, u.f.hdr.id)
  {
    hide Run, Good, LevelAt, AnswerTo, Flowing, Unsettled, Reading, Replaying, PosedMessage, InRun, Skipping;
    if a.Take? && w.f.refusal.None? { TollAdd(path, u.f.p - v0.f.p, w.f.p - u.f.p); }
  }

  /** The field is over, or its level has yet to record where it was cut. */
  predicate LeftBehind(c: Config, v0: Look, w: Look, path: seq<Frame>, id: nat, skip: bool)
  {
    && Kept(v0, w) && Paid(v0, w, path, false)
    && if w.f.refusal.Some? then Refused(w)
       else if w.f.incomplete then Unsettled(c, w, path, id, skip)
       else Flowing(c, w, path)
  }

  lemma ReadSettled(c: Config, v0: Look, w: Look, path: seq<Frame>, id: nat)
    requires ReadDone(c, v0, w, path, id)
    ensures LeftBehind(c, v0, w, path, id, false) && (w.f.refusal.None? ==> w.f.incomplete == !w.f.consumed)
  {
    hide Run, Good, Saved;
  }

  function Discounted(w: Look, n: nat): Look
  {
    w.(f := w.f.(spanSkipped := w.f.spanSkipped + n))
  }

  /** What the skip walked past is discounted, from the field's first byte. */
  lemma SkipSettled(c: Config, v0: Look, v: Look, w: Look, path: seq<Frame>, id: nat)
    requires Kept(v0, v) && v0.f.p <= v.f.p && Owed(v) == Owed(v0) + Toll(path, v.f.p - v0.f.p) + v.f.p - v0.f.p
    requires SkipDone(c, v, w, path, id) && v.f.refusal.None?
    ensures w.f.refusal.None? ==> w.f.p >= v.f.p >= v0.f.p
    ensures LeftBehind(c, v0, Discounted(w, if w.f.p >= v0.f.p then w.f.p - v0.f.p else 0), path, id, true)
  {
    hide Run, Good;
    if w.f.refusal.None? { TollAdd(path, v.f.p - v0.f.p, w.f.p - v.f.p); }
  }

  /** A level's record of where its field was cut. */
  function Recorded(w: Look, id: nat, skip: bool): Look
    requires w.f.seqDepth < |w.ids| && w.f.seqDepth < |w.skips|
  {
    if w.f.suspendDepth >= 0 then
      w.(ids := w.ids[w.f.seqDepth := id], skips := w.skips[w.f.seqDepth := skip])
    else w.(f := w.f.(suspendDepth := w.f.seqDepth, pend := true, pendSkip := skip, pendHdr := w.f.hdr))
  }

  lemma Records(c: Config, v0: Look, w: Look, path: seq<Frame>, id: nat, skip: bool)
    requires LeftBehind(c, v0, w, path, id, skip) && w.f.refusal.None? && w.f.incomplete
    requires |path| <= MAX_DEPTH && w.f.seqDepth == |path| && |w.ids| == MAX_DEPTH + 1 && |w.skips| == MAX_DEPTH + 1
    ensures FieldDone(c, v0, Recorded(w, id, skip), path) && Recorded(w, id, skip).f.incomplete && Recorded(w, id, skip).f.refusal.None?
  {
    hide Run, Good;
  }

  lemma NotCut(c: Config, v0: Look, w: Look, path: seq<Frame>, id: nat, skip: bool)
    requires LeftBehind(c, v0, w, path, id, skip) && (w.f.refusal.Some? || !w.f.incomplete)
    ensures FieldDone(c, v0, w, path)
  {
    hide Run, Good;
  }

  // ---------------------------------------------------------------- sequences

  function Entered(v: Look, gate: Gate, spanSkip: bool): Look
  {
    v.(f := v.f.(gate := gate, spanSkip := spanSkip, seqDepth := v.f.seqDepth + 1))
  }

  lemma LevelBelow(root: Node, path: seq<Frame>, f: Frame)
    ensures LevelAt(root, path + [f]) == ChildLevel(LevelAt(root, path), f)
  {
    assert (path + [f])[..|path|] == path;
  }

  /** A sequence nobody asked for is walked as a level without a handler. */
  lemma SkipEnters(c: Config, v: Look, path: seq<Frame>, l: Level, id: nat)
    requires Standing(c, v, path, l) && |path| < MAX_DEPTH
    requires var p1 := path + [Frame(id, true)]; Flowing(c, v, p1) || Replaying(c, v, p1)
    ensures AtLevel(c, Entered(v, OPEN_GATE, true), path + [Frame(id, true)], Skipped)
  {
    LevelBelow(c.root, path, Frame(id, true));
    hide Run, Good, LevelAt, Replaying;
    if Replaying(c, v, path + [Frame(id, true)]) { ReplayingEntered(c, v, path + [Frame(id, true)], OPEN_GATE, true); }
  }

  lemma ReplayingEntered(c: Config, v: Look, path: seq<Frame>, gate: Gate, spanSkip: bool)
    requires Replaying(c, v, path)
    ensures Replaying(c, Entered(v, gate, spanSkip), path)
  {
    hide Run, Good;
  }

  function Left(w: Look, v: Look): Look
  {
    w.(f := w.f.(gate := v.f.gate, spanSkip := v.f.spanSkip, seqDepth := v.f.seqDepth))
  }

  lemma SkipLeaves(c: Config, v: Look, v1: Look, w1: Look, path: seq<Frame>, id: nat)
    requires v1 == Entered(v, OPEN_GATE, true) && LevelDone(c, v1, w1, path + [Frame(id, true)])
    ensures SkipDone(c, v, Left(w1, v), path, id)
  {
    hide Run, Good;
    var p1 := path + [Frame(id, true)];
    assert p1[..|p1| - 1] == path;
    if w1.f.refusal.None? { TollPush(path, Frame(id, true), w1.f.p - v.f.p); }
  }

  /** A sequence its handler reads is entered under the gate of its own elements. */
  lemma MessageEnters(c: Config, v: Look, path: seq<Frame>, l: Level, node: Node)
    requires Standing(c, v, path, l) && PosedMessage(c, v, path, node) && |path| < MAX_DEPTH
    requires v.f.hdr == SequenceHeader(v.f.hdr.id)
    requires AnswerTo(l, v.f.hdr).Take? && AnswerTo(l, v.f.hdr).read == ReadMessage(node)
    ensures var d := if v.f.replay then v.f.dest else Prepare(node, v.f.dest, FieldKey(path, v.f.hdr.id));
            AtLevel(c, Entered(v.(f := v.f.(dest := d)), GateOf(Live(node)), v.f.spanSkip), path + [Frame(v.f.hdr.id, false)], Live(node))
  {
    LevelBelow(c.root, path, Frame(v.f.hdr.id, false));
    OnlyLive(l, v.f.hdr);
    hide Run, Good, LevelAt, GateOf, AnswerTo, Replaying, Prepare;
    if v.f.replay { ReplayingEntered(c, v, path + [Frame(v.f.hdr.id, false)], GateOf(Live(node)), v.f.spanSkip); }
  }

  /** A sequence that is entered again was not too deep the first time. */
  lemma FreshTooDeep(c: Config, v: Look, path: seq<Frame>, node: Node)
    requires PosedMessage(c, v, path, node)
    ensures |path| == MAX_DEPTH ==> !v.f.replay
  {
    hide Run, Good, Prepare;
  }

  lemma MessageTooDeep(c: Config, v: Look, path: seq<Frame>, node: Node, w: Look)
    requires PosedMessage(c, v, path, node) && |path| == MAX_DEPTH && !v.f.replay
    requires var d := Prepare(node, v.f.dest, FieldKey(path, v.f.hdr.id));
             w == v.(f := v.f.(dest := d, gate := w.f.gate, refusal := Some(Invalid)))
    ensures ReadDone(c, v, w, path, v.f.hdr.id)
  {
    hide Run, Good, Prepare;
  }

  /** Back from a sequence: consumed if it ended. */
  lemma MessageLeaves(c: Config, v: Look, v1: Look, w1: Look, path: seq<Frame>)
    requires v1 == Entered(v.(f := v.f.(dest := v1.f.dest)), v1.f.gate, v.f.spanSkip)
    requires LevelDone(c, v1, w1, path + [Frame(v.f.hdr.id, false)])
    ensures var w := Left(w1, v); ReadDone(c, v, w.(f := w.f.(consumed := !w.f.incomplete)), path, v.f.hdr.id)
  {
    hide Run, Good;
    var p1 := path + [Frame(v.f.hdr.id, false)];
    assert p1[..|p1| - 1] == path;
    if w1.f.refusal.None? { TollPush(path, Frame(v.f.hdr.id, false), w1.f.p - v.f.p); }
  }

  // ---------------------------------------------------------------- on the way back

  /** The level where the field in hand is. */
  predicate Resumable(c: Config, v: Look, path: seq<Frame>)
  {
    && Calm(v.f) && Synced(c, v) && v.m.path == path && v.m.pend == Busy(v.f.pendHdr, v.f.pendSkip, v.f.pendDone, v.f.utf8)
  }

  function Reached(v: Look): Look
  {
    v.(f := v.f.(replay := false, suspendDepth := -1))
  }

  /** How a level is entered, from the flags that were left. */
  lemma Reentry(c: Config, v: Look, path: seq<Frame>)
    requires Replaying(c, v, path)
    ensures |path| <= v.f.suspendDepth
    ensures |path| == v.f.suspendDepth ==>
      if v.f.pend then Resumable(c, Reached(v), path) else Flowing(c, Reached(v), path)
  {
    hide Run, Good;
    if |path| == |v.m.path| { assert path == v.m.path; }
  }

  /** The half-delivered field, its header put back. */
  function Restored(v: Look): Look
  {
    v.(f := v.f.(hdr := v.f.pendHdr, consumed := false))
  }

  lemma ResumesSkip(c: Config, v: Look, path: seq<Frame>)
    requires Resumable(c, v, path) && v.f.pendSkip && |path| <= MAX_DEPTH
    ensures Skipping(c, Restored(v), path)
  {
    hide Run;
    InHandSkip(c, v.m);
    hide Good;
  }

  lemma ResumesRead(c: Config, v: Look, path: seq<Frame>, l: Level)
    requires Resumable(c, v, path) && !v.f.pendSkip && l == LevelAt(c.root, path)
    ensures Posed(c, Restored(v), path, AnswerTo(l, v.f.pendHdr)) && AnswerTo(l, v.f.pendHdr).Take?
  {
    hide Run;
    InHandRead(c, v.m);
    hide Good, AnswerTo, LevelAt, Started;
  }

  /** The sequence this level was in, its header put back. */
  function Redescended(v: Look, id: nat): Look
  {
    v.(f := v.f.(hdr := SequenceHeader(id), consumed := false))
  }

  lemma {:induction false} PathOkAt(root: Node, path: seq<Frame>, d: Dest, k: nat)
    requires PathOk(root, path, d) && k < |path|
    ensures var l := LevelAt(root, path[..k]); FrameOk(l, path[k]) && FramePlaced(l, path[k], d, Ids(path[..k]))
    decreases |path|
  {
    if k + 1 < |path| {
      PathOkAt(root, path[..|path| - 1], d, k);
      assert path[..|path| - 1][..k] == path[..k];
    }
  }

  lemma NextFrame(path: seq<Frame>, mpath: seq<Frame>)
    requires path <= mpath && |path| < |mpath|
    ensures mpath[..|path|] == path && path + [mpath[|path|]] <= mpath
  {
    assert path + [mpath[|path|]] == mpath[..|path| + 1];
  }

  lemma DescendsSkip(c: Config, v: Look, path: seq<Frame>)
    requires Replaying(c, v, path) && |path| < v.f.suspendDepth
    ensures |path| < MAX_DEPTH && |v.ids| == MAX_DEPTH + 1 && |v.skips| == MAX_DEPTH + 1
    ensures Replaying(c, Redescended(v, v.ids[|path|]), path + [Frame(v.ids[|path|], v.skips[|path|])])
    ensures path == [] ==> TopLive(v.m) == !v.skips[|path|]
  {
    NextFrame(path, v.m.path);
    hide Run, Good;
  }

  lemma DescendsAnswer(c: Config, v: Look, path: seq<Frame>, l: Level)
    requires Replaying(c, v, path) && |path| < v.f.suspendDepth && l == LevelAt(c.root, path)
    requires |v.skips| == MAX_DEPTH + 1 && |v.ids| == MAX_DEPTH + 1 && |path| < MAX_DEPTH && !v.skips[|path|]
    ensures var id := v.ids[|path|];
            var a := AnswerTo(l, SequenceHeader(id));
            a.Take? && a.read.ReadMessage? && PlaceIf(a.placed, v.f.dest, Ids(path), id) == v.f.dest
  {
    NextFrame(path, v.m.path);
    hide Run;
    PathOkAt(c.root, v.m.path, v.m.dest, |path|);
    hide AnswerTo, LevelAt, Prepare;
  }

  lemma DescendsRead(c: Config, v: Look, path: seq<Frame>, l: Level)
    requires Replaying(c, v, path) && |path| < v.f.suspendDepth && l == LevelAt(c.root, path) && Owed(v) == 0
    requires |v.ids| == MAX_DEPTH + 1 && |v.skips| == MAX_DEPTH + 1 && |path| < MAX_DEPTH && !v.skips[|path|]
    ensures var id := v.ids[|path|];
            var a := AnswerTo(l, SequenceHeader(id));
            a.Take? && a.read.ReadMessage? && Posed(c, Redescended(v, id), path, a)
  {
    DescendsSkip(c, v, path);
    DescendsAnswer(c, v, path, l);
    ReplayingFlags(c, v, path);
    hide Run, Good, AnswerTo, LevelAt, Prepare, Replaying, PlaceIf, Ids, Posed, PosedMessage;
    PosedAgain(c, Redescended(v, v.ids[|path|]), path, AnswerTo(l, SequenceHeader(v.ids[|path|])));
  }

  lemma PosedAgain(c: Config, u: Look, path: seq<Frame>, a: Answer)
    requires |path| <= MAX_DEPTH && u.f.refusal.None? && !u.f.incomplete && !u.f.consumed && u.f.replay
    requires a == AnswerTo(LevelAt(c.root, path), u.f.hdr) && a.Take? && a.read.ReadMessage?
    requires PlaceIf(a.placed, u.f.dest, Ids(path), u.f.hdr.id) == u.f.dest
    requires u.f.hdr == SequenceHeader(u.f.hdr.id) && Replaying(c, u, path + [Frame(u.f.hdr.id, false)]) && Owed(u) == 0
    ensures Posed(c, u, path, a)
  {
    hide Run, Good, AnswerTo, LevelAt, Prepare, Replaying, PlaceIf, Ids;
  }

  lemma ReplayingFlags(c: Config, v: Look, path: seq<Frame>)
    requires Replaying(c, v, path)
    ensures v.f.refusal.None? && !v.f.incomplete && v.f.replay
  {
    hide Run, Good;
  }

  lemma RefusedHere(v: Look, w: Look, path: seq<Frame>, why: Refusal)
    requires w == v.(f := v.f.(dest := w.f.dest, refusal := Some(why)))
    requires var key := FieldKey(path, v.f.hdr.id); v.goal == Failed(why, {key}, w.f.dest - {key})
    ensures Kept(v, w) && Refused(w)
  {
  }

  lemma StandingStill(c: Config, v: Look, u: Look, path: seq<Frame>, l: Level)
    requires Standing(c, v, path, l) && u == v.(f := v.f.(dest := u.f.dest))
    ensures Standing(c, u, path, l)
  {
    hide LevelAt, GateOf;
  }

  /** Extending the container spends no bytes. */
  lemma ReadFromPlaced(c: Config, v: Look, u: Look, w: Look, path: seq<Frame>)
    requires u == v.(f := v.f.(dest := u.f.dest)) && ReadDone(c, u, w, path, v.f.hdr.id)
    ensures ReadDone(c, v, w, path, v.f.hdr.id)
  {
    ReadFromBegun(c, v, u, w, path);
  }

  // ---------------------------------------------------------------- one field after another

  lemma KeptStanding(c: Config, v: Look, w: Look, path: seq<Frame>, l: Level)
    requires Standing(c, v, path, l) && Kept(v, w) && w.f.refusal.None?
    ensures Standing(c, w, path, l)
  {
    hide LevelAt, GateOf;
  }

  lemma RefusedField(c: Config, v: Look, w: Look, path: seq<Frame>)
    requires Kept(v, w) && Refused(w)
    ensures FieldDone(c, v, w, path) && w.f.refusal.Some?
  {
    hide Kept;
  }

  lemma ReadRefusal(c: Config, v0: Look, w: Look, path: seq<Frame>, id: nat)
    requires ReadDone(c, v0, w, path, id) && w.f.refusal.Some?
    ensures FieldDone(c, v0, w, path)
  {
    hide Kept, Paid, Refused;
  }

  lemma SettleFacts(c: Config, v0: Look, w: Look, path: seq<Frame>, a: Answer, id: nat)
    requires Settle(c, v0, w, path, a, id)
    ensures Kept(v0, w)
    ensures w.f.refusal.Some? ==> FieldDone(c, v0, w, path)
    ensures w.f.refusal.None? ==> (a.Decline? <==> !w.f.incomplete && !w.f.consumed)
    ensures a.Decline? ==>
      && Skipping(c, w, path) && w.f.hdr.id == id && w.f.refusal.None?
      && v0.f.p <= w.f.p && Owed(w) == Owed(v0) + Toll(path, w.f.p - v0.f.p) + w.f.p - v0.f.p
    ensures !a.Decline? && w.f.refusal.None? ==> LeftBehind(c, v0, w, path, id, false)
  {
    hide Run, Good, LevelAt, Saved, Flowing, Unsettled, Synced, ReadDone, Kept, Paid, LeftBehind, Owed, Toll, FieldDone, Refused;
    if a.Refuse? { RefusedField(c, v0, w, path); }
    if !a.Decline? && !a.Refuse? {
      ReadSettled(c, v0, w, path, id);
      if w.f.refusal.Some? { ReadRefusal(c, v0, w, path, id); }
    }
  }

  /** A level that must stop at a field has stopped. */
  lemma LevelFromField(c: Config, v: Look, w: Look, path: seq<Frame>)
    requires path != [] && FieldDone(c, v, w, path) && (w.f.refusal.Some? || w.f.incomplete)
    ensures LevelDone(c, v, w, path)
  {
    hide Halted, Flowing;
  }

  lemma AtFieldAgain(c: Config, v: Look, w: Look, path: seq<Frame>, l: Level)
    requires path != [] && Standing(c, v, path, l) && (l.Live? ==> Owed(v) == 0)
    requires FieldDone(c, v, w, path) && w.f.refusal.None? && !w.f.incomplete
    ensures AtField(c, w, path, l)
  {
    KeptStanding(c, v, w, path, l);
    if l.Live? { TollLive(c.root, path, w.f.p - v.f.p); }
    hide Flowing, Halted, Standing;
  }

  lemma FieldNow(c: Config, v: Look, path: seq<Frame>)
    requires Flowing(c, v, path)
    ensures FieldDone(c, v, v, path)
  {
    TollZero(path);
    hide Run, Good;
  }

  lemma KeptChain(v: Look, w: Look, x: Look)
    requires Kept(v, w) && Kept(w, x) && w.f.refusal.None?
    ensures Kept(v, x)
  {
  }

  lemma PaidChain(v: Look, w: Look, x: Look, path: seq<Frame>)
    requires Paid(v, w, path, false) && Paid(w, x, path, false) && w.f.refusal.None?
    ensures Paid(v, x, path, false)
  {
    if x.f.refusal.None? { TollAdd(path, w.f.p - v.f.p, x.f.p - w.f.p); }
    hide Toll, Owed;
  }

  lemma FieldChain(c: Config, v: Look, w: Look, x: Look, path: seq<Frame>)
    requires FieldDone(c, v, w, path) && w.f.refusal.None? && FieldDone(c, w, x, path)
    ensures FieldDone(c, v, x, path)
  {
    KeptChain(v, w, x);
    PaidChain(v, w, x, path);
    hide Flowing, Halted, Kept, Paid, Refused;
  }

  lemma LevelChain(c: Config, v: Look, w: Look, x: Look, path: seq<Frame>)
    requires path != [] && FieldDone(c, v, w, path) && w.f.refusal.None? && LevelDone(c, w, x, path)
    ensures LevelDone(c, v, x, path)
  {
    KeptChain(v, w, x);
    PaidChain(v, w, x, path);
    hide Flowing, Halted, Kept, Paid, Refused;
  }

  /** The offer of a nested level's field. */
  lemma NestedOffer(c: Config, v: Look, w: Look, path: seq<Frame>, l: Level, notElement: bool)
    requires AtField(c, v, path, l) && Begun(c, v, w, path, l, notElement)
    ensures v.f.p < w.f.p && w.m == v.m
    ensures var a := if notElement then Decline(false) else AnswerTo(l, w.f.hdr);
            var o := OfferField(c, v.m, w.f.hdr, w.f.p - v.f.p, notElement);
            var u := w.(m := NextState(v.m, o, path, w.f.p - v.f.p, a));
            && Posed(c, u, path, a) && Kept(v, u) && Standing(c, u, path, l)
            && Owed(u) == Owed(v) + HeaderToll(path, w.f.p - v.f.p, a)
  {
    hide *;
    BegunSteps(c, v, w, path, l, notElement);
    BegunFacts(c, v, w, path, l, notElement);
    var a := if notElement then Decline(false) else AnswerTo(l, w.f.hdr);
    NestedAtOffer(c, v, w, path, l, notElement);
    PosesNext(c, v.m, w, path, l, w.f.p - v.f.p, a, v);
  }

  lemma PosesNext(c: Config, s: State, w: Look, path: seq<Frame>, l: Level, n: nat, a: Answer, v: Look)
    requires AtOffer(c, s, w, path, l, n, a) && Kept(v, w) && v.m == s && v.f.spanSkipped == w.f.spanSkipped
    ensures var u := w.(m := NextState(s, Offer(c, s, w.f.hdr, n, a), path, n, a));
            && Posed(c, u, path, a) && Kept(v, u) && Standing(c, u, path, l)
            && Owed(u) == Owed(v) + HeaderToll(path, n, a)
  {
    Poses(c, s, w, path, l, n, a);
    assert Standing(c, w, path, l);
    hide Run, Good, AnswerTo, LevelAt, GateOf, AtOffer, Posed, Offer, HeaderToll, InRun;
  }

  lemma NestedAtOffer(c: Config, v: Look, w: Look, path: seq<Frame>, l: Level, notElement: bool)
    requires AtField(c, v, path, l) && Begun(c, v, w, path, l, notElement)
    requires Stepped(c, v, w, OfferField(c, v.m, w.f.hdr, w.f.p - v.f.p, notElement))
    requires w.f.hdr.wire != SequenceEnd && (w.f.hdr.wire == SequenceStart ==> w.f.hdr == SequenceHeader(w.f.hdr.id))
    ensures var a := if notElement then Decline(false) else AnswerTo(l, w.f.hdr);
            && OfferField(c, v.m, w.f.hdr, w.f.p - v.f.p, notElement) == Offer(c, v.m, w.f.hdr, w.f.p - v.f.p, a)
            && AtOffer(c, v.m, w, path, l, w.f.p - v.f.p, a) && Kept(v, w) && w.f.spanSkipped == v.f.spanSkipped
  {
    FlowingFacts(c, v, path);
    hide Run, Good, AnswerTo, LevelAt, GateOf, Offer, ReadHeader, SpanLive, Exceeds;
  }

  lemma LeftBehindKept(c: Config, v: Look, w: Look, path: seq<Frame>, id: nat, skip: bool)
    requires LeftBehind(c, v, w, path, id, skip)
    ensures Kept(v, w)
  {
  }

  lemma StandingFacts(c: Config, v: Look, path: seq<Frame>, l: Level)
    requires Standing(c, v, path, l)
    ensures |path| <= MAX_DEPTH && l == LevelAt(c.root, path) && v.f.seqDepth == |path|
    ensures |v.ids| == MAX_DEPTH + 1 && |v.skips| == MAX_DEPTH + 1
  {
  }

  lemma SameStanding(c: Config, v: Look, w: Look, path: seq<Frame>, l: Level)
    requires Standing(c, v, path, l) && w == v.(f := v.f.(hdr := w.f.hdr, consumed := w.f.consumed))
    ensures Standing(c, w, path, l) && Kept(w, w) && Owed(w) == Owed(v) && Owed(w) == Owed(w) + Toll(path, 0)
  {
    hide LevelAt, GateOf;
    TollZero(path);
  }

  lemma ResumableCalm(c: Config, v: Look, path: seq<Frame>)
    requires Resumable(c, v, path)
    ensures Calm(v.f) && (path == [] ==> TopLive(v.m) == !v.f.pendSkip)
  {
  }

  /** A read that was asked for again ends like any read. */
  lemma DeliveredOver(c: Config, v: Look, w: Look, path: seq<Frame>, a: Answer)
    requires Delivered(c, v, w, path, a) && a.Take?
    ensures Kept(v, w) && LeftBehind(c, v, w, path, v.f.hdr.id, false)
  {
    hide Run, Good, Kept, Flowing, Unsettled, LeftBehind;
    ReadSettled(c, v, w, path, v.f.hdr.id);
  }

  lemma SkipOver(c: Config, v: Look, w: Look, path: seq<Frame>, id: nat)
    requires SkipDone(c, v, w, path, id) && v.f.refusal.None?
    ensures w.f.refusal.None? ==> w.f.p >= v.f.p
    ensures var x := Discounted(w, if w.f.p >= v.f.p then w.f.p - v.f.p else 0); Kept(v, x) && LeftBehind(c, v, x, path, id, true)
  {
    TollZero(path);
    hide Run, Good, SkipDone, LeftBehind, Toll;
    SkipSettled(c, v, v, w, path, id);
    LeftBehindKept(c, v, Discounted(w, if w.f.p >= v.f.p then w.f.p - v.f.p else 0), path, id, true);
  }

  lemma FieldFrom(c: Config, v: Look, v0: Look, w: Look, path: seq<Frame>)
    requires v0 == v.(f := v.f.(hdr := v0.f.hdr, consumed := v0.f.consumed)) && FieldDone(c, v0, w, path)
    ensures FieldDone(c, v, w, path)
  {
    hide Flowing, Halted, Toll;
  }

  lemma FieldCleared(c: Config, v: Look, w: Look, path: seq<Frame>)
    requires FieldDone(c, v, w, path) && w.f.refusal.None? && !w.f.incomplete
    ensures FieldDone(c, v, w.(f := w.f.(pend := false, pendSkip := false, pendDone := 0)), path)
  {
    hide Run, Good, Toll;
  }

  lemma UnofferedElement(c: Config, u: Look, path: seq<Frame>)
    ensures Delivered(c, u, u, path, Decline(false))
  {
  }

  lemma AtFieldStanding(c: Config, v: Look, path: seq<Frame>, l: Level)
    requires AtField(c, v, path, l)
    ensures Standing(c, v, path, l) && path != []
  {
    hide Run, Good;
  }

  lemma DeliveredForward(c: Config, u: Look, w: Look, path: seq<Frame>, a: Answer)
    requires Delivered(c, u, w, path, a)
    ensures a.Decline? ==> w.f.p == u.f.p
    ensures w.f.refusal.None? ==> w.f.p >= u.f.p
  {
  }

  lemma LevelNow(c: Config, v: Look, path: seq<Frame>, l: Level)
    requires AtLevel(c, v, path, l)
    ensures path != [] && Standing(c, v, path, l) && (l.Live? ==> Owed(v) == 0)
    ensures !v.f.replay ==> Flowing(c, v, path)
    ensures v.f.replay ==> Replaying(c, v, path) && |path| <= v.f.suspendDepth
  {
    hide Run, Good, Saved;
    if v.f.replay { Reentry(c, v, path); }
  }

  lemma FlowingCalm(c: Config, v: Look, path: seq<Frame>)
    requires Flowing(c, v, path)
    ensures FieldDone(c, v, v, path) && v.f.refusal.None? && !v.f.incomplete
  {
    FieldNow(c, v, path);
  }

  lemma FieldBounds(c: Config, v: Look, w: Look, path: seq<Frame>)
    requires FieldDone(c, v, w, path) && w.f.refusal.None? && !w.f.incomplete
    ensures w.f.p <= w.f.end <= |w.f.win|
  {
    hide Run, Good;
  }

  lemma ReplayLive(c: Config, v: Look, path: seq<Frame>, l: Level)
    requires Standing(c, v, path, l) && Replaying(c, v, path) && (l.Live? ==> Owed(v) == 0) && |path| < |v.skips|
    ensures |path| < v.f.suspendDepth && !v.skips[|path|] ==> Owed(v) == 0
  {
    if |path| < v.f.suspendDepth && !v.skips[|path|] {
      StandingFacts(c, v, path, l);
      DescendsSkip(c, v, path);
      DescendsAnswer(c, v, path, l);
      OnlyLive(l, SequenceHeader(v.ids[|path|]));
    }
    hide Run, Good, AnswerTo, LevelAt, GateOf, Replaying;
  }

  /** The replay ends here. */
  lemma ReachedLevel(c: Config, v: Look, path: seq<Frame>, l: Level)
    requires Standing(c, v, path, l) && Replaying(c, v, path) && |path| == v.f.suspendDepth
    ensures Standing(c, Reached(v), path, l) && Kept(v, Reached(v)) && Paid(v, Reached(v), path, false)
    ensures Reached(v).f.refusal.None?
    ensures v.f.pend ==> Resumable(c, Reached(v), path)
    ensures !v.f.pend ==> FieldDone(c, v, Reached(v), path) && Reached(v).f.refusal.None? && !Reached(v).f.incomplete
  {
    Reentry(c, v, path);
    ReplayingFlags(c, v, path);
    TollZero(path);
    hide Run, Good, Saved, LevelAt, GateOf, Flowing, Resumable, Replaying, Toll;
  }

  lemma FieldAfter(c: Config, v: Look, w: Look, x: Look, path: seq<Frame>)
    requires Kept(v, w) && Paid(v, w, path, false) && w.f.refusal.None? && FieldDone(c, w, x, path)
    ensures FieldDone(c, v, x, path)
  {
    KeptChain(v, w, x);
    PaidChain(v, w, x, path);
    hide Flowing, Halted, Kept, Paid, Refused;
  }

  lemma FieldKept(c: Config, v: Look, w: Look, path: seq<Frame>)
    requires FieldDone(c, v, w, path)
    ensures w.f.end == v.f.end && w.f.win == v.f.win
  {
    hide Halted, Flowing, Paid, Refused;
  }

  lemma UnsettledTop(c: Config, v: Look, w: Look, path: seq<Frame>, id: nat, skip: bool)
    requires LeftBehind(c, v, w, path, id, skip) && w.f.refusal.None? && w.f.incomplete
    ensures path == [] ==> TopLive(w.m) == !skip && InField(w.m)
  {
    hide Run, Good;
  }

  lemma KeptLengths(v: Look, w: Look)
    requires Kept(v, w)
    ensures |w.ids| == |v.ids| && |w.skips| == |v.skips|
    ensures w.f.refusal.None? ==> w.f.seqDepth == v.f.seqDepth
  {
  }
}
