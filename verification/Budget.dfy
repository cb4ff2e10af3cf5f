/** The receiver's budget for one top-level field, byte by byte: what stops a decode, and what a
    completed one has therefore not exceeded. */
module Budget {
  import opened Varint
  import opened WireFormat
  import opened Handlers
  import opened Destination
  import opened Utf8
  import opened Machine
  import opened Progress
  import opened Levels
  import opened Parser
  import opened Framing
  import opened Verdicts
  import opened Declining
  import opened Histories
  import opened Admission

  // ---------------------------------------------------------------- top-level fields

  /** A top-level field: its header, the bytes of that, and of all of it. */
  datatype TopField = TopField(h: Header, size: nat, total: nat)

  function TopFields(b: seq<byte>): seq<TopField>
    decreases |b|
  {
    match ReadHeader(OPEN_GATE, b)
    case FieldAt(h, n, _) =>
      (match FieldSize(b)
       case Some(m) => [TopField(h, n, m)] + TopFields(b[m..])
       case None => [])
    case _ => []
  }

  /** A field that was read is within the cap and within its own bound: its header and what it announces,
      and for a payload or an array of floats every byte of it. */
  predicate WithinLimits(cap: nat, members: map<nat, Read>, f: TopField)
  {
    f.h.id in members && Tagged(members[f.h.id], f.h) ==>
      && !OverBudget(cap, f.h, f.size)
      && (f.h.wire == Fixlen || f.h.wire == ArrayFixlen ==> f.total <= cap)
      && (HasBound(members[f.h.id]) ==> SizeOf(members[f.h.id], f.h) <= members[f.h.id].bound.max && SizeOf(members[f.h.id], f.h) <= members[f.h.id].room)
  }

  lemma HeadWithin(c: Config, s: State, b: seq<byte>, h: Header, n: nat)
    requires FieldNext(c, s, b, h, n) && s.path == [] && c.root.Struct? && Verdict(Run(c, s, b)) == Complete && FieldSize(b).Some?
    ensures WithinLimits(c.cap, c.root.fields, TopField(h, n, FieldSize(b).value))
  {
    hide Run, Good, ReadHeader, OverBudget, Tagged, Reads;
    assert Members(c, s) == c.root.fields;
    if h.id in c.root.fields && Tagged(c.root.fields[h.id], h) {
      var r := c.root.fields[h.id];
      if HasBound(r) {
        if r.bound.max < 0 { UnboundedRefused(c, s, b, h, n, r); } else { BoundDecides(c, s, b, h, n, r); }
      } else {
        TypeDecides(c, s, b, h, n, r);
      }
      TotalIs(b, h, n, c.cap);
    }
  }

  lemma TotalIs(b: seq<byte>, h: Header, n: nat, cap: nat)
    requires ReadHeader(OPEN_GATE, b) == FieldAt(h, n, false) && FieldSize(b).Some?
    ensures h.wire == Fixlen ==> FieldSize(b).value == n + h.len
    ensures h.wire == ArrayFixlen ==> FieldSize(b).value == n + h.count * h.len
    ensures (h.wire == Fixlen || h.wire == ArrayFixlen) && !OverBudget(cap, h, n) ==> FieldSize(b).value <= cap
  {
    hide ReadHeader;
  }

  lemma {:induction false} FieldsWithin(c: Config, s: State, b: seq<byte>)
    requires Good(c, s) && At(s, []) && c.root.Struct? && ParseMessage(c, s, b).Accepted?
    ensures forall f <- TopFields(b) :: WithinLimits(c.cap, c.root.fields, f)
    decreases |b|
  {
    hide Run, Good, ReadHeader, ParseField, EndsHere, Follows, FieldSize, WithinLimits;
    if b == [] {
      Nothing();
    } else {
      TopNeverEnds(c, s, b);
      FieldFollows(c, s, b);
      FieldTaken(c, s, b);
      FollowsWhole(c, s, b, ParseField(c, s, b));
      MessageFollows(c, s, b);
      var o := ParseField(c, s, b);
      FieldsWithin(c, o.next, o.rest);
      TopHeader(c, s, b);
      var r := ReadHeader(OPEN_GATE, b);
      CompleteIs(c, s, b);
      HeadWithin(c, s, b, r.header, r.size);
    }
  }

  lemma CompleteIs(c: Config, s: State, b: seq<byte>)
    requires ParseMessage(c, s, b).Accepted? && Same(Run(c, s, b), ParseMessage(c, s, b))
    ensures Verdict(Run(c, s, b)) == Complete
  {
    hide Run, ParseMessage;
  }

  lemma Nothing()
    ensures TopFields([]) == []
  {
    assert Decode([]) == Cut;
  }

  lemma TopHeader(c: Config, s: State, b: seq<byte>)
    requires Good(c, s) && At(s, []) && b != [] && ParseField(c, s, b).Whole? && c.root.Struct?
    ensures var r := ReadHeader(OPEN_GATE, b); r.FieldAt? && FieldNext(c, s, b, r.header, r.size)
  {
    TopNeverEnds(c, s, b);
    BoundaryFrames(c, s, b);
    OpenElement(b);
    assert LevelAt(c.root, s.path) == Live(c.root);
    hide Run, Good, ReadHeader, BoundaryStep, ParseLevel, ParsePayload;
  }

  lemma OpenElement(b: seq<byte>)
    requires ReadHeader(OPEN_GATE, b).FieldAt?
    ensures !ReadHeader(OPEN_GATE, b).notElement
  {
  }

  /** In a decode that completes, every top-level field that was read was within the budget, and every text
      and array within its bound and its room. */
  lemma CompleteWithinLimits(c: Config, b: seq<byte>)
    requires Verdict(Run(c, START, b)) == Complete && c.root.Struct?
    ensures forall f <- TopFields(b) :: WithinLimits(c.cap, c.root.fields, f)
  {
    hide Run, ParseMessage, TopFields, WithinLimits;
    GoodStart(c);
    OneShot(c, b);
    FieldsWithin(c, START, b);
  }

  /** And a header that is over it, behind any complete fields, ends the decode there. */
  lemma OverBudgetStops(c: Config, a: seq<byte>, b: seq<byte>, h: Header, n: nat, r: Read)
    requires Verdict(Run(c, START, a)) == Complete && c.root.Struct? && h.id in c.root.fields && c.root.fields[h.id] == r
    requires ReadHeader(OPEN_GATE, b) == FieldAt(h, n, false) && Tagged(r, h) && OverBudget(c.cap, h, n)
    requires HasBound(r) && r.bound.Declared? && r.bound.max >= 0 ==> SizeOf(r, h) <= r.bound.max
    ensures Verdict(Run(c, START, a + b)) == Stopped(Limit)
  {
    hide Run, Good, ReadHeader, OverBudget, Tagged, Reads;
    Afterwards(c, a, b);
    var s := Run(c, START, a).state;
    assert LevelAt(c.root, s.path) == Live(c.root) && Members(c, s) == c.root.fields;
    if HasBound(r) {
      if r.bound.max < 0 { UnboundedRefused(c, s, b, h, n, r); } else { BoundDecides(c, s, b, h, n, r); }
    } else {
      TypeDecides(c, s, b, h, n, r);
    }
  }

  /** Behind any complete fields, a text or array over its declared bound is malformed under every cap. */
  lemma OverBoundStops(c: Config, a: seq<byte>, b: seq<byte>, h: Header, n: nat, r: Read)
    requires Verdict(Run(c, START, a)) == Complete && c.root.Struct? && h.id in c.root.fields && c.root.fields[h.id] == r
    requires ReadHeader(OPEN_GATE, b) == FieldAt(h, n, false) && Tagged(r, h) && HasBound(r) && 0 <= r.bound.max < SizeOf(r, h)
    ensures Verdict(Run(c, START, a + b)) == Stopped(if r.bound.Declared? then Invalid else Limit)
  {
    hide Run, Good, ReadHeader, OverBudget, Tagged, Reads;
    Afterwards(c, a, b);
    var s := Run(c, START, a).state;
    assert LevelAt(c.root, s.path) == Live(c.root) && Members(c, s) == c.root.fields;
    BoundDecides(c, s, b, h, n, r);
  }

  // ---------------------------------------------------------------- bytes accrued in a sequence

  /** Of the fields of a level, the bytes nobody asked for. */
  function Unasked(n: Node, g: Gate, b: seq<byte>): nat
    decreases |b|, 0
  {
    match ReadHeader(g, b)
    case FieldAt(h, size, notElement) =>
      (match FieldSize(b)
       case Some(m) => FieldWalked(n, h, notElement, b[size..], m) + Unasked(n, g, b[m..])
       case None => 0)
    case _ => 0
  }

  function FieldWalked(n: Node, h: Header, notElement: bool, rest: seq<byte>, total: nat): nat
    decreases |rest|, 1
  {
    var a := if notElement then Decline(false) else AnswerTo(Live(n), h);
    if !a.Take? then total
    else if a.read.ReadMessage? then Unasked(a.read.node, GateOf(Live(a.read.node)), rest)
    else 0
  }

  /** No declined field among them is a sequence: what is in one is discounted more than once. */
  predicate Flat(n: Node, g: Gate, b: seq<byte>)
    decreases |b|, 0
  {
    match ReadHeader(g, b)
    case FieldAt(h, size, notElement) =>
      (match FieldSize(b)
       case Some(m) => FieldFlat(n, h, notElement, b[size..]) && Flat(n, g, b[m..])
       case None => true)
    case _ => true
  }

  predicate FieldFlat(n: Node, h: Header, notElement: bool, rest: seq<byte>)
    decreases |rest|, 1
  {
    var a := if notElement then Decline(false) else AnswerTo(Live(n), h);
    if !a.Take? then h.wire != SequenceStart
    else a.read.ReadMessage? ==> Flat(a.read.node, GateOf(Live(a.read.node)), rest)
  }

  /** `total` bytes were spent, `walked` of them discounted at least, and no more where `exact`. */
  predicate Costs(s: State, t: State, total: nat, walked: nat, exact: bool)
  {
    t.span == s.span + total && t.disc >= s.disc + walked && (exact ==> t.disc == s.disc + walked)
  }

  lemma CostsOn(s: State, t: State, u: State, a: nat, wa: nat, ea: bool, b: nat, wb: nat, eb: bool)
    requires Costs(s, t, a, wa, ea) && Costs(t, u, b, wb, eb)
    ensures Costs(s, u, a + b, wa + wb, ea && eb)
  {
  }

  /** A level is its first field and the rest. */
  lemma LevelIs(c: Config, s: State, b: seq<byte>)
    requires !EndsHere(c, s, b) && ParseLevel(c, s, b).Whole?
    ensures ParseField(c, s, b).Whole? && |ParseField(c, s, b).rest| <= |b|
    ensures ParseLevel(c, s, b) == ParseLevel(c, ParseField(c, s, b).next, ParseField(c, s, b).rest)
  {
    hide EndsHere, ParseField;
  }

  lemma LevelClosed(c: Config, s: State, b: seq<byte>)
    requires EndsHere(c, s, b) && BoundaryStep(c, s, b).Go?
    ensures ParseLevel(c, s, b) == Whole(BoundaryStep(c, s, b).next, b[BoundaryStep(c, s, b).size..])
  {
    hide EndsHere, BoundaryStep;
  }

  lemma {:induction false} SkippedSpends(c: Config, s: State, b: seq<byte>)
    requires Good(c, s) && s.pend.Idle? && s.path != [] && s.path[|s.path| - 1].skip && ParseLevel(c, s, b).Whole?
    ensures var o := ParseLevel(c, s, b); |o.rest| <= |b| && Costs(s, o.next, |b| - |o.rest|, |b| - |o.rest|, false)
    decreases |b|, 1
  {
    hide Good, BoundaryStep, EndsHere, ParseField, ParseLevel, Follows, Toll, Costs, LevelAt, HeaderAt;
    if EndsHere(c, s, b) {
      EndSpends(c, s, b);
      LevelClosed(c, s, b);
      EndCosts(s, BoundaryStep(c, s, b).next, BoundaryStep(c, s, b).size, true);
    } else {
      LevelIs(c, s, b);
      FieldFollows(c, s, b);
      var o := ParseField(c, s, b);
      FollowsWhole(c, s, b, o);
      FieldHasHeader(c, s, b);
      LastSkips(c.root, s.path);
      DeclinedAway(c, s, b);
      DeclinedSpends(c, s, b);
      SkippedSpends(c, o.next, o.rest);
      var u := ParseLevel(c, o.next, o.rest);
      CostsOn(s, o.next, u.next, |b| - |o.rest|, |b| - |o.rest|, false, |o.rest| - |u.rest|, |o.rest| - |u.rest|, false);
    }
  }

  /** An end marker costs its bytes, discounted where the sequence is skipped. */
  lemma EndCosts(s: State, t: State, n: nat, skip: bool)
    requires t.span == s.span + n && t.disc == s.disc + Toll(s.path, n)
    requires if skip then Toll(s.path, n) >= n else Toll(s.path, n) == 0
    ensures Costs(s, t, n, if skip then n else 0, !skip)
  {
  }

  lemma LastSkips(root: Node, path: seq<Frame>)
    requires path != [] && path[|path| - 1].skip
    ensures LevelAt(root, path) == Skipped
  {
  }

  lemma EndSpends(c: Config, s: State, b: seq<byte>)
    requires s.pend.Idle? && s.path != [] && EndsHere(c, s, b)
    ensures var o := BoundaryStep(c, s, b);
            && o.Go? && o.size <= |b| && o.next.span == s.span + o.size && o.next.disc == s.disc + Toll(s.path, o.size)
            && (s.path[|s.path| - 1].skip ==> Toll(s.path, o.size) >= o.size)
  {
    EndsGo(c, s, b);
    EndsIs(c, s, b);
    BoundaryReads(c, s, b);
    hide BoundaryStep, HeaderAt, EndsHere;
  }

  /** What a field costs, header and payload. */
  lemma FieldSpends(c: Config, s: State, b: seq<byte>)
    requires Good(c, s) && s.pend.Idle? && s.path != [] && !EndsHere(c, s, b) && ParseField(c, s, b).Whole?
    ensures BoundaryStep(c, s, b).Go? && HeaderAt(c, s, b).FieldAt?
    ensures var (t, r, o) := (BoundaryStep(c, s, b).next, HeaderAt(c, s, b), ParseField(c, s, b));
            var (a, rest) := (AnswerHere(c, s, r.header, r.notElement), b[r.size..]);
            && 0 < r.size <= |b| && t.span == s.span + r.size
            && t.disc == s.disc + Toll(s.path, r.size) + (if a.Take? then 0 else r.size)
            && (r.header.wire == SequenceStart ==>
                  o == ParseLevel(c, t, rest) && Good(c, t) && t.pend.Idle? && t.path == s.path + [Frame(r.header.id, !a.Take?)])
            && (r.header.wire != SequenceStart ==>
                  && |o.rest| <= |rest| && o.next.span == t.span + (|rest| - |o.rest|)
                  && o.next.disc == t.disc + Toll(s.path, |rest| - |o.rest|) + (if a.Take? then 0 else |rest| - |o.rest|))
  {
    hide BoundaryStep, Good, EndsHere, HeaderAt, ParseLevel, ParsePayload, AnswerHere, AnsweredDest, Toll;
    FieldFresh(c, s, b);
    FieldIs(c, s, b);
    var r := HeaderAt(c, s, b);
    HeaderCost(c, s, b);
    PaidSettled(c, BoundaryStep(c, s, b).next, b[r.size..]);
    TollZero(s.path);
  }

  lemma HeaderCost(c: Config, s: State, b: seq<byte>)
    requires s.pend.Idle? && s.path != [] && BoundaryStep(c, s, b).Go? && HeaderAt(c, s, b).FieldAt?
    ensures var (o, r) := (BoundaryStep(c, s, b), HeaderAt(c, s, b));
            var (a, t) := (AnswerHere(c, s, r.header, r.notElement), o.next);
            && o.size == r.size && 0 < r.size <= |b| && t.span == s.span + r.size
            && t.disc == s.disc + Toll(s.path, r.size) + (if a.Take? then 0 else r.size)
            && t.path == (if r.header.wire == SequenceStart then s.path + [Frame(r.header.id, !a.Take?)] else s.path)
            && (r.header.wire == SequenceStart ==> t.pend.Idle?) && (t.pend.Busy? ==> t.pend.skip == !a.Take?)
  {
    var r := HeaderAt(c, s, b);
    BoundaryReads(c, s, b);
    OfferAnswered(c, s, r.header, r.size, r.notElement);
    AnswerShape(LevelAt(c.root, s.path), r.header);
    var a := AnswerHere(c, s, r.header, r.notElement);
    assert BoundaryStep(c, s, b).size == r.size;
    hide BoundaryStep, HeaderAt, OfferField, AnswerTo, LevelAt, TagMatches, Answered, AnsweredDest, Toll;
    AnsweredShape(s, r.header, r.size, a);
  }

  /** A declined field is discounted whole; exactly, unless it is a sequence. */
  lemma {:induction false} DeclinedSpends(c: Config, s: State, b: seq<byte>)
    requires Good(c, s) && s.pend.Idle? && s.path != [] && !EndsHere(c, s, b) && ParseField(c, s, b).Whole?
    requires HeaderAt(c, s, b).FieldAt? && AnswerHere(c, s, HeaderAt(c, s, b).header, HeaderAt(c, s, b).notElement).Decline?
    ensures var o := ParseField(c, s, b);
            && |o.rest| <= |b| && Costs(s, o.next, |b| - |o.rest|, |b| - |o.rest|, false)
            && (LevelAt(c.root, s.path).Live? && HeaderAt(c, s, b).header.wire != SequenceStart ==>
                  Costs(s, o.next, |b| - |o.rest|, |b| - |o.rest|, true))
    decreases |b|, 0
  {
    hide BoundaryStep, Good, EndsHere, HeaderAt, ParseField, ParseLevel, AnswerHere, Toll, LevelAt;
    FieldSpends(c, s, b);
    var (r, o) := (HeaderAt(c, s, b), ParseField(c, s, b));
    var (t, rest) := (BoundaryStep(c, s, b).next, b[r.size..]);
    if LevelAt(c.root, s.path).Live? { TollLive(c.root, s.path, r.size); }
    if r.header.wire == SequenceStart {
      SkippedSpends(c, t, rest);
    } else if LevelAt(c.root, s.path).Live? {
      TollLive(c.root, s.path, |rest| - |o.rest|);
    }
  }

  /** What a field of a live level costs, told from the bytes. */
  lemma {:induction false} FieldAccrues(c: Config, s: State, n: Node, b: seq<byte>)
    requires Good(c, s) && s.pend.Idle? && s.path != [] && !EndsHere(c, s, b) && ParseField(c, s, b).Whole?
    requires LevelAt(c.root, s.path) == Live(n) && HeaderAt(c, s, b).FieldAt?
    ensures var (r, o) := (HeaderAt(c, s, b), ParseField(c, s, b));
            && r.size <= |b| && |o.rest| <= |b|
            && Costs(s, o.next, |b| - |o.rest|, FieldWalked(n, r.header, r.notElement, b[r.size..], |b| - |o.rest|), FieldFlat(n, r.header, r.notElement, b[r.size..]))
    decreases |b|, 0
  {
    hide BoundaryStep, Good, EndsHere, HeaderAt, ParseField, ParseLevel, AnswerHere, Toll, LevelAt, Unasked, Flat, AnswerTo, Costs;
    var r := HeaderAt(c, s, b);
    var a := AnswerHere(c, s, r.header, r.notElement);
    HereAnswers(c, s, n, r.header, r.notElement);
    FieldSpends(c, s, b);
    HeaderEffectRefuses(c, s, b);
    var (o, t, rest) := (ParseField(c, s, b), BoundaryStep(c, s, b).next, b[r.size..]);
    if a.Decline? {
      DeclinedSpends(c, s, b);
    } else {
      TollLive(c.root, s.path, r.size);
      if a.read.ReadMessage? {
        SequenceBegun(c, s, n, b, a);
        LevelAccrues(c, t, a.read.node, rest);
        HeadCosts(s, t, r.size);
        CostsOn(s, t, o.next, r.size, 0, true, |rest| - |o.rest|, Unasked(a.read.node, GateOf(Live(a.read.node)), rest),
                Flat(a.read.node, GateOf(Live(a.read.node)), rest));
      } else {
        NotSequence(c, s, b);
        TollLive(c.root, s.path, |rest| - |o.rest|);
        HeadCosts(s, o.next, |b| - |o.rest|);
      }
    }
  }

  lemma HereAnswers(c: Config, s: State, n: Node, h: Header, notElement: bool)
    requires LevelAt(c.root, s.path) == Live(n)
    ensures AnswerHere(c, s, h, notElement) == if notElement then Decline(false) else AnswerTo(Live(n), h)
  {
    hide LevelAt, AnswerTo;
  }

  lemma HeadCosts(s: State, t: State, n: nat)
    requires t.span == s.span + n && t.disc == s.disc
    ensures Costs(s, t, n, 0, true)
  {
  }

  lemma NotSequence(c: Config, s: State, b: seq<byte>)
    requires HeaderAt(c, s, b).FieldAt?
    ensures var r := HeaderAt(c, s, b);
            var a := AnswerHere(c, s, r.header, r.notElement);
            a.Take? && !a.read.ReadMessage? ==> r.header.wire != SequenceStart
  {
    AnswerShape(LevelAt(c.root, s.path), HeaderAt(c, s, b).header);
    hide HeaderAt, LevelAt, AnswerTo;
  }

  lemma {:induction false} LevelAccrues(c: Config, s: State, n: Node, b: seq<byte>)
    requires Good(c, s) && s.pend.Idle? && s.path != [] && LevelAt(c.root, s.path) == Live(n) && ParseLevel(c, s, b).Whole?
    ensures var o := ParseLevel(c, s, b);
            |o.rest| <= |b| && Costs(s, o.next, |b| - |o.rest|, Unasked(n, GateOf(Live(n)), b), Flat(n, GateOf(Live(n)), b))
    decreases |b|, 1
  {
    hide Good, BoundaryStep, EndsHere, ParseField, ParseLevel, HeaderAt, Follows, LevelAt, Unasked, Flat, FieldWalked, FieldFlat, Toll, Costs, ReadHeader, GateOf, FieldSize, Takes, Run;
    HeaderIs(c, s, n, b);
    if EndsHere(c, s, b) {
      EndKeeps(c, s, b);
      EndSpends(c, s, b);
      LevelClosed(c, s, b);
      NoFields(n, b);
      TollLive(c.root, s.path, BoundaryStep(c, s, b).size);
      EndCosts(s, BoundaryStep(c, s, b).next, BoundaryStep(c, s, b).size, false);
      CostsAny(s, BoundaryStep(c, s, b).next, BoundaryStep(c, s, b).size, Flat(n, GateOf(Live(n)), b));
    } else {
      LevelIs(c, s, b);
      FieldFollows(c, s, b);
      var o := ParseField(c, s, b);
      FollowsWhole(c, s, b, o);
      FieldHasHeader(c, s, b);
      FieldEnds(c, s, b);
      FieldAccrues(c, s, n, b);
      LevelAccrues(c, o.next, n, o.rest);
      var (r, u) := (HeaderAt(c, s, b), ParseLevel(c, o.next, o.rest));
      Accrued(n, b, r, o.rest);
      CostsOn(s, o.next, u.next, |b| - |o.rest|, FieldWalked(n, r.header, r.notElement, b[r.size..], |b| - |o.rest|),
              FieldFlat(n, r.header, r.notElement, b[r.size..]), |o.rest| - |u.rest|, Unasked(n, GateOf(Live(n)), o.rest), Flat(n, GateOf(Live(n)), o.rest));
    }
  }

  lemma FieldEnds(c: Config, s: State, b: seq<byte>)
    requires Good(c, s) && s.pend.Idle? && s.path != [] && !EndsHere(c, s, b) && ParseField(c, s, b).Whole?
    ensures FieldSize(b).Some? && ParseField(c, s, b).rest == b[FieldSize(b).value..]
  {
    hide Good, EndsHere, ParseField, FieldSize;
    FieldTaken(c, s, b);
  }

  lemma CostsAny(s: State, t: State, n: nat, exact: bool)
    requires Costs(s, t, n, 0, true)
    ensures Costs(s, t, n, 0, exact)
  {
  }

  lemma NoFields(n: Node, b: seq<byte>)
    requires !ReadHeader(GateOf(Live(n)), b).FieldAt?
    ensures Unasked(n, GateOf(Live(n)), b) == 0 && Flat(n, GateOf(Live(n)), b)
  {
  }

  /** What was walked of a level is what was walked of its first field and of the rest. */
  lemma Accrued(n: Node, b: seq<byte>, r: HeaderRead, rest: seq<byte>)
    requires r == ReadHeader(GateOf(Live(n)), b) && r.FieldAt? && FieldSize(b).Some? && rest == b[FieldSize(b).value..]
    ensures var g := GateOf(Live(n));
            && |b| - |rest| == FieldSize(b).value
            && Unasked(n, g, b) == FieldWalked(n, r.header, r.notElement, b[r.size..], |b| - |rest|) + Unasked(n, g, rest)
            && Flat(n, g, b) == (FieldFlat(n, r.header, r.notElement, b[r.size..]) && Flat(n, g, rest))
  {
    hide FieldSize, FieldWalked, FieldFlat, ReadHeader, GateOf;
  }

  /** Fields of one level, whole and accepted, to the end of the bytes. */
  ghost function ParseFields(c: Config, s: State, b: seq<byte>): Parse
    decreases |b|
  {
    if b == [] then Whole(s, [])
    else if EndsHere(c, s, b) then Short
    else
      match ParseField(c, s, b)
      case Whole(t, rest) => ParseFields(c, t, rest)
      case Short => Short
      case Bad(why, at, d) => Bad(why, at, d)
  }

  lemma {:induction false} FieldsAccrue(c: Config, s: State, n: Node, b: seq<byte>)
    requires Good(c, s) && s.pend.Idle? && s.path != [] && LevelAt(c.root, s.path) == Live(n) && ParseFields(c, s, b).Whole?
    ensures var u := ParseFields(c, s, b).next;
            && Good(c, u) && At(u, s.path) && Run(c, s, b) == Stuck(u, [])
            && Costs(s, u, |b|, Unasked(n, GateOf(Live(n)), b), Flat(n, GateOf(Live(n)), b))
    decreases |b|
  {
    hide Good, Run, BoundaryStep, EndsHere, ParseField, HeaderAt, Follows, LevelAt, Unasked, Flat, FieldWalked, FieldFlat, Costs, ReadHeader, GateOf, FieldSize, Takes;
    HeaderIs(c, s, n, b);
    if b == [] {
      AtEnd(c, s);
      NoHeader(GateOf(Live(n)));
      NoFields(n, b);
      HeadCosts(s, s, 0);
    } else {
      FieldFollows(c, s, b);
      var o := ParseField(c, s, b);
      FollowsWhole(c, s, b, o);
      FieldHasHeader(c, s, b);
      FieldEnds(c, s, b);
      FieldAccrues(c, s, n, b);
      FieldsAccrue(c, o.next, n, o.rest);
      var (r, u) := (HeaderAt(c, s, b), ParseFields(c, o.next, o.rest));
      Accrued(n, b, r, o.rest);
      CostsOn(s, o.next, u.next, |b| - |o.rest|, FieldWalked(n, r.header, r.notElement, b[r.size..], |b| - |o.rest|),
              FieldFlat(n, r.header, r.notElement, b[r.size..]), |o.rest|, Unasked(n, GateOf(Live(n)), o.rest), Flat(n, GateOf(Live(n)), o.rest));
    }
  }

  /** Inside a sequence that is read, at any depth: once the bytes of it that were read are more than the cap,
      the next byte ends the decode. */
  lemma AccruedStops(c: Config, s: State, n: Node, b1: seq<byte>, b2: seq<byte>)
    requires Good(c, s) && s.pend.Idle? && s.path != [] && LevelAt(c.root, s.path) == Live(n) && ParseFields(c, s, b1).Whole?
    requires Flat(n, GateOf(Live(n)), b1) && s.span + |b1| > c.cap + s.disc + Unasked(n, GateOf(Live(n)), b1) && b2 != []
    ensures Verdict(Run(c, s, b1 + b2)) == Stopped(Limit)
  {
    hide Run, Good, Unasked, Flat, ParseFields, LevelAt;
    FieldsAccrue(c, s, n, b1);
    RunSplit(c, s, b1, b2);
    assert [] + b2 == b2;
    SpanStops(c, ParseFields(c, s, b1).next, b2);
  }

  lemma SpanStops(c: Config, u: State, b: seq<byte>)
    requires Good(c, u) && u.pend.Idle? && u.path != [] && LevelAt(c.root, u.path).Live? && u.span > c.cap + u.disc && b != []
    ensures Run(c, u, b) == Failed(Limit, {}, u.dest)
  {
    AtBoundary(c, u, b);
    StepStops(c, u, b);
    hide Run, Good, LevelAt, ReadHeader, OfferField, EndLevel, Machine.Step, GateOf;
  }

  /** A whole message's worth of it: behind any complete fields, a sequence that is read, and in it fields that
      are whole; when its header and what was read of it are over the cap, whatever comes next ends the decode. */
  lemma SequenceOverBudget(c: Config, a: seq<byte>, head: seq<byte>, b1: seq<byte>, b2: seq<byte>, h: Header, n: Node)
    requires Verdict(Run(c, START, a)) == Complete && c.root.Struct? && h.id in c.root.fields && c.root.fields[h.id] == ReadMessage(n)
    requires h.wire == SequenceStart && ReadHeader(OPEN_GATE, head + b1 + b2) == FieldAt(h, |head|, false) && |head| <= c.cap
    requires var s := Run(c, START, a).state;
             var t := BoundaryStep(c, s, head + b1 + b2);
             t.Go? ==> ParseFields(c, t.next, b1).Whole?
    requires Flat(n, GateOf(Live(n)), b1) && |head| + |b1| > c.cap + Unasked(n, GateOf(Live(n)), b1) && b2 != []
    ensures Verdict(Run(c, START, a + (head + b1 + b2))) == Stopped(Limit)
  {
    hide Run, Good, ReadHeader, Unasked, Flat, ParseFields, BoundaryStep, AnswerTo;
    var (s, b) := (Run(c, START, a).state, head + b1 + b2);
    Afterwards(c, a, b);
    assert LevelAt(c.root, s.path) == Live(c.root) && Members(c, s) == c.root.fields;
    TypeDecides(c, s, b, h, |head|, ReadMessage(n));
    SequenceOpens(c, s, b, h, |head|, n);
    assert b[|head|..] == b1 + b2;
    AccruedStops(c, BoundaryStep(c, s, b).next, n, b1, b2);
  }

  lemma SequenceOpens(c: Config, s: State, b: seq<byte>, h: Header, n: nat, child: Node)
    requires FieldNext(c, s, b, h, n) && s.path == [] && Reads(c, s, b, h, n, ReadMessage(child)) && h.wire == SequenceStart
    requires c.root.Struct? && h.id in c.root.fields && c.root.fields[h.id] == ReadMessage(child)
    ensures var t := BoundaryStep(c, s, b).next; t.span == n && t.disc == 0 && LevelAt(c.root, t.path) == Live(child)
  {
    hide Good, Run, ReadHeader, BoundaryStep, Started;
    HeaderRuns(c, s, b, h, n);
    LevelBelow(c.root, s.path, Frame(h.id, false));
    assert LevelAt(c.root, s.path) == Live(c.root);
    assert Toll([], n) == 0;
  }
}
