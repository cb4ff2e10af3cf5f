/** What a decode refuses and what it lets through, field by field and number by number, and what
    every destination of a completed decode therefore is. */
module Admission {
  import opened Varint
  import opened WireFormat
  import opened Handlers
  import opened Destination
  import opened Utf8
  import opened Machine
  import opened Progress
  import opened Levels
  import opened Parser
  import opened Framing
  import opened Verdicts
  import opened Declining

  // ---------------------------------------------------------------- a field of a struct

  /** A field's header comes next, in a struct that is being read, and the bytes read of the struct so
      far are within the cap. */
  ghost predicate FieldNext(c: Config, s: State, b: seq<byte>, h: Header, n: nat)
  {
    && Good(c, s) && s.pend.Idle? && LevelAt(c.root, s.path).Live? && LevelAt(c.root, s.path).node.Struct?
    && ReadHeader(OPEN_GATE, b) == FieldAt(h, n, false) && (s.path != [] ==> s.span <= c.cap + s.disc)
  }

  function Members(c: Config, s: State): map<nat, Read>
    requires LevelAt(c.root, s.path).Live? && LevelAt(c.root, s.path).node.Struct?
  {
    LevelAt(c.root, s.path).node.fields
  }

  /** The type a read declares, against the one a header states. */
  predicate Tagged(r: Read, h: Header)
  {
    match r
    case ReadUnsigned => h.wire == Unsigned
    case ReadBool => h.wire == Unsigned
    case ReadSigned => h.wire == Signed
    case ReadFloat(fix) => h.wire == Fixlen && h.fix == fix && (fix == Fp32 || fix == Fp64)
    case ReadText(isString, _, _) => h.wire == Fixlen && h.fix == if isString then String else Blob
    case ReadRaw(_) => h.wire == Fixlen && h.fix == Blob
    case ReadMessage(_) => h.wire == SequenceStart
    case ReadArray(e, _, _, _) => ArrayTagged(e, h)
    case ReadSpan(e, _) => ArrayTagged(e, h)
  }

  predicate ArrayTagged(e: Elem, h: Header)
  {
    match e
    case UnsignedElem => h.wire == ArrayUnsigned
    case BoolElem => h.wire == ArrayUnsigned
    case SignedElem => h.wire == ArraySigned
    case Fp32Elem => h.wire == ArrayFixlen && h.fix == Fp32
    case Fp64Elem => h.wire == ArrayFixlen && h.fix == Fp64
  }

  predicate HasBound(r: Read)
  {
    r.ReadText? || r.ReadArray?
  }

  /** What a bound is measured against. */
  function SizeOf(r: Read, h: Header): nat
  {
    if r.ReadText? then h.len else h.count
  }

  /** A top-level field is over the cap by its header and what that announces: a payload's length, the
      bytes of a fixlen array, one byte at least for each element of an integer array. */
  predicate OverBudget(cap: nat, h: Header, n: nat)
  {
    match h.wire
    case Fixlen => n + h.len > cap
    case ArrayFixlen => n + h.count * h.len > cap
    case ArrayUnsigned => n + h.count > cap
    case ArraySigned => n + h.count > cap
    case _ => n > cap
  }

  predicate Sized(h: Header)
  {
    h.wire == Fixlen || h.wire == ArrayFixlen || h.wire == ArrayUnsigned || h.wire == ArraySigned
  }

  /** Over the cap, at the top level, where alone the cap is asked about a header. */
  predicate Beyond(c: Config, s: State, h: Header, n: nat)
  {
    s.path == [] && OverBudget(c.cap, h, n)
  }

  lemma TaggedIs(r: Read, h: Header)
    ensures TagMatches(r, h) <==> Tagged(r, h)
  {
  }

  lemma BudgetIs(cap: nat, h: Header, n: nat)
    ensures Exceeds(cap, n, HeaderNeed(h)) <==> OverBudget(cap, h, n)
    ensures SchemaBounds(h.wire) <==> Sized(h)
  {
  }

  /** The step at the header, and the run from it. */
  lemma HeaderRuns(c: Config, s: State, b: seq<byte>, h: Header, n: nat)
    requires FieldNext(c, s, b, h, n)
    ensures var (o, a) := (BoundaryStep(c, s, b), AnswerTo(LevelAt(c.root, s.path), h));
            && o == (if Beyond(c, s, h, n) then OverCap(Opening(s), h, n, a) else Offer(c, Opening(s), h, n, a))
            && (o.Fail? ==> Run(c, s, b) == Failed(o.why, o.at, o.dest))
            && (o.Go? ==> o.size == n <= |b| && Good(c, o.next) && Run(c, s, b) == Run(c, o.next, b[n..]))
  {
    hide Run, Good, LevelAt, GateOf, AnswerTo, OverCap, Offer, Exceeds, HeaderNeed, OverBudget, BoundaryStep, ReadHeader;
    BudgetIs(c.cap, h, n);
    StructHeader(c, s, b, h, n);
    BoundaryReads(c, s, b);
    OfferedOrNot(c, s, h, n);
    BoundaryFollows(c, s, b);
    var o := BoundaryStep(c, s, b);
    if o.Go? { LeadsRun(c, s, b, o.next, o.size); }
  }

  lemma LeadsRun(c: Config, s: State, b: seq<byte>, t: State, n: nat)
    requires n <= |b| && Leads(c, s, b, t, n)
    ensures Run(c, s, b) == Run(c, t, b[n..])
  {
    hide Run, Good;
  }

  lemma StructHeader(c: Config, s: State, b: seq<byte>, h: Header, n: nat)
    requires FieldNext(c, s, b, h, n)
    ensures b != [] && CapAllows(c, s) && HeaderAt(c, s, b) == FieldAt(h, n, false)
  {
    hide Good, LevelAt, Run;
    assert b != [];
  }

  lemma OfferedOrNot(c: Config, s: State, h: Header, n: nat)
    ensures var a := AnswerTo(LevelAt(c.root, s.path), h);
            OfferField(c, Opening(s), h, n, false)
            == if s.path == [] && Exceeds(c.cap, n, HeaderNeed(h)) then OverCap(Opening(s), h, n, a) else Offer(c, Opening(s), h, n, a)
  {
    hide LevelAt, AnswerTo, OverCap, Offer, Exceeds, HeaderNeed;
  }

  /** A member's answer, told from its read. */
  lemma MemberAnswer(c: Config, s: State, h: Header)
    requires LevelAt(c.root, s.path).Live? && LevelAt(c.root, s.path).node.Struct?
    ensures AnswerTo(LevelAt(c.root, s.path), h)
            == if h.id in Members(c, s) then Ask(Members(c, s)[h.id], h, false) else Decline(false)
  {
    hide LevelAt, Ask;
  }

  /** A text or array whose bound is stated and whose type is the declared one, in every case: over its
      declared bound it is malformed, over the receiver's where none is declared it is over a limit, over the
      cap too; without room for it the call was wrong; and otherwise it is read. */
  lemma BoundDecides(c: Config, s: State, b: seq<byte>, h: Header, n: nat, r: Read)
    requires FieldNext(c, s, b, h, n) && h.id in Members(c, s) && Members(c, s)[h.id] == r
    requires HasBound(r) && Tagged(r, h) && r.bound.max >= 0
    ensures var (size, o) := (SizeOf(r, h), Run(c, s, b));
            && (size > r.bound.max && r.bound.Declared? ==> Verdict(o) == Stopped(Invalid))
            && (size > r.bound.max && r.bound.Capped? ==> Verdict(o) == Stopped(Limit))
            && (size <= r.bound.max && Beyond(c, s, h, n) ==> Verdict(o) == Stopped(Limit))
            && (size <= r.bound.max && !Beyond(c, s, h, n) && size > r.room ==> Verdict(o) == Stopped(Argument))
            && (size <= r.bound.max && !Beyond(c, s, h, n) && size <= r.room ==> Reads(c, s, b, h, n, r))
  {
    hide Run, LevelAt, AnswerTo, Good, OverBudget, ReadHeader, Started, Toll, BoundaryStep;
    HeaderRuns(c, s, b, h, n);
    MemberAnswer(c, s, h);
    TaggedIs(r, h);
    BudgetIs(c.cap, h, n);
    if SizeOf(r, h) <= r.bound.max && !Beyond(c, s, h, n) && SizeOf(r, h) <= r.room { ReadsOn(c, s, b, h, n, r); }
  }

  /** The field is read: its destination has begun it, and its payload comes next. */
  ghost predicate Reads(c: Config, s: State, b: seq<byte>, h: Header, n: nat, r: Read)
  {
    && BoundaryStep(c, s, b).Go? && n <= |b| &&
    var t := BoundaryStep(c, s, b).next;
    && Good(c, t) && Run(c, s, b) == Run(c, t, b[n..])
    && t.dest == Started(r, h, s.dest, Ids(s.path) + [h.id])
    && if r.ReadMessage? then t.path == s.path + [Frame(h.id, false)] && t.pend.Idle?
       else t.path == s.path && t.pend == if ReadUnits(r, h) == 0 then Idle else Busy(h, false, 0, ACCEPT)
  }

  lemma ReadsOn(c: Config, s: State, b: seq<byte>, h: Header, n: nat, r: Read)
    requires FieldNext(c, s, b, h, n) && h.id in Members(c, s) && Members(c, s)[h.id] == r && !Beyond(c, s, h, n)
    requires Ask(r, h, false) == Take(r, false) && (r.ReadMessage? ==> |s.path| < 255)
    ensures Reads(c, s, b, h, n, r)
  {
    hide Run, LevelAt, AnswerTo, Good, OverBudget, ReadHeader, Started, Toll, BoundaryStep, Ask;
    HeaderRuns(c, s, b, h, n);
    MemberAnswer(c, s, h);
  }

  /** A read whose call states no bound at all is refused whatever comes, by the cap first. */
  lemma UnboundedRefused(c: Config, s: State, b: seq<byte>, h: Header, n: nat, r: Read)
    requires FieldNext(c, s, b, h, n) && h.id in Members(c, s) && Members(c, s)[h.id] == r
    requires HasBound(r) && r.bound.max < 0
    ensures Verdict(Run(c, s, b)) == Stopped(if Beyond(c, s, h, n) then Limit else Argument)
  {
    hide Run, LevelAt, AnswerTo, Good, OverBudget, ReadHeader, Toll, BoundaryStep;
    HeaderRuns(c, s, b, h, n);
    MemberAnswer(c, s, h);
    BudgetIs(c.cap, h, n);
  }

  /** Every other read takes what has its type, unless the cap forbids it or the message is 255 deep. */
  lemma TypeDecides(c: Config, s: State, b: seq<byte>, h: Header, n: nat, r: Read)
    requires FieldNext(c, s, b, h, n) && h.id in Members(c, s) && Members(c, s)[h.id] == r
    requires !HasBound(r) && Tagged(r, h)
    ensures var o := Run(c, s, b);
            && (Beyond(c, s, h, n) ==> Verdict(o) == Stopped(Limit))
            && (!Beyond(c, s, h, n) && r.ReadMessage? && |s.path| == 255 ==> Verdict(o) == Stopped(Invalid))
            && (!Beyond(c, s, h, n) && !(r.ReadMessage? && |s.path| == 255) ==> Reads(c, s, b, h, n, r))
  {
    NotDeeper(c, s);
    hide Run, LevelAt, AnswerTo, Good, OverBudget, ReadHeader, Started, Toll, BoundaryStep;
    HeaderRuns(c, s, b, h, n);
    MemberAnswer(c, s, h);
    TaggedIs(r, h);
    BudgetIs(c.cap, h, n);
    if !Beyond(c, s, h, n) && !(r.ReadMessage? && |s.path| == 255) { ReadsOn(c, s, b, h, n, r); }
  }

  lemma NotDeeper(c: Config, s: State)
    requires Good(c, s)
    ensures |s.path| <= 255
  {
  }

  /** The field is walked, not read: nothing in the destination has changed. */
  ghost predicate Walks(c: Config, s: State, b: seq<byte>, h: Header, n: nat)
  {
    && BoundaryStep(c, s, b).Go? && n <= |b| &&
    var t := BoundaryStep(c, s, b).next;
    && Good(c, t) && Run(c, s, b) == Run(c, t, b[n..]) && t.dest == s.dest
    && if h.wire == SequenceStart then t.path == s.path + [Frame(h.id, true)] && t.pend.Idle?
       else t.path == s.path && t.pend == if SkipUnits(h) == 0 then Idle else Busy(h, true, 0, ACCEPT)
  }

  /** What is no member, or has another type than its member, is walked; only a header that states no size
      can be over the cap by itself, and only a sequence can be too deep. */
  lemma OthersWalked(c: Config, s: State, b: seq<byte>, h: Header, n: nat)
    requires FieldNext(c, s, b, h, n)
    requires h.id in Members(c, s) ==> !Tagged(Members(c, s)[h.id], h) && (HasBound(Members(c, s)[h.id]) ==> Members(c, s)[h.id].bound.max >= 0)
    ensures var o := Run(c, s, b);
            && (Beyond(c, s, h, n) && !Sized(h) ==> Verdict(o) == Stopped(Limit))
            && (!(Beyond(c, s, h, n) && !Sized(h)) && h.wire == SequenceStart && |s.path| == 255 ==> Verdict(o) == Stopped(Invalid))
            && (!(Beyond(c, s, h, n) && !Sized(h)) && !(h.wire == SequenceStart && |s.path| == 255) ==> Walks(c, s, b, h, n))
  {
    NotDeeper(c, s);
    hide Run, LevelAt, AnswerTo, Good, OverBudget, ReadHeader, Started, Toll, BoundaryStep, SkipUnits;
    HeaderRuns(c, s, b, h, n);
    MemberAnswer(c, s, h);
    if h.id in Members(c, s) { TaggedIs(Members(c, s)[h.id], h); }
    BudgetIs(c.cap, h, n);
  }

  /** Between fields, bytes that are no field's header end the decode; so does an end marker where nothing is open. */
  lemma MalformedStops(c: Config, s: State, b: seq<byte>)
    requires Good(c, s) && s.pend.Idle? && (s.path != [] && LevelAt(c.root, s.path).Live? ==> s.span <= c.cap + s.disc)
    requires s.path == [] || GateOf(LevelAt(c.root, s.path)) == OPEN_GATE
    ensures ReadHeader(OPEN_GATE, b) == BadHeader(Invalid) ==> Verdict(Run(c, s, b)) == Stopped(Invalid)
    ensures s.path == [] && ReadHeader(OPEN_GATE, b).LevelEnd? ==> Verdict(Run(c, s, b)) == Stopped(Invalid)
  {
    if ReadHeader(OPEN_GATE, b).BadHeader? || ReadHeader(OPEN_GATE, b).LevelEnd? {
      var r := ReadHeader(if s.path == [] then OPEN_GATE else GateOf(LevelAt(c.root, s.path)), b);
      NotNothing(b);
      AtBoundary(c, s, b);
      StepStops(c, s, b);
      assert s.path != [] && LevelAt(c.root, s.path).Live? ==> !Exceeds(c.cap, SpanLive(s.span, s.disc), 0);
      hide Run, Good, LevelAt, GateOf, ReadHeader, Machine.Step, OfferField;
    }
  }

  lemma NotNothing(b: seq<byte>)
    requires !ReadHeader(OPEN_GATE, b).CutHeader?
    ensures b != []
  {
    assert Decode([]) == Cut;
  }

  /** What a decode goes on with, after bytes that brought it between two fields. */
  lemma Afterwards(c: Config, a: seq<byte>, b: seq<byte>)
    requires Run(c, START, a).Stuck? && Run(c, START, a).rest == []
    ensures Good(c, Run(c, START, a).state) && Run(c, START, a + b) == Run(c, Run(c, START, a).state, b)
  {
    hide Run, Good, Machine.Step;
    GoodStart(c);
    RunGood(c, START, a);
    RunSplit(c, START, a, b);
    assert [] + b == b;
  }
}
