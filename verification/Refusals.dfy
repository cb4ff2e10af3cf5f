/** What a refusal leaves behind: everything decoded before it, but for the refused field's own place. */
module Refusals {
  import opened Varint
  import opened WireFormat
  import opened Handlers
  import opened Destination
  import opened Utf8
  import opened Machine
  import opened Progress
  import opened Levels
  import opened Verdicts
  import opened Histories

  /** Besides the length of the array it is in, a refused field touches its own place and what is below it,
      and only its own place is left unspecified. */
  predicate Touches(s: State, at: set<Path>, d: Dest, id: nat)
  {
    var (here, key) := (Ids(s.path), Ids(s.path) + [id]);
    && at <= {key}
    && forall k <- s.dest :: !(key <= k) && k != here ==> k in d && d[k] == s.dest[k]
  }

  ghost predicate Local(s: State, at: set<Path>, d: Dest)
  {
    exists id: nat :: Touches(s, at, d, id)
  }

  lemma Untouched(s: State)
    ensures Local(s, {}, s.dest)
  {
    assert Touches(s, {}, s.dest, 0);
  }

  lemma Without(s: State, d: Dest, id: nat)
    requires Touches(s, {}, d, id)
    ensures Local(s, {Ids(s.path) + [id]}, d - {Ids(s.path) + [id]})
  {
    assert Touches(s, {Ids(s.path) + [id]}, d - {Ids(s.path) + [id]}, id);
  }

  lemma BeganAt(s: State, r: Read, h: Header, placed: bool)
    ensures Touches(s, {}, PlaceIf(placed, s.dest, Ids(s.path), h.id), h.id)
    ensures Touches(s, {}, Started(r, h, PlaceIf(placed, s.dest, Ids(s.path), h.id), Ids(s.path) + [h.id]), h.id)
  {
    var (here, d) := (Ids(s.path), PlaceIf(placed, s.dest, Ids(s.path), h.id));
    forall k | k in s.dest && !(here + [h.id] <= k) && k != here
      ensures k in d && d[k] == s.dest[k]
      ensures var e := Started(r, h, d, here + [h.id]); k in e && e[k] == d[k]
    {
      StartsBelow(r, h, d, here + [h.id], k);
    }
    hide Started;
  }

  lemma OfferLocal(c: Config, s: State, h: Header, n: nat, notElement: bool)
    ensures var o := OfferField(c, s, h, n, notElement); o.Fail? ==> Local(s, o.at, o.dest)
  {
    var a := AnswerHere(c, s, h, notElement);
    hide AnswerHere, Started, PlaceIf, Exceeds, HeaderNeed, Toll, Local, Touches, Ids;
    var r := if a.Take? then a.read else ReadUnsigned;
    BeganAt(s, r, h, a.placed);
    Untouched(s);
    Without(s, PlaceIf(a.placed, s.dest, Ids(s.path), h.id), h.id);
    Without(s, Started(r, h, PlaceIf(a.placed, s.dest, Ids(s.path), h.id), Ids(s.path) + [h.id]), h.id);
    AtIsLocal(s, PlaceIf(a.placed, s.dest, Ids(s.path), h.id), h.id);
  }

  lemma AtIsLocal(s: State, d: Dest, id: nat)
    requires Touches(s, {}, d, id)
    ensures Local(s, {}, d)
  {
  }

  lemma OpeningLocal(s: State, at: set<Path>, d: Dest)
    requires Local(s.(span := 0, disc := 0), at, d)
    ensures Local(s, at, d)
  {
    var id: nat :| Touches(s.(span := 0, disc := 0), at, d, id);
    assert Touches(s, at, d, id);
  }

  lemma BoundaryAt(c: Config, s: State, b: seq<byte>)
    ensures var o := BoundaryStep(c, s, b); o.Fail? ==> Local(s, o.at, o.dest)
  {
    Untouched(s);
    if b != [] {
      var r := ReadHeader(if s.path == [] then OPEN_GATE else GateOf(LevelAt(c.root, s.path)), b);
      if r.FieldAt? {
        var s0 := if s.path == [] then s.(span := 0, disc := 0) else s;
        OfferLocal(c, s0, r.header, r.size, r.notElement);
        var o := OfferField(c, s0, r.header, r.size, r.notElement);
        if o.Fail? && s.path == [] { OpeningLocal(s, o.at, o.dest); }
      }
    }
    hide OfferField, LevelAt, GateOf, ReadHeader, Local, SpanLive, Exceeds;
  }

  lemma PayloadAt(s: State, b: seq<byte>, r: Read)
    requires s.pend.Busy? && IsState(s.pend.utf8)
    ensures var o := ReadStep(s, b, r); o.Fail? ==> Local(s, o.at, o.dest)
  {
    Untouched(s);
    UntouchedAt(s, s.pend.h.id);
    Without(s, s.dest, s.pend.h.id);
    hide Decode, InRange, IntValue, StoreItem, ItemsAt, SpanAt, TextAt, RawAt, StepByte, NextUnit, Local, Touches, Ids;
  }

  lemma UntouchedAt(s: State, id: nat)
    ensures Touches(s, {}, s.dest, id)
  {
  }

  lemma StepAt(c: Config, s: State, b: seq<byte>)
    ensures var o := Machine.Step(c, s, b); o.Fail? ==> Local(s, o.at, o.dest)
  {
    if s.pend.Idle? {
      BoundaryAt(c, s, b);
    } else if s.pend.skip {
      Untouched(s);
      hide Decode, NextUnit, Local;
    } else {
      var a := ReadInHand(c, s);
      if a.Take? && IsState(s.pend.utf8) { PayloadAt(s, b, a.read); }
      hide ReadStep, ReadInHand, Local;
    }
  }

  /** A decode that is refused was somewhere just before: it had taken the bytes up to there, and what was
      decoded of them is still there, but for the refused field's own place. */
  lemma {:induction false} RefusalKeeps(c: Config, s: State, b: seq<byte>) returns (n: nat, u: State)
    requires Good(c, s) && Run(c, s, b).Failed?
    ensures n <= |b| && Good(c, u) && Run(c, s, b[..n]) == Stuck(u, [])
    ensures var o := Run(c, s, b);
            Machine.Step(c, u, b[n..]) == Fail(o.why, o.at, o.dest) && Local(u, o.at, o.dest)
    decreases |b|
  {
    hide Good, Machine.Step, Local;
    StepAt(c, s, b);
    var o := Machine.Step(c, s, b);
    if o.Fail? {
      n, u := 0, s;
      AtEnd(c, s);
      assert b[..0] == [] && b[0..] == b;
    } else {
      StepGood(c, s, b);
      var m;
      m, u := RefusalKeeps(c, o.next, b[o.size..]);
      n := o.size + m;
      StepAgain(c, s, b, m, u);
      assert b[o.size..][m..] == b[n..];
    }
  }

  /** The bytes of a step and some more: the step, and then the rest of them. */
  lemma StepAgain(c: Config, s: State, b: seq<byte>, m: nat, u: State)
    requires Machine.Step(c, s, b).Go? && Machine.Step(c, s, b).size + m <= |b|
    requires var o := Machine.Step(c, s, b); Run(c, o.next, b[o.size..][..m]) == Stuck(u, [])
    ensures Run(c, s, b[..Machine.Step(c, s, b).size + m]) == Stuck(u, [])
  {
    hide Machine.Step;
    var o := Machine.Step(c, s, b);
    var (x, y) := (b[..o.size], b[o.size..][..m]);
    assert b[..o.size + m] == x + y;
    StepLocal(c, s, b);
    StepStable(c, s, x, y);
    assert (x + y)[o.size..] == y;
  }
}
