/** The decoder's fields as one value, and what they mean against the machine: how the
    cursor, the saved path and the refusal describe where the machine stands. */
module Cursor {
  import opened Varint
  import opened WireFormat
  import opened Handlers
  import opened Destination
  import opened Utf8
  import opened Machine
  import opened Progress

  datatype Fields = Fields(
    win: seq<byte>,            // the window being parsed
    p: nat,
    end: nat,
    hdr: Header,               // the field being delivered
    dest: Dest,
    consumed: bool,
    incomplete: bool,
    refusal: Option<Refusal>,  // this feed was refused, and in which tier
    suspendDepth: int,         // the level the parse stopped in, or -1
    replay: bool,              // going back down to that level
    pend: bool,                // a field there is half delivered
    pendHdr: Header,
    pendSkip: bool,
    pendDone: nat,             // payload bytes or elements of it already taken
    utf8: nat,
    spanCarry: nat,            // bytes of the current top-level field in earlier windows
    spanBase: nat,             // where its span continues in this one
    spanSkip: bool,            // inside a skipped subtree
    spanSkipped: nat,          // bytes of it spent on skipped subtrees
    capInert: bool,            // the cap cannot be reached in this window
    seqDepth: nat,
    gate: Gate)

  /** The fields, the saved path, where the machine stands and where its run over the window ends. */
  datatype Look = Look(m: State, goal: Outcome, f: Fields, ids: seq<nat>, skips: seq<bool>)

  function Rest(f: Fields): seq<byte>
    requires f.p <= f.end <= |f.win|
  {
    f.win[f.p..f.end]
  }

  /** The rest of the window takes the machine where its run over the window ends, the span
      counters agree with it, and where the cap is not watched it cannot be reached. */
  predicate InRun(c: Config, v: Look)
  {
    && v.f.spanBase <= v.f.p <= v.f.end <= |v.f.win|
    && Good(c, v.m) && Run(c, v.m, Rest(v.f)) == v.goal
    && (v.m.path != [] || v.m.pend.Busy? ==> v.m.span == v.f.spanCarry + (v.f.p - v.f.spanBase))
    && (v.f.capInert ==> v.f.spanCarry + (|v.f.win| - v.f.spanBase) + CAP_NEED_MAX <= c.cap)
  }

  predicate Synced(c: Config, v: Look)
  {
    InRun(c, v) && v.m.dest == v.f.dest
  }

  /** The saved path and the saved field are the machine's, from depth `k` on. */
  predicate Saved(v: Look, k: nat)
  {
    && |v.ids| == MAX_DEPTH + 1 && |v.skips| == MAX_DEPTH + 1 && |v.m.path| <= MAX_DEPTH
    && (forall i :: k <= i < |v.m.path| ==> v.ids[i] == v.m.path[i].id && v.skips[i] == v.m.path[i].skip)
    && v.f.pend == v.m.pend.Busy?
    && (v.f.pend ==> v.m.pend == Busy(v.f.pendHdr, v.f.pendSkip, v.f.pendDone, v.f.utf8))
  }

  /** Nothing wrong and nothing missing so far, and not on the way back down. */
  predicate Calm(f: Fields)
  {
    f.refusal.None? && !f.incomplete && !f.replay && f.suspendDepth == -1
  }

  /** Between two fields of the level `path` leads to. */
  predicate Flowing(c: Config, v: Look, path: seq<Frame>)
  {
    Calm(v.f) && Synced(c, v) && v.m.path == path && v.m.pend.Idle?
  }

  /** On the way back down, at the level `path` leads to. */
  predicate Replaying(c: Config, v: Look, path: seq<Frame>)
  {
    && v.f.refusal.None? && !v.f.incomplete && v.f.replay && v.f.suspendDepth == |v.m.path| && path <= v.m.path
    && Synced(c, v) && Saved(v, |path|)
  }

  /** Out of bytes, and unwound to the level `path` leads to. */
  predicate Halted(c: Config, v: Look, path: seq<Frame>)
  {
    && v.f.refusal.None? && v.f.incomplete && !v.f.replay && v.f.suspendDepth == |v.m.path| && path <= v.m.path
    && Synced(c, v) && Saved(v, |path|) && v.goal == Stuck(v.m, Rest(v.f))
  }

  /** Out of bytes inside this level's field, which the level has yet to record. */
  predicate Unsettled(c: Config, v: Look, path: seq<Frame>, id: nat, skip: bool)
  {
    && v.f.refusal.None? && v.f.incomplete && !v.f.replay && Synced(c, v) && v.goal == Stuck(v.m, Rest(v.f))
    && if v.f.suspendDepth == -1 then
         v.m.path == path && v.m.pend == Busy(v.f.hdr, skip, v.f.pendDone, v.f.utf8) && v.f.hdr.id == id
       else v.f.suspendDepth == |v.m.path| && path + [Frame(id, skip)] <= v.m.path && Saved(v, |path| + 1)
  }

  /** Refused, for the reason and with the values of the machine's run. */
  predicate Refused(v: Look)
  {
    v.f.refusal.Some? && v.goal.Failed? && v.goal.why == v.f.refusal.value && v.f.dest - v.goal.at == v.goal.dest
  }

  /** What no step inside a window changes. */
  predicate Kept(v: Look, w: Look)
  {
    && w.f.win == v.f.win && w.f.end == v.f.end && w.goal == v.goal
    && w.f.spanCarry == v.f.spanCarry && w.f.spanBase == v.f.spanBase && w.f.capInert == v.f.capInert
    && |w.ids| == |v.ids| && |w.skips| == |v.skips|
    && (w.f.refusal.None? ==> w.f.seqDepth == v.f.seqDepth && w.f.gate == v.f.gate && w.f.spanSkip == v.f.spanSkip)
  }

  /** Bytes spent on skipped subtrees that the decoder has yet to discount. */
  function Owed(v: Look): int
  {
    v.m.disc - v.f.spanSkipped
  }

  /** Inside `path`, every byte is owed once for each skipped sequence on it, and for the field
      itself if it is being skipped. */
  predicate Paid(v: Look, w: Look, path: seq<Frame>, skip: bool)
  {
    w.f.refusal.None? ==>
      w.f.p >= v.f.p && Owed(w) == Owed(v) + Toll(path, w.f.p - v.f.p) + if skip then w.f.p - v.f.p else 0
  }

  // ---------------------------------------------------------------- typed reads

  /** A typed read that its handler makes of the field in hand, at its beginning or resumed. */
  predicate Reading(c: Config, v: Look, path: seq<Frame>, r: Read)
  {
    && Calm(v.f) && !v.f.consumed && InRun(c, v) && v.m.path == path
    && AnswerTo(LevelAt(c.root, path), v.f.hdr).Take? && AnswerTo(LevelAt(c.root, path), v.f.hdr).read == r
    && !r.ReadMessage?
    && (if ReadUnits(r, v.f.hdr) == 0 then v.m.pend.Idle? && v.f.pendDone == 0 && v.f.utf8 == ACCEPT
        else v.m.pend == Busy(v.f.hdr, false, v.f.pendDone, v.f.utf8))
    && v.m.dest == Started(r, v.f.hdr, v.f.dest, Ids(path) + [v.f.hdr.id])
    && (v.f.pendDone > 0 ==> v.m.dest == v.f.dest)
  }

  /** How a typed read ends. */
  predicate ReadDone(c: Config, v: Look, w: Look, path: seq<Frame>, id: nat)
  {
    && Kept(v, w) && Paid(v, w, path, false)
    && if w.f.refusal.Some? then Refused(w)
       else if w.f.consumed then Flowing(c, w, path)
       else Unsettled(c, w, path, id, false)
  }

  lemma ReadingFacts(c: Config, v: Look, path: seq<Frame>, r: Read)
    requires Reading(c, v, path, r)
    ensures v.f.p <= v.f.end <= |v.f.win| && v.m.path == path && Good(c, v.m) && Run(c, v.m, Rest(v.f)) == v.goal
    ensures v.m.dest == Started(r, v.f.hdr, v.f.dest, Ids(path) + [v.f.hdr.id])
    ensures v.f.pendDone <= ReadUnits(r, v.f.hdr)
    ensures ReadUnits(r, v.f.hdr) > 0 ==>
      && v.m.pend == Busy(v.f.hdr, false, v.f.pendDone, v.f.utf8) && KeyOf(v.m) == Ids(path) + [v.f.hdr.id]
      && IsState(v.f.utf8) && v.f.pendDone < ReadUnits(r, v.f.hdr) && (v.f.pendDone == 0 ==> v.f.utf8 == ACCEPT)
      && ReadInHand(c, v.m).Take? && ReadInHand(c, v.m).read == r
  {
    hide Run;
  }

  /** The last `n` bytes of the field taken. */
  function Finished(v: Look, n: nat, d: Dest, done: nat, q: nat): Look
    requires v.m.pend.Busy?
  {
    v.(m := Past(v.m, n, d), f := v.f.(p := v.f.p + n, dest := d, consumed := true, pendDone := done, utf8 := q))
  }

  /** `n` bytes and `units` of its units taken, and no more of them here. */
  function CutShort(v: Look, n: nat, units: nat, d: Dest, q: nat): Look
    requires v.m.pend.Busy?
  {
    v.(m := Amid(v.m, n, units, d, q),
       f := v.f.(p := v.f.p + n, dest := d, incomplete := true, pendDone := v.f.pendDone + units, utf8 := q))
  }

  function Rejected(v: Look, p: nat, why: Refusal): Look
  {
    v.(f := v.f.(p := p, refusal := Some(why)))
  }

  lemma ReadFinished(c: Config, v: Look, path: seq<Frame>, r: Read, n: nat, d: Dest, done: nat, q: nat)
    requires Reading(c, v, path, r) && ReadUnits(r, v.f.hdr) > 0 && n <= v.f.end - v.f.p
    requires v.m.pend.Busy? && Leads(c, v.m, Rest(v.f), Past(v.m, n, d), n)
    ensures ReadDone(c, v, Finished(v, n, d, done, q), path, v.f.hdr.id)
  {
    hide Run, Good, AnswerTo, Started;
    Slices(v.f.win, v.f.p, v.f.end, n);
  }

  lemma ReadCut(c: Config, v: Look, path: seq<Frame>, r: Read, n: nat, units: nat, d: Dest, q: nat)
    requires Reading(c, v, path, r) && ReadUnits(r, v.f.hdr) > 0 && n <= v.f.end - v.f.p
    requires v.m.pend.Busy? && Leads(c, v.m, Rest(v.f), Amid(v.m, n, units, d, q), n)
    requires var t := Amid(v.m, n, units, d, q);
             var rest := v.f.win[v.f.p + n..v.f.end];
             Run(c, t, rest) == Stuck(t, rest)
    ensures ReadDone(c, v, CutShort(v, n, units, d, q), path, v.f.hdr.id)
  {
    hide Run, Good, AnswerTo, Started;
    Slices(v.f.win, v.f.p, v.f.end, n);
  }

  /** It was cut at its very next unit. */
  lemma ReadWaits(c: Config, v: Look, path: seq<Frame>, r: Read)
    requires Reading(c, v, path, r) && ReadUnits(r, v.f.hdr) > 0 && v.m.dest == v.f.dest
    requires Run(c, v.m, Rest(v.f)) == Stuck(v.m, Rest(v.f))
    ensures ReadDone(c, v, v.(f := v.f.(incomplete := true)), path, v.f.hdr.id)
  {
    hide Run, Good, AnswerTo, Started;
    TollZero(path);
  }

  lemma ReadRefused(c: Config, v: Look, path: seq<Frame>, p: nat, why: Refusal, at: set<Path>, d: Dest)
    requires v.goal == Failed(why, at, d) && v.f.dest - at == d
    ensures ReadDone(c, v, Rejected(v, p, why), path, v.f.hdr.id)
  {
    hide Run, Good, AnswerTo, Started;
  }

  // ---------------------------------------------------------------- single values

  lemma IntegerDone(c: Config, v: Look, path: seq<Frame>, r: Read, q: nat)
    requires Reading(c, v, path, r) && (r.ReadUnsigned? || r.ReadSigned? || r.ReadBool?)
    ensures v.f.p <= v.f.end <= |v.f.win| && v.m.pend.Busy?
    ensures var x := Decode(Rest(v.f));
            && (x.Cut? ==> ReadDone(c, v, v.(f := v.f.(incomplete := true)), path, v.f.hdr.id))
            && (x.Overlong? ==> ReadDone(c, v, Rejected(v, q, Invalid), path, v.f.hdr.id))
            && (x.Got? ==>
                  var d := v.f.dest[Ids(path) + [v.f.hdr.id] := Scalar(IntValue(ElemOf(r), x.value))];
                  ReadDone(c, v, Finished(v, x.size, d, v.f.pendDone, v.f.utf8), path, v.f.hdr.id))
  {
    hide Run, Good, Leads, AnswerTo, LevelAt, Started, Decode, Ids, Reading, ReadDone, Past, Finished;
    ReadingFacts(c, v, path, r);
    StartedIdle(r, v.f.hdr, v.f.dest, Ids(path) + [v.f.hdr.id]);
    OneVarint(c, v.m, Rest(v.f), r);
    var x := Decode(Rest(v.f));
    match x
    case Cut => ReadWaits(c, v, path, r);
    case Overlong => ReadRefused(c, v, path, q, Invalid, {}, v.f.dest);
    case Got(raw, n) =>
      ReadFinished(c, v, path, r, n, v.f.dest[Ids(path) + [v.f.hdr.id] := Scalar(IntValue(ElemOf(r), raw))], v.f.pendDone, v.f.utf8);
  }

  lemma FloatDone(c: Config, v: Look, path: seq<Frame>, fix: Fix)
    requires Reading(c, v, path, ReadFloat(fix))
    ensures v.f.p <= v.f.end <= |v.f.win| && v.m.pend.Busy?
    ensures var w := FloatWidth(fix);
            if v.f.end - v.f.p < w then ReadDone(c, v, v.(f := v.f.(incomplete := true)), path, v.f.hdr.id)
            else
              var d := v.f.dest[Ids(path) + [v.f.hdr.id] := Scalar(Bits(v.f.win[v.f.p..v.f.p + w]))];
              ReadDone(c, v, Finished(v, w, d, v.f.pendDone, v.f.utf8), path, v.f.hdr.id)
  {
    hide Run, Good, Leads, AnswerTo, LevelAt, Started, Ids, Reading, ReadDone, Past, Finished;
    var r := ReadFloat(fix);
    ReadingFacts(c, v, path, r);
    StartedIdle(r, v.f.hdr, v.f.dest, Ids(path) + [v.f.hdr.id]);
    OneFloat(c, v.m, Rest(v.f), r);
    var w := FloatWidth(fix);
    if v.f.end - v.f.p < w {
      ReadWaits(c, v, path, r);
    } else {
      Slices(v.f.win, v.f.p, v.f.end, w);
      ReadFinished(c, v, path, r, w, v.f.dest[Ids(path) + [v.f.hdr.id] := Scalar(Bits(v.f.win[v.f.p..v.f.p + w]))], v.f.pendDone, v.f.utf8);
    }
  }

  // ---------------------------------------------------------------- texts and raw buffers

  /** `memcpy` into the text, then its length. */
  function TextTaken(d: Dest, key: Path, room: nat, done: nat, piece: seq<byte>, len: nat): Dest
  {
    var e := TextCopied(d, key, room, done, piece);
    e[key := Text(TextAt(e, key, room).buf, len)]
  }

  lemma TextEmpty(c: Config, v: Look, path: seq<Frame>, r: Read)
    requires Reading(c, v, path, r) && r.ReadText? && v.f.hdr.len == 0
    ensures var d := TextTaken(v.f.dest, Ids(path) + [v.f.hdr.id], r.room, 0, [], 0);
            ReadDone(c, v, v.(f := v.f.(dest := d, consumed := true, pendDone := 0, utf8 := ACCEPT)), path, v.f.hdr.id)
  {
    hide Run, Good, AnswerTo, LevelAt, Ids, Advance;
    TollZero(path);
  }

  /** `n` more bytes of a text are its last, and a string's bytes are UTF-8. */
  lemma TextOk(c: Config, v: Look, path: seq<Frame>, r: Read, n: nat)
    requires Reading(c, v, path, r) && r.ReadText? && n > 0
    requires v.f.pendDone + n == v.f.hdr.len && v.f.p + n <= v.f.end <= |v.f.win| && IsState(v.f.utf8)
    requires Scanned(r.isString, v.f.utf8, v.f.win[v.f.p..v.f.p + n]) == ACCEPT || !r.isString
    ensures v.m.pend.Busy?
    ensures var d := TextTaken(v.f.dest, Ids(path) + [v.f.hdr.id], r.room, v.f.pendDone, v.f.win[v.f.p..v.f.p + n], v.f.hdr.len);
            ReadDone(c, v, Finished(v, n, d, 0, ACCEPT), path, v.f.hdr.id)
  {
    hide Run, Good, AnswerTo, LevelAt, Ids, Advance, Reading, ReadDone, Past, Finished;
    ReadingFacts(c, v, path, r);
    StartedIdle(r, v.f.hdr, v.f.dest, Ids(path) + [v.f.hdr.id]);
    Slices(v.f.win, v.f.p, v.f.end, n);
    TextEnd(c, v.m, Rest(v.f), n, r.isString, r.room);
    var d := TextTaken(v.f.dest, Ids(path) + [v.f.hdr.id], r.room, v.f.pendDone, v.f.win[v.f.p..v.f.p + n], v.f.hdr.len);
    ReadFinished(c, v, path, r, n, d, 0, ACCEPT);
  }

  lemma TextBad(c: Config, v: Look, w: Look, path: seq<Frame>, r: Read, n: nat)
    requires Reading(c, v, path, r) && r.ReadText? && r.isString && n > 0
    requires v.f.pendDone + n == v.f.hdr.len && v.f.p + n <= v.f.end <= |v.f.win| && IsState(v.f.utf8)
    requires Scanned(true, v.f.utf8, v.f.win[v.f.p..v.f.p + n]) != ACCEPT
    requires var key := Ids(path) + [v.f.hdr.id]; w.f.dest - {key} == v.f.dest - {key}
    requires w == v.(f := v.f.(p := w.f.p, dest := w.f.dest, refusal := Some(Invalid), utf8 := w.f.utf8))
    ensures ReadDone(c, v, w, path, v.f.hdr.id)
  {
    hide Run, Good, AnswerTo, LevelAt, Ids, Advance, Reading, Past, Finished;
    ReadingFacts(c, v, path, r);
    StartedIdle(r, v.f.hdr, v.f.dest, Ids(path) + [v.f.hdr.id]);
    Slices(v.f.win, v.f.p, v.f.end, n);
    TextEnd(c, v.m, Rest(v.f), n, r.isString, r.room);
  }

  /** All there is in the window, and it does not end the text. */
  lemma TextMore(c: Config, v: Look, path: seq<Frame>, r: Read, n: nat)
    requires Reading(c, v, path, r) && r.ReadText? && IsState(v.f.utf8)
    requires v.f.pendDone + n < v.f.hdr.len && v.f.p + n == v.f.end <= |v.f.win|
    ensures v.m.pend.Busy?
    ensures var piece := v.f.win[v.f.p..v.f.p + n];
            var d := TextCopied(v.f.dest, Ids(path) + [v.f.hdr.id], r.room, v.f.pendDone, piece);
            ReadDone(c, v, CutShort(v, n, n, d, Scanned(r.isString, v.f.utf8, piece)), path, v.f.hdr.id)
  {
    hide Run, Good, AnswerTo, LevelAt, Ids, Advance, Reading, ReadDone, Amid, CutShort;
    ReadingFacts(c, v, path, r);
    StartedIdle(r, v.f.hdr, v.f.dest, Ids(path) + [v.f.hdr.id]);
    Slices(v.f.win, v.f.p, v.f.end, n);
    TextPiece(c, v.m, Rest(v.f), n, r.isString, r.room);
    var piece := v.f.win[v.f.p..v.f.p + n];
    var d := TextCopied(v.f.dest, Ids(path) + [v.f.hdr.id], r.room, v.f.pendDone, piece);
    assert v.f.win[v.f.p + n..v.f.end] == [];
    AtEnd(c, TextAmid(v.m, r.isString, r.room, piece));
    ReadCut(c, v, path, r, n, n, d, Scanned(r.isString, v.f.utf8, piece));
  }

  /** The piece of a text that has come, when it is not the whole of it. */
  function PieceTaken(v: Look, path: seq<Frame>, r: Read, piece: seq<byte>): Look
    requires v.m.pend.Busy? && IsState(v.f.utf8) && r.ReadText?
  {
    var (key, n, q) := (Ids(path) + [v.f.hdr.id], |piece|, Scanned(r.isString, v.f.utf8, piece));
    var d := TextCopied(v.f.dest, key, r.room, v.f.pendDone, piece);
    if v.f.pendDone + n < v.f.hdr.len then CutShort(v, n, n, d, q)
    else if r.isString && q != ACCEPT then v.(f := v.f.(p := v.f.p + n, dest := d, refusal := Some(Invalid), utf8 := q))
    else Finished(v, n, TextTaken(v.f.dest, key, r.room, v.f.pendDone, piece, v.f.hdr.len), 0, ACCEPT)
  }

  lemma PieceDone(c: Config, v: Look, path: seq<Frame>, r: Read, take: nat)
    requires Reading(c, v, path, r) && r.ReadText? && v.f.p <= v.f.end <= |v.f.win|
    requires v.f.pendDone > 0 || v.f.end - v.f.p < v.f.hdr.len
    requires take == v.f.end - v.f.p <= v.f.hdr.len - v.f.pendDone || take == v.f.hdr.len - v.f.pendDone <= v.f.end - v.f.p
    ensures v.m.pend.Busy? && IsState(v.f.utf8)
    ensures ReadDone(c, v, PieceTaken(v, path, r, v.f.win[v.f.p..v.f.p + take]), path, v.f.hdr.id)
  {
    hide Run, Good, AnswerTo, LevelAt, Started, Ids, Advance, Scanned, Reading, ReadDone, TextTaken, Past, Amid, TextCopied;
    ReadingFacts(c, v, path, r);
    var piece := v.f.win[v.f.p..v.f.p + take];
    TextCopiedHere(v.f.dest, Ids(path) + [v.f.hdr.id], r.room, v.f.pendDone, piece);
    if v.f.pendDone + take < v.f.hdr.len { TextMore(c, v, path, r, take); }
    else if r.isString && Scanned(true, v.f.utf8, piece) != ACCEPT {
      TextBad(c, v, PieceTaken(v, path, r, piece), path, r, take);
    } else { TextOk(c, v, path, r, take); }
  }

  lemma RawEmpty(c: Config, v: Look, path: seq<Frame>, room: nat)
    requires Reading(c, v, path, ReadRaw(room)) && v.f.hdr.len == 0
    ensures ReadDone(c, v, v.(f := v.f.(consumed := true, pendDone := 0)), path, v.f.hdr.id)
  {
    hide Run, Good, AnswerTo, LevelAt, Ids;
    TollZero(path);
  }

  lemma RawDone(c: Config, v: Look, path: seq<Frame>, room: nat, n: nat)
    requires Reading(c, v, path, ReadRaw(room)) && n > 0
    requires v.f.pendDone + n == v.f.hdr.len && v.f.p + n <= v.f.end <= |v.f.win|
    ensures v.m.pend.Busy?
    ensures var d := RawCopied(v.f.dest, Ids(path) + [v.f.hdr.id], room, v.f.pendDone, v.f.win[v.f.p..v.f.p + n]);
            ReadDone(c, v, Finished(v, n, d, 0, v.f.utf8), path, v.f.hdr.id)
  {
    hide Run, Good, AnswerTo, LevelAt, Ids, Reading, ReadDone, Past, Finished;
    ReadingFacts(c, v, path, ReadRaw(room));
    StartedIdle(ReadRaw(room), v.f.hdr, v.f.dest, Ids(path) + [v.f.hdr.id]);
    Slices(v.f.win, v.f.p, v.f.end, n);
    RawEnd(c, v.m, Rest(v.f), n, room);
    var d := RawCopied(v.f.dest, Ids(path) + [v.f.hdr.id], room, v.f.pendDone, v.f.win[v.f.p..v.f.p + n]);
    ReadFinished(c, v, path, ReadRaw(room), n, d, 0, v.f.utf8);
  }

  lemma RawMore(c: Config, v: Look, path: seq<Frame>, room: nat, n: nat)
    requires Reading(c, v, path, ReadRaw(room))
    requires v.f.pendDone + n < v.f.hdr.len && v.f.p + n == v.f.end <= |v.f.win|
    ensures v.m.pend.Busy?
    ensures var d := RawCopied(v.f.dest, Ids(path) + [v.f.hdr.id], room, v.f.pendDone, v.f.win[v.f.p..v.f.p + n]);
            ReadDone(c, v, CutShort(v, n, n, d, v.f.utf8), path, v.f.hdr.id)
  {
    hide Run, Good, AnswerTo, LevelAt, Ids, Reading, ReadDone, Amid, CutShort;
    ReadingFacts(c, v, path, ReadRaw(room));
    StartedIdle(ReadRaw(room), v.f.hdr, v.f.dest, Ids(path) + [v.f.hdr.id]);
    Slices(v.f.win, v.f.p, v.f.end, n);
    RawPiece(c, v.m, Rest(v.f), n, room);
    var d := RawCopied(v.f.dest, Ids(path) + [v.f.hdr.id], room, v.f.pendDone, v.f.win[v.f.p..v.f.p + n]);
    assert v.f.win[v.f.p + n..v.f.end] == [];
    AtEnd(c, Amid(v.m, n, n, d, v.f.utf8));
    ReadCut(c, v, path, ReadRaw(room), n, n, d, v.f.utf8);
  }

  // ---------------------------------------------------------------- arrays

  function KeyIn(path: seq<Frame>, f: Fields): Path
  {
    Ids(path) + [f.hdr.id]
  }

  /** Element `i` of an array is next. */
  predicate InItems(c: Config, v0: Look, v: Look, path: seq<Frame>, r: Read, i: nat)
  {
    && Calm(v.f) && !v.f.consumed && Synced(c, v) && v.m.path == path && v.f.hdr == v0.f.hdr
    && (r.ReadArray? || r.ReadSpan?)
    && AnswerTo(LevelAt(c.root, path), v.f.hdr).Take? && AnswerTo(LevelAt(c.root, path), v.f.hdr).read == r
    && i <= v.f.hdr.count
    && (if i < v.f.hdr.count then v.m.pend == Busy(v.f.hdr, false, i, v.f.utf8) else v.m.pend.Idle?)
    && Kept(v0, v) && Paid(v0, v, path, false)
    && |ItemsOf(v.f.dest, KeyIn(path, v.f), r)| == |ItemsOf(v0.f.dest, KeyIn(path, v0.f), r)|
  }

  /** The destination of an array read is set up before its first element. */
  lemma ItemsBegin(c: Config, v: Look, path: seq<Frame>, r: Read)
    requires Reading(c, v, path, r) && (r.ReadArray? || r.ReadSpan?)
    ensures var w := v.(f := v.f.(dest := Started(r, v.f.hdr, v.f.dest, KeyIn(path, v.f))));
            InItems(c, w, w, path, r, v.f.pendDone)
    ensures v.f.pendDone > 0 ==> Started(r, v.f.hdr, v.f.dest, KeyIn(path, v.f)) == v.f.dest
  {
    hide Run, AnswerTo, LevelAt, Ids;
    TollZero(path);
  }

  /** The element took `n` bytes. */
  function ItemTaken(v: Look, path: seq<Frame>, r: Read, n: nat, i: nat, x: Value): Look
    requires v.m.pend.Busy? && (r.ReadArray? || r.ReadSpan?)
  {
    var d := StoreItem(v.f.dest, KeyIn(path, v.f), ItemsOf(v.f.dest, KeyIn(path, v.f), r), i, x);
    v.(m := Onward(v.m, v.f.hdr.count, n, d), f := v.f.(p := v.f.p + n, dest := d))
  }

  /** Setting up the destination spends no bytes. */
  lemma ReadFromBegun(c: Config, v: Look, v0: Look, w: Look, path: seq<Frame>)
    requires v0 == v.(f := v.f.(dest := v0.f.dest)) && ReadDone(c, v0, w, path, v.f.hdr.id)
    ensures ReadDone(c, v, w, path, v.f.hdr.id)
  {
    hide Flowing, Unsettled, Toll;
  }

  lemma InItemsFacts(c: Config, v0: Look, v: Look, path: seq<Frame>, r: Read, i: nat)
    requires InItems(c, v0, v, path, r, i)
    ensures v.f.p <= v.f.end <= |v.f.win| && v.f.hdr == v0.f.hdr && i <= v.f.hdr.count && v.f.end == v0.f.end
    ensures r.ReadArray? || r.ReadSpan?
    ensures Good(c, v.m) && Run(c, v.m, Rest(v.f)) == v.goal && v.m.path == path && v.m.dest == v.f.dest
    ensures |ItemsOf(v.f.dest, KeyIn(path, v.f), r)| == |ItemsOf(v0.f.dest, KeyIn(path, v0.f), r)|
    ensures i < v.f.hdr.count ==>
      v.m.pend == Busy(v.f.hdr, false, i, v.f.utf8) && KeyOf(v.m) == KeyIn(path, v.f) && ReadingItems(c, v.m, r)
  {
    hide Run;
  }

  lemma ItemCut(c: Config, v0: Look, v: Look, path: seq<Frame>, r: Read, i: nat)
    requires InItems(c, v0, v, path, r, i) && i < v.f.hdr.count && v.goal == Stuck(v.m, Rest(v.f))
    ensures ReadDone(c, v0, v.(f := v.f.(pendDone := i, incomplete := true)), path, v0.f.hdr.id)
  {
    hide Run, Good, AnswerTo, LevelAt;
  }

  lemma ItemBad(c: Config, v0: Look, v: Look, path: seq<Frame>, r: Read, i: nat, q: nat)
    requires InItems(c, v0, v, path, r, i) && v.goal == Failed(Invalid, {}, v.f.dest)
    ensures ReadDone(c, v0, Rejected(v, q, Invalid), path, v0.f.hdr.id)
  {
    hide Run, Good, AnswerTo, LevelAt;
  }

  lemma ItemOn(c: Config, v0: Look, v: Look, path: seq<Frame>, r: Read, i: nat, n: nat, x: Value)
    requires InItems(c, v0, v, path, r, i) && i < v.f.hdr.count && n <= v.f.end - v.f.p
    requires v.m.pend.Busy? && Leads(c, v.m, Rest(v.f), ItemStored(v.m, n, r, x), n)
    ensures InItems(c, v0, ItemTaken(v, path, r, n, i, x), path, r, i + 1)
  {
    hide Run, Good, AnswerTo, LevelAt, Ids;
    InItemsFacts(c, v0, v, path, r, i);
    Slices(v.f.win, v.f.p, v.f.end, n);
    TollAdd(path, v.f.p - v0.f.p, n);
    ItemsAfter(v.f.dest, KeyIn(path, v.f), r, i, x, []);
  }

  lemma ItemsEnd(c: Config, v0: Look, v: Look, path: seq<Frame>, r: Read)
    requires InItems(c, v0, v, path, r, v.f.hdr.count)
    ensures ReadDone(c, v0, v.(f := v.f.(consumed := true, pendDone := 0)), path, v0.f.hdr.id)
  {
    hide Run, Good, AnswerTo, LevelAt;
  }

  /** What the next varint of an integer array does. */
  lemma IntegerItem(c: Config, v0: Look, v: Look, path: seq<Frame>, r: Read, i: nat, q: nat)
    requires InItems(c, v0, v, path, r, i) && i < v.f.hdr.count && !IsFloat(r.elem)
    ensures v.f.p <= v.f.end <= |v.f.win| && v.m.pend.Busy?
    ensures var x := Decode(Rest(v.f));
            && (x.Cut? ==> ReadDone(c, v0, v.(f := v.f.(pendDone := i, incomplete := true)), path, v0.f.hdr.id))
            && (x.Overlong? ==> ReadDone(c, v0, Rejected(v, q, Invalid), path, v0.f.hdr.id))
            && (x.Got? && !InRange(r.elem, RangeOf(r), x.value) ==> ReadDone(c, v0, Rejected(v, q, Invalid), path, v0.f.hdr.id))
            && (x.Got? && InRange(r.elem, RangeOf(r), x.value) ==>
                  InItems(c, v0, ItemTaken(v, path, r, x.size, i, IntValue(r.elem, x.value)), path, r, i + 1))
  {
    hide Run, Good, Leads, AnswerTo, LevelAt, Ids, Decode, InItems, ItemTaken, ItemStored, ReadDone, InRange, IntValue;
    InItemsFacts(c, v0, v, path, r, i);
    IntItem(c, v.m, Rest(v.f), r);
    var x := Decode(Rest(v.f));
    match x
    case Cut => ItemCut(c, v0, v, path, r, i);
    case Overlong => ItemBad(c, v0, v, path, r, i, q);
    case Got(raw, n) =>
      if InRange(r.elem, RangeOf(r), raw) { ItemOn(c, v0, v, path, r, i, n, IntValue(r.elem, raw)); }
      else { ItemBad(c, v0, v, path, r, i, q); }
  }

  /** Is the value range of an array's elements declared and checked? Booleans have none. */
  predicate Bounded(r: Read)
    requires r.ReadArray? || r.ReadSpan?
  {
    r.ReadArray? && r.range.Within? && (r.elem == UnsignedElem || r.elem == SignedElem)
  }

  /** A surplus varint, past what the destination holds, need not be decoded to be passed over. */
  lemma SurplusItem(c: Config, v0: Look, v: Look, path: seq<Frame>, r: Read, i: nat, q: nat)
    requires InItems(c, v0, v, path, r, i) && i < v.f.hdr.count && !IsFloat(r.elem) && !Bounded(r)
    requires |ItemsOf(v.f.dest, KeyIn(path, v.f), r)| <= i
    ensures v.f.p <= v.f.end <= |v.f.win| && v.m.pend.Busy?
    ensures var x := Decode(Rest(v.f));
            && (x.Cut? ==> ReadDone(c, v0, v.(f := v.f.(pendDone := i, incomplete := true)), path, v0.f.hdr.id))
            && (x.Overlong? ==> ReadDone(c, v0, Rejected(v, q, Invalid), path, v0.f.hdr.id))
            && (x.Got? ==>
                  InItems(c, v0, v.(m := Onward(v.m, v.f.hdr.count, x.size, v.f.dest), f := v.f.(p := v.f.p + x.size)), path, r, i + 1))
  {
    hide Run, Good, AnswerTo, LevelAt, Ids, Decode, InItems, ReadDone, ItemsOf, Onward;
    IntegerItem(c, v0, v, path, r, i, q);
  }

  /** What the next element of a fixlen array does, when the array comes piece by piece. */
  lemma FloatItemNext(c: Config, v0: Look, v: Look, path: seq<Frame>, r: Read, i: nat)
    requires InItems(c, v0, v, path, r, i) && i < v.f.hdr.count && IsFloat(r.elem)
    ensures v.f.p <= v.f.end <= |v.f.win| && v.m.pend.Busy?
    ensures var w := ElemWidth(r.elem);
            if v.f.end - v.f.p < w then ReadDone(c, v0, v.(f := v.f.(pendDone := i, incomplete := true)), path, v0.f.hdr.id)
            else InItems(c, v0, ItemTaken(v, path, r, w, i, Bits(v.f.win[v.f.p..v.f.p + w])), path, r, i + 1)
  {
    hide Run, Good, Leads, AnswerTo, LevelAt, Ids, InItems, ItemTaken, ItemStored, ReadDone;
    InItemsFacts(c, v0, v, path, r, i);
    FloatOne(c, v.m, Rest(v.f), r);
    var w := ElemWidth(r.elem);
    if v.f.end - v.f.p < w {
      ItemCut(c, v0, v, path, r, i);
    } else {
      Slices(v.f.win, v.f.p, v.f.end, w);
      ItemOn(c, v0, v, path, r, i, w, Bits(v.f.win[v.f.p..v.f.p + w]));
    }
  }

  /** A fixlen array all in the window, taken in one move. */
  lemma FloatsWhole(c: Config, v: Look, path: seq<Frame>, r: Read)
    requires InItems(c, v, v, path, r, 0) && IsFloat(r.elem) && v.f.pendDone == 0 && 0 < v.f.hdr.count
    requires v.f.p + FloatBytes(r.elem, v.f.hdr.count) <= v.f.end <= |v.f.win|
    ensures v.m.pend.Busy?
    ensures var n := FloatBytes(r.elem, v.f.hdr.count);
            var d := ItemsCopied(v.f.dest, KeyIn(path, v.f), ItemsOf(v.f.dest, KeyIn(path, v.f), r), 0,
                                 Floats(r.elem, v.f.win[v.f.p..v.f.p + n]));
            ReadDone(c, v, Finished(v, n, d, 0, v.f.utf8), path, v.f.hdr.id)
  {
    hide Run, Good, AnswerTo, LevelAt, Ids;
    InItemsFacts(c, v, v, path, r, 0);
    hide ItemsOf, ItemsCopied, Floats;
    var n := FloatBytes(r.elem, v.f.hdr.count);
    FloatItems(c, v.m, Rest(v.f), v.f.hdr.count, r);
    Slices(v.f.win, v.f.p, v.f.end, n);
  }

  // ---------------------------------------------------------------- declined fields

  /** The field in hand was declined: its payload is to be stepped over, its sequence walked. */
  predicate Skipping(c: Config, v: Look, path: seq<Frame>)
  {
    && Calm(v.f) && v.f.hdr.wire != SequenceEnd && v.f.p <= v.f.end <= |v.f.win| && |path| <= MAX_DEPTH
    && if v.f.hdr.wire == SequenceStart && |path| == MAX_DEPTH then v.goal == Failed(Invalid, {}, v.f.dest)
       else
         && Synced(c, v)
         && if v.f.hdr.wire == SequenceStart then
              v.m.path == path + [Frame(v.f.hdr.id, true)] && v.m.pend.Idle? && v.f.hdr == SequenceHeader(v.f.hdr.id)
            else
              && v.m.path == path
              && if SkipUnits(v.f.hdr) == 0 then v.m.pend.Idle? && v.f.pendDone == 0
                 else v.m.pend == Busy(v.f.hdr, true, v.f.pendDone, v.f.utf8)
  }

  /** How a skip ends. */
  predicate SkipDone(c: Config, v: Look, w: Look, path: seq<Frame>, id: nat)
  {
    && Kept(v, w) && Paid(v, w, path, true)
    && if w.f.refusal.Some? then Refused(w)
       else if w.f.incomplete then Unsettled(c, w, path, id, true)
       else Flowing(c, w, path)
  }

  lemma SkippingFacts(c: Config, v: Look, path: seq<Frame>)
    requires Skipping(c, v, path) && v.f.hdr.wire != SequenceStart
    ensures v.f.p <= v.f.end <= |v.f.win| && Good(c, v.m) && Run(c, v.m, Rest(v.f)) == v.goal && v.m.path == path
    ensures SkipUnits(v.f.hdr) > 0 ==>
      && v.m.pend == Busy(v.f.hdr, true, v.f.pendDone, v.f.utf8) && v.f.pendDone < SkipUnits(v.f.hdr)
    ensures v.m.dest == v.f.dest && v.f.pendDone <= SkipUnits(v.f.hdr)
  {
    hide Run;
  }

  function SkipFinished(v: Look, n: nat): Look
    requires v.m.pend.Busy?
  {
    v.(m := Past(v.m, n, v.f.dest), f := v.f.(p := v.f.p + n, pendDone := 0))
  }

  lemma SkipEnds(c: Config, v: Look, path: seq<Frame>, n: nat)
    requires Skipping(c, v, path) && v.f.hdr.wire != SequenceStart && SkipUnits(v.f.hdr) > 0 && v.f.p + n <= v.f.end
    requires v.m.pend.Busy? && Leads(c, v.m, Rest(v.f), Past(v.m, n, v.f.dest), n)
    ensures SkipDone(c, v, SkipFinished(v, n), path, v.f.hdr.id)
  {
    hide Run, Good, SkipUnits;
    Slices(v.f.win, v.f.p, v.f.end, n);
  }

  /** All `n` bytes that were left of a declined payload. */
  lemma SkipWhole(c: Config, v: Look, path: seq<Frame>, n: nat)
    requires Skipping(c, v, path) && (v.f.hdr.wire == Fixlen || v.f.hdr.wire == ArrayFixlen)
    requires v.f.pendDone + n == SkipUnits(v.f.hdr) && v.f.p + n <= v.f.end
    ensures n > 0 ==> v.m.pend.Busy? && SkipDone(c, v, SkipFinished(v, n), path, v.f.hdr.id)
    ensures n == 0 ==> SkipDone(c, v, v.(f := v.f.(pendDone := 0)), path, v.f.hdr.id)
  {
    SkippingFacts(c, v, path);
    hide Run, Good, SkipUnits, Past, SkipFinished;
    if n > 0 {
      SkipBytesEnd(c, v.m, Rest(v.f), n);
      SkipEnds(c, v, path, n);
    } else {
      TollZero(path);
    }
  }

  lemma SkipCut(c: Config, v: Look, path: seq<Frame>, n: nat)
    requires Skipping(c, v, path) && v.f.hdr.wire != SequenceStart && SkipUnits(v.f.hdr) > 0 && v.f.p + n == v.f.end
    requires v.m.pend.Busy?
    requires var t := Amid(v.m, n, n, v.f.dest, v.f.utf8); Leads(c, v.m, Rest(v.f), t, n) && Run(c, t, []) == Stuck(t, [])
    ensures SkipDone(c, v, CutShort(v, n, n, v.f.dest, v.f.utf8), path, v.f.hdr.id)
  {
    hide Run, Good, SkipUnits;
    Slices(v.f.win, v.f.p, v.f.end, n);
    assert v.f.win[v.f.p + n..v.f.end] == [];
  }

  /** What the window holds of a declined payload, `n` bytes, is not all of it. */
  lemma SkipMore(c: Config, v: Look, path: seq<Frame>, n: nat)
    requires Skipping(c, v, path) && (v.f.hdr.wire == Fixlen || v.f.hdr.wire == ArrayFixlen)
    requires v.f.pendDone + n < SkipUnits(v.f.hdr) && v.f.p + n == v.f.end
    ensures v.m.pend.Busy? && SkipDone(c, v, CutShort(v, n, n, v.f.dest, v.f.utf8), path, v.f.hdr.id)
  {
    SkippingFacts(c, v, path);
    hide Run, Good, SkipUnits, Amid, CutShort;
    SkipBytes(c, v.m, Rest(v.f), n);
    AtEnd(c, Amid(v.m, n, n, v.f.dest, v.f.utf8));
    SkipCut(c, v, path, n);
  }

  /** Varint `i` of a declined payload is next. */
  predicate InVarints(c: Config, v0: Look, v: Look, path: seq<Frame>, i: nat)
  {
    && Calm(v.f) && Synced(c, v) && v.m.path == path && v.f.hdr == v0.f.hdr && VarintPayload(v.f.hdr.wire)
    && i <= SkipUnits(v.f.hdr)
    && (if i < SkipUnits(v.f.hdr) then v.m.pend == Busy(v.f.hdr, true, i, v.f.utf8) else v.m.pend.Idle?)
    && Kept(v0, v) && Paid(v0, v, path, true)
  }

  lemma VarintsBegin(c: Config, v: Look, path: seq<Frame>)
    requires Skipping(c, v, path) && VarintPayload(v.f.hdr.wire)
    ensures InVarints(c, v, v, path, v.f.pendDone)
  {
    SkippingFacts(c, v, path);
    hide Run, Good;
    TollZero(path);
  }

  function VarintPassed(v: Look, n: nat): Look
    requires v.m.pend.Busy?
  {
    v.(m := Onward(v.m, SkipUnits(v.f.hdr), n, v.f.dest), f := v.f.(p := v.f.p + n))
  }

  lemma VarintOn(c: Config, v0: Look, v: Look, path: seq<Frame>, i: nat, n: nat)
    requires InVarints(c, v0, v, path, i) && i < SkipUnits(v.f.hdr) && v.f.p + n <= v.f.end
    requires v.m.pend.Busy? && Leads(c, v.m, Rest(v.f), VarintPassed(v, n).m, n)
    ensures InVarints(c, v0, VarintPassed(v, n), path, i + 1)
  {
    hide Run, Good, SkipUnits;
    Slices(v.f.win, v.f.p, v.f.end, n);
    TollAdd(path, v.f.p - v0.f.p, n);
  }

  lemma VarintStops(c: Config, v0: Look, v: Look, path: seq<Frame>, i: nat, q: nat)
    requires InVarints(c, v0, v, path, i) && i < SkipUnits(v.f.hdr)
    ensures v.goal == Stuck(v.m, Rest(v.f)) ==> SkipDone(c, v0, v.(f := v.f.(pendDone := i, incomplete := true)), path, v0.f.hdr.id)
    ensures v.goal == Failed(Invalid, {}, v.f.dest) ==> SkipDone(c, v0, Rejected(v, q, Invalid), path, v0.f.hdr.id)
  {
    hide Run, Good, SkipUnits;
  }

  lemma InVarintsFacts(c: Config, v0: Look, v: Look, path: seq<Frame>, i: nat)
    requires InVarints(c, v0, v, path, i)
    ensures v.f.p <= v.f.end <= |v.f.win| && Good(c, v.m) && Run(c, v.m, Rest(v.f)) == v.goal && v.m.dest == v.f.dest
    ensures v.f.hdr == v0.f.hdr && VarintPayload(v.f.hdr.wire) && v.f.end == v0.f.end
    ensures i < SkipUnits(v.f.hdr) ==> v.m.pend == Busy(v.f.hdr, true, i, v.f.utf8)
  {
    hide Run, Good, SkipUnits;
  }

  /** What the next varint of a declined payload does. */
  lemma VarintNext(c: Config, v0: Look, v: Look, path: seq<Frame>, i: nat, q: nat)
    requires InVarints(c, v0, v, path, i) && i < SkipUnits(v.f.hdr)
    ensures v.f.p <= v.f.end <= |v.f.win| && v.m.pend.Busy?
    ensures var x := Decode(Rest(v.f));
            && (x.Cut? ==> SkipDone(c, v0, v.(f := v.f.(pendDone := i, incomplete := true)), path, v0.f.hdr.id))
            && (x.Overlong? ==> SkipDone(c, v0, Rejected(v, q, Invalid), path, v0.f.hdr.id))
            && (x.Got? ==> InVarints(c, v0, VarintPassed(v, x.size), path, i + 1))
  {
    InVarintsFacts(c, v0, v, path, i);
    hide Run, Good, Decode, SkipUnits, InVarints, SkipDone, Leads;
    SkipOne(c, v.m, Rest(v.f));
    var x := Decode(Rest(v.f));
    VarintStops(c, v0, v, path, i, q);
    if x.Got? { VarintOn(c, v0, v, path, i, x.size); }
  }

  lemma VarintsEnd(c: Config, v0: Look, v: Look, path: seq<Frame>)
    requires InVarints(c, v0, v, path, SkipUnits(v.f.hdr))
    ensures SkipDone(c, v0, v.(f := v.f.(pendDone := 0)), path, v0.f.hdr.id)
  {
    hide Run, Good;
  }

  lemma SkipTooDeep(c: Config, v: Look, path: seq<Frame>)
    requires Skipping(c, v, path) && v.f.hdr.wire == SequenceStart && |path| == MAX_DEPTH
    ensures SkipDone(c, v, v.(f := v.f.(refusal := Some(Invalid))), path, v.f.hdr.id)
  {
    hide Run, Good;
  }

  lemma SkippingSequence(c: Config, v: Look, path: seq<Frame>)
    requires Skipping(c, v, path) && v.f.hdr.wire == SequenceStart && |path| != MAX_DEPTH
    ensures |path| < MAX_DEPTH && Flowing(c, v, path + [Frame(v.f.hdr.id, true)])
  {
    hide Run, Good;
  }
}
