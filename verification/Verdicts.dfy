/** What a decode reports, and why the division of the bytes into chunks cannot change it. */
module Verdicts {
  import opened Varint
  import opened WireFormat
  import opened Handlers
  import opened Destination
  import opened Utf8
  import opened Machine
  import opened Progress
  import opened Cursor
  import opened Levels
  import opened TopLevel
  import opened Parser

  datatype Status = Complete | Incomplete | Stopped(why: Refusal)

  function Verdict(o: Outcome): Status
  {
    match o
    case Failed(why, _, _) => Stopped(why)
    case Stuck(s, rest) => if s.path == [] && s.pend.Idle? && rest == [] then Complete else Incomplete
  }

  /** The destination holds the run's values; what a refused field left is nobody's business. */
  predicate Agrees(d: Dest, o: Outcome)
  {
    match o
    case Failed(_, at, e) => d - at == e
    case Stuck(s, _) => d == s.dest
  }

  /** The bytes so far were refused. */
  predicate Latched(c: Config, fed: seq<byte>, why: Refusal, d: Dest)
  {
    Run(c, START, fed).Failed? && Run(c, START, fed).why == why && Agrees(d, Run(c, START, fed))
  }

  /** The bytes so far take the machine to `m`, with the start of a cut item left. */
  predicate Held(c: Config, fed: seq<byte>, m: State, rest: seq<byte>)
  {
    Run(c, START, fed) == Stuck(m, rest)
  }

  /** No suspension just when the bytes end between two top-level fields. */
  predicate AtRest(suspendDepth: int, m: State, held: nat)
  {
    suspendDepth < 0 <==> !InField(m) && held == 0
  }

  const NO_HEADER := Header(0, Unsigned, Fp32, 0, 0)

  const START_FIELDS := Fields([], 0, 0, NO_HEADER, map[], false, false, None, -1, false, false, NO_HEADER, false, 0, ACCEPT,
                               0, 0, false, 0, false, 0, OPEN_GATE)

  lemma GoodStart(c: Config)
    ensures Good(c, START)
  {
  }

  lemma RunNothing(c: Config)
    ensures Run(c, START, []) == Stuck(START, [])
  {
    GoodStart(c);
    AtEnd(c, START);
  }

  lemma BeginsAtRest(c: Config, v: Look)
    requires v.m == START && v.f == START_FIELDS && |v.ids| == MAX_DEPTH + 1 && |v.skips| == MAX_DEPTH + 1
    ensures Resting(c, v) && Held(c, [], START, []) && AtRest(-1, START, 0)
  {
    GoodStart(c);
    RunNothing(c);
  }

  /** A refusal is final: no further byte changes it. */
  lemma LatchHolds(c: Config, fed: seq<byte>, chunk: seq<byte>, why: Refusal, d: Dest)
    requires Latched(c, fed, why, d)
    ensures Latched(c, fed + chunk, why, d)
    ensures Verdict(Run(c, START, fed + chunk)) == Stopped(why) && Agrees(d, Run(c, START, fed + chunk))
  {
    hide Machine.Step;
    RunSplit(c, START, fed, chunk);
  }

  /** The next chunk is parsed as if it followed the bytes that are held. */
  lemma HeldBytes(c: Config, fed: seq<byte>, m: State, rest: seq<byte>, chunk: seq<byte>)
    requires Held(c, fed, m, rest)
    ensures Run(c, START, fed + chunk) == Run(c, m, rest + chunk)
    ensures Machine.Step(c, m, rest).Need? && |rest| < 30
  {
    GoodStart(c);
    RunGood(c, START, fed);
    hide Machine.Step, Run, Good;
    RunSplit(c, START, fed, chunk);
  }

  lemma RestingHeld(c: Config, v: Look)
    requires Resting(c, v)
    ensures Good(c, v.m) && v.m.dest == v.f.dest && v.f.refusal.None?
  {
    hide Good;
  }

  /** Stitched to what follows it, a cut item is either still cut, with everything there is, or
      taken whole. */
  lemma Stitched(c: Config, m: State, held: seq<byte>, more: seq<byte>, m1: State, rest: seq<byte>)
    requires Good(c, m) && Machine.Step(c, m, held).Need? && Run(c, m, held + more) == Stuck(m1, rest)
    ensures |rest| <= |held + more| && rest == (held + more)[|held + more| - |rest|..] && |rest| < 30
    ensures |rest| > |more| ==> rest == held + more && m1 == m
  {
    var window := held + more;
    RunGood(c, m, window);
    StepLocal(c, m, window);
    var o := Machine.Step(c, m, window);
    if o.Go? {
      if o.size <= |held| {
        assert window[..o.size] == held[..o.size] && held == held[..o.size] + held[o.size..];
        StepStable(c, m, held[..o.size], held[o.size..]);
      }
      StepGood(c, m, window);
      RunGood(c, o.next, window[o.size..]);
    }
  }

  /** The stitched window, and what of the chunk it did not need. */
  lemma StitchSplit(c: Config, m: State, held: seq<byte>, chunk: seq<byte>, take: nat)
    requires take <= |chunk|
    ensures var o := Run(c, m, held + chunk[..take]);
            Run(c, m, held + chunk) == if o.Stuck? then Run(c, o.state, o.rest + chunk[take..]) else o
  {
    hide Machine.Step, Run;
    assert held + chunk == held + chunk[..take] + chunk[take..];
    RunSplit(c, m, held + chunk[..take], chunk[take..]);
  }

  /** What follows the part of the stitched window that was parsed. */
  lemma StitchRest(held: seq<byte>, chunk: seq<byte>, take: nat, used: nat)
    requires take <= |chunk| && used <= |held| + take
    ensures var stitch := held + chunk[..take];
            && (used >= |held| ==> stitch[used..] + chunk[take..] == chunk[used - |held|..])
            && (used == |held| + |chunk| ==> stitch[used..] == [] && stitch[used..] + chunk[take..] == [])
            && (used < |held| ==> stitch[used..] != [])
  {
  }

  lemma StillCut(c: Config, total: seq<byte>, m: State, held: seq<byte>, chunk: seq<byte>, rest: seq<byte>)
    requires Run(c, START, total) == Run(c, m, held + chunk) && Run(c, m, rest) == Stuck(m, rest) && rest == held + chunk
    ensures Held(c, total, m, rest)
  {
  }

  /** Where a window ended inside a field, or in a cut item, the message is not complete. */
  lemma RestingEnds(c: Config, v: Look, incomplete: bool)
    requires Resting(c, v)
    ensures v.f.suspendDepth < 0 ==> !InField(v.m)
    ensures v.f.suspendDepth == -1 || v.f.suspendDepth >= 0
  {
    hide Good;
  }

  // ---------------------------------------------------------------- one shot

  /** The verdict of a decode is the recursive parser's: complete exactly when the bytes are whole
      accepted fields one after another, and then with their values. */
  lemma OneShot(c: Config, b: seq<byte>)
    ensures var (o, m) := (Run(c, START, b), ParseMessage(c, START, b));
            && (Verdict(o) == Complete <==> m.Accepted?) && (m.Accepted? ==> Agrees(m.dest, o))
            && (Verdict(o) == Incomplete <==> m.Truncated?)
            && (Verdict(o).Stopped? <==> m.Rejected?) && (m.Rejected? ==> Verdict(o) == Stopped(m.why) && o.at == m.at && o.dest == m.dest)
  {
    GoodStart(c);
    MessageFollows(c, START, b);
    hide Run, Good, ParseMessage;
  }

  /** Chunk after chunk, each parsed from where the last one stopped. */
  function Fold(c: Config, o: Outcome, chunks: seq<seq<byte>>): Outcome
    decreases |chunks|
  {
    if chunks == [] then o
    else if o.Failed? then Fold(c, o, chunks[1..])
    else Fold(c, Run(c, o.state, o.rest + chunks[0]), chunks[1..])
  }

  function Concat(chunks: seq<seq<byte>>): seq<byte>
  {
    if chunks == [] then [] else chunks[0] + Concat(chunks[1..])
  }

  lemma {:induction false} FoldIsRun(c: Config, fed: seq<byte>, chunks: seq<seq<byte>>)
    ensures Fold(c, Run(c, START, fed), chunks) == Run(c, START, fed + Concat(chunks))
    decreases |chunks|
  {
    hide Run, Machine.Step;
    if chunks == [] {
      assert fed + Concat(chunks) == fed;
    } else {
      RunSplit(c, START, fed, chunks[0]);
      FoldIsRun(c, fed + chunks[0], chunks[1..]);
      assert fed + Concat(chunks) == fed + chunks[0] + Concat(chunks[1..]);
    }
  }

  /** Two divisions of the same bytes end alike: same verdict, same values, same half-read item. */
  lemma ChunkIndependence(c: Config, chunks: seq<seq<byte>>, others: seq<seq<byte>>)
    requires Concat(chunks) == Concat(others)
    ensures Fold(c, Run(c, START, []), chunks) == Fold(c, Run(c, START, []), others)
  {
    hide Run, Fold;
    FoldIsRun(c, [], chunks);
    FoldIsRun(c, [], others);
  }
}
