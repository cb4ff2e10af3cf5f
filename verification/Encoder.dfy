/** The streaming encoder: bytes go into a buffer through fast paths where there is room and
    byte by byte where there is not; a full buffer goes to a sink that copies it or hands over
    another, and without a sink the output is cut. */
module Encoder {
  import opened Varint
  import opened BitKernels
  import opened WireFormat
  import opened ZigZag
  import opened Utf8
  import opened Tree

  datatype Fault = BufferFull | InvalidArgument

  /** What a sink does with a full buffer: copy it, or install another with room reserved in front. */
  datatype Handover = Copies | Installs(len: nat, offset: nat)

  /** A buffer as it went to the sink, and how many bytes at its front were reserved. */
  datatype Packet = Packet(bytes: seq<byte>, head: nat)

  const MIN_OUTPUT_BUFFER: nat := 1

  predicate GoodPlan(plan: seq<Handover>)
  {
    forall k :: 0 <= k < |plan| && plan[k].Installs? ==> plan[k].offset + MIN_OUTPUT_BUFFER <= plan[k].len
  }

  /** The message bytes of what was handed over. */
  function Stripped(packets: seq<Packet>): seq<byte>
  {
    if packets == [] then []
    else
      var last := packets[|packets| - 1];
      Stripped(packets[..|packets| - 1]) + if last.head <= |last.bytes| then last.bytes[last.head..] else []
  }

  lemma StrippedOne(packets: seq<Packet>, p: Packet)
    requires p.head <= |p.bytes|
    ensures Stripped(packets + [p]) == Stripped(packets) + p.bytes[p.head..]
  {
    assert (packets + [p])[..|packets|] == packets;
  }

  /** Floats are four or eight bytes, as their type says. */
  predicate WellTyped(f: Field)
  {
    match f
    case FloatArray(_, wide, raws) => forall k :: 0 <= k < |raws| ==> |raws[k]| == FloatWidth(FloatFix(wide))
    case FloatField(_, wide, raw) => |raw| == FloatWidth(FloatFix(wide))
    case _ => true
  }

  function ZigZagWords(ss: seq<i64>): (ws: seq<u64>)
    ensures ws == ZigZags(ss)
  {
    seq(|ss|, k requires 0 <= k < |ss| => ZigZagEncode(ss[k]))
  }

  /** Is the field one the encoder takes? */
  ghost predicate Accepts(f: Field)
  {
    && f.id <= ID_MAX
    && match f
       case TextField(_, isString, text) => |text| <= FIXLEN_MAX && (isString ==> Utf8.Utf8(text))
       case UnsignedArray(_, us) => |us| <= ARRAY_MAX
       case SignedArray(_, ss) => |ss| <= ARRAY_MAX
       case FloatArray(_, wide, raws) => |raws| <= ARRAY_MAX
       case _ => true
  }

  /** The encoder refuses a field for its id, its size or a string that is not UTF-8, and for nothing else. */
  lemma AcceptedFields(f: Field)
    ensures Accepts(f) <==>
      && f.id <= 0x7fff_ffff
      && (f.TextField? ==> |f.text| <= 0x7fff_ffff && (f.isString ==> Utf8.Utf8(f.text)))
      && (f.UnsignedArray? ==> |f.us| <= 0x7fff_ffff) && (f.SignedArray? ==> |f.ss| <= 0x7fff_ffff)
      && (f.FloatArray? ==> |f.raws| <= 0x7fff_ffff)
  {
    hide Utf8.Utf8;
  }

  lemma Chain(before: seq<byte>, a: seq<byte>, w: seq<byte>, c: seq<byte>)
    ensures before + a + w == before + (a + w) && before + (a + w) + c == before + (a + w + c)
  {
  }

  lemma StartsParts(run: seq<nat>, i: nat)
    requires i < |run|
    ensures Starts(run[..i + 1]) == Starts(run[..i]) + Starts([run[i]])
    ensures Starts(run) == Starts(run[..i + 1]) + Starts(run[i + 1..])
  {
    hide *;
    StartsSplit(run[..i], [run[i]]);
    StartsSplit(run[..i + 1], run[i + 1..]);
    TakeOne(run, i);
    Halves(run, i + 1);
  }

  lemma VarintsParts(ws: seq<nat>, i: nat)
    requires i < |ws|
    ensures Varints(ws[..i + 1]) == Varints(ws[..i]) + Encode(ws[i])
    ensures Varints(ws) == Varints(ws[..i + 1]) + Varints(ws[i + 1..])
  {
    hide *;
    VarintsSplit(ws[..i], [ws[i]]);
    VarintsSplit(ws[..i + 1], ws[i + 1..]);
    VarintsOne(ws[i]);
    TakeOne(ws, i);
    Halves(ws, i + 1);
  }

  lemma VarintsAt(before: seq<byte>, ws: seq<nat>, i: nat)
    requires i < |ws|
    ensures before + Varints(ws[..i]) + Encode(ws[i]) == before + Varints(ws[..i + 1])
    ensures before + Varints(ws[..i + 1]) + Varints(ws[i + 1..]) == before + Varints(ws)
  {
    hide *;
    VarintsParts(ws, i);
    Chain(before, Varints(ws[..i]), Encode(ws[i]), Varints(ws[i + 1..]));
  }

  lemma NoVarints(before: seq<byte>)
    ensures before + Varints([]) == before
  {
  }

  lemma TakeOne<T>(s: seq<T>, i: nat)
    requires i < |s|
    ensures s[..i] + [s[i]] == s[..i + 1]
  {
  }

  lemma Halves<T>(s: seq<T>, i: nat)
    requires i <= |s|
    ensures s[..i] + s[i..] == s
  {
  }

  lemma StartsAt(before: seq<byte>, run: seq<nat>, i: nat)
    requires i < |run|
    ensures before + Starts(run[..i]) + Encode(HeaderWord(run[i], SequenceStart)) == before + Starts(run[..i + 1])
    ensures before + Starts(run[..i + 1]) + Starts(run[i + 1..]) == before + Starts(run)
  {
    hide *;
    StartsParts(run, i);
    StartsOne(run[i]);
    Chain(before, Starts(run[..i]), Starts([run[i]]), Starts(run[i + 1..]));
  }

  lemma NoStarts(before: seq<byte>)
    ensures before + Starts([]) == before
  {
  }

  lemma StartsOne(id: nat)
    ensures Starts([id]) == Encode(HeaderWord(id, SequenceStart))
  {
    hide Encode;
    assert Starts([]) == [];
  }

  /** Calls the encoder takes, from depth `d`. */
  ghost predicate Admissible(calls: seq<Call>, d: nat)
  {
    calls == [] ||
    match calls[0]
    case Write(f) => WellTyped(f) && Accepts(f) && Admissible(calls[1..], d)
    case Begin(id) => id <= ID_MAX && d < MAX_DEPTH && Admissible(calls[1..], d + 1)
    case _ => Admissible(calls[1..], if d > 0 then d - 1 else 0)
  }

  class OStream {
    var buffer: array<byte>
    var cursor: nat
    var end: nat
    var offset: nat                // reserved at the front of the active buffer
    const hasSink: bool
    var plan: seq<Handover>        // what the sink will do, handover by handover
    var packets: seq<Packet>
    var seqDepth: nat
    const ids: array<nat>          // headers held back, outermost first
    var held: nat
    var failure: Option<Fault>
    var installed: bool

    ghost const goodSink: bool     // every buffer the sink will install has a usable byte
    ghost var room: nat            // without a sink: how many message bytes the buffer holds
    ghost var hold: Hold           // the hold-back machine over the calls so far

    // -------------------------------------------------------------- what the fields mean

    ghost predicate Valid()
      reads this, buffer, ids
    {
      && offset <= cursor <= end <= buffer.Length
      && ids.Length == MAX_DEPTH && held <= MAX_DEPTH && seqDepth <= MAX_DEPTH
      && (hasSink && failure.None? ==> end >= MIN_OUTPUT_BUFFER)
      && (!hasSink ==> packets == [] && end - offset == room)
      && (goodSink && hasSink ==> GoodPlan(plan))
    }

    /** The message bytes so far: handed over, and still in the buffer. */
    ghost function Emitted(): seq<byte>
      reads this, buffer
      requires offset <= cursor <= buffer.Length
    {
      Stripped(packets) + buffer[offset..cursor]
    }

    /** Cut short: the buffer is full with a strict prefix of what there was to write. */
    ghost predicate CutOff(want: seq<byte>)
      reads this, buffer
      requires offset <= cursor <= buffer.Length
    {
      !hasSink && cursor == end && Emitted() <= want && Emitted() != want
    }

    /** `data` was appended to `before`, unless the output was cut or something was refused. */
    ghost predicate Grew(fault: Option<Fault>, before: seq<byte>, data: seq<byte>)
      reads this, buffer
      requires offset <= cursor <= buffer.Length
    {
      match fault
      case None =>
        && (failure.None? ==> Emitted() == before + data)
        && (failure == Some(BufferFull) ==> CutOff(before + data))
        && (failure == Some(InvalidArgument) ==> hasSink && !goodSink)
      case Some(BufferFull) => failure == fault
      case Some(InvalidArgument) => failure == fault
    }

    /** The bytes reserved at the front of a buffer are the caller's: whatever is written, they stay as
        they were, until the buffer is replaced or, copied by the sink, starts over without a head. */
    twostate predicate HeadKept()
      reads this, buffer
    {
      || fresh(buffer)
      || (buffer == old(buffer) && (offset == 0 || (offset == old(offset) && (offset <= buffer.Length ==> buffer[..offset] == old(buffer[..offset])))))
    }

    // -------------------------------------------------------------- buffers

    /** The stream's first fault stays its fault. */
    method Latch(e: Fault)
      modifies this`failure
      ensures failure == if old(failure).None? then Some(e) else old(failure)
    {
      if failure.None? { failure := Some(e); }
    }

    /** Install a buffer; behind a sink it must have a usable byte. */
    method InitBuffer(b: array<byte>, reserve: nat)
      modifies this`buffer, this`cursor, this`end, this`offset, this`failure, this`installed
      ensures installed && buffer == b
      ensures (reserve > b.Length || (hasSink && b.Length - reserve < 1)) ==>
        cursor == end == offset == 0 && failure == if old(failure).None? then Some(InvalidArgument) else old(failure)
      ensures !(reserve > b.Length || (hasSink && b.Length - reserve < 1)) ==>
        cursor == offset == reserve && end == b.Length && failure == old(failure)
    {
      installed := true;
      buffer := b;
      if reserve > b.Length || (hasSink && b.Length - reserve < MIN_OUTPUT_BUFFER) {
        cursor, end, offset := 0, 0, 0;
        Latch(InvalidArgument);
        return;
      }
      cursor, end, offset := reserve, b.Length, reserve;
    }

    constructor (b: array<byte>, reserve: nat, sink: bool, plan: seq<Handover>)
      ensures Valid() && fresh(ids) && buffer == b && hasSink == sink
      ensures failure.None? ==> Following() && hold == FRESH && goodSink == (!sink || GoodPlan(plan))
      ensures failure.None? && !sink ==> room == b.Length - reserve
      ensures failure.None? <==> reserve <= b.Length && (sink ==> b.Length - reserve >= 1)
    {
      hasSink, goodSink := sink, !sink || GoodPlan(plan);
      this.plan := plan;
      hold := FRESH;
      packets := [];
      seqDepth, held := 0, 0;
      ids := new nat[MAX_DEPTH](_ => 0);
      failure := None;
      installed := false;
      buffer := b;
      cursor, end, offset := 0, 0, 0;
      room := 0;
      new;
      InitBuffer(b, reserve);
      room := end - offset;
    }

    /** Hand the buffer over. The sink has copied it, or has installed another. */
    method HandOver()
      requires Valid() && hasSink
      modifies this`buffer, this`cursor, this`end, this`offset, this`failure, this`installed, this`packets, this`plan
      ensures Valid() && HeadKept()
      ensures old(failure).None? && failure.None? ==> cursor == offset < end && Emitted() == old(Emitted())
      ensures old(failure).None? && failure.Some? ==> failure == Some(InvalidArgument) && !goodSink
      ensures old(failure).Some? ==> failure == old(failure)
      ensures packets == old(packets) + [Packet(old(buffer[..cursor]), old(offset))] && plan == old(if plan == [] then [] else plan[1..])
      ensures old(plan == [] || !plan[0].Installs?) ==> buffer == old(buffer) && cursor == offset == 0 && end == old(end)
      ensures old(plan != [] && plan[0].Installs?) && failure.None? ==> buffer.Length == end == old(plan)[0].len && offset == old(plan)[0].offset
    {
      hide Stripped;
      ghost var before := Emitted();
      StrippedOne(packets, Packet(buffer[..cursor], offset));
      assert buffer[..cursor][offset..] == buffer[offset..cursor];
      packets := packets + [Packet(buffer[..cursor], offset)];
      installed := false;
      if plan != [] {
        var h := plan[0];
        plan := plan[1..];
        if h.Installs? {
          var next := new byte[h.len](_ => 0);
          InitBuffer(next, h.offset);
        }
      }
      if !installed { cursor, offset := 0, 0; }
      assert failure.None? ==> buffer[offset..cursor] == [];
      assert failure.None? ==> Emitted() == before;
    }

    // -------------------------------------------------------------- bytes

    method PushByte(b: byte)
      requires Valid()
      modifies this`buffer, this`cursor, this`end, this`offset, this`failure, this`installed, this`packets, this`plan, buffer
      ensures Valid() && HeadKept()
      ensures Grew(old(failure), old(Emitted()), [b])
      ensures old(failure).Some? ==> Emitted() == old(Emitted()) && cursor == old(cursor) && end == old(end)
    {
      if failure.Some? { return; }
      if cursor == end {
        if !hasSink {
          Latch(BufferFull);
          return;
        }
        HandOver();
        if failure.Some? { return; }
      }
      StoreByte(b);
    }

    method StoreByte(b: byte)
      requires Valid() && cursor < end
      modifies this`cursor, buffer
      ensures Valid() && HeadKept() && Emitted() == old(Emitted()) + [b]
    {
      ghost var kept := buffer[offset..cursor];
      ghost var head := buffer[..offset];
      buffer[cursor] := b;
      assert buffer[..offset] == head;
      cursor := cursor + 1;
      assert buffer[offset..cursor] == kept + [b];
    }

    /** Is nothing more written? A stream whose output was cut has no room left at all. */
    ghost predicate Shut()
      reads this
    {
      failure == Some(BufferFull) && cursor == end
    }

    /** In one move where there is room, else byte by byte. */
    method PushBytes(data: seq<byte>) returns (ok: bool)
      requires Valid()
      modifies this`buffer, this`cursor, this`end, this`offset, this`failure, this`installed, this`packets, this`plan, buffer
      ensures Valid() && HeadKept()
      ensures Grew(old(failure), old(Emitted()), data)
      ensures old(Shut()) ==> Shut() && Emitted() == old(Emitted())
      ensures (old(failure).None? ==> ok == failure.None?) && (!ok ==> failure.Some?)
    {
      if end - cursor >= |data| {
        CopyIn(data);
        return true;
      }
      PushEach(data);
      ok := failure.None?;
    }

    /** `memcpy` to the cursor. */
    method CopyIn(data: seq<byte>)
      requires Valid() && end - cursor >= |data|
      modifies this`cursor, buffer
      ensures Valid() && HeadKept() && Emitted() == old(Emitted()) + data && cursor == old(cursor) + |data|
    {
      ghost var kept := buffer[offset..cursor];
      ghost var head := buffer[..offset];
      forall i | 0 <= i < |data| { buffer[cursor + i] := data[i]; }
      assert buffer[..offset] == head;
      cursor := cursor + |data|;
      assert buffer[offset..cursor] == kept + data;
    }

    method PushEach(data: seq<byte>)
      requires Valid() && data != []
      modifies this`buffer, this`cursor, this`end, this`offset, this`failure, this`installed, this`packets, this`plan, buffer
      ensures Valid() && HeadKept()
      ensures Grew(old(failure), old(Emitted()), data)
      ensures old(failure).Some? ==> Emitted() == old(Emitted()) && cursor == old(cursor) && end == old(end) && failure == old(failure)
    {
      ghost var before := Emitted();
      var i := 0;
      while i < |data|
        invariant i <= |data| && Valid() && HeadKept()
        invariant old(failure).None? ==> failure.None? && Emitted() == before + data[..i]
        invariant old(failure).Some? ==> i == 0 && failure == old(failure) && Emitted() == before && cursor == old(cursor) && end == old(end)
      {
        PushByte(data[i]);
        assert data[..i] + [data[i]] == data[..i + 1];
        if failure.Some? {
          assert before + data[..i + 1] + data[i + 1..] == before + data;
          return;
        }
        i := i + 1;
      }
      assert data[..|data|] == data;
    }

    // -------------------------------------------------------------- varints and headers

    /** A varint where ten bytes are writable: its scratch stays inside the buffer. */
    method PutPadded(value: u64)
      requires Valid() && end - cursor >= VARINT_MAX_BYTES
      modifies this`cursor, buffer
      ensures Valid() && HeadKept() && Emitted() == old(Emitted()) + Encode(value)
      ensures old(cursor) < cursor <= old(cursor) + VARINT_MAX_BYTES
    {
      hide Encode;
      ghost var (kept, front) := (buffer[offset..cursor], buffer[..cursor]);
      assert kept == front[offset..];
      var n := EncodeVarintPadded(buffer, cursor, value);
      assert buffer[..cursor] == front;
      assert buffer[..offset] == front[..offset];
      assert buffer[offset..cursor + n] == buffer[..cursor][offset..] + buffer[cursor..cursor + n];
      cursor := cursor + n;
    }

    method PutVarint(value: u64)
      requires Valid()
      modifies this`buffer, this`cursor, this`end, this`offset, this`failure, this`installed, this`packets, this`plan, buffer
      ensures Valid() && HeadKept()
      ensures Grew(old(failure), old(Emitted()), Encode(value))
      ensures old(Shut()) ==> Shut() && Emitted() == old(Emitted())
    {
      var tmp := EncodeVarint(value);
      var _ := PushBytes(tmp);
    }

    // -------------------------------------------------------------- headers held back

    ghost function Pending(): seq<nat>
      reads this, ids
      requires held <= ids.Length
    {
      ids[..held]
    }

    ghost predicate Fits(ns: seq<nat>)
    {
      forall k :: 0 <= k < |ns| ==> ns[k] <= ID_MAX
    }

    /** Write out every held header, outermost first. */
    method CommitPending() returns (ok: bool)
      requires Valid() && Fits(Pending())
      modifies this`buffer, this`cursor, this`end, this`offset, this`failure, this`installed, this`packets, this`plan, this`held, buffer
      ensures Valid() && HeadKept() && held == 0
      ensures Grew(old(failure), old(Emitted()), Starts(old(Pending())))
      ensures old(failure).None? ==> ok == failure.None?
      ensures old(Shut()) ==> Shut() && Emitted() == old(Emitted())
    {
      hide Encode, Starts;
      ghost var (before, run) := (Emitted(), Pending());
      var n, i := held, 0;
      NoStarts(before);
      assert run[..0] == [];
      ok := true;
      while i < n && ok
        invariant i <= n == held <= ids.Length && Valid() && HeadKept()
        invariant ids[..] == old(ids[..])
        invariant old(failure).None? && ok ==> failure.None? && Emitted() == before + Starts(run[..i])
        invariant !ok ==> old(failure).None? ==> failure.Some? && Grew(None, before, Starts(run))
        invariant old(failure).Some? ==> failure == old(failure)
        invariant old(Shut()) ==> Shut() && Emitted() == before
      {
        StartsAt(before, run, i);
        PutVarint(HeaderWord(ids[i], SequenceStart));
        ok := failure.None?;
        i := i + 1;
      }
      assert run[..n] == run;
      held := 0;
    }

    /** Content is about to be written, so the sequences it stands in exist. */
    method BeforeContent() returns (ok: bool)
      requires Valid() && Fits(Pending())
      modifies this`buffer, this`cursor, this`end, this`offset, this`failure, this`installed, this`packets, this`plan, this`held, buffer
      ensures Valid() && HeadKept() && held == 0
      ensures Grew(old(failure), old(Emitted()), Starts(old(Pending())))
      ensures old(failure).None? ==> ok == failure.None?
      ensures old(Shut()) ==> Shut() && Emitted() == old(Emitted())
    {
      if held > 0 {
        ok := CommitPending();
      } else {
        ok := true;
        assert Starts(Pending()) == [];
        assert Emitted() + [] == Emitted();
      }
    }

    // -------------------------------------------------------------- writers

    /** An argument was refused: nothing written, and the stream has its fault. */
    ghost predicate Condemned(fault: Option<Fault>, held0: nat, before: seq<byte>)
      reads this, buffer
      requires offset <= cursor <= buffer.Length
    {
      failure == (if fault.None? then Some(InvalidArgument) else fault) && held == held0 && Emitted() == before
    }

    /** Once the output is cut, what was still to be written does not matter. */
    lemma GrewCut(fault: Option<Fault>, before: seq<byte>, x: seq<byte>, y: seq<byte>)
      requires offset <= cursor <= buffer.Length && failure.Some? && Grew(fault, before, x)
      ensures Grew(fault, before, x + y)
    {
      Chain(before, x, y, []);
    }

    lemma GrewOn(fault: Option<Fault>, before: seq<byte>, x: seq<byte>, y: seq<byte>)
      requires offset <= cursor <= buffer.Length && Grew(fault, before + x, y)
      ensures Grew(fault, before, x + y)
    {
      Chain(before, x, y, []);
    }

    /** Two words, each at most ten bytes. */
    method PutTwo(a: u64, b: u64) returns (ok: bool)
      requires Valid()
      modifies this`buffer, this`cursor, this`end, this`offset, this`failure, this`installed, this`packets, this`plan, buffer
      ensures Valid() && HeadKept()
      ensures Grew(old(failure), old(Emitted()), Encode(a) + Encode(b))
      ensures old(Shut()) ==> Shut() && Emitted() == old(Emitted())
      ensures (old(failure).None? ==> ok == failure.None?) && (!ok ==> failure.Some?)
    {
      ghost var before := Emitted();
      if end - cursor >= 2 * VARINT_MAX_BYTES {
        PutPadded(a);
        PutPadded(b);
        ok := true;
        Chain(before, Encode(a), Encode(b), []);
      } else {
        var tmp := EncodeVarint(a);
        var more := EncodeVarint(b);
        ok := PushBytes(tmp + more);
      }
    }

    method WriteScalar(id: nat, w: Wire, value: u64) returns (ok: bool)
      requires Valid() && Fits(Pending())
      modifies this`buffer, this`cursor, this`end, this`offset, this`failure, this`installed, this`packets, this`plan, this`held, buffer
      ensures Valid() && HeadKept()
      ensures id > ID_MAX ==> Condemned(old(failure), old(held), old(Emitted()))
      ensures id <= ID_MAX ==> held == 0 && Grew(old(failure), old(Emitted()), Starts(old(Pending())) + (HeaderBytes(id, w) + Encode(value)))
      ensures ok == failure.None?
      ensures old(Shut()) ==> Shut() && Emitted() == old(Emitted())
    {
      hide Encode, Starts;
      if id > ID_MAX {
        Latch(InvalidArgument);
        return false;
      }
      ghost var (fault, before, starts) := (failure, Emitted(), Starts(Pending()));
      ok := BeforeContent();
      if !ok {
        if failure.Some? { GrewCut(fault, before, starts, HeaderBytes(id, w) + Encode(value)); }
        return;
      }
      var _ := PutTwo(HeaderWord(id, w), value);
      GrewOn(fault, before, starts, HeaderBytes(id, w) + Encode(value));
      ok := failure.None?;
    }

    /** Two words and a payload, where there is room for all of it. */
    method PutWhole(a: u64, b: u64, data: seq<byte>)
      requires Valid() && end - cursor >= 2 * VARINT_MAX_BYTES + |data|
      modifies this`cursor, buffer
      ensures Valid() && HeadKept() && Emitted() == old(Emitted()) + (Encode(a) + Encode(b) + data)
    {
      hide Encode;
      ghost var before := Emitted();
      PutPadded(a);
      PutPadded(b);
      CopyIn(data);
      Chain(before, Encode(a), Encode(b), data);
    }

    /** A fixlen field's two words and its payload. */
    method PutFixlen(a: u64, b: u64, data: seq<byte>)
      requires Valid()
      modifies this`buffer, this`cursor, this`end, this`offset, this`failure, this`installed, this`packets, this`plan, buffer
      ensures Valid() && HeadKept()
      ensures Grew(old(failure), old(Emitted()), Encode(a) + Encode(b) + data)
      ensures old(Shut()) ==> Shut() && Emitted() == old(Emitted())
    {
      hide Encode;
      ghost var (fault, before) := (failure, Emitted());
      var room := end - cursor;
      if room >= 2 * VARINT_MAX_BYTES && room - 2 * VARINT_MAX_BYTES >= |data| {
        PutWhole(a, b, data);
      } else {
        var tmp := EncodeVarint(a);
        var more := EncodeVarint(b);
        var ok := PushBytes(tmp + more);
        if !ok {
          GrewCut(fault, before, tmp + more, data);
          return;
        }
        ok := PushBytes(data);
        GrewOn(fault, before, tmp + more, data);
      }
    }

    /** A float field: two words and four or eight bytes, in one piece if need be. */
    method PutFloat(a: u64, b: u64, raw: seq<byte>)
      requires Valid()
      modifies this`buffer, this`cursor, this`end, this`offset, this`failure, this`installed, this`packets, this`plan, buffer
      ensures Valid() && HeadKept()
      ensures Grew(old(failure), old(Emitted()), Encode(a) + Encode(b) + raw)
      ensures old(Shut()) ==> Shut() && Emitted() == old(Emitted())
    {
      hide Encode;
      if end - cursor >= 2 * VARINT_MAX_BYTES + |raw| {
        PutWhole(a, b, raw);
      } else {
        var tmp := EncodeVarint(a);
        var more := EncodeVarint(b);
        var _ := PushBytes(tmp + more + raw);
      }
    }

    /** The three words of a fixlen array. */
    method PutThree(a: u64, b: u64, c: u64) returns (ok: bool)
      requires Valid()
      modifies this`buffer, this`cursor, this`end, this`offset, this`failure, this`installed, this`packets, this`plan, buffer
      ensures Valid() && HeadKept()
      ensures Grew(old(failure), old(Emitted()), Encode(a) + Encode(b) + Encode(c))
      ensures old(Shut()) ==> Shut() && Emitted() == old(Emitted())
      ensures (old(failure).None? ==> ok == failure.None?) && (!ok ==> failure.Some?)
    {
      hide Encode;
      ghost var before := Emitted();
      if end - cursor >= 3 * VARINT_MAX_BYTES {
        PutPadded(a);
        PutPadded(b);
        PutPadded(c);
        ok := true;
        Chain(before, Encode(a), Encode(b), Encode(c));
      } else {
        var tmp := EncodeVarint(a);
        var more := EncodeVarint(b);
        var last := EncodeVarint(c);
        ok := PushBytes(tmp + more + last);
      }
    }

    method WriteFixlen(id: nat, fix: Fix, data: seq<byte>) returns (ok: bool)
      requires Valid() && Fits(Pending())
      modifies this`buffer, this`cursor, this`end, this`offset, this`failure, this`installed, this`packets, this`plan, this`held, buffer
      ensures Valid() && HeadKept()
      ensures id > ID_MAX || |data| > FIXLEN_MAX ==> Condemned(old(failure), old(held), old(Emitted()))
      ensures !(id > ID_MAX || |data| > FIXLEN_MAX) ==> held == 0 && Grew(old(failure), old(Emitted()), Starts(old(Pending())) + (HeaderBytes(id, Fixlen) + Encode(FixlenWord(|data|, fix)) + data))
      ensures ok == failure.None?
      ensures old(Shut()) ==> Shut() && Emitted() == old(Emitted())
    {
      hide Encode, Starts;
      if id > ID_MAX || |data| > FIXLEN_MAX {
        Latch(InvalidArgument);
        return false;
      }
      ghost var (fault, before, starts) := (failure, Emitted(), Starts(Pending()));
      ghost var bytes := (HeaderBytes(id, Fixlen) + Encode(FixlenWord(|data|, fix)) + data);
      ok := BeforeContent();
      if !ok {
        if failure.Some? { GrewCut(fault, before, starts, bytes); }
        return;
      }
      PutFixlen(HeaderWord(id, Fixlen), FixlenWord(|data|, fix), data);
      GrewOn(fault, before, starts, bytes);
      ok := failure.None?;
    }

    method WriteFloat(id: nat, fix: Fix, raw: seq<byte>) returns (ok: bool)
      requires Valid() && Fits(Pending()) && |raw| == FloatWidth(fix)
      modifies this`buffer, this`cursor, this`end, this`offset, this`failure, this`installed, this`packets, this`plan, this`held, buffer
      ensures Valid() && HeadKept()
      ensures id > ID_MAX ==> Condemned(old(failure), old(held), old(Emitted()))
      ensures !(id > ID_MAX) ==> held == 0 && Grew(old(failure), old(Emitted()), Starts(old(Pending())) + (HeaderBytes(id, Fixlen) + Encode(FixlenWord(|raw|, fix)) + raw))
      ensures ok == failure.None?
      ensures old(Shut()) ==> Shut() && Emitted() == old(Emitted())
    {
      hide Encode, Starts;
      if id > ID_MAX {
        Latch(InvalidArgument);
        return false;
      }
      ghost var (fault, before, starts) := (failure, Emitted(), Starts(Pending()));
      ghost var bytes := (HeaderBytes(id, Fixlen) + Encode(FixlenWord(|raw|, fix)) + raw);
      ok := BeforeContent();
      if !ok {
        if failure.Some? { GrewCut(fault, before, starts, bytes); }
        return;
      }
      PutFloat(HeaderWord(id, Fixlen), FixlenWord(|raw|, fix), raw);
      GrewOn(fault, before, starts, bytes);
      ok := failure.None?;
    }

    /** Array elements: a run of them without a room check where ten bytes are left for each. */
    method PutElements(words: seq<u64>) returns (ok: bool)
      requires Valid()
      modifies this`buffer, this`cursor, this`end, this`offset, this`failure, this`installed, this`packets, this`plan, buffer
      ensures Valid() && HeadKept()
      ensures Grew(old(failure), old(Emitted()), Varints(words))
      ensures old(Shut()) ==> Shut() && Emitted() == old(Emitted())
      ensures old(failure).None? ==> ok == failure.None?
    {
      hide Encode, Varints;
      ghost var (fault, before) := (failure, Emitted());
      var i := 0;
      NoVarints(before);
      while i < |words|
        invariant i <= |words| && Valid() && HeadKept()
        invariant fault.None? ==> failure.None? && Emitted() == before + Varints(words[..i])
        invariant fault.Some? ==> failure == fault
        invariant old(Shut()) ==> Shut() && Emitted() == before
      {
        var fit := (end - cursor) / VARINT_MAX_BYTES;
        if fit == 0 {
          VarintsAt(before, words, i);
          var tmp := EncodeVarint(words[i]);
          ok := PushBytes(tmp);
          if !ok {
            if fault.None? { CutMore(before + Varints(words[..i + 1]), Varints(words[i + 1..])); }
            return;
          }
          i := i + 1;
        } else {
          if fit > |words| - i { fit := |words| - i; }
          PutRun(before, words, i, fit);
          i := i + fit;
        }
      }
      assert words[..|words|] == words;
      ok := true;
    }

    lemma CutMore(want: seq<byte>, more: seq<byte>)
      requires offset <= cursor <= buffer.Length && (failure == Some(BufferFull) ==> CutOff(want))
      ensures failure == Some(BufferFull) ==> CutOff(want + more)
    {
    }

    /** `fit` elements, with ten writable bytes for each of them. */
    method PutRun(ghost before: seq<byte>, words: seq<u64>, start: nat, fit: nat)
      requires Valid() && start + fit <= |words| && end - cursor >= fit * VARINT_MAX_BYTES && fit > 0
      modifies this`cursor, buffer
      ensures Valid() && HeadKept()
      ensures old(Emitted()) == before + Varints(words[..start]) ==> Emitted() == before + Varints(words[..start + fit])
    {
      hide Encode, Varints;
      var i, k := start, 0;
      while k < fit
        invariant k <= fit && i == start + k && Valid() && HeadKept() && end - cursor >= (fit - k) * 10
        invariant old(Emitted()) == before + Varints(words[..start]) ==> Emitted() == before + Varints(words[..i])
      {
        VarintsAt(before, words, i);
        PutPadded(words[i]);
        i, k := i + 1, k + 1;
      }
    }

    /** The words and the elements of an integer array. */
    method PutIntArray(head: u64, words: seq<u64>)
      requires Valid() && |words| < U64_LIMIT
      modifies this`buffer, this`cursor, this`end, this`offset, this`failure, this`installed, this`packets, this`plan, buffer
      ensures Valid() && HeadKept()
      ensures Grew(old(failure), old(Emitted()), Encode(head) + Encode(|words|) + Varints(words))
      ensures old(Shut()) ==> Shut() && Emitted() == old(Emitted())
    {
      hide Encode, Varints;
      ghost var (fault, before) := (failure, Emitted());
      var ok := PutTwo(head, |words|);
      if !ok {
        GrewCut(fault, before, Encode(head) + Encode(|words|), Varints(words));
        return;
      }
      ok := PutElements(words);
      GrewOn(fault, before, Encode(head) + Encode(|words|), Varints(words));
    }

    /** The words and the elements of a fixlen array: its element word is there even if it is empty. */
    method PutFloatArray(head: u64, word: u64, raws: seq<seq<byte>>)
      requires Valid() && |raws| < U64_LIMIT
      modifies this`buffer, this`cursor, this`end, this`offset, this`failure, this`installed, this`packets, this`plan, buffer
      ensures Valid() && HeadKept()
      ensures Grew(old(failure), old(Emitted()), Encode(head) + Encode(|raws|) + Encode(word) + Joined(raws))
      ensures old(Shut()) ==> Shut() && Emitted() == old(Emitted())
    {
      hide Encode;
      ghost var (fault, before) := (failure, Emitted());
      ghost var words := Encode(head) + Encode(|raws|) + Encode(word);
      var ok := PutThree(head, |raws|, word);
      if !ok {
        GrewCut(fault, before, words, Joined(raws));
        return;
      }
      if |raws| == 0 {
        assert words + Joined(raws) == words;
        return;
      }
      hide Joined;
      ok := PushBytes(Joined(raws));
      GrewOn(fault, before, words, Joined(raws));
    }

    method WriteIntArray(id: nat, w: Wire, words: seq<u64>) returns (ok: bool)
      requires Valid() && Fits(Pending())
      modifies this`buffer, this`cursor, this`end, this`offset, this`failure, this`installed, this`packets, this`plan, this`held, buffer
      ensures Valid() && HeadKept()
      ensures id > ID_MAX || |words| > ARRAY_MAX ==> Condemned(old(failure), old(held), old(Emitted()))
      ensures !(id > ID_MAX || |words| > ARRAY_MAX) ==> held == 0 && Grew(old(failure), old(Emitted()), Starts(old(Pending())) + (HeaderBytes(id, w) + Encode(|words|) + Varints(words)))
      ensures ok == failure.None?
      ensures old(Shut()) ==> Shut() && Emitted() == old(Emitted())
    {
      hide Encode, Starts, Varints, Joined;
      if id > ID_MAX || |words| > ARRAY_MAX {
        Latch(InvalidArgument);
        return false;
      }
      ghost var (fault, before, starts) := (failure, Emitted(), Starts(Pending()));
      ghost var bytes := (HeaderBytes(id, w) + Encode(|words|) + Varints(words));
      ok := BeforeContent();
      if !ok {
        if failure.Some? { GrewCut(fault, before, starts, bytes); }
        return;
      }
      PutIntArray(HeaderWord(id, w), words);
      GrewOn(fault, before, starts, bytes);
      ok := failure.None?;
    }

    method WriteFloatArray(id: nat, fix: Fix, raws: seq<seq<byte>>) returns (ok: bool)
      requires Valid() && Fits(Pending())
      modifies this`buffer, this`cursor, this`end, this`offset, this`failure, this`installed, this`packets, this`plan, this`held, buffer
      ensures Valid() && HeadKept()
      ensures id > ID_MAX || |raws| > ARRAY_MAX ==> Condemned(old(failure), old(held), old(Emitted()))
      ensures !(id > ID_MAX || |raws| > ARRAY_MAX) ==> held == 0 && Grew(old(failure), old(Emitted()), Starts(old(Pending())) + (HeaderBytes(id, ArrayFixlen) + Encode(|raws|) + Encode(FixlenWord(FloatWidth(fix), fix)) + Joined(raws)))
      ensures ok == failure.None?
      ensures old(Shut()) ==> Shut() && Emitted() == old(Emitted())
    {
      hide Encode, Starts, Varints, Joined;
      if id > ID_MAX || |raws| > ARRAY_MAX {
        Latch(InvalidArgument);
        return false;
      }
      ghost var (fault, before, starts) := (failure, Emitted(), Starts(Pending()));
      ghost var bytes := (HeaderBytes(id, ArrayFixlen) + Encode(|raws|) + Encode(FixlenWord(FloatWidth(fix), fix)) + Joined(raws));
      ok := BeforeContent();
      if !ok {
        if failure.Some? { GrewCut(fault, before, starts, bytes); }
        return;
      }
      PutFloatArray(HeaderWord(id, ArrayFixlen), FixlenWord(FloatWidth(fix), fix), raws);
      GrewOn(fault, before, starts, bytes);
      ok := failure.None?;
    }

    /** Refuse an argument. */
    method Refuse()
      requires Valid()
      modifies this`failure
      ensures Valid() && Condemned(old(failure), old(held), old(Emitted())) && failure.Some?
      ensures old(Shut()) ==> Shut()
    {
      Latch(InvalidArgument);
    }

    // -------------------------------------------------------------- the calls

    /** The stream follows the hold-back machine: it has written what the machine has, or was cut
        short in it. */
    ghost predicate Following()
      reads this, buffer, ids
    {
      && Valid() && Fits(Pending()) && held <= seqDepth
      && (failure.None? ==> Emitted() == hold.out)
      && (failure == Some(BufferFull) ==> CutOff(hold.out))
      && (failure != Some(InvalidArgument) ==> Pending() == hold.pending && seqDepth == hold.depth)
    }

    /** What a call the encoder takes does: one step of the machine. */
    ghost predicate Followed(fault: Option<Fault>)
      reads this, buffer, ids
    {
      && Following() && (fault.Some? ==> failure == fault)
      && (failure == Some(InvalidArgument) ==> fault == failure || (hasSink && !goodSink))
    }

    /** Content was written after the machine's: it has grown by it, or was cut short in it. */
    lemma Extends(fault: Option<Fault>, before: seq<byte>, h: Hold, data: seq<byte>)
      requires offset <= cursor <= buffer.Length && Grew(fault, before, data)
      requires (fault.None? ==> before == h.out) && (fault == Some(BufferFull) ==> CutOff(h.out))
      ensures fault.None? && failure.None? ==> Emitted() == h.out + data
      ensures failure == Some(BufferFull) ==> CutOff(h.out + data)
      ensures failure == Some(InvalidArgument) ==> fault == failure || (hasSink && !goodSink)
      ensures fault.Some? ==> failure == fault
    {
      if failure == Some(BufferFull) && fault.Some? { CutMore(h.out, data); }
    }

    /** One field, by the writer of its type. */
    method WriteField(f: Field) returns (ok: bool)
      requires Valid() && Fits(Pending()) && WellTyped(f)
      modifies this`buffer, this`cursor, this`end, this`offset, this`failure, this`installed, this`packets, this`plan, this`held, buffer
      ensures Valid() && HeadKept()
      ensures !Accepts(f) ==> Condemned(old(failure), old(held), old(Emitted()))
      ensures Accepts(f) ==> held == 0 && Grew(old(failure), old(Emitted()), Starts(old(Pending())) + FieldBytes(f))
      ensures ok == failure.None?
      ensures old(Shut()) ==> Shut() && Emitted() == old(Emitted())
    {
      hide Encode, Starts, Varints, Joined, Utf8.Utf8, Grew, HeaderBytes, Emitted, HeaderWord, FixlenWord;
      if f.TextField? && f.isString {
        var valid := Utf8Valid(f.text);
        if !valid {
          Refuse();
          return false;
        }
      }
      match f
      case UnsignedField(id, u) => ok := WriteScalar(id, Unsigned, u);
      case SignedField(id, i) => ok := WriteScalar(id, Signed, ZigZagEncode(i));
      case FloatField(id, wide, raw) => ok := WriteFloat(id, FloatFix(wide), raw);
      case TextField(id, isString, text) => ok := WriteFixlen(id, if isString then String else Blob, text);
      case UnsignedArray(id, us) => ok := WriteIntArray(id, ArrayUnsigned, us);
      case SignedArray(id, ss) => ok := WriteIntArray(id, ArraySigned, ZigZagWords(ss));
      case FloatArray(id, wide, raws) => ok := WriteFloatArray(id, FloatFix(wide), raws);
    }

    method Write(f: Field) returns (ok: bool)
      requires Following() && WellTyped(f)
      modifies this, buffer
      ensures HeadKept() && room == old(room)
      ensures ok == failure.None?
      ensures Accepts(f) ==> hold == Do(old(hold), Call.Write(f)) && Followed(old(failure))
      ensures !Accepts(f) ==> hold == old(hold) && Following() && failure.Some? && (old(failure).None? ==> failure == Some(InvalidArgument))
    {
      hide FieldBytes, Starts, Accepts;
      ghost var (h, before, fault, pending) := (hold, Emitted(), failure, Pending());
      ok := WriteField(f);
      if Accepts(f) {
        if fault != Some(InvalidArgument) {
          Extends(fault, before, h, Starts(pending) + FieldBytes(f));
          Chain(h.out, Starts(pending), FieldBytes(f), []);
        }
        hold := Do(h, Call.Write(f));
      }
    }

    /** Open a sequence: its header is held back until something is in it. */
    method SequenceBeginLazy(id: nat) returns (ok: bool)
      requires Following()
      modifies this`failure, this`held, this`seqDepth, this`hold, ids
      ensures (id > 0x7fff_ffff || old(hold.depth) >= 255) && old(failure).None? ==> !ok && failure == Some(InvalidArgument)
      ensures Following() && (!ok ==> hold == old(hold) && failure.Some?)
      ensures ok ==> hold == Do(old(hold), Begin(id)) && failure == old(failure)
      ensures id <= 0x7fff_ffff && old(failure) != Some(InvalidArgument) && old(hold.depth) < 255 ==> ok
    {
      if seqDepth >= MAX_DEPTH {
        Latch(InvalidArgument);
        return false;
      }
      if id > ID_MAX {
        Latch(InvalidArgument);
        return false;
      }
      assert held < MAX_DEPTH;
      ghost var run := Pending();
      ids[held] := id;
      held := held + 1;
      assert Pending() == run + [id];
      seqDepth := seqDepth + 1;
      hold := Do(hold, Begin(id));
      ok := true;
    }

    /** Close a sequence: if its header is still held back, it never existed. */
    method SequenceEnd() returns (ok: bool)
      requires Following()
      modifies this, buffer
      ensures HeadKept() && room == old(room)
      ensures hold == Do(old(hold), End) && Followed(old(failure))
    {
      if held > 0 {
        PopHeld();
        ok := true;
      } else {
        ok := PutFrameEnd();
      }
    }

    /** Drop the innermost held header: its sequence got no content. */
    method PopHeld()
      requires Following() && held > 0
      modifies this`held, this`seqDepth, this`hold
      ensures hold == Do(old(hold), End) && Followed(old(failure))
    {
      ghost var run := Pending();
      seqDepth := seqDepth - 1;
      held := held - 1;
      assert Pending() == run[..|run| - 1];
      hold := Do(hold, End);
    }

    method PutFrameEnd() returns (ok: bool)
      requires Following() && held == 0
      modifies this, buffer
      ensures HeadKept() && room == old(room)
      ensures hold == Do(old(hold), End) && Followed(old(failure))
    {
      ghost var (h, before, fault) := (hold, Emitted(), failure);
      PutEnd();
      if fault != Some(InvalidArgument) { Extends(fault, before, h, END_MARK); }
      hide Grew, Emitted, CutOff;
      seqDepth := if seqDepth > 0 then seqDepth - 1 else 0;
      hold := Do(h, End);
      ok := failure.None?;
    }

    /** The held headers, if any, and an end marker. */
    method PutKeptEnd()
      requires Valid() && Fits(Pending())
      modifies this`buffer, this`cursor, this`end, this`offset, this`failure, this`installed, this`packets, this`plan, this`held, buffer
      ensures Valid() && HeadKept() && held == 0
      ensures Grew(old(failure), old(Emitted()), Starts(old(Pending())) + END_MARK)
      ensures old(Shut()) ==> Shut() && Emitted() == old(Emitted())
    {
      hide Starts;
      ghost var (before, fault, starts) := (Emitted(), failure, Starts(Pending()));
      var ok := BeforeContent();
      if ok {
        PutEnd();
        GrewOn(fault, before, starts, END_MARK);
      } else if failure.Some? {
        GrewCut(fault, before, starts, END_MARK);
      }
    }

    method PutEnd()
      requires Valid()
      modifies this`buffer, this`cursor, this`end, this`offset, this`failure, this`installed, this`packets, this`plan, buffer
      ensures Valid() && HeadKept()
      ensures Grew(old(failure), old(Emitted()), END_MARK)
      ensures old(Shut()) ==> Shut() && Emitted() == old(Emitted())
    {
      EndMark();
      PutVarint(HeaderWord(0, Wire.SequenceEnd));
    }

    /** Close a sequence that is there even if nothing is in it. */
    method SequenceEndKeep() returns (ok: bool)
      requires Following()
      modifies this, buffer
      ensures HeadKept() && room == old(room)
      ensures hold == Do(old(hold), EndKeep) && Followed(old(failure))
      ensures ok == failure.None?
    {
      hide Starts;
      ghost var (h, before, fault, starts) := (hold, Emitted(), failure, Starts(Pending()));
      PutKeptEnd();
      if fault != Some(InvalidArgument) {
        Extends(fault, before, h, starts + END_MARK);
        Chain(h.out, starts, END_MARK, []);
      }
      hide Grew, Emitted, CutOff;
      seqDepth := if seqDepth > 0 then seqDepth - 1 else 0;
      hold := Do(h, EndKeep);
      ok := failure.None?;
    }

    /** Drain what is in the buffer. */
    method Flush() returns (used: nat)
      requires Following()
      modifies this`buffer, this`cursor, this`end, this`offset, this`failure, this`installed, this`packets, this`plan
      ensures HeadKept() && Followed(old(failure))
      ensures used == old(cursor)
      ensures hasSink && old(failure).None? && failure.None? ==> Stripped(packets) == hold.out
      ensures !hasSink ==> failure == old(failure) && Emitted() == old(Emitted())
    {
      used := cursor;
      if hasSink && used > offset { HandOver(); }
      if hasSink && failure.None? { assert buffer[offset..cursor] == []; }
    }

    method Perform(call: Call)
      requires Following() && Admissible([call], hold.depth) && failure != Some(InvalidArgument)
      modifies this, buffer, ids
      ensures HeadKept() && room == old(room)
      ensures hold == Do(old(hold), call) && Followed(old(failure))
    {
      match call
      case Write(f) => var _ := Write(f);
      case Begin(id) => var _ := SequenceBeginLazy(id);
      case End => var _ := SequenceEnd();
      case EndKeep => var _ := SequenceEndKeep();
    }

    /** A whole run of calls, and a last flush. Through any sink whose buffers have a usable byte it
        delivers what the hold-back machine writes, whatever the buffers' sizes; without a sink it
        leaves the first bytes of that, as many as there is room for, and is good exactly if that
        is all of them. */
    method PerformAll(calls: seq<Call>)
      requires Following() && hold == FRESH && failure.None? && Admissible(calls, 0) && goodSink
      modifies this, buffer, ids
      ensures Following() && hold == DoAll(FRESH, calls) && room == old(room) && HeadKept()
      ensures hasSink ==> failure.None? && Stripped(packets) == hold.out
      ensures !hasSink ==>
        && (failure.None? <==> |hold.out| <= room)
        && Emitted() == hold.out[..if |hold.out| <= room then |hold.out| else room]
    {
      hide Following, Followed, Do;
      var i := 0;
      assert calls[0..] == calls;
      while i < |calls|
        invariant i <= |calls| && HeadKept() && room == old(room)
        invariant Following() && Admissible(calls[i..], hold.depth) && failure != Some(InvalidArgument)
        invariant DoAll(hold, calls[i..]) == DoAll(FRESH, calls)
      {
        assert calls[i..][0] == calls[i] && calls[i..][1..] == calls[i + 1..];
        AdmissibleHead(calls[i..], hold);
        ghost var fault := failure;
        Perform(calls[i]);
        FollowedFacts(fault);
        i := i + 1;
      }
      assert calls[i..] == [];
      ghost var fault := failure;
      FollowedNow();
      FollowedFacts(fault);
      var _ := Flush();
      FollowedFacts(fault);
      Ends();
    }

    lemma FollowedNow()
      requires Following()
      ensures Followed(failure)
    {
    }

    lemma FollowedFacts(fault: Option<Fault>)
      requires Followed(fault)
      ensures Following() && (failure == Some(InvalidArgument) ==> fault == failure || (hasSink && !goodSink))
      ensures fault.Some? ==> failure == fault
      ensures failure == Some(BufferFull) ==> !hasSink
      ensures failure.None? || failure == Some(BufferFull) || failure == Some(InvalidArgument)
    {
      if failure.Some? { assert failure.value == BufferFull || failure.value == InvalidArgument; }
    }

    /** Where a stream without a sink stands when the calls are over. */
    lemma Ends()
      requires Following() && failure != Some(InvalidArgument)
      ensures offset <= cursor <= buffer.Length
      ensures !hasSink ==>
        && (failure.None? <==> |hold.out| <= room)
        && Emitted() == hold.out[..if |hold.out| <= room then |hold.out| else room]
    {
      if !hasSink {
        assert Stripped(packets) == [];
        var e := Emitted();
        assert |e| == cursor - offset <= room;
        match failure
        case None => assert hold.out[..|hold.out|] == hold.out;
        case Some(fault) =>
          assert fault == BufferFull;
          assert e == hold.out[..|e|];
      }
    }
  }

  lemma AdmissibleHead(calls: seq<Call>, h: Hold)
    requires calls != [] && Admissible(calls, h.depth)
    ensures Admissible([calls[0]], h.depth) && Admissible(calls[1..], Do(h, calls[0]).depth)
  {
    assert [calls[0]][1..] == [];
  }

  /** What a stream delivers, through any sink or into any buffer, is what an encoder that looks
      ahead writes of the tree the calls describe. */
  lemma CallsWriteTree(calls: seq<Call>)
    requires Balanced(calls)
    ensures DoAll(FRESH, calls).out == TreeBytes(TreeOf(calls))
  {
    BalancedRun(calls);
  }
}
