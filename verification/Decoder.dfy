/** The resumable decoder: chunks of any size, a fixed carry for the one item a chunk boundary
    can cut, and a path of ids to find the way back into the level where the bytes ran out. */
module Decoder {
  import opened Varint
  import opened VarintReaders
  import opened WireFormat
  import opened Handlers
  import opened Destination
  import opened Utf8
  import opened Machine
  import opened Progress
  import opened Cursor
  import opened Levels
  import opened TopLevel
  import opened Verdicts

  const CARRY_CAP: nat := 3 * VARINT_MAX_BYTES

  /** How a level is being entered. */
  datatype Entry = Fresh | Descend | Resume

  /** What a level finds at its next field. */
  datatype Found = Ready | SkipElem | Stop

  lemma WindowDecode(s: seq<byte>, p: nat, end: nat)
    requires p + VARINT_MAX_BYTES <= end <= |s|
    ensures Decode(s[p..end]) == Decode(s[p..]) && !Decode(s[p..end]).Cut?
  {
    if Decode(s[p..end]).Cut? { CutIsShort(s[p..end]); }
    assert s[p..] == s[p..end] + s[end..];
    DecodeStable(s[p..end], s[end..]);
  }

  /** The only place a header word is taken apart. */
  method ParseFieldTag(win: seq<byte>, p: nat, end: nat) returns (t: Tag)
    requires p <= end <= |win|
    ensures t == ParseTag(win[p..end])
  {
    var x, q := GetVarint(win, p, end);
    match x
    case Cut => return CutTag;
    case Overlong => return BadTag;
    case Got(v, n) =>
      if v / 8 > ID_MAX { return BadTag; }
      return TagIs(v / 8, WireOf(v % 8), n);
  }

  /** The words between a header and its payload. */
  method ParseFieldMeta(w: Wire, win: seq<byte>, p: nat, end: nat) returns (x: Meta)
    requires p <= end <= |win|
    ensures x == ParseMeta(w, win[p..end])
  {
    hide Decode, ParseCount;
    match w {
      case Fixlen =>
        var y, q := GetVarint(win, p, end);
        match y {
          case Cut => return CutMeta;
          case Overlong => return BadMeta;
          case Got(v, n) =>
            if !FixlenWordValid(v) { return BadMeta; }
            return MetaIs(FixOf(v % 8).value, v / 8, 0, n);
        }
      case ArrayUnsigned => x := ParseArrayCount(win, p, end);
      case ArraySigned => x := ParseArrayCount(win, p, end);
      case ArrayFixlen =>
        x := ParseArrayCount(win, p, end);
        if !x.MetaIs? { return; }
        Slices(win, p, end, x.size);
        var y, q := GetVarint(win, p + x.size, end);
        match y {
          case Cut => return CutMeta;
          case Overlong => return BadMeta;
          case Got(v, k) =>
            if !ArrayFixlenWordValid(v) { return BadMeta; }
            return MetaIs(FixOf(v % 8).value, v / 8, x.count, x.size + k);
        }
      case _ => return MetaIs(Fp32, 0, 0, 0);
    }
  }

  method ParseArrayCount(win: seq<byte>, p: nat, end: nat) returns (x: Meta)
    requires p <= end <= |win|
    ensures x == ParseCount(win[p..end])
  {
    var y, q := GetVarint(win, p, end);
    match y
    case Cut => return CutMeta;
    case Overlong => return BadMeta;
    case Got(v, n) =>
      if v > ARRAY_MAX { return BadMeta; }
      return MetaIs(Fp32, 0, v, n);
  }

  /** A field's header and metadata, under the index gate of its level: the bound is applied only
      to a header that carries the declared element's tag, for fixlen elements once that is known. */
  method ParseFieldHeader(g: Gate, win: seq<byte>, p: nat, end: nat) returns (r: HeaderRead)
    requires p <= end <= |win|
    ensures r == ReadHeader(g, win[p..end])
  {
    hide ParseTag, ParseMeta;
    var tag := ParseFieldTag(win, p, end);
    match tag
    case CutTag => return CutHeader;
    case BadTag => return BadHeader(Invalid);
    case TagIs(id, w, n) =>
      var skipElem, boundPending := false, false;
      if g.bound >= 0 && g.wire.Some? && w != SequenceEnd && id >= g.bound {
        if w != g.wire.value { skipElem := true; }
        else if w != Fixlen { return BadHeader(IndexTier(g, id)); }
        else { boundPending := true; }
      }
      if w == SequenceEnd { return LevelEnd(n); }
      Slices(win, p, end, n);
      var meta := ParseFieldMeta(w, win, p + n, end);
      match meta
      case CutMeta => return CutHeader;
      case BadMeta => return BadHeader(Invalid);
      case MetaIs(fix, len, count, k) =>
        if boundPending {
          if g.fix.Some? && g.fix.value != fix { skipElem := true; }
          else { return BadHeader(IndexTier(g, id)); }
        }
        return FieldAt(Header(id, w, fix, len, count), n + k, skipElem);
  }

  class IStream {
    const cfg: Config
    const carry: array<byte>       // the start of the one item the last chunk cut
    var carryLen: nat
    const pathId: array<nat>       // the sequence entered at each open level
    const pathSkip: array<bool>    // and whether nobody asked for it
    var f: Fields
    var terminal: Option<Refusal>

    ghost var m: State             // where the machine stands
    ghost var goal: Outcome        // where its run over this window ends
    ghost var fed: seq<byte>       // everything fed since the message began

    ghost function View(): Look
      reads this, pathId, pathSkip
    {
      Look(m, goal, f, pathId[..], pathSkip[..])
    }

    // -------------------------------------------------------------- reading single values

    method ReadInteger(ghost path: seq<Frame>, key: Path, r: Read)
      requires Reading(cfg, View(), path, r) && key == Ids(path) + [f.hdr.id]
      requires r.ReadUnsigned? || r.ReadSigned? || r.ReadBool?
      modifies this`f, this`m
      ensures ReadDone(cfg, old(View()), View(), path, old(f.hdr.id))
    {
      hide Run, Good, AnswerTo, LevelAt, Started, Decode, IntValue, Toll, Ids, Reading, ReadDone, Past;
      IntegerDone(cfg, View(), path, r, 0);
      var x, q := GetVarint(f.win, f.p, f.end);
      IntegerDone(cfg, View(), path, r, q);
      match x
      case Cut => f := f.(incomplete := true);
      case Overlong => f := f.(p := q, refusal := Some(Invalid));
      case Got(raw, n) =>
        var d := f.dest[key := Scalar(IntValue(ElemOf(r), raw))];
        m := Past(m, n, d);
        f := f.(p := q, dest := d, consumed := true);
    }

    method ReadFloatValue(ghost path: seq<Frame>, key: Path, fix: Fix)
      requires Reading(cfg, View(), path, ReadFloat(fix)) && key == Ids(path) + [f.hdr.id]
      modifies this`f, this`m
      ensures ReadDone(cfg, old(View()), View(), path, old(f.hdr.id))
    {
      hide Run, Good, AnswerTo, LevelAt, Started, Decode, IntValue, Toll, Ids, Reading, ReadDone, Past;
      FloatDone(cfg, View(), path, fix);
      var w := FloatWidth(fix);
      if f.end - f.p < w {
        f := f.(incomplete := true);
      } else {
        var d := f.dest[key := Scalar(Bits(f.win[f.p..f.p + w]))];
        m := Past(m, w, d);
        f := f.(p := f.p + w, dest := d, consumed := true);
      }
    }

    // -------------------------------------------------------------- reading texts and raw buffers

    /** A text into its fixed room: all of it if the window holds it, else the piece that has come. */
    method ReadPayload(ghost path: seq<Frame>, key: Path, r: Read)
      requires Reading(cfg, View(), path, r) && r.ReadText? && key == Ids(path) + [f.hdr.id]
      modifies this`f, this`m
      ensures ReadDone(cfg, old(View()), View(), path, old(f.hdr.id))
    {
      hide Run, Good, AnswerTo, LevelAt, Started, Toll, Ids, Reading, ReadDone, Past, TextTaken, Advance;
      ReadingFacts(cfg, View(), path, r);
      var avail := f.end - f.p;
      if f.pendDone == 0 && avail >= f.hdr.len {
        var piece := f.win[f.p..f.p + f.hdr.len];
        if r.isString {
          var ok := Utf8Valid(piece);
          if !ok {
            ghost var w := View().(f := f.(refusal := Some(Invalid)));
            if |piece| > 0 { TextBad(cfg, View(), w, path, r, f.hdr.len); }
            f := f.(refusal := Some(Invalid));
            return;
          }
        }
        var d := TextTaken(f.dest, key, r.room, 0, piece, f.hdr.len);
        if f.hdr.len == 0 {
          assert piece == [];
          TextEmpty(cfg, View(), path, r);
          f := f.(dest := d, consumed := true, pendDone := 0, utf8 := ACCEPT);
        } else {
          TextOk(cfg, View(), path, r, f.hdr.len);
          m := Past(m, f.hdr.len, d);
          f := f.(p := f.p + f.hdr.len, dest := d, consumed := true, pendDone := 0, utf8 := ACCEPT);
        }
      } else {
        ReadPayloadPiece(path, key, r, avail);
      }
    }

    method ReadPayloadPiece(ghost path: seq<Frame>, key: Path, r: Read, avail: nat)
      requires Reading(cfg, View(), path, r) && r.ReadText? && key == Ids(path) + [f.hdr.id]
      requires avail == f.end - f.p && (f.pendDone > 0 || avail < f.hdr.len)
      modifies this`f, this`m
      ensures ReadDone(cfg, old(View()), View(), path, old(f.hdr.id))
    {
      hide Run, Good, AnswerTo, LevelAt, Started, Toll, Ids, Reading, ReadDone, Past, Amid, TextTaken, TextCopied, Advance;
      ReadingFacts(cfg, View(), path, r);
      var (done, len) := (f.pendDone, f.hdr.len);
      var take := if avail <= len - done then avail else len - done;
      PieceDone(cfg, View(), path, r, take);
      var piece := f.win[f.p..f.p + take];
      var q := f.utf8;
      if r.isString { q := AdvanceState(f.utf8, piece); }
      var d := TextCopied(f.dest, key, r.room, done, piece);
      if done + take < len {
        m := Amid(m, take, take, d, q);
        f := f.(p := f.p + take, dest := d, incomplete := true, pendDone := done + take, utf8 := q);
      } else if r.isString && q != ACCEPT {
        f := f.(p := f.p + take, dest := d, refusal := Some(Invalid), utf8 := q);
      } else {
        d := TextTaken(f.dest, key, r.room, done, piece, len);
        m := Past(m, take, d);
        f := f.(p := f.p + take, dest := d, consumed := true, pendDone := 0, utf8 := ACCEPT);
      }
    }

    /** A blob into a raw buffer: what fits is copied, the rest is consumed all the same. */
    method ReadRawBytes(ghost path: seq<Frame>, key: Path, room: nat)
      requires Reading(cfg, View(), path, ReadRaw(room)) && key == Ids(path) + [f.hdr.id]
      modifies this`f, this`m
      ensures ReadDone(cfg, old(View()), View(), path, old(f.hdr.id))
    {
      hide Run, Good, AnswerTo, LevelAt, Started, Toll, Ids, Reading, ReadDone, Past;
      ReadingFacts(cfg, View(), path, ReadRaw(room));
      var (done, len, avail) := (f.pendDone, f.hdr.len, f.end - f.p);
      var take := if avail <= len - done then avail else len - done;
      var d := RawCopied(f.dest, key, room, done, f.win[f.p..f.p + take]);
      if done + take < len {
        RawMore(cfg, View(), path, room, take);
        m := Amid(m, take, take, d, f.utf8);
        f := f.(p := f.p + take, dest := d, incomplete := true, pendDone := done + take);
      } else if take == 0 {
        RawEmpty(cfg, View(), path, room);
        f := f.(consumed := true, pendDone := 0);
      } else {
        RawDone(cfg, View(), path, room, take);
        m := Past(m, take, d);
        f := f.(p := f.p + take, dest := d, consumed := true, pendDone := 0);
      }
    }

    // -------------------------------------------------------------- reading arrays

    /** Store or refuse the varint that was read for element `i`. */
    method TakeItem(ghost v0: Look, path: seq<Frame>, r: Read, i: nat, x: Varint, q: nat) returns (more: bool)
      requires (r.ReadArray? || r.ReadSpan?) && !IsFloat(r.elem) && i < f.hdr.count
      requires f.p <= f.end <= |f.win| && x == Decode(f.win[f.p..f.end]) && (x.Got? ==> q == f.p + x.size)
      requires InItems(cfg, v0, View(), path, r, i)
      modifies this`f, this`m
      ensures more ==> x.Got? && f.p == q == old(f.p) + x.size
      ensures more ==> InItems(cfg, v0, View(), path, r, i + 1)
      ensures !more ==> ReadDone(cfg, v0, View(), path, v0.f.hdr.id)
    {
      hide Run, Good, AnswerTo, LevelAt, Decode, InItems, ReadDone, Ids, InRange, IntValue, Onward;
      IntegerItem(cfg, v0, View(), path, r, i, q);
      InItemsFacts(cfg, v0, View(), path, r, i);
      more := false;
      match x
      case Cut => f := f.(pendDone := i, incomplete := true);
      case Overlong => f := f.(p := q, refusal := Some(Invalid));
      case Got(raw, n) =>
        if !InRange(r.elem, RangeOf(r), raw) {
          f := f.(p := q, refusal := Some(Invalid));
        } else {
          var d := StoreItem(f.dest, KeyIn(path, f), ItemsOf(f.dest, KeyIn(path, f), r), i, IntValue(r.elem, raw));
          m := Onward(m, f.hdr.count, n, d);
          f := f.(p := q, dest := d);
          more := true;
        }
    }

    /** Pass over the surplus varint that stands where element `i` would be. */
    method PassItem(ghost v0: Look, ghost path: seq<Frame>, r: Read, i: nat, ghost x: Varint, ok: bool, overlong: bool, q: nat)
      returns (more: bool)
      requires (r.ReadArray? || r.ReadSpan?) && !IsFloat(r.elem) && !Bounded(r) && i < f.hdr.count
      requires f.p <= f.end <= |f.win| && x == Decode(f.win[f.p..f.end]) && ok == x.Got? && (!ok ==> overlong == x.Overlong?)
      requires ok ==> q == f.p + x.size
      requires |ItemsOf(f.dest, KeyIn(path, f), r)| <= i && InItems(cfg, v0, View(), path, r, i)
      modifies this`f, this`m
      ensures more ==> ok && f.p == q
      ensures more ==> InItems(cfg, v0, View(), path, r, i + 1)
      ensures !more ==> ReadDone(cfg, v0, View(), path, v0.f.hdr.id)
    {
      hide Run, Good, AnswerTo, LevelAt, Decode, InItems, ReadDone, Ids, ItemsOf, Onward;
      SurplusItem(cfg, v0, View(), path, r, i, q);
      more := ok;
      if ok {
        m := Onward(m, f.hdr.count, q - f.p, f.dest);
        f := f.(p := q);
      } else if overlong {
        f := f.(p := q, refusal := Some(Invalid));
      } else {
        f := f.(pendDone := i, incomplete := true);
      }
    }

    /** The elements the destination has room for. Where ten bytes are left for each of a run
        of varints, the run is decoded without a check on the end of the window. */
    method StoreItems(ghost v0: Look, path: seq<Frame>, r: Read, n: nat, start: nat) returns (more: bool, i: nat)
      requires (r.ReadArray? || r.ReadSpan?) && !IsFloat(r.elem) && n <= f.hdr.count
      requires InItems(cfg, v0, View(), path, r, start)
      modifies this`f, this`m
      ensures more ==> i == (if start < n then n else start)
      ensures more ==> InItems(cfg, v0, View(), path, r, i)
      ensures !more ==> ReadDone(cfg, v0, View(), path, v0.f.hdr.id)
    {
      hide Run, Good, AnswerTo, LevelAt, Decode, InItems, ReadDone, Ids, InRange, IntValue, Onward;
      i, more := start, true;
      while i < n
        invariant start <= i && (i <= n || i == start) && n <= f.hdr.count
        invariant InItems(cfg, v0, View(), path, r, i)
      {
        InItemsFacts(cfg, v0, View(), path, r, i);
        var fit := (f.end - f.p) / VARINT_MAX_BYTES;
        if fit == 0 {
          var x, q := GetVarint(f.win, f.p, f.end);
          more := TakeItem(v0, path, r, i, x, q);
          if !more { return; }
          i := i + 1;
        } else {
          if fit > n - i { fit := n - i; }
          var k := 0;
          ghost var last := i + fit;
          while k < fit
            invariant k <= fit && i + (fit - k) == last <= n <= f.hdr.count && start <= i
            invariant f.p + (fit - k) * 10 <= f.end <= |f.win|
            invariant InItems(cfg, v0, View(), path, r, i)
          {
            WindowDecode(f.win, f.p, f.end);
            ghost var end := f.end;
            InItemsFacts(cfg, v0, View(), path, r, i);
            var x, q := GetVarintWindowed(f.win, f.p);
            more := TakeItem(v0, path, r, i, x, q);
            if !more { return; }
            i, k := i + 1, k + 1;
            InItemsFacts(cfg, v0, View(), path, r, i);
          }
        }
        InItemsFacts(cfg, v0, View(), path, r, i);
      }
    }

    /** The surplus elements: parsed to stay framed, and still refused when out of a declared range. */
    method PassItems(ghost v0: Look, path: seq<Frame>, r: Read, start: nat) returns (more: bool)
      requires (r.ReadArray? || r.ReadSpan?) && !IsFloat(r.elem) && start <= f.hdr.count && f.hdr.count == v0.f.hdr.count
      requires start < f.hdr.count ==> |ItemsOf(v0.f.dest, KeyIn(path, v0.f), r)| <= start
      requires InItems(cfg, v0, View(), path, r, start)
      modifies this`f, this`m
      ensures more ==> InItems(cfg, v0, View(), path, r, v0.f.hdr.count)
      ensures !more ==> ReadDone(cfg, v0, View(), path, v0.f.hdr.id)
    {
      hide Run, Good, AnswerTo, LevelAt, Decode, InItems, ReadDone, Ids, InRange, IntValue, Onward, ItemsOf, Bounded;
      var i := start;
      more := true;
      var bounded := Bounded(r);
      while i < f.hdr.count
        invariant start <= i <= f.hdr.count == v0.f.hdr.count
        invariant InItems(cfg, v0, View(), path, r, i)
      {
        InItemsFacts(cfg, v0, View(), path, r, i);
        var fit := (f.end - f.p) / VARINT_MAX_BYTES;
        if fit == 0 {
          if bounded {
            var x, q := GetVarint(f.win, f.p, f.end);
            more := TakeItem(v0, path, r, i, x, q);
          } else {
            ghost var x := Decode(f.win[f.p..f.end]);
            var ok, overlong, q := SkipVarint(f.win, f.p, f.end);
            more := PassItem(v0, path, r, i, x, ok, overlong, q);
          }
          if !more { return; }
          i := i + 1;
        } else {
          if fit > f.hdr.count - i { fit := f.hdr.count - i; }
          more := PassRun(v0, path, r, i, fit);
          if !more { return; }
          i := i + fit;
        }
        InItemsFacts(cfg, v0, View(), path, r, i);
      }
    }

    /** `fit` surplus elements, with ten bytes in the window for each of them. */
    method PassRun(ghost v0: Look, path: seq<Frame>, r: Read, start: nat, fit: nat) returns (more: bool)
      requires (r.ReadArray? || r.ReadSpan?) && !IsFloat(r.elem) && start + fit <= f.hdr.count == v0.f.hdr.count
      requires f.p + fit * 10 <= f.end <= |f.win| && |ItemsOf(v0.f.dest, KeyIn(path, v0.f), r)| <= start
      requires InItems(cfg, v0, View(), path, r, start)
      modifies this`f, this`m
      ensures more ==> InItems(cfg, v0, View(), path, r, start + fit)
      ensures !more ==> ReadDone(cfg, v0, View(), path, v0.f.hdr.id)
    {
      hide Run, Good, AnswerTo, LevelAt, Decode, InItems, ReadDone, Ids, InRange, IntValue, Onward, ItemsOf, Bounded;
      more := true;
      var bounded := Bounded(r);
      var k, i := 0, start;
      while k < fit
        invariant k <= fit && i == start + k && f.hdr.count == v0.f.hdr.count
        invariant f.p + (fit - k) * 10 <= f.end <= |f.win|
        invariant InItems(cfg, v0, View(), path, r, i)
      {
        WindowDecode(f.win, f.p, f.end);
        InItemsFacts(cfg, v0, View(), path, r, i);
        ghost var x := Decode(f.win[f.p..f.end]);
        if bounded {
          var y, q := GetVarintWindowed(f.win, f.p);
          more := TakeItem(v0, path, r, i, y, q);
        } else {
          var ok, q := SkipVarintWindowed(f.win, f.p);
          more := PassItem(v0, path, r, i, x, ok, true, q);
        }
        if !more { return; }
        i, k := i + 1, k + 1;
        InItemsFacts(cfg, v0, View(), path, r, i);
      }
    }

    /** The elements of an integer array, as many into the destination as it holds. */
    method ReadIntElements(ghost v0: Look, path: seq<Frame>, r: Read)
      requires (r.ReadArray? || r.ReadSpan?) && !IsFloat(r.elem)
      requires InItems(cfg, v0, View(), path, r, f.pendDone) && v0 == View()
      modifies this`f, this`m
      ensures ReadDone(cfg, v0, View(), path, v0.f.hdr.id)
    {
      hide Run, Good, AnswerTo, LevelAt, Decode, InItems, ReadDone, Ids, InRange, IntValue, Onward, ItemsOf;
      InItemsFacts(cfg, v0, View(), path, r, f.pendDone);
      var room := |ItemsOf(f.dest, KeyIn(path, f), r)|;
      var n := if room <= f.hdr.count then room else f.hdr.count;
      var more, i := StoreItems(v0, path, r, n, f.pendDone);
      if !more { return; }
      InItemsFacts(cfg, v0, View(), path, r, i);
      more := PassItems(v0, path, r, i);
      if !more { return; }
      InItemsFacts(cfg, v0, View(), path, r, v0.f.hdr.count);
      ItemsEnd(cfg, v0, View(), path, r);
      f := f.(consumed := true, pendDone := 0);
    }

    /** The elements of a fixlen array: in one move if the window holds them all, else one by one. */
    method ReadFloatElements(ghost v0: Look, path: seq<Frame>, r: Read)
      requires (r.ReadArray? || r.ReadSpan?) && IsFloat(r.elem)
      requires InItems(cfg, v0, View(), path, r, f.pendDone) && v0 == View()
      modifies this`f, this`m
      ensures ReadDone(cfg, v0, View(), path, v0.f.hdr.id)
    {
      hide Run, Good, AnswerTo, LevelAt, InItems, ReadDone, Ids, ItemsOf, Onward, Past, Floats, ItemsCopied;
      InItemsFacts(cfg, v0, View(), path, r, f.pendDone);
      var bytes := FloatBytes(r.elem, f.hdr.count);
      if f.pendDone == 0 && f.end - f.p >= bytes {
        if f.hdr.count > 0 {
          FloatsWhole(cfg, View(), path, r);
          var key := KeyIn(path, f);
          var d := ItemsCopied(f.dest, key, ItemsOf(f.dest, key, r), 0, Floats(r.elem, f.win[f.p..f.p + bytes]));
          m := Past(m, bytes, d);
          f := f.(p := f.p + bytes, dest := d, consumed := true, pendDone := 0);
        } else {
          ItemsEnd(cfg, v0, View(), path, r);
          f := f.(consumed := true, pendDone := 0);
        }
      } else {
        FloatsOneByOne(v0, path, r);
      }
    }

    method FloatsOneByOne(ghost v0: Look, path: seq<Frame>, r: Read)
      requires (r.ReadArray? || r.ReadSpan?) && IsFloat(r.elem)
      requires InItems(cfg, v0, View(), path, r, f.pendDone) && v0 == View()
      modifies this`f, this`m
      ensures ReadDone(cfg, v0, View(), path, v0.f.hdr.id)
    {
      hide Run, Good, AnswerTo, LevelAt, InItems, ReadDone, Ids, ItemsOf, Onward;
      InItemsFacts(cfg, v0, View(), path, r, f.pendDone);
      var i := f.pendDone;
      while i < f.hdr.count
        invariant i <= f.hdr.count == v0.f.hdr.count
        invariant InItems(cfg, v0, View(), path, r, i)
      {
        FloatItemNext(cfg, v0, View(), path, r, i);
        InItemsFacts(cfg, v0, View(), path, r, i);
        var w := ElemWidth(r.elem);
        if f.end - f.p < w {
          f := f.(pendDone := i, incomplete := true);
          return;
        }
        var d := StoreItem(f.dest, KeyIn(path, f), ItemsOf(f.dest, KeyIn(path, f), r), i, Bits(f.win[f.p..f.p + w]));
        m := Onward(m, f.hdr.count, w, d);
        f := f.(p := f.p + w, dest := d);
        i := i + 1;
        InItemsFacts(cfg, v0, View(), path, r, i);
      }
      ItemsEnd(cfg, v0, View(), path, r);
      f := f.(consumed := true, pendDone := 0);
    }

    /** An array into its destination, which is brought to its size when the field begins. */
    method ReadArrayElements(path: seq<Frame>, key: Path, r: Read)
      requires Reading(cfg, View(), path, r) && (r.ReadArray? || r.ReadSpan?) && key == Ids(path) + [f.hdr.id]
      modifies this`f, this`m
      ensures ReadDone(cfg, old(View()), View(), path, old(f.hdr.id))
    {
      hide Run, Good, AnswerTo, LevelAt, InItems, ReadDone, Reading, Ids, ItemsOf, Onward, Started;
      ItemsBegin(cfg, View(), path, r);
      ghost var v := View();
      if f.pendDone == 0 { f := f.(dest := Started(r, f.hdr, f.dest, key)); }
      ghost var v0 := View();
      if IsFloat(r.elem) { ReadFloatElements(v0, path, r); } else { ReadIntElements(v0, path, r); }
      ReadFromBegun(cfg, v, v0, View(), path);
    }

    // -------------------------------------------------------------- one level

    /** The next field of a nested level, up to where its handler is asked. */
    method BeginField(ghost path: seq<Frame>, ghost l: Level) returns (found: Found)
      requires AtField(cfg, View(), path, l) && f.p < f.end <= |f.win|
      modifies this`f, this`m
      ensures path != []
      ensures found == Stop ==> LevelDone(cfg, old(View()), View(), path)
      ensures found != Stop ==> Begun(cfg, old(View()), View(), path, l, found == SkipElem)
    {
      hide Run, Good, AnswerTo, LevelAt, GateOf, ReadHeader, LevelDone, Exceeds, SpanLive;
      ghost var v := View();
      FlowingFacts(cfg, v, path);
      CapAgrees(cfg, v, path, l);
      if !f.capInert && !f.spanSkip && Exceeds(cfg.cap, SpanLive(f.spanCarry + (f.p - f.spanBase), f.spanSkipped), 0) {
        LevelOver(cfg, v, path, l);
        f := f.(refusal := Some(Limit));
        return Stop;
      }
      var h := ParseFieldHeader(f.gate, f.win, f.p, f.end);
      match h
      case CutHeader =>
        LevelCut(cfg, v, path, l, f.hdr);
        f := f.(incomplete := true, suspendDepth := f.seqDepth, pend := false, pendSkip := false);
        found := Stop;
      case BadHeader(why) =>
        LevelBad(cfg, v, path, l, f.hdr, f.p);
        f := f.(refusal := Some(why));
        found := Stop;
      case LevelEnd(n) =>
        LevelEnds(cfg, v, path, l, f.hdr, n);
        m := EndLevel(m, n).next;
        f := f.(p := f.p + n);
        found := Stop;
      case FieldAt(header, n, notElement) =>
        f := f.(p := f.p + n, hdr := header, consumed := false, pendDone := 0, utf8 := ACCEPT);
        found := if notElement then SkipElem else Ready;
    }

    // -------------------------------------------------------------- declined fields

    /** The varints of a declined field. */
    method SkipVarints(ghost path: seq<Frame>)
      requires Skipping(cfg, View(), path) && VarintPayload(f.hdr.wire)
      modifies this`f, this`m
      ensures SkipDone(cfg, old(View()), View(), path, old(f.hdr.id))
    {
      hide Run, Good, Decode, InVarints, SkipDone, Skipping, Onward;
      ghost var v0 := View();
      VarintsBegin(cfg, v0, path);
      InVarintsFacts(cfg, v0, v0, path, f.pendDone);
      SkippingFacts(cfg, v0, path);
      var i: nat := f.pendDone;
      while i < SkipUnits(f.hdr)
        invariant InVarints(cfg, v0, View(), path, i) && f.hdr == v0.f.hdr && i <= SkipUnits(f.hdr)
      {
        VarintNext(cfg, v0, View(), path, i, 0);
        InVarintsFacts(cfg, v0, View(), path, i);
        var ok, overlong, q := SkipVarint(f.win, f.p, f.end);
        VarintNext(cfg, v0, View(), path, i, q);
        if !ok {
          if overlong { f := f.(p := q, refusal := Some(Invalid)); }
          else { f := f.(pendDone := i, incomplete := true); }
          return;
        }
        m := Onward(m, SkipUnits(f.hdr), q - f.p, f.dest);
        f := f.(p := q);
        i := i + 1;
        InVarintsFacts(cfg, v0, View(), path, i);
      }
      VarintsEnd(cfg, v0, View(), path);
      f := f.(pendDone := 0);
    }

    /** A declined payload of known length is stepped over as it arrives. */
    method SkipLength(ghost path: seq<Frame>)
      requires Skipping(cfg, View(), path) && (f.hdr.wire == Fixlen || f.hdr.wire == ArrayFixlen)
      modifies this`f, this`m
      ensures SkipDone(cfg, old(View()), View(), path, old(f.hdr.id))
    {
      hide Run, Good, SkipDone, Skipping, Past, Amid;
      SkippingFacts(cfg, View(), path);
      var bytes := SkipUnits(f.hdr);
      hide SkipUnits;
      var left, avail := bytes - f.pendDone, f.end - f.p;
      if avail < left {
        SkipMore(cfg, View(), path, avail);
        m := Amid(m, avail, avail, f.dest, f.utf8);
        f := f.(p := f.p + avail, pendDone := f.pendDone + avail, incomplete := true);
      } else {
        SkipWhole(cfg, View(), path, left);
        if left > 0 { m := Past(m, left, f.dest); }
        f := f.(p := f.p + left, pendDone := 0);
      }
    }

    /** Step over the payload of a declined field, resumably. */
    method SkipPayload(path: seq<Frame>, l: Level)
      requires Skipping(cfg, View(), path) && Standing(cfg, View(), path, l)
      modifies this`f, this`m, pathId, pathSkip
      ensures SkipDone(cfg, old(View()), View(), path, old(f.hdr.id))
      decreases MAX_DEPTH - |path|, 2
    {
      hide Run, Good, SkipDone, LevelAt, GateOf, Synced, SkipUnits;
      if VarintPayload(f.hdr.wire) {
        SkipVarints(path);
      } else if f.hdr.wire == Fixlen || f.hdr.wire == ArrayFixlen {
        SkipLength(path);
      } else if f.seqDepth >= MAX_DEPTH {
        SkipTooDeep(cfg, View(), path);
        f := f.(refusal := Some(Invalid));
      } else {
        SkippingSequence(cfg, View(), path);
        SkipSequence(path, l, f.hdr.id);
      }
    }

    /** Walk a sequence nobody asked for: no gate, no span check, nothing delivered. */
    method SkipSequence(path: seq<Frame>, l: Level, id: nat)
      requires Standing(cfg, View(), path, l) && |path| < MAX_DEPTH
      requires Flowing(cfg, View(), path + [Frame(id, true)]) || Replaying(cfg, View(), path + [Frame(id, true)])
      modifies this`f, this`m, pathId, pathSkip
      ensures SkipDone(cfg, old(View()), View(), path, id)
      decreases MAX_DEPTH - |path|, 1
    {
      hide Run, Good, SkipDone, LevelAt, GateOf, AtLevel, Flowing, Replaying, LevelDone;
      ghost var v := View();
      SkipEnters(cfg, v, path, l, id);
      var (outerGate, outerSkip) := (f.gate, f.spanSkip);
      f := f.(gate := OPEN_GATE, spanSkip := true, seqDepth := f.seqDepth + 1);
      ghost var v1 := View();
      DispatchLevel(path + [Frame(id, true)], Skipped);
      SkipLeaves(cfg, v, v1, View(), path, id);
      f := f.(gate := outerGate, spanSkip := outerSkip, seqDepth := |path|);
    }

    // -------------------------------------------------------------- delivering a field

    /** Ask the level's handler, which may extend its container, refuse, decline or read. */
    method Deliver(path: seq<Frame>, l: Level)
      requires Standing(cfg, View(), path, l) && Posed(cfg, View(), path, AnswerTo(l, f.hdr))
      modifies this`f, this`m, pathId, pathSkip
      ensures Delivered(cfg, old(View()), View(), path, AnswerTo(l, old(f.hdr)))
      decreases MAX_DEPTH - |path|, 4
    {
      hide Run, Good, LevelAt, GateOf, AnswerTo, Reading, PosedMessage, ReadDone, Standing, Skipping;
      ghost var v := View();
      var a := AnswerTo(l, f.hdr);
      f := f.(dest := PlaceIf(a.placed, f.dest, Ids(path), f.hdr.id));
      ghost var u := View();
      match a
      case Decline(_) =>
      case Refuse(why, _) =>
        f := f.(refusal := Some(why));
        RefusedHere(v, View(), path, why);
      case Take(r, _) =>
        StandingStill(cfg, v, u, path, l);
        ReadField(path, l, r);
        ReadFromPlaced(cfg, v, u, View(), path);
    }

    /** The typed read a handler makes. */
    method ReadField(path: seq<Frame>, l: Level, r: Read)
      requires Standing(cfg, View(), path, l) && AnswerTo(l, f.hdr).Take? && AnswerTo(l, f.hdr).read == r
      requires !r.ReadMessage? ==> Reading(cfg, View(), path, r)
      requires r.ReadMessage? ==> PosedMessage(cfg, View(), path, r.node) && f.hdr == SequenceHeader(f.hdr.id)
      modifies this`f, this`m, pathId, pathSkip
      ensures ReadDone(cfg, old(View()), View(), path, old(f.hdr.id))
      decreases MAX_DEPTH - |path|, 3
    {
      hide Run, Good, LevelAt, GateOf, AnswerTo, Reading, PosedMessage, ReadDone, Standing;
      var key := Ids(path) + [f.hdr.id];
      match r
      case ReadUnsigned => ReadInteger(path, key, r);
      case ReadSigned => ReadInteger(path, key, r);
      case ReadBool => ReadInteger(path, key, r);
      case ReadFloat(fix) => ReadFloatValue(path, key, fix);
      case ReadText(_, _, _) => ReadPayload(path, key, r);
      case ReadRaw(room) => ReadRawBytes(path, key, room);
      case ReadArray(_, _, _, _) => ReadArrayElements(path, key, r);
      case ReadSpan(_, _) => ReadArrayElements(path, key, r);
      case ReadMessage(node) => ReadMessage(path, l, key, node);
    }

    /** Descend into a sequence its handler reads, under the gate of that sequence's elements. */
    method ReadMessage(path: seq<Frame>, l: Level, key: Path, node: Node)
      requires Standing(cfg, View(), path, l) && key == Ids(path) + [f.hdr.id]
      requires PosedMessage(cfg, View(), path, node) && f.hdr == SequenceHeader(f.hdr.id)
      requires AnswerTo(l, f.hdr).Take? && AnswerTo(l, f.hdr).read == Read.ReadMessage(node)
      modifies this`f, this`m, pathId, pathSkip
      ensures ReadDone(cfg, old(View()), View(), path, old(f.hdr.id))
      decreases MAX_DEPTH - |path|, 2
    {
      hide Run, Good, LevelAt, GateOf, AnswerTo, Prepare, PosedMessage, ReadDone, AtLevel, LevelDone;
      ghost var v := View();
      FreshTooDeep(cfg, v, path, node);
      var d := if f.replay then f.dest else Prepare(node, f.dest, key);
      if f.seqDepth >= MAX_DEPTH {
        f := f.(dest := d, gate := GateOf(Live(node)), refusal := Some(Invalid));
        MessageTooDeep(cfg, v, path, node, View());
      } else {
        MessageEnters(cfg, v, path, l, node);
        EnterMessage(path, node, d);
      }
    }

    method EnterMessage(path: seq<Frame>, node: Node, d: Dest)
      requires |path| < MAX_DEPTH && f.seqDepth == |path|
      requires AtLevel(cfg, Entered(View().(f := f.(dest := d)), GateOf(Live(node)), f.spanSkip), path + [Frame(f.hdr.id, false)], Live(node))
      modifies this`f, this`m, pathId, pathSkip
      ensures ReadDone(cfg, old(View()), View(), path, old(f.hdr.id))
      decreases MAX_DEPTH - |path|, 1
    {
      hide Run, Good, LevelAt, GateOf, AnswerTo, Prepare, PosedMessage, ReadDone, AtLevel, LevelDone;
      ghost var v := View();
      var (outerGate, outerSkip, outerDepth) := (f.gate, f.spanSkip, f.seqDepth);
      f := f.(dest := d, gate := GateOf(Live(node)), seqDepth := outerDepth + 1);
      ghost var v1 := View();
      DispatchLevel(path + [Frame(f.hdr.id, false)], Live(node));
      MessageLeaves(cfg, v, v1, View(), path);
      f := f.(gate := outerGate, spanSkip := outerSkip, seqDepth := outerDepth, consumed := !f.incomplete);
    }

    // -------------------------------------------------------------- settling a field

    /** The innermost level claims the suspension; every level above it records its own id. */
    method SuspendHere(ghost path: seq<Frame>, id: nat, declined: bool)
      requires f.seqDepth == |path| <= MAX_DEPTH && pathId.Length == MAX_DEPTH + 1 && pathSkip.Length == MAX_DEPTH + 1
      modifies this`f, pathId, pathSkip
      ensures View() == Recorded(old(View()), id, declined)
    {
      if f.suspendDepth >= 0 {
        pathId[f.seqDepth] := id;
        pathSkip[f.seqDepth] := declined;
      } else {
        f := f.(suspendDepth := f.seqDepth, pend := true, pendSkip := declined, pendHdr := f.hdr);
      }
    }

    /** Settle a field its handler has been offered: skip it if it was not wanted, suspend it
        if its bytes ran out. */
    method FinishField(ghost v0: Look, path: seq<Frame>, l: Level, ghost a: Answer, fieldStart: nat, payload: nat, id: nat)
      returns (more: bool)
      requires Standing(cfg, v0, path, l) && Settle(cfg, v0, View(), path, a, id)
      requires fieldStart == v0.f.p && (a.Decline? ==> payload == f.p)
      modifies this`f, this`m, pathId, pathSkip
      ensures FieldDone(cfg, v0, View(), path)
      ensures more == (f.refusal.None? && !f.incomplete)
      ensures more ==> old(f.refusal).None? && f.p >= old(f.p)
      decreases MAX_DEPTH - |path|, 4
    {
      hide Run, Good, LevelAt, GateOf, Settle, FieldDone, Skipping, SkipDone, LeftBehind, Toll;
      SettleFacts(cfg, v0, View(), path, a, id);
      if f.refusal.Some? { return false; }
      KeptStanding(cfg, v0, View(), path, l);
      var declined := false;
      if !f.incomplete && !f.consumed {
        declined := true;
        f := f.(p := payload);
        SkipDeclined(v0, path, l, fieldStart, id);
        if f.refusal.Some? { return false; }
      }
      if f.incomplete {
        Records(cfg, v0, View(), path, id, declined);
        SuspendHere(path, id, declined);
        return false;
      }
      NotCut(cfg, v0, View(), path, id, declined);
      return true;
    }

    /** Step over a declined field, and discount it from its first header byte. */
    method SkipDeclined(ghost v0: Look, path: seq<Frame>, l: Level, fieldStart: nat, id: nat)
      requires Standing(cfg, View(), path, l) && Skipping(cfg, View(), path) && f.hdr.id == id && Kept(v0, View()) && f.refusal.None?
      requires v0.f.seqDepth == |path|
      requires fieldStart == v0.f.p <= f.p
      requires Owed(View()) == Owed(v0) + Toll(path, f.p - v0.f.p) + f.p - v0.f.p
      modifies this`f, this`m, pathId, pathSkip
      ensures LeftBehind(cfg, v0, View(), path, id, true) && Kept(v0, View())
      ensures f.refusal.None? ==> f.p >= old(f.p)
      ensures f.refusal.Some? ==> FieldDone(cfg, v0, View(), path)
      ensures f.refusal.None? && f.incomplete ==>
        f.seqDepth == |path| && pathId.Length == MAX_DEPTH + 1 && pathSkip.Length == MAX_DEPTH + 1
      decreases MAX_DEPTH - |path|, 3
    {
      hide Run, Good, LevelAt, GateOf, FieldDone, Skipping, SkipDone, LeftBehind, Toll, Kept, Standing, Owed;
      ghost var v := View();
      StandingFacts(cfg, v, path, l);
      SkipPayload(path, l);
      SkipSettled(cfg, v0, v, View(), path, id);
      f := f.(spanSkipped := f.spanSkipped + if f.p >= fieldStart then f.p - fieldStart else 0);
      if f.refusal.Some? { NotCut(cfg, v0, View(), path, id, true); }
      LeftBehindKept(cfg, v0, View(), path, id, true);
      KeptLengths(v0, View());
    }

    // -------------------------------------------------------------- on the way back

    /** Deliver the half-delivered field of this level again: the read, or the skip, goes on
        where it stopped. */
    method DeliverPending(path: seq<Frame>, l: Level) returns (more: bool)
      requires Resumable(cfg, View(), path) && Standing(cfg, View(), path, l)
      modifies this`f, this`m, pathId, pathSkip
      ensures FieldDone(cfg, old(View()), View(), path)
      ensures more == (f.refusal.None? && !f.incomplete)
      ensures path == [] && f.incomplete && f.refusal.None? ==> InField(m) && TopLive(m) == TopLive(old(m))
      decreases MAX_DEPTH - |path|, 6
    {
      hide Run, Good, LevelAt, GateOf, AnswerTo, FieldDone, Skipping, SkipDone, LeftBehind, Toll, Posed, Delivered, Resumable, Settle, Kept, Standing;
      ghost var v := View();
      StandingFacts(cfg, v, path, l);
      var (declined, id, from) := (f.pendSkip, f.pendHdr.id, f.p);
      if declined { ResumesSkip(cfg, v, path); } else { ResumesRead(cfg, v, path, l); }
      f := f.(hdr := f.pendHdr, consumed := false);
      ghost var v0 := View();
      SameStanding(cfg, v, v0, path, l);
      ResumableCalm(cfg, v, path);
      if declined {
        SkipDeclined(v0, path, l, from, id);
      } else {
        ghost var a := AnswerTo(l, f.hdr);
        Deliver(path, l);
        DeliveredOver(cfg, v0, View(), path, a);
      }
      more := SettlePending(v0, path, l, id, declined);
      FieldFrom(cfg, v, v0, View(), path);
    }

    /** Suspend the pending field again, or leave nothing pending. */
    method SettlePending(ghost v0: Look, ghost path: seq<Frame>, ghost l: Level, id: nat, declined: bool) returns (more: bool)
      requires Standing(cfg, v0, path, l) && Kept(v0, View()) && LeftBehind(cfg, v0, View(), path, id, declined)
      modifies this`f, pathId, pathSkip
      ensures FieldDone(cfg, v0, View(), path)
      ensures more == (f.refusal.None? && !f.incomplete)
      ensures path == [] && f.incomplete && f.refusal.None? ==> InField(m) && TopLive(m) == !declined
    {
      hide Run, Good, LevelAt, GateOf, FieldDone, LeftBehind, Toll;
      if f.refusal.None? && f.incomplete { UnsettledTop(cfg, v0, View(), path, id, declined); }
      if f.refusal.Some? || !f.incomplete { NotCut(cfg, v0, View(), path, id, declined); }
      if f.refusal.Some? { return false; }
      if f.incomplete {
        Records(cfg, v0, View(), path, id, declined);
        SuspendHere(path, id, declined);
        return false;
      }
      FieldCleared(cfg, v0, View(), path);
      f := f.(pend := false, pendSkip := false, pendDone := 0);
      return true;
    }

    /** Re-enter the next sequence on the saved path; none of its header's bytes are left to parse. */
    method DescendResume(path: seq<Frame>, l: Level) returns (more: bool)
      requires Replaying(cfg, View(), path) && |path| < f.suspendDepth && Standing(cfg, View(), path, l)
      requires !pathSkip[..][|path|] ==> Owed(View()) == 0
      modifies this`f, this`m, pathId, pathSkip
      ensures FieldDone(cfg, old(View()), View(), path)
      ensures more == (f.refusal.None? && !f.incomplete)
      ensures path == [] && f.incomplete && f.refusal.None? ==> InField(m) && TopLive(m) == TopLive(old(m))
      decreases MAX_DEPTH - |path|, 6
    {
      hide Run, Good, LevelAt, GateOf, AnswerTo, FieldDone, Skipping, SkipDone, LeftBehind, Toll, Posed, Delivered, Settle, Kept, Standing, Replaying;
      ghost var v := View();
      StandingFacts(cfg, v, path, l);
      DescendsSkip(cfg, v, path);
      if !v.skips[|path|] { DescendsRead(cfg, v, path, l); }
      var (id, declined, from) := (pathId[f.seqDepth], pathSkip[f.seqDepth], f.p);
      f := f.(hdr := SequenceHeader(id), consumed := false);
      ghost var v0 := View();
      SameStanding(cfg, v, v0, path, l);
      ReplayingFlags(cfg, v, path);
      if declined {
        SkipSequence(path, l, id);
        SkipOver(cfg, v0, View(), path, id);
        f := f.(spanSkipped := f.spanSkipped + if f.p >= from then f.p - from else 0);
      } else {
        Deliver(path, l);
        DeliveredOver(cfg, v0, View(), path, AnswerTo(l, SequenceHeader(id)));
      }
      more := SettlePath(v0, path, l, id, declined);
      FieldFrom(cfg, v, v0, View(), path);
    }

    method SettlePath(ghost v0: Look, ghost path: seq<Frame>, ghost l: Level, id: nat, declined: bool) returns (more: bool)
      requires Standing(cfg, v0, path, l) && Kept(v0, View()) && LeftBehind(cfg, v0, View(), path, id, declined)
      modifies this`f, pathId, pathSkip
      ensures FieldDone(cfg, v0, View(), path)
      ensures more == (f.refusal.None? && !f.incomplete)
      ensures path == [] && f.incomplete && f.refusal.None? ==> InField(m) && TopLive(m) == !declined
    {
      hide Run, Good, LevelAt, GateOf, FieldDone, LeftBehind, Toll;
      if f.refusal.None? && f.incomplete { UnsettledTop(cfg, v0, View(), path, id, declined); }
      if f.refusal.Some? || !f.incomplete { NotCut(cfg, v0, View(), path, id, declined); }
      if f.refusal.Some? { return false; }
      if f.incomplete {
        Records(cfg, v0, View(), path, id, declined);
        SuspendHere(path, id, declined);
        return false;
      }
      return true;
    }

    // -------------------------------------------------------------- the level loop

    /** How the level is being entered; the replay ends at the suspended level. */
    method LevelEntry() returns (e: Entry)
      modifies this`f
      ensures e == Descend ==> f == old(f) && f.replay && f.seqDepth < f.suspendDepth
      ensures e != Descend ==>
        && (!old(f.replay) ==> e == Fresh && f == old(f))
        && (old(f.replay) ==>
              && old(f.seqDepth) >= old(f.suspendDepth) && e == (if old(f.pend) then Resume else Fresh)
              && f == old(f).(replay := false, suspendDepth := -1))
    {
      if !f.replay { return Fresh; }
      if f.seqDepth < f.suspendDepth { return Descend; }
      f := f.(replay := false, suspendDepth := -1);
      return if f.pend then Resume else Fresh;
    }

    /** Go on where the level was left: in its pending field, or further down. */
    method ReenterLevel(path: seq<Frame>, l: Level, e: Entry) returns (more: bool)
      requires Standing(cfg, View(), path, l) && e != Fresh
      requires e == Resume ==> Resumable(cfg, View(), path)
      requires e == Descend ==> Replaying(cfg, View(), path) && |path| < f.suspendDepth
      requires e == Descend ==> pathSkip.Length > |path| && (!pathSkip[..][|path|] ==> Owed(View()) == 0)
      modifies this`f, this`m, pathId, pathSkip
      ensures FieldDone(cfg, old(View()), View(), path)
      ensures more == (f.refusal.None? && !f.incomplete)
      ensures path == [] && f.incomplete && f.refusal.None? ==> InField(m) && TopLive(m) == TopLive(old(m))
      decreases MAX_DEPTH - |path|, 7
    {
      hide *;
      if e == Descend { more := DescendResume(path, l); } else { more := DeliverPending(path, l); }
    }

    /** One more field of a nested level, or the end of it. */
    method NextField(path: seq<Frame>, l: Level) returns (open: bool)
      requires AtField(cfg, View(), path, l) && f.p < f.end <= |f.win|
      modifies this`f, this`m, pathId, pathSkip
      ensures !open ==> path != [] && LevelDone(cfg, old(View()), View(), path)
      ensures open ==> FieldDone(cfg, old(View()), View(), path) && (f.refusal.None? ==> !f.incomplete && f.p > old(f.p))
      ensures open ==> f.end == old(f.end) && f.win == old(f.win)
      decreases MAX_DEPTH - |path|, 7
    {
      hide Run, Good, LevelAt, GateOf, AnswerTo, FieldDone, Posed, Delivered, Settle, Kept, Standing, AtField, Begun, OfferField, Toll, HeaderToll, LevelDone, NextState, Paid;
      ghost var v := View();
      var fieldStart := f.p;
      var found := BeginField(path, l);
      if found == Stop { return false; }
      ghost var w := View();
      ghost var a := if found == SkipElem then Decline(false) else AnswerTo(l, f.hdr);
      NestedOffer(cfg, v, w, path, l, found == SkipElem);
      m := NextState(m, OfferField(cfg, m, f.hdr, f.p - fieldStart, found == SkipElem), path, f.p - fieldStart, a);
      ghost var u := View();
      var (fieldId, payload) := (f.hdr.id, f.p);
      if found != SkipElem { Deliver(path, l); } else { UnofferedElement(cfg, u, path); }
      Settles(cfg, v, u, View(), path, a);
      AtFieldStanding(cfg, v, path, l);
      DeliveredForward(cfg, u, View(), path, a);
      var more := FinishField(v, path, l, a, fieldStart, payload, fieldId);
      FieldKept(cfg, v, View(), path);
      if !more && f.refusal.None? { LevelFromField(cfg, v, View(), path); return false; }
      return true;
    }

    /** A level is entered: afresh, on the way down, or where its pending field is. */
    method EnterLevel(path: seq<Frame>, l: Level) returns (open: bool)
      requires Standing(cfg, View(), path, l) && pathSkip.Length > |path|
      requires !f.replay ==> Flowing(cfg, View(), path)
      requires f.replay ==> Replaying(cfg, View(), path) && |path| <= f.suspendDepth
      requires f.replay && |path| < f.suspendDepth && !pathSkip[..][|path|] ==> Owed(View()) == 0
      modifies this`f, this`m, pathId, pathSkip
      ensures FieldDone(cfg, old(View()), View(), path)
      ensures open == (f.refusal.None? && !f.incomplete)
      ensures path == [] && f.incomplete && f.refusal.None? ==> InField(m) && TopLive(m) == TopLive(old(m))
      decreases MAX_DEPTH - |path|, 8
    {
      hide Run, Good, LevelAt, GateOf, FieldDone, LevelDone, Standing, AtLevel, AtField, Flowing, Replaying, Resumable, Kept, Paid, Owed;
      ghost var v := View();
      StandingFacts(cfg, v, path, l);
      if !f.replay { FlowingCalm(cfg, v, path); }
      else if f.seqDepth == f.suspendDepth { ReachedLevel(cfg, v, path, l); }
      var e := LevelEntry();
      ghost var w := View();
      if e == Fresh { return true; }
      open := ReenterLevel(path, l, e);
      if e == Resume { FieldAfter(cfg, v, w, View(), path); }
    }

    /** The bytes ran out with this level still open: it is entered again with the next ones. */
    method CloseLevel(ghost v: Look, ghost path: seq<Frame>, ghost l: Level)
      requires path != [] && Standing(cfg, v, path, l) && (l.Live? ==> Owed(v) == 0) && FieldDone(cfg, v, View(), path)
      requires f.refusal.None? && !f.incomplete ==> f.p == f.end <= |f.win|
      modifies this`f
      ensures LevelDone(cfg, v, View(), path)
    {
      hide Run, Good, LevelAt, GateOf, FieldDone, LevelDone, Standing, AtLevel, AtField, Flowing, Replaying, Resumable, Kept, Paid, Owed;
      ghost var w := View();
      if f.refusal.None? && !f.incomplete {
        AtFieldAgain(cfg, v, w, path, l);
        LevelOpen(cfg, w, path, l);
        f := f.(incomplete := true, suspendDepth := f.seqDepth, pend := false, pendSkip := false);
        LevelChain(cfg, v, w, View(), path);
      } else {
        LevelFromField(cfg, v, w, path);
      }
    }

    /** A nested level: go back down to where it was left, or parse its fields to its end marker. */
    method DispatchLevel(path: seq<Frame>, l: Level)
      requires AtLevel(cfg, View(), path, l)
      modifies this`f, this`m, pathId, pathSkip
      ensures path != [] && LevelDone(cfg, old(View()), View(), path)
      decreases MAX_DEPTH - |path|, 9
    {
      hide Run, Good, LevelAt, GateOf, FieldDone, LevelDone, Standing, AtLevel, AtField, Flowing, Replaying, Resumable, Kept, Paid, Owed;
      ghost var v := View();
      LevelNow(cfg, v, path, l);
      StandingFacts(cfg, v, path, l);
      if f.replay { ReplayLive(cfg, v, path, l); }
      var open := EnterLevel(path, l);
      if !open {
        LevelFromField(cfg, v, View(), path);
        return;
      }
      FieldBounds(cfg, v, View(), path);
      while f.p < f.end && f.refusal.None? && !f.incomplete
        invariant FieldDone(cfg, v, View(), path) && f.end <= |f.win|
        invariant f.refusal.None? ==> !f.incomplete && f.p <= f.end
        decreases if f.refusal.None? then 1 + f.end - f.p else 0
      {
        ghost var w := View();
        AtFieldAgain(cfg, v, w, path, l);
        open := NextField(path, l);
        if !open {
          LevelChain(cfg, v, w, View(), path);
          return;
        }
        FieldChain(cfg, v, w, View(), path);
        if f.refusal.None? { FieldBounds(cfg, v, View(), path); }
      }
      CloseLevel(v, path, l);
    }

    // -------------------------------------------------------------- the top level

    /** The next top-level field, up to where its handler is asked. Its span begins here. */
    method BeginTopField() returns (begun: bool)
      requires TopAt(cfg, View()) && f.p < f.end <= |f.win|
      modifies this`f
      ensures !begun ==> TopDone(cfg, old(View()), View()) && (f.refusal.Some? || f.incomplete)
      ensures begun ==> TopBegun(cfg, old(View()), View())
    {
      hide Run, Good, LevelAt, ReadHeader, TopDone, TopAt;
      ghost var v := View();
      TopSeqDepth(cfg, v);
      var h := ParseFieldHeader(OPEN_GATE, f.win, f.p, f.end);
      f := f.(spanCarry := 0, spanBase := f.p, spanSkipped := 0);
      match h
      case CutHeader =>
        TopCut(cfg, v, f.hdr);
        f := f.(incomplete := true, suspendDepth := f.seqDepth, pend := false, pendSkip := false);
        begun := false;
      case BadHeader(why) =>
        TopBad(cfg, v, f.hdr, f.p);
        f := f.(refusal := Some(why));
        begun := false;
      case LevelEnd(_) =>
        TopBad(cfg, v, f.hdr, f.p);
        f := f.(refusal := Some(Invalid));
        begun := false;
      case FieldAt(header, n, _) =>
        HeaderSize(OPEN_GATE, Rest(f));
        f := f.(p := f.p + n, hdr := header, consumed := false, pendDone := 0, utf8 := ACCEPT);
        begun := true;
    }

    /** Offer a field that is over the cap with its payload withheld: refused by its schema, read
        (then the cap is this field's), or declined (then the cap never applied). */
    method OfferWithheld(ghost v: Look) returns (declined: bool)
      requires TopAt(cfg, v) && TopBegun(cfg, v, View()) && !f.capInert && SchemaBounds(f.hdr.wire)
      requires v.f.p <= f.p && Exceeds(cfg.cap, f.p - v.f.p, HeaderNeed(f.hdr))
      modifies this`f, this`m, this`goal, pathId, pathSkip
      ensures declined ==>
        && Skipping(cfg, View(), []) && TopKept(v, View()) && Standing(cfg, View(), [], Live(cfg.root))
        && f.refusal.None? && f.p == old(f.p) && f.hdr == old(f.hdr)
      ensures !declined ==> TopDone(cfg, v, View()) && f.refusal.Some?
    {
      hide Run, Good, LevelAt, GateOf, AnswerTo, ReadHeader, TopDone, TopAt, TopBegun, Posed, Delivered, Standing, Skipping, TopKept, Exceeds, HeaderNeed, Withheld, Offer, NextState;
      ghost var w := View();
      ghost var a := AnswerTo(Live(cfg.root), f.hdr);
      WithheldPosed(cfg, v, w);
      ghost var u := Withheld(cfg, v, w, a);
      WithheldView(cfg, v, w, a);
      var held := f.end;
      goal, m := u.goal, u.m;
      f := f.(end := f.p);
      Deliver([], Live(cfg.root));
      ghost var x := View();
      HeldEnd(cfg, v, w);
      if a.Decline? { OverCapDeclined(cfg, v, w, x, a); } else { OverCapEngages(cfg, v, w, x, a); }
      goal := v.goal;
      var engaged := f.incomplete || f.consumed || f.refusal.Some?;
      declined := !engaged;
      if f.refusal.Some? && f.refusal.value != Argument {
        f := f.(end := held, incomplete := false, pendDone := 0);
      } else if engaged {
        f := f.(end := held, incomplete := false, pendDone := 0, refusal := Some(Limit));
      } else {
        f := f.(end := held, incomplete := false, pendDone := 0);
        return;
      }
      OverCapDone(cfg, v, w, x, View(), a);
    }

    /** Step over a declined top-level field. */
    method SkipTopField(ghost v: Look, id: nat) returns (more: bool)
      requires Skipping(cfg, View(), []) && TopKept(v, View()) && Standing(cfg, View(), [], Live(cfg.root))
      requires f.refusal.None? && f.hdr.id == id
      modifies this`f, this`m, pathId, pathSkip
      ensures TopDone(cfg, v, View())
      ensures more == (f.refusal.None? && !f.incomplete) && (more ==> f.p >= old(f.p))
    {
      hide Run, Good, LevelAt, GateOf, TopDone, TopKept, Standing, Skipping, SkipDone;
      ghost var u := View();
      SkipPayload([], Live(cfg.root));
      TopSkipped(cfg, v, u, View(), id);
      if f.refusal.Some? { return false; }
      if f.incomplete {
        SkipStanding(cfg, u, View(), id);
        TopRecords(cfg, v, View(), id, true);
        SuspendHere([], id, true);
        return false;
      }
      return true;
    }

    /** Put a top-level field to its handler, and step over it if it was not wanted. */
    method OfferTopField(ghost v: Look) returns (more: bool)
      requires TopAt(cfg, v) && TopBegun(cfg, v, View()) && v.f.p <= f.p
      requires !Exceeds(cfg.cap, f.p - v.f.p, HeaderNeed(f.hdr))
      modifies this`f, this`m, pathId, pathSkip
      ensures TopDone(cfg, v, View())
      ensures more == (f.refusal.None? && !f.incomplete) && (more ==> f.p >= old(f.p))
    {
      hide Run, Good, LevelAt, GateOf, AnswerTo, TopDone, TopKept, TopAt, TopBegun, Standing, Skipping, Posed, Delivered, Exceeds, HeaderNeed, NextState, TopOffered, HeaderToll, TopOffer;
      ghost var w := View();
      ghost var a := AnswerTo(Live(cfg.root), f.hdr);
      TopPosed(cfg, v, w);
      m := NextState(FreshSpan(v.m), TopOffer(cfg, v, w), [], f.p - v.f.p, a);
      ghost var u := View();
      TopBegunState(cfg, v, w);
      var (id, payload) := (f.hdr.id, f.p);
      Deliver([], Live(cfg.root));
      TopOfferedFrom(cfg, v, u, View(), a, u.f.p - v.f.p);
      TopDelivered(cfg, v, u, View(), a);
      if f.refusal.Some? { return false; }
      DeliveredKept(cfg, u, View(), [], a);
      KeptStanding(cfg, u, View(), [], Live(cfg.root));
      StandingFacts(cfg, View(), [], Live(cfg.root));
      if f.incomplete {
        TopRecords(cfg, v, View(), id, false);
        SuspendHere([], id, false);
        return false;
      }
      if !f.consumed {
        more := SkipTopField(v, id);
      } else {
        more := true;
      }
    }

    /** One top-level field. */
    method NextTopField() returns (more: bool)
      requires TopAt(cfg, View()) && f.p < f.end <= |f.win|
      modifies this`f, this`m, this`goal, pathId, pathSkip
      ensures TopDone(cfg, old(View()), View())
      ensures more == (f.refusal.None? && !f.incomplete) && (more ==> f.p > old(f.p))
    {
      hide Run, Good, LevelAt, GateOf, TopDone, TopKept, TopAt, TopBegun, Standing, Skipping, Exceeds, HeaderNeed;
      ghost var v := View();
      var begun := BeginTopField();
      if !begun { return false; }
      ghost var w := View();
      TopBegunInert(cfg, v, w);
      var over := !f.capInert && Exceeds(cfg.cap, f.spanCarry + (f.p - f.spanBase), HeaderNeed(f.hdr));
      if over {
        if !SchemaBounds(f.hdr.wire) {
          TopOverPlain(cfg, v, w);
          f := f.(refusal := Some(Limit));
          return false;
        }
        var id := f.hdr.id;
        var declined := OfferWithheld(v);
        if !declined { return false; }
        more := SkipTopField(v, id);
      } else {
        more := OfferTopField(v);
      }
    }

    /** Deliver every top-level field the window holds. */
    method ParseTopLevel()
      requires Standing(cfg, View(), [], Live(cfg.root)) && (TopLive(m) ==> Owed(View()) == 0)
      requires !f.replay ==> Flowing(cfg, View(), [])
      requires f.replay ==> Replaying(cfg, View(), [])
      modifies this`f, this`m, this`goal, pathId, pathSkip
      ensures TopDone(cfg, old(View()), View())
      ensures f.refusal.None? && !f.incomplete ==> f.p == f.end
    {
      hide Run, Good, LevelAt, GateOf, TopDone, TopKept, TopAt, Standing, Flowing, Replaying, FieldDone, Owed;
      ghost var v := View();
      StandingFacts(cfg, v, [], Live(cfg.root));
      if f.replay {
        Reentry(cfg, v, []);
        if 0 < f.suspendDepth { DescendsSkip(cfg, v, []); }
      }
      var open := EnterLevel([], Live(cfg.root));
      TopEntered(cfg, v, View());
      if !open { return; }
      TopAgain(cfg, v, View());
      while f.p < f.end
        invariant TopDone(cfg, v, View()) && f.refusal.None? && !f.incomplete
        invariant TopAt(cfg, View()) && f.p <= f.end <= |f.win| && f.end == v.f.end
        decreases f.end - f.p
      {
        ghost var w := View();
        open := NextTopField();
        TopChain(cfg, v, w, View());
        if !open { return; }
        TopAgain(cfg, v, View());
      }
    }

    /** Is the cap out of the reach of a window of `n` bytes? */
    method HoistedCap(n: nat) returns (inert: bool)
      ensures inert ==> f.spanCarry + n + CAP_NEED_MAX <= cfg.cap
    {
      inert := f.spanCarry < U64_LIMIT && n < U64_LIMIT && CapCannotFire(cfg.cap, f.spanCarry, n);
      if inert { CapInertHolds(cfg.cap, f.spanCarry, n); }
    }

    /** Parse one window, resuming whatever the last one left open; what is not consumed is the
        start of a cut item. */
    method ParseWindow(s: seq<byte>) returns (used: nat)
      requires Resting(cfg, View())
      modifies this`f, this`m, this`goal, pathId, pathSkip
      ensures goal == Run(cfg, old(m), s)
      ensures f.refusal.Some? ==> Refused(View()) && goal.Failed?
      ensures f.refusal.None? ==>
        && used <= |s| && Resting(cfg, View()) && goal == Stuck(m, s[used..])
        && (if f.incomplete then f.suspendDepth >= 0 && (InField(m) || used < |s|) else used == |s| && f.suspendDepth == -1)
    {
      hide Run, Good, LevelAt, GateOf, TopDone, Standing, Flowing, Replaying, Resting, Owed, TopLive, Refused;
      ghost var v := View();
      var inert := HoistedCap(|s|);
      WindowOpens(cfg, v, s, inert);
      goal := Run(cfg, m, s);
      f := f.(win := s, p := 0, end := |s|, incomplete := false, replay := f.suspendDepth >= 0, spanBase := 0, capInert := inert);
      ghost var u := View();
      ParseTopLevel();
      WindowCloses(cfg, u, View());
      used := f.p;
      if f.refusal.None? {
        f := f.(replay := false, spanCarry := f.spanCarry + if f.incomplete then f.p - f.spanBase else 0);
      }
    }

    // -------------------------------------------------------------- feeding

    ghost predicate Valid()
      reads this, carry, pathId, pathSkip
    {
      && carry.Length == CARRY_CAP && carryLen <= CARRY_CAP
      && pathId.Length == MAX_DEPTH + 1 && pathSkip.Length == MAX_DEPTH + 1
      && if terminal.Some? then Latched(cfg, fed, terminal.value, f.dest)
         else Resting(cfg, View()) && Held(cfg, fed, m, carry[..carryLen]) && AtRest(f.suspendDepth, m, carryLen)
    }

    constructor (root: Node, cap: nat)
      ensures Valid() && fed == [] && cfg == Config(root, cap)
    {
      cfg := Config(root, cap);
      carry := new byte[CARRY_CAP](_ => 0);
      carryLen := 0;
      pathId := new nat[MAX_DEPTH + 1](_ => 0);
      pathSkip := new bool[MAX_DEPTH + 1](_ => false);
      terminal := None;
      f := START_FIELDS;
      m, fed := START, [];
      new;
      hide Run, Good;
      BeginsAtRest(cfg, View());
      assert carry[..0] == [];
    }

    /** Hold the bytes of a cut item until the next feed. */
    method Stash(s: seq<byte>)
      requires carry.Length == CARRY_CAP && |s| <= CARRY_CAP && carryLen == 0
      modifies this`carryLen, carry
      ensures carryLen == |s| && carry[..carryLen] == s
    {
      forall i | 0 <= i < |s| { carry[i] := s[i]; }
      carryLen := |s|;
    }

    /** The bytes `total` have been fed, and `st` is what there is to say about them. */
    ghost predicate Settled(total: seq<byte>, st: Status)
      reads this, carry, pathId, pathSkip
    {
      && carry.Length == CARRY_CAP && carryLen <= CARRY_CAP
      && pathId.Length == MAX_DEPTH + 1 && pathSkip.Length == MAX_DEPTH + 1
      && st == Verdict(Run(cfg, START, total)) && Agrees(f.dest, Run(cfg, START, total))
      && if terminal.Some? then Latched(cfg, total, terminal.value, f.dest)
         else Resting(cfg, View()) && Held(cfg, total, m, carry[..carryLen]) && AtRest(f.suspendDepth, m, carryLen)
    }

    /** Latch the refusal of this feed: it stays the answer. */
    method LatchTerminal(ghost total: seq<byte>) returns (st: Status)
      requires f.refusal.Some? && Refused(View()) && Run(cfg, START, total) == goal
      requires carry.Length == CARRY_CAP && carryLen <= CARRY_CAP
      requires pathId.Length == MAX_DEPTH + 1 && pathSkip.Length == MAX_DEPTH + 1
      modifies this`terminal
      ensures Settled(total, st)
    {
      hide Run, Good, LevelAt, Resting;
      terminal := f.refusal;
      st := Stopped(f.refusal.value);
    }

    /** Parse what is left of the chunk in place, and hold what its end has cut. */
    method FeedWindow(s: seq<byte>, ghost total: seq<byte>) returns (st: Status)
      requires Resting(cfg, View()) && terminal.None? && carryLen == 0 && carry.Length == CARRY_CAP
      requires pathId.Length == MAX_DEPTH + 1 && pathSkip.Length == MAX_DEPTH + 1
      requires Run(cfg, START, total) == Run(cfg, m, s)
      modifies this`f, this`m, this`goal, this`carryLen, this`terminal, carry, pathId, pathSkip
      ensures Settled(total, st)
    {
      hide Run, Good, LevelAt, Resting, Refused, Machine.Step;
      RestingHeld(cfg, View());
      RunGood(cfg, m, s);
      var used := ParseWindow(s);
      if f.refusal.Some? {
        st := LatchTerminal(total);
        return;
      }
      st := HoldRest(s[used..], total);
    }

    /** Hold what the end of a window has cut, and say where that leaves the message. */
    method HoldRest(rest: seq<byte>, ghost total: seq<byte>) returns (st: Status)
      requires Resting(cfg, View()) && terminal.None? && carryLen == 0 && carry.Length == CARRY_CAP && |rest| <= CARRY_CAP
      requires pathId.Length == MAX_DEPTH + 1 && pathSkip.Length == MAX_DEPTH + 1
      requires Run(cfg, START, total) == Stuck(m, rest)
      requires if f.incomplete then f.suspendDepth >= 0 && (InField(m) || rest != []) else rest == [] && f.suspendDepth == -1
      modifies this`carryLen, carry
      ensures Settled(total, st) && st == if f.incomplete || rest != [] then Incomplete else Complete
    {
      hide Run, Good, LevelAt, Resting;
      ghost var v := View();
      Stash(rest);
      assert View() == v;
      RestingHeld(cfg, v);
      RestingEnds(cfg, v, f.incomplete);
      st := if f.incomplete || carryLen > 0 then Incomplete else Complete;
    }

    /** Stitch the held bytes to the chunk in a window of the carry's size, then parse the rest of
        the chunk in place. */
    method FeedStitched(chunk: seq<byte>, ghost total: seq<byte>) returns (st: Status)
      requires Resting(cfg, View()) && terminal.None? && 0 < carryLen < CARRY_CAP && carry.Length == CARRY_CAP && chunk != []
      requires pathId.Length == MAX_DEPTH + 1 && pathSkip.Length == MAX_DEPTH + 1
      requires Machine.Step(cfg, m, carry[..carryLen]).Need?
      requires Run(cfg, START, total) == Run(cfg, m, carry[..carryLen] + chunk)
      modifies this`f, this`m, this`goal, this`carryLen, this`terminal, carry, pathId, pathSkip
      ensures Settled(total, st)
    {
      hide Run, Good, LevelAt, Resting, Refused, Machine.Step, Settled, AtRest, Agrees, Verdict, Latched;
      RestingHeld(cfg, View());
      var held := carryLen;
      var take := if CARRY_CAP - held <= |chunk| then CARRY_CAP - held else |chunk|;
      var stitch := carry[..held] + chunk[..take];
      ghost var (m0, kept) := (m, carry[..held]);
      StitchSplit(cfg, m, kept, chunk, take);
      carryLen := 0;
      var used := ParseWindow(stitch);
      if f.refusal.Some? {
        st := LatchTerminal(total);
        return;
      }
      Stitched(cfg, m0, kept, chunk[..take], m, stitch[used..]);
      StitchRest(kept, chunk, take, used);
      if used < held {
        if take < |chunk| { assert false; }
        StillCut(cfg, total, m, kept, chunk, stitch[used..]);
        var _ := HoldRest(stitch[used..], total);
        st := Incomplete;
      } else if used - held == |chunk| {
        RestingHeld(cfg, View());
        AtEnd(cfg, m);
        st := HoldRest(stitch[used..], total);
      } else {
        st := FeedWindow(chunk[used - held..], total);
      }
    }

    /** Feed a chunk. Whatever the chunks were so far, the verdict and the values are those of all
        their bytes in one piece. */
    method Feed(chunk: seq<byte>) returns (st: Status)
      requires Valid()
      modifies this`f, this`m, this`goal, this`fed, this`carryLen, this`terminal, carry, pathId, pathSkip
      ensures Valid() && fed == old(fed) + chunk
      ensures st == Verdict(Run(cfg, START, fed))
      ensures Agrees(f.dest, Run(cfg, START, fed))
      ensures old(terminal).Some? ==> f.dest == old(f.dest) && st == Stopped(old(terminal).value)
    {
      hide Run, Good, LevelAt, Resting;
      if terminal.Some? {
        LatchHolds(cfg, fed, chunk, terminal.value, f.dest);
        fed := fed + chunk;
        return Stopped(terminal.value);
      }
      RestingHeld(cfg, View());
      HeldBytes(cfg, fed, m, carry[..carryLen], chunk);
      if |chunk| == 0 {
        assert fed + chunk == fed;
        fed := fed + chunk;
        return if carryLen == 0 && f.suspendDepth < 0 then Complete else Incomplete;
      }
      ghost var rest := carry[..carryLen];
      if carryLen == 0 {
        assert rest + chunk == chunk;
        st := FeedWindow(chunk, fed + chunk);
      } else {
        st := FeedStitched(chunk, fed + chunk);
      }
      fed := fed + chunk;
    }

    /** Start a new message. The destination is a fresh one: it is the message's, not the decoder's. */
    method Reset()
      requires Valid()
      modifies this`f, this`m, this`fed, this`carryLen, this`terminal
      ensures Valid() && fed == []
    {
      hide Run, Good, Resting;
      f := START_FIELDS;
      carryLen := 0;
      terminal := None;
      m, fed := START, [];
      BeginsAtRest(cfg, View());
      assert carry[..0] == [];
    }
  }
}
