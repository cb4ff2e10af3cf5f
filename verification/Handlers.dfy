/** What a message handler does with a field, as a finite schema: which typed read each
    field id gets, under which bound and into how much room. Everything here is decided
    from a field's header alone. */
module Handlers {
  import opened Varint
  import opened WireFormat

  /** The three refusal tiers: malformed or schema-breaking bytes, a receiver cap, a
      destination (or a call) that cannot take a well-formed value. */
  datatype Refusal = Invalid | Limit | Argument

  /** A declared `maxlen` or `count`, or the receiver's cap where the schema states none.
      A negative number is a call that stated no bound at all. */
  datatype Bound = Declared(max: int) | Capped(max: int)

  datatype Elem = UnsignedElem | SignedElem | BoolElem | Fp32Elem | Fp64Elem

  /** The value range of a declared element type. */
  datatype Range = Unarmed | Within(lo: int, hi: int)

  datatype Read =
    | ReadUnsigned
    | ReadSigned
    | ReadBool
    | ReadFloat(fix: Fix)
    | ReadText(isString: bool, bound: Bound, room: nat)                 // readString / readBlob, static capacity
    | ReadRaw(room: nat)                                                // read(void*, maxlen)
    | ReadArray(elem: Elem, bound: Bound, range: Range, room: nat)      // readArray, static capacity
    | ReadSpan(elem: Elem, extent: nat)                                 // read(span)
    | ReadMessage(node: Node)

  datatype Node =
    | Struct(fields: map<nat, Read>)
    | TextSeq(isString: bool, cap: int, maxlen: int, dynCap: int, elemDynCap: int, destCap: int, room: nat)
    | RowSeq(cap: int, dynCap: int, destCap: int, row: Read)

  /** A level of the decode: a handler, or a subtree nobody asked for. */
  datatype Level = Live(node: Node) | Skipped

  /** A handler's answer to a field. `placed` tells that a wrapper array was extended first. */
  datatype Answer =
    | Decline(placed: bool)
    | Refuse(why: Refusal, placed: bool)
    | Take(read: Read, placed: bool)

  function ElemWire(e: Elem): Wire
  {
    match e
    case UnsignedElem => ArrayUnsigned
    case SignedElem => ArraySigned
    case BoolElem => ArrayUnsigned
    case Fp32Elem => ArrayFixlen
    case Fp64Elem => ArrayFixlen
  }

  function TextFix(isString: bool): Fix
  {
    if isString then String else Blob
  }

  predicate ElemMatches(e: Elem, h: Header)
  {
    && h.wire == ElemWire(e)
    && (e == Fp32Elem ==> h.fix == Fp32)
    && (e == Fp64Elem ==> h.fix == Fp64)
  }

  /** The tag a typed read declares against the tag a field carries. */
  predicate TagMatches(r: Read, h: Header)
  {
    match r
    case ReadUnsigned => h.wire == Unsigned
    case ReadSigned => h.wire == Signed
    case ReadBool => h.wire == Unsigned
    case ReadFloat(f) => h.wire == Fixlen && h.fix == f && (f == Fp32 || f == Fp64)
    case ReadText(isString, _, _) => h.wire == Fixlen && h.fix == TextFix(isString)
    case ReadRaw(_) => h.wire == Fixlen && h.fix == Blob
    case ReadArray(e, _, _, _) => ElemMatches(e, h)
    case ReadSpan(e, _) => ElemMatches(e, h)
    case ReadMessage(_) => h.wire == SequenceStart
  }

  /** The bound, then the destination's own room, in the order of the tiers. */
  function Admit(bound: Bound, room: nat, size: nat): Option<Refusal>
  {
    if size > bound.max then Some(if bound.Declared? then Invalid else Limit)
    else if size > room then Some(Argument)
    else None
  }

  /** A typed read's decisions, in the order it takes them: a missing bound, the tag, the
      schema bound or the receiver cap, the destination's room. */
  function Ask(r: Read, h: Header, placed: bool): Answer
  {
    if (r.ReadText? || r.ReadArray?) && r.bound.max < 0 then Refuse(Argument, placed)
    else if !TagMatches(r, h) then Decline(placed)
    else
      match r
      case ReadText(_, bound, room) =>
        var a := Admit(bound, room, h.len);
        if a.Some? then Refuse(a.value, placed) else Take(r, placed)
      case ReadArray(_, bound, _, room) =>
        var a := Admit(bound, room, h.count);
        if a.Some? then Refuse(a.value, placed) else Take(r, placed)
      case _ => Take(r, placed)
  }

  /** Admit a wrapper-array index before the container it indexes into is extended. */
  function IndexRefusal(id: nat, cap: int, dynCap: int, destCap: int): Option<Refusal>
  {
    if cap < 0 && dynCap < 0 && destCap < 0 then Some(Argument)
    else if cap >= 0 && id >= cap then Some(Invalid)
    else if cap < 0 && dynCap >= 0 && id >= dynCap then Some(Limit)
    else if destCap >= 0 && id >= destCap then Some(Argument)
    else None
  }

  function ElementBound(maxlen: int, elemDynCap: int): Bound
  {
    if maxlen >= 0 then Declared(maxlen) else Capped(elemDynCap)
  }

  function RowWire(row: Read): Wire
  {
    match row
    case ReadUnsigned => Unsigned
    case ReadSigned => Signed
    case ReadBool => Unsigned
    case ReadFloat(_) => Fixlen
    case ReadText(_, _, _) => Fixlen
    case ReadRaw(_) => Fixlen
    case ReadArray(e, _, _, _) => ElemWire(e)
    case ReadSpan(e, _) => ElemWire(e)
    case ReadMessage(_) => SequenceStart
  }

  /** What the handler of a level does with a field. */
  function AnswerTo(l: Level, h: Header): Answer
  {
    match l
    case Skipped => Decline(false)
    case Live(Struct(fields)) => if h.id in fields then Ask(fields[h.id], h, false) else Decline(false)
    case Live(TextSeq(isString, cap, maxlen, dynCap, elemDynCap, destCap, room)) =>
      var bound := ElementBound(maxlen, elemDynCap);
      if bound.max < 0 then Refuse(Argument, false)
      else if h.wire != Fixlen || h.fix != TextFix(isString) then Decline(false)
      else if h.len > bound.max then Refuse(if bound.Declared? then Invalid else Limit, false)
      else
        var refusal := IndexRefusal(h.id, cap, dynCap, destCap);
        if refusal.Some? then Refuse(refusal.value, false)
        else Ask(ReadText(isString, bound, room), h, true)
    case Live(RowSeq(cap, dynCap, destCap, row)) =>
      if h.wire != RowWire(row) then Decline(false)
      else
        var refusal := IndexRefusal(h.id, cap, dynCap, destCap);
        if refusal.Some? then Refuse(refusal.value, false) else Ask(row, h, true)
  }

  /** The element-index bounds a wrapper level arms on the stream, and the tag its elements carry. */
  datatype Gate = Gate(bound: int, schema: int, dyn: int, dest: int, wire: Option<Wire>, fix: Option<Fix>)

  const OPEN_GATE := Gate(-1, -1, -1, -1, None, None)

  function Tightest(a: int, b: int): int
  {
    if a < 0 then b else if b < 0 then a else if a < b then a else b
  }

  function ArmGate(cap: int, dynCap: int, destCap: int, w: Wire, f: Option<Fix>): Gate
  {
    var dyn := if cap >= 0 then -1 else dynCap;
    Gate(Tightest(cap, Tightest(dyn, destCap)), cap, dyn, destCap, Some(w), f)
  }

  function GateOf(l: Level): Gate
  {
    match l
    case Live(TextSeq(isString, cap, _, dynCap, _, destCap, _)) =>
      ArmGate(cap, dynCap, destCap, Fixlen, Some(TextFix(isString)))
    case Live(RowSeq(cap, dynCap, destCap, row)) => ArmGate(cap, dynCap, destCap, RowWire(row), None)
    case _ => OPEN_GATE
  }

  /** Which tier an over-index element falls in. */
  function IndexTier(g: Gate, id: nat): Refusal
  {
    if g.schema >= 0 && id >= g.schema then Invalid
    else if g.dyn >= 0 && id >= g.dyn then Limit
    else Argument
  }

  datatype HeaderRead =
    | CutHeader
    | BadHeader(why: Refusal)
    | LevelEnd(size: nat)
    | FieldAt(header: Header, size: nat, notElement: bool)

  /** Read a field's header under the index gate of the level it stands in. The gate speaks
      at the tag, or for fixlen elements at the fixlen word, before any payload. */
  function ReadHeader(g: Gate, s: seq<byte>): (r: HeaderRead)
    ensures r.LevelEnd? ==> 1 <= r.size <= |s| && r.size <= 10
    ensures r.FieldAt? ==> 1 <= r.size <= |s| && r.size <= 30 && r.header.wire != SequenceEnd
    ensures r.CutHeader? ==> |s| < 30
  {
    match ParseTag(s)
    case CutTag => CutHeader
    case BadTag => BadHeader(Invalid)
    case TagIs(id, w, n) =>
      var over := g.bound >= 0 && g.wire.Some? && w != SequenceEnd && id >= g.bound;
      if over && g.wire == Some(w) && w != Fixlen then BadHeader(IndexTier(g, id))
      else if w == SequenceEnd then LevelEnd(n)
      else
        match ParseMeta(w, s[n..])
        case CutMeta => CutHeader
        case BadMeta => BadHeader(Invalid)
        case MetaIs(f, len, count, k) =>
          if over && g.wire == Some(w) && (g.fix.None? || g.fix == Some(f)) then BadHeader(IndexTier(g, id))
          else FieldAt(Header(id, w, f, len, count), n + k, over)
  }

  /** Reading a header, number by number: an id above 2^31 - 1 is malformed, tag 7 ends the level, tags 0, 1
      and 6 say all there is to say, 2 is followed by a length over a subtype, 3 and 4 by a count, 5 by both. */
  lemma HeaderTable(b: seq<byte>, v: u64, n: nat)
    requires Decode(b) == Got(v, n)
    ensures var (r, id) := (ReadHeader(OPEN_GATE, b), v / 8);
            && (id > 0x7fff_ffff <==> ParseTag(b) == BadTag) && (id > 0x7fff_ffff ==> r == BadHeader(Invalid))
            && (id <= 0x7fff_ffff ==>
                  && (v % 8 == 0 ==> r == FieldAt(Header(id, Unsigned, Fp32, 0, 0), n, false))
                  && (v % 8 == 1 ==> r == FieldAt(Header(id, Signed, Fp32, 0, 0), n, false))
                  && (v % 8 == 6 ==> r == FieldAt(Header(id, SequenceStart, Fp32, 0, 0), n, false))
                  && (v % 8 == 7 ==> r == LevelEnd(n)))
  {
    hide Decode;
  }

  lemma FixlenTable(b: seq<byte>, v: u64, n: nat, w: u64, k: nat)
    requires Decode(b) == Got(v, n) && v % 8 == 2 && v / 8 <= 0x7fff_ffff && Decode(b[n..]) == Got(w, k)
    ensures var (r, id, len) := (ReadHeader(OPEN_GATE, b), v / 8, w / 8);
            && (w % 8 == 0 ==> r == if len == 4 then FieldAt(Header(id, Fixlen, Fp32, 4, 0), n + k, false) else BadHeader(Invalid))
            && (w % 8 == 1 ==> r == if len == 8 then FieldAt(Header(id, Fixlen, Fp64, 8, 0), n + k, false) else BadHeader(Invalid))
            && (w % 8 == 2 ==> r == if len <= 0x7fff_ffff then FieldAt(Header(id, Fixlen, String, len, 0), n + k, false) else BadHeader(Invalid))
            && (w % 8 == 3 ==> r == if len <= 0x7fff_ffff then FieldAt(Header(id, Fixlen, Blob, len, 0), n + k, false) else BadHeader(Invalid))
            && (w % 8 >= 4 ==> r == BadHeader(Invalid))
  {
    hide Decode;
  }

  lemma ArrayTable(b: seq<byte>, v: u64, n: nat, count: u64, k: nat)
    requires Decode(b) == Got(v, n) && 3 <= v % 8 <= 5 && v / 8 <= 0x7fff_ffff && Decode(b[n..]) == Got(count, k)
    ensures var (r, id) := (ReadHeader(OPEN_GATE, b), v / 8);
            && (count > 0x7fff_ffff ==> r == BadHeader(Invalid))
            && (count <= 0x7fff_ffff ==>
                  && (v % 8 == 3 ==> r == FieldAt(Header(id, ArrayUnsigned, Fp32, 0, count), n + k, false))
                  && (v % 8 == 4 ==> r == FieldAt(Header(id, ArraySigned, Fp32, 0, count), n + k, false)))
  {
    hide Decode;
  }

  /** The elements of a fixlen array are floats or doubles, and nothing else. */
  lemma FloatArrayTable(b: seq<byte>, v: u64, n: nat, count: u64, k: nat, w: u64, m: nat)
    requires Decode(b) == Got(v, n) && v % 8 == 5 && v / 8 <= 0x7fff_ffff && Decode(b[n..]) == Got(count, k)
    requires count <= 0x7fff_ffff && Decode(b[n..][k..]) == Got(w, m)
    ensures ReadHeader(OPEN_GATE, b)
            == if w == 32 then FieldAt(Header(v / 8, ArrayFixlen, Fp32, 4, count), n + (k + m), false)
               else if w == 65 then FieldAt(Header(v / 8, ArrayFixlen, Fp64, 8, count), n + (k + m), false)
               else BadHeader(Invalid)
  {
    hide Decode;
  }

  lemma HeaderStable(g: Gate, s: seq<byte>, t: seq<byte>)
    ensures !ReadHeader(g, s).CutHeader? ==> ReadHeader(g, s + t) == ReadHeader(g, s)
  {
    TagStable(s, t);
    var tag := ParseTag(s);
    if tag.TagIs? {
      assert (s + t)[tag.size..] == s[tag.size..] + t;
      MetaStable(tag.wire, s[tag.size..], t);
    }
  }

  lemma HeaderLocal(g: Gate, s: seq<byte>)
    ensures var r := ReadHeader(g, s);
            r.LevelEnd? || r.FieldAt? ==> ReadHeader(g, s[..r.size]) == r
  {
    hide ParseTag, ParseMeta, IndexTier;
    var r := ReadHeader(g, s);
    if r.LevelEnd? || r.FieldAt? {
      TagLocal(s, r.size);
      if r.FieldAt? {
        var n := ParseTag(s).size;
        assert s[..r.size][n..] == s[n..][..r.size - n];
        MetaLocal(r.header.wire, s[n..], r.size - n);
      }
    }
  }

  /** The fast gate fires exactly when one of the armed bounds is crossed, and the tier it
      reports is the one the collector's own admission reports. */
  lemma GateIsAdmission(cap: int, dynCap: int, destCap: int, w: Wire, f: Option<Fix>, id: nat)
    requires cap >= 0 || dynCap >= 0 || destCap >= 0
    ensures var g := ArmGate(cap, dynCap, destCap, w, f);
            var refusal := IndexRefusal(id, cap, dynCap, destCap);
            && (refusal.Some? <==> g.bound >= 0 && id >= g.bound)
            && (refusal.Some? ==> refusal.value == IndexTier(g, id))
  {
  }
}
