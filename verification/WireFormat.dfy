/** The wire format: field headers, the words between a header and its payload, and the
    format-wide ceilings. */
module WireFormat {
  import opened Varint

  const ID_MAX: nat := 0x7fffffff
  const FIXLEN_MAX: nat := 0x7fffffff
  const ARRAY_MAX: nat := 0x7fffffff
  const MAX_DEPTH: nat := 255

  datatype Option<+T> = None | Some(value: T)

  datatype Wire =
    | Unsigned | Signed | Fixlen | ArrayUnsigned | ArraySigned | ArrayFixlen | SequenceStart | SequenceEnd

  datatype Fix = Fp32 | Fp64 | String | Blob

  function WireCode(w: Wire): (c: nat)
    ensures c < 8
  {
    match w
    case Unsigned => 0
    case Signed => 1
    case Fixlen => 2
    case ArrayUnsigned => 3
    case ArraySigned => 4
    case ArrayFixlen => 5
    case SequenceStart => 6
    case SequenceEnd => 7
  }

  function WireOf(c: nat): (w: Wire)
    requires c < 8
    ensures WireCode(w) == c
  {
    match c
    case 0 => Unsigned
    case 1 => Signed
    case 2 => Fixlen
    case 3 => ArrayUnsigned
    case 4 => ArraySigned
    case 5 => ArrayFixlen
    case 6 => SequenceStart
    case 7 => SequenceEnd
  }

  function FixCode(f: Fix): (c: nat)
    ensures c < 4
  {
    match f
    case Fp32 => 0
    case Fp64 => 1
    case String => 2
    case Blob => 3
  }

  /** Subtypes 4 to 7 are reserved. */
  function FixOf(c: nat): (f: Option<Fix>)
    ensures f.Some? ==> FixCode(f.value) == c
    ensures f.None? ==> c >= 4
  {
    match c
    case 0 => Some(Fp32)
    case 1 => Some(Fp64)
    case 2 => Some(String)
    case 3 => Some(Blob)
    case _ => None
  }

  function FloatWidth(f: Fix): (n: nat)
  {
    if f == Fp32 then 4 else 8
  }

  function HeaderWord(id: nat, w: Wire): nat
  {
    id * 8 + WireCode(w)
  }

  function FixlenWord(len: nat, f: Fix): nat
  {
    len * 8 + FixCode(f)
  }

  /** What a field announces before its payload. `len` is the payload length of a fixlen
      field or the element width of a fixlen array; `fix` means nothing for other wires. */
  datatype Header = Header(id: nat, wire: Wire, fix: Fix, len: nat, count: nat)

  datatype Tag = CutTag | BadTag | TagIs(id: nat, wire: Wire, size: nat)

  datatype Meta = CutMeta | BadMeta | MetaIs(fix: Fix, len: nat, count: nat, size: nat)

  function ParseTag(s: seq<byte>): (t: Tag)
    ensures t.TagIs? ==> 1 <= t.size <= |s| && t.size <= 10 && t.id <= ID_MAX
    ensures t.CutTag? ==> |s| < 10
  {
    match Decode(s)
    case Cut => CutIsShort(s); CutTag
    case Overlong => BadTag
    case Got(v, n) => if v / 8 > ID_MAX then BadTag else TagIs(v / 8, WireOf(v % 8), n)
  }

  /** Is the subtype and length pair legal for a single fixlen field? */
  predicate FixlenWordValid(word: nat)
  {
    match FixOf(word % 8)
    case Some(Fp32) => word / 8 == 4
    case Some(Fp64) => word / 8 == 8
    case Some(_) => word / 8 <= FIXLEN_MAX
    case None => false
  }

  /** Only fixed-width subtypes may be the elements of a fixlen array. */
  predicate ArrayFixlenWordValid(word: nat)
  {
    match FixOf(word % 8)
    case Some(Fp32) => word / 8 == 4
    case Some(Fp64) => word / 8 == 8
    case _ => false
  }

  function ParseMeta(w: Wire, s: seq<byte>): (m: Meta)
    ensures m.MetaIs? ==> m.size <= |s| && m.size <= 20 && m.len <= FIXLEN_MAX && m.count <= ARRAY_MAX
    ensures m.CutMeta? ==> |s| < 20
  {
    match w
    case Fixlen =>
      (match Decode(s)
       case Cut => CutIsShort(s); CutMeta
       case Overlong => BadMeta
       case Got(v, n) => if FixlenWordValid(v) then MetaIs(FixOf(v % 8).value, v / 8, 0, n) else BadMeta)
    case ArrayUnsigned => ParseCount(s)
    case ArraySigned => ParseCount(s)
    case ArrayFixlen =>
      (match ParseCount(s)
       case CutMeta => CutMeta
       case BadMeta => BadMeta
       case MetaIs(_, _, count, n) =>
         match Decode(s[n..])
         case Cut => CutIsShort(s[n..]); CutMeta
         case Overlong => BadMeta
         case Got(v, k) => if ArrayFixlenWordValid(v) then MetaIs(FixOf(v % 8).value, v / 8, count, n + k) else BadMeta)
    case _ => MetaIs(Fp32, 0, 0, 0)
  }

  function ParseCount(s: seq<byte>): (m: Meta)
    ensures m.MetaIs? ==> 1 <= m.size <= |s| && m.size <= 10 && m.len == 0 && m.count <= ARRAY_MAX
    ensures m.CutMeta? ==> |s| < 10
  {
    match Decode(s)
    case Cut => CutIsShort(s); CutMeta
    case Overlong => BadMeta
    case Got(v, n) => if v > ARRAY_MAX then BadMeta else MetaIs(Fp32, 0, v, n)
  }

  lemma TagStable(s: seq<byte>, t: seq<byte>)
    ensures !ParseTag(s).CutTag? ==> ParseTag(s + t) == ParseTag(s)
  {
    DecodeStable(s, t);
  }

  lemma CountStable(s: seq<byte>, t: seq<byte>)
    ensures !ParseCount(s).CutMeta? ==> ParseCount(s + t) == ParseCount(s)
  {
    DecodeStable(s, t);
  }

  lemma MetaStable(w: Wire, s: seq<byte>, t: seq<byte>)
    ensures !ParseMeta(w, s).CutMeta? ==> ParseMeta(w, s + t) == ParseMeta(w, s)
  {
    DecodeStable(s, t);
    CountStable(s, t);
    var m := ParseCount(s);
    if w == ArrayFixlen && m.MetaIs? {
      assert (s + t)[m.size..] == s[m.size..] + t;
      DecodeStable(s[m.size..], t);
    }
  }

  lemma TagLocal(s: seq<byte>, m: nat)
    requires ParseTag(s).TagIs? && ParseTag(s).size <= m <= |s|
    ensures ParseTag(s[..m]) == ParseTag(s)
  {
    DecodeLocal(s, m);
  }

  lemma CountLocal(s: seq<byte>, m: nat)
    requires ParseCount(s).MetaIs? && ParseCount(s).size <= m <= |s|
    ensures ParseCount(s[..m]) == ParseCount(s)
  {
    DecodeLocal(s, m);
  }

  lemma MetaLocal(w: Wire, s: seq<byte>, m: nat)
    requires ParseMeta(w, s).MetaIs? && ParseMeta(w, s).size <= m <= |s|
    ensures ParseMeta(w, s[..m]) == ParseMeta(w, s)
  {
    hide Decode;
    if w == Fixlen {
      DecodeLocal(s, m);
    } else if w == ArrayUnsigned || w == ArraySigned {
      CountLocal(s, m);
    } else if w == ArrayFixlen {
      CountLocal(s, m);
      var n := ParseCount(s).size;
      assert s[..m][n..] == s[n..][..m - n];
      DecodeLocal(s[n..], m - n);
    }
  }
}
