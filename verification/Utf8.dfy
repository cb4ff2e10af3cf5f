/** UTF-8 validity three ways: the grammar of section 4 of RFC 3629, the transition
    table stepped byte by byte, and the validator that skips ASCII runs. */
module Utf8 {
  import opened Varint
  import opened VarintReaders

  const ACCEPT: nat := 0
  const REJECT: nat := 12

  // ---------------------------------------------------------------- the grammar

  predicate Tail(b: byte) { 0x80 <= b <= 0xBF }

  /** One encoded character: UTF8-1 to UTF8-4 of the grammar. */
  predicate Character(c: seq<byte>)
  {
    match |c|
    case 1 => c[0] <= 0x7F
    case 2 => 0xC2 <= c[0] <= 0xDF && Tail(c[1])
    case 3 =>
      || (c[0] == 0xE0 && 0xA0 <= c[1] <= 0xBF && Tail(c[2]))
      || (0xE1 <= c[0] <= 0xEC && Tail(c[1]) && Tail(c[2]))
      || (c[0] == 0xED && 0x80 <= c[1] <= 0x9F && Tail(c[2]))
      || (0xEE <= c[0] <= 0xEF && Tail(c[1]) && Tail(c[2]))
    case 4 =>
      || (c[0] == 0xF0 && 0x90 <= c[1] <= 0xBF && Tail(c[2]) && Tail(c[3]))
      || (0xF1 <= c[0] <= 0xF3 && Tail(c[1]) && Tail(c[2]) && Tail(c[3]))
      || (c[0] == 0xF4 && 0x80 <= c[1] <= 0x8F && Tail(c[2]) && Tail(c[3]))
    case _ => false
  }

  /** A string is a sequence of characters. */
  ghost predicate Utf8(s: seq<byte>)
    decreases |s|
  {
    s == [] || exists n :: 1 <= n <= |s| && Character(s[..n]) && Utf8(s[n..])
  }

  // ---------------------------------------------------------------- the automaton

  /** The first half of the table: a class for each octet. */
  function Class(b: byte): (c: nat)
    ensures c < 12
  {
    if b < 0x80 then 0
    else if b < 0x90 then 1
    else if b < 0xA0 then 9
    else if b < 0xC0 then 7
    else if b < 0xC2 then 8
    else if b < 0xE0 then 2
    else if b == 0xE0 then 10
    else if b < 0xED then 3
    else if b == 0xED then 4
    else if b < 0xF0 then 3
    else if b == 0xF0 then 11
    else if b < 0xF4 then 6
    else if b == 0xF4 then 5
    else 8
  }

  predicate IsState(q: nat)
  {
    q in {0, 12, 24, 36, 48, 60, 72, 84, 96}
  }

  /** The second half: one row of twelve per state. */
  function Row(q: nat): (row: seq<nat>)
    requires IsState(q)
    ensures |row| == 12
  {
    match q
    case 0 => [0, 12, 24, 36, 60, 96, 84, 12, 12, 12, 48, 72]
    case 12 => [12, 12, 12, 12, 12, 12, 12, 12, 12, 12, 12, 12]
    case 24 => [12, 0, 12, 12, 12, 12, 12, 0, 12, 0, 12, 12]
    case 36 => [12, 24, 12, 12, 12, 12, 12, 24, 12, 24, 12, 12]
    case 48 => [12, 12, 12, 12, 12, 12, 12, 24, 12, 12, 12, 12]
    case 60 => [12, 24, 12, 12, 12, 12, 12, 12, 12, 24, 12, 12]
    case 72 => [12, 12, 12, 12, 12, 12, 12, 36, 12, 36, 12, 12]
    case 84 => [12, 36, 12, 12, 12, 12, 12, 36, 12, 36, 12, 12]
    case 96 => [12, 36, 12, 12, 12, 12, 12, 12, 12, 12, 12, 12]
  }

  function StepByte(q: nat, b: byte): (r: nat)
    requires IsState(q)
    ensures IsState(r)
  {
    Row(q)[Class(b)]
  }

  /** The resumable validator: the state after some more bytes. */
  function Advance(q: nat, s: seq<byte>): (r: nat)
    requires IsState(q)
    ensures IsState(r)
    decreases |s|
  {
    if s == [] then q else Advance(StepByte(q, s[0]), s[1..])
  }

  method AdvanceState(q: nat, s: seq<byte>) returns (r: nat)
    requires IsState(q)
    ensures r == Advance(q, s)
  {
    r := q;
    for i := 0 to |s|
      invariant IsState(r) && Advance(r, s[i..]) == Advance(q, s)
    {
      r := StepByte(r, s[i]);
    }
  }

  /** Splitting a payload anywhere and carrying the state gives the whole payload's state. */
  lemma {:induction false} AdvanceSplit(q: nat, s: seq<byte>, t: seq<byte>)
    requires IsState(q)
    ensures Advance(q, s + t) == Advance(Advance(q, s), t)
    decreases |s|
  {
    if s == [] {
      assert s + t == t;
    } else {
      assert (s + t)[1..] == s[1..] + t;
      AdvanceSplit(StepByte(q, s[0]), s[1..], t);
    }
  }

  /** A rejected payload stays rejected. */
  lemma {:induction false} RejectAbsorbs(s: seq<byte>)
    ensures Advance(REJECT, s) == REJECT
    decreases |s|
  {
    if s != [] { RejectAbsorbs(s[1..]); }
  }

  // ---------------------------------------------------------------- grammar and automaton

  lemma AdvanceOne(q: nat, a: byte)
    requires IsState(q)
    ensures Advance(q, [a]) == StepByte(q, a)
  {
    assert [a][1..] == [];
  }

  lemma AdvanceTwo(q: nat, c: seq<byte>)
    requires IsState(q) && |c| == 2
    ensures Advance(q, c) == StepByte(StepByte(q, c[0]), c[1])
  {
    assert c[1..] == [c[1]];
    AdvanceOne(StepByte(q, c[0]), c[1]);
  }

  lemma AdvanceThree(q: nat, c: seq<byte>)
    requires IsState(q) && |c| == 3
    ensures Advance(q, c) == StepByte(StepByte(StepByte(q, c[0]), c[1]), c[2])
  {
    AdvanceTwo(StepByte(q, c[0]), c[1..]);
  }

  lemma AdvanceFour(q: nat, c: seq<byte>)
    requires IsState(q) && |c| == 4
    ensures Advance(q, c) == StepByte(StepByte(StepByte(StepByte(q, c[0]), c[1]), c[2]), c[3])
  {
    AdvanceThree(StepByte(q, c[0]), c[1..]);
  }

  /** How many bytes a lead byte announces; 0 when no character starts with it. */
  function LeadLength(b: byte): (n: nat)
    ensures n <= 4
  {
    if b <= 0x7F then 1
    else if 0xC2 <= b <= 0xDF then 2
    else if 0xE0 <= b <= 0xEF then 3
    else if 0xF0 <= b <= 0xF4 then 4
    else 0
  }

  lemma OneByte(c: seq<byte>)
    requires |c| == 1
    ensures Character(c) <==> StepByte(ACCEPT, c[0]) == ACCEPT
  {
  }

  lemma TwoBytes(c: seq<byte>)
    requires |c| == 2 && LeadLength(c[0]) == 2
    ensures var q1 := StepByte(ACCEPT, c[0]);
            q1 != ACCEPT && if Character(c) then StepByte(q1, c[1]) == ACCEPT else StepByte(q1, c[1]) == REJECT
  {
  }

  lemma ThreeBytes(c: seq<byte>)
    requires |c| == 3 && LeadLength(c[0]) == 3
    ensures var q1 := StepByte(ACCEPT, c[0]); var q2 := StepByte(q1, c[1]);
            && q1 != ACCEPT && q2 != ACCEPT
            && if Character(c) then StepByte(q2, c[2]) == ACCEPT else StepByte(q2, c[2]) == REJECT
  {
    var q1 := StepByte(ACCEPT, c[0]);
    assert q1 == 48 || q1 == 36 || q1 == 60;
    assert StepByte(q1, c[1]) == 24 || StepByte(q1, c[1]) == REJECT;
  }

  lemma FourBytes(c: seq<byte>)
    requires |c| == 4 && LeadLength(c[0]) == 4
    ensures var q1 := StepByte(ACCEPT, c[0]); var q2 := StepByte(q1, c[1]); var q3 := StepByte(q2, c[2]);
            && q1 != ACCEPT && q2 != ACCEPT && q3 != ACCEPT
            && if Character(c) then StepByte(q3, c[3]) == ACCEPT else StepByte(q3, c[3]) == REJECT
  {
    var q1 := StepByte(ACCEPT, c[0]);
    assert q1 == 72 || q1 == 84 || q1 == 96;
    var q2 := StepByte(q1, c[1]);
    assert q2 == 36 || q2 == REJECT;
    var q3 := StepByte(q2, c[2]);
    assert q3 == 24 || q3 == REJECT;
  }

  /** As many bytes as the lead announces are a character iff the automaton is back at ACCEPT. */
  lemma CharacterAccepts(c: seq<byte>)
    requires c != [] && |c| == LeadLength(c[0])
    ensures Advance(ACCEPT, c) == if Character(c) then ACCEPT else REJECT
  {
    match |c|
    case 1 => assert c == [c[0]]; AdvanceOne(ACCEPT, c[0]); OneByte(c);
    case 2 => AdvanceTwo(ACCEPT, c); TwoBytes(c);
    case 3 => AdvanceThree(ACCEPT, c); ThreeBytes(c);
    case 4 => AdvanceFour(ACCEPT, c); FourBytes(c);
  }

  lemma CharacterLength(c: seq<byte>)
    requires Character(c)
    ensures c != [] && |c| == LeadLength(c[0])
  {
  }

  lemma BadLead(b: byte)
    requires LeadLength(b) == 0
    ensures StepByte(ACCEPT, b) == REJECT
  {
  }

  lemma LeadStates(b: byte)
    requires LeadLength(b) >= 2
    ensures StepByte(ACCEPT, b) in {24, 36, 48, 60, 72, 84, 96}
    ensures LeadLength(b) >= 3 ==> StepByte(ACCEPT, b) in {36, 48, 60, 72, 84, 96}
    ensures LeadLength(b) == 4 ==> StepByte(ACCEPT, b) in {72, 84, 96}
  {
  }

  lemma SecondStates(q: nat, b: byte)
    requires q in {36, 48, 60, 72, 84, 96}
    ensures StepByte(q, b) in {24, 36, REJECT} && (q in {72, 84, 96} ==> StepByte(q, b) in {36, REJECT})
  {
  }

  lemma ThirdStates(q: nat, b: byte)
    requires q in {36, REJECT}
    ensures StepByte(q, b) in {24, REJECT}
  {
  }

  /** A character cut short is not accepted. */
  lemma ShortCharacter(c: seq<byte>)
    requires c != [] && |c| < LeadLength(c[0])
    ensures Advance(ACCEPT, c) != ACCEPT
  {
    LeadStates(c[0]);
    var q1 := StepByte(ACCEPT, c[0]);
    if |c| == 1 {
      assert c == [c[0]];
      AdvanceOne(ACCEPT, c[0]);
    } else if |c| == 2 {
      AdvanceTwo(ACCEPT, c);
      SecondStates(q1, c[1]);
    } else {
      AdvanceThree(ACCEPT, c);
      SecondStates(q1, c[1]);
      ThirdStates(StepByte(q1, c[1]), c[2]);
    }
  }

  /** The grammar and the automaton accept the same byte strings. */
  lemma {:induction false} GrammarIsAutomaton(s: seq<byte>)
    ensures Utf8(s) <==> Advance(ACCEPT, s) == ACCEPT
    decreases |s|
  {
    if s != [] {
      var n := LeadLength(s[0]);
      if n == 0 {
        BadLead(s[0]);
        RejectAbsorbs(s[1..]);
        NoCharacter(s);
      } else if |s| < n {
        ShortCharacter(s);
        NoCharacter(s);
      } else {
        assert s == s[..n] + s[n..];
        AdvanceSplit(ACCEPT, s[..n], s[n..]);
        CharacterAccepts(s[..n]);
        GrammarIsAutomaton(s[n..]);
        RejectAbsorbs(s[n..]);
        OnlyLeadLength(s, n);
      }
    }
  }

  lemma NoCharacter(s: seq<byte>)
    requires s != [] && (LeadLength(s[0]) == 0 || |s| < LeadLength(s[0]))
    ensures !Utf8(s)
  {
    forall n | 1 <= n <= |s| ensures !Character(s[..n]) {
      if Character(s[..n]) { CharacterLength(s[..n]); }
    }
  }

  lemma OnlyLeadLength(s: seq<byte>, n: nat)
    requires s != [] && n == LeadLength(s[0]) && 1 <= n <= |s|
    ensures Utf8(s) <==> Character(s[..n]) && Utf8(s[n..])
  {
    forall m | 1 <= m <= |s| && Character(s[..m]) ensures m == n {
      CharacterLength(s[..m]);
    }
  }

  // ---------------------------------------------------------------- the skipping validator

  lemma AsciiWordBits(w: bv64, w1: bv64, w2: bv64, w3: bv64, w4: bv64, w5: bv64, w6: bv64, w7: bv64)
    requires w1 == w >> 8 && w2 == w1 >> 8 && w3 == w2 >> 8 && w4 == w3 >> 8
    requires w5 == w4 >> 8 && w6 == w5 >> 8 && w7 == w6 >> 8
    ensures w & 0x8080808080808080 == 0 <==>
            w & 0x80 == 0 && w1 & 0x80 == 0 && w2 & 0x80 == 0 && w3 & 0x80 == 0 &&
            w4 & 0x80 == 0 && w5 & 0x80 == 0 && w6 & 0x80 == 0 && w7 & 0x80 == 0
  {
  }

  lemma AsciiLanes(w: bv64, s: seq<byte>)
    requires |s| == 8 && ByteView(w, s)
    ensures w & 0x8080808080808080 == 0 ==>
            s[0] < 128 && s[1] < 128 && s[2] < 128 && s[3] < 128 && s[4] < 128 && s[5] < 128 && s[6] < 128 && s[7] < 128
  {
    var w1 := w >> 8; UnfoldView(w, s);
    var w2 := w1 >> 8; UnfoldView(w1, s[1..]);
    var w3 := w2 >> 8; UnfoldView(w2, s[1..][1..]);
    var w4 := w3 >> 8; UnfoldView(w3, s[1..][1..][1..]);
    var w5 := w4 >> 8; UnfoldView(w4, s[1..][1..][1..][1..]);
    var w6 := w5 >> 8; UnfoldView(w5, s[1..][1..][1..][1..][1..]);
    var w7 := w6 >> 8; UnfoldView(w6, s[1..][1..][1..][1..][1..][1..]);
    UnfoldView(w7, s[1..][1..][1..][1..][1..][1..][1..]);
    AsciiWordBits(w, w1, w2, w3, w4, w5, w6, w7);
  }

  /** Eight ASCII bytes, tested as one word. */
  method AsciiWord(s: seq<byte>) returns (ascii: bool)
    requires |s| == 8
    ensures ascii ==> forall i :: 0 <= i < 8 ==> s[i] < 128
  {
    var w := Load64(s);
    assert s[..8] == s;
    AsciiLanes(w, s);
    ascii := w & 0x8080808080808080 == 0;
  }

  lemma {:induction false} AsciiKeepsAccept(s: seq<byte>)
    requires forall i :: 0 <= i < |s| ==> s[i] < 128
    ensures Advance(ACCEPT, s) == ACCEPT
    decreases |s|
  {
    if s != [] { AsciiKeepsAccept(s[1..]); }
  }

  lemma AsciiAdvance(s: seq<byte>, i: nat, j: nat)
    requires i <= j <= |s| && (forall k :: i <= k < j ==> s[k] < 128)
    requires Advance(ACCEPT, s[..i]) == ACCEPT
    ensures Advance(ACCEPT, s[..j]) == ACCEPT
  {
    assert s[..j] == s[..i] + s[i..j];
    AdvanceSplit(ACCEPT, s[..i], s[i..j]);
    AsciiKeepsAccept(s[i..j]);
  }

  /** Skip the ASCII run at `i`: whole words first, then single bytes. */
  method SkipAscii(s: seq<byte>, i: nat) returns (j: nat)
    requires i <= |s| && Advance(ACCEPT, s[..i]) == ACCEPT
    ensures i <= j <= |s| && Advance(ACCEPT, s[..j]) == ACCEPT
    ensures j == |s| || s[j] >= 128
  {
    j := i;
    while j + 8 <= |s|
      invariant i <= j <= |s| && Advance(ACCEPT, s[..j]) == ACCEPT
    {
      var ascii := AsciiWord(s[j..j + 8]);
      if !ascii { break; }
      assert forall k :: j <= k < j + 8 ==> s[k] == s[j..j + 8][k - j];
      AsciiAdvance(s, j, j + 8);
      j := j + 8;
    }
    while j < |s| && s[j] < 0x80
      invariant i <= j <= |s| && Advance(ACCEPT, s[..j]) == ACCEPT
    {
      AsciiAdvance(s, j, j + 1);
      j := j + 1;
    }
  }

  /** Step the automaton until it is back at ACCEPT, rejects or runs out of bytes. */
  method StepCharacter(s: seq<byte>, i: nat) returns (q: nat, j: nat)
    requires i < |s| && Advance(ACCEPT, s[..i]) == ACCEPT
    ensures IsState(q) && i < j <= |s| && q == Advance(ACCEPT, s[..j])
    ensures q == ACCEPT || q == REJECT || j == |s|
  {
    AdvanceNext(ACCEPT, s, i);
    q, j := StepByte(ACCEPT, s[i]), i + 1;
    while q != ACCEPT && q != REJECT && j < |s|
      invariant IsState(q) && i < j <= |s| && q == Advance(ACCEPT, s[..j])
    {
      AdvanceNext(ACCEPT, s, j);
      q := StepByte(q, s[j]);
      j := j + 1;
    }
  }

  lemma AdvanceNext(q: nat, s: seq<byte>, i: nat)
    requires IsState(q) && i < |s|
    ensures Advance(q, s[..i + 1]) == StepByte(Advance(q, s[..i]), s[i])
  {
    assert s[..i + 1] == s[..i] + [s[i]];
    AdvanceSplit(q, s[..i], [s[i]]);
    AdvanceOne(Advance(q, s[..i]), s[i]);
  }

  lemma RejectedPrefix(s: seq<byte>, i: nat)
    requires i <= |s| && Advance(ACCEPT, s[..i]) == REJECT
    ensures Advance(ACCEPT, s) == REJECT
  {
    assert s == s[..i] + s[i..];
    AdvanceSplit(ACCEPT, s[..i], s[i..]);
    RejectAbsorbs(s[i..]);
  }

  /** The validator accepts exactly the strings of the grammar. */
  method Utf8Valid(s: seq<byte>) returns (ok: bool)
    ensures ok <==> Utf8(s)
    ensures ok <==> Advance(ACCEPT, s) == ACCEPT
  {
    GrammarIsAutomaton(s);
    var i := 0;
    while i < |s|
      invariant 0 <= i <= |s| && Advance(ACCEPT, s[..i]) == ACCEPT
    {
      i := SkipAscii(s, i);
      assert s[..|s|] == s;
      if i >= |s| { return true; }
      var q, j := StepCharacter(s, i);
      if q == REJECT {
        RejectedPrefix(s, j);
        return false;
      }
      i := j;
      if q != ACCEPT { return false; }
    }
    assert s[..|s|] == s;
    return true;
  }

  // ---------------------------------------------------------------- the clamped prefix

  lemma StepAtTail(q: nat, b: byte)
    requires IsState(q) && q != REJECT && StepByte(q, b) != REJECT
    ensures Tail(b) <==> q != ACCEPT
  {
  }

  /** In a valid string, a proper prefix is valid iff it is not followed by a tail byte. */
  lemma BoundaryIsLead(s: seq<byte>, n: nat)
    requires Utf8(s) && n < |s|
    ensures Utf8(s[..n]) <==> !Tail(s[n])
  {
    GrammarIsAutomaton(s);
    GrammarIsAutomaton(s[..n]);
    var q := Advance(ACCEPT, s[..n]);
    AdvanceNext(ACCEPT, s, n);
    if q == REJECT { RejectedPrefix(s, n); }
    if StepByte(q, s[n]) == REJECT { RejectedPrefix(s, n + 1); }
    StepAtTail(q, s[n]);
  }

  /** Cut back while the first byte left out is a continuation byte. */
  method Utf8Prefix(s: seq<byte>, limit: nat) returns (n: nat)
    requires limit < |s|
    ensures n <= limit && (n > 0 ==> !Tail(s[n])) && forall m :: n < m <= limit ==> Tail(s[m])
  {
    n := limit;
    while n > 0 && Tail(s[n])
      invariant n <= limit && forall m :: n < m <= limit ==> Tail(s[m])
    {
      n := n - 1;
    }
  }

  /** Where a value is cut to fit: its longest prefix that fits and ends on a character boundary. */
  method ClampLength(s: seq<byte>, capacity: nat) returns (n: nat)
    ensures n <= capacity && n <= |s|
    ensures |s| <= capacity ==> n == |s|
    ensures Utf8(s) ==> Utf8(s[..n]) && forall m :: n < m <= capacity && m <= |s| ==> !Utf8(s[..m])
  {
    if |s| <= capacity {
      assert s[..|s|] == s;
      return |s|;
    }
    n := Utf8Prefix(s, capacity);
    if Utf8(s) {
      if n > 0 { BoundaryIsLead(s, n); }
      forall m | n < m <= capacity ensures !Utf8(s[..m]) { BoundaryIsLead(s, m); }
    }
  }
}
