/** Destinations the decode sizes: they grow with what has arrived for their field, are never ahead of
    it, and in the end hold all of it, however it was divided. */
module Growing {
  import opened Varint
  import opened WireFormat
  import opened Handlers
  import opened Destination
  import opened Utf8
  import opened Machine
  import opened Progress
  import opened Parser
  import opened Containers
  import Verdicts

  // ---------------------------------------------------------------- a growable array

  /** The least an element takes on the wire. */
  function Width(e: Elem): (w: nat)
    ensures w == 1 || w == 4 || w == 8
  {
    if IsFloat(e) then ElemWidth(e) else 1
  }

  /** `arrayReach`: how far into an array a delivery can get. */
  function Reach(count: nat, progress: nat, readable: nat, width: nat): (n: nat)
    requires width > 0
    ensures n <= count
  {
    Min(count, progress + readable / width)
  }

  /** The element at the head of the bytes. */
  datatype Element = CutElement | BadElement | ElementIs(value: Value, size: nat)

  function NextElement(e: Elem, range: Range, b: seq<byte>): (r: Element)
    ensures r.ElementIs? ==> Width(e) <= r.size <= |b|
  {
    if IsFloat(e) then
      if |b| < ElemWidth(e) then CutElement else ElementIs(Bits(b[..ElemWidth(e)]), ElemWidth(e))
    else
      match Decode(b)
      case Cut => CutElement
      case Overlong => BadElement
      case Got(raw, n) => if InRange(e, range, raw) then ElementIs(IntValue(e, raw), n) else BadElement
  }

  /** The elements at the head of the bytes, at most `n` of them, and whether a bad one stopped them. */
  datatype Elements = Elements(values: seq<Value>, size: nat, bad: bool)

  function Decoded(e: Elem, range: Range, n: nat, b: seq<byte>): (r: Elements)
    ensures |r.values| <= n && r.size <= |b|
    ensures r.bad ==> |r.values| < n
    decreases n
  {
    if n == 0 then Elements([], 0, false)
    else
      match NextElement(e, range, b)
      case CutElement => Elements([], 0, false)
      case BadElement => Elements([], 0, true)
      case ElementIs(v, k) => Before(v, k, Decoded(e, range, n - 1, b[k..]))
  }

  function Before(v: Value, k: nat, r: Elements): Elements
  {
    Elements([v] + r.values, k + r.size, r.bad)
  }

  function Joint(a: Elements, b: Elements): Elements
  {
    Elements(a.values + b.values, a.size + b.size, b.bad)
  }

  lemma DecodedOn(e: Elem, range: Range, n: nat, b: seq<byte>)
    ensures var x := NextElement(e, range, b);
            Decoded(e, range, n, b)
            == if n > 0 && x.ElementIs? then Before(x.value, x.size, Decoded(e, range, n - 1, b[x.size..])) else Elements([], 0, n > 0 && x.BadElement?)
  {
    hide NextElement;
  }

  /** An element is what it is whatever follows. */
  lemma ElementStable(e: Elem, range: Range, a: seq<byte>, b: seq<byte>)
    ensures !NextElement(e, range, a).CutElement? ==> NextElement(e, range, a + b) == NextElement(e, range, a)
  {
    if IsFloat(e) {
      if |a| >= ElemWidth(e) { assert (a + b)[..ElemWidth(e)] == a[..ElemWidth(e)]; }
    } else {
      DecodeStable(a, b);
    }
    hide Decode, InRange, IntValue;
  }

  /** What a second delivery decodes, after the bytes the first left over, is what one delivery of
      everything would have decoded further. */
  lemma {:induction false} DecodedSplit(e: Elem, range: Range, n: nat, a: seq<byte>, b: seq<byte>)
    ensures var r := Decoded(e, range, n, a);
            Decoded(e, range, n, a + b) == if r.bad then r else Joint(r, Decoded(e, range, n - |r.values|, a[r.size..] + b))
    decreases n
  {
    hide NextElement, Decoded;
    var x := NextElement(e, range, a);
    DecodedOn(e, range, n, a);
    if n > 0 && x.ElementIs? {
      ElementStable(e, range, a, b);
      DecodedOn(e, range, n, a + b);
      DropOver(a, x.size, b);
      DecodedSplit(e, range, n - 1, a[x.size..], b);
      var r := Decoded(e, range, n - 1, a[x.size..]);
      Dropped(a, x.size, r.size);
      if !r.bad { JointBefore(x.value, x.size, r, Decoded(e, range, n - 1 - |r.values|, a[x.size..][r.size..] + b)); }
    } else {
      assert a[0..] + b == a + b;
      if n > 0 && x.BadElement? {
        ElementStable(e, range, a, b);
        DecodedOn(e, range, n, a + b);
      } else {
        NothingJoint(Decoded(e, range, n, a + b));
      }
    }
  }

  lemma JointBefore(v: Value, k: nat, a: Elements, b: Elements)
    ensures Before(v, k, Joint(a, b)) == Joint(Before(v, k, a), b)
  {
    Linked(v, a.values, b.values);
  }

  lemma NothingJoint(r: Elements)
    ensures Joint(Elements([], 0, false), r) == r
  {
    assert [] + r.values == r.values;
  }

  /** Delivery after delivery, each with what the last one left over in front. */
  function Deliveries(e: Elem, range: Range, n: nat, carry: seq<byte>, chunks: seq<seq<byte>>): Elements
    decreases |chunks|
  {
    if chunks == [] then Elements([], 0, false)
    else
      var r := Decoded(e, range, n, carry + chunks[0]);
      if r.bad then r else Joint(r, Deliveries(e, range, n - |r.values|, (carry + chunks[0])[r.size..], chunks[1..]))
  }

  /** However the bytes of a field were divided, and whatever was carried over from one delivery to the
      next, its elements are those one delivery of all of it decodes, and it is bad just when that is. */
  lemma {:induction false} DeliveriesAddUp(e: Elem, range: Range, n: nat, carry: seq<byte>, chunks: seq<seq<byte>>)
    requires chunks != []
    ensures Deliveries(e, range, n, carry, chunks) == Decoded(e, range, n, carry + Verdicts.Concat(chunks))
    decreases |chunks|
  {
    hide Decoded;
    var (c, more) := (chunks[0], chunks[1..]);
    assert carry + Verdicts.Concat(chunks) == carry + c + Verdicts.Concat(more);
    DecodedSplit(e, range, n, carry + c, Verdicts.Concat(more));
    var r := Decoded(e, range, n, carry + c);
    if more == [] {
      assert carry + c + Verdicts.Concat(more) == carry + c;
      JointNothing(r);
    } else if !r.bad {
      DeliveriesAddUp(e, range, n - |r.values|, (carry + c)[r.size..], more);
    }
  }

  lemma JointNothing(r: Elements)
    ensures !r.bad ==> Joint(r, Elements([], 0, false)) == r
  {
    assert r.values + [] == r.values;
  }

  lemma Appended<T>(a: seq<T>, x: T, b: seq<T>)
    ensures a + ([x] + b) == a + [x] + b
  {
  }

  lemma Linked<T>(x: T, a: seq<T>, b: seq<T>)
    ensures [x] + (a + b) == [x] + a + b
  {
  }

  lemma DropOver<T>(a: seq<T>, k: nat, b: seq<T>)
    requires k <= |a|
    ensures (a + b)[k..] == a[k..] + b
  {
  }

  lemma Updated<T>(s: seq<T>, i: nat, x: T)
    requires i < |s|
    ensures s[i := x][..i + 1] == s[..i] + [x]
  {
  }

  lemma Dropped<T>(s: seq<T>, i: nat, k: nat)
    requires i + k <= |s|
    ensures s[i..][k..] == s[i + k..]
  {
  }

  lemma JointOn(a: Elements, v: Value, k: nat, b: Elements)
    ensures Joint(a, Before(v, k, b)) == Joint(Elements(a.values + [v], a.size + k, false), b)
  {
    Appended(a.values, v, b.values);
  }

  /** Every element takes its width at least. */
  lemma {:induction false} DecodedWide(e: Elem, range: Range, n: nat, b: seq<byte>)
    ensures var r := Decoded(e, range, n, b); |r.values| <= r.size / Width(e)
    decreases n
  {
    hide NextElement, Decoded;
    DecodedOn(e, range, n, b);
    var x := NextElement(e, range, b);
    if n > 0 && x.ElementIs? {
      DecodedWide(e, range, n - 1, b[x.size..]);
      ReachAdds(Width(e), |Decoded(e, range, n - 1, b[x.size..]).values|, Decoded(e, range, n - 1, b[x.size..]).size, x.size);
      ReachMore(Width(e), Width(e), x.size);
    }
  }

  lemma ReachAdds(w: nat, m: nat, size: nat, more: nat)
    requires (w == 1 || w == 4 || w == 8) && m <= size / w
    ensures m + more / w <= (size + more) / w
  {
  }

  lemma ReachMore(w: nat, a: nat, b: nat)
    requires (w == 1 || w == 4 || w == 8) && a <= b
    ensures a / w <= b / w
  {
  }

  /** A delivery of what was left over and more goes on where the last one stopped. */
  lemma Continues(e: Elem, range: Range, n: nat, before: seq<byte>, b: seq<byte>)
    requires !Decoded(e, range, n, before).bad && before[Decoded(e, range, n, before).size..] <= b
    ensures var r := Decoded(e, range, n, before);
            && Decoded(e, range, n, before[..r.size] + b) == Joint(r, Decoded(e, range, n - |r.values|, b))
            && |before| <= r.size + |b| && |r.values| <= r.size / Width(e)
  {
    hide Decoded;
    DecodedWide(e, range, n, before);
    var used := Decoded(e, range, n, before).size;
    var more := b[|before| - used..];
    assert before[..used] + b == before + more && before[used..] + more == b;
    DecodedSplit(e, range, n, before, more);
  }

  lemma FitsReach(e: Elem, count: nat, progress: nat, used: nat, readable: nat, before: nat)
    requires progress <= used / Width(e) && before <= used + readable
    ensures Reach(count, progress, readable, Width(e)) <= Min(count, (used + readable) / Width(e))
    ensures before / Width(e) <= (used + readable) / Width(e)
  {
    ReachAdds(Width(e), progress, used, readable);
    ReachMore(Width(e), before, used + readable);
  }

  lemma DecodedFits(e: Elem, range: Range, n: nat, b: seq<byte>)
    ensures |Decoded(e, range, n, b).values| <= |b| / Width(e)
  {
    hide Decoded;
    DecodedWide(e, range, n, b);
    ReachMore(Width(e), Decoded(e, range, n, b).size, |b|);
  }

  lemma ConcatNext(chunks: seq<seq<byte>>, i: nat)
    requires i < |chunks|
    ensures Verdicts.Concat(chunks[..i + 1]) == Verdicts.Concat(chunks[..i]) + chunks[i]
  {
    ConcatSplit(chunks[..i], [chunks[i]]);
    assert chunks[..i + 1] == chunks[..i] + [chunks[i]];
    OneChunk(chunks[i]);
  }

  lemma OneChunk(c: seq<byte>)
    ensures Verdicts.Concat([c]) == c
  {
    assert Verdicts.Concat([]) == [];
  }

  lemma ConcatHalves(chunks: seq<seq<byte>>, i: nat)
    requires i <= |chunks|
    ensures Verdicts.Concat(chunks) == Verdicts.Concat(chunks[..i]) + Verdicts.Concat(chunks[i..])
  {
    ConcatSplit(chunks[..i], chunks[i..]);
    assert chunks == chunks[..i] + chunks[i..];
  }

  lemma {:induction false} ConcatSplit(a: seq<seq<byte>>, b: seq<seq<byte>>)
    ensures Verdicts.Concat(a + b) == Verdicts.Concat(a) + Verdicts.Concat(b)
    decreases |a|
  {
    if a == [] {
      assert a + b == b;
    } else {
      assert (a + b)[1..] == a[1..] + b;
      ConcatSplit(a[1..], b);
    }
  }

  lemma BadJoint(r: Elements)
    ensures Joint(r, Elements([], 0, true)) == Elements(r.values, r.size, true)
  {
    assert r.values + [] == r.values;
  }

  /** One more element, behind `done` of them. */
  lemma OneMore(e: Elem, range: Range, left: nat, b: seq<byte>, n: nat, done: Elements, kept: seq<Value>)
    requires left > 0 && n <= |b| && done.size == n && |done.values| <= n / Width(e) && NextElement(e, range, b[n..]).ElementIs?
    ensures var x := NextElement(e, range, b[n..]);
            var more := Elements(done.values + [x.value], n + x.size, false);
            && n + x.size <= |b| && |more.values| <= more.size / Width(e) <= |b| / Width(e)
            && kept + done.values + [x.value] == kept + more.values
            && Joint(done, Decoded(e, range, left, b[n..])) == Joint(more, Decoded(e, range, left - 1, b[n + x.size..]))
  {
    hide Decoded, NextElement, Joint;
    var x := NextElement(e, range, b[n..]);
    DecodedOn(e, range, left, b[n..]);
    ReachAdds(Width(e), |done.values|, n, x.size);
    ReachMore(Width(e), Width(e), x.size);
    ReachMore(Width(e), n + x.size, |b|);
    Dropped(b, n, x.size);
    JointOn(done, x.value, x.size, Decoded(e, range, left - 1, b[n + x.size..]));
    assert kept + done.values + [x.value] == kept + (done.values + [x.value]);
  }

  /** What a delivery came to: the field is in, or wants more bytes, or is malformed. */
  datatype Delivery = Arrived | Wanting | Malformed

  /** A vector the decode sizes: it grows with what has arrived for the field, never ahead of it. */
  class GrowingArray {
    var items: seq<Value>
    var progress: nat       // elements already decoded
    const count: nat        // what the wire announced
    const elem: Elem
    const range: Range
    ghost const room: nat           // what the caller's vector held before
    ghost var received: seq<byte>   // what has arrived for the field
    ghost var used: nat             // the bytes of it that are elements already

    /** Never enlarged beyond what has arrived, nor beyond what was announced. */
    ghost predicate Clamped()
      reads this
    {
      |items| <= Max(room, Min(count, |received| / Width(elem)))
    }

    /** The elements so far are those of all the bytes so far. */
    ghost predicate Valid()
      reads this
    {
      var r := Decoded(elem, range, count, received);
      && Clamped() && progress <= |items| && !r.bad && items[..progress] == r.values && used == r.size
    }

    constructor (count: nat, elem: Elem, range: Range, items: seq<Value>)
      ensures Valid() && this.items == items && room == |items| && received == [] && used == 0
      ensures this.count == count && this.elem == elem && this.range == range
    {
      this.count, this.elem, this.range, this.items := count, elem, range, items;
      progress := 0;
      room, received, used := |items|, [], 0;
      new;
    }

    method Store(v: Value)
      requires progress < count && progress < |items|
      modifies this`items, this`progress
      ensures progress == old(progress) + 1 && |items| == |old(items)|
      ensures items[..progress] == old(items[..progress]) + [v]
    {
      Updated(items, progress, v);
      items := items[progress := v];
      progress := progress + 1;
    }

    /** The sizer: enlarge the vector to what this delivery can reach. */
    method Fit(reach: nat)
      modifies this`items
      ensures |items| == Max(|old(items)|, reach) && old(items) <= items
    {
      if |items| < reach { items := items + Repeat(DefaultOf(elem), reach - |items|); }
    }

    /** Decode what is there into the room there is. */
    method Fill(b: seq<byte>) returns (status: Delivery, n: nat)
      requires progress <= count && progress <= |items| && Reach(count, progress, |b|, Width(elem)) <= |items|
      modifies this`items, this`progress
      ensures var r := Decoded(elem, range, count - old(progress), b);
              && n == r.size && progress == old(progress) + |r.values| <= |items| && |items| == |old(items)|
              && items[..progress] == old(items[..progress]) + r.values
              && status == if r.bad then Malformed else if progress == count then Arrived else Wanting
    {
      hide Decoded, NextElement, Joint, Width;
      ghost var (kept, p0, size, whole) := (items[..progress], progress, |items|, Decoded(elem, range, count - progress, b));
      n := 0;
      NothingJoint(whole);
      assert b[0..] == b;
      ghost var done := Elements([], 0, false);
      while progress < count
        invariant progress <= count && progress <= |items| == size && n <= |b|
        invariant done.size == n && progress == p0 + |done.values| && !done.bad
        invariant |done.values| <= n / Width(elem)
        invariant items[..progress] == kept + done.values
        invariant whole == Joint(done, Decoded(elem, range, count - progress, b[n..]))
      {
        DecodedOn(elem, range, count - progress, b[n..]);
        match NextElement(elem, range, b[n..]) {
          case CutElement =>
            JointNothing(done);
            return Wanting, n;
          case BadElement =>
            BadJoint(done);
            return Malformed, n;
          case ElementIs(v, k) =>
            OneMore(elem, range, count - progress, b, n, done, kept);
            done := Elements(done.values + [v], n + k, false);
            Store(v);
            n := n + k;
        }
      }
      DecodedOn(elem, range, 0, b[n..]);
      JointNothing(done);
      status := Arrived;
    }

    /** One delivery, of what was left over and what has come since: fit the vector to the reach, decode
        what is there, and when the last element is in set the length to the wire's count. */
    method Deliver(b: seq<byte>) returns (status: Delivery, n: nat)
      requires Valid() && received[used..] <= b
      modifies this
      ensures received == old(received[..used]) + b && n <= |b|
      ensures status.Malformed? <==> Decoded(elem, range, count, received).bad
      ensures Clamped() && (!status.Malformed? ==> Valid() && used == old(used) + n)
      ensures status.Arrived? <==> |Decoded(elem, range, count, received).values| == count
      ensures status.Arrived? ==> |items| == count && items == Decoded(elem, range, count, received).values
    {
      hide Decoded, Reach, Width;
      Continues(elem, range, count, received, b);
      FitsReach(elem, count, progress, used, |b|, |received|);
      received := received[..used] + b;
      Fit(Reach(count, progress, |b|, Width(elem)));
      assert items[..progress] == old(items)[..progress];
      status, n := Fill(b);
      used := used + n;
      DecodedFits(elem, range, count, received);
      if status.Arrived? { items := items[..count]; }
    }

    /** A whole field, chunk after chunk with what is left over carried along: it is in just when its bytes
        hold all its elements, and then it is those elements, as many as were announced. */
    method DeliverAll(chunks: seq<seq<byte>>) returns (status: Delivery)
      requires Valid() && received == [] && chunks != []
      modifies this
      ensures var r := Decoded(elem, range, count, Verdicts.Concat(chunks));
              && status == (if r.bad then Malformed else if |r.values| == count then Arrived else Wanting)
              && (status.Arrived? ==> items == r.values && |items| == count)
              && (status.Wanting? ==> progress <= |items| && items[..progress] == r.values)
              && Clamped() && |received| <= |Verdicts.Concat(chunks)|
    {
      hide Decoded, Clamped;
      var i, carry := 0, [];
      status := Wanting;
      while i < |chunks|
        invariant i <= |chunks| && Valid() && received == Verdicts.Concat(chunks[..i]) && carry == received[used..]
        invariant status.Wanting? && (i > 0 ==> StateOf(received) == Wanting)
      {
        ConcatNext(chunks, i);
        CarriedOn(received, used, chunks[i]);
        var b := carry + chunks[i];
        var n;
        status, n := Deliver(b);
        i := i + 1;
        if !status.Wanting? {
          ConcatHalves(chunks, i);
          Decided(received, Verdicts.Concat(chunks[i..]));
          return;
        }
        carry := b[n..];
      }
      assert chunks[..i] == chunks;
    }

    lemma CarriedOn(a: seq<byte>, i: nat, b: seq<byte>)
      requires i <= |a|
      ensures a[..i] + (a[i..] + b) == a + b && a[i..] <= a[i..] + b
    {
    }

    /** What has arrived decides. */
    ghost function StateOf(b: seq<byte>): Delivery
    {
      var r := Decoded(elem, range, count, b);
      if r.bad then Malformed else if |r.values| == count then Arrived else Wanting
    }

    /** And once it has decided, what follows does not matter. */
    lemma Decided(a: seq<byte>, b: seq<byte>)
      requires StateOf(a) != Wanting
      ensures Decoded(elem, range, count, a + b).values == Decoded(elem, range, count, a).values && StateOf(a + b) == StateOf(a)
    {
      hide Decoded;
      DecodedSplit(elem, range, count, a, b);
      var r := Decoded(elem, range, count, a);
      if !r.bad {
        DecodedOn(elem, range, 0, a[r.size..] + b);
        JointNothing(r);
      }
    }
  }

  // ---------------------------------------------------------------- the fixed-room read of the same field

  /** The elements a growable array ends up with are the ones a fixed-room array of the same field is
      given by the decoder's machine, from the same bytes, and both are malformed on the same ones. */
  lemma {:induction false} SameElements(s: State, r: Read, b: seq<byte>)
    requires s.pend.Busy? && r.ReadArray? && s.pend.done < s.pend.h.count
    requires KeyOf(s) in s.dest && |ItemsAt(s.dest, KeyOf(s))| == s.pend.h.count
    ensures var (o, d) := (ParseItems(s, r, b), Decoded(r.elem, r.range, s.pend.h.count - s.pend.done, b));
            && (o.Bad? <==> d.bad) && (o.Whole? <==> |d.values| == s.pend.h.count - s.pend.done)
            && (o.Whole? ==>
                  && o.rest == b[d.size..] && KeyOf(s) in o.next.dest
                  && ItemsAt(o.next.dest, KeyOf(s)) == ItemsAt(s.dest, KeyOf(s))[..s.pend.done] + d.values)
    decreases s.pend.h.count - s.pend.done
  {
    hide Decoded, Toll, InRange, IntValue, Decode;
    var (n, x, key) := (s.pend.h.count - s.pend.done, NextElement(r.elem, r.range, b), KeyOf(s));
    DecodedOn(r.elem, r.range, n, b);
    if x.ElementIs? {
      var t := ItemStored(s, x.size, r, x.value);
      var items := ItemsAt(s.dest, key);
      Updated(items, s.pend.done, x.value);
      if t.pend.Busy? {
        SameElements(t, r, b[x.size..]);
        var rest := Decoded(r.elem, r.range, n - 1, b[x.size..]);
        Dropped(b, x.size, rest.size);
        Appended(items[..s.pend.done], x.value, rest.values);
      } else {
        DecodedOn(r.elem, r.range, 0, b[x.size..]);
        assert items[s.pend.done := x.value] == items[..s.pend.done] + ([x.value] + []);
      }
    }
  }

  // ---------------------------------------------------------------- a growable text

  /** A string or blob the decode sizes. */
  class GrowingText {
    var buf: seq<byte>
    var progress: nat
    var utf8: nat
    const len: nat                  // what the wire announced
    const isString: bool
    ghost const room: nat           // what the caller's string held before
    ghost var received: seq<byte>   // what has arrived of the payload

    ghost predicate Clamped()
      reads this
    {
      |buf| <= Max(room, Min(len, |received|))
    }

    /** Wanting more: what has arrived is in place, and the UTF-8 state is its. */
    ghost predicate Valid()
      reads this
    {
      && Clamped() && progress == |received| <= |buf| && progress <= len && buf[..progress] == received
      && IsState(utf8) && (isString ==> utf8 == Advance(ACCEPT, received)) && (progress == 0 ==> utf8 == ACCEPT)
    }

    /** What the payload comes to, told from what has arrived. */
    ghost function StateOf(b: seq<byte>): Delivery
    {
      if |b| < len then Wanting
      else if isString && !Utf8.Utf8(b[..len]) then Malformed
      else Arrived
    }

    constructor (len: nat, isString: bool, buf: seq<byte>)
      ensures Valid() && this.buf == buf && room == |buf| && received == []
      ensures this.len == len && this.isString == isString
    {
      this.len, this.isString, this.buf := len, isString, buf;
      progress, utf8 := 0, ACCEPT;
      room, received := |buf|, [];
    }

    /** The sizer, and room enough for what follows. */
    method Fit(want: nat)
      modifies this`buf
      ensures |buf| == Max(|old(buf)|, want) && old(buf) <= buf
    {
      if |buf| < want { buf := buf + Zeros(want - |buf|); }
    }

    /** The whole payload at once is checked and copied at once. */
    method TakeWhole(b: seq<byte>) returns (status: Delivery)
      requires |b| >= len && received == b && |buf| <= Max(room, len)
      modifies this`buf
      ensures status == StateOf(received) && !status.Wanting? && Clamped() && (status.Arrived? ==> buf == received[..len])
    {
      hide Utf8.Utf8;
      if isString {
        var ok := Utf8Valid(b[..len]);
        if !ok { return Malformed; }
      }
      buf := b[..len];
      return Arrived;
    }

    /** A piece goes where it belongs; the verdict and the length wait for the last one. */
    method TakePiece(b: seq<byte>, ghost before: seq<byte>) returns (status: Delivery)
      requires received == before + b && progress == |before| <= |buf| && buf[..progress] == before && progress <= len && IsState(utf8)
      requires isString ==> utf8 == Advance(ACCEPT, before)
      requires (progress > 0 ==> progress < len) && (progress == 0 ==> utf8 == ACCEPT && |b| < len)
      requires Min(len, progress + |b|) <= |buf| && Clamped()
      modifies this`buf, this`progress, this`utf8
      ensures status == StateOf(received) && Clamped() && (status.Arrived? ==> buf == received[..len]) && (status.Wanting? ==> Valid())
    {
      hide Utf8.Utf8, Advance, StateOf;
      var take := Min(|b|, len - progress);
      FrontGrows(before, b, take);
      if isString {
        AdvanceSplit(ACCEPT, before, b[..take]);
        utf8 := AdvanceState(utf8, b[..take]);
      }
      Lay(b[..take]);
      if progress + take < len {
        progress := progress + take;
        if progress == 0 { NoAdvance(utf8); }
        Waits(received);
        return Wanting;
      }
      Concludes(received, utf8);
      if isString && utf8 != ACCEPT { return Malformed; }
      assert progress + take == len && buf[..len] == received[..len] && |received| >= len;
      buf := buf[..len];
      return Arrived;
    }

    lemma Waits(b: seq<byte>)
      requires |b| < len
      ensures StateOf(b) == Wanting
    {
    }

    lemma Concludes(b: seq<byte>, q: nat)
      requires |b| >= len && (isString ==> q == Advance(ACCEPT, b[..len]))
      ensures StateOf(b) == if isString && q != ACCEPT then Malformed else Arrived
    {
      GrammarIsAutomaton(b[..len]);
    }

    lemma NoAdvance(q: nat)
      requires IsState(q)
      ensures Advance(q, []) == q
    {
    }

    lemma FrontGrows(before: seq<byte>, b: seq<byte>, take: nat)
      requires take <= |b|
      ensures (before + b)[..|before| + take] == before + b[..take]
      ensures take == |b| ==> b[..take] == b
    {
    }

    /** `memcpy` behind what is there. */
    method Lay(piece: seq<byte>)
      requires progress + |piece| <= |buf|
      modifies this`buf
      ensures |buf| == |old(buf)| && buf[..progress + |piece|] == old(buf)[..progress] + piece
    {
      buf := buf[..progress] + piece + buf[progress + |piece|..];
    }

    /** One delivery. */
    method Deliver(b: seq<byte>) returns (status: Delivery)
      requires Valid() && (progress > 0 ==> progress < len)
      modifies this
      ensures received == old(received) + b && status == StateOf(received) && Clamped()
      ensures status.Wanting? ==> Valid()
      ensures status.Arrived? ==> buf == received[..len]
    {
      hide Utf8.Utf8, Advance, StateOf;
      ghost var before := received;
      received := received + b;
      Fit(Min(len, progress + |b|));
      assert buf[..progress] == old(buf)[..progress];
      if progress == 0 && |b| >= len {
        assert received == b;
        status := TakeWhole(b);
      } else {
        status := TakePiece(b, before);
      }
    }

    /** A whole payload, piece after piece: in just when it is all there and, for a string, is UTF-8, and then
        it is the payload; however it was divided. */
    method DeliverAll(chunks: seq<seq<byte>>) returns (status: Delivery)
      requires Valid() && received == [] && chunks != []
      modifies this
      ensures status == StateOf(Verdicts.Concat(chunks)) && Clamped() && |received| <= |Verdicts.Concat(chunks)|
      ensures status.Arrived? ==> buf == Verdicts.Concat(chunks)[..len]
      ensures status.Wanting? ==> progress <= |buf| && buf[..progress] == Verdicts.Concat(chunks)
    {
      hide Utf8.Utf8, Clamped;
      var i := 0;
      status := Wanting;
      while i < |chunks|
        invariant i <= |chunks| && Valid() && received == Verdicts.Concat(chunks[..i])
        invariant status.Wanting? && (i > 0 ==> StateOf(received) == Wanting)
      {
        ConcatNext(chunks, i);
        status := Deliver(chunks[i]);
        i := i + 1;
        if !status.Wanting? {
          ConcatHalves(chunks, i);
          assert Verdicts.Concat(chunks)[..len] == received[..len];
          return;
        }
      }
      assert chunks[..i] == chunks;
    }
  }
}
