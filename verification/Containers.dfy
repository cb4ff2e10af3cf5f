/** The fixed-room containers a decode writes into: an inline vector that never grows past its
    capacity, and a fixed string that is cut between characters. */
module Containers {
  import opened Varint
  import opened WireFormat
  import opened Handlers
  import opened Destination
  import opened Utf8
  import opened Machine

  function Max(a: nat, b: nat): nat
  {
    if a < b then b else a
  }

  function Min(a: nat, b: nat): nat
  {
    if a < b then a else b
  }

  // ---------------------------------------------------------------- placing an element

  /** `emplace_back` into a room of `n`: at capacity the last slot is used again. */
  function Emplaced<T>(s: seq<T>, n: nat, zero: T): (r: seq<T>)
    requires |s| <= n && n > 0
    ensures |r| == if |s| < n then |s| + 1 else n
  {
    if |s| < n then s + [zero] else s[n - 1 := zero]
  }

  /** Extended with defaults until index `id` exists. */
  function Extended<T>(s: seq<T>, id: nat, zero: T): (r: seq<T>)
    ensures |r| == Max(|s|, id + 1)
    ensures s <= r && forall k :: |s| <= k < |r| ==> r[k] == zero
  {
    if |s| > id then s else s + seq(id + 1 - |s|, i => zero)
  }

  class InlineVector<T> {
    const buf: array<T>
    const zero: T
    var len: nat

    ghost predicate Valid()
      reads this
    {
      len <= buf.Length && buf.Length > 0
    }

    function Contents(): (s: seq<T>)
      reads this, buf
      requires len <= buf.Length
      ensures |s| == len
    {
      buf[..len]
    }

    constructor (n: nat, zero: T)
      requires n > 0
      ensures Valid() && fresh(buf) && buf.Length == n && Contents() == [] && this.zero == zero
    {
      this.zero := zero;
      buf := new T[n](_ => zero);
      len := 0;
    }

    /** Clamped to the capacity; slots that leave or enter the vector are at the default. */
    method Resize(n: nat)
      requires Valid()
      modifies this`len, buf
      ensures Valid()
      ensures var m := Min(n, buf.Length);
              Contents() == if m <= old(len) then old(Contents())[..m] else old(Contents()) + seq(m - old(len), i => zero)
      ensures forall k :: Min(n, buf.Length) <= k < old(len) ==> buf[k] == zero
    {
      var m := if n > buf.Length then buf.Length else n;
      ghost var before := Contents();
      forall i | m <= i < len { buf[i] := zero; }
      forall i | len <= i < m { buf[i] := zero; }
      len := m;
    }

    method EmplaceBack() returns (i: nat)
      requires Valid()
      modifies this`len, buf
      ensures Valid() && Contents() == Emplaced(old(Contents()), buf.Length, zero) && i == len - 1
    {
      if len < buf.Length {
        i := len;
        len := len + 1;
      } else {
        i := buf.Length - 1;
      }
      buf[i] := zero;
    }

    /** The placement loop. It ends because the index was admitted against the capacity first. */
    method PlaceAt(id: nat)
      requires Valid() && id < buf.Length
      modifies this`len, buf
      ensures Valid() && Contents() == Extended(old(Contents()), id, zero)
    {
      ghost var before := Contents();
      while len <= id
        invariant Valid() && |before| <= len <= Max(|before|, id + 1)
        invariant Contents() == if len > |before| then Extended(before, len - 1, zero) else before
        decreases id + 1 - len
      {
        var _ := EmplaceBack();
      }
    }
  }

  /** Past the capacity the loop would never end: however often it turns, the vector is too short. */
  lemma {:induction false} NeverPlaced<T>(s: seq<T>, n: nat, zero: T, id: nat, turns: nat)
    requires |s| <= n && n > 0 && id >= n
    ensures |Turned(s, n, zero, turns)| <= id
    decreases turns
  {
    if turns > 0 { NeverPlaced(Emplaced(s, n, zero), n, zero, id, turns - 1); }
  }

  function Turned<T>(s: seq<T>, n: nat, zero: T, turns: nat): (r: seq<T>)
    requires |s| <= n && n > 0
    ensures |r| <= n
    decreases turns
  {
    if turns == 0 then s else Turned(Emplaced(s, n, zero), n, zero, turns - 1)
  }

  /** The loop reaches index `id` after some number of turns exactly when the capacity holds it. */
  lemma PlacementEnds<T>(s: seq<T>, n: nat, zero: T, id: nat)
    requires |s| <= n && n > 0
    ensures (exists turns: nat :: |Turned(s, n, zero, turns)| > id) <==> id < n
  {
    if id < n {
      TurnsGrow(s, n, zero, n);
      assert |Turned(s, n, zero, n)| > id;
    } else {
      forall turns: nat ensures |Turned(s, n, zero, turns)| <= id { NeverPlaced(s, n, zero, id, turns); }
    }
  }

  lemma {:induction false} TurnsGrow<T>(s: seq<T>, n: nat, zero: T, turns: nat)
    requires |s| <= n && n > 0
    ensures |Turned(s, n, zero, turns)| == Min(n, |s| + turns)
    decreases turns
  {
    if turns > 0 { TurnsGrow(Emplaced(s, n, zero), n, zero, turns - 1); }
  }

  // ---------------------------------------------------------------- a fixed string

  class FixedString {
    const buf: array<byte>
    var len: nat

    ghost predicate Valid()
      reads this, buf
    {
      len < buf.Length && buf[len] == 0
    }

    function Contents(): (s: seq<byte>)
      reads this, buf
      requires len <= buf.Length
    {
      buf[..len]
    }

    constructor (capacity: nat)
      ensures Valid() && Contents() == [] && buf.Length == capacity + 1 && fresh(buf)
    {
      buf := new byte[capacity + 1](_ => 0);
      len := 0;
    }

    /** The longest prefix that fits and does not end inside a character, and a terminator. */
    method Assign(sv: seq<byte>)
      requires Valid()
      modifies this`len, buf
      ensures Valid() && len <= |sv| && Contents() == sv[..len]
      ensures |sv| < buf.Length ==> Contents() == sv
      ensures Utf8.Utf8(sv) ==>
        Utf8.Utf8(Contents()) && forall m :: len < m < buf.Length && m <= |sv| ==> !Utf8.Utf8(sv[..m])
    {
      hide Utf8.Utf8;
      var n := ClampLength(sv, buf.Length - 1);
      forall i | 0 <= i < n { buf[i] := sv[i]; }
      len := n;
      buf[len] := 0;
      assert Contents() == sv[..n];
      if |sv| < buf.Length { assert sv[..n] == sv; }
    }
  }
}
