/**
 * The single-producer single-consumer PCM ring between the capture callback and
 * the encode thread: free-running 32-bit indices, power-of-two capacity, two-piece
 * copies. This module holds the slot arithmetic and the ring as an object.
 */
module PcmRing {
  import opened Bytes

  /** The powers of two a uint32_t can hold are the divisors of 2^32 below it. */
  predicate IsCapacity(cap: nat) {
    0 < cap < WRAP32 && WRAP32 % cap == 0
  }

  function Pow2(k: nat): nat { if k == 0 then 1 else 2 * Pow2(k - 1) }

  lemma OddProduct(c: nat, q: nat)
    requires c % 2 == 1 && q % 2 == 1
    ensures c * q % 2 == 1
  {
    var a, b := c / 2, q / 2;
    assert c == 2 * a + 1 && q == 2 * b + 1;
    assert (2 * a + 1) * (2 * b + 1) == 2 * (2 * (a * b) + a + b) + 1;
  }

  lemma Halve(c: nat, q: nat, n: nat)
    requires c * q == 2 * n
    ensures c % 2 == 0 ==> c / 2 * q == n
    ensures c % 2 == 1 ==> q % 2 == 0 && c * (q / 2) == n
  {
    var a, b := c / 2, q / 2;
    if c % 2 == 0 {
      assert c == 2 * a;
      assert c * q == 2 * (a * q);
    } else if q % 2 == 0 {
      assert q == 2 * b;
      assert c * q == 2 * (c * b);
    } else {
      OddProduct(c, q);
    }
  }

  lemma {:induction false} DivisorIsPower(c: nat, q: nat, n: nat) returns (k: nat)
    requires c * q == Pow2(n)
    ensures k <= n && c == Pow2(k)
    decreases n
  {
    if n == 0 {
      One(c, q);
      k := 0;
    } else {
      Halve(c, q, Pow2(n - 1));
      if c % 2 == 0 {
        k := DivisorIsPower(c / 2, q, n - 1);
        k := k + 1;
      } else {
        k := DivisorIsPower(c, q / 2, n - 1);
      }
    }
  }

  lemma One(c: nat, q: nat)
    requires c * q == 1
    ensures c == 1
  {
    if c >= 2 && q >= 1 {
      MultipleGap(c, q);
    }
  }

  lemma {:induction false} PowerDivides(k: nat, n: nat)
    requires k <= n
    ensures Pow2(k) > 0 && Pow2(n) == Pow2(k) * Pow2(n - k)
  {
    if k > 0 {
      PowerDivides(k - 1, n - 1);
    }
  }

  lemma PowersOfTwo()
    ensures Pow2(31) == 0x8000_0000 && Pow2(32) == WRAP32
  {
    assert Pow2(4) == 16;
    PowerDivides(4, 8);
    PowerDivides(8, 16);
    PowerDivides(16, 32);
  }

  lemma PowerBelow(k: nat)
    requires k < 32
    ensures 0 < Pow2(k) <= Pow2(31)
  {
    PowerDivides(k, 31);
    PowerDivides(31 - k, 31);
    AtMost(Pow2(k), Pow2(31 - k));
  }

  lemma AtMost(a: nat, b: nat)
    requires b >= 1
    ensures a <= a * b
  {
  }

  lemma CapacityIsPower(cap: nat) returns (k: nat)
    requires IsCapacity(cap)
    ensures k < 32 && cap == Pow2(k)
  {
    PowersOfTwo();
    var q := WRAP32 / cap;
    assert cap * q == WRAP32;
    k := DivisorIsPower(cap, q, 32);
  }

  lemma PowerIsCapacity(k: nat)
    requires k < 32
    ensures IsCapacity(Pow2(k))
  {
    PowersOfTwo();
    PowerBelow(k);
    PowerDivides(k, 32);
    DivModUnique(WRAP32, Pow2(k), Pow2(32 - k), 0);
  }

  /** The capacities are exactly the powers of two below 2^32. */
  lemma CapacityIff(cap: nat)
    ensures IsCapacity(cap) <==> exists k: nat :: k < 32 && cap == Pow2(k)
  {
    if IsCapacity(cap) {
      var k := CapacityIsPower(cap);
    }
    if k: nat :| k < 32 && cap == Pow2(k) {
      PowerIsCapacity(k);
    }
  }

  /** Unsigned 32-bit subtraction of two indices. */
  function Sub32(a: nat, b: nat): nat {
    (a - b) % WRAP32
  }

  /** Where byte `i` of a copy lands that starts at buffer position `pos`. */
  function Slot(pos: nat, i: nat, cap: nat): int {
    if i < cap - pos then pos + i else i - (cap - pos)
  }

  /** The bytes of `stream` from `from` on are in the ring's memory. */
  ghost predicate Holds(data: seq<byte>, stream: seq<byte>, from: nat)
    requires |data| > 0
  {
    forall i :: from <= i < |stream| ==> data[i % |data|] == stream[i]
  }

  lemma ModOfMultiple(c: nat, k: nat, r: nat)
    requires c > 0
    ensures c * k + r >= 0
    ensures (c * k + r) % c == r % c
  {
    assert c * (k + r / c) == c * k + c * (r / c);
    DivModUnique(c * k + r, c, k + r / c, r % c);
  }

  /** Masking a wrapped index gives the position of the unbounded one. */
  lemma MaskOfWrapped(n: nat, cap: nat)
    requires IsCapacity(cap)
    ensures (n % WRAP32) % cap == n % cap
  {
    var m, q, r := WRAP32 / cap, n / WRAP32, n % WRAP32;
    assert WRAP32 == cap * m;
    assert n == cap * m * q + r;
    assert cap * m * q == cap * (m * q);
    ModOfMultiple(cap, m * q, r);
  }

  /** Distinct stream positions less than a lap apart have distinct slots. */
  lemma SlotsDiffer(a: nat, b: nat, cap: nat)
    requires cap > 0 && a < b < a + cap
    ensures a % cap != b % cap
  {
    var k := b / cap - a / cap;
    assert b - a == cap * k + (b % cap - a % cap);
    MultipleGap(cap, k);
  }

  lemma SlotIsPosition(n: nat, i: nat, cap: nat)
    requires cap > 0 && i < cap
    ensures 0 <= Slot(n % cap, i, cap) < cap
    ensures Slot(n % cap, i, cap) == (n + i) % cap
  {
    var q, pos := n / cap, n % cap;
    if i < cap - pos {
      DivModUnique(n + i, cap, q, pos + i);
    } else {
      assert cap * (q + 1) == cap * q + cap;
      DivModUnique(n + i, cap, q + 1, pos + i - cap);
    }
  }

  lemma AdvanceWrapped(n: nat, k: nat)
    ensures (n % WRAP32 + k) % WRAP32 == (n + k) % WRAP32
  {
  }

  /** The wrapped difference is the true occupancy. */
  lemma Occupancy(w: nat, r: nat)
    requires r <= w < r + WRAP32
    ensures Sub32(w % WRAP32, r % WRAP32) == w - r
  {
  }

  /** Memory after a two-piece copy of `src` that starts at `pos`. */
  ghost predicate Copied(before: seq<byte>, after: seq<byte>, pos: nat, src: seq<byte>)
    requires pos <= |before|
  {
    && |after| == |before|
    && forall k :: 0 <= k < |before| ==>
         after[k] == if pos <= k < pos + |src| then src[k - pos]
                     else if k < pos + |src| - |before| then src[k + |before| - pos]
                     else before[k]
  }

  lemma CopiedByte(before: seq<byte>, after: seq<byte>, w: nat, src: seq<byte>, k: nat)
    requires |before| > 0 && |src| <= |before| && k < |src|
    requires Copied(before, after, w % |before|, src)
    ensures after[(w + k) % |before|] == src[k]
  {
    SlotIsPosition(w, k, |before|);
  }

  lemma KeptByte(before: seq<byte>, after: seq<byte>, w: nat, src: seq<byte>, i: nat)
    requires |before| > 0 && i < w && w + |src| <= i + |before|
    requires Copied(before, after, w % |before|, src)
    ensures after[i % |before|] == before[i % |before|]
  {
    KeptSlot(w, |src|, i, |before|);
  }

  /** A copy into free space adds its bytes and keeps every unread one. */
  lemma CopyPublishes(before: seq<byte>, after: seq<byte>, stream: seq<byte>, src: seq<byte>, from: nat)
    requires |before| > 0 && from <= |stream| && |stream| + |src| <= from + |before|
    requires Holds(before, stream, from) && Copied(before, after, |stream| % |before|, src)
    ensures Holds(after, stream + src, from)
  {
    var w := |stream|;
    forall i | from <= i < w + |src| ensures after[i % |before|] == (stream + src)[i] {
      if i >= w {
        CopiedByte(before, after, w, src, i - w);
      } else {
        KeptByte(before, after, w, src, i);
      }
    }
  }

  /** The slot of an unread byte lies outside both pieces of a copy into free space. */
  lemma KeptSlot(w: nat, len: nat, i: nat, cap: nat)
    requires cap > 0 && i < w && w + len <= i + cap
    ensures var pos, k := w % cap, i % cap; !(pos <= k < pos + len) && !(k < pos + len - cap)
  {
    var pos, k := w % cap, i % cap;
    var j := if pos <= k then k - pos else k + cap - pos;
    if j < len {
      SlotIsPosition(w, j, cap);
      SlotsDiffer(i, w + j, cap);
      assert false;
    }
  }

  class Ring {
    const data: array<byte>
    var head: nat
    var tail: nat
    var overflows: nat
    ghost var stream: seq<byte>   // every byte ever published
    ghost var consumed: nat       // how many of them were read or flushed

    ghost predicate Valid()
      reads this, data
    {
      && IsCapacity(data.Length)
      && head == |stream| % WRAP32
      && tail == consumed % WRAP32
      && consumed <= |stream| <= consumed + data.Length
      && Holds(data[..], stream, consumed)
    }

    ghost function Contents(): seq<byte>
      reads this, data
      requires Valid()
    {
      stream[consumed..]
    }

    constructor (cap: nat)
      requires IsCapacity(cap)
      ensures Valid() && fresh(data) && data.Length == cap
      ensures stream == [] && consumed == 0 && overflows == 0
    {
      data := new byte[cap](_ => 0);
      head, tail, overflows := 0, 0, 0;
      stream, consumed := [], 0;
    }

    method AvailableWrite() returns (n: nat)
      requires Valid()
      ensures n == data.Length - |Contents()|
    {
      Occupancy(|stream|, consumed);
      n := data.Length - Sub32(head, tail);
    }

    method AvailableRead() returns (n: nat)
      requires Valid()
      ensures n == |Contents()|
    {
      Occupancy(|stream|, consumed);
      n := Sub32(head, tail);
    }

    /** memcpy into the ring's memory. */
    method CopyIn(pos: nat, src: seq<byte>)
      requires pos + |src| <= data.Length
      modifies data
      ensures forall k :: 0 <= k < data.Length ==>
                data[k] == if pos <= k < pos + |src| then src[k - pos] else old(data[k])
    {
      for i := 0 to |src|
        invariant forall k :: 0 <= k < data.Length ==>
                    data[k] == if pos <= k < pos + i then src[k - pos] else old(data[k])
      {
        data[pos + i] := src[i];
      }
    }

    method Write(src: seq<byte>)
      requires Valid() && |Contents()| + |src| <= data.Length
      modifies this`head, this`stream, data
      ensures Valid() && consumed == old(consumed)
      ensures stream == old(stream) + src
    {
      ghost var before := data[..];
      MaskOfWrapped(|stream|, data.Length);
      var pos := head % data.Length;
      TwoPieceCopyIn(pos, src);
      CopyPublishes(before, data[..], stream, src, consumed);
      AdvanceWrapped(|stream|, |src|);
      head := (head + |src|) % WRAP32;
      stream := stream + src;
    }

    method TwoPieceCopyIn(pos: nat, src: seq<byte>)
      requires pos < data.Length && |src| <= data.Length
      modifies data
      ensures Copied(old(data[..]), data[..], pos, src)
    {
      var cap := data.Length;
      var first := if cap - pos < |src| then cap - pos else |src|;
      CopyIn(pos, src[..first]);
      if first < |src| {
        CopyIn(0, src[first..]);
      }
    }

    method TwoPieceCopyOut(pos: nat, len: nat) returns (dst: seq<byte>)
      requires pos < data.Length && len <= data.Length
      ensures |dst| == len
      ensures forall i :: 0 <= i < len ==> 0 <= Slot(pos, i, data.Length) < data.Length
      ensures forall i :: 0 <= i < len ==> dst[i] == data[Slot(pos, i, data.Length)]
    {
      var cap := data.Length;
      var first := if cap - pos < len then cap - pos else len;
      dst := data[pos..pos + first];
      if first < len {
        dst := dst + data[..len - first];
      }
    }

    method Read(len: nat) returns (dst: seq<byte>)
      requires Valid() && len <= |Contents()|
      modifies this`tail, this`consumed
      ensures Valid()
      ensures dst == old(Contents())[..len] && consumed == old(consumed) + len
    {
      MaskOfWrapped(consumed, data.Length);
      dst := TwoPieceCopyOut(tail % data.Length, len);
      forall i | 0 <= i < len ensures dst[i] == stream[consumed + i] {
        SlotIsPosition(consumed, i, data.Length);
        assert data[..][(consumed + i) % data.Length] == stream[consumed + i];
      }
      AdvanceWrapped(consumed, len);
      tail := (tail + len) % WRAP32;
      consumed := consumed + len;
    }

    /** `service_audio_callback`: the buffer is taken whole or dropped whole. */
    method Capture(buf: seq<byte>) returns (accepted: bool)
      requires Valid()
      modifies this`head, this`stream, this`overflows, data
      ensures Valid() && consumed == old(consumed)
      ensures accepted <==> buf != [] && old(|Contents()|) + |buf| <= data.Length
      ensures stream == if accepted then old(stream) + buf else old(stream)
      ensures overflows == old(overflows) + if buf != [] && !accepted then 1 else 0
    {
      if buf == [] {
        return false;
      }
      var room := AvailableWrite();
      if room < |buf| {
        overflows := overflows + 1;
        return false;
      }
      Write(buf);
      return true;
    }

    /** The flush of the reconnect section: tail jumps to head. */
    method Flush()
      requires Valid()
      modifies this`tail, this`consumed
      ensures Valid() && Contents() == []
    {
      tail := head;
      consumed := |stream|;
    }
  }
}
