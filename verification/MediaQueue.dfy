/**
 * The 64-slot media packet queue between the encode thread and the BTstack
 * thread: `send_media`'s critical section, the dequeue of CAN_SEND_NOW, the
 * count-only clear of the disconnect handlers and the reset of `reconnect`.
 */
module MediaQueue {
  import opened Bytes

  const CAPACITY: nat := 64
  const SLOT_BYTES: nat := 1024

  datatype Codec = SSC | AAC | SBC

  datatype MediaPacket = MediaPacket(data: seq<byte>, timestamp: nat, frames: byte)

  datatype Built = TooLarge | Fits(packet: MediaPacket)

  /** The payload `send_media` stores: SBC gets a one-byte header holding a 4-bit frame count. */
  function Build(data: seq<byte>, timestamp: nat, frames: byte, codec: Codec): Built {
    if codec == SBC then
      if |data| + 1 > SLOT_BYTES then TooLarge
      else Fits(MediaPacket([frames % 16] + data, timestamp, frames))
    else
      if |data| > SLOT_BYTES then TooLarge else Fits(MediaPacket(data, timestamp, frames))
  }

  /**
   * What is stored, and when: the payload as it is, behind the frame count modulo 16 for
   * SBC, if all of it fits the 1024 bytes of a slot.
   */
  lemma BuildMeans(data: seq<byte>, timestamp: nat, frames: byte, codec: Codec)
    ensures var b := Build(data, timestamp, frames, codec);
            && (codec == SBC ==> (b.Fits? <==> |data| + 1 <= 1024))
            && (codec != SBC ==> (b.Fits? <==> |data| <= 1024))
            && (b.Fits? ==> Holding(b.packet, data, timestamp, frames, codec))
  {
  }

  /** The packet holds this payload with its time and count, behind its header if it is SBC. */
  predicate Holding(m: MediaPacket, payload: seq<byte>, timestamp: nat, frames: byte, codec: Codec) {
    && m.timestamp == timestamp && m.frames == frames
    && (codec == SBC ==> |m.data| == |payload| + 1 && m.data[0] == frames % 16 && m.data[1..] == payload)
    && (codec != SBC ==> m.data == payload)
  }

  /**
   * The ring's fields together with what happened since the last reset: every
   * packet stored, every packet taken out, and how many packets the count-only
   * clears forgot.
   */
  datatype Queue = Queue(
    slots: seq<MediaPacket>, head: nat, tail: nat, count: int,
    stored: seq<MediaPacket>, taken: seq<MediaPacket>, forgotten: int)

  /** The last 64 packets stored are still in their slots. */
  ghost predicate Remembered(slots: seq<MediaPacket>, stored: seq<MediaPacket>)
    requires |slots| == CAPACITY
  {
    forall i :: 0 <= i < |stored| && |stored| - CAPACITY <= i ==> slots[i % CAPACITY] == stored[i]
  }

  /**
   * What every step keeps. `head` and `tail` count stores and takes modulo 64, so
   * head - tail is congruent to count + forgotten: the queue is skewed by exactly
   * the packets that count-only clears dropped.
   */
  ghost predicate Inv(q: Queue) {
    && |q.slots| == CAPACITY
    && 0 <= q.count <= CAPACITY && 0 <= q.forgotten
    && q.head == |q.stored| % CAPACITY
    && q.tail == |q.taken| % CAPACITY
    && |q.stored| == |q.taken| + q.forgotten + q.count
    && Remembered(q.slots, q.stored)
    && (q.forgotten == 0 ==> q.taken == q.stored[..|q.taken|])
  }

  /** The enqueue, into the slot that was head when the critical section chose it. */
  function StoreAt(q: Queue, p: MediaPacket, at: nat): Queue
    requires at < |q.slots|
  {
    q.(slots := q.slots[at := p], head := (q.head + 1) % CAPACITY,
       count := q.count + 1, stored := q.stored + [p])
  }

  function Store(q: Queue, p: MediaPacket): Queue
    requires q.head < |q.slots|
  {
    StoreAt(q, p, q.head)
  }

  /** The end of a dequeue that copied this packet. */
  function TakeCopied(q: Queue, p: MediaPacket): Queue {
    q.(tail := (q.tail + 1) % CAPACITY, count := q.count - 1, taken := q.taken + [p])
  }

  function Take(q: Queue): Queue
    requires q.tail < |q.slots|
  {
    TakeCopied(q, q.slots[q.tail])
  }

  /** `media_queue_count_.store(0)` of the disconnect handlers: head and tail stay. */
  function ClearCount(q: Queue): Queue {
    q.(count := 0, forgotten := q.forgotten + q.count)
  }

  function Reset(q: Queue): Queue {
    q.(count := 0, head := 0, tail := 0, stored := [], taken := [], forgotten := 0)
  }

  /** The second and third store of `reconnect`; the first is the count-only clear. */
  function ZeroHead(q: Queue): Queue { q.(head := 0, stored := [], forgotten := 0) }

  function ZeroTail(q: Queue): Queue { q.(tail := 0, taken := []) }

  /** Between them: head counts the packets stored since, while tail still has its old value. */
  ghost predicate HalfReset(q: Queue) {
    && |q.slots| == CAPACITY
    && 0 <= q.count <= CAPACITY && 0 <= q.forgotten
    && q.head == |q.stored| % CAPACITY
    && q.tail < CAPACITY
    && |q.stored| == q.forgotten + q.count
    && Remembered(q.slots, q.stored)
  }

  lemma HalfResetEnds(q: Queue)
    requires HalfReset(q)
    ensures Inv(ZeroTail(q)) && HalfReset(ClearCount(q))
  {
  }

  /** The head store keeps the queue sound if and only if it finds the queue empty. */
  lemma ZeroHeadIff(q: Queue)
    requires Inv(q)
    ensures HalfReset(ZeroHead(q)) <==> q.count == 0
  {
  }

  /** head - tail is congruent to count + forgotten modulo 64. */
  lemma SkewLaw(q: Queue)
    requires Inv(q)
    ensures (q.head - q.tail) % CAPACITY == (q.count + q.forgotten) % CAPACITY
  {
    ModDifference(|q.stored|, |q.taken|);
  }

  lemma ModDifference(a: nat, b: nat)
    ensures (a % 64 - b % 64) % 64 == (a - b) % 64
  {
    var k := a / 64 - b / 64;
    assert a - b == (a % 64 - b % 64) + 64 * k;
  }

  lemma SlotFree(i: nat, n: nat)
    requires i < n < i + 64
    ensures i % 64 != n % 64
  {
  }

  lemma StoreRemembers(slots: seq<MediaPacket>, stored: seq<MediaPacket>, p: MediaPacket)
    requires |slots| == CAPACITY && Remembered(slots, stored)
    ensures Remembered(slots[|stored| % CAPACITY := p], stored + [p])
    ensures (|stored| % CAPACITY + 1) % CAPACITY == |stored + [p]| % CAPACITY
  {
    var n, after := |stored|, slots[|stored| % CAPACITY := p];
    NextSlot(n);
    forall i | 0 <= i < n + 1 && n + 1 - CAPACITY <= i
      ensures after[i % CAPACITY] == (stored + [p])[i]
    {
      if i < n {
        SlotFree(i, n);
        assert slots[i % CAPACITY] == stored[i];
      }
    }
  }

  lemma StoreKeeps(q: Queue, p: MediaPacket)
    requires Inv(q) && q.count < CAPACITY
    ensures Inv(Store(q, p))
  {
    StoreRemembers(q.slots, q.stored, p);
    assert q.stored[..|q.taken|] == (q.stored + [p])[..|q.taken|];
  }

  lemma StoreKeepsHalfReset(q: Queue, p: MediaPacket)
    requires HalfReset(q) && q.count < CAPACITY
    ensures HalfReset(Store(q, p))
  {
    StoreRemembers(q.slots, q.stored, p);
  }

  /** Which of the packets stored since the reset the next take hands out. */
  function NextIndex(q: Queue): int {
    |q.stored| - 1 - (q.count + q.forgotten - 1) % CAPACITY
  }

  /** The oldest packet that no clear has forgotten: what a FIFO queue hands out. */
  function FifoIndex(q: Queue): int {
    |q.stored| - q.count
  }

  /**
   * A take never yields an uninitialised slot: it yields a packet stored since the
   * reset, and it is the FIFO packet if and only if a multiple of 64 packets was
   * forgotten.
   */
  lemma TakeIsExact(q: Queue)
    requires Inv(q) && q.count > 0
    ensures 0 <= NextIndex(q) < |q.stored|
    ensures q.slots[q.tail] == q.stored[NextIndex(q)]
    ensures NextIndex(q) == FifoIndex(q) <==> q.forgotten % CAPACITY == 0
  {
    IndexArithmetic(|q.stored|, |q.taken|, q.forgotten, q.count);
    assert q.slots[NextIndex(q) % CAPACITY] == q.stored[NextIndex(q)];
  }

  lemma IndexArithmetic(stored: nat, taken: nat, forgotten: nat, count: nat)
    requires stored == taken + forgotten + count && 1 <= count <= 64
    ensures var n := stored - 1 - (count + forgotten - 1) % 64;
            && 0 <= n < stored && stored - 64 <= n && n % 64 == taken % 64
            && (n == stored - count <==> forgotten % 64 == 0)
  {
  }

  lemma TakeKeeps(q: Queue)
    requires Inv(q) && q.count > 0
    ensures Inv(Take(q))
  {
    TakeIsExact(q);
    NextSlot(|q.taken|);
    if q.forgotten == 0 {
      LongerPrefix(q.stored, |q.taken|);
    }
  }

  lemma NextSlot(n: nat)
    ensures (n % 64 + 1) % 64 == (n + 1) % 64
  {
  }

  lemma LongerPrefix(s: seq<MediaPacket>, n: nat)
    requires n < |s|
    ensures s[..n] + [s[n]] == s[..n + 1]
  {
  }

  lemma ClearKeeps(q: Queue)
    requires Inv(q)
    ensures Inv(ClearCount(q)) && Inv(Reset(q))
  {
  }

  /** A clear with packets pending is what breaks FIFO order, unless 64 were pending. */
  lemma ClearSkews(q: Queue, p: MediaPacket)
    requires Inv(q) && q.forgotten % CAPACITY == 0
    ensures var r := Store(ClearCount(q), p);
            NextIndex(r) == FifoIndex(r) <==> (q.count == 0 || q.count == CAPACITY)
  {
    ClearKeeps(q);
    var c := ClearCount(q);
    StoreKeeps(c, p);
    TakeIsExact(Store(c, p));
    AddedMod(q.forgotten, q.count);
  }

  lemma AddedMod(a: nat, b: nat)
    requires a % 64 == 0 && b <= 64
    ensures (a + b) % 64 == 0 <==> b == 0 || b == 64
  {
  }

  /** Connect, lose the link with one packet pending, connect again: the old packet is sent first. */
  lemma StalePacketIsSent(q: Queue, stale: MediaPacket, next: MediaPacket)
    requires Inv(q)
    ensures var r := Store(ClearCount(Store(Reset(q), stale)), next);
            r.count == 1 && r.stored[FifoIndex(r)] == next && r.slots[r.tail] == stale
  {
  }

  /** The queue object of `BtStackTransport`. */
  class PacketQueue {
    const slots: array<MediaPacket>
    var head: nat
    var tail: nat
    var count: int
    var failures: nat
    ghost var stored: seq<MediaPacket>
    ghost var taken: seq<MediaPacket>
    ghost var forgotten: nat

    ghost function View(): Queue
      reads this, slots
    {
      Queue(slots[..], head, tail, count, stored, taken, forgotten)
    }

    ghost predicate Valid()
      reads this, slots
    {
      Inv(View())
    }

    constructor ()
      ensures Valid() && fresh(slots)
      ensures stored == taken == [] && forgotten == 0 && failures == 0
    {
      slots := new MediaPacket[CAPACITY](_ => MediaPacket([], 0, 0));
      head, tail, count, failures := 0, 0, 0, 0;
      stored, taken, forgotten := [], [], 0;
    }

    /** The critical section of `send_media`. */
    method Enqueue(data: seq<byte>, timestamp: nat, frames: byte, codec: Codec) returns (ok: bool)
      requires Valid()
      modifies this, slots
      ensures Valid()
      ensures ok <==> old(count) < CAPACITY && Build(data, timestamp, frames, codec).Fits?
      ensures ok ==> View() == Store(old(View()), Build(data, timestamp, frames, codec).packet)
      ensures ok <==> old(count) < 64 && |data| + (if codec == SBC then 1 else 0) <= 1024
      ensures ok ==> |stored| == |old(stored)| + 1 && old(stored) <= stored && count == old(count) + 1
      ensures ok ==> taken == old(taken) && forgotten == old(forgotten)
      ensures ok ==> var m := stored[|stored| - 1];
                && m.timestamp == timestamp && m.frames == frames
                && m.data == (if codec == SBC then [frames % 16] + data else data)
      ensures ok ==> failures == old(failures)
      ensures !ok ==> View() == old(View()) && failures == old(failures) + 1
    {
      if count >= CAPACITY {
        failures := failures + 1;
        return false;
      }
      var payload := data;
      if codec == SBC {
        payload := [frames % 16] + data;
      }
      if |payload| > SLOT_BYTES {
        failures := failures + 1;
        return false;
      }
      var p := MediaPacket(payload, timestamp, frames);
      StoreKeeps(View(), p);
      slots[head] := p;
      head := (head + 1) % CAPACITY;
      count := count + 1;
      stored := stored + [p];
      assert slots[..] == old(slots[..])[old(head) := p];
      return true;
    }

    /** The critical section of CAN_SEND_NOW. */
    method Dequeue() returns (found: bool, p: MediaPacket)
      requires Valid()
      modifies this
      ensures Valid()
      ensures found <==> old(count) > 0
      ensures found ==> View() == Take(old(View())) && p == old(stored)[NextIndex(old(View()))]
      ensures found ==> taken == old(taken) + [p] && count == old(count) - 1
      ensures found && old(forgotten) % 64 == 0 ==>
                0 <= |old(stored)| - old(count) < |old(stored)| && p == old(stored)[|old(stored)| - old(count)]
      ensures stored == old(stored) && forgotten == old(forgotten)
      ensures !found ==> View() == old(View())
      ensures failures == old(failures)
    {
      found, p := false, MediaPacket([], 0, 0);
      if count > 0 {
        TakeIsExact(View());
        TakeKeeps(View());
        p := slots[tail];
        tail := (tail + 1) % CAPACITY;
        count := count - 1;
        taken := taken + [p];
        found := true;
      }
    }

    /** `media_queue_count_.store(0)`. */
    method Forget()
      requires Valid()
      modifies this
      ensures Valid() && View() == ClearCount(old(View())) && failures == old(failures)
      ensures count == 0 && forgotten == old(forgotten) + old(count)
      ensures stored == old(stored) && taken == old(taken) && head == old(head) && tail == old(tail)
    {
      forgotten := forgotten + count;
      count := 0;
    }

    /** The three queue stores of `reconnect`. */
    method Restart()
      requires Valid()
      modifies this
      ensures Valid() && View() == Reset(old(View())) && failures == old(failures)
      ensures count == 0 && head == 0 && tail == 0 && stored == [] && taken == [] && forgotten == 0
    {
      count, head, tail := 0, 0, 0;
      stored, taken, forgotten := [], [], 0;
    }
  }
}
