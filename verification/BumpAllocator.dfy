/** The bump allocator of the Android libc shim; addresses and sizes are 64-bit. */
module BumpAllocator {

  const WRAP64: nat := 0x1_0000_0000_0000_0000
  const MEGABYTE: nat := 0x10_0000

  datatype Region = Region(start: nat, size: nat)

  /** The two static pointers, and every mapping and block so far. */
  datatype Heap = Heap(cur: nat, end: nat, chunks: seq<Region>, blocks: seq<Region>)

  /** (n + 15) & ~15 in size_t, and never zero. */
  function Rounded(n: nat): (r: nat)
    ensures r % 16 == 0 && r >= 16
    ensures n + 15 < WRAP64 ==> r >= n
  {
    var r := (n + 15) % WRAP64 / 16 * 16;
    if r == 0 then 16 else r
  }

  function MapSize(n: nat): nat {
    if n < MEGABYTE then MEGABYTE else (n + 4095) % WRAP64 / 4096 * 4096
  }

  predicate Apart(a: Region, b: Region) {
    a.start + a.size <= b.start || b.start + b.size <= a.start
  }

  predicate Inside(a: Region, b: Region) {
    b.start <= a.start && a.start + a.size <= b.start + b.size
  }

  predicate NeedsMap(h: Heap, n: nat) {
    h.cur == 0 || h.end - h.cur < n
  }

  /** What mmap may answer: an error code, or a fresh page-aligned mapping of the size asked for. */
  predicate KernelAnswer(h: Heap, size: nat, p: int) {
    || -4096 < p < 0
    || (&& p > 0 && p % 4096 == 0 && p + size < WRAP64 && size > 0
        && forall i :: 0 <= i < |h.chunks| ==> Apart(h.chunks[i], Region(p, size)))
  }

  /** `malloc`: the new heap and the address returned, 0 for a failed mapping. */
  function Malloc(h: Heap, asked: nat, p: int): (Heap, nat)
    requires NeedsMap(h, Rounded(asked)) ==> KernelAnswer(h, MapSize(Rounded(asked)), p)
  {
    var n := Rounded(asked);
    if NeedsMap(h, n) then
      if p < 0 then (h, 0)
      else
        var size := MapSize(n);
        (Heap(p + n, p + size, h.chunks + [Region(p, size)], h.blocks + [Region(p, n)]), p)
    else (h.(cur := h.cur + n, blocks := h.blocks + [Region(h.cur, n)]), h.cur)
  }

  /** Blocks are aligned, inside mappings and disjoint; what lies beyond `cur` is unused. */
  ghost predicate Inv(h: Heap) {
    && (forall i :: 0 <= i < |h.blocks| ==>
          && h.blocks[i].start > 0 && h.blocks[i].start % 16 == 0
          && exists j :: 0 <= j < |h.chunks| && Inside(h.blocks[i], h.chunks[j]))
    && (forall i, j :: 0 <= i < j < |h.blocks| ==> Apart(h.blocks[i], h.blocks[j]))
    && (h.cur != 0 ==>
          && h.cur % 16 == 0 && h.cur <= h.end
          && (exists j :: 0 <= j < |h.chunks| && Inside(Region(h.cur, h.end - h.cur), h.chunks[j]))
          && forall i :: 0 <= i < |h.blocks| ==> Apart(h.blocks[i], Region(h.cur, h.end - h.cur)))
  }

  lemma NewChunkKeeps(h: Heap, n: nat, p: nat, size: nat)
    requires Inv(h) && n % 16 == 0 && 16 <= n <= size && p > 0 && p % 16 == 0
    requires forall i :: 0 <= i < |h.chunks| ==> Apart(h.chunks[i], Region(p, size))
    ensures Inv(Heap(p + n, p + size, h.chunks + [Region(p, size)], h.blocks + [Region(p, n)]))
  {
    var chunks, blocks := h.chunks + [Region(p, size)], h.blocks + [Region(p, n)];
    forall i | 0 <= i < |h.blocks|
      ensures exists j :: 0 <= j < |chunks| && Inside(blocks[i], chunks[j])
      ensures Apart(blocks[i], Region(p, size))
    {
      assert blocks[i] == h.blocks[i] && h.blocks[i].start > 0;
      var j :| 0 <= j < |h.chunks| && Inside(h.blocks[i], h.chunks[j]);
      assert chunks[j] == h.chunks[j] && Apart(h.chunks[j], Region(p, size));
    }
    assert chunks[|h.chunks|] == Region(p, size);
    assert Inside(Region(p + n, size - n), chunks[|h.chunks|]) && Inside(Region(p, n), chunks[|h.chunks|]);
  }

  lemma BumpKeeps(h: Heap, n: nat)
    requires Inv(h) && n % 16 == 0 && n >= 16 && !NeedsMap(h, n)
    ensures Inv(h.(cur := h.cur + n, blocks := h.blocks + [Region(h.cur, n)]))
  {
    var j :| 0 <= j < |h.chunks| && Inside(Region(h.cur, h.end - h.cur), h.chunks[j]);
    assert Inside(Region(h.cur, n), h.chunks[j]);
    assert Inside(Region(h.cur + n, h.end - h.cur - n), h.chunks[j]);
  }

  /**
   * Every call keeps the heap sound -- the requests whose rounding wraps included, for
   * which mmap is asked for too little only when it is asked for nothing.
   */
  lemma MallocKeeps(h: Heap, asked: nat, p: int)
    requires Inv(h) && asked < WRAP64
    requires NeedsMap(h, Rounded(asked)) ==> KernelAnswer(h, MapSize(Rounded(asked)), p)
    ensures Inv(Malloc(h, asked, p).0)
  {
    var n := Rounded(asked);
    if NeedsMap(h, n) {
      if p >= 0 {
        MapHolds(n);
        assert p % 16 == 0 by { PageAligned(p, p / 4096); }
        NewChunkKeeps(h, n, p, MapSize(n));
      }
    } else {
      BumpKeeps(h, n);
    }
  }

  lemma PageAligned(p: nat, pages: nat)
    requires p == 4096 * pages
    ensures p % 16 == 0
  {
    MultipleOf16(256 * pages);
  }

  lemma MultipleOf16(k: nat)
    ensures 16 * k % 16 == 0
  {
  }

  /** A mapping that is asked for at all is asked for with room for the block. */
  lemma MapHolds(n: nat)
    requires n % 16 == 0 && n < WRAP64
    ensures MapSize(n) > 0 ==> MapSize(n) >= n
  {
  }

  /** A block is as large as was asked for if and only if the rounding does not wrap. */
  lemma LargeEnoughIff(h: Heap, asked: nat, p: int)
    requires Inv(h) && asked < WRAP64
    requires NeedsMap(h, Rounded(asked)) ==> KernelAnswer(h, MapSize(Rounded(asked)), p)
    ensures var (r, out) := Malloc(h, asked, p);
            out != 0 ==>
              && |r.blocks| == |h.blocks| + 1 && r.blocks[|h.blocks|].start == out
              && (r.blocks[|h.blocks|].size >= asked <==> asked + 15 < WRAP64)
  {
  }

  /** Rounding is to the next multiple of 16, and 16 for nothing. */
  lemma RoundedIsNext(n: nat)
    requires n + 15 < WRAP64
    ensures Rounded(n) % 16 == 0 && n <= Rounded(n)
    ensures n > 0 ==> Rounded(n) < n + 16
    ensures n == 0 ==> Rounded(n) == 16
  {
  }

  /** A mapping is a megabyte, or for larger blocks the next multiple of a page. */
  lemma MapSizeIsNext(n: nat)
    requires n + 4095 < WRAP64
    ensures n < MEGABYTE ==> MapSize(n) == 0x10_0000
    ensures n >= MEGABYTE ==> n <= MapSize(n) < n + 4096 && MapSize(n) % 4096 == 0
  {
  }

  /**
   * When and where a call succeeds: in the current chunk whenever the rounded block fits
   * what is left of it, otherwise at the start of a new mapping, and with no block only if
   * that mapping was refused.
   */
  lemma MallocOutcome(h: Heap, asked: nat, p: int)
    requires Inv(h) && asked < WRAP64
    requires NeedsMap(h, Rounded(asked)) ==> KernelAnswer(h, MapSize(Rounded(asked)), p)
    ensures var (r, out) := Malloc(h, asked, p);
            var n, fits := Rounded(asked), h.cur != 0 && h.cur + Rounded(asked) <= h.end;
            && (fits ==> out == h.cur && r.cur == h.cur + n && r.end == h.end && r.chunks == h.chunks)
            && (!fits && p > 0 ==>
                  && out == p && r.cur == p + n && r.end == p + MapSize(n)
                  && r.chunks == h.chunks + [Region(p, MapSize(n))])
            && (fits || p > 0 ==> out != 0 && r.blocks == h.blocks + [Region(out, n)])
            && (!fits && p < 0 ==> out == 0 && r == h)
  {
  }

  /** The largest size there is, asked of a new heap: a block of 16 bytes. */
  lemma HugeRequestGetsSixteenBytes(p: int)
    requires p > 0 && KernelAnswer(Heap(0, 0, [], []), MEGABYTE, p)
    ensures var asked := WRAP64 - 1;
            && Rounded(asked) == 16 && MapSize(Rounded(asked)) == MEGABYTE
            && Malloc(Heap(0, 0, [], []), asked, p).1 == p
            && Malloc(Heap(0, 0, [], []), asked, p).0.blocks == [Region(p, 16)]
  {
  }

  /** One call: the size, and what the kernel would answer if asked. */
  datatype Call = Call(asked: nat, p: int)

  ghost predicate Legal(h: Heap, cs: seq<Call>)
    decreases |cs|
  {
    cs == [] ||
    (&& cs[0].asked < WRAP64
     && (NeedsMap(h, Rounded(cs[0].asked)) ==> KernelAnswer(h, MapSize(Rounded(cs[0].asked)), cs[0].p))
     && Legal(Malloc(h, cs[0].asked, cs[0].p).0, cs[1..]))
  }

  ghost function After(h: Heap, cs: seq<Call>): Heap
    requires Legal(h, cs)
    decreases |cs|
  {
    if cs == [] then h else After(Malloc(h, cs[0].asked, cs[0].p).0, cs[1..])
  }

  lemma AfterCons(h: Heap, c: Call, cs: seq<Call>)
    requires Legal(h, [c] + cs)
    ensures After(h, []) == h
    ensures Legal(Malloc(h, c.asked, c.p).0, cs)
    ensures After(h, [c] + cs) == After(Malloc(h, c.asked, c.p).0, cs)
  {
    assert ([c] + cs)[1..] == cs;
  }

  /** Over any sequence of calls. */
  lemma {:induction false} HeapStaysSound(h: Heap, cs: seq<Call>)
    requires Inv(h) && Legal(h, cs)
    ensures Inv(After(h, cs)) && h.blocks <= After(h, cs).blocks
    decreases |cs|
  {
    if cs != [] {
      MallocKeeps(h, cs[0].asked, cs[0].p);
      HeapStaysSound(Malloc(h, cs[0].asked, cs[0].p).0, cs[1..]);
    }
  }

  /** The allocator with its two static pointers. */
  class Allocator {
    var cur: nat
    var end: nat
    ghost var chunks: seq<Region>
    ghost var blocks: seq<Region>

    ghost function View(): Heap
      reads this
    {
      Heap(cur, end, chunks, blocks)
    }

    constructor ()
      ensures View() == Heap(0, 0, [], []) && Inv(View())
    {
      cur, end, chunks, blocks := 0, 0, [], [];
    }

    method Allocate(asked: nat, p: int) returns (out: nat)
      requires Inv(View()) && asked < WRAP64
      requires NeedsMap(View(), Rounded(asked)) ==> KernelAnswer(View(), MapSize(Rounded(asked)), p)
      modifies this
      ensures Inv(View()) && (View(), out) == Malloc(old(View()), asked, p)
    {
      MallocKeeps(View(), asked, p);
      var n := Rounded(asked);
      if cur == 0 || end - cur < n {
        var request := MapSize(n);
        if -4096 < p < 0 { return 0; }
        cur, end := p, p + request;
        chunks := chunks + [Region(p, request)];
      }
      out := cur;
      cur := cur + n;
      blocks := blocks + [Region(out, n)];
    }
  }
}
