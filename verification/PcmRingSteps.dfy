/**
 * The PCM ring under interleaving, one access to a shared index or to a byte of memory
 * a step: the capture callback loads tail, copies and publishes head; the encode thread
 * loads head and tail to see what is there, loads tail again to read, copies and
 * publishes tail; the service thread's flush loads head and stores it in tail. Streams
 * are unbounded, so the 32-bit indices may wrap any number of times.
 */
module PcmRingSteps {
  import opened Bytes
  import opened PcmRing

  datatype Writer = NotWriting | CopyingIn(buf: seq<byte>, done: nat)

  /** Where the encode thread stands; `upto` is the stream's length when it loaded head. */
  datatype Reader =
    | NotReading
    | HeadLoaded(head: nat, upto: nat)                       // in available_read, between its loads
    | Checked(len: nat)                                      // knows how much to read
    | CopyingOut(from: nat, len: nat, got: seq<byte>)        // in read, with the tail it loaded

  /** Where the service thread stands in the flush. */
  datatype Flusher = NotFlushing | FlushLoaded(head: nat, upto: nat)

  /**
   * Memory and indices, and the history they stand for: the callback buffers taken,
   * the stream they make, how much of it left the ring, and what the reader was
   * given since the last flush.
   */
  datatype State = State(
    data: seq<byte>, head: nat, tail: nat, writer: Writer, reader: Reader, flusher: Flusher,
    accepted: seq<seq<byte>>, stream: seq<byte>, consumed: nat,
    flushedAt: nat, delivered: seq<byte>)

  datatype Step =
    | Callback(buf: seq<byte>)
    | CopyByteIn
    | PublishHead
    | LoadHead
    | Check(len: nat)
    | GiveUp
    | LoadTail
    | CopyByteOut
    | PublishTail
    | FlushLoad
    | FlushStore

  predicate Shape(s: State) {
    IsCapacity(|s.data|) && s.head < WRAP32 && s.tail < WRAP32
  }

  /** The room the callback computes: capacity minus the wrapped difference. */
  function Room(s: State): int {
    |s.data| - Sub32(s.head, s.tail)
  }

  predicate Enabled(s: State, e: Step)
    requires Shape(s)
  {
    match e
    case Callback(_) => s.writer.NotWriting?
    case CopyByteIn => s.writer.CopyingIn? && s.writer.done < |s.writer.buf| <= |s.data|
    case PublishHead => s.writer.CopyingIn? && s.writer.done == |s.writer.buf|
    case LoadHead => s.reader.NotReading?
    case Check(len) => s.reader.HeadLoaded? && 0 < len <= Sub32(s.reader.head, s.tail)
    case GiveUp => s.reader.HeadLoaded?
    case LoadTail => s.reader.Checked?
    case CopyByteOut => s.reader.CopyingOut? && |s.reader.got| < s.reader.len <= |s.data|
    case PublishTail => s.reader.CopyingOut? && |s.reader.got| == s.reader.len
    case FlushLoad => s.flusher.NotFlushing?
    case FlushStore => s.flusher.FlushLoaded? && s.flusher.head < WRAP32
  }

  function Apply(s: State, e: Step): (r: State)
    requires Shape(s) && Enabled(s, e)
    ensures Shape(r) && |r.data| == |s.data|
  {
    match e
    case Callback(buf) =>
      if buf == [] || Room(s) < |buf| then s else s.(writer := CopyingIn(buf, 0))
    case CopyByteIn =>
      var CopyingIn(buf, i) := s.writer;
      s.(data := s.data[Slot(s.head % |s.data|, i, |s.data|) := buf[i]], writer := CopyingIn(buf, i + 1))
    case PublishHead =>
      s.(head := (s.head + |s.writer.buf|) % WRAP32, writer := NotWriting,
         accepted := s.accepted + [s.writer.buf], stream := s.stream + s.writer.buf)
    case LoadHead => s.(reader := HeadLoaded(s.head, |s.stream|))
    case Check(len) => s.(reader := Checked(len))
    case GiveUp => s.(reader := NotReading)
    case LoadTail => s.(reader := CopyingOut(s.tail, s.reader.len, []))
    case CopyByteOut =>
      var CopyingOut(t, len, got) := s.reader;
      s.(reader := CopyingOut(t, len, got + [s.data[Slot(t % |s.data|, |got|, |s.data|)]]))
    case PublishTail =>
      s.(tail := (s.reader.from + s.reader.len) % WRAP32, reader := NotReading,
         consumed := s.consumed + s.reader.len, delivered := s.delivered + s.reader.got)
    case FlushLoad => s.(flusher := FlushLoaded(s.head, |s.stream|))
    case FlushStore =>
      s.(tail := s.flusher.head, flusher := NotFlushing,
         consumed := s.flusher.upto, flushedAt := s.flusher.upto, delivered := [])
  }

  /** The bytes of a half-finished write are in place. */
  ghost predicate Placed(data: seq<byte>, w: nat, buf: seq<byte>, done: nat)
    requires |data| > 0
  {
    done <= |buf| && forall j :: 0 <= j < done ==> data[(w + j) % |data|] == buf[j]
  }

  ghost predicate WriterSafe(s: State)
    requires |s.data| > 0
  {
    s.writer.CopyingIn? ==>
      && s.writer.buf != []
      && |s.stream| + |s.writer.buf| <= s.consumed + |s.data|
      && Placed(s.data, |s.stream|, s.writer.buf, s.writer.done)
  }

  ghost predicate ReaderSafe(s: State) {
    match s.reader
    case NotReading => true
    case HeadLoaded(h, upto) => h == upto % WRAP32 && s.consumed <= upto <= |s.stream|
    case Checked(len) => 0 < len && s.consumed + len <= |s.stream|
    case CopyingOut(from, len, got) =>
      && from == s.tail
      && 0 < len && |got| <= len
      && s.consumed + len <= |s.stream|
      && got == s.stream[s.consumed..s.consumed + |got|]
  }

  ghost predicate FlusherSafe(s: State) {
    s.flusher.FlushLoaded? ==> s.flusher.head == s.flusher.upto % WRAP32 && s.flusher.upto <= |s.stream|
  }

  /** Occupancy never exceeds capacity, memory holds every unread byte, and what was delivered is the stream. */
  ghost predicate Inv(s: State) {
    && Shape(s)
    && s.head == |s.stream| % WRAP32
    && s.tail == s.consumed % WRAP32
    && s.flushedAt <= s.consumed <= |s.stream| <= s.consumed + |s.data|
    && Holds(s.data, s.stream, s.consumed)
    && s.stream == Flatten(s.accepted)
    && s.delivered == s.stream[s.flushedAt..s.consumed]
    && WriterSafe(s)
    && ReaderSafe(s)
    && FlusherSafe(s)
  }

  /** A buffer is taken if and only if it fits the true free space, however often the indices wrapped. */
  lemma CallbackDecision(s: State, buf: seq<byte>)
    requires Inv(s) && Enabled(s, Callback(buf)) && buf != []
    ensures Apply(s, Callback(buf)).writer.CopyingIn? <==>
            |s.stream| - s.consumed + |buf| <= |s.data|
  {
    Occupancy(|s.stream|, s.consumed);
  }

  /** No slot is both written and read: the two copies never meet. */
  lemma CopiesAreDisjoint(s: State, j: nat, i: nat)
    requires Inv(s) && s.writer.CopyingIn? && s.reader.CopyingOut?
    requires j < |s.writer.buf| && i < s.reader.len
    ensures Slot(s.head % |s.data|, j, |s.data|) != Slot(s.reader.from % |s.data|, i, |s.data|)
  {
    var cap := |s.data|;
    MaskOfWrapped(|s.stream|, cap);
    MaskOfWrapped(s.consumed, cap);
    SlotIsPosition(|s.stream|, j, cap);
    SlotIsPosition(s.consumed, i, cap);
    SlotsDiffer(s.consumed + i, |s.stream| + j, cap);
  }

  // ---- one step ----

  lemma CopyByteInKeeps(s: State)
    requires Inv(s) && Enabled(s, CopyByteIn)
    ensures Inv(Apply(s, CopyByteIn))
  {
    var cap, w, i := |s.data|, |s.stream|, s.writer.done;
    var buf := s.writer.buf;
    MaskOfWrapped(w, cap);
    SlotIsPosition(w, i, cap);
    var r := Apply(s, CopyByteIn);
    forall k | s.consumed <= k < w ensures r.data[k % cap] == s.stream[k] {
      SlotsDiffer(k, w + i, cap);
    }
    forall j | 0 <= j < i + 1 ensures r.data[(w + j) % cap] == buf[j] {
      if j < i {
        SlotsDiffer(w + j, w + i, cap);
      }
    }
  }

  lemma PlacedHolds(data: seq<byte>, stream: seq<byte>, buf: seq<byte>, from: nat)
    requires |data| > 0 && from <= |stream| && Holds(data, stream, from) && Placed(data, |stream|, buf, |buf|)
    ensures Holds(data, stream + buf, from)
  {
    var w := |stream|;
    forall k | from <= k < w + |buf| ensures data[k % |data|] == (stream + buf)[k] {
      if k >= w {
        assert data[(w + (k - w)) % |data|] == buf[k - w];
      }
    }
  }

  lemma PublishHeadKeeps(s: State)
    requires Inv(s) && Enabled(s, PublishHead)
    ensures Inv(Apply(s, PublishHead))
  {
    AdvanceWrapped(|s.stream|, |s.writer.buf|);
    FlattenSnoc(s.accepted, s.writer.buf);
    PlacedHolds(s.data, s.stream, s.writer.buf, s.consumed);
  }

  lemma CopyByteOutKeeps(s: State)
    requires Inv(s) && Enabled(s, CopyByteOut)
    ensures Inv(Apply(s, CopyByteOut))
  {
    var i := |s.reader.got|;
    MaskOfWrapped(s.consumed, |s.data|);
    SlotIsPosition(s.consumed, i, |s.data|);
    assert s.data[(s.consumed + i) % |s.data|] == s.stream[s.consumed + i];
  }

  lemma CallbackKeeps(s: State, e: Step)
    requires Inv(s) && Enabled(s, e) && e.Callback?
    ensures Inv(Apply(s, e))
  {
    Occupancy(|s.stream|, s.consumed);
  }

  lemma CheckKeeps(s: State, e: Step)
    requires Inv(s) && Enabled(s, e) && e.Check?
    ensures Inv(Apply(s, e))
  {
    Occupancy(s.reader.upto, s.consumed);
  }

  lemma PublishTailKeeps(s: State)
    requires Inv(s) && Enabled(s, PublishTail)
    ensures Inv(Apply(s, PublishTail))
  {
    AdvanceWrapped(s.consumed, s.reader.len);
  }

  /**
   * When the flush's store does harm: the reader has meanwhile published beyond the head
   * the flush loaded; or it is between its look at head and its look at tail, and the
   * flush loaded a later head; or it has settled on more bytes than the flush leaves; or
   * it is copying and the flush moves tail at all.
   */
  predicate Tears(s: State, e: Step) {
    && e.FlushStore? && s.flusher.FlushLoaded?
    && var upto := s.flusher.upto;
       || upto < s.consumed
       || (s.reader.HeadLoaded? && s.reader.upto < upto)
       || (s.reader.Checked? && |s.stream| < upto + s.reader.len)
       || (s.reader.CopyingOut? && upto != s.consumed)
  }

  /** Nothing that left the ring comes back into it. */
  ghost predicate Kept(s: State, r: State) {
    Inv(r) && s.consumed <= r.consumed
  }

  lemma WrapsDiffer(a: nat, b: nat)
    requires a < b < a + WRAP32
    ensures a % WRAP32 != b % WRAP32
  {
  }

  lemma FlushStoreKeeps(s: State)
    requires Inv(s) && Enabled(s, FlushStore) && !Tears(s, FlushStore)
    ensures Kept(s, Apply(s, FlushStore))
  {
    var r := Apply(s, FlushStore);
    assert r.delivered == r.stream[r.flushedAt..r.consumed];
  }

  lemma FlushStoreTears(s: State)
    requires Inv(s) && Enabled(s, FlushStore) && Tears(s, FlushStore)
    ensures !Kept(s, Apply(s, FlushStore))
  {
    if s.consumed < s.flusher.upto {
      WrapsDiffer(s.consumed, s.flusher.upto);
    }
  }

  /** Every step keeps the ring and loses no ground, except exactly a flush store that tears a read. */
  lemma RingStep(s: State, e: Step)
    requires Inv(s) && Enabled(s, e)
    ensures Kept(s, Apply(s, e)) <==> !Tears(s, e)
  {
    match e
    case Callback(_) => CallbackKeeps(s, e);
    case CopyByteIn => CopyByteInKeeps(s);
    case PublishHead => PublishHeadKeeps(s);
    case Check(_) => CheckKeeps(s, e);
    case CopyByteOut => CopyByteOutKeeps(s);
    case PublishTail => PublishTailKeeps(s);
    case FlushStore =>
      if Tears(s, e) { FlushStoreTears(s); } else { FlushStoreKeeps(s); }
    case LoadHead =>
    case GiveUp =>
    case LoadTail =>
    case FlushLoad =>
  }

  // ---- whole operations, uninterrupted ----

  /** The rest of a copy into the ring. */
  function PutRest(s: State): (r: State)
    requires Shape(s) && s.writer.CopyingIn? && s.writer.done <= |s.writer.buf| <= |s.data|
    ensures Shape(r) && r.writer == CopyingIn(s.writer.buf, |s.writer.buf|)
    ensures r.(data := s.data, writer := s.writer) == s
    decreases if s.writer.CopyingIn? then |s.writer.buf| - s.writer.done else 0
  {
    if s.writer.done == |s.writer.buf| then s else PutRest(Apply(s, CopyByteIn))
  }

  /**
   * The callback: a buffer that fits is wholly in the stream once it is copied and
   * published; one that does not, or an empty one, leaves everything as it was.
   */
  lemma WholeCallback(s: State, buf: seq<byte>)
    requires Inv(s) && s.writer.NotWriting?
    ensures Enabled(s, Callback(buf))
    ensures var c := Apply(s, Callback(buf));
            if buf == [] || |s.stream| - s.consumed + |buf| > |s.data| then c == s
            else
              && c.writer == CopyingIn(buf, 0) && |buf| <= |c.data|
              && Enabled(PutRest(c), PublishHead)
              && var r := Apply(PutRest(c), PublishHead);
                 && r.stream == s.stream + buf && r.accepted == s.accepted + [buf] && r.writer.NotWriting?
                 && r.head == (s.head + |buf|) % 0x1_0000_0000
                 && r.consumed == s.consumed && r.tail == s.tail && r.reader == s.reader && r.delivered == s.delivered
  {
    Occupancy(|s.stream|, s.consumed);
  }

  /** The check: what it may settle on is exactly what was there when it loaded head, less what was read. */
  lemma CheckDecision(s: State, len: nat)
    requires Inv(s)
    ensures s.reader.NotReading? ==>
              Enabled(s, LoadHead) && Apply(s, LoadHead).reader == HeadLoaded(s.head, |s.stream|)
    ensures s.reader.HeadLoaded? ==>
              && (Enabled(s, Check(len)) <==> 0 < len <= s.reader.upto - s.consumed)
              && (Enabled(s, Check(len)) ==> Apply(s, Check(len)) == s.(reader := Checked(len)))
              && Enabled(s, GiveUp) && Apply(s, GiveUp) == s.(reader := NotReading)
  {
    if s.reader.HeadLoaded? {
      Occupancy(s.reader.upto, s.consumed);
    }
  }

  lemma {:induction false} CopyRestKeeps(s: State)
    requires Inv(s) && s.reader.CopyingOut?
    ensures s.reader.len <= |s.data| && Inv(CopyRest(s)) && CopyRest(s).(reader := s.reader) == s
    decreases if s.reader.CopyingOut? then s.reader.len - |s.reader.got| else 0
  {
    if |s.reader.got| < s.reader.len {
      CopyByteOutKeeps(s);
      CopyRestKeeps(Apply(s, CopyByteOut));
    }
  }

  /** The read: the next `len` bytes of the stream are delivered and the position moves past them. */
  lemma WholeRead(s: State)
    requires Inv(s) && s.reader.Checked?
    ensures Enabled(s, LoadTail)
    ensures var l, len := Apply(s, LoadTail), s.reader.len;
            && l.reader == CopyingOut(s.tail, len, []) && len <= |l.data|
            && Enabled(CopyRest(l), PublishTail)
            && var r := Apply(CopyRest(l), PublishTail);
               && r.consumed == s.consumed + len && s.consumed + len <= |s.stream|
               && r.delivered == s.delivered + s.stream[s.consumed..s.consumed + len]
               && r.tail == (s.tail + len) % 0x1_0000_0000
               && r.reader.NotReading? && r.stream == s.stream && r.head == s.head && r.writer == s.writer
  {
    CopyRestKeeps(Apply(s, LoadTail));
  }

  /** The flush: everything published when it loaded head is gone. */
  lemma WholeFlush(s: State)
    requires Inv(s) && s.flusher.NotFlushing?
    ensures Enabled(s, FlushLoad) && Enabled(Apply(s, FlushLoad), FlushStore)
    ensures var r := Apply(Apply(s, FlushLoad), FlushStore);
            && r.consumed == r.flushedAt == |s.stream| && r.delivered == [] && r.tail == s.head
            && r.stream == s.stream && r.head == s.head && r.data == s.data && r.flusher.NotFlushing?
            && r.writer == s.writer && r.reader == s.reader
  {
  }

  // ---- what a torn read leads to ----

  /** The rest of a copy. */
  function CopyRest(s: State): (r: State)
    requires Shape(s) && s.reader.CopyingOut? && |s.reader.got| <= s.reader.len <= |s.data|
    ensures Shape(r) && r.reader.CopyingOut? && |r.reader.got| == r.reader.len
    ensures r.reader.len == s.reader.len && r.reader.from == s.reader.from && r.head == s.head
    decreases if s.reader.CopyingOut? then s.reader.len - |s.reader.got| else 0
  {
    if |s.reader.got| == s.reader.len then s else CopyRest(Apply(s, CopyByteOut))
  }

  /** The tail once the reader, with whatever it loaded, has copied and published. */
  function TailAfterRead(s: State): nat
    requires Shape(s) && s.reader.CopyingOut? && |s.reader.got| <= s.reader.len <= |s.data|
  {
    Apply(CopyRest(s), PublishTail).tail
  }

  /** A flush inside the copy is undone: the read publishes as if there had been none. */
  lemma FlushInsideCopyIsUndone(s: State)
    requires Inv(s) && s.reader.CopyingOut? && Enabled(s, FlushStore)
    ensures TailAfterRead(Apply(s, FlushStore)) == TailAfterRead(s)
  {
  }

  /** A flush between the check and the tail load: the read publishes a tail beyond head. */
  lemma FlushAfterCheckOverruns(s: State)
    requires Inv(s) && s.reader.Checked? && Enabled(s, FlushStore) && s.flusher.upto == |s.stream|
    ensures var l := Apply(Apply(s, FlushStore), LoadTail);
            Sub32(l.head, TailAfterRead(l)) == WRAP32 - s.reader.len
  {
    var n: nat, len := |s.stream|, s.reader.len;
    AdvanceWrapped(n, len);
    Overrun(n, len);
  }

  lemma Overrun(n: nat, k: nat)
    requires 0 < k < WRAP32
    ensures Sub32(n % WRAP32, (n + k) % WRAP32) == WRAP32 - k
  {
    Occupancy(n + WRAP32, n + k);
    assert (n + WRAP32) % WRAP32 == n % WRAP32;
  }

  /** A flush between the two loads of the check: nearly 2^32 bytes seem to be there. */
  lemma FlushInsideCheckUnderflows(s: State)
    requires Inv(s) && s.reader.HeadLoaded? && Enabled(s, FlushStore) && s.reader.upto < s.flusher.upto
    ensures Sub32(s.reader.head, Apply(s, FlushStore).tail) == WRAP32 - (s.flusher.upto - s.reader.upto)
  {
    var n, k := s.reader.upto, s.flusher.upto - s.reader.upto;
    assert n + k == s.flusher.upto && s.reader.head == n % WRAP32;
    Overrun(n, k);
  }

  /** A flush store after the reader overtook its load: bytes already read are in the ring again. */
  lemma LateFlushRewinds(s: State)
    requires Inv(s) && Enabled(s, FlushStore) && s.flusher.upto < s.consumed && |s.stream| < s.flusher.upto + WRAP32
    ensures var r := Apply(s, FlushStore);
            Sub32(r.head, r.tail) == Sub32(s.head, s.tail) + (s.consumed - s.flusher.upto)
  {
    Occupancy(|s.stream|, s.flusher.upto);
    Occupancy(|s.stream|, s.consumed);
  }

  // ---- whole runs ----

  ghost predicate Start(s: State) {
    Shape(s) && s.head == s.tail == s.consumed == s.flushedAt == 0 &&
    s.accepted == [] && s.stream == [] && s.delivered == [] &&
    s.writer.NotWriting? && s.reader.NotReading? && s.flusher.NotFlushing?
  }

  /** Any interleaving whose flushes tear no read. */
  ghost predicate Run(s: State, es: seq<Step>)
    requires Inv(s)
    decreases |es|
  {
    es == [] ||
    (Enabled(s, es[0]) && !Tears(s, es[0]) && (RingStep(s, es[0]); Run(Apply(s, es[0]), es[1..])))
  }

  ghost function After(s: State, es: seq<Step>): State
    requires Inv(s) && Run(s, es)
    decreases |es|
  {
    if es == [] then s else RingStep(s, es[0]); After(Apply(s, es[0]), es[1..])
  }

  lemma RunCons(s: State, e: Step, es: seq<Step>)
    requires Inv(s) && Enabled(s, e) && !Tears(s, e)
    ensures After(s, []) == s && Inv(Apply(s, e))
    ensures Run(s, [e] + es) <==> Run(Apply(s, e), es)
    ensures Run(s, [e] + es) ==> After(s, [e] + es) == After(Apply(s, e), es)
  {
    RingStep(s, e);
    assert ([e] + es)[1..] == es;
  }

  predicate NoFlush(es: seq<Step>) {
    forall i :: 0 <= i < |es| ==> !es[i].FlushStore?
  }

  lemma StepGrows(s: State, e: Step)
    requires Inv(s) && Enabled(s, e)
    ensures s.stream <= Apply(s, e).stream
    ensures !e.FlushStore? ==> Apply(s, e).flushedAt == s.flushedAt
  {
  }

  lemma {:induction false} RunKeeps(s: State, es: seq<Step>)
    requires Inv(s) && Run(s, es)
    ensures Kept(s, After(s, es))
    ensures |After(s, es).data| == |s.data| && s.stream <= After(s, es).stream
    ensures NoFlush(es) ==> After(s, es).flushedAt == s.flushedAt
    decreases |es|
  {
    if es != [] {
      RingStep(s, es[0]);
      StepGrows(s, es[0]);
      RunKeeps(Apply(s, es[0]), es[1..]);
    }
  }

  /** The encode thread is outside its span from check to publish from the flush's load to its store. */
  predicate QuietFlush(s: State) {
    s.flusher.FlushLoaded? ==> s.reader.NotReading? && s.consumed <= s.flusher.upto
  }

  /** Steps in any order, as far as they are enabled, torn or not. */
  predicate Possible(s: State, es: seq<Step>)
    requires Shape(s)
    decreases |es|
  {
    es == [] || (Enabled(s, es[0]) && Possible(Apply(s, es[0]), es[1..]))
  }

  /** The service flushes only while the encode thread is outside that span, and lets it begin none. */
  ghost predicate FlushesOutsideReads(s: State, es: seq<Step>)
    requires Shape(s) && Possible(s, es)
    decreases |es|
  {
    es == [] ||
    (&& (es[0].FlushLoad? ==> s.reader.NotReading?)
     && (es[0].LoadHead? ==> s.flusher.NotFlushing?)
     && FlushesOutsideReads(Apply(s, es[0]), es[1..]))
  }

  /** Then nothing is torn, in any interleaving. */
  lemma {:induction false} QuietFlushesAreSafe(s: State, es: seq<Step>)
    requires Inv(s) && QuietFlush(s) && Possible(s, es) && FlushesOutsideReads(s, es)
    ensures Run(s, es)
    decreases |es|
  {
    if es != [] {
      RingStep(s, es[0]);
      QuietFlushesAreSafe(Apply(s, es[0]), es[1..]);
    }
  }

  /**
   * The ring is an unbounded FIFO stream: whatever the interleaving, what the reader
   * received followed by what is still inside is the concatenation of the callback
   * buffers that were taken, and never more than the capacity is inside.
   */
  lemma RingIsFifo(s: State, es: seq<Step>)
    requires Start(s) && Run(s, es) && NoFlush(es)
    ensures var r := After(s, es);
            && r.consumed <= |r.stream| <= r.consumed + |s.data|
            && r.delivered + r.stream[r.consumed..] == Flatten(r.accepted)
            && |r.delivered| == r.consumed
  {
    RunKeeps(s, es);
  }

  /** After a flush the reader only ever sees bytes published since the flush loaded head. */
  lemma FlushCutsTheStream(s: State, es: seq<Step>)
    requires Inv(s) && Enabled(s, FlushStore) && !Tears(s, FlushStore)
    requires Inv(Apply(s, FlushStore)) && Run(Apply(s, FlushStore), es) && NoFlush(es)
    ensures var r, upto := After(Apply(s, FlushStore), es), s.flusher.upto;
            s.stream <= r.stream && upto <= r.consumed <= |r.stream| && r.delivered == r.stream[upto..r.consumed]
  {
    RunKeeps(Apply(s, FlushStore), es);
  }
}
