/**
 * The whole sending path -- ring, encode pass, packet queue -- across a lost link and
 * the service's reconnect section, whose stores are steps of their own between which
 * capture, hand-overs, sends and further losses go on. The ring appears as the FIFO
 * stream it was proved to be; a pass is under way from the load of the encoder pointer
 * on; a hand-over is the stream test of `send_media` and its enqueue.
 */
module Pipeline {
  import opened Bytes
  import opened Packetiser
  import opened MediaQueue
  import opened EncodePass
  import opened EncodeTimeline
  import opened EncodeRuns

  /** The fixed parts: encoder, block size, frames per call, payload limit, ring size, codec, sample conversion. */
  datatype Config = Config(
    enc: Encoder, n: nat, fpe: nat, max: nat, capacity: nat, codec: Codec,
    convert: seq<byte> -> seq<byte>)

  /**
   * The encode thread: outside a pass, past its load of the encoder but not yet of the
   * ring, or encoding and handing over; `next` is the context the pass will leave.
   */
  datatype PassState = NoPass | EncoderLoaded | InPass(next: Context)

  /** The last thing the service thread did. */
  datatype Service =
    | Linked            // encoder and transport are published; passes may begin
    | Unlinked          // the loss was noticed: no new pass
    | Stopped           // reconnect stored streaming_ = false
    | QueueReset        // ... and reset the queue
    | Resumed           // the stream has started again
    | ClockRestarted    // timestamp = 0
    | ResidualCleared
    | Flushed           // the ring is empty; encoder and transport come next

  /**
   * `captured` and `chunks` record what was captured and read since the last flush, and
   * `base` what the encoder had been given by then.
   */
  datatype State = State(
    ring: seq<byte>, ctx: Context, pass: PassState, outbox: seq<Packet>, admitted: bool,
    q: Queue, streaming: bool, service: Service,
    captured: seq<byte>, chunks: seq<seq<byte>>, base: seq<Block>)

  datatype Step =
    | Capture(buf: seq<byte>)    // the audio callback
    | LoadEncoder                // the encode thread finds an encoder: a pass is under way
    | GiveUp                     // ... but too little to read
    | BeginPass(len: nat)        // ... reads a chunk, encodes and packs it
    | Admit                      // ... calls send_media for the next packet, which tests the stream
    | Deliver                    // ... and enqueues it
    | EndPass
    | CanSendNow                 // the run loop takes a packet
    | LinkLost                   // a disconnect handler
    | StreamStarted              // STREAM_STARTED while reconnect() is not waiting for it
    | Unlink                     // the service thread takes encoder and transport away
    | StopStream                 // an attempt of reconnect(), the first or another
    | ResetQueue
    | StreamResumes              // STREAM_STARTED, for which reconnect() waits
    | RestartClock
    | ClearResidual
    | FlushRing
    | Relink

  predicate Enabled(s: State, e: Step) {
    match e
    case Capture(_) => true
    case LoadEncoder => s.service.Linked? && s.pass.NoPass?
    case GiveUp => s.pass.EncoderLoaded?
    case BeginPass(len) => s.pass.EncoderLoaded? && 0 < len <= |s.ring|
    case Admit => s.outbox != [] && !s.admitted
    case Deliver => s.outbox != [] && s.admitted
    case EndPass => s.pass.InPass? && s.outbox == []
    case CanSendNow => s.q.count > 0
    case LinkLost => true
    case StreamStarted => !s.service.QueueReset?
    case Unlink => s.service.Linked?
    case StopStream => s.service.Unlinked? || s.service.QueueReset?
    case ResetQueue => s.service.Stopped?
    case StreamResumes => s.service.QueueReset?
    case RestartClock => s.service.Resumed?
    case ClearResidual => s.service.ClockRestarted?
    case FlushRing => s.service.ResidualCleared?
    case Relink => s.service.Flushed?
  }

  /** What the critical section of `send_media` does with one packet. */
  function Enqueued(q: Queue, p: Packet, codec: Codec): Queue
    requires q.head < |q.slots|
  {
    var built := BuildOf(p, codec);
    if q.count < CAPACITY && built.Fits? then Store(q, built.packet) else q
  }

  function Apply(z: Config, s: State, e: Step): State
    requires z.n > 0 && Inv(s.q) && Enabled(s, e)
  {
    match e
    case Capture(buf) =>
      if buf == [] || |s.ring| + |buf| > z.capacity then s
      else s.(ring := s.ring + buf, captured := s.captured + buf)
    case LoadEncoder => s.(pass := EncoderLoaded)
    case GiveUp => s.(pass := NoPass)
    case BeginPass(len) =>
      var next := Pass(s.ctx, z.convert(s.ring[..len]), z.enc, z.n, z.fpe, z.max);
      s.(ring := s.ring[len..], pass := InPass(next), outbox := next.offered[|s.ctx.offered|..],
         chunks := s.chunks + [s.ring[..len]])
    case Admit => if s.streaming then s.(admitted := true) else s.(outbox := s.outbox[1..])
    case Deliver => s.(q := Enqueued(s.q, s.outbox[0], z.codec), outbox := s.outbox[1..], admitted := false)
    case EndPass => s.(ctx := s.pass.next, pass := NoPass)
    case CanSendNow => s.(q := Take(s.q))
    case LinkLost => s.(streaming := false, q := ClearCount(s.q))
    case StreamStarted => s.(streaming := true)
    case Unlink => s.(service := Unlinked)
    case StopStream => s.(streaming := false, service := Stopped)
    case ResetQueue => s.(q := Reset(s.q), service := QueueReset)
    case StreamResumes => s.(streaming := true, service := Resumed)
    case RestartClock => s.(ctx := s.ctx.(timestamp := 0), service := ClockRestarted)
    case ClearResidual => s.(ctx := s.ctx.(residual := []), service := ResidualCleared)
    case FlushRing =>
      s.(ring := [], ctx := s.ctx.(offered := []), service := Flushed,
         captured := [], chunks := [], base := s.ctx.encoded)
    case Relink => s.(service := Linked)
  }

  // ---- who changes what ----

  /** The callback takes a nonempty buffer whole if the ring has room for it; the pass takes what it read. */
  lemma RingChanges(z: Config, s: State, e: Step)
    requires z.n > 0 && Inv(s.q) && Enabled(s, e)
    ensures var r := Apply(z, s, e);
            var taken := e.Capture? && e.buf != [] && |s.ring| + |e.buf| <= z.capacity;
            && r.ring == (if taken then s.ring + e.buf
                          else if e.BeginPass? then s.ring[e.len..]
                          else if e.FlushRing? then [] else s.ring)
            && r.captured == (if taken then s.captured + e.buf else if e.FlushRing? then [] else s.captured)
            && r.chunks == (if e.BeginPass? then s.chunks + [s.ring[..e.len]]
                            else if e.FlushRing? then [] else s.chunks)
            && r.base == (if e.FlushRing? then s.ctx.encoded else s.base)
  {
  }

  /** The context is the pass's from its end, and the service's stores otherwise. */
  lemma ContextChanges(z: Config, s: State, e: Step)
    requires z.n > 0 && Inv(s.q) && Enabled(s, e)
    ensures Apply(z, s, e).ctx ==
              match e
              case EndPass => s.pass.next
              case RestartClock => s.ctx.(timestamp := 0)
              case ClearResidual => s.ctx.(residual := [])
              case FlushRing => s.ctx.(offered := [])
              case _ => s.ctx
    ensures Apply(z, s, e).pass ==
              match e
              case LoadEncoder => EncoderLoaded
              case GiveUp => NoPass
              case BeginPass(len) => InPass(Pass(s.ctx, z.convert(s.ring[..len]), z.enc, z.n, z.fpe, z.max))
              case EndPass => NoPass
              case _ => s.pass
  {
  }

  /** A hand-over passes the test exactly while streaming; a packet leaves the outbox one way or the other. */
  lemma HandOverChanges(z: Config, s: State, e: Step)
    requires z.n > 0 && Inv(s.q) && Enabled(s, e)
    ensures Apply(z, s, e).admitted == ((e.Admit? && s.streaming) || (s.admitted && !e.Deliver?))
    ensures !e.BeginPass? ==>
              Apply(z, s, e).outbox ==
                if e.Deliver? || (e.Admit? && !s.streaming) then s.outbox[1..] else s.outbox
    ensures e.BeginPass? ==> s.ctx.offered + Apply(z, s, e).outbox == Apply(z, s, e).pass.next.offered
  {
    if e.BeginPass? {
      var next := Pass(s.ctx, z.convert(s.ring[..e.len]), z.enc, z.n, z.fpe, z.max);
      assert s.ctx.offered <= next.offered;
    }
  }

  /** Which steps are open: the threads' next ones, and at any time captures, losses and the stream. */
  lemma StepsAreOpen(s: State, buf: seq<byte>, len: nat)
    ensures Enabled(s, Capture(buf)) && Enabled(s, LinkLost)
    ensures !s.service.QueueReset? ==> Enabled(s, StreamStarted)
    ensures s.q.count > 0 ==> Enabled(s, CanSendNow)
    ensures Enabled(s, LoadEncoder) <==> s.service.Linked? && s.pass.NoPass?
    ensures s.pass.EncoderLoaded? ==>
              Enabled(s, GiveUp) && (Enabled(s, BeginPass(len)) <==> 1 <= len <= |s.ring|)
    ensures s.outbox != [] ==> (if s.admitted then Enabled(s, Deliver) else Enabled(s, Admit))
    ensures s.pass.InPass? && s.outbox == [] ==> Enabled(s, EndPass)
    ensures match s.service
            case Linked => Enabled(s, Unlink)
            case Unlinked => Enabled(s, StopStream)
            case Stopped => Enabled(s, ResetQueue)
            case QueueReset => Enabled(s, StreamResumes) && Enabled(s, StopStream)
            case Resumed => Enabled(s, RestartClock)
            case ClockRestarted => Enabled(s, ClearResidual)
            case ResidualCleared => Enabled(s, FlushRing)
            case Flushed => Enabled(s, Relink)
  {
  }

  /** A delivery stores the packet, behind its header for SBC, exactly if there is room and it fits. */
  lemma StoredChanges(z: Config, s: State, e: Step)
    requires z.n > 0 && Inv(s.q) && Enabled(s, e)
    ensures var p, r := if e.Deliver? then s.outbox[0] else Packet([], 0, 0), Apply(z, s, e).q.stored;
            var data := if z.codec == SBC then [p.frames % 16] + p.payload else p.payload;
            if e.Deliver? && s.q.count < 64 && |data| <= 1024
            then r == s.q.stored + [MediaPacket(data, p.timestamp, p.frames)]
            else r == if e.ResetQueue? then [] else s.q.stored
  {
  }

  lemma TakenChanges(z: Config, s: State, e: Step)
    requires z.n > 0 && Inv(s.q) && Enabled(s, e)
    ensures var r := Apply(z, s, e).q;
            && r.taken == (if e.CanSendNow? then s.q.taken + [s.q.slots[s.q.tail]]
                           else if e.ResetQueue? then [] else s.q.taken)
            && r.forgotten == (if e.LinkLost? then s.q.forgotten + s.q.count
                               else if e.ResetQueue? then 0 else s.q.forgotten)
            && (e.LinkLost? || e.ResetQueue? ==> r.count == 0)
  {
  }

  lemma StreamChanges(z: Config, s: State, e: Step)
    requires z.n > 0 && Inv(s.q) && Enabled(s, e)
    ensures Apply(z, s, e).streaming ==
              (e.StreamStarted? || e.StreamResumes? || (s.streaming && !e.LinkLost? && !e.StopStream?))
    ensures Apply(z, s, e).service ==
              match e
              case Unlink => Unlinked
              case StopStream => Stopped
              case ResetQueue => QueueReset
              case StreamResumes => Resumed
              case RestartClock => ClockRestarted
              case ClearResidual => ResidualCleared
              case FlushRing => Flushed
              case Relink => Linked
              case _ => s.service
  {
  }

  // ---- what every step keeps ----

  function Converted(z: Config, chunks: seq<seq<byte>>): seq<seq<byte>> {
    seq(|chunks|, i requires 0 <= i < |chunks| => z.convert(chunks[i]))
  }

  function Fresh(base: seq<Block>): Context { Context([], 0, base, []) }

  /** The context as it is, or will be at the end of the pass under way. */
  function Now(s: State): Context {
    if s.pass.InPass? then s.pass.next else s.ctx
  }

  /** The context a fresh one becomes over these chunks. */
  function Grown(z: Config, base: seq<Block>, chunks: seq<seq<byte>>): Context
    requires z.n > 0
  {
    Passes(Fresh(base), Converted(z, chunks), z.enc, z.n, z.fpe, z.max)
  }

  /** The packet `send_media` builds, or that it is too large. */
  function BuildOf(p: Packet, codec: Codec): Built { Build(p.payload, p.timestamp, p.frames, codec) }

  /** The queue packet holds the payload, time and frame count, behind a one-byte header for SBC. */
  predicate Wraps(m: MediaPacket, p: Packet, codec: Codec) {
    Holding(m, p.payload, p.timestamp, p.frames, codec)
  }

  /** These queue packets wrap, in order, some of those packets. */
  predicate InOrder(ms: seq<MediaPacket>, ps: seq<Packet>, codec: Codec)
    decreases |ps|
  {
    ms == [] ||
    (ps != [] &&
     var m, p, before := ms[|ms| - 1], ps[|ps| - 1], ps[..|ps| - 1];
     (Wraps(m, p, codec) && InOrder(ms[..|ms| - 1], before, codec)) || InOrder(ms, before, codec))
  }

  /** The packets of passes so far that were handed over, or dropped on the way. */
  function Handed(s: State): seq<Packet>
    requires |s.outbox| <= |Now(s).offered|
  {
    Now(s).offered[..|Now(s).offered| - |s.outbox|]
  }

  /** Sound, and everything stored was built in order from these packets. */
  ghost predicate Sourced(q: Queue, handed: seq<Packet>, codec: Codec) {
    && Inv(q)
    && (forall i :: 0 <= i < |q.taken| ==> q.taken[i] in q.stored)
    && InOrder(q.stored, handed, codec)
  }

  /**
   * Every byte captured since the flush is in a chunk or still in the ring, and the
   * context is what passes over exactly these chunks make of a fresh one.
   */
  ghost predicate Logged(z: Config, s: State)
    requires z.n > 0
  {
    Flatten(s.chunks) + s.ring == s.captured && Now(s) == Grown(z, s.base, s.chunks)
  }

  ghost predicate InService(z: Config, s: State)
    requires z.n > 0
  {
    var idle := s.pass.NoPass? && s.q.stored == [];
    match s.service
    case Linked => Logged(z, s)
    case Unlinked => Logged(z, s)
    case Stopped => Logged(z, s) && !s.streaming
    case QueueReset => Logged(z, s) && !s.streaming && !s.admitted && s.q.stored == []
    case Resumed => Logged(z, s) && idle
    case ClockRestarted => idle && s.ctx.timestamp == 0
    case ResidualCleared => idle && s.ctx.timestamp == 0 && s.ctx.residual == []
    case Flushed => Logged(z, s) && idle && s.chunks == [] && s.ctx == Fresh(s.base)
  }

  ghost predicate Good(z: Config, s: State) {
    && z.n > 0
    && HandOvers(s)
    && Sourced(s.q, Handed(s), z.codec)
    && InService(z, s)
  }

  /** What is still to be handed over are the last packets of the pass under way. */
  ghost predicate HandOvers(s: State) {
    && (s.admitted ==> s.outbox != [])
    && (s.outbox != [] ==> s.pass.InPass?)
    && |s.outbox| <= |Now(s).offered|
    && Now(s).offered == Handed(s) + s.outbox
  }

  /**
   * The steps that let the past through: the queue reset while a packet already passed
   * the stream test, the start of the stream before it, and the start of the stream that
   * reconnect() waits for while a pass is under way.
   */
  predicate Dirty(s: State, e: Step) {
    || (e.ResetQueue? && s.admitted)
    || (e.StreamStarted? && s.service.Stopped?)
    || (e.StreamResumes? && !s.pass.NoPass?)
  }

  lemma {:induction false} PassesSnoc(
      c: Context, xs: seq<seq<byte>>, x: seq<byte>, enc: Encoder, n: nat, fpe: nat, max: nat)
    requires n > 0
    ensures Passes(c, xs + [x], enc, n, fpe, max)
         == Pass(Passes(c, xs, enc, n, fpe, max), x, enc, n, fpe, max)
    decreases |xs|
  {
    if xs == [] {
      assert xs + [x] == [x] && [x][1..] == [];
    } else {
      assert (xs + [x])[1..] == xs[1..] + [x];
      PassesSnoc(Pass(c, xs[0], enc, n, fpe, max), xs[1..], x, enc, n, fpe, max);
    }
  }

  lemma GrownByChunk(z: Config, base: seq<Block>, chunks: seq<seq<byte>>, chunk: seq<byte>)
    requires z.n > 0
    ensures Grown(z, base, chunks + [chunk])
         == Pass(Grown(z, base, chunks), z.convert(chunk), z.enc, z.n, z.fpe, z.max)
  {
    assert Converted(z, chunks + [chunk]) == Converted(z, chunks) + [z.convert(chunk)];
    PassesSnoc(Fresh(base), Converted(z, chunks), z.convert(chunk), z.enc, z.n, z.fpe, z.max);
  }

  lemma BeginPassKeeps(z: Config, s: State, len: nat)
    requires Good(z, s) && Enabled(s, BeginPass(len))
    ensures Good(z, Apply(z, s, BeginPass(len)))
  {
    var r, chunk := Apply(z, s, BeginPass(len)), s.ring[..len];
    FlattenSnoc(s.chunks, chunk);
    CutAt(s.ring, len);
    Assoc(Flatten(s.chunks), chunk, s.ring[len..]);
    GrownByChunk(z, s.base, s.chunks, chunk);
    assert s.outbox == [] && Handed(s) == s.ctx.offered == Handed(r);
  }

  lemma OneMoreHanded(ms: seq<MediaPacket>, ps: seq<Packet>, p: Packet, codec: Codec)
    requires InOrder(ms, ps, codec)
    ensures InOrder(ms, ps + [p], codec)
    ensures BuildOf(p, codec).Fits? ==> InOrder(ms + [BuildOf(p, codec).packet], ps + [p], codec)
  {
    assert (ps + [p])[..|ps|] == ps;
    BuildMeans(p.payload, p.timestamp, p.frames, codec);
    if BuildOf(p, codec).Fits? {
      assert (ms + [BuildOf(p, codec).packet])[..|ms|] == ms;
    }
  }

  lemma DeliverKeeps(q: Queue, p: Packet, handed: seq<Packet>, codec: Codec)
    requires Sourced(q, handed, codec)
    ensures Sourced(Enqueued(q, p, codec), handed + [p], codec)
  {
    OneMoreHanded(q.stored, handed, p, codec);
    if q.count < CAPACITY && BuildOf(p, codec).Fits? {
      StoreKeeps(q, BuildOf(p, codec).packet);
    }
  }

  lemma TakenKeeps(q: Queue, handed: seq<Packet>, codec: Codec)
    requires Sourced(q, handed, codec) && q.count > 0
    ensures Sourced(Take(q), handed, codec)
  {
    TakeIsExact(q);
    TakeKeeps(q);
  }

  /** The next packet moves from the outbox to those handed over. */
  lemma NextHanded(s: State, r: State)
    requires HandOvers(s) && s.outbox != [] && r.outbox == s.outbox[1..] && Now(r) == Now(s)
    requires r.pass == s.pass && !r.admitted
    ensures HandOvers(r) && Handed(r) == Handed(s) + [s.outbox[0]]
  {
  }

  lemma AdmitKeeps(z: Config, s: State)
    requires Good(z, s) && Enabled(s, Admit)
    ensures Good(z, Apply(z, s, Admit))
  {
    if !s.streaming {
      NextHanded(s, Apply(z, s, Admit));
      OneMoreHanded(s.q.stored, Handed(s), s.outbox[0], z.codec);
    }
  }

  lemma DeliverStepKeeps(z: Config, s: State)
    requires Good(z, s) && Enabled(s, Deliver)
    ensures Good(z, Apply(z, s, Deliver))
  {
    NextHanded(s, Apply(z, s, Deliver));
    DeliverKeeps(s.q, s.outbox[0], Handed(s), z.codec);
  }

  lemma FreshIsGrown(z: Config, base: seq<Block>)
    requires z.n > 0
    ensures Grown(z, base, []) == Fresh(base)
  {
    assert Converted(z, []) == [];
  }

  lemma EncodeStepKeeps(z: Config, s: State, e: Step)
    requires Good(z, s) && Enabled(s, e)
    requires e.LoadEncoder? || e.GiveUp? || e.BeginPass? || e.Admit? || e.Deliver? || e.EndPass?
    ensures Good(z, Apply(z, s, e))
  {
    match e
    case BeginPass(len) => BeginPassKeeps(z, s, len);
    case Admit => AdmitKeeps(z, s);
    case Deliver => DeliverStepKeeps(z, s);
    case LoadEncoder =>
    case GiveUp =>
    case EndPass =>
  }

  predicate ServiceStep(e: Step) {
    || e.Unlink? || e.StopStream? || e.ResetQueue? || e.StreamResumes? || e.RestartClock?
    || e.ClearResidual? || e.FlushRing? || e.Relink?
  }

  lemma PauseStepIff(z: Config, s: State, e: Step)
    requires z.n > 0 && Inv(s.q) && HandOvers(s) && InService(z, s) && Enabled(s, e)
    requires e.Unlink? || e.StopStream? || e.ResetQueue? || e.StreamResumes?
    ensures InService(z, Apply(z, s, e)) <==> !Dirty(s, e)
  {
    match e
    case Unlink =>
    case StopStream =>
    case ResetQueue =>
    case StreamResumes =>
  }

  lemma CutStepKeeps(z: Config, s: State, e: Step)
    requires z.n > 0 && Inv(s.q) && HandOvers(s) && InService(z, s) && Enabled(s, e)
    requires e.RestartClock? || e.ClearResidual? || e.FlushRing? || e.Relink?
    ensures InService(z, Apply(z, s, e)) && !Dirty(s, e)
  {
    match e
    case RestartClock =>
    case ClearResidual =>
    case FlushRing => FreshIsGrown(z, s.ctx.encoded);
    case Relink =>
  }

  lemma ResetKeepsRest(z: Config, s: State)
    requires Good(z, s) && Enabled(s, ResetQueue)
    ensures var r := Apply(z, s, ResetQueue); HandOvers(r) && Sourced(r.q, Handed(r), z.codec)
  {
    ClearKeeps(s.q);
  }

  lemma FlushKeepsRest(z: Config, s: State)
    requires Good(z, s) && Enabled(s, FlushRing)
    ensures var r := Apply(z, s, FlushRing); HandOvers(r) && Sourced(r.q, Handed(r), z.codec)
  {
  }

  lemma ServiceStepKeepsRest(z: Config, s: State, e: Step)
    requires z.n > 0 && HandOvers(s) && Sourced(s.q, Handed(s), z.codec) && Enabled(s, e)
    requires ServiceStep(e) && !e.ResetQueue? && !e.FlushRing?
    ensures var r := Apply(z, s, e); HandOvers(r) && Sourced(r.q, Handed(r), z.codec)
  {
    var r := Apply(z, s, e);
    assert r.q == s.q && Now(r).offered == Now(s).offered;
  }

  lemma ServiceStepIff(z: Config, s: State, e: Step)
    requires Good(z, s) && Enabled(s, e) && ServiceStep(e)
    ensures Good(z, Apply(z, s, e)) <==> !Dirty(s, e)
  {
    if e.Unlink? || e.StopStream? || e.ResetQueue? || e.StreamResumes? {
      PauseStepIff(z, s, e);
    } else {
      CutStepKeeps(z, s, e);
    }
    match e
    case ResetQueue => ResetKeepsRest(z, s);
    case FlushRing => FlushKeepsRest(z, s);
    case _ => ServiceStepKeepsRest(z, s, e);
  }

  lemma OutsideStepIff(z: Config, s: State, e: Step)
    requires Good(z, s) && Enabled(s, e)
    requires e.Capture? || e.CanSendNow? || e.LinkLost? || e.StreamStarted?
    ensures Good(z, Apply(z, s, e)) <==> !Dirty(s, e)
  {
    assert Handed(Apply(z, s, e)) == Handed(s);
    match e
    case Capture(buf) => Assoc(Flatten(s.chunks), s.ring, buf);
    case CanSendNow => TakenKeeps(s.q, Handed(s), z.codec);
    case LinkLost => ClearKeeps(s.q);
    case StreamStarted =>
  }

  /** Exactly which steps keep the past out. */
  lemma GoodStep(z: Config, s: State, e: Step)
    requires Good(z, s) && Enabled(s, e)
    ensures Good(z, Apply(z, s, e)) <==> !Dirty(s, e)
  {
    if ServiceStep(e) {
      ServiceStepIff(z, s, e);
    } else if e.Capture? || e.CanSendNow? || e.LinkLost? || e.StreamStarted? {
      OutsideStepIff(z, s, e);
    } else {
      EncodeStepKeeps(z, s, e);
    }
  }

  /** Between the queue reset and the start of the stream every hand-over is dropped. */
  lemma HandOverIsDropped(z: Config, s: State)
    requires Good(z, s) && s.service.QueueReset? && s.outbox != []
    ensures Enabled(s, Admit) && !Enabled(s, Deliver)
    ensures Apply(z, s, Admit) == s.(outbox := s.outbox[1..])
  {
  }

  // ---- what a dirty step lets through ----

  predicate HeldBy(q: Queue, p: Packet, codec: Codec) {
    q.count == 1 && BuildOf(p, codec).Fits?
    && q.stored == [BuildOf(p, codec).packet]
  }

  /** A packet admitted before the reset is queued after it. */
  lemma AdmittedPacketSurvives(z: Config, s: State)
    requires Good(z, s) && s.service.Stopped? && s.admitted
    requires var p := s.outbox[0]; BuildOf(p, z.codec).Fits?
    ensures HeldBy(Apply(z, Apply(z, s, ResetQueue), Deliver).q, s.outbox[0], z.codec)
  {
    ClearKeeps(s.q);
  }

  /** With the stream started between the stop and the reset, a packet of the old pass passes the test. */
  lemma EarlyStartAdmits(z: Config, s: State)
    requires Good(z, s) && s.service.Stopped? && s.outbox != [] && !s.admitted
    ensures Dirty(s, StreamStarted) && Apply(z, Apply(z, s, StreamStarted), Admit).admitted
  {
  }

  /** A packet of a pass that outlives the pause is queued when the stream is back. */
  lemma OldPacketIsQueued(z: Config, s: State)
    requires Good(z, s) && s.service.QueueReset? && s.outbox != []
    requires var p := s.outbox[0]; BuildOf(p, z.codec).Fits?
    ensures HeldBy(Apply(z, Apply(z, Apply(z, s, StreamResumes), Admit), Deliver).q, s.outbox[0], z.codec)
  {
  }

  /** A pass that ends after the restart brings the old clock and residual back. */
  lemma OldClockComesBack(z: Config, s: State)
    requires Good(z, s) && s.service.QueueReset? && s.pass.InPass? && s.outbox == []
    ensures var r := Apply(z, Apply(z, Apply(z, Apply(z, s, StreamResumes), RestartClock), ClearResidual), EndPass);
            r.ctx.timestamp == s.pass.next.timestamp && r.ctx.residual == s.pass.next.residual
  {
  }

  // ---- runs ----

  /** A run without a dirty step. */
  ghost predicate Run(z: Config, s: State, es: seq<Step>)
    requires Good(z, s)
    decreases |es|
  {
    es == [] ||
    (Enabled(s, es[0]) && !Dirty(s, es[0]) && (GoodStep(z, s, es[0]); Run(z, Apply(z, s, es[0]), es[1..])))
  }

  ghost function After(z: Config, s: State, es: seq<Step>): (r: State)
    requires Good(z, s) && Run(z, s, es)
    ensures Good(z, r)
    decreases |es|
  {
    if es == [] then s else GoodStep(z, s, es[0]); After(z, Apply(z, s, es[0]), es[1..])
  }

  lemma RunCons(z: Config, s: State, e: Step, es: seq<Step>)
    requires Good(z, s) && Enabled(s, e) && !Dirty(s, e)
    ensures Good(z, Apply(z, s, e))
    ensures Run(z, s, [e] + es) <==> Run(z, Apply(z, s, e), es)
    ensures Run(z, s, [e] + es) ==> After(z, s, [e] + es) == After(z, Apply(z, s, e), es)
  {
    GoodStep(z, s, e);
    assert ([e] + es)[1..] == es;
  }

  // ---- the clean cut ----

  /** The service has restarted the stream and not yet emptied the ring. */
  predicate Cutting(s: State) {
    s.service.Resumed? || s.service.ClockRestarted? || s.service.ResidualCleared?
  }

  /**
   * Two pipelines that agree on everything but unused queue slots and their logs; until
   * the cut is complete, on everything but ring, residual and clock as well.
   */
  ghost predicate Same(a: State, b: State) {
    && a.service == b.service && a.streaming == b.streaming
    && a.pass == b.pass && a.outbox == b.outbox && a.admitted == b.admitted
    && a.q.(slots := b.q.slots) == b.q
    && a.ctx.encoded == b.ctx.encoded
    && (Cutting(a) || (a.ring == b.ring && a.ctx == b.ctx))
  }

  lemma SameTake(p: Queue, q: Queue)
    requires Inv(p) && Inv(q) && p.(slots := q.slots) == q && p.count > 0
    ensures Take(p).(slots := q.slots) == Take(q)
  {
    TakeIsExact(p);
    TakeIsExact(q);
  }

  lemma SameServiceStep(z: Config, a: State, b: State, e: Step)
    requires z.n > 0 && Inv(a.q) && Inv(b.q) && Same(a, b) && Enabled(a, e) && ServiceStep(e)
    requires e.FlushRing? ==> a.ctx.timestamp == b.ctx.timestamp && a.ctx.residual == b.ctx.residual
    ensures Enabled(b, e) && Same(Apply(z, a, e), Apply(z, b, e))
  {
    match e
    case Unlink =>
    case StopStream =>
    case ResetQueue =>
    case StreamResumes =>
    case RestartClock =>
    case ClearResidual =>
    case FlushRing =>
    case Relink =>
  }

  lemma SameEnqueued(p: Queue, q: Queue, packet: Packet, codec: Codec)
    requires p.(slots := q.slots) == q && p.head < |p.slots| == |q.slots|
    ensures Enqueued(p, packet, codec).(slots := Enqueued(q, packet, codec).slots) == Enqueued(q, packet, codec)
  {
  }

  lemma SameOtherStep(z: Config, a: State, b: State, e: Step)
    requires z.n > 0 && Inv(a.q) && Inv(b.q) && Same(a, b) && Enabled(a, e) && !ServiceStep(e)
    requires Cutting(a) ==> a.pass.NoPass?
    ensures Enabled(b, e) && Same(Apply(z, a, e), Apply(z, b, e))
  {
    match e
    case Capture(_) =>
    case LoadEncoder =>
    case GiveUp =>
    case BeginPass(_) =>
    case Admit =>
    case Deliver => SameEnqueued(a.q, b.q, a.outbox[0], z.codec);
    case EndPass =>
    case CanSendNow => SameTake(a.q, b.q);
    case LinkLost =>
    case StreamStarted =>
  }

  lemma SameStep(z: Config, a: State, b: State, e: Step)
    requires Good(z, a) && Good(z, b) && Same(a, b) && Enabled(a, e) && !Dirty(a, e)
    ensures Enabled(b, e) && !Dirty(b, e) && Same(Apply(z, a, e), Apply(z, b, e))
  {
    if ServiceStep(e) {
      SameServiceStep(z, a, b, e);
    } else {
      SameOtherStep(z, a, b, e);
    }
  }

  lemma {:induction false} SameRun(z: Config, a: State, b: State, es: seq<Step>)
    requires Good(z, a) && Good(z, b) && Same(a, b) && Run(z, a, es)
    ensures Run(z, b, es) && Same(After(z, a, es), After(z, b, es))
    decreases |es|
  {
    if es != [] {
      GoodStep(z, a, es[0]);
      SameStep(z, a, b, es[0]);
      GoodStep(z, b, es[0]);
      SameRun(z, Apply(z, a, es[0]), Apply(z, b, es[0]), es[1..]);
    }
  }

  /**
   * With no pass under way when the stream starts again, the reconnect is a clean cut.
   * Take any two pasts, with whatever PCM in the ring, residual, packets once queued and
   * clock, that left the encoder in the same state: no future, in whatever order capture,
   * losses, sends and the rest of the section come, tells them apart, and the same
   * packets are stored and sent.
   */
  lemma ReconnectIsCleanCut(z: Config, a: State, b: State, es: seq<Step>)
    requires Good(z, a) && a.service.QueueReset? && a.pass.NoPass?
    requires Good(z, b) && b.service.QueueReset? && b.pass.NoPass?
    requires a.ctx.encoded == b.ctx.encoded
    requires Run(z, a, [StreamResumes] + es)
    ensures Run(z, b, [StreamResumes] + es)
    ensures var ra, rb := After(z, a, [StreamResumes] + es), After(z, b, [StreamResumes] + es);
            ra.q.taken == rb.q.taken && ra.q.stored == rb.q.stored && ra.outbox == rb.outbox
  {
    RunCons(z, a, StreamResumes, es);
    RunCons(z, b, StreamResumes, es);
    SameRun(z, Apply(z, a, StreamResumes), Apply(z, b, StreamResumes), es);
  }

  lemma {:induction false} BaseStays(z: Config, s: State, es: seq<Step>)
    requires Good(z, s) && Run(z, s, es) && forall i :: 0 <= i < |es| ==> !es[i].FlushRing?
    ensures After(z, s, es).base == s.base
    decreases |es|
  {
    if es != [] {
      GoodStep(z, s, es[0]);
      BaseStays(z, Apply(z, s, es[0]), es[1..]);
    }
  }

  /** The encoder's replies to the PCM of these chunks. */
  function RepliesTo(z: Config, base: seq<Block>, chunks: seq<seq<byte>>): seq<Reply>
    requires z.n > 0
  {
    Replies(z.enc, base, Blocks(Flatten(Converted(z, chunks)), z.n))
  }

  /**
   * The context holds the past of these chunks and nothing else: PCM conserved, a clock
   * that counts from 0, and, when the replies fit the accumulator, packets whose payloads
   * are the encoder's replies.
   */
  ghost predicate MadeOf(z: Config, c: Context, base: seq<Block>, chunks: seq<seq<byte>>)
    requires z.n > 0
  {
    && base <= c.encoded
    && Flatten(c.encoded[|base|..]) + c.residual == Flatten(Converted(z, chunks))
    && c.timestamp == Stamp(0, |c.encoded| - |base|, z.fpe)
    && (z.max <= ACCUM_BYTES && Packable(RepliesTo(z, base, chunks)) ==>
          Payloads(c.offered) == Payload(Frames(RepliesTo(z, base, chunks), 0)))
  }

  lemma GrownIsMadeOf(z: Config, base: seq<Block>, chunks: seq<seq<byte>>)
    requires z.n > 0
    ensures MadeOf(z, Grown(z, base, chunks), base, chunks)
  {
    var f, xs := Fresh(base), Converted(z, chunks);
    PcmIsConserved(f, xs, z.enc, z.n, z.fpe, z.max);
    ClockOfPasses(f, xs, z.enc, z.n, z.fpe, z.max);
    NothingAdded(Flatten(xs));
    if z.max <= ACCUM_BYTES && Packable(RepliesTo(z, base, chunks)) {
      RunIsLossless(f, xs, z.enc, z.n, z.fpe, z.max);
    }
  }

  /**
   * What is sent after a reconnect, at any time while the service is linked: every packet
   * sent was built from one offered since the cut; their payloads are the encoder's
   * replies to blocks that hold nothing but PCM captured since; the clock restarted at 0.
   */
  lemma AfterReconnect(z: Config, s: State, es: seq<Step>)
    requires Good(z, s) && s.service.ResidualCleared? && Run(z, s, [FlushRing] + es)
    requires forall i :: 0 <= i < |es| ==> !es[i].FlushRing?
    requires After(z, s, [FlushRing] + es).service.Linked?
    ensures var r := After(z, s, [FlushRing] + es);
            && SentFrom(r.q, Now(r).offered, z.codec)
            && DataSent(r.q, Now(r).offered, z.codec)
            && MadeOf(z, Now(r), s.ctx.encoded, r.chunks)
            && Flatten(r.chunks) + r.ring == r.captured
  {
    RunCons(z, s, FlushRing, es);
    BaseStays(z, Apply(z, s, FlushRing), es);
    var r := After(z, s, [FlushRing] + es);
    LinkedFacts(z, r);
    SentIsData(r.q, Now(r).offered, z.codec);
  }

  /** Every packet sent has the time, frame count and bytes of one of these, behind the SBC header if it is SBC. */
  ghost predicate DataSent(q: Queue, ps: seq<Packet>, codec: Codec) {
    forall i :: 0 <= i < |q.taken| ==> HasData(q.taken[i], ps, codec)
  }

  ghost predicate HasData(m: MediaPacket, ps: seq<Packet>, codec: Codec) {
    exists p :: p in ps && m.timestamp == p.timestamp && m.frames == p.frames
                && m.data == if codec == SBC then [p.frames % 16] + p.payload else p.payload
  }

  lemma SentIsData(q: Queue, ps: seq<Packet>, codec: Codec)
    requires SentFrom(q, ps, codec)
    ensures DataSent(q, ps, codec)
  {
    forall i | 0 <= i < |q.taken| ensures HasData(q.taken[i], ps, codec) {
      SentData(q.taken[i], ps, codec);
    }
  }

  lemma SentData(m: MediaPacket, ps: seq<Packet>, codec: Codec)
    requires BuiltFrom(m, ps, codec)
    ensures HasData(m, ps, codec)
  {
    var p :| p in ps && Wraps(m, p, codec);
    assert codec == SBC ==> m.data == [m.data[0]] + m.data[1..];
  }

  lemma LinkedFacts(z: Config, r: State)
    requires Good(z, r) && r.service.Linked?
    ensures SentFrom(r.q, Now(r).offered, z.codec)
    ensures MadeOf(z, Now(r), r.base, r.chunks)
    ensures Flatten(r.chunks) + r.ring == r.captured
  {
    GrownIsMadeOf(z, r.base, r.chunks);
    MoreHanded(r.q.stored, Handed(r), r.outbox, z.codec);
    TakenAreSourced(r.q, Now(r).offered, z.codec);
  }

  ghost predicate BuiltFrom(m: MediaPacket, ps: seq<Packet>, codec: Codec) {
    exists p :: p in ps && Wraps(m, p, codec)
  }

  /** Every packet taken was built from one of these; and without a lost link, all in their order. */
  ghost predicate SentFrom(q: Queue, ps: seq<Packet>, codec: Codec) {
    && (forall i :: 0 <= i < |q.taken| ==> BuiltFrom(q.taken[i], ps, codec))
    && (q.forgotten == 0 ==> q.taken <= q.stored && InOrder(q.taken, ps, codec))
  }

  lemma {:induction false} MoreHanded(ms: seq<MediaPacket>, ps: seq<Packet>, more: seq<Packet>, codec: Codec)
    requires InOrder(ms, ps, codec)
    ensures InOrder(ms, ps + more, codec)
    decreases |more|
  {
    if more == [] {
      assert ps + more == ps;
    } else {
      OneMoreHanded(ms, ps, more[0], codec);
      MoreHanded(ms, ps + [more[0]], more[1..], codec);
      assert ps + [more[0]] + more[1..] == ps + more;
    }
  }

  lemma {:induction false} PrefixInOrder(few: seq<MediaPacket>, ms: seq<MediaPacket>, ps: seq<Packet>, codec: Codec)
    requires few <= ms && InOrder(ms, ps, codec)
    ensures InOrder(few, ps, codec)
    decreases |ps|
  {
    if few != ms && few != [] {
      var before, shorter := ps[..|ps| - 1], ms[..|ms| - 1];
      if InOrder(ms, before, codec) {
        PrefixInOrder(few, ms, before, codec);
      } else {
        PrefixInOrder(few, shorter, before, codec);
      }
    }
  }

  lemma {:induction false} InOrderIsBuilt(ms: seq<MediaPacket>, ps: seq<Packet>, i: nat, codec: Codec)
    requires InOrder(ms, ps, codec) && i < |ms|
    ensures BuiltFrom(ms[i], ps, codec)
    decreases |ps|
  {
    var before := ps[..|ps| - 1];
    if InOrder(ms, before, codec) {
      InOrderIsBuilt(ms, before, i, codec);
      BuiltFromMore(ms[i], before, ps, codec);
    } else if i == |ms| - 1 {
      assert ps[|ps| - 1] in ps;
    } else {
      InOrderIsBuilt(ms[..|ms| - 1], before, i, codec);
      BuiltFromMore(ms[i], before, ps, codec);
    }
  }

  lemma BuiltFromMore(m: MediaPacket, few: seq<Packet>, ps: seq<Packet>, codec: Codec)
    requires BuiltFrom(m, few, codec) && few <= ps
    ensures BuiltFrom(m, ps, codec)
  {
    var p :| p in few && Wraps(m, p, codec);
    assert p in ps;
  }

  lemma TakenAreSourced(q: Queue, ps: seq<Packet>, codec: Codec)
    requires Sourced(q, ps, codec)
    ensures SentFrom(q, ps, codec)
  {
    forall i | 0 <= i < |q.taken| ensures BuiltFrom(q.taken[i], ps, codec) {
      var j :| 0 <= j < |q.stored| && q.stored[j] == q.taken[i];
      InOrderIsBuilt(q.stored, ps, j, codec);
    }
    if q.forgotten == 0 {
      PrefixInOrder(q.taken, q.stored, ps, codec);
    }
  }

  // ---- the start state, and runs that reach the states above ----

  function EmptyQueue(): Queue {
    Queue(seq(CAPACITY, _ => MediaPacket([], 0, 0)), 0, 0, 0, [], [], 0)
  }

  /** Linked and streaming, with nothing captured yet. */
  function Started(): State {
    State([], Fresh([]), NoPass, [], false, EmptyQueue(), true, Linked, [], [], [])
  }

  lemma EmptyIsSourced(codec: Codec)
    ensures Sourced(EmptyQueue(), [], codec)
  {
  }

  lemma StartIsGood(z: Config)
    requires z.n > 0
    ensures Good(z, Started())
  {
    EmptyIsSourced(z.codec);
    assert Handed(Started()) == [];
    FreshIsGrown(z, []);
  }

  ghost predicate Follows(z: Config, t: State, e: Step, s: State) {
    z.n > 0 && Inv(t.q) && Enabled(t, e) && !Dirty(t, e) && s == Apply(z, t, e)
  }

  /** The states of a run from the start state without a dirty step. */
  ghost predicate Trace(z: Config, states: seq<State>, es: seq<Step>) {
    && |states| == |es| + 1 && states[0] == Started()
    && forall i :: 0 <= i < |es| ==> Follows(z, states[i], es[i], states[i + 1])
  }

  ghost predicate Reachable(z: Config, s: State) {
    exists states: seq<State>, es: seq<Step> :: Trace(z, states, es) && states[|es|] == s
  }

  lemma {:induction false} TraceIsGood(z: Config, states: seq<State>, es: seq<Step>, i: nat)
    requires z.n > 0 && Trace(z, states, es) && i < |states|
    ensures Good(z, states[i])
  {
    if i == 0 {
      StartIsGood(z);
    } else {
      TraceIsGood(z, states, es, i - 1);
      assert Follows(z, states[i - 1], es[i - 1], states[i - 1 + 1]);
      GoodStep(z, states[i - 1], es[i - 1]);
    }
  }

  lemma ReachableIsGood(z: Config, s: State)
    requires z.n > 0 && Reachable(z, s)
    ensures Good(z, s)
  {
    var states: seq<State>, es: seq<Step> :| Trace(z, states, es) && states[|es|] == s;
    TraceIsGood(z, states, es, |es|);
  }

  lemma StartIsReachable(z: Config)
    ensures Reachable(z, Started())
  {
    assert Trace(z, [Started()], []);
  }

  lemma ReachStep(z: Config, t: State, e: Step) returns (r: State)
    requires z.n > 0 && Inv(t.q) && Reachable(z, t) && Enabled(t, e) && !Dirty(t, e)
    ensures r == Apply(z, t, e) && Inv(r.q) && Reachable(z, r)
  {
    r := Apply(z, t, e);
    var states: seq<State>, es: seq<Step> :| Trace(z, states, es) && states[|es|] == t;
    var longer := states + [r];
    assert Follows(z, t, e, r);
    assert Trace(z, longer, es + [e]) && longer[|es + [e]|] == r;
    ReachableIsGood(z, r);
  }

  /** A pipeline whose encoder turns every byte into one of its own. */
  function Small(): Config {
    Config(_ => Reply(true, [7], 1), 1, 1, 679, 8, SSC, (b: seq<byte>) => b)
  }

  lemma SmallPass()
    ensures var z := Small();
            Pass(Fresh([]), z.convert([1]), z.enc, z.n, z.fpe, z.max)
            == Context([], 1, [[1]], [Packet([7], 0, 1)])
  {
    var z, reply := Small(), Reply(true, [7], 1);
    var block: Block, none: seq<Block> := [1], [];
    assert Fresh([]).residual + z.convert(block) == block && block[..1] == block && block[1..] == [];
    assert Blocks(block, 1) == [block] + Blocks([], 1) && Rest(block, 1) == [];
    assert [block][1..] == none && Replies(z.enc, none, [block]) == [reply] + Replies(z.enc, [block], none);
    var p := PackReply(Begin(0), reply, 679, 1);
    assert [reply][1..] == [] && [] + [7] == [7] && p == Packing([], [7], 1, 0, 1);
    assert PackReplies(Begin(0), [reply], 679, 1) == p;
  }

  /** In the middle of a pass, with one packet that fits a slot still to be handed over. */
  ghost predicate MidPass(z: Config, s: State) {
    && Inv(s.q) && Reachable(z, s) && s.pass.InPass? && !s.admitted
    && |s.outbox| == 1 && BuildOf(s.outbox[0], z.codec).Fits?
  }

  /** A run to the middle of a pass over one byte, with the one packet it made. */
  lemma ReachPass(z: Config, p: Packet) returns (s: State)
    requires z.n > 0 && z.capacity > 0 && BuildOf(p, z.codec).Fits?
    requires Pass(Fresh([]), z.convert([1]), z.enc, z.n, z.fpe, z.max).offered == [p]
    ensures MidPass(z, s) && s.service.Linked? && s.streaming && s.outbox == [p]
  {
    var one: seq<byte> := [1];
    assert [] + one == one && one[..1] == one;
    StartIsReachable(z);
    EmptyIsSourced(z.codec);
    s := ReachStep(z, Started(), Capture(one));
    s := ReachStep(z, s, LoadEncoder);
    s := ReachStep(z, s, BeginPass(1));
  }

  /** To the state of `AdmittedPacketSurvives`. */
  lemma ReachAdmitted(z: Config, s: State) returns (r: State)
    requires z.n > 0 && MidPass(z, s) && s.service.Linked? && s.streaming
    ensures Reachable(z, r) && r.service.Stopped? && r.admitted && r.outbox == s.outbox
  {
    r := ReachStep(z, s, Admit);
    r := ReachStep(z, r, Unlink);
    r := ReachStep(z, r, StopStream);
  }

  /** To the state of `OldPacketIsQueued`. */
  lemma ReachOldPacket(z: Config, s: State) returns (r: State)
    requires z.n > 0 && MidPass(z, s) && s.service.Linked?
    ensures MidPass(z, r) && r.service.QueueReset? && !r.streaming && r.outbox == s.outbox
  {
    r := ReachStep(z, s, Unlink);
    r := ReachStep(z, r, StopStream);
    r := ReachStep(z, r, ResetQueue);
  }

  /** And on to that of `OldClockComesBack`. */
  lemma ReachOldClock(z: Config, s: State) returns (r: State)
    requires z.n > 0 && MidPass(z, s) && s.service.QueueReset? && !s.streaming
    ensures Reachable(z, r) && r.service.QueueReset? && r.pass.InPass? && r.outbox == []
  {
    r := ReachStep(z, s, Admit);
  }

  /** All three are reached from the start state of one pipeline. */
  lemma WitnessesAreReached() returns (a: State, b: State, c: State)
    ensures var z := Small();
            && Reachable(z, a) && a.service.Stopped? && a.admitted
            && Reachable(z, b) && b.service.QueueReset? && |b.outbox| == 1
            && a.outbox == b.outbox && BuildOf(b.outbox[0], z.codec).Fits?
            && Reachable(z, c) && c.service.QueueReset? && c.pass.InPass? && c.outbox == []
  {
    var z := Small();
    SmallPass();
    var s := ReachPass(z, Packet([7], 0, 1));
    a := ReachAdmitted(z, s);
    b := ReachOldPacket(z, s);
    c := ReachOldClock(z, b);
  }
}
