/**
 * The wake-up protocol around the media queue, as an interleaving of three
 * threads: the encode thread inside `send_media`, the BTstack run loop, and the
 * service thread inside `stop_stream`, `disconnect` and `reconnect`. A step is one
 * access to shared state, with these merged because nothing another thread does comes
 * between them with an effect of its own: the count test of the enqueue and its choice of
 * a slot; its slot, head and count updates; the tail and count updates of the dequeue.
 * The three queue stores of `reconnect`, which take no mutex, are three steps.
 */
module MediaTrigger {
  import opened MediaQueue

  /** Where the encode thread stands in `send_media`. */
  datatype Producer =
    | Idle
    | Admitted(payload: Built)     // streaming_ was true; about to take send_mutex_
    | Locked(packet: MediaPacket, slot: nat) // holds send_mutex_, saw room, chose its slot
    | Enqueued                     // released send_mutex_; about to exchange the pending flag
    | MustPost                     // exchange returned false; about to post the registration

  /** Where the run loop stands. */
  datatype Loop =
    | Ready                        // between events
    | Popped                       // took the registration off its list; callback not begun
    | Unflagged                    // callback stored media_trigger_pending_ = false
    | Starting                     // STREAM_STARTED stored streaming_ = true
    | CanSend                      // CAN_SEND_NOW entered; send_mutex_ not taken yet
    | Dequeuing                    // holds send_mutex_, saw a packet
    | Copied(packet: MediaPacket)  // holds send_mutex_, copied the slot at tail
    | Chaining                     // packet handed over; about to test the count again

  /** Where the service thread stands among the queue stores of `reconnect`. */
  datatype Service = Outside | CountStored | HeadStored

  /**
   * `nodes` counts how often the one registration node is linked into the run
   * loop's list; `request` is an outstanding can-send-now request at the stack.
   */
  datatype State = State(
    q: Queue, streaming: bool, connected: bool, cid: nat,
    pending: bool, nodes: nat, request: bool,
    producer: Producer, loop: Loop, service: Service)

  datatype Step =
    // encode thread
    | SendMedia(payload: Built)
    | EnterEnqueue
    | LeaveEnqueue
    | ExchangePending
    | PostRegistration
    // run loop: the posted callback
    | RunCallback
    | StorePendingFalse
    | CallbackRequest
    // run loop: events
    | CanSendNow
    | EnterDequeue
    | CopySlot
    | LeaveDequeue
    | ChainRequest
    | StreamStarted
    | StartRequest
    | StreamSuspendedOrReleased(lost: bool)
    | SignalingReleased(lost: bool)
    | HciDisconnection(lost: bool)
    | SignalingEstablished(newCid: nat)
    | CapabilitiesComplete
    // service thread
    | StoreStreamingFalse
    | StoreConnectedFalse
    | StoreCidZero
    | StoreCountZero
    | StoreHeadZero
    | StoreTailZero

  predicate DequeueOpen(s: State) { s.loop.Dequeuing? || s.loop.Copied? }

  predicate Enabled(s: State, e: Step) {
    match e
    case SendMedia(_) => s.producer.Idle?
    case EnterEnqueue => s.producer.Admitted? && !DequeueOpen(s)
    case LeaveEnqueue => s.producer.Locked?
    case ExchangePending => s.producer.Enqueued?
    case PostRegistration => s.producer.MustPost?
    case RunCallback => s.loop.Ready? && s.nodes > 0
    case StorePendingFalse => s.loop.Popped?
    case CallbackRequest => s.loop.Unflagged?
    case CanSendNow => s.loop.Ready? && s.request
    case EnterDequeue => s.loop.CanSend? && !s.producer.Locked?
    case CopySlot => s.loop.Dequeuing?
    case LeaveDequeue => s.loop.Copied?
    case ChainRequest => s.loop.Chaining?
    case StartRequest => s.loop.Starting?
    case StoreStreamingFalse => s.service.Outside?
    case StoreConnectedFalse => s.service.Outside?
    case StoreCidZero => s.service.Outside?
    case StoreCountZero => s.service.Outside?
    case StoreHeadZero => s.service.CountStored?
    case StoreTailZero => s.service.HeadStored?
    case _ => s.loop.Ready?
  }

  /** `a2dp_source_stream_endpoint_request_can_send_now`: refused for connection id 0. */
  function Request(s: State): State {
    if s.cid != 0 then s.(request := true) else s
  }

  /** A disconnect event; the stack may drop an outstanding request with the stream (`lost`). */
  function LinkDown(s: State, lost: bool): State {
    s.(streaming := false, connected := false, q := ClearCount(s.q), request := s.request && !lost)
  }

  /** What a step needs to be defined, kept even by the steps that tear the queue. */
  predicate Defined(s: State) {
    && |s.q.slots| == CAPACITY && s.q.head < CAPACITY && s.q.tail < CAPACITY
    && (s.producer.Locked? ==> s.producer.slot < CAPACITY)
  }

  predicate EncodeThread(e: Step) {
    e.SendMedia? || e.EnterEnqueue? || e.LeaveEnqueue? || e.ExchangePending? || e.PostRegistration?
  }

  predicate ServiceThread(e: Step) {
    || e.StoreStreamingFalse? || e.StoreConnectedFalse? || e.StoreCidZero?
    || e.StoreCountZero? || e.StoreHeadZero? || e.StoreTailZero?
  }

  /** The encode thread's steps. */
  function EncodeStep(s: State, e: Step): (r: State)
    requires Defined(s) && Enabled(s, e) && EncodeThread(e)
    ensures Defined(r)
  {
    match e
    case SendMedia(b) => if s.streaming then s.(producer := Admitted(b)) else s
    case EnterEnqueue =>
      if s.q.count >= CAPACITY || s.producer.payload.TooLarge? then s.(producer := Idle)
      else s.(producer := Locked(s.producer.payload.packet, s.q.head))
    case LeaveEnqueue => s.(q := StoreAt(s.q, s.producer.packet, s.producer.slot), producer := Enqueued)
    case ExchangePending =>
      if s.pending then s.(producer := Idle) else s.(pending := true, producer := MustPost)
    case PostRegistration => s.(nodes := s.nodes + 1, producer := Idle)
  }

  /** The run loop's steps. */
  function LoopStep(s: State, e: Step): (r: State)
    requires Defined(s) && Enabled(s, e) && !EncodeThread(e) && !ServiceThread(e)
    ensures Defined(r)
  {
    match e
    case RunCallback => s.(nodes := s.nodes - 1, loop := Popped)
    case StorePendingFalse => s.(pending := false, loop := Unflagged)
    case CallbackRequest => (if s.streaming then Request(s) else s).(loop := Ready)
    case CanSendNow => s.(request := false, loop := CanSend)
    case EnterDequeue => s.(loop := if s.q.count > 0 then Dequeuing else Chaining)
    case CopySlot => s.(loop := Copied(s.q.slots[s.q.tail]))
    case LeaveDequeue => s.(q := TakeCopied(s.q, s.loop.packet), loop := Chaining)
    case ChainRequest => (if s.q.count > 0 then Request(s) else s).(loop := Ready)
    case StreamStarted => s.(streaming := true, loop := Starting)
    case StartRequest => Request(s).(loop := Ready)
    case StreamSuspendedOrReleased(lost) => s.(streaming := false, request := s.request && !lost)
    case SignalingReleased(lost) => LinkDown(s, lost).(cid := 0)
    case HciDisconnection(lost) =>
      if s.connected || s.streaming then LinkDown(s, lost) else s.(request := s.request && !lost)
    case SignalingEstablished(c) => s.(cid := c)
    case CapabilitiesComplete => s.(connected := true)
  }

  /** The service thread's steps. */
  function ServiceStep(s: State, e: Step): (r: State)
    requires Defined(s) && Enabled(s, e) && ServiceThread(e)
    ensures Defined(r)
  {
    match e
    case StoreStreamingFalse => s.(streaming := false)
    case StoreConnectedFalse => s.(connected := false)
    case StoreCidZero => s.(cid := 0)
    case StoreCountZero => s.(q := ClearCount(s.q), service := CountStored)
    case StoreHeadZero => s.(q := ZeroHead(s.q), service := HeadStored)
    case StoreTailZero => s.(q := ZeroTail(s.q), service := Outside)
  }

  function Apply(s: State, e: Step): (r: State)
    requires Defined(s) && Enabled(s, e)
    ensures Defined(r)
  {
    if EncodeThread(e) then EncodeStep(s, e)
    else if ServiceThread(e) then ServiceStep(s, e)
    else LoopStep(s, e)
  }

  // ---- who may move, and who changes what ----

  /** The encode thread only ever waits for the mutex; a stream test admits exactly while streaming. */
  lemma EncodeThreadMoves(s: State, b: Built)
    requires Defined(s)
    ensures s.producer.Idle? ==> Enabled(s, SendMedia(b))
    ensures s.producer.Admitted? ==> (Enabled(s, EnterEnqueue) <==> !s.loop.Dequeuing? && !s.loop.Copied?)
    ensures s.producer.Locked? ==> Enabled(s, LeaveEnqueue)
    ensures s.producer.Enqueued? ==> Enabled(s, ExchangePending)
    ensures s.producer.MustPost? ==> Enabled(s, PostRegistration)
  {
  }

  /** So does the run loop inside its handlers; between them it takes callbacks, granted requests and any event. */
  lemma LoopMoves(s: State)
    requires Defined(s)
    ensures s.loop.Popped? ==> Enabled(s, StorePendingFalse)
    ensures s.loop.Unflagged? ==> Enabled(s, CallbackRequest)
    ensures s.loop.Starting? ==> Enabled(s, StartRequest)
    ensures s.loop.CanSend? ==> (Enabled(s, EnterDequeue) <==> !s.producer.Locked?)
    ensures s.loop.Dequeuing? ==> Enabled(s, CopySlot)
    ensures s.loop.Copied? ==> Enabled(s, LeaveDequeue)
    ensures s.loop.Chaining? ==> Enabled(s, ChainRequest)
  {
  }

  lemma EventsArrive(s: State, lost: bool, id: nat)
    requires Defined(s)
    ensures s.loop.Ready? ==>
              && (Enabled(s, RunCallback) <==> s.nodes > 0) && (Enabled(s, CanSendNow) <==> s.request)
              && Enabled(s, StreamStarted) && Enabled(s, StreamSuspendedOrReleased(lost))
              && Enabled(s, SignalingReleased(lost)) && Enabled(s, HciDisconnection(lost))
              && Enabled(s, SignalingEstablished(id)) && Enabled(s, CapabilitiesComplete)
  {
  }

  /** The service thread waits for nobody. */
  lemma ServiceMoves(s: State)
    requires Defined(s)
    ensures s.service.Outside? ==>
              && Enabled(s, StoreStreamingFalse) && Enabled(s, StoreConnectedFalse)
              && Enabled(s, StoreCidZero) && Enabled(s, StoreCountZero)
    ensures s.service.CountStored? ==> Enabled(s, StoreHeadZero)
    ensures s.service.HeadStored? ==> Enabled(s, StoreTailZero)
  {
  }

  /** The steps that zero the count alone: the disconnect handlers and the first store of a reset. */
  predicate Clears(s: State, e: Step) {
    e.SignalingReleased? || (e.HciDisconnection? && (s.connected || s.streaming)) || e.StoreCountZero?
  }

  /** What was stored and taken changes by enqueues, dequeues and the reset only. */
  lemma LogsChange(s: State, e: Step)
    requires Defined(s) && Enabled(s, e)
    ensures Apply(s, e).q.stored ==
              if e.LeaveEnqueue? then s.q.stored + [s.producer.packet]
              else if e.StoreHeadZero? then [] else s.q.stored
    ensures Apply(s, e).q.taken ==
              if e.LeaveDequeue? then s.q.taken + [s.loop.packet]
              else if e.StoreTailZero? then [] else s.q.taken
  {
  }

  /** The skew grows by the number pending at a clear, is zeroed by a reset, and changes at no other step. */
  lemma CountsChange(s: State, e: Step)
    requires Defined(s) && Enabled(s, e)
    ensures Apply(s, e).q.count ==
              if e.LeaveEnqueue? then s.q.count + 1
              else if e.LeaveDequeue? then s.q.count - 1
              else if Clears(s, e) then 0 else s.q.count
    ensures Apply(s, e).q.forgotten ==
              if Clears(s, e) then s.q.forgotten + s.q.count
              else if e.StoreHeadZero? then 0 else s.q.forgotten
  {
  }

  lemma SlotsChange(s: State, e: Step)
    requires Defined(s) && Enabled(s, e)
    ensures Apply(s, e).q.slots ==
              if e.LeaveEnqueue? then s.q.slots[s.producer.slot := s.producer.packet] else s.q.slots
    ensures Apply(s, e).q.head ==
              if e.LeaveEnqueue? then (s.q.head + 1) % 64 else if e.StoreHeadZero? then 0 else s.q.head
    ensures Apply(s, e).q.tail ==
              if e.LeaveDequeue? then (s.q.tail + 1) % 64 else if e.StoreTailZero? then 0 else s.q.tail
  {
  }

  /** Streaming, connected and then the connection id, by the events and stores that set them. */
  lemma FlagsChange(s: State, e: Step)
    requires Defined(s) && Enabled(s, e)
    ensures Apply(s, e).streaming ==
              (e.StreamStarted? ||
               (s.streaming && !e.StreamSuspendedOrReleased? && !e.SignalingReleased? && !e.HciDisconnection?
                && !e.StoreStreamingFalse?))
    ensures Apply(s, e).connected ==
              (e.CapabilitiesComplete? ||
               (s.connected && !e.SignalingReleased? && !e.HciDisconnection? && !e.StoreConnectedFalse?))
  {
  }

  lemma IdChanges(s: State, e: Step)
    requires Defined(s) && Enabled(s, e)
    ensures Apply(s, e).cid ==
              if e.SignalingReleased? || e.StoreCidZero? then 0
              else if e.SignalingEstablished? then e.newCid else s.cid
  {
  }

  /** A request is outstanding from its grant to the event that answers it or the loss of the stream. */
  lemma RequestChanges(s: State, e: Step)
    requires Defined(s) && Enabled(s, e)
    ensures var asks := (e.CallbackRequest? && s.streaming) || (e.ChainRequest? && s.q.count > 0) || e.StartRequest?;
            var dropped := e.CanSendNow? || (e.StreamSuspendedOrReleased? && e.lost)
                           || (e.SignalingReleased? && e.lost) || (e.HciDisconnection? && e.lost);
            Apply(s, e).request == ((asks && s.cid != 0) || (s.request && !dropped))
  {
  }

  lemma TriggerChanges(s: State, e: Step)
    requires Defined(s) && Enabled(s, e)
    ensures Apply(s, e).pending == (e.ExchangePending? || (s.pending && !e.StorePendingFalse?))
    ensures Apply(s, e).nodes ==
              if e.PostRegistration? then s.nodes + 1 else if e.RunCallback? then s.nodes - 1 else s.nodes
  {
  }

  /** Where `send_media` goes: past the stream test, the room and size test, the exchange. */
  lemma ProducerMoves(s: State, e: Step)
    requires Defined(s) && Enabled(s, e)
    ensures Apply(s, e).producer ==
              match e
              case SendMedia(b) => if s.streaming then Admitted(b) else Idle
              case EnterEnqueue =>
                if s.q.count < 64 && s.producer.payload.Fits? then Locked(s.producer.payload.packet, s.q.head) else Idle
              case LeaveEnqueue => Enqueued
              case ExchangePending => if s.pending then Idle else MustPost
              case PostRegistration => Idle
              case _ => s.producer
  {
  }

  /** Where the run loop's handlers go. */
  lemma LoopGoes(s: State, e: Step)
    requires Defined(s) && Enabled(s, e)
    ensures Apply(s, e).loop ==
              match e
              case RunCallback => Popped
              case StorePendingFalse => Unflagged
              case StreamStarted => Starting
              case CanSendNow => CanSend
              case EnterDequeue => if s.q.count > 0 then Dequeuing else Chaining
              case CopySlot => Copied(s.q.slots[s.q.tail])
              case LeaveDequeue => Chaining
              case CallbackRequest => Ready
              case ChainRequest => Ready
              case StartRequest => Ready
              case _ => s.loop
    ensures Apply(s, e).service ==
              if e.StoreCountZero? then CountStored
              else if e.StoreHeadZero? then HeadStored
              else if e.StoreTailZero? then Outside else s.service
  {
  }

  /**
   * With the mutex free, `send_media`'s critical section takes a packet if and only if
   * fewer than 64 are queued and it fits, and what it takes is stored, last and in the
   * slot at head; otherwise nothing but the producer's place changes.
   */
  lemma AcceptedIffRoom(s: State)
    requires QueueSafe(s) && s.producer.Admitted? && !DequeueOpen(s)
    ensures Enabled(s, EnterEnqueue)
    ensures var a := Apply(s, EnterEnqueue);
            && (a.producer.Locked? <==> s.q.count < 64 && s.producer.payload.Fits?)
            && (!a.producer.Locked? ==> a == s.(producer := Idle))
            && (a.producer.Locked? ==>
                  && Enabled(a, LeaveEnqueue)
                  && var r, p := Apply(a, LeaveEnqueue), s.producer.payload.packet;
                     && r.q.stored == s.q.stored + [p] && r.q.count == s.q.count + 1
                     && r.q.slots[s.q.head] == p && r.producer.Enqueued?)
  {
  }

  // ---- the queue under interleaving ----

  /** What each critical section saw still holds inside it. */
  ghost predicate SectionsSafe(s: State)
    requires |s.q.slots| == CAPACITY && s.q.tail < CAPACITY
  {
    && (s.producer.Locked? ==> s.q.count < CAPACITY && s.producer.slot == s.q.head)
    && (DequeueOpen(s) ==> s.q.count > 0 && !s.producer.Locked?)
    && (s.loop.Copied? ==> s.loop.packet == s.q.slots[if s.service.HeadStored? then 0 else s.q.tail])
  }

  /** The queue invariant, in its two forms, and the open critical sections. */
  ghost predicate QueueSafe(s: State) {
    (if s.service.HeadStored? then HalfReset(s.q) else Inv(s.q)) && SectionsSafe(s)
  }

  /**
   * The steps that break it, all around the unguarded stores of `reconnect`: the count
   * store inside a dequeue; the head store while a packet is queued, or inside an enqueue
   * that chose another slot; a copy at the old tail of what is not in slot 0; the end of
   * a dequeue before the tail store.
   */
  predicate Tears(s: State, e: Step)
    requires |s.q.slots| > 0 && s.q.tail < |s.q.slots|
  {
    match e
    case StoreCountZero => DequeueOpen(s)
    case StoreHeadZero => s.q.count != 0 || (s.producer.Locked? && s.producer.slot != 0)
    case CopySlot => s.service.HeadStored? && s.q.slots[s.q.tail] != s.q.slots[0]
    case LeaveDequeue => s.service.HeadStored?
    case _ => false
  }

  lemma LeaveEnqueueKeeps(s: State)
    requires QueueSafe(s) && s.producer.Locked?
    ensures QueueSafe(Apply(s, LeaveEnqueue))
  {
    if s.service.HeadStored? {
      StoreKeepsHalfReset(s.q, s.producer.packet);
    } else {
      StoreKeeps(s.q, s.producer.packet);
    }
  }

  lemma LeaveDequeueKeeps(s: State)
    requires QueueSafe(s) && s.loop.Copied?
    ensures QueueSafe(Apply(s, LeaveDequeue)) <==> !s.service.HeadStored?
  {
    if !s.service.HeadStored? {
      TakeKeeps(s.q);
    }
  }

  lemma LinkDownKeeps(s: State, e: Step)
    requires QueueSafe(s) && Enabled(s, e) && (e.SignalingReleased? || e.HciDisconnection?)
    ensures QueueSafe(Apply(s, e))
  {
    if s.service.HeadStored? {
      HalfResetEnds(s.q);
    } else {
      ClearKeeps(s.q);
    }
  }

  predicate TouchesQueue(e: Step) {
    || e.LeaveEnqueue? || e.LeaveDequeue? || e.SignalingReleased? || e.HciDisconnection?
    || e.StoreCountZero? || e.StoreHeadZero? || e.StoreTailZero?
  }

  lemma EnterKeeps(s: State, e: Step)
    requires QueueSafe(s) && Enabled(s, e) && (e.EnterEnqueue? || e.EnterDequeue? || e.CopySlot?)
    ensures QueueSafe(Apply(s, e)) <==> !Tears(s, e)
  {
    match e
    case EnterEnqueue =>
    case EnterDequeue =>
    case CopySlot =>
  }

  /** The critical sections and the queue look the same in both states. */
  predicate SameSections(s: State, r: State) {
    && r.q == s.q && r.service == s.service
    && (r.producer == s.producer || (!s.producer.Locked? && !r.producer.Locked?))
    && (r.loop == s.loop || (!DequeueOpen(s) && !DequeueOpen(r)))
  }

  lemma OtherStepKeeps(s: State, e: Step)
    requires Defined(s) && Enabled(s, e) && !TouchesQueue(e) && !e.EnterEnqueue? && !e.EnterDequeue? && !e.CopySlot?
    ensures SameSections(s, Apply(s, e)) && !Tears(s, e)
  {
  }

  lemma StoresKeepIff(s: State, e: Step)
    requires QueueSafe(s) && Enabled(s, e) && (e.StoreCountZero? || e.StoreHeadZero? || e.StoreTailZero?)
    ensures QueueSafe(Apply(s, e)) <==> !Tears(s, e)
  {
    match e
    case StoreCountZero => ClearKeeps(s.q);
    case StoreHeadZero => ZeroHeadIff(s.q);
    case StoreTailZero => HalfResetEnds(s.q);
  }

  /** Exactly which steps keep the queue sound, count-only clears inside an enqueue included. */
  lemma QueueStep(s: State, e: Step)
    requires QueueSafe(s) && Enabled(s, e)
    ensures QueueSafe(Apply(s, e)) <==> !Tears(s, e)
  {
    if e.LeaveEnqueue? {
      LeaveEnqueueKeeps(s);
    } else if e.LeaveDequeue? {
      LeaveDequeueKeeps(s);
    } else if e.SignalingReleased? || e.HciDisconnection? {
      LinkDownKeeps(s, e);
    } else if e.StoreCountZero? || e.StoreHeadZero? || e.StoreTailZero? {
      StoresKeepIff(s, e);
    } else if e.EnterEnqueue? || e.EnterDequeue? || e.CopySlot? {
      EnterKeeps(s, e);
    } else {
      OtherStepKeeps(s, e);
    }
  }

  /** One step, torn or not. */
  predicate Steps(s: State, e: Step, r: State) {
    Defined(s) && Enabled(s, e) && r == Apply(s, e)
  }

  /** With no critical section open or begun among them, the three stores are the reset. */
  lemma ThreeStoresAreReset(s: State, c: State, h: State, r: State)
    requires QueueSafe(s) && !DequeueOpen(s) && !s.producer.Locked?
    requires Steps(s, StoreCountZero, c) && Steps(c, StoreHeadZero, h) && Steps(h, StoreTailZero, r)
    ensures r == s.(q := Reset(s.q)) && QueueSafe(c) && QueueSafe(h) && QueueSafe(r)
  {
    QueueStep(s, StoreCountZero);
    QueueStep(c, StoreHeadZero);
    QueueStep(h, StoreTailZero);
  }

  /** The count store inside a dequeue: the queue ends with minus one packets. */
  lemma TornDequeueUnderflows(s: State, c: State, r: State)
    requires QueueSafe(s) && s.loop.Copied?
    requires Steps(s, StoreCountZero, c) && Steps(c, LeaveDequeue, r)
    ensures r.q.count == -1
  {
  }

  /** The stores inside an enqueue: the one packet counted is not the one stored, but what slot 0 held. */
  lemma TornEnqueueSendsOldSlot(s: State, c: State, h: State, t: State, r: State)
    requires QueueSafe(s) && s.producer.Locked? && s.producer.slot != 0
    requires Steps(s, StoreCountZero, c) && Steps(c, StoreHeadZero, h) && Steps(h, StoreTailZero, t)
    requires Steps(t, LeaveEnqueue, r)
    ensures r.q.count == 1 && r.q.slots[r.q.tail] == s.q.slots[0] && r.q.stored == [s.producer.packet]
  {
  }

  lemma EnqueueAfterCountStore(s: State) returns (c: State, a: State, l: State)
    requires QueueSafe(s) && s.service.Outside? && !DequeueOpen(s) && s.q.head != 0
    requires s.producer.Admitted? && s.producer.payload.Fits?
    ensures Steps(s, StoreCountZero, c) && Steps(c, EnterEnqueue, a) && Steps(a, LeaveEnqueue, l)
    ensures QueueSafe(l) && l.service.CountStored? && l.q.count == 1 && l.q.slots[0] == s.q.slots[0]
  {
    c := Apply(s, StoreCountZero);
    StoresKeepIff(s, StoreCountZero);
    a := c.(producer := Locked(c.producer.payload.packet, c.q.head));
    EnterKeeps(c, EnterEnqueue);
    l := Apply(a, LeaveEnqueue);
    LeaveEnqueueKeeps(a);
  }

  lemma HeadStoreStrands(l: State) returns (h: State, r: State)
    requires QueueSafe(l) && l.service.CountStored? && l.q.count == 1
    ensures Steps(l, StoreHeadZero, h) && Steps(h, StoreTailZero, r) && Tears(l, StoreHeadZero)
    ensures r.q.count == 1 && r.q.head == r.q.tail == 0 && r.q.slots == l.q.slots && !Inv(r.q)
  {
    h := Apply(l, StoreHeadZero);
    r := Apply(h, StoreTailZero);
  }

  /**
   * A whole enqueue between the count store and the head store, with no store inside a
   * critical section: one packet is counted on a ring whose head equals its tail, and
   * what slot 0 held goes out instead.
   */
  lemma EnqueueBetweenStoresIsLost(s: State) returns (c: State, a: State, l: State, h: State, r: State)
    requires QueueSafe(s) && s.service.Outside? && !DequeueOpen(s) && s.q.head != 0
    requires s.producer.Admitted? && s.producer.payload.Fits?
    ensures Steps(s, StoreCountZero, c) && Steps(c, EnterEnqueue, a) && Steps(a, LeaveEnqueue, l)
    ensures Steps(l, StoreHeadZero, h) && Steps(h, StoreTailZero, r)
    ensures QueueSafe(l) && Tears(l, StoreHeadZero)
    ensures r.q.count == 1 && r.q.head == r.q.tail == 0 && r.q.slots[r.q.tail] == s.q.slots[0]
    ensures !Inv(r.q)
  {
    c, a, l := EnqueueAfterCountStore(s);
    h, r := HeadStoreStrands(l);
  }

  /** A whole dequeue between the head store and the tail store: the packet just sent is next again. */
  lemma DequeueBetweenStoresRepeats(s: State, l: State, r: State)
    requires QueueSafe(s) && s.service.HeadStored? && s.loop.Copied?
    requires Steps(s, LeaveDequeue, l) && Steps(l, StoreTailZero, r)
    ensures r.q.count == s.q.count - 1 && r.q.slots[r.q.tail] == s.loop.packet && !Inv(r.q)
  {
  }

  // ---- the trigger ----

  function One(b: bool): nat { if b then 1 else 0 }

  /** The pending flag says exactly that the node is linked, about to be linked, or just unlinked. */
  ghost predicate TriggerSafe(s: State) {
    s.nodes + One(s.producer.MustPost?) + One(s.loop.Popped?) == One(s.pending)
  }

  lemma TriggerByEncodeThread(s: State, e: Step)
    requires Defined(s) && TriggerSafe(s) && Enabled(s, e) && EncodeThread(e)
    ensures TriggerSafe(Apply(s, e)) && Apply(s, e).nodes <= 1
  {
  }

  lemma TriggerByOthers(s: State, e: Step)
    requires Defined(s) && TriggerSafe(s) && Enabled(s, e) && !EncodeThread(e)
    ensures TriggerSafe(Apply(s, e)) && Apply(s, e).nodes <= 1
  {
    if e.RunCallback? || e.StorePendingFalse? || e.CallbackRequest? {
    } else {
      var r := Apply(s, e);
      assert r.nodes == s.nodes && r.pending == s.pending && r.producer == s.producer;
    }
  }

  lemma TriggerStep(s: State, e: Step)
    requires Defined(s) && TriggerSafe(s) && Enabled(s, e)
    ensures TriggerSafe(Apply(s, e))
    ensures Apply(s, e).nodes <= 1
  {
    if EncodeThread(e) {
      TriggerByEncodeThread(s, e);
    } else {
      TriggerByOthers(s, e);
    }
  }

  /** Somebody is going to look at the queue: a callback, a request, the producer or the running handler. */
  predicate Awake(s: State) {
    s.nodes > 0 || s.request || s.producer.Enqueued? || s.producer.MustPost? || !s.loop.Ready?
  }

  predicate NoLostWakeup(s: State) {
    s.streaming && s.q.count > 0 ==> Awake(s)
  }

  /** A handler ends while streaming on connection id 0: the stack refuses its request. */
  predicate RequestRefused(s: State, e: Step) {
    (e.CallbackRequest? || e.ChainRequest? || e.StartRequest?) && s.cid == 0 && s.streaming
  }

  /** ... and nobody else is going to look at the packets still queued. */
  predicate Starves(s: State, e: Step) {
    && RequestRefused(s, e)
    && s.q.count > 0 && s.nodes == 0 && !s.request
    && !s.producer.Enqueued? && !s.producer.MustPost?
  }

  lemma WakeupByLoop(s: State, e: Step)
    requires Defined(s) && TriggerSafe(s) && NoLostWakeup(s) && Enabled(s, e)
    requires !EncodeThread(e) && !ServiceThread(e) && !s.loop.Ready?
    ensures NoLostWakeup(Apply(s, e)) <==> !Starves(s, e)
  {
    match e
    case StorePendingFalse =>
    case CallbackRequest =>
    case EnterDequeue =>
    case CopySlot =>
    case LeaveDequeue =>
    case ChainRequest =>
    case StartRequest =>
  }

  lemma WakeupByOthers(s: State, e: Step)
    requires Defined(s) && TriggerSafe(s) && NoLostWakeup(s) && Enabled(s, e)
    requires EncodeThread(e) || ServiceThread(e) || s.loop.Ready?
    ensures NoLostWakeup(Apply(s, e)) && !Starves(s, e)
  {
    if EncodeThread(e) {
    } else if ServiceThread(e) {
    }
  }

  /** Which steps lose a wake-up: the step of the proofs below. */
  lemma WakeupStep(s: State, e: Step)
    requires Defined(s) && TriggerSafe(s) && NoLostWakeup(s) && Enabled(s, e)
    ensures NoLostWakeup(Apply(s, e)) <==> !Starves(s, e)
  {
    if EncodeThread(e) || ServiceThread(e) || s.loop.Ready? {
      WakeupByOthers(s, e);
    } else {
      WakeupByLoop(s, e);
    }
  }

  // ---- whole runs ----

  ghost predicate Start(s: State) {
    Inv(s.q) && s.q.count == 0 && !s.streaming && !s.pending && s.nodes == 0 &&
    s.producer.Idle? && s.loop.Ready? && s.service.Outside?
  }

  /** Steps in any order, as far as they are enabled, torn or not. */
  predicate Possible(s: State, es: seq<Step>)
    requires Defined(s)
    decreases |es|
  {
    es == [] || (Enabled(s, es[0]) && Possible(Apply(s, es[0]), es[1..]))
  }

  function End(s: State, es: seq<Step>): (r: State)
    requires Defined(s) && Possible(s, es)
    ensures Defined(r)
    decreases |es|
  {
    if es == [] then s else End(Apply(s, es[0]), es[1..])
  }

  /** None of the steps tears the queue. */
  predicate Untorn(s: State, es: seq<Step>)
    requires Defined(s) && Possible(s, es)
    decreases |es|
  {
    es == [] || (!Tears(s, es[0]) && Untorn(Apply(s, es[0]), es[1..]))
  }

  lemma PossibleCons(s: State, e: Step, es: seq<Step>)
    requires Defined(s) && Enabled(s, e)
    ensures Possible(s, [e] + es) <==> Possible(Apply(s, e), es)
    ensures Possible(s, [e] + es) ==> End(s, [e] + es) == End(Apply(s, e), es)
    ensures Possible(s, [e] + es) ==> (Untorn(s, [e] + es) <==> !Tears(s, e) && Untorn(Apply(s, e), es))
  {
    assert ([e] + es)[1..] == es;
  }

  /** The queue is sound throughout every run without a torn step. */
  lemma {:induction false} UntornKeepsQueue(s: State, es: seq<Step>)
    requires QueueSafe(s) && Possible(s, es) && Untorn(s, es)
    ensures QueueSafe(End(s, es))
    decreases |es|
  {
    if es != [] {
      QueueStep(s, es[0]);
      UntornKeepsQueue(Apply(s, es[0]), es[1..]);
    }
  }

  /** Queue and trigger are both sound. */
  ghost predicate Safe(s: State) {
    QueueSafe(s) && TriggerSafe(s)
  }

  /**
   * Connection ids are nonzero wherever the code relies on it: STREAM_STARTED comes
   * with a stored id, and the service thread zeroes the id only while not streaming.
   */
  predicate IdsKept(s: State, es: seq<Step>)
    requires Defined(s) && Possible(s, es)
    decreases |es|
  {
    es == [] ||
    (&& (es[0].StreamStarted? ==> s.cid != 0)
     && (es[0].StoreCidZero? || (es[0].SignalingEstablished? && es[0].newCid == 0) ==> !s.streaming)
     && IdsKept(Apply(s, es[0]), es[1..]))
  }

  /** The single registration node is in the run loop's list at most once, in every run, torn or not. */
  lemma {:induction false} NodeLinkedAtMostOnce(s: State, es: seq<Step>)
    requires Defined(s) && TriggerSafe(s) && s.nodes <= 1 && Possible(s, es)
    ensures TriggerSafe(End(s, es)) && End(s, es).nodes <= 1
    decreases |es|
  {
    if es != [] {
      TriggerStep(s, es[0]);
      NodeLinkedAtMostOnce(Apply(s, es[0]), es[1..]);
    }
  }

  /** No wake-up is lost in any interleaving that keeps the connection id, torn or not. */
  lemma {:induction false} NoLostWakeupInRuns(s: State, es: seq<Step>)
    requires Defined(s) && TriggerSafe(s) && NoLostWakeup(s) && !Exposed(s)
    requires Possible(s, es) && IdsKept(s, es)
    ensures NoLostWakeup(End(s, es)) && !Exposed(End(s, es))
    decreases |es|
  {
    if es != [] {
      TriggerStep(s, es[0]);
      WakeupStep(s, es[0]);
      ExposingStep(s, es[0]);
      NoLostWakeupInRuns(Apply(s, es[0]), es[1..]);
    }
  }

  /** Streaming on connection id 0. */
  predicate Exposed(s: State) {
    s.streaming && s.cid == 0
  }

  lemma ExposingStep(s: State, e: Step)
    requires Defined(s) && Enabled(s, e) && !Exposed(s)
    ensures Exposed(Apply(s, e)) <==>
            || (e.StreamStarted? && s.cid == 0)
            || ((e.StoreCidZero? || (e.SignalingEstablished? && e.newCid == 0)) && s.streaming)
  {
  }

  predicate NeverExposed(s: State, es: seq<Step>)
    requires Defined(s) && Possible(s, es)
    decreases |es|
  {
    !Exposed(s) && (es == [] || NeverExposed(Apply(s, es[0]), es[1..]))
  }

  /** The discipline on ids is exactly what keeps a run from streaming on id 0. */
  lemma {:induction false} IdsKeptIff(s: State, es: seq<Step>)
    requires Defined(s) && Possible(s, es) && !Exposed(s)
    ensures IdsKept(s, es) <==> NeverExposed(s, es)
    decreases |es|
  {
    if es != [] {
      ExposingStep(s, es[0]);
      var r := Apply(s, es[0]);
      if Exposed(r) {
        assert !NeverExposed(r, es[1..]);
      } else {
        IdsKeptIff(r, es[1..]);
      }
    }
  }

  /** Between events the wake-up is one the source names: posted, requested, or the producer's to post. */
  lemma WakeupBetweenEvents(s: State, es: seq<Step>)
    requires Start(s) && Possible(s, es) && IdsKept(s, es)
    ensures var r := End(s, es);
            && r.nodes <= 1
            && (r.loop.Ready? && r.streaming && r.q.count > 0 ==>
                  r.nodes == 1 || r.request || r.producer.Enqueued? || r.producer.MustPost?)
  {
    NodeLinkedAtMostOnce(s, es);
    NoLostWakeupInRuns(s, es);
  }

  // ---- streaming on connection id 0 ----

  /** Steps that neither touch the connection id nor start the stream. */
  predicate Calm(e: Step) {
    !e.StoreCidZero? && !e.SignalingEstablished? && !e.SignalingReleased? && !e.StreamStarted?
  }

  predicate AllCalm(es: seq<Step>) {
    forall i :: 0 <= i < |es| ==> Calm(es[i])
  }

  function Rank(s: State): nat {
    4 * s.nodes
    + (match s.producer
       case Idle => 0 case Admitted(_) => 9 case Locked(_, _) => 8 case Enqueued => 7 case MustPost => 6)
    + (match s.loop
       case Ready => 0 case Popped => 3 case Unflagged => 2 case Starting => 1
       case CanSend => 5 case Dequeuing => 4 case Copied(_) => 3 case Chaining => 1)
  }

  /** Dequeues that are still to come when no request is granted any more. */
  function Dequeues(s: State): nat {
    2 * One(s.request) + One(s.loop.CanSend? || DequeueOpen(s))
  }

  predicate WillStore(s: State) {
    s.q.count > 0 || s.producer.Locked? || (s.producer.Admitted? && s.producer.payload.Fits?)
  }

  /** A schedule that leads from a state streaming on id 0 to one where nobody looks. */
  function NextStep(s: State, p: MediaPacket): Step {
    if s.service.HeadStored? then StoreTailZero
    else if s.producer.Locked? then LeaveEnqueue
    else
      match s.loop
      case Popped => StorePendingFalse
      case Unflagged => CallbackRequest
      case Starting => StartRequest
      case CanSend => EnterDequeue
      case Dequeuing => CopySlot
      case Copied(_) => LeaveDequeue
      case Chaining => ChainRequest
      case Ready =>
        match s.producer
        case Admitted(_) => EnterEnqueue
        case Enqueued => ExchangePending
        case MustPost => PostRegistration
        case _ => if s.request then CanSendNow else if s.nodes > 0 then RunCallback else SendMedia(Fits(p))
  }

  predicate Lost(s: State) {
    s.streaming && s.q.count > 0 && !Awake(s) && s.producer.Idle? && !s.service.HeadStored?
  }

  lemma NextStepWorks(s: State, p: MediaPacket)
    requires Safe(s) && Exposed(s) && !Lost(s)
    ensures var e := NextStep(s, p);
            && Enabled(s, e) && !Tears(s, e) && Calm(e)
            && Exposed(Apply(s, e))
  {
  }

  /** The schedule ends: fewer stores due, dequeues to come, packets to produce, or steps of handlers. */
  predicate Nearer(r: State, s: State) {
    || (s.service.HeadStored? && !r.service.HeadStored?)
    || (r.service == s.service && Dequeues(r) < Dequeues(s))
    || (r.service == s.service && Dequeues(r) == Dequeues(s) && !WillStore(s) && WillStore(r))
    || (&& r.service == s.service && Dequeues(r) == Dequeues(s) && WillStore(s) == WillStore(r)
        && Rank(r) < Rank(s))
  }

  lemma LoopStepIsNearer(s: State, p: MediaPacket)
    requires Defined(s) && s.q.count >= 0 && Exposed(s)
    requires !s.service.HeadStored? && !s.producer.Locked? && !s.loop.Ready?
    requires Enabled(s, NextStep(s, p))
    ensures Nearer(Apply(s, NextStep(s, p)), s)
  {
    match s.loop
    case Popped =>
    case Unflagged =>
    case Starting =>
    case CanSend =>
    case Dequeuing =>
    case Copied(_) =>
    case Chaining =>
  }

  lemma NextStepIsNearer(s: State, p: MediaPacket)
    requires Defined(s) && s.q.count >= 0 && Exposed(s) && !Lost(s) && Enabled(s, NextStep(s, p))
    ensures Nearer(Apply(s, NextStep(s, p)), s)
  {
    if !s.service.HeadStored? && !s.producer.Locked? && !s.loop.Ready? {
      LoopStepIsNearer(s, p);
    } else if !s.service.HeadStored? {
      match s.producer
      case Idle =>
      case Admitted(_) =>
      case Locked(_, _) =>
      case Enqueued =>
      case MustPost =>
    }
  }

  /** From every safe state that streams on id 0, calm steps lead to a lost wake-up. */
  lemma {:induction false} ExposedLosesWakeup(s: State, p: MediaPacket) returns (es: seq<Step>)
    requires Safe(s) && Exposed(s)
    ensures Possible(s, es) && Untorn(s, es) && AllCalm(es) && !NoLostWakeup(End(s, es))
    decreases One(s.service.HeadStored?), Dequeues(s), One(!WillStore(s)), Rank(s)
  {
    if Lost(s) {
      es := [];
    } else {
      var e := NextStep(s, p);
      NextStepWorks(s, p);
      NextStepIsNearer(s, p);
      QueueStep(s, e);
      TriggerStep(s, e);
      var rest := ExposedLosesWakeup(Apply(s, e), p);
      PossibleCons(s, e, rest);
      es := [e] + rest;
    }
  }

  /** Off id 0, or not streaming, calm steps keep the promise, torn or not. */
  lemma {:induction false} CalmKeepsWakeup(s: State, es: seq<Step>)
    requires Defined(s) && TriggerSafe(s) && NoLostWakeup(s) && !Exposed(s) && Possible(s, es) && AllCalm(es)
    ensures NoLostWakeup(End(s, es))
    decreases |es|
  {
    if es != [] {
      TriggerStep(s, es[0]);
      WakeupStep(s, es[0]);
      ExposingStep(s, es[0]);
      CalmKeepsWakeup(Apply(s, es[0]), es[1..]);
    }
  }

  ghost predicate CanLose(s: State)
    requires Defined(s)
  {
    exists es :: Possible(s, es) && AllCalm(es) && !NoLostWakeup(End(s, es))
  }

  /**
   * Exactly which sound states can come to lose a wake-up without anyone touching the
   * connection id or starting the stream: those that stream on id 0.
   */
  lemma CanLoseIffExposed(s: State)
    requires Safe(s) && NoLostWakeup(s)
    ensures CanLose(s) <==> Exposed(s)
  {
    if Exposed(s) {
      var es := ExposedLosesWakeup(s, MediaPacket([], 0, 0));
    } else {
      forall es | Possible(s, es) && AllCalm(es) ensures NoLostWakeup(End(s, es)) {
        CalmKeepsWakeup(s, es);
      }
    }
  }

  lemma StreamWhileStopping(s: State) returns (s1: State, s2: State)
    requires Safe(s) && s.loop.Ready? && s.service.Outside?
    ensures Steps(s, StoreStreamingFalse, s1) && Steps(s1, StreamStarted, s2)
    ensures Safe(s2) && s2.loop.Starting? && s2.service.Outside? && s2.streaming
  {
    s1 := SafeStep(s, StoreStreamingFalse);
    s2 := SafeStep(s1, StreamStarted);
  }

  lemma IdZeroedAfterStart(s: State) returns (s1: State, s2: State)
    requires Safe(s) && s.loop.Starting? && s.service.Outside? && s.streaming
    ensures Steps(s, StartRequest, s1) && Steps(s1, StoreCidZero, s2)
    ensures Safe(s2) && Exposed(s2)
  {
    s1 := SafeStep(s, StartRequest);
    s2 := SafeStep(s1, StoreCidZero);
  }

  /**
   * STREAM_STARTED between two stores of `disconnect` (streaming_ = false, then
   * a2dp_cid_ = 0), at any point of any run between two events: calm steps then lead to
   * a packet that nobody is going to look at.
   */
  lemma LateStartLosesWakeup(s: State) returns (s1: State, s2: State, s3: State, s4: State, es: seq<Step>)
    requires Safe(s) && s.loop.Ready? && s.service.Outside?
    ensures Steps(s, StoreStreamingFalse, s1) && Steps(s1, StreamStarted, s2)
    ensures Steps(s2, StartRequest, s3) && Steps(s3, StoreCidZero, s4)
    ensures Possible(s4, es) && Untorn(s4, es) && AllCalm(es) && !NoLostWakeup(End(s4, es))
  {
    s1, s2 := StreamWhileStopping(s);
    s3, s4 := IdZeroedAfterStart(s2);
    es := ExposedLosesWakeup(s4, MediaPacket([], 0, 0));
  }

  lemma SafeStep(s: State, e: Step) returns (r: State)
    requires Safe(s) && Enabled(s, e) && !TouchesQueue(e) && !e.CopySlot?
    ensures Steps(s, e, r) && Safe(r)
  {
    r := Apply(s, e);
    QueueStep(s, e);
    TriggerStep(s, e);
  }

  /** That state is met on the way from the start state, streaming on any id. */
  lemma StreamFromStart(s: State, c: nat) returns (s1: State, s2: State, s3: State)
    requires Start(s)
    ensures Steps(s, SignalingEstablished(c), s1) && Steps(s1, StreamStarted, s2) && Steps(s2, StartRequest, s3)
    ensures Safe(s3) && s3.loop.Ready? && s3.service.Outside? && s3.streaming && s3.cid == c
  {
    s1 := SafeStep(s, SignalingEstablished(c));
    s2 := SafeStep(s1, StreamStarted);
    s3 := SafeStep(s2, StartRequest);
  }

  // ---- delivery ----

  predicate RunLoopStep(e: Step) {
    e.RunCallback? || e.StorePendingFalse? || e.CallbackRequest? ||
    e.CanSendNow? || e.EnterDequeue? || e.CopySlot? || e.LeaveDequeue? || e.ChainRequest?
  }

  predicate RunLoopOnly(es: seq<Step>) {
    forall i :: 0 <= i < |es| ==> RunLoopStep(es[i])
  }

  /** Outside a reset, with the stream up and the producer idle. */
  ghost predicate Serving(s: State) {
    && Safe(s) && s.producer.Idle? && s.streaming && s.cid != 0
    && !s.loop.Starting? && s.service.Outside?
  }

  /**
   * How many steps the run loop can still make on its own: each callback to come may ask
   * for one more event, and each packet takes a whole event.
   */
  function Serves(s: State): int {
    6 * (3 * s.nodes + (match s.loop case Popped => 2 case Unflagged => 1 case _ => 0))
    + 7 * s.q.count
    + 5 * One(s.request)
    + (match s.loop
       case CanSend => 4 case Dequeuing => 3 case Copied(_) => 2
       case Chaining => if s.q.count > 0 then 6 else 1
       case _ => 0)
  }

  lemma LoopStepServes(s: State, e: Step)
    requires Defined(s) && 0 <= s.q.count && s.streaming && s.cid != 0 && s.producer.Idle? && !s.loop.Starting?
    requires s.loop.Copied? ==> s.q.count > 0
    requires Enabled(s, e) && RunLoopStep(e)
    ensures var r := Apply(s, e);
            && Serves(r) < Serves(s)
            && r.streaming && r.cid != 0 && r.producer.Idle? && !r.loop.Starting? && r.service == s.service
            && r.q.stored == s.q.stored && r.q.forgotten == s.q.forgotten
  {
    match e
    case RunCallback =>
    case StorePendingFalse =>
    case CallbackRequest =>
    case CanSendNow =>
    case EnterDequeue =>
    case CopySlot =>
    case LeaveDequeue =>
    case ChainRequest =>
  }

  /** The run loop can do nothing more on its own. */
  predicate Resting(s: State) {
    s.loop.Ready? && s.nodes == 0 && !s.request
  }

  lemma RestingIff(s: State)
    requires Serving(s)
    ensures Resting(s) <==> forall e :: RunLoopStep(e) ==> !Enabled(s, e)
  {
    if !Resting(s) {
      var e := LoopCanStep(s);
    }
  }

  lemma LoopCanStep(s: State) returns (e: Step)
    requires Serving(s) && !Resting(s)
    ensures RunLoopStep(e) && Enabled(s, e)
  {
    e := match s.loop
      case Popped => StorePendingFalse
      case Unflagged => CallbackRequest
      case CanSend => EnterDequeue
      case Dequeuing => CopySlot
      case Copied(_) => LeaveDequeue
      case Chaining => ChainRequest
      case _ => if s.request then CanSendNow else RunCallback;
  }

  lemma ServingStep(s: State, e: Step)
    requires Serving(s) && NoLostWakeup(s) && Enabled(s, e) && RunLoopStep(e)
    ensures var r := Apply(s, e);
            && Serving(r) && NoLostWakeup(r) && 0 <= Serves(r) < Serves(s)
            && r.q.stored == s.q.stored && r.q.forgotten == s.q.forgotten
  {
    LoopStepServes(s, e);
    QueueStep(s, e);
    TriggerStep(s, e);
    WakeupStep(s, e);
  }

  /** Every schedule of the run loop alone is bounded, and what it has sent is a prefix of what was stored. */
  lemma {:induction false} SchedulesEnd(s: State, es: seq<Step>)
    requires Serving(s) && NoLostWakeup(s) && Possible(s, es) && RunLoopOnly(es)
    ensures |es| <= Serves(s)
    ensures var r := End(s, es);
            Serving(r) && NoLostWakeup(r) && r.q.stored == s.q.stored && r.q.forgotten == s.q.forgotten
    decreases |es|
  {
    if es != [] {
      ServingStep(s, es[0]);
      SchedulesEnd(Apply(s, es[0]), es[1..]);
    }
  }

  /**
   * The wake-up suffices: with the producer idle and the id kept, every schedule of the
   * run loop alone, in whatever order it serves callbacks and requests, comes to rest
   * within a bounded number of steps, and at rest the queue is empty; without a forgotten
   * packet everything stored has then been sent, in order.
   */
  lemma EveryScheduleDrains(s: State, es: seq<Step>)
    requires Serving(s) && NoLostWakeup(s) && Possible(s, es) && RunLoopOnly(es)
    ensures |es| <= Serves(s)
    ensures (forall e :: RunLoopStep(e) ==> !Enabled(End(s, es), e)) ==>
              && End(s, es).q.count == 0
              && (s.q.forgotten == 0 ==> End(s, es).q.taken == s.q.stored)
  {
    SchedulesEnd(s, es);
    RestingIff(End(s, es));
  }

  /** And some schedule does come to rest. */
  lemma {:induction false} QueueDrains(s: State) returns (es: seq<Step>)
    requires Serving(s) && NoLostWakeup(s)
    ensures Possible(s, es) && RunLoopOnly(es) && Resting(End(s, es))
    ensures End(s, es).q.count == 0
    ensures s.q.forgotten == 0 ==> End(s, es).q.taken == s.q.stored
    decreases Serves(s)
  {
    if Resting(s) {
      es := [];
    } else {
      var e := LoopCanStep(s);
      ServingStep(s, e);
      var rest := QueueDrains(Apply(s, e));
      PossibleCons(s, e, rest);
      es := [e] + rest;
    }
  }
}
