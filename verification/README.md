# Sending path, remote encoder and key store of an A2DP source for Windows

A Windows program captures what the system plays, encodes it and streams it to Bluetooth
headphones through BTstack, or, for the Samsung Scalable Codec (SSC), through an encoder that runs
in another process. This project models the data movement between its threads and processes in
Dafny and proves what that movement keeps, over every input, every interleaving and every run.

`dafny verify dfyconfig.toml` checks all of it. One module per component:

| module | what it holds |
|---|---|
| `MediaQueue`, `MediaTrigger` | the 64-slot packet queue and its wake-up protocol, as steps of three threads |
| `PcmRing`, `PcmRingSteps` | the single-producer single-consumer PCM ring, as an object and as interleaved steps |
| `Packetiser`, `EncodePass`, `EncodeTimeline`, `EncodeRuns` | cutting PCM into blocks, encoding, packing, RTP time, for one pass and for whole runs |
| `Pipeline` | capture to queue in one state machine, with every store of a reconnect as a step |
| `SscWire`, `SscSystem`, `SscSession` | the SSC wire format, client/daemon/helper in lockstep, the C and the Python daemon |
| `LinkKeyFile`, `LinkKeyTable` | the link key text file and the table it stores |
| `BumpAllocator`, `Upsampler`, `Downmix`, `BitratePolicy`, `SbcBounds` | the allocator of the libc shim and the arithmetic of the audio path |
| `Bytes` | byte strings and `Flatten` |

## How the model is built

Objects the program updates in place are classes (`PacketQueue`, `Ring`, `StreamingContext`,
`LinkKeyDb`, `ByteStream`, `Allocator`), loops are methods with invariants, and each is proved
against a function or a relation about which the theorems are then proved. Threads and processes
are step systems: `Enabled` says when a step may happen, `Apply` what it does; `Possible` and `End` are runs
of any steps and where they end, `Run` and `After` runs without the steps a theorem excludes.

An encoder is any function from all blocks given so far to the reply to the last one, so a
theorem "for every encoder" covers every deterministic stateful encoder. What `mmap` answers,
whether a file could be opened, how many bytes a read returned and when an event arrives are
parameters or nondeterministic.

## What the code does not do

Where a promise is false of the code, the model keeps the code and the project proves exactly when
the promise holds.

- **The packet queue is not always FIFO.** The disconnect handlers zero the count and leave head
  and tail; `connect_a2dp` does not reset them either. The next packet sent is the FIFO one if and
  only if the number of packets forgotten since the last reset is a multiple of 64
  (`TakeIsExact`, `ClearSkews`); `StalePacketIsSent` is the smallest run that sends a stale packet.
- **`reconnect` resets the queue without the mutex**, in three stores. `QueueStep` says exactly which
  steps break the queue: the count store inside a dequeue (`TornDequeueUnderflows`: a count of -1),
  the head store while a packet is queued (`EnqueueBetweenStoresIsLost`: a whole enqueue fits between
  the first two stores) or inside an enqueue that chose another slot (`TornEnqueueSendsOldSlot`), and
  a dequeue between the head store and the tail store (`DequeueBetweenStoresRepeats`). Undisturbed,
  the three stores are the reset (`ThreeStoresAreReset`).
- **A wake-up can be lost.** If STREAM_STARTED arrives between `streaming_ = false` and
  `a2dp_cid_ = 0` of `disconnect`, steps that no longer touch the id lead to packets that stay queued
  while streaming and that nobody is going to look at (`LateStartLosesWakeup`); `reconnect` makes the
  same two stores with those of the queue between them.
  The states from which that can happen are exactly those that stream on connection id 0
  (`CanLoseIffExposed`), and `IdsKeptIff` says which runs never reach one.
- **The flush of the ring is safe while the encode thread is outside its span from the look at head
  to the store of tail** (`QuietFlushesAreSafe`). `RingStep` says exactly when it does harm inside:
  during the copy it is undone (`FlushInsideCopyIsUndone`), after the check the read then publishes a
  tail beyond head (`FlushAfterCheckOverruns`), within the check nearly 2^32 bytes seem to be there
  (`FlushInsideCheckUnderflows`), and a late store brings back bytes already read (`LateFlushRewinds`).
- **A reconnect is not always a clean cut.** `GoodStep` says exactly which steps let the past through:
  the queue reset while a packet has already passed the stream test of `send_media`
  (`AdmittedPacketSurvives`), the start of the stream before that reset (`EarlyStartAdmits`), and the
  start that `reconnect` waits for while a pass is under way (`OldPacketIsQueued`,
  `OldClockComesBack`). `WitnessesAreReached` leads to these states from the start.
- **The packetiser loses frames when a packet outgrows its 2048-byte buffer**, which a limit above
  2048 allows (`LosslessIff`, `LargeLimitLoses`).
- **The first packet of a pass is stamped with the start of the pass**, also when encode calls
  before its first block failed (`FirstStampIff`, `FailedCallShiftsStamp`).
- **The Python daemon is not a drop-in for every session.** It writes the same bytes as the C daemon
  exactly when no result at most 0 or above 65536 is reached, and it also ends like it, with the
  helper still there, exactly when no frame above 8192 samples is reached either (`DropInIff`,
  `ZeroResultDiffers`). On such a frame the helper exits under the request: the C daemon closes or is
  killed by SIGPIPE, the Python daemon waits for ever.
- **Seeding accepts keys that it does not return unchanged**: the text read back is the text seeded
  if and only if that was lower-case hex (`SeedReadback`, `UpperCaseComesBackLower`).
- **`malloc` returns a block smaller than asked** if and only if the size plus 15 overflows
  (`LargeEnoughIff`, `HugeRequestGetsSixteenBytes`).

## Model

| member | source | states |
|---|---|---|
| MediaQueue.BuildMeans | app/src/btstack_transport.cpp:1061-1082 | a payload is accepted exactly if it, with one header byte for SBC, is at most 1024 bytes, and is stored unchanged with its time and count, behind the count modulo 16 for SBC |
| MediaQueue.SkewLaw | app/src/btstack_transport.cpp:1083-1084 | head - tail is congruent to count + forgotten modulo 64 in every state that satisfies the invariant |
| MediaQueue.StoreKeeps | app/src/btstack_transport.cpp:1050-1085 | an enqueue with room keeps the invariant: 0 <= count <= 64, skew, the last 64 packets in their slots |
| MediaQueue.TakeIsExact | app/src/btstack_transport.cpp:1441-1449 | which stored packet a dequeue yields, with any skew; it is the FIFO one if and only if a multiple of 64 was forgotten |
| MediaQueue.TakeKeeps | app/src/btstack_transport.cpp:1441-1449 | a dequeue keeps the invariant, and without forgotten packets what was taken is a prefix of what was stored |
| MediaQueue.ClearKeeps | app/src/btstack_transport.cpp:1259-1265 | the count-only clear and the full reset keep the invariant; only the clear adds to the skew |
| MediaQueue.ClearSkews | app/src/btstack_transport.cpp:1496-1501 | after a clear the next packet is FIFO if and only if 0 or 64 packets were pending |
| MediaQueue.StalePacketIsSent | app/src/btstack_transport.cpp:674-728 | one packet pending at a clear, one stored after: the old one comes out first |
| MediaQueue.PacketQueue.constructor | app/src/btstack_transport.h:296-308 | the empty queue satisfies the invariant |
| MediaQueue.PacketQueue.Enqueue | app/src/btstack_transport.cpp:1050-1085 | accepted exactly with fewer than 64 queued and at most 1024 bytes, header included; then the packet with its payload, time and count is the last one stored; otherwise only the failure count changes |
| MediaQueue.PacketQueue.Dequeue | app/src/btstack_transport.cpp:1439-1449 | what comes out is the stored packet the skew selects, the FIFO one without skew; nothing changes on an empty queue |
| MediaQueue.PacketQueue.Forget | app/src/btstack_transport.cpp:1262-1262 | the count is zeroed, head and tail stay, the skew grows by the packets pending |
| MediaQueue.PacketQueue.Restart | app/src/btstack_transport.cpp:911-913 | count, head and tail are zeroed and the skew is gone |
| MediaQueue.ZeroHeadIff | app/src/btstack_transport.cpp:911-912 | the head store keeps the queue sound if and only if it finds it empty |
| MediaQueue.StoreKeepsHalfReset | app/src/btstack_transport.cpp:912-913 | an enqueue between the head store and the tail store is counted and remembered |
| MediaTrigger.EncodeThreadMoves | app/src/btstack_transport.cpp:1046-1101 | the encode thread waits for the mutex and for nothing else |
| MediaTrigger.LoopMoves | app/src/btstack_transport.cpp:1429-1484 | so does the run loop inside its handlers |
| MediaTrigger.EventsArrive | app/src/btstack_transport.cpp:1253-1299 | between handlers callbacks come if posted, can-send events if requested, and any other event at any time |
| MediaTrigger.AcceptedIffRoom | app/src/btstack_transport.cpp:1050-1085 | with the mutex free a packet is taken exactly if fewer than 64 are queued and it fits, and then it is stored, last and in the slot at head; otherwise the queue is as it was |
| MediaTrigger.LogsChange | app/src/btstack_transport.cpp:1081-1084 | only an enqueue adds to what was stored and only a dequeue to what was taken; only the reset empties them |
| MediaTrigger.CountsChange | app/src/btstack_transport.cpp:1259-1265 | the skew grows exactly at count-only clears, by the number pending, and is zeroed exactly by the reset |
| MediaTrigger.SlotsChange | app/src/btstack_transport.cpp:1083-1083 | which steps write a slot, head and tail, and what |
| MediaTrigger.FlagsChange | app/src/btstack_transport.cpp:1486-1508 | streaming and connected: by which events and stores, and by no others |
| MediaTrigger.IdChanges | app/src/btstack_transport.cpp:1289-1301 | the connection id: set by signaling, zeroed by its release and by the service thread |
| MediaTrigger.RequestChanges | app/src/btstack_transport.cpp:1480-1482 | a request is outstanding from a grant, which needs a nonzero id, to its event or the loss of the stream |
| MediaTrigger.TriggerChanges | app/src/btstack_transport.cpp:1088-1102 | the pending flag and the links of the node, by the steps that change them |
| MediaTrigger.ProducerMoves | app/src/btstack_transport.cpp:1046-1104 | the way through send_media: stream test, room and size test, exchange of the flag |
| MediaTrigger.LoopGoes | app/src/btstack_transport.cpp:1418-1484 | the way through the handlers of the run loop |
| MediaTrigger.QueueStep | app/src/btstack_transport.cpp:908-914 | every step of every thread keeps the queue invariant and what open critical sections saw, except exactly the listed collisions with the three stores of reconnect |
| MediaTrigger.ThreeStoresAreReset | app/src/btstack_transport.cpp:911-913 | with no critical section among them the three stores are the reset, and the queue is sound between them |
| MediaTrigger.TornDequeueUnderflows | app/src/btstack_transport.cpp:911-911 | the count store inside a dequeue leaves a count of -1 |
| MediaTrigger.TornEnqueueSendsOldSlot | app/src/btstack_transport.cpp:911-913 | the stores inside an enqueue leave one counted packet, which is the old content of slot 0 |
| MediaTrigger.EnqueueBetweenStoresIsLost | app/src/btstack_transport.cpp:911-913 | a whole enqueue between the first two stores: one packet counted with head equal to tail, the old content of slot 0 goes out |
| MediaTrigger.DequeueBetweenStoresRepeats | app/src/btstack_transport.cpp:912-913 | a dequeue that ends between the last two stores: the packet just sent is the next one again |
| MediaTrigger.TriggerStep | app/src/btstack_transport.cpp:1088-1102 | the pending flag equals the number of links of the one registration node made, about to be made or just undone |
| MediaTrigger.UntornKeepsQueue | app/src/btstack_transport.cpp:1043-1105 | in every run without a torn step the queue is sound throughout |
| MediaTrigger.NodeLinkedAtMostOnce | app/src/btstack_transport.cpp:1088-1102 | in every run, torn queue or not, the registration node is in the run loop's list at most once |
| MediaTrigger.NoLostWakeupInRuns | app/src/btstack_transport.cpp:1418-1484 | no wake-up is lost in any interleaving, torn queue or not, in which the connection id is kept while streaming |
| MediaTrigger.IdsKeptIff | app/src/btstack_transport.cpp:1289-1299 | a run, torn queue or not, keeps its ids if and only if it never streams on id 0 |
| MediaTrigger.ExposedLosesWakeup | app/src/btstack_transport.cpp:1480-1482 | from every safe state that streams on id 0, steps that neither touch the id nor start the stream lead to a lost wake-up |
| MediaTrigger.CanLoseIffExposed | app/src/btstack_transport.cpp:1088-1102 | from a sound state such steps, torn or not, can lose a wake-up if and only if the state streams on id 0 |
| MediaTrigger.LateStartLosesWakeup | app/src/btstack_transport.cpp:888-890 | from every state between events, STREAM_STARTED between the two stores and then a packet nobody will look at |
| MediaTrigger.StreamFromStart | app/src/btstack_transport.cpp:1418-1427 | such a state is reached from the start state, streaming on any id |
| MediaTrigger.EveryScheduleDrains | app/src/btstack_transport.cpp:1429-1484 | with an idle producer and the id kept, every schedule of the run loop alone is bounded and comes to rest only with the queue empty, all sent in order when nothing was forgotten |
| MediaTrigger.QueueDrains | app/src/btstack_transport.cpp:1429-1484 | and some schedule of the run loop alone comes to rest |
| MediaTrigger.WakeupBetweenEvents | app/src/btstack_transport.cpp:1088-1102 | from the start state, between events: callback posted, request outstanding, or the producer between enqueue and trigger |
| PcmRing.CapacityIff | app/src/a2dp_service.cpp:45-45 | the ring sizes of the model are exactly the powers of two below 2^32 |
| PcmRing.MaskOfWrapped | app/src/a2dp_service.cpp:78-81 | masking a wrapped 32-bit index gives the position of the unbounded one |
| PcmRing.Occupancy | app/src/a2dp_service.cpp:66-76 | the wrapped difference of the indices is the true occupancy |
| PcmRing.CopyPublishes | app/src/a2dp_service.cpp:78-88 | a two-piece copy into free space adds its bytes and keeps every unread one |
| PcmRing.Ring.constructor | app/src/a2dp_service.cpp:52-58 | an empty ring of the given capacity |
| PcmRing.Ring.AvailableWrite | app/src/a2dp_service.cpp:66-70 | the free space, across index wraps |
| PcmRing.Ring.AvailableRead | app/src/a2dp_service.cpp:72-76 | the number of unread bytes, across index wraps |
| PcmRing.Ring.Write | app/src/a2dp_service.cpp:78-88 | the stream grows by exactly the bytes given |
| PcmRing.Ring.Read | app/src/a2dp_service.cpp:90-99 | the oldest unread bytes, in order, and no others leave |
| PcmRing.Ring.Capture | app/src/a2dp_service.cpp:219-238 | a callback buffer is taken whole if and only if it fits, and dropped whole and counted otherwise |
| PcmRing.Ring.Flush | app/src/a2dp_service.cpp:1423-1425 | nothing is left to read |
| PcmRingSteps.WholeCallback | app/src/a2dp_service.cpp:223-237 | a nonempty buffer that fits is wholly in the stream once copied and published; any other changes nothing |
| PcmRingSteps.CheckDecision | app/src/a2dp_service.cpp:265-284 | the check may settle on exactly what was published when it loaded head, less what was read |
| PcmRingSteps.WholeRead | app/src/a2dp_service.cpp:90-99 | a read delivers the next bytes of the stream and moves past exactly these |
| PcmRingSteps.WholeFlush | app/src/a2dp_service.cpp:1423-1425 | a flush drops exactly what was published when it loaded head |
| PcmRingSteps.CallbackDecision | app/src/a2dp_service.cpp:231-235 | under interleaving the callback takes a buffer if and only if the true free space holds it |
| PcmRingSteps.CopiesAreDisjoint | app/src/a2dp_service.cpp:78-99 | no slot that a writer is filling is one that a reader is copying |
| PcmRingSteps.RingStep | app/src/a2dp_service.cpp:66-99 | every load, copy and store keeps the ring invariant and loses no ground, except exactly a flush store that meets the reader in one of four stated ways |
| PcmRingSteps.FlushInsideCopyIsUndone | app/src/a2dp_service.cpp:91-98 | a flush during the copy: the read publishes the tail it would have published |
| PcmRingSteps.FlushAfterCheckOverruns | app/src/a2dp_service.cpp:265-286 | a flush between the check and the tail load: the occupancy becomes 2^32 minus the bytes read |
| PcmRingSteps.FlushInsideCheckUnderflows | app/src/a2dp_service.cpp:72-76 | a flush between the two loads of available_read: what seems to be there wraps below zero |
| PcmRingSteps.LateFlushRewinds | app/src/a2dp_service.cpp:1424-1425 | a flush store that the reader has overtaken puts bytes already read back into the ring |
| PcmRingSteps.QuietFlushesAreSafe | app/src/a2dp_service.cpp:1392-1427 | flushes that fall wholly outside the span from check to publish tear nothing, in any interleaving |
| PcmRingSteps.RunKeeps | app/src/a2dp_service.cpp:66-99 | the invariant over every interleaving without a torn read; the position never goes back |
| PcmRingSteps.RingIsFifo | app/src/a2dp_service.cpp:219-238 | what was read followed by what is inside is the concatenation of the buffers taken, never more than the capacity inside |
| PcmRingSteps.FlushCutsTheStream | app/src/a2dp_service.cpp:1423-1425 | after a flush the reader sees exactly the bytes published since the flush loaded head |
| Packetiser.GreedyPartitions | app/src/a2dp_service.cpp:413-439 | greedy grouping keeps every frame, in order, with no empty group |
| Packetiser.GreedyIsMaximal | app/src/a2dp_service.cpp:414-422 | a packet is closed only when the next frame would exceed the limit |
| Packetiser.OversizeIsAlone | app/src/a2dp_service.cpp:414-427 | a packet above the limit is a single frame |
| Packetiser.WithinBoundIff | app/src/a2dp_service.cpp:414-427 | all groups fit a bound not below the limit if and only if every single frame does |
| Packetiser.GreedyIsOptimal | app/src/a2dp_service.cpp:413-439 | no order-preserving partition under the limit has fewer groups |
| EncodePass.CutConserves | app/src/a2dp_service.cpp:392-447 | blocks followed by residual are the input, every block has the block size and the residual is shorter |
| EncodePass.CutInTwo | app/src/a2dp_service.cpp:363-377 | cutting with the residual carried over is cutting the whole |
| EncodePass.StreamingContext.constructor | app/src/a2dp_service.cpp:1421-1422 | no residual, timestamp 0 |
| EncodePass.StreamingContext.TakeReply | app/src/a2dp_service.cpp:413-430 | one turn of the packing loop, on the accumulator array, against its specification |
| EncodePass.StreamingContext.EncodeBlocks | app/src/a2dp_service.cpp:392-432 | the encode loop gives the encoder every whole block in order and packs the replies as specified |
| EncodePass.StreamingContext.EncodeChunk | app/src/a2dp_service.cpp:363-447 | one pass, with its final packet and new residual, against its specification |
| EncodePass.SentPrefix | app/src/main.cpp:382-434 | packets already handed over do not influence a pass |
| EncodeTimeline.RunOfPasses | app/src/a2dp_service.cpp:363-447 | over any passes the encoder is given the blocks of the concatenated input and the residual is its rest |
| EncodeTimeline.ClockOfPasses | app/src/a2dp_service.cpp:430-431 | the timestamp is encode calls times frames per encode modulo 2^32, whatever the calls returned |
| EncodeTimeline.PcmIsConserved | app/src/a2dp_service.cpp:363-447 | encoder input followed by residual equals old residual followed by all input |
| EncodeTimeline.CutsDoNotMatter | app/src/a2dp_service.cpp:363-447 | two ways of cutting the same input into passes give the same blocks, residual and timestamp |
| EncodeTimeline.ReplyAt | app/src/a2dp_service.cpp:401-402 | the k-th call is given the first k blocks on top of all those before |
| EncodeTimeline.FrameIsReply | app/src/a2dp_service.cpp:413-413 | only a successful nonempty reply is packed, with its own bytes and count |
| EncodeTimeline.ReplyIsFrame | app/src/a2dp_service.cpp:413-427 | and every such reply is |
| EncodeTimeline.FramesInOrder | app/src/a2dp_service.cpp:392-432 | in the order of the calls |
| EncodeTimeline.CountIsSum | app/src/a2dp_service.cpp:426-426 | the frame count of a packet is the sum of what its calls reported |
| EncodeTimeline.PackingIsGreedy | app/src/a2dp_service.cpp:384-439 | while nothing is dropped, the imperative packing is the greedy reference, stamps included |
| EncodeTimeline.DropsAreMissing | app/src/a2dp_service.cpp:423-427 | payloads equal the encoder's output when nothing was dropped and are shorter when something was |
| EncodeTimeline.DropIffGroupTooLarge | app/src/a2dp_service.cpp:423-427 | a frame is dropped if and only if a greedy group outgrows the 2048 bytes |
| EncodeTimeline.LosslessIff | app/src/a2dp_service.cpp:384-439 | a pass is lossless if and only if no greedy group outgrows the accumulator; for limits up to 2048, if and only if no frame does |
| EncodeTimeline.LargeLimitLoses | app/src/a2dp_service.cpp:384-427 | a limit of 2050 and two frames of 1025 bytes lose the second |
| EncodeTimeline.PacketAt | app/src/a2dp_service.cpp:413-439 | payload, frame count and timestamp of each packet of a pass, in terms of its greedy group |
| EncodeTimeline.FirstStampIff | app/src/a2dp_service.cpp:388-390 | the first packet carries its first block's time if and only if the calls before it moved the clock by whole laps |
| EncodeTimeline.FailedCallShiftsStamp | app/src/a2dp_service.cpp:388-390 | a failed call and then a good one: the packet is stamped 128 frames early |
| EncodeTimeline.PacketiserIsOptimal | app/src/a2dp_service.cpp:384-439 | lossless, no packet above the limit, and no order-preserving partition under the limit uses fewer packets |
| EncodeTimeline.PacketsAbut | app/src/a2dp_service.cpp:413-439 | in a pass whose calls succeed each packet has its first block's time and ends where the next starts |
| EncodeRuns.RunCarries | app/src/a2dp_service.cpp:363-447 | the packets of any run of passes carry the frames of the whole block sequence, in order, and at their times if all calls succeed |
| EncodeRuns.RunIsLossless | app/src/a2dp_service.cpp:363-447 | over any run the payloads concatenate to exactly the encoder's outputs |
| EncodeRuns.RunAbuts | app/src/a2dp_service.cpp:388-439 | over any run whose calls succeed the packets tile the RTP timeline, across passes too |
| Pipeline.StepsAreOpen | app/src/a2dp_service.cpp:1387-1429 | captures, losses and stream starts come at any time, every thread can take its next step |
| Pipeline.RingChanges | app/src/a2dp_service.cpp:223-236 | a nonempty buffer is captured whole exactly if there is room; a pass takes exactly what it reads; the flush empties |
| Pipeline.ContextChanges | app/src/a2dp_service.cpp:1421-1422 | clock and residual change by the end of a pass and by the stores of the service |
| Pipeline.HandOverChanges | app/src/btstack_transport.cpp:1046-1046 | a hand-over passes exactly while streaming; all packets of a pass are handed over |
| Pipeline.StoredChanges | app/src/btstack_transport.cpp:1050-1085 | a delivery stores the payload with its time, behind its header for SBC, exactly if there is room and it fits |
| Pipeline.TakenChanges | app/src/btstack_transport.cpp:1441-1449 | what sends, losses and the reset do to the queue |
| Pipeline.StreamChanges | app/src/btstack_transport.cpp:908-914 | which steps start and stop the stream, and the order of the section |
| Pipeline.GoodStep | app/src/a2dp_service.cpp:1392-1429 | with each store of the reconnect section a step: captured PCM is conserved, the context is what passes over it make of a fresh one, the stored packets were built, in order, from packets offered since the cut, except after exactly three dirty steps |
| Pipeline.HandOverIsDropped | app/src/btstack_transport.cpp:1046-1046 | between the queue reset and the start of the stream every hand-over is dropped |
| Pipeline.AdmittedPacketSurvives | app/src/btstack_transport.cpp:1046-1084 | a packet that passed the stream test before the reset is queued after it |
| Pipeline.EarlyStartAdmits | app/src/btstack_transport.cpp:1418-1420 | with the stream started between the stop and the reset a packet of the old pass passes the stream test |
| Pipeline.OldPacketIsQueued | app/src/btstack_transport.cpp:1418-1420 | a packet of a pass that outlives the pause is queued when the stream is back |
| Pipeline.OldClockComesBack | app/src/a2dp_service.cpp:1421-1422 | a pass that ends after the restart brings the old clock and residual back |
| Pipeline.StartIsGood | app/src/a2dp_service.cpp:1387-1390 | the empty pipeline, linked and streaming, satisfies the invariant |
| Pipeline.ReachableIsGood | app/src/a2dp_service.cpp:1387-1429 | so does every state reached from it without a dirty step |
| Pipeline.WitnessesAreReached | app/src/a2dp_service.cpp:1392-1429 | the states from which old packets, clock and residual come through are reached from the start |
| Pipeline.SameRun | app/src/a2dp_service.cpp:1392-1429 | no run, captures, losses and further reconnects included, tells apart two pipelines that differ only in what the cut removes |
| Pipeline.ReconnectIsCleanCut | app/src/a2dp_service.cpp:1392-1429 | with no pass under way when the stream starts again, two pasts with the same encoder state store and send the same packets in every future |
| Pipeline.GrownIsMadeOf | app/src/a2dp_service.cpp:363-447 | what passes make of a fresh context: conservation, a clock from 0, payloads that are the replies to this PCM |
| Pipeline.AfterReconnect | app/src/a2dp_service.cpp:1421-1427 | after the cut every packet sent has the payload and time of one offered since, in their order while no link is lost, made from PCM captured since, on a clock that restarted at 0 |
| SscWire.Le32RoundTrip | app/src/ssc_daemon_backend.cpp:278-293 | a 32-bit word written little-endian reads back |
| SscWire.GoodFrameIff | tools/ssc_payload/build_blob/ssc_blob_helper.c:149-154 | the frames of the model are exactly those of 1 to 8192 samples a channel |
| SscWire.RequestBytes | app/src/ssc_daemon_backend.cpp:278-284 | a request on the wire: the sample count, least significant byte first, and the PCM unchanged |
| SscWire.ReplyBytes | tools/ssc_payload/build_blob/ssc_blob_helper.c:162-172 | a reply on the wire: the signed result in two's complement and the first `ret` bytes of the output, if any |
| SscWire.RequestFraming | tools/ssc_payload/build_blob/sscblobd.c:164-180 | a reader with part of a request asks for more of it, never for more than it, and is done exactly at its end |
| SscWire.ReplyFraming | app/src/ssc_daemon_backend.cpp:287-302 | the same for replies, those without a body included |
| SscSystem.AnyPieceMoves | tools/ssc_payload/build_blob/sscblobd.c:59-91 | any nonempty piece of what is there and wanted may be read, any that there is room for written |
| SscSystem.DaemonAtHeader | tools/ssc_payload/build_blob/sscblobd.c:165-176 | the daemon at a header: exit on the magic, give up on 0 and above 16384, otherwise read on |
| SscSystem.HelperAtHeader | tools/ssc_payload/build_blob/ssc_blob_helper.c:149-152 | the helper at a header: exit on 0 and above 8192, otherwise read on |
| SscSystem.CallStep | tools/ssc_payload/build_blob/sscblobd.c:164-204 | each read or write of any size inside a call keeps lockstep and shortens the call |
| SscSystem.LockstepStep | tools/ssc_payload/build_blob/ssc_blob_helper.c:140-173 | every step of client, daemon or helper keeps lockstep: one message under way and all its bytes accounted for |
| SscSystem.NeverDeadlocked | tools/ssc_payload/build_blob/sscblobd.c:59-91 | in every lockstep state with work left some process can move, for every pipe capacity |
| SscSystem.RunKeepsLockstep | tools/ssc_payload/build_blob/sscblobd.c:164-204 | lockstep over every schedule of short reads and partial writes |
| SscSystem.RemoteIsLocal | app/src/ssc_daemon_backend.cpp:278-302 | the k-th call returns the first `ret` bytes of the encoder's output for the k-th frame after the frames before it, or fails if `ret` is not positive; between calls no byte is unread anywhere |
| SscSystem.CallCompletes | app/src/ssc_daemon_backend.cpp:278-302 | from every state of a call a schedule of bounded length completes it |
| SscSession.HeadingOfCall | tools/ssc_payload/build_blob/sscblobd.c:165-180 | a header of 1 to 16384 takes exactly its PCM; any shorter input ends the session |
| SscSession.HeadingOfWord | tools/ssc_payload/build_blob/sscblobd.c:168-176 | every other header: the magic ends the session with the command to exit, a bad count without |
| SscSession.COneCall | tools/ssc_payload/build_blob/sscblobd.c:188-203 | what the C daemon answers to one call, by result: up to 0, to 4096, to 65536, above |
| SscSession.PyOneCall | tools/ssc_daemon/sscblobd.py:108-115 | what the Python daemon answers to one call, by result |
| SscSession.NoHelperNoAnswer | tools/ssc_payload/build_blob/ssc_blob_helper.c:149-152 | without a helper, or with a frame too large for it, neither daemon answers |
| SscSession.AnswersSnoc | tools/ssc_payload/build_blob/ssc_blob_helper.c:162-172 | the answers to well-formed calls are, call by call, the signed result and the first `ret` bytes of the output |
| SscSession.DropInIff | tools/ssc_daemon/sscblobd.py:161-183 | same bytes if and only if no result at most 0 or above 65536 is reached, otherwise the C daemon writes more; same ending with the helper alive if and only if no frame above 8192 samples is reached either |
| SscSession.ZeroResultDiffers | tools/ssc_daemon/sscblobd.py:112-114 | a result of 0 is passed on by the C daemon and ends the Python session |
| SscSession.CallsThenRest | tools/ssc_payload/build_blob/sscblobd.c:164-204 | after any well-formed calls, whatever their PCM contains, the session has answered each and is at a header |
| SscSession.ShutdownOnlyAtHeader | tools/ssc_payload/build_blob/sscblobd.c:165-172 | the C daemon stops if and only if the word after the calls is the magic |
| SscSession.PyShutdownOnlyAtHeader | tools/ssc_daemon/sscblobd.py:165-170 | the same for the Python daemon |
| SscSession.PythonIsDropIn | tools/ssc_daemon/sscblobd.py:108-115 | frames of 1..8192 samples and results of 1..4096 bytes: byte-exact agreement with the C daemon |
| SscSession.ByteStream.Read | tools/ssc_daemon/sscblobd.py:186-193 | any nonempty piece of what is there, nothing at end of file |
| SscSession.ByteStream.ReadFull | tools/ssc_payload/build_blob/sscblobd.c:59-75 | exactly n bytes or failure at end of file, whatever the schedule of short reads |
| SscSession.ByteStream.NextHeading | tools/ssc_payload/build_blob/sscblobd.c:165-180 | the header and PCM reads find what the specification says is at the head of the stream |
| SscSession.CRelay | tools/ssc_payload/build_blob/sscblobd.c:188-203 | what the C daemon makes of the helper's answer, oversized results and a dead helper included |
| SscSession.CServiceClient | tools/ssc_payload/build_blob/sscblobd.c:164-204 | the C loop writes and stops as the session function says |
| SscSession.PyRelay | tools/ssc_daemon/sscblobd.py:108-115 | success exactly on results of 1..4096, and then the first `ret` bytes of the output |
| SscSession.PyServiceClient | tools/ssc_daemon/sscblobd.py:161-183 | the Python loop writes and stops as the session function says |
| LinkKeyFile.AddressTextAt | app/src/btstack_link_key_db_file.c:48-50 | an address is printed as upper-case pairs in order, joined by dashes |
| LinkKeyFile.KeyTextAt | app/src/btstack_link_key_db_file.c:134-139 | a key is printed as lower-case pairs in order |
| LinkKeyFile.DigitsShape | app/src/btstack_link_key_db_file.c:141-141 | a type is printed without leading zeros |
| LinkKeyFile.LineLayout | app/src/btstack_link_key_db_file.c:141-141 | the places of address, key and type in a line |
| LinkKeyFile.LineIsSkipped | app/src/btstack_link_key_db_file.c:73-81 | comments, empty and short lines and lines without an address are passed over |
| LinkKeyFile.LineLengthIs | app/src/btstack_link_key_db_file.c:71-72 | a line is taken up to its newline, 127 characters, or the end |
| LinkKeyFile.ParseIsBounded | app/src/btstack_link_key_db_file.c:72-72 | at most as many entries as there is room for are taken |
| LinkKeyFile.ScanHexCases | app/src/btstack_link_key_db_file.c:52-56 | what two characters scan as: digits of either case, a single digit, a sign, a blank, the 0x prefix |
| LinkKeyFile.LineParses | app/src/btstack_link_key_db_file.c:73-102 | every printed line parses to its entry, for every 32-bit type |
| LinkKeyFile.LoadAfterSave | app/src/btstack_link_key_db_file.c:59-152 | parsing what was printed gives back every table of up to 32 entries |
| LinkKeyFile.SeedReadback | app/src/btstack_transport.cpp:633-638 | a seeded text prints back as itself if and only if it is lower-case hex |
| LinkKeyFile.UpperCaseComesBackLower | app/src/btstack_transport.cpp:633-638 | a key with an upper-case digit is accepted and printed with a lower-case one |
| LinkKeyTable.Find | app/src/btstack_link_key_db_file.c:155-162 | the first entry for the address, or -1 exactly when there is none |
| LinkKeyTable.PutKeepsDistinct | app/src/btstack_link_key_db_file.c:189-208 | addresses stay pairwise distinct and at most 32 |
| LinkKeyTable.PutKeepsOrder | app/src/btstack_link_key_db_file.c:189-208 | an update keeps its position, a new address goes last, a full table loses its oldest |
| LinkKeyTable.PutGet | app/src/btstack_link_key_db_file.c:179-208 | what every address maps to after a put |
| LinkKeyTable.DeleteKeepsOrder | app/src/btstack_link_key_db_file.c:210-223 | the other entries keep their order and stay distinct |
| LinkKeyTable.DeleteGet | app/src/btstack_link_key_db_file.c:210-223 | a delete removes its own address and no other |
| LinkKeyTable.Get | app/src/btstack_link_key_db_file.c:179-187 | nothing exactly if no entry has the address, otherwise key and type of one that has |
| LinkKeyTable.PutIsDone | app/src/btstack_link_key_db_file.c:189-208 | the whole table after a put, and what every address then maps to |
| LinkKeyTable.DeleteIsDone | app/src/btstack_link_key_db_file.c:210-223 | the whole table after a delete, and what every address then maps to |
| LinkKeyTable.RunOpsSnoc | app/src/btstack_link_key_db_file.c:189-223 | a run of operations ends with the effect of its last one |
| LinkKeyTable.FileFollowsTable | app/src/btstack_link_key_db_file.c:189-223 | after any puts and deletes with successful writes the file parses to the table in memory |
| LinkKeyTable.LinkKeyDb.constructor | app/src/btstack_link_key_db_file.c:41-42 | an empty table beside the file |
| LinkKeyTable.LinkKeyDb.LoadLine | app/src/btstack_link_key_db_file.c:72-103 | one turn of the load loop against the parser function |
| LinkKeyTable.LinkKeyDb.Open | app/src/btstack_link_key_db_file.c:59-105 | the table is what the parser function makes of the file |
| LinkKeyTable.LinkKeyDb.Save | app/src/btstack_link_key_db_file.c:108-152 | the file becomes the printed table, or stays when it cannot be written |
| LinkKeyTable.LinkKeyDb.FindEntry | app/src/btstack_link_key_db_file.c:155-162 | the search loop finds what `Find` does |
| LinkKeyTable.LinkKeyDb.ShiftDown | app/src/btstack_link_key_db_file.c:214-218 | the in-place move removes exactly one entry |
| LinkKeyTable.LinkKeyDb.GetLinkKey | app/src/btstack_link_key_db_file.c:179-187 | key and type of the address, or nothing |
| LinkKeyTable.LinkKeyDb.Place | app/src/btstack_link_key_db_file.c:190-204 | the array after a put is `Put` of the array before |
| LinkKeyTable.LinkKeyDb.PutLinkKey | app/src/btstack_link_key_db_file.c:189-208 | the new key is found, every other address maps as before except the oldest of 32 that makes room, places are kept, and a written file parses to the table |
| LinkKeyTable.LinkKeyDb.DeleteLinkKey | app/src/btstack_link_key_db_file.c:210-223 | the address is no longer found, every other one maps as before and keeps its order, and a written file parses to the table; the file is not touched for an unknown address |
| LinkKeyTable.LinkKeyDb.Iterate | app/src/btstack_link_key_db_file.c:239-251 | the iterator yields every entry once, oldest first |
| LinkKeyTable.LinkKeyDb.SeedLinkKey | app/src/btstack_transport.cpp:627-647 | accepted exactly for 32 characters whose pairs scan; a lower-case key is then found under the address in reversed byte order |
| LinkKeyTable.LinkKeyDb.GetLinkKeyHex | app/src/btstack_transport.cpp:649-668 | the stored key as lower-case hex, with its type |
| LinkKeyTable.SeedThenRead | app/src/btstack_transport.cpp:627-668 | seeding any lower-case 32-digit key and reading it back returns that string and type |
| BumpAllocator.RoundedIsNext | tools/ssc_payload/build_blob/android_libc_shim.c:55-57 | a size is rounded to the next multiple of 16, and 16 for none |
| BumpAllocator.MapSizeIsNext | tools/ssc_payload/build_blob/android_libc_shim.c:59-59 | a mapping is a megabyte or the next multiple of a page |
| BumpAllocator.MallocOutcome | tools/ssc_payload/build_blob/android_libc_shim.c:58-69 | the current chunk is used exactly while it has room, a new mapping otherwise, and only a refused mapping gives no block |
| BumpAllocator.MallocKeeps | tools/ssc_payload/build_blob/android_libc_shim.c:53-70 | blocks stay 16-byte aligned, inside mappings and disjoint after every call, overflowing sizes included |
| BumpAllocator.LargeEnoughIff | tools/ssc_payload/build_blob/android_libc_shim.c:55-57 | the block is as large as asked if and only if the rounding does not overflow |
| BumpAllocator.HugeRequestGetsSixteenBytes | tools/ssc_payload/build_blob/android_libc_shim.c:55-57 | asked for 2^64 - 1 bytes, a new heap hands out 16 |
| BumpAllocator.HeapStaysSound | tools/ssc_payload/build_blob/android_libc_shim.c:53-70 | the same over any sequence of calls |
| BumpAllocator.Allocator.Allocate | tools/ssc_payload/build_blob/android_libc_shim.c:53-70 | the two static pointers and the result of a call, keeping the heap sound |
| Upsampler.Upsample | app/src/resampler.cpp:16-77 | all 2n - 1 claimed frames, by place: originals, the four end midpoints, the interior ones; nothing beyond them is written and refused input writes nothing |
| Upsampler.CopyOriginals | app/src/resampler.cpp:24-28 | even output frames are the input frames |
| Upsampler.CubicIsExact | app/src/resampler.cpp:60-61 | the interior formula is exact for every cubic polynomial |
| Upsampler.MidpointIsExact | app/src/resampler.cpp:40-71 | interior midpoints are exact on sampled cubics, all midpoints on affine signals |
| Upsampler.GainBound | app/src/resampler.cpp:38-71 | no midpoint exceeds 1.25 times the peak, and that gain is reached |
| Downmix.TruncTowardZero | app/src/main.cpp:297-298 | each division drops the fraction toward zero |
| Downmix.Shares | app/src/main.cpp:315-316 | front whole, centre and surrounds at 707 and bass at 500 thousandths, each rounded on its own |
| Downmix.PathsAgree | app/src/main.cpp:285-321 | the 32-bit result differs from 65536 times the 16-bit result by less than 4 * 65536, saturation included |
| Downmix.NoOverflow | app/src/main.cpp:306-317 | no product or sum of the 16-bit path leaves int32_t |
| Downmix.NoWideOverflow | app/src/main.cpp:287-300 | the shifted samples are int32_t and no product or sum of the 32-bit path leaves int64_t |
| Downmix.DownmixFrame | app/src/main.cpp:287-320 | each side is within three units of front plus 0.707 of centre and of its surrounds plus half the bass, cut at the ends of the range, on both paths |
| Downmix.DownmixFrames | app/src/main.cpp:285-321 | every output sample of the loop, and nothing beyond |
| BitratePolicy.SnapBitrate | app/src/codec_policy.h:78-94 | a nearest entry of the mode's table, the lower of two equally near ones |
| BitratePolicy.SnapIsMonotone | app/src/codec_policy.h:78-94 | snapping is a function and monotone |
| BitratePolicy.SnapIsIdempotent | app/src/codec_policy.h:78-94 | snapping a snapped bitrate changes nothing |
| BitratePolicy.TableIs | app/src/codec_policy.h:64-74 | the bitrates of the two modes, and which rates belong to which |
| BitratePolicy.PickTable | app/src/codec_policy.h:97-108 | the six automatic bitrates, rising with quality |
| BitratePolicy.ChooseBitrate | app/src/ssc_encoder.cpp:72-95 | every quality, override and rate gives the backend a bitrate of the table of the rate it is given |
| SbcBounds.ReadIsCapped | app/src/a2dp_service.cpp:272-282 | a pass reads all whole frames there are up to the cap of ten milliseconds or 128, or all without a rate |
| SbcBounds.FrameLengths | app/src/a2dp_sbc_encoder.cpp:111-122 | the six frame lengths, joint stereo and mono |
| SbcBounds.FrameLengthBound | app/src/a2dp_sbc_encoder.cpp:111-122 | a frame is at most 119 bytes, so four and a header fit a queue slot |
| SbcBounds.AtMostFourBlocks | app/src/a2dp_service.cpp:276-282 | the read cap and the residual bound allow at most four blocks a pass at 44.1 and 48 kHz |
| SbcBounds.SbcPacketsFit | app/src/btstack_transport.cpp:1062-1070 | with at most four calls the 4-bit count is exact and header plus payload stay within the MTU |
| SbcBounds.ServicePacketsFit | app/src/a2dp_service.cpp:276-439 | both together: every packet of every SBC pass holds 1 to 4 frames, says so, and fits the MTU |

## Left out

- MediaTrigger.QueueStep: steps are sequentially consistent, and an assignment such as `head = (head + 1) % 64` is one access; accesses that commute with everything other threads do are merged, as the head of the module lists; the stores of one disconnect handler are one step, since their order matters only while `streaming_` is already false.
- MediaTrigger.NoLostWakeupInRuns: a zero connection id and a zero stream endpoint id are treated as one case.
- Whether BTstack grants a request: a request with a nonzero id is taken, and disconnect events may drop it; a packet the stack refuses to send counts as taken.
- PcmRingSteps.RingStep: acquire/release publication appears as the order of the steps; weaker reorderings of the relaxed accesses are not modelled.
- PcmRing.Ring.Flush: the object's operations are whole; their interleaving is in PcmRingSteps.
- PcmRing.Ring.Write: `requires` the room that `service_audio_callback` checks before calling it, as the source does.
- EncodePass.StreamingContext.EncodeChunk: a block size of 0 is excluded, on which the loop of the source does not end; 32-bit overflow of byte offsets is not modelled; statistics and log output are left out.
- EncodeTimeline.PackingIsGreedy: assumes that an encoder which returns bytes returns at least one frame.
- Passes that end early, with no transport or an unsupported sample width, discard their chunk and are not passes of the model; sample conversion is one arbitrary function in Pipeline, and the service's upsampler call, whose buffer is half of what the upsampler writes, is not part of it.
- Pipeline.ReconnectIsCleanCut: the encoder's own state survives a reconnect and is the one thing the two pasts must share; the flush of the ring, the queue reset, and the taking away and giving back of encoder and transport are one step each here, their insides being in PcmRingSteps and MediaTrigger; a pass counts as under way from its load of the encoder pointer, and what it writes appears when it ends; its later load of the transport pointer, which ends it early when empty, is not part of the model.
- SscSystem.RemoteIsLocal: up to the first I/O failure, for frames of 1..8192 samples and results of at most 4096 bytes, with the client's buffer at least that large; connecting, recovery and the ready word of the helper are left out.
- SscSession.CServiceClient: interrupted calls are left out and writes are whole; which of its two ends a session has when the helper exits under a request, closed or killed by SIGPIPE, is a race and not decided.
- SscSession.PyServiceClient: the write of a request to the helper is whole, as the comment in the source says.
- The stop flag of the accept loop: the session's ending says whether it is set.
- LinkKeyFile.LoadAfterSave: text is bytes without NUL; the address printer and scanner belong to BTstack and are modelled as upper-case pairs joined by dashes and pairs with optional separators; "0x" where a hex pair is expected is a failed scan; a type outside 32 bits, undefined in C, is skipped.
- LinkKeyTable.PutKeepsDistinct: distinctness starts from an empty table or a saved file; files edited by hand with repeated addresses load as they are.
- LinkKeyTable.LinkKeyDb.Open: the `used` flag, 1 in every live entry, is not a field of the model; a crash between writing the temporary file and renaming it is not modelled.
- LinkKeyTable.LinkKeyDb.SeedLinkKey: the check for an unset key directory is left out.
- BumpAllocator.MallocKeeps: the kernel is taken to answer with an error code or a fresh page-aligned mapping apart from the others; address 0 and mappings up to the end of the address space are excluded.
- Upsampler.Upsample: samples are reals, so float rounding is not modelled; frame counts whose double overflows 32 bits and null pointers are left out.
- Downmix.DownmixFrames: the integer paths only; the float downmix is left out.
- SbcBounds.SbcPacketsFit: needs the frame length limit below the MTU, and either an MTU within the 1024-byte slot or, as for every quality setting, four frames within it.
- BitratePolicy: choosing a codec, the encode sample rate and the stream configuration are short case distinctions.
- Capture, USB and driver code, sockets, process start-up, the GUI, settings, telemetry and the encoders themselves: foreign calls or plain input and output.
