# AES67 virtual sound card: model and proofs

This project models the audio data path of the AES67 virtual sound card and the protocol components
beside it, and proves properties of the model with Dafny 4.11. `dafny verify dfyconfig.toml` checks it.

The parts, and the file each is in:

- **Ring** (`RingIndex`, `RingBuffer`, `RingProtocol`, `RingProgress`): the lock-free single-producer single-consumer
  ring, once as a class that implements a bounded FIFO (`Fifo`), and once as two interleaved threads whose
  index loads, element copies and index stores are separate steps.
- **RTP** (`Rtp`, `RtpRuns`): L24 samples (RFC 3190 section 4), the header (RFC 3550 section 5.1),
  packetizer and depacketizer, and runs of both with loss accounting (RFC 3550 appendix A.3).
- **Jitter buffer** (`Jitter`): the timestamp-ordered queue, its adaptive target depth, and its runs.
- **Transport** (`Transport`, `AudioPath`): receive loop, jitter buffer, playout loop and ring together,
  behind a network that may lose, repeat and reorder packets, up to the samples the driver reads.
- **PTP** (`PtpMaster`, `PtpWire`, `PtpClock`): the Sync/Announce schedule, the messages (IEEE 1588-2008
  clauses 5.3.3, 13.3, 13.6, 13.8), and the slave's servo and affine clock mapping.
- **SDP and SAP** (`Text`, `Sdp`, `Sap`): session descriptions (RFC 8866 section 5) printed and parsed, and
  announcement followed by discovery (RFC 2974 section 6).
- **Lifecycle** (`Lifecycle`): the device over the network engine over the PTP master.

`Words` holds fixed-width words as integers with the wrap-around written out, and bit operators defined
bit by bit. An object whose methods change its fields is a class whose methods are proved equal to a
function of the old state; properties of whole runs are lemmas about those functions.

The source's `PTPClient` is three classes here, each with the fields its concern uses: `PtpWire.PTPClient`
writes messages, `PtpClock.PTPClient` is the servo and the clock mapping, `Lifecycle.PTPClient` starts and
stops.

The main results: `RingProtocol.ReadsAreAPrefix`, `NoSharedSlot` and `Linearises`; `RingProgress.CallsAreShort`; `Fifo.Conservation` with
`RingBuffer.Drive`; `Rtp.AcceptedIff` and `DecodedIff`; `RtpRuns.InOrderRoundTrip` and `LossConservation`; `Jitter.RunInvariant`, `PlayedIff`,
`Drain`, `RaisesAreEarned` and `NeverShrinksIffNarrow`; `Transport.PlayedInOrder`, `OrderKeptIffNoWrap` and `PerfectNetworkPlaysAll`;
`AudioPath.DriverHearsTheSender`, `ThreadsHearTheSender` and `EverythingIsHeard`; `PtpMaster.OnePerPolledSlot`;
`PtpWire.TimestampOnTheWire` and `PTPClient.AnswerEvent`; `PtpClock.HostRoundTrip`, `ServoDrift` and
`UpdateRestartsMapping`; `Sdp.GenerateParse`; `Sap.AnnounceThenDiscover`, `DirectoryHoldsLatest` and
`EngineIsDiscovered`; `Lifecycle.RunSound`, `ActiveIffLastStarted` and `TornRun`.

Where the code and its own comments or documentation disagree, the model follows the code:

- The sequence check says it ignores duplicates; an exact repeat of the last packet passes it
  (`RtpRuns.PassesIffNotBehind`).
- The jitter buffer orders by a raw 32-bit comparison, so a packet from behind a timestamp wrap is queued
  before older ones; exactly when order is kept is `Transport.OrderKeptIffNoWrap`.
- Calls of the ring's two threads that overlap can return counts that no order of the two calls would
  give; exactly when is `RingProtocol.OverlapIsAtomicIff`, and what does hold is `RingProtocol.Linearises`.
- The target depth of the jitter buffer is called adaptive in both directions; with a range of at most 8
  packets, as the engine configures, it can never shrink (`Jitter.NeverShrinksIffNarrow`).
- The receive buffer holds 1500 bytes, 62 frames of 8 channels, while the sample buffers are sized for 64; of
  a longer packet exactly the first 62 frames are played (`Transport.WholeIffItFits`).
- A ring write that is clipped always breaks the 8-channel alignment (`Transport.AlignedIffItFits`).
- The parser keeps the payload type in front of the rtpmap, so that field does not round-trip
  (`Sdp.GenerateParse`).
- The servo moves the host anchor without the PTP anchor, so an update throws PTP time back to the PTP
  anchor; by how much, and when not, is `PtpClock.UpdateRestartsMapping`.
- The announced packet time has three digits behind the point, too few for 250 microseconds
  (`Sap.PtimeIsLostIff`).
- The device's lock flag stays set after the PTP master stops (`Lifecycle.LockFlagIsStale`), and a teardown
  keeps the client list and drops the callbacks (`Lifecycle.TornRun`, `TeardownBlocksIff`, `TornSeed`).

## Model

| member | source | states |
|---|---|---|
| RingIndex.NextPowerOfTwo | driver/include/AES67_RingBuffer.h:163-173 | the smeared word plus one is the least power of two not below the request, for every request up to 2^63; above that it is 0 |
| RingIndex.SmearStep | driver/include/AES67_RingBuffer.h:166-171 | or-ing a word with itself shifted by w doubles the run of ones under its top bit and sets no higher bit |
| RingIndex.DistanceOfCounters | driver/include/AES67_RingBuffer.h:140-151 | the masked 64-bit difference of two wrapped counters is their true distance whenever that is below the capacity |
| RingIndex.AdvanceHome | driver/include/AES67_RingBuffer.h:56-56 | the masked sum published as an index is the slot of the unbounded element counter |
| RingIndex.DistinctSlots | driver/include/AES67_RingBuffer.h:44-53 | elements less than a capacity apart never share a slot |
| RingIndex.HomeIsRemainder | driver/include/AES67_RingBuffer.h:56-56 | the slot of an element is its number modulo the capacity |
| Fifo.Conservation | driver/include/AES67_RingBuffer.h:37-137 | over any script without Skip and Reset, initial contents followed by everything accepted equal everything delivered followed by what is left |
| Fifo.ReadIsTight | driver/include/AES67_RingBuffer.h:63-117 | Read hands out the oldest elements and gives less than asked only by emptying the queue; Peek shows what Read would, Skip drops it |
| Fifo.WriteIsTight | driver/include/AES67_RingBuffer.h:37-137 | Write takes the beginning of its data and less than all only by filling the queue; silence is written like so many zeros |
| RingBuffer.RingBuffer.constructor | driver/include/AES67_RingBuffer.h:18-27 | an empty ring whose capacity is the least power of two not below the request; a request above 2^63 yields capacity 0 and no usable ring |
| RingBuffer.RingBuffer.ReadAvailable | driver/include/AES67_RingBuffer.h:147-151 | the number of stored elements |
| RingBuffer.RingBuffer.WriteAvailable | driver/include/AES67_RingBuffer.h:140-144 | together with the stored elements exactly capacity - 1 |
| RingBuffer.RingBuffer.Write | driver/include/AES67_RingBuffer.h:37-59 | appends the longest prefix of the data that fits, across the wrap point, and returns its length |
| RingBuffer.RingBuffer.CopyIn | driver/include/AES67_RingBuffer.h:44-53 | the two chunks land in the next free slots in order and every other slot is unchanged |
| RingBuffer.RingBuffer.WriteSilence | driver/include/AES67_RingBuffer.h:120-137 | appends as many zero elements as fit and returns how many |
| RingBuffer.RingBuffer.Read | driver/include/AES67_RingBuffer.h:63-85 | moves the oldest elements, up to the request, into the buffer in order and leaves the rest of the buffer alone |
| RingBuffer.RingBuffer.Peek | driver/include/AES67_RingBuffer.h:88-104 | shows the oldest elements without removing any |
| RingBuffer.RingBuffer.Skip | driver/include/AES67_RingBuffer.h:107-117 | drops the oldest elements, up to the request |
| RingBuffer.RingBuffer.Reset | driver/include/AES67_RingBuffer.h:154-158 | empties the ring and zeroes every slot |
| RingBuffer.Appended | driver/include/AES67_RingBuffer.h:43-58 | filling the slots behind the write index and moving it appends exactly the new elements to the window |
| RingBuffer.Dropped | driver/include/AES67_RingBuffer.h:69-84 | moving the read index drops exactly that many oldest elements from the window |
| RingBuffer.Drive | driver/include/AES67_RingBuffer.h:37-158 | any script of calls on a ring gets exactly the replies and final contents of the bounded FIFO |
| RingProtocol.ProducerCopyInv | driver/include/AES67_RingBuffer.h:47-53 | the store of any single element, at any moment of the consumer, keeps the invariant |
| RingProtocol.PublishWriteInv | driver/include/AES67_RingBuffer.h:55-58 | publishing the write index keeps the invariant and makes exactly the copied prefix accepted |
| RingProtocol.ConsumerCopyInv | driver/include/AES67_RingBuffer.h:73-79 | the load of any single element, at any moment of the producer, yields the accepted element |
| RingProtocol.FinishReadInv | driver/include/AES67_RingBuffer.h:81-84 | publishing the read index keeps the invariant; the reply shows the accepted elements |
| RingProtocol.NextInv | driver/include/AES67_RingBuffer.h:37-117 | every step of either thread keeps the invariant |
| RingProtocol.ReadsAreAPrefix | driver/include/AES67_RingBuffer.h:37-117 | in every interleaving each Read and Peek returns exactly the accepted elements at its position, and without Skip the values read are a prefix of the values accepted |
| RingProtocol.NoSharedSlot | driver/include/AES67_RingBuffer.h:47-53 | in every reachable state no slot of the producer's copy is a slot of the consumer's copy |
| RingProtocol.WriteCountIsTight | driver/include/AES67_RingBuffer.h:38-41 | a Write settles on all its data or all the room there was when it loaded the read index |
| RingProtocol.ReadCountIsTight | driver/include/AES67_RingBuffer.h:64-67 | a Read settles on its request or all that was published when it loaded the write index |
| RingProtocol.EachStepIsAtomic | driver/include/AES67_RingBuffer.h:37-117 | one load of the read index by a Write, and one finish of a Read, Peek or Skip, act on the queue and answer as one FIFO call; every other step leaves the queue alone |
| RingProtocol.Linearises | driver/include/AES67_RingBuffer.h:37-117 | in every interleaving both threads get the answers of a bounded FIFO that runs one call for each of theirs: a Write as made, a Read, Peek or Skip as if it had asked for the count it got |
| RingProtocol.OverlapIsAtomicIff | driver/include/AES67_RingBuffer.h:38-67 | an overlapping Write and Read return the counts of some atomic order of the two exactly if one of them could be served in full or the ring is empty or full |
| RingProtocol.OverlapMissesBothOrders | driver/include/AES67_RingBuffer.h:38-67 | in a ring of four with two stored, a Write of two overlapping a Read of three returns 1 and 2, which neither order of the two gives |
| RingProgress.ProducerCanMove | driver/include/AES67_RingBuffer.h:37-59 | in every reachable state a thread inside a Write has a step of its own that it can take |
| RingProgress.ConsumerCanMove | driver/include/AES67_RingBuffer.h:63-117 | the same for a thread inside a Read, Peek or Skip |
| RingProgress.CallsAreShort | driver/include/AES67_RingBuffer.h:9-117 | whatever the other thread does, a call finishes within two steps of its own more than the elements it was given or asked for |
| Rtp.L24RoundTrip | engine/include/RTPTypes.h:40-57 | encoding then decoding rounds every 32-bit sample down to a multiple of 256 |
| Rtp.L24BytesRoundTrip | engine/include/RTPTypes.h:40-57 | decoding then encoding gives every three bytes back |
| Rtp.L24IsBigEndian | engine/include/RTPTypes.h:51-57 | the three bytes, most significant first, are the upper 24 bits of the sample |
| Rtp.Int32ToL24 | engine/include/RTPTypes.h:51-57 | writes the three bytes of the sample at its place and no other byte |
| Rtp.SetVersionOnly | engine/include/RTPTypes.h:18-28 | setting the version sets it, whatever the byte held, and keeps the other fields |
| Rtp.SetFlagsOnly | engine/include/RTPTypes.h:19-29 | setting padding, extension or marker sets that flag and keeps the other fields |
| Rtp.SetNumbersOnly | engine/include/RTPTypes.h:21-30 | setting the CSRC count or payload type sets it and keeps the other fields |
| Rtp.ReadVersion | engine/include/RTPTypes.h:25-25 | the shift-and-mask getter reads the top two bits of every byte as a number |
| Rtp.ReadCSRCCount | engine/include/RTPTypes.h:28-28 | the mask getter reads the low four bits of every byte as a number |
| Rtp.ReadPayloadType | engine/include/RTPTypes.h:30-30 | the mask getter reads the low seven bits of every byte as a number |
| Rtp.RTPPacketizer.SetFlags | engine/src/RTPPacketizer.cpp:35-40 | on a zeroed header the six setters leave 0x80 and 0x60: version 2, no flag, no CSRC, payload type 96 |
| Rtp.HeaderFields | engine/src/RTPPacketizer.cpp:33-43 | every header written reads back as version 2, no padding, extension, marker or CSRC, type 96, and its sequence, timestamp and SSRC |
| Rtp.HeaderBytes | engine/src/RTPPacketizer.cpp:33-43 | every header is 0x80, 0x60, and sequence, timestamp and SSRC with their most significant bytes first |
| Rtp.PayloadAt | engine/src/RTPPacketizer.cpp:45-54 | bytes 3 k to 3 k + 2 of a payload are the upper 24 bits of sample k, most significant first |
| Rtp.RTPPacketizer.constructor | engine/src/RTPPacketizer.cpp:14-20 | numbering starts at 0 |
| Rtp.RTPPacketizer.CreatePacket | engine/src/RTPPacketizer.cpp:22-61 | header and payload of exactly the given frames under the current numbers, which then advance by 1 and by the frame count with wrap; nothing changes on empty input |
| Rtp.RTPPacketizer.EncodePayload | engine/src/RTPPacketizer.cpp:45-54 | the two loops fill the payload with all samples in order and leave the header alone |
| Rtp.RTPDepacketizer.ParsePacket | engine/src/RTPPacketizer.cpp:76-137 | result, decoded samples and new state for every byte string, including all rejections; the rest of the output buffer is unchanged |
| Rtp.AcceptedIff | engine/src/RTPPacketizer.cpp:77-109 | for every byte string: nothing changes and nothing is decoded unless it has 12 bytes, version 2, payload type 96, and a sequence number less than 2^15 ahead of the last; otherwise its numbers are recorded and the packets skipped are added to the loss counter |
| Rtp.DecodedIff | engine/src/RTPPacketizer.cpp:76-137 | a byte string decodes to k frames exactly if it is accepted and 3 * channels * k bytes follow the 12 header bytes and 4 for each contributing source |
| Rtp.DecodeAt | engine/src/RTPPacketizer.cpp:123-134 | sample k of a payload is the 24-bit number at its place, taken as signed, times 256 |
| Rtp.RTPDepacketizer.CheckSequence | engine/src/RTPPacketizer.cpp:96-109 | accepts exactly what is not behind the last number, adds the gap to the loss counter modulo 2^32, and changes nothing on rejection |
| Rtp.RTPDepacketizer.ParsePayload | engine/src/RTPPacketizer.cpp:111-136 | zero frames unless the payload is a non-empty whole number of frames; otherwise exactly those frames |
| Rtp.RTPDepacketizer.DecodePayload | engine/src/RTPPacketizer.cpp:126-134 | the two loops decode every sample in order and touch no other sample |
| Rtp.PacketRoundTrip | engine/src/RTPPacketizer.cpp:22-137 | decoding any created packet that passes the sequence check gives its frames back, low 8 bits cleared |
| Rtp.FramesFit | engine/src/RTPPacketizer.cpp:117-134 | the frames counted never reach past the packet |
| Rtp.DatagramFits | engine/src/NetworkEngine.cpp:289-306 | a datagram of at most 1500 bytes decodes to at most 62 frames and so fits the 512-sample buffer |
| RtpRuns.SendAll | engine/src/RTPPacketizer.cpp:33-58 | packet n of a run carries sequence s0 + n modulo 2^16 and timestamp t0 + earlier frames modulo 2^32 |
| RtpRuns.InOrderRoundTrip | engine/src/RTPPacketizer.cpp:22-137 | a depacketizer fed a run in order returns every block, low 8 bits cleared, and reports zero loss |
| RtpRuns.NextInOrder | engine/src/RTPPacketizer.cpp:96-109 | the packet after the last one, also across the 16-bit wrap, is decoded without loss |
| RtpRuns.DeltaIsTrue | engine/src/RTPPacketizer.cpp:98-98 | for numbers within 2^15 the 16-bit signed difference is the true one |
| RtpRuns.LossConservation | engine/src/RTPPacketizer.cpp:96-109 | for any arrivals near the last accepted number, the span received equals distinct packets plus the loss counter modulo 2^32, and packets pass in order |
| RtpRuns.PassesIffNotBehind | engine/src/RTPPacketizer.cpp:101-104 | a packet passes exactly if it is not behind the last one; a repeat of the last one passes |
| Jitter.JitterBuffer.constructor | engine/src/JitterBuffer.cpp:10-18 | an empty queue with the target in the middle of the range |
| Jitter.JitterBuffer.Insert | engine/src/JitterBuffer.cpp:24-50 | a full queue counts an overrun and drops the packet; otherwise the packet, with the 32-bit product of frames and 8 as its sample count, goes to its place and the depth is adjusted |
| Jitter.JitterBuffer.FindPlace | engine/src/JitterBuffer.cpp:41-44 | the scan stops before the first packet that is not older |
| Jitter.Position | engine/src/JitterBuffer.cpp:40-44 | everything before the place is older, and the packet at it is not |
| Jitter.JitterBuffer.AdjustDepth | engine/src/JitterBuffer.cpp:96-119 | the new target and underrun counter, through all three adjustments in order; what they are is DepthRules |
| Jitter.JitterBuffer.GetNextPacket | engine/src/JitterBuffer.cpp:52-73 | an underrun on an empty queue; the front packet once its playout time has come; otherwise nothing; when that is, in nanoseconds, is PlayedIff |
| Jitter.JitterBuffer.ReleasePacket | engine/src/JitterBuffer.cpp:75-84 | removes the packet exactly if it is the front of the queue |
| Jitter.JitterBuffer.Reset | engine/src/JitterBuffer.cpp:86-94 | empties queue and counters and keeps the target |
| Jitter.InsertKeepsSorted | engine/src/JitterBuffer.cpp:40-46 | inserting at the scanned place keeps a sorted queue sorted |
| Jitter.PushesFrontIff | engine/src/JitterBuffer.cpp:40-46 | a packet that arrives while the front is out for playout pushes it off the front exactly if there is room and it is not newer |
| Jitter.PlayedIff | engine/src/JitterBuffer.cpp:52-73 | the front of a queue is handed out exactly if now >= arrival + target * d, for any d with d * rate <= frames * 10^9 < (d + 1) * rate, modulo 2^64 |
| Jitter.DurationIs | engine/src/JitterBuffer.cpp:63-63 | there is exactly one such d, the duration the code computes |
| Jitter.DepthRules | engine/src/JitterBuffer.cpp:96-119 | a queued arrival raises the target by one if at least max - 1 packets are then queued and by one more for starved polls, up to max; the counter is cleared if the target was below max for them; the target falls by one if over target + 2 packets are queued with the counter at 0 |
| Jitter.RunInvariant | engine/src/JitterBuffer.cpp:24-84 | on every run the queue is sorted and within its maximum, the target within its range, accepted packets are exactly those queued or released, and arrivals are queued, released or overruns |
| Jitter.DeliveryIsLeastAndNotEarly | engine/src/JitterBuffer.cpp:52-70 | every packet delivered on a run has the least queued timestamp, and the clock shows its arrival plus the current target times its duration, which is at least the minimum times it |
| Jitter.PlayoutTimeBounds | engine/src/JitterBuffer.cpp:61-65 | without overflow the playout time is arrival + target * d for the number d of whole nanoseconds the packet lasts, so between min * d and max * d after arrival |
| Jitter.Drain | engine/src/JitterBuffer.cpp:52-84 | once arrival + max * d has passed for all packets, d the nanoseconds each lasts, n polls deliver exactly the first n packets in order, so a queue empties in exactly its length |
| Jitter.UnderrunRaisesTarget | engine/src/JitterBuffer.cpp:52-56 | after a poll that found the queue empty, the next arrival raises the target by one, up to the maximum, exactly unless the target is 0 and the maximum 2 |
| Jitter.RaisedOnce | engine/src/JitterBuffer.cpp:107-111 | on every run, an arrival that is queued and finds the target below the maximum - after the raise for a nearly full queue, if there is one - clears the counter: until another poll starves, an arrival raises the target only if it leaves at least max - 1 packets queued |
| Jitter.RaisesAreEarned | engine/src/JitterBuffer.cpp:96-119 | on every run the target is raised by no more, in all, than the starved polls plus the arrivals that leave at least max - 1 packets queued |
| Jitter.ShrinkNeedsRoom | engine/src/JitterBuffer.cpp:96-119 | a net decrease of the target needs a target at least 5 below the maximum |
| Jitter.NeverShrinksIffNarrow | engine/src/JitterBuffer.cpp:96-119 | no run ever shrinks the target if and only if max - min is at most 8 |
| Jitter.WideShrinks | engine/src/JitterBuffer.cpp:113-118 | for a wider range, a burst of arrivals from the start does shrink it |
| Transport.ReceiveFits | engine/src/NetworkEngine.cpp:303-316 | every queued packet keeps at most 62 frames and 8 samples a frame |
| Transport.ReceiveStream.constructor | engine/src/NetworkEngine.cpp:24-48 | the engine's configuration: 3 to 6 packets at 48 kHz, 8 channels, an empty ring of the least power of two from 384000 on |
| Transport.ReceiveStream.ReceiveDatagram | engine/src/NetworkEngine.cpp:292-317 | one pass of the receive loop parses into the local buffer without overflow and queues what was decoded under its RTP timestamp |
| Transport.ReceiveStream.PlayoutIteration | engine/src/NetworkEngine.cpp:333-373 | one pass of the playout loop takes at most one packet, releases it, and appends its samples or six frames of silence, clipped, to the ring |
| Transport.AlignedIffItFits | engine/src/NetworkEngine.cpp:348-352 | a ring of whole frames stays one exactly if the block fits |
| Transport.WholeIffItFits | engine/src/NetworkEngine.cpp:289-306 | a sent block that passes the check is decoded to its first 62 frames, and comes whole exactly if it has no more, since the receive buffer holds 1500 bytes |
| Transport.DatagramIsPacket | engine/src/NetworkEngine.cpp:289-293 | what the receive buffer keeps of a sent packet is the packet of its first 62 frames |
| Transport.ReceiveSent | engine/src/NetworkEngine.cpp:289-316 | receiving a sent packet, cut to the buffer, tracks and queues exactly the first 62 frames of its block if it passes the check, and changes nothing otherwise |
| Transport.DeliveryQueues | engine/src/NetworkEngine.cpp:302-316 | a delivery that passes the check and finds room queues exactly one packet: what arrives of its block, with the time of its arrival |
| Transport.SilenceIsZeros | engine/src/NetworkEngine.cpp:366-369 | silence is 48 zero samples |
| Transport.PlaceIffNoWrap | engine/src/JitterBuffer.cpp:40-46 | by its wrapped timestamp, a packet at least as new as all queued ones goes behind exactly the older ones if no wrap lies between the oldest and it, and else in front of all |
| Transport.PlaceOfNewest | engine/src/JitterBuffer.cpp:40-46 | the same for packets of one sender, by their numbers |
| Transport.PushesFrontIffRepeat | engine/src/JitterBuffer.cpp:40-46 | on near arrivals without a wrap, the packets that push the front off the front are exactly its repeats |
| Transport.DeliverInv | engine/src/NetworkEngine.cpp:292-317 | any near delivery that joins no queue from before a wrap keeps played and queued packets in sending order |
| Transport.TickInv | engine/src/NetworkEngine.cpp:333-373 | any playout iteration keeps them in sending order |
| Transport.PlayedInOrder | engine/src/NetworkEngine.cpp:292-373 | on runs of any length, whatever the network loses, repeats and reorders, the packets played are sent blocks in sending order, repeats adjacent, cut to the 62 frames that fit the receive buffer, low 8 bits cleared, if arrivals are near and no packet joins a queue whose oldest packet was sent before a timestamp wrap |
| Transport.PerfectNetworkPlaysAll | engine/src/NetworkEngine.cpp:292-373 | if packets arrive in sending order and none finds the queue full or its oldest packet from before a timestamp wrap, played and queued packets together are exactly all that were delivered, each once and up to 62 frames, and the loss counter is zero |
| Transport.WrapBreaksOrder | engine/src/JitterBuffer.cpp:42-46 | a packet that joins a queue whose oldest packet was sent before a wrap is queued before older ones |
| Transport.OrderKeptIffNoWrap | engine/src/JitterBuffer.cpp:42-44 | on runs with near arrivals, played and queued packets are in sending order all the time exactly if no packet joins a queue whose oldest packet was sent before a timestamp wrap |
| Transport.WrapReverses | engine/src/JitterBuffer.cpp:42-46 | two packets with the timestamp wrap between them that arrive in order and meet in the queue are queued in the wrong order |
| AudioPath.TickWrites | engine/src/NetworkEngine.cpp:343-369 | what an iteration writes is the whole sound of the block it took, or silence |
| AudioPath.SoundIsWholeIff | engine/src/NetworkEngine.cpp:289-306 | what is heard of a sent block is the beginning of it, and the whole of it exactly if it has at most 62 frames |
| AudioPath.RunExists | engine/src/NetworkEngine.cpp:292-373 | any deliveries, playout iterations and reads make a run |
| AudioPath.DriverHearsTheSender | engine/src/NetworkEngine.cpp:292-373 | end to end, the samples the driver has read are the beginning of sent blocks (their first 62 frames) in sending order and silence, each cut only where the ring was full; a read stands for the count it got |
| AudioPath.ThreadsHearTheSender | engine/src/NetworkEngine.cpp:333-373 | the same for the values the driver's thread reads from the real ring, in every interleaving of the two threads element by element |
| AudioPath.LatePollsDrain | engine/src/NetworkEngine.cpp:333-373 | as many playout iterations as packets are queued, each late enough, empty the jitter buffer |
| AudioPath.EverythingIsHeard | engine/src/NetworkEngine.cpp:292-373 | if packets arrive in sending order, find the queue neither full nor from before a wrap, and every block finds room in the ring, then after a drain and a last read the driver has read the first 62 frames of every delivered block - all, if it has no more - uncut, once and in order, with only whole stretches of silence between |
| PtpMaster.NextGridIsLeast | engine/src/PTPClient.cpp:404-406 | the catch-up result is after now and no earlier grid point is |
| PtpMaster.MasterSendLoop.CatchUp | engine/src/PTPClient.cpp:404-406 | the loop ends at the least grid point after now |
| PtpMaster.MasterSendLoop.Iterate | engine/src/PTPClient.cpp:399-415 | what one iteration sends, with sequence ids that count the messages modulo 2^16, and the next due times |
| PtpMaster.NextTick | engine/src/PTPClient.cpp:399-415 | from any polled slot, a later poll sends exactly for the slots not yet polled and moves both grids past now |
| PtpMaster.OnePerPolledSlot | engine/src/PTPClient.cpp:389-419 | on every run of a non-decreasing clock: one Sync per polled 125 ms slot, one Announce per polled 1 s slot, and #Announce <= #Sync <= 8 * #Announce |
| PtpMaster.SendsIffSlotIsNew | engine/src/PTPClient.cpp:401-415 | an iteration sends exactly if its slot is new, and never an Announce without a Sync |
| PtpWire.NanosecondsRoundTrip | engine/include/PTPTypes.h:29-38 | every 64-bit nanosecond count survives the timestamp structure |
| PtpWire.TimestampRoundTripIff | engine/include/PTPTypes.h:25-38 | a timestamp survives the other way exactly if it is normalised and fits 64 bits |
| PtpWire.TimestampOnTheWire | engine/src/PTPClient.cpp:553-568 | the 10 wire bytes of every 64-bit time read back as that time and as its timestamp structure |
| PtpWire.PTPClient.BuildHeader | engine/src/PTPClient.cpp:527-551 | the 34 header bytes, zeros up to the message length, nothing beyond it; what each byte says is HeaderBytes |
| PtpWire.PTPClient.HeaderBytes | engine/src/PTPClient.cpp:527-551 | type in byte 0, version 2 in byte 1, length in 2..4, domain in byte 4, zeros from 5 to 20, identity in 20..28, port 1 in 28..30, sequence id in 30..32, control field and signed interval in 32 and 33 |
| PtpWire.PTPClient.WriteTimestamp | engine/src/PTPClient.cpp:553-568 | writes the ten bytes of seconds and nanoseconds and no other byte |
| PtpWire.PTPClient.SyncMessage | engine/src/PTPClient.cpp:468-471 | a 44-byte message whose 34 header bytes are those of a Sync, each given as a number - version 2, length 44, no flags, port 1, interval -3 - then the timestamp |
| PtpWire.PTPClient.AnnounceMessage | engine/src/PTPClient.cpp:479-501 | the same for a 64-byte Announce, with control field 5, and clock quality and the grandmaster's identity behind the timestamp |
| PtpWire.PTPClient.DelayRespMessage | engine/src/PTPClient.cpp:509-519 | the same for a 54-byte Delay_Resp, with control field 3 and interval 127, and the requester's identity and port behind the timestamp |
| PtpWire.PTPClient.AnswerEvent | engine/src/PTPClient.cpp:443-464 | an answer goes out exactly for a Delay_Req of at least 44 bytes; all its bytes are given: the requester's identity, port and sequence id are copied, the rest is the header and the receive time |
| PtpClock.PTPClient.ServoUpdate | engine/src/PTPClient.cpp:305-327 | the new slope, anchor, integrator and lock; the callback fires exactly when the lock changes |
| PtpClock.UpdateIsPI | engine/src/PTPClient.cpp:305-323 | the integrator adds the offset and stops at 10^9 either way; slope - 1 is (0.001 * offset + 0.0001 * integrator) / 10^9; locked exactly within 500 ns |
| PtpClock.ServoIsPI | engine/src/PTPClient.cpp:305-323 | on every run that does not reach the stop, slope - 1 is (0.001 * the last offset + 0.0001 * the sum of all) / 10^9 |
| PtpClock.ServoDrift | engine/src/PTPClient.cpp:305-317 | for offsets of at most L ns, n updates move the integrator by at most n * L and never past 10^9, and the slope is off 1 by at most (0.001 * L + 0.0001 * that) / 10^9 |
| PtpClock.ServoStaysBounded | engine/src/PTPClient.cpp:305-317 | for offsets of at most 10^9 ns no run moves the integrator past 10^9 or the slope out of 0.9989 to 1.0011 |
| PtpClock.MapsToPTP | engine/src/PTPClient.cpp:261-269 | x ns behind the host anchor are slope * x ns, without the fraction, behind the PTP anchor |
| PtpClock.MapsToHost | engine/src/PTPClient.cpp:271-279 | p ns behind the PTP anchor are p / slope ns, without the fraction, behind the host anchor |
| PtpClock.HostRoundTrip | engine/src/PTPClient.cpp:261-279 | host to PTP and back errs by at most 2 ns, never away from the anchor, whenever the scaled distance fits the 64-bit cast |
| PtpClock.MappingIsMonotone | engine/src/PTPClient.cpp:261-269 | between updates a later host time never maps to an earlier PTP time, whenever both scaled distances fit the 64-bit cast |
| PtpClock.UpdateRestartsMapping | engine/src/PTPClient.cpp:317-319 | an update moves PTP time back by exactly the scaled distance from the old host anchor; PTP time is continuous exactly if it comes at that anchor, or one nanosecond from it while the slope is below 1 |
| PtpClock.UpdateThrowsBack | engine/src/PTPClient.cpp:317-319 | a clock of slope 1 updated one second after its anchor falls back by one second |
| Text.DecimalRoundTrip | engine/src/SDPParser.cpp:53-68 | a printed number reads back as itself |
| Text.IndexOf | engine/src/SDPParser.cpp:16-16 | the first place of the character, or the length if there is none |
| Sdp.RunEnd | engine/src/SDPParser.cpp:40-64 | the longest run of characters the pattern allows |
| Sdp.SearchSkips | engine/src/SDPParser.cpp:42-66 | a search passes over every place that has no match, so it finds the first one |
| Sdp.Parse | engine/src/SDPParser.cpp:10-85 | the loop over lines gives the session, or the exception, of reading the text line by line |
| Sdp.Generate | engine/src/SDPParser.cpp:87-115 | the printed text is the session's lines in order, each with CR LF, optional ones exactly when not empty |
| Sdp.PrintedLines | engine/src/SDPParser.cpp:90-102 | the lines up to the packet time, character by character |
| Sdp.PrintedClocks | engine/src/SDPParser.cpp:104-112 | the clock lines, each exactly if its text is not empty, and the last line |
| Sdp.ParseLines | engine/src/SDPParser.cpp:16-27 | a text of newline-free lines parses as its lines do, one after another |
| Sdp.LineEndsAgree | engine/src/SDPParser.cpp:16-24 | a newline-free line that does not end in CR is read whole, and the same, whether LF, CR LF or the end of the text ends it |
| Sdp.LineEndsDoNotMatter | engine/src/SDPParser.cpp:16-24 | texts of the same newline-free lines, none ending in CR, parse the same, whichever of them are ended by LF and whichever by CR LF |
| Sdp.OtherLine | engine/src/SDPParser.cpp:22-34 | a line that is too short, has no = behind its first letter, or is of another kind than o, s, c, m and a changes nothing |
| Sdp.AddressFoundIff | engine/src/SDPParser.cpp:38-46 | the connection pattern finds the printed address exactly if it is digits and dots |
| Sdp.MediaLine | engine/src/SDPParser.cpp:48-57 | a printed media line yields its port and payload type, for all values |
| Sdp.MediaNumbers | engine/src/SDPParser.cpp:48-57 | for any two runs of digits: numbers above 2147483647 throw, others are cut to 16 and 8 bits |
| Sdp.RtpmapLine | engine/src/SDPParser.cpp:59-69 | a printed rtpmap yields its rate and channels behind any payload type |
| Sdp.RtpmapNumbers | engine/src/SDPParser.cpp:59-69 | for any two runs of digits: numbers from 2^64 on throw, others are cut to 32 and 8 bits |
| Sdp.NothingFound | engine/src/SDPParser.cpp:42-66 | a connection, media or rtpmap line whose value lacks the first letter of its pattern sets nothing by it and does not throw |
| Sdp.PtimeLine | engine/src/SDPParser.cpp:70-73 | a ptime attribute stores its text if that starts with a number and throws otherwise |
| Sdp.NumberOrNot | engine/src/SDPParser.cpp:72-72 | a text starts with a number if it does with a digit, at once or behind a point or a sign, after any white space; empty texts and other letters than those of infinity and not-a-number are none |
| Sdp.RefclkLine | engine/src/SDPParser.cpp:74-75 | a ts-refclk attribute yields its text |
| Sdp.MediaclkLine | engine/src/SDPParser.cpp:76-78 | a mediaclk attribute yields its text |
| Sdp.OtherAttributeLine | engine/src/SDPParser.cpp:59-80 | recvonly and sync-time change nothing |
| Sdp.GenerateParse | engine/src/SDPParser.cpp:10-115 | parsing what was printed gives every field back, the rtpmap behind its payload type, the packet time as its printed text, and the address exactly if it is digits and dots |
| Sap.GenerateSDP | engine/src/SAPAnnouncer.cpp:122-150 | the description text is the thirteen lines of the source with the stream's own name, address, port, rate and channels in place, each followed by CR LF |
| Sap.PtimeIsLostIff | engine/src/SAPAnnouncer.cpp:139-142 | the announced packet time reads 0.000 exactly below half a millisecond, so for the engine's 250 microseconds |
| Sap.PtimeIsRounded | engine/src/SAPAnnouncer.cpp:139-142 | the packet time is printed with three digits behind the point, at most half a thousandth of a second away from it |
| Sap.BuildPacket | engine/src/SAPAnnouncer.cpp:86-108 | header, zero origin and description text, byte for byte |
| Sap.WriteHeader | engine/src/SAPAnnouncer.cpp:92-105 | the eight header bytes: version 1, announcement, no authentication, stream index as id |
| Sap.HeaderReads | engine/src/SAPAnnouncer.cpp:92-105 | byte 0 is 0x20, byte 1 is 0, bytes 2 and 3 are the low 16 bits of the stream index, most significant first, the rest is 0 |
| Sap.Discovery.HandlePacket | engine/src/NetworkEngine.cpp:471-509 | stores a session exactly for a version-1 announcement with a parsable text behind its header; otherwise the directory is unchanged |
| Sap.HeardIff | engine/src/NetworkEngine.cpp:471-492 | text is heard in exactly the buffers with 8 bytes, version 1, no deletion bit, and something behind 8 + 4 * byte 1 |
| Sap.Discovery.HandleDescription | engine/src/NetworkEngine.cpp:495-509 | stores under the session name, or the origin if that is empty; a throwing parse changes nothing |
| Sap.DirectoryHoldsLatest | engine/src/NetworkEngine.cpp:464-523 | whatever buffers arrive, the directory holds under each name the latest session heard under that name, and no other name |
| Sap.DescriptionParses | engine/src/SAPAnnouncer.cpp:122-150 | every announced text parses to a session with the stream's own origin, name, address, port, rate, channels and payload type 96 |
| Sap.AnnounceThenDiscover | engine/src/NetworkEngine.cpp:474-523 | announcing then discovering changes the directory under the stream's name, or its origin if that is empty, only; what is stored there has the stream's own address, port, rate and channels and payload type 96 |
| Sap.DirectoryIsComplete | engine/src/NetworkEngine.cpp:464-523 | after announcements in any order and number, the directory holds exactly the announced names, each leading to the address, port, rate and channels of its own stream |
| Sap.ShortIsAnnounceable | engine/src/NetworkEngine.cpp:462-470 | any stream whose name and address together have at most 1700 characters fits the 2048-byte receive buffer |
| Sap.EngineIsDiscovered | engine/src/NetworkEngine.cpp:96-109 | after announcements of the engine's own streams, in any order and number, a listener lists exactly those announced, each with its own address, port 5004, 8 channels at 48 kHz |
| Lifecycle.PTPClient.StartMaster | engine/src/PTPClient.cpp:122-211 | on after every outcome exactly if it was on or everything succeeded; otherwise all sockets are closed again; the callback fires exactly when it is set and the master came up |
| Lifecycle.PTPClient.Stop | engine/src/PTPClient.cpp:213-232 | everything off and closed |
| Lifecycle.NetworkEngine.Start | engine/src/NetworkEngine.cpp:55-112 | running exactly if it was or the PTP master came up |
| Lifecycle.NetworkEngine.Stop | engine/src/NetworkEngine.cpp:114-147 | the engine and the PTP master are both off |
| Lifecycle.Device.constructor | driver/include/AES67_Device.h:97-103 | no clients, seed 1, nothing running, an engine without callbacks |
| Lifecycle.Device.Initialize | driver/src/AES67_Device.cpp:14-44 | replaces and stops the engine and sets the callbacks; device and engine agree afterwards exactly if the device was not running |
| Lifecycle.Device.StartIO | driver/src/AES67_Device.cpp:58-73 | client list, running state, seed and status after the call; engine and PTP master follow the device |
| Lifecycle.Device.StopIO | driver/src/AES67_Device.cpp:75-87 | the client is erased, and everything stops exactly when none is left |
| Lifecycle.Device.FindClient | driver/src/AES67_Device.cpp:76-79 | the first place of the client, or the end |
| Lifecycle.Device.HandlePTPStatusChange | driver/src/AES67_Device.cpp:169-176 | records the lock state and moves the seed exactly when locked |
| Lifecycle.Device.Teardown | driver/src/AES67_Device.cpp:46-56 | stops the engine, replaces it by one without callbacks, and keeps the client list |
| Lifecycle.Drive | driver/src/AES67_Device.cpp:58-87 | a run of calls on a real device has the state and replies of the run on the value; on an initialised one, engine and PTP master are on and locked exactly while some client is active |
| Lifecycle.RunSound | driver/src/AES67_Device.cpp:58-87 | on every run no client is listed twice, the device runs exactly while some client is active, and the seed has moved by two for each start |
| Lifecycle.SeedsIncrease | driver/src/AES67_Device.cpp:163-167 | a later start always shows a larger seed, short of 64-bit wrap |
| Lifecycle.ActiveIffLastStarted | driver/src/AES67_Device.cpp:58-87 | a client is active exactly if its own last call was a successful StartIO |
| Lifecycle.FailsIff | driver/src/AES67_Device.cpp:58-87 | on every run a call fails exactly if it is a StartIO made while no client is active and the PTP master does not come up, and it changes nothing then |
| Lifecycle.LockFlagIsStale | driver/src/AES67_Device.cpp:169-176 | the device's lock flag agrees with the PTP master exactly if the device is running or was never started |
| Lifecycle.LockFlagStaysSet | driver/src/AES67_Device.cpp:75-87 | after one client's start and stop the flag says locked while nothing runs |
| Lifecycle.TornRun | driver/src/AES67_Device.cpp:46-87 | after a teardown every run is sound exactly if no client was active, or some call has since started the engine for an unlisted client or taken the last client off the list |
| Lifecycle.TeardownBlocksIff | driver/src/AES67_Device.cpp:46-63 | after a teardown a StartIO whose PTP master comes up brings the engine up exactly if its client was not active before, and succeeds either way |
| Lifecycle.TornSeed | driver/src/AES67_Device.cpp:46-73 | after a teardown each start moves the seed by one only and the lock flag never changes |

## Left out

- Sockets, multicast joins, sleeps, thread creation and logging: loop bodies are steps whose received bytes, clock readings and start outcomes are inputs.
- RingProtocol.NextInv: an index load or store is one atomic step in a total order; weak memory beyond release/acquire publication is not modelled. Reset, which must not run beside the threads, is in the sequential class only.
- Rtp.RTPPacketizer.CreatePacket: payloads of 2^32 bytes and more, where the 32-bit size computation wraps and the loops write past the vector, are excluded.
- Rtp.RTPDepacketizer.ParsePacket: zero channels, where the C++ code divides by zero, and an output buffer that is too small are excluded; no caller has either.
- Jitter.JitterBuffer.ReleasePacket: the C++ code compares addresses; the model compares packets, and takes a playout iteration as atomic with respect to Insert. An Insert between the two calls that puts its packet in front makes the release do nothing (when that is: PushesFrontIff); one that puts it in the middle may move the front packet, since std::deque then keeps no references.
- Transport.PlayedInOrder: assumes arrivals within 2^15 of the last accepted number, where the 16-bit difference means what it says; what a timestamp wrap does is OrderKeptIffNoWrap.
- Transport.PerfectNetworkPlaysAll: a packet the sender's socket refuses as too long for a datagram is one that never arrives.
- Transport.OrderKeptIffNoWrap: assumes packets less than 2^32 timestamp units after the oldest queued one; further ahead, the wrapped timestamps say nothing.
- Sdp.PtimeLine: the packet time is kept as its text; the floating-point conversion to microseconds, and the exceptions for a number too large or too small for a double, are not modelled.
- Sdp.Generate: the packet time is given as the text that operator<< makes of a double.
- Sap.GenerateSDP: which way the stream library rounds a packet time exactly between two thousandths is an input.
- Sdp.Parse: general regular expressions; the three patterns are hand-written matchers. Numeric fields that no line sets hold indeterminate values, a parameter here.
- Sap.AnnounceThenDiscover: packets longer than the 2048-byte receive buffer are cut by the receiver and not covered.
- PtpClock.HostRoundTrip: doubles are exact reals, so rounding of the slope and of the products is not modelled.
- PtpWire.PTPClient.AnswerEvent: receive errors and the destination address are not modelled; the clock reading is an input.
- The PTP slave's receive loop (it only sets the lock flag) and network interface lookup.
- The transmit loop and the stream transfers of the driver: both pass a frame count where samples are counted, so the transport model starts at CreatePacket.
- SAP deletion: the announcer never sends one, and its flag bit is not the one the listener looks at.
- CoreAudio property tables and dispatch, the command-line tools, the web monitor, metering and the user interface.
- SAPAnnouncer start and stop: the engine ignores its result.
