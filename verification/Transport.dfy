/** The receive side of one stream: datagrams through the depacketizer into the jitter buffer, and from
    there, one playout iteration at a time, into the input ring.  The network between the packetizer and
    here may lose, repeat and reorder packets. */
module Transport {
  import opened Words
  import opened Rtp
  import opened RtpRuns
  import opened Jitter
  import opened RingIndex
  import Fifo
  import RingBuffer

  const CHANNELS := 8
  const DATAGRAM_LIMIT := 1500
  const FRAME_LIMIT := 62  // the whole frames in a datagram
  const SAMPLE_BUFFER := 8 * 64
  const SILENCE_FRAMES := 6

  // ---------------------------------------------------------------------------------------------
  // The two loop bodies as functions
  // ---------------------------------------------------------------------------------------------

  datatype RxSystem = RxSystem(rx: RxState, jb: State)

  /** What becomes of a parsed datagram: its frames, if any, are queued under its RTP timestamp. */
  function Absorb(cfg: Config, jb: State, p: Parsed, now: U64): RxSystem {
    RxSystem(p.st,
      if p.frames > 0 then AfterInsert(cfg, jb, JitterPacket(p.st.lastTimestamp, now, p.frames, p.samples))
      else jb)
  }

  function Receive(cfg: Config, sys: RxSystem, bytes: seq<U8>, now: U64): RxSystem {
    Absorb(cfg, sys.jb, Parse(sys.rx, bytes, CHANNELS), now)
  }

  /** What one playout iteration writes to the ring: the packet it got, or six frames of silence. */
  function PlayoutBlock(packet: Option<JitterPacket>): seq<I32> {
    match packet
    case Some(p) => p.samples
    case None => Fifo.Repeat(0, SILENCE_FRAMES * CHANNELS)
  }

  /** Silence is 48 zero samples. */
  lemma SilenceIsZeros()
    ensures |PlayoutBlock(None)| == 48 && forall i :: 0 <= i < 48 ==> PlayoutBlock(None)[i] == 0
  {
  }

  /** Every queued packet fits the playout buffer. */
  ghost predicate QueueFits(queue: seq<JitterPacket>) {
    forall i :: 0 <= i < |queue| ==> queue[i].frameCount <= 62 && |queue[i].samples| == 8 * queue[i].frameCount
  }

  lemma ReceiveFits(cfg: Config, sys: RxSystem, bytes: seq<U8>, now: U64)
    requires QueueFits(sys.jb.queue) && |bytes| <= DATAGRAM_LIMIT
    ensures QueueFits(Receive(cfg, sys, bytes, now).jb.queue)
  {
    DatagramFits(sys.rx, bytes);
  }

  /** Eight c less one, less eight n, is no multiple of eight. */
  lemma RoomIsOdd(c: nat, n: nat, b: nat)
    requires 8 * n <= 8 * c - 1
    ensures (8 * n + Min(8 * b, 8 * c - 1 - 8 * n)) % 8 == 0 <==> 8 * n + 8 * b <= 8 * c - 1
  {
    if 8 * n + 8 * b <= 8 * c - 1 {
      DivModUnique(8 * n + 8 * b, 8, n + b, 0);
    } else {
      DivModUnique(8 * c - 1, 8, c - 1, 7);
    }
  }

  /** A ring of 8-channel frames stays a whole number of frames exactly if the block fits: its usable size,
      a power of two less one, is never a whole number of frames, so a clipped write always breaks one. */
  lemma AlignedIffItFits<T>(q: seq<T>, k: nat, zero: T, block: seq<T>)
    requires k >= 3 && |q| <= Pow2(k) - 1 && |q| % CHANNELS == 0 && |block| % CHANNELS == 0
    ensures |Fifo.Step(q, Pow2(k) - 1, zero, Fifo.Write(block)).0| % CHANNELS == 0 <==>
      |q| + |block| <= Pow2(k) - 1
  {
    assert Pow2(k) == 2 * Pow2(k - 1) && Pow2(k - 1) == 2 * Pow2(k - 2);
    RoomIsOdd(Pow2(k - 3), |q| / CHANNELS, |block| / CHANNELS);
  }

  // ---------------------------------------------------------------------------------------------
  // The two loop bodies as methods on the real objects
  // ---------------------------------------------------------------------------------------------

  class ReceiveStream {
    const depacketizer: RTPDepacketizer
    const jitterBuffer: JitterBuffer
    const ring: RingBuffer.RingBuffer<I32>

    ghost predicate Valid()
      reads this, depacketizer, jitterBuffer, ring
    {
      && depacketizer.channels == CHANNELS
      && jitterBuffer.sampleRate == 48000
      && ring.Valid()
      && QueueFits(jitterBuffer.queue)
    }

    ghost function Abs(): RxSystem
      reads depacketizer, jitterBuffer
    {
      RxSystem(depacketizer.State(), jitterBuffer.Abs())
    }

    /** The engine's configuration: 3 to 6 packets at 48 kHz, one second of 8 channels in the ring. */
    constructor ()
      ensures Valid() && fresh(depacketizer) && fresh(jitterBuffer) && fresh(ring) && fresh(ring.buffer)
      ensures Abs() == RxSystem(RX_INITIAL, Initial(jitterBuffer.Cfg()))
      ensures jitterBuffer.Cfg() == Config(3, 6, 48000)
      ensures ring.Contents() == [] && ring.zero == 0
      ensures IsLeastPowerOfTwo(384_000, ring.capacity, ring.log)
    {
      depacketizer := new RTPDepacketizer(CHANNELS);
      jitterBuffer := new JitterBuffer(3, 3 * 2, 48000);
      Pow2At64();
      ring := new RingBuffer.RingBuffer<I32>(48000 * 8, 0);
    }

    /** One pass of the receive loop over a received datagram. */
    method ReceiveDatagram(packetBuf: array<U8>, bytes: nat, arrivalTime: U64)
      requires Valid() && 0 < bytes <= packetBuf.Length && bytes <= DATAGRAM_LIMIT
      modifies depacketizer, jitterBuffer
      ensures Valid()
      ensures Abs() == Receive(jitterBuffer.Cfg(), old(Abs()), packetBuf[..bytes], arrivalTime)
    {
      var sampleBuf := new I32[SAMPLE_BUFFER](_ => 0);
      DatagramFits(depacketizer.State(), packetBuf[..bytes]);
      ReceiveFits(jitterBuffer.Cfg(), Abs(), packetBuf[..bytes], arrivalTime);
      var frames := depacketizer.ParsePacket(packetBuf, bytes, sampleBuf);
      SmallSampleCount(frames);
      if frames > 0 {
        jitterBuffer.Insert(depacketizer.lastTimestamp, arrivalTime, sampleBuf, frames);
      }
    }

    /** Copying a packet's samples and writing them to the ring. */
    method PlayPacket(playoutBuf: array<I32>, packet: JitterPacket, sampleCount: nat)
      requires ring.Valid() && playoutBuf != ring.buffer
      requires sampleCount == |packet.samples| <= playoutBuf.Length
      modifies playoutBuf, ring, ring.buffer
      ensures ring.Valid()
      ensures ring.Contents() ==
        Fifo.Step(old(ring.Contents()), ring.capacity - 1, ring.zero, Fifo.Write(packet.samples)).0
    {
      forall i | 0 <= i < sampleCount {
        playoutBuf[i] := packet.samples[i];
      }
      assert playoutBuf[..sampleCount] == packet.samples;
      var written := ring.Write(playoutBuf, sampleCount);
    }

    /** One pass of the playout loop, not interrupted by the receive loop.  A full ring clips the block. */
    method PlayoutIteration(ptpTime: U64, systemTime: U64) returns (packet: Option<JitterPacket>)
      requires Valid()
      modifies jitterBuffer, ring, ring.buffer
      ensures Valid()
      ensures (jitterBuffer.Abs(), packet) ==
        Poll(jitterBuffer.Cfg(), old(jitterBuffer.Abs()), if ptpTime == 0 then systemTime else ptpTime)
      ensures ring.Contents() ==
        Fifo.Step(old(ring.Contents()), ring.capacity - 1, ring.zero, Fifo.Write(PlayoutBlock(packet))).0
    {
      var playoutBuf := new I32[SAMPLE_BUFFER](_ => 0);
      var ptpTimeNs := if ptpTime == 0 then systemTime else ptpTime;
      packet := jitterBuffer.GetNextPacket(ptpTimeNs);
      if packet.Some? {
        var sampleCount := packet.value.frameCount * 8;
        PlayPacket(playoutBuf, packet.value, sampleCount);
        jitterBuffer.ReleasePacket(packet);
      } else {
        var silenceSamples := SILENCE_FRAMES * 8;
        assert playoutBuf[..silenceSamples] == PlayoutBlock(None);
        var written := ring.Write(playoutBuf, silenceSamples);
      }
    }
  }

  // ---------------------------------------------------------------------------------------------
  // One sender, an unreliable network, one receiver
  // ---------------------------------------------------------------------------------------------

  /** A packetizer's run: its numbering starts at s0 and t0. */
  datatype Sender = Sender(ssrc: U32, s0: U16, t0: U32, blocks: seq<Block>)

  /** The timestamp of packet n, counted without wrapping, and as it is sent. */
  function TimestampOf(snd: Sender, n: nat): nat
    requires n <= |snd.blocks|
  {
    snd.t0 + FramesBefore(snd.blocks, n)
  }

  function StampOf(snd: Sender, n: nat): U32
    requires n <= |snd.blocks|
  {
    TimestampOf(snd, n) % TWO32
  }

  /** Whole frames in every block. */
  ghost predicate GoodSender(snd: Sender) {
    AllSendable(snd.blocks, CHANNELS)
  }

  function SentPacket(snd: Sender, n: nat): seq<U8>
    requires n < |snd.blocks|
  {
    PacketAt(snd.ssrc, snd.s0, snd.t0, snd.blocks, n)
  }

  /** What recv puts into the 1500-byte buffer: a longer packet is cut. */
  function Datagram(packet: seq<U8>): seq<U8> {
    packet[..Min(|packet|, DATAGRAM_LIMIT)]
  }

  /** The part of a block that arrives: its first 62 frames. */
  function Fitting(block: Block): Block {
    if block.frames <= FRAME_LIMIT || |block.samples| < CHANNELS * FRAME_LIMIT then block
    else Block(FRAME_LIMIT, block.samples[..CHANNELS * FRAME_LIMIT])
  }

  /** The network delivers packet n, or the playout loop runs.  Any choice of deliveries is possible:
      numbers left out are lost, numbers repeated are duplicates, and the order is free. */
  datatype NetEvent = Deliver(n: nat, now: U64) | Tick(now: U64)

  /** The receiver, what it played, and three history variables: the numbers of the queued and of the
      played packets, and the highest number that passed the sequence check (-1 for none). */
  datatype NetLog = NetLog(sys: RxSystem, played: seq<JitterPacket>,
                           queueTags: seq<nat>, playedTags: seq<nat>, last: int)

  function TagAt(tags: seq<nat>, at: nat, n: nat): seq<nat> {
    var k := Min(at, |tags|);
    tags[..k] + [n] + tags[k..]
  }

  function NetStep(cfg: Config, snd: Sender, l: NetLog, e: NetEvent): NetLog
    requires cfg.sampleRate > 0
    requires e.Deliver? ==> e.n < |snd.blocks|
  {
    match e
    case Tick(now) =>
      var (jb, p) := Poll(cfg, l.sys.jb, now);
      var l' := l.(sys := l.sys.(jb := jb));
      var k := Min(1, |l.queueTags|);
      if p.None? then l'
      else l'.(played := l.played + [p.value],
               queueTags := l.queueTags[k..], playedTags := l.playedTags + l.queueTags[..k])
    case Deliver(n, now) =>
      var sys := Receive(cfg, l.sys, Datagram(SentPacket(snd, n)), now);
      if !PassesCheck(l.sys.rx, (snd.s0 + n) % TWO16) then l.(sys := sys)
      else if |l.sys.jb.queue| >= cfg.maxPackets then l.(sys := sys, last := n)
      else
        var at := Position(l.sys.jb.queue, StampOf(snd, n));
        l.(sys := sys, last := n, queueTags := TagAt(l.queueTags, at, n))
  }

  function NetStart(cfg: Config): NetLog {
    NetLog(RxSystem(RX_INITIAL, Initial(cfg)), [], [], [], -1)
  }

  /** Only sent packets are delivered. */
  predicate Exists(snd: Sender, e: NetEvent) {
    e.Deliver? ==> e.n < |snd.blocks|
  }

  predicate AllExist(snd: Sender, events: seq<NetEvent>) {
    forall i {:trigger Exists(snd, events[i])} :: 0 <= i < |events| ==> Exists(snd, events[i])
  }

  function NetRun(cfg: Config, snd: Sender, events: seq<NetEvent>, k: nat): NetLog
    requires cfg.sampleRate > 0 && k <= |events| && AllExist(snd, events)
  {
    if k == 0 then NetStart(cfg)
    else
      assert Exists(snd, events[k - 1]);
      NetStep(cfg, snd, NetRun(cfg, snd, events, k - 1), events[k - 1])
  }

  /** A delivery is at most half the sequence space away from the last packet that passed. */
  ghost predicate NearLastPassed(l: NetLog, e: NetEvent) {
    e.Deliver? && l.last >= 0 ==> Near(e.n, l.last)
  }

  /** No wrap of the 32-bit timestamp lies between packets m and n. */
  ghost predicate SameWrap(snd: Sender, m: nat, n: nat) {
    m <= |snd.blocks| && n <= |snd.blocks| && TimestampOf(snd, m) / TWO32 == TimestampOf(snd, n) / TWO32
  }

  /** The delivery puts a packet into a queue that is neither empty nor full. */
  ghost predicate JoinsQueue(cfg: Config, snd: Sender, l: NetLog, e: NetEvent) {
    && e.Deliver?
    && PassesCheck(l.sys.rx, (snd.s0 + e.n) % TWO16)
    && 0 < |l.queueTags| && |l.sys.jb.queue| < cfg.maxPackets
  }

  /** A packet that joins others was not sent on the far side of a timestamp wrap from the oldest one. */
  ghost predicate NoWrapAt(cfg: Config, snd: Sender, l: NetLog, e: NetEvent) {
    JoinsQueue(cfg, snd, l, e) ==> SameWrap(snd, l.queueTags[0], e.n)
  }

  /** It was sent less than a whole timestamp period after the oldest one. */
  ghost predicate WithinPeriod(cfg: Config, snd: Sender, l: NetLog, e: NetEvent) {
    JoinsQueue(cfg, snd, l, e) && l.queueTags[0] <= |snd.blocks| && e.n <= |snd.blocks| ==>
      TimestampOf(snd, e.n) < TimestampOf(snd, l.queueTags[0]) + TWO32
  }

  /** The packet carries what arrives of block n, low 8 bits of each sample cleared, under block n's
      timestamp. */
  ghost predicate Carries(p: JitterPacket, snd: Sender, n: nat) {
    && n < |snd.blocks|
    && p.timestamp == StampOf(snd, n)
    && p.frameCount == Fitting(snd.blocks[n]).frames
    && p.samples == TruncatedAll(Fitting(snd.blocks[n]).samples)
  }

  ghost predicate AllCarry(ps: seq<JitterPacket>, snd: Sender, tags: seq<nat>) {
    && |ps| == |tags|
    && forall j {:trigger Carries(ps[j], snd, tags[j])} :: 0 <= j < |ps| ==> Carries(ps[j], snd, tags[j])
  }

  /** Played and queued numbers together never go backwards, and none is above the last one passed. */
  ghost predicate Ordered(playedTags: seq<nat>, queueTags: seq<nat>, last: int) {
    && NonDecreasing(playedTags + queueTags)
    && forall t :: t in playedTags + queueTags ==> t <= last
  }

  ghost predicate Numbering(rx: RxState, snd: Sender, last: int) {
    && rx.first == (last < 0)
    && (last >= 0 ==> rx.lastSequence == (snd.s0 + last) % TWO16)
  }

  ghost predicate NetInv(snd: Sender, l: NetLog) {
    match l
    case NetLog(sys, played, queueTags, playedTags, last) =>
      && Numbering(sys.rx, snd, last)
      && AllCarry(sys.jb.queue, snd, queueTags)
      && AllCarry(played, snd, playedTags)
      && Ordered(playedTags, queueTags, last)
  }

  // ---------------------------------------------------------------------------------------------
  // What one delivery does
  // ---------------------------------------------------------------------------------------------

  lemma {:induction false} TimestampsIncrease(snd: Sender, m: nat, n: nat)
    requires GoodSender(snd) && m < n <= |snd.blocks|
    ensures TimestampOf(snd, m) < TimestampOf(snd, n)
    decreases n
  {
    assert Sendable(snd.blocks[n - 1], CHANNELS);
    if m < n - 1 {
      TimestampsIncrease(snd, m, n - 1);
    }
  }

  /** What the jitter buffer is given when packet n is decoded at time `now`. */
  function Decoded(snd: Sender, n: nat, now: U64): JitterPacket
    requires n < |snd.blocks| && snd.blocks[n].frames < TWO32
  {
    var block := Fitting(snd.blocks[n]);
    JitterPacket(StampOf(snd, n), now, block.frames, TruncatedAll(block.samples))
  }

  lemma RejectedIsIgnored(rx: RxState, ssrc: U32, sequence: U16, timestamp: U32, samples: seq<I32>)
    requires !PassesCheck(rx, sequence)
    ensures Parse(rx, Packet(ssrc, sequence, timestamp, samples), CHANNELS) == Parsed(rx, 0, [])
  {
    HeaderFields(ssrc, sequence, timestamp);
    var h := Header(ssrc, sequence, timestamp);
    var bytes := Packet(ssrc, sequence, timestamp, samples);
    assert bytes[..HEADER_SIZE] == h;
    assert bytes[2] == h[2] && bytes[3] == h[3];
  }

  /** What parsing a sent block yields. */
  lemma ParseBlock(rx: RxState, ssrc: U32, sequence: U16, timestamp: U32, block: Block)
    requires Sendable(block, CHANNELS)
    ensures Parse(rx, Packet(ssrc, sequence, timestamp, block.samples), CHANNELS) ==
      if PassesCheck(rx, sequence) then
        Parsed(Track(rx, sequence, timestamp), block.frames, TruncatedAll(block.samples))
      else Parsed(rx, 0, [])
  {
    if PassesCheck(rx, sequence) {
      PacketRoundTrip(rx, ssrc, sequence, timestamp, block.samples, block.frames, CHANNELS);
    } else {
      RejectedIsIgnored(rx, ssrc, sequence, timestamp, block.samples);
    }
  }

  lemma AbsorbBlock(cfg: Config, sys: RxSystem, sequence: U16, timestamp: U32, block: Block, now: U64)
    requires Sendable(block, CHANNELS)
    ensures var samples := TruncatedAll(block.samples);
      Absorb(cfg, sys.jb, Parsed(Track(sys.rx, sequence, timestamp), block.frames, samples), now) ==
      RxSystem(Track(sys.rx, sequence, timestamp),
               AfterInsert(cfg, sys.jb, JitterPacket(timestamp, now, block.frames, samples)))
  {
  }

  /** Receiving a sent block tracks and queues it if it passes the check, and does nothing otherwise. */
  lemma ReceiveBlock(cfg: Config, sys: RxSystem, bytes: seq<U8>, ssrc: U32, sequence: U16, timestamp: U32, block: Block,
                     now: U64)
    requires Sendable(block, CHANNELS) && bytes == Packet(ssrc, sequence, timestamp, block.samples)
    ensures Receive(cfg, sys, bytes, now) ==
      if PassesCheck(sys.rx, sequence) then
        RxSystem(Track(sys.rx, sequence, timestamp),
                 AfterInsert(cfg, sys.jb, JitterPacket(timestamp, now, block.frames, TruncatedAll(block.samples))))
      else sys
  {
    ParseBlock(sys.rx, ssrc, sequence, timestamp, block);
    AbsorbBlock(cfg, sys, sequence, timestamp, block, now);
  }

  lemma {:induction false} PayloadPrefix(samples: seq<I32>, n: nat)
    requires n <= |samples|
    ensures Payload(samples)[..3 * n] == Payload(samples[..n])
    decreases |samples|
  {
    if n == |samples| {
      assert samples[..n] == samples;
    } else {
      var m := |samples| - 1;
      PayloadPrefix(samples[..m], n);
      assert samples[..m][..n] == samples[..n];
      assert Payload(samples)[..3 * n] == Payload(samples[..m])[..3 * n];
    }
  }

  lemma FittingIsSendable(block: Block)
    requires Sendable(block, CHANNELS)
    ensures Sendable(Fitting(block), CHANNELS) && Fitting(block).frames == Min(block.frames, FRAME_LIMIT)
    ensures Fitting(block).samples == block.samples[..CHANNELS * Min(block.frames, FRAME_LIMIT)]
  {
  }

  lemma CutBehind(header: seq<U8>, payload: seq<U8>, n: nat)
    requires n <= |payload|
    ensures (header + payload)[..|header| + n] == header + payload[..n]
  {
  }

  /** The receive buffer cuts a packet at a frame boundary: what arrives is a packet of the first frames. */
  lemma DatagramIsPacket(ssrc: U32, sequence: U16, timestamp: U32, block: Block)
    requires Sendable(block, CHANNELS)
    ensures Datagram(Packet(ssrc, sequence, timestamp, block.samples)) ==
      Packet(ssrc, sequence, timestamp, Fitting(block).samples)
  {
    FittingIsSendable(block);
    var header, payload := Header(ssrc, sequence, timestamp), Payload(block.samples);
    if block.frames > FRAME_LIMIT {
      PayloadPrefix(block.samples, CHANNELS * FRAME_LIMIT);
      CutBehind(header, payload, 3 * (CHANNELS * FRAME_LIMIT));
    } else {
      assert Datagram(header + payload) == header + payload;
    }
  }

  /** WHAT ONE PACKET BRINGS.  A block that passes the check is decoded to its first 62 frames; it comes whole,
      low 8 bits cleared, exactly if it has no more. */
  lemma WholeIffItFits(rx: RxState, ssrc: U32, sequence: U16, timestamp: U32, block: Block)
    requires Sendable(block, CHANNELS) && PassesCheck(rx, sequence)
    ensures var p := Parse(rx, Datagram(Packet(ssrc, sequence, timestamp, block.samples)), CHANNELS);
      && p.frames == Min(block.frames, 62)
      && p.samples == TruncatedAll(block.samples)[..8 * Min(block.frames, 62)]
      && (p.samples == TruncatedAll(block.samples) <==> block.frames <= 62)
  {
    FittingIsSendable(block);
    DatagramIsPacket(ssrc, sequence, timestamp, block);
    ParseBlock(rx, ssrc, sequence, timestamp, Fitting(block));
    assert TruncatedAll(Fitting(block).samples) ==
      TruncatedAll(block.samples)[..CHANNELS * Min(block.frames, FRAME_LIMIT)];
  }

  lemma ReceiveSent(cfg: Config, snd: Sender, sys: RxSystem, n: nat, now: U64)
    requires n < |snd.blocks| && Sendable(snd.blocks[n], CHANNELS)
    ensures Receive(cfg, sys, Datagram(SentPacket(snd, n)), now) ==
      if PassesCheck(sys.rx, (snd.s0 + n) % TWO16) then
        RxSystem(Track(sys.rx, (snd.s0 + n) % TWO16, StampOf(snd, n)),
                 AfterInsert(cfg, sys.jb, Decoded(snd, n, now)))
      else sys
  {
    var sequence, block := (snd.s0 + n) % TWO16, snd.blocks[n];
    FittingIsSendable(block);
    DatagramIsPacket(snd.ssrc, sequence, StampOf(snd, n), block);
    ReceiveBlock(cfg, sys, Datagram(SentPacket(snd, n)), snd.ssrc, sequence, StampOf(snd, n), Fitting(block), now);
  }

  /** A delivery, with the parsing already worked out. */
  function NetDeliver(cfg: Config, snd: Sender, l: NetLog, n: nat, now: U64): NetLog
    requires n < |snd.blocks| && snd.blocks[n].frames < TWO32
  {
    var sequence := (snd.s0 + n) % TWO16;
    if !PassesCheck(l.sys.rx, sequence) then l
    else
      var sys := RxSystem(Track(l.sys.rx, sequence, StampOf(snd, n)),
                          AfterInsert(cfg, l.sys.jb, Decoded(snd, n, now)));
      if |l.sys.jb.queue| >= cfg.maxPackets then l.(sys := sys, last := n)
      else
        var at := Position(l.sys.jb.queue, StampOf(snd, n));
        l.(sys := sys, last := n, queueTags := TagAt(l.queueTags, at, n))
  }

  lemma DeliverIs(cfg: Config, snd: Sender, l: NetLog, n: nat, now: U64)
    requires cfg.sampleRate > 0 && n < |snd.blocks| && Sendable(snd.blocks[n], CHANNELS)
    ensures NetStep(cfg, snd, l, Deliver(n, now)) == NetDeliver(cfg, snd, l, n, now)
  {
    ReceiveSent(cfg, snd, l.sys, n, now);
  }

  // ---------------------------------------------------------------------------------------------
  // Where a packet is queued
  // ---------------------------------------------------------------------------------------------

  lemma SameWrapCompares(least: nat, u: nat, n: nat)
    requires least <= u <= n && least / TWO32 == n / TWO32
    ensures u % TWO32 < n % TWO32 <==> u < n
  {
  }

  lemma NextWrapCompares(u: nat, n: nat)
    requires u <= n < u + TWO32 && u / TWO32 != n / TWO32
    ensures n % TWO32 < u % TWO32
  {
  }

  /** WRAPPED TIMESTAMPS.  A packet at least as new as all queued ones - u and n are the timestamps counted
      without wrapping - goes behind exactly the older ones if no wrap lies between the oldest and it; else,
      if it is less than a period ahead of the oldest, it goes in front of the whole queue. */
  lemma PlaceIffNoWrap(queue: seq<JitterPacket>, u: seq<nat>, n: nat)
    requires |u| == |queue| > 0 && NonDecreasing(u) && u[|u| - 1] <= n
    requires forall j :: 0 <= j < |u| ==> queue[j].timestamp == u[j] % TWO32
    ensures u[0] / TWO32 == n / TWO32 ==>
      forall j :: 0 <= j < |u| ==> (j < Position(queue, n % TWO32) <==> u[j] < n)
    ensures u[0] / TWO32 != n / TWO32 && n < u[0] + TWO32 ==> Position(queue, n % TWO32) == 0
  {
    var at := Position(queue, n % TWO32);
    if u[0] / TWO32 == n / TWO32 {
      forall j | 0 <= j < |u|
        ensures j < at <==> u[j] < n
      {
        if j < at {
          SameWrapCompares(u[0], u[j], n);
        } else {
          assert u[at] <= u[j];
          SameWrapCompares(u[0], u[at], n);
        }
      }
    } else if n < u[0] + TWO32 {
      NextWrapCompares(u[0], n);
    }
  }

  /** The timestamps of queued packets, counted without wrapping. */
  function Unwrapped(snd: Sender, tags: seq<nat>): seq<nat>
    requires forall j :: 0 <= j < |tags| ==> tags[j] <= |snd.blocks|
  {
    seq(|tags|, j requires 0 <= j < |tags| => TimestampOf(snd, tags[j]))
  }

  lemma NumbersAgree(snd: Sender, m: nat, n: nat)
    requires GoodSender(snd) && m <= n <= |snd.blocks|
    ensures TimestampOf(snd, m) <= TimestampOf(snd, n)
    ensures TimestampOf(snd, m) < TimestampOf(snd, n) <==> m < n
  {
    if m < n {
      TimestampsIncrease(snd, m, n);
    }
  }

  /** The same for sent packets, by their numbers. */
  lemma PlaceOfNewest(snd: Sender, queue: seq<JitterPacket>, tags: seq<nat>, n: nat)
    requires GoodSender(snd) && AllCarry(queue, snd, tags) && n < |snd.blocks| && tags != []
    requires NonDecreasing(tags) && tags[|tags| - 1] <= n
    ensures SameWrap(snd, tags[0], n) ==>
      forall j :: 0 <= j < |tags| ==> (j < Position(queue, StampOf(snd, n)) <==> tags[j] < n)
    ensures tags[0] <= |snd.blocks|
    ensures !SameWrap(snd, tags[0], n) && TimestampOf(snd, n) < TimestampOf(snd, tags[0]) + TWO32 ==>
      Position(queue, StampOf(snd, n)) == 0
  {
    forall j | 0 <= j < |tags|
      ensures tags[j] < |snd.blocks| && queue[j].timestamp == StampOf(snd, tags[j])
    {
      assert Carries(queue[j], snd, tags[j]);
    }
    var u := Unwrapped(snd, tags);
    forall i, j | 0 <= i <= j < |tags|
      ensures u[i] <= u[j]
    {
      NumbersAgree(snd, tags[i], tags[j]);
    }
    forall j | 0 <= j < |tags|
      ensures u[j] <= TimestampOf(snd, n) && (u[j] < TimestampOf(snd, n) <==> tags[j] < n)
    {
      assert tags[j] <= tags[|tags| - 1];
      NumbersAgree(snd, tags[j], n);
    }
    PlaceIffNoWrap(queue, u, TimestampOf(snd, n));
  }

  // ---------------------------------------------------------------------------------------------
  // Every run keeps the sending order
  // ---------------------------------------------------------------------------------------------

  lemma InsertTag(played: seq<nat>, tags: seq<nat>, last: int, at: nat, n: nat)
    requires Ordered(played, tags, last) && last <= n && at <= |tags|
    requires forall j :: at <= j < |tags| ==> tags[j] == n
    ensures Ordered(played, TagAt(tags, at, n), n)
  {
    var before := played + tags;
    var after := played + TagAt(tags, at, n);
    var m := |played| + at;
    forall i | 0 <= i < |after|
      ensures after[i] == (if i < m then before[i] else n) && after[i] <= n
    {
      if i < m {
        assert before[i] in before;
      }
    }
  }

  lemma InsertCarries(snd: Sender, queue: seq<JitterPacket>, tags: seq<nat>, at: nat, p: JitterPacket, n: nat)
    requires AllCarry(queue, snd, tags) && Carries(p, snd, n) && at <= |queue|
    ensures AllCarry(InsertAt(queue, at, p), snd, TagAt(tags, at, n))
  {
    var q, t := InsertAt(queue, at, p), TagAt(tags, at, n);
    forall j | 0 <= j < |q|
      ensures Carries(q[j], snd, t[j])
    {
      if j < at {
        assert Carries(queue[j], snd, tags[j]);
      } else if j > at {
        assert Carries(queue[j - 1], snd, tags[j - 1]);
      }
    }
  }

  lemma TagsSorted(played: seq<nat>, tags: seq<nat>, last: int)
    requires Ordered(played, tags, last)
    ensures NonDecreasing(tags) && NonDecreasing(played)
    ensures forall j :: 0 <= j < |tags| ==> tags[j] <= last
  {
    var all := played + tags;
    forall j | 0 <= j < |tags|
      ensures tags[j] <= last
    {
      assert all[|played| + j] in all;
    }
    forall i, j | 0 <= i <= j < |tags|
      ensures tags[i] <= tags[j]
    {
      assert all[|played| + i] <= all[|played| + j];
    }
    forall i, j | 0 <= i <= j < |played|
      ensures played[i] <= played[j]
    {
      assert all[i] <= all[j];
    }
  }

  lemma AboveOld(played: seq<nat>, tags: seq<nat>, last: int, n: int)
    requires Ordered(played, tags, last) && last <= n
    ensures Ordered(played, tags, n)
  {
  }

  /** A packet near the last one passes the check exactly if it is not behind it. */
  lemma PassesIsNotBehind(snd: Sender, l: NetLog, n: nat)
    requires Numbering(l.sys.rx, snd, l.last) && (l.last >= 0 ==> Near(n, l.last))
    ensures PassesCheck(l.sys.rx, (snd.s0 + n) % TWO16) <==> l.last <= n
  {
    if l.last >= 0 {
      DeltaIsTrue(snd.s0 + n, snd.s0 + l.last);
    }
  }

  /** On a run without a wrap in the queue, the packets that push the front off are its own repeats. */
  lemma PushesFrontIffRepeat(cfg: Config, snd: Sender, l: NetLog, n: nat, now: U64)
    requires GoodSender(snd) && n < |snd.blocks| && NetInv(snd, l) && NearLastPassed(l, Deliver(n, now))
    requires JoinsQueue(cfg, snd, l, Deliver(n, now)) && NoWrapAt(cfg, snd, l, Deliver(n, now))
    ensures Position(l.sys.jb.queue, StampOf(snd, n)) == 0 <==> n == l.queueTags[0]
  {
    PassesIsNotBehind(snd, l, n);
    TagsSorted(l.playedTags, l.queueTags, l.last);
    PlaceOfNewest(snd, l.sys.jb.queue, l.queueTags, n);
  }

  lemma PassingInv(cfg: Config, snd: Sender, l: NetLog, n: nat, now: U64)
    requires GoodSender(snd) && n < |snd.blocks| && snd.blocks[n].frames < TWO32 && NetInv(snd, l) && l.last <= n
    requires PassesCheck(l.sys.rx, (snd.s0 + n) % TWO16)
    requires NoWrapAt(cfg, snd, l, Deliver(n, now))
    ensures NetInv(snd, NetDeliver(cfg, snd, l, n, now))
  {
    TagsSorted(l.playedTags, l.queueTags, l.last);
    AboveOld(l.playedTags, l.queueTags, l.last, n);
    if |l.sys.jb.queue| < cfg.maxPackets {
      var at := Position(l.sys.jb.queue, StampOf(snd, n));
      if l.queueTags != [] {
        PlaceOfNewest(snd, l.sys.jb.queue, l.queueTags, n);
      }
      InsertTag(l.playedTags, l.queueTags, l.last, at, n);
      InsertCarries(snd, l.sys.jb.queue, l.queueTags, at, Decoded(snd, n, now), n);
    }
  }

  lemma NetDeliverInv(cfg: Config, snd: Sender, l: NetLog, n: nat, now: U64)
    requires GoodSender(snd) && n < |snd.blocks| && snd.blocks[n].frames < TWO32 && NetInv(snd, l)
    requires NearLastPassed(l, Deliver(n, now)) && NoWrapAt(cfg, snd, l, Deliver(n, now))
    ensures NetInv(snd, NetDeliver(cfg, snd, l, n, now))
  {
    PassesIsNotBehind(snd, l, n);
    if l.last <= n {
      PassingInv(cfg, snd, l, n, now);
    }
  }

  lemma DeliverInv(cfg: Config, snd: Sender, l: NetLog, n: nat, now: U64)
    requires cfg.sampleRate > 0 && GoodSender(snd) && n < |snd.blocks| && NetInv(snd, l)
    requires NearLastPassed(l, Deliver(n, now)) && NoWrapAt(cfg, snd, l, Deliver(n, now))
    ensures NetInv(snd, NetStep(cfg, snd, l, Deliver(n, now)))
  {
    assert Sendable(snd.blocks[n], CHANNELS);
    DeliverIs(cfg, snd, l, n, now);
    NetDeliverInv(cfg, snd, l, n, now);
  }

  lemma QueueGains(cfg: Config, jb: State, p: JitterPacket)
    requires |jb.queue| < cfg.maxPackets
    ensures multiset(AfterInsert(cfg, jb, p).queue) == multiset(jb.queue) + multiset{p}
  {
    InsertAdds(jb.queue, Position(jb.queue, p.timestamp), p);
  }

  /** A delivery that passes the check and finds room queues one packet: what arrives of block n, with the
      time of its arrival.  The packet's playout time counts from there. */
  lemma DeliveryQueues(cfg: Config, snd: Sender, l: NetLog, n: nat, now: U64) returns (p: JitterPacket)
    requires cfg.sampleRate > 0 && GoodSender(snd) && n < |snd.blocks|
    requires PassesCheck(l.sys.rx, (snd.s0 + n) % TWO16) && |l.sys.jb.queue| < cfg.maxPackets
    ensures Carries(p, snd, n) && p.arrivalTime == now
    ensures multiset(NetStep(cfg, snd, l, Deliver(n, now)).sys.jb.queue) ==
      multiset(l.sys.jb.queue) + multiset{p}
  {
    assert Sendable(snd.blocks[n], CHANNELS);
    p := Decoded(snd, n, now);
    ReceiveSent(cfg, snd, l.sys, n, now);
    QueueGains(cfg, l.sys.jb, p);
  }

  lemma TickInv(cfg: Config, snd: Sender, l: NetLog, now: U64)
    requires cfg.sampleRate > 0 && NetInv(snd, l)
    ensures NetInv(snd, NetStep(cfg, snd, l, Tick(now)))
  {
    var l' := NetStep(cfg, snd, l, Tick(now));
    if Poll(cfg, l.sys.jb, now).1.Some? {
      assert Carries(l.sys.jb.queue[0], snd, l.queueTags[0]);
      assert l'.playedTags + l'.queueTags == l.playedTags + l.queueTags;
      forall j | 0 <= j < |l'.sys.jb.queue|
        ensures Carries(l'.sys.jb.queue[j], snd, l'.queueTags[j])
      {
        assert Carries(l.sys.jb.queue[j + 1], snd, l.queueTags[j + 1]);
      }
      forall j | 0 <= j < |l'.played|
        ensures Carries(l'.played[j], snd, l'.playedTags[j])
      {
        if j < |l.played| {
          assert Carries(l.played[j], snd, l.playedTags[j]);
        }
      }
    }
  }

  lemma NetStepInv(cfg: Config, snd: Sender, l: NetLog, e: NetEvent)
    requires cfg.sampleRate > 0 && GoodSender(snd) && Exists(snd, e) && NetInv(snd, l)
    requires NearLastPassed(l, e) && NoWrapAt(cfg, snd, l, e)
    ensures NetInv(snd, NetStep(cfg, snd, l, e))
  {
    match e
    case Deliver(n, now) => DeliverInv(cfg, snd, l, n, now);
    case Tick(now) => TickInv(cfg, snd, l, now);
  }

  /** The three conditions at event k of a run. */
  ghost predicate NearAt(cfg: Config, snd: Sender, events: seq<NetEvent>, k: nat)
    requires cfg.sampleRate > 0 && k < |events| && AllExist(snd, events)
  {
    NearLastPassed(NetRun(cfg, snd, events, k), events[k])
  }

  ghost predicate UnwrappedAt(cfg: Config, snd: Sender, events: seq<NetEvent>, k: nat)
    requires cfg.sampleRate > 0 && k < |events| && AllExist(snd, events)
  {
    NoWrapAt(cfg, snd, NetRun(cfg, snd, events, k), events[k])
  }

  ghost predicate PeriodAt(cfg: Config, snd: Sender, events: seq<NetEvent>, k: nat)
    requires cfg.sampleRate > 0 && k < |events| && AllExist(snd, events)
  {
    WithinPeriod(cfg, snd, NetRun(cfg, snd, events, k), events[k])
  }

  /** The conditions at every event of a run. */
  ghost predicate NearThroughout(cfg: Config, snd: Sender, events: seq<NetEvent>)
    requires cfg.sampleRate > 0 && AllExist(snd, events)
  {
    forall i :: 0 <= i < |events| ==> NearAt(cfg, snd, events, i)
  }

  ghost predicate UnwrappedThroughout(cfg: Config, snd: Sender, events: seq<NetEvent>)
    requires cfg.sampleRate > 0 && AllExist(snd, events)
  {
    forall i :: 0 <= i < |events| ==> UnwrappedAt(cfg, snd, events, i)
  }

  ghost predicate PeriodThroughout(cfg: Config, snd: Sender, events: seq<NetEvent>)
    requires cfg.sampleRate > 0 && AllExist(snd, events)
  {
    forall i :: 0 <= i < |events| ==> PeriodAt(cfg, snd, events, i)
  }

  lemma StartInv(cfg: Config, snd: Sender)
    ensures NetInv(snd, NetStart(cfg))
  {
  }

  lemma NetRunStep(cfg: Config, snd: Sender, events: seq<NetEvent>, k: nat)
    requires cfg.sampleRate > 0 && GoodSender(snd) && k < |events| && AllExist(snd, events)
    requires NearThroughout(cfg, snd, events) && UnwrappedAt(cfg, snd, events, k)
    requires NetInv(snd, NetRun(cfg, snd, events, k))
    ensures NetInv(snd, NetRun(cfg, snd, events, k + 1))
  {
    assert Exists(snd, events[k]) && NearAt(cfg, snd, events, k);
    NetStepInv(cfg, snd, NetRun(cfg, snd, events, k), events[k]);
  }

  lemma {:induction false} NetRunInv(cfg: Config, snd: Sender, events: seq<NetEvent>, k: nat)
    requires cfg.sampleRate > 0 && GoodSender(snd) && k <= |events| && AllExist(snd, events)
    requires NearThroughout(cfg, snd, events) && UnwrappedThroughout(cfg, snd, events)
    ensures NetInv(snd, NetRun(cfg, snd, events, k))
    decreases k
  {
    if k == 0 {
      StartInv(cfg, snd);
    } else {
      NetRunInv(cfg, snd, events, k - 1);
      assert UnwrappedAt(cfg, snd, events, k - 1);
      NetRunStep(cfg, snd, events, k - 1);
    }
  }

  /** TRANSPORT.  Whatever the network loses, repeats and reorders, what is played is a sequence of sent
      blocks in the order sent - the same block again at most right after itself - each cut to the 62 frames
      that fit the receive buffer, with its samples' low 8 bits cleared.  The run may be of any length; only no
      packet may be queued behind one from before a timestamp wrap. */
  lemma PlayedInOrder(cfg: Config, snd: Sender, events: seq<NetEvent>)
    requires cfg.sampleRate > 0 && GoodSender(snd) && AllExist(snd, events)
    requires NearThroughout(cfg, snd, events) && UnwrappedThroughout(cfg, snd, events)
    ensures var l := NetRun(cfg, snd, events, |events|);
      AllCarry(l.played, snd, l.playedTags) && NonDecreasing(l.playedTags)
  {
    NetRunInv(cfg, snd, events, |events|);
    var l := NetRun(cfg, snd, events, |events|);
    TagsSorted(l.playedTags, l.queueTags, l.last);
  }

  // ---------------------------------------------------------------------------------------------
  // What a timestamp wrap does
  // ---------------------------------------------------------------------------------------------

  /** After k events, what was played and what is still queued are together in sending order. */
  ghost predicate OrderedAt(cfg: Config, snd: Sender, events: seq<NetEvent>, k: nat)
    requires cfg.sampleRate > 0 && k <= |events| && AllExist(snd, events)
  {
    var l := NetRun(cfg, snd, events, k);
    NonDecreasing(l.playedTags + l.queueTags)
  }

  lemma WrapGoesToFront(snd: Sender, l: NetLog, n: nat)
    requires GoodSender(snd) && NetInv(snd, l) && l.last <= n < |snd.blocks| && l.queueTags != []
    requires !SameWrap(snd, l.queueTags[0], n)
    requires l.queueTags[0] <= |snd.blocks| ==> TimestampOf(snd, n) < TimestampOf(snd, l.queueTags[0]) + TWO32
    ensures Position(l.sys.jb.queue, StampOf(snd, n)) == 0 && l.queueTags[0] < n
  {
    TagsSorted(l.playedTags, l.queueTags, l.last);
    PlaceOfNewest(snd, l.sys.jb.queue, l.queueTags, n);
  }

  lemma FrontBreaksOrder(played: seq<nat>, tags: seq<nat>, n: nat)
    requires tags != [] && tags[0] < n
    ensures !NonDecreasing(played + TagAt(tags, 0, n))
  {
    var all := played + TagAt(tags, 0, n);
    assert all[|played|] == n && all[|played| + 1] == tags[0];
  }

  lemma NetDeliverBreaksOrder(cfg: Config, snd: Sender, l: NetLog, n: nat, now: U64)
    requires GoodSender(snd) && n < |snd.blocks| && snd.blocks[n].frames < TWO32 && NetInv(snd, l)
    requires NearLastPassed(l, Deliver(n, now)) && WithinPeriod(cfg, snd, l, Deliver(n, now))
    requires !NoWrapAt(cfg, snd, l, Deliver(n, now))
    ensures var l' := NetDeliver(cfg, snd, l, n, now); !NonDecreasing(l'.playedTags + l'.queueTags)
  {
    PassesIsNotBehind(snd, l, n);
    WrapGoesToFront(snd, l, n);
    FrontBreaksOrder(l.playedTags, l.queueTags, n);
  }

  /** A packet from behind a wrap is queued before the older ones. */
  lemma WrapBreaksOrder(cfg: Config, snd: Sender, l: NetLog, e: NetEvent)
    requires cfg.sampleRate > 0 && GoodSender(snd) && Exists(snd, e) && NetInv(snd, l)
    requires NearLastPassed(l, e) && WithinPeriod(cfg, snd, l, e) && !NoWrapAt(cfg, snd, l, e)
    ensures var l' := NetStep(cfg, snd, l, e); !NonDecreasing(l'.playedTags + l'.queueTags)
  {
    assert Sendable(snd.blocks[e.n], CHANNELS);
    DeliverIs(cfg, snd, l, e.n, e.now);
    NetDeliverBreaksOrder(cfg, snd, l, e.n, e.now);
  }

  /** A step after which the order is known to be kept. */
  lemma OrderedStepInv(cfg: Config, snd: Sender, l: NetLog, e: NetEvent)
    requires cfg.sampleRate > 0 && GoodSender(snd) && Exists(snd, e) && NetInv(snd, l)
    requires NearLastPassed(l, e) && WithinPeriod(cfg, snd, l, e)
    requires var l' := NetStep(cfg, snd, l, e); NonDecreasing(l'.playedTags + l'.queueTags)
    ensures NoWrapAt(cfg, snd, l, e) && NetInv(snd, NetStep(cfg, snd, l, e))
  {
    if !NoWrapAt(cfg, snd, l, e) {
      WrapBreaksOrder(cfg, snd, l, e);
    }
    NetStepInv(cfg, snd, l, e);
  }

  ghost predicate OrderedThroughout(cfg: Config, snd: Sender, events: seq<NetEvent>)
    requires cfg.sampleRate > 0 && AllExist(snd, events)
  {
    forall k :: 0 <= k <= |events| ==> OrderedAt(cfg, snd, events, k)
  }

  lemma OrderedRunStep(cfg: Config, snd: Sender, events: seq<NetEvent>, k: nat)
    requires cfg.sampleRate > 0 && GoodSender(snd) && k < |events| && AllExist(snd, events)
    requires NearThroughout(cfg, snd, events) && PeriodThroughout(cfg, snd, events)
    requires OrderedThroughout(cfg, snd, events) && NetInv(snd, NetRun(cfg, snd, events, k))
    ensures UnwrappedAt(cfg, snd, events, k) && NetInv(snd, NetRun(cfg, snd, events, k + 1))
  {
    assert Exists(snd, events[k]) && OrderedAt(cfg, snd, events, k + 1);
    assert NearAt(cfg, snd, events, k) && PeriodAt(cfg, snd, events, k);
    OrderedStepInv(cfg, snd, NetRun(cfg, snd, events, k), events[k]);
  }

  lemma {:induction false} OrderedRunInv(cfg: Config, snd: Sender, events: seq<NetEvent>, k: nat)
    requires cfg.sampleRate > 0 && GoodSender(snd) && k <= |events| && AllExist(snd, events)
    requires NearThroughout(cfg, snd, events) && PeriodThroughout(cfg, snd, events)
    requires OrderedThroughout(cfg, snd, events)
    ensures NetInv(snd, NetRun(cfg, snd, events, k))
    decreases k
  {
    if k == 0 {
      StartInv(cfg, snd);
    } else {
      OrderedRunInv(cfg, snd, events, k - 1);
      OrderedRunStep(cfg, snd, events, k - 1);
    }
  }

  /** ORDER AND WRAPPING.  On a run whose arrivals are near, played and queued packets are in sending order
      all the time exactly if no packet joins a queue whose oldest packet was sent before a wrap. */
  lemma OrderKeptIffNoWrap(cfg: Config, snd: Sender, events: seq<NetEvent>)
    requires cfg.sampleRate > 0 && GoodSender(snd) && AllExist(snd, events)
    requires NearThroughout(cfg, snd, events) && PeriodThroughout(cfg, snd, events)
    ensures OrderedThroughout(cfg, snd, events) <==> UnwrappedThroughout(cfg, snd, events)
  {
    if UnwrappedThroughout(cfg, snd, events) {
      forall k | 0 <= k <= |events|
        ensures OrderedAt(cfg, snd, events, k)
      {
        NetRunInv(cfg, snd, events, k);
      }
    }
    if OrderedThroughout(cfg, snd, events) {
      forall k | 0 <= k < |events|
        ensures UnwrappedAt(cfg, snd, events, k)
      {
        OrderedRunInv(cfg, snd, events, k);
        OrderedRunStep(cfg, snd, events, k);
      }
    }
  }

  /** One frame of silence. */
  function OneFrame(): Block {
    Block(1, seq(CHANNELS, _ => 0))
  }

  /** Two frames, each a block, with the wrap of the timestamp between them. */
  function AcrossTheWrap(ssrc: U32): Sender {
    Sender(ssrc, 0, TWO32 - 1, [OneFrame(), OneFrame()])
  }

  lemma AcrossTheWrapIs(ssrc: U32)
    ensures var snd := AcrossTheWrap(ssrc);
      && GoodSender(snd) && Sendable(snd.blocks[0], CHANNELS) && Sendable(snd.blocks[1], CHANNELS)
      && TimestampOf(snd, 0) == TWO32 - 1 && TimestampOf(snd, 1) == TWO32
      && !SameWrap(snd, 0, 1)
  {
    var snd := AcrossTheWrap(ssrc);
    assert FramesBefore(snd.blocks, 0) == 0;
    assert FramesBefore(snd.blocks, 1) == FramesBefore(snd.blocks, 0) + snd.blocks[0].frames;
    DivModUnique(TWO32 - 1, TWO32, 0, TWO32 - 1);
    DivModUnique(TWO32, TWO32, 1, 0);
  }

  lemma FirstDelivery(cfg: Config, snd: Sender, now: U64)
    requires cfg.sampleRate > 0 && cfg.maxPackets > 0 && GoodSender(snd) && |snd.blocks| > 0
    ensures var l := NetStep(cfg, snd, NetStart(cfg), Deliver(0, now));
      NetInv(snd, l) && l.last == 0 && l.queueTags == [0]
  {
    StartInv(cfg, snd);
    DeliverInv(cfg, snd, NetStart(cfg), 0, now);
  }

  lemma NetRunUnfolds(cfg: Config, snd: Sender, events: seq<NetEvent>, k: nat, e: NetEvent)
    requires cfg.sampleRate > 0 && k < |events| && AllExist(snd, events) && e == events[k] && Exists(snd, e)
    ensures NetRun(cfg, snd, events, k + 1) == NetStep(cfg, snd, NetRun(cfg, snd, events, k), e)
  {
  }

  lemma TwoEvents(cfg: Config, snd: Sender, e0: NetEvent, e1: NetEvent)
    requires cfg.sampleRate > 0 && Exists(snd, e0) && Exists(snd, e1)
    ensures AllExist(snd, [e0, e1])
    ensures NetRun(cfg, snd, [e0, e1], 2) == NetStep(cfg, snd, NetStep(cfg, snd, NetStart(cfg), e0), e1)
  {
    NetRunUnfolds(cfg, snd, [e0, e1], 0, e0);
    NetRunUnfolds(cfg, snd, [e0, e1], 1, e1);
  }

  lemma SecondDelivery(cfg: Config, snd: Sender, l: NetLog, now: U64)
    requires cfg.sampleRate > 0 && cfg.maxPackets >= 2 && GoodSender(snd) && |snd.blocks| >= 2
    requires NetInv(snd, l) && l.last == 0 && l.queueTags == [0] && !SameWrap(snd, 0, 1)
    requires TimestampOf(snd, 1) < TimestampOf(snd, 0) + TWO32
    ensures var l' := NetStep(cfg, snd, l, Deliver(1, now)); !NonDecreasing(l'.playedTags + l'.queueTags)
  {
    PassesIsNotBehind(snd, l, 1);
    WrapBreaksOrder(cfg, snd, l, Deliver(1, now));
  }

  /** For instance: two packets with the timestamp wrap between them that arrive in order and meet in the queue
      are queued in the wrong order. */
  lemma WrapReverses(cfg: Config, snd: Sender, now: U64, later: U64)
    requires cfg.sampleRate > 0 && cfg.maxPackets >= 2 && snd == AcrossTheWrap(snd.ssrc)
    ensures var events := [Deliver(0, now), Deliver(1, later)];
      AllExist(snd, events) && !OrderedAt(cfg, snd, events, 2)
  {
    AcrossTheWrapIs(snd.ssrc);
    FirstDelivery(cfg, snd, now);
    SecondDelivery(cfg, snd, NetStep(cfg, snd, NetStart(cfg), Deliver(0, now)), later);
    TwoEvents(cfg, snd, Deliver(0, now), Deliver(1, later));
  }

  // ---------------------------------------------------------------------------------------------
  // A perfect network
  // ---------------------------------------------------------------------------------------------

  function Deliveries(events: seq<NetEvent>, k: nat): nat
    requires k <= |events|
  {
    if k == 0 then 0 else Deliveries(events, k - 1) + (if events[k - 1].Deliver? then 1 else 0)
  }

  /** The event, if a delivery, delivers packet m to a queue that is not full and not across a wrap. */
  ghost predicate DeliversNext(cfg: Config, snd: Sender, l: NetLog, e: NetEvent, m: nat) {
    e.Deliver? ==> e.n == m && |l.sys.jb.queue| < cfg.maxPackets && NoWrapAt(cfg, snd, l, e)
  }

  ghost predicate PerfectAt(cfg: Config, snd: Sender, events: seq<NetEvent>, k: nat)
    requires cfg.sampleRate > 0 && k < |events| && AllExist(snd, events)
  {
    DeliversNext(cfg, snd, NetRun(cfg, snd, events, k), events[k], Deliveries(events, k))
  }

  function UpTo(m: nat): seq<nat> {
    seq(m, i requires 0 <= i < m => i)
  }

  /** The first m packets have arrived, are all played or queued, and none is counted lost. */
  ghost predicate Complete(snd: Sender, l: NetLog, m: nat) {
    && NetInv(snd, l)
    && l.last == m - 1
    && l.playedTags + l.queueTags == UpTo(m)
    && l.sys.rx.packetLoss == 0
  }

  lemma AppendTag(played: seq<nat>, tags: seq<nat>, m: nat)
    requires played + tags == UpTo(m)
    ensures played + TagAt(tags, |tags|, m) == UpTo(m + 1)
  {
    assert played + TagAt(tags, |tags|, m) == (played + tags) + [m];
  }

  /** The next packet in order goes to the end of the queue. */
  lemma NextGoesLast(cfg: Config, snd: Sender, l: NetLog, m: nat, now: U64)
    requires GoodSender(snd) && m < |snd.blocks| && Complete(snd, l, m)
    requires PassesCheck(l.sys.rx, (snd.s0 + m) % TWO16)
    requires |l.sys.jb.queue| < cfg.maxPackets && NoWrapAt(cfg, snd, l, Deliver(m, now))
    ensures Position(l.sys.jb.queue, StampOf(snd, m)) == |l.queueTags|
  {
    TagsSorted(l.playedTags, l.queueTags, l.last);
    if l.queueTags != [] {
      PlaceOfNewest(snd, l.sys.jb.queue, l.queueTags, m);
    }
  }

  /** It leaves no gap behind the last one. */
  lemma NextLosesNothing(snd: Sender, rx: RxState, m: nat, timestamp: U32)
    requires Numbering(rx, snd, m - 1) && rx.packetLoss == 0
    ensures Track(rx, (snd.s0 + m) % TWO16, timestamp).packetLoss == 0
  {
    if m > 0 {
      DeltaIsTrue(snd.s0 + m, snd.s0 + (m - 1));
    }
  }

  lemma NextTags(cfg: Config, snd: Sender, l: NetLog, m: nat, now: U64)
    requires GoodSender(snd) && m < |snd.blocks| && snd.blocks[m].frames < TWO32 && Complete(snd, l, m)
    requires PassesCheck(l.sys.rx, (snd.s0 + m) % TWO16)
    requires |l.sys.jb.queue| < cfg.maxPackets && NoWrapAt(cfg, snd, l, Deliver(m, now))
    ensures var l' := NetDeliver(cfg, snd, l, m, now);
      l'.last == m && l'.playedTags + l'.queueTags == UpTo(m + 1) && l'.sys.rx.packetLoss == 0
  {
    NextGoesLast(cfg, snd, l, m, now);
    NextLosesNothing(snd, l.sys.rx, m, StampOf(snd, m));
    AppendTag(l.playedTags, l.queueTags, m);
  }

  lemma NextDelivery(cfg: Config, snd: Sender, l: NetLog, m: nat, now: U64)
    requires cfg.sampleRate > 0 && GoodSender(snd) && m < |snd.blocks| && Complete(snd, l, m)
    requires DeliversNext(cfg, snd, l, Deliver(m, now), m)
    ensures Complete(snd, NetStep(cfg, snd, l, Deliver(m, now)), m + 1)
  {
    DeliverInv(cfg, snd, l, m, now);
    assert Sendable(snd.blocks[m], CHANNELS);
    DeliverIs(cfg, snd, l, m, now);
    PassesIsNotBehind(snd, l, m);
    NextTags(cfg, snd, l, m, now);
  }

  lemma NextTick(cfg: Config, snd: Sender, l: NetLog, m: nat, now: U64)
    requires cfg.sampleRate > 0 && Complete(snd, l, m)
    ensures Complete(snd, NetStep(cfg, snd, l, Tick(now)), m)
  {
    TickInv(cfg, snd, l, now);
    if Poll(cfg, l.sys.jb, now).1.Some? {
      assert Carries(l.sys.jb.queue[0], snd, l.queueTags[0]);
      assert (l.playedTags + [l.queueTags[0]]) + l.queueTags[1..] == l.playedTags + l.queueTags;
    }
  }

  /** One event of a perfect network. */
  lemma NextComplete(cfg: Config, snd: Sender, l: NetLog, m: nat, e: NetEvent)
    requires cfg.sampleRate > 0 && GoodSender(snd) && Exists(snd, e) && Complete(snd, l, m)
    requires DeliversNext(cfg, snd, l, e, m)
    ensures Complete(snd, NetStep(cfg, snd, l, e), if e.Deliver? then m + 1 else m)
  {
    match e
    case Deliver(n, now) => NextDelivery(cfg, snd, l, m, now);
    case Tick(now) => NextTick(cfg, snd, l, m, now);
  }

  /** COMPLETENESS.  If the network keeps the order and loses nothing, and no packet finds the queue full
      or its oldest packet behind a timestamp wrap, then the packets played and queued are exactly those
      delivered, each once and in order. */
  lemma {:induction false} PerfectNetworkPlaysAll(cfg: Config, snd: Sender, events: seq<NetEvent>, k: nat)
    requires cfg.sampleRate > 0 && GoodSender(snd) && k <= |events| && AllExist(snd, events)
    requires forall i :: 0 <= i < k ==> PerfectAt(cfg, snd, events, i)
    ensures Complete(snd, NetRun(cfg, snd, events, k), Deliveries(events, k))
    decreases k
  {
    if k > 0 {
      PerfectNetworkPlaysAll(cfg, snd, events, k - 1);
      assert Exists(snd, events[k - 1]) && PerfectAt(cfg, snd, events, k - 1);
      NextComplete(cfg, snd, NetRun(cfg, snd, events, k - 1), Deliveries(events, k - 1), events[k - 1]);
    }
  }
}
