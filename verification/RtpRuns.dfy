/** Whole runs of the packetizer and the depacketizer: numbering, round trips, and loss accounting
    across the wrap of the 16-bit sequence number. */
module RtpRuns {
  import opened Words
  import opened Rtp

  // ---------------------------------------------------------------------------------------------
  // Sending a run of blocks
  // ---------------------------------------------------------------------------------------------

  /** Interleaved samples and the number of frames they make. */
  datatype Block = Block(frames: nat, samples: seq<I32>)

  /** Whole frames, and small enough for the packetizer's 32-bit sizes. */
  ghost predicate Sendable(block: Block, channels: nat) {
    && 0 < block.frames < TWO32
    && 0 < |block.samples| == block.frames * channels
    && 3 * |block.samples| < TWO32
  }

  ghost predicate AllSendable(blocks: seq<Block>, channels: nat) {
    forall n {:trigger Sendable(blocks[n], channels)} :: 0 <= n < |blocks| ==> Sendable(blocks[n], channels)
  }

  function FramesBefore(blocks: seq<Block>, n: nat): nat
    requires n <= |blocks|
  {
    if n == 0 then 0 else FramesBefore(blocks, n - 1) + blocks[n - 1].frames
  }

  /** Packet n of a run: sequence s0 + n modulo 2^16, timestamp t0 + the frames sent before modulo 2^32. */
  function PacketAt(ssrc: U32, s0: U16, t0: U32, blocks: seq<Block>, n: nat): seq<U8>
    requires n < |blocks|
  {
    Packet(ssrc, (s0 + n) % TWO16, (t0 + FramesBefore(blocks, n)) % TWO32, blocks[n].samples)
  }

  method SendOne(tx: RTPPacketizer, block: Block) returns (packet: seq<U8>)
    requires tx.channels > 0 && Sendable(block, tx.channels)
    modifies tx
    ensures packet == Packet(tx.ssrc, old(tx.sequence), old(tx.timestamp), block.samples)
    ensures tx.sequence == (old(tx.sequence) + 1) % TWO16
    ensures tx.timestamp == (old(tx.timestamp) + block.frames) % TWO32
  {
    var n := |block.samples|;
    var samples := new I32[n](i requires 0 <= i < n => block.samples[i]);
    assert samples[..n] == block.samples;
    packet := tx.CreatePacket(samples, block.frames);
  }

  method SendAll(tx: RTPPacketizer, blocks: seq<Block>) returns (packets: seq<seq<U8>>)
    requires AllSendable(blocks, tx.channels) && tx.channels > 0
    modifies tx
    ensures |packets| == |blocks|
    ensures forall n :: 0 <= n < |blocks| ==>
      packets[n] == PacketAt(tx.ssrc, old(tx.sequence), old(tx.timestamp), blocks, n)
    ensures tx.sequence == (old(tx.sequence) + |blocks|) % TWO16
    ensures tx.timestamp == (old(tx.timestamp) + FramesBefore(blocks, |blocks|)) % TWO32
  {
    ghost var s0, t0 := tx.sequence, tx.timestamp;
    packets := [];
    for n := 0 to |blocks|
      invariant |packets| == n
      invariant tx.sequence == (s0 + n) % TWO16
      invariant tx.timestamp == (t0 + FramesBefore(blocks, n)) % TWO32
      invariant forall i :: 0 <= i < n ==> packets[i] == PacketAt(tx.ssrc, s0, t0, blocks, i)
    {
      assert Sendable(blocks[n], tx.channels);
      var packet := SendOne(tx, blocks[n]);
      ModStep(s0 + n, 1, TWO16);
      ModStep(t0 + FramesBefore(blocks, n), blocks[n].frames, TWO32);
      packets := packets + [packet];
    }
  }

  // ---------------------------------------------------------------------------------------------
  // Receiving a run of packets
  // ---------------------------------------------------------------------------------------------

  datatype Received = Received(st: RxState, outputs: seq<Parsed>)

  /** Feeding the first n packets to a depacketizer. */
  function ReceiveFirst(st: RxState, packets: seq<seq<U8>>, channels: nat, n: nat): (r: Received)
    requires channels > 0 && n <= |packets|
    ensures |r.outputs| == n
  {
    if n == 0 then Received(st, [])
    else
      var before := ReceiveFirst(st, packets, channels, n - 1);
      var p := Parse(before.st, packets[n - 1], channels);
      Received(p.st, before.outputs + [p])
  }

  /** The block came back with all its frames, low 8 bits cleared. */
  ghost predicate Returns(p: Parsed, block: Block) {
    p.frames == block.frames && p.samples == TruncatedAll(block.samples)
  }

  /** Packet i of a run whose timestamps are given. */
  ghost predicate Numbered(packets: seq<seq<U8>>, ssrc: U32, s0: U16, timestamps: seq<U32>,
                           blocks: seq<Block>, i: nat)
    requires i < |packets| == |timestamps| == |blocks|
  {
    packets[i] == Packet(ssrc, (s0 + i) % TWO16, timestamps[i], blocks[i].samples)
  }

  ghost predicate InOrder(st: RxState, s0: U16, n: nat) {
    && st.packetLoss == 0
    && st.first == (n == 0)
    && (n > 0 ==> st.lastSequence == (s0 + n - 1) % TWO16)
  }

  /** The first n packets came back. */
  ghost predicate AllReturned(r: Received, s0: U16, blocks: seq<Block>, n: nat)
    requires n <= |blocks|
  {
    match r
    case Received(st, outputs) =>
      && InOrder(st, s0, n)
      && |outputs| == n
      && forall i {:trigger Returns(outputs[i], blocks[i])} :: 0 <= i < n ==> Returns(outputs[i], blocks[i])
  }

  /** Two numbers at most half the number space apart. */
  predicate Near(u: int, last: int) {
    -0x8000 <= u - last < 0x8000
  }

  /** For nearby numbers the 16-bit difference is the true one. */
  lemma DeltaIsTrue(u: int, last: int)
    requires Near(u, last)
    ensures SeqDelta(u % TWO16, last % TWO16) == u - last
  {
    var d := u - last;
    var q := u / TWO16 - last / TWO16;
    assert u % TWO16 - last % TWO16 == d - q * TWO16;
    ModShift(d, TWO16, -q);
  }

  /** The packet that follows the last one in order is decoded and counts no loss. */
  lemma NextInOrder(st: RxState, ssrc: U32, u: int, timestamp: U32, block: Block, channels: nat)
    requires channels > 0 && Sendable(block, channels)
    requires st.first || st.lastSequence == (u - 1) % TWO16
    ensures Parse(st, Packet(ssrc, u % TWO16, timestamp, block.samples), channels) ==
      Parsed(RxState(false, u % TWO16, timestamp, st.packetLoss), block.frames, TruncatedAll(block.samples))
  {
    if !st.first {
      DeltaIsTrue(u, u - 1);
    }
    PacketRoundTrip(st, ssrc, u % TWO16, timestamp, block.samples, block.frames, channels);
  }

  lemma StepReturns(r: Received, ssrc: U32, s0: U16, timestamp: U32, blocks: seq<Block>, channels: nat,
                    packet: seq<U8>, n: nat)
    requires channels > 0 && n < |blocks| && Sendable(blocks[n], channels)
    requires AllReturned(r, s0, blocks, n)
    requires packet == Packet(ssrc, (s0 + n) % TWO16, timestamp, blocks[n].samples)
    ensures var p := Parse(r.st, packet, channels);
      AllReturned(Received(p.st, r.outputs + [p]), s0, blocks, n + 1)
  {
    NextInOrder(r.st, ssrc, s0 + n, timestamp, blocks[n], channels);
    var p := Parse(r.st, packet, channels);
    forall i | 0 <= i < n + 1
      ensures Returns((r.outputs + [p])[i], blocks[i])
    {
      if i < n {
        assert Returns(r.outputs[i], blocks[i]);
      }
    }
  }

  ghost predicate AllNumbered(packets: seq<seq<U8>>, ssrc: U32, s0: U16, timestamps: seq<U32>, blocks: seq<Block>)
    requires |packets| == |timestamps| == |blocks|
  {
    forall i {:trigger Numbered(packets, ssrc, s0, timestamps, blocks, i)} :: 0 <= i < |blocks| ==>
      Numbered(packets, ssrc, s0, timestamps, blocks, i)
  }

  lemma NumberedStep(ssrc: U32, s0: U16, timestamps: seq<U32>, blocks: seq<Block>, channels: nat,
                     packets: seq<seq<U8>>, n: nat)
    requires channels > 0 && AllSendable(blocks, channels) && |packets| == |blocks| == |timestamps| && n < |blocks|
    requires AllNumbered(packets, ssrc, s0, timestamps, blocks)
    requires AllReturned(ReceiveFirst(RX_INITIAL, packets, channels, n), s0, blocks, n)
    ensures AllReturned(ReceiveFirst(RX_INITIAL, packets, channels, n + 1), s0, blocks, n + 1)
  {
    assert Sendable(blocks[n], channels) && Numbered(packets, ssrc, s0, timestamps, blocks, n);
    StepReturns(ReceiveFirst(RX_INITIAL, packets, channels, n), ssrc, s0, timestamps[n], blocks, channels,
                packets[n], n);
  }

  lemma {:induction false} NumberedRoundTrip(ssrc: U32, s0: U16, timestamps: seq<U32>, blocks: seq<Block>,
                                             channels: nat, packets: seq<seq<U8>>, n: nat)
    requires channels > 0 && AllSendable(blocks, channels)
    requires |packets| == |blocks| == |timestamps| && n <= |blocks|
    requires AllNumbered(packets, ssrc, s0, timestamps, blocks)
    ensures AllReturned(ReceiveFirst(RX_INITIAL, packets, channels, n), s0, blocks, n)
    decreases n
  {
    if n > 0 {
      NumberedRoundTrip(ssrc, s0, timestamps, blocks, channels, packets, n - 1);
      NumberedStep(ssrc, s0, timestamps, blocks, channels, packets, n - 1);
    }
  }

  /** ROUND TRIP.  A depacketizer fed a run in order returns every block, low 8 bits cleared, and counts
      no loss. */
  lemma InOrderRoundTrip(ssrc: U32, s0: U16, t0: U32, blocks: seq<Block>, channels: nat,
                         packets: seq<seq<U8>>)
    requires channels > 0 && AllSendable(blocks, channels) && |packets| == |blocks|
    requires forall i :: 0 <= i < |blocks| ==> packets[i] == PacketAt(ssrc, s0, t0, blocks, i)
    ensures AllReturned(ReceiveFirst(RX_INITIAL, packets, channels, |packets|), s0, blocks, |blocks|)
  {
    var timestamps := seq(|blocks|, i requires 0 <= i < |blocks| => (t0 + FramesBefore(blocks, i)) % TWO32);
    forall i | 0 <= i < |blocks|
      ensures Numbered(packets, ssrc, s0, timestamps, blocks, i)
    {
      assert packets[i] == PacketAt(ssrc, s0, t0, blocks, i);
    }
    NumberedRoundTrip(ssrc, s0, timestamps, blocks, channels, packets, |packets|);
  }

  // ---------------------------------------------------------------------------------------------
  // Loss accounting
  // ---------------------------------------------------------------------------------------------

  datatype Arrival = Arrival(number: int, timestamp: U32)

  /** The receiver after the first n arrivals, with the unwrapped numbers that passed the check. */
  function CheckFirst(arrivals: seq<Arrival>, n: nat): (RxState, seq<int>)
    requires n <= |arrivals|
  {
    if n == 0 then (RX_INITIAL, [])
    else
      var (st, passed) := CheckFirst(arrivals, n - 1);
      var a := arrivals[n - 1];
      if PassesCheck(st, a.number % TWO16) then (Track(st, a.number % TWO16, a.timestamp), passed + [a.number])
      else (st, passed)
  }

  /** Arrival i is near the last number that passed before it. */
  ghost predicate NearLast(arrivals: seq<Arrival>, i: nat)
    requires i < |arrivals|
  {
    var passed := CheckFirst(arrivals, i).1;
    passed != [] ==> Near(arrivals[i].number, passed[|passed| - 1])
  }

  ghost predicate AllNear(arrivals: seq<Arrival>) {
    forall i :: 0 <= i < |arrivals| ==> NearLast(arrivals, i)
  }

  ghost predicate NonDecreasing(s: seq<int>) {
    forall i, j :: 0 <= i <= j < |s| ==> s[i] <= s[j]
  }

  function Members(s: seq<int>): set<int> {
    set x | x in s
  }

  /** The state agrees with the numbers that passed: they are in order, and their span, counted without
      wrapping, is the number of different packets among them plus the loss counter, modulo 2^32. */
  ghost predicate Accounted(st: RxState, passed: seq<int>) {
    && st.first == (passed == [])
    && NonDecreasing(passed)
    && (passed == [] ==> st.packetLoss == 0)
    && (passed != [] ==>
          && st.lastSequence == passed[|passed| - 1] % TWO16
          && (passed[|passed| - 1] - passed[0] + 1 - |Members(passed)|) % TWO32 == st.packetLoss)
  }

  lemma MembersGrow(s: seq<int>, u: int)
    requires s != [] && NonDecreasing(s) && u >= s[|s| - 1]
    ensures |Members(s + [u])| == |Members(s)| + (if u == s[|s| - 1] then 0 else 1)
  {
    assert Members(s + [u]) == Members(s) + {u};
    if u != s[|s| - 1] {
      assert u !in s;
    }
  }

  lemma PassedAccounted(st: RxState, passed: seq<int>, u: int, timestamp: U32)
    requires Accounted(st, passed)
    requires passed != [] ==> u >= passed[|passed| - 1] && Near(u, passed[|passed| - 1])
    ensures Accounted(Track(st, u % TWO16, timestamp), passed + [u])
  {
    if passed == [] {
      assert Members(passed + [u]) == {u};
    } else {
      var last := passed[|passed| - 1];
      DeltaIsTrue(u, last);
      MembersGrow(passed, u);
      ModStep(last - passed[0] + 1 - |Members(passed)|, u - last - 1, TWO32);
    }
  }

  /** Which arrivals the check lets through: exactly those not behind the last one.  The comment in the
      source also promises to ignore duplicates; a repeat of the last packet is let through. */
  lemma PassesIffNotBehind(st: RxState, u: int, last: int)
    requires !st.first && st.lastSequence == last % TWO16 && Near(u, last)
    ensures PassesCheck(st, u % TWO16) <==> u >= last
    ensures u == last ==> PassesCheck(st, u % TWO16)
  {
    DeltaIsTrue(u, last);
  }

  /** CONSERVATION.  However packets are lost, repeated and reordered, the counter accounts for exactly
      the numbers missing from the span received. */
  lemma {:induction false} LossConservation(arrivals: seq<Arrival>, n: nat)
    requires n <= |arrivals| && AllNear(arrivals)
    ensures Accounted(CheckFirst(arrivals, n).0, CheckFirst(arrivals, n).1)
    decreases n
  {
    if n > 0 {
      LossConservation(arrivals, n - 1);
      var (st, passed) := CheckFirst(arrivals, n - 1);
      assert NearLast(arrivals, n - 1);
      var a := arrivals[n - 1];
      if passed != [] {
        PassesIffNotBehind(st, a.number, passed[|passed| - 1]);
      }
      if PassesCheck(st, a.number % TWO16) {
        PassedAccounted(st, passed, a.number, a.timestamp);
      }
    }
  }
}
