/** RTP packets with L24 payload (RFC 3550 section 5.1, RFC 3190 section 4): the codec, the header, the
    packetizer and the depacketizer. */
module Rtp {
  import opened Words

  const HEADER_SIZE := 12
  const PAYLOAD_TYPE_L24 := 96

  // ---------------------------------------------------------------------------------------------
  // L24 samples
  // ---------------------------------------------------------------------------------------------

  /** Byte i of the encoding.  Dividing by a power of two is C's arithmetic shift, also below zero. */
  function L24Byte(val: I32, i: nat): U8
    requires i < 3
  {
    var v := val / 0x100;
    if i == 0 then v / 0x1_0000 % 0x100
    else if i == 1 then v / 0x100 % 0x100
    else v % 0x100
  }

  function L24ToInt32(b0: U8, b1: U8, b2: U8): I32 {
    var val := b0 * 0x1_0000 + b1 * 0x100 + b2;
    var extended := if val >= 0x80_0000 then val - 0x100_0000 else val;
    extended * 0x100
  }

  /** The sample with its low 8 bits cleared: the nearest multiple of 256 that is not above it. */
  function Truncated(val: I32): I32 {
    val - val % 0x100
  }

  function TruncatedAll(samples: seq<I32>): seq<I32> {
    seq(|samples|, i requires 0 <= i < |samples| => Truncated(samples[i]))
  }

  /** Most significant byte first, the bytes are the upper 24 bits of the sample. */
  lemma L24IsBigEndian(val: I32)
    ensures L24Byte(val, 0) * 0x1_0000 + L24Byte(val, 1) * 0x100 + L24Byte(val, 2) == val / 0x100 % 0x100_0000
  {
    var v := val / 0x100;
    ModSplit(v, 0x100, 0x100);
    ModSplit(v, 0x1_0000, 0x100);
  }

  /** Reading the top bit of 24 as the sign gives a 24-bit number back. */
  lemma SignExtended(v: int)
    requires -0x80_0000 <= v < 0x80_0000
    ensures var low := v % 0x100_0000;
      v == if low >= 0x80_0000 then low - 0x100_0000 else low
  {
    if v >= 0 {
      DivModUnique(v, 0x100_0000, 0, v);
    } else {
      DivModUnique(v, 0x100_0000, -1, v + 0x100_0000);
    }
  }

  lemma L24RoundTrip(val: I32)
    ensures L24ToInt32(L24Byte(val, 0), L24Byte(val, 1), L24Byte(val, 2)) == Truncated(val)
  {
    L24IsBigEndian(val);
    SignExtended(val / 0x100);
  }

  /** Every three bytes are the encoding of the sample they decode to. */
  lemma L24BytesRoundTrip(b0: U8, b1: U8, b2: U8)
    ensures var val := L24ToInt32(b0, b1, b2);
      L24Byte(val, 0) == b0 && L24Byte(val, 1) == b1 && L24Byte(val, 2) == b2
  {
    var val := b0 * 0x1_0000 + b1 * 0x100 + b2;
    var v := if val >= 0x80_0000 then val - 0x100_0000 else val;
    var top := if val >= 0x80_0000 then b0 - 0x100 else b0;
    assert v / 0x100 == top * 0x100 + b1;
    assert v / 0x1_0000 == top;
  }

  method Int32ToL24(val: I32, l24: array<U8>, at: nat)
    requires at + 3 <= l24.Length
    modifies l24
    ensures forall j :: 0 <= j < l24.Length ==>
      l24[j] == if at <= j < at + 3 then L24Byte(val, j - at) else old(l24[j])
  {
    var v := val / 0x100;
    l24[at] := v / 0x1_0000 % 0x100;
    l24[at + 1] := v / 0x100 % 0x100;
    l24[at + 2] := v % 0x100;
  }

  // ---------------------------------------------------------------------------------------------
  // Header fields
  // ---------------------------------------------------------------------------------------------

  function SetVersion(vpxcc: bv8, v: bv8): bv8 { (vpxcc & 0x3F) | (v << 6) }
  function SetPadding(vpxcc: bv8, p: bool): bv8 { (vpxcc & 0xDF) | (if p then 0x20 else 0) }
  function SetExtension(vpxcc: bv8, x: bool): bv8 { (vpxcc & 0xEF) | (if x then 0x10 else 0) }
  function SetCSRCCount(vpxcc: bv8, cc: bv8): bv8 { (vpxcc & 0xF0) | (cc & 0x0F) }
  function SetMarker(mpt: bv8, m: bool): bv8 { (mpt & 0x7F) | (if m then 0x80 else 0) }
  function SetPayloadType(mpt: bv8, pt: bv8): bv8 { (mpt & 0x80) | (pt & 0x7F) }

  function GetVersion(vpxcc: bv8): bv8 { (vpxcc >> 6) & 0x03 }
  predicate GetPadding(vpxcc: bv8) { (vpxcc & 0x20) != 0 }
  predicate GetExtension(vpxcc: bv8) { (vpxcc & 0x10) != 0 }
  function GetCSRCCount(vpxcc: bv8): bv8 { vpxcc & 0x0F }
  predicate GetMarker(mpt: bv8) { (mpt & 0x80) != 0 }
  function GetPayloadType(mpt: bv8): bv8 { mpt & 0x7F }

  /** Each setter sets its own field, whatever the byte held, and leaves the byte's other fields alone. */
  lemma SetVersionOnly(b: bv8, v: bv8)
    requires v < 4
    ensures GetVersion(SetVersion(b, v)) == v
    ensures GetPadding(SetVersion(b, v)) == GetPadding(b)
    ensures GetExtension(SetVersion(b, v)) == GetExtension(b)
    ensures GetCSRCCount(SetVersion(b, v)) == GetCSRCCount(b)
  {
  }

  lemma SetFlagsOnly(b: bv8, flag: bool)
    ensures var b' := SetPadding(b, flag);
      GetVersion(b') == GetVersion(b) && GetPadding(b') == flag && GetExtension(b') == GetExtension(b)
      && GetCSRCCount(b') == GetCSRCCount(b)
    ensures var b' := SetExtension(b, flag);
      GetVersion(b') == GetVersion(b) && GetPadding(b') == GetPadding(b) && GetExtension(b') == flag
      && GetCSRCCount(b') == GetCSRCCount(b)
    ensures GetMarker(SetMarker(b, flag)) == flag && GetPayloadType(SetMarker(b, flag)) == GetPayloadType(b)
  {
  }

  lemma SetNumbersOnly(b: bv8, cc: bv8, pt: bv8)
    requires cc < 16 && pt < 128
    ensures var b' := SetCSRCCount(b, cc);
      GetVersion(b') == GetVersion(b) && GetPadding(b') == GetPadding(b) && GetExtension(b') == GetExtension(b)
      && GetCSRCCount(b') == cc
    ensures GetMarker(SetPayloadType(b, pt)) == GetMarker(b) && GetPayloadType(SetPayloadType(b, pt)) == pt
  {
  }

  /** The same fields of a byte taken as a number, and that they are the same for every byte. */
  function VersionOf(vpxcc: U8): nat { vpxcc / 0x40 }
  function CSRCCountOf(vpxcc: U8): nat { vpxcc % 0x10 }
  function PayloadTypeOf(mpt: U8): nat { mpt % 0x80 }

  lemma GetVersionReads(b: bv8)
    ensures GetVersion(b) as int == VersionOf(b as int)
  {
  }

  lemma GetCSRCCountReads(b: bv8)
    ensures GetCSRCCount(b) as int == CSRCCountOf(b as int)
  {
  }

  lemma GetPayloadTypeReads(b: bv8)
    ensures GetPayloadType(b) as int == PayloadTypeOf(b as int)
  {
  }

  method ToBits(x: U8) returns (b: bv8)
    ensures b as int == x % TWO8
  {
    b := x as bv8;
  }

  /** The bit-level getters, applied to a byte of a received packet. */
  method ReadVersion(vpxcc: U8) returns (v: nat)
    ensures v == VersionOf(vpxcc)
  {
    var b := ToBits(vpxcc);
    DivModUnique(vpxcc, TWO8, 0, vpxcc);
    GetVersionReads(b);
    v := GetVersion(b) as int;
  }

  method ReadCSRCCount(vpxcc: U8) returns (cc: nat)
    ensures cc == CSRCCountOf(vpxcc)
  {
    var b := ToBits(vpxcc);
    DivModUnique(vpxcc, TWO8, 0, vpxcc);
    GetCSRCCountReads(b);
    cc := GetCSRCCount(b) as int;
  }

  method ReadPayloadType(mpt: U8) returns (pt: nat)
    ensures pt == PayloadTypeOf(mpt)
  {
    var b := ToBits(mpt);
    DivModUnique(mpt, TWO8, 0, mpt);
    GetPayloadTypeReads(b);
    pt := GetPayloadType(b) as int;
  }

  /** The first two bytes of every packet sent, after all setters. */
  lemma FirstBytes()
    ensures SetCSRCCount(SetExtension(SetPadding(SetVersion(0, 2), false), false), 0) as int == 0x80
    ensures SetPayloadType(SetMarker(0, false), 96) as int == 0x60
  {
  }

  /** Byte i of the network order of a 16-bit or 32-bit word. */
  function Byte16(x: U16, i: nat): U8
    requires i < 2
  {
    if i == 0 then x / 0x100 else x % 0x100
  }

  function Byte32(x: U32, i: nat): U8
    requires i < 4
  {
    if i == 0 then x / 0x100_0000
    else if i == 1 then x / 0x1_0000 % 0x100
    else if i == 2 then x / 0x100 % 0x100
    else x % 0x100
  }

  function Word16(b0: U8, b1: U8): U16 {
    b0 * 0x100 + b1
  }

  function Word32(b0: U8, b1: U8, b2: U8, b3: U8): U32 {
    b0 * 0x100_0000 + b1 * 0x1_0000 + b2 * 0x100 + b3
  }

  lemma Word32RoundTrip(x: U32)
    ensures Word32(Byte32(x, 0), Byte32(x, 1), Byte32(x, 2), Byte32(x, 3)) == x
  {
    var h := x / 0x100;
    assert x == h * 0x100 + x % 0x100;
    assert h == h / 0x100 * 0x100 + h % 0x100;
    assert h / 0x100 == x / 0x1_0000;
  }

  // ---------------------------------------------------------------------------------------------
  // Packets as values
  // ---------------------------------------------------------------------------------------------

  /** Version 2, no padding, no extension, no CSRC, no marker, payload type 96; the words big-endian. */
  function Header(ssrc: U32, sequence: U16, timestamp: U32): seq<U8> {
    [0x80, 0x60,
     Byte16(sequence, 0), Byte16(sequence, 1),
     Byte32(timestamp, 0), Byte32(timestamp, 1), Byte32(timestamp, 2), Byte32(timestamp, 3),
     Byte32(ssrc, 0), Byte32(ssrc, 1), Byte32(ssrc, 2), Byte32(ssrc, 3)]
  }

  function Triple(val: I32): seq<U8> {
    [L24Byte(val, 0), L24Byte(val, 1), L24Byte(val, 2)]
  }

  function Payload(samples: seq<I32>): (bytes: seq<U8>)
    ensures |bytes| == 3 * |samples|
  {
    if samples == [] then []
    else Payload(samples[..|samples| - 1]) + Triple(samples[|samples| - 1])
  }

  function Packet(ssrc: U32, sequence: U16, timestamp: U32, samples: seq<I32>): seq<U8> {
    Header(ssrc, sequence, timestamp) + Payload(samples)
  }

  /** What the receiver keeps between packets. */
  datatype RxState = RxState(first: bool, lastSequence: U16, lastTimestamp: U32, packetLoss: U32)

  const RX_INITIAL := RxState(true, 0, 0, 0)

  /** The 16-bit difference, read as a signed number. */
  function SeqDelta(sequence: U16, last: U16): int {
    var d := (sequence - last) % TWO16;
    if d >= 0x8000 then d - TWO16 else d
  }

  /** The sequence check: anything behind the last accepted number is dropped.  An exact repeat of the
      last number is not. */
  predicate PassesCheck(st: RxState, sequence: U16) {
    st.first || SeqDelta(sequence, st.lastSequence) >= 0
  }

  function Track(st: RxState, sequence: U16, timestamp: U32): RxState {
    var gap := if st.first then 0 else SeqDelta(sequence, st.lastSequence) - 1;
    RxState(false, sequence, timestamp,
      if gap > 0 then (st.packetLoss + gap) % TWO32 else st.packetLoss)
  }

  datatype Parsed = Parsed(st: RxState, frames: U32, samples: seq<I32>)

  /** The fixed header and four bytes for each contributing source. */
  function HeaderSize(vpxcc: U8): nat {
    HEADER_SIZE + CSRCCountOf(vpxcc) * 4
  }

  /** Number of frames in a payload, or 0 if it is empty or not a whole number of frames. */
  function FrameCount(payloadSize: int, channels: nat): U32
    requires channels > 0
  {
    if payloadSize <= 0 || payloadSize % (channels * 3) != 0 then 0
    else payloadSize / (channels * 3) % TWO32
  }

  lemma FramesFit(payloadSize: nat, channels: nat)
    requires channels > 0
    ensures 3 * (FrameCount(payloadSize, channels) * channels) <= payloadSize
  {
    var f, b := FrameCount(payloadSize, channels), channels * 3;
    if f > 0 {
      var q := payloadSize / b;
      assert q * b + payloadSize % b == payloadSize;
      assert f <= q;
      MulMonotone(f, q, b);
      assert f * b == 3 * (f * channels);
    }
  }

  function DecodeSamples(bytes: seq<U8>, at: nat, n: nat): (samples: seq<I32>)
    requires at + 3 * n <= |bytes|
    ensures |samples| == n
  {
    if n == 0 then []
    else
      var j := at + 3 * (n - 1);
      DecodeSamples(bytes, at, n - 1) + [L24ToInt32(bytes[j], bytes[j + 1], bytes[j + 2])]
  }

  function Parse(st: RxState, bytes: seq<U8>, channels: nat): Parsed
    requires channels > 0
  {
    if |bytes| < HEADER_SIZE || VersionOf(bytes[0]) != 2 || PayloadTypeOf(bytes[1]) != PAYLOAD_TYPE_L24 then
      Parsed(st, 0, [])
    else
      var sequence := Word16(bytes[2], bytes[3]);
      if !PassesCheck(st, sequence) then Parsed(st, 0, [])
      else
        var st' := Track(st, sequence, Word32(bytes[4], bytes[5], bytes[6], bytes[7]));
        var headerSize := HeaderSize(bytes[0]);
        if |bytes| <= headerSize then Parsed(st', 0, [])
        else
          var frames := FrameCount(|bytes| - headerSize, channels);
          FramesFit(|bytes| - headerSize, channels);
          Parsed(st', frames, DecodeSamples(bytes, headerSize, frames * channels))
  }

  lemma InNetworkOrder(x: U32)
    ensures Byte32(x, 0) * 0x100_0000 + Byte32(x, 1) * 0x1_0000 + Byte32(x, 2) * 0x100 + Byte32(x, 3) == x
  {
    Word32RoundTrip(x);
  }

  /** A header is 0x80, 0x60, and the three numbers with their most significant bytes first. */
  lemma HeaderBytes(ssrc: U32, sequence: U16, timestamp: U32)
    ensures var h := Header(ssrc, sequence, timestamp);
      && |h| == 12 && h[0] == 0x80 && h[1] == 0x60
      && (h[2] as int) * 0x100 + h[3] == sequence
      && (h[4] as int) * 0x100_0000 + (h[5] as int) * 0x1_0000 + (h[6] as int) * 0x100 + h[7] == timestamp
      && (h[8] as int) * 0x100_0000 + (h[9] as int) * 0x1_0000 + (h[10] as int) * 0x100 + h[11] == ssrc
  {
    InNetworkOrder(timestamp);
    InNetworkOrder(ssrc);
  }

  /** Reading a header back gives the fields it was made from. */
  lemma HeaderFields(ssrc: U32, sequence: U16, timestamp: U32)
    ensures var h := Header(ssrc, sequence, timestamp);
      && VersionOf(h[0]) == 2 && CSRCCountOf(h[0]) == 0
      && !GetPadding(h[0] as bv8) && !GetExtension(h[0] as bv8) && !GetMarker(h[1] as bv8)
      && PayloadTypeOf(h[1]) == PAYLOAD_TYPE_L24
      && Word16(h[2], h[3]) == sequence
      && Word32(h[4], h[5], h[6], h[7]) == timestamp
      && Word32(h[8], h[9], h[10], h[11]) == ssrc
  {
    Word32RoundTrip(timestamp);
    Word32RoundTrip(ssrc);
  }

  /** Bytes 3 k to 3 k + 2 of a payload are the upper 24 bits of sample k, most significant first. */
  lemma {:induction false} PayloadAt(samples: seq<I32>, k: nat)
    requires k < |samples|
    ensures var bytes := Payload(samples);
      (bytes[3 * k] as int) * 0x1_0000 + (bytes[3 * k + 1] as int) * 0x100 + bytes[3 * k + 2]
        == samples[k] / 0x100 % 0x100_0000
    decreases |samples|
  {
    var n := |samples| - 1;
    if k < n {
      PayloadAt(samples[..n], k);
    } else {
      L24IsBigEndian(samples[n]);
    }
  }

  /** Sample k of a decoded payload is the 24-bit number at its place, taken as signed, times 256. */
  lemma {:induction false} DecodeAt(bytes: seq<U8>, at: nat, n: nat, k: nat)
    requires at + 3 * n <= |bytes| && k < n
    ensures var j := at + 3 * k;
      var v := (bytes[j] as int) * 0x1_0000 + (bytes[j + 1] as int) * 0x100 + bytes[j + 2];
      DecodeSamples(bytes, at, n)[k] == (if v >= 0x80_0000 then v - 0x100_0000 else v) * 0x100
    decreases n
  {
    if k < n - 1 {
      DecodeAt(bytes, at, n - 1, k);
    }
  }

  lemma DeltaSign(sequence: U16, last: U16)
    ensures SeqDelta(sequence, last) >= 0 <==> (sequence - last) % 0x1_0000 < 0x8000
  {
  }

  /** WHAT IS ACCEPTED.  Nothing changes and nothing is decoded unless the datagram has a whole header, says
      version 2 and payload type 96, and is not behind the last one; otherwise its numbers are recorded, and
      the packets between the last one and it are counted as lost. */
  lemma AcceptedIff(st: RxState, bytes: seq<U8>, channels: nat)
    requires channels > 0
    ensures var accepted :=
        && |bytes| >= 12 && bytes[0] / 64 == 2 && bytes[1] % 128 == 96
        && (st.first || ((bytes[2] as int) * 256 + bytes[3] - st.lastSequence) % 65536 < 32768);
      var p := Parse(st, bytes, channels);
      if accepted then
        var sequence := (bytes[2] as int) * 256 + bytes[3];
        var ahead := (sequence - st.lastSequence) % 65536;
        && !p.st.first && p.st.lastSequence == sequence
        && p.st.lastTimestamp ==
             (bytes[4] as int) * 0x100_0000 + (bytes[5] as int) * 0x1_0000 + (bytes[6] as int) * 0x100 + bytes[7]
        && p.st.packetLoss ==
             if st.first || ahead <= 1 then st.packetLoss else (st.packetLoss + ahead - 1) % 0x1_0000_0000
      else p == Parsed(st, 0, [])
  {
    if |bytes| >= 12 {
      DeltaSign(Word16(bytes[2], bytes[3]), st.lastSequence);
    }
  }

  /** Fewer bytes than 2^32 frames take make fewer than 2^32 frames. */
  lemma QuotientFits(payloadSize: nat, b: nat)
    requires 0 < b && payloadSize < TWO32 * b
    ensures payloadSize / b < TWO32
  {
    var q := payloadSize / b;
    assert payloadSize == q * b + payloadSize % b;
    if q >= TWO32 {
      MulMonotone(TWO32, q, b);
    }
  }

  lemma FewFrames(payloadSize: int, channels: nat, k: nat)
    requires channels > 0 && 0 < k && FrameCount(payloadSize, channels) == k
    requires payloadSize < TWO32 * (channels * 3)
    ensures payloadSize == k * (channels * 3)
  {
    var q := payloadSize / (channels * 3);
    QuotientFits(payloadSize, channels * 3);
    DivModUnique(q, TWO32, 0, q);
  }

  lemma FramesOf(payloadSize: int, channels: nat, k: nat)
    requires channels > 0 && 0 < k && payloadSize == k * (channels * 3)
    ensures FrameCount(payloadSize, channels) == k % TWO32
  {
    MulAtLeast(k, channels * 3);
    DivModUnique(payloadSize, channels * 3, k, 0);
  }

  lemma WholeFrames(payloadSize: int, channels: nat, k: nat)
    requires channels > 0 && 0 < k
    ensures payloadSize == 3 * channels * k ==> FrameCount(payloadSize, channels) == k % 0x1_0000_0000
    ensures payloadSize < 3 * channels * 0x1_0000_0000 && FrameCount(payloadSize, channels) == k ==>
      payloadSize == 3 * channels * k
  {
    var b := channels * 3;
    assert 3 * channels * k == k * b;
    if payloadSize == k * b {
      FramesOf(payloadSize, channels, k);
    } else if payloadSize < 3 * channels * TWO32 && FrameCount(payloadSize, channels) == k {
      FewFrames(payloadSize, channels, k);
    }
  }

  lemma FramesAre(st: RxState, bytes: seq<U8>, channels: nat)
    requires channels > 0
    ensures var accepted :=
        && |bytes| >= 12 && bytes[0] / 64 == 2 && bytes[1] % 128 == 96
        && (st.first || ((bytes[2] as int) * 256 + bytes[3] - st.lastSequence) % 65536 < 32768);
      var p := Parse(st, bytes, channels);
      if accepted then
        var at := 12 + 4 * (bytes[0] % 16);
        && p.frames == FrameCount(|bytes| - at, channels)
        && (p.frames > 0 ==>
              at + 3 * (p.frames * channels) <= |bytes| && p.samples == DecodeSamples(bytes, at, p.frames * channels))
      else p.frames == 0 && p.samples == []
  {
    if |bytes| >= 12 {
      DeltaSign(Word16(bytes[2], bytes[3]), st.lastSequence);
      if |bytes| > HeaderSize(bytes[0]) {
        FramesFit(|bytes| - HeaderSize(bytes[0]), channels);
      }
    }
  }

  /** WHAT IS DECODED.  A datagram decodes to k frames exactly if it is accepted and k whole frames of three
      bytes a channel follow the header and the contributing sources.  (The count is 32-bit; it is exact for
      datagrams of fewer frames than that.) */
  lemma DecodedIff(st: RxState, bytes: seq<U8>, channels: nat, k: nat)
    requires channels > 0 && 0 < k
    ensures var accepted :=
        && |bytes| >= 12 && bytes[0] / 64 == 2 && bytes[1] % 128 == 96
        && (st.first || ((bytes[2] as int) * 256 + bytes[3] - st.lastSequence) % 65536 < 32768);
      var frames := Parse(st, bytes, channels).frames;
      && (accepted && |bytes| - 12 - 4 * (bytes[0] % 16) == 3 * channels * k ==> frames == k % 0x1_0000_0000)
      && (|bytes| < 3 * channels * 0x1_0000_0000 && frames == k ==>
            accepted && |bytes| - 12 - 4 * (bytes[0] % 16) == 3 * channels * k)
  {
    FramesAre(st, bytes, channels);
    if |bytes| >= 12 {
      WholeFrames(|bytes| - 12 - 4 * (bytes[0] % 16), channels, k);
    }
  }

  lemma FrameCountOf(frames: nat, channels: nat)
    requires channels > 0 && 0 < frames < TWO32
    ensures FrameCount(3 * (frames * channels), channels) == frames
  {
    assert 3 * (frames * channels) == frames * (channels * 3);
    MulAtLeast(frames, channels * 3);
    DivModUnique(frames * (channels * 3), channels * 3, frames, 0);
  }

  lemma ParseGoodHeader(st: RxState, h: seq<U8>, payload: seq<U8>, sequence: U16, timestamp: U32, channels: nat)
    requires channels > 0 && |h| == HEADER_SIZE && payload != []
    requires VersionOf(h[0]) == 2 && CSRCCountOf(h[0]) == 0 && PayloadTypeOf(h[1]) == PAYLOAD_TYPE_L24
    requires Word16(h[2], h[3]) == sequence && PassesCheck(st, sequence)
    requires Word32(h[4], h[5], h[6], h[7]) == timestamp
    ensures 3 * (FrameCount(|payload|, channels) * channels) <= |payload|
    ensures var frames := FrameCount(|payload|, channels);
      Parse(st, h + payload, channels) ==
        Parsed(Track(st, sequence, timestamp), frames, DecodeSamples(h + payload, HEADER_SIZE, frames * channels))
  {
    FramesFit(|payload|, channels);
  }

  lemma {:induction false} DecodePrefix(bytes: seq<U8>, more: seq<U8>, at: nat, n: nat)
    requires at + 3 * n <= |bytes|
    ensures DecodeSamples(bytes + more, at, n) == DecodeSamples(bytes, at, n)
    decreases n
  {
    if n > 0 {
      DecodePrefix(bytes, more, at, n - 1);
    }
  }

  lemma {:induction false} PayloadDecodes(header: seq<U8>, samples: seq<I32>)
    ensures DecodeSamples(header + Payload(samples), |header|, |samples|) == TruncatedAll(samples)
    decreases |samples|
  {
    if samples != [] {
      var n := |samples| - 1;
      var start := header + Payload(samples[..n]);
      PayloadDecodes(header, samples[..n]);
      assert header + Payload(samples) == start + Triple(samples[n]);
      DecodePrefix(start, Triple(samples[n]), |header|, n);
      L24RoundTrip(samples[n]);
      assert TruncatedAll(samples) == TruncatedAll(samples[..n]) + [Truncated(samples[n])];
    }
  }

  /** Decoding a created packet gives the frames back, low 8 bits cleared. */
  lemma PacketRoundTrip(st: RxState, ssrc: U32, sequence: U16, timestamp: U32, samples: seq<I32>,
                        frames: nat, channels: nat)
    requires channels > 0 && 0 < frames < TWO32 && |samples| == frames * channels > 0
    requires PassesCheck(st, sequence)
    ensures Parse(st, Packet(ssrc, sequence, timestamp, samples), channels) ==
      Parsed(Track(st, sequence, timestamp), frames, TruncatedAll(samples))
  {
    var header := Header(ssrc, sequence, timestamp);
    HeaderFields(ssrc, sequence, timestamp);
    FrameCountOf(frames, channels);
    PayloadDecodes(header, samples);
    ParseGoodHeader(st, header, Payload(samples), sequence, timestamp, channels);
  }

  /** A datagram of at most 1500 bytes decodes to at most 62 frames of 8 channels, so never to more than
      the 512 samples of the receive and playout buffers. */
  lemma DatagramFits(st: RxState, bytes: seq<U8>)
    requires |bytes| <= 1500
    ensures var p := Parse(st, bytes, 8); p.frames <= 62 && |p.samples| == 8 * p.frames <= 512
  {
    assert forall n: nat :: n <= 1488 ==> FrameCount(n, 8) <= 62;
  }

  // ---------------------------------------------------------------------------------------------
  // The packetizer and the depacketizer
  // ---------------------------------------------------------------------------------------------

  lemma RowFits(frame: nat, frames: nat, channels: nat)
    requires frame < frames
    ensures (frame + 1) * channels == frame * channels + channels <= frames * channels
  {
    MulMonotone(frame + 1, frames, channels);
  }

  class RTPPacketizer {
    const ssrc: U32
    const channels: U8
    var sequence: U16
    var timestamp: U32

    constructor (ssrc: U32, channels: U8)
      ensures this.ssrc == ssrc && this.channels == channels && sequence == 0 && timestamp == 0
    {
      this.ssrc := ssrc;
      this.channels := channels;
      sequence := 0;
      timestamp := 0;
    }

    /** The two payload loops. */
    method EncodePayload(samples: array<I32>, frameCount: U32, bytes: array<U8>)
      requires frameCount * channels <= samples.Length
      requires bytes.Length == HEADER_SIZE + 3 * (frameCount * channels)
      modifies bytes
      ensures bytes[..HEADER_SIZE] == old(bytes[..HEADER_SIZE])
      ensures bytes[HEADER_SIZE..] == Payload(samples[..frameCount * channels])
    {
      var payload := HEADER_SIZE;
      ghost var n := 0;  // samples encoded so far
      for frame := 0 to frameCount
        invariant n == frame * channels <= frameCount * channels && payload == HEADER_SIZE + 3 * n
        invariant bytes[..HEADER_SIZE] == old(bytes[..HEADER_SIZE])
        invariant bytes[HEADER_SIZE..payload] == Payload(samples[..n])
      {
        RowFits(frame, frameCount, channels);
        for ch := 0 to channels
          invariant n == frame * channels + ch && payload == HEADER_SIZE + 3 * n
          invariant bytes[..HEADER_SIZE] == old(bytes[..HEADER_SIZE])
          invariant bytes[HEADER_SIZE..payload] == Payload(samples[..n])
        {
          var sample := samples[frame * channels + ch];
          ghost var before := bytes[..];
          Int32ToL24(sample, bytes, payload);
          assert bytes[HEADER_SIZE..payload] == before[HEADER_SIZE..payload];
          assert bytes[HEADER_SIZE..payload + 3] == bytes[HEADER_SIZE..payload] + Triple(sample);
          assert samples[..n + 1][..n] == samples[..n];
          payload := payload + 3;
          n := n + 1;
        }
      }
    }

    /** The header setters, applied to the two zero bytes of a new packet. */
    method SetFlags(first: U8, second: U8) returns (vpxcc: U8, mpt: U8)
      requires first == 0 && second == 0
      ensures vpxcc == 0x80 && mpt == 0x60
    {
      var v, m := first as bv8, second as bv8;
      v := SetVersion(v, 2);
      v := SetPadding(v, false);
      v := SetExtension(v, false);
      v := SetCSRCCount(v, 0);
      m := SetMarker(m, false);
      m := SetPayloadType(m, PAYLOAD_TYPE_L24 as bv8);
      FirstBytes();
      vpxcc, mpt := v as int, m as int;
    }

    method WriteHeader(bytes: array<U8>)
      requires bytes.Length >= HEADER_SIZE && bytes[0] == 0 && bytes[1] == 0
      modifies bytes
      ensures bytes[..HEADER_SIZE] == Header(ssrc, sequence, timestamp)
    {
      var vpxcc, mpt := SetFlags(bytes[0], bytes[1]);
      bytes[0] := vpxcc;
      bytes[1] := mpt;
      bytes[2] := Byte16(sequence, 0);
      bytes[3] := Byte16(sequence, 1);
      bytes[4] := Byte32(timestamp, 0);
      bytes[5] := Byte32(timestamp, 1);
      bytes[6] := Byte32(timestamp, 2);
      bytes[7] := Byte32(timestamp, 3);
      bytes[8] := Byte32(ssrc, 0);
      bytes[9] := Byte32(ssrc, 1);
      bytes[10] := Byte32(ssrc, 2);
      bytes[11] := Byte32(ssrc, 3);
    }

    /** The size computation is 32-bit; a caller must keep the payload below 2^32 bytes. */
    method CreatePacket(samples: array?<I32>, frameCount: U32) returns (packet: seq<U8>)
      requires samples != null ==> frameCount * channels <= samples.Length
      requires frameCount * channels * 3 < TWO32
      modifies this
      ensures samples == null || frameCount == 0 || channels == 0 ==>
        packet == [] && sequence == old(sequence) && timestamp == old(timestamp)
      ensures samples != null && frameCount != 0 && channels != 0 ==>
        && packet == Packet(ssrc, old(sequence), old(timestamp), samples[..frameCount * channels])
        && sequence == (old(sequence) + 1) % TWO16
        && timestamp == (old(timestamp) + frameCount) % TWO32
    {
      if samples == null || frameCount == 0 || channels == 0 {
        return [];
      }
      var payloadSize := frameCount * channels * 3;
      var bytes := new U8[HEADER_SIZE + payloadSize](_ => 0);
      WriteHeader(bytes);
      ghost var all := samples[..frameCount * channels];
      EncodePayload(samples, frameCount, bytes);
      packet := bytes[..];
      assert packet == bytes[..HEADER_SIZE] + bytes[HEADER_SIZE..];
      sequence := (sequence + 1) % TWO16;
      timestamp := (timestamp + frameCount) % TWO32;
    }
  }

  class RTPDepacketizer {
    const channels: U8
    var firstPacket: bool
    var lastSequence: U16
    var lastTimestamp: U32
    var packetLoss: U32

    function State(): RxState
      reads this
    {
      RxState(firstPacket, lastSequence, lastTimestamp, packetLoss)
    }

    constructor (channels: U8)
      ensures this.channels == channels && State() == RX_INITIAL
    {
      this.channels := channels;
      firstPacket := true;
      lastSequence := 0;
      lastTimestamp := 0;
      packetLoss := 0;
    }

    /** The gap test, and the bookkeeping of a packet that passes it. */
    method CheckSequence(sequence: U16, timestamp: U32) returns (accepted: bool)
      modifies this
      ensures accepted == PassesCheck(old(State()), sequence)
      ensures State() == if accepted then Track(old(State()), sequence, timestamp) else old(State())
    {
      if !firstPacket {
        var seqDelta := SeqDelta(sequence, lastSequence);
        if seqDelta > 1 {
          packetLoss := (packetLoss + (seqDelta - 1)) % TWO32;
        } else if seqDelta < 0 {
          return false;
        }
      }
      lastSequence := sequence;
      lastTimestamp := timestamp;
      firstPacket := false;
      return true;
    }

    /** The two payload loops. */
    method DecodePayload(packet: array<U8>, packetSize: nat, headerSize: nat, frameCount: U32,
                         outSamples: array<I32>)
      requires packetSize <= packet.Length && headerSize + 3 * (frameCount * channels) <= packetSize
      requires frameCount * channels <= outSamples.Length
      modifies outSamples
      ensures var n := frameCount * channels;
        && outSamples[..n] == DecodeSamples(packet[..packetSize], headerSize, n)
        && outSamples[n..] == old(outSamples[n..])
    {
      ghost var bytes := packet[..packetSize];
      ghost var total := frameCount * channels;
      var payload := headerSize;
      ghost var n := 0;  // samples decoded so far
      for frame := 0 to frameCount
        invariant n == frame * channels <= total && payload == headerSize + 3 * n
        invariant outSamples[..n] == DecodeSamples(bytes, headerSize, n)
        invariant outSamples[total..] == old(outSamples[total..])
      {
        RowFits(frame, frameCount, channels);
        for ch := 0 to channels
          invariant n == frame * channels + ch && payload == headerSize + 3 * n
          invariant outSamples[..n] == DecodeSamples(bytes, headerSize, n)
          invariant outSamples[total..] == old(outSamples[total..])
        {
          outSamples[frame * channels + ch] :=
            L24ToInt32(packet[payload], packet[payload + 1], packet[payload + 2]);
          assert outSamples[..n + 1] == outSamples[..n] + [outSamples[n]];
          payload := payload + 3;
          n := n + 1;
        }
      }
    }

    /** From the payload size computation on. */
    method ParsePayload(packet: array<U8>, packetSize: nat, outSamples: array<I32>) returns (frames: U32)
      requires channels > 0 && HEADER_SIZE <= packetSize <= packet.Length
      requires FrameCount(packetSize - HeaderSize(packet[0]), channels) * channels <= outSamples.Length
      modifies outSamples
      ensures frames == FrameCount(packetSize - HeaderSize(packet[0]), channels)
      ensures frames > 0 ==> HeaderSize(packet[0]) + 3 * (frames * channels) <= packetSize
      ensures outSamples[..frames * channels] ==
        if frames == 0 then [] else DecodeSamples(packet[..packetSize], HeaderSize(packet[0]), frames * channels)
      ensures outSamples[frames * channels..] == old(outSamples[frames * channels..])
    {
      var csrcCount := ReadCSRCCount(packet[0]);
      var headerSize := HEADER_SIZE + csrcCount * 4;
      if packetSize <= headerSize {
        return 0;
      }
      var payloadSize := packetSize - headerSize;
      var bytesPerFrame := channels * 3;
      if payloadSize % bytesPerFrame != 0 {
        return 0;
      }
      frames := payloadSize / bytesPerFrame % TWO32;
      FramesFit(payloadSize, channels);
      DecodePayload(packet, packetSize, headerSize, frames, outSamples);
    }

    /** The caller's sample buffer has room for every frame the packet holds; with no channels the C++
        code divides by zero. */
    method ParsePacket(packet: array?<U8>, packetSize: nat, outSamples: array?<I32>) returns (frames: U32)
      requires channels > 0
      requires packet != null ==> packetSize <= packet.Length
      requires packet != null && outSamples != null ==>
        |Parse(State(), packet[..packetSize], channels).samples| <= outSamples.Length
      modifies this, outSamples
      ensures packet == null || outSamples == null ==> frames == 0 && State() == old(State())
      ensures packet != null && outSamples != null ==>
        var p := old(Parse(State(), packet[..packetSize], channels));
        && State() == p.st && frames == p.frames
        && |p.samples| <= outSamples.Length
        && outSamples[..|p.samples|] == p.samples
        && outSamples[|p.samples|..] == old(outSamples[|p.samples|..])
    {
      if packet == null || outSamples == null || packetSize < HEADER_SIZE {
        return 0;
      }
      var version := ReadVersion(packet[0]);
      if version != 2 {
        return 0;
      }
      var payloadType := ReadPayloadType(packet[1]);
      if payloadType != PAYLOAD_TYPE_L24 {
        return 0;
      }
      var sequence := Word16(packet[2], packet[3]);
      var timestamp := Word32(packet[4], packet[5], packet[6], packet[7]);
      var accepted := CheckSequence(sequence, timestamp);
      if !accepted {
        return 0;
      }
      frames := ParsePayload(packet, packetSize, outSamples);
    }
  }
}
