/** PTP version 2 messages as bytes (IEEE 1588-2008 clauses 5.3.3, 13.3, 13.6 and 13.8): the common header,
    the timestamp, Sync, Announce, and the answer to a delay request. */
module PtpWire {
  import opened Words

  const NS_PER_SECOND := 1_000_000_000

  const SYNC := 0x0
  const DELAY_REQ := 0x1
  const DELAY_RESP := 0x9
  const ANNOUNCE := 0xB

  const HEADER := 34
  const SYNC_SIZE := 44
  const DELAY_RESP_SIZE := 54
  const ANNOUNCE_SIZE := 64

  // ---------------------------------------------------------------------------------------------
  // Timestamps
  // ---------------------------------------------------------------------------------------------

  datatype PTPTimestamp = PTPTimestamp(seconds: U64, nanoseconds: U32) {
    function ToNanoseconds(): U64 {
      (seconds * NS_PER_SECOND + nanoseconds) % TWO64
    }
  }

  function FromNanoseconds(ns: U64): PTPTimestamp {
    PTPTimestamp(ns / NS_PER_SECOND, ns % NS_PER_SECOND)
  }

  lemma NanosecondsRoundTrip(ns: U64)
    ensures FromNanoseconds(ns).ToNanoseconds() == ns
  {
  }

  /** A timestamp survives the other way exactly if it is normalised and its count fits 64 bits. */
  lemma TimestampRoundTripIff(ts: PTPTimestamp)
    ensures FromNanoseconds(ts.ToNanoseconds()) == ts <==>
      ts.nanoseconds < NS_PER_SECOND && ts.seconds * NS_PER_SECOND + ts.nanoseconds < TWO64
  {
    if ts.nanoseconds < NS_PER_SECOND && ts.seconds * NS_PER_SECOND + ts.nanoseconds < TWO64 {
      DivModUnique(ts.seconds * NS_PER_SECOND + ts.nanoseconds, NS_PER_SECOND, ts.seconds, ts.nanoseconds);
    }
  }

  /** The n low bytes of x, most significant first. */
  function BigEndian(x: nat, n: nat): (b: seq<U8>)
    ensures |b| == n
  {
    if n == 0 then [] else BigEndian(x / 0x100, n - 1) + [x % 0x100]
  }

  function FromBigEndian(b: seq<U8>): nat {
    if b == [] then 0 else FromBigEndian(b[..|b| - 1]) * 0x100 + b[|b| - 1]
  }

  function Limit(n: nat): nat {
    if n == 0 then 1 else Limit(n - 1) * 0x100
  }

  lemma {:induction false} BigEndianRoundTrip(x: nat, n: nat)
    requires x < Limit(n)
    ensures FromBigEndian(BigEndian(x, n)) == x
    decreases n
  {
    if n > 0 {
      BigEndianRoundTrip(x / 0x100, n - 1);
      var b := BigEndian(x, n);
      assert b[..n - 1] == BigEndian(x / 0x100, n - 1);
    }
  }

  /** 48 bits of seconds and 32 bits of nanoseconds. */
  function TimestampBytes(ns: U64): (b: seq<U8>)
    ensures |b| == 10
  {
    BigEndian(ns / NS_PER_SECOND, 6) + BigEndian(ns % NS_PER_SECOND, 4)
  }

  function ReadTimestamp(b: seq<U8>): PTPTimestamp
    requires |b| == 10 && FromBigEndian(b[..6]) < TWO64 && FromBigEndian(b[6..]) < TWO32
  {
    PTPTimestamp(FromBigEndian(b[..6]), FromBigEndian(b[6..]))
  }

  /** WIRE TIMESTAMPS.  Every 64-bit time survives the wire, and the wire form is the PTPTimestamp. */
  lemma TimestampOnTheWire(ns: U64)
    ensures var b := TimestampBytes(ns);
      && FromBigEndian(b[..6]) < TWO64 && FromBigEndian(b[6..]) < TWO32
      && ReadTimestamp(b) == FromNanoseconds(ns)
      && ReadTimestamp(b).ToNanoseconds() == ns
  {
    var s, n := ns / NS_PER_SECOND, ns % NS_PER_SECOND;
    var b := TimestampBytes(ns);
    assert b[..6] == BigEndian(s, 6) && b[6..] == BigEndian(n, 4);
    assert Limit(4) == TWO32 && Limit(6) == TWO16 * TWO32;
    BigEndianRoundTrip(s, 6);
    BigEndianRoundTrip(n, 4);
    NanosecondsRoundTrip(ns);
  }

  function ReadUint16(buffer: seq<U8>, at: nat): U16
    requires at + 2 <= |buffer|
  {
    (buffer[at] as int) * 0x100 + buffer[at + 1]
  }

  /** The bytes of b are at offset `at` of the message. */
  ghost predicate Holds(message: seq<U8>, at: nat, b: seq<U8>) {
    at + |b| <= |message| && message[at..at + |b|] == b
  }

  // ---------------------------------------------------------------------------------------------
  // Messages
  // ---------------------------------------------------------------------------------------------

  lemma Shifts(x: nat)
    ensures x / 0x100 / 0x100 == x / 0x1_0000
    ensures x / 0x1_0000 / 0x100 == x / 0x100_0000
    ensures x / 0x1_0000 / 0x1_0000 == x / 0x1_0000_0000
    ensures x / 0x1_0000 / 0x100_0000 == x / 0x100_0000_0000
  {
    ModSplit(x, 0x100, 0x100);
    ModSplit(x, 0x1_0000, 0x100);
    ModSplit(x, 0x1_0000, 0x1_0000);
    ModSplit(x, 0x1_0000, 0x100_0000);
  }

  lemma FourBytes(x: nat)
    ensures BigEndian(x, 4) == [x / 0x100_0000 % 0x100, x / 0x1_0000 % 0x100, x / 0x100 % 0x100, x % 0x100]
  {
    var x1, x2, x3 := x / 0x100, x / 0x1_0000, x / 0x100_0000;
    Shifts(x);
    assert BigEndian(x, 4) == BigEndian(x1, 3) + [x % 0x100];
    assert BigEndian(x1, 3) == BigEndian(x2, 2) + [x1 % 0x100];
    assert BigEndian(x2, 2) == BigEndian(x3, 1) + [x2 % 0x100];
    assert BigEndian(x3, 1) == [x3 % 0x100];
  }

  lemma SixBytes(x: nat)
    ensures BigEndian(x, 6) ==
      [x / 0x100_0000_0000 % 0x100, x / 0x1_0000_0000 % 0x100, x / 0x100_0000 % 0x100,
       x / 0x1_0000 % 0x100, x / 0x100 % 0x100, x % 0x100]
  {
    var x1, x2 := x / 0x100, x / 0x1_0000;
    Shifts(x);
    FourBytes(x2);
    var b := BigEndian(x2, 4);
    assert BigEndian(x1, 5) == b + [x1 % 0x100];
    assert BigEndian(x, 6) == b + [x1 % 0x100] + [x % 0x100];
  }

  /** The parts of an answer are where they were put. */
  lemma AnswerParts(head: seq<U8>, zeros: seq<U8>, id: seq<U8>, numbers: seq<U8>, time: seq<U8>, to: seq<U8>,
                    port: seq<U8>)
    requires |head| == 8 && |zeros| == 12 && |id| == 8 && |numbers| == 6 && |time| == 10 && |to| == 8 && |port| == 2
    ensures var m := (head + zeros + id + numbers) + time + to + port;
      && m[..8] == head && m[8..20] == zeros && m[20..28] == id
      && m[28..30] == numbers[..2] && m[30..32] == numbers[2..4] && m[32..34] == numbers[4..]
      && m[34..44] == time && m[44..52] == to && m[52..54] == port
  {
  }

  class PTPClient {
    const domain: U8
    const clockIdentity: seq<U8>
    const portNumber: U16 := 1

    constructor (domain: U8, clockIdentity: seq<U8>)
      requires |clockIdentity| == 8
      ensures this.domain == domain && this.clockIdentity == clockIdentity
    {
      this.domain := domain;
      this.clockIdentity := clockIdentity;
    }

    function Header(msgType: nat, length: U16, sequenceId: U16, control: U8, logInterval: int, flags: U16): (h: seq<U8>)
      requires |clockIdentity| == 8
      ensures |h| == HEADER
    {
      [msgType % 0x10, 0x02, length / 0x100, length % 0x100, domain, 0, flags / 0x100, flags % 0x100]
      + seq(12, _ => 0)
      + clockIdentity
      + [portNumber / 0x100, portNumber % 0x100, sequenceId / 0x100, sequenceId % 0x100,
         control, logInterval % 0x100]
    }

    /** What each byte of a header says: the type, version 2, the length, the domain, no flags and no correction,
        the clock identity, port 1, the sequence id, the control field and the interval, as signed 8 bits. */
    lemma HeaderBytes(msgType: nat, length: U16, sequenceId: U16, control: U8, logInterval: int)
      requires |clockIdentity| == 8 && msgType < 16 && -128 <= logInterval < 128
      ensures var h := Header(msgType, length, sequenceId, control, logInterval, 0);
        && h[0] == msgType && h[1] == 2 && (h[2] as int) * 256 + h[3] == length
        && h[4] == domain && (forall i :: 5 <= i < 20 ==> h[i] == 0)
        && h[20..28] == clockIdentity && h[28] == 0 && h[29] == 1
        && (h[30] as int) * 256 + h[31] == sequenceId && h[32] == control
        && h[33] == if logInterval < 0 then 256 + logInterval else logInterval
    {
    }

    /** The header with its fixed fields written out. */
    lemma HeaderIs(msgType: nat, length: U16, sequenceId: U16, control: U8, interval: U8, logInterval: int)
      requires |clockIdentity| == 8 && msgType < 16 && length < 256
      requires interval == if logInterval < 0 then 256 + logInterval else logInterval
      ensures Header(msgType, length, sequenceId, control, logInterval, 0) ==
        [msgType, 2, 0, length, domain, 0, 0, 0] + seq(12, _ => 0) + clockIdentity
        + [0, 1, sequenceId / 256, sequenceId % 256, control, interval]
    {
    }

    method WriteHeaderStart(buffer: array<U8>, msgType: nat, length: U16, flags: U16)
      requires HEADER <= buffer.Length && buffer[5] == 0
      modifies buffer
      ensures buffer[..8] ==
        [msgType % 0x10, 0x02, length / 0x100, length % 0x100, domain, 0, flags / 0x100, flags % 0x100]
      ensures forall i :: 8 <= i < buffer.Length ==> buffer[i] == old(buffer[i])
    {
      buffer[0] := msgType % 0x10;
      buffer[1] := 0x02;
      buffer[2] := length / 0x100;
      buffer[3] := length % 0x100;
      buffer[4] := domain;
      buffer[5] := 0;
      buffer[6] := flags / 0x100;
      buffer[7] := flags % 0x100;
    }

    method WriteHeaderEnd(buffer: array<U8>, sequenceId: U16, control: U8, logInterval: int)
      requires HEADER <= buffer.Length
      modifies buffer
      ensures buffer[28..HEADER] ==
        [portNumber / 0x100, portNumber % 0x100, sequenceId / 0x100, sequenceId % 0x100, control, logInterval % 0x100]
      ensures forall i :: 0 <= i < buffer.Length && !(28 <= i < HEADER) ==> buffer[i] == old(buffer[i])
    {
      buffer[28] := portNumber / 0x100;
      buffer[29] := portNumber % 0x100;
      buffer[30] := sequenceId / 0x100;
      buffer[31] := sequenceId % 0x100;
      buffer[32] := control;
      buffer[33] := logInterval % 0x100;
    }

    method CopyIdentity(buffer: array<U8>, at: nat)
      requires |clockIdentity| == 8 && at + 8 <= buffer.Length
      modifies buffer
      ensures buffer[at..at + 8] == clockIdentity
      ensures forall i :: 0 <= i < buffer.Length && !(at <= i < at + 8) ==> buffer[i] == old(buffer[i])
    {
      forall i | at <= i < at + 8 {
        buffer[i] := clockIdentity[i - at];
      }
    }

    method BuildHeader(buffer: array<U8>, msgType: nat, length: U16, sequenceId: U16, control: U8,
                       logInterval: int, flags: U16)
      requires |clockIdentity| == 8 && HEADER <= length <= buffer.Length
      modifies buffer
      ensures buffer[..HEADER] == Header(msgType, length, sequenceId, control, logInterval, flags)
      ensures forall i :: HEADER <= i < length ==> buffer[i] == 0
      ensures buffer[length..] == old(buffer[length..])
    {
      forall i | 0 <= i < length {
        buffer[i] := 0;
      }
      WriteHeaderStart(buffer, msgType, length, flags);
      CopyIdentity(buffer, 20);
      assert buffer[8..28] == seq(12, _ => 0) + clockIdentity;
      ghost var start := buffer[..28];
      WriteHeaderEnd(buffer, sequenceId, control, logInterval);
      assert buffer[..28] == start;
      assert buffer[..HEADER] == start[..8] + start[8..28] + buffer[28..HEADER];
    }

    method WriteTimestamp(buffer: array<U8>, at: nat, ns: U64)
      requires at + 10 <= buffer.Length
      modifies buffer
      ensures buffer[at..at + 10] == TimestampBytes(ns)
      ensures buffer[..at] == old(buffer[..at]) && buffer[at + 10..] == old(buffer[at + 10..])
    {
      var seconds, nanoseconds := ns / NS_PER_SECOND, ns % NS_PER_SECOND;
      SixBytes(seconds);
      FourBytes(nanoseconds);
      buffer[at] := seconds / 0x100_0000_0000 % 0x100;
      buffer[at + 1] := seconds / 0x1_0000_0000 % 0x100;
      buffer[at + 2] := seconds / 0x100_0000 % 0x100;
      buffer[at + 3] := seconds / 0x1_0000 % 0x100;
      buffer[at + 4] := seconds / 0x100 % 0x100;
      buffer[at + 5] := seconds % 0x100;
      buffer[at + 6] := nanoseconds / 0x100_0000 % 0x100;
      buffer[at + 7] := nanoseconds / 0x1_0000 % 0x100;
      buffer[at + 8] := nanoseconds / 0x100 % 0x100;
      buffer[at + 9] := nanoseconds % 0x100;
    }

    method SyncMessage(sequenceId: U16, ns: U64) returns (message: seq<U8>)
      requires |clockIdentity| == 8
      ensures |message| == 44
      ensures Holds(message, 0, [0, 2, 0, 44, domain, 0, 0, 0] + seq(12, _ => 0) + clockIdentity
        + [0, 1, sequenceId / 256, sequenceId % 256, 0, 0xFD])
      ensures Holds(message, 34, TimestampBytes(ns))
    {
      var buffer := new U8[SYNC_SIZE](_ => 0);
      BuildHeader(buffer, SYNC, SYNC_SIZE, sequenceId, 0, -3, 0);
      HeaderIs(SYNC, SYNC_SIZE, sequenceId, 0, 0xFD, -3);
      WriteTimestamp(buffer, HEADER, ns);
      message := buffer[..];
      assert message[..HEADER] == buffer[..HEADER];
    }

    method WriteClockQuality(buffer: array<U8>)
      requires buffer.Length == ANNOUNCE_SIZE
      modifies buffer
      ensures buffer[44..53] == [0, 37, 0, 128, 248, 0xFE, 0xFF, 0xFF, 128]
      ensures forall i :: 0 <= i < 44 || 53 <= i < ANNOUNCE_SIZE ==> buffer[i] == old(buffer[i])
    {
      var currentUtcOffset := 37;
      buffer[44] := currentUtcOffset / 0x100;
      buffer[45] := currentUtcOffset % 0x100;
      buffer[46] := 0x00;
      buffer[47] := 128;
      buffer[48] := 248;
      buffer[49] := 0xFE;
      buffer[50] := 0xFF;
      buffer[51] := 0xFF;
      buffer[52] := 128;
    }

    method WriteAnnounceBody(buffer: array<U8>)
      requires |clockIdentity| == 8 && buffer.Length == ANNOUNCE_SIZE
      modifies buffer
      ensures buffer[..44] == old(buffer[..44])
      ensures buffer[44..] == [0, 37, 0, 128, 248, 0xFE, 0xFF, 0xFF, 128] + clockIdentity + [0, 0, 0xA0]
    {
      WriteClockQuality(buffer);
      ghost var quality := buffer[44..53];
      CopyIdentity(buffer, 53);
      buffer[61] := 0;
      buffer[62] := 0;
      buffer[63] := 0xA0;
      assert buffer[44..53] == quality;
      assert buffer[53..61] == clockIdentity;
      assert buffer[44..] == quality + buffer[53..61] + buffer[61..];
    }

    /** Priorities 128, clock class 248, unknown accuracy, UTC offset 37 s, internal oscillator. */
    method AnnounceMessage(sequenceId: U16, ns: U64) returns (message: seq<U8>)
      requires |clockIdentity| == 8
      ensures |message| == 64
      ensures Holds(message, 0, [0xB, 2, 0, 64, domain, 0, 0, 0] + seq(12, _ => 0) + clockIdentity
        + [0, 1, sequenceId / 256, sequenceId % 256, 5, 0])
      ensures Holds(message, 34, TimestampBytes(ns))
      ensures Holds(message, 44, [0, 37, 0, 128, 248, 0xFE, 0xFF, 0xFF, 128] + clockIdentity + [0, 0, 0xA0])
    {
      var buffer := new U8[ANNOUNCE_SIZE](_ => 0);
      BuildHeader(buffer, ANNOUNCE, ANNOUNCE_SIZE, sequenceId, 5, 0, 0);
      HeaderIs(ANNOUNCE, ANNOUNCE_SIZE, sequenceId, 5, 0, 0);
      WriteTimestamp(buffer, HEADER, ns);
      assert buffer[0..HEADER] == buffer[..HEADER];
      WriteAnnounceBody(buffer);
      message := buffer[..];
      assert message[0..HEADER] == buffer[..44][0..HEADER];
      assert message[HEADER..44] == buffer[..44][HEADER..44];
    }

    method DelayRespMessage(requesterId: seq<U8>, requesterPortId: U16, sequenceId: U16, ns: U64)
      returns (message: seq<U8>)
      requires |clockIdentity| == 8 && |requesterId| == 8
      ensures |message| == 54
      ensures message == ([9, 2, 0, 54, domain, 0, 0, 0] + seq(12, _ => 0) + clockIdentity
        + [0, 1, sequenceId / 256, sequenceId % 256, 3, 0x7F])
        + TimestampBytes(ns) + requesterId + [requesterPortId / 256, requesterPortId % 256]
    {
      var buffer := new U8[DELAY_RESP_SIZE](_ => 0);
      BuildHeader(buffer, DELAY_RESP, DELAY_RESP_SIZE, sequenceId, 3, 0x7F, 0);
      HeaderIs(DELAY_RESP, DELAY_RESP_SIZE, sequenceId, 3, 0x7F, 0x7F);
      WriteTimestamp(buffer, HEADER, ns);
      ghost var head := buffer[..44];
      assert head == Header(DELAY_RESP, DELAY_RESP_SIZE, sequenceId, 3, 0x7F, 0) + TimestampBytes(ns);
      forall i | 44 <= i < 52 {
        buffer[i] := requesterId[i - 44];
      }
      buffer[52], buffer[53] := requesterPortId / 0x100, requesterPortId % 0x100;
      message := buffer[..];
      assert message[..44] == head;
    }

    /** One received event message.  An answer goes out exactly for a delay request of at least 44 bytes;
        it carries the requester's identity, port and sequence id byte for byte, and the receive time. */
    method AnswerEvent(request: array<U8>, bytes: nat, rxTimestamp: U64) returns (answered: bool, response: seq<U8>)
      requires |clockIdentity| == 8 && bytes <= request.Length
      ensures answered <==> bytes >= 44 && request[0] % 0x10 == DELAY_REQ
      ensures answered ==>
        && |response| == 54
        && response[..8] == [9, 2, 0, 54, domain, 0, 0, 0] && response[8..20] == seq(12, _ => 0)
        && response[20..28] == clockIdentity && response[28..30] == [0, 1]
        && response[30..32] == request[30..32] && response[32..34] == [3, 0x7F]
        && response[34..44] == TimestampBytes(rxTimestamp)
        && response[44..52] == request[20..28] && response[52..54] == request[28..30]
    {
      answered, response := false, [];
      if bytes < 34 {
        return;
      }
      var messageType := request[0] % 0x10;
      if messageType != DELAY_REQ {
        return;
      }
      if bytes < 44 {
        return;
      }
      var requester := request[20..28];
      var requesterPortId := ReadUint16(request[..], 28);
      var sequenceId := ReadUint16(request[..], 30);
      response := DelayRespMessage(requester, requesterPortId, sequenceId, rxTimestamp);
      AnswerParts([9, 2, 0, 54, domain, 0, 0, 0], seq(12, _ => 0), clockIdentity,
                  [0, 1, sequenceId / 256, sequenceId % 256, 3, 0x7F], TimestampBytes(rxTimestamp), requester,
                  [requesterPortId / 256, requesterPortId % 256]);
      answered := true;
    }
  }
}
