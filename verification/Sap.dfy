/** Stream announcement (RFC 2974 section 6): the announcer's packets and the discovery loop that reads
    them.  A packet is a string of bytes, as std::string and the receive buffer hold it. */
module Sap {
  import opened Words
  import opened Text
  import opened Sdp

  const SAP_HEADER := 8
  const RECEIVE_LIMIT := 2048
  const ORIGIN_BASE := 3928736891

  /** `roundsUp` says which way the stream library rounds a packet time that is exactly between two
      thousandths of a second; it depends on the double nearest to it. */
  datatype StreamDescription = StreamDescription(
    streamIndex: U32, name: string, multicastAddr: string, port: U16, channels: U8, sampleRate: U32,
    packetTimeUs: U32, roundsUp: bool)

  function Byte(x: U8): char {
    x as char
  }

  // ---------------------------------------------------------------------------------------------
  // The announcer
  // ---------------------------------------------------------------------------------------------

  function SetVersion(flags: bv8, v: bv8): bv8 { (flags & 0x1F) | (v << 5) }
  function SetAnnounce(flags: bv8, a: bool): bv8 { (flags & 0xEF) | (if a then 0 else 0x10) }

  const ANNOUNCE_FLAGS: bv8 := SetAnnounce(SetVersion(0, 1), true)

  /** The packet time rounded to thousandths of a second. */
  function Milliseconds(d: StreamDescription): nat {
    (d.packetTimeUs + (if d.roundsUp then 500 else 499)) / 1000
  }

  function Digit(n: nat): char
    requires n < 10
  {
    ('0' as int + n) as char
  }

  /** In seconds, with three digits behind the point. */
  function PtimeText(d: StreamDescription): string {
    var ms := Milliseconds(d);
    Decimal(ms / 1000) + "." + [Digit(ms / 100 % 10), Digit(ms / 10 % 10), Digit(ms % 10)]
  }

  function Origin(d: StreamDescription): string {
    "aes67-vsc " + Decimal(ORIGIN_BASE + d.streamIndex) + " " + Decimal(ORIGIN_BASE + d.streamIndex)
      + " IN IP4 192.168.1.10"
  }

  function InfoLine(d: StreamDescription): string {
    "i=" + (Decimal(d.channels) + "-channel L24 audio stream")
  }

  /** The session-level lines of the description text. */
  function SessionLines(d: StreamDescription): seq<string> {
    ["v=0", "o=" + Origin(d), "s=" + d.name, InfoLine(d), "c=IN IP4 " + d.multicastAddr + "/32", "t=0 0", "a=recvonly"]
  }

  /** The media-level lines. */
  function FormatLines(d: StreamDescription): seq<string> {
    ["m=audio " + Decimal(d.port) + " RTP/AVP 96",
     "a=rtpmap:96 L24/" + Decimal(d.sampleRate) + "/" + Decimal(d.channels),
     "a=ptime:" + PtimeText(d),
     "a=mediaclk:" + "direct=0",
     "a=ts-refclk:" + "ptp=IEEE1588-2008:00-1B-21-AB-CD-EF:0",
     "a=sync-time:0"]
  }

  function DescriptionLines(d: StreamDescription): seq<string> {
    SessionLines(d) + FormatLines(d)
  }

  /** Version 1, announcement, no authentication data, the stream index as message id, origin 0.0.0.0. */
  function SapHeader(d: StreamDescription): (h: string)
    ensures |h| == SAP_HEADER
  {
    var id := d.streamIndex % TWO16;
    [Byte(ANNOUNCE_FLAGS as int), Byte(0), Byte(id / 0x100), Byte(id % 0x100), Byte(0), Byte(0), Byte(0), Byte(0)]
  }

  function AnnouncePacket(d: StreamDescription): string {
    SapHeader(d) + Join(DescriptionLines(d))
  }

  method GenerateSession(d: StreamDescription) returns (sdp: string)
    ensures sdp == Join(SessionLines(d))
  {
    ghost var lines: seq<string> := [];
    sdp := "";
    sdp := sdp + ("v=0" + EOL);
    lines := AddLine(lines, "v=0");
    sdp := sdp + ("o=" + Origin(d) + EOL);
    lines := AddLine(lines, "o=" + Origin(d));
    sdp := sdp + ("s=" + d.name + EOL);
    lines := AddLine(lines, "s=" + d.name);
    sdp := sdp + ("i=" + (Decimal(d.channels) + "-channel L24 audio stream") + EOL);
    lines := AddLine(lines, InfoLine(d));
    sdp := sdp + ("c=IN IP4 " + d.multicastAddr + "/32" + EOL);
    lines := AddLine(lines, "c=IN IP4 " + d.multicastAddr + "/32");
    sdp := sdp + ("t=0 0" + EOL);
    lines := AddLine(lines, "t=0 0");
    sdp := sdp + ("a=recvonly" + EOL);
    lines := AddLine(lines, "a=recvonly");
    assert lines == SessionLines(d);
  }

  method GenerateFormats(d: StreamDescription) returns (sdp: string)
    ensures sdp == Join(FormatLines(d))
  {
    var media := "m=audio " + Decimal(d.port) + " RTP/AVP 96";
    var rtpmap := "a=rtpmap:96 L24/" + Decimal(d.sampleRate) + "/" + Decimal(d.channels);
    var ptime := "a=ptime:" + PtimeText(d);
    var mediaclk := "a=mediaclk:" + "direct=0";
    var refclk := "a=ts-refclk:" + "ptp=IEEE1588-2008:00-1B-21-AB-CD-EF:0";
    ghost var lines: seq<string> := [];
    sdp := "";
    sdp := sdp + (media + EOL);
    lines := AddLine(lines, media);
    sdp := sdp + (rtpmap + EOL);
    lines := AddLine(lines, rtpmap);
    sdp := sdp + (ptime + EOL);
    lines := AddLine(lines, ptime);
    sdp := sdp + (mediaclk + EOL);
    lines := AddLine(lines, mediaclk);
    sdp := sdp + (refclk + EOL);
    lines := AddLine(lines, refclk);
    sdp := sdp + ("a=sync-time:0" + EOL);
    lines := AddLine(lines, "a=sync-time:0");
    assert lines == [media, rtpmap, ptime, mediaclk, refclk, "a=sync-time:0"];
  }

  method GenerateSDP(d: StreamDescription) returns (sdp: string)
    ensures sdp == Join(DescriptionLines(d))
  {
    sdp := GenerateSession(d);
    var formats := GenerateFormats(d);
    sdp := sdp + formats;
    JoinAppend(SessionLines(d), FormatLines(d));
  }

  method WriteHeader(d: StreamDescription, bytes: array<char>)
    requires bytes.Length >= SAP_HEADER
    requires forall i :: 4 <= i < SAP_HEADER ==> bytes[i] == Byte(0)
    modifies bytes
    ensures bytes[..SAP_HEADER] == SapHeader(d)
  {
    var vatFlags: bv8 := 0;
    vatFlags := SetVersion(vatFlags, 1);
    vatFlags := SetAnnounce(vatFlags, true);
    var msgId := d.streamIndex % TWO16;
    bytes[0] := Byte(vatFlags as int);
    bytes[1] := Byte(0);
    bytes[2] := Byte(msgId / 0x100);
    bytes[3] := Byte(msgId % 0x100);
  }

  /** std::memcpy of the description text. */
  method CopyText(text: string, bytes: array<char>, at: nat)
    requires at + |text| <= bytes.Length
    modifies bytes
    ensures bytes[..at] == old(bytes[..at])
    ensures bytes[at..at + |text|] == text
  {
    for i := 0 to |text|
      invariant bytes[..at] == old(bytes[..at])
      invariant bytes[at..at + i] == text[..i]
    {
      bytes[at + i] := text[i];
      assert bytes[at..at + i + 1] == bytes[at..at + i] + [text[i]];
    }
  }

  /** The packet the announcement loop sends for one stream, byte by byte into its vector. */
  method BuildPacket(d: StreamDescription) returns (packet: string)
    ensures packet == AnnouncePacket(d)
  {
    var sdp := GenerateSDP(d);
    var bytes := new char[SAP_HEADER + |sdp|](_ => Byte(0));
    WriteHeader(d, bytes);
    CopyText(sdp, bytes, SAP_HEADER);
    packet := bytes[..];
    assert packet == bytes[..SAP_HEADER] + bytes[SAP_HEADER..SAP_HEADER + |sdp|];
  }

  // ---------------------------------------------------------------------------------------------
  // The discovery loop
  // ---------------------------------------------------------------------------------------------

  /** What recv puts into the 2048-byte buffer. */
  function Received(packet: string): string {
    packet[..Min(|packet|, RECEIVE_LIMIT)]
  }

  predicate IsSapAnnouncement(buffer: string)
    requires |buffer| >= SAP_HEADER
  {
    buffer[0] as int / 0x20 % 8 == 1 && buffer[0] as int / 4 % 2 == 0
  }

  function SdpOffset(buffer: string): nat
    requires |buffer| >= SAP_HEADER
  {
    SAP_HEADER + buffer[1] as int * 4
  }

  function StreamName(s: Session): string {
    if s.sessionName == [] then s.origin else s.sessionName
  }

  datatype Heard = Nothing | Heard(session: Session)

  function HearText(text: string, uninitialised: Session): Heard {
    match ParseText(text, uninitialised)
    case Thrown => Nothing
    case Parsed(s) => Heard(s)
  }

  /** What a received buffer tells: a session, unless it is no announcement or its text makes the parser throw. */
  function Hear(buffer: string, uninitialised: Session): Heard {
    if |buffer| < SAP_HEADER || !IsSapAnnouncement(buffer) || SdpOffset(buffer) >= |buffer| then Nothing
    else HearText(buffer[SdpOffset(buffer)..], uninitialised)
  }

  lemma HearTextIff(text: string, uninitialised: Session, s: Session)
    ensures HearText(text, uninitialised) == Heard(s) <==> ParseText(text, uninitialised) == Sdp.Parsed(s)
  {
  }

  /** The buffer has a whole header of version 1 without the deletion bit, and text behind its authentication
      words. */
  predicate HoldsText(buffer: string) {
    && |buffer| >= 8 && buffer[0] as int / 32 % 8 == 1 && buffer[0] as int / 4 % 2 == 0
    && 8 + 4 * (buffer[1] as int) < |buffer|
  }

  /** WHAT IS HEARD.  Exactly such a buffer tells what its text does; any other tells nothing. */
  lemma HeardIff(buffer: string, uninitialised: Session)
    ensures HoldsText(buffer) ==>
      Hear(buffer, uninitialised) == HearText(buffer[8 + 4 * (buffer[1] as int)..], uninitialised)
    ensures !HoldsText(buffer) ==> Hear(buffer, uninitialised) == Nothing
  {
    if HoldsText(buffer) {
      assert SdpOffset(buffer) == 8 + 4 * (buffer[1] as int);
    }
  }

  function Store(streams: map<string, Session>, heard: Heard): map<string, Session> {
    match heard
    case Nothing => streams
    case Heard(s) => streams[StreamName(s) := s]
  }

  /** The directory after one received buffer. */
  function Discover(streams: map<string, Session>, buffer: string, uninitialised: Session): map<string, Session> {
    Store(streams, Hear(buffer, uninitialised))
  }

  class Discovery {
    var discoveredStreams: map<string, Session>

    constructor ()
      ensures discoveredStreams == map[]
    {
      discoveredStreams := map[];
    }

    method OnStreamDiscovered(streamName: string, sdp: Session)
      modifies this
      ensures discoveredStreams == old(discoveredStreams)[streamName := sdp]
    {
      discoveredStreams := discoveredStreams[streamName := sdp];
    }

    /** Parsing and storing, with the exception handler around both. */
    method HandleDescription(sdp: string, uninitialised: Session)
      requires IsNew(uninitialised)
      modifies this
      ensures discoveredStreams == Store(old(discoveredStreams), HearText(sdp, uninitialised))
    {
      var parsed := Parse(sdp, uninitialised);
      if parsed.Thrown? {
        return;
      }
      var session := parsed.session;
      var streamName := if session.sessionName == [] then session.origin else session.sessionName;
      OnStreamDiscovered(streamName, session);
    }

    /** One pass of the discovery loop over a received buffer. */
    method HandlePacket(buffer: string, uninitialised: Session)
      requires IsNew(uninitialised)
      modifies this
      ensures discoveredStreams == Discover(old(discoveredStreams), buffer, uninitialised)
    {
      if |buffer| < 8 {
        return;
      }
      var version := buffer[0] as int / 0x20 % 8;
      var isAnnouncement := buffer[0] as int / 4 % 2 == 0;
      if version != 1 || !isAnnouncement {
        return;
      }
      var sdpOffset := 8;
      var authLen := buffer[1] as int;
      sdpOffset := sdpOffset + authLen * 4;
      if sdpOffset >= |buffer| {
        return;
      }
      HandleDescription(buffer[sdpOffset..], uninitialised);
    }
  }

  // ---------------------------------------------------------------------------------------------
  // The directory over any run
  // ---------------------------------------------------------------------------------------------

  /** A received buffer, and what the parser's new session holds in its numeric fields. */
  datatype Reception = Reception(buffer: string, uninitialised: Session)

  function Listen(rs: seq<Reception>): map<string, Session> {
    if rs == [] then map[]
    else
      var last := rs[|rs| - 1];
      Discover(Listen(rs[..|rs| - 1]), last.buffer, last.uninitialised)
  }

  function HearAll(rs: seq<Reception>): seq<Heard> {
    seq(|rs|, i requires 0 <= i < |rs| => Hear(rs[i].buffer, rs[i].uninitialised))
  }

  function StoreAll(hs: seq<Heard>): map<string, Session> {
    if hs == [] then map[] else Store(StoreAll(hs[..|hs| - 1]), hs[|hs| - 1])
  }

  predicate Tells(h: Heard, key: string) {
    h.Heard? && StreamName(h.session) == key
  }

  /** The i-th is the last that tells of the key. */
  ghost predicate IsLatest(hs: seq<Heard>, i: nat, key: string) {
    i < |hs| && Tells(hs[i], key) && forall j :: i < j < |hs| ==> !Tells(hs[j], key)
  }

  lemma StoreMore(hs: seq<Heard>, h: Heard)
    ensures StoreAll(hs + [h]) == Store(StoreAll(hs), h)
  {
    assert (hs + [h])[..|hs|] == hs;
  }

  /** The directory made of hs holds what it should under the key. */
  ghost predicate HoldsLatest(hs: seq<Heard>, directory: map<string, Session>, key: string) {
    && (key in directory <==> exists i :: 0 <= i < |hs| && Tells(hs[i], key))
    && (key in directory ==> exists i: nat :: IsLatest(hs, i, key) && hs[i] == Heard(directory[key]))
  }

  lemma HeardTells(hs: seq<Heard>, h: Heard, directory: map<string, Session>, key: string)
    requires Tells(h, key)
    ensures HoldsLatest(hs + [h], Store(directory, h), key)
  {
    var all := hs + [h];
    assert all[|hs|] == h && IsLatest(all, |hs|, key);
  }

  lemma HeardIsSilent(hs: seq<Heard>, h: Heard, directory: map<string, Session>, key: string)
    requires !Tells(h, key) && HoldsLatest(hs, directory, key)
    ensures HoldsLatest(hs + [h], Store(directory, h), key)
  {
    var all := hs + [h];
    assert forall i :: 0 <= i < |hs| ==> all[i] == hs[i];
    if key in directory {
      var i: nat :| IsLatest(hs, i, key) && hs[i] == Heard(directory[key]);
      assert IsLatest(all, i, key);
    }
  }

  lemma {:induction false} LatestIsStored(hs: seq<Heard>, key: string)
    ensures HoldsLatest(hs, StoreAll(hs), key)
    decreases |hs|
  {
    if hs != [] {
      var n := |hs| - 1;
      var before, h := hs[..n], hs[n];
      LatestIsStored(before, key);
      assert before + [h] == hs;
      StoreMore(before, h);
      if Tells(h, key) {
        HeardTells(before, h, StoreAll(before), key);
      } else {
        HeardIsSilent(before, h, StoreAll(before), key);
      }
    }
  }

  lemma HearMore(rs: seq<Reception>, r: Reception)
    ensures HearAll(rs + [r]) == HearAll(rs) + [Hear(r.buffer, r.uninitialised)]
    ensures Listen(rs + [r]) == Store(Listen(rs), Hear(r.buffer, r.uninitialised))
  {
    assert (rs + [r])[..|rs|] == rs;
  }

  /** Listening stores what is heard. */
  ghost predicate Keeps(rs: seq<Reception>) {
    match rs
    case all => Listen(all) == StoreAll(HearAll(all))
  }

  lemma KeepsMore(rs: seq<Reception>, r: Reception)
    requires Keeps(rs)
    ensures Keeps(rs + [r])
  {
    HearMore(rs, r);
    StoreMore(HearAll(rs), Hear(r.buffer, r.uninitialised));
  }

  lemma {:induction false} ListenStores(rs: seq<Reception>)
    ensures Keeps(rs)
    decreases |rs|
  {
    if rs != [] {
      var n := |rs| - 1;
      ListenStores(rs[..n]);
      KeepsMore(rs[..n], rs[n]);
      assert rs[..n] + [rs[n]] == rs;
    }
  }

  /** WHAT THE DIRECTORY HOLDS.  Whatever was received, well-formed or not: under every name that some
      description carried - or whose origin it was, if its name was empty - the latest such description, and
      nothing under any other name. */
  lemma DirectoryHoldsLatest(rs: seq<Reception>, key: string)
    ensures var hs, directory := HearAll(rs), Listen(rs);
      && (key in directory <==> exists i :: 0 <= i < |hs| && Tells(hs[i], key))
      && (key in directory ==> exists i: nat :: IsLatest(hs, i, key) && hs[i] == Heard(directory[key]))
  {
    ListenStores(rs);
    LatestIsStored(HearAll(rs), key);
  }

  // ---------------------------------------------------------------------------------------------
  // Announcing, then discovering
  // ---------------------------------------------------------------------------------------------

  /** Newline-free texts, a digits-and-dots address, and a packet that fits the receive buffer. */
  ghost predicate Announceable(d: StreamDescription) {
    match d
    case StreamDescription(_, name, address, _, _, _, _, _) =>
      && NoNewline(name) && NoNewline(address)
      && IsAddress(address)
      && |AnnouncePacket(d)| <= RECEIVE_LIMIT
  }

  /** The session that the description text describes. */
  function Described(d: StreamDescription): Session {
    Session(Origin(d), d.name, d.multicastAddr, d.port, 96, L24Map(d.sampleRate, d.channels), d.sampleRate,
            d.channels, PtimeText(d), "ptp=IEEE1588-2008:00-1B-21-AB-CD-EF:0", "direct=0")
  }

  /** The session a listener stores: the described one, with payload type 96 in front of the rtpmap. */
  function Stored(d: StreamDescription): Session {
    Described(d).(rtpmap := "96 " + L24Map(d.sampleRate, d.channels))
  }

  /** The session tells all there is to know about the stream. */
  ghost predicate Tunes(s: Session, d: StreamDescription) {
    && s.origin == Origin(d) && s.sessionName == d.name
    && s.connectionAddr == d.multicastAddr && s.port == d.port
    && s.payloadType == 96 && s.sampleRate == d.sampleRate && s.channels == d.channels
    && s.rtpmap == "96 " + ("L24/" + Decimal(d.sampleRate) + "/" + Decimal(d.channels))
    && s.ptime == PtimeText(d) && s.mediaClk == "direct=0"
    && s.ptpRefClock == "ptp=IEEE1588-2008:00-1B-21-AB-CD-EF:0"
  }

  /** The name a stream is listed under. */
  function Key(d: StreamDescription): string {
    if d.name == "" then Origin(d) else d.name
  }

  lemma StoredTunes(d: StreamDescription)
    ensures Tunes(Stored(d), d) && StreamName(Stored(d)) == Key(d)
  {
  }

  lemma CleanOrigin(d: StreamDescription)
    ensures NoNewline(Origin(d))
  {
    var n := Decimal(ORIGIN_BASE + d.streamIndex);
    DigitsHaveNoNewline(ORIGIN_BASE + d.streamIndex);
    var a, b, c := "aes67-vsc ", " ", " IN IP4 192.168.1.10";
    assert NoNewline(a) && NoNewline(b) && NoNewline(c);
    assert Origin(d) == a + n + b + n + c;
  }

  lemma CleanInfo(d: StreamDescription)
    ensures NoNewline(InfoLine(d))
  {
    DigitsHaveNoNewline(d.channels);
    var a, c := "i=", "-channel L24 audio stream";
    assert NoNewline(a) && NoNewline(c);
    assert InfoLine(d) == a + Decimal(d.channels) + c;
  }

  lemma CleanFormat(rate: U32, channels: U8)
    ensures NoNewline(L24Map(rate, channels))
  {
    DigitsHaveNoNewline(rate);
    DigitsHaveNoNewline(channels);
  }

  lemma PtimeIsNumber(d: StreamDescription)
    ensures StartsNumber(PtimeText(d)) && NoNewline(PtimeText(d))
  {
    var whole, point := Decimal(Milliseconds(d) / 1000), ".";
    DigitsHaveNoNewline(Milliseconds(d) / 1000);
    assert NoNewline(point);
    assert PtimeText(d)[0] == whole[0];
  }

  lemma ThreeMoreDigits(whole: string, a: char, b: char, c: char)
    requires AllDigits(whole) && IsDigit(a) && IsDigit(b) && IsDigit(c)
    ensures Number(whole + [a, b, c]) ==
      Number(whole) * 1000 + (a as int - '0' as int) * 100 + (b as int - '0' as int) * 10 + (c as int - '0' as int)
  {
    NumberMore(whole, a);
    NumberMore(whole + [a], b);
    NumberMore(whole + [a] + [b], c);
    assert whole + [a] + [b] + [c] == whole + [a, b, c];
  }

  lemma LastDigit(n: nat, p: nat)
    requires p > 0
    ensures n / p == n / (p * 10) * 10 + n / p % 10
  {
    ModSplit(n, p, 10);
    assert n / p == n / p / 10 * 10 + n / p % 10;
  }

  lemma DigitsOf(ms: nat)
    ensures ms == ms / 1000 * 1000 + ms / 100 % 10 * 100 + ms / 10 % 10 * 10 + ms % 10
  {
    LastDigit(ms, 10);
    LastDigit(ms, 100);
  }

  /** The text is a number with three digits behind the point, less than half a thousandth away from the packet
      time, or exactly that. */
  lemma PtimeIsRounded(d: StreamDescription)
    ensures var t := PtimeText(d);
      && |t| >= 5 && t[|t| - 4] == '.' && AllDigits(t[..|t| - 4] + t[|t| - 3..])
      && -500 <= Number(t[..|t| - 4] + t[|t| - 3..]) * 1000 - d.packetTimeUs <= 500
  {
    var ms := Milliseconds(d);
    var whole := Decimal(ms / 1000);
    var a, b, c := Digit(ms / 100 % 10), Digit(ms / 10 % 10), Digit(ms % 10);
    var t := PtimeText(d);
    assert t == whole + ['.', a, b, c];
    assert t[..|t| - 4] == whole && t[|t| - 3..] == [a, b, c];
    ThreeMoreDigits(whole, a, b, c);
    DecimalRoundTrip(ms / 1000);
    DigitsOf(ms);
  }

  lemma DigitsOfZero(ms: nat)
    requires ms / 1000 == 0 && ms / 100 % 10 == 0 && ms / 10 % 10 == 0 && ms % 10 == 0
    ensures ms == 0
  {
  }

  /** The engine's 250 microseconds are announced as nothing: three digits cannot show half a millisecond. */
  lemma PtimeIsLostIff(d: StreamDescription)
    ensures PtimeText(d) == "0.000" <==> d.packetTimeUs < 500 || (d.packetTimeUs == 500 && !d.roundsUp)
  {
    var ms := Milliseconds(d);
    var whole := Decimal(ms / 1000);
    assert Decimal(0) == "0";
    if PtimeText(d) == "0.000" {
      assert |whole| == 1 && whole[0] == PtimeText(d)[0] == '0';
      assert PtimeText(d)[2] == Digit(ms / 100 % 10) && PtimeText(d)[3] == Digit(ms / 10 % 10);
      assert PtimeText(d)[4] == Digit(ms % 10);
      DecimalRoundTrip(ms / 1000);
      assert whole == "0" && Number("0") == 0;
      DigitsOfZero(ms);
    }
  }

  lemma CleanDescription(d: StreamDescription)
    requires NoNewline(d.name) && NoNewline(d.multicastAddr)
    ensures CleanText(Described(d))
  {
    CleanOrigin(d);
    CleanFormat(d.sampleRate, d.channels);
    PtimeIsNumber(d);
    var s := Described(d);
    assert NoNewline(s.ptpRefClock);
    assert NoNewline(s.mediaClk);
  }

  lemma NinetySix()
    ensures Decimal(96) == "96" && "96" + " " == "96 "
  {
    assert Decimal(9) == "9";
  }

  /** The same lines, as those of the described session and the channel-count line. */
  function PrintedLines(d: StreamDescription): seq<string> {
    var s := Described(d);
    NameLines(s) + [InfoLine(d)] + AddressLines(s) + MediaLines(s) + ClockLines(s) + ["a=" + "sync-time:0"]
  }

  lemma FormatTexts(port: string, rate: string, channels: string)
    ensures "m=audio " + port + " RTP/AVP " + "96" == "m=audio " + port + " RTP/AVP 96"
    ensures "a=rtpmap:" + "96" + " " + ("L24/" + rate + "/" + channels) == "a=rtpmap:96 L24/" + rate + "/" + channels
  {
    assert " RTP/AVP " + "96" == " RTP/AVP 96";
    Sdp.Together("m=audio " + port, " RTP/AVP ", "96");
    assert "a=rtpmap:" + "96" + " " + "L24/" == "a=rtpmap:96 L24/";
    Sdp.Together("a=rtpmap:" + "96" + " ", "L24/" + rate + "/", channels);
    Sdp.Together("a=rtpmap:" + "96" + " ", "L24/" + rate, "/");
    Sdp.Together("a=rtpmap:" + "96" + " ", "L24/", rate);
  }

  lemma DescriptionIsPrinted(d: StreamDescription)
    ensures DescriptionLines(d) == PrintedLines(d)
  {
    var s := Described(d);
    Sdp.PrintedLines(s);
    NinetySix();
    FormatTexts(Decimal(d.port), Decimal(d.sampleRate), Decimal(d.channels));
    Sdp.PrintedClocks(s);
    assert "a=" + "sync-time:0" == "a=sync-time:0";
  }

  lemma CleanPrintedLines(d: StreamDescription)
    requires NoNewline(d.name) && NoNewline(d.multicastAddr)
    ensures NoNewlines(PrintedLines(d))
  {
    var s := Described(d);
    CleanDescription(d);
    CleanInfo(d);
    CleanNames(s);
    CleanMedia(s);
    CleanClocks(s);
    var last := "a=" + "sync-time:0";
    assert NoNewline(last);
    CleanJoin(NameLines(s), [InfoLine(d)]);
    CleanJoin(NameLines(s) + [InfoLine(d)], AddressLines(s));
    CleanJoin(NameLines(s) + [InfoLine(d)] + AddressLines(s), MediaLines(s));
    CleanJoin(NameLines(s) + [InfoLine(d)] + AddressLines(s) + MediaLines(s), ClockLines(s));
    CleanJoin(NameLines(s) + [InfoLine(d)] + AddressLines(s) + MediaLines(s) + ClockLines(s), [last]);
  }

  lemma InfoIgnored(lines: seq<string>, d: StreamDescription, start: Session, t: Session)
    requires FoldLines(lines, start) == Sdp.Parsed(t)
    ensures FoldLines(lines + [InfoLine(d)], start) == Sdp.Parsed(t)
  {
    Fold(lines, InfoLine(d), start, t, 'i', Decimal(d.channels) + "-channel L24 audio stream", t);
  }

  lemma PrintedParses(d: StreamDescription, start: Session)
    requires IsNew(start) && NoNewline(d.name) && NoNewline(d.multicastAddr)
    requires IsAddress(d.multicastAddr)
    ensures FoldLines(PrintedLines(d), start) == Sdp.Parsed(Stored(d))
  {
    var s := Described(d);
    AddressFoundIff(s.connectionAddr);
    var t := start.(origin := s.origin, sessionName := s.sessionName);
    PtimeIsNumber(d);
    FoldNames(s, start);
    InfoIgnored(NameLines(s), d, start, t);
    var l1 := NameLines(s) + [InfoLine(d)];
    FoldAddress(l1, s, start, t);
    var t1 := t.(connectionAddr := s.connectionAddr);
    FoldMedia(l1 + AddressLines(s), s, start, t1);
    NinetySix();
    var t2 := Stored(d).(mediaClk := "", ptpRefClock := "");
    FoldClocks(l1 + AddressLines(s) + MediaLines(s), s, start, t2);
    OtherAttributeLine("sync-time:0", Stored(d));
    Fold(l1 + AddressLines(s) + MediaLines(s) + ClockLines(s), "a=" + "sync-time:0", start, Stored(d), 'a',
         "sync-time:0", Stored(d));
  }

  lemma DescriptionIsRead(d: StreamDescription, start: Session)
    requires IsNew(start) && NoNewline(d.name) && NoNewline(d.multicastAddr)
    requires IsAddress(d.multicastAddr)
    ensures ParseText(Join(DescriptionLines(d)), start) == Sdp.Parsed(Stored(d))
  {
    DescriptionIsPrinted(d);
    CleanPrintedLines(d);
    ParseLines(PrintedLines(d), start);
    PrintedParses(d, start);
  }

  /** Every announced text parses to a session with the stream's own name, address, port, rate and channels. */
  lemma DescriptionParses(d: StreamDescription, start: Session)
    requires IsNew(start) && NoNewline(d.name) && NoNewline(d.multicastAddr)
    requires IsAddress(d.multicastAddr)
    ensures var r := ParseText(Join(DescriptionLines(d)), start); r.Parsed? && Tunes(r.session, d)
  {
    DescriptionIsRead(d, start);
    StoredTunes(d);
  }

  /** Version 1 and no flag, no authentication data, the low half of the stream index, origin 0.0.0.0. */
  lemma HeaderReads(d: StreamDescription)
    ensures var h := SapHeader(d);
      && |h| == 8 && h[0] == 0x20 as char && h[1] == 0 as char
      && (h[2] as int) * 0x100 + h[3] as int == d.streamIndex % 0x1_0000
      && h[4] == h[5] == h[6] == h[7] == 0 as char
  {
    assert ANNOUNCE_FLAGS == 0x20;
  }

  lemma JoinNotEmpty(d: StreamDescription)
    ensures Join(DescriptionLines(d)) != []
  {
    var l := DescriptionLines(d);
    assert l[|l| - 1] == "a=sync-time:0";
  }

  /** The loop finds the description text behind the header. */
  lemma PacketIsRead(streams: map<string, Session>, h: string, text: string, start: Session)
    requires |h| == SAP_HEADER && h[0] == 0x20 as char && h[1] == 0 as char && text != []
    ensures Discover(streams, h + text, start) == Store(streams, HearText(text, start))
  {
    var packet := h + text;
    assert packet[0] == h[0] && packet[1] == h[1];
    assert packet[SAP_HEADER..] == text;
  }

  lemma AnnouncementIsStored(streams: map<string, Session>, d: StreamDescription, start: Session)
    requires Announceable(d) && IsNew(start)
    ensures Discover(streams, Received(AnnouncePacket(d)), start) == streams[Key(d) := Stored(d)]
  {
    var packet := AnnouncePacket(d);
    assert Received(packet) == packet;
    HeaderReads(d);
    JoinNotEmpty(d);
    PacketIsRead(streams, SapHeader(d), Join(DescriptionLines(d)), start);
    DescriptionIsRead(d, start);
    StoredTunes(d);
  }

  /** DISCOVERY.  Announcing a stream stores one session in every listener's directory, under the stream's name
      (or its origin, if the name is empty): its own address, port, rate and channels, payload type 96. */
  lemma AnnounceThenDiscover(streams: map<string, Session>, d: StreamDescription, start: Session)
    requires Announceable(d) && IsNew(start)
    ensures var id := Decimal(3928736891 + d.streamIndex);
      var origin := "aes67-vsc " + id + " " + id + " IN IP4 192.168.1.10";
      var name := if d.name == "" then origin else d.name;
      var after := Discover(streams, Received(AnnouncePacket(d)), start);
      && name in after && after == streams[name := after[name]]
      && after[name].origin == origin && after[name].sessionName == d.name
      && after[name].connectionAddr == d.multicastAddr && after[name].port == d.port
      && after[name].payloadType == 96
      && after[name].sampleRate == d.sampleRate && after[name].channels == d.channels
  {
    AnnouncementIsStored(streams, d, start);
    StoredTunes(d);
  }

  /** A directory after any sequence of announcements has arrived, in any order and any number of times. */
  function Directory(ds: seq<StreamDescription>, start: Session): map<string, Session> {
    if ds == [] then map[]
    else
      var n := |ds| - 1;
      Discover(Directory(ds[..n], start), Received(AnnouncePacket(ds[n])), start)
  }

  ghost predicate AllAnnounceable(ds: seq<StreamDescription>) {
    forall i {:trigger Announceable(ds[i])} :: 0 <= i < |ds| ==> Announceable(ds[i])
  }

  /** Entries stored one after another. */
  function Entries(keys: seq<string>, values: seq<Session>): map<string, Session>
    requires |keys| == |values|
    decreases |keys|
  {
    if keys == [] then map[]
    else
      var n := |keys| - 1;
      Entries(keys[..n], values[..n])[keys[n] := values[n]]
  }

  lemma {:induction false} EntriesAreStored(keys: seq<string>, values: seq<Session>)
    requires |keys| == |values|
    requires forall i, j :: 0 <= i < |keys| && 0 <= j < |keys| && keys[i] == keys[j] ==> values[i] == values[j]
    ensures forall k :: k in Entries(keys, values) <==> k in keys
    ensures forall i :: 0 <= i < |keys| ==>
      keys[i] in Entries(keys, values) && Entries(keys, values)[keys[i]] == values[i]
    decreases |keys|
  {
    if keys != [] {
      var n := |keys| - 1;
      EntriesAreStored(keys[..n], values[..n]);
      assert keys == keys[..n] + [keys[n]];
      forall i | 0 <= i < n
        ensures keys[i] in Entries(keys[..n], values[..n]) && Entries(keys[..n], values[..n])[keys[i]] == values[i]
      {
        assert keys[..n][i] == keys[i];
      }
    }
  }

  function Keys(ds: seq<StreamDescription>): seq<string> {
    seq(|ds|, i requires 0 <= i < |ds| => Key(ds[i]))
  }

  function Values(ds: seq<StreamDescription>): seq<Session> {
    seq(|ds|, i requires 0 <= i < |ds| => Stored(ds[i]))
  }

  lemma EntriesMore(keys: seq<string>, values: seq<Session>, key: string, value: Session)
    requires |keys| == |values|
    ensures Entries(keys + [key], values + [value]) == Entries(keys, values)[key := value]
  {
    assert (keys + [key])[..|keys|] == keys && (values + [value])[..|keys|] == values;
  }

  lemma DirectoryMore(ds: seq<StreamDescription>, d: StreamDescription, start: Session)
    requires Announceable(d) && IsNew(start)
    ensures Directory(ds + [d], start) == Directory(ds, start)[Key(d) := Stored(d)]
  {
    assert (ds + [d])[..|ds|] == ds;
    AnnouncementIsStored(Directory(ds, start), d, start);
  }

  lemma KeysMore(ds: seq<StreamDescription>, d: StreamDescription)
    ensures Keys(ds + [d]) == Keys(ds) + [Key(d)] && Values(ds + [d]) == Values(ds) + [Stored(d)]
  {
  }

  /** The directory after the announcements ds is as it should be. */
  ghost predicate Entered(ds: seq<StreamDescription>, start: Session) {
    Directory(ds, start) == Entries(Keys(ds), Values(ds))
  }

  lemma EntryMore(ds: seq<StreamDescription>, d: StreamDescription, start: Session)
    requires Announceable(d) && IsNew(start) && Entered(ds, start)
    ensures Entered(ds + [d], start)
  {
    DirectoryMore(ds, d, start);
    KeysMore(ds, d);
    EntriesMore(Keys(ds), Values(ds), Key(d), Stored(d));
  }

  lemma EntryAt(ds: seq<StreamDescription>, n: nat, start: Session)
    requires AllAnnounceable(ds) && IsNew(start) && n < |ds| && Entered(ds[..n], start)
    ensures Entered(ds[..n + 1], start)
  {
    assert Announceable(ds[n]);
    EntryMore(ds[..n], ds[n], start);
    assert ds[..n] + [ds[n]] == ds[..n + 1];
  }

  lemma {:induction false} DirectoryEntries(ds: seq<StreamDescription>, n: nat, start: Session)
    requires AllAnnounceable(ds) && IsNew(start) && n <= |ds|
    ensures Entered(ds[..n], start)
    decreases n
  {
    if n > 0 {
      DirectoryEntries(ds, n - 1, start);
      EntryAt(ds, n - 1, start);
    }
  }

  lemma AllEntered(ds: seq<StreamDescription>, start: Session)
    requires AllAnnounceable(ds) && IsNew(start)
    ensures Directory(ds, start) == Entries(Keys(ds), Values(ds))
  {
    DirectoryEntries(ds, |ds|, start);
    assert ds[..|ds|] == ds;
  }

  /** The directory lists exactly the streams ds, each with all there is to know about it. */
  ghost predicate Lists(directory: map<string, Session>, ds: seq<StreamDescription>) {
    && (forall k :: k in directory <==> exists i :: 0 <= i < |ds| && Key(ds[i]) == k)
    && forall i :: 0 <= i < |ds| ==> Tunes(directory[Key(ds[i])], ds[i])
  }

  lemma KeysAndValues(ds: seq<StreamDescription>)
    ensures |Keys(ds)| == |Values(ds)| == |ds|
    ensures forall i :: 0 <= i < |ds| ==> Keys(ds)[i] == Key(ds[i]) && Tunes(Values(ds)[i], ds[i])
  {
    forall i | 0 <= i < |ds|
      ensures Tunes(Values(ds)[i], ds[i])
    {
      StoredTunes(ds[i]);
    }
  }

  lemma EntriesList(directory: map<string, Session>, ds: seq<StreamDescription>, keys: seq<string>,
                    values: seq<Session>)
    requires |keys| == |values| == |ds|
    requires forall i :: 0 <= i < |ds| ==> keys[i] == Key(ds[i]) && Tunes(values[i], ds[i])
    requires forall k :: k in directory <==> k in keys
    requires forall i :: 0 <= i < |keys| ==> keys[i] in directory && directory[keys[i]] == values[i]
    ensures Lists(directory, ds)
  {
    forall i | 0 <= i < |ds|
      ensures Key(ds[i]) == keys[i]
    {
    }
  }

  lemma EntriesTune(ds: seq<StreamDescription>)
    requires forall i, j :: 0 <= i < |ds| && 0 <= j < |ds| && Key(ds[i]) == Key(ds[j]) ==> ds[i] == ds[j]
    ensures Lists(Entries(Keys(ds), Values(ds)), ds)
  {
    KeysAndValues(ds);
    EntriesAreStored(Keys(ds), Values(ds));
    EntriesList(Entries(Keys(ds), Values(ds)), ds, Keys(ds), Values(ds));
  }

  /** The directory lists exactly the announced names; if streams of the same name are the same stream, each
      name leads to a session that tells all about its own stream. */
  lemma DirectoryIsComplete(ds: seq<StreamDescription>, start: Session)
    requires AllAnnounceable(ds) && IsNew(start)
    requires forall i, j :: 0 <= i < |ds| && 0 <= j < |ds| && Key(ds[i]) == Key(ds[j]) ==> ds[i] == ds[j]
    ensures Lists(Directory(ds, start), ds)
  {
    AllEntered(ds, start);
    EntriesTune(ds);
  }

  // ---------------------------------------------------------------------------------------------
  // The engine's own streams
  // ---------------------------------------------------------------------------------------------

  lemma TensAre()
    ensures Tens(3) == 1000 && Tens(4) == 10_000 && Tens(5) == 100_000 && Tens(10) == 10_000_000_000
  {
    assert Tens(3) == 10 * Tens(2) && Tens(2) == 10 * Tens(1) && Tens(1) == 10;
    assert Tens(5) == 10 * Tens(4) && Tens(4) == 10 * Tens(3);
    assert Tens(7) == 10 * Tens(6) && Tens(6) == 10 * Tens(5);
    assert Tens(9) == 10 * Tens(8) && Tens(8) == 10 * Tens(7) && Tens(10) == 10 * Tens(9);
  }

  lemma OriginIsShort(d: StreamDescription)
    ensures |Origin(d)| <= 51
  {
    TensAre();
    DecimalIsShort(ORIGIN_BASE + d.streamIndex, 10);
  }

  lemma NumbersAreShort(d: StreamDescription)
    ensures |Decimal(d.port)| <= 5 && |Decimal(d.sampleRate)| <= 10 && |Decimal(d.channels)| <= 3
  {
    TensAre();
    DecimalIsShort(d.port, 5);
    DecimalIsShort(d.sampleRate, 10);
    DecimalIsShort(d.channels, 3);
  }

  lemma PtimeIsShort(d: StreamDescription)
    ensures |PtimeText(d)| <= 8
  {
    TensAre();
    var whole := Decimal(Milliseconds(d) / 1000);
    DecimalIsShort(Milliseconds(d) / 1000, 4);
    assert |PtimeText(d)| == |whole| + 4;
  }

  lemma SessionLength(d: StreamDescription)
    ensures |Join(SessionLines(d))| <= |d.name| + |d.multicastAddr| + 150
  {
    OriginIsShort(d);
    NumbersAreShort(d);
    var lines := AddLine([], "v=0");
    lines := AddLine(lines, "o=" + Origin(d));
    lines := AddLine(lines, "s=" + d.name);
    lines := AddLine(lines, InfoLine(d));
    lines := AddLine(lines, "c=IN IP4 " + d.multicastAddr + "/32");
    lines := AddLine(lines, "t=0 0");
    lines := AddLine(lines, "a=recvonly");
    assert lines == SessionLines(d);
  }

  lemma FormatLength(d: StreamDescription)
    ensures |Join(FormatLines(d))| <= 190
  {
    NumbersAreShort(d);
    PtimeIsShort(d);
    var lines := AddLine([], "m=audio " + Decimal(d.port) + " RTP/AVP 96");
    lines := AddLine(lines, "a=rtpmap:96 L24/" + Decimal(d.sampleRate) + "/" + Decimal(d.channels));
    lines := AddLine(lines, "a=ptime:" + PtimeText(d));
    lines := AddLine(lines, "a=mediaclk:" + "direct=0");
    lines := AddLine(lines, "a=ts-refclk:" + "ptp=IEEE1588-2008:00-1B-21-AB-CD-EF:0");
    lines := AddLine(lines, "a=sync-time:0");
    assert lines == FormatLines(d);
  }

  /** What the receive buffer holds is enough for any name and address of 1700 characters together. */
  lemma ShortIsAnnounceable(d: StreamDescription)
    requires NoNewline(d.name) && IsAddress(d.multicastAddr) && |d.name| + |d.multicastAddr| <= 1700
    ensures Announceable(d)
  {
    SessionLength(d);
    FormatLength(d);
    JoinAppend(SessionLines(d), FormatLines(d));
    assert forall i :: 0 <= i < |d.multicastAddr| ==> InRun(Connection, d.multicastAddr[i]);
  }

  function EngineName(i: U32): string {
    "AES67 VSC - Stream " + Decimal(i + 1)
  }

  /** Stream i of the engine. */
  function EngineStream(i: U32, packetTimeUs: U32, roundsUp: bool): StreamDescription {
    StreamDescription(i, EngineName(i), "239.69.1." + Decimal(i + 1), 5004, 8, 48000, packetTimeUs, roundsUp)
  }

  function EngineStreams(heard: seq<U32>, packetTimeUs: U32, roundsUp: bool): seq<StreamDescription> {
    seq(|heard|, i requires 0 <= i < |heard| => EngineStream(heard[i], packetTimeUs, roundsUp))
  }

  lemma EngineIsAnnounceable(i: U32, packetTimeUs: U32, roundsUp: bool)
    requires i < 8
    ensures var d := EngineStream(i, packetTimeUs, roundsUp); Announceable(d) && Key(d) == EngineName(i)
  {
    var name, net := "AES67 VSC - Stream ", "239.69.1.";
    assert NoNewline(name);
    DigitsHaveNoNewline(i + 1);
    TensAre();
    DecimalIsShort(i + 1, 3);
    assert forall k :: 0 <= k < |net| ==> InRun(Connection, net[k]);
    ShortIsAnnounceable(EngineStream(i, packetTimeUs, roundsUp));
  }

  lemma NamesDiffer(i: U32, j: U32)
    requires EngineName(i) == EngineName(j)
    ensures i == j
  {
    var name := "AES67 VSC - Stream ";
    assert EngineName(i)[|name|..] == Decimal(i + 1);
    assert EngineName(j)[|name|..] == Decimal(j + 1);
    DecimalRoundTrip(i + 1);
    DecimalRoundTrip(j + 1);
  }

  /** The session tells where engine stream i is. */
  ghost predicate LeadsTo(s: Session, i: U32) {
    && s.connectionAddr == "239.69.1." + Decimal(i + 1) && s.port == 5004
    && s.payloadType == 96 && s.sampleRate == 48000 && s.channels == 8
  }

  lemma TunedLeads(s: Session, i: U32, packetTimeUs: U32, roundsUp: bool)
    requires Tunes(s, EngineStream(i, packetTimeUs, roundsUp))
    ensures LeadsTo(s, i)
  {
  }

  lemma EngineKeys(heard: seq<U32>, packetTimeUs: U32, roundsUp: bool)
    requires forall i :: 0 <= i < |heard| ==> heard[i] < 8
    ensures var ds := EngineStreams(heard, packetTimeUs, roundsUp);
      && AllAnnounceable(ds)
      && (forall i :: 0 <= i < |ds| ==> Key(ds[i]) == EngineName(heard[i]))
      && forall i, j :: 0 <= i < |ds| && 0 <= j < |ds| && Key(ds[i]) == Key(ds[j]) ==> ds[i] == ds[j]
  {
    var ds := EngineStreams(heard, packetTimeUs, roundsUp);
    forall i | 0 <= i < |ds|
      ensures Announceable(ds[i]) && Key(ds[i]) == EngineName(heard[i])
    {
      EngineIsAnnounceable(heard[i], packetTimeUs, roundsUp);
    }
    forall i, j | 0 <= i < |ds| && 0 <= j < |ds| && Key(ds[i]) == Key(ds[j])
      ensures ds[i] == ds[j]
    {
      NamesDiffer(heard[i], heard[j]);
    }
  }

  lemma EngineListed(directory: map<string, Session>, heard: seq<U32>, packetTimeUs: U32, roundsUp: bool)
    requires forall i :: 0 <= i < |heard| ==> heard[i] < 8
    requires Lists(directory, EngineStreams(heard, packetTimeUs, roundsUp))
    ensures forall name :: name in directory <==> exists i :: 0 <= i < |heard| && EngineName(heard[i]) == name
    ensures forall i :: 0 <= i < |heard| ==> LeadsTo(directory[EngineName(heard[i])], heard[i])
  {
    var ds := EngineStreams(heard, packetTimeUs, roundsUp);
    EngineKeys(heard, packetTimeUs, roundsUp);
    forall i | 0 <= i < |heard|
      ensures Key(ds[i]) == EngineName(heard[i]) && LeadsTo(directory[EngineName(heard[i])], heard[i])
    {
      TunedLeads(directory[Key(ds[i])], heard[i], packetTimeUs, roundsUp);
    }
  }

  /** THE ENGINE IS FOUND.  After announcements of the engine's streams, in any order and any number, a listener's
      directory lists exactly the streams announced, each with its own address: none hides another. */
  lemma EngineIsDiscovered(heard: seq<U32>, packetTimeUs: U32, roundsUp: bool, start: Session)
    requires IsNew(start) && forall i :: 0 <= i < |heard| ==> heard[i] < 8
    ensures var directory := Directory(EngineStreams(heard, packetTimeUs, roundsUp), start);
      && (forall name :: name in directory <==> exists i :: 0 <= i < |heard| && EngineName(heard[i]) == name)
      && forall i :: 0 <= i < |heard| ==> LeadsTo(directory[EngineName(heard[i])], heard[i])
  {
    var ds := EngineStreams(heard, packetTimeUs, roundsUp);
    EngineKeys(heard, packetTimeUs, roundsUp);
    DirectoryIsComplete(ds, start);
    EngineListed(Directory(ds, start), heard, packetTimeUs, roundsUp);
  }
}
