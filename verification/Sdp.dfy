/** SDP session descriptions (RFC 8866 section 5): the parser, the printer, and their agreement. */
module Sdp {
  import opened Words
  import opened Text

  /** The packet time is kept as the text after `ptime:`, from which std::stod makes the number. */
  datatype Session = Session(
    origin: string, sessionName: string, connectionAddr: string, port: U16, payloadType: U8, rtpmap: string,
    sampleRate: U32, channels: U8, ptime: string, ptpRefClock: string, mediaClk: string)

  /** A number that is too large, and a packet time that is no number, make the C++ parser throw. */
  datatype Result = Parsed(session: Session) | Thrown

  // ---------------------------------------------------------------------------------------------
  // The three patterns
  // ---------------------------------------------------------------------------------------------

  /** IN IP4 ([0-9.]+)     audio (\d+) RTP/AVP (\d+)     L24/(\d+)/(\d+) */
  datatype Pattern = Connection | Media | Rtpmap

  datatype Match = NoMatch | Match(first: string, second: string)

  predicate InRun(p: Pattern, c: char) {
    IsDigit(c) || (p == Connection && c == '.')
  }

  /** The end of the longest run from place i; the patterns are greedy and never need to give back. */
  function RunEnd(p: Pattern, v: string, i: nat): (e: nat)
    requires i <= |v|
    ensures i <= e <= |v|
    ensures forall j :: i <= j < e ==> InRun(p, v[j])
    ensures e < |v| ==> !InRun(p, v[e])
    decreases |v| - i
  {
    if i < |v| && InRun(p, v[i]) then RunEnd(p, v, i + 1) else i
  }

  lemma RunEndIs(p: Pattern, v: string, i: nat, e: nat)
    requires i <= e <= |v|
    requires forall j :: i <= j < e ==> InRun(p, v[j])
    requires e < |v| ==> !InRun(p, v[e])
    ensures RunEnd(p, v, i) == e
  {
  }

  function Head(p: Pattern): string {
    match p
    case Connection => "IN IP4 "
    case Media => "audio "
    case Rtpmap => "L24/"
  }

  function Middle(p: Pattern): string
    requires p != Connection
  {
    if p == Media then " RTP/AVP " else "/"
  }

  function MatchAt(p: Pattern, v: string, i: nat): (m: Match)
    ensures m.Match? && p == Connection ==> forall j :: 0 <= j < |m.first| ==> InRun(p, m.first[j])
    ensures m.Match? && p != Connection ==> AllDigits(m.first) && AllDigits(m.second)
  {
    if !StartsAt(v, i, Head(p)) then NoMatch
    else
      var b := i + |Head(p)|;
      var e := RunEnd(p, v, b);
      if e == b then NoMatch
      else if p == Connection then Match(v[b..e], "")
      else if !StartsAt(v, e, Middle(p)) then NoMatch
      else
        var b2 := e + |Middle(p)|;
        var e2 := RunEnd(p, v, b2);
        if e2 == b2 then NoMatch else Match(v[b..e], v[b2..e2])
  }

  /** std::regex_search: the match at the first place that has one. */
  function Search(p: Pattern, v: string, i: nat): (m: Match)
    requires i <= |v|
    ensures m.Match? && p == Connection ==> forall j :: 0 <= j < |m.first| ==> InRun(p, m.first[j])
    ensures m.Match? && p != Connection ==> AllDigits(m.first) && AllDigits(m.second)
    decreases |v| - i
  {
    var m := MatchAt(p, v, i);
    if m.Match? || i == |v| then m else Search(p, v, i + 1)
  }

  lemma {:induction false} SearchSkips(p: Pattern, v: string, i: nat, j: nat)
    requires i <= j <= |v|
    requires forall k :: i <= k < j ==> MatchAt(p, v, k) == NoMatch
    ensures Search(p, v, i) == Search(p, v, j)
    decreases j - i
  {
    if i < j {
      assert MatchAt(p, v, i) == NoMatch;
      SearchSkips(p, v, i + 1, j);
    }
  }

  // ---------------------------------------------------------------------------------------------
  // The parser
  // ---------------------------------------------------------------------------------------------

  const INT_MAX := 0x7FFF_FFFF

  /** std::stoi on both numbers, cut to the fields' widths. */
  function StoreMedia(m: Match, s: Session): Result
    requires m.Match? ==> AllDigits(m.first) && AllDigits(m.second)
  {
    if m.NoMatch? then Parsed(s)
    else
      var n1, n2 := Number(m.first), Number(m.second);
      if n1 > INT_MAX || n2 > INT_MAX then Thrown
      else Parsed(s.(port := n1 % TWO16, payloadType := n2 % TWO8))
  }

  /** std::stoul on both numbers, cut to the fields' widths. */
  function StoreRtpmap(m: Match, s: Session): Result
    requires m.Match? ==> AllDigits(m.first) && AllDigits(m.second)
  {
    if m.NoMatch? then Parsed(s)
    else
      var n1, n2 := Number(m.first), Number(m.second);
      if n1 >= TWO64 || n2 >= TWO64 then Thrown
      else Parsed(s.(sampleRate := n1 % TWO32, channels := n2 % TWO8))
  }

  /** White space, as std::stod skips it. */
  predicate IsSpace(c: char) {
    c == ' ' || 9 <= c as int <= 13
  }

  function SkipSpaces(s: string): string {
    if s != [] && IsSpace(s[0]) then SkipSpaces(s[1..]) else s
  }

  function SkipSign(s: string): string {
    if s != [] && (s[0] == '+' || s[0] == '-') then s[1..] else s
  }

  /** The text begins with a word, in capital or small letters. */
  predicate Says(s: string, word: string) {
    && |word| <= |s|
    && forall i :: 0 <= i < |word| ==> s[i] == word[i] || s[i] as int == word[i] as int - 32
  }

  /** std::stod finds a number to convert: digits, perhaps behind a point, or infinity, or not-a-number. */
  predicate StartsNumber(text: string) {
    var s := SkipSign(SkipSpaces(text));
    || (s != [] && IsDigit(s[0]))
    || (|s| >= 2 && s[0] == '.' && IsDigit(s[1]))
    || Says(s, "inf") || Says(s, "nan")
  }

  function StorePtime(text: string, s: Session): Result {
    if StartsNumber(text) then Parsed(s.(ptime := text)) else Thrown
  }

  function ParseRtpmap(value: string, s: Session): Result
    requires |value| >= 7
  {
    StoreRtpmap(Search(Rtpmap, value, 0), s.(rtpmap := value[7..]))
  }

  function ParseAttribute(value: string, s: Session): Result {
    if StartsAt(value, 0, "rtpmap:") then ParseRtpmap(value, s)
    else if StartsAt(value, 0, "ptime:") then StorePtime(value[6..], s)
    else if StartsAt(value, 0, "ts-refclk:") then Parsed(s.(ptpRefClock := value[10..]))
    else if StartsAt(value, 0, "mediaclk:") then Parsed(s.(mediaClk := value[9..]))
    else Parsed(s)
  }

  function ParseField(kind: char, value: string, s: Session): Result {
    match kind
    case 'o' => Parsed(s.(origin := value))
    case 's' => Parsed(s.(sessionName := value))
    case 'c' =>
      var m := Search(Connection, value, 0);
      Parsed(if m.Match? then s.(connectionAddr := m.first) else s)
    case 'm' => StoreMedia(Search(Media, value, 0), s)
    case 'a' => ParseAttribute(value, s)
    case _ => Parsed(s)
  }

  function Strip(line: string): string {
    if line != [] && line[|line| - 1] == '\r' then line[..|line| - 1] else line
  }

  function ParseLine(line: string, s: Session): Result {
    var l := Strip(line);
    if |l| < 2 || l[1] != '=' then Parsed(s) else ParseField(l[0], l[2..], s)
  }

  /** What is left of a stream after its first line. */
  function Rest(text: string): string {
    var e := IndexOf(text, '\n');
    if e < |text| then text[e + 1..] else []
  }

  /** Reading a text line by line. */
  function ParseText(text: string, s: Session): Result
    decreases |text|
  {
    if text == [] then Parsed(s)
    else
      match ParseLine(text[..IndexOf(text, '\n')], s)
      case Thrown => Thrown
      case Parsed(s') => ParseText(Rest(text), s')
  }

  /** The strings of a new session are empty; its numbers are whatever memory held. */
  predicate IsNew(s: Session) {
    s.origin == s.sessionName == s.connectionAddr == s.rtpmap == s.ptpRefClock == s.mediaClk == []
  }

  method Parse(sdp: string, uninitialised: Session) returns (r: Result)
    requires IsNew(uninitialised)
    ensures r == ParseText(sdp, uninitialised)
  {
    var session := uninitialised;
    var stream := sdp;
    while stream != []
      invariant ParseText(sdp, uninitialised) == ParseText(stream, session)
      decreases |stream|
    {
      var line := stream[..IndexOf(stream, '\n')];
      if line != [] && line[|line| - 1] == '\r' {
        line := line[..|line| - 1];
      }
      var rest := Rest(stream);
      if |line| < 2 || line[1] != '=' {
        stream := rest;
        continue;
      }
      var field := ParseField(line[0], line[2..], session);
      if field.Thrown? {
        return Thrown;
      }
      session := field.session;
      stream := rest;
    }
    r := Parsed(session);
  }

  // ---------------------------------------------------------------------------------------------
  // Texts made of lines
  // ---------------------------------------------------------------------------------------------

  const EOL := "\r\n"

  function Join(lines: seq<string>): string {
    if lines == [] then [] else Join(lines[..|lines| - 1]) + (lines[|lines| - 1] + EOL)
  }

  ghost predicate NoNewline(s: string) {
    '\n' !in s
  }

  ghost predicate NoNewlines(lines: seq<string>) {
    forall i :: 0 <= i < |lines| ==> NoNewline(lines[i])
  }

  /** Parsing line by line, without the line ends. */
  function FoldLines(lines: seq<string>, s: Session): Result {
    if lines == [] then Parsed(s)
    else
      match FoldLines(lines[..|lines| - 1], s)
      case Thrown => Thrown
      case Parsed(t) => ParseLine(lines[|lines| - 1] + "\r", t)
  }

  lemma NothingStripped(line: string, s: Session)
    requires line == "" || line[|line| - 1] != '\r'
    ensures ParseLine(line, s) == ParseLine(line + "\r", s)
    ensures ParseLine(line, s) ==
      if |line| < 2 || line[1] != '=' then Parsed(s) else ParseField(line[0], line[2..], s)
  {
    assert Strip(line + "\r") == line;
  }

  lemma LineFeed(line: string, rest: string, s: Session)
    requires NoNewline(line)
    ensures ParseText(line + "\n" + rest, s) ==
      match ParseLine(line, s)
      case Thrown => Thrown
      case Parsed(t) => ParseText(rest, t)
  {
    var text := line + "\n" + rest;
    assert text[|line|] == '\n' && text[..|line|] == line;
    IndexIsUnique(text, '\n', |line|);
    assert text[|line| + 1..] == rest;
  }

  lemma OnlyLine(line: string, s: Session)
    requires NoNewline(line)
    ensures ParseText(line, s) == ParseLine(line, s)
  {
    if line != "" {
      assert IndexOf(line, '\n') == |line|;
      assert line[..|line|] == line;
    }
  }

  lemma FirstLine(line: string, rest: string, s: Session)
    requires NoNewline(line)
    ensures ParseText(line + EOL + rest, s) ==
      match ParseLine(line + "\r", s)
      case Thrown => Thrown
      case Parsed(t) => ParseText(rest, t)
  {
    var text := line + EOL + rest;
    var e := |line| + 1;
    assert text[e] == '\n' && text[..e] == line + "\r";
    IndexIsUnique(text, '\n', e);
    assert text[e + 1..] == rest;
  }

  /** A line that does not end in CR is read the same whether LF or CR LF ends it, or the text does; nothing of
      it is lost. */
  lemma LineEndsAgree(line: string, rest: string, s: Session)
    requires NoNewline(line) && (line == "" || line[|line| - 1] != '\r')
    ensures ParseText(line + "\n" + rest, s) == ParseText(line + "\r\n" + rest, s)
    ensures ParseText(line, s) == ParseText(line + "\n", s) == ParseText(line + "\r\n", s)
    ensures ParseText(line, s) ==
      if |line| < 2 || line[1] != '=' then Parsed(s) else ParseField(line[0], line[2..], s)
  {
    LineFeed(line, rest, s);
    LineFeed(line, "", s);
    FirstLine(line, rest, s);
    FirstLine(line, "", s);
    assert line + "\n" + "" == line + "\n" && line + EOL + "" == line + "\r\n";
    NothingStripped(line, s);
    OnlyLine(line, s);
  }

  function End(crlf: bool): string {
    if crlf then "\r\n" else "\n"
  }

  lemma OneLineRead(line: string, rest: string, crlf: bool, s: Session)
    requires NoNewline(line) && (line == "" || line[|line| - 1] != '\r')
    ensures ParseText(line + End(crlf) + rest, s) ==
      match ParseLine(line, s)
      case Thrown => Thrown
      case Parsed(t) => ParseText(rest, t)
  {
    NothingStripped(line, s);
    if crlf {
      FirstLine(line, rest, s);
    } else {
      LineFeed(line, rest, s);
    }
  }

  /** Each line followed by its own line end: CR LF where `crlf` says so, else LF. */
  function JoinWith(lines: seq<string>, crlf: seq<bool>): string
    requires |lines| == |crlf|
    decreases |lines|
  {
    if lines == [] then "" else lines[0] + End(crlf[0]) + JoinWith(lines[1..], crlf[1..])
  }

  /** No newline, and no CR at the end. */
  ghost predicate PlainLine(line: string) {
    NoNewline(line) && (line == "" || line[|line| - 1] != '\r')
  }

  lemma SameLine(line: string, a: bool, b: bool, restA: string, restB: string, s: Session)
    requires PlainLine(line)
    requires forall t :: ParseText(restA, t) == ParseText(restB, t)
    ensures ParseText(line + End(a) + restA, s) == ParseText(line + End(b) + restB, s)
  {
    OneLineRead(line, restA, a, s);
    OneLineRead(line, restB, b, s);
  }

  /** LINE ENDS.  Texts of the same lines parse the same, whichever ends in LF and whichever in CR LF. */
  lemma {:induction false} LineEndsDoNotMatter(lines: seq<string>, a: seq<bool>, b: seq<bool>, s: Session)
    requires |lines| == |a| == |b| && forall i :: 0 <= i < |lines| ==> PlainLine(lines[i])
    ensures ParseText(JoinWith(lines, a), s) == ParseText(JoinWith(lines, b), s)
    decreases |lines|
  {
    if lines != [] {
      var restA, restB := JoinWith(lines[1..], a[1..]), JoinWith(lines[1..], b[1..]);
      forall t
        ensures ParseText(restA, t) == ParseText(restB, t)
      {
        LineEndsDoNotMatter(lines[1..], a[1..], b[1..], t);
      }
      SameLine(lines[0], a[0], b[0], restA, restB, s);
    }
  }

  lemma {:induction false} ParsePrefix(lines: seq<string>, rest: string, s: Session)
    requires NoNewlines(lines)
    ensures ParseText(Join(lines) + rest, s) ==
      match FoldLines(lines, s)
      case Thrown => Thrown
      case Parsed(t) => ParseText(rest, t)
    decreases |lines|
  {
    if lines == [] {
      assert Join(lines) + rest == rest;
    } else {
      var n := |lines| - 1;
      var tail := lines[n] + EOL + rest;
      assert Join(lines) + rest == Join(lines[..n]) + tail;
      ParsePrefix(lines[..n], tail, s);
      match FoldLines(lines[..n], s)
      case Thrown =>
      case Parsed(t) => FirstLine(lines[n], rest, t);
    }
  }

  /** A text of lines parses as its lines do. */
  lemma ParseLines(lines: seq<string>, s: Session)
    requires NoNewlines(lines)
    ensures ParseText(Join(lines), s) == FoldLines(lines, s)
  {
    ParsePrefix(lines, [], s);
    assert Join(lines) + [] == Join(lines);
  }

  // ---------------------------------------------------------------------------------------------
  // What each kind of line does
  // ---------------------------------------------------------------------------------------------

  lemma Together<T>(a: seq<T>, b: seq<T>, c: seq<T>)
    ensures (a + b) + c == a + (b + c)
  {
  }

  /** A line `k=value` is handed to the field parser, whatever its value. */
  lemma FieldLine(kind: char, value: string, s: Session)
    ensures ParseLine([kind, '='] + value + "\r", s) == ParseField(kind, value, s)
  {
    var line := [kind, '='] + value + "\r";
    assert Strip(line) == [kind, '='] + value;
    assert ([kind, '='] + value)[2..] == value;
  }

  /** A line that is too short, has no `=` behind its first letter, or is of another kind changes nothing. */
  lemma OtherLine(line: string, s: Session)
    requires |line| < 2 || line[1] != '=' || line[0] !in "oscma"
    ensures ParseLine(line + "\r", s) == Parsed(s)
  {
    assert Strip(line + "\r") == line;
  }

  /** What makes a text a number to std::stod: a digit, at once or behind a point; a sign may come first, and
      white space before all.  No other letter does but those of infinity and not-a-number. */
  lemma NumberOrNot(c: char, text: string)
    ensures '0' <= c <= '9' ==> StartsNumber([c] + text) && StartsNumber(['.', c] + text)
    ensures '0' <= c <= '9' ==> StartsNumber(['+', c] + text) && StartsNumber(['-', c] + text)
    ensures c == ' ' || 9 <= c as int <= 13 ==> StartsNumber([c] + text) == StartsNumber(text)
    ensures !StartsNumber("")
    ensures !('0' <= c <= '9') && c !in ". +-iInN" && !(9 <= c as int <= 13) ==> !StartsNumber([c] + text)
  {
    assert ([c] + text)[1..] == text;
    assert (['+', c] + text)[1..] == [c] + text == (['-', c] + text)[1..];
  }

  predicate IsAddress(s: string) {
    forall i :: 0 <= i < |s| ==> '0' <= s[i] <= '9' || s[i] == '.'
  }

  /** The address a connection line yields. */
  function FoundAddress(addr: string, before: string): string {
    var m := Search(Connection, "IN IP4 " + addr + "/32", 0);
    if m.Match? then m.first else before
  }

  lemma EmptyAddress()
    ensures Search(Connection, "IN IP4 " + "/32", 0) == NoMatch
  {
    var v := "IN IP4 " + "/32";
    RunEndIs(Connection, v, 7, 7);
    forall i | 0 <= i < |v|
      ensures MatchAt(Connection, v, i) == NoMatch
    {
      if i > 0 && StartsAt(v, i, "IN IP4 ") {
        assert v[i..i + 7][0] == v[i];
      }
    }
    SearchSkips(Connection, v, 0, |v|);
  }

  /** It is the printed one exactly if that is made of digits and dots only. */
  lemma AddressFoundIff(addr: string)
    ensures FoundAddress(addr, "") == addr <==> IsAddress(addr)
  {
    var head := "IN IP4 ";
    var v := head + addr + "/32";
    if IsAddress(addr) {
      RunEndIs(Connection, v, 7, 7 + |addr|);
      assert StartsAt(v, 0, head);
      assert v[7..7 + |addr|] == addr;
      if addr == [] {
        EmptyAddress();
        assert head + [] + "/32" == head + "/32";
      }
    }
  }

  lemma MiddleStops(p: Pattern, v: string, e: nat)
    requires p != Connection && StartsAt(v, e, Middle(p))
    ensures e < |v| && !InRun(p, v[e])
  {
    assert v[e] == v[e..e + |Middle(p)|][0];
  }

  lemma MatchFound(p: Pattern, v: string, at: nat, e: nat, e2: nat)
    requires p != Connection && StartsAt(v, at, Head(p))
    requires at + |Head(p)| < e == RunEnd(p, v, at + |Head(p)|)
    requires StartsAt(v, e, Middle(p))
    requires e + |Middle(p)| < e2 == RunEnd(p, v, e + |Middle(p)|)
    ensures MatchAt(p, v, at) == Match(v[at + |Head(p)|..e], v[e + |Middle(p)|..e2])
  {
  }

  lemma RunIs(p: Pattern, v: string, i: nat, a: string)
    requires i + |a| <= |v| && v[i..i + |a|] == a && AllDigits(a)
    requires i + |a| < |v| ==> !InRun(p, v[i + |a|])
    ensures RunEnd(p, v, i) == i + |a|
  {
    forall j | i <= j < i + |a|
      ensures InRun(p, v[j])
    {
      assert v[j] == a[j - i];
    }
    RunEndIs(p, v, i, i + |a|);
  }

  /** A text that stands where a two-number pattern expects it is matched whole. */
  lemma WholeMatch(p: Pattern, v: string, at: nat, a: string, b: string)
    requires p != Connection && a != [] && b != [] && AllDigits(a) && AllDigits(b)
    requires StartsAt(v, at, Head(p)) && StartsAt(v, at + |Head(p)|, a)
    requires StartsAt(v, at + |Head(p)| + |a|, Middle(p))
    requires at + |Head(p)| + |a| + |Middle(p)| + |b| == |v|
    requires StartsAt(v, at + |Head(p)| + |a| + |Middle(p)|, b)
    ensures MatchAt(p, v, at) == Match(a, b)
  {
    var i := at + |Head(p)|;
    var e := i + |a|;
    var i2 := e + |Middle(p)|;
    MiddleStops(p, v, e);
    RunIs(p, v, i, a);
    RunIs(p, v, i2, b);
    MatchFound(p, v, at, e, |v|);
  }

  lemma FiveParts(x: string, h: string, a: string, m: string, b: string)
    ensures var v := x + (h + a + m + b);
      && StartsAt(v, |x|, h) && StartsAt(v, |x| + |h|, a) && StartsAt(v, |x| + |h| + |a|, m)
      && StartsAt(v, |x| + |h| + |a| + |m|, b) && |v| == |x| + |h| + |a| + |m| + |b|
  {
    var v := x + (h + a + m + b);
    assert v == x + h + (a + m + b);
    StandsAt(x, h, a + m + b);
    assert v == (x + h) + a + (m + b);
    StandsAt(x + h, a, m + b);
    assert v == (x + h + a) + m + b;
    StandsAt(x + h + a, m, b);
    assert v == (x + h + a + m) + b + [];
    StandsAt(x + h + a + m, b, []);
  }

  lemma TwoNumbersMatch(p: Pattern, v: string, before: string, a: string, b: string)
    requires p != Connection && a != [] && b != [] && AllDigits(a) && AllDigits(b)
    requires v == before + (Head(p) + a + Middle(p) + b)
    ensures MatchAt(p, v, |before|) == Match(a, b)
  {
    FiveParts(before, Head(p), a, Middle(p), b);
    WholeMatch(p, v, |before|, a, b);
  }

  lemma FoundAtStart(p: Pattern, v: string, m: Match)
    requires MatchAt(p, v, 0) == m && m.Match?
    ensures Search(p, v, 0) == m
  {
  }

  lemma FoundAlone(p: Pattern, a: string, b: string)
    requires p != Connection && a != [] && b != [] && AllDigits(a) && AllDigits(b)
    ensures Search(p, Head(p) + a + Middle(p) + b, 0) == Match(a, b)
  {
    var v := Head(p) + a + Middle(p) + b;
    TwoNumbersMatch(p, v, [], a, b);
    FoundAtStart(p, v, Match(a, b));
  }

  lemma StorePorts(a: string, b: string, s: Session)
    requires AllDigits(a) && AllDigits(b)
    ensures StoreMedia(Match(a, b), s) ==
      if Number(a) > 2147483647 || Number(b) > 2147483647 then Thrown
      else Parsed(s.(port := Number(a) % 65536, payloadType := Number(b) % 256))
  {
  }

  lemma MediaDispatch(value: string, s: Session)
    ensures ParseField('m', value, s) == StoreMedia(Search(Media, value, 0), s)
  {
  }

  /** A media line with any two numbers: beyond an int they throw, and else they are cut to 16 and 8 bits. */
  lemma MediaNumbers(a: string, b: string, s: Session)
    requires a != [] && b != [] && AllDigits(a) && AllDigits(b)
    ensures ParseField('m', "audio " + a + " RTP/AVP " + b, s) ==
      if Number(a) > 2147483647 || Number(b) > 2147483647 then Thrown
      else Parsed(s.(port := Number(a) % 65536, payloadType := Number(b) % 256))
  {
    FoundAlone(Media, a, b);
    MediaDispatch("audio " + a + " RTP/AVP " + b, s);
    StorePorts(a, b, s);
  }

  lemma MediaFound(port: U16, payloadType: U8)
    ensures Search(Media, "audio " + Decimal(port) + " RTP/AVP " + Decimal(payloadType), 0) ==
      Match(Decimal(port), Decimal(payloadType))
  {
    FoundAlone(Media, Decimal(port), Decimal(payloadType));
  }

  lemma StoreMediaNumbers(port: U16, payloadType: U8, s: Session)
    ensures StoreMedia(Match(Decimal(port), Decimal(payloadType)), s) ==
      Parsed(s.(port := port, payloadType := payloadType))
  {
    DecimalRoundTrip(port);
    DecimalRoundTrip(payloadType);
    DivModUnique(port, TWO16, 0, port);
    DivModUnique(payloadType, TWO8, 0, payloadType);
  }

  lemma StoreRtpmapNumbers(rate: U32, channels: U8, s: Session)
    ensures StoreRtpmap(Match(Decimal(rate), Decimal(channels)), s) ==
      Parsed(s.(sampleRate := rate, channels := channels))
  {
    DecimalRoundTrip(rate);
    DecimalRoundTrip(channels);
    DivModUnique(rate, TWO32, 0, rate);
    DivModUnique(channels, TWO8, 0, channels);
  }

  lemma MediaLine(port: U16, payloadType: U8, s: Session)
    ensures ParseField('m', "audio " + Decimal(port) + " RTP/AVP " + Decimal(payloadType), s) ==
      Parsed(s.(port := port, payloadType := payloadType))
  {
    MediaFound(port, payloadType);
    StoreMediaNumbers(port, payloadType, s);
  }

  function L24Map(rate: U32, channels: U8): string {
    "L24/" + Decimal(rate) + "/" + Decimal(channels)
  }

  lemma NoEarlyMatch(p: Pattern, v: string, k: nat)
    requires k < |v| && v[k] != Head(p)[0]
    ensures MatchAt(p, v, k) == NoMatch
  {
  }

  lemma NoMatchWithout(p: Pattern, v: string)
    requires Head(p)[0] !in v
    ensures Search(p, v, 0) == NoMatch
  {
    forall k | 0 <= k < |v|
      ensures MatchAt(p, v, k) == NoMatch
    {
      NoEarlyMatch(p, v, k);
    }
    SearchSkips(p, v, 0, |v|);
  }

  /** An L24 format is found behind any text without a letter L. */
  lemma FormatFound(before: string, a: string, b: string)
    requires a != [] && b != [] && AllDigits(a) && AllDigits(b) && 'L' !in before
    ensures Search(Rtpmap, before + ("L24/" + a + "/" + b), 0) == Match(a, b)
  {
    var v := before + ("L24/" + a + "/" + b);
    forall k | 0 <= k < |before|
      ensures MatchAt(Rtpmap, v, k) == NoMatch
    {
      assert v[k] == before[k];
      NoEarlyMatch(Rtpmap, v, k);
    }
    SearchSkips(Rtpmap, v, 0, |before|);
    TwoNumbersMatch(Rtpmap, v, before, a, b);
  }

  lemma AttributeIsRtpmap(value: string, s: Session)
    requires StartsAt(value, 0, "rtpmap:")
    ensures |value| >= 7 && ParseAttribute(value, s) == ParseRtpmap(value, s)
  {
  }

  lemma RtpmapDispatch(value: string, rest: string, s: Session)
    requires value == "rtpmap:" + rest
    ensures ParseField('a', value, s) == StoreRtpmap(Search(Rtpmap, value, 0), s.(rtpmap := rest))
  {
    assert StartsAt(value, 0, "rtpmap:");
    assert value[7..] == rest;
    AttributeIsRtpmap(value, s);
  }

  lemma StoreNumbers(a: string, b: string, s: Session)
    requires AllDigits(a) && AllDigits(b)
    ensures StoreRtpmap(Match(a, b), s) ==
      if Number(a) >= 0x1_0000_0000_0000_0000 || Number(b) >= 0x1_0000_0000_0000_0000 then Thrown
      else Parsed(s.(sampleRate := Number(a) % 0x1_0000_0000, channels := Number(b) % 256))
  {
  }

  /** A format with any two numbers: beyond 64 bits they throw, and else they are cut to 32 and 8 bits. */
  lemma RtpmapNumbers(before: string, a: string, b: string, s: Session)
    requires a != [] && b != [] && AllDigits(a) && AllDigits(b) && 'L' !in before
    ensures ParseField('a', "rtpmap:" + (before + ("L24/" + a + "/" + b)), s) ==
      if Number(a) >= 0x1_0000_0000_0000_0000 || Number(b) >= 0x1_0000_0000_0000_0000 then Thrown
      else Parsed(s.(rtpmap := before + ("L24/" + a + "/" + b),
                     sampleRate := Number(a) % 0x1_0000_0000, channels := Number(b) % 256))
  {
    var format := "L24/" + a + "/" + b;
    FormatFound("rtpmap:" + before, a, b);
    Together("rtpmap:", before, format);
    RtpmapDispatch("rtpmap:" + (before + format), before + format, s);
    StoreNumbers(a, b, s.(rtpmap := before + format));
  }

  /** A connection, media or format line without the first letter of its pattern sets nothing by it, and does
      not throw. */
  lemma NothingFound(v: string, s: Session)
    ensures 'I' !in v ==> ParseField('c', v, s) == Parsed(s)
    ensures 'a' !in v ==> ParseField('m', v, s) == Parsed(s)
    ensures 'L' !in v ==> ParseField('a', "rtpmap:" + v, s) == Parsed(s.(rtpmap := v))
  {
    if 'I' !in v {
      NoMatchWithout(Connection, v);
    }
    if 'a' !in v {
      NoMatchWithout(Media, v);
    }
    if 'L' !in v {
      NoMatchWithout(Rtpmap, "rtpmap:" + v);
      RtpmapDispatch("rtpmap:" + v, v, s);
    }
  }

  lemma RtpmapLine(payloadType: U8, rate: U32, channels: U8, s: Session)
    ensures ParseField('a', "rtpmap:" + Decimal(payloadType) + " " + L24Map(rate, channels), s) ==
      Parsed(s.(rtpmap := Decimal(payloadType) + " " + L24Map(rate, channels),
                sampleRate := rate, channels := channels))
  {
    var before := "rtpmap:" + Decimal(payloadType) + " ";
    var rest := Decimal(payloadType) + " " + L24Map(rate, channels);
    var value := before + L24Map(rate, channels);
    assert value == "rtpmap:" + rest;
    FormatFound(before, Decimal(rate), Decimal(channels));
    StoreRtpmapNumbers(rate, channels, s.(rtpmap := rest));
    RtpmapDispatch(value, rest, s);
  }

  lemma PtimeLine(text: string, s: Session)
    ensures ParseField('a', "ptime:" + text, s) == if StartsNumber(text) then Parsed(s.(ptime := text)) else Thrown
  {
    var v := "ptime:" + text;
    DiffersAt(v, "rtpmap:", 0);
    assert StartsAt(v, 0, "ptime:") && v[6..] == text;
  }

  lemma RefclkLine(text: string, s: Session)
    ensures ParseField('a', "ts-refclk:" + text, s) == Parsed(s.(ptpRefClock := text))
  {
    var v := "ts-refclk:" + text;
    DiffersAt(v, "rtpmap:", 0);
    DiffersAt(v, "ptime:", 0);
    assert StartsAt(v, 0, "ts-refclk:") && v[10..] == text;
  }

  lemma MediaclkLine(text: string, s: Session)
    ensures ParseField('a', "mediaclk:" + text, s) == Parsed(s.(mediaClk := text))
  {
    var v := "mediaclk:" + text;
    DiffersAt(v, "rtpmap:", 0);
    DiffersAt(v, "ptime:", 0);
    DiffersAt(v, "ts-refclk:", 0);
    assert StartsAt(v, 0, "mediaclk:") && v[9..] == text;
  }

  lemma OtherAttributeLine(v: string, s: Session)
    requires v == "recvonly" || v == "sync-time:0"
    ensures ParseField('a', v, s) == Parsed(s)
  {
    DiffersAt(v, "rtpmap:", 1);
    DiffersAt(v, "ptime:", 0);
    DiffersAt(v, "ts-refclk:", 1);
    DiffersAt(v, "ts-refclk:", 0);
    DiffersAt(v, "mediaclk:", 0);
  }

  // ---------------------------------------------------------------------------------------------
  // The printer
  // ---------------------------------------------------------------------------------------------

  function NameLines(s: Session): seq<string> {
    ["v=" + "0", "o=" + s.origin, "s=" + s.sessionName]
  }

  function AddressLines(s: Session): seq<string> {
    ["c=" + ("IN IP4 " + s.connectionAddr + "/32"), "t=" + "0 0", "a=" + "recvonly"]
  }

  function MediaLines(s: Session): seq<string> {
    ["m=" + ("audio " + Decimal(s.port) + " RTP/AVP " + Decimal(s.payloadType)),
     "a=" + ("rtpmap:" + Decimal(s.payloadType) + " " + s.rtpmap),
     "a=" + ("ptime:" + s.ptime)]
  }

  function HeadLines(s: Session): seq<string> {
    NameLines(s) + AddressLines(s) + MediaLines(s)
  }

  function MediaclkLines(s: Session): seq<string> {
    if s.mediaClk != [] then ["a=" + ("mediaclk:" + s.mediaClk)] else []
  }

  function RefclkLines(s: Session): seq<string> {
    if s.ptpRefClock != [] then ["a=" + ("ts-refclk:" + s.ptpRefClock)] else []
  }

  function ClockLines(s: Session): seq<string> {
    MediaclkLines(s) + RefclkLines(s)
  }

  function GenerateLines(s: Session): seq<string> {
    HeadLines(s) + ClockLines(s) + ["a=" + "sync-time:0"]
  }

  lemma Prefixed(k: string, x: string, a: string, m: string, b: string)
    ensures k + (x + a + m + b) == k + x + a + m + b
  {
  }

  /** What is printed, line by line. */
  lemma PrintedLines(s: Session)
    ensures NameLines(s) == ["v=0", "o=" + s.origin, "s=" + s.sessionName]
    ensures AddressLines(s) == ["c=IN IP4 " + s.connectionAddr + "/32", "t=0 0", "a=recvonly"]
    ensures MediaLines(s) ==
      ["m=audio " + Decimal(s.port) + " RTP/AVP " + Decimal(s.payloadType),
       "a=rtpmap:" + Decimal(s.payloadType) + " " + s.rtpmap,
       "a=ptime:" + s.ptime]
  {
    assert "v=" + "0" == "v=0" && "t=" + "0 0" == "t=0 0" && "a=" + "recvonly" == "a=recvonly";
    assert "c=" + ("IN IP4 " + s.connectionAddr + "/32") == "c=IN IP4 " + s.connectionAddr + "/32";
    Prefixed("m=", "audio ", Decimal(s.port), " RTP/AVP ", Decimal(s.payloadType));
    assert "m=" + "audio " == "m=audio ";
    Prefixed("a=", "rtpmap:", Decimal(s.payloadType), " ", s.rtpmap);
    assert "a=" + "rtpmap:" == "a=rtpmap:";
    assert "a=" + ("ptime:" + s.ptime) == "a=ptime:" + s.ptime;
  }

  lemma PrintedClocks(s: Session)
    ensures ClockLines(s) ==
      (if s.mediaClk == "" then [] else ["a=mediaclk:" + s.mediaClk])
      + (if s.ptpRefClock == "" then [] else ["a=ts-refclk:" + s.ptpRefClock])
    ensures GenerateLines(s) ==
      NameLines(s) + AddressLines(s) + MediaLines(s) + ClockLines(s) + ["a=sync-time:0"]
  {
    assert "a=" + ("mediaclk:" + s.mediaClk) == "a=mediaclk:" + s.mediaClk;
    assert "a=" + ("ts-refclk:" + s.ptpRefClock) == "a=ts-refclk:" + s.ptpRefClock;
    assert "a=" + "sync-time:0" == "a=sync-time:0";
  }

  /** Each line is followed by CR LF. */
  lemma JoinMore(lines: seq<string>, line: string)
    ensures Join(lines + [line]) == Join(lines) + (line + "\r\n")
  {
    assert (lines + [line])[..|lines|] == lines;
  }

  lemma AddLine(lines: seq<string>, line: string) returns (more: seq<string>)
    ensures more == lines + [line] && Join(more) == Join(lines) + (line + EOL)
  {
    more := lines + [line];
    JoinMore(lines, line);
  }

  lemma LastApart(a: seq<string>, b: seq<string>)
    requires b != []
    ensures b == b[..|b| - 1] + [b[|b| - 1]] && a + b == (a + b[..|b| - 1]) + [b[|b| - 1]]
  {
  }

  lemma {:induction false} JoinAppend(a: seq<string>, b: seq<string>)
    ensures Join(a + b) == Join(a) + Join(b)
    decreases |b|
  {
    if b == [] {
      assert a + b == a;
    } else {
      var n := |b| - 1;
      JoinAppend(a, b[..n]);
      LastApart(a, b);
      JoinMore(a + b[..n], b[n]);
      Together(Join(a), Join(b[..n]), b[n] + EOL);
    }
  }

  /** Connection, time and direction. */
  method GenerateAddress(s: Session) returns (sdp: string)
    ensures sdp == Join(AddressLines(s))
  {
    ghost var lines: seq<string> := [];
    sdp := "";
    sdp := sdp + ("c=" + ("IN IP4 " + s.connectionAddr + "/32") + EOL);
    lines := AddLine(lines, "c=" + ("IN IP4 " + s.connectionAddr + "/32"));
    sdp := sdp + ("t=" + "0 0" + EOL);
    lines := AddLine(lines, "t=" + "0 0");
    sdp := sdp + ("a=" + "recvonly" + EOL);
    lines := AddLine(lines, "a=" + "recvonly");
    assert lines == AddressLines(s);
  }

  /** The media line and its attributes. */
  method GenerateFormat(s: Session) returns (sdp: string)
    ensures sdp == Join(MediaLines(s))
  {
    ghost var lines: seq<string> := [];
    sdp := "";
    sdp := sdp + ("m=" + ("audio " + Decimal(s.port) + " RTP/AVP " + Decimal(s.payloadType)) + EOL);
    lines := AddLine(lines, "m=" + ("audio " + Decimal(s.port) + " RTP/AVP " + Decimal(s.payloadType)));
    sdp := sdp + ("a=" + ("rtpmap:" + Decimal(s.payloadType) + " " + s.rtpmap) + EOL);
    lines := AddLine(lines, "a=" + ("rtpmap:" + Decimal(s.payloadType) + " " + s.rtpmap));
    sdp := sdp + ("a=" + ("ptime:" + s.ptime) + EOL);
    lines := AddLine(lines, "a=" + ("ptime:" + s.ptime));
    assert lines == MediaLines(s);
  }

  /** The attributes of the clock, if there are any, and the last line. */
  method GenerateTail(session: Session) returns (sdp: string)
    ensures sdp == Join(ClockLines(session) + ["a=" + "sync-time:0"])
  {
    ghost var lines: seq<string> := [];
    sdp := "";
    if session.mediaClk != [] {
      sdp := sdp + ("a=" + ("mediaclk:" + session.mediaClk) + EOL);
      lines := AddLine(lines, "a=" + ("mediaclk:" + session.mediaClk));
    }
    if session.ptpRefClock != [] {
      sdp := sdp + ("a=" + ("ts-refclk:" + session.ptpRefClock) + EOL);
      lines := AddLine(lines, "a=" + ("ts-refclk:" + session.ptpRefClock));
    }
    assert lines == ClockLines(session);
    sdp := sdp + ("a=" + "sync-time:0" + EOL);
    lines := AddLine(lines, "a=" + "sync-time:0");
  }

  method Generate(session: Session) returns (sdp: string)
    ensures sdp == Join(GenerateLines(session))
  {
    ghost var lines: seq<string> := [];
    sdp := "";
    sdp := sdp + ("v=" + "0" + EOL);
    lines := AddLine(lines, "v=" + "0");
    sdp := sdp + ("o=" + session.origin + EOL);
    lines := AddLine(lines, "o=" + session.origin);
    sdp := sdp + ("s=" + session.sessionName + EOL);
    lines := AddLine(lines, "s=" + session.sessionName);
    assert lines == NameLines(session);
    var address := GenerateAddress(session);
    JoinAppend(NameLines(session), AddressLines(session));
    var media := GenerateFormat(session);
    JoinAppend(NameLines(session) + AddressLines(session), MediaLines(session));
    var tail := GenerateTail(session);
    JoinAppend(HeadLines(session), ClockLines(session) + ["a=" + "sync-time:0"]);
    assert HeadLines(session) + (ClockLines(session) + ["a=" + "sync-time:0"]) == GenerateLines(session);
    sdp := sdp + address + media + tail;
  }

  // ---------------------------------------------------------------------------------------------
  // The round trip
  // ---------------------------------------------------------------------------------------------

  /** No text of the session contains a newline. */
  ghost predicate CleanText(s: Session) {
    && NoNewline(s.origin) && NoNewline(s.sessionName) && NoNewline(s.connectionAddr) && NoNewline(s.rtpmap)
    && NoNewline(s.ptime) && NoNewline(s.mediaClk) && NoNewline(s.ptpRefClock)
  }

  lemma DigitsHaveNoNewline(n: nat)
    ensures NoNewline(Decimal(n))
  {
  }

  lemma CleanMedia(s: Session)
    requires CleanText(s)
    ensures NoNewlines(MediaLines(s))
  {
    DigitsHaveNoNewline(s.port);
    DigitsHaveNoNewline(s.payloadType);
    var a, b := Decimal(s.port), Decimal(s.payloadType);
    assert NoNewline("m=" + ("audio " + a + " RTP/AVP " + b));
    assert NoNewline("a=" + ("rtpmap:" + b + " " + s.rtpmap));
    assert NoNewline("a=" + ("ptime:" + s.ptime));
  }

  lemma CleanNames(s: Session)
    requires CleanText(s)
    ensures NoNewlines(NameLines(s)) && NoNewlines(AddressLines(s))
  {
  }

  lemma CleanJoin(a: seq<string>, b: seq<string>)
    requires NoNewlines(a) && NoNewlines(b)
    ensures NoNewlines(a + b)
  {
  }

  lemma CleanClocks(s: Session)
    requires CleanText(s)
    ensures NoNewlines(ClockLines(s))
  {
    CleanJoin(MediaclkLines(s), RefclkLines(s));
  }

  lemma CleanLines(s: Session)
    requires CleanText(s)
    ensures NoNewlines(GenerateLines(s))
  {
    CleanNames(s);
    CleanMedia(s);
    CleanClocks(s);
    CleanJoin(NameLines(s), AddressLines(s));
    CleanJoin(NameLines(s) + AddressLines(s), MediaLines(s));
    CleanJoin(HeadLines(s), ClockLines(s));
    var last := "a=" + "sync-time:0";
    assert NoNewline(last);
    CleanJoin(HeadLines(s) + ClockLines(s), [last]);
  }

  /** One more line parsed. */
  lemma Fold(lines: seq<string>, line: string, start: Session, s: Session, kind: char, value: string, s': Session)
    requires FoldLines(lines, start) == Parsed(s)
    requires line == [kind, '='] + value && ParseField(kind, value, s) == Parsed(s')
    ensures FoldLines(lines + [line], start) == Parsed(s')
  {
    assert (lines + [line])[..|lines|] == lines;
    FieldLine(kind, value, s);
  }

  /** An L24 format, and a packet time that is the text of a number, as operator<< prints every double. */
  ghost predicate IsAudio(s: Session) {
    s.rtpmap == L24Map(s.sampleRate, s.channels) && StartsNumber(s.ptime)
  }

  /** What parsing yields: the session itself, but for the address and for the payload type that the
      parser leaves in front of the rtpmap. */
  function Reparsed(s: Session): Session {
    s.(connectionAddr := FoundAddress(s.connectionAddr, ""), rtpmap := Decimal(s.payloadType) + " " + s.rtpmap)
  }

  lemma AddressLine(addr: string, s: Session)
    ensures ParseField('c', "IN IP4 " + addr + "/32", s) ==
      Parsed(s.(connectionAddr := FoundAddress(addr, s.connectionAddr)))
  {
  }

  datatype Field = Field(kind: char, value: string)

  function Line(f: Field): string {
    [f.kind, '='] + f.value
  }

  ghost predicate Sets(f: Field, s: Session, s': Session) {
    ParseField(f.kind, f.value, s) == Parsed(s')
  }

  /** Three more lines parsed. */
  lemma FoldThree(lines: seq<string>, f0: Field, f1: Field, f2: Field, start: Session,
                  s0: Session, s1: Session, s2: Session, s3: Session)
    requires FoldLines(lines, start) == Parsed(s0) && Sets(f0, s0, s1) && Sets(f1, s1, s2) && Sets(f2, s2, s3)
    ensures FoldLines(lines + [Line(f0), Line(f1), Line(f2)], start) == Parsed(s3)
  {
    var l1 := lines + [Line(f0)];
    var l2 := l1 + [Line(f1)];
    Fold(lines, Line(f0), start, s0, f0.kind, f0.value, s1);
    Fold(l1, Line(f1), start, s1, f1.kind, f1.value, s2);
    Fold(l2, Line(f2), start, s2, f2.kind, f2.value, s3);
    assert l2 + [Line(f2)] == lines + [Line(f0), Line(f1), Line(f2)];
  }

  lemma NamesSet(s: Session, t: Session)
    ensures Sets(Field('v', "0"), t, t)
    ensures Sets(Field('o', s.origin), t, t.(origin := s.origin))
    ensures Sets(Field('s', s.sessionName), t, t.(sessionName := s.sessionName))
  {
  }

  lemma FoldNames(s: Session, start: Session)
    ensures FoldLines(NameLines(s), start) == Parsed(start.(origin := s.origin, sessionName := s.sessionName))
  {
    var s1 := start.(origin := s.origin);
    NamesSet(s, start);
    NamesSet(s, s1);
    FoldThree([], Field('v', "0"), Field('o', s.origin), Field('s', s.sessionName), start, start, start, s1,
              s1.(sessionName := s.sessionName));
    assert [] + [Line(Field('v', "0")), Line(Field('o', s.origin)), Line(Field('s', s.sessionName))] == NameLines(s);
  }

  lemma AddressSets(s: Session, t: Session)
    ensures Sets(Field('c', "IN IP4 " + s.connectionAddr + "/32"), t,
                 t.(connectionAddr := FoundAddress(s.connectionAddr, t.connectionAddr)))
    ensures Sets(Field('t', "0 0"), t, t) && Sets(Field('a', "recvonly"), t, t)
  {
    AddressLine(s.connectionAddr, t);
    OtherAttributeLine("recvonly", t);
  }

  lemma FoldAddress(lines: seq<string>, s: Session, start: Session, t: Session)
    requires FoldLines(lines, start) == Parsed(t)
    ensures FoldLines(lines + AddressLines(s), start) ==
      Parsed(t.(connectionAddr := FoundAddress(s.connectionAddr, t.connectionAddr)))
  {
    var t1 := t.(connectionAddr := FoundAddress(s.connectionAddr, t.connectionAddr));
    AddressSets(s, t);
    AddressSets(s, t1);
    FoldThree(lines, Field('c', "IN IP4 " + s.connectionAddr + "/32"), Field('t', "0 0"), Field('a', "recvonly"),
              start, t, t1, t1, t1);
  }

  function MediaFields(s: Session): (Field, Field, Field) {
    (Field('m', "audio " + Decimal(s.port) + " RTP/AVP " + Decimal(s.payloadType)),
     Field('a', "rtpmap:" + Decimal(s.payloadType) + " " + s.rtpmap),
     Field('a', "ptime:" + s.ptime))
  }

  lemma MediaSets(s: Session, t: Session)
    requires IsAudio(s)
    ensures Sets(MediaFields(s).0, t, t.(port := s.port, payloadType := s.payloadType))
    ensures Sets(MediaFields(s).1, t, t.(rtpmap := Decimal(s.payloadType) + " " + s.rtpmap,
                                         sampleRate := s.sampleRate, channels := s.channels))
    ensures Sets(MediaFields(s).2, t, t.(ptime := s.ptime))
  {
    MediaLine(s.port, s.payloadType, t);
    RtpmapLine(s.payloadType, s.sampleRate, s.channels, t);
    PtimeLine(s.ptime, t);
  }

  lemma FoldMedia(lines: seq<string>, s: Session, start: Session, t: Session)
    requires FoldLines(lines, start) == Parsed(t) && IsAudio(s)
    ensures FoldLines(lines + MediaLines(s), start) ==
      Parsed(t.(port := s.port, payloadType := s.payloadType, rtpmap := Decimal(s.payloadType) + " " + s.rtpmap,
                sampleRate := s.sampleRate, channels := s.channels, ptime := s.ptime))
  {
    var format := Decimal(s.payloadType) + " " + s.rtpmap;
    var t1 := t.(port := s.port, payloadType := s.payloadType);
    var t2 := t1.(rtpmap := format, sampleRate := s.sampleRate, channels := s.channels);
    var (f0, f1, f2) := MediaFields(s);
    MediaSets(s, t);
    MediaSets(s, t1);
    MediaSets(s, t2);
    FoldThree(lines, f0, f1, f2, start, t, t1, t2, t2.(ptime := s.ptime));
    assert [Line(f0), Line(f1), Line(f2)] == MediaLines(s);
  }

  lemma FoldHead(s: Session, start: Session)
    requires IsNew(start) && IsAudio(s)
    ensures FoldLines(HeadLines(s), start) == Parsed(Reparsed(s).(mediaClk := "", ptpRefClock := ""))
  {
    FoldNames(s, start);
    var t := start.(origin := s.origin, sessionName := s.sessionName);
    FoldAddress(NameLines(s), s, start, t);
    FoldMedia(NameLines(s) + AddressLines(s), s, start,
              t.(connectionAddr := FoundAddress(s.connectionAddr, "")));
  }

  lemma FoldMediaclk(lines: seq<string>, s: Session, start: Session, t: Session)
    requires FoldLines(lines, start) == Parsed(t) && t.mediaClk == ""
    ensures FoldLines(lines + MediaclkLines(s), start) == Parsed(t.(mediaClk := s.mediaClk))
  {
    if s.mediaClk == [] {
      assert lines + MediaclkLines(s) == lines;
    } else {
      MediaclkLine(s.mediaClk, t);
      Fold(lines, "a=" + ("mediaclk:" + s.mediaClk), start, t, 'a', "mediaclk:" + s.mediaClk,
           t.(mediaClk := s.mediaClk));
    }
  }

  lemma FoldRefclk(lines: seq<string>, s: Session, start: Session, t: Session)
    requires FoldLines(lines, start) == Parsed(t) && t.ptpRefClock == ""
    ensures FoldLines(lines + RefclkLines(s), start) == Parsed(t.(ptpRefClock := s.ptpRefClock))
  {
    if s.ptpRefClock == [] {
      assert lines + RefclkLines(s) == lines;
    } else {
      RefclkLine(s.ptpRefClock, t);
      Fold(lines, "a=" + ("ts-refclk:" + s.ptpRefClock), start, t, 'a', "ts-refclk:" + s.ptpRefClock,
           t.(ptpRefClock := s.ptpRefClock));
    }
  }

  lemma FoldClocks(lines: seq<string>, s: Session, start: Session, t: Session)
    requires FoldLines(lines, start) == Parsed(t) && t.mediaClk == t.ptpRefClock == ""
    ensures FoldLines(lines + ClockLines(s), start) ==
      Parsed(t.(mediaClk := s.mediaClk, ptpRefClock := s.ptpRefClock))
  {
    FoldMediaclk(lines, s, start, t);
    FoldRefclk(lines + MediaclkLines(s), s, start, t.(mediaClk := s.mediaClk));
    assert lines + ClockLines(s) == lines + MediaclkLines(s) + RefclkLines(s);
  }

  lemma FoldTail(s: Session, start: Session, t: Session)
    requires FoldLines(HeadLines(s), start) == Parsed(t) && t.mediaClk == t.ptpRefClock == ""
    ensures FoldLines(GenerateLines(s), start) == Parsed(t.(mediaClk := s.mediaClk, ptpRefClock := s.ptpRefClock))
  {
    var t2 := t.(mediaClk := s.mediaClk, ptpRefClock := s.ptpRefClock);
    FoldClocks(HeadLines(s), s, start, t);
    OtherAttributeLine("sync-time:0", t2);
    Fold(HeadLines(s) + ClockLines(s), "a=" + "sync-time:0", start, t2, 'a', "sync-time:0", t2);
  }

  /** ROUND TRIP.  For every session whose texts have no newline, with an L24 rtpmap and a printed number as
      packet time, parsing what was printed gives every field back - the rtpmap behind its payload type -
      and the address exactly if it is made of digits and dots. */
  lemma GenerateParse(s: Session, start: Session)
    requires IsNew(start) && CleanText(s) && IsAudio(s)
    ensures ParseText(Join(GenerateLines(s)), start) == Parsed(Reparsed(s))
    ensures Reparsed(s).connectionAddr == s.connectionAddr <==> IsAddress(s.connectionAddr)
    ensures Reparsed(s).rtpmap != s.rtpmap
  {
    CleanLines(s);
    ParseLines(GenerateLines(s), start);
    FoldHead(s, start);
    FoldTail(s, start, Reparsed(s).(mediaClk := "", ptpRefClock := ""));
    AddressFoundIff(s.connectionAddr);
    assert |Reparsed(s).rtpmap| > |s.rtpmap|;
  }
}
