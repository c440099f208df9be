/**
  extension/http_transport.py: HTTPTransport.read, the server's end of a connection. It works on the
  bytes of a stream under limits on the length of the request line, of a header and on the number of
  headers, and takes exactly one request off the stream.
 */
module HttpRequests {
  import opened Wrappers
  import opened PyText
  import opened HttpParser
  import opened HttpWire
  import opened Sequences

  datatype Limits = Limits(requestLine: nat, header: nat, headers: nat)

  const DEFAULTS := Limits(2048, 1024, 128)

  datatype Refusal =
    | Unsatisfiable // UnsatisfiableReadError, or read_until's own failure past max_bytes
    | NotANumber // ValueError out of int()
    | Starved // the stream has no more bytes

  datatype Read<T> = Done(value: T) | Failed(why: Refusal)

  datatype Request = Request(tid: int, body: Option<string>)

  // ---- What read() computes ---------------------------------------------------------

  /** read_until("\r\n", max_bytes): the line with its CRLF, and the bytes behind it. */
  function ReadUntil(bytes: string, limit: nat): Read<(string, string)> {
    match FindCrlf(bytes)
    case Some(i) => if i + 2 <= limit then Done((bytes[..i + 2], bytes[i + 2..])) else Failed(Unsatisfiable)
    case None => if |bytes| > limit then Failed(Unsatisfiable) else Failed(Starved)
  }

  /** The header loop with count rounds left: the headers, and the bytes behind the empty line. */
  function ReadHeaders(bytes: string, limit: nat, count: nat, headers: map<string, string>)
    : Read<(map<string, string>, string)>
    decreases count
  {
    if count == 0 then Failed(Unsatisfiable)
    else match ReadUntil(bytes, limit)
      case Failed(why) => Failed(why)
      case Done((line, rest)) =>
        if line == CRLF then Done((headers, rest))
        else ReadHeaders(rest, limit, count - 1, WithHeader(headers, line))
  }

  /** A header line that does not parse is passed over. */
  function WithHeader(headers: map<string, string>, line: string): map<string, string> {
    match ParseHeader(line)
    case None => headers
    case Some(h) => headers[h.0 := h.1]
  }

  /** One of the two headers that must be there: isalnum(), then int(). */
  function NumberIn(headers: map<string, string>, name: string): Read<int> {
    if name !in headers || headers[name] == "" || !IsAlnum(headers[name]) then Failed(Unsatisfiable)
    else match ParseInt(headers[name])
      case None => Failed(NotANumber)
      case Some(n) => Done(n)
  }

  /** The request, and the bytes left on the stream. */
  function ReadRequest(limits: Limits, bytes: string): Read<(Request, string)> {
    match ReadUntil(bytes, limits.requestLine)
    case Failed(why) => Failed(why)
    case Done((line, rest)) =>
      if ParseRequestLine(line).None? then Failed(Unsatisfiable) else ReadRest(limits, rest)
  }

  /** What follows the request line. */
  function ReadRest(limits: Limits, bytes: string): Read<(Request, string)> {
    match ReadHeaders(bytes, limits.header, limits.headers, map[])
    case Failed(why) => Failed(why)
    case Done((headers, rest)) => ReadBody(headers, rest)
  }

  function ReadBody(headers: map<string, string>, bytes: string): Read<(Request, string)> {
    match NumberIn(headers, TRANSACTION_ID)
    case Failed(why) => Failed(why)
    case Done(tid) =>
      match NumberIn(headers, CONTENT_LENGTH)
      case Failed(why) => Failed(why)
      case Done(n) =>
        if n <= 0 then Done((Request(tid, None), bytes))
        else if |bytes| < n then Failed(Starved)
        else Done((Request(tid, Some(bytes[..n])), bytes[n..]))
  }

  // ---- The method -------------------------------------------------------------------

  /** The stream of a connection: the bytes not read yet. */
  class Stream {
    var bytes: string

    constructor (bytes: string)
      ensures this.bytes == bytes
    {
      this.bytes := bytes;
    }

    method Line(limit: nat) returns (r: Read<string>)
      modifies this
      ensures match ReadUntil(old(bytes), limit)
        case Done((line, rest)) => r == Done(line) && bytes == rest
        case Failed(why) => r == Failed(why) && bytes == old(bytes)
    {
      var found := ReadUntil(bytes, limit);
      if found.Failed? {
        return Failed(found.why);
      }
      bytes := found.value.1;
      return Done(found.value.0);
    }

    method Bytes(n: nat) returns (r: Read<string>)
      modifies this
      ensures if n <= |old(bytes)| then r == Done(old(bytes)[..n]) && bytes == old(bytes)[n..]
        else r == Failed(Starved) && bytes == old(bytes)
    {
      if |bytes| < n {
        return Failed(Starved);
      }
      r := Done(bytes[..n]);
      bytes := bytes[n..];
    }
  }

  lemma HeaderRound(bytes: string, limit: nat, count: nat, headers: map<string, string>)
    requires count > 0
    ensures ReadHeaders(bytes, limit, count, headers) ==
      match ReadUntil(bytes, limit)
      case Failed(why) => Failed(why)
      case Done((line, rest)) =>
        if line == CRLF then Done((headers, rest))
        else ReadHeaders(rest, limit, count - 1, WithHeader(headers, line))
  {
  }

  /** The header loop of read(); the else branch of its for is taken when the rounds run out. */
  method HeaderLoop(limits: Limits, stream: Stream) returns (r: Read<map<string, string>>)
    modifies stream
    ensures match ReadHeaders(old(stream.bytes), limits.header, limits.headers, map[])
      case Done((headers, rest)) => r == Done(headers) && stream.bytes == rest
      case Failed(why) => r == Failed(why)
  {
    ghost var all := ReadHeaders(stream.bytes, limits.header, limits.headers, map[]);
    var headers: map<string, string> := map[];
    var count := 0;
    while count < limits.headers
      invariant count <= limits.headers
      invariant all == ReadHeaders(stream.bytes, limits.header, limits.headers - count, headers)
    {
      HeaderRound(stream.bytes, limits.header, limits.headers - count, headers);
      var line := stream.Line(limits.header);
      if line.Failed? {
        return Failed(line.why);
      }
      if line.value == CRLF {
        return Done(headers);
      }
      var header := ParseHeader(line.value);
      if header.Some? {
        headers := headers[header.value.0 := header.value.1];
      }
      count := count + 1;
    }
    return Failed(Unsatisfiable);
  }

  /** HTTPTransport.read */
  method ReadFromStream(limits: Limits, stream: Stream) returns (r: Read<Request>)
    modifies stream
    ensures match ReadRequest(limits, old(stream.bytes))
      case Done((request, rest)) => r == Done(request) && stream.bytes == rest
      case Failed(why) => r == Failed(why)
  {
    var line := stream.Line(limits.requestLine);
    if line.Failed? {
      return Failed(line.why);
    }
    if ParseRequestLine(line.value).None? {
      return Failed(Unsatisfiable);
    }
    var headers := HeaderLoop(limits, stream);
    if headers.Failed? {
      return Failed(headers.why);
    }
    var tid := NumberIn(headers.value, TRANSACTION_ID);
    if tid.Failed? {
      return Failed(tid.why);
    }
    var length := NumberIn(headers.value, CONTENT_LENGTH);
    if length.Failed? {
      return Failed(length.why);
    }
    if length.value > 0 {
      var body := stream.Bytes(length.value);
      return if body.Failed? then Failed(body.why) else Done(Request(tid.value, Some(body.value)));
    }
    return Done(Request(tid.value, None));
  }

  // ---- Requests come back -----------------------------------------------------------

  /** What the limits must allow for the request of a pair to be accepted. */
  predicate Fits(limits: Limits, tid: nat, buff: string) {
    && limits.requestLine >= 16
    && limits.headers >= 4
    && limits.header >= 41
    && limits.header >= 18 + |Decimal(tid)|
    && limits.header >= 18 + |Decimal(|buff|)|
  }

  /** A line with its CRLF that parses to a header. */
  predicate IsHeader(line: string, name: string, value: string) {
    && |line| > 2 && '\r' !in line[..|line| - 2] && line[|line| - 2..] == CRLF
    && ParseHeader(line) == Some((name, value))
  }

  lemma HeaderLineIsHeader(name: string, value: string)
    requires PlainHeader(name, value)
    ensures IsHeader(HeaderLine(name, value), name, value)
  {
    HeaderComesBack(name, value);
    var text := name + ": " + value;
    assert HeaderLine(name, value)[..|text|] == text;
  }

  lemma OneHeader(line: string, name: string, value: string, rest: string, limit: nat, count: nat,
      headers: map<string, string>)
    requires IsHeader(line, name, value)
    ensures ReadHeaders(line + rest, limit, count, headers) ==
      if count == 0 || |line| > limit then Failed(Unsatisfiable)
      else ReadHeaders(rest, limit, count - 1, headers[name := value])
  {
    LineAtFront(line[..|line| - 2], rest);
    assert line == line[..|line| - 2] + CRLF;
  }

  lemma EmptyLine(rest: string, limit: nat, count: nat, headers: map<string, string>)
    requires limit >= 2
    ensures ReadHeaders(CRLF + rest, limit, count, headers)
      == if count == 0 then Failed(Unsatisfiable) else Done((headers, rest))
  {
    LineAtFront("", rest);
    assert "" + CRLF + rest == CRLF + rest;
  }

  /** One header before a tail that needs so many lines, if they fit. */
  lemma HeaderThen(line: string, name: string, value: string, tail: string, limit: nat, count: nat, had: map<string, string>,
      lines: nat, fit: bool, headers: map<string, string>, rest: string)
    requires IsHeader(line, name, value)
    requires count >= 1 && limit >= |line| ==>
      ReadHeaders(tail, limit, count - 1, had[name := value])
        == (if count - 1 >= lines && fit then Done((headers, rest)) else Failed(Unsatisfiable))
    ensures ReadHeaders(line + tail, limit, count, had)
      == if count >= lines + 1 && limit >= |line| && fit then Done((headers, rest)) else Failed(Unsatisfiable)
  {
    OneHeader(line, name, value, tail, limit, count, had);
  }

  /** Three headers and the empty line. */
  lemma ThreeHeaders(limit: nat, count: nat, l1: string, n1: string, v1: string, l2: string, n2: string, v2: string,
      l3: string, n3: string, v3: string, rest: string)
    requires IsHeader(l1, n1, v1) && IsHeader(l2, n2, v2) && IsHeader(l3, n3, v3)
    ensures ReadHeaders(l1 + (l2 + (l3 + (CRLF + rest))), limit, count, map[])
      == if count >= 4 && limit >= |l1| && limit >= |l2| && limit >= |l3|
         then Done((map[n1 := v1][n2 := v2][n3 := v3], rest)) else Failed(Unsatisfiable)
  {
    var h1 := map[n1 := v1];
    var h2, h3 := h1[n2 := v2], h1[n2 := v2][n3 := v3];
    var t3 := CRLF + rest;
    var t2 := l3 + t3;
    if count >= 3 && limit >= |l3| {
      EmptyLine(rest, limit, count - 3, h3);
    }
    if count >= 2 {
      HeaderThen(l3, n3, v3, t3, limit, count - 2, h2, 1, true, h3, rest);
    }
    if count >= 1 {
      HeaderThen(l2, n2, v2, t2, limit, count - 1, h1, 2, limit >= |l3|, h3, rest);
    }
    HeaderThen(l1, n1, v1, l2 + t2, limit, count, map[], 3, limit >= |l2| && limit >= |l3|, h3, rest);
  }

  lemma LineLengths(tid: nat, n: nat)
    ensures |HeaderLine(TRANSACTION_ID, Decimal(tid))| == 18 + |Decimal(tid)|
    ensures |HeaderLine(CONTENT_LENGTH, Decimal(n))| == 18 + |Decimal(n)|
    ensures |HeaderLine(USER_AGENT, AGENT)| == 41
  {
  }

  lemma HeadersComeBack(limits: Limits, tid: nat, buff: string, rest: string)
    ensures ReadHeaders(Ids(tid, buff) + (HeaderLine(USER_AGENT, AGENT) + (CRLF + rest)), limits.header, limits.headers, map[])
      == if limits.headers >= 4 && limits.header >= 41
            && limits.header >= 18 + |Decimal(tid)| && limits.header >= 18 + |Decimal(|buff|)|
         then Done((SentHeaders(tid, buff), rest)) else Failed(Unsatisfiable)
  {
    IdIsPlain(tid);
    LengthIsPlain(|buff|);
    AgentIsPlain();
    LineLengths(tid, |buff|);
    var l1, l2 := HeaderLine(TRANSACTION_ID, Decimal(tid)), HeaderLine(CONTENT_LENGTH, Decimal(|buff|));
    var l3 := HeaderLine(USER_AGENT, AGENT);
    HeaderLineIsHeader(TRANSACTION_ID, Decimal(tid));
    HeaderLineIsHeader(CONTENT_LENGTH, Decimal(|buff|));
    HeaderLineIsHeader(USER_AGENT, AGENT);
    ThreeHeaders(limits.header, limits.headers, l1, TRANSACTION_ID, Decimal(tid), l2, CONTENT_LENGTH, Decimal(|buff|),
      l3, USER_AGENT, AGENT, rest);
    Regroup(l1, l2, l3 + (CRLF + rest));
  }

  function SentHeaders(tid: nat, buff: string): map<string, string> {
    map[TRANSACTION_ID := Decimal(tid)][CONTENT_LENGTH := Decimal(|buff|)][USER_AGENT := AGENT]
  }

  lemma RequestLineOf(line: string, verb: string, uri: string, name: string, version: string)
    requires line == verb + [' '] + (uri + [' '] + (name + ['/'] + version))
    requires '\r' !in line && ' ' !in verb && ' ' !in uri && '/' !in name
    requires verb in METHODS && Lower(name) == "http" && version in VERSIONS
    ensures ParseRequestLine(line + CRLF) == Some(RequestLine(verb, uri, version))
  {
    LineAtFront(line, "");
    SplitFirstAt(verb, ' ', uri + [' '] + (name + ['/'] + version));
    SplitFirstAt(uri, ' ', name + ['/'] + version);
    SplitFirstAt(name, '/', version);
  }

  lemma RequestText()
    ensures REQUEST == "GET" + [' '] + ("/" + [' '] + ("HTTP" + ['/'] + "1.1"))
    ensures |REQUEST| == 14 && '\r' !in REQUEST
  {
  }

  lemma KnownNames()
    ensures "GET" in METHODS && Lower("HTTP") == "http" && "1.1" in VERSIONS
  {
    assert METHODS[0] == "GET" && VERSIONS[2] == "1.1";
  }

  lemma BodyComesBack(headers: map<string, string>, tid: nat, buff: string, rest: string)
    requires TRANSACTION_ID in headers && headers[TRANSACTION_ID] == Decimal(tid)
    requires CONTENT_LENGTH in headers && headers[CONTENT_LENGTH] == Decimal(|buff|)
    ensures ReadBody(headers, buff + rest) == Done((Request(tid, if buff == "" then None else Some(buff)), rest))
  {
    DecimalIsPlain(tid);
    DecimalIsPlain(|buff|);
    assert (buff + rest)[..|buff|] == buff && (buff + rest)[|buff|..] == rest;
  }

  lemma SentHeadersHold(tid: nat, buff: string)
    ensures var h := SentHeaders(tid, buff);
      TRANSACTION_ID in h && h[TRANSACTION_ID] == Decimal(tid)
      && CONTENT_LENGTH in h && h[CONTENT_LENGTH] == Decimal(|buff|)
  {
    assert TRANSACTION_ID[0] == 'T' && CONTENT_LENGTH[0] == 'C' && USER_AGENT[0] == 'U';
  }

  lemma PacketText(tid: nat, buff: string, rest: string)
    ensures ClientPacket(tid, buff) + rest
      == REQUEST + CRLF + (Ids(tid, buff) + (HeaderLine(USER_AGENT, AGENT) + (CRLF + (buff + rest))))
  {
  }

  predicate IsRequestLine(line: string) {
    '\r' !in line && |line| == 14 && ParseRequestLine(line + CRLF).Some?
  }

  lemma RequestIsRequestLine()
    ensures IsRequestLine(REQUEST)
  {
    RequestText();
    KnownNames();
    RequestLineOf(REQUEST, "GET", "/", "HTTP", "1.1");
  }

  lemma AfterRequestLine(limits: Limits, bytes: string, line: string, behind: string)
    requires bytes == line + CRLF + behind && IsRequestLine(line)
    ensures ReadRequest(limits, bytes)
      == if limits.requestLine >= 16 then ReadRest(limits, behind) else Failed(Unsatisfiable)
  {
    LineAtFront(line, behind);
  }

  lemma RestComesBack(limits: Limits, tid: nat, buff: string, rest: string)
    ensures ReadRest(limits, Ids(tid, buff) + (HeaderLine(USER_AGENT, AGENT) + (CRLF + (buff + rest)))) ==
      if limits.headers >= 4 && limits.header >= 41
        && limits.header >= 18 + |Decimal(tid)| && limits.header >= 18 + |Decimal(|buff|)|
      then Done((Request(tid, if buff == "" then None else Some(buff)), rest)) else Failed(Unsatisfiable)
  {
    HeadersComeBack(limits, tid, buff, buff + rest);
    SentHeadersHold(tid, buff);
    BodyComesBack(SentHeaders(tid, buff), tid, buff, rest);
  }

  /**
    Main result: the server reads the pair the client sent, the empty body as no body, and leaves the
    stream exactly behind the packet, whenever the limits allow for its lines, and refuses it otherwise.
   */
  lemma RequestRoundTrip(limits: Limits, tid: nat, buff: string, rest: string)
    ensures ReadRequest(limits, ClientPacket(tid, buff) + rest) ==
      if Fits(limits, tid, buff) then Done((Request(tid, if buff == "" then None else Some(buff)), rest))
      else Failed(Unsatisfiable)
  {
    PacketText(tid, buff, rest);
    RestComesBack(limits, tid, buff, rest);
    RequestIsRequestLine();
    AfterRequestLine(limits, ClientPacket(tid, buff) + rest, REQUEST,
      Ids(tid, buff) + (HeaderLine(USER_AGENT, AGENT) + (CRLF + (buff + rest))));
  }

  // ---- Several requests, and the limits ----------------------------------------------

  function Packets(sent: seq<(nat, string)>): string {
    if sent == [] then "" else ClientPacket(sent[0].0, sent[0].1) + Packets(sent[1..])
  }

  function Requests(sent: seq<(nat, string)>): seq<Request> {
    if sent == [] then []
    else [Request(sent[0].0, if sent[0].1 == "" then None else Some(sent[0].1))] + Requests(sent[1..])
  }

  /** read() called n times on what is left of the stream. */
  function ReadMany(limits: Limits, bytes: string, n: nat): Read<(seq<Request>, string)>
    decreases n
  {
    if n == 0 then Done(([], bytes))
    else match ReadRequest(limits, bytes)
      case Failed(why) => Failed(why)
      case Done((request, rest)) =>
        match ReadMany(limits, rest, n - 1)
        case Failed(why) => Failed(why)
        case Done((requests, end)) => Done(([request] + requests, end))
  }

  /** One read, and then n more. */
  lemma ReadOneMore(limits: Limits, bytes: string, n: nat, request: Request, requests: seq<Request>, middle: string, end: string)
    requires ReadRequest(limits, bytes) == Done((request, middle)) && ReadMany(limits, middle, n) == Done((requests, end))
    ensures ReadMany(limits, bytes, n + 1) == Done(([request] + requests, end))
  {
  }

  /** Requests sent one behind the other are read back as the same list, whatever the bodies hold. */
  lemma {:induction false} PipelineRoundTrip(limits: Limits, sent: seq<(nat, string)>, rest: string)
    requires forall i :: 0 <= i < |sent| ==> Fits(limits, sent[i].0, sent[i].1)
    ensures ReadMany(limits, Packets(sent) + rest, |sent|) == Done((Requests(sent), rest))
  {
    if sent == [] {
      assert Packets(sent) + rest == rest;
    } else {
      var (tid, buff) := sent[0];
      var middle := Packets(sent[1..]) + rest;
      PipelineRoundTrip(limits, sent[1..], rest);
      Regroup(ClientPacket(tid, buff), Packets(sent[1..]), rest);
      RequestRoundTrip(limits, tid, buff, middle);
      ReadOneMore(limits, ClientPacket(tid, buff) + middle, |sent| - 1,
        Request(tid, if buff == "" then None else Some(buff)), Requests(sent[1..]), middle, rest);
    }
  }

  /** The default limits take every id the wire can hold and every body shorter than 10 to the 1006. */
  lemma DefaultsFit(tid: nat, buff: string)
    requires tid < Power10(1006) && |buff| < Power10(1006)
    ensures Fits(DEFAULTS, tid, buff)
  {
    DecimalLength(tid, 1006);
    DecimalLength(|buff|, 1006);
  }

  /**
    The number check is not exact: isalnum() lets letters through and int() then raises ValueError in
    place of the refusal meant for a header that is not a number. It happens for exactly these values.
   */
  lemma NumberCheckIsTooWide(headers: map<string, string>, name: string)
    ensures NumberIn(headers, name) == Failed(NotANumber) <==>
      name in headers && IsAlnum(headers[name]) && !IsDigit(headers[name])
    ensures NumberIn(headers, name).Done? <==> name in headers && IsDigit(headers[name])
    ensures NumberIn(headers, name).Done? ==> NumberIn(headers, name).value == ParseNat(headers[name])
  {
    if name in headers && IsAlnum(headers[name]) {
      var s := headers[name];
      StripKeeps(s);
      assert s[0] != '-' && s[0] != '+';
    }
  }

  // ---- Requests cut short ------------------------------------------------------------

  /** An answer stands with more bytes behind, which stay on the stream. */
  ghost predicate Extends<T>(short: Read<(T, string)>, long: Read<(T, string)>, more: string) {
    if short.Done? then long.Done? && long.value.0 == short.value.0 && long.value.1 == short.value.1 + more
    else short.why.Starved? || (long.Failed? && long.why == short.why)
  }

  lemma LineExtends(bytes: string, more: string, limit: nat)
    ensures Extends(ReadUntil(bytes, limit), ReadUntil(bytes + more, limit), more)
  {
    match FindCrlf(bytes)
    case Some(i) =>
      FindCrlfExtends(bytes, more);
      assert (bytes + more)[..i + 2] == bytes[..i + 2] && (bytes + more)[i + 2..] == bytes[i + 2..] + more;
    case None =>
      if FindCrlf(bytes + more).Some? {
        NoCrlfBefore(bytes, more);
      }
  }

  lemma {:induction false} NoCrlfBefore(bytes: string, more: string)
    requires FindCrlf(bytes).None? && FindCrlf(bytes + more).Some?
    ensures FindCrlf(bytes + more).value + 1 >= |bytes|
    decreases |bytes|
  {
    if |bytes| >= 2 {
      assert (bytes + more)[1..] == bytes[1..] + more;
      NoCrlfBefore(bytes[1..], more);
    }
  }

  ghost predicate HeadersExtendBy(bytes: string, long: string, more: string, limit: nat, count: nat, headers: map<string, string>) {
    Extends(ReadHeaders(bytes, limit, count, headers), ReadHeaders(long, limit, count, headers), more)
  }

  /** One round of the header loop, with and without more bytes behind: it ends the loop, or leads to another state of it. */
  lemma RoundExtends(bytes: string, more: string, limit: nat, count: nat, headers: map<string, string>)
    returns (ends: bool, rest: string, next: map<string, string>)
    requires count > 0
    ensures ends ==> HeadersExtendBy(bytes, bytes + more, more, limit, count, headers)
    ensures !ends && HeadersExtendBy(rest, rest + more, more, limit, count - 1, next) ==>
      HeadersExtendBy(bytes, bytes + more, more, limit, count, headers)
  {
    LineExtends(bytes, more, limit);
    HeaderRound(bytes, limit, count, headers);
    HeaderRound(bytes + more, limit, count, headers);
    match ReadUntil(bytes, limit)
    case Failed(_) => ends, rest, next := true, bytes, headers;
    case Done((line, behind)) => ends, rest, next := line == CRLF, behind, WithHeader(headers, line);
  }

  lemma {:induction false} HeadersExtend(bytes: string, more: string, limit: nat, count: nat, headers: map<string, string>)
    ensures HeadersExtendBy(bytes, bytes + more, more, limit, count, headers)
    decreases count
  {
    if count > 0 {
      var ends, rest, next := RoundExtends(bytes, more, limit, count, headers);
      if !ends {
        HeadersExtend(rest, more, limit, count - 1, next);
      }
    }
  }

  lemma BodyExtends(headers: map<string, string>, bytes: string, more: string)
    ensures Extends(ReadBody(headers, bytes), ReadBody(headers, bytes + more), more)
  {
    var length := NumberIn(headers, CONTENT_LENGTH);
    if length.Done? && 0 < length.value <= |bytes| {
      var n := length.value;
      assert (bytes + more)[..n] == bytes[..n] && (bytes + more)[n..] == bytes[n..] + more;
    }
  }

  lemma RestExtends(limits: Limits, bytes: string, more: string)
    ensures Extends(ReadRest(limits, bytes), ReadRest(limits, bytes + more), more)
  {
    HeadersExtend(bytes, more, limits.header, limits.headers, map[]);
    var r := ReadHeaders(bytes, limits.header, limits.headers, map[]);
    if r.Done? {
      BodyExtends(r.value.0, r.value.1, more);
    }
  }

  /** What the server makes of some bytes does not change when more come, unless it was waiting for more. */
  lemma RequestExtends(limits: Limits, bytes: string, more: string)
    ensures Extends(ReadRequest(limits, bytes), ReadRequest(limits, bytes + more), more)
  {
    LineExtends(bytes, more, limits.requestLine);
    if ReadUntil(bytes, limits.requestLine).Done? {
      RestExtends(limits, ReadUntil(bytes, limits.requestLine).value.1, more);
    }
  }

  lemma ShortWaits(limits: Limits, short: string, more: string, request: Request)
    requires more != "" && ReadRequest(limits, short + more) == Done((request, ""))
    ensures ReadRequest(limits, short) == Failed(Starved)
  {
    RequestExtends(limits, short, more);
  }

  lemma PrefixWaits(limits: Limits, packet: string, n: nat, request: Request)
    requires n < |packet| && ReadRequest(limits, packet) == Done((request, ""))
    ensures ReadRequest(limits, packet[..n]) == Failed(Starved)
  {
    assert packet == packet[..n] + packet[n..];
    ShortWaits(limits, packet[..n], packet[n..], request);
  }

  /** Main result: every proper prefix of a packet within the limits leaves the server waiting. */
  lemma CutShortWaits(limits: Limits, tid: nat, buff: string, n: nat)
    requires Fits(limits, tid, buff) && n < |ClientPacket(tid, buff)|
    ensures ReadRequest(limits, ClientPacket(tid, buff)[..n]) == Failed(Starved)
  {
    RequestRoundTrip(limits, tid, buff, "");
    assert ClientPacket(tid, buff) + "" == ClientPacket(tid, buff);
    PrefixWaits(limits, ClientPacket(tid, buff), n, Request(tid, if buff == "" then None else Some(buff)));
  }

  /** What a limit allows for so many headers. */
  function HeaderRoom(limit: nat, count: nat): nat {
    if count == 0 then 0 else limit + HeaderRoom(limit, count - 1)
  }

  lemma {:induction false} WaitingHeaders(bytes: string, limit: nat, count: nat, headers: map<string, string>)
    ensures ReadHeaders(bytes, limit, count, headers) == Failed(Starved) ==> |bytes| <= HeaderRoom(limit, count)
    ensures ReadHeaders(bytes, limit, count, headers).Done? ==>
      |bytes| - |ReadHeaders(bytes, limit, count, headers).value.1| <= HeaderRoom(limit, count)
    decreases count
  {
    if count > 0 && ReadUntil(bytes, limit).Done? {
      var (line, rest) := ReadUntil(bytes, limit).value;
      WaitingHeaders(rest, limit, count - 1, WithHeader(headers, line));
    }
  }

  lemma WaitingBehindLine(limits: Limits, bytes: string, line: string, rest: string)
    requires ReadRequest(limits, bytes) == Failed(Starved) && ReadUntil(bytes, limits.requestLine) == Done((line, rest))
    ensures ReadRest(limits, rest) == Failed(Starved) && RequestHeaders(limits, bytes) == RestHeaders(limits, rest)
    ensures |bytes| <= limits.requestLine + |rest|
  {
  }

  /** What the limits allow for the lines of a request. */
  function LineRoom(limits: Limits): nat {
    limits.requestLine + HeaderRoom(limits.header, limits.headers)
  }

  lemma WaitingLines(limits: Limits, bytes: string)
    ensures var r := ReadHeaders(bytes, limits.header, limits.headers, map[]);
      && (r == Failed(Starved) ==> |bytes| <= HeaderRoom(limits.header, limits.headers))
      && (r.Done? ==> |bytes| - |r.value.1| <= HeaderRoom(limits.header, limits.headers))
  {
    WaitingHeaders(bytes, limits.header, limits.headers, map[]);
  }

  /**
    Main result: a read that waits for more has no more than the limits allow for the lines on its hands, or
    has all the headers and not yet as many bytes behind them as they announce.
   */
  lemma WaitingIsBounded(limits: Limits, bytes: string)
    requires ReadRequest(limits, bytes) == Failed(Starved)
    ensures
      || |bytes| <= LineRoom(limits)
      || (RequestHeaders(limits, bytes).Done?
          && NumberIn(RequestHeaders(limits, bytes).value, CONTENT_LENGTH).Done?
          && |bytes| < LineRoom(limits) + NumberIn(RequestHeaders(limits, bytes).value, CONTENT_LENGTH).value)
  {
    match ReadUntil(bytes, limits.requestLine)
    case Failed(_) => assert |bytes| <= limits.requestLine;
    case Done((line, rest)) =>
      WaitingBehindLine(limits, bytes, line, rest);
      WaitingLines(limits, rest);
      WaitingRest(limits, rest, HeaderRoom(limits.header, limits.headers));
  }

  lemma WaitingRest(limits: Limits, bytes: string, lines: nat)
    requires ReadRest(limits, bytes) == Failed(Starved)
    requires var r := ReadHeaders(bytes, limits.header, limits.headers, map[]);
      (r == Failed(Starved) ==> |bytes| <= lines) && (r.Done? ==> |bytes| - |r.value.1| <= lines)
    ensures || |bytes| <= lines
            || (RestHeaders(limits, bytes).Done?
                && NumberIn(RestHeaders(limits, bytes).value, CONTENT_LENGTH).Done?
                && |bytes| < lines + NumberIn(RestHeaders(limits, bytes).value, CONTENT_LENGTH).value)
  {
    var r := ReadHeaders(bytes, limits.header, limits.headers, map[]);
    if r.Done? {
      WaitingBody(r.value.0, r.value.1);
    }
  }

  lemma WaitingBody(headers: map<string, string>, bytes: string)
    requires ReadBody(headers, bytes) == Failed(Starved)
    ensures NumberIn(headers, CONTENT_LENGTH).Done? && |bytes| < NumberIn(headers, CONTENT_LENGTH).value
  {
  }

  // ---- Malformed numbers -------------------------------------------------------------

  /** Neither number is good: letters in the id, or a good id and letters in the length. */
  predicate BadNumber(headers: map<string, string>) {
    || Letters(headers, TRANSACTION_ID)
    || (Digits(headers, TRANSACTION_ID) && Letters(headers, CONTENT_LENGTH))
  }

  predicate Letters(headers: map<string, string>, name: string) {
    name in headers && IsAlnum(headers[name]) && !IsDigit(headers[name])
  }

  predicate Digits(headers: map<string, string>, name: string) {
    name in headers && IsDigit(headers[name])
  }

  /** The headers of a request whose first line is in order. */
  function RequestHeaders(limits: Limits, bytes: string): Read<map<string, string>> {
    match ReadUntil(bytes, limits.requestLine)
    case Failed(why) => Failed(why)
    case Done((line, rest)) =>
      if ParseRequestLine(line).None? then Failed(Unsatisfiable) else RestHeaders(limits, rest)
  }

  function RestHeaders(limits: Limits, bytes: string): Read<map<string, string>> {
    match ReadHeaders(bytes, limits.header, limits.headers, map[])
    case Failed(why) => Failed(why)
    case Done((headers, _)) => Done(headers)
  }

  lemma HeadersDoNotRaise(bytes: string, limit: nat, count: nat, headers: map<string, string>)
    ensures ReadHeaders(bytes, limit, count, headers) != Failed(NotANumber)
    decreases count
  {
    if count > 0 && ReadUntil(bytes, limit).Done? {
      var (line, rest) := ReadUntil(bytes, limit).value;
      HeadersDoNotRaise(rest, limit, count - 1, WithHeader(headers, line));
    }
  }

  lemma BodyRaises(headers: map<string, string>, bytes: string)
    ensures ReadBody(headers, bytes) == Failed(NotANumber) <==> BadNumber(headers)
  {
    NumberCheckIsTooWide(headers, TRANSACTION_ID);
    NumberCheckIsTooWide(headers, CONTENT_LENGTH);
  }

  lemma RestRaises(limits: Limits, bytes: string)
    ensures ReadRest(limits, bytes) == Failed(NotANumber) <==>
      RestHeaders(limits, bytes).Done? && BadNumber(RestHeaders(limits, bytes).value)
  {
    var r := ReadHeaders(bytes, limits.header, limits.headers, map[]);
    HeadersDoNotRaise(bytes, limits.header, limits.headers, map[]);
    if r.Done? {
      BodyRaises(r.value.0, r.value.1);
    }
  }

  /** read() raises ValueError for exactly the requests that come with all headers and a bad number. */
  lemma ValueErrorExactly(limits: Limits, bytes: string)
    ensures ReadRequest(limits, bytes) == Failed(NotANumber) <==>
      RequestHeaders(limits, bytes).Done? && BadNumber(RequestHeaders(limits, bytes).value)
  {
    var r := ReadUntil(bytes, limits.requestLine);
    if r.Done? {
      RestRaises(limits, r.value.1);
    }
  }

  /** A request whose id is made of letters. */
  const LETTERED: string := REQUEST + CRLF + (HeaderLine(TRANSACTION_ID, "ab") + (CRLF + ""))

  lemma LettersArePlain()
    ensures PlainHeader(TRANSACTION_ID, "ab") && IsAlnum("ab") && !IsDigit("ab")
    ensures |HeaderLine(TRANSACTION_ID, "ab")| == 20
  {
    StripKeeps(TRANSACTION_ID);
    StripKeeps("ab");
    assert "ab"[0] == 'a';
  }

  lemma OnlyHeader(line: string, name: string, value: string, limit: nat, count: nat)
    requires IsHeader(line, name, value) && limit >= |line| && count >= 2
    ensures ReadHeaders(line + (CRLF + ""), limit, count, map[]) == Done((map[name := value], ""))
  {
    OneHeader(line, name, value, CRLF + "", limit, count, map[]);
    EmptyLine("", limit, count - 1, map[name := value]);
  }

  lemma LetteredRest(limits: Limits)
    requires limits.header >= 20 && limits.headers >= 2
    ensures ReadRest(limits, HeaderLine(TRANSACTION_ID, "ab") + (CRLF + "")) == Failed(NotANumber)
  {
    LettersArePlain();
    HeaderLineIsHeader(TRANSACTION_ID, "ab");
    OnlyHeader(HeaderLine(TRANSACTION_ID, "ab"), TRANSACTION_ID, "ab", limits.header, limits.headers);
    BodyRaises(map[TRANSACTION_ID := "ab"], "");
  }

  /** Such a request raises ValueError under any limits that let its lines through. */
  lemma LetteredRaises(limits: Limits)
    requires limits.requestLine >= 16 && limits.header >= 20 && limits.headers >= 2
    ensures ReadRequest(limits, LETTERED) == Failed(NotANumber)
  {
    RequestIsRequestLine();
    AfterRequestLine(limits, LETTERED, REQUEST, HeaderLine(TRANSACTION_ID, "ab") + (CRLF + ""));
    LetteredRest(limits);
  }
}
