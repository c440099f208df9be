/**
  extension/http_transport.py: the packets the two HTTP transports write and the reads at the other
  end. Each end gets back exactly the pair that was sent, however the bytes are cut into pieces.
 */
module HttpWire {
  import opened Wrappers
  import opened PyText
  import opened HttpParser

  // ---- The packets ------------------------------------------------------------------

  const STATUS: string := "HTTP/1.1 200 OK"
  const REQUEST: string := "GET / HTTP/1.1"
  const AGENT: string := "SimpleBlockingHTTPTransport"
  const TRANSACTION_ID: string := "Transaction-Id"
  const CONTENT_LENGTH: string := "Content-Length"
  const USER_AGENT: string := "User-Agent"

  function HeaderLine(name: string, value: string): string {
    name + ": " + value + CRLF
  }

  function Ids(tid: nat, buff: string): string {
    HeaderLine(TRANSACTION_ID, Decimal(tid)) + HeaderLine(CONTENT_LENGTH, Decimal(|buff|))
  }

  /** HTTPTransport.generate_packet: the server's response. */
  function ServerPacket(tid: nat, buff: string): string {
    STATUS + CRLF + Ids(tid, buff) + CRLF + buff
  }

  /** SimpleBlockingHTTPTransport.generate_packet: the client's request. */
  function ClientPacket(tid: nat, buff: string): string {
    REQUEST + CRLF + Ids(tid, buff) + HeaderLine(USER_AGENT, AGENT) + CRLF + buff
  }

  // ---- The client reads a response --------------------------------------------------

  datatype Response =
    | Received(tid: int, content: string)
    | InvalidPacket
    | ValueError
    | Blocked // recv has nothing to return yet

  /** What read() makes of a finished parser. */
  function Finish(p: Parser): Response {
    if TRANSACTION_ID !in p.headers || p.content.None? then InvalidPacket
    else match ParseInt(p.headers[TRANSACTION_ID])
      case None => ValueError
      case Some(tid) => Received(tid, p.content.value)
  }

  /** What read() returns or raises, and the number of recv calls it takes to get there. */
  datatype Reading = Reading(response: Response, calls: nat) {
    function After(n: nat): Reading { Reading(response, calls + n) }
  }

  /** read() from a parser in its loop. */
  function ReadFrom(o: Outcome, chunks: seq<string>): Reading
    decreases |chunks|
  {
    if o.error.Some? then Reading(InvalidPacket, 0)
    else if o.parser.stage == Finished then Reading(Finish(o.parser), 0)
    else if chunks == [] then Reading(Blocked, 0)
    else ReadFrom(FeedChunk(o, chunks[0]), chunks[1..]).After(1)
  }

  function ReadResponse(chunks: seq<string>): Reading {
    ReadFrom(Outcome(Fresh(""), None), chunks)
  }

  /** SimpleBlockingHTTPTransport.read over what successive recv calls return. */
  method BlockingRead(chunks: seq<string>) returns (r: Reading)
    ensures r == ReadResponse(chunks)
  {
    var parser := new HTTPResponseParser();
    var calls := 0;
    while parser.stage != Finished
      invariant calls <= |chunks|
      invariant fresh(parser)
      invariant ReadResponse(chunks) == ReadFrom(Outcome(parser.Value(), None), chunks[calls..]).After(calls)
      decreases |chunks| - calls
    {
      if calls == |chunks| {
        return Reading(Blocked, calls);
      }
      ghost var before := Outcome(parser.Value(), None);
      parser.FeedData(chunks[calls]);
      var error := parser.AutoGetAll();
      ReadStep(before, chunks[calls..]);
      assert chunks[calls..][1..] == chunks[calls + 1..];
      calls := calls + 1;
      if error.Some? {
        return Reading(InvalidPacket, calls);
      }
    }
    var headers, content := parser.headers, parser.content;
    parser.ResetStates();
    if TRANSACTION_ID !in headers || content.None? {
      return Reading(InvalidPacket, calls);
    }
    var tid := ParseInt(headers[TRANSACTION_ID]);
    r := Reading(if tid.None? then ValueError else Received(tid.value, content.value), calls);
  }

  lemma ReadStep(o: Outcome, chunks: seq<string>)
    requires o.error.None? && o.parser.stage != Finished && chunks != []
    ensures ReadFrom(o, chunks) == ReadFrom(FeedChunk(o, chunks[0]), chunks[1..]).After(1)
  {
  }

  // ---- Lines and headers as the parsers see them ------------------------------------

  lemma LineAtFront(line: string, rest: string)
    requires '\r' !in line
    ensures FindCrlf(line + CRLF + rest) == Some(|line|)
    ensures (line + CRLF + rest)[..|line| + 2] == line + CRLF
    ensures (line + CRLF + rest)[|line| + 2..] == rest
    ensures ChopLine(line + CRLF) == line
  {
    FindCrlfAfterLine(line, rest);
    assert (line + CRLF)[|line + CRLF| - 2..] == CRLF;
  }

  /** A name and a value that come back from the header line made of them. */
  predicate PlainHeader(name: string, value: string) {
    && name != "" && ':' !in name && '\r' !in name && '\r' !in value
    && Strip(name) == name && Strip(" " + value) == value
  }

  lemma HeaderComesBack(name: string, value: string)
    requires PlainHeader(name, value)
    ensures ParseHeader(HeaderLine(name, value)) == Some((name, value))
    ensures HeaderLine(name, value) != CRLF
    ensures '\r' !in name + ": " + value
  {
    var line := name + ": " + value;
    LineAtFront(line, "");
    assert line == name + [':'] + (" " + value);
    SplitFirstAt(name, ':', " " + value);
    assert HeaderLine(name, value)[0] == name[0];
  }

  lemma NumberIsPlain(name: string, n: nat)
    requires name != "" && ':' !in name && '\r' !in name && Strip(name) == name
    ensures PlainHeader(name, Decimal(n))
  {
    DecimalIsPlain(n);
  }

  lemma IdIsPlain(n: nat)
    ensures PlainHeader(TRANSACTION_ID, Decimal(n))
  {
    StripKeeps(TRANSACTION_ID);
    NumberIsPlain(TRANSACTION_ID, n);
  }

  lemma LengthIsPlain(n: nat)
    ensures PlainHeader(CONTENT_LENGTH, Decimal(n))
  {
    StripKeeps(CONTENT_LENGTH);
    NumberIsPlain(CONTENT_LENGTH, n);
  }

  lemma AgentIsPlain()
    ensures PlainHeader(USER_AGENT, AGENT)
  {
    StripKeeps(USER_AGENT);
    StripKeeps(AGENT);
  }

  // ---- The parser on a whole response -----------------------------------------------

  lemma {:induction false} WordAtFront(w: string, rest: string, acc: string)
    requires forall i :: 0 <= i < |w| ==> !IsSpaceChar(w[i])
    ensures WordsAfter(w + rest, acc) == WordsAfter(rest, acc + w)
    decreases |w|
  {
    if w == "" {
      assert w + rest == rest && acc + w == acc;
    } else {
      WordAtFront(w[1..], rest, acc + [w[0]]);
      assert (w + rest)[1..] == w[1..] + rest;
      assert acc + [w[0]] + w[1..] == acc + w;
    }
  }

  predicate IsWord(w: string) {
    w != "" && forall i :: 0 <= i < |w| ==> !IsSpaceChar(w[i])
  }

  lemma WordThenSpace(w: string, rest: string)
    requires IsWord(w)
    ensures Words(w + [' '] + rest) == [w] + Words(rest)
    ensures Words(w) == [w]
  {
    assert w + ([' '] + rest) == w + [' '] + rest;
    WordAtFront(w, [' '] + rest, "");
    assert "" + w == w && ([' '] + rest)[1..] == rest;
    assert w + "" == w;
    WordAtFront(w, "", "");
  }

  lemma ThreeWords(a: string, b: string, c: string)
    requires IsWord(a) && IsWord(b) && IsWord(c)
    ensures Words(a + [' '] + (b + [' '] + c)) == [a, b, c]
  {
    WordThenSpace(a, b + [' '] + c);
    WordThenSpace(b, c);
    WordThenSpace(c, "");
  }

  lemma StatusText()
    ensures STATUS == "HTTP/1.1" + [' '] + ("200" + [' '] + "OK")
  {
  }

  lemma PartsParse(line: string, protocol: string, name: string, version: string, code: string, message: string)
    requires line == protocol + [' '] + (code + [' '] + message) && '\r' !in line
    requires IsWord(protocol) && IsWord(code) && IsWord(message)
    requires SplitAll(protocol, '/') == [name, version]
    requires Upper(name) == "HTTP" && version in VERSIONS && IsDigit(code)
    ensures ParseResponseLine(line + CRLF) == Some(StatusLine(name, version, ParseNat(code), message))
  {
    LineAtFront(line, "");
    ThreeWords(protocol, code, message);
  }

  lemma ProtocolSplits()
    ensures SplitAll("HTTP/1.1", '/') == ["HTTP", "1.1"]
  {
    assert "HTTP/1.1" == "HTTP" + ['/'] + "1.1";
    IndexOfFirst("HTTP", '/', "1.1");
    assert "HTTP/1.1"[..4] == "HTTP" && "HTTP/1.1"[5..] == "1.1";
    assert '/' !in "1.1";
  }

  lemma TwoHundred()
    ensures IsDigit("200") && ParseNat("200") == 200
  {
    assert "200"[..2] == "20" && "20"[..1] == "2" && "2"[..0] == "";
  }

  lemma KnownProtocol()
    ensures Upper("HTTP") == "HTTP" && "1.1" in VERSIONS
  {
    assert VERSIONS[2] == "1.1";
  }

  lemma StatusWordsAreWords()
    ensures IsWord("HTTP/1.1") && IsWord("200") && IsWord("OK") && '\r' !in STATUS
  {
  }

  lemma StatusLineParses()
    ensures ParseResponseLine(STATUS + CRLF) == Some(StatusLine("HTTP", "1.1", 200, "OK"))
  {
    StatusText();
    StatusWordsAreWords();
    ProtocolSplits();
    TwoHundred();
    KnownProtocol();
    PartsParse(STATUS, "HTTP/1.1", "HTTP", "1.1", "200", "OK");
  }

  lemma StepStatus(p: Parser, rest: string)
    requires p.stage == ParseStatusLine && p.buffer == STATUS + CRLF + rest
    ensures Get(p) ==
      (p.(buffer := rest, line := Some(StatusLine("HTTP", "1.1", 200, "OK")), stage := ParseHeaders), At(ParseHeaders))
  {
    LineAtFront(STATUS, rest);
    StatusLineParses();
  }

  lemma StepHeader(p: Parser, name: string, value: string, rest: string)
    requires PlainHeader(name, value)
    requires p.stage == ParseHeaders && p.buffer == HeaderLine(name, value) + rest
    ensures Get(p) == (p.(buffer := rest, headers := p.headers[name := value]), At(ParseHeaders))
  {
    HeaderComesBack(name, value);
    LineAtFront(name + ": " + value, rest);
  }

  lemma StepBlank(p: Parser, n: nat, rest: string)
    requires p.stage == ParseHeaders && p.buffer == CRLF + rest
    requires CONTENT_LENGTH in p.headers && p.headers[CONTENT_LENGTH] == Decimal(n)
    ensures Get(p) == (p.(buffer := rest, contentLength := n, stage := ParseContent), At(ParseContent))
  {
    LineAtFront("", rest);
    assert "" + CRLF + rest == CRLF + rest;
    ParseNatDecimal(n);
  }

  lemma StepContent(p: Parser, body: string, more: string)
    requires p.stage == ParseContent && p.buffer == body + more && p.contentLength == |body|
    ensures Get(p) == (p.(buffer := more, content := Some(body), stage := Finished), At(Finished))
  {
  }

  function Headers(tid: nat, buff: string): map<string, string> {
    map[TRANSACTION_ID := Decimal(tid), CONTENT_LENGTH := Decimal(|buff|)]
  }

  /** The parser in the middle of a response, with the headers read and the body still to come. */
  lemma HeadersAreParsed(p: Parser, tid: nat, buff: string, rest: string)
    requires p.stage == ParseHeaders && p.headers == map[]
    requires p.buffer == Ids(tid, buff) + (CRLF + rest)
    ensures AutoGet(p) == AutoGet(p.(buffer := rest, headers := Headers(tid, buff), contentLength := |buff|, stage := ParseContent))
  {
    IdIsPlain(tid);
    LengthIsPlain(|buff|);
    var afterIds := CRLF + rest;
    var afterTid := HeaderLine(CONTENT_LENGTH, Decimal(|buff|)) + afterIds;
    assert p.buffer == HeaderLine(TRANSACTION_ID, Decimal(tid)) + afterTid;
    StepHeader(p, TRANSACTION_ID, Decimal(tid), afterTid);
    var p1 := Get(p).0;
    StepHeader(p1, CONTENT_LENGTH, Decimal(|buff|), afterIds);
    var p2 := Get(p1).0;
    assert p2.headers == Headers(tid, buff);
    StepBlank(p2, |buff|, rest);
    AutoGetStep(p);
    AutoGetStep(p1);
    AutoGetStep(p2);
  }

  predicate EndsWith(o: Outcome, tid: nat, buff: string, more: string) {
    && o.error.None? && o.parser.stage == Finished && o.parser.buffer == more
    && o.parser.headers == Headers(tid, buff) && o.parser.content == Some(buff)
  }

  /** Bytes that bring a fresh parser to its end and leave alone what follows them. */
  ghost predicate IsResponse(packet: string, tid: nat, buff: string) {
    forall more :: EndsWith(AutoGet(Fresh(packet + more)), tid, buff, more)
  }

  lemma ResponseIsParsed(tid: nat, buff: string, more: string)
    ensures EndsWith(AutoGet(Fresh(ServerPacket(tid, buff) + more)), tid, buff, more)
  {
    var p := Fresh(ServerPacket(tid, buff) + more);
    var rest := buff + more;
    var afterLine := Ids(tid, buff) + (CRLF + rest);
    assert p.buffer == STATUS + CRLF + afterLine;
    StepStatus(p, afterLine);
    var p1 := Get(p).0;
    HeadersAreParsed(p1, tid, buff, rest);
    var p2 := p1.(buffer := rest, headers := Headers(tid, buff), contentLength := |buff|, stage := ParseContent);
    StepContent(p2, buff, more);
    AutoGetStep(p);
    AutoGetStep(p2);
  }

  /** What the server writes is a response in this sense. */
  lemma ServerPacketIsResponse(tid: nat, buff: string)
    ensures IsResponse(ServerPacket(tid, buff), tid, buff)
  {
    forall more ensures EndsWith(AutoGet(Fresh(ServerPacket(tid, buff) + more)), tid, buff, more) {
      ResponseIsParsed(tid, buff, more);
    }
  }

  /** No proper prefix of a response finishes the parser or makes it raise. */
  lemma PrefixIsUnfinished(packet: string, tid: nat, buff: string, prefix: string, tail: string)
    requires IsResponse(packet, tid, buff)
    requires prefix + tail == packet && tail != ""
    ensures var o := AutoGet(Fresh(prefix)); o.error.None? && o.parser.stage != Finished
  {
    AutoGetThenFeed(Fresh(prefix), tail);
    assert Feed(Fresh(prefix), tail) == Fresh(packet);
    assert packet + "" == packet;
    assert EndsWith(AutoGet(Fresh(packet)), tid, buff, "");
    var o := AutoGet(Fresh(prefix));
    if o.error.None? && o.parser.stage == Finished {
      AutoGetStep(Feed(o.parser, tail));
    }
  }

  // ---- Whole responses come back ----------------------------------------------------

  /** The number of chunks whose bytes make up at least n bytes, or all of them. */
  function ChunksFor(chunks: seq<string>, n: int): (k: nat)
    ensures k <= |chunks|
    ensures |Concat(chunks[..k])| >= n || k == |chunks|
    ensures k > 0 ==> |Concat(chunks[..k - 1])| < n
    decreases |chunks|
  {
    if n <= 0 || chunks == [] then 0
    else
      var k := ChunksFor(chunks[1..], n - |chunks[0]|);
      assert chunks[..k + 1][1..] == chunks[1..][..k];
      assert k > 0 ==> chunks[..k][1..] == chunks[1..][..k - 1];
      k + 1
  }

  /** read() with a parser that has already been given some bytes. */
  function ReadAfter(seen: string, chunks: seq<string>): Reading {
    ReadFrom(AutoGet(Fresh(seen)), chunks)
  }

  /** One recv in the middle of a response. */
  lemma OneMoreChunk(packet: string, tid: nat, buff: string, seen: string, tail: string, chunks: seq<string>)
    requires IsResponse(packet, tid, buff)
    requires seen + tail == packet && tail != ""
    ensures ReadAfter(seen, chunks) ==
      if chunks == [] then Reading(Blocked, 0) else ReadAfter(seen + chunks[0], chunks[1..]).After(1)
  {
    PrefixIsUnfinished(packet, tid, buff, seen, tail);
    if chunks != [] {
      AutoGetThenFeed(Fresh(seen), chunks[0]);
      assert Feed(Fresh(seen), chunks[0]) == Fresh(seen + chunks[0]);
    }
  }

  lemma EndIsRead(packet: string, tid: nat, buff: string, over: string, chunks: seq<string>)
    requires IsResponse(packet, tid, buff)
    ensures ReadAfter(packet + over, chunks) == Reading(Received(tid, buff), 0)
  {
    assert EndsWith(AutoGet(Fresh(packet + over)), tid, buff, over);
    DecimalIsPlain(tid);
  }

  lemma LastChunk(packet: string, tid: nat, buff: string, seen: string, tail: string, chunk: string, rest: seq<string>)
    requires IsResponse(packet, tid, buff)
    requires seen + tail == packet && |tail| <= |chunk| && chunk[..|tail|] == tail
    ensures ReadAfter(seen + chunk, rest) == Reading(Received(tid, buff), 0)
  {
    assert seen + chunk == packet + chunk[|tail|..];
    EndIsRead(packet, tid, buff, chunk[|tail|..], rest);
  }

  /** read() in the middle of a response: seen is what has been received of it, tail what has not. */
  lemma {:induction false} ReadIsExact(packet: string, tid: nat, buff: string, seen: string, tail: string,
      chunks: seq<string>, more: string)
    requires IsResponse(packet, tid, buff)
    requires seen + tail == packet && tail != ""
    requires Concat(chunks) == tail + more
    ensures ReadAfter(seen, chunks) == Reading(Received(tid, buff), ChunksFor(chunks, |tail|))
    decreases |chunks|
  {
    OneMoreChunk(packet, tid, buff, seen, tail, chunks);
    var k := |chunks[0]|;
    if k < |tail| {
      SplitAt(chunks[0], Concat(chunks[1..]), tail, more);
      assert seen + chunks[0] + tail[k..] == packet;
      ReadIsExact(packet, tid, buff, seen + chunks[0], tail[k..], chunks[1..], more);
    } else {
      SplitAt(tail, more, chunks[0], Concat(chunks[1..]));
      LastChunk(packet, tid, buff, seen, tail, chunks[0], chunks[1..]);
    }
  }

  /** Two ways of cutting the same string. */
  lemma SplitAt(a: string, b: string, c: string, d: string)
    requires a + b == c + d && |a| <= |c|
    ensures c == a + c[|a|..] && b == c[|a|..] + d
  {
    assert (a + b)[..|a|] == a && (c + d)[..|a|] == c[..|a|];
    assert (a + b)[|a|..] == b && (c + d)[|a|..] == c[|a|..] + d;
  }

  /**
    Main result: whatever body was written, with CRLFs in it or empty, and however the response and
    the bytes behind it are cut into pieces, the client reads the pair that was sent, and it does so
    as soon as the last byte of the response has come.
   */
  lemma ResponseRoundTrip(tid: nat, buff: string, chunks: seq<string>, more: string)
    requires Concat(chunks) == ServerPacket(tid, buff) + more
    ensures ReadResponse(chunks) == Reading(Received(tid, buff), ChunksFor(chunks, |ServerPacket(tid, buff)|))
  {
    var packet := ServerPacket(tid, buff);
    ServerPacketIsResponse(tid, buff);
    FreshReads(chunks);
    assert "" + packet == packet;
    ReadIsExact(packet, tid, buff, "", packet, chunks, more);
  }

  lemma FreshReads(chunks: seq<string>)
    ensures ReadResponse(chunks) == ReadAfter("", chunks)
  {
    FreshIsSettled();
  }

  lemma NextChunk(seen: string, chunk: string, rest: string, tail: string)
    ensures seen + (chunk + rest + tail) == seen + chunk + (rest + tail)
  {
  }

  /** read() with part of a response received and part of it never sent. */
  lemma {:induction false} IncompleteBlocks(packet: string, tid: nat, buff: string, seen: string,
      chunks: seq<string>, tail: string)
    requires IsResponse(packet, tid, buff)
    requires seen + (Concat(chunks) + tail) == packet && tail != ""
    ensures ReadAfter(seen, chunks) == Reading(Blocked, |chunks|)
    decreases |chunks|
  {
    OneMoreChunk(packet, tid, buff, seen, Concat(chunks) + tail, chunks);
    if chunks != [] {
      NextChunk(seen, chunks[0], Concat(chunks[1..]), tail);
      IncompleteBlocks(packet, tid, buff, seen + chunks[0], chunks[1..], tail);
    }
  }

  /** Until the last byte has come, the client waits: it neither returns nor raises. */
  lemma IncompleteResponseBlocks(tid: nat, buff: string, chunks: seq<string>, tail: string)
    requires Concat(chunks) + tail == ServerPacket(tid, buff) && tail != ""
    ensures ReadResponse(chunks) == Reading(Blocked, |chunks|)
  {
    ServerPacketIsResponse(tid, buff);
    FreshReads(chunks);
    assert "" + (Concat(chunks) + tail) == ServerPacket(tid, buff);
    IncompleteBlocks(ServerPacket(tid, buff), tid, buff, "", chunks, tail);
  }
}
