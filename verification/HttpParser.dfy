/**
  extension/http_transport.py: HTTPUtility and the incremental HTTPResponseParser. The parser is
  fed bytes in arbitrary pieces; what it ends up with depends only on the bytes.
 */
module HttpParser {
  import opened Wrappers
  import opened PyText

  // ---- HTTPUtility ------------------------------------------------------------------

  const VERSIONS: seq<string> := ["0.9", "1.0", "1.1"]

  /** RequestHandler.SUPPORTED_METHODS of Tornado. */
  const METHODS: seq<string> := ["GET", "HEAD", "POST", "DELETE", "PATCH", "PUT", "OPTIONS"]

  datatype StatusLine = StatusLine(protocol: string, version: string, status: nat, message: string)

  datatype RequestLine = RequestLine(verb: string, uri: string, version: string)

  function ParseResponseLine(responseLine: string): Option<StatusLine> {
    var items := Words(ChopLine(responseLine));
    if |items| != 3 then None
    else
      var pv := SplitAll(items[0], '/');
      if |pv| != 2 || Upper(pv[0]) != "HTTP" || pv[1] !in VERSIONS || !IsDigit(items[1]) then None
      else Some(StatusLine(pv[0], pv[1], ParseNat(items[1]), items[2]))
  }

  function ParseHeader(headerString: string): Option<(string, string)> {
    match SplitFirst(ChopLine(headerString), ':')
    case None => None
    case Some(pair) => Some((Strip(pair.0), Strip(pair.1)))
  }

  function ParseRequestLine(requestLine: string): Option<RequestLine> {
    match SplitFirst(ChopLine(requestLine), ' ')
    case None => None
    case Some(first) =>
      match SplitFirst(first.1, ' ')
      case None => None
      case Some(second) =>
        if first.0 !in METHODS then None
        else match SplitFirst(second.1, '/')
          case None => None
          case Some(pv) =>
            if Lower(pv.0) != "http" || pv.1 !in VERSIONS then None
            else Some(RequestLine(first.0, second.0, pv.1))
  }

  // ---- HTTPResponseParser -----------------------------------------------------------

  datatype Stage = ParseStatusLine | ParseHeaders | ParseContent | Finished {
    function Rank(): nat {
      match this case ParseStatusLine => 3 case ParseHeaders => 2 case ParseContent => 1 case Finished => 0
    }
  }

  /** InvalidPacketError, with what its message quotes. */
  datatype Error = BadResponseLine(line: string) | BadHeader(line: string) | BadContentLength

  /** UNCOMPLETE_PHRASE, a stage, or the exception raised. */
  datatype Status = Uncomplete | At(stage: Stage) | Raised(error: Error)

  datatype Parser = Parser(
    buffer: string,
    stage: Stage,
    line: Option<StatusLine>,
    headers: map<string, string>,
    contentLength: nat,
    content: Option<string>)

  function Fresh(buffer: string): Parser {
    Parser(buffer, ParseStatusLine, None, map[], 0, None)
  }

  function Feed(p: Parser, data: string): Parser {
    p.(buffer := p.buffer + data)
  }

  /** The first line of the buffer with its CRLF, and the parser without it. */
  function TakeLine(p: Parser): Option<(Parser, string)> {
    match FindCrlf(p.buffer)
    case None => None
    case Some(i) => Some((p.(buffer := p.buffer[i + 2..]), p.buffer[..i + 2]))
  }

  /** get(): at most one line, or the content, is consumed. */
  function Get(p: Parser): (Parser, Status) {
    match p.stage
    case ParseStatusLine =>
      (match TakeLine(p) case None => (p, Uncomplete) case Some((q, l)) => GetStatusLine(q, l))
    case ParseHeaders =>
      (match TakeLine(p) case None => (p, Uncomplete) case Some((q, l)) => GetHeader(q, l))
    case ParseContent =>
      if |p.buffer| < p.contentLength then (p, Uncomplete)
      else (p.(buffer := p.buffer[p.contentLength..], content := Some(p.buffer[..p.contentLength]), stage := Finished),
            At(Finished))
    case Finished => (p, At(Finished))
  }

  function GetStatusLine(p: Parser, responseLine: string): (Parser, Status) {
    match ParseResponseLine(responseLine)
    case None => (p, Raised(BadResponseLine(responseLine)))
    case Some(line) => (p.(line := Some(line), stage := ParseHeaders), At(ParseHeaders))
  }

  function GetHeader(p: Parser, headerString: string): (Parser, Status) {
    if headerString == CRLF then
      if "Content-Length" !in p.headers then (p.(stage := Finished), At(Finished))
      else if !IsDigit(p.headers["Content-Length"]) then (p, Raised(BadContentLength))
      else (p.(contentLength := ParseNat(p.headers["Content-Length"]), stage := ParseContent), At(ParseContent))
    else match ParseHeader(headerString)
      case None => (p, Raised(BadHeader(headerString)))
      case Some(h) => (p.(headers := p.headers[h.0 := h.1]), At(p.stage))
  }

  /** Whether auto_get's loop goes on. */
  predicate Continues(st: Status) {
    st.At? && st.stage != Finished
  }

  /** Every step that goes on consumes bytes, or moves to a later stage. */
  lemma GetDescends(p: Parser)
    requires Continues(Get(p).1)
    ensures |Get(p).0.buffer| < |p.buffer|
      || (|Get(p).0.buffer| == |p.buffer| && Get(p).0.stage.Rank() < p.stage.Rank())
  {
  }

  /** A parser, with the exception that stopped it, if any. */
  datatype Outcome = Outcome(parser: Parser, error: Option<Error>)

  /** auto_get() */
  function AutoGet(p: Parser): Outcome
    decreases |p.buffer|, p.stage.Rank()
  {
    var (q, st) := Get(p);
    if Continues(st) then
      GetDescends(p);
      AutoGet(q)
    else Outcome(q, if st.Raised? then Some(st.error) else None)
  }

  class HTTPResponseParser {
    var buffer: string
    var stage: Stage
    var line: Option<StatusLine>
    var headers: map<string, string>
    var contentLength: nat
    var content: Option<string>

    constructor ()
      ensures Value() == Fresh("")
    {
      buffer, stage, line, headers, contentLength, content := "", ParseStatusLine, None, map[], 0, None;
    }

    function Value(): Parser
      reads this
    {
      Parser(buffer, stage, line, headers, contentLength, content)
    }

    method FeedData(data: string)
      modifies this
      ensures Value() == Feed(old(Value()), data)
    {
      buffer := buffer + data;
    }

    /** consume_by_delimiter("\r\n", 1) */
    method ConsumeLine() returns (taken: string)
      requires FindCrlf(buffer).Some?
      modifies this`buffer
      ensures TakeLine(old(Value())) == Some((Value(), taken))
      ensures taken == old(buffer)[..FindCrlf(old(buffer)).value + 2]
      ensures buffer == old(buffer)[FindCrlf(old(buffer)).value + 2..]
    {
      var position := FindCrlf(buffer).value;
      taken := buffer[..position + 2];
      buffer := buffer[position + 2..];
    }

    method GetNext() returns (st: Status)
      modifies this
      ensures (Value(), st) == Get(old(Value()))
    {
      match stage {
        case ParseStatusLine =>
          st := NextStatusLine();
        case ParseHeaders =>
          st := NextHeader();
        case ParseContent =>
          if |buffer| < contentLength {
            return Uncomplete;
          }
          content := Some(buffer[..contentLength]);
          buffer := buffer[contentLength..];
          stage := Finished;
          return At(stage);
        case Finished =>
          return At(stage);
      }
    }

    method NextStatusLine() returns (st: Status)
      requires stage == ParseStatusLine
      modifies this
      ensures (Value(), st) == Get(old(Value()))
    {
      if FindCrlf(buffer).None? {
        return Uncomplete;
      }
      var responseLine := ConsumeLine();
      var ret := ParseResponseLine(responseLine);
      if ret.None? {
        return Raised(BadResponseLine(responseLine));
      }
      line := ret;
      stage := ParseHeaders;
      return At(stage);
    }

    method NextHeader() returns (st: Status)
      requires stage == ParseHeaders
      modifies this
      ensures (Value(), st) == Get(old(Value()))
    {
      if FindCrlf(buffer).None? {
        return Uncomplete;
      }
      var headerString := ConsumeLine();
      if headerString == CRLF {
        if "Content-Length" !in headers {
          stage := Finished;
          return At(stage);
        }
        var contentLengthString := headers["Content-Length"];
        if !IsDigit(contentLengthString) {
          return Raised(BadContentLength);
        }
        contentLength := ParseNat(contentLengthString);
        stage := ParseContent;
        return At(stage);
      }
      var ret := ParseHeader(headerString);
      if ret.None? {
        return Raised(BadHeader(headerString));
      }
      headers := headers[ret.value.0 := ret.value.1];
      return At(stage);
    }

    method AutoGetAll() returns (error: Option<Error>)
      modifies this
      ensures Outcome(Value(), error) == AutoGet(old(Value()))
    {
      var status := GetNext();
      while Continues(status)
        invariant AutoGet(old(Value())) ==
          if Continues(status) then AutoGet(Value())
          else Outcome(Value(), if status.Raised? then Some(status.error) else None)
        decreases if Continues(status) then 1 else 0, |buffer|, stage.Rank()
      {
        ghost var before := Value();
        status := GetNext();
        if Continues(status) {
          GetDescends(before);
        }
      }
      return if status.Raised? then Some(status.error) else None;
    }

    method ResetStates()
      modifies this
      ensures Value() == Fresh(old(buffer))
    {
      stage, line, headers, contentLength, content := ParseStatusLine, None, map[], 0, None;
    }
  }

  // ---- The pieces do not matter -----------------------------------------------------

  lemma StatusLineExtends(p: Parser, l: string, more: string)
    ensures GetStatusLine(Feed(p, more), l) == (Feed(GetStatusLine(p, l).0, more), GetStatusLine(p, l).1)
  {
  }

  lemma HeaderExtends(p: Parser, l: string, more: string)
    ensures GetHeader(Feed(p, more), l) == (Feed(GetHeader(p, l).0, more), GetHeader(p, l).1)
  {
  }

  lemma CutExtends(buffer: string, more: string, n: nat)
    requires n <= |buffer|
    ensures (buffer + more)[..n] == buffer[..n] && (buffer + more)[n..] == buffer[n..] + more
  {
  }

  lemma TakeLineExtends(p: Parser, more: string)
    requires TakeLine(p).Some?
    ensures TakeLine(Feed(p, more)) == Some((Feed(TakeLine(p).value.0, more), TakeLine(p).value.1))
  {
    FindCrlfExtends(p.buffer, more);
    CutExtends(p.buffer, more, FindCrlf(p.buffer).value + 2);
  }

  lemma GetStatusLineExtends(p: Parser, more: string)
    requires p.stage == ParseStatusLine && TakeLine(p).Some?
    ensures Get(Feed(p, more)) == (Feed(Get(p).0, more), Get(p).1)
  {
    TakeLineExtends(p, more);
    StatusLineExtends(TakeLine(p).value.0, TakeLine(p).value.1, more);
  }

  lemma GetHeaderExtends(p: Parser, more: string)
    requires p.stage == ParseHeaders && TakeLine(p).Some?
    ensures Get(Feed(p, more)) == (Feed(Get(p).0, more), Get(p).1)
  {
    TakeLineExtends(p, more);
    HeaderExtends(TakeLine(p).value.0, TakeLine(p).value.1, more);
  }

  /** A step that could be taken is taken in the same way with more bytes behind it. */
  lemma GetExtends(p: Parser, more: string)
    requires Get(p).1 != Uncomplete
    ensures Get(Feed(p, more)) == (Feed(Get(p).0, more), Get(p).1)
  {
    match p.stage
    case ParseStatusLine => GetStatusLineExtends(p, more);
    case ParseHeaders => GetHeaderExtends(p, more);
    case ParseContent => CutExtends(p.buffer, more, p.contentLength);
    case Finished =>
  }

  /** feed() and auto_get(); after an exception further bytes are only kept. */
  function FeedChunk(o: Outcome, chunk: string): Outcome {
    if o.error.Some? then Outcome(Feed(o.parser, chunk), o.error) else AutoGet(Feed(o.parser, chunk))
  }

  lemma AutoGetStep(p: Parser)
    ensures AutoGet(p) ==
      if Continues(Get(p).1) then AutoGet(Get(p).0)
      else Outcome(Get(p).0, if Get(p).1.Raised? then Some(Get(p).1.error) else None)
  {
  }

  /** Parsing what has come before feeding the rest leads to the same end. */
  lemma {:induction false} AutoGetThenFeed(p: Parser, more: string)
    ensures FeedChunk(AutoGet(p), more) == AutoGet(Feed(p, more))
    decreases |p.buffer|, p.stage.Rank()
  {
    var (q, st) := Get(p);
    GetStops(p);
    AutoGetStep(p);
    if st != Uncomplete {
      GetExtends(p, more);
      AutoGetStep(Feed(p, more));
      if Continues(st) {
        GetDescends(p);
        AutoGetThenFeed(q, more);
      } else if st == At(Finished) {
        AutoGetStep(Feed(q, more));
      }
    }
  }

  function FeedChunks(o: Outcome, chunks: seq<string>): Outcome
    decreases |chunks|
  {
    if chunks == [] then o else FeedChunks(FeedChunk(o, chunks[0]), chunks[1..])
  }

  function Concat(chunks: seq<string>): string {
    if chunks == [] then "" else chunks[0] + Concat(chunks[1..])
  }

  /** A parser that has taken every step it can. */
  predicate Settled(o: Outcome) {
    o.error.Some? || AutoGet(o.parser) == o
  }

  /** A step that ends the loop without an exception has nothing after it. */
  lemma GetStops(p: Parser)
    ensures Get(p).1 == Uncomplete ==> Get(p).0 == p
    ensures Get(p).1 == At(Finished) ==> Get(p).0.stage == Finished
  {
  }

  lemma {:induction false} AutoGetSettles(p: Parser)
    ensures Settled(AutoGet(p))
    decreases |p.buffer|, p.stage.Rank()
  {
    var (q, st) := Get(p);
    if Continues(st) {
      GetDescends(p);
      AutoGetSettles(q);
    } else {
      GetStops(p);
      assert !st.Raised? ==> Get(q) == (q, st);
    }
  }

  lemma TwoChunksAreOne(o: Outcome, a: string, b: string)
    ensures FeedChunk(FeedChunk(o, a), b) == FeedChunk(o, a + b)
  {
    assert o.parser.buffer + (a + b) == (o.parser.buffer + a) + b;
    if o.error.None? {
      AutoGetThenFeed(Feed(o.parser, a), b);
    }
  }

  /**
    Main result: however a byte string is cut into pieces, feeding and parsing piece by piece ends
    with the stage, status line, headers, content, leftover bytes or exception of feeding it whole.
   */
  lemma {:induction false} ChunkingIsInvisible(o: Outcome, chunks: seq<string>)
    requires Settled(o)
    ensures FeedChunks(o, chunks) == FeedChunk(o, Concat(chunks))
    ensures Settled(FeedChunks(o, chunks))
    decreases |chunks|
  {
    if chunks == [] {
      assert o.parser.buffer + "" == o.parser.buffer;
      assert Feed(o.parser, "") == o.parser;
    } else {
      AutoGetSettles(Feed(o.parser, chunks[0]));
      ChunkingIsInvisible(FeedChunk(o, chunks[0]), chunks[1..]);
      TwoChunksAreOne(o, chunks[0], Concat(chunks[1..]));
    }
  }

  /** The fresh parser is settled, so this covers every use from the start. */
  lemma FreshIsSettled()
    ensures Settled(Outcome(Fresh(""), None))
  {
  }
}
