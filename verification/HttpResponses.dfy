/**
  Every answer of SimpleBlockingHTTPTransport.read, from what a response consists of: its first line, its
  header lines and what comes behind the empty one.
 */
module HttpResponses {
  import opened Wrappers
  import opened PyText
  import opened HttpParser
  import opened HttpWire

  /** A line without its CRLF. */
  predicate IsLine(line: string) {
    line != "" && '\r' !in line
  }

  predicate AreLines(lines: seq<string>) {
    forall i :: 0 <= i < |lines| ==> IsLine(lines[i])
  }

  function Block(lines: seq<string>): string {
    if lines == [] then "" else lines[0] + CRLF + Block(lines[1..])
  }

  /** The dictionary the lines make, or None when one of them has no colon. */
  function Dictionary(lines: seq<string>, headers: map<string, string>): Option<map<string, string>> {
    if lines == [] then Some(headers)
    else match SplitFirst(lines[0], ':')
      case None => None
      case Some((name, value)) => Dictionary(lines[1..], headers[Strip(name) := Strip(value)])
  }

  /** What a read should come to. */
  function Answer(headers: Option<map<string, string>>, rest: string): Response {
    match headers
    case None => InvalidPacket
    case Some(h) =>
      if CONTENT_LENGTH !in h || !IsDigit(h[CONTENT_LENGTH]) then InvalidPacket
      else if |rest| < ParseNat(h[CONTENT_LENGTH]) then Blocked
      else if TRANSACTION_ID !in h then InvalidPacket
      else match ParseInt(h[TRANSACTION_ID])
        case None => ValueError
        case Some(tid) => Received(tid, rest[..ParseNat(h[CONTENT_LENGTH])])
  }

  lemma LineStep(p: Parser, line: string, tail: string)
    requires p.stage == ParseHeaders && IsLine(line) && p.buffer == line + CRLF + tail
    ensures Get(p) == match SplitFirst(line, ':')
      case None => (p.(buffer := tail), Raised(BadHeader(line + CRLF)))
      case Some((name, value)) => (p.(buffer := tail, headers := p.headers[Strip(name) := Strip(value)]), At(ParseHeaders))
  {
    LineAtFront(line, tail);
    assert (line + CRLF)[0] == line[0];
    assert line + CRLF != CRLF;
  }

  /** The header lines are taken in one after the other, up to the first that is none. */
  lemma {:induction false} LinesAreTaken(p: Parser, lines: seq<string>, tail: string)
    requires p.stage == ParseHeaders && AreLines(lines) && p.buffer == Block(lines) + tail
    ensures match Dictionary(lines, p.headers)
      case None => AutoGet(p).error.Some?
      case Some(h) => AutoGet(p) == AutoGet(p.(buffer := tail, headers := h))
    decreases |lines|
  {
    if lines == [] {
      assert p.buffer == tail;
      assert p == p.(buffer := tail, headers := p.headers);
    } else {
      var rest := Block(lines[1..]) + tail;
      assert p.buffer == lines[0] + CRLF + rest;
      LineStep(p, lines[0], rest);
      AutoGetStep(p);
      if SplitFirst(lines[0], ':').Some? {
        LinesAreTaken(Get(p).0, lines[1..], tail);
      }
    }
  }

  /** The empty line and what is behind it. */
  lemma BlankStep(p: Parser, rest: string)
    requires p.stage == ParseHeaders && p.buffer == CRLF + rest
    ensures Get(p) ==
      if CONTENT_LENGTH !in p.headers then (p.(buffer := rest, stage := Finished), At(Finished))
      else if !IsDigit(p.headers[CONTENT_LENGTH]) then (p.(buffer := rest), Raised(BadContentLength))
      else (p.(buffer := rest, contentLength := ParseNat(p.headers[CONTENT_LENGTH]), stage := ParseContent), At(ParseContent))
  {
    LineAtFront("", rest);
    assert "" + CRLF + rest == CRLF + rest;
  }

  /** How a read goes on with a parser and nothing more to receive. */
  function EndOf(o: Outcome): Response {
    if o.error.Some? then InvalidPacket else if o.parser.stage == Finished then Finish(o.parser) else Blocked
  }

  lemma BlankIsAnswered(p: Parser, rest: string)
    requires p.stage == ParseHeaders && p.buffer == CRLF + rest && p.content.None?
    ensures EndOf(AutoGet(p)) == Answer(Some(p.headers), rest)
  {
    BlankStep(p, rest);
    AutoGetStep(p);
    var q := Get(p).0;
    if q.stage == ParseContent {
      AutoGetStep(q);
    }
  }

  lemma FirstLine(first: string, tail: string)
    requires IsLine(first)
    ensures var p := Fresh(first + CRLF + tail);
      match ParseResponseLine(first + CRLF)
      case None => AutoGet(p).error.Some?
      case Some(line) => AutoGet(p) == AutoGet(Fresh(tail).(line := Some(line), stage := ParseHeaders))
  {
    var p := Fresh(first + CRLF + tail);
    LineAtFront(first, tail);
    AutoGetStep(p);
  }

  /** A response by its parts. */
  function Text(first: string, lines: seq<string>, rest: string): string {
    first + CRLF + (Block(lines) + (CRLF + rest))
  }

  lemma NothingMore(o: Outcome)
    ensures ReadFrom(o, []).response == EndOf(o)
  {
  }

  lemma OneChunk(bytes: string)
    ensures ReadResponse([bytes]).response == EndOf(AutoGet(Fresh(bytes)))
  {
    var o := Outcome(Fresh(""), None);
    ReadStep(o, [bytes]);
    assert "" + bytes == bytes;
    assert FeedChunk(o, bytes) == AutoGet(Fresh(bytes));
    assert [bytes][1..] == [];
    NothingMore(AutoGet(Fresh(bytes)));
  }

  /**
    Main result: a read raises InvalidPacketError for exactly the responses whose first line, whose header
    lines or whose length is malformed, or that lack the length or, with all of the body there, the id;
    ValueError for an id that is no number; and else returns the id and the body, or waits for the rest of it.
   */
  lemma ResponseExactly(first: string, lines: seq<string>, rest: string)
    requires IsLine(first) && AreLines(lines)
    ensures ReadResponse([Text(first, lines, rest)]).response ==
      if ParseResponseLine(first + CRLF).None? then InvalidPacket else Answer(Dictionary(lines, map[]), rest)
  {
    var tail := Block(lines) + (CRLF + rest);
    OneChunk(Text(first, lines, rest));
    FirstLine(first, tail);
    match ParseResponseLine(first + CRLF)
    case None =>
    case Some(line) =>
      var p := Fresh(tail).(line := Some(line), stage := ParseHeaders);
      LinesAreTaken(p, lines, CRLF + rest);
      match Dictionary(lines, map[])
      case None =>
      case Some(h) => BlankIsAnswered(p.(buffer := CRLF + rest, headers := h), rest);
  }
}
