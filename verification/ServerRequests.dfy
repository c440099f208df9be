/**
  rpc_server.py: what Runner makes of the bytes of one request, from the transport through the
  serializer to the call. The serializer and the exported methods are parameters.
 */
module ServerRequests {
  import opened Wrappers
  import F = RecordFraming
  import H = HttpRequests
  import W = HttpWire

  // ---- The transport -----------------------------------------------------------------

  /** HTTPTransport with its limits, or RecordTransport. */
  datatype Transport = Http(limits: H.Limits) | Record

  function Raw(s: string): F.bytes {
    seq(|s|, i requires 0 <= i < |s| => (s[i] as int % 256) as F.byte)
  }

  /** RecordTransport.read: the length, the id, the body. */
  function ReadRecord(bytes: string): H.Read<H.Request> {
    if |bytes| < 8 then H.Failed(H.Starved)
    else
      var n := F.Unpack32(Raw(bytes[..4]));
      if |bytes| < 8 + n then H.Failed(H.Starved)
      else H.Done(H.Request(F.Unpack32(Raw(bytes[4..8])), Some(bytes[8..8 + n])))
  }

  function Chars(b: F.bytes): string {
    seq(|b|, i requires 0 <= i < |b| => b[i] as int as char)
  }

  lemma RawChars(b: F.bytes)
    ensures Raw(Chars(b)) == b
  {
  }

  /** A record comes back from its packet, whatever follows it. */
  lemma RecordComesBack(r: F.Record, rest: string)
    requires F.Fits(r)
    ensures ReadRecord(Chars(F.GeneratePacket(r).value) + rest) == H.Done(H.Request(r.tid, Some(Chars(r.body))))
  {
    var head, tid := F.Pack32(|r.body|), F.Pack32(r.tid);
    var bytes := Chars(F.GeneratePacket(r).value) + rest;
    assert bytes[..4] == Chars(head) && bytes[4..8] == Chars(tid) && bytes[8..8 + |r.body|] == Chars(r.body);
    RawChars(head);
    RawChars(tid);
    F.UnpackPacked(|r.body|);
    F.UnpackPacked(r.tid);
  }

  function ReadFrom(t: Transport, bytes: string): H.Read<H.Request> {
    match t
    case Record => ReadRecord(bytes)
    case Http(limits) =>
      match H.ReadRequest(limits, bytes)
      case Done((request, _)) => H.Done(request)
      case Failed(why) => H.Failed(why)
  }

  // ---- The serializer and the call ---------------------------------------------------

  /** A key of kwargs; Python takes only strings as keywords. */
  datatype Keyword = Text(name: string) | NoText

  /** kwargs after loads: a mapping, or something else that a pickle may hold. */
  datatype Keywords = Mapping(keys: seq<Keyword>) | NoMapping

  /** What loads makes of a body: DeserializationError, another exception, another object, or a Request. */
  datatype Loaded =
    | Undecodable
    | Unexpected
    | Foreign
    | Call(names: Option<(string, string)>, spreads: bool, keywords: Keywords)

  datatype Export = NotExported | Coroutine | Plain(inSubprocess: bool)

  /** names is None for names that no dictionary can look up; spreads says whether *args works. */
  datatype Service = Service(
    transport: Transport,
    loads: Option<string> -> Loaded,
    exports: ((string, string)) -> Export,
    threadPool: bool,
    processPool: bool)

  /** *args, **kwargs can be spread into a call. */
  predicate Spreads(call: Loaded)
    requires call.Call?
  {
    call.spreads && call.keywords.Mapping? && forall k :: k in call.keywords.keys ==> k.Text?
  }

  /** submit(self, fn, *args, **kwargs) has two names of its own. */
  predicate TakesOver(call: Loaded)
    requires call.Call?
  {
    call.keywords.Mapping? && (Text("self") in call.keywords.keys || Text("fn") in call.keywords.keys)
  }

  /** Whether _invoke raises before there is a future for the call. */
  predicate InvokeRaises(v: Service, call: Loaded)
    requires call.Call?
  {
    match call.names
    case None => true
    case Some(names) =>
      match v.exports(names)
      case NotExported => false
      case Coroutine => !Spreads(call)
      case Plain(inSubprocess) =>
        // the submission to the process pool is inside a try of its own
        !(inSubprocess && v.processPool) && v.threadPool && (!Spreads(call) || TakesOver(call))
  }

  // ---- One request -------------------------------------------------------------------

  /** How the runner goes on: it waits, runs the request, closes the stream, or is ended by an exception. */
  datatype Fate = Waits | Invoked | Closes | Dies

  function FateOfBody(v: Service, body: Option<string>): Fate {
    match v.loads(body)
    case Undecodable => Closes
    case Foreign => Closes
    case Unexpected => Dies
    case Call(names, spreads, keywords) =>
      if InvokeRaises(v, Call(names, spreads, keywords)) then Dies else Invoked
  }

  function FateOf(v: Service, bytes: string): Fate {
    FateOfRead(v, ReadFrom(v.transport, bytes))
  }

  function FateOfRead(v: Service, read: H.Read<H.Request>): Fate {
    match read
    case Failed(Starved) => Waits
    case Failed(Unsatisfiable) => Closes
    case Failed(NotANumber) => Dies
    case Done(request) => FateOfBody(v, request.body)
  }

  /** A request that is answered, refused or fatal by its own bytes, headers and call. */
  predicate BadCall(v: Service, body: Option<string>) {
    v.loads(body).Unexpected? || (v.loads(body).Call? && InvokeRaises(v, v.loads(body)))
  }

  /**
    The runner is ended by exactly these requests: over HTTP, all headers there and a number field
    alphanumeric but not all digits; over either transport, a body whose decoding raises something other
    than DeserializationError or whose call cannot be made.
   */
  lemma DiesExactly(v: Service, bytes: string)
    ensures FateOf(v, bytes) == Dies <==>
      || (v.transport.Http? && H.RequestHeaders(v.transport.limits, bytes).Done?
          && H.BadNumber(H.RequestHeaders(v.transport.limits, bytes).value))
      || (ReadFrom(v.transport, bytes).Done? && BadCall(v, ReadFrom(v.transport, bytes).value.body))
  {
    if v.transport.Http? {
      H.ValueErrorExactly(v.transport.limits, bytes);
    }
  }

  /** A call that is made, or answered with an exception: the five ways _invoke goes to a future. */
  predicate CanBeMade(v: Service, names: (string, string), call: Loaded)
    requires call.Call?
  {
    match v.exports(names)
    case NotExported => true
    case Coroutine => Spreads(call)
    case Plain(inSubprocess) =>
      || (inSubprocess && v.processPool)
      || !v.threadPool
      || (Spreads(call) && Text("self") !in call.keywords.keys && Text("fn") !in call.keywords.keys)
  }

  /** A request that gets a future. */
  predicate GoodCall(v: Service, body: Option<string>) {
    var call := v.loads(body);
    call.Call? && call.names.Some? && CanBeMade(v, call.names.value, call)
  }

  lemma CallExactly(v: Service, names: (string, string), call: Loaded)
    requires call.Call? && call.names == Some(names)
    ensures InvokeRaises(v, call) <==> !CanBeMade(v, names, call)
  {
  }

  lemma BodyExactly(v: Service, body: Option<string>)
    ensures FateOfBody(v, body) == Invoked <==> GoodCall(v, body)
    ensures FateOfBody(v, body) == Closes <==> v.loads(body).Undecodable? || v.loads(body).Foreign?
    ensures FateOfBody(v, body) != Waits
  {
    var call := v.loads(body);
    if call.Call? && call.names.Some? {
      CallExactly(v, call.names.value, call);
    }
  }

  lemma ReadExactly(v: Service, read: H.Read<H.Request>)
    ensures FateOfRead(v, read) == Invoked <==> read.Done? && GoodCall(v, read.value.body)
    ensures FateOfRead(v, read) == Closes <==>
      || read == H.Failed(H.Unsatisfiable)
      || (read.Done? && (v.loads(read.value.body).Undecodable? || v.loads(read.value.body).Foreign?))
    ensures FateOfRead(v, read) == Waits <==> read == H.Failed(H.Starved)
  {
    if read.Done? {
      BodyExactly(v, read.value.body);
    }
  }

  /** Main result: when a request's call is made, when its stream is closed, and when the runner waits, exactly. */
  lemma FateExactly(v: Service, bytes: string)
    ensures var read := ReadFrom(v.transport, bytes);
      && (FateOf(v, bytes) == Invoked <==> read.Done? && GoodCall(v, read.value.body))
      && (FateOf(v, bytes) == Closes <==>
            || read == H.Failed(H.Unsatisfiable)
            || (read.Done? && (v.loads(read.value.body).Undecodable? || v.loads(read.value.body).Foreign?)))
      && (FateOf(v, bytes) == Waits <==> read == H.Failed(H.Starved))
  {
    ReadExactly(v, ReadFrom(v.transport, bytes));
  }

  /** A client's packet with a call that can be made gets its call made. */
  lemma GoodCallInPacket(v: Service, tid: nat, buff: string)
    requires v.transport.Http? && H.Fits(v.transport.limits, tid, buff)
    requires GoodCall(v, if buff == "" then None else Some(buff))
    ensures FateOf(v, W.ClientPacket(tid, buff)) == Invoked
  {
    H.RequestRoundTrip(v.transport.limits, tid, buff, "");
    assert W.ClientPacket(tid, buff) + "" == W.ClientPacket(tid, buff);
    FateExactly(v, W.ClientPacket(tid, buff));
  }

  /** So does a record's. */
  lemma GoodCallInRecord(v: Service, r: F.Record)
    requires v.transport.Record? && F.Fits(r) && GoodCall(v, Some(Chars(r.body)))
    ensures FateOf(v, Chars(F.GeneratePacket(r).value)) == Invoked
  {
    RecordComesBack(r, "");
    assert Chars(F.GeneratePacket(r).value) + "" == Chars(F.GeneratePacket(r).value);
    FateExactly(v, Chars(F.GeneratePacket(r).value));
  }

  /** A packet cut short leaves the runner waiting for the rest. */
  lemma CutPacketWaits(v: Service, tid: nat, buff: string, n: nat)
    requires v.transport.Http? && H.Fits(v.transport.limits, tid, buff) && n < |W.ClientPacket(tid, buff)|
    ensures FateOf(v, W.ClientPacket(tid, buff)[..n]) == Waits
  {
    H.CutShortWaits(v.transport.limits, tid, buff, n);
  }

  lemma CutRecordWaits(v: Service, r: F.Record, n: nat)
    requires v.transport.Record? && F.Fits(r) && n < |F.GeneratePacket(r).value|
    ensures FateOf(v, Chars(F.GeneratePacket(r).value)[..n]) == Waits
  {
    var packet := F.GeneratePacket(r).value;
    var cut := Chars(packet)[..n];
    if n >= 8 {
      assert cut[..4] == Chars(F.Pack32(|r.body|));
      RawChars(F.Pack32(|r.body|));
      F.UnpackPacked(|r.body|);
    }
  }

  /** A call that cannot be made ends the runner when it comes in a client's packet. */
  lemma BadCallInPacket(v: Service, tid: nat, buff: string)
    requires v.transport.Http? && H.Fits(v.transport.limits, tid, buff)
    requires BadCall(v, if buff == "" then None else Some(buff))
    ensures FateOf(v, W.ClientPacket(tid, buff)) == Dies
  {
    H.RequestRoundTrip(v.transport.limits, tid, buff, "");
    assert W.ClientPacket(tid, buff) + "" == W.ClientPacket(tid, buff);
  }
}
