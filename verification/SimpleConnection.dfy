/**
  connection.py: SimpleBlockingConnection over the record protocol, where every write must be followed
  by the read of its response before the next one.
 */
module SimpleConnection {
  import opened Wrappers
  import opened RecordFraming
  import opened Sequences

  /** What the future of a write holds; StructError is raised by write itself, and StillWriting has not returned. */
  datatype Written = WrittenAs(tid: nat) | WriteTimeout | WriteAbort | StructError | StillWriting

  /** What the future of a read holds. */
  datatype Answer = Body(body: bytes) | ReadTimeout | ReadAbort | Inconsistent | StillReading

  /** A connection with its socket as a value. */
  datatype Connection = Connection(lastId: nat, closed: bool, inbound: Inbound, outbound: Outbound)

  function Closed(c: Connection): Connection {
    c.(closed := true)
  }

  /** write(): a closed socket raises socket.error. */
  function Write(c: Connection, buff: bytes): (Connection, Written) {
    var tid := c.lastId + 1;
    var d := c.(lastId := tid);
    match GeneratePacket(Record(tid, buff))
    case None => (d, StructError)
    case Some(packet) =>
      if c.closed then (d, WriteAbort)
      else
        var (out, failure) := WriteData(c.outbound, packet);
        match failure
        case None => (d.(outbound := out), WrittenAs(tid))
        case Some(Timeout) => (Closed(d.(outbound := out)), WriteTimeout)
        case Some(Blocked) => (d.(outbound := out), StillWriting)
        case Some(_) => (Closed(d.(outbound := out)), WriteAbort)
  }

  /** read(tid), with timeouts not ignored; a closed socket raises SocketAlreadyClosedError. */
  function Read(c: Connection, tid: nat): (Connection, Answer) {
    if c.closed then (c, ReadAbort)
    else
      var (s, r) := ReadRecord(c.inbound, false);
      match r
      case Err(Timeout) => (Closed(c.(inbound := s)), ReadTimeout)
      case Err(Blocked) => (c.(inbound := s), StillReading)
      case Err(_) => (Closed(c.(inbound := s)), ReadAbort)
      case Ok(record) =>
        if record.tid != tid then (Closed(c.(inbound := s)), Inconsistent)
        else (c.(inbound := s), Body(record.body))
  }

  class SimpleBlockingConnection {
    const socket: Socket
    var lastId: nat
    var closed: bool

    constructor (socket: Socket)
      ensures this.socket == socket && lastId == 0 && !closed
    {
      this.socket, lastId, closed := socket, 0, false;
    }

    function Value(): Connection
      reads this, socket
    {
      Connection(lastId, closed, socket.In(), socket.Out())
    }

    method WriteBuff(buff: bytes) returns (r: Written)
      modifies this`lastId, this`closed, socket`outgoing, socket`sends
      ensures (Value(), r) == Write(old(Value()), buff)
    {
      lastId := lastId + 1;
      var packet := GeneratePacket(Record(lastId, buff));
      if packet.None? {
        return StructError;
      }
      if closed {
        return WriteAbort;
      }
      var failure := socket.Send(packet.value);
      if failure.None? {
        return WrittenAs(lastId);
      }
      if failure.value.Blocked? {
        return StillWriting;
      }
      Close();
      return if failure.value.Timeout? then WriteTimeout else WriteAbort;
    }

    method ReadAnswer(tid: nat) returns (r: Answer)
      modifies this`closed, socket`incoming, socket`events
      ensures (Value(), r) == Read(old(Value()), tid)
    {
      if closed {
        return ReadAbort;
      }
      var record := socket.ReceiveRecord(false);
      if record.Err? {
        if record.failure.Blocked? {
          return StillReading;
        }
        Close();
        return if record.failure.Timeout? then ReadTimeout else ReadAbort;
      }
      if record.value.tid != tid {
        Close();
        return Inconsistent;
      }
      return Body(record.value.body);
    }

    method Close()
      modifies this`closed
      ensures closed
    {
      closed := true;
    }
  }

  // ---- Pairs of write and read -------------------------------------------------------

  predicate Small(bodies: seq<bytes>) {
    forall i :: 0 <= i < |bodies| ==> |bodies[i]| < TWO_32
  }

  /** Packets under the ids from first on: the requests of a connection, or a peer's answers to them. */
  function Numbered(first: nat, bodies: seq<bytes>): bytes
    requires Small(bodies) && first + |bodies| <= TWO_32
    decreases |bodies|
  {
    if bodies == [] then []
    else GeneratePacket(Record(first, bodies[0])).value + Numbered(first + 1, bodies[1..])
  }

  /** Each request is written and its response is read before the next one. */
  function Exchange(c: Connection, requests: seq<bytes>): (Connection, seq<Answer>)
    decreases |requests|
  {
    if requests == [] then (c, [])
    else
      var (c1, w) := Write(c, requests[0]);
      if !w.WrittenAs? then (c1, [])
      else
        var (c2, a) := Read(c1, w.tid);
        var (c3, more) := Exchange(c2, requests[1..]);
        (c3, [a] + more)
  }

  /** The bytes some requests take on the wire. */
  function Load(requests: seq<bytes>): nat {
    if requests == [] then 0 else 8 + |requests[0]| + Load(requests[1..])
  }

  lemma WriteSucceeds(c: Connection, buff: bytes)
    requires !c.closed && c.lastId + 1 < TWO_32 && |buff| < TWO_32
    requires AllHarmless(c.outbound.events, false) && Productive(c.outbound.events) >= 8 + |buff|
    ensures var (d, w) := Write(c, buff);
      && w == WrittenAs(c.lastId + 1)
      && d.lastId == c.lastId + 1 && !d.closed && d.inbound == c.inbound
      && d.outbound.outgoing == c.outbound.outgoing + GeneratePacket(Record(c.lastId + 1, buff)).value
      && AllHarmless(d.outbound.events, false)
      && Productive(d.outbound.events) >= Productive(c.outbound.events) - 8 - |buff|
  {
    WritesAll(c.outbound, GeneratePacket(Record(c.lastId + 1, buff)).value);
  }

  lemma ReadSucceeds(c: Connection, r: Record, rest: bytes)
    requires !c.closed && Fits(r) && c.inbound.incoming == GeneratePacket(r).value + rest
    requires AllHarmless(c.inbound.events, false) && Productive(c.inbound.events) >= 8 + |r.body|
    ensures var (d, a) := Read(c, r.tid);
      && a == Body(r.body) && d == c.(inbound := d.inbound) && d.inbound.incoming == rest
      && AllHarmless(d.inbound.events, false)
      && Productive(d.inbound.events) >= Productive(c.inbound.events) - 8 - |r.body|
  {
    RecordComesBack(c.inbound, r, rest, false);
  }

  /** A connection whose sockets have calls enough left, none of them harmful. */
  predicate Ready(c: Connection, toSend: nat, toReceive: nat) {
    && !c.closed
    && AllHarmless(c.outbound.events, false) && Productive(c.outbound.events) >= toSend
    && AllHarmless(c.inbound.events, false) && Productive(c.inbound.events) >= toReceive
  }

  /** The first exchange of several. */
  lemma OnePair(c: Connection, requests: seq<bytes>, body: bytes, rest: bytes, toSend: nat, toReceive: nat)
    returns (next: Connection)
    requires requests != [] && |requests[0]| < TWO_32 && |body| < TWO_32 && c.lastId + 1 < TWO_32
    requires Ready(c, 8 + |requests[0]| + toSend, 8 + |body| + toReceive)
    requires c.inbound.incoming == GeneratePacket(Record(c.lastId + 1, body)).value + rest
    ensures Exchange(c, requests) == (Exchange(next, requests[1..]).0, [Body(body)] + Exchange(next, requests[1..]).1)
    ensures Ready(next, toSend, toReceive) && next.lastId == c.lastId + 1 && next.inbound.incoming == rest
    ensures next.outbound.outgoing == c.outbound.outgoing + GeneratePacket(Record(c.lastId + 1, requests[0])).value
  {
    WriteSucceeds(c, requests[0]);
    ReadSucceeds(Write(c, requests[0]).0, Record(c.lastId + 1, body), rest);
    next := Read(Write(c, requests[0]).0, c.lastId + 1).0;
  }

  /**
    Main result: on a socket that moves bytes in any pieces and only delays, and with a peer that
    answers every request under its id, each read gets the body meant for it, all requests are written
    in order, and the connection stays open.
   */
  lemma {:induction false} PairsStayInStep(c: Connection, requests: seq<bytes>, bodies: seq<bytes>, rest: bytes)
    requires |requests| == |bodies| && c.lastId + |requests| < TWO_32
    requires Small(requests) && Small(bodies) && Ready(c, Load(requests), Load(bodies))
    requires c.inbound.incoming == Numbered(c.lastId + 1, bodies) + rest
    ensures var (d, answers) := Exchange(c, requests);
      && |answers| == |bodies| && (forall i :: 0 <= i < |bodies| ==> answers[i] == Body(bodies[i]))
      && !d.closed && d.inbound.incoming == rest
      && d.outbound.outgoing == c.outbound.outgoing + Numbered(c.lastId + 1, requests)
    decreases |requests|
  {
    if requests == [] {
      assert c.outbound.outgoing + [] == c.outbound.outgoing;
    } else {
      var tid := c.lastId + 1;
      var mine, answer := GeneratePacket(Record(tid, requests[0])).value, GeneratePacket(Record(tid, bodies[0])).value;
      var later, answers := Numbered(tid + 1, requests[1..]), Numbered(tid + 1, bodies[1..]);
      Regroup(answer, answers, rest);
      var next := OnePair(c, requests, bodies[0], answers + rest, Load(requests[1..]), Load(bodies[1..]));
      PairsStayInStep(next, requests[1..], bodies[1..], rest);
      Regroup(c.outbound.outgoing, mine, later);
    }
  }

  /** A response under another id is never handed out: the read fails and the connection is closed. */
  lemma WrongIdCloses(c: Connection, r: Record, rest: bytes, tid: nat)
    requires !c.closed && Fits(r) && c.inbound.incoming == GeneratePacket(r).value + rest
    ensures var (d, a) := Read(c, tid);
      && (a.Body? ==> r.tid == tid && a.body == r.body && !d.closed)
      && (r.tid != tid ==> !a.Body?)
      && (d.closed <==> !a.Body? && !a.StillReading?)
  {
    OkMeansFirstRecord(c.inbound, r, rest, false);
  }

  /** write() takes an id; its future holds that id exactly when the peer has been shown the whole packet. */
  lemma WriteExactly(c: Connection, buff: bytes)
    ensures var (d, w) := Write(c, buff);
      var r := Record(c.lastId + 1, buff);
      && d.lastId == c.lastId + 1 && d.inbound == c.inbound
      && (w == StructError <==> !Fits(r))
      && (w.WrittenAs? ==> w.tid == r.tid)
      && (Fits(r) && !c.closed ==>
            && (w.WrittenAs? <==> d.outbound.outgoing == c.outbound.outgoing + GeneratePacket(r).value)
            && (w == WriteTimeout <==> WriteData(c.outbound, GeneratePacket(r).value).1 == Some(Timeout))
            && (w == StillWriting <==> WriteData(c.outbound, GeneratePacket(r).value).1 == Some(Blocked)))
      && (d.closed <==> c.closed || w == WriteTimeout || w == WriteAbort)
  {
    var r := Record(c.lastId + 1, buff);
    if Fits(r) && !c.closed {
      EachByteOnceInOrder(c.outbound, GeneratePacket(r).value);
    }
  }

  /** read() gives what the record read says, and closes the connection whenever it raises. */
  lemma ReadExactly(c: Connection, tid: nat)
    requires !c.closed
    ensures var (d, a) := Read(c, tid);
      var r := ReadRecord(c.inbound, false).1;
      && d.lastId == c.lastId && d.outbound == c.outbound
      && (a.Body? <==> r.Ok? && r.value.tid == tid) && (a.Body? ==> a.body == r.value.body)
      && (a == Inconsistent <==> r.Ok? && r.value.tid != tid)
      && (a == ReadTimeout <==> r == Err(Timeout))
      && (a == StillReading <==> r == Err(Blocked))
      && (d.closed <==> a == ReadTimeout || a == ReadAbort || a == Inconsistent)
  {
  }

  /** Once closed, a connection stays closed, sends nothing more and answers nothing more. */
  lemma ClosedForGood(c: Connection, buff: bytes, tid: nat)
    requires c.closed
    ensures var (d, w) := Write(c, buff);
      d.closed && !w.WrittenAs? && d.outbound == c.outbound && d.inbound == c.inbound
    ensures Read(c, tid) == (c, ReadAbort)
  {
  }
}
