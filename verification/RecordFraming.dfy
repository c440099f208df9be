/**
  transport.py: the record protocol (body length, transaction id, body) over a blocking socket whose
  recv and send move as many bytes as they please, are interrupted, time out or fail.
 */
module RecordFraming {
  import opened Wrappers

  newtype byte = x: int | 0 <= x < 256

  type bytes = seq<byte>

  const TWO_32: nat := 0x1_0000_0000

  // ---- struct.pack and struct.unpack with "!I" --------------------------------------

  function Pack32(n: nat): (b: bytes)
    requires n < TWO_32
    ensures |b| == 4
  {
    [(n / 0x100_0000) as byte, (n / 0x1_0000 % 256) as byte, (n / 256 % 256) as byte, (n % 256) as byte]
  }

  function Unpack32(b: bytes): (n: nat)
    requires |b| == 4
    ensures n < TWO_32
  {
    b[0] as nat * 0x100_0000 + b[1] as nat * 0x1_0000 + b[2] as nat * 256 + b[3] as nat
  }

  lemma UnpackPacked(n: nat)
    requires n < TWO_32
    ensures Unpack32(Pack32(n)) == n
  {
    assert n / 256 / 256 == n / 0x1_0000 && n / 0x1_0000 / 256 == n / 0x100_0000;
  }

  // ---- Packets ----------------------------------------------------------------------

  datatype Record = Record(tid: nat, body: bytes)

  /** What the two "!I" fields can hold; struct.pack raises otherwise. */
  predicate Fits(r: Record) {
    r.tid < TWO_32 && |r.body| < TWO_32
  }

  /** generate_packet; None stands for struct.error. */
  function GeneratePacket(r: Record): Option<bytes> {
    if Fits(r) then Some(Pack32(|r.body|) + Pack32(r.tid) + r.body) else None
  }

  /** The bytes of several packets. */
  function Packets(records: seq<Record>): bytes
    requires forall r :: r in records ==> Fits(r)
  {
    if records == [] then [] else GeneratePacket(records[0]).value + Packets(records[1..])
  }

  // ---- recv -------------------------------------------------------------------------

  /** What the next recv or send does: move at most count bytes, or raise. */
  datatype Event = Moves(count: nat) | TimesOut | Interrupted | BadDescriptor | Breaks

  datatype Failure =
    | Timeout // socket.timeout
    | AlreadyClosed // SocketAlreadyClosedError
    | SocketError
    | Blocked // the call has not returned yet

  /** The receiving end of a connection: bytes on their way, and what the coming recv calls do. */
  datatype Inbound = Inbound(incoming: bytes, events: seq<Event>)

  function Min(a: nat, b: nat): nat { if a <= b then a else b }

  /** The number of bytes recv(limit) returns; none mean the peer has closed. */
  function Portion(s: Inbound, count: nat, limit: nat): (n: nat)
    ensures n <= |s.incoming|
  {
    Min(count, Min(limit, |s.incoming|))
  }

  // ---- read_bytes -------------------------------------------------------------------

  datatype Result<T> = Ok(value: T) | Err(failure: Failure)

  /** read_bytes(num) with got already in the buffer. */
  function ReadBytesFrom(s: Inbound, num: nat, ignoreTimeout: bool, got: bytes): (Inbound, Result<bytes>)
    decreases |s.events|
  {
    if |got| >= num then (s, Ok(got))
    else if s.events == [] then (s, Err(Blocked))
    else
      var t := s.(events := s.events[1..]);
      match s.events[0]
      case TimesOut => if ignoreTimeout then ReadBytesFrom(t, num, ignoreTimeout, got) else (t, Err(Timeout))
      case Interrupted => ReadBytesFrom(t, num, ignoreTimeout, got)
      case BadDescriptor => (t, Err(AlreadyClosed))
      case Breaks => (t, Err(SocketError))
      case Moves(count) =>
        var n := Portion(s, count, num - |got|);
        if n == 0 then (t, Err(AlreadyClosed))
        else ReadBytesFrom(t.(incoming := t.incoming[n..]), num, ignoreTimeout, got + s.incoming[..n])
  }

  function ReadBytes(s: Inbound, num: nat, ignoreTimeout: bool): (Inbound, Result<bytes>) {
    ReadBytesFrom(s, num, ignoreTimeout, [])
  }

  /** BlockingRecordTransport.read */
  function ReadRecord(s: Inbound, ignoreTimeout: bool): (Inbound, Result<Record>) {
    var (s1, head) := ReadBytes(s, 4, ignoreTimeout);
    if head.Err? then (s1, Err(head.failure))
    else
      ReadBytesLength(s, 4, ignoreTimeout, []);
      var (s2, tid) := ReadBytes(s1, 4, ignoreTimeout);
      if tid.Err? then (s2, Err(tid.failure))
      else
        ReadBytesLength(s1, 4, ignoreTimeout, []);
        var (s3, body) := ReadBytes(s2, Unpack32(head.value), ignoreTimeout);
        if body.Err? then (s3, Err(body.failure)) else (s3, Ok(Record(Unpack32(tid.value), body.value)))
  }

  lemma {:induction false} ReadBytesLength(s: Inbound, num: nat, ignoreTimeout: bool, got: bytes)
    requires |got| <= num
    ensures ReadBytesFrom(s, num, ignoreTimeout, got).1.Ok? ==>
      |ReadBytesFrom(s, num, ignoreTimeout, got).1.value| == num
    decreases |s.events|
  {
    if |got| < num && s.events != [] {
      var t := s.(events := s.events[1..]);
      match s.events[0]
      case TimesOut => ReadBytesLength(t, num, ignoreTimeout, got);
      case Interrupted => ReadBytesLength(t, num, ignoreTimeout, got);
      case BadDescriptor =>
      case Breaks =>
      case Moves(count) =>
        var n := Portion(s, count, num - |got|);
        ReadBytesLength(t.(incoming := t.incoming[n..]), num, ignoreTimeout, got + s.incoming[..n]);
    }
  }

  // ---- write_data -------------------------------------------------------------------

  datatype Outbound = Outbound(outgoing: bytes, events: seq<Event>)

  function WriteData(s: Outbound, data: bytes): (Outbound, Option<Failure>)
    decreases |s.events|
  {
    if data == [] then (s, None)
    else if s.events == [] then (s, Some(Blocked))
    else
      var t := s.(events := s.events[1..]);
      match s.events[0]
      case Interrupted => WriteData(t, data)
      case Moves(count) =>
        var n := Min(count, |data|);
        WriteData(t.(outgoing := t.outgoing + data[..n]), data[n..])
      case TimesOut => (t, Some(Timeout))
      case BadDescriptor => (t, Some(SocketError))
      case Breaks => (t, Some(SocketError))
  }

  // ---- The loops --------------------------------------------------------------------

  class Socket {
    var incoming: bytes
    var events: seq<Event>
    /** The bytes the peer gets to see, and what the coming send calls do. */
    var outgoing: bytes
    var sends: seq<Event>

    function In(): Inbound
      reads this
    {
      Inbound(incoming, events)
    }

    function Out(): Outbound
      reads this
    {
      Outbound(outgoing, sends)
    }

    /** read_bytes: the buffer is filled from the front, current bytes of it are there. */
    method Receive(num: nat, ignoreTimeout: bool) returns (r: Result<bytes>)
      modifies this`incoming, this`events
      ensures (In(), r) == ReadBytes(old(In()), num, ignoreTimeout)
    {
      var buff := new byte[num];
      var current := 0;
      assert buff[..current] == [];
      while current < num
        invariant 0 <= current <= num
        invariant ReadBytesFrom(In(), num, ignoreTimeout, buff[..current])
          == ReadBytes(old(In()), num, ignoreTimeout)
        decreases |events|
      {
        if events == [] {
          return Err(Blocked);
        }
        var event := events[0];
        events := events[1..];
        match event {
          case TimesOut =>
            if !ignoreTimeout {
              return Err(Timeout);
            }
          case Interrupted =>
          case BadDescriptor =>
            return Err(AlreadyClosed);
          case Breaks =>
            return Err(SocketError);
          case Moves(count) =>
            var n := Portion(In(), count, num - current);
            if n == 0 {
              return Err(AlreadyClosed);
            }
            ghost var before := buff[..current];
            forall i | 0 <= i < n {
              buff[current + i] := incoming[i];
            }
            assert buff[..current + n] == before + incoming[..n];
            incoming := incoming[n..];
            current := current + n;
        }
      }
      assert buff[..num] == buff[..];
      return Ok(buff[..]);
    }

    method ReceiveRecord(ignoreTimeout: bool) returns (r: Result<Record>)
      modifies this`incoming, this`events
      ensures (In(), r) == ReadRecord(old(In()), ignoreTimeout)
    {
      ghost var s := In();
      var head := Receive(4, ignoreTimeout);
      if head.Err? {
        return Err(head.failure);
      }
      ReadBytesLength(s, 4, ignoreTimeout, []);
      s := In();
      var tid := Receive(4, ignoreTimeout);
      if tid.Err? {
        return Err(tid.failure);
      }
      ReadBytesLength(s, 4, ignoreTimeout, []);
      var body := Receive(Unpack32(head.value), ignoreTimeout);
      if body.Err? {
        return Err(body.failure);
      }
      return Ok(Record(Unpack32(tid.value), body.value));
    }

    /** write_data: sent bytes of data are gone. */
    method Send(data: bytes) returns (r: Option<Failure>)
      modifies this`outgoing, this`sends
      ensures (Out(), r) == WriteData(old(Out()), data)
    {
      var sent := 0;
      assert data[0..] == data;
      while sent < |data|
        invariant 0 <= sent <= |data|
        invariant WriteData(Out(), data[sent..]) == WriteData(old(Out()), data)
        decreases |sends|
      {
        if sends == [] {
          return Some(Blocked);
        }
        var event := sends[0];
        sends := sends[1..];
        match event {
          case Interrupted =>
          case Moves(count) =>
            var n := Min(count, |data| - sent);
            outgoing := outgoing + data[sent..][..n];
            assert data[sent..][n..] == data[sent + n..];
            sent := sent + n;
          case TimesOut =>
            return Some(Timeout);
          case BadDescriptor =>
            return Some(SocketError);
          case Breaks =>
            return Some(SocketError);
        }
      }
      return None;
    }
  }

  // ---- What the loops promise -------------------------------------------------------

  /** Whether the event only delays, or moves at least one byte. */
  predicate Harmless(e: Event, ignoreTimeout: bool) {
    match e
    case Moves(count) => count > 0
    case Interrupted => true
    case TimesOut => ignoreTimeout
    case BadDescriptor => false
    case Breaks => false
  }

  predicate AllHarmless(events: seq<Event>, ignoreTimeout: bool) {
    forall i :: 0 <= i < |events| ==> Harmless(events[i], ignoreTimeout)
  }

  /** The calls that move something. */
  function Productive(events: seq<Event>): nat {
    if events == [] then 0 else (if events[0].Moves? then 1 else 0) + Productive(events[1..])
  }

  lemma InTwoPortions(b: bytes, got: bytes, n: nat, k: nat)
    requires n <= k <= |b|
    ensures got + b[..n] + b[n..][..k - n] == got + b[..k]
    ensures b[n..][k - n..] == b[k..]
  {
  }

  /** Among harmless events, with bytes on their way and calls enough, num bytes are read, in order. */
  lemma {:induction false} ReadsInOrder(s: Inbound, num: nat, ignoreTimeout: bool, got: bytes)
    requires |got| <= num <= |got| + |s.incoming|
    requires AllHarmless(s.events, ignoreTimeout) && Productive(s.events) >= num - |got|
    ensures var (t, r) := ReadBytesFrom(s, num, ignoreTimeout, got); var k := num - |got|;
      && r == Ok(got + s.incoming[..k]) && t.incoming == s.incoming[k..]
      && AllHarmless(t.events, ignoreTimeout) && Productive(t.events) >= Productive(s.events) - k
    decreases |s.events|
  {
    if |got| < num {
      var t := s.(events := s.events[1..]);
      match s.events[0]
      case TimesOut => ReadsInOrder(t, num, ignoreTimeout, got);
      case Interrupted => ReadsInOrder(t, num, ignoreTimeout, got);
      case Moves(count) =>
        var n := Portion(s, count, num - |got|);
        var more := got + s.incoming[..n];
        ReadsInOrder(t.(incoming := t.incoming[n..]), num, ignoreTimeout, more);
        InTwoPortions(s.incoming, got, n, num - |got|);
    } else {
      assert got + s.incoming[..0] == got;
    }
  }

  /** A read that ends well has taken exactly the next num bytes, whatever happened on the way. */
  lemma {:induction false} OkMeansNextBytes(s: Inbound, num: nat, ignoreTimeout: bool, got: bytes)
    requires |got| <= num
    ensures var (t, r) := ReadBytesFrom(s, num, ignoreTimeout, got); var k := num - |got|;
      r.Ok? ==> k <= |s.incoming| && r.value == got + s.incoming[..k] && t.incoming == s.incoming[k..]
    decreases |s.events|
  {
    if |got| < num && s.events != [] {
      var t := s.(events := s.events[1..]);
      match s.events[0]
      case TimesOut => OkMeansNextBytes(t, num, ignoreTimeout, got);
      case Interrupted => OkMeansNextBytes(t, num, ignoreTimeout, got);
      case BadDescriptor =>
      case Breaks =>
      case Moves(count) =>
        var n := Portion(s, count, num - |got|);
        var more := got + s.incoming[..n];
        OkMeansNextBytes(t.(incoming := t.incoming[n..]), num, ignoreTimeout, more);
        if num - |got| <= |s.incoming| {
          InTwoPortions(s.incoming, got, n, num - |got|);
        }
    } else {
      assert got + s.incoming[..0] == got;
    }
  }

  /** Whatever happens, the peer sees the old bytes followed by a prefix of data; all of it on success. */
  lemma {:induction false} EachByteOnceInOrder(s: Outbound, data: bytes)
    ensures var (t, r) := WriteData(s, data);
      exists n :: 0 <= n <= |data| && t.outgoing == s.outgoing + data[..n] && (r.None? <==> n == |data|)
    decreases |s.events|
  {
    if data == [] || s.events == [] {
      assert s.outgoing + data[..0] == s.outgoing;
    } else {
      var t := s.(events := s.events[1..]);
      match s.events[0]
      case Interrupted => EachByteOnceInOrder(t, data);
      case Moves(count) =>
        var n := Min(count, |data|);
        var u := t.(outgoing := t.outgoing + data[..n]);
        EachByteOnceInOrder(u, data[n..]);
        var m :| 0 <= m <= |data[n..]| && WriteData(u, data[n..]).0.outgoing == u.outgoing + data[n..][..m]
          && (WriteData(u, data[n..]).1.None? <==> m == |data[n..]|);
        assert data[..n] + data[n..][..m] == data[..n + m];
        assert u.outgoing + data[n..][..m] == s.outgoing + data[..n + m];
      case TimesOut => assert s.outgoing + data[..0] == s.outgoing;
      case BadDescriptor => assert s.outgoing + data[..0] == s.outgoing;
      case Breaks => assert s.outgoing + data[..0] == s.outgoing;
    }
  }

  /** Among harmless calls enough, everything is written, once and in order. */
  lemma {:induction false} WritesAll(s: Outbound, data: bytes)
    requires AllHarmless(s.events, false) && Productive(s.events) >= |data|
    ensures var (t, r) := WriteData(s, data);
      r.None? && t.outgoing == s.outgoing + data
      && AllHarmless(t.events, false) && Productive(t.events) >= Productive(s.events) - |data|
    decreases |s.events|
  {
    if data == [] {
      assert s.outgoing + data == s.outgoing;
    } else {
      var t := s.(events := s.events[1..]);
      match s.events[0]
      case Interrupted => WritesAll(t, data);
      case Moves(count) =>
        var n := Min(count, |data|);
        WritesAll(t.(outgoing := t.outgoing + data[..n]), data[n..]);
        assert s.outgoing + data[..n] + data[n..] == s.outgoing + data;
    }
  }

  // ---- Why a call fails -------------------------------------------------------------

  /** What recv does to make read_bytes raise; a recv of nothing means that the peer has closed. */
  predicate FailsRead(e: Event, failure: Failure, ignoreTimeout: bool) {
    match e
    case TimesOut => failure == Timeout && !ignoreTimeout
    case Interrupted => false
    case BadDescriptor => failure == AlreadyClosed
    case Breaks => failure == SocketError
    case Moves(_) => failure == AlreadyClosed
  }

  predicate FailsWrite(e: Event, failure: Failure) {
    match e
    case TimesOut => failure == Timeout
    case BadDescriptor => failure == SocketError
    case Breaks => failure == SocketError
    case _ => false
  }

  /** The call at position k failed; without one, every call has been made and none did. */
  predicate CausedAt(before: seq<Event>, after: seq<Event>, k: nat) {
    k < |before| && after == before[k + 1..]
  }

  /** A read that fails does so for its last recv, under the name that recv deserves; or it has run out of calls. */
  lemma {:induction false} ReadFailsFor(s: Inbound, num: nat, ignoreTimeout: bool, got: bytes) returns (k: nat)
    ensures var (t, r) := ReadBytesFrom(s, num, ignoreTimeout, got);
      && (r.Err? && !r.failure.Blocked? ==> CausedAt(s.events, t.events, k) && FailsRead(s.events[k], r.failure, ignoreTimeout))
      && (r == Err(Blocked) ==> t.events == [])
    decreases |s.events|
  {
    k := 0;
    if |got| < num && s.events != [] {
      var t := s.(events := s.events[1..]);
      match s.events[0] {
        case TimesOut =>
          if ignoreTimeout {
            k := ReadFailsFor(t, num, ignoreTimeout, got);
            k := k + 1;
          }
        case Interrupted =>
          k := ReadFailsFor(t, num, ignoreTimeout, got);
          k := k + 1;
        case BadDescriptor =>
        case Breaks =>
        case Moves(count) =>
          var n := Portion(s, count, num - |got|);
          if n > 0 {
            k := ReadFailsFor(t.(incoming := t.incoming[n..]), num, ignoreTimeout, got + s.incoming[..n]);
            k := k + 1;
          }
      }
    }
  }

  /** The same for a write. */
  lemma {:induction false} WriteFailsFor(s: Outbound, data: bytes) returns (k: nat)
    ensures var (t, r) := WriteData(s, data);
      && (r.Some? && !r.value.Blocked? ==> CausedAt(s.events, t.events, k) && FailsWrite(s.events[k], r.value))
      && (r == Some(Blocked) ==> t.events == [])
    decreases |s.events|
  {
    k := 0;
    if data != [] && s.events != [] {
      var t := s.(events := s.events[1..]);
      match s.events[0] {
        case Interrupted =>
          k := WriteFailsFor(t, data);
          k := k + 1;
        case Moves(count) =>
          var n := Min(count, |data|);
          k := WriteFailsFor(t.(outgoing := t.outgoing + data[..n]), data[n..]);
          k := k + 1;
        case _ =>
      }
    }
  }

  // ---- Records come back ------------------------------------------------------------

  /** A field at the front of the stream, read among harmless events. */
  lemma FieldComesBack(s: Inbound, field: bytes, tail: bytes, ignoreTimeout: bool)
    requires s.incoming == field + tail
    requires AllHarmless(s.events, ignoreTimeout) && Productive(s.events) >= |field|
    ensures var (t, r) := ReadBytes(s, |field|, ignoreTimeout);
      && r == Ok(field) && t.incoming == tail
      && AllHarmless(t.events, ignoreTimeout) && Productive(t.events) >= Productive(s.events) - |field|
  {
    ReadsInOrder(s, |field|, ignoreTimeout, []);
    assert [] + s.incoming[..|field|] == field && s.incoming[|field|..] == tail;
  }

  lemma RecordComesBack(s: Inbound, r: Record, rest: bytes, ignoreTimeout: bool)
    requires Fits(r) && s.incoming == GeneratePacket(r).value + rest
    requires AllHarmless(s.events, ignoreTimeout) && Productive(s.events) >= 8 + |r.body|
    ensures var (t, read) := ReadRecord(s, ignoreTimeout);
      && read == Ok(r) && t.incoming == rest
      && AllHarmless(t.events, ignoreTimeout) && Productive(t.events) >= Productive(s.events) - 8 - |r.body|
  {
    var head, tid := Pack32(|r.body|), Pack32(r.tid);
    assert s.incoming == head + (tid + (r.body + rest));
    FieldComesBack(s, head, tid + (r.body + rest), ignoreTimeout);
    var s1 := ReadBytes(s, 4, ignoreTimeout).0;
    FieldComesBack(s1, tid, r.body + rest, ignoreTimeout);
    var s2 := ReadBytes(s1, 4, ignoreTimeout).0;
    UnpackPacked(|r.body|);
    UnpackPacked(r.tid);
    FieldComesBack(s2, r.body, rest, ignoreTimeout);
  }

  /** read() called n times, up to the first failure. */
  function ReadMany(s: Inbound, n: nat, ignoreTimeout: bool): (Inbound, Result<seq<Record>>)
    decreases n
  {
    if n == 0 then (s, Ok([]))
    else
      var (s1, r) := ReadRecord(s, ignoreTimeout);
      if r.Err? then (s1, Err(r.failure))
      else
        var (s2, more) := ReadMany(s1, n - 1, ignoreTimeout);
        (s2, if more.Err? then more else Ok([r.value] + more.value))
  }

  /**
    Main result: repeated reads of packets written one behind the other give exactly their records and
    take exactly their bytes, under any short reads, interruptions and ignored timeouts.
   */
  lemma {:induction false} RecordsComeBack(s: Inbound, records: seq<Record>, rest: bytes, ignoreTimeout: bool)
    requires forall r :: r in records ==> Fits(r)
    requires s.incoming == Packets(records) + rest
    requires AllHarmless(s.events, ignoreTimeout) && Productive(s.events) >= |Packets(records)|
    ensures ReadMany(s, |records|, ignoreTimeout).1 == Ok(records)
    ensures ReadMany(s, |records|, ignoreTimeout).0.incoming == rest
    decreases |records|
  {
    if records == [] {
    } else {
      var r := records[0];
      assert s.incoming == GeneratePacket(r).value + (Packets(records[1..]) + rest);
      RecordComesBack(s, r, Packets(records[1..]) + rest, ignoreTimeout);
      RecordsComeBack(ReadRecord(s, ignoreTimeout).0, records[1..], rest, ignoreTimeout);
      assert records == [r] + records[1..];
    }
  }

  /** A field at the front of the stream, on a socket that does anything. */
  lemma OkMeansField(s: Inbound, field: bytes, tail: bytes, ignoreTimeout: bool)
    requires s.incoming == field + tail
    ensures var (t, r) := ReadBytes(s, |field|, ignoreTimeout); r.Ok? ==> r.value == field && t.incoming == tail
  {
    OkMeansNextBytes(s, |field|, ignoreTimeout, []);
    assert [] + s.incoming[..|field|] == field && s.incoming[|field|..] == tail;
  }

  /** One read, whatever the socket does: if it ends well it has given the first record. */
  lemma OkMeansFirstRecord(s: Inbound, r: Record, rest: bytes, ignoreTimeout: bool)
    requires Fits(r) && s.incoming == GeneratePacket(r).value + rest
    ensures var (t, read) := ReadRecord(s, ignoreTimeout);
      read.Ok? ==> read.value == r && t.incoming == rest
  {
    var head, tid := Pack32(|r.body|), Pack32(r.tid);
    assert s.incoming == head + (tid + (r.body + rest));
    OkMeansField(s, head, tid + (r.body + rest), ignoreTimeout);
    var (s1, h) := ReadBytes(s, 4, ignoreTimeout);
    if h.Ok? {
      OkMeansField(s1, tid, r.body + rest, ignoreTimeout);
      var (s2, i) := ReadBytes(s1, 4, ignoreTimeout);
      if i.Ok? {
        UnpackPacked(|r.body|);
        UnpackPacked(r.tid);
        OkMeansField(s2, r.body, rest, ignoreTimeout);
        assert h.value == head && i.value == tid;
        var (s3, body) := ReadBytes(s2, |r.body|, ignoreTimeout);
        assert body.Ok? ==> ReadRecord(s, ignoreTimeout) == (s3, Ok(Record(r.tid, body.value)));
      }
    }
  }

  /** No garbage: on a socket that fails in any way, the reads before the failure gave the records sent. */
  lemma {:induction false} NothingElseIsRead(s: Inbound, records: seq<Record>, rest: bytes, n: nat, ignoreTimeout: bool)
    requires forall r :: r in records ==> Fits(r)
    requires s.incoming == Packets(records) + rest && n <= |records|
    ensures ReadMany(s, n, ignoreTimeout).1.Ok? ==> ReadMany(s, n, ignoreTimeout).1.value == records[..n]
    decreases n
  {
    if n > 0 {
      var r := records[0];
      assert s.incoming == GeneratePacket(r).value + (Packets(records[1..]) + rest);
      OkMeansFirstRecord(s, r, Packets(records[1..]) + rest, ignoreTimeout);
      if ReadRecord(s, ignoreTimeout).1.Ok? {
        NothingElseIsRead(ReadRecord(s, ignoreTimeout).0, records[1..], rest, n - 1, ignoreTimeout);
        assert records[..n] == [r] + records[1..][..n - 1];
      }
    }
  }

  // ---- From write to read -----------------------------------------------------------

  /** write() of several records, up to the first failure. */
  function WriteMany(s: Outbound, records: seq<Record>): (Outbound, Option<Failure>)
    requires forall r :: r in records ==> Fits(r)
    decreases |records|
  {
    if records == [] then (s, None)
    else
      var (t, r) := WriteData(s, GeneratePacket(records[0]).value);
      if r.Some? then (t, r) else WriteMany(t, records[1..])
  }

  lemma {:induction false} WrittenIsPackets(s: Outbound, records: seq<Record>)
    requires forall r :: r in records ==> Fits(r)
    requires WriteMany(s, records).1.None?
    ensures WriteMany(s, records).0.outgoing == s.outgoing + Packets(records)
    decreases |records|
  {
    if records == [] {
      assert s.outgoing + [] == s.outgoing;
    } else {
      var packet := GeneratePacket(records[0]).value;
      EachByteOnceInOrder(s, packet);
      assert packet[..|packet|] == packet;
      WrittenIsPackets(WriteData(s, packet).0, records[1..]);
      assert s.outgoing + packet + Packets(records[1..]) == s.outgoing + (packet + Packets(records[1..]));
    }
  }

  /**
    Main result: records written over a socket with short sends are read over a socket with short
    reads as the same records, in the same order.
   */
  lemma WriteThenRead(w: Outbound, records: seq<Record>, s: Inbound, ignoreTimeout: bool)
    requires forall r :: r in records ==> Fits(r)
    requires w.outgoing == [] && WriteMany(w, records).1.None?
    requires s.incoming == WriteMany(w, records).0.outgoing
    requires AllHarmless(s.events, ignoreTimeout) && Productive(s.events) >= |s.incoming|
    ensures ReadMany(s, |records|, ignoreTimeout).1 == Ok(records)
  {
    WrittenIsPackets(w, records);
    assert s.incoming == Packets(records) + [];
    RecordsComeBack(s, records, [], ignoreTimeout);
  }
}
