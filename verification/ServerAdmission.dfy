/**
  rpc_server.py: RpcServer and Runner on the event loop, as a step system. A step is one callback of
  the loop, run to the next point where it yields: a connection is accepted or its close callback
  runs, the bytes of a request are there for a runner or it is woken up, or a response is begun or
  finished.
 */
module ServerAdmission {
  import opened Wrappers
  import opened ServerRequests
  import H = HttpRequests
  import W = HttpWire
  import L = LruSpec

  /**
    max_connections and concurrent_request_per_connection, whose setters refuse anything below 1, and how
    requests are read and called.
   */
  datatype Config = Config(maxConnections: nat, limit: nat, service: Service)

  ghost predicate ValidConfig(p: Config) {
    p.maxConnections >= 1 && p.limit >= 1
  }

  /** Where _run() rests between callbacks. */
  datatype RunnerPc = Reading | Parked(notified: bool) | Exited

  /** A connection with its runner. */
  datatype Connection = Connection(
    open: bool,          // not stream.closed()
    flagged: bool,       // stream_closed
    callback: bool,      // the close callback has been scheduled and has not run
    concurrency: nat,    // _current_concurrency
    pending: nat,        // requests whose future is not done
    writing: nat,        // responses being written
    runner: RunnerPc,
    arrived: seq<string>) // history: the bytes of the requests the runner has taken

  type Id = nat

  /** Connections are numbered in the order of their acceptance. */
  datatype State = State(current: nat, lru: L.Recency<Id, ()>, connections: seq<Connection>)

  datatype Event =
    | Accept
    | StreamCloses(id: Id)                     // the peer or an error closes the stream
    | CloseCallback(id: Id)                    // _on_connection_close
    | Arrives(id: Id, bytes: string)           // what is on the stream completes a read, or makes it fail
    | ReadFails(id: Id)                        // StreamClosedError out of the read
    | Resume(id: Id)                           // read_condition.wait() returns
    | FutureDone(id: Id, serializable: bool)   // _send_response begins
    | WriteDone(id: Id)                        // its write ends, well or not
    | Reap(n: nat)                             // _close_inactive_connections closes the n oldest

  function Init(): State {
    State(0, [], [])
  }

  /** The top of _run()'s loop, up to the next yield. */
  function Top(p: Config, c: Connection): Connection {
    c.(runner := if c.flagged || !c.open then Exited else if c.concurrency >= p.limit then Parked(false) else Reading)
  }

  /** read_condition.notify_all() */
  function Notified(c: Connection): Connection {
    if c.runner.Parked? then c.(runner := Parked(true)) else c
  }

  /** stream.close(): the callback is scheduled once. */
  function Closed(c: Connection): Connection {
    if c.open then c.(open := false, callback := true) else c
  }

  /** max(n - 1, 0) */
  function Less(n: nat): nat {
    if n == 0 then 0 else n - 1
  }

  function Fresh(): Connection {
    Connection(true, false, false, 0, 0, 0, Reading, [])
  }

  // ---- One callback for one connection -----------------------------------------------

  /** The runner goes on with a request as its fate says. */
  function Taken(p: Config, c: Connection, fate: Fate): Option<Connection> {
    match fate
    case Waits => None
    case Invoked => Some(Top(p, c.(concurrency := c.concurrency + 1, pending := c.pending + 1)))
    case Closes => Some(Closed(c).(runner := Exited))
    case Dies => Some(c.(runner := Exited))
  }

  function RunnerStep(p: Config, c: Connection, e: Event): Option<Connection> {
    match e
    case Arrives(_, bytes) =>
      if !c.runner.Reading? then None else Taken(p, c.(arrived := c.arrived + [bytes]), FateOf(p.service, bytes))
    case ReadFails(_) =>
      if !c.runner.Reading? || c.open then None else Some(c.(runner := Exited))
    case Resume(_) =>
      if c.runner != Parked(true) then None else Some(Top(p, c))
    case _ => None
  }

  function ResponseStep(c: Connection, e: Event): Option<Connection> {
    match e
    case FutureDone(_, serializable) =>
      if c.pending == 0 then None
      else if c.flagged then Some(c.(pending := c.pending - 1))
      else if serializable then Some(c.(pending := c.pending - 1, writing := c.writing + 1))
      else Some(Notified(c.(pending := c.pending - 1, concurrency := Less(c.concurrency))))
    case WriteDone(_) =>
      if c.writing == 0 then None
      else Some(Notified(c.(writing := c.writing - 1, concurrency := Less(c.concurrency))))
    case _ => None
  }

  function ConnectionStep(p: Config, c: Connection, e: Event): Option<Connection> {
    match e
    case StreamCloses(_) => if c.open then Some(Closed(c)) else None
    case FutureDone(_, _) => ResponseStep(c, e)
    case WriteDone(_) => ResponseStep(c, e)
    case _ => RunnerStep(p, c, e)
  }

  /** _on_connection_close as far as the connection itself goes. */
  function Disconnected(c: Connection): Connection {
    Notified(c.(callback := false, flagged := true))
  }

  // ---- One callback for the server ---------------------------------------------------

  /** Whether position id is among the n last of the table. */
  ghost predicate AmongLast(lru: L.Recency<Id, ()>, n: nat, id: Id) {
    exists i :: 0 <= i < |lru| && |lru| - n <= i && lru[i].key == id
  }

  ghost function Reaped(s: State, n: nat): seq<Connection> {
    seq(|s.connections|, id requires 0 <= id < |s.connections| =>
      if AmongLast(s.lru, n, id) then Notified(Closed(s.connections[id])) else s.connections[id])
  }

  /** None when the event cannot happen; KeyError when the table does not have the connection. */
  datatype Result = Impossible | KeyError | Next(state: State)

  ghost function Step(p: Config, s: State, e: Event): Result
    requires ValidConfig(p)
  {
    match e
    case Accept =>
      if s.current >= p.maxConnections then Impossible
      else Next(State(s.current + 1, L.Set(s.lru, p.maxConnections, |s.connections|, ()), s.connections + [Top(p, Fresh())]))
    case CloseCallback(id) =>
      if id >= |s.connections| || !s.connections[id].callback then Impossible
      else if !L.Has(s.lru, id) then KeyError
      else Next(State(Less(s.current), L.Del(L.Get(s.lru, id), id), s.connections[id := Disconnected(s.connections[id])]))
    case Reap(n) => Next(s.(connections := Reaped(s, n)))
    case _ =>
      if e.id >= |s.connections| then Impossible
      else match ConnectionStep(p, s.connections[e.id], e)
        case None => Impossible
        case Some(c) => Next(s.(connections := s.connections[e.id := c]))
  }

  ghost function Run(p: Config, s: State, events: seq<Event>): Result
    requires ValidConfig(p)
    decreases |events|
  {
    if events == [] then Next(s)
    else match Step(p, s, events[0])
      case Next(t) => Run(p, t, events[1..])
      case r => r
  }

  // ---- What every callback keeps -----------------------------------------------------

  /** A request that ends the runner has been taken. */
  predicate Fatal(p: Config, c: Connection) {
    exists i :: 0 <= i < |c.arrived| && FateOf(p.service, c.arrived[i]) == Dies
  }

  lemma FatalAfter(p: Config, c: Connection, bytes: string)
    ensures Fatal(p, c.(arrived := c.arrived + [bytes])) <==> Fatal(p, c) || FateOf(p.service, bytes) == Dies
  {
    var d := c.(arrived := c.arrived + [bytes]);
    assert d.arrived[|c.arrived|] == bytes;
    assert forall i :: 0 <= i < |c.arrived| ==> d.arrived[i] == c.arrived[i];
  }

  /** The invariant of one connection. */
  predicate Sound(p: Config, c: Connection) {
    && c.concurrency <= p.limit
    && c.pending + c.writing <= c.concurrency
    && (!c.flagged ==> c.concurrency == c.pending + c.writing)
    && (c.runner.Reading? ==> c.concurrency < p.limit)
    && (c.runner == Parked(false) ==> !c.flagged && c.concurrency == p.limit)
    && (c.callback <==> !c.open && !c.flagged)
    && (c.flagged ==> !c.open)
    && (Fatal(p, c) ==> c.runner.Exited?)
    && (c.runner.Exited? && c.open ==> Fatal(p, c))
  }

  /** The table is in the order of acceptance, the newest connection in front. */
  ghost predicate NewestFirst(lru: L.Recency<Id, ()>) {
    forall i, j :: 0 <= i < j < |lru| ==> lru[i].key > lru[j].key
  }

  ghost predicate Agrees(p: Config, s: State) {
    && s.current == |s.lru| && s.current <= p.maxConnections
    && L.Distinct(s.lru) && NewestFirst(s.lru)
    && forall id: Id :: L.Has(s.lru, id) <==> id < |s.connections| && !s.connections[id].flagged
  }

  ghost predicate Inv(p: Config, s: State) {
    Agrees(p, s) && forall id :: 0 <= id < |s.connections| ==> Sound(p, s.connections[id])
  }

  lemma ConnectionStepKeeps(p: Config, c: Connection, e: Event)
    requires ValidConfig(p) && Sound(p, c) && ConnectionStep(p, c, e).Some?
    ensures Sound(p, ConnectionStep(p, c, e).value)
    ensures ConnectionStep(p, c, e).value.flagged == c.flagged
  {
    if e.Arrives? {
      FatalAfter(p, c, e.bytes);
    }
  }

  lemma DisconnectKeeps(p: Config, c: Connection)
    requires Sound(p, c) && c.callback
    ensures Sound(p, Disconnected(c)) && Disconnected(c).flagged
  {
  }

  lemma ReapKeeps(p: Config, c: Connection)
    requires Sound(p, c)
    ensures Sound(p, Notified(Closed(c))) && Notified(Closed(c)).flagged == c.flagged
  {
  }

  /** Looking an entry up first makes no difference to deleting it. */
  lemma GetThenDel(lru: L.Recency<Id, ()>, id: Id)
    requires L.Distinct(lru) && L.Has(lru, id)
    ensures L.Del(L.Get(lru, id), id) == L.DropAt(lru, L.Find(lru, id))
  {
    var moved := L.Get(lru, id);
    var op: L.Op<Id, ()> := L.GetOp(id);
    L.ApplyKeeps(lru, |lru| + 1, op);
    L.FindIs(moved, id, 0);
    assert L.DropAt(moved, 0) == L.DropAt(lru, L.Find(lru, id));
  }

  lemma DropKeepsOthers(lru: L.Recency<Id, ()>, f: nat, k: Id)
    requires f < |lru| && L.Has(lru, k) && k != lru[f].key
    ensures L.Has(L.DropAt(lru, f), k)
  {
    var i := L.Find(lru, k);
    var j := if i < f then i else i - 1;
    assert L.DropAt(lru, f)[j].key == k;
    L.HasMeans(L.DropAt(lru, f), k);
  }

  lemma DropKeepsOrder(lru: L.Recency<Id, ()>, f: nat)
    requires f < |lru| && NewestFirst(lru)
    ensures NewestFirst(L.DropAt(lru, f))
  {
    var after := L.DropAt(lru, f);
    forall i, j | 0 <= i < j < |after| ensures after[i].key > after[j].key {
      assert lru[if i < f then i else i + 1].key > lru[if j < f then j else j + 1].key;
    }
  }

  lemma DropAddsNone(lru: L.Recency<Id, ()>, f: nat, k: Id)
    requires L.Distinct(lru) && f < |lru| && L.Has(L.DropAt(lru, f), k)
    ensures L.Has(lru, k) && k != lru[f].key
  {
    var j := L.Find(L.DropAt(lru, f), k);
    var i := if j < f then j else j + 1;
    assert lru[i].key == k && i != f;
    L.HasMeans(lru, k);
  }

  lemma DelKeys(lru: L.Recency<Id, ()>, id: Id, k: Id)
    requires L.Distinct(lru) && L.Has(lru, id)
    ensures var after := L.Del(L.Get(lru, id), id);
      L.Distinct(after) && |after| == |lru| - 1 && (L.Has(after, k) <==> L.Has(lru, k) && k != id)
  {
    GetThenDel(lru, id);
    var op: L.Op<Id, ()> := L.DelOp(id);
    L.ApplyKeeps(lru, |lru| + 1, op);
    var f := L.Find(lru, id);
    if L.Has(lru, k) && k != id {
      DropKeepsOthers(lru, f, k);
    }
    if L.Has(L.DropAt(lru, f), k) {
      DropAddsNone(lru, f, k);
    }
  }

  lemma SetKeys(lru: L.Recency<Id, ()>, max: nat, id: Id, k: Id)
    requires L.Distinct(lru) && |lru| < max && !L.Has(lru, id)
    ensures var after := L.Set(lru, max, id, ());
      L.Distinct(after) && |after| == |lru| + 1 && (L.Has(after, k) <==> L.Has(lru, k) || k == id)
  {
    var after := L.Set(lru, max, id, ());
    L.ApplyKeeps(lru, max, L.SetOp(id, ()));
    assert after[0].key == id;
    if L.Has(lru, k) {
      assert after[L.Find(lru, k) + 1].key == k;
    }
    if L.Has(after, k) && k != id {
      assert lru[L.Find(after, k) - 1].key == k;
    }
  }

  lemma AcceptKeeps(p: Config, s: State)
    requires ValidConfig(p) && Inv(p, s) && Step(p, s, Accept).Next?
    ensures Inv(p, Step(p, s, Accept).state)
    ensures L.Victim(s.lru, p.maxConnections) == None
  {
    var t := Step(p, s, Accept).state;
    forall k: Id ensures L.Has(t.lru, k) <==> k < |t.connections| && !t.connections[k].flagged {
      SetKeys(s.lru, p.maxConnections, |s.connections|, k);
    }
    SetKeys(s.lru, p.maxConnections, |s.connections|, 0);
    forall i | 0 <= i < |s.lru| ensures s.lru[i].key < |s.connections| {
      L.HasMeans(s.lru, s.lru[i].key);
    }
  }

  lemma CloseCallbackKeeps(p: Config, s: State, id: Id)
    requires ValidConfig(p) && Inv(p, s) && !Step(p, s, CloseCallback(id)).Impossible?
    ensures Step(p, s, CloseCallback(id)).Next? && Inv(p, Step(p, s, CloseCallback(id)).state)
    ensures Step(p, s, CloseCallback(id)).state.current == s.current - 1
  {
    DisconnectKeeps(p, s.connections[id]);
    var t := Step(p, s, CloseCallback(id)).state;
    DelKeys(s.lru, id, id);
    GetThenDel(s.lru, id);
    DropKeepsOrder(s.lru, L.Find(s.lru, id));
    forall k: Id ensures L.Has(t.lru, k) <==> k < |t.connections| && !t.connections[k].flagged {
      DelKeys(s.lru, id, k);
    }
  }

  /** Every callback keeps the invariant, and none ever fails to find a connection in the table. */
  lemma StepKeeps(p: Config, s: State, e: Event)
    requires ValidConfig(p) && Inv(p, s)
    ensures !Step(p, s, e).KeyError?
    ensures Step(p, s, e).Next? ==> Inv(p, Step(p, s, e).state)
  {
    if Step(p, s, e).Impossible? {
    } else if e.Accept? {
      AcceptKeeps(p, s);
    } else if e.CloseCallback? {
      CloseCallbackKeeps(p, s, e.id);
    } else if e.Reap? {
      forall id: nat | id < |s.connections|
        ensures Sound(p, Reaped(s, e.n)[id]) && Reaped(s, e.n)[id].flagged == s.connections[id].flagged
      {
        ReapKeeps(p, s.connections[id]);
      }
    } else {
      ConnectionStepKeeps(p, s.connections[e.id], e);
    }
  }

  lemma {:induction false} RunKeeps(p: Config, s: State, events: seq<Event>)
    requires ValidConfig(p) && Inv(p, s)
    ensures !Run(p, s, events).KeyError?
    ensures Run(p, s, events).Next? ==> Inv(p, Run(p, s, events).state)
    decreases |events|
  {
    if events != [] {
      StepKeeps(p, s, events[0]);
      if Step(p, s, events[0]).Next? {
        RunKeeps(p, Step(p, s, events[0]).state, events[1..]);
      }
    }
  }

  // ---- Main results ------------------------------------------------------------------

  ghost predicate Reachable(p: Config, s: State)
    requires ValidConfig(p)
  {
    exists events :: Run(p, Init(), events) == Next(s)
  }

  lemma ReachableInv(p: Config, s: State)
    requires ValidConfig(p) && Reachable(p, s)
    ensures Inv(p, s)
  {
    var events :| Run(p, Init(), events) == Next(s);
    RunKeeps(p, Init(), events);
  }

  /** The connections whose close callback has not run. */
  ghost function Live(s: State): set<Id> {
    set id: Id | id < |s.connections| && !s.connections[id].flagged
  }

  /**
    Main result: the counter is the number of live connections and the size of the table, the table
    holds exactly the live connections, and there are never more than max_connections.
   */
  lemma CountersAgree(p: Config, s: State)
    requires ValidConfig(p) && Reachable(p, s)
    ensures s.current == |s.lru| == |Live(s)| && s.current <= p.maxConnections
    ensures L.KeySet(s.lru) == Live(s)
  {
    ReachableInv(p, s);
    L.KeySetSize(s.lru);
    forall id: Id ensures id in L.KeySet(s.lru) <==> id in Live(s) {
      L.HasMeans(s.lru, id);
    }
    assert L.KeySet(s.lru) == Live(s);
    assert |L.KeySet(s.lru)| == |s.lru|;
  }

  /** A new connection never displaces another from the table. */
  lemma AcceptEvictsNobody(p: Config, s: State)
    requires ValidConfig(p) && Reachable(p, s) && Step(p, s, Accept).Next?
    ensures Live(Step(p, s, Accept).state) == Live(s) + {|s.connections|}
    ensures forall k: Id :: L.Has(Step(p, s, Accept).state.lru, k) <==> L.Has(s.lru, k) || k == |s.connections|
  {
    ReachableInv(p, s);
    AcceptKeeps(p, s);
    var t := Step(p, s, Accept).state;
    forall k: Id ensures L.Has(t.lru, k) <==> L.Has(s.lru, k) || k == |s.connections| {
      SetKeys(s.lru, p.maxConnections, |s.connections|, k);
    }
  }

  /** Main result: the server takes a connection if and only if fewer than max_connections are live. */
  lemma AcceptsExactly(p: Config, s: State)
    requires ValidConfig(p) && Reachable(p, s)
    ensures Step(p, s, Accept).Next? <==> |Live(s)| < p.maxConnections
    ensures Step(p, s, Accept).Next? ==>
      var t := Step(p, s, Accept).state;
      t.connections == s.connections + [Fresh()] && t.current == s.current + 1
  {
    CountersAgree(p, s);
  }

  /** No reachable state makes _on_connection_close raise KeyError or count below zero. */
  lemma CloseAlwaysFindsItsConnection(p: Config, s: State, id: Id)
    requires ValidConfig(p) && Reachable(p, s) && !Step(p, s, CloseCallback(id)).Impossible?
    ensures Step(p, s, CloseCallback(id)).Next?
    ensures Step(p, s, CloseCallback(id)).state.current == s.current - 1
    ensures Live(Step(p, s, CloseCallback(id)).state) == Live(s) - {id}
  {
    ReachableInv(p, s);
    CloseCallbackKeeps(p, s, id);
  }

  /**
    Main result: the concurrency of a connection stays within its limit and, until the connection is
    flagged as closed, is the number of its requests without a finished response; the clamps at zero
    never act.
   */
  lemma ConcurrencyIsExact(p: Config, s: State, id: Id)
    requires ValidConfig(p) && Reachable(p, s) && id < |s.connections|
    ensures var c := s.connections[id];
      && c.concurrency <= p.limit
      && (!c.flagged ==> c.concurrency == c.pending + c.writing)
      && (c.pending + c.writing > 0 ==> c.concurrency > 0)
  {
    ReachableInv(p, s);
  }

  /** The event can happen and leaves the runner there. */
  ghost predicate Leads(p: Config, s: State, e: Event, id: Id, runner: RunnerPc)
    requires ValidConfig(p)
  {
    Step(p, s, e).Next? && id < |Step(p, s, e).state.connections| && Step(p, s, e).state.connections[id].runner == runner
  }

  /**
    Main result: no lost wake-up. A parked runner that has not been notified has as many responses
    outstanding as the limit allows; each of them notifies it when its write ends or when it cannot be
    serialized, and so does the close callback, which is due if the stream is closed.
   */
  lemma ParkedRunnerIsWoken(p: Config, s: State, id: Id)
    requires ValidConfig(p) && Reachable(p, s) && id < |s.connections|
    requires s.connections[id].runner == Parked(false)
    ensures s.connections[id].pending + s.connections[id].writing == p.limit >= 1
    ensures s.connections[id].writing > 0 ==> Leads(p, s, WriteDone(id), id, Parked(true))
    ensures s.connections[id].pending > 0 ==> Step(p, s, FutureDone(id, true)).Next?
    ensures s.connections[id].pending > 0 ==> Leads(p, s, FutureDone(id, false), id, Parked(true))
    ensures !s.connections[id].open ==> Leads(p, s, CloseCallback(id), id, Parked(true))
  {
    ReachableInv(p, s);
    if s.connections[id].callback {
      CloseCallbackKeeps(p, s, id);
    }
  }

  /**
    Main result: on an open stream a runner has ended if and only if it has taken a request of the kind
    DiesExactly describes; the connection then stays open and counted with nobody reading from it.
   */
  lemma RunnerEndsWithItsStream(p: Config, s: State, id: Id)
    requires ValidConfig(p) && Reachable(p, s) && id < |s.connections| && s.connections[id].open
    ensures s.connections[id].runner.Exited? <==> Fatal(p, s.connections[id])
    ensures id in Live(s)
  {
    ReachableInv(p, s);
  }

  /** One connection, open and counted, with nobody reading from it. */
  ghost predicate OpenAndUnread(r: Result) {
    && r.Next? && |r.state.connections| == 1 && r.state.current == 1 && Live(r.state) == {0}
    && r.state.connections[0].open && r.state.connections[0].runner == Exited
  }

  lemma FirstAccept(p: Config)
    requires ValidConfig(p)
    ensures Step(p, Init(), Accept) == Next(State(1, [L.Slot(0, ())], [Fresh()]))
  {
    assert L.Set([], p.maxConnections, 0, ()) == [L.Slot(0, ())];
    assert [] + [Fresh()] == [Fresh()];
  }

  lemma FreshDies(p: Config, bytes: string)
    requires FateOf(p.service, bytes) == Dies
    ensures ConnectionStep(p, Fresh(), Arrives(0, bytes)) == Some(Fresh().(arrived := [bytes], runner := Exited))
  {
    assert Fresh().arrived + [bytes] == [bytes];
  }

  lemma FirstRequest(p: Config, s: State, bytes: string)
    requires ValidConfig(p) && FateOf(p.service, bytes) == Dies
    requires s == State(1, [L.Slot(0, ())], [Fresh()])
    ensures OpenAndUnread(Step(p, s, Arrives(0, bytes)))
  {
    FreshDies(p, bytes);
    var c := Fresh().(arrived := [bytes], runner := Exited);
    assert [Fresh()][0 := c] == [c];
  }

  lemma TwoEvents(p: Config, s: State, d: Event, e: Event)
    requires ValidConfig(p) && Step(p, s, d).Next?
    ensures Run(p, s, [d, e]) == Step(p, Step(p, s, d).state, e)
  {
    var t := Step(p, s, d).state;
    assert [d, e][1..] == [e] && [e][1..] == [];
    assert Run(p, s, [d, e]) == Run(p, t, [e]);
    assert Step(p, t, e).Next? ==> Run(p, Step(p, t, e).state, []) == Step(p, t, e);
  }

  /** One such request, sent over a new connection, is enough. */
  lemma OneRequestIsEnough(p: Config, bytes: string)
    requires ValidConfig(p) && FateOf(p.service, bytes) == Dies
    ensures OpenAndUnread(Run(p, Init(), [Accept, Arrives(0, bytes)]))
  {
    FirstAccept(p);
    TwoEvents(p, Init(), Accept, Arrives(0, bytes));
    FirstRequest(p, Step(p, Init(), Accept).state, bytes);
  }

  /** For one, a request whose id is made of letters. */
  lemma RunnerCanDieOnAnOpenStream(p: Config)
    requires ValidConfig(p) && p.service.transport.Http?
    requires var l := p.service.transport.limits; l.requestLine >= 16 && l.header >= 20 && l.headers >= 2
    ensures OpenAndUnread(Run(p, Init(), [Accept, Arrives(0, H.LETTERED)]))
  {
    H.LetteredRaises(p.service.transport.limits);
    OneRequestIsEnough(p, H.LETTERED);
  }

  /** For another, any well-formed packet whose body loads to a call that cannot be made. */
  lemma BadCallEndsTheRunner(p: Config, tid: nat, buff: string)
    requires ValidConfig(p) && p.service.transport.Http? && H.Fits(p.service.transport.limits, tid, buff)
    requires BadCall(p.service, if buff == "" then None else Some(buff))
    ensures OpenAndUnread(Run(p, Init(), [Accept, Arrives(0, W.ClientPacket(tid, buff))]))
  {
    BadCallInPacket(p.service, tid, buff);
    OneRequestIsEnough(p, W.ClientPacket(tid, buff));
  }

  // ---- Requests that are answered ----------------------------------------------------

  /** The connection with one more request pending. */
  function OneMore(p: Config, c: Connection, bytes: string): Connection {
    c.(arrived := c.arrived + [bytes], pending := c.pending + 1, concurrency := c.concurrency + 1,
       runner := if c.pending + c.writing + 1 < p.limit then Reading else Parked(false))
  }

  /** Main result: a request whose call can be made is one more pending, and its connection goes on. */
  lemma GoodRequestIsTaken(p: Config, s: State, id: Id, bytes: string)
    requires ValidConfig(p) && Reachable(p, s) && id < |s.connections|
    requires s.connections[id].open && s.connections[id].runner.Reading? && FateOf(p.service, bytes) == Invoked
    ensures Step(p, s, Arrives(id, bytes)) == Next(s.(connections := s.connections[id := OneMore(p, s.connections[id], bytes)]))
  {
    OpenIsCounted(p, s, id);
    TakenWhileOpen(p, s.connections[id], id, bytes);
    StepAt(p, s, Arrives(id, bytes), OneMore(p, s.connections[id], bytes));
  }

  lemma OpenIsCounted(p: Config, s: State, id: Id)
    requires ValidConfig(p) && Reachable(p, s) && id < |s.connections| && s.connections[id].open
    ensures var c := s.connections[id]; !c.flagged && c.concurrency == c.pending + c.writing
  {
    ReachableInv(p, s);
  }

  lemma StepAt(p: Config, s: State, e: Event, c: Connection)
    requires ValidConfig(p) && e.Arrives? && e.id < |s.connections| && ConnectionStep(p, s.connections[e.id], e) == Some(c)
    ensures Step(p, s, e) == Next(s.(connections := s.connections[e.id := c]))
  {
  }

  lemma TakenWhileOpen(p: Config, c: Connection, id: Id, bytes: string)
    requires c.open && !c.flagged && c.concurrency == c.pending + c.writing && c.runner.Reading?
    requires FateOf(p.service, bytes) == Invoked
    ensures ConnectionStep(p, c, Arrives(id, bytes)) == Some(OneMore(p, c, bytes))
  {
    var d := c.(arrived := c.arrived + [bytes]);
    assert ConnectionStep(p, c, Arrives(id, bytes)) == Taken(p, d, Invoked);
  }

  /** For one, any client's packet with such a call, over a new connection. */
  lemma FirstCallIsTaken(p: Config, tid: nat, buff: string)
    requires ValidConfig(p) && p.service.transport.Http? && H.Fits(p.service.transport.limits, tid, buff)
    requires GoodCall(p.service, if buff == "" then None else Some(buff))
    ensures var r := Run(p, Init(), [Accept, Arrives(0, W.ClientPacket(tid, buff))]);
      && r.Next? && |r.state.connections| == 1 && Live(r.state) == {0}
      && r.state.connections[0].open && !r.state.connections[0].runner.Exited?
      && r.state.connections[0].pending == 1
  {
    var bytes := W.ClientPacket(tid, buff);
    GoodCallInPacket(p.service, tid, buff);
    FirstAccept(p);
    TwoEvents(p, Init(), Accept, Arrives(0, bytes));
    var s := Step(p, Init(), Accept).state;
    assert Run(p, Init(), []) == Next(Init());
    TakenOnFresh(p, s, bytes);
  }

  lemma TakenOnFresh(p: Config, s: State, bytes: string)
    requires ValidConfig(p) && FateOf(p.service, bytes) == Invoked && s == State(1, [L.Slot(0, ())], [Fresh()])
    ensures var r := Step(p, s, Arrives(0, bytes));
      && r.Next? && |r.state.connections| == 1 && Live(r.state) == {0}
      && r.state.connections[0].open && !r.state.connections[0].runner.Exited?
      && r.state.connections[0].pending == 1
  {
    assert ConnectionStep(p, Fresh(), Arrives(0, bytes)).Some?;
  }

  /** A request that is refused closes its stream and ends its runner; what is pending goes on. */
  lemma BadRequestCloses(p: Config, s: State, id: Id, bytes: string)
    requires ValidConfig(p) && Reachable(p, s) && id < |s.connections|
    requires s.connections[id].open && s.connections[id].runner.Reading? && FateOf(p.service, bytes) == Closes
    ensures var c := s.connections[id];
      Step(p, s, Arrives(id, bytes)) == Next(s.(connections := s.connections[id :=
        c.(arrived := c.arrived + [bytes], open := false, callback := true, runner := Exited)]))
  {
    var c := s.connections[id];
    StepAt(p, s, Arrives(id, bytes), c.(arrived := c.arrived + [bytes], open := false, callback := true, runner := Exited));
  }

  /** A stream that closes schedules the close callback of its connection, once. */
  lemma ClosesOnce(p: Config, s: State, id: Id)
    requires ValidConfig(p) && Reachable(p, s) && id < |s.connections|
    ensures var c, r := s.connections[id], Step(p, s, StreamCloses(id));
      if c.open
      then r == Next(s.(connections := s.connections[id := c.(open := false, callback := true)])) && id in Live(s)
      else r == Impossible && (c.callback <==> id in Live(s))
  {
    ReachableInv(p, s);
  }

  ghost predicate LeavesAfter(p: Config, s: State, events: seq<Event>, id: Id)
    requires ValidConfig(p)
  {
    var r := Run(p, s, events);
    r.Next? && id < |r.state.connections| && r.state.connections[id].runner.Exited?
  }

  /** Main result: once its stream is closed, a runner still there ends: its read fails, or it is woken and sees it. */
  lemma RunnerLeavesAfterClose(p: Config, s: State, id: Id)
    requires ValidConfig(p) && Reachable(p, s) && id < |s.connections| && !s.connections[id].open
    ensures match s.connections[id].runner
      case Exited => true
      case Reading => LeavesAfter(p, s, [ReadFails(id)], id)
      case Parked(true) => LeavesAfter(p, s, [Resume(id)], id)
      case Parked(false) => LeavesAfter(p, s, [CloseCallback(id), Resume(id)], id)
  {
    match s.connections[id].runner
    case Exited =>
    case Reading => OneEvent(p, s, ReadFails(id));
    case Parked(true) => OneEvent(p, s, Resume(id));
    case Parked(false) =>
      ParkedRunnerIsWoken(p, s, id);
      TwoEvents(p, s, CloseCallback(id), Resume(id));
  }

  lemma OneEvent(p: Config, s: State, e: Event)
    requires ValidConfig(p)
    ensures Run(p, s, [e]) == Step(p, s, e)
  {
    assert [e][1..] == [];
  }

  /** A woken runner on an open stream reads again if and only if there is room for a request. */
  lemma ResumesExactly(p: Config, s: State, id: Id)
    requires ValidConfig(p) && Reachable(p, s) && id < |s.connections|
    requires s.connections[id].open && s.connections[id].runner == Parked(true)
    ensures var c, r := s.connections[id], Step(p, s, Resume(id));
      && r.Next? && id < |r.state.connections|
      && r.state.connections[id].runner == if c.pending + c.writing < p.limit then Reading else Parked(false)
  {
    OpenIsCounted(p, s, id);
  }

  /** A call that is done is being answered, or dropped when its connection is gone or its result cannot be written. */
  lemma ResponsesExactly(p: Config, s: State, id: Id, serializable: bool)
    requires ValidConfig(p) && Reachable(p, s) && id < |s.connections| && s.connections[id].pending > 0
    ensures var c, r := s.connections[id], Step(p, s, FutureDone(id, serializable));
      && r.Next? && |r.state.connections| == |s.connections|
      && (forall k :: 0 <= k < |s.connections| && k != id ==> r.state.connections[k] == s.connections[k])
      && r.state.connections[id].pending == c.pending - 1
      && r.state.connections[id].writing == c.writing + (if serializable && !c.flagged then 1 else 0)
      && r.state.connections[id].open == c.open && r.state.connections[id].flagged == c.flagged
  {
  }

  lemma WritesEndExactly(p: Config, s: State, id: Id)
    requires ValidConfig(p) && Reachable(p, s) && id < |s.connections| && s.connections[id].writing > 0
    ensures var c, r := s.connections[id], Step(p, s, WriteDone(id));
      && r.Next? && |r.state.connections| == |s.connections|
      && (forall k :: 0 <= k < |s.connections| && k != id ==> r.state.connections[k] == s.connections[k])
      && r.state.connections[id].pending == c.pending && r.state.connections[id].writing == c.writing - 1
      && r.state.connections[id].open == c.open && r.state.connections[id].flagged == c.flagged
  {
  }

  // ---- Idle connections --------------------------------------------------------------

  /** The live connections accepted before one. */
  ghost function Older(s: State, id: Id): set<Id> {
    set k: Id | k in Live(s) && k < id
  }

  /** The keys from position i of the table on. */
  ghost function From(lru: L.Recency<Id, ()>, i: nat): set<Id>
    requires i <= |lru|
  {
    set j | i <= j < |lru| :: lru[j].key
  }

  lemma {:induction false} FromCounts(lru: L.Recency<Id, ()>, i: nat)
    requires NewestFirst(lru) && i <= |lru|
    ensures |From(lru, i)| == |lru| - i
    decreases |lru| - i
  {
    if i < |lru| {
      FromCounts(lru, i + 1);
      assert From(lru, i) == From(lru, i + 1) + {lru[i].key};
      assert lru[i].key !in From(lru, i + 1);
    }
  }

  /** The keys behind one are those that are smaller. */
  lemma BehindInTable(lru: L.Recency<Id, ()>, live: set<Id>, i: nat)
    requires NewestFirst(lru) && L.KeySet(lru) == live && i < |lru|
    ensures (set k: Id | k in live && k < lru[i].key) == From(lru, i + 1)
  {
    forall k: Id | k in live && k < lru[i].key ensures k in From(lru, i + 1) {
      var j :| 0 <= j < |lru| && lru[j].key == k;
    }
  }

  lemma AmongLastExactly(p: Config, s: State, n: nat, id: Id)
    requires Agrees(p, s) && L.KeySet(s.lru) == Live(s) && id < |s.connections|
    ensures AmongLast(s.lru, n, id) <==> id in Live(s) && |Older(s, id)| < n
  {
    L.HasMeans(s.lru, id);
    if id in Live(s) {
      var f := L.Find(s.lru, id);
      BehindInTable(s.lru, Live(s), f);
      FromCounts(s.lru, f + 1);
      assert Older(s, id) == set k: Id | k in Live(s) && k < s.lru[f].key;
      forall i | 0 <= i < |s.lru| && s.lru[i].key == id ensures i == f {}
    }
  }

  /** Main result: reaping n connections closes exactly the n that were accepted first among the live ones. */
  lemma ReapsTheOldest(p: Config, s: State, n: nat, id: Id)
    requires ValidConfig(p) && Reachable(p, s) && id < |s.connections|
    ensures var r := Step(p, s, Reap(n));
      && r.Next? && |r.state.connections| == |s.connections|
      && (r.state.connections[id].open <==> s.connections[id].open && !(id in Live(s) && |Older(s, id)| < n))
      && r.state.connections[id].pending == s.connections[id].pending
  {
    ReachableInv(p, s);
    CountersAgree(p, s);
    AmongLastExactly(p, s, n, id);
  }
}
