/**
  The table and future invariants of SharedConnection hold under every interleaving: each step
  of each thread is matched with the law of SharedConnectionFutures for what it does.
 */
module SharedConnectionTables {
  import opened Wrappers
  import opened SharedConnection
  import opened SharedConnectionLocks
  import opened SharedConnectionGates
  import opened SharedConnectionFutures
  import L = LruSpec

  /** The item the writer popped and has not resolved yet. */
  ghost function Hand(w: WriterPc): Option<Item> {
    match w
    case Sending(Release(_, _, hand)) => hand
    case Sending(TestExpired(item)) => Some(item)
    case Sending(Transmit(item)) => Some(item)
    case _ => None
  }

  /** The response the reader received and has not placed yet. */
  ghost function Carried(r: ReaderPc): Option<Msg> {
    match r
    case Routing(p) =>
      (match p
       case HRelease(ThenDeliver(m)) => Some(m)
       case HRelease(_) => None
       case RRelease(_) => None
       case RouteWantH(m) => Some(m)
       case HTestClosing(m) => Some(m)
       case HTestClosed(m) => Some(m)
       case HLook(m) => Some(m)
       case RouteWantR(m) => Some(m)
       case RTestClosing(m) => Some(m)
       case RTestClosed(m) => Some(m)
       case Deliver(m) => Some(m))
    case _ => None
  }

  /** What a call is about to return has the id it should have. */
  ghost predicate TicketOk(futs: seq<Future>, p: ClientPc) {
    match p
    case Writing(NotifyInsert(item)) => item.fut < |futs| && futs[item.fut].kind == WriteFuture(item.id)
    case Writing(ReleaseInsert(Some(item))) => item.fut < |futs| && futs[item.fut].kind == WriteFuture(item.id)
    case Reading(id, NotifyServe(f)) => f < |futs| && futs[f].kind == ReadFuture(id)
    case Reading(id, ReleaseServe(Some(f))) => f < |futs| && futs[f].kind == ReadFuture(id)
    case _ => true
  }

  ghost predicate Tickets(futs: seq<Future>, c: map<nat, ClientPc>) {
    forall n :: n in c ==> TicketOk(futs, c[n])
  }

  /** Once close() has had the write lock, the queue is empty, or being emptied. */
  ghost predicate DrainInv(s: State) {
    s.sync.drained >= 1 ==>
      || s.data.pendingWrites == []
      || (s.sync.wLock.Some? && Exists(s, s.sync.wLock.value) && ClosePoint(s, s.sync.wLock.value) == Some(Drain))
  }

  ghost predicate TableInv(cfg: Config, s: State) {
    && WriteInv(cfg, s.data, Hand(s.w))
    && ReadInv(cfg, s.data, s.sync.swept)
    && BodiesReceived(s.data.futs, s.mail.received)
    && (Carried(s.r).Some? ==> Carried(s.r).value in s.mail.received)
    && Tickets(s.data.futs, s.c)
    && DrainInv(s)
  }

  ghost predicate Base(cfg: Config, s: State) {
    cfg.Valid() && LockInv(s) && FlagInv(s) && GateInv(s)
  }

  ghost predicate KindsKept(futs: seq<Future>, futs': seq<Future>) {
    |futs'| >= |futs| && forall f :: 0 <= f < |futs| ==> futs'[f].kind == futs[f].kind
  }

  lemma TicketsKept(futs: seq<Future>, futs': seq<Future>, c: map<nat, ClientPc>, c': map<nat, ClientPc>, n: nat)
    requires Tickets(futs, c) && KindsKept(futs, futs')
    requires n in c' && (c' == c || (c' == c[n := c'[n]] && TicketOk(futs', c'[n])))
    ensures Tickets(futs', c')
  {
    forall m | m in c' ensures TicketOk(futs', c'[m]) {
      assert m != n ==> TicketOk(futs, c[m]);
    }
  }

  lemma CloseDataKeeps(cfg: Config, d: Data, hand: Option<Item>, swept: nat, received: multiset<Msg>, p: ClosePc)
    requires WriteInv(cfg, d, hand) && ReadInv(cfg, d, swept) && BodiesReceived(d.futs, received)
    ensures var d' := CloseData(d, p);
      && WriteInv(cfg, d', hand)
      && ReadInv(cfg, d', if p.Sweep? then swept + 1 else swept)
      && BodiesReceived(d'.futs, received)
      && KindsKept(d.futs, d'.futs)
      && (d'.pendingWrites == d.pendingWrites || p.Drain?)
  {
    var d' := CloseData(d, p);
    if p.Drain? && d.pendingWrites != [] {
      DrainKeepsWrites(cfg, d, hand);
      OtherFuturesKeepReads(cfg, d, d', swept);
      ResolveKeepsBodies(d.futs, d.pendingWrites[0].fut, WriteAbort, received);
    } else if p.Sweep? {
      SweepKeepsReads(cfg, d, swept);
      forall f: nat | f < |d.futs| && !d.futs[f].kind.ReadFuture? ensures !Holds(d.pendingReads, f) {}
      OtherFuturesKeepWrites(cfg, d, d', hand);
      FailAllKeepsBodies(d.futs, d.pendingReads, received);
    } else if p.ClearPool? {
      OtherFuturesKeepWrites(cfg, d, d', hand);
    }
  }

  /** What a step of close() does to the things the tables speak of. */
  lemma CloseStepShape(s: State, t: Tid, p: ClosePc)
    requires Exists(s, t) && ClosePoint(s, t) == Some(p) && CloseStep(s, t, p).Some?
    ensures var s' := CloseStep(s, t, p).value;
      && s'.data == CloseData(s.data, p)
      && s'.sync.swept == (if p.Sweep? then s.sync.swept + 1 else s.sync.swept)
      && s'.mail.received == s.mail.received
      && Hand(s'.w) == Hand(s.w) && Carried(s'.r) == Carried(s.r)
  {
  }

  lemma CloseStepKeepsTickets(s: State, t: Tid, p: ClosePc)
    requires Exists(s, t) && ClosePoint(s, t) == Some(p) && CloseStep(s, t, p).Some?
    requires Tickets(s.data.futs, s.c) && KindsKept(s.data.futs, CloseStep(s, t, p).value.data.futs)
    ensures Tickets(CloseStep(s, t, p).value.data.futs, CloseStep(s, t, p).value.c)
  {
    var s' := CloseStep(s, t, p).value;
    if t.Client? {
      TicketsKept(s.data.futs, s'.data.futs, s.c, s'.c, t.n);
    } else {
      TicketsKeptByThread(s.data.futs, s'.data.futs, s.c);
    }
  }

  lemma CloseStepKeepsTables(cfg: Config, s: State, t: Tid, p: ClosePc)
    requires Base(cfg, s) && TableInv(cfg, s) && Exists(s, t) && ClosePoint(s, t) == Some(p) && CloseStep(s, t, p).Some?
    ensures TableInv(cfg, CloseStep(s, t, p).value)
  {
    CloseDataKeeps(cfg, s.data, Hand(s.w), s.sync.swept, s.mail.received, p);
    CloseStepShape(s, t, p);
    CloseStepKeepsTickets(s, t, p);
    DrainAfterClose(s, t, p);
  }

  lemma DrainAfterClose(s: State, t: Tid, p: ClosePc)
    requires LockInv(s) && Exists(s, t) && ClosePoint(s, t) == Some(p) && CloseStep(s, t, p).Some? && DrainInv(s)
    ensures DrainInv(CloseStep(s, t, p).value)
  {
    var s' := CloseStep(s, t, p).value;
    assert InW(s, t) <==> s.sync.wLock == Some(t);
    assert Owns(s, t);
    CloseStepMoves(s, t, p);
    if s.sync.wLock.Some? && s.sync.wLock.value != t {
      FrameKeeps(s, t, s', s.sync.wLock.value);
    }
  }

  /** Steps outside close(): the queue grows only before close() first has the write lock. */
  lemma DrainAfterOther(s: State, t: Tid, s': State)
    requires LockInv(s) && Exists(s, t) && DrainInv(s) && Move(s, t, s') && ClosePoint(s, t) == None
    requires s'.data.pendingWrites == s.data.pendingWrites || s.sync.drained == 0
      || (s.data.pendingWrites != [] && s'.data.pendingWrites == s.data.pendingWrites[1..] && InW(s, t))
    ensures DrainInv(s')
  {
    assert InW(s, t) <==> s.sync.wLock == Some(t);
    if s.sync.wLock.Some? && s.sync.wLock.value != t {
      FrameKeeps(s, t, s', s.sync.wLock.value);
    }
  }

  lemma WriteStepKeepsTables(cfg: Config, s: State, n: nat, p: WritePc)
    requires Base(cfg, s) && TableInv(cfg, s) && n in s.c && s.c[n] == Writing(p) && WriteStep(cfg, s, n, p).Some?
    ensures TableInv(cfg, WriteStep(cfg, s, n, p).value)
  {
    var s' := WriteStep(cfg, s, n, p).value;
    assert GateOk(s, Client(n)) && Owns(s, Client(n)) && TicketOk(s.data.futs, s.c[n]);
    WriteStepMoves(cfg, s, n, p);
    DrainAfterOther(s, Client(n), s');
    if p.Insert? {
      if |s.data.pendingWrites| < cfg.maxWrites {
        EnqueueKeepsWrites(cfg, s.data, Hand(s.w));
      } else {
        OtherFuturesKeepWrites(cfg, s.data, s'.data, Hand(s.w));
      }
      OtherFuturesKeepReads(cfg, s.data, s'.data, s.sync.swept);
    }
    TicketsKept(s.data.futs, s'.data.futs, s.c, s'.c, n);
  }

  lemma ServeKeeps(cfg: Config, d: Data, hand: Option<Item>, received: multiset<Msg>, id: nat)
    requires cfg.Valid() && WriteInv(cfg, d, hand) && ReadInv(cfg, d, 0) && BodiesReceived(d.futs, received)
    ensures var (d', _, q) := ServeRead(cfg, d, id);
      && WriteInv(cfg, d', hand)
      && ReadInv(cfg, d', 0)
      && BodiesReceived(d'.futs, received)
      && KindsKept(d.futs, d'.futs)
      && TicketOk(d'.futs, Reading(id, q))
      && d'.pendingWrites == d.pendingWrites
  {
    var (d', _, q) := ServeRead(cfg, d, id);
    if L.Has(d.pool, id) {
      PoolHitKeepsReads(cfg, d, id, 0);
    } else if L.Has(d.pendingReads, id) {
      PendingHitKeepsReads(cfg, d, id, 0);
    } else {
      RegisterKeepsReads(cfg, d, id);
      match L.Victim(d.pendingReads, cfg.maxReads)
      case None =>
      case Some(slot) => ResolveKeepsBodies(d.futs, slot.value, TooManyReads, received);
    }
    OtherFuturesKeepWrites(cfg, d, d', hand);
  }

  lemma ReadStepKeepsTables(cfg: Config, s: State, n: nat, id: nat, p: ReadPc)
    requires Base(cfg, s) && TableInv(cfg, s) && n in s.c && s.c[n] == Reading(id, p)
    requires ReadStep(cfg, s, n, id, p).Some?
    ensures TableInv(cfg, ReadStep(cfg, s, n, id, p).value)
  {
    var s' := ReadStep(cfg, s, n, id, p).value;
    assert GateOk(s, Client(n)) && Owns(s, Client(n)) && TicketOk(s.data.futs, s.c[n]);
    ReadStepMoves(cfg, s, n, id, p);
    if p.Serve? {
      ServeKeeps(cfg, s.data, Hand(s.w), s.mail.received, id);
    }
    DrainAfterOther(s, Client(n), s');
    TicketsKept(s.data.futs, s'.data.futs, s.c, s'.c, n);
  }

  lemma IdleStepKeepsTables(cfg: Config, s: State, n: nat, ch: Choice)
    requires Base(cfg, s) && TableInv(cfg, s) && n in s.c && s.c[n] == Idle && ClientStep(cfg, s, n, ch).Some?
    ensures TableInv(cfg, ClientStep(cfg, s, n, ch).value)
  {
    var s' := ClientStep(cfg, s, n, ch).value;
    StepMoves(cfg, s, Client(n), ch);
    DrainAfterOther(s, Client(n), s');
    TicketsKept(s.data.futs, s'.data.futs, s.c, s'.c, n);
  }

  /** Steps of the writer and the reader leave the clients' tickets good when kinds are kept. */
  lemma TicketsKeptByThread(futs: seq<Future>, futs': seq<Future>, c: map<nat, ClientPc>)
    requires Tickets(futs, c) && KindsKept(futs, futs')
    ensures Tickets(futs', c)
  {
    forall m | m in c ensures TicketOk(futs', c[m]) {
      assert TicketOk(futs, c[m]);
    }
  }

  lemma CheckStepKeepsTables(cfg: Config, s: State, p: CheckPc)
    requires Base(cfg, s) && TableInv(cfg, s) && s.w == Checking(p) && CheckStep(cfg, s, p).Some?
    ensures TableInv(cfg, CheckStep(cfg, s, p).value)
  {
    var s' := CheckStep(cfg, s, p).value;
    assert Owns(s, Writer);
    CheckStepMoves(cfg, s, p);
    if p.Take? && s.data.pendingWrites != [] {
      if cfg.noBuff(s.data.pendingWrites[0].id) {
        SkipKeepsWrites(cfg, s.data);
      } else {
        TakeKeepsWrites(cfg, s.data);
      }
      OtherFuturesKeepReads(cfg, s.data, s'.data, s.sync.swept);
    }
    DrainAfterOther(s, Writer, s');
  }

  lemma WaitStepKeepsTables(cfg: Config, s: State, p: WaitPc, ch: Choice)
    requires Base(cfg, s) && TableInv(cfg, s) && s.w == Waiting(p) && WaitStep(cfg, s, p, ch).Some?
    requires p.Heartbeat? ==> s.data.pendingWrites == []
    ensures TableInv(cfg, WaitStep(cfg, s, p, ch).value)
  {
    var s' := WaitStep(cfg, s, p, ch).value;
    assert Owns(s, Writer) && GateOk(s, Writer);
    WaitStepMoves(cfg, s, p, ch);
    if p.Heartbeat? && |s.data.heartbeats| < MAX_HEARTBEATS {
      HeartbeatKeepsWrites(cfg, s.data);
      OtherFuturesKeepReads(cfg, s.data, s'.data, s.sync.swept);
    }
    TicketsKeptByThread(s.data.futs, s'.data.futs, s.c);
    DrainAfterOther(s, Writer, s');
  }

  lemma SendStepKeepsTables(cfg: Config, s: State, p: SendPc, ch: Choice)
    requires Base(cfg, s) && TableInv(cfg, s) && s.w == Sending(p) && SendStep(s, p, ch).Some?
    ensures TableInv(cfg, SendStep(s, p, ch).value)
  {
    var s' := SendStep(s, p, ch).value;
    assert Owns(s, Writer);
    SendStepMoves(s, p, ch);
    if s'.data != s.data {
      var item := Hand(s.w).value;
      var o := if p.TestExpired? || ch == SendTimeout then WriteTimeout else if ch == SendError then WriteAbort else Written;
      ResolveHandKeepsWrites(cfg, s.data, item, o);
      OtherFuturesKeepReads(cfg, s.data, s'.data, s.sync.swept);
      ResolveKeepsBodies(s.data.futs, item.fut, o, s.mail.received);
    }
    TicketsKeptByThread(s.data.futs, s'.data.futs, s.c);
    DrainAfterOther(s, Writer, s');
  }

  lemma ListenStepKeepsTables(cfg: Config, s: State, p: ListenPc, ch: Choice)
    requires Base(cfg, s) && TableInv(cfg, s) && s.r == Listening(p) && ListenStep(s, p, ch).Some?
    ensures TableInv(cfg, ListenStep(s, p, ch).value)
  {
    var s' := ListenStep(s, p, ch).value;
    assert Owns(s, Reader);
    ListenStepMoves(s, p, ch);
    DrainAfterOther(s, Reader, s');
  }

  lemma DeliverKeeps(cfg: Config, d: Data, hand: Option<Item>, received: multiset<Msg>, m: Msg)
    requires cfg.Valid() && WriteInv(cfg, d, hand) && ReadInv(cfg, d, 0) && BodiesReceived(d.futs, received)
    requires m in received
    ensures var d' := DeliverData(cfg, d, m);
      && WriteInv(cfg, d', hand)
      && ReadInv(cfg, d', 0)
      && BodiesReceived(d'.futs, received)
      && KindsKept(d.futs, d'.futs)
      && d'.pendingWrites == d.pendingWrites
  {
    if L.Has(d.pendingReads, m.id) {
      DeliverKeepsReads(cfg, d, m);
      assert d.pendingReads[L.Find(d.pendingReads, m.id)].key == m.id;
      ResolveKeepsBodies(d.futs, L.Lookup(d.pendingReads, m.id).value, Body(m.buff), received);
    } else {
      PoolingKeepsReads(cfg, d, m, 0);
    }
    OtherFuturesKeepWrites(cfg, d, DeliverData(cfg, d, m), hand);
  }

  lemma AnswerKeeps(cfg: Config, d: Data, d': Data, hand: Option<Item>, swept: nat, received: multiset<Msg>, m: Msg)
    requires WriteInv(cfg, d, hand) && ReadInv(cfg, d, swept) && BodiesReceived(d.futs, received)
    requires m in received && L.Has(d.heartbeats, m.id)
    requires d' == d.(futs := Resolve(d.futs, L.Lookup(d.heartbeats, m.id).value, Body(m.buff)),
                      heartbeats := L.Del(d.heartbeats, m.id))
    ensures WriteInv(cfg, d', hand) && ReadInv(cfg, d', swept) && BodiesReceived(d'.futs, received)
    ensures KindsKept(d.futs, d'.futs)
  {
    AnswerKeepsWrites(cfg, d, hand, m.id, Body(m.buff));
    assert d.heartbeats[L.Find(d.heartbeats, m.id)].key == m.id;
    OtherFuturesKeepReads(cfg, d, d', swept);
    ResolveKeepsBodies(d.futs, L.Lookup(d.heartbeats, m.id).value, Body(m.buff), received);
  }

  /** What a step with a response in hand does to the things the tables speak of. */
  lemma RouteStepShape(cfg: Config, s: State, p: RoutePc)
    requires cfg.Valid() && s.r == Routing(p) && RouteStep(cfg, s, p).Some?
    ensures var s' := RouteStep(cfg, s, p).value;
      && s'.sync.swept == s.sync.swept && s'.mail.received == s.mail.received
      && s'.w == s.w && s'.c == s.c
      && (Carried(s'.r) == None || Carried(s'.r) == Carried(s.r))
      && (p.Deliver? || p.HLook? || s'.data == s.data)
  {
  }

  lemma RouteDataKeeps(cfg: Config, s: State, p: RoutePc)
    requires cfg.Valid() && s.r == Routing(p) && RouteStep(cfg, s, p).Some?
    requires WriteInv(cfg, s.data, Hand(s.w)) && ReadInv(cfg, s.data, s.sync.swept)
    requires BodiesReceived(s.data.futs, s.mail.received) && (p.Deliver? ==> s.sync.swept == 0)
    requires p.Deliver? || p.HLook? ==> p.msg in s.mail.received
    ensures var d' := RouteStep(cfg, s, p).value.data;
      && WriteInv(cfg, d', Hand(s.w)) && ReadInv(cfg, d', s.sync.swept)
      && BodiesReceived(d'.futs, s.mail.received)
      && KindsKept(s.data.futs, d'.futs) && d'.pendingWrites == s.data.pendingWrites
  {
    if p.Deliver? {
      DeliverKeeps(cfg, s.data, Hand(s.w), s.mail.received, p.msg);
    } else if p.HLook? && L.Has(s.data.heartbeats, p.msg.id) {
      AnswerKeeps(cfg, s.data, RouteStep(cfg, s, p).value.data, Hand(s.w), s.sync.swept, s.mail.received, p.msg);
    } else {
      RouteStepShape(cfg, s, p);
    }
  }

  lemma RouteStepKeepsTables(cfg: Config, s: State, p: RoutePc)
    requires Base(cfg, s) && TableInv(cfg, s) && s.r == Routing(p) && RouteStep(cfg, s, p).Some?
    ensures TableInv(cfg, RouteStep(cfg, s, p).value)
  {
    var s' := RouteStep(cfg, s, p).value;
    assert Owns(s, Reader) && GateOk(s, Reader);
    RouteStepMoves(cfg, s, p);
    RouteStepShape(cfg, s, p);
    RouteDataKeeps(cfg, s, p);
    TicketsKeptByThread(s.data.futs, s'.data.futs, s.c);
    DrainAfterOther(s, Reader, s');
  }
}
