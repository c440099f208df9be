/**
  What the calls of a SharedConnection come back with: when write() hands out a ticket and what it then
  has queued, which future read() hands out, where a response goes, when heartbeats are sent, and that
  nothing is refused before close() begins.
 */
module SharedConnectionCalls {
  import opened Wrappers
  import opened SharedConnection
  import opened SharedConnectionLocks
  import opened SharedConnectionGates
  import opened SharedConnectionFutures
  import opened SharedConnectionTables
  import opened SharedConnectionParking
  import opened SharedConnectionRuns
  import L = LruSpec

  // ---- Ids ---------------------------------------------------------------------------

  /** Writes and heartbeats have ids of their own, in the order of their futures. */
  ghost predicate IdsIncrease(d: Data) {
    && (forall f :: 0 <= f < |d.futs| && !d.futs[f].kind.ReadFuture? ==> 1 <= d.futs[f].kind.id < d.nextId)
    && (forall f, g :: 0 <= f < g < |d.futs| && !d.futs[f].kind.ReadFuture? && !d.futs[g].kind.ReadFuture?
          ==> d.futs[f].kind.id < d.futs[g].kind.id)
    && d.nextId >= 1
  }

  /** At most one future is new, and if it is a write or a heartbeat it has the next id. */
  ghost predicate Grows(d: Data, d': Data) {
    && KindsKept(d.futs, d'.futs) && |d'.futs| <= |d.futs| + 1 && d'.nextId >= d.nextId
    && (|d'.futs| == |d.futs| + 1 && !d'.futs[|d.futs|].kind.ReadFuture? ==>
          d'.futs[|d.futs|].kind.id == d.nextId && d'.nextId == d.nextId + 1)
  }

  lemma GrowthKeepsIds(d: Data, d': Data)
    requires IdsIncrease(d) && Grows(d, d')
    ensures IdsIncrease(d')
  {
    forall f, g | 0 <= f < g < |d'.futs| && !d'.futs[f].kind.ReadFuture? && !d'.futs[g].kind.ReadFuture?
      ensures d'.futs[f].kind.id < d'.futs[g].kind.id
    {
      assert f < |d.futs| && d.futs[f].kind == d'.futs[f].kind;
    }
  }

  lemma ClientGrows(cfg: Config, s: State, n: nat, ch: Choice, t: State)
    requires cfg.Valid() && n in s.c && !s.c[n].ClientClosing? && ClientStep(cfg, s, n, ch) == Some(t)
    ensures Grows(s.data, t.data)
  {
  }

  lemma WriterGrows(cfg: Config, s: State, ch: Choice, t: State)
    requires !s.w.WriterClosing? && WriterStep(cfg, s, ch) == Some(t)
    ensures Grows(s.data, t.data)
  {
  }

  lemma ReaderGrows(cfg: Config, s: State, ch: Choice, t: State)
    requires cfg.Valid() && !s.r.ReaderClosing? && ReaderStep(cfg, s, ch) == Some(t)
    ensures Grows(s.data, t.data)
  {
  }

  lemma CloseDataGrows(d: Data, p: ClosePc)
    ensures Grows(d, CloseData(d, p))
  {
  }

  lemma CloseGrows(s: State, t: Tid, p: ClosePc)
    requires Exists(s, t) && CloseStep(s, t, p).Some?
    ensures Grows(s.data, CloseStep(s, t, p).value.data)
  {
    assert CloseStep(s, t, p).value.data == CloseData(s.data, p);
    CloseDataGrows(s.data, p);
  }

  lemma StepGrows(cfg: Config, s: State, t: Tid, ch: Choice)
    requires cfg.Valid() && Exists(s, t) && Step(cfg, s, t, ch).Some?
    ensures Grows(s.data, Step(cfg, s, t, ch).value.data)
  {
    var s' := Step(cfg, s, t, ch).value;
    if ClosePoint(s, t).Some? {
      CloseGrows(s, t, ClosePoint(s, t).value);
    } else {
      match t {
        case Client(n) => ClientGrows(cfg, s, n, ch, s');
        case Writer => WriterGrows(cfg, s, ch, s');
        case Reader => ReaderGrows(cfg, s, ch, s');
      }
    }
  }

  lemma {:induction false} RunKeepsIds(cfg: Config, s: State, run: seq<Event>)
    requires cfg.Valid() && IdsIncrease(s.data) && Exec(cfg, s, run).Some?
    ensures IdsIncrease(Exec(cfg, s, run).value.data)
    decreases run
  {
    if run != [] {
      var s' := Step(cfg, s, run[0].t, run[0].ch).value;
      StepGrows(cfg, s, run[0].t, run[0].ch);
      GrowthKeepsIds(s.data, s'.data);
      RunKeepsIds(cfg, s', run[1..]);
    }
  }

  /** Main result: no two writes or heartbeats ever have the same id, and later ones have greater ids. */
  lemma IdsAreUnique(cfg: Config, s: State)
    requires Reachable(cfg, s)
    ensures IdsIncrease(s.data)
  {
    var clients: set<nat>, run :| Exec(cfg, Init(clients), run) == Some(s);
    RunKeepsIds(cfg, Init(clients), run);
  }

  // ---- write() -----------------------------------------------------------------------

  /** The item is new, and on top of the queue with a future nobody has resolved. */
  ghost predicate PutOnTop(d: Data, d': Data, item: Item) {
    && d'.pendingWrites == [item] + d.pendingWrites
    && d'.futs == d.futs + [Future(WriteFuture(item.id), [])] && item.fut == |d.futs|
    && (forall f :: 0 <= f < |d.futs| && !d.futs[f].kind.ReadFuture? ==> d.futs[f].kind.id < item.id)
  }

  /**
    Main result: a write that has seen the connection open is queued if and only if there is room, under
    an id no write or heartbeat had before; and else raises and queues nothing.
   */
  lemma WriteExactly(cfg: Config, s: State, n: nat, ch: Choice)
    requires Reachable(cfg, s) && n in s.c && s.c[n] == Writing(Insert)
    ensures Step(cfg, s, Client(n), ch).Some?
    ensures var s' := Step(cfg, s, Client(n), ch).value;
      && (|s.data.pendingWrites| < cfg.maxWrites ==>
            exists item :: s'.c[n] == Writing(NotifyInsert(item)) && PutOnTop(s.data, s'.data, item))
      && (|s.data.pendingWrites| >= cfg.maxWrites ==>
            s'.c[n] == Writing(ReleaseInsert(None)) && s'.data.pendingWrites == s.data.pendingWrites
            && s'.data.futs == s.data.futs && |s.data.pendingWrites| == cfg.maxWrites)
  {
    ReachableInv(cfg, s);
    IdsAreUnique(cfg, s);
    var s' := Step(cfg, s, Client(n), ch).value;
    assert s' == WriteStep(cfg, s, n, Insert).value;
    if |s.data.pendingWrites| < cfg.maxWrites {
      assert PutOnTop(s.data, s'.data, Item(s.data.nextId, |s.data.futs|));
    }
  }

  /** What a write or a read found when it gave up. */
  ghost predicate GaveUp(cfg: Config, s: State, n: nat)
    requires n in s.c
  {
    match s.c[n]
    case Writing(WriteTestClosing) => s.sync.closing
    case Writing(WriteTestClosed) => s.sync.closed
    case Writing(Insert) => |s.data.pendingWrites| == cfg.maxWrites
    case Reading(_, ReadTestClosing) => s.sync.closing
    case Reading(_, ReadTestClosed) => s.sync.closed
    case _ => false
  }

  /** A call about to raise. */
  ghost predicate Raising(p: ClientPc) {
    p == Writing(ReleaseInsert(None)) || (p.Reading? && p.rpc == ReleaseServe(None))
  }

  lemma RaisesAfter(cfg: Config, s: State, n: nat, ch: Choice)
    requires Inv(cfg, s) && n in s.c && ClientStep(cfg, s, n, ch).Some?
    requires n in ClientStep(cfg, s, n, ch).value.c && Raising(ClientStep(cfg, s, n, ch).value.c[n])
    ensures GaveUp(cfg, s, n)
  {
  }

  lemma OthersLeaveClient(cfg: Config, s: State, t: Tid, ch: Choice, n: nat)
    requires Inv(cfg, s) && Exists(s, t) && Step(cfg, s, t, ch).Some? && t != Client(n)
    ensures n in Step(cfg, s, t, ch).value.c <==> n in s.c
    ensures n in s.c ==> Step(cfg, s, t, ch).value.c[n] == s.c[n]
  {
    StepMoves(cfg, s, t, ch);
  }

  /** The last step of client n in a run, and the state it was taken in. */
  ghost predicate LastMove(cfg: Config, clients: set<nat>, run: seq<Event>, n: nat, i: nat, s: State)
    requires cfg.Valid()
  {
    && i < |run| && run[i].t == Client(n) && Exec(cfg, Init(clients), run[..i]) == Some(s)
    && (forall j :: i < j < |run| ==> run[j].t != Client(n))
  }

  lemma ExecOne(cfg: Config, s: State, e: Event)
    requires cfg.Valid()
    ensures Exec(cfg, s, [e]) == if Exists(s, e.t) then Step(cfg, s, e.t, e.ch) else None
  {
    assert [e][1..] == [];
  }

  lemma {:induction false} ExecPrefix(cfg: Config, s: State, a: seq<Event>, b: seq<Event>)
    requires cfg.Valid() && Exec(cfg, s, a + b).Some?
    ensures Exec(cfg, s, a).Some?
    decreases a
  {
    if a != [] {
      assert (a + b)[1..] == a[1..] + b && (a + b)[0] == a[0];
      ExecPrefix(cfg, Step(cfg, s, a[0].t, a[0].ch).value, a[1..], b);
    }
  }

  /**
    Main result: over every run a call of write() or read() raises only if its last step read _closing or
    _closed set, or, for a write, found exactly as many items queued as there may be.
   */
  lemma {:induction false} RaisesOnlyFor(cfg: Config, clients: set<nat>, run: seq<Event>, n: nat) returns (i: nat, s: State)
    requires cfg.Valid() && Exec(cfg, Init(clients), run).Some? && n in Exec(cfg, Init(clients), run).value.c
    requires Raising(Exec(cfg, Init(clients), run).value.c[n])
    ensures LastMove(cfg, clients, run, n, i, s) && n in s.c && GaveUp(cfg, s, n)
    decreases |run|
  {
    assert run != [];
    var k: nat := |run| - 1;
    var before, e := run[..k], run[k];
    assert run == before + [e];
    ExecPrefix(cfg, Init(clients), before, [e]);
    ExecAppend(cfg, Init(clients), before, [e]);
    var s0 := Exec(cfg, Init(clients), before).value;
    ExecOne(cfg, s0, e);
    InitInv(cfg, clients);
    RunKeepsInv(cfg, Init(clients), before);
    if e.t == Client(n) {
      RaisesAfter(cfg, s0, n, e.ch);
      i, s := k, s0;
    } else {
      OthersLeaveClient(cfg, s0, e.t, e.ch, n);
      i, s := RaisesOnlyFor(cfg, clients, before, n);
      assert before[..i] == run[..i];
    }
  }

  // ---- The queue is a stack ----------------------------------------------------------

  /** What becomes of the item on top of the queue: it is sent, forgotten for want of a buffer, or failed. */
  ghost predicate TopTaken(s: State, s': State)
    requires s.data.pendingWrites != []
  {
    var top := s.data.pendingWrites[0];
    || Hand(s'.w) == Some(top)
    || top.fut in s'.data.skipped
    || (top.fut < |s'.data.futs| && WriteAbort in s'.data.futs[top.fut].outcomes)
  }

  ghost predicate StackMove(s: State, s': State) {
    var q, q' := s.data.pendingWrites, s'.data.pendingWrites;
    || q' == q
    || (|q'| == |q| + 1 && q'[1..] == q && q'[0] == Item(s.data.nextId, |s.data.futs|))
    || (q != [] && q' == q[1..] && TopTaken(s, s'))
  }

  lemma CloseMovesQueue(cfg: Config, s: State, t: Tid, p: ClosePc)
    requires Inv(cfg, s) && Exists(s, t) && CloseStep(s, t, p).Some?
    ensures StackMove(s, CloseStep(s, t, p).value)
  {
    var s' := CloseStep(s, t, p).value;
    assert s'.data == CloseData(s.data, p);
    if p.Drain? && s.data.pendingWrites != [] {
      var top := s.data.pendingWrites[0];
      assert ItemOk(s.data, top);
      var o := s'.data.futs[top.fut].outcomes;
      assert o[|o| - 1] == WriteAbort;
    }
  }

  lemma ClientMovesQueue(cfg: Config, s: State, n: nat, ch: Choice, t: State)
    requires cfg.Valid() && n in s.c && !s.c[n].ClientClosing? && ClientStep(cfg, s, n, ch) == Some(t)
    ensures StackMove(s, t)
  {
  }

  lemma WriterMovesQueue(cfg: Config, s: State, ch: Choice, t: State)
    requires !s.w.WriterClosing? && WriterStep(cfg, s, ch) == Some(t)
    ensures StackMove(s, t)
  {
  }

  lemma ReaderMovesQueue(cfg: Config, s: State, ch: Choice, t: State)
    requires cfg.Valid() && !s.r.ReaderClosing? && ReaderStep(cfg, s, ch) == Some(t)
    ensures t.data.pendingWrites == s.data.pendingWrites
  {
  }

  /** Main result: every step leaves the queue alone, puts a new item on top, or takes the top to send or drop it. */
  lemma QueueIsStack(cfg: Config, s: State, t: Tid, ch: Choice)
    requires Reachable(cfg, s) && Exists(s, t) && Step(cfg, s, t, ch).Some?
    ensures StackMove(s, Step(cfg, s, t, ch).value)
  {
    ReachableInv(cfg, s);
    var s' := Step(cfg, s, t, ch).value;
    if ClosePoint(s, t).Some? {
      CloseMovesQueue(cfg, s, t, ClosePoint(s, t).value);
    } else {
      match t {
        case Client(n) => ClientMovesQueue(cfg, s, n, ch, s');
        case Writer => WriterMovesQueue(cfg, s, ch, s');
        case Reader => ReaderMovesQueue(cfg, s, ch, s');
      }
    }
  }

  /** The queue never has fewer than depth items. */
  ghost predicate StaysAbove(cfg: Config, s: State, run: seq<Event>, depth: nat)
    requires cfg.Valid()
    decreases run
  {
    && |s.data.pendingWrites| >= depth
    && (run != [] && Exists(s, run[0].t) && Step(cfg, s, run[0].t, run[0].ch).Some? ==>
          StaysAbove(cfg, Step(cfg, s, run[0].t, run[0].ch).value, run[1..], depth))
  }

  ghost function Bottom(q: seq<Item>, depth: nat): seq<Item>
    requires depth <= |q|
  {
    q[|q| - depth..]
  }

  lemma BottomStays(s: State, s': State, depth: nat)
    requires StackMove(s, s') && depth <= |s.data.pendingWrites| && depth <= |s'.data.pendingWrites|
    ensures Bottom(s'.data.pendingWrites, depth) == Bottom(s.data.pendingWrites, depth)
  {
  }

  /** Main result: last written, first sent; what lies below is not touched before all above it is gone. */
  lemma {:induction false} LastWrittenFirstSent(cfg: Config, s: State, run: seq<Event>, depth: nat)
    requires Reachable(cfg, s) && Exec(cfg, s, run).Some? && StaysAbove(cfg, s, run, depth)
    ensures |Exec(cfg, s, run).value.data.pendingWrites| >= depth
    ensures Bottom(Exec(cfg, s, run).value.data.pendingWrites, depth) == Bottom(s.data.pendingWrites, depth)
    decreases run
  {
    if run != [] {
      var s' := Step(cfg, s, run[0].t, run[0].ch).value;
      QueueIsStack(cfg, s, run[0].t, run[0].ch);
      ReachableStep(cfg, s, run[0].t, run[0].ch);
      LastWrittenFirstSent(cfg, s', run[1..], depth);
      BottomStays(s, s', depth);
    }
  }

  // ---- read() ------------------------------------------------------------------------

  /** The response pooled for id is handed out, and leaves the pool. */
  ghost predicate FromPool(s: State, s': State, n: nat, id: nat)
    requires n in s'.c && L.Has(s.data.pool, id)
  {
    var hit := L.Lookup(s.data.pool, id).value;
    && s'.c[n] == Reading(id, ReleaseServe(Some(hit.fut)))
    && hit.fut < |s.data.futs| && s.data.futs[hit.fut] == Future(ReadFuture(id), [Body(hit.buff)])
    && s'.data.futs == s.data.futs && s'.data.pendingReads == s.data.pendingReads
    && L.KeySet(s'.data.pool) == L.KeySet(s.data.pool) - {id} && |s'.data.pool| == |s.data.pool| - 1
  }

  /** The future already awaited for id is handed out again. */
  ghost predicate SharedRead(s: State, s': State, n: nat, id: nat)
    requires n in s'.c && L.Has(s.data.pendingReads, id)
  {
    && s'.c[n] == Reading(id, ReleaseServe(L.Lookup(s.data.pendingReads, id)))
    && s'.data.futs == s.data.futs && s'.data.pool == s.data.pool
    && s'.data.pendingReads == [s.data.pendingReads[L.Find(s.data.pendingReads, id)]]
         + L.DropAt(s.data.pendingReads, L.Find(s.data.pendingReads, id))
  }

  /** A new future is awaited; the one untouched for longest makes room if it must. */
  ghost predicate NewRead(cfg: Config, s: State, s': State, n: nat, id: nat)
    requires n in s'.c && cfg.Valid()
  {
    var c, f := s.data.pendingReads, |s.data.futs|;
    && s'.c[n] == Reading(id, NotifyServe(f)) && s'.data.pool == s.data.pool
    && |s'.data.futs| == f + 1 && s'.data.futs[f] == Future(ReadFuture(id), [])
    && s'.data.pendingReads == [L.Slot(id, f)] + (if |c| < cfg.maxReads then c else c[..|c| - 1])
  }

  lemma ServeFromPool(cfg: Config, s: State, n: nat, id: nat, s': State)
    requires Inv(cfg, s) && n in s.c && ReadStep(cfg, s, n, id, Serve) == Some(s') && L.Has(s.data.pool, id)
    ensures n in s'.c && FromPool(s, s', n, id)
  {
    var p := L.Find(s.data.pool, id);
    assert s.data.pool[p].key == id;
    L.FindUnique(s.data.pool, id);
    DelShape(s.data.pool, id);
    forall k ensures k in L.KeySet(L.Del(s.data.pool, id)) <==> k in L.KeySet(s.data.pool) && k != id {
      DeletedKeys(s.data.pool, id, k);
    }
    assert L.KeySet(s'.data.pool) == L.KeySet(s.data.pool) - {id};
  }

  lemma DeletedKeys<V>(c: L.Recency<nat, V>, id: nat, k: nat)
    requires L.Distinct(c) && L.Has(c, id)
    ensures k in L.KeySet(L.Del(c, id)) <==> k in L.KeySet(c) && k != id
  {
    L.HasMeans(c, k);
    L.HasMeans(L.Del(c, id), k);
    DelShape(c, id);
    if L.Has(c, k) && k != id {
      DelKeepsOthers(c, id, k);
    }
    if L.Has(L.Del(c, id), k) {
      var i := L.Find(L.Del(c, id), k);
      assert L.Del(c, id)[i].key == k && L.Del(c, id)[i] in c;
    }
  }

  /**
    Main result: a read that has seen the connection open hands out the response pooled for its id, or the
    future awaited for it, or a new one; and pushes the read untouched for longest out of a full table only.
   */
  lemma ReadsExactly(cfg: Config, s: State, n: nat, id: nat, ch: Choice)
    requires Reachable(cfg, s) && n in s.c && s.c[n] == Reading(id, Serve)
    ensures var r := Step(cfg, s, Client(n), ch);
      && r.Some? && n in r.value.c
      && (L.Has(s.data.pool, id) ==> FromPool(s, r.value, n, id))
      && (!L.Has(s.data.pool, id) && L.Has(s.data.pendingReads, id) ==> SharedRead(s, r.value, n, id))
      && (!L.Has(s.data.pool, id) && !L.Has(s.data.pendingReads, id) ==> NewRead(cfg, s, r.value, n, id))
  {
    ReachableInv(cfg, s);
    var s' := ReadStep(cfg, s, n, id, Serve).value;
    assert Step(cfg, s, Client(n), ch) == Some(s');
    if L.Has(s.data.pool, id) {
      ServeFromPool(cfg, s, n, id, s');
    }
  }

  // ---- Responses ---------------------------------------------------------------------

  /** What comes out of the socket goes on to its future; a failure takes the reader into close(). */
  lemma ReceivesExactly(cfg: Config, s: State, ch: Choice)
    requires cfg.Valid() && s.r == Listening(Receive) && (ch.Got? || ch.ReceiveError?)
    ensures var r := Step(cfg, s, Reader, ch);
      && r.Some? && r.value.data == s.data
      && r.value.r == (if ch.Got? then Routing(RouteWantH(ch.msg)) else ReaderClosing(GuardClosed))
      && r.value.mail.received == s.mail.received + if ch.Got? then multiset{ch.msg} else multiset{}
  {
  }

  /** The future under id has been taken out of a table. */
  ghost predicate TakenOut(c: L.Recency<nat, nat>, c': L.Recency<nat, nat>, id: nat) {
    L.KeySet(c') == L.KeySet(c) - {id} && |c'| < |c|
  }

  /** Main result: a response whose id a heartbeat has goes to that heartbeat, and any other on to the reads. */
  lemma HeartbeatIsAnswered(cfg: Config, s: State, m: Msg, ch: Choice)
    requires Reachable(cfg, s) && s.r == Routing(HLook(m))
    ensures var r := Step(cfg, s, Reader, ch);
      && r.Some?
      && (!L.Has(s.data.heartbeats, m.id) ==> r.value.r == Routing(HRelease(ThenDeliver(m))) && r.value.data == s.data)
      && (L.Has(s.data.heartbeats, m.id) ==>
            && r.value.r == Routing(HRelease(ThenLoop)) && TakenOut(s.data.heartbeats, r.value.data.heartbeats, m.id)
            && r.value.data.pendingReads == s.data.pendingReads && r.value.data.pool == s.data.pool)
  {
    ReachableInv(cfg, s);
    if L.Has(s.data.heartbeats, m.id) {
      KeysAfterDel(s.data.heartbeats, m.id);
      DelShape(s.data.heartbeats, m.id);
    }
    HeartbeatStep(cfg, s, m, ch);
  }

  lemma HeartbeatStep(cfg: Config, s: State, m: Msg, ch: Choice)
    requires cfg.Valid() && s.r == Routing(HLook(m))
    ensures Step(cfg, s, Reader, ch).Some?
    ensures var t := Step(cfg, s, Reader, ch).value;
      if L.Has(s.data.heartbeats, m.id)
      then t.r == Routing(HRelease(ThenLoop)) && t.data.heartbeats == L.Del(s.data.heartbeats, m.id)
           && t.data.pendingReads == s.data.pendingReads && t.data.pool == s.data.pool
      else t.r == Routing(HRelease(ThenDeliver(m))) && t.data == s.data
  {
  }

  /**
    Main result: a response that no heartbeat awaits goes to the read that awaits its id, or else to the
    pool, where it replaces an older response of the same id, or the one untouched for longest if the pool
    is full, and nothing otherwise.
   */
  lemma ResponsesExactly(cfg: Config, s: State, m: Msg, ch: Choice)
    requires Reachable(cfg, s) && s.r == Routing(Deliver(m))
    ensures var r := Step(cfg, s, Reader, ch);
      && r.Some? && r.value.data.heartbeats == s.data.heartbeats
      && (L.Has(s.data.pendingReads, m.id) ==>
            TakenOut(s.data.pendingReads, r.value.data.pendingReads, m.id) && r.value.data.pool == s.data.pool)
      && (!L.Has(s.data.pendingReads, m.id) ==>
            && r.value.data.pendingReads == s.data.pendingReads
            && Pools(cfg, s.data.pool, r.value.data.pool, m, |s.data.futs|))
  {
    ReachableInv(cfg, s);
    DeliverStep(cfg, s, m, ch);
    if L.Has(s.data.pendingReads, m.id) {
      KeysAfterDel(s.data.pendingReads, m.id);
      DelShape(s.data.pendingReads, m.id);
      DeliverHands(cfg, s.data, m);
    } else {
      DeliverPools(cfg, s.data, m);
    }
  }

  lemma DeliverStep(cfg: Config, s: State, m: Msg, ch: Choice)
    requires cfg.Valid() && s.r == Routing(Deliver(m))
    ensures Step(cfg, s, Reader, ch).Some?
    ensures Step(cfg, s, Reader, ch).value.data == DeliverData(cfg, s.data, m)
    ensures DeliverData(cfg, s.data, m).heartbeats == s.data.heartbeats
  {
  }

  lemma DeliverHands(cfg: Config, d: Data, m: Msg)
    requires cfg.Valid() && L.Has(d.pendingReads, m.id)
    ensures DeliverData(cfg, d, m).pendingReads == L.Del(d.pendingReads, m.id) && DeliverData(cfg, d, m).pool == d.pool
  {
  }

  lemma DeliverPools(cfg: Config, d: Data, m: Msg)
    requires cfg.Valid() && !L.Has(d.pendingReads, m.id) && |d.pool| <= cfg.maxPool
    ensures Pools(cfg, d.pool, DeliverData(cfg, d, m).pool, m, |d.futs|)
    ensures DeliverData(cfg, d, m).pendingReads == d.pendingReads
  {
  }

  lemma KeysAfterDel<V>(c: L.Recency<nat, V>, id: nat)
    requires L.Distinct(c) && L.Has(c, id)
    ensures L.KeySet(L.Del(c, id)) == L.KeySet(c) - {id}
  {
    forall k ensures k in L.KeySet(L.Del(c, id)) <==> k in L.KeySet(c) && k != id {
      DeletedKeys(c, id, k);
    }
  }

  ghost predicate Pools(cfg: Config, c: L.Recency<nat, Pooled>, c': L.Recency<nat, Pooled>, m: Msg, f: nat)
    requires cfg.Valid()
  {
    && c' != [] && c'[0] == L.Slot(m.id, Pooled(f, m.buff))
    && (if L.Has(c, m.id) then c'[1..] == L.DropAt(c, L.Find(c, m.id))
        else if |c| < cfg.maxPool then c'[1..] == c
        else c'[1..] == c[..|c| - 1])
  }

  // ---- Heartbeats --------------------------------------------------------------------

  /**
    Main result: a writer woken with nothing to write sends a heartbeat under a fresh id and lets the reader
    know of it, unless four are outstanding: then its next four steps take it into close().
   */
  lemma HeartbeatExactly(cfg: Config, s: State, ch: Choice)
    requires Reachable(cfg, s) && s.w == Waiting(Heartbeat)
    ensures Step(cfg, s, Writer, ch).Some?
    ensures |s.data.heartbeats| < MAX_HEARTBEATS ==>
      var s' := Step(cfg, s, Writer, ch).value;
      && s'.w == Waiting(UnlockH(false, true)) && HeartbeatNoticeOwed(s'.w)
      && s'.data.pendingWrites == [Item(s.data.nextId, |s.data.futs|)] && s'.data.nextId == s.data.nextId + 1
      && s'.data.futs == s.data.futs + [Future(HeartbeatFuture(s.data.nextId), [])]
      && s'.data.heartbeats == [L.Slot(s.data.nextId, |s.data.futs|)] + s.data.heartbeats
    ensures |s.data.heartbeats| >= MAX_HEARTBEATS ==>
      Exec(cfg, s, [Event(Writer, ch), Event(Writer, ch), Event(Writer, ch), Event(Writer, ch)]).Some?
      && Exec(cfg, s, [Event(Writer, ch), Event(Writer, ch), Event(Writer, ch), Event(Writer, ch)]).value.w
           == WriterClosing(GuardClosed)
  {
    ReachableInv(cfg, s);
    var e := Event(Writer, ch);
    if |s.data.heartbeats| >= MAX_HEARTBEATS {
      ExecTwo(cfg, s, e, e);
      var s2 := Exec(cfg, s, [e, e]).value;
      ExecTwo(cfg, s2, e, e);
      assert [e, e, e, e] == [e, e] + [e, e];
      ExecAppend(cfg, s, [e, e], [e, e]);
    } else {
      L.HasMeans(s.data.heartbeats, s.data.nextId);
    }
  }

  lemma ExecTwo(cfg: Config, s: State, d: Event, e: Event)
    requires cfg.Valid() && Exists(s, d.t) && Step(cfg, s, d.t, d.ch).Some?
    ensures Exec(cfg, s, [d, e]) ==
      if Exists(Step(cfg, s, d.t, d.ch).value, e.t) then Step(cfg, Step(cfg, s, d.t, d.ch).value, e.t, e.ch) else None
  {
    assert [d, e][1..] == [e];
    ExecOne(cfg, Step(cfg, s, d.t, d.ch).value, e);
  }

  /** The parked writer wakes when it is notified, or when half the heartbeat interval is over, if there is one. */
  lemma WriterWakesExactly(cfg: Config, s: State, ch: Choice)
    requires cfg.Valid() && s.w.Waiting? && s.w.wt.Parked?
    ensures Step(cfg, s, Writer, ch).Some? <==> s.w.wt.notified || (ch == WaitTimeout && cfg.hasInterval)
    ensures Step(cfg, s, Writer, ch).Some? ==>
      Step(cfg, s, Writer, ch).value.w == Waiting(WokenWantW) && Step(cfg, s, Writer, ch).value.data == s.data
  {
  }

  /** A woken writer considers one if and only if it has nothing to write and heartbeats are configured. */
  lemma HeartbeatIsDue(cfg: Config, s: State, ch: Choice)
    requires cfg.Valid() && s.w == Waiting(Consider) && Step(cfg, s, Writer, ch).Some?
    ensures Step(cfg, s, Writer, ch).value.w == Waiting(Heartbeat) <==>
      s.data.pendingWrites == [] && cfg.hasHeartbeat && cfg.hasInterval
    ensures Step(cfg, s, Writer, ch).value.data == s.data
  {
  }

  // ---- Before close() ----------------------------------------------------------------

  /** A thread in close() that has not got past its guard. */
  ghost predicate AtGuard(p: ClosePc) {
    p.GuardClosed? || p.GuardClosing? || p.WantC? || p.LockedClosed? || p.LockedClosing?
  }

  ghost predicate WriterServing(w: WriterPc) {
    w != WriterExited && w != Checking(ReleaseExit) && (w.WriterClosing? ==> AtGuard(w.cpc))
  }

  ghost predicate ReaderServing(r: ReaderPc) {
    && r != ReaderExited && r != Routing(RRelease(true)) && r != Routing(HRelease(ThenExit))
    && (r.ReaderClosing? ==> AtGuard(r.cpc))
  }

  /** As long as nobody has passed the guard of close(), nothing is refused and nobody leaves. */
  ghost predicate Serving(s: State) {
    && s.mail.refused == multiset{} && s.mail.cleared == multiset{}
    && WriterServing(s.w) && ReaderServing(s.r)
    && (forall n :: n in s.c && s.c[n].ClientClosing? ==> AtGuard(s.c[n].cpc))
  }

  lemma GuardWhileOpen(y: Sync, d: Data, t: Tid, p: ClosePc)
    requires AtGuard(p) && !y.closing && !y.closed && CloseSync(y, d, t, p).Some?
    ensures var (y', q) := CloseSync(y, d, t, p).value;
      y'.passed == y.passed ==> q.Some? && AtGuard(q.value)
  {
  }

  lemma CloseStepServes(s: State, t: Tid, p: ClosePc, s': State)
    requires Exists(s, t) && ClosePoint(s, t) == Some(p) && CloseStep(s, t, p) == Some(s')
    requires Serving(s) && !s.sync.closing && !s.sync.closed && s'.sync.passed == s.sync.passed
    ensures Serving(s')
  {
    GuardWhileOpen(s.sync, s.data, t, p);
  }

  lemma ClientServes(cfg: Config, s: State, n: nat, ch: Choice, t: State)
    requires cfg.Valid() && n in s.c && !s.c[n].ClientClosing? && ClientStep(cfg, s, n, ch) == Some(t)
    requires Serving(s) && !s.sync.closing && !s.sync.closed
    ensures Serving(t)
  {
  }

  lemma WriterServes(cfg: Config, s: State, ch: Choice, t: State)
    requires !s.w.WriterClosing? && WriterStep(cfg, s, ch) == Some(t) && Serving(s) && !s.sync.closing && !s.sync.closed
    ensures Serving(t)
  {
    assert t.mail == s.mail && t.c == s.c && (t.r == s.r || t.r == WakeReader(s.r));
    match s.w {
      case Checking(p) => assert WriterServing(t.w);
      case Waiting(p) => assert WriterServing(t.w);
      case Sending(p) => assert WriterServing(t.w);
    }
  }

  lemma ListenServes(s: State, p: ListenPc, ch: Choice, t: State)
    requires ListenStep(s, p, ch) == Some(t) && !s.sync.closing && !s.sync.closed
    ensures ReaderServing(t.r) && t.w == s.w && t.c == s.c
    ensures t.mail.refused == s.mail.refused && t.mail.cleared == s.mail.cleared
  {
  }

  lemma RouteServes(cfg: Config, s: State, p: RoutePc, t: State)
    requires cfg.Valid() && RouteStep(cfg, s, p) == Some(t) && ReaderServing(Routing(p)) && !s.sync.closing && !s.sync.closed
    ensures ReaderServing(t.r) && t.w == s.w && t.c == s.c
    ensures t.mail.refused == s.mail.refused && t.mail.cleared == s.mail.cleared
  {
  }

  lemma ReaderServes(cfg: Config, s: State, ch: Choice, t: State)
    requires cfg.Valid() && !s.r.ReaderClosing? && ReaderStep(cfg, s, ch) == Some(t)
    requires Serving(s) && !s.sync.closing && !s.sync.closed
    ensures Serving(t)
  {
    match s.r {
      case Listening(p) => ListenServes(s, p, ch, t);
      case Routing(p) => RouteServes(cfg, s, p, t);
    }
  }

  lemma StepServes(cfg: Config, s: State, t: Tid, ch: Choice)
    requires Inv(cfg, s) && Exists(s, t) && Step(cfg, s, t, ch).Some? && Serving(s)
    requires s.sync.passed == 0 && Step(cfg, s, t, ch).value.sync.passed == 0
    ensures Serving(Step(cfg, s, t, ch).value)
  {
    var s' := Step(cfg, s, t, ch).value;
    if ClosePoint(s, t).Some? {
      CloseStepServes(s, t, ClosePoint(s, t).value, s');
    } else {
      match t {
        case Client(n) => ClientServes(cfg, s, n, ch, s');
        case Writer => WriterServes(cfg, s, ch, s');
        case Reader => ReaderServes(cfg, s, ch, s');
      }
    }
  }

  lemma StepPassesForward(cfg: Config, s: State, t: Tid, ch: Choice)
    requires Inv(cfg, s) && Exists(s, t) && Step(cfg, s, t, ch).Some?
    ensures Step(cfg, s, t, ch).value.sync.passed >= s.sync.passed
  {
    StepMoves(cfg, s, t, ch);
    if ClosePoint(s, t).Some? {
      StepOfCloser(cfg, s, t, ch);
      PassedForward(s.sync, s.data, t, ClosePoint(s, t).value);
    }
  }

  lemma PassedForward(y: Sync, d: Data, t: Tid, p: ClosePc)
    requires CloseSync(y, d, t, p).Some?
    ensures CloseSync(y, d, t, p).value.0.passed >= y.passed
  {
  }

  lemma {:induction false} RunServes(cfg: Config, s: State, run: seq<Event>)
    requires Inv(cfg, s) && Exec(cfg, s, run).Some?
    ensures Exec(cfg, s, run).value.sync.passed >= s.sync.passed
    ensures Serving(s) && Exec(cfg, s, run).value.sync.passed == 0 ==> Serving(Exec(cfg, s, run).value)
    decreases run
  {
    if run != [] {
      var (t, ch) := (run[0].t, run[0].ch);
      StepKeepsInv(cfg, s, t, ch);
      StepPassesForward(cfg, s, t, ch);
      RunServes(cfg, Step(cfg, s, t, ch).value, run[1..]);
      if Serving(s) && Exec(cfg, s, run).value.sync.passed == 0 {
        StepServes(cfg, s, t, ch);
      }
    }
  }

  /**
    Main result: until some thread passes the guard of close(), no response is refused or cleared away and
    neither the writer nor the reader has exited.
   */
  lemma ServingUntilClose(cfg: Config, s: State)
    requires Reachable(cfg, s) && s.sync.passed == 0
    ensures Serving(s)
  {
    var clients: set<nat>, run :| Exec(cfg, Init(clients), run) == Some(s);
    InitInv(cfg, clients);
    RunServes(cfg, Init(clients), run);
  }
}
