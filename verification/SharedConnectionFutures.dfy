/**
  How often each future of a SharedConnection is resolved. The laws are exact: a write future is
  unresolved while its item is queued or in the writer's hand and resolved once afterwards; a
  heartbeat future once for its transmission and once for its response; a read future once when it
  leaves the table of pending reads, and once per sweep while it stays there.
 */
module SharedConnectionFutures {
  import opened Wrappers
  import opened SharedConnection
  import L = LruSpec

  // ---- Values of a recency table ----------------------------------------------------

  ghost predicate Injective<K, V>(c: L.Recency<K, V>) {
    forall i, j :: 0 <= i < j < |c| ==> c[i].value != c[j].value
  }

  ghost predicate Within<K, V>(d: L.Recency<K, V>, c: L.Recency<K, V>) {
    forall i :: 0 <= i < |d| ==> d[i] in c
  }

  lemma HoldsAfterDel<K, V>(c: L.Recency<K, V>, k: K, v: V)
    requires Injective(c) && L.Has(c, k)
    ensures Holds(L.Del(c, k), v) <==> Holds(c, v) && v != L.Lookup(c, k).value
  {
    var p := L.Find(c, k);
    var d := L.Del(c, k);
    if Holds(c, v) && v != c[p].value {
      var i :| 0 <= i < |c| && c[i].value == v;
      assert d[if i < p then i else i - 1].value == v;
    }
    if Holds(d, v) {
      var i :| 0 <= i < |d| && d[i].value == v;
      assert c[if i < p then i else i + 1].value == v;
    }
  }

  lemma DelShape<K, V>(c: L.Recency<K, V>, k: K)
    requires L.Distinct(c) && L.Has(c, k)
    ensures L.Distinct(L.Del(c, k)) && Within(L.Del(c, k), c) && |L.Del(c, k)| == |c| - 1
    ensures !L.Has(L.Del(c, k), k)
  {
    L.FindUnique(c, k);
    var p, d := L.Find(c, k), L.Del(c, k);
    forall i | 0 <= i < |d| ensures d[i] in c && d[i].key != k {
      assert d[i] == c[if i < p then i else i + 1];
    }
    L.HasMeans(d, k);
  }

  lemma DelKeepsOthers<K, V>(c: L.Recency<K, V>, k: K, other: K)
    requires L.Distinct(c) && L.Has(c, k) && L.Has(c, other) && other != k
    ensures L.Has(L.Del(c, k), other)
  {
    var p, i, d := L.Find(c, k), L.Find(c, other), L.Del(c, k);
    assert d[if i < p then i else i - 1].key == other;
    L.HasMeans(d, other);
  }

  lemma GetWithin<K, V>(c: L.Recency<K, V>, k: K)
    requires L.Has(c, k)
    ensures Within(L.Get(c, k), c) && |L.Get(c, k)| == |c|
  {
    var p, d := L.Find(c, k), L.Get(c, k);
    forall i | 0 <= i < |d| ensures d[i] in c {
      var j := if i == 0 then p else if i - 1 < p then i - 1 else i;
      assert d[i] == c[j];
    }
  }

  lemma GetShape<K, V>(c: L.Recency<K, V>, k: K)
    requires L.Distinct(c) && L.Has(c, k)
    ensures L.Distinct(L.Get(c, k)) && Within(L.Get(c, k), c) && |L.Get(c, k)| == |c|
  {
    L.ApplyKeeps(c, |c|, L.GetOp(k));
    GetWithin(c, k);
  }

  /** Where the entry at position i goes. */
  lemma GetMoves<K, V>(c: L.Recency<K, V>, k: K, i: nat)
    requires L.Has(c, k) && i < |c|
    ensures c[i] in L.Get(c, k)
  {
    var p, d := L.Find(c, k), L.Get(c, k);
    if i == p {
      assert d[0] == c[i];
    } else if i < p {
      assert d[i + 1] == c[i];
    } else {
      assert d[i] == c[i];
    }
  }

  lemma HoldsAfterGet<K, V>(c: L.Recency<K, V>, k: K, v: V)
    requires L.Has(c, k)
    ensures Holds(L.Get(c, k), v) <==> Holds(c, v)
  {
    if Holds(c, v) {
      var i :| 0 <= i < |c| && c[i].value == v;
      GetMoves(c, k, i);
    }
    GetWithin(c, k);
  }

  /** Storing a fresh key with a fresh value. */
  lemma SetShape<K, V>(c: L.Recency<K, V>, max: nat, k: K, v: V)
    requires max >= 1 && L.Distinct(c) && |c| <= max && !L.Has(c, k)
    ensures var d := L.Set(c, max, k, v);
      && L.Distinct(d) && |d| <= max && |d| > 0 && d[0] == L.Slot(k, v)
      && (forall i :: 1 <= i < |d| ==> d[i] == c[i - 1])
      && |d| == if L.Victim(c, max).Some? then |c| else |c| + 1
  {
    L.HasMeans(c, k);
  }

  lemma HoldsAfterSet<K, V>(c: L.Recency<K, V>, max: nat, k: K, v: V, x: V)
    requires max >= 1 && L.Distinct(c) && Injective(c) && |c| <= max && !L.Has(c, k)
    ensures Holds(L.Set(c, max, k, v), x) <==>
      x == v || (Holds(c, x) && (L.Victim(c, max).Some? ==> x != L.Victim(c, max).value.value))
  {
    SetShape(c, max, k, v);
    var d := L.Set(c, max, k, v);
    assert d[0].value == v;
    if Holds(c, x) && (L.Victim(c, max).Some? ==> x != L.Victim(c, max).value.value) {
      var i :| 0 <= i < |c| && c[i].value == x;
      assert d[i + 1].value == x;
    }
    if Holds(d, x) && x != v {
      var i :| 0 <= i < |d| && d[i].value == x;
      assert c[i - 1].value == x;
    }
  }

  // ---- Write futures and heartbeat futures ------------------------------------------

  ghost predicate Queued(q: seq<Item>, f: nat) {
    exists i :: 0 <= i < |q| && q[i].fut == f
  }

  /** Queued, or in the writer's hand. */
  ghost predicate InFlight(d: Data, hand: Option<Item>, f: nat) {
    Queued(d.pendingWrites, f) || (hand.Some? && hand.value.fut == f)
  }

  ghost predicate ItemOk(d: Data, item: Item) {
    && item.id < d.nextId
    && item.fut < |d.futs|
    && (d.futs[item.fut].kind == WriteFuture(item.id) || d.futs[item.fut].kind == HeartbeatFuture(item.id))
  }

  ghost predicate QueueOk(cfg: Config, d: Data, hand: Option<Item>) {
    && |d.pendingWrites| <= cfg.maxWrites
    && (forall i :: 0 <= i < |d.pendingWrites| ==> ItemOk(d, d.pendingWrites[i]))
    && (forall i, j :: 0 <= i < j < |d.pendingWrites| ==> d.pendingWrites[i].fut != d.pendingWrites[j].fut)
    && (hand.Some? ==> ItemOk(d, hand.value) && !Queued(d.pendingWrites, hand.value.fut))
  }

  ghost predicate HeartbeatsOk(d: Data) {
    && L.Distinct(d.heartbeats)
    && |d.heartbeats| <= MAX_HEARTBEATS
    && (forall i :: 0 <= i < |d.heartbeats| ==>
          && d.heartbeats[i].key < d.nextId
          && d.heartbeats[i].value < |d.futs|
          && d.futs[d.heartbeats[i].value].kind == HeartbeatFuture(d.heartbeats[i].key))
  }

  /** Items without a buffer that the writer has popped; it leaves their futures alone. */
  ghost predicate SkippedOk(cfg: Config, d: Data, hand: Option<Item>) {
    forall f :: f in d.skipped ==>
      && f < |d.futs| && !InFlight(d, hand, f)
      && !d.futs[f].kind.ReadFuture? && cfg.noBuff(d.futs[f].kind.id)
  }

  /** Still to be sent or dropped, or dropped for want of a buffer. */
  ghost predicate Unsent(d: Data, hand: Option<Item>, f: nat) {
    InFlight(d, hand, f) || f in d.skipped
  }

  /** One resolution per side that is done with the future. */
  ghost predicate SentCounts(d: Data, hand: Option<Item>) {
    forall f :: 0 <= f < |d.futs| ==>
      match d.futs[f].kind
      case WriteFuture(_) => |d.futs[f].outcomes| == (if Unsent(d, hand, f) then 0 else 1)
      case HeartbeatFuture(_) => |d.futs[f].outcomes| ==
        (if Unsent(d, hand, f) then 0 else 1) + (if Holds(d.heartbeats, f) then 0 else 1)
      case ReadFuture(_) => !Unsent(d, hand, f) && !Holds(d.heartbeats, f)
  }

  ghost predicate WriteInv(cfg: Config, d: Data, hand: Option<Item>) {
    QueueOk(cfg, d, hand) && HeartbeatsOk(d) && SkippedOk(cfg, d, hand) && SentCounts(d, hand)
  }

  /** The insertion of write(). */
  lemma EnqueueKeepsWrites(cfg: Config, d: Data, hand: Option<Item>)
    requires WriteInv(cfg, d, hand) && |d.pendingWrites| < cfg.maxWrites
    ensures WriteInv(cfg, Enqueue(d, WriteFuture(d.nextId)), hand)
  {
    var d' := Enqueue(d, WriteFuture(d.nextId));
    QueuedAfterPush(d.pendingWrites, Item(d.nextId, |d.futs|));
    forall f | 0 <= f < |d.futs| ensures InFlight(d', hand, f) == InFlight(d, hand, f) {}
  }

  lemma QueuedAfterPush(q: seq<Item>, item: Item)
    ensures forall f: nat :: Queued([item] + q, f) <==> f == item.fut || Queued(q, f)
  {
    var q' := [item] + q;
    assert q'[0].fut == item.fut;
    forall f: nat | Queued(q, f) ensures Queued(q', f) {
      var i :| 0 <= i < |q| && q[i].fut == f;
      assert q'[i + 1].fut == f;
    }
    forall f: nat | Queued(q', f) && f != item.fut ensures Queued(q, f) {
      var i :| 0 <= i < |q'| && q'[i].fut == f;
      assert q[i - 1].fut == f;
    }
  }

  lemma QueuedAfterPop(q: seq<Item>)
    requires q != [] && forall i, j :: 0 <= i < j < |q| ==> q[i].fut != q[j].fut
    ensures forall f: nat :: Queued(q[1..], f) <==> Queued(q, f) && f != q[0].fut
  {
    QueuedAfterPush(q[1..], q[0]);
    assert q == [q[0]] + q[1..];
  }

  /** pop_left, into the writer's hand. */
  lemma TakeKeepsWrites(cfg: Config, d: Data)
    requires WriteInv(cfg, d, None) && d.pendingWrites != []
    ensures WriteInv(cfg, d.(pendingWrites := d.pendingWrites[1..]), Some(d.pendingWrites[0]))
  {
    var d' := d.(pendingWrites := d.pendingWrites[1..]);
    QueuedAfterPop(d.pendingWrites);
    forall f | 0 <= f < |d.futs| ensures InFlight(d', Some(d.pendingWrites[0]), f) == InFlight(d, None, f) {}
  }

  /** pop_left of an item without a buffer. */
  lemma SkipKeepsWrites(cfg: Config, d: Data)
    requires WriteInv(cfg, d, None) && d.pendingWrites != [] && cfg.noBuff(d.pendingWrites[0].id)
    ensures WriteInv(cfg, d.(pendingWrites := d.pendingWrites[1..], skipped := d.skipped + {d.pendingWrites[0].fut}), None)
  {
    var item := d.pendingWrites[0];
    var d' := d.(pendingWrites := d.pendingWrites[1..], skipped := d.skipped + {item.fut});
    QueuedAfterPop(d.pendingWrites);
    assert ItemOk(d, item);
    forall f | 0 <= f < |d.futs|
      ensures InFlight(d', None, f) == (InFlight(d, None, f) && f != item.fut)
      ensures Unsent(d', None, f) == Unsent(d, None, f)
    {}
  }

  /** The writer resolves the item in its hand. */
  lemma ResolveHandKeepsWrites(cfg: Config, d: Data, item: Item, o: Outcome)
    requires WriteInv(cfg, d, Some(item))
    ensures WriteInv(cfg, d.(futs := Resolve(d.futs, item.fut, o)), None)
  {
    var d' := d.(futs := Resolve(d.futs, item.fut, o));
    forall f | 0 <= f < |d.futs|
      ensures InFlight(d', None, f) == (InFlight(d, Some(item), f) && f != item.fut)
    {}
  }

  lemma DrainKeepsWrites(cfg: Config, d: Data, hand: Option<Item>)
    requires WriteInv(cfg, d, hand) && d.pendingWrites != []
    ensures WriteInv(cfg, CloseData(d, Drain), hand)
  {
    var d' := CloseData(d, Drain);
    QueuedAfterPop(d.pendingWrites);
    forall f | 0 <= f < |d.futs|
      ensures InFlight(d', hand, f) == (InFlight(d, hand, f) && f != d.pendingWrites[0].fut)
    {
      assert Queued(d.pendingWrites, d.pendingWrites[0].fut);
    }
  }

  lemma HeartbeatKeepsWrites(cfg: Config, d: Data)
    requires cfg.Valid() && WriteInv(cfg, d, None) && d.pendingWrites == [] && |d.heartbeats| < MAX_HEARTBEATS
    ensures WriteInv(cfg, Enqueue(d, HeartbeatFuture(d.nextId))
                            .(heartbeats := L.Set(d.heartbeats, MAX_HEARTBEATS, d.nextId, |d.futs|)), None)
  {
    var d' := Enqueue(d, HeartbeatFuture(d.nextId)).(heartbeats := L.Set(d.heartbeats, MAX_HEARTBEATS, d.nextId, |d.futs|));
    assert d'.heartbeats == [L.Slot(d.nextId, |d.futs|)] + d.heartbeats;
    HeartbeatsInjective(d);
    forall f: nat ensures Holds(d'.heartbeats, f) <==> f == |d.futs| || Holds(d.heartbeats, f) {
      HoldsAfterSet(d.heartbeats, MAX_HEARTBEATS, d.nextId, |d.futs|, f);
    }
    QueuedAfterPush(d.pendingWrites, Item(d.nextId, |d.futs|));
    forall f | 0 <= f < |d.futs| ensures InFlight(d', None, f) == InFlight(d, None, f) {}
    assert InFlight(d', None, |d.futs|);
  }

  lemma HeartbeatsInjective(d: Data)
    requires HeartbeatsOk(d)
    ensures Injective(d.heartbeats)
  {
  }

  /** The reader resolves a heartbeat by its response. */
  lemma AnswerKeepsWrites(cfg: Config, d: Data, hand: Option<Item>, id: nat, o: Outcome)
    requires WriteInv(cfg, d, hand) && L.Has(d.heartbeats, id)
    ensures WriteInv(cfg, d.(futs := Resolve(d.futs, L.Lookup(d.heartbeats, id).value, o),
                             heartbeats := L.Del(d.heartbeats, id)), hand)
  {
    var g := L.Lookup(d.heartbeats, id).value;
    var d' := d.(futs := Resolve(d.futs, g, o), heartbeats := L.Del(d.heartbeats, id));
    HeartbeatsInjective(d);
    DelShape(d.heartbeats, id);
    forall f: nat ensures Holds(d'.heartbeats, f) <==> Holds(d.heartbeats, f) && f != g {
      HoldsAfterDel(d.heartbeats, id, f);
    }
    assert d.heartbeats[L.Find(d.heartbeats, id)].value == g;
    forall f | 0 <= f < |d.futs| ensures InFlight(d', hand, f) == InFlight(d, hand, f) {}
  }

  /** Steps that only touch read futures and the tables of reads. */
  lemma OtherFuturesKeepWrites(cfg: Config, d: Data, d': Data, hand: Option<Item>)
    requires WriteInv(cfg, d, hand)
    requires d'.pendingWrites == d.pendingWrites && d'.heartbeats == d.heartbeats && d'.nextId >= d.nextId
    requires d'.skipped == d.skipped
    requires |d'.futs| >= |d.futs|
    requires forall f :: 0 <= f < |d.futs| ==> d'.futs[f].kind == d.futs[f].kind
    requires forall f :: 0 <= f < |d.futs| && !d.futs[f].kind.ReadFuture? ==> d'.futs[f] == d.futs[f]
    requires forall f :: |d.futs| <= f < |d'.futs| ==> d'.futs[f].kind.ReadFuture?
    ensures WriteInv(cfg, d', hand)
  {
    forall f: nat ensures InFlight(d', hand, f) == InFlight(d, hand, f) {}
  }

  // ---- Read futures -----------------------------------------------------------------

  ghost predicate PendingOk(cfg: Config, d: Data) {
    && L.Distinct(d.pendingReads)
    && |d.pendingReads| <= cfg.maxReads
    && (forall i :: 0 <= i < |d.pendingReads| ==>
          && d.pendingReads[i].value < |d.futs|
          && d.futs[d.pendingReads[i].value].kind == ReadFuture(d.pendingReads[i].key))
  }

  ghost predicate PoolOk(cfg: Config, d: Data) {
    && L.Distinct(d.pool)
    && |d.pool| <= cfg.maxPool
    && (forall i :: 0 <= i < |d.pool| ==>
          && d.pool[i].value.fut < |d.futs|
          && d.futs[d.pool[i].value.fut] == Future(ReadFuture(d.pool[i].key), [Body(d.pool[i].value.buff)]))
  }

  /** An id is never both awaited and pooled. */
  ghost predicate Disjoint(d: Data) {
    forall i, j :: 0 <= i < |d.pool| && 0 <= j < |d.pendingReads| ==> d.pool[i].key != d.pendingReads[j].key
  }

  /** A read future is resolved once when it leaves the table, and once per sweep while it stays. */
  ghost predicate ReadCounts(d: Data, swept: nat) {
    forall f :: 0 <= f < |d.futs| && d.futs[f].kind.ReadFuture? ==>
      |d.futs[f].outcomes| == if Holds(d.pendingReads, f) then swept else 1
  }

  ghost predicate ReadInv(cfg: Config, d: Data, swept: nat) {
    PendingOk(cfg, d) && PoolOk(cfg, d) && Disjoint(d) && ReadCounts(d, swept)
  }

  lemma PendingInjective(cfg: Config, d: Data)
    requires PendingOk(cfg, d)
    ensures Injective(d.pendingReads)
  {
  }

  /** A future with a response in the pool is not awaited. */
  lemma PooledNotPending(cfg: Config, d: Data, i: nat)
    requires PendingOk(cfg, d) && PoolOk(cfg, d) && Disjoint(d) && i < |d.pool|
    ensures !Holds(d.pendingReads, d.pool[i].value.fut)
  {
  }

  /** Steps that leave the tables of reads and all read futures alone. */
  lemma OtherFuturesKeepReads(cfg: Config, d: Data, d': Data, swept: nat)
    requires ReadInv(cfg, d, swept)
    requires d'.pendingReads == d.pendingReads && d'.pool == d.pool && |d'.futs| >= |d.futs|
    requires forall f :: 0 <= f < |d.futs| ==> d'.futs[f].kind == d.futs[f].kind
    requires forall f :: 0 <= f < |d.futs| && d.futs[f].kind.ReadFuture? ==> d'.futs[f] == d.futs[f]
    requires forall f :: |d.futs| <= f < |d'.futs| ==> !d'.futs[f].kind.ReadFuture?
    ensures ReadInv(cfg, d', swept)
  {
  }

  /** read(id) finds the response in the pool. */
  lemma PoolHitKeepsReads(cfg: Config, d: Data, id: nat, swept: nat)
    requires ReadInv(cfg, d, swept) && L.Has(d.pool, id)
    ensures ReadInv(cfg, d.(pool := L.Del(d.pool, id)), swept)
    ensures var f := L.Lookup(d.pool, id).value.fut; f < |d.futs| && d.futs[f].kind == ReadFuture(id)
  {
    DelShape(d.pool, id);
    SubPoolOk(cfg, d, L.Del(d.pool, id));
  }

  lemma SubPoolOk(cfg: Config, d: Data, pool: L.Recency<nat, Pooled>)
    requires PoolOk(cfg, d) && Disjoint(d) && L.Distinct(pool) && Within(pool, d.pool) && |pool| <= |d.pool|
    ensures PoolOk(cfg, d.(pool := pool)) && Disjoint(d.(pool := pool))
  {
    forall i | 0 <= i < |pool| ensures exists j :: 0 <= j < |d.pool| && d.pool[j] == pool[i] {
      assert pool[i] in d.pool;
    }
  }

  /** read(id) finds the id awaited already. */
  lemma PendingHitKeepsReads(cfg: Config, d: Data, id: nat, swept: nat)
    requires ReadInv(cfg, d, swept) && L.Has(d.pendingReads, id)
    ensures ReadInv(cfg, d.(pendingReads := L.Get(d.pendingReads, id)), swept)
    ensures var f := L.Lookup(d.pendingReads, id).value; f < |d.futs| && d.futs[f].kind == ReadFuture(id)
  {
    var d' := d.(pendingReads := L.Get(d.pendingReads, id));
    GetShape(d.pendingReads, id);
    SubPendingOk(cfg, d, d'.pendingReads);
    forall f: nat ensures Holds(d'.pendingReads, f) == Holds(d.pendingReads, f) {
      HoldsAfterGet(d.pendingReads, id, f);
    }
  }

  lemma SubPendingOk(cfg: Config, d: Data, t: L.Recency<nat, nat>)
    requires PendingOk(cfg, d) && Disjoint(d) && L.Distinct(t) && Within(t, d.pendingReads) && |t| <= |d.pendingReads|
    ensures PendingOk(cfg, d.(pendingReads := t)) && Disjoint(d.(pendingReads := t))
  {
    forall i | 0 <= i < |t| ensures exists j :: 0 <= j < |d.pendingReads| && d.pendingReads[j] == t[i] {
      assert t[i] in d.pendingReads;
    }
  }

  /** read(id) registers a new future, failing the one it pushes out of a full table. */
  lemma RegisterKeepsReads(cfg: Config, d: Data, id: nat)
    requires cfg.Valid() && ReadInv(cfg, d, 0) && !L.Has(d.pool, id) && !L.Has(d.pendingReads, id)
    ensures ReadInv(cfg, ServeRead(cfg, d, id).0, 0)
  {
    var c, g := d.pendingReads, |d.futs|;
    var d' := ServeRead(cfg, d, id).0;
    PendingInjective(cfg, d);
    SetShape(c, cfg.maxReads, id, g);
    L.HasMeans(d.pool, id);
    forall f: nat
      ensures Holds(d'.pendingReads, f) <==>
        f == g || (Holds(c, f) && (L.Victim(c, cfg.maxReads).Some? ==> f != L.Victim(c, cfg.maxReads).value.value))
    {
      HoldsAfterSet(c, cfg.maxReads, id, g, f);
    }
    if L.Victim(c, cfg.maxReads).Some? {
      assert Holds(c, c[|c| - 1].value);
    }
    RegisterKeepsCounts(cfg, d, id);
  }

  lemma RegisterKeepsCounts(cfg: Config, d: Data, id: nat)
    requires cfg.Valid() && ReadInv(cfg, d, 0) && !L.Has(d.pool, id) && !L.Has(d.pendingReads, id)
    ensures ReadCounts(ServeRead(cfg, d, id).0, 0)
  {
    var c, g := d.pendingReads, |d.futs|;
    var d' := ServeRead(cfg, d, id).0;
    PendingInjective(cfg, d);
    forall f | 0 <= f < |d'.futs| && d'.futs[f].kind.ReadFuture?
      ensures |d'.futs[f].outcomes| == if Holds(d'.pendingReads, f) then 0 else 1
    {
      HoldsAfterSet(c, cfg.maxReads, id, g, f);
      if L.Victim(c, cfg.maxReads).Some? {
        assert Holds(c, c[|c| - 1].value);
      }
    }
  }

  /** The reader resolves an awaited future. */
  lemma DeliverKeepsReads(cfg: Config, d: Data, m: Msg)
    requires cfg.Valid() && ReadInv(cfg, d, 0) && L.Has(d.pendingReads, m.id)
    ensures ReadInv(cfg, DeliverData(cfg, d, m), 0)
  {
    var g := L.Lookup(d.pendingReads, m.id).value;
    var d' := DeliverData(cfg, d, m);
    PendingInjective(cfg, d);
    DelShape(d.pendingReads, m.id);
    SubPendingOk(cfg, d, d'.pendingReads);
    assert d.pendingReads[L.Find(d.pendingReads, m.id)].value == g;
    forall f: nat ensures Holds(d'.pendingReads, f) <==> Holds(d.pendingReads, f) && f != g {
      HoldsAfterDel(d.pendingReads, m.id, f);
    }
    forall i: nat | i < |d.pool| ensures d.pool[i].value.fut != g {
      PooledNotPending(cfg, d, i);
    }
  }

  /** The reader pools a response nobody awaits. */
  lemma PoolingKeepsReads(cfg: Config, d: Data, m: Msg, swept: nat)
    requires cfg.Valid() && ReadInv(cfg, d, swept) && !L.Has(d.pendingReads, m.id)
    ensures ReadInv(cfg, DeliverData(cfg, d, m), swept)
  {
    var d' := DeliverData(cfg, d, m);
    L.HasMeans(d.pendingReads, m.id);
    L.ApplyKeeps(d.pool, cfg.maxPool, L.SetOp(m.id, Pooled(|d.futs|, m.buff)));
    assert d'.pool == L.Apply(d.pool, cfg.maxPool, L.SetOp(m.id, Pooled(|d.futs|, m.buff)));
    SetWithin(d.pool, cfg.maxPool, m.id, Pooled(|d.futs|, m.buff));
    forall i | 1 <= i < |d'.pool| ensures exists j :: 0 <= j < |d.pool| && d.pool[j] == d'.pool[i] {
      assert d'.pool[i] in d.pool;
    }
  }

  lemma SetWithin<K, V>(c: L.Recency<K, V>, max: nat, k: K, v: V)
    requires max >= 1
    ensures var e := L.Set(c, max, k, v); |e| > 0 && e[0] == L.Slot(k, v) && forall i :: 1 <= i < |e| ==> e[i] in c
  {
    var e := L.Set(c, max, k, v);
    forall i | 1 <= i < |e| ensures e[i] in c {
      if L.Has(c, k) {
        var p := L.Find(c, k);
        assert e[i] == c[if i - 1 < p then i - 1 else i];
      } else {
        assert e[i] == c[i - 1];
      }
    }
  }

  /** _close_read's sweep. */
  lemma SweepKeepsReads(cfg: Config, d: Data, swept: nat)
    requires ReadInv(cfg, d, swept)
    ensures ReadInv(cfg, CloseData(d, Sweep), swept + 1)
  {
    forall i: nat | i < |d.pool| ensures !Holds(d.pendingReads, d.pool[i].value.fut) {
      PooledNotPending(cfg, d, i);
    }
  }

  // ---- Where bodies come from -------------------------------------------------------

  /** Every body a read or heartbeat future for an id was given was received under that id. */
  ghost predicate BodiesReceived(futs: seq<Future>, received: multiset<Msg>) {
    forall f, b :: 0 <= f < |futs| && Body(b) in futs[f].outcomes ==>
      !futs[f].kind.WriteFuture? && Msg(futs[f].kind.id, b) in received
  }

  lemma ResolveKeepsBodies(futs: seq<Future>, f: nat, o: Outcome, received: multiset<Msg>)
    requires BodiesReceived(futs, received)
    requires o.Body? && f < |futs| ==> !futs[f].kind.WriteFuture? && Msg(futs[f].kind.id, o.buff) in received
    ensures BodiesReceived(Resolve(futs, f, o), received)
  {
  }

  lemma FailAllKeepsBodies(futs: seq<Future>, t: L.Recency<nat, nat>, received: multiset<Msg>)
    requires BodiesReceived(futs, received)
    ensures BodiesReceived(FailAll(futs, t), received)
  {
  }
}
