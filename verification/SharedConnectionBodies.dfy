/**
  What the futures of a SharedConnection hold, counted: the bodies in read futures are those handed to
  pending reads and those that went to the pool, the bodies in heartbeat futures those the reader routed
  to heartbeats, each exactly as often as it was received.
 */
module SharedConnectionBodies {
  import opened Wrappers
  import opened SharedConnection
  import opened SharedConnectionFutures
  import opened SharedConnectionTables
  import L = LruSpec

  // ---- Counting ---------------------------------------------------------------------

  /** The bodies among the outcomes of a future for id. */
  ghost function BodiesIn(id: nat, outcomes: seq<Outcome>): multiset<Msg> {
    if outcomes == [] then multiset{}
    else
      var last := outcomes[|outcomes| - 1];
      BodiesIn(id, outcomes[..|outcomes| - 1]) + if last.Body? then multiset{Msg(id, last.buff)} else multiset{}
  }

  /** The bodies held by all heartbeat futures, or by all others. */
  ghost function Bodies(futs: seq<Future>, heartbeats: bool): multiset<Msg> {
    if futs == [] then multiset{}
    else
      var last := futs[|futs| - 1];
      Bodies(futs[..|futs| - 1], heartbeats)
        + if last.kind.HeartbeatFuture? == heartbeats then BodiesIn(last.kind.id, last.outcomes) else multiset{}
  }

  lemma OneMoreOutcome(id: nat, outcomes: seq<Outcome>, o: Outcome)
    ensures BodiesIn(id, outcomes + [o]) == BodiesIn(id, outcomes) + if o.Body? then multiset{Msg(id, o.buff)} else multiset{}
  {
    assert (outcomes + [o])[..|outcomes|] == outcomes;
  }

  lemma BodiesAppend(futs: seq<Future>, f: Future, heartbeats: bool)
    ensures Bodies(futs + [f], heartbeats) == Bodies(futs, heartbeats)
      + if f.kind.HeartbeatFuture? == heartbeats then BodiesIn(f.kind.id, f.outcomes) else multiset{}
  {
    assert (futs + [f])[..|futs|] == futs;
  }

  /** What one resolution adds. */
  ghost function Gain(f: Future, o: Outcome, heartbeats: bool): multiset<Msg> {
    if o.Body? && f.kind.HeartbeatFuture? == heartbeats then multiset{Msg(f.kind.id, o.buff)} else multiset{}
  }

  lemma {:induction false} BodiesResolve(futs: seq<Future>, f: nat, o: Outcome, heartbeats: bool)
    requires f < |futs|
    ensures Bodies(Resolve(futs, f, o), heartbeats) == Bodies(futs, heartbeats) + Gain(futs[f], o, heartbeats)
    decreases |futs|
  {
    var n := |futs| - 1;
    var futs' := Resolve(futs, f, o);
    if f == n {
      assert futs'[..n] == futs[..n];
      OneMoreOutcome(futs[n].kind.id, futs[n].outcomes, o);
    } else {
      BodiesResolve(futs[..n], f, o, heartbeats);
      assert futs'[..n] == Resolve(futs[..n], f, o);
    }
  }

  lemma {:induction false} BodiesFailAll(futs: seq<Future>, t: L.Recency<nat, nat>, heartbeats: bool)
    ensures Bodies(FailAll(futs, t), heartbeats) == Bodies(futs, heartbeats)
    decreases |futs|
  {
    if futs != [] {
      var n := |futs| - 1;
      BodiesFailAll(futs[..n], t, heartbeats);
      assert FailAll(futs, t)[..n] == FailAll(futs[..n], t);
      OneMoreOutcome(futs[n].kind.id, futs[n].outcomes, ReadAbort);
    }
  }

  // ---- The pool ---------------------------------------------------------------------

  lemma {:induction false} PoolMsgsSplit(c: L.Recency<nat, Pooled>, i: nat)
    requires i < |c|
    ensures PoolMsgs(c) == PoolMsgs(L.DropAt(c, i)) + multiset{Msg(c[i].key, c[i].value.buff)}
  {
    var d := L.DropAt(c, i);
    if i == 0 {
      assert d == c[1..];
    } else {
      PoolMsgsSplit(c[1..], i - 1);
      assert d[1..] == L.DropAt(c[1..], i - 1);
      assert d[0] == c[0];
    }
  }

  lemma PoolMsgsInFront(pool: L.Recency<nat, Pooled>, slot: L.Slot<nat, Pooled>)
    ensures PoolMsgs([slot] + pool) == multiset{Msg(slot.key, slot.value.buff)} + PoolMsgs(pool)
  {
    assert ([slot] + pool)[1..] == pool;
  }

  lemma PoolMsgsAfterSet(cfg: Config, pool: L.Recency<nat, Pooled>, id: nat, v: Pooled)
    requires cfg.Valid() && |pool| <= cfg.maxPool
    ensures PoolMsgs(L.Set(pool, cfg.maxPool, id, v)) + Displaced(cfg, pool, id)
         == PoolMsgs(pool) + multiset{Msg(id, v.buff)}
  {
    var slot := L.Slot(id, v);
    if L.Has(pool, id) {
      PoolMsgsSplit(pool, L.Find(pool, id));
      PoolMsgsInFront(L.DropAt(pool, L.Find(pool, id)), slot);
    } else if |pool| >= cfg.maxPool {
      PoolMsgsSplit(pool, |pool| - 1);
      assert pool[..|pool| - 1] == L.DropAt(pool, |pool| - 1);
      PoolMsgsInFront(pool[..|pool| - 1], slot);
    } else {
      PoolMsgsInFront(pool, slot);
    }
  }

  // ---- The law ----------------------------------------------------------------------

  /** Bodies in read futures are in readers, in the pool, or were lost with the pool; the others in heartbeats. */
  ghost predicate BodyLaw(d: Data, m: Mail) {
    && Bodies(d.futs, false) == m.toReader + m.fromPool + m.overflowed + m.cleared + PoolMsgs(d.pool)
    && Bodies(d.futs, true) == m.toHeartbeat
  }

  /** No future is given a body, and nothing leaves or enters the pool. */
  ghost predicate NoNewBodies(d: Data, d': Data, m: Mail, m': Mail) {
    && (forall heartbeats :: Bodies(d'.futs, heartbeats) == Bodies(d.futs, heartbeats))
    && d'.pool == d.pool
    && m'.toReader == m.toReader && m'.fromPool == m.fromPool && m'.overflowed == m.overflowed
    && m'.cleared == m.cleared && m'.toHeartbeat == m.toHeartbeat
  }

  /** Steps that neither touch the pool nor give a future a body. */
  lemma NoNewBodiesKeep(d: Data, d': Data, m: Mail, m': Mail)
    requires NoNewBodies(d, d', m, m') && BodyLaw(d, m)
    ensures BodyLaw(d', m')
  {
    assert Bodies(d'.futs, false) == Bodies(d.futs, false) && Bodies(d'.futs, true) == Bodies(d.futs, true);
  }

  lemma ResolvedWithoutBody(futs: seq<Future>, f: nat, o: Outcome)
    requires f < |futs| && !o.Body?
    ensures forall heartbeats :: Bodies(Resolve(futs, f, o), heartbeats) == Bodies(futs, heartbeats)
  {
    BodiesResolve(futs, f, o, true);
    BodiesResolve(futs, f, o, false);
  }

  lemma EnqueueHasNoBody(d: Data, kind: Kind)
    ensures forall heartbeats :: Bodies(Enqueue(d, kind).futs, heartbeats) == Bodies(d.futs, heartbeats)
  {
    BodiesAppend(d.futs, Future(kind, []), true);
    BodiesAppend(d.futs, Future(kind, []), false);
  }

  // ---- Step by step -----------------------------------------------------------------

  lemma CloseGivesNoBody(cfg: Config, d: Data, hand: Option<Item>, p: ClosePc)
    requires WriteInv(cfg, d, hand)
    ensures forall heartbeats :: Bodies(CloseData(d, p).futs, heartbeats) == Bodies(d.futs, heartbeats)
  {
    if p.Drain? && d.pendingWrites != [] {
      assert ItemOk(d, d.pendingWrites[0]);
      ResolvedWithoutBody(d.futs, d.pendingWrites[0].fut, WriteAbort);
    } else if p.Sweep? {
      BodiesFailAll(d.futs, d.pendingReads, true);
      BodiesFailAll(d.futs, d.pendingReads, false);
    }
  }

  lemma ClearingKeepsBodies(d: Data, m: Mail)
    requires BodyLaw(d, m)
    ensures BodyLaw(CloseData(d, ClearPool), CloseMail(m, d, ClearPool))
  {
    assert PoolMsgs([]) == multiset{};
  }

  lemma CloseElsewhere(d: Data, m: Mail, p: ClosePc)
    requires !p.ClearPool?
    ensures CloseMail(m, d, p) == m && CloseData(d, p).pool == d.pool
  {
  }

  lemma CloseKeepsBodies(cfg: Config, d: Data, m: Mail, hand: Option<Item>, p: ClosePc, d': Data, m': Mail)
    requires BodyLaw(d, m) && WriteInv(cfg, d, hand) && d' == CloseData(d, p) && m' == CloseMail(m, d, p)
    ensures BodyLaw(d', m')
  {
    if p.ClearPool? {
      ClearingKeepsBodies(d, m);
    } else {
      CloseElsewhere(d, m, p);
      CloseGivesNoBody(cfg, d, hand, p);
      NoNewBodiesKeep(d, d', m, m');
    }
  }

  lemma ServeKeepsBodies(cfg: Config, d: Data, m: Mail, id: nat)
    requires cfg.Valid() && BodyLaw(d, m) && PendingOk(cfg, d)
    ensures BodyLaw(ServeRead(cfg, d, id).0, m.(fromPool := m.fromPool + ServeRead(cfg, d, id).1))
  {
    if L.Has(d.pool, id) {
      PoolMsgsSplit(d.pool, L.Find(d.pool, id));
    } else if !L.Has(d.pendingReads, id) {
      RegisterHasNoBody(cfg, d, id);
      assert m.fromPool + multiset{} == m.fromPool;
    } else {
      assert m.fromPool + multiset{} == m.fromPool;
    }
  }

  lemma RegisterHasNoBody(cfg: Config, d: Data, id: nat)
    requires cfg.Valid() && PendingOk(cfg, d) && !L.Has(d.pool, id) && !L.Has(d.pendingReads, id)
    ensures forall heartbeats :: Bodies(ServeRead(cfg, d, id).0.futs, heartbeats) == Bodies(d.futs, heartbeats)
  {
    var futs := match L.Victim(d.pendingReads, cfg.maxReads)
      case None => d.futs
      case Some(slot) => Resolve(d.futs, slot.value, TooManyReads);
    if L.Victim(d.pendingReads, cfg.maxReads).Some? {
      ResolvedWithoutBody(d.futs, L.Victim(d.pendingReads, cfg.maxReads).value.value, TooManyReads);
    }
    BodiesAppend(futs, Future(ReadFuture(id), []), true);
    BodiesAppend(futs, Future(ReadFuture(id), []), false);
  }

  lemma DeliverKeepsBodies(cfg: Config, d: Data, m: Mail, msg: Msg)
    requires cfg.Valid() && BodyLaw(d, m) && PendingOk(cfg, d) && |d.pool| <= cfg.maxPool
    ensures BodyLaw(DeliverData(cfg, d, msg), DeliverMail(cfg, m, d, msg))
  {
    if L.Has(d.pendingReads, msg.id) {
      var i := L.Find(d.pendingReads, msg.id);
      assert d.futs[d.pendingReads[i].value].kind == ReadFuture(msg.id);
      BodiesResolve(d.futs, d.pendingReads[i].value, Body(msg.buff), true);
      BodiesResolve(d.futs, d.pendingReads[i].value, Body(msg.buff), false);
    } else {
      PooledBody(d.futs, msg);
      PoolMsgsAfterSet(cfg, d.pool, msg.id, Pooled(|d.futs|, msg.buff));
      PoolGrows(m.toReader + m.fromPool, m.overflowed, m.cleared, PoolMsgs(d.pool), multiset{msg},
        PoolMsgs(DeliverData(cfg, d, msg).pool), Displaced(cfg, d.pool, msg.id));
    }
  }

  lemma PooledBody(futs: seq<Future>, msg: Msg)
    ensures Bodies(futs + [Future(ReadFuture(msg.id), [Body(msg.buff)])], false) == Bodies(futs, false) + multiset{msg}
    ensures Bodies(futs + [Future(ReadFuture(msg.id), [Body(msg.buff)])], true) == Bodies(futs, true)
  {
    var f := Future(ReadFuture(msg.id), [Body(msg.buff)]);
    BodiesAppend(futs, f, true);
    BodiesAppend(futs, f, false);
    OneMoreOutcome(msg.id, [], Body(msg.buff));
    assert [] + [Body(msg.buff)] == [Body(msg.buff)];
  }

  lemma PoolGrows(taken: multiset<Msg>, overflowed: multiset<Msg>, cleared: multiset<Msg>, pool: multiset<Msg>,
      m: multiset<Msg>, pool': multiset<Msg>, lost: multiset<Msg>)
    requires pool' + lost == pool + m
    ensures taken + overflowed + cleared + pool + m == taken + (overflowed + lost) + cleared + pool'
  {
    forall x: Msg ensures pool'[x] + lost[x] == pool[x] + m[x] {
      assert (pool' + lost)[x] == (pool + m)[x];
    }
  }

  lemma AnswerKeepsBodies(d: Data, m: Mail, msg: Msg)
    requires BodyLaw(d, m) && HeartbeatsOk(d) && L.Has(d.heartbeats, msg.id)
    ensures BodyLaw(
      d.(futs := Resolve(d.futs, L.Lookup(d.heartbeats, msg.id).value, Body(msg.buff)), heartbeats := L.Del(d.heartbeats, msg.id)),
      m.(toHeartbeat := m.toHeartbeat + multiset{msg}))
  {
    var i := L.Find(d.heartbeats, msg.id);
    assert d.futs[d.heartbeats[i].value].kind == HeartbeatFuture(msg.id);
    BodiesResolve(d.futs, d.heartbeats[i].value, Body(msg.buff), true);
    BodiesResolve(d.futs, d.heartbeats[i].value, Body(msg.buff), false);
  }

  lemma WriteStepShape(cfg: Config, s: State, n: nat, p: WritePc, t: State)
    requires n in s.c && WriteStep(cfg, s, n, p) == Some(t)
    ensures t.mail == s.mail
    ensures || t.data == s.data
            || t.data == s.data.(nextId := s.data.nextId + 1)
            || t.data == Enqueue(s.data, WriteFuture(s.data.nextId))
  {
  }

  lemma WriteStepKeepsBodies(cfg: Config, s: State, n: nat, p: WritePc, t: State)
    requires n in s.c && WriteStep(cfg, s, n, p) == Some(t) && BodyLaw(s.data, s.mail)
    ensures BodyLaw(t.data, t.mail)
  {
    WriteStepShape(cfg, s, n, p, t);
    EnqueueHasNoBody(s.data, WriteFuture(s.data.nextId));
    NoNewBodiesKeep(s.data, t.data, s.mail, t.mail);
  }

  lemma ReadStepKeepsBodies(cfg: Config, s: State, n: nat, id: nat, p: ReadPc, t: State)
    requires cfg.Valid() && n in s.c && ReadStep(cfg, s, n, id, p) == Some(t)
    requires BodyLaw(s.data, s.mail) && PendingOk(cfg, s.data)
    ensures BodyLaw(t.data, t.mail)
  {
    if p.Serve? {
      ServeKeepsBodies(cfg, s.data, s.mail, id);
    }
  }

  lemma CheckStepKeepsBodies(cfg: Config, s: State, p: CheckPc, t: State)
    requires CheckStep(cfg, s, p) == Some(t)
    ensures NoNewBodies(s.data, t.data, s.mail, t.mail)
  {
    assert t.mail == s.mail && t.data.futs == s.data.futs && t.data.pool == s.data.pool;
  }

  lemma WaitStepKeepsBodies(cfg: Config, s: State, p: WaitPc, ch: Choice, t: State)
    requires WaitStep(cfg, s, p, ch) == Some(t)
    ensures NoNewBodies(s.data, t.data, s.mail, t.mail)
  {
    assert t.mail == s.mail && t.data.pool == s.data.pool;
    assert t.data.futs == s.data.futs || t.data.futs == Enqueue(s.data, HeartbeatFuture(s.data.nextId)).futs;
    EnqueueHasNoBody(s.data, HeartbeatFuture(s.data.nextId));
  }

  lemma SendStepKeepsBodies(s: State, p: SendPc, ch: Choice, t: State)
    requires SendStep(s, p, ch) == Some(t) && (p.Release? || p.item.fut < |s.data.futs|)
    ensures NoNewBodies(s.data, t.data, s.mail, t.mail)
  {
    assert t.mail == s.mail && t.data.pool == s.data.pool;
    if !p.Release? && t.data != s.data {
      var o := if p.TestExpired? || ch == SendTimeout then WriteTimeout else if ch == SendError then WriteAbort else Written;
      ResolvedWithoutBody(s.data.futs, p.item.fut, o);
    }
  }

  lemma WriterStepKeepsBodies(cfg: Config, s: State, ch: Choice, t: State)
    requires !s.w.WriterClosing? && WriterStep(cfg, s, ch) == Some(t)
    requires BodyLaw(s.data, s.mail) && WriteInv(cfg, s.data, Hand(s.w))
    ensures BodyLaw(t.data, t.mail)
  {
    match s.w {
      case Checking(p) => CheckStepKeepsBodies(cfg, s, p, t);
      case Waiting(p) => WaitStepKeepsBodies(cfg, s, p, ch, t);
      case Sending(p) => SendStepKeepsBodies(s, p, ch, t);
    }
    NoNewBodiesKeep(s.data, t.data, s.mail, t.mail);
  }

  lemma ListenStepKeepsBodies(s: State, p: ListenPc, ch: Choice, t: State)
    requires ListenStep(s, p, ch) == Some(t) && BodyLaw(s.data, s.mail)
    ensures BodyLaw(t.data, t.mail)
  {
  }

  lemma RouteStepKeepsBodies(cfg: Config, s: State, p: RoutePc, t: State)
    requires cfg.Valid() && RouteStep(cfg, s, p) == Some(t)
    requires BodyLaw(s.data, s.mail) && PendingOk(cfg, s.data) && |s.data.pool| <= cfg.maxPool && HeartbeatsOk(s.data)
    ensures BodyLaw(t.data, t.mail)
  {
    if p.Deliver? {
      DeliverKeepsBodies(cfg, s.data, s.mail, p.msg);
    } else if p.HLook? && L.Has(s.data.heartbeats, p.msg.id) {
      AnswerKeepsBodies(s.data, s.mail, p.msg);
    }
  }

  lemma ClientStepKeepsBodies(cfg: Config, s: State, n: nat, ch: Choice, t: State)
    requires cfg.Valid() && n in s.c && !s.c[n].ClientClosing? && ClientStep(cfg, s, n, ch) == Some(t)
    requires BodyLaw(s.data, s.mail) && PendingOk(cfg, s.data)
    ensures BodyLaw(t.data, t.mail)
  {
    match s.c[n] {
      case Idle => assert t.data == s.data && t.mail == s.mail;
      case Writing(p) => WriteStepKeepsBodies(cfg, s, n, p, t);
      case Reading(id, p) => ReadStepKeepsBodies(cfg, s, n, id, p, t);
    }
  }

  lemma ReaderStepKeepsBodies(cfg: Config, s: State, ch: Choice, t: State)
    requires cfg.Valid() && !s.r.ReaderClosing? && ReaderStep(cfg, s, ch) == Some(t)
    requires BodyLaw(s.data, s.mail) && PendingOk(cfg, s.data) && |s.data.pool| <= cfg.maxPool && HeartbeatsOk(s.data)
    ensures BodyLaw(t.data, t.mail)
  {
    match s.r {
      case Listening(p) => ListenStepKeepsBodies(s, p, ch, t);
      case Routing(p) => RouteStepKeepsBodies(cfg, s, p, t);
    }
  }

  lemma CloseStepKeepsBodies(cfg: Config, s: State, t: Tid, p: ClosePc)
    requires Exists(s, t) && CloseStep(s, t, p).Some? && BodyLaw(s.data, s.mail) && WriteInv(cfg, s.data, Hand(s.w))
    ensures BodyLaw(CloseStep(s, t, p).value.data, CloseStep(s, t, p).value.mail)
  {
    var s' := CloseStep(s, t, p).value;
    assert s'.data == CloseData(s.data, p) && s'.mail == CloseMail(s.mail, s.data, p);
    CloseKeepsBodies(cfg, s.data, s.mail, Hand(s.w), p, s'.data, s'.mail);
  }

  lemma StepKeepsBodies(cfg: Config, s: State, t: Tid, ch: Choice)
    requires cfg.Valid() && BodyLaw(s.data, s.mail) && TableInv(cfg, s) && Exists(s, t) && Step(cfg, s, t, ch).Some?
    ensures BodyLaw(Step(cfg, s, t, ch).value.data, Step(cfg, s, t, ch).value.mail)
  {
    var s' := Step(cfg, s, t, ch).value;
    if ClosePoint(s, t).Some? {
      CloseStepKeepsBodies(cfg, s, t, ClosePoint(s, t).value);
    } else {
      match t {
        case Client(n) => ClientStepKeepsBodies(cfg, s, n, ch, s');
        case Writer => WriterStepKeepsBodies(cfg, s, ch, s');
        case Reader => ReaderStepKeepsBodies(cfg, s, ch, s');
      }
    }
  }
}
