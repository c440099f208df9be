/**
  The main results about SharedConnection. Each holds of every state that any run from a fresh
  connection reaches, with any set of client threads and any behaviour of the peer.
 */
module SharedConnectionTheorems {
  import opened Wrappers
  import opened SharedConnection
  import opened SharedConnectionLocks
  import opened SharedConnectionGates
  import opened SharedConnectionFutures
  import opened SharedConnectionTables
  import opened SharedConnectionBodies
  import opened SharedConnectionParking
  import opened SharedConnectionRuns
  import L = LruSpec

  // ---- How often futures are resolved -----------------------------------------------

  ghost predicate ClientFuture(f: Future) {
    !f.kind.HeartbeatFuture?
  }

  ghost predicate AtMostOnce(s: State) {
    forall f :: 0 <= f < |s.data.futs| && ClientFuture(s.data.futs[f]) ==> |s.data.futs[f].outcomes| <= 1
  }

  /**
    No future that write or read hands out is resolved twice, except that a second pass of
    close()'s guard fails again whatever still sits in the table of pending reads.
   */
  lemma AtMostOnceExactly(cfg: Config, s: State)
    requires Reachable(cfg, s)
    ensures AtMostOnce(s) <==> s.sync.swept <= 1 || s.data.pendingReads == []
    ensures s.sync.swept <= s.sync.passed <= 2
    ensures forall f :: 0 <= f < |s.data.futs| ==> |s.data.futs[f].outcomes| <= 2
    ensures forall f :: 0 <= f < |s.data.futs| && s.data.futs[f].kind.WriteFuture? ==> |s.data.futs[f].outcomes| <= 1
  {
    ReachableInv(cfg, s);
    ReadOutcomes(cfg, s.data, s.sync.swept);
    WriteOutcomes(cfg, s.data, Hand(s.w));
  }

  lemma ReadOutcomes(cfg: Config, d: Data, swept: nat)
    requires ReadInv(cfg, d, swept) && swept <= 2
    ensures swept <= 1 || d.pendingReads == [] <==>
      forall f :: 0 <= f < |d.futs| && d.futs[f].kind.ReadFuture? ==> |d.futs[f].outcomes| <= 1
    ensures forall f :: 0 <= f < |d.futs| && d.futs[f].kind.ReadFuture? ==> |d.futs[f].outcomes| <= 2
  {
    if swept > 1 && d.pendingReads != [] {
      var f := d.pendingReads[0].value;
      assert Holds(d.pendingReads, f);
      assert |d.futs[f].outcomes| == 2;
    }
  }

  lemma WriteOutcomes(cfg: Config, d: Data, hand: Option<Item>)
    requires WriteInv(cfg, d, hand)
    ensures forall f :: 0 <= f < |d.futs| && d.futs[f].kind.WriteFuture? ==> |d.futs[f].outcomes| <= 1
    ensures forall f :: 0 <= f < |d.futs| && d.futs[f].kind.HeartbeatFuture? ==> |d.futs[f].outcomes| <= 2
  {
  }

  /**
    The guard is passed a second time exactly by a thread that read _closed unset, and then reads
    _closing unset after the first close() has set the one and cleared the other.
   */
  lemma SecondPassSeesClosed(cfg: Config, s: State, t: Tid, ch: Choice)
    requires Reachable(cfg, s) && Exists(s, t) && Step(cfg, s, t, ch).Some?
    requires Step(cfg, s, t, ch).value.sync.passed > s.sync.passed
    ensures ClosePoint(s, t) == Some(LockedClosing) && !s.sync.closing
    ensures Step(cfg, s, t, ch).value.sync.passed == s.sync.passed + 1
    ensures s.sync.closed <==> s.sync.passed == 1
  {
    ReachableInv(cfg, s);
    StepMoves(cfg, s, t, ch);
    if ClosePoint(s, t).Some? {
      StepOfCloser(cfg, s, t, ch);
      PassesOnlyAtGuard(s.sync, s.data, t, ClosePoint(s, t).value);
      assert InC(s, t);
      assert s.sync.closer.Some? ==> s.sync.closer.value != t && !InC(s, s.sync.closer.value);
    }
  }

  lemma PassesOnlyAtGuard(y: Sync, d: Data, t: Tid, p: ClosePc)
    requires CloseSync(y, d, t, p).Some? && CloseSync(y, d, t, p).value.0.passed != y.passed
    ensures p == LockedClosing && !y.closing && CloseSync(y, d, t, p).value.0.passed == y.passed + 1
  {
  }

  /**
    Once close() has returned and both threads have exited, a future that write or read created is
    resolved unless it is one of a write without a buffer that the writer popped: what was admitted
    before the flags were visible is caught by the drain, by the sweep or by the thread that had it in
    hand.
   */
  lemma EverythingResolvedAfterClose(cfg: Config, s: State)
    requires Reachable(cfg, s) && Finished(s)
    ensures forall f :: 0 <= f < |s.data.futs| && ClientFuture(s.data.futs[f]) ==>
      (|s.data.futs[f].outcomes| >= 1 <==> f !in s.data.skipped)
    ensures forall f :: f in s.data.skipped ==>
      f < |s.data.futs| && !s.data.futs[f].kind.ReadFuture? && cfg.noBuff(s.data.futs[f].kind.id)
    ensures s.data.pendingWrites == []
  {
    ReachableInv(cfg, s);
    if s.sync.wLock.Some? {
      var u := s.sync.wLock.value;
      assert ClosePoint(s, u) == Some(Drain) ==> s.sync.closer == Some(u);
    }
    forall f: nat | f < |s.data.futs| ensures !InFlight(s.data, Hand(s.w), f) {}
    ResolvedExactly(cfg, s.data, s.sync.swept);
  }

  ghost predicate Finished(s: State) {
    s.sync.closed && s.sync.closer == None && s.w == WriterExited && s.r == ReaderExited
  }

  lemma ResolvedExactly(cfg: Config, d: Data, swept: nat)
    requires WriteInv(cfg, d, None) && ReadInv(cfg, d, swept) && swept >= 1
    requires forall f: nat :: f < |d.futs| ==> !InFlight(d, None, f)
    ensures forall f :: 0 <= f < |d.futs| && ClientFuture(d.futs[f]) ==> (|d.futs[f].outcomes| >= 1 <==> f !in d.skipped)
  {
  }

  // ---- Where responses go -----------------------------------------------------------

  /** A read future for an id is only ever given a body that was received with that id. */
  lemma ResponsesReachTheirReaders(cfg: Config, s: State)
    requires Reachable(cfg, s)
    ensures forall f, b :: 0 <= f < |s.data.futs| && s.data.futs[f].kind.ReadFuture? && Body(b) in s.data.futs[f].outcomes
              ==> Msg(s.data.futs[f].kind.id, b) in s.mail.received
    ensures forall n, id: nat, f: nat :: n in s.c && s.c[n] == Reading(id, ReleaseServe(Some(f)))
              ==> f < |s.data.futs| && s.data.futs[f].kind == ReadFuture(id)
  {
    ReachableInv(cfg, s);
    forall n, id: nat, f: nat | n in s.c && s.c[n] == Reading(id, ReleaseServe(Some(f)))
      ensures f < |s.data.futs| && s.data.futs[f].kind == ReadFuture(id)
    {
      assert TicketOk(s.data.futs, s.c[n]);
    }
  }

  /**
    Every response received is held by exactly one future, is in the reader's hand, or was refused while
    closing: counted with their ids, the bodies of all read and heartbeat futures and those two make up
    what was received. The bodies of heartbeat futures are those routed to heartbeats; those of read
    futures went to pending reads, or to the pool and from there to a reader, over its edge or away
    with close().
   */
  lemma ResponsesConserved(cfg: Config, s: State)
    requires Reachable(cfg, s)
    ensures s.mail.received == Bodies(s.data.futs, false) + Bodies(s.data.futs, true) + CarriedMsgs(s.r) + s.mail.refused
    ensures Bodies(s.data.futs, true) == s.mail.toHeartbeat
    ensures Bodies(s.data.futs, false) ==
      s.mail.toReader + s.mail.fromPool + s.mail.overflowed + s.mail.cleared + PoolMsgs(s.data.pool)
  {
    ReachableInv(cfg, s);
  }

  /** An id is never both awaited and pooled, and all tables keep their bounds. */
  lemma TablesKeepTheirBounds(cfg: Config, s: State)
    requires Reachable(cfg, s)
    ensures forall i, j :: 0 <= i < |s.data.pool| && 0 <= j < |s.data.pendingReads|
              ==> s.data.pool[i].key != s.data.pendingReads[j].key
    ensures |s.data.pendingReads| <= cfg.maxReads && |s.data.pool| <= cfg.maxPool
    ensures |s.data.pendingWrites| <= cfg.maxWrites
  {
    ReachableInv(cfg, s);
  }

  /** The heartbeat table never displaces an entry: a heartbeat is inserted under a fresh id and with room. */
  lemma HeartbeatsNeverEvicted(cfg: Config, s: State, t: Tid, ch: Choice)
    requires Reachable(cfg, s) && Exists(s, t) && Step(cfg, s, t, ch).Some?
    ensures var s' := Step(cfg, s, t, ch).value;
      && |s'.data.heartbeats| <= MAX_HEARTBEATS
      && forall k :: L.Has(s.data.heartbeats, k) && !L.Has(s'.data.heartbeats, k) ==>
           s.r.Routing? && s.r.rt.HLook? && s.r.rt.msg.id == k && t == Reader
  {
    ReachableInv(cfg, s);
    var s' := Step(cfg, s, t, ch).value;
    StepKeepsInv(cfg, s, t, ch);
    if s'.data.heartbeats != s.data.heartbeats {
      HeartbeatsChange(cfg, s, t, ch);
      var c := s.data.heartbeats;
      forall k: nat | L.Has(c, k) && !(t == Reader && s.r.Routing? && s.r.rt.HLook? && s.r.rt.msg.id == k)
        ensures L.Has(s'.data.heartbeats, k)
      {
        if t == Writer {
          assert c[L.Find(c, k)].key != s.data.nextId;
          L.HasMeans(c, s.data.nextId);
          L.DisplacedIsLast(c, MAX_HEARTBEATS, k, s.data.nextId, |s.data.futs|);
        } else {
          DelKeepsOthers(c, s.r.rt.msg.id, k);
        }
      }
    }
  }

  lemma HeartbeatsChange(cfg: Config, s: State, t: Tid, ch: Choice)
    requires cfg.Valid() && Exists(s, t) && Step(cfg, s, t, ch).Some?
    requires Step(cfg, s, t, ch).value.data.heartbeats != s.data.heartbeats
    ensures
      || (t == Writer && s.w == Waiting(Heartbeat) && |s.data.heartbeats| < MAX_HEARTBEATS
          && Step(cfg, s, t, ch).value.data.heartbeats == L.Set(s.data.heartbeats, MAX_HEARTBEATS, s.data.nextId, |s.data.futs|))
      || (t == Reader && s.r.Routing? && s.r.rt.HLook? && L.Has(s.data.heartbeats, s.r.rt.msg.id)
          && Step(cfg, s, t, ch).value.data.heartbeats == L.Del(s.data.heartbeats, s.r.rt.msg.id))
  {
  }

  // ---- No lost wake-up, no deadlock -------------------------------------------------

  /**
    A parked and un-notified thread has nothing to do, or its notification is owed: by the owner of the
    lock, or for an outstanding heartbeat by the writer on its way to the read lock. With the lock free
    there is nothing to do for certain, and after close() nobody is parked.
   */
  lemma NoLostWakeUp(cfg: Config, s: State)
    requires Reachable(cfg, s)
    ensures s.w == Waiting(Parked(false)) ==> (s.data.pendingWrites == [] && s.sync.drained == 0) || WriterNoticeOwed(s)
    ensures s.r == Listening(ReaderParked(false)) ==>
      && ((s.data.pendingReads == [] && s.sync.swept == 0) || ReaderNoticeOwed(s))
      && (s.data.heartbeats != [] ==> HeartbeatNoticeOwed(s.w))
    ensures s.w == Waiting(Parked(false)) && s.sync.wLock == None ==> s.data.pendingWrites == [] && s.sync.drained == 0
    ensures s.r == Listening(ReaderParked(false)) && s.sync.rLock == None ==> s.data.pendingReads == [] && s.sync.swept == 0
    ensures s.sync.closed && s.sync.closer == None ==>
      s.w != Waiting(Parked(false)) && s.r != Listening(ReaderParked(false))
  {
    ReachableInv(cfg, s);
    if s.sync.wLock.Some? {
      assert Owns(s, s.sync.wLock.value);
    }
    if s.sync.rLock.Some? {
      assert Owns(s, s.sync.rLock.value);
    }
  }

  /** Steps of the owner of the write lock until it has notified the writer. */
  ghost function WriterNoticeIn(s: State): nat
    requires WriterNoticeOwed(s)
  {
    if ClosePoint(s, s.sync.wLock.value) == Some(Drain) then |s.data.pendingWrites| + 2 else 1
  }

  ghost function ReaderNoticeIn(s: State): nat
    requires ReaderNoticeOwed(s)
  {
    if ClosePoint(s, s.sync.rLock.value) == Some(ClearPool) then 2 else 1
  }

  /** Steps of the writer until it has notified the reader of a heartbeat. */
  ghost function HeartbeatNoticeIn(w: WriterPc): nat
    requires HeartbeatNoticeOwed(w)
  {
    match w
    case Waiting(_) => 5
    case Sending(_) => 4
    case Checking(Start(_, _)) => 3
    case Checking(CheckWantR) => 2
    case _ => 1
  }

  /** The thread that owes the writer its notification can move, and gives it or comes nearer to it. */
  lemma WriterNoticeComes(cfg: Config, s: State, ch: Choice)
    requires Reachable(cfg, s) && WriterNoticeOwed(s) && s.w == Waiting(Parked(false))
    ensures Step(cfg, s, s.sync.wLock.value, ch).Some?
    ensures var s' := Step(cfg, s, s.sync.wLock.value, ch).value;
      s'.w == Waiting(Parked(true)) || (WriterNoticeOwed(s') && WriterNoticeIn(s') < WriterNoticeIn(s))
  {
  }

  lemma ReaderNoticeComes(cfg: Config, s: State, ch: Choice)
    requires Reachable(cfg, s) && ReaderNoticeOwed(s) && s.r == Listening(ReaderParked(false))
    ensures Step(cfg, s, s.sync.rLock.value, ch).Some?
    ensures var s' := Step(cfg, s, s.sync.rLock.value, ch).value;
      s'.r == Listening(ReaderParked(true)) || (ReaderNoticeOwed(s') && ReaderNoticeIn(s') < ReaderNoticeIn(s))
  {
  }

  lemma HeartbeatNoticeNears(cfg: Config, s: State, ch: Choice)
    requires cfg.Valid() && CarriesOne(s.w) && HeartbeatNoticeOwed(s.w) && s.r == Listening(ReaderParked(false))
    ensures Step(cfg, s, Writer, ch).None? ==> s.w == Checking(CheckWantR) && s.sync.rLock.Some?
    ensures Step(cfg, s, Writer, ch).Some? ==>
      var s' := Step(cfg, s, Writer, ch).value;
      s'.r == Listening(ReaderParked(true)) || (HeartbeatNoticeOwed(s'.w) && HeartbeatNoticeIn(s'.w) < HeartbeatNoticeIn(s.w))
  {
    match s.w {
      case Checking(p) => assert WriterStep(cfg, s, ch) == CheckStep(cfg, s, p);
      case Waiting(p) => assert WriterStep(cfg, s, ch) == WaitStep(cfg, s, p, ch);
      case Sending(p) => assert WriterStep(cfg, s, ch) == SendStep(s, p, ch);
    }
  }

  /** The writer brings a heartbeat's notification to the reader, waiting at most for the read lock. */
  lemma HeartbeatNoticeComes(cfg: Config, s: State, ch: Choice)
    requires Reachable(cfg, s) && HeartbeatNoticeOwed(s.w) && s.r == Listening(ReaderParked(false))
    ensures Step(cfg, s, Writer, ch).None? ==> s.w == Checking(CheckWantR) && s.sync.rLock.Some?
    ensures Step(cfg, s, Writer, ch).Some? ==>
      var s' := Step(cfg, s, Writer, ch).value;
      s'.r == Listening(ReaderParked(true)) || (HeartbeatNoticeOwed(s'.w) && HeartbeatNoticeIn(s'.w) < HeartbeatNoticeIn(s.w))
  {
    ReachableInv(cfg, s);
    HeartbeatNoticeNears(cfg, s, ch);
  }

  ghost predicate CanMove(cfg: Config, s: State, t: Tid)
    requires cfg.Valid() && Exists(s, t)
  {
    exists ch :: Step(cfg, s, t, ch).Some?
  }

  /** Exited, or parked without a notification: not expected to move by itself. */
  ghost predicate Resting(s: State, t: Tid) {
    match t
    case Writer => s.w == WriterExited || s.w == Waiting(Parked(false))
    case Reader => s.r == ReaderExited || s.r == Listening(ReaderParked(false))
    case Client(_) => false
  }

  /** The lock a thread is about to take. */
  ghost predicate WantsW(s: State, t: Tid)
    requires Exists(s, t)
  {
    match t
    case Client(n) => s.c[n] == Writing(WantW) || s.c[n] == ClientClosing(CloseWantW)
    case Writer => s.w == Checking(CheckWantW) || s.w == Waiting(WokenWantW) || s.w == WriterClosing(CloseWantW)
    case Reader => s.r == ReaderClosing(CloseWantW)
  }

  ghost predicate WantsR(s: State, t: Tid)
    requires Exists(s, t)
  {
    match t
    case Client(n) => (s.c[n].Reading? && s.c[n].rpc.WantR?) || s.c[n] == ClientClosing(CloseWantR)
    case Writer => s.w == Checking(CheckWantR) || s.w == WriterClosing(CloseWantR)
    case Reader =>
      match s.r
      case Listening(p) => p.ListenWantR? || p.WokenWantR?
      case Routing(p) => p.RouteWantR?
      case ReaderClosing(p) => p.CloseWantR?
      case ReaderExited => false
  }

  ghost predicate WantsH(s: State, t: Tid) {
    match t
    case Client(_) => false
    case Writer => s.w == Waiting(Consider)
    case Reader => s.r == Listening(WantH) || (s.r.Routing? && s.r.rt.RouteWantH?)
  }

  ghost predicate WantsC(s: State, t: Tid)
    requires Exists(s, t)
  {
    ClosePoint(s, t) == Some(WantC)
  }

  ghost predicate WaitsFor(s: State, t: Tid, u: Tid)
    requires Exists(s, t)
  {
    || (WantsW(s, t) && s.sync.wLock == Some(u))
    || (WantsR(s, t) && s.sync.rLock == Some(u))
    || (WantsH(s, t) && s.sync.hLock == Some(u))
    || (WantsC(s, t) && s.sync.cLock == Some(u))
  }

  lemma MovesOrWaits(cfg: Config, s: State, t: Tid)
    requires cfg.Valid() && Exists(s, t) && !Resting(s, t)
    ensures CanMove(cfg, s, t) || exists u :: WaitsFor(s, t, u)
  {
    var ch := match t
      case Client(_) => CallWrite
      case Writer => Plain
      case Reader => ReceiveError;
    if !Step(cfg, s, t, ch).Some? {
      var lock :=
        if WantsW(s, t) then s.sync.wLock
        else if WantsR(s, t) then s.sync.rLock
        else if WantsH(s, t) then s.sync.hLock
        else s.sync.cLock;
      OnlyLocksBlock(cfg, s, t, ch);
      assert WaitsFor(s, t, lock.value);
    }
  }

  lemma OnlyLocksBlock(cfg: Config, s: State, t: Tid, ch: Choice)
    requires cfg.Valid() && Exists(s, t) && !Resting(s, t) && Step(cfg, s, t, ch) == None
    requires ch == match t case Client(_) => CallWrite case Writer => Plain case Reader => ReceiveError
    ensures (WantsW(s, t) && s.sync.wLock.Some?) || (WantsR(s, t) && s.sync.rLock.Some?)
         || (WantsH(s, t) && s.sync.hLock.Some?) || (WantsC(s, t) && s.sync.cLock.Some?)
  {
  }

  lemma InsideMeans(s: State, u: Tid)
    requires Exists(s, u)
    ensures InH(s, u) || InC(s, u) ==> !WantsW(s, u) && !WantsR(s, u) && !WantsH(s, u) && !WantsC(s, u) && !Resting(s, u)
    ensures InW(s, u) || InR(s, u) ==> !WantsW(s, u) && !WantsR(s, u) && !WantsC(s, u) && !Resting(s, u)
  {
  }

  /** Locks are ordered: the owner of the write or read lock waits at most for the heartbeat lock, its owner for none. */
  lemma LockOrder(cfg: Config, s: State, u: Tid)
    requires Reachable(cfg, s) && Exists(s, u)
    ensures s.sync.hLock == Some(u) || s.sync.cLock == Some(u) ==>
      !WantsW(s, u) && !WantsR(s, u) && !WantsH(s, u) && !WantsC(s, u) && !Resting(s, u)
    ensures s.sync.wLock == Some(u) || s.sync.rLock == Some(u) ==>
      !WantsW(s, u) && !WantsR(s, u) && !WantsC(s, u) && !Resting(s, u)
  {
    ReachableInv(cfg, s);
    assert Owns(s, u);
    InsideMeans(s, u);
  }

  /** Whoever cannot move waits, over at most two locks, for a thread that can: there is no deadlock. */
  lemma NoDeadlock(cfg: Config, s: State, t: Tid)
    requires Reachable(cfg, s) && Exists(s, t) && !Resting(s, t)
    ensures
      || CanMove(cfg, s, t)
      || (exists u :: WaitsFor(s, t, u) && Exists(s, u) && CanMove(cfg, s, u))
      || (exists u, v :: WaitsFor(s, t, u) && Exists(s, u) && WaitsFor(s, u, v) && Exists(s, v) && CanMove(cfg, s, v))
  {
    ReachableInv(cfg, s);
    MovesOrWaits(cfg, s, t);
    if !CanMove(cfg, s, t) {
      var u :| WaitsFor(s, t, u);
      LockOrder(cfg, s, u);
      MovesOrWaits(cfg, s, u);
      if !CanMove(cfg, s, u) {
        var v :| WaitsFor(s, u, v);
        assert s.sync.hLock == Some(v);
        LockOrder(cfg, s, v);
        MovesOrWaits(cfg, s, v);
        assert CanMove(cfg, s, v);
      }
    }
  }

  /**
    A connection that has come to rest has nothing left to do: when every client is between calls
    and neither thread can move without a timeout, nothing is queued, awaited or outstanding, or
    the threads have exited.
   */
  lemma RestMeansDone(cfg: Config, s: State)
    requires Reachable(cfg, s)
    requires forall n :: n in s.c ==> s.c[n] == Idle
    requires Step(cfg, s, Writer, Plain) == None && Step(cfg, s, Reader, ReceiveError) == None
    ensures s.w == WriterExited || (s.w == Waiting(Parked(false)) && s.data.pendingWrites == [])
    ensures s.r == ReaderExited ||
      (s.r == Listening(ReaderParked(false)) && s.data.pendingReads == [] && s.data.heartbeats == [])
  {
    ReachableInv(cfg, s);
    assert Owns(s, Writer) && Owns(s, Reader);
    forall n | n in s.c
      ensures s.sync.wLock != Some(Client(n)) && s.sync.rLock != Some(Client(n)) && s.sync.cLock != Some(Client(n))
    {
      assert Owns(s, Client(n));
    }
    InsideMeans(s, Writer);
    InsideMeans(s, Reader);
    if !Resting(s, Writer) {
      OnlyLocksBlock(cfg, s, Writer, Plain);
    }
    if !Resting(s, Reader) {
      OnlyLocksBlock(cfg, s, Reader, ReceiveError);
    }
  }
}
