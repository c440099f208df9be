/**
  The guard of close() really can be passed twice: a run of three clients after which one read
  future has been failed twice.
 */
module SharedConnectionRace {
  import opened Wrappers
  import opened SharedConnection
  import opened SharedConnectionRuns
  import opened SharedConnectionTheorems
  import L = LruSpec

  ghost predicate ClosingAt(s: State, c: map<nat, ClientPc>, n: nat, p: ClosePc) {
    s.c == c[n := ClientClosing(p)]
  }

  /** The state after one step of close() by client n that goes on to point q. */
  lemma Advance(cfg: Config, s: State, c: map<nat, ClientPc>, n: nat, p: ClosePc, y: Sync, q: ClosePc)
    returns (next: State)
    requires Reachable(cfg, s) && ClosingAt(s, c, n, p)
    requires CloseSync(s.sync, s.data, Client(n), p) == Some((y, Some(q)))
    ensures Reachable(cfg, next)
    ensures next.sync == y && next.data == CloseData(s.data, p) && ClosingAt(next, c, n, q)
    ensures next.w == (if p.NotifyW? then Wake(s.w) else s.w) && next.r == if p.NotifyR? then WakeReader(s.r) else s.r
  {
    ReachableStep(cfg, s, Client(n), Plain);
    next := ClientStep(cfg, s, n, Plain).value;
    assert next.c == c[n := ClientClosing(q)];
  }

  ghost predicate Quiet(s: State) {
    s.sync.wLock == None && s.sync.rLock == None && s.data.pendingWrites == [] && s.data.pool == []
  }

  /** From the store to _closing up to the store to _closed, undisturbed. */
  lemma CloseBody(cfg: Config, s: State, c: map<nat, ClientPc>, n: nat) returns (next: State)
    requires Reachable(cfg, s) && Quiet(s) && ClosingAt(s, c, n, SetClosing)
    ensures Reachable(cfg, next) && Quiet(next) && ClosingAt(next, c, n, SetClosed)
    ensures next.sync.closing && next.sync.closed == s.sync.closed && next.sync.cLock == None
    ensures next.data == s.data.(futs := FailAll(s.data.futs, s.data.pendingReads))
    ensures next.w == Wake(s.w) && next.r == WakeReader(s.r)
  {
    var y1 := s.sync.(closing := true);
    var s1 := Advance(cfg, s, c, n, SetClosing, y1, UnlockC);
    var y2 := y1.(cLock := None);
    var s2 := Advance(cfg, s1, c, n, UnlockC, y2, CloseSocket);
    var s3 := Advance(cfg, s2, c, n, CloseSocket, y2, CloseWantW);
    var y3 := y2.(wLock := Some(Client(n)), drained := y2.drained + 1);
    var s4 := Advance(cfg, s3, c, n, CloseWantW, y3, Drain);
    var s5 := Advance(cfg, s4, c, n, Drain, y3, NotifyW);
    var s6 := Advance(cfg, s5, c, n, NotifyW, y3, ReleaseW);
    next := CloseBodyReads(cfg, s6, c, n);
  }

  lemma CloseBodyReads(cfg: Config, s: State, c: map<nat, ClientPc>, n: nat) returns (next: State)
    requires Reachable(cfg, s) && s.sync.rLock == None && s.data.pendingWrites == [] && s.data.pool == []
    requires ClosingAt(s, c, n, ReleaseW)
    ensures Reachable(cfg, next) && Quiet(next) && ClosingAt(next, c, n, SetClosed)
    ensures next.sync.closing == s.sync.closing && next.sync.closed == s.sync.closed && next.sync.cLock == s.sync.cLock
    ensures next.data == s.data.(futs := FailAll(s.data.futs, s.data.pendingReads))
    ensures next.w == s.w && next.r == WakeReader(s.r)
  {
    var y1 := s.sync.(wLock := None);
    var s1 := Advance(cfg, s, c, n, ReleaseW, y1, CloseWantR);
    var y2 := y1.(rLock := Some(Client(n)));
    var s2 := Advance(cfg, s1, c, n, CloseWantR, y2, Sweep);
    var y3 := y2.(swept := y2.swept + 1);
    var s3 := Advance(cfg, s2, c, n, Sweep, y3, ClearPool);
    next := CloseBodyEnd(cfg, s3, c, n);
  }

  lemma CloseBodyEnd(cfg: Config, s: State, c: map<nat, ClientPc>, n: nat) returns (next: State)
    requires Reachable(cfg, s) && s.data.pool == [] && ClosingAt(s, c, n, ClearPool)
    ensures Reachable(cfg, next) && ClosingAt(next, c, n, SetClosed)
    ensures next.sync == s.sync.(rLock := None) && next.data == s.data
    ensures next.w == s.w && next.r == WakeReader(s.r)
  {
    var s1 := Advance(cfg, s, c, n, ClearPool, s.sync, NotifyR);
    var s2 := Advance(cfg, s1, c, n, NotifyR, s.sync, ReleaseR);
    next := Advance(cfg, s2, c, n, ReleaseR, s.sync.(rLock := None), SetClosed);
  }

  lemma FailOne(k: Kind, o: seq<Outcome>, o': seq<Outcome>)
    requires o' == o + [ReadAbort]
    ensures FailAll([Future(k, o)], [L.Slot(7, 0)]) == [Future(k, o')]
  {
    var t: L.Recency<nat, nat> := [L.Slot(7, 0)];
    assert t[0].value == 0 && Holds(t, 0);
  }

  /** One uneventful step of client 0 inside read(7). */
  lemma ReadAdvance(cfg: Config, s: State, c: map<nat, ClientPc>, p: ReadPc) returns (next: State)
    requires Reachable(cfg, s) && s.c == c[0 := Reading(7, p)] && ReadStep(cfg, s, 0, 7, p).Some?
    ensures Reachable(cfg, next) && Some(next) == ReadStep(cfg, s, 0, 7, p)
    ensures next.c == c[0 := next.c[0]]
  {
    ReachableStep(cfg, s, Client(0), Plain);
    next := ReadStep(cfg, s, 0, 7, p).value;
    assert 0 in next.c && next.c == c[0 := next.c[0]];
  }

  /** A fresh connection on which client 0 awaits the response 7. */
  lemma AwaitSeven(cfg: Config) returns (s: State)
    requires cfg.Valid()
    ensures Reachable(cfg, s) && Quiet(s)
    ensures s.c == Threads(Idle, Idle)
    ensures !s.sync.closing && !s.sync.closed && s.sync.cLock == None
    ensures s.data.pendingReads == [L.Slot(7, 0)] && s.data.futs == [Future(ReadFuture(7), [])]
  {
    var c := Threads(Idle, Idle);
    var s0 := Init({0, 1, 2});
    assert s0.c == c;
    assert Exec(cfg, s0, []) == Some(s0);
    ReachableStep(cfg, s0, Client(0), CallRead(7));
    var s1 := ClientStep(cfg, s0, 0, CallRead(7)).value;
    var s2 := ReadAdvance(cfg, s1, c, WantR);
    var s3 := ReadAdvance(cfg, s2, c, ReadTestClosing);
    var s4 := ReadAdvance(cfg, s3, c, ReadTestClosed);
    s := ServeSeven(cfg, s4, c);
  }

  lemma ServeSeven(cfg: Config, s: State, c: map<nat, ClientPc>) returns (next: State)
    requires Reachable(cfg, s) && c == Threads(Idle, Idle) && s.c == c[0 := Reading(7, Serve)]
    requires s.data == Init({0, 1, 2}).data && s.sync == Init({0, 1, 2}).sync.(rLock := Some(Client(0)))
    ensures Reachable(cfg, next) && Quiet(next) && next.c == c
    ensures !next.sync.closing && !next.sync.closed && next.sync.cLock == None
    ensures next.data.pendingReads == [L.Slot(7, 0)] && next.data.futs == [Future(ReadFuture(7), [])]
  {
    var s1 := ReadAdvance(cfg, s, c, Serve);
    var s2 := ReadAdvance(cfg, s1, c, NotifyServe(0));
    next := ReadAdvance(cfg, s2, c, ReleaseServe(Some(0)));
  }

  /** Client n calls close() and gets past the unlocked tests. */
  lemma StartClose(cfg: Config, s: State, c: map<nat, ClientPc>, n: nat) returns (next: State)
    requires Reachable(cfg, s) && n in c && c[n] == Idle && s.c == c && !s.sync.closing && !s.sync.closed
    ensures Reachable(cfg, next) && next.sync == s.sync && next.data == s.data && ClosingAt(next, c, n, WantC)
    ensures next.w == s.w && next.r == s.r
  {
    ReachableStep(cfg, s, Client(n), CallClose);
    var s1 := ClientStep(cfg, s, n, CallClose).value;
    var s2 := Advance(cfg, s1, c, n, GuardClosed, s.sync, GuardClosing);
    next := Advance(cfg, s2, c, n, GuardClosing, s.sync, WantC);
  }

  /** Where clients 1 and 2 are; client 0 is idle. */
  ghost function Threads(p1: ClientPc, p2: ClientPc): map<nat, ClientPc> {
    map[0 := Idle, 1 := p1, 2 := p2]
  }

  lemma ThreadsMove(p1: ClientPc, p2: ClientPc, p: ClosePc)
    ensures Threads(p1, p2)[1 := ClientClosing(p)] == Threads(ClientClosing(p), p2)
    ensures Threads(p1, p2)[2 := ClientClosing(p)] == Threads(p1, ClientClosing(p))
  {
  }

  /** Both clients are past the unlocked tests of close(), and the read of client 0 is pending. */
  lemma BothAtTheLock(cfg: Config) returns (s: State)
    requires cfg.Valid()
    ensures Reachable(cfg, s) && Quiet(s) && s.c == Threads(ClientClosing(WantC), ClientClosing(WantC))
    ensures !s.sync.closing && !s.sync.closed && s.sync.cLock == None
    ensures s.data.pendingReads == [L.Slot(7, 0)] && s.data.futs == [Future(ReadFuture(7), [])]
  {
    var s0 := AwaitSeven(cfg);
    var s1 := StartClose(cfg, s0, Threads(Idle, Idle), 2);
    ThreadsMove(Idle, Idle, WantC);
    s := StartClose(cfg, s1, Threads(Idle, ClientClosing(WantC)), 1);
    ThreadsMove(Idle, ClientClosing(WantC), WantC);
  }

  /** Client 1 takes the lock and passes the guard. */
  lemma FirstPasses(cfg: Config, s: State) returns (next: State)
    requires Reachable(cfg, s) && s.c == Threads(ClientClosing(WantC), ClientClosing(WantC))
    requires !s.sync.closing && !s.sync.closed && s.sync.cLock == None
    ensures Reachable(cfg, next) && next.data == s.data && next.c == Threads(ClientClosing(SetClosing), ClientClosing(WantC))
    ensures next.sync.wLock == s.sync.wLock && next.sync.rLock == s.sync.rLock && !next.sync.closed
  {
    var c := Threads(Idle, ClientClosing(WantC));
    ThreadsMove(Idle, ClientClosing(WantC), WantC);
    var y := s.sync.(cLock := Some(Client(1)));
    var s1 := Advance(cfg, s, c, 1, WantC, y, LockedClosed);
    var s2 := Advance(cfg, s1, c, 1, LockedClosed, y, LockedClosing);
    next := Advance(cfg, s2, c, 1, LockedClosing, y.(closer := Some(Client(1)), passed := y.passed + 1), SetClosing);
    ThreadsMove(Idle, ClientClosing(WantC), SetClosing);
  }

  /** Client 1 closes up to the store to _closed. */
  lemma FirstCloses(cfg: Config) returns (s: State)
    requires cfg.Valid()
    ensures Reachable(cfg, s) && Quiet(s) && s.c == Threads(ClientClosing(SetClosed), ClientClosing(WantC))
    ensures s.sync.closing && !s.sync.closed && s.sync.cLock == None
    ensures s.data.pendingReads == [L.Slot(7, 0)] && s.data.futs == [Future(ReadFuture(7), [ReadAbort])]
  {
    var s0 := BothAtTheLock(cfg);
    var s1 := FirstPasses(cfg, s0);
    var c := Threads(Idle, ClientClosing(WantC));
    ThreadsMove(Idle, ClientClosing(WantC), SetClosing);
    s := CloseBody(cfg, s1, c, 1);
    ThreadsMove(Idle, ClientClosing(WantC), SetClosed);
    FailOne(ReadFuture(7), [], [ReadAbort]);
  }

  /** Client 2 takes the lock and reads _closed, which is not set yet. */
  lemma SecondReadsClosed(cfg: Config, s: State) returns (next: State)
    requires Reachable(cfg, s) && s.sync.cLock == None && !s.sync.closed
    requires s.c == Threads(ClientClosing(SetClosed), ClientClosing(WantC))
    ensures Reachable(cfg, next) && next.data == s.data && next.sync == s.sync.(cLock := Some(Client(2)))
    ensures next.c == Threads(ClientClosing(SetClosed), ClientClosing(LockedClosing))
  {
    var c := Threads(ClientClosing(SetClosed), Idle);
    ThreadsMove(ClientClosing(SetClosed), Idle, WantC);
    var y := s.sync.(cLock := Some(Client(2)));
    var s1 := Advance(cfg, s, c, 2, WantC, y, LockedClosed);
    next := Advance(cfg, s1, c, 2, LockedClosed, y, LockedClosing);
    ThreadsMove(ClientClosing(SetClosed), Idle, LockedClosing);
  }

  /** Client 1 sets _closed, clears _closing and returns. */
  lemma FirstReturns(cfg: Config, s: State) returns (next: State)
    requires Reachable(cfg, s) && s.c == Threads(ClientClosing(SetClosed), ClientClosing(LockedClosing))
    ensures Reachable(cfg, next) && next.data == s.data && !next.sync.closing && next.sync.closed
    ensures next.sync.wLock == s.sync.wLock && next.sync.rLock == s.sync.rLock
    ensures next.c == Threads(Idle, ClientClosing(LockedClosing))
  {
    var c := Threads(Idle, ClientClosing(LockedClosing));
    ThreadsMove(Idle, ClientClosing(LockedClosing), SetClosed);
    var s1 := Advance(cfg, s, c, 1, SetClosed, s.sync.(closed := true), ClearClosing);
    ReachableStep(cfg, s1, Client(1), Plain);
    next := ClientStep(cfg, s1, 1, Plain).value;
    assert next.c == c;
  }

  /** Client 2 reads _closing, which is clear again, and closes too. */
  lemma SecondCloses(cfg: Config, s: State) returns (last: State)
    requires Reachable(cfg, s) && Quiet(s) && !s.sync.closing && s.c == Threads(Idle, ClientClosing(LockedClosing))
    requires s.data.pendingReads == [L.Slot(7, 0)] && s.data.futs == [Future(ReadFuture(7), [ReadAbort])]
    ensures Reachable(cfg, last) && last.data.futs == [Future(ReadFuture(7), [ReadAbort, ReadAbort])]
  {
    var c := Threads(Idle, Idle);
    ThreadsMove(Idle, Idle, LockedClosing);
    var y := s.sync.(closer := Some(Client(2)), passed := s.sync.passed + 1);
    var s1 := Advance(cfg, s, c, 2, LockedClosing, y, SetClosing);
    last := CloseBody(cfg, s1, c, 2);
    FailOne(ReadFuture(7), [ReadAbort], [ReadAbort, ReadAbort]);
  }

  /**
    Clients 1 and 2 close at the same time. Client 2 reads _closed just before client 1 sets it and
    _closing just after client 1 clears it, so both get through and the read of client 0 fails twice.
   */
  lemma ReadFutureFailedTwice(cfg: Config) returns (s: State)
    requires cfg.Valid()
    ensures Reachable(cfg, s) && !AtMostOnce(s)
    ensures s.data.futs == [Future(ReadFuture(7), [ReadAbort, ReadAbort])]
  {
    var s1 := FirstCloses(cfg);
    var s2 := SecondReadsClosed(cfg, s1);
    var s3 := FirstReturns(cfg, s2);
    s := SecondCloses(cfg, s3);
    assert |s.data.futs[0].outcomes| == 2;
  }
}
