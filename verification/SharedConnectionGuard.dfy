/**
  The guard of close() in whole runs of SharedConnection. It reads _closed and then _closing under the
  close lock; the reads are torn when another thread has set _closed in between. Without a torn guard
  every client future is resolved at most once; with one, exactly the second sweep of a table that is
  not empty breaks that.
 */
module SharedConnectionGuard {
  import opened Wrappers
  import opened SharedConnection
  import opened SharedConnectionLocks
  import opened SharedConnectionGates
  import opened SharedConnectionRuns
  import opened SharedConnectionTheorems

  // ---- One atomic test ---------------------------------------------------------------

  /** Thread t, having read _closed unset, is about to read _closing although _closed is set by now. */
  ghost predicate Torn(s: State, t: Tid) {
    Exists(s, t) && ClosePoint(s, t) == Some(LockedClosing) && s.sync.closed
  }

  /** A run in which the two reads of every guard are as one test. */
  ghost predicate AtomicGuard(cfg: Config, s: State, run: seq<Event>)
    requires cfg.Valid()
    decreases run
  {
    run != [] && Exists(s, run[0].t) && Step(cfg, s, run[0].t, run[0].ch).Some? ==>
      !Torn(s, run[0].t) && AtomicGuard(cfg, Step(cfg, s, run[0].t, run[0].ch).value, run[1..])
  }

  lemma UntornStepPassesOnce(cfg: Config, s: State, t: Tid, ch: Choice)
    requires Reachable(cfg, s) && Exists(s, t) && Step(cfg, s, t, ch).Some?
    requires s.sync.passed <= 1 && !Torn(s, t)
    ensures Step(cfg, s, t, ch).value.sync.passed <= 1
  {
    if Step(cfg, s, t, ch).value.sync.passed > s.sync.passed {
      SecondPassSeesClosed(cfg, s, t, ch);
    }
  }

  lemma {:induction false} AtomicRunPassesOnce(cfg: Config, s: State, run: seq<Event>)
    requires Reachable(cfg, s) && Exec(cfg, s, run).Some? && AtomicGuard(cfg, s, run) && s.sync.passed <= 1
    ensures Reachable(cfg, Exec(cfg, s, run).value) && Exec(cfg, s, run).value.sync.passed <= 1
    decreases run
  {
    if run != [] {
      UntornStepPassesOnce(cfg, s, run[0].t, run[0].ch);
      ReachableStep(cfg, s, run[0].t, run[0].ch);
      AtomicRunPassesOnce(cfg, Step(cfg, s, run[0].t, run[0].ch).value, run[1..]);
    }
  }

  lemma InitIsReachable(cfg: Config, clients: set<nat>)
    requires cfg.Valid()
    ensures Reachable(cfg, Init(clients))
  {
    assert Exec(cfg, Init(clients), []) == Some(Init(clients));
  }

  /**
    Main result: if the guard of close() is one atomic test in a run, at most one thread ever gets past
    it and every client future is resolved at most once.
   */
  lemma AtomicGuardMeansOnce(cfg: Config, clients: set<nat>, run: seq<Event>)
    requires cfg.Valid() && Exec(cfg, Init(clients), run).Some? && AtomicGuard(cfg, Init(clients), run)
    ensures Exec(cfg, Init(clients), run).value.sync.passed <= 1
    ensures AtMostOnce(Exec(cfg, Init(clients), run).value)
  {
    InitIsReachable(cfg, clients);
    AtomicRunPassesOnce(cfg, Init(clients), run);
    AtMostOnceExactly(cfg, Exec(cfg, Init(clients), run).value);
  }

  // ---- What breaks it ----------------------------------------------------------------

  /** Thread t is about to fail the pending reads of a connection that is closed already. */
  ghost predicate SweepsAgain(s: State, t: Tid) {
    Exists(s, t) && ClosePoint(s, t) == Some(Sweep) && s.sync.closed && s.data.pendingReads != []
  }

  ghost predicate SomeSweepsAgain(cfg: Config, s: State, run: seq<Event>)
    requires cfg.Valid()
    decreases run
  {
    && run != [] && Exists(s, run[0].t) && Step(cfg, s, run[0].t, run[0].ch).Some?
    && (SweepsAgain(s, run[0].t) || SomeSweepsAgain(cfg, Step(cfg, s, run[0].t, run[0].ch).value, run[1..]))
  }

  /** Only read() and the reader change the table of pending reads, both past the gate. */
  lemma PendingReadsChange(cfg: Config, s: State, t: Tid, ch: Choice)
    requires cfg.Valid() && Exists(s, t) && Step(cfg, s, t, ch).Some?
    requires Step(cfg, s, t, ch).value.data.pendingReads != s.data.pendingReads
    ensures AdmittedR(s, t)
  {
  }

  lemma CloseSyncSweeps(y: Sync, d: Data, t: Tid, p: ClosePc)
    requires CloseSync(y, d, t, p).Some?
    ensures CloseSync(y, d, t, p).value.0.swept == y.swept + if p == Sweep then 1 else 0
  {
  }

  /** Only the sweep of close() counts as one. */
  lemma SweptChanges(cfg: Config, s: State, t: Tid, ch: Choice, next: State)
    requires Inv(cfg, s) && Exists(s, t) && Step(cfg, s, t, ch) == Some(next)
    ensures next.sync.swept == s.sync.swept + if ClosePoint(s, t) == Some(Sweep) then 1 else 0
  {
    StepMoves(cfg, s, t, ch);
    if ClosePoint(s, t).Some? {
      StepOfCloser(cfg, s, t, ch);
      CloseSyncSweeps(s.sync, s.data, t, ClosePoint(s, t).value);
    }
  }

  lemma SweepCounts(cfg: Config, s: State, t: Tid)
    requires Reachable(cfg, s) && Exists(s, t) && ClosePoint(s, t) == Some(Sweep)
    ensures s.sync.swept == if s.sync.closed then 1 else 0
  {
    ReachableInv(cfg, s);
    assert s.sync.closer == Some(t) && CloserPoint(s) == Some(Sweep);
  }

  lemma StepKeepsOnce(cfg: Config, s: State, t: Tid, ch: Choice)
    requires Reachable(cfg, s) && Exists(s, t) && Step(cfg, s, t, ch).Some?
    ensures AtMostOnce(Step(cfg, s, t, ch).value) <==> AtMostOnce(s) && !SweepsAgain(s, t)
  {
    var next := Step(cfg, s, t, ch).value;
    ReachableInv(cfg, s);
    ReachableStep(cfg, s, t, ch);
    AtMostOnceExactly(cfg, s);
    AtMostOnceExactly(cfg, next);
    SweptChanges(cfg, s, t, ch, next);
    if next.data.pendingReads != s.data.pendingReads {
      PendingReadsChange(cfg, s, t, ch);
      assert GateOk(s, t);
    }
    if ClosePoint(s, t) == Some(Sweep) {
      SweepCounts(cfg, s, t);
    }
  }

  lemma {:induction false} RunKeepsOnce(cfg: Config, s: State, run: seq<Event>)
    requires Reachable(cfg, s) && Exec(cfg, s, run).Some?
    ensures AtMostOnce(Exec(cfg, s, run).value) <==> AtMostOnce(s) && !SomeSweepsAgain(cfg, s, run)
    decreases run
  {
    if run != [] {
      StepKeepsOnce(cfg, s, run[0].t, run[0].ch);
      ReachableStep(cfg, s, run[0].t, run[0].ch);
      RunKeepsOnce(cfg, Step(cfg, s, run[0].t, run[0].ch).value, run[1..]);
    }
  }

  /**
    Main result: over any run, some client future is resolved twice if and only if some thread swept the
    table of pending reads with something in it when _closed was already set.
   */
  lemma OnceExactly(cfg: Config, clients: set<nat>, run: seq<Event>)
    requires cfg.Valid() && Exec(cfg, Init(clients), run).Some?
    ensures AtMostOnce(Exec(cfg, Init(clients), run).value) <==> !SomeSweepsAgain(cfg, Init(clients), run)
    ensures SomeSweepsAgain(cfg, Init(clients), run) ==> !AtomicGuard(cfg, Init(clients), run)
  {
    InitIsReachable(cfg, clients);
    RunKeepsOnce(cfg, Init(clients), run);
    if AtomicGuard(cfg, Init(clients), run) {
      AtomicGuardMeansOnce(cfg, clients, run);
    }
  }
}
