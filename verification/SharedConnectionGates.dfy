/**
  Admission in SharedConnection, at the granularity of single flag reads: write, read, the writer
  and the reader all read _closing before _closed, so whoever gets past both reads inside a
  critical section is there before close() first entered that section.
 */
module SharedConnectionGates {
  import opened Wrappers
  import opened SharedConnection
  import opened SharedConnectionLocks

  /** Inside the write lock, _closing was seen unset and _closed is about to be read. */
  ghost predicate TestedW(s: State, t: Tid)
    requires Exists(s, t)
  {
    match t
    case Client(n) => s.c[n] == Writing(WriteTestClosed)
    case Writer => s.w == Checking(CheckTestClosed) || s.w == Waiting(RetestClosed)
    case Reader => false
  }

  /** Inside the write lock, past both reads. */
  ghost predicate AdmittedW(s: State, t: Tid)
    requires Exists(s, t)
  {
    match t
    case Client(n) => s.c[n].Writing? && (s.c[n].wpc.Insert? || s.c[n].wpc.NotifyInsert?)
    case Writer => s.w == Checking(Take) || s.w == Waiting(Consider) || s.w == Waiting(Heartbeat)
    case Reader => false
  }

  ghost predicate TestedR(s: State, t: Tid)
    requires Exists(s, t)
  {
    match t
    case Client(n) => s.c[n].Reading? && s.c[n].rpc.ReadTestClosed?
    case Writer => false
    case Reader => s.r == Listening(ListenTestClosed) || (s.r.Routing? && s.r.rt.RTestClosed?)
  }

  ghost predicate AdmittedR(s: State, t: Tid)
    requires Exists(s, t)
  {
    match t
    case Client(n) => s.c[n].Reading? && (s.c[n].rpc.Serve? || s.c[n].rpc.NotifyServe?)
    case Writer => false
    case Reader =>
      match s.r
      case Listening(p) => p.Look? || p.WantH? || p.Peek? || p.Decide?
      case Routing(p) => p.Deliver?
      case _ => false
  }

  ghost predicate GateOk(s: State, t: Tid)
    requires Exists(s, t)
  {
    && (TestedW(s, t) ==> s.sync.drained == 0 || s.sync.closed)
    && (AdmittedW(s, t) ==> s.sync.drained == 0)
    && (TestedR(s, t) ==> s.sync.swept == 0 || s.sync.closed)
    && (AdmittedR(s, t) ==> s.sync.swept == 0)
  }

  ghost predicate GateInv(s: State) {
    forall t: Tid :: Exists(s, t) ==> GateOk(s, t)
  }

  /** Seeing _closing unset means close() never got to the tables, or _closed is set already. */
  lemma NotClosingMeans(y: Sync, at: Option<ClosePc>)
    requires FlagsOk(y, at) && !y.closing
    ensures (y.drained == 0 || y.closed) && (y.swept == 0 || y.closed)
  {
  }

  ghost predicate Later(s: State, t: Tid, s': State) {
    && (s.sync.closed ==> s'.sync.closed)
    && (s'.sync.drained == s.sync.drained || s.sync.wLock == None)
    && (s'.sync.swept == s.sync.swept || s.sync.rLock == Some(t))
  }

  lemma StepIsLater(cfg: Config, s: State, t: Tid, ch: Choice)
    requires cfg.Valid() && LockInv(s) && Exists(s, t) && Step(cfg, s, t, ch).Some?
    ensures Later(s, t, Step(cfg, s, t, ch).value)
  {
    StepMoves(cfg, s, t, ch);
    if ClosePoint(s, t).Some? {
      StepOfCloser(cfg, s, t, ch);
      assert InR(s, t) <==> s.sync.rLock == Some(t);
      CloseIsLater(s.sync, s.data, t, ClosePoint(s, t).value);
    }
  }

  lemma CloseIsLater(y: Sync, d: Data, t: Tid, p: ClosePc)
    requires CloseSync(y, d, t, p).Some?
    ensures var y' := CloseSync(y, d, t, p).value.0;
      && (y.closed ==> y'.closed)
      && (y'.drained == y.drained || y.wLock == None)
      && (y'.swept == y.swept || p.Sweep?)
  {
  }

  lemma StepAdmits(cfg: Config, s: State, t: Tid, ch: Choice)
    requires cfg.Valid() && LockInv(s) && FlagInv(s) && Exists(s, t) && GateOk(s, t) && Step(cfg, s, t, ch).Some?
    ensures Exists(Step(cfg, s, t, ch).value, t) && GateOk(Step(cfg, s, t, ch).value, t)
  {
    StepMoves(cfg, s, t, ch);
    match t {
      case Client(n) => ClientStepAdmits(cfg, s, n, ch);
      case Writer => WriterStepAdmits(cfg, s, ch);
      case Reader => ReaderStepAdmits(cfg, s, ch);
    }
  }

  lemma ClientStepAdmits(cfg: Config, s: State, n: nat, ch: Choice)
    requires cfg.Valid() && FlagInv(s) && n in s.c && GateOk(s, Client(n)) && ClientStep(cfg, s, n, ch).Some?
    ensures n in ClientStep(cfg, s, n, ch).value.c && GateOk(ClientStep(cfg, s, n, ch).value, Client(n))
  {
    if !s.sync.closing {
      NotClosingMeans(s.sync, CloserPoint(s));
    }
  }

  lemma CheckStepAdmits(cfg: Config, s: State, p: CheckPc)
    requires FlagInv(s) && s.w == Checking(p) && GateOk(s, Writer) && CheckStep(cfg, s, p).Some?
    ensures GateOk(CheckStep(cfg, s, p).value, Writer)
  {
    if !s.sync.closing {
      NotClosingMeans(s.sync, CloserPoint(s));
    }
  }

  lemma WaitStepAdmits(cfg: Config, s: State, p: WaitPc, ch: Choice)
    requires FlagInv(s) && s.w == Waiting(p) && GateOk(s, Writer) && WaitStep(cfg, s, p, ch).Some?
    ensures GateOk(WaitStep(cfg, s, p, ch).value, Writer)
  {
    if !s.sync.closing {
      NotClosingMeans(s.sync, CloserPoint(s));
    }
  }

  lemma WriterStepAdmits(cfg: Config, s: State, ch: Choice)
    requires cfg.Valid() && FlagInv(s) && GateOk(s, Writer) && WriterStep(cfg, s, ch).Some?
    ensures GateOk(WriterStep(cfg, s, ch).value, Writer)
  {
    match s.w
    case Checking(p) => CheckStepAdmits(cfg, s, p);
    case Waiting(p) => WaitStepAdmits(cfg, s, p, ch);
    case _ =>
  }

  lemma ListenStepAdmits(s: State, p: ListenPc, ch: Choice)
    requires FlagInv(s) && s.r == Listening(p) && GateOk(s, Reader) && ListenStep(s, p, ch).Some?
    ensures GateOk(ListenStep(s, p, ch).value, Reader)
  {
    if !s.sync.closing {
      NotClosingMeans(s.sync, CloserPoint(s));
    }
  }

  lemma RouteStepAdmits(cfg: Config, s: State, p: RoutePc)
    requires cfg.Valid() && FlagInv(s) && s.r == Routing(p) && GateOk(s, Reader) && RouteStep(cfg, s, p).Some?
    ensures GateOk(RouteStep(cfg, s, p).value, Reader)
  {
    if !s.sync.closing {
      NotClosingMeans(s.sync, CloserPoint(s));
    }
  }

  lemma ReaderStepAdmits(cfg: Config, s: State, ch: Choice)
    requires cfg.Valid() && FlagInv(s) && GateOk(s, Reader) && ReaderStep(cfg, s, ch).Some?
    ensures GateOk(ReaderStep(cfg, s, ch).value, Reader)
  {
    match s.r
    case Listening(p) => ListenStepAdmits(s, p, ch);
    case Routing(p) => RouteStepAdmits(cfg, s, p);
    case _ =>
  }

  lemma StepKeepsGates(cfg: Config, s: State, t: Tid, ch: Choice)
    requires cfg.Valid() && LockInv(s) && FlagInv(s) && GateInv(s) && Exists(s, t) && Step(cfg, s, t, ch).Some?
    ensures GateInv(Step(cfg, s, t, ch).value)
  {
    var s' := Step(cfg, s, t, ch).value;
    StepMoves(cfg, s, t, ch);
    StepIsLater(cfg, s, t, ch);
    StepAdmits(cfg, s, t, ch);
    forall u: Tid | u != t && Exists(s', u) ensures GateOk(s', u) {
      FrameKeeps(s, t, s', u);
      assert GateOk(s, u);
      GateOfBystander(s, t, s', u);
    }
  }

  lemma GateOfBystander(s: State, t: Tid, s': State, u: Tid)
    requires LockInv(s) && Frame(s, t, s') && Later(s, t, s') && u != t && Exists(s, u) && Exists(s', u) && GateOk(s, u)
    ensures GateOk(s', u)
  {
    assert InW(s, u) <==> s.sync.wLock == Some(u);
    assert InR(s, u) <==> s.sync.rLock == Some(u);
  }
}
