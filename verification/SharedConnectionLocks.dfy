/**
  Mutual exclusion and the closing protocol of SharedConnection: which thread is in which
  critical section, and how the two flags move. close() reads _closed before _closing, so its
  guard can be passed a second time; it is never passed a third time.
 */
module SharedConnectionLocks {
  import opened Wrappers
  import opened SharedConnection

  // ---- Who is in which critical section ---------------------------------------------

  ghost predicate CloseHoldsW(p: ClosePc) { p.Drain? || p.NotifyW? || p.ReleaseW? }

  ghost predicate CloseHoldsR(p: ClosePc) { p.Sweep? || p.ClearPool? || p.NotifyR? || p.ReleaseR? }

  ghost predicate CloseHoldsC(p: ClosePc) {
    p.LockedClosed? || p.LockedClosing? || p.Bail? || p.SetClosing? || p.UnlockC?
  }

  ghost predicate ClientHoldsW(p: ClientPc) {
    match p
    case Writing(q) => !q.WantW?
    case ClientClosing(q) => CloseHoldsW(q)
    case _ => false
  }

  ghost predicate ClientHoldsR(p: ClientPc) {
    match p
    case Reading(_, q) => !q.WantR?
    case ClientClosing(q) => CloseHoldsR(q)
    case _ => false
  }

  ghost predicate WriterHoldsW(p: WriterPc) {
    match p
    case Checking(q) => q.CheckTestClosing? || q.CheckTestClosed? || q.Take? || q.ReleaseExit?
    case Waiting(q) => !q.Parked? && !q.WokenWantW?
    case Sending(q) => q.Release?
    case WriterClosing(q) => CloseHoldsW(q)
    case WriterExited => false
  }

  ghost predicate WriterHoldsR(p: WriterPc) {
    match p
    case Checking(q) => q.CheckNotifyR?
    case WriterClosing(q) => CloseHoldsR(q)
    case _ => false
  }

  ghost predicate WriterHoldsH(p: WriterPc) {
    p.Waiting? && (p.wt.Heartbeat? || p.wt.UnlockH?)
  }

  ghost predicate ReaderHoldsR(p: ReaderPc) {
    match p
    case Listening(q) => !q.ListenWantR? && !q.ReaderParked? && !q.WokenWantR? && !q.Receive?
    case Routing(q) => q.RTestClosing? || q.RTestClosed? || q.Deliver? || q.RRelease?
    case ReaderClosing(q) => CloseHoldsR(q)
    case ReaderExited => false
  }

  ghost predicate ReaderHoldsH(p: ReaderPc) {
    match p
    case Listening(q) => q.Peek?
    case Routing(q) => q.HTestClosing? || q.HTestClosed? || q.HLook? || q.HRelease?
    case _ => false
  }

  ghost predicate InW(s: State, t: Tid)
    requires Exists(s, t)
  {
    match t
    case Writer => WriterHoldsW(s.w)
    case Reader => s.r.ReaderClosing? && CloseHoldsW(s.r.cpc)
    case Client(n) => ClientHoldsW(s.c[n])
  }

  ghost predicate InR(s: State, t: Tid)
    requires Exists(s, t)
  {
    match t
    case Writer => WriterHoldsR(s.w)
    case Reader => ReaderHoldsR(s.r)
    case Client(n) => ClientHoldsR(s.c[n])
  }

  ghost predicate InH(s: State, t: Tid)
    requires Exists(s, t)
  {
    match t
    case Writer => WriterHoldsH(s.w)
    case Reader => ReaderHoldsH(s.r)
    case Client(_) => false
  }

  ghost predicate InC(s: State, t: Tid)
    requires Exists(s, t)
  {
    ClosePoint(s, t).Some? && CloseHoldsC(ClosePoint(s, t).value)
  }

  /** Mutual exclusion: a thread is in a critical section exactly when the lock is its own. */
  ghost predicate LockInv(s: State) {
    && (forall t: Tid :: Exists(s, t) ==> (InW(s, t) <==> s.sync.wLock == Some(t)))
    && (forall t: Tid :: Exists(s, t) ==> (InR(s, t) <==> s.sync.rLock == Some(t)))
    && (forall t: Tid :: Exists(s, t) ==> (InH(s, t) <==> s.sync.hLock == Some(t)))
    && (forall t: Tid :: Exists(s, t) ==> (InC(s, t) <==> s.sync.cLock == Some(t)))
    && (s.sync.wLock.Some? ==> Exists(s, s.sync.wLock.value))
    && (s.sync.rLock.Some? ==> Exists(s, s.sync.rLock.value))
    && (s.sync.hLock.Some? ==> Exists(s, s.sync.hLock.value))
    && (s.sync.cLock.Some? ==> Exists(s, s.sync.cLock.value))
  }

  // ---- Every step moves one thread and at most takes or gives back one lock at a time -----

  ghost predicate LockMove(before: Option<Tid>, after: Option<Tid>, t: Tid, inside: bool, inside': bool) {
    || (after == before && inside' == inside)
    || (before == None && after == Some(t) && inside')
    || (before == Some(t) && after == None && !inside')
  }

  /** Other threads stay where they are, except that a parked one may be notified. */
  ghost predicate Frame(s: State, t: Tid, s': State) {
    && (t != Writer ==> s'.w == s.w || s'.w == Wake(s.w))
    && (t != Reader ==> s'.r == s.r || s'.r == WakeReader(s.r))
    && (if t.Client? then t.n in s.c && t.n in s'.c && s'.c == s.c[t.n := s'.c[t.n]] else s'.c == s.c)
  }

  ghost predicate Move(s: State, t: Tid, s': State)
    requires Exists(s, t)
  {
    && Frame(s, t, s')
    && Exists(s', t)
    && LockMove(s.sync.wLock, s'.sync.wLock, t, InW(s, t), InW(s', t))
    && LockMove(s.sync.rLock, s'.sync.rLock, t, InR(s, t), InR(s', t))
    && LockMove(s.sync.hLock, s'.sync.hLock, t, InH(s, t), InH(s', t))
    && LockMove(s.sync.cLock, s'.sync.cLock, t, InC(s, t), InC(s', t))
    && (ClosePoint(s, t) == None ==>
          SameFlags(s.sync, s'.sync) && (ClosePoint(s', t) == None || ClosePoint(s', t) == Some(GuardClosed)))
  }

  ghost predicate SameFlags(y: Sync, y': Sync) {
    && y'.closing == y.closing && y'.closed == y.closed && y'.closer == y.closer
    && y'.passed == y.passed && y'.drained == y.drained && y'.swept == y.swept
  }

  ghost predicate Owns(s: State, t: Tid)
    requires Exists(s, t)
  {
    && (InW(s, t) <==> s.sync.wLock == Some(t))
    && (InR(s, t) <==> s.sync.rLock == Some(t))
    && (InH(s, t) <==> s.sync.hLock == Some(t))
    && (InC(s, t) <==> s.sync.cLock == Some(t))
  }

  lemma CloseSyncMovesW(y: Sync, d: Data, t: Tid, p: ClosePc)
    requires CloseSync(y, d, t, p).Some? && (CloseHoldsW(p) ==> y.wLock == Some(t))
    ensures var (y', q) := CloseSync(y, d, t, p).value;
      LockMove(y.wLock, y'.wLock, t, CloseHoldsW(p), q.Some? && CloseHoldsW(q.value))
  {
  }

  lemma CloseSyncMovesR(y: Sync, d: Data, t: Tid, p: ClosePc)
    requires CloseSync(y, d, t, p).Some? && (CloseHoldsR(p) ==> y.rLock == Some(t))
    ensures var (y', q) := CloseSync(y, d, t, p).value;
      LockMove(y.rLock, y'.rLock, t, CloseHoldsR(p), q.Some? && CloseHoldsR(q.value)) && y'.hLock == y.hLock
  {
  }

  lemma CloseSyncMovesC(y: Sync, d: Data, t: Tid, p: ClosePc)
    requires CloseSync(y, d, t, p).Some? && (CloseHoldsC(p) ==> y.cLock == Some(t))
    ensures var (y', q) := CloseSync(y, d, t, p).value;
      LockMove(y.cLock, y'.cLock, t, CloseHoldsC(p), q.Some? && CloseHoldsC(q.value))
  {
  }

  /** A closing thread is in the critical sections of its program point, and in none once it has returned. */
  lemma CloserAfter(s: State, t: Tid, p: ClosePc)
    requires Exists(s, t) && CloseStep(s, t, p).Some?
    ensures var s', q := CloseStep(s, t, p).value, CloseSync(s.sync, s.data, t, p).value.1;
      && Exists(s', t) && s'.sync == CloseSync(s.sync, s.data, t, p).value.0 && Frame(s, t, s')
      && InW(s', t) == (q.Some? && CloseHoldsW(q.value)) && InR(s', t) == (q.Some? && CloseHoldsR(q.value))
      && InC(s', t) == (q.Some? && CloseHoldsC(q.value)) && !InH(s', t)
  {
  }

  lemma CloseStepMoves(s: State, t: Tid, p: ClosePc)
    requires Exists(s, t) && Owns(s, t) && ClosePoint(s, t) == Some(p) && CloseStep(s, t, p).Some?
    ensures Move(s, t, CloseStep(s, t, p).value)
  {
    CloserAfter(s, t, p);
    CloseSyncMovesW(s.sync, s.data, t, p);
    CloseSyncMovesR(s.sync, s.data, t, p);
    CloseSyncMovesC(s.sync, s.data, t, p);
  }

  lemma WriteStepMoves(cfg: Config, s: State, n: nat, p: WritePc)
    requires n in s.c && s.c[n] == Writing(p) && Owns(s, Client(n)) && WriteStep(cfg, s, n, p).Some?
    ensures Move(s, Client(n), WriteStep(cfg, s, n, p).value)
  {
  }

  lemma ReadStepMoves(cfg: Config, s: State, n: nat, id: nat, p: ReadPc)
    requires cfg.Valid() && n in s.c && s.c[n] == Reading(id, p) && Owns(s, Client(n))
    requires ReadStep(cfg, s, n, id, p).Some?
    ensures Move(s, Client(n), ReadStep(cfg, s, n, id, p).value)
  {
  }

  lemma CheckStepMoves(cfg: Config, s: State, p: CheckPc)
    requires s.w == Checking(p) && Owns(s, Writer) && CheckStep(cfg, s, p).Some?
    ensures Move(s, Writer, CheckStep(cfg, s, p).value)
  {
  }

  lemma WaitStepMoves(cfg: Config, s: State, p: WaitPc, ch: Choice)
    requires s.w == Waiting(p) && Owns(s, Writer) && WaitStep(cfg, s, p, ch).Some?
    ensures Move(s, Writer, WaitStep(cfg, s, p, ch).value)
  {
  }

  lemma SendStepMoves(s: State, p: SendPc, ch: Choice)
    requires s.w == Sending(p) && Owns(s, Writer) && SendStep(s, p, ch).Some?
    ensures Move(s, Writer, SendStep(s, p, ch).value)
  {
  }

  lemma ListenStepMoves(s: State, p: ListenPc, ch: Choice)
    requires s.r == Listening(p) && Owns(s, Reader) && ListenStep(s, p, ch).Some?
    ensures Move(s, Reader, ListenStep(s, p, ch).value)
  {
  }

  lemma RouteStepMoves(cfg: Config, s: State, p: RoutePc)
    requires cfg.Valid() && s.r == Routing(p) && Owns(s, Reader) && RouteStep(cfg, s, p).Some?
    ensures Move(s, Reader, RouteStep(cfg, s, p).value)
  {
  }

  lemma StepMoves(cfg: Config, s: State, t: Tid, ch: Choice)
    requires cfg.Valid() && LockInv(s) && Exists(s, t) && Step(cfg, s, t, ch).Some?
    ensures Move(s, t, Step(cfg, s, t, ch).value)
  {
    assert Owns(s, t);
    match t {
      case Client(n) =>
        match s.c[n] {
          case Idle =>
          case Writing(p) => WriteStepMoves(cfg, s, n, p);
          case Reading(id, p) => ReadStepMoves(cfg, s, n, id, p);
          case ClientClosing(p) => CloseStepMoves(s, t, p);
        }
      case Writer =>
        match s.w {
          case Checking(p) => CheckStepMoves(cfg, s, p);
          case Waiting(p) => WaitStepMoves(cfg, s, p, ch);
          case Sending(p) => SendStepMoves(s, p, ch);
          case WriterClosing(p) => CloseStepMoves(s, t, p);
        }
      case Reader =>
        match s.r {
          case Listening(p) => ListenStepMoves(s, p, ch);
          case Routing(p) => RouteStepMoves(cfg, s, p);
          case ReaderClosing(p) => CloseStepMoves(s, t, p);
        }
    }
  }

  lemma FrameKeeps(s: State, t: Tid, s': State, u: Tid)
    requires Frame(s, t, s') && u != t && Exists(s', u)
    ensures Exists(s, u)
    ensures InW(s', u) == InW(s, u) && InR(s', u) == InR(s, u) && InH(s', u) == InH(s, u) && InC(s', u) == InC(s, u)
    ensures ClosePoint(s', u) == ClosePoint(s, u)
  {
  }

  lemma MoveKeepsOwner(s: State, t: Tid, s': State, u: Tid)
    requires LockInv(s) && Exists(s, t) && Move(s, t, s') && Exists(s', u)
    ensures Owns(s', u)
  {
    if u != t {
      FrameKeeps(s, t, s', u);
      assert Owns(s, u);
    } else {
      assert Owns(s, t);
    }
  }

  lemma StepKeepsLocks(cfg: Config, s: State, t: Tid, ch: Choice)
    requires cfg.Valid() && LockInv(s) && Exists(s, t) && Step(cfg, s, t, ch).Some?
    ensures LockInv(Step(cfg, s, t, ch).value)
  {
    StepMoves(cfg, s, t, ch);
    var s' := Step(cfg, s, t, ch).value;
    forall u: Tid | Exists(s', u) ensures Owns(s', u) {
      MoveKeepsOwner(s, t, s', u);
    }
  }

  // ---- The closing protocol ---------------------------------------------------------

  /** Past the guard of close() and not yet returned. */
  ghost predicate Active(p: ClosePc) {
    BeforeDrain(p) || CloseHoldsW(p) || p.CloseWantR? || CloseHoldsR(p) || p.SetClosed? || p.ClearClosing?
  }

  ghost predicate BeforeDrain(p: ClosePc) {
    p.SetClosing? || p.UnlockC? || p.CloseSocket? || p.CloseWantW?
  }

  ghost predicate BeforeSweep(p: ClosePc) {
    BeforeDrain(p) || CloseHoldsW(p) || p.CloseWantR? || p.Sweep?
  }

  /** How flags and counters relate, given the program point of the active closer, if there is one. */
  ghost predicate FlagsOk(y: Sync, at: Option<ClosePc>) {
    && (at.Some? <==> y.closer.Some?)
    && (at.Some? ==> Active(at.value))
    && (y.closing <==> at.Some? && !at.value.SetClosing?)
    && y.passed <= 2
    && (y.passed == 0 ==> at == None && !y.closed)
    && (y.passed == 1 ==> (y.closed <==> at == None || at.value.ClearClosing?))
    && (y.passed == 2 ==> y.closed)
    && y.drained == y.passed - (if at.Some? && BeforeDrain(at.value) then 1 else 0)
    && y.swept == y.passed - (if at.Some? && BeforeSweep(at.value) then 1 else 0)
  }

  ghost function CloserPoint(s: State): Option<ClosePc> {
    if s.sync.closer.Some? && Exists(s, s.sync.closer.value) then ClosePoint(s, s.sync.closer.value) else None
  }

  ghost predicate FlagInv(s: State) {
    && FlagsOk(s.sync, CloserPoint(s))
    && (forall t: Tid :: Exists(s, t) && ClosePoint(s, t).Some? && Active(ClosePoint(s, t).value)
                         ==> s.sync.closer == Some(t))
    && (forall t: Tid :: Exists(s, t) && ClosePoint(s, t) == Some(LockedClosing) ==> s.sync.passed <= 1)
  }

  /** A step of the active closer. */
  lemma ActiveStepKeepsFlags(y: Sync, d: Data, t: Tid, p: ClosePc)
    requires Active(p) && y.closer == Some(t) && FlagsOk(y, Some(p)) && CloseSync(y, d, t, p).Some?
    ensures var (y', q) := CloseSync(y, d, t, p).value;
      && FlagsOk(y', q) && y'.passed == y.passed && (q.Some? <==> y'.closer == Some(t))
      && (q.Some? ==> Active(q.value))
  {
  }

  /** A step of close() by a thread still at the guard. */
  lemma GuardStepKeepsFlags(y: Sync, d: Data, t: Tid, p: ClosePc, at: Option<ClosePc>)
    requires !Active(p) && y.closer != Some(t) && FlagsOk(y, at) && CloseSync(y, d, t, p).Some?
    requires p.LockedClosing? ==> y.passed <= 1 && (at.Some? ==> !at.value.SetClosing?)
    ensures var (y', q) := CloseSync(y, d, t, p).value;
      && (q == Some(LockedClosing) ==> y'.passed <= 1)
      && if q.Some? && Active(q.value)
         then p.LockedClosing? && q == Some(SetClosing) && y'.closer == Some(t) && at == None && FlagsOk(y', q)
         else SameFlags(y, y') && FlagsOk(y', at)
  {
  }

  lemma FlagsAfterOtherStep(s: State, t: Tid, s': State)
    requires FlagInv(s) && Exists(s, t) && Frame(s, t, s') && Exists(s', t)
    requires ClosePoint(s, t) == None && SameFlags(s.sync, s'.sync)
    requires ClosePoint(s', t) == None || ClosePoint(s', t) == Some(GuardClosed)
    ensures FlagInv(s')
  {
    forall u: Tid | u != t && Exists(s', u) ensures Exists(s, u) && ClosePoint(s', u) == ClosePoint(s, u) {
      FrameKeeps(s, t, s', u);
    }
    assert s.sync.closer.Some? ==> Exists(s, s.sync.closer.value) && s.sync.closer.value != t;
  }

  lemma FlagsAfterActiveStep(s: State, t: Tid, s': State, p: ClosePc)
    requires FlagInv(s) && Exists(s, t) && Frame(s, t, s') && Exists(s', t)
    requires ClosePoint(s, t) == Some(p) && Active(p)
    requires CloseSync(s.sync, s.data, t, p) == Some((s'.sync, ClosePoint(s', t)))
    ensures FlagInv(s')
  {
    ActiveStepKeepsFlags(s.sync, s.data, t, p);
    forall u: Tid | u != t && Exists(s', u) ensures Exists(s, u) && ClosePoint(s', u) == ClosePoint(s, u) {
      FrameKeeps(s, t, s', u);
    }
  }

  lemma FlagsAfterGuardStep(s: State, t: Tid, s': State, p: ClosePc)
    requires LockInv(s) && FlagInv(s) && Exists(s, t) && Frame(s, t, s') && Exists(s', t)
    requires ClosePoint(s, t) == Some(p) && !Active(p)
    requires CloseSync(s.sync, s.data, t, p) == Some((s'.sync, ClosePoint(s', t)))
    ensures FlagInv(s')
  {
    var at := CloserPoint(s);
    assert s.sync.closer.Some? ==> Exists(s, s.sync.closer.value) && s.sync.closer.value != t;
    if p.LockedClosing? {
      assert InC(s, t);
      assert s.sync.closer.Some? ==> !InC(s, s.sync.closer.value);
    }
    GuardStepKeepsFlags(s.sync, s.data, t, p, at);
    forall u: Tid | u != t && Exists(s', u)
      ensures Exists(s, u) && ClosePoint(s', u) == ClosePoint(s, u)
      ensures p.LockedClosing? ==> ClosePoint(s', u) != Some(LockedClosing)
    {
      FrameKeeps(s, t, s', u);
      assert p.LockedClosing? ==> !InC(s, u);
    }
  }

  lemma StepKeepsFlags(cfg: Config, s: State, t: Tid, ch: Choice)
    requires cfg.Valid() && LockInv(s) && FlagInv(s) && Exists(s, t) && Step(cfg, s, t, ch).Some?
    ensures FlagInv(Step(cfg, s, t, ch).value)
  {
    StepMoves(cfg, s, t, ch);
    var s' := Step(cfg, s, t, ch).value;
    if ClosePoint(s, t).Some? {
      var p := ClosePoint(s, t).value;
      StepOfCloser(cfg, s, t, ch);
      if Active(p) {
        FlagsAfterActiveStep(s, t, s', p);
      } else {
        FlagsAfterGuardStep(s, t, s', p);
      }
    } else {
      FlagsAfterOtherStep(s, t, s');
    }
  }

  lemma StepOfCloser(cfg: Config, s: State, t: Tid, ch: Choice)
    requires cfg.Valid() && Exists(s, t) && Step(cfg, s, t, ch).Some? && ClosePoint(s, t).Some?
    ensures var s' := Step(cfg, s, t, ch).value;
      && CloseSync(s.sync, s.data, t, ClosePoint(s, t).value).Some?
      && Exists(s', t)
      && s'.sync == CloseSync(s.sync, s.data, t, ClosePoint(s, t).value).value.0
      && ClosePoint(s', t) == CloseSync(s.sync, s.data, t, ClosePoint(s, t).value).value.1
  {
  }
}
