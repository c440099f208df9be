/**
  No lost wake-up in SharedConnection: whenever the writer or the reader is parked and not yet
  notified although there is something for it to do, some thread that is not parked still owes it
  the notification.
 */
module SharedConnectionParking {
  import opened Wrappers
  import opened SharedConnection
  import opened SharedConnectionLocks
  import opened SharedConnectionGates

  /** The owner of the write lock is about to notify the writer. */
  ghost predicate WriterNoticeOwed(s: State) {
    s.sync.wLock.Some? && Exists(s, s.sync.wLock.value) &&
    var u := s.sync.wLock.value;
    || (u.Client? && s.c[u.n].Writing? && s.c[u.n].wpc.NotifyInsert?)
    || ClosePoint(s, u) == Some(Drain)
    || ClosePoint(s, u) == Some(NotifyW)
  }

  /** The owner of the read lock is about to notify the reader. */
  ghost predicate ReaderNoticeOwed(s: State) {
    s.sync.rLock.Some? && Exists(s, s.sync.rLock.value) &&
    var u := s.sync.rLock.value;
    || (u.Client? && s.c[u.n].Reading? && s.c[u.n].rpc.NotifyServe?)
    || ClosePoint(s, u) == Some(ClearPool)
    || ClosePoint(s, u) == Some(NotifyR)
  }

  /** The writer carries need_to_wakeup_read_thread towards its notify_all. */
  ghost predicate HeartbeatNoticeOwed(w: WriterPc) {
    match w
    case Waiting(UnlockH(_, need)) => need
    case Sending(Release(_, need, _)) => need
    case Checking(Start(_, need)) => need
    case Checking(CheckWantR) => true
    case Checking(CheckNotifyR) => true
    case _ => false
  }

  /** need is never carried together with missing, nor with an item. */
  ghost predicate CarriesOne(w: WriterPc) {
    match w
    case Waiting(UnlockH(missing, need)) => !(missing && need)
    case Sending(Release(missing, need, hand)) => !(missing && need) && (hand.Some? ==> !missing && !need)
    case Checking(Start(missing, need)) => !(missing && need)
    case _ => true
  }

  ghost predicate ReaderLooked(r: ReaderPc) {
    r.Listening? && (r.ls.WantH? || r.ls.Peek? || r.ls.Decide?)
  }

  ghost predicate ReaderAsleep(r: ReaderPc) {
    r == Listening(Decide(false)) || r == Listening(ReaderParked(false))
  }

  ghost predicate WriterParkInv(s: State) {
    && CarriesOne(s.w)
    && (s.w == Waiting(Heartbeat) ==> s.data.pendingWrites == [])
    && (s.w == Waiting(Parked(false)) ==>
          (s.data.pendingWrites == [] && s.sync.drained == 0) || WriterNoticeOwed(s))
  }

  ghost predicate ReaderParkInv(s: State) {
    && (ReaderLooked(s.r) ==> s.data.pendingReads == [])
    && (s.r == Listening(ReaderParked(false)) ==>
          (s.data.pendingReads == [] && s.sync.swept == 0) || ReaderNoticeOwed(s))
    && (ReaderAsleep(s.r) && s.data.heartbeats != [] ==> HeartbeatNoticeOwed(s.w))
  }

  ghost predicate ParkInv(s: State) {
    WriterParkInv(s) && ReaderParkInv(s)
  }

  ghost predicate Ready(cfg: Config, s: State) {
    cfg.Valid() && LockInv(s) && FlagInv(s) && GateInv(s) && ParkInv(s)
  }

  /** A debt stays while its debtor does not move. */
  lemma NoticesKept(s: State, t: Tid, s': State)
    requires Frame(s, t, s')
    ensures WriterNoticeOwed(s) && s.sync.wLock != Some(t) && s'.sync.wLock == s.sync.wLock ==> WriterNoticeOwed(s')
    ensures ReaderNoticeOwed(s) && s.sync.rLock != Some(t) && s'.sync.rLock == s.sync.rLock ==> ReaderNoticeOwed(s')
  {
    if WriterNoticeOwed(s) && s.sync.wLock != Some(t) {
      var u := s.sync.wLock.value;
      assert Exists(s', u) && ClosePoint(s', u) == ClosePoint(s, u);
    }
    if ReaderNoticeOwed(s) && s.sync.rLock != Some(t) {
      var u := s.sync.rLock.value;
      assert Exists(s', u) && ClosePoint(s', u) == ClosePoint(s, u);
    }
  }

  lemma CloseStepKeepsWriterParking(s: State, t: Tid, p: ClosePc)
    requires LockInv(s) && WriterParkInv(s)
    requires Exists(s, t) && ClosePoint(s, t) == Some(p) && CloseStep(s, t, p).Some?
    ensures WriterParkInv(CloseStep(s, t, p).value)
  {
    var s' := CloseStep(s, t, p).value;
    assert Owns(s, t);
    CloseStepMoves(s, t, p);
    NoticesKept(s, t, s');
    if p.CloseWantW? || p.Drain? {
      assert WriterNoticeOwed(s');
    } else if !p.NotifyW? {
      assert s'.data.pendingWrites == s.data.pendingWrites && s'.sync.drained == s.sync.drained;
      assert s.sync.wLock == Some(t) ==> !WriterNoticeOwed(s);
    }
  }

  lemma CloseStepKeepsReaderParking(s: State, t: Tid, p: ClosePc)
    requires LockInv(s) && ReaderParkInv(s)
    requires Exists(s, t) && ClosePoint(s, t) == Some(p) && CloseStep(s, t, p).Some?
    ensures ReaderParkInv(CloseStep(s, t, p).value)
  {
    var s' := CloseStep(s, t, p).value;
    assert Owns(s, t);
    CloseStepMoves(s, t, p);
    NoticesKept(s, t, s');
    CloseStepParts(s, t, p, s');
    if p.Sweep? || p.ClearPool? {
      assert ReaderNoticeOwed(s');
    } else if !p.NotifyR? {
      assert s.sync.rLock == Some(t) ==> !ReaderNoticeOwed(s);
    }
  }

  /** What a step of close() does to the threads and to what a parked reader waits for. */
  lemma CloseStepParts(s: State, t: Tid, p: ClosePc, s': State)
    requires Exists(s, t) && ClosePoint(s, t) == Some(p) && CloseStep(s, t, p) == Some(s')
    ensures s'.data.pendingReads == s.data.pendingReads && s'.data.heartbeats == s.data.heartbeats
    ensures !p.Sweep? ==> s'.sync.swept == s.sync.swept
    ensures t.Writer? ==> s'.w == WriterExited || s'.w.WriterClosing?
    ensures !t.Writer? ==> s'.w == if p.NotifyW? then Wake(s.w) else s.w
    ensures t.Reader? ==> s'.r == ReaderExited || s'.r.ReaderClosing?
    ensures !t.Reader? ==> s'.r == if p.NotifyR? then WakeReader(s.r) else s.r
  {
  }

  lemma WriteStepKeepsParking(cfg: Config, s: State, n: nat, p: WritePc)
    requires Ready(cfg, s) && n in s.c && s.c[n] == Writing(p) && WriteStep(cfg, s, n, p).Some?
    ensures ParkInv(WriteStep(cfg, s, n, p).value)
  {
    assert Owns(s, Client(n)) && Owns(s, Reader) && Owns(s, Writer);
  }

  lemma ReadStepKeepsParking(cfg: Config, s: State, n: nat, id: nat, p: ReadPc)
    requires Ready(cfg, s) && n in s.c && s.c[n] == Reading(id, p) && ReadStep(cfg, s, n, id, p).Some?
    ensures ParkInv(ReadStep(cfg, s, n, id, p).value)
  {
    assert Owns(s, Client(n)) && Owns(s, Reader) && Owns(s, Writer);
  }

  lemma IdleStepKeepsParking(cfg: Config, s: State, n: nat, ch: Choice)
    requires Ready(cfg, s) && n in s.c && s.c[n] == Idle && ClientStep(cfg, s, n, ch).Some?
    ensures ParkInv(ClientStep(cfg, s, n, ch).value)
  {
    assert Owns(s, Client(n));
  }

  lemma CheckStepKeepsParking(cfg: Config, s: State, p: CheckPc)
    requires Ready(cfg, s) && s.w == Checking(p) && CheckStep(cfg, s, p).Some?
    ensures ParkInv(CheckStep(cfg, s, p).value)
  {
    assert Owns(s, Reader) && Owns(s, Writer) && GateOk(s, Writer);
  }

  lemma WaitStepKeepsParking(cfg: Config, s: State, p: WaitPc, ch: Choice)
    requires Ready(cfg, s) && s.w == Waiting(p) && WaitStep(cfg, s, p, ch).Some?
    ensures ParkInv(WaitStep(cfg, s, p, ch).value)
  {
    assert Owns(s, Reader) && Owns(s, Writer);
  }

  lemma SendStepKeepsParking(cfg: Config, s: State, p: SendPc, ch: Choice)
    requires Ready(cfg, s) && s.w == Sending(p) && SendStep(s, p, ch).Some?
    ensures ParkInv(SendStep(s, p, ch).value)
  {
    assert Owns(s, Reader) && Owns(s, Writer);
  }

  lemma ListenStepKeepsWriterParking(cfg: Config, s: State, p: ListenPc, ch: Choice)
    requires Ready(cfg, s) && s.r == Listening(p) && ListenStep(s, p, ch).Some?
    ensures WriterParkInv(ListenStep(s, p, ch).value)
  {
    assert Owns(s, Reader);
  }

  lemma ListenStepKeepsReaderParking(cfg: Config, s: State, p: ListenPc, ch: Choice)
    requires Ready(cfg, s) && s.r == Listening(p) && ListenStep(s, p, ch).Some?
    ensures ReaderParkInv(ListenStep(s, p, ch).value)
  {
    assert Owns(s, Reader) && GateOk(s, Reader);
  }

  lemma RouteStepKeepsParking(cfg: Config, s: State, p: RoutePc)
    requires Ready(cfg, s) && s.r == Routing(p) && RouteStep(cfg, s, p).Some?
    ensures ParkInv(RouteStep(cfg, s, p).value)
  {
    assert Owns(s, Reader) && Owns(s, Writer);
  }

  lemma StepKeepsParking(cfg: Config, s: State, t: Tid, ch: Choice)
    requires Ready(cfg, s) && Exists(s, t) && Step(cfg, s, t, ch).Some?
    ensures ParkInv(Step(cfg, s, t, ch).value)
  {
    if ClosePoint(s, t).Some? {
      CloseStepKeepsWriterParking(s, t, ClosePoint(s, t).value);
      CloseStepKeepsReaderParking(s, t, ClosePoint(s, t).value);
    } else {
      match t {
        case Client(n) =>
          match s.c[n] {
            case Idle => IdleStepKeepsParking(cfg, s, n, ch);
            case Writing(p) => WriteStepKeepsParking(cfg, s, n, p);
            case Reading(id, p) => ReadStepKeepsParking(cfg, s, n, id, p);
          }
        case Writer =>
          match s.w {
            case Checking(p) => CheckStepKeepsParking(cfg, s, p);
            case Waiting(p) => WaitStepKeepsParking(cfg, s, p, ch);
            case Sending(p) => SendStepKeepsParking(cfg, s, p, ch);
          }
        case Reader =>
          match s.r {
            case Listening(p) => ListenStepKeepsWriterParking(cfg, s, p, ch); ListenStepKeepsReaderParking(cfg, s, p, ch);
            case Routing(p) => RouteStepKeepsParking(cfg, s, p);
          }
      }
    }
  }
}
