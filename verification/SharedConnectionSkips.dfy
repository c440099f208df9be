/**
  Writes without a buffer in SharedConnection. The writer pops such an item and goes on without sending
  it or resolving its future. So the promise that close() leaves no future unresolved holds exactly
  when every write has a buffer.
 */
module SharedConnectionSkips {
  import opened Wrappers
  import opened SharedConnection
  import opened SharedConnectionFutures
  import opened SharedConnectionTables
  import opened SharedConnectionRuns
  import opened SharedConnectionTheorems
  import opened SharedConnectionRace

  // ---- What is skipped stays unresolved ----------------------------------------------

  /** Futures keep their kinds, and skipped ones stay skipped. */
  ghost predicate Continues(d: Data, d': Data) {
    KindsKept(d.futs, d'.futs) && d.skipped <= d'.skipped
  }

  lemma ClientContinues(cfg: Config, s: State, n: nat, ch: Choice, t: State)
    requires cfg.Valid() && n in s.c && !s.c[n].ClientClosing? && ClientStep(cfg, s, n, ch) == Some(t)
    ensures Continues(s.data, t.data)
  {
  }

  lemma WriterContinues(cfg: Config, s: State, ch: Choice, t: State)
    requires !s.w.WriterClosing? && WriterStep(cfg, s, ch) == Some(t)
    ensures Continues(s.data, t.data)
  {
  }

  lemma ReaderContinues(cfg: Config, s: State, ch: Choice, t: State)
    requires cfg.Valid() && !s.r.ReaderClosing? && ReaderStep(cfg, s, ch) == Some(t)
    ensures Continues(s.data, t.data)
  {
  }

  lemma CloseContinues(s: State, t: Tid, p: ClosePc)
    requires Exists(s, t) && CloseStep(s, t, p).Some?
    ensures Continues(s.data, CloseStep(s, t, p).value.data)
  {
    assert CloseStep(s, t, p).value.data == CloseData(s.data, p);
  }

  lemma StepContinues(cfg: Config, s: State, t: Tid, ch: Choice)
    requires cfg.Valid() && Exists(s, t) && Step(cfg, s, t, ch).Some?
    ensures Continues(s.data, Step(cfg, s, t, ch).value.data)
  {
    var s' := Step(cfg, s, t, ch).value;
    if ClosePoint(s, t).Some? {
      CloseContinues(s, t, ClosePoint(s, t).value);
    } else {
      match t {
        case Client(n) => ClientContinues(cfg, s, n, ch, s');
        case Writer => WriterContinues(cfg, s, ch, s');
        case Reader => ReaderContinues(cfg, s, ch, s');
      }
    }
  }

  /** Main result: the future of a skipped write is never resolved, whatever happens afterwards. */
  lemma {:induction false} SkippedForGood(cfg: Config, s: State, run: seq<Event>, f: nat)
    requires Reachable(cfg, s) && Exec(cfg, s, run).Some?
    requires f in s.data.skipped && f < |s.data.futs| && ClientFuture(s.data.futs[f])
    ensures var d := Exec(cfg, s, run).value.data;
      f in d.skipped && f < |d.futs| && d.futs[f] == Future(s.data.futs[f].kind, [])
    decreases run
  {
    ReachableInv(cfg, s);
    assert SentCounts(s.data, Hand(s.w));
    assert |s.data.futs[f].outcomes| == 0;
    if run != [] {
      var (t, ch) := (run[0].t, run[0].ch);
      StepContinues(cfg, s, t, ch);
      ReachableStep(cfg, s, t, ch);
      SkippedForGood(cfg, Step(cfg, s, t, ch).value, run[1..], f);
    }
  }

  // ---- A connection with one client --------------------------------------------------

  /** Open, with one client at p, the writer at w and the write lock as given; the reader has not moved. */
  ghost function Alone(d: Data, m: Mail, w: WriterPc, lock: Option<Tid>, p: ClientPc): State {
    State(Sync(false, false, lock, None, None, None, None, 0, 0, 0), d, m, w, Listening(ListenWantR), map[0 := p])
  }

  lemma ClientGoes(cfg: Config, d: Data, m: Mail, w: WriterPc, lock: Option<Tid>, p: ClientPc, ch: Choice,
      d': Data, lock': Option<Tid>, p': ClientPc)
    requires Reachable(cfg, Alone(d, m, w, lock, p)) && w.Checking?
    requires p.Writing? || (p.Idle? && ch.CallWrite?)
    requires ClientStep(cfg, Alone(d, m, w, lock, p), 0, ch) == Some(Alone(d', m, w, lock', p).(c := map[0 := p][0 := p']))
    ensures Reachable(cfg, Alone(d', m, w, lock', p'))
  {
    ReachableStep(cfg, Alone(d, m, w, lock, p), Client(0), ch);
    assert map[0 := p][0 := p'] == map[0 := p'];
  }

  lemma WriterGoes(cfg: Config, d: Data, m: Mail, w: WriterPc, lock: Option<Tid>, d': Data, lock': Option<Tid>, w': WriterPc)
    requires Reachable(cfg, Alone(d, m, w, lock, Idle))
    requires WriterStep(cfg, Alone(d, m, w, lock, Idle), Plain) == Some(Alone(d', m, w', lock', Idle))
    ensures Reachable(cfg, Alone(d', m, w', lock', Idle))
  {
    ReachableStep(cfg, Alone(d, m, w, lock, Idle), Writer, Plain);
  }

  const START := Checking(Start(false, false))

  /** The client writes. */
  lemma ClientWrites(cfg: Config, d: Data, m: Mail)
    requires Reachable(cfg, Alone(d, m, START, None, Idle)) && d.pendingWrites == []
    ensures Reachable(cfg, Alone(Enqueue(d, WriteFuture(d.nextId)), m, START, None, Idle))
  {
    var lock := Some(Client(0));
    ClientGoes(cfg, d, m, START, None, Idle, CallWrite, d, None, Writing(WantW));
    ClientGoes(cfg, d, m, START, None, Writing(WantW), Plain, d, lock, Writing(WriteTestClosing));
    ClientGoes(cfg, d, m, START, lock, Writing(WriteTestClosing), Plain, d, lock, Writing(WriteTestClosed));
    ClientGoes(cfg, d, m, START, lock, Writing(WriteTestClosed), Plain, d, lock, Writing(Insert));
    ClientInserts(cfg, d, m);
  }

  lemma ClientInserts(cfg: Config, d: Data, m: Mail)
    requires Reachable(cfg, Alone(d, m, START, Some(Client(0)), Writing(Insert))) && d.pendingWrites == []
    ensures Reachable(cfg, Alone(Enqueue(d, WriteFuture(d.nextId)), m, START, None, Idle))
  {
    var lock := Some(Client(0));
    var d', item := Enqueue(d, WriteFuture(d.nextId)), Item(d.nextId, |d.futs|);
    ClientGoes(cfg, d, m, START, lock, Writing(Insert), Plain, d', lock, Writing(NotifyInsert(item)));
    ClientGoes(cfg, d', m, START, lock, Writing(NotifyInsert(item)), Plain, d', lock, Writing(ReleaseInsert(Some(item))));
    ClientGoes(cfg, d', m, START, lock, Writing(ReleaseInsert(Some(item))), Plain, d', None, Idle);
  }

  /** The writer comes to the queue. */
  lemma WriterComes(cfg: Config, d: Data, m: Mail)
    requires Reachable(cfg, Alone(d, m, START, None, Idle))
    ensures Reachable(cfg, Alone(d, m, Checking(Take), Some(Writer), Idle))
  {
    var lock := Some(Writer);
    WriterGoes(cfg, d, m, START, None, d, None, Checking(CheckWantW));
    WriterGoes(cfg, d, m, Checking(CheckWantW), None, d, lock, Checking(CheckTestClosing));
    WriterGoes(cfg, d, m, Checking(CheckTestClosing), lock, d, lock, Checking(CheckTestClosed));
    WriterGoes(cfg, d, m, Checking(CheckTestClosed), lock, d, lock, Checking(Take));
  }

  /** After one write: sent, or skipped for want of a buffer. */
  ghost function AfterWrite(cfg: Config, d: Data): Data {
    var e := d.(nextId := d.nextId + 1, futs := d.futs + [Future(WriteFuture(d.nextId), [])]);
    if cfg.noBuff(d.nextId) then e.(skipped := d.skipped + {|d.futs|})
    else e.(futs := d.futs + [Future(WriteFuture(d.nextId), [Written])])
  }

  lemma SentFuture(futs: seq<Future>, kind: Kind)
    ensures Resolve(futs + [Future(kind, [])], |futs|, Written) == futs + [Future(kind, [Written])]
  {
    assert [] + [Written] == [Written];
  }

  lemma OneWrite(cfg: Config, d: Data, m: Mail)
    requires Reachable(cfg, Alone(d, m, START, None, Idle)) && d.pendingWrites == []
    ensures Reachable(cfg, Alone(AfterWrite(cfg, d), m, START, None, Idle))
  {
    ClientWrites(cfg, d, m);
    var d1, item, lock := Enqueue(d, WriteFuture(d.nextId)), Item(d.nextId, |d.futs|), Some(Writer);
    WriterComes(cfg, d1, m);
    assert d1.pendingWrites[0] == item && d1.pendingWrites[1..] == [];
    if cfg.noBuff(item.id) {
      var d2 := AfterWrite(cfg, d);
      WriterGoes(cfg, d1, m, Checking(Take), lock, d2, lock, Sending(Release(false, false, None)));
      WriterGoes(cfg, d2, m, Sending(Release(false, false, None)), lock, d2, None, START);
    } else {
      WriterSends(cfg, d1, m, item);
      SentFuture(d.futs, WriteFuture(d.nextId));
    }
  }

  lemma WriterSends(cfg: Config, d: Data, m: Mail, item: Item)
    requires Reachable(cfg, Alone(d, m, Checking(Take), Some(Writer), Idle))
    requires d.pendingWrites == [item] && !cfg.noBuff(item.id)
    ensures Reachable(cfg, Alone(d.(pendingWrites := [], futs := Resolve(d.futs, item.fut, Written)), m, START, None, Idle))
  {
    var d1, lock := d.(pendingWrites := []), Some(Writer);
    assert d.pendingWrites[1..] == [];
    WriterGoes(cfg, d, m, Checking(Take), lock, d1, lock, Sending(Release(false, false, Some(item))));
    WriterGoes(cfg, d1, m, Sending(Release(false, false, Some(item))), lock, d1, None, Sending(TestExpired(item)));
    WriterGoes(cfg, d1, m, Sending(TestExpired(item)), None, d1, None, Sending(Transmit(item)));
    WriterGoes(cfg, d1, m, Sending(Transmit(item)), None, d1.(futs := Resolve(d.futs, item.fut, Written)), None, START);
  }

  ghost const NO_MAIL := Init({}).mail

  /** A run of writes one after the other, up to the id n. */
  lemma {:induction false} WritesUpTo(cfg: Config, n: nat) returns (d: Data)
    requires cfg.Valid() && n >= 1
    ensures Reachable(cfg, Alone(d, NO_MAIL, START, None, Idle))
    ensures d.nextId == n && d.pendingWrites == [] && d.pendingReads == [] && d.pool == []
  {
    if n == 1 {
      d := Init({0}).data;
      assert Init({0}).c == map[0 := Idle];
      assert Exec(cfg, Init({0}), []) == Some(Alone(d, NO_MAIL, START, None, Idle));
    } else {
      var before := WritesUpTo(cfg, n - 1);
      OneWrite(cfg, before, NO_MAIL);
      d := AfterWrite(cfg, before);
    }
  }

  // ---- Closing it --------------------------------------------------------------------

  ghost predicate JustClosed(s: State, d: Data) {
    && s.sync.closed && !s.sync.closing && s.sync.closer == None && s.sync.wLock == None && s.sync.rLock == None
    && s.data == d && s.w == START && s.r == Listening(ListenWantR)
  }

  lemma NothingToFail(futs: seq<Future>)
    ensures FailAll(futs, []) == futs
  {
  }

  /** The client closes the connection. */
  lemma ClientCloses(cfg: Config, d: Data, m: Mail) returns (s: State)
    requires Reachable(cfg, Alone(d, m, START, None, Idle))
    requires d.pendingWrites == [] && d.pendingReads == [] && d.pool == []
    ensures Reachable(cfg, s) && JustClosed(s, d)
  {
    var c := map[0 := Idle];
    var s0 := StartClose(cfg, Alone(d, m, START, None, Idle), c, 0);
    var y1 := s0.sync.(cLock := Some(Client(0)));
    var s1 := Advance(cfg, s0, c, 0, WantC, y1, LockedClosed);
    var s2 := Advance(cfg, s1, c, 0, LockedClosed, y1, LockedClosing);
    var s3 := Advance(cfg, s2, c, 0, LockedClosing, y1.(closer := Some(Client(0)), passed := 1), SetClosing);
    var s4 := CloseBody(cfg, s3, c, 0);
    NothingToFail(d.futs);
    s := CloseReturns(cfg, s4, c);
  }

  lemma CloseReturns(cfg: Config, s: State, c: map<nat, ClientPc>) returns (next: State)
    requires Reachable(cfg, s) && Quiet(s) && ClosingAt(s, c, 0, SetClosed)
    requires s.w == START && s.r == Listening(ListenWantR)
    ensures Reachable(cfg, next) && JustClosed(next, s.data)
  {
    var s1 := Advance(cfg, s, c, 0, SetClosed, s.sync.(closed := true), ClearClosing);
    ReachableStep(cfg, s1, Client(0), Plain);
    next := ClientStep(cfg, s1, 0, Plain).value;
  }

  lemma Goes(cfg: Config, s: State, t: Tid, next: State)
    requires Reachable(cfg, s) && Exists(s, t) && Step(cfg, s, t, Plain) == Some(next)
    ensures Reachable(cfg, next)
  {
    ReachableStep(cfg, s, t, Plain);
  }

  /** Both threads see it and exit. */
  lemma ThreadsExit(cfg: Config, s: State, d: Data) returns (next: State)
    requires Reachable(cfg, s) && JustClosed(s, d)
    ensures Reachable(cfg, next) && Finished(next) && next.data == d
  {
    var s1 := s.(w := Checking(CheckWantW));
    Goes(cfg, s, Writer, s1);
    var s2 := s.(sync := s.sync.(wLock := Some(Writer)), w := Checking(CheckTestClosing));
    Goes(cfg, s1, Writer, s2);
    var s3 := s2.(w := Checking(CheckTestClosed));
    Goes(cfg, s2, Writer, s3);
    var s4 := s2.(w := Checking(ReleaseExit));
    Goes(cfg, s3, Writer, s4);
    var s5 := s.(w := WriterExited);
    assert s4.sync.(wLock := None) == s.sync;
    Goes(cfg, s4, Writer, s5);
    next := ReaderExits(cfg, s5);
  }

  lemma ReaderExits(cfg: Config, s: State) returns (next: State)
    requires Reachable(cfg, s) && s.sync.closed && !s.sync.closing && s.sync.closer == None && s.sync.rLock == None
    requires s.w == WriterExited && s.r == Listening(ListenWantR)
    ensures Reachable(cfg, next) && Finished(next) && next.data == s.data
  {
    var s1 := s.(sync := s.sync.(rLock := Some(Reader)), r := Listening(ListenTestClosing));
    Goes(cfg, s, Reader, s1);
    var s2 := s1.(r := Listening(ListenTestClosed));
    Goes(cfg, s1, Reader, s2);
    var s3 := s1.(r := Routing(RRelease(true)));
    Goes(cfg, s2, Reader, s3);
    next := s.(r := ReaderExited);
    assert s3.sync.(rLock := None) == s.sync;
    Goes(cfg, s3, Reader, next);
  }

  // ---- When a write is left unresolved -----------------------------------------------

  /** A finished connection with an unresolved future of the write under id. */
  ghost predicate LeftUnresolved(cfg: Config, s: State, id: nat) {
    Reachable(cfg, s) && Finished(s) && Future(WriteFuture(id), []) in s.data.futs
  }

  /**
    Main result: the write under an id can be left unresolved by a finished connection if and only if it
    was given no buffer.
   */
  lemma LeftUnresolvedExactly(cfg: Config, id: nat)
    requires cfg.Valid() && id >= 1
    ensures (exists s :: LeftUnresolved(cfg, s, id)) <==> cfg.noBuff(id)
  {
    if cfg.noBuff(id) {
      var d := WritesUpTo(cfg, id);
      OneWrite(cfg, d, NO_MAIL);
      var d' := AfterWrite(cfg, d);
      var s := ClientCloses(cfg, d', NO_MAIL);
      var last := ThreadsExit(cfg, s, d');
      assert d'.futs[|d.futs|] == Future(WriteFuture(id), []);
      assert LeftUnresolved(cfg, last, id);
    }
    if s :| LeftUnresolved(cfg, s, id) {
      EverythingResolvedAfterClose(cfg, s);
      var f :| 0 <= f < |s.data.futs| && s.data.futs[f] == Future(WriteFuture(id), []);
      assert ClientFuture(s.data.futs[f]) && f in s.data.skipped;
    }
  }
}
