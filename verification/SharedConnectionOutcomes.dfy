/**
  What the futures of a SharedConnection hold, and why: the outcomes of every future over every run are
  the verdicts passed on it, in order, each by the transport, the peer, a full table or close().
 */
module SharedConnectionOutcomes {
  import opened Wrappers
  import opened SharedConnection
  import opened SharedConnectionLocks
  import opened SharedConnectionFutures
  import opened SharedConnectionTables
  import opened SharedConnectionRuns
  import L = LruSpec

  // ---- Verdicts ----------------------------------------------------------------------

  /** What the writer learns about the item in its hand. */
  ghost function WriterVerdict(w: WriterPc, ch: Choice, f: nat): Option<Outcome> {
    match w
    case Sending(TestExpired(item)) => if item.fut == f && ch == Expired then Some(WriteTimeout) else None
    case Sending(Transmit(item)) =>
      if item.fut != f then None
      else if ch == SendTimeout then Some(WriteTimeout)
      else if ch == SendError then Some(WriteAbort)
      else Some(Written)
    case _ => None
  }

  /** The future that a table has under an id. */
  ghost predicate Waits(table: L.Recency<nat, nat>, id: nat, f: nat) {
    exists i :: 0 <= i < |table| && table[i] == L.Slot(id, f)
  }

  ghost predicate Lacks<V>(table: L.Recency<nat, V>, id: nat) {
    forall i :: 0 <= i < |table| ==> table[i].key != id
  }

  /** A response resolves the heartbeat or the read under its id; one that nobody awaits comes with a new future. */
  ghost function ReaderVerdict(d: Data, r: ReaderPc, f: nat): Option<Outcome> {
    match r
    case Routing(HLook(m)) => if Waits(d.heartbeats, m.id, f) then Some(Body(m.buff)) else None
    case Routing(Deliver(m)) =>
      if Waits(d.pendingReads, m.id, f) || (Lacks(d.pendingReads, m.id) && f == |d.futs|) then Some(Body(m.buff)) else None
    case _ => None
  }

  /** A read of a new id pushes out the read that has waited longest untouched, if the table is full. */
  ghost function ReadVerdict(cfg: Config, d: Data, id: nat, f: nat): Option<Outcome> {
    if Lacks(d.pool, id) && Lacks(d.pendingReads, id) && |d.pendingReads| == cfg.maxReads > 0
      && d.pendingReads[cfg.maxReads - 1].value == f
    then Some(TooManyReads) else None
  }

  ghost function CloseVerdict(d: Data, p: ClosePc, f: nat): Option<Outcome> {
    match p
    case Drain => if d.pendingWrites != [] && d.pendingWrites[0].fut == f then Some(WriteAbort) else None
    case Sweep => if Holds(d.pendingReads, f) then Some(ReadAbort) else None
    case _ => None
  }

  /** What a step of thread t says about future f. */
  ghost function Verdict(cfg: Config, s: State, t: Tid, ch: Choice, f: nat): Option<Outcome>
    requires Exists(s, t)
  {
    if ClosePoint(s, t).Some? then CloseVerdict(s.data, ClosePoint(s, t).value, f)
    else match t
      case Writer => WriterVerdict(s.w, ch, f)
      case Reader => ReaderVerdict(s.data, s.r, f)
      case Client(n) =>
        match s.c[n]
        case Reading(id, Serve) => ReadVerdict(cfg, s.data, id, f)
        case _ => None
  }

  ghost function Outcomes(futs: seq<Future>, f: nat): seq<Outcome> {
    if f < |futs| then futs[f].outcomes else []
  }

  ghost function With(outcomes: seq<Outcome>, v: Option<Outcome>): seq<Outcome> {
    if v.Some? then outcomes + [v.value] else outcomes
  }

  // ---- One step ----------------------------------------------------------------------

  lemma WaitsMeans(table: L.Recency<nat, nat>, id: nat, f: nat)
    requires L.Distinct(table)
    ensures Waits(table, id, f) <==> L.Has(table, id) && L.Lookup(table, id) == Some(f)
  {
    L.HasMeans(table, id);
    if L.Has(table, id) {
      var i := L.Find(table, id);
      assert table[i].key == id;
      forall j | 0 <= j < |table| && table[j].key == id ensures j == i {}
      assert table[i] == L.Slot(id, table[i].value);
    }
  }

  lemma LacksMeans<V>(table: L.Recency<nat, V>, id: nat)
    ensures Lacks(table, id) <==> !L.Has(table, id)
  {
    L.HasMeans(table, id);
  }

  lemma Resolved(futs: seq<Future>, g: nat, o: Outcome, f: nat)
    requires g < |futs|
    ensures Outcomes(Resolve(futs, g, o), f) == With(Outcomes(futs, f), if f == g then Some(o) else None)
  {
  }

  lemma Added(futs: seq<Future>, kind: Kind, f: nat)
    ensures Outcomes(futs + [Future(kind, [])], f) == Outcomes(futs, f)
  {
  }

  lemma CloseJudges(cfg: Config, d: Data, hand: Option<Item>, p: ClosePc, f: nat)
    requires WriteInv(cfg, d, hand) && PendingOk(cfg, d)
    ensures Outcomes(CloseData(d, p).futs, f) == With(Outcomes(d.futs, f), CloseVerdict(d, p, f))
  {
    if p.Drain? && d.pendingWrites != [] {
      assert ItemOk(d, d.pendingWrites[0]);
      Resolved(d.futs, d.pendingWrites[0].fut, WriteAbort, f);
    }
  }

  lemma ReadJudges(cfg: Config, d: Data, id: nat, f: nat)
    requires cfg.Valid() && PendingOk(cfg, d)
    ensures Outcomes(ServeRead(cfg, d, id).0.futs, f) == With(Outcomes(d.futs, f), ReadVerdict(cfg, d, id, f))
  {
    LacksMeans(d.pool, id);
    LacksMeans(d.pendingReads, id);
    if !L.Has(d.pool, id) && !L.Has(d.pendingReads, id) {
      match L.Victim(d.pendingReads, cfg.maxReads)
      case None => Added(d.futs, ReadFuture(id), f);
      case Some(slot) =>
        Resolved(d.futs, slot.value, TooManyReads, f);
        Added(Resolve(d.futs, slot.value, TooManyReads), ReadFuture(id), f);
    }
  }

  lemma WriterJudges(cfg: Config, s: State, ch: Choice, t: State, f: nat)
    requires !s.w.WriterClosing? && WriterStep(cfg, s, ch) == Some(t) && WriteInv(cfg, s.data, Hand(s.w))
    ensures Outcomes(t.data.futs, f) == With(Outcomes(s.data.futs, f), WriterVerdict(s.w, ch, f))
  {
    match s.w {
      case Checking(p) => assert t.data.futs == s.data.futs;
      case Waiting(p) =>
        assert t.data.futs == s.data.futs || t.data.futs == s.data.futs + [Future(HeartbeatFuture(s.data.nextId), [])];
      case Sending(p) => SendJudges(s, p, ch, t, f);
    }
  }

  lemma SendJudges(s: State, p: SendPc, ch: Choice, t: State, f: nat)
    requires SendStep(s, p, ch) == Some(t) && (p.Release? || p.item.fut < |s.data.futs|)
    ensures Outcomes(t.data.futs, f) == With(Outcomes(s.data.futs, f), WriterVerdict(Sending(p), ch, f))
  {
    if !p.Release? {
      Resolved(s.data.futs, p.item.fut, WriteTimeout, f);
      Resolved(s.data.futs, p.item.fut, WriteAbort, f);
      Resolved(s.data.futs, p.item.fut, Written, f);
    }
  }

  lemma DeliverJudges(cfg: Config, d: Data, m: Msg, f: nat)
    requires cfg.Valid() && PendingOk(cfg, d)
    ensures Outcomes(DeliverData(cfg, d, m).futs, f) == With(Outcomes(d.futs, f), ReaderVerdict(d, Routing(Deliver(m)), f))
  {
    WaitsMeans(d.pendingReads, m.id, f);
    LacksMeans(d.pendingReads, m.id);
    if L.Has(d.pendingReads, m.id) {
      Resolved(d.futs, L.Lookup(d.pendingReads, m.id).value, Body(m.buff), f);
    } else {
      assert f == |d.futs| ==> [] + [Body(m.buff)] == [Body(m.buff)];
    }
  }

  lemma ReaderJudges(cfg: Config, s: State, ch: Choice, t: State, f: nat)
    requires cfg.Valid() && !s.r.ReaderClosing? && ReaderStep(cfg, s, ch) == Some(t)
    requires PendingOk(cfg, s.data) && HeartbeatsOk(s.data)
    ensures Outcomes(t.data.futs, f) == With(Outcomes(s.data.futs, f), ReaderVerdict(s.data, s.r, f))
  {
    match s.r {
      case Listening(p) => assert t.data.futs == s.data.futs;
      case Routing(p) =>
        if p.Deliver? {
          DeliverJudges(cfg, s.data, p.msg, f);
        } else if p.HLook? {
          WaitsMeans(s.data.heartbeats, p.msg.id, f);
          if L.Has(s.data.heartbeats, p.msg.id) {
            Resolved(s.data.futs, L.Lookup(s.data.heartbeats, p.msg.id).value, Body(p.msg.buff), f);
          }
        } else {
          assert t.data.futs == s.data.futs;
        }
    }
  }

  lemma ClientJudges(cfg: Config, s: State, n: nat, ch: Choice, t: State, f: nat)
    requires cfg.Valid() && n in s.c && !s.c[n].ClientClosing? && ClientStep(cfg, s, n, ch) == Some(t)
    requires PendingOk(cfg, s.data)
    ensures Outcomes(t.data.futs, f) == With(Outcomes(s.data.futs, f), Verdict(cfg, s, Client(n), ch, f))
  {
    match s.c[n] {
      case Idle => assert t.data.futs == s.data.futs;
      case Writing(p) =>
        assert t.data.futs == s.data.futs || t.data.futs == s.data.futs + [Future(WriteFuture(s.data.nextId), [])];
      case Reading(id, p) =>
        if p.Serve? {
          ReadJudges(cfg, s.data, id, f);
        } else {
          assert t.data.futs == s.data.futs;
        }
    }
  }

  lemma CloseStepJudges(cfg: Config, s: State, t: Tid, p: ClosePc, f: nat)
    requires Exists(s, t) && CloseStep(s, t, p).Some? && WriteInv(cfg, s.data, Hand(s.w)) && PendingOk(cfg, s.data)
    ensures Outcomes(CloseStep(s, t, p).value.data.futs, f) == With(Outcomes(s.data.futs, f), CloseVerdict(s.data, p, f))
  {
    assert CloseStep(s, t, p).value.data == CloseData(s.data, p);
    CloseJudges(cfg, s.data, Hand(s.w), p, f);
  }

  /** Every step adds to every future its verdict and nothing else. */
  lemma StepJudges(cfg: Config, s: State, t: Tid, ch: Choice, f: nat)
    requires Inv(cfg, s) && Exists(s, t) && Step(cfg, s, t, ch).Some?
    ensures Outcomes(Step(cfg, s, t, ch).value.data.futs, f) == With(Outcomes(s.data.futs, f), Verdict(cfg, s, t, ch, f))
  {
    var s' := Step(cfg, s, t, ch).value;
    if ClosePoint(s, t).Some? {
      CloseStepJudges(cfg, s, t, ClosePoint(s, t).value, f);
    } else {
      match t {
        case Client(n) => ClientJudges(cfg, s, n, ch, s', f);
        case Writer => WriterJudges(cfg, s, ch, s', f);
        case Reader => ReaderJudges(cfg, s, ch, s', f);
      }
    }
  }

  // ---- Whole runs --------------------------------------------------------------------

  /** The verdicts a run passes on future f, in order. */
  ghost function Verdicts(cfg: Config, s: State, run: seq<Event>, f: nat): seq<Outcome>
    requires cfg.Valid()
    decreases run
  {
    if run == [] || !Exists(s, run[0].t) || Step(cfg, s, run[0].t, run[0].ch).None? then []
    else
      var rest := Verdicts(cfg, Step(cfg, s, run[0].t, run[0].ch).value, run[1..], f);
      With([], Verdict(cfg, s, run[0].t, run[0].ch, f)) + rest
  }

  lemma {:induction false} RunJudges(cfg: Config, s: State, run: seq<Event>, f: nat)
    requires Inv(cfg, s) && Exec(cfg, s, run).Some?
    ensures Outcomes(Exec(cfg, s, run).value.data.futs, f) == Outcomes(s.data.futs, f) + Verdicts(cfg, s, run, f)
    decreases run
  {
    if run == [] {
      assert Outcomes(s.data.futs, f) + [] == Outcomes(s.data.futs, f);
    } else {
      var (t, ch) := (run[0].t, run[0].ch);
      var s' := Step(cfg, s, t, ch).value;
      StepKeepsInv(cfg, s, t, ch);
      StepJudges(cfg, s, t, ch, f);
      RunJudges(cfg, s', run[1..], f);
      Chain(Outcomes(s.data.futs, f), Verdict(cfg, s, t, ch, f), Verdicts(cfg, s', run[1..], f));
    }
  }

  lemma Chain(a: seq<Outcome>, v: Option<Outcome>, b: seq<Outcome>)
    ensures With(a, v) + b == a + (With([], v) + b)
  {
  }

  /** Main result: over every run the outcomes of a future are exactly the verdicts passed on it, in order. */
  lemma OutcomesAreVerdicts(cfg: Config, clients: set<nat>, run: seq<Event>, f: nat)
    requires cfg.Valid() && Exec(cfg, Init(clients), run).Some?
    ensures Outcomes(Exec(cfg, Init(clients), run).value.data.futs, f) == Verdicts(cfg, Init(clients), run, f)
  {
    InitInv(cfg, clients);
    RunJudges(cfg, Init(clients), run, f);
    assert [] + Verdicts(cfg, Init(clients), run, f) == Verdicts(cfg, Init(clients), run, f);
  }

  /** The transport takes the item of future f in this step. */
  ghost predicate Transmitted(w: WriterPc, e: Event, f: nat) {
    e.t == Writer && w.Sending? && w.sd.Transmit? && w.sd.item.fut == f && e.ch != SendTimeout && e.ch != SendError
  }

  ghost predicate SomeTransmits(cfg: Config, s: State, run: seq<Event>, f: nat)
    requires cfg.Valid()
    decreases run
  {
    && run != [] && Exists(s, run[0].t) && Step(cfg, s, run[0].t, run[0].ch).Some?
    && (Transmitted(s.w, run[0], f) || SomeTransmits(cfg, Step(cfg, s, run[0].t, run[0].ch).value, run[1..], f))
  }

  lemma {:induction false} WrittenByTransmission(cfg: Config, s: State, run: seq<Event>, f: nat)
    requires cfg.Valid()
    ensures Written in Verdicts(cfg, s, run, f) <==> SomeTransmits(cfg, s, run, f)
    decreases run
  {
    if run != [] && Exists(s, run[0].t) && Step(cfg, s, run[0].t, run[0].ch).Some? {
      var s' := Step(cfg, s, run[0].t, run[0].ch).value;
      WrittenByTransmission(cfg, s', run[1..], f);
      assert Verdict(cfg, s, run[0].t, run[0].ch, f) == Some(Written) <==> Transmitted(s.w, run[0], f);
    }
  }

  /** Main result: a future says that its item was written if and only if the transport's write of it came back. */
  lemma WrittenExactly(cfg: Config, clients: set<nat>, run: seq<Event>, f: nat)
    requires cfg.Valid() && Exec(cfg, Init(clients), run).Some?
    ensures Written in Outcomes(Exec(cfg, Init(clients), run).value.data.futs, f) <==> SomeTransmits(cfg, Init(clients), run, f)
  {
    OutcomesAreVerdicts(cfg, clients, run, f);
    WrittenByTransmission(cfg, Init(clients), run, f);
  }

  // ---- After a failed transmission ---------------------------------------------------

  ghost predicate WriterGone(w: WriterPc) {
    w.WriterClosing? || w.WriterExited?
  }

  /** A socket timeout or error in the transport sends the writer into close(); a write that comes back does not. */
  lemma FailedSendCloses(cfg: Config, s: State, ch: Choice)
    requires cfg.Valid() && s.w.Sending? && s.w.sd.Transmit?
    ensures var r := Step(cfg, s, Writer, ch);
      && r.Some?
      && (ch == SendTimeout || ch == SendError ==> r.value.w == WriterClosing(GuardClosed))
      && (ch != SendTimeout && ch != SendError ==> r.value.w == Checking(Start(false, false)))
  {
  }

  lemma StepKeepsGone(cfg: Config, s: State, t: Tid, ch: Choice)
    requires Inv(cfg, s) && Exists(s, t) && Step(cfg, s, t, ch).Some? && WriterGone(s.w)
    ensures WriterGone(Step(cfg, s, t, ch).value.w)
  {
    StepMoves(cfg, s, t, ch);
    if t == Writer {
      assert s.w.WriterClosing? && Step(cfg, s, t, ch) == CloseStep(s, Writer, s.w.cpc);
    }
  }

  /** Once the writer is in close(), it never transmits again. */
  lemma {:induction false} GoneForGood(cfg: Config, s: State, run: seq<Event>, f: nat)
    requires Reachable(cfg, s) && WriterGone(s.w)
    ensures !SomeTransmits(cfg, s, run, f)
    decreases run
  {
    if run != [] && Exists(s, run[0].t) && Step(cfg, s, run[0].t, run[0].ch).Some? {
      ReachableInv(cfg, s);
      StepKeepsGone(cfg, s, run[0].t, run[0].ch);
      ReachableStep(cfg, s, run[0].t, run[0].ch);
      GoneForGood(cfg, Step(cfg, s, run[0].t, run[0].ch).value, run[1..], f);
    }
  }
}
