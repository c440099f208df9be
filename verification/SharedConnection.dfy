/**
  connection.py, SharedBlockingConnection: any number of client threads calling write, read and
  close, one writer thread and one reader thread, as a step system. A step is one lock
  acquisition or release, one park or wake-up, one read of _closing or of _closed, or one action
  on the tables that the lock held at that point protects. Futures are numbered in the order of
  their creation and remember every resolution they receive.
 */
module SharedConnection {
  import opened Wrappers
  import L = LruSpec

  type Buff = string

  datatype Msg = Msg(id: nat, buff: Buff)

  /** noBuff says for which ids write() is given None, or the heartbeat function returns it. */
  datatype Config = Config(
    maxWrites: nat, maxReads: nat, maxPool: nat, hasInterval: bool, hasHeartbeat: bool, noBuff: nat -> bool)
  {
    ghost predicate Valid() {
      maxWrites >= 1 && maxReads >= 1 && maxPool >= 1
    }
  }

  /** The capacity of the heartbeat table. */
  const MAX_HEARTBEATS: nat := 4

  datatype Tid = Writer | Reader | Client(n: nat)

  datatype Kind = WriteFuture(id: nat) | HeartbeatFuture(id: nat) | ReadFuture(id: nat)

  datatype Outcome = Written | WriteTimeout | WriteAbort | Body(buff: Buff) | TooManyReads | ReadAbort

  datatype Future = Future(kind: Kind, outcomes: seq<Outcome>)

  datatype Item = Item(id: nat, fut: nat)

  datatype Pooled = Pooled(fut: nat, buff: Buff)

  // ---- Program points ---------------------------------------------------------------

  /** close(), by whichever thread runs it. */
  datatype ClosePc =
    | GuardClosed | GuardClosing | WantC | LockedClosed | LockedClosing | Bail
    | SetClosing | UnlockC | CloseSocket
    | CloseWantW | Drain | NotifyW | ReleaseW
    | CloseWantR | Sweep | ClearPool | NotifyR | ReleaseR
    | SetClosed | ClearClosing

  /** write() */
  datatype WritePc =
    | WantW | WriteTestClosing | WriteTestClosed | Insert | NotifyInsert(item: Item)
    | ReleaseInsert(ticket: Option<Item>)

  /** read(id) */
  datatype ReadPc =
    | WantR | ReadTestClosing | ReadTestClosed | Serve | NotifyServe(fut: nat)
    | ReleaseServe(result: Option<nat>)

  datatype ClientPc = Idle | Writing(wpc: WritePc) | Reading(id: nat, rpc: ReadPc) | ClientClosing(cpc: ClosePc)

  /** The writer from the top of its loop to the point where it takes an item or parks. */
  datatype CheckPc =
    | Start(missing: bool, need: bool) | CheckWantR | CheckNotifyR
    | CheckWantW | CheckTestClosing | CheckTestClosed | Take | ReleaseExit

  /** The writer from its wake-up to the decision about a heartbeat. */
  datatype WaitPc =
    | Parked(notified: bool) | WokenWantW | RetestClosing | RetestClosed | Consider
    | Heartbeat | UnlockH(missing: bool, need: bool)

  /** The writer giving up the write lock, perhaps with an item in hand to send. */
  datatype SendPc = Release(missing: bool, need: bool, hand: Option<Item>) | TestExpired(item: Item) | Transmit(item: Item)

  datatype WriterPc = Checking(ck: CheckPc) | Waiting(wt: WaitPc) | Sending(sd: SendPc) | WriterClosing(cpc: ClosePc) | WriterExited

  /** The reader from the top of its loop to the socket. */
  datatype ListenPc =
    | ListenWantR | ListenTestClosing | ListenTestClosed | Look | WantH | Peek | Decide(has: bool)
    | ReaderParked(notified: bool) | WokenWantR | ReleaseLook(again: bool) | Receive

  /** The reader with a message in hand. */
  datatype RoutePc =
    | RouteWantH(msg: Msg) | HTestClosing(msg: Msg) | HTestClosed(msg: Msg) | HLook(msg: Msg) | HRelease(next: After)
    | RouteWantR(msg: Msg) | RTestClosing(msg: Msg) | RTestClosed(msg: Msg) | Deliver(msg: Msg) | RRelease(exit: bool)

  datatype After = ThenExit | ThenLoop | ThenDeliver(msg: Msg)

  datatype ReaderPc = Listening(ls: ListenPc) | Routing(rt: RoutePc) | ReaderClosing(cpc: ClosePc) | ReaderExited

  // ---- State ------------------------------------------------------------------------

  /** Flags and locks, with the history of close(). */
  datatype Sync = Sync(
    closing: bool,
    closed: bool,
    wLock: Option<Tid>,   // _write_condition
    rLock: Option<Tid>,   // _read_condition
    hLock: Option<Tid>,   // _heartbeat_lock
    cLock: Option<Tid>,   // _close_lock
    closer: Option<Tid>,  // history: the thread past close()'s guard that has not returned
    passed: nat,          // history: how often that guard was passed
    drained: nat,         // history: how often _close_write got the write lock
    swept: nat)           // history: how often _close_read failed the pending reads

  /** The tables, and every future ever created. */
  datatype Data = Data(
    pendingWrites: seq<Item>,            // top of the stack first
    pendingReads: L.Recency<nat, nat>,   // id to future
    pool: L.Recency<nat, Pooled>,        // id to resolved future
    heartbeats: L.Recency<nat, nat>,     // id to future
    nextId: nat,
    futs: seq<Future>,
    skipped: set<nat>)                   // history: futures of popped items without a buffer

  /** History: where every response went. */
  datatype Mail = Mail(
    received: multiset<Msg>,
    toHeartbeat: multiset<Msg>,
    toReader: multiset<Msg>,
    fromPool: multiset<Msg>,
    refused: multiset<Msg>,     // received while closing
    overflowed: multiset<Msg>,  // pushed out of the pool
    cleared: multiset<Msg>)     // in the pool when it was cleared

  datatype State = State(sync: Sync, data: Data, mail: Mail, w: WriterPc, r: ReaderPc, c: map<nat, ClientPc>)

  /** What the environment decides at a step. */
  datatype Choice =
    | Plain
    | CallWrite | CallRead(id: nat) | CallClose
    | WaitTimeout | Expired | SendTimeout | SendError
    | Got(msg: Msg) | ReceiveError

  ghost function Init(clients: set<nat>): State {
    State(Sync(false, false, None, None, None, None, None, 0, 0, 0),
          Data([], [], [], [], 1, [], {}),
          Mail(multiset{}, multiset{}, multiset{}, multiset{}, multiset{}, multiset{}, multiset{}),
          Checking(Start(false, false)), Listening(ListenWantR), map n | n in clients :: Idle)
  }

  ghost predicate Exists(s: State, t: Tid) {
    t.Client? ==> t.n in s.c
  }

  // ---- Futures and tables -----------------------------------------------------------

  ghost function Resolve(futs: seq<Future>, f: nat, o: Outcome): (r: seq<Future>)
    ensures |r| == |futs|
    ensures forall i :: 0 <= i < |r| && i != f ==> r[i] == futs[i]
    ensures f < |r| ==> r[f] == Future(futs[f].kind, futs[f].outcomes + [o])
  {
    if f < |futs| then futs[f := Future(futs[f].kind, futs[f].outcomes + [o])] else futs
  }

  ghost predicate Holds<K, V>(c: L.Recency<K, V>, v: V) {
    exists i :: 0 <= i < |c| && c[i].value == v
  }

  /** _close_read's loop: every future in the table of pending reads fails. */
  ghost function FailAll(futs: seq<Future>, pendingReads: L.Recency<nat, nat>): (r: seq<Future>)
    ensures |r| == |futs|
    ensures forall i :: 0 <= i < |r| ==>
      r[i] == if Holds(pendingReads, i) then Future(futs[i].kind, futs[i].outcomes + [ReadAbort]) else futs[i]
  {
    seq(|futs|, i requires 0 <= i < |futs| =>
      if Holds(pendingReads, i) then Future(futs[i].kind, futs[i].outcomes + [ReadAbort]) else futs[i])
  }

  ghost function PoolMsgs(pool: L.Recency<nat, Pooled>): multiset<Msg> {
    if pool == [] then multiset{} else multiset{Msg(pool[0].key, pool[0].value.buff)} + PoolMsgs(pool[1..])
  }

  /** _update_pending_writes while there is room: a fresh id and a fresh future on the stack. */
  ghost function Enqueue(d: Data, kind: Kind): Data {
    d.(nextId := d.nextId + 1,
       futs := d.futs + [Future(kind, [])],
       pendingWrites := [Item(d.nextId, |d.futs|)] + d.pendingWrites)
  }

  /** notify_all on the write condition, where only the writer waits. */
  ghost function Wake(w: WriterPc): WriterPc {
    if w.Waiting? && w.wt.Parked? then Waiting(Parked(true)) else w
  }

  /** notify_all on the read condition, where only the reader waits. */
  ghost function WakeReader(r: ReaderPc): ReaderPc {
    if r.Listening? && r.ls.ReaderParked? then Listening(ReaderParked(true)) else r
  }

  // ---- close() ----------------------------------------------------------------------

  /** The flags, locks and counters after a step of close() by t, and the next program point, if any. */
  ghost function CloseSync(y: Sync, d: Data, t: Tid, p: ClosePc): Option<(Sync, Option<ClosePc>)> {
    match p
    case GuardClosed => Some((y, if y.closed then None else Some(GuardClosing)))
    case GuardClosing => Some((y, if y.closing then None else Some(WantC)))
    case WantC => if y.cLock.Some? then None else Some((y.(cLock := Some(t)), Some(LockedClosed)))
    case LockedClosed => Some((y, Some(if y.closed then Bail else LockedClosing)))
    case LockedClosing =>
      Some(if y.closing then (y, Some(Bail))
           else (y.(closer := Some(t), passed := y.passed + 1), Some(SetClosing)))
    case Bail => Some((y.(cLock := None), None))
    case SetClosing => Some((y.(closing := true), Some(UnlockC)))
    case UnlockC => Some((y.(cLock := None), Some(CloseSocket)))
    case CloseSocket => Some((y, Some(CloseWantW)))
    case CloseWantW =>
      if y.wLock.Some? then None else Some((y.(wLock := Some(t), drained := y.drained + 1), Some(Drain)))
    case Drain => Some((y, Some(if d.pendingWrites == [] then NotifyW else Drain)))
    case NotifyW => Some((y, Some(ReleaseW)))
    case ReleaseW => Some((y.(wLock := None), Some(CloseWantR)))
    case CloseWantR => if y.rLock.Some? then None else Some((y.(rLock := Some(t)), Some(Sweep)))
    case Sweep => Some((y.(swept := y.swept + 1), Some(ClearPool)))
    case ClearPool => Some((y, Some(NotifyR)))
    case NotifyR => Some((y, Some(ReleaseR)))
    case ReleaseR => Some((y.(rLock := None), Some(SetClosed)))
    case SetClosed => Some((y.(closed := true), Some(ClearClosing)))
    case ClearClosing => Some((y.(closing := false, closer := None), None))
  }

  /** What close() does to the tables and futures at a program point. */
  ghost function CloseData(d: Data, p: ClosePc): Data {
    match p
    case Drain =>
      if d.pendingWrites == [] then d
      else d.(pendingWrites := d.pendingWrites[1..], futs := Resolve(d.futs, d.pendingWrites[0].fut, WriteAbort))
    case Sweep => d.(futs := FailAll(d.futs, d.pendingReads))
    case ClearPool => d.(pool := [])
    case _ => d
  }

  ghost function CloseMail(m: Mail, d: Data, p: ClosePc): Mail {
    if p.ClearPool? then m.(cleared := m.cleared + PoolMsgs(d.pool)) else m
  }

  ghost function ClosePoint(s: State, t: Tid): Option<ClosePc>
    requires Exists(s, t)
  {
    match t
    case Writer => if s.w.WriterClosing? then Some(s.w.cpc) else None
    case Reader => if s.r.ReaderClosing? then Some(s.r.cpc) else None
    case Client(n) => if s.c[n].ClientClosing? then Some(s.c[n].cpc) else None
  }

  ghost function CloseStep(s: State, t: Tid, p: ClosePc): Option<State>
    requires Exists(s, t)
  {
    match CloseSync(s.sync, s.data, t, p)
    case None => None
    case Some((y, q)) =>
      var w := if p.NotifyW? then Wake(s.w) else s.w;
      var r := if p.NotifyR? then WakeReader(s.r) else s.r;
      Some(State(y, CloseData(s.data, p), CloseMail(s.mail, s.data, p),
        if t.Writer? then (if q.Some? then WriterClosing(q.value) else WriterExited) else w,
        if t.Reader? then (if q.Some? then ReaderClosing(q.value) else ReaderExited) else r,
        if t.Client? then s.c[t.n := if q.Some? then ClientClosing(q.value) else Idle] else s.c))
  }

  // ---- Clients ----------------------------------------------------------------------

  ghost function AtWrite(s: State, n: nat, p: WritePc): State {
    s.(c := s.c[n := Writing(p)])
  }

  ghost function WriteStep(cfg: Config, s: State, n: nat, p: WritePc): Option<State> {
    match p
    case WantW =>
      if s.sync.wLock.Some? then None
      else Some(AtWrite(s.(sync := s.sync.(wLock := Some(Client(n)))), n, WriteTestClosing))
    case WriteTestClosing => Some(AtWrite(s, n, if s.sync.closing then ReleaseInsert(None) else WriteTestClosed))
    case WriteTestClosed => Some(AtWrite(s, n, if s.sync.closed then ReleaseInsert(None) else Insert))
    case Insert =>
      // is_full never reports a full list; a full one raises ListFullError after the id is taken
      if |s.data.pendingWrites| >= cfg.maxWrites
      then Some(AtWrite(s.(data := s.data.(nextId := s.data.nextId + 1)), n, ReleaseInsert(None)))
      else Some(AtWrite(s.(data := Enqueue(s.data, WriteFuture(s.data.nextId))), n,
                        NotifyInsert(Item(s.data.nextId, |s.data.futs|))))
    case NotifyInsert(item) => Some(AtWrite(s.(w := Wake(s.w)), n, ReleaseInsert(Some(item))))
    case ReleaseInsert(_) => Some(s.(sync := s.sync.(wLock := None), c := s.c[n := Idle]))
  }

  ghost function AtRead(s: State, n: nat, id: nat, p: ReadPc): State {
    s.(c := s.c[n := Reading(id, p)])
  }

  /** The body of read(id) once the connection was seen open: tables, mail and the next point. */
  ghost function ServeRead(cfg: Config, d: Data, id: nat): (Data, multiset<Msg>, ReadPc)
    requires cfg.Valid()
  {
    if L.Has(d.pool, id) then
      var hit := L.Lookup(d.pool, id).value;
      (d.(pool := L.Del(d.pool, id)), multiset{Msg(id, hit.buff)}, ReleaseServe(Some(hit.fut)))
    else if L.Has(d.pendingReads, id) then
      (d.(pendingReads := L.Get(d.pendingReads, id)), multiset{}, ReleaseServe(L.Lookup(d.pendingReads, id)))
    else
      var futs := match L.Victim(d.pendingReads, cfg.maxReads)
        case None => d.futs
        case Some(slot) => Resolve(d.futs, slot.value, TooManyReads);
      (d.(futs := futs + [Future(ReadFuture(id), [])],
          pendingReads := L.Set(d.pendingReads, cfg.maxReads, id, |d.futs|)),
       multiset{}, NotifyServe(|d.futs|))
  }

  ghost function ReadStep(cfg: Config, s: State, n: nat, id: nat, p: ReadPc): Option<State>
    requires cfg.Valid()
  {
    match p
    case WantR =>
      if s.sync.rLock.Some? then None
      else Some(AtRead(s.(sync := s.sync.(rLock := Some(Client(n)))), n, id, ReadTestClosing))
    case ReadTestClosing => Some(AtRead(s, n, id, if s.sync.closing then ReleaseServe(None) else ReadTestClosed))
    case ReadTestClosed => Some(AtRead(s, n, id, if s.sync.closed then ReleaseServe(None) else Serve))
    case Serve =>
      var (d, taken, q) := ServeRead(cfg, s.data, id);
      Some(AtRead(s.(data := d, mail := s.mail.(fromPool := s.mail.fromPool + taken)), n, id, q))
    case NotifyServe(f) => Some(AtRead(s.(r := WakeReader(s.r)), n, id, ReleaseServe(Some(f))))
    case ReleaseServe(_) => Some(s.(sync := s.sync.(rLock := None), c := s.c[n := Idle]))
  }

  ghost function ClientStep(cfg: Config, s: State, n: nat, ch: Choice): Option<State>
    requires n in s.c && cfg.Valid()
  {
    match s.c[n]
    case Idle =>
      (match ch
       case CallWrite => Some(AtWrite(s, n, WantW))
       case CallRead(id) => Some(AtRead(s, n, id, WantR))
       case CallClose => Some(s.(c := s.c[n := ClientClosing(GuardClosed)]))
       case _ => None)
    case Writing(p) => WriteStep(cfg, s, n, p)
    case Reading(id, p) => ReadStep(cfg, s, n, id, p)
    case ClientClosing(p) => CloseStep(s, Client(n), p)
  }

  // ---- The writer thread ------------------------------------------------------------

  ghost function CheckStep(cfg: Config, s: State, p: CheckPc): Option<State> {
    match p
    case Start(missing, need) =>
      Some(s.(w := if missing then WriterClosing(GuardClosed) else Checking(if need then CheckWantR else CheckWantW)))
    case CheckWantR =>
      if s.sync.rLock.Some? then None
      else Some(s.(sync := s.sync.(rLock := Some(Writer)), w := Checking(CheckNotifyR)))
    case CheckNotifyR =>
      Some(s.(sync := s.sync.(rLock := None), r := WakeReader(s.r), w := Checking(CheckWantW)))
    case CheckWantW =>
      if s.sync.wLock.Some? then None
      else Some(s.(sync := s.sync.(wLock := Some(Writer)), w := Checking(CheckTestClosing)))
    case CheckTestClosing => Some(s.(w := Checking(if s.sync.closing then ReleaseExit else CheckTestClosed)))
    case CheckTestClosed => Some(s.(w := Checking(if s.sync.closed then ReleaseExit else Take)))
    case Take =>
      if s.data.pendingWrites == []
      then Some(s.(sync := s.sync.(wLock := None), w := Waiting(Parked(false))))
      else
        var item, rest := s.data.pendingWrites[0], s.data.pendingWrites[1..];
        // an item whose buffer is None is popped and forgotten
        if cfg.noBuff(item.id)
        then Some(s.(data := s.data.(pendingWrites := rest, skipped := s.data.skipped + {item.fut}),
                     w := Sending(Release(false, false, None))))
        else Some(s.(data := s.data.(pendingWrites := rest), w := Sending(Release(false, false, Some(item)))))
    case ReleaseExit => Some(s.(sync := s.sync.(wLock := None), w := WriterExited))
  }

  ghost function WaitStep(cfg: Config, s: State, p: WaitPc, ch: Choice): Option<State> {
    match p
    case Parked(notified) =>
      if notified || (ch == WaitTimeout && cfg.hasInterval) then Some(s.(w := Waiting(WokenWantW))) else None
    case WokenWantW =>
      if s.sync.wLock.Some? then None
      else Some(s.(sync := s.sync.(wLock := Some(Writer)), w := Waiting(RetestClosing)))
    case RetestClosing =>
      Some(s.(w := if s.sync.closing then Sending(Release(false, false, None)) else Waiting(RetestClosed)))
    case RetestClosed =>
      Some(s.(w := if s.sync.closed then Sending(Release(false, false, None)) else Waiting(Consider)))
    case Consider =>
      if s.data.pendingWrites != [] || !cfg.hasHeartbeat || !cfg.hasInterval
      then Some(s.(w := Sending(Release(false, false, None))))
      else if s.sync.hLock.Some? then None
      else Some(s.(sync := s.sync.(hLock := Some(Writer)), w := Waiting(Heartbeat)))
    case Heartbeat =>
      if |s.data.heartbeats| < MAX_HEARTBEATS
      then Some(s.(data := Enqueue(s.data, HeartbeatFuture(s.data.nextId))
                             .(heartbeats := L.Set(s.data.heartbeats, MAX_HEARTBEATS, s.data.nextId, |s.data.futs|)),
                   w := Waiting(UnlockH(false, true))))
      else Some(s.(w := Waiting(UnlockH(true, false))))
    case UnlockH(missing, need) =>
      Some(s.(sync := s.sync.(hLock := None), w := Sending(Release(missing, need, None))))
  }

  ghost function SendStep(s: State, p: SendPc, ch: Choice): Option<State> {
    match p
    case Release(missing, need, hand) =>
      Some(s.(sync := s.sync.(wLock := None),
              w := if hand.Some? then Sending(TestExpired(hand.value)) else Checking(Start(missing, need))))
    case TestExpired(item) =>
      if ch == Expired
      then Some(s.(data := s.data.(futs := Resolve(s.data.futs, item.fut, WriteTimeout)),
                   w := Checking(Start(false, false))))
      else Some(s.(w := Sending(Transmit(item))))
    case Transmit(item) =>
      var o := if ch == SendTimeout then WriteTimeout else if ch == SendError then WriteAbort else Written;
      Some(s.(data := s.data.(futs := Resolve(s.data.futs, item.fut, o)),
              w := if o == Written then Checking(Start(false, false)) else WriterClosing(GuardClosed)))
  }

  ghost function WriterStep(cfg: Config, s: State, ch: Choice): Option<State> {
    match s.w
    case Checking(p) => CheckStep(cfg, s, p)
    case Waiting(p) => WaitStep(cfg, s, p, ch)
    case Sending(p) => SendStep(s, p, ch)
    case WriterClosing(p) => CloseStep(s, Writer, p)
    case WriterExited => None
  }

  // ---- The reader thread ------------------------------------------------------------

  ghost function ListenStep(s: State, p: ListenPc, ch: Choice): Option<State> {
    match p
    case ListenWantR =>
      if s.sync.rLock.Some? then None
      else Some(s.(sync := s.sync.(rLock := Some(Reader)), r := Listening(ListenTestClosing)))
    case ListenTestClosing => Some(s.(r := if s.sync.closing then Routing(RRelease(true)) else Listening(ListenTestClosed)))
    case ListenTestClosed => Some(s.(r := if s.sync.closed then Routing(RRelease(true)) else Listening(Look)))
    case Look => Some(s.(r := Listening(if s.data.pendingReads == [] then WantH else ReleaseLook(false))))
    case WantH =>
      if s.sync.hLock.Some? then None
      else Some(s.(sync := s.sync.(hLock := Some(Reader)), r := Listening(Peek)))
    case Peek => Some(s.(sync := s.sync.(hLock := None), r := Listening(Decide(s.data.heartbeats != []))))
    case Decide(has) =>
      if has then Some(s.(r := Listening(ReleaseLook(false))))
      else Some(s.(sync := s.sync.(rLock := None), r := Listening(ReaderParked(false))))
    case ReaderParked(notified) => if notified then Some(s.(r := Listening(WokenWantR))) else None
    case WokenWantR =>
      if s.sync.rLock.Some? then None
      else Some(s.(sync := s.sync.(rLock := Some(Reader)), r := Listening(ReleaseLook(true))))
    case ReleaseLook(again) =>
      Some(s.(sync := s.sync.(rLock := None), r := Listening(if again then ListenWantR else Receive)))
    case Receive =>
      (match ch
       case Got(m) => Some(s.(mail := s.mail.(received := s.mail.received + multiset{m}), r := Routing(RouteWantH(m))))
       case ReceiveError => Some(s.(r := ReaderClosing(GuardClosed)))
       case _ => None)
  }

  /** What the pool loses to a response for id: an older response for id, or else its oldest entry when full. */
  ghost function Displaced(cfg: Config, pool: L.Recency<nat, Pooled>, id: nat): multiset<Msg>
    requires cfg.Valid()
  {
    if L.Has(pool, id) then multiset{Msg(id, L.Lookup(pool, id).value.buff)}
    else match L.Victim(pool, cfg.maxPool)
      case None => multiset{}
      case Some(slot) => multiset{Msg(slot.key, slot.value.buff)}
  }

  /** Handing a response to a waiting future, or else to the pool. */
  ghost function DeliverData(cfg: Config, d: Data, m: Msg): Data
    requires cfg.Valid()
  {
    if L.Has(d.pendingReads, m.id) then
      d.(futs := Resolve(d.futs, L.Lookup(d.pendingReads, m.id).value, Body(m.buff)),
         pendingReads := L.Del(d.pendingReads, m.id))
    else
      d.(futs := d.futs + [Future(ReadFuture(m.id), [Body(m.buff)])],
         pool := L.Set(d.pool, cfg.maxPool, m.id, Pooled(|d.futs|, m.buff)))
  }

  ghost function DeliverMail(cfg: Config, mail: Mail, d: Data, m: Msg): Mail
    requires cfg.Valid()
  {
    if L.Has(d.pendingReads, m.id) then mail.(toReader := mail.toReader + multiset{m})
    else mail.(overflowed := mail.overflowed + Displaced(cfg, d.pool, m.id))
  }

  ghost function Drop(s: State, m: Msg, p: RoutePc): State {
    s.(mail := s.mail.(refused := s.mail.refused + multiset{m}), r := Routing(p))
  }

  ghost function RouteStep(cfg: Config, s: State, p: RoutePc): Option<State>
    requires cfg.Valid()
  {
    match p
    case RouteWantH(m) =>
      if s.sync.hLock.Some? then None
      else Some(s.(sync := s.sync.(hLock := Some(Reader)), r := Routing(HTestClosing(m))))
    case HTestClosing(m) =>
      Some(if s.sync.closing then Drop(s, m, HRelease(ThenExit)) else s.(r := Routing(HTestClosed(m))))
    case HTestClosed(m) =>
      Some(if s.sync.closed then Drop(s, m, HRelease(ThenExit)) else s.(r := Routing(HLook(m))))
    case HLook(m) =>
      if L.Has(s.data.heartbeats, m.id)
      then Some(s.(data := s.data.(futs := Resolve(s.data.futs, L.Lookup(s.data.heartbeats, m.id).value, Body(m.buff)),
                                   heartbeats := L.Del(s.data.heartbeats, m.id)),
                   mail := s.mail.(toHeartbeat := s.mail.toHeartbeat + multiset{m}),
                   r := Routing(HRelease(ThenLoop))))
      else Some(s.(r := Routing(HRelease(ThenDeliver(m)))))
    case HRelease(next) =>
      var r := match next
        case ThenExit => ReaderExited
        case ThenLoop => Listening(ListenWantR)
        case ThenDeliver(m) => Routing(RouteWantR(m));
      Some(s.(sync := s.sync.(hLock := None), r := r))
    case RouteWantR(m) =>
      if s.sync.rLock.Some? then None
      else Some(s.(sync := s.sync.(rLock := Some(Reader)), r := Routing(RTestClosing(m))))
    case RTestClosing(m) =>
      Some(if s.sync.closing then Drop(s, m, RRelease(true)) else s.(r := Routing(RTestClosed(m))))
    case RTestClosed(m) =>
      Some(if s.sync.closed then Drop(s, m, RRelease(true)) else s.(r := Routing(Deliver(m))))
    case Deliver(m) =>
      Some(s.(data := DeliverData(cfg, s.data, m), mail := DeliverMail(cfg, s.mail, s.data, m),
              r := Routing(RRelease(false))))
    case RRelease(exit) =>
      Some(s.(sync := s.sync.(rLock := None), r := if exit then ReaderExited else Listening(ListenWantR)))
  }

  ghost function ReaderStep(cfg: Config, s: State, ch: Choice): Option<State>
    requires cfg.Valid()
  {
    match s.r
    case Listening(p) => ListenStep(s, p, ch)
    case Routing(p) => RouteStep(cfg, s, p)
    case ReaderClosing(p) => CloseStep(s, Reader, p)
    case ReaderExited => None
  }

  // ---- Runs -------------------------------------------------------------------------

  /** One step of thread t, or None when it cannot move. */
  ghost function Step(cfg: Config, s: State, t: Tid, ch: Choice): Option<State>
    requires Exists(s, t) && cfg.Valid()
  {
    match t
    case Writer => WriterStep(cfg, s, ch)
    case Reader => ReaderStep(cfg, s, ch)
    case Client(n) => ClientStep(cfg, s, n, ch)
  }

  datatype Event = Event(t: Tid, ch: Choice)

  /** The state after a run, or None if some step of it could not be taken. */
  ghost function Exec(cfg: Config, s: State, run: seq<Event>): Option<State>
    requires cfg.Valid()
    decreases run
  {
    if run == [] then Some(s)
    else if !Exists(s, run[0].t) then None
    else match Step(cfg, s, run[0].t, run[0].ch)
      case None => None
      case Some(next) => Exec(cfg, next, run[1..])
  }
}
