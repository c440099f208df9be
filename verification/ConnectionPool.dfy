/**
  connection_pool.py: DedicateLRUConnectionPool under any number of client threads, as a step system.
  A step is one acquisition of the pool's lock together with what is decided from the table at once,
  one call of the connection factory, or one operation on one queue; the queues are shared by threads
  that do not hold the lock. Seeing a queue empty and storing a new key are two steps.
 */
module ConnectionPool {
  import opened Wrappers
  import L = LruSpec

  type Key = nat
  type Conn = nat

  /** connection_pool_size and connections_per_key */
  datatype Config = Config(size: nat, perKey: nat)

  /** Where a client thread is; q is the queue it got from the table, conn a connection in its hands. */
  datatype Point =
    | Idle
    // get_connection
    | WantCreate(key: Key)
    | Looking(key: Key)
    | Filling(key: Key, q: nat)
    | Evicting(key: Key, q: nat, victim: nat)
    | Installing(key: Key, q: nat, victim: nat)
    | Choosing(key: Key, q: nat)
    | Testing(key: Key, q: nat, conn: Conn)
    | Replacing(key: Key, q: nat)
    | Adding(key: Key, q: nat, conn: Conn)
    | Holding(key: Key, q: nat, conn: Conn)
    // release_connection
    | WantRelease(key: Key, q: nat, conn: Conn)
    | Finding(key: Key, q: nat, conn: Conn)
    | Putting(key: Key, q: nat, conn: Conn, target: nat)
    // close
    | WantClose
    | TestClosed
    | Draining(left: seq<nat>)

  predicate Creating(point: Point) {
    point.WantCreate? || point.Looking? || point.Filling? || point.Evicting? || point.Installing?
  }

  predicate Getting(point: Point) {
    point.Choosing? || point.Testing? || point.Replacing? || point.Adding?
  }

  predicate Releasing(point: Point) {
    point.Holding? || point.WantRelease? || point.Finding? || point.Putting?
  }

  /** What the caller, the factory or the connection decides at a step. */
  datatype Choice = Go | Ask(key: Key) | Shut | Stale | GiveUp | Fail

  /** Queues are numbered in the order of their creation, connections too. */
  datatype State = State(
    pool: L.Recency<Key, nat>,
    queues: seq<seq<Conn>>,
    points: seq<Point>,
    lock: Option<nat>,
    closed: bool,
    nextConn: Conn)

  ghost predicate ValidConfig(p: Config) {
    p.size >= 1
  }

  ghost function Init(clients: nat): State {
    State([], [], seq(clients, _ => Idle), None, false, 0)
  }

  ghost function At(s: State, a: nat, point: Point): State
    requires a < |s.points|
  {
    s.(points := s.points[a := point])
  }

  ghost function Put(s: State, q: nat, conn: Conn): State
    requires q < |s.queues|
  {
    s.(queues := s.queues[q := s.queues[q] + [conn]])
  }

  ghost function Pop(s: State, q: nat): State
    requires q < |s.queues| && s.queues[q] != []
  {
    s.(queues := s.queues[q := s.queues[q][1..]])
  }

  ghost function Unlocked(s: State): State {
    s.(lock := None)
  }

  /** self._pool[key] = container, and on to choosing. */
  ghost function Install(p: Config, s: State, a: nat, key: Key, q: nat): State
    requires ValidConfig(p) && a < |s.points|
  {
    At(Unlocked(s.(pool := L.Set(s.pool, p.size, key, q))), a, Choosing(key, q))
  }

  ghost function Queues(pool: L.Recency<Key, nat>): seq<nat> {
    seq(|pool|, i requires 0 <= i < |pool| => pool[|pool| - 1 - i].value)
  }

  // ---- One step of client a ----------------------------------------------------------

  ghost function CreateStep(p: Config, s: State, a: nat, c: Choice): Option<State>
    requires ValidConfig(p) && a < |s.points|
  {
    match s.points[a]
    case WantCreate(key) =>
      if s.lock.Some? then None else Some(At(s.(lock := Some(a)), a, Looking(key)))
    case Looking(key) =>
      if s.closed then Some(At(Unlocked(s), a, Idle))
      else if L.Has(s.pool, key) then
        Some(At(Unlocked(s.(pool := L.Get(s.pool, key))), a, Choosing(key, L.Lookup(s.pool, key).value)))
      else Some(At(s.(queues := s.queues + [[]]), a, Filling(key, |s.queues|)))
    case Filling(key, q) =>
      if q >= |s.queues| then None
      else if |s.queues[q]| < p.perKey then
        if c.Fail? then Some(At(Unlocked(s), a, Idle))
        else Some(Put(s.(nextConn := s.nextConn + 1), q, s.nextConn))
      else if L.Victim(s.pool, p.size).Some? then
        Some(At(s, a, Evicting(key, q, L.Victim(s.pool, p.size).value.value)))
      else Some(Install(p, s, a, key, q))
    case Evicting(key, q, victim) =>
      if victim >= |s.queues| then None
      else if s.queues[victim] != [] then Some(Pop(s, victim))
      else Some(At(s, a, Installing(key, q, victim)))
    case Installing(key, q, victim) => Some(Install(p, s, a, key, q))
    case _ => None
  }

  ghost function ChooseStep(p: Config, s: State, a: nat, c: Choice): Option<State>
    requires a < |s.points|
  {
    match s.points[a]
    case Choosing(key, q) =>
      if q >= |s.queues| then None
      else if s.queues[q] != [] then Some(At(Pop(s, q), a, Testing(key, q, s.queues[q][0])))
      else if c.GiveUp? then Some(At(s, a, Idle))
      else None
    case Testing(key, q, conn) =>
      Some(At(s, a, if c.Stale? then Replacing(key, q) else Holding(key, q, conn)))
    case Replacing(key, q) =>
      if c.Fail? then Some(At(s, a, Idle))
      else Some(At(s.(nextConn := s.nextConn + 1), a, Adding(key, q, s.nextConn)))
    case Adding(key, q, conn) =>
      if q >= |s.queues| then None else Some(At(Put(s, q, conn), a, Choosing(key, q)))
    case _ => None
  }

  ghost function ReleaseStep(p: Config, s: State, a: nat, c: Choice): Option<State>
    requires a < |s.points|
  {
    match s.points[a]
    case Holding(key, q, conn) => Some(At(s, a, WantRelease(key, q, conn)))
    case WantRelease(key, q, conn) =>
      if s.lock.Some? then None else Some(At(s.(lock := Some(a)), a, Finding(key, q, conn)))
    case Finding(key, q, conn) =>
      if s.closed || !L.Has(s.pool, key) then Some(At(Unlocked(s), a, Idle))
      else Some(At(Unlocked(s.(pool := L.Get(s.pool, key))), a, Putting(key, q, conn, L.Lookup(s.pool, key).value)))
    case Putting(key, q, conn, target) =>
      if target >= |s.queues| then None else Some(At(Put(s, target, conn), a, Idle))
    case _ => None
  }

  ghost function CloseStep(p: Config, s: State, a: nat, c: Choice): Option<State>
    requires a < |s.points|
  {
    match s.points[a]
    case WantClose =>
      if s.closed then Some(At(s, a, Idle))
      else if s.lock.Some? then None
      else Some(At(s.(lock := Some(a)), a, TestClosed))
    case TestClosed =>
      if s.closed then Some(At(Unlocked(s), a, Idle)) else Some(At(s, a, Draining(Queues(s.pool))))
    case Draining(left) =>
      if left == [] then Some(At(Unlocked(s.(closed := true)), a, Idle))
      else if left[0] >= |s.queues| then None
      else if s.queues[left[0]] != [] then Some(Pop(s, left[0]))
      else Some(At(s, a, Draining(left[1..])))
    case _ => None
  }

  /** The state after client a's next step, if it can take one. */
  ghost function Next(p: Config, s: State, a: nat, c: Choice): Option<State>
    requires ValidConfig(p)
  {
    if a >= |s.points| then None
    else if s.points[a].Idle? then
      match c
      case Ask(key) => Some(At(s, a, WantCreate(key)))
      case Shut => Some(At(s, a, WantClose))
      case _ => None
    else if Creating(s.points[a]) then CreateStep(p, s, a, c)
    else if Getting(s.points[a]) then ChooseStep(p, s, a, c)
    else if Releasing(s.points[a]) then ReleaseStep(p, s, a, c)
    else CloseStep(p, s, a, c)
  }

  // ---- Exclusivity -------------------------------------------------------------------

  /** The connection a client has in its hands. */
  ghost function Hand(point: Point): Option<Conn> {
    match point
    case Testing(_, _, conn) => Some(conn)
    case Adding(_, _, conn) => Some(conn)
    case Holding(_, _, conn) => Some(conn)
    case WantRelease(_, _, conn) => Some(conn)
    case Finding(_, _, conn) => Some(conn)
    case Putting(_, _, conn, _) => Some(conn)
    case _ => None
  }

  ghost predicate Queued(queues: seq<seq<Conn>>, q: int, i: int, conn: Conn) {
    0 <= q < |queues| && 0 <= i < |queues[q]| && queues[q][i] == conn
  }

  /** Every connection is in one place at most: one position of one queue, or one client's hands. */
  ghost predicate Exclusive(queues: seq<seq<Conn>>, points: seq<Point>, nextConn: Conn) {
    && (forall q, i, conn: Conn :: Queued(queues, q, i, conn) ==> conn < nextConn)
    && (forall q, i, r, j, conn: Conn :: Queued(queues, q, i, conn) && Queued(queues, r, j, conn) ==> q == r && i == j)
    && (forall a :: 0 <= a < |points| && Hand(points[a]).Some? ==> Hand(points[a]).value < nextConn)
    && (forall a, b :: 0 <= a < |points| && 0 <= b < |points| && a != b && Hand(points[a]).Some?
          ==> Hand(points[a]) != Hand(points[b]))
    && (forall a, q, i, conn: Conn :: 0 <= a < |points| && Queued(queues, q, i, conn) ==> Hand(points[a]) != Some(conn))
  }

  ghost predicate ExclusiveIn(s: State) {
    Exclusive(s.queues, s.points, s.nextConn)
  }

  /** The client whose hands a connection leaves may put it into a queue. */
  lemma PutKeeps(queues: seq<seq<Conn>>, points: seq<Point>, nextConn: Conn, a: nat, q: nat, conn: Conn, after: Point)
    requires Exclusive(queues, points, nextConn) && a < |points| && q < |queues|
    requires Hand(points[a]) == Some(conn) && Hand(after) == None
    ensures Exclusive(queues[q := queues[q] + [conn]], points[a := after], nextConn)
  {
    var queues' := queues[q := queues[q] + [conn]];
    forall r, j, x: Conn | Queued(queues', r, j, x) ensures Queued(queues, r, j, x) || (r == q && j == |queues[q]| && x == conn) {
    }
  }

  /** A new connection may go into a queue directly. */
  lemma MakeInQueueKeeps(queues: seq<seq<Conn>>, points: seq<Point>, nextConn: Conn, q: nat)
    requires Exclusive(queues, points, nextConn) && q < |queues|
    ensures Exclusive(queues[q := queues[q] + [nextConn]], points, nextConn + 1)
  {
    var queues' := queues[q := queues[q] + [nextConn]];
    forall r, j, x: Conn | Queued(queues', r, j, x) ensures Queued(queues, r, j, x) || (r == q && j == |queues[q]| && x == nextConn) {
    }
  }

  lemma PopKeepsPlaces(queues: seq<seq<Conn>>, queues': seq<seq<Conn>>, q: nat)
    requires q < |queues| && queues[q] != [] && queues' == queues[q := queues[q][1..]]
    ensures forall r, j, x: Conn :: Queued(queues', r, j, x) ==> Queued(queues, r, if r == q then j + 1 else j, x)
  {
  }

  /** The head of a queue may go to a client whose hands are empty, or be closed. */
  lemma PopKeeps(queues: seq<seq<Conn>>, points: seq<Point>, nextConn: Conn, a: nat, q: nat, after: Point)
    requires Exclusive(queues, points, nextConn) && a < |points| && q < |queues| && queues[q] != []
    requires Hand(points[a]) == None && (Hand(after) == None || Hand(after) == Some(queues[q][0]))
    ensures Exclusive(queues[q := queues[q][1..]], points[a := after], nextConn)
  {
    PopKeepsPlaces(queues, queues[q := queues[q][1..]], q);
    assert Queued(queues, q, 0, queues[q][0]);
  }

  /** A client may keep what it has, drop it, or get a new connection. */
  lemma HandKeeps(queues: seq<seq<Conn>>, points: seq<Point>, nextConn: Conn, a: nat, after: Point, next': Conn)
    requires Exclusive(queues, points, nextConn) && a < |points| && nextConn <= next'
    requires Hand(after) == None || Hand(after) == Hand(points[a]) || (Hand(after) == Some(nextConn) && nextConn < next')
    ensures Exclusive(queues, points[a := after], next')
  {
  }

  lemma NewQueueKeeps(queues: seq<seq<Conn>>, points: seq<Point>, nextConn: Conn)
    requires Exclusive(queues, points, nextConn)
    ensures Exclusive(queues + [[]], points, nextConn)
  {
    forall r, j, x: Conn | Queued(queues + [[]], r, j, x) ensures Queued(queues, r, j, x) {
    }
  }

  lemma CreateKeepsExclusive(p: Config, s: State, a: nat, c: Choice)
    requires ValidConfig(p) && ExclusiveIn(s) && a < |s.points| && CreateStep(p, s, a, c).Some?
    ensures ExclusiveIn(CreateStep(p, s, a, c).value)
  {
    var t := CreateStep(p, s, a, c).value;
    var before, after := s.points[a], t.points[a];
    if t.queues == s.queues && t.nextConn == s.nextConn {
      HandKeeps(s.queues, s.points, s.nextConn, a, after, t.nextConn);
    } else {
      match before
      case Looking(key) =>
        HandKeeps(s.queues, s.points, s.nextConn, a, after, s.nextConn);
        NewQueueKeeps(s.queues, t.points, s.nextConn);
      case Filling(key, q) => MakeInQueueKeeps(s.queues, s.points, s.nextConn, q);
      case Evicting(key, q, victim) =>
        PopKeeps(s.queues, s.points, s.nextConn, a, victim, before);
        assert s.points == s.points[a := before];
    }
  }

  lemma ChooseKeepsExclusive(p: Config, s: State, a: nat, c: Choice)
    requires ExclusiveIn(s) && a < |s.points| && ChooseStep(p, s, a, c).Some?
    ensures ExclusiveIn(ChooseStep(p, s, a, c).value)
  {
    var t := ChooseStep(p, s, a, c).value;
    var after := t.points[a];
    match s.points[a]
    case Choosing(key, q) =>
      if s.queues[q] != [] {
        PopKeeps(s.queues, s.points, s.nextConn, a, q, after);
      } else {
        HandKeeps(s.queues, s.points, s.nextConn, a, after, t.nextConn);
      }
    case Testing(key, q, conn) => HandKeeps(s.queues, s.points, s.nextConn, a, after, t.nextConn);
    case Replacing(key, q) => HandKeeps(s.queues, s.points, s.nextConn, a, after, t.nextConn);
    case Adding(key, q, conn) => PutKeeps(s.queues, s.points, s.nextConn, a, q, conn, after);
  }

  lemma ReleaseKeepsExclusive(p: Config, s: State, a: nat, c: Choice)
    requires ExclusiveIn(s) && a < |s.points| && ReleaseStep(p, s, a, c).Some?
    ensures ExclusiveIn(ReleaseStep(p, s, a, c).value)
  {
    var t := ReleaseStep(p, s, a, c).value;
    var after := t.points[a];
    if s.points[a].Putting? {
      PutKeeps(s.queues, s.points, s.nextConn, a, s.points[a].target, s.points[a].conn, after);
    } else {
      HandKeeps(s.queues, s.points, s.nextConn, a, after, t.nextConn);
    }
  }

  lemma CloseKeepsExclusive(p: Config, s: State, a: nat, c: Choice)
    requires ExclusiveIn(s) && a < |s.points| && CloseStep(p, s, a, c).Some?
    ensures ExclusiveIn(CloseStep(p, s, a, c).value)
  {
    var t := CloseStep(p, s, a, c).value;
    var before, after := s.points[a], t.points[a];
    if t.queues == s.queues {
      HandKeeps(s.queues, s.points, s.nextConn, a, after, t.nextConn);
    } else {
      PopKeeps(s.queues, s.points, s.nextConn, a, before.left[0], before);
      assert s.points == s.points[a := before];
    }
  }

  lemma StepKeepsExclusive(p: Config, s: State, a: nat, c: Choice)
    requires ValidConfig(p) && ExclusiveIn(s) && Next(p, s, a, c).Some?
    ensures ExclusiveIn(Next(p, s, a, c).value)
  {
    if s.points[a].Idle? {
      HandKeeps(s.queues, s.points, s.nextConn, a, Next(p, s, a, c).value.points[a], s.nextConn);
    } else if Creating(s.points[a]) {
      CreateKeepsExclusive(p, s, a, c);
    } else if Getting(s.points[a]) {
      ChooseKeepsExclusive(p, s, a, c);
    } else if Releasing(s.points[a]) {
      ReleaseKeepsExclusive(p, s, a, c);
    } else {
      CloseKeepsExclusive(p, s, a, c);
    }
  }
}
