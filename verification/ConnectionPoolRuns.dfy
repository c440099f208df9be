/**
  Whole runs of the dedicated connection pool: who holds which connection, how many connections a key
  has, and that only an empty queue makes clients wait for each other.
 */
module ConnectionPoolRuns {
  import opened Wrappers
  import opened ConnectionPool
  import L = LruSpec

  type Move = (nat, Choice)

  /** The state after a run, if every move was possible. */
  ghost function Run(p: Config, s: State, moves: seq<Move>): Option<State>
    requires ValidConfig(p)
    decreases |moves|
  {
    if moves == [] then Some(s)
    else match Next(p, s, moves[0].0, moves[0].1)
      case None => None
      case Some(t) => Run(p, t, moves[1..])
  }

  ghost predicate Reachable(p: Config, clients: nat, s: State)
    requires ValidConfig(p)
  {
    exists moves :: Run(p, Init(clients), moves) == Some(s)
  }

  lemma {:induction false} RunAppend(p: Config, s: State, a: seq<Move>, b: seq<Move>)
    requires ValidConfig(p) && Run(p, s, a).Some?
    ensures Run(p, s, a + b) == Run(p, Run(p, s, a).value, b)
    decreases |a|
  {
    if a == [] {
      assert a + b == b;
    } else {
      RunAppend(p, Next(p, s, a[0].0, a[0].1).value, a[1..], b);
      assert (a + b)[1..] == a[1..] + b;
    }
  }

  lemma OneMove(p: Config, s: State, a: nat, c: Choice)
    requires ValidConfig(p)
    ensures Run(p, s, [(a, c)]) == Next(p, s, a, c)
  {
    assert [(a, c)][1..] == [];
  }

  lemma ReachableStep(p: Config, clients: nat, s: State, a: nat, c: Choice)
    requires ValidConfig(p) && Reachable(p, clients, s) && Next(p, s, a, c).Some?
    ensures Reachable(p, clients, Next(p, s, a, c).value)
  {
    var moves :| Run(p, Init(clients), moves) == Some(s);
    RunAppend(p, Init(clients), moves, [(a, c)]);
    OneMove(p, s, a, c);
    assert Run(p, Init(clients), moves + [(a, c)]) == Next(p, s, a, c);
  }

  // ---- The table and the lock --------------------------------------------------------

  predicate NeedsLock(point: Point) {
    point.Looking? || point.Filling? || point.Evicting? || point.Installing? || point.Finding? || point.TestClosed? || point.Draining?
  }

  /** The queues a point refers to. */
  ghost predicate PointsInto(point: Point, n: nat) {
    match point
    case Filling(_, q) => q < n
    case Evicting(_, q, victim) => q < n && victim < n
    case Installing(_, q, victim) => q < n && victim < n
    case Choosing(_, q) => q < n
    case Testing(_, q, _) => q < n
    case Replacing(_, q) => q < n
    case Adding(_, q, _) => q < n
    case Putting(_, _, _, target) => target < n
    case Draining(left) => forall i :: 0 <= i < |left| ==> left[i] < n
    case _ => true
  }

  /** The thread at a point that needs the lock is the one that has it. */
  ghost predicate Locking(points: seq<Point>, lock: Option<nat>) {
    && (forall a: nat :: a < |points| ==> (NeedsLock(points[a]) <==> lock == Some(a)))
    && (lock.Some? ==> lock.value < |points|)
  }

  ghost predicate Table(pool: L.Recency<Key, nat>, size: nat, n: nat) {
    L.Distinct(pool) && |pool| <= size && forall i :: 0 <= i < |pool| ==> pool[i].value < n
  }

  ghost predicate Indices(points: seq<Point>, n: nat) {
    forall a :: 0 <= a < |points| ==> PointsInto(points[a], n)
  }

  /** One holder of the lock, a table within its size, and queues that exist. */
  ghost predicate Tidy(p: Config, s: State) {
    Locking(s.points, s.lock) && Table(s.pool, p.size, |s.queues|) && Indices(s.points, |s.queues|)
  }

  lemma LookupIsEntry(pool: L.Recency<Key, nat>, key: Key)
    requires L.Has(pool, key)
    ensures exists i :: 0 <= i < |pool| && pool[i].value == L.Lookup(pool, key).value
  {
    assert pool[L.Find(pool, key)].value == L.Lookup(pool, key).value;
  }

  lemma TableKeeps(pool: L.Recency<Key, nat>, size: nat, n: nat, op: L.Op<Key, nat>)
    requires size >= 1 && Table(pool, size, n)
    requires op.GetOp? || (op.SetOp? && op.value < n)
    ensures Table(L.Apply(pool, size, op), size, n)
  {
    L.ApplyKeeps(pool, size, op);
  }

  /** How a step of client a may change the points and the lock. */
  lemma LockingKeeps(points: seq<Point>, lock: Option<nat>, a: nat, after: Point, lock': Option<nat>)
    requires Locking(points, lock) && a < |points|
    requires
      || (lock' == lock && NeedsLock(after) == NeedsLock(points[a]))
      || (lock == None && lock' == Some(a) && NeedsLock(after))
      || (NeedsLock(points[a]) && lock' == None && !NeedsLock(after))
    ensures Locking(points[a := after], lock')
  {
  }

  lemma IndicesKeep(points: seq<Point>, n: nat, a: nat, after: Point, n': nat)
    requires Indices(points, n) && a < |points| && n <= n' && PointsInto(after, n')
    ensures Indices(points[a := after], n')
  {
    forall b | 0 <= b < |points| ensures PointsInto(points[b], n') {
      assert PointsInto(points[b], n);
    }
  }

  lemma QueuesExist(pool: L.Recency<Key, nat>, size: nat, n: nat, key: Key)
    requires Table(pool, size, n)
    ensures L.Has(pool, key) ==> L.Lookup(pool, key).value < n
    ensures forall i :: 0 <= i < |Queues(pool)| ==> Queues(pool)[i] < n
    ensures size >= 1 && L.Victim(pool, size).Some? ==> L.Victim(pool, size).value.value < n
  {
    if L.Has(pool, key) {
      LookupIsEntry(pool, key);
    }
  }

  lemma CreateKeepsTidy(p: Config, s: State, a: nat, c: Choice)
    requires ValidConfig(p) && Tidy(p, s) && a < |s.points| && CreateStep(p, s, a, c).Some?
    ensures Tidy(p, CreateStep(p, s, a, c).value)
  {
    var t := CreateStep(p, s, a, c).value;
    var before, after, n := s.points[a], t.points[a], |s.queues|;
    assert PointsInto(before, n);
    QueuesExist(s.pool, p.size, n, before.key);
    if before.Looking? {
      TableKeeps(s.pool, p.size, n, L.GetOp(before.key));
    } else if !before.WantCreate? {
      TableKeeps(s.pool, p.size, n, L.SetOp(before.key, before.q));
    }
    assert s.points == s.points[a := before];
    LockingKeeps(s.points, s.lock, a, after, t.lock);
    IndicesKeep(s.points, n, a, after, |t.queues|);
  }

  lemma ReleaseKeepsTidy(p: Config, s: State, a: nat, c: Choice)
    requires ValidConfig(p) && Tidy(p, s) && a < |s.points| && ReleaseStep(p, s, a, c).Some?
    ensures Tidy(p, ReleaseStep(p, s, a, c).value)
  {
    var t := ReleaseStep(p, s, a, c).value;
    var before, after, n := s.points[a], t.points[a], |s.queues|;
    assert PointsInto(before, n);
    QueuesExist(s.pool, p.size, n, before.key);
    TableKeeps(s.pool, p.size, n, L.GetOp(before.key));
    LockingKeeps(s.points, s.lock, a, after, t.lock);
    IndicesKeep(s.points, n, a, after, n);
  }

  lemma ChooseKeepsTidy(p: Config, s: State, a: nat, c: Choice)
    requires ValidConfig(p) && Tidy(p, s) && a < |s.points| && ChooseStep(p, s, a, c).Some?
    ensures Tidy(p, ChooseStep(p, s, a, c).value)
  {
    var t := ChooseStep(p, s, a, c).value;
    assert PointsInto(s.points[a], |s.queues|);
    LockingKeeps(s.points, s.lock, a, t.points[a], t.lock);
    IndicesKeep(s.points, |s.queues|, a, t.points[a], |s.queues|);
  }

  lemma CloseKeepsTidy(p: Config, s: State, a: nat, c: Choice)
    requires ValidConfig(p) && Tidy(p, s) && a < |s.points| && CloseStep(p, s, a, c).Some?
    ensures Tidy(p, CloseStep(p, s, a, c).value)
  {
    var t := CloseStep(p, s, a, c).value;
    var before := s.points[a];
    assert PointsInto(before, |s.queues|);
    QueuesExist(s.pool, p.size, |s.queues|, 0);
    assert s.points == s.points[a := before];
    LockingKeeps(s.points, s.lock, a, t.points[a], t.lock);
    IndicesKeep(s.points, |s.queues|, a, t.points[a], |s.queues|);
  }

  lemma StepKeepsTidy(p: Config, s: State, a: nat, c: Choice)
    requires ValidConfig(p) && Tidy(p, s) && Next(p, s, a, c).Some?
    ensures Tidy(p, Next(p, s, a, c).value)
  {
    if Creating(s.points[a]) {
      CreateKeepsTidy(p, s, a, c);
    } else if Releasing(s.points[a]) {
      ReleaseKeepsTidy(p, s, a, c);
    } else if Getting(s.points[a]) {
      ChooseKeepsTidy(p, s, a, c);
    } else if s.points[a].Idle? {
      LockingKeeps(s.points, s.lock, a, Next(p, s, a, c).value.points[a], s.lock);
    } else {
      CloseKeepsTidy(p, s, a, c);
    }
  }

  // ---- Exclusivity over runs ---------------------------------------------------------

  ghost predicate Inv(p: Config, s: State) {
    ExclusiveIn(s) && Tidy(p, s)
  }

  lemma {:induction false} RunKeepsInv(p: Config, s: State, moves: seq<Move>)
    requires ValidConfig(p) && Inv(p, s) && Run(p, s, moves).Some?
    ensures Inv(p, Run(p, s, moves).value)
    decreases |moves|
  {
    if moves != [] {
      StepKeepsExclusive(p, s, moves[0].0, moves[0].1);
      StepKeepsTidy(p, s, moves[0].0, moves[0].1);
      RunKeepsInv(p, Next(p, s, moves[0].0, moves[0].1).value, moves[1..]);
    }
  }

  /**
    Main result: whatever the clients, the factory and the connections do, with evictions and with
    close() at any moment, a connection is never in the hands of two clients, nor in a client's hands
    and in a queue, nor in two queues or twice in one.
   */
  lemma NeverShared(p: Config, clients: nat, moves: seq<Move>)
    requires ValidConfig(p) && Run(p, Init(clients), moves).Some?
    ensures ExclusiveIn(Run(p, Init(clients), moves).value)
    ensures |Run(p, Init(clients), moves).value.pool| <= p.size
  {
    RunKeepsInv(p, Init(clients), moves);
  }

  // ---- Progress ----------------------------------------------------------------------

  /** Waiting in Queue.get on an empty queue. */
  ghost predicate WaitsForConnection(s: State, a: nat) {
    && a < |s.points| && s.points[a].Choosing?
    && s.points[a].q < |s.queues| && s.queues[s.points[a].q] == []
  }

  /** The thread with the lock is never held up. */
  lemma LockHolderSteps(p: Config, s: State, a: nat)
    requires ValidConfig(p) && Tidy(p, s) && s.lock == Some(a)
    ensures Next(p, s, a, Go).Some?
  {
    assert NeedsLock(s.points[a]) && PointsInto(s.points[a], |s.queues|);
  }

  /** A thread is held up by the lock or by an empty queue, and by nothing else. */
  lemma HeldUpByLockOrQueue(p: Config, s: State, a: nat)
    requires ValidConfig(p) && Tidy(p, s) && a < |s.points| && !s.points[a].Idle?
    ensures Next(p, s, a, Go).Some? || s.lock.Some? || WaitsForConnection(s, a)
  {
    assert PointsInto(s.points[a], |s.queues|);
  }

  /** Main result: the pool has no deadlock of its own; when nobody can go on, all wait on empty queues. */
  lemma NoDeadlock(p: Config, clients: nat, moves: seq<Move>)
    requires ValidConfig(p) && Run(p, Init(clients), moves).Some?
    ensures var s := Run(p, Init(clients), moves).value;
      || (exists a: nat :: a < |s.points| && !s.points[a].Idle? && Next(p, s, a, Go).Some?)
      || (forall a: nat :: a < |s.points| ==> s.points[a].Idle? || WaitsForConnection(s, a))
  {
    var s := Run(p, Init(clients), moves).value;
    RunKeepsInv(p, Init(clients), moves);
    if s.lock.Some? {
      LockHolderSteps(p, s, s.lock.value);
      assert NeedsLock(s.points[s.lock.value]);
    } else {
      forall a: nat | a < |s.points| && !s.points[a].Idle?
        ensures Next(p, s, a, Go).Some? || WaitsForConnection(s, a)
      {
        HeldUpByLockOrQueue(p, s, a);
      }
    }
  }
}
