/**
  The gap in the eviction of the dedicated connection pool: between seeing the queue of the evicted key
  empty and storing the new key, a client that has fetched that queue before can still put a connection
  into it, which nobody closes. When that can happen, and a run in which it does.
 */
module ConnectionPoolLeak {
  import opened Wrappers
  import opened ConnectionPool
  import opened ConnectionPoolRuns
  import opened ConnectionPoolEviction
  import L = LruSpec

  /** A client on its way to put a connection into queue v, without needing the lock again. */
  predicate Carries(point: Point, v: nat) {
    match point
    case Testing(_, q, _) => q == v
    case Replacing(_, q) => q == v
    case Adding(_, q, _) => q == v
    case Putting(_, _, _, target) => target == v
    case _ => false
  }

  // ---- Nobody carries: the queue stays empty -----------------------------------------

  /** Client a is about to store its key, the queue is empty, and nobody is on the way to it. */
  ghost predicate Quiet(s: State, a: nat, v: nat) {
    && Locking(s.points, s.lock) && a < |s.points| && s.points[a].Installing?
    && v < |s.queues| && s.queues[v] == []
    && forall b :: 0 <= b < |s.points| ==> !Carries(s.points[b], v)
  }

  /** Others cannot take the lock, so no other client gets on the way to the queue. */
  lemma NobodySetsOut(p: Config, s: State, b: nat, c: Choice, t: State, v: nat)
    requires ValidConfig(p) && Next(p, s, b, c) == Some(t) && !NeedsLock(s.points[b]) && s.lock.Some?
    requires v < |s.queues| && s.queues[v] == [] && !Carries(s.points[b], v)
    ensures !Carries(t.points[b], v) && PutBy(p, s, b, c, v) == [] && t.lock == s.lock && !NeedsLock(t.points[b])
  {
  }

  lemma StepKeepsQuiet(p: Config, s: State, b: nat, c: Choice, a: nat, v: nat)
    requires ValidConfig(p) && Quiet(s, a, v) && Next(p, s, b, c).Some? && b != a
    ensures Quiet(Next(p, s, b, c).value, a, v)
  {
    var t := Next(p, s, b, c).value;
    assert NeedsLock(s.points[a]) && !NeedsLock(s.points[b]);
    NobodySetsOut(p, s, b, c, t, v);
    StepMovesQueue(p, s, b, c, t, v);
    StepOnlyMoves(p, s, b, c, t);
  }

  lemma {:induction false} RunKeepsQuiet(p: Config, s: State, moves: seq<Move>, a: nat, v: nat)
    requires ValidConfig(p) && Quiet(s, a, v) && OthersOnly(moves, a) && Run(p, s, moves).Some?
    ensures Quiet(Run(p, s, moves).value, a, v)
    decreases |moves|
  {
    if moves != [] {
      StepKeepsQuiet(p, s, moves[0].0, moves[0].1, a, v);
      RunKeepsQuiet(p, Next(p, s, moves[0].0, moves[0].1).value, moves[1..], a, v);
    }
  }

  // ---- Somebody carries: the queue can be filled -------------------------------------

  /** A run of client b alone that puts something into queue v. */
  function Moves(point: Point, b: nat): seq<Move> {
    match point
    case Testing(_, _, _) => [(b, Stale), (b, Go), (b, Go)]
    case Replacing(_, _) => [(b, Go), (b, Go)]
    case _ => [(b, Go)]
  }

  lemma AddingFills(p: Config, s: State, b: nat, v: nat)
    requires ValidConfig(p) && b < |s.points| && v < |s.queues|
    requires Carries(s.points[b], v) && (s.points[b].Adding? || s.points[b].Putting?)
    ensures Run(p, s, [(b, Go)]).Some? && v < |Run(p, s, [(b, Go)]).value.queues|
    ensures Run(p, s, [(b, Go)]).value.queues[v] != []
  {
    OneMove(p, s, b, Go);
  }

  lemma ReplacingFills(p: Config, s: State, b: nat, v: nat)
    requires ValidConfig(p) && b < |s.points| && v < |s.queues| && Carries(s.points[b], v) && s.points[b].Replacing?
    ensures Run(p, s, [(b, Go), (b, Go)]).Some? && v < |Run(p, s, [(b, Go), (b, Go)]).value.queues|
    ensures Run(p, s, [(b, Go), (b, Go)]).value.queues[v] != []
  {
    var t := Next(p, s, b, Go).value;
    AddingFills(p, t, b, v);
    assert [(b, Go), (b, Go)][1..] == [(b, Go)];
  }

  lemma CarrierFills(p: Config, s: State, b: nat, v: nat)
    requires ValidConfig(p) && b < |s.points| && v < |s.queues| && Carries(s.points[b], v)
    ensures var r := Run(p, s, Moves(s.points[b], b)); r.Some? && v < |r.value.queues| && r.value.queues[v] != []
  {
    match s.points[b]
    case Testing(_, _, _) =>
      var t := Next(p, s, b, Stale).value;
      ReplacingFills(p, t, b, v);
      assert [(b, Stale), (b, Go), (b, Go)][1..] == [(b, Go), (b, Go)];
    case Replacing(_, _) => ReplacingFills(p, s, b, v);
    case _ => AddingFills(p, s, b, v);
  }

  /** The others, before client a moves again, bring the queue to hold something. */
  ghost predicate CanFill(p: Config, s: State, a: nat, v: nat)
    requires ValidConfig(p)
  {
    exists moves :: OthersOnly(moves, a) && Run(p, s, moves).Some?
      && v < |Run(p, s, moves).value.queues| && Run(p, s, moves).value.queues[v] != []
  }

  /**
    Main result: when a client has seen the queue of the key it evicts empty, connections can get into
    that queue before the key goes if and only if some client is on its way to it at that moment, with a
    connection taken from it or fetched it for a release before the lock was taken.
   */
  lemma LeakExactly(p: Config, s: State, a: nat)
    requires ValidConfig(p) && Tidy(p, s) && a < |s.points| && s.points[a].Installing?
    requires s.points[a].victim < |s.queues| && s.queues[s.points[a].victim] == []
    ensures CanFill(p, s, a, s.points[a].victim)
      <==> exists b :: 0 <= b < |s.points| && Carries(s.points[b], s.points[a].victim)
  {
    var v := s.points[a].victim;
    if b :| 0 <= b < |s.points| && Carries(s.points[b], v) {
      CarrierFills(p, s, b, v);
      assert OthersOnly(Moves(s.points[b], b), a);
    } else {
      forall moves | OthersOnly(moves, a) && Run(p, s, moves).Some?
        ensures v < |Run(p, s, moves).value.queues| && Run(p, s, moves).value.queues[v] == []
      {
        RunKeepsQuiet(p, s, moves, a, v);
      }
    }
  }

  // ---- A run that leaves a connection behind -----------------------------------------

  const SMALL := Config(1, 1)

  /** Equal in every part. */
  ghost predicate Same(s: State, t: State) {
    && s.pool == t.pool && s.points == t.points && s.lock == t.lock && s.closed == t.closed && s.nextConn == t.nextConn
    && |s.queues| == |t.queues| && forall q :: 0 <= q < |s.queues| ==> s.queues[q] == t.queues[q]
  }

  /** One more step of a run of two clients. */
  lemma Then(s: State, a: nat, c: Choice, t: State)
    requires Reachable(SMALL, 2, s) && Next(SMALL, s, a, c).Some? && Same(Next(SMALL, s, a, c).value, t)
    ensures Reachable(SMALL, 2, t) && Next(SMALL, s, a, c) == Some(t)
  {
    ReachableStep(SMALL, 2, s, a, c);
    assert Next(SMALL, s, a, c).value.queues == t.queues;
  }

  ghost function Two(pool: L.Recency<Key, nat>, queues: seq<seq<Conn>>, p0: Point, p1: Point, lock: Option<nat>, made: nat)
    : State
  {
    State(pool, queues, [p0, p1], lock, false, made)
  }

  /** Client 0 makes the one connection of key 0. */
  lemma FirstClientFills()
    ensures Reachable(SMALL, 2, Two([], [[0]], Filling(0, 0), Idle, Some(0), 1))
  {
    var s0 := Two([], [], Idle, Idle, None, 0);
    assert Init(2) == s0 && Run(SMALL, s0, []) == Some(s0);
    var s1 := Two([], [], WantCreate(0), Idle, None, 0);
    Then(s0, 0, Ask(0), s1);
    var s2 := Two([], [], Looking(0), Idle, Some(0), 0);
    Then(s1, 0, Go, s2);
    var s3 := Two([], [[]], Filling(0, 0), Idle, Some(0), 0);
    Then(s2, 0, Go, s3);
    Then(s3, 0, Go, Two([], [[0]], Filling(0, 0), Idle, Some(0), 1));
  }

  lemma FirstClientGets()
    ensures Reachable(SMALL, 2, Two([L.Slot(0, 0)], [[]], Holding(0, 0, 0), Idle, None, 1))
  {
    FirstClientFills();
    var table := [L.Slot(0, 0)];
    var s1 := Two(table, [[0]], Choosing(0, 0), Idle, None, 1);
    Then(Two([], [[0]], Filling(0, 0), Idle, Some(0), 1), 0, Go, s1);
    var s2 := Two(table, [[]], Testing(0, 0, 0), Idle, None, 1);
    Then(s1, 0, Go, s2);
    Then(s2, 0, Go, Two(table, [[]], Holding(0, 0, 0), Idle, None, 1));
  }

  /** To give the connection back it looks the queue up. */
  lemma FirstClientFetches()
    ensures Reachable(SMALL, 2, Two([L.Slot(0, 0)], [[]], Putting(0, 0, 0, 0), Idle, None, 1))
  {
    FirstClientGets();
    var table := [L.Slot(0, 0)];
    var s1 := Two(table, [[]], WantRelease(0, 0, 0), Idle, None, 1);
    Then(Two(table, [[]], Holding(0, 0, 0), Idle, None, 1), 0, Go, s1);
    var s2 := Two(table, [[]], Finding(0, 0, 0), Idle, Some(0), 1);
    Then(s1, 0, Go, s2);
    L.FindIs(table, 0, 0);
    assert L.Get(table, 0) == table;
    Then(s2, 0, Go, Two(table, [[]], Putting(0, 0, 0, 0), Idle, None, 1));
  }

  /** Client 1 adds key 1, for which key 0 must go, and sees the queue of key 0 empty. */
  lemma SecondClientSeesEmpty()
    ensures Reachable(SMALL, 2, Two([L.Slot(0, 0)], [[], [1]], Putting(0, 0, 0, 0), Installing(1, 1, 0), Some(1), 2))
  {
    FirstClientFetches();
    var table, p0 := [L.Slot(0, 0)], Putting(0, 0, 0, 0);
    var s0 := Two(table, [[]], p0, Idle, None, 1);
    var s1 := Two(table, [[]], p0, WantCreate(1), None, 1);
    Then(s0, 1, Ask(1), s1);
    var s2 := Two(table, [[]], p0, Looking(1), Some(1), 1);
    Then(s1, 1, Go, s2);
    L.HasMeans(table, 1);
    var s3 := Two(table, [[], []], p0, Filling(1, 1), Some(1), 1);
    Then(s2, 1, Go, s3);
    var s4 := Two(table, [[], [1]], p0, Filling(1, 1), Some(1), 2);
    Then(s3, 1, Go, s4);
    var s5 := Two(table, [[], [1]], p0, Evicting(1, 1, 0), Some(1), 2);
    Then(s4, 1, Go, s5);
    Then(s5, 1, Go, Two(table, [[], [1]], p0, Installing(1, 1, 0), Some(1), 2));
  }

  /**
    Client 0 puts its connection back just then, and client 1 stores its key: key 0 is gone and its
    queue, which no client and no key refers to any more, holds a connection that nobody has closed.
   */
  lemma ConnectionLeftBehind() returns (s: State, t: State)
    ensures Reachable(SMALL, 2, s) && Next(SMALL, s, 1, Go) == Some(t)
    ensures L.Has(s.pool, 0) && L.Lookup(s.pool, 0) == Some(0) && !L.Has(t.pool, 0)
    ensures t == Two([L.Slot(1, 1)], [[0], [1]], Idle, Choosing(1, 1), None, 2) && Forgotten(t, 0)
  {
    SecondClientSeesEmpty();
    var table := [L.Slot(0, 0)];
    var s0 := Two(table, [[], [1]], Putting(0, 0, 0, 0), Installing(1, 1, 0), Some(1), 2);
    s := Two(table, [[0], [1]], Idle, Installing(1, 1, 0), Some(1), 2);
    Then(s0, 0, Go, s);
    L.HasMeans(table, 1);
    L.FindIs(table, 0, 0);
    t := Two([L.Slot(1, 1)], [[0], [1]], Idle, Choosing(1, 1), None, 2);
    assert L.Set(table, 1, 1, 1) == t.pool;
    L.HasMeans(t.pool, 0);
    Then(s, 1, Go, t);
  }

  // ---- What is left behind stays -----------------------------------------------------

  ghost predicate RefersTo(point: Point, v: nat) {
    match point
    case Filling(_, q) => q == v
    case Evicting(_, q, victim) => q == v || victim == v
    case Installing(_, q, victim) => q == v || victim == v
    case Choosing(_, q) => q == v
    case Testing(_, q, _) => q == v
    case Replacing(_, q) => q == v
    case Adding(_, q, _) => q == v
    case Putting(_, _, _, target) => target == v
    case Draining(left) => v in left
    case _ => false
  }

  ghost predicate Unlisted(pool: L.Recency<Key, nat>, v: nat) {
    forall i :: 0 <= i < |pool| ==> pool[i].value != v
  }

  /** No key has the queue, and no client refers to it. */
  ghost predicate Forgotten(s: State, v: nat) {
    && v < |s.queues| && Unlisted(s.pool, v)
    && forall a :: 0 <= a < |s.points| ==> !RefersTo(s.points[a], v)
  }

  lemma UnlistedKeeps(pool: L.Recency<Key, nat>, size: nat, v: nat, op: L.Op<Key, nat>)
    requires size >= 1 && Unlisted(pool, v) && (op.GetOp? || (op.SetOp? && op.value != v))
    ensures Unlisted(L.Apply(pool, size, op), v)
  {
  }

  lemma UnlistedAnswers(pool: L.Recency<Key, nat>, size: nat, v: nat, key: Key)
    requires Unlisted(pool, v)
    ensures L.Lookup(pool, key) != Some(v) && v !in Queues(pool)
    ensures size >= 1 && L.Victim(pool, size).Some? ==> L.Victim(pool, size).value.value != v
  {
  }

  /** The step of a client that does not refer to the queue leaves it forgotten. */
  lemma CreateForgets(p: Config, s: State, a: nat, c: Choice, t: State, v: nat)
    requires ValidConfig(p) && a < |s.points| && v < |s.queues| && CreateStep(p, s, a, c) == Some(t)
    requires Unlisted(s.pool, v) && !RefersTo(s.points[a], v)
    ensures Unlisted(t.pool, v) && !RefersTo(t.points[a], v)
  {
    var key := s.points[a].key;
    UnlistedAnswers(s.pool, p.size, v, key);
    UnlistedKeeps(s.pool, p.size, v, L.GetOp(key));
    if !s.points[a].WantCreate? && !s.points[a].Looking? {
      UnlistedKeeps(s.pool, p.size, v, L.SetOp(key, s.points[a].q));
    }
  }

  lemma ReleaseForgets(p: Config, s: State, a: nat, c: Choice, t: State, v: nat)
    requires ValidConfig(p) && a < |s.points| && v < |s.queues| && ReleaseStep(p, s, a, c) == Some(t)
    requires Unlisted(s.pool, v) && !RefersTo(s.points[a], v)
    ensures Unlisted(t.pool, v) && !RefersTo(t.points[a], v)
  {
    UnlistedAnswers(s.pool, p.size, v, s.points[a].key);
    UnlistedKeeps(s.pool, p.size, v, L.GetOp(s.points[a].key));
  }

  lemma ChooseForgets(p: Config, s: State, a: nat, c: Choice, t: State, v: nat)
    requires a < |s.points| && ChooseStep(p, s, a, c) == Some(t)
    requires Unlisted(s.pool, v) && !RefersTo(s.points[a], v)
    ensures Unlisted(t.pool, v) && !RefersTo(t.points[a], v)
  {
  }

  lemma CloseForgets(p: Config, s: State, a: nat, c: Choice, t: State, v: nat)
    requires a < |s.points| && CloseStep(p, s, a, c) == Some(t)
    requires Unlisted(s.pool, v) && !RefersTo(s.points[a], v)
    ensures Unlisted(t.pool, v) && !RefersTo(t.points[a], v)
  {
    UnlistedAnswers(s.pool, 0, v, 0);
  }

  lemma ClientForgets(p: Config, s: State, a: nat, c: Choice, t: State, v: nat)
    requires ValidConfig(p) && v < |s.queues| && Next(p, s, a, c) == Some(t)
    requires Unlisted(s.pool, v) && !RefersTo(s.points[a], v)
    ensures Unlisted(t.pool, v) && |t.points| == |s.points| && !RefersTo(t.points[a], v)
  {
    StepOnlyMoves(p, s, a, c, t);
    if Creating(s.points[a]) {
      CreateForgets(p, s, a, c, t, v);
    } else if Getting(s.points[a]) {
      ChooseForgets(p, s, a, c, t, v);
    } else if Releasing(s.points[a]) {
      ReleaseForgets(p, s, a, c, t, v);
    } else if !s.points[a].Idle? {
      CloseForgets(p, s, a, c, t, v);
    }
  }

  lemma StepForgets(p: Config, s: State, a: nat, c: Choice, t: State, v: nat)
    requires ValidConfig(p) && Next(p, s, a, c) == Some(t) && Forgotten(s, v)
    ensures Forgotten(t, v) && t.queues[v] == s.queues[v]
  {
    StepMovesQueue(p, s, a, c, t, v);
    StepOnlyMoves(p, s, a, c, t);
    ClientForgets(p, s, a, c, t, v);
  }

  /** Main result: what is left in a queue that nothing refers to stays there, unclosed, in every run. */
  lemma {:induction false} ForgottenForGood(p: Config, s: State, moves: seq<Move>, v: nat)
    requires ValidConfig(p) && Forgotten(s, v) && Run(p, s, moves).Some?
    ensures Forgotten(Run(p, s, moves).value, v) && Run(p, s, moves).value.queues[v] == s.queues[v]
    decreases |moves|
  {
    if moves != [] {
      var (a, c) := moves[0];
      StepForgets(p, s, a, c, Next(p, s, a, c).value, v);
      ForgottenForGood(p, Next(p, s, a, c).value, moves[1..], v);
    }
  }
}
