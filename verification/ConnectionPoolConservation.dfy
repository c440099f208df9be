/**
  Conservation in the dedicated connection pool: as long as the keys in use fit into the table and the
  factory does not fail, every key keeps exactly connections_per_key connections.
 */
module ConnectionPoolConservation {
  import opened Wrappers
  import opened ConnectionPool
  import opened ConnectionPoolRuns
  import L = LruSpec

  // ---- Counting ----------------------------------------------------------------------

  /** The queue a connection on its way is owed to, from the moment it leaves the queue. */
  function Owes(point: Point): Option<nat> {
    match point
    case Testing(_, q, _) => Some(q)
    case Replacing(_, q) => Some(q)
    case Adding(_, q, _) => Some(q)
    case Holding(_, q, _) => Some(q)
    case WantRelease(_, q, _) => Some(q)
    case Finding(_, q, _) => Some(q)
    case Putting(_, _, _, target) => Some(target)
    case _ => None
  }

  function One(b: bool): nat { if b then 1 else 0 }

  /** The number of clients that owe a connection to q. */
  function Owed(points: seq<Point>, q: nat): nat {
    if points == [] then 0 else One(Owes(points[0]) == Some(q)) + Owed(points[1..], q)
  }

  lemma {:induction false} OwedMoves(points: seq<Point>, a: nat, after: Point, q: nat)
    requires a < |points|
    ensures Owed(points[a := after], q) == Owed(points, q) - One(Owes(points[a]) == Some(q)) + One(Owes(after) == Some(q))
    decreases a
  {
    var points' := points[a := after];
    if a == 0 {
      assert points'[1..] == points[1..];
    } else {
      OwedMoves(points[1..], a - 1, after, q);
      assert points'[1..] == points[1..][a - 1 := after];
    }
  }

  lemma {:induction false} NobodyOwes(points: seq<Point>, q: nat)
    requires forall a :: 0 <= a < |points| ==> Owes(points[a]) != Some(q)
    ensures Owed(points, q) == 0
  {
    if points != [] {
      NobodyOwes(points[1..], q);
    }
  }

  // ---- Calm runs ---------------------------------------------------------------------

  /** Some key has this queue. */
  ghost predicate Installed(pool: L.Recency<Key, nat>, q: nat) {
    exists k :: L.Lookup(pool, k) == Some(q)
  }

  /** What a client in a calm run knows: its queue is the one the table has for its key. */
  ghost predicate Settled(p: Config, pool: L.Recency<Key, nat>, queues: seq<seq<Conn>>, point: Point, keys: set<Key>) {
    match point
    case Idle => true
    case WantCreate(key) => key in keys
    case Looking(key) => key in keys
    case Filling(key, q) =>
      && key in keys && !L.Has(pool, key)
      && q < |queues| && |queues[q]| <= p.perKey
      && !Installed(pool, q)
    case Choosing(key, q) => L.Lookup(pool, key) == Some(q)
    case Testing(key, q, _) => L.Lookup(pool, key) == Some(q)
    case Replacing(key, q) => L.Lookup(pool, key) == Some(q)
    case Adding(key, q, _) => L.Lookup(pool, key) == Some(q)
    case Holding(key, q, _) => L.Lookup(pool, key) == Some(q)
    case WantRelease(key, q, _) => L.Lookup(pool, key) == Some(q)
    case Finding(key, q, _) => L.Lookup(pool, key) == Some(q)
    case Putting(key, q, _, target) => L.Lookup(pool, key) == Some(q) && target == q
    case _ => false
  }

  ghost predicate AllSettled(p: Config, s: State, keys: set<Key>) {
    forall a :: 0 <= a < |s.points| ==> Settled(p, s.pool, s.queues, s.points[a], keys)
  }

  /** Every key has as many connections, queued or on their way, as it was given. */
  ghost predicate Conserved(p: Config, s: State) {
    forall key :: L.Lookup(s.pool, key).Some? ==>
      var q := L.Lookup(s.pool, key).value;
      q < |s.queues| && |s.queues[q]| + Owed(s.points, q) == p.perKey
  }

  ghost predicate Calm(p: Config, s: State, keys: set<Key>) {
    && Tidy(p, s) && !s.closed && L.KeySet(s.pool) <= keys && |keys| <= p.size
    && AllSettled(p, s, keys) && Conserved(p, s)
  }

  /** A move of a calm run: no close(), no failing factory, and keys that all have room in the table. */
  ghost predicate CalmMove(s: State, m: Move, keys: set<Key>) {
    && !m.1.Fail? && !m.1.Shut?
    && (m.1.Ask? ==> m.1.key in keys)
  }

  lemma GetAddsNone(pool: L.Recency<Key, nat>, key: Key, k: Key)
    requires L.Has(pool, key) && L.Has(L.Get(pool, key), k)
    ensures L.Has(pool, k)
  {
    var j, f := L.Find(L.Get(pool, key), k), L.Find(pool, key);
    var i := if j == 0 then f else if j <= f then j - 1 else j;
    assert pool[i].key == k;
    L.HasMeans(pool, k);
  }

  lemma GetKeepsLookups(pool: L.Recency<Key, nat>, key: Key, k: Key)
    requires L.Distinct(pool) && L.Has(pool, key)
    ensures L.Lookup(L.Get(pool, key), k) == L.Lookup(pool, k)
  {
    var after, f := L.Get(pool, key), L.Find(pool, key);
    var op: L.Op<Key, nat> := L.GetOp(key);
    L.ApplyKeeps(pool, |pool| + 1, op);
    if L.Has(after, k) {
      GetAddsNone(pool, key, k);
    }
    if L.Has(pool, k) {
      var i := L.Find(pool, k);
      L.FindIs(after, k, if i == f then 0 else if i < f then i + 1 else i);
    }
  }

  lemma SetAddsNoOther(pool: L.Recency<Key, nat>, size: nat, key: Key, q: nat, k: Key)
    requires |pool| < size && !L.Has(pool, key) && k != key && L.Has(L.Set(pool, size, key, q), k)
    ensures L.Has(pool, k)
  {
    var i := L.Find(L.Set(pool, size, key, q), k);
    assert pool[i - 1].key == k;
    L.HasMeans(pool, k);
  }

  lemma SetAddsLookup(pool: L.Recency<Key, nat>, size: nat, key: Key, q: nat, k: Key)
    requires L.Distinct(pool) && |pool| < size && !L.Has(pool, key)
    ensures L.Lookup(L.Set(pool, size, key, q), k) == if k == key then Some(q) else L.Lookup(pool, k)
  {
    var after := L.Set(pool, size, key, q);
    L.ApplyKeeps(pool, size, L.SetOp(key, q));
    if k == key {
      L.FindIs(after, k, 0);
    } else {
      if L.Has(after, k) {
        SetAddsNoOther(pool, size, key, q, k);
      }
      if L.Has(pool, k) {
        L.FindIs(after, k, L.Find(pool, k) + 1);
      }
    }
  }

  /** A table that answers every lookup as before has the same keys. */
  lemma SameKeys(pool: L.Recency<Key, nat>, after: L.Recency<Key, nat>)
    requires forall k :: L.Lookup(after, k) == L.Lookup(pool, k)
    ensures L.KeySet(after) == L.KeySet(pool)
  {
    forall k ensures k in L.KeySet(after) <==> k in L.KeySet(pool) {
      L.HasMeans(after, k);
      L.HasMeans(pool, k);
      assert L.Lookup(after, k) == L.Lookup(pool, k);
    }
  }

  /** The clients other than a are as settled as before. */
  lemma OthersStaySettled(p: Config, s: State, t: State, a: nat, keys: set<Key>)
    requires AllSettled(p, s, keys) && a < |s.points| == |t.points| && t.points == s.points[a := t.points[a]]
    requires forall k :: L.Lookup(t.pool, k) == L.Lookup(s.pool, k)
    requires forall b :: 0 <= b < |s.points| && b != a && s.points[b].Filling? ==>
      s.points[b].q < |s.queues| <= |t.queues| && t.queues[s.points[b].q] == s.queues[s.points[b].q]
    requires Settled(p, t.pool, t.queues, t.points[a], keys)
    ensures AllSettled(p, t, keys)
  {
    forall b | 0 <= b < |t.points| ensures Settled(p, t.pool, t.queues, t.points[b], keys) {
      if b != a {
        assert Settled(p, s.pool, s.queues, s.points[b], keys);
        var point := s.points[b];
        if point.Filling? {
          assert L.Lookup(t.pool, point.key) == None;
        }
      }
    }
  }

  /** Connections only move between the queue q, of some key or of none yet, and client a. */
  ghost predicate OnlyMoves(s: State, t: State, a: nat, q: nat) {
    && a < |s.points| == |t.points| && t.points == s.points[a := t.points[a]]
    && (forall k :: L.Lookup(t.pool, k) == L.Lookup(s.pool, k))
    && |t.queues| >= |s.queues|
    && (forall r :: 0 <= r < |s.queues| && r != q ==> t.queues[r] == s.queues[r])
    && (forall r: nat :: r != q ==> Owes(t.points[a]) != Some(r) && Owes(s.points[a]) != Some(r))
    && (q < |s.queues| && Installed(s.pool, q) ==>
      |t.queues[q]| + One(Owes(t.points[a]) == Some(q)) == |s.queues[q]| + One(Owes(s.points[a]) == Some(q)))
  }

  lemma MovesConserve(p: Config, s: State, t: State, a: nat, q: nat)
    requires Conserved(p, s) && OnlyMoves(s, t, a, q)
    ensures Conserved(p, t)
  {
    forall key | L.Lookup(t.pool, key).Some?
      ensures var r := L.Lookup(t.pool, key).value; r < |t.queues| && |t.queues[r]| + Owed(t.points, r) == p.perKey
    {
      var r := L.Lookup(t.pool, key).value;
      assert L.Lookup(s.pool, key) == Some(r);
      OwedMoves(s.points, a, t.points[a], r);
    }
  }

  lemma NoLookupIsNew(s: State, k: Key)
    requires forall i :: 0 <= i < |s.pool| ==> s.pool[i].value < |s.queues|
    ensures L.Lookup(s.pool, k) != Some(|s.queues|)
  {
    if L.Has(s.pool, k) {
      LookupIsEntry(s.pool, k);
    }
  }

  lemma OnlyOneFills(p: Config, s: State, a: nat)
    requires Tidy(p, s) && a < |s.points| && NeedsLock(s.points[a])
    ensures forall b :: 0 <= b < |s.points| && b != a ==> !NeedsLock(s.points[b])
  {
  }

  // ---- Step by step ------------------------------------------------------------------

  lemma SettledOf(p: Config, s: State, keys: set<Key>, a: nat)
    requires AllSettled(p, s, keys) && a < |s.points|
    ensures Settled(p, s.pool, s.queues, s.points[a], keys)
  {
  }

  /** What is left to show of a step that keeps the answers of the table. */
  lemma CalmAfter(p: Config, s: State, t: State, a: nat, q: nat, keys: set<Key>)
    requires Calm(p, s, keys) && Tidy(p, t) && !t.closed
    requires OnlyMoves(s, t, a, q)
    requires NeedsLock(s.points[a]) || t.queues == s.queues || Installed(s.pool, q)
    requires Settled(p, t.pool, t.queues, t.points[a], keys)
    ensures Calm(p, t, keys)
  {
    SameKeys(s.pool, t.pool);
    MovesConserve(p, s, t, a, q);
    if NeedsLock(s.points[a]) {
      OnlyOneFills(p, s, a);
    } else {
      forall b | 0 <= b < |s.points| && b != a && s.points[b].Filling?
        ensures s.points[b].q < |s.queues| && t.queues[s.points[b].q] == s.queues[s.points[b].q]
      {
        SettledOf(p, s, keys, b);
      }
    }
    OthersStaySettled(p, s, t, a, keys);
  }

  lemma ChooseKeepsCalm(p: Config, s: State, a: nat, c: Choice, keys: set<Key>)
    requires ValidConfig(p) && Calm(p, s, keys) && a < |s.points| && ChooseStep(p, s, a, c).Some? && !c.Fail?
    ensures Calm(p, ChooseStep(p, s, a, c).value, keys)
  {
    var t := ChooseStep(p, s, a, c).value;
    ChooseKeepsTidy(p, s, a, c);
    SettledOf(p, s, keys, a);
    CalmAfter(p, s, t, a, s.points[a].q, keys);
  }

  lemma ReleaseKeepsCalm(p: Config, s: State, a: nat, c: Choice, keys: set<Key>)
    requires ValidConfig(p) && Calm(p, s, keys) && a < |s.points| && ReleaseStep(p, s, a, c).Some?
    ensures Calm(p, ReleaseStep(p, s, a, c).value, keys)
  {
    var t := ReleaseStep(p, s, a, c).value;
    ReleaseKeepsTidy(p, s, a, c);
    SettledOf(p, s, keys, a);
    if s.points[a].Finding? {
      forall k ensures L.Lookup(t.pool, k) == L.Lookup(s.pool, k) {
        GetKeepsLookups(s.pool, s.points[a].key, k);
      }
    }
    CalmAfter(p, s, t, a, s.points[a].q, keys);
  }

  lemma LookKeepsCalm(p: Config, s: State, a: nat, c: Choice, keys: set<Key>)
    requires ValidConfig(p) && Calm(p, s, keys) && a < |s.points| && CreateStep(p, s, a, c).Some?
    requires s.points[a].WantCreate? || s.points[a].Looking?
    ensures Calm(p, CreateStep(p, s, a, c).value, keys)
  {
    var t := CreateStep(p, s, a, c).value;
    CreateKeepsTidy(p, s, a, c);
    SettledOf(p, s, keys, a);
    var key := s.points[a].key;
    if s.points[a].Looking? {
      if L.Has(s.pool, key) {
        forall k ensures L.Lookup(t.pool, k) == L.Lookup(s.pool, k) {
          GetKeepsLookups(s.pool, key, k);
        }
      } else {
        forall k ensures L.Lookup(s.pool, k) != Some(|s.queues|) {
          NoLookupIsNew(s, k);
        }
      }
    }
    CalmAfter(p, s, t, a, |s.queues|, keys);
  }

  /** A new key finds room: nothing has to be evicted. */
  lemma RoomForKey(p: Config, pool: L.Recency<Key, nat>, keys: set<Key>, key: Key)
    requires L.Distinct(pool) && L.KeySet(pool) <= keys && |keys| <= p.size && key in keys && !L.Has(pool, key)
    ensures |pool| < p.size
  {
    L.HasMeans(pool, key);
    L.KeySetSize(pool);
    L.SubsetSize(L.KeySet(pool) + {key}, keys);
  }

  lemma FillKeepsCalm(p: Config, s: State, a: nat, c: Choice, keys: set<Key>)
    requires ValidConfig(p) && Calm(p, s, keys) && a < |s.points| && CreateStep(p, s, a, c).Some? && !c.Fail?
    requires s.points[a].Filling? && |s.queues[s.points[a].q]| < p.perKey
    ensures Calm(p, CreateStep(p, s, a, c).value, keys)
  {
    var t := CreateStep(p, s, a, c).value;
    CreateKeepsTidy(p, s, a, c);
    SettledOf(p, s, keys, a);
    assert t.points == s.points[a := t.points[a]];
    CalmAfter(p, s, t, a, s.points[a].q, keys);
  }

  /** The filled queue is entered into the table: its connections are all there, and nobody owes it any. */
  lemma InstallKeepsCalm(p: Config, s: State, a: nat, c: Choice, keys: set<Key>)
    requires ValidConfig(p) && Calm(p, s, keys) && a < |s.points| && CreateStep(p, s, a, c).Some?
    requires s.points[a].Filling? && |s.queues[s.points[a].q]| >= p.perKey
    ensures Calm(p, CreateStep(p, s, a, c).value, keys)
  {
    var t := CreateStep(p, s, a, c).value;
    var key, q := s.points[a].key, s.points[a].q;
    CreateKeepsTidy(p, s, a, c);
    SettledOf(p, s, keys, a);
    RoomForKey(p, s.pool, keys, key);
    forall k ensures L.Lookup(t.pool, k) == if k == key then Some(q) else L.Lookup(s.pool, k) {
      SetAddsLookup(s.pool, p.size, key, q, k);
    }
    InstalledKeys(p, s, t, key, q, keys);
    OnlyOneFills(p, s, a);
    forall b | 0 <= b < |t.points| ensures Settled(p, t.pool, t.queues, t.points[b], keys) && Owes(t.points[b]) != Some(q) {
      SettledOf(p, s, keys, b);
    }
    NobodyOwes(t.points, q);
    forall k | L.Lookup(t.pool, k).Some?
      ensures var r := L.Lookup(t.pool, k).value; r < |t.queues| && |t.queues[r]| + Owed(t.points, r) == p.perKey
    {
      if k != key {
        OwedMoves(s.points, a, t.points[a], L.Lookup(t.pool, k).value);
      }
    }
  }

  lemma InstalledKeys(p: Config, s: State, t: State, key: Key, q: nat, keys: set<Key>)
    requires L.KeySet(s.pool) <= keys && key in keys
    requires forall k :: L.Lookup(t.pool, k) == if k == key then Some(q) else L.Lookup(s.pool, k)
    ensures L.KeySet(t.pool) <= keys
  {
    forall k | k in L.KeySet(t.pool) ensures k in keys {
      L.HasMeans(t.pool, k);
      L.HasMeans(s.pool, k);
      assert L.Lookup(t.pool, k).Some?;
    }
  }

  lemma StepKeepsCalm(p: Config, s: State, m: Move, keys: set<Key>)
    requires ValidConfig(p) && Calm(p, s, keys) && CalmMove(s, m, keys) && Next(p, s, m.0, m.1).Some?
    ensures Calm(p, Next(p, s, m.0, m.1).value, keys)
  {
    var (a, c) := m;
    var point := s.points[a];
    SettledOf(p, s, keys, a);
    if point.Idle? {
      StepKeepsTidy(p, s, a, c);
      CalmAfter(p, s, Next(p, s, a, c).value, a, |s.queues|, keys);
    } else if point.WantCreate? || point.Looking? {
      LookKeepsCalm(p, s, a, c, keys);
    } else if point.Filling? {
      if |s.queues[point.q]| < p.perKey {
        FillKeepsCalm(p, s, a, c, keys);
      } else {
        InstallKeepsCalm(p, s, a, c, keys);
      }
    } else if Getting(point) {
      ChooseKeepsCalm(p, s, a, c, keys);
    } else {
      ReleaseKeepsCalm(p, s, a, c, keys);
    }
  }

  ghost predicate CalmRun(p: Config, s: State, moves: seq<Move>, keys: set<Key>)
    requires ValidConfig(p)
    decreases |moves|
  {
    moves == [] || (CalmMove(s, moves[0], keys) && Next(p, s, moves[0].0, moves[0].1).Some?
      && CalmRun(p, Next(p, s, moves[0].0, moves[0].1).value, moves[1..], keys))
  }

  lemma {:induction false} RunKeepsCalm(p: Config, s: State, moves: seq<Move>, keys: set<Key>)
    requires ValidConfig(p) && Calm(p, s, keys) && CalmRun(p, s, moves, keys)
    ensures Run(p, s, moves).Some? && Calm(p, Run(p, s, moves).value, keys)
    decreases |moves|
  {
    if moves != [] {
      StepKeepsCalm(p, s, moves[0], keys);
      RunKeepsCalm(p, Next(p, s, moves[0].0, moves[0].1).value, moves[1..], keys);
    }
  }

  /**
    Main result: with no more keys in use than the table has room for and a factory that does not
    fail, the connections of a key that are queued and those on their way between a client and the
    queue add up to connections_per_key in every state, stale ones being replaced one for one; and
    no key is ever evicted.
   */
  lemma ConnectionsConserved(p: Config, clients: nat, moves: seq<Move>, keys: set<Key>, key: Key)
    requires ValidConfig(p) && |keys| <= p.size && CalmRun(p, Init(clients), moves, keys)
    ensures Run(p, Init(clients), moves).Some?
    ensures var s := Run(p, Init(clients), moves).value;
      && (L.Has(s.pool, key) ==>
        var q := L.Lookup(s.pool, key).value;
        q < |s.queues| && |s.queues[q]| + Owed(s.points, q) == p.perKey)
      && forall a :: 0 <= a < |s.points| ==> !s.points[a].Evicting? && !s.points[a].Installing?
  {
    RunKeepsCalm(p, Init(clients), moves, keys);
    var s := Run(p, Init(clients), moves).value;
    forall a | 0 <= a < |s.points| ensures !s.points[a].Evicting? && !s.points[a].Installing? {
      SettledOf(p, s, keys, a);
    }
  }

  // ---- Waiting clients ---------------------------------------------------------------

  lemma {:induction false} SomebodyOwes(points: seq<Point>, q: nat) returns (b: nat)
    requires Owed(points, q) > 0
    ensures b < |points| && Owes(points[b]) == Some(q)
  {
    if Owes(points[0]) == Some(q) {
      b := 0;
    } else {
      b := SomebodyOwes(points[1..], q);
      b := b + 1;
    }
  }

  /** In a calm run a client that waits on its key's queue is owed a connection by another client. */
  lemma WaiterIsOwed(p: Config, clients: nat, moves: seq<Move>, keys: set<Key>, a: nat) returns (b: nat)
    requires ValidConfig(p) && p.perKey >= 1 && |keys| <= p.size && CalmRun(p, Init(clients), moves, keys)
    requires Run(p, Init(clients), moves).Some? && WaitsForConnection(Run(p, Init(clients), moves).value, a)
    ensures var s := Run(p, Init(clients), moves).value;
      && b < |s.points| && b != a && Owes(s.points[b]) == Some(s.points[a].q)
      && (Next(p, s, b, Go).Some? || s.lock.Some?)
  {
    RunKeepsCalm(p, Init(clients), moves, keys);
    var s := Run(p, Init(clients), moves).value;
    SettledOf(p, s, keys, a);
    assert L.Lookup(s.pool, s.points[a].key) == Some(s.points[a].q);
    b := SomebodyOwes(s.points, s.points[a].q);
    HeldUpByLockOrQueue(p, s, b);
  }

  /** Main result: clients that give back what they get are never stuck; while one is busy, one can go on. */
  lemma NeverStuck(p: Config, clients: nat, moves: seq<Move>, keys: set<Key>, a: nat)
    requires ValidConfig(p) && p.perKey >= 1 && |keys| <= p.size && CalmRun(p, Init(clients), moves, keys)
    requires Run(p, Init(clients), moves).Some?
    requires a < |Run(p, Init(clients), moves).value.points| && !Run(p, Init(clients), moves).value.points[a].Idle?
    ensures var s := Run(p, Init(clients), moves).value;
      exists b: nat :: b < |s.points| && !s.points[b].Idle? && Next(p, s, b, Go).Some?
  {
    RunKeepsCalm(p, Init(clients), moves, keys);
    var s := Run(p, Init(clients), moves).value;
    if s.lock.Some? {
      LockHolderSteps(p, s, s.lock.value);
      assert NeedsLock(s.points[s.lock.value]);
    } else {
      HeldUpByLockOrQueue(p, s, a);
      if !Next(p, s, a, Go).Some? {
        var b := WaiterIsOwed(p, clients, moves, keys, a);
      }
    }
  }
}
