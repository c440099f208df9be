/**
  Eviction in the dedicated connection pool: the table only ever loses its least recently used key, after
  the queue of that key has been seen empty by the thread that has the lock. What is in the queue when
  the key goes was put there since, by clients that had fetched the queue before.
 */
module ConnectionPoolEviction {
  import opened Wrappers
  import opened ConnectionPool
  import opened ConnectionPoolRuns
  import opened ConnectionPoolConservation
  import opened Sequences
  import L = LruSpec

  /** The key is new, and victim is the queue of the key it displaces. */
  ghost predicate MakesRoom(p: Config, pool: L.Recency<Key, nat>, key: Key, victim: nat)
    requires ValidConfig(p)
  {
    !L.Has(pool, key) && L.Victim(pool, p.size).Some? && L.Victim(pool, p.size).value.value == victim
  }

  /** What a client that is adding a key relies on while it has the lock. */
  ghost predicate Intends(p: Config, pool: L.Recency<Key, nat>, point: Point)
    requires ValidConfig(p)
  {
    match point
    case Filling(key, _) => !L.Has(pool, key)
    case Evicting(key, _, victim) => MakesRoom(p, pool, key, victim)
    case Installing(key, _, victim) => MakesRoom(p, pool, key, victim)
    case _ => true
  }

  ghost predicate AllIntend(p: Config, s: State)
    requires ValidConfig(p)
  {
    forall a :: 0 <= a < |s.points| ==> Intends(p, s.pool, s.points[a])
  }

  lemma IntentOf(p: Config, s: State, a: nat)
    requires ValidConfig(p) && AllIntend(p, s) && a < |s.points|
    ensures Intends(p, s.pool, s.points[a])
  {
  }

  /** The other clients stay where they are. */
  ghost predicate OnlyMoved(s: State, t: State, a: nat) {
    a < |s.points| == |t.points| && forall b :: 0 <= b < |s.points| && b != a ==> t.points[b] == s.points[b]
  }

  /** No key is being added by client a, and the table is the same unless it has the lock. */
  ghost predicate AddsNothing(s: State, t: State, a: nat)
    requires a < |s.points| == |t.points|
  {
    && !t.points[a].Filling? && !t.points[a].Evicting? && !t.points[a].Installing?
    && (NeedsLock(s.points[a]) || t.pool == s.pool)
  }

  lemma CreateIntends(p: Config, s: State, a: nat, c: Choice, t: State)
    requires ValidConfig(p) && a < |s.points| && CreateStep(p, s, a, c) == Some(t) && Intends(p, s.pool, s.points[a])
    ensures OnlyMoved(s, t, a) && Intends(p, t.pool, t.points[a])
    ensures s.points[a].WantCreate? ==> t.pool == s.pool
  {
  }

  lemma ChooseAddsNothing(p: Config, s: State, a: nat, c: Choice, t: State)
    requires a < |s.points| && ChooseStep(p, s, a, c) == Some(t)
    ensures OnlyMoved(s, t, a) && AddsNothing(s, t, a)
  {
  }

  lemma ReleaseAddsNothing(p: Config, s: State, a: nat, c: Choice, t: State)
    requires a < |s.points| && ReleaseStep(p, s, a, c) == Some(t)
    ensures OnlyMoved(s, t, a) && AddsNothing(s, t, a)
  {
  }

  lemma CloseAddsNothing(p: Config, s: State, a: nat, c: Choice, t: State)
    requires a < |s.points| && CloseStep(p, s, a, c) == Some(t)
    ensures OnlyMoved(s, t, a) && AddsNothing(s, t, a)
  {
  }

  lemma OthersAddNothing(p: Config, s: State, a: nat, c: Choice, t: State)
    requires ValidConfig(p) && Next(p, s, a, c) == Some(t) && !Creating(s.points[a])
    ensures OnlyMoved(s, t, a) && AddsNothing(s, t, a)
  {
    if Getting(s.points[a]) {
      ChooseAddsNothing(p, s, a, c, t);
    } else if Releasing(s.points[a]) {
      ReleaseAddsNothing(p, s, a, c, t);
    } else if !s.points[a].Idle? {
      CloseAddsNothing(p, s, a, c, t);
    }
  }

  lemma StepKeepsIntents(p: Config, s: State, a: nat, c: Choice)
    requires ValidConfig(p) && Tidy(p, s) && AllIntend(p, s) && Next(p, s, a, c).Some?
    ensures AllIntend(p, Next(p, s, a, c).value)
  {
    var t := Next(p, s, a, c).value;
    IntentOf(p, s, a);
    if Creating(s.points[a]) {
      CreateIntends(p, s, a, c, t);
    } else {
      OthersAddNothing(p, s, a, c, t);
    }
    if NeedsLock(s.points[a]) {
      OnlyOneFills(p, s, a);
    }
    forall b | 0 <= b < |t.points| ensures Intends(p, t.pool, t.points[b]) {
      if b != a {
        IntentOf(p, s, b);
      }
    }
  }

  lemma {:induction false} RunKeepsIntents(p: Config, s: State, moves: seq<Move>)
    requires ValidConfig(p) && Inv(p, s) && AllIntend(p, s) && Run(p, s, moves).Some?
    ensures Inv(p, Run(p, s, moves).value) && AllIntend(p, Run(p, s, moves).value)
    decreases |moves|
  {
    if moves != [] {
      var (a, c) := moves[0];
      StepKeepsExclusive(p, s, a, c);
      StepKeepsTidy(p, s, a, c);
      StepKeepsIntents(p, s, a, c);
      RunKeepsIntents(p, Next(p, s, a, c).value, moves[1..]);
    }
  }

  /** A store of a new key loses at most the last entry, and none while there is room. */
  lemma SetLoses(pool: L.Recency<Key, nat>, size: nat, key: Key, q: nat, k: Key)
    requires size >= 1 && L.Distinct(pool) && |pool| <= size && !L.Has(pool, key)
    requires L.Has(pool, k) && !L.Has(L.Set(pool, size, key, q), k)
    ensures L.Victim(pool, size) == Some(L.Slot(k, L.Lookup(pool, k).value))
  {
    L.DisplacedIsLast(pool, size, k, key, q);
  }

  /** How a step can change the table: a lookup touches an entry, or a key is stored. */
  ghost predicate TableChange(p: Config, s: State, a: nat, t: State)
    requires ValidConfig(p) && a < |s.points|
  {
    || t.pool == s.pool
    || ((s.points[a].Looking? || s.points[a].Finding?) && t.pool == L.Get(s.pool, s.points[a].key))
    || ((s.points[a].Filling? || s.points[a].Installing?) && t.queues == s.queues
        && t.pool == L.Set(s.pool, p.size, s.points[a].key, s.points[a].q)
        && (s.points[a].Filling? ==> L.Victim(s.pool, p.size) == None))
  }

  lemma CreateChanges(p: Config, s: State, a: nat, c: Choice, t: State)
    requires ValidConfig(p) && a < |s.points| && CreateStep(p, s, a, c) == Some(t) && Intends(p, s.pool, s.points[a])
    ensures TableChange(p, s, a, t)
  {
  }

  lemma TableChanges(p: Config, s: State, a: nat, c: Choice, t: State)
    requires ValidConfig(p) && Tidy(p, s) && AllIntend(p, s) && Next(p, s, a, c) == Some(t)
    ensures TableChange(p, s, a, t)
  {
    if Creating(s.points[a]) {
      IntentOf(p, s, a);
      CreateChanges(p, s, a, c, t);
    }
  }

  lemma LossIsInstall(p: Config, s: State, a: nat, c: Choice, k: Key)
    requires ValidConfig(p) && Tidy(p, s) && AllIntend(p, s) && Next(p, s, a, c).Some?
    requires L.Has(s.pool, k) && !L.Has(Next(p, s, a, c).value.pool, k)
    ensures s.points[a].Filling? || s.points[a].Installing?
    ensures s.points[a].Filling? ==> L.Victim(s.pool, p.size) == None
    ensures Next(p, s, a, c).value.pool == L.Set(s.pool, p.size, s.points[a].key, s.points[a].q)
    ensures Next(p, s, a, c).value.queues == s.queues
  {
    TableChanges(p, s, a, c, Next(p, s, a, c).value);
    if s.points[a].Looking? || s.points[a].Finding? {
      GetKeepsLookups(s.pool, s.points[a].key, k);
      assert false;
    }
  }

  // ---- What goes into a queue and what comes out of it -------------------------------

  /** The connection a step puts into queue v, if any. */
  ghost function PutBy(p: Config, s: State, a: nat, c: Choice, v: nat): seq<Conn>
    requires a < |s.points|
  {
    match s.points[a]
    case Filling(_, q) => if q == v < |s.queues| && |s.queues[v]| < p.perKey && !c.Fail? then [s.nextConn] else []
    case Adding(_, q, conn) => if q == v then [conn] else []
    case Putting(_, _, conn, target) => if target == v then [conn] else []
    case _ => []
  }

  /** Whether a step takes the head of queue v, to use it or to close it. */
  ghost predicate TakenBy(s: State, a: nat, v: nat)
    requires a < |s.points| && v < |s.queues|
  {
    && s.queues[v] != []
    && match s.points[a]
       case Choosing(_, q) => q == v
       case Evicting(_, _, victim) => victim == v
       case Draining(left) => left != [] && left[0] == v
       case _ => false
  }

  /** The queue v after a step. */
  ghost predicate QueueMoves(p: Config, s: State, t: State, a: nat, c: Choice, v: nat)
    requires a < |s.points| && v < |s.queues|
  {
    && |t.queues| >= |s.queues|
    && t.queues[v] == (if TakenBy(s, a, v) then s.queues[v][1..] else s.queues[v]) + PutBy(p, s, a, c, v)
  }

  lemma CreateMovesQueue(p: Config, s: State, a: nat, c: Choice, t: State, v: nat)
    requires ValidConfig(p) && a < |s.points| && v < |s.queues| && CreateStep(p, s, a, c) == Some(t)
    ensures QueueMoves(p, s, t, a, c, v)
  {
  }

  lemma ChooseMovesQueue(p: Config, s: State, a: nat, c: Choice, t: State, v: nat)
    requires a < |s.points| && v < |s.queues| && ChooseStep(p, s, a, c) == Some(t)
    ensures QueueMoves(p, s, t, a, c, v)
  {
  }

  lemma ReleaseMovesQueue(p: Config, s: State, a: nat, c: Choice, t: State, v: nat)
    requires a < |s.points| && v < |s.queues| && ReleaseStep(p, s, a, c) == Some(t)
    ensures QueueMoves(p, s, t, a, c, v)
  {
  }

  lemma CloseMovesQueue(p: Config, s: State, a: nat, c: Choice, t: State, v: nat)
    requires a < |s.points| && v < |s.queues| && CloseStep(p, s, a, c) == Some(t)
    ensures QueueMoves(p, s, t, a, c, v)
  {
  }

  lemma StepMovesQueue(p: Config, s: State, a: nat, c: Choice, t: State, v: nat)
    requires ValidConfig(p) && v < |s.queues| && Next(p, s, a, c) == Some(t)
    ensures QueueMoves(p, s, t, a, c, v)
  {
    if Creating(s.points[a]) {
      CreateMovesQueue(p, s, a, c, t, v);
    } else if Getting(s.points[a]) {
      ChooseMovesQueue(p, s, a, c, t, v);
    } else if Releasing(s.points[a]) {
      ReleaseMovesQueue(p, s, a, c, t, v);
    } else if !s.points[a].Idle? {
      CloseMovesQueue(p, s, a, c, t, v);
    }
  }

  /** Everything a run puts into queue v, in order. */
  ghost function Puts(p: Config, s: State, moves: seq<Move>, v: nat): seq<Conn>
    requires ValidConfig(p)
    decreases |moves|
  {
    if moves == [] then []
    else match Next(p, s, moves[0].0, moves[0].1)
      case None => []
      case Some(t) => PutBy(p, s, moves[0].0, moves[0].1, v) + Puts(p, t, moves[1..], v)
  }

  /** How often a run takes the head of queue v. */
  ghost function Takes(p: Config, s: State, moves: seq<Move>, v: nat): nat
    requires ValidConfig(p) && v < |s.queues|
    decreases |moves|
  {
    if moves == [] then 0
    else match Next(p, s, moves[0].0, moves[0].1)
      case None => 0
      case Some(t) =>
        StepMovesQueue(p, s, moves[0].0, moves[0].1, t, v);
        (if TakenBy(s, moves[0].0, v) then 1 else 0) + Takes(p, t, moves[1..], v)
  }

  /** Over any run a queue is first in, first out. */
  lemma {:induction false} QueueIsFifo(p: Config, s: State, moves: seq<Move>, t: State, v: nat)
    requires ValidConfig(p) && v < |s.queues| && Run(p, s, moves) == Some(t)
    ensures v < |t.queues| && Takes(p, s, moves, v) <= |s.queues[v]| + |Puts(p, s, moves, v)|
    ensures t.queues[v] == (s.queues[v] + Puts(p, s, moves, v))[Takes(p, s, moves, v)..]
    decreases |moves|
  {
    if moves == [] {
      assert (s.queues[v] + [])[0..] == s.queues[v];
    } else {
      var (a, c) := moves[0];
      var u := Next(p, s, a, c).value;
      StepMovesQueue(p, s, a, c, u, v);
      QueueIsFifo(p, u, moves[1..], t, v);
      var rest, n := Puts(p, u, moves[1..], v), Takes(p, u, moves[1..], v);
      if TakenBy(s, a, v) {
        TakeFirst(s.queues[v], PutBy(p, s, a, c, v), rest, n);
      } else {
        Regroup(s.queues[v], PutBy(p, s, a, c, v), rest);
      }
    }
  }

  lemma TakeFirst(q: seq<Conn>, put: seq<Conn>, rest: seq<Conn>, n: nat)
    requires q != [] && n <= |q[1..] + put + rest|
    ensures (q[1..] + put + rest)[n..] == (q + (put + rest))[n + 1..]
  {
    assert q + (put + rest) == [q[0]] + (q[1..] + put + rest);
  }

  // ---- Between seeing the queue empty and storing the new key ------------------------

  lemma InstallingFrom(p: Config, s: State, a: nat, c: Choice)
    requires ValidConfig(p) && Next(p, s, a, c).Some? && Next(p, s, a, c).value.points[a].Installing?
    ensures var t := Next(p, s, a, c).value; var now := t.points[a];
      && s.points[a] == Evicting(now.key, now.q, now.victim)
      && now.victim < |s.queues| && s.queues[now.victim] == []
      && t.queues == s.queues
  {
    if !Creating(s.points[a]) {
      OthersAddNothing(p, s, a, c, Next(p, s, a, c).value);
    }
  }

  lemma CreateOnlyMoves(p: Config, s: State, a: nat, c: Choice, t: State)
    requires ValidConfig(p) && a < |s.points| && CreateStep(p, s, a, c) == Some(t)
    ensures OnlyMoved(s, t, a)
  {
  }

  lemma StepOnlyMoves(p: Config, s: State, a: nat, c: Choice, t: State)
    requires ValidConfig(p) && Next(p, s, a, c) == Some(t)
    ensures OnlyMoved(s, t, a)
  {
    if Creating(s.points[a]) {
      CreateOnlyMoves(p, s, a, c, t);
    } else {
      OthersAddNothing(p, s, a, c, t);
    }
  }

  ghost predicate OthersOnly(moves: seq<Move>, a: nat) {
    forall i :: 0 <= i < |moves| ==> moves[i].0 != a
  }

  /** Client a saw the queue empty at move i, and has not moved since. */
  ghost predicate SawEmpty(p: Config, clients: nat, moves: seq<Move>, i: nat, a: nat, victim: nat)
    requires ValidConfig(p)
  {
    && i < |moves| && moves[i].0 == a && OthersOnly(moves[i + 1..], a)
    && Run(p, Init(clients), moves[..i]).Some?
    && var s := Run(p, Init(clients), moves[..i]).value;
       && a < |s.points| && s.points[a].Evicting? && s.points[a].victim == victim
       && victim < |s.queues| && s.queues[victim] == []
       && Next(p, s, a, moves[i].1).Some?
  }

  /** A client about to store its key has seen the queue of the victim empty, holding the lock since. */
  lemma {:induction false} HasSeenEmpty(p: Config, clients: nat, moves: seq<Move>, a: nat) returns (i: nat)
    requires ValidConfig(p) && Run(p, Init(clients), moves).Some?
    requires var s := Run(p, Init(clients), moves).value; a < |s.points| && s.points[a].Installing?
    ensures SawEmpty(p, clients, moves, i, a, Run(p, Init(clients), moves).value.points[a].victim)
    decreases |moves|
  {
    assert moves != [];
    var n := |moves| - 1;
    var before := moves[..n];
    var (b, c) := moves[n];
    assert moves == before + [(b, c)];
    RunPrefix(p, Init(clients), before, [(b, c)]);
    var s := Run(p, Init(clients), before).value;
    OneMove(p, s, b, c);
    if b == a {
      InstallingFrom(p, s, a, c);
      i := n;
    } else {
      MovesKeepClients(p, Init(clients), before);
      StepOnlyMoves(p, s, b, c, Next(p, s, b, c).value);
      i := HasSeenEmpty(p, clients, before, a);
      assert before[..i] == moves[..i] && moves[i + 1..] == before[i + 1..] + [(b, c)];
    }
  }

  lemma {:induction false} RunPrefix(p: Config, s: State, a: seq<Move>, b: seq<Move>)
    requires ValidConfig(p) && Run(p, s, a + b).Some?
    ensures Run(p, s, a).Some? && Run(p, s, a + b) == Run(p, Run(p, s, a).value, b)
    decreases |a|
  {
    if a == [] {
      assert a + b == b;
    } else {
      assert (a + b)[1..] == a[1..] + b;
      RunPrefix(p, Next(p, s, a[0].0, a[0].1).value, a[1..], b);
    }
  }

  lemma {:induction false} MovesKeepClients(p: Config, s: State, moves: seq<Move>)
    requires ValidConfig(p) && Run(p, s, moves).Some?
    ensures |Run(p, s, moves).value.points| == |s.points|
    decreases |moves|
  {
    if moves != [] {
      var (a, c) := moves[0];
      var t := Next(p, s, a, c).value;
      StepOnlyMoves(p, s, a, c, t);
      MovesKeepClients(p, t, moves[1..]);
    }
  }

  /** Since move i the queue holds what was put into it less what was taken out. */
  ghost predicate HoldsTheLate(p: Config, clients: nat, moves: seq<Move>, i: nat, victim: nat)
    requires ValidConfig(p) && i < |moves|
  {
    && Run(p, Init(clients), moves[..i + 1]).Some? && Run(p, Init(clients), moves).Some?
    && var s0, s := Run(p, Init(clients), moves[..i + 1]).value, Run(p, Init(clients), moves).value;
       && victim < |s0.queues| <= |s.queues|
       && var puts, takes := Puts(p, s0, moves[i + 1..], victim), Takes(p, s0, moves[i + 1..], victim);
          && takes <= |puts| && s.queues[victim] == puts[takes..]
          && (s.queues[victim] == [] <==> takes == |puts|)
  }

  lemma LateLaw(p: Config, clients: nat, moves: seq<Move>, i: nat, a: nat, victim: nat)
    requires ValidConfig(p) && Run(p, Init(clients), moves).Some? && SawEmpty(p, clients, moves, i, a, victim)
    ensures HoldsTheLate(p, clients, moves, i, victim)
  {
    var s := Run(p, Init(clients), moves[..i]).value;
    assert Next(p, s, a, moves[i].1).value.queues == s.queues;
    LateFrom(p, clients, moves, i, victim);
  }

  /** A queue that is empty after move i holds what came later. */
  lemma LateFrom(p: Config, clients: nat, moves: seq<Move>, i: nat, v: nat)
    requires ValidConfig(p) && Run(p, Init(clients), moves).Some? && i < |moves| && Run(p, Init(clients), moves[..i]).Some?
    requires var t := Next(p, Run(p, Init(clients), moves[..i]).value, moves[i].0, moves[i].1);
      t.Some? && v < |t.value.queues| && t.value.queues[v] == []
    ensures HoldsTheLate(p, clients, moves, i, v)
  {
    var s := Run(p, Init(clients), moves[..i]).value;
    OneMove(p, s, moves[i].0, moves[i].1);
    RunAppend(p, Init(clients), moves[..i], [moves[i]]);
    assert moves[..i + 1] == moves[..i] + [moves[i]] && moves == moves[..i + 1] + moves[i + 1..];
    RunAppend(p, Init(clients), moves[..i + 1], moves[i + 1..]);
    var s0 := Next(p, s, moves[i].0, moves[i].1).value;
    QueueIsFifo(p, s0, moves[i + 1..], Run(p, Init(clients), moves).value, v);
    assert s0.queues[v] + Puts(p, s0, moves[i + 1..], v) == Puts(p, s0, moves[i + 1..], v);
    RunKeepsSize(p, s0, moves[i + 1..]);
  }

  lemma {:induction false} RunKeepsSize(p: Config, s: State, moves: seq<Move>)
    requires ValidConfig(p) && Run(p, s, moves).Some?
    ensures |s.queues| <= |Run(p, s, moves).value.queues|
    decreases |moves|
  {
    if |s.queues| > 0 {
      QueueIsFifo(p, s, moves, Run(p, s, moves).value, |s.queues| - 1);
    }
  }

  /**
    Main result: in every run, whenever the table loses a key, it was the least recently used one and a
    new key is taking its place in a full table. The thread that stores the new key saw the queue of the
    old one empty at some move i and only others have moved since; the queue then holds exactly what they
    have put into it less what they have taken out, so it is empty if and only if the two are as many.
   */
  lemma LostKeyLaw(p: Config, clients: nat, moves: seq<Move>, a: nat, c: Choice, k: Key) returns (i: nat, victim: nat)
    requires ValidConfig(p) && Run(p, Init(clients), moves).Some?
    requires var s := Run(p, Init(clients), moves).value;
      && Next(p, s, a, c).Some?
      && L.Has(s.pool, k) && !L.Has(Next(p, s, a, c).value.pool, k)
    ensures var s := Run(p, Init(clients), moves).value;
      && |s.pool| == p.size && s.pool[|s.pool| - 1] == L.Slot(k, victim) && victim < |s.queues|
      && s.points[a].Installing? && L.Has(Next(p, s, a, c).value.pool, s.points[a].key)
      && Next(p, s, a, c).value.queues == s.queues
    ensures SawEmpty(p, clients, moves, i, a, victim) && HoldsTheLate(p, clients, moves, i, victim)
  {
    var s := Run(p, Init(clients), moves).value;
    RunKeepsIntents(p, Init(clients), moves);
    IntentOf(p, s, a);
    LossIsInstall(p, s, a, c, k);
    var key := s.points[a].key;
    SetLoses(s.pool, p.size, key, s.points[a].q, k);
    victim := s.points[a].victim;
    assert Next(p, s, a, c).value.pool[0].key == key;
    L.HasMeans(Next(p, s, a, c).value.pool, key);
    i := HasSeenEmpty(p, clients, moves, a);
    LateLaw(p, clients, moves, i, a, victim);
  }
}
