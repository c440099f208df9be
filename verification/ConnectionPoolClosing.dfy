/**
  close() of the dedicated connection pool: every queue the table refers to has been seen empty by the
  closing thread, what is in one afterwards was put there since, and a closed pool hands out nothing more.
 */
module ConnectionPoolClosing {
  import opened Wrappers
  import opened ConnectionPool
  import opened ConnectionPoolRuns
  import opened ConnectionPoolConservation
  import opened ConnectionPoolEviction
  import L = LruSpec

  // ---- The drain ---------------------------------------------------------------------

  /** At move i client a, in close(), saw queue v empty. */
  ghost predicate Drained(p: Config, clients: nat, moves: seq<Move>, i: nat, a: nat, v: nat)
    requires ValidConfig(p)
  {
    && i < |moves| && moves[i].0 == a && Run(p, Init(clients), moves[..i]).Some?
    && var s := Run(p, Init(clients), moves[..i]).value;
       && a < |s.points| && s.points[a].Draining? && s.points[a].left != [] && s.points[a].left[0] == v
       && v < |s.queues| && s.queues[v] == [] && Next(p, s, a, moves[i].1).Some?
  }

  ghost predicate Done(p: Config, clients: nat, moves: seq<Move>, a: nat, v: nat)
    requires ValidConfig(p)
  {
    exists i: nat :: Drained(p, clients, moves, i, a, v)
  }

  lemma DrainedLater(p: Config, clients: nat, before: seq<Move>, moves: seq<Move>, a: nat, v: nat)
    requires ValidConfig(p) && |before| <= |moves| && before == moves[..|before|] && Done(p, clients, before, a, v)
    ensures Done(p, clients, moves, a, v)
  {
    var i: nat :| Drained(p, clients, before, i, a, v);
    assert i < |before|;
    assert before[..i] == moves[..i] && before[i] == moves[i];
    assert Drained(p, clients, moves, i, a, v);
  }

  /** Queues in the table are still to be drained, or have been. */
  ghost predicate DrainedOrLeft(p: Config, clients: nat, moves: seq<Move>, a: nat, pool: L.Recency<Key, nat>, left: seq<nat>)
    requires ValidConfig(p)
  {
    forall j :: 0 <= j < |pool| ==> pool[j].value in left || Done(p, clients, moves, a, pool[j].value)
  }

  /** How a client comes to drain: it begins with all queues of the table, and leaves one only when it is empty. */
  ghost predicate DrainStep(s: State, from: Point, to: Point)
    requires to.Draining?
  {
    match from
    case TestClosed => !s.closed && forall j :: 0 <= j < |s.pool| ==> s.pool[j].value in to.left
    case Draining(left) =>
      && left != []
      && (to == from || (to.left == left[1..] && left[0] < |s.queues| && s.queues[left[0]] == []))
    case _ => false
  }

  lemma DrainSteps(p: Config, s: State, a: nat, c: Choice, t: State)
    requires ValidConfig(p) && a < |s.points| && CloseStep(p, s, a, c) == Some(t) && a < |t.points| && t.points[a].Draining?
    ensures t.pool == s.pool && DrainStep(s, s.points[a], t.points[a])
  {
    if s.points[a].TestClosed? {
      var left := t.points[a].left;
      forall j | 0 <= j < |s.pool| ensures s.pool[j].value in left {
        assert left[|s.pool| - 1 - j] == s.pool[j].value;
      }
    }
  }

  lemma ComesToDrain(p: Config, s: State, a: nat, c: Choice, t: State)
    requires ValidConfig(p) && Next(p, s, a, c) == Some(t) && a < |t.points| && t.points[a].Draining?
    ensures a < |s.points| && t.pool == s.pool && DrainStep(s, s.points[a], t.points[a])
  {
    if Creating(s.points[a]) {
      CreateDoesNotDrain(p, s, a, c, t);
      assert false;
    } else if !Getting(s.points[a]) && !Releasing(s.points[a]) && !s.points[a].Idle? {
      DrainSteps(p, s, a, c, t);
    }
  }

  lemma CreateDoesNotDrain(p: Config, s: State, a: nat, c: Choice, t: State)
    requires ValidConfig(p) && a < |s.points| && CreateStep(p, s, a, c) == Some(t)
    ensures !t.points[a].Draining?
  {
  }

  /** While one client drains, the others leave the table alone. */
  lemma OthersLeaveTable(p: Config, s: State, b: nat, c: Choice, t: State, a: nat)
    requires ValidConfig(p) && Tidy(p, s) && Next(p, s, b, c) == Some(t) && a != b
    requires a < |s.points| && NeedsLock(s.points[a])
    ensures t.pool == s.pool && t.points[a] == s.points[a] && t.closed == s.closed
  {
    assert !NeedsLock(s.points[b]);
    StepOnlyMoves(p, s, b, c, t);
  }

  lemma {:induction false} DrainsAll(p: Config, clients: nat, moves: seq<Move>, a: nat)
    requires ValidConfig(p) && Run(p, Init(clients), moves).Some?
    requires var s := Run(p, Init(clients), moves).value; a < |s.points| && s.points[a].Draining?
    ensures var s := Run(p, Init(clients), moves).value;
      DrainedOrLeft(p, clients, moves, a, s.pool, s.points[a].left)
    decreases |moves|
  {
    assert moves != [];
    var n := |moves| - 1;
    var before := moves[..n];
    var (b, c) := moves[n];
    assert moves == before + [(b, c)];
    RunPrefix(p, Init(clients), before, [(b, c)]);
    var s := Run(p, Init(clients), before).value;
    OneMove(p, s, b, c);
    var t := Next(p, s, b, c).value;
    MovesKeepClients(p, Init(clients), before);
    StepOnlyMoves(p, s, b, c, t);
    ReachableTidy(p, clients, before);
    if b != a {
      DrainsAll(p, clients, before, a);
      OthersLeaveTable(p, s, b, c, t, a);
    } else {
      ComesToDrain(p, s, a, c, t);
      if !s.points[a].TestClosed? {
        DrainsAll(p, clients, before, a);
        assert t.points[a] != s.points[a] ==> Drained(p, clients, moves, n, a, s.points[a].left[0]);
      }
    }
    forall j | 0 <= j < |t.pool| ensures t.pool[j].value in t.points[a].left || Done(p, clients, moves, a, t.pool[j].value) {
      var v := t.pool[j].value;
      if (b != a || !s.points[a].TestClosed?) && v !in s.points[a].left {
        DrainedLater(p, clients, before, moves, a, v);
      }
    }
  }

  lemma ReachableTidy(p: Config, clients: nat, moves: seq<Move>)
    requires ValidConfig(p) && Run(p, Init(clients), moves).Some?
    ensures Tidy(p, Run(p, Init(clients), moves).value)
  {
    RunKeepsInv(p, Init(clients), moves);
  }

  lemma DrainLaw(p: Config, clients: nat, moves: seq<Move>, i: nat, a: nat, v: nat)
    requires ValidConfig(p) && Run(p, Init(clients), moves).Some? && Drained(p, clients, moves, i, a, v)
    ensures HoldsTheLate(p, clients, moves, i, v)
  {
    var s := Run(p, Init(clients), moves[..i]).value;
    OneMove(p, s, a, moves[i].1);
    assert Next(p, s, a, moves[i].1).value.queues == s.queues;
    LateFrom(p, clients, moves, i, v);
  }

  /** Only the end of the drain closes the pool. */
  lemma ClosedBy(p: Config, s: State, a: nat, c: Choice)
    requires ValidConfig(p) && Next(p, s, a, c).Some? && !s.closed && Next(p, s, a, c).value.closed
    ensures s.points[a] == Draining([])
    ensures var t := Next(p, s, a, c).value; t.pool == s.pool && t.queues == s.queues && t.lock == None
  {
    if Creating(s.points[a]) {
      CreateDoesNotClose(p, s, a, c);
    }
  }

  lemma CreateDoesNotClose(p: Config, s: State, a: nat, c: Choice)
    requires ValidConfig(p) && a < |s.points| && CreateStep(p, s, a, c).Some?
    ensures CreateStep(p, s, a, c).value.closed == s.closed
  {
  }

  /**
    Main result: in every run, when close() sets the flag, every queue the table refers to has been seen
    empty by the closing client at a move of its own, and holds exactly what has been put into it since
    less what has been taken out.
   */
  lemma CloseDrains(p: Config, clients: nat, moves: seq<Move>, a: nat, c: Choice, key: Key) returns (i: nat)
    requires ValidConfig(p) && Run(p, Init(clients), moves).Some?
    requires var s := Run(p, Init(clients), moves).value;
      && Next(p, s, a, c).Some? && !s.closed && Next(p, s, a, c).value.closed
      && L.Has(Next(p, s, a, c).value.pool, key)
    ensures var t := Next(p, Run(p, Init(clients), moves).value, a, c).value;
      var v := L.Lookup(t.pool, key).value;
      && Drained(p, clients, moves, i, a, v) && HoldsTheLate(p, clients, moves, i, v)
      && t.queues == Run(p, Init(clients), moves).value.queues
  {
    var s := Run(p, Init(clients), moves).value;
    ClosedBy(p, s, a, c);
    DrainsAll(p, clients, moves, a);
    LookupIsEntry(s.pool, key);
    var j :| 0 <= j < |s.pool| && s.pool[j].value == L.Lookup(s.pool, key).value;
    i :| Drained(p, clients, moves, i, a, s.pool[j].value);
    DrainLaw(p, clients, moves, i, a, s.pool[j].value);
  }

  // ---- Alone -------------------------------------------------------------------------

  ghost predicate OnlyBy(moves: seq<Move>, a: nat) {
    forall i :: 0 <= i < |moves| ==> moves[i].0 == a
  }

  /** After a run of the closing client alone: closed, the queues in left empty, the others as they were. */
  ghost predicate ClosedAlone(s: State, t: State, left: seq<nat>) {
    && t.closed && t.pool == s.pool && |t.queues| == |s.queues|
    && forall v :: 0 <= v < |s.queues| ==> t.queues[v] == if v in left then [] else s.queues[v]
  }

  lemma OneDrain(p: Config, s: State, a: nat)
    requires ValidConfig(p) && a < |s.points| && s.points[a].Draining? && s.points[a].left != [] && s.points[a].left[0] < |s.queues|
    ensures var left := s.points[a].left;
      Next(p, s, a, Go) == Some(if s.queues[left[0]] != [] then Pop(s, left[0]) else At(s, a, Draining(left[1..])))
  {
  }

  lemma {:induction false} DrainAlone(p: Config, s: State, a: nat, left: seq<nat>) returns (moves: seq<Move>)
    requires ValidConfig(p) && a < |s.points| && s.points[a] == Draining(left)
    requires forall j :: 0 <= j < |left| ==> left[j] < |s.queues|
    ensures OnlyBy(moves, a) && Run(p, s, moves).Some? && ClosedAlone(s, Run(p, s, moves).value, left)
    decreases |left|, if left == [] then 0 else |s.queues[left[0]]|
  {
    if left == [] {
      moves := [(a, Go)];
      OneMove(p, s, a, Go);
    } else {
      OneDrain(p, s, a);
      var t := Next(p, s, a, Go).value;
      var rest := DrainAlone(p, t, a, t.points[a].left);
      moves := [(a, Go)] + rest;
      assert moves[1..] == rest;
    }
  }

  lemma BeginsToDrain(p: Config, s: State, a: nat) returns (t: State)
    requires ValidConfig(p) && a < |s.points| && s.points[a] == WantClose && !s.closed && s.lock == None
    ensures Run(p, s, [(a, Go), (a, Go)]) == Some(t)
    ensures t.pool == s.pool && t.queues == s.queues && a < |t.points| && t.points[a] == Draining(Queues(s.pool))
  {
    var s1 := Next(p, s, a, Go).value;
    t := Next(p, s1, a, Go).value;
    OneMove(p, s1, a, Go);
    assert [(a, Go), (a, Go)][1..] == [(a, Go)];
  }

  /** Main result: undisturbed, close() ends, and leaves every queue of the table empty and all others alone. */
  lemma ClosesEverything(p: Config, clients: nat, s: State, a: nat) returns (moves: seq<Move>)
    requires ValidConfig(p) && Reachable(p, clients, s) && a < |s.points|
    requires s.points[a] == WantClose && !s.closed && s.lock == None
    ensures OnlyBy(moves, a) && Run(p, s, moves).Some?
    ensures ClosedAlone(s, Run(p, s, moves).value, Queues(s.pool))
    ensures forall key :: L.Has(s.pool, key) ==> L.Lookup(s.pool, key).value in Queues(s.pool)
  {
    var before :| Run(p, Init(clients), before) == Some(s);
    ReachableTidy(p, clients, before);
    var s2 := BeginsToDrain(p, s, a);
    var rest := DrainAlone(p, s2, a, Queues(s.pool));
    moves := [(a, Go), (a, Go)] + rest;
    RunAppend(p, s, [(a, Go), (a, Go)], rest);
    forall key | L.Has(s.pool, key) ensures L.Lookup(s.pool, key).value in Queues(s.pool) {
      LookupIsEntry(s.pool, key);
      var j :| 0 <= j < |s.pool| && s.pool[j].value == L.Lookup(s.pool, key).value;
      assert Queues(s.pool)[|s.pool| - 1 - j] == s.pool[j].value;
    }
  }

  // ---- Afterwards --------------------------------------------------------------------

  /** Not past the test of _closed in get_connection. */
  predicate Outside(point: Point) {
    match point
    case Idle => true
    case WantCreate(_) => true
    case Looking(_) => true
    case WantClose => true
    case TestClosed => true
    case _ => false
  }

  lemma StepStaysOutside(p: Config, s: State, b: nat, c: Choice, a: nat)
    requires ValidConfig(p) && Next(p, s, b, c).Some? && s.closed && a < |s.points| && Outside(s.points[a])
    ensures var t := Next(p, s, b, c).value; t.closed && a < |t.points| && Outside(t.points[a])
  {
    var t := Next(p, s, b, c).value;
    StepOnlyMoves(p, s, b, c, t);
    if Creating(s.points[b]) {
      CreateDoesNotClose(p, s, b, c);
    }
  }

  /** Main result: on a closed pool, who has not got past the test of the flag never gets a connection. */
  lemma {:induction false} ClosedHandsOutNothing(p: Config, s: State, moves: seq<Move>, a: nat)
    requires ValidConfig(p) && s.closed && a < |s.points| && Outside(s.points[a]) && Run(p, s, moves).Some?
    ensures var t := Run(p, s, moves).value; t.closed && a < |t.points| && Outside(t.points[a])
    decreases |moves|
  {
    if moves != [] {
      StepStaysOutside(p, s, moves[0].0, moves[0].1, a);
      ClosedHandsOutNothing(p, Next(p, s, moves[0].0, moves[0].1).value, moves[1..], a);
    }
  }

  // ---- What is handed out and given back ---------------------------------------------

  /** A connection is handed out only when it has just been found open; a stale one is let go and replaced. */
  lemma HandsOutOpen(p: Config, s: State, a: nat, c: Choice)
    requires ValidConfig(p) && Next(p, s, a, c).Some? && !s.points[a].Holding?
    ensures Next(p, s, a, c).value.points[a].Holding? ==>
      var now := Next(p, s, a, c).value.points[a]; s.points[a] == Testing(now.key, now.q, now.conn) && c != Stale
    ensures s.points[a].Testing? && c == Stale ==>
      Next(p, s, a, c).value.points[a] == Replacing(s.points[a].key, s.points[a].q)
  {
    if Creating(s.points[a]) {
      CreateHoldsNothing(p, s, a, c);
    }
  }

  lemma CreateHoldsNothing(p: Config, s: State, a: nat, c: Choice)
    requires ValidConfig(p) && a < |s.points| && CreateStep(p, s, a, c).Some?
    ensures !CreateStep(p, s, a, c).value.points[a].Holding?
  {
  }

  /** get_connection takes the first connection of its queue, and on an empty one waits until it gives up. */
  lemma TakesTheFirst(p: Config, s: State, a: nat, c: Choice)
    requires ValidConfig(p) && Tidy(p, s) && a < |s.points| && s.points[a].Choosing?
    ensures var key, q := s.points[a].key, s.points[a].q;
      && q < |s.queues|
      && (s.queues[q] != [] ==>
            && Next(p, s, a, c).Some? && a < |Next(p, s, a, c).value.points|
            && Next(p, s, a, c).value.points[a] == Testing(key, q, s.queues[q][0])
            && Next(p, s, a, c).value.queues == s.queues[q := s.queues[q][1..]])
      && (s.queues[q] == [] ==> (Next(p, s, a, c).Some? <==> c == GiveUp))
  {
    assert PointsInto(s.points[a], |s.queues|);
  }

  /** release_connection puts the connection at the end of the queue its key has, and drops it if there is none. */
  lemma ReleasesExactly(p: Config, s: State, a: nat, c: Choice, d: Choice)
    requires ValidConfig(p) && Tidy(p, s) && a < |s.points| && s.points[a].Finding?
    ensures var t := Next(p, s, a, c).value; var key, conn := s.points[a].key, s.points[a].conn;
      && Next(p, s, a, c).Some? && t.queues == s.queues && t.lock == None
      && (s.closed || !L.Has(s.pool, key) ==> t.points[a].Idle?)
      && (!s.closed && L.Has(s.pool, key) ==>
            var v := L.Lookup(s.pool, key).value;
            && v < |s.queues| && Next(p, t, a, d).Some?
            && Next(p, t, a, d).value.queues == s.queues[v := s.queues[v] + [conn]]
            && Next(p, t, a, d).value.points[a].Idle?)
  {
    if L.Has(s.pool, s.points[a].key) {
      LookupIsEntry(s.pool, s.points[a].key);
    }
  }
}
