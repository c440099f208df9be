/**
  connection_pool.py: the loops of the two pools as one thread runs them undisturbed. Getting a
  connection replaces stale ones until an open one turns up; closing empties a container.
 */
module PoolLoops {
  import opened Wrappers
  import C = CyclicIterator

  type Conn = nat

  /** What get_connection returns or raises. */
  datatype Got = Connection(conn: Conn) | CreateFailed | NoConnection

  /** connection_factory: connections are numbered as they are made; after a while it may fail. */
  class Factory {
    var made: Conn
    var left: nat

    constructor (made: Conn, left: nat)
      ensures this.made == made && this.left == left
    {
      this.made, this.left := made, left;
    }

    method Make() returns (conn: Option<Conn>)
      modifies this
      ensures if old(left) == 0 then conn == None && made == old(made) && left == 0
        else conn == Some(old(made)) && made == old(made) + 1 && left == old(left) - 1
    {
      if left == 0 {
        return None;
      }
      conn := Some(made);
      made, left := made + 1, left - 1;
    }
  }

  predicate Below(s: seq<Conn>, n: Conn) {
    forall i :: 0 <= i < |s| ==> s[i] < n
  }

  /** How many stale connections stand before the first open one. */
  ghost function StalePrefix(s: seq<Conn>, stale: set<Conn>): (n: nat)
    ensures n <= |s|
    ensures forall i :: 0 <= i < n ==> s[i] in stale
    ensures n < |s| ==> s[n] !in stale
  {
    if s == [] || s[0] !in stale then 0 else 1 + StalePrefix(s[1..], stale)
  }

  /** The n connections made from first on. */
  ghost function Fresh(first: Conn, n: nat): (s: seq<Conn>)
    ensures |s| == n && forall i :: 0 <= i < n ==> s[i] == first + i
  {
    seq(n, i => first + i)
  }

  /** A list whose n elements from position k on have been replaced by new ones at its end. */
  ghost function Replaced(s: seq<Conn>, k: nat, n: nat, first: Conn): (r: seq<Conn>)
    requires k + n <= |s|
    ensures |r| == |s|
  {
    s[..k] + s[k + n..] + Fresh(first, n)
  }

  lemma ReplacedIsSound(s: seq<Conn>, k: nat, n: nat, first: Conn)
    requires k + n <= |s| && C.Distinct(s) && Below(s, first)
    ensures C.Distinct(Replaced(s, k, n, first)) && Below(Replaced(s, k, n, first), first + n)
  {
  }

  /** Taking out position k once more, and what is then put at the end. */
  lemma ReplacedNext(s: seq<Conn>, k: nat, n: nat, first: Conn)
    requires k + n < |s|
    ensures Replaced(s, k, n, first)[k] == s[k + n]
    ensures C.Without(Replaced(s, k, n, first), k) == s[..k] + s[k + n + 1..] + Fresh(first, n)
    ensures C.Without(Replaced(s, k, n, first), k) + [first + n] == Replaced(s, k, n + 1, first)
  {
    assert s[k + n..] == [s[k + n]] + s[k + n + 1..];
    assert Fresh(first, n + 1) == Fresh(first, n) + [first + n];
  }

  /** The element at the cursor is stale as long as fewer than all stale ones have been replaced. */
  lemma AtCursor(s: seq<Conn>, k: nat, n: nat, first: Conn, stale: set<Conn>)
    requires k < |s| && n <= StalePrefix(s[k..], stale)
    requires forall x :: x in stale ==> x < first
    ensures Replaced(s, k, n, first)[k] in stale <==> n < StalePrefix(s[k..], stale)
  {
    if n < |s| - k {
      ReplacedNext(s, k, n, first);
      assert s[k..][n] == s[k + n];
    } else {
      assert Replaced(s, k, n, first)[k] == first;
    }
  }

  /** A container and a factory as values. */
  datatype Pair = Pair(c: C.Cursor<Conn>, made: Conn, left: nat)

  /** One round of the loop: what get_connection returns or raises, or None to go round again. */
  ghost function Round(p: Pair, stale: set<Conn>): (Pair, Option<Got>) {
    var c := C.Rewound(p.c);
    if !C.HasNext(c) then (p.(c := c), Some(NoConnection))
    else match C.Next(c).1
      case Ok(conn) =>
        var d := C.Next(c).0;
        if conn !in stale then (p.(c := d), Some(Connection(conn)))
        else
          var e := C.RemoveElement(d, conn).0;
          if p.left == 0 then (p.(c := e), Some(CreateFailed))
          else (Pair(C.Append(e, p.made), p.made + 1, p.left - 1), None)
      case _ => (p.(c := C.Next(c).0), Some(NoConnection))
  }

  method RunRound(container: C.CyclicIterator<Conn>, factory: Factory, stale: set<Conn>) returns (r: Option<Got>)
    requires C.Valid(container.Value())
    modifies container, factory
    ensures (Pair(container.Value(), factory.made, factory.left), r)
      == Round(old(Pair(container.Value(), factory.made, factory.left)), stale)
  {
    var more := container.CyclicHasNext();
    if !more {
      return Some(NoConnection);
    }
    var next := container.GetNext();
    if next.value !in stale {
      return Some(Connection(next.value));
    }
    var _ := container.RemoveThis(next.value);
    var made := factory.Make();
    if made.None? {
      return Some(CreateFailed);
    }
    container.Add(made.value);
    return None;
  }

  /** The container after n rounds that each replaced a connection; at is where the cursor stands. */
  ghost predicate AfterRounds(p: Pair, it: seq<Conn>, k: nat, n: nat, first: Conn, left: nat) {
    && k < |it| && k + n <= |it| && n <= left
    && p.c.it == Replaced(it, k, n, first) && (p.c.at == k || (n == 0 && k == 0 && p.c.at == |it|))
    && p.made == first + n && p.left == left - n
  }

  /** What the loop leaves and returns. */
  ghost predicate Chosen(p: Pair, r: Got, it: seq<Conn>, k: nat, n: nat, first: Conn, left: nat)
    requires k < |it| && k + n <= |it|
  {
    if n <= left then
      r == Connection(Replaced(it, k, n, first)[k]) && p == Pair(C.Cursor(Replaced(it, k, n, first), k + 1), first + n, left - n)
    else
      r == CreateFailed && p == Pair(C.Cursor(it[..k] + it[k + left + 1..] + Fresh(first, left), k), first + left, 0)
  }

  lemma RoundAt(p: Pair, stale: set<Conn>, now: seq<Conn>, k: nat)
    requires C.Distinct(now) && k < |now| && C.Rewound(p.c) == C.Cursor(now, k)
    ensures Round(p, stale) ==
      if now[k] !in stale then (p.(c := C.Cursor(now, k + 1)), Some(Connection(now[k])))
      else if p.left == 0 then (p.(c := C.Cursor(C.Without(now, k), k)), Some(CreateFailed))
      else (Pair(C.Cursor(C.Without(now, k) + [p.made], k), p.made + 1, p.left - 1), None)
  {
    C.IndexIs(now, k);
  }

  lemma AtStart(p: Pair, it: seq<Conn>, k: nat, n: nat, first: Conn, left: nat)
    requires AfterRounds(p, it, k, n, first, left)
    ensures C.Rewound(p.c) == C.Cursor(Replaced(it, k, n, first), k)
  {
  }

  lemma RoundKeeps(p: Pair, stale: set<Conn>, it: seq<Conn>, k: nat, n: nat, first: Conn, left: nat)
    requires C.Distinct(it) && Below(it, first) && AfterRounds(p, it, k, n, first, left)
    requires n <= StalePrefix(it[k..], stale)
    requires forall x :: x in stale ==> x < first
    ensures var (q, r) := Round(p, stale); var all := StalePrefix(it[k..], stale);
      if r.Some? then Chosen(q, r.value, it, k, all, first, left)
      else n < all && AfterRounds(q, it, k, n + 1, first, left)
  {
    ReplacedIsSound(it, k, n, first);
    AtStart(p, it, k, n, first, left);
    RoundAt(p, stale, Replaced(it, k, n, first), k);
    AtCursor(it, k, n, first, stale);
    var (q, r) := Round(p, stale);
    if n < StalePrefix(it[k..], stale) {
      ReplacedNext(it, k, n, first);
      StaleRound(p, q, r, it, k, n, StalePrefix(it[k..], stale), first, left);
    }
  }

  lemma StaleRound(p: Pair, q: Pair, r: Option<Got>, it: seq<Conn>, k: nat, n: nat, all: nat, first: Conn, left: nat)
    requires AfterRounds(p, it, k, n, first, left) && n < all && k + all <= |it|
    requires C.Without(Replaced(it, k, n, first), k) == it[..k] + it[k + n + 1..] + Fresh(first, n)
    requires C.Without(Replaced(it, k, n, first), k) + [first + n] == Replaced(it, k, n + 1, first)
    requires (q, r) ==
      if p.left == 0 then (p.(c := C.Cursor(C.Without(Replaced(it, k, n, first), k), k)), Some(CreateFailed))
      else (Pair(C.Cursor(C.Without(Replaced(it, k, n, first), k) + [p.made], k), p.made + 1, p.left - 1), None)
    ensures if r.Some? then Chosen(q, r.value, it, k, all, first, left) else AfterRounds(q, it, k, n + 1, first, left)
  {
  }

  /** What the loop knows after n replacements, with what it returns once it has ended. */
  ghost predicate Rounds(p: Pair, end: Option<Got>, it: seq<Conn>, k: nat, n: nat, first: Conn, left: nat, stale: set<Conn>) {
    && k < |it| && n <= StalePrefix(it[k..], stale)
    && match end
       case None => AfterRounds(p, it, k, n, first, left) && C.Valid(p.c)
       case Some(r) => Chosen(p, r, it, k, StalePrefix(it[k..], stale), first, left)
  }

  lemma RoundsBegin(p: Pair, stale: set<Conn>)
    requires C.Valid(p.c) && p.c.it != []
    ensures Rounds(p, None, p.c.it, C.Rewound(p.c).at, 0, p.made, p.left, stale)
  {
  }

  lemma RoundsGoOn(p: Pair, stale: set<Conn>, it: seq<Conn>, k: nat, n: nat, first: Conn, left: nat)
    requires C.Distinct(it) && Below(it, first) && (forall x :: x in stale ==> x < first)
    requires Rounds(p, None, it, k, n, first, left, stale)
    ensures var (q, r) := Round(p, stale);
      Rounds(q, r, it, k, if r.None? then n + 1 else n, first, left, stale)
  {
    var (q, r) := Round(p, stale);
    RoundKeeps(p, stale, it, k, n, first, left);
    if r.None? {
      ReplacedIsSound(it, k, n + 1, first);
    }
  }

  /**
    get_connection of the shared pool. Stale are the connections closed or closing, and nothing else
    changes meanwhile. The stale connections from the cursor on are replaced one for one at the end of
    the list, and the open one that then stands at the cursor, a new one if need be, is handed out.
    When the factory fails, the connection it should have replaced is gone.
   */
  method GetShared(container: C.CyclicIterator<Conn>, factory: Factory, stale: set<Conn>) returns (r: Got)
    requires C.Valid(container.Value()) && Below(container.it, factory.made)
    requires forall x :: x in stale ==> x < factory.made
    modifies container, factory
    ensures old(container.it) == [] ==>
      r == NoConnection && container.Value() == C.Cursor([], 0) && factory.made == old(factory.made)
    ensures old(container.it) != [] ==>
      var it, k := old(container.it), C.Rewound(old(container.Value())).at;
      Chosen(Pair(container.Value(), factory.made, factory.left), r, it, k, StalePrefix(it[k..], stale),
        old(factory.made), old(factory.left))
  {
    ghost var it, k, first, left, n := container.it, C.Rewound(container.Value()).at, factory.made, factory.left, 0;
    var end := None;
    if container.it == [] {
      end := RunRound(container, factory, stale);
      return end.value;
    }
    RoundsBegin(Pair(container.Value(), first, left), stale);
    while end.None?
      invariant Rounds(Pair(container.Value(), factory.made, factory.left), end, it, k, n, first, left, stale)
      decreases StalePrefix(it[k..], stale) - n, end.None?
    {
      RoundsGoOn(Pair(container.Value(), factory.made, factory.left), stale, it, k, n, first, left);
      end := RunRound(container, factory, stale);
      n := if end.None? then n + 1 else n;
    }
    return end.value;
  }

  /** The connection handed out is never a stale one, and it is in the list. */
  lemma ChosenIsOpen(p: Pair, r: Got, it: seq<Conn>, k: nat, first: Conn, left: nat, stale: set<Conn>)
    requires k < |it| && Chosen(p, r, it, k, StalePrefix(it[k..], stale), first, left)
    requires forall x :: x in stale ==> x < first
    ensures r.Connection? ==> r.conn !in stale && r.conn in p.c.it && |p.c.it| == |it|
    ensures r.CreateFailed? ==> |p.c.it| == |it| - 1
  {
    AtCursor(it, k, StalePrefix(it[k..], stale), first, stale);
  }

  /** _close_connections of the shared pool: every connection is closed once, in order. */
  method CloseShared(container: C.CyclicIterator<Conn>) returns (closed: seq<Conn>)
    modifies container
    ensures closed == old(container.it) && container.it == []
  {
    container.Rewind();
    closed := [];
    while container.cursor < |container.it|
      invariant container.cursor == 0
      invariant closed + container.it == old(container.it)
      decreases |container.it|
    {
      var next := container.GetNext();
      closed := closed + [next.value];
      var _ := container.RemoveLast();
    }
  }

  /** A queue.Queue. */
  class Queue {
    var items: seq<Conn>

    constructor (items: seq<Conn>)
      ensures this.items == items
    {
      this.items := items;
    }

    method Put(conn: Conn)
      modifies this
      ensures items == old(items) + [conn]
    {
      items := items + [conn];
    }

    /** None stands for Empty. */
    method Take() returns (conn: Option<Conn>)
      modifies this
      ensures if old(items) == [] then conn == None && items == []
        else conn == Some(old(items)[0]) && items == old(items)[1..]
    {
      if items == [] {
        return None;
      }
      conn := Some(items[0]);
      items := items[1..];
    }
  }

  /**
    get_connection of the dedicated pool: the stale connections at the head of the queue are replaced
    one for one at its end, and the first open one, a new one if need be, is taken out. When the factory
    fails, the connection it should have replaced is gone.
   */
  method GetDedicated(queue: Queue, factory: Factory, stale: set<Conn>) returns (r: Got)
    requires Below(queue.items, factory.made)
    requires forall x :: x in stale ==> x < factory.made
    modifies queue, factory
    ensures var items, made, m, n := old(queue.items), old(factory.made), old(factory.left), StalePrefix(old(queue.items), stale);
      if items == [] then r == NoConnection && queue.items == [] && factory.made == made
      else if n <= m then
        var replaced := items[n..] + Fresh(made, n);
        && r == Connection(replaced[0]) && queue.items == replaced[1..] && r.conn !in stale
        && factory.made == made + n
      else r == CreateFailed && queue.items == items[m + 1..] + Fresh(made, m) && factory.made == made + m
  {
    ghost var first, n := factory.made, 0;
    ghost var before := queue.items;
    ghost var all := StalePrefix(before, stale);
    while true
      invariant n <= all && n <= old(factory.left)
      invariant factory.made == first + n && factory.left == old(factory.left) - n
      invariant queue.items == before[n..] + Fresh(first, n)
      decreases all - n
    {
      ghost var round := queue.items;
      var next := queue.Take();
      if next.None? {
        return NoConnection;
      }
      assert n < |before| ==> round[0] == before[n];
      assert n == |before| ==> round == Fresh(first, n);
      if next.value !in stale {
        return Connection(next.value);
      }
      assert round[1..] == before[n + 1..] + Fresh(first, n);
      var made := factory.Make();
      if made.None? {
        return CreateFailed;
      }
      queue.Put(made.value);
      assert Fresh(first, n + 1) == Fresh(first, n) + [first + n];
      n := n + 1;
    }
  }

  /** _close_connections of the dedicated pool. */
  method CloseDedicated(queue: Queue) returns (closed: seq<Conn>)
    modifies queue
    ensures closed == old(queue.items) && queue.items == []
  {
    closed := [];
    var conn := queue.Take();
    while conn.Some?
      invariant closed + (if conn.Some? then [conn.value] else []) + queue.items == old(queue.items)
      invariant conn.None? ==> queue.items == []
      decreases |queue.items| + if conn.Some? then 1 else 0
    {
      closed := closed + [conn.value];
      conn := queue.Take();
    }
  }
}
