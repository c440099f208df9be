/**
  helper/iterator.py: a list with a cursor that goes round it, while elements come and go. The shared
  connection pool hands its connections out in the order the cursor meets them.
 */
module CyclicIterator {
  import opened Wrappers

  // ---- The value of an iterator -----------------------------------------------------

  /** The cursor may leave the list on either side: remove() at the front makes it negative. */
  datatype Cursor<T> = Cursor(it: seq<T>, at: int)

  /** IndexError from the list, ValueError from list.index. */
  datatype Result<T> = Ok(value: T) | IndexError | ValueError

  /** Where a list index of Python points: from the back when it is negative. */
  function PyIndex(size: nat, i: int): Option<nat> {
    if 0 <= i < size then Some(i) else if i < 0 && 0 <= size + i then Some(size + i) else None
  }

  function Without<T>(s: seq<T>, i: nat): seq<T>
    requires i < |s|
  {
    s[..i] + s[i + 1..]
  }

  /** list.index: the first position of e, or the length. */
  function IndexOf<T(==)>(s: seq<T>, e: T): (i: nat)
    ensures i <= |s|
    ensures i < |s| ==> s[i] == e
    ensures forall j :: 0 <= j < i ==> s[j] != e
  {
    if s == [] || s[0] == e then 0 else 1 + IndexOf(s[1..], e)
  }

  predicate HasNext<T>(c: Cursor<T>) {
    c.at < |c.it|
  }

  function Next<T>(c: Cursor<T>): (Cursor<T>, Result<T>) {
    (c.(at := c.at + 1),
     match PyIndex(|c.it|, c.at) case Some(i) => Ok(c.it[i]) case None => IndexError)
  }

  function Remove<T>(c: Cursor<T>): (Cursor<T>, Result<T>) {
    match PyIndex(|c.it|, c.at - 1)
    case Some(i) => (Cursor(Without(c.it, i), c.at - 1), Ok(c.it[i]))
    case None => (c.(at := c.at - 1), IndexError)
  }

  function Append<T>(c: Cursor<T>, e: T): Cursor<T> {
    c.(it := c.it + [e])
  }

  function RemoveElement<T(==)>(c: Cursor<T>, e: T): (Cursor<T>, Result<()>) {
    var i := IndexOf(c.it, e);
    if i == |c.it| then (c, ValueError)
    else (Cursor(Without(c.it, i), if c.at > i then c.at - 1 else c.at), Ok(()))
  }

  function Rewound<T>(c: Cursor<T>): Cursor<T> {
    if HasNext(c) then c else c.(at := 0)
  }

  class CyclicIterator<T(==)> {
    var it: seq<T>
    var cursor: int

    constructor (it: seq<T>)
      ensures Value() == Cursor(it, 0)
    {
      this.it, cursor := it, 0;
    }

    function Value(): Cursor<T>
      reads this
    {
      Cursor(it, cursor)
    }

    method GetNext() returns (r: Result<T>)
      modifies this`cursor
      ensures (Value(), r) == Next(old(Value()))
    {
      var i := PyIndex(|it|, cursor);
      r := if i.Some? then Ok(it[i.value]) else IndexError;
      cursor := cursor + 1;
    }

    method RemoveLast() returns (r: Result<T>)
      modifies this
      ensures (Value(), r) == Remove(old(Value()))
    {
      var i := PyIndex(|it|, cursor - 1);
      if i.Some? {
        r := Ok(it[i.value]);
        it := it[..i.value] + it[i.value + 1..];
      } else {
        r := IndexError;
      }
      cursor := cursor - 1;
    }

    method Add(e: T)
      modifies this`it
      ensures Value() == Append(old(Value()), e)
    {
      it := it + [e];
    }

    method Rewind()
      modifies this`cursor
      ensures Value() == old(Value()).(at := 0)
    {
      cursor := 0;
    }

    method RemoveThis(e: T) returns (r: Result<()>)
      modifies this
      ensures (Value(), r) == RemoveElement(old(Value()), e)
    {
      var index := IndexOf(it, e);
      if index == |it| {
        return ValueError;
      }
      it := it[..index] + it[index + 1..];
      if cursor > index {
        cursor := cursor - 1;
      }
      return Ok(());
    }

    method CyclicHasNext() returns (more: bool)
      modifies this`cursor
      ensures Value() == Rewound(old(Value()))
      ensures more == HasNext(Value())
    {
      if cursor >= |it| {
        Rewind();
      }
      more := cursor < |it|;
    }
  }

  // ---- Runs of the operations the pool uses ------------------------------------------

  /** Visit is cyclic_has_next() followed by next() when there is one. */
  datatype Op<T> = Visit | Add(element: T) | Take(element: T)

  function Apply<T(==)>(c: Cursor<T>, op: Op<T>): Cursor<T> {
    match op
    case Visit => if HasNext(Rewound(c)) then Next(Rewound(c)).0 else Rewound(c)
    case Add(e) => Append(c, e)
    case Take(e) => RemoveElement(c, e).0
  }

  /** What the operation hands out. */
  function Visited<T>(c: Cursor<T>, op: Op<T>): seq<T> {
    if op.Visit? && HasNext(Rewound(c)) then
      match Next(Rewound(c)).1 case Ok(e) => [e] case _ => []
    else []
  }

  /** Everything handed out by a run, in order. */
  function Visits<T(==)>(c: Cursor<T>, ops: seq<Op<T>>): seq<T>
    decreases |ops|
  {
    if ops == [] then [] else Visited(c, ops[0]) + Visits(Apply(c, ops[0]), ops[1..])
  }

  predicate Distinct<T(==)>(s: seq<T>) {
    forall i, j :: 0 <= i < j < |s| ==> s[i] != s[j]
  }

  predicate Valid<T(==)>(c: Cursor<T>) {
    0 <= c.at <= |c.it| && Distinct(c.it)
  }

  /** Elements come in new, as the connections of a pool do. */
  predicate Admissible<T(==)>(c: Cursor<T>, op: Op<T>) {
    op.Add? ==> op.element !in c.it
  }

  predicate AllAdmissible<T(==)>(c: Cursor<T>, ops: seq<Op<T>>)
    decreases |ops|
  {
    ops == [] || (Admissible(c, ops[0]) && AllAdmissible(Apply(c, ops[0]), ops[1..]))
  }

  // ---- How long an element waits -----------------------------------------------------

  /** The number of visits to other elements before the element at position i is visited. */
  function Distance<T>(c: Cursor<T>, i: nat): (d: int)
    requires 0 <= c.at <= |c.it| && i < |c.it|
    ensures 0 <= d < |c.it|
  {
    if i >= c.at then i - c.at else i - c.at + |c.it|
  }

  function Wait<T(==)>(c: Cursor<T>, x: T): (d: int)
    requires 0 <= c.at <= |c.it| && x in c.it
    ensures 0 <= d < |c.it|
  {
    Distance(c, IndexOf(c.it, x))
  }

  lemma IndexIs<T>(s: seq<T>, i: nat)
    requires Distinct(s) && i < |s|
    ensures IndexOf(s, s[i]) == i
  {
  }

  /** What survives an operation. */
  predicate Survives<T(==)>(op: Op<T>, x: T) {
    op.Take? ==> op.element != x
  }

  lemma ApplyKeeps<T>(c: Cursor<T>, op: Op<T>)
    requires Valid(c) && Admissible(c, op)
    ensures Valid(Apply(c, op))
    ensures forall x :: x in c.it && Survives(op, x) ==> x in Apply(c, op).it
  {
    match op
    case Visit =>
    case Add(e) =>
    case Take(e) =>
      var k := IndexOf(c.it, e);
      if k < |c.it| {
        forall x | x in c.it && x != e ensures x in Apply(c, op).it {
          var i := IndexOf(c.it, x);
          assert Without(c.it, k)[if i < k then i else i - 1] == x;
        }
      }
  }

  /** A visit hands out the element that has waited longest, and only brings the others nearer. */
  lemma VisitMoves<T>(c: Cursor<T>, x: T)
    requires Valid(c) && x in c.it
    ensures Valid(Apply(c, Visit)) && Apply(c, Visit).it == c.it
    ensures |Visited(c, Visit)| == 1
    ensures Visited(c, Visit)[0] == x <==> Wait(c, x) == 0
    ensures Wait(Apply(c, Visit), x) == if Wait(c, x) == 0 then |c.it| - 1 else Wait(c, x) - 1
  {
    var d := Rewound(c);
    IndexIs(c.it, d.at);
    IndexIs(c.it, IndexOf(c.it, x));
  }

  lemma AddMoves<T>(c: Cursor<T>, e: T, x: T)
    requires Valid(c) && x in c.it && e !in c.it
    ensures Valid(Append(c, e)) && x in Append(c, e).it
    ensures Wait(Append(c, e), x) == Wait(c, x) + if IndexOf(c.it, x) < c.at then 1 else 0
  {
    var i := IndexOf(c.it, x);
    assert (c.it + [e])[i] == x;
    IndexIs(c.it + [e], i);
  }

  lemma TakeMoves<T>(c: Cursor<T>, e: T, x: T)
    requires Valid(c) && x in c.it && e != x
    ensures var d := RemoveElement(c, e).0;
      && Valid(d) && x in d.it
      && Wait(d, x) == Wait(c, x) - if e in c.it && Wait(c, e) < Wait(c, x) then 1 else 0
  {
    ApplyKeeps(c, Take(e));
    var k, i := IndexOf(c.it, e), IndexOf(c.it, x);
    if k < |c.it| {
      IndexIs(Without(c.it, k), if i < k then i else i - 1);
    }
  }

  // ---- Two elements take turns -------------------------------------------------------

  /** The one of x and y that is visited first. */
  function First<T(==)>(c: Cursor<T>, x: T, y: T): T
    requires 0 <= c.at <= |c.it| && x in c.it && y in c.it
  {
    if Wait(c, x) < Wait(c, y) then x else y
  }

  /** The visits of x and y among all visits. */
  function Only<T(==)>(visits: seq<T>, x: T, y: T): seq<T> {
    if visits == [] then []
    else (if visits[0] == x || visits[0] == y then [visits[0]] else []) + Only(visits[1..], x, y)
  }

  /** a, b, a, b, ... */
  predicate TakesTurns<T(==)>(s: seq<T>, a: T, b: T)
    decreases |s|
  {
    s == [] || (s[0] == a && TakesTurns(s[1..], b, a))
  }

  function Other<T(==)>(c: T, x: T, y: T): T { if c == x then y else x }

  lemma WaitsDiffer<T>(c: Cursor<T>, x: T, y: T)
    requires Valid(c) && x in c.it && y in c.it && x != y
    ensures Wait(c, x) != Wait(c, y)
  {
  }

  /** Only a visit of the one in front changes which of two elements is in front. */
  lemma TurnStep<T>(c: Cursor<T>, op: Op<T>, x: T, y: T)
    requires Valid(c) && Admissible(c, op) && x in c.it && y in c.it && x != y
    requires Survives(op, x) && Survives(op, y)
    ensures Valid(Apply(c, op)) && x in Apply(c, op).it && y in Apply(c, op).it
    ensures var d, a := Apply(c, op), First(c, x, y);
      if op.Visit? && Visited(c, op) == [a] then First(d, x, y) == Other(a, x, y)
      else First(d, x, y) == a && (Visited(c, op) == [] || (|Visited(c, op)| == 1 && Visited(c, op)[0] !in {x, y}))
  {
    WaitsDiffer(c, x, y);
    match op
    case Visit => VisitMoves(c, x); VisitMoves(c, y);
    case Add(e) => AddMoves(c, e, x); AddMoves(c, e, y);
    case Take(e) => TakeMoves(c, e, x); TakeMoves(c, e, y);
  }

  lemma {:induction false} OnlyAppends<T>(a: seq<T>, b: seq<T>, x: T, y: T)
    requires |a| <= 1
    ensures Only(a + b, x, y) == (if a != [] && (a[0] == x || a[0] == y) then a else []) + Only(b, x, y)
  {
    if a == [] {
      assert a + b == b;
    } else {
      assert (a + b)[1..] == b;
      assert a == [a[0]];
    }
  }

  /**
    Main result: as long as both stay in the list, any two elements are visited strictly in turn,
    whatever else is added and taken out in between. So between two visits of one element every other
    element that was there throughout has been visited exactly once.
   */
  lemma {:induction false} TwoTakeTurns<T>(c: Cursor<T>, ops: seq<Op<T>>, x: T, y: T)
    requires Valid(c) && AllAdmissible(c, ops) && x in c.it && y in c.it && x != y
    requires forall i :: 0 <= i < |ops| ==> Survives(ops[i], x) && Survives(ops[i], y)
    ensures TakesTurns(Only(Visits(c, ops), x, y), First(c, x, y), Other(First(c, x, y), x, y))
    decreases |ops|
  {
    if ops != [] {
      var d := Apply(c, ops[0]);
      TurnStep(c, ops[0], x, y);
      TwoTakeTurns(d, ops[1..], x, y);
      OnlyAppends(Visited(c, ops[0]), Visits(d, ops[1..]), x, y);
      var a, later := First(c, x, y), Only(Visits(d, ops[1..]), x, y);
      if Visited(c, ops[0]) == [a] {
        TurnsBefore(later, a, Other(a, x, y));
      } else {
        assert [] + later == later;
      }
    }
  }

  lemma TurnsBefore<T>(s: seq<T>, a: T, b: T)
    requires TakesTurns(s, b, a)
    ensures TakesTurns([a] + s, a, b)
  {
    assert ([a] + s)[1..] == s;
  }

  // ---- No element waits for ever -----------------------------------------------------

  function CountVisits<T>(ops: seq<Op<T>>): nat {
    if ops == [] then 0 else (if ops[0].Visit? then 1 else 0) + CountVisits(ops[1..])
  }

  function CountAdds<T>(ops: seq<Op<T>>): nat {
    if ops == [] then 0 else (if ops[0].Add? then 1 else 0) + CountAdds(ops[1..])
  }

  /** An element is visited once there have been more visits than elements before it and additions. */
  lemma {:induction false} VisitedInTime<T>(c: Cursor<T>, ops: seq<Op<T>>, x: T)
    requires Valid(c) && AllAdmissible(c, ops) && x in c.it
    requires forall i :: 0 <= i < |ops| ==> Survives(ops[i], x)
    requires CountVisits(ops) > Wait(c, x) + CountAdds(ops)
    ensures x in Visits(c, ops)
    decreases |ops|
  {
    var op, rest := ops[0], ops[1..];
    match op
    case Visit =>
      VisitMoves(c, x);
      if Wait(c, x) > 0 {
        VisitedInTime(Apply(c, op), rest, x);
      }
    case Add(e) =>
      AddMoves(c, e, x);
      VisitedInTime(Apply(c, op), rest, x);
    case Take(e) =>
      TakeMoves(c, e, x);
      VisitedInTime(Apply(c, op), rest, x);
  }

  function Turns<T>(n: nat): (ops: seq<Op<T>>)
    ensures |ops| == n && forall i :: 0 <= i < n ==> ops[i] == Visit
  {
    seq(n, _ => Visit)
  }

  /** Without additions and removals n visits go once round a list of n elements, in its order. */
  lemma {:induction false} OneRound<T>(c: Cursor<T>, n: nat)
    requires Valid(c) && n <= |c.it|
    ensures Visits(c, Turns(n)) == (c.it[c.at..] + c.it)[..n]
    decreases n
  {
    if n > 0 {
      var ops := Turns<T>(n);
      assert ops[1..] == Turns(n - 1);
      var d := Apply(c, Visit);
      OneRound(d, n - 1);
      var e := Rewound(c);
      assert d == e.(at := e.at + 1) && Visited(c, Visit) == [e.it[e.at]];
      RoundStep(c.it, e.at, n);
      assert c.at == |c.it| ==> c.it[c.at..] + c.it == c.it && (c.it + c.it)[..n] == c.it[..n];
    }
  }

  lemma RoundStep<T>(s: seq<T>, at: nat, n: nat)
    requires at < |s| && 0 < n <= |s|
    ensures [s[at]] + (s[at + 1..] + s)[..n - 1] == (s[at..] + s)[..n]
  {
    assert s[at..] + s == [s[at]] + (s[at + 1..] + s);
  }
}
