/**
  helper/list.py: a stack of bounded size kept in a fixed array of nodes. Index -1 ends a
  chain; one chain starts at head and holds the elements, the other starts at space and holds
  the free nodes.
 */
module StaticList {
  import opened Wrappers

  datatype Node<T> = Node(element: Option<T>, next: int)

  class StaticList<T> {
    const maxSize: nat
    const nodes: array<Node<T>>
    var head: int
    var space: int
    var size: int
    ghost var used: seq<nat>  // the chain from head
    ghost var free: seq<nat>  // the chain from space

    static ghost function ChainAt(chain: seq<nat>, i: nat): int {
      if i < |chain| then chain[i] else -1
    }

    /** Following next from start visits exactly the indices of chain and then stops at -1. */
    ghost predicate Chain(start: int, chain: seq<nat>)
      reads nodes
    {
      && start == ChainAt(chain, 0)
      && (forall i :: 0 <= i < |chain| ==> chain[i] < nodes.Length)
      && (forall i :: 0 <= i < |chain| ==> nodes[chain[i]].next == ChainAt(chain, i + 1))
    }

    /** The two chains never visit an index twice, share none, and miss none. */
    static ghost predicate Partition(used: seq<nat>, free: seq<nat>, max: nat) {
      && (forall i, j :: 0 <= i < j < |used| ==> used[i] != used[j])
      && (forall i, j :: 0 <= i < j < |free| ==> free[i] != free[j])
      && (forall i, j :: 0 <= i < |used| && 0 <= j < |free| ==> used[i] != free[j])
      && (forall n :: 0 <= n < max ==> n in used || n in free)
      && |used| + |free| == max
    }

    static lemma PartitionAfterMove(used: seq<nat>, free: seq<nat>, max: nat)
      requires Partition(used, free, max) && free != []
      ensures Partition([free[0]] + used, free[1..], max)
    {
      forall n | 0 <= n < max ensures n in [free[0]] + used || n in free[1..] {
        if n in free {
          assert free == [free[0]] + free[1..];
        }
      }
    }

    static lemma PartitionIsSymmetric(used: seq<nat>, free: seq<nat>, max: nat)
      requires Partition(used, free, max)
      ensures Partition(free, used, max)
    {
    }

    static lemma Shifted(to: seq<nat>, from: seq<nat>)
      requires from != []
      ensures forall i: nat :: ChainAt(from[1..], i) == ChainAt(from, i + 1)
      ensures forall i: nat :: ChainAt([from[0]] + to, i + 1) == ChainAt(to, i)
      ensures ChainAt([from[0]] + to, 0) == from[0]
    {
    }

    ghost predicate Valid()
      reads this, nodes
    {
      && nodes.Length == maxSize > 0
      && Chain(head, used)
      && Chain(space, free)
      && Partition(used, free, maxSize)
      && size == |used|
      && (forall i :: 0 <= i < |used| ==> nodes[used[i]].element.Some?)
    }

    /** The stack this list stands for, top first. */
    ghost function Elements(): (s: seq<T>)
      requires Valid()
      reads this, nodes
      ensures |s| == size
      ensures forall i :: 0 <= i < |s| ==> Some(s[i]) == nodes[used[i]].element
    {
      seq(|used|, i requires 0 <= i < |used| && Valid() reads this, nodes => nodes[used[i]].element.value)
    }

    constructor (max: nat)
      requires max > 0
      ensures Valid() && maxSize == max && Elements() == []
      ensures fresh(nodes)
    {
      maxSize := max;
      nodes := new Node<T>[max](_ => Node(None, -1));
      head, space, size := -1, 0, 0;
      used := [];
      free := seq(max, i => i);
      new;
      for ind := 0 to max - 1
        invariant nodes.Length == max
        invariant forall i :: 0 <= i < ind ==> nodes[i] == Node(None, i + 1)
        invariant forall i :: ind <= i < max ==> nodes[i] == Node(None, -1)
        invariant head == -1 && space == 0 && size == 0 && used == [] && free == seq(max, i => i)
      {
        nodes[ind] := nodes[ind].(next := ind + 1);
      }
      forall n | 0 <= n < max ensures n in free {
        assert free[n] == n;
      }
    }

    /** False stands for ListFullError, which leaves the list as it was. */
    method InsertLeft(element: T) returns (ok: bool)
      requires Valid()
      modifies this`head, this`space, this`size, this`used, this`free, nodes
      ensures Valid()
      ensures ok <==> old(size) < maxSize
      ensures Elements() == Apply(old(Elements()), maxSize, Push(element))
    {
      if space == -1 {
        return false;
      }
      LinkLeft(element);
      return true;
    }

    /** insert_left with a free node. */
    method LinkLeft(element: T)
      requires Valid() && free != []
      modifies this`head, this`space, this`size, this`used, this`free, nodes
      ensures Valid()
      ensures Elements() == [element] + old(Elements())
    {
      PartitionAfterMove(used, free, maxSize);
      MoveFirstFree(element);
      size := size + 1;
    }

    /** The first free node comes to the head with the element; no other node changes. */
    method MoveFirstFree(element: T)
      requires free != [] && Chain(head, used) && Chain(space, free)
      requires forall i :: 0 <= i < |used| ==> used[i] != free[0]
      requires forall i :: 1 <= i < |free| ==> free[i] != free[0]
      modifies this`head, this`space, this`used, this`free, nodes
      ensures used == [old(free)[0]] + old(used) && free == old(free)[1..]
      ensures Chain(head, used) && Chain(space, free)
      ensures nodes[used[0]].element == Some(element)
      ensures forall n :: 0 <= n < nodes.Length && n != used[0] ==> nodes[n] == old(nodes[n])
    {
      var nodeIndex := space;
      assert nodeIndex == free[0];
      var node := nodes[nodeIndex];
      space := node.next;
      nodes[nodeIndex] := Node(Some(element), head);
      head := nodeIndex;
      Shifted(used, free);
      used, free := [free[0]] + used, free[1..];
    }

    /** None stands for ListEmptyError. */
    method PopLeft() returns (element: Option<T>)
      requires Valid()
      modifies this`head, this`space, this`size, this`used, this`free, nodes
      ensures Valid()
      ensures element.Some? <==> old(size) > 0
      ensures old(Elements()) == if element.Some? then [element.value] + Elements() else Elements()
    {
      if size <= 0 {
        return None;
      }
      PartitionIsSymmetric(used, free, maxSize);
      PartitionAfterMove(free, used, maxSize);
      PartitionIsSymmetric([used[0]] + free, used[1..], maxSize);
      element := MoveHead();
      size := size - 1;
    }

    /** The node at the head comes to the front of the free chain; no other node changes. */
    method MoveHead() returns (element: Option<T>)
      requires used != [] && Chain(head, used) && Chain(space, free)
      requires forall i :: 0 <= i < |free| ==> free[i] != used[0]
      requires forall i :: 1 <= i < |used| ==> used[i] != used[0]
      modifies this`head, this`space, this`used, this`free, nodes
      ensures used == old(used)[1..] && free == [old(used)[0]] + old(free)
      ensures Chain(head, used) && Chain(space, free)
      ensures element == old(nodes[used[0]].element)
      ensures forall n :: 0 <= n < nodes.Length && n != free[0] ==> nodes[n] == old(nodes[n])
    {
      var nodeIndex := head;
      assert nodeIndex == used[0];
      var node := nodes[nodeIndex];
      element := node.element;
      head := node.next;
      nodes[nodeIndex] := node.(next := space);
      space := nodeIndex;
      Shifted(free, used);
      used, free := used[1..], [used[0]] + free;
    }

    method PeekLeft() returns (element: Option<T>)
      requires Valid()
      ensures element == if Elements() == [] then None else Some(Elements()[0])
    {
      if size <= 0 {
        return None;
      }
      return nodes[head].element;
    }

    /**
      Compares the start of the free chain with None, which no index is: a full list is reported
      as not full, and the overflow surfaces as ListFullError from InsertLeft instead.
     */
    method IsFull() returns (full: bool)
      requires Valid()
      ensures !full
      ensures full == (size == maxSize) <==> size < maxSize
      ensures size == maxSize <==> space == -1
    {
      full := false;
    }
  }

  // ---- Whole runs -------------------------------------------------------------------

  datatype Op<T> = Push(element: T) | Pop

  ghost function Apply<T>(s: seq<T>, max: nat, op: Op<T>): seq<T> {
    match op
    case Push(x) => if |s| < max then [x] + s else s
    case Pop => if s == [] then s else s[1..]
  }

  ghost function Run<T>(s: seq<T>, max: nat, ops: seq<Op<T>>): seq<T>
    decreases ops
  {
    if ops == [] then s else Run(Apply(s, max, ops[0]), max, ops[1..])
  }

  ghost predicate StaysAbove<T>(s: seq<T>, max: nat, ops: seq<Op<T>>, depth: nat)
    decreases ops
  {
    |s| >= depth && (ops != [] ==> StaysAbove(Apply(s, max, ops[0]), max, ops[1..], depth))
  }

  /** An operation that stays above base only changes what is on top of it. */
  lemma AppliesOnTop<T>(top: seq<T>, base: seq<T>, max: nat, op: Op<T>) returns (top': seq<T>)
    requires |Apply(top + base, max, op)| >= |base|
    ensures Apply(top + base, max, op) == top' + base
  {
    match op
    case Push(x) =>
      top' := if |top + base| < max then [x] + top else top;
      assert [x] + (top + base) == [x] + top + base;
    case Pop =>
      top' := if top == [] then [] else top[1..];
      assert top != [] ==> (top + base)[1..] == top[1..] + base;
  }

  /** While the depth never drops below that of base, base stays untouched at the bottom. */
  lemma {:induction false} BottomKept<T>(top: seq<T>, base: seq<T>, max: nat, ops: seq<Op<T>>)
    requires StaysAbove(top + base, max, ops, |base|)
    ensures |Run(top + base, max, ops)| >= |base|
    ensures var r := Run(top + base, max, ops); r[|r| - |base|..] == base
    decreases ops
  {
    if ops == [] {
      assert (top + base)[|top|..] == base;
    } else {
      assert StaysAbove(Apply(top + base, max, ops[0]), max, ops[1..], |base|);
      var top' := AppliesOnTop(top, base, max, ops[0]);
      BottomKept(top', base, max, ops[1..]);
    }
  }

  /**
    Last in, first out: after x is pushed, and whatever run follows that never pops below it,
    the first pop that returns to its depth returns x and restores the stack x was pushed on.
   */
  lemma LastInFirstOut<T>(s: seq<T>, max: nat, x: T, ops: seq<Op<T>>)
    requires |s| < max
    requires StaysAbove(Apply(s, max, Push(x)), max, ops, |s| + 1)
    requires |Run(Apply(s, max, Push(x)), max, ops)| == |s| + 1
    ensures Run(Apply(s, max, Push(x)), max, ops) == [x] + s
    ensures Apply(Run(Apply(s, max, Push(x)), max, ops), max, Pop) == s
  {
    assert [] + ([x] + s) == Apply(s, max, Push(x));
    BottomKept([], [x] + s, max, ops);
  }
}
