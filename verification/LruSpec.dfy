/**
  The value a cache of bounded size stands for: its entries, most recently used first.
  LruCache proves that the linked ring of helper/lru_cache.py maintains exactly this value;
  SharedConnection uses the same functions for the three tables of a connection.
 */
module LruSpec {
  import opened Wrappers

  datatype Slot<K, V> = Slot(key: K, value: V)

  type Recency<K, V> = seq<Slot<K, V>>

  /** Position of an entry for k (the only one, keys being distinct), or the length of the cache. */
  ghost function Find<K, V>(c: Recency<K, V>, k: K): (i: nat)
    ensures i <= |c|
    ensures i < |c| ==> c[i].key == k
    ensures i == |c| ==> forall j :: 0 <= j < |c| ==> c[j].key != k
  {
    if exists i :: 0 <= i < |c| && c[i].key == k
    then var i :| 0 <= i < |c| && c[i].key == k; i
    else |c|
  }

  ghost predicate Has<K, V>(c: Recency<K, V>, k: K) {
    Find(c, k) < |c|
  }

  ghost predicate Distinct<K, V>(c: Recency<K, V>) {
    forall i, j :: 0 <= i < j < |c| ==> c[i].key != c[j].key
  }

  ghost function KeySet<K, V>(c: Recency<K, V>): set<K> {
    set i | 0 <= i < |c| :: c[i].key
  }

  ghost function DropAt<T>(c: seq<T>, i: nat): (r: seq<T>)
    requires i < |c|
    ensures |r| == |c| - 1
    ensures forall j :: 0 <= j < i ==> r[j] == c[j]
    ensures forall j :: i <= j < |r| ==> r[j] == c[j + 1]
  {
    c[..i] + c[i + 1..]
  }

  ghost function Lookup<K, V>(c: Recency<K, V>, k: K): Option<V> {
    if Has(c, k) then Some(c[Find(c, k)].value) else None
  }

  /** A hit moves the entry to the front; a miss changes nothing. */
  ghost function Get<K, V>(c: Recency<K, V>, k: K): Recency<K, V> {
    if Has(c, k) then [c[Find(c, k)]] + DropAt(c, Find(c, k)) else c
  }

  ghost function Del<K, V>(c: Recency<K, V>, k: K): Recency<K, V> {
    if Has(c, k) then DropAt(c, Find(c, k)) else c
  }

  /** Storing a new key in a full cache displaces the entry at the back. */
  ghost function Set<K, V>(c: Recency<K, V>, max: nat, k: K, v: V): Recency<K, V>
    requires max >= 1
  {
    if Has(c, k) then [Slot(k, v)] + DropAt(c, Find(c, k))
    else if |c| >= max then [Slot(k, v)] + c[..|c| - 1]
    else [Slot(k, v)] + c
  }

  ghost function Victim<K, V>(c: Recency<K, V>, max: nat): Option<Slot<K, V>>
    requires max >= 1
  {
    if |c| < max then None else Some(c[|c| - 1])
  }

  lemma FindIs<K, V>(c: Recency<K, V>, k: K, i: nat)
    requires Distinct(c) && i < |c| && c[i].key == k
    ensures Find(c, k) == i
  {
    var f := Find(c, k);
  }

  lemma HasMeans<K, V>(c: Recency<K, V>, k: K)
    ensures Has(c, k) <==> exists i :: 0 <= i < |c| && c[i].key == k
    ensures Has(c, k) <==> k in KeySet(c)
  {
    var f := Find(c, k);
    if f < |c| {
      assert c[f].key == k;
    }
  }

  /** With distinct keys there are as many keys as entries. */
  lemma {:induction false} KeySetSize<K, V>(c: Recency<K, V>)
    requires Distinct(c)
    ensures |KeySet(c)| == |c|
  {
    if c == [] {
      assert KeySet(c) == {};
    } else {
      var n := |c| - 1;
      assert c == c[..n] + [c[n]];
      KeySetSize(c[..n]);
      assert KeySet(c) == KeySet(c[..n]) + {c[n].key};
      assert c[n].key !in KeySet(c[..n]);
    }
  }

  // ---- Whole runs -------------------------------------------------------------------

  datatype Op<K, V> = SetOp(key: K, value: V) | GetOp(key: K) | DelOp(key: K) | ClearOp

  ghost function Apply<K, V>(c: Recency<K, V>, max: nat, op: Op<K, V>): Recency<K, V>
    requires max >= 1
  {
    match op
    case SetOp(k, v) => Set(c, max, k, v)
    case GetOp(k) => Get(c, k)
    case DelOp(k) => Del(c, k)
    case ClearOp => []
  }

  /** The cache after a run that starts empty. */
  ghost function Run<K, V>(ops: seq<Op<K, V>>, max: nat): Recency<K, V>
    requires max >= 1
  {
    if ops == [] then [] else Apply(Run(ops[..|ops| - 1], max), max, ops[|ops| - 1])
  }

  /** The key an operation counts as a use of: every store, and every lookup that hits. */
  ghost function Used<K, V>(c: Recency<K, V>, op: Op<K, V>): Option<K> {
    match op
    case SetOp(k, _) => Some(k)
    case GetOp(k) => if Has(c, k) then Some(k) else None
    case _ => None
  }

  /** The keys used after the last use of k in the run. */
  ghost function UsedSince<K, V>(ops: seq<Op<K, V>>, max: nat, k: K): set<K>
    requires max >= 1
  {
    if ops == [] then {}
    else
      var front := ops[..|ops| - 1];
      match Used(Run(front, max), ops[|ops| - 1])
      case None => UsedSince(front, max, k)
      case Some(u) => if u == k then {} else UsedSince(front, max, k) + {u}
  }

  /** Every operation keeps keys distinct and the size within the bound. */
  lemma ApplyKeeps<K, V>(c: Recency<K, V>, max: nat, op: Op<K, V>)
    requires max >= 1 && Distinct(c) && |c| <= max
    ensures Distinct(Apply(c, max, op)) && |Apply(c, max, op)| <= max
  {
    match op
    case SetOp(k, v) =>
      if Has(c, k) {
        FindUnique(c, k);
      }
    case GetOp(k) =>
      if Has(c, k) {
        FindUnique(c, k);
      }
    case DelOp(k) =>
    case ClearOp =>
  }

  lemma FindUnique<K, V>(c: Recency<K, V>, k: K)
    requires Distinct(c) && Has(c, k)
    ensures forall j :: 0 <= j < |c| && j != Find(c, k) ==> c[j].key != k
  {
    assert c[Find(c, k)].key == k;
  }

  lemma {:induction false} RunKeeps<K, V>(ops: seq<Op<K, V>>, max: nat)
    requires max >= 1
    ensures Distinct(Run(ops, max)) && |Run(ops, max)| <= max
  {
    if ops != [] {
      RunKeeps(ops[..|ops| - 1], max);
      ApplyKeeps(Run(ops[..|ops| - 1], max), max, ops[|ops| - 1]);
    }
  }

  ghost predicate AheadAllIn<K, V>(c: Recency<K, V>, k: K, s: set<K>) {
    Has(c, k) ==> forall j :: 0 <= j < Find(c, k) ==> c[j].key in s
  }

  /** One operation puts at most its own key ahead of the entry for k. */
  lemma ApplyAhead<K, V>(c: Recency<K, V>, max: nat, op: Op<K, V>, k: K, s: set<K>)
    requires max >= 1 && Distinct(c) && |c| <= max && AheadAllIn(c, k, s)
    ensures Used(c, op) == None ==> AheadAllIn(Apply(c, max, op), k, s)
    ensures Used(c, op).Some? && Used(c, op).value != k
            ==> AheadAllIn(Apply(c, max, op), k, s + {Used(c, op).value})
    ensures Used(c, op) == Some(k) ==> AheadAllIn(Apply(c, max, op), k, {})
  {
    ApplyKeeps(c, max, op);
    var d := Apply(c, max, op);
    if Used(c, op) == Some(k) {
      assert d[0].key == k;
      FindIs(d, k, 0);
    } else if Has(d, k) {
      var p := Find(d, k);
      if !op.ClearOp? {
        var i := OriginOf(c, max, op, k, p);
        FindIs(c, k, i);
      }
    }
  }

  /** Where the entry found at position p after an operation on another key stood before it. */
  lemma OriginOf<K, V>(c: Recency<K, V>, max: nat, op: Op<K, V>, k: K, p: nat) returns (i: nat)
    requires max >= 1 && Distinct(c) && |c| <= max && !op.ClearOp?
    requires Used(c, op) != Some(k)
    requires p < |Apply(c, max, op)| && Apply(c, max, op)[p].key == k
    ensures i < |c| && c[i].key == k
    ensures forall j :: 0 <= j < p ==>
      (exists m :: 0 <= m < i && c[m].key == Apply(c, max, op)[j].key)
      || Used(c, op) == Some(Apply(c, max, op)[j].key)
  {
    var d := Apply(c, max, op);
    if d == c {
      i := p;
    } else if op.DelOp? {
      var f := Find(c, op.key);
      i := if p < f then p else p + 1;
      forall j | 0 <= j < p ensures exists m :: 0 <= m < i && c[m].key == d[j].key {
        var m := if j < f then j else j + 1;
        assert c[m].key == d[j].key;
      }
    } else if Has(c, op.key) {
      var f := Find(c, op.key);
      assert d[0].key == op.key;
      i := if p - 1 < f then p - 1 else p;
      forall j | 1 <= j < p ensures exists m :: 0 <= m < i && c[m].key == d[j].key {
        var m := if j - 1 < f then j - 1 else j;
        assert c[m].key == d[j].key;
      }
    } else {
      assert d[0].key == op.key;
      i := p - 1;
      forall j | 1 <= j < p ensures exists m :: 0 <= m < i && c[m].key == d[j].key {
        assert c[j - 1].key == d[j].key;
      }
    }
  }

  /** In every run, whatever stands ahead of k was used since k was. */
  lemma {:induction false} AheadWasUsedSince<K, V>(ops: seq<Op<K, V>>, max: nat, k: K)
    requires max >= 1
    ensures AheadAllIn(Run(ops, max), k, UsedSince(ops, max, k))
    ensures k !in UsedSince(ops, max, k)
  {
    if ops != [] {
      var front := ops[..|ops| - 1];
      AheadWasUsedSince(front, max, k);
      RunKeeps(front, max);
      ApplyAhead(Run(front, max), max, ops[|ops| - 1], k, UsedSince(front, max, k));
    }
  }

  /** Only the last entry of a full cache can be lost to a store of another key. */
  lemma DisplacedIsLast<K, V>(c: Recency<K, V>, max: nat, k: K, k2: K, v2: V)
    requires max >= 1 && Distinct(c) && |c| <= max && k != k2
    requires Has(c, k)
    ensures Has(Set(c, max, k2, v2), k) <==> !(!Has(c, k2) && |c| == max && Find(c, k) == |c| - 1)
  {
    var d := Set(c, max, k2, v2);
    var p := Find(c, k);
    HasMeans(d, k);
    if Has(c, k2) {
      var f := Find(c, k2);
      var q := if p < f then p + 1 else p;
      assert d[q].key == c[p].key;
    } else if |c| < max || p < |c| - 1 {
      assert d[p + 1].key == c[p].key;
    } else {
      FindUnique(c, k);
    }
  }

  /**
    Main result: storing k2 throws k out only when at least max distinct other keys (k2 among
    them) were used after the last use of k, whatever lookups, deletions and clears came between.
   */
  lemma DisplacedOnlyWhenOld<K, V>(ops: seq<Op<K, V>>, max: nat, k: K, k2: K, v2: V)
    requires max >= 1 && k != k2
    requires Has(Run(ops, max), k)
    requires !Has(Run(ops + [SetOp(k2, v2)], max), k)
    ensures |UsedSince(ops + [SetOp(k2, v2)], max, k)| >= max
    ensures k !in UsedSince(ops + [SetOp(k2, v2)], max, k)
    ensures Victim(Run(ops, max), max).Some? && Victim(Run(ops, max), max).value.key == k
  {
    var all := ops + [SetOp(k2, v2)];
    assert all[..|all| - 1] == ops;
    var c := Run(ops, max);
    var d := Run(all, max);
    RunKeeps(ops, max);
    RunKeeps(all, max);
    AheadWasUsedSince(ops, max, k);
    AheadWasUsedSince(all, max, k);
    DisplacedIsLast(c, max, k, k2, v2);
    var p := |c| - 1;
    var aheadKeys := c[..p];
    KeySetSize(aheadKeys);
    HasMeans(c, k2);
    assert k2 !in KeySet(aheadKeys);
    assert KeySet(aheadKeys) + {k2} <= UsedSince(all, max, k);
    SubsetSize(KeySet(aheadKeys) + {k2}, UsedSince(all, max, k));
  }

  lemma {:induction false} SubsetSize<T>(a: set<T>, b: set<T>)
    requires a <= b
    ensures |a| <= |b|
  {
    assert a + (b - a) == b;
  }

  /** The converse bookkeeping: a store into a full cache names its victim exactly. */
  lemma VictimIsDisplaced<K, V>(c: Recency<K, V>, max: nat, k: K, v: V)
    requires max >= 1 && Distinct(c) && |c| <= max && !Has(c, k)
    ensures KeySet(Set(c, max, k, v)) ==
            KeySet(c) - (if Victim(c, max).Some? then {Victim(c, max).value.key} else {}) + {k}
    ensures Victim(c, max).Some? ==> Victim(c, max).value.key in KeySet(c)
  {
    var d := Set(c, max, k, v);
    assert d[0].key == k;
    forall x | x in KeySet(c) && (Victim(c, max).Some? ==> x != Victim(c, max).value.key)
      ensures x in KeySet(d)
    {
      var i :| 0 <= i < |c| && c[i].key == x;
      assert d[i + 1].key == x;
    }
    forall x | x in KeySet(d) && x != k
      ensures x in KeySet(c) && (Victim(c, max).Some? ==> x != Victim(c, max).value.key)
    {
      var i :| 0 <= i < |d| && d[i].key == x;
      assert c[i - 1].key == x;
    }
  }
}
