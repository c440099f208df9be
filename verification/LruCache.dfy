/**
  helper/lru_cache.py: a circular doubly linked list of entries with a sentinel head, and a
  map from key to entry. The most recently used entry is head.next, the least recently used
  is head.prev. Keys stand for the hash codes by which the source indexes its map.
 */
module LruCache {
  import opened Wrappers
  import opened LruSpec

  class Entry<K, V> {
    var key: Option<K>
    var value: Option<V>
    var prev: Entry?<K, V>
    var next: Entry?<K, V>

    constructor (key: Option<K>, value: Option<V>)
      ensures this.key == key && this.value == value
    {
      this.key, this.value, prev, next := key, value, null, null;
    }
  }

  class LRUCache<K(==), V> {
    const maxSize: nat
    const head: Entry<K, V>
    var entries: map<K, Entry<K, V>>
    ghost var ring: seq<Entry<K, V>>  // head.next, head.next.next, ..., head.prev

    /** The circle head, ring[0], ..., ring[|ring| - 1], head. */
    ghost function At(ring: seq<Entry<K, V>>, i: nat): Entry<K, V>
      requires i <= |ring| + 1
    {
      if i == 0 || i == |ring| + 1 then head else ring[i - 1]
    }

    /** Both directions of every link of the circle. */
    ghost predicate Linked(ring: seq<Entry<K, V>>)
      reads head, ring
    {
      && (forall i {:trigger At(ring, i).next} :: 0 <= i <= |ring| ==> At(ring, i).next == At(ring, i + 1))
      && (forall i {:trigger At(ring, i).prev} :: 1 <= i <= |ring| + 1 ==> At(ring, i).prev == At(ring, i - 1))
    }

    ghost predicate Simple(ring: seq<Entry<K, V>>) {
      && head !in ring
      && forall i, j :: 0 <= i < j < |ring| ==> ring[i] != ring[j]
    }

    ghost predicate Filled(ring: seq<Entry<K, V>>)
      reads ring
    {
      forall i :: 0 <= i < |ring| ==> ring[i].key.Some? && ring[i].value.Some?
    }

    /** The recency sequence a ring stands for. */
    ghost function ViewOf(ring: seq<Entry<K, V>>): (c: Recency<K, V>)
      requires Filled(ring)
      reads ring
      ensures |c| == |ring|
      ensures forall i :: 0 <= i < |c| ==> c[i] == Slot(ring[i].key.value, ring[i].value.value)
    {
      seq(|ring|, i requires 0 <= i < |ring| && Filled(ring) reads ring => Slot(ring[i].key.value, ring[i].value.value))
    }

    ghost function View(): Recency<K, V>
      requires Filled(ring)
      reads this, ring
    {
      ViewOf(ring)
    }

    /** The map holds exactly the ring's entries, each under its own key. */
    static ghost predicate Indexed(m: map<K, Entry<K, V>>, ring: seq<Entry<K, V>>, c: Recency<K, V>) {
      && |c| == |ring|
      && Distinct(c)
      && m.Keys == KeySet(c)
      && forall i :: 0 <= i < |c| ==> c[i].key in m && m[c[i].key] == ring[i]
    }

    ghost predicate Valid()
      reads this, head, ring
    {
      && maxSize >= 1
      && Simple(ring)
      && Linked(ring)
      && Filled(ring)
      && Indexed(entries, ring, View())
      && |ring| <= maxSize
    }

    constructor (max: Option<int>)
      ensures Valid() && View() == [] && fresh(head)
      ensures maxSize == (if max == None || max.value == 0 then 65535 else if max.value < 1 then 1 else max.value)
    {
      var size := if max == None || max.value == 0 then 65535 else max.value;
      maxSize := if size < 1 then 1 else size;
      var h := new Entry<K, V>(None, None);
      head := h;
      entries := map[];
      ring := [];
      new;
      h.prev := h;
      h.next := h;
    }

    /** First half of __change_pointer, and the whole pointer work of __delitem__. */
    method Unlink(entry: Entry<K, V>, ghost i: nat)
      requires i < |ring| && ring[i] == entry && Simple(ring) && Linked(ring) && Filled(ring)
      modifies this`ring, head`prev, head`next, ring`prev, ring`next
      ensures ring == DropAt(old(ring), i)
      ensures Simple(ring) && Linked(ring) && Filled(ring)
      ensures View() == DropAt(old(View()), i)
    {
      UnlinkPointers(entry, i);
      ghost var was := old(ring);
      forall j | 0 <= j < |ring|
        ensures ring[j].key == old(was[if j < i then j else j + 1].key)
        ensures ring[j].value == old(was[if j < i then j else j + 1].value)
      {
        assert ring[j] == was[if j < i then j else j + 1];
      }
    }

    method UnlinkPointers(entry: Entry<K, V>, ghost i: nat)
      requires i < |ring| && ring[i] == entry && Simple(ring) && Linked(ring)
      modifies this`ring, head`prev, head`next, ring`prev, ring`next
      ensures ring == DropAt(old(ring), i)
      ensures Simple(ring) && Linked(ring)
    {
      assert At(ring, i + 1) == entry;
      assert entry.prev == At(ring, i) && entry.next == At(ring, i + 2);
      entry.prev.next := entry.next;
      entry.next.prev := entry.prev;
      ring := ring[..i] + ring[i + 1..];
      ghost var was := old(ring);
      forall j: nat | j <= |ring| ensures At(ring, j).next == At(ring, j + 1) {
        var o := if j <= i then j else j + 1;
        assert At(ring, j) == At(was, o) && old(At(was, o).next) == At(was, o + 1);
      }
      forall j: nat | 1 <= j <= |ring| + 1 ensures At(ring, j).prev == At(ring, j - 1) {
        var o := if j <= i then j else j + 1;
        assert At(ring, j) == At(was, o) && old(At(was, o).prev) == At(was, o - 1);
      }
    }

    /** Second half of __change_pointer, and the pointer work of a fresh insertion. */
    method LinkFront(entry: Entry<K, V>)
      requires entry != head && entry !in ring && Simple(ring) && Linked(ring) && Filled(ring)
      requires entry.key.Some? && entry.value.Some?
      modifies this`ring, head`prev, head`next, ring`prev, entry`prev, entry`next
      ensures ring == [entry] + old(ring)
      ensures Simple(ring) && Linked(ring) && Filled(ring)
      ensures View() == [Slot(entry.key.value, entry.value.value)] + old(View())
    {
      assert At(ring, 0) == head && At(ring, |ring| + 1) == head;
      assert head.next == At(ring, 1);
      entry.prev := head;
      entry.next := head.next;
      head.next.prev := entry;
      head.next := entry;
      ring := [entry] + ring;
      ghost var was := old(ring);
      forall j: nat | j <= |ring| ensures At(ring, j).next == At(ring, j + 1) {
        if j >= 2 {
          assert At(ring, j) == At(was, j - 1) && old(At(was, j - 1).next) == At(was, j);
        }
      }
      forall j: nat | 1 <= j <= |ring| + 1 ensures At(ring, j).prev == At(ring, j - 1) {
        if j >= 3 {
          assert At(ring, j) == At(was, j - 1) && old(At(was, j - 1).prev) == At(was, j - 2);
        }
      }
      forall j | 1 <= j < |ring| ensures ring[j] == was[j - 1] {}
    }

    /** __change_pointer */
    method ChangePointer(entry: Entry<K, V>, ghost i: nat)
      requires i < |ring| && ring[i] == entry && Simple(ring) && Linked(ring) && Filled(ring)
      modifies this`ring, head`prev, head`next, ring`prev, ring`next
      ensures ring == [entry] + DropAt(old(ring), i)
      ensures Simple(ring) && Linked(ring) && Filled(ring)
      ensures View() == [old(View())[i]] + DropAt(old(View()), i)
    {
      Unlink(entry, i);
      LinkFront(entry);
    }

    /** The map and the recency sequence agree on which keys are present and where. */
    lemma MapAgrees(k: K)
      requires Valid()
      ensures |View()| == |ring| == |entries|
      ensures k in entries <==> Has(View(), k)
      ensures k in entries ==> entries[k] == ring[Find(View(), k)]
    {
      HasMeans(View(), k);
      SizesAgree();
    }

    lemma SizesAgree()
      requires Valid()
      ensures |View()| == |ring| == |entries|
    {
      KeySetSize(View());
      assert |entries| == |entries.Keys|;
    }

    static lemma IndexedAfterDrop(m: map<K, Entry<K, V>>, ring: seq<Entry<K, V>>, c: Recency<K, V>, i: nat)
      requires Indexed(m, ring, c) && i < |c|
      ensures Indexed(m - {c[i].key}, DropAt(ring, i), DropAt(c, i))
    {
      var d := DropAt(c, i);
      forall k | k in KeySet(c) && k != c[i].key ensures k in KeySet(d) {
        var j :| 0 <= j < |c| && c[j].key == k;
        assert d[if j < i then j else j - 1].key == k;
      }
      forall k | k in KeySet(d) ensures k in KeySet(c) && k != c[i].key {
        var j :| 0 <= j < |d| && d[j].key == k;
        assert c[if j < i then j else j + 1].key == k;
      }
      assert (m - {c[i].key}).Keys == KeySet(d);
    }

    static lemma IndexedAfterInsert(m: map<K, Entry<K, V>>, ring: seq<Entry<K, V>>, c: Recency<K, V>,
                                    k: K, v: V, entry: Entry<K, V>)
      requires Indexed(m, ring, c) && k !in m
      ensures Indexed(m[k := entry], [entry] + ring, [Slot(k, v)] + c)
    {
      var d := [Slot(k, v)] + c;
      assert d[0].key == k;
      forall x | x in KeySet(c) ensures x in KeySet(d) && x != k {
        var j :| 0 <= j < |c| && c[j].key == x;
        assert d[j + 1].key == x;
      }
      forall x | x in KeySet(d) ensures x in KeySet(c) || x == k {
        var j :| 0 <= j < |d| && d[j].key == x;
        assert j > 0 ==> c[j - 1].key == x;
      }
      assert m[k := entry].Keys == KeySet(d);
    }

    /** Moving an entry to the front is taking it out and putting it in. */
    static lemma IndexedAfterTouch(m: map<K, Entry<K, V>>, ring: seq<Entry<K, V>>, c: Recency<K, V>, i: nat, v: V)
      requires Indexed(m, ring, c) && i < |c|
      ensures Indexed(m, [ring[i]] + DropAt(ring, i), [Slot(c[i].key, v)] + DropAt(c, i))
    {
      var k := c[i].key;
      IndexedAfterDrop(m, ring, c, i);
      IndexedAfterInsert(m - {k}, DropAt(ring, i), DropAt(c, i), k, v, ring[i]);
      assert (m - {k})[k := ring[i]] == m;
    }

    static lemma IndexedAfterRecycle(m: map<K, Entry<K, V>>, ring: seq<Entry<K, V>>, c: Recency<K, V>, k: K, v: V)
      requires Indexed(m, ring, c) && |c| > 0 && k !in m
      ensures Indexed((m - {c[|c| - 1].key})[k := ring[|c| - 1]],
                      [ring[|c| - 1]] + DropAt(ring, |c| - 1), [Slot(k, v)] + c[..|c| - 1])
    {
      var i: nat := |c| - 1;
      assert c[..i] == DropAt(c, i);
      IndexedAfterDrop(m, ring, c, i);
      IndexedAfterInsert(m - {c[i].key}, DropAt(ring, i), DropAt(c, i), k, v, ring[i]);
    }

    method SetItem(k: K, v: V)
      requires Valid()
      modifies this, head, ring
      ensures Valid()
      ensures View() == Set(old(View()), maxSize, k, v)
    {
      MapAgrees(k);
      if k in entries {
        Refresh(entries[k], k, v, Find(View(), k));
      } else if |entries| >= maxSize {
        Recycle(k, v);
      } else {
        InsertFresh(k, v);
      }
    }

    /** Gives an entry a new key and value in place. */
    method Relabel(entry: Entry<K, V>, ghost i: nat, k: K, v: V)
      requires i < |ring| && ring[i] == entry && Simple(ring) && Linked(ring) && Filled(ring)
      modifies entry`key, entry`value
      ensures Linked(ring) && Filled(ring)
      ensures View() == old(View())[i := Slot(k, v)]
    {
      entry.key := Some(k);
      entry.value := Some(v);
    }

    /** The branch of __setitem__ that adds an entry. */
    method InsertFresh(k: K, v: V)
      requires Valid() && |ring| < maxSize && k !in entries
      modifies this`ring, this`entries, head`prev, head`next, ring`prev
      ensures Valid()
      ensures View() == [Slot(k, v)] + old(View())
    {
      ghost var was := View();
      var entry := new Entry(Some(k), Some(v));
      assert View() == was && Linked(ring) && Filled(ring);
      IndexedAfterInsert(entries, ring, was, k, v, entry);
      LinkFront(entry);
      entries := entries[k := entry];
      assert View() == [Slot(k, v)] + was;
    }

    /** The branch of __setitem__ for a key already present. */
    method Refresh(entry: Entry<K, V>, k: K, v: V, ghost i: nat)
      requires Valid() && i < |ring| && ring[i] == entry && entry.key == Some(k)
      modifies this`ring, head`prev, head`next, ring
      ensures Valid()
      ensures View() == [Slot(k, v)] + DropAt(old(View()), i)
    {
      ghost var was := View();
      IndexedAfterTouch(entries, ring, was, i, v);
      Relabel(entry, i, k, v);
      ChangePointer(entry, i);
      assert View() == [Slot(k, v)] + DropAt(was, i);
    }

    /** The branch of __setitem__ that reuses the least recently used entry for a new key. */
    method Recycle(k: K, v: V)
      requires Valid() && |ring| == maxSize && k !in entries
      modifies this, head, ring
      ensures Valid()
      ensures View() == [Slot(k, v)] + old(View())[..|old(View())| - 1]
    {
      LastEntry();
      var entry := head.prev;
      ghost var was, i: nat := View(), |ring| - 1;
      IndexedAfterRecycle(entries, ring, was, k, v);
      entries := (entries - {entry.key.value})[k := entry];
      Relabel(entry, i, k, v);
      assert DropAt(View(), i) == was[..i];
      ChangePointer(entry, i);
      assert View() == [Slot(k, v)] + was[..i];
    }

    lemma LastEntry()
      requires Valid() && |ring| > 0
      ensures head.prev == ring[|ring| - 1] && ring[|ring| - 1].key.value == View()[|ring| - 1].key
    {
      assert head == At(ring, |ring| + 1) && head.prev == At(ring, |ring|);
    }

    /** None stands for KeyError. */
    method GetItem(k: K) returns (r: Option<V>)
      requires Valid()
      modifies this`ring, head`prev, head`next, ring`prev, ring`next
      ensures Valid()
      ensures r == Lookup(old(View()), k)
      ensures View() == Get(old(View()), k)
    {
      MapAgrees(k);
      if k !in entries {
        return None;
      }
      ghost var was, i := View(), Find(View(), k);
      IndexedAfterTouch(entries, ring, was, i, was[i].value);
      var entry := entries[k];
      ChangePointer(entry, i);
      return entry.value;
    }

    /** False stands for KeyError. */
    method DelItem(k: K) returns (found: bool)
      requires Valid()
      modifies this`ring, this`entries, head`prev, head`next, ring`prev, ring`next
      ensures Valid()
      ensures found == Has(old(View()), k)
      ensures View() == Del(old(View()), k)
    {
      MapAgrees(k);
      found := k in entries;
      if found {
        ghost var was, i := View(), Find(View(), k);
        assert was[i].key == k;
        IndexedAfterDrop(entries, ring, was, i);
        var entry := entries[k];
        entries := entries - {k};
        ghost var ring2 := DropAt(ring, i);
        Unlink(entry, i);
        assert ring == ring2 && View() == DropAt(was, i);
      }
    }

    predicate Contains(k: K): (r: bool)
      requires Valid()
      reads this, head, ring
      ensures r <==> Has(View(), k)
    {
      MapAgrees(k);
      k in entries
    }

    method Clear()
      requires Valid()
      modifies this, head
      ensures Valid() && View() == []
    {
      entries := map[];
      head.next := head;
      head.prev := head;
      ring := [];
    }

    function CurrentSize(): (n: nat)
      requires Valid()
      reads this, head, ring
      ensures n == |View()| <= maxSize
    {
      SizesAgree();
      |entries|
    }

    /** The entry that the next store of a new key will recycle, or null while there is room. */
    method WillBeKickedOut() returns (entry: Entry?<K, V>)
      requires Valid()
      ensures entry == null <==> Victim(View(), maxSize) == None
      ensures entry != null ==> entry in ring && Victim(View(), maxSize) == Some(Slot(entry.key.value, entry.value.value))
    {
      if CurrentSize() < maxSize {
        return null;
      }
      assert At(ring, |ring| + 1) == head && head.prev == At(ring, |ring|);
      return head.prev;
    }

    /** The items in the order the generator yields them: least recently used first. */
    method IterItems() returns (items: seq<Slot<K, V>>)
      requires Valid()
      ensures |items| == |View()|
      ensures forall i :: 0 <= i < |items| ==> items[i] == View()[|items| - 1 - i]
    {
      items := [];
      var entry := head.prev;
      ghost var left: nat := |ring|;
      assert At(ring, |ring| + 1) == head && head.prev == At(ring, |ring|);
      while entry != head
        invariant left <= |ring| && entry == At(ring, left)
        invariant |items| == |ring| - left
        invariant forall i :: 0 <= i < |items| ==> items[i] == View()[|ring| - 1 - i]
        decreases left
      {
        assert left > 0 && entry == ring[left - 1];
        items := items + [Slot(entry.key.value, entry.value.value)];
        assert At(ring, left).prev == At(ring, left - 1);
        entry := entry.prev;
        left := left - 1;
      }
      assert left == 0;
    }
  }
}
