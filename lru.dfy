/**
 * The cache of lru.go: a recency list, a key index and a running size,
 * changed together in place by every operation.  Each method is proved
 * against the functions of LruSpec; the object invariant Valid() is the
 * structural invariant the source relies on.
 */
module Lru {
  import opened LruSpec

  class Cache<K(==), V> {
    /** The recency list: li[0] is the front (most recently used), the last entry the back. */
    var li: seq<Entry<K, V>>
    /** The key index: each resident key's list element. */
    var m: map<K, Entry<K, V>>
    /** The running sum of sizeCal over the resident entries. */
    var curSize: int
    const maxSize: int
    const sizeCal: (K, V) -> nat
    /** Every (key, value) pair handed to the expire callback, in call order. */
    ghost var expired: seq<Entry<K, V>>

    /** The index matches the list and curSize is the sum of the entries' costs. */
    ghost predicate Valid()
      reads this
    {
      && Indexes(m, li)
      && curSize == Total(sizeCal, li)
    }

    /**
     * An empty cache.  A missing size function means every entry costs 1; the
     * expire callback is not a parameter because only its calls are recorded.
     */
    constructor New(maxSize: int, sizeCal: Option<(K, V) -> nat>)
      ensures Valid()
      ensures li == [] && m == map[] && curSize == 0 && expired == []
      ensures this.maxSize == maxSize
      ensures sizeCal.Some? ==> this.sizeCal == sizeCal.value
      ensures sizeCal.None? ==> forall k, v :: this.sizeCal(k, v) == 1
    {
      li := [];
      m := map[];
      curSize := 0;
      this.maxSize := maxSize;
      var cost: (K, V) -> nat := (k, v) => 1;
      if sizeCal.Some? {
        cost := sizeCal.value;
      }
      this.sizeCal := cost;
      expired := [];
    }

    /**
     * Inserts or updates key, moves it to the front, then evicts from the
     * back while the size exceeds maxSize.  What is evicted is a suffix of
     * the list as it stood after the update, reported back to front.
     */
    method Put(key: K, value: V)
      requires Valid()
      modifies this
      ensures Valid()
      ensures var pushed := Pushed(old(li), key, value);
        var n := KeepCount(sizeCal, maxSize, pushed);
        li == pushed[..n] && expired == old(expired) + Reversed(pushed[n..])
      ensures curSize <= maxSize || li == []
      ensures maxSize >= 0 ==> curSize <= maxSize
    {
      ghost var pushed := Pushed(li, key, value);
      PushedInvariant(sizeCal, m, li, curSize, key, value);
      var e := Entry(key, value);
      if key in m {
        var i := Position(li, key);
        PushedAt(li, i, value);
        curSize := curSize - sizeCal(key, m[key].value);
        // the element keeps its place in the list and in the index; only its entry is replaced
        li := li[i := e];
        m := m[key := e];
        curSize := curSize + sizeCal(key, value);
        li := MoveToFront(li, i);
      } else {
        WithoutAbsent(li, key);
        li := [e] + li;
        m := m[key := e];
        curSize := curSize + sizeCal(key, value);
      }
      ExpireUnlock();
      CapacityBound(sizeCal, maxSize, pushed);
    }

    /**
     * Reads the value for key.  A hit moves the entry to the front and leaves
     * every other entry in its order; a miss changes nothing.
     */
    method Get(key: K) returns (value: Option<V>)
      requires Valid()
      modifies this
      ensures Valid()
      ensures value == Lookup(old(li), key)
      ensures li == if value.Some? then [Entry(key, value.value)] + Without(old(li), key) else old(li)
      ensures m == old(m) && curSize == old(curSize) && expired == old(expired)
    {
      IndexesLookup(m, li, key);
      if key !in m {
        value := None;
        return;
      }
      var ele := m[key];
      var i := Position(li, key);
      MoveToFrontPromotes(li, i);
      IndexesMoved(m, li, i);
      TotalPermutation(sizeCal, li, i);
      li := MoveToFront(li, i);
      value := Some(ele.value);
    }

    /** The back entry, the one eviction would drop next; None on an empty cache. */
    function LeastRecentlyUsed(): (r: Option<Entry<K, V>>)
      reads this
      requires Valid()
      ensures r.None? <==> m == map[]
      ensures r.Some? ==> r.value == li[|li| - 1] && r.value.key in m && m[r.value.key] == r.value
    {
      IndexesCount(m, li);
      if li == [] then None else Some(li[|li| - 1])
    }

    /** The resident keys, front to back. */
    method AllKeys() returns (ks: seq<K>)
      requires Valid()
      ensures ks == KeysOf(li)
      ensures forall k :: k in ks <==> k in m
    {
      ks := [];
      var cur := 0;
      while cur < |li|
        invariant 0 <= cur <= |li|
        invariant ks == KeysOf(li)[..cur]
      {
        ks := ks + [li[cur].key];
        cur := cur + 1;
      }
      assert KeysOf(li)[..|li|] == KeysOf(li);
      forall k ensures k in ks <==> k in m {
        if k in m {
          assert k in KeySet(li);
          var i :| 0 <= i < |li| && li[i].key == k;
          assert ks[i] == k;
        }
      }
    }

    /**
     * Hands the entries to consumer front to back and stops after the first
     * one it answers false for.  The result is the sequence of entries the
     * consumer was called with: every entry of the list up to and including
     * the first refused one.  The recency order is not changed.
     */
    method Scan(consumer: (K, V) -> bool) returns (visited: seq<Entry<K, V>>)
      requires Valid()
      ensures visited <= li
      ensures forall i :: 0 <= i < |visited| - 1 ==> consumer(visited[i].key, visited[i].value)
      ensures |visited| < |li| ==> visited != [] && !consumer(visited[|visited| - 1].key, visited[|visited| - 1].value)
    {
      visited := [];
      var cur := 0;
      while cur < |li|
        invariant 0 <= cur <= |li|
        invariant visited == li[..cur]
        invariant forall i :: 0 <= i < cur ==> consumer(li[i].key, li[i].value)
      {
        var e := li[cur];
        visited := visited + [e];
        if !consumer(e.key, e.value) {
          break;
        }
        cur := cur + 1;
      }
    }

    /** Removes key if present, reporting its entry once; absent keys change nothing. */
    method Remove(key: K)
      requires Valid()
      modifies this
      ensures Valid()
      ensures li == Without(old(li), key) && m == old(m) - {key}
      ensures key in old(m) ==>
        expired == old(expired) + [old(m)[key]] && curSize == old(curSize) - sizeCal(key, old(m)[key].value)
      ensures key !in old(m) ==> li == old(li) && expired == old(expired) && curSize == old(curSize)
    {
      RemoveUnlock(key);
    }

    /**
     * Removes every entry whose key `remove` selects, in one pass front to
     * back.  The survivors keep their relative order and the removed entries
     * are reported in list order.
     */
    method RemoveIf(remove: K -> bool)
      requires Valid()
      modifies this
      ensures Valid()
      ensures li == Kept(remove, old(li))
      ensures expired == old(expired) + Dropped(remove, old(li))
      ensures curSize == old(curSize) - Total(sizeCal, Dropped(remove, old(li)))
    {
      ghost var orig := li;
      ghost var visited := [];
      ghost var todo := li;
      ghost var kept := [];
      var cur := 0;
      while cur < |li|
        invariant Valid()
        invariant orig == visited + todo && li == kept + todo && cur == |kept|
        invariant kept == Kept(remove, visited)
        invariant expired == old(expired) + Dropped(remove, visited)
        decreases |todo|
      {
        CursorStep(li, kept, todo);
        var x := todo[0];
        RemoveIfStep(remove, visited, x);
        ShiftHead(orig, visited, todo);
        var key := li[cur].key;
        if remove(key) {
          // the entry after the removed one now sits at cur: it stands for the pre-captured next
          assert m[key] == x;
          LogAppend(expired, old(expired), Dropped(remove, visited), x);
          RemoveUnlock(key);
        } else {
          kept := kept + [x];
          cur := cur + 1;
        }
        visited := visited + [x];
        todo := todo[1..];
      }
      assert visited == orig;
      KeptDroppedTotal(sizeCal, remove, orig);
    }

    /**
     * Removes the entry for key from the index and the list, subtracts its
     * cost and reports it; does nothing when key is absent.
     */
    method RemoveUnlock(key: K)
      requires Valid()
      modifies this
      ensures Valid()
      ensures li == Without(old(li), key) && m == old(m) - {key}
      ensures key in old(m) ==>
        expired == old(expired) + [old(m)[key]] && curSize == old(curSize) - sizeCal(key, old(m)[key].value)
      ensures key !in old(m) ==> li == old(li) && expired == old(expired) && curSize == old(curSize)
    {
      IndexesRemoved(m, li, key);
      if key in m {
        var ele := m[key];
        var i := Position(li, key);
        WithoutAt(li, i);
        TotalRemoveAt(sizeCal, li, i);
        m := m - {key};
        li := li[..i] + li[i + 1..];
        curSize := curSize - sizeCal(key, ele.value);
        expired := expired + [ele];
      } else {
        WithoutAbsent(li, key);
      }
    }

    /**
     * Reports every resident entry once, in no particular order, then leaves
     * the cache empty.
     */
    method RemoveAll()
      requires Valid()
      modifies this
      ensures Valid()
      ensures li == [] && m == map[] && curSize == 0
      ensures |expired| == |old(expired)| + |old(li)|
      ensures expired[..|old(expired)|] == old(expired)
      ensures multiset(expired[|old(expired)|..]) == multiset(old(li))
    {
      var pending := m.Keys;
      ghost var calls: seq<Entry<K, V>> := [];
      ReportedStart(m, li);
      while pending != {}
        invariant Valid() && li == old(li) && m == old(m)
        invariant expired == old(expired) + calls
        invariant Reported(m, li, calls, pending)
        decreases pending
      {
        var k :| k in pending;
        ReportedStep(m, li, calls, pending, k);
        expired := expired + [m[k]];
        calls := calls + [m[k]];
        pending := pending - {k};
      }
      ReportedAll(m, li, calls);
      assert expired[|old(expired)|..] == calls;
      li := [];
      m := map[];
      curSize := 0;
    }

    /** The accumulated size: the sum of sizeCal over the resident entries. */
    function Size(): (size: int)
      reads this
      requires Valid()
      ensures size == Total(sizeCal, li) && size >= 0
    {
      curSize
    }

    /** The number of resident entries, equal to the number of keys in the index. */
    function Number(): (n: nat)
      reads this
      requires Valid()
      ensures n == |li| && n == |m|
    {
      IndexesCount(m, li);
      |li|
    }

    /** Drops the back entry while the size exceeds maxSize and an entry remains. */
    method ExpireUnlock()
      requires Valid()
      modifies this
      ensures Valid()
      ensures var n := KeepCount(sizeCal, maxSize, old(li));
        li == old(li)[..n] && expired == old(expired) + Reversed(old(li)[n..])
    {
      ghost var s := li;
      ghost var log := expired;
      while curSize > maxSize && |li| > 0
        invariant Valid()
        invariant |li| <= |s| && li == s[..|li|]
        invariant KeepCount(sizeCal, maxSize, li) == KeepCount(sizeCal, maxSize, s)
        invariant expired == log + Reversed(s[|li|..])
        decreases |li|
      {
        var back := li[|li| - 1];
        EvictBack(sizeCal, maxSize, s, li);
        IndexesAt(m, li, |li| - 1);
        LogAppend(expired, log, Reversed(s[|li|..]), back);
        RemoveUnlock(back.key);
      }
      KeepCountStop(sizeCal, maxSize, li);
    }
  }
}
