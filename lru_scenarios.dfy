/**
 * Concrete scenarios of the cache, after the tests in lru_test.go: Get2, Put,
 * AllKeys, Callback, RemoveAll, RemoveIf and LeastRecentlyUsed.  Each method
 * builds a cache, drives it through the operations of one test and promises,
 * in its ensures, what that test expects to observe.
 */
module LruScenarios {
  import opened LruSpec
  import opened Lru

  /** A second Put on the same key replaces the value that Get reads. */
  method PutTwiceGetsLatest() returns (value: Option<int>)
    ensures value == Some(6)
  {
    var c := new Cache<string, int>.New(5, None);
    c.Put("abc", 5);
    UnitKeepCount(c.sizeCal, 5, [Entry("abc", 5)]);
    c.Put("abc", 6);
    assert c.li == [Entry("abc", 6)] by {
      assert Pushed([Entry("abc", 5)], "abc", 6) == [Entry("abc", 6)];
      UnitKeepCount(c.sizeCal, 5, [Entry("abc", 6)]);
    }
    value := c.Get("abc");
  }

  /**
   * With maxSize 0 every Put evicts what it inserted: the expire callback
   * receives the new pair at once and the cache is left empty.
   */
  method ZeroCapacityEvictsAtOnce() returns (c: Cache<int, int>)
    ensures c.Valid() && c.expired == [Entry(1, 7)] && c.Number() == 0
  {
    c := new Cache<int, int>.New(0, None);
    c.Put(1, 7);
    ghost var pushed := [Entry(1, 7)];
    assert Pushed([], 1, 7) == pushed;
    UnitKeepCount(c.sizeCal, 0, pushed);
    assert pushed[0..] == pushed;
    assert Reversed(pushed) == Reversed(pushed[1..]) + [pushed[0]];
  }

  /** Put(1, 2) then Put(3, 4) on an empty cache of capacity 10: key 3 in front, key 1 behind it. */
  method TwoPuts() returns (c: Cache<int, int>)
    ensures fresh(c) && c.Valid() && c.li == [Entry(3, 4), Entry(1, 2)]
  {
    c := new Cache<int, int>.New(10, None);
    c.Put(1, 2);
    UnitKeepCount(c.sizeCal, 10, [Entry(1, 2)]);
    c.Put(3, 4);
    WithoutAbsent([Entry(1, 2)], 3);
    UnitKeepCount(c.sizeCal, 10, [Entry(3, 4), Entry(1, 2)]);
  }

  /** Get(1) on that cache reads 2 and moves key 1 to the front. */
  method GetBack(c: Cache<int, int>) returns (value: Option<int>)
    requires c.Valid() && c.li == [Entry(3, 4), Entry(1, 2)]
    modifies c
    ensures c.Valid() && value == Some(2) && c.li == [Entry(1, 2), Entry(3, 4)]
  {
    ghost var s := c.li;
    LookupAt(s, 1);
    WithoutAt(s, 1);
    assert Lookup(s, 1) == Some(2) && Without(s, 1) == [Entry(3, 4)];
    value := c.Get(1);
  }

  /**
   * After Put(1, 2) and Put(3, 4) key 1 is the least recently used; a Get of
   * key 1 promotes it, which leaves key 3 at the back.
   */
  method GetPromotesFromBack() returns (before: Option<Entry<int, int>>, after: Option<Entry<int, int>>)
    ensures before == Some(Entry(1, 2)) && after == Some(Entry(3, 4))
  {
    var c := TwoPuts();
    before := c.LeastRecentlyUsed();
    var v := GetBack(c);
    after := c.LeastRecentlyUsed();
  }

  /**
   * The list left by Put(i, 10 * i) for i = 0, 1, ... , hi - 1 when the keys
   * lo .. hi - 1 are the ones still resident: the newest key first.
   */
  function Recent(lo: int, hi: int): (r: seq<Entry<int, int>>)
    requires lo <= hi
    ensures |r| == hi - lo
    ensures forall j :: 0 <= j < |r| ==> r[j] == Entry(hi - 1 - j, 10 * (hi - 1 - j))
    decreases hi - lo
  {
    if lo == hi then [] else [Entry(hi - 1, 10 * (hi - 1))] + Recent(lo, hi - 1)
  }

  /** The keys of the ten-entry list, newest first. */
  lemma TenKeys()
    ensures KeysOf(Recent(0, 10)) == [9, 8, 7, 6, 5, 4, 3, 2, 1, 0]
  {
    var ks := KeysOf(Recent(0, 10));
    assert |ks| == 10;
    assert ks[0] == 9 && ks[1] == 8 && ks[2] == 7 && ks[3] == 6 && ks[4] == 5;
    assert ks[5] == 4 && ks[6] == 3 && ks[7] == 2 && ks[8] == 1 && ks[9] == 0;
  }

  /** The oldest key still resident after Puts of the keys 0 .. i - 1 with unit costs. */
  function Oldest(maxSize: int, i: nat): (lo: nat)
    ensures lo <= i
    ensures maxSize <= 0 ==> lo == i
    ensures maxSize > 0 ==> i - lo == if i <= maxSize then i else maxSize
  {
    if maxSize <= 0 then i else if i - maxSize > 0 then i - maxSize else 0
  }

  /** One more Put(i, 10 * i) adds key i in front and evicts the oldest key once capacity is reached. */
  lemma PutNext(cost: (int, int) -> nat, maxSize: int, i: nat)
    requires forall k, v :: cost(k, v) == 1
    ensures var p := Pushed(Recent(Oldest(maxSize, i), i), i, 10 * i);
      p[..KeepCount(cost, maxSize, p)] == Recent(Oldest(maxSize, i + 1), i + 1)
  {
    var lo := Oldest(maxSize, i);
    var s := Recent(lo, i);
    assert forall j :: 0 <= j < |s| ==> s[j].key != i;
    assert i !in KeySet(s);
    WithoutAbsent(s, i);
    var p := Pushed(s, i, 10 * i);
    assert p == Recent(lo, i + 1);
    UnitKeepCount(cost, maxSize, p);
    var n := KeepCount(cost, maxSize, p);
    assert p[..n] == Recent(i + 1 - n, i + 1);
  }

  /** A cache of the given capacity and unit costs after Put(i, 10 * i) for i = 0 .. count - 1. */
  method PutKeys(maxSize: int, count: nat) returns (c: Cache<int, int>)
    ensures fresh(c) && c.Valid() && c.maxSize == maxSize
    ensures forall k, v :: c.sizeCal(k, v) == 1
    ensures c.li == Recent(Oldest(maxSize, count), count)
  {
    c := new Cache<int, int>.New(maxSize, None);
    var i := 0;
    while i < count
      invariant 0 <= i <= count
      invariant c.Valid() && c.li == Recent(Oldest(maxSize, i), i)
    {
      PutNext(c.sizeCal, maxSize, i);
      c.Put(i, 10 * i);
      i := i + 1;
    }
  }

  /**
   * Ten Puts into a cache of capacity 5 leave the five newest keys, newest
   * first, and size 5.
   */
  method TenPutsKeepNewestFive() returns (keys: seq<int>, size: int)
    ensures keys == [9, 8, 7, 6, 5] && size == 5
  {
    var c := PutKeys(5, 10);
    keys := c.AllKeys();
    size := c.Size();
    UnitSize(c.sizeCal, c.li);
  }

  /** Under the default size function the size of any list is its length. */
  lemma UnitSize(cost: (int, int) -> nat, s: seq<Entry<int, int>>)
    requires forall k, v :: cost(k, v) == 1
    ensures Total(cost, s) == |s|
  {
    forall i | 0 <= i < |s| ensures cost(s[i].key, s[i].value) == 1 {
      var k, v := s[i].key, s[i].value;
      assert cost(k, v) == 1;
    }
    UnitTotal(cost, s);
  }

  /** The predicate of the RemoveIf test; keys here are never negative, so Go's % agrees with Dafny's. */
  function IsOdd(k: int): bool
  {
    k % 2 != 0
  }

  /** Filtering a list with a new entry in front: the entry, if kept, stays in front. */
  lemma KeptCons(remove: int -> bool, x: Entry<int, int>, t: seq<Entry<int, int>>)
    ensures Kept(remove, [x] + t) == (if remove(x.key) then [] else [x]) + Kept(remove, t)
  {
    assert ([x] + t)[1..] == t;
  }

  /** Filtering the odd keys out of the ten-entry list keeps the even ones in order. */
  lemma KeepEvenKeys()
    ensures Kept(IsOdd, Recent(0, 10)) ==
      [Entry(8, 80), Entry(6, 60), Entry(4, 40), Entry(2, 20), Entry(0, 0)]
  {
    forall h | 1 <= h <= 10
      ensures Kept(IsOdd, Recent(0, h)) ==
        (if IsOdd(h - 1) then [] else [Entry(h - 1, 10 * (h - 1))]) + Kept(IsOdd, Recent(0, h - 1))
    {
      KeptCons(IsOdd, Entry(h - 1, 10 * (h - 1)), Recent(0, h - 1));
    }
    assert Kept(IsOdd, Recent(0, 0)) == [];
    assert Kept(IsOdd, Recent(0, 2)) == [Entry(0, 0)];
    assert Kept(IsOdd, Recent(0, 4)) == [Entry(2, 20), Entry(0, 0)];
    assert Kept(IsOdd, Recent(0, 6)) == [Entry(4, 40), Entry(2, 20), Entry(0, 0)];
    assert Kept(IsOdd, Recent(0, 8)) == [Entry(6, 60), Entry(4, 40), Entry(2, 20), Entry(0, 0)];
  }

  /** The keys left by the RemoveIf test, newest first. */
  lemma EvenKeys()
    ensures KeysOf([Entry(8, 80), Entry(6, 60), Entry(4, 40), Entry(2, 20), Entry(0, 0)]) == [8, 6, 4, 2, 0]
  {
    var ks := KeysOf([Entry(8, 80), Entry(6, 60), Entry(4, 40), Entry(2, 20), Entry(0, 0)]);
    assert |ks| == 5 && ks[0] == 8 && ks[1] == 6 && ks[2] == 4 && ks[3] == 2 && ks[4] == 0;
  }

  /**
   * Ten Puts into a cache of capacity 10 keep all keys, 9 down to 0, with
   * size 10; RemoveIf of the odd keys leaves 8, 6, 4, 2, 0 in that order,
   * with size 5.
   */
  method RemoveOddKeys() returns (before: seq<int>, sizeBefore: int, after: seq<int>, sizeAfter: int)
    ensures before == [9, 8, 7, 6, 5, 4, 3, 2, 1, 0] && sizeBefore == 10
    ensures after == [8, 6, 4, 2, 0] && sizeAfter == 5
  {
    var c := PutKeys(10, 10);
    assert c.li == Recent(0, 10);
    TenKeys();
    before := c.AllKeys();
    sizeBefore := c.Size();
    UnitSize(c.sizeCal, c.li);
    KeepEvenKeys();
    c.RemoveIf(IsOdd);
    ghost var evens := [Entry(8, 80), Entry(6, 60), Entry(4, 40), Entry(2, 20), Entry(0, 0)];
    assert c.li == evens;
    EvenKeys();
    after := c.AllKeys();
    sizeAfter := c.Size();
    UnitSize(c.sizeCal, c.li);
  }

  /** RemoveAll after ten Puts leaves size 0 and no entries. */
  method RemoveAllResets() returns (size: int, number: int)
    ensures size == 0 && number == 0
  {
    var c := PutKeys(5, 10);
    c.RemoveAll();
    size := c.Size();
    number := c.Number();
  }
}
