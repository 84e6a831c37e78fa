# A verified model of a size-bounded LRU cache

This project models the generic LRU cache of `lru.go` in Dafny. The cache keeps:

- a recency list (front = most recently used);
- a key index from key to list element;
- a running size, which is the sum of a pluggable cost function `sizeCal` over the resident entries.

After every Put, whether it inserts a new key or updates an existing one, an eviction loop drops entries from the back while the size exceeds `maxSize`. An update that raises an entry's cost can therefore evict other entries. Every entry that leaves the cache is handed to an expire callback.

The project has three modules:

- `LruSpec` (`lru_spec.dfy`) holds the value-level definitions and the lemmas about them:
  - the entry datatype;
  - `Distinct`, `KeySet`, `Total`, `Lookup`, `Without`, `MoveToFront` and `Pushed` (the list after an insert-or-update);
  - `KeepCount` (how long a prefix the eviction loop keeps);
  - `Kept` and `Dropped` (the two halves of a conditional removal).
- `Lru` (`lru.dfy`) holds `class Cache`:
  - the recency list `li` is a `seq<Entry<K, V>>` field and the key index `m` is a `map` field; both are updated in place by the methods;
  - `curSize` is a mutable field, while `maxSize` and `sizeCal` are constants;
  - the calls to the expire callback are recorded in a ghost log, `expired`;
  - `Valid()` is the structural invariant the source relies on: the index's keys are exactly the list's keys, the list's keys are pairwise distinct, each key maps to its own list entry, and `curSize` is the sum of the costs;
  - every method preserves `Valid()` and states its new state in terms of the `LruSpec` functions.
- `LruScenarios` (`lru_scenarios.dfy`) drives the class through seven of the tests in `lru_test.go`: Get2, Put, AllKeys, Callback, RemoveAll, RemoveIf and LeastRecentlyUsed. Each scenario's ensures states what the test checks. Get1 and Put2 are covered by the lemmas `LruSpec.FrontSurvivesPut` and `LruSpec.CapacityBound` instead of by a replay.

## Model

| member | source | states |
|---|---|---|
| Lru.Cache.New | lru.go:27-42 | The new cache is empty: list, index, size and log are all empty, and `Valid()` holds. A missing size function is replaced by one that charges 1 per entry. |
| Lru.Cache.Put | lru.go:44-59 | The list becomes the key's new entry in front of the old list minus that key, cut to the longest prefix the eviction loop keeps. The cut-off suffix is logged to the callback back to front, each entry once. The invariant is preserved. Afterwards the size is at most `maxSize` or the cache is empty, so with `maxSize >= 0` the bound always holds. |
| Lru.Cache.Get | lru.go:61-70 | A miss (`None`) leaves the list unchanged. A hit returns the stored value and moves that entry to the front, with every other entry kept in its relative order. The index, size and callback log are unchanged either way. |
| Lru.Cache.LeastRecentlyUsed | lru.go:74-84 | Returns `None` exactly when the cache is empty. Otherwise it returns the back entry of the list, which is the index's entry for its key. |
| Lru.Cache.AllKeys | lru.go:87-100 | Returns the keys of the list front to back. A key occurs in the result iff it is in the index. |
| Lru.Cache.Scan | lru.go:104-116 | The entries handed to the consumer are a prefix of the list, and the consumer accepted all of them but the last. If the walk stopped before the back, the consumer refused the last one. The list is not changed. |
| Lru.Cache.Remove | lru.go:118-122 | For a present key: the key leaves both index and list, its cost is subtracted and one callback is logged with its entry. For an absent key: list, size and log are unchanged. |
| Lru.Cache.RemoveUnlock | lru.go:141-149 | Same contract as `Remove`. It is proved with the loop-free removal at the key's list position. |
| Lru.Cache.RemoveIf | lru.go:125-139 | The list becomes the original list filtered to the entries the predicate keeps, in the same order. The removed entries are logged in list order. The size drops by their total cost. |
| Lru.Cache.RemoveAll | lru.go:151-160 | List and index end empty and the size ends at 0. The log grows by exactly one call per previously resident entry, as a multiset, with the earlier log kept as a prefix. |
| Lru.Cache.Size | lru.go:163-165 | The counter equals the sum of costs of the resident entries and is never negative. |
| Lru.Cache.Number | lru.go:168-170 | The count equals both the list length and the number of keys in the index. |
| Lru.Cache.ExpireUnlock | lru.go:172-177 | The loop keeps exactly the `KeepCount` prefix of the list. The dropped suffix is logged back to front. The invariant is preserved. |
| LruSpec.Lookup | lru.go:64-69 | The lookup fails iff the key is not in the list. When it succeeds, the list holds that key with the returned value. |
| LruSpec.Position | lru.go:64 | The index of the first entry holding the key. It stands for the list element the index points to. |
| LruSpec.KeepCount | lru.go:173 | The number of front entries the eviction loop keeps, never more than the list length. `KeepCountLongest` characterises it as the longest prefix whose total cost fits in `maxSize`. |
| LruSpec.KeepCountLongest | lru.go:173 | The eviction loop's stopping point is the longest prefix that fits. The kept prefix is within `maxSize` (or empty), and every longer prefix exceeds it. |
| LruSpec.EvictBack | lru.go:173-176 | One loop step removes the back entry. That leaves the next shorter prefix with the same final stopping point, and extends the back-to-front log by that entry. |
| LruSpec.KeepCountStop | lru.go:173 | When the loop condition is false, the whole list is kept. |
| LruSpec.CapacityBound | lru.go:172-177 | What eviction keeps has total cost at most `maxSize`, or is empty. With `maxSize >= 0` it is always within `maxSize`. |
| LruSpec.UnitKeepCount | lru.go:31-33 | For any list whose entries each cost 1 (`UnitCosts`), as under the default size function, one eviction pass keeps exactly the `maxSize` most recent entries, or all of them when fewer, and none when `maxSize <= 0`. The ten-Put consequence is `LruScenarios.TenPutsKeepNewestFive`. |
| LruSpec.UnitTotal | lru.go:31-33 | For any list whose entries each cost 1 (`UnitCosts`), as under the default size function, the total cost equals the number of entries. |
| LruSpec.FrontSurvivesPut | lru_test.go:108-125 | An entry at the front is not evicted by a Put of another key when the two together fit in `maxSize`. This is the property that keeps key 100 resident in that test. |
| LruSpec.Pushed | lru.go:47-57 | The list after an insert-or-update, before eviction: it is non-empty and its front is the new entry. `PushedAt` identifies it with the source's in-place update plus move-to-front for a present key; `PushedLookup`, `PushedCount` and `PushedTotal` give its lookups, length and cost. |
| LruSpec.PushedLookup | lru_test.go:18-26 | After an insert-or-update, a lookup of the key yields the new value. Lookups of other keys are unchanged. |
| LruSpec.PutReadsNewValue | lru.go:44-59 | After Put(k, v) and its eviction, a lookup of k yields v whenever the new entry alone fits in `maxSize`. This is the "a later Get returns the new value" promise of the update branch. |
| LruSpec.PushedCount | lru.go:47-57 | An insert-or-update keeps keys distinct. It leaves the entry count unchanged for a present key and adds one for a new key. |
| LruSpec.PushedTotal | lru.go:49-56 | An insert-or-update changes the total cost by the new entry's cost, minus the replaced entry's cost if the key was present. |
| LruSpec.PushedAt | lru.go:48-52 | Replacing the value in place and moving that element to the front gives the same list as the insert-or-update. |
| LruSpec.PushedInvariant | lru.go:44-57 | Before eviction, Put re-establishes the index/list correspondence, and the new size equals the new total cost. |
| LruSpec.IndexesPushed | lru.go:53-55 | Registering the pushed entry in the index keeps index and list in correspondence. |
| LruSpec.IndexesRemoved | lru.go:141-147 | Deleting a key from both index and list keeps them in correspondence. |
| LruSpec.IndexesMoved | lru.go:68 | Moving an element to the front keeps index and list in correspondence. |
| LruSpec.IndexesCount | lru.go:168-170 | When index and list correspond, the index has as many keys as the list has entries. |
| LruSpec.IndexesLookup | lru.go:64-69 | A key is in the index iff the list lookup succeeds, and the index's entry carries the value the lookup finds. |
| LruSpec.LookupAt | lru.go:64-69 | In a list of distinct keys, the lookup of the key at position i yields the value at position i. |
| LruSpec.KeyCount | lru.go:168-170 | A list of distinct keys has as many keys as entries. |
| LruSpec.MoveToFront | lru.go:68 | The list after `li.MoveToFront` of the element at position i (also used by Put at lru.go:52): same length, that element in front. `MoveToFrontPromotes` characterises the rest as the list without that key, in order. |
| LruSpec.MoveToFrontPromotes | lru.go:68 | Moving the element at i to the front gives that element followed by the list without its key, with all others in their order. |
| LruSpec.MoveToFrontDistinct | lru.go:68 | Moving an element to the front keeps the keys distinct. |
| LruSpec.MoveToFrontMultiset | lru.go:68 | Moving an element to the front is a permutation of the list. |
| LruSpec.TotalPermutation | lru.go:68 | Moving an element to the front does not change the total cost. |
| LruSpec.PromotedIsNotBack | lru_test.go:186-204 | In a list of two or more entries, the promoted key is no longer at the back. |
| LruSpec.Without | lru.go:142-145 | The list after deleting a key: never longer than before. `WithoutAt` characterises it as the list minus exactly the element at the key's position; `WithoutAbsent` covers the absent key. |
| LruSpec.WithoutAt | lru.go:145 | Removing a key from a list of distinct keys removes exactly the element at its position. |
| LruSpec.WithoutAbsent | lru.go:142-143 | Removing an absent key leaves the list unchanged. |
| LruSpec.WithoutDistinct | lru.go:141-149 | Removal keeps the keys distinct. |
| LruSpec.WithoutLookup | lru.go:141-149 | Removing one key does not change the lookup of any other key. |
| LruSpec.KeySetWithout | lru.go:144-145 | The keys of the list after removal are the old keys minus the removed one. |
| LruSpec.WithoutMultiset | lru.go:145 | Removing the key at position j takes exactly that one entry out of the multiset of entries. |
| LruSpec.TotalRemoveAt | lru.go:146 | Removing the element at i lowers the total cost by that element's cost. |
| LruSpec.Total | lru.go:20 | The sum of `sizeCal` over a list, which `curSize` tracks. `TotalAppend` characterises it as additive over concatenation. |
| LruSpec.TotalAppend | lru.go:20 | The total cost of two concatenated lists is the sum of their totals. |
| LruSpec.WithoutIsKept | lru.go:118-139 | Removing one key is conditional removal with the predicate "equals that key". |
| LruSpec.CursorStep | lru.go:129-138 | When the visited survivors are followed by the unvisited entries, the cursor position holds the next unvisited entry. Removing that entry's key gives the survivors followed by the rest, so the slot after a removal stands for the pre-captured `next`. |
| LruSpec.RemoveIfStep | lru.go:131-138 | One step of conditional removal adds the visited entry to the survivors or to the removed entries, according to the predicate. |
| LruSpec.Kept | lru.go:129-138 | The entries conditional removal leaves in the list, in order, never more than the list holds. `RemoveIfStep` characterises it step by step and `KeptSelects` states that no survivor is selected. |
| LruSpec.Dropped | lru.go:129-138 | The entries conditional removal takes out, in list order, never more than the list holds. `RemoveIfStep` characterises it step by step and `KeptSelects` states that every removed entry is selected. |
| LruSpec.KeptSelects | lru.go:133-135 | Every survivor's key is one the predicate refuses, and every removed entry's key one it accepts. |
| LruSpec.KeptAppend | lru.go:125-139 | Filtering distributes over concatenation. |
| LruSpec.DroppedAppend | lru.go:125-139 | Collecting the removed entries distributes over concatenation. |
| LruSpec.KeptDroppedPartition | lru.go:125-139 | The survivors and the removed entries together are exactly the original entries, as a multiset and by count. |
| LruSpec.KeptDroppedTotal | lru.go:125-139 | The cost of the survivors plus the cost of the removed entries is the original total. |
| LruSpec.Reversed | lru.go:174-175 | The order in which the eviction loop logs a dropped suffix: back to front, same length. `ReversedAt` and `ReversedMultiset` characterise it. |
| LruSpec.ReversedAt | lru.go:174-175 | The j-th entry logged is the j-th entry from the back of the dropped suffix. |
| LruSpec.ReversedMultiset | lru.go:172-177 | The back-to-front log of an evicted suffix holds each of its entries exactly once. |
| LruSpec.ReportedStep | lru.go:154-156 | One iteration over the index reports a not-yet-reported resident entry and keeps the loop's bookkeeping. |
| LruSpec.ReportedAll | lru.go:151-160 | Once every key has been visited, the reported entries are exactly the list's entries as a multiset, one call each. |
| LruSpec.SameEntriesSameMultiset | lru.go:154-156 | Two lists with distinct keys and the same members are equal as multisets. |
| LruScenarios.PutTwiceGetsLatest | lru_test.go:18-26 | Put("abc", 5), Put("abc", 6), then Get("abc") yields 6. |
| LruScenarios.ZeroCapacityEvictsAtOnce | lru_test.go:69-76 | With `maxSize` 0, Put(1, 7) hands (1, 7) to the callback once and leaves the cache empty. |
| LruScenarios.TwoPuts | lru_test.go:186-189 | Put(1, 2) then Put(3, 4) leaves key 3 in front and key 1 at the back. |
| LruScenarios.GetBack | lru_test.go:197 | On that cache, Get(1) yields 2 and moves key 1 to the front. |
| LruScenarios.GetPromotesFromBack | lru_test.go:186-204 | The least recently used entry is (1, 2) before Get(1) and (3, 4) after it. |
| LruScenarios.UnitSize | lru.go:31-33 | Under the default size function, which charges 1 for every key and value, the size of any integer-keyed list is its length. |
| LruScenarios.Recent | lru_test.go:80-82 | The list left by Put(i, 10 * i) for i = 0 .. hi - 1, with keys lo .. hi - 1 resident, in closed form. It has hi - lo entries, and entry j is (hi - 1 - j, 10 * (hi - 1 - j)). |
| LruScenarios.Oldest | lru_test.go:30-32 | The oldest resident key after Puts of keys 0 .. i - 1 with unit costs. It is i when `maxSize <= 0`; otherwise min(i, maxSize) keys stay resident. |
| LruScenarios.PutNext | lru.go:44-59 | One more Put(i, 10 * i) turns `Recent(Oldest(maxSize, i), i)` into `Recent(Oldest(maxSize, i + 1), i + 1)`. |
| LruScenarios.PutKeys | lru_test.go:80-82 | The loop of Puts leaves the list `Recent(Oldest(maxSize, count), count)` with the invariant intact. |
| LruScenarios.TenPutsKeepNewestFive | lru_test.go:28-36 | Ten Puts into capacity 5 leave keys 9, 8, 7, 6, 5 in that order, and size 5. This also covers the AllKeys test (lru_test.go:78-92), which checks the same keys after sorting. |
| LruScenarios.KeptCons | lru.go:131-138 | Filtering a list with an entry in front keeps that entry in front exactly when the predicate does not select it. |
| LruScenarios.KeepEvenKeys | lru_test.go:170-172 | Removing the odd keys from the list 9 .. 0 leaves the entries for 8, 6, 4, 2, 0 in that order. |
| LruScenarios.TenKeys | lru_test.go:159-165 | The keys after ten Puts into capacity 10 are 9 down to 0. |
| LruScenarios.EvenKeys | lru_test.go:174-180 | The keys of the filtered list are 8, 6, 4, 2, 0. |
| LruScenarios.RemoveOddKeys | lru_test.go:153-184 | Before RemoveIf the keys are 9 .. 0 with size 10. After removing the odd keys they are 8, 6, 4, 2, 0 with size 5. |
| LruScenarios.RemoveAllResets | lru_test.go:94-106 | After ten Puts, RemoveAll leaves size 0 and no entries. |

## Left out

- Locking: the `sync.RWMutex` is not modelled. Each method is treated as atomic, so the unlocked read of `curSize` in `Size` (lru.go:163-165) and any data race are outside this sequential model.
- Integer width: `curSize` and the costs are unbounded integers, so 64-bit overflow of the running size is not modelled.
- Cost function: `sizeCal` has type `(K, V) -> nat`, which matches its documented range of non-negative weights and makes it pure and deterministic. Negative costs would still keep `curSize` equal to the sum of the costs, because lru.go only adds and subtracts the same `sizeCal` values. They would only break `Lru.Cache.Size`'s `size >= 0`. A cost function that returns different values for the same pair would break the size invariant; the function type rules that out.
- Expire callback: only the calls are recorded, as (key, value) pairs in the ghost log `expired`. The callback's side effects are not modelled, such as a caller mutating a shared slice through it. A nil callback is a no-op, so `New` takes no callback parameter.
- Lru.Cache.LeastRecentlyUsed: returns a copy of the back entry, not a pointer into the list. Aliasing through the returned `*Entry` is not modelled. The empty case is `None` rather than `(nil, false)`.
- Lru.Cache.Get: the miss result is `None` rather than the zero value of V with `false`.
- Lru.Cache.RemoveIf: the predicate is a pure function `K -> bool`. Its side effects are not modelled, and neither is a predicate that calls back into the cache (in the source that would deadlock on the held lock).
- Lru.Cache.Scan: the consumer is a pure function. Its side effects are not modelled. Instead, the method returns the sequence of entries the consumer was called with.
- Lru.Cache.RemoveAll: the callbacks run in the map's unspecified iteration order, so the contract states them as a multiset, not as a sequence.
- Tests not replayed as scenarios:
  - TestCache_Get: its first half is the first two steps of `LruScenarios.PutTwiceGetsLatest`.
  - TestCache_Put2 and TestCache_Put3: a hundred Puts with a size function over slice lengths. Their bound follows from `Lru.Cache.Put` and `LruSpec.CapacityBound`, and Put3's return to size 0 follows from `Lru.Cache.Remove`.
  - TestCache_Get1: its promise is `LruSpec.FrontSurvivesPut`.
  - TestCache_Scan: it interleaves Gets with Puts; its visiting order follows from `Lru.Cache.Scan`, `Lru.Cache.Get` and `Lru.Cache.Put`, but it is not replayed.
- Lru.Cache.ExpireUnlock: keys are assumed to equal themselves. Dafny's `==` is reflexive, but Go's `comparable` also admits `float64` keys, or interfaces holding one, where NaN != NaN. In the source, a NaN key is never found by `c.m[key]` (lru.go:47, 64, 142):
  - `Put(NaN, v)` pushes a new element every time and adds a map entry that cannot be reached (lru.go:54-55);
  - `removeUnlock(NaN)` does nothing (lru.go:143);
  - once the back entry has a NaN key and `curSize > maxSize`, the loop at lru.go:173-176 removes nothing and never ends, while holding the write lock. For example, with `maxSize` 0 a single `Put(NaN, 1)` does this.

  The model's `Distinct`/`Indexes` invariant and the termination measure `|li|` rely on reflexive key equality, so this non-terminating case lies outside the model.
- List internals: `container/list` elements and their O(1) pointers are replaced by sequence positions, found by a linear search (`LruSpec.Position`). The cost of operations is not modelled.
