/**
 * The state of `InMemCache` (pkg/cache/inmemcache.go) seen as a value: the stored entries
 * oldest first, the `totalUsedCacheSize` counter and the logical clock that stands for
 * `time.Now()`. `putBits`, `evict` and `Get` are specified here as functions on that value;
 * the class in inmemcache.dfy is proved to follow them.
 */
module CacheSpec {
  import opened Basics
  import opened CacheErrors

  /** 2^64: `maxCacheSize` and `totalUsedCacheSize` are `uint64`. */
  const U64: nat := 0x1_0000_0000_0000_0000

  /**
   * `cacheEntry`: `cacheSize` is the length of `CacheData` and `lastTouched` a logical time.
   * `cacheTime` is written but never read, so it is not kept.
   */
  datatype Entry = Entry(cacheName: string, cacheKey: string, cacheData: Bytes, lastTouched: nat)
  {
    function Size(): nat { |cacheData| }

    predicate Is(name: string, key: string) {
      cacheName == name && cacheKey == key
    }
  }

  /** The entries, least recently touched first; the byte counter; the next logical time. */
  datatype Store = Store(order: seq<Entry>, total: nat, clock: nat)

  /** The bytes the entries occupy. */
  function Used(es: seq<Entry>): nat {
    if |es| == 0 then 0 else es[0].Size() + Used(es[1..])
  }

  lemma {:induction false} UsedAppend(a: seq<Entry>, b: seq<Entry>)
    ensures Used(a + b) == Used(a) + Used(b)
  {
    if |a| == 0 {
      assert a + b == b;
    } else {
      assert (a + b)[1..] == a[1..] + b;
      UsedAppend(a[1..], b);
    }
  }

  lemma UsedSplit(es: seq<Entry>, n: nat)
    requires n <= |es|
    ensures Used(es) == Used(es[..n]) + Used(es[n..])
  {
    assert es == es[..n] + es[n..];
    UsedAppend(es[..n], es[n..]);
  }

  /** Touch times strictly increase along the sequence. */
  predicate Ordered(es: seq<Entry>) {
    forall i, j | 0 <= i < j < |es| :: es[i].lastTouched < es[j].lastTouched
  }

  /** No (name, key) pair occurs twice. */
  predicate UniqueKeys(es: seq<Entry>) {
    forall i, j | 0 <= i < j < |es| :: !es[j].Is(es[i].cacheName, es[i].cacheKey)
  }

  /** The shape every reachable store has: ordered by touch time, one entry per key, all touched in the past. */
  predicate WellFormed(st: Store) {
    Ordered(st.order) && UniqueKeys(st.order) && forall e | e in st.order :: e.lastTouched < st.clock
  }

  /**
   * The counter bounds what is stored and, under a positive budget, the stored bytes stay
   * within the budget and the counter within twice of it; a zero budget never counts anything.
   */
  predicate Accounted(st: Store, max: nat) {
    Used(st.order) <= st.total &&
    (max > 0 ==> Used(st.order) <= max && st.total <= 2 * max) &&
    (max == 0 ==> st.total == 0)
  }

  /** `caches[name][key]`. */
  function Lookup(es: seq<Entry>, name: string, key: string): (r: Option<Entry>)
    ensures r.Some? ==> r.value in es && r.value.Is(name, key)
    ensures r.None? <==> forall e | e in es :: !e.Is(name, key)
  {
    if |es| == 0 then None
    else if es[0].Is(name, key) then Some(es[0])
    else
      assert forall e | e in es[1..] :: e in es;
      Lookup(es[1..], name, key)
  }

  /** The entries without the one stored under (name, key). */
  function Without(es: seq<Entry>, name: string, key: string): (r: seq<Entry>)
    ensures forall e :: e in r <==> e in es && !e.Is(name, key)
    ensures |r| <= |es|
  {
    if |es| == 0 then []
    else if es[0].Is(name, key) then Without(es[1..], name, key)
    else
      assert forall e | e in es :: e == es[0] || e in es[1..];
      [es[0]] + Without(es[1..], name, key)
  }

  /** `m[cacheKey] = x`: the entry replaces any entry under its key and is the most recently touched. */
  function Insert(es: seq<Entry>, x: Entry): seq<Entry> {
    Without(es, x.cacheName, x.cacheKey) + [x]
  }

  lemma {:induction false} LookupAppend(a: seq<Entry>, b: seq<Entry>, name: string, key: string)
    ensures Lookup(a + b, name, key) == if Lookup(a, name, key).Some? then Lookup(a, name, key) else Lookup(b, name, key)
  {
    if |a| == 0 {
      assert a + b == b;
    } else {
      assert (a + b)[1..] == a[1..] + b;
      LookupAppend(a[1..], b, name, key);
    }
  }

  lemma {:induction false} LookupWithout(es: seq<Entry>, name: string, key: string, n: string, k: string)
    ensures Lookup(Without(es, name, key), n, k) == if n == name && k == key then None else Lookup(es, n, k)
  {
    if |es| > 0 {
      LookupWithout(es[1..], name, key, n, k);
      if !es[0].Is(name, key) {
        var w := Without(es[1..], name, key);
        assert ([es[0]] + w)[1..] == w;
      }
    }
  }

  /** After an insert, the key finds the new entry and every other key finds what it found before. */
  lemma LookupInsert(es: seq<Entry>, x: Entry, n: string, k: string)
    ensures Lookup(Insert(es, x), n, k) == if x.Is(n, k) then Some(x) else Lookup(es, n, k)
  {
    LookupAppend(Without(es, x.cacheName, x.cacheKey), [x], n, k);
    LookupWithout(es, x.cacheName, x.cacheKey, n, k);
  }

  lemma {:induction false} WithoutKeepsShape(es: seq<Entry>, name: string, key: string)
    requires Ordered(es) && UniqueKeys(es)
    ensures Ordered(Without(es, name, key)) && UniqueKeys(Without(es, name, key))
  {
    if |es| > 0 {
      WithoutKeepsShape(es[1..], name, key);
      if !es[0].Is(name, key) {
        HeadBeforeTail(es);
        ConsKeepsShape(es[0], Without(es[1..], name, key));
      }
    }
  }

  /** Every entry of an ordered sequence is at least as late as its head. */
  lemma HeadFirst(sorted: seq<Entry>)
    requires Ordered(sorted) && |sorted| > 0
    ensures forall x | x in sorted[1..] :: sorted[0].lastTouched < x.lastTouched
  {
    forall x | x in sorted[1..] ensures sorted[0].lastTouched < x.lastTouched {
      var k :| 0 <= k < |sorted[1..]| && sorted[1..][k] == x;
      assert sorted[k + 1] == x;
    }
  }

  /** The head of an ordered sequence with one entry per key is older than, and keyed apart from, the rest. */
  lemma HeadBeforeTail(es: seq<Entry>)
    requires Ordered(es) && UniqueKeys(es) && |es| > 0
    ensures forall e | e in es[1..] :: es[0].lastTouched < e.lastTouched && !e.Is(es[0].cacheName, es[0].cacheKey)
  {
    HeadFirst(es);
    forall e | e in es[1..] ensures !e.Is(es[0].cacheName, es[0].cacheKey) {
      var k :| 0 <= k < |es[1..]| && es[1..][k] == e;
      assert es[k + 1] == e;
    }
  }

  /** An entry older than every entry of an ordered sequence can go in front. */
  lemma OrderedCons(h: Entry, t: seq<Entry>)
    requires Ordered(t) && forall x | x in t :: h.lastTouched < x.lastTouched
    ensures Ordered([h] + t)
  {
    var s := [h] + t;
    forall i, j | 0 <= i < j < |s| ensures s[i].lastTouched < s[j].lastTouched {
      assert s[j] == t[j - 1] && s[j] in t;
      if i > 0 {
        assert s[i] == t[i - 1];
      }
    }
  }

  /** An entry older than, and keyed apart from, an ordered sequence with one entry per key can go in front. */
  lemma ConsKeepsShape(h: Entry, t: seq<Entry>)
    requires Ordered(t) && UniqueKeys(t)
    requires forall e | e in t :: h.lastTouched < e.lastTouched && !e.Is(h.cacheName, h.cacheKey)
    ensures Ordered([h] + t) && UniqueKeys([h] + t)
  {
    OrderedCons(h, t);
    var s := [h] + t;
    forall i, j | 0 <= i < j < |s| ensures !s[j].Is(s[i].cacheName, s[i].cacheKey) {
      assert s[j] == t[j - 1] && s[j] in t;
      if i > 0 {
        assert s[i] == t[i - 1];
      }
    }
  }

  /** Removing a key frees exactly the size of the entry stored under it. */
  lemma {:induction false} UsedWithout(es: seq<Entry>, name: string, key: string)
    requires UniqueKeys(es)
    ensures Used(Without(es, name, key)) + (if Lookup(es, name, key).Some? then Lookup(es, name, key).value.Size() else 0)
            == Used(es)
  {
    if |es| > 0 {
      var rest := es[1..];
      assert UniqueKeys(rest) by {
        forall i, j | 0 <= i < j < |rest| ensures !rest[j].Is(rest[i].cacheName, rest[i].cacheKey) {
          assert rest[i] == es[i + 1] && rest[j] == es[j + 1];
        }
      }
      UsedWithout(rest, name, key);
      if es[0].Is(name, key) {
        forall e | e in rest ensures !e.Is(name, key) {
          var k :| 0 <= k < |rest| && rest[k] == e;
          assert es[k + 1] == e;
        }
      } else {
        var w := Without(rest, name, key);
        assert ([es[0]] + w)[1..] == w;
      }
    }
  }

  lemma InsertKeepsShape(es: seq<Entry>, x: Entry)
    requires Ordered(es) && UniqueKeys(es)
    requires forall e | e in es :: e.lastTouched < x.lastTouched
    ensures Ordered(Insert(es, x)) && UniqueKeys(Insert(es, x))
    ensures Used(Insert(es, x)) <= Used(es) + x.Size()
  {
    var w := Without(es, x.cacheName, x.cacheKey);
    WithoutKeepsShape(es, x.cacheName, x.cacheKey);
    UsedWithout(es, x.cacheName, x.cacheKey);
    UsedAppend(w, [x]);
    assert Used([x]) == x.Size();
    var r := w + [x];
    forall i, j | 0 <= i < j < |r|
      ensures r[i].lastTouched < r[j].lastTouched && !r[j].Is(r[i].cacheName, r[i].cacheKey)
    {
      assert r[i] == w[i] && r[i] in w;
      if j < |w| {
        assert r[j] == w[j];
      }
    }
  }

  /** A suffix of an ordered sequence is ordered. */
  lemma SuffixKeepsOrder(es: seq<Entry>, n: nat)
    requires n <= |es| && Ordered(es)
    ensures Ordered(es[n..])
  {
    var s := es[n..];
    forall i, j | 0 <= i < j < |s| ensures s[i].lastTouched < s[j].lastTouched {
      assert s[i] == es[n + i] && s[j] == es[n + j];
    }
  }

  lemma SuffixKeepsShape(es: seq<Entry>, n: nat)
    requires n <= |es| && Ordered(es) && UniqueKeys(es)
    ensures Ordered(es[n..]) && UniqueKeys(es[n..])
  {
    SuffixKeepsOrder(es, n);
    var s := es[n..];
    forall i, j | 0 <= i < j < |s| ensures !s[j].Is(s[i].cacheName, s[i].cacheKey) {
      assert s[i] == es[n + i] && s[j] == es[n + j];
    }
  }

  /**
   * How many of the oldest entries the loop in `evict` deletes before the bytes it has
   * freed reach `need`: it deletes before it compares, and stops at the end of the list.
   */
  function EvictCount(es: seq<Entry>, need: nat): (n: nat)
    ensures n <= |es|
  {
    if |es| == 0 then 0
    else if es[0].Size() >= need then 1
    else 1 + EvictCount(es[1..], need - es[0].Size())
  }

  /**
   * The eviction deletes the shortest non-empty prefix whose sizes reach `need`, or every
   * entry when no prefix does; it frees enough exactly when all entries together are enough.
   */
  lemma {:induction false} EvictCountShortest(es: seq<Entry>, need: nat)
    requires need > 0
    ensures |es| > 0 ==> EvictCount(es, need) >= 1
    ensures forall m | 0 <= m < EvictCount(es, need) :: Used(es[..m]) < need
    ensures EvictCount(es, need) < |es| ==> Used(es[..EvictCount(es, need)]) >= need
    ensures Used(es[..EvictCount(es, need)]) >= need <==> Used(es) >= need
  {
    if |es| > 0 {
      var s0 := es[0].Size();
      var rest := es[1..];
      UsedSplit(es, 1);
      assert Used(es[..1]) == s0 by {
        assert es[..1][1..] == [];
      }
      if s0 < need {
        EvictCountShortest(rest, need - s0);
        var n := EvictCount(es, need);
        forall m | 1 <= m <= n ensures Used(es[..m]) == s0 + Used(rest[..m - 1]) {
          assert es[..m][1..] == rest[..m - 1];
        }
        UsedSplit(rest, n - 1);
        UsedSplit(es, n);
        assert es[n..] == rest[n - 1..];
      }
    }
  }

  /** What `putBits` leaves: the new store and the `*CacheError` it returns. */
  datatype PutOutcome = PutOutcome(store: Store, err: Option<CacheError>)

  /** The counter after adding `size`, wrapping as `uint64` addition does. */
  function NewTotal(st: Store, size: nat): nat {
    (st.total + size) % U64
  }

  /** Whether `putBits` calls `evict`; a zero budget never evicts. */
  predicate MustEvict(st: Store, max: nat, size: nat) {
    max > 0 && NewTotal(st, size) > max
  }

  /**
   * `putBits`: reject a value larger than the whole budget; otherwise add its size to the
   * counter, evict the overflow when over a positive budget, and store the entry unless the
   * eviction fell short. Evicted entries are not subtracted from the counter, and deletions
   * of a failed eviction stay done.
   */
  function PutBits(st: Store, max: nat, name: string, key: string, bits: Bytes): PutOutcome {
    var x := Entry(name, key, bits, st.clock);
    var ticked := st.(clock := st.clock + 1);
    if |bits| > max then PutOutcome(ticked, Some(NewCacheError(ExceedsTotalCacheSize, None)))
    else
      var newTotal := NewTotal(st, |bits|);
      if MustEvict(st, max, |bits|) then
        var need: nat := newTotal - max;
        var n := EvictCount(st.order, need);
        if Used(st.order[..n]) < need then
          PutOutcome(ticked.(order := st.order[n..]), Some(NewCacheError(ObjectToLarge, None)))
        else
          PutOutcome(Store(Insert(st.order[n..], x), newTotal, st.clock + 1), None)
      else
        PutOutcome(Store(Insert(st.order, x), newTotal, st.clock + 1), None)
  }

  /**
   * The three outcomes of `putBits`: `ExceedsTotalCacheSize` exactly for a value larger
   * than the budget (a zero budget included), `ObjectToLarge` exactly when the eviction
   * cannot free the overflow even by deleting every entry, and success otherwise.
   */
  lemma PutBitsErrors(st: Store, max: nat, name: string, key: string, bits: Bytes)
    ensures var out := PutBits(st, max, name, key, bits);
      (out.err == Some(NewCacheError(ExceedsTotalCacheSize, None)) <==> |bits| > max) &&
      (out.err == Some(NewCacheError(ObjectToLarge, None)) <==>
         |bits| <= max && MustEvict(st, max, |bits|) && Used(st.order) < NewTotal(st, |bits|) - max) &&
      (out.err.None? <==>
         |bits| <= max && (!MustEvict(st, max, |bits|) || Used(st.order) >= NewTotal(st, |bits|) - max))
  {
    ProblemKindsDistinct();
    if |bits| <= max && MustEvict(st, max, |bits|) {
      EvictCountShortest(st.order, NewTotal(st, |bits|) - max);
    }
  }

  /** A rejected value changes neither the entries nor the counter, whatever the budget. */
  lemma PutBitsRejectsOversize(st: Store, max: nat, name: string, key: string, bits: Bytes)
    requires |bits| > max
    ensures PutBits(st, max, name, key, bits).store.order == st.order
    ensures PutBits(st, max, name, key, bits).store.total == st.total
  {
  }

  /**
   * Without an eviction, a stored value is found under its key with exactly the given
   * bytes, the counter grows by its length (mod 2^64), and every other key finds what it
   * found before.
   */
  lemma PutBitsWithoutEviction(st: Store, max: nat, name: string, key: string, bits: Bytes)
    requires |bits| <= max && !MustEvict(st, max, |bits|)
    ensures var out := PutBits(st, max, name, key, bits);
      out.err.None? &&
      Lookup(out.store.order, name, key) == Some(Entry(name, key, bits, st.clock)) &&
      out.store.total == (st.total + |bits|) % U64 &&
      forall n, k | !(n == name && k == key) :: Lookup(out.store.order, n, k) == Lookup(st.order, n, k)
  {
    var x := Entry(name, key, bits, st.clock);
    LookupInsert(st.order, x, name, key);
    forall n, k | !(n == name && k == key)
      ensures Lookup(PutBits(st, max, name, key, bits).store.order, n, k) == Lookup(st.order, n, k)
    {
      LookupInsert(st.order, x, n, k);
    }
  }

  /**
   * With an eviction, `putBits` deletes the `EvictCount` oldest entries (the shortest prefix
   * whose sizes reach the overflow, by `EvictCountShortest`), each older than every entry
   * kept; the kept entries are found as before, and the new entry is stored exactly when
   * the prefix reached the overflow.
   */
  lemma PutBitsEvictsOldestFirst(st: Store, max: nat, name: string, key: string, bits: Bytes)
    requires WellFormed(st)
    requires |bits| <= max && MustEvict(st, max, |bits|)
    ensures var out := PutBits(st, max, name, key, bits);
      var need := NewTotal(st, |bits|) - max;
      var n := EvictCount(st.order, need);
      (forall i, j | 0 <= i < n <= j < |st.order| :: st.order[i].lastTouched < st.order[j].lastTouched) &&
      (out.err.None? <==> Used(st.order[..n]) >= need) &&
      (forall n', k' | !(n' == name && k' == key) :: Lookup(out.store.order, n', k') == Lookup(st.order[n..], n', k')) &&
      (out.err.None? ==> Lookup(out.store.order, name, key) == Some(Entry(name, key, bits, st.clock))) &&
      (out.err.Some? ==> out.store.order == [])
  {
    var need := NewTotal(st, |bits|) - max;
    EvictCountShortest(st.order, need);
    var n := EvictCount(st.order, need);
    var kept := st.order[n..];
    var x := Entry(name, key, bits, st.clock);
    var out := PutBits(st, max, name, key, bits);
    forall i, j | 0 <= i < n <= j < |st.order| ensures st.order[i].lastTouched < st.order[j].lastTouched {
      assert Ordered(st.order);
    }
    if Used(st.order[..n]) >= need {
      assert out.store.order == Insert(kept, x);
      LookupInsert(kept, x, name, key);
      forall n', k' | !(n' == name && k' == key)
        ensures Lookup(out.store.order, n', k') == Lookup(kept, n', k')
      {
        LookupInsert(kept, x, n', k');
      }
    } else {
      assert n == |st.order|;
      assert out.store.order == kept;
    }
  }

  /**
   * Under a budget whose triple fits in 64 bits, every `putBits` keeps the store well formed
   * and accounted, and never lowers the counter.
   */
  lemma PutBitsKeepsAccounting(st: Store, max: nat, name: string, key: string, bits: Bytes)
    requires WellFormed(st) && Accounted(st, max) && 3 * max < U64
    ensures var out := PutBits(st, max, name, key, bits);
      WellFormed(out.store) && Accounted(out.store, max) && out.store.total >= st.total
  {
    PutBitsWellFormed(st, max, name, key, bits);
    if |bits| > max {
      assert PutBits(st, max, name, key, bits).store == st.(clock := st.clock + 1);
    } else if MustEvict(st, max, |bits|) {
      EvictingPutKeepsAccounting(st, max, name, key, bits);
    } else {
      PlainPutKeepsAccounting(st, max, name, key, bits);
    }
  }

  lemma PlainPutKeepsAccounting(st: Store, max: nat, name: string, key: string, bits: Bytes)
    requires WellFormed(st) && Accounted(st, max) && 3 * max < U64
    requires |bits| <= max && !MustEvict(st, max, |bits|)
    ensures var out := PutBits(st, max, name, key, bits);
      Accounted(out.store, max) && out.store.total >= st.total
  {
    var x := Entry(name, key, bits, st.clock);
    assert NewTotal(st, |bits|) == st.total + |bits|;
    assert PutBits(st, max, name, key, bits).store == Store(Insert(st.order, x), st.total + |bits|, st.clock + 1);
    InsertWellFormed(st.order, x, st.total + |bits|, st.clock + 1);
  }

  lemma EvictingPutKeepsAccounting(st: Store, max: nat, name: string, key: string, bits: Bytes)
    requires WellFormed(st) && Accounted(st, max) && 3 * max < U64
    requires |bits| <= max && MustEvict(st, max, |bits|)
    ensures var out := PutBits(st, max, name, key, bits);
      Accounted(out.store, max) && out.store.total >= st.total
  {
    var x := Entry(name, key, bits, st.clock);
    var newTotal := NewTotal(st, |bits|);
    var n := EvictCount(st.order, newTotal - max);
    var err := if Used(st.order[..n]) >= newTotal - max then None else Some(NewCacheError(ObjectToLarge, None));
    PutBitsCommitShape(st, max, x, newTotal, st.order[n..], err);
    EvictedAccounted(st, max, x, n, err.None?);
  }

  /** The stores an evicting `putBits` can leave are accounted, and keep at least the counter. */
  lemma EvictedAccounted(st: Store, max: nat, x: Entry, n: nat, stored: bool)
    requires WellFormed(st) && Accounted(st, max) && 3 * max < U64
    requires x.lastTouched == st.clock && x.Size() <= max && MustEvict(st, max, x.Size())
    requires n == EvictCount(st.order, NewTotal(st, x.Size()) - max)
    requires stored <==> Used(st.order[..n]) >= NewTotal(st, x.Size()) - max
    ensures var s := if stored then Store(Insert(st.order[n..], x), NewTotal(st, x.Size()), st.clock + 1)
                     else Store(st.order[n..], st.total, st.clock + 1);
      Accounted(s, max) && s.total >= st.total
  {
    var newTotal := st.total + x.Size();
    assert NewTotal(st, x.Size()) == newTotal;
    var kept := st.order[n..];
    UsedSplit(st.order, n);
    SuffixWellFormed(st, n, st.total, st.clock + 1);
    if stored {
      InsertWellFormed(kept, x, newTotal, st.clock + 1);
    } else {
      EvictCountShortest(st.order, newTotal - max);
    }
  }

  /** Storing an entry newer than all others, before a later clock, keeps a store well formed. */
  lemma InsertWellFormed(es: seq<Entry>, x: Entry, total: nat, clock: nat)
    requires Ordered(es) && UniqueKeys(es)
    requires (forall e | e in es :: e.lastTouched < x.lastTouched) && x.lastTouched < clock
    ensures WellFormed(Store(Insert(es, x), total, clock))
    ensures Used(Insert(es, x)) <= Used(es) + x.Size()
  {
    InsertKeepsShape(es, x);
    assert forall e | e in Insert(es, x) :: e == x || e in Without(es, x.cacheName, x.cacheKey);
  }

  /** The entries left after deleting the oldest ones form a well formed store, at any later clock. */
  lemma SuffixWellFormed(st: Store, n: nat, total: nat, clock: nat)
    requires WellFormed(st) && n <= |st.order| && st.clock <= clock
    ensures WellFormed(Store(st.order[n..], total, clock))
    ensures forall e | e in st.order[n..] :: e.lastTouched < st.clock
  {
    SuffixKeepsShape(st.order, n);
    assert forall e | e in st.order[n..] :: e in st.order;
  }

  /** Every `putBits` keeps the store well formed, whatever the budget. */
  lemma PutBitsWellFormed(st: Store, max: nat, name: string, key: string, bits: Bytes)
    requires WellFormed(st)
    ensures WellFormed(PutBits(st, max, name, key, bits).store)
  {
    if |bits| > max {
      assert PutBits(st, max, name, key, bits).store == st.(clock := st.clock + 1);
    } else if MustEvict(st, max, |bits|) {
      EvictingPutWellFormed(st, max, name, key, bits);
    } else {
      var x := Entry(name, key, bits, st.clock);
      var newTotal := NewTotal(st, |bits|);
      assert PutBits(st, max, name, key, bits).store == Store(Insert(st.order, x), newTotal, st.clock + 1);
      InsertWellFormed(st.order, x, newTotal, st.clock + 1);
    }
  }

  lemma EvictingPutWellFormed(st: Store, max: nat, name: string, key: string, bits: Bytes)
    requires WellFormed(st) && |bits| <= max && MustEvict(st, max, |bits|)
    ensures WellFormed(PutBits(st, max, name, key, bits).store)
  {
    var x := Entry(name, key, bits, st.clock);
    var newTotal := NewTotal(st, |bits|);
    var n := EvictCount(st.order, newTotal - max);
    var err := if Used(st.order[..n]) >= newTotal - max then None else Some(NewCacheError(ObjectToLarge, None));
    PutBitsCommitShape(st, max, x, newTotal, st.order[n..], err);
    SuffixWellFormed(st, n, st.total, st.clock + 1);
    if err.None? {
      InsertWellFormed(st.order[n..], x, newTotal, st.clock + 1);
    }
  }

  /**
   * `putBits` of a value within the budget, from what its locked part observes: `kept` and
   * `err` are the entries and the error `evict` leaves when the counter plus the size is over
   * a positive budget (all the entries and no error otherwise). The outcome is `kept` with the
   * entry stored unless the eviction failed, and it is well formed and accounted.
   */
  lemma PutBitsCommits(st: Store, max: nat, x: Entry, newTotal: nat, kept: seq<Entry>, err: Option<CacheError>)
    requires WellFormed(st) && (3 * max < U64 ==> Accounted(st, max))
    requires x.lastTouched == st.clock && x.Size() <= max
    requires newTotal == (st.total + x.Size()) % U64
    requires max > 0 && newTotal > max ==>
      kept == st.order[EvictCount(st.order, newTotal - max)..] &&
      (err.None? <==> Used(st.order[..EvictCount(st.order, newTotal - max)]) >= newTotal - max) &&
      (err.Some? ==> err == Some(NewCacheError(ObjectToLarge, None)))
    requires !(max > 0 && newTotal > max) ==> kept == st.order && err.None?
    ensures var s := if err.None? then Store(Insert(kept, x), newTotal, st.clock + 1) else Store(kept, st.total, st.clock + 1);
      PutBits(st, max, x.cacheName, x.cacheKey, x.cacheData) == PutOutcome(s, err) &&
      WellFormed(s) && (3 * max < U64 ==> Accounted(s, max))
  {
    PutBitsCommitShape(st, max, x, newTotal, kept, err);
    PutBitsWellFormed(st, max, x.cacheName, x.cacheKey, x.cacheData);
    if 3 * max < U64 {
      PutBitsKeepsAccounting(st, max, x.cacheName, x.cacheKey, x.cacheData);
    }
  }

  /** The outcome part of `PutBitsCommits`. */
  lemma PutBitsCommitShape(st: Store, max: nat, x: Entry, newTotal: nat, kept: seq<Entry>, err: Option<CacheError>)
    requires x.lastTouched == st.clock && x.Size() <= max
    requires newTotal == (st.total + x.Size()) % U64
    requires max > 0 && newTotal > max ==>
      kept == st.order[EvictCount(st.order, newTotal - max)..] &&
      (err.None? <==> Used(st.order[..EvictCount(st.order, newTotal - max)]) >= newTotal - max) &&
      (err.Some? ==> err == Some(NewCacheError(ObjectToLarge, None)))
    requires !(max > 0 && newTotal > max) ==> kept == st.order && err.None?
    ensures PutBits(st, max, x.cacheName, x.cacheKey, x.cacheData) ==
      PutOutcome(if err.None? then Store(Insert(kept, x), newTotal, st.clock + 1) else Store(kept, st.total, st.clock + 1), err)
  {
    assert x == Entry(x.cacheName, x.cacheKey, x.cacheData, st.clock);
    assert newTotal == NewTotal(st, x.Size());
    if !MustEvict(st, max, x.Size()) {
      assert st.order[0..] == st.order;
    }
  }

  /** What `Get` leaves: the new store and the stored bytes, if any. */
  datatype GetOutcome = GetOutcome(store: Store, data: Option<Bytes>)

  /** `touch`: the entry takes the current time and becomes the most recently touched. */
  function Touch(st: Store, e: Entry): Store {
    Store(Insert(st.order, e.(lastTouched := st.clock)), st.total, st.clock + 1)
  }

  /** `Get`: a miss changes nothing; a hit touches the entry and hands back its bytes. */
  function Get(st: Store, name: string, key: string): GetOutcome {
    match Lookup(st.order, name, key)
    case None => GetOutcome(st, None)
    case Some(e) => GetOutcome(Touch(st, e), Some(e.cacheData))
  }

  /** A miss returns nothing and changes nothing. */
  lemma GetMiss(st: Store, name: string, key: string)
    requires forall e | e in st.order :: !e.Is(name, key)
    ensures Get(st, name, key) == GetOutcome(st, None)
  {
  }

  /**
   * A hit returns the stored bytes and refreshes only that entry: it becomes the most
   * recently touched, every other key finds what it found before, and the shape, the
   * stored bytes and the counter are unchanged.
   */
  lemma GetHit(st: Store, name: string, key: string)
    requires WellFormed(st) && Lookup(st.order, name, key).Some?
    ensures var e := Lookup(st.order, name, key).value;
      var out := Get(st, name, key);
      out.data == Some(e.cacheData) &&
      Lookup(out.store.order, name, key) == Some(e.(lastTouched := st.clock)) &&
      out.store.order[|out.store.order| - 1] == e.(lastTouched := st.clock) &&
      (forall n, k | !(n == name && k == key) :: Lookup(out.store.order, n, k) == Lookup(st.order, n, k)) &&
      WellFormed(out.store) && Used(out.store.order) == Used(st.order) && out.store.total == st.total
  {
    var e := Lookup(st.order, name, key).value;
    var t := e.(lastTouched := st.clock);
    var out := Get(st, name, key);
    LookupInsert(st.order, t, name, key);
    forall n, k | !(n == name && k == key)
      ensures Lookup(out.store.order, n, k) == Lookup(st.order, n, k)
    {
      LookupInsert(st.order, t, n, k);
    }
    InsertKeepsShape(st.order, t);
    UsedWithout(st.order, name, key);
    UsedAppend(Without(st.order, name, key), [t]);
    assert Used([t]) == t.Size();
  }

  /** `Get` keeps every store invariant. */
  lemma GetKeepsAccounting(st: Store, max: nat, name: string, key: string)
    requires WellFormed(st) && Accounted(st, max)
    ensures WellFormed(Get(st, name, key).store) && Accounted(Get(st, name, key).store, max)
  {
    if Lookup(st.order, name, key).Some? {
      GetHit(st, name, key);
    }
  }

  /** A zero budget rejects every non-empty value, although a zero budget is meant to switch size checks off. */
  lemma ZeroBudgetRejectsNonEmpty(st: Store, name: string, key: string, bits: Bytes)
    ensures PutBits(st, 0, name, key, bits).err.Some? <==> |bits| > 0
    ensures |bits| > 0 ==> PutBits(st, 0, name, key, bits).store.order == st.order
  {
  }

  /**
   * Once every entry is gone and the counter has reached the budget, the store stays empty:
   * every non-empty value is refused and the counter is left where it was.
   */
  lemma EmptiedStoreLocksOut(st: Store, max: nat, name: string, key: string, bits: Bytes)
    requires st.order == [] && max > 0 && max <= st.total && st.total + |bits| < U64 && |bits| > 0
    ensures var out := PutBits(st, max, name, key, bits);
      out.err.Some? && out.store.order == [] && out.store.total == st.total
  {
    PutBitsErrors(st, max, name, key, bits);
    assert st.order[..0] == [];
  }

  /** A store whose entries hold zero bytes of the given sizes, touched at the given times. */
  function Zeroed(name: string, key: string, size: nat, time: nat): (e: Entry)
    ensures e.Size() == size && e.Is(name, key) && e.lastTouched == time
  {
    Entry(name, key, Zeros(size), time)
  }

  /**
   * Under a 10-byte budget, three 6-byte values in a row: the second evicts the first but
   * the counter keeps both, so the third, which fits the budget, empties the store and is
   * refused; from there on no non-empty value is ever stored.
   */
  lemma CounterLockoutExample()
    ensures var s1 := PutBits(Store([], 0, 0), 10, "n", "a", Zeros(6));
      var s2 := PutBits(s1.store, 10, "n", "b", Zeros(6));
      var s3 := PutBits(s2.store, 10, "n", "c", Zeros(6));
      s1.err.None? && s2.err.None? && s2.store.total == 12 && Used(s2.store.order) == 6 &&
      s3.err == Some(NewCacheError(ObjectToLarge, None)) && s3.store.order == [] && s3.store.total == 12
  {
    var a := Entry("n", "a", Zeros(6), 0);
    var b := Entry("n", "b", Zeros(6), 1);
    var s1 := PutBits(Store([], 0, 0), 10, "n", "a", Zeros(6));
    assert s1.store == Store([a], 6, 1);
    assert EvictCount([a], 2) == 1;
    assert [a][..1] == [a] && [a][1..] == [];
    assert Used([a]) == 6;
    var s2 := PutBits(s1.store, 10, "n", "b", Zeros(6));
    assert s2.store == Store([b], 12, 2);
    assert Used([b]) == 6;
    assert EvictCount([b], 8) == 1;
    assert [b][..1] == [b] && [b][1..] == [];
  }

  /**
   * `putBits` as evidently intended: a zero budget disables the size checks, and the counter
   * follows the stored bytes, releasing the size of a replaced entry and of evicted ones.
   */
  function PutBitsTracked(st: Store, max: nat, name: string, key: string, bits: Bytes): (out: PutOutcome)
    requires UniqueKeys(st.order) && st.total == Used(st.order)
    ensures out.store.total == Used(out.store.order)
  {
    if max > 0 && |bits| > max then PutOutcome(st.(clock := st.clock + 1), Some(NewCacheError(ExceedsTotalCacheSize, None)))
    else StoreTracked(Without(st.order, name, key), max, Entry(name, key, bits, st.clock))
  }

  /** The tracked store of `x` over the entries `base` that do not hold its key. */
  function StoreTracked(base: seq<Entry>, max: nat, x: Entry): (out: PutOutcome)
    ensures out.store.total == Used(out.store.order)
  {
    var newTotal := Used(base) + x.Size();
    UsedAppend(base, [x]);
    assert Used([x]) == x.Size();
    if max > 0 && newTotal > max then
      var need: nat := newTotal - max;
      var n := EvictCount(base, need);
      UsedSplit(base, n);
      UsedAppend(base[n..], [x]);
      if Used(base[..n]) < need then
        PutOutcome(Store(base[n..], Used(base[n..]), x.lastTouched + 1), Some(NewCacheError(ObjectToLarge, None)))
      else
        PutOutcome(Store(base[n..] + [x], newTotal - Used(base[..n]), x.lastTouched + 1), None)
    else
      PutOutcome(Store(base + [x], newTotal, x.lastTouched + 1), None)
  }

  /**
   * With the counter following the stored bytes, every value within the budget (any value
   * under a zero budget) is stored and found under its key, and a positive budget bounds
   * the stored bytes.
   */
  lemma TrackedPutStoresEveryFittingValue(st: Store, max: nat, name: string, key: string, bits: Bytes)
    requires UniqueKeys(st.order) && st.total == Used(st.order)
    requires max == 0 || |bits| <= max
    ensures var out := PutBitsTracked(st, max, name, key, bits);
      out.err.None? &&
      Lookup(out.store.order, name, key) == Some(Entry(name, key, bits, st.clock)) &&
      (max > 0 ==> out.store.total <= max)
  {
    var x := Entry(name, key, bits, st.clock);
    var base := Without(st.order, name, key);
    assert PutBitsTracked(st, max, name, key, bits) == StoreTracked(base, max, x);
    if max > 0 && Used(base) + x.Size() > max {
      TrackedEvictionSucceeds(base, max, x);
    } else {
      TrackedPlainStore(base, max, x);
    }
  }

  /** Without an overflow, the tracked store appends the entry, and finds it under its key. */
  lemma TrackedPlainStore(base: seq<Entry>, max: nat, x: Entry)
    requires !(max > 0 && Used(base) + x.Size() > max)
    requires forall e | e in base :: !e.Is(x.cacheName, x.cacheKey)
    ensures var out := StoreTracked(base, max, x);
      out.err.None? && Lookup(out.store.order, x.cacheName, x.cacheKey) == Some(x) &&
      (max > 0 ==> out.store.total <= max)
  {
    assert StoreTracked(base, max, x).store.order == base + [x];
    LookupAppend(base, [x], x.cacheName, x.cacheKey);
  }

  /** With an overflow, the tracked eviction always frees enough: it never exceeds what is stored. */
  lemma TrackedEvictionSucceeds(base: seq<Entry>, max: nat, x: Entry)
    requires max > 0 && x.Size() <= max && Used(base) + x.Size() > max
    requires forall e | e in base :: !e.Is(x.cacheName, x.cacheKey)
    ensures var out := StoreTracked(base, max, x);
      out.err.None? && Lookup(out.store.order, x.cacheName, x.cacheKey) == Some(x) && out.store.total <= max
  {
    var need: nat := Used(base) + x.Size() - max;
    var n := EvictCount(base, need);
    assert Used(base[..n]) >= need && Used(base) + x.Size() - Used(base[..n]) <= max by {
      EvictCountShortest(base, need);
      UsedSplit(base, n);
    }
    StoreTrackedEvicts(base, max, x);
    assert Lookup(base[n..] + [x], x.cacheName, x.cacheKey) == Some(x) by {
      assert forall e | e in base[n..] :: e in base;
      LookupAppend(base[n..], [x], x.cacheName, x.cacheKey);
    }
  }

  /** When the prefix `EvictCount` picks covers the overflow, the tracked store keeps the rest and appends the entry. */
  lemma StoreTrackedEvicts(base: seq<Entry>, max: nat, x: Entry)
    requires max > 0 && Used(base) + x.Size() > max
    requires var n := EvictCount(base, Used(base) + x.Size() - max); Used(base[..n]) >= Used(base) + x.Size() - max
    ensures var n := EvictCount(base, Used(base) + x.Size() - max);
      StoreTracked(base, max, x) == PutOutcome(Store(base[n..] + [x], Used(base) + x.Size() - Used(base[..n]), x.lastTouched + 1), None)
  {
  }

  /** Removing a key that no entry holds changes nothing. */
  lemma {:induction false} WithoutAbsent(es: seq<Entry>, name: string, key: string)
    requires forall e | e in es :: !e.Is(name, key)
    ensures Without(es, name, key) == es
  {
    if |es| > 0 {
      assert forall e | e in es[1..] :: e in es;
      WithoutAbsent(es[1..], name, key);
      assert es == [es[0]] + es[1..];
    }
  }

  /**
   * The corrected `putBits` differs from the source only where the bugs show: for a new key
   * under a positive budget with room to spare, and a counter that equals the stored bytes,
   * both store the same entries with the same counter and clock.
   */
  lemma TrackedAgreesWhileCounterIsExact(st: Store, max: nat, name: string, key: string, bits: Bytes)
    requires UniqueKeys(st.order) && st.total == Used(st.order)
    requires max > 0 && st.total + |bits| <= max && max < U64
    requires Lookup(st.order, name, key).None?
    ensures PutBitsTracked(st, max, name, key, bits) == PutBits(st, max, name, key, bits)
  {
    WithoutAbsent(st.order, name, key);
    assert NewTotal(st, |bits|) == st.total + |bits|;
  }

  /**
   * `putBits` hands its `*CacheError` back through the `error` interface, so the caller
   * never sees a nil error, even when the pointer is nil because the value was stored.
   */
  function PutBitsResult(out: PutOutcome): ErrorValue {
    CacheErrorPointer(out.err)
  }

  lemma PutBitsResultNeverNil(st: Store, max: nat, name: string, key: string, bits: Bytes)
    ensures var out := PutBits(st, max, name, key, bits);
      !PutBitsResult(out).IsNil() && (out.err.None? ==> PutBitsResult(out) == CacheErrorPointer(None))
  {
  }

  /** The result as evidently intended: nil exactly when nothing went wrong. */
  function CorrectedPutBitsResult(out: PutOutcome): ErrorValue {
    if out.err.None? then Nil else CacheErrorPointer(out.err)
  }

  /** With the corrected result, a nil error means exactly that the value was stored. */
  lemma CorrectedResultNilIffStored(st: Store, max: nat, name: string, key: string, bits: Bytes)
    requires WellFormed(st)
    ensures var out := PutBits(st, max, name, key, bits);
      CorrectedPutBitsResult(out).IsNil() <==> Lookup(out.store.order, name, key) == Some(Entry(name, key, bits, st.clock))
  {
    var out := PutBits(st, max, name, key, bits);
    if |bits| <= max {
      if MustEvict(st, max, |bits|) {
        PutBitsEvictsOldestFirst(st, max, name, key, bits);
      } else {
        PutBitsWithoutEviction(st, max, name, key, bits);
      }
    } else {
      var r := Lookup(out.store.order, name, key);
      if r.Some? {
        assert r.value in st.order;
      }
    }
  }

  /**
   * The entries of the unit test just before it stores `bigKey`, oldest first: strings of
   * 10 JSON bytes, structs of 17 and 19, stored at times 0 to 8; `space1/key2`, `space2/key2`
   * and `space0/key1` were read back at times 9, 10 and 11; the miss at 50-53 touched nothing.
   */
  function TestStore(): Store {
    Store(TestEvicted() + TestKept(), 113, 12)
  }

  function TestEvicted(): seq<Entry> {
    [Zeroed("space0", "key2", 10, 1), Zeroed("space0", "key3", 10, 2),
     Zeroed("space1", "key1", 10, 3), Zeroed("space1", "key3", 10, 5)]
  }

  function TestKept(): seq<Entry> {
    [Zeroed("space2", "key1", 17, 6), Zeroed("space2", "key3", 19, 8),
     Zeroed("space1", "key2", 10, 9), Zeroed("space2", "key2", 17, 10),
     Zeroed("space0", "key1", 10, 11)]
  }

  /**
   * The evict test: the 88 bytes marshal to 122 JSON bytes, 35 over the 200-byte budget, so
   * the four oldest entries go, among them `space0/key2` and `space0/key3`, while the freshly
   * read `space0/key1` stays; 300 bytes (402 once marshalled) are then refused outright.
   */
  lemma EvictTestScenario()
    ensures var out := PutBits(TestStore(), 200, "space1", "bigKey", Zeros(122));
      out.err.None? &&
      Lookup(out.store.order, "space0", "key2").None? && Lookup(out.store.order, "space0", "key3").None? &&
      Lookup(out.store.order, "space0", "key1") == Some(Zeroed("space0", "key1", 10, 11)) &&
      PutBits(out.store, 200, "space1", "bigKey", Zeros(402)).err == Some(NewCacheError(ExceedsTotalCacheSize, None))
  {
    var st := TestStore();
    var o := st.order;
    assert NewTotal(st, 122) == 235;
    TestEviction();
    var out := PutBits(st, 200, "space1", "bigKey", Zeros(122));
    var x := Entry("space1", "bigKey", Zeros(122), 12);
    assert o[4..] == TestKept();
    assert out.store.order == Insert(TestKept(), x);
    TestKeptDropsOlder(x);
    TestKeptKeepsTouched(x);
    assert out.store.total == 235;
  }

  lemma TestEviction()
    ensures EvictCount(TestStore().order, 35) == 4 && Used(TestStore().order[..4]) == 40
  {
    var o := TestStore().order;
    var o1 := o[1..];
    var o2 := o1[1..];
    var o3 := o2[1..];
    assert o3[0] == o[3] && o2[0] == o[2] && o1[0] == o[1];
    assert EvictCount(o3, 5) == 1;
    assert EvictCount(o2, 15) == 2;
    assert EvictCount(o1, 25) == 3;
    var p := o[..4];
    assert p[1..][1..][1..] == [o[3]];
    assert Used([o[3]]) == 10;
    assert Used(p[1..][1..]) == 20;
    assert Used(p[1..]) == 30;
  }

  lemma TestNamesDiffer()
    ensures "space0" != "space1" && "space0" != "space2" && "key1" != "key2" && "key1" != "key3"
  {
    assert "space0"[5] != "space1"[5] && "space0"[5] != "space2"[5];
    assert "key1"[3] != "key2"[3] && "key1"[3] != "key3"[3];
  }

  lemma TestKeptDropsOlder(x: Entry)
    requires x.Is("space1", "bigKey")
    ensures Lookup(Insert(TestKept(), x), "space0", "key2").None?
    ensures Lookup(Insert(TestKept(), x), "space0", "key3").None?
  {
    TestNamesDiffer();
    var k0 := TestKept();
    LookupInsert(k0, x, "space0", "key2");
    LookupInsert(k0, x, "space0", "key3");
    var k1 := k0[1..];
    var k2 := k1[1..];
    var k3 := k2[1..];
    var k4 := k3[1..];
    assert Lookup(k4, "space0", "key2").None? && Lookup(k4, "space0", "key3").None?;
    assert Lookup(k3, "space0", "key2").None? && Lookup(k3, "space0", "key3").None?;
    assert Lookup(k2, "space0", "key2").None? && Lookup(k2, "space0", "key3").None?;
    assert Lookup(k1, "space0", "key2").None? && Lookup(k1, "space0", "key3").None?;
  }

  lemma TestKeptKeepsTouched(x: Entry)
    requires x.Is("space1", "bigKey")
    ensures Lookup(Insert(TestKept(), x), "space0", "key1") == Some(Zeroed("space0", "key1", 10, 11))
  {
    TestNamesDiffer();
    var k0 := TestKept();
    LookupInsert(k0, x, "space0", "key1");
    var k1 := k0[1..];
    var k2 := k1[1..];
    var k3 := k2[1..];
    var k4 := k3[1..];
    var e := k0[4];
    assert Lookup(k4, "space0", "key1") == Some(e);
    assert Lookup(k3, "space0", "key1") == Some(e);
    assert Lookup(k2, "space0", "key1") == Some(e);
    assert Lookup(k1, "space0", "key1") == Some(e);
    assert Lookup(k0, "space0", "key1") == Some(e);
    assert !x.Is("space0", "key1");
  }
}
