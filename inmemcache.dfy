/**
 * `InMemCache` (pkg/cache/inmemcache.go): the map of maps, the byte counter and the budget,
 * with an optional relay. The ghost `order` lists the stored entries least recently touched
 * first; `Valid` ties it to the maps, and every operation is proved to follow CacheSpec.
 */
module Cache {
  import opened Basics
  import opened Library
  import opened CacheErrors
  import opened Model
  import opened Chatter
  import opened CacheSpec

  /** The entry is stored in the maps under its own name and key. */
  predicate InMap(caches: map<string, map<string, Entry>>, e: Entry) {
    e.cacheName in caches && e.cacheKey in caches[e.cacheName] && caches[e.cacheName][e.cacheKey] == e
  }

  /** The maps hold exactly the entries of `order`, each under its own name and key. */
  predicate Represents(caches: map<string, map<string, Entry>>, order: seq<Entry>) {
    (forall e | e in order :: InMap(caches, e)) &&
    (forall n, k | n in caches && k in caches[n] :: caches[n][k].Is(n, k) && caches[n][k] in order)
  }

  /** Reading the maps is looking the key up in `order`. */
  lemma LookupMatchesMap(caches: map<string, map<string, Entry>>, order: seq<Entry>, n: string, k: string)
    requires Represents(caches, order) && UniqueKeys(order)
    ensures Lookup(order, n, k) == if n in caches && k in caches[n] then Some(caches[n][k]) else None
  {
    var r := Lookup(order, n, k);
    if n in caches && k in caches[n] {
      var e := caches[n][k];
      assert e in order;
      var i :| 0 <= i < |order| && order[i] == e;
      var j :| 0 <= j < |order| && order[j] == r.value;
      assert i == j;
    }
  }

  /** The maps after `m[cacheKey] = x` (creating the inner map on first use). */
  function Stored(caches: map<string, map<string, Entry>>, x: Entry): map<string, map<string, Entry>> {
    var m := if x.cacheName in caches then caches[x.cacheName] else map[];
    caches[x.cacheName := m[x.cacheKey := x]]
  }

  lemma StoredRepresentsInsert(caches: map<string, map<string, Entry>>, order: seq<Entry>, x: Entry)
    requires Represents(caches, order)
    ensures Represents(Stored(caches, x), Insert(order, x))
  {
    var c := Stored(caches, x);
    var o := Insert(order, x);
    forall e | e in o ensures InMap(c, e) {
      if e != x {
        assert e in Without(order, x.cacheName, x.cacheKey);
        assert InMap(caches, e);
      }
    }
    forall n, k | n in c && k in c[n] ensures c[n][k].Is(n, k) && c[n][k] in o {
      if !(n == x.cacheName && k == x.cacheKey) {
        assert n in caches && k in caches[n] && c[n][k] == caches[n][k];
        assert c[n][k] in Without(order, x.cacheName, x.cacheKey);
      }
    }
  }

  /** The maps after `delete(caches[x.CacheName], x.CacheKey)`. */
  function Deleted(caches: map<string, map<string, Entry>>, x: Entry): map<string, map<string, Entry>>
    requires x.cacheName in caches
  {
    caches[x.cacheName := caches[x.cacheName] - {x.cacheKey}]
  }

  /** Deleting the oldest entry from the maps leaves the maps of the remaining entries. */
  lemma DeleteOldestKeeps(caches: map<string, map<string, Entry>>, order: seq<Entry>)
    requires Represents(caches, order) && Ordered(order) && UniqueKeys(order) && |order| > 0
    ensures InMap(caches, order[0])
    ensures Represents(Deleted(caches, order[0]), order[1..])
  {
    var x := order[0];
    assert x in order;
    var c := Deleted(caches, x);
    forall e | e in order[1..] ensures InMap(c, e) {
      var i :| 0 <= i < |order[1..]| && order[1..][i] == e;
      assert order[i + 1] == e;
      assert InMap(caches, e);
    }
    forall n, k | n in c && k in c[n] ensures c[n][k].Is(n, k) && c[n][k] in order[1..] {
      assert c[n][k] == caches[n][k];
      var i :| 0 <= i < |order| && order[i] == c[n][k];
      assert i != 0;
      assert order[1..][i - 1] == c[n][k];
    }
  }

  lemma UsedStep(es: seq<Entry>, i: nat)
    requires i < |es|
    ensures Used(es[..i + 1]) == Used(es[..i]) + es[i].Size()
  {
    assert es[..i + 1] == es[..i] + [es[i]];
    UsedAppend(es[..i], [es[i]]);
    assert Used([es[i]]) == es[i].Size();
  }

  /** No entry occurs twice. */
  predicate Distinct(es: seq<Entry>) {
    forall i, j | 0 <= i < j < |es| :: es[i] != es[j]
  }

  /** No two entries were touched at the same time. */
  predicate DistinctTimes(es: seq<Entry>) {
    forall i, j | 0 <= i < j < |es| :: es[i].lastTouched != es[j].lastTouched
  }

  lemma DistinctAppend(a: seq<Entry>, b: seq<Entry>)
    requires Distinct(a) && Distinct(b) && forall e | e in a :: e !in b
    ensures Distinct(a + b)
  {
    var s := a + b;
    forall i, j | 0 <= i < j < |s| ensures s[i] != s[j] {
      if j >= |a| {
        assert s[j] == b[j - |a|];
        if i < |a| {
          assert s[i] in a;
        } else {
          assert s[i] == b[i - |a|];
        }
      }
    }
  }

  /** Distinct entries drawn from an ordered sequence have distinct touch times. */
  lemma DistinctEntriesDistinctTimes(es: seq<Entry>, order: seq<Entry>)
    requires Distinct(es) && Ordered(order) && forall e | e in es :: e in order
    ensures DistinctTimes(es)
  {
    forall i, j | 0 <= i < j < |es| ensures es[i].lastTouched != es[j].lastTouched {
      assert es[i] in order && es[j] in order;
      var p :| 0 <= p < |order| && order[p] == es[i];
      var q :| 0 <= q < |order| && order[q] == es[j];
      assert p != q;
    }
  }

  /** One step of an insertion sort by touch time: `e` goes before the first later entry. */
  function InsertByTouch(e: Entry, sorted: seq<Entry>): (r: seq<Entry>)
    ensures multiset(r) == multiset(sorted) + multiset{e}
  {
    if |sorted| == 0 || e.lastTouched < sorted[0].lastTouched then [e] + sorted
    else
      assert sorted == [sorted[0]] + sorted[1..];
      [sorted[0]] + InsertByTouch(e, sorted[1..])
  }

  /** Inserting into a list sorted by touch time keeps it sorted. */
  lemma {:induction false} InsertByTouchOrdered(e: Entry, sorted: seq<Entry>)
    requires Ordered(sorted) && forall x | x in sorted :: x.lastTouched != e.lastTouched
    ensures Ordered(InsertByTouch(e, sorted))
  {
    if |sorted| == 0 || e.lastTouched < sorted[0].lastTouched {
      if |sorted| > 0 {
        HeadFirst(sorted);
        assert sorted == [sorted[0]] + sorted[1..];
      }
      OrderedCons(e, sorted);
    } else {
      var tail := sorted[1..];
      assert sorted[0] in sorted;
      SuffixKeepsOrder(sorted, 1);
      InsertByTouchOrdered(e, tail);
      var rest := InsertByTouch(e, tail);
      HeadFirst(sorted);
      assert forall x | x in rest :: x in multiset(tail) + multiset{e};
      OrderedCons(sorted[0], rest);
    }
  }

  /** `sort.Slice` by `lastTouched`, as an insertion sort. */
  function SortByLastTouched(es: seq<Entry>): (r: seq<Entry>)
    ensures multiset(r) == multiset(es)
  {
    if |es| == 0 then []
    else
      assert es == [es[0]] + es[1..];
      InsertByTouch(es[0], SortByLastTouched(es[1..]))
  }

  /** With distinct touch times the sort yields an ordered sequence. */
  lemma {:induction false} SortByLastTouchedOrdered(es: seq<Entry>)
    requires DistinctTimes(es)
    ensures Ordered(SortByLastTouched(es))
  {
    if |es| > 0 {
      var tail := es[1..];
      assert DistinctTimes(tail) by {
        forall i, j | 0 <= i < j < |tail| ensures tail[i].lastTouched != tail[j].lastTouched {
          assert tail[i] == es[i + 1] && tail[j] == es[j + 1];
        }
      }
      SortByLastTouchedOrdered(tail);
      var rest := SortByLastTouched(tail);
      forall x | x in rest ensures x.lastTouched != es[0].lastTouched {
        assert x in multiset(tail);
        var k :| 0 <= k < |tail| && tail[k] == x;
        assert es[k + 1] == x;
      }
      InsertByTouchOrdered(es[0], rest);
    }
  }

  /** The head of an ordered sequence is its oldest entry, and the only one touched at that time. */
  lemma HeadIsOldest(a: seq<Entry>, e: Entry)
    requires Ordered(a) && e in a
    ensures a[0].lastTouched <= e.lastTouched
    ensures e.lastTouched == a[0].lastTouched ==> e == a[0]
  {
    var k :| 0 <= k < |a| && a[k] == e;
    if k > 0 {
      assert a[0].lastTouched < a[k].lastTouched;
    }
  }

  lemma SameTails(a: seq<Entry>, b: seq<Entry>)
    requires Ordered(a) && Ordered(b) && |a| > 0 && |b| > 0 && a[0] == b[0]
    requires forall e :: e in a <==> e in b
    ensures forall e :: e in a[1..] <==> e in b[1..]
  {
    forall e | e in a[1..] ensures e in b[1..] {
      var k :| 0 <= k < |a[1..]| && a[1..][k] == e;
      assert a[k + 1] == e && e in b;
      assert a[0].lastTouched < e.lastTouched;
      var l :| 0 <= l < |b| && b[l] == e;
      assert l != 0;
      assert b[1..][l - 1] == e;
    }
    forall e | e in b[1..] ensures e in a[1..] {
      var k :| 0 <= k < |b[1..]| && b[1..][k] == e;
      assert b[k + 1] == e && e in a;
      assert b[0].lastTouched < e.lastTouched;
      var l :| 0 <= l < |a| && a[l] == e;
      assert l != 0;
      assert a[1..][l - 1] == e;
    }
  }

  /** Two ordered sequences with the same entries are equal. */
  lemma {:induction false} OrderedUnique(a: seq<Entry>, b: seq<Entry>)
    requires Ordered(a) && Ordered(b) && forall e :: e in a <==> e in b
    ensures a == b
    decreases |a|
  {
    if |a| > 0 {
      assert a[0] in b;
    }
    if |b| > 0 {
      assert b[0] in a;
    }
    if |a| > 0 {
      HeadIsOldest(a, b[0]);
      HeadIsOldest(b, a[0]);
      SameTails(a, b);
      SuffixKeepsOrder(a, 1);
      SuffixKeepsOrder(b, 1);
      OrderedUnique(a[1..], b[1..]);
      assert a == [a[0]] + a[1..] && b == [b[0]] + b[1..];
    }
  }

  /** What `listenerForMessages` does to the store: a value that is not base64 is dropped. */
  function ApplyRelayed(st: Store, max: nat, base64: Base64, message: CacheRelayMessage): Store {
    match base64.decode(message.cacheValue)
    case Failure(_) => st
    case Success(bits) => CacheSpec.PutBits(st, max, message.cacheName, message.cacheKey, bits).store
  }

  /** The class invariant on values: the maps, the entries and the counter agree. */
  ghost predicate Coherent(caches: map<string, map<string, Entry>>, st: Store, max: nat) {
    max < U64 && st.total < U64 &&
    WellFormed(st) && Represents(caches, st.order) &&
    (3 * max < U64 ==> Accounted(st, max))
  }

  /** A hit in the maps is the hit `Get` specifies, and touching it keeps the maps coherent. */
  lemma GetStep(caches: map<string, map<string, Entry>>, st: Store, max: nat, name: string, key: string)
    requires Coherent(caches, st, max) && name in caches && key in caches[name]
    ensures var t := caches[name][key].(lastTouched := st.clock);
      CacheSpec.Get(st, name, key) == GetOutcome(Touch(st, caches[name][key]), Some(caches[name][key].cacheData)) &&
      Touch(st, caches[name][key]) == Store(Insert(st.order, t), st.total, st.clock + 1) &&
      Coherent(Stored(caches, t), Touch(st, caches[name][key]), max)
  {
    var e := caches[name][key];
    LookupMatchesMap(caches, st.order, name, key);
    GetHit(st, name, key);
    if 3 * max < U64 {
      GetKeepsAccounting(st, max, name, key);
    }
    StoredRepresentsInsert(caches, st.order, e.(lastTouched := st.clock));
  }

  /**
   * The store `putBits` leaves, from what its locked part observed: the counter plus the
   * value's size, and, when that is over a positive budget, the maps `c1` and entries `o1`
   * and the error `evict` left. Storing the entry (or not) gives the store `PutBits`
   * specifies, with maps that represent it.
   */
  lemma PutCommit(c0: map<string, map<string, Entry>>, st: Store, max: nat, x: Entry, newTotal: nat,
                  c1: map<string, map<string, Entry>>, o1: seq<Entry>, ret: Option<CacheError>)
    requires Coherent(c0, st, max) && x.lastTouched == st.clock && x.Size() <= max
    requires newTotal == (st.total + x.Size()) % U64
    requires max > 0 && newTotal > max ==>
      Represents(c1, o1) && o1 == st.order[EvictCount(st.order, newTotal - max)..] &&
      (ret.None? <==> Used(st.order[..EvictCount(st.order, newTotal - max)]) >= newTotal - max) &&
      (ret.Some? ==> ret == Some(NewCacheError(ObjectToLarge, None)))
    requires !(max > 0 && newTotal > max) ==> c1 == c0 && o1 == st.order && ret.None?
    ensures var out := CacheSpec.PutBits(st, max, x.cacheName, x.cacheKey, x.cacheData);
      ret == out.err &&
      (ret.None? ==> out.store == Store(Insert(o1, x), newTotal, st.clock + 1) && Coherent(Stored(c1, x), out.store, max)) &&
      (ret.Some? ==> out.store == Store(o1, st.total, st.clock + 1) && Coherent(c1, out.store, max))
  {
    PutBitsCommits(st, max, x, newTotal, o1, ret);
    if ret.None? {
      StoredRepresentsInsert(c1, o1, x);
    }
  }

  class InMemCache<V> {
    const maxCacheSize: nat
    var caches: map<string, map<string, Entry>>
    var totalUsedCacheSize: nat
    /** The next logical time; it stands for `time.Now()`. */
    var clock: nat
    const chatter: NatMessagesChatterRelay?
    /** `encoding/json` at the type of the cached values. */
    const codec: Json<V>
    const base64: Base64
    ghost var order: seq<Entry>

    ghost function State(): Store
      reads this
    {
      Store(order, totalUsedCacheSize, clock)
    }

    ghost predicate Valid()
      reads this
    {
      Coherent(caches, State(), maxCacheSize)
    }

    /** `NewInMemCache`: an empty cache that, given a relay, registers itself as its listener. */
    constructor (maxSize: nat, chatter: NatMessagesChatterRelay?, codec: Json<V>, base64: Base64)
      requires maxSize < U64
      modifies chatter
      ensures Valid() && State() == Store([], 0, 0) && caches == map[]
      ensures maxCacheSize == maxSize && this.chatter == chatter && this.codec == codec && this.base64 == base64
      ensures chatter != null ==> chatter.objectListener == Some(Listener(this))
      ensures chatter != null ==> chatter.outbox == old(chatter.outbox) && chatter.invocations == old(chatter.invocations)
    {
      maxCacheSize := maxSize;
      caches := map[];
      totalUsedCacheSize := 0;
      clock := 0;
      this.chatter := chatter;
      this.codec := codec;
      this.base64 := base64;
      order := [];
      new;
      if chatter != null {
        chatter.RegisterListenerForReplicatedObjects(Listener(this));
      }
    }

    /** `listenerForMessages`: store a replicated value locally, without replicating it again. */
    method ListenerForMessages(message: CacheRelayMessage)
      requires Valid()
      modifies this`caches, this`totalUsedCacheSize, this`clock, this`order
      ensures Valid()
      ensures State() == ApplyRelayed(old(State()), maxCacheSize, base64, message)
    {
      var bits := base64.decode(message.cacheValue);
      if bits.Failure? {
        return;
      }
      var _ := PutBits(message.cacheName, message.cacheKey, bits.value);
    }

    /**
     * `Put`: marshal the value, store it, and hand `{name, key, base64(json)}` to the relay
     * whenever marshalling succeeded, even when storing failed. `draws` stands for the
     * randomness an encrypted send consumes.
     */
    method Put(cacheName: string, cacheKey: string, value: V, draws: Draws)
      returns (err: ErrorValue, replication: Option<SendResult>)
      requires Valid()
      modifies this`caches, this`totalUsedCacheSize, this`clock, this`order
      modifies if chatter == null then {} else {chatter}
      ensures Valid()
      ensures chatter != null ==>
        chatter.objectListener == old(chatter.objectListener) && chatter.invocations == old(chatter.invocations)
      ensures codec.marshal(value).Failure? ==>
        err == CacheErrorPointer(Some(NewCacheError(NotJsonifiable, Some(LibraryError(codec.marshal(value).error))))) &&
        replication.None? && State() == old(State()) && (chatter != null ==> chatter.outbox == old(chatter.outbox))
      ensures codec.marshal(value).Success? ==>
        var bits := codec.marshal(value).value;
        var out := CacheSpec.PutBits(old(State()), maxCacheSize, cacheName, cacheKey, bits);
        State() == out.store && err == PutBitsResult(out) &&
        (chatter == null ==> replication.None?) &&
        (chatter != null ==>
          replication == Some(Outbound(chatter.nodeID, chatter.masterPassPhrase, chatter.wire, chatter.crypto,
                                       CacheRelayMessage(cacheName, cacheKey, base64.encode(bits)), draws)) &&
          chatter.outbox == old(chatter.outbox) + Frames(replication.value))
    {
      var jsonBits := codec.marshal(value);
      if jsonBits.Failure? {
        return CacheErrorPointer(Some(NewCacheError(NotJsonifiable, Some(LibraryError(jsonBits.error))))), None;
      }
      err := PutBits(cacheName, cacheKey, jsonBits.value);
      replication := None;
      if chatter != null {
        var replicate := CacheRelayMessage("", "", "");
        replicate := replicate.(cacheName := cacheName);
        replicate := replicate.(cacheKey := cacheKey);
        replicate := replicate.(cacheValue := base64.encode(jsonBits.value));
        var sent := chatter.ReplicateCachedObject(replicate, draws);
        replication := Some(sent);
      }
    }

    /** `putBits`, proved to follow `CacheSpec.PutBits`; its `*CacheError` is returned as an `error`. */
    method PutBits(cacheName: string, cacheKey: string, valueJsonBits: Bytes) returns (err: ErrorValue)
      requires Valid()
      modifies this`caches, this`totalUsedCacheSize, this`clock, this`order
      ensures Valid()
      ensures State() == CacheSpec.PutBits(old(State()), maxCacheSize, cacheName, cacheKey, valueJsonBits).store
      ensures err == PutBitsResult(CacheSpec.PutBits(old(State()), maxCacheSize, cacheName, cacheKey, valueJsonBits))
    {
      var x := Entry(cacheName, cacheKey, valueJsonBits, clock);
      if |valueJsonBits| > maxCacheSize {
        clock := clock + 1;
        return CacheErrorPointer(Some(NewCacheError(ExceedsTotalCacheSize, None)));
      }
      var ret := PutLocked(x);
      return CacheErrorPointer(ret);
    }

    /**
     * The part of `putBits` under the lock, for a value within the budget: add its size to
     * the counter, evict the overflow, and store the entry unless the eviction fell short.
     */
    method PutLocked(x: Entry) returns (ret: Option<CacheError>)
      requires Valid() && x.lastTouched == clock && x.Size() <= maxCacheSize
      modifies this`caches, this`totalUsedCacheSize, this`clock, this`order
      ensures Valid()
      ensures var out := CacheSpec.PutBits(old(State()), maxCacheSize, x.cacheName, x.cacheKey, x.cacheData);
        State() == out.store && ret == out.err
    {
      ghost var st := State();
      ghost var c0 := caches;
      ret := None;
      var newTotalSize := (totalUsedCacheSize + x.Size()) % U64;
      if maxCacheSize > 0 && newTotalSize > maxCacheSize {
        ret := Evict(newTotalSize - maxCacheSize);
      }
      PutCommit(c0, st, maxCacheSize, x, newTotalSize, caches, order, ret);
      if ret.None? {
        totalUsedCacheSize := newTotalSize;
        caches := Stored(caches, x);
        order := Insert(order, x);
      }
      clock := clock + 1;
    }

    /**
     * `Get`: a miss returns a `NoItem` error and changes nothing; a hit touches the entry
     * and decodes its bytes, returning the decoder's own error when that fails (the
     * `NotJsonifiable` error the source builds there is dropped).
     */
    method Get(cacheName: string, cacheKey: string) returns (err: ErrorValue, value: Option<V>)
      requires Valid()
      modifies this`caches, this`clock, this`order
      ensures Valid()
      ensures var out := CacheSpec.Get(old(State()), cacheName, cacheKey);
        State() == out.store &&
        (out.data.None? ==> err == CacheErrorPointer(Some(NewCacheError(NoItem, None))) && value.None?) &&
        (out.data.Some? && codec.unmarshal(out.data.value).Success? ==>
           err == Nil && value == Some(codec.unmarshal(out.data.value).value)) &&
        (out.data.Some? && codec.unmarshal(out.data.value).Failure? ==>
           err == LibraryErrorValue(codec.unmarshal(out.data.value).error) && value.None?)
    {
      ghost var st := State();
      LookupMatchesMap(caches, order, cacheName, cacheKey);
      var entry: Option<Entry> := None;
      if cacheName in caches && cacheKey in caches[cacheName] {
        entry := Some(caches[cacheName][cacheKey]);
      }
      if entry.None? {
        return CacheErrorPointer(Some(NewCacheError(NoItem, None))), None;
      }
      TouchEntry(cacheName, cacheKey);
      var decoded := codec.unmarshal(entry.value.cacheData);
      if decoded.Failure? {
        return LibraryErrorValue(decoded.error), None;
      }
      return Nil, Some(decoded.value);
    }

    /** `entry.touch()` on the entry stored under the name and key: it takes the current time. */
    method TouchEntry(cacheName: string, cacheKey: string)
      requires Valid() && cacheName in caches && cacheKey in caches[cacheName]
      modifies this`caches, this`clock, this`order
      ensures Valid()
      ensures State() == Touch(old(State()), old(caches[cacheName][cacheKey]))
    {
      ghost var st := State();
      var e := caches[cacheName][cacheKey];
      var touched := e.(lastTouched := clock);
      ghost var next := Store(Insert(order, touched), totalUsedCacheSize, clock + 1);
      assert Coherent(Stored(caches, touched), next, maxCacheSize) && next == Touch(st, e) by {
        GetStep(caches, st, maxCacheSize, cacheName, cacheKey);
      }
      caches := Stored(caches, touched);
      order := next.order;
      clock := clock + 1;
      assert State() == next;
    }

    /**
     * `evict`: delete entries oldest first until the bytes freed reach `evictCount`; fail
     * with `ObjectToLarge`, keeping the deletions, when every entry is gone first.
     */
    method Evict(evictCount: nat) returns (err: Option<CacheError>)
      requires Represents(caches, order) && Ordered(order) && UniqueKeys(order) && evictCount > 0
      modifies this`caches, this`order
      ensures Represents(caches, order)
      ensures order == old(order)[EvictCount(old(order), evictCount)..]
      ensures err.None? <==> Used(old(order)[..EvictCount(old(order), evictCount)]) >= evictCount
      ensures err.Some? ==> err == Some(NewCacheError(ObjectToLarge, None))
    {
      var last := SortLastTouched();
      ghost var n := EvictCount(last, evictCount);
      EvictCountShortest(last, evictCount);
      var amountFreed: nat := 0;
      var i := 0;
      while i < |last|
        invariant 0 <= i <= n
        invariant amountFreed == Used(last[..i])
        invariant i == 0 || amountFreed < evictCount
        invariant order == last[i..]
        invariant Represents(caches, order)
      {
        assert i < n;
        SuffixKeepsShape(last, i);
        var size := DeleteOldest(last[i]);
        assert amountFreed + size == Used(last[..i + 1]) by {
          UsedStep(last, i);
        }
        amountFreed := amountFreed + size;
        i := i + 1;
        if amountFreed >= evictCount {
          break;
        }
      }
      if amountFreed < evictCount {
        assert i == |last| == n;
        return Some(NewCacheError(ObjectToLarge, None));
      }
      assert i == n;
      return None;
    }

    /** One round of the `evict` loop on the oldest entry `x`: read its size and delete it from its map. */
    method DeleteOldest(x: Entry) returns (size: nat)
      requires Represents(caches, order) && Ordered(order) && UniqueKeys(order) && |order| > 0 && x == order[0]
      modifies this`caches, this`order
      ensures Represents(caches, order) && order == old(order)[1..]
      ensures size == x.Size()
    {
      DeleteOldestKeeps(caches, order);
      var entry := caches[x.cacheName][x.cacheKey];
      size := entry.Size();
      caches := Deleted(caches, x);
      order := order[1..];
    }

    /** `sortLastTouched`: every stored entry, gathered map by map and sorted by touch time. */
    method SortLastTouched() returns (last: seq<Entry>)
      requires Represents(caches, order) && Ordered(order) && UniqueKeys(order)
      ensures last == order
    {
      var masterList: seq<Entry> := [];
      var names := caches.Keys;
      while names != {}
        invariant names <= caches.Keys
        invariant forall e :: e in masterList <==> InMap(caches, e) && e.cacheName !in names
        invariant Distinct(masterList)
        decreases |names|
      {
        var name :| name in names;
        var v := caches[name];
        var cacheList: seq<Entry> := [];
        var keys := v.Keys;
        while keys != {}
          invariant keys <= v.Keys
          invariant forall e :: e in cacheList <==> e.cacheKey in v && e.cacheKey !in keys && v[e.cacheKey] == e
          invariant Distinct(cacheList)
          decreases |keys|
        {
          var key :| key in keys;
          assert v[key].Is(name, key);
          DistinctAppend(cacheList, [v[key]]);
          cacheList := cacheList + [v[key]];
          keys := keys - {key};
        }
        assert forall e | e in cacheList :: e.cacheName == name && InMap(caches, e);
        DistinctAppend(masterList, cacheList);
        masterList := masterList + cacheList;
        names := names - {name};
      }
      assert forall e :: e in masterList <==> e in order;
      DistinctEntriesDistinctTimes(masterList, order);
      last := SortByLastTouched(masterList);
      SortByLastTouchedOrdered(masterList);
      assert forall e :: e in last <==> e in multiset(masterList);
      OrderedUnique(last, order);
    }

    /**
     * The relay's delivery of one bus frame to this process: `handleCacheSync`, then, when
     * the registered listener is this cache's, `listenerForMessages`. Nothing is republished.
     */
    method ReceiveFrame(data: Bytes) returns (result: Inbound)
      requires Valid() && chatter != null
      modifies this`caches, this`totalUsedCacheSize, this`clock, this`order, chatter`invocations
      ensures Valid()
      ensures result == Receive(chatter.nodeID, chatter.masterPassPhrase, chatter.wire, chatter.crypto, data)
      ensures chatter.invocations == old(chatter.invocations) + Invoked(chatter.objectListener, result)
      ensures chatter.outbox == old(chatter.outbox)
      ensures State() ==
        if result.Accepted? && chatter.objectListener == Some(Listener(this))
        then ApplyRelayed(old(State()), maxCacheSize, base64, result.message)
        else old(State())
    {
      result := chatter.HandleCacheSync(data);
      if result.Accepted? && chatter.objectListener == Some(Listener(this)) {
        ListenerForMessages(result.message);
      }
    }
  }

  /**
   * The basic test's pattern: a value put and then read back under the same name and key is
   * the value put, whenever the put reports the stored case (a nil `*CacheError` inside the
   * returned `error`).
   */
  method PutThenGet<V(!new)>(c: InMemCache<V>, cacheName: string, cacheKey: string, value: V, draws: Draws)
    returns (putErr: ErrorValue, getErr: ErrorValue, got: Option<V>)
    requires c.Valid() && LawfulJson(c.codec)
    modifies c`caches, c`totalUsedCacheSize, c`clock, c`order
    modifies if c.chatter == null then {} else {c.chatter}
    ensures c.Valid()
    ensures putErr == CacheErrorPointer(None) ==> getErr == Nil && got == Some(value)
  {
    ghost var st := c.State();
    var replication;
    putErr, replication := c.Put(cacheName, cacheKey, value, draws);
    if c.codec.marshal(value).Success? {
      CorrectedResultNilIffStored(st, c.maxCacheSize, cacheName, cacheKey, c.codec.marshal(value).value);
    }
    getErr, got := c.Get(cacheName, cacheKey);
  }
}
