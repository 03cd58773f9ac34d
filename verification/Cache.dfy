/** The in-memory cache: TTL expiry, periodic sweeps and least-recently-used eviction. */
module Cache {
  import opened Prelude

  datatype CacheKey = CacheKey(name: string)

  /** Cached values are only stored and handed back. */
  datatype Value = Value(json: string)

  /** `expiresAt` is `None` for a value set without a TTL. */
  datatype Entry = Entry(value: Value, expiresAt: Option<int>)

  function EntryFor(value: Value, ttlMs: Option<int>, now: int): (e: Entry) {
    Entry(value, if ttlMs.Some? then Some(now + ttlMs.value) else None)
  }

  datatype Slot = Slot(key: CacheKey, entry: Entry)

  /** The `Map`, in insertion order: the least recently used key comes first. */
  type Store = seq<Slot>

  predicate Expired(e: Entry, now: int) { e.expiresAt.Some? && now > e.expiresAt.value }

  predicate DistinctKeys(s: Store) {
    forall i, j :: 0 <= i < j < |s| ==> s[i].key != s[j].key
  }

  function Keys(s: Store): (r: set<CacheKey>) {
    set x | x in s :: x.key
  }

  function Find(s: Store, k: CacheKey): (r: Option<Entry>)
    ensures r.None? <==> k !in Keys(s)
    ensures r.Some? ==> Slot(k, r.value) in s
  {
    if s == [] then None
    else if s[0].key == k then Some(s[0].entry)
    else
      assert forall x :: x in s <==> x == s[0] || x in s[1..];
      Find(s[1..], k)
  }

  function Remove(s: Store, k: CacheKey): (r: Store) {
    Filter(s, (x: Slot) => x.key != k)
  }

  function Unexpired(s: Store, now: int): (r: Store) {
    Filter(s, (x: Slot) => !Expired(x.entry, now))
  }

  function Newest(s: Store, max: Option<nat>): (r: Store) {
    if max.None? || |s| <= max.value then s else s[|s| - max.value..]
  }

  // ---- The history of a cache -------------------------------------------------------------

  /** What a cache has done, with the time: the history that its answers are judged against. */
  datatype Op =
    | Set(key: CacheKey, entry: Entry, now: int)
    | Hit(key: CacheKey, now: int)
    | Miss(key: CacheKey, now: int)
    | Delete(key: CacheKey)
    | Clear

  /** The value last set for `k`, unless it was deleted or cleared since. */
  function Latest(h: seq<Op>, k: CacheKey): (r: Option<Entry>) {
    if h == [] then None
    else
      match h[|h| - 1]
      case Set(k', e, _) => if k' == k then Some(e) else Latest(h[..|h| - 1], k)
      case Delete(k') => if k' == k then None else Latest(h[..|h| - 1], k)
      case Clear => None
      case _ => Latest(h[..|h| - 1], k)
  }

  /** The other keys set or hit since `k` was last set or hit. */
  function TouchedSince(h: seq<Op>, k: CacheKey): (r: set<CacheKey>) {
    if h == [] then {}
    else
      match h[|h| - 1]
      case Set(k', _, _) => if k' == k then {} else TouchedSince(h[..|h| - 1], k) + {k'}
      case Hit(k', _) => if k' == k then {} else TouchedSince(h[..|h| - 1], k) + {k'}
      case _ => TouchedSince(h[..|h| - 1], k)
  }

  /** Appending one operation, seen from its end. */
  lemma HistoryStep(h: seq<Op>, op: Op)
    ensures (h + [op])[|h + [op]| - 1] == op && (h + [op])[..|h + [op]| - 1] == h
  {}

  /**
   What the store owes to the history: a slot holds the latest value of its key, and the keys behind it
   were touched since; a latest value that is missing has expired, or enough other keys were touched since.
   */
  ghost predicate Explains(s: Store, h: seq<Op>, max: Option<nat>, now: int) {
    && DistinctKeys(s)
    && (max.Some? ==> |s| <= max.value)
    && SlotsExplained(s, h)
    && AbsencesExplained(s, h, max, now)
  }

  ghost predicate SlotsExplained(s: Store, h: seq<Op>) {
    s != [] ==>
      && Latest(h, s[0].key) == Some(s[0].entry)
      && Keys(s[1..]) <= TouchedSince(h, s[0].key)
      && SlotsExplained(s[1..], h)
  }

  ghost predicate AbsencesExplained(s: Store, h: seq<Op>, max: Option<nat>, now: int) {
    forall k :: k !in Keys(s) && Latest(h, k).Some? ==>
      Expired(Latest(h, k).value, now) || (max.Some? && |TouchedSince(h, k)| >= max.value)
  }

  lemma KeysAppend(a: Store, b: Store)
    ensures Keys(a + b) == Keys(a) + Keys(b)
  {
    assert forall x :: x in a + b <==> x in a || x in b;
  }

  lemma KeysHead(s: Store)
    requires s != []
    ensures Keys(s) == {s[0].key} + Keys(s[1..])
  {
    assert s == [s[0]] + s[1..];
    KeysAppend([s[0]], s[1..]);
  }

  lemma DistinctTail(s: Store)
    requires DistinctKeys(s) && s != []
    ensures DistinctKeys(s[1..]) && s[0].key !in Keys(s[1..])
  {}

  lemma {:induction false} KeysCount(s: Store)
    requires DistinctKeys(s)
    ensures |Keys(s)| == |s|
  {
    if s != [] {
      DistinctTail(s);
      KeysCount(s[1..]);
      KeysHead(s);
    }
  }

  lemma SubsetCount<T>(a: set<T>, b: set<T>)
    requires a <= b
    ensures |a| <= |b|
  {
    assert b == a + (b - a);
  }

  lemma FilterKeys(s: Store, keep: Slot -> bool)
    ensures Keys(Filter(s, keep)) <= Keys(s)
    ensures forall k :: k in Keys(s) && k !in Keys(Filter(s, keep)) ==> exists x :: x in s && x.key == k && !keep(x)
  {
    forall x ensures x in Filter(s, keep) <==> x in s && keep(x) { FilterMembers(s, keep, x); }
    forall k | k in Keys(s) && k !in Keys(Filter(s, keep)) ensures exists x :: x in s && x.key == k && !keep(x) {
      var x :| x in s && x.key == k;
      assert !keep(x);
    }
  }

  lemma PrependDistinct(slot: Slot, s: Store)
    requires DistinctKeys(s) && slot.key !in Keys(s)
    ensures DistinctKeys([slot] + s)
  {
    var r := [slot] + s;
    assert forall x :: x in s ==> x.key != slot.key;
    forall i, j | 0 <= i < j < |r| ensures r[i].key != r[j].key {
      assert r[j] == s[j - 1] && s[j - 1] in s;
    }
  }

  lemma {:induction false} FilterDistinct(s: Store, keep: Slot -> bool)
    requires DistinctKeys(s)
    ensures DistinctKeys(Filter(s, keep)) && |Filter(s, keep)| <= |s|
  {
    if s != [] {
      var rest := Filter(s[1..], keep);
      DistinctTail(s);
      FilterDistinct(s[1..], keep);
      FilterKeys(s[1..], keep);
      PrependDistinct(s[0], rest);
      assert Filter(s, keep) == if keep(s[0]) then [s[0]] + rest else rest;
    }
  }

  /** Dropping slots, wherever they are, keeps the rest explained. */
  lemma {:induction false} FilterExplained(s: Store, h: seq<Op>, keep: Slot -> bool)
    requires SlotsExplained(s, h)
    ensures SlotsExplained(Filter(s, keep), h)
  {
    if s != [] {
      var rest := Filter(s[1..], keep);
      FilterExplained(s[1..], h, keep);
      FilterKeys(s[1..], keep);
      ExplainedStep(s[0], rest, h);
      assert Filter(s, keep) == if keep(s[0]) then [s[0]] + rest else rest;
    }
  }

  /** Setting or hitting `k` adds it to what was touched since every other key's last use. */
  lemma TouchStep(h: seq<Op>, op: Op, k: CacheKey)
    requires (op.Set? || op.Hit?) && op.key != k
    ensures TouchedSince(h + [op], k) == TouchedSince(h, k) + {op.key}
    ensures Latest(h + [op], k) == Latest(h, k)
  {
    HistoryStep(h, op);
  }

  lemma AppendDistinct(s: Store, slot: Slot)
    requires DistinctKeys(s) && slot.key !in Keys(s)
    ensures DistinctKeys(s + [slot])
  {
    assert forall i :: 0 <= i < |s| ==> (s + [slot])[i] == s[i] && s[i] in s;
  }

  lemma ExplainedStep(head: Slot, rest: Store, h: seq<Op>)
    requires Latest(h, head.key) == Some(head.entry) && Keys(rest) <= TouchedSince(h, head.key) &&
             SlotsExplained(rest, h)
    ensures SlotsExplained([head] + rest, h)
  {
    assert ([head] + rest)[1..] == rest;
  }

  /** The slot of the key just used goes to the back, and every other slot sees it pass. */
  lemma {:induction false} AppendExplained(s: Store, h: seq<Op>, op: Op, slot: Slot)
    requires SlotsExplained(s, h) && slot.key !in Keys(s)
    requires (op.Set? || op.Hit?) && op.key == slot.key && Latest(h + [op], slot.key) == Some(slot.entry)
    ensures SlotsExplained(s + [slot], h + [op])
  {
    if s == [] {
      assert s + [slot] == [slot];
    } else {
      KeysHead(s);
      AppendExplained(s[1..], h, op, slot);
      KeysAppend(s[1..], [slot]);
      TouchStep(h, op, s[0].key);
      ExplainedStep(s[0], s[1..] + [slot], h + [op]);
      assert [s[0]] + (s[1..] + [slot]) == s + [slot];
    }
  }

  /** A slot among the oldest has as many keys behind it, all touched since, as stay in the store. */
  lemma {:induction false} EvictionExplained(s: Store, h: seq<Op>, d: nat)
    requires SlotsExplained(s, h) && DistinctKeys(s) && d <= |s|
    ensures SlotsExplained(s[d..], h) && DistinctKeys(s[d..]) && Keys(s[d..]) <= Keys(s)
    ensures forall k :: k in Keys(s) && k !in Keys(s[d..]) ==> |TouchedSince(h, k)| >= |s| - d
  {
    if d > 0 {
      DistinctTail(s);
      KeysHead(s);
      EvictionExplained(s[1..], h, d - 1);
      assert s[1..][d - 1..] == s[d..];
      KeysCount(s[1..]);
      SubsetCount(Keys(s[1..]), TouchedSince(h, s[0].key));
    } else {
      assert s[0..] == s;
    }
  }

  // ---- What each operation owes -----------------------------------------------------------

  /** Every part of `Explains` but the size bound, which `set` restores last. */
  ghost predicate ExplainsUnbounded(s: Store, h: seq<Op>, max: Option<nat>, now: int) {
    DistinctKeys(s) && SlotsExplained(s, h) && AbsencesExplained(s, h, max, now)
  }

  lemma RemoveExplained(s: Store, h: seq<Op>, k: CacheKey)
    requires SlotsExplained(s, h) && DistinctKeys(s)
    ensures SlotsExplained(Remove(s, k), h) && DistinctKeys(Remove(s, k))
    ensures Keys(Remove(s, k)) == Keys(s) - {k} && |Remove(s, k)| <= |s|
    ensures k in Keys(s) ==> |Remove(s, k)| == |s| - 1
  {
    var keep := (x: Slot) => x.key != k;
    FilterExplained(s, h, keep);
    FilterDistinct(s, keep);
    FilterKeys(s, keep);
    forall x ensures x in Remove(s, k) <==> x in s && x.key != k { FilterMembers(s, keep, x); }
    assert Keys(Remove(s, k)) == Keys(s) - {k};
    KeysCount(s);
    KeysCount(Remove(s, k));
  }

  /** Using `k` moves it to the back of the store. */
  lemma UseExplained(s: Store, h: seq<Op>, op: Op, slot: Slot, max: Option<nat>, now: int)
    requires ExplainsUnbounded(s, h, max, now)
    requires (op.Set? || op.Hit?) && op.key == slot.key && Latest(h + [op], slot.key) == Some(slot.entry)
    ensures ExplainsUnbounded(Remove(s, slot.key) + [slot], h + [op], max, now)
    ensures |Remove(s, slot.key) + [slot]| == if slot.key in Keys(s) then |s| else |Remove(s, slot.key)| + 1
    ensures |Remove(s, slot.key) + [slot]| <= |s| + 1
  {
    var kept := Remove(s, slot.key);
    RemoveExplained(s, h, slot.key);
    AppendDistinct(kept, slot);
    AppendExplained(kept, h, op, slot);
    KeysAppend(kept, [slot]);
    forall k | k !in Keys(kept + [slot]) && Latest(h + [op], k).Some?
      ensures Expired(Latest(h + [op], k).value, now) || (max.Some? && |TouchedSince(h + [op], k)| >= max.value)
    {
      assert k != slot.key && k !in Keys(s);
      TouchStep(h, op, k);
      SubsetCount(TouchedSince(h, k), TouchedSince(h + [op], k));
    }
  }

  lemma SweepExplained(s: Store, h: seq<Op>, max: Option<nat>, now: int)
    requires ExplainsUnbounded(s, h, max, now)
    ensures ExplainsUnbounded(Unexpired(s, now), h, max, now)
    ensures |Unexpired(s, now)| <= |s|
  {
    var keep := (x: Slot) => !Expired(x.entry, now);
    FilterExplained(s, h, keep);
    FilterDistinct(s, keep);
    FilterKeys(s, keep);
    var swept := Unexpired(s, now);
    forall k | k !in Keys(swept) && Latest(h, k).Some?
      ensures Expired(Latest(h, k).value, now) || (max.Some? && |TouchedSince(h, k)| >= max.value)
    {
      if k in Keys(s) {
        var x :| x in s && x.key == k && !keep(x);
        SlotIsLatest(s, h, x);
      }
    }
  }

  lemma {:induction false} SlotIsLatest(s: Store, h: seq<Op>, x: Slot)
    requires SlotsExplained(s, h) && x in s
    ensures Latest(h, x.key) == Some(x.entry)
  {
    if x != s[0] { SlotIsLatest(s[1..], h, x); }
  }

  lemma OverflowExplained(s: Store, h: seq<Op>, max: Option<nat>, now: int)
    requires ExplainsUnbounded(s, h, max, now)
    ensures Explains(Newest(s, max), h, max, now)
  {
    if max.Some? && |s| > max.value {
      EvictionExplained(s, h, |s| - max.value);
    }
  }

  /** Time only makes more entries expired. */
  lemma LaterExplained(s: Store, h: seq<Op>, max: Option<nat>, now: int, later: int)
    requires ExplainsUnbounded(s, h, max, now) && now <= later
    ensures ExplainsUnbounded(s, h, max, later)
  {}

  /** A miss or a deletion touches nothing. */
  lemma {:induction false} SameHistory(s: Store, h: seq<Op>, h': seq<Op>)
    requires SlotsExplained(s, h)
    requires forall k :: k in Keys(s) ==> Latest(h', k) == Latest(h, k) && TouchedSince(h', k) == TouchedSince(h, k)
    ensures SlotsExplained(s, h')
  {
    if s != [] {
      KeysHead(s);
      SameHistory(s[1..], h, h');
    }
  }

  lemma ForgetExplained(s: Store, h: seq<Op>, op: Op, k: CacheKey, max: Option<nat>, now: int)
    requires Explains(s, h, max, now)
    requires op == Delete(k) || (op.Miss? && op.key == k && (Latest(h, k).Some? ==> Expired(Latest(h, k).value, now)))
    ensures Explains(Remove(s, k), h + [op], max, now)
  {
    HistoryStep(h, op);
    RemoveExplained(s, h, k);
    SameHistory(Remove(s, k), h, h + [op]);
  }

  /** A miss on a key that is not in the store changes nothing. */
  lemma MissExplained(s: Store, h: seq<Op>, op: Op, max: Option<nat>, now: int)
    requires Explains(s, h, max, now) && op.Miss?
    ensures Explains(s, h + [op], max, now)
  {
    HistoryStep(h, op);
    SameHistory(s, h, h + [op]);
  }

  lemma {:induction false} ClearedHistory(h: seq<Op>, k: CacheKey)
    ensures Latest(h + [Clear], k) == None
  {
    HistoryStep(h, Clear);
  }

  // ---- The cache --------------------------------------------------------------------------

  /** `InMemoryCache`; every method takes the time that `Date.now()` would give. */
  class InMemoryCache {
    const maxEntries: Option<nat>
    const sweepIntervalMs: int
    var store: Store
    var lastSweep: int
    ghost var history: seq<Op>
    ghost var clock: int

    ghost predicate Valid()
      reads this
    {
      Explains(store, history, maxEntries, clock)
    }

    constructor (maxEntries: Option<nat>, sweepIntervalMs: int, ghost start: int)
      ensures Valid() && history == [] && clock == start && store == []
      ensures this.maxEntries == maxEntries && this.sweepIntervalMs == sweepIntervalMs
    {
      this.maxEntries, this.sweepIntervalMs := maxEntries, sweepIntervalMs;
      store, lastSweep := [], 0;
      history, clock := [], start;
    }

    /**
     A hit is the latest value set for the key, not deleted or cleared since and not expired. A miss on
     such a value means at least `maxEntries` distinct other keys were set or hit since the key last was.
     */
    method Get(key: CacheKey, now: int) returns (r: Option<Value>)
      requires Valid() && clock <= now
      modifies this
      ensures Valid() && clock == now
      ensures history == old(history) + [if r.Some? then Hit(key, now) else Miss(key, now)]
      ensures var latest := Latest(old(history), key);
              if r.Some? then
                && latest.Some? && r.value == latest.value.value
                && (latest.value.expiresAt.None? || now <= latest.value.expiresAt.value)
              else
                || latest.None?
                || (latest.value.expiresAt.Some? && now > latest.value.expiresAt.value)
                || (maxEntries.Some? && |TouchedSince(old(history), key)| >= maxEntries.value)
      ensures maxEntries.Some? ==> |store| <= maxEntries.value
    {
      LaterExplained(store, history, maxEntries, clock, now);
      clock := now;
      var entry := Find(store, key);
      if entry.None? {
        MissExplained(store, history, Miss(key, now), maxEntries, now);
        history := history + [Miss(key, now)];
        return None;
      }
      SlotIsLatest(store, history, Slot(key, entry.value));
      if Expired(entry.value, now) {
        ForgetExplained(store, history, Miss(key, now), key, maxEntries, now);
        store := Remove(store, key);
        history := history + [Miss(key, now)];
        return None;
      }
      HistoryStep(history, Hit(key, now));
      UseExplained(store, history, Hit(key, now), Slot(key, entry.value), maxEntries, now);
      store := Remove(store, key);
      store := store + [Slot(key, entry.value)];
      history := history + [Hit(key, now)];
      r := Some(entry.value.value);
    }

    /** `now` is read for the expiry time, `later` by the sweep. */
    method Put(key: CacheKey, value: Value, ttlMs: Option<int>, now: int, later: int)
      requires Valid() && clock <= now <= later
      modifies this
      ensures Valid() && clock == later
      ensures |history| == |old(history)| + 1 && old(history) <= history
      ensures var op := history[|old(history)|];
              && op.Set? && op.key == key && op.now == now && op.entry.value == value
              && (ttlMs.None? ==> op.entry.expiresAt.None?)
              && (ttlMs.Some? ==> op.entry.expiresAt == Some(now + ttlMs.value))
      ensures maxEntries.Some? ==> |store| <= maxEntries.value
    {
      var entry := EntryFor(value, ttlMs, now);
      ghost var op := Set(key, entry, now);
      LaterExplained(store, history, maxEntries, clock, later);
      HistoryStep(history, op);
      UseExplained(store, history, op, Slot(key, entry), maxEntries, later);
      store := Remove(store, key);
      store := store + [Slot(key, entry)];
      history, clock := history + [op], later;
      SweepExpired(later);
      EvictOverflow();
    }

    method SweepExpired(now: int)
      requires ExplainsUnbounded(store, history, maxEntries, now)
      modifies this`store, this`lastSweep
      ensures ExplainsUnbounded(store, history, maxEntries, now)
      ensures if sweepIntervalMs > 0 && now - old(lastSweep) < sweepIntervalMs
              then store == old(store) && lastSweep == old(lastSweep)
              else store == Unexpired(old(store), now) && lastSweep == now
      ensures sweepIntervalMs <= 0 || now - old(lastSweep) >= sweepIntervalMs ==>
                forall x :: x in store <==>
                  x in old(store) && (x.entry.expiresAt.None? || now <= x.entry.expiresAt.value)
    {
      if sweepIntervalMs > 0 && now - lastSweep < sweepIntervalMs { return; }
      lastSweep := now;
      SweepExplained(store, history, maxEntries, now);
      ghost var keep := (x: Slot) => !Expired(x.entry, now);
      var kept: Store := [];
      for i := 0 to |store|
        invariant store == old(store) && lastSweep == now
        invariant kept == Unexpired(store[..i], now)
      {
        assert store[..i + 1] == store[..i] + [store[i]];
        FilterAppend(store[..i], [store[i]], keep);
        if !Expired(store[i].entry, now) { kept := kept + [store[i]]; }
      }
      assert store[..|store|] == store;
      forall x ensures x in kept <==> x in store && keep(x) { FilterMembers(store, keep, x); }
      store := kept;
    }

    method EvictOverflow()
      requires ExplainsUnbounded(store, history, maxEntries, clock)
      modifies this`store
      ensures Valid()
      ensures store == Newest(old(store), maxEntries)
    {
      OverflowExplained(store, history, maxEntries, clock);
      if maxEntries.None? { return; }
      store := DropOldest(store, maxEntries.value);
    }

    /** The eviction loop: the oldest slot goes until `max` are left. */
    static method DropOldest(s: Store, max: nat) returns (r: Store)
      ensures r == Newest(s, Some(max))
    {
      r := s;
      ghost var dropped := 0;
      while |r| > max
        invariant dropped <= |s| && r == s[dropped..]
        invariant dropped > 0 ==> |r| >= max
      {
        r := r[1..];
        dropped := dropped + 1;
      }
    }

    method DeleteKey(key: CacheKey)
      requires Valid()
      modifies this
      ensures Valid() && clock == old(clock) && history == old(history) + [Delete(key)]
    {
      ForgetExplained(store, history, Delete(key), key, maxEntries, clock);
      store := Remove(store, key);
      history := history + [Delete(key)];
    }

    method ClearAll()
      requires Valid()
      modifies this
      ensures Valid() && clock == old(clock) && history == old(history) + [Clear]
    {
      forall k ensures Latest(history + [Clear], k) == None { ClearedHistory(history, k); }
      store := [];
      history := history + [Clear];
    }
  }
}
