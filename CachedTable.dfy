/**
 * The server's cached table (`CachedTable` of omuserver).
 *
 * A table maps string keys to byte strings. Its persistent store (the
 * adapter) is modelled as a map; what the table hands to its listeners, to
 * proxy sessions and to the adapter's `store()` is recorded in an effect log.
 * In front of the store sits a cache that is bounded by `cache_size` and
 * evicts the oldest key first.
 */
module CachedTables {
  import opened Wrappers
  import opened Collections
  import opened Identifiers

  type Items = Dict<string, Bytes>
  type Store = map<string, Bytes>

  datatype TableError =
    | TableNotSet       // `Exception("Table not set")`: no adapter yet
    | NotProxySession   // `ValueError("Session not in proxy sessions")`
    | NoProxySession    // `IndexError` from `tuple(...)[0]` on no proxy sessions

  /** What a `ServerTableListener` is told. */
  datatype TableEvent =
    | OnAdd(items: Items)
    | OnUpdate(items: Items)
    | OnRemove(items: Items)
    | OnClear
    | OnCacheUpdate(cache: Items)

  /** `SessionTableListener(table key, session)`, the listener a session gets on attach. */
  datatype Listener = SessionListener(table: Identifier, session: Session)

  /** The table's outward actions, in the order it performs them. */
  datatype Effect =
    | Notify(listener: Listener, event: TableEvent)
    | ProxySend(session: Session, table: Identifier, items: Items, key: int)
    | AdapterRead(keys: seq<string>)
    | AdapterStore

  /** `for listener in self._listeners: await listener.on_...(...)` */
  function Broadcast(listeners: seq<Listener>, event: TableEvent): seq<Effect> {
    seq(|listeners|, i requires 0 <= i < |listeners| => Notify(listeners[i], event))
  }

  // ---------------------------------------------------------------------------
  // The adapter, as a map

  /** The adapter's `get_all(keys)`: the stored entries among `keys`, in request order. */
  function Fetch(store: Store, keys: seq<string>): (r: Items)
    ensures forall k :: Lookup(r, k) == if k in keys && k in store then Some(store[k]) else None
    decreases |keys|
  {
    if |keys| == 0 then []
    else
      var n := |keys| - 1;
      assert keys == keys[..n] + [keys[n]];
      var r := Fetch(store, keys[..n]);
      if keys[n] in store then Put(r, keys[n], store[keys[n]]) else r
  }

  /** The adapter's `set_all(items)`. */
  function SetAll(store: Store, items: Items): (r: Store)
    ensures forall k :: k in r <==> k in store || k in Keys(items)
    ensures forall k | k in r :: Some(r[k]) == (if k in Keys(items) then Lookup(items, k) else Some(store[k]))
  {
    store + ToMap(items)
  }

  /** Every cached entry holds the value the store holds for its key. */
  ghost predicate Agrees(cache: Items, store: Store) {
    forall k | k in Keys(cache) :: k in store && Lookup(cache, k) == Some(store[k])
  }

  // ---------------------------------------------------------------------------
  // update_cache

  /** One turn of `update_cache`'s loop: `cache[key] = item`, then drop the first key if over the bound. */
  function CacheStep(cache: Items, size: int, key: string, item: Bytes): Items {
    var c := Put(cache, key, item);
    if |c| > size then Delete(c, c[0].0) else c
  }

  /** `update_cache`'s loop over `items` with a positive bound. */
  function CacheWrite(cache: Items, size: int, items: Items): Items
    decreases |items|
  {
    if |items| == 0 then cache
    else
      var n := |items| - 1;
      CacheStep(CacheWrite(cache, size, items[..n]), size, items[n].0, items[n].1)
  }

  /** Whether `update_cache` goes past its early return (and so notifies listeners). */
  predicate Caching(cacheSize: Option<int>) {
    cacheSize.Some? && cacheSize.value > 0
  }

  /** The cache after `update_cache(items)`; `None` or a bound `<= 0` switches caching off. */
  function UpdatedCache(cache: Items, cacheSize: Option<int>, items: Items): (r: Items)
    ensures !Caching(cacheSize) ==> r == cache
  {
    if Caching(cacheSize) then CacheWrite(cache, cacheSize.value, items) else cache
  }

  /** Writing a key the cache already holds replaces its value in place and evicts nothing. */
  lemma CacheStepOverwrite(cache: Items, size: int, key: string, item: Bytes)
    requires key in Keys(cache) && |cache| <= size
    ensures Keys(CacheStep(cache, size, key, item)) == Keys(cache)
    ensures CacheStep(cache, size, key, item) == cache[IndexOf(cache, key) := (key, item)]
  {
  }

  /** Deleting `next(iter(d))` drops the first entry. */
  lemma RemoveFirstKey(d: Items)
    requires |d| > 0
    ensures Delete(d, d[0].0) == d[1..]
  {
    assert d[0].0 in Keys(d);
    assert IndexOf(d, d[0].0) == 0;
  }

  lemma KeysAfterEviction(cache: Items, key: string, item: Bytes)
    requires |cache| > 0
    ensures Keys(cache[1..] + [(key, item)]) == Keys(cache)[1..] + [key]
  {
  }

  /** Writing a new key into a full cache evicts the earliest-inserted key and appends the new one. */
  lemma CacheStepEvictsOldest(cache: Items, size: int, key: string, item: Bytes)
    requires key !in Keys(cache) && 0 < size == |cache|
    ensures CacheStep(cache, size, key, item) == cache[1..] + [(key, item)]
    ensures Keys(CacheStep(cache, size, key, item)) == Keys(cache)[1..] + [key]
  {
    var c := Put(cache, key, item);
    assert c == cache + [(key, item)];
    assert |c| > size;
    assert CacheStep(cache, size, key, item) == Delete(c, c[0].0);
    RemoveFirstKey(c);
    assert c[1..] == cache[1..] + [(key, item)];
    KeysAfterEviction(cache, key, item);
  }

  /** Writing a new key into a cache with room appends it and evicts nothing. */
  lemma CacheStepAppends(cache: Items, size: int, key: string, item: Bytes)
    requires key !in Keys(cache) && |cache| < size
    ensures CacheStep(cache, size, key, item) == cache + [(key, item)]
  {
  }

  /** A write never grows a cache that is within its bound past that bound. */
  lemma CacheStepBounded(cache: Items, size: int, key: string, item: Bytes)
    requires 0 < size && |cache| <= size
    ensures |CacheStep(cache, size, key, item)| <= size
    ensures key in Keys(CacheStep(cache, size, key, item))
    ensures forall k | k in Keys(CacheStep(cache, size, key, item)) ::
      Lookup(CacheStep(cache, size, key, item), k) == Lookup(Put(cache, key, item), k)
  {
    var c := Put(cache, key, item);
    if |c| > size {
      assert key !in Keys(cache);
      assert c == cache + [(key, item)];
      assert c[|c| - 1].0 == key;
    }
  }

  /** With a positive bound the cache never ends up over it, provided it started within it. */
  lemma {:induction false} CacheWriteBounded(cache: Items, size: int, items: Items)
    requires 0 < size && |cache| <= size
    ensures |CacheWrite(cache, size, items)| <= size
    decreases |items|
  {
    if |items| > 0 {
      var n := |items| - 1;
      CacheWriteBounded(cache, size, items[..n]);
      CacheStepBounded(CacheWrite(cache, size, items[..n]), size, items[n].0, items[n].1);
    }
  }

  /**
   * A cache already over its bound (after `set_cache_size` lowered it) stays
   * over it: a new key is appended and only one entry is dropped.
   */
  lemma CacheStepStaysOver(cache: Items, size: int, key: string, item: Bytes)
    requires 0 < size < |cache| && key !in Keys(cache)
    ensures |CacheStep(cache, size, key, item)| == |cache|
  {
  }

  /** In a cache over its bound, overwriting the first key evicts the entry just written. */
  lemma CacheStepEvictsWritten(cache: Items, size: int, key: string, item: Bytes)
    requires 0 < size < |cache| && cache[0].0 == key
    ensures key !in Keys(CacheStep(cache, size, key, item))
  {
  }

  /** `while len(cache) > size: del cache[next(iter(cache))]`. */
  function Trim(c: Items, size: nat): Items
    decreases |c|
  {
    if |c| > size then Trim(Delete(c, c[0].0), size) else c
  }

  /** One turn of the trimming loop drops the first entry. */
  lemma TrimStep(c: Items, size: nat)
    requires |c| > size
    ensures Trim(c, size) == Trim(c[1..], size)
  {
  }

  /** Trimming keeps the newest `size` entries. */
  lemma {:induction false} TrimSuffix(c: Items, size: nat)
    ensures |c| > size ==> Trim(c, size) == c[|c| - size..]
    ensures |c| <= size ==> Trim(c, size) == c
    decreases |c|
  {
    if |c| > size {
      TrimStep(c, size);
      TrimSuffix(c[1..], size);
      assert c[1..][|c| - 1 - size..] == c[|c| - size..];
    }
  }

  /** The loop step with the bound restored by a `while`, as a size-bounded cache evidently intends. */
  function CacheStepTrimmed(cache: Items, size: nat, key: string, item: Bytes): Items {
    Trim(Put(cache, key, item), size)
  }

  /** Whatever cache it starts from, the trimmed step ends within the bound. */
  lemma CacheStepTrimmedBounded(cache: Items, size: nat, key: string, item: Bytes)
    ensures |CacheStepTrimmed(cache, size, key, item)| <= size
  {
    TrimSuffix(Put(cache, key, item), size);
  }

  /** The trimmed step keeps a newly written key as its newest entry. */
  lemma CacheStepTrimmedKeepsNew(cache: Items, size: nat, key: string, item: Bytes)
    requires 0 < size && key !in Keys(cache)
    ensures var r := CacheStepTrimmed(cache, size, key, item);
      |r| > 0 && r[|r| - 1] == (key, item)
  {
    var c := Put(cache, key, item);
    TrimSuffix(c, size);
    assert c[|c| - 1] == (key, item);
  }

  /** On a cache within the bound the trimmed step is the loop step `update_cache` runs. */
  lemma CacheStepTrimmedWithin(cache: Items, size: nat, key: string, item: Bytes)
    requires |cache| <= size
    ensures CacheStepTrimmed(cache, size, key, item) == CacheStep(cache, size, key, item)
  {
    var c := Put(cache, key, item);
    if |c| > size {
      RemoveFirstKey(c);
      TrimSuffix(c, size);
      assert |c| == size + 1;
    } else {
      TrimSuffix(c, size);
    }
  }

  /** `{**cache, **items}` read at one key: the last item if it is that key's, otherwise the earlier items'. */
  lemma MergeLast(cache: Items, items: Items, k: string)
    requires |items| > 0
    ensures var n := |items| - 1;
      Lookup(Merge(cache, items), k)
      == if k == items[n].0 then Some(items[n].1) else Lookup(Merge(cache, items[..n]), k)
  {
    var n := |items| - 1;
    assert items == items[..n] + [items[n]];
    LookupOfAppend(items[..n], [items[n]], k);
  }

  /**
   * The cache never holds a stale value: whatever entry survives the bounded
   * writes carries the value the unbounded `{**cache, **items}` has for it,
   * and the last item written is always kept.
   */
  lemma {:induction false} CacheWriteFresh(cache: Items, size: int, items: Items)
    requires 0 < size && |cache| <= size
    ensures forall k | k in Keys(CacheWrite(cache, size, items)) ::
      Lookup(CacheWrite(cache, size, items), k) == Lookup(Merge(cache, items), k)
    ensures |items| > 0 ==> items[|items| - 1].0 in Keys(CacheWrite(cache, size, items))
    decreases |items|
  {
    if |items| > 0 {
      var n := |items| - 1;
      var before := CacheWrite(cache, size, items[..n]);
      var after := CacheStep(before, size, items[n].0, items[n].1);
      CacheWriteFresh(cache, size, items[..n]);
      CacheWriteBounded(cache, size, items[..n]);
      CacheStepBounded(before, size, items[n].0, items[n].1);
      forall k | k in Keys(after) ensures Lookup(after, k) == Lookup(Merge(cache, items), k) {
        MergeLast(cache, items, k);
      }
    }
  }

  /** Writes whose values agree with the store keep a cache that agrees with it agreeing. */
  lemma UpdatedCacheAgrees(cache: Items, cacheSize: Option<int>, items: Items, store: Store)
    requires Agrees(cache, store) && Agrees(items, store) && Fits(cache, cacheSize)
    ensures Agrees(UpdatedCache(cache, cacheSize, items), store)
    ensures Fits(UpdatedCache(cache, cacheSize, items), cacheSize)
  {
    if Caching(cacheSize) {
      var r := UpdatedCache(cache, cacheSize, items);
      CacheWriteFresh(cache, cacheSize.value, items);
      CacheWriteBounded(cache, cacheSize.value, items);
      forall k | k in Keys(r) ensures k in store && Lookup(r, k) == Some(store[k]) {
        assert Lookup(r, k) == Lookup(Merge(cache, items), k);
      }
    }
  }

  /** The cache is within its bound, and empty while caching is off. */
  predicate Fits(cache: Items, cacheSize: Option<int>) {
    if Caching(cacheSize) then |cache| <= cacheSize.value else cache == []
  }

  /** After `set_all(items)` and `update_cache(items)`, a cache that agreed with the store still does. */
  lemma WriteAgrees(cache: Items, cacheSize: Option<int>, items: Items, store: Store)
    requires Agrees(cache, store) && Fits(cache, cacheSize)
    ensures Agrees(UpdatedCache(cache, cacheSize, items), SetAll(store, items))
    ensures Fits(UpdatedCache(cache, cacheSize, items), cacheSize)
  {
    if Caching(cacheSize) {
      var s := SetAll(store, items);
      var r := UpdatedCache(cache, cacheSize, items);
      CacheWriteFresh(cache, cacheSize.value, items);
      CacheWriteBounded(cache, cacheSize.value, items);
      forall k | k in Keys(r) ensures k in s && Lookup(r, k) == Some(s[k]) {
        assert Lookup(r, k) == Lookup(Merge(cache, items), k);
        if k !in Keys(items) {
          assert k in Keys(cache);
        }
      }
    }
  }

  // ---------------------------------------------------------------------------
  // get_all

  /** The cache hits `get_all` collects: `items[key] = cache[key]` for each cached key, in request order. */
  function CacheHits(cache: Items, keys: seq<string>): (r: Items)
    ensures forall k :: Lookup(r, k) == if k in keys then Lookup(cache, k) else None
    decreases |keys|
  {
    if |keys| == 0 then []
    else
      var n := |keys| - 1;
      assert keys == keys[..n] + [keys[n]];
      var r := CacheHits(cache, keys[..n]);
      if keys[n] in Keys(cache) then Put(r, keys[n], Lookup(cache, keys[n]).value) else r
  }

  /** The caller's key list after `get_all`: the requested keys the cache lacks, in order and with repeats. */
  function Uncached(cache: Items, keys: seq<string>): (r: seq<string>)
    ensures |r| <= |keys|
    decreases |keys|
  {
    if |keys| == 0 then []
    else
      var n := |keys| - 1;
      Uncached(cache, keys[..n]) + (if keys[n] in Keys(cache) then [] else [keys[n]])
  }

  /** A key is left in the caller's list exactly when it was requested and is not cached. */
  lemma {:induction false} UncachedHas(cache: Items, keys: seq<string>, k: string)
    ensures k in Uncached(cache, keys) <==> k in keys && k !in Keys(cache)
    decreases |keys|
  {
    if |keys| > 0 {
      var n := |keys| - 1;
      assert keys == keys[..n] + [keys[n]];
      UncachedHas(cache, keys[..n], k);
    }
  }

  /** One more key of `get_all`'s loop, for the caller's list. */
  lemma UncachedStep(cache: Items, keys: seq<string>, i: nat)
    requires i < |keys|
    ensures keys[i] in Keys(cache) ==> Uncached(cache, keys[..i + 1]) == Uncached(cache, keys[..i])
    ensures keys[i] !in Keys(cache) ==> Uncached(cache, keys[..i + 1]) == Uncached(cache, keys[..i]) + [keys[i]]
  {
    assert keys[..i + 1][..i] == keys[..i];
  }

  /** One more key of `get_all`'s loop, for the answer. */
  lemma HitsStep(cache: Items, keys: seq<string>, i: nat)
    requires i < |keys|
    ensures CacheHits(cache, keys[..i + 1])
      == if keys[i] in Keys(cache) then Put(CacheHits(cache, keys[..i]), keys[i], Lookup(cache, keys[i]).value)
         else CacheHits(cache, keys[..i])
  {
    assert keys[..i + 1][..i] == keys[..i];
  }

  /** `keys.remove(key)` for a cached key finds it right after the uncached keys already passed. */
  lemma DropCachedKey(done: seq<string>, tail: seq<string>)
    requires |tail| > 0 && tail[0] !in done
    ensures tail[0] in done + tail
    ensures RemoveFirst(done + tail, tail[0]) == done + tail[1..]
  {
    var xs := done + tail;
    assert xs[|done|] == tail[0] && xs[..|done|] == done;
    RemoveFirstAt(xs, tail[0], |done|);
    assert xs[|done| + 1..] == tail[1..];
  }

  /** One more key of `get_all`'s loop, for the caller's list as the loop holds it. */
  lemma RestStep(cache: Items, keys: seq<string>, i: nat, rest: seq<string>)
    requires i < |keys| && rest == Uncached(cache, keys[..i]) + keys[i..]
    ensures keys[i] in Keys(cache) ==> keys[i] in rest && RemoveFirst(rest, keys[i]) == Uncached(cache, keys[..i + 1]) + keys[i + 1..]
    ensures keys[i] !in Keys(cache) ==> rest == Uncached(cache, keys[..i + 1]) + keys[i + 1..]
  {
    UncachedStep(cache, keys, i);
    if keys[i] in Keys(cache) {
      UncachedHas(cache, keys[..i], keys[i]);
      DropCachedKey(Uncached(cache, keys[..i]), keys[i..]);
      assert keys[i..][1..] == keys[i + 1..];
    } else {
      assert keys[i..] == [keys[i]] + keys[i + 1..];
    }
  }

  /** Deleting keys from both cache and store keeps them agreeing. */
  lemma DeleteAgrees(cache: Items, cacheSize: Option<int>, keys: seq<string>, store: Store)
    requires Agrees(cache, store) && Fits(cache, cacheSize)
    ensures Agrees(DeleteAll(cache, keys), store - set k | k in keys)
    ensures Fits(DeleteAll(cache, keys), cacheSize)
  {
    DeleteAllSpec(cache, keys);
    var r := DeleteAll(cache, keys);
    forall k | k in Keys(r) ensures k in (store - set k | k in keys) && Lookup(r, k) == Some(store[k]) {
      assert Lookup(r, k) == Lookup(cache, k);
    }
  }

  /** What `get_all` answers from cache and adapter together. */
  function Answer(cache: Items, store: Store, keys: seq<string>): Items {
    var rest := Uncached(cache, keys);
    if |rest| == 0 then CacheHits(cache, keys) else Merge(CacheHits(cache, keys), Fetch(store, rest))
  }

  /** With a cache that agrees with the store, `get_all` answers exactly the stored entries among the keys. */
  lemma AnswerIsStored(cache: Items, store: Store, keys: seq<string>)
    requires Agrees(cache, store)
    ensures forall k :: Lookup(Answer(cache, store, keys), k) == if k in keys && k in store then Some(store[k]) else None
    ensures Agrees(Answer(cache, store, keys), store)
  {
    var a := Answer(cache, store, keys);
    forall k ensures Lookup(a, k) == if k in keys && k in store then Some(store[k]) else None {
      UncachedHas(cache, keys, k);
    }
  }

  /** Every cached entry agrees with the store, and the cache fits its bound. */
  ghost predicate CoherentWith(cache: Items, cacheSize: Option<int>, adapter: Option<Store>) {
    Fits(cache, cacheSize) && (adapter.Some? ==> Agrees(cache, adapter.value))
  }

  /** The notifications `update_cache` sends after its loop. */
  function CacheNotices(listeners: seq<Listener>, cacheSize: Option<int>, cache: Items): seq<Effect> {
    if Caching(cacheSize) then Broadcast(listeners, OnCacheUpdate(cache)) else []
  }

  /**
   * The loop that opens `get_all`: each cached key is answered from the
   * cache and removed from the caller's list with `keys.remove(key)`.
   */
  method CollectCached(cache: Items, keys: seq<string>) returns (items: Items, rest: seq<string>)
    ensures items == CacheHits(cache, keys)
    ensures rest == Uncached(cache, keys)
  {
    items := [];
    rest := keys;
    var i := 0;
    while i < |keys|
      invariant 0 <= i <= |keys|
      invariant items == CacheHits(cache, keys[..i])
      invariant rest == Uncached(cache, keys[..i]) + keys[i..]
    {
      var key := keys[i];
      RestStep(cache, keys, i, rest);
      HitsStep(cache, keys, i);
      if key in Keys(cache) {
        items := Put(items, key, Lookup(cache, key).value);
        rest := RemoveFirst(rest, key);
      }
      i := i + 1;
    }
    assert keys[..i] == keys;
  }

  /**
   * The loop of `update_cache`: each entry is written into the cache, and
   * whenever the cache outgrows `size` its oldest entry is deleted.
   */
  method WriteCache(cache: Items, size: int, items: Items) returns (r: Items)
    ensures r == CacheWrite(cache, size, items)
  {
    r := cache;
    var i := 0;
    while i < |items|
      invariant 0 <= i <= |items|
      invariant r == CacheWrite(cache, size, items[..i])
    {
      var (key, item) := items[i];
      r := Put(r, key, item);
      if |r| > size {
        r := Delete(r, r[0].0);
      }
      assert items[..i + 1][..i] == items[..i];
      i := i + 1;
    }
    assert items[..i] == items;
  }

  // ---------------------------------------------------------------------------
  // The table

  class CachedTable {
    const identifier: Identifier
    /** `_listeners` */
    var listeners: seq<Listener>
    /** `_sessions`: each attached session and its listener */
    var sessions: Dict<Session, Listener>
    /** `_proxy_sessions`, keyed by app key, in registration order */
    var proxySessions: Dict<string, Session>
    /** `_changed`: there are writes the adapter has not stored yet */
    var changed: bool
    var proxyId: int
    /** `_adapter`; `None` until `set_adapter` */
    var adapter: Option<Store>
    var cache: Items
    var cacheSize: Option<int>
    var effects: seq<Effect>

    /** Each attached session has exactly its own listener, and the listeners are the sessions' in attach order. */
    ghost predicate Valid()
      reads this`listeners, this`sessions
    {
      && listeners == Values(sessions)
      && forall i | 0 <= i < |sessions| :: sessions[i].1 == SessionListener(identifier, sessions[i].0)
    }

    /** No cached entry is stale, and the cache fits its bound. */
    ghost predicate Coherent()
      reads this`cache, this`cacheSize, this`adapter
    {
      CoherentWith(cache, cacheSize, adapter)
    }

    constructor (identifier: Identifier)
      ensures this.identifier == identifier
      ensures listeners == [] && sessions == [] && proxySessions == []
      ensures !changed && proxyId == 0 && adapter == None
      ensures cache == [] && cacheSize == None && effects == []
      ensures Valid() && Coherent()
    {
      this.identifier := identifier;
      listeners, sessions, proxySessions := [], [], [];
      changed, proxyId, adapter := false, 0, None;
      cache, cacheSize, effects := [], None, [];
    }

    /** `set_config(config)`, given `config.get("cache_size", None)`. */
    method SetConfig(configCacheSize: Option<int>)
      modifies this`cacheSize
      ensures cacheSize == configCacheSize
    {
      cacheSize := configCacheSize;
    }

    method SetCacheSize(size: int)
      modifies this`cacheSize
      ensures cacheSize == Some(size)
    {
      cacheSize := Some(size);
    }

    method SetAdapter(store: Store)
      modifies this`adapter
      ensures adapter == Some(store)
      ensures old(Fits(cache, cacheSize)) && cache == [] ==> Coherent()
    {
      adapter := Some(store);
    }

    /** `store()`: persists only when something changed, and clears the flag first. */
    method Store() returns (r: Outcome<TableError>)
      modifies this`changed, this`effects
      ensures adapter.None? ==> r == Fail(TableNotSet) && unchanged(this)
      ensures adapter.Some? && !old(changed) ==> r == Pass && unchanged(this)
      ensures adapter.Some? && old(changed) ==> r == Pass && !changed && effects == old(effects) + [AdapterStore]
    {
      if adapter.None? {
        return Fail(TableNotSet);
      }
      if !changed {
        return Pass;
      }
      changed := false;
      effects := effects + [AdapterStore];
      r := Pass;
    }

    /** `mark_changed()`, without the background save task it starts. */
    method MarkChanged()
      modifies this`changed
      ensures changed
    {
      changed := true;
    }

    /** `attach_session(session)`: a session already attached gets no second listener. */
    method AttachSession(session: Session)
      requires Valid()
      modifies this`sessions, this`listeners
      ensures Valid()
      ensures session in Keys(old(sessions)) ==> sessions == old(sessions) && listeners == old(listeners)
      ensures session !in Keys(old(sessions)) ==>
        && sessions == old(sessions) + [(session, SessionListener(identifier, session))]
        && listeners == old(listeners) + [SessionListener(identifier, session)]
    {
      if session in Keys(sessions) {
        return;
      }
      var handler := SessionListener(identifier, session);
      sessions := Put(sessions, session, handler);
      listeners := listeners + [handler];
      assert Values(sessions) == Values(old(sessions)) + [handler];
    }

    /** Removing the listener of the session at position `i` keeps Valid. */
    lemma DetachKeepsValid(i: nat)
      requires Valid() && i < |sessions|
      ensures sessions[i].1 in listeners
      ensures RemoveFirst(listeners, sessions[i].1) == Values(sessions[..i] + sessions[i + 1..])
    {
      var l := sessions[i].1;
      assert listeners[i] == l;
      forall j | 0 <= j < i ensures listeners[j] != l {
        assert sessions[j].0 != sessions[i].0;
      }
      RemoveFirstAt(listeners, l, i);
      assert Values(sessions[..i] + sessions[i + 1..]) == listeners[..i] + listeners[i + 1..];
    }

    /** A session has a listener among `_listeners` exactly while it is attached. */
    lemma ListenerIffAttached(session: Session)
      requires Valid()
      ensures SessionListener(identifier, session) in listeners <==> session in Keys(sessions)
    {
      if SessionListener(identifier, session) in listeners {
        var i :| 0 <= i < |listeners| && listeners[i] == SessionListener(identifier, session);
        assert sessions[i].1 == listeners[i];
      }
      if session in Keys(sessions) {
        assert listeners[IndexOf(sessions, session)] == SessionListener(identifier, session);
      }
    }

    /** The part of `detach_session` that pops the session's listener and removes it. */
    method DropListener(session: Session)
      requires Valid()
      modifies this`sessions, this`listeners
      ensures Valid()
      ensures sessions == Delete(old(sessions), session)
    {
      if session in Keys(sessions) {
        var i := IndexOf(sessions, session);
        var handler := sessions[i].1;
        DetachKeepsValid(i);
        sessions := Delete(sessions, session);
        listeners := RemoveFirst(listeners, handler);
      }
    }

    /**
     * `detach_session(session)` as written. Its first test asks whether the
     * session object is a key of `_proxy_sessions`, whose keys are app-key
     * strings; that is never so, and the proxy registration stays.
     */
    method DetachSession(session: Session)
      requires Valid()
      modifies this`sessions, this`listeners
      ensures Valid()
      ensures proxySessions == old(proxySessions)
      ensures sessions == Delete(old(sessions), session)
      ensures session !in Keys(sessions)
    {
      DropListener(session);
    }

    /** `detach_session(session)` with the membership test on `session.app.key()`, as evidently intended. */
    method DetachSessionIntended(session: Session)
      requires Valid()
      modifies this`sessions, this`listeners, this`proxySessions
      ensures Valid()
      ensures proxySessions == Delete(old(proxySessions), session.appKey)
      ensures session.appKey !in Keys(proxySessions)
      ensures sessions == Delete(old(sessions), session)
      ensures session !in Keys(sessions)
    {
      if session.appKey in Keys(proxySessions) {
        proxySessions := Delete(proxySessions, session.appKey);
      }
      DropListener(session);
    }

    /** `attach_proxy_session(session)`: a later session of the same app takes the earlier one's place. */
    method AttachProxySession(session: Session)
      modifies this`proxySessions
      ensures proxySessions == Put(old(proxySessions), session.appKey, session)
    {
      proxySessions := Put(proxySessions, session.appKey, session);
    }

    /** `update_cache(items)` */
    method UpdateCache(items: Items)
      modifies this`cache, this`effects
      ensures cache == UpdatedCache(old(cache), cacheSize, items)
      ensures effects == old(effects) + CacheNotices(listeners, cacheSize, cache)
    {
      if !Caching(cacheSize) {
        return;
      }
      cache := WriteCache(cache, cacheSize.value, items);
      effects := effects + Broadcast(listeners, OnCacheUpdate(cache));
    }

    /** `get(key)`: a cache hit answers without reading the adapter; a miss reads it and caches what it found. */
    method Get(key: string) returns (r: Result<Option<Bytes>, TableError>)
      modifies this`cache, this`effects
      ensures adapter.None? ==> r == Err(TableNotSet) && unchanged(this)
      ensures adapter.Some? && key in Keys(old(cache)) ==> r == Ok(Lookup(cache, key)) && unchanged(this)
      ensures adapter.Some? && key !in Keys(old(cache)) ==>
        var store := adapter.value;
        && r == Ok(if key in store then Some(store[key]) else None)
        && cache == (if key in store then UpdatedCache(old(cache), cacheSize, [(key, store[key])]) else old(cache))
        && effects == old(effects) + [AdapterRead([key])]
             + (if key in store then CacheNotices(listeners, cacheSize, cache) else [])
      ensures old(Coherent()) ==> Coherent()
      ensures old(Coherent()) && adapter.Some? ==> r == Ok(if key in adapter.value then Some(adapter.value[key]) else None)
    {
      if adapter.None? {
        return Err(TableNotSet);
      }
      if key in Keys(cache) {
        return Ok(Lookup(cache, key));
      }
      var store := adapter.value;
      effects := effects + [AdapterRead([key])];
      if key !in store {
        return Ok(None);
      }
      var data := store[key];
      ghost var before := cache;
      UpdateCache([(key, data)]);
      if old(Coherent()) {
        UpdatedCacheAgrees(before, cacheSize, [(key, data)], store);
      }
      r := Ok(Some(data));
    }

    /**
     * `get_all(keys)`. The cached keys are answered from the cache and taken
     * out of the caller's list (`rest` is that list afterwards); only when
     * some key is left is the adapter asked, and then everything answered is
     * written to the cache.
     */
    method GetAll(keys: seq<string>) returns (r: Result<Items, TableError>, rest: seq<string>)
      modifies this`cache, this`effects
      ensures adapter.None? ==> r == Err(TableNotSet) && rest == keys && unchanged(this)
      ensures adapter.Some? ==> rest == Uncached(old(cache), keys) && r == Ok(Answer(old(cache), adapter.value, keys))
      ensures adapter.Some? && rest == [] ==> unchanged(this)
      ensures adapter.Some? && rest != [] ==>
        && cache == UpdatedCache(old(cache), cacheSize, r.value)
        && effects == old(effects) + [AdapterRead(rest)] + CacheNotices(listeners, cacheSize, cache)
      ensures old(Coherent()) ==> Coherent()
      ensures old(Coherent()) && adapter.Some? ==>
        forall k :: Lookup(r.value, k) == if k in keys && k in adapter.value then Some(adapter.value[k]) else None
    {
      if adapter.None? {
        return Err(TableNotSet), keys;
      }
      var items;
      items, rest := CollectCached(cache, keys);
      var store := adapter.value;
      if old(Coherent()) {
        AnswerIsStored(cache, store, keys);
      }
      if |rest| == 0 {
        return Ok(items), rest;
      }
      var data := Fetch(store, rest);
      effects := effects + [AdapterRead(rest)];
      items := Merge(items, data);
      ghost var before := cache;
      UpdateCache(items);
      if old(Coherent()) {
        UpdatedCacheAgrees(before, cacheSize, items, store);
      }
      r := Ok(items);
    }

    /** The tail `add`, `update` and the last proxy share: store, notify, cache, mark changed. */
    method Commit(items: Items, event: TableEvent)
      requires adapter.Some?
      modifies this`adapter, this`cache, this`effects, this`changed
      ensures adapter == Some(SetAll(old(adapter).value, items))
      ensures cache == UpdatedCache(old(cache), cacheSize, items)
      ensures effects == old(effects) + Broadcast(listeners, event) + CacheNotices(listeners, cacheSize, cache)
      ensures changed
      ensures old(Coherent()) ==> Coherent()
    {
      ghost var store := adapter.value;
      adapter := Some(SetAll(adapter.value, items));
      effects := effects + Broadcast(listeners, event);
      ghost var before := cache;
      UpdateCache(items);
      if old(Coherent()) {
        WriteAgrees(before, cacheSize, items, store);
      }
      MarkChanged();
    }

    /** `send_proxy_event(items)`: hands the items to the first proxy session under a new proxy id. */
    method SendProxyEvent(items: Items) returns (r: Outcome<TableError>)
      modifies this`proxyId, this`effects
      ensures |proxySessions| == 0 ==> r == Fail(NoProxySession) && unchanged(this)
      ensures |proxySessions| > 0 ==>
        && r == Pass
        && proxyId == old(proxyId) + 1
        && effects == old(effects) + [ProxySend(proxySessions[0].1, identifier, items, proxyId)]
    {
      if |proxySessions| == 0 {
        return Fail(NoProxySession);
      }
      var session := Values(proxySessions)[0];
      proxyId := proxyId + 1;
      effects := effects + [ProxySend(session, identifier, items, proxyId)];
      r := Pass;
    }

    /** `add(items)`: with a proxy session registered, the items go to the proxies and nothing is written. */
    method Add(items: Items) returns (r: Outcome<TableError>)
      modifies this`adapter, this`cache, this`effects, this`changed, this`proxyId
      ensures adapter.None? ==> r == Fail(TableNotSet) && unchanged(this)
      ensures old(adapter).Some? && |proxySessions| > 0 ==>
        && r == Pass
        && proxyId == old(proxyId) + 1
        && adapter == old(adapter) && cache == old(cache) && changed == old(changed)
        && effects == old(effects) + [ProxySend(proxySessions[0].1, identifier, items, proxyId)]
      ensures old(adapter).Some? && |proxySessions| == 0 ==>
        && r == Pass
        && proxyId == old(proxyId)
        && adapter == Some(SetAll(old(adapter).value, items))
        && cache == UpdatedCache(old(cache), cacheSize, items)
        && effects == old(effects) + Broadcast(listeners, OnAdd(items)) + CacheNotices(listeners, cacheSize, cache)
        && changed
      ensures old(Coherent()) ==> Coherent()
    {
      if adapter.None? {
        return Fail(TableNotSet);
      }
      if |proxySessions| > 0 {
        r := SendProxyEvent(items);
        return;
      }
      Commit(items, OnAdd(items));
      r := Pass;
    }

    /**
     * `proxy(session, key, items)`: a proxy session hands back the items it
     * processed. The last proxy in registration order commits them and gets
     * 0; any other forwards them to the next proxy under the table's current
     * proxy id (the `key` argument is not used) and gets that id.
     */
    method Proxy(session: Session, key: int, items: Items) returns (r: Result<int, TableError>)
      modifies this`adapter, this`cache, this`effects, this`changed
      ensures adapter.None? ==> r == Err(TableNotSet) && unchanged(this)
      ensures old(adapter).Some? && session.appKey !in Keys(proxySessions) ==> r == Err(NotProxySession) && unchanged(this)
      ensures old(adapter).Some? && session.appKey in Keys(proxySessions) ==>
        var index := IndexOf(proxySessions, session.appKey);
        if index == |proxySessions| - 1 then
          && r == Ok(0)
          && adapter == Some(SetAll(old(adapter).value, items))
          && cache == UpdatedCache(old(cache), cacheSize, items)
          && effects == old(effects) + Broadcast(listeners, OnAdd(items)) + CacheNotices(listeners, cacheSize, cache)
          && changed
        else
          && r == Ok(proxyId)
          && adapter == old(adapter) && cache == old(cache) && changed == old(changed)
          && effects == old(effects) + [ProxySend(proxySessions[index + 1].1, identifier, items, proxyId)]
      ensures old(Coherent()) ==> Coherent()
    {
      if adapter.None? {
        return Err(TableNotSet);
      }
      if session.appKey !in Keys(proxySessions) {
        return Err(NotProxySession);
      }
      var index := IndexOf(proxySessions, session.appKey);
      if index == |proxySessions| - 1 {
        Commit(items, OnAdd(items));
        return Ok(0);
      }
      var next := Values(proxySessions)[index + 1];
      effects := effects + [ProxySend(next, identifier, items, proxyId)];
      r := Ok(proxyId);
    }

    /** `update(items)` */
    method Update(items: Items) returns (r: Outcome<TableError>)
      modifies this`adapter, this`cache, this`effects, this`changed
      ensures adapter.None? ==> r == Fail(TableNotSet) && unchanged(this)
      ensures old(adapter).Some? ==>
        && r == Pass
        && adapter == Some(SetAll(old(adapter).value, items))
        && cache == UpdatedCache(old(cache), cacheSize, items)
        && effects == old(effects) + Broadcast(listeners, OnUpdate(items)) + CacheNotices(listeners, cacheSize, cache)
        && changed
      ensures old(Coherent()) ==> Coherent()
    {
      if adapter.None? {
        return Fail(TableNotSet);
      }
      Commit(items, OnUpdate(items));
      r := Pass;
    }

    /** `remove(keys)`: listeners are told the entries the adapter held for the keys. */
    method Remove(keys: seq<string>) returns (r: Outcome<TableError>)
      modifies this`adapter, this`cache, this`effects, this`changed
      ensures adapter.None? ==> r == Fail(TableNotSet) && unchanged(this)
      ensures old(adapter).Some? ==>
        && r == Pass
        && adapter == Some(old(adapter).value - set k | k in keys)
        && cache == DeleteAll(old(cache), keys)
        && effects == old(effects) + [AdapterRead(keys)] + Broadcast(listeners, OnRemove(Fetch(old(adapter).value, keys)))
        && changed
      ensures old(Coherent()) ==> Coherent()
    {
      if adapter.None? {
        return Fail(TableNotSet);
      }
      var removed := Fetch(adapter.value, keys);
      effects := effects + [AdapterRead(keys)];
      ghost var store := adapter.value;
      var remaining := adapter.value - set k | k in keys;
      adapter := Some(remaining);
      cache := DeleteEach(cache, keys);
      if old(Coherent()) {
        DeleteAgrees(old(cache), cacheSize, keys, store);
      }
      effects := effects + Broadcast(listeners, OnRemove(removed));
      MarkChanged();
      r := Pass;
    }

    /** `clear()` */
    method Clear() returns (r: Outcome<TableError>)
      modifies this`adapter, this`cache, this`effects, this`changed
      ensures adapter.None? ==> r == Fail(TableNotSet) && unchanged(this)
      ensures old(adapter).Some? ==>
        && r == Pass && adapter == Some(map[]) && cache == []
        && effects == old(effects) + Broadcast(listeners, OnClear) && changed
      ensures old(Coherent()) ==> Coherent()
    {
      if adapter.None? {
        return Fail(TableNotSet);
      }
      adapter := Some(map[]);
      effects := effects + Broadcast(listeners, OnClear);
      cache := [];
      MarkChanged();
      r := Pass;
    }

    /**
     * `size()` counts the cached entries, not the stored ones: with caching
     * off a coherent table reports 0 whatever its adapter holds.
     */
    method Size() returns (n: int)
      ensures n == |cache|
      ensures Coherent() && !Caching(cacheSize) ==> n == 0
      ensures Coherent() && Caching(cacheSize) ==> 0 <= n <= cacheSize.value
    {
      n := |cache|;
    }
  }

  /** As written: a session registered as a proxy, then detached, leaves its app registered as a proxy. */
  method DetachedProxy(id: Identifier, s: Session) returns (t: CachedTable)
    ensures fresh(t)
    ensures t.identifier == id && t.proxySessions == [(s.appKey, s)]
    ensures t.effects == [] && t.proxyId == 0
  {
    t := new CachedTable(id);
    t.AttachProxySession(s);
    assert t.proxySessions == [(s.appKey, s)];
    t.DetachSession(s);
  }

  /** Finding, as written: after detach, the session's app is still a proxy and `add` still sends to it. */
  method DetachedProxyStillServed(id: Identifier, s: Session, items: Items) returns (t: CachedTable)
    ensures s.appKey in Keys(t.proxySessions)
    ensures t.effects == [ProxySend(s, id, items, 1)]
    ensures t.adapter == Some(map[])
  {
    t := DetachedProxy(id, s);
    t.SetAdapter(map[]);
    assert t.proxySessions[0].1 == s;
    var r := t.Add(items);
  }

  /** Corrected: the intended detach also releases the session's app as a proxy. */
  method ReleasedProxy(id: Identifier, s: Session) returns (t: CachedTable)
    ensures fresh(t)
    ensures t.identifier == id && t.proxySessions == []
  {
    t := new CachedTable(id);
    t.AttachProxySession(s);
    assert t.proxySessions == [(s.appKey, s)];
    t.DetachSessionIntended(s);
  }

  /** Finding, corrected: after the intended detach the app is no proxy and `add` writes the items. */
  method DetachedProxyReleased(id: Identifier, s: Session, items: Items) returns (t: CachedTable)
    ensures s.appKey !in Keys(t.proxySessions)
    ensures t.adapter == Some(SetAll(map[], items))
  {
    t := ReleasedProxy(id, s);
    t.SetAdapter(map[]);
    var r := t.Add(items);
  }

  /** With caching off, `size()` stays 0 after `add` has stored entries. */
  method SizeWithoutCache(id: Identifier, items: Items) returns (n: int, t: CachedTable)
    ensures t.adapter == Some(SetAll(map[], items))
    ensures n == 0
  {
    t := new CachedTable(id);
    t.SetAdapter(map[]);
    var r := t.Add(items);
    n := t.Size();
  }
}
