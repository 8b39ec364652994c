/**
 * The client's tables (`TableExtension` and `TableImpl` of omu).
 *
 * A client table keeps a local cache of deserialized items keyed by string,
 * runs the items the server hands it through the client's proxies, and turns
 * items into bytes and back with its table type's serializer. Endpoint calls,
 * packets sent and what the table's listeners are told are recorded in an
 * event log. The serializer, the key function and each proxy are functions
 * given from outside.
 */
module ClientTables {
  import opened Wrappers
  import opened Collections
  import opened Identifiers

  /** `TableType`: a table's identifier, its serializer and its key function. */
  datatype TableType<!T> = TableType(
    identifier: Identifier,
    serialize: T -> Bytes,
    deserialize: Bytes -> Option<T>,
    keyOf: T -> string)

  datatype ClientError =
    | DeserializeFailed(key: string)   // `ValueError("Failed to deserialize item with key: ...")`
    | TableExists(id: Identifier)      // `ValueError("Table with identifier ... already exists")`
    | ProxyNotFound                    // `ValueError` from `list.remove`

  /** A proxy callback; `handle` stands for the callback object's identity. */
  datatype Callback<!T> = Callback(handle: nat, apply: T -> Option<T>)

  /** What the table does outward, in order. */
  datatype ClientEvent<T(!new)> =
    | ItemsAdded(items: Dict<string, T>)         // `_listeners.add(items)`
    | ItemsUpdated(items: Dict<string, T>)       // `_listeners.update(items)`
    | ItemsRemoved(items: Dict<string, T>)       // `_listeners.remove(items)`
    | Cleared                                     // `_listeners.clear()`
    | CacheUpdated(cache: Dict<string, T>)       // `_listeners.cache_update(cache)`
    | ItemGetCall(table: Identifier, keys: seq<string>)                // `TABLE_ITEM_GET_ENDPOINT` call
    | ProxyReply(table: Identifier, key: int, data: Dict<string, Bytes>) // `TABLE_PROXY_PACKET` sent

  // ---------------------------------------------------------------------------
  // Parsing and serializing items

  /** `_parse_items(items)`: each value deserialized under its own key; the first failure names its key. */
  function Parsed<T(!new)>(deserialize: Bytes -> Option<T>, items: Dict<string, Bytes>): Result<Dict<string, T>, ClientError>
    decreases |items|
  {
    if |items| == 0 then Ok([])
    else
      var n := |items| - 1;
      match Parsed(deserialize, items[..n])
      case Err(e) => Err(e)
      case Ok(p) =>
        match deserialize(items[n].1)
        case None => Err(DeserializeFailed(items[n].0))
        case Some(v) => Ok(Put(p, items[n].0, v))
  }

  /**
   * Parsing succeeds exactly when every value deserializes, and then keeps
   * every key in its place with its deserialized value.
   */
  lemma {:induction false} ParsedOk<T(!new)>(deserialize: Bytes -> Option<T>, items: Dict<string, Bytes>)
    ensures Parsed(deserialize, items).Ok? <==> forall i | 0 <= i < |items| :: deserialize(items[i].1).Some?
    ensures Parsed(deserialize, items).Ok? ==>
      var p := Parsed(deserialize, items).value;
      && |p| == |items|
      && forall i | 0 <= i < |items| :: p[i].0 == items[i].0 && deserialize(items[i].1) == Some(p[i].1)
    decreases |items|
  {
    if |items| > 0 {
      var n := |items| - 1;
      var prefix := items[..n];
      ParsedOk(deserialize, prefix);
      assert forall i | 0 <= i < n :: prefix[i] == items[i];
      if Parsed(deserialize, prefix).Ok? && deserialize(items[n].1).Some? {
        var p := Parsed(deserialize, prefix).value;
        assert Keys(p) == Keys(prefix);
        PrefixLacksLaterKey(items, n);
      }
    }
  }

  /** A failed parse names the first key whose value does not deserialize. */
  lemma {:induction false} ParsedErr<T(!new)>(deserialize: Bytes -> Option<T>, items: Dict<string, Bytes>)
    ensures Parsed(deserialize, items).Err? ==>
      exists i | 0 <= i < |items| ::
        && Parsed(deserialize, items).error == DeserializeFailed(items[i].0)
        && deserialize(items[i].1).None?
        && forall j | 0 <= j < i :: deserialize(items[j].1).Some?
    decreases |items|
  {
    if |items| > 0 {
      var n := |items| - 1;
      var prefix := items[..n];
      ParsedErr(deserialize, prefix);
      ParsedOk(deserialize, prefix);
      if Parsed(deserialize, prefix).Err? {
        var i :| 0 <= i < n && Parsed(deserialize, prefix).error == DeserializeFailed(prefix[i].0)
          && deserialize(prefix[i].1).None? && forall j | 0 <= j < i :: deserialize(prefix[j].1).Some?;
        assert items[i] == prefix[i];
        assert forall j | 0 <= j < i :: items[j] == prefix[j];
      } else if deserialize(items[n].1).None? {
        assert forall j | 0 <= j < n :: items[j] == prefix[j];
      }
    }
  }

  /** `_serialize_items(items)`: each item's bytes under `key_function(item)`, written in order. */
  function Serialized<T(!new)>(serialize: T -> Bytes, keyOf: T -> string, items: seq<T>): Dict<string, Bytes>
    decreases |items|
  {
    if |items| == 0 then []
    else
      var n := |items| - 1;
      Put(Serialized(serialize, keyOf, items[..n]), keyOf(items[n]), serialize(items[n]))
  }

  /** The serialized keys are exactly the items' keys. */
  lemma {:induction false} SerializedKeys<T(!new)>(serialize: T -> Bytes, keyOf: T -> string, items: seq<T>, k: string)
    ensures k in Keys(Serialized(serialize, keyOf, items)) <==> exists i | 0 <= i < |items| :: keyOf(items[i]) == k
    decreases |items|
  {
    if |items| > 0 {
      var n := |items| - 1;
      SerializedKeys(serialize, keyOf, items[..n], k);
      if exists i | 0 <= i < |items| :: keyOf(items[i]) == k {
        var i :| 0 <= i < |items| && keyOf(items[i]) == k;
        if i < n {
          assert items[..n][i] == items[i];
        }
      }
      if exists i | 0 <= i < n :: keyOf(items[..n][i]) == k {
        var i :| 0 <= i < n && keyOf(items[..n][i]) == k;
        assert items[i] == items[..n][i];
      }
    }
  }

  /** Of several items with one key, the last one written is the one kept. */
  lemma {:induction false} SerializedLast<T(!new)>(serialize: T -> Bytes, keyOf: T -> string, items: seq<T>, i: nat)
    requires i < |items|
    requires forall j | i < j < |items| :: keyOf(items[j]) != keyOf(items[i])
    ensures Lookup(Serialized(serialize, keyOf, items), keyOf(items[i])) == Some(serialize(items[i]))
    decreases |items|
  {
    var n := |items| - 1;
    if i < n {
      forall j | i < j < n ensures keyOf(items[..n][j]) != keyOf(items[..n][i]) {
        assert items[..n][j] == items[j];
      }
      SerializedLast(serialize, keyOf, items[..n], i);
      assert items[..n][i] == items[i];
    }
  }

  /** Every serialized value is the serialization of one of the items. */
  lemma {:induction false} SerializedValues<T(!new)>(serialize: T -> Bytes, keyOf: T -> string, items: seq<T>)
    ensures forall e | e in Serialized(serialize, keyOf, items) :: exists j | 0 <= j < |items| :: e.1 == serialize(items[j])
    decreases |items|
  {
    if |items| > 0 {
      var n := |items| - 1;
      var before := Serialized(serialize, keyOf, items[..n]);
      SerializedValues(serialize, keyOf, items[..n]);
      forall e | e in Serialized(serialize, keyOf, items) ensures exists j | 0 <= j < |items| :: e.1 == serialize(items[j]) {
        if e in before {
          var j :| 0 <= j < n && e.1 == serialize(items[..n][j]);
          assert items[..n][j] == items[j];
        } else {
          assert e.1 == serialize(items[n]);
        }
      }
    }
  }

  /**
   * Serializing items and parsing the result gives back, under each key, the
   * last item with that key, provided the serializer round-trips.
   */
  lemma ParseSerialized<T(!new)>(tableType: TableType<T>, items: seq<T>, i: nat)
    requires forall x :: tableType.deserialize(tableType.serialize(x)) == Some(x)
    requires i < |items|
    requires forall j | i < j < |items| :: tableType.keyOf(items[j]) != tableType.keyOf(items[i])
    ensures Parsed(tableType.deserialize, Serialized(tableType.serialize, tableType.keyOf, items)).Ok?
    ensures Lookup(Parsed(tableType.deserialize, Serialized(tableType.serialize, tableType.keyOf, items)).value,
                   tableType.keyOf(items[i])) == Some(items[i])
  {
    var s := Serialized(tableType.serialize, tableType.keyOf, items);
    var k := tableType.keyOf(items[i]);
    SerializedValues(tableType.serialize, tableType.keyOf, items);
    forall m | 0 <= m < |s| ensures tableType.deserialize(s[m].1).Some? {
      assert s[m] in s;
    }
    ParsedOk(tableType.deserialize, s);
    SerializedLast(tableType.serialize, tableType.keyOf, items, i);
    var p := Parsed(tableType.deserialize, s).value;
    var m := IndexOf(s, k);
    assert s[m].1 == tableType.serialize(items[i]);
    assert tableType.deserialize(s[m].1) == Some(items[i]);
    assert p[m] == (k, items[i]);
  }

  // ---------------------------------------------------------------------------
  // The proxy pipeline

  /** One proxy over the items, in order: its result replaces an item in place, `None` drops it. */
  function ApplyProxy<T(!new)>(f: T -> Option<T>, items: Dict<string, T>): Dict<string, T>
    decreases |items|
  {
    if |items| == 0 then []
    else
      var n := |items| - 1;
      var r := ApplyProxy(f, items[..n]);
      match f(items[n].1)
      case None => r
      case Some(v) => Put(r, items[n].0, v)
  }

  /** After one proxy a key holds the proxy's result for its old value, or is gone. */
  lemma {:induction false} ApplyProxyLookup<T(!new)>(f: T -> Option<T>, items: Dict<string, T>, k: string)
    ensures Lookup(ApplyProxy(f, items), k) == if k in Keys(items) then f(Lookup(items, k).value) else None
    decreases |items|
  {
    if |items| > 0 {
      var n := |items| - 1;
      ApplyProxyLookup(f, items[..n], k);
      LookupOfAppend(items[..n], [items[n]], k);
      assert items == items[..n] + [items[n]];
    }
  }

  /** One more item through one proxy: kept items are appended after those already done. */
  lemma ApplyProxyStep<T(!new)>(f: T -> Option<T>, snap: Dict<string, T>, i: nat)
    requires i < |snap|
    ensures f(snap[i].1).None? ==> ApplyProxy(f, snap[..i + 1]) == ApplyProxy(f, snap[..i])
    ensures f(snap[i].1).Some? ==>
      ApplyProxy(f, snap[..i + 1]) == ApplyProxy(f, snap[..i]) + [(snap[i].0, f(snap[i].1).value)]
  {
    assert snap[..i + 1][..i] == snap[..i];
    PrefixLacksLaterKey(snap, i);
    ApplyProxyLookup(f, snap[..i], snap[i].0);
  }

  /** The step `_on_proxy`'s inner loop takes at position `i` of its snapshot of the items. */
  lemma ProxyStep<T(!new)>(f: T -> Option<T>, snap: Dict<string, T>, i: nat)
    requires i < |snap|
    requires DistinctKeys(ApplyProxy(f, snap[..i]) + snap[i..])
    ensures var done := ApplyProxy(f, snap[..i]) + snap[i..];
      && snap[i].0 in Keys(done)
      && (f(snap[i].1).None? ==> Delete(done, snap[i].0) == ApplyProxy(f, snap[..i + 1]) + snap[i + 1..])
      && (f(snap[i].1).Some? ==> Put(done, snap[i].0, f(snap[i].1).value) == ApplyProxy(f, snap[..i + 1]) + snap[i + 1..])
  {
    var a := ApplyProxy(f, snap[..i]);
    var done: Dict<string, T> := a + snap[i..];
    ApplyProxyStep(f, snap, i);
    assert done[|a|] == snap[i];
    assert Keys(done)[|a|] == snap[i].0;
    if f(snap[i].1).Some? {
      assert done[|a| := (snap[i].0, f(snap[i].1).value)] == a + [(snap[i].0, f(snap[i].1).value)] + snap[i + 1..];
    } else {
      assert done[..|a|] == a && done[|a| + 1..] == snap[i + 1..];
    }
  }

  /** `for key, item in list(items.items())`: one proxy over a snapshot, editing `items` in place. */
  method RunProxy<T(!new)>(f: T -> Option<T>, snap: Dict<string, T>) returns (items: Dict<string, T>)
    ensures items == ApplyProxy(f, snap)
  {
    items := snap;
    var i := 0;
    while i < |snap|
      invariant 0 <= i <= |snap|
      invariant items == ApplyProxy(f, snap[..i]) + snap[i..]
    {
      var (key, item) := snap[i];
      ProxyStep(f, snap, i);
      var updated := f(item);
      if updated.None? {
        items := Delete(items, key);
      } else {
        items := Put(items, key, updated.value);
      }
      i := i + 1;
    }
    assert snap[..i] == snap;
  }

  /** The proxies applied in registration order. */
  function ApplyProxies<T(!new)>(ps: seq<Callback<T>>, items: Dict<string, T>): Dict<string, T>
    decreases |ps|
  {
    if |ps| == 0 then items
    else ApplyProxy(ps[|ps| - 1].apply, ApplyProxies(ps[..|ps| - 1], items))
  }

  /** One item through the proxies in order; once a proxy answers `None`, no later proxy is called. */
  function Pipe<T>(ps: seq<Callback<T>>, item: Option<T>): Option<T>
    decreases |ps|
  {
    if |ps| == 0 then item
    else
      match Pipe(ps[..|ps| - 1], item)
      case None => None
      case Some(x) => ps[|ps| - 1].apply(x)
  }

  /** Each key ends up with its own item piped through the proxies, or is dropped. */
  lemma {:induction false} ApplyProxiesLookup<T(!new)>(ps: seq<Callback<T>>, items: Dict<string, T>, k: string)
    ensures Lookup(ApplyProxies(ps, items), k) == Pipe(ps, Lookup(items, k))
    decreases |ps|
  {
    if |ps| > 0 {
      var n := |ps| - 1;
      ApplyProxiesLookup(ps[..n], items, k);
      ApplyProxyLookup(ps[n].apply, ApplyProxies(ps[..n], items), k);
    }
  }

  /** An item a proxy drops stays dropped: it reaches no later proxy and is not in the output. */
  lemma {:induction false} DroppedStaysDropped<T>(ps: seq<Callback<T>>, j: nat, item: Option<T>)
    requires j <= |ps| && Pipe(ps[..j], item).None?
    ensures Pipe(ps, item).None?
    decreases |ps|
  {
    if j < |ps| {
      var n := |ps| - 1;
      assert ps[..n][..j] == ps[..j];
      DroppedStaysDropped(ps[..n], j, item);
    } else {
      assert ps[..j] == ps;
    }
  }

  /** The proxies never add a key: the output keys are among the input keys. */
  lemma ProxiesKeepKeys<T(!new)>(ps: seq<Callback<T>>, items: Dict<string, T>, k: string)
    requires k in Keys(ApplyProxies(ps, items))
    ensures k in Keys(items)
  {
    ApplyProxiesLookup(ps, items, k);
    if k !in Keys(items) {
      assert ps[..0] == [];
      DroppedStaysDropped(ps, 0, None);
    }
  }

  // ---------------------------------------------------------------------------
  // The local cache

  /** `len(xs[:n])` for a sequence of length `len`: Python slicing, where a negative `n` counts from the end. */
  function SliceEnd(n: int, len: nat): (m: nat)
    ensures m <= len
  {
    if n >= 0 then (if n < len then n else len)
    else if len + n > 0 then len + n else 0
  }

  /** The cache `update_cache(items)` leaves: the items themselves, or the first entries of `{**cache, **items}`. */
  function ClientCache<T(!new)>(cache: Dict<string, T>, cacheSize: Option<int>, items: Dict<string, T>): Dict<string, T> {
    if cacheSize.None? then items
    else
      var merged := Merge(cache, items);
      merged[..SliceEnd(cacheSize.value, |merged|)]
  }

  /**
   * With a cache size `n >= 0` the cache keeps at most `n` entries; those are
   * the first of the merged cache, and an incoming value wins over the old
   * one for a shared key.
   */
  lemma ClientCacheBounded<T(!new)>(cache: Dict<string, T>, n: int, items: Dict<string, T>, k: string)
    requires n >= 0
    ensures |ClientCache(cache, Some(n), items)| <= n
    ensures ClientCache(cache, Some(n), items) <= Merge(cache, items)
    ensures k in Keys(ClientCache(cache, Some(n), items)) ==>
      Lookup(ClientCache(cache, Some(n), items), k) == if k in Keys(items) then Lookup(items, k) else Lookup(cache, k)
  {
    var merged := Merge(cache, items);
    LookupOfPrefix(merged, SliceEnd(n, |merged|), k);
  }

  /**
   * A full cache takes no new key: when the cache already holds `n` entries
   * and the items bring only new keys, the cache keeps its first `n` entries
   * and the items are dropped.
   */
  lemma ClientCacheDropsNewKeys<T(!new)>(cache: Dict<string, T>, n: int, items: Dict<string, T>)
    requires 0 <= n <= |cache| && DistinctKeys(cache + items)
    ensures ClientCache(cache, Some(n), items) == cache[..n]
  {
    MergeFresh(cache, items);
    assert (cache + items)[..n] == cache[..n];
  }

  // ---------------------------------------------------------------------------
  // TableImpl

  class TableImpl<T(!new)> {
    const tableType: TableType<T>
    /** `_cache` */
    var cache: Dict<string, T>
    /** `_proxies`, in registration order */
    var proxies: seq<Callback<T>>
    /** `_cache_size` */
    var cacheSize: Option<int>
    var events: seq<ClientEvent<T>>

    constructor (tableType: TableType<T>)
      ensures this.tableType == tableType
      ensures cache == [] && proxies == [] && cacheSize == None && events == []
    {
      this.tableType := tableType;
      cache, proxies, cacheSize, events := [], [], None, [];
    }

    method SetCacheSize(size: Option<int>)
      modifies this`cacheSize
      ensures cacheSize == size
    {
      cacheSize := size;
    }

    /** `_parse_items(items)` */
    method ParseItems(items: Dict<string, Bytes>) returns (r: Result<Dict<string, T>, ClientError>)
      ensures r == Parsed(tableType.deserialize, items)
    {
      var parsed: Dict<string, T> := [];
      var i := 0;
      while i < |items|
        invariant 0 <= i <= |items|
        invariant Parsed(tableType.deserialize, items[..i]) == Ok(parsed)
      {
        var (key, bytes) := items[i];
        var item := tableType.deserialize(bytes);
        ParsedStep(tableType.deserialize, items, i);
        if item.None? {
          ParsedFailsOn(tableType.deserialize, items, i);
          return Err(DeserializeFailed(key));
        }
        parsed := Put(parsed, key, item.value);
        i := i + 1;
      }
      assert items[..i] == items;
      r := Ok(parsed);
    }

    /** `_serialize_items(items)` */
    method SerializeItems(items: seq<T>) returns (r: Dict<string, Bytes>)
      ensures r == Serialized(tableType.serialize, tableType.keyOf, items)
    {
      r := [];
      var i := 0;
      while i < |items|
        invariant 0 <= i <= |items|
        invariant r == Serialized(tableType.serialize, tableType.keyOf, items[..i])
      {
        var item := items[i];
        r := Put(r, tableType.keyOf(item), tableType.serialize(item));
        assert items[..i + 1][..i] == items[..i];
        i := i + 1;
      }
      assert items[..i] == items;
    }

    /** `update_cache(items)`: with no cache size the cache becomes exactly the items. */
    method UpdateCache(items: Dict<string, T>)
      modifies this`cache, this`events
      ensures cache == ClientCache(old(cache), cacheSize, items)
      ensures cacheSize.None? ==> cache == items
      ensures events == old(events) + [CacheUpdated(cache)]
    {
      if cacheSize.None? {
        cache := items;
      } else {
        var merged := Merge(cache, items);
        cache := merged[..SliceEnd(cacheSize.value, |merged|)];
      }
      events := events + [CacheUpdated(cache)];
    }

    /**
     * `get(key)`: a cached key is answered from the cache with no endpoint
     * call; otherwise the endpoint's `response` is parsed and merged into the
     * cache unbounded (`self._cache.update(items)`).
     */
    method Get(key: string, response: Dict<string, Bytes>) returns (r: Result<Option<T>, ClientError>)
      modifies this`cache, this`events
      ensures key in Keys(old(cache)) ==> r == Ok(Lookup(cache, key)) && unchanged(this)
      ensures key !in Keys(old(cache)) ==>
        && events == old(events) + [ItemGetCall(tableType.identifier, [key])]
        && match Parsed(tableType.deserialize, response)
           case Err(e) => r == Err(e) && cache == old(cache)
           case Ok(items) => r == Ok(Lookup(items, key)) && cache == Merge(old(cache), items)
    {
      if key in Keys(cache) {
        return Ok(Lookup(cache, key));
      }
      events := events + [ItemGetCall(tableType.identifier, [key])];
      var parsed := ParseItems(response);
      if parsed.Err? {
        return Err(parsed.error);
      }
      var items := parsed.value;
      cache := Merge(cache, items);
      r := Ok(Lookup(items, key));
    }

    /** `_on_item_add(packet)`: for this table, listeners hear of the added items and the cache takes them in. */
    method OnItemAdd(packetId: Identifier, packetItems: Dict<string, Bytes>) returns (r: Outcome<ClientError>)
      modifies this`cache, this`events
      ensures packetId != tableType.identifier ==> r == Pass && unchanged(this)
      ensures packetId == tableType.identifier ==>
        match Parsed(tableType.deserialize, packetItems)
        case Err(e) => r == Fail(e) && unchanged(this)
        case Ok(items) =>
          && r == Pass
          && cache == ClientCache(old(cache), cacheSize, items)
          && events == old(events) + [ItemsAdded(items), CacheUpdated(cache)]
    {
      if packetId != tableType.identifier {
        return Pass;
      }
      var parsed := ParseItems(packetItems);
      if parsed.Err? {
        return Fail(parsed.error);
      }
      events := events + [ItemsAdded(parsed.value)];
      UpdateCache(parsed.value);
      r := Pass;
    }

    /** `_on_item_update(packet)`: as `_on_item_add`, with listeners told of an update. */
    method OnItemUpdate(packetId: Identifier, packetItems: Dict<string, Bytes>) returns (r: Outcome<ClientError>)
      modifies this`cache, this`events
      ensures packetId != tableType.identifier ==> r == Pass && unchanged(this)
      ensures packetId == tableType.identifier ==>
        match Parsed(tableType.deserialize, packetItems)
        case Err(e) => r == Fail(e) && unchanged(this)
        case Ok(items) =>
          && r == Pass
          && cache == ClientCache(old(cache), cacheSize, items)
          && events == old(events) + [ItemsUpdated(items), CacheUpdated(cache)]
    {
      if packetId != tableType.identifier {
        return Pass;
      }
      var parsed := ParseItems(packetItems);
      if parsed.Err? {
        return Fail(parsed.error);
      }
      events := events + [ItemsUpdated(parsed.value)];
      UpdateCache(parsed.value);
      r := Pass;
    }

    /**
     * `_on_item_remove(packet)`: for this table, listeners hear of the removed
     * items and then exactly the packet's keys leave the cache.
     */
    method OnItemRemove(packetId: Identifier, packetItems: Dict<string, Bytes>) returns (r: Outcome<ClientError>)
      modifies this`cache, this`events
      ensures packetId != tableType.identifier ==> r == Pass && unchanged(this)
      ensures packetId == tableType.identifier ==>
        match Parsed(tableType.deserialize, packetItems)
        case Err(e) => r == Fail(e) && unchanged(this)
        case Ok(items) =>
          && r == Pass
          && cache == DeleteAll(old(cache), Keys(items))
          && events == old(events) + [ItemsRemoved(items), CacheUpdated(cache)]
    {
      if packetId != tableType.identifier {
        return Pass;
      }
      var parsed := ParseItems(packetItems);
      if parsed.Err? {
        return Fail(parsed.error);
      }
      var items := parsed.value;
      events := events + [ItemsRemoved(items)];
      cache := DeleteEach(cache, Keys(items));
      events := events + [CacheUpdated(cache)];
      r := Pass;
    }

    /** `_on_item_clear(packet)`: for this table, listeners hear of the clear and the cache empties. */
    method OnItemClear(packetId: Identifier)
      modifies this`cache, this`events
      ensures packetId != tableType.identifier ==> unchanged(this)
      ensures packetId == tableType.identifier ==>
        cache == [] && events == old(events) + [Cleared, CacheUpdated([])]
    {
      if packetId != tableType.identifier {
        return;
      }
      events := events + [Cleared];
      cache := [];
      events := events + [CacheUpdated(cache)];
    }

    /** `proxy(callback)`: registers the callback after those already there. */
    method Proxy(callback: Callback<T>)
      modifies this`proxies
      ensures proxies == old(proxies) + [callback]
    {
      proxies := proxies + [callback];
    }

    /** The function `proxy` returns: `self._proxies.remove(callback)`, which drops its first registration. */
    method Unsubscribe(callback: Callback<T>) returns (r: Outcome<ClientError>)
      modifies this`proxies
      ensures (forall i | 0 <= i < |old(proxies)| :: old(proxies)[i].handle != callback.handle) ==>
        r == Fail(ProxyNotFound) && proxies == old(proxies)
      ensures forall i | 0 <= i < |old(proxies)| && old(proxies)[i].handle == callback.handle
                         && (forall j | 0 <= j < i :: old(proxies)[j].handle != callback.handle) ::
        r == Pass && proxies == old(proxies)[..i] + old(proxies)[i + 1..]
    {
      var i := 0;
      while i < |proxies|
        invariant 0 <= i <= |proxies|
        invariant forall j | 0 <= j < i :: proxies[j].handle != callback.handle
      {
        if proxies[i].handle == callback.handle {
          proxies := proxies[..i] + proxies[i + 1..];
          return Pass;
        }
        i := i + 1;
      }
      r := Fail(ProxyNotFound);
    }

    /** `for proxy in self._proxies:` the outer loop of `_on_proxy`. */
    method RunProxies(parsed: Dict<string, T>) returns (items: Dict<string, T>)
      ensures items == ApplyProxies(proxies, parsed)
    {
      items := parsed;
      var j := 0;
      while j < |proxies|
        invariant 0 <= j <= |proxies|
        invariant items == ApplyProxies(proxies[..j], parsed)
      {
        items := RunProxy(proxies[j].apply, items);
        assert proxies[..j + 1][..j] == proxies[..j];
        j := j + 1;
      }
      assert proxies[..j] == proxies;
    }

    /**
     * `_on_proxy(packet)`: for this table, the items go through the proxies
     * and are sent back under the packet's key, re-keyed by the key function.
     */
    method OnProxy(packetId: Identifier, packetKey: int, packetItems: Dict<string, Bytes>) returns (r: Outcome<ClientError>)
      modifies this`events
      ensures packetId != tableType.identifier ==> r == Pass && unchanged(this)
      ensures packetId == tableType.identifier ==>
        match Parsed(tableType.deserialize, packetItems)
        case Err(e) => r == Fail(e) && unchanged(this)
        case Ok(items) =>
          && r == Pass
          && events == old(events) + [ProxyReply(tableType.identifier, packetKey,
               Serialized(tableType.serialize, tableType.keyOf, Values(ApplyProxies(proxies, items))))]
    {
      if packetId != tableType.identifier {
        return Pass;
      }
      var parsed := ParseItems(packetItems);
      if parsed.Err? {
        return Fail(parsed.error);
      }
      var items := RunProxies(parsed.value);
      var serialized := SerializeItems(Values(items));
      events := events + [ProxyReply(tableType.identifier, packetKey, serialized)];
      r := Pass;
    }
  }

  /** The prefix of a parse that meets a value that does not deserialize fails on that value's key. */
  lemma ParsedFailsOn<T(!new)>(deserialize: Bytes -> Option<T>, items: Dict<string, Bytes>, i: nat)
    requires i < |items| && Parsed(deserialize, items[..i]).Ok? && deserialize(items[i].1).None?
    ensures Parsed(deserialize, items) == Err(DeserializeFailed(items[i].0))
  {
    ParsedStep(deserialize, items, i);
    ParsedErrPersists(deserialize, items, i + 1);
  }

  /** `_parse_items`'s loop, one key further. */
  lemma ParsedStep<T(!new)>(deserialize: Bytes -> Option<T>, items: Dict<string, Bytes>, i: nat)
    requires i < |items|
    ensures Parsed(deserialize, items[..i + 1]) ==
      match Parsed(deserialize, items[..i])
      case Err(e) => Err(e)
      case Ok(p) =>
        match deserialize(items[i].1)
        case None => Err(DeserializeFailed(items[i].0))
        case Some(v) => Ok(Put(p, items[i].0, v))
  {
    assert items[..i + 1][..i] == items[..i];
  }

  /** Once a prefix of the items fails to parse, the whole fails with the same error. */
  lemma {:induction false} ParsedErrPersists<T(!new)>(deserialize: Bytes -> Option<T>, items: Dict<string, Bytes>, m: nat)
    requires m <= |items| && Parsed(deserialize, items[..m]).Err?
    ensures Parsed(deserialize, items) == Parsed(deserialize, items[..m])
    decreases |items|
  {
    if m < |items| {
      var n := |items| - 1;
      assert items[..n][..m] == items[..m];
      ParsedErrPersists(deserialize, items[..n], m);
    } else {
      assert items[..m] == items;
    }
  }

  // ---------------------------------------------------------------------------
  // TableExtension

  class TableExtension<T(!new)> {
    /** `_tables` */
    var tables: map<Identifier, TableImpl<T>>

    constructor ()
      ensures tables == map[]
    {
      tables := map[];
    }

    /** `has(identifier)` */
    function Has(identifier: Identifier): bool
      reads this
    {
      identifier in tables
    }

    /** `create(table_type)`: refuses an identifier already registered, otherwise registers a new table. */
    method Create(tableType: TableType<T>) returns (r: Result<TableImpl<T>, ClientError>)
      modifies this
      ensures tableType.identifier in old(tables) ==> r == Err(TableExists(tableType.identifier)) && tables == old(tables)
      ensures tableType.identifier !in old(tables) ==>
        && r.Ok? && fresh(r.value)
        && r.value.tableType == tableType && r.value.cache == [] && r.value.proxies == []
        && tables == old(tables)[tableType.identifier := r.value]
      ensures Has(tableType.identifier)
    {
      if Has(tableType.identifier) {
        return Err(TableExists(tableType.identifier));
      }
      var table := new TableImpl(tableType);
      tables := tables[tableType.identifier := table];
      r := Ok(table);
    }

    /** `get(table_type)`: the registered table, or a new one created and registered. */
    method Get(tableType: TableType<T>) returns (table: TableImpl<T>)
      modifies this
      ensures tableType.identifier in old(tables) ==> table == old(tables)[tableType.identifier] && tables == old(tables)
      ensures tableType.identifier !in old(tables) ==> fresh(table) && tables == old(tables)[tableType.identifier := table]
      ensures tableType.identifier in tables && tables[tableType.identifier] == table
    {
      if Has(tableType.identifier) {
        return tables[tableType.identifier];
      }
      var r := Create(tableType);
      table := r.value;
    }

    /** `model(id, name, model_type)`: a table under `id / name`, refused when that identifier is taken. */
    method Model(id: Identifier, name: string, serialize: T -> Bytes, deserialize: Bytes -> Option<T>, keyOf: T -> string)
      returns (r: Result<TableImpl<T>, ClientError>)
      modifies this
      ensures Child(id, name) in old(tables) ==> r == Err(TableExists(Child(id, name))) && tables == old(tables)
      ensures Child(id, name) !in old(tables) ==>
        && r.Ok? && fresh(r.value) && r.value.tableType.identifier == Child(id, name)
        && tables == old(tables)[Child(id, name) := r.value]
    {
      var child := Child(id, name);
      if Has(child) {
        return Err(TableExists(child));
      }
      r := Create(TableType(child, serialize, deserialize, keyOf));
    }
  }

  /** Two `get`s with one table type give the same table. */
  method GetTwiceSameTable<T(!new)>(extension: TableExtension<T>, tableType: TableType<T>)
    returns (first: TableImpl<T>, second: TableImpl<T>)
    modifies extension
    ensures first == second
  {
    first := extension.Get(tableType);
    second := extension.Get(tableType);
  }
}
