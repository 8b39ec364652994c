# omuchat tables, registries and connection packets in Dafny

This project models four parts of omuchat's Python code:

- **The server's `CachedTable`.** It is a key → bytes table in front of a persistent adapter. It keeps an insertion-ordered cache that evicts the oldest key first; a cache within `cache_size` stays within it, while one over it (after `cache_size` was lowered) loses at most one entry per write. A `_changed` flag decides whether `store()` persists. Sessions attach as listeners. Every `add` goes through the chain of proxy sessions, and only the last proxy commits it; `update`, `remove` and `clear` go straight to the adapter.
- **The client's `TableExtension` and `TableImpl`.** The extension keeps one table per identifier. Each table has a local cache with its own bound: it merges the old cache with the incoming items and keeps the first `cache_size` entries. Each table also handles remove, clear, add and update packets, runs the proxy pipeline, and parses and serializes items by key.
- **The server's `RegistryExtension`.** It creates registries on first use and keeps the start-up load list. It also decides who may register, listen to, read and write a registry.
- **The JSON forms of `ConnectPacket` and `DisconnectPacket`**, and the four built-in packet types.

Python dictionaries keep insertion order, and the cache bounds depend on that order. `Collections.Dict` is therefore a sequence of entries with distinct keys:

- assigning to a present key replaces its entry in place;
- assigning to a new key appends an entry;
- deleting a key cuts its entry out.

The table's persistent adapter is a `map`. Listener calls, proxy sends, adapter reads and `store()` calls go to an effect log, in the order the source makes them. The same applies to the client's endpoint calls and sent packets, and to the registry's `load`/`attach_session`/`store` calls.

The following come in as parameters:

- `Identifier.is_subpart_of`;
- `has_permission`;
- each serializer;
- each key function;
- each proxy callback;
- `App.to_json`/`App.from_json`.

Where the source mutates state, the model is a class:

- CachedTable;
- TableImpl;
- TableExtension;
- RegistryExtension;
- ServerRegistry.

Its methods carry `modifies` clauses on the fields they change. The source's loops are `while` loops, each proved against a specification function:

- the cache write of `update_cache`;
- the key loop of `get_all`;
- the deletes of `remove`;
- the parse and serialize loops;
- both loops of `_on_proxy`;
- the `unsubscribe`;
- `_on_start`.

The properties are proved about those functions.

## Model

Each source cell is a file of the omuchat repository, with the lines the member models.

| member | source | states |
|---|---|---|
| Identifiers.ChildInjective | packages/omu/src/omu/extension/table/table_extension.py:81-83 | a child identifier differs from its parent, and two names give the same child exactly when they are equal |
| Collections.IndexOf | packages/server/src/omuserver/extension/table/cached_table.py:142 | `tuple(d.keys()).index(k)` is the one position whose key is `k` |
| Collections.Lookup | packages/server/src/omuserver/extension/table/cached_table.py:87-88 | `d[k]` is defined exactly for a present key, and is that key's entry's value |
| Collections.Put | packages/server/src/omuserver/extension/table/cached_table.py:240 | `d[k] = v`: afterwards `k` reads `v` and every other key reads as before; a present key keeps its position (the rest of the dict is unchanged), a new key is appended |
| Collections.Delete | packages/server/src/omuserver/extension/table/cached_table.py:179-180 | the guarded `if k in d: del d[k]`, i.e. `d.pop(k, None)`: `k` is gone, every other key reads as before, the remaining entries keep their order, and a missing key changes nothing |
| Collections.Merge | packages/omu/src/omu/extension/table/table_extension.py:417 | `{**d, **e}`: a key of `e` reads `e`'s value, any other key `d`'s; no key of `d` is lost |
| Collections.DeleteAllSpec | packages/server/src/omuserver/extension/table/cached_table.py:178-180 | deleting a list of keys removes exactly those keys, keeps every other entry with its value, and never grows the dict |
| Collections.DeleteEach | packages/server/src/omuserver/extension/table/cached_table.py:178-180 | the delete loop over the keys ends with the dict the keys deleted one after another leave |
| Collections.LookupOfPrefix | packages/omu/src/omu/extension/table/table_extension.py:418-419 | `dict(tuple(d.items())[:m])` holds exactly the keys positioned before `m`, with their values |
| Collections.MergeFresh | packages/omu/src/omu/extension/table/table_extension.py:417 | merging in only keys that `d` lacks appends the new entries after `d`'s, in order |
| Collections.RemoveFirst | packages/server/src/omuserver/extension/table/cached_table.py:102 | `xs.remove(x)` removes one element |
| Collections.RemoveFirstAt | packages/server/src/omuserver/extension/table/cached_table.py:102 | `xs.remove(x)` cuts out exactly the first occurrence of `x` |
| CachedTables.Fetch | packages/server/src/omuserver/extension/table/cached_table.py:176 | the adapter's `get_all(keys)` answers exactly the stored entries among the keys, in request order |
| CachedTables.SetAll | packages/server/src/omuserver/extension/table/cached_table.py:117 | the adapter's `set_all(items)` stores every item and keeps every other stored key |
| CachedTables.UpdatedCache | packages/server/src/omuserver/extension/table/cached_table.py:236-238 | `update_cache` leaves the cache unchanged when `cache_size` is `None` or `<= 0` |
| CachedTables.CacheStepOverwrite | packages/server/src/omuserver/extension/table/cached_table.py:240-241 | in a cache holding at most `cache_size` entries, writing a key already cached replaces its value in place, keeps the key order and evicts nothing |
| CachedTables.RemoveFirstKey | packages/server/src/omuserver/extension/table/cached_table.py:242 | `del cache[next(iter(cache))]` drops exactly the first entry |
| CachedTables.CacheStepEvictsOldest | packages/server/src/omuserver/extension/table/cached_table.py:239-242 | a new key written into a full cache evicts the earliest-inserted key and goes last |
| CachedTables.CacheStepAppends | packages/server/src/omuserver/extension/table/cached_table.py:239-241 | a new key written into a cache with room is appended and nothing is evicted |
| CachedTables.CacheStepBounded | packages/server/src/omuserver/extension/table/cached_table.py:239-242 | one write keeps a cache that is within its positive bound within it; it keeps the written key, and every surviving entry reads as after the plain write |
| CachedTables.CacheWriteBounded | packages/server/src/omuserver/extension/table/cached_table.py:239-242 | with a positive `cache_size` and a cache within it, `update_cache` never leaves more than `cache_size` entries |
| CachedTables.CacheStepStaysOver | packages/server/src/omuserver/extension/table/cached_table.py:239-242 | a cache over its bound that gets a new key keeps its length, so stays over the bound |
| CachedTables.CacheStepEvictsWritten | packages/server/src/omuserver/extension/table/cached_table.py:239-242 | in a cache over its bound, writing the first key evicts the entry just written |
| CachedTables.TrimSuffix | packages/server/src/omuserver/extension/table/cached_table.py:241-242 | the `while` form of the eviction keeps the newest `cache_size` entries |
| CachedTables.CacheStepTrimmedBounded | packages/server/src/omuserver/extension/table/cached_table.py:239-242 | with the `while` form one write leaves at most `cache_size` entries, whatever the cache held before |
| CachedTables.CacheStepTrimmedKeepsNew | packages/server/src/omuserver/extension/table/cached_table.py:239-242 | with the `while` form a newly written key is kept as the newest entry |
| CachedTables.CacheStepTrimmedWithin | packages/server/src/omuserver/extension/table/cached_table.py:239-242 | on a cache within its bound the `while` form does what the `if` does |
| CachedTables.CacheWriteFresh | packages/server/src/omuserver/extension/table/cached_table.py:239-242 | for a cache within a positive `cache_size`, every entry left after the bounded writes holds the value `{**cache, **items}` has for it, and the last item written is always kept |
| CachedTables.UpdatedCacheAgrees | packages/server/src/omuserver/extension/table/cached_table.py:89-108 | caching values read from the adapter keeps the cache agreeing with the adapter and within its bound |
| CachedTables.WriteAgrees | packages/server/src/omuserver/extension/table/cached_table.py:117-120 | `set_all(items)` followed by `update_cache(items)` keeps the cache agreeing with the adapter and within its bound |
| CachedTables.WriteCache | packages/server/src/omuserver/extension/table/cached_table.py:239-242 | the loop of `update_cache` computes the specified bounded write |
| CachedTables.CacheHits | packages/server/src/omuserver/extension/table/cached_table.py:99-101 | the answer `get_all` collects from the cache holds exactly the requested keys that are cached, with the cached values |
| CachedTables.Uncached | packages/server/src/omuserver/extension/table/cached_table.py:99-102 | the caller's key list after the loop is no longer than before |
| CachedTables.UncachedHas | packages/server/src/omuserver/extension/table/cached_table.py:99-102 | a key stays in the caller's list exactly when it was requested and is not cached |
| CachedTables.DropCachedKey | packages/server/src/omuserver/extension/table/cached_table.py:102 | `keys.remove(key)` for a cached key removes the occurrence right after the uncached keys already passed |
| CachedTables.CollectCached | packages/server/src/omuserver/extension/table/cached_table.py:98-102 | the loop of `get_all` yields the cache hits and leaves the caller's list holding the uncached keys, in order and with repeats |
| CachedTables.DeleteAgrees | packages/server/src/omuserver/extension/table/cached_table.py:176-180 | removing keys from both adapter and cache keeps them agreeing and the cache within its bound |
| CachedTables.AnswerIsStored | packages/server/src/omuserver/extension/table/cached_table.py:98-109 | with a cache that agrees with the adapter, `get_all` answers exactly the stored entries among the requested keys |
| CachedTables.CachedTable.constructor | packages/server/src/omuserver/extension/table/cached_table.py:21-38 | a new table has no listeners, sessions, proxies, adapter or cache, is unchanged, has proxy id 0, and is valid and coherent |
| CachedTables.CachedTable.SetConfig | packages/server/src/omuserver/extension/table/cached_table.py:48-50 | the cache bound becomes the config's `cache_size`, or `None` |
| CachedTables.CachedTable.SetCacheSize | packages/server/src/omuserver/extension/table/cached_table.py:233-234 | the cache bound becomes `size` |
| CachedTables.CachedTable.SetAdapter | packages/server/src/omuserver/extension/table/cached_table.py:52-53 | the adapter is set; an empty cache within its bound stays coherent |
| CachedTables.CachedTable.Store | packages/server/src/omuserver/extension/table/cached_table.py:55-61 | `store` fails with no adapter and does nothing while unchanged; otherwise it clears `_changed` and persists once |
| CachedTables.CachedTable.MarkChanged | packages/server/src/omuserver/extension/table/cached_table.py:228-229 | `mark_changed` sets `_changed` |
| CachedTables.CachedTable.AttachSession | packages/server/src/omuserver/extension/table/cached_table.py:63-68 | attaching is idempotent: a second attach adds no second listener; a new session gets its own listener, appended to both sessions and listeners |
| CachedTables.CachedTable.DetachKeepsValid | packages/server/src/omuserver/extension/table/cached_table.py:74-76 | the popped handler is among the listeners, and `remove_listener` on it leaves exactly the remaining sessions' listeners |
| CachedTables.CachedTable.ListenerIffAttached | packages/server/src/omuserver/extension/table/cached_table.py:63-76 | a session's listener is registered exactly while the session is attached |
| CachedTables.CachedTable.DropListener | packages/server/src/omuserver/extension/table/cached_table.py:74-76 | the session leaves `_sessions`, and its listener leaves `_listeners` |
| CachedTables.CachedTable.DetachSession | packages/server/src/omuserver/extension/table/cached_table.py:71-76 | as written: the session and its listener are removed, and the proxy sessions stay as they were |
| CachedTables.CachedTable.DetachSessionIntended | packages/server/src/omuserver/extension/table/cached_table.py:71-76 | corrected: the session's app also leaves the proxy sessions |
| CachedTables.CachedTable.AttachProxySession | packages/server/src/omuserver/extension/table/cached_table.py:81-82 | the session is registered under its app key; a later session of the same app replaces the earlier one in its position |
| CachedTables.CachedTable.UpdateCache | packages/server/src/omuserver/extension/table/cached_table.py:236-244 | the cache becomes the bounded write of the items, and listeners hear of the new cache only when caching is on |
| CachedTables.CachedTable.Get | packages/server/src/omuserver/extension/table/cached_table.py:84-93 | `get` fails with no adapter; a cache hit is answered without reading the adapter; a miss reads the adapter and caches a found value; a coherent table answers the stored value |
| CachedTables.CachedTable.GetAll | packages/server/src/omuserver/extension/table/cached_table.py:95-109 | `get_all` strips the cached keys from the caller's list; if none are left it returns without consulting the adapter; otherwise it reads the rest and caches the whole answer; a coherent table answers exactly the stored entries |
| CachedTables.CachedTable.Commit | packages/server/src/omuserver/extension/table/cached_table.py:117-121 | a commit stores the items, notifies every listener, writes the cache and marks the table changed |
| CachedTables.CachedTable.SendProxyEvent | packages/server/src/omuserver/extension/table/cached_table.py:123-133 | the items go to the first proxy session under the incremented proxy id; with no proxy session this raises |
| CachedTables.CachedTable.Add | packages/server/src/omuserver/extension/table/cached_table.py:111-121 | with a proxy session, `add` increments the proxy id and touches neither adapter nor cache; without one, it commits |
| CachedTables.CachedTable.Proxy | packages/server/src/omuserver/extension/table/cached_table.py:135-162 | `proxy` rejects a session that is not a proxy; the last proxy commits and returns 0; any other forwards the items to the next proxy and returns the current proxy id |
| CachedTables.CachedTable.Update | packages/server/src/omuserver/extension/table/cached_table.py:164-171 | `update` stores, notifies, caches and marks the table changed |
| CachedTables.CachedTable.Remove | packages/server/src/omuserver/extension/table/cached_table.py:173-183 | `remove` deletes the keys from the adapter and from the cache, leaving every other entry; listeners hear of the entries that were stored |
| CachedTables.CachedTable.Clear | packages/server/src/omuserver/extension/table/cached_table.py:185-192 | `clear` empties the adapter and the cache, notifies and marks the table changed |
| CachedTables.CachedTable.Size | packages/server/src/omuserver/extension/table/cached_table.py:214-215 | `size` counts the cached entries, not the stored ones: a coherent table with caching off reports 0, and with caching on at most `cache_size` |
| CachedTables.SizeWithoutCache | packages/server/src/omuserver/extension/table/cached_table.py:214-215 | with no `cache_size`, `size` is 0 after `add` has stored items in the adapter |
| CachedTables.DetachedProxy | packages/server/src/omuserver/extension/table/cached_table.py:71-73 | a session registered as a proxy and then detached is still a proxy session |
| CachedTables.DetachedProxyStillServed | packages/server/src/omuserver/extension/table/cached_table.py:114-116 | after that detach, `add` still sends the items to the detached session and writes nothing |
| CachedTables.ReleasedProxy | packages/server/src/omuserver/extension/table/cached_table.py:71-73 | with the corrected test, detaching releases the proxy registration |
| CachedTables.DetachedProxyReleased | packages/server/src/omuserver/extension/table/cached_table.py:111-121 | after the corrected detach, `add` writes the items to the adapter |
| ClientTables.ParsedOk | packages/omu/src/omu/extension/table/table_extension.py:422-429 | parsing succeeds exactly when every value deserializes, and then every key keeps its position with its deserialized value |
| ClientTables.ParsedErr | packages/omu/src/omu/extension/table/table_extension.py:424-427 | a failed parse names the first key whose value does not deserialize |
| ClientTables.ParsedFailsOn | packages/omu/src/omu/extension/table/table_extension.py:426-427 | the first value that fails to deserialize decides the error of the whole parse |
| ClientTables.SerializedKeys | packages/omu/src/omu/extension/table/table_extension.py:431-436 | the serialized keys are exactly the keys `key_function` gives the items |
| ClientTables.SerializedLast | packages/omu/src/omu/extension/table/table_extension.py:433-435 | of several items with one key, the last one written is kept |
| ClientTables.SerializedValues | packages/omu/src/omu/extension/table/table_extension.py:435 | every serialized value is the serialization of one of the items |
| ClientTables.ParseSerialized | packages/omu/src/omu/extension/table/table_extension.py:422-436 | given a serializer that round-trips, parsing the serialized items succeeds and gives each key its last item back |
| ClientTables.ApplyProxyLookup | packages/omu/src/omu/extension/table/table_extension.py:365-370 | after one proxy, each key holds the proxy's result for its old value, or is gone when the proxy answered `None` |
| ClientTables.ProxyStep | packages/omu/src/omu/extension/table/table_extension.py:365-370 | one turn of the inner loop over the snapshot deletes or overwrites exactly the current key |
| ClientTables.RunProxy | packages/omu/src/omu/extension/table/table_extension.py:365-370 | the inner loop, editing `items` in place while iterating a snapshot, computes one proxy's pass over the items |
| ClientTables.ApplyProxiesLookup | packages/omu/src/omu/extension/table/table_extension.py:364-370 | each key ends with its own item run through the proxies in registration order, or is dropped |
| ClientTables.DroppedStaysDropped | packages/omu/src/omu/extension/table/table_extension.py:364-370 | an item a proxy drops reaches no later proxy and is not in the output |
| ClientTables.ProxiesKeepKeys | packages/omu/src/omu/extension/table/table_extension.py:364-370 | the output keys of the pipeline are among its input keys |
| ClientTables.SliceEnd | packages/omu/src/omu/extension/table/table_extension.py:419 | the length of `xs[:n]` never exceeds the length of `xs` |
| ClientTables.ClientCacheBounded | packages/omu/src/omu/extension/table/table_extension.py:417-419 | with `cache_size >= 0` the cache has at most `cache_size` entries; they are the first entries of the merged cache, and incoming values win for shared keys |
| ClientTables.ClientCacheDropsNewKeys | packages/omu/src/omu/extension/table/table_extension.py:417-419 | when the cache is already full and the items bring only new keys, the items are dropped and the first `cache_size` old entries stay |
| ClientTables.TableImpl.constructor | packages/omu/src/omu/extension/table/table_extension.py:178-195 | a new table has its table type, an empty cache, no proxies and no cache size |
| ClientTables.TableImpl.SetCacheSize | packages/omu/src/omu/extension/table/table_extension.py:438-439 | the cache size becomes `size`, `None` included |
| ClientTables.TableImpl.ParseItems | packages/omu/src/omu/extension/table/table_extension.py:422-429 | the parse loop computes the specified parse and stops at the first value that does not deserialize |
| ClientTables.TableImpl.SerializeItems | packages/omu/src/omu/extension/table/table_extension.py:431-436 | the serialize loop computes the specified serialization |
| ClientTables.TableImpl.UpdateCache | packages/omu/src/omu/extension/table/table_extension.py:413-420 | with no cache size the cache becomes exactly the items; otherwise it keeps the first `cache_size` entries of `{**cache, **items}`; listeners then hear of the new cache |
| ClientTables.TableImpl.Get | packages/omu/src/omu/extension/table/table_extension.py:224-234 | a cached key is answered with no endpoint call; otherwise the endpoint is called, and the parsed answer is merged into the cache without bound or the parse error is raised |
| ClientTables.TableImpl.OnItemAdd | packages/omu/src/omu/extension/table/table_extension.py:381-386 | a packet for another table changes nothing; otherwise listeners hear of the added items and the cache takes them in |
| ClientTables.TableImpl.OnItemUpdate | packages/omu/src/omu/extension/table/table_extension.py:388-393 | a packet for another table changes nothing; otherwise listeners hear of the updated items and the cache takes them in |
| ClientTables.TableImpl.OnItemRemove | packages/omu/src/omu/extension/table/table_extension.py:395-404 | a packet for another table changes nothing; otherwise exactly the packet's keys leave the cache, and listeners hear of the removal and then of the cache |
| ClientTables.TableImpl.OnItemClear | packages/omu/src/omu/extension/table/table_extension.py:406-411 | a packet for another table changes nothing; otherwise the cache empties and listeners hear of the clear and the empty cache |
| ClientTables.TableImpl.Proxy | packages/omu/src/omu/extension/table/table_extension.py:325-326 | `proxy` appends the callback after those already registered |
| ClientTables.TableImpl.Unsubscribe | packages/omu/src/omu/extension/table/table_extension.py:327 | the returned unsubscribe removes exactly the first registration of that callback, and raises when there is none |
| ClientTables.TableImpl.RunProxies | packages/omu/src/omu/extension/table/table_extension.py:364-370 | the outer loop applies the proxies in registration order |
| ClientTables.TableImpl.OnProxy | packages/omu/src/omu/extension/table/table_extension.py:360-379 | a packet for another table changes nothing; otherwise the parsed items go through the proxies and are sent back under the packet's key, re-keyed by the key function |
| ClientTables.TableExtension.constructor | packages/omu/src/omu/extension/table/table_extension.py:42-44 | a new extension has no tables |
| ClientTables.TableExtension.Create | packages/omu/src/omu/extension/table/table_extension.py:57-71 | `create` raises on a registered identifier and changes nothing; otherwise it registers a fresh table; either way `has` holds afterwards |
| ClientTables.TableExtension.Get | packages/omu/src/omu/extension/table/table_extension.py:73-76 | `get` returns the registered table, or creates and registers a new one |
| ClientTables.TableExtension.Model | packages/omu/src/omu/extension/table/table_extension.py:78-85 | `model` raises when `id / name` is registered; otherwise it creates the table under `id / name` |
| ClientTables.GetTwiceSameTable | packages/omu/src/omu/extension/table/table_extension.py:73-76 | two `get`s with one table type yield the same table |
| Registries.ServerRegistry.constructor | packages/server/src/omuserver/extension/registry/registry_extension.py:109-112 | a new registry has its id and permissions and no data |
| Registries.AnyHeldExists | packages/server/src/omuserver/extension/registry/registry_extension.py:126-129 | `any(... for p in filter(None, required))` holds exactly when some non-`None` required permission is held |
| Registries.CheckPermissionRule | packages/server/src/omuserver/extension/registry/registry_extension.py:117-131 | the owner (registry id a subpart of the app id) always passes; anyone else passes exactly when they hold a required permission; with none required they are always denied |
| Registries.RequirementsByAccess | packages/server/src/omuserver/extension/registry/registry_extension.py:77-102 | listen and get pass on `all` or `read`; update passes on `all` or `write` |
| Registries.RegistryExtension.constructor | packages/server/src/omuserver/extension/registry/registry_extension.py:41-44 | a new extension has no registries and an empty start-up list |
| Registries.RegistryExtension.Get | packages/server/src/omuserver/extension/registry/registry_extension.py:106-115 | an existing registry comes back and nothing changes; a missing one is created, kept under its id and loaded |
| Registries.RegistryExtension.Register | packages/server/src/omuserver/extension/registry/registry_extension.py:133-150 | a new id gets a registry with the type's permissions, put on the start-up list; an id already present adds nothing |
| Registries.RegistryExtension.OnStart | packages/server/src/omuserver/extension/registry/registry_extension.py:63-66 | every start-up registry is loaded, in order, and then the start-up list is empty |
| Registries.RegistryExtension.HandleRegister | packages/server/src/omuserver/extension/registry/registry_extension.py:68-75 | the registry is fetched (and so created); permission is denied unless the registry id is a subpart of the app id, and the permissions are replaced only on success |
| Registries.RegistryExtension.HandleListen | packages/server/src/omuserver/extension/registry/registry_extension.py:77-84 | the session is attached exactly when it passes the read check; otherwise the check's denial is raised |
| Registries.RegistryExtension.HandleUpdate | packages/server/src/omuserver/extension/registry/registry_extension.py:86-93 | the value is stored exactly when the session passes the write check |
| Registries.RegistryExtension.HandleGet | packages/server/src/omuserver/extension/registry/registry_extension.py:95-104 | the registry's data is answered exactly when the session passes the read check |
| Registries.RegistryExtension.Store | packages/server/src/omuserver/extension/registry/registry_extension.py:152-154 | `store` fetches the registry and stores the value with no permission check |
| PacketTypes.ConnectToJson | packages/omu/src/omu/network/packet/packet_types.py:16-20 | `ConnectPacket.to_json` produces exactly the keys `app` and `token` |
| PacketTypes.ConnectFromJson | packages/omu/src/omu/network/packet/packet_types.py:22-27 | `from_json` fails on a missing `app` and, once the app parses, on a missing `token`; a parsed packet's token is the JSON's |
| PacketTypes.DisconnectToJson | packages/omu/src/omu/network/packet/packet_types.py:34-35 | `DisconnectPacket.to_json` produces exactly the key `reason` |
| PacketTypes.DisconnectFromJson | packages/omu/src/omu/network/packet/packet_types.py:37-41 | `from_json` fails exactly when `reason` is missing |
| PacketTypes.ConnectRoundTrip | packages/omu/src/omu/network/packet/packet_types.py:16-27 | given that `App` round-trips, a connect packet comes back from its JSON form, with its token (`None` included) |
| PacketTypes.DisconnectRoundTrip | packages/omu/src/omu/network/packet/packet_types.py:34-41 | a disconnect packet comes back from its JSON form with the same reason |
| PacketTypes.BuiltIn | packages/omu/src/omu/network/packet/packet_types.py:44-64 | there are four built-in packet types; all share the empty namespace, and their names are distinct |

## Left out

- omu.identifier.Identifier is not part of this model. An identifier is a namespace and a path, and `/` appends a name. `is_subpart_of` is a parameter.
- The server's `ServerRegistry` (`registry.py`) is not part of this model. Its `load`, `attach_session` and `store` are events in the extension's log. The permissions a registry gets when none are given are a parameter of the extension.
- `register` returns a `Registry` wrapper around the server registry. The model returns the server registry itself, because the wrapper only adds the default value and the serializer.
- Serializers, key functions, proxy callbacks and `App.to_json`/`App.from_json` are functions given from outside. The table's adapter is a map; reading and persisting it are log entries.
- Coroutines run to completion one at a time. Interleaving of `await`s is not modelled; this covers a proxy callback's own side effects and listeners that modify the table.
- `CachedTable.save_task`, and the asyncio task `mark_changed` creates for it, are left out: they are a background loop with a 30-second sleep.
- Also left out, because they only pass calls through to the adapter or page through it:
  - `CachedTable.fetch_items`;
  - `CachedTable.iterate`;
  - `TableImpl.fetch_items`, `fetch_all` and `iterate`.
- `CachedTable.handle_disconnection` is only a call to `detach_session`. Subscribing to the session's disconnect event is left out.
- `add_listener` and `remove_listener` are left out as separate operations. They appear as the listener list changes inside attach and detach.
- The following client-side sends are left out: they only serialize and send a packet, or call an endpoint. Their serialization is modelled by `SerializeItems`.
  - `TableImpl.get_many`;
  - `TableImpl.add`, `update`, `remove` and `clear`;
  - `TableImpl.size`;
  - `TableImpl.listen`;
  - `TableImpl.set_config`;
  - `_on_ready`;
  - `_on_network_task`.
- TableExtension.create first checks that the client holds the table permission (`permissions.require`). That check is left out because the permission extension is not part of this model.
- `session_table_handler.py` is not part of this model. A session's listener is a value naming the table and the session.
- The model has one item type per `TableExtension`, where Python's tables may each have their own. Items are a type parameter.
- The table id travels as `Identifier.key()` in Python; the model sends the identifier itself.
- CachedTables.CollectCached, `CachedTables.WriteCache` and `Collections.DeleteEach` run the loops of `get_all`, `update_cache` and `remove` on values, not in place on the object. The class methods assign the result back. Aliasing of the caller's key list is therefore not modelled; `get_all`'s change to that list is the out-parameter `rest`.
- ClientTables.RunProxy runs on the items as a value, the way the source's inner loop edits `items` while iterating a snapshot.
- CachedTables.Uncached: its own contract bounds only the length; which keys it keeps is stated by `CachedTables.UncachedHas`.
- CachedTables.Fetch: fixes the adapter's answer to the stored entries in request order. The source's adapter is abstract and may answer in another order; the entry order in the contract of CachedTables.CachedTable.GetAll holds only for an adapter that answers in request order.
- CachedTables.CachedTable.UpdateCache: with `cache_size` set to `None` or `<= 0` the cache is left as it was and not emptied. A cache filled before caching was switched off therefore stays, and `get` (which answers from the cache first) then returns the old cached value after an `update` has stored a new one. `Fits` in `Coherent` asks for an empty cache in that state.
- ClientTables.TableImpl.Get: merges the endpoint's answer into the cache without the cache bound, as `self._cache.update(items)` does.
- Registries.RegistryExtension.HandleGet: answers the registry's `data` field. `ServerRegistry.load` and `store` are not part of this model, so no modelled operation writes `data`, and a `get` after an `update` is not tied to the value written.
- JSON numbers are integers; JSON floats are not modelled.

## Findings

| source | as written | input that shows it | evidently intended | confidence | as-written member | corrected member |
|---|---|---|---|---|---|---|
| packages/server/src/omuserver/extension/table/cached_table.py:72-73 | `if session in self._proxy_sessions` tests a `Session` against a dict whose keys are app-key strings, so it is never true and a detached session stays a proxy | a session registered with `attach_proxy_session`, then `detach_session`, then `add(items)`: the items are still sent to the detached session and are not stored | test `session.app.key() in self._proxy_sessions`, so that detaching releases the proxy | high, not executed | CachedTables.DetachedProxyStillServed | CachedTables.DetachedProxyReleased |
| packages/server/src/omuserver/extension/table/cached_table.py:241-242 | `if len(self._cache) > self._cache_size` drops one entry per write, so a cache left over its bound by `set_cache_size`/`set_config` lowering `cache_size` stays over it | `cache_size` 2, `update_cache` of `x` and `y`, then `set_cache_size(1)` and `update_cache` of `z`: the cache keeps two entries (`y`, `z`) | `while len(self._cache) > self._cache_size`, so that every write restores the bound | medium, not executed | CachedTables.CacheStepStaysOver | CachedTables.CacheStepTrimmedBounded |
