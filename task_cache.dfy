/** The per-chat task cache kept in the browser's string store
    (src/utils/taskCache.ts). Entries live under `task_cache_<chatId>`, or
    `task_cache_all` for the aggregate view, and are trusted for five minutes. */
module TaskCache {
  import opened Wrappers
  import opened Seqs
  import opened Types

  const CachePrefix: string := "task_cache_"

  /** Time to live of an entry, in milliseconds (5 minutes). */
  const CacheTtl: int := 5 * 60 * 1000

  /** What the store holds under a key. The cache writes the JSON form of
      `{tasks, timestamp}`, which reads back as `CacheEntry`; `Text` is any
      other string (the empty string, or text that does not parse). */
  datatype StoredValue = CacheEntry(tasks: seq<Task>, timestamp: int) | Text(raw: string)

  predicate IsCacheKey(key: string) {
    |CachePrefix| <= |key| && key[..|CachePrefix|] == CachePrefix
  }

  /** The test `!key.startsWith(CACHE_PREFIX)`: keys that clearing keeps. */
  const NotCacheKey: string -> bool := key => !IsCacheKey(key)

  /** Whether a chat id is truthy: present and not the empty string. */
  predicate NamesChat(chatId: Option<string>) {
    chatId.Some? && chatId.value != ""
  }

  /** The key of a chat's entry; a missing or empty id names the aggregate entry. */
  function CacheKey(chatId: Option<string>): (key: string)
    ensures IsCacheKey(key)
    ensures key[|CachePrefix|..] == if NamesChat(chatId) then chatId.value else "all"
  {
    CachePrefix + if NamesChat(chatId) then chatId.value else "all"
  }

  /** The browser's `localStorage`: string keys in the order `key(i)`
      enumerates them, each with its value. A new key is enumerated last;
      removing a key keeps the order of the others. */
  class Storage {
    var keys: seq<string>
    var items: map<string, StoredValue>

    ghost predicate Valid()
      reads this
    {
      Distinct(keys) && forall k :: k in items <==> k in keys
    }

    constructor ()
      ensures Valid() && keys == [] && items == map[]
    {
      keys := [];
      items := map[];
    }

    /** `getItem(key)`: the value, or null. */
    function GetItem(key: string): (v: Option<StoredValue>)
      reads this
      ensures v.Some? <==> key in items
      ensures v.Some? ==> v.value == items[key]
    {
      if key in items then Some(items[key]) else None
    }

    /** `setItem(key, value)`: overwrites in place, or adds the key last. */
    method SetItem(key: string, value: StoredValue)
      requires Valid()
      modifies this
      ensures Valid()
      ensures items == old(items)[key := value]
      ensures keys == if key in old(items) then old(keys) else old(keys) + [key]
    {
      if key !in items {
        keys := keys + [key];
      }
      items := items[key := value];
    }

    /** `removeItem(key)`: drops the key if present. */
    method RemoveItem(key: string)
      requires Valid()
      modifies this
      ensures Valid()
      ensures items == old(items) - {key}
      ensures keys == Filter(old(keys), Except(key))
    {
      FilterDistinct(keys, Except(key));
      FilterMembers(keys, Except(key));
      keys := Filter(keys, Except(key));
      items := items - {key};
    }
  }

  /** How `getCachedTasks` judges what is stored under its key at time `now`. */
  datatype Read = Missing | Unreadable | Expired | Fresh(tasks: seq<Task>)

  function ReadEntry(stored: Option<StoredValue>, now: int): (r: Read)
    ensures r.Fresh? <==> stored.Some? && stored.value.CacheEntry? && now - stored.value.timestamp <= CacheTtl
    ensures r.Expired? <==> stored.Some? && stored.value.CacheEntry? && now - stored.value.timestamp > CacheTtl
    ensures r.Fresh? ==> r.tasks == stored.value.tasks
    ensures r.Missing? <==> stored.None? || stored.value == Text("")
  {
    match stored
    case None => Missing
    case Some(Text(raw)) => if raw == "" then Missing else Unreadable
    case Some(CacheEntry(tasks, timestamp)) =>
      if now - timestamp > CacheTtl then Expired else Fresh(tasks)
  }

  /** What `getCachedTasks` returns: the tasks of a fresh entry, otherwise null. */
  function Returned(r: Read): (tasks: Option<seq<Task>>)
    ensures tasks.Some? <==> r.Fresh?
    ensures tasks.Some? ==> tasks.value == r.tasks
  {
    if r.Fresh? then Some(r.tasks) else None
  }

  /** `getCachedTasks(chatId)` at time `now`. An expired entry is removed from
      the store; every other outcome leaves the store as it was. */
  method GetCachedTasks(store: Storage, chatId: Option<string>, now: int) returns (tasks: Option<seq<Task>>)
    requires store.Valid()
    modifies store
    ensures store.Valid()
    ensures tasks == Returned(ReadEntry(old(store.GetItem(CacheKey(chatId))), now))
    ensures ReadEntry(old(store.GetItem(CacheKey(chatId))), now).Expired? ==>
      store.items == old(store.items) - {CacheKey(chatId)} &&
      store.keys == Filter(old(store.keys), Except(CacheKey(chatId)))
    ensures !ReadEntry(old(store.GetItem(CacheKey(chatId))), now).Expired? ==>
      store.items == old(store.items) && store.keys == old(store.keys)
  {
    var key := CacheKey(chatId);
    var read := ReadEntry(store.GetItem(key), now);
    if read.Expired? {
      store.RemoveItem(key);
    }
    tasks := Returned(read);
  }

  /** `setCachedTasks(tasks, chatId)` at time `now`: the entry under the
      chat's key becomes `tasks` stamped `now`; no other key changes. */
  method SetCachedTasks(store: Storage, tasks: seq<Task>, chatId: Option<string>, now: int)
    requires store.Valid()
    modifies store
    ensures store.Valid()
    ensures store.items == old(store.items)[CacheKey(chatId) := CacheEntry(tasks, now)]
    ensures store.keys == if CacheKey(chatId) in old(store.items) then old(store.keys)
                          else old(store.keys) + [CacheKey(chatId)]
  {
    store.SetItem(CacheKey(chatId), CacheEntry(tasks, now));
  }

  /** A write followed, no more than the time to live later, by a read of
      the same chat returns exactly the written tasks. */
  method SetThenGet(store: Storage, tasks: seq<Task>, chatId: Option<string>, written: int, read: int)
    returns (got: Option<seq<Task>>)
    requires store.Valid()
    requires read - written <= CacheTtl
    modifies store
    ensures store.Valid()
    ensures got == Some(tasks)
    ensures store.items == old(store.items)[CacheKey(chatId) := CacheEntry(tasks, written)]
  {
    SetCachedTasks(store, tasks, chatId, written);
    got := GetCachedTasks(store, chatId, read);
  }

  /** The keys left by the loop of `clearTaskCache()` once it stands at
      index `i` of the current key order `ks`: it removes the key at `i` when
      that key carries the prefix and then moves on to `i + 1`, so the key
      that slid into position `i` is never looked at. */
  function SweepFrom(ks: seq<string>, i: nat): seq<string>
    decreases |ks| - i
  {
    if i >= |ks| then ks
    else if IsCacheKey(ks[i]) then SweepFrom(Filter(ks, Except(ks[i])), i + 1)
    else SweepFrom(ks, i + 1)
  }

  /** The walk only removes keys, and only keys that carry the prefix. */
  lemma {:induction false} SweepKeepsOtherKeys(ks: seq<string>, i: nat)
    ensures forall k :: k in SweepFrom(ks, i) ==> k in ks
    ensures forall k :: k in ks && !IsCacheKey(k) ==> k in SweepFrom(ks, i)
    decreases |ks| - i
  {
    if i < |ks| {
      if IsCacheKey(ks[i]) {
        var rest := Filter(ks, Except(ks[i]));
        SweepKeepsOtherKeys(rest, i + 1);
        FilterMembers(ks, Except(ks[i]));
      } else {
        SweepKeepsOtherKeys(ks, i + 1);
      }
    }
  }

  /** The walk never touches the keys before its current index. */
  lemma {:induction false} SweepKeepsPrefix(ks: seq<string>, i: nat)
    requires Distinct(ks) && i <= |ks|
    ensures i <= |SweepFrom(ks, i)| && SweepFrom(ks, i)[..i] == ks[..i]
    decreases |ks| - i
  {
    if i < |ks| {
      if IsCacheKey(ks[i]) {
        var rest := Filter(ks, Except(ks[i]));
        FilterExceptAt(ks, i);
        FilterDistinct(ks, Except(ks[i]));
        assert rest[..i] == ks[..i];
        if i + 1 <= |rest| {
          SweepKeepsPrefix(rest, i + 1);
          assert SweepFrom(rest, i + 1)[..i] == SweepFrom(rest, i + 1)[..i + 1][..i];
        }
        assert SweepFrom(ks, i) == SweepFrom(rest, i + 1);
      } else {
        SweepKeepsPrefix(ks, i + 1);
        assert SweepFrom(ks, i)[..i] == SweepFrom(ks, i + 1)[..i + 1][..i];
      }
    }
  }

  /** Clearing every entry misses one: when the first two keys both carry the
      prefix, removing the first moves the second to index 0 while the walk
      goes on at index 1, so the second key survives. */
  lemma SweepMissesSecondOfTwo(ks: seq<string>)
    requires Distinct(ks) && |ks| >= 2
    requires IsCacheKey(ks[0]) && IsCacheKey(ks[1])
    ensures ks[1] in SweepFrom(ks, 0)
  {
    var rest := Filter(ks, Except(ks[0]));
    FilterExceptAt(ks, 0);
    assert rest == ks[1..];
    FilterDistinct(ks, Except(ks[0]));
    SweepKeepsPrefix(rest, 1);
    assert SweepFrom(ks, 0) == SweepFrom(rest, 1);
    assert SweepFrom(rest, 1)[..1] == [ks[1]];
  }

  /** A concrete store on which the whole-cache clear leaves a cache entry. */
  lemma ClearAllLeavesAnEntry()
    ensures SweepFrom(["task_cache_1", "task_cache_2"], 0) == ["task_cache_2"]
  {
    var ks := ["task_cache_1", "task_cache_2"];
    assert IsCacheKey(ks[0]) && IsCacheKey(ks[1]);
    assert Filter(ks, Except(ks[0])) == ["task_cache_2"] by {
      assert ks[1..] == ["task_cache_2"];
      assert ks[1..][1..] == [];
    }
  }

  /** `clearTaskCache(chatId?)` as written. A non-empty id removes that one
      entry. Otherwise the loop walks the keys by index and removes each
      prefixed key it meets; since removal shifts the later keys down, the
      result is `SweepFrom(old keys, 0)`, which keeps every unprefixed key
      but may keep prefixed ones too (`ClearAllLeavesAnEntry`). */
  method ClearTaskCache(store: Storage, chatId: Option<string>)
    requires store.Valid()
    modifies store
    ensures store.Valid()
    ensures NamesChat(chatId) ==>
      store.items == old(store.items) - {CacheKey(chatId)} &&
      store.keys == Filter(old(store.keys), Except(CacheKey(chatId)))
    ensures !NamesChat(chatId) ==> store.keys == SweepFrom(old(store.keys), 0)
    ensures forall k :: k in store.items ==> k in old(store.items) && store.items[k] == old(store.items)[k]
    ensures forall k :: k in old(store.items) && !IsCacheKey(k) ==> k in store.items
  {
    if NamesChat(chatId) {
      store.RemoveItem(CacheKey(chatId));
    } else {
      var i := 0;
      while i < |store.keys|
        invariant store.Valid()
        invariant SweepFrom(store.keys, i) == SweepFrom(old(store.keys), 0)
        invariant forall k :: k in store.items ==> k in old(store.items) && store.items[k] == old(store.items)[k]
        decreases |store.keys| - i
      {
        var key := store.keys[i];
        if IsCacheKey(key) {
          store.RemoveItem(key);
        }
        i := i + 1;
      }
      SweepKeepsOtherKeys(old(store.keys), 0);
    }
  }

  /** Clearing every entry as intended: walking the keys from the last index
      down, a removal only shifts keys already visited, so every prefixed
      key goes and every other key stays, in its order. */
  method ClearAllTaskCaches(store: Storage)
    requires store.Valid()
    modifies store
    ensures store.Valid()
    ensures store.keys == Filter(old(store.keys), NotCacheKey)
    ensures forall k :: k in store.items ==> !IsCacheKey(k)
    ensures forall k :: k in store.items <==> k in old(store.items) && !IsCacheKey(k)
    ensures forall k :: k in store.items ==> store.items[k] == old(store.items)[k]
  {
    ghost var ks := store.keys;
    var i := |store.keys|;
    while i > 0
      invariant 0 <= i <= |ks|
      invariant Distinct(ks)
      invariant store.Valid()
      invariant store.keys == ks[..i] + Filter(ks[i..], NotCacheKey)
      invariant forall k :: k in store.items ==> k in old(store.items) && store.items[k] == old(store.items)[k]
    {
      i := i - 1;
      DistinctSplit(ks, i);
      FilterStepBack(ks, i, store.keys, NotCacheKey);
      assert NotCacheKey(ks[i]) == !IsCacheKey(ks[i]);
      var key := store.keys[i];
      if IsCacheKey(key) {
        store.RemoveItem(key);
      }
    }
    assert ks[..0] == [] && ks[0..] == ks;
    FilterMembers(ks, NotCacheKey);
  }
}
