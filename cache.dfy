/**
 * The cache-aside store of liteflow: a key/value store plus an index from a key's
 * prefix (the text before its first ':') to the set of keys recorded under it, so that
 * one prefix can be invalidated without scanning the store.
 *
 * A stored value is an `Option<V>`: `None` stands for Python's `None`, which the store
 * accepts but which a lookup cannot tell apart from an absent key. Expiry and the
 * capacity bound of the underlying store are modelled only as `Expire`, which may drop
 * any entry at any time.
 */
module LiteflowCache {

  import opened Wrappers
  import opened Strings

  /** The prefix a key is tracked under: `key.split(':')[0]`. */
  function KeyPrefix(key: string): (p: string)
    ensures ':' !in p && StartsWith(key, p)
    ensures p == key || StartsWith(key, p + ":")
  {
    FirstPartPrefix(key, ':');
    Split(key, ':')[0]
  }

  /** The store and its prefix index. */
  datatype Cache<V> = Cache(store: map<string, Option<V>>, index: map<string, set<string>>)

  function Empty<V>(): Cache<V>
  {
    Cache(map[], map[])
  }

  /**
   * What `cache.get(key)` returns: the stored value, or `None` when nothing is stored; a
   * stored `None` cannot be told apart from an absent key.
   */
  function Lookup<V>(c: Cache<V>, key: string): (r: Option<V>)
    ensures r.Some? <==> key in c.store && c.store[key].Some?
    ensures r.Some? ==> r == c.store[key]
  {
    if key in c.store then c.store[key] else None
  }

  /** The keys recorded under `prefix` (none when the prefix was never seen). */
  function Tracked<V>(c: Cache<V>, prefix: string): set<string>
  {
    if prefix in c.index then c.index[prefix] else {}
  }

  /**
   * The index is well formed when every recorded key sits under its own prefix, and
   * complete when every key holding a value is recorded. Both hold of the empty cache and
   * are kept by every operation; clearing a prefix relies on the second.
   */
  ghost predicate Consistent<V>(c: Cache<V>)
  {
    && (forall p, k :: p in c.index && k in c.index[p] ==> KeyPrefix(k) == p)
    && (forall k :: k in c.store && c.store[k].Some? ==> k in Tracked(c, KeyPrefix(k)))
  }

  /**
   * Records `key` under its prefix, creating the prefix's set on first use: nothing recorded
   * is lost, and only the key's own prefix gains anything.
   */
  function Track(index: map<string, set<string>>, key: string): (r: map<string, set<string>>)
    ensures r.Keys == index.Keys + {KeyPrefix(key)}
    ensures key in r[KeyPrefix(key)]
    ensures forall p :: p in index ==> index[p] <= r[p]
    ensures forall p :: p in index && p != KeyPrefix(key) ==> r[p] == index[p]
    ensures KeyPrefix(key) in index ==> r[KeyPrefix(key)] == index[KeyPrefix(key)] + {key}
  {
    var p := KeyPrefix(key);
    index[p := (if p in index then index[p] else {}) + {key}]
  }

  /**
   * `get_or_set_cache(key, value_func)`: returns the value and the new cache. The key is
   * recorded first, whatever happens next; a stored non-None value is returned as it is;
   * on a miss without a producer the result is None; otherwise the producer's result is
   * stored and returned.
   */
  function GetOrSet<V>(c: Cache<V>, key: string, producer: Option<() -> Option<V>>): (r: (Option<V>, Cache<V>))
    ensures r.1.index == Track(c.index, key)
  {
    var c1 := c.(index := Track(c.index, key));
    var hit := Lookup(c, key);
    if hit.Some? then (hit, c1)
    else if producer.None? then (None, c1)
    else
      var v := producer.value();
      (v, c1.(store := c1.store[key := v]))
  }

  /**
   * `clear_cache_by_prefix(prefix)`: deletes every key recorded under `prefix` from the
   * store and empties its set; a prefix never seen changes nothing.
   */
  function ClearPrefix<V>(c: Cache<V>, prefix: string): (r: Cache<V>)
    ensures prefix !in c.index ==> r == c
    ensures prefix in c.index ==> Tracked(r, prefix) == {}
  {
    if prefix in c.index then Cache(c.store - c.index[prefix], c.index[prefix := {}])
    else c
  }

  /** The underlying store forgetting an entry (timeout or capacity eviction). */
  function Expire<V>(c: Cache<V>, key: string): (r: Cache<V>)
    ensures Lookup(r, key).None?
    ensures r.index == c.index
  {
    c.(store := c.store - {key})
  }

  /** Every call records `key` under its prefix, and keeps everything recorded before. */
  lemma GetOrSetRecordsKey<V>(c: Cache<V>, key: string, producer: Option<() -> Option<V>>)
    ensures key in Tracked(GetOrSet(c, key, producer).1, KeyPrefix(key))
    ensures forall p :: Tracked(c, p) <= Tracked(GetOrSet(c, key, producer).1, p)
  {
  }

  /** A hit returns the stored value, leaves the store alone, and ignores the producer. */
  lemma HitIgnoresProducer<V>(c: Cache<V>, key: string, p1: Option<() -> Option<V>>, p2: Option<() -> Option<V>>)
    requires Lookup(c, key).Some?
    ensures GetOrSet(c, key, p1).0 == Lookup(c, key)
    ensures GetOrSet(c, key, p1) == GetOrSet(c, key, p2)
    ensures GetOrSet(c, key, p1).1.store == c.store
  {
  }

  /** A miss without a producer returns None and leaves the store unchanged. */
  lemma MissWithoutProducer<V>(c: Cache<V>, key: string)
    requires Lookup(c, key).None?
    ensures GetOrSet(c, key, None).0.None?
    ensures GetOrSet(c, key, None).1.store == c.store
  {
  }

  /**
   * A miss with a producer that yields a value stores it, and the next call with the same
   * key is a hit that returns it without running any producer.
   */
  lemma SecondCallHits<V>(c: Cache<V>, key: string, f: () -> Option<V>, later: Option<() -> Option<V>>)
    requires Lookup(c, key).None? && f().Some?
    ensures GetOrSet(c, key, Some(f)).0 == f()
    ensures GetOrSet(GetOrSet(c, key, Some(f)).1, key, later).0 == f()
    ensures GetOrSet(GetOrSet(c, key, Some(f)).1, key, later).1.store == GetOrSet(c, key, Some(f)).1.store
  {
  }

  /** A producer that yields None is never cached: the key still misses afterwards. */
  lemma NoneIsNotCached<V>(c: Cache<V>, key: string, f: () -> Option<V>)
    requires f().None?
    requires Lookup(c, key).None?
    ensures Lookup(GetOrSet(c, key, Some(f)).1, key).None?
  {
  }

  lemma EmptyValid<V>()
    ensures Consistent(Empty<V>())
  {
  }

  /** `get_or_set_cache` keeps the index well formed and complete. */
  lemma GetOrSetValid<V>(c: Cache<V>, key: string, producer: Option<() -> Option<V>>)
    requires Consistent(c)
    ensures Consistent(GetOrSet(c, key, producer).1)
  {
    var c' := GetOrSet(c, key, producer).1;
    forall k | k in c'.store && c'.store[k].Some?
      ensures k in Tracked(c', KeyPrefix(k))
    {
      GetOrSetRecordsKey(c, key, producer);
    }
  }

  /** Clearing a prefix keeps the index well formed and complete. */
  lemma ClearPrefixValid<V>(c: Cache<V>, prefix: string)
    requires Consistent(c)
    ensures Consistent(ClearPrefix(c, prefix))
  {
  }

  /** Expiry keeps the index well formed and complete. */
  lemma ExpireValid<V>(c: Cache<V>, key: string)
    requires Consistent(c)
    ensures Consistent(Expire(c, key))
  {
  }

  /**
   * After `clear_cache_by_prefix(prefix)` every key under that prefix misses, while every
   * key under another prefix reads exactly as before.
   */
  lemma ClearPrefixEffect<V>(c: Cache<V>, prefix: string, key: string)
    requires Consistent(c)
    ensures KeyPrefix(key) == prefix ==> Lookup(ClearPrefix(c, prefix), key).None?
    ensures KeyPrefix(key) != prefix ==> Lookup(ClearPrefix(c, prefix), key) == Lookup(c, key)
  {
  }

  /** Clearing a prefix and then asking for one of its keys without a producer reports a miss. */
  lemma ClearThenMiss<V>(c: Cache<V>, prefix: string, key: string)
    requires Consistent(c) && KeyPrefix(key) == prefix
    ensures GetOrSet(ClearPrefix(c, prefix), key, None).0.None?
  {
    ClearPrefixEffect(c, prefix, key);
  }

  /** `clear_github_cache`: a prefix clear of `github`. */
  function ClearGithub<V>(c: Cache<V>): Cache<V>
  {
    ClearPrefix(c, "github")
  }

  /** `clear_s3_cache`: a prefix clear of `s3`. */
  function ClearS3<V>(c: Cache<V>): Cache<V>
  {
    ClearPrefix(c, "s3")
  }

  /**
   * Clearing the GitHub entries makes every `github:` key miss and leaves the S3 entries
   * alone, and the other way round.
   */
  lemma ClearCategoryEffect<V>(c: Cache<V>, key: string)
    requires Consistent(c)
    ensures KeyPrefix(key) == "github" ==> Lookup(ClearGithub(c), key).None?
    ensures KeyPrefix(key) == "s3" ==> Lookup(ClearGithub(c), key) == Lookup(c, key)
    ensures KeyPrefix(key) == "s3" ==> Lookup(ClearS3(c), key).None?
    ensures KeyPrefix(key) == "github" ==> Lookup(ClearS3(c), key) == Lookup(c, key)
  {
    ClearPrefixEffect(c, "github", key);
    ClearPrefixEffect(c, "s3", key);
  }

  /** The process-wide cache with its module-level `_cache_keys` index. */
  class PrefixCache<V> {
    var store: map<string, Option<V>>
    var index: map<string, set<string>>

    function State(): Cache<V>
      reads this
    {
      Cache(store, index)
    }

    ghost predicate Valid()
      reads this
    {
      Consistent(State())
    }

    constructor()
      ensures State() == Empty() && Valid()
    {
      store := map[];
      index := map[];
    }

    method GetOrSetCache(key: string, producer: Option<() -> Option<V>>) returns (value: Option<V>)
      requires Valid()
      modifies this
      ensures Valid()
      ensures (value, State()) == GetOrSet(old(State()), key, producer)
    {
      GetOrSetValid(State(), key, producer);
      var prefix := Split(key, ':')[0];
      if prefix !in index {
        index := index[prefix := {}];
      }
      index := index[prefix := index[prefix] + {key}];
      assert index == Track(old(index), key);
      value := if key in store then store[key] else None;
      if value.Some? {
        return;
      }
      if producer.None? {
        return None;
      }
      value := producer.value();
      store := store[key := value];
    }

    method ClearCacheByPrefix(prefix: string)
      requires Valid()
      modifies this
      ensures Valid()
      ensures State() == ClearPrefix(old(State()), prefix)
    {
      ClearPrefixValid(State(), prefix);
      if prefix in index {
        var pending := index[prefix];
        while pending != {}
          invariant prefix in index && pending <= index[prefix]
          invariant index == old(index)
          invariant store == old(store) - (index[prefix] - pending)
          decreases pending
        {
          var key :| key in pending;
          store := store - {key};
          pending := pending - {key};
        }
        index := index[prefix := {}];
      }
    }

    method ClearGithubCache()
      requires Valid()
      modifies this
      ensures Valid()
      ensures State() == ClearGithub(old(State()))
    {
      ClearCacheByPrefix("github");
    }

    method ClearS3Cache()
      requires Valid()
      modifies this
      ensures Valid()
      ensures State() == ClearS3(old(State()))
    {
      ClearCacheByPrefix("s3");
    }
  }
}
