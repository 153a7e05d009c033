/**
 * The older decorator-based cache of nfui: calls wrapped by `github_cache` or `s3_cache`
 * are looked up under a digest of their name and arguments, and each decorator records
 * its keys in its own set so that the whole category can be cleared.
 *
 * The digest (`sha256` of the JSON text of the key parts) is an opaque function
 * parameter; only the key parts themselves are modelled.
 */
module NfuiCache {

  import opened Wrappers
  import opened Strings

  /** One keyword argument: its name and the `str` of its value. */
  type Kwarg = (string, string)

  predicate KeysDistinct(kw: seq<Kwarg>)
  {
    forall i, j :: 0 <= i < j < |kw| ==> kw[i].0 != kw[j].0
  }

  predicate SortedByKey(kw: seq<Kwarg>)
  {
    forall i, j :: 0 <= i < j < |kw| ==> Less(kw[i].0, kw[j].0)
  }

  function Insert(x: Kwarg, s: seq<Kwarg>): seq<Kwarg>
  {
    if |s| == 0 then [x]
    else if Less(s[0].0, x.0) then [s[0]] + Insert(x, s[1..])
    else [x] + s
  }

  /** `sorted(kwargs.items())`; the names of keyword arguments are distinct. */
  function SortKwargs(kw: seq<Kwarg>): seq<Kwarg>
  {
    if |kw| == 0 then [] else Insert(kw[0], SortKwargs(kw[1..]))
  }

  lemma {:induction false} InsertElements(x: Kwarg, s: seq<Kwarg>)
    ensures multiset(Insert(x, s)) == multiset(s) + multiset{x}
    ensures forall y :: y in Insert(x, s) ==> y == x || y in s
  {
    if |s| > 0 && Less(s[0].0, x.0) {
      InsertElements(x, s[1..]);
      assert s == [s[0]] + s[1..];
    }
  }

  lemma {:induction false} ConsSorted(y: Kwarg, r: seq<Kwarg>)
    requires SortedByKey(r)
    requires forall z :: z in r ==> Less(y.0, z.0)
    ensures SortedByKey([y] + r)
  {
    forall i, j | 0 <= i < j < |r| + 1
      ensures Less(([y] + r)[i].0, ([y] + r)[j].0)
    {
      if i == 0 {
        assert r[j - 1] in r;
      }
    }
  }

  lemma {:induction false} InsertSorted(x: Kwarg, s: seq<Kwarg>)
    requires SortedByKey(s)
    requires forall i :: 0 <= i < |s| ==> s[i].0 != x.0
    ensures multiset(Insert(x, s)) == multiset(s) + multiset{x}
    ensures SortedByKey(Insert(x, s))
  {
    InsertElements(x, s);
    if |s| == 0 {
    } else if Less(s[0].0, x.0) {
      InsertSorted(x, s[1..]);
      var r := Insert(x, s[1..]);
      InsertElements(x, s[1..]);
      forall z | z in r
        ensures Less(s[0].0, z.0)
      {
        if z != x {
          var k :| 0 <= k < |s[1..]| && s[1..][k] == z;
          assert s[k + 1] == z;
        }
      }
      ConsSorted(s[0], r);
    } else {
      LessTotal(x.0, s[0].0);
      forall z | z in s
        ensures Less(x.0, z.0)
      {
        var k :| 0 <= k < |s| && s[k] == z;
        if k > 0 {
          LessTransitive(x.0, s[0].0, s[k].0);
        }
      }
      ConsSorted(x, s);
    }
  }

  /** Sorting keeps exactly the given arguments and orders them by name. */
  lemma {:induction false} SortKwargsSpec(kw: seq<Kwarg>)
    requires KeysDistinct(kw)
    ensures multiset(SortKwargs(kw)) == multiset(kw)
    ensures SortedByKey(SortKwargs(kw))
  {
    if |kw| > 0 {
      var rest := SortKwargs(kw[1..]);
      SortKwargsSpec(kw[1..]);
      forall i | 0 <= i < |rest|
        ensures rest[i].0 != kw[0].0
      {
        assert rest[i] in multiset(kw[1..]);
        var k :| 0 <= k < |kw[1..]| && kw[1..][k] == rest[i];
        assert kw[k + 1] == rest[i];
      }
      InsertSorted(kw[0], rest);
      assert kw == [kw[0]] + kw[1..];
    }
  }

  /** Two name-sorted sequences holding the same arguments are the same sequence. */
  lemma {:induction false} SortedUnique(a: seq<Kwarg>, b: seq<Kwarg>)
    requires SortedByKey(a) && SortedByKey(b)
    requires multiset(a) == multiset(b)
    ensures a == b
  {
    if |a| == 0 {
      assert |multiset(b)| == 0;
    } else {
      SortedHead(a, b);
      MultisetTail(a, b);
      assert SortedByKey(a[1..]) && SortedByKey(b[1..]);
      SortedUnique(a[1..], b[1..]);
      assert a == [a[0]] + a[1..] && b == [b[0]] + b[1..];
    }
  }

  /** Two name-sorted sequences holding the same arguments start with the same one. */
  lemma SortedHead(a: seq<Kwarg>, b: seq<Kwarg>)
    requires SortedByKey(a) && SortedByKey(b)
    requires multiset(a) == multiset(b) && |a| > 0
    ensures |b| > 0 && a[0] == b[0]
  {
    assert a[0] in multiset(b);
    var j :| 0 <= j < |b| && b[j] == a[0];
    assert b[0] in multiset(a);
    var i :| 0 <= i < |a| && a[i] == b[0];
    if j > 0 {
      if i > 0 {
        LessAsymmetric(a[0].0, a[i].0);
      } else {
        LessIrreflexive(b[0].0);
      }
      assert false;
    }
  }

  /** Removing the same first element from both sides keeps the multisets equal. */
  lemma MultisetTail(a: seq<Kwarg>, b: seq<Kwarg>)
    requires |a| > 0 && |b| > 0 && a[0] == b[0]
    requires multiset(a) == multiset(b)
    ensures multiset(a[1..]) == multiset(b[1..])
  {
    assert a == [a[0]] + a[1..] && b == [b[0]] + b[1..];
    assert multiset(a) == multiset{a[0]} + multiset(a[1..]);
    assert multiset(b) == multiset{a[0]} + multiset(b[1..]);
    assert multiset(a[1..]) == multiset(a) - multiset{a[0]};
    assert multiset(b[1..]) == multiset(b) - multiset{a[0]};
  }

  /** `f"{k}:{v}"` for each sorted keyword argument. */
  function KwargParts(kw: seq<Kwarg>): (r: seq<string>)
    ensures |r| == |kw|
    ensures forall i :: 0 <= i < |kw| ==> r[i] == kw[i].0 + ":" + kw[i].1
  {
    if |kw| == 0 then [] else [kw[0].0 + ":" + kw[0].1] + KwargParts(kw[1..])
  }

  /**
   * The parts `_make_cache_key` digests: prefix, function name, positional, sorted keyword;
   * the positional arguments keep their places, so calls that differ in one give different parts.
   */
  function KeyParts(prefix: string, name: string, args: seq<string>, kwargs: seq<Kwarg>): (parts: seq<string>)
    ensures |parts| >= 2 + |args|
    ensures parts[0] == prefix && parts[1] == name && parts[2..2 + |args|] == args
  {
    [prefix, name] + args + KwargParts(SortKwargs(kwargs))
  }

  /** The order in which keyword arguments are passed does not change the key. */
  lemma KwargOrderIrrelevant(prefix: string, name: string, args: seq<string>, kw1: seq<Kwarg>, kw2: seq<Kwarg>)
    requires KeysDistinct(kw1) && KeysDistinct(kw2)
    requires multiset(kw1) == multiset(kw2)
    ensures KeyParts(prefix, name, args, kw1) == KeyParts(prefix, name, args, kw2)
  {
    SortKwargsSpec(kw1);
    SortKwargsSpec(kw2);
    SortedUnique(SortKwargs(kw1), SortKwargs(kw2));
  }

  /** The key parts start with the prefix and the name and keep every argument. */
  lemma KeyPartsShape(prefix: string, name: string, args: seq<string>, kwargs: seq<Kwarg>)
    requires KeysDistinct(kwargs)
    ensures var parts := KeyParts(prefix, name, args, kwargs);
      && |parts| == 2 + |args| + |kwargs|
      && parts[0] == prefix && parts[1] == name && parts[2..2 + |args|] == args
      && forall kv :: kv in kwargs ==> kv.0 + ":" + kv.1 in parts[2 + |args|..]
  {
    var sorted := SortKwargs(kwargs);
    SortKwargsSpec(kwargs);
    var parts := KeyParts(prefix, name, args, kwargs);
    assert |sorted| == |multiset(sorted)| == |multiset(kwargs)| == |kwargs|;
    assert parts[2 + |args|..] == KwargParts(sorted);
    forall kv | kv in kwargs
      ensures kv.0 + ":" + kv.1 in parts[2 + |args|..]
    {
      assert kv in multiset(sorted);
      var k :| 0 <= k < |sorted| && sorted[k] == kv;
      assert KwargParts(sorted)[k] == kv.0 + ":" + kv.1;
    }
  }

  /** Which decorator a call went through, hence which key set records it. */
  datatype Category = Github | S3

  /** The store and the two module-level key sets. */
  datatype State<V> = State(store: map<string, Option<V>>, github: set<string>, s3: set<string>)

  /** `cache.get(key)`: a stored `None` reads like an absent key. */
  function Lookup<V>(st: State<V>, key: string): (r: Option<V>)
    ensures r.Some? <==> key in st.store && st.store[key].Some?
    ensures r.Some? ==> r == st.store[key]
  {
    if key in st.store then st.store[key] else None
  }

  function Keys<V>(st: State<V>, cat: Category): set<string>
  {
    match cat
    case Github => st.github
    case S3 => st.s3
  }

  function Record<V>(st: State<V>, cat: Category, key: string): (r: State<V>)
    ensures r.store == st.store
  {
    match cat
    case Github => st.(github := st.github + {key})
    case S3 => st.(s3 := st.s3 + {key})
  }

  /**
   * A call through `github_cache` / `s3_cache` with key `key`: the key is recorded
   * before the lookup; a stored non-None value is returned; otherwise the wrapped
   * function runs and its result is stored and returned.
   */
  function CachedCall<V>(st: State<V>, cat: Category, key: string, f: () -> Option<V>): (r: (Option<V>, State<V>))
    ensures Lookup(r.1, key) == r.0
    ensures Lookup(st, key).Some? ==> r.0 == Lookup(st, key) && r.1.store == st.store
    ensures Keys(r.1, cat) == Keys(st, cat) + {key}
  {
    var st1 := Record(st, cat, key);
    var hit := Lookup(st, key);
    if hit.Some? then (hit, st1)
    else
      var v := f();
      (v, st1.(store := st1.store[key := v]))
  }

  /**
   * `clear_github_cache` / `clear_s3_cache`: every key of the category misses afterwards and
   * its set is empty; the other category's set is kept.
   */
  function Clear<V>(st: State<V>, cat: Category): (r: State<V>)
    ensures Keys(r, cat) == {}
    ensures forall k :: k in Keys(st, cat) ==> Lookup(r, k).None?
    ensures cat == Github ==> r.s3 == st.s3
    ensures cat == S3 ==> r.github == st.github
  {
    match cat
    case Github => State(st.store - st.github, {}, st.s3)
    case S3 => State(st.store - st.s3, st.github, {})
  }

  /** Every key holding a value was recorded by one of the two decorators. */
  ghost predicate Complete<V>(st: State<V>)
  {
    forall k :: k in st.store && st.store[k].Some? ==> k in st.github || k in st.s3
  }

  /** A call records its key in its own set even when it misses, and leaves the other set alone. */
  lemma CallRecordsKey<V>(st: State<V>, cat: Category, key: string, f: () -> Option<V>)
    ensures Keys(CachedCall(st, cat, key, f).1, cat) == Keys(st, cat) + {key}
    ensures CachedCall(st, cat, key, f).1.github == st.github || cat == Github
    ensures CachedCall(st, cat, key, f).1.s3 == st.s3 || cat == S3
  {
  }

  /** A hit returns the stored value whatever the wrapped function would compute. */
  lemma HitSkipsCall<V>(st: State<V>, cat: Category, key: string, f: () -> Option<V>, g: () -> Option<V>)
    requires Lookup(st, key).Some?
    ensures CachedCall(st, cat, key, f) == CachedCall(st, cat, key, g)
    ensures CachedCall(st, cat, key, f).0 == Lookup(st, key)
  {
  }

  /** A miss runs the wrapped function, stores its result and returns it. */
  lemma MissStores<V>(st: State<V>, cat: Category, key: string, f: () -> Option<V>)
    requires Lookup(st, key).None?
    ensures CachedCall(st, cat, key, f).0 == f()
    ensures Lookup(CachedCall(st, cat, key, f).1, key) == f()
  {
  }

  lemma CallComplete<V>(st: State<V>, cat: Category, key: string, f: () -> Option<V>)
    requires Complete(st)
    ensures Complete(CachedCall(st, cat, key, f).1)
  {
  }

  lemma ClearComplete<V>(st: State<V>, cat: Category)
    requires Complete(st)
    ensures Complete(Clear(st, cat))
  {
  }

  /**
   * Clearing a category empties its set, leaves the other set as it was, makes every key it
   * had recorded miss, and leaves every other key reading as before.
   */
  lemma ClearEffect<V>(st: State<V>, cat: Category, key: string)
    ensures Keys(Clear(st, cat), cat) == {}
    ensures cat == Github ==> Clear(st, cat).s3 == st.s3
    ensures cat == S3 ==> Clear(st, cat).github == st.github
    ensures key in Keys(st, cat) ==> Lookup(Clear(st, cat), key).None?
    ensures key !in Keys(st, cat) ==> Lookup(Clear(st, cat), key) == Lookup(st, key)
  {
  }

  /** The cache with its module-level `_github_cache_keys` and `_s3_cache_keys` sets. */
  class DecoratorCache<V> {
    var store: map<string, Option<V>>
    var githubKeys: set<string>
    var s3Keys: set<string>

    function Current(): State<V>
      reads this
    {
      State(store, githubKeys, s3Keys)
    }

    constructor()
      ensures Current() == State(map[], {}, {})
    {
      store := map[];
      githubKeys := {};
      s3Keys := {};
    }

    /**
     * A call to a function decorated with `github_cache` (or `s3_cache`); `digest` stands
     * for `sha256(json.dumps(parts))`.
     */
    method Call(cat: Category, name: string, args: seq<string>, kwargs: seq<Kwarg>,
                digest: seq<string> -> string, f: () -> Option<V>) returns (value: Option<V>)
      modifies this
      ensures (value, Current()) ==
        CachedCall(old(Current()), cat, digest(KeyParts(if cat == Github then "github" else "s3", name, args, kwargs)), f)
    {
      var prefix := if cat == Github then "github" else "s3";
      var key := digest(KeyParts(prefix, name, args, kwargs));
      if cat == Github {
        githubKeys := githubKeys + {key};
      } else {
        s3Keys := s3Keys + {key};
      }
      value := if key in store then store[key] else None;
      if value.Some? {
        return;
      }
      value := f();
      store := store[key := value];
    }

    /** `clear_github_cache` / `clear_s3_cache`: delete each recorded key, then empty the set. */
    method ClearCache(cat: Category)
      modifies this
      ensures Current() == Clear(old(Current()), cat)
    {
      var recorded := if cat == Github then githubKeys else s3Keys;
      var pending := recorded;
      while pending != {}
        invariant pending <= recorded
        invariant githubKeys == old(githubKeys) && s3Keys == old(s3Keys)
        invariant store == old(store) - (recorded - pending)
        decreases pending
      {
        var key :| key in pending;
        store := store - {key};
        pending := pending - {key};
      }
      if cat == Github {
        githubKeys := {};
      } else {
        s3Keys := {};
      }
    }
  }
}
