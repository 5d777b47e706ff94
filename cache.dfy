/**
 * The in-memory TTL cache of generated messages, keyed by news type, format
 * and an optional pinned API index.  `now` is the caller's clock in seconds.
 */
module Cache {
  import opened Wrappers
  import opened PyText
  import opened Models

  /** `config.daily_news_cache_expire`. */
  const DefaultCacheExpire: nat := 3600

  /** `get_cache_key`: `type:format`, or `type:format:api{n}` for a pinned API. */
  function CacheKey(newsType: string, formatType: string, apiIndex: Option<int>): (k: string)
    ensures |k| > |newsType| + |formatType| && k[..|newsType| + |formatType| + 1] == newsType + ":" + formatType
    ensures apiIndex.None? <==> |k| == |newsType| + |formatType| + 1
  {
    match apiIndex
    case None => newsType + ":" + formatType
    case Some(n) => newsType + ":" + formatType + ":api" + IntToStr(n)
  }

  /** The news type a key is counted under by `get_status`. */
  function KeyType(key: string): string { Split(key, ':')[0] }

  function TypePrefix(newsType: string): string { newsType + ":" }

  /** Keys whose type part differs from a colon-free type never match that type's prefix, and vice versa. */
  lemma KeyTypeOf(newsType: string, formatType: string, apiIndex: Option<int>)
    requires ':' !in newsType
    ensures KeyType(CacheKey(newsType, formatType, apiIndex)) == newsType
    ensures StartsWith(CacheKey(newsType, formatType, apiIndex), TypePrefix(newsType))
  {
    var rest := match apiIndex
      case None => formatType
      case Some(n) => formatType + ":api" + IntToStr(n);
    assert CacheKey(newsType, formatType, apiIndex) == newsType + [':'] + rest;
    SplitAt(newsType, ':', rest);
  }

  /**
   * For colon-free types and formats the key determines all three parts, so a
   * pinned entry and a default entry never share a slot.
   */
  lemma CacheKeyInjective(t1: string, f1: string, i1: Option<int>, t2: string, f2: string, i2: Option<int>)
    requires ':' !in t1 && ':' !in f1 && ':' !in t2 && ':' !in f2
    requires CacheKey(t1, f1, i1) == CacheKey(t2, f2, i2)
    ensures t1 == t2 && f1 == f2 && i1 == i2
  {
    var key := CacheKey(t1, f1, i1);
    var p1 := KeyParts(t1, f1, i1);
    var p2 := KeyParts(t2, f2, i2);
    if i1.Some? && i2.Some? {
      var n := |t1| + |f1| + 5;
      assert key[n..] == IntToStr(i1.value);
      assert key[n..] == IntToStr(i2.value);
      IntRoundTrip(i1.value);
      IntRoundTrip(i2.value);
    }
  }

  /** How a key splits on colons. */
  lemma KeyParts(t: string, f: string, i: Option<int>) returns (parts: seq<string>)
    requires ':' !in t && ':' !in f
    ensures parts == Split(CacheKey(t, f, i), ':')
    ensures i.None? ==> parts == [t, f]
    ensures i.Some? ==> |parts| >= 3 && parts[0] == t && parts[1] == f
  {
    match i
    case None =>
      assert CacheKey(t, f, i) == t + [':'] + f;
      SplitAt(t, ':', f);
      SplitNone(f, ':');
      parts := Split(CacheKey(t, f, i), ':');
    case Some(n) =>
      var tail := "api" + IntToStr(n);
      assert CacheKey(t, f, i) == t + [':'] + (f + [':'] + tail);
      SplitAt(t, ':', f + [':'] + tail);
      SplitAt(f, ':', tail);
      parts := Split(CacheKey(t, f, i), ':');
  }

  class NewsCache {
    var cache: map<string, CacheItem>
    const defaultExpireTime: int

    /** `NewsCache(expire_time)`: an empty cache whose default TTL is `expire_time or config`. */
    constructor(expireTime: int)
      ensures cache == map[]
      ensures defaultExpireTime == if expireTime != 0 then expireTime else DefaultCacheExpire
    {
      cache := map[];
      defaultExpireTime := if expireTime != 0 then expireTime else DefaultCacheExpire;
    }

    /** `get`: a fresh entry's message; an expired entry is dropped on this access and reported as a miss. */
    method Get(newsType: string, formatType: string, apiIndex: Option<int>, now: int) returns (r: Option<Message>)
      modifies this
      ensures var key := CacheKey(newsType, formatType, apiIndex);
        && (key in old(cache) && !old(cache)[key].IsExpired(now) ==> r == Some(old(cache)[key].data) && cache == old(cache))
        && (key in old(cache) && old(cache)[key].IsExpired(now) ==> r == None && cache == old(cache) - {key})
        && (key !in old(cache) ==> r == None && cache == old(cache))
    {
      var key := CacheKey(newsType, formatType, apiIndex);
      if key in cache {
        var item := cache[key];
        if !item.IsExpired(now) {
          return Some(item.data);
        } else {
          cache := cache - {key};
        }
      }
      return None;
    }

    /** `set`: overwrite unconditionally; a TTL of 0 (or none) falls back to the default. */
    method Set(newsType: string, formatType: string, data: Message, expireTime: int, apiIndex: Option<int>, now: int)
      modifies this
      ensures cache == old(cache)[CacheKey(newsType, formatType, apiIndex) :=
        CacheItem(data, now + (if expireTime != 0 then expireTime else defaultExpireTime), now)]
    {
      var key := CacheKey(newsType, formatType, apiIndex);
      var expireSeconds := if expireTime != 0 then expireTime else defaultExpireTime;
      cache := cache[key := CacheItem(data, now + expireSeconds, now)];
    }

    /** `delete`: whether the key existed; only that key goes. */
    method Delete(newsType: string, formatType: string, apiIndex: Option<int>) returns (existed: bool)
      modifies this
      ensures existed <==> CacheKey(newsType, formatType, apiIndex) in old(cache)
      ensures cache == old(cache) - {CacheKey(newsType, formatType, apiIndex)}
    {
      var key := CacheKey(newsType, formatType, apiIndex);
      if key in cache {
        cache := cache - {key};
        return true;
      }
      return false;
    }

    /** `delete_by_type`: drop every key starting with `type:` and count them. */
    method DeleteByType(newsType: string) returns (count: nat)
      modifies this
      ensures cache == Without(old(cache), WithPrefix(old(cache).Keys, TypePrefix(newsType)))
      ensures count == |WithPrefix(old(cache).Keys, TypePrefix(newsType))|
    {
      var prefix := TypePrefix(newsType);
      var keysToDelete: set<string> := {};
      var unseen := cache.Keys;
      while unseen != {}
        invariant unseen <= cache.Keys && cache == old(cache)
        invariant forall k :: k in keysToDelete <==> k in cache && k !in unseen && StartsWith(k, prefix)
        decreases |unseen|
      {
        var key :| key in unseen;
        if StartsWith(key, prefix) {
          keysToDelete := keysToDelete + {key};
        }
        unseen := unseen - {key};
      }
      assert keysToDelete == WithPrefix(cache.Keys, prefix);
      count := DeleteAll(keysToDelete);
    }

    /** `clear`: the former size; the cache ends empty. */
    method Clear() returns (count: nat)
      modifies this
      ensures count == |old(cache)| && cache == map[]
    {
      count := |cache|;
      cache := map[];
    }

    /** `clear_expired`: drop exactly the expired entries, keep the rest as they were, and count them. */
    method ClearExpired(now: int) returns (count: nat)
      modifies this
      ensures cache == Without(old(cache), Expired(old(cache), now))
      ensures count == |Expired(old(cache), now)|
    {
      var keysToDelete: set<string> := {};
      var unseen := cache.Keys;
      while unseen != {}
        invariant unseen <= cache.Keys && cache == old(cache)
        invariant forall k :: k in keysToDelete <==> k in cache && k !in unseen && cache[k].IsExpired(now)
        decreases |unseen|
      {
        var key :| key in unseen;
        if cache[key].IsExpired(now) {
          keysToDelete := keysToDelete + {key};
        }
        unseen := unseen - {key};
      }
      assert keysToDelete == Expired(cache, now);
      count := DeleteAll(keysToDelete);
    }

    /** The deleting half of the collect-then-delete loops: `del self.cache[key]; count += 1`. */
    method DeleteAll(keysToDelete: set<string>) returns (count: nat)
      requires keysToDelete <= cache.Keys
      modifies this
      ensures cache == Without(old(cache), keysToDelete)
      ensures count == |keysToDelete|
    {
      count := 0;
      var rest := keysToDelete;
      while rest != {}
        invariant rest <= keysToDelete
        invariant cache.Keys == old(cache).Keys - (keysToDelete - rest)
        invariant forall k :: k in cache ==> cache[k] == old(cache)[k]
        invariant count + |rest| == |keysToDelete|
        decreases |rest|
      {
        var key :| key in rest;
        cache := cache - {key};
        count := count + 1;
        rest := rest - {key};
      }
      assert cache == Without(old(cache), keysToDelete);
    }

    /**
     * `get_status`: the number of entries, and per news type how many keys it
     * owns; the per-type counts add up to the total.
     */
    method GetStatus() returns (total: nat, types: map<string, nat>)
      ensures total == |cache|
      ensures Tally(cache.Keys, types)
      ensures Total(types) == total
    {
      types := map[];
      var keys := cache.Keys;
      var unseen := keys;
      ghost var seen: set<string> := {};
      while unseen != {}
        invariant seen == keys - unseen && unseen <= keys
        invariant types == TallyOf(seen)
        decreases |unseen|
      {
        var key :| key in unseen;
        var newsType := KeyType(key);
        TallyOfAdd(seen, key);
        var counted := if newsType in types then types[newsType] else 0;
        types := types[newsType := counted + 1];
        seen := seen + {key};
        unseen := unseen - {key};
      }
      assert seen == keys;
      TallyOfSpec(keys);
      total := |cache|;
      assert |cache| == |keys|;
    }
  }

  /** The per-type counts of a set of keys, counted one key at a time. */
  ghost function TallyOf(keys: set<string>): map<string, nat>
    decreases |keys|
  {
    if keys == {} then map[]
    else
      var k :| k in keys;
      Bump(TallyOf(keys - {k}), KeyType(k))
  }

  lemma BumpCommute(m: map<string, nat>, a: string, b: string)
    ensures Bump(Bump(m, a), b) == Bump(Bump(m, b), a)
  {
  }

  /** The count does not depend on the order the keys are visited in. */
  lemma {:induction false} TallyOfAdd(s: set<string>, k: string)
    requires k !in s
    ensures TallyOf(s + {k}) == Bump(TallyOf(s), KeyType(k))
    decreases |s|
  {
    var all := s + {k};
    var j :| j in all && TallyOf(all) == Bump(TallyOf(all - {j}), KeyType(j));
    if j != k {
      var rest := s - {j};
      assert all - {j} == rest + {k};
      assert rest + {j} == s;
      TallyOfAdd(rest, k);
      TallyOfAdd(rest, j);
      BumpCommute(TallyOf(rest), KeyType(k), KeyType(j));
    } else {
      assert all - {j} == s;
    }
  }

  lemma {:induction false} TallyOfSpec(s: set<string>)
    ensures Tally(s, TallyOf(s))
    decreases |s|
  {
    if s == {} {
      assert (set k | k in s :: KeyType(k)) == {};
    } else {
      var k :| k in s && TallyOf(s) == Bump(TallyOf(s - {k}), KeyType(k));
      TallyOfSpec(s - {k});
      TallyStep(s - {k}, k, TallyOf(s - {k}));
      assert s - {k} + {k} == s;
    }
  }

  /** `types` counts the keys of `seen` by news type. */
  ghost predicate Tally(seen: set<string>, types: map<string, nat>) {
    && types.Keys == (set k | k in seen :: KeyType(k))
    && (forall t :: t in types ==> types[t] == |KeysOfType(seen, t)|)
    && Total(types) == |seen|
  }

  /** Counting one more key bumps its type's count, starting it at 0 if new. */
  lemma TallyStep(seen: set<string>, key: string, types: map<string, nat>)
    requires key !in seen && Tally(seen, types)
    ensures Tally(seen + {key}, Bump(types, KeyType(key)))
  {
    var t := KeyType(key);
    TallyKeys(seen, key, types);
    TallyCounts(seen, key, types);
    TallyTotal(seen, key, types);
  }

  /** `types[t] = types.get(t, 0) + 1`. */
  function Bump(types: map<string, nat>, t: string): map<string, nat> {
    types[t := (if t in types then types[t] else 0) + 1]
  }

  lemma TallyKeys(seen: set<string>, key: string, types: map<string, nat>)
    requires types.Keys == (set k | k in seen :: KeyType(k))
    ensures Bump(types, KeyType(key)).Keys == (set k | k in seen + {key} :: KeyType(k))
  {
  }

  lemma TallyCounts(seen: set<string>, key: string, types: map<string, nat>)
    requires key !in seen
    requires types.Keys == (set k | k in seen :: KeyType(k))
    requires forall t :: t in types ==> types[t] == |KeysOfType(seen, t)|
    ensures forall t :: t in Bump(types, KeyType(key)) ==> Bump(types, KeyType(key))[t] == |KeysOfType(seen + {key}, t)|
  {
    var t := KeyType(key);
    if t !in types {
      forall k | k in seen ensures KeyType(k) != t {
        assert KeyType(k) in types.Keys;
      }
      assert KeysOfType(seen, t) == {};
    }
    assert KeysOfType(seen + {key}, t) == KeysOfType(seen, t) + {key};
    forall u | u != t
      ensures KeysOfType(seen + {key}, u) == KeysOfType(seen, u)
    {
    }
  }

  lemma TallyTotal(seen: set<string>, key: string, types: map<string, nat>)
    requires key !in seen && Total(types) == |seen|
    ensures Total(Bump(types, KeyType(key))) == |seen + {key}|
  {
    var t := KeyType(key);
    if t in types {
      TotalUpdate(types, t, types[t] + 1);
    } else {
      TotalRemove(types[t := 1], t);
      assert types[t := 1] - {t} == types;
    }
  }

  /** The entries left after removing some keys. */
  function Without(m: map<string, CacheItem>, gone: set<string>): map<string, CacheItem> {
    map k | k in m && k !in gone :: m[k]
  }

  function WithPrefix(keys: set<string>, prefix: string): set<string> {
    set k | k in keys && StartsWith(k, prefix)
  }

  function Expired(m: map<string, CacheItem>, now: int): set<string> {
    set k | k in m && m[k].IsExpired(now)
  }

  function KeysOfType(keys: set<string>, t: string): set<string> {
    set k | k in keys && KeyType(k) == t
  }

  /** The sum of a map's values. */
  ghost function Total(m: map<string, nat>): nat
    decreases |m|
  {
    if m == map[] then 0
    else
      var k :| k in m;
      m[k] + Total(m - {k})
  }

  /** The sum does not depend on which key is taken first. */
  lemma {:induction false} TotalRemove(m: map<string, nat>, k: string)
    requires k in m
    ensures Total(m) == m[k] + Total(m - {k})
    decreases |m|
  {
    var j :| j in m && Total(m) == m[j] + Total(m - {j});
    if j != k {
      assert |m - {j}| < |m|;
      TotalRemove(m - {j}, k);
      TotalRemove(m - {k}, j);
      assert (m - {j}) - {k} == (m - {k}) - {j};
    }
  }

  lemma TotalUpdate(m: map<string, nat>, k: string, v: nat)
    requires k in m
    ensures Total(m[k := v]) == Total(m) - m[k] + v
  {
    TotalRemove(m, k);
    TotalRemove(m[k := v], k);
    assert m[k := v] - {k} == m - {k};
  }
}
