/**
 * Python's `dict` as the plugin uses it: entries kept in insertion order,
 * `d[k] = v` overwriting in place or appending, `del d[k]`, `k in d` and
 * `d.get(k)`. A dict is its sequence of entries; `Distinct` says each key
 * occurs once, which every operation here preserves.
 */
module Dicts {
  import opened Wrappers

  type Dict<K, V> = seq<(K, V)>

  /** `list(d)`: the keys in insertion order. */
  function Keys<K, V>(d: Dict<K, V>): (ks: seq<K>)
    ensures |ks| == |d|
  {
    if |d| == 0 then [] else [d[0].0] + Keys(d[1..])
  }

  /** No key occurs twice. */
  predicate Distinct<K(==,!new), V>(d: Dict<K, V>) {
    |d| == 0 || (d[0].0 !in Keys(d[1..]) && Distinct(d[1..]))
  }

  /** `d.get(k)`. */
  function Find<K(==,!new), V>(d: Dict<K, V>, k: K): (r: Option<V>)
    ensures r.Some? <==> k in Keys(d)
  {
    if |d| == 0 then None
    else if d[0].0 == k then Some(d[0].1)
    else Find(d[1..], k)
  }

  /** `d[k] = v`: an existing key keeps its place, a new one goes last. */
  function Put<K(==,!new), V>(d: Dict<K, V>, k: K, v: V): (r: Dict<K, V>)
    ensures Keys(r) == if k in Keys(d) then Keys(d) else Keys(d) + [k]
  {
    if |d| == 0 then [(k, v)]
    else if d[0].0 == k then [(k, v)] + d[1..]
    else
      var r := [d[0]] + Put(d[1..], k, v);
      assert Keys(r) == [d[0].0] + Keys(Put(d[1..], k, v));
      r
  }

  /** After `d[k] = v`, k reads v and every other key reads as before. */
  lemma {:induction false} PutFind<K(!new), V>(d: Dict<K, V>, k: K, v: V, j: K)
    ensures Find(Put(d, k, v), j) == if j == k then Some(v) else Find(d, j)
  {
    if |d| > 0 && d[0].0 != k {
      PutFind(d[1..], k, v, j);
      assert Put(d, k, v)[1..] == Put(d[1..], k, v);
    }
  }

  lemma {:induction false} PutDistinct<K(!new), V>(d: Dict<K, V>, k: K, v: V)
    requires Distinct(d)
    ensures Distinct(Put(d, k, v))
  {
    if |d| > 0 && d[0].0 != k {
      PutDistinct(d[1..], k, v);
      assert Put(d, k, v)[1..] == Put(d[1..], k, v);
    } else if |d| > 0 {
      assert Put(d, k, v)[1..] == d[1..];
    }
  }

  /** `del d[k]`, written so that an absent k leaves d as it is. */
  function Remove<K(==,!new), V>(d: Dict<K, V>, k: K): (r: Dict<K, V>)
    ensures |r| <= |d|
  {
    if |d| == 0 then []
    else if d[0].0 == k then Remove(d[1..], k)
    else [d[0]] + Remove(d[1..], k)
  }

  /** After `del d[k]`, k is gone and every other key reads as before. */
  lemma {:induction false} RemoveFind<K(!new), V>(d: Dict<K, V>, k: K, j: K)
    ensures Find(Remove(d, k), j) == if j == k then None else Find(d, j)
    ensures j in Keys(Remove(d, k)) <==> j != k && j in Keys(d)
  {
    if |d| > 0 {
      RemoveFind(d[1..], k, j);
      if d[0].0 != k {
        assert Remove(d, k)[1..] == Remove(d[1..], k);
      }
    }
  }

  lemma {:induction false} RemoveAbsent<K(!new), V>(d: Dict<K, V>, k: K)
    requires k !in Keys(d)
    ensures Remove(d, k) == d
  {
    if |d| > 0 {
      assert k !in Keys(d[1..]);
      RemoveAbsent(d[1..], k);
    }
  }

  lemma {:induction false} RemoveDistinct<K(!new), V>(d: Dict<K, V>, k: K)
    requires Distinct(d)
    ensures Distinct(Remove(d, k))
    ensures k in Keys(d) ==> |Remove(d, k)| == |d| - 1
  {
    if |d| > 0 {
      RemoveDistinct(d[1..], k);
      if d[0].0 == k {
        RemoveAbsent(d[1..], k);
      } else {
        RemoveFind(d[1..], k, d[0].0);
        assert Remove(d, k)[1..] == Remove(d[1..], k);
      }
    }
  }

  // ----- dicts built by appending, as a loop filling a fresh dict does -----

  lemma {:induction false} KeysAppend<K, V>(d: Dict<K, V>, e: (K, V))
    ensures Keys(d + [e]) == Keys(d) + [e.0]
  {
    if |d| > 0 {
      assert (d + [e])[1..] == d[1..] + [e];
      KeysAppend(d[1..], e);
    }
  }

  /** Reading a dict with one more entry at the end. */
  lemma {:induction false} FindAppend<K(!new), V>(d: Dict<K, V>, e: (K, V), j: K)
    ensures Find(d + [e], j) == if j in Keys(d) then Find(d, j) else if j == e.0 then Some(e.1) else None
  {
    if |d| > 0 {
      assert (d + [e])[1..] == d[1..] + [e];
      FindAppend(d[1..], e, j);
    }
  }

  lemma {:induction false} DistinctAppend<K(!new), V>(d: Dict<K, V>, e: (K, V))
    requires Distinct(d) && e.0 !in Keys(d)
    ensures Distinct(d + [e])
  {
    if |d| > 0 {
      assert (d + [e])[1..] == d[1..] + [e];
      DistinctAppend(d[1..], e);
      KeysAppend(d[1..], e);
    }
  }

  /** A dict with one entry split off its end has no repeated key if the whole had none. */
  lemma {:induction false} DistinctInit<K(!new), V>(d: Dict<K, V>)
    requires Distinct(d) && |d| > 0
    ensures Distinct(d[..|d| - 1]) && d[|d| - 1].0 !in Keys(d[..|d| - 1])
  {
    if |d| > 1 {
      var init := d[..|d| - 1];
      assert d[1..][..|d[1..]| - 1] == init[1..];
      DistinctInit(d[1..]);
      assert d[1..] == init[1..] + [d[|d| - 1]];
      KeysAppend(init[1..], d[|d| - 1]);
      assert Keys(init) == [init[0].0] + Keys(init[1..]);
    }
  }

  /** Whether keys repeat depends on the keys alone. */
  lemma {:induction false} DistinctKeys<K(!new), V>(a: Dict<K, V>, b: Dict<K, V>)
    requires Keys(a) == Keys(b)
    ensures Distinct(a) == Distinct(b)
  {
    if |a| > 0 {
      assert Keys(a[1..]) == Keys(a)[1..] && Keys(b[1..]) == Keys(b)[1..];
      DistinctKeys(a[1..], b[1..]);
    }
  }

  /** Every entry of `d[k] = v` is the new one or an old one. */
  lemma {:induction false} PutEntries<K(!new), V>(d: Dict<K, V>, k: K, v: V)
    ensures forall e :: e in Put(d, k, v) ==> e == (k, v) || e in d
  {
    if |d| > 0 && d[0].0 != k {
      PutEntries(d[1..], k, v);
    }
  }

  /** Every entry left after `del d[k]` was in d. */
  lemma {:induction false} RemoveEntries<K(!new), V>(d: Dict<K, V>, k: K)
    ensures forall e :: e in Remove(d, k) ==> e in d
  {
    if |d| > 0 {
      RemoveEntries(d[1..], k);
    }
  }

  /**
   * `dict(pairs)` and `json.loads` of an object: a repeated key keeps its
   * first place and its last value.
   */
  function FromPairs<K(==,!new), V>(pairs: seq<(K, V)>): (d: Dict<K, V>)
  {
    if |pairs| == 0 then []
    else Put(FromPairs(pairs[..|pairs| - 1]), pairs[|pairs| - 1].0, pairs[|pairs| - 1].1)
  }

  /** `dict(pairs)` never repeats a key. */
  lemma {:induction false} FromPairsDistinct<K(!new), V>(pairs: seq<(K, V)>)
    ensures Distinct(FromPairs(pairs))
  {
    if |pairs| > 0 {
      var init := pairs[..|pairs| - 1];
      FromPairsDistinct(init);
      PutDistinct(FromPairs(init), pairs[|pairs| - 1].0, pairs[|pairs| - 1].1);
    }
  }

  /** The value of the last pair that carries k, scanning from the end. */
  function LastValue<K(==), V>(pairs: seq<(K, V)>, k: K): Option<V> {
    if |pairs| == 0 then None
    else if pairs[|pairs| - 1].0 == k then Some(pairs[|pairs| - 1].1)
    else LastValue(pairs[..|pairs| - 1], k)
  }

  /** Reading a key of `dict(pairs)` finds the value of the last pair with that key: later pairs win. */
  lemma {:induction false} FromPairsFind<K(!new), V>(pairs: seq<(K, V)>, k: K)
    ensures Find(FromPairs(pairs), k) == LastValue(pairs, k)
  {
    if |pairs| > 0 {
      var init := pairs[..|pairs| - 1];
      var last := pairs[|pairs| - 1];
      FromPairsFind(init, k);
      PutFind(FromPairs(init), last.0, last.1, k);
    }
  }

  /** A key is in `dict(pairs)` exactly when some pair carries it. */
  lemma FromPairsHas<K(!new), V>(pairs: seq<(K, V)>, k: K)
    ensures Find(FromPairs(pairs), k).None? <==> forall i :: 0 <= i < |pairs| ==> pairs[i].0 != k
  {
    FromPairsFind(pairs, k);
    LastValueNone(pairs, k);
  }

  lemma {:induction false} LastValueNone<K(!new), V>(pairs: seq<(K, V)>, k: K)
    ensures LastValue(pairs, k).None? <==> forall i :: 0 <= i < |pairs| ==> pairs[i].0 != k
  {
    if |pairs| > 0 {
      var init := pairs[..|pairs| - 1];
      LastValueNone(init, k);
      if pairs[|pairs| - 1].0 != k {
        assert forall i :: 0 <= i < |init| ==> init[i] == pairs[i];
      }
    }
  }
}
