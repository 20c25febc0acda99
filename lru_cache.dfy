/**
  * The hand-written least-recently-used cache of the hybrid retriever. A
  * JavaScript `Map` enumerates its keys in insertion order, so deleting a
  * key and setting it again makes it the most recent; the first key is the
  * least recently used.
  */
module Lru {
  import opened Wrappers

  /** The map's entries in insertion order, oldest first. */
  type Entries<K, V> = seq<(K, V)>

  predicate DistinctKeys<K(==,!new), V(==,!new)>(es: Entries<K, V>) {
    forall i, j :: 0 <= i < j < |es| ==> es[i].0 != es[j].0
  }

  predicate Has<K(==,!new), V(==,!new)>(es: Entries<K, V>, k: K) {
    exists i :: 0 <= i < |es| && es[i].0 == k
  }

  /** `map.get(k)` */
  function Lookup<K(==,!new), V(==,!new)>(es: Entries<K, V>, k: K): (r: Option<V>)
    ensures r.None? <==> !Has(es, k)
    ensures DistinctKeys(es) ==> forall i :: 0 <= i < |es| && es[i].0 == k ==> r == Some(es[i].1)
  {
    if es == [] then None
    else if es[0].0 == k then Some(es[0].1)
    else
      assert forall i :: 1 <= i < |es| ==> es[i] == es[1..][i - 1];
      Lookup(es[1..], k)
  }

  /** `map.delete(k)`: the other entries, in their order. */
  function Remove<K(==,!new), V(==,!new)>(es: Entries<K, V>, k: K): (r: Entries<K, V>)
    ensures |r| <= |es|
    ensures forall e :: e in r <==> e in es && e.0 != k
  {
    if es == [] then []
    else
      var rest := Remove(es[1..], k);
      assert forall e :: e in es <==> e == es[0] || e in es[1..];
      if es[0].0 == k then rest else [es[0]] + rest
  }

  /** Deleting from distinct keys keeps them distinct and drops one entry
      exactly when the key was present. */
  lemma {:induction false} RemoveDistinct<K(!new), V(!new)>(es: Entries<K, V>, k: K)
    requires DistinctKeys(es)
    ensures DistinctKeys(Remove(es, k))
    ensures |Remove(es, k)| == if Has(es, k) then |es| - 1 else |es|
  {
    if es != [] {
      var rest := Remove(es[1..], k);
      assert DistinctKeys(es[1..]) by {
        assert forall i :: 0 <= i < |es[1..]| ==> es[1..][i] == es[i + 1];
      }
      RemoveDistinct(es[1..], k);
      assert forall e :: e in es[1..] ==> e.0 != es[0].0;
      if es[0].0 == k {
        assert !Has(es[1..], k);
      } else {
        assert Has(es, k) ==> Has(es[1..], k);
        assert Has(es[1..], k) ==> Has(es, k) by {
          assert forall i :: 0 <= i < |es[1..]| ==> es[1..][i] == es[i + 1];
        }
        RunFreeHead(es[0], rest);
      }
    }
  }

  lemma RunFreeHead<K(!new), V(!new)>(e: (K, V), rest: Entries<K, V>)
    requires DistinctKeys(rest) && forall x :: x in rest ==> x.0 != e.0
    ensures DistinctKeys([e] + rest)
  {
    var r := [e] + rest;
    forall i, j | 0 <= i < j < |r| ensures r[i].0 != r[j].0 {
      assert r[j] == rest[j - 1];
      if i > 0 {
        assert r[i] == rest[i - 1];
      }
    }
  }

  /** Deleting an absent key changes nothing. */
  lemma {:induction false} RemoveAbsent<K(!new), V(!new)>(es: Entries<K, V>, k: K)
    requires !Has(es, k)
    ensures Remove(es, k) == es
  {
    if es != [] {
      assert !Has(es[1..], k) by {
        assert forall i :: 0 <= i < |es[1..]| ==> es[1..][i] == es[i + 1];
      }
      RemoveAbsent(es[1..], k);
      assert es == [es[0]] + es[1..];
    }
  }

  /** `map.delete(k); map.set(k, v)`: the key moves to the most recent place. */
  function Touch<K(==,!new), V(==,!new)>(es: Entries<K, V>, k: K, v: V): Entries<K, V> {
    Remove(es, k) + [(k, v)]
  }

  /** The entries after `get(k)`: a present key becomes the most recent. */
  function AfterGet<K(==,!new), V(==,!new)>(es: Entries<K, V>, k: K): Entries<K, V> {
    match Lookup(es, k)
    case None => es
    case Some(v) => Touch(es, k, v)
  }

  /** The entries after `set(k, v)`: over capacity, the first key goes. */
  function AfterSet<K(==,!new), V(==,!new)>(es: Entries<K, V>, maxSize: int, k: K, v: V): Entries<K, V> {
    var t := Touch(es, k, v);
    if |t| > maxSize then t[1..] else t
  }

  /** A key that was absent is kept and set at the end. */
  lemma TouchDistinct<K(!new), V(!new)>(es: Entries<K, V>, k: K, v: V)
    requires DistinctKeys(es)
    ensures DistinctKeys(Touch(es, k, v))
    ensures |Touch(es, k, v)| == if Has(es, k) then |es| else |es| + 1
  {
    RemoveDistinct(es, k);
    var r := Remove(es, k);
    forall i | 0 <= i < |r| ensures r[i].0 != k {
      assert r[i] in r;
    }
  }

  /** `set` keeps the cache within capacity and its keys distinct. */
  lemma SetBounded<K(!new), V(!new)>(es: Entries<K, V>, maxSize: int, k: K, v: V)
    requires DistinctKeys(es) && 1 <= maxSize && |es| <= maxSize
    ensures DistinctKeys(AfterSet(es, maxSize, k, v))
    ensures |AfterSet(es, maxSize, k, v)| <= maxSize
  {
    TouchDistinct(es, k, v);
    var t := Touch(es, k, v);
    if |t| > maxSize {
      assert forall i, j :: 0 <= i < j < |t| - 1 ==> t[1..][i] == t[i + 1] && t[1..][j] == t[j + 1];
    }
  }

  /** After `set(k, v)` the key holds `v` and is the most recent. */
  lemma SetMostRecent<K(!new), V(!new)>(es: Entries<K, V>, maxSize: int, k: K, v: V)
    requires DistinctKeys(es) && 1 <= maxSize && |es| <= maxSize
    ensures var r := AfterSet(es, maxSize, k, v); r != [] && r[|r| - 1] == (k, v) && Lookup(r, k) == Some(v)
  {
    SetBounded(es, maxSize, k, v);
    var r := AfterSet(es, maxSize, k, v);
    TouchDistinct(es, k, v);
    var t := Touch(es, k, v);
    if |t| > maxSize {
      assert |t| >= 2;
      assert r[|r| - 1] == t[|t| - 1];
    }
  }

  /** A new key in a full cache evicts exactly the least recently used
      entry; otherwise nothing is evicted. */
  lemma SetEvicts<K(!new), V(!new)>(es: Entries<K, V>, maxSize: int, k: K, v: V)
    requires DistinctKeys(es) && 1 <= maxSize && |es| <= maxSize
    ensures !Has(es, k) && |es| == maxSize ==> AfterSet(es, maxSize, k, v) == es[1..] + [(k, v)]
    ensures Has(es, k) || |es| < maxSize ==> AfterSet(es, maxSize, k, v) == Touch(es, k, v)
  {
    TouchDistinct(es, k, v);
    if !Has(es, k) && |es| == maxSize {
      RemoveAbsent(es, k);
      assert (es + [(k, v)])[1..] == es[1..] + [(k, v)];
    }
  }

  /** Deleting one key leaves every other key's value. */
  lemma {:induction false} LookupRemove<K(!new), V(!new)>(es: Entries<K, V>, k: K, k': K)
    requires k' != k
    ensures Lookup(Remove(es, k), k') == Lookup(es, k')
  {
    if es != [] {
      LookupRemove(es[1..], k, k');
      if es[0].0 != k {
        assert ([es[0]] + Remove(es[1..], k))[1..] == Remove(es[1..], k);
      }
    }
  }

  /** Setting a new last entry changes only the lookup of its own key. */
  lemma {:induction false} LookupAppend<K(!new), V(!new)>(es: Entries<K, V>, e: (K, V), k': K)
    requires e.0 != k'
    ensures Lookup(es + [e], k') == Lookup(es, k')
  {
    if es == [] {
      assert Lookup([e][1..], k') == None;
    } else {
      assert (es + [e])[1..] == es[1..] + [e];
      LookupAppend(es[1..], e, k');
    }
  }

  /** After `set(k, v)`, every other key keeps its value unless it was the
      evicted one. */
  lemma SetOthers<K(!new), V(!new)>(es: Entries<K, V>, maxSize: int, k: K, v: V, k': K)
    requires DistinctKeys(es) && 1 <= maxSize && |es| <= maxSize && k' != k
    requires Has(es, k) || |es| < maxSize || es[0].0 != k'
    ensures Lookup(AfterSet(es, maxSize, k, v), k') == Lookup(es, k')
  {
    SetEvicts(es, maxSize, k, v);
    var t := Touch(es, k, v);
    LookupRemove(es, k, k');
    LookupAppend(Remove(es, k), (k, v), k');
    if !Has(es, k) && |es| == maxSize {
      assert t[0] == es[0];
    }
  }

  /** `get` of a present key makes it the most recent and changes no value. */
  lemma GetMostRecent<K(!new), V(!new)>(es: Entries<K, V>, k: K, k': K)
    requires DistinctKeys(es) && Has(es, k)
    ensures var r := AfterGet(es, k); |r| == |es| && r[|r| - 1] == (k, Lookup(es, k).value)
    ensures Lookup(AfterGet(es, k), k') == Lookup(es, k')
  {
    var v := Lookup(es, k).value;
    TouchDistinct(es, k, v);
    if k' != k {
      LookupRemove(es, k, k');
      LookupAppend(Remove(es, k), (k, v), k');
    } else {
      TouchDistinct(es, k, v);
      var r := Touch(es, k, v);
      assert r[|r| - 1] == (k, v);
    }
  }

  /** `LruCache`: `entries` is the backing `Map`, oldest entry first. */
  class LruCache<K(==,!new), V(==,!new)> {
    var entries: Entries<K, V>
    const maxSize: int

    ghost predicate Valid()
      reads this
    {
      1 <= maxSize && |entries| <= maxSize && DistinctKeys(entries)
    }

    /** The capacity is at least one. */
    constructor(maxSize: int)
      ensures Valid() && entries == []
      ensures this.maxSize == if maxSize < 1 then 1 else maxSize
    {
      entries := [];
      this.maxSize := if maxSize < 1 then 1 else maxSize;
    }

    /** `get`: a hit moves the key to the most recent place; a miss changes
        nothing. */
    method Get(key: K) returns (r: Option<V>)
      requires Valid()
      modifies this
      ensures Valid()
      ensures r == Lookup(old(entries), key)
      ensures entries == AfterGet(old(entries), key)
      ensures r.None? ==> entries == old(entries)
    {
      r := Lookup(entries, key);
      if r.Some? {
        TouchDistinct(entries, key, r.value);
        entries := Remove(entries, key) + [(key, r.value)];
      }
    }

    /** `set`: the key becomes the most recent; a cache over capacity drops
        its first, least recently used, key. */
    method Set(key: K, value: V)
      requires Valid()
      modifies this
      ensures Valid()
      ensures entries == AfterSet(old(entries), maxSize, key, value)
      ensures Lookup(entries, key) == Some(value)
    {
      SetBounded(entries, maxSize, key, value);
      SetMostRecent(entries, maxSize, key, value);
      entries := Remove(entries, key) + [(key, value)];
      if |entries| > maxSize {
        entries := entries[1..];
      }
    }
  }
}
