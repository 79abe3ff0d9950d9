/** The part of the `lru` crate's `LruCache` that `busca/cache.rs` relies
    on, as a value: a capacity, the stored entries, and the recency order of
    their keys, least recently used first. `get` promotes the key it finds,
    `put` overwrites and promotes an existing key or inserts a new one as
    most recent, evicting the least recently used key when the cache is
    full, `pop` removes a key, and `clear` empties the cache. */
module Lru {
  import opened Wrappers

  datatype LruCache<K, V> = LruCache(cap: nat, entries: map<K, V>, order: seq<K>)

  /** A non-zero capacity (`NonZeroUsize`), each stored key exactly once in
      the recency order, and no more entries than the capacity. */
  predicate Valid<K, V>(c: LruCache<K, V>) {
    && c.cap > 0
    && Distinct(c.order)
    && Elements(c.order) == c.entries.Keys
    && |c.entries| <= c.cap
  }

  /** `LruCache::new`. */
  function New<K, V>(cap: nat): (c: LruCache<K, V>)
    requires cap > 0
    ensures Valid(c) && c.cap == cap && c.entries == map[]
  {
    LruCache(cap, map[], [])
  }

  /** `LruCache::len`. */
  function Len<K, V>(c: LruCache<K, V>): (n: nat)
    ensures Valid(c) ==> n <= c.cap && n == |c.order|
  {
    OrderLen(c);
    |c.entries|
  }

  /** The recency order lists exactly the stored keys. */
  lemma OrderLen<K, V>(c: LruCache<K, V>)
    ensures Valid(c) ==> |c.order| == |c.entries|
  {
    if Valid(c) {
      DistinctCard(c.order);
    }
  }

  /** `s` without `k`, the rest in the same order. */
  function Remove<K(==, !new)>(s: seq<K>, k: K): (r: seq<K>)
    ensures forall x :: x in r <==> x in s && x != k
  {
    if s == [] then []
    else if s[0] == k then Remove(s[1..], k)
    else [s[0]] + Remove(s[1..], k)
  }

  /** Removing a key from a duplicate-free order keeps it duplicate-free and
      shortens it by one exactly when the key was there. */
  lemma {:induction false} RemoveDistinct<K(!new)>(s: seq<K>, k: K)
    requires Distinct(s)
    ensures Distinct(Remove(s, k))
    ensures |Remove(s, k)| == if k in s then |s| - 1 else |s|
  {
    if s != [] {
      DistinctTail(s);
      RemoveDistinct(s[1..], k);
      if s[0] != k {
        DistinctAppend([s[0]], Remove(s[1..], k));
      }
    }
  }

  /** Removing a key distributes over concatenation. */
  lemma {:induction false} RemoveConcat<K(!new)>(a: seq<K>, b: seq<K>, k: K)
    ensures Remove(a + b, k) == Remove(a, k) + Remove(b, k)
  {
    if a == [] {
      assert a + b == b;
    } else {
      assert (a + b)[0] == a[0];
      assert (a + b)[1..] == a[1..] + b;
      RemoveConcat(a[1..], b, k);
    }
  }

  /** Removing an absent key changes nothing. */
  lemma {:induction false} RemoveAbsent<K(!new)>(s: seq<K>, k: K)
    requires k !in s
    ensures Remove(s, k) == s
  {
    if s != [] {
      RemoveAbsent(s[1..], k);
      assert s == [s[0]] + s[1..];
    }
  }

  /** Taking `k` out of an order in which it was moved to the end leaves
      the other keys as they were before the move. */
  lemma RemovePromoted<K(!new)>(s: seq<K>, k: K)
    ensures Remove(Remove(s, k) + [k], k) == Remove(s, k)
  {
    RemoveConcat(Remove(s, k), [k], k);
    RemoveAbsent(Remove(s, k), k);
    assert Remove([k], k) == Remove([], k);
  }

  /** `k` moved to the most recent end of the order, the other keys kept in
      their relative order. */
  function Promote<K(==, !new), V>(c: LruCache<K, V>, k: K): (r: LruCache<K, V>)
    requires Valid(c) && k in c.entries
    ensures Valid(r) && r.entries == c.entries && r.cap == c.cap
    ensures r.order[|r.order| - 1] == k
    ensures Remove(r.order, k) == Remove(c.order, k)
  {
    RemovePromoted(c.order, k);
    var rest := Remove(c.order, k);
    RemoveDistinct(c.order, k);
    DistinctAppend(rest, [k]);
    c.(order := rest + [k])
  }

  /** `LruCache::get`: the value under `k`, if any; a hit makes `k` the most
      recently used key, keeps the other keys in their recency order and
      changes nothing else. */
  function Get<K(==, !new), V>(c: LruCache<K, V>, k: K): (r: (Option<V>, LruCache<K, V>))
    requires Valid(c)
    ensures Valid(r.1) && r.1.cap == c.cap && r.1.entries == c.entries
    ensures r.0.Some? <==> k in c.entries
    ensures r.0.Some? ==> r.0.value == c.entries[k] && r.1.order[|r.1.order| - 1] == k
    ensures r.0.Some? ==> Remove(r.1.order, k) == Remove(c.order, k)
    ensures r.0.None? ==> r.1 == c
  {
    if k in c.entries then (Some(c.entries[k]), Promote(c, k)) else (None, c)
  }

  /** A hit on any key but the least recently used one leaves that key
      next in line for eviction. */
  lemma GetMantemVitima<K(!new), V>(c: LruCache<K, V>, k: K)
    requires Valid(c) && k in c.entries && c.order[0] != k
    ensures Get(c, k).1.order[0] == c.order[0]
  {
    assert k in Elements(c.order);
    assert c.order == [c.order[0]] + c.order[1..];
    assert Remove(c.order, k) == [c.order[0]] + Remove(c.order[1..], k);
  }

  /** `LruCache::put`: stores `v` under `k` as the most recently used key.
      An existing key is overwritten in place of its old value; a new key
      in a full cache first evicts the least recently used key; otherwise
      no other key is lost. The other keys keep their recency order. */
  function Put<K(==, !new), V>(c: LruCache<K, V>, k: K, v: V): (r: LruCache<K, V>)
    requires Valid(c)
    ensures Valid(r) && r.cap == c.cap
    ensures k in r.entries && r.entries[k] == v && r.order[|r.order| - 1] == k
    ensures forall j :: j in r.entries && j != k ==> j in c.entries && r.entries[j] == c.entries[j]
    ensures k in c.entries ==> |r.entries| == |c.entries| && r.entries.Keys == c.entries.Keys
    ensures k in c.entries ==> Remove(r.order, k) == Remove(c.order, k)
    ensures k !in c.entries && |c.entries| < c.cap ==>
              |r.entries| == |c.entries| + 1 && r.entries.Keys == c.entries.Keys + {k}
    ensures k !in c.entries && |c.entries| == c.cap ==>
              |r.entries| == |c.entries| && r.entries.Keys == c.entries.Keys - {c.order[0]} + {k}
  {
    if k in c.entries then Overwrite(c, k, v)
    else if |c.entries| == c.cap then Evict(c, k, v)
    else Append(c, k, v)
  }

  /** `put` of a stored key. */
  function Overwrite<K(==, !new), V>(c: LruCache<K, V>, k: K, v: V): (r: LruCache<K, V>)
    requires Valid(c) && k in c.entries
    ensures Valid(r) && r.cap == c.cap && r.entries == c.entries[k := v]
    ensures r.order[|r.order| - 1] == k
    ensures Remove(r.order, k) == Remove(c.order, k)
    ensures |r.entries| == |c.entries| && r.entries.Keys == c.entries.Keys
  {
    Promote(c, k).(entries := c.entries[k := v])
  }

  /** `put` of a new key into a full cache: the least recently used key
      makes room. */
  function Evict<K(==, !new), V>(c: LruCache<K, V>, k: K, v: V): (r: LruCache<K, V>)
    requires Valid(c) && k !in c.entries && |c.entries| == c.cap
    ensures Valid(r) && r.cap == c.cap && r.entries == (c.entries - {c.order[0]})[k := v]
    ensures r.order[|r.order| - 1] == k
    ensures |r.entries| == |c.entries| && r.entries.Keys == c.entries.Keys - {c.order[0]} + {k}
  {
    OrderLen(c);
    EvictOrder(c, k);
    LruCache(c.cap, (c.entries - {c.order[0]})[k := v], c.order[1..] + [k])
  }

  lemma EvictOrder<K(!new), V>(c: LruCache<K, V>, k: K)
    requires Valid(c) && k !in c.entries && c.order != []
    ensures Distinct(c.order[1..] + [k])
    ensures Elements(c.order[1..] + [k]) == c.entries.Keys - {c.order[0]} + {k}
    ensures |c.entries - {c.order[0]}| == |c.entries| - 1
  {
    var lru := c.order[0];
    DistinctTail(c.order);
    var rest := c.order[1..];
    DistinctAppend(rest, [k]);
    assert Elements(rest) == c.entries.Keys - {lru} by {
      assert c.order == [lru] + rest;
    }
    assert Elements(rest + [k]) == Elements(rest) + {k};
    var m := c.entries - {lru};
    assert m.Keys == c.entries.Keys - {lru};
    assert |m.Keys| == |c.entries.Keys| - 1;
  }

  /** `put` of a new key into a cache with room. */
  function Append<K(==, !new), V>(c: LruCache<K, V>, k: K, v: V): (r: LruCache<K, V>)
    requires Valid(c) && k !in c.entries && |c.entries| < c.cap
    ensures Valid(r) && r.cap == c.cap && r.entries == c.entries[k := v]
    ensures r.order[|r.order| - 1] == k
    ensures |r.entries| == |c.entries| + 1 && r.entries.Keys == c.entries.Keys + {k}
  {
    DistinctAppend(c.order, [k]);
    c.(entries := c.entries[k := v], order := c.order + [k])
  }

  /** A new key put into a cache with room becomes the most recent, after
      every key already there. */
  lemma PutNova<K(!new), V>(c: LruCache<K, V>, k: K, v: V)
    requires Valid(c) && k !in c.entries && |c.entries| < c.cap
    ensures Put(c, k, v) == c.(entries := c.entries[k := v], order := c.order + [k])
  {
  }

  /** A stored key put again moves to the most recent end; the other keys
      keep their order. */
  lemma PutExistente<K(!new), V>(c: LruCache<K, V>, k: K, v: V)
    requires Valid(c) && k in c.entries
    ensures Put(c, k, v) == c.(entries := c.entries[k := v], order := Remove(c.order, k) + [k])
  {
  }

  /** A new key put into a full cache replaces the least recently used
      key. */
  lemma PutCheia<K(!new), V>(c: LruCache<K, V>, k: K, v: V)
    requires Valid(c) && k !in c.entries && |c.entries| == c.cap
    ensures c.order != []
    ensures Put(c, k, v) == c.(entries := (c.entries - {c.order[0]})[k := v], order := c.order[1..] + [k])
  {
    OrderLen(c);
  }

  /** `LruCache::pop`: removes `k` and returns its value, if any; the
      other keys keep their recency order. */
  function Pop<K(==, !new), V>(c: LruCache<K, V>, k: K): (r: (Option<V>, LruCache<K, V>))
    requires Valid(c)
    ensures Valid(r.1) && r.1.cap == c.cap
    ensures r.0.Some? <==> k in c.entries
    ensures r.0.Some? ==> r.0.value == c.entries[k]
    ensures r.1.entries.Keys == c.entries.Keys - {k}
    ensures forall j :: j in r.1.entries ==> r.1.entries[j] == c.entries[j]
    ensures k in c.entries ==> |r.1.entries| == |c.entries| - 1
    ensures k !in c.entries ==> r.1 == c
    ensures r.1.order == Remove(c.order, k)
  {
    RemoveDistinct(c.order, k);
    if k in c.entries then
      (Some(c.entries[k]), c.(entries := c.entries - {k}, order := Remove(c.order, k)))
    else
      RemoveAbsent(c.order, k);
      (None, c)
  }

  /** `LruCache::clear`. */
  function Clear<K, V>(c: LruCache<K, V>): (r: LruCache<K, V>)
    requires Valid(c)
    ensures Valid(r) && r.cap == c.cap && Len(r) == 0
  {
    c.(entries := map[], order := [])
  }
}
