/**
 * The bounded key index with least-recently-used eviction (LRUMapJCS).
 *
 * `order` lists the keys from least to most recently put; `entries` maps each
 * key to its value. A put of a new key into a full map first evicts the
 * least recently used entry and hands it back to the caller, which is how
 * IndexedDiskCache.LRUMap.processRemovedLRU gets to see it. Reading an entry
 * does not change the order.
 */
module LruMap {
  import opened Optional

  datatype Lru<K, V> = Lru(order: seq<K>, entries: map<K, V>, maxSize: nat)

  ghost predicate Distinct<K>(s: seq<K>)
  {
    forall i, j :: 0 <= i < j < |s| ==> s[i] != s[j]
  }

  ghost predicate Valid<K(!new), V>(m: Lru<K, V>)
  {
    && 1 <= m.maxSize
    && |m.order| <= m.maxSize
    && Distinct(m.order)
    && (forall k :: k in m.entries <==> k in m.order)
  }

  function Empty<K, V>(maxSize: nat): Lru<K, V>
  {
    Lru([], map[], maxSize)
  }

  function Size<K, V>(m: Lru<K, V>): nat
  {
    |m.order|
  }

  function Get<K, V>(m: Lru<K, V>, k: K): Option<V>
  {
    if k in m.entries then Some(m.entries[k]) else None
  }

  /** `s` without `k`, in the same order. */
  function Without<K(==, !new)>(s: seq<K>, k: K): (r: seq<K>)
    ensures forall x :: x in r <==> x in s && x != k
    ensures |r| <= |s|
    ensures k in s ==> |r| < |s|
  {
    if s == [] then []
    else if s[0] == k then Without(s[1..], k)
    else [s[0]] + Without(s[1..], k)
  }

  lemma {:induction false} WithoutDistinct<K(!new)>(s: seq<K>, k: K)
    requires Distinct(s)
    ensures Distinct(Without(s, k))
  {
    if s != [] {
      WithoutDistinct(s[1..], k);
      if s[0] != k {
        var r := Without(s, k);
        var tail := Without(s[1..], k);
        assert s[0] !in s[1..];
        assert s[0] !in tail;
        forall i, j | 0 <= i < j < |r| ensures r[i] != r[j] {
          if i == 0 { assert r[j] == tail[j - 1]; assert tail[j - 1] in tail; }
          else { assert r[i] == tail[i - 1] && r[j] == tail[j - 1]; }
        }
      }
    }
  }

  /** The outcome of a put: the new map, the value replaced, and the entry evicted. */
  datatype PutResult<K, V> = PutResult(after: Lru<K, V>, previous: Option<V>, evicted: Option<(K, V)>)

  /** put(k, v): returns the previous value of `k`, evicting the eldest entry when a new key finds the map full. */
  function Put<K(==, !new), V>(m: Lru<K, V>, k: K, v: V): (r: PutResult<K, V>)
    requires Valid(m)
    ensures Valid(r.after) && r.after.maxSize == m.maxSize
    ensures Get(r.after, k) == Some(v)
    ensures r.previous == Get(m, k)
    ensures r.evicted.Some? <==> k !in m.entries && Size(m) == m.maxSize
    ensures r.evicted.Some? ==> r.evicted.value == (m.order[0], m.entries[m.order[0]])
    ensures forall x :: x != k ==> Get(r.after, x) == if r.evicted.Some? && r.evicted.value.0 == x then None else Get(m, x)
  {
    if k in m.entries then
      var order := Without(m.order, k);
      WithoutDistinct(m.order, k);
      PutResult(Lru(order + [k], m.entries[k := v], m.maxSize), Some(m.entries[k]), None)
    else if |m.order| >= m.maxSize then
      var victim := m.order[0];
      assert m.order == [victim] + m.order[1..];
      PutResult(Lru(m.order[1..] + [k], (m.entries - {victim})[k := v], m.maxSize), None, Some((victim, m.entries[victim])))
    else
      PutResult(Lru(m.order + [k], m.entries[k := v], m.maxSize), None, None)
  }

  /** A put of a new key into a map with room appends it and evicts nothing. */
  lemma PutNew<K(!new), V>(m: Lru<K, V>, k: K, v: V)
    requires Valid(m) && k !in m.entries && Size(m) < m.maxSize
    ensures Put(m, k, v) == PutResult(Lru(m.order + [k], m.entries[k := v], m.maxSize), None, None)
  {
  }

  /** The outcome of a remove: the new map and the value removed. */
  datatype RemoveResult<K, V> = RemoveResult(after: Lru<K, V>, removed: Option<V>)

  /** remove(k): returns the value that was stored under `k`. */
  function Remove<K(==, !new), V>(m: Lru<K, V>, k: K): (r: RemoveResult<K, V>)
    requires Valid(m)
    ensures Valid(r.after) && r.after.maxSize == m.maxSize
    ensures r.removed == Get(m, k)
    ensures Get(r.after, k) == None
    ensures forall x :: x != k ==> Get(r.after, x) == Get(m, x)
    ensures r.after.order == Without(m.order, k)
    ensures r.after.entries == m.entries - {k}
  {
    WithoutDistinct(m.order, k);
    RemoveResult(Lru(Without(m.order, k), m.entries - {k}, m.maxSize), Get(m, k))
  }
}
