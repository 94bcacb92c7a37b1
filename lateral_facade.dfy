/**
 * LateralCacheNoWaitFacade: the array of lateral no-wait caches behind one
 * region, its membership operations, the first-hit read and the status
 * aggregation.
 *
 * The no-wait caches are opaque values compared with equals(); a Java null
 * argument is `None`. What a no-wait cache answers to get(key) and
 * getStatus() is passed in as a function, since those caches talk to the
 * network.
 */
module LateralFacade {
  import opened Optional
  import opened LruMap

  /** CacheStatus as the facade reports it. */
  datatype CacheStatus = Alive | Error | Disposed

  /** The position of the first element equal to x, or -1. */
  function IndexOf<N(==)>(s: seq<N>, x: N): (i: int)
    ensures -1 <= i < |s|
    ensures i == -1 <==> x !in s
    ensures 0 <= i ==> s[i] == x && x !in s[..i]
  {
    if |s| == 0 then -1
    else if s[0] == x then 0
    else
      var j := IndexOf(s[1..], x);
      if j == -1 then -1
      else
        assert s[..j + 1] == [s[0]] + s[1..][..j];
        j + 1
  }

  /** containsNoWait(noWait): whether some element of the array equals it. */
  function ContainsNoWait<N(==)>(noWaits: seq<N>, noWait: N): (r: bool)
    ensures r <==> exists i :: 0 <= i < |noWaits| && noWaits[i] == noWait
  {
    IndexOf(noWaits, noWait) >= 0
  }

  /** The array with the element at position p spliced out. */
  function SpliceOut<N>(s: seq<N>, p: nat): (r: seq<N>)
    requires p < |s|
    ensures |r| == |s| - 1
    ensures forall j :: 0 <= j < p ==> r[j] == s[j]
    ensures forall j :: p <= j < |r| ==> r[j] == s[j + 1]
  {
    s[..p] + s[p + 1..]
  }

  /**
   * get(key): the first non-null answer of the no-wait caches, in array
   * order; null when none has the key.
   */
  function Get<N, K, E>(noWaits: seq<N>, lookup: (N, K) -> Option<E>, key: K): (r: Option<E>)
    ensures r.None? <==> forall i :: 0 <= i < |noWaits| ==> lookup(noWaits[i], key).None?
    ensures r.Some? ==> exists i :: 0 <= i < |noWaits| && lookup(noWaits[i], key) == r &&
                                    forall j :: 0 <= j < i ==> lookup(noWaits[j], key).None?
  {
    if |noWaits| == 0 then None
    else
      var first := lookup(noWaits[0], key);
      if first.Some? then
        assert lookup(noWaits[0], key) == first;
        first
      else
        var rest := Get(noWaits[1..], lookup, key);
        assert forall i :: 1 <= i < |noWaits| ==> noWaits[i] == noWaits[1..][i - 1];
        assert rest.Some? ==> exists i :: 0 <= i < |noWaits| && lookup(noWaits[i], key) == rest &&
                                          forall j :: 0 <= j < i ==> lookup(noWaits[j], key).None? by {
          if rest.Some? {
            var i :| 0 <= i < |noWaits[1..]| && lookup(noWaits[1..][i], key) == rest &&
                     forall j :: 0 <= j < i ==> lookup(noWaits[1..][j], key).None?;
            assert lookup(noWaits[i + 1], key) == rest;
            forall j | 0 <= j < i + 1 ensures lookup(noWaits[j], key).None? {
              if j > 0 { assert noWaits[j] == noWaits[1..][j - 1]; }
            }
          }
        }
        rest
  }

  /**
   * getMultiple(keys): the keys asked for that some no-wait cache has, each
   * with what get returns for it; an empty map for a null or empty key set.
   */
  function GetMultiple<N, K(!new), E>(noWaits: seq<N>, lookup: (N, K) -> Option<E>, keys: Option<set<K>>): (r: map<K, E>)
    ensures keys.None? ==> r == map[]
    ensures forall k :: k in r <==> keys.Some? && k in keys.value && Get(noWaits, lookup, k).Some?
    ensures forall k :: k in r ==> Some(r[k]) == Get(noWaits, lookup, k)
  {
    if keys.Some? && keys.value != {} then
      map k | k in keys.value && Get(noWaits, lookup, k).Some? :: Get(noWaits, lookup, k).value
    else map[]
  }

  /** What getMultiple as written ends in: a map, or the NullPointerException Collectors.toMap throws on a null value. */
  datatype Multiple<K, E> = Elements(elements: map<K, E>) | NullValueThrown

  /**
   * getMultiple(keys) as written: the first Collectors.toMap collects get(key)
   * for every key before the nulls are filtered out, and toMap rejects a null
   * value, so a single key that no no-wait cache holds makes the call throw.
   */
  function GetMultipleAsWritten<N, K(!new), E>(noWaits: seq<N>, lookup: (N, K) -> Option<E>, keys: Option<set<K>>): (r: Multiple<K, E>)
    ensures r.NullValueThrown? <==> keys.Some? && exists k :: k in keys.value && Get(noWaits, lookup, k).None?
    ensures r.Elements? ==> r.elements == GetMultiple(noWaits, lookup, keys)
  {
    if keys.Some? && keys.value != {} then
      if exists k :: k in keys.value && Get(noWaits, lookup, k).None? then NullValueThrown
      else Elements(map k | k in keys.value :: Get(noWaits, lookup, k).value)
    else Elements(map[])
  }

  /**
   * With no no-wait cache at all, getMultiple of one key throws as written,
   * where the documented result is the empty map.
   */
  lemma GetMultipleThrowsOnMissingKey<K(!new), E>(lookup: (int, K) -> Option<E>, key: K)
    ensures GetMultipleAsWritten([], lookup, Some({key})) == NullValueThrown
    ensures GetMultiple([], lookup, Some({key})) == map[]
  {
    assert key in {key} && Get([], lookup, key).None?;
  }

  /** The statuses of the no-wait caches, in array order. */
  function Statii<N>(noWaits: seq<N>, status: N -> CacheStatus): (r: seq<CacheStatus>)
    ensures |r| == |noWaits| && forall i :: 0 <= i < |r| ==> r[i] == status(noWaits[i])
  {
    seq(|noWaits|, i requires 0 <= i < |noWaits| => status(noWaits[i]))
  }

  /** getStatus() over the disposed flag, the array and whether a listener is set. */
  function GetStatus<N>(disposed: bool, noWaits: seq<N>, listener: bool, status: N -> CacheStatus): CacheStatus
  {
    if disposed then Disposed
    else if |noWaits| == 0 || listener then Alive
    else
      var statii := Statii(noWaits, status);
      if Alive in statii then Alive
      else if Error in statii then Error
      else Disposed
  }

  /**
   * The precedence of getStatus: disposed first, then an empty array or a
   * listener, then any live no-wait cache, then any in error.
   */
  lemma StatusPrecedence<N>(disposed: bool, noWaits: seq<N>, listener: bool, status: N -> CacheStatus)
    ensures var r := GetStatus(disposed, noWaits, listener, status);
            && (r == Alive <==>
                  !disposed && (|noWaits| == 0 || listener || exists i :: 0 <= i < |noWaits| && status(noWaits[i]) == Alive))
            && (r == Error <==>
                  !disposed && |noWaits| > 0 && !listener &&
                  (forall i :: 0 <= i < |noWaits| ==> status(noWaits[i]) != Alive) &&
                  (exists i :: 0 <= i < |noWaits| && status(noWaits[i]) == Error))
            && (r == Disposed <==>
                  disposed || (|noWaits| > 0 && !listener &&
                               forall i :: 0 <= i < |noWaits| ==> status(noWaits[i]) == Disposed))
  {
    var statii := Statii(noWaits, status);
    if !disposed && |noWaits| > 0 && !listener {
      if Alive in statii {
        var i :| 0 <= i < |statii| && statii[i] == Alive;
      } else if Error in statii {
        var i :| 0 <= i < |statii| && statii[i] == Error;
        assert status(noWaits[i]) == Error;
      } else {
        forall i | 0 <= i < |noWaits| ensures status(noWaits[i]) == Disposed {
          assert statii[i] in statii;
        }
      }
    }
  }

  /** Adding an element that is absent and then removing it gives back the array. */
  lemma AddThenRemove<N>(s: seq<N>, x: N)
    requires x !in s
    ensures IndexOf(s + [x], x) == |s|
    ensures SpliceOut(s + [x], |s|) == s
  {
    assert (s + [x])[|s|] == x;
  }

  /** Splicing out an element keeps an array free of duplicates. */
  lemma SpliceOutKeepsDistinct<N(!new)>(s: seq<N>, p: nat)
    requires Distinct(s) && p < |s|
    ensures Distinct(SpliceOut(s, p))
    ensures s[p] !in SpliceOut(s, p)
  {
    var r := SpliceOut(s, p);
    forall i, j | 0 <= i < j < |r| ensures r[i] != r[j] {
      var i' := if i < p then i else i + 1;
      var j' := if j < p then j else j + 1;
      assert r[i] == s[i'] && r[j] == s[j'];
    }
    forall i | 0 <= i < |r| ensures r[i] != s[p] {
      var i' := if i < p then i else i + 1;
      assert r[i] == s[i'];
    }
  }

  /** Appending an element that is absent keeps an array free of duplicates. */
  lemma AppendKeepsDistinct<N(!new)>(s: seq<N>, x: N)
    requires Distinct(s) && x !in s
    ensures Distinct(s + [x])
  {
    var t := s + [x];
    forall i, j | 0 <= i < j < |t| ensures t[i] != t[j] {
      if j == |s| {
        assert t[i] == s[i];
      } else {
        assert t[i] == s[i] && t[j] == s[j];
      }
    }
  }

  /** The facade: the array of no-wait caches, the listener and the disposed flag. */
  class NoWaitFacade<N(==, !new)> {
    var noWaits: seq<N>
    /** Whether a cache listener is set (the listener itself is not modelled). */
    var listener: bool
    var disposed: bool
    const cacheName: string

    constructor (listener: bool, noWaits: seq<N>, cacheName: string)
      ensures this.listener == listener && this.noWaits == noWaits && this.cacheName == cacheName
      ensures !disposed
    {
      this.listener := listener;
      this.noWaits := noWaits;
      this.cacheName := cacheName;
      this.disposed := false;
    }

    /**
     * addNoWait(noWait): appends it unless it is null or already in the
     * array; true iff it was appended.
     */
    method AddNoWait(noWait: Option<N>) returns (added: bool)
      modifies this`noWaits
      ensures added <==> noWait.Some? && noWait.value !in old(noWaits)
      ensures noWaits == if added then old(noWaits) + [noWait.value] else old(noWaits)
      ensures Distinct(old(noWaits)) ==> Distinct(noWaits)
    {
      if noWait.None? {
        return false;
      }
      if ContainsNoWait(noWaits, noWait.value) {
        return false;
      }
      if Distinct(noWaits) {
        AppendKeepsDistinct(noWaits, noWait.value);
      }
      noWaits := noWaits + [noWait.value];
      return true;
    }

    /**
     * removeNoWait(noWait): splices out the first element equal to it; true
     * iff there was one. A null argument leaves the array as it is.
     */
    method RemoveNoWait(noWait: Option<N>) returns (removed: bool)
      modifies this`noWaits
      ensures removed <==> noWait.Some? && noWait.value in old(noWaits)
      ensures removed ==> noWaits == SpliceOut(old(noWaits), IndexOf(old(noWaits), noWait.value))
      ensures !removed ==> noWaits == old(noWaits)
      ensures Distinct(old(noWaits)) ==> Distinct(noWaits)
      ensures Distinct(old(noWaits)) && noWait.Some? ==> noWait.value !in noWaits
    {
      if noWait.None? {
        return false;
      }
      var x := noWait.value;
      var position := -1;
      var i := 0;
      while i < |noWaits|
        invariant 0 <= i <= |noWaits|
        invariant position == -1 && x !in noWaits[..i]
      {
        if noWaits[i] == x {
          position := i;
          break;
        }
        assert noWaits[..i + 1] == noWaits[..i] + [noWaits[i]];
        i := i + 1;
      }
      if position == -1 {
        assert noWaits[..i] == noWaits;
        return false;
      }
      assert IndexOf(noWaits, x) == position;
      if Distinct(noWaits) {
        SpliceOutKeepsDistinct(noWaits, position);
      }
      noWaits := SpliceOut(noWaits, position);
      return true;
    }

    /** dispose(): the listener is dropped and the facade is disposed for good. */
    method Dispose()
      modifies this`listener, this`disposed
      ensures disposed && !listener
      ensures forall status: N -> CacheStatus :: GetStatus(disposed, noWaits, listener, status) == Disposed
    {
      listener := false;
      disposed := true;
    }
  }
}
