/**
 * The JCache EvictionListener: an element event handler that counts the
 * expiry events of a cache as evictions in the cache's statistics.
 */
module JCacheEviction {
  /** The kinds of element event the cache engine fires. */
  datatype ElementEventType =
    | ExceededMaxlifeBackground
    | ExceededMaxlifeOnrequest
    | ExceededIdletimeBackground
    | ExceededIdletimeOnrequest
    | SpooledDiskAvailable
    | SpooledDiskNotAvailable
    | SpooledNotAllowed

  /** The four expiry kinds, the only events handleElementEvent counts. */
  predicate IsExpiry(e: ElementEventType)
  {
    match e
    case ExceededMaxlifeBackground => true
    case ExceededMaxlifeOnrequest => true
    case ExceededIdletimeOnrequest => true
    case ExceededIdletimeBackground => true
    case _ => false
  }

  /** The evictions a run of handleElementEvent over `events` records. */
  function Evictions(events: seq<ElementEventType>): (r: nat)
    ensures r <= |events|
  {
    if |events| == 0 then 0
    else Evictions(events[..|events| - 1]) + (if IsExpiry(events[|events| - 1]) then 1 else 0)
  }

  /** The evictions of two runs in a row add up. */
  lemma {:induction false} EvictionsAppend(a: seq<ElementEventType>, b: seq<ElementEventType>)
    ensures Evictions(a + b) == Evictions(a) + Evictions(b)
    decreases |b|
  {
    if |b| == 0 {
      assert a + b == a;
    } else {
      assert (a + b)[..|a + b| - 1] == a + b[..|b| - 1];
      EvictionsAppend(a, b[..|b| - 1]);
    }
  }

  /** The evictions of a run are the number of expiry events in it, kind by kind. */
  lemma {:induction false} EvictionsCountExpiries(events: seq<ElementEventType>)
    ensures var m := multiset(events);
            Evictions(events) == m[ExceededMaxlifeBackground] + m[ExceededMaxlifeOnrequest] +
                                 m[ExceededIdletimeOnrequest] + m[ExceededIdletimeBackground]
    decreases |events|
  {
    if |events| > 0 {
      var front := events[..|events| - 1];
      assert events == front + [events[|events| - 1]];
      EvictionsCountExpiries(front);
    }
  }

  /** The statistics of a JCache cache; only the eviction counter is modelled. */
  class Statistics {
    var evictions: int

    constructor ()
      ensures evictions == 0
    {
      evictions := 0;
    }

    method IncreaseEvictions(number: int)
      modifies this
      ensures evictions == old(evictions) + number
    {
      evictions := evictions + number;
    }
  }

  class EvictionListener {
    const stats: Statistics

    constructor (statistics: Statistics)
      ensures stats == statistics
    {
      stats := statistics;
    }

    /** handleElementEvent(event): one eviction for an expiry event, nothing for any other. */
    method HandleElementEvent(event: ElementEventType)
      modifies stats
      ensures stats.evictions == old(stats.evictions) + Evictions([event])
    {
      match event
      case ExceededMaxlifeBackground => stats.IncreaseEvictions(1);
      case ExceededMaxlifeOnrequest => stats.IncreaseEvictions(1);
      case ExceededIdletimeOnrequest => stats.IncreaseEvictions(1);
      case ExceededIdletimeBackground => stats.IncreaseEvictions(1);
      case _ =>
    }
  }
}
