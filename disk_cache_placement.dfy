/**
 * The placement rule of doUpdate, case by case, and what it leaves behind:
 * a reused slot keeps only the new length, a record that grows leaves its
 * old slot to nobody, and a put that evicts can be served from the slot it
 * just evicted.
 */
module DiskCachePlacement {
  import opened Optional
  import opened CacheKeys
  import opened RecycleBin
  import opened LruMap
  import opened IndexedDisk
  import opened DiskCacheSpec
  import opened DiskCacheLayout

  /** The length doUpdate serializes `ce` to. */
  function EncodedLength(cfg: Config, ce: CacheElement): nat
  {
    cfg.encodedLength(ElementRecord(ce))
  }

  /** Whether the key already has a slot the new record fits in. */
  predicate FitsInPlace(cfg: Config, s: Engine, ce: CacheElement)
  {
    ce.key in s.keyHash.entries && EncodedLength(cfg, ce) <= s.keyHash.entries[ce.key].len
  }

  /**
   * The recycle bin doUpdate looks in: keyHash.put runs first, so when the
   * key is new and the index is full, the slot of the least recently used
   * entry is already in it.
   */
  function BinAtPlacement(s: Engine, key: CacheKey): seq<Descriptor>
    requires LruMap.Valid(s.keyHash)
  {
    if key !in s.keyHash.entries && Size(s.keyHash) == s.keyHash.maxSize
    then Add(s.recycle, s.keyHash.entries[s.keyHash.order[0]])
    else s.recycle
  }

  /** The bin doUpdate looks in is the live bin with what the put evicted. */
  lemma BinAtPlacementIsFreed(cfg: Config, s: Engine, ce: CacheElement)
    requires Invariant(cfg, s)
    ensures var put := Put(s.keyHash, ce.key, Descriptor(s.dataFile.length, EncodedLength(cfg, ce)));
            && RecycleFreed(s.recycle, EvictedDescriptor(put.evicted)) == BinAtPlacement(s, ce.key)
            && put.previous == Get(s.keyHash, ce.key)
            && Sorted(BinAtPlacement(s, ce.key))
  {
    if ce.key !in s.keyHash.entries && Size(s.keyHash) == s.keyHash.maxSize {
      AddKeepsSorted(s.recycle, s.keyHash.entries[s.keyHash.order[0]]);
    }
  }

  /**
   * A record that fits in the key's old slot is written there: the slot
   * keeps its offset but records only the new length, so the rest of it is
   * lost; the bin, the bin counter and the file length stay as they were.
   */
  lemma UpdateInPlace(cfg: Config, s: Engine, ce: CacheElement)
    requires Invariant(cfg, s) && s.alive && FitsInPlace(cfg, s, ce)
    ensures var s' := Update(cfg, s, ce);
            && s'.keyHash.entries[ce.key] == Descriptor(s.keyHash.entries[ce.key].pos, EncodedLength(cfg, ce))
            && s'.recycle == s.recycle
            && s'.recycleCnt == s.recycleCnt
            && (SoundEngine(s) ==> s'.dataFile.length == s.dataFile.length)
  {
    UpdateShape(cfg, s, ce);
    BinAtPlacementIsFreed(cfg, s, ce);
    if SoundEngine(s) {
      assert Within(s.keyHash.entries[ce.key], s.dataFile.length);
    }
  }

  /**
   * Otherwise a bin hit takes the shortest descriptor that is long enough:
   * the record goes to its offset, it leaves the bin and the bin counter
   * goes up by one.
   */
  lemma UpdateFromBin(cfg: Config, s: Engine, ce: CacheElement)
    requires Invariant(cfg, s) && s.alive && !FitsInPlace(cfg, s, ce)
    requires exists d :: d in BinAtPlacement(s, ce.key) && d.len >= EncodedLength(cfg, ce)
    ensures var s' := Update(cfg, s, ce);
            var bin := BinAtPlacement(s, ce.key);
            var len := EncodedLength(cfg, ce);
            && (exists d :: && d in bin && d.len >= len
                            && (forall e :: e in bin && e.len >= len ==> d.len <= e.len)
                            && s'.keyHash.entries[ce.key] == Descriptor(d.pos, len)
                            && multiset(s'.recycle) == multiset(bin) - multiset{d})
            && s'.recycleCnt == s.recycleCnt + 1
  {
    UpdateShape(cfg, s, ce);
    BinAtPlacementIsFreed(cfg, s, ce);
    TakeIsBestFit(BinAtPlacement(s, ce.key), EncodedLength(cfg, ce));
  }

  /** With no fit in place and none in the bin, the record is appended at the end of the file. */
  lemma UpdateAppends(cfg: Config, s: Engine, ce: CacheElement)
    requires Invariant(cfg, s) && s.alive && !FitsInPlace(cfg, s, ce)
    requires forall d :: d in BinAtPlacement(s, ce.key) ==> d.len < EncodedLength(cfg, ce)
    ensures var s' := Update(cfg, s, ce);
            && s'.keyHash.entries[ce.key] == Descriptor(s.dataFile.length, EncodedLength(cfg, ce))
            && s'.recycle == BinAtPlacement(s, ce.key)
            && s'.recycleCnt == s.recycleCnt
            && s'.dataFile.length == s.dataFile.length + EncodedLength(cfg, ce)
  {
    UpdateShape(cfg, s, ce);
    BinAtPlacementIsFreed(cfg, s, ce);
  }

  /**
   * A live update records the key in the put list exactly when a real-time
   * compaction runs, and touches nothing but the index, the bin, the bin
   * counter, the data file and that list; a dead cache ignores the update.
   */
  lemma UpdateBookkeeping(cfg: Config, s: Engine, ce: CacheElement)
    requires Invariant(cfg, s)
    ensures var s' := Update(cfg, s, ce);
            && (!s.alive ==> s' == s)
            && (s.alive ==> s'.optimizingPutList == if s.isOptomizing then s.optimizingPutList + [ce.key] else s.optimizingPutList)
            && s'.keyFile == s.keyFile && s'.tempFile == s.tempFile && s'.optCnt == s.optCnt
            && s'.isOptomizing == s.isOptomizing && s'.alive == s.alive && s'.pass == s.pass
  {
  }

  /**
   * A record that outgrows its old slot leaves that slot to nobody: it is
   * not in the recycle bin and no key points at it any more.
   */
  lemma GrownRecordOrphansSlot(cfg: Config, s: Engine, ce: CacheElement)
    requires Invariant(cfg, s) && SoundEngine(s) && s.alive
    requires ce.key in s.keyHash.entries && EncodedLength(cfg, ce) > s.keyHash.entries[ce.key].len
    ensures var d := s.keyHash.entries[ce.key];
            var s' := Update(cfg, s, ce);
            && d !in s'.recycle
            && forall k :: k in s'.keyHash.entries ==> s'.keyHash.entries[k] != d
  {
    var d := s.keyHash.entries[ce.key];
    var s' := Update(cfg, s, ce);
    UpdateShape(cfg, s, ce);
    BinAtPlacementIsFreed(cfg, s, ce);
    assert !Apart(d, d);
    assert d !in s.recycle;
    var t := TakeNearestLargerOrEqual(s.recycle, EncodedLength(cfg, ce));
    if t.rep.Some? {
      assert d !in multiset(s.recycle);
      assert d !in t.rest by {
        assert d in t.rest ==> d in multiset(t.rest);
      }
    }
    forall k | k in s'.keyHash.entries ensures s'.keyHash.entries[k] != d {
      if k != ce.key {
        assert Get(s'.keyHash, k) == Get(s.keyHash, k);
      }
    }
  }

  /**
   * A put of a new key into a full index evicts the least recently used
   * entry into the bin before the bin is searched, so when nothing else in
   * the bin fits as well, the record is written over the slot just evicted.
   */
  lemma EvictionFeedsSamePut(cfg: Config, s: Engine, ce: CacheElement)
    requires Invariant(cfg, s) && s.alive
    requires ce.key !in s.keyHash.entries && Size(s.keyHash) == s.keyHash.maxSize
    requires EncodedLength(cfg, ce) <= s.keyHash.entries[s.keyHash.order[0]].len
    requires forall e :: e in s.recycle ==>
               e.len < EncodedLength(cfg, ce) || e.len > s.keyHash.entries[s.keyHash.order[0]].len
    ensures var victim := s.keyHash.order[0];
            var d := s.keyHash.entries[victim];
            var s' := Update(cfg, s, ce);
            && victim !in s'.keyHash.entries
            && s'.keyHash.entries[ce.key] == Descriptor(d.pos, EncodedLength(cfg, ce))
            && multiset(s'.recycle) == multiset(s.recycle)
            && s'.recycleCnt == s.recycleCnt + 1
  {
    var victim := s.keyHash.order[0];
    var d := s.keyHash.entries[victim];
    var s' := Update(cfg, s, ce);
    var bin := BinAtPlacement(s, ce.key);
    AddMembers(s.recycle, d);
    UpdateFromBin(cfg, s, ce);
    var len := EncodedLength(cfg, ce);
    var d' :| && d' in bin && d'.len >= len
              && (forall e :: e in bin && e.len >= len ==> d'.len <= e.len)
              && s'.keyHash.entries[ce.key] == Descriptor(d'.pos, len)
              && multiset(s'.recycle) == multiset(bin) - multiset{d'};
    assert d' == d;
    UpdateShape(cfg, s, ce);
    BinAtPlacementIsFreed(cfg, s, ce);
    assert victim !in Vacated(s, ce.key, Put(s.keyHash, ce.key, Descriptor(s.dataFile.length, len)));
  }
}
