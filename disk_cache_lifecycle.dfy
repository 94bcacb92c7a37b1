/**
 * Start-up, the key file, and the background (real-time) compaction pass.
 */
module DiskCacheLifecycle {
  import opened Optional
  import opened CacheKeys
  import opened RecycleBin
  import opened LruMap
  import opened IndexedDisk
  import opened DiskCacheSpec
  import opened DiskCacheLayout
  import opened DiskCacheCompaction
  import opened DiskCacheRemoval

  // ---------------------------------------------------------------- key file

  /** The keys of a key file's entries, in order. */
  function KeysOf(e: seq<(CacheKey, Descriptor)>): seq<CacheKey>
  {
    seq(|e|, j requires 0 <= j < |e| => e[j].0)
  }

  /** `e` lists a HashMap copy of `m`: no key twice, each key with its value in `m`. */
  ghost predicate CopyOf(e: seq<(CacheKey, Descriptor)>, m: map<CacheKey, Descriptor>)
  {
    && Distinct(KeysOf(e))
    && forall j :: 0 <= j < |e| ==> e[j].0 in m && m[e[j].0] == e[j].1
  }

  /** The index the first n puts of a load of `e` build. */
  function Loaded(e: seq<(CacheKey, Descriptor)>, m: map<CacheKey, Descriptor>, n: nat, maxSize: nat): KeyIndex
    requires CopyOf(e, m) && n <= |e|
  {
    Lru(KeysOf(e)[..n], map k | k in KeysOf(e)[..n] :: m[k], maxSize)
  }

  /** How many entries of `e` a load keeps: all of them, or as many as the index holds. */
  function Kept(e: seq<(CacheKey, Descriptor)>, maxSize: nat): nat
  {
    if |e| <= maxSize then |e| else maxSize
  }

  lemma LoadedValid(e: seq<(CacheKey, Descriptor)>, m: map<CacheKey, Descriptor>, n: nat, maxSize: nat)
    requires CopyOf(e, m) && n <= |e| && n <= maxSize && 1 <= maxSize
    ensures LruMap.Valid(Loaded(e, m, n, maxSize))
  {
    var r := Loaded(e, m, n, maxSize);
    forall a, b | 0 <= a < b < |r.order| ensures r.order[a] != r.order[b] {
      assert r.order[a] == KeysOf(e)[a] && r.order[b] == KeysOf(e)[b];
    }
  }

  /**
   * One more put of a load: a new key into an index with room is appended,
   * and a new key into a full index evicts, which ends the load.
   */
  lemma LoadStep(e: seq<(CacheKey, Descriptor)>, m: map<CacheKey, Descriptor>, n: nat, maxSize: nat)
    requires CopyOf(e, m) && n < |e| && n <= maxSize && 1 <= maxSize
    ensures LruMap.Valid(Loaded(e, m, n, maxSize))
    ensures var put := Put(Loaded(e, m, n, maxSize), e[n].0, e[n].1);
            && (n < maxSize ==> put == PutResult(Loaded(e, m, n + 1, maxSize), None, None))
            && (n == maxSize ==> put.evicted.Some?)
  {
    LoadedValid(e, m, n, maxSize);
    var r := Loaded(e, m, n, maxSize);
    var k := e[n].0;
    assert k !in r.order by {
      forall j | 0 <= j < n ensures r.order[j] != k {
        assert r.order[j] == KeysOf(e)[j] && k == KeysOf(e)[n];
      }
    }
    if n < maxSize {
      PutNew(r, k, e[n].1);
      assert KeysOf(e)[..n + 1] == KeysOf(e)[..n] + [k];
    }
  }

  /** putAll over a HashMap copy keeps the first entries, up to the capacity of the index. */
  lemma {:induction false} PutAllLoads(e: seq<(CacheKey, Descriptor)>, m: map<CacheKey, Descriptor>, maxSize: nat, i: nat)
    requires CopyOf(e, m) && 1 <= maxSize && i <= |e| && i <= maxSize
    ensures LruMap.Valid(Loaded(e, m, i, maxSize))
    ensures PutAll(Loaded(e, m, i, maxSize), e, i) == Loaded(e, m, Kept(e, maxSize), maxSize)
    decreases |e| - i
  {
    LoadedValid(e, m, i, maxSize);
    if i < |e| {
      LoadStep(e, m, i, maxSize);
      if i < maxSize {
        PutAllLoads(e, m, maxSize, i + 1);
      }
    }
  }

  /** A sequence without repeated keys holds each entry at most once. */
  lemma {:induction false} AtMostOnce(e: seq<(CacheKey, Descriptor)>)
    requires Distinct(KeysOf(e))
    ensures forall x :: multiset(e)[x] <= 1
  {
    if e != [] {
      var tail := e[1..];
      forall a, b | 0 <= a < b < |tail| ensures KeysOf(tail)[a] != KeysOf(tail)[b] {
        assert KeysOf(tail)[a] == KeysOf(e)[a + 1] && KeysOf(tail)[b] == KeysOf(e)[b + 1];
      }
      AtMostOnce(tail);
      assert e[0] !in tail by {
        forall j | 0 <= j < |tail| ensures tail[j] != e[0] {
          assert KeysOf(e)[j + 1] != KeysOf(e)[0];
        }
      }
      assert e == [e[0]] + tail;
    }
  }

  /** An element at two positions is counted twice. */
  lemma Twice<T>(s: seq<T>, a: nat, b: nat)
    requires a < b < |s| && s[a] == s[b]
    ensures multiset(s)[s[a]] >= 2
  {
    assert s == s[..b] + s[b..];
    assert s[a] in s[..b];
    assert s[b] == s[b..][0];
  }

  /** A duplicate-free sequence counts each of its elements once. */
  lemma {:induction false} CountsOfDistinct<T>(s: seq<T>)
    requires Distinct(s)
    ensures forall x :: multiset(s)[x] == if x in s then 1 else 0
  {
    if s != [] {
      var tail := s[1..];
      forall a, b | 0 <= a < b < |tail| ensures tail[a] != tail[b] {
        assert tail[a] == s[a + 1] && tail[b] == s[b + 1];
      }
      CountsOfDistinct(tail);
      assert s[0] !in tail by {
        forall j | 0 <= j < |tail| ensures tail[j] != s[0] {
          assert tail[j] == s[j + 1];
        }
      }
      assert s == [s[0]] + tail;
    }
  }

  /** Whatever order a HashMap lists a copy of `m` in, it is still a copy of `m`. */
  lemma PermutedCopy(e: seq<(CacheKey, Descriptor)>, h: seq<(CacheKey, Descriptor)>, m: map<CacheKey, Descriptor>)
    requires CopyOf(e, m) && multiset(h) == multiset(e)
    ensures CopyOf(h, m)
  {
    forall j | 0 <= j < |h| ensures h[j].0 in m && m[h[j].0] == h[j].1 {
      assert h[j] in multiset(h);
      assert h[j] in e;
    }
    forall a, b | 0 <= a < b < |h| ensures KeysOf(h)[a] != KeysOf(h)[b] {
      if h[a].0 == h[b].0 {
        assert h[a] in multiset(h) && h[b] in multiset(h);
        assert h[a] == h[b];
        Twice(h, a, b);
        AtMostOnce(e);
        assert false;
      }
    }
  }

  /** The entries of a valid index are a copy of its map. */
  lemma EntriesCopy(index: KeyIndex)
    requires LruMap.Valid(index)
    ensures CopyOf(Entries(index), index.entries)
  {
    assert KeysOf(Entries(index)) == index.order;
  }

  /**
   * loadKeys of a key file holding a HashMap copy of `m` keeps, in the
   * read-back map's order, the first entries up to maxKeySize: the put that
   * would evict ends the load.
   */
  lemma LoadKeepsFirst(cfg: Config, e: seq<(CacheKey, Descriptor)>, m: map<CacheKey, Descriptor>)
    requires CopyOf(e, m)
    ensures CopyOf(HashOrder(cfg, e), m)
    ensures LoadKeys(cfg, Saved(e)) == Loaded(HashOrder(cfg, e), m, Kept(HashOrder(cfg, e), cfg.maxKeySize), cfg.maxKeySize)
  {
    var h := HashOrder(cfg, e);
    PermutedCopy(e, h, m);
    PutAllLoads(h, m, cfg.maxKeySize, 0);
    assert KeysOf(h)[..0] == [];
    assert Loaded(h, m, 0, cfg.maxKeySize) == EmptyIndex(cfg);
  }

  /** A reordering of an index's entries lists exactly the index's keys. */
  lemma SameKeys(h: seq<(CacheKey, Descriptor)>, index: KeyIndex)
    requires LruMap.Valid(index) && multiset(h) == multiset(Entries(index))
    ensures |h| == |index.order|
    ensures forall k :: k in KeysOf(h) <==> k in index.order
  {
    assert |h| == |multiset(h)| == |multiset(Entries(index))| == |Entries(index)|;
    forall k ensures k in KeysOf(h) <==> k in index.order {
      if k in KeysOf(h) {
        var j :| 0 <= j < |h| && KeysOf(h)[j] == k;
        assert h[j] in multiset(Entries(index));
        var i :| 0 <= i < |index.order| && Entries(index)[i] == h[j];
      }
      if k in index.order {
        var i :| 0 <= i < |index.order| && index.order[i] == k;
        assert Entries(index)[i] in multiset(h);
        var j :| 0 <= j < |h| && h[j] == Entries(index)[i];
        assert KeysOf(h)[j] == k;
      }
    }
  }

  /** A copy that fits in the index is loaded whole. */
  lemma LoadAll(cfg: Config, h: seq<(CacheKey, Descriptor)>, m: map<CacheKey, Descriptor>)
    requires CopyOf(h, m) && |h| <= cfg.maxKeySize
    ensures PutAll(EmptyIndex(cfg), h, 0) == Lru(KeysOf(h), map k | k in KeysOf(h) :: m[k], cfg.maxKeySize)
  {
    PutAllLoads(h, m, cfg.maxKeySize, 0);
    assert KeysOf(h)[..0] == [];
    assert Loaded(h, m, 0, cfg.maxKeySize) == EmptyIndex(cfg);
    assert KeysOf(h)[..|h|] == KeysOf(h);
  }

  /** Putting any reordering of an index's entries into an empty index restores its entries and keys. */
  lemma LoadReordered(cfg: Config, h: seq<(CacheKey, Descriptor)>, index: KeyIndex)
    requires LruMap.Valid(index) && index.maxSize == cfg.maxKeySize
    requires multiset(h) == multiset(Entries(index))
    ensures PutAll(EmptyIndex(cfg), h, 0).entries == index.entries
    ensures multiset(PutAll(EmptyIndex(cfg), h, 0).order) == multiset(index.order)
  {
    EntriesCopy(index);
    PermutedCopy(Entries(index), h, index.entries);
    SameKeys(h, index);
    LoadAll(cfg, h, index.entries);
    var r := PutAll(EmptyIndex(cfg), h, 0);
    assert r.order == KeysOf(h);
    assert r.entries == index.entries;
    CountsOfDistinct(r.order);
    CountsOfDistinct(index.order);
    assert forall x :: multiset(r.order)[x] == multiset(index.order)[x];
  }

  /**
   * saveKeys then loadKeys: the index read back from the key file holds the
   * entries that were saved. Its LRU order is the HashMap's iteration order,
   * so only the keys, not their order, are the same.
   */
  lemma SaveThenLoad(cfg: Config, index: KeyIndex)
    requires LruMap.Valid(index) && index.maxSize == cfg.maxKeySize
    ensures LoadKeys(cfg, SaveKeys(cfg, index)).entries == index.entries
    ensures multiset(LoadKeys(cfg, SaveKeys(cfg, index)).order) == multiset(index.order)
  {
    if Size(index) == 0 {
      assert index.entries == map[];
    } else {
      var saved := HashOrder(cfg, Entries(index));
      LoadReordered(cfg, HashOrder(cfg, saved), index);
    }
  }

  // ---------------------------------------------------------------- start-up

  /**
   * The constructor always yields a live cache, with no compaction running,
   * whose index is consistent with its data file; an empty index comes with
   * an empty data file and a sound layout.
   */
  lemma StartupInvariant(cfg: Config, keyFile: KeyFile, dataFile: DataFile, tempFile: DataFile)
    ensures var s := Startup(cfg, keyFile, dataFile, tempFile);
            && Invariant(cfg, s)
            && s.alive && s.recycle == [] && s.pass == Idle && s.optCnt == 0
            && Consistent(s.keyHash, s.dataFile.length)
            && (Size(s.keyHash) == 0 ==> s.dataFile == EmptyFile || s.dataFile.length == 0)
            && (Size(s.keyHash) == 0 ==> SoundEngine(s))
  {
    var s := Startup(cfg, keyFile, dataFile, tempFile);
    if Size(s.keyHash) == 0 {
      assert s.keyHash.entries == map[];
    }
  }

  /**
   * The three start-up paths: an index that reloads non-empty and consistent
   * is kept with its data file; one that reloads empty or inconsistent is
   * dropped with the data file; with no key file the data file is emptied.
   */
  lemma StartupCases(cfg: Config, keyFile: KeyFile, dataFile: DataFile, tempFile: DataFile)
    ensures var s := Startup(cfg, keyFile, dataFile, tempFile);
            var loaded := LoadKeys(cfg, keyFile);
            && (keyFile != NoKeys && Size(loaded) > 0 && Consistent(loaded, dataFile.length) ==>
                  s.keyHash == loaded && s.dataFile == dataFile && s.keyFile == keyFile)
            && (keyFile != NoKeys && Size(loaded) > 0 && !Consistent(loaded, dataFile.length) ==>
                  Size(s.keyHash) == 0 && s.dataFile == EmptyFile && s.keyFile == NoKeys)
            && (keyFile != NoKeys && Size(loaded) == 0 ==> Size(s.keyHash) == 0 && s.dataFile == EmptyFile)
            && (keyFile == NoKeys ==> Size(s.keyHash) == 0 && s.dataFile.length == 0)
  {
  }

  /**
   * A cache saved by a compaction reopens with the same entries, the same
   * keys in the index (in the key file's HashMap order) and the same data file.
   */
  lemma ReopenAfterCompaction(cfg: Config, s: Engine)
    requires Invariant(cfg, s) && SoundEngine(s) && Size(s.keyHash) > 0
    ensures var s' := OptimizeFile(cfg, s);
            var r := Startup(cfg, s'.keyFile, s'.dataFile, EmptyFile);
            && r.keyHash.entries == s'.keyHash.entries
            && multiset(r.keyHash.order) == multiset(s'.keyHash.order)
            && r.dataFile == s'.dataFile
  {
    var s' := OptimizeFile(cfg, s);
    OptimizeFileKeepsReads(cfg, s);
    OptimizeFileCompacts(cfg, s);
    OptimizeShape(cfg, s);
    SaveThenLoad(cfg, s'.keyHash);
    assert Size(s'.keyHash) > 0;
    assert s'.keyFile == SaveKeys(cfg, s'.keyHash);
    forall k | k in s'.keyHash.entries ensures s'.keyHash.entries[k].pos <= s'.dataFile.length {
      assert Within(s'.keyHash.entries[k], s'.dataFile.length);
    }
  }

  // ---------------------------------------------------------------- real-time pass

  /** Each step of the real-time pass keeps the invariant of the cache. */
  lemma RealTimeStepsKeepInvariant(cfg: Config, s: Engine)
    requires Invariant(cfg, s)
    ensures s.pass.Spawned? ==> Invariant(cfg, RealTimeSnapshot(cfg, s))
    ensures s.pass.Scanning? && s.pass.next < |s.pass.keys| ==> Invariant(cfg, RealTimeMoveNext(cfg, s))
    ensures s.pass.Scanning? && s.pass.next == |s.pass.keys| ==>
              var s' := RealTimeFinish(cfg, s);
              Invariant(cfg, s') && s'.pass == Idle && !s'.isOptomizing && s'.optCnt == 0
  {
    if s.pass.Scanning? && s.pass.next < |s.pass.keys| {
      MoveKeepsSorted(cfg, s.keyHash, s.dataFile, s.pass.keys[s.pass.next], Moved(s.pass.tempIndex, s.tempFile, s.recycle, false));
    }
  }

  /** The real-time pass from its current step to its end, with no other operation interleaved. */
  function RealTimeRun(cfg: Config, s: Engine): Engine
    requires Invariant(cfg, s) && s.pass.Scanning?
    decreases |s.pass.keys| - s.pass.next, 0
  {
    if s.pass.next < |s.pass.keys| then
      RealTimeStepsKeepInvariant(cfg, s);
      var s' := RealTimeMoveNext(cfg, s);
      if s'.pass.Scanning? then RealTimeRun(cfg, s') else s'
    else RealTimeFinish(cfg, s)
  }

  /** Where a run of the pass stands when no copy fails: exactly where moving the remaining keys leaves it. */
  lemma {:induction false} RunMatchesMoveKeys(cfg: Config, s: Engine)
    requires Invariant(cfg, s) && s.pass.Scanning?
    requires !MoveKeys(cfg, s.keyHash, s.dataFile, s.pass.keys, s.pass.next,
                       Moved(s.pass.tempIndex, s.tempFile, s.recycle, false)).failed
    ensures var m := MoveKeys(cfg, s.keyHash, s.dataFile, s.pass.keys, s.pass.next,
                              Moved(s.pass.tempIndex, s.tempFile, s.recycle, false));
            var done := s.(pass := Scanning(s.pass.keys, |s.pass.keys|, m.index), tempFile := m.file, recycle := m.recycle);
            Invariant(cfg, done) && RealTimeRun(cfg, s) == RealTimeFinish(cfg, done)
    decreases |s.pass.keys| - s.pass.next
  {
    var m0 := Moved(s.pass.tempIndex, s.tempFile, s.recycle, false);
    if s.pass.next < |s.pass.keys| {
      RealTimeStepsKeepInvariant(cfg, s);
      var m1 := MoveKeyDataToTemp(cfg, s.keyHash, s.dataFile, s.pass.keys[s.pass.next], m0);
      assert !m1.failed;
      RunMatchesMoveKeys(cfg, RealTimeMoveNext(cfg, s));
    } else {
      assert s.(pass := Scanning(s.pass.keys, |s.pass.keys|, m0.index), tempFile := m0.file, recycle := m0.recycle) == s;
    }
  }

  /**
   * With no put during the pass, the real-time pass ends exactly where
   * optimizeFile would have taken the cache, with the pass flags cleared.
   */
  lemma RealTimeMatchesOptimizeFile(cfg: Config, s: Engine)
    requires Invariant(cfg, s) && SoundEngine(s) && s.pass.Spawned? && s.optimizingPutList == []
    ensures var s1 := RealTimeSnapshot(cfg, s);
            Invariant(cfg, s1) && RealTimeRun(cfg, s1) == EndPass(OptimizeFile(cfg, s))
  {
    var s1 := RealTimeSnapshot(cfg, s);
    RealTimeStepsKeepInvariant(cfg, s);
    CompactionCopies(cfg, s);
    OptimizeShape(cfg, s);
    RunMatchesMoveKeys(cfg, s1);
  }

  /**
   * A key removed during the pass after it was copied comes back when the
   * pass swaps the files, because removals are not recorded for the pass.
   */
  lemma RemovedDuringPassComesBack(cfg: Config, s: Engine, key: CacheKey)
    requires Invariant(cfg, s) && s.pass.Scanning? && s.pass.next == |s.pass.keys|
    requires key in s.pass.tempIndex.entries && s.optimizingPutList == [] && GroupOfKey(key).None?
    ensures var s1 := DoRemove(cfg, s, key).after;
            && Invariant(cfg, s1) && s1.pass == s.pass
            && key !in s1.keyHash.entries
            && key in RealTimeFinish(cfg, s1).keyHash.entries
  {
    var s1 := DoRemove(cfg, s, key).after;
    assert s1.keyHash == Remove(s.keyHash, key).after;
    RemoveKeepsInvariant(cfg, s, key);
  }
}
