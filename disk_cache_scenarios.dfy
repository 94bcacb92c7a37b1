/**
 * Behaviours of IndexedDiskCache that follow from the code as written and
 * that its comments do not promise: the slot a name-prefix removal
 * recycles, a descriptor at the very end of the data file, and a copy of a
 * key that is no longer live.
 */
module DiskCacheScenarios {
  import opened Optional
  import opened CacheKeys
  import opened RecycleBin
  import opened LruMap
  import opened IndexedDisk
  import opened DiskCacheSpec
  import opened DiskCacheLayout

  /** The sweep of prefix p over [x, p]: each step recycles the slot of p. */
  lemma PrefixSweepOverTwo(index: KeyIndex, p: string, x: string)
    requires LruMap.Valid(index) && index.order == [NameKey(x), NameKey(p)]
    requires StartsWith(x, p) && x != p
    ensures var d := index.entries[NameKey(p)];
            var r := SweepFrom(Sweep(index, [], false), index.order, 0, NamePrefix(p));
            r == Sweep(r.index, [d, d], true) && r.index.entries == map[]
  {
    var d := index.entries[NameKey(p)];
    var g := NamePrefix(p);
    assert StartsWith(p, p) by { assert p[..|p|] == p; }
    var st0 := Sweep(index, [], false);
    var rm1 := Remove(index, NameKey(x));
    var st1 := Sweep(rm1.after, [d], true);
    assert SweepStep(st0, NameKey(x), g) == st1;
    var rm2 := Remove(rm1.after, NameKey(p));
    assert Add([d], d) == [d, d] by { assert [d][1..] == []; }
    var st2 := Sweep(rm2.after, [d, d], true);
    assert SweepStep(st1, NameKey(p), g) == st2;
    assert SweepFrom(st2, index.order, 2, g) == st2;
    assert SweepFrom(st1, index.order, 1, g) == st2;
  }

  /**
   * Removing a name prefix p from an index holding a key x that p prefixes
   * and then p itself recycles the slot of p once per key removed.
   */
  lemma NamePrefixRecyclesPrefixSlotTwice(cfg: Config, s: Engine, p: string, x: string)
    requires Invariant(cfg, s) && s.recycle == []
    requires EndsWith(p, NameComponentDelimiter) && StartsWith(x, p) && x != p
    requires s.keyHash.order == [NameKey(x), NameKey(p)]
    ensures var r := DoRemove(cfg, s, NameKey(p));
            && r.removed
            && r.after.keyHash.entries == map[]
            && r.after.recycle == [s.keyHash.entries[NameKey(p)], s.keyHash.entries[NameKey(p)]]
  {
    assert GroupOfKey(NameKey(p)) == Some(NamePrefix(p));
    PrefixSweepOverTwo(s.keyHash, p, x);
  }

  /**
   * So the bin then holds the slot of p twice, which breaks the layout,
   * while the slot of x is never recycled.
   */
  lemma NamePrefixDoubleRecycleBreaksLayout(cfg: Config, s: Engine, p: string, x: string)
    requires Invariant(cfg, s) && SoundEngine(s) && s.recycle == []
    requires EndsWith(p, NameComponentDelimiter) && StartsWith(x, p) && x != p
    requires s.keyHash.order == [NameKey(x), NameKey(p)]
    ensures var r := DoRemove(cfg, s, NameKey(p));
            && s.keyHash.entries[NameKey(x)] !in r.after.recycle
            && !SoundEngine(r.after)
  {
    var d := s.keyHash.entries[NameKey(p)];
    var dx := s.keyHash.entries[NameKey(x)];
    assert Apart(dx, d) && Within(dx, s.dataFile.length);
    NamePrefixRecyclesPrefixSlotTwice(cfg, s, p, x);
    var r := DoRemove(cfg, s, NameKey(p));
    assert multiset(r.after.recycle)[d] == 2;
  }

  /**
   * The start-up check lets a descriptor through that starts exactly at the
   * end of the data file; the first get of its key then fails to read and
   * resets the whole cache.
   */
  lemma EndOffsetPassesCheckThenResets(cfg: Config, keyFile: KeyFile, dataFile: DataFile, tempFile: DataFile, k: CacheKey)
    requires keyFile != NoKeys
    requires Size(LoadKeys(cfg, keyFile)) > 0 && Consistent(LoadKeys(cfg, keyFile), dataFile.length)
    requires k in LoadKeys(cfg, keyFile).entries && LoadKeys(cfg, keyFile).entries[k].pos == dataFile.length
    requires forall p :: p in dataFile.records ==> p < dataFile.length
    ensures var s := Startup(cfg, keyFile, dataFile, tempFile);
            && k in s.keyHash.entries
            && DoGet(cfg, s, k) == Got(None, Reset(cfg, s))
            && Size(DoGet(cfg, s, k).after.keyHash) == 0
  {
  }

  /**
   * moveKeyDataToTemp does not check that the key is still in the index: a
   * key that is gone is copied as a null record and gets a slot in the temp
   * index.
   */
  lemma MoveCopiesDeadKey(cfg: Config, index: KeyIndex, file: DataFile, key: CacheKey, m: Moved)
    requires LruMap.Valid(m.index) && key !in index.entries
    ensures var r := MoveKeyDataToTemp(cfg, index, file, key, m);
            && !r.failed
            && key in r.index.entries
            && r.index.entries[key] == Descriptor(m.file.length, cfg.encodedLength(NullRecord))
            && ReadObject(r.file, m.file.length) == Some(NullRecord)
  {
  }

  /**
   * So a key removed during a real-time pass before the pass reaches it is
   * put back into the temp index, holding a null record.
   */
  lemma RemovedBeforeCopyComesBackAsNull(cfg: Config, s: Engine)
    requires Invariant(cfg, s) && s.pass.Scanning? && s.pass.next < |s.pass.keys|
    requires s.pass.keys[s.pass.next] !in s.keyHash.entries
    ensures var key := s.pass.keys[s.pass.next];
            var s' := RealTimeMoveNext(cfg, s);
            && s'.pass.Scanning?
            && key in s'.pass.tempIndex.entries
            && ReadObject(s'.tempFile, s'.pass.tempIndex.entries[key].pos) == Some(NullRecord)
  {
    MoveCopiesDeadKey(cfg, s.keyHash, s.dataFile, s.pass.keys[s.pass.next],
                      Moved(s.pass.tempIndex, s.tempFile, s.recycle, false));
  }
}
