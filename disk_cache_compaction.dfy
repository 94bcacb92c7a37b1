/**
 * What compaction (optimizeFile, and the real-time pass) guarantees.
 *
 * Compaction copies the record of every key, in index order, to the end of
 * the temp file, then makes the temp file the data file and the temp index
 * the key index. Under a sound layout no read fails, so every key reads
 * back what it read before, the records lie back to back, and the recycle
 * bin is empty.
 */
module DiskCacheCompaction {
  import opened Optional
  import opened CacheKeys
  import opened RecycleBin
  import opened LruMap
  import opened IndexedDisk
  import opened DiskCacheSpec
  import opened DiskCacheLayout

  /**
   * Each entry of the temp index names, at or after `start`, the record its
   * key reads from the original index and file, re-serialized at its own length.
   */
  ghost predicate Copied(cfg: Config, index: KeyIndex, file: DataFile, m: Moved, start: nat)
  {
    forall k :: k in m.index.entries ==>
      && start <= m.index.entries[k].pos
      && m.index.entries[k].pos + m.index.entries[k].len <= m.file.length
      && m.index.entries[k].len == cfg.encodedLength(RecordOf(ReadElement(index, file, k)))
      && m.index.entries[k].pos in m.file.records
      && m.file.records[m.index.entries[k].pos] == Stored(RecordOf(ReadElement(index, file, k)), m.index.entries[k].len)
  }

  ghost predicate Disjoint(e: map<CacheKey, Descriptor>)
  {
    forall k, k' :: k in e && k' in e && k != k' ==> Apart(e[k], e[k'])
  }

  /** The slots of the keys of `order`, in that order, lie back to back from `start` to `end`. */
  ghost predicate Packed(order: seq<CacheKey>, e: map<CacheKey, Descriptor>, start: nat, end: nat)
    decreases |order|
  {
    if order == [] then start == end
    else order[0] in e && e[order[0]].pos == start && Packed(order[1..], e, start + e[order[0]].len, end)
  }

  lemma {:induction false} PackedAppend(order: seq<CacheKey>, e: map<CacheKey, Descriptor>, start: nat, end: nat, k: CacheKey, len: nat)
    requires Packed(order, e, start, end) && k !in order
    ensures Packed(order + [k], e[k := Descriptor(end, len)], start, end + len)
    decreases |order|
  {
    var e' := e[k := Descriptor(end, len)];
    if order == [] {
      assert order + [k] == [k];
      assert Packed([], e', start + len, end + len);
    } else {
      PackedAppend(order[1..], e, start + e[order[0]].len, end, k, len);
      assert (order + [k])[1..] == order[1..] + [k];
    }
  }

  /** Two packings of the same keys with the same lengths from the same start end at the same place. */
  lemma {:induction false} PackedSameEnd(order: seq<CacheKey>, e: map<CacheKey, Descriptor>, e': map<CacheKey, Descriptor>, start: nat, end: nat, end': nat)
    requires Packed(order, e, start, end) && Packed(order, e', start, end')
    requires forall k :: k in order ==> k in e && k in e' && e[k].len == e'[k].len
    ensures end == end'
    decreases |order|
  {
    if order != [] {
      assert order[0] in order;
      PackedSameEnd(order[1..], e, e', start + e[order[0]].len, end, end');
    }
  }

  // ---------------------------------------------------------------- one key

  /** The state of a compaction after it has copied keys[..i] with no failure. */
  ghost predicate CopiedPrefix(cfg: Config, index: KeyIndex, file: DataFile, keys: seq<CacheKey>, i: nat, m: Moved, start: nat)
  {
    && i <= |keys|
    && !m.failed
    && LruMap.Valid(m.index)
    && m.index.order == keys[..i]
    && Copied(cfg, index, file, m, start)
    && Disjoint(m.index.entries)
    && start <= m.file.length
    && Packed(keys[..i], m.index.entries, start, m.file.length)
  }

  /** Appending the copy of one more key keeps the copy faithful and the slots disjoint. */
  lemma CopiedExtend(cfg: Config, index: KeyIndex, file: DataFile, m: Moved, start: nat, k: CacheKey)
    requires Copied(cfg, index, file, m, start) && Disjoint(m.index.entries)
    requires k !in m.index.entries && start <= m.file.length
    ensures var rec := RecordOf(ReadElement(index, file, k));
            var nd := Descriptor(m.file.length, cfg.encodedLength(rec));
            var m' := Moved(m.index.(entries := m.index.entries[k := nd]), Write(m.file, nd.pos, rec, nd.len), m.recycle, false);
            && Copied(cfg, index, file, m', start)
            && Disjoint(m'.index.entries)
  {
    var rec := RecordOf(ReadElement(index, file, k));
    var nd := Descriptor(m.file.length, cfg.encodedLength(rec));
    forall x | x in m.index.entries
      ensures Write(m.file, nd.pos, rec, nd.len).records[m.index.entries[x].pos] == m.file.records[m.index.entries[x].pos]
    {
      WriteFrame(m.file, nd.pos, rec, nd.len, m.index.entries[x].pos);
    }
  }

  /** moveKeyDataToTemp of one more key that reads without failure, into a temp index with room. */
  lemma MoveOne(cfg: Config, index: KeyIndex, file: DataFile, keys: seq<CacheKey>, i: nat, m: Moved, start: nat)
    requires CopiedPrefix(cfg, index, file, keys, i, m, start) && i < |keys|
    requires keys[i] !in keys[..i] && i < m.index.maxSize
    requires !ReadElement(index, file, keys[i]).IoFailure?
    ensures var m' := MoveKeyDataToTemp(cfg, index, file, keys[i], m);
            && CopiedPrefix(cfg, index, file, keys, i + 1, m', start)
            && m'.recycle == m.recycle
            && m'.index.maxSize == m.index.maxSize
  {
    var k := keys[i];
    var rec := RecordOf(ReadElement(index, file, k));
    var nd := Descriptor(m.file.length, cfg.encodedLength(rec));
    assert k !in m.index.entries;
    PutNew(m.index, k, nd);
    assert m.index.order + [k] == keys[..i + 1];
    CopiedExtend(cfg, index, file, m, start, k);
    PackedAppend(keys[..i], m.index.entries, start, m.file.length, k, nd.len);
  }

  /** Copying keys[i..] in turn, starting from a faithful copy of keys[..i]. */
  lemma {:induction false} MoveAll(cfg: Config, index: KeyIndex, file: DataFile, keys: seq<CacheKey>, i: nat, m: Moved, start: nat)
    requires CopiedPrefix(cfg, index, file, keys, i, m, start)
    requires Distinct(keys) && |keys| <= m.index.maxSize
    requires forall j :: 0 <= j < |keys| ==> !ReadElement(index, file, keys[j]).IoFailure?
    ensures var r := MoveKeys(cfg, index, file, keys, i, m);
            && CopiedPrefix(cfg, index, file, keys, |keys|, r, start)
            && r.recycle == m.recycle
    decreases |keys| - i
  {
    if i < |keys| {
      assert keys[i] !in keys[..i] by {
        forall j | 0 <= j < i ensures keys[..i][j] != keys[i] {}
      }
      MoveOne(cfg, index, file, keys, i, m, start);
      MoveAll(cfg, index, file, keys, i + 1, MoveKeyDataToTemp(cfg, index, file, keys[i], m), start);
    }
  }

  // ---------------------------------------------------------------- optimizeFile

  /** Under a sound layout no key of the index fails to read. */
  lemma NoReadFails(s: Engine)
    requires SoundEngine(s)
    ensures forall j :: 0 <= j < |s.keyHash.order| ==> !ReadElement(s.keyHash, s.dataFile, s.keyHash.order[j]).IoFailure?
  {
  }

  /** A compaction of the whole index succeeds under a sound layout. */
  lemma CompactionCopies(cfg: Config, s: Engine)
    requires Invariant(cfg, s) && SoundEngine(s)
    ensures var m := MoveKeys(cfg, s.keyHash, s.dataFile, s.keyHash.order, 0, StartMove(cfg, s));
            && CopiedPrefix(cfg, s.keyHash, s.dataFile, s.keyHash.order, |s.keyHash.order|, m, s.tempFile.length)
            && m.recycle == s.recycle
            && m.index.maxSize == cfg.maxKeySize
  {
    var keys := s.keyHash.order;
    var m0 := StartMove(cfg, s);
    assert keys[..0] == [];
    assert Packed([], m0.index.entries, s.tempFile.length, m0.file.length);
    NoReadFails(s);
    MoveAll(cfg, s.keyHash, s.dataFile, keys, 0, m0, s.tempFile.length);
  }

  /** The state after optimizeFile when no read fails. */
  lemma OptimizeShape(cfg: Config, s: Engine)
    requires Invariant(cfg, s) && SoundEngine(s)
    ensures var m := MoveKeys(cfg, s.keyHash, s.dataFile, s.keyHash.order, 0, StartMove(cfg, s));
            && !m.failed
            && OptimizeFile(cfg, s) == TempToPrimary(cfg, s.(recycle := m.recycle), m.index, m.file)
  {
    CompactionCopies(cfg, s);
  }

  /** optimizeFile under a sound layout keeps the order of the index and what every key reads. */
  lemma OptimizeFileKeepsReads(cfg: Config, s: Engine)
    requires Invariant(cfg, s) && SoundEngine(s)
    ensures var s' := OptimizeFile(cfg, s);
            && s'.keyHash.order == s.keyHash.order
            && forall k :: ReadElement(s'.keyHash, s'.dataFile, k) == ReadElement(s.keyHash, s.dataFile, k)
  {
    var keys := s.keyHash.order;
    var m := MoveKeys(cfg, s.keyHash, s.dataFile, keys, 0, StartMove(cfg, s));
    CompactionCopies(cfg, s);
    OptimizeShape(cfg, s);
    assert keys[..|keys|] == keys;
    forall k ensures ReadElement(m.index, m.file, k) == ReadElement(s.keyHash, s.dataFile, k) {
      if k in s.keyHash.entries {
        assert k in m.index.entries;
      } else {
        assert k !in m.index.entries;
      }
    }
  }

  /**
   * optimizeFile under a sound layout empties the recycle bin and the temp
   * file and leaves a sound layout, with each record re-serialized at its own
   * length and the records back to back after whatever the temp file held.
   */
  lemma OptimizeFileCompacts(cfg: Config, s: Engine)
    requires Invariant(cfg, s) && SoundEngine(s)
    ensures var s' := OptimizeFile(cfg, s);
            && Invariant(cfg, s')
            && s'.recycle == [] && s'.tempFile == EmptyFile
            && SoundEngine(s')
            && (forall k :: k in s'.keyHash.entries ==>
                  s'.keyHash.entries[k].len == cfg.encodedLength(RecordOf(ReadElement(s'.keyHash, s'.dataFile, k))))
            && Packed(s'.keyHash.order, s'.keyHash.entries, s.tempFile.length, s'.dataFile.length)
  {
    var keys := s.keyHash.order;
    var m := MoveKeys(cfg, s.keyHash, s.dataFile, keys, 0, StartMove(cfg, s));
    CompactionCopies(cfg, s);
    OptimizeShape(cfg, s);
    OptimizeFileKeepsReads(cfg, s);
    assert keys[..|keys|] == keys;
    forall k | k in m.index.entries
      ensures m.index.entries[k].len == cfg.encodedLength(RecordOf(ReadElement(m.index, m.file, k)))
    {
      assert ReadElement(m.index, m.file, k) == ReadElement(s.keyHash, s.dataFile, k);
    }
  }

  /** disposeInternal compacts the file and leaves the cache dead; a dead cache answers every get with null. */
  lemma DisposeCompacts(cfg: Config, s: Engine, key: CacheKey)
    requires Invariant(cfg, s) && SoundEngine(s) && s.alive
    ensures var s' := Dispose(cfg, s);
            && !s'.alive
            && s'.keyHash.order == s.keyHash.order
            && (forall k :: ReadElement(s'.keyHash, s'.dataFile, k) == ReadElement(s.keyHash, s.dataFile, k))
            && DoGet(cfg, s', key) == Got(None, s')
            && Dispose(cfg, s') == s'
  {
    OptimizeFileKeepsReads(cfg, s);
  }

  /** With no leftover temp file, compacting a compacted file does not change its length. */
  lemma CompactionIdempotentLength(cfg: Config, s: Engine)
    requires Invariant(cfg, s) && SoundEngine(s) && s.tempFile.length == 0
    ensures OptimizeFile(cfg, OptimizeFile(cfg, s)).dataFile.length == OptimizeFile(cfg, s).dataFile.length
  {
    var s1 := OptimizeFile(cfg, s);
    OptimizeFileCompacts(cfg, s);
    var s2 := OptimizeFile(cfg, s1);
    OptimizeFileCompacts(cfg, s1);
    OptimizeFileKeepsReads(cfg, s1);
    forall k | k in s1.keyHash.order ensures s1.keyHash.entries[k].len == s2.keyHash.entries[k].len {
      assert k in s1.keyHash.entries;
    }
    PackedSameEnd(s1.keyHash.order, s1.keyHash.entries, s2.keyHash.entries, 0, s1.dataFile.length, s2.dataFile.length);
  }
}
