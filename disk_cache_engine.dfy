/**
 * IndexedDiskCache as a class whose fields the operations update in place.
 *
 * Every method is proved against the specification function of the same
 * operation in DiskCacheSpec: `State()` after the call is the specification
 * applied to `State()` before it. The key index and the files are values
 * held in fields; the recycle bin is a sorted sequence.
 */
module DiskCacheEngine {
  import opened Optional
  import opened CacheKeys
  import opened RecycleBin
  import opened LruMap
  import opened IndexedDisk
  import opened DiskCacheSpec
  import opened DiskCacheLifecycle

  class IndexedDiskCache {
    const cfg: Config
    const cacheName: string
    var keyHash: KeyIndex
    var recycle: seq<Descriptor>
    var dataFile: DataFile
    var keyFile: KeyFile
    var tempFile: DataFile
    var optimizingPutList: seq<CacheKey>
    var optCnt: int
    var recycleCnt: int
    var isOptomizing: bool
    var alive: bool
    var pass: Pass

    /** The fields of the cache as a value. */
    function State(): Engine
      reads this
    {
      Engine(keyHash, recycle, dataFile, keyFile, tempFile, optimizingPutList, optCnt, recycleCnt, isOptomizing, alive, pass)
    }

    ghost predicate Valid()
      reads this
    {
      Invariant(cfg, State())
    }

    /** Opens the cache over the files found on disk. */
    constructor (cfg: Config, cacheName: string, keyFile: KeyFile, dataFile: DataFile, tempFile: DataFile)
      ensures this.cfg == cfg && this.cacheName == cacheName
      ensures State() == Startup(cfg, keyFile, dataFile, tempFile)
      ensures Valid()
    {
      this.cfg := cfg;
      this.cacheName := cacheName;
      this.keyFile := keyFile;
      this.dataFile := dataFile;
      this.tempFile := tempFile;
      keyHash := EmptyIndex(cfg);
      recycle := [];
      optimizingPutList := [];
      optCnt := 0;
      recycleCnt := 0;
      isOptomizing := false;
      alive := false;
      pass := Idle;
      new;
      if keyFile != NoKeys {
        keyHash := LoadKeys(keyFile);
        if |keyHash.order| == 0 {
          this.dataFile := EmptyFile;
        } else {
          var isOk := CheckKeyDataConsistency();
          if !isOk {
            keyHash := EmptyIndex(cfg);
            this.keyFile := NoKeys;
            this.dataFile := EmptyFile;
          }
        }
      } else {
        keyHash := EmptyIndex(cfg);
        if dataFile.length > 0 {
          this.dataFile := EmptyFile;
        }
      }
      recycle := [];
      alive := true;
      assert State() == Startup(cfg, keyFile, dataFile, tempFile);
      StartupInvariant(cfg, keyFile, dataFile, tempFile);
    }

    /**
     * loadKeys(): puts the saved entries, in the read-back HashMap's order,
     * into a new index, until a put evicts an entry and the call to
     * processRemovedLRU on the missing bin ends the load.
     */
    method LoadKeys(kf: KeyFile) returns (index: KeyIndex)
      ensures index == DiskCacheSpec.LoadKeys(cfg, kf)
      ensures LruMap.Valid(index) && index.maxSize == cfg.maxKeySize
    {
      index := EmptyIndex(cfg);
      if kf.Saved? {
        var keys := HashOrder(cfg, kf.entries);
        var i := 0;
        while i < |keys|
          invariant 0 <= i <= |keys|
          invariant LruMap.Valid(index) && index.maxSize == cfg.maxKeySize
          invariant PutAll(index, keys, i) == PutAll(EmptyIndex(cfg), keys, 0)
        {
          var put := Put(index, keys[i].0, keys[i].1);
          if put.evicted.Some? {
            return;
          }
          index := put.after;
          i := i + 1;
        }
      }
    }

    /** checkKeyDataConsistency(): false as soon as a descriptor starts past the end of the data file. */
    method CheckKeyDataConsistency() returns (isOk: bool)
      requires Valid()
      ensures isOk == Consistent(keyHash, dataFile.length)
    {
      var len := dataFile.length;
      var i := 0;
      while i < |keyHash.order|
        invariant 0 <= i <= |keyHash.order|
        invariant forall j :: 0 <= j < i ==> keyHash.entries[keyHash.order[j]].pos <= len
      {
        var de := keyHash.entries[keyHash.order[i]];
        if de.pos > len {
          return false;
        }
        i := i + 1;
      }
      forall k | k in keyHash.entries ensures keyHash.entries[k].pos <= len {
        var j :| 0 <= j < |keyHash.order| && keyHash.order[j] == k;
      }
      return true;
    }

    /** saveKeys(): rewrites the key file from a HashMap copy of the index. */
    method SaveKeys()
      requires LruMap.Valid(keyHash)
      modifies this`keyFile
      ensures keyFile == DiskCacheSpec.SaveKeys(cfg, keyHash)
    {
      if |keyHash.order| > 0 {
        keyFile := Saved(HashOrder(cfg, Entries(keyHash)));
      } else {
        keyFile := NoKeys;
      }
    }

    /** LRUMap.processRemovedLRU: the descriptor of an evicted entry goes to the recycle bin. */
    method ProcessRemovedLru(evicted: Option<(CacheKey, Descriptor)>)
      modifies this`recycle
      ensures recycle == RecycleFreed(old(recycle), EvictedDescriptor(evicted))
    {
      if evicted.Some? {
        recycle := Add(recycle, evicted.value.1);
      }
    }

    /**
     * The placement step of doUpdate: reuse the key's old slot when the new
     * record fits, else take a best fit from the recycle bin, else append.
     */
    static method ChoosePosition(previous: Option<Descriptor>, len: nat, end: nat, bin: seq<Descriptor>)
      returns (pos: nat, rest: seq<Descriptor>, fromBin: bool)
      ensures Placement(pos, rest, fromBin) == Place(previous, len, end, bin)
    {
      pos, rest, fromBin := end, bin, false;
      if previous.Some? && len <= previous.value.len {
        pos := previous.value.pos;
      } else {
        var taken := TakeNearestLargerOrEqual(bin, len);
        if taken.rep.Some? {
          pos, rest, fromBin := taken.rep.value.pos, taken.rest, true;
        }
      }
    }

    /**
     * The body of doUpdate on a live cache, on the values of its fields: the
     * put into the index, processRemovedLRU of what it evicts, the placement
     * and the write, the bin counter and the put list.
     */
    static method Store(cfg: Config, s: Engine, ce: CacheElement) returns (next: Engine)
      requires Invariant(cfg, s) && s.alive
      ensures next == Update(cfg, s, ce)
      ensures next == s.(keyHash := next.keyHash, recycle := next.recycle, dataFile := next.dataFile,
                         recycleCnt := next.recycleCnt, optimizingPutList := next.optimizingPutList)
    {
      var rec := ElementRecord(ce);
      var len: nat := cfg.encodedLength(rec);
      var end := s.dataFile.length;
      var put := Put(s.keyHash, ce.key, Descriptor(end, len));
      var bin := RecycleFreed(s.recycle, EvictedDescriptor(put.evicted));
      var pos, rest, fromBin := ChoosePosition(put.previous, len, end, bin);
      var cnt := if fromBin then s.recycleCnt + 1 else s.recycleCnt;
      var putList := if s.isOptomizing then s.optimizingPutList + [ce.key] else s.optimizingPutList;
      UpdateUnfold(cfg, s, ce, put, Placement(pos, rest, fromBin));
      next := s.(keyHash := put.after.(entries := put.after.entries[ce.key := Descriptor(pos, len)]),
                 recycle := rest, dataFile := Write(s.dataFile, pos, rec, len),
                 recycleCnt := cnt, optimizingPutList := putList);
    }

    method DoUpdate(ce: CacheElement)
      requires Valid()
      modifies this
      ensures State() == Update(cfg, old(State()), ce)
    {
      if !alive {
        return;
      }
      var next := Store(cfg, State(), ce);
      keyHash, recycle, dataFile, recycleCnt, optimizingPutList :=
        next.keyHash, next.recycle, next.dataFile, next.recycleCnt, next.optimizingPutList;
    }

    /** readElement(key). */
    method ReadElement(key: CacheKey) returns (r: Read)
      ensures r == DiskCacheSpec.ReadElement(keyHash, dataFile, key)
    {
      if key !in keyHash.entries {
        return NotFound;
      }
      var ded := keyHash.entries[key];
      var obj := ReadObject(dataFile, ded.pos);
      if obj.None? {
        return IoFailure;
      }
      match obj.value
      case NullRecord => r := NotFound;
      case ElementRecord(e) => r := Found(e);
    }

    method DoGet(key: CacheKey) returns (r: Option<CacheElement>)
      modifies this
      ensures Got(r, State()) == DiskCacheSpec.DoGet(cfg, old(State()), key)
    {
      if !alive {
        return None;
      }
      var read := ReadElement(key);
      match read
      case Found(e) => r := Some(e);
      case NotFound => r := None;
      case IoFailure =>
        Reset();
        r := None;
    }

    method GetGroupKeys(groupName: string) returns (keys: set<string>)
      requires Valid()
      ensures keys == DiskCacheSpec.GetGroupKeys(State(), GroupId(cacheName, groupName))
    {
      var groupId := GroupId(cacheName, groupName);
      keys := {};
      var i := 0;
      while i < |keyHash.order|
        invariant 0 <= i <= |keyHash.order|
        invariant keys == set k | k in keyHash.order[..i] && k.AttrKey? && k.groupId == groupId :: k.attrName
      {
        var k := keyHash.order[i];
        if k.AttrKey? && k.groupId == groupId {
          keys := keys + {k.attrName};
        }
        assert keyHash.order[..i + 1] == keyHash.order[..i] + [k];
        i := i + 1;
      }
      assert keyHash.order[..i] == keyHash.order;
    }

    method GetSize() returns (n: nat)
      ensures n == DiskCacheSpec.GetSize(State())
    {
      n := |keyHash.order|;
    }

    method DoOptimizeRealTime()
      modifies this`isOptomizing, this`pass
      ensures State() == DiskCacheSpec.DoOptimizeRealTime(old(State()))
    {
      if !isOptomizing {
        isOptomizing := true;
        pass := Spawned;
      }
    }

    /**
     * The loop of a group removal: every key of a snapshot of the index that
     * is in the group is deleted, recycling keyHash.get(removal key) each time.
     */
    method SweepGroup(g: Group) returns (removed: bool)
      requires LruMap.Valid(keyHash)
      modifies this`keyHash, this`recycle
      ensures Sweep(keyHash, recycle, removed) == SweepFrom(Sweep(old(keyHash), old(recycle), false), old(keyHash).order, 0, g)
    {
      var keys := keyHash.order;
      removed := false;
      var i := 0;
      while i < |keys|
        invariant 0 <= i <= |keys|
        invariant LruMap.Valid(keyHash)
        invariant SweepFrom(Sweep(keyHash, recycle, removed), keys, i, g) == SweepFrom(Sweep(old(keyHash), old(recycle), false), keys, 0, g)
      {
        var k := keys[i];
        if InGroup(k, g) {
          var ded := Get(keyHash, GroupKey(g));
          if ded.Some? {
            recycle := Add(recycle, ded.value);
          }
          keyHash := Remove(keyHash, k).after;
          removed := true;
        }
        i := i + 1;
      }
    }

    /** The removal of one key: its descriptor goes to the recycle bin. */
    method RemoveKey(key: CacheKey) returns (removed: bool)
      requires LruMap.Valid(keyHash)
      modifies this`keyHash, this`recycle
      ensures var rm := Remove(old(keyHash), key);
              keyHash == rm.after && recycle == RecycleFreed(old(recycle), rm.removed) && removed == rm.removed.Some?
    {
      var ded := Get(keyHash, key);
      if ded.Some? {
        recycle := Add(recycle, ded.value);
      }
      var rm := Remove(keyHash, key);
      keyHash := rm.after;
      removed := rm.removed.Some?;
    }

    method DoRemove(key: CacheKey) returns (removed: bool)
      requires Valid()
      modifies this
      ensures Removal(removed, State()) == DiskCacheSpec.DoRemove(cfg, old(State()), key)
    {
      optCnt := optCnt + 1;
      if !isOptomizing && optCnt == cfg.optimizeAtRemoveCount {
        DoOptimizeRealTime();
      }
      ghost var s1 := State();
      assert s1 == CountRemoval(cfg, old(State()));
      var group := GroupOfKey(key);
      if group.Some? {
        removed := SweepGroup(group.value);
        if group.value.GroupOf? {
          removed := false;
        }
      } else {
        removed := RemoveKey(key);
      }
      assert State() == s1.(keyHash := keyHash, recycle := recycle);
    }

    method DoRemoveAll()
      modifies this
      ensures State() == DiskCacheSpec.Reset(cfg, old(State()))
    {
      Reset();
    }

    method Reset()
      modifies this
      ensures State() == DiskCacheSpec.Reset(cfg, old(State()))
    {
      dataFile := EmptyFile;
      keyFile := NoKeys;
      recycle := [];
      keyHash := EmptyIndex(cfg);
    }

    /**
     * moveKeyDataToTemp(key, keyHashTemp, dataFileTemp): copies the record of
     * `key` to the end of the temp file; the temp index recycles what it
     * evicts into this cache's recycle bin.
     */
    method MoveKeyDataToTemp(key: CacheKey, tempIndex: KeyIndex, tempData: DataFile) returns (index': KeyIndex, data': DataFile, failed: bool)
      requires LruMap.Valid(tempIndex)
      modifies this`recycle
      ensures Moved(index', data', recycle, failed) ==
              DiskCacheSpec.MoveKeyDataToTemp(cfg, keyHash, dataFile, key, Moved(tempIndex, tempData, old(recycle), false))
    {
      var tempDe := ReadElement(key);
      if tempDe.IoFailure? {
        return tempIndex, tempData, true;
      }
      var rec := RecordOf(tempDe);
      var len: nat := cfg.encodedLength(rec);
      var ded := Descriptor(tempData.length, len);
      data' := Write(tempData, ded.pos, rec, len);
      var put := Put(tempIndex, key, ded);
      index' := put.after;
      ProcessRemovedLru(put.evicted);
      failed := false;
    }

    /** tempToPrimary(keyHashTemp, dataFileTemp). */
    method TempToPrimary(tempIndex: KeyIndex, tempData: DataFile)
      requires LruMap.Valid(tempIndex)
      modifies this
      ensures State() == DiskCacheSpec.TempToPrimary(cfg, old(State()), tempIndex, tempData)
    {
      dataFile := tempData;
      tempFile := EmptyFile;
      keyHash := tempIndex;
      SaveKeys();
      recycle := [];
    }

    /** The key loop of optimizeFile: moveKeyDataToTemp for each key in turn until a read fails. */
    method CopyKeys(keys: seq<CacheKey>, tempIndex0: KeyIndex, tempData0: DataFile)
      returns (tempIndex: KeyIndex, tempData: DataFile, failed: bool)
      requires LruMap.Valid(tempIndex0)
      modifies this`recycle
      ensures Moved(tempIndex, tempData, recycle, failed) ==
              MoveKeys(cfg, keyHash, dataFile, keys, 0, Moved(tempIndex0, tempData0, old(recycle), false))
    {
      tempIndex, tempData, failed := tempIndex0, tempData0, false;
      var i := 0;
      while i < |keys| && !failed
        invariant 0 <= i <= |keys|
        invariant LruMap.Valid(tempIndex)
        invariant MoveKeys(cfg, keyHash, dataFile, keys, i, Moved(tempIndex, tempData, recycle, failed)) ==
                  MoveKeys(cfg, keyHash, dataFile, keys, 0, Moved(tempIndex0, tempData0, old(recycle), false))
      {
        ghost var before := Moved(tempIndex, tempData, recycle, false);
        tempIndex, tempData, failed := MoveKeyDataToTemp(keys[i], tempIndex, tempData);
        MoveKeepsSorted(cfg, keyHash, dataFile, keys[i], before);
        i := i + 1;
      }
    }

    /** optimizeFile(): copies every key of a snapshot of the index; a failed read abandons the attempt. */
    method OptimizeFile()
      requires Valid()
      modifies this
      ensures State() == DiskCacheSpec.OptimizeFile(cfg, old(State()))
    {
      var tempIndex, tempData, failed := CopyKeys(keyHash.order, EmptyIndex(cfg), tempFile);
      if failed {
        tempFile := tempData;
      } else {
        TempToPrimary(tempIndex, tempData);
      }
    }

    /** disposeInternal(): compacts the files and marks the cache dead. */
    method DoDispose()
      requires Valid()
      modifies this
      ensures State() == Dispose(cfg, old(State()))
    {
      if !alive {
        return;
      }
      OptimizeFile();
      alive := false;
    }

    /** optimizeRealTime, first step: the snapshot of the keys. */
    method RealTimeSnapshot()
      requires pass.Spawned?
      modifies this`pass, this`isOptomizing
      ensures State() == DiskCacheSpec.RealTimeSnapshot(cfg, old(State()))
    {
      var keys := keyHash.order;
      pass := Scanning(keys, 0, EmptyIndex(cfg));
      isOptomizing := true;
    }

    /** optimizeRealTime, one iteration of the key loop. */
    method RealTimeMoveNext()
      requires Valid() && pass.Scanning? && pass.next < |pass.keys|
      modifies this
      ensures State() == DiskCacheSpec.RealTimeMoveNext(cfg, old(State()))
    {
      var index', data', failed := MoveKeyDataToTemp(pass.keys[pass.next], pass.tempIndex, tempFile);
      if failed {
        optCnt := 0;
        isOptomizing := false;
        pass := Idle;
      } else {
        pass := pass.(next := pass.next + 1, tempIndex := index');
        tempFile := data';
      }
    }

    /**
     * The drain loop of optimizeRealTime: the keys put during the pass are
     * taken off the put list one by one and moved, until a read fails.
     */
    method DrainPutList(tempIndex0: KeyIndex, tempData0: DataFile) returns (tempIndex: KeyIndex, tempData: DataFile, failed: bool)
      requires LruMap.Valid(tempIndex0)
      modifies this`recycle, this`optimizingPutList
      ensures var m0 := Moved(tempIndex0, tempData0, old(recycle), false);
              && Moved(tempIndex, tempData, recycle, failed) == MoveKeys(cfg, keyHash, dataFile, old(optimizingPutList), 0, m0)
              && optimizingPutList == (if failed then DrainLeft(cfg, keyHash, dataFile, old(optimizingPutList), m0) else [])
    {
      ghost var list := optimizingPutList;
      ghost var m0 := Moved(tempIndex0, tempData0, recycle, false);
      tempIndex, tempData, failed := tempIndex0, tempData0, false;
      ghost var j := 0;
      while |optimizingPutList| > 0 && !failed
        invariant 0 <= j <= |list| && optimizingPutList == list[j..]
        invariant LruMap.Valid(tempIndex)
        invariant MoveKeys(cfg, keyHash, dataFile, list, j, Moved(tempIndex, tempData, recycle, failed)) ==
                  MoveKeys(cfg, keyHash, dataFile, list, 0, m0)
        invariant !failed ==> DrainLeft(cfg, keyHash, dataFile, list[j..], Moved(tempIndex, tempData, recycle, false)) ==
                              DrainLeft(cfg, keyHash, dataFile, list, m0)
        invariant failed ==> optimizingPutList == DrainLeft(cfg, keyHash, dataFile, list, m0)
        decreases |optimizingPutList|
      {
        var key := optimizingPutList[0];
        optimizingPutList := optimizingPutList[1..];
        ghost var before := Moved(tempIndex, tempData, recycle, false);
        tempIndex, tempData, failed := MoveKeyDataToTemp(key, tempIndex, tempData);
        MoveKeepsSorted(cfg, keyHash, dataFile, key, before);
        assert list[j..][1..] == list[j + 1..];
        j := j + 1;
      }
    }

    /** optimizeRealTime, last step: drains the put list into the temp file, then swaps the files. */
    method RealTimeFinish()
      requires Valid() && pass.Scanning? && pass.next == |pass.keys|
      modifies this
      ensures State() == DiskCacheSpec.RealTimeFinish(cfg, old(State()))
    {
      ghost var s0 := State();
      var tempIndex, tempData, failed := DrainPutList(pass.tempIndex, tempFile);
      assert State() == s0.(optimizingPutList := optimizingPutList, recycle := recycle);
      if failed {
        tempFile := tempData;
      } else {
        TempToPrimary(tempIndex, tempData);
      }
      optCnt, isOptomizing, pass := 0, false, Idle;
    }

    /**
     * optimizeRealTime() run to its end with nothing interleaved: the
     * snapshot, one move per key until a read fails, then the drain and swap.
     */
    method OptimizeRealTime()
      requires Valid() && pass.Spawned?
      modifies this
      ensures State() == RealTimeRun(cfg, DiskCacheSpec.RealTimeSnapshot(cfg, old(State())))
      ensures Valid() && pass == Idle && !isOptomizing
    {
      RealTimeStepsKeepInvariant(cfg, State());
      RealTimeSnapshot();
      ghost var target := RealTimeRun(cfg, State());
      while pass.Scanning? && pass.next < |pass.keys|
        invariant Valid()
        invariant pass.Scanning? ==> RealTimeRun(cfg, State()) == target
        invariant !pass.Scanning? ==> State() == target && pass == Idle
        decreases if pass.Scanning? then |pass.keys| - pass.next + 1 else 0
      {
        RealTimeStepsKeepInvariant(cfg, State());
        RealTimeMoveNext();
      }
      if pass.Scanning? {
        RealTimeStepsKeepInvariant(cfg, State());
        RealTimeFinish();
      }
    }
  }
}
