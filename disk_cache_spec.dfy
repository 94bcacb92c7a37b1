/**
 * The indexed disk cache (IndexedDiskCache) as a sequential state machine.
 *
 * Each function here is the specification of one operation of the cache:
 * it maps the state before the call to the state after it (and to the
 * call's result). The class in DiskCacheEngine implements the operations
 * imperatively and is proved against these functions; the lemmas in
 * DiskCacheLayout, DiskCacheCompaction and DiskCacheScenarios state what
 * the operations guarantee.
 *
 * Locking is not modelled: every operation is one atomic step, and the
 * background compaction thread becomes a sequence of explicit steps
 * (RealTimeSnapshot, RealTimeMoveNext, RealTimeFinish) that may be
 * interleaved with the other operations.
 */
module DiskCacheSpec {
  import opened Optional
  import opened CacheKeys
  import opened RecycleBin
  import opened LruMap
  import opened IndexedDisk

  type Positive = n: int | 1 <= n witness 1

  type KeyIndex = Lru<CacheKey, Descriptor>

  /**
   * Settings of a cache region: the key index capacity (maxKeySize), the
   * number of removals that triggers a real-time compaction
   * (optimizeAtRemoveCount), and the length in bytes of the serialized form
   * of a record. Java serialization never produces an empty byte array.
   *
   * `hashOrder` stands for the iteration order of a java.util.HashMap, which
   * depends on the keys' hash codes and the table's capacity: given the
   * entries in the order they were put, it gives the order the map lists
   * them in. Any permutation may be supplied (see HashOrder).
   */
  datatype Config = Config(
    maxKeySize: Positive,
    optimizeAtRemoveCount: int,
    encodedLength: Record -> Positive,
    hashOrder: seq<(CacheKey, Descriptor)> -> seq<(CacheKey, Descriptor)>)

  /**
   * The key file: empty, a serialized HashMap copy of the index (listed in
   * the order the HashMap wrote its entries), or bytes that do not deserialize.
   */
  datatype KeyFile = NoKeys | Saved(entries: seq<(CacheKey, Descriptor)>) | Unreadable

  /** Progress of the background (real-time) compaction. */
  datatype Pass =
    | Idle
      // doOptimizeRealTime has set isOptomizing; the pass has not looked at the index yet
    | Spawned
      // the pass copies keys[next..] one at a time into tempIndex and the temp data file
    | Scanning(keys: seq<CacheKey>, next: nat, tempIndex: KeyIndex)

  /**
   * The fields of an IndexedDiskCache. `tempFile` is the content of the
   * temporary data file `<name>Temp.data` on disk, which compaction appends to.
   */
  datatype Engine = Engine(
    keyHash: KeyIndex,
    recycle: seq<Descriptor>,
    dataFile: DataFile,
    keyFile: KeyFile,
    tempFile: DataFile,
    optimizingPutList: seq<CacheKey>,
    optCnt: int,
    recycleCnt: int,
    isOptomizing: bool,
    alive: bool,
    pass: Pass)

  /** The invariant every operation keeps (the layout of the data file aside, see DiskCacheLayout). */
  ghost predicate Invariant(cfg: Config, s: Engine)
  {
    && LruMap.Valid(s.keyHash)
    && s.keyHash.maxSize == cfg.maxKeySize
    && Sorted(s.recycle)
    && (s.isOptomizing <==> !s.pass.Idle?)
    && (s.pass.Scanning? ==>
          && s.pass.next <= |s.pass.keys|
          && LruMap.Valid(s.pass.tempIndex)
          && s.pass.tempIndex.maxSize == cfg.maxKeySize)
  }

  function EmptyIndex(cfg: Config): KeyIndex
  {
    LruMap.Empty(cfg.maxKeySize)
  }

  /** Adds a freed descriptor, if there is one, to the recycle bin (recycle.add, processRemovedLRU). */
  function RecycleFreed(bin: seq<Descriptor>, freed: Option<Descriptor>): seq<Descriptor>
  {
    if freed.Some? then Add(bin, freed.value) else bin
  }

  /** The descriptor of an entry evicted by a put, if any. */
  function EvictedDescriptor(evicted: Option<(CacheKey, Descriptor)>): Option<Descriptor>
  {
    if evicted.Some? then Some(evicted.value.1) else None
  }

  // ---------------------------------------------------------------- reading

  /** The outcome of readElement: an element, null, or an IOException. */
  datatype Read = Found(element: CacheElement) | NotFound | IoFailure

  /** readElement(key): null for a key with no descriptor, else the record stored at its offset. */
  function ReadElement(index: KeyIndex, file: DataFile, key: CacheKey): Read
  {
    if key !in index.entries then NotFound
    else match ReadObject(file, index.entries[key].pos)
      case None => IoFailure
      case Some(NullRecord) => NotFound
      case Some(ElementRecord(e)) => Found(e)
  }

  /** The record that serializing the outcome of a successful read produces. */
  function RecordOf(r: Read): Record
  {
    if r.Found? then ElementRecord(r.element) else NullRecord
  }

  /** The result of doGet and the state after it. */
  datatype Got = Got(element: Option<CacheElement>, after: Engine)

  /** doGet(key): null when not alive; an IOException resets the cache. */
  function DoGet(cfg: Config, s: Engine, key: CacheKey): Got
  {
    if !s.alive then Got(None, s)
    else match ReadElement(s.keyHash, s.dataFile, key)
      case Found(e) => Got(Some(e), s)
      case NotFound => Got(None, s)
      case IoFailure => Got(None, Reset(cfg, s))
  }

  /** getGroupKeys(groupName): the attribute names of the live GroupAttrName keys of the group. */
  function GetGroupKeys(s: Engine, group: GroupId): set<string>
  {
    set k | k in s.keyHash.entries && k.AttrKey? && k.groupId == group :: k.attrName
  }

  /** getSize(). */
  function GetSize(s: Engine): nat
  {
    Size(s.keyHash)
  }

  // ---------------------------------------------------------------- update

  /** Where doUpdate writes a record, and what is left in the recycle bin. */
  datatype Placement = Placement(pos: nat, recycle: seq<Descriptor>, fromBin: bool)

  /**
   * The placement rule of doUpdate: overwrite the old record of the key in
   * place when the new one fits, else take a best fit from the recycle bin,
   * else append at the end of the file.
   */
  function Place(previous: Option<Descriptor>, len: nat, end: nat, bin: seq<Descriptor>): Placement
  {
    if previous.Some? && len <= previous.value.len then Placement(previous.value.pos, bin, false)
    else
      var t := TakeNearestLargerOrEqual(bin, len);
      if t.rep.Some? then Placement(t.rep.value.pos, t.rest, true)
      else Placement(end, bin, false)
  }

  /**
   * doUpdate(ce). The key is put into the index first (which may evict the
   * least recently used entry into the recycle bin); the descriptor put
   * there is then moved to the chosen offset.
   */
  function Update(cfg: Config, s: Engine, ce: CacheElement): Engine
    requires Invariant(cfg, s)
  {
    if !s.alive then s
    else
      var rec := ElementRecord(ce);
      var len: nat := cfg.encodedLength(rec);
      var put := Put(s.keyHash, ce.key, Descriptor(s.dataFile.length, len));
      var bin := RecycleFreed(s.recycle, EvictedDescriptor(put.evicted));
      var placed := Place(put.previous, len, s.dataFile.length, bin);
      s.(keyHash := put.after.(entries := put.after.entries[ce.key := Descriptor(placed.pos, len)]),
         recycle := placed.recycle,
         recycleCnt := if placed.fromBin then s.recycleCnt + 1 else s.recycleCnt,
         dataFile := Write(s.dataFile, placed.pos, rec, len),
         optimizingPutList := if s.isOptomizing then s.optimizingPutList + [ce.key] else s.optimizingPutList)
  }

  /** Update on a live cache, in terms of its put and its placement. */
  lemma UpdateUnfold(cfg: Config, s: Engine, ce: CacheElement, put: PutResult<CacheKey, Descriptor>, placed: Placement)
    requires Invariant(cfg, s) && s.alive
    requires put == Put(s.keyHash, ce.key, Descriptor(s.dataFile.length, cfg.encodedLength(ElementRecord(ce))))
    requires placed == Place(put.previous, cfg.encodedLength(ElementRecord(ce)), s.dataFile.length,
                             RecycleFreed(s.recycle, EvictedDescriptor(put.evicted)))
    ensures var len: nat := cfg.encodedLength(ElementRecord(ce));
            Update(cfg, s, ce) ==
            s.(keyHash := put.after.(entries := put.after.entries[ce.key := Descriptor(placed.pos, len)]),
               recycle := placed.recycle,
               recycleCnt := if placed.fromBin then s.recycleCnt + 1 else s.recycleCnt,
               dataFile := Write(s.dataFile, placed.pos, ElementRecord(ce), len),
               optimizingPutList := if s.isOptomizing then s.optimizingPutList + [ce.key] else s.optimizingPutList)
  {
  }

  // ---------------------------------------------------------------- removal

  /** The two kinds of group removal of doRemove. */
  datatype Group = NamePrefix(prefix: string) | GroupOf(id: GroupId)

  /** Whether the removal of `g` deletes key `k`. */
  predicate InGroup(k: CacheKey, g: Group)
  {
    match g
    case NamePrefix(p) => k.NameKey? && StartsWith(k.name, p)
    case GroupOf(id) => k.AttrKey? && k.groupId == id
  }

  /** The key doRemove was called with. */
  function GroupKey(g: Group): CacheKey
  {
    match g
    case NamePrefix(p) => NameKey(p)
    case GroupOf(id) => GroupIdKey(id)
  }

  /** The state of a group removal as it walks the entries of the index. */
  datatype Sweep = Sweep(index: KeyIndex, recycle: seq<Descriptor>, removed: bool)

  /**
   * One iteration of a group removal over entry `k`: when `k` is in the
   * group, the descriptor recycled is the one the index holds for the
   * removal key itself (keyHash.get(key)), and `k` is deleted.
   */
  function SweepStep(st: Sweep, k: CacheKey, g: Group): Sweep
    requires LruMap.Valid(st.index)
  {
    if !InGroup(k, g) then st
    else Sweep(Remove(st.index, k).after, RecycleFreed(st.recycle, Get(st.index, GroupKey(g))), true)
  }

  /** A group removal over the entries keys[i..]. */
  function SweepFrom(st: Sweep, keys: seq<CacheKey>, i: nat, g: Group): (r: Sweep)
    requires LruMap.Valid(st.index) && i <= |keys|
    ensures LruMap.Valid(r.index) && r.index.maxSize == st.index.maxSize
    ensures Sorted(st.recycle) ==> Sorted(r.recycle)
    decreases |keys| - i
  {
    if i == |keys| then st
    else
      var next := SweepStep(st, keys[i], g);
      assert Sorted(st.recycle) ==> Sorted(next.recycle) by {
        if Sorted(st.recycle) && InGroup(keys[i], g) && GroupKey(g) in st.index.entries {
          AddKeepsSorted(st.recycle, st.index.entries[GroupKey(g)]);
        }
      }
      SweepFrom(next, keys, i + 1, g)
  }

  /** The result of doRemove and the state after it. */
  datatype Removal = Removal(removed: bool, after: Engine)

  /** doOptimizeRealTime(): starts a background compaction unless one is running. */
  function DoOptimizeRealTime(s: Engine): Engine
  {
    if !s.isOptomizing then s.(isOptomizing := true, pass := Spawned) else s
  }

  /** The removal count that starts a real-time compaction (start of doRemove). */
  function CountRemoval(cfg: Config, s: Engine): Engine
  {
    var s1 := s.(optCnt := s.optCnt + 1);
    if !s1.isOptomizing && s1.optCnt == cfg.optimizeAtRemoveCount then DoOptimizeRealTime(s1) else s1
  }

  /** The kind of removal doRemove performs for a key. */
  function GroupOfKey(key: CacheKey): Option<Group>
  {
    match key
    case NameKey(n) => if EndsWith(n, NameComponentDelimiter) then Some(NamePrefix(n)) else None
    case GroupIdKey(id) => Some(GroupOf(id))
    case AttrKey(_, _) => None
  }

  /**
   * doRemove(key): a String key ending in the delimiter removes every String
   * key it prefixes, a GroupId removes every attribute of that group
   * (returning false as written), any other key removes that one entry.
   */
  function DoRemove(cfg: Config, s: Engine, key: CacheKey): Removal
    requires Invariant(cfg, s)
  {
    var s1 := CountRemoval(cfg, s);
    match GroupOfKey(key)
    case Some(g) =>
      var sw := SweepFrom(Sweep(s1.keyHash, s1.recycle, false), s1.keyHash.order, 0, g);
      Removal(g.NamePrefix? && sw.removed, s1.(keyHash := sw.index, recycle := sw.recycle))
    case None =>
      var rm := Remove(s1.keyHash, key);
      Removal(rm.removed.Some?, s1.(keyHash := rm.after, recycle := RecycleFreed(s1.recycle, rm.removed)))
  }

  /** reset(): empty files, an empty index and an empty recycle bin. */
  function Reset(cfg: Config, s: Engine): Engine
  {
    s.(dataFile := EmptyFile, keyFile := NoKeys, recycle := [], keyHash := EmptyIndex(cfg))
  }

  // ---------------------------------------------------------------- compaction

  /** A compaction in progress: the temp index and file, the live recycle bin, and whether a read failed. */
  datatype Moved = Moved(index: KeyIndex, file: DataFile, recycle: seq<Descriptor>, failed: bool)

  /**
   * moveKeyDataToTemp(key): re-serializes what readElement returns for the
   * key (null for a key no longer in the index) at the end of the temp file
   * and puts its descriptor into the temp index. The temp index recycles
   * what it evicts into the live recycle bin. An IOException aborts.
   */
  function MoveKeyDataToTemp(cfg: Config, index: KeyIndex, file: DataFile, key: CacheKey, m: Moved): Moved
    requires LruMap.Valid(m.index)
  {
    var read := ReadElement(index, file, key);
    if read.IoFailure? then m.(failed := true)
    else
      var rec := RecordOf(read);
      var len: nat := cfg.encodedLength(rec);
      var put := Put(m.index, key, Descriptor(m.file.length, len));
      Moved(put.after, Write(m.file, m.file.length, rec, len), RecycleFreed(m.recycle, EvictedDescriptor(put.evicted)), false)
  }

  lemma MoveKeepsSorted(cfg: Config, index: KeyIndex, file: DataFile, key: CacheKey, m: Moved)
    requires LruMap.Valid(m.index)
    ensures var r := MoveKeyDataToTemp(cfg, index, file, key, m);
            LruMap.Valid(r.index) && r.index.maxSize == m.index.maxSize && (Sorted(m.recycle) ==> Sorted(r.recycle))
  {
    var read := ReadElement(index, file, key);
    if !read.IoFailure? && Sorted(m.recycle) {
      var len: nat := cfg.encodedLength(RecordOf(read));
      var put := Put(m.index, key, Descriptor(m.file.length, len));
      if put.evicted.Some? { AddKeepsSorted(m.recycle, put.evicted.value.1); }
    }
  }

  /** moveKeyDataToTemp for keys[i..] in turn, stopping at the first failure. */
  function MoveKeys(cfg: Config, index: KeyIndex, file: DataFile, keys: seq<CacheKey>, i: nat, m: Moved): (r: Moved)
    requires LruMap.Valid(m.index) && i <= |keys|
    ensures LruMap.Valid(r.index) && r.index.maxSize == m.index.maxSize
    ensures Sorted(m.recycle) ==> Sorted(r.recycle)
    decreases |keys| - i
  {
    if i == |keys| || m.failed then m
    else
      var next := MoveKeyDataToTemp(cfg, index, file, keys[i], m);
      assert Sorted(m.recycle) ==> Sorted(next.recycle) by {
        MoveKeepsSorted(cfg, index, file, keys[i], m);
      }
      MoveKeys(cfg, index, file, keys, i + 1, next)
  }

  /** The keys a drain of the put list leaves in it: none, or those after the one whose move failed. */
  function DrainLeft(cfg: Config, index: KeyIndex, file: DataFile, list: seq<CacheKey>, m: Moved): seq<CacheKey>
    requires LruMap.Valid(m.index)
    decreases |list|
  {
    if list == [] then []
    else
      var m' := MoveKeyDataToTemp(cfg, index, file, list[0], m);
      if m'.failed then list[1..] else DrainLeft(cfg, index, file, list[1..], m')
  }

  /** The entries of an index, least recently used first. */
  function Entries(index: KeyIndex): seq<(CacheKey, Descriptor)>
    requires LruMap.Valid(index)
  {
    seq(|index.order|, i requires 0 <= i < |index.order| => (index.order[i], index.entries[index.order[i]]))
  }

  /**
   * The order in which a HashMap filled from `entries` lists them: the one
   * cfg.hashOrder gives when that is a permutation of `entries`, else
   * `entries` as they are.
   */
  function HashOrder(cfg: Config, entries: seq<(CacheKey, Descriptor)>): (r: seq<(CacheKey, Descriptor)>)
    ensures multiset(r) == multiset(entries)
  {
    var h := cfg.hashOrder(entries);
    if multiset(h) == multiset(entries) then h else entries
  }

  /**
   * saveKeys(): the index is copied into a new HashMap, which is written to
   * the key file in its own iteration order; an empty copy leaves the file empty.
   */
  function SaveKeys(cfg: Config, index: KeyIndex): KeyFile
    requires LruMap.Valid(index)
  {
    if Size(index) > 0 then Saved(HashOrder(cfg, Entries(index))) else NoKeys
  }

  /** tempToPrimary: the temp file replaces the data file, the temp index the key index; the bin is emptied. */
  function TempToPrimary(cfg: Config, s: Engine, tempIndex: KeyIndex, tempFile: DataFile): Engine
    requires LruMap.Valid(tempIndex)
  {
    s.(dataFile := tempFile, tempFile := EmptyFile, keyHash := tempIndex, keyFile := SaveKeys(cfg, tempIndex), recycle := [])
  }

  /** The start of a compaction: an empty temp index over whatever the temp file holds. */
  function StartMove(cfg: Config, s: Engine): Moved
  {
    Moved(EmptyIndex(cfg), s.tempFile, s.recycle, false)
  }

  /** optimizeFile(): copies every live key into the temp file, then swaps; a failed read abandons the attempt. */
  function OptimizeFile(cfg: Config, s: Engine): Engine
    requires Invariant(cfg, s)
  {
    var m := MoveKeys(cfg, s.keyHash, s.dataFile, s.keyHash.order, 0, StartMove(cfg, s));
    if m.failed then s.(recycle := m.recycle, tempFile := m.file)
    else TempToPrimary(cfg, s.(recycle := m.recycle), m.index, m.file)
  }

  /** disposeInternal(): compacts and marks the cache dead (closing the files is not modelled). */
  function Dispose(cfg: Config, s: Engine): Engine
    requires Invariant(cfg, s)
  {
    if !s.alive then s else OptimizeFile(cfg, s).(alive := false)
  }

  /** The end of optimizeRealTime, whether it succeeded or was abandoned. */
  function EndPass(s: Engine): Engine
  {
    s.(optCnt := 0, isOptomizing := false, pass := Idle)
  }

  /** First step of optimizeRealTime: the snapshot of the keys. */
  function RealTimeSnapshot(cfg: Config, s: Engine): Engine
    requires s.pass.Spawned?
  {
    s.(pass := Scanning(s.keyHash.order, 0, EmptyIndex(cfg)), isOptomizing := true)
  }

  /** One iteration of the key loop of optimizeRealTime. */
  function RealTimeMoveNext(cfg: Config, s: Engine): Engine
    requires Invariant(cfg, s) && s.pass.Scanning? && s.pass.next < |s.pass.keys|
  {
    var m := MoveKeyDataToTemp(cfg, s.keyHash, s.dataFile, s.pass.keys[s.pass.next],
                               Moved(s.pass.tempIndex, s.tempFile, s.recycle, false));
    if m.failed then EndPass(s)
    else s.(pass := s.pass.(next := s.pass.next + 1, tempIndex := m.index), tempFile := m.file, recycle := m.recycle)
  }

  /** The last step of optimizeRealTime: drain the put list into the temp file, then swap. */
  function RealTimeFinish(cfg: Config, s: Engine): Engine
    requires Invariant(cfg, s) && s.pass.Scanning? && s.pass.next == |s.pass.keys|
  {
    var m0 := Moved(s.pass.tempIndex, s.tempFile, s.recycle, false);
    var m := MoveKeys(cfg, s.keyHash, s.dataFile, s.optimizingPutList, 0, m0);
    var left := DrainLeft(cfg, s.keyHash, s.dataFile, s.optimizingPutList, m0);
    if m.failed then EndPass(s.(optimizingPutList := left, recycle := m.recycle, tempFile := m.file))
    else EndPass(TempToPrimary(cfg, s.(optimizingPutList := [], recycle := m.recycle), m.index, m.file))
  }

  // ---------------------------------------------------------------- start-up

  /**
   * keyHash.putAll(keys) for entries[i..]. The recycle bin does not exist yet
   * during loadKeys, so the first put that evicts an entry throws a
   * NullPointerException out of processRemovedLRU; putAll stops there and
   * the index keeps the entries put before it.
   */
  function PutAll(index: KeyIndex, entries: seq<(CacheKey, Descriptor)>, i: nat): (r: KeyIndex)
    requires LruMap.Valid(index) && i <= |entries|
    ensures LruMap.Valid(r) && r.maxSize == index.maxSize
    decreases |entries| - i
  {
    if i == |entries| then index
    else
      var put := Put(index, entries[i].0, entries[i].1);
      if put.evicted.Some? then index else PutAll(put.after, entries, i + 1)
  }

  /**
   * loadKeys(): the HashMap read back from the key file, put into a new
   * index in the HashMap's iteration order (empty when it cannot be read).
   */
  function LoadKeys(cfg: Config, kf: KeyFile): (r: KeyIndex)
    ensures LruMap.Valid(r) && r.maxSize == cfg.maxKeySize
  {
    if kf.Saved? then PutAll(EmptyIndex(cfg), HashOrder(cfg, kf.entries), 0) else EmptyIndex(cfg)
  }

  /** What checkKeyDataConsistency checks: no descriptor starts past the end of the data file. */
  predicate Consistent(index: KeyIndex, length: nat)
  {
    forall k :: k in index.entries ==> index.entries[k].pos <= length
  }

  /** A cache after start-up with the given index and files. */
  function Opened(index: KeyIndex, keyFile: KeyFile, dataFile: DataFile, tempFile: DataFile): Engine
  {
    Engine(index, [], dataFile, keyFile, tempFile, [], 0, 0, false, true, Idle)
  }

  /**
   * The constructor: reload the index from a non-empty key file and keep it
   * when it is non-empty and consistent with the data file; otherwise start
   * empty, resetting what needs resetting.
   */
  function Startup(cfg: Config, keyFile: KeyFile, dataFile: DataFile, tempFile: DataFile): Engine
  {
    if keyFile != NoKeys then
      var index := LoadKeys(cfg, keyFile);
      if Size(index) == 0 then Opened(index, keyFile, EmptyFile, tempFile)
      else if !Consistent(index, dataFile.length) then Opened(EmptyIndex(cfg), NoKeys, EmptyFile, tempFile)
      else Opened(index, keyFile, dataFile, tempFile)
    else Opened(EmptyIndex(cfg), keyFile, if dataFile.length > 0 then EmptyFile else dataFile, tempFile)
  }
}
