/**
 * The layout of the data file, and what doUpdate and doRemove do to it.
 *
 * A layout is sound when every slot (the byte range a descriptor names) of
 * a live key or of the recycle bin lies inside the file, every live slot
 * starts at an intact record of its own length, and no two of these slots
 * share a byte. Under a sound layout a write to a recycled or appended slot
 * never damages a live record.
 */
module DiskCacheLayout {
  import opened Optional
  import opened CacheKeys
  import opened RecycleBin
  import opened LruMap
  import opened IndexedDisk
  import opened DiskCacheSpec

  /** The slot of `d` is a non-empty range inside a file of `length` bytes. */
  predicate Within(d: Descriptor, length: nat)
  {
    1 <= d.len && d.pos + d.len <= length
  }

  /** The slots of `d` and `e` share no byte. */
  predicate Apart(d: Descriptor, e: Descriptor)
  {
    !Overlaps(d.pos, d.len, e.pos, e.len)
  }

  /** The slot of `d` lies inside the slot of `e`. */
  predicate Inside(d: Descriptor, e: Descriptor)
  {
    e.pos <= d.pos && d.pos + d.len <= e.pos + e.len
  }

  /** The record written at the start of the slot is intact and as long as the slot. */
  predicate Backed(d: Descriptor, f: DataFile)
  {
    d.pos in f.records && f.records[d.pos].len == d.len
  }

  ghost predicate Sound(entries: map<CacheKey, Descriptor>, bin: seq<Descriptor>, f: DataFile)
  {
    && (forall k :: k in entries ==> Within(entries[k], f.length) && Backed(entries[k], f))
    && (forall d :: d in bin ==> Within(d, f.length))
    && (forall k, k' :: k in entries && k' in entries && k != k' ==> Apart(entries[k], entries[k']))
    && (forall k, d :: k in entries && d in bin ==> Apart(entries[k], d))
    && (forall d, d' :: d in bin && d' in bin && d != d' ==> Apart(d, d'))
    && (forall d :: multiset(bin)[d] <= 1)
  }

  /** The layout of a cache. */
  ghost predicate SoundEngine(s: Engine)
  {
    Sound(s.keyHash.entries, s.recycle, s.dataFile)
  }

  // ---------------------------------------------------------------- slot algebra

  lemma InsideApart(d: Descriptor, e: Descriptor, x: Descriptor)
    requires Inside(d, e) && Apart(e, x)
    ensures Apart(d, x)
  {
  }

  /** Dropping a live key without recycling its slot (the slot leaks). */
  lemma Forget(entries: map<CacheKey, Descriptor>, bin: seq<Descriptor>, f: DataFile, k: CacheKey)
    requires Sound(entries, bin, f)
    ensures Sound(entries - {k}, bin, f)
  {
  }

  /** Moving the slot of a live key to the recycle bin keeps the layout sound. */
  lemma FreeSlot(entries: map<CacheKey, Descriptor>, bin: seq<Descriptor>, f: DataFile, k: CacheKey)
    requires Sound(entries, bin, f) && k in entries
    ensures Sound(entries - {k}, Add(bin, entries[k]), f)
  {
    var d := entries[k];
    var bin' := Add(bin, d);
    AddMembers(bin, d);
    assert d !in bin by {
      assert Within(d, f.length);
      assert !Apart(d, d);
    }
    forall x ensures multiset(bin')[x] <= 1 {
      if x == d { assert multiset(bin)[d] == 0; }
    }
  }

  /** Taking a slot out of the recycle bin leaves a sound layout that the taken slot is apart from. */
  lemma ClaimSlot(entries: map<CacheKey, Descriptor>, bin: seq<Descriptor>, rest: seq<Descriptor>, f: DataFile, rep: Descriptor)
    requires Sound(entries, bin, f) && rep in bin
    requires multiset(rest) == multiset(bin) - multiset{rep}
    ensures Sound(entries, rest, f)
    ensures forall k :: k in entries ==> Apart(entries[k], rep)
    ensures forall d :: d in rest ==> Apart(d, rep)
  {
    forall d | d in rest ensures d in bin && d != rep {
      assert d in multiset(rest);
      assert multiset(bin)[rep] <= 1;
    }
  }

  /**
   * Writing a record for a new key into a slot apart from every slot in use
   * keeps the layout sound and leaves every live record intact.
   */
  lemma Occupy(entries: map<CacheKey, Descriptor>, bin: seq<Descriptor>, f: DataFile, k: CacheKey, nd: Descriptor, r: Record)
    requires Sound(entries, bin, f) && k !in entries && 1 <= nd.len
    requires forall x :: x in entries ==> Apart(entries[x], nd)
    requires forall d :: d in bin ==> Apart(d, nd)
    ensures Sound(entries[k := nd], bin, Write(f, nd.pos, r, nd.len))
    ensures forall x :: x in entries ==>
              && entries[x].pos in Write(f, nd.pos, r, nd.len).records
              && Write(f, nd.pos, r, nd.len).records[entries[x].pos] == f.records[entries[x].pos]
  {
    var f' := Write(f, nd.pos, r, nd.len);
    forall x | x in entries
      ensures entries[x].pos in f'.records && f'.records[entries[x].pos] == f.records[entries[x].pos]
    {
      WriteFrame(f, nd.pos, r, nd.len, entries[x].pos);
    }
  }

  // ---------------------------------------------------------------- update

  /** The entries of the index once the put of doUpdate has made room, before the new descriptor goes in. */
  function Vacated(s: Engine, key: CacheKey, put: PutResult<CacheKey, Descriptor>): map<CacheKey, Descriptor>
  {
    var e := s.keyHash.entries - {key};
    if put.evicted.Some? then e - {put.evicted.value.0} else e
  }

  lemma VacatedSound(cfg: Config, s: Engine, key: CacheKey, d0: Descriptor)
    requires Invariant(cfg, s) && SoundEngine(s)
    ensures var put := Put(s.keyHash, key, d0);
            Sound(Vacated(s, key, put), RecycleFreed(s.recycle, EvictedDescriptor(put.evicted)), s.dataFile)
  {
    var put := Put(s.keyHash, key, d0);
    var e := s.keyHash.entries;
    Forget(e, s.recycle, s.dataFile, key);
    if put.evicted.Some? {
      var v := put.evicted.value.0;
      assert v in e && v != key;
      FreeSlot(e - {key}, s.recycle, s.dataFile, v);
      assert e - {key} - {v} == Vacated(s, key, put);
    } else {
      assert e - {key} == Vacated(s, key, put);
    }
  }

  lemma PutEntries(cfg: Config, s: Engine, key: CacheKey, d0: Descriptor, nd: Descriptor)
    requires Invariant(cfg, s)
    ensures var put := Put(s.keyHash, key, d0);
            put.after.entries[key := nd] == Vacated(s, key, put)[key := nd]
  {
    var put := Put(s.keyHash, key, d0);
    var b := Vacated(s, key, put);
    forall x | x != key
      ensures (x in put.after.entries <==> x in b) && (x in b ==> put.after.entries[x] == b[x])
    {
      assert Get(put.after, x) == (if put.evicted.Some? && put.evicted.value.0 == x then None else Get(s.keyHash, x));
    }
  }

  /**
   * The placement rule picks a slot apart from every slot in use, given
   * that the previous slot of the key (if any) is no longer in use.
   */
  lemma PlaceApart(e: map<CacheKey, Descriptor>, bin: seq<Descriptor>, f: DataFile, previous: Option<Descriptor>, len: nat)
    requires Sound(e, bin, f) && 1 <= len
    requires previous.Some? ==>
               && (forall x :: x in e ==> Apart(e[x], previous.value))
               && (forall d :: d in bin ==> Apart(d, previous.value))
    ensures var placed := Place(previous, len, f.length, bin);
            && Sound(e, placed.recycle, f)
            && (forall x :: x in e ==> Apart(e[x], Descriptor(placed.pos, len)))
            && (forall d :: d in placed.recycle ==> Apart(d, Descriptor(placed.pos, len)))
  {
    var placed := Place(previous, len, f.length, bin);
    var nd := Descriptor(placed.pos, len);
    if previous.Some? && len <= previous.value.len {
      assert Inside(nd, previous.value);
    } else {
      var t := TakeNearestLargerOrEqual(bin, len);
      if t.rep.Some? {
        ClaimSlot(e, bin, t.rest, f, t.rep.value);
        assert Inside(nd, t.rep.value);
      }
    }
  }

  /** The slot doUpdate chooses is apart from every other slot in use. */
  lemma PlacementApart(cfg: Config, s: Engine, ce: CacheElement)
    requires Invariant(cfg, s) && SoundEngine(s) && s.alive
    ensures var len: nat := cfg.encodedLength(ElementRecord(ce));
            var put := Put(s.keyHash, ce.key, Descriptor(s.dataFile.length, len));
            var bin := RecycleFreed(s.recycle, EvictedDescriptor(put.evicted));
            var placed := Place(put.previous, len, s.dataFile.length, bin);
            var nd := Descriptor(placed.pos, len);
            && Sound(Vacated(s, ce.key, put), placed.recycle, s.dataFile)
            && (forall x :: x in Vacated(s, ce.key, put) ==> Apart(Vacated(s, ce.key, put)[x], nd))
            && (forall d :: d in placed.recycle ==> Apart(d, nd))
  {
    var len: nat := cfg.encodedLength(ElementRecord(ce));
    var put := Put(s.keyHash, ce.key, Descriptor(s.dataFile.length, len));
    var bin := RecycleFreed(s.recycle, EvictedDescriptor(put.evicted));
    var e := Vacated(s, ce.key, put);
    VacatedSound(cfg, s, ce.key, Descriptor(s.dataFile.length, len));
    if put.previous.Some? {
      assert bin == s.recycle;
      assert e == s.keyHash.entries - {ce.key};
    }
    PlaceApart(e, bin, s.dataFile, put.previous, len);
  }

  /** What doUpdate does to the index, the bin and the file, in terms of the vacated entries and the placement. */
  lemma UpdateShape(cfg: Config, s: Engine, ce: CacheElement)
    requires Invariant(cfg, s) && s.alive
    ensures var len: nat := cfg.encodedLength(ElementRecord(ce));
            var put := Put(s.keyHash, ce.key, Descriptor(s.dataFile.length, len));
            var bin := RecycleFreed(s.recycle, EvictedDescriptor(put.evicted));
            var placed := Place(put.previous, len, s.dataFile.length, bin);
            var s' := Update(cfg, s, ce);
            && s'.keyHash.entries == Vacated(s, ce.key, put)[ce.key := Descriptor(placed.pos, len)]
            && s'.recycle == placed.recycle
            && s'.dataFile == Write(s.dataFile, placed.pos, ElementRecord(ce), len)
  {
    var len: nat := cfg.encodedLength(ElementRecord(ce));
    var put := Put(s.keyHash, ce.key, Descriptor(s.dataFile.length, len));
    var bin := RecycleFreed(s.recycle, EvictedDescriptor(put.evicted));
    var placed := Place(put.previous, len, s.dataFile.length, bin);
    PutEntries(cfg, s, ce.key, Descriptor(s.dataFile.length, len), Descriptor(placed.pos, len));
  }

  /** doUpdate keeps the layout sound. */
  lemma UpdateKeepsLayout(cfg: Config, s: Engine, ce: CacheElement)
    requires Invariant(cfg, s) && SoundEngine(s)
    ensures SoundEngine(Update(cfg, s, ce))
  {
    if s.alive {
      var len: nat := cfg.encodedLength(ElementRecord(ce));
      var put := Put(s.keyHash, ce.key, Descriptor(s.dataFile.length, len));
      var bin := RecycleFreed(s.recycle, EvictedDescriptor(put.evicted));
      var placed := Place(put.previous, len, s.dataFile.length, bin);
      PlacementApart(cfg, s, ce);
      Occupy(Vacated(s, ce.key, put), placed.recycle, s.dataFile, ce.key, Descriptor(placed.pos, len), ElementRecord(ce));
      UpdateShape(cfg, s, ce);
    }
  }

  /**
   * Under a sound layout, doUpdate changes what a read of another key
   * returns only for the key its put evicted, which then reads as absent.
   */
  lemma UpdateFrame(cfg: Config, s: Engine, ce: CacheElement, x: CacheKey)
    requires Invariant(cfg, s) && SoundEngine(s) && x != ce.key && x in s.keyHash.entries
    ensures var s' := Update(cfg, s, ce);
            ReadElement(s'.keyHash, s'.dataFile, x) ==
              (if x in s'.keyHash.entries then ReadElement(s.keyHash, s.dataFile, x) else NotFound)
  {
    if s.alive {
      var len: nat := cfg.encodedLength(ElementRecord(ce));
      var put := Put(s.keyHash, ce.key, Descriptor(s.dataFile.length, len));
      var bin := RecycleFreed(s.recycle, EvictedDescriptor(put.evicted));
      var placed := Place(put.previous, len, s.dataFile.length, bin);
      var e := Vacated(s, ce.key, put);
      PlacementApart(cfg, s, ce);
      Occupy(e, placed.recycle, s.dataFile, ce.key, Descriptor(placed.pos, len), ElementRecord(ce));
      UpdateShape(cfg, s, ce);
      var s' := Update(cfg, s, ce);
      if x in e {
        assert s'.keyHash.entries[x] == s.keyHash.entries[x];
        assert s'.dataFile.records[s.keyHash.entries[x].pos] == s.dataFile.records[s.keyHash.entries[x].pos];
      } else {
        assert x !in s'.keyHash.entries;
      }
    }
  }

  /** The key a live doUpdate drops from the index is exactly the one its put evicted. */
  lemma UpdateDropsEvicted(cfg: Config, s: Engine, ce: CacheElement, x: CacheKey)
    requires Invariant(cfg, s) && s.alive && x != ce.key && x in s.keyHash.entries
    ensures var put := Put(s.keyHash, ce.key, Descriptor(s.dataFile.length, cfg.encodedLength(ElementRecord(ce))));
            x !in Update(cfg, s, ce).keyHash.entries <==> put.evicted.Some? && put.evicted.value.0 == x
  {
  }

  /** A record stored by doUpdate reads back: doGet after doUpdate returns the element. */
  lemma UpdateThenGet(cfg: Config, s: Engine, ce: CacheElement)
    requires Invariant(cfg, s) && s.alive
    ensures DoGet(cfg, Update(cfg, s, ce), ce.key) == Got(Some(ce), Update(cfg, s, ce))
  {
    var len: nat := cfg.encodedLength(ElementRecord(ce));
    var put := Put(s.keyHash, ce.key, Descriptor(s.dataFile.length, len));
    var bin := RecycleFreed(s.recycle, EvictedDescriptor(put.evicted));
    var placed := Place(put.previous, len, s.dataFile.length, bin);
    assert ReadObject(Write(s.dataFile, placed.pos, ElementRecord(ce), len), placed.pos) == Some(ElementRecord(ce));
  }
}
