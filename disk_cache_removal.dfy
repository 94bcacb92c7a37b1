/**
 * What doRemove does: the removal count, the single-key removal, and the
 * two group removals with the descriptor they recycle.
 */
module DiskCacheRemoval {
  import opened Optional
  import opened CacheKeys
  import opened RecycleBin
  import opened LruMap
  import opened IndexedDisk
  import opened DiskCacheSpec
  import opened DiskCacheLayout

  /** doRemove keeps the invariant of the cache. */
  lemma RemoveKeepsInvariant(cfg: Config, s: Engine, key: CacheKey)
    requires Invariant(cfg, s)
    ensures Invariant(cfg, DoRemove(cfg, s, key).after)
  {
    var s1 := CountRemoval(cfg, s);
    assert Invariant(cfg, s1);
    if GroupOfKey(key).None? {
      var rm := Remove(s1.keyHash, key);
      if rm.removed.Some? { AddKeepsSorted(s1.recycle, rm.removed.value); }
    }
  }

  /**
   * The removal count: every doRemove counts, and the count that reaches
   * optimizeAtRemoveCount starts a real-time compaction unless one runs.
   */
  lemma CountRemovalTriggers(cfg: Config, s: Engine, key: CacheKey)
    requires Invariant(cfg, s)
    ensures var s' := DoRemove(cfg, s, key).after;
            && s'.optCnt == s.optCnt + 1
            && (s'.isOptomizing <==> s.isOptomizing || s.optCnt + 1 == cfg.optimizeAtRemoveCount)
            && (!s.isOptomizing && s.optCnt + 1 == cfg.optimizeAtRemoveCount ==> s'.pass == Spawned)
            && (s.isOptomizing || s.optCnt + 1 != cfg.optimizeAtRemoveCount ==> s'.pass == s.pass)
  {
  }

  // ---------------------------------------------------------------- single key

  /**
   * Removing one key: the result says whether the key was present, the key
   * is gone, no other lookup changes, and its slot goes to the recycle bin.
   */
  lemma RemoveSingle(cfg: Config, s: Engine, key: CacheKey)
    requires Invariant(cfg, s) && GroupOfKey(key).None?
    ensures var r := DoRemove(cfg, s, key);
            && (r.removed <==> key in s.keyHash.entries)
            && key !in r.after.keyHash.entries
            && (forall x :: x != key ==> Get(r.after.keyHash, x) == Get(s.keyHash, x))
            && (forall x :: x != key ==> ReadElement(r.after.keyHash, r.after.dataFile, x) == ReadElement(s.keyHash, s.dataFile, x))
            && r.after.recycle == (if key in s.keyHash.entries then Add(s.recycle, s.keyHash.entries[key]) else s.recycle)
            && r.after.dataFile == s.dataFile
  {
    var r := DoRemove(cfg, s, key);
    forall x | x != key
      ensures ReadElement(r.after.keyHash, r.after.dataFile, x) == ReadElement(s.keyHash, s.dataFile, x)
    {
      assert Get(r.after.keyHash, x) == Get(s.keyHash, x);
    }
  }

  /** Removing one key keeps the layout sound. */
  lemma RemoveSingleKeepsLayout(cfg: Config, s: Engine, key: CacheKey)
    requires Invariant(cfg, s) && SoundEngine(s) && GroupOfKey(key).None?
    ensures SoundEngine(DoRemove(cfg, s, key).after)
  {
    var r := DoRemove(cfg, s, key);
    RemoveSingle(cfg, s, key);
    var e := s.keyHash.entries;
    if key in e {
      FreeSlot(e, s.recycle, s.dataFile, key);
      assert r.after.keyHash.entries == e - {key} by {
        forall x ensures Get(r.after.keyHash, x) == Get(Lru([], e - {key}, 1), x) {}
      }
    } else {
      assert r.after.keyHash.entries == e by {
        forall x ensures Get(r.after.keyHash, x) == Get(s.keyHash, x) {}
      }
    }
  }

  // ---------------------------------------------------------------- group sweeps

  /**
   * A sweep over keys[i..] deletes exactly the keys of the group it visits,
   * and reports a removal exactly when it visits a key of the group.
   */
  lemma {:induction false} SweepDeletes(st: Sweep, keys: seq<CacheKey>, i: nat, g: Group)
    requires LruMap.Valid(st.index) && i <= |keys|
    ensures var r := SweepFrom(st, keys, i, g);
            && (forall x :: Get(r.index, x) == if InGroup(x, g) && x in keys[i..] then None else Get(st.index, x))
            && (r.removed <==> st.removed || exists j :: i <= j < |keys| && InGroup(keys[j], g))
    decreases |keys| - i
  {
    if i < |keys| {
      var next := SweepStep(st, keys[i], g);
      SweepDeletes(next, keys, i + 1, g);
      assert keys[i..] == [keys[i]] + keys[i + 1..];
    }
  }

  /** While the removal key is not in the index, a sweep recycles nothing. */
  lemma {:induction false} SweepWithoutGroupKey(st: Sweep, keys: seq<CacheKey>, i: nat, g: Group)
    requires LruMap.Valid(st.index) && i <= |keys| && GroupKey(g) !in st.index.entries
    ensures SweepFrom(st, keys, i, g).recycle == st.recycle
    decreases |keys| - i
  {
    if i < |keys| {
      SweepWithoutGroupKey(SweepStep(st, keys[i], g), keys, i + 1, g);
    }
  }

  /**
   * A GroupId is never in its own group, so its descriptor stays live; each
   * key of the group the sweep meets adds that descriptor to the bin again.
   */
  lemma {:induction false} SweepRecyclesGroupIdSlot(st: Sweep, keys: seq<CacheKey>, i: nat, id: GroupId, j: nat)
    requires LruMap.Valid(st.index) && i <= j < |keys| && InGroup(keys[j], GroupOf(id))
    requires GroupIdKey(id) in st.index.entries
    ensures st.index.entries[GroupIdKey(id)] in SweepFrom(st, keys, i, GroupOf(id)).recycle
    decreases |keys| - i
  {
    var g := GroupOf(id);
    var d := st.index.entries[GroupIdKey(id)];
    var next := SweepStep(st, keys[i], g);
    if i == j {
      assert next.recycle == Add(st.recycle, d);
      AddMembers(st.recycle, d);
      SweepKeepsBin(next, keys, i + 1, g, d);
    } else {
      assert Get(next.index, GroupIdKey(id)) == Some(d);
      SweepRecyclesGroupIdSlot(next, keys, i + 1, id, j);
    }
  }

  /**
   * How often a sweep over keys[i..] meets a key of the group while the
   * removal key is still in the index: each key of the group counts, up to
   * and including the removal key itself, which the sweep then deletes.
   */
  function GroupKeyRecycles(keys: seq<CacheKey>, i: nat, g: Group): nat
    requires i <= |keys|
    decreases |keys| - i
  {
    if i == |keys| then 0
    else if !InGroup(keys[i], g) then GroupKeyRecycles(keys, i + 1, g)
    else if keys[i] == GroupKey(g) then 1
    else 1 + GroupKeyRecycles(keys, i + 1, g)
  }

  /**
   * What a sweep adds to the recycle bin: copies of the removal key's own
   * descriptor (keyHash.get(key)), one per key of the group met while that
   * key is live, and nothing else; the descriptors of the entries it
   * deletes are never recycled.
   */
  lemma {:induction false} SweepRecycles(st: Sweep, keys: seq<CacheKey>, i: nat, g: Group)
    requires LruMap.Valid(st.index) && i <= |keys|
    ensures multiset(SweepFrom(st, keys, i, g).recycle) ==
            multiset(st.recycle) + (if GroupKey(g) in st.index.entries
                                    then multiset{}[st.index.entries[GroupKey(g)] := GroupKeyRecycles(keys, i, g)]
                                    else multiset{})
    decreases |keys| - i
  {
    if i < |keys| {
      var next := SweepStep(st, keys[i], g);
      SweepRecycles(next, keys, i + 1, g);
      if InGroup(keys[i], g) && GroupKey(g) in st.index.entries {
        var d := st.index.entries[GroupKey(g)];
        assert multiset(next.recycle) == multiset(st.recycle) + multiset{d};
        if keys[i] == GroupKey(g) {
          assert GroupKey(g) !in next.index.entries;
          SweepWithoutGroupKey(next, keys, i + 1, g);
        } else {
          assert Get(next.index, GroupKey(g)) == Some(d);
          var n := GroupKeyRecycles(keys, i + 1, g);
          assert multiset{d} + multiset{}[d := n] == multiset{}[d := n + 1];
        }
      }
    }
  }

  /** A sweep only ever adds to the recycle bin. */
  lemma {:induction false} SweepKeepsBin(st: Sweep, keys: seq<CacheKey>, i: nat, g: Group, d: Descriptor)
    requires LruMap.Valid(st.index) && i <= |keys| && d in st.recycle
    ensures d in SweepFrom(st, keys, i, g).recycle
    decreases |keys| - i
  {
    if i < |keys| {
      var next := SweepStep(st, keys[i], g);
      if InGroup(keys[i], g) && GroupKey(g) in st.index.entries {
        AddMembers(st.recycle, st.index.entries[GroupKey(g)]);
      }
      SweepKeepsBin(next, keys, i + 1, g, d);
    }
  }

  /** A GroupId sweep never removes the GroupId itself. */
  lemma {:induction false} SweepKeepsGroupIdKey(st: Sweep, keys: seq<CacheKey>, i: nat, id: GroupId)
    requires LruMap.Valid(st.index) && i <= |keys|
    ensures Get(SweepFrom(st, keys, i, GroupOf(id)).index, GroupIdKey(id)) == Get(st.index, GroupIdKey(id))
    decreases |keys| - i
  {
    if i < |keys| {
      SweepKeepsGroupIdKey(SweepStep(st, keys[i], GroupOf(id)), keys, i + 1, id);
    }
  }

  /** The entries of `e` outside group `g`. */
  function OutsideGroup(e: map<CacheKey, Descriptor>, g: Group): (r: map<CacheKey, Descriptor>)
    ensures forall x :: x in r <==> x in e && !InGroup(x, g)
  {
    map x | x in e && !InGroup(x, g) :: e[x]
  }

  /** A sweep over the whole index deletes exactly the group, and reports whether it held a key of the group. */
  lemma SweepIndex(st: Sweep, g: Group)
    requires LruMap.Valid(st.index)
    ensures var r := SweepFrom(st, st.index.order, 0, g);
            && r.index.entries == OutsideGroup(st.index.entries, g)
            && (r.removed <==> st.removed || exists x :: x in st.index.entries && InGroup(x, g))
  {
    var keys := st.index.order;
    var r := SweepFrom(st, keys, 0, g);
    SweepDeletes(st, keys, 0, g);
    assert keys[0..] == keys;
    SweepIndexEntries(st.index, r.index, g);
    AnyInGroup(st.index, g);
  }

  lemma SweepIndexEntries(index: KeyIndex, after: KeyIndex, g: Group)
    requires LruMap.Valid(index)
    requires forall x :: Get(after, x) == if InGroup(x, g) && x in index.order then None else Get(index, x)
    ensures after.entries == OutsideGroup(index.entries, g)
  {
    var a := after.entries;
    var b := OutsideGroup(index.entries, g);
    forall x ensures (x in a <==> x in b) && (x in a ==> a[x] == b[x]) {
      assert Get(after, x) == if InGroup(x, g) && x in index.order then None else Get(index, x);
    }
  }

  lemma AnyInGroup(index: KeyIndex, g: Group)
    requires LruMap.Valid(index)
    ensures (exists j :: 0 <= j < |index.order| && InGroup(index.order[j], g)) <==>
            (exists x :: x in index.entries && InGroup(x, g))
  {
    var keys := index.order;
    if exists x :: x in index.entries && InGroup(x, g) {
      var x :| x in index.entries && InGroup(x, g);
      var j :| 0 <= j < |keys| && keys[j] == x;
    }
    if exists j :: 0 <= j < |keys| && InGroup(keys[j], g) {
      var j :| 0 <= j < |keys| && InGroup(keys[j], g);
      assert keys[j] in index.entries;
    }
  }

  /**
   * A group removal: the index loses exactly the keys of the group. The
   * name-prefix form returns whether any key matched; the GroupId form
   * returns false even when it removed keys. The bin gains only copies of
   * the removal key's own descriptor, as counted by GroupKeyRecycles.
   */
  lemma RemoveGroup(cfg: Config, s: Engine, key: CacheKey)
    requires Invariant(cfg, s) && GroupOfKey(key).Some?
    ensures var g := GroupOfKey(key).value;
            var r := DoRemove(cfg, s, key);
            && r.after.keyHash.entries == OutsideGroup(s.keyHash.entries, g)
            && (r.removed <==> g.NamePrefix? && exists x :: x in s.keyHash.entries && InGroup(x, g))
            && r.after.dataFile == s.dataFile
            && multiset(r.after.recycle) ==
               multiset(s.recycle) + (if GroupKey(g) in s.keyHash.entries
                                      then multiset{}[s.keyHash.entries[GroupKey(g)] := GroupKeyRecycles(s.keyHash.order, 0, g)]
                                      else multiset{})
  {
    var s1 := CountRemoval(cfg, s);
    assert s1.keyHash == s.keyHash;
    SweepIndex(Sweep(s1.keyHash, s1.recycle, false), GroupOfKey(key).value);
    SweepRecycles(Sweep(s1.keyHash, s1.recycle, false), s1.keyHash.order, 0, GroupOfKey(key).value);
  }

  /** When the removal key itself is not in the index, a group removal recycles nothing and keeps the layout sound. */
  lemma RemoveGroupKeepsLayout(cfg: Config, s: Engine, key: CacheKey)
    requires Invariant(cfg, s) && SoundEngine(s) && GroupOfKey(key).Some?
    requires GroupKey(GroupOfKey(key).value) !in s.keyHash.entries
    ensures DoRemove(cfg, s, key).after.recycle == s.recycle
    ensures SoundEngine(DoRemove(cfg, s, key).after)
  {
    var g := GroupOfKey(key).value;
    var s1 := CountRemoval(cfg, s);
    SweepWithoutGroupKey(Sweep(s1.keyHash, s1.recycle, false), s1.keyHash.order, 0, g);
    RemoveGroup(cfg, s, key);
  }

  /**
   * Removing a GroupId that is itself a live key, while a key of its group
   * is live, puts the GroupId's slot in the recycle bin while the GroupId
   * keeps it: the next put that takes it from the bin overwrites a live record.
   */
  lemma RemoveGroupIdRecyclesLiveSlot(cfg: Config, s: Engine, id: GroupId, attr: string)
    requires Invariant(cfg, s) && SoundEngine(s)
    requires GroupIdKey(id) in s.keyHash.entries && AttrKey(id, attr) in s.keyHash.entries
    ensures var s' := DoRemove(cfg, s, GroupIdKey(id)).after;
            && GroupIdKey(id) in s'.keyHash.entries
            && s'.keyHash.entries[GroupIdKey(id)] in s'.recycle
            && !SoundEngine(s')
  {
    var s1 := CountRemoval(cfg, s);
    var keys := s1.keyHash.order;
    var j :| 0 <= j < |keys| && keys[j] == AttrKey(id, attr);
    SweepRecyclesGroupIdSlot(Sweep(s1.keyHash, s1.recycle, false), keys, 0, id, j);
    SweepKeepsGroupIdKey(Sweep(s1.keyHash, s1.recycle, false), keys, 0, id);
    var s' := DoRemove(cfg, s, GroupIdKey(id)).after;
    var d := s'.keyHash.entries[GroupIdKey(id)];
    assert Within(d, s.dataFile.length);
    assert !Apart(d, d);
  }
}
