# Indexed disk cache, lateral facade and friends of the Java Caching System

This project models four pieces of the Java Caching System (JCS) and proves
properties of the model.

The main piece is the **indexed disk cache** (`IndexedDiskCache`). It is a
disk auxiliary that keeps serialized cache elements in one data file. It also
keeps:

- an in-memory key index: a bounded LRU map from key to element descriptor
  (offset and length);
- a recycle bin of freed descriptors, ordered by length;
- a key file that saves the index across restarts.

Elements are put, read and removed. A removal can take one key, a name-prefix
group or a GroupId group. The data file is compacted in two ways: in one go
when the cache is disposed, and in real time by a pass that copies live
records into a temp file and then swaps the files. Start-up reloads the index
and checks it against the data file.

The other three pieces are:

- the **lateral no-wait facade** (`LateralCacheNoWaitFacade`): the array of
  lateral no-wait caches of one region, with membership, first-hit reads and
  status aggregation;
- the configuration bean of a **remote cache server**
  (`RemoteCacheServerAttributes`);
- the JCache **eviction listener**, which counts expiry events as evictions.

Layout:

| file | module | what |
|---|---|---|
| optional.dfy | Optional | `Option` (a Java null is `None`) |
| cache_keys.dfy | CacheKeys | keys (String, GroupAttrName, GroupId), elements, records |
| recycle_bin.dfy | RecycleBin | descriptors and the length-ordered recycle bin |
| lru_map.dfy | LruMap | the bounded key index with LRU eviction |
| indexed_disk.dfy | IndexedDisk | the data file as offset → record, with its length |
| disk_cache_spec.dfy | DiskCacheSpec | the cache as a state machine: one function per operation |
| disk_cache_engine.dfy | DiskCacheEngine | class `IndexedDiskCache`: the operations on mutable fields, each proved equal to its spec function |
| disk_cache_layout.dfy | DiskCacheLayout | the layout invariant (live slots and bin slots pairwise apart, live records intact) and doUpdate |
| disk_cache_placement.dfy | DiskCachePlacement | the placement cases of doUpdate and what they leave behind |
| disk_cache_removal.dfy | DiskCacheRemoval | doRemove: single key, name prefix, GroupId |
| disk_cache_compaction.dfy | DiskCacheCompaction | optimizeFile and disposeInternal |
| disk_cache_lifecycle.dfy | DiskCacheLifecycle | key file round trip, start-up, the real-time pass |
| disk_cache_scenarios.dfy | DiskCacheScenarios | consequences of the code as written that its comments do not promise |
| lateral_facade.dfy | LateralFacade | the no-wait facade |
| remote_server_attributes.dfy | RemoteServerAttributes | the remote server configuration bean |
| jcache_eviction.dfy | JCacheEviction | the eviction listener |

The engine's state is an `Engine` value. `IndexedDiskCache.State()` reads it
off the object's fields. Every mutating method of the class ensures
`State() == F(old(State()), …)`, where `F` is the matching function of
`DiskCacheSpec`. The properties are lemmas about those functions.

The serializer is a parameter of the model: `Config.encodedLength` gives the
byte length of a record, and that length is always positive. The iteration
order of a `java.util.HashMap` is a parameter too: `Config.hashOrder` may
reorder a map's entries in any way. saveKeys writes a HashMap copy of the
index, and loadKeys puts the map it reads back in that map's order, so a
reload keeps the entries but not the LRU order.

The behaviours below are modelled exactly as the code does them. Lemmas show
where each one leads.

- A record that outgrows its slot leaves the old slot unrecycled
  (`GrownRecordOrphansSlot`).
- A record rewritten in place records only its new, shorter length
  (`UpdateInPlace`).
- The eviction of a put feeds the recycle bin that the same put searches
  (`EvictionFeedsSamePut`).
- Group removals recycle `keyHash.get(key)` rather than the removed entry's
  descriptor. For a name prefix this recycles the prefix's slot once per
  matching key (`NamePrefixRecyclesPrefixSlotTwice`). For a GroupId it
  recycles the slot of a live key (`RemoveGroupIdRecyclesLiveSlot`).
- moveKeyDataToTemp does not check that the key is still live
  (`MoveCopiesDeadKey`, `RemovedDuringPassComesBack`).
- The start-up check accepts a descriptor that starts exactly at the end of
  the data file (`EndOffsetPassesCheckThenResets`).
- loadKeys ends at the first eviction, since the recycle bin it would feed
  does not exist yet, so a key file larger than the index reloads only its
  first maxKeySize entries (`LoadKeepsFirst`).

## Model

| member | source | states |
|---|---|---|
| RecycleBin.Add | src/java/org/apache/jcs/auxiliary/disk/indexed/IndexedDiskCache.java:680 | recycle.add(ded): the bin gains exactly the descriptor, as a multiset |
| RecycleBin.AddMembers | src/java/org/apache/jcs/auxiliary/disk/indexed/IndexedDiskCache.java:680 | after an add, the bin holds exactly its old members and the added descriptor |
| RecycleBin.AddKeepsSorted | src/java/org/apache/jcs/auxiliary/disk/indexed/IndexedDiskCache.java:680 | adding to a length-ordered bin keeps it ordered |
| RecycleBin.FirstFit | src/java/org/apache/jcs/auxiliary/disk/indexed/IndexedDiskCache.java:393-395 | the position found is the first descriptor at least n long; every one before it is shorter |
| RecycleBin.TakeNearestLargerOrEqual | src/java/org/apache/jcs/auxiliary/disk/indexed/IndexedDiskCache.java:393-395 | takeNearestLargerOrEqual returns null exactly when no descriptor is long enough; otherwise it returns one that is long enough and removes just that one (multiset) |
| RecycleBin.TakeIsBestFit | src/java/org/apache/jcs/auxiliary/disk/indexed/IndexedDiskCache.java:393-395 | on an ordered bin the descriptor taken is the shortest that fits, and the rest stays ordered |
| LruMap.Without | src/java/org/apache/jcs/auxiliary/disk/indexed/IndexedDiskCache.java:689 | the order without a key holds exactly the other keys and is shorter when the key was in it |
| LruMap.WithoutDistinct | src/java/org/apache/jcs/auxiliary/disk/indexed/IndexedDiskCache.java:689 | removing a key from a duplicate-free order keeps it duplicate-free |
| LruMap.Put | src/java/org/apache/jcs/auxiliary/disk/indexed/IndexedDiskCache.java:379-381 | keyHash.put returns the previous value; the key then maps to the new value; an entry is evicted iff the key is new and the map is full, and it is the least recently used one; every other lookup is unchanged |
| LruMap.PutNew | src/java/org/apache/jcs/auxiliary/disk/indexed/IndexedDiskCache.java:379-381 | a put of a new key into a map with room appends the key and evicts nothing |
| LruMap.Remove | src/java/org/apache/jcs/auxiliary/disk/indexed/IndexedDiskCache.java:689 | keyHash.remove returns what the key mapped to, drops just that key and keeps the map valid |
| IndexedDisk.WriteFrame | src/java/org/apache/jcs/auxiliary/disk/indexed/IndexedDiskCache.java:418 | a write leaves every record it does not overlap intact, the record written reads back, and the file never shrinks |
| DiskCacheSpec.SweepFrom | src/java/org/apache/jcs/auxiliary/disk/indexed/IndexedDiskCache.java:600-629 | a group sweep keeps the index valid and the bin ordered |
| DiskCacheSpec.MoveKeepsSorted | src/java/org/apache/jcs/auxiliary/disk/indexed/IndexedDiskCache.java:1087-1136 | moveKeyDataToTemp keeps the temp index valid and the live bin ordered |
| DiskCacheSpec.MoveKeys | src/java/org/apache/jcs/auxiliary/disk/indexed/IndexedDiskCache.java:1049-1061 | moving keys in turn keeps the temp index valid, bounded by the same size, and the bin ordered |
| DiskCacheSpec.PutAll | src/java/org/apache/jcs/auxiliary/disk/indexed/IndexedDiskCache.java:201 | keyHash.putAll yields a valid index of the same bound, stopping at the first put that evicts |
| DiskCacheSpec.HashOrder | src/java/org/apache/jcs/auxiliary/disk/indexed/IndexedDiskCache.java:325-326 | a HashMap copy lists exactly the entries it was filled from (as a multiset), in an order left open |
| DiskCacheSpec.LoadKeys | src/java/org/apache/jcs/auxiliary/disk/indexed/IndexedDiskCache.java:183-241 | loadKeys yields a valid index bounded by maxKeySize |
| DiskCacheEngine.IndexedDiskCache.constructor | src/java/org/apache/jcs/auxiliary/disk/indexed/IndexedDiskCache.java:105-177 | the constructor ends in the start-up state of the files found, which satisfies the invariant |
| DiskCacheEngine.IndexedDiskCache.LoadKeys | src/java/org/apache/jcs/auxiliary/disk/indexed/IndexedDiskCache.java:183-241 | the loop of puts, in the read-back HashMap's order and ended by the first eviction, builds the index the spec reloads from the key file |
| DiskCacheEngine.IndexedDiskCache.CheckKeyDataConsistency | src/java/org/apache/jcs/auxiliary/disk/indexed/IndexedDiskCache.java:250-303 | the result is true iff no descriptor starts past the end of the data file |
| DiskCacheEngine.IndexedDiskCache.SaveKeys | src/java/org/apache/jcs/auxiliary/disk/indexed/IndexedDiskCache.java:308-344 | the key file becomes the index's entries in a HashMap's order, or nothing for an empty index |
| DiskCacheEngine.IndexedDiskCache.ProcessRemovedLru | src/java/org/apache/jcs/auxiliary/disk/indexed/IndexedDiskCache.java:1335-1359 | the descriptor of an evicted entry, if any, goes to the recycle bin |
| DiskCacheEngine.IndexedDiskCache.ChoosePosition | src/java/org/apache/jcs/auxiliary/disk/indexed/IndexedDiskCache.java:383-416 | the placement: the old slot if the record fits, else a best fit from the bin, else the end of the file |
| DiskCacheEngine.IndexedDiskCache.Store | src/java/org/apache/jcs/auxiliary/disk/indexed/IndexedDiskCache.java:369-423 | the new state of a live doUpdate changes only the index, the bin, the file, the recycle count and the put list |
| DiskCacheEngine.IndexedDiskCache.DoUpdate | src/java/org/apache/jcs/auxiliary/disk/indexed/IndexedDiskCache.java:351-454 | doUpdate moves the cache to the spec's next state; a dead cache is unchanged |
| DiskCacheEngine.IndexedDiskCache.ReadElement | src/java/org/apache/jcs/auxiliary/disk/indexed/IndexedDiskCache.java:505-531 | readElement: not found without a descriptor, an I/O failure when no record starts at the offset, else the element or null stored there |
| DiskCacheEngine.IndexedDiskCache.DoGet | src/java/org/apache/jcs/auxiliary/disk/indexed/IndexedDiskCache.java:459-503 | doGet returns the spec's answer and state; a failed read resets the cache |
| DiskCacheEngine.IndexedDiskCache.GetGroupKeys | src/java/org/apache/jcs/auxiliary/disk/indexed/IndexedDiskCache.java:533-566 | the attribute names of the live keys of the group |
| DiskCacheEngine.IndexedDiskCache.GetSize | src/java/org/apache/jcs/auxiliary/disk/indexed/IndexedDiskCache.java:1210-1213 | the number of keys in the index |
| DiskCacheEngine.IndexedDiskCache.DoOptimizeRealTime | src/java/org/apache/jcs/auxiliary/disk/indexed/IndexedDiskCache.java:871-897 | starts a real-time pass unless one runs |
| DiskCacheEngine.IndexedDiskCache.SweepGroup | src/java/org/apache/jcs/auxiliary/disk/indexed/IndexedDiskCache.java:600-629 | the iterator loop of a group removal equals the spec's sweep over a snapshot of the index |
| DiskCacheEngine.IndexedDiskCache.RemoveKey | src/java/org/apache/jcs/auxiliary/disk/indexed/IndexedDiskCache.java:665-691 | the removal of one key: its descriptor to the bin, and the result says whether it was present |
| DiskCacheEngine.IndexedDiskCache.DoRemove | src/java/org/apache/jcs/auxiliary/disk/indexed/IndexedDiskCache.java:575-710 | doRemove returns the spec's answer and state, including the removal count and the optimisation trigger |
| DiskCacheEngine.IndexedDiskCache.DoRemoveAll | src/java/org/apache/jcs/auxiliary/disk/indexed/IndexedDiskCache.java:715-729 | doRemoveAll resets the cache |
| DiskCacheEngine.IndexedDiskCache.Reset | src/java/org/apache/jcs/auxiliary/disk/indexed/IndexedDiskCache.java:736-776 | reset empties the files, the index and the bin |
| DiskCacheEngine.IndexedDiskCache.MoveKeyDataToTemp | src/java/org/apache/jcs/auxiliary/disk/indexed/IndexedDiskCache.java:1087-1136 | the copy of one key to the end of the temp file, with evictions going to the live bin |
| DiskCacheEngine.IndexedDiskCache.TempToPrimary | src/java/org/apache/jcs/auxiliary/disk/indexed/IndexedDiskCache.java:1145-1201 | the temp file and index replace the primary ones, the key file is saved and the bin is emptied |
| DiskCacheEngine.IndexedDiskCache.CopyKeys | src/java/org/apache/jcs/auxiliary/disk/indexed/IndexedDiskCache.java:1049-1061 | the key loop of optimizeFile equals moving every key in turn until a read fails |
| DiskCacheEngine.IndexedDiskCache.OptimizeFile | src/java/org/apache/jcs/auxiliary/disk/indexed/IndexedDiskCache.java:1030-1077 | optimizeFile moves the cache to the spec's compacted state |
| DiskCacheEngine.IndexedDiskCache.DoDispose | src/java/org/apache/jcs/auxiliary/disk/indexed/IndexedDiskCache.java:807-862 | disposeInternal compacts and marks the cache dead |
| DiskCacheEngine.IndexedDiskCache.RealTimeSnapshot | src/java/org/apache/jcs/auxiliary/disk/indexed/IndexedDiskCache.java:925-946 | first step of optimizeRealTime: the snapshot of the keys and an empty temp index |
| DiskCacheEngine.IndexedDiskCache.RealTimeMoveNext | src/java/org/apache/jcs/auxiliary/disk/indexed/IndexedDiskCache.java:954-970 | one iteration of the real-time key loop |
| DiskCacheEngine.IndexedDiskCache.DrainPutList | src/java/org/apache/jcs/auxiliary/disk/indexed/IndexedDiskCache.java:984-988 | the drain loop equals moving the keys of the put list in turn until a read fails |
| DiskCacheEngine.IndexedDiskCache.RealTimeFinish | src/java/org/apache/jcs/auxiliary/disk/indexed/IndexedDiskCache.java:975-1014 | the last step: drain, swap, clear the flags and the count |
| DiskCacheEngine.IndexedDiskCache.OptimizeRealTime | src/java/org/apache/jcs/auxiliary/disk/indexed/IndexedDiskCache.java:914-1024 | the whole pass with nothing interleaved ends in the spec's run, valid, with no pass running |
| DiskCacheLayout.InsideApart | src/java/org/apache/jcs/auxiliary/disk/indexed/IndexedDiskCache.java:385-388 | a slot inside another is apart from whatever the outer slot is apart from |
| DiskCacheLayout.Forget | src/java/org/apache/jcs/auxiliary/disk/indexed/IndexedDiskCache.java:379-381 | dropping a key without recycling its slot keeps the layout sound |
| DiskCacheLayout.FreeSlot | src/java/org/apache/jcs/auxiliary/disk/indexed/IndexedDiskCache.java:676-689 | moving a live key's slot to the bin keeps the layout sound |
| DiskCacheLayout.ClaimSlot | src/java/org/apache/jcs/auxiliary/disk/indexed/IndexedDiskCache.java:391-398 | taking a slot out of the bin keeps the layout sound, and the slot is apart from every other |
| DiskCacheLayout.Occupy | src/java/org/apache/jcs/auxiliary/disk/indexed/IndexedDiskCache.java:418 | writing into a slot apart from all others keeps the layout sound and every live record intact |
| DiskCacheLayout.VacatedSound | src/java/org/apache/jcs/auxiliary/disk/indexed/IndexedDiskCache.java:379-381 | after the put makes room, the remaining entries and the bin are sound |
| DiskCacheLayout.PutEntries | src/java/org/apache/jcs/auxiliary/disk/indexed/IndexedDiskCache.java:379-381 | the index after the put, with the final descriptor, is the vacated entries plus the key |
| DiskCacheLayout.PlaceApart | src/java/org/apache/jcs/auxiliary/disk/indexed/IndexedDiskCache.java:383-416 | the placement picks a slot apart from every slot in use and leaves a sound bin |
| DiskCacheLayout.PlacementApart | src/java/org/apache/jcs/auxiliary/disk/indexed/IndexedDiskCache.java:379-416 | the slot doUpdate chooses is apart from every other live or binned slot |
| DiskCacheLayout.UpdateShape | src/java/org/apache/jcs/auxiliary/disk/indexed/IndexedDiskCache.java:379-418 | doUpdate's index, bin and file, in terms of the vacated entries and the placement |
| DiskCacheLayout.UpdateKeepsLayout | src/java/org/apache/jcs/auxiliary/disk/indexed/IndexedDiskCache.java:351-454 | doUpdate keeps the layout sound |
| DiskCacheLayout.UpdateFrame | src/java/org/apache/jcs/auxiliary/disk/indexed/IndexedDiskCache.java:351-454 | doUpdate leaves the read of every other key as it was, except the key it evicted, which reads as absent |
| DiskCacheLayout.UpdateDropsEvicted | src/java/org/apache/jcs/auxiliary/disk/indexed/IndexedDiskCache.java:379-381 | a live doUpdate drops from the index exactly the key its put evicted, and no other |
| DiskCacheLayout.UpdateThenGet | src/java/org/apache/jcs/auxiliary/disk/indexed/IndexedDiskCache.java:351-503 | doGet after doUpdate returns the element just stored |
| DiskCachePlacement.BinAtPlacementIsFreed | src/java/org/apache/jcs/auxiliary/disk/indexed/IndexedDiskCache.java:379-395 | the bin searched is the live bin plus the descriptor the put evicted, and it is ordered |
| DiskCachePlacement.UpdateInPlace | src/java/org/apache/jcs/auxiliary/disk/indexed/IndexedDiskCache.java:385-388 | a record that fits keeps the old offset but records only its new length; bin, count and file length are unchanged |
| DiskCachePlacement.UpdateFromBin | src/java/org/apache/jcs/auxiliary/disk/indexed/IndexedDiskCache.java:391-398 | otherwise a bin hit takes the shortest fitting descriptor, removes it from the bin and counts it |
| DiskCachePlacement.UpdateAppends | src/java/org/apache/jcs/auxiliary/disk/indexed/IndexedDiskCache.java:369-418 | with no fit, the record goes to the end of the file, which grows by its length |
| DiskCachePlacement.UpdateBookkeeping | src/java/org/apache/jcs/auxiliary/disk/indexed/IndexedDiskCache.java:372-422 | a live update adds the key to the put list iff a real-time pass runs; a dead cache ignores the update |
| DiskCachePlacement.GrownRecordOrphansSlot | src/java/org/apache/jcs/auxiliary/disk/indexed/IndexedDiskCache.java:379-416 | a record that outgrows its slot leaves the old slot neither in the bin nor in the index |
| DiskCachePlacement.EvictionFeedsSamePut | src/java/org/apache/jcs/auxiliary/disk/indexed/IndexedDiskCache.java:379-398 | a new key put into a full index can land in the slot of the entry it just evicted |
| DiskCacheRemoval.RemoveKeepsInvariant | src/java/org/apache/jcs/auxiliary/disk/indexed/IndexedDiskCache.java:575-710 | doRemove keeps the invariant |
| DiskCacheRemoval.CountRemovalTriggers | src/java/org/apache/jcs/auxiliary/disk/indexed/IndexedDiskCache.java:578-581 | every removal counts; the count equal to optimizeAtRemoveCount starts a pass iff none runs |
| DiskCacheRemoval.RemoveSingle | src/java/org/apache/jcs/auxiliary/disk/indexed/IndexedDiskCache.java:665-691 | the result is true iff the key was present; the key is gone; other lookups and reads are unchanged; its slot goes to the bin |
| DiskCacheRemoval.RemoveSingleKeepsLayout | src/java/org/apache/jcs/auxiliary/disk/indexed/IndexedDiskCache.java:665-691 | removing one key keeps the layout sound |
| DiskCacheRemoval.SweepDeletes | src/java/org/apache/jcs/auxiliary/disk/indexed/IndexedDiskCache.java:600-629 | a sweep deletes exactly the group keys it visits and reports removal iff it met one |
| DiskCacheRemoval.SweepRecycles | src/java/org/apache/jcs/auxiliary/disk/indexed/IndexedDiskCache.java:600-653 | a sweep adds to the bin exactly one copy of keyHash.get(key) per key of the group it meets while the removal key is live, and never the descriptor of an entry it deletes |
| DiskCacheRemoval.SweepWithoutGroupKey | src/java/org/apache/jcs/auxiliary/disk/indexed/IndexedDiskCache.java:614-618 | while the removal key has no descriptor, a sweep recycles nothing |
| DiskCacheRemoval.SweepRecyclesGroupIdSlot | src/java/org/apache/jcs/auxiliary/disk/indexed/IndexedDiskCache.java:640-652 | a GroupId sweep that meets a group key puts the GroupId's own descriptor in the bin |
| DiskCacheRemoval.SweepKeepsBin | src/java/org/apache/jcs/auxiliary/disk/indexed/IndexedDiskCache.java:600-629 | a sweep only adds to the bin |
| DiskCacheRemoval.SweepKeepsGroupIdKey | src/java/org/apache/jcs/auxiliary/disk/indexed/IndexedDiskCache.java:633-664 | a GroupId sweep never removes the GroupId key itself |
| DiskCacheRemoval.OutsideGroup | src/java/org/apache/jcs/auxiliary/disk/indexed/IndexedDiskCache.java:608-642 | the entries outside a group are exactly those whose key it does not match |
| DiskCacheRemoval.SweepIndex | src/java/org/apache/jcs/auxiliary/disk/indexed/IndexedDiskCache.java:600-629 | a sweep over the whole index leaves exactly the entries outside the group |
| DiskCacheRemoval.SweepIndexEntries | src/java/org/apache/jcs/auxiliary/disk/indexed/IndexedDiskCache.java:600-629 | lookups that lose exactly the group determine the remaining entries |
| DiskCacheRemoval.AnyInGroup | src/java/org/apache/jcs/auxiliary/disk/indexed/IndexedDiskCache.java:602-609 | some key in iteration order is in the group iff some entry is |
| DiskCacheRemoval.RemoveGroup | src/java/org/apache/jcs/auxiliary/disk/indexed/IndexedDiskCache.java:595-664 | a group removal leaves exactly the entries outside the group; a name prefix returns whether any matched; a GroupId returns false; the bin gains exactly the copies of the removal key's own descriptor that SweepRecycles counts |
| DiskCacheRemoval.RemoveGroupKeepsLayout | src/java/org/apache/jcs/auxiliary/disk/indexed/IndexedDiskCache.java:595-664 | with no descriptor for the removal key, a group removal recycles nothing and keeps the layout sound |
| DiskCacheRemoval.RemoveGroupIdRecyclesLiveSlot | src/java/org/apache/jcs/auxiliary/disk/indexed/IndexedDiskCache.java:644-652 | removing a live GroupId with a live group member puts the GroupId's live slot in the bin and breaks the layout |
| DiskCacheScenarios.PrefixSweepOverTwo | src/java/org/apache/jcs/auxiliary/disk/indexed/IndexedDiskCache.java:600-629 | a prefix sweep over [x, p] recycles p's slot twice and empties the index |
| DiskCacheScenarios.NamePrefixRecyclesPrefixSlotTwice | src/java/org/apache/jcs/auxiliary/disk/indexed/IndexedDiskCache.java:595-632 | removing prefix p over keys x and p returns true, empties the index and puts p's slot in the bin twice |
| DiskCacheScenarios.NamePrefixDoubleRecycleBreaksLayout | src/java/org/apache/jcs/auxiliary/disk/indexed/IndexedDiskCache.java:595-632 | that removal never recycles x's slot and breaks the layout |
| DiskCacheScenarios.EndOffsetPassesCheckThenResets | src/java/org/apache/jcs/auxiliary/disk/indexed/IndexedDiskCache.java:250-303 | a descriptor starting at the end of the data file survives start-up; its get fails and resets the cache |
| DiskCacheScenarios.MoveCopiesDeadKey | src/java/org/apache/jcs/auxiliary/disk/indexed/IndexedDiskCache.java:1087-1136 | moveKeyDataToTemp of a key not in the index copies a null record and gives the key a temp slot |
| DiskCacheScenarios.RemovedBeforeCopyComesBackAsNull | src/java/org/apache/jcs/auxiliary/disk/indexed/IndexedDiskCache.java:954-970 | a key removed before the pass reaches it enters the temp index holding null |
| DiskCacheCompaction.PackedAppend | src/java/org/apache/jcs/auxiliary/disk/indexed/IndexedDiskCache.java:1110-1113 | appending a slot at the end keeps the copies back to back |
| DiskCacheCompaction.PackedSameEnd | src/java/org/apache/jcs/auxiliary/disk/indexed/IndexedDiskCache.java:1110-1113 | two packings of the same keys and lengths end at the same offset |
| DiskCacheCompaction.CopiedExtend | src/java/org/apache/jcs/auxiliary/disk/indexed/IndexedDiskCache.java:1087-1136 | appending the copy of one more key keeps the copy faithful and the slots disjoint |
| DiskCacheCompaction.MoveOne | src/java/org/apache/jcs/auxiliary/disk/indexed/IndexedDiskCache.java:1087-1136 | one more successful move extends the faithful copy and leaves the bin alone |
| DiskCacheCompaction.MoveAll | src/java/org/apache/jcs/auxiliary/disk/indexed/IndexedDiskCache.java:1049-1061 | moving all remaining keys with no failed read yields a faithful copy of them all |
| DiskCacheCompaction.NoReadFails | src/java/org/apache/jcs/auxiliary/disk/indexed/IndexedDiskCache.java:505-531 | under a sound layout no live key fails to read |
| DiskCacheCompaction.CompactionCopies | src/java/org/apache/jcs/auxiliary/disk/indexed/IndexedDiskCache.java:1030-1077 | compaction of a sound cache copies every key faithfully |
| DiskCacheCompaction.OptimizeShape | src/java/org/apache/jcs/auxiliary/disk/indexed/IndexedDiskCache.java:1030-1077 | optimizeFile of a sound cache does not fail and ends in tempToPrimary of the copy |
| DiskCacheCompaction.OptimizeFileKeepsReads | src/java/org/apache/jcs/auxiliary/disk/indexed/IndexedDiskCache.java:1030-1077 | optimizeFile keeps the index order and what every key reads |
| DiskCacheCompaction.OptimizeFileCompacts | src/java/org/apache/jcs/auxiliary/disk/indexed/IndexedDiskCache.java:1030-1077 | optimizeFile empties the bin and the temp file, keeps the layout sound, and packs the records back to back at their own lengths |
| DiskCacheCompaction.DisposeCompacts | src/java/org/apache/jcs/auxiliary/disk/indexed/IndexedDiskCache.java:807-862 | dispose keeps every read, leaves the cache dead (every get returns null) and is idempotent |
| DiskCacheCompaction.CompactionIdempotentLength | src/java/org/apache/jcs/auxiliary/disk/indexed/IndexedDiskCache.java:1030-1077 | compacting a compacted file leaves its length unchanged |
| DiskCacheLifecycle.LoadedValid | src/java/org/apache/jcs/auxiliary/disk/indexed/IndexedDiskCache.java:201 | each prefix of a load that fits the index is a valid index |
| DiskCacheLifecycle.LoadStep | src/java/org/apache/jcs/auxiliary/disk/indexed/IndexedDiskCache.java:201 | the next put of a load appends a new key while there is room, and evicts once the index is full |
| DiskCacheLifecycle.PutAllLoads | src/java/org/apache/jcs/auxiliary/disk/indexed/IndexedDiskCache.java:201 | putAll over a HashMap copy keeps its first entries, up to the capacity of the index |
| DiskCacheLifecycle.PermutedCopy | src/java/org/apache/jcs/auxiliary/disk/indexed/IndexedDiskCache.java:325-326 | any reordering of a HashMap copy of a map is still a copy of it: no key twice, each with its value |
| DiskCacheLifecycle.LoadKeepsFirst | src/java/org/apache/jcs/auxiliary/disk/indexed/IndexedDiskCache.java:183-241 | loadKeys keeps the first maxKeySize entries of the key file in the read-back HashMap's order, and drops the rest |
| DiskCacheLifecycle.LoadReordered | src/java/org/apache/jcs/auxiliary/disk/indexed/IndexedDiskCache.java:201 | putting any reordering of an index's entries into an empty index gives back its entries and its set of keys |
| DiskCacheLifecycle.SaveThenLoad | src/java/org/apache/jcs/auxiliary/disk/indexed/IndexedDiskCache.java:183-344 | loadKeys after saveKeys gives back the saved entries and keys; the LRU order is not kept |
| DiskCacheLifecycle.StartupInvariant | src/java/org/apache/jcs/auxiliary/disk/indexed/IndexedDiskCache.java:105-177 | start-up yields a live, consistent cache with no pass running; an empty index comes with an empty file and a sound layout |
| DiskCacheLifecycle.StartupCases | src/java/org/apache/jcs/auxiliary/disk/indexed/IndexedDiskCache.java:133-163 | the three start-up paths: keep, drop on an empty or inconsistent index, or empty the data file when there is no key file |
| DiskCacheLifecycle.ReopenAfterCompaction | src/java/org/apache/jcs/auxiliary/disk/indexed/IndexedDiskCache.java:105-177 | a cache saved by compaction reopens with the same entries, the same keys and the same data file |
| DiskCacheLifecycle.RealTimeStepsKeepInvariant | src/java/org/apache/jcs/auxiliary/disk/indexed/IndexedDiskCache.java:914-1024 | each step of the real-time pass keeps the invariant; the last one clears the flags and the count |
| DiskCacheLifecycle.RunMatchesMoveKeys | src/java/org/apache/jcs/auxiliary/disk/indexed/IndexedDiskCache.java:954-1000 | with no failed copy, the pass ends where moving the remaining keys and finishing leaves it |
| DiskCacheLifecycle.RealTimeMatchesOptimizeFile | src/java/org/apache/jcs/auxiliary/disk/indexed/IndexedDiskCache.java:914-1077 | with no put during the pass, the real-time pass ends where optimizeFile does, with the flags cleared |
| DiskCacheLifecycle.RemovedDuringPassComesBack | src/java/org/apache/jcs/auxiliary/disk/indexed/IndexedDiskCache.java:975-1000 | a key removed after the pass copied it is back in the index after the swap |
| LateralFacade.IndexOf | commons-jcs-core/src/main/java/org/apache/commons/jcs3/auxiliary/lateral/LateralCacheNoWaitFacade.java:150-159 | the position of the first equal element, or -1 exactly when there is none |
| LateralFacade.ContainsNoWait | commons-jcs-core/src/main/java/org/apache/commons/jcs3/auxiliary/lateral/LateralCacheNoWaitFacade.java:95-103 | containsNoWait is true iff some element equals the argument |
| LateralFacade.SpliceOut | commons-jcs-core/src/main/java/org/apache/commons/jcs3/auxiliary/lateral/LateralCacheNoWaitFacade.java:165-176 | the array copies before and after the position: one shorter, same elements shifted past it |
| LateralFacade.Get | commons-jcs-core/src/main/java/org/apache/commons/jcs3/auxiliary/lateral/LateralCacheNoWaitFacade.java:205-218 | get returns null iff every no-wait cache answers null, otherwise the first non-null answer in array order |
| LateralFacade.GetMultiple | commons-jcs-core/src/main/java/org/apache/commons/jcs3/auxiliary/lateral/LateralCacheNoWaitFacade.java:220-245 | as documented: the keys asked for that some cache holds, each with get's answer; empty for a null or empty set |
| LateralFacade.GetMultipleAsWritten | commons-jcs-core/src/main/java/org/apache/commons/jcs3/auxiliary/lateral/LateralCacheNoWaitFacade.java:228-245 | as written: throws iff some key asked for is held by no cache; otherwise the documented map |
| LateralFacade.GetMultipleThrowsOnMissingKey | commons-jcs-core/src/main/java/org/apache/commons/jcs3/auxiliary/lateral/LateralCacheNoWaitFacade.java:232-235 | with no no-wait caches, getMultiple of one key throws where the documented result is the empty map |
| LateralFacade.Statii | commons-jcs-core/src/main/java/org/apache/commons/jcs3/auxiliary/lateral/LateralCacheNoWaitFacade.java:381-383 | the status of each no-wait cache, in array order |
| LateralFacade.StatusPrecedence | commons-jcs-core/src/main/java/org/apache/commons/jcs3/auxiliary/lateral/LateralCacheNoWaitFacade.java:369-399 | getStatus is ALIVE, ERROR or DISPOSED exactly under the documented precedence (disposed, empty or listener, any alive, any in error) |
| LateralFacade.AddThenRemove | commons-jcs-core/src/main/java/org/apache/commons/jcs3/auxiliary/lateral/LateralCacheNoWaitFacade.java:111-179 | adding an absent no-wait cache and then removing it gives back the array |
| LateralFacade.SpliceOutKeepsDistinct | commons-jcs-core/src/main/java/org/apache/commons/jcs3/auxiliary/lateral/LateralCacheNoWaitFacade.java:144-179 | removal keeps a duplicate-free array duplicate-free and drops the element |
| LateralFacade.AppendKeepsDistinct | commons-jcs-core/src/main/java/org/apache/commons/jcs3/auxiliary/lateral/LateralCacheNoWaitFacade.java:111-136 | appending an absent element keeps the array duplicate-free |
| LateralFacade.NoWaitFacade.constructor | commons-jcs-core/src/main/java/org/apache/commons/jcs3/auxiliary/lateral/LateralCacheNoWaitFacade.java:80-87 | the facade holds the given listener, array and cache name and is not disposed |
| LateralFacade.NoWaitFacade.AddNoWait | commons-jcs-core/src/main/java/org/apache/commons/jcs3/auxiliary/lateral/LateralCacheNoWaitFacade.java:111-136 | addNoWait appends iff the argument is non-null and absent, returns whether it did, and keeps the array duplicate-free |
| LateralFacade.NoWaitFacade.RemoveNoWait | commons-jcs-core/src/main/java/org/apache/commons/jcs3/auxiliary/lateral/LateralCacheNoWaitFacade.java:144-179 | removeNoWait splices out the first equal element iff there is one, returns whether it did, and leaves the array otherwise |
| LateralFacade.NoWaitFacade.Dispose | commons-jcs-core/src/main/java/org/apache/commons/jcs3/auxiliary/lateral/LateralCacheNoWaitFacade.java:312-328 | dispose drops the listener and sets disposed, so getStatus is DISPOSED whatever the no-wait caches report |
| RemoteServerAttributes.RemoteTypeName | src/java/org/apache/jcs/auxiliary/remote/server/RemoteCacheServerAttributes.java:102-113 | the name is CLUSTER iff the type is CLUSTER, and LOCAL for every other type |
| RemoteServerAttributes.RemoteTypeOfName | src/java/org/apache/jcs/auxiliary/remote/server/RemoteCacheServerAttributes.java:120-130 | LOCAL and CLUSTER set their type; any other name leaves the type as it was |
| RemoteServerAttributes.NameRoundTrip | src/java/org/apache/jcs/auxiliary/remote/server/RemoteCacheServerAttributes.java:102-130 | setting LOCAL or CLUSTER by name and reading the name back gives that name |
| RemoteServerAttributes.TypeRoundTrip | src/java/org/apache/jcs/auxiliary/remote/server/RemoteCacheServerAttributes.java:102-130 | setting the name read back keeps LOCAL or CLUSTER and turns any other type into LOCAL |
| RemoteServerAttributes.RemoteCacheServerAttributes.constructor | src/java/org/apache/jcs/auxiliary/remote/server/RemoteCacheServerAttributes.java:34-95 | a fresh bean holds every field default, and its type name is LOCAL |
| RemoteServerAttributes.RemoteCacheServerAttributes.GetRemoteTypeName | src/java/org/apache/jcs/auxiliary/remote/server/RemoteCacheServerAttributes.java:102-113 | getRemoteTypeName is CLUSTER iff the type is CLUSTER, else LOCAL |
| RemoteServerAttributes.RemoteCacheServerAttributes.SetRemoteTypeName | src/java/org/apache/jcs/auxiliary/remote/server/RemoteCacheServerAttributes.java:120-130 | setRemoteTypeName changes only the type, as the name says, and a recognised name reads back |
| RemoteServerAttributes.RemoteCacheServerAttributes.SetRemoteType | src/java/org/apache/jcs/auxiliary/remote/server/RemoteCacheServerAttributes.java:137-150 | getRemoteType returns what setRemoteType set |
| RemoteServerAttributes.RemoteCacheServerAttributes.GetLocalClusterConsistency | src/java/org/apache/jcs/auxiliary/remote/server/RemoteCacheServerAttributes.java:315-328 | getLocalClusterConsistency and isLocalClusterConsistency agree |
| RemoteServerAttributes.RemoteCacheServerAttributes.SetLocalClusterConsistency | src/java/org/apache/jcs/auxiliary/remote/server/RemoteCacheServerAttributes.java:315-338 | both getters return what was set |
| RemoteServerAttributes.RemoteCacheServerAttributes.GetAllowClusterGet | src/java/org/apache/jcs/auxiliary/remote/server/RemoteCacheServerAttributes.java:345-358 | getAllowClusterGet and isAllowClusterGet agree |
| RemoteServerAttributes.RemoteCacheServerAttributes.SetAllowClusterGet | src/java/org/apache/jcs/auxiliary/remote/server/RemoteCacheServerAttributes.java:345-368 | both getters return what was set |
| JCacheEviction.Evictions | commons-jcs-jcache/src/main/java/org/apache/commons/jcs3/jcache/EvictionListener.java:34-45 | a run over n events records at most n evictions |
| JCacheEviction.EvictionsAppend | commons-jcs-jcache/src/main/java/org/apache/commons/jcs3/jcache/EvictionListener.java:34-45 | the evictions of two runs in a row add up |
| JCacheEviction.EvictionsCountExpiries | commons-jcs-jcache/src/main/java/org/apache/commons/jcs3/jcache/EvictionListener.java:36-44 | the evictions of a run are the number of its events of the four expiry kinds |
| JCacheEviction.Statistics.constructor | commons-jcs-jcache/src/main/java/org/apache/commons/jcs3/jcache/EvictionListener.java:27 | fresh statistics count no evictions |
| JCacheEviction.Statistics.IncreaseEvictions | commons-jcs-jcache/src/main/java/org/apache/commons/jcs3/jcache/EvictionListener.java:42 | increaseEvictions(n) adds n to the count |
| JCacheEviction.EvictionListener.constructor | commons-jcs-jcache/src/main/java/org/apache/commons/jcs3/jcache/EvictionListener.java:29-32 | the listener keeps the statistics it is given |
| JCacheEviction.EvictionListener.HandleElementEvent | commons-jcs-jcache/src/main/java/org/apache/commons/jcs3/jcache/EvictionListener.java:34-45 | one eviction for an expiry event, nothing for any other event |

## Findings

| source | as written | input that shows it | evidently intended | confidence | as-written member | corrected member |
|---|---|---|---|---|---|---|
| commons-jcs-core/src/main/java/org/apache/commons/jcs3/auxiliary/lateral/LateralCacheNoWaitFacade.java:232-235 | the first `Collectors.toMap` collects `get(key)` for every key, and `toMap` throws NullPointerException on a null value before the null filter runs | a facade with no no-wait caches and `getMultiple({k})` | the map of the keys found; the empty map when none is found, as the method's comment says | high (not executed) | LateralFacade.GetMultipleAsWritten, LateralFacade.GetMultipleThrowsOnMissingKey | LateralFacade.GetMultiple |

## Left out

- Locking: the storage read/write lock, the synchronized methods, the
  optimisation thread, doDispose's 60-second join, and the
  ConcurrentModificationException path of doUpdate. The model is
  sequential: each operation is atomic, and the steps of the real-time pass
  are separate operations.
- Real files. Serialization, RandomAccessFile, and closing, deleting and
  renaming files are not modelled. A file is a map from offset to record
  plus a length. An I/O failure is a read that finds no record starting at
  the offset. The serializer is the `encodedLength` parameter.
- Logging, `dump`, `getStats`, `getStatistics`, `timesOptimized`, the temp
  index `tag`, and the timing of optimizeRealTime.
- `doRecycle` is always true, which is how the cache is built.
- `NAME_COMPONENT_DELIMITER` is taken to be ":".
- LRUMapJCS and SortedPreferentialArray are not part of this model. The
  index evicts the least recently put key, and a get does not reorder it.
  Iteration follows that order; the key file does not, since it holds a
  HashMap copy (see `Config.hashOrder`). The recycle
  bin is unbounded, and a take returns the first descriptor long enough,
  which in a length-ordered bin is a best fit.
- DiskCacheSpec.LoadKeys: loadKeys runs before the recycle bin exists, so the
  first eviction of a reload calls add on a null bin. The model takes the
  NullPointerException to leave putAll and end the load, which keeps the
  first maxKeySize entries in the read-back order (`LoadKeepsFirst`). Whether
  LRUMapJCS has already stored the entry whose put evicted, or catches the
  exception itself, is not part of this model; the model keeps the index as
  it was before that put. `SaveThenLoad` shows that no eviction happens when
  the key file was written with the same maxKeySize.
- Exceptions of the engine other than the failed read (in doGet and
  moveKeyDataToTemp) are not modelled.
- `optCnt`, `recycleCnt` and file offsets are unbounded integers; int
  wrap-around is not modelled.
- DiskCacheEngine.IndexedDiskCache.OptimizeRealTime: it runs the pass with
  no other operation in between. Interleaving is covered by the step
  methods and by `RemovedDuringPassComesBack`.
- The facade's forwarding operations (update, remove, removeAll,
  getMatching, getKeySet, forwarding dispose to the no-wait caches and the
  listener) and its constants (getSize, getCacheType, getCacheName,
  getStats, getStatistics, toString, getAuxiliaryCacheAttributes,
  getEventLoggingExtraInfo). The no-wait caches are opaque values. Their get
  and getStatus answers are function parameters.
- RemoteServerAttributes: the values of LOCAL and CLUSTER are not part of
  this model; 0 and 1 are used, and any two distinct ints would do.
  REMOTE_CACHE_SERVICE_VAL is a constructor parameter.
- RemoteServerAttributes: `copy`, `toString` and the plain field
  getters/setters are not modelled. Those accessors read and write a single
  field and are modelled as field reads and writes.
- LateralFacade.ContainsNoWait: a null argument, which throws
  NullPointerException on a non-empty array and gives false on an empty one,
  is not modelled; the no-wait caches are never null here.
- RemoteServerAttributes.RemoteCacheServerAttributes.SetRemoteTypeName: a
  null name, which throws NullPointerException, is not modelled.
- JCacheEviction: the ElementEventType enum and the Statistics class are not
  part of this model. The seven event kinds are taken from the cache
  engine's element events. Only the eviction counter of `Statistics` is
  modelled.
