# DynamicEmb store: a verified model

A Dafny model of the two-level embedding store in `corelib/dynamicemb` and of three smaller algorithms of the
same repository, with proofs about whole runs.

DynamicEmb keeps embedding rows in a GPU cache in front of a backing store. Batches are prefetched ahead of time,
their slots are pinned by reference counters, rows are read at forward and updated in place at backward, evicted rows
are written back, and the cache is flushed before a dump. `HybridStorage` splits the keys over an HBM tier and a host
tier instead. Both have to behave like one plain map from (table, key) to row. The project states that plain store
(`PlainStore`), models the implementations with their arrays, index lists and mutable fields, and proves that every
run of either is a run of the plain store, and that pipelining is invisible there.

Files, bottom up: `Common` (index-tensor operations), `PlainStore`, `AdmissionHistory` and `RowHistory` (the specification
and what it means over runs), `HashTable` (slots, scores, counters, rows), `Rejection` (when an insertion rejects a key),
`BackingStore` and `RowDiscipline` (the backing tier and its NO_EVICTION rows), `TwoLevel`, `Admission`, `CachePath`,
`Room` (schedules that are certain to complete), `FlushEval`, `Pipeline` (cache mode), `CounterLayout` and `Pins` (where
pins live and when eviction sees them), `FailingRuns` (runs that go wrong), `Hybrid` and `GenericPath` (two
tiers without prefetching), `Expansion`, `SizeEstimate`, `RowBounds` (growing tables), `Checkpoint` (dump and load),
`SweepLine` (profiler attribution), `IntervalSplit` (KuaiRand intervals), `SplitHeuristic` (decode attention splits).

What the model takes as given: a key's home slots are any function of the key (`Layout`), and so is the hash code
(`Pins`), the slot the backing hash table picks for a new key is any free one (`Mode.place`), the initialiser, the
embedding columns and the optimizer update are arbitrary functions, gradients are arbitrary functions of the outputs so
far, scores are any functions of the key, another one at every step, and uninitialised output rows hold arbitrary
content (`junk`). The backing tier and the admission counter do not evict.

Where the code does not meet what its documentation says, or meets it only under a condition:

- Cache prefetch writes back uninitialised rows for keys the cache rejected (`select_insert_failed_values` is called by
  `HybridStorage.insert` but not there). `FailingRuns.KeyRejected` is, for every group of which one table has buckets,
  a run from an empty cache in which this happens without an error. Prefetch is exact if and only if every overflow
  region has room for the keys its buckets have no room for, counted before the insertion (`CachePath.ExactIffFits`);
  a schedule without that trouble can be told from the keys in flight (`Room.RoomServes`).
- Pins are written at an index with the table's bucket offset and checked by eviction at one without it.
  `FailingRuns.PinnedSlotEvicted` is, for every group with buckets before a table with buckets, a run from an empty
  cache in which a pinned slot is evicted and forward returns another key's row. Pinned slots are safe if and only if
  at most one table of the group has buckets (`Pins.CodePinsKeptIff`); the cache-mode theorems are stated for caches in
  which eviction sees the pins, and `Pipeline.CodeCanRun` says which of the kernels' layouts these are. The caches of
  the code, with an overflow region three buckets long, are among the counters of these theorems.
- NO_EVICTION rows stay inside the value buffer if and only if every step's total is at most twice the index capacity
  less the initial rows (`RowBounds.RunStaysInsideIff`, `RowBounds.LargeBatchOverruns`).
- Under NO_EVICTION, inserting with `preserve_existing` a key that is absent maps it to row 0
  (`BackingStore.DisciplineNeedsMembership`); callers split by membership first.
- The lazy size estimate misses an expansion after a flush that adds keys uncounted (`SizeEstimate.ExpansionMissed` is
  such a run). A check is exact whatever keys it counts if and only if its estimates were just collected or are safe
  table by table (`SizeEstimate.AlwaysExactIff`), and a run is exact if and only if all its checks are
  (`SizeEstimate.LazyRunExactIff`).
- The documentation of `_expand_tables_impl` describes loading and storing batch by batch; the code loads all batches
  of a table first, which is what makes it correct (`Expansion.LoadFirstExactIff`, `Expansion.OneByOneLosesRows`).
- The documentation of `get_insert_score_arg` says that a backward refresh does not overwrite scores, but
  `HybridStorage.insert` looks the keys up with the training policy first, so a refresh adds one to the score of every
  HBM key of an LFU table and assigns a customized one anew; the scores are kept exactly in the cases of
  `Hybrid.ScoresKeptIff`.
- The documentation of `max_load_factor` says that NO_EVICTION ignores it; `get_expand_info` uses it, and so
  does the model.

## Model

| member | source | states |
|---|---|---|
| `PlainStore.Swap` | corelib/dynamicemb/dynamicemb/batched_dynamicemb_function.py:298-556 | A prefetch commutes with any forward, backward or flush that was already possible: same rows, counters, tickets, outputs |
| `PlainStore.PrefetchesFirst` | corelib/dynamicemb/dynamicemb/batched_dynamicemb_tables.py:1060-1136 | Every legal run equals the run that issues all its prefetches first and keeps the order of the forwards and backwards |
| `PlainStore.PipeliningTransparent` | corelib/dynamicemb/dynamicemb/batched_dynamicemb_tables.py:1060-1136 | Two legal runs with the same prefetches and the same forwards and backwards end in the same state with the same outputs, wherever the prefetches sit; gradients may depend on all outputs so far |
| `PlainStore.PipelinedEqualsSequential` | corelib/dynamicemb/dynamicemb/batched_dynamicemb_tables.py:1060-1136 | A pipelined run, with flushes anywhere in it, equals the run that does prefetch, forward, backward one batch at a time |
| `AdmissionHistory.KeyStateStep` | corelib/dynamicemb/dynamicemb/batched_dynamicemb_function.py:377-411 | One prefetch keeps the relation between a key's total presented frequency, its counter and its being stored |
| `AdmissionHistory.StoredExactlyAtThreshold` | corelib/dynamicemb/dynamicemb/batched_dynamicemb_function.py:377-411 | Over every run, a key is stored iff its total presented frequency has reached the threshold; otherwise its counter is that total; never both |
| `AdmissionHistory.EntersAtFirstCrossing` | corelib/dynamicemb/dynamicemb/embedding_admission.py:132-159 | A prefetch stores a key iff the key is in the batch and the batch lifts its total from below the threshold to the threshold |
| `RowHistory.RowIsHistory` | corelib/dynamicemb/dynamicemb/batched_dynamicemb_function.py:1194-1265 | Over every run, the row of a stored key is its initial row updated with the gradients of the batches that had it, in order |
| `RowHistory.UpdatedOncePerBatch` | corelib/dynamicemb/dynamicemb/batched_dynamicemb_function.py:1194-1265 | Over every run, every batch that has a stored key updates it exactly once or still owes the update: updates made and owed are the batches prefetched, none is lost and none is made twice |
| `RowHistory.KeptAtThreshold` | corelib/dynamicemb/dynamicemb/batched_dynamicemb_function.py:377-411 | From the empty store, the batches that update a key are those that present it when its total frequency has reached the threshold |
| `RowHistory.OutputIsHistory` | corelib/dynamicemb/dynamicemb/batched_dynamicemb_function.py:1073-1100 | Over every run, what forward returns for a key is the embedding of its initial row updated with the gradients it has received so far, whether the key is stored or not, however far ahead its batch was prefetched |
| `HashTable.Table.Find` | corelib/dynamicemb/dynamicemb/scored_hashtable.py:736-764 | Bucket then overflow search returns the one slot that holds the key, -1 iff the key is absent |
| `HashTable.Table.Lookup` | corelib/dynamicemb/dynamicemb/types.py:290-297 | Slots of a batch, -1 for absent keys; the score words of the hits are changed one after the other, nothing else changes |
| `HashTable.ScoredIs` | corelib/dynamicemb/dynamicemb/key_value_table.py:811-866 | For different slots the score of a hit is kept, replaced or added to, as the policy says, and no other score changes |
| `HashTable.Table.ScanBucket` | corelib/dynamicemb/dynamicemb/dynamicemb_config.py:410-414 | The victim is an unpinned slot of least score in the bucket; none only if no slot is evictable |
| `HashTable.Table.ScanOverflow` | corelib/dynamicemb/src/table_operation/kernels.cuh:743-800 | An overflow slot that is empty or evictable; none only if all are occupied and pinned or taken |
| `HashTable.Table.ChooseSlot` | corelib/dynamicemb/src/table_operation/kernels.cuh:443-491 | An empty bucket slot, else the evictable bucket slot of least score, else an overflow slot, which is used only if no bucket slot is empty or evictable; none only if no home slot is |
| `HashTable.Table.InsertOne` | corelib/dynamicemb/src/table_operation/kernels.cuh:226-287 | One insert changes one slot and its score, displaces only a resident that eviction sees as unpinned, and chooses the slot in the order of `ChosenAt`: empty or least-score bucket slot, overflow only from an exhausted bucket, rejection only if both ranges are exhausted |
| `HashTable.Table.InsertAndEvict` | corelib/dynamicemb/dynamicemb/scored_hashtable.py:765-826 | A batch goes to distinct slots that were empty or unpinned as eviction sees it; a displaced bucket resident had the smallest evictable score of its full bucket; overflow and rejection only from exhausted ranges; the report lists exactly the displaced residents and the rejected inputs, each once; exactly the placed slots get the given scores |
| `HashTable.ReportIsReport` | corelib/dynamicemb/src/table_operation/kernels.cuh:517-560 | The report built key by key is exact: no displaced resident or rejected input is left out, none is listed twice |
| `HashTable.Table.UpdateCounter` | corelib/dynamicemb/dynamicemb/scored_hashtable.py:668-734 | For slots without repetition exactly their counters change by the delta; -1 is skipped |
| `Rejection.BucketSpill` | corelib/dynamicemb/dynamicemb/scored_hashtable.py:765-826 | Of the batch keys of a bucket, exactly those beyond its usable slots spill |
| `Rejection.RejectedIff` | corelib/dynamicemb/src/table_operation/kernels.cuh:443-485 | A key is rejected if and only if its bucket has no room left after the earlier keys of the batch, and neither has its overflow region after the earlier keys that spilled |
| `Rejection.NoneRejectedIff` | corelib/dynamicemb/dynamicemb/scored_hashtable.py:765-826 | An insertion rejects nothing if and only if, on the slots and counters before the call, every overflow region has room for the keys its buckets have no room for |
| `HashTable.Table.LoadFromFlat` | corelib/dynamicemb/dynamicemb/key_value_table.py:716-741 | Rows of the slots; where the slot is -1 the output row keeps its uninitialised content |
| `HashTable.Table.StoreToFlat` | corelib/dynamicemb/dynamicemb/key_value_table.py:744-761 | Exactly the rows of the given slots are overwritten; -1 is skipped |
| `BackingStore.InsertKeepsDiscipline` | corelib/dynamicemb/dynamicemb/key_value_table.py:1000-1029 | An insert whose `preserve` flag agrees with membership keeps rows distinct and, under NO_EVICTION, below the next index; no assigned row moves; the map changes at that key only |
| `BackingStore.DisciplineNeedsMembership` | corelib/dynamicemb/dynamicemb/key_value_table.py:867-925 | Under NO_EVICTION one insert keeps the row discipline if and only if `preserve` agrees with membership (an absent key inserted with `preserve` lands on row 0, a present one without it moves) |
| `BackingStore.InsertAllMerges` | corelib/dynamicemb/dynamicemb/key_value_table.py:1000-1029 | A batch insert is one write of the batch into the stored map and moves no row |
| `BackingStore.WriteBackMerges` | corelib/dynamicemb/dynamicemb/batched_dynamicemb_function.py:483-537 | Splitting evicted keys by membership before inserting is one write of the whole batch into the stored map, with every row in place |
| `BackingStore.OneSided` | corelib/dynamicemb/dynamicemb/batched_dynamicemb_function.py:501-517 | When all keys, or none, are present the split is a single insert |
| `BackingStore.Storage.Find` | corelib/dynamicemb/dynamicemb/key_value_table.py:928-997 | Flags say membership; values are the stored rows at every position, missing ones left as they were |
| `BackingStore.Storage.Insert` | corelib/dynamicemb/dynamicemb/key_value_table.py:1000-1029 | The new index, next indices and buffer are those of inserting the keys one after the other |
| `BackingStore.Storage.StoreRows` | corelib/dynamicemb/dynamicemb/key_value_table.py:744-761 | Overwrites the rows of stored keys: no key moves, the map is the old one with the batch written over it |
| `BackingStore.Storage.WriteBackEntries` | corelib/dynamicemb/dynamicemb/batched_dynamicemb_function.py:483-537 | Write-back keeps the discipline, moves no row and writes exactly the batch into the stored map |
| `RowDiscipline.RehashKeeps` | corelib/dynamicemb/dynamicemb/key_value_table.py:505-556 | Growing with any export order and any placement keeps the stored map; under NO_EVICTION, where the exported scores are inserted again, every row is what it was |
| `RowDiscipline.RunKeepsDiscipline` | corelib/dynamicemb/dynamicemb/key_value_table.py:867-925 | Over every run of lookups, inserts of missing keys, refreshes, write-backs, flushes and expansions the discipline holds, under NO_EVICTION no assigned row ever changes, and the stored map is the plain map after the same writes |
| `RowDiscipline.DisciplineMeans` | corelib/dynamicemb/dynamicemb/key_value_table.py:674-713 | Under NO_EVICTION distinct keys of a table have distinct rows, and the rows of a table are exactly those below its next index |
| `TwoLevel.AfterResidents` | corelib/dynamicemb/dynamicemb/batched_dynamicemb_function.py:431-439 | After an insert every key is in at most one slot |
| `TwoLevel.OtherKeyKept` | corelib/dynamicemb/dynamicemb/batched_dynamicemb_function.py:441-537 | A key that is not inserted keeps its value in the combined map, displaced or not, over any stale slow copy |
| `TwoLevel.EvictInsertMerges` | corelib/dynamicemb/dynamicemb/batched_dynamicemb_function.py:430-556 | One insert-with-eviction is one write of the batch into the combined map if and only if every rejected key is written back with its own value |
| `TwoLevel.RejectsSpoil` | corelib/dynamicemb/dynamicemb/batched_dynamicemb_function.py:441-545 | With uninitialised rows written back for rejected keys, exactly these keys have the content of an uninitialised row and every other key has its value |
| `TwoLevel.ReportWrittenBack` | corelib/dynamicemb/dynamicemb/key_value_table.py:2375-2403 | What is written to the slow level is exactly the keys whose slot was given away, with the row they had there, and the rejected inputs; no other key of the slow level changes |
| `Admission.Counter.Add` | corelib/dynamicemb/dynamicemb/embedding_admission.py:83-92 | New totals are old count plus frequency, and exactly these entries are written |
| `Admission.PresentNew` | corelib/dynamicemb/dynamicemb/batched_dynamicemb_function.py:385-405 | A new key is admitted iff count plus frequency reaches the threshold; admitted keys leave the counter, others keep their total, no other entry changes |
| `Admission.AdmitMissing` | corelib/dynamicemb/dynamicemb/batched_dynamicemb_function.py:377-414 | Which missing keys are inserted: those found in storage and the admitted new ones; everything when there is no strategy |
| `CachePath.PinHits` | corelib/dynamicemb/dynamicemb/batched_dynamicemb_function.py:328-342 | Hits are the slots of the keys, exactly these counters go up by one, and exactly these scores are kept, replaced or added to |
| `CachePath.NewKeys` | corelib/dynamicemb/dynamicemb/batched_dynamicemb_function.py:361-386 | The keys selected by the two compactions are the batch keys stored nowhere, with their frequencies |
| `CachePath.ComposedPositions` | corelib/dynamicemb/dynamicemb/batched_dynamicemb_function.py:418-421 | Composing the compactions gives the positions of the kept misses in input order, and the complement exactly the keys that are not kept |
| `CachePath.StoreInserted` | corelib/dynamicemb/dynamicemb/batched_dynamicemb_function.py:447-481 | Two stores, one per kind of inserted row, are one store of all inserted rows |
| `CachePath.InsertWithWriteBack` | corelib/dynamicemb/dynamicemb/batched_dynamicemb_function.py:431-545 | Insert, save, store and write back amount to one write into the combined map, although new keys reuse evicted slots, but for the rejected keys, which get uninitialised rows; storage takes exactly the displaced and the rejected keys, and no row moves there; the inserted slots get the scores |
| `CachePath.DecideInserts` | corelib/dynamicemb/dynamicemb/batched_dynamicemb_function.py:359-421 | The kept misses, with storage row or initial value, make the combined map that of the plain prefetch; the counter is that of the plain prefetch |
| `CachePath.PinnedNotPlaced` | corelib/dynamicemb/dynamicemb/batched_dynamicemb_function.py:339-342 | Where eviction sees the pins, a pinned or just hit slot is never given to another key |
| `CachePath.AssembledPins` | corelib/dynamicemb/dynamicemb/batched_dynamicemb_function.py:544-554 | Pinning hits and inserted slots separately pins each slot of the batch exactly once |
| `CachePath.PrefetchedHonest` | corelib/dynamicemb/dynamicemb/batched_dynamicemb_function.py:339-342 | Where eviction looks at the counters that pinning writes, a prefetch pins exactly its slots, the slots name the kept keys, and pinned slots keep their key |
| `Room.NoRoomLeft` | corelib/dynamicemb/dynamicemb/scored_hashtable.py:765-826 | A key without a slot has as many other keys in flight in its bucket, and in its overflow region, as these have slots |
| `Room.RoomServes` | corelib/dynamicemb/dynamicemb/batched_dynamicemb_function.py:431-439 | A prefetch after which no bucket has more keys in flight than slots, or no region more than its slots and a bucket's, serves every kept key |
| `CachePath.PrefetchCachePath` | corelib/dynamicemb/dynamicemb/batched_dynamicemb_function.py:298-556 | One prefetch keeps every old key's value and adds exactly the admitted new keys with their initial value, but for the kept keys without a slot, which are spoiled; there are none if and only if the batch fits, counted before the call after its hits are pinned; slots, keys and counters are those of the lookup and the insertion; slots are taken by least score with the hits counted in, scores change for the batch only, and storage takes exactly the displaced and the rejected keys |
| `CachePath.ExactIffFits` | corelib/dynamicemb/dynamicemb/batched_dynamicemb_function.py:441-545 | The write-back is exact for every content of the uninitialised output rows if and only if, counted before the insertion, every overflow region has room for the keys its buckets have no room for |
| `FlushEval.ExportRange` | corelib/dynamicemb/dynamicemb/scored_hashtable.py:952-1081 | Exactly the occupied slots of the range, each key once, with its row |
| `FlushEval.FlushPiece` | corelib/dynamicemb/dynamicemb/key_value_table.py:2783-2834 | Batch by batch, storage holds the cache rows of the slots done so far and is otherwise unchanged; no row moves |
| `FlushEval.FlushCache` | corelib/dynamicemb/dynamicemb/key_value_table.py:2776-2834 | After the flush, piece by piece over buckets and overflow regions, storage alone is the combined map, the combined map is unchanged, and no row moved |
| `FlushEval.FlushTwice` | corelib/dynamicemb/dynamicemb/key_value_table.py:2776-2834 | A second flush changes no value and moves no row |
| `FlushEval.EvalLookupStorage` | corelib/dynamicemb/dynamicemb/key_value_table.py:2844-2868 | The stored embedding, or the initialiser for absent keys, at every position |
| `FlushEval.EvalLookupCached` | corelib/dynamicemb/dynamicemb/key_value_table.py:2871-2912 | Cache first, storage for the misses: the answer of the combined map at every position, duplicates included; no score changes |
| `FlushEval.EvalAroundFlush` | corelib/dynamicemb/dynamicemb/key_value_table.py:2915-2949 | Evaluation through cache and storage equals evaluation on the flushed storage alone, for every key list, and neither changes a score |
| `Pipeline.BatchedTables.constructor` | corelib/dynamicemb/dynamicemb/batched_dynamicemb_tables.py:622-626 | Starts as the empty plain store with all counters zero |
| `Pipeline.BatchedTables.Prefetch` | corelib/dynamicemb/dynamicemb/batched_dynamicemb_function.py:768-795 | Where eviction sees the pins: keeps in every state that each slot's counter is the number of unfinished batches using it and that their slots hold their keys; refines the plain prefetch when nothing is rejected, which is so if and only if the batch fits, and certainly if it has room; raises iff outstanding keys exceed the capacity; the two levels and the scores move as `CachePath.Moved` says |
| `Pipeline.BatchedTables.Forward` | corelib/dynamicemb/dynamicemb/batched_dynamicemb_function.py:1073-1098 | Takes the oldest batch and reads the rows of its pinned slots as they are now: the plain forward |
| `Pipeline.BatchedTables.Backward` | corelib/dynamicemb/dynamicemb/batched_dynamicemb_function.py:1233-1259 | In-place update and unpin of any forwarded batch: the plain backward, and the counter invariant again |
| `Pipeline.BatchedTables.FlushNow` | corelib/dynamicemb/dynamicemb/key_value_table.py:2776-2834 | Flushing with batches in flight changes nothing observable; storage alone then holds the map |
| `Pipeline.BatchedTables.ForwardBatch` | corelib/dynamicemb/dynamicemb/batched_dynamicemb_tables.py:1055-1075 | A batch nobody prefetched is prefetched first |
| `Pipeline.BatchedTables.RunEvent` | corelib/dynamicemb/dynamicemb/batched_dynamicemb_tables.py:1060-1136 | One event succeeds if and only if it is possible and, for a prefetch, does not exceed the limit and fits; then it is the plain step |
| `Pipeline.BatchedTables.RunSchedule` | corelib/dynamicemb/dynamicemb/batched_dynamicemb_tables.py:1060-1136 | Where eviction sees the pins, every completed run of the cache implementation is the run of the plain store; a run that stops names the event, and the plain state before it, at which the step is impossible, raises, or is a prefetch of a batch that does not fit; a schedule with room for the keys in flight at each prefetch completes |
| `Pipeline.CodeCanRun` | corelib/dynamicemb/src/table_operation/kernels.cuh:448-456 | The kernels' layout of a group of tables meets what the run theorems ask if and only if at most one table of the group has buckets |
| `Pipeline.PipelinedAndSequential` | corelib/dynamicemb/dynamicemb/batched_dynamicemb_tables.py:1060-1136 | Two implementations, of any cache size and storage mode, with any scores at any time, one pipelined with flushes anywhere and one not, with room for their schedules, complete and agree on all outputs, rows and counters |
| `Pipeline.HoldsSurvives` | corelib/dynamicemb/dynamicemb/batched_dynamicemb_function.py:339-342 | Slots in use keep their keys through any insertion that keeps pinned slots |
| `Pipeline.UpdateMatches` | corelib/dynamicemb/dynamicemb/batched_dynamicemb_function.py:1239-1251 | Updating the slots of a batch in place updates exactly its stored keys in the combined map |
| `Pipeline.ReadRows` | corelib/dynamicemb/dynamicemb/batched_dynamicemb_function.py:1073-1098 | Rows of the slots as they are now; where the slots hold their keys, the output of the plain store, with the initialiser for keys that were not admitted |
| `Hybrid.SelectInsertFailed` | corelib/dynamicemb/src/dynamic_emb_op.cu:721-743 | Reported rows of rejected inputs are replaced by the inputs' own rows, others are untouched |
| `Hybrid.MissingInBoth` | corelib/dynamicemb/dynamicemb/key_value_table.py:2271-2272 | The composed compactions are the positions found in neither tier, in input order, with their keys |
| `Hybrid.MergeAnswers` | corelib/dynamicemb/dynamicemb/key_value_table.py:2257-2301 | Merged flags and values are those of one lookup in the union map |
| `Hybrid.DisjointAfter` | corelib/dynamicemb/dynamicemb/key_value_table.py:2375-2403 | An insert keeps the tiers disjoint if and only if no key it placed in HBM was stored in host |
| `Hybrid.HybridStorage.constructor` | corelib/dynamicemb/dynamicemb/key_value_table.py:2110-2119 | Two empty tiers |
| `Hybrid.HybridStorage.Find` | corelib/dynamicemb/dynamicemb/key_value_table.py:2186-2301 | Equals one lookup in the union map: flags, values, and missing lists in input order; only the scores of the HBM hits change |
| `Hybrid.HybridStorage.Insert` | corelib/dynamicemb/dynamicemb/key_value_table.py:2375-2403 | The keys go to HBM, to slots chosen by least score, with their scores; host takes exactly the displaced residents with their rows and the rejected inputs; the union changes by exactly the inserted entries; the tiers stay disjoint when host does not store the inserted keys |
| `Hybrid.HybridStorage.Refresh` | corelib/dynamicemb/dynamicemb/key_value_table.py:2323-2373 | Present keys take the new rows wherever they are, absent keys are ignored, no key set changes; the scores of the HBM hits change as by a lookup |
| `Hybrid.ScoresKeptIff` | corelib/dynamicemb/dynamicemb/key_value_table.py:2326-2335 | A refresh leaves the scores as they are if and only if the policy is to keep them, or what it gives for every hit is the score itself or, added, nothing |
| `GenericPath.ApplyAdmission` | corelib/dynamicemb/dynamicemb/batched_dynamicemb_function.py:206-295 | As in cache mode; without a strategy every missing key is inserted |
| `GenericPath.GenericForward` | corelib/dynamicemb/dynamicemb/batched_dynamicemb_function.py:935-1039 | The union becomes that of the plain prefetch, the persisted positions are exactly the kept keys, and the copied rows are the stored ones; the admitted keys go to HBM, by least score with the lookup counted in, and host takes exactly the displaced and the rejected keys |
| `GenericPath.GenericBackward` | corelib/dynamicemb/dynamicemb/batched_dynamicemb_function.py:1261-1298 | The update is applied to exactly the persisted keys; no other key and no key set changes |
| `GenericPath.TrainStep` | corelib/dynamicemb/dynamicemb/batched_dynamicemb_function.py:963-1039 | A forward and its backward do what the plain store does for the batch, even when forward moved a hit key to host, and the outputs agree on the kept keys; the loss may depend on all outputs but those of keys that were not admitted |
| `GenericPath.AllKeptBlind` | corelib/dynamicemb/dynamicemb/batched_dynamicemb_function.py:935-1039 | Where every key is kept, as without an admission strategy, the loss may depend on all outputs |
| `GenericPath.Train` | corelib/dynamicemb/dynamicemb/batched_dynamicemb_function.py:935-1039 | Every training run ends with the rows and counters of the plain run that finishes each batch before the next, and its outputs are the plain ones on the kept keys |
| `GenericPath.TrainedIsSequential` | corelib/dynamicemb/dynamicemb/batched_dynamicemb_function.py:935-1039 | Training batch after batch is the plain run of the schedule without pipelining |
| `Expansion.LoadFirstExactIff` | corelib/dynamicemb/dynamicemb/key_value_table.py:548-553 | Loading all rows before storing any carries every row over, whatever the buffer holds and however rows overlap, if and only if the rehash gives every key a slot of its own |
| `Expansion.OneByOneLosesRows` | corelib/dynamicemb/dynamicemb/key_value_table.py:454-457 | Moving entry by entry instead loses a row when two keys swap rows |
| `Expansion.LoadAll` | corelib/dynamicemb/dynamicemb/key_value_table.py:505-550 | The loaded batches together are the rows of all exported slots |
| `Expansion.StoreBatches` | corelib/dynamicemb/dynamicemb/key_value_table.py:552-553 | Storing the batches in turn is one store of all of them |
| `Expansion.GrowingTable.MakeRoom` | corelib/dynamicemb/dynamicemb/key_value_table.py:486-500 | The buffer grows by the capacity difference where that is positive, or doubles where no target is given, and the map is unchanged |
| `Expansion.RebuiltSame` | corelib/dynamicemb/dynamicemb/key_value_table.py:525-536 | Inserting what was exported from an index, in whatever order, gives the index back |
| `Expansion.Reinsert` | corelib/dynamicemb/dynamicemb/key_value_table.py:505-536 | Batch by batch, the new index has every exported key at its chosen slot and with its exported score |
| `Expansion.GrowingTable.Expand` | corelib/dynamicemb/dynamicemb/key_value_table.py:440-556 | The capacity is the target, or twice the old one; every key is at the slot the rehash gave it, with its old score; the value rows grow by the capacity difference; the key to value map is unchanged for any placement with a slot per key, and under NO_EVICTION no row changes |
| `Expansion.ExpandTables` | corelib/dynamicemb/dynamicemb/key_value_table.py:502-556 | Exactly the chosen tables get their new capacity, index and value rows, the others are untouched; every table keeps its map, and under NO_EVICTION its rows |
| `SizeEstimate.AlignToTableSize` | corelib/dynamicemb/dynamicemb/dynamicemb_config.py:684-693 | The least positive multiple of the alignment that is at least n |
| `SizeEstimate.DecideMonotone` | corelib/dynamicemb/dynamicemb/key_value_table.py:586-620 | A larger size never turns a decision to expand into one not to |
| `SizeEstimate.DecideMeans` | corelib/dynamicemb/dynamicemb/key_value_table.py:590-620 | A table expands if and only if it is given new keys, its load factor is positive, the limit is not reached, and the total exceeds the load factor times the capacity; it grows, to twice the capacity or to the least aligned capacity for the total, whichever is larger, cut by the limit of an evicting table |
| `SizeEstimate.TargetUnique` | corelib/dynamicemb/dynamicemb/key_value_table.py:601-619 | There is one such target |
| `SizeEstimate.NoneByEstimate` | corelib/dynamicemb/dynamicemb/key_value_table.py:643-666 | Where upper estimates call for no expansion, exact sizes do not either |
| `SizeEstimate.LazyExactIff` | corelib/dynamicemb/dynamicemb/key_value_table.py:642-666 | A check is exact if and only if its estimates were just collected, or call for an expansion, or no exact size calls for one |
| `SizeEstimate.AlwaysExactIff` | corelib/dynamicemb/dynamicemb/key_value_table.py:642-666 | The next check is exact whatever keys it counts if and only if the estimates were just collected or, table by table, are not below the size, or the next key crosses the load factor by them, or the table never expands |
| `SizeEstimate.LazyRunExactIff` | corelib/dynamicemb/dynamicemb/key_value_table.py:420-666 | Over every run of checks, inserts and flushes the decisions and targets are the exact ones if and only if every check can trust its estimates in that sense |
| `SizeEstimate.CountedRunsExact` | corelib/dynamicemb/dynamicemb/key_value_table.py:420-666 | Every check of a run can trust its estimates when inserts are counted and no flush adds keys behind an estimate that stays in use |
| `SizeEstimate.TableSizes.GetExpandInfo` | corelib/dynamicemb/dynamicemb/key_value_table.py:559-621 | The loop decides every table by its own options, capacity, size and new keys: it expands exactly those that have to grow, each to its one target |
| `SizeEstimate.TableSizes.ExpandIfNeed` | corelib/dynamicemb/dynamicemb/key_value_table.py:624-666 | Decides by the estimates, by exact sizes before expanding on an estimate; exact if and only if the estimates can be trusted; the new capacities, the new estimates, and the flag, which is up exactly after estimates called for an expansion that the exact sizes did not |
| `SizeEstimate.TableSizes.RunRounds` | corelib/dynamicemb/dynamicemb/key_value_table.py:420-666 | Runs of collect, check, insert and flush make the exact decisions and targets if and only if every check can trust its estimates |
| `SizeEstimate.EarlyIff` | corelib/dynamicemb/dynamicemb/key_value_table.py:2741-2746 | A flush returns without expanding if and only if the index has an aligned capacity for twice the keys of storage and cache |
| `SizeEstimate.ExpansionMissed` | corelib/dynamicemb/dynamicemb/key_value_table.py:2746-2773 | A concrete run from an empty table: counted keys stay in the cache, a collection resets the estimate, a flush that returns early stores them, and the next check misses the expansion the exact size calls for |
| `RowBounds.CreatedKept` | corelib/dynamicemb/dynamicemb/key_value_table.py:284-297 | A bucket-aligned initial capacity gives an index twice as large, so value rows are index capacity less initial rows |
| `RowBounds.StepKept` | corelib/dynamicemb/dynamicemb/key_value_table.py:493-498 | Every step keeps that difference |
| `RowBounds.StepFitsIff` | corelib/dynamicemb/dynamicemb/key_value_table.py:597-610 | A step ends with its rows inside the value buffer if and only if the new total is at most twice the index capacity less the initial rows |
| `RowBounds.SmallStepsStayInside` | corelib/dynamicemb/dynamicemb/key_value_table.py:329-339 | Over every run of steps of at most half the index capacity, assigned rows are at most half the index capacity, which is at most the value rows |
| `RowBounds.RunStaysInsideIff` | corelib/dynamicemb/dynamicemb/key_value_table.py:597-610 | A run stays inside throughout if and only if every step satisfies the one-step condition |
| `RowBounds.LargeBatchOverruns` | corelib/dynamicemb/dynamicemb/key_value_table.py:493-498 | A first batch of 640 keys into a table created for 128 rows needs 640 of 512 rows |
| `CounterLayout.PinsApart` | corelib/dynamicemb/src/table_operation/insert_and_evict.cu:27-60 | Different slots of the tables are pinned in different counters |
| `CounterLayout.PinSeenIff` | corelib/dynamicemb/src/table_operation/kernels.cuh:448-456 | An eviction looks at the counter that pinning wrote if and only if the slot is an overflow slot or no bucket precedes its table |
| `CounterLayout.AllPinsSeenIff` | corelib/dynamicemb/src/table_operation/kernels.cuh:226-246 | All pins are seen if and only if at most one table has buckets |
| `CounterLayout.SecondTableUnseen` | corelib/dynamicemb/src/table_operation/insert_and_evict.cu:44-59 | Two tables of one bucket: a pin on slot 5 of the second is at counter 133, the eviction reads counter 5; an overflow slot of the second has one counter for both |
| `CounterLayout.CheckOfPin` | corelib/dynamicemb/src/table_operation/kernels.cuh:448-456 | In the numbering by pin counters, eviction looks at the slot's number within its table |
| `CounterLayout.CheckOfHonestIff` | corelib/dynamicemb/src/table_operation/kernels.cuh:448-456 | Every counter is checked for its own slot if and only if at most one table has buckets |
| `Pins.CodeLayoutRegular` | corelib/dynamicemb/src/table_operation/kernels.cuh:425-437 | In the kernels' layout buckets and overflow regions do not overlap and a bucket belongs to one region |
| `Pins.HomeSlots` | corelib/dynamicemb/src/table_operation/kernels.cuh:425-437 | A key's home is the aligned group of bucket slots around the slot of its table that its hash code names, and the overflow slots of its table, in the numbering of the pin counters |
| `Pins.FullBucketTaken` | corelib/dynamicemb/src/table_operation/kernels.cuh:226-246 | With one more key than a bucket has slots: the others, in their home slots, fill the bucket and are pinned; if eviction looks for their counters outside the bucket, an insertion of the last key takes a pinned slot |
| `Pins.HonestKeeps` | corelib/dynamicemb/src/table_operation/kernels.cuh:226-287 | Where eviction looks at the pin counter of every home slot, every insertion keeps all pinned slots |
| `Pins.SameBucketKeys` | corelib/dynamicemb/src/table_operation/kernels.cuh:425-437 | Whatever the hash, a table with buckets has as many different keys of one bucket as wanted |
| `Pins.CodePiecesCover` | corelib/dynamicemb/dynamicemb/scored_hashtable.py:986-1060 | The buckets and overflow regions that an export walks over, table by table, are all slots of the cache |
| `Pins.CodePinsKeptIff` | corelib/dynamicemb/src/table_operation/kernels.cuh:448-456 | With the kernels' counters and any hash, every insertion into a table whose residents are in their home slots keeps all pinned slots if and only if at most one table of the group has buckets |
| `FailingRuns.PinnedSlotEvicted` | corelib/dynamicemb/src/table_operation/kernels.cuh:448-456 | For every group with buckets before a table with buckets, and any keys of one bucket of it, one more than its slots: a run from an empty cache prefetches all but one and then the last, which gets a pinned slot; the forward of the first batch returns the last key's row for another key |
| `FailingRuns.KeyRejected` | corelib/dynamicemb/dynamicemb/batched_dynamicemb_function.py:768-795 | For every group of which one table has buckets, and any keys of one bucket, one more than bucket and overflow region have slots: a run from an empty cache prefetches and forwards all but one; the prefetch of the last raises nothing, the key is rejected, an uninitialised row is stored for it, and its forward returns that |
| `Checkpoint.PermutationsInvert` | corelib/dynamicemb/dynamicemb/dynamicemb_config.py:277-304 | Dump and load permutations of the score columns undo each other, for any number of words |
| `Checkpoint.ToFileMeans` | corelib/dynamicemb/dynamicemb/key_value_table.py:1113-1123 | The file has the embedding, the checkpointed optimizer columns, and every score word in the column of its configured place; of an LRU timestamp the age |
| `Checkpoint.FromFileMeans` | corelib/dynamicemb/dynamicemb/key_value_table.py:1946-1972 | A file row is read with every score word in its device column, missing optimizer columns initial, and an age taken off the time of the load, not below 0 |
| `Checkpoint.Pad` | corelib/dynamicemb/dynamicemb/optimizer.py:533-557 | File columns first, then the initial accumulator value up to the runtime width |
| `Checkpoint.ValueRoundTrip` | corelib/dynamicemb/dynamicemb/key_value_table.py:1160-1180 | Through a file a value keeps its embedding, its checkpointed optimizer columns and its score words in device order; an LRU score keeps its age |
| `Checkpoint.ViewFlatten` | corelib/dynamicemb/dynamicemb/key_value_table.py:1229-1262 | Reading a flat file as rows of the right width gives back the rows written |
| `Checkpoint.DumpTable` | corelib/dynamicemb/dynamicemb/key_value_table.py:1134-1187 | Row by row the files hold the keys, embeddings, checkpointed optimizer columns and score words of the entries, in order, whatever the batch size |
| `Checkpoint.LoadTable` | corelib/dynamicemb/dynamicemb/key_value_table.py:1190-1274 | Reading the parallel files batch by batch inserts exactly the entries of this rank, whatever the batch size |
| `Checkpoint.ShardLoaded` | corelib/dynamicemb/dynamicemb/key_value_table.py:1264-1271 | One group of files adds exactly its shard's keys that are this rank's residue, restored |
| `Checkpoint.LoadRank` | corelib/dynamicemb/dynamicemb/batched_dynamicemb_tables.py:172-209 | Own files when ranks and groups agree in number, all groups otherwise: the rank ends with exactly its keys either way |
| `Checkpoint.RoundTrip` | corelib/dynamicemb/dynamicemb/key_value_table.py:1946-1974 | Dump on W ranks, load on any W' ranks: every stored key is on exactly the rank that is its residue, with its restored value, and no other key is anywhere |
| `SweepLine.EnclosesUnique` | corelib/dynamicemb/benchmark/nsys_breakdown.py:213-224 | The defining property of a kernel's range stack has one answer |
| `SweepLine.StableSort` | corelib/dynamicemb/benchmark/nsys_breakdown.py:228-236 | The events in order of time, kind and input position, none lost or added |
| `SweepLine.PopMatching` | corelib/dynamicemb/benchmark/nsys_breakdown.py:243-248 | Exactly the closing range leaves the stack, and the order of the others is kept |
| `SweepLine.AttributeKernels` | corelib/dynamicemb/benchmark/nsys_breakdown.py:213-251 | Every kernel exactly once, in launch order, with exactly the ranges whose closed interval contains its launch, by start and then input position |
| `IntervalSplit.CreateInterval` | examples/commons/hstu_data_preprocessor.py:622-637 | Sorted permutation of the events; boundaries strictly increase from 0 to n and every interval spans less than T; an empty group gives [0, 0] |
| `IntervalSplit.GreedyStarts` | examples/commons/hstu_data_preprocessor.py:627-631 | Starts are at least T apart, and every event is less than T after the start of its interval |
| `IntervalSplit.GreedyIsOptimal` | examples/commons/hstu_data_preprocessor.py:627-632 | No grouping with spreads below T, contiguous or not, has fewer groups |
| `IntervalSplit.RowCutsByTime` | examples/commons/hstu_data_preprocessor.py:642-648 | A batching row carries its interval's last timestamp, and the events not later than it are exactly those before its position |
| `SplitHeuristic.Efficiencies` | corelib/gr_decode_atten/interface.py:97-105 | Every efficiency times the room of the whole waves it takes is the work, in integers; all split counts up to the bound, and the largest of them, attained |
| `SplitHeuristic.EfficiencyCompared` | corelib/gr_decode_atten/interface.py:97-109 | The comparison of quotients that the loop makes is a comparison of products of whole numbers |
| `SplitHeuristic.BestIsGoodEnough` | corelib/gr_decode_atten/interface.py:106-109 | Some split count always reaches the threshold, so the trailing fallback is not reached |
| `SplitHeuristic.NumSplits` | corelib/gr_decode_atten/interface.py:84-109 | In whole numbers: in the search branch the least split count with at least 85% of the efficiency of every count tried; from 80% occupancy the least count whose parts fit the 50 MB cache, cut by the limit, or 1; always 1 to the limit |
| `SplitHeuristic.ChosenUnique` | corelib/gr_decode_atten/interface.py:84-109 | There is one such count |
| `SplitHeuristic.ForwardSplits` | corelib/gr_decode_atten/interface.py:757-772 | The heuristic's count capped by the number of blocks: at least one split, and at least one block per split whenever there are blocks |

## Left out

- The hash function, probe order, digests and the locking inside kernels: the hash code is any function of the key, and a batch insert runs key by key with the keys it placed locked.
- The deterministic insertion mode, which inserts in waves and may evict in a later wave a key of an earlier one.
- Reference counters across table expansion: the code copies into an indexed temporary.
- The HBM-direct prefetch path, and the generic path on single-tier storage: they repeat the modelled steps with fewer tiers.
- Expansion inside prefetch is modelled on its own (`Expansion`, `SizeEstimate`, `RowDiscipline.RehashKeeps`), not as an event of the pipeline.
- Eviction in the backing tier, the host tier or the admission counter, and rejection by them.
- The targets of pre-flush expansion (`SizeEstimate` takes any): the target can fall below the current capacity when `max_capacity` binds under NO_EVICTION.
- `reset_cache_states` with batches queued, and runs that go on after the outstanding-keys error, where the count stays incremented.
- Where scores come from, cache metrics and LFU frequency transfer between tiers: the score a key enters with is any function of the key, a slot has one score word, and scores of the backing tier are not modelled.
- Pooling, reverse indices and duplicate keys of a batch: prefetch and forward are modelled on the unique keys.
- Values handed to keys that the generic path does not admit: the training theorems compare outputs on the kept keys, for losses that do not look at the others.
- Checkpoints of the two-tier storage and of the admission counter, loading into tables that already hold keys, missing score or optimizer files, and the metadata checks; `truncate_optimizer_states_for_checkpoint` raising on a narrower runtime state.
- Incremental dump, `fill_tables`, memory planning, sharding configuration, collectives, streams, file and metadata handling.
- Floating-point rounding, in the optimizer as in the split heuristic.
- The event list of the sweep carries indices instead of names; the yielded names are those of the ranges at the indices.
- Hybrid.HybridStorage.Insert: keys that HBM already holds are outside its precondition, because forward inserts only keys that find reported missing; `Hybrid.DisjointAfter` says when the tiers stay disjoint.
- HashTable.Table.InsertAndEvict: keys already in the table are outside its precondition, because the cache path and forward insert only keys that lookup missed; the kernel assigns a key it finds in its bucket, and gives a key that sits in the overflow region a second slot (kernels.cuh:443-486), so the table does not promise unique keys there.
- SizeEstimate.TableSizes.GetExpandInfo: an unset `max_capacity` outside NO_EVICTION, for which the code compares with None and raises, is not modelled.
- Checkpoint.RoundTrip: storage insertion on load is a map update, so slot placement during the load is not modelled.
- The Movielens interval splitter, which sorts by movie id first.
