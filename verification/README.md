# RosalindDB: verified models of the recall tier, the shard cache, the queue, the catalog cache and the rate limiter

Every file states what the code does and proves what it is for, over all inputs
and all interleavings. `dafny verify dfyconfig.toml` checks the whole project.

## What is modelled

**The recall tier and its watermark.** Writes and deletes go to an in-memory
partition stamped with log sequence numbers (LSNs); a builder snapshots the
partition, folds it into a shard, and later trims it; queries overlay the recall
rows above a watermark on the shards they resolved.

- `Memtable`, `RecallSearch`, `MemRecall`: the embedded recall store. `MemRecall.Store`
  is the class as updated in place; `Memtable` and `RecallSearch` say what its
  methods mean and prove the LSN and search laws.
- `ShardGenerations`, `Catalog`: shard rows, their grouping into base-plus-delta
  generations, sweep and grace rules, and the in-memory catalog class.
- `Log`, `Protocol`, `Safety`, `Readers`: the state machine. Its events are upsert,
  delete, snapshot, fold commit, builder crash, major compaction, sweep, trim and
  shard resolution by a query, in any order. History is a log with one entry per
  LSN; `Replay` of the log is the last-write-wins map. `Safety` proves the global
  invariant, `Progress` what folds and compactions get done, and `Readers` what
  readers see.
- `QueryUnion`: the answer the query path computes from what it resolved, by ids
  alone. `TopKMerge` and `RankedQuery` rank and cut to top_k for one shard,
  `RankedUnion` for any number of them.
- `MajorCompaction`: the newest-occurrence merge. `Scenarios` and
  `RankedScenarios`: concrete runs.

**The local shard cache.** `ShardTier` is the byte-budgeted LRU with its dry run;
`SingleFlight` its concurrent fetches and prewarms as thread steps, and
`ShardFiles` what they leave on disk; `CoalescedDownload` is the unmanaged cache's
single flight. Both single flights share the in-flight table of `InFlight`.

**The reliable queue.** `ReliableQueue` has each call run to completion on a topic
object; `QueueSteps` takes the same calls apart into single store commands of
workers, stale workers and reapers that may crash anywhere; `QueueCalls`
proves that the two agree, call by call. `QueueAttempts` treats the attempt counter,
`QueueCap` the delivery cap, `QueueReaper` what a reaper spares, and `QueueRuns` the
runs that break the cap or lose a message.

**The rest.** `CatalogCache` and `CacheSteps` (generation-checked listing cache),
`TokenBucket` (rate limiter), `ShardUri` (versioned shard URIs), with `Records`
(metadata filter) and `Seqs` (filtering and sorting) underneath.

## Where the code does less than its documentation says

Each of these is proved: a run or an input that fails, and the condition under
which the property does hold.

- A query may miss neighbours. The shard is asked for exactly `top_k` hits and the
  ones recall suppresses are dropped afterwards, so deleting the nearest vector
  makes a top-1 query empty until the next fold
  (`RankedScenarios.DeletedNearestEmptiesTheAnswer`). With one shard the answer is
  the true top_k if and only if recall refills the emptied slots
  (`TopKMerge.MergeIsExactIff`, over any run `RankedQuery.RankedQueryIsExactIff`).
- With deltas, the answer can be wrong in three more ways. An id deleted in one
  delta and written again in a later one disappears, because the tombstones of all
  resolved deltas are pooled (`Scenarios.RewrittenAfterDeleteVanishes`). An older
  copy that passes a filter surfaces when the newest copy fails it, because
  deduplication sees filtered hits only (`RankedScenarios.StaleCopyPassesTheFilter`).
  And an older copy wins a slot when the newest one is not among its shard's own
  top_k, because deduplication sees only those
  (`RankedScenarios.StaleCopyWinsTheOnlySlot`). With top_k at least the number of
  rows the first two are all that can happen (`QueryUnion.QueryIsExactIff`). For any
  top_k, filter and number of shards the condition can be read off the hits before
  they are merged: every outdated hit has top_k candidates ahead of it, and every
  missed one has top_k candidates at least as near
  (`RankedUnion.RankedUnionIsExactIff`).
- With deltas, the trim boundary is a whole generation's frontier, so a query that
  resolved only the first shards of that generation can lose trimmed writes
  (`Scenarios.TrimOutrunsAnInFlightReader`, `Readers.InFlightReaders`). It finds every
  write if and only if no id's last write lies above its watermark and at or below
  the trim boundary (`Readers.ReaderSeesEveryWriteIff`). Without deltas the grace
  buffer keeps its promise (`Readers.BaseOnlyGraceProtectsReaders`).
- `fetch` says the file exists when it returns. When its admission ends, the file it
  published is there if and only if it fits the whole budget and no step since the
  publication deleted this URI's file: an eviction or an admission giving up a stale
  entry for it, or somebody outside (`ShardFiles.FetchEndsWithItsFile`). Both halves
  fail in a run (`ShardFiles.OversizeFetchEndsWithoutItsFile`,
  `ShardFiles.StaleEntryLosesTheFile`). Unless somebody outside deletes the URI's file,
  the size alone decides (`ShardFiles.UndisturbedFetchEndsWithItsFile`).
- A warm shard stays warm exactly until somebody outside deletes its file, the tier
  gives its entry up, or a refused prewarm of the same URI unlinks the file
  (`ShardFiles.WarmExactlyUntilLost`). The last happens in a run where a stale entry's
  shard measures larger when it is downloaded again, and takes away a file that was
  served (`ShardFiles.RefusedPrewarmUnlinksAServedFile`).
- The shard file name drops the URI's scheme and replaces slashes by underscores, so
  distinct URIs may share a file (`ShardTier.CollidingUris`); they do exactly when
  the parts after the scheme differ in nothing else (`ShardTier.SharedFileNames`).
- A message can be lost (`QueueRuns.CrashInHandLosesTheMessage`): that happens if and
  only if a worker or reaper dies between removing and pushing it
  (`QueueSteps.LostExactlyByCrashInHand`).
- `ack` deletes the attempt counter even when it removed nothing, so stale
  acknowledgements let a message be retried without end
  (`QueueRuns.StaleAcksRetryForever`); the counter is right if and only if no
  live message's counter is deleted (`QueueAttempts.CounterAccurateIff`).
- Taking a message and stamping the delivery are two commands, and a late stamp lets
  a message be delivered more often than permitted. If a reaper requeues the message
  between the two, the stamp counts against a message on main
  (`QueueRuns.LateStampsBreakTheCap`); if another worker meanwhile uses up its last
  delivery, a dead-lettered message is delivered again
  (`QueueRuns.LateStampDeliversADeadLetter`). Counters are right and the cap holds for
  every message, settled ones included, if and only if no live message's counter is
  deleted and no stamp lands on a message that has had all the deliveries its place
  allows (`QueueCap.CountedAndCappedIff`); dead letters then have had exactly the
  permitted deliveries, or were refused (`QueueCap.DeadLetteredAfterExactlyMax`). That
  is so when no message leaves processing between its take and its stamp
  (`QueueCap.InTimeIsNeverFull`), in particular when the two are one step
  (`QueueAttempts.AtomicIsInTime`).
- The catalog cache says a just-inserted entry is never evicted by the same call;
  with a bound of zero it is, with any positive bound it is not
  (`CatalogCache.InstallRespectsTheBound`).
- A legacy file `shard-{id}.bin` is taken for a versioned shard if and only if the
  last hyphen-separated chunk of its id is sixteen hex digits
  (`ShardUri.LegacyUnlessItLooksHashed`).

## Modelling assumptions

- LSN n is the n-th write; one fold or compaction is in flight per dataset, as the
  builder's per-dataset lock ensures; the delta flag does not change during a run.
- The id hash is injective, so shards are keyed by string ids. A shard is its
  id-to-vector contents and its tombstones; searches are exact.
- Scores, times and vectors are reals. Vectors have the dataset's dimension, which
  the service checks before any of this code runs.
- In the thread and command machines one step is one critical section, one file
  operation or one store command. Clocks, sizes, ids and download outcomes are
  parameters of the steps.
- In `SingleFlight` and `CoalescedDownload` no two URIs in use share a local file
  name, and unlinking succeeds; `ShardTier` also treats files that cannot be unlinked.

## Model

| member | source | states |
|---|---|---|
| Records.MetadataMatchesFilter | src/adapters/recall/__init__.py:802-823 | the early-returning walk accepts exactly the metadata that holds every requested key with an equal non-null value |
| Records.FilterIsAndOfEquals | src/adapters/recall/__init__.py:802-823 | an empty filter passes everything, and each further key asks for an equal value that is not null |
| Memtable.DedupWinners | src/adapters/recall/__init__.py:506-513 | a batch's winners are the last occurrences of its ids, in the order those occurrences were sent |
| Memtable.DedupCount | src/adapters/recall/memtable.py:112-119 | one winner per distinct id, so the returned count is the number of distinct ids |
| Memtable.UpsertAt | src/adapters/recall/memtable.py:121-133 | an upsert gives each batch id its last record with the LSN of its place in the block, clears any tombstone, and leaves all other ids alone |
| Memtable.DeleteAt | src/adapters/recall/memtable.py:259-287 | a delete leaves a tombstone with the next LSN and the row's payload, or a zero vector of the dataset's dimension, and no other id changes |
| Memtable.TrimAt | src/adapters/recall/memtable.py:324-341 | a trim drops exactly the rows at or below a positive boundary and keeps the counter |
| Memtable.RunStamped | src/adapters/recall/memtable.py:91-101 | over any run of upserts, deletes and trims, rows carry pairwise distinct LSNs issued by the counter, which never goes back |
| Memtable.LaterWritesLandAboveSnapshots | src/adapters/recall/memtable.py:324-341 | every write after a snapshot is stamped strictly above the snapshot's watermark, even when trims emptied the partition in between |
| Memtable.BatchEqualsOneAtATime | src/adapters/recall/memtable.py:104-134 | a batch with repeated ids leaves the contents and relative LSN order of sending its records one by one, in a contiguous block as long as the number of distinct ids |
| RecallSearch.SortedCandidatesAreNearest | src/adapters/recall/memtable.py:180-207 | sorting the scored candidates and cutting at top_k yields the nearest filter-passing live rows above the watermark |
| RecallSearch.OnePassScan | src/adapters/recall/__init__.py:748-782 | the single counting scan suppresses every row it sees and matches the first top_k filter-passing live rows |
| RecallSearch.OnePassEqualsFilterSortTake | src/adapters/recall/__init__.py:748-782 | the scan over all rows in distance order, tombstones included, returns what filtering, sorting and cutting any permutation of the rows returns |
| RecallSearch.NearestInScores | src/adapters/recall/memtable.py:180-207 | the nearest come in score order, ties in id order, and nothing left out is nearer than a match |
| RecallSearch.DistIsZeroIff | src/adapters/recall/memtable.py:180-207 | a vector is at distance zero from itself and farther from any other |
| RecallSearch.DistPerCoordinate | src/adapters/recall/memtable.py:180-207 | changing one coordinate changes the distance by the difference of its squared differences, whichever coordinate it is |
| MemRecall.KeepLast | src/adapters/recall/memtable.py:112-118 | the delete-then-set loop computes the last-occurrence winners |
| MemRecall.StampBlock | src/adapters/recall/memtable.py:122-133 | the write loop stamps the winners with the reserved block in order |
| MemRecall.Store.AllocBlock | src/adapters/recall/memtable.py:91-101 | reserving n LSNs advances one partition's counter by n and nothing else |
| MemRecall.Store.UpsertVectors | src/adapters/recall/memtable.py:104-134 | the partition becomes the upsert of the batch, other partitions are untouched, and the winner count is returned |
| MemRecall.Store.DeleteVector | src/adapters/recall/memtable.py:259-287 | a tombstone with a fresh LSN that keeps an existing row's payload; other partitions untouched |
| MemRecall.Store.SnapshotAbove | src/adapters/recall/memtable.py:137-156 | the copy lists every row above the watermark exactly once and no other |
| MemRecall.Store.Search | src/adapters/recall/memtable.py:159-207 | suppresses exactly the ids above the watermark and returns the nearest top_k filter-passing live rows |
| MemRecall.Store.GetVector | src/adapters/recall/memtable.py:210-222 | live, tombstone or absent exactly as search and list see the same id |
| MemRecall.Store.ListRows | src/adapters/recall/memtable.py:241-256 | lists each live id above the watermark once with its metadata and suppresses exactly the ids present above it |
| MemRecall.Store.SnapshotForConsolidation | src/adapters/recall/memtable.py:290-315 | the whole partition in LSN order with the highest LSN, 0 when empty |
| MemRecall.Store.TrimTo | src/adapters/recall/memtable.py:324-341 | drops exactly the rows at or below the grace watermark, keeps the counter, and counts what it dropped |
| ShardGenerations.FileDeltas | src/adapters/state/generations.py:61-64 | every delta is filed under the parent it names, in list order |
| ShardGenerations.BuildGenerations | src/adapters/state/generations.py:61-75 | the two loops group each base with its own same-version deltas, newest base first |
| ShardGenerations.InGeneration | src/adapters/state/generations.py:47-75 | a generation is its base and precisely the listed deltas with that parent and version |
| ShardGenerations.GenerationsAreDisjoint | src/adapters/state/generations.py:61-75 | each shard lies in at most one generation |
| ShardGenerations.RetainedMeans | src/adapters/state/generations.py:146-150 | an id is retained exactly when its shard is in one of the newest keep generations, or in the newest of all |
| ShardGenerations.SweepKeepsNewestGenerations | src/adapters/state/generations.py:129-150 | deleting the superseded shards leaves exactly the newest keep generations, each whole and in order, and one when keep is less than one |
| ShardGenerations.GraceIsTheLastRetainedFrontier | src/adapters/state/generations.py:110-126 | the trim boundary is the frontier of the keep-th newest generation, 0 while there are fewer, and the newest's when keep is less than one |
| ShardGenerations.SweepIsSafeAndIdempotent | src/adapters/state/generations.py:78-150 | the sweep changes neither live generation nor dataset or grace watermark, never supersedes a delta of a retained base, and finds nothing the second time |
| ShardGenerations.BaseOnlyRefinesPositions | src/adapters/state/generations.py:57-60 | without deltas, superseded is everything past position keep, and the trim boundary is the band end or watermark of shard keep, or 0 |
| Catalog.MemCatalog.AddShard | src/adapters/state/catalog.py:424-456 | a new row gets a fresh id, heads its dataset's listing, and changes no other listing |
| Catalog.MemCatalog.ListShards | src/adapters/state/catalog.py:458-464 | every row of the dataset and no other, once each, newest first |
| Catalog.MemCatalog.DeleteShards | src/adapters/state/catalog.py:466-477 | removes exactly the named rows of one dataset and counts them |
| Log.OverlayReplays | src/adapters/recall/__init__.py:1108-1118 | recall rows that reach past a prefix, laid over the contents of that prefix, give the whole history |
| Log.DedupKeepsMeaning | src/adapters/recall/__init__.py:499-512 | deduplicating a batch does not change the last-write-wins map it produces |
| Log.ChainContents | src/adapters/state/catalog.py:1004-1011 | a base and deltas over abutting LSN bands hold exactly the history up to the last band's end |
| Safety.OrderedMembers | src/adapters/state/generations.py:86-92 | the live generation lists all its shards, base first, deltas by band start and id |
| Safety.NewBaseKeepsInv | src/services/index_builder/run.py:2099-2112 | a base that holds the history up to a frontier no lower than the live one may be committed without breaking any reader |
| Safety.NewDeltaKeepsInv | src/services/index_builder/run.py:1871-1887 | so may a delta that starts where the live generation ends |
| Safety.RewriteFoldKeepsInv | src/services/index_builder/run.py:1925-2112 | the rewriting fold of a snapshot over the newest shard keeps the invariant and lowers no frontier |
| Safety.LaterFoldHolds | src/services/index_builder/run.py:1610-1622 | the snapshot rows above the live frontier are exactly the last writes of the band the delta claims, puts and deletes apart |
| Safety.DeltaFoldKeepsInv | src/services/index_builder/run.py:1748-1887 | the delta fold, first build and tombstone-only folds included, keeps the invariant |
| Safety.CompactionKeepsInv | src/services/index_builder/run.py:2348-2367 | a major compaction keeps the invariant and lowers no frontier |
| Safety.TrimKeepsInv | src/services/index_builder/run.py:1672-1689 | a trim to the grace watermark keeps the invariant |
| Safety.SweepKeepsInv | src/services/index_builder/run.py:741-778 | so does a sweep, whenever it runs |
| Safety.ResolveIsChain | src/services/query_api/v1_query.py:959-1003 | a query resolves nothing exactly when there are no shards, and otherwise the whole live generation in band order |
| Safety.RunInv | src/services/index_builder/run.py:1562-1702 | the invariant over LSNs, shards, watermarks, snapshot and readers holds after any interleaving of all events |
| Safety.WatermarksNeverRegress | src/adapters/state/catalog.py:1027-1039 | no event ever lowers the dataset watermark or the trim boundary |
| Progress.FoldWritesItsSnapshot | src/services/index_builder/run.py:1562-1669 | every fold commit of every run adds one shard, after which the watermark is the snapshot's and a query's shards hold exactly the history the snapshot saw; it writes a delta exactly over a native base with the tier on, and nothing exactly when there is no shard and no live row, or a delta is due and no row lies above the live watermark |
| Progress.CycleFoldsEverything | src/services/index_builder/run.py:1562-1669 | a snapshot and a fold with nothing in between fold every write so far |
| Progress.CompactionReplacesDeltas | src/services/index_builder/run.py:2197-2367 | a compaction event replaces a native base with at least max_deltas deltas and at least one by a single base with the same watermark, contents and version, and otherwise changes nothing |
| Readers.ComputeFrontierWatermark | src/services/query_api/v1_query.py:1525-1567 | the early-exiting walk yields the end of the contiguous bands |
| Readers.WatermarksAgree | src/services/query_api/v1_query.py:1505-1567 | on a reachable live generation, every way the code computes a frontier gives the same number |
| Readers.RetainedGenerationsReadHistory | src/adapters/recall/__init__.py:1108-1118 | in every reachable state each of the newest keep generations, overlaid with the recall rows above its frontier, shows exactly the last-write-wins contents of all writes so far |
| Readers.GappedListingsReadHistory | src/services/query_api/v1_query.py:1534-1538 | a stale listing that misses deltas, read with its gap-clamped frontier, shows the whole history if and only if no trimmed write above that frontier is missing from what it lists; so it does if recall was not trimmed past the frontier |
| Readers.InFlightReaders | src/services/query_api/v1_query.py:1805-1816 | a query that resolved earlier reads the whole history if and only if no trimmed write above its frontier is missing from its shards |
| Readers.ReaderSeesEveryWriteIff | src/services/index_builder/run.py:1672-1689 | a watermark is safe for a reader if and only if no id's last write lies above it and at or below the trim boundary; a boundary at or below it always is |
| Readers.BaseOnlyGraceProtectsReaders | src/services/index_builder/run.py:1672-1681 | without deltas, a query whose shard is among the newest keep loses nothing to trims |
| Readers.RefoldingIsHarmless | src/adapters/recall/__init__.py:1236-1251 | after a crash between commit and trim, recall rows at or below a retained frontier repeat what its shards hold, and trimming twice is trimming once |
| QueryUnion.QueryIsExactIff | src/services/query_api/v1_query.py:1068-1097 | with top_k at least the number of rows and no trimmed write missed, the union returns exactly the filter-passing history if and only if no id is misreported by a pooled tombstone or a stale passing copy |
| QueryUnion.SingleShardQueriesAreExact | src/services/query_api/v1_query.py:1622-1635 | with the delta tier off and no trimmed write missed, the union is exact whatever the filter |
| TopKMerge.MergeIsExactIff | src/services/query_api/v1_query.py:1616-1653 | merging both tiers' own top_k gives the k nearest of everything they hold, distinct and nearest first, if and only if recall refills the slots its suppressions emptied |
| TopKMerge.InTheCutIff | src/services/query_api/v1_query.py:1651-1653 | a candidate is among the first k of the stable sort exactly when fewer than k candidates are nearer, or as near and listed earlier |
| TopKMerge.CutIsExactIff | src/services/query_api/v1_query.py:1640-1653 | ranking candidates and cutting at k gives the k nearest of a pool if and only if every foreign candidate has k others ahead of it and every absent member has k candidates at least as near |
| TopKMerge.RankedCount | src/services/query_api/v1_query.py:1651-1653 | in a ranking exactly the first so many matches are within a score |
| TopKMerge.DeletedNearestHidesTheNext | src/services/query_api/v1_query.py:1272-1278 | deleting the nearest of two vectors makes a top-1 query empty |
| RankedQuery.RankedQueryIsExactIff | src/services/query_api/v1_query.py:1788-1937 | the same refill equivalence for any query over any reachable state with the delta tier off that misses no trimmed write, against the ranking of the whole history |
| RankedUnion.DedupTopHits | src/services/query_api/v1_query.py:1084-1097 | the loops over the shards' own top_k leave each id its hit from the newest shard that named it |
| RankedUnion.DedupedAt | src/services/query_api/v1_query.py:1084-1097 | a surviving hit is in the top_k of a shard, and no newer shard's top_k names its id |
| RankedUnion.OutdatedMeansCutOff | src/services/query_api/v1_query.py:1084-1097 | an outdated hit survives only because the shard with the newest copy does not have it in its top_k |
| RankedUnion.MissedMeansHiddenOrCutOff | src/services/query_api/v1_query.py:1906-1911 | a hit is missed only because a pooled tombstone hides it or its shard's cut left it out |
| RankedUnion.RankedUnionIsExactIff | src/services/query_api/v1_query.py:1788-1937 | over any reachable state, any number of shards, any filter and any top_k, for a query that misses no trimmed write, the answer is the k nearest of the whole history if and only if, before the merge, every outdated hit has k candidates ahead of it and every missed one has k at least as near |
| MajorCompaction.MergeGeneration | src/services/index_builder/run.py:2275-2306 | the walk over mentions plus the united sidecars rebuilds exactly the generation's layered contents |
| MajorCompaction.NewestOccurrenceWins | src/services/index_builder/run.py:2206-2213 | an id survives exactly when the last shard that mentions it holds its vector and no tombstone, with that vector |
| MajorCompaction.SurvivorsAreMentioned | src/services/index_builder/run.py:2285 | every survivor comes from the last shard that mentions it |
| Scenarios.TrimOutrunsAnInFlightReader | src/adapters/state/generations.py:110-126 | a run of the delta tier in which a query loses a write although its generation is retained |
| Scenarios.RewrittenAfterDeleteVanishes | src/services/query_api/v1_query.py:999-1002 | a run of the delta tier in which a rewritten id is missing from the answer |
| RankedScenarios.StaleCopyPassesTheFilter | src/services/query_api/v1_query.py:1084-1097 | a run of the delta tier in which an older copy is returned because only it passes the filter |
| RankedScenarios.StaleCopyWinsTheOnlySlot | src/services/query_api/v1_query.py:1084-1097 | a run of the delta tier in which a top-1 query returns an older copy because the newest is second in its shard |
| RankedScenarios.DeletedNearestEmptiesTheAnswer | src/services/query_api/v1_query.py:1272-1278 | a run without deltas in which a top-1 query returns nothing although a vector is left |
| ShardTier.HitRefreshes | src/adapters/storage/shard_tier.py:451-457 | a hit moves to the MRU end with a new query time and its old size and admission time; order of the others, bytes and files stay |
| ShardTier.EvictionTakesOneEntry | src/adapters/storage/shard_tier.py:255-283 | an eviction takes away the URI's entry and its file, unless that cannot be unlinked, and nothing else |
| ShardTier.AdmissionKeepsWhatFits | src/adapters/storage/shard_tier.py:317-341 | an admission drops the shortest LRU prefix that lets the rest fit, keeps the survivors' order, and ends within budget |
| ShardTier.ArrivalKeptIffItFits | src/adapters/storage/shard_tier.py:296-300 | the arrival is retained exactly when it fits the whole budget |
| ShardTier.FileSurvivesAdmission | src/adapters/storage/shard_tier.py:323-341 | the admitted file is still there exactly when it fits the budget or cannot be unlinked |
| ShardTier.SameVictims | src/adapters/storage/shard_tier.py:369-398 | which entries go depends on the arrival's size alone |
| ShardTier.AdmissibleMeans | src/adapters/storage/shard_tier.py:344-404 | the dry run passes exactly when admission would keep the arrival and every entry younger than the floor |
| ShardTier.SharedFileNames | src/adapters/storage/shard_tier.py:244-252 | two URIs share a file exactly when their parts after the scheme differ only in slashes against underscores |
| ShardTier.CollidingUris | src/adapters/storage/shard_tier.py:244-252 | URIs that differ in the scheme, or in an underscore for a slash, share a file |
| ShardTier.Tier.Hit | src/adapters/storage/shard_tier.py:451-457 | a hit needs entry and file, refreshes the query time, and moves the entry to the MRU end |
| ShardTier.Tier.Evict | src/adapters/storage/shard_tier.py:255-283 | entry, file and its bytes go together; the accounting stays exact |
| ShardTier.Tier.Admit | src/adapters/storage/shard_tier.py:286-341 | the in-place admission is the specified one, re-admission included, and the byte count stays the sum of sizes within the budget |
| ShardTier.Tier.EvictToBudget | src/adapters/storage/shard_tier.py:323-341 | the loop pops exactly the shortest prefix that fits |
| ShardTier.Tier.CheckAdmission | src/adapters/storage/shard_tier.py:344-404 | the dry run passes if and only if the arrival would be kept and every victim is old enough, and then walks exactly the victims |
| ShardTier.Tier.AdmitUnderFloor | src/adapters/storage/shard_tier.py:690-703 | a prewarm admission changes nothing, or keeps the arrival and every entry younger than the floor |
| SingleFlight.SingleDownloader | src/adapters/storage/shard_tier.py:459-477 | over all interleavings of fetch and prewarm at most one thread works on a URI |
| SingleFlight.FiredEventsAreGone | src/adapters/storage/shard_tier.py:553-561 | an event that was set is in no in-flight entry |
| SingleFlight.RejectedPrewarmUnlinksItsOwnFile | src/adapters/storage/shard_tier.py:705-718 | a rejected prewarm unlinks the file it published itself, never a later initiator's |
| SingleFlight.EveryWaitCanEnd | src/adapters/storage/shard_tier.py:479-513 | a waiter's event is set, or its initiator alone can set it in at most six steps from any reachable state |
| ShardFiles.CallersAreToldTheTruth | src/adapters/storage/shard_tier.py:459-513 | in any run a caller that does not download itself is served, on the call, on registering and after a wait, exactly when entry and file are there at that step; a waiter that finds otherwise ends not published (fetch) or refused (prewarm) |
| ShardFiles.WaitersWaitForTheirEvent | src/adapters/storage/shard_tier.py:479-513 | a wait ends in a wake-up exactly when its event is set and in a timeout exactly when it is not |
| ShardFiles.PrewarmServedIff | src/adapters/storage/shard_tier.py:690-718 | a measured prewarm is admitted exactly when that keeps it and every entry younger than the floor, and is rejected otherwise |
| ShardFiles.OutcomesAreEarned | src/adapters/storage/shard_tier.py:459-561 | in any run a thread has exactly the outcomes it earned at some step: served for what was there or admitted, refused or not published for what was not, timed out on an unset event, failed for want of a file |
| ShardFiles.DiskMatchesTable | src/adapters/storage/shard_tier.py:486-561 | in any run every file has its entry or an initiator still deciding its fate; and for every URI whose file nobody outside deleted, an entry has its file and no initiator works on it |
| ShardFiles.WarmExactlyUntilLost | src/adapters/storage/shard_tier.py:465-477 | in any run a warm URI is warm after each further step, and so served without a download, if and only if no step evicts it, picks it as a victim, unlinks it for a refused prewarm, or deletes its file from outside |
| ShardFiles.RefusedPrewarmUnlinksAServedFile | src/adapters/storage/shard_tier.py:705-718 | a run in which a fetch is served and a refused prewarm then unlinks that file, although nothing was evicted |
| ShardFiles.AdmissionEndsWithTheFile | src/adapters/storage/shard_tier.py:549-552 | in any run, a fetch's admission ends with file and entry in place exactly when the file was there before it and fits the budget |
| ShardFiles.FetchEndsWithItsFile | src/adapters/storage/shard_tier.py:529-552 | in any run, a fetch that published its file has it when its admission ends exactly when the file fits the budget and no step since the publication deleted that URI's file |
| ShardFiles.UndisturbedFetchEndsWithItsFile | src/adapters/storage/shard_tier.py:549-552 | unless somebody outside deleted the URI's file, a fetch's admission ends with it exactly when it fits the budget |
| ShardFiles.OversizeFetchEndsWithoutItsFile | src/adapters/storage/shard_tier.py:317-341 | a run in which a fetch succeeds and its file is gone because it exceeds the budget |
| ShardFiles.StaleEntryLosesTheFile | src/adapters/storage/shard_tier.py:543-552 | a run in which a fetch succeeds and its file is gone because a stale entry was evicted meanwhile |
| CoalescedDownload.DownloadedPerRemoval | src/adapters/cache/shard_fetch.py:121-214 | in any run a URI's downloads are the outside deletions of its file, and one more if it is on disk |
| CoalescedDownload.DownloadedOnce | src/adapters/cache/shard_fetch.py:121-214 | while nobody deletes this URI's file it is downloaded exactly once if it is on disk and never otherwise, and a caller given its path always finds it |
| CoalescedDownload.SingleFlightHolds | src/adapters/cache/shard_fetch.py:128-214 | one initiator per URI, no forgotten waiter, no set event in flight |
| CoalescedDownload.OutcomesAreEarned | src/adapters/cache/shard_fetch.py:121-214 | in any run a thread has exactly the outcomes it earned: a path for a file that was there or just published, none after a wait for one that is not, a timeout on an unset event, a failed download |
| CoalescedDownload.WaitersWaitForTheirEvent | src/adapters/cache/shard_fetch.py:128-180 | a wait ends in a wake-up exactly when its event is set and in a timeout exactly when it is not |
| CoalescedDownload.CallersShareOneDownload | src/adapters/cache/shard_fetch.py:128-214 | a run in which a second caller waits for a download under way and both get the path after one download |
| ReliableQueue.Topic.Publish | src/adapters/queue/queue.py:137-172 | a fresh message heads the main list |
| ReliableQueue.Topic.Consume | src/adapters/queue/queue.py:181-260 | the leftmost message moves to processing with one more attempt and a stamp |
| ReliableQueue.Topic.Ack | src/adapters/queue/queue.py:266-279 | removes the message if it is still on processing and deletes its counter and stamp in any case |
| ReliableQueue.Topic.Nack | src/adapters/queue/queue.py:282-329 | requeues, dead-letters when refused or out of attempts, or leaves a message that is no longer on processing alone |
| ReliableQueue.Topic.ReclaimStale | src/adapters/queue/queue.py:413-470 | one pass moves exactly the stale entries, spent ones to the dead-letter list and the others to main in order, stamps the unstamped, and counts the moved |
| ReliableQueue.ReclaimSplits | src/adapters/queue/queue.py:437-469 | entry-by-entry handling adds up to that one split |
| QueueCalls.PublishIsOneCommand | src/adapters/queue/queue.py:154-172 | a publication heads the main list with an id of its own |
| QueueCalls.ConsumeRunsThrough | src/adapters/queue/queue.py:203-234 | a take and its stamp, run without interruption, leave what the topic's consume leaves |
| QueueCalls.AckRunsThrough | src/adapters/queue/queue.py:266-279 | so do the commands of an acknowledgement |
| QueueCalls.NackRunsThrough | src/adapters/queue/queue.py:307-329 | and of a nack: dead-lettered at max attempts or when refused, and requeued below |
| QueueCalls.ReclaimRunsThrough | src/adapters/queue/queue.py:437-469 | and of a reaper for one listed entry: stamped if unstamped, passed over if fresh, and otherwise dead-lettered at max attempts and requeued below |
| QueueCalls.PassRunsThrough | src/adapters/queue/queue.py:413-470 | and of its whole pass |
| QueueReaper.ReapersSpareFreshDeliveries | src/adapters/queue/queue.py:425-456 | a delivery made while no reaper is under way stays on processing as long as every reaper's pass begins before it is older than the timeout and its holder does not settle it |
| QueueSteps.MessagesAreConserved | src/adapters/queue/queue.py:154-172 | at every command boundary each published message has exactly one copy on a list or in hand, or left by an acknowledgement that removed it or a crash in hand |
| QueueSteps.LostExactlyByCrashInHand | src/adapters/queue/queue.py:307-329 | a message is gone without an acknowledgement if and only if an agent crashed with it in hand |
| QueueAttempts.CounterAccurateIff | src/adapters/queue/queue.py:276-279 | the attempt counter equals the deliveries of every live message throughout a run if and only if no live message's counter is deleted |
| QueueAttempts.AcksThatRemoveKeepTheCounter | src/adapters/queue/queue.py:266-279 | that is the case when every acknowledgement finds its message on processing |
| QueueAttempts.AttemptsStayUnderTheCap | src/adapters/queue/queue.py:313-329 | then, if no message leaves processing between its take and its stamp, one on main has fewer than max attempts, one on processing at most max, and none is ever delivered more often |
| QueueCap.CountedAndCappedIff | src/adapters/queue/queue.py:225-234 | in any run counters are right and no message, settled ones included, is delivered more than max times, with one delivery left for every message on main or headed there, if and only if no step deletes a live counter and no stamp lands on a message that has had all the deliveries its place allows |
| QueueCap.StepKeepsCapIff | src/adapters/queue/queue.py:225-329 | of all steps, only a stamp on a message that has had all its place allows, dead-lettered and acknowledged ones included, breaks the cap, and each such stamp does |
| QueueCap.InTimeIsNeverFull | src/adapters/queue/queue.py:225-234 | stamps written while the message is still on processing never land on one that has had all its deliveries |
| QueueAttempts.AtomicIsInTime | src/adapters/queue/queue.py:203-234 | when take and stamp are one step, stamps are in time, so the cap theorems apply |
| QueueCap.DeadLetteredAfterExactlyMax | src/adapters/queue/queue.py:459-468 | under the condition of CountedAndCappedIff, an unacknowledged message is dead-lettered exactly when it was refused or its max-th delivery is settled |
| QueueRuns.StaleAcksRetryForever | src/adapters/queue/queue.py:276-279 | with stale acknowledgements, for any number of deliveries there is a run after which the message is still on main |
| QueueRuns.LateStampsBreakTheCap | src/adapters/queue/queue.py:200-233 | with late stamps there is a run that delivers a message max + 1 times and deletes no live counter |
| QueueRuns.LateStampDeliversADeadLetter | src/adapters/queue/queue.py:225-234 | a run that delivers a message once more after it was dead-lettered with max deliveries, and deletes no live counter |
| QueueRuns.CrashInHandLosesTheMessage | src/adapters/queue/queue.py:311-328 | a run that loses an unacknowledged message |
| CatalogCache.InstallRespectsTheBound | src/adapters/cache/catalog_cache.py:96-102 | after an install at most max_entries remain, one per key, and the new one is kept exactly when the bound is at least one |
| CatalogCache.OnlyTheOldestGo | src/adapters/cache/catalog_cache.py:98-102 | an install drops only the oldest entries and no more than the bound demands |
| CatalogCache.ServedIffYoung | src/adapters/cache/catalog_cache.py:74-85 | a lookup is served exactly when the key has an entry stored less than the time bound ago, and with that entry |
| CatalogCache.HitMovesToTheEnd | src/adapters/cache/catalog_cache.py:74-85 | a served lookup moves its entry to the MRU end and keeps the others in order; one not served changes nothing |
| CatalogCache.InvalidatesOneKey | src/adapters/cache/catalog_cache.py:105-116 | an invalidation takes the key's entry and moves its generation, and no other key's |
| CatalogCache.ListingCache.Look | src/adapters/cache/catalog_cache.py:74-85 | a hit younger than the bound is served and moved to the MRU end; otherwise the current generation is captured |
| CatalogCache.ListingCache.Install | src/adapters/cache/catalog_cache.py:89-103 | rows are installed exactly when the generation has not moved |
| CatalogCache.ListingCache.Invalidate | src/adapters/cache/catalog_cache.py:105-116 | the entry goes, the generation advances, and the result says whether there was one |
| CacheSteps.CachedRowsAreFresh | src/adapters/cache/catalog_cache.py:76-103 | with overlapping fetches and invalidations, cached rows come from a source read begun after the key's latest invalidation |
| CacheSteps.CallsSeePastInvalidations | src/adapters/cache/catalog_cache.py:105-116 | a call that starts after an invalidation never returns rows read before it |
| CacheSteps.LooksServeYoungRows | src/adapters/cache/catalog_cache.py:74-85 | in any run a look returns the cached rows exactly when they were stored less than the time bound ago, and goes to the source otherwise |
| CacheSteps.OlderRowsMayReplaceNewer | src/adapters/cache/catalog_cache.py:86-97 | reads of a key are not monotone: a fetch begun earlier may install later |
| TokenBucket.Bucket.Take | src/services/auth/quota.py:97-110 | one call refills by elapsed time, caps at burst, and spends a token if there is one |
| TokenBucket.LevelIsLeastLeft | src/services/auth/quota.py:103-110 | over any run the level is the least that any window of past calls leaves unspent |
| TokenBucket.BucketKeepsTheLimit | src/services/auth/quota.py:86-110 | every window of any run accepts at most burst plus rate times its length |
| TokenBucket.BucketIsOptimal | src/services/auth/quota.py:97-110 | no other choice within those limits accepts more, on any prefix |
| TokenBucket.RateLimiter.TakeToken | src/services/auth/quota.py:133-140 | spends from the key's own bucket, created full on first use, and touches no other |
| TokenBucket.KeysAreIndependent | src/services/auth/quota.py:113-140 | a key's decisions depend on that key's call times alone |
| TokenBucket.AnswersAreTheBuckets | src/services/auth/quota.py:113-140 | over any calls, the limiter answers one key what a single bucket fed with that key's calls decides |
| TokenBucket.LimiterIsTightPerKey | src/services/auth/quota.py:113-140 | per key, the accepted calls keep within burst plus rate times any window, and no other choice within that accepts more |
| ShardUri.BuildParses | src/adapters/storage/shard_uri.py:43-105 | building then parsing returns the parts if and only if none is empty and none contains a slash |
| ShardUri.ParsedIsRendered | src/adapters/storage/shard_uri.py:64-105 | every accepted URI is rebuilt character for character from its parts |
| ShardUri.AcceptedLanguage | src/adapters/storage/shard_uri.py:64-105 | the accepted strings are exactly the renderings of plain parts with a sixteen-digit hash |
| ShardUri.HashesAreSixteenHexDigits | src/adapters/storage/shard_uri.py:90-105 | a hash is accepted exactly when it is sixteen lower-case hex digits |
| ShardUri.ExampleUri | src/adapters/storage/shard_uri.py:8-14 | one URI spelt out character for character, built and parsed |
| ShardUri.RenderingsAreUnique | src/adapters/storage/shard_uri.py:57-61 | different parts never share a URI |
| ShardUri.LegacyUnlessItLooksHashed | src/adapters/storage/shard_uri.py:108-129 | a shard-{id}.bin file is legacy exactly when the last hyphen-separated chunk of its id is not sixteen hex digits |
| ShardUri.VersionedIsNotLegacy | src/adapters/storage/shard_uri.py:122-128 | no accepted URI is legacy |

## Left out

- Bulk-ingest and landing-delete builds: they carry the watermark forward and work outside the LSN order.
- Deleting and re-creating a dataset, and turning the delta tier on or off over existing shards.
- FAISS approximation, float rounding, and the order of equal scores; SHA-1 and SHA-256, which appear as an injective hash and a digest parameter.
- Failed sidecar reads during a query or a compaction, which degrade ids rather than contents.
- The PostgreSQL recall and catalog backends beyond the one-pass search and the batch deduplication; the Redis and S3 wire protocols; the in-process queue.
- Tier restart with files left on disk, orphan temporary files, and file-size calls that fail although the file exists.
- `clear()` of the catalog cache, which resets generation counters, its inactive pass-through, and a negative entry bound, for which its loop would raise an error.
- The residency registry writer, quota counters, API keys, import jobs, dataset status changes, metrics, tracing, configuration parsing and HTTP routing.
