# mesa-ducklake in Dafny

mesa-ducklake versions the metadata (AVUs) of iRODS projects. Every batch of
changes becomes one Parquet file, `snapshot_<id>.parquet`, that ends up in the
project's collection in iRODS; a catalog (Postgres, a DuckDB file, or a DuckDB
file served over Quack) lists the snapshots and queues the uploads still under
way; each host keeps a local cache of the files and answers queries from it.

This project models that system and proves what it is for.

* **The write protocol** (`Protocol`) is a labelled transition system: any
  number of writers (`record_changes`), recoverers (`recover_pending_pushes`),
  readers filling caches, evictions and crashes, interleaved one catalog
  statement, file operation or iRODS call at a time. `Invariant`, `StoreSteps`,
  `WriterSteps`, `RecovererSteps` and `Safety` prove an inductive invariant of
  all its runs; `ProtocolTheorems`, `LakeContents` and `EndToEnd` draw the
  results from it. `Overlap`, `Stranded`, `Settling` and `Serial` say exactly
  where the guarantees stop, and `Witnesses` holds concrete runs.
* **Recovery** (`Recovery`, `Summaries`, `Draining`, `Restart`, `Settling`,
  `RecoveryRefines`): the accounting of one run, what each counter of its summary
  means over the state, the bound on how many runs drain the queue, which pending snapshots recovery can settle, and the equivalence of
  interrupted and uninterrupted recovery.
* **The catalogs** (`CatalogTables`, `CatalogStores`, `CatalogBase`, `Backends`):
  the tables, both backends' statements, exactly when they agree, whole call
  sequences cut anywhere, and the surface through which a caller uses either.
* **Files, the log and its queries** (`Avu`, `WriteOrder`, `Storage`, `Checksum`,
  `Effective`, `Lake`): the order rows are written in, the checksum comparison,
  and the windowed query against replay of the log, time travel, history and diff.
* **The program as it runs** (`Sync`, `Recording`, `Reading`, `Client`, `Cache`):
  the same operations as methods that update a catalog, an iRODS zone and a disk
  in place, each proved against a specification that is in turn proved to be a
  run of the transition system. The specification covers the order of the
  operations: the methods expose the catalog, the disk and iRODS as they are after
  each of them, and these are the states the run passes through.
* **Smaller loops** (`Binding`, `Quack`, `Migrations`, `Walk`). `Wrappers` and
  `Names` are shared by all.

## Assumptions

* `Env.exclusive`: a recoverer takes up a row only while no live writer or other
  recoverer works on it. `Env.atomicPut`: an upload stores the local bytes or
  nothing. The invariant holds in every environment, and so do the theorems about
  the catalog. Those about what iRODS and the caches hold need one of the two
  (`Dependable`); the lifecycle, cache transparency and restart theorems need the
  first. `Overlap` proves the conditions for durability and lifecycle exact.
* iRODS answers a checksum request for the object it stores. When the answer
  carries no digest the client can recompute, the upload it follows is taken to
  have been faithful (`AnswerMay` in `Protocol`); otherwise nothing is assumed,
  and a damaged upload is caught by the comparison.
* Clocks, generated project ids, the outcomes of uploads, pulls and unlinks, and
  the order of directory walks are parameters; every theorem is for all of them.
* Rows with equal sort keys come back in any order: a query result is any
  linearisation, and the theorems say which answers depend on the choice.
* The runs start with an empty catalog and an empty iRODS collection.
* Project ids and paths are plain strings; timestamps are integers.

## Code and documentation

* The schema comment of the DuckDB catalog says integrity is enforced by the
  client "exactly as it is for Postgres" (`src/mesa_ducklake/catalog_duckdb.py:36-38`).
  For arbitrary callers that is not so (`BackendsDiffer`): the two backends agree
  on a call exactly when it is legal (`BackendsAgree`). For the calls the protocol
  issues it holds (`ProtocolRunsOnEitherBackend`, `EveryRunOnDuckDB`).
* The sync module says a crash anywhere from the insertion of the queue row on is
  recovered (`src/mesa_ducklake/irods_sync.py:24-27`). A crash just before it is
  not: the row stays pending for ever (`CrashStrands`, `StrandedForever`). What a
  crash leaves can be settled exactly when its id is in the queue
  (`SettledExactlyWhenQueued`).
* The sync module calls the Parquet body deterministic given the `ORDER BY`
  (`src/mesa_ducklake/irods_sync.py:29-30`). It need not be
  (`TiedEventsGiveTwoFiles`); it is exactly when rows that tie in the sort key are
  the same row (`FileIsDetermined`). Nothing proved here relies on it: recovery
  uploads the file that was written.
* Pending snapshots are described as invisible to reads
  (`src/mesa_ducklake/models.py:181-186`). On a host that wrote the file they are
  not, nor are failed ones (`PendingIsShown`, `FailedIsShown`); a read shows only
  committed rows exactly when its lake directory caches no uncommitted snapshot
  (`ShowsOnlyCommitted`).
* The latest snapshot, taken as the parent of the next, is described as the latest
  committed one (`src/mesa_ducklake/catalog.py:235-237`). It may be one that
  recovery gave up (`FailedBecomesParent`); it is committed exactly when it was not
  given up (`LatestIsCommitted`).
* Recovery that overlaps a live writer may overwrite a committed name with
  `failed` (`OverlapLosesACommit`); nothing in the code excludes it.
* A snapshot that recovery commits after a newer one of its project was settled
  is on no parent path from the newest (`LateCommitForks`, `ForkHappens`).

## Model

| member | source | states |
|---|---|---|
| `Names.SnapshotFileInjective` | src/mesa_ducklake/client.py:311-311 | distinct ids give distinct file names, and no name is a sentinel or holds a slash |
| `Names.Addressing` | src/mesa_ducklake/client.py:311-315 | the name is recovered from both stored paths; two snapshots never share a local path or an iRODS target, whatever projects and roots they have |
| `Names.SnapshotFileReadsBack` | src/mesa_ducklake/client.py:311-311 | the name is "snapshot_", the id in decimal without leading zeros, and ".parquet" |
| `Names.TargetSpells` | src/mesa_ducklake/client.py:314-315 | the target is the project's ducklake path, a slash and the file name, whether or not the path ends in slashes |
| `Names.StripSlashesMeans` | src/mesa_ducklake/client.py:314-314 | stripping removes exactly the slashes at the end |
| `Checksum.TextDecides` | src/mesa_ducklake/irods_sync.py:105-138 | stripping, splitting at the colon and lower-casing the checksum string decides as comparing the digest it reports does |
| `Checksum.TextAcceptedExactlyWhenIntact` | src/mesa_ducklake/irods_sync.py:105-138 | whatever its case, prefix and padding, an honest checksum string is accepted exactly when the stored bytes are the local ones or it names no algorithm the client can recompute |
| `Checksum.Sha2IsChecked` | src/mesa_ducklake/irods_sync.py:113-123 | a digest behind "sha2:" is accepted exactly when it is the local file's SHA-256, capitals read as small letters |
| `Checksum.Sha256IsChecked` | src/mesa_ducklake/irods_sync.py:113-123 | the same behind "sha256:" |
| `Checksum.CapitalsAreChecked` | src/mesa_ducklake/irods_sync.py:120-123 | the same behind "SHA2:" |
| `Checksum.Md5IsChecked` | src/mesa_ducklake/irods_sync.py:113-125 | a digest behind "md5:" is accepted exactly when it is the local file's MD5 |
| `Checksum.BlankIsRejected` | src/mesa_ducklake/irods_sync.py:107-118 | only an empty string counts as no checksum; one of blanks is a mismatch |
| `WriteOrder.FileOrderMeans` | src/mesa_ducklake/lake.py:201-205 | rows of a file follow the time, then the attribute, then the value, then the unit |
| `WriteOrder.BeforeMeans` | src/mesa_ducklake/lake.py:201-205 | texts are ordered by their first difference, a prefix first |
| `WriteOrder.FileIsStamped` | src/mesa_ducklake/lake.py:164-186 | each row of a file is one of the changes, owned by the project and snapshot and otherwise unaltered, and every change is there |
| `WriteOrder.FileIsDetermined` | src/mesa_ducklake/lake.py:201-205 | `ORDER BY ts, attribute, value, unit` determines the file exactly when rows that tie in the key are the same row |
| `WriteOrder.TiedEventsGiveTwoFiles` | src/mesa_ducklake/irods_sync.py:29-30 | an add and a delete of one triple at one time may be written in either order |
| `CatalogTables.BackendsAgree` | src/mesa_ducklake/catalog_duckdb.py:36-74 | the constraint-free DuckDB file and the Postgres schema give the same tables and reply exactly on legal calls, and then every constraint holds in each state a crash can leave |
| `CatalogTables.BackendsDiffer` | src/mesa_ducklake/catalog_duckdb.py:36-38 | queueing a push for a snapshot that does not exist: Postgres refuses, DuckDB stores a dangling row |
| `CatalogTables.ChildFirstOrderMatters` | src/mesa_ducklake/catalog_duckdb.py:227-231 | deleting the snapshot row first would keep the constraints exactly when it is not queued |
| `CatalogTables.LatestMeans` | src/mesa_ducklake/catalog.py:226-258 | the latest snapshot is the largest id of the project whose file name is not "pending" |
| `CatalogTables.NewestIdsCover` | src/mesa_ducklake/catalog_duckdb.py:248-265 | a row is in the limited newest-first listing exactly when fewer than `limit` rows are newer |
| `CatalogTables.Queue` | src/mesa_ducklake/catalog.py:400-414 | the drain order lists every queued row once, by creation time, then id |
| `CatalogTables.OldestPushesFirst` | src/mesa_ducklake/catalog.py:400-414 | the listing is the one sequence, as long as the limit allows, with the smallest creation times first, smaller ids first among equals, that leaves out only later rows |
| `CatalogTables.DrainOrderUnique` | src/mesa_ducklake/catalog.py:400-414 | the table determines the drain order |
| `CatalogStores.PostgresKeepsConstraints` | migrations/0001_initial.sql:52-60 | no call, legal or not, breaks keys, uniqueness or foreign keys in Postgres |
| `CatalogStores.PostgresCatalogStore.RegisterProject` | src/mesa_ducklake/catalog.py:97-122 | registers once per path, with the default collection unless one is given; keeps the constraints |
| `CatalogStores.PostgresCatalogStore.CreateSnapshot` | src/mesa_ducklake/catalog.py:154-182 | inserts the next id, or raises on a dangling project or parent having used up the id |
| `CatalogStores.PostgresCatalogStore.UpdateSnapshotParquetFile` | src/mesa_ducklake/catalog.py:184-209 | changes the file name of an existing row only, or raises |
| `CatalogStores.PostgresCatalogStore.DeleteSnapshot` | src/mesa_ducklake/catalog.py:211-224 | removes row and queue entry together, or raises when a child refers to it |
| `CatalogStores.PostgresCatalogStore.InsertPendingPush` | src/mesa_ducklake/catalog.py:317-361 | an existing entry wins and is returned; a new one needs its snapshot |
| `CatalogStores.PostgresCatalogStore.BumpPendingPushAttempt` | src/mesa_ducklake/catalog.py:371-398 | one more attempt and the truncated error, or nothing when the row is gone |
| `CatalogStores.DuckDBCatalogStore.CreateSnapshot` | src/mesa_ducklake/catalog_duckdb.py:202-214 | inserts the next id unchecked |
| `CatalogStores.DuckDBCatalogStore.DeleteSnapshot` | src/mesa_ducklake/catalog_duckdb.py:227-231 | two statements, queue entry first; the state between them is exposed |
| `CatalogStores.DuckDBCatalogStore.InsertPendingPush` | src/mesa_ducklake/catalog_duckdb.py:281-300 | as in Postgres, without the foreign key |
| `CatalogStores.DuckDBCatalogStore.UpdateSnapshotParquetFile` | src/mesa_ducklake/catalog_duckdb.py:216-225 | changes the file name of an existing row only, or raises |
| `CatalogStores.DuckDBCatalogStore.BumpPendingPushAttempt` | src/mesa_ducklake/catalog_duckdb.py:305-317 | one more attempt and the truncated error, or nothing when the row is gone |
| `CatalogBase.KeptByEither` | src/mesa_ducklake/catalog_base.py:18-55 | on a legal call either store answers as Postgres does and keeps its constraints |
| `CatalogBase.CatalogStore.CreateSnapshot` | src/mesa_ducklake/catalog_base.py:30-33 | on either store: the next id is inserted, and the constraints hold afterwards |
| `CatalogBase.CatalogStore.DeleteSnapshot` | src/mesa_ducklake/catalog_base.py:35-35 | on either store: row and queue entry of a childless snapshot go |
| `CatalogBase.CatalogStore.InsertPendingPush` | src/mesa_ducklake/catalog_base.py:46-48 | on either store: an existing entry wins and is returned |
| `Backends.SequencesAgree` | src/mesa_ducklake/catalog_duckdb.py:202-317 | any sequence of calls, each legal in its turn, gets the same replies from both backends and leaves the same tables, constraints intact |
| `Backends.CutAnywhere` | src/mesa_ducklake/catalog_duckdb.py:227-231 | cut between any two DuckDB statements of such a sequence, a delete's two included: the constraints hold at the cut, and the rest leads to the Postgres tables |
| `Backends.EveryRunOnDuckDB` | src/mesa_ducklake/catalog_duckdb.py:202-317 | in every run the calls issued so far, answered by a DuckDB store, get the Postgres replies, leave the protocol's tables, and keep the constraints at every cut |
| `Effective.WindowRows` | src/mesa_ducklake/queries.py:23-31 | the query keeps exactly the first row of each triple, when that row is an add |
| `Effective.WindowDistinct` | src/mesa_ducklake/queries.py:19-31 | no triple is returned twice |
| `Effective.WindowIsReplay` | src/mesa_ducklake/queries.py:15-32 | for any row order, the query returns, row for row, what replaying the rows in the opposite order leaves bound |
| `Effective.QueryIsReplay` | src/mesa_ducklake/queries.py:15-32 | for every tie-breaking on either side, the triples returned are those bound by folding adds and deletes in (ts, snapshot id) order |
| `Effective.TieIndependence` | src/mesa_ducklake/queries.py:19-22 | the answer is the same for every tie-breaking and file order exactly when tied newest events of each triple agree on op |
| `Effective.TimeTravelComposes` | src/mesa_ducklake/queries.py:23-31 | the state at T2 is the state at T1 with the events in (T1, T2] replayed on it |
| `Effective.PastIsStable` | src/mesa_ducklake/queries.py:26-26 | recording a snapshot whose events are later than T changes no answer as of T |
| `Avu.NewestMeans` | src/mesa_ducklake/queries.py:19-22 | newest first: from row to row the time falls, or stays while the snapshot id does not rise |
| `Lake.WindowIsEffective` | src/mesa_ducklake/queries.py:15-32 | no triple twice; each row is an add that no row of its triple beats by a later time, or the same time and a larger snapshot; triples that only adds decide are all there |
| `Lake.HistoryMeans` | src/mesa_ducklake/lake.py:328-355 | a history holds every row of the path as often as the view, latest time first, then larger snapshot |
| `Lake.DiffMeans` | src/mesa_ducklake/lake.py:357-387 | a diff holds every row of the project between its endpoints, adds and deletes alike, in time order, then by snapshot |
| `Lake.GlobbedMeans` | src/mesa_ducklake/lake.py:64-65 | the lake's files are those called snapshot_<anything>.parquet |
| `Lake.NewFileAddsRows` | src/mesa_ducklake/lake.py:212-236 | a new file adds its rows to the view and changes nothing else |
| `Lake.HistoryDecidesEffective` | src/mesa_ducklake/lake.py:328-355 | the effective set as of T is the first row of each triple in newest-first history up to T, kept if it is an add |
| `Lake.DiffsMerge` | src/mesa_ducklake/lake.py:357-387 | a chronological sequence answers diff(a, c) exactly when its two parts answer diff(a, b) and diff(b, c) |
| `Lake.LakeStore.WriteChanges` | src/mesa_ducklake/lake.py:144-208 | refuses an empty batch; otherwise stores the stamped rows in an order by ts, attribute, value and unit, and the view grows by the same multiset |
| `Lake.LakeStore.OpenReadCon` | src/mesa_ducklake/lake.py:212-236 | the view is the union of all snapshot files of the directory, readable exactly when none is damaged |
| `Lake.LakeStore.ReadEffectiveAvus` | src/mesa_ducklake/lake.py:274-326 | an effective set of the view as of the given time, from the window query over some newest-first order of the matching rows, without their target type |
| `Lake.LakeStore.ReadHistory` | src/mesa_ducklake/lake.py:328-355 | the first `limit` rows of a history of the path |
| `Lake.LakeStore.Diff` | src/mesa_ducklake/lake.py:357-387 | the chronological rows above the smaller and up to the larger endpoint, in either order of the endpoints |
| `Safety.StepKeeps` | src/mesa_ducklake/client.py:284-356 | every step of any writer, recoverer, reader or eviction keeps the protocol invariant |
| `Safety.Reachable` | src/mesa_ducklake/irods_sync.py:290-384 | the invariant holds in every state of every run, in every environment |
| `WriterSteps.AcceptedIsExact` | src/mesa_ducklake/irods_sync.py:195-210 | an upload that push accepts is the writer's exact file |
| `WriterSteps.WriterKeeps` | src/mesa_ducklake/client.py:289-351 | each step of a writer keeps the store's invariant, leaves other ids alone, and issues only legal calls |
| `RecovererSteps.RowExists` | src/mesa_ducklake/irods_sync.py:334-337 | in a reachable state a listed row's snapshot still exists, so the orphan branch is not taken |
| `RecovererSteps.RecovererKeeps` | src/mesa_ducklake/irods_sync.py:332-382 | each step of a recoverer keeps the store's invariant and leaves other ids alone |
| `ProtocolTheorems.CommittedIsDurable` | src/mesa_ducklake/client.py:334-351 | from the moment a session snapshot carries its real name, iRODS holds its exact stamped batch directly in the project's ducklake collection as snapshot_<id>.parquet, and that object never changes |
| `ProtocolTheorems.QueueIsAddressed` | src/mesa_ducklake/client.py:335-342 | every queued row's target is snapshot_<id>.parquet directly in its project's ducklake collection, where readers pull from; its local path has the same last component; rows share neither path |
| `ProtocolTheorems.SnapshotLifecycle` | src/mesa_ducklake/irods_sync.py:339-382 | with exclusive recovery a row goes from pending to its real name or to failed and stays; it vanishes only while pending and local-only, and its id never returns |
| `ProtocolTheorems.ProtocolRunsOnEitherBackend` | src/mesa_ducklake/catalog_duckdb.py:202-317 | every call the protocol issues is answered alike by both backends, and a crash between DuckDB statements leaves the state before or after the call, constraints intact |
| `ProtocolTheorems.ParentForest` | src/mesa_ducklake/client.py:289-299 | in every state of every run parent chains end, stay in their project, and pass through settled rows with falling ids |
| `Serial.SerialChainVisitsAll` | src/mesa_ducklake/client.py:284-356 | in any serial history of calls, failed writes and uploads included, the chain from the newest settled snapshot visits every settled snapshot of its project once, newest first |
| `Serial.LateCommitForks` | src/mesa_ducklake/irods_sync.py:378-382 | a later recovery of a pending snapshot keeps that chain exactly when no newer snapshot of the project was settled; otherwise the snapshot is on no path from the newest |
| `Witnesses.LatestIsCommitted` | src/mesa_ducklake/catalog.py:226-258 | in any reachable state the latest settled snapshot has its real name exactly when it is not a failed one |
| `Witnesses.FailedBecomesParent` | src/mesa_ducklake/client.py:289-292 | for every attempt cap, a run in which a writer's parent is a failed snapshot |
| `Witnesses.ForkHappens` | src/mesa_ducklake/client.py:334-351 | a failed push followed by a successful call leaves such a snapshot |
| `Overlap.OverlapLosesACommit` | src/mesa_ducklake/irods_sync.py:345-349 | for every attempt cap, a run in which overlapping recovery turns a committed name into failed |
| `Overlap.OverlapLosesAnObject` | src/mesa_ducklake/irods_sync.py:368-377 | for every positive attempt cap, a run in which it also damages the committed object |
| `Overlap.DurabilityCondition` | src/mesa_ducklake/irods_sync.py:332-382 | a committed name has its object in every run exactly when recovery is exclusive or uploads are atomic |
| `Overlap.LifecycleCondition` | src/mesa_ducklake/irods_sync.py:345-349 | a settled row never changes in any run exactly when recovery is exclusive |
| `Stranded.StrandedForever` | src/mesa_ducklake/client.py:293-342 | a pending row that is not queued and has no writer is never settled, queued or removed |
| `Stranded.CrashStrands` | src/mesa_ducklake/client.py:293-342 | a crash right after the snapshot row is created leaves one |
| `Settling.SettledExactlyWhenQueued` | src/mesa_ducklake/irods_sync.py:24-27 | from any reachable state, some later state has a pending snapshot nobody holds committed, failed or removed exactly when its id is in the push queue |
| `Settling.QueuedCanSettle` | src/mesa_ducklake/irods_sync.py:323-384 | a queued snapshot can be settled from any reachable state, with any attempt cap and any limit of at least one |
| `Settling.FairRunSettlesTheQueued` | src/mesa_ducklake/irods_sync.py:368-382 | a run with good uploads settles a pending snapshot exactly when it was queued |
| `Settling.DrainingSettlesTheQueued` | src/mesa_ducklake/irods_sync.py:345-366 | in any weather, after as many runs as the queue is heavy, a pending snapshot is over exactly when it was queued |
| `LakeContents.CachesAreFaithful` | src/mesa_ducklake/lake.py:64-65 | in every reachable state each file of a lake directory, on any host, is some snapshot's whole batch |
| `LakeContents.ViewIsCachedBatches` | src/mesa_ducklake/lake.py:212-236 | the view holds each row of a snapshot as often as it was recorded, exactly when the snapshot's file is cached |
| `LakeContents.RunNoneEmpty` | src/mesa_ducklake/client.py:254-283 | no run records an empty batch |
| `EndToEnd.ShowsOnlyCommitted` | src/mesa_ducklake/models.py:181-186 | in every run a read shows only committed rows exactly when its lake directory caches the file of no uncommitted snapshot |
| `Witnesses.PendingIsShown` | src/mesa_ducklake/models.py:181-186 | a run after which a read on the writer's host shows a pending snapshot |
| `Witnesses.FailedIsShown` | src/mesa_ducklake/irods_sync.py:345-349 | for every attempt cap, a run after which it shows a failed one |
| `EndToEnd.ListedExactly` | src/mesa_ducklake/client.py:186-193 | a read asks for a committed snapshot exactly when fewer than 1000 settled ones are newer |
| `EndToEnd.FreshReaderSeesCommitted` | src/mesa_ducklake/client.py:179-211 | a reader with an empty cache whose pulls succeed sees exactly the committed batches it listed, whatever everybody else does meanwhile |
| `EndToEnd.EffectiveIsCommittedReplay` | src/mesa_ducklake/client.py:397-411 | its effective set as of T binds exactly the triples that replaying the committed batches up to T binds |
| `EndToEnd.CacheIsTransparent` | src/mesa_ducklake/cache.py:71-91 | with exclusive recovery and at most 1000 settled rows: two reads after completed fills, on any hosts, with any steps between, evictions included, hold every row of every snapshot committed at the first exactly as often as it was recorded |
| `EndToEnd.ReadIsWhole` | src/mesa_ducklake/client.py:179-211 | in every run a read after a completed fill holds every committed batch of its project whole |
| `EndToEnd.FillMakesWhole` | src/mesa_ducklake/irods_sync.py:271-282 | a completed fill brings back every listed snapshot with its exact batch, whatever was evicted |
| `EndToEnd.CommittedStay` | src/mesa_ducklake/irods_sync.py:339-382 | with exclusive recovery what is committed stays committed, what is settled settled |
| `Recovery.RunLeaves` | src/mesa_ducklake/irods_sync.py:323-384 | after a run the queue is the survivors in their old order followed by the rows it did not reach |
| `Recovery.LoopEffect` | src/mesa_ducklake/irods_sync.py:332-382 | each listed row is handled by its own branch, and no other row or snapshot is touched |
| `Recovery.Accounting` | src/mesa_ducklake/irods_sync.py:323-384 | the queue shrinks by exactly pushed + committed + failed + orphaned; processed survivors gained one attempt; the rest is untouched |
| `Summaries.SummaryCounts` | src/mesa_ducklake/irods_sync.py:320-384 | pushed counts the listed rows that were pending below the cap and left the queue, failed those pending at the cap, committed those already settled, orphaned those without a snapshot, missing those still queued whose file is not on the host |
| `Summaries.SummaryInRuns` | src/mesa_ducklake/irods_sync.py:320-384 | over any reachable state pushed counts the listed snapshots that went from pending to their real names, failed those that went to failed |
| `Summaries.LoopBranches` | src/mesa_ducklake/irods_sync.py:332-382 | each listed row takes the branch that the state before the run prescribes |
| `Summaries.SurvivorsSayWhy` | src/mesa_ducklake/irods_sync.py:354-374 | a row that stays queued has one more attempt and says that its file is missing or how its push failed |
| `Recovery.DroppedIsSettled` | src/mesa_ducklake/irods_sync.py:332-382 | the snapshot of a row that left the queue is gone, committed or failed |
| `Draining.NoRowStarves` | src/mesa_ducklake/irods_sync.py:345-366 | the row at place p is gone after at most as many runs as the rows up to it can still take, with any limit of at least one and any failures |
| `Draining.QueueDrains` | src/mesa_ducklake/irods_sync.py:345-366 | after as many runs as the summed remaining attempts plus one per row, nothing is queued |
| `Draining.FreshQueueDrains` | src/mesa_ducklake/irods_sync.py:60-63 | with the default cap the first n rows of a fresh queue are gone after 6 n runs |
| `Draining.DrainedIsSettled` | src/mesa_ducklake/irods_sync.py:332-382 | when the queue is drained, every snapshot it held is gone, committed or failed |
| `Restart.FairRunSettles` | src/mesa_ducklake/irods_sync.py:368-382 | one uninterrupted run whose uploads succeed commits every due snapshot, stores its file and empties the queue |
| `Restart.InterruptedEqualsUninterrupted` | src/mesa_ducklake/irods_sync.py:332-382 | after recoveries interrupted at any steps, any number of times, even side by side, a rerun empties the queue and ends with exactly the catalog, queue and iRODS state of one uninterrupted run |
| `Restart.GoodRunIsFair` | src/mesa_ducklake/irods_sync.py:368-382 | in a reachable state with its files at hand a recovery needs nothing but uploads that succeed |
| `Witnesses.InterruptedRecovery` | src/mesa_ducklake/irods_sync.py:368-382 | a recovery stopped between upload and commit meets the premises of the restart theorem |
| `RecoveryRefines.RowIsSteps` | src/mesa_ducklake/irods_sync.py:332-382 | one iteration is a sequence of protocol steps with the same effect, passing through the states its operations leave in their order |
| `RecoveryRefines.LoopIsSteps` | src/mesa_ducklake/irods_sync.py:323-384 | the whole loop is a run of the protocol's recoverer through those states |
| `Recording.CallIsSteps` | src/mesa_ducklake/client.py:284-356 | an uninterrupted record_changes call is a run of the protocol's writer, passes through the states its operations leave in their order, and ends as stated, case by case |
| `Recording.ColumnsLeft` | src/mesa_ducklake/client.py:284-356 | column by column, the row and the queue entry a call leaves when it succeeds, fails with a session, and fails without one |
| `Reading.FillIsPulls` | src/mesa_ducklake/irods_sync.py:235-282 | a completed fill is a run of pulls of listed snapshots that leaves the host with the same files |
| `Reading.AnswerIsCommittedReplay` | src/mesa_ducklake/client.py:397-411 | after a completed fill of an empty cache, the client's window query binds exactly the triples that replaying the committed batches up to T binds |
| `Sync.Push` | src/mesa_ducklake/irods_sync.py:163-210 | accepted exactly when the put did not raise and the fetched checksum fits |
| `Sync.Pull` | src/mesa_ducklake/irods_sync.py:213-232 | one object into one file, or nothing |
| `Sync.MissingMeans` | src/mesa_ducklake/irods_sync.py:273-278 | the names to pull are the expected real names not on disk, each once |
| `Sync.EnsureCached` | src/mesa_ducklake/irods_sync.py:235-282 | pulls exactly the missing real names in order; on a failed pull exactly the missing ones before it are cached |
| `Sync.FilledMeans` | src/mesa_ducklake/irods_sync.py:271-282 | files present stay as they are, missing ones come as iRODS has them, nothing else appears |
| `Sync.RecoverOne` | src/mesa_ducklake/irods_sync.py:332-382 | the five paths of one row, and the catalog and zone after each operation in its order |
| `Sync.RecoverPendingPushes` | src/mesa_ducklake/irods_sync.py:290-384 | the loop over catalog and zone equals the specified run, operation by operation, and the summary tallies its outcomes |
| `Client.DuckLakeClient.RecordLocally` | src/mesa_ducklake/client.py:320-333 | without a session: commit, or undo the row when the write fails |
| `Client.DuckLakeClient.RecordWithSession` | src/mesa_ducklake/client.py:334-351 | with a session: queue, write, push, commit, dequeue, in this order, with the host exposed after each; a failure leaves the row pending and queued |
| `Client.DuckLakeClient.RecordChanges` | src/mesa_ducklake/client.py:254-356 | refuses an empty batch or unknown project untouched; otherwise passes through the specified states, ends as specified and evicts only after success; a per-call session leaves the constructor's untouched |
| `Client.DuckLakeClient.GetLake` | src/mesa_ducklake/client.py:168-173 | one lake per project, rooted in the project's cache directory |
| `Client.DuckLakeClient.EnsureProjectCached` | src/mesa_ducklake/client.py:179-211 | fills the cache from the newest 1000 settled rows and swallows a failed pull |
| `Client.DuckLakeClient.OpenProject` | src/mesa_ducklake/client.py:179-211 | the common part of the reads: project, filled cache when there is a session, lake |
| `Client.DuckLakeClient.GetAvusAsOf` | src/mesa_ducklake/client.py:397-411 | fills the cache when there is a session, then answers from the lake |
| `Client.DuckLakeClient.GetHistory` | src/mesa_ducklake/client.py:413-426 | the same for history |
| `Client.DuckLakeClient.Diff` | src/mesa_ducklake/client.py:431-444 | the same for diff |
| `Client.DuckLakeClient.RecoverPendingPushes` | src/mesa_ducklake/client.py:358-382 | refuses without a session; otherwise one recovery run, with the per-call session if there is one |
| `Cache.TotalWithout` | src/mesa_ducklake/cache.py:27-37 | the size of the cache does not depend on the order of the walk |
| `Cache.TotalBytesOf` | src/mesa_ducklake/cache.py:27-37 | summing over a walk gives the size of the cache |
| `Cache.EvictIfOver` | src/mesa_ducklake/cache.py:40-91 | removes the unlinkable files of an oldest-first prefix, each tried while the cache was over the cap, and stops at the first point at or under it; without errors the result fits |
| `Cache.EvictsNoMoreThanNeeded` | src/mesa_ducklake/cache.py:71-91 | when unlinks work the rest fits, nothing that went is younger than anything that stayed, and the youngest that went would not have fitted |
| `Binding.BindAsVariables` | src/mesa_ducklake/catalog_quack.py:53-72 | the scanner rewrites the text, or raises exactly when the count of unquoted placeholders differs |
| `Binding.ReadsItsParameter` | src/mesa_ducklake/catalog_quack.py:132-140 | with the parameters set as session variables, what the bound text reads in place of the k-th question mark outside string literals is parameter k |
| `Binding.PlaceholderSpells` | src/mesa_ducklake/catalog_quack.py:65-67 | placeholder n is getvariable('_mesa_p<n>'), and different ones read different variables |
| `Binding.PlaceholdersCounted` | src/mesa_ducklake/catalog_quack.py:59-69 | the scanner counts the question marks that an even number of quotes precedes |
| `Binding.EachCharacter` | src/mesa_ducklake/catalog_quack.py:62-69 | every character keeps its place, and the k-th unquoted placeholder becomes variable k |
| `Binding.ParityKept` | src/mesa_ducklake/catalog_quack.py:63-64 | quote parity is preserved at every boundary |
| `Binding.RebindsToItself` | src/mesa_ducklake/catalog_quack.py:53-72 | the output has no placeholder left and rebinds to itself |
| `Binding.LiteralPasses` | src/mesa_ducklake/catalog_quack.py:49-50 | a quoted literal passes through the rewrite unchanged and leaves the quoting as it was |
| `Binding.LiteralReadsBack` | src/mesa_ducklake/catalog_quack.py:49-50 | a literal reads back as the text it was made from, and ends where it should |
| `Quack.QuackCatalogStore.Run` | src/mesa_ducklake/catalog_quack.py:120-130 | applied once on return, with each parameter in its own variable; not at all on a raised conflict; within retries + 1 attempts; lock free on every exit |
| `Quack.ExactlyOnce` | src/mesa_ducklake/catalog_quack.py:120-142 | in every interleaving of threads at most one statement is in flight and each call is applied exactly once or not at all, a conflict being raised only by the last attempt |
| `Migrations.VersionReadsBack` | src/mesa_ducklake/schema.py:27-27 | a version is read back from every zero-padded file name it is written in |
| `Migrations.OnlyTitled` | src/mesa_ducklake/schema.py:27-27 | only files called <digits>_<title>.sql have a version, and it is the number of the digits |
| `Migrations.PendingMembers` | src/mesa_ducklake/schema.py:163-168 | a run wants exactly the migrations not yet recorded, up to and including the target |
| `Migrations.Discover` | src/mesa_ducklake/schema.py:49-69 | every versioned file, ascending, or an error exactly when two share a version |
| `Migrations.Runner.Apply` | src/mesa_ducklake/schema.py:124-185 | applies the pending migrations in order up to the first failure, which leaves no trace |
| `Migrations.Resumes` | src/mesa_ducklake/schema.py:163-185 | a run picks up exactly where the last one stopped |
| `Migrations.StagedEqualsFull` | src/mesa_ducklake/schema.py:165-183 | a staged run followed by a full run executes the sequence of one full run; a third run does nothing |
| `Migrations.BelowTheFailure` | src/mesa_ducklake/schema.py:171-183 | when a run stops at a failure exactly the wanted migrations below it are applied |
| `Migrations.CountIsGrowth` | src/mesa_ducklake/schema.py:183-185 | the returned count is the growth of schema_versions |
| `Walk.WalkToProject` | src/mesa_ducklake/cli.py:99-120 | returns the project registered at the longest slash-cut ancestor, or none when no ancestor is registered |

## Left out

- Partial effects of a single operation: a Parquet write or a pull that fails half-way and leaves a truncated file behind.
- The computation of digests: they are functions of the content that tell two different files apart. Blanks and letters outside ASCII in a checksum string.
- The sorted order of the file list handed to the query engine: files are read in any order, which covers it.
- `get_avus_as_of` on a lake with a NULL unit, and the validation of rows read back.
- Columns no property depends on: the project's status and creation time.
- The token, connection and schema bootstrap of the catalogs; DSN parsing and backend selection. A store over Quack is the DuckDB store behind the statement runner of `Quack`.
- `Cache.TotalBytesOf`: does not model files that change size during the walk.
- `Migrations.Discover`: does not model digits outside ASCII, nor the order of the directory walk, which only chooses the names in an error message.
- The stripping of standalone BEGIN and COMMIT lines from migration files, a filter over lines.
- `Quack.QuackCatalogStore.Run`: does not model the back-off delays nor the connection; parameter values are texts.
- `Client.DuckLakeClient.RecordChanges`: does not model other processes working on the same catalog during the call; the transition system does.
- `Lake.LakeStore.ReadHistory`: does not model a negative limit.
- Creating missing iRODS collections before a put: a failure there counts as a put that raised.
- The remaining catalog queries (one project, one snapshot, its timestamp), which only look a row up.
- The command line, the rule callback's JSON handling, the catalog server, logging and the backup script.
