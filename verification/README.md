# immich-doctor: catalog scan, reversible repair and consistency

This project models the parts of immich-doctor that decide what is known about stored files and
that change files or rows, and proves what they promise.

**The catalog scan.** A root is walked with an explicit stack, its files are cut into work items,
the items are seeded into a persistent queue, claimed and applied by worker threads, interrupted and
resumed at any point, and finally committed as a snapshot that other parts read. `CatalogTables`
holds the tables and what each store transaction does to them, `CatalogStore` runs the transactions
in place, `ControllerState` and `RuntimeController` do the same for the pause and stop controller.
`ScanProtocol` is the transition system: the tables, at most one running scan, and one program
counter per worker; every step of `Next` is one atomic action and any enabled step may come next.
A thread that raises is modelled as dead and keeps the row it held; a crash of the process removes
the running scan and leaves the tables. `ScanInvariant`, `ScanSteps` and `ScanFiles` prove what each
step keeps, `ScanTheorems`, `ScanReaders` and `ScanBounds` draw the results,
`ScanWorker` runs the loop of a single worker in place, `WorkItems`,
`Balancing`, `DirectoryWalk` and `ScanPlan` cover discovery, `ResumedQueue` what a resume queues when
the tree changed, and `ScanOfTree` joins both ends.

**Reversible repair.** `AssetRows`, `AssetRoundTrip`, `AssetRestoration`, `RestorePoints`,
`MissingAssets`, `MissingAssetPlans` and `MissingAssetRuns` cover the removal of missing assets with restore points,
`AssetFiles`, `SelectiveRestore` and `BackupSync` the backup workflow, `QuarantineLog` and
`Quarantine` the quarantine records and transitions, `PermissionUndo` targeted undo.

**Comparison.** `ConsistencyState` and `OrphanDerivatives` compare the catalog with the database;
`EffectiveRoots` selects the roots that are scanned. `Basics`, `Ordering`, `FileObservation`,
`FileMoves`, `PlanTokens` and `RepairRuns` are shared.

What a fault can do is part of each model: a database call fails at a statement, at the commit
before it took effect, or after it took effect; a move or a copy breaks off before, within or after
the copying; a log append fails before or between its two files. Hashes are compared as contents.

## Where the code promises more than it keeps

Each point has a lemma with the input that shows it, or an if-and-only-if that marks it off.

- A scan whose workers are all stopped individually commits although work is left
  (`ScanBounds.AllStoppedStillCommits`); so does one whose threads raised
  (`ScanTheorems.CommitIsDrainedIff`).
- Queue keys collide for a directory called `__root__` or one named like a batch
  (`WorkItems.KeysDistinctIff`).
- docs/roadmaps/persistent-file-index-redesign.md:180-192 describes a resume from the last durable
  checkpoint; the code walks the tree again and knows an item by its key alone, and the model follows
  the code. What a resume queues is in `ResumedQueue.RequeuedOnce` and
  `ResumedQueue.ResumeQueuesExactly`; no file of a directory is queued twice and none is missed
  exactly under `ResumedQueue.ResumeCountsOnceIff`. It fails for a directory that grows from one batch
  to several or shrinks from several to one (files queued twice), for one whose listing shifts across
  full batches (one file twice, the new one never), and for one that changes without getting more
  batches (new files are missed, nothing is queued twice).
- A file whose relative path is all blanks is discovered and never recorded
  (`ScanOfTree.BlankNameIsLost`).
- Overlapping sessions of a root hide the files of the older generation
  (`ScanReaders.ReadersSeeCommitIff`), and two that are created at once can share a generation
  (`ScanReaders.InterleavedCreationsShareGeneration`).
- Two settings for one directory can both be dropped from the scan (`EffectiveRoots.NothingLostIff`).
- A row that refers to an asset through two columns is captured twice and can then never be restored
  (`AssetRestoration.RoundTripIff`).
- If the acknowledgement of the deleting commit is lost, the restore point is deleted although the
  rows are gone (`MissingAssets.ApplyKeepsRowsIff`); over whole runs nothing else but an explicit
  deletion of restore points loses a row (`MissingAssetRuns.RunKeepsEveryRowIff`).
- One request that names an asset twice loses its original within one second, and a source file with
  a temporary name is lost (`SelectiveRestore.BatchKeepsOriginalIff`,
  `SelectiveRestore.RestoreKeepsOriginalsIff`).
- A copy that failed its verification stays in the backup and can later compare as identical
  (`BackupSync.GarbledCopyLooksIdenticalIff`); `BackupSync.IdenticalIsTrueIff` says when the word can
  be trusted.
- Quarantine destinations collide for findings that differ only in separators or use dots
  (`Quarantine.DestinationsCollideIff`, `Quarantine.CollisionLosesBytes`), and two dots twice lead out
  of the quarantine (`Quarantine.StaysInQuarantineIff`); a move into quarantine that
  breaks off while copying leaves an unlogged file there (`Quarantine.QuarantineTracksIff`), and one out
  of it blocks every later restore (`Quarantine.BrokenRestoreRetriesIff`).
- An applicable undo plan raises midway, or undoes elsewhere, when a payload has no path of its own
  (`PermissionUndo.ApplicablePlanRaisesIff`, `PermissionUndo.UndoReachesEachFileIff`).
- An orphan derivative in a second root under the same relative path is not reported
  (`OrphanDerivatives.EveryOrphanIsReportedIff`, `OrphanDerivatives.TwoRootsOneRow`).

## Model

| member | source | states |
|---|---|---|
| `ScanTheorems.CommittedScanIsSequential` | immich_doctor/catalog/service.py:760-931 | any run of any number of workers, with any pauses, stops, crashes and reopens, that comes to a clean commit leaves the session counters, the records of the root, item_count and zero_byte_count of one uninterrupted sequential scan of the plan |
| `ScanTheorems.InterleavingDoesNotMatter` | immich_doctor/catalog/service.py:1006-1106 | two clean runs from one new session end with the same session, records and snapshot counts, whatever their interleavings and interruptions |
| `ScanTheorems.CommitIsDrainedIff` | immich_doctor/catalog/service.py:1046-1065 | when every thread has ended, no stop reason is set and one worker whose actor was never stopped ended normally, the queue is all done if and only if no thread raised while it held an item |
| `ScanTheorems.DrainedMeansPlanApplied` | immich_doctor/catalog/store.py:493-609 | at a drained commit the applied keys are a permutation of the planned keys: each exactly once |
| `ScanTheorems.CreatedSessionIsOk` | immich_doctor/catalog/store.py:138-196 | a new session satisfies the whole invariant, with the records as they were and none of them seen under its snapshot |
| `ScanTheorems.RunKeepsAll` | immich_doctor/catalog/service.py:760-931 | every run keeps the session, record and generation invariants, and the session keeps its root and snapshot |
| `ScanSteps.StepKeepsSession` | immich_doctor/catalog/service.py:1006-1106 | each step keeps: planned items under distinct keys, no key applied twice, applied keys equal done rows, counters equal sums over applied items, one holder per processing row, nothing pending once a worker saw nothing pending |
| `ScanSteps.RunKeepsSession` | immich_doctor/catalog/service.py:760-931 | the same over every run of planned preparations |
| `ScanFiles.StepKeepsFiles` | immich_doctor/catalog/store.py:493-609 | while no other session of the root is used, the records of the root are at every moment the old records overlaid with exactly what the done items saw |
| `ScanFiles.StepKeepsNewest` | immich_doctor/catalog/store.py:1205-1217 | the snapshot stays of the newest generation of its root until another session of the root is created |
| `ScanOfTree.CommittedScanListsTree` | immich_doctor/catalog/service.py:516-672 | from a file tree to the readers: after a clean commit the latest-files query lists exactly the reachable regular files that stat can read and whose name is not all blanks, with their true sizes; item_count is their number |
| `ScanOfTree.TreePlanIsGood` | immich_doctor/catalog/service.py:674-713 | the plan of a tree lists no path twice and no item of more than 256 files |
| `ScanOfTree.PlannedBatchesAreSorted` | immich_doctor/catalog/service.py:596-603 | planned batches come sorted, so the sort after observing changes nothing |
| `ScanOfTree.BlankNameIsLost` | immich_doctor/catalog/service.py:1211-1218 | a readable file called by a single blank is queued and counted as discovered, but never recorded |
| `ScanTheorems.RunConserves` | immich_doctor/catalog/service.py:1006-1106 | in every reachable state of a session no key was applied twice, completed plus unfinished rows make the queue, directories_completed counts the applied keys, and files, bytes and errors are the sums over the applied batches |
| `ScanTheorems.SessionConserves` | immich_doctor/catalog/store.py:578-606 | the same from the invariant alone |
| `ScanTheorems.ExactlyOneHolder` | immich_doctor/catalog/store.py:322-337 | a processing row is held by the worker it names and by no other |
| `ScanWorker.ApplyClaimed` | immich_doctor/catalog/service.py:1066-1094 | the files of a claimed row are observed and its batch, with the errors of the row, is applied |
| `ScanWorker.ScanNextItem` | immich_doctor/catalog/service.py:1055-1104 | claim, mark running, apply and mark idle; nothing changes when nothing is pending |
| `ScanWorker.ScanWorkerLoop` | immich_doctor/catalog/service.py:1023-1106 | the loop of one worker alone applies distinct planned keys one after the other, leaves the sequential scan of them, and is drained only when every row is done |
| `ScanWorker.DrainedLoopScansPlan` | immich_doctor/catalog/service.py:1055-1065 | a loop that drains a fresh queue has applied every planned key exactly once |
| `ScanReaders.CommitAgreesWithReaders` | immich_doctor/catalog/store.py:819-883 | without overlapping sessions item_count, the records last seen in the snapshot, the records marked present and the rows of the latest-files query are one set; zero_byte_count is the size of the zero-byte query |
| `ScanReaders.CommittedRunAgreesWithReaders` | immich_doctor/catalog/store.py:984-1091 | the same for a whole run from creation to commit |
| `ScanReaders.ReadersSeeCommitIff` | immich_doctor/catalog/store.py:1035-1091 | with overlapping sessions the readers see the files of a commit if and only if no current committed snapshot of the root is newer; otherwise they see none of them |
| `ScanReaders.SnapshotListAgreesIff` | immich_doctor/catalog/store.py:926-982 | the snapshot list and the file queries name one snapshot exactly when the listed one is flagged current; otherwise shown files are of an older generation |
| `ScanReaders.FilesArePaths` | immich_doctor/catalog/store.py:578-606 | for distinct keys of a plan without repeated paths the counted files are as many as the distinct paths seen |
| `ScanBounds.OvershootIsBounded` | immich_doctor/catalog/service.py:1086-1106 | a run of W workers that starts below max_files never counts more than max_files - 1 + 256 W files |
| `ScanBounds.StopIsAbsorbing` | immich_doctor/catalog/service.py:94-180 | after a stop request no call on the controller ever lets the actor run again |
| `ScanBounds.StoppedWorkerAppliesAtMostOne` | immich_doctor/catalog/service.py:1046-1104 | a stopped worker applies at most one further item, and none if it had not yet looked at the controller |
| `ScanBounds.AllStoppedStillCommits` | immich_doctor/catalog/service.py:900-931 | if every worker is stopped individually there is a run in which the scan commits with its whole queue undone |
| `CatalogTables.FirstPending` | immich_doctor/catalog/store.py:295-321 | the claimed row is pending and comes before every other pending row by priority and id; none exactly when nothing is pending |
| `CatalogStore.CatalogStore.CreateScanSession` | immich_doctor/catalog/store.py:138-196 | a new session and a running snapshot of the generation read before, in place; an id in use and an unknown root are refused |
| `ScanReaders.CreationKeepsGenerationsIff` | immich_doctor/catalog/store.py:138-196 | a creation keeps the generations of a root apart exactly when the generation read before is still unused |
| `ScanReaders.InterleavedCreationsShareGeneration` | immich_doctor/catalog/store.py:1205-1217 | two creations that both read before either writes share a generation; one after the other they do not |
| `CatalogStore.CatalogStore.NextGeneration` | immich_doctor/catalog/store.py:1205-1217 | one more than the greatest generation of the root, one if it has none |
| `CatalogStore.CatalogStore.ReopenScanSession` | immich_doctor/catalog/store.py:224-259 | processing rows become pending; a session that is not completed runs again |
| `CatalogStore.CatalogStore.ClaimNextDirectory` | immich_doctor/catalog/store.py:295-337 | the search finds the least pending row by priority and id and marks it for the worker, or nothing changes |
| `CatalogStore.CatalogStore.SeedDirectoryWorkQueue` | immich_doctor/catalog/store.py:405-461 | items are appended as pending unless their key is already queued |
| `CatalogStore.CatalogStore.ApplyDirectoryFiles` | immich_doctor/catalog/store.py:493-609 | observations are upserted, the row is done and loses its payload, the counters of the session advance if it has a row; refused without a change when session, root or snapshot of an observation does not exist |
| `CatalogStore.CatalogStore.UpsertFiles` | immich_doctor/catalog/store.py:509-577 | the loop of upserts keeps first-seen snapshots and sets size, zero flag, last-seen snapshot and presence |
| `CatalogStore.CatalogStore.RequeueProcessing` | immich_doctor/catalog/store.py:734-769 | processing rows of the session, or of one worker, become pending |
| `CatalogStore.CatalogStore.MarkSession` | immich_doctor/catalog/store.py:693-732 | only the status of the session changes |
| `CatalogStore.CatalogStore.MarkSessionFailed` | immich_doctor/catalog/store.py:785-817 | session and snapshot are marked failed |
| `CatalogStore.CatalogStore.CommitScanSession` | immich_doctor/catalog/store.py:819-883 | snapshot committed with files_seen and the counted zero-byte files, presence swept except for quarantined records, session completed |
| `CatalogStore.CatalogStore.CountPendingDirectories` | immich_doctor/catalog/store.py:1093-1105 | the number of rows that are not done; zero exactly when all are |
| `CatalogStore.CatalogStore.LatestCurrentSnapshot` | immich_doctor/catalog/store.py:1076-1084 | a current committed snapshot of the greatest generation, found exactly when there is one; the only one while generations differ |
| `CatalogStore.CatalogStore.ListLatestFiles` | immich_doctor/catalog/store.py:984-1091 | while generations differ, the selected paths sorted and cut off at the limit: min(limit, number of files) rows, no smaller path left out |
| `RuntimeController.ScanRuntimeController.RequestPause` | immich_doctor/catalog/service.py:94-103 | an unknown actor is refused; a known one is paused, except that a stop wins; reported states stay true to the request sets |
| `RuntimeController.ScanRuntimeController.RequestResume` | immich_doctor/catalog/service.py:105-117 | refused for an unknown or stopped actor; otherwise the actor may run; reported states stay true to the request sets |
| `RuntimeController.ScanRuntimeController.RequestStop` | immich_doctor/catalog/service.py:119-129 | a known actor is stopped and no longer paused; reported states stay true to the request sets |
| `RuntimeController.ScanRuntimeController.LookOnce` | immich_doctor/catalog/service.py:131-147 | one turn of the wait: stopped, waiting while paused, or runnable with state running or waiting; reported states stay true to the request sets |
| `RuntimeController.ScanRuntimeController.MarkRunning` | immich_doctor/catalog/service.py:149-153 | the actor runs on a path; reported states stay true to the request sets |
| `RuntimeController.ScanRuntimeController.MarkIdle` | immich_doctor/catalog/service.py:155-167 | stopped and paused win over completed and waiting; reported states stay true to the request sets |
| `RuntimeController.ScanRuntimeController.MarkCollectorFinished` | immich_doctor/catalog/service.py:169-180 | the collector is completed unless stopped or paused; reported states stay true to the request sets |
| `RuntimeController.ScanRuntimeController.MarkScanCompleted` | immich_doctor/catalog/service.py:206-214 | the loop completes every actor that is not stopped or paused; reported states stay true to the request sets |
| `WorkItems.BatchKeyIsInjective` | immich_doctor/catalog/service.py:715-725 | a batch key determines its prefix and its index, padding included |
| `WorkItems.KeysDistinctIff` | immich_doctor/catalog/service.py:715-725 | queue keys of different directories are pairwise distinct if and only if no two directories clash |
| `WorkItems.PlainNamesDoNotClash` | immich_doctor/catalog/service.py:715-725 | no clash when no directory is called __root__ and none has the batch mark in its path |
| `WorkItems.RootNameClashes` | immich_doctor/catalog/service.py:715-725 | a large directory called __root__ takes batch keys of a large root |
| `WorkItems.DirectoryItemsPartition` | immich_doctor/catalog/service.py:674-713 | the items of a directory partition its files in order into batches of at most 256 and carry its error once |
| `WorkItems.BuildDirectoryItems` | immich_doctor/catalog/service.py:674-713 | the loop over the chunks builds those items |
| `Balancing.BalanceItems` | immich_doctor/catalog/service.py:727-755 | the loop numbers the sorted items |
| `Balancing.BalancedIsPermutation` | immich_doctor/catalog/service.py:727-755 | the same items in order of non-increasing size with priorities 0, 1, 2, ... |
| `ResumedQueue.SeedAppends` | immich_doctor/catalog/store.py:405-461 | a seed leaves the queued rows alone and appends, pending, exactly the items whose key the queue does not hold |
| `ResumedQueue.DirectoryRequeues` | immich_doctor/catalog/service.py:674-725 | listing a directory again, after any number of earlier listings, queues the files behind the items whose keys are known and no others |
| `ResumedQueue.RequeuedOnce` | immich_doctor/catalog/service.py:674-725 | after one earlier listing of m batches a listing of n batches queues all its files if exactly one of m and n is 1, the files from position 256 m on if n > m > 1, and none otherwise |
| `ResumedQueue.QueuedOnceIff` | immich_doctor/catalog/service.py:674-725 | no file of a directory is queued twice if and only if the files queued by the resume are disjoint from the old ones |
| `ResumedQueue.NoneMissedIff` | immich_doctor/catalog/service.py:674-725 | no present file of a directory is missed if and only if every new file is among those queued by the resume |
| `ResumedQueue.ResumeCountsOnceIff` | immich_doctor/catalog/service.py:674-725 | every present file of a directory is counted exactly once if and only if the files within the shared items are the old ones and all others are new |
| `ResumedQueue.GrownDirectoryIsQueuedAgain` | immich_doctor/catalog/service.py:674-725 | one batch that became several: every old file is queued twice |
| `ResumedQueue.ShrunkDirectoryIsQueuedAgain` | immich_doctor/catalog/service.py:674-725 | several batches that became one: every file that is left is queued twice |
| `ResumedQueue.ShiftedDirectoryMissesFile` | immich_doctor/catalog/service.py:674-725 | a new file that sorts before several full batches is never queued, and the last old file is queued twice |
| `ResumedQueue.ResumeQueuesExactly` | immich_doctor/catalog/service.py:516-621 | for the whole tree, after any earlier walks and whatever changed: the files queued by a resume are exactly those that the listings of each directory decide, balancing included; the queue then holds the keys of all walks |
| `ResumedQueue.UnchangedTreeQueuesNothing` | immich_doctor/catalog/service.py:516-621 | a resume over listings seen before leaves the queue as it is |
| `DirectoryWalk.WalkVisitsReachable` | immich_doctor/catalog/service.py:551-615 | the stack walk visits no directory twice and, when the stack is empty, exactly the reachable directories |
| `DirectoryWalk.VisitedInUniverse` | immich_doctor/catalog/service.py:551-615 | the visited directories are among the listed ones, so the walk ends |
| `DirectoryWalk.VisitOne` | immich_doctor/catalog/service.py:565-605 | one turn of the loop: pop, list, cut into items, push new children sorted |
| `DirectoryWalk.DiscoverWork` | immich_doctor/catalog/service.py:555-634 | the loop returns the items of the visited directories in order and is ready only when the stack ran empty; a stop wins over a pause |
| `ScanPlan.WalkPartitionsTree` | immich_doctor/catalog/service.py:551-617 | a complete walk partitions exactly the reachable files into batches of at most 256 |
| `ScanPlan.VisitIgnoresListingOrder` | immich_doctor/catalog/service.py:577-605 | items and children of a directory do not depend on the order of its listing |
| `ScanPlan.PreparationFits` | immich_doctor/catalog/service.py:516-634 | every preparation of every resume seeds planned items only, and a complete one all of them |
| `FileObservation.PathsFromPayload` | immich_doctor/catalog/service.py:1211-1218 | exactly the paths of the payload that are not blank |
| `FileObservation.ObserveFileBatch` | immich_doctor/catalog/service.py:1220-1254 | files, bytes and errors of the batch, files sorted by path; unchanged order for sorted paths |
| `EffectiveRoots.ScanRoots` | immich_doctor/catalog/service.py:243-255 | exactly the roots that contain no other root, in scan priority |
| `EffectiveRoots.KeptRootsAreApart` | immich_doctor/catalog/service.py:243-255 | no kept root contains another: they form an antichain |
| `EffectiveRoots.NoFileUnderTwoKeptRoots` | immich_doctor/adapters/filesystem.py:222-227 | no file lies under two kept roots |
| `EffectiveRoots.NothingLostIff` | immich_doctor/catalog/service.py:243-255 | every configured root has a kept root at or beneath it if and only if two settings name one directory only where another root lies strictly beneath it |
| `AssetRows.PostgresAdapter.CaptureRecords` | immich_doctor/consistency/missing_asset_service.py:1053-1084 | the asset row and the rows of every relation, in order, without empty records |
| `AssetRows.PostgresAdapter.DeleteAssetReferenceRecords` | immich_doctor/adapters/postgres.py:741-799 | children first, then the asset; commit or rollback under a failure at any call; reports what it deleted, the asset first |
| `AssetRows.PostgresAdapter.InsertOrdered` | immich_doctor/adapters/postgres.py:817-850 | the loop of insertions inside the transaction, failing at the first refused record |
| `AssetRows.PostgresAdapter.RestoreAssetReferenceRecords` | immich_doctor/adapters/postgres.py:801-855 | inserts the asset first and then by table, all or nothing, and reports the number of rows |
| `AssetRoundTrip.CoveredDeletion` | immich_doctor/adapters/postgres.py:755-794 | with every foreign key covered the deletion succeeds exactly when the asset exists and takes its rows and nothing else |
| `AssetRoundTrip.ChildDeletionsKeepForeignKeys` | immich_doctor/adapters/postgres.py:755-781 | every foreign key to asset holds after each child statement |
| `AssetRoundTrip.DeletionKeepsForeignKeys` | immich_doctor/adapters/postgres.py:783-795 | every foreign key to asset holds after the last statement |
| `AssetRoundTrip.CapturedIsTaken` | immich_doctor/consistency/missing_asset_service.py:1053-1084 | the captured rows are exactly the rows the deletion takes, in every table |
| `AssetRestoration.InsertPrefix` | immich_doctor/adapters/postgres.py:816-850 | after each insertion the rows inserted so far are there and every foreign key holds |
| `AssetRestoration.RoundTripIff` | immich_doctor/adapters/postgres.py:741-855 | capture, delete and restore give back every row of every table if and only if no row refers to the asset through two relations of one table; otherwise the restoration fails |
| `AssetRestoration.OneRelationPerTable` | immich_doctor/consistency/missing_asset_service.py:561-584 | that condition holds for every asset when each table has one relation |
| `AssetRestoration.DeletedIsCaptured` | immich_doctor/adapters/postgres.py:755-781 | what the deletion reports is what was captured |
| `AssetRestoration.NothingUncapturedIff` | immich_doctor/adapters/postgres.py:783-795 | the deletion takes no uncaptured row if and only if everything that cascades is related |
| `RestorePoints.CreateKeepsAgreement` | immich_doctor/consistency/missing_asset_restore_point_store.py:15-26 | files and index keep the same points, and only the given one changes |
| `RestorePoints.DeleteKeepsAgreement` | immich_doctor/consistency/missing_asset_restore_point_store.py:51-64 | files and index keep the same points, and exactly the requested ones go |
| `RestorePoints.CreateThenDelete` | immich_doctor/consistency/missing_asset_restore_point_store.py:15-64 | creating a new point and deleting it again leaves the points as they were |
| `RestorePoints.RestorePointStore.ListPoints` | immich_doctor/consistency/missing_asset_restore_point_store.py:28-40 | the indexed points, newest first |
| `RestorePoints.RestorePointStore.Load` | immich_doctor/consistency/missing_asset_restore_point_store.py:42-46 | the point of that id in the index, or nothing when the index has none |
| `RestorePoints.RestorePointStore.CreatePoint` | immich_doctor/consistency/missing_asset_restore_point_store.py:15-26 | writes the file and rewrites the index, keeping both in agreement |
| `RestorePoints.RestorePointStore.UpdatePoint` | immich_doctor/consistency/missing_asset_restore_point_store.py:48-49 | replaces a point in file and index |
| `RestorePoints.RestorePointStore.DropListed` | immich_doctor/consistency/missing_asset_restore_point_store.py:51-63 | the loop unlinks exactly the requested listed points and keeps the others in order |
| `RestorePoints.RestorePointStore.DeletePoints` | immich_doctor/consistency/missing_asset_restore_point_store.py:51-64 | removes exactly the requested points from files and index and reports them |
| `MissingAssets.MissingAssetService.ApplySingleAsset` | immich_doctor/consistency/missing_asset_service.py:896-1051 | skips, or writes a restore point, deletes, and takes the point back when the deletion raises |
| `MissingAssets.MissingAssetService.RemoveUnderPoint` | immich_doctor/consistency/missing_asset_service.py:992-1036 | point first, deletion second, and no point left when the deletion raised |
| `MissingAssets.MissingAssetService.RestoreSinglePoint` | immich_doctor/consistency/missing_asset_service.py:1086-1158 | skips a restored point, else inserts its rows and marks it restored; a failure changes nothing |
| `MissingAssets.ApplyKeepsRowsIff` | immich_doctor/consistency/missing_asset_service.py:982-1025 | an apply keeps every row in the database or an available restore point, unless the commit takes effect and its acknowledgement is lost; then exactly when older available points hold everything the deletion took |
| `MissingAssets.RestoreKeepsRows` | immich_doctor/consistency/missing_asset_service.py:1086-1140 | a restore never makes a row unsafe, whatever fails |
| `MissingAssets.MissingAssetService.DeleteRestorePoints` | immich_doctor/consistency/missing_asset_service.py:526-552 | deletes the given points or all of them, whatever they hold, and no row |
| `MissingAssetRuns.InsertionAdds` | immich_doctor/adapters/postgres.py:816-850 | a restoration adds exactly the rows of its records |
| `MissingAssetRuns.DeleteIsSafeIff` | immich_doctor/consistency/missing_asset_service.py:526-552 | deleting restore points makes a row unsafe exactly when nothing but the deleted points holds it |
| `MissingAssetRuns.StepIsSafeIff` | immich_doctor/consistency/missing_asset_service.py:327-552 | after an apply, a restore or a deletion of points, whatever fails, a row is safe exactly when it was safe and the step does not drop it: no step makes a row safe again |
| `MissingAssetRuns.RunIsSafeIff` | immich_doctor/consistency/missing_asset_service.py:327-552 | over any sequence of applies, restores and deletions of points with failures anywhere, a row is in the database or an available point at the end exactly when it was at the start and no step dropped it; keys hold; files and index agree |
| `MissingAssetRuns.RunKeepsEveryRowIff` | immich_doctor/consistency/missing_asset_service.py:327-552 | such a run keeps every row if and only if each deletion whose acknowledgement was lost took only rows of older available points, and each deleted point held only rows that the database or another point holds |
| `MissingAssets.ApplyThenRestore` | immich_doctor/consistency/missing_asset_service.py:957-1140 | apply then restore gives the database back exactly when no row is captured twice; otherwise the restore changes nothing |
| `MissingAssets.ApplyAll` | immich_doctor/consistency/missing_asset_service.py:394-411 | the loop over the selected assets with the final status of its items |
| `MissingAssetPlans.Apply` | immich_doctor/consistency/missing_asset_service.py:327-416 | scan again, check the token, fail without a change when it does not fit, else take the selected assets in turn |
| `MissingAssetPlans.AllowedIff` | immich_doctor/repair/guards.py:61-110 | a run is allowed exactly when the token has not expired and the findings of the selected assets, ready or not, are those the preview selected |
| `MissingAssetPlans.AllowedMeansReady` | immich_doctor/consistency/missing_asset_service.py:340-410 | an allowed run finds every previewed asset ready and skips none |
| `MissingAssetPlans.PreviewedAreRemoved` | immich_doctor/consistency/missing_asset_service.py:232-411 | after an allowed run reported as completed no previewed asset is left |
| `MissingAssets.CompletedMeansRemoved` | immich_doctor/consistency/missing_asset_service.py:1190-1195 | a run reported as completed has removed every selected asset that was ready |
| `MissingAssets.FailedMeansUnchanged` | immich_doctor/consistency/missing_asset_service.py:1190-1195 | a run without an applied item changed no table |
| `MissingAssets.RestoreAll` | immich_doctor/consistency/missing_asset_service.py:502-517 | the loop over the selected points with the final status of its items |
| `MissingAssets.CompletedMeansRestored` | immich_doctor/consistency/missing_asset_service.py:1197-1202 | a restore run reported as completed brought back every row of every selected available point |
| `AssetFiles.IdenticalIff` | immich_doctor/services/backup_asset_workflow_service.py:617-721 | identical exactly when the bytes agree, or sizes and modification times do |
| `SelectiveRestore.OriginalIsKept` | immich_doctor/services/backup_asset_workflow_service.py:872-957 | whatever breaks off, the old source file is afterwards unharmed at its place or in its quarantine slot |
| `SelectiveRestore.RestoredMeansBackupContent` | immich_doctor/services/backup_asset_workflow_service.py:899-924 | a restore reported as done put the backup bytes in the source, the old file in quarantine, and left no temporary file |
| `SelectiveRestore.FailedRestoreLeavesOriginalInPlace` | immich_doctor/services/backup_asset_workflow_service.py:925-957 | a failure before the replacement leaves the original in place unless the rollback breaks off too |
| `SelectiveRestore.RestoreFrame` | immich_doctor/services/backup_asset_workflow_service.py:872-957 | only the source file, its temporary file and its quarantine slot can change |
| `SelectiveRestore.BatchKeepsOriginals` | immich_doctor/services/backup_asset_workflow_service.py:407-471 | every source file from before a batch is at its place or in the quarantine slot of one of its restores, if no asset is restored twice in one second and no temporary name is taken |
| `SelectiveRestore.BatchKeepsOriginalIff` | immich_doctor/services/backup_asset_workflow_service.py:407-471 | in any batch, an asset whose own restores go well keeps its original if and only if no later restore of it falls into the second of its first one |
| `SelectiveRestore.RepeatedRestoreKeepsOriginalIff` | immich_doctor/services/backup_asset_workflow_service.py:892-904 | an asset named twice in one request keeps its original exactly when the two restores fall into different seconds |
| `SelectiveRestore.TakenTemporaryNameIsKeptIff` | immich_doctor/services/backup_asset_workflow_service.py:898-941 | a source file with the temporary name of a restored asset is kept exactly when the clean-up cannot unlink it and nothing was written over it |
| `SelectiveRestore.RestoreKeepsOriginalsIff` | immich_doctor/services/backup_asset_workflow_service.py:872-957 | one restore, wherever it breaks off, keeps every original if and only if no file has the temporary name or that file is kept |
| `SelectiveRestore.UndisturbedRestoreKeepsOriginalsIff` | immich_doctor/services/backup_asset_workflow_service.py:898-905 | an undisturbed restore keeps every original exactly when the temporary name is free |
| `SelectiveRestore.AssetLibrary.RestoreOne` | immich_doctor/services/backup_asset_workflow_service.py:872-957 | the steps in place, with the outcome and the files they leave |
| `SelectiveRestore.AssetLibrary.Replace` | immich_doctor/services/backup_asset_workflow_service.py:899-907 | move, copy and replacement up to the first failure |
| `SelectiveRestore.AssetLibrary.RollBack` | immich_doctor/services/backup_asset_workflow_service.py:925-941 | removes the temporary file and brings the source back only when nothing stands in its place |
| `SelectiveRestore.AssetLibrary.RestoreItems` | immich_doctor/services/backup_asset_workflow_service.py:368-471 | eligibility is decided once at the start; a dry run changes nothing; originals are kept |
| `BackupSync.SyncIsSafe` | immich_doctor/services/backup_asset_workflow_service.py:209-241 | sync changes no source file, no existing backup file and no quarantined file, whatever fails |
| `BackupSync.SyncIsIdempotent` | immich_doctor/services/backup_asset_workflow_service.py:209-241 | if no copy failed, every copied asset compares as identical, nothing is missing, and a second sync has nothing to copy |
| `BackupSync.GarbledCopyLooksIdenticalIff` | immich_doctor/services/backup_asset_workflow_service.py:819-870 | a garbled copy fails its verification and stays in the backup; the next comparison calls it identical exactly when it has the size of the source |
| `BackupSync.IdenticalIsTrueIff` | immich_doctor/services/backup_asset_workflow_service.py:617-721 | IDENTICAL is true of all pairs of files of two given sizes and times if and only if the times differ, the sizes differ or the files are empty |
| `BackupSync.MissingIsCompared` | immich_doctor/services/backup_asset_workflow_service.py:209-220 | the assets to copy are exactly those compared as missing in the backup |
| `BackupSync.CompletedMeansIdentical` | immich_doctor/services/backup_asset_workflow_service.py:229-255 | no failed copy and nothing to review: every asset of source and backup then compares as identical |
| `BackupSync.SortedMissing` | immich_doctor/services/backup_asset_workflow_service.py:209-220 | the assets without a backup file, each once, sorted |
| `BackupSync.BackupTarget.CopyWithVerification` | immich_doctor/services/backup_asset_workflow_service.py:819-870 | copies, hashes both sides, and reports whether they agree |
| `BackupSync.BackupTarget.CopyMissing` | immich_doctor/services/backup_asset_workflow_service.py:222-240 | the copy loop with its counts |
| `BackupSync.BackupTarget.SyncMissing` | immich_doctor/services/backup_asset_workflow_service.py:184-255 | completed exactly when no copy failed and the comparison found nothing to review, failed exactly when copies failed and none worked; a completed sync leaves every asset identical as far as the comparison can tell |
| `QuarantineLog.CollapseItems` | immich_doctor/repair/store.py:127-131 | the loop over the lines of a log |
| `QuarantineLog.CollapsedIds` | immich_doctor/repair/store.py:127-131 | every id once, in the order of first sight |
| `QuarantineLog.CollapsedValues` | immich_doctor/repair/store.py:127-131 | exactly the last line of every id |
| `QuarantineLog.TwoLogsAgreeIff` | immich_doctor/repair/store.py:78-98 | the collapsed index restricted to a run is the collapsed log of the run, for every run, if and only if updates keep the run of an id |
| `QuarantineLog.RepairJournalStore.AppendQuarantineItem` | immich_doctor/repair/store.py:54-60 | one line in the log of its run and one in the index, which stay in step |
| `QuarantineLog.RepairJournalStore.LoadQuarantineItems` | immich_doctor/repair/store.py:78-90 | the collapsed log of the run, which is what the index shows of the run |
| `QuarantineLog.RepairJournalStore.LoadQuarantineIndex` | immich_doctor/repair/store.py:92-98 | the collapsed index |
| `Quarantine.DestinationsCollideIff` | immich_doctor/catalog/remediation_service.py:2154-2170 | two files share a destination exactly when their names agree, cleaned category and finding lead to one folder once dots are followed, and both or neither lead out of the quarantine |
| `Quarantine.NamedFoldersDiffer` | immich_doctor/catalog/remediation_service.py:2162-2170 | folders without dots are one only when cleaned category and finding are equal |
| `Quarantine.StaysInQuarantineIff` | immich_doctor/catalog/remediation_service.py:2154-2170 | a target lies in the quarantine exactly when cleaned category and finding folder are not both two dots |
| `Quarantine.LedOutIsUntracked` | immich_doctor/catalog/remediation_service.py:494-553 | a request that leads out of the quarantine breaks the tracking although every step went well |
| `Quarantine.TwoDotsForgetCategory` | immich_doctor/adapters/filesystem.py:49-51 | under two dots all categories share the common folder |
| `Quarantine.DotChangesPlaces` | immich_doctor/catalog/remediation_service.py:2162-2170 | a dot as category and a finding share the destination of that finding as category and a dot |
| `Quarantine.QuarantineTracksIff` | immich_doctor/catalog/remediation_service.py:494-553 | quarantining keeps the quarantined files and the active items in one-to-one correspondence if and only if nothing is left at the destination without its log line: the move did nothing, or it went well and the line was written |
| `Quarantine.CollisionLosesBytes` | immich_doctor/adapters/filesystem.py:49-51 | a taken destination is overwritten and two active items then claim one file |
| `Quarantine.TransitionTracksIff` | immich_doctor/catalog/remediation_service.py:2203-2275 | ending an item keeps that correspondence if and only if the line of a transition that took effect is written; a move that breaks off keeps it |
| `Quarantine.BrokenRestoreRetriesIff` | immich_doctor/catalog/remediation_service.py:2213-2232 | a restore that broke off leaves the item active with its bytes, and can be tried again exactly when nothing was copied to the source path |
| `Quarantine.QuarantineThenRestore` | immich_doctor/catalog/remediation_service.py:2209-2249 | quarantine followed by restore is the identity on all files |
| `Quarantine.EndedIsTerminal` | immich_doctor/catalog/remediation_service.py:2203-2208 | over any run a restored or deleted item never changes again |
| `Quarantine.ActiveBytesStay` | immich_doctor/catalog/remediation_service.py:2192-2280 | while an item stays active its bytes stay at its quarantine path, over any run |
| `Quarantine.RestoredBytesAreBack` | immich_doctor/catalog/remediation_service.py:2213-2249 | a restore puts the quarantined bytes back at the source path |
| `Quarantine.HiddenFindingIds` | immich_doctor/catalog/remediation_service.py:1813-1825 | exactly the findings with an active ignore record or an active categorised item |
| `Quarantine.HiddenWhileActive` | immich_doctor/catalog/remediation_service.py:1813-1825 | a quarantined finding is hidden, ending its item undoes exactly that, other findings are unaffected |
| `Quarantine.LogsInStepIff` | immich_doctor/repair/store.py:54-60 | run log and index stay in step if and only if the append does not fail between the two |
| `Quarantine.RemediationWorkspace.QuarantineFinding` | immich_doctor/catalog/remediation_service.py:447-553 | the checks, the move and the log line of one request |
| `Quarantine.RemediationWorkspace.QuarantineFindings` | immich_doctor/catalog/remediation_service.py:438-558 | the loop over the requests |
| `Quarantine.RemediationWorkspace.EndItem` | immich_doctor/catalog/remediation_service.py:2208-2275 | the checks, the move or deletion and the log line of one transition |
| `Quarantine.RemediationWorkspace.TransitionItems` | immich_doctor/catalog/remediation_service.py:2192-2280 | the loop over the selected active items of the index as read at the start; tracking is kept |
| `Quarantine.RemediationWorkspace.Append` | immich_doctor/repair/store.py:54-60 | the two appends, failing before or between them |
| `PermissionUndo.Select` | immich_doctor/repair/undo_service.py:240-248 | the entries with the given ids, or all undo-capable ones |
| `PermissionUndo.NeverPartiallyReversible` | immich_doctor/repair/undo_service.py:403-419 | PARTIALLY_REVERSIBLE is never the outcome of a plan |
| `PermissionUndo.ReversibleNowIff` | immich_doctor/repair/undo_service.py:250-419 | reversible now exactly for a completed run without failed entries and a non-empty selection of applied permission repairs whose files still have the recorded new mode |
| `PermissionUndo.UndoRestoresOldModes` | immich_doctor/repair/undo_service.py:73-238 | then the undo completes, leaves every selected file at its old mode if and only if entries for one file agree on it, and touches no other file |
| `PermissionUndo.NothingElseChangesModes` | immich_doctor/repair/undo_service.py:82-137 | modes change only in apply mode under a plan that is reversible now |
| `PermissionUndo.ApplicablePlanRaisesIff` | immich_doctor/repair/undo_service.py:478-484 | an applicable plan raises midway exactly when a selected payload has no path of its own |
| `PermissionUndo.FinalModeIs` | immich_doctor/repair/undo_service.py:478-549 | after any undo, also one that raised, a file has the old mode of the last performed entry whose payload names it, or the mode it had |
| `PermissionUndo.UndoReachesEachFileIff` | immich_doctor/repair/undo_service.py:204-238 | under a plan reversible now, the file an entry was assessed by ends at the recorded old mode if and only if the last performed entry for that file recorded it, or the file had it and nothing could set another |
| `PermissionUndo.UndoReachesAssessedFileIff` | immich_doctor/repair/undo_service.py:478-549 | for one entry: if and only if the payload names that file, by whatever path, and its mode can be set, or it had that mode already |
| `PermissionUndo.EmptyPathUndoesElsewhere` | immich_doctor/repair/undo_service.py:275-278 | an entry with an empty payload path is assessed by its original path and executed on the current directory; if that is another file, the assessed one keeps its mode |
| `PermissionUndo.UndoTarget.ExecuteEntry` | immich_doctor/repair/undo_service.py:478-549 | sets the mode and journals the outcome of one entry |
| `PermissionUndo.UndoTarget.ExecuteUndo` | immich_doctor/repair/undo_service.py:73-238 | dry run, refused plan, expired token, loop and final status; when an entry raises, those before it stay undone and the undo run stays running |
| `PermissionUndo.UndoTarget.ExecuteEntries` | immich_doctor/repair/undo_service.py:214-216 | the loop over the selected entries, up to one that raises |
| `ConsistencyState.CompareOriginals` | immich_doctor/catalog/consistency_state.py:292-369 | the loop over the assets, branch by branch |
| `ConsistencyState.FourWayAccounting` | immich_doctor/catalog/consistency_state.py:292-369 | scanned assets are exactly those with a path, and present, missing, unmapped and motion components add up to them |
| `ConsistencyState.MissingRowsAre` | immich_doctor/catalog/consistency_state.py:316-369 | a missing row is there exactly for an asset classified as missing |
| `ConsistencyState.UnmappedRowsAre` | immich_doctor/catalog/consistency_state.py:300-355 | an unmapped row is there exactly for an asset classified as unmapped |
| `ConsistencyState.IndexIs` | immich_doctor/catalog/consistency_state.py:356-357 | the index of originals holds exactly what the assets resolve to in the uploads root |
| `ConsistencyState.CompareStorage` | immich_doctor/catalog/consistency_state.py:384-403 | the loop over the stored originals |
| `ConsistencyState.ExactTwoWayDifference` | immich_doctor/catalog/consistency_state.py:292-403 | missing originals are expected minus stored, unexpected ones are candidates minus expected |
| `ConsistencyState.ConsistentIff` | immich_doctor/catalog/consistency_state.py:292-403 | nothing is reported either way exactly when the expected originals lie between candidates and stored files |
| `ConsistencyState.MissingThoughListed` | immich_doctor/catalog/consistency_state.py:558-571 | a missing original that the snapshot lists was modified after the window began |
| `OrphanDerivatives.OrphansAreExact` | immich_doctor/catalog/consistency_state.py:416-446 | exactly one row per asset, type and path whose original is missing and whose derivative is indexed |
| `OrphanDerivatives.OrphanIsAlsoMissing` | immich_doctor/catalog/consistency_state.py:416-446 | the asset of every orphan is also a missing row, at the original the orphan names |
| `OrphanDerivatives.EveryOrphanIsReportedIff` | immich_doctor/catalog/consistency_state.py:416-446 | every orphaned file has a row if and only if no two derivatives of one type of an asset resolve to one relative path in two indexed roots |
| `OrphanDerivatives.SecondRootIsDropped` | immich_doctor/catalog/consistency_state.py:596-614 | for an asset whose original is missing and two derivatives of one type under one relative path in two roots, only the first is reported |
| `OrphanDerivatives.TwoRootsOneRow` | immich_doctor/catalog/consistency_state.py:600-603 | an input of this kind, run through the whole comparison of one asset |
| `OrphanDerivatives.OrphanCollector.AppendOrphanRow` | immich_doctor/catalog/consistency_state.py:583-614 | adds the row of an indexed derivative unless its key is known |
| `OrphanDerivatives.OrphanCollector.CollectFiles` | immich_doctor/catalog/consistency_state.py:435-446 | the loop over the derivative files of an asset |
| `OrphanDerivatives.OrphanCollector.CollectAsset` | immich_doctor/catalog/consistency_state.py:417-446 | the encoded video first, then the derivative files |
| `OrphanDerivatives.OrphanCollector.CollectOrphans` | immich_doctor/catalog/consistency_state.py:416-446 | the loop over the assets |
| `OrphanDerivatives.Collect` | immich_doctor/catalog/consistency_state.py:193-541 | the three passes over the comparison window, with the accounting and the link from orphans to missing rows |

## Left out

- ScanTheorems.CommittedScanIsSequential: says nothing of last_relative_path, which depends on the interleaving, nor of timestamps and the descriptive columns of file records (name, extension, type guesses, device, inode).
- ScanTheorems.InterleavingDoesNotMatter: needs a tree that stays as it is, one running scan at a time and a plan without clashing keys; ReadersSeeCommitIff, KeysDistinctIff and ResumeCountsOnceIff say what happens otherwise.
- ScanBounds.OvershootIsBounded: a stop request stays set for the life of the runner, as immich_doctor/services/backup_job_service.py:103-114 has it; a control provider that takes a stop back is not covered.
- ScanFiles.StepKeepsNewest: the protocol reads the next generation and creates the session in one step; CatalogStore has them apart, and InterleavedCreationsShareGeneration says what two interleaved creations do.
- ResumedQueue.ResumeQueuesExactly: no directory shares a key with a different one, which KeysDistinctIff and PlainNamesDoNotClash decide.
- ScanWorker.ScanWorkerLoop: one worker without others; it returns where the source would wait for a resume, and it starts after discovery has finished, as the source's workers do.
- RuntimeController.ScanRuntimeController.LookOnce: one turn of the waiting loop; the waiting itself and the condition variable are the interleaving of ScanProtocol.
- DirectoryWalk.DiscoverWork: symbolic links are neither followed nor listed, as in the source, and the control provider is a list of answers, one per turn.
- AssetRoundTrip.CoveredDeletion: only foreign keys to the asset table are modelled, with the actions that cascade or refuse; keys between other tables and SET NULL are not.
- AssetRestoration.RoundTripIff: nothing else writes between capture, deletion and restoration, rows keep their values through JSON, and tables are sets of rows because each has a primary key.
- MissingAssetRuns.RunKeepsEveryRowIff: a failing capture raises before anything changed and is a run without that step; a crash between the point file and the index is not modelled; new restore points get new ids.
- MissingAssetPlans.Apply: the limit and offset of the scan are part of the scan it is given, and hashes of findings are compared as findings.
- RestorePoints.RestorePointStore.CreatePoint: file and index are written without a crash in between.
- SelectiveRestore.BatchKeepsOriginals: a crash of the process inside a restore is not modelled, only steps that raise; its condition is sufficient for every fault, BatchKeepsOriginalIff and RestoreKeepsOriginalsIff are exact.
- BackupSync.BackupTarget.SyncMissing: a failure to create a target folder ends the source's whole run before a copy and is not modelled.
- Quarantine.ActiveBytesStay: only quarantine calls touch the files during the run.
- Quarantine.DestinationsCollideIff: a source path and the quarantine's directory are given as they resolve, no folder is a symbolic link, and the quarantine is not the root of the file system. Empty directories are not modelled: a move enters a destination that is one.
- PermissionUndo.UndoRestoresOldModes: errors other than a missing file or a refused chmod are left out.
- PermissionUndo.UndoTarget.ExecuteUndo: of the record of the undo run only the status is kept.
- ConsistencyState.FourWayAccounting: assets whose original path is missing or blank are not counted by the source and are in none of the four groups.
- ConsistencyState.MissingThoughListed: timestamps are numbers; a value that cannot be parsed counts as missing, as in the source.
- The legacy collector path and its queue: the current run never uses them, and its upsert would reset done rows.
- A claimed row without a payload: the observation of a whole directory in its place is never reached, because only done rows lose their payload (ScanInvariant.RowOk).
- Job orchestration, progress messages, report rendering, settings, command line and routes, schema detection, the path resolver and the backup orchestration: not part of this model.
- SQL text, JSON encoding, locks and threads: tables are maps and sequences, transactions are atomic steps.
- Symlinks, permissions and renames of the real file system beyond the faults named above.
