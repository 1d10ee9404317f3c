# Verification of the catalog import, the file backups and the image transforms

A Dafny model of the parts of the store whose correctness spans several functions or several processes:

- **Catalog import** (`ImportProtocol`, `ProtocolInvariant`, `ProtocolTheorems`, `CrashTransparency`,
  `RetryTransparency`, `CrashedRetry`, `CatalogWriter`, `CatalogRollback`, `RollbackTheorems`, `RollbackRestores`,
  `RetryCounterexample`, `LostStock`, `ImportService`, `RecoveryScan`, `RowIdentity`, `PlanAndApply`, `PlanBridge`).
  A persistent job is executed row by row by any number of attempts. The protocol is a state machine whose steps are
  the committed transactions, crashes, clock ticks, deliveries and outside writes; theorems are about every finite
  sequence of steps. `ImportStore` has the same transactions as methods that update the stored job, rows and catalog.
- **File backup** (`FileBackup`, `FileCapture`, `FileRestore`, `FileRoundTrip`, `FileVerify`, `FileExtract`). The
  directory walk, the archive with its manifest, the streaming restore, and the restore from a file.
- **Object snapshot** (`ObjectListing`, `ObjectSnapshot`). The pagination loop and the materialization of one
  object-store prefix as a tree.
- **Retention** (`Retention`, `RetentionTheorems`). The pruner with its recovery floor and its dry run.
- **Image transforms** (`TransformQueue`, `FocalCrop`). The bounded queue that shares one load per key, and the
  focal-point crop.

`TextOrder` holds Python's order on strings, `StoreCatalog` and `ImportRows` and `ImportJobs` the records.
`dafny verify dfyconfig.toml` checks everything.

## Findings

Where a natural reading of the code is false, the code is kept, a concrete input shows it, and the exact
condition is proved:

- Rollback compensates by row number, not by order of application. After a retry the two differ, and a product
  the import created can stay enabled (`RolledBackProductStaysEnabled`); `EndsDisabledIff` says when it ends
  disabled. For rows applied in row order it always does (`RollbackCompensates`).
- A stock level gets its pre-import quantity back only if the lowest-numbered row on it snapshotted a quantity
  or the level was zero (`RollbackCompensates`). Two rows of one SKU code in different case, at two locations, are
  planned, executed and rolled back without complaint, and a level no row changed goes from nine to zero (`StockLost`).
- A crash is transparent to a first execution (`InterruptedRunIsSequential`) but not to every retry: the running
  attempt remembered its own rows last, a recovered one rebuilds its maps in row order. One crash moves a SKU to
  another product (`CrashChangesRetry`). A retry is safe when each pending row's explicit targets are those of the
  last applied row below it with the same key (`InterruptedRetryIsSequential`); the maps stay as they would be
  rebuilt exactly if this holds of every row that gets applied (`MapsHeldIff`); where it fails and the next row of
  the key has no target, a crash changes the outcome (`CrashRedirects`, `CrashResells`).
- A dry run of the pruner blocks a `.failed` part that is hard-linked into an expired snapshot; the apply run
  removes the snapshot first and then the part (`DryRunMisses`, `DryRunPredicts`).
- `restore` creates directories with their mode through the process's creation mask and never sets it again, while
  `restore_stream` does; it rebuilds the tree exactly iff the mask spares every directory (`MaskNarrows`,
  `ExtractRoundTrip`).
- The crop moves its region along the longer side of the scaled image, which is not always the side with
  slack; the focal point can then fall outside (`FocalPointLost`, `FocalKeptIff`).
- A featured asset is matched by normalized name but compared by its exact name, so such a row is planned again
  after every import (`FeaturedAssetNeverSettles`, `PlanningAgainPlansNothing`).

## Model

| member | source | states |
|---|---|---|
| ProtocolInvariant.RunKeepsInv | packages/catalog-management-plugin/src/catalog-import.service.ts:716-948 | The inductive invariant (lease columns, exactly-once effects, the owner's view of the rows, claims, completion, creation) holds after every finite sequence of the protocol's steps. |
| ProtocolTheorems.ExactlyOnce | packages/catalog-management-plugin/src/catalog-import.service.ts:785-842 | Over every run with crashes, lost acknowledgements, recoveries, duplicate deliveries and retries a row's catalog effect is committed at most once, and exactly once iff the row is applied. |
| ProtocolTheorems.AppliedIsFinal | packages/catalog-management-plugin/src/catalog-import.service.ts:816-836 | An applied row is never changed by anything that follows: not turned into ERROR, not resolved again, not applied again. |
| ProtocolTheorems.TokenIffRunning | packages/catalog-management-plugin/src/catalog-import-lease.ts:57-145 | In every reachable state the token and the lease are set iff the job is RUNNING, and the token was issued before. |
| ProtocolTheorems.StaleForever | packages/catalog-management-plugin/src/catalog-import-lease.ts:57-113 | A token that is not current never becomes current again. |
| ProtocolTheorems.OldAttemptIsPowerless | packages/catalog-management-plugin/src/catalog-import-lease.ts:79-145 | Once a job was recovered, re-queued or finished, no later step of the old attempt changes the job, a row or the catalog. |
| ProtocolTheorems.StaleReadChangesNothing | packages/catalog-management-plugin/src/catalog-import.service.ts:687-714 | A request to queue a job, or to reject its administrator, changes nothing if any committed change of the job lies between its read and its write. |
| ProtocolTheorems.OneClaimPerEpisode | packages/catalog-management-plugin/src/catalog-import-queue.service.ts:56-97 | Each QUEUED episode is claimed at most once over any run; a QUEUED job is unclaimed, a RUNNING one claimed exactly once. |
| ProtocolTheorems.FinishAccounts | packages/catalog-management-plugin/src/catalog-import.service.ts:843-876 | When an attempt finishes the job every row is applied, skipped or ERROR, the state is COMPLETED iff no row is ERROR, and the four counts add up to the row total. |
| ProtocolTheorems.CompletedMeansDone | packages/catalog-management-plugin/src/catalog-import.service.ts:861-868 | In every reachable COMPLETED state each row is applied or skipped and the stored counts are the rows'. |
| ProtocolTheorems.RolledBackIsTerminal | packages/catalog-management-plugin/src/catalog-import.service.ts:931-935 | No run changes the job, a row or the compensation log of a ROLLED_BACK job. |
| ProtocolTheorems.CompensatedOnce | packages/catalog-management-plugin/src/catalog-import.service.ts:920-948 | Over every run each applied row is compensated at most once, and exactly once iff the job is ROLLED_BACK. |
| ProtocolTheorems.RollbackIsAtomic | packages/catalog-management-plugin/src/catalog-import.service.ts:931-942 | The only step that compensates is an accepted rollback of a completed job without current token whose safety check passes; it compensates every applied row at once. |
| ProtocolTheorems.CreatedAtMostOnce | packages/catalog-management-plugin/src/catalog-import-writer.ts:98-103 | Over every run two applied rows of one product key did not both create the product, nor two rows of one execution key outside forced CREATE_NEW both create the SKU. |
| CrashTransparency.SequentialShape | packages/catalog-management-plugin/src/catalog-import.service.ts:760-780 | After the first k rows, the maps of the running attempt are the ones a recovered attempt rebuilds from the committed rows. |
| CrashTransparency.InterruptedRunIsSequential | packages/catalog-management-plugin/src/catalog-import.service.ts:757-842 | However often attempts crash, lose acknowledgements, expire or are retried, the stored rows and catalog are those of a prefix of the uninterrupted execution, and of all of it once the job is completed. |
| CrashTransparency.UninterruptedRunExists | packages/catalog-management-plugin/src/catalog-import.service.ts:716-876 | Every job that may be queued, for the first time or again, has an uninterrupted run, and it ends completed with the rows and catalog of the sequential execution. |
| RetryTransparency.InterruptedRetryIsSequential | packages/catalog-management-plugin/src/catalog-import.service.ts:757-842 | For any later episode, whatever rows are applied already: if each row still to be executed agrees in its explicit targets with the last applied row below it of the same key, every interrupted run holds a prefix of the uninterrupted execution, and all of it once completed. |
| RetryTransparency.MapsHeldIff | packages/catalog-management-plugin/src/catalog-import.service.ts:760-780 | In every state of every interrupted run of an episode the owner's maps are the ones a recovered attempt would rebuild iff every row the episode applies agreed before the job was queued, as long as identifiers are not reused. |
| RetryTransparency.RememberedIff | packages/catalog-management-plugin/src/catalog-import.service.ts:773-780 | Remembering a saved row last and rebuilding from all rows in order give the same maps iff the row went to the targets of the last applied rows below it with its keys. |
| RetryTransparency.CrashRedirects | packages/catalog-management-plugin/src/catalog-import.service.ts:757-842 | Where a row's explicit product differs from that of the last applied row below it with its key and the next pending row of the key has no target, one crash between the two takes the second row off the product it is written to without the crash. |
| RetryTransparency.CrashResells | packages/catalog-management-plugin/src/catalog-import.service.ts:757-842 | The same for an execution key: where a row is forced as new or has an explicit SKU that is not the one of the last applied row below it with its key, one crash takes the next pending row of the key off the SKU it is written to without the crash. |
| CrashedRetry.CrashChangesRetry | packages/catalog-management-plugin/src/catalog-import.service.ts:773-780 | A run from a fresh, planned job into a retry: finished without interruption it puts a SKU under the existing product, finished with one crash under another. |
| RollbackTheorems.LowestRowDecidesProduct | packages/catalog-management-plugin/src/catalog-import-rollback.ts:118-286 | Whatever order rows were applied in, the compensated product holds the snapshot of the applied row with the lowest number on it. |
| RollbackTheorems.LowestRowDecidesVariant | packages/catalog-management-plugin/src/catalog-import-rollback.ts:118-286 | The same for a SKU: disabled if that row created it, otherwise its snapshot's columns. |
| RollbackTheorems.LowestRowDecidesStock | packages/catalog-management-plugin/src/catalog-import-rollback.ts:118-286 | The compensated stock level is the one in the snapshot of the lowest-numbered row on it, or zero. |
| RollbackTheorems.SafeFindsTargets | packages/catalog-management-plugin/src/catalog-import-rollback.ts:44-106 | A passed safety check means every product and SKU an applied row wrote to still exists. |
| RollbackTheorems.EndsDisabledIff | packages/catalog-management-plugin/src/catalog-import-rollback.ts:118-286 | After an accepted rollback a product ends disabled iff its lowest-numbered applied row recorded the creation or a disabled product. |
| RollbackTheorems.SkuRestoredIff | packages/catalog-management-plugin/src/catalog-import-rollback.ts:118-286 | After any accepted rollback, whatever order rows were applied in, a SKU has its pre-import columns iff its lowest-numbered applied row snapshotted them and recorded no creation; for a SKU that was enabled, or whose lowest row recorded no creation and snapshotted its columns or its name. |
| RollbackTheorems.ProductRestoredIff | packages/catalog-management-plugin/src/catalog-import-rollback.ts:118-286 | The same for a product that was enabled, or whose lowest row recorded no creation. |
| RollbackRestores.RollbackCompensates | packages/catalog-management-plugin/src/catalog-import-rollback.ts:44-286 | For rows executed in row order, a passed safety check implies: pre-existing products and SKUs get their pre-import columns back, created ones end disabled, others are untouched, and a stock level is restored iff the lowest row on it snapshotted one or it was zero. |
| RollbackRestores.InterruptedRunIsCompensated | packages/catalog-management-plugin/src/catalog-import.service.ts:920-948 | The same over the protocol: any interrupted run that completes, any outside writes, then an accepted rollback. |
| RetryCounterexample.RolledBackProductStaysEnabled | packages/catalog-management-plugin/src/catalog-import.service.ts:936-938 | A run from a fresh job with one retry whose accepted rollback leaves a product the import created enabled: compensation goes by row number, not by order of application. |
| LostStock.StockLost | packages/catalog-management-plugin/src/catalog-import-rollback.ts:185-200 | A calm run from a fresh, planned job that completes and whose accepted rollback sets a stock level no row changed from nine to zero. |
| ImportService.ImportStore.Claim | packages/catalog-management-plugin/src/catalog-import-lease.ts:57-77 | A QUEUED job of the asking administrator gets a fresh token and a full lease; otherwise nothing changes. |
| ImportService.ImportStore.RecoverExpired | packages/catalog-management-plugin/src/catalog-import-lease.ts:115-145 | Re-queues exactly a RUNNING job whose lease has run out. |
| ImportService.ImportStore.RunRowTransaction | packages/catalog-management-plugin/src/catalog-import.service.ts:791-815 | Under a live token the row and catalog become those of the row's work, or the transaction throws and changes nothing. |
| ImportService.ImportStore.MarkRowError | packages/catalog-management-plugin/src/catalog-import.service.ts:820-835 | Re-reads the row under the fence and marks it ERROR unless it is done. |
| ImportService.ImportStore.FinishTransaction | packages/catalog-management-plugin/src/catalog-import.service.ts:844-876 | The recount loop stores the counts of all rows, the final state and no lease. |
| ImportService.ImportStore.ExecuteJob | packages/catalog-management-plugin/src/catalog-import.service.ts:716-909 | Alone, the two loops execute the whole job as the sequential execution and finish it. |
| ImportService.ImportStore.QueueExecution | packages/catalog-management-plugin/src/catalog-import.service.ts:687-714 | Queues iff the state allows it and no row is in conflict, warning or error. |
| ImportService.ImportStore.AssertRollbackSafe | packages/catalog-management-plugin/src/catalog-import-rollback.ts:44-116 | The loops over the reversed rows find exactly the rows that are the last on a product or SKU which no longer matches them; there are none iff rollback is safe. |
| ImportService.ImportStore.Rollback | packages/catalog-management-plugin/src/catalog-import.service.ts:920-948 | Compensates every applied row in one transaction, or throws and changes nothing; a repeated request does nothing. |
| RecoveryScan.QueryPage | packages/catalog-management-plugin/src/catalog-import-queue.service.ts:152-170 | A page is sorted, selected, and leaves out no selected job before its last. |
| RecoveryScan.CatalogImportQueueService.RecoverInterruptedJobs | packages/catalog-management-plugin/src/catalog-import-queue.service.ts:123-219 | The scan ends whatever others do meanwhile and whichever query throws; each job is looked at most once, and if no page query throws each that stays active exactly once; only expired leases are re-queued; each job is dispatched at most once; the counters add up; the flag that it runs is reset. |
| RecoveryScan.PageFollows | packages/catalog-management-plugin/src/catalog-import-queue.service.ts:152-173 | Advancing the cursor past a page keeps the scan sorted and misses no job that stays active. |
| RowIdentity.AssignKeys | packages/catalog-management-plugin/src/catalog-row-identity.ts:5-14 | The occurrence map numbers the rows without codes among their equals. |
| RowIdentity.UncodedKeysUnique | packages/catalog-management-plugin/src/catalog-row-identity.ts:5-42 | A row without SKU and barcode shares its record key with no other row of the file, whatever its texts contain. |
| RowIdentity.CreateNewKeysDistinct | packages/catalog-management-plugin/src/catalog-row-identity.ts:59-62 | Two rows forced as new never share a record key, whatever their keys were before. |
| PlanAndApply.DiffRow | packages/catalog-management-plugin/src/catalog-import-preview.ts:451-581 | The accumulated changes are exactly the planned change of every column. |
| PlanAndApply.CatalogEntry.ApplyUpdate | packages/catalog-management-plugin/src/catalog-import-writer.ts:305-593 | The records after the update are those of the field plan, written in place in the source's order. |
| PlanAndApply.PlanningAgainPlansNothing | packages/catalog-management-plugin/src/catalog-import-preview.ts:451-581 | For both settings of clearBlankFields, planning a physical row again after its update plans nothing iff its featured asset is named exactly. |
| PlanBridge.UpdateMatchesPlan | packages/catalog-management-plugin/src/catalog-import-writer.ts:305-593 | The catalog writer's update of product, SKU and stock level leaves exactly the columns the field plan says the update leaves. |
| PlanAndApply.OtherColumnsKept | packages/catalog-management-plugin/src/catalog-import-planning.ts:242-267 | A column the row neither provides nor clears keeps its value. |
| PlanAndApply.ColumnsTaken | packages/catalog-management-plugin/src/catalog-import-planning.ts:276-286 | A provided column takes the row's value, up to the spelling that text normalization ignores. |
| PlanAndApply.ClearedColumnsBlank | packages/catalog-management-plugin/src/catalog-import-planning.ts:318-348 | A column that is cleared and not provided is blank afterwards. |
| PlanAndApply.FeaturedAssetNeverSettles | packages/catalog-management-plugin/src/catalog-import-preview.ts:467-469 | A row naming its image in another case than the asset is planned again after every update. |
| FileCapture.WalkVisits | deploy/systemd/vendure-file-backup.py:74-90 | The walk visits exactly what lies below the root. |
| FileCapture.WalkDistinct | deploy/systemd/vendure-file-backup.py:74-90 | It visits nothing twice. |
| FileCapture.WalkTopDown | deploy/systemd/vendure-file-backup.py:74-90 | It visits each parent before its children. |
| FileCapture.Capture | deploy/systemd/vendure-file-backup.py:93-184 | Succeeds iff the output is new, the roots are valid and hold no special file; then the archive is the whole listing followed by its manifest. |
| FileBackup.ValidateManifest | deploy/systemd/vendure-file-backup.py:215-233 | Accepts exactly manifests with safe labels and safe, distinct paths under them. |
| FileBackup.RestoreStream | deploy/systemd/vendure-file-backup.py:296-369 | The loop over the members and the final chmods compute the restore function, behind the checks on manifest and target. |
| FileRestore.RestoredSound | deploy/systemd/vendure-file-backup.py:323-359 | Every accepted member keeps the restored tree equal to what the manifest says of the members seen. |
| FileRestore.RestoreIsSound | deploy/systemd/vendure-file-backup.py:296-369 | For any members and manifest, a restore that returns has restored exactly the manifest's files with their size, digest and mode, its directories and their parents with their modes, and saw every member once. |
| FileRoundTrip.ListingOrderly | deploy/systemd/vendure-file-backup.py:114-165 | The listing of all roots is orderly and holds exactly the entries at and below them, under their labels. |
| FileRoundTrip.OrderlyRestores | deploy/systemd/vendure-file-backup.py:296-369 | The members of an orderly listing and its manifest are restored to the end. |
| FileRoundTrip.RoundTrip | deploy/systemd/vendure-file-backup.py:93-184 | For every file system and valid roots without special files, the captured archive is restored to exactly the captured tree: paths, contents, modes, positive modification times. |
| FileVerify.ReadManifest | deploy/systemd/vendure-file-backup.py:191-212 | Returns the embedded manifest iff it is of this version and no member is a duplicate, unsafe or special. |
| FileVerify.Verify | deploy/systemd/vendure-file-backup.py:236-263 | Accepts iff some manifest embedded in the archive describes it completely, with safe and distinct members. |
| FileVerify.CaptureVerifies | deploy/systemd/vendure-file-backup.py:187-263 | Every captured archive verifies with its own manifest. |
| FileExtract.Extract | deploy/systemd/vendure-file-backup.py:266-293 | Succeeds iff the target is empty and the archive embeds a readable, valid manifest whose directories and files can be made; then the two loops compute the extraction of that manifest. |
| FileExtract.ExtractRoundTrip | deploy/systemd/vendure-file-backup.py:266-293 | On every captured archive the file restore succeeds, and it rebuilds the captured tree exactly iff the process's creation mask leaves every captured directory mode alone. |
| FileExtract.MaskNarrows | deploy/systemd/vendure-file-backup.py:273-275 | A valid capture with a directory of mode 0777, which the mask 022 makes 0755. |
| ObjectListing.ListObjects | deploy/systemd/vendure-s3-prefix-snapshot.py:109-132 | The pagination loop ends within 10,001 pages, returns the pages of a complete listing in order, and fails only if the store offers none. |
| ObjectListing.OneListing | deploy/systemd/vendure-s3-prefix-snapshot.py:112-132 | A store has only one complete listing. |
| ObjectSnapshot.StoredFits | deploy/systemd/vendure-s3-prefix-snapshot.py:139-195 | In sorted order one pass succeeds iff the object fits, and adds exactly that object: no .part file is left and nothing captured is overwritten. |
| ObjectSnapshot.NothingInTheWay | deploy/systemd/vendure-s3-prefix-snapshot.py:171-185 | In sorted order neither the .part path nor the destination of the next object exists. |
| ObjectSnapshot.Capture | deploy/systemd/vendure-s3-prefix-snapshot.py:91-213 | Succeeds iff a complete listing exists whose objects are capturable, distinct, no path prefix of each other and clear of the manifest's name, whatever their order; then the tree is exactly their bytes and the manifest, and verifies. |
| ObjectSnapshot.VerifyTree | deploy/systemd/vendure-s3-prefix-snapshot.py:216-292 | Accepts iff the tree is its manifest and exactly the recorded files with size and digest, each once. |
| ObjectSnapshot.ManifestPinsTree | deploy/systemd/vendure-s3-prefix-snapshot.py:216-292 | Two accepted trees with the same manifest hold the same files. |
| TransformQueue.SlotsConserved | packages/asset-server-plugin/src/image-transform-queue.ts:35-67 | In every interleaving the active counter is the number of slots granted and not released, within the limits, and nobody waits while a slot is free. |
| TransformQueue.GrantsAreFifo | packages/asset-server-plugin/src/image-transform-queue.ts:45-49 | A released slot goes to the live waiter that came first, or is given back. |
| TransformQueue.FateIsFinal | packages/asset-server-plugin/src/image-transform-queue.ts:55-66 | A waiter is granted or timed out, never both, and a settled promise keeps its outcome, over every continuation. |
| TransformQueue.OneLoadPerKey | packages/asset-server-plugin/src/image-transform-queue.ts:21-33 | Two entries of one key are never both unfinished. |
| TransformQueue.RunsShareOutcome | packages/asset-server-plugin/src/image-transform-queue.ts:21-33 | Every request for a key made before its promise is forgotten gets that promise. |
| TransformQueue.ImageTransformQueue.Request | packages/asset-server-plugin/src/image-transform-queue.ts:21-54 | The class's counter, map and list follow the queue function and keep its invariant. |
| TransformQueue.ImageTransformQueue.LoadSettled | packages/asset-server-plugin/src/image-transform-queue.ts:35-49 | Release hands the slot over or gives it back, keeping the invariant. |
| TransformQueue.ImageTransformQueue.TimedOut | packages/asset-server-plugin/src/image-transform-queue.ts:60-64 | A timer removes exactly its own waiter. |
| TransformQueue.ImageTransformQueue.Forget | packages/asset-server-plugin/src/image-transform-queue.ts:28-31 | The deferred delete drops the settled entry and nothing else, keeping the invariant. |
| Retention.Retain | deploy/systemd/vendure-file-backup-retention.py:273-372 | The loops compute the run function; it refuses fewer than three sets or five days. |
| RetentionTheorems.RetentionFloor | deploy/systemd/vendure-file-backup-retention.py:286-370 | If any file of a backup set goes, the policy was verified, the set was hash-verified, copied off-site and older than keep_count protected sets, and all of these still pass the hash check. |
| RetentionTheorems.FloorHeldMeanwhile | deploy/systemd/vendure-file-backup-retention.py:319-341 | Whatever directory each pass of the pruning loop finds because others are at work, a set is removed only while keep_count newer sets pass the hash check in that very directory, before and after the removal. |
| RetentionTheorems.QuietIsAmid | deploy/systemd/vendure-file-backup-retention.py:319-341 | The quiet loop of the other results is the loop amid others' work in which each pass finds what the pass before left. |
| RetentionTheorems.AgeOnlySparesSets | deploy/systemd/vendure-file-backup-retention.py:342-370 | The age-only loop never touches an archive or a sidecar. |
| RetentionTheorems.RunInClosedForm | deploy/systemd/vendure-file-backup-retention.py:286-370 | Every list a run reports and the directory it leaves, from the directory it starts in. |
| RetentionTheorems.DryRunPredicts | deploy/systemd/vendure-file-backup-retention.py:273-372 | A dry run always predicts the backup sets; it predicts the residual and blocked lists iff no failed part is hard-linked into expired snapshots only, and then apply removes just the union of the two candidate lists. |
| RetentionTheorems.DryRunMisses | deploy/systemd/vendure-file-backup-retention.py:345-355 | A directory for which the dry run blocks a failed part that the apply run removes. |
| FocalCrop.CoversTarget | packages/asset-server-plugin/src/transform-image.ts:109-130 | The intermediate image covers the target and one side is exact. |
| FocalCrop.ResizeToFocalPoint | packages/asset-server-plugin/src/transform-image.ts:96-156 | The extraction region has the target's size and lies inside the intermediate image. |
| FocalCrop.MovedAxisKeeps | packages/asset-server-plugin/src/transform-image.ts:150-154 | Along the moved axis the cut contains the point to half a pixel, and is centred on it unless the edge stopped it. |
| FocalCrop.FocalKeptIff | packages/asset-server-plugin/src/transform-image.ts:135-156 | The crop keeps every focal point of the image, to half a pixel, iff the region moves along the axis that has slack. |
| FocalCrop.FocalPointLost | packages/asset-server-plugin/src/transform-image.ts:150-154 | A 300x400 image cropped to 100x200 loses a focal point by 45 pixels. |

## Left out

- Services outside this source: TypeORM, the database engines, Nest, the product, search and job services, AWS, tar,
  gzip, sharp. Transactions are atomic steps, tokens fresh numbers, hashes injective.
- Preview, resolution of a row and rollback are single atomic steps; a resolution that races with an execution that
  starts between its read and its write is not covered.
- In the protocol `queueExecution` may queue a job with unresolved rows; the class method counts them. More runs
  are allowed than the source has.
- Every write to a product or SKU stamps a new `updatedAt`, and an outside write may change anything at all.
- Import effects on featured assets, source bindings, suppliers, costs, inventory lots, policies, collections and
  digital fields are not part of the catalog of the rollback theorems; facets are one list of identifiers.
- Rows re-resolved as CREATE_NEW or UPDATE_EXISTING are in the protocol, but outside `Planned` in the rollback
  theorems, because their snapshot is not one of the preview's target.
- Uniqueness search for SKU codes and slugs, option groups, multi-variant keys, progress notification, search
  reindexing, permissions, and the paging of queue inspection before a recovery scan.
- Dates and text normalization are opaque, prices are exact reals rounded half up. That a row's texts are trimmed
  (catalog-file-parser.service.ts:355-359, catalog-import-helpers.ts:407-413) is assumed of its two units.
- Values of the wrong JSON type in manifests, listings and records; the totals, labels and paths are typed.
- File locks, inode identity races, symbolic links, permissions and failing system calls in the Python tools; `st_mtime`
  rounding. A captured file does not change while it is read.
- Retention.Retain: the environment file and the policy script are one answer given from outside, and so are the
  object heads and the remote checksum, each with the reason it fails for.
- ImportService.ImportStore.RunRowTransaction: the committed catalog covers the modelled columns only; suppliers, costs,
  lots, assets, bindings and collections are written in the same transaction but are not in it.
- ImportService.ImportStore.ExecuteJob: runs alone, so the heartbeat never finds the lease lost; interleavings with
  other workers are those of `ImportProtocol`.
- ImportService.ImportStore.QueueExecution: the conditional update on the version read before, and the enqueue after it;
  the race is the step `QueueExecution` of `ImportProtocol`.
- ImportService.ImportStore.AssertRollbackSafe: the fingerprint of a SKU holds its stock levels and the number of its
  movements; the source's digest also covers price records, lots, policies, costs, suppliers and bindings.
- RecoveryScan.CatalogImportQueueService.RecoverInterruptedJobs: the inspection of the queue is one answer taken before
  the scan, and log messages are left out.
- PlanAndApply.DiffRow: digital rows, brand, tags, category, supplier, cost currency, lot columns and the SKU's name are
  not among the columns.
- PlanBridge.UpdateMatchesPlan: compares the columns both models have; the featured asset, the cost and policy columns
  and the SKU's name are in one of them only.
- PlanAndApply.CatalogEntry.ApplyUpdate: likewise for the writes of those columns, and facets and collections.
- `createdAt` and the length of the embedded manifest are parameters of the capture.
- Timers in the image queue fire at any moment; the derivative cache and the format negotiation are not modelled.
- Floating point in the crop: the arithmetic is over exact reals.
