# LumenHorizon: verified model of the satellite-to-tile pipeline

LumenHorizon downloads VIIRS night-light granules, validates and queues them, renders each into a
set of Web Mercator tiles, publishes the set to blob storage, cleans old sets up, and redirects map
clients to single tiles. This project models the parts of it where several functions, processes or
runs have to agree, and proves that they do, or says exactly when they do not.

## Layout

| file | content |
|---|---|
| `SlippyTiles.dfy`, `Planning.dfy`, `RasterWindows.dfy` | tile arithmetic, planned ranges, pixel windows |
| `Orchestration.dfy`, `TileSets.dfy` | job list, bounded parallel renderer, whole tile sets against the gateway |
| `ArtifactNames.dfy`, `BlobPaths.dfy` | names of artifacts, printed and scanned paths |
| `IngestLog.dfy`, `IngestTables.dfy` | ingest log, outbox and queue as a state machine, and as one process sees them |
| `IngestPipeline.dfy`, `IngestRecovery.dfy`, `IngestSummary.dfy` | pipeline, recovery and replay, counters |
| `IngestProgress.dfy`, `IngestStranded.dfy` | how soon recovery makes progress; which rows it never reaches |
| `ProcessingQueue.dfy`, `QueueWorker.dfy` | at-least-once queue with dead-lettering, and its worker |
| `TileStore.dfy`, `Publication.dfy` | publication of tile sets, beside cleanup |
| `Retention.dfy`, `CleanupRuns.dfy`, `PointerRetention.dfy` | one cleanup run, many of them, and what they leave of the latest pointer |
| `Wrappers.dfy` | options, results and a little arithmetic |
| `RateLimit.dfy`, `Retry.dfy` | fixed-window rate limiter, capped exponential retry |
| `Science.dfy`, `Rendering.dfy` | pixel classification, quality summary, colours |

`dafny verify dfyconfig.toml` checks everything.

## How concurrency is modelled

Ingest, queue and tile store are state machines over single statements: an `Event` is one SQL
statement, one queue request or one blob request, `Step` its effect, and a run is any sequence of
events, so processes interleave freely and may stop anywhere. `Enabled` says what a process has to
know before it issues a statement. The code of the services is modelled as methods over a store
class whose primitives let other processes take any number of steps before and after each statement
and may report an error whether or not the statement was applied. Each primitive demands that its
statement is enabled, so verifying a method shows that the code never issues a statement without
that knowledge. `EveryRunIsSafe` in each machine is the safety statement over all runs. Contracts
name the position of the log at which a query was answered or a statement applied. A store created
with `alone` has no other process; contracts guarded by it give the exact change of state.

## What the proofs found

- The generator refuses whole granules: a planned tile that only touches the east or south edge of
  its source has no raster window, and the error aborts the granule. It happens if and only if that
  edge bounds the generation area and lies on the tile grid. At zoom two and above the east edges of
  VIIRS columns 8, 17 and 26 lie on the grid, and the south edge of row 8 is the equator.
- Every tile the gateway serves is generated; the generated tiles it does not serve are exactly those
  that only touch the east or south edge.
- The latest pointer is not protected by retention as the latest row is. Publications that stop before
  their pointer upload leave it naming an older set, for any number of protected sets. Cleanup takes that
  set apart if and only if it is neither latest nor among the protected newest of its version, its tiles
  fit one listing, and it is not blocked.
- Cleanup skips a set with more tiles than RETENTION_TILE_BLOB_LIMIT and never marks it, so such sets stay
  at the head of every batch once they are unprotected. As many of them as RETENTION_BATCH_LIMIT block
  every younger set for ever; fewer of them slow cleanup down by at most their share of the batch.
- Rows can be stranded, out of reach of every recovery query though neither enqueued nor rejected. In
  every reachable state these are exactly the failed rows, and the `validated` and `replay_pending` rows
  without a pending outbox record. A row gets there by a mark `failed` (after a failed download, send or
  record), by a stop before its outbox record is made (in the pipeline, in recovery or in a replay), or
  when its pending record uses its third attempt or is completed on account of an earlier message.
- Tile set ids carry eight digits of the ingest id. Two ingests of one day and version that agree in
  them and in the attempt number get the same id. The tile store model names a set by
  ingest and attempt, so it leaves such a clash out.
- `retry_after` is rounded down to whole seconds, so waiting exactly that long may be too short.
- A request that cannot be cloned makes the retry loop panic exactly when retries are allowed and the
  first reply is retryable.
- Tiles of three digits do not survive printing and scanning; VIIRS tiles have two.
- Any minute admits at most twice the limit less one call, a bound that is reached.

## Model

| member | source | states |
|---|---|---|
| SlippyTiles.PlannedIffTouches | backend/shared/src/slippy_tiles.rs:124-140 | the planned range of a zoom level is exactly the set of tiles that meet the bounds, tiles that share only an east or south edge included; stated without floors or clamps |
| SlippyTiles.PlannedColumns | backend/shared/src/slippy_tiles.rs:174-177 | a column is planned exactly when its span of longitudes meets the bounds, the far edge included |
| SlippyTiles.PlannedRows | backend/shared/src/slippy_tiles.rs:179-187 | the same for rows, through the abstract Mercator map |
| SlippyTiles.MercatorExists | backend/shared/src/slippy_tiles.rs:169-172 | the assumptions made on the Mercator pair can be met |
| Planning.PlanTileGeneration | backend/processing-svc/src/generate/planning.rs:28-47 | the plan holds one range per zoom level and counts exactly the tiles it lists; it fails exactly for bad bounds, too large a zoom, or more than a 32-bit count of tiles |
| Planning.RangeCoordsLength | backend/processing-svc/src/generate/planning.rs:49-53 | the tile count of a range is the number of its tiles |
| Planning.PlanCoordsMembers | backend/processing-svc/src/generate/planning.rs:33-47 | a coordinate is listed exactly when it lies in a planned range |
| Planning.PlanCoordsOrdered | backend/processing-svc/src/generate/orchestration.rs:256-274 | a plan lists its tiles in strictly increasing order, so none twice |
| RasterWindows.WindowIsSmallestCover | backend/processing-svc/src/generate/window.rs:29-59 | a window lies inside a non-empty raster and is the smallest pixel rectangle covering the clipped tile; the one-pixel fallback never changes it |
| RasterWindows.NeighbourColumns | backend/processing-svc/src/generate/window.rs:29-49 | windows of horizontal neighbours have equal rows, leave no gap and share at most one pixel column |
| RasterWindows.NeighbourRows | backend/processing-svc/src/generate/window.rs:29-49 | the same for vertical neighbours and pixel rows |
| Orchestration.TileRenderJobs | backend/processing-svc/src/generate/orchestration.rs:256-274 | the job list has one job per planned tile, in plan order, numbered, each with its window; it fails exactly when some tile has none, with the error of the first such tile in plan order |
| Orchestration.RunJobs | backend/processing-svc/src/generate/orchestration.rs:204-254 | for any order of completion: the result is that of a sequential loop, every job is spawned and joined once, the loop terminates, and a failure is that of the job joined last |
| Orchestration.ScheduleIsBounded | backend/processing-svc/src/generate/orchestration.rs:210-238 | at most max(1, parallelism) renders are in flight at any moment |
| Orchestration.ScheduleRunsEachJobOnce | backend/processing-svc/src/generate/orchestration.rs:217-246 | jobs are spawned in list order, each once, and joined at most once, after they were spawned |
| Orchestration.SortByIndex | backend/processing-svc/src/generate/orchestration.rs:250-253 | the finished tiles, permuted into job order |
| TileSets.GenerateTileSetForGranule | backend/processing-svc/src/generate/orchestration.rs:57-198 | succeeds if and only if there is a plan of at most a 32-bit count of tiles and each tile has a window and renders; every failure is that of the first level without a range, the count, the first tile without a window, or a tile that does not render, in this order; on success plan, tiles and manifest count the same tiles, each rendered from its window, and every coordinate the gateway redirects to has been rendered |
| TileSets.GatewayServesOnlyPlannedTiles | backend/api-gateway/src/server/routes.rs:169-183 | a coordinate the gateway redirects to is in the plan made from the same bounds and zooms |
| TileSets.UnservedTilesTouchAnEdge | backend/api-gateway/src/server/routes.rs:174-183 | the planned tiles the gateway does not redirect to are exactly those beyond the east or south edge that share only that edge |
| TileSets.PlannedTileWindow | backend/processing-svc/src/generate/window.rs:22-27 | a planned tile has no window exactly when it lies just beyond an east or south edge common to area and source |
| TileSets.JobListRefusedExactly | backend/processing-svc/src/generate/orchestration.rs:256-274 | the job list is refused if and only if, at some planned zoom, the source's own east or south edge bounds the area and lies on the tile grid inside the world |
| TileSets.WindowsCoverArea | backend/processing-svc/src/generate/window.rs:17-50 | the pixel under any point of the generation area is in the window of some planned tile of every zoom |
| TileSets.ViirsEastEdgeOnGrid | backend/shared/src/slippy_tiles.rs:106-122 | the east edge of a VIIRS column is on the grid from zoom two exactly for columns 8, 17 and 26 |
| TileSets.ViirsGranulesRefused | backend/shared/src/slippy_tiles.rs:106-122 | granules of those columns, and of row 8, cannot be rendered unless the configured area stops short of that edge |
| ArtifactNames.TileBlobPathInjective | backend/shared/src/slippy_tiles.rs:142-150 | a tile path determines the tile set and the coordinate |
| ArtifactNames.PrefixMatchesOwnTiles | backend/processing-svc/src/retention.rs:362-365 | the cleanup prefix of one tile set matches exactly that set's tiles |
| ArtifactNames.CleanupStaysInside | backend/processing-svc/src/retention.rs:343-365 | what a cleanup deletes contains no tile or manifest of another set and never the latest pointer |
| ArtifactNames.OnlyLatestHidesPointer | backend/shared/src/slippy_tiles.rs:152-159 | a manifest is written over the latest pointer exactly for the id `latest` |
| ArtifactNames.TileSetIdDetermines | backend/processing-svc/src/process/message.rs:506-521 | two ids are equal if and only if date, version, eight-digit ingest prefix and attempt are |
| ArtifactNames.GeneratedIdValid | backend/processing-svc/src/process/message.rs:506-521 | a generated id passes the publisher's check exactly when the version has no slash, backslash or double dot, and is never `latest` |
| ArtifactNames.GatewayAcceptsPublishedId | backend/api-gateway/src/storage.rs:211-221 | the gateway refuses a published id exactly for its length or a character of the version |
| ArtifactNames.ParsePublishedPath | backend/api-gateway/src/server/routes.rs:632-660 | the gateway reads every coordinate back from its published path |
| ArtifactNames.RedirectNamesUploadedBlob | backend/api-gateway/src/server/routes.rs:185-189 | filling the manifest's URL template gives the CDN URL of the uploaded blob exactly when neither the configured base URL nor the tile set id itself holds a placeholder; any other brace is harmless |
| IngestLog.ValidateRawGranuleBytes | backend/ingest-svc/src/jobs/validation.rs:1-15 | accepts exactly the byte strings that begin with the HDF5 signature |
| IngestLog.EveryRunIsSafe | backend/ingest-svc/src/jobs/ingest_log.rs:85-353 | over all interleavings and stops: enqueued rows and completed records had a message accepted; at most one pending record per ingest; pending records have fewer than three attempts; messages are those of their rows; a message for a never-replayed row had signed bytes |
| IngestLog.AcceptedAfterSignature | backend/ingest-svc/src/jobs/pipeline.rs:200-301 | a message for a never-replayed row was preceded in the log by a look at bytes with the signature |
| IngestLog.StepKeepsEnqueuedMeansAccepted | backend/ingest-svc/src/jobs/ingest_log.rs:100-125 | no statement makes an enqueued row or completed record without an accepted message, although updates ignore the old status |
| IngestLog.StepKeepsOutbox | backend/ingest-svc/src/jobs/ingest_log.rs:211-322 | no statement makes a second pending record of an ingest or a pending record out of attempts |
| IngestLog.EnabledIsStable | backend/ingest-svc/src/jobs/pipeline.rs:200-397 | what a process knows before a statement is not undone by other processes |
| IngestTables.IngestStore.Execute | backend/ingest-svc/src/jobs/ingest_log.rs:104-166 | one statement among those of other processes; a success was applied at some position of the log during the call, an error leaves that open |
| IngestTables.IngestStore.InsertDownloadingRow | backend/ingest-svc/src/jobs/ingest_log.rs:43-83 | a new row, or none exactly when the key was taken at the moment of the insertion |
| IngestTables.IngestStore.CreatePendingEnqueueOutbox | backend/ingest-svc/src/jobs/ingest_log.rs:211-242 | the record that is the pending one of the ingest right after the statement, new or already there |
| IngestTables.IngestStore.RecoverableRawRows | backend/ingest-svc/src/jobs/ingest_log.rs:192-209 | at one moment of the log: at most 100 recoverable rows, the oldest first, all of them if there are fewer |
| IngestTables.IngestStore.PendingEnqueueOutbox | backend/ingest-svc/src/jobs/ingest_log.rs:244-270 | at one moment of the log: the first 100 pending records of rows that wait for their message, with the row's data |
| IngestTables.IngestStore.ReplayRejected | backend/ingest-svc/src/jobs/ingest_log.rs:324-353 | true exactly when the row was rejected at the moment of the update; then the replay is remembered and the row's outbox record was made |
| IngestPipeline.ProcessGranuleInner | backend/ingest-svc/src/jobs/pipeline.rs:54-414 | for every outcome, skipping included, the exact statements issued and the exact ones completed, in order, failure exits included; each is issued only with the knowledge it needs |
| IngestPipeline.StoreRaw | backend/ingest-svc/src/jobs/pipeline.rs:120-198 | a failed download or upload marks the row failed and ends; a stored blob is recorded before it is validated |
| IngestPipeline.ValidateDownloaded | backend/ingest-svc/src/jobs/pipeline.rs:200-246 | rejects exactly bytes without the signature |
| IngestPipeline.EnqueueValidated | backend/ingest-svc/src/jobs/pipeline.rs:248-397 | outbox record, message, enqueue, status, completion, in this order |
| IngestRecovery.RecoverRow | backend/ingest-svc/src/jobs/recovery.rs:39-68 | unreadable rows stay pending, unsigned bytes are rejected, signed ones validated with an outbox record; in each case the exact statements, and a newer stamp on the row |
| IngestRecovery.RunRecovery | backend/ingest-svc/src/jobs/recovery.rs:31-84 | beside other processes: a batch of recoverable rows of one moment is examined and each gets a newer stamp, then a batch of eligible records of one moment is tried, and every counter adds up; alone, the tables change exactly as examination and drain say |
| IngestRecovery.EnqueueRecord | backend/ingest-svc/src/jobs/recovery.rs:115-146 | message, row status, completion, in this order, or else one attempt is used; the log says which |
| IngestRecovery.EnqueuePendingOutbox | backend/ingest-svc/src/jobs/recovery.rs:109-150 | the selected records are tried in order and counted; alone, the tables become those of the drain function |
| IngestRecovery.ExamineRawRows | backend/ingest-svc/src/jobs/recovery.rs:39-68 | a batch of recoverable rows is examined in order, each with the exact statements of its outcome, and counted; alone, the tables become those of the examination |
| IngestRecovery.ReplayRejectedGranule | backend/ingest-svc/src/jobs/recovery.rs:86-107 | refused exactly when the row was not rejected at the moment of the update; otherwise its record is made and a batch of the outbox is tried and counted |
| IngestProgress.RecoveryIsFair | backend/ingest-svc/src/jobs/recovery.rs:39-57 | whatever other processes do during and between the runs: n recoverable rows all carry a newer stamp after n/100 completed runs, rounded up, even if no blob is readable; a row nobody else touches first is examined by one of them |
| IngestProgress.UnchangedShrinks | backend/ingest-svc/src/jobs/ingest_log.rs:192-209 | from one run to the next, beside any other statements, at least 100 rows that had not changed since the start have changed, or none is left unchanged |
| IngestProgress.SelectionExists | backend/ingest-svc/src/jobs/ingest_log.rs:192-209 | the query for recoverable rows has an answer for every table |
| IngestProgress.ThreeDrainsClearABatch | backend/ingest-svc/src/jobs/ingest_log.rs:293-322 | beside statements that make no old record eligible again: any three drains clear the first 100 eligible records, whatever fails |
| IngestProgress.OutboxDrains | backend/ingest-svc/src/jobs/recovery.rs:115-147 | beside any other statements that do not make an old record eligible again: n eligible records all stop being eligible within three times n/100 drains, rounded up, whatever fails; they are then completed or given up unless their row changed, and given up if nothing completed them |
| IngestProgress.OutboxIsSent | backend/ingest-svc/src/jobs/recovery.rs:115-147 | under the same interference, if every send succeeds none of them is eligible after n/100 drains, rounded up, and every record a drain selected was completed |
| IngestProgress.OutboxIsCompleted | backend/ingest-svc/src/jobs/recovery.rs:109-150 | and if nobody else touches a record or its row before a drain has selected it, each of the n records is selected in time, its message is accepted and it is completed |
| IngestProgress.EligibleForFewDrains | backend/ingest-svc/src/jobs/recovery.rs:109-150 | whatever other processes do, also making old records eligible again: a record with m pending ones before it is eligible at every look of fewer than 3 + 3m/100 drains |
| IngestStranded.StrandedExactly | backend/ingest-svc/src/jobs/ingest_log.rs:192-270 | in every reachable state a row is neither done nor in reach of recovery if and only if it is failed, or is validated or replay-pending without a pending record |
| IngestStranded.HowRowsStrand | backend/ingest-svc/src/jobs/ingest_log.rs:85-353 | a statement strands a row if and only if it marks it failed, makes it wait before its record exists, or uses the last attempt of its pending record or completes that record after an earlier message |
| IngestStranded.WhyStranded | backend/ingest-svc/src/jobs/pipeline.rs:226-397 | in every run a stranded row has a last such statement, and is stranded ever since |
| IngestStranded.RecoveryLeavesStranded | backend/ingest-svc/src/jobs/recovery.rs:31-84 | a recovery run that nothing disturbs leaves a stranded row stranded |
| IngestStranded.StopAfterValidation | backend/ingest-svc/src/jobs/pipeline.rs:226-250 | a stop between the validated mark and the outbox record strands the row |
| IngestStranded.StopInReplay | backend/ingest-svc/src/jobs/ingest_log.rs:324-353 | so does a stop between the update of a replay and its outbox record |
| IngestStranded.FailedSend | backend/ingest-svc/src/jobs/pipeline.rs:317-347 | so does a send that fails and is recorded, with the pending record left behind |
| IngestStranded.AttemptsUsedUp | backend/ingest-svc/src/jobs/ingest_log.rs:293-322 | so do three failed drains of its record |
| IngestSummary.Summary.RecordAttempt | backend/ingest-svc/src/jobs/summary.rs:27-51 | each counter is the number of attempts with the outcomes it stands for |
| IngestSummary.Summary.Balances | backend/ingest-svc/src/jobs/summary.rs:27-51 | attempts are the sum of skipped, failed, rejected and enqueued, and the stage counters nest |
| ProcessingQueue.EveryRunIsSafe | backend/processing-svc/src/process/queue_worker.rs:165-347 | over all interleavings, expiries and stops: each accepted message is still queued, or finished, or its text is dead-lettered; dead-lettering needs the maximum count or a missing row; the dead-letter queue holds nothing else |
| ProcessingQueue.FailingMessageIsDeliveredMaxTimes | backend/processing-svc/src/process/queue_worker.rs:92-101 | a message that fails at each delivery is delivered exactly the maximum number of times, at least once, and ends in the dead-letter queue |
| QueueWorker.FailingWorkerDelivers | backend/processing-svc/src/process/queue_worker.rs:165-321 | what an undisturbed worker asks for on a failing message, followed by the end of the timeout, is one such delivery |
| ProcessingQueue.KnowledgeIsStable | backend/processing-svc/src/process/failure.rs:48-91 | what a worker knows before a request is not undone by other workers |
| QueueWorker.QueueService.ReceiveMessage | backend/processing-svc/src/process/queue_worker.rs:131-154 | at one moment of the log: a message that was visible, with its text, its count and a new receipt, or none exactly when none was visible |
| QueueWorker.QueueService.DeleteMessage | backend/processing-svc/src/process/queue_worker.rs:323-332 | a deletion that succeeds found the message under the receipt given, at one moment of the log |
| QueueWorker.MoveQueueMessageToDeadletter | backend/processing-svc/src/process/failure.rs:48-91 | the copy is made before the original is deleted, which was there under its receipt |
| QueueWorker.HandleReceived | backend/processing-svc/src/process/queue_worker.rs:165-347 | for every case, the exact requests sent; handled only when all of them were sent and the deletion found the message under its receipt, at one moment of the log |
| QueueWorker.ProcessOnceWithQueue | backend/processing-svc/src/process/queue_worker.rs:121-348 | at most one message per call; each handled message was in the main queue under its receipt when its deletion was applied; alone and with every request granted, the queue changes by exactly the planned requests, and a failing message has had one more delivery |
| QueueWorker.Worker | backend/processing-svc/src/process/dispatch.rs:16-35 | with no producers the loop terminates and handles no more messages than the queue held |
| TileStore.EveryRunIsSafe | backend/processing-svc/src/publish.rs:72-142 | over all interleavings and stops: recorded sets not selected for deletion are complete; at most one is latest; the latest pointer names a recorded set with its hash; a processed row names a recorded set; every set ever selected has enough newer sets never selected |
| TileStore.ProtectedSetsAreComplete | backend/processing-svc/src/db.rs:151-233 | the newest protected-plus-one live sets of each version and the latest set are never deleted and have manifest and tiles |
| TileStore.EnoughSafe | backend/processing-svc/src/db.rs:151-202 | if every selected set has k newer live sets, each has k newer live sets that are not selected |
| TileStore.TargetingIsSafe | backend/processing-svc/src/db.rs:151-202 | selecting any batch of candidates keeps the retention invariant, beside other runs |
| TileStore.StepKeepsStored | backend/processing-svc/src/db.rs:476-519 | no event leaves a recorded set without its manifest or a tile |
| TileStore.StepKeepsLatest | backend/processing-svc/src/db.rs:521-559 | promotion keeps at most one set latest |
| TileStore.StepKeepsTargets | backend/processing-svc/src/retention.rs:117-144 | a selected set is never latest |
| TileStore.AttemptsIncrease | backend/processing-svc/src/db.rs:271-341 | of two attempts of one ingest the one started later has the higher number, also while both are running, so no two share a tile set id |
| Publication.KnowledgeIsStable | backend/processing-svc/src/publish.rs:72-142 | what a publisher or a cleanup knows before a statement is not undone by others |
| Publication.TileService.UpsertProcessingStarted | backend/processing-svc/src/db.rs:271-341 | the number is the one its own statement was given at its place in the log; no process had started that attempt before, and none but this one will render it |
| Publication.TileService.InsertTileSet | backend/processing-svc/src/db.rs:476-519 | a success found the id free and inserted it, at one moment of the log |
| Publication.TileService.PromoteLatestTileSet | backend/processing-svc/src/db.rs:521-559 | right after its transaction the set, and no other, is latest |
| Publication.PublishTileSet | backend/processing-svc/src/publish.rs:57-91 | the exact statements, tiles before manifest before row before promotion before pointer, and a prefix of them on failure |
| Publication.PublishTileManifest | backend/processing-svc/src/publish.rs:93-143 | manifest, row, promotion, pointer, in this order; alone, the set ends up the only latest one and named by the pointer |
| Publication.ProcessMessage | backend/processing-svc/src/process/message.rs:464-478 | a message that succeeds published a set under an id no attempt had before, and named it in its log row last |
| Retention.SelectCandidates | backend/processing-svc/src/db.rs:151-202 | at one moment of the log: a batch of candidates, oldest first, all of them if they fit; a dry run changes nothing |
| Retention.ExecuteTileSetCleanup | backend/processing-svc/src/retention.rs:170-248 | alone, exactly the blobs of the set are gone and only its row is marked; a set with too many tiles is left as it was; a failure leaves the set without some blobs, or marked |
| Retention.MarkRetentionDeleted | backend/processing-svc/src/db.rs:204-233 | a success found the set neither latest nor marked, at one moment of the log |
| Retention.RunRetentionCleanup | backend/processing-svc/src/retention.rs:19-168 | the batch of one moment is selected, each set deleted or skipped and counted, and those counted as deleted are marked; alone, an executing run is a turn of the model of many runs, complete or, if it fails, stopped early; a dry run deletes nothing |
| Retention.CleanSetsEffect | backend/processing-svc/src/retention.rs:117-248 | cleaning takes the blobs and marks the rows of exactly the selected sets whose tiles fit one listing, and changes nothing else |
| Retention.BatchExists | backend/processing-svc/src/db.rs:151-202 | the candidate query has an answer for every table |
| CleanupRuns.TakenApartExactly | backend/processing-svc/src/retention.rs:117-248 | for every state: a set is ever taken apart if and only if its row is not marked, it is neither latest nor among the protected newest of its version, one listing shows its tiles, and there are fewer older unprotected sets beyond that limit than a batch holds |
| CleanupRuns.TurnsKeep | backend/processing-svc/src/retention.rs:179-205 | of any other set no blob and no row is touched by any number of runs, complete or not |
| CleanupRuns.GoneWithin | backend/processing-svc/src/db.rs:151-202 | with f sets ahead of it that fit and b that block, a set that can go and is old enough is gone after more than f / (batch - b) complete runs |
| CleanupRuns.ConcurrentRunsKeep | backend/processing-svc/src/retention.rs:117-248 | in every reachable state, sets that cannot go are untouched by runs that work side by side and stop anywhere |
| CleanupRuns.ProtectionStays | backend/processing-svc/src/db.rs:151-202 | a run changes neither the protection of a protected set nor the lack of it: the selected sets leave enough newer ones behind |
| PointerRetention.PointerStaysServedExactly | backend/processing-svc/src/publish.rs:126-142 | for every number of protected sets, every pair of limits and every reachable state: the set named by the latest pointer keeps its manifest, with the promised hash, and its tiles, however often cleanup runs and wherever it stops, if and only if they are there now and the set cannot go (its row is marked, it is latest or among the protected newest, it exceeds the tile limit, or as many older such sets as a batch holds block it) |
| PointerRetention.PointerMayOutliveItsManifest | backend/processing-svc/src/publish.rs:119-142 | for every number of protected sets and all positive limits, a run that gets there: a complete publication, then that many and one more that stop before their pointer upload, then cleanup runs that take the set apart |
| PointerRetention.CleaningKeepsProtection | backend/processing-svc/src/db.rs:151-233 | time and any selections and deletions that cleanup may make never end the protection of a set |
| PointerRetention.PointerServedBesideRuns | backend/processing-svc/src/retention.rs:117-248 | the same pointer stays served beside any number of concurrent cleanup runs |
| RateLimit.MemoryRateLimitStore.IncrementWindow | backend/api-gateway/src/rate_limit.rs:175-207 | only the counter of the key changes, to the next count of its window or to one in a new window |
| RateLimit.MemoryRateLimitStore.Check | backend/api-gateway/src/rate_limit.rs:95-120 | admits a call up to limit plus burst and refuses it with the time to wait after |
| RateLimit.MapKeyInjective | backend/api-gateway/src/rate_limit.rs:95-100 | distinct route classes or keys never share a counter |
| RateLimit.CallersAreIndependent | backend/api-gateway/src/rate_limit.rs:175-207 | a caller's counter depends on that caller's calls only |
| RateLimit.WindowStartsApart | backend/api-gateway/src/rate_limit.rs:181-201 | windows of a key start at least 60 s apart |
| RateLimit.RefusedCallOpensNoWindow | backend/api-gateway/src/rate_limit.rs:181-201 | a refused call never opens or extends a window |
| RateLimit.WindowAdmits | backend/api-gateway/src/rate_limit.rs:65-67 | a window admits what it counts, up to limit plus burst |
| RateLimit.AnyMinuteAdmits | backend/api-gateway/src/rate_limit.rs:95-120 | any half-open minute admits at most twice the limit less one |
| RateLimit.AnyMinuteBoundIsTight | backend/api-gateway/src/rate_limit.rs:95-120 | the bound is reached |
| RateLimit.WaitingReachesLaterWindow | backend/api-gateway/src/rate_limit.rs:201-206 | a caller that waits one second more than told is counted in a later window |
| RateLimit.AdviceIsRoundedDown | backend/api-gateway/src/rate_limit.rs:201-206 | waiting exactly as told is enough only when the time left was whole seconds or under one |
| Retry.DelayMonotone | backend/shared/src/http_retry.rs:12-20 | delays never shrink |
| Retry.DelayDoubles | backend/shared/src/http_retry.rs:12-20 | up to attempt 32 the delay is the doubled base capped at the maximum, exactly unless the millisecond count saturates below that maximum |
| Retry.TotalWaitBound | backend/shared/src/http_retry.rs:45-111 | the total wait is bounded by the capped and by the geometric sum |
| Retry.SendWithRetry | backend/shared/src/http_retry.rs:45-111 | stops at the first reply not to be retried or at the last attempt; panics exactly when the request cannot be cloned, retries are allowed and the first reply asks for one |
| Retry.StopsAtOnce | backend/shared/src/http_retry.rs:53-108 | the stopping rule fixes the number of sends |
| Retry.RetryAsync | backend/shared/src/http_retry.rs:152-188 | calls at least once and at most the limit, and gives up early only on success or an error not to be retried |
| Science.SampleValueAsU16 | backend/processing-svc/src/science/validation.rs:84-90 | succeeds exactly for the whole numbers of 16 bits, with the sample's own value |
| Science.SummarizeQuality | backend/processing-svc/src/science/quality.rs:87-120 | all counts and the fraction, and the number of renderable samples as valid minus cloudy |
| Science.RenderableAreValidNotCloudy | backend/processing-svc/src/science/quality.rs:123-127 | summary and renderer count the same pixels |
| Science.ClassIsTheOnlyContainingOne | backend/shared/src/dark_sky.rs:80-92 | exactly the finite radiances from zero up have a class, the one whose interval contains them |
| Science.ClassIsMonotone | backend/shared/src/dark_sky.rs:14-92 | brighter pixels never get a lower class |
| Science.TableIsContiguous | backend/shared/src/dark_sky.rs:14-78 | the class intervals join without gap or overlap |
| Rendering.RenderPixelsFromSamples | backend/processing-svc/src/generate/rendering.rs:22-62 | fails exactly for misaligned or unclassifiable samples, with the error of the first one; keeps exactly the renderable ones with their radiance |
| Rendering.PixelColorIsClassColor | backend/processing-svc/src/render.rs:64-79 | opaque in the colour of its class for a kept pixel of finite radiance from zero up, fully transparent otherwise, never an error |
| Rendering.ClassColorsParse | backend/processing-svc/src/render.rs:81-99 | every colour of the class table parses |
| Rendering.ColorsTellClassesApart | backend/shared/src/dark_sky.rs:14-78 | different classes have different colours |
| Rendering.RenderPngTile | backend/processing-svc/src/render.rs:31-62 | four bytes per pixel, pixel by pixel, and the exact errors for sizes that do not fit |
| BlobPaths.ParseFrom | backend/ingest-svc/src/models.rs:47-72 | finds the first tile, or none exactly when there is none, and agrees with the other scanner on every byte string |
| BlobPaths.PrintThenScan | backend/ingest-svc/src/models.rs:29-39 | a printed path scans back to its tile exactly for two-digit tiles |
| BlobPaths.MessageOfGranule | backend/shared/src/processing_message.rs:147-183 | the message of a discovered granule can be built exactly when its tile has two digits |

## Left out

- Floating-point rounding: coordinates and radiances are exact reals; NaN and the infinities are kept in the pixel model only.
- The Mercator formulas: they enter as a strictly decreasing map and its inverse on the square.
- Configuration and command-line parsing: retention days of at least one is taken from it as a precondition.
- The SQL engine: a statement is one atomic step, and promotion is one transaction; the unique constraints of the migrations are built into the statements.
- The time a publication takes: a promotion later than a day after its insertion is taken to fail, where the code would go on. With retention of at least one day this is what keeps a selected set from becoming the latest one.
- Ties and late stamps of ingest rows: each statement stamps a row later than all statements before it, while the database stamps with the start of the statement's transaction, so two stamps may be equal or out of order.
- Publications and promotions between cleanup runs, in the statements about many runs: a promotion can demote an older set, which may then go or block others.
- A listing that announces a further page although it has shown all tiles.
- Creation times of outbox records: records stand in insertion order, so two records made at the same instant are not told apart.
- The text order of tile set ids: sets created at the same instant are ranked by ingest and attempt, another total order.
- Reasons, error messages and completion times of rows and outbox records.
- The requeue route of the gateway: it sends a further message only for an ingest whose processing has already been started and has failed or been rejected.
- The Redis and the unavailable rate-limit store, and the clock of the memory store going backwards between two calls where a bound on a whole minute is stated.
- GDAL, HDF reading and PNG encoding: sample lists and pixel bytes are arbitrary.
- Raw-blob retention: a filter by age without ranking.
- Audit rows of retention, tracing, progress display, metadata JSON, authentication, request signing, the Swift app.
- Discovery resume points and the cloud-fraction threshold: each is one query or one comparison.
