# Control plane model

A model in Dafny of the scheduling, artifact, delivery and tiling code of a control plane for
disposable, retryable photogrammetry jobs, with proofs of the properties that code is for. The
modules follow the source files:

- `StageContracts`, `StageScheduler`, `StageFairness`, `Ordering`: the stage graph, and the fair scheduler
  that admits queued stage runs under five limits. The imperative scheduler rotates deques; it is proved equal
  to a reference schedule that rescans every queue, and safety, maximality, order and fairness are proved of
  that schedule.
- `ArtifactOverlay`, `ParentOrder`, `OverlayGrowth`, `WorkspaceTransfer`, `Directories`, `WorkspaceRestore`,
  `PublicationLimits`, `PartialPublication`, `CasCollection`: incremental workspace publication, the memoised
  overlay loader, verified restore into a tree of files and directories, and mark-and-sweep collection. What a
  manifest shows is defined by the manifest graph alone.
- `ImmutableStorage`: concurrent publishers of content-addressed objects, request by request.
- `Outbox`, `Inbox`: the leased outbox and the transactional inbox, as steps over database rows.
- `TilePlanning`, `DetectionSharding`, `DetectionGeometry`, `DetectionResults`: tile cover arithmetic,
  shard plans, spatial deduplication, and sharded against monolithic detection.
- `GstileManifest`, `GstileHierarchy`, `GstileStorage`, `GstileStreams`: the GSTile manifest validator and
  the Q96 attribute streams.
- `RateLimiting`, `RateLimitRows`: token buckets in process, in the database and per organization.
- `StageRuns`, `StageSuccess`, `StageOverwrites`: the stage runs of one mission, blocked, released, reserved,
  executed, published and cleaned up, and when a success is final.
- `Results`, `Sequences`, `Arithmetic`: shared vocabulary and small facts.

Code that works step by step is a class or a method with loops, proved against functions; protocols
with several participants are functions on a state, with lemmas over every run. Coordinates, tokens and
times are reals, a box coordinate also one of the non-finite floats. SHA-256 (section 6.2 of FIPS 180-4)
and CRC-32 (section 8 of RFC 1952) are parameters, the digest assumed injective only where a lemma says
so. The object store creates an object only when it is absent (`If-None-Match: *`, section 13.1.2 of
RFC 9110).

Where the code does not keep a promise in general, the code is modelled as it is, a lemma gives an
input that shows it, and the exact condition is proved:

- A manifest may be published over the key of one of its own ancestors, or beyond the limits the loader
  enforces, and then cannot be loaded (`PublicationLimits`); or it may show a file where a partial workspace
  has a directory, and then cannot be restored (`PartialPublication`). `WorkspaceRestore.PublishThenRestore`
  has the exact condition.
- The grid agrees with the quadratic scan exactly for positive IoU thresholds (`DetectionGeometry`).
- The inbox runs a handler at most once per key exactly when no incomplete receipt was there at the
  start (`Inbox`).
- Deleting expired buckets changes no later decision exactly when every legacy row behind a deleted key
  is full (`RateLimitRows`).
- An executor's report, a heartbeat, a failed dispatch and the cleanup of a Job write a status without looking
  at the old one, so a success is final exactly when none of the four can still come (`StageSuccess`;
  `StageOverwrites` for one run each).

`dafny verify dfyconfig.toml` checks the whole project.

## Model

| member | source | states |
|---|---|---|
| `StageContracts.ChainDescends` | shared/stage_contracts.py:48-63 | Along any chain of dependencies the position in the published order strictly increases. |
| `StageContracts.PrecedesIrreflexive` | shared/stage_contracts.py:48-63 | The stage graph is acyclic: no stage is its own transitive dependency. |
| `StageContracts.Ancestors` | shared/stage_scheduler.py:55-64 | The worklist returns exactly the stages from which a chain of direct dependencies leads to the given one. |
| `StageContracts.StagesAreIndependent` | shared/stage_scheduler.py:67-73 | True exactly when the stages differ and neither is a transitive dependency of the other. |
| `StageScheduler.SelectStageCandidates` | shared/stage_scheduler.py:76-164 | The nested rotating loops, with their four running totals, return exactly the selections, in order and with granted units, of the reference schedule that rescans every owner's queue from its head. |
| `StageScheduler.TryAdmit` | shared/stage_scheduler.py:111-140 | From the running totals alone, admits exactly when all five limits and stage independence hold for the load so far, and reduces the units to what is left. |
| `StageScheduler.ScanQueue` | shared/stage_scheduler.py:110-143 | Rotating the deque stops at its first admissible run with only blocked runs moved behind; a full turn finds nothing and restores it. |
| `StageScheduler.GroupByOwner` | shared/stage_scheduler.py:94-100 | Queues hold each owner's candidates in (created_at, run_id) order, owners in order of their oldest candidate. |
| `StageScheduler.TakeTurn` | shared/stage_scheduler.py:105-161 | One owner's turn on the rotated deques is one visit of the reference schedule. |
| `StageScheduler.RunRound` | shared/stage_scheduler.py:103-163 | One pass over the owners is one round of the reference schedule. |
| `StageScheduler.RotatedPick` | shared/stage_scheduler.py:110-143 | A pick from a rotated deque is the pick a scan from the head would make, because a skipped run stays inadmissible under any larger load. |
| `StageScheduler.RoundShrinks` | shared/stage_scheduler.py:102-163 | A round that makes progress leaves strictly fewer queued runs, so the outer loop ends. |
| `StageScheduler.ScheduleIsSafe` | shared/stage_scheduler.py:76-164 | For every candidate list and active load: total, per-class, per-owner and per-mission load stay within the larger of limit and initial load; every same-mission pair with a selected run is independent; each selection is a candidate reduced to between one unit and its request. |
| `StageScheduler.ScheduleIsMaximal` | shared/stage_scheduler.py:102-164 | On return no unselected candidate is admissible under the final load. |
| `StageScheduler.ScheduleIsOrdered` | shared/stage_scheduler.py:94-164 | Each owner's selections come out in (created_at, run_id) order, and a run left over that precedes one of them in that order was blocked when that one was picked. |
| `StageScheduler.ScheduleIsFair` | shared/stage_scheduler.py:102-164 | When an owner gets a pick that puts it two ahead of a rival's total, every run the rival leaves over was already blocked at that moment. |
| `StageFairness.BlockedAtOwnTurn` | shared/stage_scheduler.py:102-163 | For every run left over there was a turn of its owner, after the last pick the owner got, at which the run was already blocked while owners earlier in the rotation were at most one pick ahead and all others at most level. |
| `StageScheduler.CandidateConserved` | shared/stage_scheduler.py:94-164 | Every candidate is either selected or still queued, as often as it was supplied. |
| `Ordering.SortSorted` | shared/stage_scheduler.py:95-98 | Python's sorted, as a stable insertion sort, orders by any total preorder. |
| `Ordering.SortStable` | shared/stage_scheduler.py:95-98 | Elements that compare equal keep their order. |
| `Ordering.SortIdempotent` | shared/detection_geometry.py:201-208 | A sorted sequence is a fixed point of sorted. |
| `ArtifactOverlay.CasKeyInjective` | shared/artifact_manifest.py:30-39 | Different digests have different content-addressed keys. |
| `ArtifactOverlay.Download` | shared/stage_workspace.py:469-488 | Accepts a manifest object exactly when it is present, has the expected checksum, is well formed and belongs to the organization. |
| `ArtifactOverlay.Merge` | shared/stage_workspace.py:497-501 | Merging one more parent succeeds exactly when no path they share differs, and yields the union. |
| `ArtifactOverlay.OverlayLoader.Load` | shared/stage_workspace.py:457-509 | The memoised depth-first visit keeps its cache and active set consistent and answers the declarative overlay of the manifest it visits. |
| `ArtifactOverlay.LoadManifestOverlay` | shared/stage_workspace.py:444-512 | Succeeds exactly on a sound graph (no reachable cycle, missing, mismatched or foreign manifest, parent conflict, or exceeded limit), returns the map in which an entry is visible when some ancestor owns it and nothing on the way overrides it, and loads each reachable manifest once. |
| `ArtifactOverlay.RepresentsUnique` | shared/stage_workspace.py:444-512 | A manifest has at most one overlay. |
| `ParentOrder.ParentOrderIrrelevant` | shared/stage_workspace.py:492-501 | Listing the parents of any manifests of a graph in another order changes neither whether a manifest resolves nor the overlay it shows. |
| `ParentOrder.LoadReordered` | shared/stage_workspace.py:444-512 | The loader, run on a graph and on the same graph with parents reordered, fails on both or answers the same files. |
| `ArtifactOverlay.SeesUnfold` | shared/stage_workspace.py:492-503 | An entry is visible at a manifest exactly when the manifest owns it, or does not own its path and some parent shows it. |
| `CasCollection.PlanCasCollection` | shared/cas_gc.py:17-41 | Raises for a grace under seven days, and for a missing manifest exactly when a key reachable from the roots is absent, also on cyclic graphs; otherwise the plan lists, by key, the blobs that are unmarked, unprotected and past the grace. |
| `CasCollection.PlanMembers` | shared/cas_gc.py:28-41 | A blob is planned exactly when it is listed, no live manifest names it, it is not protected and it is older than the cutoff; it is planned as often as it is listed, and the plan is ordered by key. |
| `CasCollection.SweepKeepsOverlays` | shared/cas_gc.py:17-41 | After the planned blobs are deleted, every file visible from any root of a sound overlay still has its blob, unchanged. |
| `CasCollection.ChainIsLive` | shared/cas_gc.py:29-40 | Every manifest the overlay loader can reach from a root is live for the collector. |
| `OverlayGrowth.GrowthExact` | shared/stage_workspace.py:414-428 | A manifest written over sound, agreeing parents resolves exactly when its key is not that of an ancestor, one more manifest fits the limit and the file limit holds; it then shows the parents' files overridden by its own. |
| `OverlayGrowth.OverwrittenAncestor` | shared/stage_workspace.py:420-428 | Writing a manifest over the key of one of its own ancestors makes it unloadable, for every such graph. |
| `OverlayGrowth.RepublishingInPlaceFails` | shared/stage_workspace.py:414-428 | In the manifest graph: a manifest written over its own sound parent, at the parent's key, does not resolve. |
| `PublicationLimits.InPlaceAcceptedUnloadable` | shared/stage_workspace.py:283-441 | A concrete request over one parent, at the parent's own key: it meets every condition of publication, and the manifest it writes cannot be loaded. |
| `PublicationLimits.ChainAcceptedUnloadable` | shared/stage_workspace.py:283-512 | A concrete request over a chain of 64 loadable manifests that is publishable and becomes the manifest too many. |
| `PublicationLimits.FilesAcceptedUnloadable` | shared/stage_workspace.py:283-512 | A concrete request without parents, of 100,001 files with names of at most six digits, that is publishable and shows more files than the loader materialises. |
| `WorkspaceTransfer.ObjectStore.PublishBlob` | shared/storage_immutable.py:198-303 | A blob ends up under its digest key with matching size and digest, existing objects are never replaced, and with sound content the publication succeeds. |
| `WorkspaceTransfer.InheritedFiles` | shared/stage_workspace.py:327-339 | Succeeds exactly when every parent overlay resolves and the overlays agree on shared paths, and returns their union. |
| `WorkspaceTransfer.PublishFile` | shared/stage_workspace.py:345-392 | A local file is inherited, relabelled or uploaded exactly as its path, size, digest and role relate to the inherited entry; it fails exactly for links and dishonest declarations. |
| `WorkspaceTransfer.PublishFiles` | shared/stage_workspace.py:341-392 | The entries written are exactly the changed files in order, each uploaded, with no blob replaced. |
| `WorkspaceTransfer.PublishWorkspace` | shared/stage_workspace.py:283-441 | Succeeds exactly when parents resolve and agree and the request is publishable over what they show; writes one canonical manifest of the changes, and on failure no manifest at all. |
| `WorkspaceRestore.Destination.PruneUnmanaged` | shared/stage_workspace.py:537-568 | Leaves exactly the managed regular files and the directories on the way to them, and reports how many files were removed. |
| `WorkspaceRestore.Destination.RestoreFile` | shared/stage_workspace.py:785-823 | Succeeds exactly when no directory stands at the path, no file on the way to it, and the file is already right or its blob verifies; then it holds the named bytes, and otherwise no file changed. |
| `WorkspaceRestore.Destination.RestoreFiles` | shared/stage_workspace.py:782-824 | Succeeds exactly when no selected path leads through another or is obstructed in the destination and every file is obtainable; after a failure each path is verified or untouched, never partial. |
| `WorkspaceRestore.Destination.RestoreWorkspace` | shared/stage_workspace.py:733-837 | Succeeds exactly when the overlay resolves, the selection is legal and every selected file fits into the destination and is obtainable; the destination then holds it, and exactly it, directories included, when an exact inventory was asked for. |
| `WorkspaceRestore.ExactFits` | shared/stage_workspace.py:537-568 | After an exact prune the files fit, whatever the destination held, exactly when no path of the inventory leads through another. |
| `WorkspaceRestore.PublishedResolves` | shared/stage_workspace.py:406-428 | A published manifest resolves exactly when its key is unused above its parents and both limits leave room, and it then shows the published inventory. |
| `WorkspaceRestore.RestoredReproduces` | shared/stage_workspace.py:733-837 | An exact restore of the published inventory gives back every published path with its bytes, and no other file or directory, whatever the destination held. |
| `WorkspaceRestore.PublishThenRestore` | shared/stage_workspace.py:283-837 | Publish, then exact restore: succeeds exactly when the new manifest will resolve and no path it shows leads through another, the latter only in question for a partial workspace; it then reproduces the published workspace byte for byte, including files that were only inherited. |
| `PartialPublication.PartialAcceptedUnrestorable` | shared/stage_workspace.py:283-837 | A concrete partial workspace with a directory where its parent shows a file: it is publishable, its manifest loads, and no destination and no blobs let it be restored. |
| `Outbox.OutboxTable.Enqueue` | shared/inbox_outbox.py:47-81 | Idempotent by event id: adds one pending row or changes nothing. |
| `Outbox.OutboxTable.Claim` | shared/inbox_outbox.py:229-268 | Claims the first eligible unlocked rows in order of creation and id, up to the batch size, and stamps exactly those with the worker's lease. |
| `Outbox.OutboxTable.Finalize` | shared/inbox_outbox.py:308-340 | Records the outcome exactly when the worker still holds the row, and leaves every other row and a lost row alone. |
| `Outbox.OutboxTable.Deliver` | shared/inbox_outbox.py:180-209 | Direct delivery settles the row as the dispatcher would. |
| `Outbox.ClaimedEligible` | shared/inbox_outbox.py:236-268 | A claim takes only rows that are due or whose lease expired, and none locked by another transaction. |
| `Outbox.OldestClaimed` | shared/inbox_outbox.py:229-268 | An eligible unlocked row that a claim leaves behind was left by a full batch, all of it created no later than the row. |
| `Outbox.StepKeeps` | shared/inbox_outbox.py:229-340 | Every step of any worker keeps the row, worker and lease invariants. |
| `Outbox.OutboxRowsConsistent` | shared/inbox_outbox.py:229-340 | After every run: lock fields are set exactly while publishing; attempts equal the recorded outcomes and never exceed the limit; published only after that event's publisher succeeded; dead exactly when the attempt reaching the limit failed. |
| `Outbox.TerminalForever` | shared/inbox_outbox.py:229-340 | Published and dead rows are never touched again, by any later run. |
| `Outbox.LostLeaseHarmless` | shared/inbox_outbox.py:308-316 | A worker whose lease was taken over changes nothing when it finalises, and never another row. |
| `Outbox.UnfinishedClaimable` | shared/inbox_outbox.py:229-255 | Every unfinished event becomes claimable at a definite time and stays so. |
| `Inbox.ExactlyOnce` | shared/inbox_outbox.py:84-156 | Over every interleaving of replicas, retries, redeliveries, failed commits and crashes, a receipt written by this path is completed and its handler's transaction committed exactly once. |
| `Inbox.OffsetsSafe` | shared/kafka_reliability.py:256-298 | An offset is committed only when the effect is durable or the dead letter was confirmed. |
| `Inbox.AtMostOnceExactly` | shared/inbox_outbox.py:84-119 | At most one handler commit per key in every run if and only if the table did not start with an incomplete receipt for it. |
| `Inbox.IncompleteReceiptRunsTwice` | shared/inbox_outbox.py:91-110 | A concrete run: two replicas that find the same incomplete receipt both commit the handler. |
| `Inbox.StepKeeps` | shared/inbox_outbox.py:84-156 | Every step of every replica keeps the receipt, replica and offset invariants. |
| `Inbox.ProcessMessage` | shared/kafka_reliability.py:236-298 | The first attempt whose handler and offset commit succeed ends the delivery; with none, the offset is committed only behind a confirmed dead letter. |
| `RateLimiting.GrantsPaid` | shared/rate_limiting.py:45-63 | Grants never exceed the opening balance plus the refill up to any later time. |
| `RateLimiting.BurstBound` | shared/rate_limiting.py:45-63 | At most burst plus rate times T grants in any interval of length T, whatever the bucket held before. |
| `RateLimiting.TraceBound` | shared/rate_limiting.py:45-63 | The same bound over traces of many keys, for a key that keeps its bucket. |
| `RateLimiting.FreshKeyBound` | shared/rate_limiting.py:45-63 | The same bound for a key that starts without a bucket. |
| `RateLimiting.EvictionResets` | shared/rate_limiting.py:48-52 | A concrete trace in which an evicted key exceeds the bound. |
| `RateLimiting.RetryDelayExact` | shared/rate_limiting.py:59-63 | The retry delay is positive, sufficient and minimal, also when refused requests are repeated meanwhile. |
| `RateLimiting.RefillComposes` | shared/rate_limiting.py:55-58 | Refilling in two steps is refilling once. |
| `RateLimiting.TokenBucketRateLimiter.Consume` | shared/rate_limiting.py:45-63 | The ordered table after one request is the table without the key, or without its oldest entry when full, with the drawn bucket appended. |
| `RateLimiting.ConsumeKeyKeeps` | shared/rate_limiting.py:45-63 | The table never exceeds its maximum and every balance stays between zero and burst. |
| `RateLimiting.TableKeepsMostRecent` | shared/rate_limiting.py:45-63 | After any trace the table holds exactly the most recently consumed keys, in that order. |
| `RateLimiting.KeptWhileRecent` | shared/rate_limiting.py:45-63 | A key has a bucket exactly when it was asked for, and fewer than the maximum number of other keys were asked for since. |
| `RateLimiting.NeverEvictedVisible` | shared/rate_limiting.py:45-63 | A key keeps its bucket throughout a window of requests exactly when it is recent, in that sense, after each of them. |
| `RateLimiting.VisibleTraceBound` | shared/rate_limiting.py:45-63 | The bound of burst plus rate times T for a key of the bounded table, on a condition about the requests alone. |
| `RateLimiting.KeysIndependent` | shared/rate_limiting.py:45-63 | While a key is not evicted the other keys do not influence its decisions. |
| `RateLimitRows.DatabaseTokenBuckets.ConsumeOnce` | shared/rate_limiting.py:122-166 | One transaction draws from the key's row, adopts a legacy row with its balance, or starts full. |
| `RateLimitRows.DatabaseTokenBuckets.CollectExpired` | shared/rate_limiting.py:97-120 | Refuses a batch size outside 1 to 4096; otherwise deletes only expired, unlocked rows of the scope, oldest first, exactly as many as batch, overflow and candidates allow. |
| `RateLimitRows.CollectionUnobservable` | shared/rate_limiting.py:97-166 | Deleting expired rows changes no decision of any later sequence of requests if and only if the legacy row behind each deleted key, where there is one, is full. |
| `RateLimitRows.CollectionChangesNothing` | shared/rate_limiting.py:97-166 | When every legacy row behind a deleted key is full, no later sequence of requests is decided otherwise. |
| `RateLimitRows.NextDecisionUnchanged` | shared/rate_limiting.py:97-166 | The next decision alone, at whatever later time, is unchanged by the deletion of an expired row if and only if no legacy row of the key waits without a token. |
| `RateLimitRows.LegacyRowLosesToken` | shared/rate_limiting.py:97-166 | A concrete table from which a collection of any batch size deletes one row; the next decision is the same without it, and the one after it is refused, which the row would have granted. |
| `RateLimitRows.RepeatedGranted` | shared/rate_limiting.py:122-166 | Simultaneous requests of one key are all granted exactly when the balance behind the key, in its own row, its legacy row or a fresh one, covers them. |
| `RateLimitRows.RowTraceBound` | shared/rate_limiting.py:97-166 | Over database rows, with requests of any keys and collections interleaved, a key is granted at most burst plus rate times T in any interval of length T. |
| `RateLimitRows.OrganizationQuota.ConsumeRequestQuota` | shared/organization_saas.py:403-454 | Without a rate or burst nothing is limited; otherwise one request draws from the organization's bucket exactly as from an in-process one, full at first. |
| `RateLimitRows.QuotaBound` | shared/organization_saas.py:403-454 | An organization is granted at most burst plus rate times T requests in any interval of length T. |
| `TilePlanning.BuildTileStarts` | shared/detection_tile_planning.py:6-24 | Rejects exactly the invalid sizes; starts strictly increase from zero to the far edge, adjacent windows touch and share a pixel when an overlap is asked for. |
| `TilePlanning.TileStartsCover` | shared/detection_tile_planning.py:13-24 | The same for the starts as a function, also after the last one is shifted. |
| `TilePlanning.WindowsInside` | shared/detection_tile_planning.py:13-24 | Every window is non-empty and inside the raster. |
| `TilePlanning.EveryPixelCovered` | shared/detection_tile_planning.py:13-24 | Every pixel lies in some window. |
| `DetectionSharding.ShardsPartition` | shared/detection_sharding.py:140-156 | The shards enumerate every tile exactly once, in row-major order, and none is empty. |
| `DetectionSharding.ShardIsSlice` | shared/detection_sharding.py:71-84 | A shard's tiles are the slice from its first tile to the next shard's first tile. |
| `DetectionSharding.EveryPixelInTile` | shared/detection_sharding.py:71-84 | Every raster pixel lies in a tile of the plan. |
| `DetectionSharding.TilesInside` | shared/detection_sharding.py:71-84 | Every tile is non-empty and inside the raster. |
| `DetectionSharding.PlannedPixelsExact` | shared/detection_sharding.py:157-159 | The planned pixels, a product of two sums, equal the summed areas of the tiles the shards enumerate. |
| `DetectionSharding.DescribeThenParse` | shared/detection_sharding.py:86-101 | A built plan survives description and parsing unchanged, whatever limits it was built under. |
| `DetectionSharding.ParsedWasDescribed` | shared/detection_sharding.py:192-229 | A descriptor is accepted exactly when it describes a plan that was built. |
| `DetectionGeometry.IouBounds` | shared/detection_geometry.py:68-90 | On finite boxes the ratio is symmetric and between zero and one. |
| `DetectionGeometry.VertexInBox` | shared/detection_geometry.py:25-30 | With Python's min and max, a finite vertex lies in its polygon's box whenever that box is finite. |
| `DetectionGeometry.DetectionGrid.Add` | shared/detection_geometry.py:155-168 | Files the detection under every cell of its box, or as global, and keeps the index lists exact. |
| `DetectionGeometry.DetectionGrid.Candidates` | shared/detection_geometry.py:170-180 | Returns exactly the entries that share class and cell with the detection, or are or meet an unbounded box. |
| `DetectionGeometry.DuplicatesAreCompared` | shared/detection_geometry.py:93-180 | With a positive IoU threshold no duplicate pair is skipped by the grid, given that hits lie in the kept box and centroids in their own. |
| `DetectionGeometry.GridMatchesScan` | shared/detection_geometry.py:183-223 | Dedupe through the grid keeps exactly what comparing with every kept detection keeps, including non-finite boxes and boxes over 4096 cells. |
| `DetectionGeometry.GridRefinesScanExactly` | shared/detection_geometry.py:93-223 | The two agree on every list if and only if the IoU threshold is positive. |
| `DetectionGeometry.MarkersDiffer` | shared/detection_geometry.py:93-180 | A named pair of detections: with a threshold that is not positive the quadratic scan keeps one of the two and the grid keeps both. |
| `DetectionGeometry.DedupeMissionDetections` | shared/detection_geometry.py:183-230 | The loop over the grid computes the grid scan, and with a positive threshold the quadratic one. |
| `DetectionGeometry.DedupeCharacterised` | shared/detection_geometry.py:199-230 | The output is a subsequence of the sorted input in descending (area, confidence); no kept polygon repeats an earlier one; every dropped polygon repeats a kept one with a key at least as large; detections without a polygon all survive. |
| `DetectionGeometry.DedupeStable` | shared/detection_geometry.py:199-230 | The survivors with one (area, confidence) key are a subsequence of the detections given with that key, in the order they were given. |
| `DetectionGeometry.DedupeIdempotent` | shared/detection_geometry.py:183-230 | Applying dedupe twice is applying it once. |
| `DetectionResults.StripIdempotent` | shared/detection_shard_results.py:73-108 | Stripping white space twice is stripping once, and never lengthens. |
| `DetectionResults.NormalizeAllIdempotent` | shared/detection_shard_results.py:56-111 | Normalised detections are accepted again unchanged. |
| `DetectionResults.NormalizeAppend` | shared/detection_shard_results.py:150-158 | Normalising a concatenation is concatenating normalisations, and fails when either part fails. |
| `DetectionResults.ParseIdempotent` | shared/detection_shard_results.py:114-158 | A parsed result read back from its own payload is the same result. |
| `DetectionResults.RunTiles` | app2-ia/detection_stage.py:210-248 | Succeeds exactly when there is a tile, all tiles report one valid model and the detection limit holds; returns the global detections tile after tile. |
| `DetectionResults.RunShard` | app2-ia/detection_stage.py:197-271 | The same for one shard, refused exactly when plan, configuration, raster or shard index do not fit. |
| `DetectionResults.FileResults` | shared/detection_shard_results.py:180-187 | Accepts exactly the result lists that all parse with distinct shard indices, and files them by index. |
| `DetectionResults.AggregateDetectionShards` | shared/detection_shard_results.py:169-209 | Succeeds exactly when every shard answered once, with one model, within the limit; a missing, duplicate or mixed-model set is always rejected; raw detections come in shard order and are then deduplicated. |
| `DetectionResults.ShardedEqualsMonolithic` | app2-ia/detection_stage.py:197-287 | For any shard size and any arrival order, the fan-in of the shard runs is complete and its raw detections are the normalised output of the single-shard run. |
| `DetectionResults.FanInPrefix` | shared/detection_shard_results.py:196-201 | The first n shards give the normalised output of their tiles. |
| `GstileManifest.ValidatePacks` | shared/gstile_manifest.py:64-124 | Accepts exactly well-formed packs with distinct identities, and indexes them. |
| `GstileManifest.ValidateNodes` | shared/gstile_manifest.py:190-299 | Accepts exactly well-formed nodes with distinct identities; the running counts, children and per-pack ranges are those of the node list. |
| `GstileHierarchy.ValidateHierarchy` | shared/gstile_manifest.py:302-317 | The worklist accepts exactly the graphs in which every node is reached from the root along one and only one path of child slots. |
| `GstileHierarchy.TreeIsFull` | shared/gstile_manifest.py:302-317 | A tree of binary nodes has one more leaf than internal nodes. |
| `GstileStorage.CoversPack` | shared/gstile_manifest.py:358-369 | The moving cursor over sorted ranges succeeds exactly when every payload byte lies in one and only one range. |
| `GstileStorage.StoredLengths` | shared/gstile_manifest.py:358-369 | Such ranges add up to the payload length. |
| `GstileManifest.ValidateGstileManifest` | shared/gstile_manifest.py:320-382 | Accepted exactly when sound: header, packs, nodes, tree, nested render bounds, exact storage, source population and statistics. |
| `GstileManifest.AllReferenced` | shared/gstile_manifest.py:370-371 | Exact storage already implies that exactly the declared packs are referenced. |
| `GstileManifest.AcceptedIsFull` | shared/gstile_manifest.py:320-382 | An accepted manifest has one proxy per internal node, one more leaf than that, and no other node. |
| `GstileManifest.AcceptedIsBounded` | shared/gstile_manifest.py:348-357 | The root's render bounds contain the centre bounds of every node. |
| `GstileManifest.RecordsConserved` | shared/gstile_manifest.py:358-382 | The packs hold exactly the source records plus the proxy records. |
| `GstileManifest.LeavesDescribeSource` | shared/gstile_manifest.py:183-187 | The leaves' Gaussian counts add up to the records in leaf tiles. |
| `GstileStreams.PackUnpack` | shared/gstile_streams.py:39-39 | Little-endian fields read back what was written. |
| `GstileStreams.HeaderExact` | shared/gstile_streams.py:46-58 | The unpacked fields agree with the expected ones exactly when the header bytes do. |
| `GstileStreams.CopyColumn` | shared/gstile_streams.py:37-38 | A strided slice assignment copies one column of every record and changes no other byte. |
| `GstileStreams.SplitQ96` | shared/gstile_streams.py:19-41 | Accepts exactly the canonical packs; both streams validate and hold, record by record, their columns. |
| `GstileStreams.ValidateStream` | shared/gstile_streams.py:43-58 | Accepts exactly the streams with the right length, header and checksum, and returns their body. |
| `GstileStreams.JoinQ96Payload` | shared/gstile_streams.py:61-70 | Succeeds exactly on validated streams; the payload holds both, and without harmonics bytes 28 to 87 of every record are zero. |
| `GstileStreams.JoinInvertsSplit` | shared/gstile_streams.py:19-70 | Joining the streams of an accepted pack gives back its payload byte for byte. |
| `GstileStreams.SplitInvertsJoin` | shared/gstile_streams.py:19-70 | Splitting a pack joined from validated streams returns the same streams. |
| `GstileStreams.ReadVirtualPack` | shared/gstile_streams.py:104-151 | A stream-only pack reads back as the very content it was written for, and as nothing else. |
| `StageRuns.BuildStageRunSpecs` | shared/phase_dag.py:67-124 | Accepts exactly duplicate-free selections whose dependencies are selected or given; one run per selected stage in published order, blocked exactly when it waits for a selected stage. |
| `StageRuns.MissionRecord.LoadStageExecutionContext` | shared/stage_execution.py:232-356 | Claims exactly a queued or running run of the expected stage whose Job is reserved, of a live mission, all of whose inputs exist, and hands out those inputs. |
| `StageRuns.MissionRecord.Heartbeat` | shared/stage_execution.py:383-399 | False exactly when the mission is stopped or the run cancelled, and the run is then cancelled. |
| `StageRuns.MissionRecord.PublishResult` | shared/stage_execution.py:459-546 | Publishes exactly for a running run of a live mission with the stage's artifact kind and no conflicting artifact; adds the artifact, marks success and releases dependants. |
| `StageRuns.MissionRecord.ReleaseReady` | shared/stage_artifacts.py:23-70 | Queues exactly the blocked runs whose dependencies all have an artifact, with the latest one per dependency, in order. |
| `StageRuns.MissionRecord.MarkTerminal` | shared/stage_execution.py:549-583 | Writes the status whatever it was, a failure of a stopped mission or a cancelled run as a cancellation. |
| `StageRuns.MissionRecord.RecordDispatchError` | app4-dashboard/api/stage_orchestrator.py:1009-1027 | After the last try the run fails whatever its status; before that its reservation is given back. |
| `StageRuns.MissionRecord.RecordCleanup` | app4-dashboard/api/stage_orchestrator.py:1255-1284 | Notes a confirmed cleanup, and cancels the run when it was pending or its mission is cancelled; a run without a Job, or with a confirmed one, or of a live mission and still pending, is left alone. |
| `StageRuns.LatestByStage` | shared/stage_artifacts.py:28-44 | The first artifact seen per stage, newest first, is the latest. |
| `StageRuns.StepKeeps` | shared/stage_execution.py:232-583 | Every transaction of any executor, heartbeat or orchestrator keeps lineage, named inputs, executor inputs, evidence of success and the notes on Jobs. |
| `StageRuns.RunsStayConsistent` | shared/stage_execution.py:232-583 | In every reachable state: each run that left blocked names one existing artifact per dependency in order, parents are older artifacts, every success left its artifact linked to exactly its inputs, and only a run that is over has its Job confirmed to be gone. |
| `StageRuns.PublishDrains` | shared/stage_artifacts.py:45-70 | After a publication no blocked run has all its inputs. |
| `StageRuns.LineageAcyclic` | shared/stage_execution.py:493-517 | Following parents always leads to strictly older artifacts. |
| `StageRuns.NothingFailedAllSucceeded` | shared/stage_execution.py:232-583 | When nothing is left to run and nothing failed or was cancelled, every selected stage succeeded. |
| `StageRuns.QueuedIsClaimable` | shared/stage_execution.py:285-303 | A queued run of a live mission can be claimed once the artifacts given from outside exist and its Job is reserved, which takes one step while it has a try left. |
| `StageSuccess.SuccessSafeExactly` | shared/stage_execution.py:383-583 | A success survives every next step if and only if no executor is at work on the run, no heartbeat of it meets a stopped mission, no last dispatch can fail, and no cleanup meets a cancelled mission. |
| `StageSuccess.SuccessFinalExactly` | app4-dashboard/api/stage_orchestrator.py:1009-1284 | A success survives every later sequence of steps if and only if no executor and no heartbeat of the run is left, no last try to create its Job may still fail, and its Job, if reserved, is confirmed to be gone. |
| `StageSuccess.ConfirmedSuccessFinal` | app4-dashboard/api/stage_orchestrator.py:1153-1284 | From the start of a mission, and when confirmations come after the last executor and heartbeat of the run, a confirmed success whose Job is not being created is final, however many executors there were and whatever replies they lost. |
| `StageSuccess.SuccessFinal` | shared/stage_execution.py:549-682 | When every claim found the run unattended and every publication got its reply, a success is final if and only if its heartbeats have stopped, no last dispatch can fail and its Job is confirmed to be gone. |
| `StageOverwrites.TwoExecutorsOverwrite` | shared/stage_execution.py:549-583 | A concrete run of two executors in which the slower one turns a success into a failure. |
| `StageOverwrites.LostReplyOverwrites` | shared/stage_execution.py:647-682 | A concrete run of a lone executor that loses the reply to its commit and overwrites its own success with a failure. |
| `StageOverwrites.LateHeartbeatOverwrites` | shared/stage_execution.py:383-448 | A concrete run in which a heartbeat that outlasts an acknowledged publication cancels the success. |
| `StageOverwrites.CleanupOverwrites` | app4-dashboard/api/stage_orchestrator.py:1278-1283 | A concrete run of one executor in which the cleanup of its Job, after the mission is cancelled, cancels the success. |
| `StageOverwrites.LateDispatchOverwrites` | app4-dashboard/api/stage_orchestrator.py:1009-1027 | A concrete run in which the failed reply to the creation of the Job turns the success of its executor into a failure. |
| `ImmutableStorage.PartsWithinLimit` | shared/storage_immutable.py:76-84 | For every size the parts stay within the store's limit, are no smaller than the minimum part size, and concatenate to the file. |
| `ImmutableStorage.ReadParts` | shared/storage_immutable.py:155-177 | The upload loop reads exactly those parts. |
| `ImmutableStorage.CopyRanges` | shared/storage_immutable.py:415-436 | The copy ranges hold every source byte exactly once and stay within the limit. |
| `ImmutableStorage.StepKeepsObjects` | shared/storage_immutable.py:135-303 | No request of any publisher changes an object that exists. |
| `ImmutableStorage.ObjectsImmutable` | shared/storage_immutable.py:135-303 | Over every interleaving an object never changes once created. |
| `ImmutableStorage.PublicationConsistent` | shared/storage_immutable.py:135-303 | Over every interleaving objects lie under their own digest, creations are unique and uploads accounted for. |
| `ImmutableStorage.ReturnedBytesStored` | shared/storage_immutable.py:198-303 | A publisher that returned finds its own bytes under its key, and at most one per key reports that it created them. |
| `ImmutableStorage.UploadsSettled` | shared/storage_immutable.py:146-195 | Every upload a publisher knew of is completed or had an abort attempted, unless the publisher died or still works on it; its parts stay within the limit. |
| `ImmutableStorage.RefusalMeansReuse` | shared/storage_immutable.py:243-281 | A refusal because the key exists ends in reuse, never in a conflict. |

## Left out

- ArtifactOverlay.Download: path and key syntax, JSON text and byte-exact canonical encoding are not modelled; a manifest is its parsed value.
- WorkspaceTransfer.PublishWorkspace: publication of selected products (included paths), byte counters, timings and cancellation are not modelled.
- WorkspaceRestore.Destination.RestoreWorkspace: a symbolic link stands for the regular file it leads to, links to directories are not modelled; temporary files are left out, and the verification cache on disk is a map of fingerprints that is assumed honest.
- WorkspaceRestore.PublishThenRestore: assumes that the parents' blobs are intact and that paths declared unchanged are.
- CasCollection.PlanCasCollection: deletion itself is a map without the planned keys; listing the store is a parameter.
- StageScheduler.SelectStageCandidates: creation times are integers; configuration errors of limits and allocations are types.
- Outbox.OutboxTable.Claim: row locks of other transactions are a set parameter; the sleep between batches is not modelled.
- Inbox.ProcessMessage: the delay between attempts and the dead-letter payload are not modelled.
- RateLimiting.TraceBound: clocks are monotone for the key and times are reals; a key that is evicted may exceed the bound, as EvictionResets shows.
- RateLimitRows.DatabaseTokenBuckets.ConsumeOnce: the retry after a primary-key race is the same transaction again.
- RateLimitRows.OrganizationQuota.ConsumeRequestQuota: the throttling usage event is not recorded.
- DetectionGeometry.GridMatchesScan: assumes that point-in-polygon hits lie in the kept box and centroids in their own box, which self-intersecting contours need not satisfy; float32 conversion, confidences that are not numbers and private keys already present in the input are not modelled.
- DetectionResults.ShardedEqualsMonolithic: inference is a function of the tile, manifest validation a function that is stable on its own results; no detection limit is tripped; mask polygons are not modelled.
- DetectionSharding.DescribeThenParse: the shard count is an exact ceiling, and the rounded amplification ratio and the plan checksum are parameters.
- GstileManifest.ValidateGstileManifest: JSON typing, path and digest syntax, alternative encodings, stream metadata and non-finite numbers are not modelled; canonical bytes are not either.
- GstileStreams.ReadVirtualPack: the files of the two streams are given as bytes whose own size and digest were checked.
- ImmutableStorage.ReturnedBytesStored: bodies are compared by digest through an injective function, and nothing deletes objects; settings are at least one.
- ImmutableStorage.UploadsSettled: an upload whose creation reply was lost is unknown to its publisher and stays open at the store.
- StageSuccess.SuccessFinalExactly: status events of the legacy pipeline, which project any status onto a run, publication by an administrator and the removal of a mission's rows are not steps; the number of tries does not change.
- StageRuns.RunsStayConsistent: analysis runs, tenancy and binding checks, local workspace reuse, retries with a new attempt number, storage reservations, progress reports and retention are not modelled; identities made elsewhere do not collide with produced ones.
- Publication of verified control bytes and adoption copies outside the copy ranges follow the same put-if-absent pattern and are not modelled again.
- The check of a parent graph over a map of manifests, idempotency keys, resource classes, configuration, metrics, identity tokens and the legacy status projection are not modelled.
- Photogrammetry, inference, rasters, geospatial formats, subprocess runners and viewers are not modelled.
