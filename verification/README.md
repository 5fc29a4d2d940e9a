# Verified model of the map server's protocols and arithmetic

A Dafny model of the parts of the AOWIS map server that are protocols, state machines or exact
arithmetic, with proofs of what they guarantee. `dafny verify dfyconfig.toml` checks everything.

Each part has a specification on values (functions and state machines), the theorems about it, and,
where the source updates objects or arrays step by step, classes and methods proved against the
specification.

- **Resumable source download.** `Bytes`, `DownloadValidation`, `ResumeState` model the parsers and the
  metadata file; `SourceDownload` lists every disk an attempt passes through, so that a crash may keep
  any of them; `SourceSafety`, `SourceHazard`, `SourceResumption` and `SourceEndings` hold the theorems,
  `SourceCell` the object.
- **Terrain single-flight server.** `TerrainFlights` is the state machine, `TerrainFlightSafety` its
  invariant, `TerrainGuarantees`, `TerrainSubmission` and `TerrainAnswers` what follows from it,
  `TerrainServer` the object; `Admission` models the lock-free counters under arbitrary interleavings.
- **Raster tiles.** `TileScheduler`, `TileSchedulerRuns`, `TileQueueAdmission`, `TileQueue` and
  `TileQueueDrain` model the download queue; `TileCache` and its companions the cache with reads, writes and
  deletion, `TileServing` what it answers; `TileStore` is the object; `RasterPromises` adds the promises of
  the server that wait for the cache.
- **Area averages and source cells.** `RasterWindow`, `AreaOverlap`, `AreaAccumulate`, `AreaAverage`,
  `AreaGrid`, `AreaCells` and `AreaTheorems` take the accumulation from single pixels to the whole
  Earth, and `WideColumns` shows where its candidate cells stop short; `SourceCells`, `PointSample`,
  `TileSamples`, `GridPrefetch`, `TilePrefetch`, `ListedCells` and `TileFetch` cover which cells a request
  reads and how it ends; `PixelSampling`, `AreaMeans` and `SamplePlaces` what its elevations are, in terms of
  pixels and places; `SharedEdges`, `EastEdges`, `Antimeridian` and `LatitudeBands` the edges between tiles;
  `SourceDeletion` and `SourceRangeDeletion` which cells a deletion takes.
- **Terrain tile files.** `Crc32`, `Crc32Check`, `TerrainTileCodec`, `TerrainTileFile`, `TileLayout` and
  `TerrainTileRoundTrip` model the format byte by byte; `NormalizedStore`, `ElevationSampling`,
  `TileInterpolation` and `TileSeams` the store and the point elevations served from it.
- **Decoded-block cache.** `BlockCache` and `DecodedBlocks`.

## Where the code does not keep a promise

The model follows the code. Except for the last entry, which is about a comment, each of these has a
lemma with a failing input and a lemma that says exactly when the promise is kept.

- A deleted raster tile can come back (`TileSingleWrites.StaleMarkerRevivesTile`), although
  docs/architecture.md:38 says deletion avoids that: the write callback at src/lib/maptiles.cpp:750 clears
  the marker of a later download of the same tile. `TileResurrection.DeletionIsFinalIff` and
  `TileSingleWrites.SingleWriteDeletionIff` give the exact condition.
- An interrupted download can pair new bytes with an old record
  (`SourceResumption.StaleMetadataCorrupts`): the result of removing the metadata file is ignored
  before the rename. `SourceHazard.AttemptSafeIff` and `SourceHazard.RunSafeIff` give the exact condition.
- The area average can leave out a source cell (`WideColumns.WideColumnIsMissed`). The candidate cells at
  src/lib/copernicus_terrain_provider.cpp:1321 allow for half a column of 6 arc seconds, as the comment at
  lines 57-59 has it; GLO-30 columns are up to 10 arc seconds wide near the poles, as the comment at lines
  52-53 has it and the prefetch margins allow. `WideColumns.CandidatesSufficeIff` and
  `WideColumns.WidthIsEnoughIff` give the exact condition. For the same reason a tile and its east
  neighbour can disagree (`EastEdges.GapNeighboursDisagree`), exactly when `EastEdges.EastEdgeAgreesIff`
  says so, which is at zoom 12 only. With 600 columns or more neither can happen
  (`AreaTheorems.NoOtherCellContributes`, `EastEdges.EastNeighbourAgrees`). The sources of the failing
  examples have 360 columns in cells of any latitude: the code accepts them, but GLO-30 has so few columns
  above 85 degrees only. `LatitudeBands` puts this distinction into the source: below 85 degrees no cell is
  left out and all east neighbours agree, in the polar caps they disagree exactly at the gaps.
- Tiles on the two sides of the antimeridian need not agree on their shared samples
  (`Antimeridian.SteppedDisagrees`), although src/lib/copernicus_terrain_provider.cpp:1895 says that tiles
  sharing an edge sample agree: a point sample at longitude 180 reads another cell than one at -180.
  `Antimeridian.AntimeridianAgreesIff` gives the exact condition for every least number of columns a cell,
  `Antimeridian.AntimeridianByZoom` in terms of zoom and columns.
- Elevations within a range of 32767 times the least 32-bit float come back as the minimum
  (`TerrainTileRoundTrip.FaintSpikeIsFlattened`), exactly when `TerrainTileRoundTrip.StepVanishesIff`
  and `TerrainTileRoundTrip.HalfStepIff` say so; and for some ranges whose step is below the normal floats
  writing what was read changes the file (`TerrainTileRoundTrip.HalfwayStepChangesFile`), exactly when
  `TerrainTileRoundTrip.WriteOfReadIsIdenticalIff` says so. Ranges of real terrain are far above both.
- A geographic box beyond a pole selects a polar band of source cells it shares no area with.
  `SourceDeletion.SelectionIsExactIff` gives the exact condition; boxes of map tiles always meet it
  (`SourceRangeDeletion.RangeTakesCellsUnderItsTiles`).
- A latitude just above the south pole is taken to a cell below it. `SourceCells.OnGlobeIff` and
  `SourceCells.SouthIsMonotoneIff` give the exact condition; no latitude of a map tile is concerned.
- The comment at src/server/server.h:128-130 says that empty single-flight entries are retained; the code
  at src/server/server.cpp:379-427 removes them at once, and so does the model.

## Assumptions

- Upstream is honest in the sense of RFC 9110: a strong ETag names one byte string (section 8.8.1), a 206
  response carries bytes of the range its Content-Range announces, from its start (sections 14.4 and
  15.3.7), and a 200 response carries bytes of one entity, from its start, whose length is the
  Content-Length if one is sent (section 8.6). Either may stop short of that without a network error. Only a
  200 response without a Content-Length that ends without a network error is taken to be whole: the code
  cannot tell. Which entity is current may change between any two responses.
- File operations succeed completely or change nothing; QSaveFile commits, renames and removals are
  atomic; what was written is in the file after it is closed. A lock file excludes other holders.
- Elevations, coordinates and weights are exact reals. The Mercator latitude is an uninterpreted
  strictly decreasing function of the place on the map that stays within 88 degrees. 32-bit floats enter
  only through the three numbers stored in a tile header and the samples of a tile, as a rounding function
  of which the used laws are stated (`TerrainTileCodec.Ieee`, `TerrainTileCodec.RoundsNearest`).
- Where stated, source rasters have the GLO-30 shape: 3600 rows and at most 3600 columns, and at least as many
  as the statement says: 360, which GLO-30 has above 85 degrees, or 600, the fewest that the constant at
  src/lib/copernicus_terrain_provider.cpp:60 allows for, which GLO-30 exceeds below 85 degrees.
- A source cell is missing, broken (it cannot be fetched, opened or trusted, which fails a request that needs
  it) or a raster, and stays so during one request.
- The decoded samples of a TIFF block are an uninterpreted function of its index.

## Model

| member | source | states |
|---|---|---|
| SourceHazard.RunSafeIff | src/lib/copernicus_terrain_provider.cpp:254-698 | over every run of attempts, interruptions, cancellations, entity changes, failing file operations, crashes between any two of them and source deletions: every disk is safe (the final file is absent or one whole upstream entity, and a partial/metadata pair that loads is a proper prefix of the entity its ETag names) if and only if no attempt pairs its bytes with a foreign record |
| SourceHazard.RunSafe | src/lib/copernicus_terrain_provider.cpp:254-698 | in particular every run is safe in which metadata files can be removed |
| SourceHazard.AttemptSafeIff | src/lib/copernicus_terrain_provider.cpp:380-698 | from a safe disk, every disk an attempt can leave behind is safe if and only if not all of these hold: the response comes in and is cut off and worth keeping, every removal of the metadata file fails, the partial file is replaced, and the old metadata is a valid record of as many bytes as were received, which are no prefix of the entity it names (the return value of the removal is not looked at, lines 553-557 and 597-598) |
| SourceHazard.RemovableMetadataIsSafe | src/lib/copernicus_terrain_provider.cpp:553-600 | if the removal right before the rename succeeds, the attempt pairs its bytes with nothing |
| SourceResumption.StaleMetadataCorrupts | src/lib/copernicus_terrain_provider.cpp:590-634 | the concrete failing run: three honest responses, one failed metadata removal and one crash publish a mixture of two entities |
| SourceSafety.ReadyMeansPublished | src/lib/copernicus_terrain_provider.cpp:636-697 | an attempt that reports success, from a safe disk, leaves a whole entity at the final path, whatever operations failed on the way |
| SourceSafety.PublishedContentIsAnEntity | src/lib/copernicus_terrain_provider.cpp:636-697 | what passes the tests of the code on status, declared length and announced range is one whole entity: prefix plus suffix, or a full response; that the bytes received are as many as declared is taken from those tests, not from the upstream |
| SourceResumption.ResumptionCompletes | src/lib/copernicus_terrain_provider.cpp:421-697 | an undisturbed range answer of full length publishes exactly the entity that the retained bytes were a prefix of, and removes the other three files |
| SourceResumption.ShortResponseIsRefused | src/lib/copernicus_terrain_provider.cpp:640-667 | a response that ends without a network error but short of the length it declared, or of the rest that was asked for, is refused and publishes nothing; a retained pair survives a short full response only |
| SourceResumption.ResumptionKeepsProgress | src/lib/copernicus_terrain_provider.cpp:590-634 | a range answer cut short extends the retained prefix by exactly the received bytes and the record by their number |
| SourceResumption.InterruptionKeepsPrefix | src/lib/copernicus_terrain_provider.cpp:590-634 | a full answer cut short leaves its bytes and a record that loads |
| SourceEndings.ReadyIff | src/lib/copernicus_terrain_provider.cpp:371-698 | with no file operation failing, an attempt succeeds if and only if the source is already there, or nothing cancelled it and the answer is a whole 200 response of the length it declares (a negative length counts as none), or a 206 response that is exactly the rest of the retained prefix |
| SourceEndings.CompleteResponseIsPublished | src/lib/copernicus_terrain_provider.cpp:658-697 | such a 200 response is published: the source is then its bytes, and no other file is left |
| SourceEndings.CompleteRangeIsPublished | src/lib/copernicus_terrain_provider.cpp:647-697 | such a 206 response is published: the source is then the prefix followed by its bytes, and no other file is left |
| SourceEndings.FinalIsKept | src/lib/copernicus_terrain_provider.cpp:371-378 | a source that is already there is kept, and nothing is requested |
| SourceEndings.MissingSourceIsUnavailable | src/lib/copernicus_terrain_provider.cpp:576-585 | 404 reports the source as unavailable and leaves nothing |
| SourceEndings.OtherStatusIsAnError | src/lib/copernicus_terrain_provider.cpp:636-645 | any other status is an error that leaves what was retained, except that 416 drops it |
| SourceEndings.UnfitAnswerIsAnError | src/lib/copernicus_terrain_provider.cpp:647-670 | a 200 or 206 answer that is neither is an error; a 206 one drops what was retained, a 200 one keeps it |
| SourceEndings.TooLargeIsRefused | src/lib/copernicus_terrain_provider.cpp:565-575 | a response beyond the size limit is refused and leaves what was retained |
| SourceEndings.CancelledBeforeRequest | src/lib/copernicus_terrain_provider.cpp:403-421 | a cancellation before the request leaves what was retained, and by generation the empty staged file |
| SourceEndings.CancelledAfterResponse | src/lib/copernicus_terrain_provider.cpp:558-564 | a cancellation after the response drops what was received |
| SourceEndings.CancelledBeforePublishing | src/lib/copernicus_terrain_provider.cpp:672-678 | a cancellation right before publication publishes nothing, however complete the answer |
| SourceEndings.NothingWorthKeeping | src/lib/copernicus_terrain_provider.cpp:590-634 | a broken-off response of which nothing can be kept leaves what was retained |
| SourceCell.SourceFiles.DownloadSourceTile | src/lib/copernicus_terrain_provider.cpp:254-698 | the loop and file operations leave exactly the sequence of disks, and the status, that the specification lists; SourceEndings and the theorems above say what these are |
| SourceCell.SourceFiles.AppendPartialSuffix | src/lib/copernicus_resume_state.h:96-149 | the chunked copy commits prefix and suffix in one step, or changes nothing |
| SourceCell.SourceFiles.Publish | src/lib/copernicus_source_publish.h:11-38 | the published file is the concatenation of the prefix and the incoming bytes, committed in one step |
| ResumeState.LoadOfSaved | src/lib/copernicus_resume_state.h:44-91 | loading what was saved returns the saved state, for every valid state and a partial file of the recorded size |
| DownloadValidation.ParsePositiveDecimal | src/lib/copernicus_download_validation.h:29-44 | accepts exactly the digit strings whose value is at most 2^63 - 1, and returns that value; the overflow test never errs |
| DownloadValidation.ContentRangeExact | src/lib/copernicus_download_validation.h:46-67 | accepts exactly `bytes F-L/T` with F <= L < T in range, and returns these numbers |
| DownloadValidation.AppendCompletesTheEntity | src/lib/copernicus_download_validation.h:76-99 | a response is appended if and only if it is a 206 of the stored strong entity whose bytes run from the stored offset to the end of the entity, within the limit |
| TerrainFlightSafety.StepKeeps | src/server/server.cpp:357-1003 | every step of submission, the two worker stages, callbacks, disconnects and shutdown keeps the whole invariant |
| TerrainGuarantees.AnsweredAtMostOnce | src/server/server.cpp:379-427 | in every reachable state a promise was answered at most once, and an unanswered one waits in exactly one registry list |
| TerrainGuarantees.OneLiveJobPerKey | src/server/server.cpp:535-672 | a registered key has exactly one job or queued callback with an unset token, and it is the registered token |
| TerrainGuarantees.StaleCallbackAltersNothing | src/server/server.cpp:592-672 | once a token is cancelled, its callback, whenever it runs, only frees the grid bytes it reserved, even beside a replacement flight of the same key |
| TerrainGuarantees.DisconnectCancelsExactlyTheOrphans | src/server/server.cpp:379-427 | a disconnect unregisters and cancels exactly the flights all of whose waiters it owned |
| TerrainGuarantees.AdmissionsAreConserved | src/server/server.cpp:507-1003 | waiter count, job admission, remote admission and grid bytes equal the sums over registry lists and jobs, stale flights and rejected requests included, and stay within their limits |
| TerrainGuarantees.IdleMeansEverythingReturned | src/server/server.cpp:507-1003 | with no job left, nobody waits, every promise has its one result and every admission is back |
| TerrainGuarantees.JobsAreNeverStuck | src/server/server.cpp:592-672 | while a job is left on a running server, some job can take its next step |
| TerrainGuarantees.JobsRunOut | src/server/server.cpp:592-672 | each step of a job uses up part of a finite supply, so flights end |
| TerrainGuarantees.ShutdownAnswersEveryone | src/server/server.cpp:429-505 | after the destructor no job runs or can be enqueued, job and remote admissions and the waiter count are zero, the grid bytes still reserved are those of callbacks that will not be delivered, and every promise ever made has exactly one result |
| TerrainGuarantees.DrainingCpuFirstWouldLeaveAJob | src/server/server.cpp:429-505 | with the two drains swapped, a job would be handed to the CPU pool already waited for |
| TerrainSubmission.InFlightIsJoined | src/server/server.cpp:546-584 | on a running server where fewer promises wait than may, a request for a key in flight becomes the last waiter of its list; jobs, tokens and admissions stay as they are, however exhausted they are |
| TerrainSubmission.NewKeyStartsAJob | src/server/server.cpp:549-634 | a request for a new key whose bytes, remote slot and job slot are free beside what the jobs hold becomes the waiter of one new job with an unused token |
| TerrainSubmission.RefusedIff | src/server/server.cpp:549-575 | a request changes nothing if and only if the server is not running, or as many promises wait as may, or its key is new and not all of that is free |
| TerrainSubmission.PlainJobIsTakenIff | src/server/server.cpp:507-533 | a job outside the registries is taken if and only if the server runs and a job slot is free |
| TerrainAnswers.CallbackAnswersItsFlight | src/server/server.cpp:606-623 | the callback of a flight that nobody cancelled answers each waiter of its key once and nobody else, ends the flight and gives its bytes back |
| TerrainAnswers.DisconnectAnswersItsOwn | src/server/server.cpp:379-427 | a disconnect answers exactly the waiters of the connection, takes them out of their lists, and leaves all others waiting and all jobs running |
| TerrainServer.Server.SubmitTerrain | src/server/server.cpp:535-575 | the registration code of the three routes makes exactly the submission step; it gives a promise if and only if the server runs, fewer promises wait than may, and the key is in flight or the bytes, the remote slot and the job slot it needs are free; a refusal undoes every admission it took |
| TerrainServer.Server.AdmitGrid | src/server/server.cpp:826-864 | bytes, remote slot and job slot are taken together or not at all |
| TerrainServer.Server.AdmitTileOrElevation | src/server/server.cpp:549-575 | remote slot and job slot are taken together or not at all |
| TerrainServer.Server.AbandonTerrainWaiters | src/server/server.cpp:379-427 | the loops over lists and registries make exactly the disconnect step |
| TerrainServer.Server.DeliverCallback | src/server/server.cpp:606-623 | a queued callback answers the waiters of the flight whose token it carries, and nobody otherwise |
| TerrainServer.Server.ReleaseRemoteSlot | src/server/server.cpp:642-642 | from any state with the invariant: one job fewer holds a remote slot, as many hold a job slot, both counters are still the numbers of these jobs, the same promises wait, and the invariant is kept |
| TerrainServer.Server.HandOffOrGiveUp | src/server/server.cpp:643-649 | the job goes on to the CPU stage with its slot exactly if its sources are there and its flight is still registered; otherwise one job fewer holds a job slot; the counters stay the numbers of these jobs and the invariant is kept |
| TerrainServer.Server.ReleaseJobSlot | src/server/server.cpp:605-605 | one job fewer holds a job slot before the callback is posted, the counters stay exact, the same promises still wait, and the invariant is kept |
| TerrainServer.Server.CloseRegistries | src/server/server.cpp:429-505 | the end of the destructor answers every waiter still registered, once |
| Admission.CounterIsWhatIsHeld | src/server/terrain_byte_admission.h:15-34 | over every interleaving of loads, compare-and-swaps (failing spuriously or not) and releases, the counter equals what is held, stays within its limit and never wraps |
| Admission.LoopsAreIndivisible | src/server/terrain_byte_admission.h:15-34 | the retry loops refine indivisible requests: every caller gets what a request decided in one step, at a moment during its call, would have given |
| Admission.JobsAreCounted | src/server/terrain_admission.h:12-29 | with requests of one, the counter is the number of admitted jobs |
| Admission.AloneIsExact | src/server/terrain_byte_admission.h:15-29 | a call that runs alone is granted exactly when its amount fits |
| TileSchedulerRuns.LimitsHold | src/lib/maptiles.cpp:598-667 | over every run: active, per-origin and queue limits hold, per-origin counts are exact, the queued keys are the keys of the queue, apart from the active ones, and no queued download is startable |
| TileSchedulerRuns.FirstInFirstOut | src/lib/maptiles.cpp:797-827 | two downloads of one origin start in the order they were asked for |
| TileSchedulerRuns.NothingIsLost | src/lib/maptiles.cpp:598-827 | every accepted download was started once, waits, or was cancelled, and only one of these |
| TileSchedulerRuns.WaitingImpliesActivity | src/lib/maptiles.cpp:797-827 | while a download waits, an active one will look at the queue again |
| TileQueueAdmission.RefusedIff | src/lib/maptiles.cpp:598-638 | in every run a request is refused if and only if its tile is neither active nor queued, the active set is at its limit or six active downloads have its origin, and the queue is at its limit |
| TileQueueAdmission.Starts | src/lib/maptiles.cpp:617-621 | a request for a tile that is neither, with a free slot for its origin, is active at once |
| TileQueueAdmission.Waits | src/lib/maptiles.cpp:622-629 | one that cannot start while the queue has room is the last of the queue |
| TileQueueAdmission.Joins | src/lib/maptiles.cpp:603-615 | one for a tile that is active or queued adds its response key to that download, once, and changes nothing else |
| TileQueueDrain.EndMovesUp | src/lib/maptiles.cpp:657-827 | the end of a suitable active download starts the queued download at a given place or moves it up |
| TileQueue.DownloadQueue.StartQueuedDownloads | src/lib/maptiles.cpp:797-827 | the restart loop starts exactly the downloads the specification picks, in that order |
| TileQueue.DownloadQueue.ScheduleMapTileDownload | src/lib/maptiles.cpp:598-638 | joins, starts, queues or refuses as specified, and refuses exactly when the tile is neither active nor queued, cannot start, and the queue is at its limit |
| TileQueue.DownloadQueue.TakeResponseKeys | src/lib/maptiles.cpp:669-681 | the own key and the joined keys, each once; the joined list is taken away |
| TileQueue.DownloadQueue.CancelQueuedDownloads | src/lib/maptiles.cpp:569-586 | empties the queue and yields every response key of every queued download |
| TileCacheInvariants.CountersAreExact | src/lib/maptiles.cpp:298-413 | in every reachable state the read and write counts and bytes are exact and within their limits |
| TileWaiters.NoWaiterIsOrphaned | src/lib/maptiles.cpp:343-402 | in every reachable state each response key that is still to be announced is listed by an outstanding read, an active or queued download, or a pending write |
| TileServing.TilesComeFromTheirDownloads | src/lib/maptiles.cpp:204-795 | in every run that starts with nothing stored, a tile that either route answers with is what a download of that very key brought that ended in the run |
| TileServing.FromMemory | src/lib/maptiles.cpp:224-267 | a tile in RAM is the answer on both routes, and nothing changes |
| TileServing.FromDisk | src/lib/maptiles.cpp:269-279 | on the direct route a tile on disk is the answer and is kept in RAM |
| TileServing.ColdReadIff | src/lib/maptiles.cpp:331-365 | over HTTP a request for a tile on disk joins the read of this generation, starts one if fewer than 64 reads and at most 64 MiB with it are under way, and is refused otherwise |
| TileServing.MissIff | src/lib/maptiles.cpp:281-296 | a missing tile is invalid when it may not be fetched, busy when the queue must refuse it, and otherwise a download of it is under way |
| TileServing.DownloadIsKept | src/lib/maptiles.cpp:717-764 | a finished download that no deletion marked, within 64 writes and 64 MiB, is in RAM at once and has one write that carries all its response keys |
| TileServing.DownloadIsDropped | src/lib/maptiles.cpp:711-725 | any other answers its requesters and leaves nothing |
| TileServing.WriteReachesDisk | src/lib/maptiles.cpp:739-764 | a write that is not told to stop puts its tile on disk and then answers |
| TileServing.ReadIsServed | src/lib/maptiles.cpp:367-381 | a read of this generation that found its file puts the tile in RAM and answers all its requests |
| RasterPromises.RasterPromisesAreKept | src/server/server.cpp:1546-1584 | over every run of requests, cache steps and the end of the server: each promise ever made was finished at most once; one that was not waits in exactly one list, and while the server lives a read, a download or a write will announce its key |
| RasterPromises.RestAnswersEveryone | src/server/server.cpp:1627-1678 | once the cache is at rest, or the server has ended, every promise ever made has exactly one result |
| RasterPromises.PendingRequestsAreCounted | src/server/server.cpp:1627-1645 | the count of pending requests is the number of waiting promises, and within its limit |
| RasterPromises.PendingPromises.AppendPendingPromise | src/server/server.cpp:1571-1583 | a promise waits if the server lives and the limit is not reached, and is finished on the spot if not |
| RasterPromises.PendingPromises.KeyAnnounced | src/server/server.cpp:1639-1678 | the list of the key is taken, the count goes down by its length, and each of its promises is finished once |
| RasterPromises.PendingPromises.End | src/server/server.cpp:429-440 | every waiting promise is finished once, and none waits afterwards |
| RasterPromises.AnswersAdd | src/server/server.cpp:1639-1645 | announcing keys one after another finishes the same promises as announcing them all |
| TileProgress.WaitersAreServed | src/lib/maptiles.cpp:569-795 | while somebody waits, some worker or callback can take a step |
| TileProgress.ProgressEnds | src/lib/maptiles.cpp:569-795 | and such steps cannot go on for ever without new requests |
| TileResurrection.DeletionIsFinalIff | src/lib/maptiles.cpp:415-558 | in every reachable state, a deletion is final (no later run shows, in RAM or on disk, a tile of the range fetched before it) if and only if at its sweep no tile of the range has an unfinished write that is not stopped, or an unfinished write beside an active or queued download |
| TileSingleWrites.SingleWriteDeletionIff | src/lib/maptiles.cpp:415-558 | in runs with at most one unfinished write a key, it is final if and only if no tile of the range has both an unfinished write and a download |
| TileSingleWrites.StaleMarkerRevivesTile | src/lib/maptiles.cpp:739-756 | the failing family: for every deletable range and every tile in it, a run with single writes after which the tile comes back, because the write callback clears the marker of a later download (line 750) |
| TileDeletion.CleanRunsStayClean | src/lib/maptiles.cpp:683-795 | after a clean deletion no step of any run brings an old tile of the range back |
| TileRange.InsideIffSomeShift | src/lib/maptiles.cpp:42-57 | a column is accepted if and only if some shift of it by whole turns of the map lies in the range |
| TileRange.PositiveModulo | src/lib/terrain_data.cpp:158-162 | the representative in [0, divisor), for negative values too |
| TileStore.MapTiles.GetTileNow | src/lib/maptiles.cpp:204-296 | serves from RAM, then disk, then schedules, changing exactly what the state machine says |
| TileStore.MapTiles.GetTileForHttpNow | src/lib/maptiles.cpp:298-372 | joins or starts a bounded cold read, or falls back to the ordinary path |
| TileStore.MapTiles.ReadFinished | src/lib/maptiles.cpp:363-402 | the end of a cold read: fan-out, cancellation by generation, or the ordinary path for each request |
| TileStore.MapTiles.RequestFinished | src/lib/maptiles.cpp:688-764 | the end of a successful download: answered at once, or stored and written |
| TileStore.MapTiles.RequestError | src/lib/maptiles.cpp:766-793 | the end of a failed download |
| TileStore.MapTiles.WriteFinished | src/lib/maptiles.cpp:739-756 | the write callback, registrations and markers included |
| TileStore.MapTiles.CancelUpstreamDownloads | src/lib/maptiles.cpp:569-596 | cancels the queue and answers its requesters |
| TileStore.MapTiles.DeleteTilesBegins | src/lib/maptiles.cpp:415-457 | refuses malformed ranges; disowns reads and stops exactly the registered writes of the range |
| TileStore.MapTiles.DeleteTilesEnds | src/lib/maptiles.cpp:463-558 | marks what is in progress, forgets RAM, removes files up to the first that cannot be removed; the count is exact and -2 is returned exactly when one could not be |
| TileStore.RunKeepsTracked | src/lib/maptiles.cpp:728-756 | registrations never dangle in any run |
| RasterWindow.VisitWindow | src/lib/copernicus_terrain_provider.cpp:847-902 | for any tile or strip geometry, each pixel of the window is visited exactly once with the value the point sampler reads, and nothing else; it succeeds if and only if each pixel of the window can be read |
| RasterWindow.CopyRun | src/lib/copernicus_terrain_provider.cpp:1104-1143 | a run is copied exactly when the block holds it |
| RasterWindow.RunsSumIsVisits | src/lib/copernicus_terrain_provider.cpp:847-902 | however the window is cut into runs, what a visitor adds up is the sum over its pixels |
| AreaOverlap.UpperBound | src/lib/copernicus_terrain_provider.cpp:1372-1373 | the binary-search contract the overlap lists rest on |
| AreaOverlap.OverlapsOfColumn | src/lib/copernicus_terrain_provider.cpp:1370-1383 | the list of a pixel column holds its overlap with every box and no other entry |
| AreaOverlap.OverlapsOfRow | src/lib/copernicus_terrain_provider.cpp:1391-1406 | the same for a pixel row, whose edges descend |
| AreaOverlap.ColumnsTelescope | src/lib/copernicus_terrain_provider.cpp:1365-1407 | overlaps with adjacent boxes add up to the overlap with their union |
| AreaAccumulate.GatherRun | src/lib/copernicus_terrain_provider.cpp:1415-1431 | the row buffers hold, for each box column, the sum over the run; outside the touched range they are zero |
| AreaAccumulate.DistributeRow | src/lib/copernicus_terrain_provider.cpp:1434-1446 | every box row gets its share of the touched buffers, and nothing else changes |
| AreaAverage.VisitRun | src/lib/copernicus_terrain_provider.cpp:1412-1450 | one run adds to each box exactly the terms of its pixels, and leaves the buffers clear |
| AreaCells.VisitCell | src/lib/copernicus_terrain_provider.cpp:1343-1458 | one cell adds exactly its contribution; it fails exactly when a pixel of the window is unreadable |
| AreaCells.AccumulateAreaAverages | src/lib/copernicus_terrain_provider.cpp:1301-1462 | the separable, block-by-block accumulation leaves in every box the plain sum over the candidate cells of (x overlap) (y overlap) value, and of (x overlap) (y overlap); it succeeds if and only if every candidate cell is missing or readable |
| AreaGrid.WindowIsEnough | src/lib/copernicus_terrain_provider.cpp:1353-1361 | no pixel outside the computed column and row range contributes to any box |
| AreaTheorems.NoOtherBandContributes | src/lib/copernicus_terrain_provider.cpp:1318-1319 | no band of latitude outside the candidate loop contributes |
| AreaTheorems.NoOtherCellContributes | src/lib/copernicus_terrain_provider.cpp:1318-1338 | over sources of 600 columns a cell or more no cell outside the candidate loops contributes to any box of any window |
| AreaTheorems.NoOtherCellContributesIf | src/lib/copernicus_terrain_provider.cpp:1318-1338 | over sources of any least number of columns the same for a box as far east of which the candidates go as the widest pixels can overlap it |
| WideColumns.CandidatesSufficeIff | src/lib/copernicus_terrain_provider.cpp:1318-1338 | for a window with an open first row and last column, and any least number of columns a cell: the boxes get all they should from every source of at least that many columns if and only if the candidates go as far east as the widest pixel that overlaps the window |
| WideColumns.WidthIsEnoughIff | src/lib/copernicus_terrain_provider.cpp:57-61 | over all sources of at least a given number of columns a cell, the boxes of every window get all they should if and only if that number is at least 600 |
| WideColumns.WideColumnIsMissed | src/lib/copernicus_terrain_provider.cpp:1320-1321 | a window and a cell of 360 columns that is left out although it overlaps |
| AreaTheorems.SumsAreOverEverything | src/lib/copernicus_terrain_provider.cpp:1301-1462 | over sources of 600 columns or more, for every window, the results are the sums over every source pixel of the Earth |
| AreaTheorems.SumsAreOverEverythingIf | src/lib/copernicus_terrain_provider.cpp:1301-1462 | over sources of any least number of columns the same for the windows whose candidates go far enough |
| LatitudeBands.NoOtherCellContributes | src/lib/copernicus_terrain_provider.cpp:1318-1338 | over sources with the columns of GLO-30, few of them above 85 degrees only, the candidates of every window that they place below 85 degrees suffice |
| AreaTheorems.TotalWeightIsArea | src/lib/copernicus_terrain_provider.cpp:1365-1462 | the weights of all boxes add up to the area of the valid pixel footprints inside the window |
| SourceCells.SouthIsMonotoneIff | src/lib/copernicus_terrain_provider.cpp:141-152 | cells follow latitudes in order, except from the south pole to just above it |
| SourceCells.OnGlobeIff | src/lib/copernicus_terrain_provider.cpp:141-152 | the cell of a latitude is on the globe if and only if the latitude is not within the border tolerance above the south pole |
| PointSample.SampleBilinear | src/lib/copernicus_terrain_provider.cpp:1200-1251 | the corner loop computes the blend of the corners that count, and fails the request exactly when the base cell or the corner it stops at cannot be read; which pixels these are is said by the rows below |
| PixelSampling.BilinearIsMix | src/lib/copernicus_terrain_provider.cpp:1200-1251 | at a place p of the way from column c to the next and q of the way from row r to the next, the sample is the blend of the four pixels around, each weighted with the area of the rectangle opposite to it |
| PixelSampling.BilinearInterpolates | src/lib/copernicus_terrain_provider.cpp:1200-1251 | where all four have elevations it is the bilinear interpolation of them, exactly unless a corner weighs no more than the machine epsilon, and then to within 1e-10 m |
| PixelSampling.BilinearOnRow | src/lib/copernicus_terrain_provider.cpp:1211-1249 | on a row of pixels it is the interpolation of the two beside the place, whatever lies below |
| PixelSampling.BilinearOnColumn | src/lib/copernicus_terrain_provider.cpp:1211-1249 | on a column likewise |
| PixelSampling.BilinearFailsIff | src/lib/copernicus_terrain_provider.cpp:1232-1244 | it fails if and only if the first corner that counts and has no elevation cannot be read |
| PixelSampling.EveryPlace | src/lib/copernicus_terrain_provider.cpp:1205-1222 | every coordinate read from a cell has such a place in it |
| PixelSampling.NativeIsNearest | src/lib/copernicus_terrain_provider.cpp:1258-1273 | the native sample is the pixel of the cell, its first neighbour column or row included, than which none is nearer to the coordinate |
| PixelSampling.SamplersAtPixel | src/lib/copernicus_terrain_provider.cpp:1200-1273 | at the centre of column c and row r, counted from the north-west, both samplers give that very pixel |
| PointSample.BilinearDepends | src/lib/copernicus_terrain_provider.cpp:1200-1251 | blend and failure depend on the base cell and the cells of the corners that count, and no other |
| GridPrefetch.AnalysisGridSources | src/lib/copernicus_terrain_provider.cpp:203-232 | lists for every grid cell its source cell and the neighbours rounding can reach; gives up exactly above sixteen; acquisition and the local-availability test (lines 2162-2179) use this list |
| ListedCells.GridListIff | src/lib/copernicus_terrain_provider.cpp:203-232 | a cell is listed for a grid if and only if the centre of some grid cell lies in it or within these margins east or south of it |
| GridPrefetch.NativeIsListed | src/lib/copernicus_terrain_provider.cpp:1258-1273 | the cell of the nearest pixel, reached by rounding east, south or diagonally, is listed |
| GridPrefetch.GridNeedsOnlyListedCells | src/lib/copernicus_terrain_provider.cpp:1258-1273 | two sources that agree on the listed cells give the same elevation, and the same failure, for each cell of an analysis grid |
| GridPrefetch.FetchGrid | src/lib/copernicus_terrain_provider.cpp:2105-2137 | the loops fail exactly when reading some grid cell fails, and otherwise yield all elevations in order, or no coverage when there is none |
| SamplePlaces.GridHoldsCentres | src/lib/copernicus_terrain_provider.cpp:2105-2137 | a filled grid holds, row by row from the north-west, the native sample at the centre of each grid cell |
| SamplePlaces.GridEndsIff | src/lib/copernicus_terrain_provider.cpp:2105-2137 | the request fails if and only if the sample at some centre cannot be read, and has no coverage if and only if none fails and none has an elevation |
| GridPrefetch.FetchNeedsOnlyListedCells | src/lib/copernicus_terrain_provider.cpp:2105-2137 | for two sources that agree on the listed cells the request ends the same: the same failure or the same elevations, whatever else is missing, broken or different |
| TilePrefetch.NormalizedTileSources | src/lib/copernicus_terrain_provider.cpp:1666-1697 | lists exactly the wrapped cells of the widened box of the tile; acquisition and the local-availability test (lines 2144-2160) use this list |
| ListedCells.TileListIff | src/lib/copernicus_terrain_provider.cpp:1666-1697 | a cell is listed for a tile if and only if the box of the tile, widened by 1/360 degree east and west and 1/3600 degree north and south, reaches it, whole turns around the Earth included |
| TilePrefetch.TileNeedsOnlyListedCells | src/lib/copernicus_terrain_provider.cpp:1893-1947 | two sources that agree on the listed cells give the same samples of a tile: bilinear neighbours, pixel footprints and the antimeridian included |
| TileFetch.FetchTile | src/lib/copernicus_terrain_provider.cpp:1896-1974 | the loops fail exactly when a candidate cell of the average, the cell of a sample or a corner that counts cannot be read, and otherwise yield all samples in order, or no coverage when there is none; what the samples are is said by the rows below |
| AreaMeans.AveragedSampleIsMean | src/lib/copernicus_terrain_provider.cpp:1936-1940 | an averaged sample times the weight of its box is the plain sum over the pixels; it is there if and only if some pixel with an elevation in the candidate cells lies under the box, and in every range that holds the elevations of all these pixels |
| AreaMeans.FlatStaysFlat | src/lib/copernicus_terrain_provider.cpp:1936-1940 | over pixels of one elevation the averaged sample is that elevation |
| AreaMeans.MassBetween | src/lib/copernicus_terrain_provider.cpp:1301-1462 | the sum of a box lies between the bounds of the elevations under it times its weight |
| AreaMeans.WeightIff | src/lib/copernicus_terrain_provider.cpp:1301-1462 | a box has a weight if and only if a pixel with an elevation shares area with it |
| SamplePlaces.PointSampleIsBilinear | src/lib/copernicus_terrain_provider.cpp:1615-1628 | a point sample of the result is the bilinear sample at its place: so many 64ths of the tile east and south of its north-west corner |
| SamplePlaces.BoxIsAroundPlace | src/lib/copernicus_terrain_provider.cpp:1643-1660 | the box of a sample reaches half a spacing to each side of its place |
| SamplePlaces.PointSampledIff | src/lib/copernicus_terrain_provider.cpp:1924-1944 | a sample is a point sample if and only if the zoom is 14, or its box is narrower or lower than one pixel of the cell it lies in |
| SamplePlaces.TileFailsIff | src/lib/copernicus_terrain_provider.cpp:1896-1974 | the request fails if and only if a candidate cell of the averages cannot be used, the cell of a sample is broken, or a point sample cannot be read |
| TileFetch.FetchNeedsOnlyListedCells | src/lib/copernicus_terrain_provider.cpp:1896-1974 | for two sources that agree on the listed cells the request for a tile ends the same: the same failure or the same samples, whatever else is missing, broken or different |
| EastEdges.EastEdgeAgreesIff | src/lib/copernicus_terrain_provider.cpp:1893-1947 | for any least number of columns from 360: a tile agrees with its east neighbour on a shared sample for every source of at least that many columns, the choice between box average and point sample included, if and only if its candidates go far enough for its last column of boxes |
| EastEdges.EastNeighbourAgrees | src/lib/copernicus_terrain_provider.cpp:1893-1947 | over sources of 600 columns or more every tile agrees with its east neighbour on every shared sample |
| EastEdges.GapsAreAtZoom12 | src/lib/copernicus_terrain_provider.cpp:1318-1338 | candidates stop short at zoom 12 only, and only over sources with at most 394 columns in some cell |
| EastEdges.GapExample | src/lib/copernicus_terrain_provider.cpp:1318-1338 | and there they do, with 360 to 394 columns, for the tiles of column 2138 |
| EastEdges.GapNeighboursDisagree | src/lib/copernicus_terrain_provider.cpp:1893-1947 | for every such tile and number of columns a source on which it has no elevation where its neighbour has one |
| LatitudeBands.EastEdgeAgreesIff | src/lib/copernicus_terrain_provider.cpp:1893-1947 | over sources with the columns of GLO-30, a tile whose listed cells lie below 85 degrees or in one polar cap agrees with its east neighbour if and only if they lie below 85 degrees or it has no gap |
| SharedEdges.SouthNeighbourAgrees | src/lib/copernicus_terrain_provider.cpp:1893-1947 | tiles agree on every sample of a north-south edge |
| SharedEdges.TileBoxSum | src/lib/copernicus_terrain_provider.cpp:1643-1660 | over sources of any least number of columns, the sum for a sample whose box the candidates go far enough for is that over its box of every source pixel |
| Antimeridian.AntimeridianAgreesIff | src/lib/copernicus_terrain_provider.cpp:1893-1947 | for any least number of columns from 360: across the antimeridian two tiles agree on a sample for every source of at least that many columns if and only if its box is averaged whatever such raster lies under it |
| Antimeridian.AntimeridianByZoom | src/lib/copernicus_terrain_provider.cpp:1893-1947 | that is, if and only if the zoom is averaged, the boxes in a row of tiles are no more than the pixels in a row of cells, and the box is an arc second high; the width is met up to zoom 10, and at zoom 11 with 600 columns or more |
| LatitudeBands.AntimeridianAgreesIff | src/lib/copernicus_terrain_provider.cpp:1893-1947 | over sources with the columns of GLO-30, for a tile whose listed cells lie below 85 degrees: if and only if the zoom is at most 11 and the box an arc second high |
| Antimeridian.SteppedDisagrees | src/lib/copernicus_terrain_provider.cpp:1893-1947 | the concrete source, with any number of columns, on which they disagree otherwise |
| SourceDeletion.DeleteSourceData | src/lib/copernicus_terrain_provider.cpp:2220-2313 | removes exactly the selected files that are neither locked nor stuck, counts them, and reports failure exactly for the others |
| SourceDeletion.SelectionIsExactIff | src/lib/copernicus_terrain_provider.cpp:2242-2263 | the cell loop selects exactly the wrapped cells that share area with the box if and only if the box reaches below the north pole and above the south pole |
| SourceRangeDeletion.RangeTakesCellsUnderItsTiles | src/lib/terrain_data.cpp:499-558 | deleting by a range of map tiles selects exactly the cells that share area with one of its tiles |
| Crc32.ComputeCrc32 | src/lib/terrain_tile.cpp:68-81 | the bit loop computes the register fold of the specification |
| Crc32Check.CheckValue | src/lib/terrain_tile.cpp:68-81 | the CRC of the digits 1 to 9 is 0xcbf43926, the check value of the CRC-32 of RFC 1952 |
| Crc32Check.StoredCheckValue | src/lib/terrain_tile.cpp:34-38 | which is stored low byte first |
| Crc32.EightIsInjective | src/lib/terrain_tile.cpp:68-81 | the update by one byte is injective on the register |
| Crc32.FourBytesShow | src/lib/terrain_tile.cpp:68-81 | four updates are injective in the four bytes |
| Crc32.BurstChangesCrc | src/lib/terrain_tile.cpp:68-81 | damage confined to four consecutive bytes of a byte string of any length changes the CRC |
| TerrainTileRoundTrip.DamagedPayloadIsRefused | src/lib/terrain_tile.cpp:441-446 | a file with such damage in its payload is refused |
| TerrainTileRoundTrip.ReadOfWritten | src/lib/terrain_tile.cpp:243-470 | reading a written tile returns its address, dataset and datum, and the elevations of its codes |
| TerrainTileRoundTrip.SamplesComeBack | src/lib/terrain_tile.cpp:243-332 | for every valid tile: no-data comes back as no-data, the minimum exactly, and every elevation within the loss, which is half a stored step exactly when the highest code reaches the highest sample |
| TerrainTileRoundTrip.HalfStepIff | src/lib/terrain_tile.cpp:272-297 | all elevations come back within half a stored step if and only if the range is at most 65534.5 stored steps |
| TerrainTileRoundTrip.NormalStepReaches | src/lib/terrain_tile.cpp:261-265 | that is so whenever the exact step is a normal 32-bit value, and then the highest sample gets the highest code |
| TerrainTileRoundTrip.StepVanishesIff | src/lib/terrain_tile.cpp:261-265 | the stored step is zero if and only if the range is at most 32767 times the least float |
| TerrainTileRoundTrip.VanishedStepFlattens | src/lib/terrain_tile.cpp:279-282 | then every elevation comes back as the minimum |
| TerrainTileRoundTrip.FaintSpikeIsFlattened | src/lib/terrain_tile.cpp:279-282 | a tile on which that happens |
| TerrainTileRoundTrip.ExtremesComeBack | src/lib/terrain_tile.cpp:243-332 | the minimum of the read tile is that of the written one, the maximum is what the code of the maximum stands for |
| TerrainTileRoundTrip.MaximumIsExactIff | src/lib/terrain_tile.cpp:243-332 | the maximum comes back exactly if and only if it lies a whole number of stored steps, at most 65534, above the minimum |
| TerrainTileRoundTrip.NormalMaximumIsExactIff | src/lib/terrain_tile.cpp:261-265 | for normal steps: if and only if the exact step is a 32-bit value |
| TerrainTileRoundTrip.WriteOfReadIsIdenticalIff | src/lib/terrain_tile.cpp:243-470 | writing what was read gives the identical bytes if and only if the read minimum and maximum have the stored step |
| TerrainTileRoundTrip.WriteOfReadIsIdentical | src/lib/terrain_tile.cpp:243-470 | that is so for every normal step, and for a step that vanishes |
| TerrainTileRoundTrip.HalfwayStepChangesFile | src/lib/terrain_tile.cpp:243-470 | a range for which it is not |
| TerrainTileFile.EncodeTerrainTile | src/lib/terrain_tile.cpp:243-332 | the encoder yields the file of a valid tile, and no bytes for any other |
| TileLayout.WrittenIsLaidOut | src/lib/terrain_tile.cpp:243-332 | a written file is laid out so, with the lowest elevation as minimum, the rounded 65534th part of the range as step, and samples within the loss |
| TerrainTileFile.DecodeTerrainTile | src/lib/terrain_tile.cpp:334-470 | the decoder accepts exactly the files that pass every check, and yields their tile |
| TileLayout.DecodedIff | src/lib/terrain_tile.cpp:334-470 | the decoder accepts a byte string as a tile if and only if each byte is what docs/terrain-tile-format.md lays out for that tile: constants, numbers, dataset, CRC, and the samples as so many steps above the minimum |
| TerrainTileCodec.CrcFieldIsInjective | src/lib/terrain_tile.cpp:34-38 | the four little-endian bytes determine the CRC |
| NormalizedStore.FilledReadsBackIff | src/lib/terrain_data.cpp:823-897 | a filled file is served if and only if its tile is of the key it is stored under; otherwise it reads as corrupt |
| NormalizedStore.NormalizedTiles.FetchAndStore | src/lib/terrain_data.cpp:899-1015 | the first provider that does not pass decides; a valid tile of it that can be written is served and replaces the file at once, and otherwise nothing changes and the status says why |
| NormalizedStore.NormalizedTiles.TerrainTile | src/lib/terrain_data.cpp:716-821 | what is served always decodes to the tile asked for, whatever the directory holds; another request that filled the tile meanwhile is honoured; a corrupt file is repaired exactly when the deciding provider makes a valid tile that can be written, else stays an error; without the lock nothing changes; no other file changes |
| NormalizedStore.NormalizedTiles.DeleteNormalizedTiles | src/lib/terrain_data.cpp:417-497 | removes exactly the removable tiles of the range, counts them, goes on past failures and reports them |
| TileSeams.PositionIsTheCoordinate | src/lib/terrain_data.cpp:50-106 | every coordinate of the map has a tile at every zoom, and the longitude and latitude of its place in the tile, by the formulas that place the samples, are the coordinate |
| ElevationSampling.BilinearElevation | src/lib/terrain_data.cpp:108-156 | the corner loop computes the blend, and nothing when a corner that counts has no elevation |
| TileInterpolation.InterpolatedIsMix | src/lib/terrain_data.cpp:108-156 | the elevation at a place is the blend of the four samples around it, each weighted with the area of the rectangle opposite to it |
| TileInterpolation.SampleIsServed | src/lib/terrain_data.cpp:108-156 | at the place of a sample the sample itself is served |
| ElevationSampling.CloseSamplesCloseElevations | src/lib/terrain_data.cpp:108-156 | samples within a distance give blends within that distance |
| ElevationSampling.SeamIsClose | src/lib/terrain_data.cpp:108-156 | along a shared east or south edge the elevations served from the two files differ by at most the losses of the two tiles, and both have one or neither has |
| ElevationSampling.SampleElevation | src/lib/terrain_data.cpp:1045-1213 | an elevation is that of the finest tile that has one at the coordinate, with no error at a finer zoom, and fits the datum asked for; a mismatch and a failure name the first such tile; no-data names the finest tile present when none has one; nothing is said only when there is no tile |
| ElevationSampling.AcquiredZoom | src/lib/terrain_data.cpp:1017-1043 | sources are acquired for the finest zoom a provider makes tiles of |
| TileSeams.NeighboursShareEdge | src/lib/copernicus_terrain_provider.cpp:1893-1947 | over sources of 600 columns or more, neighbouring tiles hold the same floats along every shared east or south edge |
| TileSeams.NeighboursShareEdgeIf | src/lib/copernicus_terrain_provider.cpp:1893-1947 | over sources of 360 columns or more the same along every south edge, and along the east edges of tiles without a gap or, with the columns of GLO-30, below 85 degrees |
| TileSeams.ServedElevationsMeet | src/lib/terrain_data.cpp:108-156 | end to end, from source through accumulation, encoder, decoder and interpolation: over sources of 600 columns or more neighbouring files serve elevations along a shared edge no further apart than the two losses |
| TileSeams.ServedElevationsMeetIf | src/lib/terrain_data.cpp:108-156 | over sources of 360 columns or more the same along the edges just named |
| BlockCache.SharedBudgetIsExact | src/lib/copernicus_decoded_block_cache.h:14-153 | over any interleaving of insertions, evictions and closings of any number of caches: stored bytes are the sum of the retained blocks and within the limit, the queue lists the retained keys once each, and the shared budget is the sum over the live caches |
| BlockCache.HitReturnsWhatWasInserted | src/lib/copernicus_decoded_block_cache.h:109-142 | over any run, a hit returns the block last inserted under that key |
| BlockCache.MakeRoomDropsOldest | src/lib/copernicus_decoded_block_cache.h:121-135 | eviction drops the oldest keys, and as few of them as make room |
| BlockCache.InsertMeans | src/lib/copernicus_decoded_block_cache.h:115-142 | an insertion leaves the old keys without the oldest ones, then the new key, in order; a block is inserted if and only if it is new, fits the cache, and after the evictions fits the shared budget; what is refused changes nothing but the evictions |
| BlockCache.InsertIsSteps | src/lib/copernicus_decoded_block_cache.h:115-142 | an insertion is a run of the single steps the interleavings are made of |
| DecodedBlocks.DecodedBlockCache.InsertBlock | src/lib/copernicus_decoded_block_cache.h:115-142 | the eviction loop and the budget calls do exactly this |
| DecodedBlocks.DecodedBlockCache.Find | src/lib/copernicus_decoded_block_cache.h:109-113 | a hit returns the retained block |
| DecodedBlocks.DecodedBlockCache.End | src/lib/copernicus_decoded_block_cache.h:100-104 | a destroyed cache gives back exactly what it holds |
| DecodedBlocks.TemporaryDecodeReservation.End | src/lib/copernicus_decoded_block_cache.h:73-77 | a temporary reservation gives back exactly what it took |

## Left out

- TerrainTileRoundTrip.SamplesComeBack: the decoder's own rounding of minimum + code * step to 32 bits is not modelled; a code stands for its exact elevation.
- TerrainTileRoundTrip.WriteOfReadIsIdentical: the same; steps below the normal floats are covered by WriteOfReadIsIdenticalIff.
- TerrainTileRoundTrip.ReadOfWritten: the stored resolution is compared after rounding to 32 bits, as the header holds it.
- AreaTheorems.NoOtherCellContributesIf: for sources with fewer than 600 columns it asks that the candidates go far enough, without which it is false (WideColumns.CandidatesSufficeIff); with 600 or more nothing is asked (AreaTheorems.NoOtherCellContributes).
- TileSeams.NeighboursShareEdgeIf: for sources with fewer than 600 columns it asks that no cell is left out of an east edge, without which it is false (EastEdges.EastEdgeAgreesIff); with 600 or more nothing is asked (TileSeams.NeighboursShareEdge).
- LatitudeBands.EastEdgeAgreesIff: does not speak of the tiles whose listed cells lie on both sides of 85 degrees; for these there is EastEdges.EastEdgeAgreesIff.
- SourceCell.SourceFiles.DownloadSourceTile: begins with the source lock held; what comes before changes no source file (a source already there, remote fetching switched off, the directory, a cancellation, a lock not obtained), and only its outcome is missing.
- TileFetch.FetchTile: which error status and text a failed request carries, the checks of dataset and address before, and the validity check of the tile after the loops are not modelled.
- GridPrefetch.FetchGrid: the same; the request is a valid one.
- RasterPromises.RasterPromisesAreKept: a request and the appending of its promise are one step, as they are on the server thread; likewise the end of the server.
- TerrainServer.Server.SubmitTerrain: one submission is one step of the server thread, which is how the event loop runs it; the three registries are one map keyed by kind and name.
- TileStore.MapTiles.DeleteTilesBegins: the two halves of a deletion are two methods, because write workers run between them; tiles of the permanent directory are not deleted by the source and not modelled.
- TileStore.MapTiles.GetTileNow: provider names, coordinates out of range, empty cached bytes and the permanent-tile directory are checked before the modelled part.
- TileQueue.DownloadQueue.StartQueuedDownloads: the end of a download and the restart of the queue are one step; the source releases its mutex between them, on the same thread.
- Admission.LoopsAreIndivisible: atomic accesses are interleaved one by one; weaker memory orders than that are not modelled.
- ElevationSampling.SampleElevation: the checks of configuration, coordinates and datum names before the search, and of the sample after it, are not modelled.
- NormalizedStore.NormalizedTiles.TerrainTile: the configuration checks and the creation of directories are not modelled; the fill of other tiles meanwhile is one value.
- Eviction from the RAM tile cache happens at any time instead of by cost.
- Waiting times, the one-hour mark of unavailable sources and stale-lock ages are events that may happen at any time.
- HTTP routes, JSON, authentication, error texts, provider catalogues and settings: tables and plumbing.
- Download coverage (polygons, GeoJSON): geometry with tolerances and no clean specification; whether a fetch is allowed is a parameter.
- TIFF decoding and GeoTIFF tags: opening a raster is a validity predicate.
- Rounding of 64-bit floating point: all arithmetic of coordinates and weights is exact.
