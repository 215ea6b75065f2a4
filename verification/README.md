# A verified model of the warehouse ingestion protocols

The server keeps its ingestion state in MySQL rows that several processes change at once: workers lose their claims and
keep writing, commits succeed without the caller hearing of it, operators cancel and recover runs. This project models
those protocols and the in-memory schedulers and codecs around them, and proves what they promise over every run.

Each subject has the same three layers:

* a datatype for the rows, with one pure function per transaction (a transaction that fails returns the state it was
  given, which is the rollback) and a `Step` function over events, so that crashes, late statements, lost
  acknowledgements and retries are ordinary runs;
* a class whose methods do what the Go methods do, statement by statement or loop by loop, and whose postconditions tie
  the whole new state to the pure function;
* an inductive invariant, kept by every step, and lemmas about every reachable state that follow from it: what can never
  happen, exactly when a transaction goes through and what it then writes, and that work can always be carried through.

Hashes are function parameters that are assumed injective where that is needed, owner tokens and ids are counters, and
time is a number the events carry.

| subject | files |
|---|---|
| Custom dataset imports | `Import*.dfy` |
| Fixed report staging and publication | `Calendar`, `Chunks`, `Framing`, `Fixed*.dfy` |
| Ingestion runs, Run All parents, executors | `Run*.dfy` |
| Session lanes and single-flight login | `SessionLane`, `SessionLanes`, `LaneClients`, `Login` |
| Detail and Master merge | `Merge` |
| Worker pools | `Pool` |
| MFA challenges | `Mfa*.dfy` |
| Algorithms and codecs | `Utf8Validator`, `QueryNames`, `Batching`, `Encodings`, `ReadOnly`, `LoginFailures`, `LoginThrottle` |

`dafny verify dfyconfig.toml` checks everything.

Places where the code is narrower than one might expect, each stated exactly by a lemma:

* Dates are compared as texts. That is the calendar order up to the last day of 9999 (`Calendar.TextOrder`), and not
  from the next day on (`Calendar.TextOrderEndsAt9999` has the exact bound).
* A merge equals a plain replacement exactly when rows that compare as unchanged are unchanged
  (`Merge.MergeIsReplacement`). Binary checksums guarantee that for parents, children and masters
  (`Merge.ChecksumsTell`). Extensions have none: a text that changes only in what the collation does not see, such as
  its case, stays as it was while the parent is updated (`Merge.ChangeOfCaseIsMissed`).
* Replaying a published load is refused as stale instead of being recognised as a replay exactly when a later load has
  taken over one of its dates (`FixedLedger.PublishedIsSettled`).
* Promotion accepts a complete load exactly when its plan also has the shape the promotion asks for
  (`FixedRuns.AcceptsWhenComplete`). The plan builders give it that shape, except for a snapshot definition that is not
  per location, which no definition of the catalog is (`FixedPlans.RangePlansAreAccepted`).
* Promotion compares checksums, not rows: what it publishes has the fetched checksums in order, and is what was fetched
  unless staged rows were damaged without their checksums (`FixedLedger.PromotedIsFetched`).
* Throttling cleanup can be noticed by a user exactly when their first failure finds a table that would be full without
  cleanup and is not with it (`LoginFailures.FullTableShowsCleanup`), which needs more failing users than the table
  holds (`LoginFailures.FewUsersNeverShow`). That is so when times reach the table in order; a late call of a user whose
  lock was cleaned up can notice it even in a table of one entry (`LoginFailures.LateCallShowsCleanup`).

## Model

| member | source | states |
|---|---|---|
| ImportRuns.RunRefines | internal/customdataset/ddl.go:93-101 | In every reachable state, zombie attempts and lost commits included, the rows the SQL view selects are the last published Replace followed by each Append published since: the view refines one list that is atomically replaced or extended |
| ImportSubmissions.ReadersSeeSubmissions | internal/customdataset/repository.go:281-302 | What readers see is what was submitted: the list is made by replacing or extending as each published import's own submission asked |
| ImportProgress.ClaimedCanPublish | internal/customdataset/worker.go:95-206 | From every reachable state a claimed import whose worker is not disturbed gets its table, stages its stream in any batches and is published; only an extension beyond the limit is refused |
| ImportProgress.PublishesExactly | internal/customdataset/jobs.go:113-179 | In every reachable state a worker that staged its stream publishes it if and only if its attempt is the running one and, for an extension, visible and new rows together stay within the limit |
| ImportProgress.PublishWrites | internal/customdataset/jobs.go:140-179 | A publication writes its import's row and its dataset's row, by mode, and nothing else |
| ImportSubmissions.SubmitExactly | internal/customdataset/repository.go:187-338 | A submission is queued if and only if the upload is usable, the revision is current, nothing is unfinished and the dataset's state allows the mode; it then adds exactly one import, with its mode, schema revision and generation, and revises at most the dataset's own row |
| ImportRuns.StepRefines | internal/customdataset/jobs.go:15-211 | Every event keeps the invariant, and no event but a committed Publish changes what any reader sees |
| ImportRuns.RowCountIsVisibleRows | internal/customdataset/jobs.go:140-151 | row_count is always the number of rows a reader sees, and never more than MaxDataRows |
| ImportRuns.CommittedView | internal/customdataset/jobs.go:113-179 | A committed Publish turns the dataset's view into the worker's whole stream (Replace) or appends it (Append), and leaves the views of other datasets alone |
| ImportRuns.GoneForever | internal/customdataset/jobs.go:140-151 | An import that failed or was retired is retired in every later state, and none of its attempts is ever visible again |
| ImportRuns.OldCleanupIsInvisible | internal/customdataset/jobs.go:188-211 | A candidate taken from a list of any age, deleted after any further events, removes no row any reader sees |
| ImportPublication.ItemMatchesNothingLive | internal/customdataset/jobs.go:194-211 | The cleanup DELETE matches neither a visible row nor one the attempt still entitled to publish has staged |
| ImportPublication.CleanupPreserves | internal/customdataset/jobs.go:194-211 | One bounded cleanup DELETE keeps the whole invariant and every view |
| ImportPublication.InsertPreserves | internal/customdataset/worker.go:364-404 | A worker's INSERT, a dead worker's late one included, keeps the invariant and changes no view |
| ImportWorkerSteps.EnsurePreserves | internal/customdataset/ddl.go:23-76 | The DDL step, even with an out-of-date reading of the dataset or a crash between DROP and CREATE, never drops a row a reader sees nor one of an attempt that can still publish |
| ImportWorkerSteps.ClaimPreserves | internal/customdataset/jobs.go:15-45 | A claim opens an attempt number no worker has held, so the staged rows of earlier attempts never count for it |
| ImportSteps.SubmitPreserves | internal/customdataset/repository.go:187-338 | A submission, accepted or rolled back, keeps one active import per dataset, generations that name a published Replace, and every view |
| ImportSteps.ArchivePreserves | internal/customdataset/repository.go:371-388 | Archiving keeps the invariant and every view |
| ImportSteps.UpdateMetadataPreserves | internal/customdataset/repository.go:348-369 | Renaming keeps the invariant and every view |
| ImportInvariants.SelectExtend | internal/customdataset/ddl.go:93-101 | When no already visible row comes after a new import's rows, making the import visible appends its rows to what was visible |
| ImportDatasets.SchemaIsFrozen | internal/customdataset/repository.go:223-264 | Once a dataset was published, its columns and schema revision are the same in every later state |
| ImportDatasets.StaleRevisionIsRefused | internal/customdataset/repository.go:214-222 | A submission, rename or archive with the revision of an older state of the dataset changes nothing |
| ImportDatasets.ArchivedIsFinal | internal/customdataset/repository.go:371-388 | After archiving, neither the dataset nor what its readers see ever changes |
| ImportDatasets.OneActiveImport | internal/customdataset/repository.go:288-295 | No reachable state has two unfinished imports of one dataset |
| ImportRepository.Repository.Submit | internal/customdataset/repository.go:187-338 | The transaction's statements, with rollback on every error, produce the submission's new state and outcome |
| ImportRepository.Repository.Claim | internal/customdataset/jobs.go:15-45 | The claim of a queued import and the job handed to the worker |
| ImportEffects.HeartbeatProtects | internal/customdataset/jobs.go:47-74 | An owner that heartbeats keeps its claim through every stale sweep of the lease that follows; anyone else changes nothing; no view changes |
| ImportEffects.RequeueRevokes | internal/customdataset/jobs.go:68-74 | A sweep takes exactly the stale claims, and a claim it took stays taken even after the same process claims the import again |
| ImportSubmissions.ClaimExactly | internal/customdataset/jobs.go:15-45 | An import is claimed if and only if it waits, by a new attempt whose job carries the submitted mode, and nothing else changes |
| ImportEffects.FailEnds | internal/customdataset/jobs.go:76-111 | After its owner failed an import nobody can heartbeat, fail, publish or claim it, and no view changed |
| ImportSubmissions.FailExactly | internal/customdataset/jobs.go:76-111 | A failure is recorded for the owner of the running attempt alone, and the import is then gone for good |
| ImportRepository.Repository.Publish | internal/customdataset/jobs.go:113-179 | The publication transaction with its fences, its 64-bit cap check and its rollback |
| ImportEffects.RenamesOnce | internal/customdataset/repository.go:348-369 | Of several callers that saw one revision only one gets through, whether it renames, archives or submits, and readers see no difference |
| ImportSubmissions.AmendExactly | internal/customdataset/repository.go:348-388 | Renaming goes through for the current revision of an unarchived dataset, archiving if moreover nothing is unfinished, and each changes its own columns alone |
| ImportEffects.CleanupDeletesOnlyItem | internal/customdataset/jobs.go:194-211 | Every deleted row is the candidate's, and every selection of other rows stays the same, in order |
| ImportSubmissions.ListedExactly | internal/customdataset/jobs.go:188-192 | An import is listed for cleaning if and only if it ended longer ago than the grace period |
| ImportSubmissions.CleanupReclaims | internal/customdataset/jobs.go:194-211 | Cleaning a listed import to the end leaves exactly those of its rows that readers can see |
| ImportRepository.Repository.Ensure | internal/customdataset/ddl.go:23-76 | The physical table after the DDL step, and when the step is refused |
| ImportEffects.InsertAppends | internal/customdataset/worker.go:364-426 | The batch is appended to what its attempt staged, and to no other selection |
| ImportSubmissions.InsertWrites | internal/customdataset/worker.go:364-426 | Each record of the batch becomes one row, in order, with its source number, values and a new id |
| Calendar.BeforeIsOrdinal | internal/ingestion/date.go:28-42 | Year, month, day order is the order of day numbers, and equal numbers mean equal dates |
| Calendar.AddDaysAdds | internal/ingestion/date.go:37-42 | Adding n days moves n days along the calendar |
| Calendar.TextOrder | internal/ingestion/date.go:28-33 | For years 1 to 9999 the texts compare as the dates do |
| Calendar.TextOrderEndsAt9999 | internal/ingestion/date.go:28-42 | Every earlier date sorts before a date as a text if and only if the date is of a year up to 9999, or of a longer one that starts with 9999; so 9999-12-31 sorts after the next day |
| Chunks.CutTiles | internal/ingestion/fixed.go:315-335 | The chunks tile the range: no gap, no overlap, each at most the maximum, only the last one shorter |
| Chunks.TilingIsCut | internal/ingestion/fixed.go:315-335 | There is no other such tiling |
| Chunks.DateInOneChunk | internal/ingestion/fixed.go:315-335 | Every date of the range lies in exactly one chunk |
| Chunks.ChunkDateRange | internal/ingestion/fixed.go:315-335 | The loop over text-compared dates returns that tiling, or an error for exactly the ranges the checks refuse |
| Chunks.FixedSourceChunks | internal/ingestion/fixed.go:295-313 | The request mode's chunks, with its error cases |
| Chunks.SourceChunksTile | internal/ingestion/fixed.go:295-313 | Whatever the mode, the source requests tile the range; exact intervals are one request, bounded ones at most 30 days |
| Chunks.CountDays | internal/ingestionstore/fixed.go:451-457 | The promotion's text-compared loop counts each day of the load's range once |
| Framing.FramesInjective | internal/ingestion/fixed.go:107-113 | The length-framed checksum stream determines the list of checksums |
| Framing.FramesPrefix | internal/ingestion/fixed.go:102-113 | Frames can be read back even when other data follows |
| FixedStaging.IndexBijection | internal/ingestionstore/fixed_contract.go:61-79 | Every chunk and variant has exactly one segment index, and every index one chunk and variant |
| FixedRuns.AcceptsWhenComplete | internal/ingestionstore/fixed.go:404-501 | After any staging run, lost acknowledgements included, promotion's checks accept the load if and only if its contract and its plan's shape are right and every member was finalized |
| FixedProgress.StagesExactly | internal/ingestionstore/fixed.go:234-306 | In every reachable state the next segment of a member is staged if and only if all its rows fit their chunk, and then adds exactly these rows, in order, and nothing else |
| FixedProgress.FinalizesExactly | internal/ingestionstore/fixed.go:324-363 | A member is finalized if and only if all segments of its plan were staged, with the checksum of what was fetched |
| FixedProgress.MemberCanComplete | internal/ingestionexec/executor.go:459-516 | From every reachable state a member that nothing stopped can be staged to the end and finalized with any rows that fit |
| FixedRuns.AcceptedIsFetched | internal/ingestionexec/executor.go:459-516 | An accepted member's staged rows are the in-order concatenation of all chunk and variant segments, each once, as the executor fetched them |
| FixedRuns.AcceptanceDetects | internal/ingestionstore/fixed.go:583-650 | Whatever the staging table holds at promotion, acceptance proves it holds exactly the fetched rows' checksums in order |
| FixedRuns.AcceptedCoverage | internal/ingestionstore/fixed.go:583-650 | Every row of an accepted date-addressable load has a business date within the load |
| FixedTables.StepKeepsRecords | internal/ingestionstore/fixed.go:234-363 | What a load and its executor recorded stays in order whatever happens to the staging table, and undamaged staging rows only ever lack some |
| FixedTables.AcceptedUntouched | internal/ingestionstore/fixed.go:583-650 | A staging table that lost rows at most and is accepted lost none |
| FixedPlans.BuildFixedPlan | internal/ingestion/fixed.go:168-201 | One request per location, account code or in all, for the whole range; refused exactly for bad ranges, several-day snapshots and empty sets |
| FixedPlans.BuildFixedDateSeriesPlan | internal/ingestion/fixed.go:212-238 | One request for each date and location of a contiguous series; refused exactly otherwise |
| FixedPlans.BeginLoad | internal/ingestionstore/fixed.go:144-214 | Freezes a member for each request with its number of segments; refused exactly for duplicate or empty keys, requests outside the range or without chunks, and bad variants |
| FixedPlans.RangePlansAreAccepted | internal/ingestionstore/fixed.go:404-501 | A load begun from a range plan is accepted if and only if all members were finalized, except that a snapshot definition that is not per location is never accepted |
| FixedPlans.SeriesPlansAreAccepted | internal/ingestionstore/fixed.go:404-501 | A load begun from a date series is accepted if and only if all members were finalized |
| FixedRuns.RunKeepsFrames | internal/ingestionstore/fixed.go:234-363 | No staging event changes what the plan fixed of a member |
| FixedValidation.CountSegments | internal/ingestionstore/fixed_contract.go:101-123 | One pass over the recorded segments either finds the plan broken, or leaves per member the number of segments and rows, all where the plan wants them |
| FixedValidation.Gap | internal/ingestionstore/fixed_contract.go:111-115 | A segment whose index is not the next one proves that the member's segments are incomplete |
| FixedValidation.ReadSegments | internal/ingestionstore/fixed_contract.go:96-100 | Lists every recorded segment once, those of a member by index |
| FixedValidation.FullDay | internal/ingestionstore/fixed_contract.go:146-149 | Comparing two counts is enough: a date has as many locations as there are exactly when every location has a snapshot of it |
| FixedValidation.CompleteDates | internal/ingestionstore/fixed_contract.go:146-153 | The date loop accepts exactly when every location has a snapshot of every day of the load |
| FixedValidation.ValidateSegments | internal/ingestionstore/fixed_contract.go:96-162 | The whole check accepts exactly the loads whose segments fill the plan and whose members have the required shape |
| FixedRepository.Load.StageMemberSegment | internal/ingestionstore/fixed.go:234-306 | Stages a segment's rows, its record and the member's counters, or nothing at all |
| FixedRepository.Load.FinalizeMemberCandidate | internal/ingestionstore/fixed.go:324-363 | Finalizes a completely staged member once; a repetition must repeat its numbers and checksum |
| FixedRepository.ReadStaged | internal/ingestionstore/fixed.go:583-637 | One pass over the staged rows yields the counts and framed streams of the member and of each of its segments |
| FixedRepository.StagedMemberMatches | internal/ingestionstore/fixed.go:583-650 | Accepts exactly when the staged rows agree with every recorded count and checksum |
| FixedRepository.FetchAndStageMember | internal/ingestionexec/executor.go:444-516 | The nested chunk and variant loops leave a member whose staged rows are the downloads in plan order; on success it is finalized |
| FixedRepository.WriteChecksums | internal/ingestion/fixed.go:107-113 | Hashing row by row equals framing the whole list |
| FixedLedger.LedgerAgreesWithFinal | internal/ingestionstore/fixed.go:404-535 | After any interleaving of loads, staging, cleaning, damage and promotions, each slot's ledger entry names a published load covering it and the final rows of the slot are exactly the rows that load had staged when promoted; slots without an entry have no rows |
| FixedLedger.PromotedIsFetched | internal/ingestionstore/fixed.go:583-650 | What was promoted for a member has the checksums of all its fetched segments in order, whatever happened to the staging table; and unless rows were damaged it is what was fetched, row by row |
| FixedLedger.FinalIsFetched | internal/ingestionstore/fixed.go:404-535 | The final rows of a slot are exactly those its load's executor fetched for it, unless staging rows were damaged |
| FixedLedger.AcceptedInSlots | internal/ingestionstore/fixed.go:583-650 | An accepted load's rows lie on its own dates or interval |
| FixedLedger.AuthorityNeverGoesBack | internal/ingestionstore/fixed.go:436-461 | The load a date or interval belongs to never gets older, and an entry never disappears |
| FixedLedger.PublishedIsSettled | internal/ingestionstore/fixed.go:431-480 | Promoting a published load again changes nothing; it is stale if and only if it is not a replay |
| FixedOutcomes.PromotionOutcome | internal/ingestionstore/fixed.go:404-535 | In every reachable state a promotion by the load's own run publishes if and only if the load is accepted, unpublished and on none of its dates behind a later load; it is stale, replayed or kept back each under its exact condition |
| FixedOutcomes.SupersededByPublished | internal/ingestionstore/fixed.go:433-472 | A load is behind in the ledger if and only if a load begun later that shares a date with it was published |
| FixedOutcomes.NewestPublishes | internal/ingestionstore/fixed.go:436-535 | An accepted load begun after all published ones always publishes, and then holds exactly all of its dates |
| FixedOutcomes.FinalRowsOnTheirDates | internal/ingestionstore/fixed.go:494-526 | Every final row lies on the business date it was staged with, or on its load's interval, and belongs to the load the ledger names there |
| FixedLedger.PromotionIsExact | internal/ingestionstore/fixed.go:404-535 | A promotion that does not publish, a stale one included, changes nothing; one that does replaces exactly its own slots |
| FixedPromotion.Ledger.ReadDates | internal/ingestionstore/fixed.go:433-458 | The loop finds a newer load on some date exactly when there is one, and counting its own dates tells whether it holds them all |
| FixedPromotion.Ledger.PublishDates | internal/ingestionstore/fixed.go:537-562 | Upserting in batches of 500 sets exactly the load's dates |
| FixedPromotion.Ledger.Promote | internal/ingestionstore/fixed.go:404-535 | The promotion transaction with its completeness checks, stale rejection, replay, full validation, replacement and run fence, rolled back whenever the run may not finish |
| FixedPromotion.Validate | internal/ingestionstore/fixed.go:486-492 | Comparing the recorded segments and then each member's staged rows, loop by loop, accepts exactly the loads promotion may publish |
| FixedPublishing.TablesChangeWithSuccess | internal/ingestionstore/fixed.go:404-535 | Final rows and ledger change only in a promotion by the executor that claimed the load's run, while it runs uncancelled, and in the same transaction the run becomes succeeded |
| FixedPublishing.EndedLeavesTables | internal/ingestionrun/repository.go:400-426 | A load whose run ended or is to be cancelled is never published afterwards and becomes the authority of no further date, whatever zombie executors try |
| FixedPublishing.PublishedLoadsSucceeded | internal/ingestionstore/fixed.go:528-534 | In every reachable state the run of a published load has succeeded |
| FixedPublishing.SucceededRunsPublished | internal/ingestionstore/fixed.go:404-535 | Conversely, in every reachable state a succeeded run of the publishing job has a published load that was begun for it |
| FixedOutcomes.RunPublishesExactly | internal/ingestionstore/fixed.go:404-535 | With the runs: a promotion publishes an unpublished load if and only if its executor works on the load's run, which runs uncancelled, and the load is accepted and not superseded |
| RunExecution.ReachKeeps | internal/ingestionrun/repository.go:121-766 | The invariant of runs, executors and publications holds after every interleaving of submissions, claims, heartbeats, cancellations, recoveries, reconciliations and completions |
| RunExecution.SucceededIffPublished | internal/ingestionrun/repository.go:400-426 | A run of a publishing job is succeeded exactly when it was published once, in the same transaction, by the executor that claimed it; otherwise nothing of it was published |
| RunExecution.EndedIsFinal | internal/ingestionrun/repository.go:378-426 | Once a run ended or its cancellation was requested, its end never changes and nothing of it is published any more, whatever executors and the coordinator's later Finish calls do |
| RunExecution.ChildrenInOrder | internal/ingestionrun/repository.go:660-742 | A parent has at most one queued or running child, and all children before it have ended |
| RunExecution.SettledParent | internal/ingestionrun/repository.go:744-766 | A parent that is completed, completed_with_skips, failed or cancelled has all its children, all ended, and its status is their sum; an abandoned parent is excluded, as its children may go on |
| RunEffects.StatusMoves | internal/ingestionrun/repository.go:264-742 | In every reachable state the status of an executable run moves only in the listed ways: queued if its job is enabled and idle, skipped if not, claimed below the limit, ended by its own executor, cancelled on request, abandoned when stale or by hand |
| RunEffects.CancelledNeverSucceeds | internal/ingestionrun/repository.go:557-603 | After a run or its parent was cancelled, a run that had not ended never succeeds and is never queued or started again, in every later state |
| RunEffects.LostCommitIsLearned | internal/ingestionstore/fixed.go:375-402 | An executor that does not hear of its commit learns of it from the run and returns its success |
| RunEffects.WaitingRunCanSucceed | internal/ingestionrun/repository.go:264-426 | From every reachable state a queued run that is claimed within the limit and left alone succeeds, with one publication if its job publishes |
| RunExecution.OneActiveRunPerJob | internal/ingestionrun/repository.go:157-193 | No reachable state has two queued or running runs of one job |
| RunExecution.ClaimRespectsLimit | internal/ingestionrun/repository.go:264-315 | A claim leaves one more running job, and no more than the limit |
| RunSteps.NothingToEnsure | internal/ingestionrun/repository.go:507-555 | The recovery's check and repair of a parent's children finds them canonical and complete in every reachable state |
| RunSteps.ReconcileKeeps | internal/ingestionrun/repository.go:660-742 | Reconciling, by the owner or by anyone, keeps the invariant |
| RunEffects.ReconcileDecides | internal/ingestionrun/repository.go:660-742 | A driven parent without a busy child moves exactly one row: its lowest planned child is queued if and only if its job is enabled and no run of it waits or runs, and skipped otherwise; without planned children the parent ends as the sum of its children, and a cancelled parent ends cancelled |
| RunEffects.ReconcileWaits | internal/ingestionrun/repository.go:660-700 | A parent that is not the caller's, does not run, or has a busy child is left as it is but for its heartbeat |
| RunEffects.RunAllExactly | internal/ingestionrun/repository.go:204-246 | A Run All inserts an owned running parent and one planned child for each job in order, and nothing else |
| RunEffects.SubmitExactly | internal/ingestionrun/repository.go:157-193 | A job of the catalog is queued if and only if no run of it waits or runs |
| RunEffects.RecoverExactly | internal/ingestionrun/repository.go:428-505 | Exactly a running run whose heartbeat is older than the lease is abandoned, or handed over if it is a parent, in every reachable state with no other change |
| RunEffects.AbandonExactly | internal/ingestionrun/repository.go:605-626 | By hand a running run is abandoned if and only if its owner and heartbeat are still those that were seen |
| RunEffects.CancellationExactly | internal/ingestionrun/repository.go:557-603 | A request for an unfinished run cancels what waits and marks what runs, among a parent's children too, and leaves every other row |
| RunSteps.RequestCancellationKeeps | internal/ingestionrun/repository.go:557-603 | Cancelling a run, or a parent with its waiting and running children, keeps the invariant |
| RunSteps.RecoverStaleKeeps | internal/ingestionrun/repository.go:428-505 | Recovering a stale run or taking over a stale parent keeps the invariant |
| RunSteps.RecoverAbandonedKeeps | internal/ingestionrun/repository.go:605-626 | Abandoning a run by hand keeps the invariant |
| RunSteps.FirstPlannedIsLowest | internal/ingestionrun/repository.go:708-742 | The child queued next is the planned one of the lowest position |
| RunRepository.ChangeLowers | internal/coordinator/coordinator.go:517-536 | Every reconciliation that reports a change lowers the planned children plus the running parent |
| RunRepository.NothingAdds | internal/coordinator/coordinator.go:517-536 | No event of anyone else raises that measure, so interference cannot keep the loop going |
| RunRepository.Repository.ReconcileOwnedParent | internal/coordinator/coordinator.go:517-536 | The loop ends, and then the parent is either no longer this owner's or waits for an active child |
| RunRepository.Coordinator.ReconcileParent | internal/coordinator/coordinator.go:517-536 | The same while any events of others happen between its transactions |
| RunRepository.Repository.CreateRunAll | internal/ingestionrun/repository.go:204-246 | Creates the running parent and one planned child per job in catalog order |
| RunRepository.Repository.EnsureRunAllChildren | internal/ingestionrun/repository.go:507-555 | Refuses children that differ from the catalog and inserts exactly the missing ones |
| RunRepository.Repository.Claim | internal/ingestionrun/repository.go:264-315 | Claims a queued run exactly when the limit allows |
| RunExecution.FinishSettles | internal/ingestionrun/repository.go:378-426 | Corollary: goes through only for the owner of a running run, with a success only if no cancellation was requested, and afterwards nobody's finish or heartbeat changes anything |
| RunRepository.Repository.RecoverOneStale | internal/ingestionrun/repository.go:428-505 | Abandons a stale run, or hands a stale parent with its ensured children to the new owner |
| RunRepository.Repository.RequestCancellation | internal/ingestionrun/repository.go:557-603 | Two updates over the children do what one rule per child says |
| RunRepository.Repository.Reconcile | internal/ingestionrun/repository.go:660-742 | Settles the parent, queues or skips the next child, or does nothing, and reports which |
| SessionLane.RunKeeps | internal/fincloud/session_coordinator.go:146-270 | The lane invariant holds after every sequence of acquire, cancel, release, invalidate and close |
| SessionLane.LeasesShareOneSession | internal/fincloud/session_coordinator.go:185-250 | active is the number of unreleased leases, they share one client and session context, and an exclusive lease is alone |
| LaneClients.ClientsKeepTheirContext | internal/fincloud/session_coordinator.go:185-228 | Two waiters that were ever granted the same client asked with the same username, password, role and location, the later one not to be alone; and no later waiter gets an earlier client |
| LaneClients.IdleLaneAnswers | internal/fincloud/session_coordinator.go:185-212 | In every reachable idle open lane who asks is answered at once: with the kept client if they share its context, otherwise with a client nobody had before or the error of making it |
| LaneClients.LastReleaseServes | internal/fincloud/session_coordinator.go:185-250 | When the last lease is given back, the next in line is served by the same rule |
| LaneClients.AnswersAreDeserved | internal/fincloud/session_coordinator.go:185-212 | Nobody is refused in an open lane or without a failed client, and a lease is for what was asked |
| LaneClients.LeasesStay | internal/fincloud/session_coordinator.go:236-270 | A lease ends by its own release alone, whatever else happens to the lane |
| SessionLane.AnsweredOrRemovedOnce | internal/fincloud/session_coordinator.go:146-234 | Every waiter is answered once, waits, or was taken out, never two of these; answers follow arrival order |
| SessionLane.QueueIsBlocked | internal/fincloud/session_coordinator.go:185-270 | A waiter queues only behind live leases it cannot share; a closed lane has no queue, and no client once it is idle |
| SessionLane.GivenUpHoldsNothing | internal/fincloud/session_coordinator.go:146-183 | A caller whose context ended holds no lease and no place in the queue, even if the grant raced it |
| SessionLane.GrantKeeps | internal/fincloud/session_coordinator.go:185-228 | From any consistent lane one grant pass ends with no grantable waiter left |
| SessionLanes.SessionLane.GrantLocked | internal/fincloud/session_coordinator.go:185-228 | The grant loop over the lane's fields |
| SessionLanes.SessionLane.Acquire | internal/fincloud/session_coordinator.go:146-170 | Joins the queue, or is refused by a closed lane |
| SessionLanes.SessionLane.Find | internal/fincloud/session_coordinator.go:172-183 | Finds the waiter's place exactly when it is still queued |
| SessionLanes.SessionLane.Cancel | internal/fincloud/session_coordinator.go:172-183 | Takes a queued waiter out and grants again; tells when it was already answered |
| SessionLanes.SessionLane.Release | internal/fincloud/session_coordinator.go:236-250 | Returns a lease, drops the client of a finished exclusive or closed epoch, and grants again |
| SessionLane.InvalidatedIsRetired | internal/fincloud/session_coordinator.go:252-259 | A client whose session failed is never handed out again: in every later state whoever holds it held it before |
| SessionLanes.SessionLane.Close | internal/fincloud/session_coordinator.go:261-270 | Refuses everyone queued and keeps the running leases |
| Login.OneLoginInFlight | internal/fincloud/client.go:290-334 | At most one caller is logging in, and the generation is the number of successful logins |
| Login.NeverTheStaleSession | internal/fincloud/client.go:237-264 | A caller refused with generation g only ever gets a session of a later generation |
| Login.OneRenewalPerGeneration | internal/fincloud/client.go:237-334 | Any number of concurrent refusals of one generation cost one successful login |
| Login.GenerationNamesSession | internal/fincloud/client.go:290-334 | Callers given the same generation share one session, the one that generation's login made |
| Login.WaitersHaveLogin | internal/fincloud/client.go:290-334 | Who waits waits for a login that some caller is making or that is over |
| Login.LoginServesAll | internal/fincloud/client.go:290-334 | When a login succeeds, its caller and everyone who waited for it get the new session |
| Merge.MergeIsReplacement | internal/ingestionstore/detail.go:422-469 | Delete-missing, refresh, update and insert equal wiping the scope and copying the candidate if and only if rows that compare as unchanged are unchanged |
| Merge.UpdatedAtTellsChange | internal/ingestionstore/detail.go:440-469 | Corollary: updated_at moves on exactly the changed and new rows |
| Merge.ChecksumsTell | internal/ingestion/detail.go:289 | A table is replaced by its candidate, however the database compares columns, if each row and its binary checksum are read and hashed from the same raw data by an injective hash |
| Merge.ExtensionIsReplaced | internal/ingestionstore/detail.go:471-502 | An extension table, after the cascade from its parents, has the candidate's keys, and is the candidate's if and only if every row whose columns compare the same as its candidate's equals it |
| Merge.ChangeOfCaseIsMissed | internal/ingestionstore/detail.go:568-579 | When a name changes from Budi to BUDI, which the collation takes for the same, the parent is updated and the extension keeps the old text |
| Merge.ChildrenAreReplaced | internal/ingestionstore/detail.go:504-557 | A child table, after the cascade, ends up as the candidate's if and only if rows that compare as unchanged are, although only the children of candidate parents are compared |
| Merge.DetailTables.ReconcileDetail | internal/ingestionstore/detail.go:422-557 | One publication leaves the candidate's keys in every table and keeps the foreign keys; each table's rows are the candidate's if and only if rows that compare as unchanged are, by columns and checksum in parents and children and by columns alone in extensions |
| Merge.ReconcileReference | internal/ingestionstore/master.go:340-360 | Publishing one domain replaces its categories and items and leaves the other domains alone |
| Pool.NeverStuck | internal/ingestionexec/executor.go:741-822 | Until a pool, Detail or Fixed, is done some step is possible without anyone cancelling |
| Pool.EveryStepProgresses | internal/ingestionexec/executor.go:741-822 | Every step lowers a measure, so every pool ends |
| Pool.EachItemOnce | internal/ingestionexec/executor.go:741-822 | Each dispatched item is in exactly one place; started is succeeded plus failed plus suppressed, each the number of such results; rows are those of the successes; the first fatal and the first local failure are the ones kept |
| Pool.AllConsumed | internal/ingestionexec/executor.go:741-822 | A finished pool consumed one result per dispatched item, and without cancellation all items |
| Pool.CollectAll | internal/ingestionexec/executor.go:773-822 | The collector loop's counters count what it met, and a fatal error cancels |
| Pool.ConsumeAll | internal/ingestionexec/executor.go:557-593 | The Fixed consumer's counters count what it met, and it cancels exactly when some result failed or some progress was lost |
| Utf8Validator.ChunkingDoesNotMatter | internal/customdataset/storage.go:178-199 | For every byte string and every way of cutting it, all Writes succeed and Complete holds if and only if it is valid UTF-8 by section 4 of RFC 3629, with at most three bytes pending |
| Utf8Validator.ScanIsFaithful | internal/customdataset/storage.go:180-197 | One Write neither accepts what no continuation could make valid nor rejects what some continuation could |
| Utf8Validator.Validator.Write | internal/customdataset/storage.go:180-197 | The decoding loop over pending and new bytes |
| Mfa.MatchIsFreshAndNear | internal/mfa/totp.go:50-68 | Corollary: an accepted counter exceeds the last one, has the given code, and is within one period of the current time |
| MfaEffects.MatchIsExact | internal/mfa/totp.go:50-68 | An input is accepted for a counter if and only if it is six digits, that counter's code, near and new, and the current counter has another code and, for the next one, the previous counter too |
| MfaRuns.RunKeeps | internal/mfa/store.go:95-589 | The store's invariant holds after every run |
| MfaRuns.ChallengesAreSpentOnce | internal/mfa/store.go:256-432 | A challenge is consumed at most once, never has more than five failures, and a session has at most one live challenge |
| MfaRuns.CountersGrow | internal/mfa/store.go:256-489 | For one secret every accepted counter exceeds all earlier ones, also across enrollment and rotation (section 5.2 of RFC 6238) |
| MfaRuns.RecoveryCodesWorkOnce | internal/mfa/store.go:491-505 | No recovery code is ever spent twice |
| MfaRuns.SessionsComeFromChallenges | internal/mfa/store.go:430-453 | Every session was opened by a consumed, verified login or enrollment challenge of its own user, no two by the same |
| MfaEffects.VerifiedExactly | internal/mfa/store.go:256-489 | A challenge is consumed as verified if and only if it is live, answered by an active user from its own session, proved by a code or unused recovery code, and its purpose's condition holds; a wrong answer counts as a failure; anything else changes nothing |
| MfaEffects.FailureIsCounted | internal/mfa/store.go:353-388 | A failure is counted; the fifth ends the challenge and the session it was issued to with all its challenges, and nothing else |
| MfaEffects.LoginOpensSession | internal/mfa/store.go:430-453 | In every reachable state a verified login or enrollment opens exactly one session, for the challenge's own user and for as long as it asked to be remembered, uses up the code, enrolls the new secret with ten new recovery codes, and leaves every other user alone |
| MfaEffects.StepUpMarksSession | internal/mfa/store.go:454-489 | A verified step-up marks its own session and no other |
| MfaEffects.AuthorizingIssuesRotation | internal/mfa/store.go:454-489 | An authorized rotation issues one challenge with a new secret to the same session |
| MfaEffects.RotationReplacesSecret | internal/mfa/store.go:412-489 | A rotation installs the challenge's secret and ten new recovery codes and logs exactly its user out everywhere |
| MfaEffects.RegenerationReplacesCodes | internal/mfa/store.go:454-505 | Regenerating replaces the recovery codes, keeps the secret, and logs exactly its user out everywhere |
| MfaEffects.LoginAsks | internal/mfa/store.go:95-167 | An active user with the right password is asked for a code if enrolled and enrolled otherwise; earlier logins of theirs, and nothing else, are dropped |
| MfaEffects.SessionAsks | internal/mfa/store.go:185-254 | A session is asked for a code if and only if it is valid, its user active, it is not impersonating unless stepping up, and nothing is pending |
| MfaStore.Store.BeginLogin | internal/mfa/store.go:95-128 | Issues a login or enrollment challenge for an active user with the right password |
| MfaStore.Store.Issue | internal/mfa/store.go:130-167 | Issues one challenge with its lifetime and, for enrollment and rotation, a new secret |
| MfaRuns.PendingIsKept | internal/mfa/store.go:185-235 | Corollary: while a session's challenge is pending, asking again for whatever purpose issues no other |
| MfaStore.Store.Verify | internal/mfa/store.go:256-489 | The verification transaction, with failure counting, factor checks and the purpose's effect |
| MfaStore.Store.Match | internal/mfa/totp.go:50-68 | The loop over three counters and the replay check |
| MfaStore.Store.ReplaceRecovery | internal/mfa/store.go:491-505 | Replaces the user's recovery codes by ten new ones |
| MfaRuns.ResetShutsOut | internal/mfa/store.go:531-589 | After a reset no challenge of the user can be answered, none of their sessions is left, their next login has to enroll anew, their recovery codes are gone, and other users keep everything |
| QueryNames.Names | internal/customdataset/csv.go:30-84 | Terminates for every header list; all names are distinct, each is its base or the first free candidate, and an error is returned exactly for the lists the checks refuse |
| QueryNames.Choose | internal/customdataset/csv.go:72-84 | The collision loop ends with the first free candidate, a usable name |
| QueryNames.CandidatesDiffer | internal/customdataset/csv.go:72-91 | Different collision numbers give different candidates, truncation included |
| QueryNames.Pigeonhole | internal/customdataset/csv.go:72-84 | After n tries n different names are taken, so tries are bounded by the names in use |
| QueryNames.BaseIsName | internal/customdataset/csv.go:40-91 | Every base starts with a letter, has letters, digits and underscores only, and at most 64 characters |
| QueryNames.BaseName | internal/customdataset/csv.go:40-71 | The character loop builds that base |
| Batching.HalveKeepsRecords | internal/customdataset/worker.go:364-404 | Recursive halving sends the added records in order, each batch within the packet less its reserve |
| Batching.HalveSucceeds | internal/customdataset/worker.go:364-404 | Halving succeeds exactly when every single record fits |
| Batching.Inserter.Add | internal/customdataset/worker.go:349-362 | Nothing given to the inserter is lost or reordered |
| Batching.Inserter.Flush | internal/customdataset/worker.go:364-404 | A flush sends all pending records in order; a failed one has sent a prefix of them and no more |
| Batching.Inserter.Stage | internal/customdataset/worker.go:140-160 | The statements of a successful staging concatenate to the stream |
| Batching.InsertRows | internal/ingestionstore/sql.go:140-185 | The batches partition the rows in order; each is within the bounds and could not have taken the next row |
| Batching.NextBatch | internal/ingestionstore/sql.go:155-176 | Takes at least one row, and as many as the bounds allow |
| Encodings.ManifestForgetsOnlyOrder | internal/ingestion/fixed.go:64-106 | Two accepted plans have the same manifest encoding if and only if they differ in member order alone |
| Encodings.EncodeManifest | internal/ingestion/fixed.go:64-106 | Sorting and writing field by field yields that encoding, or an error for a plan that is not accepted |
| Encodings.DatasetForgetsOnlyOrder | internal/ingestion/master.go:299-308 | Dataset encodings agree if and only if the entries are the same up to order |
| Encodings.CategoryForgetsOnlyOrder | internal/ingestion/master.go:283-297 | Category encodings agree if and only if the headers agree and the items are the same up to order |
| Encodings.RecordInjective | internal/ingestion/master.go:267-281 | Framed records agree if and only if their fields do |
| Encodings.OrdinalOrder | internal/ingestion/master.go:271-297 | Big-endian numbers of one width sort as bytes like the numbers |
| Encodings.AscendingIsUnique | internal/ingestion/fixed.go:79-98 | A set of entries has one ascending arrangement |
| ReadOnly.ReadOnlyQuery | internal/reporting/readonly.go:57-100 | Terminates and accepts exactly the token lists of the grammar SELECT ... or WITH [RECURSIVE] name [group] AS ( query ), ... SELECT ... |
| ReadOnly.ClosingParen | internal/reporting/readonly.go:102-116 | Returns the one matching parenthesis, or a negative number when there is none |
| ReadOnly.BalancedIffLevel | internal/reporting/readonly.go:17-53 | Counting depth decides exactly the lists that are built by nesting |
| ReadOnly.OneReading | internal/reporting/readonly.go:57-100 | A token list has at most one reading as a common table expression |
| ReadOnly.ValidateReadOnlyStatement | internal/reporting/readonly.go:8-55 | Accepts exactly the harmless, balanced statements the grammar accepts |
| LoginFailures.CallsStayAlike | internal/browserauth/security.go:38-90 | One call on a cleaned and an uncleaned table is answered alike, and leaves them alike if and only if it is not the failure of a new user for whom only the cleaned one has room |
| LoginThrottle.BlockedIsEarned | internal/browserauth/security.go:54-84 | Whoever is blocked failed as often as is allowed within one window, the last time less than a lockout ago, with or without cleanup and whatever other users do |
| LoginThrottle.FailuresBlock | internal/browserauth/security.go:54-84 | A user's first failures within one window block them if and only if they are as many as allowed, and exactly until the lockout after the last one ends |
| LoginFailures.CleanupIsUnobservable | internal/browserauth/security.go:38-90 | As long as no call is of that kind, every call is answered as if nothing were ever cleaned up |
| LoginFailures.FewUsersNeverShow | internal/browserauth/security.go:65-84 | While no more users failed than the table holds, no call is of that kind |
| LoginFailures.LateCallShowsCleanup | internal/browserauth/security.go:38-63 | Out of order: a call that read its time before a lock ended and arrives after a cleanup at its end is let through, and without cleanup it is blocked |
| LoginFailures.FullTableShowsCleanup | internal/browserauth/security.go:38-90 | For every positive limit, window and lockout: a user who fails as often as is allowed and then asks is answered differently with and without cleanup if and only if the first of these calls was of that kind |
| LoginFailures.FullTableIsReached | internal/browserauth/security.go:38-84 | Such a call is reached from the empty table |
| LoginFailures.Throttle.IsBlocked | internal/browserauth/security.go:54-63 | The check, its cleanup and the removal of an expired lock |
| LoginFailures.Throttle.RecordFailure | internal/browserauth/security.go:65-84 | Counting a failure, with the window, the lock and the cap |

## Left out

- FixedStaging.Accepts: leaves out the manifest comparison of promoteTransaction, whose encoding is proved in Encodings; a load whose manifest differs is refused before these checks.
- FixedLedger.PromotedIsFetched: checksums stand for rows only as far as the staging columns do; recomputing row checksums from the report columns is not something the program does at promotion. The period columns of a staging row are those of its load.
- RunRepository.Repository.ReconcileOwnedParent: the loop on the run rows alone, without interference; RunRepository.Coordinator.ReconcileParent is the loop amid others.
- RunRepository.Repository.RecoverOneStale: recovers the run it is given; the order in which a sweep picks runs, its batch size and its log records are not modelled.
- ImportRepository.Repository.Claim: claims the import it is given; which queued import SKIP LOCKED and the ordering pick is left open, so the results hold for every choice.
- ImportRepository.Repository.Submit: takes names as already trimmed, the well-formedness of the submission as a flag, and the upload's status, owner and expiry as one flag.
- ImportRepository.Repository.Ensure: compares columns instead of information_schema, and leaves out the view object and the named lock.
- FixedRepository.Load.StageMemberSegment: leaves out the staging columns of the report itself and the blank check on Journal variants beyond the plan's.
- FixedPlans.BuildFixedDateSeriesPlan: the hashed member key is a function parameter; request parameters and the trimming, sorting and deduplication of the frozen sets are left out, their result is a set of distinct nonblank values.
- Batching.Inserter.Flush: sizes are unbounded integers, and the database's answers are a parameter.
- Batching.InsertRows: the placeholders of the statement text are counted but not written.
- QueryNames.Names: lower-casing works character by character through a parameter, and blankness is a parameter.
- ReadOnly.ValidateReadOnlyStatement: the scanner, the token rules of each SQL mode and the CTE name pattern are parameters; the scanner is not part of this model.
- MfaStore.Store.Verify: token hashes, ciphers and passwords are identities or flags, and the two clock readings of the transaction are one; a pending challenge is not given back to the browser that holds its token, which changes no table.
- MfaRuns.ResetShutsOut: leaves out the checks on the actor of a reset, its permission and its recent verification.
- Merge.DetailTables.ReconcileDetail: the database's comparison of columns is any reflexive relation, one for each table; keys compare exactly, without a collation. A cascading foreign key removes the rows of deleted parents.
- RunExecution.SucceededIffPublished: publication is an entry of a log; FixedPublishing ties it to the final tables of Fixed loads, and nothing here ties the Merge tables to the runs of Detail and Master jobs.
- LoginFailures.CleanupIsUnobservable: needs times that reach the table in order, while concurrent logins read theirs before the lock is taken and a failure counts at the time the login began; LoginFailures.LateCallShowsCleanup is what happens otherwise.
- SessionLanes.SessionLane.Close: one username's lane; the map of lanes, its closing loop and idle connections are left out.
- Login.OneLoginInFlight: the HTTP requests around the locked sections are events.
- Runs are identified by kind, number and position instead of one auto-increment id; job parameters, progress and scheduler references do not affect the properties.
- Maintenance jobs appear only as jobs that do not publish.
- Upload files and their expiry, descriptions, progress columns, audit events, diagnostics and log records are left out: they do not enter the properties.
- SQL text, drivers, lock waits, deadlock retries and DDL syntax are left out; a transaction is one atomic step, and unique indexes are constraints.
- Rows of a dataset's view are taken in row id order.
- HTTP handlers, rendering, configuration, report exports, CSV and decimal parsing, JSON normalisation, field mapping tables, inclusiveDates and the sorting of mapper diagnostics are left out as plumbing or easy members.
