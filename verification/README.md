# Verified model of the transcription service

The service turns uploaded or linked recordings into transcripts. A job runs as a DAG of
sub-jobs on independent workers; it can be retried, reaped, cancelled and deleted while workers
of an earlier attempt are still running. Four stores are shared: a central generation counter, a
context hash and a progress hash in Redis, and the job's row in SQLite. This project models that
protocol, and the smaller algorithms around it, in Dafny and proves what they promise.
`dafny verify dfyconfig.toml` checks everything. Nothing here executes the service.

## How the model is laid out

- `RedisGates` is the fine level: each Lua script or Redis command is one atomic step on the keys
  of one job, and the gating theorems are about every interleaving of those steps. `RedisStore`
  holds the same scripts as methods that update the keys in place, each proved equal to its step.
- `PipelineDag` builds the DAG; `Confluence` shows that the schedule does not matter.
- `AttemptProtocol` is the coarse level: one job's row, keys, sub-jobs of every attempt and reaper
  passes in flight, with nineteen kinds of step that may come in any enabled order.
  `AttemptInvariant` proves an inductive invariant, `AttemptTheorems` draws the conclusions, for
  one job and for any number of them; `AttemptOutcomes` says what the callbacks leave behind in all
  stores at once, `AttemptEffects` what each step records, column by column, and
  `AttemptProvenance` whose transcript a job completes with. `Dispatcher` has the callbacks as they
  are written, proved to perform exactly those steps.
- `JobTable` has the retry and delete routes, with arbitrary writes of other processes at every
  await; `Reaper` one reaper pass statement by statement, and overlapping passes.
- `Throttle`, `ProgressBands`, `LlmCorrection`, `Text`, `ExportUtils`, `SrtExport`, `VttExport`,
  `BatchZip`, `RateLimit` and `Sessions` model one source file or component each.

Code that updates state in place is a class whose methods are proved against functions on
values; the lemmas are about those functions.

## Assumptions the code relies on

- On the coarse level each callback, each report with its SQLite mirror and each enqueue is one
  step. In the code the `update_job` of an accepted report (`src/whisper_ui/worker/runtime.py:196-238`)
  can be delayed past another process's terminal write; that interleaving is not covered.
- Marking a job FAILED and the bump that follows are one step, so Redis does not fail at that bump.
  `AttemptOutcomes.LostBumpWouldResurrect` says what would go wrong otherwise. Redis may fail at the
  terminal write and at the cleanup of a callback; if it fails at the callback's first reads, the
  callback is lost, which is a step of its own.
- A sub-job fires at most one callback and writes nothing after it.
  `AttemptTheorems.CompletedCanBeDemoted` says what would go wrong otherwise.
- An enqueue succeeds entirely or queues nothing, and one request at a time enqueues a job (the
  claim guarantees this for retries).
- The generation counter does not expire, except where a property says that it may.
- The ungated hooks write only `source_url`, `download_dir` and `input_path`; provenance claims
  leave those three keys out.
- Less than the stale timeout passes between a claim (or insert) and the end of its enqueue, and
  between a reaper pass's listing and its UPDATE, as long as the request or the pass is alive (the
  guard of the step `Tick`). Either may die at any point (the steps `RequestDies` and `PassEnds`),
  and time then goes on without limit.
- Loading a job and promoting it to PROCESSING is one step, and so is the read and write of a
  share token.
- The row found for a login carries the submitted username up to case (`RateLimit.FoundByName`).
- User administration requests, and login attempts as far as the counters go, are handled one at
  a time; between reading the row and issuing the cookie of a login anything may happen.

Time, progress and weights are exact integers or reals, strings are sequences of characters,
cookies are unforgeable, and passwords, pickled values, transcripts' text and the stages
themselves are uninterpreted.

## Where code and documentation disagree

- `src/whisper_ui/export/utils.py:38-40` says that escaping `>` keeps `-->` from surviving in any
  form. It survives in `<v a-->`: the voice tag's own closing bracket completes a name that ends
  in two dashes. `VttExport.ArrowSurvivesExactlyWhen` and `VttExport.OnlyTimingLinesExactlyWhen`
  give the exact condition.
- `src/whisper_ui/worker/pipeline_callbacks.py:81-85` says that three gates must agree on one rule,
  while `src/whisper_ui/worker/context_store.py:92-99` says that one of them is an equality gate on
  purpose. Both hold: on reachable states the verdicts coincide, on arbitrary ones they need not
  (`RedisGates.GatesAgreeWhenReachable`, `RedisGates.GatesAgreeExactly`).
- `src/whisper_ui/web/rate_limit.py:98-99` describes a maximum per window. The window starts at the
  first failure, so an interval of that length can hold `2 * max - 1` failures; the bound is tight,
  and `RateLimit.AtMostMaxExactlyWhen` says when the plain reading is true.
- The throttle bounds writes that land. Calls below zero keep the reporter in its first-call state
  and are each written (`Throttle.NegativeCallsAreAllWritten`), hence the extra term in
  `Throttle.WriteBound`; for calls at zero or above the term vanishes.
- JSON `true` and `false` pass the integer check of `_parse_response` as 1 and 0; the model follows
  the code.

## Model

| member | source | states |
|---|---|---|
| `RedisGates.StaleWritersNeverLand` | src/whisper_ui/worker/progress.py:105-142 | Once the counter is at g, deleting every gated write of an earlier generation from any interleaving, wherever it falls (the gap between delete and reseed included), leaves the same store; each such write is refused and changes neither hash |
| `RedisGates.CounterNeverFalls` | src/whisper_ui/worker/pipeline_dispatcher.py:108-118 | Without expiry the counter never drops below a value it has had |
| `RedisGates.ReachableBounded` | src/whisper_ui/worker/progress.py:144-153 | In every run of legal steps the generation embedded in the progress hash is one the counter has handed out |
| `RedisGates.GatesAgreeWhenReachable` | src/whisper_ui/worker/pipeline_callbacks.py:73-89 | On every reachable store report, terminal, stage-output and callback gates accept a handed-out generation in the same case: when it is the latest |
| `RedisGates.GatesAgreeExactly` | src/whisper_ui/worker/context_store.py:92-118 | For an arbitrary store, the exact condition under which the four differently written gates agree |
| `RedisGates.ContextProvenance` | src/whisper_ui/worker/context_store.py:155-226 | From the moment attempt g clears the context until the next bump, every field outside the three hook keys is g's seed or an output written by a stage of g |
| `RedisGates.CounterFixed` | src/whisper_ui/worker/context_store.py:131-139 | Between two bumps nothing moves the counter |
| `RedisGates.EmbeddedNeverFalls` | src/whisper_ui/worker/progress.py:166-185 | In one lifetime of the progress hash no script lowers the embedded generation, even if the counter expires at any moment |
| `RedisGates.InterleavedReportsKeepMaximum` | src/whisper_ui/worker/progress.py:113-154 | While reports of one generation interleave from any reporters (with late older ones and counter expiry mixed in), the stored progress is the maximum of the start and all reports, the message the latest |
| `RedisGates.MaxReportedIsMaximum` | src/whisper_ui/worker/progress.py:144-152 | That maximum is an upper bound of the start and every report, and is one of them |
| `RedisGates.ReportWrites` | src/whisper_ui/worker/progress.py:85-154 | Field by field: a report is refused behind the counter or the embedded generation, takes the hash over with a newer one and otherwise keeps the larger progress; result path, error and all other keys stay |
| `RedisGates.TerminalWrites` | src/whisper_ui/worker/progress.py:166-235 | Field by field what a success and a failure leave in the hash, with their texts cut to 500 and 1000 characters, and when they are refused |
| `RedisGates.ContextWrites` | src/whisper_ui/worker/context_store.py:106-128 | A stage write lands when the counter is missing or equal; given keys take their new values, the others stay |
| `RedisGates.UnknownIsNeverStale` | src/whisper_ui/worker/pipeline_callbacks.py:73-89 | A callback or a counter without a generation is never stale |
| `RedisGates.CounterCountsBumps` | src/whisper_ui/worker/pipeline_dispatcher.py:108-118 | Without expiry the counter is the number of bumps so far |
| `RedisStore.JobKeys.Report` | src/whisper_ui/worker/progress.py:85-154 | The four-branch script updates the hash in place exactly as the step function the gating theorems are about; an unreachable Redis is DEGRADED and changes nothing |
| `RedisStore.JobKeys.GateRejects` | src/whisper_ui/worker/progress.py:166-181 | The terminal gate: strictly behind the counter or behind the embedded generation |
| `RedisStore.JobKeys.Complete` | src/whisper_ui/worker/progress.py:189-211 | Terminal write of a success: whole new state, refusal, and the accepted answer during an outage |
| `RedisStore.JobKeys.Fail` | src/whisper_ui/worker/progress.py:214-235 | Terminal write of a failure: whole new state with truncated texts |
| `RedisStore.JobKeys.UpdateIfGenerationMatches` | src/whisper_ui/worker/context_store.py:106-128 | The equality gate: merges the updates, or refuses and leaves all keys alone |
| `RedisStore.JobKeys.Update` | src/whisper_ui/worker/context_store.py:183-198 | The ungated write of the hooks merges its keys and nothing else |
| `RedisStore.JobKeys.Initialize` | src/whisper_ui/worker/context_store.py:155-167 | Replaces the context and leaves the counter and the progress hash |
| `RedisStore.JobKeys.BumpGeneration` | src/whisper_ui/worker/pipeline_dispatcher.py:108-118 | INCR, a missing counter counting as zero |
| `RedisStore.JobKeys.BeginAttempt` | src/whisper_ui/worker/pipeline_dispatcher.py:272-297 | The whole enqueue preamble equals the sequence bump, delete, seed, clear, initialize |
| `RedisStore.EnqueueEffect` | src/whisper_ui/worker/pipeline_dispatcher.py:272-297 | That sequence, undisturbed, leaves exactly the new generation, a fresh queued hash and the new seed, whatever was there before |
| `PipelineDag.BuildDag` | src/whisper_ui/worker/pipeline_dispatcher.py:317-368 | The enqueue calls build, for all eight shapes, the list with the declared dependencies and final flag |
| `PipelineDag.OneSuccessCallback` | src/whisper_ui/worker/pipeline_dispatcher.py:336-368 | Each stage of the shape appears once; exactly one sub-job, the last, carries the success callback |
| `PipelineDag.DagPositions` | src/whisper_ui/worker/pipeline_dispatcher.py:338-365 | Enqueue order is a topological order: dependencies are in the list, earlier |
| `PipelineDag.TailDominates` | src/whisper_ui/worker/pipeline_dispatcher.py:350-368 | A dependency-closed set with the tail holds every stage: the tail runs only after all others |
| `Confluence.EveryScheduleAgrees` | src/whisper_ui/worker/stage_tasks.py:262-293 | For any DAG whose unordered stages write disjoint keys and do not read each other's, every complete schedule, with loads and commits interleaved at will, ends in the context of the sequential execution |
| `Confluence.SnapshotIsReference` | src/whisper_ui/worker/stage_tasks.py:262-293 | A stage that may start sees, on the keys it looks at, what the sequential execution would show it |
| `Confluence.FinishCommits` | src/whisper_ui/worker/stage_tasks.py:262-293 | A finishing stage commits exactly the declared keys of its result, computed from the keys it could see when it started |
| `Confluence.InOrderIsASchedule` | src/whisper_ui/worker/pipeline_dispatcher.py:317-368 | The sequential reference is itself a schedule, so the theorem is not about nothing |
| `Confluence.ShapesIndependent` | src/whisper_ui/worker/stage_tasks.py:391-532 | Every shape the dispatcher builds satisfies that hypothesis with the declared output keys |
| `Confluence.UnorderedExactly` | src/whisper_ui/worker/pipeline_dispatcher.py:344-356 | Diarization is unordered with transcription, and no other two stages are |
| `Confluence.EveryReadIsProvided` | src/whisper_ui/worker/stage_tasks.py:391-532 | Every key a stage reads is seeded or an output of a stage it waits for, the diarization result aside when diarization is off |
| `Confluence.PipelineIsDeterministic` | src/whisper_ui/worker/pipeline_dispatcher.py:317-368 | For every shape and whatever the stages compute, any two complete schedules give the same context |
| `AttemptTheorems.AtMostOneTerminalStatus` | src/whisper_ui/worker/pipeline_dispatcher.py:396-667 | In every run with any retries, zombie siblings, reaper passes and outages, and with requests and passes that die at any point, no attempt commits more than one terminal status |
| `AttemptTheorems.TerminalRowIsKept` | src/whisper_ui/worker/runtime.py:196-238 | Every step but a claimed retry and a delete keeps status and result_path of a terminal row, although accepted mirrors rewrite whole rows |
| `AttemptTheorems.CompletedUntilDeleted` | src/whisper_ui/storage/database.py:294-318 | A COMPLETED row keeps status and result_path in every later state until a delete, and does not come back |
| `AttemptTheorems.DeletedWasTerminal` | src/whisper_ui/storage/database.py:461-475 | Over whole runs, a row that is gone was removed by a delete that found it terminal, never while QUEUED or PROCESSING |
| `AttemptTheorems.ClaimsBoundedByFailures` | src/whisper_ui/storage/database.py:443-459 | Successful claims never exceed entries into FAILED; attempts never exceed claims plus the first enqueue |
| `AttemptTheorems.ReapedAttemptIsFenced` | src/whisper_ui/worker/pipeline_dispatcher.py:743-770 | A reaper UPDATE only hits an attempt the counter has already passed |
| `AttemptTheorems.OnePassRecovers` | src/whisper_ui/worker/pipeline_dispatcher.py:730-735 | A row untouched for longer than the timeout is made FAILED by one pass that gets through, whoever died before |
| `AttemptTheorems.StrandedIsReachable` | src/whisper_ui/worker/pipeline_dispatcher.py:730-735 | Such rows come about: a request that dies after its insert, then a pass that bumps and dies, and any time after that |
| `AttemptTheorems.CommittedAttemptIsOver` | src/whisper_ui/worker/pipeline_dispatcher.py:648-667 | An attempt with a terminal status is fenced by the counter or has no sub-job left that could write |
| `AttemptTheorems.CompletedCanBeDemoted` | src/whisper_ui/worker/pipeline_dispatcher.py:610-647 | There is a reachable COMPLETED state in which one more failure callback of the same attempt would turn the row FAILED: why one callback per sub-job is assumed |
| `AttemptTheorems.JobsDoNotInterfere` | src/whisper_ui/worker/pipeline_dispatcher.py:235-254 | In any mixture of jobs each is where its own steps alone would have taken it |
| `AttemptTheorems.EveryJobIsReachable` | src/whisper_ui/storage/database.py:131-136 | Hence the single-job theorems hold for every job of every mixed run |
| `AttemptTheorems.CompletionIsReachable` | src/whisper_ui/worker/pipeline_dispatcher.py:487-552 | A run that ends COMPLETED exists for any seed, transcript and path |
| `AttemptOutcomes.SuccessCallbackOutcome` | src/whisper_ui/worker/pipeline_dispatcher.py:487-552 | A superseded callback changes no store; the latest attempt's ends it, COMPLETED exactly when a transcript is there and could be saved, under the path it was saved at. The row says so whether or not Redis answers; the progress hash agrees and the context is gone exactly as far as it does |
| `AttemptOutcomes.FailureCallbackOutcome` | src/whisper_ui/worker/pipeline_dispatcher.py:555-667 | The same for failures: only the optional tail with a transcript may end COMPLETED and leaves the counter; every other failure ends FAILED and is fenced by the bump, with the hash and the context following as far as Redis answers; with SQLite down at most the context goes |
| `AttemptOutcomes.LostBumpWouldResurrect` | src/whisper_ui/worker/pipeline_dispatcher.py:656-662 | Why marking FAILED and bumping count as one step: without the bump a running sibling's report takes the FAILED row back to PROCESSING, with it the report is refused |
| `AttemptOutcomes.RowsAreAlwaysOk` | src/whisper_ui/storage/database.py:294-318 | In every state of every run a COMPLETED row has a result, a FAILED row an error, and an active row no result, however stale the writers of whole rows |
| `AttemptEffects.SuccessRecords` | src/whisper_ui/worker/pipeline_dispatcher.py:487-552 | The latest attempt's success callback, column by column: a saved transcript sets progress 1, the message of the normal end, the path and the context's quality warning (none if it has none); a broken save or a missing transcript leaves FAILED with its reason cut to 1000 and 200 characters; the hash gets the same end |
| `AttemptEffects.FailureRecords` | src/whisper_ui/worker/pipeline_dispatcher.py:555-667 | The same for the failure callback: the salvage branch completes with its own message and the context's warning; any other failure records its error and keeps every other column |
| `AttemptEffects.FailureCancels` | src/whisper_ui/worker/pipeline_callbacks.py:161-180 | Of the failing sub-job's siblings those that obey and have not returned end cancelled; every other sub-job of any attempt stays as it is |
| `AttemptEffects.StartRecords` | src/whisper_ui/worker/stage_tasks.py:98-121 | A stage start promotes a QUEUED row and no other, and the stage holds the row as its snapshot |
| `AttemptEffects.FinishRecords` | src/whisper_ui/worker/stage_tasks.py:262-293 | A stage's outputs land key by key exactly when its attempt is the latest generation, and touch neither row nor hash |
| `AttemptEffects.RefusedReportRecords` | src/whisper_ui/worker/runtime.py:196-212 | A report of an attempt that is not the latest changes nothing |
| `AttemptEffects.AcceptedReportRecords` | src/whisper_ui/worker/runtime.py:196-238 | One of the latest attempt is mirrored with all columns of the stage's snapshot |
| `AttemptEffects.DegradedReportRecords` | src/whisper_ui/worker/runtime.py:196-238 | One made while Redis is out changes progress, message and time of the row alone |
| `AttemptEffects.EnqueueRecords` | src/whisper_ui/worker/pipeline_dispatcher.py:272-297 | An enqueue leaves the next generation, a fresh hash, the seed alone, every stage of the shape waiting, and earlier attempts untouched |
| `AttemptEffects.ClaimRecords` | src/whisper_ui/storage/database.py:443-459 | A claim resets status, error, progress, message and path of a FAILED row and keeps its warning and share token |
| `AttemptEffects.EnqueueFailsRecords` | src/whisper_ui/web/validation.py:84-94 | A refused enqueue writes the snapshot of its request back as FAILED with the fixed message; counter, hash and context as far as the enqueue got |
| `AttemptEffects.RequestDiesRecords` | src/whisper_ui/worker/pipeline_dispatcher.py:272-276 | A request that dies leaves the row as it was and at most one bump |
| `AttemptEffects.ReapUpdateRecords` | src/whisper_ui/storage/database.py:219-292 | The UPDATE fails a row exactly when it is QUEUED or PROCESSING and older than the timeout, and changes nothing else of it |
| `AttemptEffects.ReaperTouchesOnlyOld` | src/whisper_ui/storage/database.py:197-217 | Only an active row older than the timeout is ever listed; listing, bumping and dying passes leave the row alone |
| `AttemptEffects.ShareRecords` | src/whisper_ui/web/routes/viewer.py:160-190 | Sharing and unsharing change the token and time of a row and nothing else |
| `AttemptEffects.TalliesExactly` | src/whisper_ui/storage/database.py:443-459 | Claims, enqueues and entries into FAILED are counted exactly when they happen, as read off the rows before and after a step |
| `AttemptEffects.CommitsExactly` | src/whisper_ui/worker/pipeline_dispatcher.py:396-667 | A commit is counted exactly when a step ends a row that was not over, for the attempt the row belongs to |
| `AttemptEffects.NoDeadlock` | src/whisper_ui/worker/pipeline_dispatcher.py:317-368 | While a sub-job of an attempt has not ended, some sub-job of it can take its next step, however stages and callbacks turn out, unless one failed or was cancelled for good |
| `AttemptProvenance.CompletedWithOwnTranscript` | src/whisper_ui/worker/pipeline_dispatcher.py:487-552 | In every run only a callback completes a job, and with a transcript that the attempt it belongs to was given by its own stages or seed, never with that of an earlier attempt |
| `AttemptProvenance.GivenByItsTail` | src/whisper_ui/worker/stage_tasks.py:499-532 | With seeds that hold no transcript it is an output of that attempt's postprocess or llm_correction |
| `AttemptProvenance.ContextIsOwn` | src/whisper_ui/worker/context_store.py:106-128 | In every run, while the latest attempt owns the counter, each context value outside the hook keys is its own seed or an output one of its stages returned |
| `AttemptInvariant.InvAfter` | src/whisper_ui/worker/pipeline_dispatcher.py:235-667 | The inductive invariant behind these theorems holds after every run |
| `AttemptInvariant.InvStep` | src/whisper_ui/worker/pipeline_dispatcher.py:235-770 | Each of the nineteen kinds of step keeps it |
| `AttemptInvariant.TailStartsLast` | src/whisper_ui/worker/pipeline_dispatcher.py:336-368 | Once the tail has started, every other sub-job of its attempt has settled successfully |
| `AttemptInvariant.AcceptedIsLive` | src/whisper_ui/worker/progress.py:113-154 | A report that Redis accepts comes from the attempt that owns the row |
| `AttemptInvariant.PersistKeeps` | src/whisper_ui/worker/pipeline_dispatcher.py:396-465 | Saving a transcript, failing to save it, losing SQLite, or losing Redis at the terminal write or cleanup: all keep the invariant |
| `AttemptInvariant.FinalizeFailureKeeps` | src/whisper_ui/worker/pipeline_dispatcher.py:555-667 | So does the failure callback on all its branches (stale, salvage, cancel-fail-bump) |
| `AttemptInvariant.CancelKeeps` | src/whisper_ui/worker/pipeline_callbacks.py:124-180 | So does cancelling any subset of the siblings, the rest running on |
| `AttemptInvariant.ReapUpdateKeeps` | src/whisper_ui/storage/database.py:219-292 | So does the reaper UPDATE, which may come after an arbitrary delay shorter than the timeout |
| `Dispatcher.JobProcess.MarkFailed` | src/whisper_ui/worker/pipeline_callbacks.py:116-121 | Row first, then the gated terminal write if Redis answers: whole new state |
| `Dispatcher.JobProcess.PersistCompletion` | src/whisper_ui/worker/pipeline_dispatcher.py:396-465 | The three outcomes of saving, with Redis answering or not at the terminal write and the cleanup, each with its whole new state |
| `Dispatcher.JobProcess.IsStale` | src/whisper_ui/worker/pipeline_callbacks.py:73-89 | Only a strictly older generation is stale; unknown ones are not |
| `Dispatcher.JobProcess.FinalizeSuccess` | src/whisper_ui/worker/pipeline_dispatcher.py:487-552 | The callback performs exactly the protocol step, early returns and Redis outages included |
| `Dispatcher.JobProcess.FinalizeFailure` | src/whisper_ui/worker/pipeline_dispatcher.py:555-667 | The callback performs exactly the protocol step on every branch, with SQLite up or down and Redis outages included |
| `Dispatcher.JobProcess.FailAndBump` | src/whisper_ui/worker/pipeline_dispatcher.py:649-668 | The failing branch: mark, bump, and the cleanup that happens either way |
| `Dispatcher.JobProcess.CancelRemainingSubjobs` | src/whisper_ui/worker/pipeline_callbacks.py:161-180 | The loop stops exactly the obeying siblings and never the excluded one |
| `Dispatcher.JobProcess.ReportAndMirror` | src/whisper_ui/worker/runtime.py:196-238 | REJECTED touches neither job nor row, DEGRADED only the progress columns, ACCEPTED the whole row |
| `JobTable.ClaimsNeedFailures` | src/whisper_ui/storage/database.py:443-459 | Over any log of writes by anybody, the claims of a job never exceed its entries into FAILED |
| `JobTable.DeletedWasTerminal` | src/whisper_ui/storage/database.py:461-475 | Over any log of writes by anybody, a row that is gone was removed by a delete that found it terminal |
| `JobTable.RetryAndDeleteExclude` | src/whisper_ui/web/routes/jobs.py:471-498 | Of a retry and a delete that both saw FAILED, whichever statement comes second does nothing |
| `JobTable.RetriesNeedFailures` | src/whisper_ui/web/routes/jobs.py:182-213 | Pipelines this process re-enqueues for a job never outnumber the entries of its row into FAILED |
| `JobTable.RemovedWasDeleted` | src/whisper_ui/web/routes/jobs.py:312-327 | Every job reported as deleted had its row removed by a delete that found it terminal at that moment |
| `JobTable.BulkSucceedsOnOwned` | src/whisper_ui/web/routes/jobs.py:296-323 | A bulk action succeeds only on requested ids the user owns |
| `JobTable.StatementsExactly` | src/whisper_ui/storage/database.py:443-475 | What each conditional statement makes of every row of the table |
| `JobTable.BulkOneExactly` | src/whisper_ui/web/routes/jobs.py:293-327 | One id of a bulk action succeeds if and only if its row is owned and fits at the check and again at the statement, and a retry is taken by the queue |
| `JobTable.RetryOneExactly` | src/whisper_ui/web/routes/jobs.py:182-213 | A lost claim leaves the table as the others made it; a refused enqueue puts the reset snapshot back as FAILED with its message; an accepted one leaves the claimed row |
| `JobTable.QuietDeleteExactly` | src/whisper_ui/web/routes/jobs.py:312-327 | Undisturbed, a bulk delete removes exactly the requested, owned and ended rows, FAILED and COMPLETED alike |
| `JobTable.QuietRetryExactly` | src/whisper_ui/web/routes/jobs.py:293-311 | Undisturbed, a bulk retry requeues exactly the requested, owned and FAILED rows |
| `JobTable.Table.TryClaimRetry` | src/whisper_ui/storage/database.py:443-459 | True exactly when the row was FAILED at the UPDATE; the row is then reset |
| `JobTable.Table.DeleteTerminalJob` | src/whisper_ui/storage/database.py:461-475 | True exactly when the row was terminal at the DELETE |
| `JobTable.Table.ResetAndEnqueueRetry` | src/whisper_ui/web/routes/jobs.py:182-213 | With arbitrary writes of others at both awaits: the claim decides, and a refused enqueue writes FAILED with every column of the snapshot read before the first await |
| `JobTable.Table.DeleteAndReclaim` | src/whisper_ui/web/routes/jobs.py:471-498 | Row first and conditional; others may write before and after |
| `JobTable.Table.BulkRetry` | src/whisper_ui/web/routes/jobs.py:293-311 | Final table, pipelines handed over and both counts, for any interference |
| `JobTable.Table.BulkDelete` | src/whisper_ui/web/routes/jobs.py:312-327 | Final table, removed rows and both counts, for any interference |
| `JobTable.Table.RetryBatch` | src/whisper_ui/web/routes/jobs.py:509-530 | Goes by listed rows, yet only claimed jobs are enqueued and counted |
| `Reaper.StaleReaper.RecoverStalePipelineJobs` | src/whisper_ui/worker/pipeline_dispatcher.py:713-763 | For any candidates, any writes of others before the UPDATE and any point of failure (probe, refresh, bump, UPDATE): the pass fails a row only if it is still stale, its probe found nothing live and its counter was bumped; it leaves spared rows alone and re-arms both their keys; a Redis error leaves all rows, and up to the last refresh all counters, unchanged; each way to fail has its cause |
| `Reaper.StaleReaper.IsPipelineDead` | src/whisper_ui/worker/pipeline_dispatcher.py:670-710 | Dead means no live sub-job and no unanswered one; not dead means a live one; an error is never a verdict |
| `Reaper.StaleReaper.RefreshPipelineStateTtl` | src/whisper_ui/worker/pipeline_dispatcher.py:146-160 | Re-arms both keys, or nothing when the counter is gone; an unanswered command ends it where it stands |
| `Reaper.StaleReaper.RecoverStaleJobs` | src/whisper_ui/storage/database.py:219-292 | Fails exactly the listed rows that are still active and stale, and counts them |
| `Reaper.StaleReaper.ListStaleActiveJobIds` | src/whisper_ui/storage/database.py:197-217 | Exactly the stale active rows, each once |
| `Reaper.StaleReaper.BumpAll` | src/whisper_ui/worker/pipeline_dispatcher.py:760-762 | Bumps each dead job once, others never |
| `Reaper.DeadExactlyWhen` | src/whisper_ui/worker/pipeline_dispatcher.py:690-710 | The verdict of a probe in the queue's own four live statuses |
| `Reaper.UpdateExactly` | src/whisper_ui/storage/database.py:256-270 | Column by column, over the whole table: listed, QUEUED or PROCESSING and older than the threshold becomes FAILED; a younger or ended row is untouched |
| `Reaper.UpdateIsTheProtocolStep` | src/whisper_ui/storage/database.py:219-292 | On each job's row the UPDATE is the protocol's reap step, taken under its independently written guard |
| `Reaper.ReportsAddUp` | src/whisper_ui/storage/database.py:219-240 | With any interleaving of UPDATEs and other writes and no retry in between, the reported counts add up to the number of distinct rows failed |
| `Reaper.FailedAreTheNewlyFailed` | src/whisper_ui/storage/database.py:219-240 | With only UPDATEs, those rows are exactly the ones whose status turned from active to FAILED |
| `Throttle.ThrottledReporter.Report` | src/whisper_ui/worker/runtime.py:166-194 | The regression guard, the force rule, the two thresholds and the REJECTED case: whole new memory and whether anything was mirrored |
| `Throttle.WrittenNeverRewinds` | src/whisper_ui/worker/runtime.py:174-185 | Once a non-negative value has been written no lower one ever is |
| `Throttle.WrittenExactlyWhenDue` | src/whisper_ui/worker/runtime.py:166-194 | After any calls the next one is written if and only if it is let through, does not fall below the last written one, and is first, follows a negative value, changes the message, completes, gains the minimum or comes late enough |
| `Throttle.CompletionIsWritten` | src/whisper_ui/worker/runtime.py:187-194 | A report of 1.0 that Redis lets through is always the last element written |
| `Throttle.WriteBound` | src/whisper_ui/worker/runtime.py:156-194 | Over any calls with a non-decreasing clock: writes are at most 1 + negative calls + message changes + calls at 1.0 or above + progress gained / min_delta + time elapsed / min_interval |
| `Throttle.LedgerCounts` | src/whisper_ui/worker/runtime.py:166-194 | The terms of the bound are the numbers of calls below zero, of completing calls and of message changes |
| `Throttle.NegativeCallsAreAllWritten` | src/whisper_ui/worker/runtime.py:187-194 | k calls below zero that Redis lets through are k writes, so the bound needs its term for them |
| `Throttle.EveryWriteIsPaidFor` | src/whisper_ui/worker/runtime.py:187-194 | The potential: each write is charged to the reason that let it through |
| `Throttle.RefusedReporterIsNotThrottled` | src/whisper_ui/worker/runtime.py:196-212 | The bound covers writes that land: a reporter whose reports are all refused sends every one |
| `ProgressBands.StageList` | src/whisper_ui/pipeline/progress_bands.py:54-69 | The appended list for each of the eight flag settings |
| `ProgressBands.StagesAreProper` | src/whisper_ui/pipeline/progress_bands.py:26-69 | Every such list is non-empty with distinct names and positive weights |
| `ProgressBands.Bands` | src/whisper_ui/pipeline/progress_bands.py:71-79 | The loop computes the dictionary of rounded shares |
| `ProgressBands.EveryStageHasItsBand` | src/whisper_ui/pipeline/progress_bands.py:71-79 | With distinct names no stage overwrites another's band |
| `ProgressBands.BandsAreShares` | src/whisper_ui/pipeline/progress_bands.py:71-79 | Each band runs between the rounded shares of the total weight before and with its stage |
| `ProgressBands.StagesAre` | src/whisper_ui/pipeline/progress_bands.py:26-69 | The weights of each of the eight shapes in order |
| `ProgressBands.BandsTile` | src/whisper_ui/pipeline/progress_bands.py:71-79 | For any distinct stages, positive weights and monotone rounding fixing 0 and 1, the bands tile [0, 1] |
| `ProgressBands.BarNeverFalls` | src/whisper_ui/worker/stage_tasks.py:124-142 | A sequential run with non-decreasing local progress shows non-decreasing global progress within [0, 1] |
| `ProgressBands.BarRunsFromZeroToOne` | src/whisper_ui/worker/stage_tasks.py:124-142 | It starts at 0 and ends at 1 |
| `ProgressBands.Round4IsARounding` | src/whisper_ui/pipeline/progress_bands.py:77-78 | Rounding half-even to four places is monotone and fixes 0 and 1 |
| `LlmCorrection.BuildChunks` | src/whisper_ui/pipeline/llm_correction.py:241-257 | The loop builds the chunk list of the specification, for any size above 0 and any context |
| `LlmCorrection.ChunksTile` | src/whisper_ui/pipeline/llm_correction.py:241-257 | Edit ranges tile [0, n) in order; contexts are at most `context` long, in bounds, outside the range, and show original texts |
| `LlmCorrection.ChunkShowsExactly` | src/whisper_ui/pipeline/llm_correction.py:241-257 | Every chunk shows exactly its range and the nearest `context` segments on either side, as far as there are any |
| `LlmCorrection.TilesDisjoint` | src/whisper_ui/pipeline/llm_correction.py:241-257 | An index lies in at most one edit range |
| `LlmCorrection.TilesCover` | src/whisper_ui/pipeline/llm_correction.py:241-257 | ... and in at least one |
| `LlmCorrection.ParseResponse` | src/whisper_ui/pipeline/llm_correction.py:291-322 | Accepts exactly the well-formed answers whose index set is the expected one, the last entry of an index winning |
| `LlmCorrection.AcceptedExactlyWhen` | src/whisper_ui/pipeline/llm_correction.py:291-322 | On the JSON alone: an answer is accepted if and only if each element is about an expected index and each expected index is mentioned |
| `LlmCorrection.NothingListedNothingAccepted` | src/whisper_ui/pipeline/llm_correction.py:291-322 | An answer without an array under "segments" is never accepted |
| `LlmCorrection.TextsAreLastWords` | src/whisper_ui/pipeline/llm_correction.py:291-322 | Each accepted text is the string under "text" of the last element whose "idx" denotes its index |
| `LlmCorrection.GoodAnswerIsTaken` | src/whisper_ui/pipeline/llm_correction.py:291-322 | An answer that says one text about each expected index, in any order, is accepted with exactly those texts |
| `LlmCorrection.GoodAnswerCorrectsItsChunk` | src/whisper_ui/pipeline/llm_correction.py:194-199 | ... and puts exactly those texts on the segments of its chunk |
| `LlmCorrection.ApplyCorrections` | src/whisper_ui/pipeline/llm_correction.py:271-274 | In place: only listed segments in range, and only their text |
| `LlmCorrection.CorrectChunk` | src/whisper_ui/pipeline/llm_correction.py:194-199 | One request: the chunk is edited iff the answer is accepted |
| `LlmCorrection.Execute` | src/whisper_ui/pipeline/llm_correction.py:160-226 | Skip conditions, transcript, failed chunks in order, every report, and the early exit on the death penalty |
| `LlmCorrection.ClosingSays` | src/whisper_ui/pipeline/llm_correction.py:218-225 | The closing report is at 1.0 and says skipped when every chunk failed, degraded with both counts when some did, and done when none did |
| `LlmCorrection.ChunkIsAllOrNothing` | src/whisper_ui/pipeline/llm_correction.py:194-215 | For arbitrary answers each chunk is wholly corrected or wholly untouched; times and speakers survive |
| `LlmCorrection.OrderDoesNotMatter` | src/whisper_ui/pipeline/llm_correction.py:190-226 | Any order that handles every chunk gives the same transcript |
| `ExportUtils.TimestampReadsBack` | src/whisper_ui/export/utils.py:21-32 | Parsing a time stamp gives floor(1000 * max(0, t)) milliseconds |
| `ExportUtils.FieldsAddUp` | src/whisper_ui/export/utils.py:28-32 | Hours, minutes, seconds and milliseconds are in range and add up |
| `ExportUtils.CollapseIsSpaced` | src/whisper_ui/export/utils.py:56-67 | Joining the lines by spaces equals replacing every break (CR LF once) by one space, a final break vanishing |
| `ExportUtils.NeutralizedHasNoArrow` | src/whisper_ui/export/utils.py:47-53 | No arrow is left, and a text without one is not touched |
| `ExportUtils.NeutralizedIsJoined` | src/whisper_ui/export/utils.py:47-53 | Any text is its pieces joined by arrows, and neutralising joins the same pieces by "→" |
| `ExportUtils.PiecesHoldNoArrow` | src/whisper_ui/export/utils.py:47-53 | Those pieces are the ones between all arrows: none holds one |
| `ExportUtils.BreaksAre` | src/whisper_ui/export/utils.py:56-67 | The ten characters that end a line |
| `ExportUtils.CollapseLine` | src/whisper_ui/export/utils.py:56-67 | Collapsing a text means its first line, then a space and the rest collapsed |
| `ExportUtils.SanitisedIsSafe` | src/whisper_ui/export/srt.py:11-13 | An SRT text line is one line without the arrow |
| `SrtExport.Export` | src/whisper_ui/export/srt.py:25-32 | The loop prints the joined four-line blocks |
| `SrtExport.FourLinesEach` | src/whisper_ui/export/srt.py:25-32 | For every non-empty transcript: four lines a segment, and exactly the timing lines hold the arrow |
| `SrtExport.PlainWordsAreKept` | src/whisper_ui/export/srt.py:11-13 | Without break and arrow the line is exactly "[" speaker "] " text, or the text |
| `SrtExport.RoundTrip` | src/whisper_ui/export/srt.py:11-32 | A fixed parser recovers of every segment its number, both times and its words: the bracketed speaker, if any, and the text, "→" between the pieces that arrows separated, on one line |
| `VttExport.EscapeIsPerCharacter` | src/whisper_ui/export/utils.py:35-44 | The three chained replaces are one per-character map |
| `VttExport.EscapeRoundTrip` | src/whisper_ui/export/utils.py:35-44 | Decoding the entities of an escaped text gives it back |
| `VttExport.CollapseCommutes` | src/whisper_ui/export/vtt.py:11-15 | Escaping and collapsing line breaks commute |
| `VttExport.PayloadIsSafe` | src/whisper_ui/export/vtt.py:11-15 | A payload is one line whose only angle brackets are those of its single voice tag |
| `VttExport.PayloadReadsBack` | src/whisper_ui/export/vtt.py:11-15 | Reading a payload gives back speaker and text up to their line breaks |
| `VttExport.ArrowSurvivesExactlyWhen` | src/whisper_ui/export/utils.py:35-44 | The arrow survives in a payload if and only if the speaker's name ends in two dashes |
| `VttExport.ArrowCanSurvive` | src/whisper_ui/export/utils.py:38-40 | It survives in the payload of the speaker "a--", against the helper's documentation |
| `VttExport.Export` | src/whisper_ui/export/vtt.py:27-33 | The loop prints the header and the joined three-line blocks |
| `VttExport.FileShape` | src/whisper_ui/export/vtt.py:27-33 | The file is the header and, for each segment in order, a timing line, its payload and an empty line |
| `VttExport.RoundTrip` | src/whisper_ui/export/vtt.py:11-33 | For every transcript a fixed parser recovers both times, the voice and the text |
| `VttExport.OnlyTimingLinesExactlyWhen` | src/whisper_ui/export/vtt.py:27-33 | Exactly the timing lines of a file hold the arrow if and only if no speaker ends in two dashes |
| `Text.SplitUndoesJoin` | src/whisper_ui/export/srt.py:32 | Splitting on the separator undoes joining separator-free lines |
| `BatchZip.FreeName` | src/whisper_ui/web/batch_zip.py:56-61 | The collision loop takes the first free candidate after at most used + 1 names |
| `BatchZip.TriedFit` | src/whisper_ui/web/batch_zip.py:59-61 | Pigeonhole: candidates all taken are at most the names in use |
| `BatchZip.CandidateInjective` | src/whisper_ui/web/batch_zip.py:60 | Different counters give different names |
| `BatchZip.CreateBatchZip` | src/whisper_ui/web/batch_zip.py:45-65 | Exactly one entry per completed job with a loadable result, in order; None only if there is none; an exporter that raises loses the whole archive |
| `BatchZip.ExportableIsLoadable` | src/whisper_ui/web/batch_zip.py:47-52 | The jobs that get an entry are exactly the completed and loadable ones, each as often as it is listed |
| `BatchZip.NamesAreDistinct` | src/whisper_ui/web/batch_zip.py:47-62 | No two entries share a name |
| `BatchZip.ArchiveIsUnique` | src/whisper_ui/web/batch_zip.py:47-65 | Jobs, results and format determine the archive |
| `BatchZip.EntryBaseExactly` | src/whisper_ui/web/batch_zip.py:15-33 | The base of an entry character by character: leading dots and spaces go, each separator becomes an underscore, and the job id stands in for a link or an empty rest |
| `BatchZip.SecondCandidate` | src/whisper_ui/web/batch_zip.py:56-61 | A taken "talk.srt" becomes "talk (1).srt" |
| `BatchZip.UploadBaseIsFlat` | src/whisper_ui/web/batch_zip.py:15-33 | The base of an upload is the job id, or holds no separator and starts with no dot or space |
| `RateLimit.RateLimiter.CheckAndIncrement` | src/whisper_ui/web/rate_limit.py:104-147 | Both counters move by INCR with EXPIRE NX, the verdict is the lock, and an outage fails open |
| `RateLimit.RateLimiter.IsLocked` | src/whisper_ui/web/rate_limit.py:164-186 | Reads without consuming |
| `RateLimit.RateLimiter.ResetUser` | src/whisper_ui/web/rate_limit.py:227-240 | Clears the user counter only; an outage clears nothing |
| `RateLimit.AttemptExactly` | src/whisper_ui/web/routes/auth_routes.py:166-217 | An attempt is let through if and only if both its counters stand below their limits; then a failure counts both up under the stored name, a success clears the account, and a deactivated account changes nothing |
| `Text.LoweredExactly` | src/whisper_ui/web/rate_limit.py:51-52 | Two names share a counter if and only if they agree up to the case of their letters |
| `RateLimit.FailuresPerWindow` | src/whisper_ui/web/routes/auth_routes.py:174-204 | Any half-open interval of window length holds at most 2 * max - 1 recorded failures of one IP |
| `RateLimit.FailuresAreSpread` | src/whisper_ui/web/rate_limit.py:104-110 | Any 2 * max consecutive failures span at least one window |
| `RateLimit.BoundIsAttained` | src/whisper_ui/web/rate_limit.py:94-99 | The bound is tight for all thresholds |
| `RateLimit.AtMostMaxExactlyWhen` | src/whisper_ui/web/rate_limit.py:98-99 | "At most max failures per window" holds of every run if and only if max is at most one (or logins are locked altogether), for windows of two seconds or more |
| `RateLimit.LockLastsOneWindow` | src/whisper_ui/web/rate_limit.py:89-91 | For both the account and the IP key: once the failures since its last reset or expiry fill the counter, it reads full, whatever is attempted meanwhile, until exactly one window after the first of them, which all of them precede |
| `RateLimit.CounterRecordsOpenFailures` | src/whisper_ui/web/rate_limit.py:104-110 | Either counter is exactly the number of failures since its last reset or expiry, and expires one window after the first of them |
| `RateLimit.FullCounterStays` | src/whisper_ui/web/rate_limit.py:164-186 | While a counter is full and its window open, no attempt moves or resets it |
| `RateLimit.SuccessResetsTheAccount` | src/whisper_ui/web/routes/auth_routes.py:214-217 | A login that succeeds empties the account's counter and leaves the IP's |
| `Sessions.UsersRepo.CreateUser` | src/whisper_ui/storage/users_repo.py:73-101 | Appends an active row of version 0 unless the name is taken up to case |
| `Sessions.UsersRepo.SetPassword` | src/whisper_ui/storage/users_repo.py:172-181 | New hash and a bumped version, for that row only |
| `Sessions.UsersRepo.SetActive` | src/whisper_ui/storage/users_repo.py:184-208 | Deactivation bumps, activation does not, the last active admin is refused |
| `Sessions.UsersRepo.SetAdmin` | src/whisper_ui/storage/users_repo.py:211-227 | The flag only, the last active admin is refused |
| `Sessions.UsersRepo.Resolve` | src/whisper_ui/web/auth.py:204-236 | A session is kept iff its user exists, is active and has the same version |
| `Sessions.OperationsExactly` | src/whisper_ui/storage/users_repo.py:172-227 | What password, active flag and admin flag changes make of their row, and that no other row moves |
| `Sessions.RegisterExactly` | src/whisper_ui/web/routes/auth_routes.py:310-356 | Who may register, whether as an administrator, and the row and cookie that result |
| `Sessions.LoginExactly` | src/whisper_ui/web/routes/auth_routes.py:174-218 | A login issues a cookie for the row and version it read, exactly when that row was active and the password verified |
| `Sessions.EarlierSessionsStayRevoked` | src/whisper_ui/web/routes/auth_routes.py:214-215 | After a password change or deactivation, no cookie issued before it, nor one issued later by a login that had already read the row, is accepted in any later state, reactivation included |
| `Sessions.AcceptedExactlyWhen` | src/whisper_ui/web/auth.py:204-236 | A current cookie is accepted later exactly while the account is active and unrevoked |
| `Sessions.VersionCountsRevocations` | src/whisper_ui/storage/users_repo.py:172-208 | A row's version counts its password changes and unrefused deactivations |
| `Sessions.RunGrows` | src/whisper_ui/storage/users_repo.py:172-208 | Over every run rows stay, keep their names, and session_version never decreases |
| `Sessions.EveryRunKeepsInv` | src/whisper_ui/web/routes/auth_routes.py:174-218 | In every run no cookie and no pending login is ahead of its row, and names stay distinct up to case |
| `Sessions.AnAdminRemains` | src/whisper_ui/storage/users_repo.py:184-227 | Once there is an active admin there always is one |
| `Sessions.RefusedExactlyWhen` | src/whisper_ui/storage/users_repo.py:196-222 | A deactivation or demotion is refused exactly when it would leave no active admin where there is one |
| `Sessions.BootstrapIsOver` | src/whisper_ui/web/routes/auth_routes.py:310-356 | From then on no registration creates an admin |

## Left out

- `LlmCorrection.Execute`: the death penalty strikes while a request is under way, not between two
  assignments of one chunk's corrections.
- `Throttle.WriteBound`: carries a term for calls below zero, which the code writes unconditionally.
- `Reaper.StaleReaper.ListStaleActiveJobIds`: does not state the order of the listing, which only
  serves the logs.
- `LlmCorrection.ApplyCorrections`: visits the corrections in any order instead of insertion order;
  the result is the same.
- `BatchZip.CreateBatchZip`: the bytes of an entry are the loaded result itself.
- `RateLimit.FailuresPerWindow`: one failure's pair of increments is one step; Redis outages only
  make the code record less.
- `Dispatcher.JobProcess.FinalizeSuccess`: like the failure callback, for a sub-job that carries a
  generation, as every enqueued one does.
- Partial enqueue failure, a counter that expires and is then bumped by a retry, and a retry between
  `mark_failed` and the bump: outside the assumptions, and nothing is claimed about them.
- `adjust_subjob_timeouts`: rewrites queue timeouts and touches no shared state of the protocol.
- The register counters: one INCR with EXPIRE NX, as in the login counters.
- The single retry, single delete and batch delete routes: the loop bodies of the bulk routes.
- Retention sweep, re-transcription, uploads: they insert rows or delete terminal ones, which the
  protocol's insert and delete steps cover.
- TTLs other than as events, and key refreshes outside the reaper.
- Speech, alignment, diarization, media tools and downloads: uninterpreted functions of the keys
  they read.
- Queue internals beyond sub-job status, dependencies, cancel and one callback per sub-job.
- HTTP routing, templates, CSRF, redirects, labels, logging, metrics, settings, URL validation and
  password hashing.
- DOCX, TXT and JSON exporters and the dictionary conversions: single-pass copies.
- Floating-point rounding of timestamps and progress, `tostring` in Lua, and Unicode beyond single
  characters (lower-casing is ASCII, encoding to UTF-8 is not modelled).
