# Verified model of the replays fetcher

The replays fetcher walks the list pages of a replay source, stores each
replay's bytes under their SHA-256, inserts one staging row per replay and
moves a shared checkpoint forward by compare-and-swap, so that an interrupted
run can be resumed. A watcher polls page 1 with two gates that skip replays
already staged. This project models that service in Dafny and proves what its
parts promise, and what they promise together.

Everything the service does not control is a value: which requests fail, and
whether they took effect first, what other runs do to the checkpoint object,
the bucket and the table between two of its requests, how tasks of a
fan-out interleave, clock readings, random draws. Theorems hold for all of them
unless they say otherwise.

| part | modules |
|---|---|
| checkpoint record, merge, CAS write | `Checkpoints`, `CheckpointStore`, `RunCheckpoint` |
| any number of runs over one checkpoint | `RunProtocol`, `SingleWriter`, `ProtocolRefinement`, `RunRefinement` |
| bucket, staging table, fan-out | `RawStorage`, `Staging`, `StagingFacts`, `Payloads`, `Ingest`, `IngestFacts`, `Schedules`, `IngestPage` |
| page loop, whole runs, summary | `PageLoop`, `PageLoopTermination`, `RunOnce`, `RunFacts`, `Summary`, `SummaryFacts`, `SplitRuns`, `Coverage`, `Counterexamples` |
| discovery and the watcher | `DiscoveryDedup`, `Discovery`, `DiscoveryFacts`, `WatchGates`, `WatchLoop`, `WatchFacts` |
| from the source's rows to bucket and table | `EndToEnd` |
| rate machinery | `Throttle`, `Pacing`, `Retry` |
| timestamps | `Calendar`, `Instants`, `TimestampFacts` |

Where the source updates in place, the model does: `CheckpointBucket`,
`S3RawReplayStorage`, `StagingRepository`, `ReplayStores`, `LoopState`,
`PacedSourceClient`, `ThrottleController` and `Pacer` are classes, and their
methods are proved to compute a function of their old state and their script;
the lemmas are about those functions. `RunRefinement.RunIsAHistory` ties a whole
run, from the read it resumes from to its final write, to the step-by-step
protocol: every interference in the run's scripts is a history of other runs,
and with these woven in the run is a history of the protocol, so that what holds
of every history holds of it (`RunStoresSafely` draws one such conclusion).

The `...Facts` modules say what these functions mean to someone who has not read
them: what is listed, downloaded, staged, counted, reported and beaten is told of
the rows, addresses, ids, results and reads that it comes from. `EndToEnd` joins
them: where a run exits 0, the bytes behind every raw URL that a detail page of
its list pages named are stored and have a staging row.

## Promises that the code keeps only under a condition

Each has its exact condition as a lemma. Where it takes a history, a run or a
source to show the failing side, a lemma constructs one.

- The stored cursor does not always advance. A merge result is not handed back
  to the run that merged, so its next page overwrites the merged record
  (`CursorIsNotMonotone`, `MergedWriteIsThenLowered`); a run that finds a
  complete checkpoint starts over by design (`RestartLowersCursor`). These two
  events are the only causes: `PutLowersCursorExactlyWhen` says which PUTs lower
  it, and `CursorAdvancesWithoutThem` that histories with neither never do.
- A run alone over an unreliable store, which may refuse or break any PUT, never
  lowers the cursor after its first effective write, exactly when it does not
  start over behind a complete record of more than one page
  (`CursorNeverDecreasesExactlyWhen`, `RestartLowersAfterWrite`). Its final
  write always leaves a complete record, and that of its own page in every
  history exactly when it starts over behind none
  (`FinalPageIsOwnExactlyWhen`).
- Splitting a run changes its result exactly when it is killed after the
  checkpoint of a page that brought nothing new while the source still lists
  pages after it (`SplitRunEquivalence`, `SplitRunDiffers`).
- `complete` does not mean that the corpus was covered: a crash after a page is
  ingested and before its checkpoint makes the next run stop on that page
  (`CompleteRunCoversExactlyWhen`, `CrashBeforeCheckpointHidesTheRest`,
  `CrashLeavesPagesOut`).
- A corrupt checkpoint is overwritten exactly when writes are unconditional
  (`CorruptObjectIsReplacedExactlyUnconditionally`), and otherwise stays for
  good (`CorruptCheckpointIsForever`).
- A run that merges with its own earlier write leaves the intended record alone
  in every history exactly when its cap allows it no page or the record it
  started from leaves no trace that later pages lack
  (`LaterMergesHarmlessExactlyWhen`); where the server refuses only what it must,
  exactly when that record lists, of the pages that the cap reaches, none beyond
  the next one (`OwnMergesHarmlessExactlyWhen`).
- The gates leave the staging table as it would be without them, in every
  schedule of a cycle, exactly when no row is skipped whose detail page would
  have failed, or nothing that the gated page lists could add a row
  (`GatesPreserveTheTableExactlyWhen`, `GateListsWithinExactlyWhen`).
- Two neighbouring requests can go out together; the next one is sure to keep
  its distance exactly when the last one did not sleep (`NeighboursMayCoincide`,
  `AdjacentGapExactlyWhen`).
- Real dates are rendered exactly outside the years 0 to 99 and within the
  range of time values (`ComponentsAcceptedExactlyWhenReal`). Negative years
  that are in range are accepted too; their text is not ISO, so the read-back
  lemma starts at year 0.

Where code and comments disagree, the model follows the code. The comments at
src/run/ingest-page.ts:102-108 and src/discovery/discover-dedup.ts:27-31 say
that an empty or blank external id is staged under a derived id; the code at
src/staging/payload.ts:42-46 stages it under itself. A rejection of
`classifyExistingStaging` inside `stage` escapes the `catch` around it
(src/staging/postgres-staging-repository.ts:213), which the model shows as a
rejected call.

## Model

| member | source | states |
|---|---|---|
| `Checkpoints.MergeIsLexicographicMaximum` | src/checkpoint/checkpoint.ts:156-220 | A merge is at or above both sides in (page, status rank), and one side is at or above it. |
| `Checkpoints.SamePageKeepsMoreDetermined` | src/checkpoint/checkpoint.ts:141-176 | At the same page the merged status is complete, failed, partial, resumable or running, whichever comes first in that order on either side. |
| `Checkpoints.MergeAssociative` | src/checkpoint/checkpoint.ts:187-220 | Merging is associative on whole records. |
| `Checkpoints.MergeIdempotent` | src/checkpoint/checkpoint.ts:187-220 | Merging a record with itself gives it back. |
| `Checkpoints.MergeCommutesOnProgress` | src/checkpoint/checkpoint.ts:187-220 | On page, status, discovered page and page keys the merge commutes. |
| `Checkpoints.FoldMergeIsJointView` | src/checkpoint/checkpoint.ts:178-220 | Any chain of merges has the outcome fields of the first highest view, the widest range, every page key, and each page as the last view that has it reports it. |
| `Checkpoints.MergeOrderDoesNotMatter` | src/checkpoint/checkpoint.ts:178-220 | Two chains over the same views, in any order and with any repetition, end in the same progress. |
| `CheckpointStore.CheckpointBucket.Put` | src/checkpoint/s3-checkpoint-store.ts:119-161 | A PUT replaces the object exactly when its condition holds and the server applies it, and says so as RFC 9110 has it. |
| `CheckpointStore.CheckpointBucket.Get` | src/checkpoint/s3-checkpoint-store.ts:163-190 | The read throws exactly when the request fails; it yields a record exactly when the answer has a body that parses, then the stored one, and a tag only with a record; anything else reads as nothing. |
| `CheckpointStore.CheckpointBucket.Write` | src/checkpoint/s3-checkpoint-store.ts:192-228 | The CAS loop leaves the object and the outcome that the round-by-round specification gives, others interfering before every request. |
| `CheckpointStore.CallEndsInOneRound` | src/checkpoint/s3-checkpoint-store.ts:197-227 | A call loses rounds one after another until the one it ends in, and what each kind of ending leaves. |
| `CheckpointStore.WriteSucceeds` | src/checkpoint/s3-checkpoint-store.ts:192-228 | A success after k lost rounds stores the fold of merge over the caller's record and the k bodies read, once, in place of exactly the version last read (for k = 0 the one its tag names, or absence). |
| `CheckpointStore.WriteNeverLosesMergedProgress` | src/checkpoint/s3-checkpoint-store.ts:207-219 | What lands is at or above the caller's record, every body read and, for k >= 1, the record it replaces. |
| `CheckpointStore.ConflictWritesNothing` | src/checkpoint/s3-checkpoint-store.ts:223-227 | A conflict error means five lost PUTs, an object only others wrote, and the merged page in the error. |
| `CheckpointStore.AtMostOneEffectivePut` | src/checkpoint/s3-checkpoint-store.ts:199-220 | No call replaces the object twice; one that fails replaced it only by a PUT that failed after taking effect. |
| `CheckpointStore.CorruptObjectIsReplacedExactlyUnconditionally` | src/checkpoint/s3-checkpoint-store.ts:177-181 | Over a corrupt object a call succeeds exactly when writes are unconditional. |
| `RunCheckpoint.AggregatePageCounts` | src/run/run-once-checkpoint.ts:95-110 | The totals are the sums over the page map, whatever order the entries are visited in. |
| `RunProtocol.CursorSafety` | src/run/run-once-checkpoint.ts:189-286 | The cursor-safety invariant holds after every history of any number of runs, from any sound world. |
| `RunProtocol.StoredCheckpointIsSafe` | src/run/run-once-page.ts:147-231 | After any interleaving, with crashes, failed PUTs and merges, conditional or not: the stored page keys are exactly 1..lastCompletedPage, discoveredLastPage equals it, and some run gathered each of those pages. |
| `RunProtocol.NoRunSkipsAPage` | src/run/run-once-checkpoint.ts:28-38 | Every page before the one a run is about to read has been gathered by some run. |
| `RunProtocol.PutLowersCursorExactlyWhen` | src/checkpoint/s3-checkpoint-store.ts:197-221 | In any history a conditional PUT lowers the stored cursor exactly when it is a call's first and its tag, kept through whatever calls threw, comes from a start over a complete record or from an accepted PUT of a record merged beyond the run's page, that record being further on; later rounds never go below what they replace. |
| `RunProtocol.CursorAdvancesWithoutThem` | src/checkpoint/s3-checkpoint-store.ts:192-228 | Among conditional writers, a history in which no run starts over and none merges beyond its page never lowers the stored cursor. |
| `RunProtocol.RestartLowersCursor` | src/run/run-once-checkpoint.ts:130-149 | A run over a complete checkpoint stores page 1 over it. |
| `RunProtocol.MergedWriteIsThenLowered` | src/checkpoint/s3-checkpoint-store.ts:160 | After a merge past its own page, the run's next page lowers the cursor again. |
| `RunProtocol.CursorIsNotMonotone` | src/run/run-once-page.ts:190-207 | Two runs that both write conditionally, and a history in which the stored cursor goes down. |
| `RunProtocol.CorruptCheckpointIsForever` | src/checkpoint/s3-checkpoint-store.ts:177-181 | However many conditional writers follow, a corrupt object is never replaced. |
| `SingleWriter.CursorNeverDecreasesExactlyWhen` | src/run/run-once-checkpoint.ts:219-252 | One writer over PUTs that may be refused or break, with or without effect, at any time: in every history the stored cursor never goes down after its first effective write, exactly when the run does not start over behind a complete record of more than one page. |
| `SingleWriter.RestartLowersAfterWrite` | src/checkpoint/s3-checkpoint-store.ts:207-219 | From such a record, a history that lowers it. |
| `SingleWriter.FinalWriteLeavesComplete` | src/run/run-once-checkpoint.ts:254-286 | A final write that succeeds leaves a complete record, of the run's own page unless it started over behind a later one. |
| `SingleWriter.FinalPageIsOwnExactlyWhen` | src/run/run-once-checkpoint.ts:254-286 | In every history that page is the run's own, exactly when the run does not start over behind a complete record that names a page. |
| `SingleWriter.OwnMergesChangeNothing` | src/checkpoint/s3-checkpoint-store.ts:207-219 | From a tidy start, capped or not, and with a server that refuses only a failing condition or once the object is the run's own, every merge with its own earlier write leaves the intended record as it was. |
| `SingleWriter.OwnMergesHarmlessExactlyWhen` | src/run/run-once-checkpoint.ts:28-38 | For every configuration: that holds in every such history exactly when the record resumed from has no entry, of a page within the cap, beyond the next page. |
| `SingleWriter.LaterMergesHarmlessExactlyWhen` | src/checkpoint/s3-checkpoint-store.ts:207-219 | For every configuration, with refusals at any time: merges with own earlier writes change nothing in every history exactly when the cap allows the run no page or the starting record, if complete, is empty and of page 1 at most, and else has no entry of a page within the cap beyond its own page and a discovered page at most one further. |
| `ProtocolRefinement.LoopIsAHistory` | src/run/run-once-page.ts:131-236 | Whatever other runs do between its requests, the page loop taken whole moves object and run as a history of the protocol does, theirs woven in, and that history gathers every page the loop completes. |
| `ProtocolRefinement.LoopStoresSafely` | src/run/run-once-page.ts:131-236 | So what the loop leaves stored has the page keys 1..lastCompletedPage, and in that history some run gathers each of those pages. |
| `RunRefinement.RunIsAHistory` | src/run/run-once.ts:27-61 | A whole run, its resume read and final write included, moves the object as a history of the protocol does, the others' woven in; the run is over after it, and every page it completed was gathered. |
| `RunRefinement.RunStoresSafely` | src/run/run-once.ts:27-61 | So what a whole run leaves stored has the page keys 1..lastCompletedPage, and in that history some run gathers each of those pages. |
| `RawStorage.S3RawReplayStorage.StoreReplay` | src/storage/s3-raw-storage.ts:72-139 | HEAD, then PUT when missing, others storing in between, leaves what the specification gives. |
| `RawStorage.StoreIsContentAddressed` | src/storage/s3-raw-storage.ts:82-138 | Every object stays under the checksum of its own bytes and none is replaced; a store never conflicts, reports stored or skipped exactly when its requests work, and then the replay is there. |
| `IngestFacts.StoreTells` | src/storage/s3-raw-storage.ts:72-139 | In any bucket: an object of the key with another size or checksum is a conflict and stays; a broken PUT is a failure, though the object may be there. |
| `Staging.StagingRepository.StageReplay` | src/staging/postgres-staging-repository.ts:186-225 | Insert, then look, then classify, others writing before each query, leaves what the specification gives. |
| `Staging.StageRefinesSpec` | src/staging/postgres-staging-repository.ts:129-225 | A fault-free call is, at its insert: staged iff both keys are free, already staged iff the object key is taken, a source-identity conflict iff only the source key is; the two other answers never come out. |
| `Staging.StageReportsTruth` | src/staging/postgres-staging-repository.ts:186-225 | Whatever breaks, staged and already staged mean that a row with that object key is there, and no row is lost. |
| `Staging.InsertKeepsKeysUnique` | src/staging/staging-schema.fixtures.ts:35-36 | An insert that arbitrates on one of the two keys keeps both unique. |
| `StagingFacts.InsertTells` | src/staging/postgres-staging-repository.ts:129-184 | An insert does nothing where a row has the checksum and object key, raises where only system and replay id are taken, and else adds one pending row. |
| `TimestampFacts.TimestampTells` | src/staging/payload.ts:62-109 | Where the id is an epoch in the window, the timestamp is that instant; else, where the six numerals at the filename's start are an acceptable date and time, it reads back to exactly these; else it is the listing's text or absent. |
| `TimestampFacts.StampedNameIsStaged` | src/staging/payload.ts:62-80 | A name stamped with any real date and time of the years 100 to 9999 is staged with that date and time. |
| `Payloads.KnownReplayAddsNoRow` | src/staging/payload.ts:42-46 | A replay that passes the identity check is staged under the very key found, so it adds no row. |
| `Ingest.IngestIsTruthful` | src/run/ingest-page.ts:183-246 | Under any interleaving and faults, rejections that free their limiter slot included, nothing is lost or replaced, both keys stay unique, and what a task reported of bucket and table stays true. |
| `Ingest.AnswerMeetsSpec` | src/staging/postgres-staging-repository.ts:186-225 | The fan-out's atomic stage answer is the one the repository's three-case specification gives. |
| `Ingest.FaultedStageIsAStep` | src/staging/postgres-staging-repository.ts:186-225 | Whatever breaks in it, a repository call is one atomic step of the fan-out at its insert, or a rejection, followed by others' writes. |
| `Ingest.UnfailedPageLands` | src/run/ingest-page.ts:190-227 | A page gathered without a failure has every object stored and a staging key taken for every candidate. |
| `IngestFacts.DownloadsAreTold` | src/storage/store-raw-replay.ts:21-53 | Under any schedule and faults, what a task stored are the bytes served at the candidate's raw URL or, without one, at its page's; where nothing is served there, the fetch failed. |
| `IngestFacts.UnfailedPageStoresWhatIsServed` | src/run/ingest-page.ts:190-227 | A page gathered without a failure has these bytes stored for every candidate, and one of its staging keys for them taken. |
| `IngestFacts.EveryNewRowTells` | src/staging/payload.ts:82-128 | Alone, a fan-out only adds rows, each a pending one with system, replay id, checksum, object key, size and timestamp of one of its candidates and the bytes served for it. |
| `IngestFacts.StageStepAnswers` | src/staging/postgres-staging-repository.ts:186-225 | A stage step gives the answer and the table of its fate; a broken call is a failure whether or not it took effect. |
| `IngestFacts.KnownIsNotDownloaded` | src/run/ingest-page.ts:200-211 | A gated fan-out never downloads a replay whose trusted id is in the table. |
| `IngestFacts.SkippedIsKnown` | src/run/ingest-page.ts:102-118 | What it skips has a trusted id that is in the table. |
| `IngestFacts.TrustedIds` | src/run/ingest-page.ts:102-118 | Absent and blank ids are never trusted, ids with a visible character always. |
| `IngestFacts.LimiterHolds` | src/run/ingest-page.ts:190-193 | Never more tasks than the limit are under way. |
| `Ingest.IngestingAgainAddsNothing` | src/run/run-once-page.ts:209-222 | Ingested again, a landed page stores and stages nothing under any schedule; without faults nothing fails, and alone it leaves bucket and table as they are. |
| `Ingest.FaultlessPageIsUnfailed` | src/run/ingest-page.ts:190-227 | Where every URL is served and no request fails, no candidate fails. |
| `Schedules.EveryPageCanBeGathered` | src/run/ingest-page.ts:190-227 | Whatever the stores hold, some undisturbed schedule within the limiter gathers the page. |
| `IngestPage.ResultsComeInCandidateOrder` | src/run/ingest-page.ts:157-166 | In whatever order tasks settle, the results come out in candidate order. |
| `IngestPage.RethrowProgrammerError` | src/run/ingest-page.ts:147-155 | It throws exactly when some settle was rejected. |
| `IngestPage.GatherPage` | src/run/ingest-page.ts:229-245 | No result on a rejection; otherwise counts and lists are those of the ordered values. |
| `IngestPage.GatheredTasksGiveResult` | src/run/ingest-page.ts:147-166 | Gathered in any order, the promises of finished tasks give no result exactly when a task was rejected, and else the result of the tasks. |
| `PageLoop.LoopState.CompleteOkPage` | src/run/run-once-page-rate.ts:104-146 | One page: fan-out, entry, checkpoint with the tag held, then the tag to carry on with. |
| `PageLoop.LoopState.WritePageCheckpoint` | src/run/run-once-checkpoint.ts:219-252 | A page checkpoint never fails the run; when the write throws, the tag held is kept. |
| `PageLoop.LoopState.RunPageLoop` | src/run/run-once-page.ts:131-236 | The loop ends with the state, stop reason and number of list reads that the recursive specification gives. |
| `PageLoopTermination.AllDuplicateExactlyWhen` | src/run/run-once-page.ts:223-230 | A page ends the run as all-duplicate exactly when no candidate brought anything new and none failed. |
| `PageLoopTermination.LandedPageEndsRun` | src/run/run-once-page.ts:209-230 | A page that has landed ends the run in one read, whatever the source lists after it. |
| `PageLoopTermination.RunReadsAtMostOnePageMore` | src/run/run-once-page.ts:147-231 | Without a cap, over a source that after page N is empty or repeats it without failures, a run makes at most N + 1 list reads from page 1. |
| `RunOnce.AssembleResult` | src/run/run-once-summary.ts:197-264 | The final checkpoint is written exactly for a complete status; result and object are the specified ones. |
| `RunOnce.Execute` | src/run/run-once.ts:27-61 | Resume, loop and result in sequence leave bucket, table, object and result as specified. |
| `RunFacts.RunReportsEveryRead` | src/run/run-once-page.ts:35-50 | The loop's candidates and diagnostics are those of its list reads, in read order, and it stands after as many pages as it read, but for a last read without a page. |
| `RunFacts.SummaryCountsReads` | src/run/summary.ts:184-201 | The summary counts what all reads listed and diagnosed, and nothing skipped by id. |
| `RunFacts.StatusTellsStop` | src/run/summary.ts:256-310 | Complete iff a natural end, truncated iff the cap; where the loop stops on a failing read: resumable iff the first source error that this read reports is rate limited or transient, else partial or failed by whether a page was completed. |
| `RunFacts.SignalsTellReads` | src/run/run-once-page-rate.ts:59-73 | A run gives one clean signal for every page whose fan-out it began, and a rate-limited one exactly when it stopped on a read whose first source error is that. |
| `RunOnce.ExitsZeroExactlyWhenAllLanded` | src/run/summary.ts:512-528 | Exit 0 iff every list read was ok, the loop ended naturally and every candidate ended stored or skipped and staged or already staged; then every listed candidate has its object under its checksum and a row for it. |
| `RunFacts.ExitZeroStoresWhatIsServed` | src/run/summary.ts:416-528 | The result is ok iff all reads were and all results landed; the exit code is 0 or 2; 0 means that of every candidate of every page read the bytes served at its own address are stored and have a row. |
| `EndToEnd.EveryNamedReplayLands` | src/run/run-once.ts:27-61 | Over list pages of rows, exit 0 means that the bytes behind every raw URL that a row's detail page named are stored under their checksum and have a staging row. |
| `EndToEnd.FailedReadDecidesStatus` | src/run/summary.ts:229-310 | A run that stops on a failing list page is resumable iff the failing read of it, list or detail, was rate limited or transient. |
| `RunOnce.RunConserves` | src/run/summary.ts:184-201 | skipped + stored = fetched = conflict + failed + duplicate + staged, and discovered = fetched + the candidates of the page that was not ok. |
| `RunOnce.FinalTotalsAreSummaryTotals` | src/run/run-once-checkpoint.ts:95-110 | The final record's totals are the resumed pages' plus the summary's; on a fresh run they are the summary's. |
| `RunFacts.FinalRecordLands` | src/run/run-once-checkpoint.ts:189-286 | That record, with the run's id, slug, start and write time, page and pages, is the one stored once its write lands without losing a round. |
| `RunFacts.PageRecordLands` | src/run/run-once-checkpoint.ts:189-252 | So is a page's, with its entry of as many discovered candidates as it listed, beside the entries of the pages before. |
| `Summary.CountsConserve` | src/run/summary.ts:184-201 | Both sums of the counts equal the number fetched. |
| `SummaryFacts.CountsTell` | src/run/summary.ts:184-201 | Each count is the number of results that ended in its way. |
| `SummaryFacts.CategoriesTell` | src/run/summary.ts:103-158 | Each failure category is there iff something ended in its way. |
| `SummaryFacts.SourceFailureIsTheFirstError` | src/run/summary.ts:203-272 | A report has a source failure iff it is not ok and carries a source error, and then it is that of the first, with its attempts and class. |
| `Summary.WatchCycleConserves` | src/run/watch-loop.ts:185-208 | In a watch cycle discovered = fetched + skipped by id, and the fetched are conserved. |
| `Summary.NoCategoriesExactlyWhenLanded` | src/run/summary.ts:103-158 | There is no failure category exactly when discovery was ok and every result landed. |
| `SplitRuns.EverySourceIsACorpus` | src/run/run-once-page.ts:147-160 | Any source whose pages can be read has such a deterministic, undisturbed ingest. |
| `SplitRuns.EveryEndIsReached` | src/run/run-once-page.ts:131-236 | Wherever a source ends for a run, there is a run that ends there and writes its final checkpoint. |
| `SplitRuns.SplitRunEquivalence` | src/run/run-once-page.ts:131-236 | A chain of interrupted runs ends with the same bucket, table, page, page map, totals and complete status as one run iff no run was killed on an all-duplicate page that others follow. |
| `Coverage.AllDuplicateExactlyWhenLanded` | src/run/run-once-page.ts:223-230 | Served, alone and without faults, a page is all-duplicate exactly when all of it had landed. |
| `Coverage.CompleteRunCoversExactlyWhen` | src/run/run-once-page.ts:209-230 | Whether the source is empty after page n, repeats it or goes on: a complete record names page n or a later one exactly when no page before n had landed when the run came to it; where the source ends there, no later one. |
| `Coverage.CrashBeforeCheckpointHidesTheRest` | src/run/run-once-page.ts:223-230 | After a crash between ingest and checkpoint, the next run reads one page and reports complete, whatever is listed behind it. |
| `Counterexamples.SplitRunDiffers` | src/run/run-once-page.ts:209-230 | A source whose page 2 repeats page 1: the run killed after page 2's checkpoint and resumed ends elsewhere than the whole one. |
| `Counterexamples.CrashLeavesPagesOut` | src/run/run-once-page.ts:223-230 | Over that source of three pages, a run after a crash on page 1 leaves a complete record of page 1. |
| `DiscoveryDedup.CollectCandidateDiagnostics` | src/discovery/discover-dedup.ts:68-131 | The loop with its map and set gives the first occurrences, and per candidate a duplicate_filename iff the name came before and a changed_metadata iff also the id did with other metadata. |
| `DiscoveryDedup.OutputIsFirstOccurrences` | src/discovery/discover-dedup.ts:119-122 | The output is the subsequence of first occurrences of the input. |
| `DiscoveryDedup.OutputKeepsEachOnce` | src/discovery/discover-dedup.ts:119-122 | Nothing comes out twice and nothing is lost. |
| `DiscoveryDedup.DuplicatesAreCounted` | src/discovery/discover-dedup.ts:82-97 | The number of duplicate_filename diagnostics is inputs minus distinct filenames. |
| `DiscoveryFacts.WarningsTell` | src/discovery/discover-dedup.ts:50-117 | A candidate is warned of iff its name came before, and of changed metadata iff its name and id did with other metadata, each with the number of different candidates before it. |
| `Discovery.DiscoverRows` | src/discovery/discover-dedup.ts:160-242 | The row loop gives the specified page and makes one request per detail page asked for. |
| `DiscoveryFacts.ListedPageTellsRows` | src/discovery/discover-candidate.ts:159-217 | A page lists, in the rows' order and each once, of every row with a link that is not skipped the file its detail page names, the raw URL of it, and the row's link, id, page and metadata; and nothing else. |
| `DiscoveryFacts.ListedPageWarns` | src/discovery/discover-dedup.ts:182-233 | Its diagnostics are those of rows without a link, of rows without a name, and of repeated names, with the evidence of each. |
| `DiscoveryFacts.FixtureTells` | src/discovery/discover-dedup.ts:134-158 | A fixture gives its well-formed entries, and one warning with its index for each malformed one. |
| `Discovery.EveryRowIsOneThing` | src/discovery/discover-dedup.ts:182-233 | Each row is skipped, malformed, without a filename or found, never two; skipped and malformed rows cost no request. |
| `Discovery.PacedSourceClient.FetchText` | src/discovery/discover.ts:43-64 | It waits once between two requests when the delay is positive, and never otherwise. |
| `Discovery.DiscoverReplaysDryRun` | src/discovery/discover.ts:66-135 | The report is the specified one, and with a positive delay the call sleeps exactly requests - 1 times. |
| `DiscoveryFacts.DiscoverReports` | src/discovery/discover.ts:66-135 | A report has the candidates, warnings and skips of the pages up to the first that fails, in order, and then the error of that read with its page, attempts and URL. |
| `DiscoveryFacts.OkReportOnlyWarns` | src/discovery/discover.ts:107-135 | A report that is ok carries no error; one that is not has one, the last. |
| `WatchGates.GateDropsOnlyKnown` | src/discovery/discover-dedup.ts:40-48 | Of any list page, readable, failing or a fixture, the pre-detail gate drops only candidates whose source identity is in the table. |
| `WatchGates.GateListsWithinExactlyWhen` | src/discovery/discover-dedup.ts:160-242 | What the gated page lists the ungated one lists too, exactly when no skipped row's detail page would have failed; otherwise the ungated page lists nothing. |
| `WatchGates.RunKnownTask` | src/run/ingest-page.ts:200-211 | Run to its end without the gate, a known replay adds no row and fits the limiter. |
| `WatchGates.GatesPreserveTheTable` | src/run/ingest-page.ts:190-227 | Every schedule of a gated cycle whose lookups answer, over a list read of any kind, with failing requests and rejected tasks, has an ungated one with the same writes by others, in which every task finishes too, rejected ones in both or neither, and which leaves the same table and at least the same objects. |
| `WatchGates.GatesPreserveTheTableExactlyWhen` | src/discovery/discover-dedup.ts:160-242 | In every schedule the same table can come about without the gates, exactly when no skipped row's detail page would have failed or none of the listed candidates can add a row. |
| `WatchLoop.RunWatchLoop` | src/run/watch-loop.ts:248-284 | The loop runs, beats, fails and sleeps as specified, and each cycle waits as the reading of the one before it asks. |
| `WatchFacts.BeatsExactlyForGoodCycles` | src/run/watch-loop.ts:255-270 | The heartbeats are exactly the cycles run whose discovery did not throw, whose candidates were all gathered and whose heartbeat was written; the failures are the others. |
| `WatchFacts.BadCycleDoesNotBeat` | src/run/watch-loop.ts:255-270 | A cycle with a broken lookup or a rejected task leaves no heartbeat. |
| `WatchLoop.WatchGoesOnUntilStopped` | src/run/watch-loop.ts:255-281 | Only the stop checks end the loop; every cycle is a heartbeat or a failure, all but perhaps the last are followed by a sleep, nothing is lost. |
| `WatchLoop.GatesPreserveTheTableForever` | src/run/watch-loop.ts:166-284 | Over any number of cycles, with failing list reads, fixtures, failing lookups and rejected tasks, a watcher without gates, every task of whose fan-outs finishes and beside which the others write the same, could have left the same table in as many cycles and sleeps; with the same heartbeats and failures where no lookup failed. |
| `Throttle.ThrottleController.OnRateLimited` | src/source/throttle.ts:73-85 | The next state after a rate-limited signal. |
| `Throttle.ThrottleController.OnCleanWindow` | src/source/throttle.ts:86-97 | The next state after a clean signal. |
| `Throttle.ThrottleClosedForm` | src/source/throttle.ts:51-99 | Over maximal blocks of equal signals, block by block: k rate-limited ones give max(floor, c div 2^(k div 2)), k clean ones min(max, c + k div 3), and the pacing floor is base + 100 per halving. |
| `Throttle.ThrottleAfterAnyWord` | src/source/throttle.ts:51-99 | Every signal word has such blocks, so that is the state after any word. |
| `Throttle.RunSignals` | src/run/run-once-page-rate.ts:59-73 | A run gives one clean signal per page and at most one rate-limited one, the last. |
| `Throttle.CapStaysConfigured` | src/run/run-once-page.ts:103-114 | So the limiter's cap is the configured concurrency on every page of every run. |
| `Pacing.Pacer.AwaitFloor` | src/source/pacing.ts:42-54 | It sleeps what is left of the spacing since the last reading, and records its own reading. |
| `Pacing.DispatchesTwoApart` | src/source/pacing.ts:36-57 | Dispatches two apart are at least a spacing apart. |
| `Pacing.PacingBound` | src/source/pacing.ts:36-57 | The n-th dispatch comes at least floor(n/2) spacings after the first, and ceil(n/2) after the first reading. |
| `Pacing.PacingBoundIsAttained` | src/source/pacing.ts:36-57 | Both bounds are attained for every spacing and n. |
| `Pacing.AdjacentGapExactlyWhen` | src/source/pacing.ts:44-53 | The next request is sure to be a spacing later exactly when the last one went out at its reading. |
| `Pacing.NeighboursMayCoincide` | src/source/pacing.ts:44-53 | Two neighbours that go out together. |
| `Retry.FullJitterDelay` | src/source/backoff.ts:32-43 | The delay is the whole part of the draw's share of min(500 * 2^round, 30000). |
| `Retry.CappedDelayDoubles` | src/source/backoff.ts:32-43 | The bounds are 500, 1000, 2000, 4000, 8000 and 16000, and 30000 from then on. |
| `Retry.EveryDelayIsDrawn` | src/source/backoff.ts:32-43 | Every whole delay below the bound comes of some draw. |
| `Retry.ResolveDelay` | src/source/retry.ts:129-141 | The delay is the backoff, or, for a rate-limited failure, what Retry-After asks where that is more, at most 30000. |
| `Retry.WithRetry` | src/source/retry.ts:146-179 | At most attempts + 1 reads, events numbered 1..reads - 1 unless aborted, no read after a permanent failure or an abort. |
| `Retry.RetryDelaysAreBounded` | src/source/retry.ts:129-141 | Every delay is within 30000 ms; transient failures alone wait at most the sum of min(500 * 2^i, 30000). |
| `Calendar.FieldsOfTimeOf` | src/time/components-to-utc-iso.ts:27-37 | Reading the fields of a real date and time back gives them. |
| `Calendar.TimeOfFieldsOf` | src/time/epoch-to-utc-iso.ts:41 | Every whole second is the time of its fields. |
| `Calendar.LaterSecondsHaveLaterFields` | src/time/epoch-to-utc-iso.ts:41 | The order of field tuples is the order of time values. |
| `Instants.ComponentsAcceptedExactlyWhenReal` | src/time/components-to-utc-iso.ts:23-42 | For all integers: accepted iff a real date and time, outside years 0..99 and within the range of time values. |
| `Instants.RealDatesAreInRange` | src/time/components-to-utc-iso.ts:23-42 | From year 100 to 275759 that range excludes nothing. |
| `Instants.ComponentsReadBack` | src/time/components-to-utc-iso.ts:41 | The accepted string's fields are exactly the inputs. |
| `TimestampFacts.RenderedHasForm` | src/time/components-to-utc-iso.ts:41 | A rendered date and time of a four-digit year is YYYY-MM-DDTHH:MM:SS.000Z, position by position. |
| `Instants.EpochAcceptedExactlyWhenCanonical` | src/time/epoch-to-utc-iso.ts:21-42 | Accepted iff the canonical decimal of a second in [1420070400, 2051222400]. |
| `Instants.EpochReadsBack` | src/time/epoch-to-utc-iso.ts:26-41 | Reading the rendered fields back gives the same second. |
| `Instants.LaterEpochsRenderLater` | src/time/epoch-to-utc-iso.ts:26-41 | Later seconds render to lexicographically later strings. |

## Left out

- SplitRuns.SplitRunEquivalence: list reads of the fixed source either give its page or fail; cuts inside a page are in `Coverage` and `Counterexamples`, not in this chain.
- WatchGates.GatesPreserveTheTable: the detail page of a row that the gate skips is taken to be readable, here and over a whole watch; `GatesPreserveTheTableExactlyWhen` says when a cycle in which it is not changes what is staged.
- HTTP, SSH, AWS SDK and pg clients, abort plumbing and timers: steps that succeed, fail, or fail after taking effect.
- SHA-256 and entity tags: a digest carries the bytes and a tag the body and a salt, so both are injective by construction.
- JSON and Zod: a stored body is a record or the one unparseable value; printing a record and parsing it back is the identity.
- Page keys of the checkpoint are numbers; keys that no writer produces (hand-edited, non-decimal) are not modelled.
- A source id that happens to spell a derived id is kept apart from derived ids.
- Candidates are compared by value, where the code compares their JSON text; key order never differs within one discovery path.
- HTML extraction, fixture sniffing and URL resolution: rows, fixture entries and page URLs are inputs.
- Evidence store and file, logging, heartbeat body, connectivity checks, configuration and CLI.
- Page rates, ETA and per-minute figures, which only report.
- promotion_evidence, conflict details, sanitised URLs and timestamps of fetch: they take no part in any decision.
- The order of failure categories: they are a set here.
- Which error ends a process: a rejected fan-out, a crash and a kill all read as the process ending there.
- classifyFailure and parseRetryAfter: the failure kind and the parsed value are inputs.
- Backoff between CAS rounds only waits, so the write loop has no clock.
- Digit strings that exceed the range of a double read as exact integers; both readings lie outside the accepted window.
