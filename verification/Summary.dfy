/** The run summary: counts, failure categories, status and exit code. */
module Summary {
  import opened Wrappers
  import opened RawStorage
  import opened Staging
  import opened Payloads
  import opened Ingest
  import opened IngestPage
  import opened Checkpoints

  datatype DiagnosticCode =
    | MalformedRow | MissingFilename | DuplicateFilename | ChangedMetadata
    | SourceUnavailable | SourceTransient | SourceRateLimited

  datatype Diagnostic = Diagnostic(
    code: DiagnosticCode, isError: bool, attempts: Option<nat>, candidateIndex: Option<nat>,
    externalId: Option<string>, page: Option<nat>, sourceUrl: string)

  datatype DiscoveryReport = DiscoveryReport(
    ok: bool, candidates: seq<Candidate>, diagnostics: seq<Diagnostic>, skippedPreDetail: nat)

  // ----- Counts -----

  datatype RunSummaryCounts = RunSummaryCounts(
    conflict: nat, diagnostics: nat, discovered: nat, duplicate: nat, failed: nat, fetched: nat,
    skipped: nat, skippedBySourceId: nat, skippedPreDetail: nat, staged: nat, stored: nat)

  predicate StagingIsConflict(result: StagingResult) {
    result.StagingConflict?
  }

  predicate StagingIsDuplicate(result: StagingResult) {
    result.AlreadyStaged?
  }

  predicate StagingIsNotStageable(result: StagingResult) {
    result.NotStageable?
  }

  function CountRun(report: DiscoveryReport, rawStorage: seq<RawResult>, staging: seq<StagingResult>,
                    skippedBySourceId: nat): RunSummaryCounts
  {
    RunSummaryCounts(
      CountIf(rawStorage, RawIsConflict) + CountIf(staging, StagingIsConflict),
      |report.diagnostics|,
      |report.candidates|,
      CountIf(staging, StagingIsDuplicate),
      CountIf(rawStorage, RawIsFailed) + CountIf(staging, StagingIsFailed),
      |rawStorage|,
      CountIf(rawStorage, RawIsSkipped) + CountIf(staging, StagingIsNotStageable),
      skippedBySourceId,
      report.skippedPreDetail,
      CountIf(staging, StagingIsStaged),
      CountIf(rawStorage, RawIsStored))
  }

  /** Each raw result went through stageRawReplay: it was staged if and only if it could be. */
  predicate Matched(rawStorage: seq<RawResult>, staging: seq<StagingResult>) {
    && |rawStorage| == |staging|
    && forall i | 0 <= i < |rawStorage| :: staging[i].NotStageable? <==> !IsStageable(rawStorage[i])
  }

  lemma {:induction false} EveryFetchIsCountedOnce(rawStorage: seq<RawResult>, staging: seq<StagingResult>)
    requires Matched(rawStorage, staging)
    ensures CountIf(rawStorage, RawIsSkipped) + CountIf(rawStorage, RawIsStored)
            + CountIf(staging, StagingIsNotStageable)
            == |rawStorage|
    ensures CountIf(rawStorage, RawIsConflict) + CountIf(rawStorage, RawIsFailed) + CountIf(staging, StagingIsConflict)
            + CountIf(staging, StagingIsFailed) + CountIf(staging, StagingIsDuplicate)
            + CountIf(staging, StagingIsStaged)
            == |rawStorage|
  {
    if rawStorage != [] {
      var n := |rawStorage| - 1;
      EveryFetchIsCountedOnce(rawStorage[..n], staging[..n]);
      assert staging[n].NotStageable? <==> !IsStageable(rawStorage[n]);
    }
  }

  /** skipped + stored = fetched = conflict + failed + duplicate + staged. */
  lemma CountsConserve(report: DiscoveryReport, rawStorage: seq<RawResult>, staging: seq<StagingResult>, skipped: nat)
    requires Matched(rawStorage, staging)
    ensures var c := CountRun(report, rawStorage, staging, skipped);
            c.skipped + c.stored == c.fetched == c.conflict + c.failed + c.duplicate + c.staged
  {
    EveryFetchIsCountedOnce(rawStorage, staging);
  }

  // ----- A gathered page -----

  lemma {:induction false} SettlementsMatch(page: Page, stores: Stores, tasks: seq<Task>)
    requires |tasks| <= |page.candidates|
    requires forall i | 0 <= i < |tasks| :: IsDone(tasks[i]) && TaskTrue(page, stores, i, tasks[i])
    ensures var values := Settlements(tasks);
            && Matched(RawResults(values), StagingResults(values))
            && |RawResults(values)| + CountIf(values, IsSkip) == |tasks|
    ensures !page.gated ==>
              && |RawResults(Settlements(tasks))| == |tasks|
              && forall i | 0 <= i < |tasks| :: RawResults(Settlements(tasks))[i].candidate == page.candidates[i]
    decreases |tasks|
  {
    if tasks != [] {
      var n := |tasks| - 1;
      SettlementsMatch(page, stores, tasks[..n]);
      assert IsDone(tasks[n]) && TaskTrue(page, stores, n, tasks[n]);
      ResultsOfLast(tasks);
    }
  }

  /** In a watch cycle every candidate is fetched or skipped by its id, and the fetched ones are conserved. */
  lemma WatchCycleConserves(page: Page, stores: Stores, actions: seq<Action>, report: DiscoveryReport)
    requires Sane(stores) && Completes(page, stores, actions) && report.candidates == page.candidates
    ensures var result := ResultOfTasks(Ingested(page, stores, actions).tasks);
            var c := CountRun(report, result.rawStorage, result.staging, result.counts.skippedBySourceId);
            && c.discovered == c.fetched + c.skippedBySourceId
            && c.skipped + c.stored == c.fetched == c.conflict + c.failed + c.duplicate + c.staged
  {
    var s := Ingested(page, stores, actions);
    IngestIsTruthful(page, Start(page, stores), actions);
    SettlementsMatch(page, s.stores, s.tasks);
    var values := Settlements(s.tasks);
    CountsConserve(report, RawResults(values), StagingResults(values), CountIf(values, IsSkip));
  }

  // ----- Failure categories -----

  datatype Category =
    | FetchFailedCategory | NotStageableCategory | SourceUnavailableCategory | StagingConflictCategory
    | StagingFailedCategory | StorageConflictCategory | StorageFailedCategory

  function RawCategory(raw: RawResult): Option<Category> {
    if raw.FetchFailed? then Some(FetchFailedCategory)
    else if raw.status == Conflict then Some(StorageConflictCategory)
    else if raw.status == RawStatus.Failed then Some(StorageFailedCategory)
    else None
  }

  function StagingCategory(result: StagingResult): Option<Category> {
    match result
    case StagingConflict(_, _, _) => Some(StagingConflictCategory)
    case StagingFailed(_, _) => Some(StagingFailedCategory)
    case NotStageable => Some(NotStageableCategory)
    case Staged(_, _) => None
    case AlreadyStaged(_, _) => None
  }

  function CollectFailureCategories(report: DiscoveryReport, rawStorage: seq<RawResult>,
                                    staging: seq<StagingResult>): set<Category> {
    (if report.ok then {} else {SourceUnavailableCategory})
    + (set raw <- rawStorage | RawCategory(raw).Some? :: RawCategory(raw).value)
    + (set result <- staging | StagingCategory(result).Some? :: StagingCategory(result).value)
  }

  /** Stored or found in storage. */
  predicate RawLanded(raw: RawResult) {
    RawIsStored(raw) || RawIsSkipped(raw)
  }

  predicate StagingLanded(result: StagingResult) {
    result.Staged? || result.AlreadyStaged?
  }

  lemma NoCategoriesExactlyWhenLanded(report: DiscoveryReport, rawStorage: seq<RawResult>, staging: seq<StagingResult>)
    ensures CollectFailureCategories(report, rawStorage, staging) == {} <==>
            report.ok && (forall raw <- rawStorage :: RawLanded(raw))
            && (forall result <- staging :: StagingLanded(result))
  {
    var categories := CollectFailureCategories(report, rawStorage, staging);
    if raw :| raw in rawStorage && !RawLanded(raw) {
      assert RawCategory(raw).value in categories;
    }
    if result :| result in staging && !StagingLanded(result) {
      assert StagingCategory(result).value in categories;
    }
  }

  // ----- Status -----

  function SourceFailureClassification(code: DiagnosticCode): Option<Classification> {
    match code
    case SourceRateLimited => Some(RateLimited)
    case SourceTransient => Some(Transient)
    case SourceUnavailable => Some(Permanent)
    case _ => None
  }

  function FirstSourceFailure(diagnostics: seq<Diagnostic>): Option<SourceFailure> {
    if diagnostics == [] then None
    else if diagnostics[0].isError && SourceFailureClassification(diagnostics[0].code).Some?
    then Some(SourceFailure(diagnostics[0].attempts, SourceFailureClassification(diagnostics[0].code).value))
    else FirstSourceFailure(diagnostics[1..])
  }

  function DeriveSourceFailure(report: DiscoveryReport): Option<SourceFailure> {
    if report.ok then None else FirstSourceFailure(report.diagnostics)
  }

  datatype RunStatus = CompleteRun | FailedRun | PartialRun | ResumableRun | TruncatedRun

  predicate IsRecoverable(failure: Option<SourceFailure>) {
    failure.Some? && (failure.value.classification == RateLimited || failure.value.classification == Transient)
  }

  function DeriveDiscoveredLastPage(ok: bool, lastCompletedPage: nat): nat {
    if ok then lastCompletedPage else lastCompletedPage + 1
  }

  function DeriveRunStatus(discoveredLastPage: nat, lastCompletedPage: nat, ok: bool, reachedMaxPages: bool,
                           failure: Option<SourceFailure>): RunStatus
  {
    if ok && lastCompletedPage >= discoveredLastPage then (if reachedMaxPages then TruncatedRun else CompleteRun)
    else if IsRecoverable(failure) then ResumableRun
    else if lastCompletedPage > 0 then PartialRun
    else FailedRun
  }

  function RunExitCode(ok: bool, status: Option<RunStatus>): nat {
    if status.Some? && status.value != CompleteRun then 2 else if ok then 0 else 2
  }
}
