/** What the summary's counts, categories and source failure say of the results and diagnostics. */
module SummaryFacts {
  import opened Staging
  import opened Ingest
  import opened IngestPage
  import opened Checkpoints
  import opened Summary

  // ----- Counts -----

  lemma {:induction false} CountIsSize<T>(items: seq<T>, test: T -> bool, chosen: set<int>)
    requires forall i :: i in chosen <==> 0 <= i < |items| && test(items[i])
    ensures CountIf(items, test) == |chosen|
  {
    if items == [] {
      assert forall i :: i !in chosen;
      assert chosen == {};
    } else {
      var n := |items| - 1;
      CountIsSize(items[..n], test, chosen - {n});
    }
  }

  /** Each count is the number of results that ended in its way. */
  lemma CountsTell(report: DiscoveryReport, rawStorage: seq<RawResult>, staging: seq<StagingResult>, skipped: nat)
    ensures var c := CountRun(report, rawStorage, staging, skipped);
            && c.conflict
               == |set i | 0 <= i < |rawStorage| && rawStorage[i].Evidence? && rawStorage[i].status.Conflict?|
                  + |set i | 0 <= i < |staging| && staging[i].StagingConflict?|
            && c.failed
               == |set i | 0 <= i < |rawStorage| && (rawStorage[i].FetchFailed? || rawStorage[i].status.Failed?)|
                  + |set i | 0 <= i < |staging| && staging[i].StagingFailed?|
            && c.skipped == |set i | 0 <= i < |rawStorage| && rawStorage[i].Evidence? && rawStorage[i].status.Skipped?|
                            + |set i | 0 <= i < |staging| && staging[i].NotStageable?|
            && c.stored == |set i | 0 <= i < |rawStorage| && rawStorage[i].Evidence? && rawStorage[i].status.Stored?|
            && c.duplicate == |set i | 0 <= i < |staging| && staging[i].AlreadyStaged?|
            && c.staged == |set i | 0 <= i < |staging| && staging[i].Staged?|
            && c.fetched == |rawStorage| && c.discovered == |report.candidates| && c.diagnostics == |report.diagnostics|
            && c.skippedBySourceId == skipped && c.skippedPreDetail == report.skippedPreDetail
  {
    RawCountsTell(rawStorage);
    StagingCountsTell(staging);
  }

  lemma RawCountsTell(raw: seq<RawResult>)
    ensures CountIf(raw, RawIsConflict) == |set i | 0 <= i < |raw| && raw[i].Evidence? && raw[i].status.Conflict?|
    ensures CountIf(raw, RawIsFailed) == |set i | 0 <= i < |raw| && (raw[i].FetchFailed? || raw[i].status.Failed?)|
    ensures CountIf(raw, RawIsSkipped) == |set i | 0 <= i < |raw| && raw[i].Evidence? && raw[i].status.Skipped?|
    ensures CountIf(raw, RawIsStored) == |set i | 0 <= i < |raw| && raw[i].Evidence? && raw[i].status.Stored?|
  {
    CountIsSize(raw, RawIsConflict, set i | 0 <= i < |raw| && raw[i].Evidence? && raw[i].status.Conflict?);
    CountIsSize(raw, RawIsFailed, set i | 0 <= i < |raw| && (raw[i].FetchFailed? || raw[i].status.Failed?));
    CountIsSize(raw, RawIsSkipped, set i | 0 <= i < |raw| && raw[i].Evidence? && raw[i].status.Skipped?);
    CountIsSize(raw, RawIsStored, set i | 0 <= i < |raw| && raw[i].Evidence? && raw[i].status.Stored?);
  }

  lemma StagingCountsTell(staging: seq<StagingResult>)
    ensures CountIf(staging, StagingIsConflict) == |set i | 0 <= i < |staging| && staging[i].StagingConflict?|
    ensures CountIf(staging, StagingIsFailed) == |set i | 0 <= i < |staging| && staging[i].StagingFailed?|
    ensures CountIf(staging, StagingIsNotStageable) == |set i | 0 <= i < |staging| && staging[i].NotStageable?|
    ensures CountIf(staging, StagingIsDuplicate) == |set i | 0 <= i < |staging| && staging[i].AlreadyStaged?|
    ensures CountIf(staging, StagingIsStaged) == |set i | 0 <= i < |staging| && staging[i].Staged?|
  {
    CountIsSize(staging, StagingIsConflict, set i | 0 <= i < |staging| && staging[i].StagingConflict?);
    CountIsSize(staging, StagingIsFailed, set i | 0 <= i < |staging| && staging[i].StagingFailed?);
    CountIsSize(staging, StagingIsNotStageable, set i | 0 <= i < |staging| && staging[i].NotStageable?);
    CountIsSize(staging, StagingIsDuplicate, set i | 0 <= i < |staging| && staging[i].AlreadyStaged?);
    CountIsSize(staging, StagingIsStaged, set i | 0 <= i < |staging| && staging[i].Staged?);
  }

  // ----- Failure categories -----

  /** Each category is there exactly when something ended in its way. */
  lemma CategoriesTell(report: DiscoveryReport, rawStorage: seq<RawResult>, staging: seq<StagingResult>)
    ensures var categories := CollectFailureCategories(report, rawStorage, staging);
            && (SourceUnavailableCategory in categories <==> !report.ok)
            && (FetchFailedCategory in categories <==> exists raw <- rawStorage :: raw.FetchFailed?)
            && (StorageConflictCategory in categories
                <==> exists raw <- rawStorage :: raw.Evidence? && raw.status.Conflict?)
            && (StorageFailedCategory in categories
                <==> exists raw <- rawStorage :: raw.Evidence? && raw.status.Failed?)
            && (StagingConflictCategory in categories <==> exists result <- staging :: result.StagingConflict?)
            && (StagingFailedCategory in categories <==> exists result <- staging :: result.StagingFailed?)
            && (NotStageableCategory in categories <==> exists result <- staging :: result.NotStageable?)
  {
    var categories := CollectFailureCategories(report, rawStorage, staging);
    forall raw | raw in rawStorage && RawCategory(raw).Some?
      ensures RawCategory(raw).value in categories
    {
    }
    forall result | result in staging && StagingCategory(result).Some?
      ensures StagingCategory(result).value in categories
    {
    }
  }

  // ----- The source's failure -----

  /** An error of the source, not of a row. */
  predicate IsSourceError(d: Diagnostic) {
    d.isError && (d.code.SourceRateLimited? || d.code.SourceTransient? || d.code.SourceUnavailable?)
  }

  ghost predicate IsFirstSourceError(diagnostics: seq<Diagnostic>, i: int) {
    && 0 <= i < |diagnostics| && IsSourceError(diagnostics[i])
    && forall j | 0 <= j < i :: !IsSourceError(diagnostics[j])
  }

  lemma {:induction false} FirstFailureIsFirstError(diagnostics: seq<Diagnostic>)
    ensures var failure := FirstSourceFailure(diagnostics);
            && (failure.None? ==> forall d <- diagnostics :: !IsSourceError(d))
            && (failure.Some? ==>
                  exists i :: IsFirstSourceError(diagnostics, i) && Tells(diagnostics[i], failure.value))
  {
    if diagnostics != [] {
      FirstFailureIsFirstError(diagnostics[1..]);
      if IsSourceError(diagnostics[0]) {
        assert IsFirstSourceError(diagnostics, 0);
      } else if FirstSourceFailure(diagnostics[1..]).Some? {
        var failure := FirstSourceFailure(diagnostics).value;
        var i :| IsFirstSourceError(diagnostics[1..], i) && Tells(diagnostics[1..][i], failure);
        assert diagnostics[i + 1] == diagnostics[1..][i];
        assert forall j | 0 < j <= i :: diagnostics[j] == diagnostics[1..][j - 1];
        assert IsFirstSourceError(diagnostics, i + 1);
      }
    }
  }

  /** What the failure says is what the diagnostic says. */
  predicate Tells(d: Diagnostic, failure: SourceFailure) {
    && failure.attempts == d.attempts
    && (failure.classification.RateLimited? <==> d.code.SourceRateLimited?)
    && (failure.classification.Transient? <==> d.code.SourceTransient?)
    && (failure.classification.Permanent? <==> d.code.SourceUnavailable?)
  }

  /** The failure of a report that is not ok is that of its first source error; an ok report has none. */
  lemma SourceFailureIsTheFirstError(report: DiscoveryReport)
    ensures DeriveSourceFailure(report).Some? <==> !report.ok && exists d <- report.diagnostics :: IsSourceError(d)
    ensures DeriveSourceFailure(report).Some? ==>
              exists i :: IsFirstSourceError(report.diagnostics, i)
                          && Tells(report.diagnostics[i], DeriveSourceFailure(report).value)
  {
    FirstFailureIsFirstError(report.diagnostics);
    if !report.ok && DeriveSourceFailure(report).Some? {
      var i :| IsFirstSourceError(report.diagnostics, i)
               && Tells(report.diagnostics[i], DeriveSourceFailure(report).value);
      assert report.diagnostics[i] in report.diagnostics;
    }
  }

  /** A first error of the source that a later run may get past. */
  ghost predicate MayRecover(diagnostics: seq<Diagnostic>) {
    exists i :: IsFirstSourceError(diagnostics, i) && !diagnostics[i].code.SourceUnavailable?
  }

  lemma RecoverableExactlyWhenMayRecover(report: DiscoveryReport)
    requires !report.ok
    ensures IsRecoverable(DeriveSourceFailure(report)) <==> MayRecover(report.diagnostics)
  {
    SourceFailureIsTheFirstError(report);
    if DeriveSourceFailure(report).Some? {
      var i :| IsFirstSourceError(report.diagnostics, i)
               && Tells(report.diagnostics[i], DeriveSourceFailure(report).value);
      if k :| IsFirstSourceError(report.diagnostics, k) {
        assert k == i;
      }
    }
  }

  lemma WarningsNeverMatter(warnings: seq<Diagnostic>, rest: seq<Diagnostic>)
    requires forall d <- warnings :: !d.isError
    ensures MayRecover(warnings + rest) <==> MayRecover(rest)
  {
    var all, n := warnings + rest, |warnings|;
    forall j | 0 <= j < n
      ensures !all[j].isError
    {
      assert all[j] == warnings[j] && warnings[j] in warnings;
    }
    if MayRecover(all) {
      var i :| IsFirstSourceError(all, i) && !all[i].code.SourceUnavailable?;
      assert forall j | 0 <= j < i - n :: rest[j] == all[n + j];
      assert IsFirstSourceError(rest, i - n);
    }
    if MayRecover(rest) {
      var i :| IsFirstSourceError(rest, i) && !rest[i].code.SourceUnavailable?;
      assert all[n + i] == rest[i];
      assert IsFirstSourceError(all, n + i);
    }
  }
}
