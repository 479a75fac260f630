/** A whole run: resume, page loop, final checkpoint, summary and exit code. */
module RunOnce {
  import opened Wrappers
  import opened RawStorage
  import opened Staging
  import opened Payloads
  import opened Ingest
  import opened IngestPage
  import opened Checkpoints
  import opened CheckpointStore
  import opened RunCheckpoint
  import opened RunProtocol
  import opened Summary
  import opened PageLoop

  datatype RunResult = RunResult(counts: RunSummaryCounts, ok: bool, status: RunStatus, exitCode: nat,
                                 stored: StoredObject)

  function EmptyReport(): DiscoveryReport {
    DiscoveryReport(true, [], [], 0)
  }

  /** The loop's variables when a run starts over what it read. */
  function StartLoop(read: ReadResult, stores: Stores, stored: StoredObject): Loop {
    var resume := ResolveResumeState(read);
    Loop(EmptyReport(), resume.etag, StartCursor(resume).lastCompletedPage, resume.pages, [], [], stores, stored)
  }

  /** The process lives to assemble a result. */
  predicate Returns(run: LoopRun) {
    run.stop != Died && run.stop != Cut
  }

  function StatusOf(run: LoopRun): RunStatus {
    var s := run.loop;
    DeriveRunStatus(DeriveDiscoveredLastPage(s.report.ok, s.lastCompletedPage), s.lastCompletedPage, s.report.ok,
                    run.stop == Cap, DeriveSourceFailure(s.report))
  }

  ghost function FinalRecord(conf: RunConf, s: Loop, now: string): Checkpoint {
    FinalCheckpoint(conf.identity, now, DeriveDiscoveredLastPage(s.report.ok, s.lastCompletedPage),
                    s.lastCompletedPage, s.pages)
  }

  ghost function StoredAtEnd(conf: RunConf, run: LoopRun, now: string, write: seq<Turn>): StoredObject
    requires |write| == MAX_CAS_ROUNDS
  {
    var s := run.loop;
    if StatusOf(run) != CompleteRun then s.stored
    else WriteCheckpoint(s.stored, FinalRecord(conf, s, now), s.etag, conf.conditionalWrites, write).stored
  }

  /** The checkpoint object as a whole run leaves it. */
  ghost function StoredAfterRun(conf: RunConf, stored: StoredObject, read: ReadFate, stores: Stores,
                                turns: seq<PageTurn>, now: string, write: seq<Turn>): StoredObject
    requires |write| == MAX_CAS_ROUNDS && forall turn <- turns :: |turn.write| == MAX_CAS_ROUNDS
  {
    match ReadCheckpoint(stored, read)
    case None => stored
    case Some(found) =>
      var run := RunLoop(conf, StartLoop(found, stores, stored), turns);
      if Returns(run) then StoredAtEnd(conf, run, now, write) else run.loop.stored
  }

  function SummaryCounts(s: Loop): RunSummaryCounts {
    CountRun(s.report, s.rawStorage, s.staging, 0)
  }

  ghost function Assembled(conf: RunConf, run: LoopRun, now: string, write: seq<Turn>): RunResult
    requires Returns(run) && |write| == MAX_CAS_ROUNDS
  {
    var s := run.loop;
    var ok := s.report.ok && CollectFailureCategories(s.report, s.rawStorage, s.staging) == {};
    RunResult(SummaryCounts(s), ok, StatusOf(run),
              RunExitCode(ok, Some(StatusOf(run))), StoredAtEnd(conf, run, now, write))
  }

  // ----- The run itself -----

  /** The final write never fails the run either. */
  method AssembleResult(conf: RunConf, state: LoopState, replays: ReplayStores, checkpoints: CheckpointBucket,
                        now: string, write: seq<Turn>, ghost run: LoopRun) returns (result: RunResult)
    requires |write| == MAX_CAS_ROUNDS && checkpoints.conditionalWrites == conf.conditionalWrites
    requires Returns(run) && run.loop == state.Value(replays, checkpoints)
    requires (state.reachedMaxPages <==> run.stop == Cap)
    modifies checkpoints
    ensures result == Assembled(conf, run, now, write) && checkpoints.stored == result.stored
  {
    var report := state.report;
    var discoveredLastPage := DeriveDiscoveredLastPage(report.ok, state.lastCompletedPage);
    var status := DeriveRunStatus(discoveredLastPage, state.lastCompletedPage, report.ok, state.reachedMaxPages,
                                  DeriveSourceFailure(report));
    if status == CompleteRun {
      var counts := AggregatePageCounts(state.pages);
      var checkpoint := Checkpoint(counts, conf.identity.startedAt, discoveredLastPage, state.lastCompletedPage, None,
                                   state.pages, conf.identity.runId, conf.identity.slug, Complete, now);
      var _ := checkpoints.Write(checkpoint, state.etag, write);
    }
    var ok := report.ok && CollectFailureCategories(report, state.rawStorage, state.staging) == {};
    result := RunResult(CountRun(report, state.rawStorage, state.staging, 0), ok, status,
                        RunExitCode(ok, Some(status)), checkpoints.stored);
  }

  /** None: the first read throws, or the process dies in the loop. */
  method Execute(conf: RunConf, read: ReadFate, turns: seq<PageTurn>, now: string, write: seq<Turn>,
                 replays: ReplayStores, checkpoints: CheckpointBucket) returns (result: Option<RunResult>)
    requires |write| == MAX_CAS_ROUNDS && checkpoints.conditionalWrites == conf.conditionalWrites
    requires forall turn <- turns :: |turn.write| == MAX_CAS_ROUNDS
    modifies replays, checkpoints
    ensures match ReadCheckpoint(old(checkpoints.stored), read)
            case None =>
              result.None? && checkpoints.stored == old(checkpoints.stored) && replays.stores == old(replays.stores)
            case Some(found) =>
              var run := RunLoop(conf, StartLoop(found, old(replays.stores), old(checkpoints.stored)), turns);
              && replays.stores == run.loop.stores
              && (result.Some? <==> Returns(run))
              && (result.Some? ==> result.value == Assembled(conf, run, now, write))
              && (result.Some? ==> checkpoints.stored == result.value.stored)
              && (result.None? ==> checkpoints.stored == run.loop.stored)
    ensures checkpoints.stored
            == StoredAfterRun(conf, old(checkpoints.stored), read, old(replays.stores), turns, now, write)
  {
    var found := checkpoints.Get(read);
    if found.None? {
      return None;
    }
    var state := new LoopState(ResolveResumeState(found.value));
    assert state.Value(replays, checkpoints) == StartLoop(found.value, replays.stores, checkpoints.stored);
    var stop, listReads := state.RunPageLoop(conf, turns, replays, checkpoints);
    if stop == Died || stop == Cut {
      return None;
    }
    ghost var run := LoopRun(state.Value(replays, checkpoints), stop, listReads);
    var assembled := AssembleResult(conf, state, replays, checkpoints, now, write, run);
    result := Some(assembled);
  }

  // ----- What the result lists say of the stores -----

  ghost predicate ResultTrue(stores: Stores, c: Candidate, raw: RawResult, staging: StagingResult) {
    && raw.candidate == c
    && (raw.Evidence? ==> raw.status != Conflict)
    && (IsStageable(raw) ==> Has(stores.bucket, raw.bytes))
    && StagingTrue(stores, raw, staging)
  }

  ghost predicate ResultsTrue(stores: Stores, candidates: seq<Candidate>, raw: seq<RawResult>,
                              staging: seq<StagingResult>) {
    && |candidates| == |raw| == |staging|
    && forall i | 0 <= i < |raw| :: ResultTrue(stores, candidates[i], raw[i], staging[i])
  }

  /** At the top of an iteration every candidate listed so far has its two results, and they hold. */
  ghost predicate LoopTrue(s: Loop) {
    Sane(s.stores) && ResultsTrue(s.stores, s.report.candidates, s.rawStorage, s.staging)
  }

  lemma ResultSurvives(before: Stores, after: Stores, c: Candidate, raw: RawResult, staging: StagingResult)
    requires Extends(before, after) && ResultTrue(before, c, raw, staging)
    ensures ResultTrue(after, c, raw, staging)
  {
    if IsStageable(raw) {
      TakenSurvives(before.rows, after.rows, PayloadOf(raw.candidate, raw.bytes));
    }
  }

  lemma ResultsTrueGrow(stores: Stores, cs: seq<Candidate>, raws: seq<RawResult>, stagings: seq<StagingResult>,
                        c: Candidate, raw: RawResult, staging: StagingResult)
    requires ResultsTrue(stores, cs, raws, stagings) && ResultTrue(stores, c, raw, staging)
    ensures ResultsTrue(stores, cs + [c], raws + [raw], stagings + [staging])
  {
  }

  lemma {:induction false} GatheredResultsTrue(page: Page, stores: Stores, tasks: seq<Task>)
    requires !page.gated && |tasks| <= |page.candidates|
    requires forall i | 0 <= i < |tasks| :: IsDone(tasks[i]) && TaskTrue(page, stores, i, tasks[i])
    ensures var values := Settlements(tasks);
            ResultsTrue(stores, page.candidates[..|tasks|], RawResults(values), StagingResults(values))
    decreases |tasks|
  {
    if tasks != [] {
      var n := |tasks| - 1;
      GatheredResultsTrue(page, stores, tasks[..n]);
      assert IsDone(tasks[n]) && TaskTrue(page, stores, n, tasks[n]);
      ResultsOfLast(tasks);
      var before := Settlements(tasks[..n]);
      ResultsTrueGrow(stores, page.candidates[..n], RawResults(before), StagingResults(before),
                      page.candidates[n], tasks[n].raw, tasks[n].staging);
      assert page.candidates[..n + 1] == page.candidates[..n] + [page.candidates[n]];
    }
  }

  lemma CompletedPageKeepsTruth(conf: RunConf, s: Loop, turn: PageTurn)
    requires |turn.write| == MAX_CAS_ROUNDS && LoopTrue(s) && Completes(turn.Page(), s.stores, turn.actions)
    ensures LoopTrue(CompletePage(conf, s, turn)) && Extends(s.stores, CompletePage(conf, s, turn).stores)
  {
    var page, gathered := turn.Page(), Ingested(turn.Page(), s.stores, turn.actions);
    IngestIsTruthful(page, Start(page, s.stores), turn.actions);
    GatheredResultsTrue(page, gathered.stores, gathered.tasks);
    assert page.candidates[..|gathered.tasks|] == page.candidates;
    forall i | 0 <= i < |s.rawStorage|
      ensures ResultTrue(gathered.stores, s.report.candidates[i], s.rawStorage[i], s.staging[i])
    {
      ResultSurvives(s.stores, gathered.stores, s.report.candidates[i], s.rawStorage[i], s.staging[i]);
    }
  }

  lemma DeathKeepsStores(page: Page, stores: Stores, actions: seq<Action>)
    requires Sane(stores)
    ensures Sane(StoresAfterDeath(page, stores, actions)) && Extends(stores, StoresAfterDeath(page, stores, actions))
  {
    if Ingest.Possible(page, Start(page, stores), actions) {
      IngestIsTruthful(page, Start(page, stores), actions);
    }
  }

  /** The rows of the failed page, whose read is the loop's last, are listed and have no results. */
  ghost predicate FailedPageListed(run: LoopRun, turns: seq<PageTurn>) {
    && 1 <= run.listReads <= |turns|
    && var failed, listed := turns[run.listReads - 1].report.candidates, run.loop.report.candidates;
       && |listed| == |run.loop.rawStorage| + |failed|
       && listed[|run.loop.rawStorage|..] == failed
       && ResultsTrue(run.loop.stores, listed[..|run.loop.rawStorage|], run.loop.rawStorage, run.loop.staging)
  }

  ghost predicate EveryReadOk(turns: seq<PageTurn>, listReads: nat)
    requires listReads <= |turns|
  {
    forall i | 0 <= i < listReads :: turns[i].report.ok
  }

  lemma RestReadsOk(turns: seq<PageTurn>, n: nat)
    requires turns != [] && n <= |turns| - 1
    ensures EveryReadOk(turns, n + 1) <==> turns[0].report.ok && EveryReadOk(turns[1..], n)
  {
    if turns[0].report.ok && EveryReadOk(turns[1..], n) {
      forall i | 0 <= i < n + 1
        ensures turns[i].report.ok
      {
        assert i > 0 ==> turns[1..][i - 1] == turns[i];
      }
    }
  }

  lemma {:induction false} RunReadsOk(conf: RunConf, s: Loop, turns: seq<PageTurn>)
    requires forall turn <- turns :: |turn.write| == MAX_CAS_ROUNDS
    ensures var run := RunLoop(conf, s, turns);
            && run.listReads <= |turns|
            && (run.loop.report.ok <==> s.report.ok && EveryReadOk(turns, run.listReads))
            && (run.stop == PageFailed ==> 1 <= run.listReads && !turns[run.listReads - 1].report.ok)
            && (run.stop != PageFailed ==> EveryReadOk(turns, run.listReads))
    decreases |turns|
  {
    if GoesOn(conf, s, turns) {
      LoopGoesOn(conf, s, turns);
      var next := CompletePage(conf, s, turns[0]);
      RunReadsOk(conf, next, turns[1..]);
      RestReadsOk(turns, RunLoop(conf, next, turns[1..]).listReads);
    }
  }

  lemma {:induction false} RunKeepsStores(conf: RunConf, s: Loop, turns: seq<PageTurn>)
    requires LoopTrue(s) && forall turn <- turns :: |turn.write| == MAX_CAS_ROUNDS
    ensures var run := RunLoop(conf, s, turns);
            && Sane(run.loop.stores) && Extends(s.stores, run.loop.stores)
            && (Returns(run) && run.stop != PageFailed ==> LoopTrue(run.loop))
    decreases |turns|
  {
    if CapAllows(conf, s.lastCompletedPage) && turns != [] {
      var turn := turns[0];
      assert turn in turns;
      if Completes(turn.Page(), s.stores, turn.actions) {
        CompletedPageKeepsTruth(conf, s, turn);
      } else {
        DeathKeepsStores(turn.Page(), s.stores, turn.actions);
      }
      if GoesOn(conf, s, turns) {
        LoopGoesOn(conf, s, turns);
        var next := CompletePage(conf, s, turn);
        RunKeepsStores(conf, next, turns[1..]);
        ExtendsThen(s.stores, next.stores, RunLoop(conf, next, turns[1..]).loop.stores);
      }
    }
  }

  lemma {:induction false} FailedPageIsListed(conf: RunConf, s: Loop, turns: seq<PageTurn>)
    requires LoopTrue(s) && forall turn <- turns :: |turn.write| == MAX_CAS_ROUNDS
    requires RunLoop(conf, s, turns).stop == PageFailed
    ensures FailedPageListed(RunLoop(conf, s, turns), turns)
    decreases |turns|
  {
    var run := RunLoop(conf, s, turns);
    if GoesOn(conf, s, turns) {
      LoopGoesOn(conf, s, turns);
      var next := CompletePage(conf, s, turns[0]);
      var rest := RunLoop(conf, next, turns[1..]);
      CompletedPageKeepsTruth(conf, s, turns[0]);
      FailedPageIsListed(conf, next, turns[1..]);
      assert turns[1..][rest.listReads - 1] == turns[run.listReads - 1];
    } else {
      assert run.loop.report.candidates[..|s.rawStorage|] == s.report.candidates;
    }
  }

  // ----- Status -----

  /** Only a natural end is complete. */
  lemma NaturalEndIsComplete(conf: RunConf, s: Loop, turns: seq<PageTurn>)
    requires s.report.ok && forall turn <- turns :: |turn.write| == MAX_CAS_ROUNDS
    requires Returns(RunLoop(conf, s, turns))
    ensures var run := RunLoop(conf, s, turns);
            StatusOf(run) == CompleteRun <==> run.stop == EmptyPage || run.stop == AllDuplicate
  {
    RunReadsOk(conf, s, turns);
  }

  // ----- Exit 0 -----

  /** The candidate's raw object is under its own checksum, and a staging row has that checksum and object key. */
  ghost predicate HasLanded(stores: Stores, c: Candidate, bytes: Bytes) {
    Has(stores.bucket, bytes) && ObjectTaken(stores.rows, PayloadOf(c, bytes))
  }

  ghost predicate AllResultsLanded(s: Loop) {
    (forall raw <- s.rawStorage :: RawLanded(raw)) && (forall staging <- s.staging :: StagingLanded(staging))
  }

  /**
   * Whatever the source, the stores and other runs do: a run exits 0 exactly when
   * every list read was ok, the loop came to a natural end and every candidate
   * ended stored or skipped and staged or already staged; and then every listed
   * candidate has its object and its row.
   */
  lemma ExitsZeroExactlyWhenAllLanded(conf: RunConf, found: ReadResult, stores: Stores, stored: StoredObject,
                                      turns: seq<PageTurn>, now: string, write: seq<Turn>)
    requires Sane(stores) && |write| == MAX_CAS_ROUNDS && forall turn <- turns :: |turn.write| == MAX_CAS_ROUNDS
    requires Returns(RunLoop(conf, StartLoop(found, stores, stored), turns))
    ensures var run := RunLoop(conf, StartLoop(found, stores, stored), turns);
            && run.listReads <= |turns|
            && (Assembled(conf, run, now, write).exitCode == 0 <==>
                EveryReadOk(turns, run.listReads) && (run.stop == EmptyPage || run.stop == AllDuplicate)
                && AllResultsLanded(run.loop))
            && (Assembled(conf, run, now, write).exitCode == 0 ==>
                  && |run.loop.rawStorage| == |run.loop.report.candidates|
                  && forall i | 0 <= i < |run.loop.rawStorage| ::
                      run.loop.rawStorage[i].Evidence?
                      && HasLanded(run.loop.stores, run.loop.report.candidates[i], run.loop.rawStorage[i].bytes))
  {
    var s := StartLoop(found, stores, stored);
    var run := RunLoop(conf, s, turns);
    RunReadsOk(conf, s, turns);
    RunKeepsStores(conf, s, turns);
    NaturalEndIsComplete(conf, s, turns);
    NoCategoriesExactlyWhenLanded(run.loop.report, run.loop.rawStorage, run.loop.staging);
    if Assembled(conf, run, now, write).exitCode == 0 {
      forall i | 0 <= i < |run.loop.rawStorage|
        ensures run.loop.rawStorage[i].Evidence?
        ensures HasLanded(run.loop.stores, run.loop.report.candidates[i], run.loop.rawStorage[i].bytes)
      {
        assert run.loop.rawStorage[i] in run.loop.rawStorage && run.loop.staging[i] in run.loop.staging;
        assert ResultTrue(run.loop.stores, run.loop.report.candidates[i], run.loop.rawStorage[i], run.loop.staging[i]);
      }
    }
  }

  // ----- Conservation -----

  lemma TrueResultsMatch(stores: Stores, candidates: seq<Candidate>, raw: seq<RawResult>, staging: seq<StagingResult>)
    requires ResultsTrue(stores, candidates, raw, staging)
    ensures Matched(raw, staging)
  {
    forall i | 0 <= i < |raw|
      ensures staging[i].NotStageable? <==> !IsStageable(raw[i])
    {
      assert ResultTrue(stores, candidates[i], raw[i], staging[i]);
    }
  }

  lemma RunResultsMatch(conf: RunConf, s: Loop, turns: seq<PageTurn>)
    requires LoopTrue(s) && forall turn <- turns :: |turn.write| == MAX_CAS_ROUNDS
    requires Returns(RunLoop(conf, s, turns))
    ensures var run := RunLoop(conf, s, turns);
            && Matched(run.loop.rawStorage, run.loop.staging)
            && (run.stop == PageFailed ==> 1 <= run.listReads <= |turns|)
            && |run.loop.report.candidates| == |run.loop.rawStorage| +
               if run.stop == PageFailed then |turns[run.listReads - 1].report.candidates| else 0
  {
    var run := RunLoop(conf, s, turns);
    RunKeepsStores(conf, s, turns);
    if run.stop == PageFailed {
      FailedPageIsListed(conf, s, turns);
      TrueResultsMatch(run.loop.stores, run.loop.report.candidates[..|run.loop.rawStorage|], run.loop.rawStorage,
                       run.loop.staging);
    } else {
      TrueResultsMatch(run.loop.stores, run.loop.report.candidates, run.loop.rawStorage, run.loop.staging);
    }
  }

  /** Every candidate is fetched but those of a page that was not ok; every fetched one is counted once in each sum. */
  lemma RunConserves(conf: RunConf, found: ReadResult, stores: Stores, stored: StoredObject, turns: seq<PageTurn>)
    requires Sane(stores) && forall turn <- turns :: |turn.write| == MAX_CAS_ROUNDS
    requires Returns(RunLoop(conf, StartLoop(found, stores, stored), turns))
    ensures var run := RunLoop(conf, StartLoop(found, stores, stored), turns);
            var c := SummaryCounts(run.loop);
            && c.skipped + c.stored == c.fetched == c.conflict + c.failed + c.duplicate + c.staged
            && (run.stop == PageFailed ==> 1 <= run.listReads <= |turns|)
            && c.discovered == c.fetched +
               if run.stop == PageFailed then |turns[run.listReads - 1].report.candidates| else 0
  {
    var s := StartLoop(found, stores, stored);
    var end := RunLoop(conf, s, turns).loop;
    RunResultsMatch(conf, s, turns);
    CountsConserve(end.report, end.rawStorage, end.staging, 0);
  }

  // ----- The checkpoint's totals -----

  /** The four totals of what this run has done so far. */
  function TotalsOf(s: Loop): Counts {
    Counts(|s.report.candidates|,
           CountIf(s.rawStorage, RawIsFailed) + CountIf(s.staging, StagingIsFailed),
           CountIf(s.staging, StagingIsStaged),
           CountIf(s.rawStorage, RawIsStored))
  }

  ghost predicate PagesAddUp(s: Loop, resumed: Counts) {
    && (forall page <- s.pages :: page <= s.lastCompletedPage)
    && SumCounts(s.pages) == AddCounts(resumed, TotalsOf(s))
  }

  lemma CompletedPageAddsUp(conf: RunConf, s: Loop, turn: PageTurn, resumed: Counts)
    requires |turn.write| == MAX_CAS_ROUNDS && Completes(turn.Page(), s.stores, turn.actions) && PagesAddUp(s, resumed)
    ensures PagesAddUp(CompletePage(conf, s, turn), resumed)
  {
    var result := ResultOfTasks(Ingested(turn.Page(), s.stores, turn.actions).tasks);
    SumCountsAddsPage(s.pages, s.lastCompletedPage + 1, PageEntry(ToCounts(result.counts), "running"));
    CountIfConcat(s.rawStorage, result.rawStorage, RawIsFailed);
    CountIfConcat(s.rawStorage, result.rawStorage, RawIsStored);
    CountIfConcat(s.staging, result.staging, StagingIsFailed);
    CountIfConcat(s.staging, result.staging, StagingIsStaged);
  }

  lemma {:induction false} RunAddsUp(conf: RunConf, s: Loop, turns: seq<PageTurn>, resumed: Counts)
    requires PagesAddUp(s, resumed) && forall turn <- turns :: |turn.write| == MAX_CAS_ROUNDS
    ensures var run := RunLoop(conf, s, turns);
            run.stop != PageFailed && run.stop != Died ==> PagesAddUp(run.loop, resumed)
    decreases |turns|
  {
    if CapAllows(conf, s.lastCompletedPage) && turns != [] && Completes(turns[0].Page(), s.stores, turns[0].actions) {
      assert turns[0] in turns;
      CompletedPageAddsUp(conf, s, turns[0], resumed);
    }
    if GoesOn(conf, s, turns) {
      LoopGoesOn(conf, s, turns);
      RunAddsUp(conf, CompletePage(conf, s, turns[0]), turns[1..], resumed);
    }
  }

  function SummaryTotals(c: RunSummaryCounts): Counts {
    Counts(c.discovered, c.failed, c.staged, c.stored)
  }

  lemma StartAddsUp(s: Loop, resumed: Counts)
    requires s.report == EmptyReport() && s.rawStorage == [] && s.staging == []
    requires resumed == SumCounts(s.pages) && forall page <- s.pages :: page <= s.lastCompletedPage
    ensures PagesAddUp(s, resumed)
  {
    assert TotalsOf(s) == NO_COUNTS;
    AddingNothing(resumed);
  }

  lemma AddingNothing(c: Counts)
    ensures AddCounts(c, NO_COUNTS) == c
  {
  }

  lemma RecordTotals(conf: RunConf, end: Loop, now: string, resumed: Counts)
    requires PagesAddUp(end, resumed)
    ensures FinalRecord(conf, end, now).counts == AddCounts(resumed, SummaryTotals(SummaryCounts(end)))
    ensures resumed == NO_COUNTS ==> FinalRecord(conf, end, now).counts == SummaryTotals(SummaryCounts(end))
  {
  }

  /**
   * The final record's totals are those of the pages resumed plus the summary's,
   * so on a fresh run they are the summary's.
   */
  lemma FinalTotalsAreSummaryTotals(conf: RunConf, found: ReadResult, stores: Stores, stored: StoredObject,
                                    turns: seq<PageTurn>,
                                    now: string)
    requires forall turn <- turns :: |turn.write| == MAX_CAS_ROUNDS
    requires forall page <- ResolveResumeState(found).pages :: page < ResolveResumeState(found).startPage
    requires var stop := RunLoop(conf, StartLoop(found, stores, stored), turns).stop;
             stop == EmptyPage || stop == AllDuplicate
    ensures var end := RunLoop(conf, StartLoop(found, stores, stored), turns).loop;
            var record, totals := FinalRecord(conf, end, now), SummaryTotals(SummaryCounts(end));
            && record.counts == AddCounts(SumCounts(ResolveResumeState(found).pages), totals)
            && (found.checkpoint.None? || found.checkpoint.value.status == Complete ==> record.counts == totals)
  {
    var s, resumed := StartLoop(found, stores, stored), SumCounts(ResolveResumeState(found).pages);
    StartAddsUp(s, resumed);
    RunAddsUp(conf, s, turns, resumed);
    RecordTotals(conf, RunLoop(conf, s, turns).loop, now, resumed);
  }
}
