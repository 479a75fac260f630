/** What a whole run reports and records, told of the list reads it made. */
module RunFacts {
  import opened Payloads
  import opened Ingest
  import opened IngestPage
  import opened Checkpoints
  import opened CheckpointStore
  import opened RunCheckpoint
  import opened RunProtocol
  import opened Summary
  import opened SummaryFacts
  import opened PageLoop
  import opened RunOnce
  import opened IngestFacts
  import T = Throttle

  // ----- What the reads reported -----

  /** What the first `n` list reads list, in the order in which they are read. */
  function ListedIn(turns: seq<PageTurn>, n: nat): seq<Candidate>
    requires n <= |turns|
  {
    if n == 0 then [] else ListedIn(turns, n - 1) + turns[n - 1].report.candidates
  }

  /** And what they diagnose. */
  function DiagnosedIn(turns: seq<PageTurn>, n: nat): seq<Diagnostic>
    requires n <= |turns|
  {
    if n == 0 then [] else DiagnosedIn(turns, n - 1) + turns[n - 1].report.diagnostics
  }

  lemma {:induction false} FirstReadComesFirst(turns: seq<PageTurn>, n: nat)
    requires turns != [] && n <= |turns| - 1
    ensures ListedIn(turns, n + 1) == turns[0].report.candidates + ListedIn(turns[1..], n)
    ensures DiagnosedIn(turns, n + 1) == turns[0].report.diagnostics + DiagnosedIn(turns[1..], n)
    decreases n
  {
    if n > 0 {
      FirstReadComesFirst(turns, n - 1);
    } else {
      assert ListedIn(turns, 0) == [] && DiagnosedIn(turns, 0) == [];
    }
  }

  /** A list read that completes a page moves the loop on by that page; the others leave it where it is. */
  predicate EndsWithoutPage(stop: StopReason) {
    stop == EmptyPage || stop == PageFailed || stop == Died
  }

  ghost predicate ReportsReads(s: Loop, turns: seq<PageTurn>, run: LoopRun) {
    && run.listReads <= |turns|
    && run.loop.report.candidates == s.report.candidates + ListedIn(turns, run.listReads)
    && run.loop.report.diagnostics == s.report.diagnostics + DiagnosedIn(turns, run.listReads)
    && run.loop.lastCompletedPage == s.lastCompletedPage + run.listReads - if EndsWithoutPage(run.stop) then 1 else 0
  }

  lemma OneReadMore(s: Loop, next: Loop, turns: seq<PageTurn>, rest: LoopRun)
    requires turns != [] && ReportsReads(next, turns[1..], rest)
    requires next.report.candidates == s.report.candidates + turns[0].report.candidates
    requires next.report.diagnostics == s.report.diagnostics + turns[0].report.diagnostics
    requires next.lastCompletedPage == s.lastCompletedPage + 1
    ensures ReportsReads(s, turns, ReadMore(rest, 1))
  {
    FirstReadComesFirst(turns, rest.listReads);
  }

  lemma LastReadReports(conf: RunConf, s: Loop, turns: seq<PageTurn>)
    requires !GoesOn(conf, s, turns) && forall turn <- turns :: |turn.write| == MAX_CAS_ROUNDS
    ensures ReportsReads(s, turns, RunLoop(conf, s, turns))
  {
    var run := RunLoop(conf, s, turns);
    if run.listReads == 0 {
      assert ListedIn(turns, 0) == [] && DiagnosedIn(turns, 0) == [];
    } else {
      FirstReadComesFirst(turns, 0);
      assert ListedIn(turns[1..], 0) == [] && DiagnosedIn(turns[1..], 0) == [];
    }
  }

  /**
   * The loop reports exactly what its list reads reported, in their order, and
   * stands after as many pages as it read, but for a last read without a page.
   */
  lemma {:induction false} RunReportsEveryRead(conf: RunConf, s: Loop, turns: seq<PageTurn>)
    requires forall turn <- turns :: |turn.write| == MAX_CAS_ROUNDS
    ensures ReportsReads(s, turns, RunLoop(conf, s, turns))
    decreases |turns|
  {
    if GoesOn(conf, s, turns) {
      LoopGoesOn(conf, s, turns);
      var next := CompletePage(conf, s, turns[0]);
      RunReportsEveryRead(conf, next, turns[1..]);
      OneReadMore(s, next, turns, RunLoop(conf, next, turns[1..]));
    } else {
      LastReadReports(conf, s, turns);
    }
  }

  /** The summary counts what all reads listed and diagnosed; a run without gates skips nothing by id. */
  lemma SummaryCountsReads(conf: RunConf, found: ReadResult, stores: Stores, stored: StoredObject,
                           turns: seq<PageTurn>, now: string, write: seq<Turn>)
    requires |write| == MAX_CAS_ROUNDS && forall turn <- turns :: |turn.write| == MAX_CAS_ROUNDS
    requires Returns(RunLoop(conf, StartLoop(found, stores, stored), turns))
    ensures var run := RunLoop(conf, StartLoop(found, stores, stored), turns);
            var counts := Assembled(conf, run, now, write).counts;
            && run.listReads <= |turns|
            && counts.discovered == |ListedIn(turns, run.listReads)|
            && counts.diagnostics == |DiagnosedIn(turns, run.listReads)|
            && counts.skippedBySourceId == 0 == counts.skippedPreDetail
  {
    RunReportsEveryRead(conf, StartLoop(found, stores, stored), turns);
    NothingIsSkipped(conf, StartLoop(found, stores, stored), turns);
  }

  lemma {:induction false} NothingIsSkipped(conf: RunConf, s: Loop, turns: seq<PageTurn>)
    requires s.report.skippedPreDetail == 0 && forall turn <- turns :: |turn.write| == MAX_CAS_ROUNDS
    ensures RunLoop(conf, s, turns).loop.report.skippedPreDetail == 0
    decreases |turns|
  {
    if GoesOn(conf, s, turns) {
      LoopGoesOn(conf, s, turns);
      NothingIsSkipped(conf, CompletePage(conf, s, turns[0]), turns[1..]);
    }
  }

  // ----- Status -----

  /** A list read that is ok carries warnings at most. */
  ghost predicate OkReadsOnlyWarn(turns: seq<PageTurn>) {
    forall turn <- turns | turn.report.ok :: forall d <- turn.report.diagnostics :: !d.isError
  }

  lemma {:induction false} OkReadsDiagnoseNoError(turns: seq<PageTurn>, n: nat)
    requires n <= |turns| && OkReadsOnlyWarn(turns) && EveryReadOk(turns, n)
    ensures forall d <- DiagnosedIn(turns, n) :: !d.isError
  {
    if n > 0 {
      OkReadsDiagnoseNoError(turns, n - 1);
      assert turns[n - 1] in turns;
    }
  }

  lemma {:induction false} OnlyLastReadFails(conf: RunConf, s: Loop, turns: seq<PageTurn>)
    requires forall turn <- turns :: |turn.write| == MAX_CAS_ROUNDS
    requires RunLoop(conf, s, turns).stop == PageFailed
    ensures var n := RunLoop(conf, s, turns).listReads;
            1 <= n <= |turns| && EveryReadOk(turns, n - 1) && !turns[n - 1].report.ok
    decreases |turns|
  {
    if GoesOn(conf, s, turns) {
      LoopGoesOn(conf, s, turns);
      var next := CompletePage(conf, s, turns[0]);
      var m := RunLoop(conf, next, turns[1..]).listReads;
      OnlyLastReadFails(conf, next, turns[1..]);
      RestReadsOk(turns, m - 1);
      assert turns[1..][m - 1] == turns[m];
    }
  }

  /** The status of a run that stops on a failing read is told by what this read reports. */
  lemma StatusOfFailedRead(conf: RunConf, found: ReadResult, stores: Stores, stored: StoredObject,
                           turns: seq<PageTurn>)
    requires OkReadsOnlyWarn(turns) && forall turn <- turns :: |turn.write| == MAX_CAS_ROUNDS
    requires RunLoop(conf, StartLoop(found, stores, stored), turns).stop == PageFailed
    ensures var run := RunLoop(conf, StartLoop(found, stores, stored), turns);
            && 1 <= run.listReads <= |turns| && !turns[run.listReads - 1].report.ok
            && (StatusOf(run) == ResumableRun <==> MayRecover(turns[run.listReads - 1].report.diagnostics))
  {
    OnlyLastReadFails(conf, StartLoop(found, stores, stored), turns);
    StatusTellsStop(conf, found, stores, stored, turns);
  }

  lemma FailedReadDecides(conf: RunConf, s: Loop, turns: seq<PageTurn>)
    requires OkReadsOnlyWarn(turns) && forall turn <- turns :: |turn.write| == MAX_CAS_ROUNDS
    requires s.report == EmptyReport() && RunLoop(conf, s, turns).stop == PageFailed
    ensures var run := RunLoop(conf, s, turns);
            && 1 <= run.listReads <= |turns| && !run.loop.report.ok
            && (IsRecoverable(DeriveSourceFailure(run.loop.report))
                <==> MayRecover(turns[run.listReads - 1].report.diagnostics))
  {
    var run := RunLoop(conf, s, turns);
    RunReadsOk(conf, s, turns);
    OnlyLastReadFails(conf, s, turns);
    RunReportsEveryRead(conf, s, turns);
    assert run.loop.report.diagnostics == [] + DiagnosedIn(turns, run.listReads) == DiagnosedIn(turns, run.listReads);
    LastReadDecides(run.loop.report, turns, run.listReads);
  }

  /** The errors of a report whose reads but the last are ok are those of the last. */
  lemma LastReadDecides(report: DiscoveryReport, turns: seq<PageTurn>, n: nat)
    requires OkReadsOnlyWarn(turns) && 1 <= n <= |turns| && EveryReadOk(turns, n - 1)
    requires !report.ok && report.diagnostics == DiagnosedIn(turns, n)
    ensures IsRecoverable(DeriveSourceFailure(report)) <==> MayRecover(turns[n - 1].report.diagnostics)
  {
    OkReadsDiagnoseNoError(turns, n - 1);
    WarningsNeverMatter(DiagnosedIn(turns, n - 1), turns[n - 1].report.diagnostics);
    RecoverableExactlyWhenMayRecover(report);
  }

  /**
   * The status tells how the loop stopped. Where it stopped on a failing list read,
   * the first error of the source that this read reports decides: a later run may
   * get past it, or, if none, pages are salvaged or they are not.
   */
  lemma StatusTellsStop(conf: RunConf, found: ReadResult, stores: Stores, stored: StoredObject, turns: seq<PageTurn>)
    requires OkReadsOnlyWarn(turns) && forall turn <- turns :: |turn.write| == MAX_CAS_ROUNDS
    requires Returns(RunLoop(conf, StartLoop(found, stores, stored), turns))
    ensures var run := RunLoop(conf, StartLoop(found, stores, stored), turns);
            && (run.stop == PageFailed ==> 1 <= run.listReads <= |turns|)
            && match run.stop
               case EmptyPage => StatusOf(run) == CompleteRun
               case AllDuplicate => StatusOf(run) == CompleteRun
               case Cap => StatusOf(run) == TruncatedRun
               case PageFailed =>
                 StatusOf(run) == (if MayRecover(turns[run.listReads - 1].report.diagnostics) then ResumableRun
                                   else if run.loop.lastCompletedPage > 0 then PartialRun
                                   else FailedRun)
  {
    var s := StartLoop(found, stores, stored);
    RunReadsOk(conf, s, turns);
    if RunLoop(conf, s, turns).stop == PageFailed {
      FailedReadDecides(conf, s, turns);
    }
  }

  // ----- The throttle's signals -----

  /** The first source error is that the source limits the rate. */
  ghost predicate SaysRateLimited(diagnostics: seq<Diagnostic>) {
    exists i :: IsFirstSourceError(diagnostics, i) && diagnostics[i].code.SourceRateLimited?
  }

  ghost predicate IsRateLimitedStop(run: LoopRun, turns: seq<PageTurn>) {
    && run.stop == PageFailed && 1 <= run.listReads <= |turns|
    && SaysRateLimited(turns[run.listReads - 1].report.diagnostics)
  }

  lemma RateLimitedIsTold(report: DiscoveryReport)
    requires !report.ok
    ensures T.IsRateLimited(report) <==> SaysRateLimited(report.diagnostics)
  {
    SourceFailureIsTheFirstError(report);
    if SaysRateLimited(report.diagnostics) {
      var i :| IsFirstSourceError(report.diagnostics, i) && report.diagnostics[i].code.SourceRateLimited?;
      assert report.diagnostics[i] in report.diagnostics;
      var k :| IsFirstSourceError(report.diagnostics, k)
               && Tells(report.diagnostics[k], DeriveSourceFailure(report).value);
      assert k == i;
    }
  }

  /** The pages whose fan-out was begun. */
  function PagesBegun(run: LoopRun): int {
    run.listReads - if run.stop == EmptyPage || run.stop == PageFailed then 1 else 0
  }

  /**
   * One clean signal for every page whose fan-out was begun, and a rate-limited one
   * exactly when the loop stopped on a read whose first source error is that.
   */
  lemma {:induction false} SignalsTellReads(conf: RunConf, s: Loop, turns: seq<PageTurn>)
    requires forall turn <- turns :: |turn.write| == MAX_CAS_ROUNDS
    ensures var run := RunLoop(conf, s, turns);
            && PagesBegun(run) >= 0
            && T.SignalsOf(conf, s, turns)
               == T.Times(T.Clean, PagesBegun(run)) + if IsRateLimitedStop(run, turns) then [T.Limited] else []
    decreases |turns|
  {
    if GoesOn(conf, s, turns) {
      LoopGoesOn(conf, s, turns);
      var next := CompletePage(conf, s, turns[0]);
      SignalsTellReads(conf, next, turns[1..]);
      OneSignalMore(conf, s, turns, RunLoop(conf, next, turns[1..]));
    } else {
      LastSignals(conf, s, turns);
    }
  }

  lemma OneSignalMore(conf: RunConf, s: Loop, turns: seq<PageTurn>, rest: LoopRun)
    requires GoesOn(conf, s, turns) && forall turn <- turns :: |turn.write| == MAX_CAS_ROUNDS
    requires |turns[0].write| == MAX_CAS_ROUNDS && PagesBegun(rest) >= 0
    requires rest.stop == PageFailed ==> rest.listReads > 0
    requires T.SignalsOf(conf, CompletePage(conf, s, turns[0]), turns[1..])
             == T.Times(T.Clean, PagesBegun(rest)) + if IsRateLimitedStop(rest, turns[1..]) then [T.Limited] else []
    ensures T.SignalsOf(conf, s, turns)
            == T.Times(T.Clean, PagesBegun(rest) + 1)
               + if IsRateLimitedStop(ReadMore(rest, 1), turns) then [T.Limited] else []
  {
    assert [T.Clean] + T.Times(T.Clean, PagesBegun(rest)) == T.Times(T.Clean, PagesBegun(rest) + 1);
    if 1 <= rest.listReads <= |turns| - 1 {
      assert turns[1..][rest.listReads - 1] == turns[rest.listReads];
    }
  }

  lemma LastSignals(conf: RunConf, s: Loop, turns: seq<PageTurn>)
    requires !GoesOn(conf, s, turns) && forall turn <- turns :: |turn.write| == MAX_CAS_ROUNDS
    ensures var run := RunLoop(conf, s, turns);
            && PagesBegun(run) >= 0
            && T.SignalsOf(conf, s, turns)
               == T.Times(T.Clean, PagesBegun(run)) + if IsRateLimitedStop(run, turns) then [T.Limited] else []
  {
    if turns != [] && CapAllows(conf, s.lastCompletedPage) {
      if !turns[0].report.ok {
        RateLimitedIsTold(turns[0].report);
      }
      assert T.Times(T.Clean, 1) == [T.Clean];
    }
  }

  // ----- The records -----

  /** A record that says whose it is, when it was begun and written, and how far the run has come. */
  ghost predicate RecordSays(c: Checkpoint, run: RunIdentity, now: string, s: Loop, status: Status) {
    && c.runId == run.runId && c.sourceUrl == run.slug
    && c.createdAt == run.startedAt && c.updatedAt == now
    && c.status == status && c.lastSourceFailure.None?
    && c.lastCompletedPage == c.discoveredLastPage == s.lastCompletedPage
    && c.pages == s.pages
  }

  /** The final record is what is stored once its write lands without losing a round. */
  lemma FinalRecordLands(conf: RunConf, run: LoopRun, now: string, write: seq<Turn>)
    requires |write| == MAX_CAS_ROUNDS && Returns(run) && StatusOf(run) == CompleteRun
    requires var landed := WriteCheckpoint(run.loop.stored, FinalRecord(conf, run.loop, now), run.loop.etag,
                                           conf.conditionalWrites, write);
             landed.outcome.Written? && landed.lost == 0
    ensures Assembled(conf, run, now, write).stored.Present?
    ensures Assembled(conf, run, now, write).stored.body == Parsed(FinalRecord(conf, run.loop, now))
    ensures RecordSays(FinalRecord(conf, run.loop, now), conf.identity, now, run.loop, Complete)
  {
    var call := Call(run.loop.stored, FinalRecord(conf, run.loop, now), run.loop.etag, conf.conditionalWrites, write);
    WriteSucceeds(call);
  }

  /** And a page's record is, once its write does. */
  lemma PageRecordLands(conf: RunConf, s: Loop, turn: PageTurn)
    requires Completes(turn.Page(), s.stores, turn.actions) && |turn.write| == MAX_CAS_ROUNDS
    requires var next := CompletePage(conf, s, turn);
             var record := PageCheckpoint(conf.identity, turn.now, next.lastCompletedPage, next.pages);
             var landed := WriteCheckpoint(s.stored, record, s.etag, conf.conditionalWrites, turn.write);
             landed.outcome.Written? && landed.lost == 0
    ensures var next := CompletePage(conf, s, turn);
            && next.stored.Present? && next.stored.body.Parsed?
            && RecordSays(next.stored.body.checkpoint, conf.identity, turn.now, next, Running)
            && next.lastCompletedPage == s.lastCompletedPage + 1 && next.lastCompletedPage in next.pages
            && next.pages[next.lastCompletedPage].status == "running"
            && next.pages[next.lastCompletedPage].counts.discovered == |turn.report.candidates|
            && next.pages - {next.lastCompletedPage} == s.pages - {next.lastCompletedPage}
  {
    var next := CompletePage(conf, s, turn);
    var record := PageCheckpoint(conf.identity, turn.now, next.lastCompletedPage, next.pages);
    WriteSucceeds(Call(s.stored, record, s.etag, conf.conditionalWrites, turn.write));
  }

  // ----- What exit 0 means -----

  /** Each candidate of a page has the bytes served at its own address stored, and a row for them. */
  ghost predicate TurnLanded(turn: PageTurn, stores: Stores) {
    forall c <- turn.report.candidates ::
      exists bytes :: IsServed(turn.content, c, bytes) && HasLanded(stores, c, bytes)
  }

  ghost predicate ReadsLanded(turns: seq<PageTurn>, n: nat, stores: Stores) {
    n <= |turns| && forall t | 0 <= t < n :: TurnLanded(turns[t], stores)
  }

  lemma {:induction false} ResultsAreTasks(tasks: seq<Task>)
    requires forall i | 0 <= i < |tasks| :: tasks[i].Settled?
    ensures var values := Settlements(tasks);
            && |RawResults(values)| == |StagingResults(values)| == |tasks|
            && forall i | 0 <= i < |tasks| ::
                 RawResults(values)[i] == tasks[i].raw && StagingResults(values)[i] == tasks[i].staging
  {
    if tasks != [] {
      ResultsAreTasks(tasks[..|tasks| - 1]);
      ResultsOfLast(tasks);
    }
  }

  lemma {:induction false} ResultsAreKept(conf: RunConf, s: Loop, turns: seq<PageTurn>)
    requires forall turn <- turns :: |turn.write| == MAX_CAS_ROUNDS
    ensures var end := RunLoop(conf, s, turns).loop;
            && s.rawStorage <= end.rawStorage && s.staging <= end.staging
    decreases |turns|
  {
    if GoesOn(conf, s, turns) {
      LoopGoesOn(conf, s, turns);
      ResultsAreKept(conf, CompletePage(conf, s, turns[0]), turns[1..]);
    }
  }

  lemma PrefixLanded(some: Loop, all: Loop)
    requires some.rawStorage <= all.rawStorage && some.staging <= all.staging && AllResultsLanded(all)
    ensures AllResultsLanded(some)
  {
    forall raw | raw in some.rawStorage
      ensures RawLanded(raw)
    {
      assert raw in all.rawStorage;
    }
    forall staging | staging in some.staging
      ensures StagingLanded(staging)
    {
      assert staging in all.staging;
    }
  }

  /** Gathered without the gate, every task has its two results. */
  lemma TasksSettle(page: Page, stores: Stores, actions: seq<Action>)
    requires Sane(stores) && !page.gated && Completes(page, stores, actions)
    ensures forall task <- Ingested(page, stores, actions).tasks :: task.Settled?
  {
    var s := Ingested(page, stores, actions);
    IngestIsTruthful(page, Start(page, stores), actions);
    forall i | 0 <= i < |s.tasks|
      ensures s.tasks[i].Settled?
    {
      assert IsDone(s.tasks[i]) && TaskTrue(page, s.stores, i, s.tasks[i]);
    }
  }

  lemma TaskLanded(page: Page, stores: Stores, actions: seq<Action>, i: nat)
    requires Sane(stores) && Completes(page, stores, actions) && i < |page.candidates|
    requires var task := Ingested(page, stores, actions).tasks[i];
             task.Settled? && RawLanded(task.raw) && StagingLanded(task.staging)
    ensures exists bytes :: IsServed(page.content, page.candidates[i], bytes)
                            && HasLanded(Ingested(page, stores, actions).stores, page.candidates[i], bytes)
  {
    var s := Ingested(page, stores, actions);
    IngestIsTruthful(page, Start(page, stores), actions);
    assert TaskTrue(page, s.stores, i, s.tasks[i]);
    DownloadsAreTold(page, stores, actions, i);
    assert HasLanded(s.stores, page.candidates[i], s.tasks[i].raw.bytes);
  }

  lemma TaskResultsAreKept(conf: RunConf, s: Loop, turn: PageTurn, i: nat)
    requires Sane(s.stores) && Completes(turn.Page(), s.stores, turn.actions) && |turn.write| == MAX_CAS_ROUNDS
    requires i < |turn.report.candidates|
    ensures var task, next := Ingested(turn.Page(), s.stores, turn.actions).tasks[i], CompletePage(conf, s, turn);
            task.Settled? && task.raw in next.rawStorage && task.staging in next.staging
  {
    var tasks, next := Ingested(turn.Page(), s.stores, turn.actions).tasks, CompletePage(conf, s, turn);
    TasksSettle(turn.Page(), s.stores, turn.actions);
    assert forall k | 0 <= k < |tasks| :: tasks[k] in tasks;
    ResultsAreTasks(tasks);
    assert RawResults(Settlements(tasks))[i] in next.rawStorage;
    assert StagingResults(Settlements(tasks))[i] in next.staging;
  }

  /** A page all of whose results landed has the bytes served at its candidates' addresses stored and staged. */
  lemma PageLanded(conf: RunConf, s: Loop, turn: PageTurn)
    requires Sane(s.stores) && Completes(turn.Page(), s.stores, turn.actions) && |turn.write| == MAX_CAS_ROUNDS
    requires AllResultsLanded(CompletePage(conf, s, turn))
    ensures TurnLanded(turn, CompletePage(conf, s, turn).stores)
  {
    forall c | c in turn.report.candidates
      ensures exists bytes ::
                IsServed(turn.content, c, bytes) && HasLanded(CompletePage(conf, s, turn).stores, c, bytes)
    {
      var i :| 0 <= i < |turn.report.candidates| && turn.report.candidates[i] == c;
      TaskResultsAreKept(conf, s, turn, i);
      TaskLanded(turn.Page(), s.stores, turn.actions, i);
    }
  }

  lemma TurnStaysLanded(turn: PageTurn, before: Stores, after: Stores)
    requires TurnLanded(turn, before) && Extends(before, after)
    ensures TurnLanded(turn, after)
  {
    forall c | c in turn.report.candidates
      ensures exists bytes :: IsServed(turn.content, c, bytes) && HasLanded(after, c, bytes)
    {
      var bytes :| IsServed(turn.content, c, bytes) && HasLanded(before, c, bytes);
      TakenSurvives(before.rows, after.rows, PayloadOf(c, bytes));
    }
  }

  lemma {:induction false} LandedRunStoresWhatIsServed(conf: RunConf, s: Loop, turns: seq<PageTurn>)
    requires LoopTrue(s) && forall turn <- turns :: |turn.write| == MAX_CAS_ROUNDS
    requires var run := RunLoop(conf, s, turns);
             AllResultsLanded(run.loop) && (run.stop == EmptyPage || run.stop == AllDuplicate)
    ensures ReadsLanded(turns, RunLoop(conf, s, turns).listReads, RunLoop(conf, s, turns).loop.stores)
    decreases |turns|
  {
    var run := RunLoop(conf, s, turns);
    if run.stop == AllDuplicate || GoesOn(conf, s, turns) {
      var next := CompletePage(conf, s, turns[0]);
      assert turns[0] in turns;
      CompletedPageKeepsTruth(conf, s, turns[0]);
      if GoesOn(conf, s, turns) {
        LoopGoesOn(conf, s, turns);
        var rest := RunLoop(conf, next, turns[1..]);
        ResultsAreKept(conf, next, turns[1..]);
        PrefixLanded(next, rest.loop);
        PageLanded(conf, s, turns[0]);
        RunKeepsStores(conf, next, turns[1..]);
        TurnStaysLanded(turns[0], next.stores, rest.loop.stores);
        LandedRunStoresWhatIsServed(conf, next, turns[1..]);
        FirstThenRest(turns, rest.listReads, run.loop.stores);
      } else {
        PageLanded(conf, s, turns[0]);
      }
    }
  }

  lemma FirstThenRest(turns: seq<PageTurn>, n: nat, stores: Stores)
    requires turns != [] && TurnLanded(turns[0], stores) && ReadsLanded(turns[1..], n, stores)
    ensures ReadsLanded(turns, n + 1, stores)
  {
    forall t | 0 <= t < n + 1
      ensures TurnLanded(turns[t], stores)
    {
      assert t > 0 ==> turns[t] == turns[1..][t - 1];
    }
  }

  /**
   * A run's result is ok exactly when every read was and every result landed, its
   * exit code is 0 or 2, and 0 means that of every candidate of every page read the
   * bytes served at its own address are stored and have a row.
   */
  lemma ExitZeroStoresWhatIsServed(conf: RunConf, found: ReadResult, stores: Stores, stored: StoredObject,
                                   turns: seq<PageTurn>, now: string, write: seq<Turn>)
    requires Sane(stores) && |write| == MAX_CAS_ROUNDS && forall turn <- turns :: |turn.write| == MAX_CAS_ROUNDS
    requires Returns(RunLoop(conf, StartLoop(found, stores, stored), turns))
    ensures var run := RunLoop(conf, StartLoop(found, stores, stored), turns);
            var result := Assembled(conf, run, now, write);
            && run.listReads <= |turns|
            && (result.ok <==> EveryReadOk(turns, run.listReads) && AllResultsLanded(run.loop))
            && (result.exitCode == 0 || result.exitCode == 2)
            && (result.exitCode == 0 ==> ReadsLanded(turns, run.listReads, run.loop.stores))
  {
    var s := StartLoop(found, stores, stored);
    var run := RunLoop(conf, s, turns);
    RunReadsOk(conf, s, turns);
    NoCategoriesExactlyWhenLanded(run.loop.report, run.loop.rawStorage, run.loop.staging);
    ExitsZeroExactlyWhenAllLanded(conf, found, stores, stored, turns, now, write);
    if Assembled(conf, run, now, write).exitCode == 0 {
      LandedRunStoresWhatIsServed(conf, s, turns);
    }
  }
}
