/** When the page loop ends by itself, and what an all-duplicate page says about the stores. */
module PageLoopTermination {
  import opened Payloads
  import opened Ingest
  import opened IngestPage
  import opened CheckpointStore
  import opened RunProtocol
  import PageLoop

  // ----- All-duplicate pages -----

  predicate AllDuplicateTasks(tasks: seq<Task>)
    requires forall i | 0 <= i < |tasks| :: IsDone(tasks[i])
  {
    IsAllDuplicate(PageLoop.ToCounts(ResultOfTasks(tasks).counts))
  }

  /** Nothing was stored or staged for this candidate, and nothing failed. */
  predicate IsDuplicate(task: Task) {
    task.SkippedById? ||
    (task.Settled? && !RawIsStored(task.raw) && !RawIsFailed(task.raw) && !task.staging.Staged?
     && !task.staging.StagingFailed?)
  }

  /** A page ends the run as all-duplicate exactly when no candidate brought anything new and none failed. */
  lemma {:induction false} AllDuplicateExactlyWhen(tasks: seq<Task>)
    requires forall i | 0 <= i < |tasks| :: IsDone(tasks[i])
    ensures AllDuplicateTasks(tasks) <==> forall i | 0 <= i < |tasks| :: IsDuplicate(tasks[i])
    decreases |tasks|
  {
    if tasks != [] {
      var n := |tasks| - 1;
      AllDuplicateExactlyWhen(tasks[..n]);
      assert Settlements(tasks)[..n] == Settlements(tasks[..n]);
      ResultOfAppends(n, Settlements(tasks[..n]), SettlementOf(n, tasks[n]));
      assert Settlements(tasks) == Settlements(tasks[..n]) + [SettlementOf(n, tasks[n])];
      assert IsDone(tasks[n]);
    }
  }

  // ----- A page that has landed already -----

  ghost predicate Orderly(turn: PageLoop.PageTurn) {
    && AllServed(turn.Page())
    && (forall a <- turn.actions :: Faultless(a))
  }

  /** Ingested again without faults, a page that has landed ends the run, whatever the source lists after it. */
  lemma LandedPageEndsRun(conf: RunConf, s: PageLoop.Loop, turns: seq<PageLoop.PageTurn>)
    requires conf.maxPages.None? && Sane(s.stores)
    requires forall turn <- turns :: |turn.write| == MAX_CAS_ROUNDS
    requires turns != [] && turns[0].report.ok && turns[0].report.candidates != []
    requires Orderly(turns[0]) && AllLanded(turns[0].Page(), s.stores)
    requires Completes(turns[0].Page(), s.stores, turns[0].actions)
    ensures var run := PageLoop.RunLoop(conf, s, turns);
            && run.stop == PageLoop.AllDuplicate && run.listReads == 1
            && run.loop.lastCompletedPage == s.lastCompletedPage + 1
            && ((forall a <- turns[0].actions :: !ByOthers(a)) ==> run.loop.stores == s.stores)
  {
    var page, gathered := turns[0].Page(), Ingested(turns[0].Page(), s.stores, turns[0].actions);
    IngestingAgainAddsNothing(page, s.stores, turns[0].actions);
    IngestIsTruthful(page, Start(page, s.stores), turns[0].actions);
    forall i | 0 <= i < |gathered.tasks|
      ensures IsDuplicate(gathered.tasks[i])
    {
      assert TaskTrue(page, gathered.stores, i, gathered.tasks[i]) && !TaskFailed(gathered.tasks[i]);
      assert gathered.tasks[i].Settled? && NothingNew(gathered.tasks[i]);
    }
    AllDuplicateExactlyWhen(gathered.tasks);
    assert turns[0] in turns;
  }

  // ----- Termination -----

  /** The source answers both reads with the same rows, and serves the same bytes for each. */
  predicate SamePage(a: Page, b: Page) {
    && a.candidates == b.candidates
    && forall c <- a.candidates ::
         FetchUrl(c) in a.content && FetchUrl(c) in b.content && a.content[FetchUrl(c)] == b.content[FetchUrl(c)]
  }

  /** After its page N, read `k` reads from here, the source is empty or repeats it, and no candidate of it fails. */
  ghost predicate EndsAfter(turns: seq<PageLoop.PageTurn>, k: nat) {
    && k < |turns|
    && (turns[k].report.candidates != [] ==>
          k > 0 && Orderly(turns[k - 1]) && Orderly(turns[k]) && SamePage(turns[k - 1].Page(), turns[k].Page()))
  }

  lemma SamePageLanded(a: Page, b: Page, stores: Stores)
    requires SamePage(a, b) && AllLanded(a, stores)
    ensures AllLanded(b, stores)
  {
    forall i | 0 <= i < |b.candidates|
      ensures Landed(b, stores, b.candidates[i])
    {
      assert a.candidates[i] in a.candidates && Landed(a, stores, a.candidates[i]);
    }
  }

  /** The page of the first read is ingested without a failure, and the second read lists it again. */
  lemma RepeatedPageEndsRun(conf: RunConf, s: PageLoop.Loop, turns: seq<PageLoop.PageTurn>)
    requires conf.maxPages.None? && Sane(s.stores) && |turns| >= 2
    requires forall turn <- turns :: |turn.write| == MAX_CAS_ROUNDS
    requires Orderly(turns[0]) && Completes(turns[0].Page(), s.stores, turns[0].actions) && turns[0] in turns
    requires turns[1].report.candidates != [] ==> Orderly(turns[1]) && SamePage(turns[0].Page(), turns[1].Page())
    ensures PageLoop.RunLoop(conf, PageLoop.CompletePage(conf, s, turns[0]), turns[1..]).stop != PageLoop.Cut
    ensures PageLoop.RunLoop(conf, PageLoop.CompletePage(conf, s, turns[0]), turns[1..]).listReads <= 1
  {
    var page, next := turns[0].Page(), PageLoop.CompletePage(conf, s, turns[0]);
    FaultlessPageIsUnfailed(page, Start(page, s.stores), turns[0].actions);
    UnfailedPageLands(page, s.stores, turns[0].actions);
    assert turns[1..][0] == turns[1];
    if turns[1].report.ok && turns[1].report.candidates != []
       && Completes(turns[1].Page(), next.stores, turns[1].actions) {
      SamePageLanded(page, turns[1].Page(), next.stores);
      LandedPageEndsRun(conf, next, turns[1..]);
    }
  }

  lemma EndsSooner(turns: seq<PageLoop.PageTurn>, k: nat)
    requires EndsAfter(turns, k) && k > 1
    ensures EndsAfter(turns[1..], k - 1)
  {
    assert turns[1..][k - 2] == turns[k - 1] && turns[1..][k - 1] == turns[k];
  }

  /** The run stops by itself, within so many reads. */
  ghost predicate StopsWithin(conf: RunConf, s: PageLoop.Loop, turns: seq<PageLoop.PageTurn>, n: nat)
    requires forall turn <- turns :: |turn.write| == MAX_CAS_ROUNDS
  {
    PageLoop.RunLoop(conf, s, turns).stop != PageLoop.Cut && PageLoop.RunLoop(conf, s, turns).listReads <= n
  }

  lemma OneReadMore(conf: RunConf, s: PageLoop.Loop, turns: seq<PageLoop.PageTurn>, n: nat)
    requires conf.maxPages.None? && turns != [] && turns[0] in turns
    requires forall turn <- turns :: |turn.write| == MAX_CAS_ROUNDS
    requires turns[0].report.ok && turns[0].report.candidates != []
             && Completes(turns[0].Page(), s.stores, turns[0].actions) ==>
               StopsWithin(conf, PageLoop.CompletePage(conf, s, turns[0]), turns[1..], n)
    ensures StopsWithin(conf, s, turns, n + 1)
  {
  }

  /** Without a cap, a run whose source ends after `k` more pages makes at most `k + 1` more list reads. */
  lemma {:induction false} RunReadsAtMostOnePageMore(conf: RunConf, s: PageLoop.Loop, turns: seq<PageLoop.PageTurn>,
                                                     k: nat)
    requires conf.maxPages.None? && Sane(s.stores)
    requires forall turn <- turns :: |turn.write| == MAX_CAS_ROUNDS
    requires EndsAfter(turns, k)
    ensures StopsWithin(conf, s, turns, k + 1)
    decreases k
  {
    var page := turns[0].Page();
    assert turns[0] in turns;
    if turns[0].report.ok && turns[0].report.candidates != [] && Completes(page, s.stores, turns[0].actions) {
      IngestIsTruthful(page, Start(page, s.stores), turns[0].actions);
      if k > 1 {
        EndsSooner(turns, k);
        RunReadsAtMostOnePageMore(conf, PageLoop.CompletePage(conf, s, turns[0]), turns[1..], k - 1);
      } else if turns[1].report.candidates != [] {
        RepeatedPageEndsRun(conf, s, turns);
      } else {
        EmptyPageEndsRun(conf, PageLoop.CompletePage(conf, s, turns[0]), turns[1..]);
      }
    }
    OneReadMore(conf, s, turns, k);
  }

  lemma EmptyPageEndsRun(conf: RunConf, s: PageLoop.Loop, turns: seq<PageLoop.PageTurn>)
    requires conf.maxPages.None? && turns != [] && turns[0].report.candidates == []
    requires forall turn <- turns :: |turn.write| == MAX_CAS_ROUNDS
    ensures StopsWithin(conf, s, turns, 1)
  {
  }
}
