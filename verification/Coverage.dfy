/** What a complete status says of the corpus: everything up to the first page without news, and no more. */
module Coverage {
  import opened Payloads
  import opened Ingest
  import opened IngestPage
  import opened Checkpoints
  import opened CheckpointStore
  import opened RunProtocol
  import opened Summary
  import opened PageLoop
  import opened RunOnce
  import opened SplitRuns
  import T = PageLoopTermination

  // ----- A page without news has landed before -----

  /** What a candidate's fan-out has come to so far can still end as a duplicate. */
  predicate MayBeDuplicate(task: Task) {
    match task
    case Held(raw) => !RawIsStored(raw) && !RawIsFailed(raw)
    case Settled(_, _) => T.IsDuplicate(task)
    case Thrown => false
    case _ => true
  }

  lemma OwnChangeIsNews(page: Page, s: State, a: Action)
    requires |s.tasks| == |page.candidates| && Ingest.Enabled(page, s, a) && !ByOthers(a)
    ensures !MayBeDuplicate(s.tasks[a.i]) ==> !MayBeDuplicate(Act(page, s, a).tasks[a.i])
    ensures MayBeDuplicate(Act(page, s, a).tasks[a.i]) ==> Act(page, s, a).stores == s.stores
  {
    if a.StageRow? && IsStageable(s.tasks[a.i].raw) {
      var raw := s.tasks[a.i].raw;
      AnswerMeetsSpec(s.stores.rows, PayloadOf(raw.candidate, raw.bytes), a.fate.id);
    }
  }

  predicate AllMayBeDuplicate(tasks: seq<Task>) {
    forall i | 0 <= i < |tasks| :: MayBeDuplicate(tasks[i])
  }

  /** Alone on the stores, a fan-out in which every candidate ends as a duplicate changes neither. */
  lemma {:induction false} DuplicatesChangeNothing(page: Page, s: State, actions: seq<Action>)
    requires |s.tasks| == |page.candidates| && Ingest.Possible(page, s, actions)
    requires forall a <- actions :: !ByOthers(a)
    requires AllMayBeDuplicate(Ingest.Outcome(page, s, actions).tasks)
    ensures Ingest.Outcome(page, s, actions).stores == s.stores && AllMayBeDuplicate(s.tasks)
    decreases |actions|
  {
    if actions != [] {
      assert actions[0] in actions && forall a <- actions[1..] :: a in actions;
      DuplicatesChangeNothing(page, Act(page, s, actions[0]), actions[1..]);
      OwnChangeIsNews(page, s, actions[0]);
      assert forall i | 0 <= i < |s.tasks| && i != actions[0].i :: Act(page, s, actions[0]).tasks[i] == s.tasks[i];
    }
  }

  /** Served and without faults, a page is all-duplicate exactly when all of it had landed already. */
  lemma AllDuplicateExactlyWhenLanded(page: Page, stores: Stores, actions: seq<Action>)
    requires Sane(stores) && !page.gated && AllServed(page) && Completes(page, stores, actions)
    requires forall a <- actions :: Faultless(a) && !ByOthers(a)
    ensures T.AllDuplicateTasks(Ingested(page, stores, actions).tasks) <==> AllLanded(page, stores)
  {
    var s := Ingested(page, stores, actions);
    T.AllDuplicateExactlyWhen(s.tasks);
    if AllLanded(page, stores) {
      IngestingAgainAddsNothing(page, stores, actions);
      IngestIsTruthful(page, Start(page, stores), actions);
      forall i | 0 <= i < |s.tasks|
        ensures T.IsDuplicate(s.tasks[i])
      {
        assert TaskTrue(page, s.stores, i, s.tasks[i]) && !TaskFailed(s.tasks[i]) && Ingest.NothingNew(s.tasks[i]);
      }
    }
    if T.AllDuplicateTasks(s.tasks) {
      DuplicatesChangeNothing(page, Start(page, stores), actions);
      FaultlessPageIsUnfailed(page, Start(page, stores), actions);
      UnfailedPageLands(page, stores, actions);
    }
  }

  // ----- Coverage -----

  /** The source lists something on each of its first `n` pages, and ingest is served, faultless and alone. */
  ghost predicate HasPages(corpus: Corpus, n: nat) {
    && corpus.Valid()
    && (forall page: nat | 1 <= page <= n :: corpus.report(page).candidates != [])
    && (forall page :: AllServed(corpus.Listed(page)))
    && (forall page, stores :: forall a <- corpus.schedule(page, stores) :: Faultless(a) && !ByOthers(a))
  }

  /** All of the page after `pt` had landed when the walk came to it. */
  ghost predicate LandedBefore(corpus: Corpus, pt: Point) {
    AllLanded(corpus.Listed(pt.last + 1), pt.stores)
  }

  lemma IngestOfPage(corpus: Corpus, n: nat, pt: Point)
    requires HasPages(corpus, n) && Sane(pt.stores)
    ensures T.AllDuplicateTasks(ResultAt(corpus, pt).tasks) <==> LandedBefore(corpus, pt)
    ensures Sane(ResultAt(corpus, pt).stores)
  {
    AllDuplicateExactlyWhenLanded(corpus.Listed(pt.last + 1), pt.stores, corpus.schedule(pt.last + 1, pt.stores));
    IngestStaysSane(corpus, pt);
  }

  lemma IngestStaysSane(corpus: Corpus, pt: Point)
    requires corpus.Valid() && Sane(pt.stores)
    ensures Sane(ResultAt(corpus, pt).stores)
  {
    var page := corpus.Listed(pt.last + 1);
    IngestIsTruthful(page, Start(page, pt.stores), corpus.schedule(pt.last + 1, pt.stores));
  }

  lemma NewsTellsLanding(corpus: Corpus, n: nat, pt: Point)
    requires HasPages(corpus, n) && Sane(pt.stores)
    ensures pt.last < n ==> WalkOver(corpus).news(pt) == if LandedBefore(corpus, pt) then NothingNew else SomethingNew
    ensures Sane(WalkOver(corpus).next(pt).stores)
  {
    IngestOfPage(corpus, n, pt);
  }

  lemma {:induction false} WalkStaysSane(corpus: Corpus, n: nat, pt: Point, i: nat)
    requires HasPages(corpus, n) && Sane(pt.stores)
    ensures Sane(AdvanceBy(WalkOver(corpus), pt, i).stores)
    decreases i
  {
    if i > 0 {
      NewsTellsLanding(corpus, n, pt);
      WalkStaysSane(corpus, n, WalkOver(corpus).next(pt), i - 1);
    }
  }

  /**
   * Where the first `n` pages all list something, a walk gets to page `n` exactly
   * when each page before it brings something new.
   */
  lemma {:induction false} GetsToPageExactlyWhen(w: Walk, n: nat, pt: Point, k: nat, end: Point)
    requires EndsAt(w, pt, k, end)
    requires forall p :: w.next(p).last == p.last + 1
    requires forall p: Point | p.last < n :: w.news(p) != NothingListed
    ensures end.last >= n <==> NewsBefore(w, pt, n)
    decreases k
  {
    assert AdvanceBy(w, pt, 0) == pt;
    if k > 0 {
      GetsToPageExactlyWhen(w, n, w.next(pt), k - 1, end);
      NewsBeforeNext(w, pt, n);
    } else if pt.last + 1 < n {
      assert w.news(AdvanceBy(w, pt, 0)) == NothingNew;
    }
  }

  /** Nor does it get further than a page after which nothing is listed. */
  lemma {:induction false} StopsBeforeEmptyPage(w: Walk, n: nat, pt: Point, k: nat, end: Point)
    requires EndsAt(w, pt, k, end) && pt.last <= n
    requires forall p :: w.next(p).last == p.last + 1
    requires forall p: Point | p.last == n :: w.news(p) == NothingListed
    ensures end.last <= n
    decreases k
  {
    if k > 0 {
      StopsBeforeEmptyPage(w, n, w.next(pt), k - 1, end);
    }
  }

  /** Each page after `pt` and before page `n` keeps the loop going when the walk is there. */
  ghost predicate NewsBefore(w: Walk, pt: Point, n: nat) {
    forall i: nat | pt.last + i + 1 < n :: w.news(AdvanceBy(w, pt, i)) == SomethingNew
  }

  lemma NewsBeforeNext(w: Walk, pt: Point, n: nat)
    requires w.news(pt) == SomethingNew && w.next(pt).last == pt.last + 1
    ensures NewsBefore(w, pt, n) <==> NewsBefore(w, w.next(pt), n)
  {
    if NewsBefore(w, w.next(pt), n) {
      forall i: nat | pt.last + i + 1 < n
        ensures w.news(AdvanceBy(w, pt, i)) == SomethingNew
      {
        assert i > 0 ==> AdvanceBy(w, pt, i) == AdvanceBy(w, w.next(pt), i - 1);
      }
    }
    if NewsBefore(w, pt, n) {
      forall i: nat | pt.last + 1 + i + 1 < n
        ensures w.news(AdvanceBy(w, w.next(pt), i)) == SomethingNew
      {
        assert AdvanceBy(w, pt, i + 1) == AdvanceBy(w, w.next(pt), i);
      }
    }
  }

  lemma NewsAlongWalk(corpus: Corpus, n: nat, pt: Point, i: nat)
    requires HasPages(corpus, n) && Sane(pt.stores) && pt.last + i < n
    ensures WalkOver(corpus).news(AdvanceBy(WalkOver(corpus), pt, i)) == SomethingNew
            <==> !LandedBefore(corpus, AdvanceBy(WalkOver(corpus), pt, i))
  {
    NextCountsPages(corpus);
    WalkStaysSane(corpus, n, pt, i);
    AdvanceByCountsPages(WalkOver(corpus), pt, i);
    NewsTellsLanding(corpus, n, AdvanceBy(WalkOver(corpus), pt, i));
  }

  /** No page before page `n` had landed, replay for replay, by the time the walk came to it. */
  ghost predicate NoneLandedBefore(corpus: Corpus, pt: Point, n: nat)
    requires corpus.Valid()
  {
    forall i: nat | pt.last + i + 1 < n :: !LandedBefore(corpus, AdvanceBy(WalkOver(corpus), pt, i))
  }

  lemma NewsBeforeIsLanding(corpus: Corpus, n: nat, pt: Point)
    requires HasPages(corpus, n) && Sane(pt.stores)
    ensures NewsBefore(WalkOver(corpus), pt, n) <==> NoneLandedBefore(corpus, pt, n)
  {
    var w := WalkOver(corpus);
    forall i: nat | pt.last + i + 1 < n
      ensures w.news(AdvanceBy(w, pt, i)) == SomethingNew <==> !LandedBefore(corpus, AdvanceBy(w, pt, i))
    {
      NewsAlongWalk(corpus, n, pt, i);
    }
  }

  lemma PagesListSomething(corpus: Corpus, n: nat)
    requires HasPages(corpus, n)
    ensures forall p: Point | p.last < n :: WalkOver(corpus).news(p) != NothingListed
    ensures corpus.report(n + 1).candidates == [] ==>
              forall p: Point | p.last == n :: WalkOver(corpus).news(p) == NothingListed
  {
  }

  /** A finished run has got to page `n` exactly when no page before it had landed when the run came to it. */
  lemma CoversExactlyWhen(corpus: Corpus, n: nat, pt: Point, k: nat, end: Point)
    requires HasPages(corpus, n) && Sane(pt.stores)
    requires EndsAt(WalkOver(corpus), pt, k, end)
    ensures end.last >= n <==> NoneLandedBefore(corpus, pt, n)
    ensures corpus.report(n + 1).candidates == [] && pt.last <= n ==> end.last <= n
  {
    NextCountsPages(corpus);
    PagesListSomething(corpus, n);
    GetsToPageExactlyWhen(WalkOver(corpus), n, pt, k, end);
    NewsBeforeIsLanding(corpus, n, pt);
    if corpus.report(n + 1).candidates == [] && pt.last <= n {
      StopsBeforeEmptyPage(WalkOver(corpus), n, pt, k, end);
    }
  }

  /**
   * Whether the source is empty after page `n`, repeats it, or goes on: a complete
   * record names page `n` or a later one exactly under that condition; where the
   * source ends there, it names page `n` itself.
   */
  lemma CompleteRunCoversExactlyWhen(corpus: Corpus, n: nat, site: Site, a: Attempt)
    requires HasPages(corpus, n) && Sane(site.stores) && Finishes(corpus, site, a)
    ensures var stored := Perform(site, a).stored;
            && stored.Present? && stored.body.Parsed? && stored.body.checkpoint.status == Complete
            && (stored.body.checkpoint.lastCompletedPage >= n <==> NoneLandedBefore(corpus, PointAt(site), n))
            && (corpus.report(n + 1).candidates == [] && PointAt(site).last <= n ==>
                stored.body.checkpoint.lastCompletedPage <= n)
  {
    var k, end := FinishedRunEnds(corpus, site, a);
    CoversExactlyWhen(corpus, n, PointAt(site), k, end);
  }

  // ----- The crash that hides the rest -----

  /** The process dies once the page is gathered, before its checkpoint. */
  function DiesBeforeCheckpoint(s: Loop, turn: PageTurn): Site
    requires Completes(turn.Page(), s.stores, turn.actions)
  {
    Site(Ingested(turn.Page(), s.stores, turn.actions).stores, s.stored)
  }

  /**
   * The next run reads that page again, finds nothing new and reports complete:
   * whatever the source still lists behind it, no other page is read.
   */
  lemma CrashBeforeCheckpointHidesTheRest(s: Loop, turn: PageTurn, conf: RunConf, turns: seq<PageTurn>)
    requires Sane(s.stores) && PointAt(Site(s.stores, s.stored)).last == s.lastCompletedPage
    requires Completes(turn.Page(), s.stores, turn.actions) && T.Orderly(turn)
    requires conf.maxPages.None? && turns != [] && forall again <- turns :: |again.write| == MAX_CAS_ROUNDS
    requires turns[0].report.ok && turns[0].report.candidates != []
    requires T.Orderly(turns[0]) && T.SamePage(turn.Page(), turns[0].Page())
    requires Completes(turns[0].Page(), DiesBeforeCheckpoint(s, turn).stores, turns[0].actions)
    ensures var run := RunLoop(conf, StartOf(DiesBeforeCheckpoint(s, turn)), turns);
            && run.stop == AllDuplicate && run.listReads == 1
            && run.loop.lastCompletedPage == s.lastCompletedPage + 1
            && StatusOf(run) == CompleteRun
  {
    var site := DiesBeforeCheckpoint(s, turn);
    FaultlessPageIsUnfailed(turn.Page(), Start(turn.Page(), s.stores), turn.actions);
    UnfailedPageLands(turn.Page(), s.stores, turn.actions);
    T.SamePageLanded(turn.Page(), turns[0].Page(), site.stores);
    T.LandedPageEndsRun(conf, StartOf(site), turns);
    NaturalEndIsComplete(conf, StartOf(site), turns);
  }
}
