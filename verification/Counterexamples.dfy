/** Concrete sources over which a split run, or a run after a crash, leaves pages out. */
module Counterexamples {
  import opened Wrappers
  import opened RawStorage
  import opened Payloads
  import opened Ingest
  import opened Schedules
  import opened Checkpoints
  import opened CheckpointStore
  import opened RunCheckpoint
  import opened RunProtocol
  import opened Summary
  import opened PageLoop
  import S = SplitRuns
  import C = Coverage

  const FIRST := Candidate("first.json", None, None, None, None, "first")

  const SECOND := Candidate("second.json", None, None, None, None, "second")

  const CONTENT: map<string, Bytes> := map["first" := [1], "second" := [2]]

  /** Page 2 repeats page 1, page 3 lists another replay, and nothing is listed after it. */
  function ThreePages(page: nat): DiscoveryReport {
    DiscoveryReport(true, if page <= 2 then [FIRST] else if page == 3 then [SECOND] else [], [], 0)
  }

  const CONF := RunConf(RunIdentity("r", "s", "t"), true, None)

  /** Nothing stored, nothing staged, no checkpoint. */
  const NEW_SITE := S.Site(Stores(map[], []), Absent)

  /** The source is that of the example, and its ingest served, faultless and alone. */
  ghost predicate IsExample(corpus: S.Corpus) {
    && C.HasPages(corpus, 3)
    && corpus.content == CONTENT
    && forall page :: corpus.report(page) == ThreePages(page)
  }

  lemma ExampleCorpus() returns (corpus: S.Corpus)
    ensures IsExample(corpus)
  {
    corpus := S.EverySourceIsACorpus(ThreePages, CONTENT, 1);
    forall page
      ensures AllServed(corpus.Listed(page))
    {
      assert forall c <- corpus.Listed(page).candidates :: FetchUrl(c) in CONTENT;
    }
    forall page, stores
      ensures forall a <- corpus.schedule(page, stores) :: Faultless(a) && !ByOthers(a)
    {
      assert Undisturbed(corpus.schedule(page, stores));
    }
  }

  /** Page 1 is new to a new site, and once it is ingested both of the first two pages have landed. */
  lemma FirstPageIsNew(corpus: S.Corpus)
    requires IsExample(corpus)
    ensures var pt := S.PointAt(NEW_SITE);
            && pt.last == 0 && !C.LandedBefore(corpus, pt)
            && Sane(S.ResultAt(corpus, pt).stores)
            && AllLanded(corpus.Listed(1), S.ResultAt(corpus, pt).stores)
            && AllLanded(corpus.Listed(2), S.ResultAt(corpus, pt).stores)
  {
    var pt := S.PointAt(NEW_SITE);
    var page, actions := corpus.Listed(1), corpus.schedule(1, pt.stores);
    assert page.candidates == [FIRST] && !Landed(page, pt.stores, page.candidates[0]);
    FaultlessPageIsUnfailed(page, Start(page, pt.stores), actions);
    UnfailedPageLands(page, pt.stores, actions);
    assert corpus.Listed(2) == page;
  }

  /** Over the example a run from a new site ends on page 2. */
  lemma EndsOnSecondPage(corpus: S.Corpus) returns (end: S.Point)
    requires IsExample(corpus)
    ensures S.EndsAt(S.WalkOver(corpus), S.PointAt(NEW_SITE), 1, end)
    ensures S.WalkOver(corpus).news(S.AdvanceBy(S.WalkOver(corpus), S.PointAt(NEW_SITE), 1)) == S.NothingNew
    ensures end.last == 2 && Sane(end.stores)
  {
    var w, pt := S.WalkOver(corpus), S.PointAt(NEW_SITE);
    FirstPageIsNew(corpus);
    C.NewsTellsLanding(corpus, 3, pt);
    C.NewsTellsLanding(corpus, 3, w.next(pt));
    assert S.AdvanceBy(w, pt, 1) == S.AdvanceBy(w, w.next(pt), 0) == w.next(pt);
    assert S.KeepsGoing(w, pt, 1) by {
      assert S.KeepsGoing(w, w.next(pt), 0);
    }
    end := w.next(w.next(pt));
  }

  /** From page 2 on it ends on page 3, and page 3 is listed. */
  lemma EndsOnThirdPage(corpus: S.Corpus, pt: S.Point) returns (k: nat, end: S.Point)
    requires IsExample(corpus) && pt.last == 2 && Sane(pt.stores)
    ensures S.EndsAt(S.WalkOver(corpus), pt, k, end)
    ensures S.WalkOver(corpus).news(pt) != S.NothingListed
  {
    var w := S.WalkOver(corpus);
    C.NewsTellsLanding(corpus, 3, pt);
    end := w.next(pt);
    assert S.AdvanceBy(w, pt, 0) == pt;
    if w.news(pt) == S.NothingNew {
      k := 0;
    } else {
      k := 1;
      assert S.AdvanceBy(w, pt, 1) == S.AdvanceBy(w, end, 0) == end;
      assert S.KeepsGoing(w, end, 0);
      assert w.news(end) == S.NothingListed;
    }
  }

  /** The run that ends there, killed after page 2's checkpoint: the next one starts with page 3. */
  lemma KilledOnSecondPage(corpus: S.Corpus, end: S.Point, whole: S.Attempt) returns (killed: S.Attempt)
    requires IsExample(corpus) && S.Finishes(corpus, NEW_SITE, whole) && S.RunOf(NEW_SITE, whole).stop == AllDuplicate
    requires S.EndsAt(S.WalkOver(corpus), S.PointAt(NEW_SITE), 1, end)
    ensures killed == whole.(killed := true) && S.Interrupted(corpus, NEW_SITE, killed)
    ensures S.RunOf(NEW_SITE, killed).stop == AllDuplicate && S.PointOf(S.RunOf(NEW_SITE, killed).loop) == end
    ensures S.PointAt(S.Perform(NEW_SITE, killed)) == end
    ensures S.Perform(NEW_SITE, killed).stored.Absent? || S.Perform(NEW_SITE, killed).stored.body.Parsed?
  {
    killed := whole.(killed := true);
    var n := S.InterruptedRunLeaves(corpus, NEW_SITE, killed);
    S.EndIsUnique(S.WalkOver(corpus), S.PointAt(NEW_SITE), 1, end, n, S.PointAt(S.Perform(NEW_SITE, killed)));
    KilledRunLeavesRecord(corpus, killed);
  }

  lemma KilledRunLeavesRecord(corpus: S.Corpus, a: S.Attempt)
    requires corpus.Valid() && S.FollowsFrom(corpus, NEW_SITE, a) && a.killed
    ensures S.Perform(NEW_SITE, a).stored.Absent? || S.Perform(NEW_SITE, a).stored.body.Parsed?
  {
    var n := S.LoopFollows(corpus, a.conf, S.StartOf(NEW_SITE), a.turns);
  }

  lemma TwoRunChain(corpus: S.Corpus, killed: S.Attempt, resumed: S.Attempt) returns (chain: seq<S.Attempt>)
    requires corpus.Valid() && S.Interrupted(corpus, NEW_SITE, killed)
    requires S.Finishes(corpus, S.Perform(NEW_SITE, killed), resumed)
    requires S.RunOf(NEW_SITE, killed).stop == AllDuplicate
    requires S.WalkOver(corpus).news(S.PointOf(S.RunOf(NEW_SITE, killed).loop)) != S.NothingListed
    ensures chain == [killed, resumed]
    ensures S.IsChain(corpus, NEW_SITE, chain) && !S.CutsAreHarmless(corpus, NEW_SITE, chain)
  {
    chain := [killed, resumed];
    assert chain[1..] == [resumed];
  }

  /** A run killed after page 2's checkpoint, and resumed, does not end where the uninterrupted run does. */
  lemma SplitRunDiffers() returns (corpus: S.Corpus, whole: S.Attempt, chain: seq<S.Attempt>)
    ensures IsExample(corpus) && S.Finishes(corpus, NEW_SITE, whole) && S.IsChain(corpus, NEW_SITE, chain)
    ensures |chain| == 2 && chain[0] == whole.(killed := true)
    ensures !S.CutsAreHarmless(corpus, NEW_SITE, chain)
    ensures !S.SameOutcome(S.Perform(NEW_SITE, whole), S.PerformAll(corpus, NEW_SITE, chain))
  {
    corpus := ExampleCorpus();
    var end := EndsOnSecondPage(corpus);
    whole := S.EveryEndIsReached(corpus, CONF, NEW_SITE, 1, end);
    S.WalkComesToEnd(S.WalkOver(corpus), S.PointAt(NEW_SITE), 1);
    var killed := KilledOnSecondPage(corpus, end, whole);
    var k, later := EndsOnThirdPage(corpus, end);
    var resumed := S.EveryEndIsReached(corpus, CONF, S.Perform(NEW_SITE, killed), k, later);
    chain := TwoRunChain(corpus, killed, resumed);
    S.SplitRunEquivalence(corpus, NEW_SITE, whole, chain);
  }

  /** What a run leaves that dies between the ingest of page 1 and its checkpoint. */
  ghost predicate DiedOnFirstPage(corpus: S.Corpus, site: S.Site) {
    var s := S.StartOf(NEW_SITE);
    var turn := S.TurnAt(corpus, s);
    Completes(turn.Page(), s.stores, turn.actions) && site == C.DiesBeforeCheckpoint(s, turn)
  }

  lemma SiteAfterDeath(corpus: S.Corpus) returns (site: S.Site)
    requires IsExample(corpus)
    ensures DiedOnFirstPage(corpus, site)
    ensures site.stored.Absent?
    ensures S.EndsAt(S.WalkOver(corpus), S.PointAt(site), 0, S.WalkOver(corpus).next(S.PointAt(site)))
    ensures S.PointAt(site).last == 0
  {
    FirstPageIsNew(corpus);
    assert S.TurnAt(corpus, S.StartOf(NEW_SITE)).Page() == corpus.Listed(1);
    site := S.Site(S.ResultAt(corpus, S.PointAt(NEW_SITE)).stores, Absent);
    C.NewsTellsLanding(corpus, 3, S.PointAt(site));
    assert S.AdvanceBy(S.WalkOver(corpus), S.PointAt(site), 0) == S.PointAt(site);
  }

  /**
   * A run dies between the ingest of page 1 and its checkpoint; the next run
   * reports complete, and its record names page 1, of three that are listed.
   */
  lemma CrashLeavesPagesOut() returns (corpus: S.Corpus, site: S.Site, a: S.Attempt)
    ensures IsExample(corpus) && DiedOnFirstPage(corpus, site) && S.Finishes(corpus, site, a)
    ensures var stored := S.Perform(site, a).stored;
            && stored.Present? && stored.body.Parsed? && stored.body.checkpoint.status == Complete
            && stored.body.checkpoint.lastCompletedPage == 1
  {
    corpus := ExampleCorpus();
    site := SiteAfterDeath(corpus);
    var w, pt := S.WalkOver(corpus), S.PointAt(site);
    a := S.EveryEndIsReached(corpus, CONF, site, 0, w.next(pt));
    var n, end := S.FinishedRunEnds(corpus, site, a);
    S.EndIsUnique(w, pt, 0, w.next(pt), n, end);
    S.NextCountsPages(corpus);
  }
}
