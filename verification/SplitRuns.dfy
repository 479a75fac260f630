/**
 * One run against a chain of runs that were each interrupted: over a fixed
 * source, a single writer and an ingest that is a function of the page and the
 * stores, where does the chain end?
 */
module SplitRuns {
  import opened Wrappers
  import opened RawStorage
  import opened Ingest
  import opened Schedules
  import opened IngestPage
  import opened Checkpoints
  import opened CheckpointStore
  import opened RunCheckpoint
  import opened RunProtocol
  import opened Summary
  import opened PageLoop
  import opened RunOnce

  /** A fixed source, and how each of its pages is ingested from given stores. */
  datatype Corpus = Corpus(
    report: nat -> DiscoveryReport, content: map<string, Bytes>, limit: nat, schedule: (nat, Stores) -> seq<Action>)
  {
    function Listed(page: nat): Page {
      Page(report(page).candidates, content, false, limit)
    }

    ghost predicate Valid() {
      && (forall page :: report(page).ok)
      && (forall page, stores :: Completes(Listed(page), stores, schedule(page, stores)))
    }
  }

  ghost function SomeSchedule(page: Page, stores: Stores): seq<Action> {
    if steps :| Completes(page, stores, steps) && Undisturbed(steps) then steps else []
  }

  /** Any source whose pages can be read is such a corpus, with an ingest that nothing disturbs. */
  lemma EverySourceIsACorpus(report: nat -> DiscoveryReport, content: map<string, Bytes>, limit: nat)
    returns (corpus: Corpus)
    requires limit > 0 && forall page :: report(page).ok
    ensures corpus.Valid() && corpus.report == report && corpus.content == content && corpus.limit == limit
    ensures forall page, stores :: Undisturbed(corpus.schedule(page, stores))
  {
    corpus := Corpus(report, content, limit,
                     (page: nat, stores: Stores) =>
                       SomeSchedule(Page(report(page).candidates, content, false, limit), stores));
    forall page: nat, stores: Stores
      ensures Completes(corpus.Listed(page), stores, corpus.schedule(page, stores))
      ensures Undisturbed(corpus.schedule(page, stores))
    {
      var steps := EveryPageCanBeGathered(corpus.Listed(page), stores);
    }
  }

  /** Where a run stands between two pages. */
  datatype Point = Point(last: nat, pages: PageMap, stores: Stores)

  ghost function ResultAt(corpus: Corpus, pt: Point): State
    requires corpus.Valid()
  {
    Ingested(corpus.Listed(pt.last + 1), pt.stores, corpus.schedule(pt.last + 1, pt.stores))
  }

  ghost function CountsAt(corpus: Corpus, pt: Point): Counts
    requires corpus.Valid()
  {
    ToCounts(ResultOfTasks(ResultAt(corpus, pt).tasks).counts)
  }

  ghost function Advance(corpus: Corpus, pt: Point): Point
    requires corpus.Valid()
  {
    Point(pt.last + 1, pt.pages[pt.last + 1 := PageEntry(CountsAt(corpus, pt), "running")], ResultAt(corpus, pt).stores)
  }

  // ----- Walking from page to page -----

  /** What the loop makes of the page after a point. */
  datatype News = NothingListed | NothingNew | SomethingNew

  datatype Walk = Walk(next: Point -> Point, news: Point -> News)

  ghost function NewsAt(corpus: Corpus, pt: Point): News
    requires corpus.Valid()
  {
    if corpus.report(pt.last + 1).candidates == [] then NothingListed
    else if IsAllDuplicate(CountsAt(corpus, pt)) then NothingNew
    else SomethingNew
  }

  ghost function WalkOver(corpus: Corpus): Walk
    requires corpus.Valid()
  {
    Walk(pt => Advance(corpus, pt), pt => NewsAt(corpus, pt))
  }

  function AdvanceBy(w: Walk, pt: Point, n: nat): Point
    decreases n
  {
    if n == 0 then pt else AdvanceBy(w, w.next(pt), n - 1)
  }

  /** The next `n` pages all keep the loop going. */
  predicate KeepsGoing(w: Walk, pt: Point, n: nat)
    decreases n
  {
    n == 0 || (w.news(pt) == SomethingNew && KeepsGoing(w, w.next(pt), n - 1))
  }

  /** From `pt`, the source ends at `end`: an empty page follows it, or it is the page that brings nothing new. */
  predicate EndsAt(w: Walk, pt: Point, n: nat, end: Point) {
    && KeepsGoing(w, pt, n)
    && var top := AdvanceBy(w, pt, n);
       || (w.news(top) == NothingListed && end == top)
       || (w.news(top) == NothingNew && end == w.next(top))
  }

  lemma {:induction false} AdvanceByAdds(w: Walk, pt: Point, m: nat, n: nat)
    requires KeepsGoing(w, pt, m)
    ensures AdvanceBy(w, AdvanceBy(w, pt, m), n) == AdvanceBy(w, pt, m + n)
    ensures KeepsGoing(w, AdvanceBy(w, pt, m), n) ==> KeepsGoing(w, pt, m + n)
    decreases m
  {
    if m > 0 {
      AdvanceByAdds(w, w.next(pt), m - 1, n);
    }
  }

  lemma {:induction false} AdvanceByCountsPages(w: Walk, pt: Point, n: nat)
    requires forall p :: w.next(p).last == p.last + 1
    ensures AdvanceBy(w, pt, n).last == pt.last + n
    decreases n
  {
    if n > 0 {
      AdvanceByCountsPages(w, w.next(pt), n - 1);
    }
  }

  lemma {:induction false} EndIsUnique(w: Walk, pt: Point, n: nat, end: Point, n': nat, end': Point)
    requires EndsAt(w, pt, n, end) && EndsAt(w, pt, n', end')
    ensures n == n' && end == end'
    decreases n + n'
  {
    if n > 0 && n' > 0 {
      EndIsUnique(w, w.next(pt), n - 1, end, n' - 1, end');
    }
  }

  // ----- One run over the corpus -----

  /** Nobody interferes and the server answers, so the first round settles the write. */
  predicate ServedWrite(write: seq<Turn>) {
    |write| == MAX_CAS_ROUNDS && write[0].beforePut.None? && write[0].put.Serve? && write[0].put.tagReturned
  }

  predicate Serves(corpus: Corpus, s: Loop, turn: PageTurn) {
    && turn.report == corpus.report(s.lastCompletedPage + 1)
    && turn.content == corpus.content && turn.limit == corpus.limit
    && turn.actions == corpus.schedule(s.lastCompletedPage + 1, s.stores)
  }

  /** The run meets the corpus page by page; a list read may fail, which ends it. */
  ghost predicate Follows(corpus: Corpus, conf: RunConf, s: Loop, turns: seq<PageTurn>)
    decreases |turns|
  {
    && conf.maxPages.None?
    && (forall turn <- turns :: ServedWrite(turn.write))
    && (turns != [] && turns[0].report.ok ==>
          && Serves(corpus, s, turns[0])
          && (Completes(turns[0].Page(), s.stores, turns[0].actions) ==>
                assert turns[0] in turns;
                Follows(corpus, conf, CompletePage(conf, s, turns[0]), turns[1..])))
  }

  function PointOf(s: Loop): Point {
    Point(s.lastCompletedPage, s.pages, s.stores)
  }

  predicate InSync(conf: RunConf, s: Loop) {
    Satisfied(ConditionalHeader(s.etag, conf.conditionalWrites), s.stored)
  }

  lemma ServedWriteLands(stored: StoredObject, checkpoint: Checkpoint, etag: Option<ETag>, conditionalWrites: bool,
                         write: seq<Turn>)
    requires ServedWrite(write) && Satisfied(ConditionalHeader(etag, conditionalWrites), stored)
    ensures var run := WriteCheckpoint(stored, checkpoint, etag, conditionalWrites, write);
            && run.stored == Present(Parsed(checkpoint), write[0].put.salt)
            && run.outcome == Written(Some(run.stored.Tag()))
  {
  }

  /** The stored record is the one a page checkpoint of this point leaves. */
  predicate Records(stored: StoredObject, pt: Point) {
    && stored.Present? && stored.body.Parsed?
    && stored.body.checkpoint.status == Running
    && stored.body.checkpoint.lastCompletedPage == pt.last
    && stored.body.checkpoint.pages == pt.pages
  }

  /** The checkpoint of a page that is gathered lands. */
  lemma PageRecorded(conf: RunConf, s: Loop, turn: PageTurn)
    requires Completes(turn.Page(), s.stores, turn.actions) && ServedWrite(turn.write) && InSync(conf, s)
    ensures InSync(conf, CompletePage(conf, s, turn))
    ensures Records(CompletePage(conf, s, turn).stored, PointOf(CompletePage(conf, s, turn)))
  {
    var page := s.lastCompletedPage + 1;
    var pages := s.pages[page := PageEntry(CountsOfPage(s, turn), "running")];
    ServedWriteLands(s.stored, PageCheckpoint(conf.identity, turn.now, page, pages), s.etag,
                     conf.conditionalWrites, turn.write);
  }

  /** The page's fan-out is the one the corpus has. */
  lemma SameIngest(corpus: Corpus, s: Loop, turn: PageTurn)
    requires corpus.Valid() && Serves(corpus, s, turn)
    ensures Completes(turn.Page(), s.stores, turn.actions)
    ensures Ingested(turn.Page(), s.stores, turn.actions) == ResultAt(corpus, PointOf(s))
  {
    assert turn.Page() == corpus.Listed(s.lastCompletedPage + 1);
  }

  /** The page is gathered as the corpus has it. */
  lemma PageGathered(corpus: Corpus, conf: RunConf, s: Loop, turn: PageTurn)
    requires corpus.Valid() && Serves(corpus, s, turn) && |turn.write| == MAX_CAS_ROUNDS
    ensures Completes(turn.Page(), s.stores, turn.actions)
    ensures NewsAt(corpus, PointOf(s)) ==
            if turn.report.candidates == [] then NothingListed
            else if IsAllDuplicate(CountsOfPage(s, turn)) then NothingNew
            else SomethingNew
    ensures PointOf(CompletePage(conf, s, turn)) == Advance(corpus, PointOf(s))
  {
    SameIngest(corpus, s, turn);
  }

  lemma PageFollows(corpus: Corpus, conf: RunConf, s: Loop, turn: PageTurn)
    requires corpus.Valid() && Serves(corpus, s, turn) && ServedWrite(turn.write) && InSync(conf, s)
    ensures Completes(turn.Page(), s.stores, turn.actions)
    ensures WalkOver(corpus).news(PointOf(s)) ==
            if turn.report.candidates == [] then NothingListed
            else if IsAllDuplicate(CountsOfPage(s, turn)) then NothingNew
            else SomethingNew
    ensures var next := CompletePage(conf, s, turn);
            && PointOf(next) == WalkOver(corpus).next(PointOf(s))
            && InSync(conf, next) && Records(next.stored, PointOf(next))
            && next.report.ok == (s.report.ok && turn.report.ok)
  {
    PageGathered(corpus, conf, s, turn);
    PageRecorded(conf, s, turn);
  }

  /** Where the loop stands when it ends, having gone on past `n` pages from `pt`. */
  ghost predicate EndsAfter(w: Walk, conf: RunConf, pt: Point, started: StoredObject, n: nat, run: LoopRun) {
    && KeepsGoing(w, pt, n)
    && InSync(conf, run.loop)
    && var top, there := AdvanceBy(w, pt, n), PointOf(run.loop);
       && (Records(run.loop.stored, there) || (there == pt && run.loop.stored == started))
       && match run.stop
          case EmptyPage => w.news(top) == NothingListed && there == top && run.loop.report.ok
          case AllDuplicate => w.news(top) == NothingNew && there == w.next(top) && run.loop.report.ok
          case PageFailed => there == top && !run.loop.report.ok
          case Cut => there == top
          case Cap => false
          case Died => false
  }

  lemma LoopStopsHere(corpus: Corpus, conf: RunConf, s: Loop, turns: seq<PageTurn>)
    requires corpus.Valid() && Follows(corpus, conf, s, turns) && InSync(conf, s) && s.report.ok
    requires !GoesOn(conf, s, turns)
    ensures EndsAfter(WalkOver(corpus), conf, PointOf(s), s.stored, 0, RunLoop(conf, s, turns))
  {
    if turns != [] && turns[0].report.ok {
      assert turns[0] in turns;
      PageFollows(corpus, conf, s, turns[0]);
    }
  }

  lemma OnePageMore(w: Walk, conf: RunConf, pt: Point, before: StoredObject, after: StoredObject, n: nat, rest: LoopRun)
    requires w.news(pt) == SomethingNew && Records(after, w.next(pt))
    requires EndsAfter(w, conf, w.next(pt), after, n, rest)
    ensures EndsAfter(w, conf, pt, before, n + 1, ReadMore(rest, 1))
  {
  }

  /** One page that goes on, as the corpus has it. */
  lemma LoopFollowsOn(corpus: Corpus, conf: RunConf, s: Loop, turns: seq<PageTurn>) returns (next: Loop)
    requires corpus.Valid() && Follows(corpus, conf, s, turns) && InSync(conf, s) && s.report.ok
    requires GoesOn(conf, s, turns)
    ensures Follows(corpus, conf, next, turns[1..]) && InSync(conf, next) && next.report.ok
    ensures RunLoop(conf, s, turns) == ReadMore(RunLoop(conf, next, turns[1..]), 1)
    ensures WalkOver(corpus).news(PointOf(s)) == SomethingNew
    ensures PointOf(next) == WalkOver(corpus).next(PointOf(s)) && Records(next.stored, PointOf(next))
  {
    assert turns[0] in turns;
    next := CompletePage(conf, s, turns[0]);
    PageFollows(corpus, conf, s, turns[0]);
    LoopGoesOn(conf, s, turns);
  }

  lemma {:induction false} LoopFollows(corpus: Corpus, conf: RunConf, s: Loop, turns: seq<PageTurn>) returns (n: nat)
    requires corpus.Valid() && Follows(corpus, conf, s, turns) && InSync(conf, s) && s.report.ok
    ensures EndsAfter(WalkOver(corpus), conf, PointOf(s), s.stored, n, RunLoop(conf, s, turns))
    decreases |turns|
  {
    if GoesOn(conf, s, turns) {
      var next := LoopFollowsOn(corpus, conf, s, turns);
      var m := LoopFollows(corpus, conf, next, turns[1..]);
      OnePageMore(WalkOver(corpus), conf, PointOf(s), s.stored, next.stored, m, RunLoop(conf, next, turns[1..]));
      n := m + 1;
    } else {
      LoopStopsHere(corpus, conf, s, turns);
      n := 0;
    }
  }

  // ----- Runs one after the other -----

  datatype Site = Site(stores: Stores, stored: StoredObject)

  /** `killed`: the process dies after the loop, before its final write. */
  datatype Attempt = Attempt(conf: RunConf, turns: seq<PageTurn>, killed: bool, now: string, write: seq<Turn>)

  function Reading(site: Site): ReadResult {
    ReadCheckpoint(site.stored, Answer(true, true)).value
  }

  function StartOf(site: Site): Loop {
    StartLoop(Reading(site), site.stores, site.stored)
  }

  /** Where a run that finds this site starts. */
  function PointAt(site: Site): Point {
    PointOf(StartOf(site))
  }

  ghost function RunOf(site: Site, a: Attempt): LoopRun
    requires forall turn <- a.turns :: |turn.write| == MAX_CAS_ROUNDS
  {
    RunLoop(a.conf, StartOf(site), a.turns)
  }

  ghost predicate FollowsFrom(corpus: Corpus, site: Site, a: Attempt) {
    Follows(corpus, a.conf, StartOf(site), a.turns) && ServedWrite(a.write) && InSync(a.conf, StartOf(site))
  }

  ghost function Perform(site: Site, a: Attempt): Site
    requires |a.write| == MAX_CAS_ROUNDS && forall turn <- a.turns :: |turn.write| == MAX_CAS_ROUNDS
  {
    var run := RunOf(site, a);
    Site(run.loop.stores, if a.killed || !Returns(run) then run.loop.stored
         else StoredAtEnd(a.conf, run, a.now, a.write))
  }

  /** The run comes to a natural end and writes its final checkpoint. */
  ghost predicate Finishes(corpus: Corpus, site: Site, a: Attempt) {
    FollowsFrom(corpus, site, a) && !a.killed
    && (RunOf(site, a).stop == EmptyPage || RunOf(site, a).stop == AllDuplicate)
  }

  /** Cut between two pages, stopped by a list read that fails, or killed after its last checkpoint. */
  ghost predicate Interrupted(corpus: Corpus, site: Site, a: Attempt) {
    FollowsFrom(corpus, site, a) && (a.killed || RunOf(site, a).stop == Cut || RunOf(site, a).stop == PageFailed)
  }

  /** Every run but the last is interrupted; each starts from what the one before it left. */
  ghost predicate IsChain(corpus: Corpus, site: Site, chain: seq<Attempt>)
    decreases |chain|
  {
    chain != [] &&
    if |chain| == 1 then Finishes(corpus, site, chain[0])
    else Interrupted(corpus, site, chain[0]) && IsChain(corpus, Perform(site, chain[0]), chain[1..])
  }

  ghost function PerformAll(corpus: Corpus, site: Site, chain: seq<Attempt>): Site
    requires IsChain(corpus, site, chain)
    decreases |chain|
  {
    if |chain| == 1 then Perform(site, chain[0]) else PerformAll(corpus, Perform(site, chain[0]), chain[1..])
  }

  /** No run was killed on the page that would have ended it, unless the source ends there anyway. */
  ghost predicate CutsAreHarmless(corpus: Corpus, site: Site, chain: seq<Attempt>)
    requires corpus.Valid() && IsChain(corpus, site, chain)
    decreases |chain|
  {
    |chain| > 1 ==>
      && (RunOf(site, chain[0]).stop == AllDuplicate ==>
          WalkOver(corpus).news(PointOf(RunOf(site, chain[0]).loop)) == NothingListed)
      && CutsAreHarmless(corpus, Perform(site, chain[0]), chain[1..])
  }

  /** What a finished run leaves: stores, and a complete record of the point it ended at. */
  ghost predicate FinishedAt(site: Site, end: Point) {
    && site.stores == end.stores
    && site.stored.Present? && site.stored.body.Parsed?
    && var c := site.stored.body.checkpoint;
       && c.status == Complete
       && c.lastCompletedPage == c.discoveredLastPage == end.last
       && c.pages == end.pages && c.counts == SumCounts(end.pages)
  }

  ghost predicate SameOutcome(a: Site, b: Site) {
    exists end :: FinishedAt(a, end) && FinishedAt(b, end)
  }

  lemma RunFollows(corpus: Corpus, site: Site, a: Attempt) returns (n: nat)
    requires corpus.Valid() && FollowsFrom(corpus, site, a)
    ensures EndsAfter(WalkOver(corpus), a.conf, PointAt(site), site.stored, n, RunOf(site, a))
  {
    n := LoopFollows(corpus, a.conf, StartOf(site), a.turns);
  }

  lemma NaturalEnd(w: Walk, conf: RunConf, pt: Point, started: StoredObject, n: nat, run: LoopRun)
    requires EndsAfter(w, conf, pt, started, n, run) && (run.stop == EmptyPage || run.stop == AllDuplicate)
    ensures EndsAt(w, pt, n, PointOf(run.loop)) && InSync(conf, run.loop) && run.loop.report.ok
  {
  }

  lemma FinalWriteRecords(run: LoopRun, a: Attempt)
    requires ServedWrite(a.write) && InSync(a.conf, run.loop)
    requires run.loop.report.ok && (run.stop == EmptyPage || run.stop == AllDuplicate)
    ensures FinishedAt(Site(run.loop.stores, StoredAtEnd(a.conf, run, a.now, a.write)), PointOf(run.loop))
  {
    ServedWriteLands(run.loop.stored, FinalRecord(a.conf, run.loop, a.now), run.loop.etag,
                     a.conf.conditionalWrites, a.write);
  }

  /** A run that finishes leaves the point where its loop ended. */
  lemma FinishedRunRecords(corpus: Corpus, site: Site, a: Attempt)
    requires Finishes(corpus, site, a)
    requires InSync(a.conf, RunOf(site, a).loop) && RunOf(site, a).loop.report.ok
    ensures FinishedAt(Perform(site, a), PointOf(RunOf(site, a).loop))
  {
    FinalWriteRecords(RunOf(site, a), a);
  }

  lemma FinishedRunEnds(corpus: Corpus, site: Site, a: Attempt) returns (n: nat, end: Point)
    requires corpus.Valid() && Finishes(corpus, site, a)
    ensures EndsAt(WalkOver(corpus), PointAt(site), n, end) && FinishedAt(Perform(site, a), end)
  {
    var run := RunOf(site, a);
    n := RunFollows(corpus, site, a);
    end := PointOf(run.loop);
    NaturalEnd(WalkOver(corpus), a.conf, PointAt(site), site.stored, n, run);
    FinishedRunRecords(corpus, site, a);
  }

  // ----- Runs that finish -----

  const SERVED_TURN := Turn(None, Serve(0, true), None, Answer(true, true))

  const SERVED_WRITE := [SERVED_TURN, SERVED_TURN, SERVED_TURN, SERVED_TURN, SERVED_TURN]

  ghost function TurnAt(corpus: Corpus, s: Loop): PageTurn {
    var page := s.lastCompletedPage + 1;
    PageTurn(corpus.report(page), corpus.content, corpus.limit, corpus.schedule(page, s.stores), "t", SERVED_WRITE)
  }

  /** What the corpus gives a run for `k` list reads. */
  ghost function TurnsFrom(corpus: Corpus, conf: RunConf, s: Loop, k: nat): (turns: seq<PageTurn>)
    requires corpus.Valid()
    ensures |turns| == k && forall turn <- turns :: ServedWrite(turn.write)
    decreases k
  {
    if k == 0 then []
    else
      var turn := TurnAt(corpus, s);
      assert turn.Page() == corpus.Listed(s.lastCompletedPage + 1);
      [turn] + TurnsFrom(corpus, conf, CompletePage(conf, s, turn), k - 1)
  }

  lemma TurnsFromFollow(corpus: Corpus, conf: RunConf, s: Loop, k: nat)
    requires corpus.Valid() && conf.maxPages.None?
    ensures Follows(corpus, conf, s, TurnsFrom(corpus, conf, s, k))
    decreases k
  {
    if k > 0 {
      var turn := TurnAt(corpus, s);
      assert turn.Page() == corpus.Listed(s.lastCompletedPage + 1);
      TurnsFromFollow(corpus, conf, CompletePage(conf, s, turn), k - 1);
      assert TurnsFrom(corpus, conf, s, k)[1..] == TurnsFrom(corpus, conf, CompletePage(conf, s, turn), k - 1);
    }
  }

  lemma FirstTurn(corpus: Corpus, conf: RunConf, s: Loop, k: nat) returns (next: Loop)
    requires corpus.Valid() && InSync(conf, s)
    ensures InSync(conf, next) && PointOf(next) == WalkOver(corpus).next(PointOf(s))
    ensures var turns := TurnsFrom(corpus, conf, s, k + 1);
            && turns[0].report.ok && Completes(turns[0].Page(), s.stores, turns[0].actions)
            && next == CompletePage(conf, s, turns[0]) && turns[1..] == TurnsFrom(corpus, conf, next, k)
            && WalkOver(corpus).news(PointOf(s)) ==
               if turns[0].report.candidates == [] then NothingListed
               else if IsAllDuplicate(CountsOfPage(s, turns[0])) then NothingNew
               else SomethingNew
  {
    var turn := TurnAt(corpus, s);
    PageFollows(corpus, conf, s, turn);
    next := CompletePage(conf, s, turn);
    assert TurnsFrom(corpus, conf, s, k + 1) == [turn] + TurnsFrom(corpus, conf, next, k);
  }

  /** How a walk stops that may look at `k` pages. */
  function StopOf(w: Walk, pt: Point, k: nat): StopReason
    decreases k
  {
    if k == 0 then Cut
    else match w.news(pt)
         case NothingListed => EmptyPage
         case NothingNew => AllDuplicate
         case SomethingNew => StopOf(w, w.next(pt), k - 1)
  }

  lemma {:induction false} WalkComesToEnd(w: Walk, pt: Point, k: nat)
    requires KeepsGoing(w, pt, k)
    ensures w.news(AdvanceBy(w, pt, k)) == NothingListed ==> StopOf(w, pt, k + 1) == EmptyPage
    ensures w.news(AdvanceBy(w, pt, k)) == NothingNew ==> StopOf(w, pt, k + 1) == AllDuplicate
    decreases k
  {
    if k > 0 {
      WalkComesToEnd(w, w.next(pt), k - 1);
    }
  }

  lemma LoopStopsAtNews(corpus: Corpus, conf: RunConf, s: Loop, k: nat)
    requires corpus.Valid() && conf.maxPages.None? && InSync(conf, s)
    requires WalkOver(corpus).news(PointOf(s)) != SomethingNew
    ensures RunLoop(conf, s, TurnsFrom(corpus, conf, s, k + 1)).stop == StopOf(WalkOver(corpus), PointOf(s), k + 1)
  {
    var next := FirstTurn(corpus, conf, s, k);
  }

  lemma LoopGoesOnAtNews(corpus: Corpus, conf: RunConf, s: Loop, k: nat) returns (next: Loop)
    requires corpus.Valid() && conf.maxPages.None? && InSync(conf, s)
    requires WalkOver(corpus).news(PointOf(s)) == SomethingNew
    ensures InSync(conf, next) && PointOf(next) == WalkOver(corpus).next(PointOf(s))
    ensures RunLoop(conf, s, TurnsFrom(corpus, conf, s, k + 1)).stop
            == RunLoop(conf, next, TurnsFrom(corpus, conf, next, k)).stop
  {
    next := FirstTurn(corpus, conf, s, k);
    LoopGoesOn(conf, s, TurnsFrom(corpus, conf, s, k + 1));
  }

  lemma StopGoesOn(w: Walk, pt: Point, k: nat, next: Point)
    requires k > 0 && w.news(pt) == SomethingNew && next == w.next(pt)
    ensures StopOf(w, pt, k) == StopOf(w, next, k - 1)
  {
  }

  /** The loop stops as the walk does. */
  lemma {:induction false} LoopStopsAsWalk(corpus: Corpus, conf: RunConf, s: Loop, k: nat, stop: StopReason)
    requires corpus.Valid() && conf.maxPages.None? && InSync(conf, s) && stop == StopOf(WalkOver(corpus), PointOf(s), k)
    ensures RunLoop(conf, s, TurnsFrom(corpus, conf, s, k)).stop == stop
    decreases k
  {
    if k == 0 {
    } else if WalkOver(corpus).news(PointOf(s)) == SomethingNew {
      var next := LoopGoesOnAtNews(corpus, conf, s, k - 1);
      StopGoesOn(WalkOver(corpus), PointOf(s), k, PointOf(next));
      LoopStopsAsWalk(corpus, conf, next, k - 1, stop);
    } else {
      LoopStopsAtNews(corpus, conf, s, k - 1);
    }
  }

  lemma StartsInSync(conf: RunConf, site: Site)
    requires site.stored.Absent? || site.stored.body.Parsed?
    ensures InSync(conf, StartOf(site))
  {
  }

  /** The run that the corpus gives `k` list reads. */
  ghost function RunWith(corpus: Corpus, conf: RunConf, site: Site, k: nat): Attempt
    requires corpus.Valid()
  {
    Attempt(conf, TurnsFrom(corpus, conf, StartOf(site), k), false, "t", SERVED_WRITE)
  }

  lemma RunWithFollows(corpus: Corpus, conf: RunConf, site: Site, k: nat)
    requires corpus.Valid() && conf.maxPages.None? && (site.stored.Absent? || site.stored.body.Parsed?)
    ensures FollowsFrom(corpus, site, RunWith(corpus, conf, site, k))
    ensures RunOf(site, RunWith(corpus, conf, site, k)).stop == StopOf(WalkOver(corpus), PointAt(site), k)
  {
    StartsInSync(conf, site);
    TurnsFromFollow(corpus, conf, StartOf(site), k);
    LoopStopsAsWalk(corpus, conf, StartOf(site), k, StopOf(WalkOver(corpus), PointAt(site), k));
  }

  /** Wherever a source ends for a run, some run finishes there. */
  lemma EveryEndIsReached(corpus: Corpus, conf: RunConf, site: Site, k: nat, end: Point) returns (a: Attempt)
    requires corpus.Valid() && conf.maxPages.None? && (site.stored.Absent? || site.stored.body.Parsed?)
    requires EndsAt(WalkOver(corpus), PointAt(site), k, end)
    ensures Finishes(corpus, site, a) && RunOf(site, a).stop == StopOf(WalkOver(corpus), PointAt(site), k + 1)
  {
    a := RunWith(corpus, conf, site, k + 1);
    RunWithFollows(corpus, conf, site, k + 1);
    WalkComesToEnd(WalkOver(corpus), PointAt(site), k);
  }

  /** What an interrupted run leaves is where the next one starts. */
  lemma InterruptedRunLeaves(corpus: Corpus, site: Site, a: Attempt) returns (n: nat)
    requires corpus.Valid() && Interrupted(corpus, site, a)
    ensures KeepsGoing(WalkOver(corpus), PointAt(site), n)
    ensures PointAt(Perform(site, a)) == PointOf(RunOf(site, a).loop)
    ensures var w := WalkOver(corpus);
            var top := AdvanceBy(w, PointAt(site), n);
            PointOf(RunOf(site, a).loop) == if RunOf(site, a).stop == AllDuplicate then w.next(top) else top
    ensures RunOf(site, a).stop == AllDuplicate ==>
              WalkOver(corpus).news(AdvanceBy(WalkOver(corpus), PointAt(site), n)) == NothingNew
  {
    n := RunFollows(corpus, site, a);
    NextStartsThere(site, RunOf(site, a), a);
  }

  lemma NextStartsThere(site: Site, run: LoopRun, a: Attempt)
    requires |a.write| == MAX_CAS_ROUNDS
    requires a.killed || run.stop == Cut || (run.stop == PageFailed && !run.loop.report.ok)
    requires Records(run.loop.stored, PointOf(run.loop))
             || (PointOf(run.loop) == PointAt(site) && run.loop.stored == site.stored)
    ensures PointAt(Site(run.loop.stores,
                         if a.killed || !Returns(run) then run.loop.stored
                         else StoredAtEnd(a.conf, run, a.now, a.write)))
            == PointOf(run.loop)
  {
  }

  /** The source ends here if nothing is listed next, and on a later page otherwise. */
  lemma EndIsAhead(w: Walk, pt: Point, n: nat, end: Point)
    requires EndsAt(w, pt, n, end) && forall p :: w.next(p).last == p.last + 1
    ensures w.news(pt) == NothingListed ==> end == pt
    ensures w.news(pt) != NothingListed ==> end.last > pt.last
  {
    AdvanceByCountsPages(w, pt, n);
  }

  lemma NextCountsPages(corpus: Corpus)
    requires corpus.Valid()
    ensures forall p :: WalkOver(corpus).next(p).last == p.last + 1
  {
  }

  /** The end seen from before an interruption, given the end seen from after it. */
  lemma EndAcrossInterruption(w: Walk, pt: Point, m: nat, killedAtEnd: bool, k: nat, later: Point)
    returns (n: nat, end: Point)
    requires KeepsGoing(w, pt, m) && (killedAtEnd ==> w.news(AdvanceBy(w, pt, m)) == NothingNew)
    requires EndsAt(w, if killedAtEnd then w.next(AdvanceBy(w, pt, m)) else AdvanceBy(w, pt, m), k, later)
    requires forall p :: w.next(p).last == p.last + 1
    ensures EndsAt(w, pt, n, end)
    ensures !killedAtEnd ==> end == later
    ensures killedAtEnd ==>
              && end == w.next(AdvanceBy(w, pt, m))
              && (w.news(end) == NothingListed ==> later == end)
              && (w.news(end) != NothingListed ==> later.last > end.last)
  {
    if killedAtEnd {
      n, end := m, w.next(AdvanceBy(w, pt, m));
      EndIsAhead(w, end, k, later);
    } else {
      n, end := m + k, later;
      AdvanceByAdds(w, pt, m, k);
    }
  }

  lemma {:induction false} ChainEnds(corpus: Corpus, site: Site, chain: seq<Attempt>)
    returns (n: nat, end: Point, reached: Point)
    requires corpus.Valid() && IsChain(corpus, site, chain)
    ensures EndsAt(WalkOver(corpus), PointAt(site), n, end) && FinishedAt(PerformAll(corpus, site, chain), reached)
    ensures CutsAreHarmless(corpus, site, chain) ==> reached == end
    ensures !CutsAreHarmless(corpus, site, chain) ==> reached.last > end.last
    decreases |chain|
  {
    if |chain| == 1 {
      n, end := FinishedRunEnds(corpus, site, chain[0]);
      reached := end;
    } else {
      var m := InterruptedRunLeaves(corpus, site, chain[0]);
      var k, later, there := ChainEnds(corpus, Perform(site, chain[0]), chain[1..]);
      reached := there;
      NextCountsPages(corpus);
      n, end := EndAcrossInterruption(WalkOver(corpus), PointAt(site), m,
                                      RunOf(site, chain[0]).stop == AllDuplicate, k, later);
    }
  }

  /**
   * A chain of interrupted runs ends with the same bucket, table, stop page, page
   * map, totals and complete status as one uninterrupted run exactly when no run
   * was killed on a page without news that more pages follow.
   */
  lemma SplitRunEquivalence(corpus: Corpus, site: Site, whole: Attempt, chain: seq<Attempt>)
    requires corpus.Valid() && Finishes(corpus, site, whole) && IsChain(corpus, site, chain)
    ensures SameOutcome(Perform(site, whole), PerformAll(corpus, site, chain)) <==> CutsAreHarmless(corpus, site, chain)
  {
    var n, end := FinishedRunEnds(corpus, site, whole);
    var n', end', reached := ChainEnds(corpus, site, chain);
    EndIsUnique(WalkOver(corpus), PointAt(site), n, end, n', end');
  }
}
