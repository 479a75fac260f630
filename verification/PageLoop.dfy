/** The run-once page loop: discover, ingest, checkpoint, advance, decide whether to stop. */
module PageLoop {
  import opened Wrappers
  import opened Checkpoints
  import opened CheckpointStore
  import opened RunCheckpoint
  import opened RunProtocol
  import opened RawStorage
  import opened Staging
  import Ingest
  import opened IngestPage
  import opened Summary

  /** What one iteration meets: the list page, the source's bytes, the fan-out's schedule, the write's rounds. */
  datatype PageTurn = PageTurn(
    report: DiscoveryReport,
    content: map<string, Bytes>,
    limit: nat,
    actions: seq<Ingest.Action>,
    now: string,
    write: seq<Turn>)
  {
    function Page(): Ingest.Page {
      Ingest.Page(report.candidates, content, false, limit)
    }
  }

  /** The loop's own variables, with the stores and the checkpoint object it works on. */
  datatype Loop = Loop(
    report: DiscoveryReport,
    etag: Option<ETag>,
    lastCompletedPage: nat,
    pages: PageMap,
    rawStorage: seq<Ingest.RawResult>,
    staging: seq<StagingResult>,
    stores: Ingest.Stores,
    stored: StoredObject)

  /** `Died`: the process ends inside a page. `Cut`: it ends between two pages. */
  datatype StopReason = Cap | EmptyPage | AllDuplicate | PageFailed | Died | Cut

  datatype LoopRun = LoopRun(loop: Loop, stop: StopReason, listReads: nat)

  function AppendDiscoveryReport(target: DiscoveryReport, page: DiscoveryReport): DiscoveryReport {
    DiscoveryReport(target.ok && page.ok, target.candidates + page.candidates, target.diagnostics + page.diagnostics, 0)
  }

  function ToCounts(counts: PageCounts): Counts {
    Counts(counts.discovered, counts.failed, counts.staged, counts.stored)
  }

  function StoresAfterOthers(stores: Ingest.Stores, writes: seq<OtherWrite>): Ingest.Stores {
    stores.(rows := AfterOthers(stores.rows, writes))
  }

  /** The stores as an unfinished fan-out leaves them. */
  function StoresAfterDeath(page: Ingest.Page, stores: Ingest.Stores, actions: seq<Ingest.Action>): Ingest.Stores {
    if Ingest.Possible(page, Ingest.Start(page, stores), actions)
    then Ingest.Outcome(page, Ingest.Start(page, stores), actions).stores
    else stores
  }

  /** completeOkPage and the advance after it. */
  ghost function CompletePage(conf: RunConf, s: Loop, turn: PageTurn): Loop
    requires Ingest.Completes(turn.Page(), s.stores, turn.actions) && |turn.write| == MAX_CAS_ROUNDS
  {
    var page := s.lastCompletedPage + 1;
    var gathered := Ingest.Ingested(turn.Page(), s.stores, turn.actions);
    var result := ResultOfTasks(gathered.tasks);
    var pages := s.pages[page := PageEntry(ToCounts(result.counts), "running")];
    var written := WriteCheckpoint(s.stored, PageCheckpoint(conf.identity, turn.now, page, pages), s.etag,
                                   conf.conditionalWrites, turn.write);
    Loop(AppendDiscoveryReport(s.report, turn.report),
         TagAfterWrite(s.etag, written.outcome),
         page,
         pages,
         s.rawStorage + result.rawStorage,
         s.staging + result.staging,
         gathered.stores,
         written.stored)
  }

  /** The page's counts, as the loop keeps them for its stop decision. */
  function CountsOfPage(s: Loop, turn: PageTurn): Counts
    requires Ingest.Completes(turn.Page(), s.stores, turn.actions)
  {
    ToCounts(ResultOfTasks(Ingest.Ingested(turn.Page(), s.stores, turn.actions).tasks).counts)
  }

  datatype TurnEnd = TurnEnd(loop: Loop, stop: Option<StopReason>)

  /** One turn of the loop; None: it goes on. */
  ghost function AfterTurn(conf: RunConf, s: Loop, turn: PageTurn): TurnEnd
    requires |turn.write| == MAX_CAS_ROUNDS
  {
    var seen := s.(report := AppendDiscoveryReport(s.report, turn.report));
    if !turn.report.ok then TurnEnd(seen, Some(PageFailed))
    else if turn.report.candidates == [] then TurnEnd(seen, Some(EmptyPage))
    else if !Ingest.Completes(turn.Page(), s.stores, turn.actions) then
      TurnEnd(seen.(stores := StoresAfterDeath(turn.Page(), s.stores, turn.actions)), Some(Died))
    else
      TurnEnd(CompletePage(conf, s, turn), if IsAllDuplicate(CountsOfPage(s, turn)) then Some(AllDuplicate) else None)
  }

  ghost function RunLoop(conf: RunConf, s: Loop, turns: seq<PageTurn>): LoopRun
    requires forall turn <- turns :: |turn.write| == MAX_CAS_ROUNDS
    decreases |turns|
  {
    if !CapAllows(conf, s.lastCompletedPage) then LoopRun(s, Cap, 0)
    else if turns == [] then LoopRun(s, Cut, 0)
    else
      assert turns[0] in turns;
      var end := AfterTurn(conf, s, turns[0]);
      if end.stop.Some? then LoopRun(end.loop, end.stop.value, 1)
      else ReadMore(RunLoop(conf, end.loop, turns[1..]), 1)
  }

  function ReadMore(run: LoopRun, before: nat): LoopRun {
    run.(listReads := run.listReads + before)
  }

  /** The loop goes on past its first read exactly when that page completes with something new. */
  ghost predicate GoesOn(conf: RunConf, s: Loop, turns: seq<PageTurn>) {
    && CapAllows(conf, s.lastCompletedPage) && turns != []
    && turns[0].report.ok && turns[0].report.candidates != []
    && Ingest.Completes(turns[0].Page(), s.stores, turns[0].actions)
    && !IsAllDuplicate(CountsOfPage(s, turns[0]))
  }

  lemma LoopGoesOn(conf: RunConf, s: Loop, turns: seq<PageTurn>)
    requires GoesOn(conf, s, turns) && forall turn <- turns :: |turn.write| == MAX_CAS_ROUNDS
    ensures turns[0] in turns && forall turn <- turns[1..] :: |turn.write| == MAX_CAS_ROUNDS
    ensures RunLoop(conf, s, turns) == ReadMore(RunLoop(conf, CompletePage(conf, s, turns[0]), turns[1..]), 1)
  {
    assert turns[0] in turns;
  }

  /** The loop's next turn, number `i`. */
  lemma LoopNext(conf: RunConf, s: Loop, turns: seq<PageTurn>, i: nat) returns (end: TurnEnd)
    requires i < |turns| && CapAllows(conf, s.lastCompletedPage)
    requires forall turn <- turns :: |turn.write| == MAX_CAS_ROUNDS
    ensures turns[i] in turns && forall turn <- turns[i..] :: |turn.write| == MAX_CAS_ROUNDS
    ensures forall turn <- turns[i + 1..] :: |turn.write| == MAX_CAS_ROUNDS
    ensures end == AfterTurn(conf, s, turns[i])
    ensures RunLoop(conf, s, turns[i..])
            == if end.stop.Some? then LoopRun(end.loop, end.stop.value, 1)
               else ReadMore(RunLoop(conf, end.loop, turns[i + 1..]), 1)
  {
    end := AfterTurn(conf, s, turns[i]);
    assert turns[i..][1..] == turns[i + 1..];
  }

  // ----- The loop itself -----

  /** Bucket and table. */
  class ReplayStores {
    var stores: Ingest.Stores

    constructor (stores: Ingest.Stores)
      ensures this.stores == stores
    {
      this.stores := stores;
    }

    /** Other users of the table, between two of our pages. */
    method OthersWrite(writes: seq<OtherWrite>)
      modifies this
      ensures stores == StoresAfterOthers(old(stores), writes)
    {
      stores := stores.(rows := AfterOthers(stores.rows, writes));
    }

    /** None: a task is rejected, or the process ends before all of them are finished. */
    method RunFanOut(page: Ingest.Page, actions: seq<Ingest.Action>) returns (result: Option<PageResult>)
      modifies this
      ensures result.Some? <==> Ingest.Completes(page, old(stores), actions)
      ensures result.Some? ==>
                && stores == Ingest.Ingested(page, old(stores), actions).stores
                && result.value == ResultOfTasks(Ingest.Ingested(page, old(stores), actions).tasks)
      ensures result.None? ==> stores == StoresAfterDeath(page, old(stores), actions)
    {
      if !Ingest.Possible(page, Ingest.Start(page, stores), actions) {
        return None;
      }
      var end := Ingest.Outcome(page, Ingest.Start(page, stores), actions);
      stores := end.stores;
      if !Ingest.Over(end) {
        return None;
      }
      GatheredTasksGiveResult(end.tasks, PromisesOf(end.tasks));
      result := GatherPage(|page.candidates|, PromisesOf(end.tasks));
    }
  }

  class LoopState {
    var report: DiscoveryReport
    var etag: Option<ETag>
    var lastCompletedPage: nat
    var pages: PageMap
    var rawStorage: seq<Ingest.RawResult>
    var reachedMaxPages: bool
    var staging: seq<StagingResult>

    constructor (resume: ResumeState)
      requires resume.startPage >= 1
      ensures report == DiscoveryReport(true, [], [], 0) && etag == resume.etag && pages == resume.pages
      ensures lastCompletedPage == resume.startPage - 1 && rawStorage == [] && staging == [] && !reachedMaxPages
    {
      report := DiscoveryReport(true, [], [], 0);
      etag := resume.etag;
      lastCompletedPage := resume.startPage - 1;
      pages := resume.pages;
      rawStorage, staging := [], [];
      reachedMaxPages := false;
    }

    ghost function Value(replays: ReplayStores, checkpoints: CheckpointBucket): Loop
      reads this, replays, checkpoints
    {
      Loop(report, etag, lastCompletedPage, pages, rawStorage, staging, replays.stores, checkpoints.stored)
    }

    method AppendReport(page: DiscoveryReport)
      modifies this`report
      ensures report == AppendDiscoveryReport(old(report), page)
    {
      report := DiscoveryReport(report.ok && page.ok, report.candidates + page.candidates,
                                report.diagnostics + page.diagnostics, 0);
    }

    /** The write never fails the run: when it throws, the tag held stays the one to send. */
    method WritePageCheckpoint(conf: RunConf, page: nat, turn: PageTurn, checkpoints: CheckpointBucket)
      returns (tag: Option<ETag>)
      requires |turn.write| == MAX_CAS_ROUNDS && checkpoints.conditionalWrites == conf.conditionalWrites
      modifies checkpoints
      ensures var written := WriteCheckpoint(old(checkpoints.stored),
                                             PageCheckpoint(conf.identity, turn.now, page, pages), etag,
                                             conf.conditionalWrites, turn.write);
              checkpoints.stored == written.stored && tag == TagAfterWrite(etag, written.outcome)
    {
      var counts := AggregatePageCounts(pages);
      var checkpoint := Checkpoint(counts, conf.identity.startedAt, page, page, None, pages, conf.identity.runId,
                                   conf.identity.slug, Running, turn.now);
      var outcome := checkpoints.Write(checkpoint, etag, turn.write);
      tag := TagAfterWrite(etag, outcome);
    }

    /** None: the process ends before the fan-out is gathered. */
    method CompleteOkPage(conf: RunConf, page: nat, turn: PageTurn, replays: ReplayStores,
                          checkpoints: CheckpointBucket)
      returns (counts: Option<Counts>)
      requires page == lastCompletedPage + 1
      requires |turn.write| == MAX_CAS_ROUNDS && checkpoints.conditionalWrites == conf.conditionalWrites
      modifies this, replays, checkpoints
      ensures counts.Some? <==> Ingest.Completes(turn.Page(), old(replays.stores), turn.actions)
      ensures counts.Some? ==>
                var s := old(Value(replays, checkpoints));
                && Value(replays, checkpoints) == CompletePage(conf, s, turn).(report := s.report)
                && counts.value == CountsOfPage(s, turn)
      ensures counts.None? ==>
                var s := old(Value(replays, checkpoints));
                Value(replays, checkpoints) == s.(stores := StoresAfterDeath(turn.Page(), s.stores, turn.actions))
      ensures report == old(report)
    {
      ghost var before := Value(replays, checkpoints);
      var result := replays.RunFanOut(turn.Page(), turn.actions);
      if result.None? {
        return None;
      }
      ghost var gathered := Ingest.Ingested(turn.Page(), before.stores, turn.actions);
      ghost var next := CompletePage(conf, before, turn);
      assert result.value == ResultOfTasks(gathered.tasks) && replays.stores == gathered.stores;
      rawStorage := rawStorage + result.value.rawStorage;
      staging := staging + result.value.staging;
      pages := pages[page := PageEntry(ToCounts(result.value.counts), "running")];
      assert pages == next.pages && rawStorage == next.rawStorage && staging == next.staging;
      etag := WritePageCheckpoint(conf, page, turn, checkpoints);
      assert etag == next.etag && checkpoints.stored == next.stored;
      lastCompletedPage := page;
      counts := Some(ToCounts(result.value.counts));
    }

    method TakeTurn(conf: RunConf, turn: PageTurn, replays: ReplayStores, checkpoints: CheckpointBucket)
      returns (stop: Option<StopReason>)
      requires |turn.write| == MAX_CAS_ROUNDS && checkpoints.conditionalWrites == conf.conditionalWrites
      modifies this, replays, checkpoints
      ensures TurnEnd(Value(replays, checkpoints), stop) == AfterTurn(conf, old(Value(replays, checkpoints)), turn)
    {
      AppendReport(turn.report);
      if !turn.report.ok {
        return Some(PageFailed);
      }
      if turn.report.candidates == [] {
        return Some(EmptyPage);
      }
      var counts := CompleteOkPage(conf, lastCompletedPage + 1, turn, replays, checkpoints);
      if counts.None? {
        return Some(Died);
      }
      if counts.value.stored == 0 && counts.value.staged == 0 && counts.value.failed == 0 {
        return Some(AllDuplicate);
      }
      return None;
    }

    /** Discover, ingest, checkpoint and advance, one list page at a time. */
    method RunPageLoop(conf: RunConf, turns: seq<PageTurn>, replays: ReplayStores, checkpoints: CheckpointBucket)
      returns (stop: StopReason, listReads: nat)
      requires forall turn <- turns :: |turn.write| == MAX_CAS_ROUNDS
      requires checkpoints.conditionalWrites == conf.conditionalWrites
      modifies this, replays, checkpoints
      ensures RunLoop(conf, old(Value(replays, checkpoints)), turns)
              == LoopRun(Value(replays, checkpoints), stop, listReads)
      ensures reachedMaxPages <==> stop == Cap
    {
      stop, listReads := Cap, 0;
      ghost var end := RunLoop(conf, Value(replays, checkpoints), turns);
      assert turns[0..] == turns;
      while conf.maxPages.None? || lastCompletedPage + 1 <= conf.maxPages.value
        invariant listReads <= |turns| && stop == Cap
        invariant forall turn <- turns[listReads..] :: |turn.write| == MAX_CAS_ROUNDS
        invariant end == ReadMore(RunLoop(conf, Value(replays, checkpoints), turns[listReads..]), listReads)
        decreases |turns| - listReads
      {
        if listReads == |turns| {
          stop := Cut;
          break;
        }
        ghost var after := LoopNext(conf, Value(replays, checkpoints), turns, listReads);
        var stopped := TakeTurn(conf, turns[listReads], replays, checkpoints);
        assert after == TurnEnd(Value(replays, checkpoints), stopped);
        listReads := listReads + 1;
        if stopped.Some? {
          stop := stopped.value;
          break;
        }
      }
      reachedMaxPages := stop == Cap;
    }
  }
}
