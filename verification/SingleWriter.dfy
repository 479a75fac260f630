/**
 * One run alone over a store whose requests may fail, with or without taking
 * effect, and whose server may refuse a PUT at any time, condition or not.
 */
module SingleWriter {
  import opened Wrappers
  import opened Checkpoints
  import opened CheckpointStore
  import opened RunCheckpoint
  import opened RunProtocol

  ghost predicate Alone(w: World, run: nat) {
    && w.runs.Keys == {run}
    && w.runs[run].phase.Starting?
    && (w.stored.Absent? || w.stored.body.Parsed?)
  }

  ghost predicate Wrote(w: World, step: Step)
    requires Enabled(w, step)
  {
    step.PutRequest? && TakesEffect(PutHeader(w, step.run), w.stored, step.put)
  }

  predicate FaithfulRead(read: ReadFate) {
    read == Fail || read == Answer(true, true)
  }

  ghost predicate FaultyStep(w: World, run: nat, step: Step)
    requires Enabled(w, step)
  {
    && step.run == run && !step.Spawn?
    && (step.ReadStart? || step.RereadRequest? ==> FaithfulRead(step.read))
  }

  /** A history of the run over the faulty store. */
  ghost predicate FaultyHistory(w: World, run: nat, steps: seq<Step>)
    requires Possible(w, steps)
    decreases |steps|
  {
    steps != [] ==> FaultyStep(w, run, steps[0]) && FaultyHistory(Next(w, steps[0]), run, steps[1..])
  }

  /** A PUT of the run has taken effect, then or before. */
  ghost predicate HasWritten(w: World, steps: seq<Step>, written: bool)
    requires Possible(w, steps)
    decreases |steps|
  {
    if steps == [] then written else HasWritten(Next(w, steps[0]), steps[1..], written || Wrote(w, steps[0]))
  }

  lemma {:induction false} FaultyThen(w: World, run: nat, steps: seq<Step>, step: Step, written: bool)
    requires Possible(w, steps) && FaultyHistory(w, run, steps)
    requires Enabled(Outcome(w, steps), step) && FaultyStep(Outcome(w, steps), run, step)
    ensures Possible(w, steps + [step]) && Outcome(w, steps + [step]) == Next(Outcome(w, steps), step)
    ensures FaultyHistory(w, run, steps + [step])
    ensures HasWritten(w, steps + [step], written) == (HasWritten(w, steps, written) || Wrote(Outcome(w, steps), step))
    decreases |steps|
  {
    StepAfter(w, steps, step);
    var all := steps + [step];
    if steps == [] {
      assert all[1..] == [];
    } else {
      assert all[0] == steps[0] && all[1..] == steps[1..] + [step];
      FaultyThen(Next(w, steps[0]), run, steps[1..], step, written || Wrote(w, steps[0]));
    }
  }

  // ----- The cursor -----

  predicate IsComplete(stored: StoredObject) {
    stored.Present? && stored.body.Parsed? && stored.body.checkpoint.status == Complete
  }

  /** The page that a run which starts over leaves behind it. */
  function PageBehind(start: StoredObject): nat {
    if IsComplete(start) then StoredPage(start) else 0
  }

  predicate Readable(stored: StoredObject) {
    stored.Present? ==> stored.body.Parsed?
  }

  /** What is stored is not beyond the run's own page, or is still what the run left behind. */
  ghost predicate Bounded(w: World, cursor: Cursor, start: StoredObject, written: bool) {
    && Readable(w.stored)
    && StoredPage(w.stored) <= Max(cursor.lastCompletedPage, PageBehind(start))
    && (StoredPage(w.stored) > cursor.lastCompletedPage ==> IsComplete(w.stored))
    && (if written then cursor.lastCompletedPage >= 1 else w.stored == start)
  }

  ghost predicate Means(cursor: Cursor, cas: CasState, goal: Goal, start: StoredObject) {
    var page := cas.intended.lastCompletedPage;
    && cursor.lastCompletedPage <= page <= Max(cursor.lastCompletedPage, PageBehind(start))
    && (page > cursor.lastCompletedPage || goal.FinalGoal? ==> cas.intended.status == Complete)
    && (goal.PageGoal? ==> cursor.lastCompletedPage >= 1)
  }

  ghost predicate Course(w: World, run: nat, start: StoredObject, written: bool) {
    && w.runs.Keys == {run}
    && match w.runs[run].phase
       case Starting => !written && w.stored == start && Readable(start)
       case Ended => true
       case AtTop(cursor) => Bounded(w, cursor, start, written)
       case Stopped(cursor) => Bounded(w, cursor, start, written)
       case Putting(cursor, cas, goal) => Bounded(w, cursor, start, written) && Means(cursor, cas, goal, start)
       case Rereading(cursor, cas, goal) => Bounded(w, cursor, start, written) && Means(cursor, cas, goal, start)
  }

  lemma RereadKeepsCourse(w: World, run: nat, start: StoredObject, step: Step, written: bool)
    requires Course(w, run, start, written) && Enabled(w, step) && FaultyStep(w, run, step) && step.RereadRequest?
    ensures Course(Next(w, step), run, start, written)
  {
    if w.stored.Present? {
      MergeIsLexicographicMaximum(w.runs[run].phase.cas.intended, w.stored.body.checkpoint);
    }
  }

  lemma StepKeepsCourse(w: World, run: nat, start: StoredObject, step: Step, written: bool)
    requires Course(w, run, start, written) && Enabled(w, step) && FaultyStep(w, run, step)
    ensures Course(Next(w, step), run, start, written || Wrote(w, step))
    ensures written && PageBehind(start) <= 1 ==> StoredPage(w.stored) <= StoredPage(Next(w, step).stored)
  {
    if step.RereadRequest? {
      RereadKeepsCourse(w, run, start, step, written);
    }
  }

  lemma {:induction false} HistoryKeepsCourse(w: World, run: nat, start: StoredObject, steps: seq<Step>, written: bool)
    requires Course(w, run, start, written) && Possible(w, steps) && FaultyHistory(w, run, steps)
    ensures Course(Outcome(w, steps), run, start, HasWritten(w, steps, written))
    ensures written && PageBehind(start) <= 1 ==> StoredPage(w.stored) <= StoredPage(Outcome(w, steps).stored)
    decreases |steps|
  {
    if steps != [] {
      StepKeepsCourse(w, run, start, steps[0], written);
      HistoryKeepsCourse(Next(w, steps[0]), run, start, steps[1..], written || Wrote(w, steps[0]));
    }
  }

  /** `more` continues a history in which a PUT of the run has taken effect. */
  ghost predicate AfterFirstWrite(w: World, run: nat, steps: seq<Step>, more: seq<Step>) {
    && Possible(w, steps) && FaultyHistory(w, run, steps) && HasWritten(w, steps, false)
    && Possible(Outcome(w, steps), more) && FaultyHistory(Outcome(w, steps), run, more)
  }

  ghost predicate Lowers(w: World, steps: seq<Step>, more: seq<Step>)
    requires Possible(w, steps) && Possible(Outcome(w, steps), more)
  {
    StoredPage(Outcome(Outcome(w, steps), more).stored) < StoredPage(Outcome(w, steps).stored)
  }

  /**
   * Unless the run starts over behind more than one page, nothing after its first
   * effective write lowers the cursor.
   */
  lemma CursorNeverDecreases(w: World, run: nat, steps: seq<Step>, more: seq<Step>)
    requires Alone(w, run) && PageBehind(w.stored) <= 1 && AfterFirstWrite(w, run, steps, more)
    ensures !Lowers(w, steps, more)
  {
    HistoryKeepsCourse(w, run, w.stored, steps, false);
    HistoryKeepsCourse(Outcome(w, steps), run, w.stored, more, true);
  }

  /** The page after which a run that finds this object starts. */
  function ResumesAfter(start: StoredObject): nat {
    StartCursor(ResolveResumeState(ReadCheckpoint(start, Answer(true, true)).value)).lastCompletedPage
  }

  /** A run whose cap allows it no page. */
  ghost predicate Idles(w: World, run: nat, start: StoredObject) {
    && w.runs.Keys == {run} && w.stored == start
    && match w.runs[run].phase
       case Starting => !CapAllows(w.runs[run].conf, ResumesAfter(start))
       case AtTop(cursor) => !CapAllows(w.runs[run].conf, cursor.lastCompletedPage)
       case Ended => true
       case _ => false
  }

  lemma {:induction false} IdleRunWritesNothing(w: World, run: nat, start: StoredObject, steps: seq<Step>)
    requires Idles(w, run, start) && Possible(w, steps) && FaultyHistory(w, run, steps)
    ensures Idles(Outcome(w, steps), run, start) && !HasWritten(w, steps, false)
    decreases |steps|
  {
    if steps != [] {
      assert Idles(Next(w, steps[0]), run, start) && !Wrote(w, steps[0]);
      IdleRunWritesNothing(Next(w, steps[0]), run, start, steps[1..]);
    }
  }

  const NO_NEWS := Counts(1, 0, 0, 0)

  /** Where a run that reads this record starts. */
  function CursorOver(start: StoredObject): Cursor
    requires start.Present? && start.body.Parsed?
  {
    StartCursor(ResolveResumeState(ReadResult(Some(start.body.checkpoint), Some(start.Tag()))))
  }

  /** And where it stands once it has gathered its first page. */
  function CursorAfterFirstPage(start: StoredObject, counts: Counts): Cursor
    requires start.Present? && start.body.Parsed?
  {
    var Cursor(etag, last, pages) := CursorOver(start);
    Cursor(etag, last + 1, pages[last + 1 := PageEntry(counts, "running")])
  }

  ghost function FirstRecord(conf: RunConf, start: StoredObject, counts: Counts): Checkpoint
    requires start.Present? && start.body.Parsed?
  {
    var cursor := CursorAfterFirstPage(start, counts);
    PageCheckpoint(conf.identity, "t", cursor.lastCompletedPage, cursor.pages)
  }

  /** The run reads the record, and the PUT of its first page is refused. */
  lemma FirstPutRefused(w: World, run: nat, counts: Counts) returns (steps: seq<Step>)
    requires Alone(w, run) && w.stored.Present? && IsAllDuplicate(counts)
    requires CapAllows(w.runs[run].conf, CursorOver(w.stored).lastCompletedPage)
    ensures Possible(w, steps) && FaultyHistory(w, run, steps) && !HasWritten(w, steps, false)
    ensures var conf, cursor := w.runs[run].conf, CursorAfterFirstPage(w.stored, counts);
            var refused := Rereading(cursor, CasState(FirstRecord(conf, w.stored, counts), cursor.etag, 0),
                                     PageGoal(true));
            Outcome(w, steps).stored == w.stored && Outcome(w, steps).runs == map[run := Run(conf, refused)]
  {
    var read, ingest := ReadStart(run, Answer(true, true)), PageIngested(run, counts, "t");
    var refused := PutRequest(run, Refuse);
    steps := [];
    FaultyThen(w, run, steps, read, false);
    steps := steps + [read];
    FaultyThen(w, run, steps, ingest, false);
    steps := steps + [ingest];
    FaultyThen(w, run, steps, refused, false);
    steps := steps + [refused];
  }

  /** Its first page, which brings nothing new, is then stored merged with that record. */
  lemma StoredBehindTheRun(w: World, run: nat, counts: Counts) returns (steps: seq<Step>)
    requires Alone(w, run) && w.stored.Present? && IsAllDuplicate(counts)
    requires CapAllows(w.runs[run].conf, CursorOver(w.stored).lastCompletedPage)
    ensures Possible(w, steps) && FaultyHistory(w, run, steps) && HasWritten(w, steps, false)
    ensures var conf, now := w.runs[run].conf, Outcome(w, steps);
            var cursor := CursorAfterFirstPage(w.stored, counts);
            && now.stored
               == Present(Parsed(MergeCheckpoints(FirstRecord(conf, w.stored, counts), w.stored.body.checkpoint)), 0)
            && now.runs == map[run := Run(conf, Stopped(cursor.(etag := Some(now.stored.Tag()))))]
  {
    var reread, served := RereadRequest(run, Answer(true, true)), PutRequest(run, Serve(0, true));
    steps := FirstPutRefused(w, run, counts);
    FaultyThen(w, run, steps, reread, false);
    steps := steps + [reread];
    FaultyThen(w, run, steps, served, false);
    steps := steps + [served];
  }

  /** From a finished record of more than one page, some history lowers the cursor after the run's first write. */
  lemma RestartLowersAfterWrite(w: World, run: nat) returns (steps: seq<Step>, more: seq<Step>)
    requires Alone(w, run) && PageBehind(w.stored) > 1 && CapAllows(w.runs[run].conf, 0)
    ensures AfterFirstWrite(w, run, steps, more) && Lowers(w, steps, more)
  {
    steps := StoredBehindTheRun(w, run, NO_NEWS);
    var now := Outcome(w, steps);
    var finalize, served := Finalize(run, "t"), PutRequest(run, Serve(1, true));
    FaultyThen(now, run, [], finalize, true);
    FaultyThen(now, run, [] + [finalize], served, true);
    more := [] + [finalize] + [served];
  }

  /**
   * Whatever the store does to its requests, once a write of the run has taken
   * effect the stored cursor never decreases, exactly when the run does not start
   * over behind more than one page.
   */
  lemma CursorNeverDecreasesExactlyWhen(w: World, run: nat)
    requires Alone(w, run)
    ensures (forall steps, more | AfterFirstWrite(w, run, steps, more) :: !Lowers(w, steps, more))
            <==> PageBehind(w.stored) <= 1 || !CapAllows(w.runs[run].conf, 0)
  {
    if PageBehind(w.stored) <= 1 {
      forall steps, more | AfterFirstWrite(w, run, steps, more)
        ensures !Lowers(w, steps, more)
      {
        CursorNeverDecreases(w, run, steps, more);
      }
    } else if CapAllows(w.runs[run].conf, 0) {
      var steps, more := RestartLowersAfterWrite(w, run);
      assert AfterFirstWrite(w, run, steps, more) && Lowers(w, steps, more);
    } else {
      forall steps, more
        ensures !AfterFirstWrite(w, run, steps, more)
      {
        if Possible(w, steps) && FaultyHistory(w, run, steps) {
          IdleRunWritesNothing(w, run, w.stored, steps);
        }
      }
    }
  }

  // ----- The final write -----

  /** At the end of this history, the final PUT that follows is accepted. */
  ghost predicate FinalAccepted(w: World, run: nat, steps: seq<Step>, put: PutFate) {
    && Possible(w, steps) && FaultyHistory(w, run, steps)
    && var now := Outcome(w, steps);
       && Enabled(now, PutRequest(run, put)) && now.runs[run].phase.goal.FinalGoal?
       && ReplyToPut(now.stored, now.runs[run].phase.cas.intended, PutHeader(now, run), put).Accepted?
  }

  ghost predicate StoresOwnPage(w: World, run: nat, steps: seq<Step>, put: PutFate)
    requires FinalAccepted(w, run, steps, put)
  {
    StoredPage(Next(Outcome(w, steps), PutRequest(run, put)).stored)
    == Outcome(w, steps).runs[run].phase.cursor.lastCompletedPage
  }

  /**
   * A final write that reports success leaves a complete record, of the run's own
   * page unless it started over behind a later one.
   */
  lemma FinalWriteLeavesComplete(w: World, run: nat, steps: seq<Step>, put: PutFate)
    requires Alone(w, run) && FinalAccepted(w, run, steps, put)
    ensures IsComplete(Next(Outcome(w, steps), PutRequest(run, put)).stored)
    ensures PageBehind(w.stored) <= Outcome(w, steps).runs[run].phase.cursor.lastCompletedPage ==>
              StoresOwnPage(w, run, steps, put)
  {
    HistoryKeepsCourse(w, run, w.stored, steps, false);
  }

  /** The source lists nothing any more, and the final PUT is about to be made. */
  lemma FinalPutAfterEmptyPage(w: World, run: nat) returns (steps: seq<Step>)
    requires Alone(w, run) && PageBehind(w.stored) > 0 && CapAllows(w.runs[run].conf, 0)
    ensures Possible(w, steps) && FaultyHistory(w, run, steps) && Outcome(w, steps).stored == w.stored
    ensures var now := Outcome(w, steps);
            && now.runs.Keys == {run} && now.runs[run].phase.Putting?
            && var Putting(cursor, cas, goal) := now.runs[run].phase;
               cursor.lastCompletedPage == cas.intended.lastCompletedPage == cas.round == 0 && goal.FinalGoal?
  {
    var read := ReadStart(run, Answer(true, true));
    steps := [];
    FaultyThen(w, run, steps, read, false);
    steps := steps + [read];
    FaultyThen(w, run, steps, PageEmpty(run), false);
    steps := steps + [PageEmpty(run)];
    FaultyThen(w, run, steps, Finalize(run, "t"), false);
    steps := steps + [Finalize(run, "t")];
  }

  /** Refused once, it is merged with the finished record. */
  lemma FinalWriteKeepsPageBehind(w: World, run: nat) returns (steps: seq<Step>, put: PutFate)
    requires Alone(w, run) && PageBehind(w.stored) > 0 && CapAllows(w.runs[run].conf, 0)
    ensures FinalAccepted(w, run, steps, put) && !StoresOwnPage(w, run, steps, put)
  {
    var refused, reread := PutRequest(run, Refuse), RereadRequest(run, Answer(true, true));
    put := Serve(0, true);
    steps := FinalPutAfterEmptyPage(w, run);
    FaultyThen(w, run, steps, refused, false);
    steps := steps + [refused];
    FaultyThen(w, run, steps, reread, false);
    steps := steps + [reread];
  }

  /**
   * In every history the final write stores the run's own page, exactly when the
   * run does not start over behind any.
   */
  lemma FinalPageIsOwnExactlyWhen(w: World, run: nat)
    requires Alone(w, run)
    ensures (forall steps, put | FinalAccepted(w, run, steps, put) :: StoresOwnPage(w, run, steps, put))
            <==> PageBehind(w.stored) == 0 || !CapAllows(w.runs[run].conf, 0)
  {
    if PageBehind(w.stored) == 0 {
      forall steps, put | FinalAccepted(w, run, steps, put)
        ensures StoresOwnPage(w, run, steps, put)
      {
        FinalWriteLeavesComplete(w, run, steps, put);
      }
    } else if CapAllows(w.runs[run].conf, 0) {
      var steps, put := FinalWriteKeepsPageBehind(w, run);
      assert FinalAccepted(w, run, steps, put) && !StoresOwnPage(w, run, steps, put);
    } else {
      forall steps, put
        ensures !FinalAccepted(w, run, steps, put)
      {
        if Possible(w, steps) && FaultyHistory(w, run, steps) {
          IdleRunWritesNothing(w, run, w.stored, steps);
        }
      }
    }
  }

  // ----- An honest server -----

  /** A PUT is refused only when its condition fails, or once the object is the run's own. */
  ghost predicate HonestStep(w: World, run: nat, step: Step, written: bool)
    requires Enabled(w, step)
  {
    && FaultyStep(w, run, step)
    && (step.PutRequest? && step.put.Refuse? ==> written || !Satisfied(PutHeader(w, run), w.stored))
  }

  ghost predicate HonestHistory(w: World, run: nat, steps: seq<Step>, written: bool)
    requires Possible(w, steps)
    decreases |steps|
  {
    steps != [] ==>
      && HonestStep(w, run, steps[0], written)
      && HonestHistory(Next(w, steps[0]), run, steps[1..], written || Wrote(w, steps[0]))
  }

  lemma {:induction false} HonestIsFaulty(w: World, run: nat, steps: seq<Step>, written: bool)
    requires Possible(w, steps) && HonestHistory(w, run, steps, written)
    ensures FaultyHistory(w, run, steps)
    decreases |steps|
  {
    if steps != [] {
      HonestIsFaulty(Next(w, steps[0]), run, steps[1..], written || Wrote(w, steps[0]));
    }
  }

  /** The run's tag names the starting object. */
  ghost predicate HoldsStart(etag: Option<ETag>, start: StoredObject) {
    etag == if start.Present? then Some(start.Tag()) else None
  }

  /** The stored record is an earlier write of the same run. */
  ghost predicate Own(stored: StoredObject, cursor: Cursor) {
    && stored.Present? && stored.body.Parsed?
    && stored.body.checkpoint.lastCompletedPage <= cursor.lastCompletedPage
    && stored.body.checkpoint.discoveredLastPage <= cursor.lastCompletedPage
    && stored.body.checkpoint.status == Running
  }

  ghost predicate Knows(w: World, cursor: Cursor, start: StoredObject, written: bool) {
    if written then Own(w.stored, cursor) else w.stored == start && HoldsStart(cursor.etag, start)
  }

  /** Merges have changed neither the intended page, range or status, nor anything else but page entries. */
  ghost predicate Intends(cursor: Cursor, cas: CasState, goal: Goal) {
    && cas.intended.lastCompletedPage == cas.intended.discoveredLastPage == cursor.lastCompletedPage
    && cas.intended.status == if goal.FinalGoal? then Complete else Running
  }

  ghost predicate Inv(w: World, run: nat, start: StoredObject, written: bool) {
    && w.runs.Keys == {run}
    && (start.Present? ==> start.body.Parsed?)
    && var conf := w.runs[run].conf;
       match w.runs[run].phase
       case Starting => !written && w.stored == start
       case Ended => true
       case AtTop(cursor) => Knows(w, cursor, start, written)
       case Stopped(cursor) => Knows(w, cursor, start, written)
       case Putting(cursor, cas, goal) =>
         && Knows(w, cursor, start, written) && Intends(cursor, cas, goal)
         && (!written ==> cas.round == 0 && cas.etag == cursor.etag)
       case Rereading(cursor, cas, goal) =>
         && Knows(w, cursor, start, written) && Intends(cursor, cas, goal)
         && written
  }

  lemma StepKeepsInv(w: World, run: nat, start: StoredObject, step: Step, written: bool)
    requires Inv(w, run, start, written) && Enabled(w, step) && HonestStep(w, run, step, written)
    ensures Inv(Next(w, step), run, start, written || Wrote(w, step))
    ensures written ==> StoredPage(w.stored) <= StoredPage(Next(w, step).stored)
  {
  }

  lemma {:induction false} HistoryKeepsInv(w: World, run: nat, start: StoredObject, steps: seq<Step>, written: bool)
    requires Inv(w, run, start, written) && Possible(w, steps) && HonestHistory(w, run, steps, written)
    ensures Inv(Outcome(w, steps), run, start, HasWritten(w, steps, written))
    ensures written ==> StoredPage(w.stored) <= StoredPage(Outcome(w, steps).stored)
    decreases |steps|
  {
    if steps != [] {
      StepKeepsInv(w, run, start, steps[0], written);
      HistoryKeepsInv(Next(w, steps[0]), run, start, steps[1..], written || Wrote(w, steps[0]));
    }
  }

  // ----- Merges with the run's own earlier write -----

  /** No entry is beyond page `last`, but for pages that the run's cap never lets it reach. */
  predicate KeysWithin(conf: RunConf, pages: PageMap, last: nat) {
    forall page <- pages :: page <= last || !CapAllows(conf, page - 1)
  }

  /** A record the run resumes from has no entry, of a page it may reach, beyond the page it will do first. */
  predicate TidyStart(conf: RunConf, start: StoredObject) {
    start.Present? && start.body.Parsed? && start.body.checkpoint.status != Complete ==>
      KeysWithin(conf, start.body.checkpoint.pages, start.body.checkpoint.lastCompletedPage + 1)
  }

  ghost predicate PagesKnown(w: World, conf: RunConf, cursor: Cursor, written: bool) {
    if written then
      && KeysWithin(conf, cursor.pages, cursor.lastCompletedPage)
      && w.stored.Present? && w.stored.body.Parsed?
      && forall page <- w.stored.body.checkpoint.pages ::
           page in cursor.pages && cursor.pages[page] == w.stored.body.checkpoint.pages[page]
    else KeysWithin(conf, cursor.pages, cursor.lastCompletedPage + 1)
  }

  ghost predicate PagesIntended(w: World, conf: RunConf, cursor: Cursor, cas: CasState, goal: Goal, written: bool) {
    && PagesKnown(w, conf, cursor, written)
    && cas.intended.pages == cursor.pages
    && (goal.PageGoal? ==> KeysWithin(conf, cursor.pages, cursor.lastCompletedPage))
  }

  ghost predicate PagesInv(w: World, run: nat, written: bool)
    requires run in w.runs
  {
    var conf := w.runs[run].conf;
    match w.runs[run].phase
    case Starting => TidyStart(conf, w.stored)
    case Ended => true
    case AtTop(cursor) => PagesKnown(w, conf, cursor, written)
    case Stopped(cursor) => PagesKnown(w, conf, cursor, written)
    case Putting(cursor, cas, goal) => PagesIntended(w, conf, cursor, cas, goal, written)
    case Rereading(cursor, cas, goal) => PagesIntended(w, conf, cursor, cas, goal, written)
  }

  /** Re-reading its own earlier write, the run merges nothing into the record it means to store. */
  lemma RereadMergesNothing(w: World, run: nat, start: StoredObject, read: ReadFate)
    requires Inv(w, run, start, true) && PagesInv(w, run, true)
    requires w.runs[run].phase.Rereading? && read == Answer(true, true)
    ensures w.stored.Present? && w.stored.body.Parsed?
    ensures ReadCheckpoint(w.stored, read) == Some(ReadResult(Some(w.stored.body.checkpoint), Some(w.stored.Tag())))
    ensures MergeCheckpoints(w.runs[run].phase.cas.intended, w.stored.body.checkpoint) == w.runs[run].phase.cas.intended
  {
    MergeAbsorbs(w.runs[run].phase.cas.intended, w.stored.body.checkpoint);
  }

  lemma PutKeepsPagesInv(w: World, run: nat, start: StoredObject, step: Step, written: bool)
    requires Inv(w, run, start, written) && PagesInv(w, run, written)
    requires Enabled(w, step) && HonestStep(w, run, step, written) && step.PutRequest?
    ensures PagesInv(Next(w, step), run, written || Wrote(w, step))
  {
  }

  lemma RereadKeepsPagesInv(w: World, run: nat, start: StoredObject, step: Step, written: bool)
    requires Inv(w, run, start, written) && PagesInv(w, run, written)
    requires Enabled(w, step) && HonestStep(w, run, step, written) && step.RereadRequest?
    ensures PagesInv(Next(w, step), run, written)
  {
    if step.read != Fail {
      RereadMergesNothing(w, run, start, step.read);
    }
  }

  lemma StepKeepsPagesInv(w: World, run: nat, start: StoredObject, step: Step, written: bool)
    requires Inv(w, run, start, written) && PagesInv(w, run, written)
    requires Enabled(w, step) && HonestStep(w, run, step, written)
    ensures PagesInv(Next(w, step), run, written || Wrote(w, step))
  {
    if step.PutRequest? {
      PutKeepsPagesInv(w, run, start, step, written);
    } else if step.RereadRequest? {
      RereadKeepsPagesInv(w, run, start, step, written);
    }
  }

  lemma {:induction false} HistoryKeepsPagesInv(w: World, run: nat, start: StoredObject, steps: seq<Step>,
                                                written: bool)
    requires Inv(w, run, start, written) && PagesInv(w, run, written)
    requires Possible(w, steps) && HonestHistory(w, run, steps, written)
    ensures Inv(Outcome(w, steps), run, start, HasWritten(w, steps, written))
    ensures PagesInv(Outcome(w, steps), run, HasWritten(w, steps, written))
    decreases |steps|
  {
    if steps != [] {
      StepKeepsInv(w, run, start, steps[0], written);
      StepKeepsPagesInv(w, run, start, steps[0], written);
      HistoryKeepsPagesInv(Next(w, steps[0]), run, start, steps[1..], written || Wrote(w, steps[0]));
    }
  }

  /** At the end of this history the run is about to re-read. */
  ghost predicate LosesPut(w: World, run: nat, steps: seq<Step>) {
    && Possible(w, steps) && HonestHistory(w, run, steps, false)
    && run in Outcome(w, steps).runs && Outcome(w, steps).runs[run].phase.Rereading?
  }

  ghost predicate MergeChangesNothing(w: World, run: nat, steps: seq<Step>)
    requires LosesPut(w, run, steps)
  {
    var now := Outcome(w, steps);
    && now.stored.Present? && now.stored.body.Parsed?
    && MergeCheckpoints(now.runs[run].phase.cas.intended, now.stored.body.checkpoint)
    == now.runs[run].phase.cas.intended
  }

  /** Every merge of the history is with the run's own write, and changes nothing in the intended record. */
  lemma OwnMergesChangeNothing(w: World, run: nat, steps: seq<Step>)
    requires Alone(w, run) && TidyStart(w.runs[run].conf, w.stored) && LosesPut(w, run, steps)
    ensures HasWritten(w, steps, false) && MergeChangesNothing(w, run, steps)
  {
    HistoryKeepsPagesInv(w, run, w.stored, steps, false);
    RereadMergesNothing(Outcome(w, steps), run, w.stored, Answer(true, true));
  }

  // ----- The starting records for which that fails -----

  lemma {:induction false} HistoryThen(w: World, run: nat, steps: seq<Step>, step: Step, written: bool)
    requires Possible(w, steps) && HonestHistory(w, run, steps, written) && Enabled(Outcome(w, steps), step)
    requires HonestStep(Outcome(w, steps), run, step, HasWritten(w, steps, written))
    ensures Possible(w, steps + [step]) && Outcome(w, steps + [step]) == Next(Outcome(w, steps), step)
    ensures HonestHistory(w, run, steps + [step], written)
    ensures HasWritten(w, steps + [step], written) == (HasWritten(w, steps, written) || Wrote(Outcome(w, steps), step))
    decreases |steps|
  {
    StepAfter(w, steps, step);
    var all := steps + [step];
    if steps == [] {
      assert all[1..] == [];
    } else {
      assert all[0] == steps[0] && all[1..] == steps[1..] + [step];
      HistoryThen(Next(w, steps[0]), run, steps[1..], step, written || Wrote(w, steps[0]));
    }
  }

  /** The run is about to do `page`, holds the stored version's tag, and still carries `entry` for a page ahead. */
  ghost predicate Carries(w: World, run: nat, steps: seq<Step>, page: nat, ahead: nat, entry: PageEntry) {
    && Possible(w, steps) && HonestHistory(w, run, steps, false)
    && var now := Outcome(w, steps);
       && run in now.runs && now.runs[run].phase.AtTop?
       && var cursor := now.runs[run].phase.cursor;
          && cursor.lastCompletedPage + 1 == page <= ahead && CapAllows(now.runs[run].conf, ahead - 1)
          && ahead in cursor.pages && cursor.pages[ahead] == entry
          && now.stored.Present? && now.stored.body.Parsed?
          && ahead in now.stored.body.checkpoint.pages && now.stored.body.checkpoint.pages[ahead] == entry
          && cursor.etag == Some(now.stored.Tag())
  }

  const NEW_WORK := Counts(1, 0, 1, 1)

  lemma {:induction false} ServePagesUpTo(w: World, run: nat, steps: seq<Step>, page: nat, ahead: nat, entry: PageEntry)
    returns (more: seq<Step>)
    requires Carries(w, run, steps, page, ahead, entry) && page < ahead
    ensures Carries(w, run, more, ahead, ahead, entry) && HasWritten(w, more, false)
    decreases ahead - page
  {
    var ingest, put := PageIngested(run, NEW_WORK, "t"), PutRequest(run, Serve(0, true));
    HistoryThen(w, run, steps, ingest, false);
    HistoryThen(w, run, steps + [ingest], put, false);
    more := steps + [ingest] + [put];
    if page + 1 < ahead {
      more := ServePagesUpTo(w, run, more, page + 1, ahead, entry);
    }
  }

  /** The PUT of the page with the old entry is refused, and the entry comes back from the merge. */
  lemma EntryAheadComesBack(w: World, run: nat, steps: seq<Step>, ahead: nat, entry: PageEntry)
    returns (more: seq<Step>)
    requires Carries(w, run, steps, ahead, ahead, entry) && HasWritten(w, steps, false)
    ensures LosesPut(w, run, more) && !MergeChangesNothing(w, run, more)
  {
    var different := if entry.counts == NEW_WORK then Counts(2, 0, 2, 2) else NEW_WORK;
    var next, lose := PageIngested(run, different, "t"), PutRequest(run, Refuse);
    HistoryThen(w, run, steps, next, false);
    HistoryThen(w, run, steps + [next], lose, false);
    more := steps + [next] + [lose];
    var now := Outcome(w, more);
    assert now.stored.body.checkpoint.pages[ahead] == entry;
    assert MergeCheckpoints(now.runs[run].phase.cas.intended, now.stored.body.checkpoint).pages[ahead] == entry;
  }

  /** A starting record with an entry beyond the next page leads some history to an altered merge. */
  lemma UntidyStartAltersMerge(w: World, run: nat) returns (steps: seq<Step>)
    requires Alone(w, run) && !TidyStart(w.runs[run].conf, w.stored)
    ensures LosesPut(w, run, steps) && !MergeChangesNothing(w, run, steps)
  {
    var c := w.stored.body.checkpoint;
    var ahead :| ahead in c.pages && ahead > c.lastCompletedPage + 1 && CapAllows(w.runs[run].conf, ahead - 1);
    var read := ReadStart(run, Answer(true, true));
    HistoryThen(w, run, [], read, false);
    steps := ServePagesUpTo(w, run, [] + [read], c.lastCompletedPage + 1, ahead, c.pages[ahead]);
    steps := EntryAheadComesBack(w, run, steps, ahead, c.pages[ahead]);
  }

  /**
   * Merging with its own earlier write is harmless in every honest history exactly
   * when the run starts from a record that is tidy as far as its cap reaches.
   */
  lemma OwnMergesHarmlessExactlyWhen(w: World, run: nat)
    requires Alone(w, run)
    ensures TidyStart(w.runs[run].conf, w.stored)
            <==> forall steps | LosesPut(w, run, steps) :: MergeChangesNothing(w, run, steps)
  {
    if TidyStart(w.runs[run].conf, w.stored) {
      forall steps | LosesPut(w, run, steps)
        ensures MergeChangesNothing(w, run, steps)
      {
        OwnMergesChangeNothing(w, run, steps);
      }
    } else {
      var steps := UntidyStartAltersMerge(w, run);
      assert LosesPut(w, run, steps) && !MergeChangesNothing(w, run, steps);
    }
  }

  // ----- The same merges under refusals at any time -----

  /** A PUT of the run has taken effect, and it is about to re-read. */
  ghost predicate LosesLaterPut(w: World, run: nat, steps: seq<Step>) {
    && Possible(w, steps) && FaultyHistory(w, run, steps) && HasWritten(w, steps, false)
    && run in Outcome(w, steps).runs && Outcome(w, steps).runs[run].phase.Rereading?
  }

  ghost predicate LaterMergeChangesNothing(w: World, run: nat, steps: seq<Step>)
    requires LosesLaterPut(w, run, steps)
  {
    var now := Outcome(w, steps);
    && now.stored.Present? && now.stored.body.Parsed?
    && MergeCheckpoints(now.runs[run].phase.cas.intended, now.stored.body.checkpoint)
    == now.runs[run].phase.cas.intended
  }

  /** A record that can be merged into the run's first write without a trace that a later record lacks. */
  predicate CleanStart(conf: RunConf, start: StoredObject) {
    start.Present? && start.body.Parsed? ==>
      var c := start.body.checkpoint;
      if c.status == Complete then c.pages == map[] && c.lastCompletedPage <= 1 && c.discoveredLastPage <= 1
      else KeysWithin(conf, c.pages, c.lastCompletedPage) && c.discoveredLastPage <= c.lastCompletedPage + 1
  }

  predicate Within(pages: PageMap, others: PageMap) {
    forall page <- pages :: page in others && others[page] == pages[page]
  }

  /** What is stored could be merged into a record of the next page without a trace. */
  ghost predicate Traceless(w: World, conf: RunConf, cursor: Cursor, start: StoredObject, written: bool) {
    && KeysWithin(conf, cursor.pages, cursor.lastCompletedPage)
    && (written ==> w.stored.Present?)
    && (!written ==> w.stored == start)
    && (w.stored.Present? ==>
          && w.stored.body.Parsed?
          && var c := w.stored.body.checkpoint;
             && Within(c.pages, cursor.pages)
             && c.discoveredLastPage <= cursor.lastCompletedPage + (if written then 0 else 1)
             && c.lastCompletedPage <= cursor.lastCompletedPage + if IsComplete(start) && !written then 1 else 0)
  }

  /** The record meant is that of the cursor, but for the merges of a final call that nothing of the run's precedes. */
  ghost predicate MeansCursor(w: World, cursor: Cursor, cas: CasState, goal: Goal, written: bool) {
    && (goal.PageGoal? || written ==>
          && cas.intended.pages == cursor.pages
          && cas.intended.lastCompletedPage == cas.intended.discoveredLastPage == cursor.lastCompletedPage)
    && (goal.PageGoal? ==>
          && (w.stored.Present? && w.stored.body.Parsed? ==>
              w.stored.body.checkpoint.discoveredLastPage <= cursor.lastCompletedPage)
          && StoredPage(w.stored) <= cursor.lastCompletedPage
          && (written ==> StoredPage(w.stored) < cursor.lastCompletedPage))
    && (goal.FinalGoal? && written ==> cas.intended.status == Complete)
  }

  ghost predicate CleanInv(w: World, run: nat, start: StoredObject, written: bool) {
    && w.runs.Keys == {run}
    && var conf := w.runs[run].conf;
       match w.runs[run].phase
       case Starting => !written && w.stored == start && Readable(start) && CleanStart(conf, start)
       case Ended => true
       case AtTop(cursor) => Traceless(w, conf, cursor, start, written)
       case Stopped(cursor) => Traceless(w, conf, cursor, start, written)
       case Putting(cursor, cas, goal) =>
         Traceless(w, conf, cursor, start, written) && MeansCursor(w, cursor, cas, goal, written)
       case Rereading(cursor, cas, goal) =>
         Traceless(w, conf, cursor, start, written) && MeansCursor(w, cursor, cas, goal, written)
  }

  lemma PagesAbsorb(pages: PageMap, others: PageMap)
    requires Within(others, pages)
    ensures pages + others == pages
  {
  }

  lemma CleanMergeChangesNothing(w: World, run: nat, start: StoredObject)
    requires CleanInv(w, run, start, true) && w.runs[run].phase.Rereading?
    ensures w.stored.Present? && w.stored.body.Parsed?
    ensures MergeCheckpoints(w.runs[run].phase.cas.intended, w.stored.body.checkpoint) == w.runs[run].phase.cas.intended
  {
    MergeAbsorbs(w.runs[run].phase.cas.intended, w.stored.body.checkpoint);
  }

  lemma RereadKeepsCleanInv(w: World, run: nat, start: StoredObject, step: Step, written: bool)
    requires CleanInv(w, run, start, written) && Enabled(w, step) && FaultyStep(w, run, step) && step.RereadRequest?
    ensures CleanInv(Next(w, step), run, start, written)
  {
    if w.stored.Present? {
      if written {
        CleanMergeChangesNothing(w, run, start);
      } else {
        PagesAbsorb(w.runs[run].phase.cursor.pages, w.stored.body.checkpoint.pages);
      }
    }
  }

  lemma PutKeepsCleanInv(w: World, run: nat, start: StoredObject, step: Step, written: bool)
    requires CleanInv(w, run, start, written) && Enabled(w, step) && FaultyStep(w, run, step) && step.PutRequest?
    ensures CleanInv(Next(w, step), run, start, written || Wrote(w, step))
  {
  }

  lemma StepKeepsCleanInv(w: World, run: nat, start: StoredObject, step: Step, written: bool)
    requires CleanInv(w, run, start, written) && Enabled(w, step) && FaultyStep(w, run, step)
    ensures CleanInv(Next(w, step), run, start, written || Wrote(w, step))
  {
    if step.RereadRequest? {
      RereadKeepsCleanInv(w, run, start, step, written);
    } else if step.PutRequest? {
      PutKeepsCleanInv(w, run, start, step, written);
    }
  }

  lemma {:induction false} HistoryKeepsCleanInv(w: World, run: nat, start: StoredObject, steps: seq<Step>,
                                                written: bool)
    requires CleanInv(w, run, start, written) && Possible(w, steps) && FaultyHistory(w, run, steps)
    ensures CleanInv(Outcome(w, steps), run, start, HasWritten(w, steps, written))
    decreases |steps|
  {
    if steps != [] {
      StepKeepsCleanInv(w, run, start, steps[0], written);
      HistoryKeepsCleanInv(Next(w, steps[0]), run, start, steps[1..], written || Wrote(w, steps[0]));
    }
  }

  /** What leaves a trace in the run's first write. */
  predicate LeavesTrace(start: StoredObject)
    requires start.Present? && start.body.Parsed?
  {
    var c := start.body.checkpoint;
    if c.status == Complete then c.pages != map[] || c.lastCompletedPage > 1 || c.discoveredLastPage > 1
    else c.discoveredLastPage > c.lastCompletedPage + 1 || c.lastCompletedPage + 1 in c.pages
  }

  /** Counts without news that differ from what the record says of the page. */
  function OtherCounts(start: StoredObject): Counts
    requires start.Present? && start.body.Parsed?
  {
    var pages, page := start.body.checkpoint.pages, CursorOver(start).lastCompletedPage + 1;
    if page in pages && pages[page].counts == NO_NEWS then Counts(2, 0, 0, 0) else NO_NEWS
  }

  ghost function LastRecord(conf: RunConf, start: StoredObject, counts: Counts): Checkpoint
    requires start.Present? && start.body.Parsed?
  {
    var cursor := CursorAfterFirstPage(start, counts);
    FinalCheckpoint(conf.identity, "t", cursor.lastCompletedPage, cursor.lastCompletedPage, cursor.pages)
  }

  lemma TraceInMerge(conf: RunConf, start: StoredObject)
    requires start.Present? && start.body.Parsed? && LeavesTrace(start)
    ensures var counts := OtherCounts(start);
            var own := MergeCheckpoints(FirstRecord(conf, start, counts), start.body.checkpoint);
            MergeCheckpoints(LastRecord(conf, start, counts), own) != LastRecord(conf, start, counts)
  {
    var c, counts := start.body.checkpoint, OtherCounts(start);
    var own, last := MergeCheckpoints(FirstRecord(conf, start, counts), c), LastRecord(conf, start, counts);
    if c.discoveredLastPage > last.discoveredLastPage || c.lastCompletedPage > last.lastCompletedPage {
      assert MergeCheckpoints(last, own).discoveredLastPage != last.discoveredLastPage
          || MergeCheckpoints(last, own).lastCompletedPage != last.lastCompletedPage;
    } else {
      var key :| key in c.pages && (c.status != Complete ==> key == c.lastCompletedPage + 1);
      assert own.pages[key] == c.pages[key] && MergeCheckpoints(last, own).pages[key] == c.pages[key];
      assert key in last.pages ==> last.pages[key] != c.pages[key];
    }
  }

  /** The final PUT after `StoredBehindTheRun` is refused too, and the next merge brings the trace back. */
  lemma TraceComesBack(w: World, run: nat) returns (steps: seq<Step>)
    requires Alone(w, run) && w.stored.Present? && LeavesTrace(w.stored)
    requires CapAllows(w.runs[run].conf, ResumesAfter(w.stored))
    ensures LosesLaterPut(w, run, steps) && !LaterMergeChangesNothing(w, run, steps)
  {
    var finalize, refused := Finalize(run, "t"), PutRequest(run, Refuse);
    steps := StoredBehindTheRun(w, run, OtherCounts(w.stored));
    FaultyThen(w, run, steps, finalize, false);
    steps := steps + [finalize];
    FaultyThen(w, run, steps, refused, false);
    steps := steps + [refused];
    assert Outcome(w, steps).runs[run].phase.cas.intended
           == LastRecord(w.runs[run].conf, w.stored, OtherCounts(w.stored));
    TraceInMerge(w.runs[run].conf, w.stored);
  }

  lemma UncleanStartLeavesTrace(w: World, run: nat) returns (steps: seq<Step>)
    requires Alone(w, run) && !CleanStart(w.runs[run].conf, w.stored)
    requires CapAllows(w.runs[run].conf, ResumesAfter(w.stored))
    ensures LosesLaterPut(w, run, steps) && !LaterMergeChangesNothing(w, run, steps)
  {
    var c := w.stored.body.checkpoint;
    if LeavesTrace(w.stored) {
      steps := TraceComesBack(w, run);
    } else {
      steps := UntidyStartAltersMerge(w, run);
      HonestIsFaulty(w, run, steps, false);
      HistoryKeepsInv(w, run, w.stored, steps, false);
    }
  }

  /**
   * With refusals at any time, every merge with an earlier write of its own leaves
   * the intended record alone, in every history, exactly when the run's cap allows
   * it no page or it starts from a record that is clean as far as the cap reaches.
   */
  lemma LaterMergesHarmlessExactlyWhen(w: World, run: nat)
    requires Alone(w, run)
    ensures !CapAllows(w.runs[run].conf, ResumesAfter(w.stored)) || CleanStart(w.runs[run].conf, w.stored)
            <==> forall steps | LosesLaterPut(w, run, steps) :: LaterMergeChangesNothing(w, run, steps)
  {
    if !CapAllows(w.runs[run].conf, ResumesAfter(w.stored)) {
      forall steps
        ensures !LosesLaterPut(w, run, steps)
      {
        if Possible(w, steps) && FaultyHistory(w, run, steps) {
          IdleRunWritesNothing(w, run, w.stored, steps);
        }
      }
    } else if CleanStart(w.runs[run].conf, w.stored) {
      forall steps | LosesLaterPut(w, run, steps)
        ensures LaterMergeChangesNothing(w, run, steps)
      {
        HistoryKeepsCleanInv(w, run, w.stored, steps, false);
        CleanMergeChangesNothing(Outcome(w, steps), run, w.stored);
      }
    } else {
      var steps := UncleanStartLeavesTrace(w, run);
      assert LosesLaterPut(w, run, steps) && !LaterMergeChangesNothing(w, run, steps);
    }
  }
}
