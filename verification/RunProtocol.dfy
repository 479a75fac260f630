/**
 * Any number of run-once processes over one checkpoint object, interleaved one
 * request at a time, with crashes, failing requests and merges.
 */
module RunProtocol {
  import opened Wrappers
  import opened Checkpoints
  import opened CheckpointStore
  import opened RunCheckpoint

  datatype RunConf = RunConf(identity: RunIdentity, conditionalWrites: bool, maxPages: Option<nat>)

  /** The part of the loop state that the checkpoint is built from. */
  datatype Cursor = Cursor(etag: Option<ETag>, lastCompletedPage: nat, pages: PageMap)

  datatype Goal = PageGoal(allDuplicate: bool) | FinalGoal

  datatype Phase =
    | Starting
    | AtTop(cursor: Cursor)
    | Stopped(cursor: Cursor)
    | Putting(cursor: Cursor, cas: CasState, goal: Goal)
    | Rereading(cursor: Cursor, cas: CasState, goal: Goal)
    | Ended

  datatype Run = Run(conf: RunConf, phase: Phase)

  /** `ingested` records the pages whose whole fan-out some run has gathered. */
  datatype World = World(stored: StoredObject, runs: map<nat, Run>, ingested: set<nat>)

  datatype Step =
    | Spawn(run: nat, conf: RunConf)
    | ReadStart(run: nat, read: ReadFate)
    | PageFails(run: nat)
    | CapReached(run: nat)
    | PageEmpty(run: nat)
    | PageIngested(run: nat, counts: Counts, now: string)
    | Finalize(run: nat, now: string)
    | PutRequest(run: nat, put: PutFate)
    | RereadRequest(run: nat, read: ReadFate)
    | Crash(run: nat)

  predicate IsAllDuplicate(counts: Counts) {
    counts.stored == 0 && counts.staged == 0 && counts.failed == 0
  }

  predicate CapAllows(conf: RunConf, lastCompletedPage: nat) {
    conf.maxPages.None? || lastCompletedPage + 1 <= conf.maxPages.value
  }

  predicate WithinCap(conf: RunConf, cursor: Cursor) {
    CapAllows(conf, cursor.lastCompletedPage)
  }

  predicate Enabled(w: World, step: Step) {
    if step.Spawn? then step.run !in w.runs
    else
      && step.run in w.runs
      && var Run(conf, phase) := w.runs[step.run];
         match step
         case ReadStart(_, _) => phase.Starting?
         case PageFails(_) => phase.AtTop? && WithinCap(conf, phase.cursor)
         case CapReached(_) => phase.AtTop? && !WithinCap(conf, phase.cursor)
         case PageEmpty(_) => phase.AtTop? && WithinCap(conf, phase.cursor)
         case PageIngested(_, _, _) => phase.AtTop? && WithinCap(conf, phase.cursor)
         case Finalize(_, _) => phase.Stopped?
         case PutRequest(_, _) => phase.Putting?
         case RereadRequest(_, _) => phase.Rereading?
         case Crash(_) => true
  }

  function StartCursor(resume: ResumeState): Cursor {
    Cursor(resume.etag, if resume.startPage == 0 then 0 else resume.startPage - 1, resume.pages)
  }

  /** Where a run goes once its write call is over. */
  function AfterWrite(cursor: Cursor, goal: Goal, outcome: WriteOutcome): Phase {
    match goal
    case FinalGoal => Ended
    case PageGoal(allDuplicate) =>
      var next := cursor.(etag := TagAfterWrite(cursor.etag, outcome));
      if allDuplicate then Stopped(next) else AtTop(next)
  }

  function PutHeader(w: World, run: nat): Header
    requires run in w.runs && w.runs[run].phase.Putting?
  {
    ConditionalHeader(w.runs[run].phase.cas.etag, w.runs[run].conf.conditionalWrites)
  }

  function PhaseAfterPut(w: World, run: nat, put: PutFate): Phase
    requires run in w.runs && w.runs[run].phase.Putting?
  {
    var Putting(cursor, cas, goal) := w.runs[run].phase;
    match ReplyToPut(w.stored, cas.intended, PutHeader(w, run), put)
    case Accepted(etag) => AfterWrite(cursor, goal, Written(etag))
    case ServerError => AfterWrite(cursor, goal, ThrewStoreError)
    case PreconditionFailed => Rereading(cursor, cas, goal)
  }

  function PhaseAfterReread(w: World, run: nat, read: ReadFate): Phase
    requires run in w.runs && w.runs[run].phase.Rereading?
  {
    var Rereading(cursor, cas, goal) := w.runs[run].phase;
    match AfterReread(cas, ReadCheckpoint(w.stored, read))
    case Again(next) => Putting(cursor, next, goal)
    case Finished(outcome) => AfterWrite(cursor, goal, outcome)
  }

  ghost function PhaseAfter(w: World, step: Step): Phase
    requires Enabled(w, step)
  {
    match step
    case Spawn(_, _) => Starting
    case ReadStart(_, read) =>
      var result := ReadCheckpoint(w.stored, read);
      if result.None? then Ended else AtTop(StartCursor(ResolveResumeState(result.value)))
    case PageFails(_) => Ended
    case CapReached(_) => Ended
    case PageEmpty(run) => Stopped(w.runs[run].phase.cursor)
    case PageIngested(run, counts, now) =>
      var Cursor(etag, last, pages) := w.runs[run].phase.cursor;
      var page, next := last + 1, pages[last + 1 := PageEntry(counts, "running")];
      Putting(Cursor(etag, page, next),
              CasState(PageCheckpoint(w.runs[run].conf.identity, now, page, next), etag, 0),
              PageGoal(IsAllDuplicate(counts)))
    case Finalize(run, now) =>
      var cursor := w.runs[run].phase.cursor;
      var last := cursor.lastCompletedPage;
      Putting(cursor,
              CasState(FinalCheckpoint(w.runs[run].conf.identity, now, last, last, cursor.pages), cursor.etag, 0),
              FinalGoal)
    case PutRequest(run, put) => PhaseAfterPut(w, run, put)
    case RereadRequest(run, read) => PhaseAfterReread(w, run, read)
    case Crash(_) => Ended
  }

  function ConfOf(w: World, step: Step): RunConf
    requires Enabled(w, step)
  {
    if step.Spawn? then step.conf else w.runs[step.run].conf
  }

  function StoredAfter(w: World, step: Step): StoredObject
    requires Enabled(w, step)
  {
    if step.PutRequest?
    then ObjectAfterPut(w.stored, w.runs[step.run].phase.cas.intended, PutHeader(w, step.run), step.put)
    else w.stored
  }

  ghost function Next(w: World, step: Step): World
    requires Enabled(w, step)
  {
    World(
      StoredAfter(w, step),
      w.runs[step.run := Run(ConfOf(w, step), PhaseAfter(w, step))],
      if step.PageIngested? then w.ingested + {w.runs[step.run].phase.cursor.lastCompletedPage + 1} else w.ingested)
  }

  ghost predicate Possible(w: World, steps: seq<Step>)
    decreases |steps|
  {
    steps == [] || (Enabled(w, steps[0]) && Possible(Next(w, steps[0]), steps[1..]))
  }

  ghost function Outcome(w: World, steps: seq<Step>): World
    requires Possible(w, steps)
    decreases |steps|
  {
    if steps == [] then w else Outcome(Next(w, steps[0]), steps[1..])
  }

  ghost predicate Initial(w: World) {
    w.runs == map[] && w.ingested == {} && (w.stored.Absent? || w.stored.body.Unparseable?)
  }

  // ----- Cursor safety -----

  /** Pages 1..last have all been ingested, and they are the keys of `pages`. */
  ghost predicate CoversUpTo(pages: PageMap, last: nat, ingested: set<nat>) {
    && (forall page :: page in pages <==> 1 <= page <= last)
    && (forall page | 1 <= page <= last :: page in ingested)
  }

  ghost predicate Sound(c: Checkpoint, ingested: set<nat>) {
    CoversUpTo(c.pages, c.lastCompletedPage, ingested) && c.discoveredLastPage == c.lastCompletedPage
  }

  ghost predicate SoundCursor(cursor: Cursor, ingested: set<nat>) {
    CoversUpTo(cursor.pages, cursor.lastCompletedPage, ingested)
  }

  ghost predicate SoundPhase(phase: Phase, ingested: set<nat>) {
    match phase
    case Starting => true
    case Ended => true
    case AtTop(cursor) => SoundCursor(cursor, ingested)
    case Stopped(cursor) => SoundCursor(cursor, ingested)
    case Putting(cursor, cas, _) => SoundCursor(cursor, ingested) && Sound(cas.intended, ingested)
    case Rereading(cursor, cas, _) => SoundCursor(cursor, ingested) && Sound(cas.intended, ingested)
  }

  ghost predicate SoundStored(stored: StoredObject, ingested: set<nat>) {
    stored.Present? && stored.body.Parsed? ==> Sound(stored.body.checkpoint, ingested)
  }

  ghost predicate SoundWorld(w: World) {
    SoundStored(w.stored, w.ingested) && forall run <- w.runs :: SoundPhase(w.runs[run].phase, w.ingested)
  }

  lemma MergeIsSound(a: Checkpoint, b: Checkpoint, ingested: set<nat>)
    requires Sound(a, ingested) && Sound(b, ingested)
    ensures Sound(MergeCheckpoints(a, b), ingested)
  {
  }

  lemma StepKeepsActorSound(w: World, step: Step)
    requires SoundWorld(w) && Enabled(w, step)
    ensures SoundPhase(PhaseAfter(w, step), Next(w, step).ingested)
  {
    if step.RereadRequest? {
      var result := ReadCheckpoint(w.stored, step.read);
      if result.Some? && result.value.checkpoint.Some? {
        MergeIsSound(w.runs[step.run].phase.cas.intended, result.value.checkpoint.value, w.ingested);
      }
    }
  }

  lemma StepKeepsSound(w: World, step: Step)
    requires SoundWorld(w) && Enabled(w, step)
    ensures SoundWorld(Next(w, step))
  {
    StepKeepsActorSound(w, step);
    var next := Next(w, step);
    forall run | run in next.runs
      ensures SoundPhase(next.runs[run].phase, next.ingested)
    {
      if run != step.run {
        assert SoundPhase(w.runs[run].phase, w.ingested);
      }
    }
  }

  /** The cursor-safety invariant holds after every possible history. */
  lemma {:induction false} CursorSafety(w: World, steps: seq<Step>)
    requires SoundWorld(w) && Possible(w, steps)
    ensures SoundWorld(Outcome(w, steps))
    decreases |steps|
  {
    if steps != [] {
      StepKeepsSound(w, steps[0]);
      CursorSafety(Next(w, steps[0]), steps[1..]);
    }
  }

  /** Some run gathers the fan-out of `page` during the history. */
  ghost predicate Gathers(w: World, steps: seq<Step>, page: nat)
    requires Possible(w, steps)
    decreases |steps|
  {
    steps != [] &&
    (|| (steps[0].PageIngested? && page == w.runs[steps[0].run].phase.cursor.lastCompletedPage + 1)
     || Gathers(Next(w, steps[0]), steps[1..], page))
  }

  lemma {:induction false} IngestedPagesWereGathered(w: World, steps: seq<Step>, page: nat)
    requires Possible(w, steps)
    ensures page in Outcome(w, steps).ingested <==> page in w.ingested || Gathers(w, steps, page)
    decreases |steps|
  {
    if steps != [] {
      IngestedPagesWereGathered(Next(w, steps[0]), steps[1..], page);
    }
  }

  /**
   * Whatever the interleaving, the crashes and the failing requests: the stored
   * checkpoint lists exactly the pages up to its cursor, its discovered range
   * ends there, and each of those pages was wholly ingested by some run.
   */
  lemma StoredCheckpointIsSafe(w: World, steps: seq<Step>)
    requires Initial(w) && Possible(w, steps)
    ensures var stored := Outcome(w, steps).stored;
            stored.Present? && stored.body.Parsed? ==>
              var c := stored.body.checkpoint;
              && (forall page :: page in c.pages <==> 1 <= page <= c.lastCompletedPage)
              && c.discoveredLastPage == c.lastCompletedPage
              && (forall page | 1 <= page <= c.lastCompletedPage :: Gathers(w, steps, page))
  {
    CursorSafety(w, steps);
    forall page: nat {
      IngestedPagesWereGathered(w, steps, page);
    }
  }

  /** The page a run is about to read comes right after pages that have all been ingested. */
  lemma NoRunSkipsAPage(w: World, steps: seq<Step>, run: nat)
    requires Initial(w) && Possible(w, steps)
    requires run in Outcome(w, steps).runs && Outcome(w, steps).runs[run].phase.AtTop?
    ensures forall page | 1 <= page <= Outcome(w, steps).runs[run].phase.cursor.lastCompletedPage ::
              Gathers(w, steps, page)
  {
    CursorSafety(w, steps);
    forall page: nat {
      IngestedPagesWereGathered(w, steps, page);
    }
  }

  // ----- When a PUT lowers the cursor -----

  /**
   * Where the tag a run holds came from; `merged` when a re-read of that call
   * brought in a record beyond the run's page.
   */
  datatype Origin =
    | NoTag
    | Resumed(record: Checkpoint)
    | Restarted(record: Checkpoint)
    | OwnWrite(record: Checkpoint, page: nat, merged: bool)

  /** `merged` is about the write call under way. */
  datatype Trail = Trail(origin: Origin, merged: bool)

  function OriginOfRead(result: ReadResult): Origin {
    if result.checkpoint.None? || result.etag.None? then NoTag
    else if result.checkpoint.value.status == Complete then Restarted(result.checkpoint.value)
    else Resumed(result.checkpoint.value)
  }

  /** The re-read brings in a record that is further on than the page of the run. */
  ghost predicate MergesBeyond(w: World, step: Step)
    requires Enabled(w, step)
  {
    step.RereadRequest? &&
    var result := ReadCheckpoint(w.stored, step.read);
    && result.Some? && result.value.checkpoint.Some?
    && result.value.checkpoint.value.lastCompletedPage > w.runs[step.run].phase.cursor.lastCompletedPage
  }

  /** The run starts over behind the pages of a finished record. */
  ghost predicate StartsOver(w: World, step: Step)
    requires Enabled(w, step)
  {
    step.ReadStart? &&
    var result := ReadCheckpoint(w.stored, step.read);
    && result.Some? && result.value.checkpoint.Some?
    && result.value.checkpoint.value.status == Complete && result.value.checkpoint.value.lastCompletedPage > 0
  }

  ghost function TrailAfter(w: World, step: Step, run: nat, trail: Trail): Trail
    requires Enabled(w, step)
  {
    if step.run != run then trail
    else match step
         case ReadStart(_, read) =>
           var result := ReadCheckpoint(w.stored, read);
           Trail(if result.Some? then OriginOfRead(result.value) else NoTag, false)
         case PageIngested(_, _, _) => trail.(merged := false)
         case Finalize(_, _) => trail.(merged := false)
         case RereadRequest(_, _) => trail.(merged := trail.merged || MergesBeyond(w, step))
         case PutRequest(_, put) =>
           var Putting(cursor, cas, _) := w.runs[run].phase;
           (match ReplyToPut(w.stored, cas.intended, PutHeader(w, run), put)
            case Accepted(Some(_)) => trail.(origin := OwnWrite(cas.intended, cursor.lastCompletedPage, trail.merged))
            case Accepted(None) => trail.(origin := NoTag)
            case _ => trail)
         case _ => trail
  }

  ghost function TrailOf(w: World, steps: seq<Step>, run: nat, trail: Trail): Trail
    requires Possible(w, steps)
    decreases |steps|
  {
    if steps == [] then trail else TrailOf(Next(w, steps[0]), steps[1..], run, TrailAfter(w, steps[0], run, trail))
  }

  const START_TRAIL := Trail(NoTag, false)

  ghost predicate TagFrom(cursor: Cursor, origin: Origin) {
    match origin
    case NoTag => cursor.etag.None?
    case Resumed(c) =>
      cursor.etag.Some? && cursor.etag.value.content == Parsed(c) && c.lastCompletedPage <= cursor.lastCompletedPage
    case Restarted(c) =>
      cursor.etag.Some? && cursor.etag.value.content == Parsed(c) && c.status == Complete
    case OwnWrite(c, page, merged) =>
      && cursor.etag.Some? && cursor.etag.value.content == Parsed(c)
      && page <= cursor.lastCompletedPage && page <= c.lastCompletedPage && (merged <==> c.lastCompletedPage > page)
  }

  /** After a re-read, the intended record is at or above the version its tag names. */
  ghost predicate CallFollows(cursor: Cursor, cas: CasState, trail: Trail) {
    && TagFrom(cursor, trail.origin)
    && cursor.lastCompletedPage <= cas.intended.lastCompletedPage
    && (trail.merged <==> cas.intended.lastCompletedPage > cursor.lastCompletedPage)
    && (cas.round == 0 ==> cas.etag == cursor.etag && !trail.merged)
    && (cas.round > 0 && cas.etag.Some? ==>
          cas.etag.value.content.Parsed? && AtOrAbove(cas.intended, cas.etag.value.content.checkpoint))
  }

  ghost predicate Follows(w: World, run: nat, trail: Trail) {
    run in w.runs ==>
      match w.runs[run].phase
      case Starting => true
      case Ended => true
      case AtTop(cursor) => TagFrom(cursor, trail.origin)
      case Stopped(cursor) => TagFrom(cursor, trail.origin)
      case Putting(cursor, cas, _) => CallFollows(cursor, cas, trail)
      case Rereading(cursor, cas, _) => CallFollows(cursor, cas, trail)
  }

  lemma PutFollows(w: World, step: Step, trail: Trail)
    requires Enabled(w, step) && step.PutRequest? && Follows(w, step.run, trail)
    ensures Follows(Next(w, step), step.run, TrailAfter(w, step, step.run, trail))
  {
  }

  lemma RereadFollows(w: World, step: Step, trail: Trail)
    requires Enabled(w, step) && step.RereadRequest? && Follows(w, step.run, trail)
    ensures Follows(Next(w, step), step.run, TrailAfter(w, step, step.run, trail))
  {
    var result := ReadCheckpoint(w.stored, step.read);
    if result.Some? && result.value.checkpoint.Some? {
      MergeIsLexicographicMaximum(w.runs[step.run].phase.cas.intended, result.value.checkpoint.value);
    }
  }

  lemma OtherStepFollows(w: World, step: Step, trail: Trail)
    requires Enabled(w, step) && !step.PutRequest? && !step.RereadRequest? && Follows(w, step.run, trail)
    ensures Follows(Next(w, step), step.run, TrailAfter(w, step, step.run, trail))
  {
  }

  lemma StepFollows(w: World, step: Step, run: nat, trail: Trail)
    requires Enabled(w, step) && Follows(w, run, trail)
    ensures Follows(Next(w, step), run, TrailAfter(w, step, run, trail))
  {
    if step.run != run {
      assert run in Next(w, step).runs ==> run in w.runs && Next(w, step).runs[run] == w.runs[run];
    } else if step.PutRequest? {
      PutFollows(w, step, trail);
    } else if step.RereadRequest? {
      RereadFollows(w, step, trail);
    } else {
      OtherStepFollows(w, step, trail);
    }
  }

  lemma {:induction false} HistoryFollows(w: World, steps: seq<Step>, run: nat, trail: Trail)
    requires Possible(w, steps) && Follows(w, run, trail)
    ensures Follows(Outcome(w, steps), run, TrailOf(w, steps, run, trail))
    decreases |steps|
  {
    if steps != [] {
      StepFollows(w, steps[0], run, trail);
      HistoryFollows(Next(w, steps[0]), steps[1..], run, TrailAfter(w, steps[0], run, trail));
    }
  }

  function StoredPage(stored: StoredObject): nat {
    if stored.Present? && stored.body.Parsed? then stored.body.checkpoint.lastCompletedPage else 0
  }

  /**
   * The tag is of a finished record that the run started over from, or of a write
   * of its own that a merge took further.
   */
  predicate FurtherOn(origin: Origin, page: nat) {
    match origin
    case Restarted(c) => c.lastCompletedPage > page
    case OwnWrite(c, _, merged) => merged && c.lastCompletedPage > page
    case _ => false
  }

  /**
   * In any history, a conditional PUT lowers the stored cursor exactly when it is
   * a call's first and the tag it sends was kept, through whatever calls threw,
   * from one of two events: the run started over from a finished record, or an
   * accepted PUT of its own stored a record merged beyond its page; in each case
   * one further on than the page now written. A PUT of a later round never goes
   * below what it replaces.
   */
  lemma PutLowersCursorExactlyWhen(w: World, steps: seq<Step>, step: Step)
    requires Initial(w) && Possible(w, steps)
    requires step.PutRequest? && Enabled(Outcome(w, steps), step)
    requires Outcome(w, steps).runs[step.run].conf.conditionalWrites
    requires TakesEffect(PutHeader(Outcome(w, steps), step.run), Outcome(w, steps).stored, step.put)
    ensures var now := Outcome(w, steps);
            var Putting(cursor, cas, _) := now.runs[step.run].phase;
            && (StoredPage(Next(now, step).stored) < StoredPage(now.stored) <==>
                cas.round == 0 && FurtherOn(TrailOf(w, steps, step.run, START_TRAIL).origin, cursor.lastCompletedPage))
            && (cas.round > 0 && now.stored.Present? ==>
                  && now.stored.body.Parsed?
                  && AtOrAbove(Next(now, step).stored.body.checkpoint, now.stored.body.checkpoint))
  {
    HistoryFollows(w, steps, step.run, START_TRAIL);
  }

  // ----- Histories without either event -----

  ghost predicate NeitherHappens(w: World, steps: seq<Step>)
    requires Possible(w, steps)
    decreases |steps|
  {
    steps != [] ==>
      && !StartsOver(w, steps[0]) && !MergesBeyond(w, steps[0])
      && NeitherHappens(Next(w, steps[0]), steps[1..])
  }

  ghost predicate TagNotBeyond(etag: Option<ETag>, page: nat) {
    etag.Some? ==> etag.value.content.Parsed? && etag.value.content.checkpoint.lastCompletedPage <= page
  }

  ghost predicate CallNotBehind(cursor: Cursor, cas: CasState) {
    && TagNotBeyond(cursor.etag, cursor.lastCompletedPage)
    && TagNotBeyond(cas.etag, cursor.lastCompletedPage)
    && cas.intended.lastCompletedPage == cursor.lastCompletedPage
  }

  ghost predicate NotBehind(phase: Phase) {
    match phase
    case Starting => true
    case Ended => true
    case AtTop(cursor) => TagNotBeyond(cursor.etag, cursor.lastCompletedPage)
    case Stopped(cursor) => TagNotBeyond(cursor.etag, cursor.lastCompletedPage)
    case Putting(cursor, cas, _) => CallNotBehind(cursor, cas)
    case Rereading(cursor, cas, _) => CallNotBehind(cursor, cas)
  }

  ghost predicate NoneBehind(w: World) {
    forall run <- w.runs :: w.runs[run].conf.conditionalWrites && NotBehind(w.runs[run].phase)
  }

  lemma StepKeepsNoneBehind(w: World, step: Step)
    requires NoneBehind(w) && Enabled(w, step) && !StartsOver(w, step) && !MergesBeyond(w, step)
    requires step.Spawn? ==> step.conf.conditionalWrites
    ensures NoneBehind(Next(w, step)) && StoredPage(w.stored) <= StoredPage(Next(w, step).stored)
  {
    assert NotBehind(PhaseAfter(w, step));
  }

  /** Among conditional writers, where neither event happens the stored cursor never goes down. */
  lemma {:induction false} CursorAdvancesWithoutThem(w: World, steps: seq<Step>)
    requires NoneBehind(w) && Possible(w, steps) && NeitherHappens(w, steps)
    requires forall step <- steps :: step.Spawn? ==> step.conf.conditionalWrites
    ensures StoredPage(w.stored) <= StoredPage(Outcome(w, steps).stored) && NoneBehind(Outcome(w, steps))
    decreases |steps|
  {
    if steps != [] {
      assert steps[0] in steps;
      StepKeepsNoneBehind(w, steps[0]);
      CursorAdvancesWithoutThem(Next(w, steps[0]), steps[1..]);
    }
  }

  lemma StepThen(w: World, step: Step, rest: seq<Step>)
    requires Enabled(w, step) && Possible(Next(w, step), rest)
    ensures Possible(w, [step] + rest) && Outcome(w, [step] + rest) == Outcome(Next(w, step), rest)
  {
    assert ([step] + rest)[1..] == rest;
  }

  /** A run that finds a finished checkpoint starts over, and its first page lowers the cursor. */
  lemma RestartLowersCursor(w: World, run: nat, conf: RunConf, counts: Counts, now: string, salt: nat)
    requires run !in w.runs && (conf.maxPages.Some? ==> conf.maxPages.value >= 1)
    requires w.stored.Present? && w.stored.body.Parsed? && w.stored.body.checkpoint.status == Complete
    requires w.stored.body.checkpoint.lastCompletedPage > 1
    ensures var steps := [Spawn(run, conf)] + ([ReadStart(run, Answer(true, true))] +
                         ([PageIngested(run, counts, now)] + ([PutRequest(run, Serve(salt, true))] + [])));
            Possible(w, steps) && StoredPage(Outcome(w, steps).stored) == 1 < StoredPage(w.stored)
  {
    var spawn, read := Spawn(run, conf), ReadStart(run, Answer(true, true));
    var ingest, put := PageIngested(run, counts, now), PutRequest(run, Serve(salt, true));
    var w1 := Next(w, spawn);
    var w2 := Next(w1, read);
    var w3 := Next(w2, ingest);
    StepThen(w3, put, []);
    StepThen(w2, ingest, [put] + []);
    StepThen(w1, read, [ingest] + ([put] + []));
    StepThen(w, spawn, [read] + ([ingest] + ([put] + [])));
  }

  /**
   * A run whose write was merged past its own page keeps its own cursor, so its
   * next page overwrites the merged record with a lower one.
   */
  lemma MergedWriteIsThenLowered(w: World, run: nat, counts: Counts, now: string, salt: nat, salt': nat)
    requires run in w.runs && w.runs[run].phase.Putting? && w.runs[run].phase.goal == PageGoal(false)
    requires WithinCap(w.runs[run].conf, w.runs[run].phase.cursor)
    requires w.runs[run].phase.cas.intended.lastCompletedPage > w.runs[run].phase.cursor.lastCompletedPage + 1
    requires Satisfied(PutHeader(w, run), w.stored)
    ensures var merged := PutRequest(run, Serve(salt, true));
            var own := [PageIngested(run, counts, now)] + ([PutRequest(run, Serve(salt', true))] + []);
            && Enabled(w, merged) && Possible(Next(w, merged), own)
            && StoredPage(Outcome(Next(w, merged), own).stored) < StoredPage(Next(w, merged).stored)
  {
    var w1 := Next(w, PutRequest(run, Serve(salt, true)));
    var next, put := PageIngested(run, counts, now), PutRequest(run, Serve(salt', true));
    var w2 := Next(w1, next);
    StepThen(w2, put, []);
    StepThen(w1, next, [put] + []);
  }

  lemma {:induction false} StepAfter(w: World, steps: seq<Step>, step: Step)
    requires Possible(w, steps) && Enabled(Outcome(w, steps), step)
    ensures Possible(w, steps + [step]) && Outcome(w, steps + [step]) == Next(Outcome(w, steps), step)
    decreases |steps|
  {
    if steps == [] {
      StepThen(w, step, []);
      assert [] + [step] == [step] + [];
    } else {
      StepAfter(Next(w, steps[0]), steps[1..], step);
      StepThen(w, steps[0], steps[1..] + [step]);
      assert steps + [step] == [steps[0]] + (steps[1..] + [step]);
    }
  }

  /** A served page: ingest and PUT against the version the run holds. */
  lemma PageServed(w: World, steps: seq<Step>, run: nat, salt: nat) returns (more: seq<Step>)
    requires Possible(w, steps)
    requires var now := Outcome(w, steps);
             && run in now.runs && now.runs[run].phase.AtTop?
             && WithinCap(now.runs[run].conf, now.runs[run].phase.cursor)
             && Satisfied(ConditionalHeader(now.runs[run].phase.cursor.etag, now.runs[run].conf.conditionalWrites),
                          now.stored)
    ensures Possible(w, more)
    ensures var was, now := Outcome(w, steps), Outcome(w, more);
            && now.stored.Present? && now.stored.body.Parsed?
            && StoredPage(now.stored) == was.runs[run].phase.cursor.lastCompletedPage + 1
            && now.stored.body.checkpoint.status == Running
            && now.runs.Keys == was.runs.Keys
            && (forall other <- was.runs :: now.runs[other].conf == was.runs[other].conf)
            && (forall other <- was.runs :: other != run ==> now.runs[other] == was.runs[other])
            && now.runs[run].phase.AtTop?
            && now.runs[run].phase.cursor.lastCompletedPage == was.runs[run].phase.cursor.lastCompletedPage + 1
            && now.runs[run].phase.cursor.etag == Some(now.stored.Tag())
  {
    var ingest, put := PageIngested(run, Counts(1, 0, 1, 1), "t"), PutRequest(run, Serve(salt, true));
    StepAfter(w, steps, ingest);
    StepAfter(w, steps + [ingest], put);
    more := steps + [ingest] + [put];
  }

  const DEMO_CONF := RunConf(RunIdentity("r", "s", "t"), true, None)

  const DEMO_START := World(Absent, map[], {})

  /** Two runs have read the missing object and are about to read page 1. */
  lemma TwoRunsStarted() returns (s: seq<Step>)
    ensures Possible(DEMO_START, s)
    ensures var waiting := Run(DEMO_CONF, AtTop(Cursor(None, 0, map[])));
            Outcome(DEMO_START, s) == World(Absent, map[0 := waiting, 1 := waiting], {})
  {
    var w := DEMO_START;
    var answer := Answer(true, true);
    s := [];
    StepAfter(w, s, Spawn(0, DEMO_CONF));
    s := s + [Spawn(0, DEMO_CONF)];
    StepAfter(w, s, Spawn(1, DEMO_CONF));
    s := s + [Spawn(1, DEMO_CONF)];
    StepAfter(w, s, ReadStart(0, answer));
    s := s + [ReadStart(0, answer)];
    StepAfter(w, s, ReadStart(1, answer));
    s := s + [ReadStart(1, answer)];
  }

  /** Run 1 loses its first PUT to run 0, which is two pages ahead, and merges. */
  lemma OvertakenRunMerges(w: World, s: seq<Step>) returns (more: seq<Step>)
    requires Possible(w, s)
    requires var now := Outcome(w, s);
             && 1 in now.runs && now.runs[1] == Run(DEMO_CONF, AtTop(Cursor(None, 0, map[])))
             && now.stored.Present? && now.stored.body.Parsed? && StoredPage(now.stored) == 3
    ensures Possible(w, more) && Outcome(w, more).stored == Outcome(w, s).stored
    ensures var now := Outcome(w, more);
            && 1 in now.runs && now.runs[1].conf == DEMO_CONF && now.runs[1].phase.Putting?
            && now.runs[1].phase.goal == PageGoal(false)
            && now.runs[1].phase.cursor.lastCompletedPage == 1
            && now.runs[1].phase.cas.intended.lastCompletedPage == 3
            && Satisfied(PutHeader(now, 1), now.stored)
    ensures Outcome(w, more).runs.Keys == Outcome(w, s).runs.Keys
    ensures forall run <- Outcome(w, s).runs :: Outcome(w, more).runs[run].conf == Outcome(w, s).runs[run].conf
  {
    var ingest, lose := PageIngested(1, Counts(1, 0, 1, 1), "t"), PutRequest(1, Serve(4, true));
    var reread := RereadRequest(1, Answer(true, true));
    StepAfter(w, s, ingest);
    StepAfter(w, s + [ingest], lose);
    StepAfter(w, s + [ingest] + [lose], reread);
    more := s + [ingest] + [lose] + [reread];
  }

  /** The stored cursor is not monotone once two runs write it, even if both write conditionally. */
  lemma CursorIsNotMonotone() returns (before: seq<Step>, after: seq<Step>)
    ensures Initial(DEMO_START) && Possible(DEMO_START, before) && Possible(Outcome(DEMO_START, before), after)
    ensures StoredPage(Outcome(Outcome(DEMO_START, before), after).stored)
            < StoredPage(Outcome(DEMO_START, before).stored)
    ensures forall run <- Outcome(DEMO_START, before).runs ::
              Outcome(DEMO_START, before).runs[run].conf.conditionalWrites
  {
    var s := TwoRunsStarted();
    s := PageServed(DEMO_START, s, 0, 1);
    s := PageServed(DEMO_START, s, 0, 2);
    s := PageServed(DEMO_START, s, 0, 3);
    s := OvertakenRunMerges(DEMO_START, s);
    var win := PutRequest(1, Serve(5, true));
    MergedWriteIsThenLowered(Outcome(DEMO_START, s), 1, Counts(1, 0, 1, 1), "t", 5, 6);
    StepAfter(DEMO_START, s, win);
    before := s + [win];
    after := [PageIngested(1, Counts(1, 0, 1, 1), "t")] + ([PutRequest(1, Serve(6, true))] + []);
  }

  // ----- A corrupt object under conditional writes -----

  ghost predicate NoTagHeld(phase: Phase) {
    match phase
    case Starting => true
    case Ended => true
    case AtTop(cursor) => cursor.etag.None?
    case Stopped(cursor) => cursor.etag.None?
    case Putting(cursor, cas, _) => cursor.etag.None? && cas.etag.None?
    case Rereading(cursor, cas, _) => cursor.etag.None? && cas.etag.None?
  }

  ghost predicate StuckOnCorruptObject(w: World) {
    && w.stored.Present? && w.stored.body.Unparseable?
    && forall run <- w.runs :: w.runs[run].conf.conditionalWrites && NoTagHeld(w.runs[run].phase)
  }

  /** However many runs follow, none that writes conditionally ever replaces a corrupt checkpoint. */
  lemma {:induction false} CorruptCheckpointIsForever(w: World, steps: seq<Step>)
    requires StuckOnCorruptObject(w) && Possible(w, steps)
    requires forall step <- steps :: step.Spawn? ==> step.conf.conditionalWrites
    ensures Outcome(w, steps).stored == w.stored && StuckOnCorruptObject(Outcome(w, steps))
    decreases |steps|
  {
    if steps != [] {
      var next := Next(w, steps[0]);
      assert steps[0] in steps;
      assert NoTagHeld(PhaseAfter(w, steps[0]));
      CorruptCheckpointIsForever(next, steps[1..]);
    }
  }
}
