/**
 * The store-then-stage fan-out over one page's candidates, one request at a
 * time: tasks interleave freely under the limiter, and other runs use the same
 * bucket and table between any two of their requests.
 */
module Ingest {
  import opened Wrappers
  import opened RawStorage
  import opened Staging
  import opened Payloads

  datatype Stores = Stores(bucket: Bucket, rows: Table)

  /** `content` is what the source serves at each URL; an absent URL always fails to fetch. */
  datatype Page = Page(candidates: seq<Candidate>, content: map<string, Bytes>, gated: bool, limit: nat)

  datatype RawResult =
    | FetchFailed(candidate: Candidate)
    | Evidence(candidate: Candidate, bytes: Bytes, status: RawStatus)

  predicate IsStageable(raw: RawResult) {
    raw.Evidence? && (raw.status == Stored || raw.status == Skipped)
  }

  datatype Task =
    | Waiting
    | Passed
    | SkippedById
    | NeedsPut(bytes: Bytes)
    | Held(raw: RawResult)
    | Settled(raw: RawResult, staging: StagingResult)
    | Thrown

  datatype State = State(stores: Stores, tasks: seq<Task>)

  /** How a stage call goes; the repository's own interleaving is settled at its insert. */
  datatype StageFate = StageWorks(id: nat) | StageBreaks(effective: bool, id: nat)

  datatype Action =
    | Gate(i: nat)
    | Head(i: nat, fetchWorks: bool, head: HeadFate)
    | RawPut(i: nat, put: RawPutFate)
    | StageRow(i: nat, fate: StageFate)
    | Throw(i: nat)
    | OtherReplay(bytes: Bytes)
    | OtherRow(write: OtherWrite)

  predicate ByOthers(a: Action) {
    a.OtherReplay? || a.OtherRow?
  }

  /** What the other runs do in a schedule. */
  function OthersOf(actions: seq<Action>): seq<Action> {
    if actions == [] then []
    else (if ByOthers(actions[0]) then [actions[0]] else []) + OthersOf(actions[1..])
  }

  predicate IsActive(task: Task) {
    task.Passed? || task.NeedsPut? || task.Held?
  }

  function Active(tasks: seq<Task>): nat {
    if tasks == [] then 0 else (if IsActive(tasks[0]) then 1 else 0) + Active(tasks[1..])
  }

  function Start(page: Page, stores: Stores): State {
    State(stores, seq(|page.candidates|, _ => Waiting))
  }

  /** A task may reject at any of its own requests, the gate's lookup included; its slot is free from then on. */
  predicate Enabled(page: Page, s: State, a: Action) {
    match a
    case Gate(i) => i < |s.tasks| && s.tasks[i].Waiting? && Active(s.tasks) < page.limit
    case Head(i, _, _) => i < |s.tasks| && s.tasks[i].Passed?
    case RawPut(i, _) => i < |s.tasks| && s.tasks[i].NeedsPut?
    case StageRow(i, _) => i < |s.tasks| && s.tasks[i].Held?
    case Throw(i) =>
      i < |s.tasks|
      && (IsActive(s.tasks[i]) || (page.gated && s.tasks[i].Waiting? && Active(s.tasks) < page.limit))
    case OtherReplay(_) => true
    case OtherRow(_) => true
  }

  /** What the table answers at the instant of the insert. */
  function AnswerAtInsert(rows: Table, payload: Payload, id: nat): StagingResult {
    if FindByObjectIdentity(rows, payload).Some?
    then AlreadyStaged(payload, FindByObjectIdentity(rows, payload).value)
    else if FindBySourceIdentity(rows, payload).Some?
    then StagingConflict(payload, SourceIdentityConflict, FindBySourceIdentity(rows, payload).value)
    else Staged(payload, id)
  }

  /** The atomic answer is the one the repository's specification gives. */
  lemma AnswerMeetsSpec(rows: Table, payload: Payload, id: nat)
    ensures StageSpec(rows, payload, id, AnswerAtInsert(rows, payload, id))
    ensures AnswerAtInsert(rows, payload, id).Staged? <==> TableAfterInsert(rows, payload, id) != rows
  {
    TakenIsFound(rows, payload);
  }

  /** The table as a stage call of this fate leaves it at its insert. */
  function TableAfterFate(rows: Table, payload: Payload, fate: StageFate): Table {
    match fate
    case StageWorks(id) => TableAfterInsert(rows, payload, id)
    case StageBreaks(effective, id) => if effective then TableAfterInsert(rows, payload, id) else rows
  }

  /** What a stage call of this fate may answer. */
  ghost predicate AnswersFate(rows: Table, payload: Payload, fate: StageFate, result: StagingResult) {
    match fate
    case StageWorks(id) => StageSpec(rows, payload, id, result)
    case StageBreaks(_, _) => result == StagingFailed(payload, StagingWriteFailed)
  }

  /**
   * Whatever breaks in it, a call of the repository is one of the fan-out's
   * atomic steps at its insert, followed by others' writes: a fate, or, when it
   * rejects, a throw that has left the table to the others.
   */
  lemma FaultedStageIsAStep(rows: Table, payload: Payload, id: nat, queries: seq<Query>)
    returns (fate: Option<StageFate>, later: seq<OtherWrite>)
    requires |queries| == MAX_QUERIES
    ensures var atInsert, run := AfterOthers(rows, queries[0].others), Stage(rows, payload, id, queries);
            match fate
            case None => run.outcome.None? && run.rows == AfterOthers(atInsert, later)
            case Some(step) =>
              && run.outcome.Some? && AnswersFate(atInsert, payload, step, run.outcome.value)
              && run.rows == AfterOthers(TableAfterFate(atInsert, payload, step), later)
  {
    var atInsert := AfterOthers(rows, queries[0].others);
    var reply := ReplyToInsert(atInsert, payload);
    var after := AfterOthers(atInsert, queries[1].others);
    TakenIsFound(atInsert, payload);
    assert AfterOthers(atInsert, []) == atInsert;
    if !queries[0].works {
      fate, later := Some(StageBreaks(queries[0].effective, id)), [];
      assert AfterOthers(TableAfterFate(atInsert, payload, fate.value), [])
             == TableAfterFate(atInsert, payload, fate.value);
    } else if reply.Inserted? {
      fate, later := Some(StageWorks(id)), [];
      assert AfterOthers(TableAfterInsert(atInsert, payload, id), []) == TableAfterInsert(atInsert, payload, id);
    } else {
      later := queries[1].others;
      OthersEvolve(atInsert, later);
      FirstMatchSurvives(atInsert, after, payload);
      TakenIsFound(after, payload);
      if queries[1].works {
        fate := Some(StageWorks(id));
        if reply.UniqueViolation? {
          NoObjectMatch(atInsert, payload, FindBySourceIdentity(atInsert, payload).value);
        }
      } else {
        fate := if reply.UniqueViolation? then None else Some(StageBreaks(false, id));
      }
    }
  }

  function AfterHead(page: Page, s: State, i: nat, fetchWorks: bool, head: HeadFate): Task
    requires i < |page.candidates|
  {
    var c := page.candidates[i];
    if !fetchWorks || FetchUrl(c) !in page.content then Held(FetchFailed(c))
    else
      var bytes := page.content[FetchUrl(c)];
      var verdict := HeadVerdict(s.stores.bucket, bytes, head);
      if verdict.Some? then Held(Evidence(c, bytes, verdict.value)) else NeedsPut(bytes)
  }

  function AfterStage(rows: Table, raw: RawResult, fate: StageFate): (Task, Table) {
    if !IsStageable(raw) then (Settled(raw, NotStageable), rows)
    else
      var payload := PayloadOf(raw.candidate, raw.bytes);
      var answer := match fate
                    case StageWorks(id) => AnswerAtInsert(rows, payload, id)
                    case StageBreaks(_, _) => StagingFailed(payload, StagingWriteFailed);
      (Settled(raw, answer), TableAfterFate(rows, payload, fate))
  }

  function Act(page: Page, s: State, a: Action): State
    requires |s.tasks| == |page.candidates| && Enabled(page, s, a)
  {
    match a
    case Gate(i) =>
      var known := page.gated && AlreadyKnown(s.stores.rows, page.candidates[i].externalId);
      s.(tasks := s.tasks[i := if known then SkippedById else Passed])
    case Head(i, fetchWorks, head) =>
      s.(tasks := s.tasks[i := AfterHead(page, s, i, fetchWorks, head)])
    case RawPut(i, put) =>
      var bytes := s.tasks[i].bytes;
      State(s.stores.(bucket := BucketAfterPut(s.stores.bucket, bytes, put)),
            s.tasks[i := Held(Evidence(page.candidates[i], bytes, StatusAfterPut(put)))])
    case StageRow(i, fate) =>
      var (task, rows) := AfterStage(s.stores.rows, s.tasks[i].raw, fate);
      State(s.stores.(rows := rows), s.tasks[i := task])
    case Throw(i) => s.(tasks := s.tasks[i := Thrown])
    case OtherReplay(bytes) =>
      s.(stores := s.stores.(bucket := s.stores.bucket[KeyOf(bytes) := ObjectOf(bytes)]))
    case OtherRow(write) =>
      s.(stores := s.stores.(rows := AfterOther(s.stores.rows, write)))
  }

  predicate Possible(page: Page, s: State, actions: seq<Action>)
    requires |s.tasks| == |page.candidates|
    decreases |actions|
  {
    actions == [] || (Enabled(page, s, actions[0]) && Possible(page, Act(page, s, actions[0]), actions[1..]))
  }

  function Outcome(page: Page, s: State, actions: seq<Action>): (r: State)
    requires |s.tasks| == |page.candidates| && Possible(page, s, actions)
    ensures |r.tasks| == |page.candidates|
    decreases |actions|
  {
    if actions == [] then s else Outcome(page, Act(page, s, actions[0]), actions[1..])
  }

  predicate IsDone(task: Task) {
    task.Settled? || task.SkippedById?
  }

  /** The fan-out has gathered every candidate. */
  predicate Gathered(s: State) {
    forall i | 0 <= i < |s.tasks| :: IsDone(s.tasks[i])
  }

  predicate Completes(page: Page, stores: Stores, actions: seq<Action>) {
    Possible(page, Start(page, stores), actions) && Gathered(Outcome(page, Start(page, stores), actions))
  }

  function Ingested(page: Page, stores: Stores, actions: seq<Action>): State
    requires Completes(page, stores, actions)
  {
    Outcome(page, Start(page, stores), actions)
  }

  /** A task is finished once it has settled, by a value or by a rejection. */
  predicate IsFinished(task: Task) {
    IsDone(task) || task.Thrown?
  }

  predicate Over(s: State) {
    forall i | 0 <= i < |s.tasks| :: IsFinished(s.tasks[i])
  }

  /** The fan-out is awaited until every task is over; it is gathered unless one was rejected. */
  predicate Settles(page: Page, stores: Stores, actions: seq<Action>) {
    Possible(page, Start(page, stores), actions) && Over(Outcome(page, Start(page, stores), actions))
  }

  /** The stores as a fan-out that settled leaves them, gathered or not. */
  function StoresOnceOver(page: Page, stores: Stores, actions: seq<Action>): Stores
    requires Settles(page, stores, actions)
  {
    Outcome(page, Start(page, stores), actions).stores
  }

  // ----- What each task knows about the stores -----

  ghost predicate Sane(stores: Stores) {
    WellAddressed(stores.bucket) && KeysUnique(stores.rows)
  }

  ghost predicate Extends(before: Stores, after: Stores) {
    Grows(before.bucket, after.bucket) && Evolves(before.rows, after.rows)
  }

  lemma ExtendsThen(a: Stores, b: Stores, c: Stores)
    requires Extends(a, b) && Extends(b, c)
    ensures Extends(a, c)
  {
  }

  ghost predicate RawTrue(page: Page, stores: Stores, i: nat, raw: RawResult)
    requires i < |page.candidates|
  {
    && raw.candidate == page.candidates[i]
    && (raw.Evidence? ==>
          && FetchUrl(raw.candidate) in page.content && raw.bytes == page.content[FetchUrl(raw.candidate)]
          && raw.status != Conflict)
    && (IsStageable(raw) ==> Has(stores.bucket, raw.bytes))
  }

  ghost predicate StagingTrue(stores: Stores, raw: RawResult, staging: StagingResult) {
    if !IsStageable(raw) then staging.NotStageable?
    else
      var payload := PayloadOf(raw.candidate, raw.bytes);
      match staging
      case Staged(_, _) => ObjectTaken(stores.rows, payload)
      case AlreadyStaged(_, _) => ObjectTaken(stores.rows, payload)
      case StagingConflict(_, _, _) => SourceTaken(stores.rows, payload)
      case StagingFailed(_, _) => true
      case NotStageable => false
  }

  ghost predicate TaskTrue(page: Page, stores: Stores, i: nat, task: Task)
    requires i < |page.candidates|
  {
    match task
    case Waiting => true
    case Passed => true
    case SkippedById => page.gated && AlreadyKnown(stores.rows, page.candidates[i].externalId)
    case NeedsPut(bytes) =>
      FetchUrl(page.candidates[i]) in page.content && bytes == page.content[FetchUrl(page.candidates[i])]
    case Held(raw) => RawTrue(page, stores, i, raw)
    case Settled(raw, staging) => RawTrue(page, stores, i, raw) && StagingTrue(stores, raw, staging)
    case Thrown => true
  }

  ghost predicate Truthful(page: Page, s: State) {
    && |s.tasks| == |page.candidates|
    && Sane(s.stores)
    && forall i | 0 <= i < |s.tasks| :: TaskTrue(page, s.stores, i, s.tasks[i])
  }

  lemma TruthSurvives(page: Page, before: Stores, after: Stores, i: nat, task: Task)
    requires i < |page.candidates| && Extends(before, after) && TaskTrue(page, before, i, task)
    ensures TaskTrue(page, after, i, task)
  {
    if task.SkippedById? {
      KnownSurvives(before.rows, after.rows, page.candidates[i].externalId);
    } else if task.Settled? && IsStageable(task.raw) {
      TakenSurvives(before.rows, after.rows, PayloadOf(task.raw.candidate, task.raw.bytes));
    }
  }

  lemma TakenSurvives(before: Table, after: Table, payload: Payload)
    requires Evolves(before, after)
    ensures SourceTaken(before, payload) ==> SourceTaken(after, payload)
    ensures ObjectTaken(before, payload) ==> ObjectTaken(after, payload)
  {
    if SourceTaken(before, payload) {
      var i :| 0 <= i < |before| && SameSource(before[i].payload, payload);
      assert SameSource(after[i].payload, payload);
    }
    if ObjectTaken(before, payload) {
      var i :| 0 <= i < |before| && SameObject(before[i].payload, payload);
      assert SameObject(after[i].payload, payload);
    }
  }

  lemma KnownSurvives(before: Table, after: Table, id: Option<string>)
    requires Evolves(before, after) && AlreadyKnown(before, id)
    ensures AlreadyKnown(after, id)
  {
    var i :| 0 <= i < |before| && before[i].payload.sourceSystem == DEFAULT_SOURCE_SYSTEM
             && before[i].payload.sourceReplayId == External(id.value);
    assert after[i].payload.sourceReplayId == External(id.value);
  }

  /** No action loses an object or a row, or breaks content addressing or a unique key. */
  lemma ActionExtendsStores(page: Page, s: State, a: Action)
    requires |s.tasks| == |page.candidates| && Enabled(page, s, a) && Sane(s.stores)
    ensures Sane(Act(page, s, a).stores) && Extends(s.stores, Act(page, s, a).stores)
  {
    match a
    case RawPut(i, _) => PutKeepsAddressing(s.stores.bucket, s.tasks[i].bytes);
    case OtherReplay(bytes) => PutKeepsAddressing(s.stores.bucket, bytes);
    case OtherRow(write) => OtherKeepsKeysUnique(s.stores.rows, write);
    case StageRow(i, fate) =>
      var raw := s.tasks[i].raw;
      if IsStageable(raw) {
        InsertKeepsKeysUnique(s.stores.rows, PayloadOf(raw.candidate, raw.bytes), fate.id);
      }
    case _ =>
  }

  lemma ActorStaysTrue(page: Page, s: State, a: Action)
    requires Truthful(page, s) && Enabled(page, s, a) && !a.OtherReplay? && !a.OtherRow?
    ensures TaskTrue(page, Act(page, s, a).stores, a.i, Act(page, s, a).tasks[a.i])
  {
    assert TaskTrue(page, s.stores, a.i, s.tasks[a.i]);
    match a
    case Head(i, fetchWorks, head) =>
      if fetchWorks && FetchUrl(page.candidates[i]) in page.content {
        StoreIsContentAddressed(s.stores.bucket, page.content[FetchUrl(page.candidates[i])], head, [], PutServed);
      }
    case StageRow(i, fate) =>
      StagedRowIsThere(s.stores.rows, s.tasks[i].raw, fate);
    case _ =>
  }

  lemma StagedRowIsThere(rows: Table, raw: RawResult, fate: StageFate)
    ensures var (task, after) := AfterStage(rows, raw, fate);
            task.Settled? && task.raw == raw
            && forall bucket :: StagingTrue(Stores(bucket, after), raw, task.staging)
  {
    if IsStageable(raw) && fate.StageWorks? {
      var payload := PayloadOf(raw.candidate, raw.bytes);
      var after := TableAfterInsert(rows, payload, fate.id);
      TakenIsFound(rows, payload);
      if AnswerAtInsert(rows, payload, fate.id).Staged? {
        assert after[|rows|].payload == payload;
      }
    }
  }

  lemma ActionKeepsTruth(page: Page, s: State, a: Action)
    requires Truthful(page, s) && Enabled(page, s, a)
    ensures Truthful(page, Act(page, s, a)) && Extends(s.stores, Act(page, s, a).stores)
  {
    var t := Act(page, s, a);
    ActionExtendsStores(page, s, a);
    forall i | 0 <= i < |t.tasks|
      ensures TaskTrue(page, t.stores, i, t.tasks[i])
    {
      if !a.OtherReplay? && !a.OtherRow? && a.i == i {
        ActorStaysTrue(page, s, a);
      } else {
        TruthSurvives(page, s.stores, t.stores, i, s.tasks[i]);
      }
    }
  }

  /**
   * However tasks and other runs interleave and whatever fails: nothing
   * is ever lost or replaced, and what a task reports of the bucket and the
   * table holds from then on.
   */
  lemma {:induction false} IngestIsTruthful(page: Page, s: State, actions: seq<Action>)
    requires Truthful(page, s) && Possible(page, s, actions)
    ensures Truthful(page, Outcome(page, s, actions)) && Extends(s.stores, Outcome(page, s, actions).stores)
    decreases |actions|
  {
    if actions != [] {
      ActionKeepsTruth(page, s, actions[0]);
      IngestIsTruthful(page, Act(page, s, actions[0]), actions[1..]);
    }
  }

  // ----- Ingesting a page again -----

  predicate TaskFailed(task: Task) {
    task.Settled? &&
    (|| task.raw.FetchFailed?
     || (task.raw.Evidence? && task.raw.status == Failed)
     || task.staging.StagingFailed?)
  }

  predicate Unfailed(s: State) {
    forall i | 0 <= i < |s.tasks| :: !TaskFailed(s.tasks[i])
  }

  /** The candidate's bytes are stored, and one of its staging keys is taken. */
  ghost predicate Landed(page: Page, stores: Stores, c: Candidate) {
    && FetchUrl(c) in page.content
    && var bytes := page.content[FetchUrl(c)];
       && Has(stores.bucket, bytes)
       && (ObjectTaken(stores.rows, PayloadOf(c, bytes)) || SourceTaken(stores.rows, PayloadOf(c, bytes)))
  }

  ghost predicate AllLanded(page: Page, stores: Stores) {
    forall i | 0 <= i < |page.candidates| :: Landed(page, stores, page.candidates[i])
  }

  lemma LandedSurvives(page: Page, before: Stores, after: Stores)
    requires AllLanded(page, before) && Extends(before, after)
    ensures AllLanded(page, after)
  {
    forall i | 0 <= i < |page.candidates|
      ensures Landed(page, after, page.candidates[i])
    {
      var c := page.candidates[i];
      assert Landed(page, before, c);
      TakenSurvives(before.rows, after.rows, PayloadOf(c, page.content[FetchUrl(c)]));
    }
  }

  /** An ungated page that is gathered without a failure has landed. */
  lemma UnfailedPageLands(page: Page, stores: Stores, actions: seq<Action>)
    requires Sane(stores) && !page.gated && Completes(page, stores, actions)
    requires Unfailed(Ingested(page, stores, actions))
    ensures AllLanded(page, Ingested(page, stores, actions).stores)
    ensures Sane(Ingested(page, stores, actions).stores) && Extends(stores, Ingested(page, stores, actions).stores)
  {
    var s := Ingested(page, stores, actions);
    IngestIsTruthful(page, Start(page, stores), actions);
    forall i | 0 <= i < |page.candidates|
      ensures Landed(page, s.stores, page.candidates[i])
    {
      assert IsDone(s.tasks[i]) && TaskTrue(page, s.stores, i, s.tasks[i]) && !TaskFailed(s.tasks[i]);
    }
  }

  predicate StoredNothing(raw: RawResult) {
    raw.FetchFailed? || raw.status == Skipped || raw.status == Failed
  }

  /** Nothing new came of this candidate: its raw object was found, or it failed, and no row was added for it. */
  predicate NothingNew(task: Task) {
    task.Settled? ==> StoredNothing(task.raw) && !task.staging.Staged?
  }

  predicate BringsNothingNew(task: Task) {
    NothingNew(task) && !task.NeedsPut? && (task.Held? ==> StoredNothing(task.raw))
  }

  ghost predicate Repeating(page: Page, s: State) {
    && Truthful(page, s) && !page.gated && AllLanded(page, s.stores)
    && forall i | 0 <= i < |s.tasks| :: BringsNothingNew(s.tasks[i])
  }

  predicate Faultless(a: Action) {
    match a
    case Head(_, fetchWorks, head) => fetchWorks && head == HeadAnswers
    case RawPut(_, put) => put == PutServed
    case StageRow(_, fate) => fate.StageWorks?
    case Throw(_) => false
    case _ => true
  }

  lemma RepeatedActorBringsNothing(page: Page, s: State, a: Action)
    requires Repeating(page, s) && Enabled(page, s, a) && !ByOthers(a)
    ensures BringsNothingNew(Act(page, s, a).tasks[a.i]) && Act(page, s, a).stores == s.stores
  {
    assert Landed(page, s.stores, page.candidates[a.i]);
    assert TaskTrue(page, s.stores, a.i, s.tasks[a.i]);
    if a.StageRow? && IsStageable(s.tasks[a.i].raw) {
      TakenIsFound(s.stores.rows, PayloadOf(s.tasks[a.i].raw.candidate, s.tasks[a.i].raw.bytes));
    }
  }

  lemma RepeatedActionAddsNothing(page: Page, s: State, a: Action)
    requires Repeating(page, s) && Enabled(page, s, a)
    ensures Repeating(page, Act(page, s, a))
    ensures !ByOthers(a) ==> Act(page, s, a).stores == s.stores
  {
    ActionKeepsTruth(page, s, a);
    LandedSurvives(page, s.stores, Act(page, s, a).stores);
    if !ByOthers(a) {
      RepeatedActorBringsNothing(page, s, a);
    }
  }

  predicate HeldUnfailed(s: State) {
    forall i | 0 <= i < |s.tasks| :: s.tasks[i].Held? ==> s.tasks[i].raw.Evidence? && s.tasks[i].raw.status != Failed
  }

  lemma {:induction false} RepeatedPageAddsNothing(page: Page, s: State, actions: seq<Action>)
    requires Repeating(page, s) && Possible(page, s, actions)
    ensures Repeating(page, Outcome(page, s, actions))
    ensures (forall a <- actions :: !ByOthers(a)) ==> Outcome(page, s, actions).stores == s.stores
    decreases |actions|
  {
    if actions != [] {
      assert actions[0] in actions && forall a <- actions[1..] :: a in actions;
      RepeatedActionAddsNothing(page, s, actions[0]);
      RepeatedPageAddsNothing(page, Act(page, s, actions[0]), actions[1..]);
    }
  }

  /**
   * A page that has landed stores and stages nothing when it is ingested again,
   * under any schedule and any faults; without faults nothing fails, and without
   * other runs bucket and table stay as they are.
   */
  lemma IngestingAgainAddsNothing(page: Page, stores: Stores, actions: seq<Action>)
    requires Sane(stores) && !page.gated && AllLanded(page, stores) && Completes(page, stores, actions)
    ensures var s := Ingested(page, stores, actions);
            && (forall i | 0 <= i < |s.tasks| :: s.tasks[i].Settled? && NothingNew(s.tasks[i]))
            && ((forall a <- actions :: !ByOthers(a)) ==> s.stores == stores)
            && ((forall a <- actions :: Faultless(a)) ==> Unfailed(s))
  {
    RepeatedPageAddsNothing(page, Start(page, stores), actions);
    var s := Ingested(page, stores, actions);
    if forall a <- actions :: Faultless(a) {
      assert forall i | 0 <= i < |page.candidates| :: Landed(page, stores, page.candidates[i]);
      FaultlessPageIsUnfailed(page, Start(page, stores), actions);
    }
    forall i | 0 <= i < |s.tasks|
      ensures s.tasks[i].Settled?
    {
      assert IsDone(s.tasks[i]) && TaskTrue(page, s.stores, i, s.tasks[i]);
    }
  }

  ghost predicate AllServed(page: Page) {
    forall i | 0 <= i < |page.candidates| :: FetchUrl(page.candidates[i]) in page.content
  }

  /** Where every URL is served and no request fails, no candidate does. */
  lemma {:induction false} FaultlessPageIsUnfailed(page: Page, s: State, actions: seq<Action>)
    requires Truthful(page, s) && AllServed(page) && Unfailed(s) && HeldUnfailed(s)
    requires Possible(page, s, actions) && forall a <- actions :: Faultless(a)
    ensures Unfailed(Outcome(page, s, actions))
    decreases |actions|
  {
    if actions != [] {
      assert actions[0] in actions && forall a <- actions[1..] :: a in actions;
      ActionKeepsTruth(page, s, actions[0]);
      FaultlessPageIsUnfailed(page, Act(page, s, actions[0]), actions[1..]);
    }
  }
}
