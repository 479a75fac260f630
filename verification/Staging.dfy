/** The staging table, its two unique keys, and the insert-then-look repository. */
module Staging {
  import opened Wrappers
  import opened RawStorage

  /** The id a replay is staged under: the source's own, or one derived from where it was found and its bytes. */
  datatype ReplayId = External(id: string) | Derived(url: string, filename: string, checksum: Digest)

  datatype Payload = Payload(
    sourceSystem: string,
    sourceReplayId: ReplayId,
    objectKey: ObjectKey,
    checksum: Digest,
    sizeBytes: nat,
    replayTimestamp: Option<string>)

  datatype Row = Row(id: nat, payload: Payload, status: string)

  type Table = seq<Row>

  predicate SameSource(a: Payload, b: Payload) {
    a.sourceSystem == b.sourceSystem && a.sourceReplayId == b.sourceReplayId
  }

  predicate SameObject(a: Payload, b: Payload) {
    a.checksum == b.checksum && a.objectKey == b.objectKey
  }

  function FindBySourceIdentity(rows: Table, payload: Payload): Option<Row> {
    if rows == [] then None
    else if SameSource(rows[0].payload, payload) then Some(rows[0])
    else FindBySourceIdentity(rows[1..], payload)
  }

  function FindByObjectIdentity(rows: Table, payload: Payload): Option<Row> {
    if rows == [] then None
    else if SameObject(rows[0].payload, payload) then Some(rows[0])
    else FindByObjectIdentity(rows[1..], payload)
  }

  predicate ExistsBySourceIdentity(rows: Table, sourceSystem: string, id: ReplayId) {
    exists i | 0 <= i < |rows| :: rows[i].payload.sourceSystem == sourceSystem && rows[i].payload.sourceReplayId == id
  }

  /** ON CONFLICT names the object key only, so a taken source key alone raises. */
  datatype InsertReply = Inserted | DidNothing | UniqueViolation

  function ReplyToInsert(rows: Table, payload: Payload): InsertReply {
    if FindByObjectIdentity(rows, payload).Some? then DidNothing
    else if FindBySourceIdentity(rows, payload).Some? then UniqueViolation
    else Inserted
  }

  function TableAfterInsert(rows: Table, payload: Payload, id: nat): Table {
    if ReplyToInsert(rows, payload).Inserted? then rows + [Row(id, payload, "pending")] else rows
  }

  /** Other users of the table: inserters under the same keys, and the server that moves a row's status on. */
  datatype OtherWrite = OtherInsert(payload: Payload, id: nat) | OtherStatus(index: nat, status: string)

  function AfterOther(rows: Table, write: OtherWrite): Table {
    match write
    case OtherInsert(payload, id) => TableAfterInsert(rows, payload, id)
    case OtherStatus(index, status) => if index < |rows| then rows[index := rows[index].(status := status)] else rows
  }

  function AfterOthers(rows: Table, writes: seq<OtherWrite>): Table {
    if writes == [] then rows else AfterOther(AfterOthers(rows, writes[..|writes| - 1]), writes[|writes| - 1])
  }

  // ----- One stage call -----

  datatype StageReason =
    | SourceIdentityConflict
    | RawObjectIdentityConflict
    | UniqueViolationWithoutExistingStaging
    | StagingWriteFailed

  datatype StagingResult =
    | Staged(payload: Payload, stagingId: nat)
    | AlreadyStaged(payload: Payload, existing: Row)
    | StagingConflict(payload: Payload, reason: StageReason, existing: Row)
    | StagingFailed(payload: Payload, reason: StageReason)
    | NotStageable

  /** None: the returned promise rejects. */
  type StageOutcome = Option<StagingResult>

  /** One query of the script: what others do to the table before it, and how it is answered. */
  datatype Query = Query(others: seq<OtherWrite>, works: bool, effective: bool)

  const MAX_QUERIES := 4

  datatype StageRun = StageRun(outcome: StageOutcome, rows: Table)

  function ClassifyExistingStaging(rows: Table, payload: Payload, queries: seq<Query>): StageRun
    requires |queries| >= 2
  {
    var first := AfterOthers(rows, queries[0].others);
    if !queries[0].works then StageRun(None, first)
    else
      var bySource := FindBySourceIdentity(first, payload);
      if bySource.Some? then
        StageRun(Some(if SameObject(bySource.value.payload, payload)
                      then AlreadyStaged(payload, bySource.value)
                      else StagingConflict(payload, SourceIdentityConflict, bySource.value)), first)
      else
        var second := AfterOthers(first, queries[1].others);
        if !queries[1].works then StageRun(None, second)
        else
          var byObject := FindByObjectIdentity(second, payload);
          StageRun(Some(if byObject.Some?
                        then StagingConflict(payload, RawObjectIdentityConflict, byObject.value)
                        else StagingFailed(payload, UniqueViolationWithoutExistingStaging)), second)
  }

  function Stage(rows: Table, payload: Payload, id: nat, queries: seq<Query>): StageRun
    requires |queries| == MAX_QUERIES
  {
    var found := AfterOthers(rows, queries[0].others);
    if !queries[0].works then
      StageRun(Some(StagingFailed(payload, StagingWriteFailed)),
               if queries[0].effective then TableAfterInsert(found, payload, id) else found)
    else
      var left := TableAfterInsert(found, payload, id);
      match ReplyToInsert(found, payload)
      case Inserted => StageRun(Some(Staged(payload, id)), left)
      case UniqueViolation => ClassifyExistingStaging(left, payload, queries[1..])
      case DidNothing =>
        var later := AfterOthers(left, queries[1].others);
        if !queries[1].works then StageRun(Some(StagingFailed(payload, StagingWriteFailed)), later)
        else if FindByObjectIdentity(later, payload).Some?
        then StageRun(Some(AlreadyStaged(payload, FindByObjectIdentity(later, payload).value)), later)
        else ClassifyExistingStaging(later, payload, queries[2..])
  }

  class StagingRepository {
    var rows: Table

    constructor (rows: Table)
      ensures this.rows == rows
    {
      this.rows := rows;
    }

    method OthersWrite(writes: seq<OtherWrite>)
      modifies this
      ensures rows == AfterOthers(old(rows), writes)
    {
      for i := 0 to |writes|
        invariant rows == AfterOthers(old(rows), writes[..i])
      {
        assert writes[..i + 1][..i] == writes[..i];
        rows := AfterOther(rows, writes[i]);
      }
      assert writes[..|writes|] == writes;
    }

    method InsertStaging(payload: Payload, id: nat) returns (reply: InsertReply)
      modifies this
      ensures rows == TableAfterInsert(old(rows), payload, id) && reply == ReplyToInsert(old(rows), payload)
    {
      reply := ReplyToInsert(rows, payload);
      if reply.Inserted? {
        rows := rows + [Row(id, payload, "pending")];
      }
    }

    method Classify(payload: Payload, queries: seq<Query>) returns (outcome: StageOutcome)
      requires |queries| >= 2
      modifies this
      ensures StageRun(outcome, rows) == ClassifyExistingStaging(old(rows), payload, queries)
    {
      OthersWrite(queries[0].others);
      if !queries[0].works {
        return None;
      }
      var bySource := FindBySourceIdentity(rows, payload);
      if bySource.Some? {
        if SameObject(bySource.value.payload, payload) {
          return Some(AlreadyStaged(payload, bySource.value));
        }
        return Some(StagingConflict(payload, SourceIdentityConflict, bySource.value));
      }
      OthersWrite(queries[1].others);
      if !queries[1].works {
        return None;
      }
      var byObject := FindByObjectIdentity(rows, payload);
      if byObject.Some? {
        return Some(StagingConflict(payload, RawObjectIdentityConflict, byObject.value));
      }
      return Some(StagingFailed(payload, UniqueViolationWithoutExistingStaging));
    }

    method StageReplay(payload: Payload, id: nat, queries: seq<Query>) returns (outcome: StageOutcome)
      requires |queries| == MAX_QUERIES
      modifies this
      ensures StageRun(outcome, rows) == Stage(old(rows), payload, id, queries)
    {
      OthersWrite(queries[0].others);
      if !queries[0].works {
        if queries[0].effective {
          var _ := InsertStaging(payload, id);
        }
        return Some(StagingFailed(payload, StagingWriteFailed));
      }
      var reply := InsertStaging(payload, id);
      match reply {
        case Inserted =>
          return Some(Staged(payload, id));
        case UniqueViolation =>
          outcome := Classify(payload, queries[1..]);
        case DidNothing =>
          OthersWrite(queries[1].others);
          if !queries[1].works {
            return Some(StagingFailed(payload, StagingWriteFailed));
          }
          var existing := FindByObjectIdentity(rows, payload);
          if existing.Some? {
            return Some(AlreadyStaged(payload, existing.value));
          }
          outcome := Classify(payload, queries[2..]);
      }
    }
  }

  // ----- What others can do to the table -----

  /** Rows are never deleted and their keys never change. */
  ghost predicate Evolves(before: Table, after: Table) {
    && |before| <= |after|
    && forall i | 0 <= i < |before| :: after[i].id == before[i].id && after[i].payload == before[i].payload
  }

  /** Both unique constraints hold. */
  ghost predicate KeysUnique(rows: Table) {
    forall i, j | 0 <= i < j < |rows| ::
      !SameSource(rows[i].payload, rows[j].payload) && !SameObject(rows[i].payload, rows[j].payload)
  }

  lemma {:induction false} FindBySourceIsFirst(rows: Table, payload: Payload)
    ensures match FindBySourceIdentity(rows, payload)
            case None => forall i | 0 <= i < |rows| :: !SameSource(rows[i].payload, payload)
            case Some(row) =>
              exists i | 0 <= i < |rows| ::
                rows[i] == row && SameSource(row.payload, payload)
                && forall j | 0 <= j < i :: !SameSource(rows[j].payload, payload)
  {
    if rows != [] && !SameSource(rows[0].payload, payload) {
      FindBySourceIsFirst(rows[1..], payload);
      if FindBySourceIdentity(rows[1..], payload).Some? {
        var i :| 0 <= i < |rows[1..]| && rows[1..][i] == FindBySourceIdentity(rows, payload).value
                 && SameSource(rows[1..][i].payload, payload)
                 && forall j | 0 <= j < i :: !SameSource(rows[1..][j].payload, payload);
        assert rows[i + 1] == rows[1..][i];
        assert forall j | 0 < j < i + 1 :: rows[j] == rows[1..][j - 1];
      } else {
        assert forall i | 0 < i < |rows| :: rows[i] == rows[1..][i - 1];
      }
    }
  }

  lemma {:induction false} FindByObjectIsFirst(rows: Table, payload: Payload)
    ensures match FindByObjectIdentity(rows, payload)
            case None => forall i | 0 <= i < |rows| :: !SameObject(rows[i].payload, payload)
            case Some(row) =>
              exists i | 0 <= i < |rows| ::
                rows[i] == row && SameObject(row.payload, payload)
                && forall j | 0 <= j < i :: !SameObject(rows[j].payload, payload)
  {
    if rows != [] && !SameObject(rows[0].payload, payload) {
      FindByObjectIsFirst(rows[1..], payload);
      if FindByObjectIdentity(rows[1..], payload).Some? {
        var i :| 0 <= i < |rows[1..]| && rows[1..][i] == FindByObjectIdentity(rows, payload).value
                 && SameObject(rows[1..][i].payload, payload)
                 && forall j | 0 <= j < i :: !SameObject(rows[1..][j].payload, payload);
        assert rows[i + 1] == rows[1..][i];
        assert forall j | 0 < j < i + 1 :: rows[j] == rows[1..][j - 1];
      } else {
        assert forall i | 0 < i < |rows| :: rows[i] == rows[1..][i - 1];
      }
    }
  }

  lemma InsertKeepsKeysUnique(rows: Table, payload: Payload, id: nat)
    requires KeysUnique(rows)
    ensures KeysUnique(TableAfterInsert(rows, payload, id)) && Evolves(rows, TableAfterInsert(rows, payload, id))
  {
    FindBySourceIsFirst(rows, payload);
    FindByObjectIsFirst(rows, payload);
  }

  lemma OtherKeepsKeysUnique(rows: Table, write: OtherWrite)
    ensures Evolves(rows, AfterOther(rows, write))
    ensures KeysUnique(rows) ==> KeysUnique(AfterOther(rows, write))
  {
    if write.OtherInsert? && KeysUnique(rows) {
      InsertKeepsKeysUnique(rows, write.payload, write.id);
    }
  }

  lemma {:induction false} OthersEvolve(rows: Table, writes: seq<OtherWrite>)
    ensures Evolves(rows, AfterOthers(rows, writes))
    ensures KeysUnique(rows) ==> KeysUnique(AfterOthers(rows, writes))
  {
    if writes != [] {
      OthersEvolve(rows, writes[..|writes| - 1]);
      OtherKeepsKeysUnique(AfterOthers(rows, writes[..|writes| - 1]), writes[|writes| - 1]);
    }
  }

  predicate SameRow(a: Row, b: Row) {
    a.id == b.id && a.payload == b.payload
  }

  /** A row found stays the row found, up to its status. */
  lemma {:induction false} FirstMatchSurvives(before: Table, after: Table, payload: Payload)
    requires Evolves(before, after)
    ensures FindBySourceIdentity(before, payload).Some? ==>
              && FindBySourceIdentity(after, payload).Some?
              && SameRow(FindBySourceIdentity(before, payload).value, FindBySourceIdentity(after, payload).value)
    ensures FindByObjectIdentity(before, payload).Some? ==>
              && FindByObjectIdentity(after, payload).Some?
              && SameRow(FindByObjectIdentity(before, payload).value, FindByObjectIdentity(after, payload).value)
    decreases |before|
  {
    if before != [] {
      assert forall i | 0 <= i < |before[1..]| :: after[1..][i] == after[i + 1] && before[1..][i] == before[i + 1];
      FirstMatchSurvives(before[1..], after[1..], payload);
    }
  }

  // ----- What a stage call means -----

  ghost predicate SourceTaken(rows: Table, payload: Payload) {
    exists i | 0 <= i < |rows| :: SameSource(rows[i].payload, payload)
  }

  ghost predicate ObjectTaken(rows: Table, payload: Payload) {
    exists i | 0 <= i < |rows| :: SameObject(rows[i].payload, payload)
  }

  /** `row` is one of the table's rows, give or take a status. */
  ghost predicate RowOf(rows: Table, row: Row) {
    exists i | 0 <= i < |rows| :: SameRow(rows[i], row)
  }

  lemma TakenIsFound(rows: Table, payload: Payload)
    ensures SourceTaken(rows, payload) <==> FindBySourceIdentity(rows, payload).Some?
    ensures ObjectTaken(rows, payload) <==> FindByObjectIdentity(rows, payload).Some?
    ensures FindBySourceIdentity(rows, payload).Some? ==>
              && SameSource(FindBySourceIdentity(rows, payload).value.payload, payload)
              && RowOf(rows, FindBySourceIdentity(rows, payload).value)
    ensures FindByObjectIdentity(rows, payload).Some? ==>
              && SameObject(FindByObjectIdentity(rows, payload).value.payload, payload)
              && RowOf(rows, FindByObjectIdentity(rows, payload).value)
  {
    FindBySourceIsFirst(rows, payload);
    FindByObjectIsFirst(rows, payload);
  }

  /** The three cases of a stage call, told by the table at the instant of its insert. */
  ghost predicate StageSpec(atInsert: Table, payload: Payload, id: nat, result: StagingResult) {
    if ObjectTaken(atInsert, payload) then
      && result.AlreadyStaged? && result.payload == payload
      && SameObject(result.existing.payload, payload) && RowOf(atInsert, result.existing)
    else if SourceTaken(atInsert, payload) then
      && result.StagingConflict? && result.payload == payload && result.reason == SourceIdentityConflict
      && SameSource(result.existing.payload, payload) && RowOf(atInsert, result.existing)
    else
      result == Staged(payload, id)
  }

  /**
   * A fault-free call answers as the three-case specification does at its insert,
   * however others use the table before and between its queries. Neither of the
   * repository's two remaining answers can come out, and it adds its row or none.
   */
  lemma StageRefinesSpec(rows: Table, payload: Payload, id: nat, queries: seq<Query>)
    requires |queries| == MAX_QUERIES && forall query <- queries :: query.works
    ensures var atInsert, run := AfterOthers(rows, queries[0].others), Stage(rows, payload, id, queries);
            && run.outcome.Some?
            && StageSpec(atInsert, payload, id, run.outcome.value)
            && run.rows == if run.outcome.value.Staged?
                           then atInsert + [Row(id, payload, "pending")]
                           else AfterOthers(atInsert, queries[1].others)
  {
    var atInsert := AfterOthers(rows, queries[0].others);
    var later := AfterOthers(atInsert, queries[1].others);
    assert queries[0] in queries && queries[1] in queries;
    OthersEvolve(atInsert, queries[1].others);
    FirstMatchSurvives(atInsert, later, payload);
    TakenIsFound(atInsert, payload);
    TakenIsFound(later, payload);
    assert queries[1..][0] == queries[1];
    if ReplyToInsert(atInsert, payload).UniqueViolation? {
      var before, after := FindBySourceIdentity(atInsert, payload).value, FindBySourceIdentity(later, payload).value;
      NoObjectMatch(atInsert, payload, before);
    }
  }

  lemma NoObjectMatch(rows: Table, payload: Payload, row: Row)
    requires RowOf(rows, row) && !ObjectTaken(rows, payload)
    ensures !SameObject(row.payload, payload)
  {
  }

  /** The table `after` keeps every row of `before`, and its constraints. */
  ghost predicate KeepsTable(before: Table, after: Table) {
    Evolves(before, after) && (KeysUnique(before) ==> KeysUnique(after))
  }

  lemma OthersKeepTable(before: Table, rows: Table, writes: seq<OtherWrite>)
    requires KeepsTable(before, rows)
    ensures KeepsTable(before, AfterOthers(rows, writes))
  {
    OthersEvolve(rows, writes);
  }

  lemma ClassifyReportsTruth(before: Table, rows: Table, payload: Payload, queries: seq<Query>)
    requires |queries| >= 2 && KeepsTable(before, rows)
    ensures var run := ClassifyExistingStaging(rows, payload, queries);
            && KeepsTable(before, run.rows)
            && !(run.outcome.Some? && run.outcome.value.Staged?)
            && (run.outcome.Some? && run.outcome.value.AlreadyStaged? ==> ObjectTaken(run.rows, payload))
  {
    var first := AfterOthers(rows, queries[0].others);
    OthersKeepTable(before, rows, queries[0].others);
    OthersKeepTable(before, first, queries[1].others);
    TakenIsFound(first, payload);
  }

  /**
   * Whatever breaks, a call that says staged or already staged leaves a row with
   * that object key, and no row is lost.
   */
  lemma StageReportsTruth(rows: Table, payload: Payload, id: nat, queries: seq<Query>)
    requires |queries| == MAX_QUERIES
    ensures var run := Stage(rows, payload, id, queries);
            && KeepsTable(rows, run.rows)
            && (run.outcome.Some? && (run.outcome.value.Staged? || run.outcome.value.AlreadyStaged?) ==>
                  ObjectTaken(run.rows, payload))
  {
    var found := AfterOthers(rows, queries[0].others);
    var left := TableAfterInsert(found, payload, id);
    OthersKeepTable(rows, rows, queries[0].others);
    assert KeepsTable(rows, left) by {
      if KeysUnique(found) {
        InsertKeepsKeysUnique(found, payload, id);
      }
    }
    var later := AfterOthers(left, queries[1].others);
    OthersKeepTable(rows, left, queries[1].others);
    ClassifyReportsTruth(rows, left, payload, queries[1..]);
    ClassifyReportsTruth(rows, later, payload, queries[2..]);
    TakenIsFound(later, payload);
    if queries[0].works && ReplyToInsert(found, payload).Inserted? {
      assert left[|found|].payload == payload;
    }
  }
}
