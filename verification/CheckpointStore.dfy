/**
 * The S3 checkpoint store: one object, conditional PUTs and a bounded
 * compare-and-swap loop that merges with whatever won the race.
 *
 * Everything the loop does not control is a value of the script it is run
 * against: what other writers left in the object before each of its requests,
 * and how the server answers.
 */
module CheckpointStore {
  import opened Wrappers
  import opened Checkpoints

  const MAX_CAS_ROUNDS := 5

  datatype Body = Parsed(checkpoint: Checkpoint) | Unparseable

  /** An entity tag is opaque to the service; carrying the body makes equal tags imply equal bodies. */
  datatype ETag = ETag(content: Body, salt: nat)

  datatype StoredObject = Absent | Present(body: Body, salt: nat) {
    function Tag(): ETag
      requires Present?
    {
      ETag(body, salt)
    }
  }

  datatype Header = IfMatch(tag: ETag) | IfNoneMatchAny | NoHeader

  function ConditionalHeader(etag: Option<ETag>, conditionalWrites: bool): Header {
    if !conditionalWrites then NoHeader
    else if etag.None? then IfNoneMatchAny
    else IfMatch(etag.value)
  }

  /** Sections 13.1.1 and 13.1.2 of RFC 9110. */
  predicate Satisfied(header: Header, stored: StoredObject) {
    match header
    case NoHeader => true
    case IfNoneMatchAny => stored.Absent?
    case IfMatch(tag) => stored.Present? && stored.Tag() == tag
  }

  /**
   * How the server meets a PUT. `Serve` checks the condition, `Refuse` answers
   * 409 or 412 regardless, `Break` fails with another error after the write
   * took effect or before.
   */
  datatype PutFate = Serve(salt: nat, tagReturned: bool) | Refuse | Break(effective: bool, salt: nat)

  datatype PutReply = Accepted(etag: Option<ETag>) | PreconditionFailed | ServerError

  predicate TakesEffect(header: Header, stored: StoredObject, fate: PutFate) {
    Satisfied(header, stored) && (fate.Serve? || (fate.Break? && fate.effective))
  }

  function ObjectAfterPut(stored: StoredObject, checkpoint: Checkpoint, header: Header, fate: PutFate): StoredObject {
    if TakesEffect(header, stored, fate) then Present(Parsed(checkpoint), fate.salt) else stored
  }

  function ReplyToPut(stored: StoredObject, checkpoint: Checkpoint, header: Header, fate: PutFate): PutReply {
    match fate
    case Serve(salt, tagReturned) =>
      if !Satisfied(header, stored) then PreconditionFailed
      else if tagReturned then Accepted(Some(ETag(Parsed(checkpoint), salt)))
      else Accepted(None)
    case Refuse => PreconditionFailed
    case Break(_, _) => ServerError
  }

  datatype ReadFate = Answer(hasBody: bool, hasTag: bool) | Fail

  datatype ReadResult = ReadResult(checkpoint: Option<Checkpoint>, etag: Option<ETag>)

  const NOTHING_READ := ReadResult(None, None)

  /** None: the read throws. A missing, bodiless or unparseable object reads as nothing, tag included. */
  function ReadCheckpoint(stored: StoredObject, fate: ReadFate): Option<ReadResult> {
    match fate
    case Fail => None
    case Answer(hasBody, hasTag) =>
      if stored.Absent? || !hasBody || stored.body.Unparseable? then Some(NOTHING_READ)
      else Some(ReadResult(Some(stored.body.checkpoint), if hasTag then Some(stored.Tag()) else None))
  }

  // ----- One write call -----

  /** The loop's variables at the start of a round. */
  datatype CasState = CasState(intended: Checkpoint, etag: Option<ETag>, round: nat)

  datatype WriteOutcome =
    | Written(etag: Option<ETag>)
    | ThrewConflict(attempts: nat, page: nat)
    | ThrewStoreError

  datatype CasNext = Again(state: CasState) | Finished(outcome: WriteOutcome)

  /** What the catch block makes of the re-read; None when the re-read throws. */
  function AfterReread(state: CasState, reread: Option<ReadResult>): CasNext {
    if reread.None? then Finished(ThrewStoreError)
    else
      var intended := if reread.value.checkpoint.Some?
                      then MergeCheckpoints(state.intended, reread.value.checkpoint.value)
                      else state.intended;
      if state.round + 1 < MAX_CAS_ROUNDS then Again(CasState(intended, reread.value.etag, state.round + 1))
      else Finished(ThrewConflict(MAX_CAS_ROUNDS, intended.lastCompletedPage))
  }

  /** One round of the script: what others left before the PUT and before the re-read. */
  datatype Turn = Turn(beforePut: Option<StoredObject>, put: PutFate, beforeRead: Option<StoredObject>, read: ReadFate)

  function Interfered(stored: StoredObject, other: Option<StoredObject>): StoredObject {
    if other.Some? then other.value else stored
  }

  /** `lost` counts the rounds given up before the last one, `effective` this call's PUTs that replaced the object. */
  datatype WriteRun = WriteRun(outcome: WriteOutcome, stored: StoredObject, lost: nat, effective: nat)

  function WriteFrom(stored: StoredObject, state: CasState, conditionalWrites: bool, turns: seq<Turn>): WriteRun
    requires state.round < MAX_CAS_ROUNDS && |turns| == MAX_CAS_ROUNDS
    decreases MAX_CAS_ROUNDS - state.round
  {
    var turn := turns[state.round];
    var found := Interfered(stored, turn.beforePut);
    var header := ConditionalHeader(state.etag, conditionalWrites);
    var left := ObjectAfterPut(found, state.intended, header, turn.put);
    var landed := if TakesEffect(header, found, turn.put) then 1 else 0;
    match ReplyToPut(found, state.intended, header, turn.put)
    case Accepted(etag) => WriteRun(Written(etag), left, state.round, landed)
    case ServerError => WriteRun(ThrewStoreError, left, state.round, landed)
    case PreconditionFailed =>
      var reread := Interfered(left, turn.beforeRead);
      match AfterReread(state, ReadCheckpoint(reread, turn.read))
      case Finished(outcome) => WriteRun(outcome, reread, state.round + 1, landed)
      case Again(next) =>
        var rest := WriteFrom(reread, next, conditionalWrites, turns);
        rest.(effective := landed + rest.effective)
  }

  function WriteCheckpoint(stored: StoredObject, checkpoint: Checkpoint, etag: Option<ETag>,
                           conditionalWrites: bool, turns: seq<Turn>): WriteRun
    requires |turns| == MAX_CAS_ROUNDS
  {
    WriteFrom(stored, CasState(checkpoint, etag, 0), conditionalWrites, turns)
  }

  // ----- The loop itself -----

  class CheckpointBucket {
    var stored: StoredObject
    const conditionalWrites: bool

    constructor (stored: StoredObject, conditionalWrites: bool)
      ensures this.stored == stored && this.conditionalWrites == conditionalWrites
    {
      this.stored := stored;
      this.conditionalWrites := conditionalWrites;
    }

    /** Other writers, between two of our requests. */
    method Interfere(other: Option<StoredObject>)
      modifies this
      ensures stored == Interfered(old(stored), other)
    {
      if other.Some? {
        stored := other.value;
      }
    }

    method Put(checkpoint: Checkpoint, etag: Option<ETag>, fate: PutFate) returns (reply: PutReply)
      modifies this
      ensures var header := ConditionalHeader(etag, conditionalWrites);
              && stored == ObjectAfterPut(old(stored), checkpoint, header, fate)
              && reply == ReplyToPut(old(stored), checkpoint, header, fate)
    {
      var header := ConditionalHeader(etag, conditionalWrites);
      reply := ReplyToPut(stored, checkpoint, header, fate);
      if TakesEffect(header, stored, fate) {
        stored := Present(Parsed(checkpoint), fate.salt);
      }
    }

    /**
     * A record comes back only if it is the one stored, and a tag only with a
     * record; anything else reads as nothing.
     */
    method Get(fate: ReadFate) returns (reread: Option<ReadResult>)
      ensures reread == ReadCheckpoint(stored, fate)
      ensures reread.None? <==> fate == Fail
      ensures reread.Some? && reread.value.checkpoint.Some?
              <==> fate.Answer? && fate.hasBody && stored.Present? && stored.body.Parsed?
      ensures reread.Some? && reread.value.checkpoint.Some? ==> stored.body == Parsed(reread.value.checkpoint.value)
      ensures reread.Some? && reread.value.etag.Some? ==>
                reread.value.checkpoint.Some? && reread.value.etag.value == stored.Tag()
    {
      match fate {
        case Fail => return None;
        case Answer(hasBody, hasTag) =>
          if stored.Absent? || !hasBody {
            return Some(NOTHING_READ);
          }
          match stored.body {
            case Unparseable => return Some(NOTHING_READ);
            case Parsed(checkpoint) =>
              var tag := if hasTag then Some(stored.Tag()) else None;
              return Some(ReadResult(Some(checkpoint), tag));
          }
      }
    }

    method Write(checkpoint: Checkpoint, etag: Option<ETag>, turns: seq<Turn>) returns (outcome: WriteOutcome)
      requires |turns| == MAX_CAS_ROUNDS
      modifies this
      ensures var run := WriteCheckpoint(old(stored), checkpoint, etag, conditionalWrites, turns);
              outcome == run.outcome && stored == run.stored
    {
      var intended, tag := checkpoint, etag;
      var round := 0;
      while round < MAX_CAS_ROUNDS
        invariant round < MAX_CAS_ROUNDS
        invariant var run := WriteCheckpoint(old(stored), checkpoint, etag, conditionalWrites, turns);
                  var rest := WriteFrom(stored, CasState(intended, tag, round), conditionalWrites, turns);
                  run.outcome == rest.outcome && run.stored == rest.stored
        decreases MAX_CAS_ROUNDS - round
      {
        Interfere(turns[round].beforePut);
        var reply := Put(intended, tag, turns[round].put);
        match reply {
          case Accepted(newTag) => return Written(newTag);
          case ServerError => return ThrewStoreError;
          case PreconditionFailed =>
        }
        Interfere(turns[round].beforeRead);
        var reread := Get(turns[round].read);
        if reread.None? {
          return ThrewStoreError;
        }
        if reread.value.checkpoint.Some? {
          intended := MergeCheckpoints(intended, reread.value.checkpoint.value);
        }
        tag := reread.value.etag;
        round := round + 1;
        if round == MAX_CAS_ROUNDS {
          return ThrewConflict(MAX_CAS_ROUNDS, intended.lastCompletedPage);
        }
      }
      assert false;
    }
  }

  // ----- What a call guarantees -----

  /** One call's inputs, and what they mean round by round while every earlier PUT is lost. */
  datatype Call = Call(
    start: StoredObject, checkpoint: Checkpoint, etag: Option<ETag>, conditionalWrites: bool, turns: seq<Turn>)
  {
    ghost predicate Valid() {
      |turns| == MAX_CAS_ROUNDS
    }

    function Run(): WriteRun
      requires |turns| == MAX_CAS_ROUNDS
    {
      WriteCheckpoint(start, checkpoint, etag, conditionalWrites, turns)
    }

    /** What round `i` would find in the object: only other writers have touched it. */
    ghost function FoundAt(i: nat): StoredObject
      requires i < |turns|
    {
      Interfered(OthersLeft(i), turns[i].beforePut)
    }

    /** What others have left in the object after the first `i` rounds. */
    ghost function OthersLeft(i: nat): StoredObject
      requires i <= |turns|
    {
      if i == 0 then start
      else Interfered(Interfered(OthersLeft(i - 1), turns[i - 1].beforePut), turns[i - 1].beforeRead)
    }

    ghost function Reread(i: nat): Option<ReadResult>
      requires i < |turns|
    {
      ReadCheckpoint(OthersLeft(i + 1), turns[i].read)
    }

    /** The bodies that the first `k` re-reads returned, in order. */
    ghost function BodiesRead(k: nat): seq<Checkpoint>
      requires k <= |turns|
    {
      if k == 0 then []
      else if Reread(k - 1).Some? && Reread(k - 1).value.checkpoint.Some?
      then BodiesRead(k - 1) + [Reread(k - 1).value.checkpoint.value]
      else BodiesRead(k - 1)
    }

    /** The tag round `k` sends: the caller's at first, then the last re-read's. */
    ghost function TagAt(k: nat): Option<ETag>
      requires k <= |turns|
    {
      if k == 0 then etag
      else if Reread(k - 1).Some? then Reread(k - 1).value.etag else None
    }

    ghost function BodyAt(k: nat): Checkpoint
      requires k <= |turns|
    {
      FoldMerge(checkpoint, BodiesRead(k))
    }

    ghost function HeaderAt(k: nat): Header
      requires k <= |turns|
    {
      ConditionalHeader(TagAt(k), conditionalWrites)
    }

    /** Round `i` loses its PUT and gets an answer to its re-read. */
    ghost predicate LostAt(i: nat)
      requires i < |turns|
    {
      ReplyToPut(FoundAt(i), BodyAt(i), HeaderAt(i), turns[i].put).PreconditionFailed? && Reread(i).Some?
    }
  }

  /** The first `k` rounds are lost, so the call is where `WriteFrom` starts in round `k`. */
  lemma {:induction false} ReachesRound(c: Call, k: nat)
    requires c.Valid() && k < MAX_CAS_ROUNDS
    requires forall i | 0 <= i < k :: c.LostAt(i)
    ensures c.Run() == WriteFrom(c.OthersLeft(k), CasState(c.BodyAt(k), c.TagAt(k), k), c.conditionalWrites, c.turns)
  {
    if k > 0 {
      ReachesRound(c, k - 1);
      assert c.LostAt(k - 1);
      FoldOfBodiesRead(c, k - 1);
    }
  }

  lemma FoldOfBodiesRead(c: Call, k: nat)
    requires k < |c.turns|
    ensures c.BodyAt(k + 1) ==
            if c.Reread(k).Some? && c.Reread(k).value.checkpoint.Some?
            then MergeCheckpoints(c.BodyAt(k), c.Reread(k).value.checkpoint.value)
            else c.BodyAt(k)
  {
    if c.Reread(k).Some? && c.Reread(k).value.checkpoint.Some? {
      var bodies := c.BodiesRead(k + 1);
      assert bodies[..|bodies| - 1] == c.BodiesRead(k);
    }
  }

  /** How a call that reaches round `k` ends. */
  ghost predicate EndsInRound(c: Call, k: nat)
    requires c.Valid() && k < MAX_CAS_ROUNDS
  {
    var run := c.Run();
    match run.outcome
    case Written(_) =>
      && k == run.lost
      && c.turns[k].put.Serve?
      && Satisfied(c.HeaderAt(k), c.FoundAt(k))
      && run.stored == Present(Parsed(c.BodyAt(k)), c.turns[k].put.salt)
      && run.effective == 1
    case ThrewConflict(attempts, page) =>
      && k + 1 == run.lost == attempts == MAX_CAS_ROUNDS
      && c.LostAt(k)
      && page == c.BodyAt(MAX_CAS_ROUNDS).lastCompletedPage
      && run.stored == c.OthersLeft(MAX_CAS_ROUNDS)
      && run.effective == 0
    case ThrewStoreError =>
      if run.lost == k then
        && c.turns[k].put.Break?
        && run.stored == ObjectAfterPut(c.FoundAt(k), c.BodyAt(k), c.HeaderAt(k), c.turns[k].put)
        && run.effective <= 1
      else
        && run.lost == k + 1
        && c.Reread(k).None?
        && run.stored == c.OthersLeft(k + 1)
        && run.effective == 0
  }

  lemma {:induction false} CallEnds(c: Call, k: nat) returns (last: nat)
    requires c.Valid() && k < MAX_CAS_ROUNDS
    requires forall i | 0 <= i < k :: c.LostAt(i)
    ensures k <= last < MAX_CAS_ROUNDS
    ensures forall i | 0 <= i < last :: c.LostAt(i)
    ensures EndsInRound(c, last)
    decreases MAX_CAS_ROUNDS - k
  {
    ReachesRound(c, k);
    FoldOfBodiesRead(c, k);
    last := k;
    if c.LostAt(k) && k + 1 < MAX_CAS_ROUNDS {
      last := CallEnds(c, k + 1);
    }
  }

  /** A call's rounds are lost one after the other until the one it ends in. */
  lemma CallEndsInOneRound(c: Call)
    requires c.Valid()
    ensures exists k | 0 <= k < MAX_CAS_ROUNDS :: EndsInRound(c, k) && forall i | 0 <= i < k :: c.LostAt(i)
  {
    var k := CallEnds(c, 0);
  }

  lemma FoldMergeIsAbove(first: Checkpoint, others: seq<Checkpoint>)
    ensures forall view <- [first] + others :: AtOrAbove(FoldMerge(first, others), view)
  {
    FoldMergeIsJointView(first, others);
    var all := [first] + others;
    var i :| FirstHighest(all, i) && SameOutcome(FoldMerge(first, others), all[i]);
    forall view | view in all
      ensures AtOrAbove(FoldMerge(first, others), view)
    {
      var j :| 0 <= j < |all| && all[j] == view;
      assert AtOrAbove(all[i], all[j]);
    }
  }

  /** The version a successful conditional write replaced is the one its tag was read from. */
  ghost predicate ReplacedVersionLastRead(c: Call, k: nat)
    requires c.Valid() && k < MAX_CAS_ROUNDS
  {
    var replaced := c.FoundAt(k);
    if k == 0 then
      match c.etag
      case None => replaced.Absent?
      case Some(tag) => replaced.Present? && replaced.Tag() == tag
    else
      var reread := c.Reread(k - 1);
      && reread.Some?
      && (reread.value.etag.None? ==> replaced.Absent?)
      && (reread.value.etag.Some? ==>
            && reread.value.checkpoint.Some?
            && replaced.Present?
            && replaced.body == Parsed(reread.value.checkpoint.value)
            && replaced.Tag() == reread.value.etag.value)
  }

  /** A success after `k` lost rounds. */
  lemma WriteSucceeds(c: Call)
    requires c.Valid() && c.Run().outcome.Written?
    ensures var k := c.Run().lost;
            && k < MAX_CAS_ROUNDS
            && (forall i | 0 <= i < k :: c.LostAt(i))
            && c.Run().effective == 1
            && c.turns[k].put.Serve?
            && c.Run().stored == Present(Parsed(FoldMerge(c.checkpoint, c.BodiesRead(k))), c.turns[k].put.salt)
            && (c.conditionalWrites ==> ReplacedVersionLastRead(c, k))
  {
    var k := CallEnds(c, 0);
    if k > 0 {
      assert c.LostAt(k - 1);
    }
  }

  /** What lands is at or above the caller's checkpoint, every body merged in and, once re-read, what it replaced. */
  lemma WriteNeverLosesMergedProgress(c: Call)
    requires c.Valid() && c.Run().outcome.Written?
    ensures var run := c.Run();
            && run.stored.Present? && run.stored.body.Parsed?
            && run.lost < MAX_CAS_ROUNDS
            && (forall view <- [c.checkpoint] + c.BodiesRead(run.lost) :: AtOrAbove(run.stored.body.checkpoint, view))
            && (c.conditionalWrites && run.lost >= 1 && c.FoundAt(run.lost).Present? ==>
                  && c.FoundAt(run.lost).body.Parsed?
                  && AtOrAbove(run.stored.body.checkpoint, c.FoundAt(run.lost).body.checkpoint))
  {
    WriteSucceeds(c);
    var k := c.Run().lost;
    FoldMergeIsAbove(c.checkpoint, c.BodiesRead(k));
    if c.conditionalWrites && k >= 1 && c.FoundAt(k).Present? {
      var bodies := c.BodiesRead(k);
      assert c.LostAt(k - 1);
      assert ReplacedVersionLastRead(c, k);
      assert bodies[|bodies| - 1] == c.Reread(k - 1).value.checkpoint.value;
      assert bodies[|bodies| - 1] in [c.checkpoint] + bodies;
    }
  }

  /** A conflict error means five lost PUTs, and an object that only others have written. */
  lemma ConflictWritesNothing(c: Call)
    requires c.Valid() && c.Run().outcome.ThrewConflict?
    ensures c.Run().lost == c.Run().outcome.attempts == 5
    ensures forall i | 0 <= i < 5 :: c.LostAt(i)
    ensures c.Run().effective == 0 && c.Run().stored == c.OthersLeft(5)
    ensures c.Run().outcome.page == FoldMerge(c.checkpoint, c.BodiesRead(5)).lastCompletedPage
  {
    var k := CallEnds(c, 0);
  }

  /**
   * No call replaces the object twice, and one that reports an error or a conflict
   * may have replaced it once only by a failing PUT.
   */
  lemma AtMostOneEffectivePut(c: Call)
    requires c.Valid()
    ensures c.Run().effective <= 1
    ensures c.Run().effective == 1 && !c.Run().outcome.Written? ==>
              var k := c.Run().lost;
              k < MAX_CAS_ROUNDS && c.turns[k].put.Break? && c.turns[k].put.effective
              && c.Run().stored == Present(Parsed(c.BodyAt(k)), c.turns[k].put.salt)
  {
    var k := CallEnds(c, 0);
    ReachesRound(c, k);
  }

  /** Reading a corrupt object yields no tag, so no conditional write of that reader ever replaces it. */
  lemma CorruptObjectIsNeverReplaced(c: Call)
    requires c.Valid() && c.conditionalWrites && c.etag.None?
    requires c.start.Present? && c.start.body.Unparseable?
    requires forall turn <- c.turns :: turn.beforePut.None? && turn.beforeRead.None?
    ensures c.Run().stored == c.start && c.Run().effective == 0 && !c.Run().outcome.Written?
  {
    var k := CallEnds(c, 0);
    ReachesRound(c, k);
    CorruptObjectStays(c, k);
  }

  /**
   * Over a server that only checks conditions, a corrupt object is overwritten
   * exactly when writes are unconditional.
   */
  lemma CorruptObjectIsReplacedExactlyUnconditionally(c: Call)
    requires c.Valid() && c.etag.None?
    requires c.start.Present? && c.start.body.Unparseable?
    requires forall turn <- c.turns :: turn.beforePut.None? && turn.beforeRead.None? && turn.put.Serve?
    ensures c.Run().outcome.Written? <==> !c.conditionalWrites
    ensures c.Run().outcome.Written? <==> (c.Run().stored.Present? && c.Run().stored.body == Parsed(c.checkpoint))
  {
    if c.conditionalWrites {
      CorruptObjectIsNeverReplaced(c);
    } else {
      ReachesRound(c, 0);
      assert c.turns[0] in c.turns;
    }
  }

  lemma {:induction false} CorruptObjectStays(c: Call, k: nat)
    requires c.Valid() && k < MAX_CAS_ROUNDS && c.conditionalWrites && c.etag.None?
    requires c.start.Present? && c.start.body.Unparseable?
    requires forall turn <- c.turns :: turn.beforePut.None? && turn.beforeRead.None?
    ensures c.OthersLeft(k) == c.FoundAt(k) == c.OthersLeft(k + 1) == c.start
    ensures c.TagAt(k).None?
  {
    assert c.turns[k] in c.turns;
    if k > 0 {
      CorruptObjectStays(c, k - 1);
    }
  }
}
