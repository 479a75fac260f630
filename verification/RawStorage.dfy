/** Content-addressed raw storage: HEAD, then PUT when nothing is there. */
module RawStorage {
  import opened Wrappers

  type Bytes = seq<bv8>

  /** SHA-256 taken as injective: a digest is known by the bytes it digests. */
  datatype Digest = Sha256(bytes: Bytes)

  datatype ObjectKey = RawKey(sha256: Digest)

  /** `sha256` is the metadata entry, `bytes` the body. */
  datatype RawObject = RawObject(bytes: Bytes, sha256: Digest)

  type Bucket = map<ObjectKey, RawObject>

  function KeyOf(bytes: Bytes): ObjectKey {
    RawKey(Sha256(bytes))
  }

  function ObjectOf(bytes: Bytes): RawObject {
    RawObject(bytes, Sha256(bytes))
  }

  datatype RawStatus = Stored | Skipped | Conflict | Failed

  datatype HeadFate = HeadAnswers | HeadBreaks

  datatype RawPutFate = PutServed | PutBreaks(effective: bool)

  /** What the HEAD settles; None when the object is missing and the PUT has to follow. */
  function HeadVerdict(bucket: Bucket, bytes: Bytes, head: HeadFate): Option<RawStatus> {
    if head.HeadBreaks? then Some(Failed)
    else if KeyOf(bytes) !in bucket then None
    else
      var found := bucket[KeyOf(bytes)];
      if |found.bytes| == |bytes| && found.sha256 == Sha256(bytes) then Some(Skipped) else Some(Conflict)
  }

  function BucketAfterPut(bucket: Bucket, bytes: Bytes, put: RawPutFate): Bucket {
    if put.PutServed? || put.effective then bucket[KeyOf(bytes) := ObjectOf(bytes)] else bucket
  }

  function StatusAfterPut(put: RawPutFate): RawStatus {
    if put.PutServed? then Stored else Failed
  }

  /** Other runs storing replays of their own. */
  function WithOthers(bucket: Bucket, others: seq<Bytes>): Bucket {
    if others == [] then bucket
    else WithOthers(bucket, others[..|others| - 1])[KeyOf(others[|others| - 1]) := ObjectOf(others[|others| - 1])]
  }

  datatype StoreRun = StoreRun(status: RawStatus, bucket: Bucket)

  function StoreRawReplay(bucket: Bucket, bytes: Bytes, head: HeadFate, between: seq<Bytes>,
                          put: RawPutFate): StoreRun {
    var verdict := HeadVerdict(bucket, bytes, head);
    if verdict.Some? then StoreRun(verdict.value, bucket)
    else StoreRun(StatusAfterPut(put), BucketAfterPut(WithOthers(bucket, between), bytes, put))
  }

  class S3RawReplayStorage {
    var bucket: Bucket

    constructor (bucket: Bucket)
      ensures this.bucket == bucket
    {
      this.bucket := bucket;
    }

    method OthersStore(others: seq<Bytes>)
      modifies this
      ensures bucket == WithOthers(old(bucket), others)
    {
      for i := 0 to |others|
        invariant bucket == WithOthers(old(bucket), others[..i])
      {
        assert others[..i + 1][..i] == others[..i];
        bucket := bucket[KeyOf(others[i]) := ObjectOf(others[i])];
      }
      assert others[..|others|] == others;
    }

    method StoreReplay(bytes: Bytes, head: HeadFate, between: seq<Bytes>, put: RawPutFate) returns (status: RawStatus)
      modifies this
      ensures StoreRun(status, bucket) == StoreRawReplay(old(bucket), bytes, head, between, put)
    {
      if head.HeadBreaks? {
        return Failed;
      }
      if KeyOf(bytes) in bucket {
        var found := bucket[KeyOf(bytes)];
        if |found.bytes| == |bytes| && found.sha256 == Sha256(bytes) {
          return Skipped;
        }
        return Conflict;
      }
      OthersStore(between);
      if put.PutServed? || put.effective {
        bucket := bucket[KeyOf(bytes) := ObjectOf(bytes)];
      }
      status := if put.PutServed? then Stored else Failed;
    }
  }

  // ----- Content addressing -----

  /** Every object sits under the checksum of its own bytes, and says so. */
  ghost predicate WellAddressed(bucket: Bucket) {
    forall key <- bucket :: key == KeyOf(bucket[key].bytes) && bucket[key] == ObjectOf(bucket[key].bytes)
  }

  /** Objects may appear; none disappears or changes. */
  ghost predicate Grows(before: Bucket, after: Bucket) {
    forall key <- before :: key in after && after[key] == before[key]
  }

  predicate Has(bucket: Bucket, bytes: Bytes) {
    KeyOf(bytes) in bucket && bucket[KeyOf(bytes)] == ObjectOf(bytes)
  }

  lemma PutKeepsAddressing(bucket: Bucket, bytes: Bytes)
    requires WellAddressed(bucket)
    ensures WellAddressed(bucket[KeyOf(bytes) := ObjectOf(bytes)])
    ensures Grows(bucket, bucket[KeyOf(bytes) := ObjectOf(bytes)])
  {
    if KeyOf(bytes) in bucket {
      assert KeyOf(bytes) == KeyOf(bucket[KeyOf(bytes)].bytes);
    }
  }

  lemma {:induction false} OthersKeepAddressing(bucket: Bucket, others: seq<Bytes>)
    requires WellAddressed(bucket)
    ensures WellAddressed(WithOthers(bucket, others)) && Grows(bucket, WithOthers(bucket, others))
  {
    if others != [] {
      OthersKeepAddressing(bucket, others[..|others| - 1]);
      PutKeepsAddressing(WithOthers(bucket, others[..|others| - 1]), others[|others| - 1]);
    }
  }

  /**
   * In a bucket that only such stores have filled, a store never conflicts and
   * never replaces an object by other bytes, whatever is stored between its HEAD
   * and its PUT; it succeeds exactly when its own requests do, and then the
   * replay is there.
   */
  lemma StoreIsContentAddressed(bucket: Bucket, bytes: Bytes, head: HeadFate, between: seq<Bytes>, put: RawPutFate)
    requires WellAddressed(bucket)
    ensures var run := StoreRawReplay(bucket, bytes, head, between, put);
            && WellAddressed(run.bucket) && Grows(bucket, run.bucket)
            && run.status != Conflict
            && (run.status == Skipped <==> head == HeadAnswers && KeyOf(bytes) in bucket)
            && (run.status == Stored <==> head == HeadAnswers && KeyOf(bytes) !in bucket && put == PutServed)
            && (run.status == Stored || run.status == Skipped ==> Has(run.bucket, bytes))
  {
    OthersKeepAddressing(bucket, between);
    PutKeepsAddressing(WithOthers(bucket, between), bytes);
    if KeyOf(bytes) in bucket {
      assert KeyOf(bytes) == KeyOf(bucket[KeyOf(bytes)].bytes);
    }
  }
}
