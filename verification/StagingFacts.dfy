/** What an insert into the staging table does, told of the keys of its rows. */
module StagingFacts {
  import opened Staging

  predicate HasSourceKey(row: Row, payload: Payload) {
    row.payload.sourceSystem == payload.sourceSystem && row.payload.sourceReplayId == payload.sourceReplayId
  }

  predicate HasObjectKey(row: Row, payload: Payload) {
    row.payload.checksum == payload.checksum && row.payload.objectKey == payload.objectKey
  }

  predicate SourceKeyIn(rows: Table, payload: Payload) {
    exists row <- rows :: HasSourceKey(row, payload)
  }

  predicate ObjectKeyIn(rows: Table, payload: Payload) {
    exists row <- rows :: HasObjectKey(row, payload)
  }

  /**
   * It does nothing where a row has the object key, raises where only the source
   * key is taken, and else adds one pending row at the end.
   */
  lemma InsertTells(rows: Table, payload: Payload, id: nat)
    ensures var objectIn, sourceIn := ObjectKeyIn(rows, payload), SourceKeyIn(rows, payload);
            && (ReplyToInsert(rows, payload).DidNothing? <==> objectIn)
            && (ReplyToInsert(rows, payload).UniqueViolation? <==> sourceIn && !objectIn)
            && TableAfterInsert(rows, payload, id)
               == if objectIn || sourceIn then rows else rows + [Row(id, payload, "pending")]
  {
    TakenIsFound(rows, payload);
    if row :| row in rows && HasObjectKey(row, payload) {
      var i :| 0 <= i < |rows| && rows[i] == row;
      assert SameObject(rows[i].payload, payload);
    }
    if row :| row in rows && HasSourceKey(row, payload) {
      var i :| 0 <= i < |rows| && rows[i] == row;
      assert SameSource(rows[i].payload, payload);
    }
    if ObjectTaken(rows, payload) {
      var i :| 0 <= i < |rows| && SameObject(rows[i].payload, payload);
      assert rows[i] in rows && HasObjectKey(rows[i], payload);
    }
    if SourceTaken(rows, payload) {
      var i :| 0 <= i < |rows| && SameSource(rows[i].payload, payload);
      assert rows[i] in rows && HasSourceKey(rows[i], payload);
    }
  }
}
