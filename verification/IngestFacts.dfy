/** What a fan-out downloads, stores and stages, told of the addresses and ids of its candidates. */
module IngestFacts {
  import opened Wrappers
  import opened RawStorage
  import opened Staging
  import opened Payloads
  import opened Ingest
  import opened Schedules

  // ----- What is downloaded -----

  /** The bytes behind the candidate's raw URL or, when it has none, behind its page's. */
  ghost predicate IsServed(content: map<string, Bytes>, c: Candidate, bytes: Bytes) {
    match c.rawUrl
    case Some(url) => url in content && content[url] == bytes
    case None => c.url in content && content[c.url] == bytes
  }

  ghost predicate IsNotServed(content: map<string, Bytes>, c: Candidate) {
    match c.rawUrl
    case Some(url) => url !in content
    case None => c.url !in content
  }

  /** What a task that ended says of the download of its candidate. */
  ghost predicate DownloadTold(page: Page, c: Candidate, raw: RawResult) {
    && raw.candidate == c
    && (raw.Evidence? ==> IsServed(page.content, c, raw.bytes))
    && (IsNotServed(page.content, c) ==> raw.FetchFailed?)
  }

  /** Under any schedule and faults: what a task stored are the bytes served at its own address, or nothing is there. */
  lemma DownloadsAreTold(page: Page, stores: Stores, actions: seq<Action>, i: nat)
    requires Sane(stores) && Possible(page, Start(page, stores), actions) && i < |page.candidates|
    requires Outcome(page, Start(page, stores), actions).tasks[i].Settled?
    ensures DownloadTold(page, page.candidates[i], Outcome(page, Start(page, stores), actions).tasks[i].raw)
  {
    var s := Outcome(page, Start(page, stores), actions);
    IngestIsTruthful(page, Start(page, stores), actions);
    assert TaskTrue(page, s.stores, i, s.tasks[i]);
  }

  /** The bytes are stored, and a staging row has one of the two keys. */
  ghost predicate LandsAs(stores: Stores, c: Candidate, bytes: Bytes) {
    && Has(stores.bucket, bytes)
    && (ObjectTaken(stores.rows, PayloadOf(c, bytes)) || SourceTaken(stores.rows, PayloadOf(c, bytes)))
  }

  /** An ungated page gathered without a failure leaves what is served at each candidate's address. */
  lemma UnfailedPageStoresWhatIsServed(page: Page, stores: Stores, actions: seq<Action>)
    requires Sane(stores) && !page.gated && Completes(page, stores, actions)
    requires Unfailed(Ingested(page, stores, actions))
    ensures forall c <- page.candidates ::
              exists bytes :: IsServed(page.content, c, bytes)
                              && LandsAs(Ingested(page, stores, actions).stores, c, bytes)
  {
    var s := Ingested(page, stores, actions);
    UnfailedPageLands(page, stores, actions);
    forall c | c in page.candidates
      ensures exists bytes :: IsServed(page.content, c, bytes) && LandsAs(s.stores, c, bytes)
    {
      var i :| 0 <= i < |page.candidates| && page.candidates[i] == c;
      assert Landed(page, s.stores, page.candidates[i]);
      assert IsServed(page.content, c, page.content[FetchUrl(c)]);
    }
  }

  /**
   * Whatever the bucket holds: an object of the same key with another size or
   * checksum is a conflict and stays; a PUT that breaks is a failure, though the
   * object may be there.
   */
  lemma StoreTells(bucket: Bucket, bytes: Bytes, head: HeadFate, between: seq<Bytes>, put: RawPutFate)
    ensures var run, key := StoreRawReplay(bucket, bytes, head, between, put), RawKey(Sha256(bytes));
            if head.HeadBreaks? then run == StoreRun(Failed, bucket)
            else if key in bucket then
              var same := |bucket[key].bytes| == |bytes| && bucket[key].sha256 == Sha256(bytes);
              run == StoreRun(if same then Skipped else Conflict, bucket)
            else
              && (run.status == Stored <==> put.PutServed?) && (run.status == Failed <==> put.PutBreaks?)
              && (put.PutServed? || put.effective ==>
                    key in run.bucket && run.bucket[key] == RawObject(bytes, Sha256(bytes)))
              && (put.PutBreaks? && !put.effective ==> run.bucket == WithOthers(bucket, between))
  {
  }

  // ----- What is staged -----

  /** The row is the candidate's, for the bytes served at its address. */
  ghost predicate RowTells(page: Page, c: Candidate, row: Row) {
    exists bytes ::
      && IsServed(page.content, c, bytes)
      && row.status == "pending"
      && row.payload.sourceSystem == "sg-zone"
      && row.payload.sourceReplayId == (match c.externalId
                                        case Some(id) => External(id)
                                        case None => Derived(c.url, c.filename, Sha256(bytes)))
      && row.payload.checksum == Sha256(bytes) && row.payload.objectKey == KeyOf(bytes)
      && row.payload.sizeBytes == |bytes|
      && row.payload.replayTimestamp == ReplayTimestamp(c)
  }

  ghost predicate IsRowOfPage(page: Page, row: Row) {
    exists c <- page.candidates :: RowTells(page, c, row)
  }

  ghost predicate NewRowsTell(page: Page, before: Table, after: Table) {
    && |before| <= |after| && after[..|before|] == before
    && forall k | |before| <= k < |after| :: IsRowOfPage(page, after[k])
  }

  lemma ActionAddsItsRow(page: Page, s: State, a: Action)
    requires Truthful(page, s) && Enabled(page, s, a) && !ByOthers(a)
    ensures NewRowsTell(page, s.stores.rows, Act(page, s, a).stores.rows)
  {
    if a.StageRow? && IsStageable(s.tasks[a.i].raw) {
      var raw, c := s.tasks[a.i].raw, page.candidates[a.i];
      assert TaskTrue(page, s.stores, a.i, s.tasks[a.i]) && c in page.candidates;
      assert IsServed(page.content, c, raw.bytes);
      assert RowTells(page, c, Row(a.fate.id, PayloadOf(c, raw.bytes), "pending"));
    }
  }

  /** Alone, a fan-out adds rows only, and every row it adds is that of one of its candidates. */
  lemma {:induction false} EveryNewRowTells(page: Page, s: State, actions: seq<Action>)
    requires Truthful(page, s) && Possible(page, s, actions) && OwnOnly(actions)
    ensures NewRowsTell(page, s.stores.rows, Outcome(page, s, actions).stores.rows)
    decreases |actions|
  {
    if actions != [] {
      var next := Act(page, s, actions[0]);
      assert actions[0] in actions && forall a <- actions[1..] :: a in actions;
      ActionKeepsTruth(page, s, actions[0]);
      ActionAddsItsRow(page, s, actions[0]);
      EveryNewRowTells(page, next, actions[1..]);
      NewRowsThen(page, s.stores.rows, next.stores.rows, Outcome(page, s, actions).stores.rows);
    }
  }

  lemma NewRowsThen(page: Page, a: Table, b: Table, c: Table)
    requires NewRowsTell(page, a, b) && NewRowsTell(page, b, c)
    ensures NewRowsTell(page, a, c)
  {
    assert c[..|a|] == c[..|b|][..|a|] == b[..|a|];
    forall k | |a| <= k < |c|
      ensures IsRowOfPage(page, c[k])
    {
      assert k < |b| ==> c[..|b|][k] == b[k];
    }
  }

  /** A stage call answers as the repository would for its fate, and leaves the table it would. */
  lemma StageStepAnswers(page: Page, s: State, a: Action)
    requires |s.tasks| == |page.candidates| && Enabled(page, s, a) && a.StageRow?
    ensures var raw, t := s.tasks[a.i].raw, Act(page, s, a);
            && t.tasks[a.i].Settled? && t.tasks[a.i].raw == raw
            && if IsStageable(raw) then
                 var payload := PayloadOf(raw.candidate, raw.bytes);
                 && AnswersFate(s.stores.rows, payload, a.fate, t.tasks[a.i].staging)
                 && t.stores.rows == TableAfterFate(s.stores.rows, payload, a.fate)
               else t.tasks[a.i].staging.NotStageable? && t.stores.rows == s.stores.rows
  {
    var raw := s.tasks[a.i].raw;
    if IsStageable(raw) && a.fate.StageWorks? {
      AnswerMeetsSpec(s.stores.rows, PayloadOf(raw.candidate, raw.bytes), a.fate.id);
    }
  }

  // ----- What is not downloaded -----

  /** A blank id is never trusted, one with a visible character always is. */
  lemma TrustedIds(id: Option<string>)
    ensures id.None? || (forall ch <- id.value :: ch in {' ', '\t', '\n', '\r'}) ==> !IsTrustworthyId(id)
    ensures id.Some? && (exists ch <- id.value :: '!' <= ch <= '~') ==> IsTrustworthyId(id)
  {
    if id.Some? {
      assert forall i | 0 <= i < |id.value| :: id.value[i] in id.value;
      if ch :| ch in id.value && '!' <= ch <= '~' {
        var i :| 0 <= i < |id.value| && id.value[i] == ch;
        assert !IsBlankChar(id.value[i]);
      }
    }
  }

  /** A gated fan-out never downloads a replay whose trusted id is in the table. */
  lemma {:induction false} KnownIsNotDownloaded(page: Page, s: State, actions: seq<Action>, i: nat)
    requires page.gated && Truthful(page, s) && Possible(page, s, actions) && i < |s.tasks|
    requires AlreadyKnown(s.stores.rows, page.candidates[i].externalId)
    requires s.tasks[i].Waiting? || s.tasks[i].SkippedById? || s.tasks[i].Thrown?
    ensures var task := Outcome(page, s, actions).tasks[i];
            task.Waiting? || task.SkippedById? || task.Thrown?
    decreases |actions|
  {
    if actions != [] {
      var next := Act(page, s, actions[0]);
      ActionKeepsTruth(page, s, actions[0]);
      KnownSurvives(s.stores.rows, next.stores.rows, page.candidates[i].externalId);
      KnownIsNotDownloaded(page, next, actions[1..], i);
    }
  }

  /** And it passes over no other: what it skips is trusted and known. */
  lemma SkippedIsKnown(page: Page, stores: Stores, actions: seq<Action>, i: nat)
    requires Sane(stores) && Possible(page, Start(page, stores), actions) && i < |page.candidates|
    requires Outcome(page, Start(page, stores), actions).tasks[i].SkippedById?
    ensures page.gated
    ensures AlreadyKnown(Outcome(page, Start(page, stores), actions).stores.rows, page.candidates[i].externalId)
  {
    var s := Outcome(page, Start(page, stores), actions);
    IngestIsTruthful(page, Start(page, stores), actions);
    assert TaskTrue(page, s.stores, i, s.tasks[i]);
  }

  /** No more tasks than the limit are under way at any time. */
  lemma {:induction false} LimiterHolds(page: Page, s: State, actions: seq<Action>)
    requires |s.tasks| == |page.candidates| && Possible(page, s, actions) && Active(s.tasks) <= page.limit
    ensures Active(Outcome(page, s, actions).tasks) <= page.limit
    decreases |actions|
  {
    if actions != [] {
      var a := actions[0];
      if !ByOthers(a) {
        ActiveAfterUpdate(s.tasks, a.i, Act(page, s, a).tasks[a.i]);
      }
      LimiterHolds(page, Act(page, s, a), actions[1..]);
    }
  }
}
