/** From the rows of the source's list pages to the bucket and the staging table. */
module EndToEnd {
  import opened Wrappers
  import opened RawStorage
  import opened Payloads
  import opened Ingest
  import opened CheckpointStore
  import opened RunProtocol
  import opened Discovery
  import opened DiscoveryFacts
  import opened PageLoop
  import opened RunOnce
  import opened RunFacts
  import opened Summary
  import opened SummaryFacts

  /** The turn's report is what discovery makes of that list page. */
  ghost predicate IsReadOf(turn: PageTurn, list: ListPage) {
    var all := Discover(false, [list], list.url);
    !all.threw && turn.report == all.report
  }

  /** The detail page of the row names a file, and its bytes are stored and have a staging row. */
  ghost predicate RowLanded(v: Visit, content: map<string, Bytes>, stores: Stores) {
    v.row.url.Some? && v.detail.Names? ==>
      && v.detail.rawUrl in content
      && var bytes := content[v.detail.rawUrl];
         && KeyOf(bytes) in stores.bucket && stores.bucket[KeyOf(bytes)] == ObjectOf(bytes)
         && exists k :: 0 <= k < |stores.rows|
                        && stores.rows[k].payload.checksum == Sha256(bytes)
                        && stores.rows[k].payload.objectKey == KeyOf(bytes)
  }

  lemma NamedRowIsListed(list: ListPage, v: Visit) returns (c: Candidate)
    requires list.read.Html? && v in list.read.visits && v.row.url.Some? && v.detail.Names?
    requires var all := Discover(false, [list], list.url); !all.threw && all.report.ok
    ensures c in Discover(false, [list], list.url).report.candidates && c.rawUrl == Some(v.detail.rawUrl)
  {
    OneListDiscovered(false, list, list.url);
    c := Candidate(v.detail.filename, v.row.metadata, v.row.externalId, Some(v.row.page), Some(v.detail.rawUrl),
                   v.row.url.value);
    var rows := ListedPageTellsRows(false, list.read.visits, list.url);
    assert Lists(false, v, c);
  }

  /**
   * A run that exits 0 over list pages of rows: of every row of every page it read
   * whose detail page names a file, the bytes served at the raw URL named there are
   * stored under their checksum, and a staging row has that checksum.
   */
  lemma EveryNamedReplayLands(conf: RunConf, found: CheckpointStore.ReadResult, stores: Stores, stored: StoredObject,
                              turns: seq<PageTurn>, lists: seq<ListPage>, now: string, write: seq<Turn>)
    requires Sane(stores) && |write| == MAX_CAS_ROUNDS && forall turn <- turns :: |turn.write| == MAX_CAS_ROUNDS
    requires |lists| == |turns| && forall t | 0 <= t < |turns| :: IsReadOf(turns[t], lists[t])
    requires Returns(RunLoop(conf, StartLoop(found, stores, stored), turns))
    requires Assembled(conf, RunLoop(conf, StartLoop(found, stores, stored), turns), now, write).exitCode == 0
    ensures var run := RunLoop(conf, StartLoop(found, stores, stored), turns);
            && run.listReads <= |turns|
            && forall t, v | 0 <= t < run.listReads && lists[t].read.Html? && v in lists[t].read.visits ::
                 RowLanded(v, turns[t].content, run.loop.stores)
  {
    var run := RunLoop(conf, StartLoop(found, stores, stored), turns);
    ExitZeroStoresWhatIsServed(conf, found, stores, stored, turns, now, write);
    ExitsZeroExactlyWhenAllLanded(conf, found, stores, stored, turns, now, write);
    forall t, v | 0 <= t < run.listReads && lists[t].read.Html? && v in lists[t].read.visits
      ensures RowLanded(v, turns[t].content, run.loop.stores)
    {
      if v.row.url.Some? && v.detail.Names? {
        assert IsReadOf(turns[t], lists[t]) && turns[t].report.ok;
        var c := NamedRowIsListed(lists[t], v);
        assert TurnLanded(turns[t], run.loop.stores);
      }
    }
  }

  // ----- The status, from the read that failed -----

  lemma ReadsOnlyWarn(turns: seq<PageTurn>, lists: seq<ListPage>)
    requires |lists| == |turns| && forall t | 0 <= t < |turns| :: IsReadOf(turns[t], lists[t])
    ensures OkReadsOnlyWarn(turns)
  {
    forall turn | turn in turns && turn.report.ok
      ensures forall d <- turn.report.diagnostics :: !d.isError
    {
      var t :| 0 <= t < |turns| && turns[t] == turn;
      assert IsReadOf(turns[t], lists[t]);
      OkReportOnlyWarns(false, [lists[t]], lists[t].url);
    }
  }

  /** A failing list page reports the failure of the read that failed, and a later run may get past it or not. */
  lemma FailedReadReports(turn: PageTurn, list: ListPage)
    requires IsReadOf(turn, list) && !turn.report.ok
    ensures var page := DiscoverList(false, list.read, list.url);
            && page.SourceFailed?
            && (MayRecover(turn.report.diagnostics)
                <==> page.failure.code.SourceRateLimited? || page.failure.code.SourceTransient?)
  {
    var n := DiscoverReports(false, [list], list.url);
    assert PagesOf(false, [list])[0] == DiscoverList(false, list.read, list.url);
    assert n == 0 && WarnedOn(PagesOf(false, [list]), 0) == [];
    var errors := turn.report.diagnostics;
    assert |errors| == 1 && errors[0].code == DiscoverList(false, list.read, list.url).failure.code;
    if MayRecover(errors) {
      var i :| IsFirstSourceError(errors, i) && !errors[i].code.SourceUnavailable?;
      assert i == 0;
    } else {
      assert IsSourceError(errors[0]) ==> IsFirstSourceError(errors, 0);
    }
  }

  /**
   * A run over list pages that stops on a failing read is resumable exactly when
   * that read, of the list or of a detail page, was rate limited or transient.
   */
  lemma FailedReadDecidesStatus(conf: RunConf, found: CheckpointStore.ReadResult, stores: Stores,
                                stored: StoredObject, turns: seq<PageTurn>, lists: seq<ListPage>)
    requires forall turn <- turns :: |turn.write| == MAX_CAS_ROUNDS
    requires |lists| == |turns| && forall t | 0 <= t < |turns| :: IsReadOf(turns[t], lists[t])
    requires RunLoop(conf, StartLoop(found, stores, stored), turns).stop == PageFailed
    ensures var run := RunLoop(conf, StartLoop(found, stores, stored), turns);
            && 1 <= run.listReads <= |turns|
            && var list := lists[run.listReads - 1];
               var page := DiscoverList(false, list.read, list.url);
               && page.SourceFailed?
               && (StatusOf(run) == ResumableRun
                   <==> page.failure.code.SourceRateLimited? || page.failure.code.SourceTransient?)
  {
    var s := StartLoop(found, stores, stored);
    ReadsOnlyWarn(turns, lists);
    StatusOfFailedRead(conf, found, stores, stored, turns);
    var last := RunLoop(conf, s, turns).listReads - 1;
    assert IsReadOf(turns[last], lists[last]);
    FailedReadReports(turns[last], lists[last]);
  }
}
