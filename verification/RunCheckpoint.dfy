/** What a run reads from the checkpoint at its start and writes to it as it goes. */
module RunCheckpoint {
  import opened Wrappers
  import opened Checkpoints
  import opened CheckpointStore

  datatype ResumeState = ResumeState(etag: Option<ETag>, pages: PageMap, startPage: nat)

  function ResolveResumeState(read: ReadResult): ResumeState {
    if read.checkpoint.None? then ResumeState(None, map[], 1)
    else if read.checkpoint.value.status == Complete then ResumeState(read.etag, map[], 1)
    else ResumeState(read.etag, read.checkpoint.value.pages, read.checkpoint.value.lastCompletedPage + 1)
  }

  // ----- Totals over the page map -----

  const NO_COUNTS := Counts(0, 0, 0, 0)

  function AddCounts(a: Counts, b: Counts): Counts {
    Counts(a.discovered + b.discovered, a.failed + b.failed, a.staged + b.staged, a.stored + b.stored)
  }

  ghost function SumCounts(pages: PageMap): Counts
    decreases |pages|
  {
    if pages == map[] then NO_COUNTS
    else
      var page :| page in pages;
      AddCounts(SumCounts(pages - {page}), pages[page].counts)
  }

  /** The order in which the entries are visited is immaterial. */
  lemma {:induction false} SumCountsTakesAnyPage(pages: PageMap, page: nat)
    requires page in pages
    ensures SumCounts(pages) == AddCounts(SumCounts(pages - {page}), pages[page].counts)
    decreases |pages|
  {
    var first :| first in pages && SumCounts(pages) == AddCounts(SumCounts(pages - {first}), pages[first].counts);
    if first == page {
    } else {
      SumCountsTakesAnyPage(pages - {first}, page);
      SumCountsTakesAnyPage(pages - {page}, first);
      var rest := pages - {first} - {page};
      assert rest == pages - {page} - {first};
      assert SumCounts(pages - {first}) == AddCounts(SumCounts(rest), pages[page].counts);
      assert SumCounts(pages - {page}) == AddCounts(SumCounts(rest), pages[first].counts);
      assert SumCounts(pages) == AddCounts(AddCounts(SumCounts(rest), pages[page].counts), pages[first].counts);
    }
  }

  lemma SumCountsAddsPage(pages: PageMap, page: nat, entry: PageEntry)
    requires page !in pages
    ensures SumCounts(pages[page := entry]) == AddCounts(SumCounts(pages), entry.counts)
  {
    SumCountsTakesAnyPage(pages[page := entry], page);
    assert pages[page := entry] - {page} == pages;
  }

  method AggregatePageCounts(pages: PageMap) returns (counts: Counts)
    ensures counts == SumCounts(pages)
  {
    counts := NO_COUNTS;
    var left := pages;
    while left != map[]
      invariant left.Keys <= pages.Keys && forall page <- left :: left[page] == pages[page]
      invariant AddCounts(counts, SumCounts(left)) == SumCounts(pages)
      decreases |left|
    {
      var page :| page in left;
      SumCountsTakesAnyPage(left, page);
      counts := AddCounts(counts, left[page].counts);
      left := left - {page};
    }
  }

  // ----- The records a run writes -----

  datatype RunIdentity = RunIdentity(runId: string, slug: string, startedAt: string)

  ghost function BuildCheckpoint(run: RunIdentity, now: string, discoveredLastPage: Option<nat>,
                                 lastCompletedPage: nat, pages: PageMap, status: Status): Checkpoint
  {
    Checkpoint(
      SumCounts(pages),
      run.startedAt,
      if discoveredLastPage.Some? then discoveredLastPage.value else lastCompletedPage,
      lastCompletedPage,
      None,
      pages,
      run.runId,
      run.slug,
      status,
      now)
  }

  ghost function PageCheckpoint(run: RunIdentity, now: string, page: nat, pages: PageMap): Checkpoint {
    BuildCheckpoint(run, now, None, page, pages, Running)
  }

  ghost function FinalCheckpoint(run: RunIdentity, now: string, discoveredLastPage: nat, page: nat,
                                 pages: PageMap): Checkpoint {
    BuildCheckpoint(run, now, Some(discoveredLastPage), page, pages, Complete)
  }

  /** The tag to carry on with: the new one, or the one held when the write threw. */
  function TagAfterWrite(held: Option<ETag>, outcome: WriteOutcome): Option<ETag> {
    if outcome.Written? then outcome.etag else held
  }
}
