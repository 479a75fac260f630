/** What a list page and a discovery report say, told of the rows, entries and reads they come from. */
module DiscoveryFacts {
  import opened Wrappers
  import opened Payloads
  import opened Summary
  import opened DiscoveryDedup
  import opened Discovery

  // ----- What the warnings say -----

  /** Absent metadata is the same as metadata that says nothing. */
  ghost predicate SameMetadata(a: Option<Metadata>, b: Option<Metadata>) {
    var nothing := Some(Metadata(None, None, None, None));
    a == b || (a.None? && b == nothing) || (a == nothing && b.None?)
  }

  /** It is about candidate `j`, and tells how many different candidates came before. */
  ghost predicate IsAbout(d: Diagnostic, code: DiagnosticCode, cs: seq<Candidate>, j: int) {
    && 0 <= j < |cs|
    && d == Diagnostic(code, false, None, Some(|set c | c in cs[..j]|), cs[j].externalId, cs[j].page, cs[j].url)
  }

  ghost predicate RepeatsName(cs: seq<Candidate>, j: int) {
    0 <= j < |cs| && exists i | 0 <= i < j :: cs[i].filename == cs[j].filename
  }

  ghost predicate ChangesMetadata(cs: seq<Candidate>, j: int) {
    0 <= j < |cs| && exists i | 0 <= i < j ::
      && cs[i].filename == cs[j].filename && cs[i].externalId == cs[j].externalId
      && !SameMetadata(cs[i].metadata, cs[j].metadata)
  }

  ghost predicate WarnsOf(d: Diagnostic, cs: seq<Candidate>, j: int) {
    || (IsAbout(d, DuplicateFilename, cs, j) && RepeatsName(cs, j))
    || (IsAbout(d, ChangedMetadata, cs, j) && ChangesMetadata(cs, j))
  }

  lemma {:induction false} OutputIsAsManyAsDistinct(cs: seq<Candidate>)
    ensures |FirstOccurrences(cs)| == |set c | c in cs|
  {
    if cs != [] {
      var n := |cs| - 1;
      OutputIsAsManyAsDistinct(cs[..n]);
      assert cs == cs[..n] + [cs[n]];
      var before := set c | c in cs[..n];
      assert (set c | c in cs) == before + {cs[n]};
      if cs[n] in cs[..n] {
        assert before + {cs[n]} == before;
      }
    } else {
      assert (set c | c in cs) == {};
    }
  }

  lemma WarningsForTell(cs: seq<Candidate>, j: nat, d: Diagnostic)
    requires j < |cs|
    ensures d in WarningsFor(cs[..j], cs[j]) <==> WarnsOf(d, cs, j)
  {
    var before, c := cs[..j], cs[j];
    OutputIsAsManyAsDistinct(before);
    assert SameFilenameBefore(before, c) <==> RepeatsName(cs, j) by {
      assert forall i | 0 <= i < j :: before[i] == cs[i];
    }
    assert OtherMetadataBefore(before, c) <==> ChangesMetadata(cs, j) by {
      assert forall i | 0 <= i < j :: before[i] == cs[i];
      assert forall i | 0 <= i < j :: MetadataOf(cs[i]) != MetadataOf(c) <==> !SameMetadata(cs[i].metadata, c.metadata);
    }
  }

  ghost predicate IsWarnedOf(d: Diagnostic, cs: seq<Candidate>, n: nat) {
    exists j | 0 <= j < n :: WarnsOf(d, cs, j)
  }

  lemma {:induction false} WarningsTellUpTo(cs: seq<Candidate>, n: nat, d: Diagnostic)
    requires n <= |cs|
    ensures d in WarningsOf(cs[..n]) <==> IsWarnedOf(d, cs, n)
  {
    if n > 0 {
      WarningsTellUpTo(cs, n - 1, d);
      WarningsForTell(cs, n - 1, d);
      WarnedOfOneMore(cs, n - 1, d);
      MoreWarnings(cs, n - 1, d);
    }
  }

  lemma WarnedOfOneMore(cs: seq<Candidate>, n: nat, d: Diagnostic)
    ensures IsWarnedOf(d, cs, n + 1) <==> IsWarnedOf(d, cs, n) || WarnsOf(d, cs, n)
  {
  }

  lemma MoreWarnings(cs: seq<Candidate>, n: nat, d: Diagnostic)
    requires n < |cs|
    ensures d in WarningsOf(cs[..n + 1]) <==> d in WarningsOf(cs[..n]) || d in WarningsFor(cs[..n], cs[n])
  {
    OneCandidateMore(cs, n);
  }

  /** A candidate is warned of exactly when its name, or its name and id with other metadata, came before. */
  lemma WarningsTell(cs: seq<Candidate>, d: Diagnostic)
    ensures d in WarningsOf(cs) <==> IsWarnedOf(d, cs, |cs|)
  {
    WarningsTellUpTo(cs, |cs|, d);
    assert cs[..|cs|] == cs;
  }

  // ----- What a list page says -----

  /** The gate skips the row. */
  predicate IsSkipped(gated: bool, v: Visit) {
    gated && v.lookup.Answers? && AlreadyKnown(v.lookup.rows, v.row.externalId)
  }

  /** The row has a link, its detail page names a file and where it is, and the candidate says so. */
  ghost predicate Lists(gated: bool, v: Visit, c: Candidate) {
    && v.row.url.Some? && !IsSkipped(gated, v) && v.detail.Names?
    && c.filename == v.detail.filename && c.rawUrl == Some(v.detail.rawUrl)
    && c.url == v.row.url.value && c.externalId == v.row.externalId
    && c.page == Some(v.row.page) && c.metadata == v.row.metadata
  }

  /** Rows of which the candidates are listed, in the page's order. */
  ghost predicate AreRowsOf(gated: bool, visits: seq<Visit>, rows: seq<nat>, candidates: seq<Candidate>) {
    && |rows| == |candidates|
    && (forall k, l | 0 <= k < l < |rows| :: rows[k] < rows[l])
    && (forall k | 0 <= k < |rows| :: rows[k] < |visits| && Lists(gated, visits[rows[k]], candidates[k]))
  }

  lemma RowIsFound(gated: bool, v: Visit, c: Candidate)
    requires !Breaks(OutcomeOf(gated, v))
    ensures OutcomeOf(gated, v) == Found(c) <==> Lists(gated, v, c)
  {
  }

  /** The same rows of a page with one row more in front. */
  function Shifted(rows: seq<nat>): (shifted: seq<nat>)
    ensures |shifted| == |rows| && forall k | 0 <= k < |rows| :: shifted[k] == rows[k] + 1
  {
    if rows == [] then [] else [rows[0] + 1] + Shifted(rows[1..])
  }

  lemma RowsShift(gated: bool, visits: seq<Visit>, rows: seq<nat>, candidates: seq<Candidate>)
    requires visits != [] && AreRowsOf(gated, visits[1..], rows, candidates)
    ensures AreRowsOf(gated, visits, Shifted(rows), candidates)
  {
    forall k | 0 <= k < |rows|
      ensures Shifted(rows)[k] < |visits| && Lists(gated, visits[Shifted(rows)[k]], candidates[k])
    {
      assert visits[Shifted(rows)[k]] == visits[1..][rows[k]];
    }
  }

  lemma RowInFront(gated: bool, visits: seq<Visit>, rows: seq<nat>, candidates: seq<Candidate>, c: Candidate)
    requires visits != [] && AreRowsOf(gated, visits, rows, candidates) && Lists(gated, visits[0], c)
    requires forall row <- rows :: row > 0
    ensures AreRowsOf(gated, visits, [0] + rows, [c] + candidates)
  {
    var all := [0] + rows;
    forall k, l | 0 <= k < l < |all|
      ensures all[k] < all[l]
    {
      assert all[l] == rows[l - 1] && rows[l - 1] in rows;
    }
  }

  lemma {:induction false} FoundRows(gated: bool, visits: seq<Visit>, outcomes: seq<RowOutcome>)
    returns (rows: seq<nat>)
    requires |outcomes| == |visits|
    requires forall i | 0 <= i < |visits| :: outcomes[i] == OutcomeOf(gated, visits[i]) && !Breaks(outcomes[i])
    ensures AreRowsOf(gated, visits, rows, FoundIn(outcomes))
    decreases |visits|
  {
    rows := [];
    if visits != [] {
      var rest := FoundRows(gated, visits[1..], outcomes[1..]);
      RowsShift(gated, visits, rest, FoundIn(outcomes[1..]));
      rows := Shifted(rest);
      if outcomes[0].Found? {
        RowIsFound(gated, visits[0], outcomes[0].candidate);
        RowInFront(gated, visits, rows, FoundIn(outcomes[1..]), outcomes[0].candidate);
        rows := [0] + rows;
      } else {
        assert FoundIn(outcomes) == FoundIn(outcomes[1..]);
      }
    }
  }

  lemma {:induction false} EveryRowIsFound(gated: bool, visits: seq<Visit>, outcomes: seq<RowOutcome>, v: Visit,
                                           c: Candidate)
    requires |outcomes| == |visits| && v in visits && Lists(gated, v, c)
    requires forall i | 0 <= i < |visits| :: outcomes[i] == OutcomeOf(gated, visits[i]) && !Breaks(outcomes[i])
    ensures c in FoundIn(outcomes)
    decreases |visits|
  {
    assert visits == [visits[0]] + visits[1..];
    if v == visits[0] {
      RowIsFound(gated, v, c);
    } else {
      EveryRowIsFound(gated, visits[1..], outcomes[1..], v, c);
    }
  }

  /**
   * A page lists the candidates of its rows, in the rows' order and each once: of a
   * row that has a link and is not skipped, what its detail page names.
   */
  lemma ListedPageTellsRows(gated: bool, visits: seq<Visit>, pageUrl: string) returns (rows: seq<nat>)
    requires DiscoverPage(gated, visits, pageUrl).Listed?
    ensures var listed := DiscoverPage(gated, visits, pageUrl).candidates;
            && AreRowsOf(gated, visits, rows, listed)
            && (forall k, l | 0 <= k < l < |listed| :: listed[k] != listed[l])
            && forall v <- visits, c | Lists(gated, v, c) :: c in listed
  {
    var outcomes := Visited(gated, visits);
    var found := FoundIn(outcomes);
    VisitedIsPrefix(gated, visits);
    var all := FoundRows(gated, visits, outcomes);
    var picks := OutputIsFirstOccurrences(found);
    OutputKeepsEachOnce(found);
    rows := seq(|picks|, k requires 0 <= k < |picks| => all[picks[k]]);
    forall v, c | v in visits && Lists(gated, v, c)
      ensures c in found
    {
      EveryRowIsFound(gated, visits, outcomes, v, c);
    }
  }

  // ----- What it warns of -----

  ghost predicate HasNoLink(v: Visit, pageUrl: string, d: Diagnostic) {
    v.row.url.None? && d == Diagnostic(MalformedRow, false, None, None, None, Some(v.row.page), pageUrl)
  }

  ghost predicate HasNoName(gated: bool, v: Visit, d: Diagnostic) {
    && v.row.url.Some? && !IsSkipped(gated, v) && v.detail.NamesNothing?
    && d == Diagnostic(MissingFilename, false, None, None, v.row.externalId, Some(v.row.page), v.row.url.value)
  }

  ghost predicate IsRowWarning(gated: bool, visits: seq<Visit>, pageUrl: string, d: Diagnostic) {
    exists v <- visits :: HasNoLink(v, pageUrl, d) || HasNoName(gated, v, d)
  }

  lemma {:induction false} RowWarningsTell(gated: bool, visits: seq<Visit>, outcomes: seq<RowOutcome>, pageUrl: string,
                                           d: Diagnostic)
    requires |outcomes| == |visits|
    requires forall i | 0 <= i < |visits| :: outcomes[i] == OutcomeOf(gated, visits[i]) && !Breaks(outcomes[i])
    ensures d in RowWarnings(visits, outcomes, pageUrl) <==> IsRowWarning(gated, visits, pageUrl, d)
    decreases |visits|
  {
    if visits != [] {
      RowWarningsTell(gated, visits[1..], outcomes[1..], pageUrl, d);
      assert visits == [visits[0]] + visits[1..];
      assert d in RowWarning(visits[0], outcomes[0], pageUrl)
             <==> HasNoLink(visits[0], pageUrl, d) || HasNoName(gated, visits[0], d);
    }
  }

  /** A page warns of rows without a link, of rows without a name, and of what its candidates repeat or change. */
  lemma ListedPageWarns(gated: bool, visits: seq<Visit>, pageUrl: string, d: Diagnostic)
    requires DiscoverPage(gated, visits, pageUrl).Listed?
    ensures var found := FoundIn(Visited(gated, visits));
            d in DiscoverPage(gated, visits, pageUrl).diagnostics
            <==> IsRowWarning(gated, visits, pageUrl, d) || IsWarnedOf(d, found, |found|)
  {
    var outcomes := Visited(gated, visits);
    VisitedIsPrefix(gated, visits);
    RowWarningsTell(gated, visits, outcomes, pageUrl, d);
    WarningsTell(FoundIn(outcomes), d);
  }

  /** A fixture's candidates are its well-formed entries, and its malformed ones are told by their index. */
  lemma {:induction false} FixtureTells(entries: seq<Option<Candidate>>, pageUrl: string)
    ensures forall c :: c in FixtureCandidates(entries) <==> Some(c) in entries
    ensures forall d :: d in FixtureWarnings(entries, pageUrl) <==>
              exists i :: 0 <= i < |entries| && entries[i].None?
                          && d == Diagnostic(MalformedRow, false, None, Some(i), None, None, pageUrl)
  {
    if entries != [] {
      var n := |entries| - 1;
      FixtureTells(entries[..n], pageUrl);
      assert entries == entries[..n] + [entries[n]];
    }
  }

  // ----- What a report says -----

  function PagesOf(gated: bool, lists: seq<ListPage>): seq<PageDiscovery> {
    seq(|lists|, i requires 0 <= i < |lists| => DiscoverList(gated, lists[i].read, lists[i].url))
  }

  ghost predicate AllListed(pages: seq<PageDiscovery>, n: nat) {
    n <= |pages| && forall i | 0 <= i < n :: pages[i].Listed?
  }

  ghost function ListedOn(pages: seq<PageDiscovery>, n: nat): seq<Candidate>
    requires AllListed(pages, n)
  {
    if n == 0 then [] else ListedOn(pages, n - 1) + pages[n - 1].candidates
  }

  ghost function WarnedOn(pages: seq<PageDiscovery>, n: nat): seq<Diagnostic>
    requires AllListed(pages, n)
  {
    if n == 0 then [] else WarnedOn(pages, n - 1) + pages[n - 1].diagnostics
  }

  ghost function SkippedOn(pages: seq<PageDiscovery>, n: nat): nat
    requires AllListed(pages, n)
  {
    if n == 0 then 0 else SkippedOn(pages, n - 1) + pages[n - 1].skippedPreDetail
  }

  /** What has been reported once the first `n` pages are listed. */
  ghost predicate Reports(pages: seq<PageDiscovery>, n: nat, progress: Progress) {
    && AllListed(pages, n) && !progress.threw
    && progress.report
       == DiscoveryReport(true, ListedOn(pages, n), WarnedOn(pages, n), SkippedOn(pages, n))
  }

  /** The error that a failing page ends the report with. */
  ghost function LastError(failure: ReadFailure, sourceUrl: string, page: nat): Diagnostic {
    var where := match failure.url
                 case Some(url) => url
                 case None => sourceUrl;
    Diagnostic(failure.code, true, failure.attempts, None, None, Some(page), where)
  }

  /** The pages are read one by one up to the first that is not listed. */
  ghost predicate ReportsUpTo(pages: seq<PageDiscovery>, n: nat, sourceUrl: string, all: Progress) {
    && AllListed(pages, n)
    && if n == |pages| then Reports(pages, n, all)
       else match pages[n]
            case Listed(_, _, _) => false
            case Threw => all.threw
            case SourceFailed(failure) =>
              && !all.threw
              && all.report == DiscoveryReport(false, ListedOn(pages, n),
                                               WarnedOn(pages, n) + [LastError(failure, sourceUrl, n + 1)],
                                               SkippedOn(pages, n))
  }

  lemma PageIsReported(pages: seq<PageDiscovery>, n: nat, before: Progress, requests: nat, sourceUrl: string)
    requires n < |pages| && pages[n].Listed? && Reports(pages, n, before)
    ensures Reports(pages, n + 1, AfterPage(before, pages[n], requests, sourceUrl, n))
  {
  }

  lemma FailureIsReported(pages: seq<PageDiscovery>, n: nat, before: Progress, requests: nat, sourceUrl: string)
    requires n < |pages| && !pages[n].Listed? && Reports(pages, n, before)
    ensures ReportsUpTo(pages, n, sourceUrl, AfterPage(before, pages[n], requests, sourceUrl, n))
    ensures IsOver(AfterPage(before, pages[n], requests, sourceUrl, n))
  {
  }

  lemma {:induction false} DiscoverReportsFrom(before: Progress, gated: bool, lists: seq<ListPage>, sourceUrl: string,
                                               i: nat)
    returns (n: nat)
    requires i <= |lists| && Reports(PagesOf(gated, lists), i, before)
    ensures ReportsUpTo(PagesOf(gated, lists), n, sourceUrl, DiscoverFrom(before, gated, lists[i..], sourceUrl, i))
    decreases |lists| - i
  {
    var pages := PagesOf(gated, lists);
    n := i;
    if i < |lists| {
      var after := DiscoverNext(before, gated, lists, sourceUrl, i);
      var requests := RequestsFor(gated, lists[i].read);
      assert pages[i] == DiscoverList(gated, lists[i].read, lists[i].url);
      if pages[i].Listed? {
        PageIsReported(pages, i, before, requests, sourceUrl);
        n := DiscoverReportsFrom(after, gated, lists, sourceUrl, i + 1);
      } else {
        FailureIsReported(pages, i, before, requests, sourceUrl);
      }
    }
  }

  /**
   * A report has the candidates and warnings of the pages up to the first that
   * fails, in order, and then, where one failed, the error of that read.
   */
  lemma DiscoverReports(gated: bool, lists: seq<ListPage>, sourceUrl: string) returns (n: nat)
    ensures ReportsUpTo(PagesOf(gated, lists), n, sourceUrl, Discover(gated, lists, sourceUrl))
  {
    assert lists[0..] == lists;
    n := DiscoverReportsFrom(NOTHING_YET, gated, lists, sourceUrl, 0);
  }

  lemma PageOnlyWarns(gated: bool, read: ListRead, pageUrl: string)
    requires DiscoverList(gated, read, pageUrl).Listed?
    ensures forall d <- DiscoverList(gated, read, pageUrl).diagnostics :: !d.isError
  {
    forall d | d in DiscoverList(gated, read, pageUrl).diagnostics
      ensures !d.isError
    {
      match read
      case Html(visits) => ListedPageWarns(gated, visits, pageUrl, d);
      case Fixture(entries) =>
        FixtureTells(entries, pageUrl);
        WarningsTell(FixtureCandidates(entries), d);
    }
  }

  lemma {:induction false} PagesOnlyWarn(gated: bool, lists: seq<ListPage>, n: nat)
    requires AllListed(PagesOf(gated, lists), n)
    ensures forall d <- WarnedOn(PagesOf(gated, lists), n) :: !d.isError
    decreases n
  {
    if n > 0 {
      PagesOnlyWarn(gated, lists, n - 1);
      assert PagesOf(gated, lists)[n - 1] == DiscoverList(gated, lists[n - 1].read, lists[n - 1].url);
      PageOnlyWarns(gated, lists[n - 1].read, lists[n - 1].url);
    }
  }

  /** A report that is ok carries no error; one that is not ends with its only one. */
  lemma OkReportOnlyWarns(gated: bool, lists: seq<ListPage>, sourceUrl: string)
    requires !Discover(gated, lists, sourceUrl).threw
    ensures var report := Discover(gated, lists, sourceUrl).report;
            && (report.ok ==> forall d <- report.diagnostics :: !d.isError)
            && (!report.ok ==>
                  var last := |report.diagnostics| - 1;
                  && last >= 0 && report.diagnostics[last].isError
                  && forall d <- report.diagnostics[..last] :: !d.isError)
  {
    var n := DiscoverReports(gated, lists, sourceUrl);
    PagesOnlyWarn(gated, lists, n);
  }
}
