/** Discovery: rows, detail reads, the pre-detail gate, and the calls that wait between requests. */
module Discovery {
  import opened Wrappers
  import opened Staging
  import opened Payloads
  import opened Summary
  import opened IngestPage
  import opened DiscoveryDedup

  // ----- Rows -----

  datatype SourceRow = SourceRow(url: Option<string>, externalId: Option<string>, page: nat, metadata: Option<Metadata>)

  datatype ReadFailure = ReadFailure(code: DiagnosticCode, attempts: Option<nat>, url: Option<string>)

  /** What the detail page of a row gives. */
  datatype Detail = Names(filename: string, rawUrl: string) | NamesNothing | DetailFails(failure: ReadFailure)

  datatype Lookup = Answers(rows: Table) | LookupBreaks

  /** One row, with what a read of its detail page and a look at the table would give when the loop comes to it. */
  datatype Visit = Visit(row: SourceRow, detail: Detail, lookup: Lookup)

  datatype RowOutcome =
    | NoLink
    | SkippedRow
    | NoName
    | Found(candidate: Candidate)
    | ReadBroke(failure: ReadFailure)
    | LookupBroke

  function CandidateOf(row: SourceRow, filename: string, rawUrl: string): Candidate
    requires row.url.Some?
  {
    Candidate(filename, row.metadata, row.externalId, Some(row.page), Some(rawUrl), row.url.value)
  }

  /** The pre-detail gate looks only where the caller opted in and the id is trustworthy. */
  function OutcomeOf(gated: bool, v: Visit): RowOutcome {
    if v.row.url.None? then NoLink
    else if gated && IsTrustworthyId(v.row.externalId) && v.lookup.LookupBreaks? then LookupBroke
    else if gated && IsTrustworthyId(v.row.externalId) && AlreadyKnown(v.lookup.rows, v.row.externalId) then SkippedRow
    else match v.detail
         case Names(filename, rawUrl) => Found(CandidateOf(v.row, filename, rawUrl))
         case NamesNothing => NoName
         case DetailFails(failure) => ReadBroke(failure)
  }

  predicate Breaks(outcome: RowOutcome) {
    outcome.ReadBroke? || outcome.LookupBroke?
  }

  /** The rows up to and including the first that breaks the page. */
  function Visited(gated: bool, visits: seq<Visit>): seq<RowOutcome> {
    if visits == [] then []
    else
      var outcome := OutcomeOf(gated, visits[0]);
      [outcome] + if Breaks(outcome) then [] else Visited(gated, visits[1..])
  }

  function FoundIn(outcomes: seq<RowOutcome>): seq<Candidate> {
    if outcomes == [] then []
    else (if outcomes[0].Found? then [outcomes[0].candidate] else []) + FoundIn(outcomes[1..])
  }

  predicate IsSkippedRow(outcome: RowOutcome) {
    outcome.SkippedRow?
  }

  predicate IsNoLink(outcome: RowOutcome) {
    outcome.NoLink?
  }

  predicate IsNoName(outcome: RowOutcome) {
    outcome.NoName?
  }

  /** A detail page was asked for. */
  predicate NeedsRead(outcome: RowOutcome) {
    outcome.NoName? || outcome.Found? || outcome.ReadBroke?
  }

  function RowWarning(visit: Visit, outcome: RowOutcome, pageUrl: string): seq<Diagnostic> {
    match outcome
    case NoLink => [Diagnostic(MalformedRow, false, None, None, None, Some(visit.row.page), pageUrl)]
    case NoName =>
      if visit.row.url.None? then []
      else [Diagnostic(MissingFilename, false, None, None, visit.row.externalId, Some(visit.row.page),
                       visit.row.url.value)]
    case _ => []
  }

  function RowWarnings(visits: seq<Visit>, outcomes: seq<RowOutcome>, pageUrl: string): seq<Diagnostic>
    requires |outcomes| <= |visits|
  {
    if outcomes == [] then []
    else RowWarning(visits[0], outcomes[0], pageUrl) + RowWarnings(visits[1..], outcomes[1..], pageUrl)
  }

  datatype PageDiscovery =
    | Listed(candidates: seq<Candidate>, diagnostics: seq<Diagnostic>, skippedPreDetail: nat)
    | SourceFailed(failure: ReadFailure)
    | Threw

  lemma {:induction false} VisitedIsPrefix(gated: bool, visits: seq<Visit>)
    ensures var outcomes := Visited(gated, visits);
            && |outcomes| <= |visits|
            && (forall i | 0 <= i < |outcomes| :: outcomes[i] == OutcomeOf(gated, visits[i]))
            && (forall i | 0 <= i < |outcomes| - 1 :: !Breaks(outcomes[i]))
            && (|outcomes| < |visits| ==> outcomes != [] && Breaks(outcomes[|outcomes| - 1]))
  {
    if visits != [] && !Breaks(OutcomeOf(gated, visits[0])) {
      VisitedIsPrefix(gated, visits[1..]);
    }
  }

  function DiscoverPage(gated: bool, visits: seq<Visit>, pageUrl: string): PageDiscovery {
    VisitedIsPrefix(gated, visits);
    var outcomes := Visited(gated, visits);
    if outcomes != [] && outcomes[|outcomes| - 1].ReadBroke? then SourceFailed(outcomes[|outcomes| - 1].failure)
    else if outcomes != [] && outcomes[|outcomes| - 1].LookupBroke? then Threw
    else
      var found := FoundIn(outcomes);
      Listed(FirstOccurrences(found), RowWarnings(visits, outcomes, pageUrl) + WarningsOf(found),
             CountIf(outcomes, IsSkippedRow))
  }

  /**
   * Of a page that is listed, each row was skipped, had no link, had no name or
   * was found, never two of these; a skipped row and one without a link cost no
   * request.
   */
  lemma EveryRowIsOneThing(gated: bool, visits: seq<Visit>, pageUrl: string)
    requires DiscoverPage(gated, visits, pageUrl).Listed?
    ensures var outcomes := Visited(gated, visits);
            && |outcomes| == |visits|
            && |visits| == CountIf(outcomes, IsSkippedRow) + CountIf(outcomes, IsNoLink)
                           + CountIf(outcomes, IsNoName) + |FoundIn(outcomes)|
            && CountIf(outcomes, NeedsRead) == CountIf(outcomes, IsNoName) + |FoundIn(outcomes)|
            && CountIf(RowWarnings(visits, outcomes, pageUrl), IsMalformedRow) == CountIf(outcomes, IsNoLink)
            && CountIf(RowWarnings(visits, outcomes, pageUrl), IsMissingFilename) == CountIf(outcomes, IsNoName)
  {
    VisitedIsPrefix(gated, visits);
    var outcomes := Visited(gated, visits);
    OutcomesAddUp(visits, outcomes, pageUrl);
  }

  predicate IsMalformedRow(d: Diagnostic) {
    d.code == MalformedRow
  }

  predicate IsMissingFilename(d: Diagnostic) {
    d.code == MissingFilename
  }

  lemma {:induction false} OutcomesAddUp(visits: seq<Visit>, outcomes: seq<RowOutcome>, pageUrl: string)
    requires |outcomes| <= |visits|
    requires forall i | 0 <= i < |outcomes| :: !Breaks(outcomes[i]) && (outcomes[i].NoName? ==> visits[i].row.url.Some?)
    ensures |outcomes| == CountIf(outcomes, IsSkippedRow) + CountIf(outcomes, IsNoLink)
                          + CountIf(outcomes, IsNoName) + |FoundIn(outcomes)|
    ensures CountIf(outcomes, NeedsRead) == CountIf(outcomes, IsNoName) + |FoundIn(outcomes)|
    ensures CountIf(RowWarnings(visits, outcomes, pageUrl), IsMalformedRow) == CountIf(outcomes, IsNoLink)
    ensures CountIf(RowWarnings(visits, outcomes, pageUrl), IsMissingFilename) == CountIf(outcomes, IsNoName)
    decreases |outcomes|
  {
    if outcomes != [] {
      var first, rest := outcomes[0], outcomes[1..];
      OutcomesAddUp(visits[1..], rest, pageUrl);
      assert outcomes == [first] + rest;
      CountIfPrepends(first, rest, IsSkippedRow);
      CountIfPrepends(first, rest, IsNoLink);
      CountIfPrepends(first, rest, IsNoName);
      CountIfPrepends(first, rest, NeedsRead);
      WarningsAddUp(visits[0], first, RowWarnings(visits[1..], rest, pageUrl), pageUrl);
    }
  }

  lemma WarningsAddUp(visit: Visit, outcome: RowOutcome, rest: seq<Diagnostic>, pageUrl: string)
    requires outcome.NoName? ==> visit.row.url.Some?
    ensures CountIf(RowWarning(visit, outcome, pageUrl) + rest, IsMalformedRow)
            == (if outcome.NoLink? then 1 else 0) + CountIf(rest, IsMalformedRow)
    ensures CountIf(RowWarning(visit, outcome, pageUrl) + rest, IsMissingFilename)
            == (if outcome.NoName? then 1 else 0) + CountIf(rest, IsMissingFilename)
  {
    var warning := RowWarning(visit, outcome, pageUrl);
    if warning == [] {
      assert warning + rest == rest;
    } else {
      CountIfPrepends(warning[0], rest, IsMalformedRow);
      CountIfPrepends(warning[0], rest, IsMissingFilename);
      assert warning == [warning[0]];
    }
  }

  // ----- The discovery call -----

  /** A list page: a fixture body, its candidates already told apart, or rows. */
  datatype ListRead =
    | ListFails(failure: ReadFailure)
    | Fixture(entries: seq<Option<Candidate>>)
    | Html(visits: seq<Visit>)

  datatype ListPage = ListPage(url: string, read: ListRead)

  function FixtureWarnings(entries: seq<Option<Candidate>>, pageUrl: string): seq<Diagnostic> {
    if entries == [] then []
    else
      var n := |entries| - 1;
      FixtureWarnings(entries[..n], pageUrl)
      + if entries[n].None? then [Diagnostic(MalformedRow, false, None, Some(n), None, None, pageUrl)] else []
  }

  function FixtureCandidates(entries: seq<Option<Candidate>>): seq<Candidate> {
    if entries == [] then []
    else
      var n := |entries| - 1;
      FixtureCandidates(entries[..n]) + if entries[n].Some? then [entries[n].value] else []
  }

  function DiscoverList(gated: bool, read: ListRead, pageUrl: string): PageDiscovery {
    match read
    case ListFails(failure) => SourceFailed(failure)
    case Fixture(entries) =>
      Listed(FirstOccurrences(FixtureCandidates(entries)),
             FixtureWarnings(entries, pageUrl) + WarningsOf(FixtureCandidates(entries)), 0)
    case Html(visits) => DiscoverPage(gated, visits, pageUrl)
  }

  /** The list request and the detail requests of one page. */
  function RequestsFor(gated: bool, read: ListRead): nat {
    1 + if read.Html? then CountIf(Visited(gated, read.visits), NeedsRead) else 0
  }

  function FailureDiagnostic(failure: ReadFailure, sourceUrl: string, page: nat): Diagnostic {
    Diagnostic(failure.code, true, failure.attempts, None, None, Some(page),
               if failure.url.Some? then failure.url.value else sourceUrl)
  }

  datatype Progress = Progress(report: DiscoveryReport, threw: bool, requests: nat)

  /** What the page loop makes of its next page, number `n + 1`. */
  function AfterPage(before: Progress, page: PageDiscovery, requests: nat, sourceUrl: string, n: nat): Progress {
    match page
    case Listed(candidates, diagnostics, skipped) =>
      Progress(DiscoveryReport(true, before.report.candidates + candidates, before.report.diagnostics + diagnostics,
                               before.report.skippedPreDetail + skipped), false, before.requests + requests)
    case SourceFailed(failure) =>
      var diagnostics := before.report.diagnostics + [FailureDiagnostic(failure, sourceUrl, n + 1)];
      Progress(before.report.(ok := false, diagnostics := diagnostics), false, before.requests + requests)
    case Threw => before.(threw := true, requests := before.requests + requests)
  }

  const NOTHING_YET := Progress(DiscoveryReport(true, [], [], 0), false, 0)

  predicate IsOver(progress: Progress) {
    progress.threw || !progress.report.ok
  }

  /** The rest of the page loop, `n` pages done; once a page fails, no other is read. */
  function DiscoverFrom(before: Progress, gated: bool, lists: seq<ListPage>, sourceUrl: string, n: nat): Progress
    decreases |lists|
  {
    if lists == [] then before
    else
      var page := DiscoverList(gated, lists[0].read, lists[0].url);
      var after := AfterPage(before, page, RequestsFor(gated, lists[0].read), sourceUrl, n);
      if IsOver(after) then after else DiscoverFrom(after, gated, lists[1..], sourceUrl, n + 1)
  }

  function Discover(gated: bool, lists: seq<ListPage>, sourceUrl: string): Progress {
    DiscoverFrom(NOTHING_YET, gated, lists, sourceUrl, 0)
  }

  lemma DiscoverStep(before: Progress, gated: bool, lists: seq<ListPage>, sourceUrl: string, n: nat)
    returns (after: Progress)
    requires lists != []
    ensures after == AfterPage(before, DiscoverList(gated, lists[0].read, lists[0].url),
                               RequestsFor(gated, lists[0].read), sourceUrl, n)
    ensures DiscoverFrom(before, gated, lists, sourceUrl, n)
            == if IsOver(after) then after else DiscoverFrom(after, gated, lists[1..], sourceUrl, n + 1)
  {
    after := AfterPage(before, DiscoverList(gated, lists[0].read, lists[0].url), RequestsFor(gated, lists[0].read),
                       sourceUrl, n);
  }

  lemma OneListDiscovered(gated: bool, list: ListPage, sourceUrl: string)
    ensures Discover(gated, [list], sourceUrl)
            == AfterPage(NOTHING_YET, DiscoverList(gated, list.read, list.url), RequestsFor(gated, list.read),
                         sourceUrl, 0)
  {
    var after := DiscoverStep(NOTHING_YET, gated, [list], sourceUrl, 0);
    assert [list][1..] == [];
    assert DiscoverFrom(after, gated, [], sourceUrl, 1) == after;
  }

  /** A source client that waits between requests; `slept` lists its waits. */
  class PacedSourceClient {
    const requestDelayMs: int
    var requestCount: nat
    var slept: seq<int>

    constructor (requestDelayMs: int)
      ensures this.requestDelayMs == requestDelayMs && requestCount == 0 && slept == []
    {
      this.requestDelayMs := requestDelayMs;
      requestCount, slept := 0, [];
    }

    /** One wait of the delay between any two requests, none when it is not positive. */
    ghost predicate Paced()
      reads this
    {
      && |slept| == (if requestDelayMs > 0 && requestCount > 0 then requestCount - 1 else 0)
      && forall i | 0 <= i < |slept| :: slept[i] == requestDelayMs
    }

    method FetchText()
      requires Paced()
      modifies this
      ensures Paced() && requestCount == old(requestCount) + 1
    {
      if requestCount > 0 && requestDelayMs > 0 {
        slept := slept + [requestDelayMs];
      }
      requestCount := requestCount + 1;
    }
  }

  /** The variables of the row loop. */
  datatype Scan = Scan(candidates: seq<Candidate>, diagnostics: seq<Diagnostic>, skippedPreDetail: nat, requests: nat)

  function AfterRow(s: Scan, visit: Visit, outcome: RowOutcome, pageUrl: string): Scan {
    Scan(s.candidates + (if outcome.Found? then [outcome.candidate] else []),
         s.diagnostics + RowWarning(visit, outcome, pageUrl),
         s.skippedPreDetail + (if outcome.SkippedRow? then 1 else 0),
         s.requests + if NeedsRead(outcome) then 1 else 0)
  }

  /** `broke` is the outcome that ended the loop early. */
  datatype Scanned = Scanned(scan: Scan, broke: Option<RowOutcome>)

  /** The rest of the row loop. */
  function ScanFrom(s: Scan, gated: bool, visits: seq<Visit>, pageUrl: string): Scanned
    decreases |visits|
  {
    if visits == [] then Scanned(s, None)
    else
      var outcome := OutcomeOf(gated, visits[0]);
      var next := AfterRow(s, visits[0], outcome, pageUrl);
      if Breaks(outcome) then Scanned(next, Some(outcome)) else ScanFrom(next, gated, visits[1..], pageUrl)
  }

  function ScanOf(s: Scan, visits: seq<Visit>, outcomes: seq<RowOutcome>, pageUrl: string): Scan
    requires |outcomes| <= |visits|
    decreases |outcomes|
  {
    if outcomes == [] then s
    else ScanOf(AfterRow(s, visits[0], outcomes[0], pageUrl), visits[1..], outcomes[1..], pageUrl)
  }

  lemma {:induction false} ScanIsVisited(s: Scan, gated: bool, visits: seq<Visit>, pageUrl: string)
    ensures var outcomes := Visited(gated, visits);
            && |outcomes| <= |visits|
            && ScanFrom(s, gated, visits, pageUrl) ==
               Scanned(ScanOf(s, visits, outcomes, pageUrl),
                       if outcomes != [] && Breaks(outcomes[|outcomes| - 1]) then Some(outcomes[|outcomes| - 1])
                       else None)
    decreases |visits|
  {
    if visits != [] {
      var first := OutcomeOf(gated, visits[0]);
      if Breaks(first) {
        assert Visited(gated, visits) == [first];
      } else {
        ScanIsVisited(AfterRow(s, visits[0], first, pageUrl), gated, visits[1..], pageUrl);
        assert Visited(gated, visits)[1..] == Visited(gated, visits[1..]);
      }
    }
  }

  lemma {:induction false} ScanFinds(s: Scan, visits: seq<Visit>, outcomes: seq<RowOutcome>, pageUrl: string)
    requires |outcomes| <= |visits|
    ensures ScanOf(s, visits, outcomes, pageUrl).candidates == s.candidates + FoundIn(outcomes)
    decreases |outcomes|
  {
    if outcomes != [] {
      var next := AfterRow(s, visits[0], outcomes[0], pageUrl);
      ScanFinds(next, visits[1..], outcomes[1..], pageUrl);
      assert next.candidates + FoundIn(outcomes[1..]) == s.candidates + FoundIn(outcomes);
    }
  }

  lemma {:induction false} ScanWarns(s: Scan, visits: seq<Visit>, outcomes: seq<RowOutcome>, pageUrl: string)
    requires |outcomes| <= |visits|
    ensures ScanOf(s, visits, outcomes, pageUrl).diagnostics == s.diagnostics + RowWarnings(visits, outcomes, pageUrl)
    decreases |outcomes|
  {
    if outcomes != [] {
      var next, warning, rest := AfterRow(s, visits[0], outcomes[0], pageUrl),
                                 RowWarning(visits[0], outcomes[0], pageUrl),
                                 RowWarnings(visits[1..], outcomes[1..], pageUrl);
      ScanWarns(next, visits[1..], outcomes[1..], pageUrl);
      assert next.diagnostics == s.diagnostics + warning;
      assert (s.diagnostics + warning) + rest == s.diagnostics + (warning + rest);
    }
  }

  lemma {:induction false} ScanCounts(s: Scan, visits: seq<Visit>, outcomes: seq<RowOutcome>, pageUrl: string)
    requires |outcomes| <= |visits|
    ensures ScanOf(s, visits, outcomes, pageUrl).skippedPreDetail
            == s.skippedPreDetail + CountIf(outcomes, IsSkippedRow)
    ensures ScanOf(s, visits, outcomes, pageUrl).requests == s.requests + CountIf(outcomes, NeedsRead)
    decreases |outcomes|
  {
    if outcomes != [] {
      var first, rest := outcomes[0], outcomes[1..];
      ScanCounts(AfterRow(s, visits[0], first, pageUrl), visits[1..], rest, pageUrl);
      assert outcomes == [first] + rest;
      CountIfPrepends(first, rest, IsSkippedRow);
      CountIfPrepends(first, rest, NeedsRead);
    }
  }

  lemma ScanAddsUp(visits: seq<Visit>, outcomes: seq<RowOutcome>, pageUrl: string)
    requires |outcomes| <= |visits|
    ensures ScanOf(Scan([], [], 0, 0), visits, outcomes, pageUrl)
            == Scan(FoundIn(outcomes), RowWarnings(visits, outcomes, pageUrl), CountIf(outcomes, IsSkippedRow),
                    CountIf(outcomes, NeedsRead))
  {
    ScanFinds(Scan([], [], 0, 0), visits, outcomes, pageUrl);
    ScanWarns(Scan([], [], 0, 0), visits, outcomes, pageUrl);
    ScanCounts(Scan([], [], 0, 0), visits, outcomes, pageUrl);
  }

  /** The pre-detail gate, then the detail read. */
  method VisitRow(client: PacedSourceClient, gated: bool, v: Visit) returns (outcome: RowOutcome)
    requires client.Paced()
    modifies client
    ensures outcome == OutcomeOf(gated, v)
    ensures client.Paced() && client.requestCount == old(client.requestCount) + if NeedsRead(outcome) then 1 else 0
  {
    if v.row.url.None? {
      return NoLink;
    }
    if gated && IsTrustworthyId(v.row.externalId) {
      if v.lookup.LookupBreaks? {
        return LookupBroke;
      }
      if AlreadyKnown(v.lookup.rows, v.row.externalId) {
        return SkippedRow;
      }
    }
    client.FetchText();
    match v.detail {
      case DetailFails(failure) => return ReadBroke(failure);
      case NamesNothing => return NoName;
      case Names(filename, rawUrl) => return Found(CandidateOf(v.row, filename, rawUrl));
    }
  }

  method ScanRows(client: PacedSourceClient, gated: bool, visits: seq<Visit>, pageUrl: string)
    returns (candidates: seq<Candidate>, diagnostics: seq<Diagnostic>, skippedPreDetail: nat, broke: Option<RowOutcome>)
    requires client.Paced()
    modifies client
    ensures client.Paced() && client.requestCount >= old(client.requestCount)
    ensures ScanFrom(Scan([], [], 0, 0), gated, visits, pageUrl)
            == Scanned(Scan(candidates, diagnostics, skippedPreDetail,
                            client.requestCount - old(client.requestCount)), broke)
  {
    candidates, diagnostics, skippedPreDetail := [], [], 0;
    for i := 0 to |visits|
      invariant client.Paced() && client.requestCount >= old(client.requestCount)
      invariant ScanFrom(Scan([], [], 0, 0), gated, visits, pageUrl)
                == ScanFrom(Scan(candidates, diagnostics, skippedPreDetail,
                                 client.requestCount - old(client.requestCount)),
                            gated, visits[i..], pageUrl)
    {
      assert visits[i..][1..] == visits[i + 1..];
      var outcome := VisitRow(client, gated, visits[i]);
      diagnostics := diagnostics + RowWarning(visits[i], outcome, pageUrl);
      if outcome.SkippedRow? {
        skippedPreDetail := skippedPreDetail + 1;
      }
      candidates := candidates + if outcome.Found? then [outcome.candidate] else [];
      if Breaks(outcome) {
        return candidates, diagnostics, skippedPreDetail, Some(outcome);
      }
    }
    broke := None;
  }

  method DiscoverRows(client: PacedSourceClient, gated: bool, visits: seq<Visit>, pageUrl: string)
    returns (page: PageDiscovery)
    requires client.Paced()
    modifies client
    ensures page == DiscoverPage(gated, visits, pageUrl)
    ensures client.Paced()
    ensures client.requestCount == old(client.requestCount) + CountIf(Visited(gated, visits), NeedsRead)
  {
    var candidates, diagnostics, skippedPreDetail, broke := ScanRows(client, gated, visits, pageUrl);
    ScanIsVisited(Scan([], [], 0, 0), gated, visits, pageUrl);
    ScanAddsUp(visits, Visited(gated, visits), pageUrl);
    if broke.Some? {
      return if broke.value.ReadBroke? then SourceFailed(broke.value.failure) else Threw;
    }
    var output, warnings := CollectCandidateDiagnostics(candidates);
    page := Listed(output, diagnostics + warnings, skippedPreDetail);
  }

  method CollectFixture(entries: seq<Option<Candidate>>, pageUrl: string) returns (page: PageDiscovery)
    ensures page == DiscoverList(false, Fixture(entries), pageUrl)
  {
    var candidates, diagnostics := [], [];
    for i := 0 to |entries|
      invariant candidates == FixtureCandidates(entries[..i]) && diagnostics == FixtureWarnings(entries[..i], pageUrl)
    {
      assert entries[..i + 1][..i] == entries[..i];
      if entries[i].None? {
        diagnostics := diagnostics + [Diagnostic(MalformedRow, false, None, Some(i), None, None, pageUrl)];
      } else {
        candidates := candidates + [entries[i].value];
      }
    }
    assert entries[..|entries|] == entries;
    var output, warnings := CollectCandidateDiagnostics(candidates);
    page := Listed(output, diagnostics + warnings, 0);
  }

  method ReadList(client: PacedSourceClient, gated: bool, list: ListPage) returns (page: PageDiscovery)
    requires client.Paced()
    modifies client
    ensures page == DiscoverList(gated, list.read, list.url)
    ensures client.Paced() && client.requestCount == old(client.requestCount) + RequestsFor(gated, list.read)
  {
    client.FetchText();
    match list.read {
      case ListFails(failure) => page := SourceFailed(failure);
      case Fixture(entries) => page := CollectFixture(entries, list.url);
      case Html(visits) => page := DiscoverRows(client, gated, visits, list.url);
    }
  }

  lemma DiscoverNext(before: Progress, gated: bool, lists: seq<ListPage>, sourceUrl: string, i: nat)
    returns (after: Progress)
    requires i < |lists|
    ensures after == AfterPage(before, DiscoverList(gated, lists[i].read, lists[i].url),
                               RequestsFor(gated, lists[i].read), sourceUrl, i)
    ensures DiscoverFrom(before, gated, lists[i..], sourceUrl, i)
            == if IsOver(after) then after else DiscoverFrom(after, gated, lists[i + 1..], sourceUrl, i + 1)
  {
    after := DiscoverStep(before, gated, lists[i..], sourceUrl, i);
    assert lists[i..][1..] == lists[i + 1..];
  }

  /**
   * None: the call rejects. `lists` are the pages up to the caller's bound. With
   * a positive delay the call waits once between every two of its requests.
   */
  method DiscoverReplaysDryRun(client: PacedSourceClient, gated: bool, lists: seq<ListPage>, sourceUrl: string)
    returns (report: Option<DiscoveryReport>)
    requires client.requestCount == 0 && client.slept == []
    modifies client
    ensures var all := Discover(gated, lists, sourceUrl);
            report == (if all.threw then None else Some(all.report)) && client.requestCount == all.requests
    ensures client.Paced()
  {
    var progress := NOTHING_YET;
    for i := 0 to |lists|
      invariant client.Paced() && client.requestCount == progress.requests && !IsOver(progress)
      invariant Discover(gated, lists, sourceUrl) == DiscoverFrom(progress, gated, lists[i..], sourceUrl, i)
    {
      ghost var after := DiscoverNext(progress, gated, lists, sourceUrl, i);
      var page := ReadList(client, gated, lists[i]);
      progress := AfterPage(progress, page, client.requestCount - progress.requests, sourceUrl, i);
      if IsOver(progress) {
        return if progress.threw then None else Some(progress.report);
      }
    }
    report := Some(progress.report);
  }
}
