/**
 * The watch cycle's two dedup gates only save work: whatever a gated cycle does,
 * an ungated cycle over the same page can do too, and leave the same table.
 */
module WatchGates {
  import opened RawStorage
  import opened Staging
  import opened Payloads
  import opened Ingest
  import opened Schedules
  import opened DiscoveryDedup
  import opened Discovery

  // ----- What the two discoveries find -----

  /** Lookups that answer do so from the table as it was then: rows have only been added since. */
  ghost predicate LookupsAreOlder(visits: seq<Visit>, rows: Table) {
    forall v <- visits :: v.lookup.Answers? ==> Evolves(v.lookup.rows, rows)
  }

  /** The detail page of a row that the gate skips could have been read. */
  predicate SkippedAreReadable(visits: seq<Visit>) {
    forall v <- visits :: OutcomeOf(true, v).SkippedRow? ==> !v.detail.DetailFails?
  }

  /** What the gates' promise assumes of a list page; of a failing one and of a fixture, nothing. */
  ghost predicate GateWorks(read: ListRead, rows: Table) {
    read.Html? ==> LookupsAreOlder(read.visits, rows) && SkippedAreReadable(read.visits)
  }

  /** The candidates that a list page gives: none when it, or a detail page of it, cannot be read. */
  function CandidatesOf(gated: bool, list: ListPage): seq<Candidate> {
    var page := DiscoverList(gated, list.read, list.url);
    if page.Listed? then page.candidates else []
  }

  lemma {:induction false} FoundInHasThem(outcomes: seq<RowOutcome>, c: Candidate)
    ensures c in FoundIn(outcomes) <==> Found(c) in outcomes
  {
    if outcomes != [] {
      FoundInHasThem(outcomes[1..], c);
      assert outcomes == [outcomes[0]] + outcomes[1..];
    }
  }

  lemma RowBreaksTogether(v: Visit)
    requires !OutcomeOf(true, v).LookupBroke?
    requires OutcomeOf(true, v).SkippedRow? ==> !v.detail.DetailFails?
    ensures Breaks(OutcomeOf(false, v)) <==> Breaks(OutcomeOf(true, v))
    ensures OutcomeOf(true, v).Found? ==> OutcomeOf(false, v) == OutcomeOf(true, v)
    ensures OutcomeOf(false, v).Found? && OutcomeOf(true, v) != OutcomeOf(false, v) ==>
              v.lookup.Answers? && AlreadyKnown(v.lookup.rows, v.row.externalId)
  {
  }

  /** Unless a lookup fails, the two passes visit the same rows and break off at the same one. */
  lemma {:induction false} VisitedTogether(visits: seq<Visit>)
    requires SkippedAreReadable(visits)
    requires forall outcome <- Visited(true, visits) :: !outcome.LookupBroke?
    ensures |Visited(true, visits)| == |Visited(false, visits)| <= |visits|
    ensures forall i | 0 <= i < |Visited(true, visits)| ::
              && Visited(true, visits)[i] == OutcomeOf(true, visits[i])
              && Visited(false, visits)[i] == OutcomeOf(false, visits[i])
              && !OutcomeOf(true, visits[i]).LookupBroke?
              && (Breaks(OutcomeOf(false, visits[i])) <==> Breaks(OutcomeOf(true, visits[i])))
    decreases |visits|
  {
    if visits != [] {
      assert Visited(true, visits)[0] == OutcomeOf(true, visits[0]);
      assert visits[0] in visits && Visited(true, visits)[0] in Visited(true, visits);
      RowBreaksTogether(visits[0]);
      if !Breaks(OutcomeOf(true, visits[0])) {
        assert Visited(true, visits)[1..] == Visited(true, visits[1..]);
        VisitedTogether(visits[1..]);
      }
    }
  }

  lemma NoLookupBroke(visits: seq<Visit>, pageUrl: string)
    requires !DiscoverPage(true, visits, pageUrl).Threw?
    ensures forall outcome <- Visited(true, visits) :: !outcome.LookupBroke?
  {
    var outcomes := Visited(true, visits);
    VisitedIsPrefix(true, visits);
    forall outcome | outcome in outcomes
      ensures !outcome.LookupBroke?
    {
      var i :| 0 <= i < |outcomes| && outcomes[i] == outcome;
      assert i < |outcomes| - 1 ==> !Breaks(outcomes[i]);
    }
  }

  lemma ListedTogether(visits: seq<Visit>, pageUrl: string)
    requires SkippedAreReadable(visits) && !DiscoverPage(true, visits, pageUrl).Threw?
    ensures DiscoverPage(true, visits, pageUrl).Listed? <==> DiscoverPage(false, visits, pageUrl).Listed?
  {
    NoLookupBroke(visits, pageUrl);
    VisitedTogether(visits);
    VisitedIsPrefix(true, visits);
    VisitedIsPrefix(false, visits);
  }

  lemma OutputIsFound(outcomes: seq<RowOutcome>, c: Candidate)
    ensures c in FirstOccurrences(FoundIn(outcomes)) <==> Found(c) in outcomes
  {
    OutputKeepsEachOnce(FoundIn(outcomes));
    FoundInHasThem(outcomes, c);
  }

  lemma RowsDropOnlyKnown(visits: seq<Visit>, rows: Table, c: Candidate)
    requires LookupsAreOlder(visits, rows) && SkippedAreReadable(visits)
    requires forall outcome <- Visited(true, visits) :: !outcome.LookupBroke?
    ensures Found(c) in Visited(true, visits) ==> Found(c) in Visited(false, visits)
    ensures Found(c) in Visited(false, visits) && Found(c) !in Visited(true, visits) ==>
              AlreadyKnown(rows, c.externalId)
  {
    var gated, open := Visited(true, visits), Visited(false, visits);
    VisitedTogether(visits);
    if Found(c) in gated {
      var i :| 0 <= i < |gated| && gated[i] == Found(c);
      assert visits[i] in visits;
      RowBreaksTogether(visits[i]);
      assert open[i] == Found(c);
    } else if Found(c) in open {
      var i :| 0 <= i < |open| && open[i] == Found(c);
      assert visits[i] in visits && gated[i] in gated;
      RowBreaksTogether(visits[i]);
      KnownSurvives(visits[i].lookup.rows, rows, c.externalId);
    }
  }

  /** The gate drops only candidates whose replay is in the table under its own source identity. */
  lemma GateDropsOnlyKnown(list: ListPage, rows: Table, c: Candidate)
    requires GateWorks(list.read, rows) && !DiscoverList(true, list.read, list.url).Threw?
    ensures c in CandidatesOf(true, list) ==> c in CandidatesOf(false, list)
    ensures c in CandidatesOf(false, list) && c !in CandidatesOf(true, list) ==> AlreadyKnown(rows, c.externalId)
  {
    if list.read.Html? {
      var visits := list.read.visits;
      NoLookupBroke(visits, list.url);
      ListedTogether(visits, list.url);
      RowsDropOnlyKnown(visits, rows, c);
      OutputIsFound(Visited(true, visits), c);
      OutputIsFound(Visited(false, visits), c);
    }
  }

  lemma {:induction false} LastVisitedBreaks(gated: bool, visits: seq<Visit>, i: nat)
    requires i < |visits| && Breaks(OutcomeOf(gated, visits[i]))
    ensures var outcomes := Visited(gated, visits);
            outcomes != [] && Breaks(outcomes[|outcomes| - 1])
  {
    if !Breaks(OutcomeOf(gated, visits[0])) {
      LastVisitedBreaks(gated, visits[1..], i - 1);
    }
  }

  /** Without the gate, a row that the gate skips and whose detail page fails breaks the page. */
  lemma OpenPageBreaks(visits: seq<Visit>, pageUrl: string)
    requires !SkippedAreReadable(visits)
    ensures !DiscoverPage(false, visits, pageUrl).Listed?
  {
    var v :| v in visits && OutcomeOf(true, v).SkippedRow? && v.detail.DetailFails?;
    var i :| 0 <= i < |visits| && visits[i] == v;
    LastVisitedBreaks(false, visits, i);
  }

  /**
   * The gated page lists nothing that the ungated one would not, exactly when no
   * row is skipped whose detail page would have failed; where one is, the ungated
   * page lists nothing at all.
   */
  lemma GateListsWithinExactlyWhen(list: ListPage, rows: Table)
    requires list.read.Html? ==> LookupsAreOlder(list.read.visits, rows)
    requires !DiscoverList(true, list.read, list.url).Threw? && CandidatesOf(true, list) != []
    ensures (forall c <- CandidatesOf(true, list) :: c in CandidatesOf(false, list)) <==> GateWorks(list.read, rows)
    ensures !GateWorks(list.read, rows) ==> CandidatesOf(false, list) == []
  {
    if GateWorks(list.read, rows) {
      forall c | c in CandidatesOf(true, list)
        ensures c in CandidatesOf(false, list)
      {
        GateDropsOnlyKnown(list, rows, c);
      }
    } else {
      OpenPageBreaks(list.read.visits, list.url);
      assert CandidatesOf(true, list)[0] in CandidatesOf(true, list);
    }
  }

  predicate Distinct(cs: seq<Candidate>) {
    forall k, l | 0 <= k < l < |cs| :: cs[k] != cs[l]
  }

  lemma CandidatesAreDistinct(gated: bool, list: ListPage)
    ensures Distinct(CandidatesOf(gated, list))
  {
    match list.read
    case Html(visits) => OutputKeepsEachOnce(FoundIn(Visited(gated, visits)));
    case Fixture(entries) => OutputKeepsEachOnce(FixtureCandidates(entries));
    case ListFails(_) =>
  }

  // ----- An ungated task whose replay is known -----

  /** Fetch and store one candidate: afterwards its task is held, and the bucket has at least what it had. */
  lemma FetchAndStore(page: Page, s: State, j: nat, put: RawPutFate) returns (steps: seq<Action>)
    requires |s.tasks| == |page.candidates| && j < |s.tasks| && s.tasks[j].Passed? && WellAddressed(s.stores.bucket)
    requires FetchUrl(page.candidates[j]) in page.content
    ensures Possible(page, s, steps) && OwnOnly(steps)
    ensures var t, bytes := Outcome(page, s, steps), page.content[FetchUrl(page.candidates[j])];
            && t.stores.rows == s.stores.rows
            && WellAddressed(t.stores.bucket) && Grows(s.stores.bucket, t.stores.bucket)
            && Grows(BucketAfterPut(s.stores.bucket, bytes, put), t.stores.bucket)
            && exists raw :: t.tasks == s.tasks[j := Held(raw)]
                 && (IsStageable(raw) <==> put.PutServed?)
                 && (IsStageable(raw) ==> raw.candidate == page.candidates[j] && raw.bytes == bytes)
  {
    var bytes := page.content[FetchUrl(page.candidates[j])];
    PutKeepsAddressing(s.stores.bucket, bytes);
    if KeyOf(bytes) in s.stores.bucket {
      var head := Head(j, true, if put.PutServed? then HeadAnswers else HeadBreaks);
      StoreIsContentAddressed(s.stores.bucket, bytes, HeadAnswers, [], PutServed);
      steps := OneMore(page, s, [], head);
      var raw := Outcome(page, s, steps).tasks[j].raw;
      assert Outcome(page, s, steps).tasks == s.tasks[j := Held(raw)];
    } else {
      steps := OneMore(page, s, [], Head(j, true, HeadAnswers));
      steps := OneMore(page, s, steps, RawPut(j, put));
      var raw := Outcome(page, s, steps).tasks[j].raw;
      assert Outcome(page, s, steps).tasks == s.tasks[j := Held(raw)];
    }
  }

  /** What an ungated task for a known replay leaves. */
  ghost predicate OnlySettles(s: State, t: State, j: nat)
    requires j < |s.tasks|
  {
    && t.stores.rows == s.stores.rows && WellAddressed(t.stores.bucket) && Grows(s.stores.bucket, t.stores.bucket)
    && exists raw, staging :: t.tasks == s.tasks[j := Settled(raw, staging)]
  }

  lemma StageKnown(page: Page, s: State, j: nat, raw: RawResult) returns (step: Action)
    requires |s.tasks| == |page.candidates| && j < |s.tasks| && s.tasks[j] == Held(raw)
    requires IsStageable(raw) ==> AlreadyKnown(s.stores.rows, raw.candidate.externalId)
    ensures Enabled(page, s, step) && !ByOthers(step) && Act(page, s, step).stores == s.stores
    ensures exists staging :: Act(page, s, step).tasks == s.tasks[j := Settled(raw, staging)]
  {
    step := StageRow(j, StageWorks(0));
    if IsStageable(raw) {
      KnownReplayAddsNoRow(s.stores.rows, raw.candidate, raw.bytes, 0);
    }
    assert Act(page, s, step).tasks == s.tasks[j := Settled(raw, Act(page, s, step).tasks[j].staging)];
  }

  /** Run from start to end without the gate, it adds no row. */
  lemma RunKnownTask(page: Page, s: State, j: nat) returns (steps: seq<Action>)
    requires |s.tasks| == |page.candidates| && !page.gated && WellAddressed(s.stores.bucket)
    requires j < |s.tasks| && s.tasks[j].Waiting? && Active(s.tasks) < page.limit
    requires AlreadyKnown(s.stores.rows, page.candidates[j].externalId)
    ensures Possible(page, s, steps) && OwnOnly(steps) && OnlySettles(s, Outcome(page, s, steps), j)
  {
    var c := page.candidates[j];
    steps := OneMore(page, s, [], Gate(j));
    var passed := Outcome(page, s, steps);
    assert passed.tasks == s.tasks[j := Passed];
    if FetchUrl(c) in page.content {
      var more := FetchAndStore(page, passed, j, PutServed);
      TracesCompose(page, s, steps, more);
      steps := steps + more;
    } else {
      steps := OneMore(page, s, steps, Head(j, true, HeadAnswers));
      assert Outcome(page, s, steps).tasks == s.tasks[j := Held(FetchFailed(c))];
    }
    var held := Outcome(page, s, steps);
    var raw :| held.tasks == s.tasks[j := Held(raw)] && (IsStageable(raw) ==> raw.candidate == c);
    var stage := StageKnown(page, held, j, raw);
    steps := OneMore(page, s, steps, stage);
    var staging :| Outcome(page, s, steps).tasks == held.tasks[j := Settled(raw, staging)];
    assert Outcome(page, s, steps).tasks == s.tasks[j := Settled(raw, staging)];
  }

  // ----- The simulation -----

  /** Where in the ungated page each candidate of the gated page is. */
  ghost predicate Places(gated: Page, open: Page, place: seq<nat>) {
    && |place| == |gated.candidates|
    && (forall i | 0 <= i < |place| :: place[i] < |open.candidates| && open.candidates[place[i]] == gated.candidates[i])
    && (forall i, k | 0 <= i < k < |place| :: place[i] != place[k])
  }

  ghost predicate SamePageButGates(gated: Page, open: Page, place: seq<nat>) {
    && Places(gated, open, place)
    && gated.content == open.content && gated.limit == open.limit
    && gated.gated && !open.gated
  }

  /** A gated task and its ungated counterpart, which waits with its HEAD until the other has settled its PUT. */
  ghost predicate Counterparts(page: Page, c: Candidate, gt: Task, ut: Task) {
    match gt
    case Waiting => ut.Waiting?
    case Passed => ut.Passed?
    case NeedsPut(bytes) => ut.Passed? && FetchUrl(c) in page.content && page.content[FetchUrl(c)] == bytes
    case Held(raw) =>
      && ut.Held? && (IsStageable(raw) <==> IsStageable(ut.raw))
      && (IsStageable(raw) ==> raw.candidate == ut.raw.candidate && raw.bytes == ut.raw.bytes)
    case SkippedById => ut.Settled?
    case Settled(_, _) => ut.Settled?
    case Thrown => ut.Thrown?
  }

  ghost predicate Related(gated: Page, open: Page, place: seq<nat>, g: State, u: State)
    requires SamePageButGates(gated, open, place)
  {
    && |g.tasks| == |gated.candidates| && |u.tasks| == |open.candidates|
    && WellAddressed(g.stores.bucket) && WellAddressed(u.stores.bucket)
    && g.stores.rows == u.stores.rows && Grows(g.stores.bucket, u.stores.bucket)
    && Active(g.tasks) == Active(u.tasks)
    && (forall i | 0 <= i < |place| :: Counterparts(gated, gated.candidates[i], g.tasks[i], u.tasks[place[i]]))
    && (forall j | 0 <= j < |u.tasks| && j !in place :: u.tasks[j].Waiting?)
  }

  /** One task of each state moves to a matching pair; the rest stays as it was. */
  lemma RelatedAfterTask(gated: Page, open: Page, place: seq<nat>, g: State, u: State, i: nat, g': State, u': State)
    requires SamePageButGates(gated, open, place) && Related(gated, open, place, g, u) && i < |place|
    requires |g'.tasks| == |g.tasks| && |u'.tasks| == |u.tasks|
    requires g'.tasks == g.tasks[i := g'.tasks[i]] && u'.tasks == u.tasks[place[i] := u'.tasks[place[i]]]
    requires Counterparts(gated, gated.candidates[i], g'.tasks[i], u'.tasks[place[i]])
    requires WellAddressed(g'.stores.bucket) && WellAddressed(u'.stores.bucket)
    requires g'.stores.rows == u'.stores.rows && Grows(g'.stores.bucket, u'.stores.bucket)
    ensures Related(gated, open, place, g', u')
  {
    ActiveAfterUpdate(g.tasks, i, g'.tasks[i]);
    ActiveAfterUpdate(u.tasks, place[i], u'.tasks[place[i]]);
    assert Counterparts(gated, gated.candidates[i], g.tasks[i], u.tasks[place[i]]);
    forall k | 0 <= k < |place|
      ensures Counterparts(gated, gated.candidates[k], g'.tasks[k], u'.tasks[place[k]])
    {
      if k != i {
        assert place[k] != place[i] && Counterparts(gated, gated.candidates[k], g.tasks[k], u.tasks[place[k]]);
      }
    }
    forall j | 0 <= j < |u'.tasks| && j !in place
      ensures u'.tasks[j].Waiting?
    {
      assert place[i] in place && u.tasks[j].Waiting?;
    }
  }

  lemma SimulateGate(gated: Page, open: Page, place: seq<nat>, g: State, u: State, i: nat) returns (steps: seq<Action>)
    requires SamePageButGates(gated, open, place) && Related(gated, open, place, g, u) && Enabled(gated, g, Gate(i))
    ensures OwnOnly(steps)
    ensures Possible(open, u, steps) && Related(gated, open, place, Act(gated, g, Gate(i)), Outcome(open, u, steps))
  {
    var j := place[i];
    assert Counterparts(gated, gated.candidates[i], g.tasks[i], u.tasks[j]);
    var g' := Act(gated, g, Gate(i));
    if g'.tasks[i].SkippedById? {
      steps := RunKnownTask(open, u, j);
      var u' := Outcome(open, u, steps);
      GrowsThen(g.stores.bucket, u.stores.bucket, u'.stores.bucket);
      RelatedAfterTask(gated, open, place, g, u, i, g', u');
    } else {
      steps := OneMore(open, u, [], Gate(j));
      RelatedAfterTask(gated, open, place, g, u, i, g', Outcome(open, u, steps));
    }
  }

  lemma GrowsThen(a: Bucket, b: Bucket, c: Bucket)
    requires Grows(a, b) && Grows(b, c)
    ensures Grows(a, c)
  {
  }

  lemma SimulateHead(gated: Page, open: Page, place: seq<nat>, g: State, u: State, a: Action)
    returns (steps: seq<Action>)
    requires SamePageButGates(gated, open, place) && Related(gated, open, place, g, u)
    requires a.Head? && Enabled(gated, g, a)
    ensures OwnOnly(steps)
    ensures Possible(open, u, steps) && Related(gated, open, place, Act(gated, g, a), Outcome(open, u, steps))
  {
    var i, j := a.i, place[a.i];
    assert Counterparts(gated, gated.candidates[i], g.tasks[i], u.tasks[j]);
    var g' := Act(gated, g, a);
    if g'.tasks[i].NeedsPut? {
      steps := [];
      RelatedAfterTask(gated, open, place, g, u, i, g', u);
    } else {
      steps := OneMore(open, u, [], Head(j, a.fetchWorks, a.head));
      RelatedAfterTask(gated, open, place, g, u, i, g', Outcome(open, u, steps));
    }
  }

  lemma SimulatePut(gated: Page, open: Page, place: seq<nat>, g: State, u: State, a: Action)
    returns (steps: seq<Action>)
    requires SamePageButGates(gated, open, place) && Related(gated, open, place, g, u)
    requires a.RawPut? && Enabled(gated, g, a)
    ensures OwnOnly(steps)
    ensures Possible(open, u, steps) && Related(gated, open, place, Act(gated, g, a), Outcome(open, u, steps))
  {
    var i, j := a.i, place[a.i];
    assert Counterparts(gated, gated.candidates[i], g.tasks[i], u.tasks[j]);
    var g', bytes := Act(gated, g, a), g.tasks[i].bytes;
    steps := FetchAndStore(open, u, j, a.put);
    var u' := Outcome(open, u, steps);
    PutKeepsAddressing(g.stores.bucket, bytes);
    assert Grows(g'.stores.bucket, BucketAfterPut(u.stores.bucket, bytes, a.put));
    GrowsThen(g'.stores.bucket, BucketAfterPut(u.stores.bucket, bytes, a.put), u'.stores.bucket);
    var raw :| u'.tasks == u.tasks[j := Held(raw)]
               && (IsStageable(raw) <==> a.put.PutServed?)
               && (IsStageable(raw) ==> raw.candidate == open.candidates[j] && raw.bytes == bytes);
    RelatedAfterTask(gated, open, place, g, u, i, g', u');
  }

  lemma SimulateStage(gated: Page, open: Page, place: seq<nat>, g: State, u: State, a: Action)
    returns (steps: seq<Action>)
    requires SamePageButGates(gated, open, place) && Related(gated, open, place, g, u)
    requires a.StageRow? && Enabled(gated, g, a)
    ensures OwnOnly(steps)
    ensures Possible(open, u, steps) && Related(gated, open, place, Act(gated, g, a), Outcome(open, u, steps))
  {
    var i, j := a.i, place[a.i];
    assert Counterparts(gated, gated.candidates[i], g.tasks[i], u.tasks[j]);
    steps := OneMore(open, u, [], StageRow(j, a.fate));
    RelatedAfterTask(gated, open, place, g, u, i, Act(gated, g, a), Outcome(open, u, steps));
  }

  /** A rejection, the gate's own lookup included, is one on the other side too. */
  lemma SimulateThrow(gated: Page, open: Page, place: seq<nat>, g: State, u: State, i: nat) returns (steps: seq<Action>)
    requires SamePageButGates(gated, open, place) && Related(gated, open, place, g, u) && Enabled(gated, g, Throw(i))
    ensures OwnOnly(steps)
    ensures Possible(open, u, steps) && Related(gated, open, place, Act(gated, g, Throw(i)), Outcome(open, u, steps))
  {
    var j := place[i];
    assert Counterparts(gated, gated.candidates[i], g.tasks[i], u.tasks[j]);
    steps := [];
    if u.tasks[j].Waiting? {
      steps := OneMore(open, u, steps, Gate(j));
    }
    steps := OneMore(open, u, steps, Throw(j));
    assert Outcome(open, u, steps).tasks == u.tasks[j := Thrown];
    RelatedAfterTask(gated, open, place, g, u, i, Act(gated, g, Throw(i)), Outcome(open, u, steps));
  }

  lemma SimulateOther(gated: Page, open: Page, place: seq<nat>, g: State, u: State, a: Action)
    returns (steps: seq<Action>)
    requires SamePageButGates(gated, open, place) && Related(gated, open, place, g, u) && ByOthers(a)
    ensures steps == [a]
    ensures Possible(open, u, steps) && Related(gated, open, place, Act(gated, g, a), Outcome(open, u, steps))
  {
    steps := OneMore(open, u, [], a);
    if a.OtherReplay? {
      PutKeepsAddressing(g.stores.bucket, a.bytes);
      PutKeepsAddressing(u.stores.bucket, a.bytes);
    }
  }

  lemma SimulateAction(gated: Page, open: Page, place: seq<nat>, g: State, u: State, a: Action)
    returns (steps: seq<Action>)
    requires SamePageButGates(gated, open, place) && Related(gated, open, place, g, u) && Enabled(gated, g, a)
    ensures OthersOf(steps) == OthersOf([a])
    ensures Possible(open, u, steps) && Related(gated, open, place, Act(gated, g, a), Outcome(open, u, steps))
  {
    match a {
      case Gate(i) => steps := SimulateGate(gated, open, place, g, u, i);
      case Head(_, _, _) => steps := SimulateHead(gated, open, place, g, u, a);
      case RawPut(_, _) => steps := SimulatePut(gated, open, place, g, u, a);
      case StageRow(_, _) => steps := SimulateStage(gated, open, place, g, u, a);
      case Throw(i) => steps := SimulateThrow(gated, open, place, g, u, i);
      case _ => steps := SimulateOther(gated, open, place, g, u, a);
    }
    if !ByOthers(a) {
      OthersOfNone(steps);
      OthersOfNone([a]);
    }
  }

  lemma {:induction false} Simulate(gated: Page, open: Page, place: seq<nat>, g: State, u: State, actions: seq<Action>)
    returns (steps: seq<Action>)
    requires SamePageButGates(gated, open, place) && Related(gated, open, place, g, u) && Possible(gated, g, actions)
    ensures OthersOf(steps) == OthersOf(actions)
    ensures Possible(open, u, steps) && Related(gated, open, place, Outcome(gated, g, actions), Outcome(open, u, steps))
    decreases |actions|
  {
    if actions == [] {
      steps := [];
    } else {
      var first := SimulateAction(gated, open, place, g, u, actions[0]);
      var rest := Simulate(gated, open, place, Act(gated, g, actions[0]), Outcome(open, u, first), actions[1..]);
      TracesCompose(open, u, first, rest);
      OthersOfConcat(first, rest);
      OthersOfConcat([actions[0]], actions[1..]);
      assert [actions[0]] + actions[1..] == actions;
      steps := first + rest;
    }
  }

  // ----- The candidates only the ungated cycle has -----

  ghost predicate WaitingIsKnown(page: Page, s: State) {
    && |s.tasks| == |page.candidates|
    && forall j | 0 <= j < |s.tasks| ::
         IsFinished(s.tasks[j]) || (s.tasks[j].Waiting? && AlreadyKnown(s.stores.rows, page.candidates[j].externalId))
  }

  ghost predicate SameRejections(s: State, t: State) {
    |t.tasks| == |s.tasks| && forall k | 0 <= k < |s.tasks| :: t.tasks[k].Thrown? <==> s.tasks[k].Thrown?
  }

  /** From index `j` on, run one after the other what still waits. */
  lemma {:induction false} FinishKnown(page: Page, s: State, j: nat) returns (steps: seq<Action>)
    requires !page.gated && page.limit > 0 && WellAddressed(s.stores.bucket) && WaitingIsKnown(page, s)
    requires j <= |s.tasks| && forall k | 0 <= k < j :: IsFinished(s.tasks[k])
    ensures Possible(page, s, steps) && OwnOnly(steps)
    ensures var t := Outcome(page, s, steps);
            && Over(t) && SameRejections(s, t)
            && t.stores.rows == s.stores.rows && Grows(s.stores.bucket, t.stores.bucket)
    decreases |s.tasks| - j
  {
    steps := [];
    if j < |s.tasks| {
      var t := s;
      if s.tasks[j].Waiting? {
        NoneActive(s.tasks);
        steps := RunKnownTask(page, s, j);
        t := Outcome(page, s, steps);
      }
      var rest := FinishKnown(page, t, j + 1);
      TracesCompose(page, s, steps, rest);
      GrowsThen(s.stores.bucket, t.stores.bucket, Outcome(page, t, rest).stores.bucket);
      steps := steps + rest;
    }
  }

  // ----- The cycle -----

  function CyclePage(gated: bool, list: ListPage, content: map<string, Bytes>, limit: nat): Page {
    Page(CandidatesOf(gated, list), content, gated, limit)
  }

  /** The two pages of a cycle: what only the ungated one lists is in the table. */
  ghost predicate PairedPages(gated: Page, open: Page, rows: Table) {
    && gated.content == open.content && gated.limit == open.limit && gated.gated && !open.gated
    && Distinct(gated.candidates) && Distinct(open.candidates)
    && (forall c <- gated.candidates :: c in open.candidates)
    && (forall c <- open.candidates :: c in gated.candidates || AlreadyKnown(rows, c.externalId))
  }

  lemma CyclePagesArePaired(list: ListPage, rows: Table, content: map<string, Bytes>, limit: nat)
    requires GateWorks(list.read, rows) && !DiscoverList(true, list.read, list.url).Threw?
    ensures PairedPages(CyclePage(true, list, content, limit), CyclePage(false, list, content, limit), rows)
  {
    CandidatesAreDistinct(true, list);
    CandidatesAreDistinct(false, list);
    forall c: Candidate {
      GateDropsOnlyKnown(list, rows, c);
    }
  }

  lemma FindPlaces(gated: Page, open: Page, rows: Table) returns (place: seq<nat>)
    requires PairedPages(gated, open, rows)
    ensures SamePageButGates(gated, open, place)
  {
    place := [];
    while |place| < |gated.candidates|
      invariant |place| <= |gated.candidates|
      invariant forall i | 0 <= i < |place| ::
                  place[i] < |open.candidates| && open.candidates[place[i]] == gated.candidates[i]
    {
      var c := gated.candidates[|place|];
      assert c in gated.candidates;
      var j :| 0 <= j < |open.candidates| && open.candidates[j] == c;
      place := place + [j];
    }
  }

  /** The same table, and on the ungated side at least the same objects. */
  ghost predicate Matching(g: Stores, u: Stores) {
    Sane(g) && Sane(u) && g.rows == u.rows && Grows(g.bucket, u.bucket)
  }

  lemma StartsRelated(gated: Page, open: Page, place: seq<nat>, g: Stores, u: Stores)
    requires SamePageButGates(gated, open, place) && Matching(g, u)
    ensures Related(gated, open, place, Start(gated, g), Start(open, u))
  {
    NoneActive(Start(gated, g).tasks);
    NoneActive(Start(open, u).tasks);
  }

  lemma NotPlacedIsNotGated(gated: Page, open: Page, place: seq<nat>, j: nat)
    requires Places(gated, open, place) && j < |open.candidates| && j !in place
    requires forall k, l | 0 <= k < l < |open.candidates| :: open.candidates[k] != open.candidates[l]
    ensures open.candidates[j] !in gated.candidates
  {
    forall i | 0 <= i < |gated.candidates|
      ensures gated.candidates[i] != open.candidates[j]
    {
      assert place[i] in place;
    }
  }

  lemma LeftoversAreKnown(gated: Page, open: Page, place: seq<nat>, g: State, u: State, rows: Table)
    requires PairedPages(gated, open, rows) && SamePageButGates(gated, open, place)
    requires Related(gated, open, place, g, u) && Over(g) && Evolves(rows, u.stores.rows)
    ensures WaitingIsKnown(open, u)
  {
    forall j | 0 <= j < |u.tasks|
      ensures IsFinished(u.tasks[j])
              || (u.tasks[j].Waiting? && AlreadyKnown(u.stores.rows, open.candidates[j].externalId))
    {
      if j in place {
        var i :| 0 <= i < |place| && place[i] == j;
        assert IsFinished(g.tasks[i]) && Counterparts(gated, gated.candidates[i], g.tasks[i], u.tasks[place[i]]);
      } else {
        NotPlacedIsNotGated(gated, open, place, j);
        assert open.candidates[j] in open.candidates;
        KnownSurvives(rows, u.stores.rows, open.candidates[j].externalId);
      }
    }
  }

  /** Any schedule of the gated fan-out has an ungated one that matches it so far. */
  lemma MatchSoFar(gated: Page, open: Page, g: Stores, u: Stores, actions: seq<Action>)
    returns (place: seq<nat>, steps: seq<Action>)
    requires Matching(g, u) && PairedPages(gated, open, g.rows) && Possible(gated, Start(gated, g), actions)
    ensures SamePageButGates(gated, open, place) && Possible(open, Start(open, u), steps)
    ensures OthersOf(steps) == OthersOf(actions)
    ensures var there, here := Outcome(gated, Start(gated, g), actions), Outcome(open, Start(open, u), steps);
            && Related(gated, open, place, there, here)
            && Matching(there.stores, here.stores) && Evolves(g.rows, there.stores.rows)
  {
    place := FindPlaces(gated, open, g.rows);
    StartsRelated(gated, open, place, g, u);
    steps := Simulate(gated, open, place, Start(gated, g), Start(open, u), actions);
    IngestIsTruthful(gated, Start(gated, g), actions);
    IngestIsTruthful(open, Start(open, u), steps);
  }

  /** A task is rejected on the one side exactly when one is on the other. */
  lemma GatheredTogether(gated: Page, open: Page, place: seq<nat>, g: State, u: State, t: State)
    requires SamePageButGates(gated, open, place) && Related(gated, open, place, g, u) && Over(g)
    requires Over(t) && SameRejections(u, t)
    ensures Gathered(g) <==> Gathered(t)
  {
    if !Gathered(g) {
      var i :| 0 <= i < |g.tasks| && !IsDone(g.tasks[i]);
      assert Counterparts(gated, gated.candidates[i], g.tasks[i], u.tasks[place[i]]);
      assert t.tasks[place[i]].Thrown?;
    }
    if !Gathered(t) {
      var j :| 0 <= j < |t.tasks| && !IsDone(t.tasks[j]);
      assert u.tasks[j].Thrown?;
      var i :| 0 <= i < |place| && place[i] == j;
      assert Counterparts(gated, gated.candidates[i], g.tasks[i], u.tasks[place[i]]);
    }
  }

  /** A gated fan-out that settles, rejections included, has an ungated one that does and matches it. */
  lemma MatchSettled(gated: Page, open: Page, g: Stores, u: Stores, actions: seq<Action>) returns (steps: seq<Action>)
    requires gated.limit > 0 && Matching(g, u) && PairedPages(gated, open, g.rows) && Settles(gated, g, actions)
    ensures Settles(open, u, steps) && OthersOf(steps) == OthersOf(actions)
    ensures Completes(open, u, steps) <==> Completes(gated, g, actions)
    ensures Matching(StoresOnceOver(gated, g, actions), StoresOnceOver(open, u, steps))
  {
    var place, first := MatchSoFar(gated, open, g, u, actions);
    var there, here := Outcome(gated, Start(gated, g), actions), Outcome(open, Start(open, u), first);
    LeftoversAreKnown(gated, open, place, there, here, g.rows);
    var rest := FinishKnown(open, here, 0);
    TracesCompose(open, Start(open, u), first, rest);
    OthersOfConcat(first, rest);
    OthersOfNone(rest);
    steps := first + rest;
    IngestIsTruthful(open, Start(open, u), steps);
    GrowsThen(there.stores.bucket, here.stores.bucket, Outcome(open, here, rest).stores.bucket);
    GatheredTogether(gated, open, place, there, here, Outcome(open, here, rest));
  }

  /**
   * Every schedule of a gated cycle, with failing requests and rejected tasks, has
   * an ungated schedule of the same cycle, with the same writes by other runs, in
   * which every task is over too, and which leaves the same staging table and every
   * object the gated one left: nothing skipped could have made a row.
   */
  lemma GatesPreserveTheTable(list: ListPage, content: map<string, Bytes>, limit: nat, g: Stores, u: Stores,
                              actions: seq<Action>)
    returns (steps: seq<Action>)
    requires limit > 0 && Matching(g, u) && GateWorks(list.read, g.rows)
    requires !DiscoverList(true, list.read, list.url).Threw?
    requires Settles(CyclePage(true, list, content, limit), g, actions)
    ensures Settles(CyclePage(false, list, content, limit), u, steps) && OthersOf(steps) == OthersOf(actions)
    ensures Completes(CyclePage(false, list, content, limit), u, steps)
            <==> Completes(CyclePage(true, list, content, limit), g, actions)
    ensures Matching(StoresOnceOver(CyclePage(true, list, content, limit), g, actions),
                     StoresOnceOver(CyclePage(false, list, content, limit), u, steps))
  {
    CyclePagesArePaired(list, g.rows, content, limit);
    steps := MatchSettled(CyclePage(true, list, content, limit), CyclePage(false, list, content, limit), g, u,
                          actions);
  }

  // ----- When the detail page of a skipped row fails -----

  /** Storing and staging the candidate would add no row. */
  ghost predicate AddsNoRow(content: map<string, Bytes>, rows: Table, c: Candidate) {
    FetchUrl(c) in content ==>
      var payload := PayloadOf(c, content[FetchUrl(c)]);
      ObjectTaken(rows, payload) || SourceTaken(rows, payload)
  }

  ghost predicate NoneAddsRow(page: Page, rows: Table) {
    forall c <- page.candidates :: AddsNoRow(page.content, rows, c)
  }

  lemma NoneAddsRowLater(page: Page, before: Table, after: Table)
    requires NoneAddsRow(page, before) && Evolves(before, after)
    ensures NoneAddsRow(page, after)
  {
    forall c | c in page.candidates && FetchUrl(c) in page.content
      ensures AddsNoRow(page.content, after, c)
    {
      assert AddsNoRow(page.content, before, c);
      TakenSurvives(before, after, PayloadOf(c, page.content[FetchUrl(c)]));
    }
  }

  lemma OwnActionAddsNoRow(page: Page, s: State, a: Action)
    requires Truthful(page, s) && NoneAddsRow(page, s.stores.rows) && Enabled(page, s, a) && !ByOthers(a)
    ensures Act(page, s, a).stores.rows == s.stores.rows
  {
    if a.StageRow? && IsStageable(s.tasks[a.i].raw) {
      var raw := s.tasks[a.i].raw;
      assert TaskTrue(page, s.stores, a.i, s.tasks[a.i]) && page.candidates[a.i] in page.candidates;
      assert AddsNoRow(page.content, s.stores.rows, raw.candidate);
      TakenIsFound(s.stores.rows, PayloadOf(raw.candidate, raw.bytes));
    }
  }

  /** Where no candidate can add a row, the other runs alone leave the table that the fan-out leaves. */
  lemma {:induction false} OthersAloneMatch(page: Page, s: State, empty: Page, t: State, actions: seq<Action>)
    requires Truthful(page, s) && NoneAddsRow(page, s.stores.rows) && Possible(page, s, actions)
    requires empty.candidates == [] && t.tasks == [] && t.stores.rows == s.stores.rows
    ensures Possible(empty, t, OthersOf(actions))
    ensures Outcome(empty, t, OthersOf(actions)).stores.rows == Outcome(page, s, actions).stores.rows
    decreases |actions|
  {
    if actions != [] {
      var a := actions[0];
      ActionKeepsTruth(page, s, a);
      NoneAddsRowLater(page, s.stores.rows, Act(page, s, a).stores.rows);
      if ByOthers(a) {
        OthersAloneMatch(page, Act(page, s, a), empty, Act(empty, t, a), actions[1..]);
        TraceThen(empty, t, a, OthersOf(actions[1..]));
        assert OthersOf(actions) == [a] + OthersOf(actions[1..]);
      } else {
        OwnActionAddsNoRow(page, s, a);
        assert OthersOf(actions) == OthersOf(actions[1..]);
        OthersAloneMatch(page, Act(page, s, a), empty, t, actions[1..]);
      }
    }
  }

  /** From index `j` on, every task that waits is rejected by its gate's lookup. */
  lemma {:induction false} RejectFrom(page: Page, s: State, j: nat) returns (steps: seq<Action>)
    requires page.gated && page.limit > 0 && |s.tasks| == |page.candidates| && j <= |s.tasks|
    requires forall k | 0 <= k < |s.tasks| :: IsFinished(s.tasks[k]) || (k >= j && s.tasks[k].Waiting?)
    ensures Possible(page, s, steps) && OwnOnly(steps)
    ensures Over(Outcome(page, s, steps)) && Outcome(page, s, steps).stores == s.stores
    decreases |s.tasks| - j
  {
    steps := [];
    if j < |s.tasks| {
      if s.tasks[j].Waiting? {
        NoneActive(s.tasks);
        steps := OneMore(page, s, steps, Throw(j));
      }
      var rest := RejectFrom(page, Outcome(page, s, steps), j + 1);
      TracesCompose(page, s, steps, rest);
      steps := steps + rest;
    }
  }

  /** A candidate that can add a row does so in some schedule of the gated fan-out. */
  lemma SomeScheduleAddsRow(page: Page, stores: Stores, j: nat) returns (steps: seq<Action>)
    requires page.gated && page.limit > 0 && Sane(stores) && j < |page.candidates|
    requires !AddsNoRow(page.content, stores.rows, page.candidates[j])
    ensures Settles(page, stores, steps) && OwnOnly(steps)
    ensures StoresOnceOver(page, stores, steps).rows != stores.rows
  {
    var s, c := Start(page, stores), page.candidates[j];
    if AlreadyKnown(stores.rows, c.externalId) {
      KnownIsTaken(stores.rows, c, page.content[FetchUrl(c)]);
    }
    NoneActive(s.tasks);
    steps := OneMore(page, s, [], Gate(j));
    var passed := Outcome(page, s, steps);
    var more := FetchAndStore(page, passed, j, PutServed);
    TracesCompose(page, s, steps, more);
    steps := steps + more;
    var held := Outcome(page, s, steps);
    var raw :| held.tasks == passed.tasks[j := Held(raw)] && IsStageable(raw)
               && raw.candidate == c && raw.bytes == page.content[FetchUrl(c)];
    steps := OneMore(page, s, steps, StageRow(j, StageWorks(0)));
    var settled := Outcome(page, s, steps);
    TakenIsFound(stores.rows, PayloadOf(c, raw.bytes));
    assert |settled.stores.rows| == |stores.rows| + 1;
    var rest := RejectFrom(page, settled, 0);
    TracesCompose(page, s, steps, rest);
    steps := steps + rest;
  }

  lemma KnownIsTaken(rows: Table, c: Candidate, bytes: Bytes)
    requires AlreadyKnown(rows, c.externalId)
    ensures SourceTaken(rows, PayloadOf(c, bytes))
  {
    var i :| 0 <= i < |rows| && rows[i].payload.sourceSystem == DEFAULT_SOURCE_SYSTEM
             && rows[i].payload.sourceReplayId == External(c.externalId.value);
    assert SameSource(rows[i].payload, PayloadOf(c, bytes));
  }

  /** Some ungated schedule, with the same writes by other runs, leaves the table that the gated one leaves. */
  ghost predicate TableIsMatched(gated: Page, open: Page, stores: Stores, actions: seq<Action>)
    requires Settles(gated, stores, actions)
  {
    exists steps ::
      && Settles(open, stores, steps) && OthersOf(steps) == OthersOf(actions)
      && StoresOnceOver(open, stores, steps).rows == StoresOnceOver(gated, stores, actions).rows
  }

  /**
   * The gates leave the table alone in every schedule, exactly when no row is
   * skipped whose detail page would have failed, or else nothing that the gated
   * page lists could add a row.
   */
  lemma GatesPreserveTheTableExactlyWhen(list: ListPage, content: map<string, Bytes>, limit: nat, stores: Stores)
    requires limit > 0 && Sane(stores) && !DiscoverList(true, list.read, list.url).Threw?
    requires list.read.Html? ==> LookupsAreOlder(list.read.visits, stores.rows)
    ensures var gated, open := CyclePage(true, list, content, limit), CyclePage(false, list, content, limit);
            (forall actions | Settles(gated, stores, actions) :: TableIsMatched(gated, open, stores, actions))
            <==> GateWorks(list.read, stores.rows) || NoneAddsRow(gated, stores.rows)
  {
    var gated, open := CyclePage(true, list, content, limit), CyclePage(false, list, content, limit);
    if GateWorks(list.read, stores.rows) {
      forall actions | Settles(gated, stores, actions)
        ensures TableIsMatched(gated, open, stores, actions)
      {
        var steps := GatesPreserveTheTable(list, content, limit, stores, stores, actions);
      }
    } else {
      OpenPageBreaks(list.read.visits, list.url);
      assert open.candidates == [];
      if NoneAddsRow(gated, stores.rows) {
        forall actions | Settles(gated, stores, actions)
          ensures TableIsMatched(gated, open, stores, actions)
        {
          OthersAloneMatch(gated, Start(gated, stores), open, Start(open, stores), actions);
          OthersOfOthers(actions);
        }
      } else {
        var j :| 0 <= j < |gated.candidates| && !AddsNoRow(content, stores.rows, gated.candidates[j]);
        var actions := SomeScheduleAddsRow(gated, stores, j);
        OthersOfNone(actions);
        assert !TableIsMatched(gated, open, stores, actions) by {
          forall steps | Settles(open, stores, steps) && OthersOf(steps) == []
            ensures steps == []
          {
            assert steps != [] ==> ByOthers(steps[0]);
          }
        }
      }
    }
  }

  lemma {:induction false} OthersOfOthers(actions: seq<Action>)
    ensures OthersOf(OthersOf(actions)) == OthersOf(actions)
  {
    if actions != [] {
      var rest := OthersOf(actions[1..]);
      OthersOfOthers(actions[1..]);
      if ByOthers(actions[0]) {
        OthersOfConcat([actions[0]], rest);
        assert OthersOf(actions) == [actions[0]] + rest && OthersOf([actions[0]]) == [actions[0]];
      } else {
        assert OthersOf(actions) == rest;
      }
    }
  }
}
