/** Gathering a fan-out: candidate order, the page's counts and the result lists. */
module IngestPage {
  import opened Wrappers
  import opened RawStorage
  import opened Staging
  import opened Ingest

  datatype SettledCandidate =
    | Result(index: nat, raw: RawResult, staging: StagingResult)
    | Skip(index: nat)

  /** A rejection is a programmer error. */
  datatype Promise = Fulfilled(value: SettledCandidate) | Rejected

  datatype PageCounts = PageCounts(discovered: nat, failed: nat, skippedBySourceId: nat, staged: nat, stored: nat)

  datatype PageResult = PageResult(counts: PageCounts, rawStorage: seq<RawResult>, staging: seq<StagingResult>)

  // ----- Candidate order -----

  function Values(settled: seq<Promise>): seq<SettledCandidate> {
    if settled == [] then []
    else if settled[0].Fulfilled? then [settled[0].value] + Values(settled[1..])
    else Values(settled[1..])
  }

  function InsertByIndex(sorted: seq<SettledCandidate>, value: SettledCandidate): seq<SettledCandidate> {
    if sorted == [] || sorted[|sorted| - 1].index <= value.index then sorted + [value]
    else InsertByIndex(sorted[..|sorted| - 1], value) + [sorted[|sorted| - 1]]
  }

  function SortedByIndex(values: seq<SettledCandidate>): seq<SettledCandidate> {
    if values == [] then [] else InsertByIndex(SortedByIndex(values[..|values| - 1]), values[|values| - 1])
  }

  function FulfilledInOrder(settled: seq<Promise>): seq<SettledCandidate> {
    SortedByIndex(Values(settled))
  }

  ghost predicate IsSorted(values: seq<SettledCandidate>) {
    forall i, j | 0 <= i < j < |values| :: values[i].index <= values[j].index
  }

  lemma {:induction false} InsertKeepsSorted(sorted: seq<SettledCandidate>, value: SettledCandidate)
    requires IsSorted(sorted)
    ensures IsSorted(InsertByIndex(sorted, value))
    ensures forall v <- InsertByIndex(sorted, value) :: v in sorted || v == value
  {
    if sorted != [] && sorted[|sorted| - 1].index > value.index {
      var head, last := sorted[..|sorted| - 1], sorted[|sorted| - 1];
      InsertKeepsSorted(head, value);
      forall i | 0 <= i < |InsertByIndex(head, value)|
        ensures InsertByIndex(head, value)[i].index <= last.index
      {
        var v := InsertByIndex(head, value)[i];
        assert v in head || v == value;
      }
    }
  }

  lemma {:induction false} InsertAddsOne(sorted: seq<SettledCandidate>, value: SettledCandidate)
    ensures multiset(InsertByIndex(sorted, value)) == multiset(sorted) + multiset{value}
  {
    if sorted != [] && sorted[|sorted| - 1].index > value.index {
      InsertAddsOne(sorted[..|sorted| - 1], value);
      assert sorted == sorted[..|sorted| - 1] + [sorted[|sorted| - 1]];
    }
  }

  lemma {:induction false} SortSorts(values: seq<SettledCandidate>)
    ensures IsSorted(SortedByIndex(values)) && multiset(SortedByIndex(values)) == multiset(values)
  {
    if values != [] {
      var head := values[..|values| - 1];
      SortSorts(head);
      InsertKeepsSorted(SortedByIndex(head), values[|values| - 1]);
      InsertAddsOne(SortedByIndex(head), values[|values| - 1]);
      assert values == head + [values[|values| - 1]];
    }
  }

  lemma LastOfSorted(a: seq<SettledCandidate>, b: seq<SettledCandidate>)
    requires IsSorted(a) && |a| == |b| > 0
    requires forall i | 0 <= i < |b| :: b[i].index == i
    requires a[|a| - 1] in b && b[|b| - 1] in a
    ensures a[|a| - 1] == b[|b| - 1]
  {
    var n := |b| - 1;
    var i :| 0 <= i < |a| && a[i] == b[n];
    var k :| 0 <= k < |b| && b[k] == a[n];
    assert a[i].index <= a[n].index;
  }

  lemma WithoutLast(a: seq<SettledCandidate>)
    requires a != []
    ensures multiset(a[..|a| - 1]) == multiset(a) - multiset{a[|a| - 1]}
  {
    assert a == a[..|a| - 1] + [a[|a| - 1]];
  }

  lemma SameMultiset(a: seq<SettledCandidate>, b: seq<SettledCandidate>)
    requires multiset(a) == multiset(b)
    ensures |a| == |b|
    ensures forall v :: v in a <==> v in b
  {
    assert |multiset(a)| == |a| && |multiset(b)| == |b|;
    forall v
      ensures v in a <==> v in b
    {
      assert v in a <==> v in multiset(a);
      assert v in b <==> v in multiset(b);
    }
  }

  lemma {:induction false} SortedIsUnique(a: seq<SettledCandidate>, b: seq<SettledCandidate>)
    requires IsSorted(a) && multiset(a) == multiset(b)
    requires forall i | 0 <= i < |b| :: b[i].index == i
    ensures a == b
    decreases |b|
  {
    SameMultiset(a, b);
    if b != [] {
      var n := |b| - 1;
      LastOfSorted(a, b);
      WithoutLast(a);
      WithoutLast(b);
      SortedIsUnique(a[..n], b[..n]);
    }
  }

  /** Whatever the order in which tasks settle, the results come out in candidate order. */
  lemma ResultsComeInCandidateOrder(settled: seq<Promise>, inOrder: seq<SettledCandidate>)
    requires multiset(Values(settled)) == multiset(inOrder)
    requires forall i | 0 <= i < |inOrder| :: inOrder[i].index == i
    ensures FulfilledInOrder(settled) == inOrder
  {
    SortSorts(Values(settled));
    SortedIsUnique(FulfilledInOrder(settled), inOrder);
  }

  // ----- Tally -----

  function CountIf<T>(items: seq<T>, test: T -> bool): nat {
    if items == [] then 0 else CountIf(items[..|items| - 1], test) + if test(items[|items| - 1]) then 1 else 0
  }

  function RawResults(values: seq<SettledCandidate>): seq<RawResult> {
    if values == [] then []
    else
      var last := values[|values| - 1];
      RawResults(values[..|values| - 1]) + if last.Result? then [last.raw] else []
  }

  function StagingResults(values: seq<SettledCandidate>): seq<StagingResult> {
    if values == [] then []
    else
      var last := values[|values| - 1];
      StagingResults(values[..|values| - 1]) + if last.Result? then [last.staging] else []
  }

  predicate RawIsStored(raw: RawResult) {
    raw.Evidence? && raw.status == Stored
  }

  predicate RawIsSkipped(raw: RawResult) {
    raw.Evidence? && raw.status == Skipped
  }

  predicate RawIsConflict(raw: RawResult) {
    raw.Evidence? && raw.status == Conflict
  }

  predicate RawIsFailed(raw: RawResult) {
    raw.FetchFailed? || raw.status == Failed
  }

  predicate StagingIsStaged(result: StagingResult) {
    result.Staged?
  }

  predicate StagingIsFailed(result: StagingResult) {
    result.StagingFailed?
  }

  predicate IsSkip(value: SettledCandidate) {
    value.Skip?
  }

  function CountsOf(discovered: nat, values: seq<SettledCandidate>): PageCounts {
    var raw, staging := RawResults(values), StagingResults(values);
    PageCounts(
      discovered,
      CountIf(raw, RawIsFailed) + CountIf(staging, StagingIsFailed),
      CountIf(values, IsSkip),
      CountIf(staging, StagingIsStaged),
      CountIf(raw, RawIsStored))
  }

  function ResultOf(discovered: nat, values: seq<SettledCandidate>): PageResult {
    PageResult(CountsOf(discovered, values), RawResults(values), StagingResults(values))
  }

  lemma CountIfAppends<T>(items: seq<T>, item: T, test: T -> bool)
    ensures CountIf(items + [item], test) == CountIf(items, test) + if test(item) then 1 else 0
  {
    assert (items + [item])[..|items|] == items;
  }

  lemma {:induction false} CountIfConcat<T>(a: seq<T>, b: seq<T>, test: T -> bool)
    ensures CountIf(a + b, test) == CountIf(a, test) + CountIf(b, test)
    decreases |b|
  {
    if b == [] {
      assert a + b == a;
    } else {
      var n := |b| - 1;
      CountIfConcat(a, b[..n], test);
      CountIfAppends(a + b[..n], b[n], test);
      CountIfAppends(b[..n], b[n], test);
      assert a + b == a + b[..n] + [b[n]] && b == b[..n] + [b[n]];
    }
  }

  lemma CountIfPrepends<T>(item: T, items: seq<T>, test: T -> bool)
    ensures CountIf([item] + items, test) == (if test(item) then 1 else 0) + CountIf(items, test)
  {
    CountIfConcat([item], items, test);
    assert [item][..0] == [];
  }

  function Tallied(before: PageResult, value: SettledCandidate): PageResult {
    match value
    case Skip(_) => before.(counts := before.counts.(skippedBySourceId := before.counts.skippedBySourceId + 1))
    case Result(_, raw, staging) =>
      var counts := before.counts;
      PageResult(
        counts.(
        failed := counts.failed + (if RawIsFailed(raw) then 1 else 0) + (if staging.StagingFailed? then 1 else 0),
        staged := counts.staged + (if staging.Staged? then 1 else 0),
        stored := counts.stored + (if RawIsStored(raw) then 1 else 0)),
        before.rawStorage + [raw],
        before.staging + [staging])
  }

  lemma ResultOfAppends(discovered: nat, values: seq<SettledCandidate>, value: SettledCandidate)
    ensures ResultOf(discovered, values + [value]) == Tallied(ResultOf(discovered, values), value)
  {
    assert (values + [value])[..|values|] == values;
    CountIfAppends(values, value, IsSkip);
    assert RawResults(values) + [] == RawResults(values) && StagingResults(values) + [] == StagingResults(values);
    if value.Result? {
      var raw, staging := RawResults(values), StagingResults(values);
      CountIfAppends(raw, value.raw, RawIsFailed);
      CountIfAppends(raw, value.raw, RawIsStored);
      CountIfAppends(staging, value.staging, StagingIsFailed);
      CountIfAppends(staging, value.staging, StagingIsStaged);
    }
  }

  method TallyRawResult(counts: PageCounts, raw: RawResult) returns (tallied: PageCounts)
    ensures tallied == counts.(
                       failed := counts.failed + (if RawIsFailed(raw) then 1 else 0),
                       stored := counts.stored + (if RawIsStored(raw) then 1 else 0))
  {
    tallied := counts;
    if RawIsStored(raw) {
      tallied := tallied.(stored := tallied.stored + 1);
      return;
    }
    if RawIsFailed(raw) {
      tallied := tallied.(failed := tallied.failed + 1);
    }
  }

  method TallyStagingResult(counts: PageCounts, staging: StagingResult) returns (tallied: PageCounts)
    ensures tallied == counts.(
                       failed := counts.failed + (if staging.StagingFailed? then 1 else 0),
                       staged := counts.staged + (if staging.Staged? then 1 else 0))
  {
    tallied := counts;
    if staging.Staged? {
      tallied := tallied.(staged := tallied.staged + 1);
      return;
    }
    if staging.StagingFailed? {
      tallied := tallied.(failed := tallied.failed + 1);
    }
  }

  method TallyValue(page: PageResult, value: SettledCandidate) returns (tallied: PageResult)
    ensures tallied == Tallied(page, value)
  {
    var PageResult(counts, rawStorage, staging) := page;
    match value {
      case Skip(_) =>
        counts := counts.(skippedBySourceId := counts.skippedBySourceId + 1);
      case Result(_, raw, stage) =>
        rawStorage := rawStorage + [raw];
        counts := TallyRawResult(counts, raw);
        staging := staging + [stage];
        counts := TallyStagingResult(counts, stage);
    }
    tallied := PageResult(counts, rawStorage, staging);
  }

  method RethrowProgrammerError(settled: seq<Promise>) returns (thrown: bool)
    ensures thrown <==> Rejected in settled
  {
    for i := 0 to |settled|
      invariant Rejected !in settled[..i]
    {
      if settled[i].Rejected? {
        return true;
      }
    }
    return false;
  }

  /** None: some settle was rejected and its reason is rethrown. */
  method GatherPage(discovered: nat, settled: seq<Promise>) returns (result: Option<PageResult>)
    ensures result == if Rejected in settled then None else Some(ResultOf(discovered, FulfilledInOrder(settled)))
  {
    var thrown := RethrowProgrammerError(settled);
    if thrown {
      return None;
    }
    var values := FulfilledInOrder(settled);
    var page := PageResult(PageCounts(discovered, 0, 0, 0, 0), [], []);
    for i := 0 to |values|
      invariant page == ResultOf(discovered, values[..i])
    {
      ResultOfAppends(discovered, values[..i], values[i]);
      assert values[..i + 1] == values[..i] + [values[i]];
      page := TallyValue(page, values[i]);
    }
    assert values[..|values|] == values;
    result := Some(page);
  }

  // ----- From tasks to results -----

  function SettlementOf(i: nat, task: Task): SettledCandidate
    requires IsDone(task)
  {
    if task.SkippedById? then Skip(i) else Result(i, task.raw, task.staging)
  }

  /** The settled values of gathered tasks, in candidate order. */
  function Settlements(tasks: seq<Task>): (values: seq<SettledCandidate>)
    requires forall i | 0 <= i < |tasks| :: IsDone(tasks[i])
    ensures |values| == |tasks| && forall i | 0 <= i < |tasks| :: values[i] == SettlementOf(i, tasks[i])
  {
    if tasks == [] then []
    else Settlements(tasks[..|tasks| - 1]) + [SettlementOf(|tasks| - 1, tasks[|tasks| - 1])]
  }

  lemma ResultsOfLast(tasks: seq<Task>)
    requires tasks != [] && forall i | 0 <= i < |tasks| :: IsDone(tasks[i])
    ensures var last, before, values := tasks[|tasks| - 1], Settlements(tasks[..|tasks| - 1]), Settlements(tasks);
            && RawResults(values) == RawResults(before) + (if last.Settled? then [last.raw] else [])
            && StagingResults(values) == StagingResults(before) + (if last.Settled? then [last.staging] else [])
            && CountIf(values, IsSkip) == CountIf(before, IsSkip) + if last.SkippedById? then 1 else 0
  {
    var n := |tasks| - 1;
    assert IsDone(tasks[n]);
    assert Settlements(tasks)[..n] == Settlements(tasks[..n]);
  }

  function ResultOfTasks(tasks: seq<Task>): PageResult
    requires forall i | 0 <= i < |tasks| :: IsDone(tasks[i])
  {
    ResultOf(|tasks|, Settlements(tasks))
  }

  /** What a finished task's promise comes to. */
  function PromiseOf(i: nat, task: Task): Promise
    requires IsFinished(task)
  {
    if task.Thrown? then Rejected else Fulfilled(SettlementOf(i, task))
  }

  function PromisesOf(tasks: seq<Task>): (settled: seq<Promise>)
    requires forall i | 0 <= i < |tasks| :: IsFinished(tasks[i])
    ensures |settled| == |tasks| && forall i | 0 <= i < |tasks| :: settled[i] == PromiseOf(i, tasks[i])
  {
    if tasks == [] then []
    else PromisesOf(tasks[..|tasks| - 1]) + [PromiseOf(|tasks| - 1, tasks[|tasks| - 1])]
  }

  lemma {:induction false} ValuesCount(settled: seq<Promise>, value: SettledCandidate)
    ensures multiset(Values(settled))[value] == multiset(settled)[Fulfilled(value)]
  {
    if settled != [] {
      ValuesCount(settled[1..], value);
      assert settled == [settled[0]] + settled[1..];
    }
  }

  lemma {:induction false} ValuesAppend(settled: seq<Promise>, value: SettledCandidate)
    ensures Values(settled + [Fulfilled(value)]) == Values(settled) + [value]
  {
    if settled != [] {
      ValuesAppend(settled[1..], value);
      assert (settled + [Fulfilled(value)])[1..] == settled[1..] + [Fulfilled(value)];
    }
  }

  lemma {:induction false} ValuesOfPromises(tasks: seq<Task>)
    requires forall i | 0 <= i < |tasks| :: IsDone(tasks[i])
    ensures Values(PromisesOf(tasks)) == Settlements(tasks)
  {
    if tasks != [] {
      var n := |tasks| - 1;
      ValuesOfPromises(tasks[..n]);
      ValuesAppend(PromisesOf(tasks[..n]), SettlementOf(n, tasks[n]));
    }
  }

  predicate SomeThrown(tasks: seq<Task>) {
    exists i :: 0 <= i < |tasks| && tasks[i].Thrown?
  }

  lemma RejectedAmong(tasks: seq<Task>, promises: seq<Promise>)
    requires |promises| == |tasks| && forall i | 0 <= i < |tasks| :: IsFinished(tasks[i])
    requires forall i | 0 <= i < |tasks| :: promises[i] == PromiseOf(i, tasks[i])
    ensures Rejected in promises <==> SomeThrown(tasks)
  {
    if Rejected in promises {
      var i :| 0 <= i < |promises| && promises[i] == Rejected;
      assert tasks[i].Thrown?;
    }
    if SomeThrown(tasks) {
      var i :| 0 <= i < |tasks| && tasks[i].Thrown?;
      assert promises[i] == Rejected;
    }
  }

  lemma SamePromises(a: seq<Promise>, b: seq<Promise>, promise: Promise)
    requires multiset(a) == multiset(b)
    ensures promise in a <==> promise in b
  {
    assert promise in a <==> promise in multiset(a);
    assert promise in b <==> promise in multiset(b);
  }

  lemma SameValues(a: seq<Promise>, b: seq<Promise>)
    requires multiset(a) == multiset(b)
    ensures multiset(Values(a)) == multiset(Values(b))
  {
    forall v
      ensures multiset(Values(a))[v] == multiset(Values(b))[v]
    {
      ValuesCount(a, v);
      ValuesCount(b, v);
    }
  }

  /**
   * In whatever order the promises of finished tasks are gathered: the page has no
   * result exactly when a task was rejected, and else the result of its tasks.
   */
  lemma GatheredTasksGiveResult(tasks: seq<Task>, settled: seq<Promise>)
    requires forall i | 0 <= i < |tasks| :: IsFinished(tasks[i])
    requires multiset(settled) == multiset(PromisesOf(tasks))
    ensures Rejected in settled <==> SomeThrown(tasks)
    ensures !SomeThrown(tasks) ==> ResultOf(|tasks|, FulfilledInOrder(settled)) == ResultOfTasks(tasks)
  {
    RejectedAmong(tasks, PromisesOf(tasks));
    SamePromises(settled, PromisesOf(tasks), Rejected);
    if !SomeThrown(tasks) {
      OrderedResult(tasks, settled);
    }
  }

  ghost predicate AreIndexed(values: seq<SettledCandidate>) {
    forall i | 0 <= i < |values| :: values[i].index == i
  }

  lemma SettlementsAreIndexed(tasks: seq<Task>)
    requires forall i | 0 <= i < |tasks| :: IsDone(tasks[i])
    ensures AreIndexed(Settlements(tasks))
  {
  }

  lemma OrderedValues(settled: seq<Promise>, promises: seq<Promise>, inOrder: seq<SettledCandidate>)
    requires multiset(settled) == multiset(promises) && Values(promises) == inOrder
    requires AreIndexed(inOrder)
    ensures FulfilledInOrder(settled) == inOrder
  {
    SameValues(settled, promises);
    ResultsComeInCandidateOrder(settled, inOrder);
  }

  lemma OrderedResult(tasks: seq<Task>, settled: seq<Promise>)
    requires forall i | 0 <= i < |tasks| :: IsDone(tasks[i])
    requires multiset(settled) == multiset(PromisesOf(tasks))
    ensures FulfilledInOrder(settled) == Settlements(tasks)
  {
    ValuesOfPromises(tasks);
    SettlementsAreIndexed(tasks);
    OrderedValues(settled, PromisesOf(tasks), Settlements(tasks));
  }
}
