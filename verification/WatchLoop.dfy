/** The watch loop: cycle after cycle over page 1, with heartbeats, stop checks and one pacer. */
module WatchLoop {
  import opened Wrappers
  import opened RawStorage
  import opened Staging
  import opened Ingest
  import opened Schedules
  import opened Discovery
  import opened Pacing
  import opened PageLoop
  import G = WatchGates

  /**
   * One cycle's script: the two stop checks around it, the clock reading its
   * pacer takes, the list page, other users of the table meanwhile, the
   * fan-out's schedule, and whether the heartbeat can be written.
   */
  datatype Cycle = Cycle(
    stopAtTop: bool,
    reading: int,
    list: ListPage,
    others: seq<OtherWrite>,
    content: map<string, Bytes>,
    limit: nat,
    actions: seq<Action>,
    heartbeatWorks: bool,
    stopAfter: bool)

  /** `completed`: the cycle did not throw. */
  datatype CycleEnd = CycleEnd(stores: Stores, completed: bool)

  function PageOf(gated: bool, c: Cycle): Page {
    Page(Discover(gated, [c.list], c.list.url).report.candidates, c.content, gated, c.limit)
  }

  function EndOf(gated: bool, stores: Stores, c: Cycle): CycleEnd {
    var found := StoresAfterOthers(stores, c.others);
    if Discover(gated, [c.list], c.list.url).threw then CycleEnd(found, false)
    else if Completes(PageOf(gated, c), found, c.actions) then
      CycleEnd(Ingested(PageOf(gated, c), found, c.actions).stores, true)
    else CycleEnd(StoresAfterDeath(PageOf(gated, c), found, c.actions), false)
  }

  /** A cycle that throws, or whose heartbeat does, is logged as a failure. */
  datatype Watch = Watch(stores: Stores, cycles: nat, heartbeats: nat, failures: nat, sleeps: nat)

  function AfterCycle(w: Watch, gated: bool, c: Cycle): Watch {
    var end := EndOf(gated, w.stores, c);
    var beats := end.completed && c.heartbeatWorks;
    Watch(end.stores, w.cycles + 1, w.heartbeats + (if beats then 1 else 0),
          w.failures + (if beats then 0 else 1), w.sleeps)
  }

  function WatchFrom(w: Watch, gated: bool, cycles: seq<Cycle>): Watch
    decreases |cycles|
  {
    if cycles == [] || cycles[0].stopAtTop then w
    else
      var after := AfterCycle(w, gated, cycles[0]);
      if cycles[0].stopAfter then after else WatchFrom(after.(sleeps := after.sleeps + 1), gated, cycles[1..])
  }

  /** One turn of the loop, given the script from here on. */
  lemma WatchStep(w: Watch, gated: bool, cycles: seq<Cycle>) returns (after: Watch)
    requires cycles != [] && !cycles[0].stopAtTop
    ensures after == AfterCycle(w, gated, cycles[0])
    ensures WatchFrom(w, gated, cycles)
            == if cycles[0].stopAfter then after else WatchFrom(after.(sleeps := after.sleeps + 1), gated, cycles[1..])
  {
    after := AfterCycle(w, gated, cycles[0]);
  }

  lemma WatchNext(w: Watch, gated: bool, cycles: seq<Cycle>, i: nat) returns (after: Watch)
    requires i < |cycles| && !cycles[i].stopAtTop
    ensures after == AfterCycle(w, gated, cycles[i])
    ensures WatchFrom(w, gated, cycles[i..])
            == if cycles[i].stopAfter then after
               else WatchFrom(after.(sleeps := after.sleeps + 1), gated, cycles[i + 1..])
  {
    after := WatchStep(w, gated, cycles[i..]);
    assert cycles[i..][1..] == cycles[i + 1..];
  }

  // ----- The loop itself -----

  /** None: the cycle throws. */
  method RunCycle(c: Cycle, pacer: Pacer, replays: ReplayStores) returns (completed: bool, wait: int)
    modifies pacer, replays
    ensures CycleEnd(replays.stores, completed) == EndOf(true, old(replays.stores), c)
    ensures wait == SleepBefore(pacer.spacingMs, old(pacer.lastRequestAt), c.reading)
    ensures pacer.lastRequestAt == Some(c.reading)
  {
    wait := pacer.AwaitFloor(c.reading);
    var client := new PacedSourceClient(pacer.spacingMs);
    var report := DiscoverReplaysDryRun(client, true, [c.list], c.list.url);
    replays.OthersWrite(c.others);
    if report.None? {
      return false, wait;
    }
    var result := replays.RunFanOut(Page(report.value.candidates, c.content, true, c.limit), c.actions);
    completed := result.Some?;
  }

  /** The previous cycle's reading, for the one pacer all cycles share. */
  function ReadingBefore(cycles: seq<Cycle>, i: nat): Option<int>
    requires i <= |cycles|
  {
    if i == 0 then None else Some(cycles[i - 1].reading)
  }

  /** One turn of the loop: a cycle, then its heartbeat; an error of either is logged. */
  method RunTurn(watch: Watch, c: Cycle, pacer: Pacer, replays: ReplayStores) returns (after: Watch, wait: int)
    requires watch.stores == replays.stores
    modifies pacer, replays
    ensures after == AfterCycle(watch, true, c) && replays.stores == after.stores
    ensures wait == SleepBefore(pacer.spacingMs, old(pacer.lastRequestAt), c.reading)
    ensures pacer.lastRequestAt == Some(c.reading)
  {
    var completed;
    completed, wait := RunCycle(c, pacer, replays);
    after := watch.(stores := replays.stores, cycles := watch.cycles + 1);
    if completed && c.heartbeatWorks {
      after := after.(heartbeats := after.heartbeats + 1);
    } else {
      after := after.(failures := after.failures + 1);
    }
  }

  /** Each wait is that of its cycle, paced by the reading before it. */
  predicate PacedByReadings(waits: seq<int>, requestSpacingMs: int, cycles: seq<Cycle>)
    decreases |waits|
  {
    waits != [] ==>
      var last := |waits| - 1;
      && last < |cycles|
      && waits[last] == SleepBefore(requestSpacingMs, ReadingBefore(cycles, last), cycles[last].reading)
      && PacedByReadings(waits[..last], requestSpacingMs, cycles)
  }

  lemma {:induction false} EachWaitIsPaced(waits: seq<int>, requestSpacingMs: int, cycles: seq<Cycle>, i: nat)
    requires PacedByReadings(waits, requestSpacingMs, cycles) && i < |waits|
    ensures i < |cycles| && waits[i] == SleepBefore(requestSpacingMs, ReadingBefore(cycles, i), cycles[i].reading)
    decreases |waits|
  {
    if i < |waits| - 1 {
      EachWaitIsPaced(waits[..|waits| - 1], requestSpacingMs, cycles, i);
    }
  }

  lemma PacedGrows(waits: seq<int>, requestSpacingMs: int, cycles: seq<Cycle>, wait: int)
    requires PacedByReadings(waits, requestSpacingMs, cycles) && |waits| < |cycles|
    requires wait == SleepBefore(requestSpacingMs, ReadingBefore(cycles, |waits|), cycles[|waits|].reading)
    ensures PacedByReadings(waits + [wait], requestSpacingMs, cycles)
  {
    assert (waits + [wait])[..|waits|] == waits;
  }

  /** `pacer` is the one made for this loop. */
  method RunWatchLoop(cycles: seq<Cycle>, pacer: Pacer, replays: ReplayStores) returns (watch: Watch, waits: seq<int>)
    requires pacer.lastRequestAt == None
    modifies pacer, replays
    ensures watch == WatchFrom(Watch(old(replays.stores), 0, 0, 0, 0), true, cycles) && replays.stores == watch.stores
    ensures watch.cycles == |waits| && PacedByReadings(waits, pacer.spacingMs, cycles)
  {
    waits := [];
    watch := Watch(replays.stores, 0, 0, 0, 0);
    var i := 0;
    ghost var end := WatchFrom(watch, true, cycles);
    assert cycles[0..] == cycles;
    while i < |cycles| && !cycles[i].stopAtTop
      invariant i == |waits| == watch.cycles <= |cycles| && watch.stores == replays.stores
      invariant pacer.lastRequestAt == ReadingBefore(cycles, i)
      invariant end == WatchFrom(watch, true, cycles[i..])
      invariant PacedByReadings(waits, pacer.spacingMs, cycles)
    {
      ghost var after := WatchNext(watch, true, cycles, i);
      var wait;
      watch, wait := RunTurn(watch, cycles[i], pacer, replays);
      assert watch == after;
      PacedGrows(waits, pacer.spacingMs, cycles, wait);
      waits := waits + [wait];
      if cycles[i].stopAfter {
        return;
      }
      watch := watch.(sleeps := watch.sleeps + 1);
      i := i + 1;
    }
  }

  // ----- What the loop guarantees -----

  /** How many cycles the stop checks let run: what happens inside a cycle has no say. */
  function CyclesUntilStop(cycles: seq<Cycle>): nat {
    if cycles == [] || cycles[0].stopAtTop then 0
    else if cycles[0].stopAfter then 1
    else 1 + CyclesUntilStop(cycles[1..])
  }

  lemma CycleKeepsStores(gated: bool, stores: Stores, c: Cycle)
    requires Sane(stores)
    ensures Sane(EndOf(gated, stores, c).stores) && Extends(stores, EndOf(gated, stores, c).stores)
  {
    var found := StoresAfterOthers(stores, c.others);
    OthersEvolve(stores.rows, c.others);
    if Ingest.Possible(PageOf(gated, c), Start(PageOf(gated, c), found), c.actions) {
      IngestIsTruthful(PageOf(gated, c), Start(PageOf(gated, c), found), c.actions);
    }
  }

  /** What a stretch of the loop has added, with `n` cycles. */
  ghost predicate WentOn(w: Watch, end: Watch, n: nat) {
    && end.cycles == w.cycles + n
    && end.heartbeats + end.failures == w.heartbeats + w.failures + n
    && Sane(end.stores) && Extends(w.stores, end.stores)
  }

  lemma OneCycleGoesOn(w: Watch, gated: bool, c: Cycle)
    requires Sane(w.stores)
    ensures WentOn(w, AfterCycle(w, gated, c), 1) && AfterCycle(w, gated, c).sleeps == w.sleeps
  {
    CycleKeepsStores(gated, w.stores, c);
  }

  lemma WentOnThen(a: Watch, b: Watch, c: Watch, n: nat)
    requires WentOn(a, b, 1) && WentOn(b, c, n)
    ensures WentOn(a, c, n + 1)
  {
    ExtendsThen(a.stores, b.stores, c.stores);
  }

  /**
   * No failure ends the loop: only the stop checks do. Every cycle is a heartbeat
   * or a failure, every cycle but perhaps the last is followed by a sleep, and no
   * object or row is ever lost.
   */
  lemma {:induction false} WatchGoesOnUntilStopped(w: Watch, gated: bool, cycles: seq<Cycle>)
    requires Sane(w.stores)
    ensures var end, n := WatchFrom(w, gated, cycles), CyclesUntilStop(cycles);
            WentOn(w, end, n) && w.sleeps + n - 1 <= end.sleeps <= w.sleeps + n
    decreases |cycles|
  {
    if cycles != [] && !cycles[0].stopAtTop {
      OneCycleGoesOn(w, gated, cycles[0]);
      if !cycles[0].stopAfter {
        var after := AfterCycle(w, gated, cycles[0]);
        var slept := after.(sleeps := after.sleeps + 1);
        WatchGoesOnUntilStopped(slept, gated, cycles[1..]);
        WentOnThen(w, slept, WatchFrom(slept, gated, cycles[1..]), CyclesUntilStop(cycles[1..]));
      }
    }
  }

  // ----- The gates, over a whole watch -----

  predicate LookupThrows(c: Cycle) {
    Discover(true, [c.list], c.list.url).threw
  }

  /** A cycle ends, well or badly, only once every task of its fan-out is over, if it comes to one. */
  predicate FanOutSettles(gated: bool, stores: Stores, c: Cycle) {
    Discover(gated, [c.list], c.list.url).threw
    || Settles(PageOf(gated, c), StoresAfterOthers(stores, c.others), c.actions)
  }

  /** The cycles are an execution of the loop: each fan-out it starts settles. */
  ghost predicate IsExecution(w: Watch, gated: bool, cycles: seq<Cycle>)
    decreases |cycles|
  {
    cycles == [] || cycles[0].stopAtTop ||
    (&& FanOutSettles(gated, w.stores, cycles[0])
     && (!cycles[0].stopAfter ==>
           var after := AfterCycle(w, gated, cycles[0]);
           IsExecution(after.(sleeps := after.sleeps + 1), gated, cycles[1..])))
  }

  /** What the gates' promise assumes of a cycle, over the table as it finds it. */
  ghost predicate Works(stores: Stores, c: Cycle) {
    c.limit > 0 && G.GateWorks(c.list.read, StoresAfterOthers(stores, c.others).rows)
  }

  ghost predicate AllWork(w: Watch, cycles: seq<Cycle>)
    decreases |cycles|
  {
    cycles == [] || cycles[0].stopAtTop ||
    (&& Works(w.stores, cycles[0])
     && (!cycles[0].stopAfter ==>
           var after := AfterCycle(w, true, cycles[0]);
           AllWork(after.(sleeps := after.sleeps + 1), cycles[1..])))
  }

  lemma PageIsCyclePage(gated: bool, c: Cycle)
    ensures Discover(gated, [c.list], c.list.url).threw <==> DiscoverList(gated, c.list.read, c.list.url).Threw?
    ensures PageOf(gated, c) == G.CyclePage(gated, c.list, c.content, c.limit)
  {
    OneListDiscovered(gated, c.list, c.list.url);
    assert [] + G.CandidatesOf(gated, c.list) == G.CandidatesOf(gated, c.list);
  }

  lemma OpenNeverThrows(list: ListPage)
    ensures !DiscoverList(false, list.read, list.url).Threw?
  {
    if list.read.Html? {
      VisitedIsPrefix(false, list.read.visits);
    }
  }

  /** A cycle whose lookup fails is matched by one in which every fetch does. */
  lemma ThrownCycleIsMatched(g: Stores, u: Stores, c: Cycle) returns (open: Cycle)
    requires G.Matching(g, u) && c.limit > 0 && LookupThrows(c)
    ensures open == c.(actions := open.actions) && OwnOnly(open.actions) && FanOutSettles(false, u, open)
    ensures G.Matching(EndOf(true, g, c).stores, EndOf(false, u, open).stores)
    ensures !EndOf(true, g, c).completed
  {
    var found := StoresAfterOthers(u, c.others);
    OthersEvolve(g.rows, c.others);
    var steps := EveryFetchMayFail(PageOf(false, c), found);
    open := c.(actions := steps);
    PageIsCyclePage(false, open);
    OpenNeverThrows(c.list);
  }

  /** The ungated fan-out matches the gated one, gathered or not. */
  lemma OpenFanOut(c: Cycle, g: Stores, u: Stores) returns (open: Cycle)
    requires c.limit > 0 && G.Matching(g, u) && G.GateWorks(c.list.read, g.rows) && !LookupThrows(c)
    requires Settles(PageOf(true, c), g, c.actions)
    ensures open == c.(actions := open.actions) && OthersOf(open.actions) == OthersOf(c.actions)
    ensures Settles(PageOf(false, open), u, open.actions)
    ensures Completes(PageOf(true, c), g, c.actions) == Completes(PageOf(false, open), u, open.actions)
    ensures G.Matching(StoresOnceOver(PageOf(true, c), g, c.actions),
                       StoresOnceOver(PageOf(false, open), u, open.actions))
  {
    PageIsCyclePage(true, c);
    PageIsCyclePage(false, c);
    var steps := G.GatesPreserveTheTable(c.list, c.content, c.limit, g, u, c.actions);
    open := c.(actions := steps);
  }

  /** The other runs write the same during the fan-out, if there was one. */
  predicate SameOthers(c: Cycle, open: Cycle) {
    OthersOf(open.actions) == if LookupThrows(c) then [] else OthersOf(c.actions)
  }

  lemma OpenCycle(g: Stores, u: Stores, c: Cycle) returns (open: Cycle)
    requires G.Matching(g, u) && Works(g, c) && FanOutSettles(true, g, c)
    ensures open == c.(actions := open.actions) && SameOthers(c, open) && FanOutSettles(false, u, open)
    ensures G.Matching(EndOf(true, g, c).stores, EndOf(false, u, open).stores)
    ensures EndOf(true, g, c).completed ==> EndOf(false, u, open).completed
    ensures !LookupThrows(c) ==> EndOf(true, g, c).completed == EndOf(false, u, open).completed
  {
    if LookupThrows(c) {
      open := ThrownCycleIsMatched(g, u, c);
      OthersOfNone(open.actions);
    } else {
      OthersEvolve(g.rows, c.others);
      open := OpenFanOut(c, StoresAfterOthers(g, c.others), StoresAfterOthers(u, c.others));
      PageIsCyclePage(false, open);
      OpenNeverThrows(open.list);
    }
  }

  /** Stores that match after as many cycles and sleeps; `answered`: the counts are the same throughout. */
  ghost predicate MatchingWatches(g: Watch, u: Watch, answered: bool) {
    && G.Matching(g.stores, u.stores)
    && g.cycles == u.cycles && g.sleeps == u.sleeps
    && g.heartbeats + g.failures == u.heartbeats + u.failures
    && g.heartbeats <= u.heartbeats && (answered ==> g.heartbeats == u.heartbeats)
  }

  lemma OpenTurn(g: Watch, u: Watch, c: Cycle, answered: bool) returns (open: Cycle)
    requires MatchingWatches(g, u, answered) && Works(g.stores, c) && FanOutSettles(true, g.stores, c)
    ensures open == c.(actions := open.actions) && SameOthers(c, open) && FanOutSettles(false, u.stores, open)
    ensures MatchingWatches(AfterCycle(g, true, c), AfterCycle(u, false, open), answered && !LookupThrows(c))
  {
    open := OpenCycle(g.stores, u.stores, c);
  }

  /** The same cycles but for the own steps of the fan-outs; the first `n` of them were run. */
  ghost predicate SameButSchedules(cycles: seq<Cycle>, open: seq<Cycle>, n: nat) {
    && |cycles| == |open| && n <= |cycles|
    && (forall i | 0 <= i < |cycles| :: open[i] == cycles[i].(actions := open[i].actions))
    && forall i | 0 <= i < n :: SameOthers(cycles[i], open[i])
  }

  predicate NoLookupThrows(cycles: seq<Cycle>) {
    forall c <- cycles :: !LookupThrows(c)
  }

  lemma SameButSchedulesCons(cycles: seq<Cycle>, first: Cycle, rest: seq<Cycle>, n: nat)
    requires cycles != [] && first == cycles[0].(actions := first.actions) && SameOthers(cycles[0], first)
    requires SameButSchedules(cycles[1..], rest, n)
    ensures SameButSchedules(cycles, [first] + rest, n + 1)
  {
    var open := [first] + rest;
    forall i | 0 <= i < |cycles|
      ensures open[i] == cycles[i].(actions := open[i].actions) && (i < n + 1 ==> SameOthers(cycles[i], open[i]))
    {
      assert i > 0 ==> cycles[i] == cycles[1..][i - 1] && open[i] == rest[i - 1];
    }
  }

  lemma WatchCons(u: Watch, first: Cycle, rest: seq<Cycle>, after: Watch)
    requires !first.stopAtTop && after == AfterCycle(u, false, first)
    ensures WatchFrom(u, false, [first] + rest)
            == if first.stopAfter then after else WatchFrom(after.(sleeps := after.sleeps + 1), false, rest)
  {
    var open := [first] + rest;
    assert open[0] == first && open[1..] == rest;
    var same := WatchStep(u, false, open);
  }

  lemma ExecutionCons(u: Watch, first: Cycle, rest: seq<Cycle>, after: Watch)
    requires !first.stopAtTop && FanOutSettles(false, u.stores, first) && after == AfterCycle(u, false, first)
    requires !first.stopAfter ==> IsExecution(after.(sleeps := after.sleeps + 1), false, rest)
    ensures IsExecution(u, false, [first] + rest)
  {
    var open := [first] + rest;
    assert open[0] == first && open[1..] == rest;
  }

  /**
   * However many cycles the watcher runs, well or badly, a watcher without either
   * gate could have run the same ones, with the same writes by other runs and every
   * task run to its end, and left the same staging table; with the same heartbeats
   * and failures unless a lookup of the gate failed a cycle.
   */
  lemma {:induction false} GatesPreserveTheTableForever(g: Watch, u: Watch, cycles: seq<Cycle>, answered: bool)
    returns (open: seq<Cycle>)
    requires MatchingWatches(g, u, answered) && AllWork(g, cycles) && IsExecution(g, true, cycles)
    ensures SameButSchedules(cycles, open, CyclesUntilStop(cycles)) && IsExecution(u, false, open)
    ensures MatchingWatches(WatchFrom(g, true, cycles), WatchFrom(u, false, open), answered && NoLookupThrows(cycles))
    decreases |cycles|
  {
    if cycles == [] || cycles[0].stopAtTop {
      open := cycles;
    } else {
      var first := OpenTurn(g, u, cycles[0], answered);
      var g' := WatchStep(g, true, cycles);
      var u' := AfterCycle(u, false, first);
      var rest := cycles[1..];
      if !cycles[0].stopAfter {
        rest := GatesPreserveTheTableForever(g'.(sleeps := g'.sleeps + 1), u'.(sleeps := u'.sleeps + 1), rest,
                                             answered && !LookupThrows(cycles[0]));
      }
      SameButSchedulesCons(cycles, first, rest, CyclesUntilStop(cycles) - 1);
      ExecutionCons(u, first, rest, u');
      WatchCons(u, first, rest, u');
      open := [first] + rest;
    }
  }
}
