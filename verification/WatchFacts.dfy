/** When the watcher beats. */
module WatchFacts {
  import opened Ingest
  import opened Discovery
  import opened PageLoop
  import opened WatchLoop

  /** The discovery did not throw, every candidate was gathered and the heartbeat was written. */
  predicate IsGood(gated: bool, stores: Stores, c: Cycle) {
    && !Discover(gated, [c.list], c.list.url).threw
    && Completes(PageOf(gated, c), StoresAfterOthers(stores, c.others), c.actions)
    && c.heartbeatWorks
  }

  /** The stores after a cycle: those of its fan-out as far as it went, if it came to one. */
  function StoresThrough(gated: bool, stores: Stores, c: Cycle): Stores {
    var found := StoresAfterOthers(stores, c.others);
    if Discover(gated, [c.list], c.list.url).threw then found
    else StoresAfterDeath(PageOf(gated, c), found, c.actions)
  }

  /** How many of the cycles that are run are good. */
  function GoodCycles(gated: bool, stores: Stores, cycles: seq<Cycle>): nat
    decreases |cycles|
  {
    if cycles == [] || cycles[0].stopAtTop then 0
    else
      (if IsGood(gated, stores, cycles[0]) then 1 else 0)
      + if cycles[0].stopAfter then 0 else GoodCycles(gated, StoresThrough(gated, stores, cycles[0]), cycles[1..])
  }

  function StoresAtEnd(gated: bool, stores: Stores, cycles: seq<Cycle>): Stores
    decreases |cycles|
  {
    if cycles == [] || cycles[0].stopAtTop then stores
    else
      var after := StoresThrough(gated, stores, cycles[0]);
      if cycles[0].stopAfter then after else StoresAtEnd(gated, after, cycles[1..])
  }

  lemma OneCycle(w: Watch, gated: bool, c: Cycle)
    ensures var after := AfterCycle(w, gated, c);
            && after.stores == StoresThrough(gated, w.stores, c)
            && after.heartbeats == w.heartbeats + (if IsGood(gated, w.stores, c) then 1 else 0)
            && after.failures == w.failures + (if IsGood(gated, w.stores, c) then 0 else 1)
  {
  }

  /** The watcher beats once for every good cycle, and every other cycle it runs is a failure. */
  lemma {:induction false} BeatsExactlyForGoodCycles(w: Watch, gated: bool, cycles: seq<Cycle>)
    ensures var end, good := WatchFrom(w, gated, cycles), GoodCycles(gated, w.stores, cycles);
            && end.heartbeats == w.heartbeats + good
            && end.failures == w.failures + CyclesUntilStop(cycles) - good
            && end.stores == StoresAtEnd(gated, w.stores, cycles)
    decreases |cycles|
  {
    if cycles != [] && !cycles[0].stopAtTop {
      var after := WatchStep(w, gated, cycles);
      OneCycle(w, gated, cycles[0]);
      if !cycles[0].stopAfter {
        BeatsExactlyForGoodCycles(after.(sleeps := after.sleeps + 1), gated, cycles[1..]);
      }
    }
  }

  /** A task of the cycle's fan-out was rejected. */
  ghost predicate HasRejectedTask(gated: bool, stores: Stores, c: Cycle) {
    var page, found := PageOf(gated, c), StoresAfterOthers(stores, c.others);
    && Possible(page, Start(page, found), c.actions)
    && exists i :: 0 <= i < |page.candidates| && Outcome(page, Start(page, found), c.actions).tasks[i].Thrown?
  }

  /** A lookup of the gate that comes to be made breaks. */
  ghost predicate HasBrokenLookup(gated: bool, c: Cycle) {
    c.list.read.Html? && exists i ::
      && 0 <= i < |c.list.read.visits|
      && OutcomeOf(gated, c.list.read.visits[i]).LookupBroke?
      && forall j | 0 <= j < i :: !Breaks(OutcomeOf(gated, c.list.read.visits[j]))
  }

  lemma {:induction false} FirstBreakIsLast(gated: bool, visits: seq<Visit>, i: nat)
    requires i < |visits| && Breaks(OutcomeOf(gated, visits[i]))
    requires forall j | 0 <= j < i :: !Breaks(OutcomeOf(gated, visits[j]))
    ensures var outcomes := Visited(gated, visits);
            outcomes != [] && outcomes[|outcomes| - 1] == OutcomeOf(gated, visits[i])
  {
    if i > 0 {
      FirstBreakIsLast(gated, visits[1..], i - 1);
    }
  }

  /** A cycle with a broken lookup or a rejected task leaves no heartbeat. */
  lemma BadCycleDoesNotBeat(w: Watch, gated: bool, c: Cycle)
    requires HasBrokenLookup(gated, c) || HasRejectedTask(gated, w.stores, c)
    requires !c.stopAtTop
    ensures WatchFrom(w, gated, [c]).heartbeats == w.heartbeats
    ensures WatchFrom(w, gated, [c]).failures == w.failures + 1
  {
    if HasBrokenLookup(gated, c) {
      var i :| 0 <= i < |c.list.read.visits| && OutcomeOf(gated, c.list.read.visits[i]).LookupBroke?
               && forall j | 0 <= j < i :: !Breaks(OutcomeOf(gated, c.list.read.visits[j]));
      FirstBreakIsLast(gated, c.list.read.visits, i);
      OneListDiscovered(gated, c.list, c.list.url);
    }
    assert !IsGood(gated, w.stores, c);
    BeatsExactlyForGoodCycles(w, gated, [c]);
    assert [c][1..] == [];
    assert GoodCycles(gated, w.stores, [c]) == 0;
    assert CyclesUntilStop([c]) == 1;
  }
}
