/** Schedules of a fan-out: how they compose, and that every page has one. */
module Schedules {
  import opened RawStorage
  import opened Staging
  import opened Ingest

  lemma TraceThen(page: Page, s: State, a: Action, rest: seq<Action>)
    requires |s.tasks| == |page.candidates| && Enabled(page, s, a) && Possible(page, Act(page, s, a), rest)
    ensures Possible(page, s, [a] + rest) && Outcome(page, s, [a] + rest) == Outcome(page, Act(page, s, a), rest)
  {
    assert ([a] + rest)[1..] == rest;
  }

  lemma {:induction false} TracesCompose(page: Page, s: State, a: seq<Action>, b: seq<Action>)
    requires |s.tasks| == |page.candidates| && Possible(page, s, a) && Possible(page, Outcome(page, s, a), b)
    ensures Possible(page, s, a + b) && Outcome(page, s, a + b) == Outcome(page, Outcome(page, s, a), b)
    decreases |a|
  {
    if a == [] {
      assert a + b == b;
    } else {
      TracesCompose(page, Act(page, s, a[0]), a[1..], b);
      TraceThen(page, s, a[0], a[1..] + b);
      assert a + b == [a[0]] + (a[1..] + b);
    }
  }

  lemma OneMore(page: Page, s: State, a: seq<Action>, b: Action) returns (all: seq<Action>)
    requires |s.tasks| == |page.candidates| && Possible(page, s, a) && Enabled(page, Outcome(page, s, a), b)
    ensures all == a + [b]
    ensures Possible(page, s, all) && Outcome(page, s, all) == Act(page, Outcome(page, s, a), b)
  {
    all := a + [b];
    var t := Outcome(page, s, a);
    assert [b][1..] == [];
    assert Possible(page, t, [b]);
    assert Outcome(page, t, [b]) == Outcome(page, Act(page, t, b), [b][1..]) == Act(page, t, b);
    TracesCompose(page, s, a, [b]);
  }

  predicate OwnOnly(steps: seq<Action>) {
    forall a <- steps :: !ByOthers(a)
  }

  lemma {:induction false} OthersOfNone(steps: seq<Action>)
    requires OwnOnly(steps)
    ensures OthersOf(steps) == []
  {
    if steps != [] {
      assert steps[0] in steps;
      OthersOfNone(steps[1..]);
    }
  }

  lemma {:induction false} OthersOfConcat(a: seq<Action>, b: seq<Action>)
    ensures OthersOf(a + b) == OthersOf(a) + OthersOf(b)
    decreases |a|
  {
    if a == [] {
      assert a + b == b;
    } else {
      OthersOfConcat(a[1..], b);
      assert (a + b)[1..] == a[1..] + b;
    }
  }

  lemma {:induction false} ActiveAfterUpdate(tasks: seq<Task>, i: nat, task: Task)
    requires i < |tasks|
    ensures Active(tasks[i := task]) + (if IsActive(tasks[i]) then 1 else 0)
            == Active(tasks) + if IsActive(task) then 1 else 0
  {
    if i == 0 {
      assert tasks[0 := task][1..] == tasks[1..];
    } else {
      ActiveAfterUpdate(tasks[1..], i - 1, task);
      assert tasks[i := task][1..] == tasks[1..][i - 1 := task];
    }
  }

  lemma {:induction false} NoneActive(tasks: seq<Task>)
    requires forall j | 0 <= j < |tasks| :: !IsActive(tasks[j])
    ensures Active(tasks) == 0
  {
    if tasks != [] {
      NoneActive(tasks[1..]);
    }
  }

  // ----- Every page can be gathered -----

  /** No request fails and no other run takes part. */
  ghost predicate Undisturbed(steps: seq<Action>) {
    forall a <- steps :: Faultless(a) && !ByOthers(a)
  }

  lemma FetchTask(page: Page, s: State, j: nat) returns (steps: seq<Action>)
    requires |s.tasks| == |page.candidates| && j < |s.tasks| && s.tasks[j].Passed?
    ensures Possible(page, s, steps) && Undisturbed(steps)
    ensures exists raw :: Outcome(page, s, steps).tasks == s.tasks[j := Held(raw)]
  {
    var head := Head(j, true, HeadAnswers);
    steps := OneMore(page, s, [], head);
    var t := Outcome(page, s, steps);
    if t.tasks[j].NeedsPut? {
      steps := OneMore(page, s, steps, RawPut(j, PutServed));
    }
    var raw := Outcome(page, s, steps).tasks[j].raw;
    assert Outcome(page, s, steps).tasks == s.tasks[j := Held(raw)];
  }

  /** Gate, fetch and stage one candidate. */
  lemma SettleTask(page: Page, s: State, j: nat) returns (steps: seq<Action>)
    requires |s.tasks| == |page.candidates| && !page.gated
    requires j < |s.tasks| && s.tasks[j].Waiting? && Active(s.tasks) < page.limit
    ensures Possible(page, s, steps) && Undisturbed(steps)
    ensures exists raw, staging :: Outcome(page, s, steps).tasks == s.tasks[j := Settled(raw, staging)]
  {
    steps := OneMore(page, s, [], Gate(j));
    var passed := Outcome(page, s, steps);
    var more := FetchTask(page, passed, j);
    TracesCompose(page, s, steps, more);
    steps := steps + more;
    var held := Outcome(page, s, steps);
    var raw :| held.tasks == passed.tasks[j := Held(raw)];
    steps := OneMore(page, s, steps, StageRow(j, StageWorks(0)));
    assert Outcome(page, s, steps).tasks == s.tasks[j := Settled(raw, Outcome(page, s, steps).tasks[j].staging)];
  }

  lemma {:induction false} SettleFrom(page: Page, s: State, j: nat) returns (steps: seq<Action>)
    requires !page.gated && page.limit > 0 && |s.tasks| == |page.candidates| && j <= |s.tasks|
    requires (forall k | 0 <= k < j :: s.tasks[k].Settled?) && (forall k | j <= k < |s.tasks| :: s.tasks[k].Waiting?)
    ensures Possible(page, s, steps) && Undisturbed(steps) && Gathered(Outcome(page, s, steps))
    decreases |s.tasks| - j
  {
    steps := [];
    if j < |s.tasks| {
      NoneActive(s.tasks);
      steps := SettleTask(page, s, j);
      var rest := SettleFrom(page, Outcome(page, s, steps), j + 1);
      TracesCompose(page, s, steps, rest);
      steps := steps + rest;
    }
  }

  /** Whatever the stores hold, some undisturbed schedule gathers the page. */
  lemma EveryPageCanBeGathered(page: Page, stores: Stores) returns (steps: seq<Action>)
    requires !page.gated && page.limit > 0
    ensures Completes(page, stores, steps) && Undisturbed(steps)
  {
    steps := SettleFrom(page, Start(page, stores), 0);
  }

  // ----- A fan-out in which every fetch fails -----

  lemma FailFetch(page: Page, s: State, j: nat) returns (steps: seq<Action>)
    requires |s.tasks| == |page.candidates| && !page.gated
    requires j < |s.tasks| && s.tasks[j].Waiting? && Active(s.tasks) < page.limit
    ensures Possible(page, s, steps) && OwnOnly(steps) && Outcome(page, s, steps).stores == s.stores
    ensures exists raw, staging :: Outcome(page, s, steps).tasks == s.tasks[j := Settled(raw, staging)]
  {
    var raw := FetchFailed(page.candidates[j]);
    steps := OneMore(page, s, [], Gate(j));
    steps := OneMore(page, s, steps, Head(j, false, HeadAnswers));
    assert Outcome(page, s, steps).tasks == s.tasks[j := Held(raw)];
    steps := OneMore(page, s, steps, StageRow(j, StageWorks(0)));
    assert Outcome(page, s, steps).tasks == s.tasks[j := Settled(raw, NotStageable)];
  }

  lemma {:induction false} FailFrom(page: Page, s: State, j: nat) returns (steps: seq<Action>)
    requires !page.gated && page.limit > 0 && |s.tasks| == |page.candidates| && j <= |s.tasks|
    requires (forall k | 0 <= k < j :: s.tasks[k].Settled?) && (forall k | j <= k < |s.tasks| :: s.tasks[k].Waiting?)
    ensures Possible(page, s, steps) && OwnOnly(steps)
    ensures Gathered(Outcome(page, s, steps)) && Outcome(page, s, steps).stores == s.stores
    decreases |s.tasks| - j
  {
    steps := [];
    if j < |s.tasks| {
      NoneActive(s.tasks);
      steps := FailFetch(page, s, j);
      var rest := FailFrom(page, Outcome(page, s, steps), j + 1);
      TracesCompose(page, s, steps, rest);
      steps := steps + rest;
    }
  }

  /** Every fetch of an ungated page may fail, and then the page is gathered and changes nothing. */
  lemma EveryFetchMayFail(page: Page, stores: Stores) returns (steps: seq<Action>)
    requires !page.gated && page.limit > 0
    ensures Completes(page, stores, steps) && OwnOnly(steps) && Ingested(page, stores, steps).stores == stores
  {
    steps := FailFrom(page, Start(page, stores), 0);
  }
}
