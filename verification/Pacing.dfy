/** The pacer: a floor between requests, measured from one clock reading to the next. */
module Pacing {
  import opened Wrappers

  /** How long a call that reads the clock at `dispatchAt` sleeps; the first never does. */
  function SleepBefore(spacingMs: int, lastRequestAt: Option<int>, dispatchAt: int): int {
    if lastRequestAt.None? then 0
    else
      var remaining := spacingMs - (dispatchAt - lastRequestAt.value);
      if remaining > 0 then remaining else 0
  }

  class Pacer {
    const spacingMs: int
    var lastRequestAt: Option<int>

    constructor (spacingMs: int)
      ensures this.spacingMs == spacingMs && lastRequestAt == None
    {
      this.spacingMs := spacingMs;
      lastRequestAt := None;
    }

    /** The reading is recorded before the sleep, not after it. */
    method AwaitFloor(dispatchAt: int) returns (slept: int)
      modifies this
      ensures slept == SleepBefore(spacingMs, old(lastRequestAt), dispatchAt) && lastRequestAt == Some(dispatchAt)
    {
      slept := 0;
      if lastRequestAt.Some? {
        var remaining := spacingMs - (dispatchAt - lastRequestAt.value);
        if remaining > 0 {
          slept := remaining;
        }
      }
      lastRequestAt := Some(dispatchAt);
    }
  }

  // ----- Sequential calls over a clock that never runs back -----

  /** One call: when it read the clock, and when its request went out. */
  datatype Call = Call(reading: int, dispatch: int)

  function LastReading(calls: seq<Call>): Option<int> {
    if calls == [] then None else Some(calls[|calls| - 1].reading)
  }

  /** The call starts after the one before it went out, and goes out no earlier than its sleep ends. */
  predicate Follows(spacingMs: int, before: seq<Call>, call: Call) {
    && (before != [] ==> before[|before| - 1].dispatch <= call.reading)
    && call.reading + SleepBefore(spacingMs, LastReading(before), call.reading) <= call.dispatch
  }

  predicate IsTimeline(spacingMs: int, calls: seq<Call>) {
    forall i | 0 <= i < |calls| :: Follows(spacingMs, calls[..i], calls[i])
  }

  lemma TimelineGrows(spacingMs: int, calls: seq<Call>, call: Call)
    requires IsTimeline(spacingMs, calls) && Follows(spacingMs, calls, call)
    ensures IsTimeline(spacingMs, calls + [call])
  {
    var all := calls + [call];
    forall i | 0 <= i < |all|
      ensures Follows(spacingMs, all[..i], all[i])
    {
      assert all[..i] == calls[..i];
    }
    assert calls[..|calls|] == calls;
  }

  lemma NextDispatch(spacingMs: int, calls: seq<Call>, i: nat)
    requires IsTimeline(spacingMs, calls) && i + 1 < |calls|
    ensures calls[i].dispatch <= calls[i + 1].reading <= calls[i + 1].dispatch
    ensures calls[i + 1].dispatch >= calls[i].reading + spacingMs
  {
    assert Follows(spacingMs, calls[..i + 1], calls[i + 1]);
    assert calls[..i + 1][i] == calls[i];
  }

  /** Dispatches two apart are a whole spacing apart. */
  lemma DispatchesTwoApart(spacingMs: int, calls: seq<Call>, i: nat)
    requires IsTimeline(spacingMs, calls) && i + 2 < |calls|
    ensures calls[i + 2].dispatch >= calls[i].dispatch + spacingMs
  {
    NextDispatch(spacingMs, calls, i);
    NextDispatch(spacingMs, calls, i + 1);
  }

  /**
   * The n-th dispatch after the first comes at least floor(n/2) spacings after it,
   * and ceil(n/2) after the first reading.
   */
  lemma {:induction false} PacingBound(spacingMs: int, calls: seq<Call>, n: nat)
    requires IsTimeline(spacingMs, calls) && n < |calls| && spacingMs >= 0
    ensures calls[n].dispatch >= calls[0].dispatch + (n / 2) * spacingMs
    ensures calls[n].dispatch >= calls[0].reading + ((n + 1) / 2) * spacingMs
  {
    assert Follows(spacingMs, calls[..0], calls[0]);
    if n == 1 {
      NextDispatch(spacingMs, calls, 0);
    } else if n > 1 {
      PacingBound(spacingMs, calls, n - 2);
      DispatchesTwoApart(spacingMs, calls, n - 2);
      OneMoreSpacing(n / 2, spacingMs);
      OneMoreSpacing((n + 1) / 2, spacingMs);
      assert (n - 2) / 2 == n / 2 - 1 && (n - 2 + 1) / 2 == (n + 1) / 2 - 1;
    }
  }

  lemma OneMoreSpacing(k: nat, spacingMs: int)
    requires k > 0
    ensures k * spacingMs == (k - 1) * spacingMs + spacingMs
  {
  }

  // ----- The bounds are attained -----

  /** Calls that start as soon as they can and go out when their sleep ends; the first goes out `late`. */
  function Tight(spacingMs: int, late: int, n: nat): seq<Call> {
    if n == 0 then [Call(0, late)]
    else
      var before := Tight(spacingMs, late, n - 1);
      var reading := before[|before| - 1].dispatch;
      before + [Call(reading, reading + SleepBefore(spacingMs, LastReading(before), reading))]
  }

  lemma {:induction false} TightIsTimeline(spacingMs: int, late: int, n: nat)
    requires late >= 0
    ensures |Tight(spacingMs, late, n)| == n + 1 && IsTimeline(spacingMs, Tight(spacingMs, late, n))
    ensures Tight(spacingMs, late, n)[0] == Call(0, late)
  {
    if n == 0 {
      assert Tight(spacingMs, late, 0)[..0] == [];
    } else {
      TightIsTimeline(spacingMs, late, n - 1);
      var before := Tight(spacingMs, late, n - 1);
      TimelineGrows(spacingMs, before, Tight(spacingMs, late, n)[n]);
    }
  }

  lemma {:induction false} TightTimes(spacingMs: int, late: int, n: nat)
    requires spacingMs >= 0 && (late == 0 || late == spacingMs)
    ensures var calls := Tight(spacingMs, late, n);
            && |calls| == n + 1
            && calls[n].dispatch == late + ((if late == 0 then n + 1 else n) / 2) * spacingMs
            && calls[n].dispatch - calls[n].reading
               == (if (n % 2 == 1) == (late == 0) then (if n == 0 then late else spacingMs) else 0)
  {
    if n > 0 {
      TightTimes(spacingMs, late, n - 1);
      var m := if late == 0 then n + 1 else n;
      if m % 2 == 0 {
        OneMoreSpacing(m / 2, spacingMs);
        assert (m - 1) / 2 == m / 2 - 1;
      } else {
        assert (m - 1) / 2 == m / 2;
      }
    }
  }

  /**
   * For every spacing and every n, one timeline attains the bound from the first
   * dispatch, another that from the first reading.
   */
  lemma PacingBoundIsAttained(spacingMs: int, n: nat)
    requires spacingMs >= 0
    ensures var calls := Tight(spacingMs, spacingMs, n);
            IsTimeline(spacingMs, calls) && |calls| == n + 1
            && calls[n].dispatch == calls[0].dispatch + (n / 2) * spacingMs
    ensures var calls := Tight(spacingMs, 0, n);
            IsTimeline(spacingMs, calls) && |calls| == n + 1
            && calls[n].dispatch == calls[0].reading + ((n + 1) / 2) * spacingMs
  {
    TightIsTimeline(spacingMs, spacingMs, n);
    TightTimes(spacingMs, spacingMs, n);
    TightIsTimeline(spacingMs, 0, n);
    TightTimes(spacingMs, 0, n);
  }

  // ----- Adjacent requests -----

  /**
   * The next request is sure to come a whole spacing after the last one exactly
   * when the last one went out at its own reading, without a sleep.
   */
  lemma AdjacentGapExactlyWhen(spacingMs: int, calls: seq<Call>)
    requires spacingMs > 0 && calls != [] && IsTimeline(spacingMs, calls)
    ensures var last := calls[|calls| - 1];
            (forall next | IsTimeline(spacingMs, calls + [next]) :: next.dispatch >= last.dispatch + spacingMs)
            <==> last.dispatch == last.reading
  {
    var n := |calls| - 1;
    var last := calls[n];
    assert Follows(spacingMs, calls[..n], last);
    if last.dispatch == last.reading {
      forall next | IsTimeline(spacingMs, calls + [next])
        ensures next.dispatch >= last.dispatch + spacingMs
      {
        NextDispatch(spacingMs, calls + [next], n);
      }
    } else {
      var wait := SleepBefore(spacingMs, LastReading(calls), last.dispatch);
      var next := Call(last.dispatch, last.dispatch + wait);
      TimelineGrows(spacingMs, calls, next);
      assert next.dispatch < last.dispatch + spacingMs;
    }
  }

  /** Two neighbours can even go out together: a call that has just slept leaves the next one nothing to wait for. */
  lemma NeighboursMayCoincide(spacingMs: int)
    requires spacingMs > 0
    ensures var calls := Tight(spacingMs, 0, 2);
            IsTimeline(spacingMs, calls) && |calls| == 3 && calls[2].dispatch == calls[1].dispatch
  {
    TightIsTimeline(spacingMs, 0, 1);
    TightIsTimeline(spacingMs, 0, 2);
    TightTimes(spacingMs, 0, 2);
  }
}
