/** Bounded retry with full-jitter backoff. */
module Retry {
  import opened Wrappers
  import opened Checkpoints

  const BASE_DELAY_MS := 500
  const CAP_DELAY_MS := 30000

  function Exponential(round: nat): (d: nat)
    ensures d >= BASE_DELAY_MS
  {
    if round == 0 then BASE_DELAY_MS else 2 * Exponential(round - 1)
  }

  function CappedDelay(round: nat): nat {
    if Exponential(round) < CAP_DELAY_MS then Exponential(round) else CAP_DELAY_MS
  }

  /** A number from [0, 1). */
  type Random = r: real | 0.0 <= r < 1.0

  function FullJitterDelay(round: nat, random: Random): (delay: nat)
    ensures delay < CappedDelay(round)
    ensures delay as real <= random * CappedDelay(round) as real < (delay + 1) as real
  {
    JitterWithin(random, CappedDelay(round));
    (random * CappedDelay(round) as real).Floor
  }

  function TwoToThe(n: nat): nat {
    if n == 0 then 1 else 2 * TwoToThe(n - 1)
  }

  /** min(500 * 2^round, 30000): 500, 1000, 2000, 4000, 8000, 16000, and then the cap. */
  lemma {:induction false} CappedDelayDoubles(round: nat)
    ensures Exponential(round) == 500 * TwoToThe(round)
    ensures round <= 5 ==> CappedDelay(round) == 500 * TwoToThe(round)
    ensures round >= 6 ==> CappedDelay(round) == 30000
  {
    if round > 0 {
      CappedDelayDoubles(round - 1);
    }
  }

  /** Full jitter: every whole delay below the bound comes of some draw. */
  lemma EveryDelayIsDrawn(round: nat, delay: nat) returns (random: Random)
    requires delay < CappedDelay(round)
    ensures FullJitterDelay(round, random) == delay
  {
    var bound := CappedDelay(round);
    ShareIsBelowOne(delay as real, bound as real);
    random := delay as real / bound as real;
  }

  lemma ShareIsBelowOne(part: real, whole: real)
    requires 0.0 <= part < whole
    ensures 0.0 <= part / whole < 1.0 && part / whole * whole == part
  {
  }

  lemma JitterWithin(random: Random, bound: nat)
    requires bound > 0
    ensures 0 <= (random * bound as real).Floor < bound
  {
    assert 0.0 <= random * bound as real < bound as real;
  }

  datatype ReadFate<T> = Succeeds(value: T) | Fails(classification: Classification, retryAfterMs: Option<int>)

  /**
   * One round of the script: whether the signal has been aborted when it starts,
   * the read, the draw, an abort before or in the sleep.
   */
  datatype Round<T> = Round(abortedAtTop: bool, read: ReadFate<T>, random: Random, abortedInSleep: bool)

  predicate IsRetryable(classification: Classification) {
    classification == Transient || classification == RateLimited
  }

  /** Retry-After counts only for a rate-limited failure, and no more than the cap. */
  function ResolveDelay<T>(round: nat, r: Round<T>): (delay: nat)
    requires r.read.Fails?
    ensures FullJitterDelay(round, r.random) <= delay <= CAP_DELAY_MS
    ensures r.read.classification != RateLimited ==> delay == FullJitterDelay(round, r.random)
    ensures r.read.classification == RateLimited && r.read.retryAfterMs.Some? ==>
              (delay == CAP_DELAY_MS || r.read.retryAfterMs.value <= delay)
    ensures delay == FullJitterDelay(round, r.random) || delay == CAP_DELAY_MS || r.read.retryAfterMs == Some(delay)
    ensures delay == CAP_DELAY_MS ==>
              FullJitterDelay(round, r.random) == delay
              || (r.read.retryAfterMs.Some? && r.read.retryAfterMs.value >= delay)
  {
    var backoff := FullJitterDelay(round, r.random);
    if r.read.classification != RateLimited then backoff
    else
      var retryAfter := if r.read.retryAfterMs.Some? then r.read.retryAfterMs.value else 0;
      var wanted := if retryAfter > backoff then retryAfter else backoff;
      if wanted < CAP_DELAY_MS then wanted else CAP_DELAY_MS
  }

  datatype RetryEvent = RetryEvent(attempt: nat, delayMs: nat)

  datatype Outcome<T> = Returned(value: T) | Threw(classification: Classification) | Aborted

  /** Round `i` ended in a failure that is retried, and its sleep was not aborted. */
  predicate GoesOn<T>(rounds: nat -> Round<T>, i: nat) {
    !rounds(i).abortedAtTop && rounds(i).read.Fails? && rounds(i).read.classification != Permanent
    && !rounds(i).abortedInSleep
  }

  predicate EventsNumbered<T>(rounds: nat -> Round<T>, events: seq<RetryEvent>) {
    forall i | 0 <= i < |events| ::
      rounds(i).read.Fails? && rounds(i).read.classification != Permanent
      && events[i] == RetryEvent(i + 1, ResolveDelay(i, rounds(i)))
  }

  /**
   * At most one read more than `attempts`; every read but the last failed in a
   * way that is retried, with one event each, numbered from 1; the last read
   * decides, unless the signal is aborted first.
   */
  method WithRetry<T>(attempts: nat, rounds: nat -> Round<T>)
    returns (outcome: Outcome<T>, tries: nat, events: seq<RetryEvent>)
    ensures tries <= attempts + 1 && |events| <= attempts
    ensures EventsNumbered(rounds, events)
    ensures forall i | 0 <= i < tries - 1 :: GoesOn(rounds, i)
    ensures match outcome
            case Returned(value) =>
              && |events| == tries - 1 && !rounds(tries - 1).abortedAtTop
              && rounds(tries - 1).read == Succeeds(value)
            case Threw(classification) =>
              && |events| == tries - 1 && !rounds(tries - 1).abortedAtTop
              && rounds(tries - 1).read.Fails? && rounds(tries - 1).read.classification == classification
              && (classification != Permanent ==> tries == attempts + 1)
            case Aborted =>
              && |events| == tries
              && (rounds(tries).abortedAtTop || (tries > 0 && rounds(tries - 1).abortedInSleep))
  {
    var round := 0;
    tries, events := 0, [];
    while true
      invariant round == tries == |events| <= attempts
      invariant EventsNumbered(rounds, events)
      invariant forall i | 0 <= i < tries :: GoesOn(rounds, i)
      decreases attempts + 1 - round
    {
      if rounds(round).abortedAtTop {
        return Aborted, tries, events;
      }
      tries := tries + 1;
      match rounds(round).read {
        case Succeeds(value) => return Returned(value), tries, events;
        case Fails(classification, _) =>
          if !IsRetryable(classification) || round >= attempts {
            return Threw(classification), tries, events;
          }
          events := events + [RetryEvent(round + 1, ResolveDelay(round, rounds(round)))];
          if rounds(round).abortedInSleep {
            return Aborted, tries, events;
          }
      }
      round := round + 1;
    }
  }

  // ----- The time a call can wait -----

  function TotalDelay(events: seq<RetryEvent>): nat {
    if events == [] then 0 else TotalDelay(events[..|events| - 1]) + events[|events| - 1].delayMs
  }

  function SumOfCaps(rounds: nat): nat {
    if rounds == 0 then 0 else SumOfCaps(rounds - 1) + CappedDelay(rounds - 1)
  }

  /**
   * Every delay is within the cap; where no failure was rate limited, the total is
   * within the sum of the backoff bounds.
   */
  lemma {:induction false} RetryDelaysAreBounded<T>(rounds: nat -> Round<T>, events: seq<RetryEvent>)
    requires EventsNumbered(rounds, events)
    ensures forall event <- events :: event.delayMs <= CAP_DELAY_MS
    ensures TotalDelay(events) <= |events| * CAP_DELAY_MS
    ensures (forall i | 0 <= i < |events| :: rounds(i).read.classification == Transient) ==>
              TotalDelay(events) <= SumOfCaps(|events|)
  {
    if events != [] {
      var n := |events| - 1;
      RetryDelaysAreBounded(rounds, events[..n]);
      assert events[n].delayMs == ResolveDelay(n, rounds(n));
    }
  }
}
