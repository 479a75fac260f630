/** The additive-increase, multiplicative-decrease controller of the shared limiter. */
module Throttle {
  import opened Wrappers
  import opened Checkpoints
  import opened CheckpointStore
  import opened RunProtocol
  import opened Summary
  import Ingest
  import PageLoop

  const CONCURRENCY_FLOOR := 1
  const RATE_LIMITED_WINDOW := 2
  const CLEAN_WINDOW := 3
  const PACING_FLOOR_STEP_MS := 100

  datatype Signal = Limited | Clean

  datatype Bounds = Bounds(min: int, max: int) {
    function Floor(): int {
      if min < CONCURRENCY_FLOOR then CONCURRENCY_FLOOR else min
    }
  }

  datatype Controls = Controls(concurrency: int, pacingFloorMs: int, limitedStreak: nat, cleanStreak: nat)

  function AtLeast(low: int, n: int): int {
    if n < low then low else n
  }

  function AtMost(high: int, n: int): int {
    if n > high then high else n
  }

  function AfterSignal(b: Bounds, s: Controls, signal: Signal): Controls {
    match signal
    case Limited =>
      if s.limitedStreak + 1 < RATE_LIMITED_WINDOW then s.(cleanStreak := 0, limitedStreak := s.limitedStreak + 1)
      else Controls(AtLeast(b.Floor(), s.concurrency / 2), s.pacingFloorMs + PACING_FLOOR_STEP_MS, 0, 0)
    case Clean =>
      if s.cleanStreak + 1 < CLEAN_WINDOW then s.(limitedStreak := 0, cleanStreak := s.cleanStreak + 1)
      else s.(concurrency := AtMost(b.max, s.concurrency + 1), limitedStreak := 0, cleanStreak := 0)
  }

  class ThrottleController {
    const bounds: Bounds
    var concurrency: int
    var pacingFloorMs: int
    var rateLimitedStreak: nat
    var cleanStreak: nat
    var lastSignalAtMs: Option<int>

    constructor (baseConcurrency: int, baseSpacingMs: int, bounds: Bounds)
      ensures this.bounds == bounds && State() == Controls(baseConcurrency, baseSpacingMs, 0, 0)
      ensures lastSignalAtMs == None
    {
      this.bounds := bounds;
      concurrency, pacingFloorMs := baseConcurrency, baseSpacingMs;
      rateLimitedStreak, cleanStreak := 0, 0;
      lastSignalAtMs := None;
    }

    ghost function State(): Controls
      reads this
    {
      Controls(concurrency, pacingFloorMs, rateLimitedStreak, cleanStreak)
    }

    method OnRateLimited(nowMs: int)
      modifies this
      ensures State() == AfterSignal(bounds, old(State()), Limited) && lastSignalAtMs == Some(nowMs)
    {
      lastSignalAtMs := Some(nowMs);
      cleanStreak := 0;
      rateLimitedStreak := rateLimitedStreak + 1;
      if rateLimitedStreak < RATE_LIMITED_WINDOW {
        return;
      }
      rateLimitedStreak := 0;
      concurrency := AtLeast(bounds.Floor(), concurrency / 2);
      pacingFloorMs := pacingFloorMs + PACING_FLOOR_STEP_MS;
    }

    method OnCleanWindow(nowMs: int)
      modifies this
      ensures State() == AfterSignal(bounds, old(State()), Clean) && lastSignalAtMs == Some(nowMs)
    {
      lastSignalAtMs := Some(nowMs);
      rateLimitedStreak := 0;
      cleanStreak := cleanStreak + 1;
      if cleanStreak < CLEAN_WINDOW {
        return;
      }
      cleanStreak := 0;
      concurrency := AtMost(bounds.max, concurrency + 1);
    }
  }

  // ----- Closed form -----

  function AfterWord(b: Bounds, s: Controls, word: seq<Signal>): Controls {
    if word == [] then s else AfterSignal(b, AfterWord(b, s, word[..|word| - 1]), word[|word| - 1])
  }

  function Pow2(n: nat): (p: nat)
    ensures p > 0
  {
    if n == 0 then 1 else 2 * Pow2(n - 1)
  }

  function Times(signal: Signal, k: nat): (word: seq<Signal>)
    ensures |word| == k
  {
    seq(k, _ => signal)
  }

  lemma TimesGrows(signal: Signal, k: nat)
    requires k > 0
    ensures Times(signal, k)[..k - 1] == Times(signal, k - 1) && Times(signal, k)[k - 1] == signal
  {
  }

  lemma AtLeastOneTimes(d: int, n: int)
    requires d > 0 && n >= 1
    ensures d * n >= d
  {
  }

  lemma DivisionIsUnique(a: int, d: int, q: int, r: int)
    requires d > 0 && a == d * q + r && 0 <= r < d
    ensures a / d == q
  {
    var q', r' := a / d, a % d;
    assert a == d * q' + r' && 0 <= r' < d;
    assert d * (q - q') == d * q - d * q' == r' - r;
    if q > q' {
      AtLeastOneTimes(d, q - q');
    } else if q < q' {
      AtLeastOneTimes(d, q' - q);
    }
  }

  lemma HalvingAgain(c: int, p: int)
    requires p > 0
    ensures (c / p) / 2 == c / (2 * p)
  {
    var q, r := c / p, c % p;
    var h, e := q / 2, q % 2;
    assert c == p * q + r && q == 2 * h + e;
    assert p * q == 2 * p * h + p * e;
    DivisionIsUnique(c, 2 * p, h, p * e + r);
  }

  /** A block of rate-limited signals halves once for every two of them, never below the floor. */
  lemma {:induction false} LimitedBlock(b: Bounds, s: Controls, k: nat)
    requires s.limitedStreak == 0 && b.Floor() <= s.concurrency
    ensures AfterWord(b, s, Times(Limited, k)) ==
            if k == 0 then s
            else Controls(AtLeast(b.Floor(), s.concurrency / Pow2(k / 2)),
                          s.pacingFloorMs + PACING_FLOOR_STEP_MS * (k / 2), k % 2, 0)
    decreases k
  {
    if k > 0 {
      TimesGrows(Limited, k);
      LimitedBlock(b, s, k - 1);
      if k % 2 == 0 {
        var j := (k - 1) / 2;
        assert k / 2 == j + 1;
        HalvingAgain(s.concurrency, Pow2(j));
        HalvingBelowFloor(s.concurrency, j, b.Floor());
      } else {
        assert k / 2 == (k - 1) / 2;
      }
    }
  }

  lemma HalvingBelowFloor(c: int, j: nat, floor: int)
    requires floor >= 1
    ensures c / Pow2(j) < floor ==> c / Pow2(j) / 2 <= floor
  {
  }

  /** A block of clean signals adds one for every three of them, never above the maximum. */
  lemma {:induction false} CleanBlock(b: Bounds, s: Controls, k: nat)
    requires s.cleanStreak == 0 && s.concurrency <= b.max
    ensures AfterWord(b, s, Times(Clean, k)) ==
            if k == 0 then s
            else Controls(AtMost(b.max, s.concurrency + k / 3), s.pacingFloorMs, 0, k % 3)
    decreases k
  {
    if k > 0 {
      TimesGrows(Clean, k);
      CleanBlock(b, s, k - 1);
    }
  }

  datatype Block = Block(signal: Signal, length: nat)

  function Spell(blocks: seq<Block>): seq<Signal> {
    if blocks == [] then []
    else
      var last := blocks[|blocks| - 1];
      Spell(blocks[..|blocks| - 1]) + Times(last.signal, last.length)
  }

  /** The blocks are maximal: none is empty, and no two neighbours have the same signal. */
  predicate Maximal(blocks: seq<Block>) {
    && (forall i | 0 <= i < |blocks| :: blocks[i].length > 0)
    && (forall i | 0 < i < |blocks| :: blocks[i].signal != blocks[i - 1].signal)
  }

  function ConcurrencyAfter(b: Bounds, baseConcurrency: int, blocks: seq<Block>): int {
    if blocks == [] then baseConcurrency
    else
      var n := |blocks| - 1;
      var c := ConcurrencyAfter(b, baseConcurrency, blocks[..n]);
      match blocks[n].signal
      case Limited => AtLeast(b.Floor(), c / Pow2(blocks[n].length / 2))
      case Clean => AtMost(b.max, c + blocks[n].length / 3)
  }

  function Halvings(blocks: seq<Block>): nat {
    if blocks == [] then 0
    else
      var n := |blocks| - 1;
      Halvings(blocks[..n]) + if blocks[n].signal == Limited then blocks[n].length / 2 else 0
  }

  lemma {:induction false} WordsCompose(b: Bounds, s: Controls, v: seq<Signal>, w: seq<Signal>)
    ensures AfterWord(b, s, v + w) == AfterWord(b, AfterWord(b, s, v), w)
    decreases |w|
  {
    if w == [] {
      assert v + w == v;
    } else {
      var n := |w| - 1;
      WordsCompose(b, s, v, w[..n]);
      assert (v + w)[..|v + w| - 1] == v + w[..n];
    }
  }

  lemma HalvingShrinks(c: int, p: int)
    requires c >= 0 && p >= 1
    ensures c / p <= c
  {
    var q, r := c / p, c % p;
    assert c == p * q + r;
  }

  /**
   * After any signal word, cut into its maximal blocks: the concurrency follows
   * from block to block, within its bounds, and the pacing floor has risen once
   * per halving.
   */
  lemma {:induction false} ThrottleClosedForm(b: Bounds, baseConcurrency: int, baseSpacingMs: int, blocks: seq<Block>)
    requires b.Floor() <= baseConcurrency <= b.max && Maximal(blocks)
    ensures var s := AfterWord(b, Controls(baseConcurrency, baseSpacingMs, 0, 0), Spell(blocks));
            && s.concurrency == ConcurrencyAfter(b, baseConcurrency, blocks)
            && b.Floor() <= s.concurrency <= b.max
            && s.pacingFloorMs == baseSpacingMs + 100 * Halvings(blocks)
            && (blocks == [] || blocks[|blocks| - 1].signal == Clean ==> s.limitedStreak == 0)
            && (blocks == [] || blocks[|blocks| - 1].signal == Limited ==> s.cleanStreak == 0)
  {
    if blocks != [] {
      var n := |blocks| - 1;
      var start := Controls(baseConcurrency, baseSpacingMs, 0, 0);
      ThrottleClosedForm(b, baseConcurrency, baseSpacingMs, blocks[..n]);
      var s := AfterWord(b, start, Spell(blocks[..n]));
      WordsCompose(b, start, Spell(blocks[..n]), Times(blocks[n].signal, blocks[n].length));
      assert n > 0 ==> blocks[n].signal != blocks[n - 1].signal;
      if blocks[n].signal == Limited {
        LimitedBlock(b, s, blocks[n].length);
        HalvingShrinks(s.concurrency, Pow2(blocks[n].length / 2));
      } else {
        CleanBlock(b, s, blocks[n].length);
      }
    }
  }

  /** Every signal word has its maximal blocks. */
  lemma {:induction false} EveryWordHasBlocks(word: seq<Signal>) returns (blocks: seq<Block>)
    ensures Maximal(blocks) && Spell(blocks) == word
    decreases |word|
  {
    blocks := [];
    if word != [] {
      var n, signal := |word| - 1, word[|word| - 1];
      var before := EveryWordHasBlocks(word[..n]);
      var m := |before| - 1;
      if before != [] && before[m].signal == signal {
        var grown := before[m].(length := before[m].length + 1);
        blocks := before[..m] + [grown];
        assert Times(signal, grown.length) == Times(signal, before[m].length) + [signal];
        assert blocks[..m] == before[..m];
      } else {
        blocks := before + [Block(signal, 1)];
        assert blocks[..m + 1] == before && Times(signal, 1) == [signal];
      }
      assert Spell(blocks) == Spell(before) + [signal] && word == word[..n] + [signal];
    }
  }

  /** So the closed form is that of any word. */
  lemma ThrottleAfterAnyWord(b: Bounds, baseConcurrency: int, baseSpacingMs: int, word: seq<Signal>)
    returns (blocks: seq<Block>)
    requires b.Floor() <= baseConcurrency <= b.max
    ensures Maximal(blocks) && Spell(blocks) == word
    ensures var s := AfterWord(b, Controls(baseConcurrency, baseSpacingMs, 0, 0), word);
            && s.concurrency == ConcurrencyAfter(b, baseConcurrency, blocks)
            && b.Floor() <= s.concurrency <= b.max
            && s.pacingFloorMs == baseSpacingMs + 100 * Halvings(blocks)
  {
    blocks := EveryWordHasBlocks(word);
    ThrottleClosedForm(b, baseConcurrency, baseSpacingMs, blocks);
  }

  // ----- Under the page loop -----

  predicate IsRateLimited(report: DiscoveryReport) {
    DeriveSourceFailure(report).Some? && DeriveSourceFailure(report).value.classification == RateLimited
  }

  /** The signals a run's page loop gives its controller. */
  ghost function SignalsOf(conf: RunConf, s: PageLoop.Loop, turns: seq<PageLoop.PageTurn>): seq<Signal>
    requires forall turn <- turns :: |turn.write| == MAX_CAS_ROUNDS
    decreases |turns|
  {
    if !CapAllows(conf, s.lastCompletedPage) || turns == [] then []
    else
      var turn := turns[0];
      if !turn.report.ok then (if IsRateLimited(turn.report) then [Limited] else [])
      else if turn.report.candidates == [] then []
      else if !Ingest.Completes(turn.Page(), s.stores, turn.actions)
              || IsAllDuplicate(PageLoop.CountsOfPage(s, turn)) then [Clean]
      else
        assert turn in turns;
        [Clean] + SignalsOf(conf, PageLoop.CompletePage(conf, s, turn), turns[1..])
  }

  /** One clean signal per page, and at most one rate-limited one, which is the last. */
  lemma {:induction false} RunSignals(conf: RunConf, s: PageLoop.Loop, turns: seq<PageLoop.PageTurn>)
    returns (n: nat, limited: bool)
    requires forall turn <- turns :: |turn.write| == MAX_CAS_ROUNDS
    ensures SignalsOf(conf, s, turns) == Times(Clean, n) + if limited then [Limited] else []
    decreases |turns|
  {
    var word := SignalsOf(conf, s, turns);
    if |word| > 0 && word[0] == Clean {
      var turn := turns[0];
      assert turn in turns;
      var m := 0;
      limited := false;
      if Ingest.Completes(turn.Page(), s.stores, turn.actions) && !IsAllDuplicate(PageLoop.CountsOfPage(s, turn)) {
        m, limited := RunSignals(conf, PageLoop.CompletePage(conf, s, turn), turns[1..]);
      }
      n := m + 1;
      assert [Clean] + Times(Clean, m) == Times(Clean, n);
    } else {
      n, limited := 0, word != [];
    }
  }

  lemma CleanWordKeepsCap(concurrency: int, spacingMs: int, n: nat, limited: bool, i: nat)
    requires concurrency >= 1 && i <= n + if limited then 1 else 0
    ensures var word := Times(Clean, n) + if limited then [Limited] else [];
            var after := AfterWord(Bounds(CONCURRENCY_FLOOR, concurrency), Controls(concurrency, spacingMs, 0, 0),
                                   word[..i]);
            after.concurrency == concurrency && after.pacingFloorMs == spacingMs
  {
    var b, start := Bounds(CONCURRENCY_FLOOR, concurrency), Controls(concurrency, spacingMs, 0, 0);
    var word := Times(Clean, n) + if limited then [Limited] else [];
    CleanBlock(b, start, if i <= n then i else n);
    if i <= n {
      assert word[..i] == Times(Clean, i);
    } else {
      assert word[..i] == Times(Clean, n) + [Limited] && word[..i][..n] == Times(Clean, n);
    }
  }

  /** So the limiter's cap is the configured concurrency after every signal of every run. */
  lemma CapStaysConfigured(concurrency: int, spacingMs: int, conf: RunConf, s: PageLoop.Loop,
                           turns: seq<PageLoop.PageTurn>, i: nat)
    requires concurrency >= 1 && forall turn <- turns :: |turn.write| == MAX_CAS_ROUNDS
    requires i <= |SignalsOf(conf, s, turns)|
    ensures var after := AfterWord(Bounds(CONCURRENCY_FLOOR, concurrency), Controls(concurrency, spacingMs, 0, 0),
                                   SignalsOf(conf, s, turns)[..i]);
            after.concurrency == concurrency && after.pacingFloorMs == spacingMs
  {
    var n, limited := RunSignals(conf, s, turns);
    CleanWordKeepsCap(concurrency, spacingMs, n, limited, i);
  }
}
