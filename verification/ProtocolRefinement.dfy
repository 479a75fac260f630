/**
 * The page loop, taken whole, is one of the protocol's histories, whatever the
 * other runs do to the object between two of its requests.
 */
module ProtocolRefinement {
  import opened CheckpointStore
  import opened RunProtocol
  import opened Wrappers
  import L = PageLoop
  import Ingest

  function CursorOf(s: L.Loop): Cursor {
    Cursor(s.etag, s.lastCompletedPage, s.pages)
  }

  /** In `later` the run has moved on; other runs may have moved too, and pages may have been ingested. */
  ghost predicate RunMoves(w: World, later: World, run: nat, stored: StoredObject, phase: Phase)
    requires run in w.runs
  {
    && later.stored == stored
    && run in later.runs && later.runs[run] == w.runs[run].(phase := phase)
    && w.ingested <= later.ingested
  }

  lemma {:induction false} HistoriesCompose(w: World, a: seq<Step>, b: seq<Step>)
    requires Possible(w, a) && Possible(Outcome(w, a), b)
    ensures Possible(w, a + b) && Outcome(w, a + b) == Outcome(Outcome(w, a), b)
    decreases |a|
  {
    if a == [] {
      assert a + b == b;
    } else {
      HistoriesCompose(Next(w, a[0]), a[1..], b);
      StepThen(w, a[0], a[1..] + b);
      assert a + b == [a[0]] + (a[1..] + b);
    }
  }

  lemma OneStep(w: World, step: Step)
    requires Enabled(w, step)
    ensures Possible(w, [step]) && Outcome(w, [step]) == Next(w, step)
  {
    StepThen(w, step, []);
    assert [step] + [] == [step];
  }

  // ----- What the other runs do -----

  predicate ByOthers(run: nat, steps: seq<Step>) {
    forall step <- steps :: step.run != run
  }

  lemma {:induction false} OthersKeepRun(w: World, run: nat, steps: seq<Step>)
    requires run in w.runs && Possible(w, steps) && ByOthers(run, steps)
    ensures var later := Outcome(w, steps);
            run in later.runs && later.runs[run] == w.runs[run] && w.ingested <= later.ingested
    decreases |steps|
  {
    if steps != [] {
      assert steps[0] in steps && forall step <- steps[1..] :: step in steps;
      OthersKeepRun(Next(w, steps[0]), run, steps[1..]);
    }
  }

  /** The steps are a history of other runs, and leave the object as the script has it. */
  ghost predicate OthersLeave(w: World, run: nat, steps: seq<Step>, left: Option<StoredObject>) {
    Possible(w, steps) && ByOthers(run, steps) && Outcome(w, steps).stored == Interfered(w.stored, left)
  }

  /** The histories of the other runs before a round's PUT and before its re-read. */
  datatype Interlude = Interlude(beforePut: seq<Step>, beforeRead: seq<Step>)

  /** After the PUT of the round the run is in, the other runs having gone first. */
  ghost function AfterPut(w: World, run: nat, write: seq<Turn>, others: seq<Interlude>): World
    requires run in w.runs && w.runs[run].phase.Putting? && w.runs[run].phase.cas.round < |write| == |others|
    requires var i := w.runs[run].phase.cas.round; OthersLeave(w, run, others[i].beforePut, write[i].beforePut)
  {
    var i := w.runs[run].phase.cas.round;
    OthersKeepRun(w, run, others[i].beforePut);
    Next(Outcome(w, others[i].beforePut), PutRequest(run, write[i].put))
  }

  /** After the re-read of round `i`, likewise. */
  ghost function AfterRead(w: World, run: nat, turn: Turn, other: Interlude): World
    requires run in w.runs && w.runs[run].phase.Rereading? && OthersLeave(w, run, other.beforeRead, turn.beforeRead)
  {
    OthersKeepRun(w, run, other.beforeRead);
    Next(Outcome(w, other.beforeRead), RereadRequest(run, turn.read))
  }

  ghost predicate InRound(w: World, run: nat, write: seq<Turn>, others: seq<Interlude>) {
    && run in w.runs && w.runs[run].phase.Putting?
    && w.runs[run].phase.cas.round < MAX_CAS_ROUNDS == |write| == |others|
  }

  /** Every interference that the call's script has is what some history of the other runs leaves. */
  ghost predicate Explains(w: World, run: nat, write: seq<Turn>, others: seq<Interlude>)
    requires InRound(w, run, write, others)
    decreases MAX_CAS_ROUNDS - w.runs[run].phase.cas.round
  {
    var i := w.runs[run].phase.cas.round;
    && OthersLeave(w, run, others[i].beforePut, write[i].beforePut)
    && var lost := AfterPut(w, run, write, others);
       run in lost.runs && lost.runs[run].phase.Rereading? ==>
         && OthersLeave(lost, run, others[i].beforeRead, write[i].beforeRead)
         && var again := AfterRead(lost, run, write[i], others[i]);
            InRound(again, run, write, others) ==>
              again.runs[run].phase.cas.round > i && Explains(again, run, write, others)
  }

  /** The world when the call is over. */
  ghost function AfterCall(w: World, run: nat, write: seq<Turn>, others: seq<Interlude>): World
    requires InRound(w, run, write, others) && Explains(w, run, write, others)
    decreases MAX_CAS_ROUNDS - w.runs[run].phase.cas.round
  {
    var i := w.runs[run].phase.cas.round;
    var lost := AfterPut(w, run, write, others);
    if !(run in lost.runs && lost.runs[run].phase.Rereading?) then lost
    else
      var again := AfterRead(lost, run, write[i], others[i]);
      if InRound(again, run, write, others) then AfterCall(again, run, write, others) else again
  }

  /** The other runs, then one step of the run. */
  lemma StepAfterOthers(w: World, run: nat, others: seq<Step>, step: Step) returns (steps: seq<Step>)
    requires run in w.runs && Possible(w, others) && ByOthers(run, others) && Enabled(Outcome(w, others), step)
    ensures Possible(w, steps) && Outcome(w, steps) == Next(Outcome(w, others), step)
  {
    StepAfter(w, others, step);
    steps := others + [step];
  }

  /**
   * The loop's own step in a round: what the run holds and what is stored are as
   * the round-by-round specification has it.
   */
  lemma RoundOfCall(w: World, run: nat, write: seq<Turn>, others: seq<Interlude>)
    requires InRound(w, run, write, others) && Explains(w, run, write, others)
    ensures var Putting(cursor, cas, goal) := w.runs[run].phase;
            var call := WriteFrom(w.stored, cas, w.runs[run].conf.conditionalWrites, write);
            var lost := AfterPut(w, run, write, others);
            && run in lost.runs && lost.runs[run].conf == w.runs[run].conf && w.ingested <= lost.ingested
            && (lost.runs[run].phase.Rereading? ==>
                  var again := AfterRead(lost, run, write[cas.round], others[cas.round]);
                  && run in again.runs && again.runs[run].conf == w.runs[run].conf && w.ingested <= again.ingested
                  && (InRound(again, run, write, others) ==>
                        var Putting(cursor', cas', goal') := again.runs[run].phase;
                        var rest := WriteFrom(again.stored, cas', w.runs[run].conf.conditionalWrites, write);
                        cursor' == cursor && goal' == goal
                        && call.stored == rest.stored && call.outcome == rest.outcome)
                  && (!InRound(again, run, write, others) ==>
                        again.stored == call.stored && again.runs[run].phase == AfterWrite(cursor, goal, call.outcome)))
            && (!lost.runs[run].phase.Rereading? ==>
                  lost.stored == call.stored && lost.runs[run].phase == AfterWrite(cursor, goal, call.outcome))
  {
    var i := w.runs[run].phase.cas.round;
    OthersKeepRun(w, run, others[i].beforePut);
    var lost := AfterPut(w, run, write, others);
    if lost.runs[run].phase.Rereading? {
      OthersKeepRun(lost, run, others[i].beforeRead);
    }
  }

  /** One write call, from its current round on. */
  lemma {:induction false} WriteSteps(w: World, run: nat, write: seq<Turn>, others: seq<Interlude>)
    returns (steps: seq<Step>)
    requires InRound(w, run, write, others) && Explains(w, run, write, others)
    ensures Possible(w, steps) && Outcome(w, steps) == AfterCall(w, run, write, others)
    ensures var Putting(cursor, cas, goal) := w.runs[run].phase;
            var call := WriteFrom(w.stored, cas, w.runs[run].conf.conditionalWrites, write);
            RunMoves(w, AfterCall(w, run, write, others), run, call.stored, AfterWrite(cursor, goal, call.outcome))
    decreases MAX_CAS_ROUNDS - w.runs[run].phase.cas.round
  {
    var i := w.runs[run].phase.cas.round;
    RoundOfCall(w, run, write, others);
    OthersKeepRun(w, run, others[i].beforePut);
    steps := StepAfterOthers(w, run, others[i].beforePut, PutRequest(run, write[i].put));
    var lost := AfterPut(w, run, write, others);
    if lost.runs[run].phase.Rereading? {
      OthersKeepRun(lost, run, others[i].beforeRead);
      var more := StepAfterOthers(lost, run, others[i].beforeRead, RereadRequest(run, write[i].read));
      HistoriesCompose(w, steps, more);
      steps := steps + more;
      var again := AfterRead(lost, run, write[i], others[i]);
      if InRound(again, run, write, others) {
        var rest := WriteSteps(again, run, write, others);
        HistoriesCompose(w, steps, rest);
        steps := steps + rest;
      }
    }
  }

  // ----- The loop -----

  ghost function Gathering(run: nat, s: L.Loop, turn: L.PageTurn): Step
    requires Ingest.Completes(turn.Page(), s.stores, turn.actions)
  {
    PageIngested(run, L.CountsOfPage(s, turn), turn.now)
  }

  /** The run is at the top of the loop, in the state that the loop is in. */
  ghost predicate AtLoop(w: World, run: nat, s: L.Loop) {
    run in w.runs && w.runs[run].phase == AtTop(CursorOf(s)) && w.stored == s.stored
  }

  /** The first page is gathered, and every interference in its checkpoint's write is a history of the other runs. */
  ghost predicate PageExplained(w: World, run: nat, s: L.Loop, turn: L.PageTurn, others: seq<Interlude>)
    requires AtLoop(w, run, s)
  {
    && CapAllows(w.runs[run].conf, s.lastCompletedPage)
    && Ingest.Completes(turn.Page(), s.stores, turn.actions)
    && |turn.write| == MAX_CAS_ROUNDS == |others|
    && Explains(Next(w, Gathering(run, s, turn)), run, turn.write, others)
  }

  ghost function AfterPage(w: World, run: nat, s: L.Loop, turn: L.PageTurn, others: seq<Interlude>): World
    requires AtLoop(w, run, s) && PageExplained(w, run, s, turn, others)
  {
    AfterCall(Next(w, Gathering(run, s, turn)), run, turn.write, others)
  }

  /** Gathering the page readies the checkpoint that the loop writes. */
  lemma GatheringReadies(w: World, run: nat, s: L.Loop, turn: L.PageTurn)
    requires AtLoop(w, run, s) && CapAllows(w.runs[run].conf, s.lastCompletedPage)
    requires Ingest.Completes(turn.Page(), s.stores, turn.actions) && |turn.write| == MAX_CAS_ROUNDS
    ensures Enabled(w, Gathering(run, s, turn))
    ensures var conf, putting, counts := w.runs[run].conf, Next(w, Gathering(run, s, turn)), L.CountsOfPage(s, turn);
            && putting.stored == s.stored && w.ingested + {s.lastCompletedPage + 1} == putting.ingested
            && putting.runs[run].conf == conf && putting.runs[run].phase.Putting?
            && var Putting(cursor, cas, goal) := putting.runs[run].phase;
               var call := WriteFrom(s.stored, cas, conf.conditionalWrites, turn.write);
               var next := L.CompletePage(conf, s, turn);
               && cas.round == 0 && next.stored == call.stored && next.lastCompletedPage == s.lastCompletedPage + 1
               && AfterWrite(cursor, goal, call.outcome)
                  == if IsAllDuplicate(counts) then Stopped(CursorOf(next)) else AtTop(CursorOf(next))
  {
  }

  /** One page that is gathered and checkpointed. */
  lemma PageSteps(w: World, run: nat, s: L.Loop, turn: L.PageTurn, others: seq<Interlude>) returns (steps: seq<Step>)
    requires AtLoop(w, run, s) && PageExplained(w, run, s, turn, others)
    ensures Possible(w, steps) && Outcome(w, steps) == AfterPage(w, run, s, turn, others)
    ensures var next, there := L.CompletePage(w.runs[run].conf, s, turn), AfterPage(w, run, s, turn, others);
            var phase := if IsAllDuplicate(L.CountsOfPage(s, turn)) then Stopped(CursorOf(next))
                         else AtTop(CursorOf(next));
            RunMoves(w, there, run, next.stored, phase) && next.lastCompletedPage in there.ingested
  {
    var ingest := Gathering(run, s, turn);
    GatheringReadies(w, run, s, turn);
    OneStep(w, ingest);
    var putting := Next(w, ingest);
    var rest := WriteSteps(putting, run, turn.write, others);
    HistoriesCompose(w, [ingest], rest);
    steps := [ingest] + rest;
  }

  predicate AllScripted(turns: seq<L.PageTurn>) {
    forall turn <- turns :: |turn.write| == MAX_CAS_ROUNDS
  }

  ghost predicate FirstPageCompletes(conf: RunConf, s: L.Loop, turns: seq<L.PageTurn>) {
    && CapAllows(conf, s.lastCompletedPage) && turns != []
    && turns[0].report.ok && turns[0].report.candidates != []
    && Ingest.Completes(turns[0].Page(), s.stores, turns[0].actions)
  }

  /** Every interference of the loop's scripts is a history of the other runs, page after page. */
  ghost predicate LoopExplained(w: World, run: nat, s: L.Loop, turns: seq<L.PageTurn>, others: seq<seq<Interlude>>)
    requires AtLoop(w, run, s) && AllScripted(turns)
    decreases |turns|
  {
    FirstPageCompletes(w.runs[run].conf, s, turns) ==>
      && others != [] && PageExplained(w, run, s, turns[0], others[0])
      && (L.GoesOn(w.runs[run].conf, s, turns) ==>
            assert turns[0] in turns;
            var next, there := L.CompletePage(w.runs[run].conf, s, turns[0]), AfterPage(w, run, s, turns[0], others[0]);
            AtLoop(there, run, next) && LoopExplained(there, run, next, turns[1..], others[1..]))
  }

  /** The phase a run is in when its page loop has stopped. */
  function PhaseAtEnd(run: L.LoopRun): Phase {
    match run.stop
    case Cut => AtTop(CursorOf(run.loop))
    case EmptyPage => Stopped(CursorOf(run.loop))
    case AllDuplicate => Stopped(CursorOf(run.loop))
    case _ => Ended
  }

  /** The history takes the run from page `from` to where the loop ended, and gathers every page in between. */
  ghost predicate MovesTo(w: World, run: nat, from: nat, end: L.LoopRun, steps: seq<Step>)
    requires run in w.runs
  {
    && Possible(w, steps)
    && RunMoves(w, Outcome(w, steps), run, end.loop.stored, PhaseAtEnd(end))
    && forall page | from < page <= end.loop.lastCompletedPage :: page in Outcome(w, steps).ingested
  }

  /** The step with which the loop stops at its top; none if the run just ends there. */
  ghost function StopStep(conf: RunConf, run: nat, s: L.Loop, turns: seq<L.PageTurn>): Option<Step> {
    if !CapAllows(conf, s.lastCompletedPage) then Some(CapReached(run))
    else if turns == [] then None
    else if !turns[0].report.ok then Some(PageFails(run))
    else if turns[0].report.candidates == [] then Some(PageEmpty(run))
    else Some(Crash(run))
  }

  /** The world when the loop has stopped. */
  ghost function AfterLoop(w: World, run: nat, s: L.Loop, turns: seq<L.PageTurn>, others: seq<seq<Interlude>>): World
    requires AtLoop(w, run, s) && AllScripted(turns) && LoopExplained(w, run, s, turns, others)
    decreases |turns|
  {
    var conf := w.runs[run].conf;
    if !FirstPageCompletes(conf, s, turns) then
      var step := StopStep(conf, run, s, turns);
      if step.None? then w else Next(w, step.value)
    else
      var there := AfterPage(w, run, s, turns[0], others[0]);
      if !L.GoesOn(conf, s, turns) then there
      else
        assert turns[0] in turns;
        AfterLoop(there, run, L.CompletePage(conf, s, turns[0]), turns[1..], others[1..])
  }

  lemma StopSteps(w: World, run: nat, s: L.Loop, turns: seq<L.PageTurn>) returns (steps: seq<Step>)
    requires AtLoop(w, run, s) && AllScripted(turns) && !FirstPageCompletes(w.runs[run].conf, s, turns)
    ensures MovesTo(w, run, s.lastCompletedPage, L.RunLoop(w.runs[run].conf, s, turns), steps)
    ensures var step := StopStep(w.runs[run].conf, run, s, turns);
            Outcome(w, steps) == if step.None? then w else Next(w, step.value)
  {
    var step := StopStep(w.runs[run].conf, run, s, turns);
    if step.None? {
      steps := [];
    } else {
      OneStep(w, step.value);
      steps := [step.value];
    }
  }

  /**
   * Whatever the other runs do between its requests, the page loop takes the
   * object and the run where a history of the protocol does, theirs woven in, and
   * that history has gathered every page the loop completed: what holds of all
   * histories holds of it.
   */
  lemma {:induction false} LoopIsAHistory(w: World, run: nat, s: L.Loop, turns: seq<L.PageTurn>,
                                          others: seq<seq<Interlude>>)
    returns (steps: seq<Step>)
    requires AtLoop(w, run, s) && AllScripted(turns) && LoopExplained(w, run, s, turns, others)
    ensures MovesTo(w, run, s.lastCompletedPage, L.RunLoop(w.runs[run].conf, s, turns), steps)
    ensures Outcome(w, steps) == AfterLoop(w, run, s, turns, others)
    decreases |turns|
  {
    var conf := w.runs[run].conf;
    if !FirstPageCompletes(conf, s, turns) {
      steps := StopSteps(w, run, s, turns);
    } else {
      assert turns[0] in turns;
      steps := PageSteps(w, run, s, turns[0], others[0]);
      if L.GoesOn(conf, s, turns) {
        L.LoopGoesOn(conf, s, turns);
        var next, there := L.CompletePage(conf, s, turns[0]), AfterPage(w, run, s, turns[0], others[0]);
        var rest := LoopIsAHistory(there, run, next, turns[1..], others[1..]);
        MovesOn(w, run, s.lastCompletedPage, L.RunLoop(conf, next, turns[1..]), steps, next, rest);
        steps := steps + rest;
      }
    }
  }

  lemma MovesOn(w: World, run: nat, from: nat, end: L.LoopRun, steps: seq<Step>, next: L.Loop, rest: seq<Step>)
    requires run in w.runs && Possible(w, steps)
    requires RunMoves(w, Outcome(w, steps), run, next.stored, AtTop(CursorOf(next)))
    requires next.lastCompletedPage == from + 1 && next.lastCompletedPage in Outcome(w, steps).ingested
    requires MovesTo(Outcome(w, steps), run, next.lastCompletedPage, end, rest)
    ensures MovesTo(w, run, from, L.ReadMore(end, 1), steps + rest)
    ensures Outcome(w, steps + rest) == Outcome(Outcome(w, steps), rest)
  {
    HistoriesCompose(w, steps, rest);
  }

  /** In particular, what the loop leaves stored is safe, whatever history led up to it. */
  lemma LoopStoresSafely(w: World, before: seq<Step>, run: nat, s: L.Loop, turns: seq<L.PageTurn>,
                         others: seq<seq<Interlude>>)
    returns (steps: seq<Step>)
    requires Initial(w) && Possible(w, before) && AtLoop(Outcome(w, before), run, s)
    requires AllScripted(turns) && LoopExplained(Outcome(w, before), run, s, turns, others)
    ensures Possible(w, before + steps)
    ensures var stored := L.RunLoop(Outcome(w, before).runs[run].conf, s, turns).loop.stored;
            && Outcome(w, before + steps).stored == stored
            && (stored.Present? && stored.body.Parsed? ==>
                  var c := stored.body.checkpoint;
                  && (forall page :: page in c.pages <==> 1 <= page <= c.lastCompletedPage)
                  && c.discoveredLastPage == c.lastCompletedPage
                  && forall page | 1 <= page <= c.lastCompletedPage :: Gathers(w, before + steps, page))
  {
    steps := LoopIsAHistory(Outcome(w, before), run, s, turns, others);
    HistoriesCompose(w, before, steps);
    StoredCheckpointIsSafe(w, before + steps);
  }
}
