/** A whole run, from the read it resumes from to its final write, is one of the protocol's histories. */
module RunRefinement {
  import opened CheckpointStore
  import opened RunProtocol
  import opened ProtocolRefinement
  import opened RunOnce
  import opened Summary
  import L = PageLoop
  import Ingest

  predicate NaturalEnd(stop: L.StopReason) {
    stop == L.EmptyPage || stop == L.AllDuplicate
  }

  /** What a run is given: its read, its pages, its final write, and the stores it finds. */
  datatype Script = Script(
    read: ReadFate,
    stores: Ingest.Stores,
    turns: seq<L.PageTurn>,
    now: string,
    write: seq<Turn>)

  /** What the other runs do during its pages' writes and during its final one. */
  datatype Company = Company(pages: seq<seq<Interlude>>, last: seq<Interlude>)

  ghost predicate Scripted(script: Script) {
    AllScripted(script.turns) && |script.write| == MAX_CAS_ROUNDS
  }

  ghost function StoredBy(conf: RunConf, stored: StoredObject, script: Script): StoredObject
    requires Scripted(script)
  {
    StoredAfterRun(conf, stored, script.read, script.stores, script.turns, script.now, script.write)
  }

  ghost predicate Begins(w: World, run: nat) {
    run in w.runs && w.runs[run].phase.Starting?
  }

  /** The loop's variables when the run's read has answered. */
  ghost function Begun(w: World, script: Script): L.Loop
    requires ReadCheckpoint(w.stored, script.read).Some?
  {
    StartLoop(ReadCheckpoint(w.stored, script.read).value, script.stores, w.stored)
  }

  lemma ReadBegins(w: World, run: nat, script: Script)
    requires Begins(w, run) && ReadCheckpoint(w.stored, script.read).Some?
    ensures Enabled(w, ReadStart(run, script.read))
    ensures AtLoop(Next(w, ReadStart(run, script.read)), run, Begun(w, script))
    ensures Next(w, ReadStart(run, script.read)).runs[run].conf == w.runs[run].conf
  {
  }

  ghost function EndOfLoop(w: World, run: nat, script: Script): L.LoopRun
    requires Begins(w, run) && Scripted(script) && ReadCheckpoint(w.stored, script.read).Some?
  {
    L.RunLoop(w.runs[run].conf, Begun(w, script), script.turns)
  }

  ghost predicate PagesExplained(w: World, run: nat, script: Script, company: Company)
    requires Begins(w, run) && Scripted(script) && ReadCheckpoint(w.stored, script.read).Some?
  {
    ReadBegins(w, run, script);
    LoopExplained(Next(w, ReadStart(run, script.read)), run, Begun(w, script), script.turns, company.pages)
  }

  ghost function WorldAfterLoop(w: World, run: nat, script: Script, company: Company): World
    requires Begins(w, run) && Scripted(script) && ReadCheckpoint(w.stored, script.read).Some?
    requires PagesExplained(w, run, script, company)
  {
    ReadBegins(w, run, script);
    AfterLoop(Next(w, ReadStart(run, script.read)), run, Begun(w, script), script.turns, company.pages)
  }

  /** The read, and then the loop. */
  lemma LoopSteps(w: World, run: nat, script: Script, company: Company) returns (steps: seq<Step>)
    requires Begins(w, run) && Scripted(script) && ReadCheckpoint(w.stored, script.read).Some?
    requires PagesExplained(w, run, script, company)
    ensures Possible(w, steps) && Outcome(w, steps) == WorldAfterLoop(w, run, script, company)
    ensures var end, there := EndOfLoop(w, run, script), WorldAfterLoop(w, run, script, company);
            && RunMoves(w, there, run, end.loop.stored, PhaseAtEnd(end))
            && forall page | Begun(w, script).lastCompletedPage < page <= end.loop.lastCompletedPage ::
                 page in there.ingested
  {
    var read := ReadStart(run, script.read);
    ReadBegins(w, run, script);
    OneStep(w, read);
    var rest := LoopIsAHistory(Next(w, read), run, Begun(w, script), script.turns, company.pages);
    HistoriesCompose(w, [read], rest);
    steps := [read] + rest;
  }

  lemma FinalizeIsNext(w: World, run: nat, script: Script, company: Company)
    requires Begins(w, run) && Scripted(script) && ReadCheckpoint(w.stored, script.read).Some?
    requires PagesExplained(w, run, script, company) && NaturalEnd(EndOfLoop(w, run, script).stop)
    ensures Enabled(WorldAfterLoop(w, run, script, company), Finalize(run, script.now))
  {
    var steps := LoopSteps(w, run, script, company);
  }

  ghost predicate FinalExplained(w: World, run: nat, script: Script, company: Company)
    requires Begins(w, run) && Scripted(script) && ReadCheckpoint(w.stored, script.read).Some?
    requires PagesExplained(w, run, script, company) && NaturalEnd(EndOfLoop(w, run, script).stop)
  {
    FinalizeIsNext(w, run, script, company);
    && |company.last| == MAX_CAS_ROUNDS
    && Explains(Next(WorldAfterLoop(w, run, script, company), Finalize(run, script.now)), run, script.write,
                company.last)
  }

  /** Every interference of the run's scripts is a history of the other runs. */
  ghost predicate RunExplained(w: World, run: nat, script: Script, company: Company) {
    && Begins(w, run) && Scripted(script)
    && (ReadCheckpoint(w.stored, script.read).Some? ==>
          && PagesExplained(w, run, script, company)
          && (NaturalEnd(EndOfLoop(w, run, script).stop) ==> FinalExplained(w, run, script, company)))
  }

  /** The final write, where the loop came to a natural end. */
  lemma FinalSteps(w: World, run: nat, end: L.LoopRun, now: string, write: seq<Turn>, others: seq<Interlude>)
    returns (steps: seq<Step>)
    requires run in w.runs && w.stored == end.loop.stored && w.runs[run].phase == Stopped(CursorOf(end.loop))
    requires NaturalEnd(end.stop) && StatusOf(end) == CompleteRun && |write| == MAX_CAS_ROUNDS == |others|
    requires Explains(Next(w, Finalize(run, now)), run, write, others)
    ensures Possible(w, steps)
    ensures RunMoves(w, Outcome(w, steps), run, StoredAtEnd(w.runs[run].conf, end, now, write), Ended)
  {
    var finalize := Finalize(run, now);
    OneStep(w, finalize);
    var rest := WriteSteps(Next(w, finalize), run, write, others);
    HistoriesCompose(w, [finalize], rest);
    steps := [finalize] + rest;
  }

  lemma CrashSteps(w: World, run: nat, steps: seq<Step>) returns (all: seq<Step>)
    requires run in w.runs && Possible(w, steps) && run in Outcome(w, steps).runs
    ensures Possible(w, all) && Outcome(w, all).stored == Outcome(w, steps).stored
    ensures run in Outcome(w, all).runs && Outcome(w, all).runs[run].phase.Ended?
    ensures Outcome(w, all).ingested == Outcome(w, steps).ingested
  {
    StepAfter(w, steps, Crash(run));
    all := steps + [Crash(run)];
  }

  /** Only a natural end is complete. */
  lemma CompleteIsNatural(w: World, run: nat, script: Script)
    requires Begins(w, run) && Scripted(script) && ReadCheckpoint(w.stored, script.read).Some?
    ensures var end := EndOfLoop(w, run, script);
            Returns(end) ==> (StatusOf(end) == CompleteRun <==> NaturalEnd(end.stop))
  {
    if Returns(EndOfLoop(w, run, script)) {
      NaturalEndIsComplete(w.runs[run].conf, Begun(w, script), script.turns);
    }
  }

  /**
   * Whatever the other runs do between its requests, a whole run takes the object
   * where a history of the protocol does, theirs woven in; the run is over then,
   * and the history has gathered every page that the run completed.
   */
  lemma RunIsAHistory(w: World, run: nat, script: Script, company: Company) returns (steps: seq<Step>)
    requires RunExplained(w, run, script, company)
    ensures Possible(w, steps)
    ensures Outcome(w, steps).stored == StoredBy(w.runs[run].conf, w.stored, script)
    ensures run in Outcome(w, steps).runs && Outcome(w, steps).runs[run].phase.Ended?
    ensures ReadCheckpoint(w.stored, script.read).Some? ==>
              forall page | Begun(w, script).lastCompletedPage < page
                            <= EndOfLoop(w, run, script).loop.lastCompletedPage ::
                page in Outcome(w, steps).ingested
  {
    if ReadCheckpoint(w.stored, script.read).None? {
      OneStep(w, ReadStart(run, script.read));
      steps := [ReadStart(run, script.read)];
    } else {
      var end, there := EndOfLoop(w, run, script), WorldAfterLoop(w, run, script, company);
      steps := LoopSteps(w, run, script, company);
      CompleteIsNatural(w, run, script);
      if NaturalEnd(end.stop) {
        var rest := FinalSteps(there, run, end, script.now, script.write, company.last);
        HistoriesCompose(w, steps, rest);
        steps := steps + rest;
      } else {
        steps := CrashSteps(w, run, steps);
      }
    }
  }

  /** So what a whole run leaves stored is safe, whatever history led up to it. */
  lemma RunStoresSafely(w: World, before: seq<Step>, run: nat, script: Script, company: Company)
    returns (steps: seq<Step>)
    requires Initial(w) && Possible(w, before) && RunExplained(Outcome(w, before), run, script, company)
    ensures Possible(w, before + steps)
    ensures var now := Outcome(w, before);
            var stored := StoredBy(now.runs[run].conf, now.stored, script);
            && Outcome(w, before + steps).stored == stored
            && (stored.Present? && stored.body.Parsed? ==>
                  var c := stored.body.checkpoint;
                  && (forall page :: page in c.pages <==> 1 <= page <= c.lastCompletedPage)
                  && c.discoveredLastPage == c.lastCompletedPage
                  && forall page | 1 <= page <= c.lastCompletedPage :: Gathers(w, before + steps, page))
  {
    steps := RunIsAHistory(Outcome(w, before), run, script, company);
    HistoriesCompose(w, before, steps);
    StoredCheckpointIsSafe(w, before + steps);
  }
}
