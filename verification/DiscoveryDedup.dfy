/** The dedup pass over the candidates that one list page gave. */
module DiscoveryDedup {
  import opened Wrappers
  import opened Payloads
  import opened Summary
  import opened IngestPage

  // ----- The dedup pass -----

  const NO_METADATA := Metadata(None, None, None, None)

  /** Absent metadata compares like an empty record. */
  function MetadataOf(c: Candidate): Metadata {
    if c.metadata.Some? then c.metadata.value else NO_METADATA
  }

  /** The candidates not seen before, in order. */
  function FirstOccurrences(cs: seq<Candidate>): seq<Candidate> {
    if cs == [] then []
    else
      var n := |cs| - 1;
      FirstOccurrences(cs[..n]) + if cs[n] in cs[..n] then [] else [cs[n]]
  }

  predicate SameFilenameBefore(cs: seq<Candidate>, c: Candidate) {
    exists j | 0 <= j < |cs| :: cs[j].filename == c.filename
  }

  predicate OtherMetadataBefore(cs: seq<Candidate>, c: Candidate) {
    exists j | 0 <= j < |cs| ::
      cs[j].filename == c.filename && cs[j].externalId == c.externalId && MetadataOf(cs[j]) != MetadataOf(c)
  }

  function Warning(code: DiagnosticCode, c: Candidate, index: nat): Diagnostic {
    Diagnostic(code, false, None, Some(index), c.externalId, c.page, c.url)
  }

  /** What candidate `c` adds when `before` came before it. */
  function WarningsFor(before: seq<Candidate>, c: Candidate): seq<Diagnostic> {
    var index := |FirstOccurrences(before)|;
    (if SameFilenameBefore(before, c) then [Warning(DuplicateFilename, c, index)] else [])
    + (if OtherMetadataBefore(before, c) then [Warning(ChangedMetadata, c, index)] else [])
  }

  function WarningsOf(cs: seq<Candidate>): seq<Diagnostic> {
    if cs == [] then [] else WarningsOf(cs[..|cs| - 1]) + WarningsFor(cs[..|cs| - 1], cs[|cs| - 1])
  }

  function WithFilename(cs: seq<Candidate>, filename: string): seq<Candidate> {
    if cs == [] then []
    else
      var n := |cs| - 1;
      WithFilename(cs[..n], filename) + if cs[n].filename == filename then [cs[n]] else []
  }

  lemma {:induction false} WithFilenameKeepsThem(cs: seq<Candidate>, filename: string)
    ensures forall c :: c in WithFilename(cs, filename) <==> c in cs && c.filename == filename
  {
    if cs != [] {
      WithFilenameKeepsThem(cs[..|cs| - 1], filename);
      assert cs == cs[..|cs| - 1] + [cs[|cs| - 1]];
    }
  }

  /** The entries filed under the candidate's name. */
  ghost predicate AreEarlierNamesakes(before: seq<Candidate>, existing: seq<Candidate>, c: Candidate) {
    forall e :: e in existing <==> e in before && e.filename == c.filename
  }

  lemma OneCandidateMore(cs: seq<Candidate>, i: nat)
    requires i < |cs|
    ensures FirstOccurrences(cs[..i + 1]) == FirstOccurrences(cs[..i]) + if cs[i] in cs[..i] then [] else [cs[i]]
    ensures WarningsOf(cs[..i + 1]) == WarningsOf(cs[..i]) + WarningsFor(cs[..i], cs[i])
    ensures forall name ::
              WithFilename(cs[..i + 1], name)
              == WithFilename(cs[..i], name) + if cs[i].filename == name then [cs[i]] else []
  {
    assert cs[..i + 1][..i] == cs[..i];
  }

  /** The loop over candidates, with its index by filename and its set of emitted ones. */
  method CollectCandidateDiagnostics(cs: seq<Candidate>) returns (output: seq<Candidate>, diagnostics: seq<Diagnostic>)
    ensures output == FirstOccurrences(cs) && diagnostics == WarningsOf(cs)
  {
    var byFilename: map<string, seq<Candidate>> := map[];
    var emitted: set<Candidate> := {};
    output, diagnostics := [], [];
    for i := 0 to |cs|
      invariant forall filename ::
                  WithFilename(cs[..i], filename) == if filename in byFilename then byFilename[filename] else []
      invariant forall c :: c in emitted <==> c in cs[..i]
      invariant output == FirstOccurrences(cs[..i]) && diagnostics == WarningsOf(cs[..i])
    {
      var c := cs[i];
      var existing := if c.filename in byFilename then byFilename[c.filename] else [];
      WithFilenameKeepsThem(cs[..i], c.filename);
      OneCandidateMore(cs, i);
      var warnings := WarnAbout(cs[..i], existing, c, |output|);
      diagnostics := diagnostics + warnings;
      if c !in emitted {
        output := output + [c];
        emitted := emitted + {c};
      }
      byFilename := byFilename[c.filename := existing + [c]];
    }
    assert cs[..|cs|] == cs;
  }

  method WarnAbout(ghost before: seq<Candidate>, existing: seq<Candidate>, c: Candidate, index: nat)
    returns (warnings: seq<Diagnostic>)
    requires AreEarlierNamesakes(before, existing, c) && index == |FirstOccurrences(before)|
    ensures warnings == WarningsFor(before, c)
  {
    warnings := [];
    NamesakesAreSameFilename(before, existing, c);
    ChangedIsOtherMetadata(before, existing, c);
    if existing != [] {
      warnings := [Warning(DuplicateFilename, c, index)];
      var changed := HasChangedMetadata(existing, c);
      if changed {
        warnings := warnings + [Warning(ChangedMetadata, c, index)];
      }
    }
  }

  lemma NamesakesAreSameFilename(before: seq<Candidate>, existing: seq<Candidate>, c: Candidate)
    requires AreEarlierNamesakes(before, existing, c)
    ensures SameFilenameBefore(before, c) <==> existing != []
  {
    if existing != [] {
      assert existing[0] in existing;
    }
    if SameFilenameBefore(before, c) {
      var j :| 0 <= j < |before| && before[j].filename == c.filename;
      assert before[j] in existing;
    }
  }

  lemma ChangedIsOtherMetadata(before: seq<Candidate>, existing: seq<Candidate>, c: Candidate)
    requires AreEarlierNamesakes(before, existing, c)
    ensures OtherMetadataBefore(before, c)
            <==> exists e <- existing :: e.externalId == c.externalId && MetadataOf(e) != MetadataOf(c)
  {
    if OtherMetadataBefore(before, c) {
      var j :| 0 <= j < |before| && before[j].filename == c.filename && before[j].externalId == c.externalId
               && MetadataOf(before[j]) != MetadataOf(c);
      assert before[j] in existing;
    }
  }

  method HasChangedMetadata(existing: seq<Candidate>, c: Candidate) returns (changed: bool)
    ensures changed <==> exists e <- existing :: e.externalId == c.externalId && MetadataOf(e) != MetadataOf(c)
  {
    for i := 0 to |existing|
      invariant !exists e <- existing[..i] :: e.externalId == c.externalId && MetadataOf(e) != MetadataOf(c)
    {
      if existing[i].externalId == c.externalId && MetadataOf(existing[i]) != MetadataOf(c) {
        return true;
      }
      assert existing[..i + 1] == existing[..i] + [existing[i]];
    }
    assert existing[..|existing|] == existing;
    return false;
  }

  /** `picks` are the positions, in order, at which a candidate appears for the first time. */
  ghost predicate ArePositionsOfFirsts(cs: seq<Candidate>, picks: seq<nat>) {
    && (forall k, l | 0 <= k < l < |picks| :: picks[k] < picks[l])
    && (forall k | 0 <= k < |picks| :: picks[k] < |cs| && cs[picks[k]] !in cs[..picks[k]])
    && (forall i | 0 <= i < |cs| && cs[i] !in cs[..i] :: i in picks)
  }

  /** What `picks` picks. */
  ghost predicate Picked(cs: seq<Candidate>, picks: seq<nat>, output: seq<Candidate>) {
    |picks| == |output| && forall k | 0 <= k < |picks| :: picks[k] < |cs| && output[k] == cs[picks[k]]
  }

  lemma PicksExtend(head: seq<Candidate>, c: Candidate, picks: seq<nat>, output: seq<Candidate>)
    requires ArePositionsOfFirsts(head, picks) && Picked(head, picks, output)
    ensures c in head ==> ArePositionsOfFirsts(head + [c], picks) && Picked(head + [c], picks, output)
    ensures c !in head ==>
              ArePositionsOfFirsts(head + [c], picks + [|head|]) && Picked(head + [c], picks + [|head|], output + [c])
  {
    var cs := head + [c];
    assert cs[|head|] == c && cs[..|head|] == head;
    assert forall i | 0 <= i < |head| :: cs[i] == head[i] && cs[..i] == head[..i];
  }

  /** The output is the subsequence of first occurrences. */
  lemma {:induction false} OutputIsFirstOccurrences(cs: seq<Candidate>) returns (picks: seq<nat>)
    ensures ArePositionsOfFirsts(cs, picks) && Picked(cs, picks, FirstOccurrences(cs))
  {
    picks := [];
    if cs != [] {
      var n := |cs| - 1;
      picks := OutputIsFirstOccurrences(cs[..n]);
      PicksExtend(cs[..n], cs[n], picks, FirstOccurrences(cs[..n]));
      assert cs == cs[..n] + [cs[n]];
      picks := if cs[n] in cs[..n] then picks else picks + [n];
    }
  }

  /** Nothing comes out twice, and nothing is lost. */
  lemma {:induction false} OutputKeepsEachOnce(cs: seq<Candidate>)
    ensures forall c :: c in FirstOccurrences(cs) <==> c in cs
    ensures forall k, l | 0 <= k < l < |FirstOccurrences(cs)| :: FirstOccurrences(cs)[k] != FirstOccurrences(cs)[l]
  {
    if cs != [] {
      var n := |cs| - 1;
      OutputKeepsEachOnce(cs[..n]);
      assert cs == cs[..n] + [cs[n]];
    }
  }

  predicate IsDuplicateFilename(d: Diagnostic) {
    d.code == DuplicateFilename
  }

  function Filenames(cs: seq<Candidate>): set<string> {
    set c <- cs :: c.filename
  }

  lemma FilenamesGrow(head: seq<Candidate>, c: Candidate)
    ensures Filenames(head + [c]) == Filenames(head) + {c.filename}
    ensures SameFilenameBefore(head, c) <==> c.filename in Filenames(head)
  {
    if SameFilenameBefore(head, c) {
      var j :| 0 <= j < |head| && head[j].filename == c.filename;
      assert head[j] in head;
    }
  }

  lemma OneMoreCounted(head: seq<Candidate>, c: Candidate)
    requires CountIf(WarningsOf(head), IsDuplicateFilename) == |head| - |Filenames(head)|
    ensures CountIf(WarningsOf(head) + WarningsFor(head, c), IsDuplicateFilename)
            == |head| + 1 - |Filenames(head + [c])|
  {
    FilenamesGrow(head, c);
    CountOfWarnings(WarningsOf(head), head, c);
    DistinctGrow(Filenames(head), c.filename);
  }

  lemma {:induction false} DuplicatesUpTo(cs: seq<Candidate>, i: nat)
    requires i <= |cs|
    ensures CountIf(WarningsOf(cs[..i]), IsDuplicateFilename) == i - |Filenames(cs[..i])|
    decreases i
  {
    if i > 0 {
      DuplicatesUpTo(cs, i - 1);
      OneCandidateMore(cs, i - 1);
      OneMoreCounted(cs[..i - 1], cs[i - 1]);
      assert cs[..i] == cs[..i - 1] + [cs[i - 1]];
    }
  }

  /** One duplicate_filename for every candidate beyond the first of its name. */
  lemma DuplicatesAreCounted(cs: seq<Candidate>)
    ensures CountIf(WarningsOf(cs), IsDuplicateFilename) == |cs| - |Filenames(cs)|
  {
    DuplicatesUpTo(cs, |cs|);
    assert cs[..|cs|] == cs;
  }

  lemma DistinctGrow(names: set<string>, name: string)
    ensures |names + {name}| == |names| + if name in names then 0 else 1
  {
    if name in names {
      assert names + {name} == names;
    }
  }

  lemma CountOfWarnings(earlier: seq<Diagnostic>, before: seq<Candidate>, c: Candidate)
    ensures CountIf(earlier + WarningsFor(before, c), IsDuplicateFilename)
            == CountIf(earlier, IsDuplicateFilename) + if SameFilenameBefore(before, c) then 1 else 0
  {
    var index := |FirstOccurrences(before)|;
    var duplicate, changed := Warning(DuplicateFilename, c, index), Warning(ChangedMetadata, c, index);
    assert OtherMetadataBefore(before, c) ==> SameFilenameBefore(before, c);
    CountIfAppends(earlier, duplicate, IsDuplicateFilename);
    CountIfAppends(earlier + [duplicate], changed, IsDuplicateFilename);
    if !SameFilenameBefore(before, c) {
      assert earlier + WarningsFor(before, c) == earlier;
    } else if OtherMetadataBefore(before, c) {
      assert earlier + WarningsFor(before, c) == earlier + [duplicate] + [changed];
    } else {
      assert earlier + WarningsFor(before, c) == earlier + [duplicate];
    }
  }
}
