/** The checkpoint record and the merge that settles a write conflict. */
module Checkpoints {
  import opened Wrappers

  datatype Status = Complete | Failed | Partial | Resumable | Running

  datatype Counts = Counts(discovered: nat, failed: nat, staged: nat, stored: nat)

  datatype PageEntry = PageEntry(counts: Counts, status: string)

  datatype Classification = Permanent | RateLimited | Transient

  datatype SourceFailure = SourceFailure(attempts: Option<nat>, classification: Classification)

  /** Keyed by the page number that the decimal key of the JSON record denotes. */
  type PageMap = map<nat, PageEntry>

  datatype Checkpoint = Checkpoint(
    counts: Counts,
    createdAt: string,
    discoveredLastPage: nat,
    lastCompletedPage: nat,
    lastSourceFailure: Option<SourceFailure>,
    pages: PageMap,
    runId: string,
    sourceUrl: string,
    status: Status,
    updatedAt: string)

  function StatusRank(status: Status): nat {
    match status
    case Complete => 5
    case Failed => 4
    case Partial => 3
    case Resumable => 2
    case Running => 1
  }

  function Max(a: nat, b: nat): nat {
    if a < b then b else a
  }

  /** `a` is at or above `b` in the lexicographic order on (page, status rank). */
  predicate AtOrAbove(a: Checkpoint, b: Checkpoint) {
    || a.lastCompletedPage > b.lastCompletedPage
    || (a.lastCompletedPage == b.lastCompletedPage && StatusRank(a.status) >= StatusRank(b.status))
  }

  function PickHigherProgress(local: Checkpoint, remote: Checkpoint): Checkpoint {
    if local.lastCompletedPage > remote.lastCompletedPage then local
    else if local.lastCompletedPage < remote.lastCompletedPage then remote
    else if StatusRank(local.status) >= StatusRank(remote.status) then local
    else remote
  }

  function MergeCheckpoints(local: Checkpoint, remote: Checkpoint): Checkpoint {
    var winner := PickHigherProgress(local, remote);
    Checkpoint(
      winner.counts,
      local.createdAt,
      Max(local.discoveredLastPage, remote.discoveredLastPage),
      Max(local.lastCompletedPage, remote.lastCompletedPage),
      winner.lastSourceFailure,
      local.pages + remote.pages,
      winner.runId,
      winner.sourceUrl,
      winner.status,
      winner.updatedAt)
  }

  /** At the same page the more determined status wins. */
  lemma SamePageKeepsMoreDetermined(local: Checkpoint, remote: Checkpoint)
    requires local.lastCompletedPage == remote.lastCompletedPage
    ensures var both, merged := {local.status, remote.status}, MergeCheckpoints(local, remote).status;
            merged == if Complete in both then Complete
                      else if Failed in both then Failed
                      else if Partial in both then Partial
                      else if Resumable in both then Resumable
                      else Running
  {
  }

  // ----- Merge algebra -----

  /** What a merge decides by taking joins: progress, status, discovered range and page keys. */
  datatype Progress = Progress(page: nat, status: Status, discovered: nat, keys: set<nat>)

  function ProgressOf(c: Checkpoint): Progress {
    Progress(c.lastCompletedPage, c.status, c.discoveredLastPage, c.pages.Keys)
  }

  lemma MergeIsLexicographicMaximum(a: Checkpoint, b: Checkpoint)
    ensures var m := MergeCheckpoints(a, b);
            AtOrAbove(m, a) && AtOrAbove(m, b) && (AtOrAbove(a, m) || AtOrAbove(b, m))
  {
  }

  lemma MergeAssociative(a: Checkpoint, b: Checkpoint, c: Checkpoint)
    ensures MergeCheckpoints(MergeCheckpoints(a, b), c) == MergeCheckpoints(a, MergeCheckpoints(b, c))
  {
    assert (a.pages + b.pages) + c.pages == a.pages + (b.pages + c.pages);
  }

  lemma MergeIdempotent(a: Checkpoint)
    ensures MergeCheckpoints(a, a) == a
  {
    assert a.pages + a.pages == a.pages;
  }

  lemma MergeCommutesOnProgress(a: Checkpoint, b: Checkpoint)
    ensures ProgressOf(MergeCheckpoints(a, b)) == ProgressOf(MergeCheckpoints(b, a))
  {
    assert (a.pages + b.pages).Keys == (b.pages + a.pages).Keys;
  }

  /** Merging in a view that is already below, with no pages of its own, changes nothing. */
  lemma MergeAbsorbs(local: Checkpoint, remote: Checkpoint)
    requires AtOrAbove(local, remote)
    requires remote.discoveredLastPage <= local.discoveredLastPage
    requires forall p <- remote.pages :: p in local.pages && local.pages[p] == remote.pages[p]
    ensures MergeCheckpoints(local, remote) == local
  {
    assert local.pages + remote.pages == local.pages;
  }

  // ----- Repeated merges -----

  function FoldMerge(first: Checkpoint, others: seq<Checkpoint>): Checkpoint {
    if others == [] then first
    else MergeCheckpoints(FoldMerge(first, others[..|others| - 1]), others[|others| - 1])
  }

  /** `i` is the first of the views that no other view is above. */
  ghost predicate FirstHighest(all: seq<Checkpoint>, i: int) {
    && 0 <= i < |all|
    && (forall j | 0 <= j < |all| :: AtOrAbove(all[i], all[j]))
    && (forall j | 0 <= j < i :: !AtOrAbove(all[j], all[i]))
  }

  /** `i` is the last of the views that has an entry for `page`. */
  ghost predicate LastWithPage(all: seq<Checkpoint>, page: nat, i: int) {
    && 0 <= i < |all|
    && page in all[i].pages
    && (forall j | i < j < |all| :: page !in all[j].pages)
  }

  predicate SameOutcome(a: Checkpoint, b: Checkpoint) {
    && a.lastCompletedPage == b.lastCompletedPage
    && a.status == b.status
    && a.counts == b.counts
    && a.runId == b.runId
    && a.sourceUrl == b.sourceUrl
    && a.updatedAt == b.updatedAt
    && a.lastSourceFailure == b.lastSourceFailure
  }

  /** Totals, identity and status come from the first of the highest views. */
  ghost predicate OutcomeOfHighest(all: seq<Checkpoint>, m: Checkpoint) {
    exists i :: FirstHighest(all, i) && SameOutcome(m, all[i])
  }

  ghost predicate WidestRange(all: seq<Checkpoint>, m: Checkpoint) {
    && (forall i | 0 <= i < |all| :: all[i].discoveredLastPage <= m.discoveredLastPage)
    && (exists i | 0 <= i < |all| :: all[i].discoveredLastPage == m.discoveredLastPage)
  }

  ghost predicate PageFrom(all: seq<Checkpoint>, m: Checkpoint, p: nat)
    requires p in m.pages
  {
    exists i :: LastWithPage(all, p, i) && all[i].pages[p] == m.pages[p]
  }

  /** Every page any view has, each as the last view that has it reports it. */
  ghost predicate LatestPages(all: seq<Checkpoint>, m: Checkpoint) {
    && (forall p <- m.pages :: PageFrom(all, m, p))
    && (forall i, p | 0 <= i < |all| && p in all[i].pages :: p in m.pages)
  }

  /** The record that a chain of merges leaves. */
  ghost predicate IsJointView(all: seq<Checkpoint>, m: Checkpoint) {
    && |all| > 0
    && m.createdAt == all[0].createdAt
    && OutcomeOfHighest(all, m)
    && WidestRange(all, m)
    && LatestPages(all, m)
  }

  lemma {:induction false} FoldMergeIsJointView(first: Checkpoint, others: seq<Checkpoint>)
    ensures IsJointView([first] + others, FoldMerge(first, others))
  {
    var all := [first] + others;
    if others == [] {
      assert FirstHighest(all, 0) && SameOutcome(first, all[0]);
      forall p | p in first.pages
        ensures PageFrom(all, first, p)
      {
        assert LastWithPage(all, p, 0);
      }
    } else {
      var n := |others| - 1;
      FoldMergeIsJointView(first, others[..n]);
      var before, m := [first] + others[..n], FoldMerge(first, others[..n]);
      assert all == before + [others[n]];
      MergeExtendsOutcome(before, m, others[n]);
      MergeExtendsRange(before, m, others[n]);
      MergeExtendsPages(before, m, others[n]);
    }
  }

  lemma MergeExtendsOutcome(all: seq<Checkpoint>, m: Checkpoint, next: Checkpoint)
    requires OutcomeOfHighest(all, m)
    ensures OutcomeOfHighest(all + [next], MergeCheckpoints(m, next))
  {
    var grown, r := all + [next], MergeCheckpoints(m, next);
    var i :| FirstHighest(all, i) && SameOutcome(m, all[i]);
    var top := if AtOrAbove(m, next) then i else |all|;
    assert FirstHighest(grown, top) by {
      forall j | 0 <= j < |grown|
        ensures AtOrAbove(grown[top], grown[j])
        ensures j < top ==> !AtOrAbove(grown[j], grown[top])
      {
        if j < |all| {
          assert grown[j] == all[j] && AtOrAbove(all[i], all[j]);
        }
      }
    }
    assert SameOutcome(r, grown[top]);
  }

  lemma MergeExtendsRange(all: seq<Checkpoint>, m: Checkpoint, next: Checkpoint)
    requires WidestRange(all, m)
    ensures WidestRange(all + [next], MergeCheckpoints(m, next))
  {
    var grown := all + [next];
    var d :| 0 <= d < |all| && all[d].discoveredLastPage == m.discoveredLastPage;
    assert grown[d].discoveredLastPage == m.discoveredLastPage;
    assert grown[|all|] == next;
  }

  lemma MergeExtendsPages(all: seq<Checkpoint>, m: Checkpoint, next: Checkpoint)
    requires LatestPages(all, m)
    ensures LatestPages(all + [next], MergeCheckpoints(m, next))
  {
    var grown, r := all + [next], MergeCheckpoints(m, next);
    forall p | p in r.pages
      ensures PageFrom(grown, r, p)
    {
      if p in next.pages {
        assert LastWithPage(grown, p, |all|);
      } else {
        assert PageFrom(all, m, p);
        var j :| LastWithPage(all, p, j) && all[j].pages[p] == m.pages[p];
        assert LastWithPage(grown, p, j);
      }
    }
  }

  /** Any two orders, or repetitions, of the same views merge to the same progress. */
  lemma MergeOrderDoesNotMatter(a: Checkpoint, others: seq<Checkpoint>, b: Checkpoint, rest: seq<Checkpoint>)
    requires forall c :: c in [a] + others <==> c in [b] + rest
    ensures ProgressOf(FoldMerge(a, others)) == ProgressOf(FoldMerge(b, rest))
  {
    FoldMergeIsJointView(a, others);
    FoldMergeIsJointView(b, rest);
    SameViewsSameProgress([a] + others, FoldMerge(a, others), [b] + rest, FoldMerge(b, rest));
  }

  lemma SameViewsSameProgress(ms: seq<Checkpoint>, m: Checkpoint, ns: seq<Checkpoint>, n: Checkpoint)
    requires IsJointView(ms, m) && IsJointView(ns, n)
    requires forall c :: c in ms <==> c in ns
    ensures ProgressOf(m) == ProgressOf(n)
  {
    JointViewsAgree(ms, m, ns, n);
    JointViewsAgree(ns, n, ms, m);
    assert m.pages.Keys == n.pages.Keys;
  }

  /** One direction: `n` covers whatever `m` covers. */
  lemma JointViewsAgree(ms: seq<Checkpoint>, m: Checkpoint, ns: seq<Checkpoint>, n: Checkpoint)
    requires IsJointView(ms, m) && IsJointView(ns, n)
    requires forall c :: c in ms ==> c in ns
    ensures AtOrAbove(n, m)
    ensures m.discoveredLastPage <= n.discoveredLastPage
    ensures m.pages.Keys <= n.pages.Keys
  {
    assert AtOrAbove(n, m) by {
      var i :| FirstHighest(ms, i) && SameOutcome(m, ms[i]);
      var j :| FirstHighest(ns, j) && SameOutcome(n, ns[j]);
      assert ms[i] in ns;
      var k :| 0 <= k < |ns| && ns[k] == ms[i];
    }
    assert m.discoveredLastPage <= n.discoveredLastPage by {
      var d :| 0 <= d < |ms| && ms[d].discoveredLastPage == m.discoveredLastPage;
      assert ms[d] in ns;
    }
    forall p | p in m.pages
      ensures p in n.pages
    {
      assert PageFrom(ms, m, p);
      var k :| LastWithPage(ms, p, k) && ms[k].pages[p] == m.pages[p];
      assert ms[k] in ns;
    }
  }
}
