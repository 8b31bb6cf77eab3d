/** The two candidate axes of the hybrid search: hard filters, best chunk per
    posting, at most CANDIDATE_K postings each. */
module SearchAxes {
  import opened Common
  import opened Sorting

  const CANDIDATE_K: nat := 30

  datatype Axis = Region | Exp

  datatype Posting = Posting(regions: seq<string>, expMin: Option<int>, active: bool)

  datatype Spec = Spec(regions: seq<string>, expYears: Option<int>)

  /** One chunk as the query sees it: distance to the query vector (absent when
      the chunk is not embedded). */
  datatype Embedded = Embedded(uid: string, chunkId: string, distance: Option<real>)

  /** A chunk put forward for its posting; a higher score is better on both axes. */
  datatype Candidate = Candidate(uid: string, chunkId: string, score: real)

  /** What one search runs against: the tables and the BM25 scores of the cached
      index. `lexical` is false when the query has no token or no index exists. */
  datatype Corpus = Corpus(postings: map<string, Posting>, chunks: seq<Embedded>,
                           index: seq<Candidate>, lexical: bool)

  // ------------------------------------------------------------------ filters

  predicate Overlap(a: seq<string>, b: seq<string>) {
    exists r :: r in a && r in b
  }

  /** The WHERE clause: every condition that is set and not relaxed. */
  predicate Passes(p: Posting, spec: Spec, relaxed: seq<Axis>) {
    && p.active
    && (spec.regions != [] && Region !in relaxed ==> Overlap(p.regions, spec.regions))
    && (spec.expYears.Some? && Exp !in relaxed ==> p.expMin == None || p.expMin.value <= spec.expYears.value)
  }

  /** The Python test on a fetched row. */
  predicate Satisfies(p: Posting, spec: Spec) {
    if spec.regions != [] && !Overlap(p.regions, spec.regions) then false
    else if spec.expYears.Some? && p.expMin.Some? && p.expMin.value > spec.expYears.value then false
    else true
  }

  /** Which of the search's conditions are set at all. */
  predicate Active(spec: Spec, axis: Axis) {
    match axis
    case Region => spec.regions != []
    case Exp => spec.expYears.Some?
  }

  /** What the filter asks for: an active posting that shares one of the regions asked
      for and needs no more years than there are, where these are asked and not
      relaxed; a posting without a minimum suits anybody. */
  lemma FilterSpelledOut(p: Posting, spec: Spec, relaxed: seq<Axis>)
    ensures Passes(p, spec, relaxed) <==>
      && p.active
      && (|| spec.regions == []
          || (exists i :: 0 <= i < |relaxed| && relaxed[i] == Region)
          || (exists i, j :: 0 <= i < |p.regions| && 0 <= j < |spec.regions| && p.regions[i] == spec.regions[j]))
      && (|| spec.expYears.None?
          || (exists i :: 0 <= i < |relaxed| && relaxed[i] == Exp)
          || p.expMin.None?
          || p.expMin.value <= spec.expYears.value)
    ensures Satisfies(p, spec) <==>
      && (spec.regions == [] || exists i, j :: 0 <= i < |p.regions| && 0 <= j < |spec.regions| && p.regions[i] == spec.regions[j])
      && (spec.expYears.None? || p.expMin.None? || p.expMin.value <= spec.expYears.value)
  {
    SharedRegion(p.regions, spec.regions);
  }

  lemma SharedRegion(a: seq<string>, b: seq<string>)
    ensures Overlap(a, b) <==> exists i, j :: 0 <= i < |a| && 0 <= j < |b| && a[i] == b[j]
  {
    if Overlap(a, b) {
      var r :| r in a && r in b;
      var i :| 0 <= i < |a| && a[i] == r;
      var j :| 0 <= j < |b| && b[j] == r;
      assert a[i] == b[j];
    }
    if i, j :| 0 <= i < |a| && 0 <= j < |b| && a[i] == b[j] {
      assert a[i] in a && a[i] in b;
    }
  }

  /** The strict filter and the row test are the same condition, relaxing only
      widens, and relaxing axes that are not set changes nothing. */
  lemma FilterMeansSatisfies(p: Posting, spec: Spec, relaxed: seq<Axis>)
    ensures Passes(p, spec, []) <==> p.active && Satisfies(p, spec)
    ensures Passes(p, spec, []) ==> Passes(p, spec, relaxed)
    ensures Passes(p, spec, relaxed) && Satisfies(p, spec) ==> Passes(p, spec, [])
    ensures (forall a :: a in relaxed ==> !Active(spec, a)) ==> (Passes(p, spec, relaxed) <==> Passes(p, spec, []))
  {
    assert Region in relaxed && !Active(spec, Region) ==> spec.regions == [];
    assert Exp in relaxed && !Active(spec, Exp) ==> spec.expYears == None;
  }

  predicate Eligible(c: Corpus, spec: Spec, relaxed: seq<Axis>, uid: string) {
    uid in c.postings && Passes(c.postings[uid], spec, relaxed)
  }

  // ------------------------------------------------------------------ top of a pool

  function CandidateUid(c: Candidate): string {
    c.uid
  }

  /** Every embedded chunk of an eligible posting, by similarity. */
  ghost function DensePool(c: Corpus, spec: Spec, relaxed: seq<Axis>): set<Candidate> {
    set e | e in c.chunks && e.distance.Some? && Eligible(c, spec, relaxed, e.uid)
      :: Candidate(e.uid, e.chunkId, 1.0 - e.distance.value)
  }

  /** Every chunk of an eligible posting the query's words hit. */
  ghost function Bm25Pool(c: Corpus, spec: Spec, relaxed: seq<Axis>): set<Candidate> {
    if c.lexical then set e | e in c.index && e.score > 0.0 && Eligible(c, spec, relaxed, e.uid) else {}
  }

  ghost predicate BestOf(pool: set<Candidate>, c: Candidate) {
    c in pool && forall p :: p in pool && p.uid == c.uid ==> p.score <= c.score
  }

  ghost predicate Lists(cs: seq<Candidate>, uid: string) {
    exists i :: 0 <= i < |cs| && cs[i].uid == uid
  }

  /** Only a full list leaves a posting out, and then nothing listed is worse. */
  ghost predicate LeavesOutOnlyWorse(pool: set<Candidate>, k: nat, cs: seq<Candidate>) {
    forall p :: p in pool && !Lists(cs, p.uid) ==>
      |cs| == k && forall i :: 0 <= i < |cs| ==> cs[i].score >= p.score
  }

  ghost predicate IsAxis(pool: set<Candidate>, k: nat, cs: seq<Candidate>) {
    && |cs| <= k
    && Distinct(CandidateUid, cs)
    && (forall i, j :: 0 <= i < j < |cs| ==> cs[i].score >= cs[j].score)
    && (forall i :: 0 <= i < |cs| ==> BestOf(pool, cs[i]))
    && LeavesOutOnlyWorse(pool, k, cs)
  }

  /** Higher scores first, equal ones by uid. */
  predicate CandidateLeq(a: Candidate, b: Candidate) {
    a.score > b.score || (a.score == b.score && StrLeq(a.uid, b.uid))
  }

  lemma CandidateLeqIsPreorder()
    ensures TotalPreorder(CandidateLeq)
  {
    forall x: Candidate, y: Candidate
      ensures CandidateLeq(x, y) || CandidateLeq(y, x)
    {
      StrLeqTotal(x.uid, y.uid);
    }
    forall x: Candidate, y: Candidate, z: Candidate | CandidateLeq(x, y) && CandidateLeq(y, z)
      ensures CandidateLeq(x, z)
    {
      if x.score == y.score == z.score {
        StrLeqTransitive(x.uid, y.uid, z.uid);
      }
    }
  }

  // ------------------------------------------------------------------ best chunk per posting

  /** Among the first n entries, c at i is its posting's earliest best. */
  ghost predicate ChosenAt(entries: seq<Candidate>, n: nat, c: Candidate, i: nat)
    requires n <= |entries|
  {
    && i < n
    && entries[i] == c
    && (forall j :: 0 <= j < i && entries[j].uid == c.uid ==> entries[j].score < c.score)
    && (forall j :: 0 <= j < n && entries[j].uid == c.uid ==> entries[j].score <= c.score)
  }

  ghost predicate EarliestBest(entries: seq<Candidate>, c: Candidate) {
    exists i: nat :: ChosenAt(entries, |entries|, c, i)
  }

  predicate Above(c: Candidate, floor: Option<real>) {
    floor.Some? ==> c.score > floor.value
  }

  predicate Counted(c: Candidate, eligible: set<string>, floor: Option<real>) {
    Above(c, floor) && c.uid in eligible
  }

  lemma StillChosen(entries: seq<Candidate>, n: nat, c: Candidate, i: nat)
    requires n < |entries| && ChosenAt(entries, n, c, i)
    requires entries[n].uid == c.uid ==> entries[n].score <= c.score
    ensures ChosenAt(entries, n + 1, c, i)
  {
  }

  /** An entry at or below the floor never beats one above it. */
  lemma NewlyChosen(entries: seq<Candidate>, n: nat, eligible: set<string>, floor: Option<real>)
    requires n < |entries| && Counted(entries[n], eligible, floor)
    requires forall i :: 0 <= i < n && entries[i].uid == entries[n].uid && Counted(entries[i], eligible, floor) ==>
      entries[i].score < entries[n].score
    ensures ChosenAt(entries, n + 1, entries[n], n)
  {
  }

  /** The fold from chunks to postings: the best chunk of every eligible posting
      above the floor, the earliest one among equals. */
  method BestPerPosting(entries: seq<Candidate>, eligible: set<string>, floor: Option<real>)
    returns (best: map<string, Candidate>)
    ensures forall u :: u in best ==>
      best[u].uid == u && Counted(best[u], eligible, floor) && EarliestBest(entries, best[u])
    ensures forall i :: 0 <= i < |entries| && Counted(entries[i], eligible, floor) ==> entries[i].uid in best
  {
    best := map[];
    ghost var at: map<string, nat> := map[];
    for n := 0 to |entries|
      invariant best.Keys == at.Keys
      invariant forall u :: u in best ==> best[u].uid == u && Counted(best[u], eligible, floor)
      invariant forall u :: u in best ==> ChosenAt(entries, n, best[u], at[u])
      invariant forall i :: 0 <= i < n && Counted(entries[i], eligible, floor) ==> entries[i].uid in best
    {
      var e := entries[n];
      if Counted(e, eligible, floor) && (e.uid !in best || e.score > best[e.uid].score) {
        NewlyChosen(entries, n, eligible, floor);
        forall u | u in best && u != e.uid
          ensures ChosenAt(entries, n + 1, best[u], at[u])
        {
          StillChosen(entries, n, best[u], at[u]);
        }
        best, at := best[e.uid := e], at[e.uid := n];
      } else {
        forall u | u in best
          ensures ChosenAt(entries, n + 1, best[u], at[u])
        {
          StillChosen(entries, n, best[u], at[u]);
        }
      }
    }
    forall u | u in best
      ensures EarliestBest(entries, best[u])
    {
      assert ChosenAt(entries, |entries|, best[u], at[u]);
    }
  }

  /** Cutting the sorted bests of a pool lists the top of the pool. */
  lemma CutLeavesOutOnlyWorse(best: map<string, Candidate>, all: seq<Candidate>, k: nat, pool: set<Candidate>,
                              cs: seq<Candidate>)
    requires forall u :: u in best ==> best[u].uid == u && BestOf(pool, best[u])
    requires forall p :: p in pool ==> p.uid in best
    requires forall u :: u in best ==> best[u] in all
    requires SortedBy(CandidateLeq, all)
    requires cs == Take(all, k)
    ensures LeavesOutOnlyWorse(pool, k, cs)
  {
    forall p | p in pool && !Lists(cs, p.uid)
      ensures |cs| == k && forall i :: 0 <= i < |cs| ==> cs[i].score >= p.score
    {
      var j :| 0 <= j < |all| && all[j] == best[p.uid];
      UnlistedIsBehind(all, k, cs, j);
    }
  }

  lemma UnlistedIsBehind(all: seq<Candidate>, k: nat, cs: seq<Candidate>, j: nat)
    requires SortedBy(CandidateLeq, all) && j < |all|
    requires cs == Take(all, k)
    requires !Lists(cs, all[j].uid)
    ensures |cs| == k <= j && forall i :: 0 <= i < |cs| ==> cs[i].score >= all[j].score
  {
    assert forall i :: 0 <= i < |cs| ==> cs[i] == all[i];
    forall i | 0 <= i < |cs|
      ensures i < j ==> cs[i].score >= all[j].score
    {
      assert i < j ==> CandidateLeq(all[i], all[j]);
    }
  }

  /** The best k of a pool's postings. */
  method Cut(best: map<string, Candidate>, k: nat, ghost pool: set<Candidate>) returns (cs: seq<Candidate>)
    requires forall u :: u in best ==> best[u].uid == u && BestOf(pool, best[u])
    requires forall p :: p in pool ==> p.uid in best
    ensures IsAxis(pool, k, cs)
    ensures SortedBy(CandidateLeq, cs)
    ensures forall i :: 0 <= i < |cs| ==> cs[i].uid in best && best[cs[i].uid] == cs[i]
  {
    var items := Values(best, CandidateUid);
    var all := SortBy(CandidateLeq, items);
    CandidateLeqIsPreorder();
    SortSorts(CandidateLeq, items);
    SortPermutes(CandidateLeq, items);
    PermutationKeepsDistinct(CandidateUid, items, all);
    cs := Take(all, k);
    CutLeavesOutOnlyWorse(best, all, k, pool, cs);
    forall i | 0 <= i < |cs|
      ensures cs[i].uid in best && best[cs[i].uid] == cs[i]
    {
      assert cs[i] == all[i] && all[i] in items;
    }
    forall i, j | 0 <= i < j < |cs|
      ensures cs[i].score >= cs[j].score && CandidateUid(cs[i]) != CandidateUid(cs[j])
    {
      assert CandidateLeq(all[i], all[j]) && CandidateUid(all[i]) != CandidateUid(all[j]);
    }
  }

  // ------------------------------------------------------------------ the axes

  method EligibleUids(c: Corpus, spec: Spec, relaxed: seq<Axis>) returns (uids: set<string>)
    ensures forall u :: u in uids <==> Eligible(c, spec, relaxed, u)
  {
    uids := set u | u in c.postings && Passes(c.postings[u], spec, relaxed);
  }

  /** The BM25 axis. */
  method Bm25Axis(c: Corpus, spec: Spec, relaxed: seq<Axis>) returns (cs: seq<Candidate>)
    ensures IsAxis(Bm25Pool(c, spec, relaxed), CANDIDATE_K, cs)
    ensures forall i, j :: 0 <= i < j < |cs| ==>
      cs[i].score > cs[j].score || (cs[i].score == cs[j].score && StrLeq(cs[i].uid, cs[j].uid))
    ensures forall i :: 0 <= i < |cs| ==> EarliestBest(c.index, cs[i])
  {
    if !c.lexical {
      return [];
    }
    var eligible := EligibleUids(c, spec, relaxed);
    var best := BestPerPosting(c.index, eligible, Some(0.0));
    ghost var pool := Bm25Pool(c, spec, relaxed);
    forall u | u in best
      ensures BestOf(pool, best[u])
    {
      assert EarliestBest(c.index, best[u]);
    }
    cs := Cut(best, CANDIDATE_K, pool);
  }

  /** The dense axis is one SQL statement: callers know of it only that it lists
      the nearest postings, in whatever order the database puts equal distances. */
  method DenseAxis(c: Corpus, spec: Spec, relaxed: seq<Axis>) returns (cs: seq<Candidate>)
    ensures IsAxis(DensePool(c, spec, relaxed), CANDIDATE_K, cs)
  {
    var eligible := EligibleUids(c, spec, relaxed);
    var entries: seq<Candidate> := [];
    for i := 0 to |c.chunks|
      invariant forall e :: e in entries <==>
        exists j :: 0 <= j < i && c.chunks[j].distance.Some?
          && e == Candidate(c.chunks[j].uid, c.chunks[j].chunkId, 1.0 - c.chunks[j].distance.value)
    {
      var chunk := c.chunks[i];
      if chunk.distance.Some? {
        entries := entries + [Candidate(chunk.uid, chunk.chunkId, 1.0 - chunk.distance.value)];
      }
    }
    var best := BestPerPosting(entries, eligible, None);
    ghost var pool := DensePool(c, spec, relaxed);
    forall p: Candidate
      ensures p in pool <==> p in entries && p.uid in eligible
    {
    }
    forall u | u in best
      ensures BestOf(pool, best[u])
    {
      assert EarliestBest(entries, best[u]);
    }
    cs := Cut(best, CANDIDATE_K, pool);
  }
}
