/** One search round: both axes fused into one tiered hit list, and what a short
    round proves about the corpus. */
module SearchRound {
  import opened Common
  import opened Sorting
  import opened Fusion
  import opened SearchAxes

  const RRF_K: nat := 60

  datatype Hit = Hit(uid: string, bestChunk: string, rrf: real, exact: bool, rerank: Option<real>)

  function HitUid(h: Hit): string {
    h.uid
  }

  /** Exact hits first, then higher fused scores, then by uid. */
  predicate HitLeq(a: Hit, b: Hit) {
    || (a.exact && !b.exact)
    || (a.exact == b.exact && (a.rrf > b.rrf || (a.rrf == b.rrf && StrLeq(a.uid, b.uid))))
  }

  /** Exact hits lead; among hits of one tier higher fused scores do, and the smaller
      uid among equal ones. */
  ghost predicate BestFirst(hits: seq<Hit>) {
    forall i, j :: 0 <= i < j < |hits| ==>
      && (hits[j].exact ==> hits[i].exact)
      && (hits[i].exact == hits[j].exact ==>
            || hits[i].rrf > hits[j].rrf
            || (hits[i].rrf == hits[j].rrf && StrLeq(hits[i].uid, hits[j].uid)))
  }

  lemma SortedIsBestFirst(hits: seq<Hit>)
    requires SortedBy(HitLeq, hits)
    ensures BestFirst(hits)
  {
    forall i, j | 0 <= i < j < |hits|
      ensures HitLeq(hits[i], hits[j])
    {
    }
  }

  lemma HitLeqIsPreorder()
    ensures TotalPreorder(HitLeq)
  {
    forall x: Hit, y: Hit
      ensures HitLeq(x, y) || HitLeq(y, x)
    {
      StrLeqTotal(x.uid, y.uid);
    }
    forall x: Hit, y: Hit, z: Hit | HitLeq(x, y) && HitLeq(y, z)
      ensures HitLeq(x, z)
    {
      if x.exact == z.exact && x.rrf == y.rrf == z.rrf {
        StrLeqTransitive(x.uid, y.uid, z.uid);
      }
    }
  }

  ghost predicate HasUid(hits: seq<Hit>, uid: string) {
    exists i :: 0 <= i < |hits| && hits[i].uid == uid
  }

  // ------------------------------------------------------------------ shares of the two axes

  function ScoresOf(cs: seq<Candidate>): (xs: seq<Scored>)
    ensures |xs| == |cs| && forall i :: 0 <= i < |cs| ==> xs[i] == Scored(cs[i].uid, cs[i].score)
  {
    seq(|cs|, i requires 0 <= i < |cs| => Scored(cs[i].uid, cs[i].score))
  }

  ghost function PlaceOf(cs: seq<Candidate>, uid: string): (i: nat)
    requires Lists(cs, uid)
    ensures i < |cs| && cs[i].uid == uid
  {
    var i: nat :| i < |cs| && cs[i].uid == uid;
    i
  }

  /** Dense ranks are given out one by one, so equal distances do not share one. */
  ghost function DenseShare(dense: seq<Candidate>, uid: string): real {
    if Lists(dense, uid) then Reciprocal(RRF_K, PlaceOf(dense, uid) + 1) else 0.0
  }

  ghost function Bm25Share(bm25: seq<Candidate>, uid: string): real {
    Contribution(ScoresOf(bm25), uid, RRF_K)
  }

  ghost function BestChunk(dense: seq<Candidate>, bm25: seq<Candidate>, uid: string): string
    requires Lists(dense, uid) || Lists(bm25, uid)
  {
    if Lists(dense, uid) then dense[PlaceOf(dense, uid)].chunkId else bm25[PlaceOf(bm25, uid)].chunkId
  }

  /** The hit a round owes a posting. */
  ghost predicate FromLists(c: Corpus, spec: Spec, dense: seq<Candidate>, bm25: seq<Candidate>, h: Hit) {
    && h.uid in c.postings
    && h.exact == Satisfies(c.postings[h.uid], spec)
    && (Lists(dense, h.uid) || Lists(bm25, h.uid))
    && h.bestChunk == BestChunk(dense, bm25, h.uid)
    && h.rrf == DenseShare(dense, h.uid) + Bm25Share(bm25, h.uid)
    && h.rerank == None
  }

  ghost predicate OnlyHits(c: Corpus, spec: Spec, dense: seq<Candidate>, bm25: seq<Candidate>, hits: seq<Hit>) {
    forall i :: 0 <= i < |hits| ==> FromLists(c, spec, dense, bm25, hits[i])
  }

  /** h is in the list, or the list is full and nothing in it ranks below h. */
  ghost predicate KeptOrBeaten(topK: nat, hits: seq<Hit>, h: Hit) {
    h in hits || (|hits| == topK && forall i :: 0 <= i < |hits| ==> HitLeq(hits[i], h))
  }

  ghost predicate EveryListed(c: Corpus, spec: Spec, topK: nat, dense: seq<Candidate>, bm25: seq<Candidate>,
                              hits: seq<Hit>) {
    forall u :: Lists(dense, u) || Lists(bm25, u) ==>
      exists h: Hit :: h.uid == u && FromLists(c, spec, dense, bm25, h) && KeptOrBeaten(topK, hits, h)
  }

  ghost predicate Round(c: Corpus, spec: Spec, relaxed: seq<Axis>, topK: nat,
                        dense: seq<Candidate>, bm25: seq<Candidate>, hits: seq<Hit>) {
    && IsAxis(DensePool(c, spec, relaxed), CANDIDATE_K, dense)
    && IsAxis(Bm25Pool(c, spec, relaxed), CANDIDATE_K, bm25)
    && |hits| <= topK
    && SortedBy(HitLeq, hits)
    && Distinct(HitUid, hits)
    && OnlyHits(c, spec, dense, bm25, hits)
    && EveryListed(c, spec, topK, dense, bm25, hits)
  }

  // ------------------------------------------------------------------ _search_once

  datatype Ranked = Ranked(rank: nat, chunkId: string)

  method DenseRanks(dense: seq<Candidate>) returns (ranks: map<string, Ranked>)
    requires Distinct(CandidateUid, dense)
    ensures forall u :: u in ranks <==> Lists(dense, u)
    ensures forall u :: u in ranks ==> ranks[u] == Ranked(PlaceOf(dense, u) + 1, dense[PlaceOf(dense, u)].chunkId)
  {
    ranks := map[];
    for i := 0 to |dense|
      invariant forall u :: u in ranks ==> Lists(dense, u) && PlaceOf(dense, u) < i
      invariant forall j :: 0 <= j < i ==> dense[j].uid in ranks
      invariant forall u :: u in ranks ==> ranks[u] == Ranked(PlaceOf(dense, u) + 1, dense[PlaceOf(dense, u)].chunkId)
    {
      OnlyPlace(dense, i);
      ranks := ranks[dense[i].uid := Ranked(i + 1, dense[i].chunkId)];
    }
  }

  lemma OnlyPlace(cs: seq<Candidate>, i: nat)
    requires Distinct(CandidateUid, cs) && i < |cs|
    ensures Lists(cs, cs[i].uid) && PlaceOf(cs, cs[i].uid) == i
  {
    assert Lists(cs, cs[i].uid);
    var p := PlaceOf(cs, cs[i].uid);
    assert CandidateUid(cs[p]) == CandidateUid(cs[i]);
  }

  ghost function OwedBm25(bm25: seq<Candidate>, i: nat): Ranked
    requires i < |bm25|
  {
    Ranked(1 + Higher(ScoresOf(bm25), bm25[i].score), bm25[i].chunkId)
  }

  method Bm25Ranks(bm25: seq<Candidate>) returns (ranks: map<string, Ranked>)
    requires Distinct(CandidateUid, bm25) && Descending(ScoresOf(bm25))
    ensures forall i :: 0 <= i < |bm25| ==> bm25[i].uid in ranks && ranks[bm25[i].uid] == OwedBm25(bm25, i)
    ensures forall u :: u in ranks ==> Lists(bm25, u)
  {
    var byUid := CompetitionRanks(ScoresOf(bm25));
    ranks := map[];
    for i := 0 to |bm25|
      invariant forall j :: 0 <= j < i ==> bm25[j].uid in ranks && ranks[bm25[j].uid] == OwedBm25(bm25, j)
      invariant forall u :: u in ranks ==> Lists(bm25, u)
    {
      Bm25Entry(bm25, i);
      assert forall j :: 0 <= j < i ==> CandidateUid(bm25[j]) != CandidateUid(bm25[i]);
      ranks := ranks[bm25[i].uid := Ranked(byUid[bm25[i].uid], bm25[i].chunkId)];
    }
  }

  lemma Bm25Entry(bm25: seq<Candidate>, i: nat)
    requires Distinct(CandidateUid, bm25) && i < |bm25|
    ensures Listed(ScoresOf(bm25), bm25[i].uid)
    ensures RankOf(ScoresOf(bm25), bm25[i].uid) == OwedBm25(bm25, i).rank
  {
    var xs, u := ScoresOf(bm25), bm25[i].uid;
    assert xs[i].uid == u;
    var j :| 0 <= j < |xs| && xs[j].uid == u && xs[j].score == ScoreIn(xs, u);
    assert CandidateUid(bm25[j]) == CandidateUid(bm25[i]);
  }

  lemma SameListing(cs: seq<Candidate>, uid: string)
    ensures Lists(cs, uid) <==> Listed(ScoresOf(cs), uid)
  {
    assert forall i :: 0 <= i < |cs| ==> ScoresOf(cs)[i].uid == cs[i].uid;
  }

  /** Ranks start at one. */
  predicate Positive(ranks: map<string, Ranked>) {
    forall u :: u in ranks ==> ranks[u].rank >= 1
  }

  function Part(ranks: map<string, Ranked>, uid: string): real
    requires Positive(ranks)
  {
    if uid in ranks then Reciprocal(RRF_K, ranks[uid].rank) else 0.0
  }

  function MakeHit(c: Corpus, spec: Spec, d: map<string, Ranked>, b: map<string, Ranked>, u: string): Hit
    requires Positive(d) && Positive(b)
    requires (u in d || u in b) && u in c.postings
  {
    Hit(u, (if u in d then d[u] else b[u]).chunkId, Part(d, u) + Part(b, u), Satisfies(c.postings[u], spec), None)
  }

  ghost predicate Made(c: Corpus, spec: Spec, d: map<string, Ranked>, b: map<string, Ranked>, h: Hit) {
    && Positive(d) && Positive(b)
    && (h.uid in d || h.uid in b) && h.uid in c.postings
    && h == MakeHit(c, spec, d, b, h.uid)
  }

  /** The hits of one round, unsorted: one for every posting either dict names. */
  method CollectHits(c: Corpus, spec: Spec, d: map<string, Ranked>, b: map<string, Ranked>) returns (hits: seq<Hit>)
    requires Positive(d) && Positive(b)
    ensures Distinct(HitUid, hits)
    ensures forall i :: 0 <= i < |hits| ==> Made(c, spec, d, b, hits[i])
    ensures forall u :: (u in d || u in b) && u in c.postings ==> HasUid(hits, u)
  {
    hits := [];
    var left := d.Keys + b.Keys;
    while left != {}
      invariant left <= d.Keys + b.Keys
      invariant Distinct(HitUid, hits)
      invariant forall i :: 0 <= i < |hits| ==> hits[i].uid !in left && Made(c, spec, d, b, hits[i])
      invariant forall u :: u in (d.Keys + b.Keys) - left && u in c.postings ==> HasUid(hits, u)
      decreases left
    {
      var u :| u in left;
      left := left - {u};
      if u in c.postings {
        ghost var before := hits;
        hits := hits + [MakeHit(c, spec, d, b, u)];
        assert hits[|before|].uid == u;
        forall v | HasUid(before, v)
          ensures HasUid(hits, v)
        {
          var i :| 0 <= i < |before| && before[i].uid == v;
          assert hits[i].uid == v;
        }
      }
    }
  }

  /** One round of the search under some relaxed axes. */
  method SearchOnce(c: Corpus, spec: Spec, relaxed: seq<Axis>, topK: nat)
    returns (hits: seq<Hit>, dense: seq<Candidate>, bm25: seq<Candidate>)
    ensures Round(c, spec, relaxed, topK, dense, bm25, hits)
    ensures BestFirst(hits) && forall h :: h in hits ==> ScoredBy(dense, bm25, h)
  {
    dense := DenseAxis(c, spec, relaxed);
    bm25 := Bm25Axis(c, spec, relaxed);
    var d := DenseRanks(dense);
    assert Descending(ScoresOf(bm25));
    var b := Bm25Ranks(bm25);
    assert RanksOf(dense, bm25, d, b);
    var all := CollectHits(c, spec, d, b);
    AllFromLists(c, spec, relaxed, dense, bm25, d, b, all);
    var ordered := SortBy(HitLeq, all);
    hits := Take(ordered, topK);
    CutFacts(all, topK, hits);
    CutIsRound(c, spec, topK, dense, bm25, all, hits);
    SortedIsBestFirst(hits);
    forall h | h in hits
      ensures ScoredBy(dense, bm25, h)
    {
      HitIsScored(c, spec, dense, bm25, h);
    }
  }

  /** One over the constant plus the place on the dense list, counted from one. */
  ghost predicate PlaceShare(dense: seq<Candidate>, uid: string, x: real) {
    if forall i :: 0 <= i < |dense| ==> dense[i].uid != uid then x == 0.0
    else exists i: nat :: i < |dense| && dense[i].uid == uid && x * (RRF_K + 1 + i) as real == 1.0
  }

  /** A hit's fused score, spelled out: the share of its place on the dense list plus
      the share of its rank on the BM25 list, where equal scores share a rank. */
  ghost predicate ScoredBy(dense: seq<Candidate>, bm25: seq<Candidate>, h: Hit) {
    exists x, y :: PlaceShare(dense, h.uid, x) && IsShare(ScoresOf(bm25), h.uid, RRF_K, y) && h.rrf == x + y
  }

  lemma HitIsScored(c: Corpus, spec: Spec, dense: seq<Candidate>, bm25: seq<Candidate>, h: Hit)
    requires FromLists(c, spec, dense, bm25, h)
    ensures ScoredBy(dense, bm25, h)
  {
    var x, y := DenseShare(dense, h.uid), Bm25Share(bm25, h.uid);
    ContributionIsShare(ScoresOf(bm25), h.uid, RRF_K);
    if Lists(dense, h.uid) {
      ReciprocalInverts(RRF_K, PlaceOf(dense, h.uid) + 1);
    }
    assert PlaceShare(dense, h.uid, x) && IsShare(ScoresOf(bm25), h.uid, RRF_K, y);
  }

  ghost predicate AllHits(c: Corpus, spec: Spec, dense: seq<Candidate>, bm25: seq<Candidate>, all: seq<Hit>) {
    && OnlyHits(c, spec, dense, bm25, all)
    && (forall u :: Lists(dense, u) || Lists(bm25, u) ==> HasUid(all, u))
  }

  /** The two dicts hold the lists' ranks. */
  ghost predicate RanksOf(dense: seq<Candidate>, bm25: seq<Candidate>, d: map<string, Ranked>, b: map<string, Ranked>) {
    && (forall u :: u in d <==> Lists(dense, u))
    && (forall u :: u in d ==> d[u] == Ranked(PlaceOf(dense, u) + 1, dense[PlaceOf(dense, u)].chunkId))
    && (forall i :: 0 <= i < |bm25| ==> bm25[i].uid in b && b[bm25[i].uid] == OwedBm25(bm25, i))
    && (forall u :: u in b ==> Lists(bm25, u))
  }

  lemma MadeIsOwed(c: Corpus, spec: Spec, dense: seq<Candidate>, bm25: seq<Candidate>,
                   d: map<string, Ranked>, b: map<string, Ranked>, h: Hit)
    requires RanksOf(dense, bm25, d, b) && Made(c, spec, d, b, h) && Distinct(CandidateUid, bm25)
    ensures FromLists(c, spec, dense, bm25, h)
  {
    SameListing(bm25, h.uid);
    assert Part(d, h.uid) == DenseShare(dense, h.uid);
    if h.uid in b {
      Bm25Entry(bm25, PlaceOf(bm25, h.uid));
    }
    assert Part(b, h.uid) == Bm25Share(bm25, h.uid);
  }

  lemma AllFromLists(c: Corpus, spec: Spec, relaxed: seq<Axis>, dense: seq<Candidate>, bm25: seq<Candidate>,
                     d: map<string, Ranked>, b: map<string, Ranked>, all: seq<Hit>)
    requires IsAxis(DensePool(c, spec, relaxed), CANDIDATE_K, dense)
    requires IsAxis(Bm25Pool(c, spec, relaxed), CANDIDATE_K, bm25)
    requires RanksOf(dense, bm25, d, b)
    requires forall i :: 0 <= i < |all| ==> Made(c, spec, d, b, all[i])
    requires forall u :: (u in d || u in b) && u in c.postings ==> HasUid(all, u)
    ensures AllHits(c, spec, dense, bm25, all)
  {
    forall i | 0 <= i < |all|
      ensures FromLists(c, spec, dense, bm25, all[i])
    {
      MadeIsOwed(c, spec, dense, bm25, d, b, all[i]);
    }
    forall u | Lists(dense, u) || Lists(bm25, u)
      ensures HasUid(all, u)
    {
      ListedIsEligible(c, spec, relaxed, dense, bm25, u);
    }
  }

  lemma ListedIsEligible(c: Corpus, spec: Spec, relaxed: seq<Axis>, dense: seq<Candidate>, bm25: seq<Candidate>,
                         u: string)
    requires IsAxis(DensePool(c, spec, relaxed), CANDIDATE_K, dense)
    requires IsAxis(Bm25Pool(c, spec, relaxed), CANDIDATE_K, bm25)
    requires Lists(dense, u) || Lists(bm25, u)
    ensures Eligible(c, spec, relaxed, u)
  {
    if Lists(dense, u) {
      assert BestOf(DensePool(c, spec, relaxed), dense[PlaceOf(dense, u)]);
    } else {
      assert BestOf(Bm25Pool(c, spec, relaxed), bm25[PlaceOf(bm25, u)]);
    }
  }

  /** Sorting and slicing keeps the best. */
  lemma CutFacts(all: seq<Hit>, topK: nat, hits: seq<Hit>)
    requires Distinct(HitUid, all)
    requires hits == Take(SortBy(HitLeq, all), topK)
    ensures |hits| <= topK && SortedBy(HitLeq, hits) && Distinct(HitUid, hits)
    ensures forall i :: 0 <= i < |hits| ==> hits[i] in all
    ensures forall i :: 0 <= i < |all| ==> KeptOrBeaten(topK, hits, all[i])
  {
    var ordered := SortBy(HitLeq, all);
    HitLeqIsPreorder();
    SortSorts(HitLeq, all);
    SortPermutes(HitLeq, all);
    PermutationKeepsDistinct(HitUid, all, ordered);
    assert forall i :: 0 <= i < |hits| ==> hits[i] == ordered[i];
    forall i | 0 <= i < |hits|
      ensures hits[i] in all
    {
      assert ordered[i] in ordered;
    }
    forall i | 0 <= i < |all|
      ensures KeptOrBeaten(topK, hits, all[i])
    {
      assert all[i] in ordered;
      CutKeepsOrBeats(ordered, topK, all[i]);
    }
  }

  lemma CutKeepsOrBeats(ordered: seq<Hit>, topK: nat, h: Hit)
    requires SortedBy(HitLeq, ordered) && h in ordered
    ensures KeptOrBeaten(topK, Take(ordered, topK), h)
  {
    var hits := Take(ordered, topK);
    var j :| 0 <= j < |ordered| && ordered[j] == h;
    assert j < |hits| ==> hits[j] in hits;
    assert forall i :: 0 <= i < |hits| ==> hits[i] == ordered[i];
  }

  lemma CutIsRound(c: Corpus, spec: Spec, topK: nat, dense: seq<Candidate>, bm25: seq<Candidate>,
                   all: seq<Hit>, hits: seq<Hit>)
    requires AllHits(c, spec, dense, bm25, all)
    requires forall i :: 0 <= i < |hits| ==> hits[i] in all
    requires forall i :: 0 <= i < |all| ==> KeptOrBeaten(topK, hits, all[i])
    ensures OnlyHits(c, spec, dense, bm25, hits)
    ensures EveryListed(c, spec, topK, dense, bm25, hits)
  {
    forall u | Lists(dense, u) || Lists(bm25, u)
      ensures exists h: Hit :: h.uid == u && FromLists(c, spec, dense, bm25, h) && KeptOrBeaten(topK, hits, h)
    {
      var i :| 0 <= i < |all| && all[i].uid == u;
      assert FromLists(c, spec, dense, bm25, all[i]);
    }
  }

  // ------------------------------------------------------------------ a short round is a complete one

  ghost predicate Covers(c: Corpus, spec: Spec, relaxed: seq<Axis>, hits: seq<Hit>) {
    && (forall p :: p in DensePool(c, spec, relaxed) ==> HasUid(hits, p.uid))
    && (forall p :: p in Bm25Pool(c, spec, relaxed) ==> HasUid(hits, p.uid))
  }

  function Uids(hits: seq<Hit>): (r: set<string>)
    ensures forall u :: u in r <==> HasUid(hits, u)
    ensures |r| <= |hits|
  {
    if hits == [] then {}
    else
      var front := hits[..|hits| - 1];
      assert hits == front + [hits[|hits| - 1]];
      assert forall i :: 0 <= i < |front| ==> hits[i].uid == front[i].uid;
      Uids(front) + {hits[|hits| - 1].uid}
  }

  /** A round that returns fewer hits than an axis may list has hit neither
      axis's candidate limit: it found every posting the filters admit that
      either axis can reach. */
  lemma ShortRoundIsComplete(c: Corpus, spec: Spec, relaxed: seq<Axis>, dense: seq<Candidate>, bm25: seq<Candidate>,
                             hits: seq<Hit>)
    requires Round(c, spec, relaxed, CANDIDATE_K, dense, bm25, hits) && |hits| < CANDIDATE_K
    ensures Covers(c, spec, relaxed, hits)
  {
    forall u | Lists(dense, u) || Lists(bm25, u)
      ensures HasUid(hits, u)
    {
      var h: Hit :| h.uid == u && FromLists(c, spec, dense, bm25, h) && KeptOrBeaten(CANDIDATE_K, hits, h);
    }
    DistinctFit(CandidateUid, dense, Uids(hits));
    DistinctFit(CandidateUid, bm25, Uids(hits));
  }

  /** A strict round's hits are all exact. */
  lemma StrictHitsAreExact(c: Corpus, spec: Spec, topK: nat, dense: seq<Candidate>, bm25: seq<Candidate>,
                           hits: seq<Hit>)
    requires Round(c, spec, [], topK, dense, bm25, hits)
    ensures forall i :: 0 <= i < |hits| ==> hits[i].exact
  {
    forall i | 0 <= i < |hits|
      ensures hits[i].exact
    {
      var u := hits[i].uid;
      assert FromLists(c, spec, dense, bm25, hits[i]);
      ListedIsEligible(c, spec, [], dense, bm25, u);
      FilterMeansSatisfies(c.postings[u], spec, []);
    }
  }

  /** After a short strict round, whatever a relaxed round adds is not exact. */
  lemma RelaxingFindsNoExactHit(c: Corpus, spec: Spec, strict: seq<Hit>, relaxed: seq<Axis>, topK: nat,
                                dense: seq<Candidate>, bm25: seq<Candidate>, extra: seq<Hit>)
    requires Covers(c, spec, [], strict)
    requires Round(c, spec, relaxed, topK, dense, bm25, extra)
    ensures forall i :: 0 <= i < |extra| && extra[i].exact ==> HasUid(strict, extra[i].uid)
  {
    forall i | 0 <= i < |extra| && extra[i].exact
      ensures HasUid(strict, extra[i].uid)
    {
      var u := extra[i].uid;
      assert FromLists(c, spec, dense, bm25, extra[i]);
      ListedIsEligible(c, spec, relaxed, dense, bm25, u);
      FilterMeansSatisfies(c.postings[u], spec, relaxed);
      if Lists(dense, u) {
        assert BestOf(DensePool(c, spec, relaxed), dense[PlaceOf(dense, u)]);
        assert dense[PlaceOf(dense, u)] in DensePool(c, spec, []);
      } else {
        assert BestOf(Bm25Pool(c, spec, relaxed), bm25[PlaceOf(bm25, u)]);
        assert bm25[PlaceOf(bm25, u)] in Bm25Pool(c, spec, []);
      }
    }
  }
}
