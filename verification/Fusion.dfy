/** Ranks with ties and reciprocal rank fusion, as the search and the offline
    evaluation both use them. */
module Fusion {
  import opened Common
  import opened Sorting

  datatype Scored = Scored(uid: string, score: real)

  function UidOf(x: Scored): string {
    x.uid
  }

  predicate Descending(xs: seq<Scored>) {
    forall i, j :: 0 <= i < j < |xs| ==> xs[i].score >= xs[j].score
  }

  /** How many entries score strictly higher. */
  function Higher(xs: seq<Scored>, score: real): nat {
    if xs == [] then 0 else (if xs[|xs| - 1].score > score then 1 else 0) + Higher(xs[..|xs| - 1], score)
  }

  lemma {:induction false} HigherCounts(xs: seq<Scored>, n: nat, score: real)
    requires n <= |xs|
    requires forall i :: 0 <= i < n ==> xs[i].score > score
    requires forall i :: n <= i < |xs| ==> xs[i].score <= score
    ensures Higher(xs, score) == n
  {
    if xs == [] {
    } else {
      HigherCounts(xs[..|xs| - 1], if n == |xs| then n - 1 else n, score);
    }
  }

  lemma {:induction false} HigherIsCount(xs: seq<Scored>, score: real)
    ensures Higher(xs, score) == |set i: nat | i < |xs| && xs[i].score > score|
  {
    if xs == [] {
    } else {
      var n := |xs| - 1;
      HigherIsCount(xs[..n], score);
      assert (set i: nat | i < |xs| && xs[i].score > score) ==
        (set i: nat | i < n && xs[..n][i].score > score) + if xs[n].score > score then {n} else {};
    }
  }

  lemma {:induction false} HigherIsMonotone(xs: seq<Scored>, lo: real, hi: real)
    requires lo <= hi
    ensures Higher(xs, hi) <= Higher(xs, lo)
  {
    if xs == [] {
    } else {
      HigherIsMonotone(xs[..|xs| - 1], lo, hi);
    }
  }

  // ------------------------------------------------------------------ lists

  ghost predicate Listed(xs: seq<Scored>, uid: string) {
    exists i :: 0 <= i < |xs| && xs[i].uid == uid
  }

  /** Where a dict filled along the list ends up looking: the last occurrence. */
  ghost function ScoreIn(xs: seq<Scored>, uid: string): (r: real)
    requires Listed(xs, uid)
    ensures exists i :: 0 <= i < |xs| && xs[i].uid == uid && xs[i].score == r
  {
    var front := xs[..|xs| - 1];
    if xs[|xs| - 1].uid == uid then xs[|xs| - 1].score
    else
      assert forall i :: 0 <= i < |xs| - 1 ==> front[i] == xs[i];
      ScoreIn(front, uid)
  }

  lemma ListedSnoc(xs: seq<Scored>, n: nat, uid: string)
    requires n < |xs|
    ensures Listed(xs[..n + 1], uid) <==> Listed(xs[..n], uid) || xs[n].uid == uid
    ensures xs[n].uid == uid ==> ScoreIn(xs[..n + 1], uid) == xs[n].score
    ensures xs[n].uid != uid && Listed(xs[..n], uid) ==> ScoreIn(xs[..n + 1], uid) == ScoreIn(xs[..n], uid)
  {
    var now, before := xs[..n + 1], xs[..n];
    assert now[..|now| - 1] == before;
    assert forall i :: 0 <= i < n ==> now[i] == before[i] == xs[i];
    assert now[n] == xs[n];
  }

  /** One more than the number of strictly higher scores on the list. */
  ghost function RankOf(xs: seq<Scored>, uid: string): (r: nat)
    requires Listed(xs, uid)
    ensures r >= 1
  {
    1 + Higher(xs, ScoreIn(xs, uid))
  }

  /** The dict after the first i entries: the last entry of each posting, ranked by
      its score over the whole list. */
  ghost predicate RankedSoFar(xs: seq<Scored>, i: nat, ranks: map<string, nat>)
    requires i <= |xs|
  {
    && (forall u :: u in ranks <==> Listed(xs[..i], u))
    && (forall u :: u in ranks ==> ranks[u] >= 1)
    && (Descending(xs) ==> forall u :: u in ranks ==> ranks[u] == 1 + Higher(xs, ScoreIn(xs[..i], u)))
  }

  lemma RankOneMore(xs: seq<Scored>, i: nat, ranks: map<string, nat>, rank: nat)
    requires i < |xs| && RankedSoFar(xs, i, ranks)
    requires rank >= 1 && (Descending(xs) ==> rank == 1 + Higher(xs, xs[i].score))
    ensures RankedSoFar(xs, i + 1, ranks[xs[i].uid := rank])
  {
    var u0 := xs[i].uid;
    var after := ranks[u0 := rank];
    forall u
      ensures u in after <==> Listed(xs[..i + 1], u)
    {
      ListedSnoc(xs, i, u);
    }
    if Descending(xs) {
      forall u | u in after
        ensures after[u] == 1 + Higher(xs, ScoreIn(xs[..i + 1], u))
      {
        ListedSnoc(xs, i, u);
      }
    }
  }

  /** The rank loop. On any descending list each posting gets one more than the
      number of strictly higher scores, so equal scores share a rank. */
  method CompetitionRanks(xs: seq<Scored>) returns (ranks: map<string, nat>)
    ensures forall u :: u in ranks <==> Listed(xs, u)
    ensures forall u :: u in ranks ==> ranks[u] >= 1
    ensures Descending(xs) ==> forall u :: u in ranks ==> ranks[u] == RankOf(xs, u)
  {
    ranks := map[];
    var prevScore: Option<real>, prevRank: nat := None, 0;
    PrefixEnds(xs);
    for i := 0 to |xs|
      invariant prevScore == (if i == 0 then None else Some(xs[i - 1].score))
      invariant i > 0 ==> prevRank >= 1
      invariant i > 0 && Descending(xs) ==> prevRank == 1 + Higher(xs, xs[i - 1].score)
      invariant RankedSoFar(xs, i, ranks)
    {
      var rank := if prevScore == Some(xs[i].score) then prevRank else i + 1;
      if Descending(xs) && prevScore != Some(xs[i].score) {
        HigherCounts(xs, i, xs[i].score);
      }
      RankOneMore(xs, i, ranks, rank);
      prevScore, prevRank := Some(xs[i].score), rank;
      ranks := ranks[xs[i].uid := rank];
    }
  }

  // ------------------------------------------------------------------ fusion

  function Reciprocal(rrfK: nat, rank: nat): (r: real)
    requires rank >= 1
    ensures r > 0.0
  {
    1.0 / (rrfK + rank) as real
  }

  lemma SignOfFactor(d: real, x: real)
    requires x > 0.0
    ensures d * x >= 0.0 ==> d >= 0.0
    ensures d * x > 0.0 ==> d > 0.0
  {
  }

  lemma SmallerDenominator(x: real, y: real)
    requires 0.0 < x <= y
    ensures 1.0 / x >= 1.0 / y
    ensures x < y ==> 1.0 / x > 1.0 / y
  {
    var p, q := 1.0 / x, 1.0 / y;
    assert p * x == 1.0 && q * y == 1.0;
    assert q > 0.0;
    assert (p - q) * x == q * (y - x);
    SignOfFactor(p - q, x);
  }

  lemma ReciprocalOrder(rrfK: nat, a: nat, b: nat)
    requires 1 <= a <= b
    ensures Reciprocal(rrfK, a) >= Reciprocal(rrfK, b)
    ensures a < b ==> Reciprocal(rrfK, a) > Reciprocal(rrfK, b)
  {
    SmallerDenominator((rrfK + a) as real, (rrfK + b) as real);
  }

  /** What one axis adds: nothing for a posting it does not list. */
  ghost function Contribution(xs: seq<Scored>, uid: string, rrfK: nat): (r: real)
    ensures r >= 0.0
  {
    if Listed(xs, uid) then Reciprocal(rrfK, RankOf(xs, uid)) else 0.0
  }

  /** x is what a list adds for a posting: nothing if it is not listed, else one over
      the constant plus one plus the number of entries that score strictly higher
      than the posting's, or its last if it is listed twice. */
  ghost predicate IsShare(xs: seq<Scored>, uid: string, rrfK: nat, x: real) {
    if forall i :: 0 <= i < |xs| ==> xs[i].uid != uid then x == 0.0
    else exists i: nat :: ShareAt(xs, uid, rrfK, x, i)
  }

  ghost predicate ShareAt(xs: seq<Scored>, uid: string, rrfK: nat, x: real, i: nat) {
    && i < |xs| && xs[i].uid == uid && (forall j :: i < j < |xs| ==> xs[j].uid != uid)
    && x * (rrfK + 1 + |set j: nat | j < |xs| && xs[j].score > xs[i].score|) as real == 1.0
  }

  lemma ReciprocalInverts(rrfK: nat, rank: nat)
    requires rank >= 1
    ensures Reciprocal(rrfK, rank) * (rrfK + rank) as real == 1.0
  {
  }

  lemma {:induction false} LastOccurrence(xs: seq<Scored>, uid: string) returns (i: nat)
    requires Listed(xs, uid)
    ensures i < |xs| && xs[i].uid == uid && (forall j :: i < j < |xs| ==> xs[j].uid != uid)
    ensures ScoreIn(xs, uid) == xs[i].score
  {
    var n := |xs| - 1;
    if xs[n].uid == uid {
      i := n;
    } else {
      assert forall j :: 0 <= j < n ==> xs[..n][j] == xs[j];
      i := LastOccurrence(xs[..n], uid);
    }
  }

  lemma RankGivesShare(xs: seq<Scored>, uid: string, rrfK: nat, i: nat)
    requires i < |xs| && xs[i].uid == uid && (forall j :: i < j < |xs| ==> xs[j].uid != uid)
    requires Listed(xs, uid) && ScoreIn(xs, uid) == xs[i].score
    ensures ShareAt(xs, uid, rrfK, Reciprocal(rrfK, RankOf(xs, uid)), i)
  {
    HigherIsCount(xs, xs[i].score);
    ReciprocalInverts(rrfK, RankOf(xs, uid));
  }

  lemma ContributionIsShare(xs: seq<Scored>, uid: string, rrfK: nat)
    ensures IsShare(xs, uid, rrfK, Contribution(xs, uid, rrfK))
  {
    if Listed(xs, uid) {
      var i := LastOccurrence(xs, uid);
      RankGivesShare(xs, uid, rrfK, i);
    }
  }

  /** What fusing promises of a score: the shares of the two lists, summed. */
  ghost predicate FusedFrom(dense: seq<Scored>, bm25: seq<Scored>, uid: string, rrfK: nat, score: real) {
    exists x, y :: IsShare(dense, uid, rrfK, x) && IsShare(bm25, uid, rrfK, y) && score == x + y
  }

  lemma RrfIsFused(dense: seq<Scored>, bm25: seq<Scored>, uid: string, rrfK: nat)
    ensures FusedFrom(dense, bm25, uid, rrfK, Rrf(dense, bm25, uid, rrfK))
  {
    ContributionIsShare(dense, uid, rrfK);
    ContributionIsShare(bm25, uid, rrfK);
  }

  ghost function Rrf(dense: seq<Scored>, bm25: seq<Scored>, uid: string, rrfK: nat): real {
    Contribution(dense, uid, rrfK) + Contribution(bm25, uid, rrfK)
  }

  /** u is at least as good as v on an axis; not being listed is the worst. */
  ghost predicate NoWorse(xs: seq<Scored>, u: string, v: string) {
    Listed(xs, v) ==> Listed(xs, u) && ScoreIn(xs, u) >= ScoreIn(xs, v)
  }

  ghost predicate Better(xs: seq<Scored>, u: string, v: string) {
    Listed(xs, u) && (Listed(xs, v) ==> ScoreIn(xs, u) > ScoreIn(xs, v))
  }

  /** A score that is really on the list separates everything below it. */
  lemma {:induction false} HigherIsStrict(xs: seq<Scored>, i: nat, lo: real)
    requires i < |xs| && lo < xs[i].score
    ensures Higher(xs, xs[i].score) < Higher(xs, lo)
  {
    HigherIsMonotone(xs[..|xs| - 1], lo, xs[i].score);
    if i == |xs| - 1 {
    } else {
      HigherIsStrict(xs[..|xs| - 1], i, lo);
    }
  }

  lemma NoWorseContributes(xs: seq<Scored>, u: string, v: string, rrfK: nat)
    requires NoWorse(xs, u, v)
    ensures Contribution(xs, u, rrfK) >= Contribution(xs, v, rrfK)
    ensures Better(xs, u, v) ==> Contribution(xs, u, rrfK) > Contribution(xs, v, rrfK)
  {
    if Listed(xs, v) {
      HigherIsMonotone(xs, ScoreIn(xs, v), ScoreIn(xs, u));
      if ScoreIn(xs, u) > ScoreIn(xs, v) {
        var i :| 0 <= i < |xs| && xs[i].uid == u && xs[i].score == ScoreIn(xs, u);
        HigherIsStrict(xs, i, ScoreIn(xs, v));
      }
      ReciprocalOrder(rrfK, RankOf(xs, u), RankOf(xs, v));
    }
  }

  /** A posting no worse on both axes never fuses to a lower score, also when a
      posting is missing from an axis; strictly better on one, strictly higher. */
  lemma FusionIsMonotone(dense: seq<Scored>, bm25: seq<Scored>, u: string, v: string, rrfK: nat)
    requires NoWorse(dense, u, v) && NoWorse(bm25, u, v)
    ensures Rrf(dense, bm25, u, rrfK) >= Rrf(dense, bm25, v, rrfK)
    ensures Better(dense, u, v) || Better(bm25, u, v) ==> Rrf(dense, bm25, u, rrfK) > Rrf(dense, bm25, v, rrfK)
  {
    NoWorseContributes(dense, u, v, rrfK);
    NoWorseContributes(bm25, u, v, rrfK);
  }

  predicate FusedLeq(a: Scored, b: Scored) {
    a.score > b.score || (a.score == b.score && StrLeq(a.uid, b.uid))
  }

  lemma FusedLeqIsPreorder()
    ensures TotalPreorder(FusedLeq)
  {
    forall x: Scored, y: Scored
      ensures FusedLeq(x, y) || FusedLeq(y, x)
    {
      StrLeqTotal(x.uid, y.uid);
    }
    forall x: Scored, y: Scored, z: Scored | FusedLeq(x, y) && FusedLeq(y, z)
      ensures FusedLeq(x, z)
    {
      if x.score == y.score == z.score {
        StrLeqTransitive(x.uid, y.uid, z.uid);
      }
    }
  }

  function Owed(ranks: map<string, nat>, uid: string, rrfK: nat): real
    requires forall u :: u in ranks ==> ranks[u] >= 1
  {
    if uid in ranks then Reciprocal(rrfK, ranks[uid]) else 0.0
  }

  function Held(scores: map<string, real>, uid: string): real {
    if uid in scores then scores[uid] else 0.0
  }

  /** One axis adds its reciprocal ranks to the running sums; a posting without a sum
      starts from zero. */
  method AddAxis(before: map<string, real>, ranks: map<string, nat>, rrfK: nat) returns (scores: map<string, real>)
    requires forall u :: u in ranks ==> ranks[u] >= 1
    ensures scores.Keys == before.Keys + ranks.Keys
    ensures forall u :: u in scores ==> scores[u] == Held(before, u) + Owed(ranks, u, rrfK)
  {
    scores := before;
    var left := ranks.Keys;
    while left != {}
      invariant left <= ranks.Keys
      invariant scores.Keys == before.Keys + (ranks.Keys - left)
      invariant forall u :: u in left ==> Held(scores, u) == Held(before, u)
      invariant forall u :: u in scores && u !in left ==> scores[u] == Held(before, u) + Owed(ranks, u, rrfK)
      decreases left
    {
      var u :| u in left;
      scores := scores[u := Held(scores, u) + Reciprocal(rrfK, ranks[u])];
      left := left - {u};
    }
  }

  /** rrf_fuse: the fused list holds every posting of either prefix once, with its
      reciprocal-rank sum, best first. */
  method RrfFuse(denseAtom: seq<Scored>, bm25Atom: seq<Scored>, rrfK: nat, candK: nat) returns (fused: seq<Scored>)
    ensures forall f :: f in fused ==> Listed(Take(denseAtom, candK), f.uid) || Listed(Take(bm25Atom, candK), f.uid)
    ensures forall u :: Listed(Take(denseAtom, candK), u) || Listed(Take(bm25Atom, candK), u) ==> Listed(fused, u)
    ensures Descending(denseAtom) && Descending(bm25Atom) ==>
      forall f :: f in fused ==> f.score == Rrf(Take(denseAtom, candK), Take(bm25Atom, candK), f.uid, rrfK)
    ensures Descending(denseAtom) && Descending(bm25Atom) ==>
      forall f :: f in fused ==> FusedFrom(Take(denseAtom, candK), Take(bm25Atom, candK), f.uid, rrfK, f.score)
    ensures forall i, j :: 0 <= i < j < |fused| ==>
      fused[i].score > fused[j].score || (fused[i].score == fused[j].score && StrLeq(fused[i].uid, fused[j].uid))
    ensures Distinct(UidOf, fused)
  {
    var d, b := Take(denseAtom, candK), Take(bm25Atom, candK);
    var dRanks := CompetitionRanks(d);
    var bRanks := CompetitionRanks(b);
    fused := FuseRanks(dRanks, bRanks, rrfK);
    forall u | Listed(d, u) || Listed(b, u)
      ensures Listed(fused, u)
    {
      assert u in dRanks || u in bRanks;
    }
    if Descending(denseAtom) && Descending(bm25Atom) {
      forall f | f in fused
        ensures f.score == Rrf(d, b, f.uid, rrfK)
      {
        OwedIsContribution(d, dRanks, f.uid, rrfK);
        OwedIsContribution(b, bRanks, f.uid, rrfK);
      }
      forall f | f in fused
        ensures FusedFrom(d, b, f.uid, rrfK, f.score)
      {
        RrfIsFused(d, b, f.uid, rrfK);
      }
    }
    assert SortedBy(FusedLeq, fused);
  }

  lemma OwedIsContribution(xs: seq<Scored>, ranks: map<string, nat>, u: string, rrfK: nat)
    requires forall u :: u in ranks <==> Listed(xs, u)
    requires forall u :: u in ranks ==> ranks[u] >= 1
    requires u in ranks ==> ranks[u] == RankOf(xs, u)
    ensures Owed(ranks, u, rrfK) == Contribution(xs, u, rrfK)
  {
  }

  lemma EntriesSorted(items: seq<Scored>, fused: seq<Scored>)
    requires Distinct(UidOf, items) && fused == SortBy(FusedLeq, items)
    ensures SortedBy(FusedLeq, fused) && Distinct(UidOf, fused)
    ensures forall f :: f in fused <==> f in items
  {
    FusedLeqIsPreorder();
    SortSorts(FusedLeq, items);
    SortPermutes(FusedLeq, items);
    PermutationKeepsDistinct(UidOf, items, fused);
    SameMembers(items, fused);
  }

  /** Both axes are summed and the sums sorted, best first. */
  method FuseRanks(dRanks: map<string, nat>, bRanks: map<string, nat>, rrfK: nat) returns (fused: seq<Scored>)
    requires forall u :: u in dRanks ==> dRanks[u] >= 1
    requires forall u :: u in bRanks ==> bRanks[u] >= 1
    ensures forall f :: f in fused ==> f.uid in dRanks || f.uid in bRanks
    ensures forall f :: f in fused ==> f.score == Owed(dRanks, f.uid, rrfK) + Owed(bRanks, f.uid, rrfK)
    ensures forall u :: u in dRanks || u in bRanks ==> Listed(fused, u)
    ensures SortedBy(FusedLeq, fused) && Distinct(UidOf, fused)
  {
    var dense := AddAxis(map[], dRanks, rrfK);
    var scores := AddAxis(dense, bRanks, rrfK);
    var entries := map u | u in scores :: Scored(u, scores[u]);
    var items := Values(entries, UidOf);
    fused := SortBy(FusedLeq, items);
    EntriesSorted(items, fused);
    forall f | f in fused
      ensures f.uid in scores && f.score == Owed(dRanks, f.uid, rrfK) + Owed(bRanks, f.uid, rrfK)
    {
      assert f in items;
      assert scores[f.uid] == Held(dense, f.uid) + Owed(bRanks, f.uid, rrfK);
    }
    forall u | u in dRanks || u in bRanks
      ensures Listed(fused, u)
    {
      assert entries[u] in fused;
    }
  }
}
