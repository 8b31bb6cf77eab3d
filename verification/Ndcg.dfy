/** nDCG@k over graded judgements, for any positive decreasing discount. */
module Ndcg {
  import opened Common
  import opened Sorting

  /** One entry of the qrels dict, in dict order. */
  datatype Judged = Judged(uid: string, judgement: string)

  function Grade(judgement: string): (g: nat)
    ensures g <= 2
  {
    if judgement == "Correct" then 2 else if judgement == "Ambiguous" then 1 else 0
  }

  function UidsOf(qrels: seq<Judged>): (r: seq<string>)
    ensures |r| == |qrels| && forall i :: 0 <= i < |qrels| ==> r[i] == qrels[i].uid
  {
    seq(|qrels|, i requires 0 <= i < |qrels| => qrels[i].uid)
  }

  /** The grade a posting was judged, none where it was not judged. */
  function GradeOf(qrels: seq<Judged>, uid: string): (g: nat)
    ensures g <= 2
  {
    if qrels == [] then 0
    else if qrels[|qrels| - 1].uid == uid then Grade(qrels[|qrels| - 1].judgement)
    else GradeOf(qrels[..|qrels| - 1], uid)
  }

  /** Two for a posting judged correct, one for one judged ambiguous, none for any other
      judgement and for a posting that was not judged. */
  lemma {:induction false} GradesSpelledOut(qrels: seq<Judged>, u: string)
    requires NoRepeats(UidsOf(qrels))
    ensures GradeOf(qrels, u) == 2 <==> Judged(u, "Correct") in qrels
    ensures GradeOf(qrels, u) == 1 <==> Judged(u, "Ambiguous") in qrels
  {
    if qrels == [] {
    } else {
      var n := |qrels| - 1;
      var front, last := qrels[..n], qrels[n];
      assert qrels == front + [last];
      assert forall i :: 0 <= i < n ==> UidsOf(qrels)[i] == UidsOf(front)[i];
      GradesSpelledOut(front, u);
      assert forall q :: q in front ==> q.uid != last.uid by {
        forall q | q in front
          ensures q.uid != last.uid
        {
          var i :| 0 <= i < n && front[i] == q;
          assert UidsOf(qrels)[i] != UidsOf(qrels)[n];
        }
      }
    }
  }

  function Gains(qrels: seq<Judged>, ranked: seq<string>): (r: seq<nat>)
    ensures |r| == |ranked| && forall i :: 0 <= i < |ranked| ==> r[i] == GradeOf(qrels, ranked[i])
  {
    seq(|ranked|, i requires 0 <= i < |ranked| => GradeOf(qrels, ranked[i]))
  }

  /** Sum of g / log2(i + 2): `weight` stands for the reciprocal logarithm. */
  function Dcg(gains: seq<nat>, weight: nat -> real): real {
    if gains == [] then 0.0
    else Dcg(gains[..|gains| - 1], weight) + gains[|gains| - 1] as real * weight(|gains| - 1)
  }

  predicate GradeGeq(a: nat, b: nat) {
    a >= b
  }

  function Ideal(qrels: seq<Judged>): seq<nat> {
    SortBy(GradeGeq, Gains(qrels, UidsOf(qrels)))
  }

  function NdcgAtK(ranked: seq<string>, qrels: seq<Judged>, k: nat, weight: nat -> real): real {
    var idcg := Dcg(Take(Ideal(qrels), k), weight);
    if idcg > 0.0 then Dcg(Gains(qrels, Take(ranked, k)), weight) / idcg else 0.0
  }

  /** nDCG is the share of the ideal that the first k of the ranking reach. */
  lemma NdcgIsShare(ranked: seq<string>, qrels: seq<Judged>, k: nat, weight: nat -> real)
    ensures var idcg := Dcg(Take(Ideal(qrels), k), weight);
      var shown := seq(if k < |ranked| then k else |ranked|, i requires 0 <= i < |ranked| => GradeOf(qrels, ranked[i]));
      && (idcg > 0.0 ==> NdcgAtK(ranked, qrels, k, weight) * idcg == Dcg(shown, weight))
      && (idcg <= 0.0 ==> NdcgAtK(ranked, qrels, k, weight) == 0.0)
  {
    var shown := seq(if k < |ranked| then k else |ranked|, i requires 0 <= i < |ranked| => GradeOf(qrels, ranked[i]));
    var idcg := Dcg(Take(Ideal(qrels), k), weight);
    assert Gains(qrels, Take(ranked, k)) == shown;
    if idcg > 0.0 {
      ShareTimesWhole(Dcg(shown, weight), idcg);
    }
  }

  lemma ShareTimesWhole(a: real, b: real)
    requires b > 0.0
    ensures a / b * b == a
  {
  }

  /** What is asked of the discount. */
  ghost predicate Discount(weight: nat -> real) {
    && (forall i :: weight(i) > 0.0)
    && (forall i, j :: i <= j ==> weight(i) >= weight(j))
  }

  // ------------------------------------------------------------------ one grade threshold at a time

  /** The weight collected at positions of at least grade t. */
  function HitWeight(gains: seq<nat>, t: nat, weight: nat -> real): real {
    if gains == [] then 0.0
    else HitWeight(gains[..|gains| - 1], t, weight) + if gains[|gains| - 1] >= t then weight(|gains| - 1) else 0.0
  }

  function Hits(gains: seq<nat>, t: nat): (n: nat)
    ensures n <= |gains|
  {
    if gains == [] then 0 else Hits(gains[..|gains| - 1], t) + if gains[|gains| - 1] >= t then 1 else 0
  }

  /** The weight of the first n positions. */
  function TopWeight(n: nat, weight: nat -> real): real {
    if n == 0 then 0.0 else TopWeight(n - 1, weight) + weight(n - 1)
  }

  lemma {:induction false} DcgInLayers(gains: seq<nat>, weight: nat -> real)
    requires forall i :: 0 <= i < |gains| ==> gains[i] <= 2
    ensures Dcg(gains, weight) == HitWeight(gains, 1, weight) + HitWeight(gains, 2, weight)
  {
    if gains == [] {
    } else {
      DcgInLayers(gains[..|gains| - 1], weight);
      var g, w := gains[|gains| - 1], weight(|gains| - 1);
      assert g == 0 || g == 1 || g == 2;
      assert g as real * w == (if g >= 1 then w else 0.0) + (if g >= 2 then w else 0.0);
    }
  }

  lemma {:induction false} TopWeightGrows(m: nat, n: nat, weight: nat -> real)
    requires m <= n && Discount(weight)
    ensures 0.0 <= TopWeight(m, weight) <= TopWeight(n, weight)
    ensures m < n ==> TopWeight(m, weight) < TopWeight(n, weight)
  {
    if m < n {
      TopWeightGrows(m, n - 1, weight);
    } else if m > 0 {
      TopWeightGrows(m - 1, n - 1, weight);
    }
  }

  /** n hits anywhere weigh at most what the first n positions weigh. */
  lemma {:induction false} HitsAtBestOnTop(gains: seq<nat>, t: nat, weight: nat -> real)
    requires Discount(weight)
    ensures 0.0 <= HitWeight(gains, t, weight) <= TopWeight(Hits(gains, t), weight)
  {
    if gains == [] {
    } else {
      var front := gains[..|gains| - 1];
      HitsAtBestOnTop(front, t, weight);
      assert weight(Hits(front, t)) >= weight(|front|);
      assert weight(|front|) > 0.0;
    }
  }

  predicate Descending(gains: seq<nat>) {
    forall i, j :: 0 <= i < j < |gains| ==> gains[i] >= gains[j]
  }

  /** A descending list has its hits on top. */
  lemma {:induction false} DescendingAttains(gains: seq<nat>, t: nat, weight: nat -> real)
    requires Descending(gains)
    ensures HitWeight(gains, t, weight) == TopWeight(Hits(gains, t), weight)
    ensures gains != [] && gains[|gains| - 1] >= t ==> Hits(gains, t) == |gains|
  {
    if gains == [] {
    } else {
      var front := gains[..|gains| - 1];
      DescendingAttains(front, t, weight);
      if front != [] {
        assert front[|front| - 1] == gains[|front| - 1] >= gains[|gains| - 1];
      }
    }
  }

  lemma {:induction false} HitsOfTake(gains: seq<nat>, t: nat, k: nat)
    requires Descending(gains)
    ensures Hits(Take(gains, k), t) == if Hits(gains, t) < k then Hits(gains, t) else if k < |gains| then k else Hits(gains, t)
  {
    if k >= |gains| {
    } else {
      var front := gains[..|gains| - 1];
      HitsOfTake(front, t, k);
      assert front[..k] == gains[..k];
      DescendingAttains(gains, t, i => 1.0);
      DescendingAttains(front, t, i => 1.0);
      assert k == |front| ==> Take(front, k) == front == Take(gains, k);
    }
  }

  // ------------------------------------------------------------------ counting judged postings

  lemma {:induction false} HitsAppend(a: seq<nat>, b: seq<nat>, t: nat)
    ensures Hits(a + b, t) == Hits(a, t) + Hits(b, t)
  {
    if b == [] {
      assert a + b == a;
    } else {
      assert (a + b)[..|a + b| - 1] == a + b[..|b| - 1];
      HitsAppend(a, b[..|b| - 1], t);
    }
  }

  lemma {:induction false} HitsInsert(x: nat, s: seq<nat>, t: nat)
    ensures Hits(InsertBy(GradeGeq, x, s), t) == Hits([x], t) + Hits(s, t)
  {
    if s == [] {
    } else if GradeGeq(x, s[0]) {
      HitsAppend([x], s, t);
    } else {
      HitsInsert(x, s[1..], t);
      HitsAppend([s[0]], InsertBy(GradeGeq, x, s[1..]), t);
      HitsAppend([s[0]], s[1..], t);
      assert s == [s[0]] + s[1..];
    }
  }

  lemma {:induction false} HitsSort(s: seq<nat>, t: nat)
    ensures Hits(SortBy(GradeGeq, s), t) == Hits(s, t)
  {
    if s == [] {
    } else {
      HitsSort(s[1..], t);
      HitsInsert(s[0], SortBy(GradeGeq, s[1..]), t);
      HitsAppend([s[0]], s[1..], t);
      assert s == [s[0]] + s[1..];
    }
  }

  ghost function HitSet(qrels: seq<Judged>, uids: seq<string>, t: nat): set<string> {
    set u | u in uids && GradeOf(qrels, u) >= t
  }

  lemma HitSetSnoc(qrels: seq<Judged>, front: seq<string>, last: string, t: nat)
    requires last !in front
    ensures HitSet(qrels, front + [last], t) ==
      if GradeOf(qrels, last) >= t then HitSet(qrels, front, t) + {last} else HitSet(qrels, front, t)
    ensures last !in HitSet(qrels, front, t)
  {
  }

  lemma GainsSnoc(qrels: seq<Judged>, front: seq<string>, last: string, t: nat)
    ensures Hits(Gains(qrels, front + [last]), t) ==
      Hits(Gains(qrels, front), t) + if GradeOf(qrels, last) >= t then 1 else 0
  {
    var all := Gains(qrels, front + [last]);
    assert all == Gains(qrels, front) + [GradeOf(qrels, last)];
    assert all[..|front|] == Gains(qrels, front);
  }

  /** Over distinct uids, hits are counted once each. */
  lemma {:induction false} HitsAreASet(qrels: seq<Judged>, uids: seq<string>, t: nat)
    requires NoRepeats(uids)
    ensures |HitSet(qrels, uids, t)| == Hits(Gains(qrels, uids), t)
  {
    if uids == [] {
      assert HitSet(qrels, uids, t) == {};
    } else {
      var front, last := uids[..|uids| - 1], uids[|uids| - 1];
      HitsAreASet(qrels, front, t);
      forall i | 0 <= i < |front|
        ensures front[i] != last
      {
        assert uids[i] != last;
      }
      assert uids == front + [last];
      HitSetSnoc(qrels, front, last, t);
      GainsSnoc(qrels, front, last, t);
    }
  }

  lemma {:induction false} OnlyJudgedScore(qrels: seq<Judged>, uid: string)
    requires GradeOf(qrels, uid) > 0
    ensures uid in UidsOf(qrels)
  {
    if qrels[|qrels| - 1].uid == uid {
      assert UidsOf(qrels)[|qrels| - 1] == uid;
    } else {
      OnlyJudgedScore(qrels[..|qrels| - 1], uid);
      var i :| 0 <= i < |qrels| - 1 && UidsOf(qrels[..|qrels| - 1])[i] == uid;
      assert UidsOf(qrels)[i] == uid;
    }
  }

  lemma SubsetSize(a: set<string>, b: set<string>)
    requires a <= b
    ensures |a| <= |b|
  {
    assert b == a + (b - a);
    assert |a + (b - a)| == |a| + |b - a|;
  }

  /** A duplicate-free ranking never hits more than what was judged. */
  lemma RankingHitsAtMostJudged(qrels: seq<Judged>, ranked: seq<string>, t: nat)
    requires NoRepeats(ranked) && NoRepeats(UidsOf(qrels)) && t >= 1
    ensures Hits(Gains(qrels, ranked), t) <= Hits(Ideal(qrels), t)
  {
    HitsAreASet(qrels, ranked, t);
    HitsAreASet(qrels, UidsOf(qrels), t);
    HitsSort(Gains(qrels, UidsOf(qrels)), t);
    forall u | u in HitSet(qrels, ranked, t)
      ensures u in HitSet(qrels, UidsOf(qrels), t)
    {
      OnlyJudgedScore(qrels, u);
    }
    SubsetSize(HitSet(qrels, ranked, t), HitSet(qrels, UidsOf(qrels), t));
  }

  lemma IdealFacts(qrels: seq<Judged>)
    ensures Descending(Ideal(qrels)) && |Ideal(qrels)| == |qrels|
    ensures forall i :: 0 <= i < |Ideal(qrels)| ==> Ideal(qrels)[i] <= 2
  {
    var grades := Gains(qrels, UidsOf(qrels));
    assert TotalPreorder(GradeGeq);
    SortSorts(GradeGeq, grades);
    SortPermutes(GradeGeq, grades);
    assert forall i, j :: 0 <= i < j < |Ideal(qrels)| ==> GradeGeq(Ideal(qrels)[i], Ideal(qrels)[j]);
    forall i | 0 <= i < |Ideal(qrels)|
      ensures Ideal(qrels)[i] <= 2
    {
      assert Ideal(qrels)[i] in grades;
    }
  }

  // ------------------------------------------------------------------ optimality

  /** The sorted judgements are the best a ranking can do that shows no posting twice
      among its first k. */
  lemma IdealIsBest(ranked: seq<string>, qrels: seq<Judged>, k: nat, weight: nat -> real)
    requires NoRepeats(Take(ranked, k)) && NoRepeats(UidsOf(qrels)) && Discount(weight)
    ensures 0.0 <= Dcg(Gains(qrels, Take(ranked, k)), weight) <= Dcg(Take(Ideal(qrels), k), weight)
  {
    var gains, best := Gains(qrels, Take(ranked, k)), Take(Ideal(qrels), k);
    IdealFacts(qrels);
    DcgInLayers(gains, weight);
    DcgInLayers(best, weight);
    LayerIsBest(ranked, qrels, k, weight, 1);
    LayerIsBest(ranked, qrels, k, weight, 2);
  }

  lemma LayerIsBest(ranked: seq<string>, qrels: seq<Judged>, k: nat, weight: nat -> real, t: nat)
    requires NoRepeats(Take(ranked, k)) && NoRepeats(UidsOf(qrels)) && Discount(weight) && t >= 1
    ensures 0.0 <= HitWeight(Gains(qrels, Take(ranked, k)), t, weight) <= HitWeight(Take(Ideal(qrels), k), t, weight)
  {
    var cut := Take(ranked, k);
    var gains, best := Gains(qrels, cut), Take(Ideal(qrels), k);
    IdealFacts(qrels);
    HitsAtBestOnTop(gains, t, weight);
    RankingHitsAtMostJudged(qrels, cut, t);
    HitsOfTake(Ideal(qrels), t, k);
    DescendingAttains(best, t, weight);
    TopWeightGrows(Hits(gains, t), Hits(best, t), weight);
  }

  lemma RatioBounds(a: real, b: real)
    requires 0.0 <= a <= b && b > 0.0
    ensures 0.0 <= a / b <= 1.0
    ensures a == b ==> a / b == 1.0
  {
  }

  /** nDCG lies in [0, 1] for every ranking that shows no posting twice among its first k. */
  lemma NdcgInUnitInterval(ranked: seq<string>, qrels: seq<Judged>, k: nat, weight: nat -> real)
    requires NoRepeats(Take(ranked, k)) && NoRepeats(UidsOf(qrels)) && Discount(weight)
    ensures 0.0 <= NdcgAtK(ranked, qrels, k, weight) <= 1.0
  {
    IdealIsBest(ranked, qrels, k, weight);
    var idcg := Dcg(Take(Ideal(qrels), k), weight);
    if idcg > 0.0 {
      RatioBounds(Dcg(Gains(qrels, Take(ranked, k)), weight), idcg);
    }
  }

  predicate ByGrade(qrels: seq<Judged>, a: string, b: string) {
    GradeOf(qrels, a) >= GradeOf(qrels, b)
  }

  /** The judged postings, best grade first. */
  function Oracle(qrels: seq<Judged>): seq<string> {
    SortBy((a, b) => ByGrade(qrels, a, b), UidsOf(qrels))
  }

  lemma {:induction false} GainsOfInsert(qrels: seq<Judged>, x: string, s: seq<string>)
    ensures Gains(qrels, InsertBy((a, b) => ByGrade(qrels, a, b), x, s))
         == InsertBy(GradeGeq, GradeOf(qrels, x), Gains(qrels, s))
  {
    if s == [] {
    } else if !ByGrade(qrels, x, s[0]) {
      GainsOfInsert(qrels, x, s[1..]);
      assert Gains(qrels, s)[1..] == Gains(qrels, s[1..]);
    }
  }

  lemma {:induction false} GainsOfSort(qrels: seq<Judged>, s: seq<string>)
    ensures Gains(qrels, SortBy((a, b) => ByGrade(qrels, a, b), s)) == SortBy(GradeGeq, Gains(qrels, s))
  {
    if s == [] {
    } else {
      GainsOfSort(qrels, s[1..]);
      GainsOfInsert(qrels, s[0], SortBy((a, b) => ByGrade(qrels, a, b), s[1..]));
      assert Gains(qrels, s)[1..] == Gains(qrels, s[1..]);
    }
  }

  ghost predicate AnyRelevant(qrels: seq<Judged>) {
    exists i :: 0 <= i < |qrels| && GradeOf(qrels, qrels[i].uid) > 0
  }

  lemma {:induction false} FewerAtHigherGrade(gains: seq<nat>, weight: nat -> real)
    requires Discount(weight)
    ensures Hits(gains, 2) <= Hits(gains, 1)
    ensures Hits(gains, 1) == 0 ==> HitWeight(gains, 2, weight) == 0.0
  {
    if gains == [] {
    } else {
      FewerAtHigherGrade(gains[..|gains| - 1], weight);
    }
  }

  lemma RelevantHits(qrels: seq<Judged>)
    requires NoRepeats(UidsOf(qrels))
    ensures Hits(Ideal(qrels), 1) > 0 <==> AnyRelevant(qrels)
  {
    var uids := UidsOf(qrels);
    var relevant := HitSet(qrels, uids, 1);
    HitsSort(Gains(qrels, uids), 1);
    HitsAreASet(qrels, uids, 1);
    if i :| 0 <= i < |qrels| && GradeOf(qrels, qrels[i].uid) > 0 {
      assert uids[i] in relevant;
    } else {
      assert relevant == {};
    }
  }

  lemma PositiveWithHits(gains: seq<nat>, weight: nat -> real)
    requires Discount(weight) && Descending(gains) && forall i :: 0 <= i < |gains| ==> gains[i] <= 2
    ensures Dcg(gains, weight) > 0.0 <==> Hits(gains, 1) > 0
  {
    DcgInLayers(gains, weight);
    DescendingAttains(gains, 1, weight);
    HitsAtBestOnTop(gains, 2, weight);
    TopWeightGrows(0, Hits(gains, 1), weight);
    FewerAtHigherGrade(gains, weight);
  }

  /** Something judged relevant and a cut that shows something make the ideal positive. */
  lemma IdealIsPositive(qrels: seq<Judged>, k: nat, weight: nat -> real)
    requires NoRepeats(UidsOf(qrels)) && Discount(weight)
    ensures Dcg(Take(Ideal(qrels), k), weight) > 0.0 <==> k > 0 && AnyRelevant(qrels)
  {
    IdealFacts(qrels);
    HitsOfTake(Ideal(qrels), 1, k);
    RelevantHits(qrels);
    PositiveWithHits(Take(Ideal(qrels), k), weight);
  }

  lemma OracleIsIdeal(qrels: seq<Judged>, k: nat)
    ensures Gains(qrels, Take(Oracle(qrels), k)) == Take(Ideal(qrels), k)
  {
    GainsOfSort(qrels, UidsOf(qrels));
    assert Gains(qrels, Oracle(qrels)) == Ideal(qrels);
  }

  /** The oracle scores exactly 1 where anything can score at all, else 0. */
  lemma OracleAttains(qrels: seq<Judged>, k: nat, weight: nat -> real)
    requires NoRepeats(UidsOf(qrels)) && Discount(weight)
    ensures NdcgAtK(Oracle(qrels), qrels, k, weight) == if k > 0 && AnyRelevant(qrels) then 1.0 else 0.0
  {
    OracleIsIdeal(qrels, k);
    IdealIsPositive(qrels, k, weight);
    var idcg := Dcg(Take(Ideal(qrels), k), weight);
    if idcg > 0.0 {
      RatioBounds(idcg, idcg);
    }
  }

  // ------------------------------------------------------------------ exactly where the bound holds

  /** Every listed uid judged fully relevant. */
  function AllCorrect(uids: seq<string>): (r: seq<Judged>)
    ensures UidsOf(r) == uids
  {
    seq(|uids|, i requires 0 <= i < |uids| => Judged(uids[i], "Correct"))
  }

  lemma {:induction false} AllCorrectGrades(uids: seq<string>, u: string)
    requires u in uids
    ensures GradeOf(AllCorrect(uids), u) == 2
  {
    var n := |uids| - 1;
    if uids[n] == u {
    } else {
      assert uids == uids[..n] + [uids[n]];
      assert AllCorrect(uids)[..n] == AllCorrect(uids[..n]);
      AllCorrectGrades(uids[..n], u);
    }
  }

  lemma {:induction false} DcgOfTwos(gains: seq<nat>, weight: nat -> real)
    requires forall i :: 0 <= i < |gains| ==> gains[i] == 2
    ensures Dcg(gains, weight) == 2.0 * TopWeight(|gains|, weight)
  {
    if gains == [] {
    } else {
      DcgOfTwos(gains[..|gains| - 1], weight);
    }
  }

  lemma AllCorrectIdeal(uids: seq<string>, weight: nat -> real)
    ensures |Ideal(AllCorrect(uids))| == |uids|
    ensures Dcg(Ideal(AllCorrect(uids)), weight) == 2.0 * TopWeight(|uids|, weight)
  {
    var qrels := AllCorrect(uids);
    var ideal := Ideal(qrels);
    IdealFacts(qrels);
    SortPermutes(GradeGeq, Gains(qrels, uids));
    forall i | 0 <= i < |ideal|
      ensures ideal[i] == 2
    {
      assert ideal[i] in Gains(qrels, uids);
      var j :| 0 <= j < |uids| && Gains(qrels, uids)[j] == ideal[i];
      AllCorrectGrades(uids, uids[j]);
    }
    DcgOfTwos(ideal, weight);
  }

  /** A ranking that shows a posting twice among its first k goes past the ideal of
      the judgements that find all of it relevant. */
  lemma RepeatGoesPastIdeal(ranked: seq<string>, k: nat, weight: nat -> real)
    requires Discount(weight) && !NoRepeats(Take(ranked, k))
    ensures NdcgAtK(ranked, AllCorrect(Firsts(Take(ranked, k))), k, weight) > 1.0
  {
    var cut := Take(ranked, k);
    var uids := Firsts(cut);
    FirstsAreFewer(cut);
    assert cut[0] in uids;
    AllCorrectIdeal(uids, weight);
    var gains := Gains(AllCorrect(uids), cut);
    forall i | 0 <= i < |gains|
      ensures gains[i] == 2
    {
      AllCorrectGrades(uids, cut[i]);
    }
    DcgOfTwos(gains, weight);
    TopWeightGrows(0, |uids|, weight);
    TopWeightGrows(|uids|, |cut|, weight);
    AboveOne(Dcg(gains, weight), Dcg(Ideal(AllCorrect(uids)), weight));
  }

  lemma AboveOne(a: real, b: real)
    requires a > b > 0.0
    ensures a / b > 1.0
  {
  }

  /** nDCG stays within 1 under all judgements exactly for the rankings that show no
      posting twice among their first k. */
  lemma BoundHoldsExactly(ranked: seq<string>, k: nat, weight: nat -> real)
    requires Discount(weight)
    ensures (forall qrels :: NoRepeats(UidsOf(qrels)) ==> NdcgAtK(ranked, qrels, k, weight) <= 1.0)
       <==> NoRepeats(Take(ranked, k))
  {
    var cut := Take(ranked, k);
    if NoRepeats(cut) {
      forall qrels | NoRepeats(UidsOf(qrels))
        ensures NdcgAtK(ranked, qrels, k, weight) <= 1.0
      {
        NdcgInUnitInterval(ranked, qrels, k, weight);
      }
    } else {
      FirstsAreDistinct(cut);
      RepeatGoesPastIdeal(ranked, k, weight);
    }
  }
}
