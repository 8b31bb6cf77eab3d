/** When the fused score follows both axes. The dense axis hands out its ranks one
    by one, so equal distances are where it can fail; these lemmas say exactly when. */
module SearchTies {
  import opened Common
  import opened Sorting
  import opened Fusion
  import opened SearchAxes
  import opened SearchRound

  ghost function Fused(dense: seq<Candidate>, bm25: seq<Candidate>, u: string): real {
    DenseShare(dense, u) + Bm25Share(bm25, u)
  }

  ghost predicate NoTies(cs: seq<Candidate>) {
    forall i, j :: 0 <= i < j < |cs| ==> cs[i].score != cs[j].score
  }

  // ------------------------------------------------------------------ one axis

  /** The dense share is ordered by place, and by nothing else. */
  lemma DenseShareOrder(dense: seq<Candidate>, u: string, v: string)
    requires Distinct(CandidateUid, dense)
    ensures DenseShare(dense, u) >= DenseShare(dense, v) <==>
      (Lists(dense, v) ==> Lists(dense, u) && PlaceOf(dense, u) <= PlaceOf(dense, v))
  {
    if Lists(dense, u) && Lists(dense, v) {
      var p, q := PlaceOf(dense, u), PlaceOf(dense, v);
      if p <= q {
        ReciprocalOrder(RRF_K, p + 1, q + 1);
      } else {
        ReciprocalOrder(RRF_K, q + 1, p + 1);
      }
    }
  }

  lemma ScoreAt(cs: seq<Candidate>, i: nat)
    requires Distinct(CandidateUid, cs) && i < |cs|
    ensures Lists(cs, cs[i].uid) && PlaceOf(cs, cs[i].uid) == i
    ensures Listed(ScoresOf(cs), cs[i].uid) && ScoreIn(ScoresOf(cs), cs[i].uid) == cs[i].score
  {
    var xs, u := ScoresOf(cs), cs[i].uid;
    assert xs[i].uid == u;
    var j :| 0 <= j < |xs| && xs[j].uid == u && xs[j].score == ScoreIn(xs, u);
    OnlyPlace(cs, i);
    OnlyPlace(cs, j);
  }

  /** No worse by score means placed no later, or tied with what is placed before. */
  lemma NoWorsePlaces(pool: set<Candidate>, k: nat, dense: seq<Candidate>, u: string, v: string)
    requires IsAxis(pool, k, dense) && NoWorse(ScoresOf(dense), u, v) && Lists(dense, v)
    ensures Lists(dense, u)
    ensures PlaceOf(dense, u) <= PlaceOf(dense, v) ||
      dense[PlaceOf(dense, u)].score == dense[PlaceOf(dense, v)].score
  {
    SameListing(dense, u);
    ScoreAt(dense, PlaceOf(dense, v));
    ScoreAt(dense, PlaceOf(dense, u));
  }

  /** A strictly nearer posting is placed before. */
  lemma NearerComesFirst(pool: set<Candidate>, k: nat, dense: seq<Candidate>, u: string, v: string)
    requires IsAxis(pool, k, dense) && Lists(dense, u) && Lists(dense, v)
    requires dense[PlaceOf(dense, u)].score > dense[PlaceOf(dense, v)].score
    ensures PlaceOf(dense, u) < PlaceOf(dense, v)
  {
  }

  /** Two listed postings at one distance are no worse than each other. */
  lemma TiedEitherWay(dense: seq<Candidate>, i: nat, j: nat)
    requires Distinct(CandidateUid, dense) && i < |dense| && j < |dense| && dense[i].score == dense[j].score
    ensures NoWorse(ScoresOf(dense), dense[i].uid, dense[j].uid)
    ensures NoWorse(ScoresOf(dense), dense[j].uid, dense[i].uid)
  {
    ScoreAt(dense, i);
    ScoreAt(dense, j);
  }

  /** Yet the one placed behind has the smaller share. */
  lemma LaterSharesLess(dense: seq<Candidate>, i: nat, j: nat)
    requires Distinct(CandidateUid, dense) && i < j < |dense|
    ensures DenseShare(dense, dense[i].uid) == Reciprocal(RRF_K, i + 1)
    ensures DenseShare(dense, dense[j].uid) == Reciprocal(RRF_K, j + 1)
    ensures Reciprocal(RRF_K, j + 1) < Reciprocal(RRF_K, i + 1)
  {
    OnlyPlace(dense, i);
    OnlyPlace(dense, j);
    ReciprocalOrder(RRF_K, i + 1, j + 1);
  }

  /** The dense share follows the distance exactly where no two listed postings
      are equally near. */
  lemma DenseShareFollowsDistanceExactly(pool: set<Candidate>, k: nat, dense: seq<Candidate>)
    requires IsAxis(pool, k, dense)
    ensures (forall u, v :: NoWorse(ScoresOf(dense), u, v) ==> DenseShare(dense, u) >= DenseShare(dense, v))
       <==> NoTies(dense)
  {
    if NoTies(dense) {
      forall u, v | NoWorse(ScoresOf(dense), u, v)
        ensures DenseShare(dense, u) >= DenseShare(dense, v)
      {
        DenseShareOrder(dense, u, v);
        if Lists(dense, v) {
          NoWorsePlaces(pool, k, dense, u, v);
        }
      }
    } else {
      var i: nat, j: nat :| i < j < |dense| && dense[i].score == dense[j].score;
      TiedEitherWay(dense, i, j);
      LaterSharesLess(dense, i, j);
      assert !(DenseShare(dense, dense[j].uid) >= DenseShare(dense, dense[i].uid));
    }
  }

  // ------------------------------------------------------------------ both axes

  /** A posting no worse on both axes never fuses to a lower score. */
  ghost predicate FusesInOrder(dense: seq<Candidate>, bm25: seq<Candidate>) {
    forall u, v :: NoWorse(ScoresOf(dense), u, v) && NoWorse(ScoresOf(bm25), u, v) ==>
      Fused(dense, bm25, u) >= Fused(dense, bm25, v)
  }

  /** i is placed before j at the same distance, j is no worse on BM25, and what
      BM25 gives it more does not make up for the later place. */
  ghost predicate Wronged(dense: seq<Candidate>, bm25: seq<Candidate>, i: nat, j: nat) {
    && i < j < |dense|
    && dense[i].score == dense[j].score
    && NoWorse(ScoresOf(bm25), dense[j].uid, dense[i].uid)
    && Bm25Share(bm25, dense[j].uid) - Bm25Share(bm25, dense[i].uid) < Reciprocal(RRF_K, i + 1) - Reciprocal(RRF_K, j + 1)
  }

  /** For two given lists fusion follows both axes exactly where the later of no
      tied pair is wronged. */
  lemma FusesInOrderExactly(pool: set<Candidate>, k: nat, dense: seq<Candidate>, bm25: seq<Candidate>)
    requires IsAxis(pool, k, dense)
    ensures FusesInOrder(dense, bm25) <==> forall i: nat, j: nat :: !Wronged(dense, bm25, i, j)
  {
    if i: nat, j: nat :| Wronged(dense, bm25, i, j) {
      TiedEitherWay(dense, i, j);
      LaterSharesLess(dense, i, j);
      assert !(Fused(dense, bm25, dense[j].uid) >= Fused(dense, bm25, dense[i].uid));
    } else {
      forall u, v | NoWorse(ScoresOf(dense), u, v) && NoWorse(ScoresOf(bm25), u, v)
        ensures Fused(dense, bm25, u) >= Fused(dense, bm25, v)
      {
        NoneWronged(pool, k, dense, bm25, u, v);
      }
    }
  }

  lemma NoneWronged(pool: set<Candidate>, k: nat, dense: seq<Candidate>, bm25: seq<Candidate>, u: string, v: string)
    requires IsAxis(pool, k, dense)
    requires NoWorse(ScoresOf(dense), u, v) && NoWorse(ScoresOf(bm25), u, v)
    requires forall i: nat, j: nat :: !Wronged(dense, bm25, i, j)
    ensures Fused(dense, bm25, u) >= Fused(dense, bm25, v)
  {
    NoWorseContributes(ScoresOf(bm25), u, v, RRF_K);
    DenseShareOrder(dense, u, v);
    if Lists(dense, v) {
      NoWorsePlaces(pool, k, dense, u, v);
      var p, q := PlaceOf(dense, u), PlaceOf(dense, v);
      if q < p {
        TiedEitherWay(dense, q, p);
        LaterSharesLess(dense, q, p);
        assert !Wronged(dense, bm25, q, p);
      }
    }
  }

  /** Whatever the BM25 axis returns, fusion follows both axes: exactly where the
      dense list has no ties. */
  lemma FusesInOrderAlwaysExactly(pool: set<Candidate>, k: nat, dense: seq<Candidate>)
    requires IsAxis(pool, k, dense)
    ensures (forall bm25 :: FusesInOrder(dense, bm25)) <==> NoTies(dense)
  {
    if NoTies(dense) {
      forall bm25
        ensures FusesInOrder(dense, bm25)
      {
        FusesInOrderExactly(pool, k, dense, bm25);
      }
    } else {
      TiesAreWronged(dense);
      FusesInOrderExactly(pool, k, dense, []);
    }
  }

  /** Where BM25 finds nothing, the later of a tied pair is always wronged. */
  lemma TiesAreWronged(dense: seq<Candidate>)
    requires Distinct(CandidateUid, dense) && !NoTies(dense)
    ensures exists i: nat, j: nat :: Wronged(dense, [], i, j)
  {
    var i: nat, j: nat :| i < j < |dense| && dense[i].score == dense[j].score;
    LaterSharesLess(dense, i, j);
    SameListing([], dense[i].uid);
    SameListing([], dense[j].uid);
    assert Wronged(dense, [], i, j);
  }

  /** Inside a round and a tier: over a dense list without ties, a hit no worse on
      both axes is ranked no lower, but for the uid order between equal scores. */
  lemma NoWorseHitLeads(c: Corpus, spec: Spec, pool: set<Candidate>, dense: seq<Candidate>, bm25: seq<Candidate>,
                        hits: seq<Hit>, i: nat, j: nat)
    requires IsAxis(pool, CANDIDATE_K, dense) && NoTies(dense)
    requires OnlyHits(c, spec, dense, bm25, hits) && SortedBy(HitLeq, hits)
    requires i < |hits| && j < |hits| && hits[i].exact == hits[j].exact
    requires NoWorse(ScoresOf(dense), hits[i].uid, hits[j].uid) && NoWorse(ScoresOf(bm25), hits[i].uid, hits[j].uid)
    ensures hits[i].rrf >= hits[j].rrf
    ensures i > j ==> hits[i].rrf == hits[j].rrf && StrLeq(hits[j].uid, hits[i].uid)
  {
    FusesInOrderAlwaysExactly(pool, CANDIDATE_K, dense);
    assert FusesInOrder(dense, bm25);
    assert FromLists(c, spec, dense, bm25, hits[i]) && FromLists(c, spec, dense, bm25, hits[j]);
    assert hits[i].rrf == Fused(dense, bm25, hits[i].uid) && hits[j].rrf == Fused(dense, bm25, hits[j].uid);
    assert i > j ==> HitLeq(hits[j], hits[i]);
  }

  /** With ties too, a hit placed before another (or alone on the dense axis) and
      no worse on BM25 is never ranked below it. */
  lemma DominatingHitLeads(c: Corpus, spec: Spec, dense: seq<Candidate>, bm25: seq<Candidate>, hits: seq<Hit>,
                           i: nat, j: nat)
    requires OnlyHits(c, spec, dense, bm25, hits) && SortedBy(HitLeq, hits)
    requires i < |hits| && j < |hits| && hits[i].exact == hits[j].exact
    requires var u, v := hits[i].uid, hits[j].uid;
      && (Lists(dense, v) ==> Lists(dense, u) && PlaceOf(dense, u) <= PlaceOf(dense, v))
      && NoWorse(ScoresOf(bm25), u, v)
    ensures hits[i].rrf >= hits[j].rrf
    ensures i > j ==> hits[i].rrf == hits[j].rrf && StrLeq(hits[j].uid, hits[i].uid)
  {
    var u, v := hits[i].uid, hits[j].uid;
    assert FromLists(c, spec, dense, bm25, hits[i]) && FromLists(c, spec, dense, bm25, hits[j]);
    NoWorseContributes(ScoresOf(bm25), u, v, RRF_K);
    if Lists(dense, v) {
      ReciprocalOrder(RRF_K, PlaceOf(dense, u) + 1, PlaceOf(dense, v) + 1);
    }
    assert i > j ==> HitLeq(hits[j], hits[i]);
  }

  // ------------------------------------------------------------------ a corpus where it fails

  const ANYTHING: Spec := Spec([], None)
  const TWINS: Corpus := Corpus(
    map["a" := Posting([], None, true), "b" := Posting([], None, true)],
    [Embedded("a", "a-c0", Some(0.5)), Embedded("b", "b-c0", Some(0.5))],
    [],
    false)

  lemma TwinPools()
    ensures DensePool(TWINS, ANYTHING, []) == {Candidate("a", "a-c0", 0.5), Candidate("b", "b-c0", 0.5)}
    ensures Bm25Pool(TWINS, ANYTHING, []) == {}
  {
    var a, b := Candidate("a", "a-c0", 0.5), Candidate("b", "b-c0", 0.5);
    assert TWINS.chunks[0] in TWINS.chunks && TWINS.chunks[1] in TWINS.chunks;
    assert Eligible(TWINS, ANYTHING, [], "a") && Eligible(TWINS, ANYTHING, [], "b");
    assert forall e :: e in TWINS.chunks ==> e == TWINS.chunks[0] || e == TWINS.chunks[1];
    forall p
      ensures p in DensePool(TWINS, ANYTHING, []) <==> p == a || p == b
    {
    }
  }

  /** A list is no longer than the pool has postings. */
  lemma ListFitsPool(pool: set<Candidate>, k: nat, cs: seq<Candidate>)
    requires IsAxis(pool, k, cs)
    ensures |cs| <= |set p | p in pool :: p.uid|
  {
    var uids := set p | p in pool :: p.uid;
    forall i | 0 <= i < |cs|
      ensures CandidateUid(cs[i]) in uids
    {
      assert BestOf(pool, cs[i]);
    }
    DistinctFit(CandidateUid, cs, uids);
  }

  lemma TwinsListed(dense: seq<Candidate>)
    requires IsAxis({Candidate("a", "a-c0", 0.5), Candidate("b", "b-c0", 0.5)}, CANDIDATE_K, dense)
    ensures Lists(dense, "a") && Lists(dense, "b")
    ensures forall i :: 0 <= i < |dense| ==> dense[i].score == 0.5
  {
    var a, b := Candidate("a", "a-c0", 0.5), Candidate("b", "b-c0", 0.5);
    forall i | 0 <= i < |dense|
      ensures CandidateUid(dense[i]) in {"a", "b"} && dense[i].score == 0.5
    {
      assert BestOf({a, b}, dense[i]);
    }
    DistinctFit(CandidateUid, dense, {"a", "b"});
    assert a in {a, b} && b in {a, b};
    assert Lists(dense, a.uid) && Lists(dense, b.uid);
  }

  lemma TwinsTied(dense: seq<Candidate>)
    requires Distinct(CandidateUid, dense) && Lists(dense, "a") && Lists(dense, "b")
    requires forall i :: 0 <= i < |dense| ==> dense[i].score == 0.5
    ensures NoWorse(ScoresOf(dense), "a", "b") && NoWorse(ScoresOf(dense), "b", "a")
    ensures DenseShare(dense, "a") != DenseShare(dense, "b")
  {
    var p, q := PlaceOf(dense, "a"), PlaceOf(dense, "b");
    TiedEitherWay(dense, p, q);
    if p < q {
      LaterSharesLess(dense, p, q);
    } else {
      LaterSharesLess(dense, q, p);
    }
  }

  lemma TwinsUnscored(bm25: seq<Candidate>)
    requires IsAxis({}, CANDIDATE_K, bm25)
    ensures bm25 == []
  {
    var none: set<Candidate> := {};
    ListFitsPool(none, CANDIDATE_K, bm25);
    assert (set p | p in none :: p.uid) == {};
  }

  lemma TwinsFuseApart(dense: seq<Candidate>)
    requires IsAxis({Candidate("a", "a-c0", 0.5), Candidate("b", "b-c0", 0.5)}, CANDIDATE_K, dense)
    ensures NoWorse(ScoresOf(dense), "a", "b") && NoWorse(ScoresOf(dense), "b", "a")
    ensures NoWorse(ScoresOf([]), "a", "b") && NoWorse(ScoresOf([]), "b", "a")
    ensures Fused(dense, [], "a") != Fused(dense, [], "b")
  {
    TwinsListed(dense);
    TwinsTied(dense);
    SameListing([], "a");
    SameListing([], "b");
  }

  /** Two postings at one distance and without BM25 score are equals on both axes;
      in every round over them their fused scores differ all the same. */
  lemma TwinsAreSplit(dense: seq<Candidate>, bm25: seq<Candidate>, hits: seq<Hit>)
    requires Round(TWINS, ANYTHING, [], CANDIDATE_K, dense, bm25, hits)
    ensures NoWorse(ScoresOf(dense), "a", "b") && NoWorse(ScoresOf(dense), "b", "a")
    ensures NoWorse(ScoresOf(bm25), "a", "b") && NoWorse(ScoresOf(bm25), "b", "a")
    ensures Fused(dense, bm25, "a") != Fused(dense, bm25, "b")
    ensures !FusesInOrder(dense, bm25)
  {
    TwinPools();
    TwinsUnscored(bm25);
    TwinsFuseApart(dense);
  }
}
