/** hybrid_search: relaxation with cumulative merge, reranking inside the tiers,
    and the final cut. */
module HybridSearch {
  import opened Common
  import opened Sorting
  import opened SearchAxes
  import opened SearchRound

  const RERANK_TOP_N: nat := 30
  const RELAX_ORDER: seq<Axis> := [Region, Exp]

  /** All exact hits come before all relaxed ones. */
  ghost predicate ExactFirst(hits: seq<Hit>) {
    forall i, j :: 0 <= i < j < |hits| && hits[j].exact ==> hits[i].exact
  }

  lemma SortedIsTiered(hits: seq<Hit>)
    requires SortedBy(HitLeq, hits)
    ensures ExactFirst(hits)
  {
    forall i, j | 0 <= i < j < |hits| && hits[j].exact
      ensures hits[i].exact
    {
      assert HitLeq(hits[i], hits[j]);
    }
  }

  // ------------------------------------------------------------------ merging a relaxed round

  function Unseen(extra: seq<Hit>, seen: set<string>): seq<Hit> {
    if extra == [] then []
    else
      var front, last := Unseen(extra[..|extra| - 1], seen), extra[|extra| - 1];
      if last.uid in seen then front else front + [last]
  }

  lemma {:induction false} UnseenFacts(extra: seq<Hit>, seen: set<string>)
    requires Distinct(HitUid, extra)
    ensures Distinct(HitUid, Unseen(extra, seen))
    ensures forall h :: h in Unseen(extra, seen) <==> h in extra && h.uid !in seen
  {
    if extra == [] {
    } else {
      var front := extra[..|extra| - 1];
      assert extra == front + [extra[|extra| - 1]];
      UnseenFacts(front, seen);
      var newHits := Unseen(front, seen);
      forall i | 0 <= i < |newHits|
        ensures HitUid(newHits[i]) != HitUid(extra[|extra| - 1])
      {
        assert newHits[i] in front;
      }
    }
  }

  lemma UnseenStaysDistinct(before: seq<Hit>, extra: seq<Hit>)
    requires Distinct(HitUid, before) && Distinct(HitUid, extra)
    ensures Distinct(HitUid, before + Unseen(extra, Uids(before)))
  {
    var newHits := Unseen(extra, Uids(before));
    UnseenFacts(extra, Uids(before));
    forall i, j | 0 <= i < |before| && 0 <= j < |newHits|
      ensures HitUid(before[i]) != HitUid(newHits[j])
    {
      assert newHits[j] in newHits;
      assert HasUid(before, before[i].uid);
    }
  }

  /** What a merge round keeps and adds. */
  ghost predicate MergeOf(before: seq<Hit>, extra: seq<Hit>, after: seq<Hit>) {
    && SortedBy(HitLeq, after)
    && Distinct(HitUid, after)
    && multiset(after) == multiset(before) + multiset(Unseen(extra, Uids(before)))
  }

  /** What one merge makes of a list: the hits not seen before join it, and all is
      sorted again. */
  function Merge(before: seq<Hit>, extra: seq<Hit>): seq<Hit> {
    SortBy(HitLeq, before + Unseen(extra, Uids(before)))
  }

  /** Hits not seen before join the merged list, which is then sorted again. */
  method MergeRound(before: seq<Hit>, seen: set<string>, extra: seq<Hit>) returns (after: seq<Hit>, seen': set<string>)
    requires Distinct(HitUid, before) && Distinct(HitUid, extra) && seen == Uids(before)
    ensures MergeOf(before, extra, after)
    ensures after == Merge(before, extra) && BestFirst(after)
    ensures seen' == Uids(after)
  {
    var newHits: seq<Hit> := [];
    seen' := seen;
    for i := 0 to |extra|
      invariant newHits == Unseen(extra[..i], seen)
    {
      assert extra[..i + 1][..i] == extra[..i];
      if extra[i].uid !in seen {
        newHits := newHits + [extra[i]];
      }
    }
    assert extra[..|extra|] == extra;
    seen' := seen + Uids(newHits);
    after := SortBy(HitLeq, before + newHits);
    UnseenStaysDistinct(before, extra);
    HitLeqIsPreorder();
    SortSorts(HitLeq, before + newHits);
    SortPermutes(HitLeq, before + newHits);
    PermutationKeepsDistinct(HitUid, before + newHits, after);
    SortedIsBestFirst(after);
    SameUids(before, newHits, after);
  }

  lemma SameUids(a: seq<Hit>, b: seq<Hit>, merged: seq<Hit>)
    requires multiset(merged) == multiset(a + b)
    ensures Uids(merged) == Uids(a) + Uids(b)
  {
    SameMembers(merged, a + b);
    forall u
      ensures u in Uids(merged) <==> u in Uids(a) + Uids(b)
    {
      UidByMember(merged, u);
      UidByMember(a, u);
      UidByMember(b, u);
    }
  }

  lemma UidByMember(hits: seq<Hit>, u: string)
    ensures HasUid(hits, u) <==> exists h :: h in hits && h.uid == u
  {
  }

  lemma MergeKeepsMembers(before: seq<Hit>, extra: seq<Hit>, after: seq<Hit>)
    requires MergeOf(before, extra, after) && Distinct(HitUid, extra)
    ensures forall h :: h in after <==> h in before || (h in extra && h.uid !in Uids(before))
    ensures forall u :: HasUid(after, u) <==> HasUid(before, u) || HasUid(extra, u)
    ensures |before| <= |after| && |extra| <= |after|
  {
    UnseenFacts(extra, Uids(before));
    SameMembers(after, before + Unseen(extra, Uids(before)));
    forall u
      ensures HasUid(after, u) <==> HasUid(before, u) || HasUid(extra, u)
    {
      UidByMember(after, u);
      UidByMember(before, u);
      UidByMember(extra, u);
    }
    DistinctFit(HitUid, extra, Uids(after));
    assert |multiset(after)| == |after| && |multiset(before)| == |before|;
  }

  // ------------------------------------------------------------------ relaxation

  /** The merged list is the strict one, unmoved, followed by inexact hits only. */
  ghost predicate StrictTier(strict: seq<Hit>, merged: seq<Hit>) {
    && strict <= merged
    && forall i :: |strict| <= i < |merged| ==> !merged[i].exact
  }

  ghost predicate AllExact(hits: seq<Hit>) {
    forall i :: 0 <= i < |hits| ==> hits[i].exact
  }

  ghost predicate NoneExact(hits: seq<Hit>) {
    forall i :: 0 <= i < |hits| ==> !hits[i].exact
  }

  /** Inexact hits sorted in behind an exact, sorted front leave it in place. */
  lemma FrontStays(strict: seq<Hit>, rest: seq<Hit>)
    requires SortedBy(HitLeq, strict) && AllExact(strict) && NoneExact(rest)
    ensures StrictTier(strict, SortBy(HitLeq, strict + rest))
  {
    forall x, y | x in strict && y in rest
      ensures HitLeq(x, y)
    {
    }
    SortKeepsFront(HitLeq, strict, rest);
    SortPermutes(HitLeq, rest);
    var sorted := SortBy(HitLeq, rest);
    forall i | 0 <= i < |sorted|
      ensures !sorted[i].exact
    {
      assert sorted[i] in rest;
    }
  }

  /** New hits that are exact would have been seen already. */
  lemma NewHitsAreInexact(before: seq<Hit>, extra: seq<Hit>)
    requires Distinct(HitUid, extra)
    requires forall i :: 0 <= i < |extra| && extra[i].exact ==> HasUid(before, extra[i].uid)
    ensures NoneExact(Unseen(extra, Uids(before)))
  {
    UnseenFacts(extra, Uids(before));
    var newHits := Unseen(extra, Uids(before));
    forall i | 0 <= i < |newHits|
      ensures !newHits[i].exact
    {
      assert newHits[i] in newHits;
    }
  }

  lemma MergeKeepsStrictTier(strict: seq<Hit>, before: seq<Hit>, newHits: seq<Hit>)
    requires SortedBy(HitLeq, strict) && AllExact(strict)
    requires StrictTier(strict, before) && NoneExact(newHits)
    ensures StrictTier(strict, SortBy(HitLeq, before + newHits))
  {
    var rest := before[|strict|..] + newHits;
    assert before + newHits == strict + rest;
    FrontStays(strict, rest);
  }

  lemma CoversGrows(c: Corpus, spec: Spec, relaxed: seq<Axis>, hits: seq<Hit>, more: seq<Hit>)
    requires Covers(c, spec, relaxed, hits)
    requires forall u :: HasUid(hits, u) ==> HasUid(more, u)
    ensures Covers(c, spec, relaxed, more)
  {
  }

  /** Relaxing only conditions that are not set searches the same pools. */
  lemma InactiveAxesKeepPools(c: Corpus, spec: Spec, relaxed: seq<Axis>)
    requires forall a :: a in relaxed ==> !Active(spec, a)
    ensures DensePool(c, spec, relaxed) == DensePool(c, spec, [])
    ensures Bm25Pool(c, spec, relaxed) == Bm25Pool(c, spec, [])
  {
    forall u
      ensures Eligible(c, spec, relaxed, u) <==> Eligible(c, spec, [], u)
    {
      if u in c.postings {
        FilterMeansSatisfies(c.postings[u], spec, relaxed);
      }
    }
  }

  predicate AnyActive(spec: Spec, axes: seq<Axis>) {
    exists a :: a in axes && Active(spec, a)
  }

  /** A list shorter than an axis's limit covers what was searched last. */
  ghost predicate ShortCovers(c: Corpus, spec: Spec, axes: seq<Axis>, merged: seq<Hit>) {
    |merged| < CANDIDATE_K ==> Covers(c, spec, axes, merged)
  }

  ghost predicate Extends(strict: seq<Hit>, merged: seq<Hit>) {
    && SortedBy(HitLeq, merged)
    && Distinct(HitUid, merged)
    && (forall h :: h in strict ==> h in merged)
    && |strict| <= |merged|
  }

  ghost predicate SafeToRelax(c: Corpus, spec: Spec, strict: seq<Hit>) {
    && Extends(strict, strict)
    && AllExact(strict)
    && ShortCovers(c, spec, [], strict)
  }

  /** Some search under these relaxed axes may have returned these hits. */
  ghost predicate IsRound(c: Corpus, spec: Spec, axes: seq<Axis>, hits: seq<Hit>) {
    exists dense, bm25 :: Round(c, spec, axes, CANDIDATE_K, dense, bm25, hits)
  }

  /** Every hit is a posting the relaxed filter lets through, and its flag says
      whether the posting meets every condition as asked. */
  ghost predicate Sound(c: Corpus, spec: Spec, relaxed: seq<Axis>, hits: seq<Hit>) {
    forall h :: h in hits ==> Eligible(c, spec, relaxed, h.uid) && h.exact == Satisfies(c.postings[h.uid], spec)
  }

  lemma RoundIsSound(c: Corpus, spec: Spec, axes: seq<Axis>, hits: seq<Hit>)
    requires IsRound(c, spec, axes, hits)
    ensures Sound(c, spec, axes, hits)
  {
    var dense, bm25 :| Round(c, spec, axes, CANDIDATE_K, dense, bm25, hits);
    forall h | h in hits
      ensures Eligible(c, spec, axes, h.uid) && h.exact == Satisfies(c.postings[h.uid], spec)
    {
      assert FromLists(c, spec, dense, bm25, h);
      ListedIsEligible(c, spec, axes, dense, bm25, h.uid);
    }
  }

  /** Relaxing more lets through no less. */
  lemma SoundGrows(c: Corpus, spec: Spec, relaxed: seq<Axis>, more: seq<Axis>, hits: seq<Hit>)
    requires Sound(c, spec, relaxed, hits)
    requires forall a :: a in relaxed ==> a in more
    ensures Sound(c, spec, more, hits)
  {
  }

  lemma MergeIsSound(c: Corpus, spec: Spec, axes: seq<Axis>, before: seq<Hit>, extra: seq<Hit>, after: seq<Hit>)
    requires Sound(c, spec, axes, before) && Sound(c, spec, axes, extra)
    requires forall h :: h in after ==> h in before || h in extra
    ensures Sound(c, spec, axes, after)
  {
  }

  /** What the search as asked finds is safe to relax from. */
  lemma StrictRoundIsSafe(c: Corpus, spec: Spec, strict: seq<Hit>)
    requires IsRound(c, spec, [], strict)
    ensures SafeToRelax(c, spec, strict)
  {
    var dense, bm25 :| Round(c, spec, [], CANDIDATE_K, dense, bm25, strict);
    StrictHitsAreExact(c, spec, CANDIDATE_K, dense, bm25, strict);
    if |strict| < CANDIDATE_K {
      ShortRoundIsComplete(c, spec, [], dense, bm25, strict);
    }
  }

  /** One round merged into the list. */
  lemma MergedRoundFacts(c: Corpus, spec: Spec, axes: seq<Axis>, strict: seq<Hit>, before: seq<Hit>,
                         extra: seq<Hit>, after: seq<Hit>)
    requires SafeToRelax(c, spec, strict) && Extends(strict, before)
    requires |strict| < CANDIDATE_K ==> StrictTier(strict, before)
    requires IsRound(c, spec, axes, extra)
    requires MergeOf(before, extra, after) && after == Merge(before, extra)
    ensures Extends(strict, after)
    ensures |strict| < CANDIDATE_K ==> StrictTier(strict, after)
    ensures ShortCovers(c, spec, axes, after)
    ensures forall h :: h in after <==> h in before || (h in extra && h.uid !in Uids(before))
  {
    var dense, bm25 :| Round(c, spec, axes, CANDIDATE_K, dense, bm25, extra);
    MergeKeepsMembers(before, extra, after);
    if |strict| < CANDIDATE_K {
      RelaxingFindsNoExactHit(c, spec, strict, axes, CANDIDATE_K, dense, bm25, extra);
      forall u | HasUid(strict, u)
        ensures HasUid(before, u)
      {
        UidByMember(strict, u);
        UidByMember(before, u);
      }
      NewHitsAreInexact(before, extra);
      MergeKeepsStrictTier(strict, before, Unseen(extra, Uids(before)));
    }
    if |after| < CANDIDATE_K {
      ShortRoundIsComplete(c, spec, axes, dense, bm25, extra);
      CoversGrows(c, spec, axes, extra, after);
    }
  }

  /** One executed round of the relaxation loop: a search under the axes, merged
      into the list. */
  method RelaxRound(c: Corpus, spec: Spec, axes: seq<Axis>, strict: seq<Hit>, before: seq<Hit>, seen: set<string>)
    returns (after: seq<Hit>, seen': set<string>, ghost extra: seq<Hit>)
    requires SafeToRelax(c, spec, strict) && Extends(strict, before) && seen == Uids(before)
    requires |strict| < CANDIDATE_K ==> StrictTier(strict, before)
    requires Sound(c, spec, axes, before)
    ensures IsRound(c, spec, axes, extra) && after == Merge(before, extra) && seen' == Uids(after)
    ensures forall h :: h in after <==> h in before || (h in extra && h.uid !in Uids(before))
    ensures Extends(strict, after) && Sound(c, spec, axes, after)
    ensures |strict| < CANDIDATE_K ==> StrictTier(strict, after)
    ensures ShortCovers(c, spec, axes, after)
  {
    var found, dense, bm25 := SearchOnce(c, spec, axes, CANDIDATE_K);
    extra := found;
    after, seen' := MergeRound(before, seen, found);
    MergedRoundFacts(c, spec, axes, strict, before, extra, after);
    RoundIsSound(c, spec, axes, extra);
    MergeIsSound(c, spec, axes, before, extra, after);
  }

  lemma ShortCoversSkipped(c: Corpus, spec: Spec, axes: seq<Axis>, strict: seq<Hit>, merged: seq<Hit>)
    requires SafeToRelax(c, spec, strict) && Extends(strict, merged)
    requires !AnyActive(spec, axes)
    ensures ShortCovers(c, spec, axes, merged)
  {
    if |merged| < CANDIDATE_K {
      InactiveAxesKeepPools(c, spec, axes);
      forall u | HasUid(strict, u)
        ensures HasUid(merged, u)
      {
        UidByMember(strict, u);
        UidByMember(merged, u);
      }
      CoversGrows(c, spec, [], strict, merged);
    }
  }

  /** A relaxed round that was searched, and what it returned. */
  datatype Pass = Pass(axes: seq<Axis>, extra: seq<Hit>)

  function AxesOf(passes: seq<Pass>): seq<seq<Axis>> {
    seq(|passes|, i requires 0 <= i < |passes| => passes[i].axes)
  }

  /** The strict list with one pass after the other merged into it. */
  function Merged(strict: seq<Hit>, passes: seq<Pass>): seq<Hit> {
    if passes == [] then strict
    else Merge(Merged(strict, passes[..|passes| - 1]), passes[|passes| - 1].extra)
  }

  /** The prefixes of an order that relax some condition that is set, shortest
      first: the only ones worth a search. */
  function ActivePrefixes(spec: Spec, order: seq<Axis>): seq<seq<Axis>> {
    if order == [] then []
    else
      var shorter := ActivePrefixes(spec, order[..|order| - 1]);
      if AnyActive(spec, order) then shorter + [order] else shorter
  }

  /** The rounds worth a search, one by one: prefixes that lift a condition on regions
      or on experience that was really asked for. */
  lemma {:induction false} ActivePrefixesSpelledOut(spec: Spec, order: seq<Axis>, n: nat)
    requires n <= |order|
    ensures order[..n] in ActivePrefixes(spec, order) <==>
      || (spec.regions != [] && exists i :: 0 <= i < n && order[i] == Region)
      || (spec.expYears.Some? && exists i :: 0 <= i < n && order[i] == Exp)
  {
    ActiveSpelledOut(spec, order[..n]);
    ActivePrefixesGrow(spec, order);
    if order == [] {
    } else {
      var front := order[..|order| - 1];
      if n < |order| {
        assert front[..n] == order[..n];
        ActivePrefixesSpelledOut(spec, front, n);
        assert forall i :: 0 <= i < n ==> front[i] == order[i];
      } else {
        PrefixEnds(order);
        ActivePrefixesGrow(spec, front);
      }
    }
  }

  /** They are prefixes, each longer than the one before. */
  lemma {:induction false} ActivePrefixesGrow(spec: Spec, order: seq<Axis>)
    ensures forall s :: s in ActivePrefixes(spec, order) ==> s <= order
    ensures forall i, j :: 0 <= i < j < |ActivePrefixes(spec, order)| ==>
      |ActivePrefixes(spec, order)[i]| < |ActivePrefixes(spec, order)[j]|
  {
    if order == [] {
    } else {
      var front := order[..|order| - 1];
      ActivePrefixesGrow(spec, front);
      assert forall s :: s in ActivePrefixes(spec, front) ==> s <= front && |s| < |order|;
    }
  }

  lemma ActiveSpelledOut(spec: Spec, axes: seq<Axis>)
    ensures AnyActive(spec, axes) <==>
      || (spec.regions != [] && exists i :: 0 <= i < |axes| && axes[i] == Region)
      || (spec.expYears.Some? && exists i :: 0 <= i < |axes| && axes[i] == Exp)
  {
    assert (exists i :: 0 <= i < |axes| && axes[i] == Region) <==> Region in axes;
    assert (exists i :: 0 <= i < |axes| && axes[i] == Exp) <==> Exp in axes;
  }

  /** The last axes searched. */
  function LastAxes(passes: seq<Pass>): seq<Axis> {
    if passes == [] then [] else passes[|passes| - 1].axes
  }

  /** How a list came about: every active prefix of what was tried was searched in
      turn, each while there were still too few hits, and all was merged. */
  ghost predicate Trail(c: Corpus, spec: Spec, strict: seq<Hit>, minResults: nat, tried: seq<Axis>,
                        passes: seq<Pass>, merged: seq<Hit>, relaxed: seq<Axis>) {
    && AxesOf(passes) == ActivePrefixes(spec, tried)
    && (forall p :: p in passes ==> IsRound(c, spec, p.axes, p.extra))
    && (forall n :: 0 <= n < |passes| ==> |Merged(strict, passes[..n])| < minResults)
    && merged == Merged(strict, passes)
    && relaxed == LastAxes(passes)
  }

  lemma TrailSkips(c: Corpus, spec: Spec, strict: seq<Hit>, minResults: nat, tried: seq<Axis>, axis: Axis,
                   passes: seq<Pass>, merged: seq<Hit>, relaxed: seq<Axis>)
    requires Trail(c, spec, strict, minResults, tried, passes, merged, relaxed)
    requires !AnyActive(spec, tried + [axis])
    ensures Trail(c, spec, strict, minResults, tried + [axis], passes, merged, relaxed)
  {
    DropLast(tried, axis);
  }

  lemma TrailGrows(c: Corpus, spec: Spec, strict: seq<Hit>, minResults: nat, tried: seq<Axis>, axis: Axis,
                   passes: seq<Pass>, merged: seq<Hit>, relaxed: seq<Axis>, extra: seq<Hit>)
    requires Trail(c, spec, strict, minResults, tried, passes, merged, relaxed)
    requires AnyActive(spec, tried + [axis]) && IsRound(c, spec, tried + [axis], extra)
    requires |merged| < minResults
    ensures Trail(c, spec, strict, minResults, tried + [axis], passes + [Pass(tried + [axis], extra)],
                  Merge(merged, extra), tried + [axis])
  {
    var pass := Pass(tried + [axis], extra);
    DropLast(tried, axis);
    DropLast(passes, pass);
    assert AxesOf(passes + [pass]) == AxesOf(passes) + [pass.axes];
    forall n | 0 <= n < |passes + [pass]|
      ensures |Merged(strict, (passes + [pass])[..n])| < minResults
    {
      assert (passes + [pass])[..n] == passes[..n];
      assert passes[..|passes|] == passes;
    }
  }

  /** Where the loop stands after trying the given axes. */
  ghost predicate RelaxedSoFar(c: Corpus, spec: Spec, strict: seq<Hit>, axes: seq<Axis>, merged: seq<Hit>,
                               relaxed: seq<Axis>) {
    && Extends(strict, merged)
    && (|strict| < CANDIDATE_K ==> StrictTier(strict, merged))
    && ShortCovers(c, spec, axes, merged)
    && Sound(c, spec, relaxed, merged)
    && (relaxed == [] ==> merged == strict)
  }

  /** relaxed names the last prefix of the order that was really searched. */
  ghost predicate Reported(spec: Spec, tried: seq<Axis>, relaxed: seq<Axis>) {
    && relaxed <= tried
    && (relaxed == [] <==> !AnyActive(spec, tried))
  }

  lemma ReportedStep(spec: Spec, before: seq<Axis>, tried: seq<Axis>, relaxed: seq<Axis>)
    requires Reported(spec, before, relaxed) && before <= tried
    ensures AnyActive(spec, tried) ==> Reported(spec, tried, tried)
    ensures !AnyActive(spec, tried) ==> Reported(spec, tried, relaxed)
  {
    assert forall a :: a in before ==> a in tried;
  }

  /** The loop got to some prefix of the order: all of it, or far enough to have
      enough hits. */
  ghost predicate RelaxedEnough(c: Corpus, spec: Spec, strict: seq<Hit>, minResults: nat, order: seq<Axis>,
                                merged: seq<Hit>, relaxed: seq<Axis>) {
    exists tried: seq<Axis>, passes: seq<Pass> ::
      && tried <= order
      && (|merged| < minResults ==> tried == order)
      && Trail(c, spec, strict, minResults, tried, passes, merged, relaxed)
      && RelaxedSoFar(c, spec, strict, tried, merged, relaxed)
      && Reported(spec, tried, relaxed)
  }

  lemma EnoughBy(c: Corpus, spec: Spec, strict: seq<Hit>, minResults: nat, order: seq<Axis>,
                 merged: seq<Hit>, relaxed: seq<Axis>, tried: seq<Axis>, passes: seq<Pass>)
    requires tried <= order && (|merged| < minResults ==> tried == order)
    requires Trail(c, spec, strict, minResults, tried, passes, merged, relaxed)
    requires RelaxedSoFar(c, spec, strict, tried, merged, relaxed) && Reported(spec, tried, relaxed)
    ensures RelaxedEnough(c, spec, strict, minResults, order, merged, relaxed)
  {
  }

  /** The loop's state after trying some axes. */
  ghost predicate Relaxing(c: Corpus, spec: Spec, strict: seq<Hit>, minResults: nat, tried: seq<Axis>,
                           passes: seq<Pass>, merged: seq<Hit>, relaxed: seq<Axis>) {
    && Trail(c, spec, strict, minResults, tried, passes, merged, relaxed)
    && RelaxedSoFar(c, spec, strict, tried, merged, relaxed)
    && Reported(spec, tried, relaxed)
  }

  lemma RelaxingStarts(c: Corpus, spec: Spec, strict: seq<Hit>, minResults: nat)
    requires IsRound(c, spec, [], strict)
    ensures SafeToRelax(c, spec, strict) && Relaxing(c, spec, strict, minResults, [], [], strict, [])
  {
    StrictRoundIsSafe(c, spec, strict);
    RoundIsSound(c, spec, [], strict);
  }

  lemma RelaxingGoesOn(c: Corpus, spec: Spec, strict: seq<Hit>, minResults: nat, tried: seq<Axis>, axis: Axis,
                       passes: seq<Pass>, before: seq<Hit>, relaxed: seq<Axis>, extra: seq<Hit>, after: seq<Hit>)
    requires Relaxing(c, spec, strict, minResults, tried, passes, before, relaxed) && |before| < minResults
    requires AnyActive(spec, tried + [axis]) && IsRound(c, spec, tried + [axis], extra) && after == Merge(before, extra)
    requires RelaxedSoFar(c, spec, strict, tried + [axis], after, tried + [axis])
    ensures Relaxing(c, spec, strict, minResults, tried + [axis], passes + [Pass(tried + [axis], extra)], after,
                     tried + [axis])
  {
    TrailGrows(c, spec, strict, minResults, tried, axis, passes, before, relaxed, extra);
    ReportedStep(spec, tried, tried + [axis], relaxed);
  }

  lemma RelaxingSkips(c: Corpus, spec: Spec, strict: seq<Hit>, minResults: nat, tried: seq<Axis>, axis: Axis,
                      passes: seq<Pass>, merged: seq<Hit>, relaxed: seq<Axis>)
    requires Relaxing(c, spec, strict, minResults, tried, passes, merged, relaxed)
    requires SafeToRelax(c, spec, strict) && !AnyActive(spec, tried + [axis])
    ensures Relaxing(c, spec, strict, minResults, tried + [axis], passes, merged, relaxed)
  {
    TrailSkips(c, spec, strict, minResults, tried, axis, passes, merged, relaxed);
    ShortCoversSkipped(c, spec, tried + [axis], strict, merged);
    ReportedStep(spec, tried, tried + [axis], relaxed);
  }

  /** One executed round of the loop, in terms of the loop's state. */
  method RelaxOnce(c: Corpus, spec: Spec, axes: seq<Axis>, strict: seq<Hit>, before: seq<Hit>, seen: set<string>,
                   ghost minResults: nat, ghost tried: seq<Axis>, ghost axis: Axis, ghost passes: seq<Pass>,
                   ghost relaxed: seq<Axis>)
    returns (after: seq<Hit>, seen': set<string>, ghost passes': seq<Pass>)
    requires SafeToRelax(c, spec, strict) && seen == Uids(before) && |before| < minResults
    requires Relaxing(c, spec, strict, minResults, tried, passes, before, relaxed)
    requires axes == tried + [axis] && AnyActive(spec, axes)
    ensures Relaxing(c, spec, strict, minResults, axes, passes', after, axes) && seen' == Uids(after)
  {
    SoundGrows(c, spec, relaxed, axes, before);
    ghost var extra;
    after, seen', extra := RelaxRound(c, spec, axes, strict, before, seen);
    RelaxingGoesOn(c, spec, strict, minResults, tried, axis, passes, before, relaxed, extra, after);
    passes' := passes + [Pass(axes, extra)];
  }

  /** The relaxation loop over growing prefixes of an order of axes, until there
      are enough hits. */
  method Relax(c: Corpus, spec: Spec, strict: seq<Hit>, minResults: nat, order: seq<Axis>)
    returns (merged: seq<Hit>, relaxed: seq<Axis>)
    requires IsRound(c, spec, [], strict) && |strict| < minResults
    ensures RelaxedEnough(c, spec, strict, minResults, order, merged, relaxed)
  {
    merged, relaxed := strict, [];
    ghost var tried: seq<Axis> := [];
    ghost var passes: seq<Pass> := [];
    var seen := Uids(merged);
    RelaxingStarts(c, spec, strict, minResults);
    PrefixEnds(order);
    for i := 1 to |order| + 1
      invariant seen == Uids(merged) && |merged| < minResults
      invariant tried == order[..i - 1]
      invariant Relaxing(c, spec, strict, minResults, tried, passes, merged, relaxed)
    {
      var axes := order[..i];
      PrefixSnoc(order, i - 1);
      if AnyActive(spec, axes) {
        merged, seen, passes :=
          RelaxOnce(c, spec, axes, strict, merged, seen, minResults, tried, order[i - 1], passes, relaxed);
        relaxed, tried := axes, axes;
        if |merged| >= minResults {
          EnoughBy(c, spec, strict, minResults, order, merged, relaxed, tried, passes);
          return;
        }
      } else {
        RelaxingSkips(c, spec, strict, minResults, tried, order[i - 1], passes, merged, relaxed);
        tried := axes;
      }
    }
    EnoughBy(c, spec, strict, minResults, order, merged, relaxed, tried, passes);
  }

  // ------------------------------------------------------------------ rerank

  /** Exact hits first; then by rerank score with unscored hits last; then by fused
      score; then by uid. */
  predicate RerankLeq(a: Hit, b: Hit) {
    || (a.exact && !b.exact)
    || (a.exact == b.exact && (Above(a.rerank, b.rerank) || (a.rerank == b.rerank && TieLeq(a, b))))
  }

  predicate Above(a: Option<real>, b: Option<real>) {
    a.Some? && (b == None || a.value > b.value)
  }

  predicate TieLeq(a: Hit, b: Hit) {
    a.rrf > b.rrf || (a.rrf == b.rrf && StrLeq(a.uid, b.uid))
  }

  lemma RerankLeqIsPreorder()
    ensures TotalPreorder(RerankLeq)
  {
    forall x: Hit, y: Hit
      ensures RerankLeq(x, y) || RerankLeq(y, x)
    {
      StrLeqTotal(x.uid, y.uid);
    }
    forall x: Hit, y: Hit, z: Hit | RerankLeq(x, y) && RerankLeq(y, z)
      ensures RerankLeq(x, z)
    {
      if x.exact == z.exact && x.rerank == y.rerank == z.rerank && x.rrf == y.rrf == z.rrf {
        StrLeqTransitive(x.uid, y.uid, z.uid);
      }
    }
  }

  /** A candidate and the text the cross-encoder scores it by. */
  datatype Pair = Pair(uid: string, text: string)

  function PairsOf(pool: seq<Hit>, texts: map<string, string>): seq<Pair> {
    if pool == [] then []
    else
      var front, h := PairsOf(pool[..|pool| - 1], texts), pool[|pool| - 1];
      if h.uid in texts then front + [Pair(h.uid, texts[h.uid])] else front
  }

  /** Which scores, if any, the scorer gave a posting: those at its own pairs' places. */
  ghost predicate AnsweredWith(pairs: seq<Pair>, answers: seq<real>, uid: string, score: Option<real>) {
    match score
    case Some(x) => exists i :: 0 <= i < |pairs| && i < |answers| && pairs[i].uid == uid && answers[i] == x
    case None => forall i :: 0 <= i < |pairs| && i < |answers| ==> pairs[i].uid != uid
  }

  /** Every hit of the reranked prefix is one of the prefix's, with the score its own
      pair was given; behind the prefix nothing changes. */
  ghost predicate Rescored(hits: seq<Hit>, pairs: seq<Pair>, answers: seq<real>, out: seq<Hit>) {
    && |out| == |hits|
    && (forall i :: 0 <= i < |out| && i < RERANK_TOP_N ==>
          AnsweredWith(pairs, answers, out[i].uid, out[i].rerank) && FromTop(hits, out[i]))
    && (forall i :: RERANK_TOP_N <= i < |out| ==> out[i] == hits[i])
  }

  ghost predicate FromTop(hits: seq<Hit>, h: Hit) {
    exists k :: 0 <= k < |hits| && k < RERANK_TOP_N && SameButScore(hits[k], h)
  }

  ghost predicate SameButScore(a: Hit, b: Hit) {
    a.uid == b.uid && a.bestChunk == b.bestChunk && a.rrf == b.rrf && a.exact == b.exact
  }

  /** In each tier of the reranked prefix scored hits lead unscored ones and higher
      scores lower ones; hits scored alike keep the order of fused score and uid. */
  ghost predicate BestScoredFirst(out: seq<Hit>) {
    forall i, j :: 0 <= i < j < |out| && j < RERANK_TOP_N && out[i].exact == out[j].exact ==>
      && (out[j].rerank.Some? ==> out[i].rerank.Some? && out[i].rerank.value >= out[j].rerank.value)
      && (out[i].rerank == out[j].rerank ==> out[i].rrf >= out[j].rrf)
      && (out[i].rerank == out[j].rerank && out[i].rrf == out[j].rrf ==> StrLeq(out[i].uid, out[j].uid))
  }

  /** What reranking promises: nothing changes without hits or answers; otherwise the
      prefix is scored by the answers to its own pairs and put in their order. */
  ghost predicate RerankedRight(hits: seq<Hit>, texts: map<string, string>, scorer: seq<Pair> -> Option<seq<real>>,
                                out: seq<Hit>) {
    var pairs := PairsOf(Take(hits, RERANK_TOP_N), texts);
    if hits == [] || scorer(pairs) == None then out == hits
    else Rescored(hits, pairs, scorer(pairs).value, out) && BestScoredFirst(out)
  }

  function Mark(h: Hit, scores: map<string, real>): Hit {
    h.(rerank := if h.uid in scores then Some(scores[h.uid]) else None)
  }

  function Marked(pool: seq<Hit>, scores: map<string, real>): (r: seq<Hit>)
    ensures |r| == |pool| && forall i :: 0 <= i < |pool| ==> r[i] == Mark(pool[i], scores)
  {
    seq(|pool|, i requires 0 <= i < |pool| => Mark(pool[i], scores))
  }

  /** The scores of a pool are the scorer's answers to the pool's own pairs. */
  ghost predicate ScoresFrom(pairs: seq<Pair>, answers: seq<real>, scores: map<string, real>) {
    && (forall i :: 0 <= i < |pairs| && i < |answers| ==> pairs[i].uid in scores && scores[pairs[i].uid] == answers[i])
    && (forall u :: u in scores ==> exists i :: 0 <= i < |pairs| && i < |answers| && pairs[i].uid == u)
  }

  lemma {:induction false} PairsFacts(pool: seq<Hit>, texts: map<string, string>)
    requires Distinct(HitUid, pool)
    ensures forall p :: p in PairsOf(pool, texts) <==> HasUid(pool, p.uid) && p.uid in texts && p.text == texts[p.uid]
    ensures forall i, j :: 0 <= i < j < |PairsOf(pool, texts)| ==> PairsOf(pool, texts)[i].uid != PairsOf(pool, texts)[j].uid
  {
    if pool == [] {
    } else {
      var front, h := pool[..|pool| - 1], pool[|pool| - 1];
      PairsFacts(front, texts);
      forall u
        ensures HasUid(pool, u) <==> HasUid(front, u) || h.uid == u
      {
        assert forall i :: 0 <= i < |front| ==> pool[i] == front[i];
      }
      forall i | 0 <= i < |PairsOf(front, texts)|
        ensures PairsOf(front, texts)[i].uid != h.uid
      {
        assert PairsOf(front, texts)[i] in PairsOf(front, texts);
        var k :| 0 <= k < |front| && front[k].uid == PairsOf(front, texts)[i].uid;
        assert HitUid(pool[k]) != HitUid(h);
      }
    }
  }

  /** Each pair's answer under its uid, as far as there are answers. */
  method ScoreMap(pairs: seq<Pair>, answers: seq<real>) returns (scores: map<string, real>)
    requires forall i, j :: 0 <= i < j < |pairs| ==> pairs[i].uid != pairs[j].uid
    ensures ScoresFrom(pairs, answers, scores)
  {
    scores := map[];
    var n := if |answers| < |pairs| then |answers| else |pairs|;
    for i := 0 to n
      invariant forall j :: 0 <= j < i ==> pairs[j].uid in scores && scores[pairs[j].uid] == answers[j]
      invariant forall u :: u in scores ==> exists j :: 0 <= j < i && pairs[j].uid == u
    {
      scores := scores[pairs[i].uid := answers[i]];
    }
  }

  ghost predicate RerankOf(hits: seq<Hit>, scores: map<string, real>, out: seq<Hit>) {
    var n := if RERANK_TOP_N < |hits| then RERANK_TOP_N else |hits|;
    && |out| == |hits|
    && out[n..] == hits[n..]
    && multiset(out[..n]) == multiset(Marked(hits[..n], scores))
    && SortedBy(RerankLeq, out[..n])
  }

  /** The scorer sees the prefix's pairs; None from it leaves everything as it was. */
  ghost predicate Reranks(hits: seq<Hit>, texts: map<string, string>, scorer: seq<Pair> -> Option<seq<real>>,
                          out: seq<Hit>) {
    var pairs := PairsOf(Take(hits, RERANK_TOP_N), texts);
    if hits == [] || scorer(pairs) == None then out == hits
    else exists scores :: ScoresFrom(pairs, scorer(pairs).value, scores) && RerankOf(hits, scores, out)
  }

  /** Rescore and resort the prefix, or leave everything as it is. */
  method ApplyRerank(hits: seq<Hit>, texts: map<string, string>, scorer: seq<Pair> -> Option<seq<real>>)
    returns (out: seq<Hit>, reranked: bool)
    requires Distinct(HitUid, hits)
    ensures Reranks(hits, texts, scorer, out) && RerankedRight(hits, texts, scorer, out)
    ensures reranked <==> hits != [] && scorer(PairsOf(Take(hits, RERANK_TOP_N), texts)).Some?
  {
    if hits == [] {
      return hits, false;
    }
    var n := if RERANK_TOP_N < |hits| then RERANK_TOP_N else |hits|;
    var pool, rest := hits[..n], hits[n..];
    assert pool == Take(hits, RERANK_TOP_N);
    var pairs: seq<Pair> := [];
    for i := 0 to |pool|
      invariant pairs == PairsOf(pool[..i], texts)
    {
      assert pool[..i + 1][..i] == pool[..i];
      if pool[i].uid in texts {
        pairs := pairs + [Pair(pool[i].uid, texts[pool[i].uid])];
      }
    }
    assert pool[..|pool|] == pool;
    var answer := scorer(pairs);
    if answer == None {
      return hits, false;
    }
    PairsFacts(pool, texts);
    var scores := ScoreMap(pairs, answer.value);
    var marked := Marked(pool, scores);
    var sorted := SortBy(RerankLeq, marked);
    RerankLeqIsPreorder();
    SortSorts(RerankLeq, marked);
    SortPermutes(RerankLeq, marked);
    out := sorted + rest;
    assert out[..n] == sorted && out[n..] == rest;
    assert RerankOf(hits, scores, out);
    ReranksAreRight(hits, texts, scorer, out);
    reranked := true;
  }

  lemma MarkIsAnswered(pairs: seq<Pair>, answers: seq<real>, scores: map<string, real>, h: Hit)
    requires ScoresFrom(pairs, answers, scores)
    ensures AnsweredWith(pairs, answers, h.uid, Mark(h, scores).rerank) && SameButScore(h, Mark(h, scores))
  {
    if h.uid in scores {
      var i :| 0 <= i < |pairs| && i < |answers| && pairs[i].uid == h.uid;
      assert scores[h.uid] == answers[i];
    }
  }

  lemma ShuffledIsRescored(hits: seq<Hit>, pairs: seq<Pair>, answers: seq<real>, scores: map<string, real>, out: seq<Hit>,
                           n: nat, i: nat)
    requires ScoresFrom(pairs, answers, scores) && Shuffled(hits, out, n, scores) && n <= RERANK_TOP_N && i < n
    ensures AnsweredWith(pairs, answers, out[i].uid, out[i].rerank) && FromTop(hits, out[i])
  {
    var k :| 0 <= k < n && out[i] == Mark(hits[..n][k], scores);
    MarkIsAnswered(pairs, answers, scores, hits[k]);
    assert SameButScore(hits[k], out[i]);
  }

  lemma MarkedIsRescored(hits: seq<Hit>, pairs: seq<Pair>, answers: seq<real>, scores: map<string, real>, out: seq<Hit>)
    requires ScoresFrom(pairs, answers, scores) && RerankOf(hits, scores, out)
    ensures Rescored(hits, pairs, answers, out)
  {
    var n := if RERANK_TOP_N < |hits| then RERANK_TOP_N else |hits|;
    SameMembers(out[..n], Marked(hits[..n], scores));
    FromPrefix(hits, out, n, scores);
    forall i: nat | i < n
      ensures AnsweredWith(pairs, answers, out[i].uid, out[i].rerank) && FromTop(hits, out[i])
    {
      ShuffledIsRescored(hits, pairs, answers, scores, out, n, i);
    }
  }

  lemma SortedIsBestScoredFirst(hits: seq<Hit>, scores: map<string, real>, out: seq<Hit>)
    requires RerankOf(hits, scores, out)
    ensures BestScoredFirst(out)
  {
    var n := if RERANK_TOP_N < |hits| then RERANK_TOP_N else |hits|;
    forall i, j | 0 <= i < j < |out| && j < RERANK_TOP_N
      ensures RerankLeq(out[i], out[j])
    {
      assert RerankLeq(out[..n][i], out[..n][j]);
    }
  }

  /** Reranking is right: own scores, best first. */
  lemma ReranksAreRight(hits: seq<Hit>, texts: map<string, string>, scorer: seq<Pair> -> Option<seq<real>>,
                        out: seq<Hit>)
    requires Reranks(hits, texts, scorer, out)
    ensures RerankedRight(hits, texts, scorer, out)
  {
    var pool := Take(hits, RERANK_TOP_N);
    var pairs := PairsOf(pool, texts);
    if hits != [] && scorer(pairs) != None {
      var scores :| ScoresFrom(pairs, scorer(pairs).value, scores) && RerankOf(hits, scores, out);
      MarkedIsRescored(hits, pairs, scorer(pairs).value, scores, out);
      SortedIsBestScoredFirst(hits, scores, out);
    }
  }

  lemma ReranksKeepsTiers(hits: seq<Hit>, texts: map<string, string>, scorer: seq<Pair> -> Option<seq<real>>,
                          out: seq<Hit>)
    requires SortedBy(HitLeq, hits) && Distinct(HitUid, hits) && Reranks(hits, texts, scorer, out)
    ensures Distinct(HitUid, out) && ExactFirst(out)
    ensures forall u :: HasUid(out, u) <==> HasUid(hits, u)
  {
    var pairs := PairsOf(Take(hits, RERANK_TOP_N), texts);
    if hits == [] || scorer(pairs) == None {
      SortedIsTiered(hits);
    } else {
      var scores :| ScoresFrom(pairs, scorer(pairs).value, scores) && RerankOf(hits, scores, out);
      RerankKeepsTiers(hits, scores, out);
    }
  }

  /** Reranking permutes only inside the prefix and never across tiers. */
  lemma RerankKeepsTiers(hits: seq<Hit>, scores: map<string, real>, out: seq<Hit>)
    requires SortedBy(HitLeq, hits) && Distinct(HitUid, hits) && RerankOf(hits, scores, out)
    ensures Distinct(HitUid, out) && ExactFirst(out)
    ensures forall u :: HasUid(out, u) <==> HasUid(hits, u)
  {
    var n := if RERANK_TOP_N < |hits| then RERANK_TOP_N else |hits|;
    var marked := Marked(hits[..n], scores);
    SortedIsTiered(hits);
    forall i, j | 0 <= i < j < |marked|
      ensures HitUid(marked[i]) != HitUid(marked[j])
    {
      assert HitUid(hits[i]) != HitUid(hits[j]);
    }
    PermutationKeepsDistinct(HitUid, marked, out[..n]);
    SameMembers(out[..n], marked);
    FromPrefix(hits, out, n, scores);
    MixedDistinct(hits, out, n, scores);
    MixedTiers(hits, out, n, scores);
    MixedUids(hits, out, n, scores);
  }

  /** The first n of out are the first n of hits, marked, in some order. */
  ghost predicate Shuffled(hits: seq<Hit>, out: seq<Hit>, n: nat, scores: map<string, real>) {
    && n <= |hits| == |out|
    && (forall j :: n <= j < |out| ==> out[j] == hits[j])
    && (forall i :: 0 <= i < n ==> IsMarkOf(hits[..n], scores, out[i]))
    && (forall k :: 0 <= k < n ==> Mark(hits[k], scores) in out[..n])
  }

  ghost predicate IsMarkOf(pool: seq<Hit>, scores: map<string, real>, h: Hit) {
    exists k :: 0 <= k < |pool| && h == Mark(pool[k], scores)
  }

  lemma FromPrefix(hits: seq<Hit>, out: seq<Hit>, n: nat, scores: map<string, real>)
    requires n <= |hits| == |out| && out[n..] == hits[n..]
    requires forall h :: h in out[..n] <==> h in Marked(hits[..n], scores)
    ensures Shuffled(hits, out, n, scores)
  {
    var marked := Marked(hits[..n], scores);
    forall j | n <= j < |out|
      ensures out[j] == hits[j]
    {
      assert out[n..][j - n] == hits[n..][j - n];
    }
    forall i | 0 <= i < n
      ensures IsMarkOf(hits[..n], scores, out[i])
    {
      assert out[..n][i] in marked;
      var k :| 0 <= k < |marked| && marked[k] == out[i];
      assert out[i] == Mark(hits[..n][k], scores);
    }
    forall k | 0 <= k < n
      ensures Mark(hits[k], scores) in out[..n]
    {
      assert marked[k] in marked;
    }
  }

  lemma MixedDistinct(hits: seq<Hit>, out: seq<Hit>, n: nat, scores: map<string, real>)
    requires Shuffled(hits, out, n, scores)
    requires Distinct(HitUid, hits) && Distinct(HitUid, out[..n])
    ensures Distinct(HitUid, out)
  {
    forall i, j | 0 <= i < j < |out|
      ensures HitUid(out[i]) != HitUid(out[j])
    {
      if j < n {
        assert HitUid(out[..n][i]) != HitUid(out[..n][j]);
      } else if i < n {
        var k :| 0 <= k < n && out[i] == Mark(hits[..n][k], scores);
        assert HitUid(hits[k]) != HitUid(hits[j]);
      } else {
        assert HitUid(hits[i]) != HitUid(hits[j]);
      }
    }
  }

  lemma MixedTiers(hits: seq<Hit>, out: seq<Hit>, n: nat, scores: map<string, real>)
    requires Shuffled(hits, out, n, scores)
    requires ExactFirst(hits) && SortedBy(RerankLeq, out[..n])
    ensures ExactFirst(out)
  {
    forall i, j | 0 <= i < j < |out| && out[j].exact
      ensures out[i].exact
    {
      if j < n {
        assert RerankLeq(out[..n][i], out[..n][j]);
      } else if i < n {
        var k :| 0 <= k < n && out[i] == Mark(hits[..n][k], scores);
      }
    }
  }

  lemma MixedUids(hits: seq<Hit>, out: seq<Hit>, n: nat, scores: map<string, real>)
    requires Shuffled(hits, out, n, scores)
    ensures forall u :: HasUid(out, u) <==> HasUid(hits, u)
  {
    forall u
      ensures HasUid(out, u) ==> HasUid(hits, u)
      ensures HasUid(hits, u) ==> HasUid(out, u)
    {
      if HasUid(out, u) {
        var i :| 0 <= i < |out| && out[i].uid == u;
        if i < n {
          var k :| 0 <= k < n && out[i] == Mark(hits[..n][k], scores);
          assert hits[k].uid == u;
        } else {
          assert hits[i].uid == u;
        }
      }
      if HasUid(hits, u) {
        var k :| 0 <= k < |hits| && hits[k].uid == u;
        if k < n {
          var i :| 0 <= i < n && out[..n][i] == Mark(hits[k], scores);
          assert out[i].uid == u;
        } else {
          assert out[k].uid == u;
        }
      }
    }
  }

  // ------------------------------------------------------------------ hybrid_search

  /** The first round: every condition as asked. */
  method StrictSearch(c: Corpus, spec: Spec) returns (hits: seq<Hit>)
    ensures IsRound(c, spec, [], hits) && SafeToRelax(c, spec, hits)
  {
    var dense, bm25;
    hits, dense, bm25 := SearchOnce(c, spec, [], CANDIDATE_K);
    StrictRoundIsSafe(c, spec, hits);
  }

  lemma MarkedIsSound(c: Corpus, spec: Spec, relaxed: seq<Axis>, hits: seq<Hit>, out: seq<Hit>, n: nat,
                      scores: map<string, real>)
    requires Sound(c, spec, relaxed, hits) && Shuffled(hits, out, n, scores)
    ensures Sound(c, spec, relaxed, out)
  {
    forall i | 0 <= i < |out|
      ensures Eligible(c, spec, relaxed, out[i].uid) && out[i].exact == Satisfies(c.postings[out[i].uid], spec)
    {
      if i < n {
        var k :| 0 <= k < n && out[i] == Mark(hits[..n][k], scores);
        assert hits[k] in hits;
      } else {
        assert hits[i] in hits;
      }
    }
  }

  lemma ReranksKeepsSound(c: Corpus, spec: Spec, relaxed: seq<Axis>, hits: seq<Hit>, texts: map<string, string>,
                          scorer: seq<Pair> -> Option<seq<real>>, out: seq<Hit>)
    requires Sound(c, spec, relaxed, hits) && Reranks(hits, texts, scorer, out)
    ensures Sound(c, spec, relaxed, out)
  {
    var pairs := PairsOf(Take(hits, RERANK_TOP_N), texts);
    if hits != [] && scorer(pairs) != None {
      var scores :| ScoresFrom(pairs, scorer(pairs).value, scores) && RerankOf(hits, scores, out);
      var n := if RERANK_TOP_N < |hits| then RERANK_TOP_N else |hits|;
      SameMembers(out[..n], Marked(hits[..n], scores));
      FromPrefix(hits, out, n, scores);
      MarkedIsSound(c, spec, relaxed, hits, out, n, scores);
    }
  }

  /** What relaxation did: nothing, or a run of its loop. */
  ghost predicate RelaxedFrom(c: Corpus, spec: Spec, minResults: nat, allowRelax: bool, strict: seq<Hit>,
                              merged: seq<Hit>, relaxed: seq<Axis>) {
    if allowRelax && |strict| < minResults
    then RelaxedEnough(c, spec, strict, minResults, RELAX_ORDER, merged, relaxed)
    else merged == strict && relaxed == []
  }

  lemma RelaxedFromFacts(c: Corpus, spec: Spec, minResults: nat, allowRelax: bool, strict: seq<Hit>,
                         merged: seq<Hit>, relaxed: seq<Axis>)
    requires IsRound(c, spec, [], strict)
    requires RelaxedFrom(c, spec, minResults, allowRelax, strict, merged, relaxed)
    ensures SafeToRelax(c, spec, strict) && Extends(strict, merged) && Sound(c, spec, relaxed, merged)
    ensures BestFirst(merged)
    ensures |strict| < CANDIDATE_K ==> StrictTier(strict, merged)
    ensures allowRelax && |merged| < minResults <= CANDIDATE_K ==> Covers(c, spec, RELAX_ORDER, merged)
  {
    StrictRoundIsSafe(c, spec, strict);
    RoundIsSound(c, spec, [], strict);
    SortedIsBestFirst(merged);
  }

  /** Ranking and cutting keep what the flags say and the order of the tiers. */
  lemma CutKeepsSound(c: Corpus, spec: Spec, relaxed: seq<Axis>, ranked: seq<Hit>, topK: nat)
    requires Sound(c, spec, relaxed, ranked) && Distinct(HitUid, ranked) && ExactFirst(ranked)
    ensures Sound(c, spec, relaxed, Take(ranked, topK))
    ensures Distinct(HitUid, Take(ranked, topK)) && ExactFirst(Take(ranked, topK))
  {
    assert Take(ranked, topK) <= ranked;
  }

  /** The whole search. `strict` is what the corpus gives for the conditions as
      asked, `merged` the list after relaxation, `ranked` the one before the cut. */
  method Search(c: Corpus, spec: Spec, topK: nat, minResults: nat, allowRelax: bool, useRerank: bool,
                texts: map<string, string>, scorer: seq<Pair> -> Option<seq<real>>)
    returns (hits: seq<Hit>, relaxed: seq<Axis>, ghost strict: seq<Hit>, ghost merged: seq<Hit>, ghost ranked: seq<Hit>)
    ensures IsRound(c, spec, [], strict) && SafeToRelax(c, spec, strict)
    ensures RelaxedFrom(c, spec, minResults, allowRelax, strict, merged, relaxed) && Extends(strict, merged)
    ensures |strict| < CANDIDATE_K ==> StrictTier(strict, merged)
    ensures allowRelax && |merged| < minResults <= CANDIDATE_K ==> Covers(c, spec, RELAX_ORDER, merged)
    ensures BestFirst(merged)
    ensures if useRerank then Reranks(merged, texts, scorer, ranked) && RerankedRight(merged, texts, scorer, ranked)
            else ranked == merged
    ensures Sound(c, spec, relaxed, ranked) && Distinct(HitUid, ranked) && ExactFirst(ranked)
    ensures forall u :: HasUid(ranked, u) <==> HasUid(merged, u)
    ensures hits == Take(ranked, topK)
    ensures Sound(c, spec, relaxed, hits) && Distinct(HitUid, hits) && ExactFirst(hits)
  {
    var first := StrictSearch(c, spec);
    strict := first;
    var list := first;
    relaxed := [];
    if allowRelax && |first| < minResults {
      list, relaxed := Relax(c, spec, first, minResults, RELAX_ORDER);
    }
    merged := list;
    RelaxedFromFacts(c, spec, minResults, allowRelax, strict, merged, relaxed);
    SortedIsTiered(list);
    if useRerank {
      var reranked;
      list, reranked := ApplyRerank(list, texts, scorer);
      ReranksKeepsTiers(merged, texts, scorer, list);
      ReranksKeepsSound(c, spec, relaxed, merged, texts, scorer, list);
    }
    ranked := list;
    hits := Take(list, topK);
    CutKeepsSound(c, spec, relaxed, ranked, topK);
  }
}
