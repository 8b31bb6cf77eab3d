/** Choosing a swept parameter value on the plateau around the best score. */
module Plateau {

  const PLATEAU_EPS: real := 0.01

  /** One point of the sweep curve; a curve lists its keys in sweep order. */
  datatype Point = Point(key: string, score: real)

  ghost predicate IsBest(curve: seq<Point>, best: real) {
    && (exists i :: 0 <= i < |curve| && curve[i].score == best)
    && (forall i :: 0 <= i < |curve| ==> curve[i].score <= best)
  }

  predicate Eligible(p: Point, best: real) {
    p.score >= best - PLATEAU_EPS
  }

  /** Positions lo up to but not including hi. */
  datatype Span = Span(lo: int, hi: int)

  function Len(s: Span): int {
    s.hi - s.lo
  }

  /** A run of eligible points that cannot be extended on either side. */
  ghost predicate MaximalRun(curve: seq<Point>, best: real, s: Span) {
    && 0 <= s.lo < s.hi <= |curve|
    && (forall i :: s.lo <= i < s.hi ==> Eligible(curve[i], best))
    && (s.lo > 0 ==> !Eligible(curve[s.lo - 1], best))
    && (s.hi < |curve| ==> !Eligible(curve[s.hi], best))
  }

  ghost predicate FirstLongestRun(curve: seq<Point>, best: real, s: Span) {
    && MaximalRun(curve, best, s)
    && (forall r :: MaximalRun(curve, best, r) ==> Len(r) <= Len(s))
    && (forall r :: MaximalRun(curve, best, r) && Len(r) == Len(s) ==> s.lo <= r.lo)
  }

  /** key is the first one that scores best. */
  ghost predicate FirstBest(curve: seq<Point>, best: real, key: string, i: nat) {
    && i < |curve| && curve[i] == Point(key, best)
    && forall j :: 0 <= j < i ==> curve[j].score < best
  }

  /** The best score, and the first key that reaches it. */
  method Best(curve: seq<Point>) returns (best: real, key: string)
    requires curve != []
    ensures IsBest(curve, best)
    ensures exists i: nat :: FirstBest(curve, best, key, i)
  {
    var at: nat := 0;
    for i := 1 to |curve|
      invariant at < i
      invariant forall j :: 0 <= j < i ==> curve[j].score <= curve[at].score
      invariant forall j :: 0 <= j < at ==> curve[j].score < curve[at].score
    {
      if curve[i].score > curve[at].score {
        at := i;
      }
    }
    best, key := curve[at].score, curve[at].key;
    assert FirstBest(curve, best, key, at);
  }

  ghost predicate AllRuns(curve: seq<Point>, best: real, runs: seq<Span>) {
    && (forall r :: 0 <= r < |runs| ==> MaximalRun(curve, best, runs[r]))
    && (forall r, q :: 0 <= r < q < |runs| ==> runs[r].hi <= runs[q].lo)
  }

  /** The runs that begin before `start` are listed in order; from `start` to n
      everything is eligible. */
  ghost predicate RunsSoFar(curve: seq<Point>, best: real, n: nat, runs: seq<Span>, start: nat) {
    && start <= n <= |curve|
    && AllRuns(curve, best, runs)
    && (forall r :: 0 <= r < |runs| ==> runs[r].hi <= start)
    && (forall i :: start <= i < n ==> Eligible(curve[i], best))
    && (start > 0 ==> !Eligible(curve[start - 1], best))
    && (forall s :: MaximalRun(curve, best, s) && s.lo < start ==> s in runs)
  }

  /** A run that begins within another is that run. */
  lemma RunsOverlap(curve: seq<Point>, best: real, s: Span, t: Span)
    requires MaximalRun(curve, best, s) && MaximalRun(curve, best, t) && t.lo <= s.lo < t.hi
    ensures s == t
  {
  }

  function Closed(runs: seq<Span>, start: nat, n: nat): seq<Span> {
    if start < n then runs + [Span(start, n)] else runs
  }

  lemma OpenIsMaximal(curve: seq<Point>, best: real, n: nat, runs: seq<Span>, start: nat)
    requires RunsSoFar(curve, best, n, runs, start) && start < n
    requires n < |curve| ==> !Eligible(curve[n], best)
    ensures MaximalRun(curve, best, Span(start, n))
  {
  }

  lemma AllRunsSnoc(curve: seq<Point>, best: real, runs: seq<Span>, s: Span)
    requires AllRuns(curve, best, runs) && MaximalRun(curve, best, s)
    requires forall r :: 0 <= r < |runs| ==> runs[r].hi <= s.lo
    ensures AllRuns(curve, best, runs + [s])
    ensures forall r :: 0 <= r < |runs + [s]| ==> (runs + [s])[r].hi <= s.hi
  {
  }

  lemma ClosedIsAll(curve: seq<Point>, best: real, n: nat, runs: seq<Span>, start: nat)
    requires RunsSoFar(curve, best, n, runs, start)
    requires n < |curve| ==> !Eligible(curve[n], best)
    ensures AllRuns(curve, best, Closed(runs, start, n))
    ensures forall r :: 0 <= r < |Closed(runs, start, n)| ==> Closed(runs, start, n)[r].hi <= n
  {
    if start < n {
      OpenIsMaximal(curve, best, n, runs, start);
      AllRunsSnoc(curve, best, runs, Span(start, n));
    }
  }

  lemma ClosedMissesNone(curve: seq<Point>, best: real, n: nat, runs: seq<Span>, start: nat, s: Span)
    requires RunsSoFar(curve, best, n, runs, start)
    requires n < |curve| ==> !Eligible(curve[n], best)
    requires MaximalRun(curve, best, s) && s.lo <= n
    ensures s in Closed(runs, start, n)
  {
    if s.lo < start {
      assert s in runs;
    } else {
      assert s.lo < n;
      RunsOverlap(curve, best, s, Span(start, n));
      assert Closed(runs, start, n)[|runs|] == s;
    }
  }

  lemma CloseRun(curve: seq<Point>, best: real, n: nat, runs: seq<Span>, start: nat)
    requires RunsSoFar(curve, best, n, runs, start)
    requires n < |curve| ==> !Eligible(curve[n], best)
    ensures n < |curve| ==> RunsSoFar(curve, best, n + 1, Closed(runs, start, n), n + 1)
    ensures n == |curve| ==> forall s :: MaximalRun(curve, best, s) ==> s in Closed(runs, start, n)
    ensures AllRuns(curve, best, Closed(runs, start, n))
  {
    ClosedIsAll(curve, best, n, runs, start);
    forall s | MaximalRun(curve, best, s) && s.lo <= n
      ensures s in Closed(runs, start, n)
    {
      ClosedMissesNone(curve, best, n, runs, start, s);
    }
  }

  /** The runs of eligible points, in order. */
  method Runs(curve: seq<Point>, best: real) returns (runs: seq<Span>)
    ensures AllRuns(curve, best, runs)
    ensures forall s :: MaximalRun(curve, best, s) ==> s in runs
  {
    runs := [];
    var start: nat := 0;
    for n := 0 to |curve|
      invariant RunsSoFar(curve, best, n, runs, start)
    {
      if !Eligible(curve[n], best) {
        CloseRun(curve, best, n, runs, start);
        if start < n {
          runs := runs + [Span(start, n)];
        }
        start := n + 1;
      }
    }
    CloseRun(curve, best, |curve|, runs, start);
    if start < |curve| {
      runs := runs + [Span(start, |curve|)];
    }
  }

  lemma {:induction false} StartOfRun(curve: seq<Point>, best: real, i: nat) returns (lo: nat)
    requires i < |curve| && Eligible(curve[i], best)
    ensures lo <= i && (forall j :: lo <= j <= i ==> Eligible(curve[j], best))
    ensures lo > 0 ==> !Eligible(curve[lo - 1], best)
  {
    if i > 0 && Eligible(curve[i - 1], best) {
      lo := StartOfRun(curve, best, i - 1);
    } else {
      lo := i;
    }
  }

  lemma {:induction false} EndOfRun(curve: seq<Point>, best: real, i: nat) returns (hi: nat)
    requires i < |curve| && Eligible(curve[i], best)
    ensures i < hi <= |curve| && (forall j :: i <= j < hi ==> Eligible(curve[j], best))
    ensures hi < |curve| ==> !Eligible(curve[hi], best)
    decreases |curve| - i
  {
    if i + 1 < |curve| && Eligible(curve[i + 1], best) {
      hi := EndOfRun(curve, best, i + 1);
    } else {
      hi := i + 1;
    }
  }

  /** The best point lies in some run, so there is one to choose from. */
  lemma BestIsInARun(curve: seq<Point>, best: real) returns (s: Span)
    requires IsBest(curve, best)
    ensures MaximalRun(curve, best, s)
  {
    var i :| 0 <= i < |curve| && curve[i].score == best;
    var lo := StartOfRun(curve, best, i);
    var hi := EndOfRun(curve, best, i);
    s := Span(lo, hi);
  }

  ghost predicate FirstLongest(runs: seq<Span>, at: nat) {
    && at < |runs|
    && (forall r :: 0 <= r < |runs| ==> Len(runs[r]) <= Len(runs[at]))
    && (forall r :: 0 <= r < at ==> Len(runs[r]) < Len(runs[at]))
  }

  /** The first of the longest runs. */
  method Longest(runs: seq<Span>) returns (at: nat)
    requires runs != []
    ensures FirstLongest(runs, at)
  {
    at := 0;
    for i := 1 to |runs|
      invariant FirstLongest(runs[..i], at)
    {
      if Len(runs[i]) > Len(runs[at]) {
        at := i;
      }
    }
    assert runs[..|runs|] == runs;
  }

  lemma LongestIsFirst(curve: seq<Point>, best: real, runs: seq<Span>, at: nat)
    requires AllRuns(curve, best, runs) && FirstLongest(runs, at)
    requires forall s :: MaximalRun(curve, best, s) ==> s in runs
    ensures FirstLongestRun(curve, best, runs[at])
  {
    forall s | MaximalRun(curve, best, s)
      ensures Len(s) <= Len(runs[at])
      ensures Len(s) == Len(runs[at]) ==> runs[at].lo <= s.lo
    {
      var r :| 0 <= r < |runs| && runs[r] == s;
      assert at < r ==> runs[at].hi <= runs[r].lo;
    }
  }

  ghost predicate DefaultEligible(curve: seq<Point>, best: real, dflt: string) {
    exists i :: 0 <= i < |curve| && curve[i].key == dflt && Eligible(curve[i], best)
  }

  /** The point a choice stands for: the default where it is eligible, else the
      middle of the first longest run. */
  ghost predicate IsChoice(curve: seq<Point>, best: real, dflt: string, c: int) {
    && 0 <= c < |curve|
    && Eligible(curve[c], best)
    && if DefaultEligible(curve, best, dflt) then curve[c].key == dflt
       else exists s :: FirstLongestRun(curve, best, s) && c == s.lo + Len(s) / 2
  }

  /** From lo up to hi every score is within the tolerance of the best. */
  ghost predicate Near(curve: seq<Point>, best: real, lo: int, hi: int) {
    0 <= lo < hi <= |curve| && forall i :: lo <= i < hi ==> curve[i].score + 0.01 >= best
  }

  /** The same choice spelled out over scores: within the tolerance of the best, the
      default if its own score is, else the middle of the first longest stretch of such
      scores, the later one of two middles. */
  ghost predicate ChosenRightly(curve: seq<Point>, best: real, dflt: string, c: int) {
    && 0 <= c < |curve| && curve[c].score + 0.01 >= best
    && ((exists i :: 0 <= i < |curve| && curve[i].key == dflt && curve[i].score + 0.01 >= best) ==> curve[c].key == dflt)
    && ((forall i :: 0 <= i < |curve| && curve[i].key == dflt ==> curve[i].score + 0.01 < best) ==>
          exists lo, hi :: MiddleOfLongest(curve, best, lo, hi, c))
  }

  ghost predicate MiddleOfLongest(curve: seq<Point>, best: real, lo: int, hi: int, c: int) {
    && Near(curve, best, lo, hi) && (2 * c == lo + hi || 2 * c + 1 == lo + hi)
    && (forall a, b :: Near(curve, best, a, b) ==> b - a < hi - lo || (b - a == hi - lo && lo <= a))
  }

  /** A stretch that cannot be extended, around one that may be. */
  lemma StretchToRun(curve: seq<Point>, best: real, a: int, b: int) returns (s: Span)
    requires Near(curve, best, a, b)
    ensures MaximalRun(curve, best, s) && s.lo <= a && b <= s.hi
    decreases a + |curve| - b
  {
    if a > 0 && curve[a - 1].score + 0.01 >= best {
      s := StretchToRun(curve, best, a - 1, b);
    } else if b < |curve| && curve[b].score + 0.01 >= best {
      s := StretchToRun(curve, best, a, b + 1);
    } else {
      s := Span(a, b);
    }
  }

  lemma LongestRunIsLongest(curve: seq<Point>, best: real, s: Span, c: int)
    requires FirstLongestRun(curve, best, s) && c == s.lo + Len(s) / 2
    ensures MiddleOfLongest(curve, best, s.lo, s.hi, c)
  {
    forall a, b | Near(curve, best, a, b)
      ensures b - a < s.hi - s.lo || (b - a == s.hi - s.lo && s.lo <= a)
    {
      var t := StretchToRun(curve, best, a, b);
      assert Len(t) <= Len(s);
    }
  }

  lemma ChoiceIsRight(curve: seq<Point>, best: real, dflt: string, c: int)
    requires IsChoice(curve, best, dflt, c)
    ensures ChosenRightly(curve, best, dflt, c)
  {
    if !DefaultEligible(curve, best, dflt) {
      var s :| FirstLongestRun(curve, best, s) && c == s.lo + Len(s) / 2;
      LongestRunIsLongest(curve, best, s, c);
    } else {
      var i :| 0 <= i < |curve| && curve[i].key == dflt && Eligible(curve[i], best);
    }
  }

  /** The choice for a curve. An empty curve has no maximum and is an error, so a
      curve has a point. */
  method PlateauPick(curve: seq<Point>, dflt: string) returns (chosen: string, bestKey: string, changed: bool,
                     best: real)
    requires curve != []
    ensures IsBest(curve, best)
    ensures exists c :: IsChoice(curve, best, dflt, c) && ChosenRightly(curve, best, dflt, c) && chosen == curve[c].key
    ensures changed == (chosen != dflt)
    ensures exists i: nat :: FirstBest(curve, best, bestKey, i)
  {
    best, bestKey := Best(curve);
    var found: bool, at: int := false, 0;
    for i := 0 to |curve|
      invariant found <==> exists j :: 0 <= j < i && curve[j].key == dflt && Eligible(curve[j], best)
      invariant found ==> 0 <= at < |curve| && curve[at].key == dflt && Eligible(curve[at], best)
    {
      if curve[i].key == dflt && Eligible(curve[i], best) {
        found, at := true, i;
      }
    }
    if !found {
      var runs := Runs(curve, best);
      ghost var some := BestIsInARun(curve, best);
      assert some in runs;
      var longest := Longest(runs);
      LongestIsFirst(curve, best, runs, longest);
      at := runs[longest].lo + Len(runs[longest]) / 2;
    }
    assert IsChoice(curve, best, dflt, at);
    ChoiceIsRight(curve, best, dflt, at);
    chosen := curve[at].key;
    changed := chosen != dflt;
  }
}
