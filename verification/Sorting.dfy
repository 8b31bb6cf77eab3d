/** Sorting under a key order: what list.sort and sorted are relied on for. */
module Sorting {

  predicate SortedBy<T(!new)>(leq: (T, T) -> bool, s: seq<T>) {
    forall i, j :: 0 <= i < j < |s| ==> leq(s[i], s[j])
  }

  ghost predicate TotalPreorder<T(!new)>(leq: (T, T) -> bool) {
    && (forall x, y :: leq(x, y) || leq(y, x))
    && (forall x, y, z :: leq(x, y) && leq(y, z) ==> leq(x, z))
  }

  function InsertBy<T(!new)>(leq: (T, T) -> bool, x: T, s: seq<T>): seq<T> {
    if s == [] then [x]
    else if leq(x, s[0]) then [x] + s
    else [s[0]] + InsertBy(leq, x, s[1..])
  }

  /** Stable: of two elements the order ranks equally, the earlier stays first. */
  function SortBy<T(!new)>(leq: (T, T) -> bool, s: seq<T>): seq<T> {
    if s == [] then [] else InsertBy(leq, s[0], SortBy(leq, s[1..]))
  }

  lemma {:induction false} InsertPermutes<T(!new)>(leq: (T, T) -> bool, x: T, s: seq<T>)
    ensures multiset(InsertBy(leq, x, s)) == multiset{x} + multiset(s)
  {
    if s == [] {
    } else {
      assert s == [s[0]] + s[1..];
      if !leq(x, s[0]) {
        InsertPermutes(leq, x, s[1..]);
      }
    }
  }

  lemma {:induction false} SortPermutes<T(!new)>(leq: (T, T) -> bool, s: seq<T>)
    ensures multiset(SortBy(leq, s)) == multiset(s)
    ensures |SortBy(leq, s)| == |s|
    ensures forall x :: x in SortBy(leq, s) <==> x in s
  {
    if s == [] {
    } else {
      assert s == [s[0]] + s[1..];
      SortPermutes(leq, s[1..]);
      InsertPermutes(leq, s[0], SortBy(leq, s[1..]));
    }
    SameMembers(SortBy(leq, s), s);
  }

  lemma SameMembers<T>(a: seq<T>, b: seq<T>)
    requires multiset(a) == multiset(b)
    ensures |a| == |b|
    ensures forall x :: x in a <==> x in b
  {
    assert |multiset(a)| == |a| && |multiset(b)| == |b|;
    forall x
      ensures x in a <==> x in b
    {
      assert x in a <==> x in multiset(a);
      assert x in b <==> x in multiset(b);
    }
  }

  lemma {:induction false} InsertSorts<T(!new)>(leq: (T, T) -> bool, x: T, s: seq<T>)
    requires TotalPreorder(leq) && SortedBy(leq, s)
    ensures SortedBy(leq, InsertBy(leq, x, s))
  {
    if s == [] {
    } else if !leq(x, s[0]) {
      InsertSorts(leq, x, s[1..]);
      InsertPermutes(leq, x, s[1..]);
      var rest := InsertBy(leq, x, s[1..]);
      FirstBeforeAll(leq, s[0], x, s[1..], rest);
      SortedCons(leq, s[0], rest);
    }
  }

  lemma FirstBeforeAll<T(!new)>(leq: (T, T) -> bool, first: T, x: T, tail: seq<T>, rest: seq<T>)
    requires multiset(rest) == multiset{x} + multiset(tail)
    requires leq(first, x) && forall i :: 0 <= i < |tail| ==> leq(first, tail[i])
    ensures forall i :: 0 <= i < |rest| ==> leq(first, rest[i])
  {
    forall i | 0 <= i < |rest|
      ensures leq(first, rest[i])
    {
      assert rest[i] in multiset(rest);
      assert rest[i] == x || rest[i] in tail;
    }
  }

  lemma SortedCons<T(!new)>(leq: (T, T) -> bool, first: T, rest: seq<T>)
    requires SortedBy(leq, rest) && forall i :: 0 <= i < |rest| ==> leq(first, rest[i])
    ensures SortedBy(leq, [first] + rest)
  {
  }

  lemma {:induction false} SortSorts<T(!new)>(leq: (T, T) -> bool, s: seq<T>)
    requires TotalPreorder(leq)
    ensures SortedBy(leq, SortBy(leq, s))
  {
    if s == [] {
    } else {
      SortSorts(leq, s[1..]);
      InsertSorts(leq, s[0], SortBy(leq, s[1..]));
    }
  }

  /** A sorted front that precedes everything behind it does not move. */
  lemma {:induction false} SortKeepsFront<T(!new)>(leq: (T, T) -> bool, a: seq<T>, b: seq<T>)
    requires SortedBy(leq, a)
    requires forall x, y :: x in a && y in b ==> leq(x, y)
    ensures SortBy(leq, a + b) == a + SortBy(leq, b)
  {
    if a == [] {
      assert a + b == b && a + SortBy(leq, b) == SortBy(leq, b);
    } else {
      assert (a + b)[0] == a[0] && (a + b)[1..] == a[1..] + b;
      SortKeepsFront(leq, a[1..], b);
      SortPermutes(leq, b);
      var rest := a[1..] + SortBy(leq, b);
      if rest != [] {
        assert rest[0] == if |a| > 1 then a[1] else SortBy(leq, b)[0];
        assert |a| == 1 ==> rest[0] in SortBy(leq, b);
        assert leq(a[0], rest[0]);
      }
      assert [a[0]] + rest == a + SortBy(leq, b);
    }
  }

  /** No two elements share a key. */
  ghost predicate Distinct<T, K>(key: T -> K, s: seq<T>) {
    forall i, j :: 0 <= i < j < |s| ==> key(s[i]) != key(s[j])
  }

  lemma CountTwice<T>(s: seq<T>, i: nat, j: nat)
    requires i < j < |s| && s[i] == s[j]
    ensures multiset(s)[s[i]] >= 2
  {
    assert s == s[..j] + s[j..];
    assert s[i] in s[..j] && s[i] in s[j..];
    assert s[i] in multiset(s[..j]) && s[i] in multiset(s[j..]);
    assert multiset(s) == multiset(s[..j]) + multiset(s[j..]);
  }

  lemma CountOnce<T>(s: seq<T>, i: nat)
    requires i < |s| && forall j :: 0 <= j < |s| && j != i ==> s[j] != s[i]
    ensures multiset(s)[s[i]] == 1
  {
    assert s == s[..i] + [s[i]] + s[i + 1..];
    assert s[i] !in s[..i] && s[i] !in s[i + 1..];
    assert s[i] !in multiset(s[..i]) && s[i] !in multiset(s[i + 1..]);
    assert multiset(s) == multiset(s[..i]) + multiset([s[i]]) + multiset(s[i + 1..]);
  }

  /** Reordering keeps keys distinct. */
  lemma PermutationKeepsDistinct<T, K>(key: T -> K, xs: seq<T>, ys: seq<T>)
    requires Distinct(key, xs) && multiset(xs) == multiset(ys)
    ensures Distinct(key, ys)
  {
    SameMembers(xs, ys);
    forall i, j | 0 <= i < j < |ys|
      ensures key(ys[i]) != key(ys[j])
    {
      assert ys[i] in ys && ys[j] in ys;
      var p :| 0 <= p < |xs| && xs[p] == ys[i];
      var q :| 0 <= q < |xs| && xs[q] == ys[j];
      if p == q {
        CountTwice(ys, i, j);
        CountOnce(xs, p);
        assert false;
      }
    }
  }

  /** Elements with distinct keys are at most as many as the keys there are. */
  lemma {:induction false} DistinctFit<T, K>(key: T -> K, s: seq<T>, keys: set<K>)
    requires Distinct(key, s)
    requires forall i :: 0 <= i < |s| ==> key(s[i]) in keys
    ensures |s| <= |keys|
  {
    if s == [] {
    } else {
      var last := key(s[|s| - 1]);
      DistinctFit(key, s[..|s| - 1], keys - {last});
    }
  }

  /** The values of a dict that files each under its own key, in some order. */
  method Values<K(==), T>(entries: map<K, T>, key: T -> K) returns (items: seq<T>)
    requires forall k :: k in entries ==> key(entries[k]) == k
    ensures forall t :: t in items <==> key(t) in entries && entries[key(t)] == t
    ensures Distinct(key, items)
  {
    items := [];
    var left := entries.Keys;
    while left != {}
      invariant left <= entries.Keys
      invariant forall t :: t in items <==> key(t) in entries.Keys - left && entries[key(t)] == t
      invariant Distinct(key, items)
      decreases left
    {
      var k :| k in left;
      assert forall i :: 0 <= i < |items| ==> items[i] in items;
      items := items + [entries[k]];
      left := left - {k};
    }
  }
}
