/** Small vocabulary shared by every component of the model. */
module Common {

  /** A value that may be absent: SQL NULL, Python None. */
  datatype Option<+T> = None | Some(value: T)

  /** One shared notion of a space character for Python's strip and SQL's BTRIM. */
  predicate IsSpace(c: char) {
    c == ' ' || c == '\t' || c == '\n' || c == '\r'
  }

  /** True when trimming leaves nothing. */
  predicate Blank(s: string) {
    forall i :: 0 <= i < |s| ==> IsSpace(s[i])
  }

  function Concat<T>(xss: seq<seq<T>>): (r: seq<T>) {
    if xss == [] then [] else xss[0] + Concat(xss[1..])
  }

  lemma {:induction false} ConcatAppend<T>(xss: seq<seq<T>>, yss: seq<seq<T>>)
    ensures Concat(xss + yss) == Concat(xss) + Concat(yss)
  {
    if xss == [] {
      assert xss + yss == yss;
    } else {
      assert (xss + yss)[0] == xss[0] && (xss + yss)[1..] == xss[1..] + yss;
      ConcatAppend(xss[1..], yss);
    }
  }

  lemma ConcatSnoc<T>(xss: seq<seq<T>>, ys: seq<T>)
    ensures Concat(xss + [ys]) == Concat(xss) + ys
  {
    ConcatAppend(xss, [ys]);
    assert Concat([ys]) == ys + Concat([ys][1..]);
  }

  /** What a loop over a sequence has seen, one element further on. */
  lemma PrefixSnoc<T>(s: seq<T>, n: nat)
    requires n < |s|
    ensures s[..n + 1] == s[..n] + [s[n]]
  {
  }

  lemma SplitAt<T>(s: seq<T>, n: nat)
    requires n <= |s|
    ensures s == s[..n] + s[n..]
  {
  }

  lemma SplitTwice<T>(s: seq<T>, n: nat, m: nat)
    requires n <= |s| && m <= |s[n..]|
    ensures s == s[..n] + s[n..][..m] + s[n..][m..]
  {
    SplitAt(s, n);
    SplitAt(s[n..], m);
  }

  lemma DropLast<T>(s: seq<T>, t: T)
    ensures (s + [t])[..|s + [t]| - 1] == s && (s + [t])[|s + [t]| - 1] == t
  {
  }

  lemma RestOfBoth<T>(a: seq<T>, b: seq<T>)
    ensures a == [] ==> a + b == b
    ensures a != [] ==> (a + b)[0] == a[0] && (a + b)[1..] == a[1..] + b
  {
  }

  lemma NothingAfter<T>(t: T)
    ensures [t][0] == t && [t][1..] == [] && [t] + [] == [t]
  {
  }

  lemma EmptyIsUnit<T>(s: seq<T>)
    ensures [] + s == s && s + [] == s
  {
  }

  lemma PairOf<T>(a: T, b: T)
    ensures [a] + [b] == [a, b]
  {
  }

  lemma Regroup<T>(a: seq<T>, b: seq<T>, c: seq<T>)
    ensures (a + b) + c == a + (b + c)
  {
  }

  lemma PrefixEnds<T>(s: seq<T>)
    ensures s[..0] == [] && s[..|s|] == s
  {
  }

  /** The first k elements, or all where there are fewer. */
  function Take<T>(s: seq<T>, k: nat): seq<T> {
    if k < |s| then s[..k] else s
  }

  predicate NoRepeats<T(==)>(s: seq<T>) {
    forall i, j :: 0 <= i < j < |s| ==> s[i] != s[j]
  }

  /** First occurrences, in order. */
  function Firsts<T(==,!new)>(s: seq<T>): (r: seq<T>)
    ensures forall x :: x in r <==> x in s
  {
    if s == [] then []
    else
      var front, last := s[..|s| - 1], s[|s| - 1];
      assert s == front + [last];
      if last in front then Firsts(front) else Firsts(front) + [last]
  }

  lemma {:induction false} FirstsAreDistinct<T(!new)>(s: seq<T>)
    ensures NoRepeats(Firsts(s))
  {
    if s == [] {
    } else {
      var front, last := s[..|s| - 1], s[|s| - 1];
      FirstsAreDistinct(front);
      if last !in front {
        assert forall i :: 0 <= i < |Firsts(front)| ==> Firsts(front)[i] in Firsts(front);
      }
    }
  }

  lemma {:induction false} FirstsAreFewer<T(!new)>(s: seq<T>)
    ensures |Firsts(s)| <= |s|
    ensures !NoRepeats(s) ==> |Firsts(s)| < |s|
  {
    if s == [] {
    } else {
      var front, last := s[..|s| - 1], s[|s| - 1];
      FirstsAreFewer(front);
      if last !in front && !NoRepeats(s) {
        var i, j :| 0 <= i < j < |s| && s[i] == s[j];
        assert front[i] == s[i] && j < |front|;
        assert front[j] == s[j];
      }
    }
  }

  lemma {:induction false} FirstsOfDistinct<T(!new)>(s: seq<T>)
    requires NoRepeats(s)
    ensures Firsts(s) == s
  {
    if s == [] {
    } else {
      var front, last := s[..|s| - 1], s[|s| - 1];
      FirstsOfDistinct(front);
      assert last !in front;
      assert s == front + [last];
    }
  }

  lemma {:induction false} FirstsOfFirsts<T(!new)>(x: seq<T>, y: seq<T>)
    ensures Firsts(Firsts(x) + y) == Firsts(x + y)
  {
    if y == [] {
      assert Firsts(x) + y == Firsts(x) && x + y == x;
      FirstsAreDistinct(x);
      FirstsOfDistinct(Firsts(x));
    } else {
      var front, last := y[..|y| - 1], y[|y| - 1];
      assert (x + y)[..|x + y| - 1] == x + front;
      assert (Firsts(x) + y)[..|Firsts(x) + y| - 1] == Firsts(x) + front;
      FirstsOfFirsts(x, front);
    }
  }

  lemma {:induction false} FirstsThenFirsts<T(!new)>(x: seq<T>, y: seq<T>)
    ensures Firsts(x + Firsts(y)) == Firsts(x + y)
  {
    if y == [] {
    } else {
      var front, last := y[..|y| - 1], y[|y| - 1];
      assert (x + y)[..|x + y| - 1] == x + front;
      assert y == front + [last];
      FirstsThenFirsts(x, front);
      if last !in front {
        var d := x + Firsts(y);
        assert d == (x + Firsts(front)) + [last];
        assert d[..|d| - 1] == x + Firsts(front);
      }
    }
  }

  /** Numbers below n are at most n, and if they are n, they are all of them. */
  lemma {:induction false} BelowIsFew(keys: set<int>, n: nat)
    requires forall k :: k in keys ==> 0 <= k < n
    ensures |keys| <= n
    ensures |keys| == n ==> forall k :: 0 <= k < n ==> k in keys
  {
    if n == 0 {
      assert forall k :: k !in keys;
      assert keys == {};
    } else {
      BelowIsFew(keys - {n - 1}, n - 1);
      assert n - 1 in keys ==> keys == (keys - {n - 1}) + {n - 1};
      assert n - 1 !in keys ==> keys == keys - {n - 1};
    }
  }

  /** Strings compared character by character, as both Python and SQL order keys here. */
  predicate StrLeq(a: string, b: string) {
    a == "" || (b != "" && (a[0] < b[0] || (a[0] == b[0] && StrLeq(a[1..], b[1..]))))
  }

  /** Of two strings the smaller is the one that ends where they first differ, or has
      the smaller character there. */
  lemma {:induction false} StrLeqAtDifference(a: string, b: string, n: nat)
    requires n <= |a| && n <= |b| && a[..n] == b[..n]
    requires n == |a| || n == |b| || a[n] != b[n]
    ensures StrLeq(a, b) <==> n == |a| || (n < |b| && a[n] < b[n])
  {
    if n == 0 {
    } else {
      assert a[0] == a[..n][0] == b[..n][0] == b[0];
      assert a[1..][..n - 1] == a[..n][1..] == b[..n][1..] == b[1..][..n - 1];
      StrLeqAtDifference(a[1..], b[1..], n - 1);
    }
  }

  lemma {:induction false} StrLeqTotal(a: string, b: string)
    ensures StrLeq(a, b) || StrLeq(b, a)
  {
    if a == "" || b == "" {
    } else if a[0] == b[0] {
      StrLeqTotal(a[1..], b[1..]);
    }
  }

  lemma {:induction false} StrLeqAntisymmetric(a: string, b: string)
    requires StrLeq(a, b) && StrLeq(b, a)
    ensures a == b
  {
    if a == "" || b == "" {
    } else {
      StrLeqAntisymmetric(a[1..], b[1..]);
      assert a == [a[0]] + a[1..] && b == [b[0]] + b[1..];
    }
  }

  lemma {:induction false} StrLeqTransitive(a: string, b: string, c: string)
    requires StrLeq(a, b) && StrLeq(b, c)
    ensures StrLeq(a, c)
  {
    if a == "" {
    } else if a[0] == b[0] && b[0] == c[0] {
      StrLeqTransitive(a[1..], b[1..], c[1..]);
    }
  }
}
