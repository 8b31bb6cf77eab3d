/** Splitting a posting's body into items: at newlines, together with the bullet or
    number and the spaces that follow. */
module ItemSplit {
  import opened Common

  const BULLETS: string := "-•·*"

  predicate IsDigit(c: char) {
    '0' <= c <= '9'
  }

  // ------------------------------------------------------------------ strip

  function StripLeft(s: string): (r: string)
    ensures r != "" ==> !IsSpace(r[0])
  {
    if s != "" && IsSpace(s[0]) then StripLeft(s[1..]) else s
  }

  function StripRight(s: string): (r: string)
    ensures r <= s
    ensures r != "" ==> !IsSpace(r[|r| - 1])
  {
    if s != "" && IsSpace(s[|s| - 1]) then StripRight(s[..|s| - 1]) else s
  }

  function Strip(s: string): string {
    StripRight(StripLeft(s))
  }

  /** No space at either end. */
  predicate Stripped(s: string) {
    s != "" ==> !IsSpace(s[0]) && !IsSpace(s[|s| - 1])
  }

  lemma StripStrips(s: string)
    ensures Stripped(Strip(s))
  {
    var l, r := StripLeft(s), Strip(s);
    assert r != "" ==> r[0] == l[0];
  }

  /** Only spaces are taken away. */
  lemma {:induction false} StripLeftBlank(s: string)
    ensures StripLeft(s) == "" <==> Blank(s)
    ensures forall c :: c in StripLeft(s) ==> c in s
  {
    if s == "" {
    } else if IsSpace(s[0]) {
      StripLeftBlank(s[1..]);
      assert s == [s[0]] + s[1..];
      assert Blank(s[1..]) ==> Blank(s);
      assert Blank(s) ==> Blank(s[1..]);
    } else {
      assert !Blank(s);
    }
  }

  lemma {:induction false} StripRightBlank(s: string)
    ensures StripRight(s) == "" <==> Blank(s)
  {
    if s == "" {
    } else if IsSpace(s[|s| - 1]) {
      var front := s[..|s| - 1];
      StripRightBlank(front);
      assert Blank(front) ==> Blank(s);
      assert Blank(s) ==> Blank(front);
    } else {
      assert !Blank(s);
    }
  }

  /** Stripping empties exactly the blank texts. */
  lemma StripBlank(s: string)
    ensures Strip(s) == "" <==> Blank(s)
  {
    StripLeftBlank(s);
    StripRightBlank(StripLeft(s));
    if !Blank(s) {
      var l := StripLeft(s);
      assert !IsSpace(l[0]);
    }
  }

  lemma {:induction false} StripLeftTrims(s: string) returns (before: string)
    ensures s == before + StripLeft(s) && Blank(before)
  {
    if s != "" && IsSpace(s[0]) {
      var more := StripLeftTrims(s[1..]);
      before := [s[0]] + more;
    } else {
      before := "";
    }
  }

  lemma {:induction false} StripRightTrims(s: string) returns (after: string)
    ensures s == StripRight(s) + after && Blank(after)
  {
    if s != "" && IsSpace(s[|s| - 1]) {
      var more := StripRightTrims(s[..|s| - 1]);
      after := more + [s[|s| - 1]];
    } else {
      after := "";
    }
  }

  /** What stripping takes away is white space at the two ends. */
  lemma StripTrims(s: string) returns (before: string, after: string)
    ensures s == before + Strip(s) + after && Blank(before) && Blank(after) && Stripped(Strip(s))
  {
    before := StripLeftTrims(s);
    after := StripRightTrims(StripLeft(s));
    Regroup(before, Strip(s), after);
    StripStrips(s);
  }

  // ------------------------------------------------------------------ separators

  function SpacesFrom(t: string, i: nat): (n: nat)
    requires i <= |t|
    ensures i + n <= |t| && forall k :: i <= k < i + n ==> IsSpace(t[k])
    ensures i + n < |t| ==> !IsSpace(t[i + n])
    decreases |t| - i
  {
    if i < |t| && IsSpace(t[i]) then 1 + SpacesFrom(t, i + 1) else 0
  }

  function DigitsFrom(t: string, i: nat): (n: nat)
    requires i <= |t|
    ensures i + n <= |t| && forall k :: i <= k < i + n ==> IsDigit(t[k])
    ensures i + n < |t| ==> !IsDigit(t[i + n])
    decreases |t| - i
  {
    if i < |t| && IsDigit(t[i]) then 1 + DigitsFrom(t, i + 1) else 0
  }

  /** How far the marker after a newline reaches: one bullet, or digits with a point
      or bracket; nothing otherwise. */
  function MarkerLength(t: string): (n: nat)
    requires t != ""
    ensures 1 + n <= |t|
  {
    var d := DigitsFrom(t, 1);
    if 1 < |t| && t[1] in BULLETS then 1
    else if d > 0 && 1 + d < |t| && (t[1 + d] == '.' || t[1 + d] == ')') then d + 1
    else 0
  }

  /** The separator a text that begins with a newline begins with. */
  function SeparatorLength(t: string): (n: nat)
    requires t != "" && t[0] == '\n'
    ensures 1 <= n <= |t|
  {
    var m := MarkerLength(t);
    1 + m + if m > 0 then SpacesFrom(t, 1 + m) else 0
  }

  function NewlineAt(t: string): (n: nat)
    ensures n <= |t| && (n < |t| ==> t[n] == '\n')
    ensures forall k :: 0 <= k < n ==> t[k] != '\n'
  {
    if t == "" || t[0] == '\n' then 0 else 1 + NewlineAt(t[1..])
  }

  // ------------------------------------------------------------------ fields and items

  /** From the first newline on. */
  function Tail(t: string): (r: string)
    requires NewlineAt(t) < |t|
    ensures r != "" && r[0] == '\n'
  {
    t[NewlineAt(t)..]
  }

  /** The first separator of a text that has a newline, and what follows it. */
  function Separator(t: string): (r: string)
    requires NewlineAt(t) < |t|
    ensures r != ""
  {
    Tail(t)[..SeparatorLength(Tail(t))]
  }

  function Rest(t: string): (r: string)
    requires NewlineAt(t) < |t|
    ensures |r| < |t|
  {
    Tail(t)[SeparatorLength(Tail(t))..]
  }

  lemma FirstCut(t: string)
    requires NewlineAt(t) < |t|
    ensures t == t[..NewlineAt(t)] + Separator(t) + Rest(t)
  {
    SplitTwice(t, NewlineAt(t), SeparatorLength(Tail(t)));
  }

  function Fields(t: string): (r: seq<string>)
    ensures r != []
    decreases |t|
  {
    var n := NewlineAt(t);
    if n == |t| then [t] else [t[..n]] + Fields(Rest(t))
  }

  function Separators(t: string): (r: seq<string>)
    ensures |r| + 1 == |Fields(t)|
    decreases |t|
  {
    if NewlineAt(t) == |t| then [] else [Separator(t)] + Separators(Rest(t))
  }

  function Weave(fields: seq<string>, separators: seq<string>): string
    requires |separators| + 1 == |fields|
  {
    if separators == [] then fields[0] else fields[0] + separators[0] + Weave(fields[1..], separators[1..])
  }

  /** A bullet, or a number with a point or bracket. */
  predicate IsMarker(u: string) {
    || (|u| == 1 && u[0] in BULLETS)
    || (|u| >= 2 && (u[|u| - 1] == '.' || u[|u| - 1] == ')') && forall k :: 0 <= k < |u| - 1 ==> IsDigit(u[k]))
  }

  /** A newline, alone or with a marker and spaces behind it. */
  ghost predicate IsSeparator(s: string) {
    s == "\n" || exists m: nat :: HasMarker(s, m)
  }

  predicate HasMarker(s: string, m: nat) {
    1 <= m < |s| && s[0] == '\n' && IsMarker(s[1..1 + m]) && Blank(s[1 + m..])
  }

  lemma FirstSeparator(t: string)
    requires t != "" && t[0] == '\n'
    ensures IsSeparator(t[..SeparatorLength(t)])
  {
    var m := MarkerLength(t);
    var s := t[..SeparatorLength(t)];
    if m == 0 {
      assert s == "\n";
    } else {
      assert s[1..1 + m] == t[1..1 + m];
      assert IsMarker(s[1..1 + m]);
      assert s[1 + m..] == t[1 + m..SeparatorLength(t)];
      assert HasMarker(s, m);
    }
  }

  lemma DigitsFound(t: string, i: nat, n: nat)
    requires i + n <= |t| && (forall k :: i <= k < i + n ==> IsDigit(t[k])) && (i + n < |t| ==> !IsDigit(t[i + n]))
    ensures DigitsFrom(t, i) == n
  {
  }

  lemma SpacesFound(t: string, i: nat, j: nat)
    requires i <= j <= |t| && forall k :: i <= k < j ==> IsSpace(t[k])
    ensures j <= i + SpacesFrom(t, i)
  {
  }

  /** A marker at the beginning of a line is found whole. */
  lemma MarkerFound(t: string, m: nat)
    requires 1 <= m < |t| && IsMarker(t[1..1 + m])
    ensures MarkerLength(t) == m
  {
    var u := t[1..1 + m];
    assert forall k :: 0 <= k < m ==> u[k] == t[1 + k];
    if !(m == 1 && u[0] in BULLETS) {
      forall k | 1 <= k < m
        ensures IsDigit(t[k])
      {
        assert IsDigit(u[k - 1]);
      }
      DigitsFound(t, 1, m - 1);
    }
  }

  /** No longer beginning of the text is a separator. */
  lemma FirstSeparatorIsLongest(t: string, n: nat)
    requires t != "" && t[0] == '\n' && n <= |t| && IsSeparator(t[..n])
    ensures n <= SeparatorLength(t)
  {
    var s := t[..n];
    if m: nat :| HasMarker(s, m) {
      assert s[1..1 + m] == t[1..1 + m];
      MarkerFound(t, m);
      forall k | 1 + m <= k < n
        ensures IsSpace(t[k])
      {
        assert s[1 + m..][k - (1 + m)] == t[k];
      }
      SpacesFound(t, 1 + m, n);
    }
  }

  /** How a text falls into fields: each field is free of newlines and ends at the
      first one, with as much behind it as a separator can take. */
  ghost predicate SplitsRight(t: string, fields: seq<string>, separators: seq<string>)
    requires |separators| + 1 == |fields|
    decreases |separators|
  {
    && '\n' !in fields[0]
    && if separators == [] then t == fields[0]
       else
         var rest := Weave(fields[1..], separators[1..]);
         && t == fields[0] + separators[0] + rest
         && IsSeparator(separators[0])
         && (forall n :: |separators[0]| < n <= |separators[0] + rest| ==> !IsSeparator((separators[0] + rest)[..n]))
         && SplitsRight(rest, fields[1..], separators[1..])
  }

  lemma {:induction false} FieldsSplitRight(t: string)
    ensures SplitsRight(t, Fields(t), Separators(t))
    decreases |t|
  {
    var n := NewlineAt(t);
    if n == |t| {
    } else {
      var rest := Rest(t);
      FieldsSplitRight(rest);
      FieldsWeaveBack(rest);
      FirstCut(t);
      SeparatorIsOne(t);
      SplitAt(Tail(t), SeparatorLength(Tail(t)));
      assert Fields(t)[1..] == Fields(rest) && Separators(t)[1..] == Separators(rest);
      forall k: nat | k <= |Tail(t)| && IsSeparator(Tail(t)[..k])
        ensures k <= |Separator(t)|
      {
        FirstSeparatorIsLongest(Tail(t), k);
      }
    }
  }

  lemma WeaveOneMore(f: string, s: string, fields: seq<string>, separators: seq<string>)
    requires |separators| + 1 == |fields|
    ensures Weave([f] + fields, [s] + separators) == f + s + Weave(fields, separators)
  {
    assert ([f] + fields)[1..] == fields && ([s] + separators)[1..] == separators;
  }

  /** The text is its fields with the separators in between, and nothing else. */
  lemma {:induction false} FieldsWeaveBack(t: string)
    ensures Weave(Fields(t), Separators(t)) == t
    decreases |t|
  {
    if NewlineAt(t) == |t| {
    } else {
      var rest := Rest(t);
      FirstCut(t);
      FieldsWeaveBack(rest);
      WeaveOneMore(t[..NewlineAt(t)], Separator(t), Fields(rest), Separators(rest));
    }
  }

  predicate NoNewlines(fields: seq<string>) {
    forall f :: f in fields ==> '\n' !in f
  }

  lemma OneMoreField(f: string, fields: seq<string>)
    requires '\n' !in f && NoNewlines(fields)
    ensures NoNewlines([f] + fields)
  {
  }

  lemma {:induction false} FieldsHoldNoNewline(t: string)
    ensures NoNewlines(Fields(t))
    decreases |t|
  {
    var n := NewlineAt(t);
    if n == |t| {
    } else {
      FieldsHoldNoNewline(Rest(t));
      OneMoreField(t[..n], Fields(Rest(t)));
    }
  }

  lemma SeparatorIsOne(t: string)
    requires NewlineAt(t) < |t|
    ensures IsSeparator(Separator(t))
  {
    FirstSeparator(Tail(t));
  }

  ghost predicate AllSeparators(ss: seq<string>) {
    forall s :: s in ss ==> IsSeparator(s)
  }

  lemma OneMoreSeparator(s: string, ss: seq<string>)
    requires IsSeparator(s) && AllSeparators(ss)
    ensures AllSeparators([s] + ss)
  {
  }

  lemma {:induction false} SeparatorsSeparate(t: string)
    ensures AllSeparators(Separators(t))
    decreases |t|
  {
    if NewlineAt(t) == |t| {
    } else {
      SeparatorIsOne(t);
      SeparatorsSeparate(Rest(t));
      OneMoreSeparator(Separator(t), Separators(Rest(t)));
    }
  }

  function ItemsOf(fields: seq<string>): seq<string> {
    if fields == [] then []
    else
      var front, last := ItemsOf(fields[..|fields| - 1]), Strip(fields[|fields| - 1]);
      if last != "" then front + [last] else front
  }

  /** The items are the fields, stripped, in their order; `at` says which, and the
      fields passed over are blank. */
  ghost predicate ItemsInOrder(fields: seq<string>, items: seq<string>, at: seq<nat>) {
    && |at| == |items|
    && (forall k :: 0 <= k < |at| ==> at[k] < |fields| && items[k] == Strip(fields[at[k]]) && items[k] != "")
    && (forall j, k :: 0 <= j < k < |at| ==> at[j] < at[k])
    && (forall i :: 0 <= i < |fields| && i !in at ==> Blank(fields[i]))
  }

  lemma {:induction false} ItemsKeepOrder(fields: seq<string>) returns (at: seq<nat>)
    ensures ItemsInOrder(fields, ItemsOf(fields), at)
  {
    if fields == [] {
      at := [];
    } else {
      var n := |fields| - 1;
      var front := ItemsKeepOrder(fields[..n]);
      OneMoreInOrder(fields, ItemsOf(fields[..n]), front);
      at := if Strip(fields[n]) != "" then front + [n] else front;
    }
  }

  lemma OneMoreInOrder(fields: seq<string>, items: seq<string>, at: seq<nat>)
    requires fields != [] && ItemsInOrder(fields[..|fields| - 1], items, at)
    ensures var n := |fields| - 1;
      if Strip(fields[n]) != "" then ItemsInOrder(fields, items + [Strip(fields[n])], at + [n])
      else ItemsInOrder(fields, items, at)
  {
    var n := |fields| - 1;
    StripBlank(fields[n]);
    assert forall i :: 0 <= i < n ==> fields[..n][i] == fields[i];
    assert forall i :: i in at + [n] <==> i in at || i == n;
  }

  /** The items of a text: its fields, stripped, without the empty ones. */
  function Items(t: string): seq<string> {
    ItemsOf(Fields(t))
  }

  lemma {:induction false} ItemsFacts(fields: seq<string>)
    ensures forall it :: it in ItemsOf(fields) ==> it != "" && Stripped(it)
    ensures forall it :: it in ItemsOf(fields) <==> it != "" && exists i :: 0 <= i < |fields| && Strip(fields[i]) == it
  {
    if fields == [] {
    } else {
      var n := |fields| - 1;
      ItemsFacts(fields[..n]);
      StripStrips(fields[n]);
      forall it
        ensures it in ItemsOf(fields) <==> it != "" && exists i :: 0 <= i < |fields| && Strip(fields[i]) == it
      {
        assert forall i :: 0 <= i < n ==> fields[..n][i] == fields[i];
      }
    }
  }

  /** No item holds a newline. */
  lemma ItemsHoldNoNewline(t: string)
    ensures forall it :: it in Items(t) ==> '\n' !in it
  {
    FieldsHoldNoNewline(t);
    ItemsFacts(Fields(t));
    forall i | 0 <= i < |Fields(t)|
      ensures '\n' !in Strip(Fields(t)[i])
    {
      var before, after := StripTrims(Fields(t)[i]);
      assert Fields(t)[i] in Fields(t);
    }
  }

  /** Items are stripped and not empty, and exactly the blank fields leave none. */
  lemma ItemsAreClean(t: string)
    ensures forall it :: it in Items(t) ==> it != "" && Stripped(it)
    ensures forall i :: 0 <= i < |Fields(t)| ==> (Blank(Fields(t)[i]) || Strip(Fields(t)[i]) in Items(t))
  {
    ItemsFacts(Fields(t));
    forall i | 0 <= i < |Fields(t)|
      ensures Blank(Fields(t)[i]) || Strip(Fields(t)[i]) in Items(t)
    {
      StripBlank(Fields(t)[i]);
    }
  }

  /** A text that begins with something has an item. */
  lemma SomethingLeavesAnItem(t: string)
    requires t != "" && !IsSpace(t[0])
    ensures Items(t) != []
  {
    var n := NewlineAt(t);
    assert n > 0;
    assert Fields(t)[0][0] == t[0];
    ItemsAreClean(t);
    assert !Blank(Fields(t)[0]);
  }
}
