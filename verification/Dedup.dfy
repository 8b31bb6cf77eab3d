/** Merging the sites' postings: one row per duplicate key, the best one kept. */
module Dedup {
  import opened Common

  /** A merged row; "" stands for a missing value. */
  datatype Row = Row(source: string, postingId: string, company: string, title: string,
                     needOcr: string, detailText: string, employmentType: string, experience: string,
                     education: string, location: string, deadline: string, collectedAt: string)

  datatype Key = CompanyTitle(company: string, title: string) | SourceId(source: string, postingId: string)

  const CAPITAL_I_WITH_DOT: char := '\U{0130}'
  const KELVIN_SIGN: char := '\U{212A}'

  /** Lower case as far as it is kept: besides A to Z only these two characters have
      a lower case that contains one of the kept characters. */
  function Lower(c: char): char {
    if 'A' <= c <= 'Z' then (c as int + 32) as char
    else if c == CAPITAL_I_WITH_DOT then 'i'
    else if c == KELVIN_SIGN then 'k'
    else c
  }

  predicate Kept(c: char) {
    '0' <= c <= '9' || 'a' <= c <= 'z' || 0xAC00 <= c as int <= 0xD7A3
  }

  /** Lower-cased, with everything but digits, latin letters and Hangul syllables dropped. */
  function NormalizedText(s: string): (r: string)
    ensures forall i :: 0 <= i < |r| ==> Kept(r[i])
  {
    if s == "" then ""
    else
      var c := Lower(s[0]);
      (if Kept(c) then [c] else []) + NormalizedText(s[1..])
  }

  /** Normalising is stable: text that only differs in what is dropped or in case
      falls on one key, and a normalised text is its own normal form. */
  lemma {:induction false} NormalFormIsFixed(s: string)
    ensures NormalizedText(NormalizedText(s)) == NormalizedText(s)
  {
    if s == "" {
    } else {
      NormalFormIsFixed(s[1..]);
      var c := Lower(s[0]);
      if Kept(c) {
        assert NormalizedText(s)[0] == c && NormalizedText(s)[1..] == NormalizedText(s[1..]);
        assert Lower(c) == c;
      } else {
        assert NormalizedText(s) == NormalizedText(s[1..]);
      }
    }
  }

  function DuplicateKey(row: Row): Key {
    var company, title := NormalizedText(row.company), NormalizedText(row.title);
    if company != "" && title != "" then CompanyTitle(company, title)
    else SourceId(NormalizedText(row.source), row.postingId)
  }

  /** What normalising does, character by character: digits, small latin letters and
      Hangul syllables stay, capitals and the two look-alikes become small, all else
      goes. */
  lemma NormalCharacter(c: char)
    ensures ('0' <= c <= '9' || 'a' <= c <= 'z' || '\U{AC00}' <= c <= '\U{D7A3}') ==> NormalizedText([c]) == [c]
    ensures 'A' <= c <= 'Z' ==> |NormalizedText([c])| == 1 && NormalizedText([c])[0] - 'a' == c - 'A'
    ensures c == '\U{0130}' ==> NormalizedText([c]) == "i"
    ensures c == '\U{212A}' ==> NormalizedText([c]) == "k"
    ensures c < '0' || '9' < c < 'A' || 'Z' < c < 'a' || '\U{D7A3}' < c ==> NormalizedText([c]) == ""
    ensures 'z' < c < '\U{AC00}' && c != '\U{0130}' && c != '\U{212A}' ==> NormalizedText([c]) == ""
  {
    assert [c][1..] == "";
  }

  lemma {:induction false} NormalOfAppend(a: string, b: string)
    ensures NormalizedText(a + b) == NormalizedText(a) + NormalizedText(b)
  {
    if a == "" {
      assert a + b == b;
    } else {
      assert (a + b)[1..] == a[1..] + b;
      NormalOfAppend(a[1..], b);
    }
  }

  /** A row with a company and a title to go by. */
  predicate Named(row: Row) {
    NormalizedText(row.company) != "" && NormalizedText(row.title) != ""
  }

  /** The same posting: one company's same title, or without these the same id at the
      same site. */
  predicate SamePosting(a: Row, b: Row) {
    && (Named(a) <==> Named(b))
    && (Named(a) ==> NormalizedText(a.company) == NormalizedText(b.company) && NormalizedText(a.title) == NormalizedText(b.title))
    && (!Named(a) ==> NormalizedText(a.source) == NormalizedText(b.source) && a.postingId == b.postingId)
  }

  lemma SameKeyExactly(a: Row, b: Row)
    ensures DuplicateKey(a) == DuplicateKey(b) <==> SamePosting(a, b)
  {
  }

  // ------------------------------------------------------------------ quality

  datatype Quality = Quality(readable: bool, length: nat, metadata: nat, collected: string)

  function Filled(s: string): nat {
    if s != "" then 1 else 0
  }

  function QualityOf(row: Row): Quality {
    Quality(row.needOcr == "X", |row.detailText|,
            Filled(row.employmentType) + Filled(row.experience) + Filled(row.education)
              + Filled(row.location) + Filled(row.deadline),
            row.collectedAt)
  }

  /** Tuples compare field by field, False before True. */
  predicate QLeq(a: Quality, b: Quality) {
    if a.readable != b.readable then b.readable
    else if a.length != b.length then a.length < b.length
    else if a.metadata != b.metadata then a.metadata < b.metadata
    else StrLeq(a.collected, b.collected)
  }

  lemma QLeqIsPreorder(a: Quality, b: Quality, c: Quality)
    ensures QLeq(a, b) || QLeq(b, a)
    ensures QLeq(a, b) && QLeq(b, c) ==> QLeq(a, c)
  {
    StrLeqTotal(a.collected, b.collected);
    if StrLeq(a.collected, b.collected) && StrLeq(b.collected, c.collected) {
      StrLeqTransitive(a.collected, b.collected, c.collected);
    }
  }

  /** Strictly better; an equal row does not displace an earlier one. */
  predicate Better(row: Row, existing: Row) {
    !QLeq(QualityOf(row), QualityOf(existing))
  }

  /** How many of the five metadata fields hold something. */
  ghost function MetadataOf(row: Row): nat {
    (if row.employmentType == "" then 0 else 1) + (if row.experience == "" then 0 else 1)
    + (if row.education == "" then 0 else 1) + (if row.location == "" then 0 else 1) + (if row.deadline == "" then 0 else 1)
  }

  /** r is no richer than w: a readable posting goes before one still waiting for its
      text, then the longer text, then more metadata, then the later collection. */
  ghost predicate NoRicher(r: Row, w: Row) {
    && (r.needOcr == "X" ==> w.needOcr == "X")
    && ((r.needOcr == "X" <==> w.needOcr == "X") ==> |r.detailText| <= |w.detailText|)
    && ((r.needOcr == "X" <==> w.needOcr == "X") && |r.detailText| == |w.detailText| ==>
          MetadataOf(r) <= MetadataOf(w))
    && ((r.needOcr == "X" <==> w.needOcr == "X") && |r.detailText| == |w.detailText| && MetadataOf(r) == MetadataOf(w) ==>
          StrLeq(r.collectedAt, w.collectedAt))
  }

  lemma BetterIsRicher(row: Row, existing: Row)
    ensures Better(row, existing) <==> !NoRicher(row, existing)
  {
  }

  // ------------------------------------------------------------------ what deduplication means

  function Keys(rows: seq<Row>): (r: seq<Key>)
    ensures |r| == |rows| && forall i :: 0 <= i < |rows| ==> r[i] == DuplicateKey(rows[i])
  {
    seq(|rows|, i requires 0 <= i < |rows| => DuplicateKey(rows[i]))
  }

  /** Of two candidates for a key the later one wins only by being better. */
  function Pick(a: Option<Row>, b: Option<Row>): Option<Row> {
    if b == None then a else if a == None || Better(b.value, a.value) then b else a
  }

  function Winner(rows: seq<Row>, k: Key): (w: Option<Row>)
    ensures w.Some? <==> k in Keys(rows)
    ensures w.Some? ==> DuplicateKey(w.value) == k
  {
    if rows == [] then None
    else
      var front, last := rows[..|rows| - 1], rows[|rows| - 1];
      assert Keys(rows) == Keys(front) + [DuplicateKey(last)];
      if DuplicateKey(last) == k then Pick(Winner(front, k), Some(last)) else Winner(front, k)
  }

  /** One row per key, at the key's first place, the winner for that key. */
  function Dedup(rows: seq<Row>): (r: seq<Row>)
    ensures |r| == |Firsts(Keys(rows))|
    ensures forall i :: 0 <= i < |r| ==> Winner(rows, Firsts(Keys(rows))[i]) == Some(r[i])
  {
    var ks := Firsts(Keys(rows));
    seq(|ks|, i requires 0 <= i < |ks| => assert ks[i] in ks; Winner(rows, ks[i]).value)
  }

  /** p is where the winner for k comes from: nothing for k is better, and
      everything before it is worse. */
  ghost predicate EarliestBest(rows: seq<Row>, k: Key, p: nat) {
    && p < |rows| && DuplicateKey(rows[p]) == k
    && (forall j :: 0 <= j < |rows| && DuplicateKey(rows[j]) == k ==> !Better(rows[j], rows[p]))
    && (forall j :: 0 <= j < p && DuplicateKey(rows[j]) == k ==> Better(rows[p], rows[j]))
  }

  lemma BestOneMore(front: seq<Row>, last: Row, k: Key, q: nat)
    requires EarliestBest(front, k, q)
    ensures if DuplicateKey(last) == k && Better(last, front[q]) then EarliestBest(front + [last], k, |front|)
            else EarliestBest(front + [last], k, q)
  {
    var rows := front + [last];
    QLeqIsPreorder(QualityOf(last), QualityOf(last), QualityOf(last));
    forall j | 0 <= j < |front| && DuplicateKey(front[j]) == k
      ensures rows[j] == front[j] && !Better(front[j], front[q])
      ensures Better(last, front[q]) ==> Better(last, front[j]) && !Better(front[j], last)
    {
      QLeqIsPreorder(QualityOf(last), QualityOf(front[j]), QualityOf(front[q]));
    }
  }

  lemma WinnerOneMore(rows: seq<Row>, row: Row, k: Key)
    ensures Winner(rows + [row], k) == if k == DuplicateKey(row) then Pick(Winner(rows, k), Some(row)) else Winner(rows, k)
  {
    assert (rows + [row])[..|rows|] == rows;
  }

  lemma FirstOfItsKey(front: seq<Row>, last: Row)
    requires DuplicateKey(last) !in Keys(front)
    ensures EarliestBest(front + [last], DuplicateKey(last), |front|)
  {
    QLeqIsPreorder(QualityOf(last), QualityOf(last), QualityOf(last));
    assert forall j :: 0 <= j < |front| ==> Keys(front)[j] in Keys(front);
  }

  lemma {:induction false} WinnerIsEarliestBest(rows: seq<Row>, k: Key) returns (p: nat)
    requires k in Keys(rows)
    ensures EarliestBest(rows, k, p) && Winner(rows, k) == Some(rows[p])
  {
    var front, last := rows[..|rows| - 1], rows[|rows| - 1];
    assert rows == front + [last] && Keys(rows) == Keys(front) + [DuplicateKey(last)];
    WinnerOneMore(front, last, k);
    if k in Keys(front) {
      p := WinnerIsEarliestBest(front, k);
      BestOneMore(front, last, k, p);
      if DuplicateKey(last) == k && Better(last, front[p]) {
        p := |front|;
      }
    } else {
      FirstOfItsKey(front, last);
      p := |front|;
    }
  }

  /** Each key is kept once, at its first-occurrence place, as the earliest row of
      maximal quality. */
  lemma DedupKeepsTheBest(rows: seq<Row>, i: nat) returns (p: nat)
    requires i < |Dedup(rows)|
    ensures NoRepeats(Keys(Dedup(rows))) && Keys(Dedup(rows)) == Firsts(Keys(rows))
    ensures EarliestBest(rows, DuplicateKey(Dedup(rows)[i]), p) && rows[p] == Dedup(rows)[i]
  {
    KeysOfDedup(rows);
    FirstsAreDistinct(Keys(rows));
    var k := Firsts(Keys(rows))[i];
    assert k in Firsts(Keys(rows));
    p := WinnerIsEarliestBest(rows, k);
  }

  /** Row p is the one to keep of its posting: none of them is richer, and each of
      those before it is poorer. */
  ghost predicate KeepsRightly(rows: seq<Row>, p: nat) {
    && p < |rows|
    && (forall j :: 0 <= j < |rows| && SamePosting(rows[j], rows[p]) ==> NoRicher(rows[j], rows[p]))
    && (forall j :: 0 <= j < p && SamePosting(rows[j], rows[p]) ==> !NoRicher(rows[p], rows[j]))
  }

  lemma EarliestBestKeepsRightly(rows: seq<Row>, k: Key, p: nat)
    requires EarliestBest(rows, k, p)
    ensures KeepsRightly(rows, p)
  {
    forall j | 0 <= j < |rows| && SamePosting(rows[j], rows[p])
      ensures NoRicher(rows[j], rows[p])
      ensures j < p ==> !NoRicher(rows[p], rows[j])
    {
      SameKeyExactly(rows[j], rows[p]);
      BetterIsRicher(rows[j], rows[p]);
      BetterIsRicher(rows[p], rows[j]);
    }
  }

  ghost predicate RightRow(rows: seq<Row>, w: Row) {
    exists p: nat :: p < |rows| && rows[p] == w && KeepsRightly(rows, p)
  }

  ghost predicate HasPosting(kept: seq<Row>, r: Row) {
    exists i: nat :: i < |kept| && SamePosting(r, kept[i])
  }

  /** Every posting of the input is kept exactly once, as the row to keep. */
  ghost predicate MergedRightly(rows: seq<Row>, kept: seq<Row>) {
    && (forall i: nat :: i < |kept| ==> RightRow(rows, kept[i]))
    && (forall j: nat :: j < |rows| ==> HasPosting(kept, rows[j]))
    && (forall i: nat, j: nat :: i < j < |kept| ==> !SamePosting(kept[i], kept[j]))
  }

  lemma EachIsKeptRightly(rows: seq<Row>, i: nat) returns (p: nat)
    requires i < |Dedup(rows)|
    ensures p < |rows| && rows[p] == Dedup(rows)[i] && KeepsRightly(rows, p)
  {
    p := DedupKeepsTheBest(rows, i);
    EarliestBestKeepsRightly(rows, DuplicateKey(Dedup(rows)[i]), p);
  }

  lemma EachIsKept(rows: seq<Row>, j: nat) returns (i: nat)
    requires j < |rows|
    ensures i < |Dedup(rows)| && SamePosting(rows[j], Dedup(rows)[i])
  {
    KeysOfDedup(rows);
    var ks := Firsts(Keys(rows));
    assert Keys(rows)[j] in ks;
    i :| i < |ks| && ks[i] == DuplicateKey(rows[j]);
    assert Keys(Dedup(rows))[i] == ks[i];
    SameKeyExactly(rows[j], Dedup(rows)[i]);
  }

  lemma EachIsKeptOnce(rows: seq<Row>, i: nat, j: nat)
    requires i < j < |Dedup(rows)|
    ensures !SamePosting(Dedup(rows)[i], Dedup(rows)[j])
  {
    KeysOfDedup(rows);
    FirstsAreDistinct(Keys(rows));
    SameKeyExactly(Dedup(rows)[i], Dedup(rows)[j]);
    assert Keys(Dedup(rows))[i] != Keys(Dedup(rows))[j];
  }

  lemma DedupIsRight(rows: seq<Row>)
    ensures MergedRightly(rows, Dedup(rows))
  {
    forall i: nat | i < |Dedup(rows)|
      ensures RightRow(rows, Dedup(rows)[i])
    {
      var p := EachIsKeptRightly(rows, i);
    }
    forall j: nat | j < |rows|
      ensures HasPosting(Dedup(rows), rows[j])
    {
      var i := EachIsKept(rows, j);
    }
    forall i: nat, j: nat | i < j < |Dedup(rows)|
      ensures !SamePosting(Dedup(rows)[i], Dedup(rows)[j])
    {
      EachIsKeptOnce(rows, i, j);
    }
  }

  lemma KeysOfDedup(rows: seq<Row>)
    ensures Keys(Dedup(rows)) == Firsts(Keys(rows))
  {
    var ks := Firsts(Keys(rows));
    forall i | 0 <= i < |ks|
      ensures Keys(Dedup(rows))[i] == ks[i]
    {
      assert Winner(rows, ks[i]) == Some(Dedup(rows)[i]);
    }
  }

  // ------------------------------------------------------------------ homomorphism

  lemma PickAssociates(a: Option<Row>, b: Option<Row>, c: Option<Row>)
    ensures Pick(Pick(a, b), c) == Pick(a, Pick(b, c))
  {
    if a.Some? && b.Some? && c.Some? {
      var x, y, z := QualityOf(a.value), QualityOf(b.value), QualityOf(c.value);
      QLeqIsPreorder(x, y, z);
      QLeqIsPreorder(y, z, x);
      QLeqIsPreorder(z, x, y);
      QLeqIsPreorder(x, z, y);
      QLeqIsPreorder(z, y, x);
      QLeqIsPreorder(y, x, z);
    }
  }

  lemma {:induction false} WinnerOfAppend(a: seq<Row>, b: seq<Row>, k: Key)
    ensures Winner(a + b, k) == Pick(Winner(a, k), Winner(b, k))
  {
    if b == [] {
      assert a + b == a;
    } else {
      var front, last := b[..|b| - 1], b[|b| - 1];
      assert (a + b)[..|a + b| - 1] == a + front && (a + b)[|a + b| - 1] == last;
      WinnerOfAppend(a, front, k);
      PickAssociates(Winner(a, k), Winner(front, k), Some(last));
    }
  }

  lemma {:induction false} WinnerAmongDistinct(rows: seq<Row>, i: nat)
    requires NoRepeats(Keys(rows)) && i < |rows|
    ensures Winner(rows, DuplicateKey(rows[i])) == Some(rows[i])
  {
    var front, last := rows[..|rows| - 1], rows[|rows| - 1];
    assert forall j :: 0 <= j < |front| ==> Keys(rows)[j] == Keys(front)[j];
    if i < |front| {
      assert Keys(rows)[i] != Keys(rows)[|rows| - 1];
      WinnerAmongDistinct(front, i);
    } else {
      assert DuplicateKey(last) !in Keys(front);
    }
  }

  lemma WinnerOfDedup(rows: seq<Row>, k: Key)
    ensures Winner(Dedup(rows), k) == Winner(rows, k)
  {
    KeysOfDedup(rows);
    FirstsAreDistinct(Keys(rows));
    if k in Keys(rows) {
      var ks := Firsts(Keys(rows));
      var i :| 0 <= i < |ks| && ks[i] == k;
      assert Keys(Dedup(rows))[i] == k;
      WinnerAmongDistinct(Dedup(rows), i);
    }
  }

  lemma SameDedup(a: seq<Row>, b: seq<Row>)
    requires Firsts(Keys(a)) == Firsts(Keys(b))
    requires forall k :: Winner(a, k) == Winner(b, k)
    ensures Dedup(a) == Dedup(b)
  {
    forall i | 0 <= i < |Dedup(a)|
      ensures Dedup(a)[i] == Dedup(b)[i]
    {
      assert Winner(a, Firsts(Keys(a))[i]) == Some(Dedup(a)[i]);
      assert Winner(b, Firsts(Keys(b))[i]) == Some(Dedup(b)[i]);
    }
  }

  lemma KeysOfAppend(a: seq<Row>, b: seq<Row>)
    ensures Keys(a + b) == Keys(a) + Keys(b)
  {
  }

  lemma SameWinners(a: seq<Row>, b: seq<Row>, k: Key)
    ensures Winner(Dedup(a) + b, k) == Winner(a + b, k) == Winner(a + Dedup(b), k)
  {
    WinnerOfAppend(a, b, k);
    WinnerOfAppend(Dedup(a), b, k);
    WinnerOfAppend(a, Dedup(b), k);
    WinnerOfDedup(a, k);
    WinnerOfDedup(b, k);
  }

  lemma SameKeys(a: seq<Row>, b: seq<Row>)
    ensures Firsts(Keys(Dedup(a) + b)) == Firsts(Keys(a + b)) == Firsts(Keys(a + Dedup(b)))
  {
    KeysOfDedup(a);
    KeysOfDedup(b);
    KeysOfAppend(a, b);
    KeysOfAppend(Dedup(a), b);
    KeysOfAppend(a, Dedup(b));
    FirstsOfFirsts(Keys(a), Keys(b));
    FirstsThenFirsts(Keys(a), Keys(b));
  }

  /** Sites may be merged in stages: deduplicating either half first changes nothing. */
  lemma DedupIsHomomorphic(a: seq<Row>, b: seq<Row>)
    ensures Dedup(a + b) == Dedup(Dedup(a) + b) == Dedup(a + Dedup(b))
  {
    SameKeys(a, b);
    forall k
      ensures Winner(Dedup(a) + b, k) == Winner(a + b, k) == Winner(a + Dedup(b), k)
    {
      SameWinners(a, b, k);
    }
    SameDedup(a + b, Dedup(a) + b);
    SameDedup(a + b, a + Dedup(b));
  }

  // ------------------------------------------------------------------ the loop

  /** A dict with its keys in insertion order, each holding its winner. */
  ghost predicate Tally(win: Key -> Option<Row>, order: seq<Key>, selected: map<Key, Row>) {
    && (forall k :: k in selected <==> k in order)
    && (forall k :: win(k) == if k in selected then Some(selected[k]) else None)
  }

  lemma TallyOneMore(win: Key -> Option<Row>, win': Key -> Option<Row>, order: seq<Key>, selected: map<Key, Row>,
                     key: Key, row: Row)
    requires Tally(win, order, selected)
    requires forall k :: win'(k) == if k == key then Pick(win(k), Some(row)) else win(k)
    ensures if key !in selected then Tally(win', order + [key], selected[key := row])
            else if Better(row, selected[key]) then Tally(win', order, selected[key := row])
            else Tally(win', order, selected)
  {
  }

  lemma OrderOneMore(rows: seq<Row>, row: Row)
    ensures var ks, key := Firsts(Keys(rows)), DuplicateKey(row);
      Firsts(Keys(rows + [row])) == if key in ks then ks else ks + [key]
  {
    var key := DuplicateKey(row);
    KeysOfAppend(rows, [row]);
    assert Keys([row]) == [key];
    assert (Keys(rows) + [key])[..|rows|] == Keys(rows);
  }

  function Winners(rows: seq<Row>): Key -> Option<Row> {
    k => Winner(rows, k)
  }

  /** The dict after some rows. */
  ghost predicate DictOf(rows: seq<Row>, order: seq<Key>, selected: map<Key, Row>) {
    order == Firsts(Keys(rows)) && Tally(Winners(rows), order, selected)
  }

  lemma DictOneMore(rows: seq<Row>, row: Row, order: seq<Key>, selected: map<Key, Row>)
    requires DictOf(rows, order, selected)
    ensures var key := DuplicateKey(row);
      if key !in selected then DictOf(rows + [row], order + [key], selected[key := row])
      else if Better(row, selected[key]) then DictOf(rows + [row], order, selected[key := row])
      else DictOf(rows + [row], order, selected)
  {
    OrderOneMore(rows, row);
    forall k
      ensures Winners(rows + [row])(k) ==
        if k == DuplicateKey(row) then Pick(Winners(rows)(k), Some(row)) else Winners(rows)(k)
    {
      WinnerOneMore(rows, row, k);
    }
    TallyOneMore(Winners(rows), Winners(rows + [row]), order, selected, DuplicateKey(row), row);
  }

  /** deduplicate: a dict in insertion order (`order`) and a counter. */
  method Deduplicate(rows: seq<Row>) returns (kept: seq<Row>, duplicates: nat)
    ensures kept == Dedup(rows) && MergedRightly(rows, kept)
    ensures |kept| + duplicates == |rows|
  {
    var order: seq<Key>, selected: map<Key, Row> := [], map[];
    duplicates := 0;
    PrefixEnds(rows);
    for n := 0 to |rows|
      invariant DictOf(rows[..n], order, selected)
      invariant |order| + duplicates == n
    {
      var row := rows[n];
      var key := DuplicateKey(row);
      DictOneMore(rows[..n], row, order, selected);
      PrefixSnoc(rows, n);
      if key !in selected {
        order := order + [key];
        selected := selected[key := row];
      } else {
        duplicates := duplicates + 1;
        if Better(row, selected[key]) {
          selected := selected[key := row];
        }
      }
    }
    DictAt(rows, order, selected);
    DedupIsRight(rows);
    kept := Values(order, selected, Dedup(rows));
  }

  lemma DictAt(rows: seq<Row>, order: seq<Key>, selected: map<Key, Row>)
    requires DictOf(rows, order, selected)
    ensures |order| == |Dedup(rows)|
    ensures forall i :: 0 <= i < |order| ==> order[i] in selected && selected[order[i]] == Dedup(rows)[i]
  {
    forall i | 0 <= i < |order|
      ensures order[i] in selected && selected[order[i]] == Dedup(rows)[i]
    {
      assert order[i] in order;
      assert Winners(rows)(order[i]) == Winner(rows, order[i]) == Some(Dedup(rows)[i]);
    }
  }

  /** The kept rows, in the order their keys were first seen. */
  method Values(order: seq<Key>, selected: map<Key, Row>, ghost goal: seq<Row>) returns (kept: seq<Row>)
    requires |order| == |goal| && forall i :: 0 <= i < |order| ==> order[i] in selected && selected[order[i]] == goal[i]
    ensures kept == goal
  {
    kept := [];
    for i := 0 to |order|
      invariant |kept| == i && forall j :: 0 <= j < i ==> kept[j] == goal[j]
    {
      kept := kept + [selected[order[i]]];
    }
  }
}
