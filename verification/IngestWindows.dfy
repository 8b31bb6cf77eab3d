/** plan_windows: group the chunks by posting, then cut the groups into commit
    windows by the number of chunks still to be embedded. */
module IngestWindows {
  import opened Common
  import opened VectorIndex

  function UidsOf(cs: seq<Chunk>): set<string> {
    set c | c in cs :: c.id.uid
  }

  /** Postings in order of first appearance: the key order of by_uid. */
  function UidOrder(cs: seq<Chunk>): seq<string> {
    if cs == [] then []
    else
      var order := UidOrder(cs[..|cs| - 1]);
      var uid := cs[|cs| - 1].id.uid;
      if uid in order then order else order + [uid]
  }

  function Select(cs: seq<Chunk>, uid: string): seq<Chunk> {
    if cs == [] then []
    else
      var front := Select(cs[..|cs| - 1], uid);
      if cs[|cs| - 1].id.uid == uid then front + [cs[|cs| - 1]] else front
  }

  function Groups(cs: seq<Chunk>): seq<seq<Chunk>> {
    var order := UidOrder(cs);
    seq(|order|, i requires 0 <= i < |order| => Select(cs, order[i]))
  }

  /** How many chunks will be embedded: those not among the same ones. */
  function Pending(cs: seq<Chunk>, same: set<ChunkId>): nat {
    if cs == [] then 0
    else
      var n := Pending(cs[..|cs| - 1], same);
      if cs[|cs| - 1].id !in same then n + 1 else n
  }

  lemma {:induction false} PendingAdds(a: seq<Chunk>, b: seq<Chunk>, same: set<ChunkId>)
    ensures Pending(a + b, same) == Pending(a, same) + Pending(b, same)
  {
    if b == [] {
      assert a + b == a;
    } else {
      assert (a + b)[..|a + b| - 1] == a + b[..|b| - 1];
      PendingAdds(a, b[..|b| - 1], same);
    }
  }

  /** The places of the chunks that will be embedded. */
  ghost function ToEmbed(cs: seq<Chunk>, same: set<ChunkId>): set<nat> {
    set i: nat | i < |cs| && cs[i].id !in same
  }

  lemma {:induction false} PendingCounts(cs: seq<Chunk>, same: set<ChunkId>)
    ensures Pending(cs, same) == |ToEmbed(cs, same)|
  {
    if cs == [] {
    } else {
      var n := |cs| - 1;
      PendingCounts(cs[..n], same);
      assert ToEmbed(cs, same) == ToEmbed(cs[..n], same) + if cs[n].id !in same then {n} else {};
    }
  }

  /** The chunks that will be embedded, but for those of the posting that comes last. */
  ghost function ToEmbedBeforeLast(cs: seq<Chunk>, same: set<ChunkId>): set<nat> {
    set i: nat | i < |cs| && cs[i].id !in same && cs[i].id.uid != cs[|cs| - 1].id.uid
  }

  /** One posting alone, or one whose last posting came while the size was not reached. */
  ghost predicate ClosedInTime(window: seq<Chunk>, same: set<ChunkId>, size: int) {
    || |UidsOf(window)| == 1
    || |ToEmbedBeforeLast(window, same)| < size
  }

  /** What the plan promises of its windows' sizes: every window but the last has so
      many chunks to embed, and none had them before its last posting. */
  ghost predicate WellSized(windows: seq<seq<Chunk>>, same: set<ChunkId>, size: int) {
    && (forall i :: 0 <= i < |windows| - 1 ==> |ToEmbed(windows[i], same)| >= size)
    && (forall i :: 0 <= i < |windows| ==> ClosedInTime(windows[i], same, size))
  }

  /** Windows already closed, and the groups of the one still open. */
  datatype Cut = Cut(closed: seq<seq<seq<Chunk>>>, open: seq<seq<Chunk>>)

  function CutGroups(groups: seq<seq<Chunk>>, same: set<ChunkId>, size: int): Cut {
    if groups == [] then Cut([], [])
    else
      var c := CutGroups(groups[..|groups| - 1], same, size);
      var open := c.open + [groups[|groups| - 1]];
      if Pending(Concat(open), same) >= size then Cut(c.closed + [open], []) else Cut(c.closed, open)
  }

  function Parts(c: Cut): seq<seq<seq<Chunk>>> {
    if c.open == [] then c.closed else c.closed + [c.open]
  }

  function Joined(parts: seq<seq<seq<Chunk>>>): seq<seq<Chunk>> {
    seq(|parts|, i requires 0 <= i < |parts| => Concat(parts[i]))
  }

  // ------------------------------------------------------------------ grouping

  lemma {:induction false} OrderListsUids(cs: seq<Chunk>)
    ensures forall u :: u in UidOrder(cs) <==> u in UidsOf(cs)
    ensures forall i, j :: 0 <= i < j < |UidOrder(cs)| ==> UidOrder(cs)[i] != UidOrder(cs)[j]
  {
    if cs == [] {
    } else {
      var front, last := cs[..|cs| - 1], cs[|cs| - 1];
      OrderListsUids(front);
      assert cs == front + [last];
      assert UidsOf(cs) == UidsOf(front) + {last.id.uid};
    }
  }

  lemma {:induction false} SelectIsOnePosting(cs: seq<Chunk>, uid: string)
    ensures forall c :: c in Select(cs, uid) ==> c.id.uid == uid && c in cs
    ensures uid in UidsOf(cs) <==> Select(cs, uid) != []
  {
    if cs == [] {
    } else {
      var front, last := cs[..|cs| - 1], cs[|cs| - 1];
      SelectIsOnePosting(front, uid);
      assert cs == front + [last];
      assert UidsOf(cs) == UidsOf(front) + {last.id.uid};
    }
  }

  lemma {:induction false} ConcatUpdate(gs: seq<seq<Chunk>>, j: nat, c: Chunk)
    requires j < |gs|
    ensures multiset(Concat(gs[j := gs[j] + [c]])) == multiset(Concat(gs)) + multiset{c}
  {
    var hs := gs[j := gs[j] + [c]];
    assert Concat(hs) == hs[0] + Concat(hs[1..]) && Concat(gs) == gs[0] + Concat(gs[1..]);
    if j == 0 {
      assert hs[1..] == gs[1..];
    } else {
      assert hs[1..] == gs[1..][j - 1 := gs[1..][j - 1] + [c]];
      ConcatUpdate(gs[1..], j - 1, c);
    }
  }

  /** Grouping loses nothing and repeats nothing. */
  lemma {:induction false} GroupsPermute(cs: seq<Chunk>)
    ensures multiset(Concat(Groups(cs))) == multiset(cs)
  {
    if cs == [] {
    } else {
      var front, c := cs[..|cs| - 1], cs[|cs| - 1];
      assert cs == front + [c];
      GroupsPermute(front);
      OrderListsUids(front);
      var order := UidOrder(front);
      if c.id.uid in order {
        var j :| 0 <= j < |order| && order[j] == c.id.uid;
        assert Groups(cs) == Groups(front)[j := Groups(front)[j] + [c]];
        ConcatUpdate(Groups(front), j, c);
      } else {
        SelectIsOnePosting(front, c.id.uid);
        var gs, hs := Groups(cs), Groups(front) + [[c]];
        assert UidOrder(cs) == order + [c.id.uid];
        forall i | 0 <= i < |gs|
          ensures gs[i] == hs[i]
        {
          assert i < |order| ==> order[i] in order && order[i] != c.id.uid;
        }
        assert gs == hs;
        ConcatSnoc(Groups(front), [c]);
      }
    }
  }

  // ------------------------------------------------------------------- cutting

  lemma {:induction false} CutCoversGroups(groups: seq<seq<Chunk>>, same: set<ChunkId>, size: int)
    ensures var c := CutGroups(groups, same, size);
      Concat(c.closed) + c.open == groups
  {
    if groups == [] {
    } else {
      var front, last := groups[..|groups| - 1], groups[|groups| - 1];
      CutCoversGroups(front, same, size);
      PrefixSnoc(groups, |groups| - 1);
      PrefixEnds(groups);
      var before := CutGroups(front, same, size);
      ConcatSnoc(before.closed, before.open + [last]);
      Associate(Concat(before.closed), before.open, last);
    }
  }

  lemma Associate(a: seq<seq<Chunk>>, b: seq<seq<Chunk>>, x: seq<Chunk>)
    ensures a + (b + [x]) == (a + b) + [x]
    ensures a + (b + [x]) + [] == (a + b) + [x]
  {
  }

  lemma PartsCoverGroups(groups: seq<seq<Chunk>>, same: set<ChunkId>, size: int)
    ensures Concat(Parts(CutGroups(groups, same, size))) == groups
  {
    var c := CutGroups(groups, same, size);
    CutCoversGroups(groups, same, size);
    ConcatSnoc(c.closed, c.open);
  }

  /** Reaches the size, and only with its last posting. */
  predicate Tight(part: seq<seq<Chunk>>, same: set<ChunkId>, size: int) {
    && part != []
    && Pending(Concat(part), same) >= size
    && (|part| > 1 ==> Pending(Concat(part[..|part| - 1]), same) < size)
  }

  /** Each window closes with the posting that brings it to the size, not
      earlier and not later; only the last may stay short. */
  lemma {:induction false} WindowsAreTight(groups: seq<seq<Chunk>>, same: set<ChunkId>, size: int)
    ensures var c := CutGroups(groups, same, size);
      && (forall i :: 0 <= i < |c.closed| ==> Tight(c.closed[i], same, size))
      && (c.open != [] ==> Pending(Concat(c.open), same) < size)
  {
    if groups == [] {
    } else {
      var front, last := groups[..|groups| - 1], groups[|groups| - 1];
      WindowsAreTight(front, same, size);
      var c := CutGroups(front, same, size);
      var open := c.open + [last];
      assert open[..|open| - 1] == c.open;
    }
  }

  ghost predicate OnlyOf(part: seq<seq<Chunk>>, uids: seq<string>) {
    forall u :: u in UidsOf(Concat(part)) ==> u in uids
  }

  ghost predicate Apart(a: seq<seq<Chunk>>, b: seq<seq<Chunk>>) {
    UidsOf(Concat(a)) !! UidsOf(Concat(b))
  }

  /** Of these postings, none in two of the parts. */
  ghost predicate CutApart(c: Cut, uids: seq<string>) {
    && (forall i :: 0 <= i < |c.closed| ==> OnlyOf(c.closed[i], uids) && Apart(c.closed[i], c.open))
    && OnlyOf(c.open, uids)
    && (forall i, j :: 0 <= i < j < |c.closed| ==> Apart(c.closed[i], c.closed[j]))
  }

  lemma OpenTakesPosting(c: Cut, uids: seq<string>, last: seq<Chunk>, uid: string)
    requires CutApart(c, uids) && uid !in uids && forall ch :: ch in last ==> ch.id.uid == uid
    ensures CutApart(Cut(c.closed, c.open + [last]), uids + [uid])
  {
    ConcatSnoc(c.open, last);
    assert UidsOf(Concat(c.open + [last])) == UidsOf(Concat(c.open)) + UidsOf(last);
    assert forall u :: u in UidsOf(last) ==> u == uid;
    assert forall u :: u in uids ==> u in uids + [uid];
  }

  lemma ClosingKeepsApart(c: Cut, uids: seq<string>)
    requires CutApart(c, uids)
    ensures CutApart(Cut(c.closed + [c.open], []), uids)
  {
  }

  /** Groups of different postings fall into windows without a common posting. */
  lemma {:induction false} WindowsAreApart(groups: seq<seq<Chunk>>, uids: seq<string>, same: set<ChunkId>, size: int)
    requires |uids| == |groups|
    requires forall i, j :: 0 <= i < j < |uids| ==> uids[i] != uids[j]
    requires forall i, ch :: 0 <= i < |groups| && ch in groups[i] ==> ch.id.uid == uids[i]
    ensures CutApart(CutGroups(groups, same, size), uids)
  {
    if groups == [] {
    } else {
      var n := |groups| - 1;
      WindowsAreApart(groups[..n], uids[..n], same, size);
      PrefixSnoc(uids, n);
      PrefixEnds(uids);
      var c := CutGroups(groups[..n], same, size);
      OpenTakesPosting(c, uids[..n], groups[n], uids[n]);
      ClosingKeepsApart(Cut(c.closed, c.open + [groups[n]]), uids);
    }
  }

  // ------------------------------------------------------------------ the method

  /** The chunks of each posting, postings in the order they first appear. */
  method GroupByPosting(chunks: seq<Chunk>) returns (groups: seq<seq<Chunk>>)
    ensures groups == Groups(chunks)
  {
    var order: seq<string> := [];
    var byUid: map<string, seq<Chunk>> := map[];
    for i := 0 to |chunks|
      invariant order == UidOrder(chunks[..i])
      invariant forall u :: u in byUid <==> u in order
      invariant forall u :: u in byUid ==> byUid[u] == Select(chunks[..i], u)
    {
      var c := chunks[i];
      assert chunks[..i + 1][..i] == chunks[..i];
      if c.id.uid !in byUid {
        OrderListsUids(chunks[..i]);
        SelectIsOnePosting(chunks[..i], c.id.uid);
        order := order + [c.id.uid];
        byUid := byUid[c.id.uid := [c]];
      } else {
        byUid := byUid[c.id.uid := byUid[c.id.uid] + [c]];
      }
    }
    assert chunks[..|chunks|] == chunks;
    groups := seq(|order|, i requires 0 <= i < |order| && order[i] in byUid => byUid[order[i]]);
  }

  /** Every chunk lands in exactly one window, no posting spans two, postings and
      chunks keep their order, every window but the last holds at least size chunks
      to embed, and each closes with the posting that brings it there. */
  method PlanWindows(chunks: seq<Chunk>, same: set<ChunkId>, size: int) returns (windows: seq<seq<Chunk>>)
    ensures windows == Joined(Parts(CutGroups(Groups(chunks), same, size)))
    ensures multiset(Concat(windows)) == multiset(chunks)
    ensures forall i :: 0 <= i < |windows| ==> windows[i] != []
    ensures forall i, j :: 0 <= i < j < |windows| ==> UidsOf(windows[i]) !! UidsOf(windows[j])
    ensures forall i :: 0 <= i < |windows| - 1 ==> Pending(windows[i], same) >= size
    ensures WellSized(windows, same, size)
    ensures UidOrder(Concat(windows)) == UidOrder(chunks)
    ensures forall u :: Select(Concat(windows), u) == Select(chunks, u)
  {
    var groups := GroupByPosting(chunks);
    ghost var cut := Cut([], []);
    windows := [];
    var current: seq<Chunk>, pending := [], 0;
    for i := 0 to |groups|
      invariant cut == CutGroups(groups[..i], same, size)
      invariant windows == Joined(cut.closed)
      invariant current == Concat(cut.open) && pending == Pending(current, same)
    {
      assert groups[..i + 1][..i] == groups[..i];
      ConcatSnoc(cut.open, groups[i]);
      PendingAdds(current, groups[i], same);
      cut := CutGroups(groups[..i + 1], same, size);
      current := current + groups[i];
      pending := pending + Pending(groups[i], same);
      if pending >= size {
        windows := windows + [current];
        current, pending := [], 0;
      }
    }
    assert groups[..|groups|] == groups;
    OpenIsNonEmpty(chunks, same, size);
    if current != [] {
      windows := windows + [current];
    }
    PlanFacts(chunks, same, size);
    PlanIsWellSized(chunks, same, size);
    PlanKeepsOrder(chunks, same, size);
  }

  lemma GroupsFacts(chunks: seq<Chunk>)
    ensures |Groups(chunks)| == |UidOrder(chunks)|
    ensures forall i :: 0 <= i < |Groups(chunks)| ==> Groups(chunks)[i] != []
    ensures forall i, ch :: 0 <= i < |Groups(chunks)| && ch in Groups(chunks)[i] ==> ch.id.uid == UidOrder(chunks)[i]
  {
    OrderListsUids(chunks);
    forall i | 0 <= i < |Groups(chunks)|
      ensures Groups(chunks)[i] != []
      ensures forall ch :: ch in Groups(chunks)[i] ==> ch.id.uid == UidOrder(chunks)[i]
    {
      assert UidOrder(chunks)[i] in UidOrder(chunks);
      SelectIsOnePosting(chunks, UidOrder(chunks)[i]);
    }
  }

  lemma {:induction false} ConcatMembers(xss: seq<seq<seq<Chunk>>>, g: seq<Chunk>, i: nat)
    requires i < |xss| && g in xss[i]
    ensures g in Concat(xss)
  {
    if i == 0 {
    } else {
      assert xss[1..][i - 1] == xss[i];
      ConcatMembers(xss[1..], g, i - 1);
    }
  }

  lemma NonEmptyPart(groups: seq<seq<Chunk>>, parts: seq<seq<seq<Chunk>>>, i: nat)
    requires Concat(parts) == groups && i < |parts| && parts[i] != []
    requires forall j :: 0 <= j < |groups| ==> groups[j] != []
    ensures Concat(parts[i]) != []
  {
    ConcatMembers(parts, parts[i][0], i);
  }

  lemma OpenIsNonEmpty(chunks: seq<Chunk>, same: set<ChunkId>, size: int)
    ensures var c := CutGroups(Groups(chunks), same, size);
      c.open != [] ==> Concat(c.open) != []
  {
    var c := CutGroups(Groups(chunks), same, size);
    GroupsFacts(chunks);
    PartsCoverGroups(Groups(chunks), same, size);
    if c.open != [] {
      NonEmptyPart(Groups(chunks), Parts(c), |c.closed|);
    }
  }

  lemma {:induction false} ConcatJoined(parts: seq<seq<seq<Chunk>>>)
    ensures Concat(Joined(parts)) == Concat(Concat(parts))
  {
    if parts == [] {
    } else {
      assert Joined(parts)[1..] == Joined(parts[1..]);
      ConcatJoined(parts[1..]);
      ConcatAppend(parts[0], Concat(parts[1..]));
    }
  }

  lemma PlanPermutes(chunks: seq<Chunk>, same: set<ChunkId>, size: int)
    ensures var windows := Joined(Parts(CutGroups(Groups(chunks), same, size)));
      multiset(Concat(windows)) == multiset(chunks)
  {
    var groups := Groups(chunks);
    GroupsPermute(chunks);
    PartsCoverGroups(groups, same, size);
    ConcatJoined(Parts(CutGroups(groups, same, size)));
  }

  lemma PlanIsTight(chunks: seq<Chunk>, same: set<ChunkId>, size: int)
    ensures var windows := Joined(Parts(CutGroups(Groups(chunks), same, size)));
      && (forall i :: 0 <= i < |windows| ==> windows[i] != [])
      && (forall i :: 0 <= i < |windows| - 1 ==> Pending(windows[i], same) >= size)
  {
    var groups := Groups(chunks);
    var parts := Parts(CutGroups(groups, same, size));
    GroupsFacts(chunks);
    PartsCoverGroups(groups, same, size);
    WindowsAreTight(groups, same, size);
    forall i | 0 <= i < |parts|
      ensures Joined(parts)[i] != []
    {
      NonEmptyPart(groups, parts, i);
    }
  }

  lemma PlanIsApart(chunks: seq<Chunk>, same: set<ChunkId>, size: int)
    ensures var windows := Joined(Parts(CutGroups(Groups(chunks), same, size)));
      forall i, j :: 0 <= i < j < |windows| ==> UidsOf(windows[i]) !! UidsOf(windows[j])
  {
    GroupsFacts(chunks);
    OrderListsUids(chunks);
    WindowsAreApart(Groups(chunks), UidOrder(chunks), same, size);
  }

  lemma PlanFacts(chunks: seq<Chunk>, same: set<ChunkId>, size: int)
    ensures var windows := Joined(Parts(CutGroups(Groups(chunks), same, size)));
      && multiset(Concat(windows)) == multiset(chunks)
      && (forall i :: 0 <= i < |windows| ==> windows[i] != [])
      && (forall i, j :: 0 <= i < j < |windows| ==> UidsOf(windows[i]) !! UidsOf(windows[j]))
      && (forall i :: 0 <= i < |windows| - 1 ==> Pending(windows[i], same) >= size)
  {
    PlanPermutes(chunks, same, size);
    PlanIsTight(chunks, same, size);
    PlanIsApart(chunks, same, size);
  }

  /** The last group of a part is the posting of its last chunk, and no other is. */
  lemma LastGroupIsLastPosting(front: seq<Chunk>, last: seq<Chunk>, same: set<ChunkId>)
    requires last != [] && (forall c :: c in last ==> c.id.uid == last[0].id.uid) && last[0].id.uid !in UidsOf(front)
    ensures front == [] ==> |UidsOf(front + last)| == 1
    ensures ToEmbedBeforeLast(front + last, same) == ToEmbed(front, same)
  {
    var all, u := front + last, last[0].id.uid;
    assert all[|all| - 1] == last[|last| - 1] && last[|last| - 1] in last;
    forall i: nat | i < |all|
      ensures i < |front| <==> all[i].id.uid != u
    {
      if i < |front| {
        assert all[i] == front[i] && front[i] in front;
        assert front[i].id.uid in UidsOf(front);
      } else {
        assert all[i] == last[i - |front|] && last[i - |front|] in last;
      }
    }
    if front == [] {
      assert all == last && last[0] in last;
      assert UidsOf(all) == {u};
    }
  }

  /** Each group is some chunks of one posting, and no two of the same. */
  ghost predicate OnePostingAGroup(part: seq<seq<Chunk>>) {
    && (forall i :: 0 <= i < |part| ==> OfOnePosting(part[i]))
    && (forall i, j :: 0 <= i < j < |part| ==> part[i][0].id.uid != part[j][0].id.uid)
  }

  ghost predicate OfOnePosting(group: seq<Chunk>) {
    group != [] && forall c :: c in group ==> c.id.uid == group[0].id.uid
  }

  /** A part of one posting a group closes in time where its groups but the last stay
      below the size. */
  lemma PartClosesInTime(part: seq<seq<Chunk>>, same: set<ChunkId>, size: int)
    requires part != []
    requires OnePostingAGroup(part)
    requires |part| > 1 ==> Pending(Concat(part[..|part| - 1]), same) < size
    ensures ClosedInTime(Concat(part), same, size)
  {
    var front, last := part[..|part| - 1], part[|part| - 1];
    PrefixSnoc(part, |part| - 1);
    PrefixEnds(part);
    ConcatSnoc(front, last);
    forall u | u in UidsOf(Concat(front))
      ensures u != last[0].id.uid
    {
      var c: Chunk :| c in Concat(front) && c.id.uid == u;
      var i := GroupOf(front, c);
      assert front[i] == part[i] && OfOnePosting(part[i]);
    }
    assert OfOnePosting(part[|part| - 1]);
    LastGroupIsLastPosting(Concat(front), last, same);
    PendingCounts(Concat(front), same);
  }

  lemma {:induction false} GroupOf(groups: seq<seq<Chunk>>, c: Chunk) returns (i: nat)
    requires c in Concat(groups)
    ensures i < |groups| && c in groups[i]
  {
    if c in groups[0] {
      i := 0;
    } else {
      var j := GroupOf(groups[1..], c);
      i := j + 1;
    }
  }

  /** The groups of the postings a part covers are some of the groups cut. */
  lemma {:induction false} PartIsSlice(parts: seq<seq<seq<Chunk>>>, n: nat) returns (lo: nat)
    requires n < |parts|
    ensures lo + |parts[n]| <= |Concat(parts)| && Concat(parts)[lo..lo + |parts[n]|] == parts[n]
  {
    if n == 0 {
      lo := 0;
    } else {
      var k := PartIsSlice(parts[1..], n - 1);
      lo := |parts[0]| + k;
    }
  }

  lemma SliceFits(groups: seq<seq<Chunk>>, order: seq<string>, lo: nat, part: seq<seq<Chunk>>)
    requires lo + |part| <= |groups| == |order| && part == groups[lo..lo + |part|]
    requires forall i, j :: 0 <= i < j < |order| ==> order[i] != order[j]
    requires forall i :: 0 <= i < |groups| ==> groups[i] != []
    requires forall i, c :: 0 <= i < |groups| && c in groups[i] ==> c.id.uid == order[i]
    ensures OnePostingAGroup(part)
  {
    forall k | 0 <= k < |part|
      ensures OfOnePosting(part[k]) && part[k][0].id.uid == order[lo + k]
    {
      assert part[k] == groups[lo + k] && groups[lo + k][0] in groups[lo + k];
    }
  }

  lemma OpenStaysShort(open: seq<seq<Chunk>>, same: set<ChunkId>, size: int)
    requires open != [] && Pending(Concat(open), same) < size
    ensures Pending(Concat(open[..|open| - 1]), same) < size
  {
    var front, last := open[..|open| - 1], open[|open| - 1];
    PrefixSnoc(open, |open| - 1);
    PrefixEnds(open);
    ConcatSnoc(front, last);
    PendingAdds(Concat(front), last, same);
  }

  lemma PartInTime(cut: Cut, same: set<ChunkId>, size: int, i: nat)
    requires i < |Parts(cut)|
    requires forall k :: 0 <= k < |cut.closed| ==> Tight(cut.closed[k], same, size)
    requires cut.open != [] ==> Pending(Concat(cut.open), same) < size
    ensures var part := Parts(cut)[i];
      part != [] && (|part| > 1 ==> Pending(Concat(part[..|part| - 1]), same) < size)
  {
    if i == |cut.closed| {
      OpenStaysShort(cut.open, same, size);
    }
  }

  /** The i-th part of a cut closes in time. */
  lemma PartOfCut(chunks: seq<Chunk>, same: set<ChunkId>, size: int, i: nat)
    requires i < |Parts(CutGroups(Groups(chunks), same, size))|
    ensures ClosedInTime(Concat(Parts(CutGroups(Groups(chunks), same, size))[i]), same, size)
  {
    var groups := Groups(chunks);
    var cut := CutGroups(groups, same, size);
    PartFits(chunks, same, size, i);
    WindowsAreTight(groups, same, size);
    PartInTime(cut, same, size, i);
    PartClosesInTime(Parts(cut)[i], same, size);
  }

  lemma PartFits(chunks: seq<Chunk>, same: set<ChunkId>, size: int, i: nat)
    requires i < |Parts(CutGroups(Groups(chunks), same, size))|
    ensures OnePostingAGroup(Parts(CutGroups(Groups(chunks), same, size))[i])
  {
    var parts := Parts(CutGroups(Groups(chunks), same, size));
    PartsCoverGroups(Groups(chunks), same, size);
    var lo := PartIsSlice(parts, i);
    GroupsFit(chunks, lo, parts[i]);
  }

  lemma GroupsFit(chunks: seq<Chunk>, lo: nat, part: seq<seq<Chunk>>)
    requires lo + |part| <= |Groups(chunks)| && part == Groups(chunks)[lo..lo + |part|]
    ensures OnePostingAGroup(part)
  {
    GroupsFacts(chunks);
    OrderListsUids(chunks);
    SliceFits(Groups(chunks), UidOrder(chunks), lo, part);
  }

  lemma PlanIsWellSized(chunks: seq<Chunk>, same: set<ChunkId>, size: int)
    ensures WellSized(Joined(Parts(CutGroups(Groups(chunks), same, size))), same, size)
  {
    var windows := Joined(Parts(CutGroups(Groups(chunks), same, size)));
    PlanIsTight(chunks, same, size);
    forall i: nat | i < |windows|
      ensures |ToEmbed(windows[i], same)| == Pending(windows[i], same)
      ensures ClosedInTime(windows[i], same, size)
    {
      PendingCounts(windows[i], same);
      PartOfCut(chunks, same, size, i);
    }
  }

  // ------------------------------------------------------------------ order

  lemma {:induction false} SelectAppends(a: seq<Chunk>, b: seq<Chunk>, u: string)
    ensures Select(a + b, u) == Select(a, u) + Select(b, u)
  {
    if b == [] {
      EmptyIsUnit(a);
      EmptyIsUnit(Select(a, u));
    } else {
      var front, last := b[..|b| - 1], b[|b| - 1];
      assert (a + b)[..|a + b| - 1] == a + front;
      SelectAppends(a, front, u);
    }
  }

  lemma {:induction false} SelectOfPosting(cs: seq<Chunk>, u: string)
    ensures (forall c :: c in cs ==> c.id.uid == u) ==> Select(cs, u) == cs
    ensures (forall c :: c in cs ==> c.id.uid != u) ==> Select(cs, u) == []
  {
    if cs == [] {
    } else {
      PrefixSnoc(cs, |cs| - 1);
      PrefixEnds(cs);
      SelectOfPosting(cs[..|cs| - 1], u);
    }
  }

  lemma {:induction false} OrderOfPosting(a: seq<Chunk>, b: seq<Chunk>)
    requires b != [] && (forall c :: c in b ==> c.id.uid == b[0].id.uid) && b[0].id.uid !in UidsOf(a)
    ensures UidOrder(a + b) == UidOrder(a) + [b[0].id.uid]
  {
    var front, last := b[..|b| - 1], b[|b| - 1];
    assert (a + b)[..|a + b| - 1] == a + front;
    assert last in b;
    if front == [] {
      EmptyIsUnit(a);
      OrderListsUids(a);
    } else {
      assert forall c :: c in front ==> c in b;
      OrderOfPosting(a, front);
    }
  }

  /** The n-th group is the n-th posting's, and new to the groups before it. */
  lemma NextGroup(chunks: seq<Chunk>, n: nat)
    requires n < |UidOrder(chunks)| && UidOrder(Concat(Groups(chunks)[..n])) == UidOrder(chunks)[..n]
    ensures var groups, order := Groups(chunks), UidOrder(chunks); var last := groups[n];
      && Concat(groups[..n + 1]) == Concat(groups[..n]) + last
      && last == Select(chunks, order[n]) && last != []
      && (forall c :: c in last ==> c.id.uid == order[n])
      && order[n] !in UidsOf(Concat(groups[..n])) && last[0].id.uid == order[n]
  {
    var groups := Groups(chunks);
    GroupsFacts(chunks);
    OrderListsUids(chunks);
    OrderListsUids(Concat(groups[..n]));
    PrefixSnoc(groups, n);
    ConcatSnoc(groups[..n], groups[n]);
    assert groups[n][0] in groups[n];
  }

  /** The first n groups hold the first n postings, in order. */
  lemma {:induction false} GroupsKeepPostings(chunks: seq<Chunk>, n: nat)
    requires n <= |UidOrder(chunks)|
    ensures UidOrder(Concat(Groups(chunks)[..n])) == UidOrder(chunks)[..n]
  {
    if n == 0 {
    } else {
      GroupsKeepPostings(chunks, n - 1);
      NextGroup(chunks, n - 1);
      OrderOfPosting(Concat(Groups(chunks)[..n - 1]), Groups(chunks)[n - 1]);
      PrefixSnoc(UidOrder(chunks), n - 1);
    }
  }

  /** Of each of these postings they hold the chunks in order, and of others none. */
  lemma {:induction false} GroupsKeepOrder(chunks: seq<Chunk>, n: nat, u: string)
    requires n <= |UidOrder(chunks)|
    ensures Select(Concat(Groups(chunks)[..n]), u) == if u in UidOrder(chunks)[..n] then Select(chunks, u) else []
  {
    if n == 0 {
    } else {
      var front, last, uid := Concat(Groups(chunks)[..n - 1]), Groups(chunks)[n - 1], UidOrder(chunks)[n - 1];
      GroupsKeepOrder(chunks, n - 1, u);
      GroupsKeepPostings(chunks, n - 1);
      NextGroup(chunks, n - 1);
      OrderListsUids(front);
      PrefixSnoc(UidOrder(chunks), n - 1);
      SelectNext(chunks, UidOrder(chunks)[..n - 1], uid, front, last, u);
    }
  }

  lemma SelectNext(chunks: seq<Chunk>, order: seq<string>, uid: string, front: seq<Chunk>, last: seq<Chunk>, u: string)
    requires Select(front, u) == if u in order then Select(chunks, u) else []
    requires last == Select(chunks, uid) && (forall c :: c in last ==> c.id.uid == uid) && uid !in order
    ensures Select(front + last, u) == if u in order + [uid] then Select(chunks, u) else []
  {
    SelectAppends(front, last, u);
    SelectOfPosting(last, u);
    EmptyIsUnit(Select(front, u));
    EmptyIsUnit(last);
  }

  lemma PlanKeepsOrder(chunks: seq<Chunk>, same: set<ChunkId>, size: int)
    ensures var all := Concat(Joined(Parts(CutGroups(Groups(chunks), same, size))));
      UidOrder(all) == UidOrder(chunks) && forall u :: Select(all, u) == Select(chunks, u)
  {
    var groups := Groups(chunks);
    PartsCoverGroups(groups, same, size);
    ConcatJoined(Parts(CutGroups(groups, same, size)));
    PrefixEnds(groups);
    PrefixEnds(UidOrder(chunks));
    GroupsKeepPostings(chunks, |groups|);
    forall u
      ensures Select(Concat(groups), u) == Select(chunks, u)
    {
      GroupsKeepOrder(chunks, |groups|, u);
      OrderListsUids(chunks);
      SelectIsOnePosting(chunks, u);
    }
  }
}
