/** chunk_posting: whole short postings, item-bounded chunks with a one-item
    overlap for long ones, and forced cuts of oversized items. */
module Chunking {
  import opened Common
  import opened ItemSplit
  import IndexHash

  const WHOLE_MAX: nat := 1024
  const SPLIT_TARGET: nat := 600
  const HARD_MAX: nat := 1400
  const STEP: nat := HARD_MAX * 2

  datatype Part = Full | Split

  datatype Chunk = Chunk(uid: string, number: nat, part: Part, text: string, tokens: nat,
                         forced: bool, review: bool)

  datatype Posting = Posting(uid: string, prefix: string, detail: string, needsReview: bool)

  /** What a chunk was made from: the whole body, a run of items (led by the
      previous run's last item when `carried`), or the part of an oversized item
      that starts at character `at`. */
  datatype Piece = Whole(body: string) | Run(items: seq<string>, carried: bool) | Cut(item: string, at: nat)

  /** The STEP characters from `at` on, or as many as there are. */
  function Slice(it: string, at: nat): string {
    if at >= |it| then "" else if at + STEP < |it| then it[at..at + STEP] else it[at..]
  }

  function Join(items: seq<string>): string {
    if items == [] then ""
    else if |items| == 1 then items[0]
    else Join(items[..|items| - 1]) + "\n" + items[|items| - 1]
  }

  function Body(piece: Piece): string {
    match piece
    case Whole(body) => body
    case Run(items, _) => Join(items)
    case Cut(item, at) => Slice(item, at)
  }

  /** The chunk a piece becomes as the n-th of its posting. */
  function Render(p: Posting, count: string -> nat, piece: Piece, n: nat): Chunk {
    var text := p.prefix + Body(piece);
    Chunk(p.uid, n, if piece.Whole? then Full else Split, text, count(text), piece.Cut?, piece.Cut? || p.needsReview)
  }

  // ------------------------------------------------------------------ reading a plan back

  /** Take one more piece in: drop a carried head, rejoin a cut item. */
  function Absorb(done: seq<string>, piece: Piece): seq<string> {
    match piece
    case Whole(body) => done + [body]
    case Run(items, carried) => done + if carried && items != [] then items[1..] else items
    case Cut(item, at) =>
      if at == 0 || done == [] then done + [Slice(item, at)]
      else done[..|done| - 1] + [done[|done| - 1] + Slice(item, at)]
  }

  function Restore(pieces: seq<Piece>): seq<string> {
    if pieces == [] then [] else Absorb(Restore(pieces[..|pieces| - 1]), pieces[|pieces| - 1])
  }

  lemma RestoreSnoc(pieces: seq<Piece>, piece: Piece)
    ensures Restore(pieces + [piece]) == Absorb(Restore(pieces), piece)
  {
    assert (pieces + [piece])[..|pieces|] == pieces;
  }

  function TokensOf(items: seq<string>, count: string -> nat): nat {
    if items == [] then 0 else TokensOf(items[..|items| - 1], count) + count(items[|items| - 1])
  }

  /** A run stays within the target, or is a single new item, led by the carried one
      if there is one; it always brings something new and never an oversized item. */
  ghost predicate GoodRun(items: seq<string>, carried: bool, count: string -> nat) {
    && |items| >= (if carried then 2 else 1)
    && (TokensOf(items, count) <= SPLIT_TARGET || |items| <= (if carried then 2 else 1))
    && (forall k :: 0 <= k < |items| ==> count(items[k]) <= HARD_MAX && Clean(items[k]))
  }

  /** What splitting makes an item: something, on one line. */
  predicate Clean(it: string) {
    it != "" && '\n' !in it
  }

  /** No further part of a cut item is due. */
  ghost predicate Ended(piece: Piece) {
    piece.Cut? ==> piece.at + STEP >= |piece.item|
  }

  /** One piece next to the one before it. A run is led by the previous run's last
      item exactly when it directly follows a run, and that run was closed because
      the item after it did not fit in; the parts of a cut item come one after the
      other, all of them. */
  ghost predicate Follows(before: Piece, piece: Piece, count: string -> nat) {
    match piece
    case Whole(_) => false
    case Run(items, carried) =>
      && Ended(before)
      && carried == before.Run?
      && (carried ==>
            && before.items != [] && |items| >= 2
            && items[0] == before.items[|before.items| - 1]
            && TokensOf(before.items, count) + count(items[1]) > SPLIT_TARGET)
    case Cut(item, at) =>
      if at == 0 then Ended(before) else before.Cut? && before.item == item && before.at + STEP == at
  }

  /** Only an oversized item is cut. */
  ghost predicate GoodPiece(piece: Piece, count: string -> nat) {
    match piece
    case Whole(_) => false
    case Run(items, carried) => GoodRun(items, carried, count)
    case Cut(item, at) => at < |item| && count(item) > HARD_MAX
  }

  /** Where a piece may stand: first, or next to what precedes it. */
  ghost predicate Fits(before: seq<Piece>, piece: Piece, count: string -> nat) {
    if before == [] then !(piece.Run? && piece.carried) && !(piece.Cut? && piece.at != 0)
    else Follows(before[|before| - 1], piece, count)
  }

  ghost predicate AllEnded(pieces: seq<Piece>) {
    pieces == [] || Ended(pieces[|pieces| - 1])
  }

  /** No run is open at the end, and no cut item either. */
  ghost predicate AtBoundary(pieces: seq<Piece>) {
    AllEnded(pieces) && (pieces == [] || !pieces[|pieces| - 1].Run?)
  }

  ghost predicate GoodPlan(pieces: seq<Piece>, count: string -> nat) {
    pieces == [] ||
    (var front, last := pieces[..|pieces| - 1], pieces[|pieces| - 1];
     GoodPlan(front, count) && GoodPiece(last, count) && Fits(front, last, count))
  }

  lemma PlanSnoc(pieces: seq<Piece>, piece: Piece, count: string -> nat)
    ensures GoodPlan(pieces + [piece], count) <==> GoodPlan(pieces, count) && GoodPiece(piece, count) && Fits(pieces, piece, count)
  {
    assert (pieces + [piece])[..|pieces|] == pieces;
  }

  /** A good plan read by position. */
  lemma {:induction false} PlanAt(pieces: seq<Piece>, count: string -> nat, i: nat)
    requires GoodPlan(pieces, count) && i < |pieces|
    ensures GoodPiece(pieces[i], count)
    ensures i > 0 ==> Follows(pieces[i - 1], pieces[i], count)
  {
    if i == |pieces| - 1 {
    } else {
      PlanAt(pieces[..|pieces| - 1], count, i);
    }
  }

  /** The pieces made so far and the run being filled. */
  ghost function WithOpenRun(pieces: seq<Piece>, cur: seq<string>, carried: bool): seq<Piece> {
    if cur == [] then pieces else pieces + [Run(cur, carried)]
  }

  ghost predicate Rendered(p: Posting, count: string -> nat, pieces: seq<Piece>, chunks: seq<Chunk>) {
    |chunks| == |pieces| && forall i :: 0 <= i < |chunks| ==> chunks[i] == Render(p, count, pieces[i], i)
  }

  lemma TokensSnoc(items: seq<string>, it: string, count: string -> nat)
    ensures TokensOf(items + [it], count) == TokensOf(items, count) + count(it)
  {
    assert (items + [it])[..|items|] == items;
  }

  lemma TokensOfOne(it: string, count: string -> nat)
    ensures TokensOf([it], count) == count(it)
  {
    TokensSnoc([], it, count);
    assert [] + [it] == [it];
  }

  /** A longer run restores one more item, and opens the same way. */
  lemma AbsorbLongerRun(done: seq<string>, cur: seq<string>, carried: bool, it: string)
    requires cur != [] || !carried
    ensures Absorb(done, Run(cur + [it], carried)) == Absorb(done, Run(cur, carried)) + [it]
  {
    if carried {
      assert (cur + [it])[1..] == cur[1..] + [it];
    }
  }

  lemma FitsLongerRun(pieces: seq<Piece>, cur: seq<string>, carried: bool, it: string, count: string -> nat)
    ensures cur != [] && Fits(pieces, Run(cur, carried), count) ==> Fits(pieces, Run(cur + [it], carried), count)
    ensures !carried && AtBoundary(pieces) ==> Fits(pieces, Run(cur + [it], carried), count)
  {
    assert forall k :: 0 <= k < |cur| ==> (cur + [it])[k] == cur[k];
  }

  /** The open run takes one more item. */
  lemma ExtendRun(pieces: seq<Piece>, cur: seq<string>, carried: bool, it: string, count: string -> nat)
    requires GoodPlan(WithOpenRun(pieces, cur, carried), count) && count(it) <= HARD_MAX && Clean(it)
    requires cur == [] ==> !carried && AtBoundary(pieces)
    requires cur != [] ==> TokensOf(cur, count) + count(it) <= SPLIT_TARGET
    ensures GoodPlan(WithOpenRun(pieces, cur + [it], carried), count)
    ensures Restore(WithOpenRun(pieces, cur + [it], carried)) == Restore(WithOpenRun(pieces, cur, carried)) + [it]
  {
    RestoreSnoc(pieces, Run(cur + [it], carried));
    RestoreSnoc(pieces, Run(cur, carried));
    AbsorbLongerRun(Restore(pieces), cur, carried, it);
    PlanSnoc(pieces, Run(cur + [it], carried), count);
    PlanSnoc(pieces, Run(cur, carried), count);
    FitsLongerRun(pieces, cur, carried, it, count);
    RunGrows(cur, carried, it, count);
  }

  lemma RunGrows(cur: seq<string>, carried: bool, it: string, count: string -> nat)
    requires count(it) <= HARD_MAX && Clean(it)
    requires cur == [] ==> !carried
    requires cur != [] ==> GoodRun(cur, carried, count) && TokensOf(cur, count) + count(it) <= SPLIT_TARGET
    ensures GoodRun(cur + [it], carried, count)
  {
    TokensSnoc(cur, it, count);
  }

  /** The run that opens with the last item of a good one and a new item. */
  lemma NextRunIsGood(cur: seq<string>, carried: bool, it: string, count: string -> nat)
    requires GoodRun(cur, carried, count) && count(it) <= HARD_MAX && Clean(it)
    ensures GoodRun([cur[|cur| - 1], it], true, count)
  {
  }

  lemma NextRunFits(pieces: seq<Piece>, cur: seq<string>, carried: bool, it: string, count: string -> nat)
    requires cur != [] && TokensOf(cur, count) + count(it) > SPLIT_TARGET
    ensures Fits(pieces + [Run(cur, carried)], Run([cur[|cur| - 1], it], true), count)
  {
    assert (pieces + [Run(cur, carried)])[|pieces|] == Run(cur, carried);
  }

  /** A full run is closed and the next one opens with its last item and a new one. */
  lemma CarryOver(pieces: seq<Piece>, cur: seq<string>, carried: bool, it: string, count: string -> nat)
    requires GoodPlan(WithOpenRun(pieces, cur, carried), count) && cur != [] && count(it) <= HARD_MAX && Clean(it)
    requires TokensOf(cur, count) + count(it) > SPLIT_TARGET
    ensures var closed := pieces + [Run(cur, carried)]; var next := [cur[|cur| - 1], it];
      && GoodPlan(WithOpenRun(closed, next, true), count)
      && Restore(WithOpenRun(closed, next, true)) == Restore(closed) + [it]
  {
    var closed, next := pieces + [Run(cur, carried)], [cur[|cur| - 1], it];
    RestoreSnoc(closed, Run(next, true));
    PlanSnoc(pieces, Run(cur, carried), count);
    NextRunIsGood(cur, carried, it, count);
    NextRunFits(pieces, cur, carried, it, count);
    PlanSnoc(closed, Run(next, true), count);
    assert next[1..] == [it];
  }

  /** The first i characters, or all where there are fewer. */
  function Upto(it: string, i: nat): string {
    if i < |it| then it[..i] else it
  }

  lemma SliceJoins(it: string, at: nat)
    requires at < |it|
    ensures Upto(it, at) + Slice(it, at) == Upto(it, at + STEP)
    ensures Upto(it, 0) == "" && Slice(it, 0) == Upto(it, STEP)
  {
  }

  lemma AbsorbCut(done: seq<string>, head: string, it: string, at: nat)
    ensures Absorb(done, Cut(it, 0)) == done + [Slice(it, 0)]
    ensures at != 0 ==> Absorb(done + [head], Cut(it, at)) == done + [head + Slice(it, at)]
  {
    assert (done + [head])[..|done|] == done;
  }

  /** One more part of an oversized item. */
  lemma CutOneMore(pieces: seq<Piece>, done: seq<string>, it: string, at: nat, count: string -> nat)
    requires GoodPlan(pieces, count) && at < |it| && count(it) > HARD_MAX
    requires Restore(pieces) == if at == 0 then done else done + [Upto(it, at)]
    requires if at == 0 then AllEnded(pieces)
             else at >= STEP && pieces != [] && pieces[|pieces| - 1] == Cut(it, at - STEP)
    ensures GoodPlan(pieces + [Cut(it, at)], count)
    ensures Restore(pieces + [Cut(it, at)]) == done + [Upto(it, at + STEP)]
  {
    RestoreSnoc(pieces, Cut(it, at));
    PlanSnoc(pieces, Cut(it, at), count);
    SliceJoins(it, at);
    AbsorbCut(done, Upto(it, at), it, at);
  }

  /** The first i characters of an oversized item have been cut, and rendered. */
  ghost predicate Cutting(p: Posting, count: string -> nat, it: string, i: nat, before: seq<Piece>,
                          pieces: seq<Piece>, chunks: seq<Chunk>) {
    && Rendered(p, count, pieces, chunks)
    && GoodPlan(pieces, count)
    && (if i == 0 then pieces == before && AllEnded(pieces)
        else i >= STEP && pieces != [] && pieces[|pieces| - 1] == Cut(it, i - STEP))
    && Restore(pieces) == if i == 0 then Restore(before) else Restore(before) + [Upto(it, i)]
  }

  lemma CuttingStarts(p: Posting, count: string -> nat, it: string, pieces: seq<Piece>, chunks: seq<Chunk>)
    requires GoodPlan(pieces, count) && AllEnded(pieces) && Rendered(p, count, pieces, chunks)
    ensures Cutting(p, count, it, 0, pieces, pieces, chunks)
  {
  }

  lemma RenderedSnoc(p: Posting, count: string -> nat, pieces: seq<Piece>, chunks: seq<Chunk>, piece: Piece,
                     chunk: Chunk)
    requires Rendered(p, count, pieces, chunks) && chunk == Render(p, count, piece, |chunks|)
    ensures Rendered(p, count, pieces + [piece], chunks + [chunk])
  {
    var all, more := chunks + [chunk], pieces + [piece];
    forall i | 0 <= i < |all|
      ensures all[i] == Render(p, count, more[i], i)
    {
      assert i < |chunks| ==> all[i] == chunks[i] && more[i] == pieces[i];
    }
  }

  lemma PlanAdvances(count: string -> nat, it: string, i: nat, before: seq<Piece>, pieces: seq<Piece>)
    requires GoodPlan(pieces, count) && i < |it| && count(it) > HARD_MAX
    requires if i == 0 then pieces == before && AllEnded(pieces)
             else i >= STEP && pieces != [] && pieces[|pieces| - 1] == Cut(it, i - STEP)
    requires Restore(pieces) == if i == 0 then Restore(before) else Restore(before) + [Upto(it, i)]
    ensures GoodPlan(pieces + [Cut(it, i)], count)
    ensures Restore(pieces + [Cut(it, i)]) == Restore(before) + [Upto(it, i + STEP)]
  {
    CutOneMore(pieces, Restore(before), it, i, count);
  }

  lemma CuttingAdvances(p: Posting, count: string -> nat, it: string, i: nat, before: seq<Piece>,
                        pieces: seq<Piece>, chunks: seq<Chunk>, chunk: Chunk)
    requires Cutting(p, count, it, i, before, pieces, chunks) && i < |it| && count(it) > HARD_MAX
    requires chunk == Render(p, count, Cut(it, i), |chunks|)
    ensures Cutting(p, count, it, i + STEP, before, pieces + [Cut(it, i)], chunks + [chunk])
  {
    RenderedSnoc(p, count, pieces, chunks, Cut(it, i), chunk);
    PlanAdvances(count, it, i, before, pieces);
  }

  lemma CuttingEnds(p: Posting, count: string -> nat, it: string, i: nat, before: seq<Piece>, pieces: seq<Piece>,
                    chunks: seq<Chunk>)
    requires Cutting(p, count, it, i, before, pieces, chunks) && i >= |it| > 0
    ensures Rendered(p, count, pieces, chunks)
    ensures GoodPlan(pieces, count) && AtBoundary(pieces) && Restore(pieces) == Restore(before) + [it]
  {
  }

  /** The forced cut of one item, appended to the chunks. */
  method CutItem(p: Posting, count: string -> nat, it: string, chunks: seq<Chunk>, ghost pieces: seq<Piece>)
    returns (chunks': seq<Chunk>, ghost pieces': seq<Piece>)
    requires it != "" && count(it) > HARD_MAX
    requires GoodPlan(pieces, count) && AllEnded(pieces) && Rendered(p, count, pieces, chunks)
    ensures GoodPlan(pieces', count) && Rendered(p, count, pieces', chunks')
    ensures Restore(pieces') == Restore(pieces) + [it]
    ensures AtBoundary(pieces')
  {
    chunks', pieces' := chunks, pieces;
    CuttingStarts(p, count, it, pieces, chunks);
    var i := 0;
    while i < |it|
      invariant Cutting(p, count, it, i, pieces, pieces', chunks')
      decreases |it| - i
    {
      var chunk := Render(p, count, Cut(it, i), |chunks'|);
      CuttingAdvances(p, count, it, i, pieces, pieces', chunks', chunk);
      chunks' := chunks' + [chunk];
      pieces' := pieces' + [Cut(it, i)];
      i := i + STEP;
    }
    CuttingEnds(p, count, it, i, pieces, pieces', chunks');
  }

  /** The loop's state: closed pieces and the open run account for the items done. */
  ghost predicate Filling(count: string -> nat, pieces: seq<Piece>, cur: seq<string>, curTok: nat, carried: bool,
                          done: seq<string>) {
    && GoodPlan(WithOpenRun(pieces, cur, carried), count)
    && Restore(WithOpenRun(pieces, cur, carried)) == done
    && curTok == TokensOf(cur, count)
    && (cur == [] ==> !carried && AtBoundary(pieces))
  }

  lemma ClosingFinishes(count: string -> nat, pieces: seq<Piece>, cur: seq<string>, curTok: nat, carried: bool,
                        done: seq<string>)
    requires Filling(count, pieces, cur, curTok, carried, done)
    ensures var closed := WithOpenRun(pieces, cur, carried);
      GoodPlan(closed, count) && AllEnded(closed) && Restore(closed) == done
  {
  }

  lemma FillingCarries(count: string -> nat, pieces: seq<Piece>, cur: seq<string>, curTok: nat, carried: bool,
                       done: seq<string>, it: string)
    requires Filling(count, pieces, cur, curTok, carried, done) && cur != [] && count(it) <= HARD_MAX && Clean(it)
    requires curTok + count(it) > SPLIT_TARGET
    ensures var last := cur[|cur| - 1];
      Filling(count, WithOpenRun(pieces, cur, carried), [last] + [it], count(last) + count(it), true, done + [it])
  {
    CarryOver(pieces, cur, carried, it, count);
    TokensOfOne(cur[|cur| - 1], count);
    TokensSnoc([cur[|cur| - 1]], it, count);
    assert [cur[|cur| - 1]] + [it] == [cur[|cur| - 1], it];
  }

  lemma FillingExtends(count: string -> nat, pieces: seq<Piece>, cur: seq<string>, curTok: nat, carried: bool,
                       done: seq<string>, it: string)
    requires Filling(count, pieces, cur, curTok, carried, done) && count(it) <= HARD_MAX && Clean(it)
    requires cur != [] ==> curTok + count(it) <= SPLIT_TARGET
    ensures Filling(count, pieces, cur + [it], curTok + count(it), carried, done + [it])
  {
    ExtendRun(pieces, cur, carried, it, count);
    TokensSnoc(cur, it, count);
  }

  /** The open run, if it holds anything, becomes a chunk. */
  method CloseRun(p: Posting, count: string -> nat, chunks: seq<Chunk>, cur: seq<string>,
                  ghost pieces: seq<Piece>, ghost carried: bool)
    returns (chunks': seq<Chunk>, ghost pieces': seq<Piece>)
    requires Rendered(p, count, pieces, chunks)
    ensures pieces' == WithOpenRun(pieces, cur, carried)
    ensures Rendered(p, count, pieces', chunks')
  {
    chunks', pieces' := chunks, pieces;
    if cur != [] {
      chunks' := chunks + [Render(p, count, Run(cur, false), |chunks|)];
      pieces' := pieces + [Run(cur, carried)];
    }
  }

  lemma FillingRestarts(count: string -> nat, pieces: seq<Piece>, done: seq<string>)
    requires GoodPlan(pieces, count) && Restore(pieces) == done && AtBoundary(pieces)
    ensures Filling(count, pieces, [], 0, false, done)
  {
  }

  /** One turn of the loop. */
  method TakeItem(p: Posting, count: string -> nat, it: string, chunks: seq<Chunk>, cur: seq<string>, curTok: nat,
                  ghost pieces: seq<Piece>, ghost carried: bool, ghost done: seq<string>)
    returns (chunks': seq<Chunk>, cur': seq<string>, curTok': nat, ghost pieces': seq<Piece>, ghost carried': bool)
    requires Clean(it) && Rendered(p, count, pieces, chunks)
    requires Filling(count, pieces, cur, curTok, carried, done)
    ensures Rendered(p, count, pieces', chunks')
    ensures Filling(count, pieces', cur', curTok', carried', done + [it])
  {
    if count(it) > HARD_MAX {
      ClosingFinishes(count, pieces, cur, curTok, carried, done);
      chunks', pieces' := CloseRun(p, count, chunks, cur, pieces, carried);
      chunks', pieces' := CutItem(p, count, it, chunks', pieces');
      FillingRestarts(count, pieces', done + [it]);
      cur', curTok', carried' := [], 0, false;
    } else if cur != [] && curTok + count(it) > SPLIT_TARGET {
      FillingCarries(count, pieces, cur, curTok, carried, done, it);
      chunks', pieces' := CloseRun(p, count, chunks, cur, pieces, carried);
      cur' := [cur[|cur| - 1]];
      curTok' := count(cur'[0]);
      cur', curTok', carried' := cur' + [it], curTok' + count(it), true;
    } else {
      FillingExtends(count, pieces, cur, curTok, carried, done, it);
      chunks', pieces', carried' := chunks, pieces, carried;
      cur', curTok' := cur + [it], curTok + count(it);
    }
  }

  /** The splitting loop. */
  method SplitItems(p: Posting, items: seq<string>, count: string -> nat)
    returns (chunks: seq<Chunk>, ghost pieces: seq<Piece>)
    requires forall k :: 0 <= k < |items| ==> Clean(items[k])
    ensures Rendered(p, count, pieces, chunks) && GoodPlan(pieces, count) && AllEnded(pieces) && Restore(pieces) == items
  {
    chunks, pieces := [], [];
    var cur: seq<string>, curTok: nat := [], 0;
    ghost var carried := false;
    PrefixEnds(items);
    for n := 0 to |items|
      invariant Rendered(p, count, pieces, chunks)
      invariant Filling(count, pieces, cur, curTok, carried, items[..n])
    {
      PrefixSnoc(items, n);
      chunks, cur, curTok, pieces, carried :=
        TakeItem(p, count, items[n], chunks, cur, curTok, pieces, carried, items[..n]);
    }
    ClosingFinishes(count, pieces, cur, curTok, carried, items);
    chunks, pieces := CloseRun(p, count, chunks, cur, pieces, carried);
  }

  /** The chunks are a good plan, rendered, and the plan restores the items. */
  ghost predicate Lossless(p: Posting, items: seq<string>, count: string -> nat, chunks: seq<Chunk>) {
    exists pieces :: Rendered(p, count, pieces, chunks) && GoodPlan(pieces, count) && AllEnded(pieces)
      && Restore(pieces) == items
  }

  // ------------------------------------------------------------------ reading the chunks back

  /** A text cut at its newlines. */
  function Lines(s: string): (r: seq<string>)
    ensures r != []
    decreases |s|
  {
    var n := NewlineAt(s);
    if n == |s| then [s] else [s[..n]] + Lines(s[n + 1..])
  }

  lemma {:induction false} LinesAppend(a: string, b: string)
    ensures Lines(a + "\n" + b) == Lines(a) + Lines(b)
    decreases |a|
  {
    var s, n := a + "\n" + b, NewlineAt(a);
    assert forall k :: 0 <= k < n ==> s[k] == a[k];
    assert s[n] == '\n';
    assert NewlineAt(s) == n by {
      FirstNewline(s, n);
    }
    assert s[..n] == a[..n];
    if n == |a| {
      assert s[n + 1..] == b && a[..n] == a;
    } else {
      assert s[n + 1..] == a[n + 1..] + "\n" + b;
      LinesAppend(a[n + 1..], b);
    }
  }

  lemma FirstNewline(s: string, n: nat)
    requires n < |s| && s[n] == '\n' && forall k :: 0 <= k < n ==> s[k] != '\n'
    ensures NewlineAt(s) == n
  {
  }

  lemma {:induction false} LinesOfJoin(items: seq<string>)
    requires items != [] && forall k :: 0 <= k < |items| ==> '\n' !in items[k]
    ensures Lines(Join(items)) == items
  {
    var n := |items| - 1;
    LineOfOne(items[n]);
    if n == 0 {
    } else {
      LinesOfJoin(items[..n]);
      LinesAppend(Join(items[..n]), items[n]);
      assert items == items[..n] + [items[n]];
    }
  }

  lemma LineOfOne(s: string)
    requires '\n' !in s
    ensures Lines(s) == [s]
  {
    assert NewlineAt(s) == |s|;
  }

  /** What a chunk says behind its posting's context. */
  function Said(p: Posting, c: Chunk): string {
    if |p.prefix| <= |c.text| then c.text[|p.prefix|..] else ""
  }

  /** Read one more chunk. A forced one is an item or goes on with one, as `anew` tells;
      any other is lines, the first of which the chunk before has said already if that
      one was not forced. */
  function ReadOne(done: seq<string>, said: string, forced: bool, anew: bool, follows: bool): seq<string> {
    if !forced then done + if follows then Lines(said)[1..] else Lines(said)
    else if anew || done == [] then done + [said]
    else done[..|done| - 1] + [done[|done| - 1] + said]
  }

  /** The items as the chunks' own texts tell them. */
  function ReadBack(p: Posting, chunks: seq<Chunk>, anew: seq<bool>): seq<string>
    requires |anew| == |chunks|
  {
    if chunks == [] then []
    else
      var n := |chunks| - 1;
      ReadOne(ReadBack(p, chunks[..n], anew[..n]), Said(p, chunks[n]), chunks[n].forced, anew[n],
              n > 0 && !chunks[n - 1].forced)
  }

  /** Only a forced chunk behind a full forced one can go on with its item. */
  ghost predicate GoesOnRightly(p: Posting, chunks: seq<Chunk>, anew: seq<bool>) {
    && |anew| == |chunks|
    && forall i :: 0 <= i < |chunks| && !anew[i] ==>
         i > 0 && chunks[i].forced && chunks[i - 1].forced && |Said(p, chunks[i - 1])| == STEP
  }

  /** The i-th chunk is numbered, counted and labelled as a part of its posting. */
  ghost predicate TellsOf(p: Posting, count: string -> nat, c: Chunk, i: nat) {
    && c.uid == p.uid && c.number == i && c.part == Split
    && p.prefix <= c.text && c.tokens == count(c.text)
    && (c.review <==> c.forced || p.needsReview)
    && (c.forced ==> 0 < |Said(p, c)| <= STEP)
  }

  /** Every chunk is what it should be, and the chunks' texts restore the items. */
  ghost predicate TellsItems(p: Posting, count: string -> nat, items: seq<string>, chunks: seq<Chunk>) {
    && (forall i: nat :: i < |chunks| ==> TellsOf(p, count, chunks[i], i))
    && exists anew :: GoesOnRightly(p, chunks, anew) && ReadBack(p, chunks, anew) == items
  }

  ghost function FreshOf(pieces: seq<Piece>): (r: seq<bool>)
    ensures |r| == |pieces| && forall i :: 0 <= i < |r| ==> (r[i] <==> !(pieces[i].Cut? && pieces[i].at != 0))
  {
    seq(|pieces|, i requires 0 <= i < |pieces| => !(pieces[i].Cut? && pieces[i].at != 0))
  }

  lemma SaidIsBody(p: Posting, count: string -> nat, piece: Piece, n: nat)
    ensures Said(p, Render(p, count, piece, n)) == Body(piece)
  {
    assert (p.prefix + Body(piece))[|p.prefix|..] == Body(piece);
  }

  /** Reading a rendered piece is taking the piece in. */
  lemma ReadOneAbsorbs(done: seq<string>, piece: Piece, count: string -> nat)
    requires GoodPiece(piece, count)
    ensures Absorb(done, piece) == ReadOne(done, Body(piece), piece.Cut?, !(piece.Cut? && piece.at != 0),
                                           piece.Run? && piece.carried)
  {
    if piece.Run? {
      LinesOfJoin(piece.items);
    }
  }

  /** What a good plan's chunk looks like. */
  lemma ChunkOfPlan(p: Posting, count: string -> nat, pieces: seq<Piece>, chunks: seq<Chunk>, i: nat)
    requires Rendered(p, count, pieces, chunks) && GoodPlan(pieces, count) && i < |chunks|
    ensures chunks[i].uid == p.uid && chunks[i].number == i && chunks[i].part == Split && p.prefix <= chunks[i].text
    ensures chunks[i].tokens == count(chunks[i].text) && (chunks[i].review <==> chunks[i].forced || p.needsReview)
    ensures Said(p, chunks[i]) == Body(pieces[i]) && (chunks[i].forced <==> pieces[i].Cut?) && !pieces[i].Whole?
    ensures chunks[i].forced ==> 0 < |Said(p, chunks[i])| <= STEP
  {
    PlanAt(pieces, count, i);
    SaidIsBody(p, count, pieces[i], i);
  }

  lemma PieceFollows(before: Piece, piece: Piece, count: string -> nat)
    requires GoodPiece(before, count) && GoodPiece(piece, count) && Follows(before, piece, count)
    ensures piece.Cut? && piece.at != 0 ==> before.Cut? && |Body(before)| == STEP
    ensures piece.Run? ==> (piece.carried <==> !before.Cut?)
  {
  }

  /** A cut item goes on only behind a full part of it, and a run carries an item over
      only from a run. */
  lemma ChunkGoesOn(p: Posting, count: string -> nat, pieces: seq<Piece>, chunks: seq<Chunk>, i: nat)
    requires Rendered(p, count, pieces, chunks) && GoodPlan(pieces, count) && i < |chunks|
    ensures pieces[i].Cut? && pieces[i].at != 0 ==> i > 0 && chunks[i - 1].forced && |Said(p, chunks[i - 1])| == STEP
    ensures pieces[i].Run? ==> (pieces[i].carried <==> i > 0 && !chunks[i - 1].forced)
  {
    PieceGoesOn(pieces, count, i);
    if i > 0 {
      ChunkOfPlan(p, count, pieces, chunks, i - 1);
    }
  }

  lemma PieceGoesOn(pieces: seq<Piece>, count: string -> nat, i: nat)
    requires GoodPlan(pieces, count) && i < |pieces|
    ensures pieces[i].Cut? && pieces[i].at != 0 ==> i > 0 && pieces[i - 1].Cut? && |Body(pieces[i - 1])| == STEP
    ensures pieces[i].Run? ==> (pieces[i].carried <==> i > 0 && !pieces[i - 1].Cut?)
  {
    if i > 0 {
      PlanAt(pieces, count, i);
      PlanAt(pieces, count, i - 1);
      PieceFollows(pieces[i - 1], pieces[i], count);
    } else {
      FirstFits(pieces, count);
    }
  }

  lemma {:induction false} FirstFits(pieces: seq<Piece>, count: string -> nat)
    requires GoodPlan(pieces, count) && pieces != []
    ensures Fits([], pieces[0], count)
  {
    if |pieces| == 1 {
      assert pieces[..0] == [];
    } else {
      FirstFits(pieces[..|pieces| - 1], count);
    }
  }

  lemma FrontRendered(p: Posting, count: string -> nat, pieces: seq<Piece>, chunks: seq<Chunk>)
    requires Rendered(p, count, pieces, chunks) && pieces != []
    ensures var n := |pieces| - 1;
      Rendered(p, count, pieces[..n], chunks[..n]) && FreshOf(pieces)[..n] == FreshOf(pieces[..n])
  {
  }

  lemma {:induction false} ReadBackRestores(p: Posting, count: string -> nat, pieces: seq<Piece>, chunks: seq<Chunk>)
    requires Rendered(p, count, pieces, chunks) && GoodPlan(pieces, count)
    ensures ReadBack(p, chunks, FreshOf(pieces)) == Restore(pieces)
  {
    if pieces == [] {
    } else {
      var n := |pieces| - 1;
      FrontRendered(p, count, pieces, chunks);
      ReadBackRestores(p, count, pieces[..n], chunks[..n]);
      LastIsRead(p, count, pieces, chunks, Restore(pieces[..n]));
    }
  }

  lemma LastIsRead(p: Posting, count: string -> nat, pieces: seq<Piece>, chunks: seq<Chunk>, done: seq<string>)
    requires Rendered(p, count, pieces, chunks) && GoodPlan(pieces, count) && pieces != []
    ensures var n := |pieces| - 1;
      ReadOne(done, Said(p, chunks[n]), chunks[n].forced, FreshOf(pieces)[n], n > 0 && !chunks[n - 1].forced)
      == Absorb(done, pieces[n])
  {
    var n := |pieces| - 1;
    ChunkOfPlan(p, count, pieces, chunks, n);
    ChunkGoesOn(p, count, pieces, chunks, n);
    PlanAt(pieces, count, n);
    ReadOneAbsorbs(done, pieces[n], count);
  }

  lemma PlanTellsItems(p: Posting, count: string -> nat, pieces: seq<Piece>, chunks: seq<Chunk>)
    requires Rendered(p, count, pieces, chunks) && GoodPlan(pieces, count)
    ensures TellsItems(p, count, Restore(pieces), chunks)
  {
    ReadBackRestores(p, count, pieces, chunks);
    PlanGoesOnRightly(p, count, pieces, chunks);
    forall i: nat | i < |chunks|
      ensures TellsOf(p, count, chunks[i], i)
    {
      ChunkOfPlan(p, count, pieces, chunks, i);
    }
  }

  lemma PlanGoesOnRightly(p: Posting, count: string -> nat, pieces: seq<Piece>, chunks: seq<Chunk>)
    requires Rendered(p, count, pieces, chunks) && GoodPlan(pieces, count)
    ensures GoesOnRightly(p, chunks, FreshOf(pieces))
  {
    forall i: nat | i < |chunks| && !FreshOf(pieces)[i]
      ensures i > 0 && chunks[i].forced && chunks[i - 1].forced && |Said(p, chunks[i - 1])| == STEP
    {
      ChunkOfPlan(p, count, pieces, chunks, i);
      ChunkGoesOn(p, count, pieces, chunks, i);
    }
  }

  /** chunk_posting: a short body whole, a long one as chunks that restore its items;
      a posting with any text has a chunk. */
  method ChunkPosting(p: Posting, count: string -> nat) returns (chunks: seq<Chunk>)
    ensures var body := Strip(p.detail);
      && (count(body) <= WHOLE_MAX ==>
            && |chunks| == 1 && chunks[0].uid == p.uid && chunks[0].number == 0 && chunks[0].part == Full
            && chunks[0].text == p.prefix + body && chunks[0].tokens == count(chunks[0].text)
            && !chunks[0].forced && chunks[0].review == p.needsReview)
      && (count(body) > WHOLE_MAX ==>
            Lossless(p, Items(body), count, chunks) && TellsItems(p, count, Items(body), chunks))
    ensures !Blank(p.detail) ==> chunks != []
  {
    var body := Strip(p.detail);
    if count(body) <= WHOLE_MAX {
      chunks := [Render(p, count, Whole(body), 0)];
    } else {
      ItemsAreClean(body);
      ItemsHoldNoNewline(body);
      var items := Items(body);
      assert forall k :: 0 <= k < |items| ==> items[k] in items;
      ghost var pieces;
      chunks, pieces := SplitItems(p, items, count);
      PlanTellsItems(p, count, pieces, chunks);
      if !Blank(p.detail) {
        StripBlank(p.detail);
        StripStrips(p.detail);
        SomethingLeavesAnItem(body);
      }
    }
  }

  /** What the content hash relies on: every chunk of a posting opens with the
      posting's context, and chunks are numbered apart. */
  lemma ChunksArePrefixed(p: Posting, count: string -> nat, pieces: seq<Piece>, chunks: seq<Chunk>, i: nat, j: nat)
    requires IndexHash.Prefixed(p.prefix) && Rendered(p, count, pieces, chunks) && i < |chunks| && j < |chunks|
    ensures IndexHash.Prefixed(chunks[i].text) && chunks[i].uid == p.uid
    ensures chunks[i].number == chunks[j].number <==> i == j
  {
    assert chunks[i].text == p.prefix + Body(pieces[i]);
    assert chunks[j] == Render(p, count, pieces[j], j);
  }
}
