/** The chunk table as a connection drives it: upsert_chunks with its two
    rollbacks, the guard before a search, and the additive ingest loop. */
module VectorStore {
  import opened Common
  import opened Sorting
  import opened IndexHash
  import opened VectorIndex
  import opened IngestLaws
  import opened IngestWindows
  import opened Embedding

  function Zip(chunks: seq<Chunk>, embeddings: seq<Option<Vector>>): seq<Item>
    requires |chunks| == |embeddings|
  {
    seq(|chunks|, i requires 0 <= i < |chunks| => Item(chunks[i], embeddings[i]))
  }

  function VectorOf(vectors: map<ChunkId, Vector>, id: ChunkId): Option<Vector> {
    Find(vectors, id)
  }

  /** The chunks beside the vectors obtained for them. */
  function ItemsOf(chunks: seq<Chunk>, vectors: map<ChunkId, Vector>): seq<Item> {
    seq(|chunks|, i requires 0 <= i < |chunks| => Item(chunks[i], VectorOf(vectors, chunks[i].id)))
  }

  predicate DistinctChunkIds(chunks: seq<Chunk>) {
    forall i, j :: 0 <= i < j < |chunks| ==> chunks[i].id != chunks[j].id
  }

  /** An aborted run reports the chunks of the windows it had committed. */
  datatype IngestOutcome =
    | Aborted(committed: seq<Chunk>, written: nat, orphans: nat, vectors: map<ChunkId, Vector>)
    | Done(embedded: nat, written: nat, orphans: nat, vectors: map<ChunkId, Vector>)

  // ----------------------------------------------------- from windows to items

  lemma ItemsKeepIds(chunks: seq<Chunk>, vectors: map<ChunkId, Vector>)
    ensures Uids(ItemsOf(chunks, vectors)) == UidsOf(chunks)
    ensures DistinctChunkIds(chunks) ==> DistinctIds(ItemsOf(chunks, vectors))
    ensures forall it :: it in ItemsOf(chunks, vectors) <==>
      it.chunk in chunks && it == Item(it.chunk, VectorOf(vectors, it.chunk.id))
  {
    var items := ItemsOf(chunks, vectors);
    forall c | c in chunks
      ensures Item(c, VectorOf(vectors, c.id)) in items
    {
      var i :| 0 <= i < |chunks| && chunks[i] == c;
      assert items[i] == Item(c, VectorOf(vectors, c.id));
    }
    forall u
      ensures u in Uids(items) <==> u in UidsOf(chunks)
    {
      if u in UidsOf(chunks) {
        var c :| c in chunks && c.id.uid == u;
        assert Item(c, VectorOf(vectors, c.id)) in items;
      }
    }
  }

  function WindowItems(windows: seq<seq<Chunk>>, vectors: map<ChunkId, Vector>): seq<seq<Item>> {
    seq(|windows|, i requires 0 <= i < |windows| => ItemsOf(windows[i], vectors))
  }

  lemma {:induction false} ConcatWindowItems(windows: seq<seq<Chunk>>, vectors: map<ChunkId, Vector>)
    ensures Concat(WindowItems(windows, vectors)) == ItemsOf(Concat(windows), vectors)
  {
    if windows == [] {
    } else {
      assert WindowItems(windows, vectors)[1..] == WindowItems(windows[1..], vectors);
      ConcatWindowItems(windows[1..], vectors);
      assert ItemsOf(windows[0] + Concat(windows[1..]), vectors)
          == ItemsOf(windows[0], vectors) + ItemsOf(Concat(windows[1..]), vectors);
    }
  }

  function IdOf(c: Chunk): ChunkId {
    c.id
  }

  lemma ReorderingKeepsDistinct(a: seq<Chunk>, b: seq<Chunk>)
    requires multiset(a) == multiset(b) && DistinctChunkIds(a)
    ensures DistinctChunkIds(b)
    ensures forall c :: c in a <==> c in b
  {
    SameMembers(a, b);
    assert Distinct(IdOf, a);
    PermutationKeepsDistinct(IdOf, a, b);
    forall i, j | 0 <= i < j < |b|
      ensures b[i].id != b[j].id
    {
      assert IdOf(b[i]) != IdOf(b[j]);
    }
  }

  /** The run ended where one call on all the chunks, with the same vectors, would have. */
  predicate EqualsOneShot(ix: Index, p: Profile, chunks: seq<Chunk>, vectors: map<ChunkId, Vector>, run: Progress) {
    var one := Upsert(ix, p, ItemsOf(chunks, vectors));
    && one.Committed?
    && run.index.rows == one.index.rows
    && run.written == one.written
    && run.orphans == one.orphans
    && (chunks != [] ==> run.index == one.index)
  }

  /** The whole loop, once every window is in: one call on all the chunks. */
  lemma PlannedWindowsEqualOneShot(ix: Index, p: Profile, chunks: seq<Chunk>, windows: seq<seq<Chunk>>,
                                   vectors: map<ChunkId, Vector>)
    requires DistinctChunkIds(chunks) && multiset(Concat(windows)) == multiset(chunks)
    requires forall i, j :: 0 <= i < j < |windows| ==> UidsOf(windows[i]) !! UidsOf(windows[j])
    ensures !Switching(ix, p) && !ix.metadata.NoTable? ==>
      var run := RunWindows(ix, p, WindowItems(windows, vectors));
      run.Some? && EqualsOneShot(ix, p, chunks, vectors, run.value)
  {
    if Switching(ix, p) || ix.metadata.NoTable? {
      return;
    }
    ReorderingKeepsDistinct(chunks, Concat(windows));
    var parts := WindowItems(windows, vectors);
    ConcatWindowItems(windows, vectors);
    ItemsKeepIds(chunks, vectors);
    ItemsKeepIds(Concat(windows), vectors);
    forall i, j | 0 <= i < j < |parts|
      ensures Uids(parts[i]) !! Uids(parts[j])
    {
      ItemsKeepIds(windows[i], vectors);
      ItemsKeepIds(windows[j], vectors);
    }
    WindowedIngestRefinesOneShot(ix, p, parts);
    OrderDoesNotMatter(ix, p, ItemsOf(chunks, vectors), Concat(parts));
    if chunks != [] {
      assert chunks[0] in Concat(windows);
      assert windows != [];
    }
  }

  /** Whatever profile was recorded before: a run that gets to its end leaves what
      one call would over the same table recorded under the runtime profile. */
  lemma FinishedRunEqualsOneShot(ix: Index, p: Profile, chunks: seq<Chunk>, windows: seq<seq<Chunk>>,
                                 vectors: map<ChunkId, Vector>)
    requires DistinctChunkIds(chunks) && multiset(Concat(windows)) == multiset(chunks)
    requires forall i, j :: 0 <= i < j < |windows| ==> UidsOf(windows[i]) !! UidsOf(windows[j])
    requires RunWindows(ix, p, WindowItems(windows, vectors)).Some?
    ensures var run := RunWindows(ix, p, WindowItems(windows, vectors)).value;
      && EqualsOneShot(RecordedAs(ix, p), p, chunks, vectors, run)
      && (if windows == [] then run.index == ix else run.index.metadata == Recorded(p))
  {
    PlannedWindowsEqualOneShot(RecordedAs(ix, p), p, chunks, windows, vectors);
    if windows == [] {
      assert chunks == [] by {
        assert |multiset(chunks)| == |chunks|;
      }
    } else {
      OnlyTheFirstCanBeRefused(ix, p, WindowItems(windows, vectors));
    }
  }

  /** Some windows of whole postings, committed one after the other, got here. */
  ghost predicate Ingested(ix: Index, p: Profile, chunks: seq<Chunk>, vectors: map<ChunkId, Vector>, run: Progress) {
    exists windows ::
      && multiset(Concat(windows)) == multiset(chunks)
      && (forall i, j :: 0 <= i < j < |windows| ==> UidsOf(windows[i]) !! UidsOf(windows[j]))
      && RunWindows(ix, p, WindowItems(windows, vectors)) == Some(run)
  }

  // ------------------------------------------------------------------ the table

  class Store {
    var rows: map<ChunkId, Row>
    var metadata: Metadata
    var active: set<string>

    function Snapshot(): Index
      reads this
    {
      Index(rows, metadata, active)
    }

    constructor (ix: Index)
      ensures Snapshot() == ix
    {
      rows, metadata, active := ix.rows, ix.metadata, ix.active;
    }

    /** The guard before a search. */
    method EnsureIndexCompatible(p: Profile) returns (admitted: bool)
      ensures admitted <==> Admits(Snapshot(), p)
    {
      var embedded := set k | k in rows && rows[k].vector.Some?;
      if embedded == {} {
        assert forall k :: k in rows ==> k !in embedded;
        return true;
      }
      var k :| k in embedded;
      match metadata
      case NoTable => return UsesLegacyLocalEmbedding(p);
      case NoRow => return UsesLegacyLocalEmbedding(p);
      case Recorded(current) => return current == p;
    }

    /** unchanged_chunk_ids: asked before anything is embedded. */
    method UnchangedChunkIds(p: Profile, chunks: seq<Chunk>) returns (same: set<ChunkId>)
      ensures same <= set c | c in chunks :: c.id
      ensures DistinctChunkIds(chunks) ==>
        forall c :: c in chunks ==> (c.id in same <==> Unchanged(rows, c.id, ContentHash(p, c.text)))
    {
      var items := ItemsOf(chunks, map[]);
      var hashes := Hashes(p, items);
      ItemsKeepIds(chunks, map[]);
      same := set id | id in hashes && Unchanged(rows, id, hashes[id]);
      if DistinctChunkIds(chunks) {
        DistinctItemsOwnHashes(p, items);
        assert forall c :: c in chunks ==> Item(c, None) in items;
      }
    }

    /** Remove the chunks of these postings that are not live any more. */
    method DeleteOrphanChunks(uids: set<string>, live: set<ChunkId>) returns (deleted: nat)
      modifies this`rows
      ensures rows == old(rows) - Orphans(old(rows), uids, live)
      ensures deleted == |Orphans(old(rows), uids, live)|
    {
      if uids == {} {
        assert Orphans(rows, uids, live) == {};
        return 0;
      }
      deleted := |Orphans(rows, uids, live)|;
      rows := rows - Orphans(rows, uids, live);
    }

    /** The write loop: chunks whose hash is stored are passed over, chunks without a
        vector are counted, the rest is written. */
    method WriteChunks(items: seq<Item>, hashes: map<ChunkId, Digest>) returns (written: nat, skipped: nat)
      requires Ids(items) <= hashes.Keys
      modifies this`rows
      ensures rows == WriteRows(old(rows), hashes, items)
      ensures written == CountWrites(old(rows), hashes, items) && skipped == CountLacks(old(rows), hashes, items)
    {
      var before := rows;
      written, skipped := 0, 0;
      PrefixEnds(items);
      for i := 0 to |items|
        invariant Ids(items[..i]) <= hashes.Keys
        invariant rows == WriteRows(before, hashes, items[..i])
        invariant written == CountWrites(before, hashes, items[..i])
        invariant skipped == CountLacks(before, hashes, items[..i])
      {
        var it := items[i];
        PrefixSnoc(items, i);
        assert it in items;
        var h := hashes[it.chunk.id];
        if it.chunk.id in before && before[it.chunk.id].hash == h {
        } else if it.vector.None? {
          skipped := skipped + 1;
        } else {
          rows := rows[it.chunk.id := Row(it.chunk.text, h, it.vector)];
          written := written + 1;
        }
      }
    }

    /** upsert_chunks: all of it is published, or nothing. */
    method UpsertChunks(p: Profile, chunks: seq<Chunk>, embeddings: seq<Option<Vector>>) returns (out: Outcome)
      modifies this
      ensures |chunks| != |embeddings| ==> out == Refused(LengthMismatch)
      ensures |chunks| == |embeddings| ==> out == Upsert(old(Snapshot()), p, Zip(chunks, embeddings))
      ensures Snapshot() == if out.Committed? then out.index else old(Snapshot())
    {
      if |chunks| != |embeddings| {
        return Refused(LengthMismatch);
      }
      var items := Zip(chunks, embeddings);
      var hashes := Hashes(p, items);
      if metadata.NoTable? {
        return Refused(MetadataUnreadable);
      }
      var saved := rows;
      var switching := Switching(Snapshot(), p);
      if switching && Uncovered(Snapshot(), Uids(items)) != {} {
        return Refused(PartialCorpus);
      }
      var written, skipped := WriteChunks(items, hashes);
      if switching && skipped > 0 {
        rows := saved;
        return Refused(FailedReplacement);
      }
      var orphans := DeleteOrphanChunks(Uids(items), Ids(items));
      metadata := Recorded(p);
      out := Committed(Snapshot(), written, skipped, orphans);
    }

    /** One turn of the window loop: embed what changed, then upsert the whole window. */
    method IngestWindow(p: Profile, window: seq<Chunk>, same: set<ChunkId>, batchSize: int,
                        provider: (nat, nat) -> Reply, sofar: Progress)
      returns (embedded: nat, vectors: map<ChunkId, Vector>, next: Option<Progress>)
      requires DistinctChunkIds(window) && sofar.index == Snapshot()
      modifies this
      ensures next == if EmbeddingFails(ChangedOnly(window, same), batchSize, provider) then None
                      else Advance(sofar, p, ItemsOf(window, vectors))
      ensures Snapshot() == if next.Some? then next.value.index else old(Snapshot())
      ensures WindowEmbedded(window, same, batchSize, provider, embedded, vectors) && VectorsAreOwn(p, window, vectors)
    {
      var ok;
      ok, embedded, vectors := EmbedChanged(p, window, same, batchSize, provider);
      if !ok {
        return 0, map[], None;
      }
      var embeddings := seq(|window|, i requires 0 <= i < |window| => VectorOf(vectors, window[i].id));
      assert Zip(window, embeddings) == ItemsOf(window, vectors);
      var out := UpsertChunks(p, window, embeddings);
      next := if out.Refused? then None
              else Some(Progress(out.index, sofar.written + out.written, sofar.orphans + out.orphans));
    }

    /** run_ingest_additive's loop: the windows are planned once, then embedded and
        committed one by one. A finished run leaves the table and the totals of one
        upsert on all chunks with the same vectors, over the same table recorded
        under the runtime profile; without a fatal reply only a profile switch ends
        it early, and then before anything is committed. */
    method IngestAdditive(p: Profile, chunks: seq<Chunk>, size: int, batchSize: int, provider: nat -> ((nat,
                          nat) -> Reply))
      returns (out: IngestOutcome)
      requires DistinctChunkIds(chunks)
      modifies this
      ensures out.Done? ==> FinishedWith(old(Snapshot()), p, chunks, out, Snapshot())
      ensures out.Aborted? ==> CommittedSoFar(old(Snapshot()), p, chunks, out, Snapshot())
      ensures batchSize > 0 && (forall w :: NeverFatal(provider(w))) && out.Aborted? ==>
        out.committed == [] && (Switching(old(Snapshot()), p) || old(metadata).NoTable?)
      ensures batchSize > 0 && (forall w :: AlwaysEncodes(provider(w))) && out.Done? ==>
        EachKnown(old(rows), p, chunks, out.vectors)
    {
      ghost var ix := Snapshot();
      var same := UnchangedChunkIds(p, chunks);
      var windows := PlanWindows(chunks, same, size);
      ReorderingKeepsDistinct(chunks, Concat(windows));
      var embedded, sofar := 0, Progress(Snapshot(), 0, 0);
      var vectors: map<ChunkId, Vector> := map[];
      for j := 0 to |windows|
        invariant RunWindows(ix, p, WindowItems(windows[..j], vectors)) == Some(sofar)
        invariant sofar.index == Snapshot() && embedded >= 0
        invariant VectorsAreOwn(p, Concat(windows[..j]), vectors)
        invariant batchSize > 0 && (forall w :: AlwaysEncodes(provider(w))) ==> Covers(vectors, Concat(windows[..j]), same)
      {
        DistinctInWindow(windows, j);
        var n, found, next := IngestWindow(p, windows[j], same, batchSize, provider(j), sofar);
        if next.None? {
          NeverFatalNeverFails(ChangedOnly(windows[j], same), batchSize, provider(j));
          RunAborts(ix, p, chunks, windows, j, vectors, sofar, ItemsOf(windows[j], found));
          return Aborted(Concat(windows[..j]), sofar.written, sofar.orphans, vectors);
        }
        EveryBatchCovers(windows[j], same, batchSize, provider(j), n, found);
        RunAdvances(ix, p, windows, j, vectors, sofar, found, same);
        embedded, vectors, sofar := embedded + n, vectors + found, next.value;
      }
      assert windows[..|windows|] == windows;
      out := Done(embedded, sofar.written, sofar.orphans, vectors);
      RunFinishes(ix, p, chunks, windows, sofar, out);
    }
  }

  /** One more window on top of a run. */
  lemma RunAdvances(ix: Index, p: Profile, windows: seq<seq<Chunk>>, j: nat, vectors: map<ChunkId, Vector>,
                    sofar: Progress, found: map<ChunkId, Vector>, same: set<ChunkId>)
    requires j < |windows|
    requires forall a, b :: 0 <= a < b < |windows| ==> UidsOf(windows[a]) !! UidsOf(windows[b])
    requires RunWindows(ix, p, WindowItems(windows[..j], vectors)) == Some(sofar)
    requires VectorsAreOwn(p, Concat(windows[..j]), vectors) && VectorsAreOwn(p, windows[j], found)
    ensures RunWindows(ix, p, WindowItems(windows[..j + 1], vectors + found)) == Advance(sofar, p, ItemsOf(windows[j], found))
    ensures VectorsAreOwn(p, Concat(windows[..j + 1]), vectors + found)
    ensures Covers(vectors, Concat(windows[..j]), same) && Covers(found, windows[j], same) ==>
      Covers(vectors + found, Concat(windows[..j + 1]), same)
  {
    NextWindow(p, windows, j, vectors, found);
    VectorsJoin(p, windows, j, vectors, found, same);
    RunOneMore(ix, p, WindowItems(windows[..j], vectors), ItemsOf(windows[j], found));
  }

  /** A run that stops before its j-th window; where it was refused, that is the first. */
  lemma RunAborts(ix: Index, p: Profile, chunks: seq<Chunk>, windows: seq<seq<Chunk>>, j: nat,
                  vectors: map<ChunkId, Vector>, sofar: Progress, next: seq<Item>)
    requires DistinctChunkIds(chunks) && multiset(Concat(windows)) == multiset(chunks) && j <= |windows|
    requires forall a, b :: 0 <= a < b < |windows| ==> UidsOf(windows[a]) !! UidsOf(windows[b])
    requires forall a :: 0 <= a < |windows| ==> windows[a] != []
    requires RunWindows(ix, p, WindowItems(windows[..j], vectors)) == Some(sofar)
    requires VectorsAreOwn(p, Concat(windows[..j]), vectors)
    ensures CommittedSoFar(ix, p, chunks, Aborted(Concat(windows[..j]), sofar.written, sofar.orphans, vectors), sofar.index)
    ensures Advance(sofar, p, next).None? ==> Concat(windows[..j]) == [] && (Switching(ix, p) || ix.metadata.NoTable?)
  {
    WindowsCommitted(ix, p, chunks, windows, j, vectors, sofar);
    RefusedIsFirst(ix, p, windows, j, vectors, sofar, next);
  }

  lemma {:induction false} DistinctInWindow(windows: seq<seq<Chunk>>, j: nat)
    requires DistinctChunkIds(Concat(windows)) && j < |windows|
    ensures DistinctChunkIds(windows[j])
  {
    var all := Concat(windows);
    var rest := Concat(windows[1..]);
    assert all == windows[0] + rest;
    if j == 0 {
      assert forall i :: 0 <= i < |windows[0]| ==> all[i] == windows[0][i];
    } else {
      assert forall i :: 0 <= i < |rest| ==> all[|windows[0]| + i] == rest[i];
      DistinctInWindow(windows[1..], j - 1);
    }
  }

  /** A refused window is the first. */
  lemma RefusedIsFirst(ix: Index, p: Profile, windows: seq<seq<Chunk>>, j: nat, vectors: map<ChunkId, Vector>,
                       sofar: Progress, next: seq<Item>)
    requires j <= |windows| && RunWindows(ix, p, WindowItems(windows[..j], vectors)) == Some(sofar)
    ensures Advance(sofar, p, next).None? ==> j == 0 && (Switching(ix, p) || ix.metadata.NoTable?)
  {
    if j > 0 {
      OnlyTheFirstCanBeRefused(ix, p, WindowItems(windows[..j], vectors));
      NeverRefused(sofar.index, p, next);
    } else if !Switching(ix, p) && !ix.metadata.NoTable? {
      NeverRefused(ix, p, next);
    }
  }

  /** What a finished run leaves: what one call on all the chunks would, and with
      every chunk's vector known, the input's postings rebuilt. */
  ghost predicate FinishedWith(ix: Index, p: Profile, chunks: seq<Chunk>, out: IngestOutcome, table: Index)
    requires out.Done?
  {
    var run := Progress(table, out.written, out.orphans);
    && Ingested(ix, p, chunks, out.vectors, run)
    && VectorsAreOwn(p, chunks, out.vectors)
    && EqualsOneShot(RecordedAs(ix, p), p, chunks, out.vectors, run)
    && (!Switching(ix, p) && !ix.metadata.NoTable? ==> EqualsOneShot(ix, p, chunks, out.vectors, run))
    && (Faithful(ix) && WellFormed(p, chunks) && EachKnown(ix.rows, p, chunks, out.vectors) ==>
          Rebuilt(p, chunks, ix.rows, table.rows))
  }

  lemma RunFinishes(ix: Index, p: Profile, chunks: seq<Chunk>, windows: seq<seq<Chunk>>, run: Progress,
                    out: IngestOutcome)
    requires DistinctChunkIds(chunks) && multiset(Concat(windows)) == multiset(chunks)
    requires forall i, j :: 0 <= i < j < |windows| ==> UidsOf(windows[i]) !! UidsOf(windows[j])
    requires out.Done? && run.written == out.written && run.orphans == out.orphans
    requires RunWindows(ix, p, WindowItems(windows, out.vectors)) == Some(run)
    requires VectorsAreOwn(p, Concat(windows), out.vectors)
    ensures FinishedWith(ix, p, chunks, out, run.index)
  {
    ReorderingKeepsDistinct(chunks, Concat(windows));
    assert VectorsAreOwn(p, chunks, out.vectors);
    PlannedWindowsEqualOneShot(ix, p, chunks, windows, out.vectors);
    FinishedRunEqualsOneShot(ix, p, chunks, windows, out.vectors);
    assert Ingested(ix, p, chunks, out.vectors, run);
    AdditiveIngestRebuilds(RecordedAs(ix, p), p, chunks, out.vectors, run);
  }

  /** What an aborted run leaves: whole postings of the input, committed window by
      window and nothing else, as one call on them would have left it. */
  ghost predicate CommittedSoFar(ix: Index, p: Profile, chunks: seq<Chunk>, out: IngestOutcome, table: Index)
    requires out.Aborted?
  {
    var run := Progress(table, out.written, out.orphans);
    && (forall c :: c in out.committed ==> c in chunks)
    && (forall c :: c in chunks && c.id.uid in UidsOf(out.committed) ==> c in out.committed)
    && DistinctChunkIds(out.committed)
    && VectorsAreOwn(p, out.committed, out.vectors)
    && Ingested(ix, p, out.committed, out.vectors, run)
    && EqualsOneShot(RecordedAs(ix, p), p, out.committed, out.vectors, run)
    && (if out.committed == [] then table == ix else table.metadata == Recorded(p))
    && (!Switching(ix, p) && !ix.metadata.NoTable? ==>
          EqualsOneShot(ix, p, out.committed, out.vectors, run) && !Switching(table, p) && !table.metadata.NoTable?)
  }

  lemma PrefixAndRest(windows: seq<seq<Chunk>>, j: nat)
    requires j <= |windows|
    ensures Concat(windows) == Concat(windows[..j]) + Concat(windows[j..])
  {
    ConcatAppend(windows[..j], windows[j..]);
    SplitAt(windows, j);
  }

  lemma DistinctFront(a: seq<Chunk>, b: seq<Chunk>)
    requires DistinctChunkIds(a + b)
    ensures DistinctChunkIds(a)
  {
    assert forall i :: 0 <= i < |a| ==> (a + b)[i] == a[i];
  }

  /** A posting with a chunk among the first windows has none in the rest. */
  lemma PrefixIsApart(windows: seq<seq<Chunk>>, j: nat, u: string)
    requires j <= |windows|
    requires forall a, b :: 0 <= a < b < |windows| ==> UidsOf(windows[a]) !! UidsOf(windows[b])
    requires u in UidsOf(Concat(windows[..j]))
    ensures u !in UidsOf(Concat(windows[j..]))
  {
    UidsInSomeWindow(windows[..j]);
    UidsInSomeWindow(windows[j..]);
    var a :| 0 <= a < j && u in UidsOf(windows[..j][a]);
    assert windows[..j][a] == windows[a];
    assert forall b :: 0 <= b < |windows| - j ==> windows[j..][b] == windows[j + b];
  }

  /** The first windows of a plan are whole postings. */
  lemma PrefixIsWhole(chunks: seq<Chunk>, windows: seq<seq<Chunk>>, j: nat)
    requires DistinctChunkIds(chunks) && multiset(Concat(windows)) == multiset(chunks) && j <= |windows|
    requires forall a, b :: 0 <= a < b < |windows| ==> UidsOf(windows[a]) !! UidsOf(windows[b])
    ensures var done := Concat(windows[..j]);
      && DistinctChunkIds(done)
      && (forall c :: c in done ==> c in chunks)
      && (forall c :: c in chunks && c.id.uid in UidsOf(done) ==> c in done)
  {
    var done, rest := Concat(windows[..j]), Concat(windows[j..]);
    ReorderingKeepsDistinct(chunks, Concat(windows));
    PrefixAndRest(windows, j);
    DistinctFront(done, rest);
    forall c | c in chunks && c.id.uid in UidsOf(done)
      ensures c in done
    {
      PrefixIsApart(windows, j, c.id.uid);
      assert c in done + rest;
    }
  }

  lemma WindowsCommitted(ix: Index, p: Profile, chunks: seq<Chunk>, windows: seq<seq<Chunk>>, j: nat,
                         vectors: map<ChunkId, Vector>, sofar: Progress)
    requires DistinctChunkIds(chunks) && multiset(Concat(windows)) == multiset(chunks) && j <= |windows|
    requires forall a, b :: 0 <= a < b < |windows| ==> UidsOf(windows[a]) !! UidsOf(windows[b])
    requires RunWindows(ix, p, WindowItems(windows[..j], vectors)) == Some(sofar)
    requires VectorsAreOwn(p, Concat(windows[..j]), vectors)
    requires forall a :: 0 <= a < |windows| ==> windows[a] != []
    ensures CommittedSoFar(ix, p, chunks, Aborted(Concat(windows[..j]), sofar.written, sofar.orphans, vectors), sofar.index)
  {
    PrefixIsWhole(chunks, windows, j);
    FinishedRunEqualsOneShot(ix, p, Concat(windows[..j]), windows[..j], vectors);
    assert Ingested(ix, p, Concat(windows[..j]), vectors, sofar);
    if j > 0 {
      assert windows[..j][0] == windows[0];
    }
    if !Switching(ix, p) && !ix.metadata.NoTable? {
      ReorderingKeepsDistinct(chunks, Concat(windows));
      PlannedWindowsEqualOneShot(ix, p, Concat(windows[..j]), windows[..j], vectors);
    }
  }

  /** A posting set rebuilt over two tables that agree elsewhere is the same table. */
  lemma RebuiltIsUnique(p: Profile, chunks: seq<Chunk>, before: map<ChunkId, Row>, mid: map<ChunkId, Row>,
                        a: map<ChunkId, Row>, b: map<ChunkId, Row>)
    requires forall k: ChunkId :: k.uid !in UidsOf(chunks) ==> Find(before, k) == Find(mid, k)
    requires Rebuilt(p, chunks, before, a) && Rebuilt(p, chunks, mid, b)
    ensures a == b
  {
    forall k: ChunkId
      ensures Find(a, k) == Find(b, k)
    {
      if k.uid in UidsOf(chunks) {
        if k in a {
          var c :| c in chunks && c.id == k;
        }
        if k in b {
          var c :| c in chunks && c.id == k;
        }
      }
    }
    SameLookups(a, b);
  }

  /** What an aborted run wrote is whole, faithful, and inside the input. */
  lemma CommittedIsFaithful(ix: Index, p: Profile, chunks: seq<Chunk>, out: IngestOutcome, mid: Index)
    requires WellFormed(p, chunks) && Faithful(ix)
    requires out.Aborted? && CommittedSoFar(ix, p, chunks, out, mid)
    ensures Faithful(mid)
    ensures forall k: ChunkId :: k.uid !in UidsOf(chunks) ==> Find(mid.rows, k) == Find(ix.rows, k)
  {
    var items := ItemsOf(out.committed, out.vectors);
    ItemsKeepIds(out.committed, out.vectors);
    ItemsOwnVectors(p, out.committed, out.vectors);
    UpsertKeepsFaithful(RecordedAs(ix, p), p, items);
    forall k: ChunkId | k.uid !in UidsOf(chunks)
      ensures Find(mid.rows, k) == Find(ix.rows, k)
    {
      assert k.uid in UidsOf(out.committed) ==> k.uid in UidsOf(chunks);
      RowsOfOtherPostingsStay(RecordedAs(ix, p), p, items, k);
    }
  }

  /** Resuming after an abort ends where a run without the abort does: the table it
      finds is one the driver accepts, unchanged outside the input, and whatever
      rebuilds the input from there rebuilds it from the start. */
  lemma ResumeEndsTheSame(ix: Index, p: Profile, chunks: seq<Chunk>, out: IngestOutcome, mid: Index,
                          whole: map<ChunkId, Row>, resumed: map<ChunkId, Row>)
    requires WellFormed(p, chunks) && Faithful(ix)
    requires out.Aborted? && CommittedSoFar(ix, p, chunks, out, mid)
    ensures Faithful(mid)
    ensures out.committed != [] || (!Switching(ix, p) && !ix.metadata.NoTable?) ==>
      !Switching(mid, p) && !mid.metadata.NoTable?
    ensures forall k: ChunkId :: k.uid !in UidsOf(chunks) ==> Find(mid.rows, k) == Find(ix.rows, k)
    ensures Rebuilt(p, chunks, ix.rows, whole) && Rebuilt(p, chunks, mid.rows, resumed) ==> whole == resumed
  {
    CommittedIsFaithful(ix, p, chunks, out, mid);
    if Rebuilt(p, chunks, ix.rows, whole) && Rebuilt(p, chunks, mid.rows, resumed) {
      RebuiltIsUnique(p, chunks, ix.rows, mid.rows, whole, resumed);
    }
  }

  predicate WellFormed(p: Profile, chunks: seq<Chunk>) {
    ValidProfile(p) && forall c :: c in chunks ==> Prefixed(c.text)
  }

  /** No chunk was left without its vector: stored before, or obtained now. */
  predicate EachKnown(before: map<ChunkId, Row>, p: Profile, chunks: seq<Chunk>, vectors: map<ChunkId, Vector>) {
    forall c :: c in chunks ==> c.id in vectors || Unchanged(before, c.id, ContentHash(p, c.text))
  }

  /** The postings of the input hold exactly their chunks, each with the vector of
      its own text; all other postings are untouched. */
  ghost predicate Rebuilt(p: Profile, chunks: seq<Chunk>, before: map<ChunkId, Row>, after: map<ChunkId, Row>) {
    && (forall c :: c in chunks ==> Find(after, c.id) == Some(FreshRow(p, c)))
    && (forall k :: k in after && k.uid in UidsOf(chunks) ==> exists c :: c in chunks && c.id == k)
    && (forall k: ChunkId :: k.uid !in UidsOf(chunks) ==> Find(after, k) == Find(before, k))
  }

  /** The finished loop leaves what a rebuild of these postings would. */
  lemma AdditiveIngestRebuilds(ix: Index, p: Profile, chunks: seq<Chunk>, vectors: map<ChunkId, Vector>, run: Progress)
    requires DistinctChunkIds(chunks) && VectorsAreOwn(p, chunks, vectors)
    ensures var clean := Faithful(ix) && WellFormed(p, chunks) && EachKnown(ix.rows, p, chunks, vectors);
      clean && EqualsOneShot(ix, p, chunks, vectors, run) ==> Rebuilt(p, chunks, ix.rows, run.index.rows)
  {
    var clean := Faithful(ix) && WellFormed(p, chunks) && EachKnown(ix.rows, p, chunks, vectors);
    if !clean || !EqualsOneShot(ix, p, chunks, vectors, run) {
      return;
    }
    var items := ItemsOf(chunks, vectors);
    ItemsKeepIds(chunks, vectors);
    ItemsOwnVectors(p, chunks, vectors);
    UpsertCounts(ix, p, items);
    assert MissSet(ix.rows, p, items) == {};
    forall c | c in chunks
      ensures Find(run.index.rows, c.id) == Some(FreshRow(p, c))
    {
      BatchEndsFresh(ix, p, items, Item(c, VectorOf(vectors, c.id)));
    }
    forall k | k in run.index.rows && k.uid in UidsOf(chunks)
      ensures exists c :: c in chunks && c.id == k
    {
      UpsertAt(ix, p, items, k);
      assert Find(run.index.rows, k).Some?;
      var it :| it in items && it.chunk.id == k;
    }
    forall k: ChunkId | k.uid !in UidsOf(chunks)
      ensures Find(run.index.rows, k) == Find(ix.rows, k)
    {
      RowsOfOtherPostingsStay(ix, p, items, k);
    }
  }

  lemma ItemsOwnVectors(p: Profile, chunks: seq<Chunk>, vectors: map<ChunkId, Vector>)
    requires DistinctChunkIds(chunks) && VectorsAreOwn(p, chunks, vectors) && WellFormed(p, chunks)
    ensures OwnVectors(p, ItemsOf(chunks, vectors))
  {
    ItemsKeepIds(chunks, vectors);
    forall it | it in ItemsOf(chunks, vectors) && it.vector.Some?
      ensures it.vector.value == Embedding(p, it.chunk.text)
    {
      var c :| c in chunks && c.id == it.chunk.id && vectors[it.chunk.id] == Embedding(p, c.text);
      assert c == it.chunk;
    }
  }

  lemma RunOneMore(ix: Index, p: Profile, done: seq<seq<Item>>, next: seq<Item>)
    requires RunWindows(ix, p, done).Some?
    ensures RunWindows(ix, p, done + [next]) == Advance(RunWindows(ix, p, done).value, p, next)
  {
    assert (done + [next])[..|done + [next]| - 1] == done;
  }

  lemma {:induction false} UidsInSomeWindow(windows: seq<seq<Chunk>>)
    ensures forall u :: u in UidsOf(Concat(windows)) ==> exists a :: 0 <= a < |windows| && u in UidsOf(windows[a])
  {
    if windows == [] {
    } else {
      var rest := windows[1..];
      UidsInSomeWindow(rest);
      forall u | u in UidsOf(Concat(windows))
        ensures exists a :: 0 <= a < |windows| && u in UidsOf(windows[a])
      {
        if u !in UidsOf(windows[0]) {
          assert u in UidsOf(Concat(rest));
          var a :| 0 <= a < |rest| && u in UidsOf(rest[a]);
          assert windows[a + 1] == rest[a];
        }
      }
    }
  }

  lemma OwnersAreListed(p: Profile, chunks: seq<Chunk>, vectors: map<ChunkId, Vector>)
    requires VectorsAreOwn(p, chunks, vectors)
    ensures forall id :: id in vectors ==> id.uid in UidsOf(chunks)
  {
  }

  /** A window's vectors leave the items of the windows before it as they were. */
  lemma NextWindow(p: Profile, windows: seq<seq<Chunk>>, j: nat, vectors: map<ChunkId, Vector>, found: map<ChunkId,
                   Vector>)
    requires j < |windows|
    requires forall a, b :: 0 <= a < b < |windows| ==> UidsOf(windows[a]) !! UidsOf(windows[b])
    requires VectorsAreOwn(p, Concat(windows[..j]), vectors) && VectorsAreOwn(p, windows[j], found)
    ensures WindowItems(windows[..j + 1], vectors + found) == WindowItems(windows[..j], vectors) + [ItemsOf(windows[j], found)]
  {
    OwnersAreListed(p, Concat(windows[..j]), vectors);
    OwnersAreListed(p, windows[j], found);
    UidsInSomeWindow(windows[..j]);
    forall a, c | 0 <= a < j && c in windows[a]
      ensures VectorOf(vectors + found, c.id) == VectorOf(vectors, c.id)
    {
      assert c.id.uid in UidsOf(windows[a]);
      assert c.id.uid !in UidsOf(windows[j]);
    }
    forall c | c in windows[j]
      ensures VectorOf(vectors + found, c.id) == VectorOf(found, c.id)
    {
      assert c.id.uid in UidsOf(windows[j]);
      assert forall a :: 0 <= a < j ==> c.id.uid !in UidsOf(windows[..j][a]);
    }
    var x, y := WindowItems(windows[..j + 1], vectors + found), WindowItems(windows[..j], vectors) + [ItemsOf(windows[j], found)];
    forall a | 0 <= a < |x|
      ensures x[a] == y[a]
    {
      assert x[a] == ItemsOf(windows[a], vectors + found);
    }
    assert x == y;
  }

  /** Every chunk that changed has a vector. */
  predicate Covers(vectors: map<ChunkId, Vector>, chunks: seq<Chunk>, same: set<ChunkId>) {
    forall c :: c in chunks && c.id !in same ==> c.id in vectors
  }

  lemma VectorsJoin(p: Profile, windows: seq<seq<Chunk>>, j: nat, vectors: map<ChunkId, Vector>,
                    found: map<ChunkId, Vector>, same: set<ChunkId>)
    requires j < |windows|
    requires VectorsAreOwn(p, Concat(windows[..j]), vectors) && VectorsAreOwn(p, windows[j], found)
    ensures VectorsAreOwn(p, Concat(windows[..j + 1]), vectors + found)
    ensures Covers(vectors, Concat(windows[..j]), same) && Covers(found, windows[j], same) ==>
      Covers(vectors + found, Concat(windows[..j + 1]), same)
  {
    assert windows[..j + 1] == windows[..j] + [windows[j]];
    ConcatSnoc(windows[..j], windows[j]);
    var all := Concat(windows[..j + 1]);
    forall id | id in vectors + found
      ensures exists c :: c in all && c.id == id && (vectors + found)[id] == Embedding(p, c.text)
    {
      if id in found {
        var c :| c in windows[j] && c.id == id && found[id] == Embedding(p, c.text);
        assert c in all;
      } else {
        var c :| c in Concat(windows[..j]) && c.id == id && vectors[id] == Embedding(p, c.text);
        assert c in all;
      }
    }
  }

  ghost predicate NeverFatal(provider: (nat, nat) -> Reply) {
    forall b :: !BatchFate(provider, b).Fatal?
  }

  ghost predicate AlwaysEncodes(provider: (nat, nat) -> Reply) {
    forall b :: BatchFate(provider, b).Encoded?
  }

  /** by_id maps a chunk to the embedding of its own text, or not at all. */
  predicate VectorsAreOwn(p: Profile, chunks: seq<Chunk>, vectors: map<ChunkId, Vector>) {
    forall id :: id in vectors ==> exists c :: c in chunks && c.id == id && vectors[id] == Embedding(p, c.text)
  }

  /** Exactly the chunks whose batch was encoded have a vector; nothing else has. */
  ghost predicate ByBatch(vectors: map<ChunkId, Vector>, todo: seq<Chunk>, size: int, provider: (nat, nat) -> Reply) {
    && (forall id :: id in vectors ==> exists c :: c in todo && c.id == id)
    && (todo != [] ==> size > 0)
    && (size > 0 ==> forall i: nat :: i < |todo| ==>
          (todo[i].id in vectors <==> BatchFate(provider, BatchOf(i, size)).Encoded?))
  }

  /** A batch of the changed chunks gets a fatal reply, or there can be no batches. */
  ghost predicate EmbeddingFails(todo: seq<Chunk>, size: int, provider: (nat, nat) -> Reply) {
    todo != [] && (size > 0 ==> MeetsFatal(|todo|, size, provider))
  }

  lemma NeverFatalNeverFails(todo: seq<Chunk>, size: int, provider: (nat, nat) -> Reply)
    ensures size > 0 && NeverFatal(provider) ==> !EmbeddingFails(todo, size, provider)
  {
  }

  method EmbedChanged(p: Profile, window: seq<Chunk>, same: set<ChunkId>, batchSize: int, provider: (nat, nat) -> Reply)
    returns (ok: bool, embedded: nat, vectors: map<ChunkId, Vector>)
    requires DistinctChunkIds(window)
    ensures VectorsAreOwn(p, window, vectors)
    ensures !ok <==> EmbeddingFails(ChangedOnly(window, same), batchSize, provider)
    ensures ok ==> ByBatch(vectors, ChangedOnly(window, same), batchSize, provider) && embedded == |ChangedOnly(window, same)|
  {
    var todo := ChangedOnly(window, same);
    ChangedOnlyFacts(window, same);
    ChangedOnlyDistinct(window, same);
    var texts := seq(|todo|, i requires 0 <= i < |todo| => todo[i].text);
    var r := EmbedTexts(p, texts, batchSize, provider);
    if !r.Embedded? {
      return false, 0, map[];
    }
    vectors := DictOf(todo, r.vectors);
    DictIsOwn(p, todo, r.vectors);
    forall i: nat | i < |todo|
      ensures todo[i].id in vectors <==> r.vectors[i].Some?
    {
      DictHolds(todo, r.vectors, i);
    }
    return true, |todo|, vectors;
  }

  /** Unless embedding fails as a whole, each changed chunk of a window has its
      vector exactly if its batch was encoded, and no other chunk has one. */
  ghost predicate WindowEmbedded(window: seq<Chunk>, same: set<ChunkId>, size: int, provider: (nat, nat) -> Reply,
                                 embedded: nat, vectors: map<ChunkId, Vector>) {
    var todo := ChangedOnly(window, same);
    if EmbeddingFails(todo, size, provider) then embedded == 0 && vectors == map[]
    else embedded == |todo| && ByBatch(vectors, todo, size, provider)
  }

  lemma EveryBatchCovers(window: seq<Chunk>, same: set<ChunkId>, size: int, provider: (nat, nat) -> Reply,
                         embedded: nat,
                         vectors: map<ChunkId, Vector>)
    requires WindowEmbedded(window, same, size, provider, embedded, vectors)
    ensures size > 0 && AlwaysEncodes(provider) ==> Covers(vectors, window, same)
  {
    if size > 0 && AlwaysEncodes(provider) {
      var todo := ChangedOnly(window, same);
      ChangedOnlyFacts(window, same);
      NeverFatalNeverFails(todo, size, provider);
      forall c | c in todo
        ensures c.id in vectors
      {
        var i: nat :| i < |todo| && todo[i] == c;
      }
    }
  }

  /** Each chunk's vector under its id, where there is one. */
  function DictOf(chunks: seq<Chunk>, vecs: seq<Option<Vector>>): map<ChunkId, Vector>
    requires |vecs| == |chunks|
  {
    if chunks == [] then map[]
    else
      var n := |chunks| - 1;
      var front := DictOf(chunks[..n], vecs[..n]);
      if vecs[n].Some? then front[chunks[n].id := vecs[n].value] else front
  }

  lemma {:induction false} DictIsOwn(p: Profile, chunks: seq<Chunk>, vecs: seq<Option<Vector>>)
    requires |vecs| == |chunks|
    requires forall i :: 0 <= i < |vecs| && vecs[i].Some? ==> vecs[i].value == Embedding(p, chunks[i].text)
    ensures VectorsAreOwn(p, chunks, DictOf(chunks, vecs))
  {
    if chunks == [] {
    } else {
      var n := |chunks| - 1;
      DictIsOwn(p, chunks[..n], vecs[..n]);
      var front := DictOf(chunks[..n], vecs[..n]);
      forall id | id in DictOf(chunks, vecs)
        ensures exists c :: c in chunks && c.id == id && DictOf(chunks, vecs)[id] == Embedding(p, c.text)
      {
        if vecs[n].Some? && id == chunks[n].id {
          assert chunks[n] in chunks;
        } else {
          var c :| c in chunks[..n] && c.id == id && front[id] == Embedding(p, c.text);
          assert c in chunks;
        }
      }
    }
  }

  lemma {:induction false} DictHolds(chunks: seq<Chunk>, vecs: seq<Option<Vector>>, i: nat)
    requires |vecs| == |chunks| && i < |chunks| && DistinctChunkIds(chunks)
    ensures chunks[i].id in DictOf(chunks, vecs) <==> vecs[i].Some?
  {
    var n := |chunks| - 1;
    if i == n {
      DictNamesChunks(chunks[..n], vecs[..n]);
    } else {
      DictHolds(chunks[..n], vecs[..n], i);
    }
  }

  lemma {:induction false} DictNamesChunks(chunks: seq<Chunk>, vecs: seq<Option<Vector>>)
    requires |vecs| == |chunks|
    ensures forall id :: id in DictOf(chunks, vecs) ==> exists j :: 0 <= j < |chunks| && chunks[j].id == id
  {
    if chunks == [] {
    } else {
      var n := |chunks| - 1;
      DictNamesChunks(chunks[..n], vecs[..n]);
      forall id | id in DictOf(chunks[..n], vecs[..n])
        ensures exists j :: 0 <= j < |chunks| && chunks[j].id == id
      {
        var j :| 0 <= j < n && chunks[..n][j].id == id;
        assert chunks[j].id == id;
      }
    }
  }

  function ChangedOnly(chunks: seq<Chunk>, same: set<ChunkId>): seq<Chunk> {
    if chunks == [] then []
    else
      var front := ChangedOnly(chunks[..|chunks| - 1], same);
      if chunks[|chunks| - 1].id in same then front else front + [chunks[|chunks| - 1]]
  }

  lemma {:induction false} ChangedOnlyFacts(chunks: seq<Chunk>, same: set<ChunkId>)
    ensures forall c :: c in ChangedOnly(chunks, same) <==> c in chunks && c.id !in same
  {
    if chunks == [] {
    } else {
      var n := |chunks| - 1;
      assert chunks == chunks[..n] + [chunks[n]];
      ChangedOnlyFacts(chunks[..n], same);
    }
  }

  /** The chosen chunks are those at these places, in order, and no others are left. */
  ghost predicate ChosenAt(chunks: seq<Chunk>, same: set<ChunkId>, chosen: seq<Chunk>, at: seq<nat>) {
    && |at| == |chosen|
    && (forall k :: 0 <= k < |at| ==> at[k] < |chunks| && chosen[k] == chunks[at[k]] && chosen[k].id !in same)
    && (forall j, k :: 0 <= j < k < |at| ==> at[j] < at[k])
    && (forall i: nat :: i < |chunks| && i !in at ==> chunks[i].id in same)
  }

  lemma ChosenOneMore(chunks: seq<Chunk>, same: set<ChunkId>, chosen: seq<Chunk>, at: seq<nat>)
    requires chunks != [] && ChosenAt(chunks[..|chunks| - 1], same, chosen, at)
    ensures var n := |chunks| - 1;
      if chunks[n].id in same then ChosenAt(chunks, same, chosen, at)
      else ChosenAt(chunks, same, chosen + [chunks[n]], at + [n])
  {
    var n := |chunks| - 1;
    assert forall i: nat :: i < n ==> chunks[..n][i] == chunks[i];
    assert forall i: nat :: i in at + [n] <==> i in at || i == n;
  }

  /** The changed chunks keep their order; `at` says which they are. */
  lemma {:induction false} ChangedOnlyInOrder(chunks: seq<Chunk>, same: set<ChunkId>) returns (at: seq<nat>)
    ensures ChosenAt(chunks, same, ChangedOnly(chunks, same), at)
  {
    if chunks == [] {
      at := [];
    } else {
      var n := |chunks| - 1;
      var front := ChangedOnlyInOrder(chunks[..n], same);
      ChosenOneMore(chunks, same, ChangedOnly(chunks[..n], same), front);
      at := if chunks[n].id in same then front else front + [n];
    }
  }

  lemma {:induction false} ChangedOnlyDistinct(chunks: seq<Chunk>, same: set<ChunkId>)
    requires DistinctChunkIds(chunks)
    ensures DistinctChunkIds(ChangedOnly(chunks, same))
  {
    if chunks == [] {
    } else {
      var n := |chunks| - 1;
      ChangedOnlyDistinct(chunks[..n], same);
      ChangedOnlyFacts(chunks[..n], same);
      forall c | c in ChangedOnly(chunks[..n], same)
        ensures c.id != chunks[n].id
      {
        var i :| 0 <= i < n && chunks[..n][i] == c;
        assert chunks[i] == c;
      }
    }
  }
}
