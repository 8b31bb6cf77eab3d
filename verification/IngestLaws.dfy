/** What an ingest amounts to: an incremental call equals a rebuild, and windows
    ingested one by one equal one call on everything. */
module IngestLaws {
  import opened Common
  import opened IndexHash
  import opened VectorIndex

  // ------------------------------------------------ incremental equals rebuild

  /** Every row holds the vector of its own text, under a hash taken for that vector. */
  predicate FaithfulRow(r: Row) {
    && r.vector.Some?
    && ValidProfile(r.vector.value.profile)
    && Prefixed(r.text)
    && r.vector.value.text == r.text
    && r.hash == ContentHash(r.vector.value.profile, r.text)
  }

  predicate Faithful(ix: Index) {
    forall k :: k in ix.rows ==> FaithfulRow(ix.rows[k])
  }

  /** Each vector offered is the embedding of the chunk it stands beside. */
  predicate OwnVectors(p: Profile, items: seq<Item>) {
    && WellMade(p, items)
    && forall it :: it in items && it.vector.Some? ==> it.vector.value == Embedding(p, it.chunk.text)
  }

  function FreshRow(p: Profile, c: Chunk): Row {
    Row(c.text, ContentHash(p, c.text), Some(Embedding(p, c.text)))
  }

  /** The same chunks, all embedded again. */
  function Fresh(p: Profile, items: seq<Item>): seq<Item> {
    seq(|items|, i requires 0 <= i < |items| => Item(items[i].chunk, Some(Embedding(p, items[i].chunk.text))))
  }

  function Nothing(ix: Index): Index {
    Index(map[], NoRow, ix.active)
  }

  lemma RowAfterIsFresh(before: map<ChunkId, Row>, p: Profile, it: Item)
    requires ValidProfile(p) && Prefixed(it.chunk.text)
    requires it.chunk.id in before ==> FaithfulRow(before[it.chunk.id])
    requires it.vector.Some? ==> it.vector.value == Embedding(p, it.chunk.text)
    requires !Misses(before, p, it)
    ensures RowAfter(before, p, it) == Some(FreshRow(p, it.chunk))
  {
    if Unchanged(before, it.chunk.id, ContentHash(p, it.chunk.text)) {
      var r := before[it.chunk.id];
      HashSeparates(r.vector.value.profile, r.text, p, it.chunk.text);
    }
  }

  lemma FreshFacts(p: Profile, items: seq<Item>)
    ensures Ids(Fresh(p, items)) == Ids(items) && Uids(Fresh(p, items)) == Uids(items)
    ensures DistinctIds(items) ==> DistinctIds(Fresh(p, items))
    ensures forall it :: it in items ==> Item(it.chunk, Some(Embedding(p, it.chunk.text))) in Fresh(p, items)
  {
    var f := Fresh(p, items);
    forall it | it in items
      ensures Item(it.chunk, Some(Embedding(p, it.chunk.text))) in f
    {
      var i :| 0 <= i < |items| && items[i] == it;
      assert f[i] == Item(it.chunk, Some(Embedding(p, it.chunk.text)));
    }
    forall g | g in f
      ensures g.chunk.id in Ids(items) && g.chunk.id.uid in Uids(items)
    {
      var i :| 0 <= i < |f| && f[i] == g;
      assert items[i] in items;
    }
  }

  /** Every chunk of a call that missed no embedding ends with the vector of its own text. */
  lemma BatchEndsFresh(ix: Index, p: Profile, items: seq<Item>, it: Item)
    requires Faithful(ix) && DistinctIds(items) && OwnVectors(p, items) && it in items
    requires Upsert(ix, p, items).Committed? && Upsert(ix, p, items).skippedNoEmbedding == 0
    ensures Find(Upsert(ix, p, items).index.rows, it.chunk.id) == Some(FreshRow(p, it.chunk))
  {
    UpsertAt(ix, p, items, it.chunk.id);
    UpsertCounts(ix, p, items);
    assert it !in MissSet(ix.rows, p, items);
    RowAfterIsFresh(ix.rows, p, it);
  }

  lemma FreshIsOwn(p: Profile, items: seq<Item>)
    requires OwnVectors(p, items)
    ensures OwnVectors(p, Fresh(p, items))
    ensures forall g :: g in Fresh(p, items) ==> g.vector.Some?
  {
    var f := Fresh(p, items);
    forall g | g in f
      ensures Prefixed(g.chunk.text) && g.vector == Some(Embedding(p, g.chunk.text))
    {
      var i :| 0 <= i < |f| && f[i] == g;
      assert items[i] in items;
    }
  }

  lemma RebuildCommits(ix: Index, p: Profile, items: seq<Item>)
    requires DistinctIds(items) && OwnVectors(p, items)
    ensures OwnVectors(p, Fresh(p, items)) && DistinctIds(Fresh(p, items)) && Faithful(Nothing(ix))
    ensures Upsert(Nothing(ix), p, Fresh(p, items)).Committed?
    ensures Upsert(Nothing(ix), p, Fresh(p, items)).skippedNoEmbedding == 0
  {
    var f := Fresh(p, items);
    FreshFacts(p, items);
    FreshIsOwn(p, items);
    NeverRefused(Nothing(ix), p, f);
    UpsertCounts(Nothing(ix), p, f);
    assert MissSet(map[], p, f) == {};
  }

  /** After a committed call that missed no embedding, the batch's postings hold
      exactly what a rebuild from nothing would store, each chunk with the vector
      of its own text; every other posting is as it was. */
  lemma IncrementalEqualsRebuild(ix: Index, p: Profile, items: seq<Item>, k: ChunkId)
    requires Faithful(ix) && DistinctIds(items) && OwnVectors(p, items)
    requires Upsert(ix, p, items).Committed? && Upsert(ix, p, items).skippedNoEmbedding == 0
    ensures Upsert(Nothing(ix), p, Fresh(p, items)).Committed?
    ensures var out := Upsert(ix, p, items).index.rows;
      Find(out, k) ==
        if k.uid in Uids(items) then Find(Upsert(Nothing(ix), p, Fresh(p, items)).index.rows, k)
        else Find(ix.rows, k)
  {
    RebuildCommits(ix, p, items);
    FreshFacts(p, items);
    if k in Ids(items) {
      var it :| it in items && it.chunk.id == k;
      BatchEndsFresh(ix, p, items, it);
      BatchEndsFresh(Nothing(ix), p, Fresh(p, items), Item(it.chunk, Some(Embedding(p, it.chunk.text))));
      assert k.uid in Uids(items);
    } else {
      UpsertAt(ix, p, items, k);
      UpsertAt(Nothing(ix), p, Fresh(p, items), k);
    }
  }

  /** The last item under an id, and the last one that has a vector. */
  function LastOf(items: seq<Item>, k: ChunkId): Option<Item> {
    if items == [] then None
    else if items[|items| - 1].chunk.id == k then Some(items[|items| - 1])
    else LastOf(items[..|items| - 1], k)
  }

  function LastEmbedded(items: seq<Item>, k: ChunkId): Option<Item> {
    if items == [] then None
    else if items[|items| - 1].chunk.id == k && items[|items| - 1].vector.Some? then Some(items[|items| - 1])
    else LastEmbedded(items[..|items| - 1], k)
  }

  lemma {:induction false} LastFacts(p: Profile, items: seq<Item>, k: ChunkId)
    ensures LastOf(items, k).Some? <==> k in Ids(items)
    ensures LastOf(items, k).Some? ==> LastOf(items, k).value in items && LastOf(items, k).value.chunk.id == k
    ensures LastEmbedded(items, k).Some? ==>
      && LastEmbedded(items, k).value in items
      && LastEmbedded(items, k).value.chunk.id == k
      && LastEmbedded(items, k).value.vector.Some?
    ensures k in Ids(items) ==> Hashes(p, items)[k] == ContentHash(p, LastOf(items, k).value.chunk.text)
  {
    if items == [] {
    } else {
      var front, last := items[..|items| - 1], items[|items| - 1];
      assert items == front + [last] && last in items;
      assert Ids(items) == Ids(front) + {last.chunk.id};
      LastFacts(p, front, k);
    }
  }

  /** A call writes an id's last embedded text, under the hash of its last text. */
  lemma {:induction false} WriteRowsLast(before: map<ChunkId, Row>, hashes: map<ChunkId, Digest>, items: seq<Item>,
                                         k: ChunkId)
    requires Ids(items) <= hashes.Keys && k in hashes
    ensures var last := LastEmbedded(items, k);
      Find(WriteRows(before, hashes, items), k) ==
        if Unchanged(before, k, hashes[k]) || last.None? then Find(before, k)
        else Some(Row(last.value.chunk.text, hashes[k], last.value.vector))
  {
    if items == [] {
    } else {
      var front, last := items[..|items| - 1], items[|items| - 1];
      assert items == front + [last] && last in items;
      assert Ids(items) == Ids(front) + {last.chunk.id};
      WriteRowsLast(before, hashes, front, k);
    }
  }

  /** An id that repeats is written with one text under the hash of another: its
      last text is not its last embedded one, and is not the stored one. */
  predicate Shadowed(before: map<ChunkId, Row>, p: Profile, items: seq<Item>, k: ChunkId) {
    && LastOf(items, k).Some?
    && !Unchanged(before, k, ContentHash(p, LastOf(items, k).value.chunk.text))
    && LastEmbedded(items, k).Some?
    && LastEmbedded(items, k).value.chunk.text != LastOf(items, k).value.chunk.text
  }

  predicate NothingShadowed(before: map<ChunkId, Row>, p: Profile, items: seq<Item>) {
    forall k :: k in Ids(items) ==> !Shadowed(before, p, items, k)
  }

  /** Ids that do not repeat shadow nothing. */
  lemma DistinctShadowNothing(before: map<ChunkId, Row>, p: Profile, items: seq<Item>)
    requires DistinctIds(items)
    ensures NothingShadowed(before, p, items)
  {
    forall k | k in Ids(items) && LastEmbedded(items, k).Some?
      ensures LastEmbedded(items, k) == LastOf(items, k)
    {
      LastFacts(p, items, k);
      var a, b := LastEmbedded(items, k).value, LastOf(items, k).value;
      var i :| 0 <= i < |items| && items[i] == a;
      var j :| 0 <= j < |items| && items[j] == b;
      assert items[i].chunk.id == items[j].chunk.id;
    }
  }

  /** Where a committed call leaves an id of the batch, repeated or not. */
  lemma UpsertLeaves(ix: Index, p: Profile, items: seq<Item>, k: ChunkId)
    requires Upsert(ix, p, items).Committed? && k in Ids(items)
    ensures var last := LastEmbedded(items, k);
      Find(Upsert(ix, p, items).index.rows, k) ==
        if Unchanged(ix.rows, k, Hashes(p, items)[k]) || last.None? then Find(ix.rows, k)
        else Some(Row(last.value.chunk.text, Hashes(p, items)[k], last.value.vector))
  {
    var hashes := Hashes(p, items);
    WriteRowsLast(ix.rows, hashes, items, k);
    assert Find(Upsert(ix, p, items).index.rows, k) == Find(WriteRows(ix.rows, hashes, items), k);
  }

  lemma OthersLeft(ix: Index, p: Profile, items: seq<Item>, k: ChunkId)
    requires Upsert(ix, p, items).Committed? && k !in Ids(items) && k in Upsert(ix, p, items).index.rows
    ensures k in ix.rows && Upsert(ix, p, items).index.rows[k] == ix.rows[k]
  {
    WriteRowsElsewhere(ix.rows, Hashes(p, items), items, k);
    assert Find(WriteRows(ix.rows, Hashes(p, items), items), k) == Find(ix.rows, k);
  }

  lemma FaithfulAt(ix: Index, p: Profile, items: seq<Item>, k: ChunkId)
    requires Faithful(ix) && OwnVectors(p, items)
    requires Upsert(ix, p, items).Committed? && k in Ids(items)
    ensures var out := Upsert(ix, p, items).index.rows;
      && (k in out ==> (FaithfulRow(out[k]) <==> !Shadowed(ix.rows, p, items, k)))
      && (Shadowed(ix.rows, p, items, k) ==> k in out)
  {
    LastFacts(p, items, k);
    UpsertLeaves(ix, p, items, k);
    var out, last, embedded := Upsert(ix, p, items).index.rows, LastOf(items, k).value, LastEmbedded(items, k);
    assert k in out <==> Find(out, k).Some?;
    if embedded.Some? && ContentHash(p, last.chunk.text) == ContentHash(p, embedded.value.chunk.text) {
      HashSeparates(p, last.chunk.text, p, embedded.value.chunk.text);
    }
  }

  /** A repeated id whose last text failed to embed: the first text is stored under
      the second's hash, and no later call embeds the second. */
  lemma RepeatedIdIsShadowed(p: Profile, k: ChunkId, one: string, two: string)
    requires ValidProfile(p) && Prefixed(one) && Prefixed(two) && one != two
    ensures var ix := Index(map[], NoRow, {});
      var batch := [Item(Chunk(k, one), Some(Embedding(p, one))), Item(Chunk(k, two), None)];
      var after := After(ix, Batch(p, batch));
      && Faithful(ix) && OwnVectors(p, batch) && !Faithful(after)
      && Find(after.rows, k) == Some(Row(one, ContentHash(p, two), Some(Embedding(p, one))))
      && Unchanged(after.rows, k, ContentHash(p, two))
  {
    var ix := Index(map[], NoRow, {});
    var a, b := Item(Chunk(k, one), Some(Embedding(p, one))), Item(Chunk(k, two), None);
    var batch := [a, b];
    assert batch[..1] == [a] && [a][..0] == [];
    assert a in batch && b in batch && Ids(batch) == {k};
    UpsertLeaves(ix, p, batch, k);
    UpsertKeepsFaithful(ix, p, batch);
    assert Hashes(p, batch)[k] == ContentHash(p, two);
    assert LastEmbedded(batch, k) == Some(a) && LastOf(batch, k) == Some(b);
    assert Shadowed(ix.rows, p, batch, k);
  }

  /** Faithfulness survives a call, whatever failed to embed, exactly when the call
      is refused or stores no text under another's hash. */
  lemma UpsertKeepsFaithful(ix: Index, p: Profile, items: seq<Item>)
    requires Faithful(ix) && OwnVectors(p, items)
    ensures Faithful(After(ix, Batch(p, items))) <==>
      (Upsert(ix, p, items).Refused? || NothingShadowed(ix.rows, p, items))
    ensures DistinctIds(items) ==> Faithful(After(ix, Batch(p, items)))
  {
    if Upsert(ix, p, items).Committed? {
      var out := Upsert(ix, p, items).index.rows;
      forall k | k in Ids(items)
        ensures k in out ==> (FaithfulRow(out[k]) <==> !Shadowed(ix.rows, p, items, k))
        ensures Shadowed(ix.rows, p, items, k) ==> k in out
      {
        FaithfulAt(ix, p, items, k);
      }
      forall k | k in out && k !in Ids(items)
        ensures FaithfulRow(out[k])
      {
        OthersLeft(ix, p, items, k);
      }
    }
    if DistinctIds(items) {
      DistinctShadowNothing(ix.rows, p, items);
    }
  }

  predicate SameChunks(a: seq<Item>, b: seq<Item>) {
    |a| == |b| && forall i :: 0 <= i < |a| ==> a[i].chunk == b[i].chunk
  }

  lemma SameChunksSameIds(items: seq<Item>, again: seq<Item>)
    requires SameChunks(items, again)
    ensures Ids(again) == Ids(items) && Uids(again) == Uids(items)
  {
    forall i | 0 <= i < |items|
      ensures items[i].chunk.id in Ids(again) && again[i].chunk.id in Ids(items)
      ensures items[i].chunk.id.uid in Uids(again) && again[i].chunk.id.uid in Uids(items)
    {
      assert items[i] in items && again[i] in again;
    }
  }

  lemma SameChunksDistinct(items: seq<Item>, again: seq<Item>)
    requires SameChunks(items, again) && DistinctIds(items)
    ensures DistinctIds(again)
  {
    forall i, j | 0 <= i < j < |again|
      ensures again[i].chunk.id != again[j].chunk.id
    {
      assert items[i].chunk.id != items[j].chunk.id;
    }
  }

  /** After a call that missed no embedding, every chunk's hash is the stored one. */
  lemma SecondTimeUnchanged(ix: Index, p: Profile, items: seq<Item>, again: seq<Item>, it: Item)
    requires Faithful(ix) && DistinctIds(items) && OwnVectors(p, items)
    requires Upsert(ix, p, items).Committed? && Upsert(ix, p, items).skippedNoEmbedding == 0
    requires SameChunks(items, again) && it in again
    ensures Unchanged(Upsert(ix, p, items).index.rows, it.chunk.id, ContentHash(p, it.chunk.text))
  {
    var i :| 0 <= i < |again| && again[i] == it;
    assert items[i] in items && items[i].chunk == it.chunk;
    BatchEndsFresh(ix, p, items, items[i]);
  }

  /** A call whose every hash is already stored, over a table without orphans. */
  lemma NothingChangesNothing(mid: Index, p: Profile, again: seq<Item>)
    requires mid.metadata == Recorded(p) && DistinctIds(again)
    requires forall it :: it in again ==> Unchanged(mid.rows, it.chunk.id, ContentHash(p, it.chunk.text))
    requires Orphans(mid.rows, Uids(again), Ids(again)) == {}
    ensures Upsert(mid, p, again) == Committed(mid, 0, 0, 0)
  {
    NeverRefused(mid, p, again);
    UpsertCounts(mid, p, again);
    assert RewriteSet(mid.rows, p, again) == {} && MissSet(mid.rows, p, again) == {};
    var out := Upsert(mid, p, again);
    forall k
      ensures Find(out.index.rows, k) == Find(mid.rows, k)
    {
      UpsertAt(mid, p, again, k);
      assert k !in Orphans(mid.rows, Uids(again), Ids(again));
      if k in Ids(again) {
        var it :| it in again && it.chunk.id == k;
        assert Find(out.index.rows, k) == RowAfter(mid.rows, p, it);
      }
    }
    SameLookups(out.index.rows, mid.rows);
  }

  lemma NoOrphansLeft(ix: Index, p: Profile, items: seq<Item>)
    requires DistinctIds(items) && Upsert(ix, p, items).Committed?
    ensures Orphans(Upsert(ix, p, items).index.rows, Uids(items), Ids(items)) == {}
  {
    var rows := Upsert(ix, p, items).index.rows;
    forall k
      ensures k !in Orphans(rows, Uids(items), Ids(items))
    {
      UpsertAt(ix, p, items, k);
      assert k in rows <==> Find(rows, k).Some?;
    }
  }

  /** Running the same chunks again writes nothing, deletes nothing and misses nothing. */
  lemma RerunDoesNothing(ix: Index, p: Profile, items: seq<Item>, again: seq<Item>)
    requires Faithful(ix) && DistinctIds(items) && OwnVectors(p, items)
    requires Upsert(ix, p, items).Committed? && Upsert(ix, p, items).skippedNoEmbedding == 0
    requires SameChunks(items, again)
    ensures Upsert(Upsert(ix, p, items).index, p, again) == Committed(Upsert(ix, p, items).index, 0, 0, 0)
  {
    SameChunksSameIds(items, again);
    SameChunksDistinct(items, again);
    NoOrphansLeft(ix, p, items);
    forall it | it in again
      ensures Unchanged(Upsert(ix, p, items).index.rows, it.chunk.id, ContentHash(p, it.chunk.text))
    {
      SecondTimeUnchanged(ix, p, items, again, it);
    }
    NothingChangesNothing(Upsert(ix, p, items).index, p, again);
  }

  // -------------------------------------------------- windows equal one call

  lemma NeverRefused(ix: Index, p: Profile, items: seq<Item>)
    requires !Switching(ix, p) && !ix.metadata.NoTable?
    ensures Upsert(ix, p, items).Committed?
    ensures !Switching(Upsert(ix, p, items).index, p) && Upsert(ix, p, items).index.metadata == Recorded(p)
  {
  }

  /** Two lists with the same items in any order have the same effect. */
  lemma OrderDoesNotMatter(ix: Index, p: Profile, a: seq<Item>, b: seq<Item>)
    requires !Switching(ix, p) && !ix.metadata.NoTable?
    requires DistinctIds(a) && DistinctIds(b) && forall it :: it in a <==> it in b
    ensures Upsert(ix, p, a) == Upsert(ix, p, b)
  {
    NeverRefused(ix, p, a);
    NeverRefused(ix, p, b);
    var x, y := Upsert(ix, p, a).index.rows, Upsert(ix, p, b).index.rows;
    assert Ids(a) == Ids(b) && Uids(a) == Uids(b);
    forall k
      ensures Find(x, k) == Find(y, k)
    {
      UpsertAt(ix, p, a, k);
      UpsertAt(ix, p, b, k);
    }
    SameLookups(x, y);
    UpsertCounts(ix, p, a);
    UpsertCounts(ix, p, b);
    assert RewriteSet(ix.rows, p, a) == RewriteSet(ix.rows, p, b);
    assert MissSet(ix.rows, p, a) == MissSet(ix.rows, p, b);
  }

  lemma RowsOfOtherPostingsStay(ix: Index, p: Profile, a: seq<Item>, k: ChunkId)
    requires DistinctIds(a) && Upsert(ix, p, a).Committed? && k.uid !in Uids(a)
    ensures Find(Upsert(ix, p, a).index.rows, k) == Find(ix.rows, k)
  {
    UpsertAt(ix, p, a, k);
  }

  lemma DistinctParts(a: seq<Item>, b: seq<Item>)
    requires DistinctIds(a + b)
    ensures DistinctIds(a) && DistinctIds(b)
    ensures Ids(a + b) == Ids(a) + Ids(b) && Uids(a + b) == Uids(a) + Uids(b)
  {
    var c := a + b;
    forall i, j | 0 <= i < j < |a| ensures a[i].chunk.id != a[j].chunk.id {
      assert c[i] == a[i] && c[j] == a[j];
    }
    forall i, j | 0 <= i < j < |b| ensures b[i].chunk.id != b[j].chunk.id {
      assert c[|a| + i] == b[i] && c[|a| + j] == b[j];
    }
  }

  lemma IdsApart(a: seq<Item>, b: seq<Item>)
    requires Uids(a) !! Uids(b)
    ensures Ids(a) !! Ids(b)
    ensures forall k :: k in Ids(a) ==> k.uid !in Uids(b)
    ensures forall k :: k in Ids(b) ==> k.uid !in Uids(a)
  {
    forall it, other | it in a && other in b
      ensures it.chunk.id.uid != other.chunk.id.uid
    {
      assert it.chunk.id.uid in Uids(a) && other.chunk.id.uid in Uids(b);
    }
    assert forall k :: k in Ids(a) ==> k.uid in Uids(a);
    assert forall k :: k in Ids(b) ==> k.uid in Uids(b);
  }

  lemma MergedCommits(ix: Index, p: Profile, a: seq<Item>, b: seq<Item>)
    requires !Switching(ix, p) && !ix.metadata.NoTable?
    ensures Upsert(ix, p, a).Committed? && Upsert(ix, p, a + b).Committed?
    ensures Upsert(Upsert(ix, p, a).index, p, b).Committed?
  {
    NeverRefused(ix, p, a);
    NeverRefused(ix, p, a + b);
    NeverRefused(Upsert(ix, p, a).index, p, b);
  }

  /** Where both calls leave an id of the first batch, of the second, and of neither. */
  lemma MergedFirst(ix: Index, p: Profile, a: seq<Item>, b: seq<Item>, it: Item)
    requires !Switching(ix, p) && !ix.metadata.NoTable?
    requires DistinctIds(a + b) && Uids(a) !! Uids(b) && it in a
    ensures Upsert(ix, p, a).Committed? && Upsert(ix, p, a + b).Committed?
    ensures Upsert(Upsert(ix, p, a).index, p, b).Committed?
    ensures var mid := Upsert(ix, p, a).index; var k := it.chunk.id;
      && Find(Upsert(mid, p, b).index.rows, k) == RowAfter(ix.rows, p, it)
      && Find(Upsert(ix, p, a + b).index.rows, k) == RowAfter(ix.rows, p, it)
  {
    DistinctParts(a, b);
    MergedCommits(ix, p, a, b);
    IdsApart(a, b);
    var k := it.chunk.id;
    assert it in a + b;
    UpsertAt(ix, p, a, k);
    UpsertAt(ix, p, a + b, k);
    RowsOfOtherPostingsStay(Upsert(ix, p, a).index, p, b, k);
  }

  lemma MergedSecond(ix: Index, p: Profile, a: seq<Item>, b: seq<Item>, it: Item)
    requires !Switching(ix, p) && !ix.metadata.NoTable?
    requires DistinctIds(a + b) && Uids(a) !! Uids(b) && it in b
    ensures Upsert(ix, p, a).Committed? && Upsert(ix, p, a + b).Committed?
    ensures Upsert(Upsert(ix, p, a).index, p, b).Committed?
    ensures var mid := Upsert(ix, p, a).index; var k := it.chunk.id;
      Find(Upsert(mid, p, b).index.rows, k) == Find(Upsert(ix, p, a + b).index.rows, k)
  {
    DistinctParts(a, b);
    MergedCommits(ix, p, a, b);
    IdsApart(a, b);
    var k := it.chunk.id;
    assert it in a + b;
    RowsOfOtherPostingsStay(ix, p, a, k);
    SameFindSameRow(ix.rows, Upsert(ix, p, a).index.rows, p, it);
    UpsertAt(Upsert(ix, p, a).index, p, b, k);
    UpsertAt(ix, p, a + b, k);
  }

  lemma SameFindSameRow(before: map<ChunkId, Row>, mid: map<ChunkId, Row>, p: Profile, it: Item)
    requires Find(before, it.chunk.id) == Find(mid, it.chunk.id)
    ensures RowAfter(before, p, it) == RowAfter(mid, p, it)
  {
  }

  lemma MergedNeither(ix: Index, p: Profile, a: seq<Item>, b: seq<Item>, k: ChunkId)
    requires !Switching(ix, p) && !ix.metadata.NoTable?
    requires DistinctIds(a + b) && k !in Ids(a) && k !in Ids(b)
    ensures Upsert(ix, p, a).Committed? && Upsert(ix, p, a + b).Committed?
    ensures Upsert(Upsert(ix, p, a).index, p, b).Committed?
    ensures var mid := Upsert(ix, p, a).index;
      Find(Upsert(mid, p, b).index.rows, k) == Find(Upsert(ix, p, a + b).index.rows, k)
  {
    DistinctParts(a, b);
    MergedCommits(ix, p, a, b);
    UpsertAt(ix, p, a, k);
    UpsertAt(Upsert(ix, p, a).index, p, b, k);
    UpsertAt(ix, p, a + b, k);
  }

  lemma MergedRows(ix: Index, p: Profile, a: seq<Item>, b: seq<Item>, k: ChunkId)
    requires !Switching(ix, p) && !ix.metadata.NoTable?
    requires DistinctIds(a + b) && Uids(a) !! Uids(b)
    ensures Upsert(ix, p, a).Committed? && Upsert(ix, p, a + b).Committed?
    ensures Upsert(Upsert(ix, p, a).index, p, b).Committed?
    ensures Find(Upsert(Upsert(ix, p, a).index, p, b).index.rows, k) == Find(Upsert(ix, p, a + b).index.rows, k)
  {
    MergedCommits(ix, p, a, b);
    if k in Ids(a) {
      var it :| it in a && it.chunk.id == k;
      MergedFirst(ix, p, a, b, it);
    } else if k in Ids(b) {
      var it :| it in b && it.chunk.id == k;
      MergedSecond(ix, p, a, b, it);
    } else {
      MergedNeither(ix, p, a, b, k);
    }
  }

  lemma MergedCounts(ix: Index, p: Profile, a: seq<Item>, b: seq<Item>)
    requires !Switching(ix, p) && !ix.metadata.NoTable?
    requires DistinctIds(a + b) && Uids(a) !! Uids(b)
    requires Upsert(ix, p, a).Committed? && Upsert(ix, p, a + b).Committed?
    requires Upsert(Upsert(ix, p, a).index, p, b).Committed?
    ensures var first, both := Upsert(ix, p, a), Upsert(ix, p, a + b);
      var second := Upsert(first.index, p, b);
      && both.written == first.written + second.written
      && both.skippedNoEmbedding == first.skippedNoEmbedding + second.skippedNoEmbedding
      && both.orphans == first.orphans + second.orphans
  {
    DistinctParts(a, b);
    var mid := Upsert(ix, p, a).index;
    UpsertCounts(ix, p, a);
    UpsertCounts(mid, p, b);
    UpsertCounts(ix, p, a + b);
    forall it | it in b
      ensures Find(mid.rows, it.chunk.id) == Find(ix.rows, it.chunk.id)
      ensures it !in a
    {
      assert it.chunk.id.uid in Uids(b);
      RowsOfOtherPostingsStay(ix, p, a, it.chunk.id);
      assert it.chunk.id.uid !in Uids(a);
    }
    SplitSets(ix.rows, mid.rows, p, a, b);
    forall k: ChunkId | k.uid in Uids(b)
      ensures Find(mid.rows, k) == Find(ix.rows, k)
    {
      RowsOfOtherPostingsStay(ix, p, a, k);
    }
    SplitOrphans(ix.rows, mid.rows, a, b);
  }

  lemma SplitSets(before: map<ChunkId, Row>, mid: map<ChunkId, Row>, p: Profile, a: seq<Item>, b: seq<Item>)
    requires forall it :: it in b ==> it !in a && Find(mid, it.chunk.id) == Find(before, it.chunk.id)
    ensures |RewriteSet(before, p, a + b)| == |RewriteSet(before, p, a)| + |RewriteSet(mid, p, b)|
    ensures |MissSet(before, p, a + b)| == |MissSet(before, p, a)| + |MissSet(mid, p, b)|
  {
    forall it | it in b
      ensures Rewrites(before, p, it) == Rewrites(mid, p, it) && Misses(before, p, it) == Misses(mid, p, it)
    {
      assert Find(mid, it.chunk.id) == Find(before, it.chunk.id);
    }
    assert RewriteSet(before, p, a + b) == RewriteSet(before, p, a) + RewriteSet(mid, p, b);
    assert RewriteSet(before, p, a) !! RewriteSet(mid, p, b);
    assert MissSet(before, p, a + b) == MissSet(before, p, a) + MissSet(mid, p, b);
    assert MissSet(before, p, a) !! MissSet(mid, p, b);
  }

  lemma SplitOrphans(before: map<ChunkId, Row>, mid: map<ChunkId, Row>, a: seq<Item>, b: seq<Item>)
    requires Uids(a) !! Uids(b)
    requires forall k: ChunkId :: k.uid in Uids(b) ==> Find(mid, k) == Find(before, k)
    ensures |Orphans(before, Uids(a + b), Ids(a + b))|
         == |Orphans(before, Uids(a), Ids(a))| + |Orphans(mid, Uids(b), Ids(b))|
  {
    var x, y := Orphans(before, Uids(a), Ids(a)), Orphans(mid, Uids(b), Ids(b));
    forall k
      ensures k in Orphans(before, Uids(a + b), Ids(a + b)) <==> k in x || k in y
    {
      assert k.uid in Uids(b) ==> Find(mid, k) == Find(before, k);
      if k in Ids(a) {
        var it :| it in a && it.chunk.id == k;
        assert k.uid in Uids(a);
      }
      if k in Ids(b) {
        var it :| it in b && it.chunk.id == k;
        assert k.uid in Uids(b);
      }
    }
    assert Orphans(before, Uids(a + b), Ids(a + b)) == x + y;
    assert x !! y;
  }

  /** Two windows without a common posting: the second call on top of the first
      is one call on both, in table and in numbers. */
  lemma WindowsMerge(ix: Index, p: Profile, a: seq<Item>, b: seq<Item>)
    requires !Switching(ix, p) && !ix.metadata.NoTable?
    requires DistinctIds(a + b) && Uids(a) !! Uids(b)
    ensures Upsert(ix, p, a).Committed?
    ensures var first := Upsert(ix, p, a);
      var second := Upsert(first.index, p, b);
      && second.Committed?
      && Upsert(ix, p, a + b) == Committed(second.index, first.written + second.written,
                                           first.skippedNoEmbedding + second.skippedNoEmbedding,
                                           first.orphans + second.orphans)
  {
    NeverRefused(ix, p, a);
    var mid := Upsert(ix, p, a).index;
    NeverRefused(mid, p, b);
    NeverRefused(ix, p, a + b);
    var x, y := Upsert(mid, p, b).index.rows, Upsert(ix, p, a + b).index.rows;
    forall k
      ensures Find(x, k) == Find(y, k)
    {
      MergedRows(ix, p, a, b, k);
    }
    SameLookups(x, y);
    MergedCounts(ix, p, a, b);
  }

  /** Running totals of the window loop. */
  datatype Progress = Progress(index: Index, written: nat, orphans: nat)

  function RunWindows(ix: Index, p: Profile, windows: seq<seq<Item>>): Option<Progress> {
    if windows == [] then Some(Progress(ix, 0, 0))
    else
      match RunWindows(ix, p, windows[..|windows| - 1])
      case None => None
      case Some(sofar) => Advance(sofar, p, windows[|windows| - 1])
  }

  /** One more window on top of the progress so far; a refused call ends the run. */
  function Advance(sofar: Progress, p: Profile, window: seq<Item>): Option<Progress> {
    match Upsert(sofar.index, p, window)
    case Refused(_) => None
    case Committed(next, written, _, orphans) => Some(Progress(next, sofar.written + written, sofar.orphans + orphans))
  }

  predicate NoPostingSpans(windows: seq<seq<Item>>) {
    forall i, j :: 0 <= i < j < |windows| ==> Uids(windows[i]) !! Uids(windows[j])
  }

  lemma {:induction false} UidsOfConcat(windows: seq<seq<Item>>)
    ensures forall u :: u in Uids(Concat(windows)) <==> exists i :: 0 <= i < |windows| && u in Uids(windows[i])
  {
    if windows == [] {
    } else {
      UidsOfConcat(windows[1..]);
      var rest := windows[1..];
      forall u
        ensures u in Uids(Concat(windows)) <==> exists i :: 0 <= i < |windows| && u in Uids(windows[i])
      {
        assert Concat(windows) == windows[0] + Concat(rest);
        assert u in Uids(Concat(windows)) <==> u in Uids(windows[0]) || u in Uids(Concat(rest));
        if i :| 0 <= i < |rest| && u in Uids(rest[i]) {
          assert windows[i + 1] == rest[i];
        }
        if i :| 0 <= i < |windows| && u in Uids(windows[i]) {
          if i > 0 {
            assert rest[i - 1] == windows[i];
          }
        }
      }
    }
  }

  /** The recorded profile itself is not part of a call's effect when there is no switch. */
  lemma SameTableSameCall(a: Index, b: Index, p: Profile, items: seq<Item>)
    requires a.rows == b.rows && a.active == b.active
    requires !Switching(a, p) && !Switching(b, p) && !a.metadata.NoTable? && !b.metadata.NoTable?
    ensures Upsert(a, p, items) == Upsert(b, p, items)
  {
  }

  lemma EmptyCallKeepsRows(ix: Index, p: Profile)
    requires !Switching(ix, p) && !ix.metadata.NoTable?
    ensures Upsert(ix, p, []).Committed?
    ensures Upsert(ix, p, []).index.rows == ix.rows && Upsert(ix, p, []).written == 0 && Upsert(ix, p, []).orphans == 0
  {
    NeverRefused(ix, p, []);
    forall k
      ensures Find(Upsert(ix, p, []).index.rows, k) == Find(ix.rows, k)
    {
      UpsertAt(ix, p, [], k);
    }
    SameLookups(Upsert(ix, p, []).index.rows, ix.rows);
    UpsertCounts(ix, p, []);
    assert Orphans(ix.rows, Uids([]), Ids([])) == {};
  }

  lemma LastWindowIsApart(windows: seq<seq<Item>>)
    requires windows != [] && DistinctIds(Concat(windows)) && NoPostingSpans(windows)
    ensures var front, last := windows[..|windows| - 1], windows[|windows| - 1];
      && Concat(windows) == Concat(front) + last
      && DistinctIds(Concat(front))
      && NoPostingSpans(front)
      && Uids(Concat(front)) !! Uids(last)
  {
    var n := |windows| - 1;
    var front, last := windows[..n], windows[n];
    assert windows == front + [last];
    ConcatSnoc(front, last);
    DistinctParts(Concat(front), last);
    UidsOfConcat(front);
    forall u | u in Uids(Concat(front))
      ensures u !in Uids(last)
    {
      var i :| 0 <= i < |front| && u in Uids(front[i]);
      assert windows[i] == front[i] && windows[n] == last;
    }
  }

  /** Windows that cut no posting, ingested one after the other, leave the table,
      the written total and the orphan total of one call on all their chunks. */
  lemma {:induction false} WindowedIngestRefinesOneShot(ix: Index, p: Profile, windows: seq<seq<Item>>)
    requires !Switching(ix, p) && !ix.metadata.NoTable?
    requires DistinctIds(Concat(windows)) && NoPostingSpans(windows)
    ensures var one := Upsert(ix, p, Concat(windows));
      var run := RunWindows(ix, p, windows);
      && one.Committed?
      && run.Some?
      && run.value.index.rows == one.index.rows
      && run.value.index.active == ix.active
      && run.value.written == one.written
      && run.value.orphans == one.orphans
      && !Switching(run.value.index, p) && !run.value.index.metadata.NoTable?
      && (windows != [] ==> run.value.index == one.index)
  {
    if windows == [] {
      EmptyCallKeepsRows(ix, p);
    } else {
      var front, last := windows[..|windows| - 1], windows[|windows| - 1];
      LastWindowIsApart(windows);
      WindowedIngestRefinesOneShot(ix, p, front);
      WindowsMerge(ix, p, Concat(front), last);
      NeverRefused(ix, p, Concat(front));
      SameTableSameCall(RunWindows(ix, p, front).value.index, Upsert(ix, p, Concat(front)).index, p, last);
    }
  }

  // ------------------------------------------------------------ a profile switch

  /** The same table, already recorded under the runtime profile. */
  function RecordedAs(ix: Index, p: Profile): Index {
    ix.(metadata := Recorded(p))
  }

  /** A call that commits does not depend on the profile recorded before it. */
  lemma CommittedAsRecorded(ix: Index, p: Profile, items: seq<Item>)
    ensures !Switching(RecordedAs(ix, p), p) && Upsert(RecordedAs(ix, p), p, items).Committed?
    ensures Upsert(ix, p, items).Committed? ==> Upsert(ix, p, items) == Upsert(RecordedAs(ix, p), p, items)
  {
  }

  /** A run gets past its windows exactly when it gets past the first one; from
      there on it is the run of a table recorded under the runtime profile. */
  lemma {:induction false} OnlyTheFirstCanBeRefused(ix: Index, p: Profile, windows: seq<seq<Item>>)
    requires windows != []
    ensures var run := RunWindows(ix, p, windows);
      && (run.Some? <==> Upsert(ix, p, windows[0]).Committed?)
      && (run.Some? ==> run == RunWindows(RecordedAs(ix, p), p, windows) && run.value.index.metadata == Recorded(p))
  {
    var front, last := windows[..|windows| - 1], windows[|windows| - 1];
    if front == [] {
      CommittedAsRecorded(ix, p, last);
    } else {
      OnlyTheFirstCanBeRefused(ix, p, front);
      if RunWindows(ix, p, front).Some? {
        NeverRefused(RunWindows(ix, p, front).value.index, p, last);
      }
    }
  }

  /** Under a profile switch a windowed run succeeds exactly when its first window
      brings again every active posting with vectors and misses none of its own,
      and then leaves the table and totals of one call; that one call asks for more,
      namely that no window misses a vector. */
  lemma WindowedSwitchExactly(ix: Index, p: Profile, windows: seq<seq<Item>>)
    requires Switching(ix, p) && !ix.metadata.NoTable? && windows != []
    requires DistinctIds(Concat(windows)) && NoPostingSpans(windows)
    ensures var run := RunWindows(ix, p, windows);
      var one := Upsert(ix, p, Concat(windows));
      var recorded := Upsert(RecordedAs(ix, p), p, Concat(windows));
      && (run.Some? <==> Uncovered(ix, Uids(windows[0])) == {} && MissSet(ix.rows, p, windows[0]) == {})
      && (run.Some? ==> recorded.Committed? && run.value == Progress(recorded.index, recorded.written, recorded.orphans))
      && (run.Some? ==> (one.Committed? <==> MissSet(ix.rows, p, Concat(windows)) == {}))
      && (one.Committed? ==> one == recorded)
  {
    var all := Concat(windows);
    OnlyTheFirstCanBeRefused(ix, p, windows);
    CommittedAsRecorded(ix, p, all);
    WindowedIngestRefinesOneShot(RecordedAs(ix, p), p, windows);
    assert all == windows[0] + Concat(windows[1..]);
    DistinctParts(windows[0], Concat(windows[1..]));
    MissesCounted(ix, p, windows[0]);
    MissesCounted(ix, p, all);
    assert Uncovered(ix, Uids(all)) <= Uncovered(ix, Uids(windows[0]));
  }

  lemma MissesCounted(ix: Index, p: Profile, items: seq<Item>)
    requires DistinctIds(items)
    ensures CountLacks(ix.rows, Hashes(p, items), items) == 0 <==> MissSet(ix.rows, p, items) == {}
  {
    DistinctItemsOwnHashes(p, items);
    LacksAreASet(ix.rows, p, Hashes(p, items), items);
  }

  /** Such a run exists: a switch over two windows, the first of which covers
      all the postings that are searched. */
  lemma SwitchInTwoWindows(p: Profile, q: Profile, one: Chunk, two: Chunk)
    requires p != q && one.id.uid != two.id.uid
    ensures var ix := Index(map[one.id := Row(one.text, ContentHash(q, one.text), Some(Embedding(q, one.text)))],
                            Recorded(q), {one.id.uid});
      var windows := [[Item(one, Some(Embedding(p, one.text)))], [Item(two, None)]];
      Switching(ix, p) && RunWindows(ix, p, windows).Some?
  {
    var ix := Index(map[one.id := Row(one.text, ContentHash(q, one.text), Some(Embedding(q, one.text)))],
                    Recorded(q), {one.id.uid});
    var first := [Item(one, Some(Embedding(p, one.text)))];
    assert first[0] in first && one.id.uid in Uids(first);
    assert Uncovered(ix, Uids(first)) == {};
    assert first[..0] == [] && CountLacks(ix.rows, Hashes(p, first), first) == 0;
    assert Switching(ix, p) by {
      assert ix.metadata == Recorded(q);
    }
    assert Upsert(ix, p, first).Committed?;
    OnlyTheFirstCanBeRefused(ix, p, [first, [Item(two, None)]]);
  }
}
