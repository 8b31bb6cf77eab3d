/** The chunk table and its recorded embedding profile: one upsert_chunks call as
    a function, and what any sequence of calls keeps. */
module VectorIndex {
  import opened Common
  import opened IndexHash

  /** f"{uid}-c{n}": a chunk id names its posting. */
  datatype ChunkId = ChunkId(uid: string, index: nat)

  datatype Chunk = Chunk(id: ChunkId, text: string)

  /** A vector is known by the profile and the text it was computed from. */
  datatype Vector = Embedding(profile: Profile, text: string)

  datatype Row = Row(text: string, hash: Digest, vector: Option<Vector>)

  /** rag_index_metadata: not migrated yet, empty, or holding the one profile. */
  datatype Metadata = NoTable | NoRow | Recorded(profile: Profile)

  datatype Index = Index(rows: map<ChunkId, Row>, metadata: Metadata, active: set<string>)

  /** One position of the two parallel lists upsert_chunks receives. */
  datatype Item = Item(chunk: Chunk, vector: Option<Vector>)

  datatype Refusal = LengthMismatch | MetadataUnreadable | PartialCorpus | FailedReplacement

  datatype Outcome =
    | Refused(reason: Refusal)
    | Committed(index: Index, written: nat, skippedNoEmbedding: nat, orphans: nat)

  function Find<K, V>(m: map<K, V>, k: K): Option<V> {
    if k in m then Some(m[k]) else None
  }

  lemma SameLookups<K, V>(a: map<K, V>, b: map<K, V>)
    requires forall k :: Find(a, k) == Find(b, k)
    ensures a == b
  {
    forall k
      ensures k in a <==> k in b
      ensures k in a ==> a[k] == b[k]
    {
      assert Find(a, k) == Find(b, k);
    }
  }

  // ------------------------------------------------------------- one call

  function Ids(items: seq<Item>): set<ChunkId> {
    set it | it in items :: it.chunk.id
  }

  function Uids(items: seq<Item>): set<string> {
    set it | it in items :: it.chunk.id.uid
  }

  /** The dict of hashes: a repeated id keeps its last text's hash. */
  function Hashes(p: Profile, items: seq<Item>): (r: map<ChunkId, Digest>)
    ensures r.Keys == Ids(items)
  {
    if items == [] then map[]
    else
      var last := items[|items| - 1];
      assert items == items[..|items| - 1] + [last];
      Hashes(p, items[..|items| - 1])[last.chunk.id := ContentHash(p, last.chunk.text)]
  }

  predicate Unchanged(before: map<ChunkId, Row>, id: ChunkId, h: Digest) {
    id in before && before[id].hash == h
  }

  predicate Writes(before: map<ChunkId, Row>, hashes: map<ChunkId, Digest>, it: Item)
    requires it.chunk.id in hashes
  {
    !Unchanged(before, it.chunk.id, hashes[it.chunk.id]) && it.vector.Some?
  }

  predicate Lacks(before: map<ChunkId, Row>, hashes: map<ChunkId, Digest>, it: Item)
    requires it.chunk.id in hashes
  {
    !Unchanged(before, it.chunk.id, hashes[it.chunk.id]) && it.vector.None?
  }

  function WriteRows(before: map<ChunkId, Row>, hashes: map<ChunkId, Digest>, items: seq<Item>): map<ChunkId, Row>
    requires Ids(items) <= hashes.Keys
  {
    if items == [] then before
    else
      var last := items[|items| - 1];
      var rows := WriteRows(before, hashes, items[..|items| - 1]);
      if Writes(before, hashes, last) then
        rows[last.chunk.id := Row(last.chunk.text, hashes[last.chunk.id], last.vector)]
      else rows
  }

  function CountWrites(before: map<ChunkId, Row>, hashes: map<ChunkId, Digest>, items: seq<Item>): nat
    requires Ids(items) <= hashes.Keys
  {
    if items == [] then 0
    else
      var n := CountWrites(before, hashes, items[..|items| - 1]);
      if Writes(before, hashes, items[|items| - 1]) then n + 1 else n
  }

  function CountLacks(before: map<ChunkId, Row>, hashes: map<ChunkId, Digest>, items: seq<Item>): nat
    requires Ids(items) <= hashes.Keys
  {
    if items == [] then 0
    else
      var n := CountLacks(before, hashes, items[..|items| - 1]);
      if Lacks(before, hashes, items[|items| - 1]) then n + 1 else n
  }

  function Orphans(rows: map<ChunkId, Row>, uids: set<string>, live: set<ChunkId>): set<ChunkId> {
    set k | k in rows && k.uid in uids && k !in live
  }

  /** An embedded chunk of an active posting: what a search may compare. */
  predicate Searchable(ix: Index, k: ChunkId) {
    k in ix.rows && k.uid in ix.active && ix.rows[k].vector.Some?
  }

  /** Vectors without a recorded profile can only be the original local ones. */
  function CurrentProfile(ix: Index): Option<Profile> {
    match ix.metadata
    case Recorded(p) => Some(p)
    case _ => if exists k :: k in ix.rows && Searchable(ix, k) then Some(LEGACY) else None
  }

  predicate Switching(ix: Index, p: Profile) {
    CurrentProfile(ix).Some? && CurrentProfile(ix).value != p
  }

  /** Active postings with vectors that the batch does not bring again. */
  function Uncovered(ix: Index, uids: set<string>): set<string> {
    set k | k in ix.rows && Searchable(ix, k) && k.uid !in uids :: k.uid
  }

  /** One upsert_chunks call under the runtime profile p. */
  function Upsert(ix: Index, p: Profile, items: seq<Item>): Outcome {
    var hashes := Hashes(p, items);
    if ix.metadata.NoTable? then Refused(MetadataUnreadable)
    else if Switching(ix, p) && Uncovered(ix, Uids(items)) != {} then Refused(PartialCorpus)
    else if Switching(ix, p) && CountLacks(ix.rows, hashes, items) > 0 then Refused(FailedReplacement)
    else
      var rows := WriteRows(ix.rows, hashes, items);
      var gone := Orphans(rows, Uids(items), Ids(items));
      Committed(Index(rows - gone, Recorded(p), ix.active),
                CountWrites(ix.rows, hashes, items), CountLacks(ix.rows, hashes, items), |gone|)
  }

  /** The index holds vectors a search may compare under another profile: the one
      recorded, or without a record the original local one. */
  ghost predicate SearchedUnderAnother(ix: Index, p: Profile) {
    match ix.metadata
    case Recorded(q) => q != p
    case _ => !(p.provider == Local && p.model == "BAAI/bge-m3")
              && exists k :: k in ix.rows && k.uid in ix.active && ix.rows[k].vector.Some?
  }

  lemma SwitchingExactly(ix: Index, p: Profile)
    ensures Switching(ix, p) <==> SearchedUnderAnother(ix, p)
  {
    assert (p.provider == Local && p.model == "BAAI/bge-m3") <==> p == LEGACY;
  }

  /** An active posting with vectors has no chunk in the batch. */
  ghost predicate LeavesOut(ix: Index, items: seq<Item>) {
    exists k :: k in ix.rows && k.uid in ix.active && ix.rows[k].vector.Some?
      && forall i :: 0 <= i < |items| ==> items[i].chunk.id.uid != k.uid
  }

  lemma LeavesOutExactly(ix: Index, items: seq<Item>)
    ensures Uncovered(ix, Uids(items)) != {} <==> LeavesOut(ix, items)
  {
    forall u
      ensures u in Uids(items) <==> exists i :: 0 <= i < |items| && items[i].chunk.id.uid == u
    {
    }
    if k :| k in ix.rows && Searchable(ix, k) && k.uid !in Uids(items) {
      assert k.uid in Uncovered(ix, Uids(items));
    }
  }

  /** A chunk whose hash is not the stored one comes without a vector. */
  ghost predicate ComesWithout(ix: Index, p: Profile, it: Item) {
    it.vector.None? && !(it.chunk.id in ix.rows && ix.rows[it.chunk.id].hash == ContentHash(p, it.chunk.text))
  }

  lemma MissingExactly(ix: Index, p: Profile, items: seq<Item>)
    requires DistinctIds(items)
    ensures CountLacks(ix.rows, Hashes(p, items), items) > 0 <==>
      exists i :: 0 <= i < |items| && ComesWithout(ix, p, items[i])
  {
    DistinctItemsOwnHashes(p, items);
    LacksAreASet(ix.rows, p, Hashes(p, items), items);
    if i :| 0 <= i < |items| && ComesWithout(ix, p, items[i]) {
      assert items[i] in MissSet(ix.rows, p, items);
    }
    if MissSet(ix.rows, p, items) != {} {
      var it :| it in MissSet(ix.rows, p, items);
      var i :| 0 <= i < |items| && items[i] == it;
      assert ComesWithout(ix, p, items[i]);
    }
  }

  /** Exactly when a call is refused: without the metadata table; or when it would
      switch the profile and leaves out an active posting with vectors, or brings a
      changed text without a vector. */
  lemma RefusedExactly(ix: Index, p: Profile, items: seq<Item>)
    requires DistinctIds(items)
    ensures Upsert(ix, p, items).Refused? <==>
      || ix.metadata.NoTable?
      || (SearchedUnderAnother(ix, p)
          && (LeavesOut(ix, items) || exists i :: 0 <= i < |items| && ComesWithout(ix, p, items[i])))
    ensures Upsert(ix, p, items).Committed? ==>
      Upsert(ix, p, items).index.metadata == Recorded(p) && Upsert(ix, p, items).index.active == ix.active
  {
    SwitchingExactly(ix, p);
    LeavesOutExactly(ix, items);
    MissingExactly(ix, p, items);
  }

  // ---------------------------------------------------------- one vector space

  /** What the caller hands over: prefixed texts, vectors of the runtime profile. */
  predicate WellMade(p: Profile, items: seq<Item>) {
    && ValidProfile(p)
    && forall it :: it in items ==> Prefixed(it.chunk.text) && (it.vector.Some? ==> it.vector.value.profile == p)
  }

  ghost predicate HashedUnder(p: Profile, h: Digest) {
    ValidProfile(p) && exists t :: Prefixed(t) && h == ContentHash(p, t)
  }

  /** The stored hash was taken under the profile of the stored vector. */
  ghost predicate HashTellsProfile(r: Row) {
    r.vector.Some? ==> HashedUnder(r.vector.value.profile, r.hash)
  }

  lemma OneProfilePerHash(p: Profile, q: Profile, h: Digest)
    requires HashedUnder(p, h) && HashedUnder(q, h)
    ensures p == q
  {
    var t :| Prefixed(t) && h == ContentHash(p, t);
    var u :| Prefixed(u) && h == ContentHash(q, u);
    HashSeparates(p, t, q, u);
  }

  function SpaceOf(ix: Index): Profile {
    if ix.metadata.Recorded? then ix.metadata.profile else LEGACY
  }

  ghost predicate OneSpace(ix: Index) {
    && (forall k :: k in ix.rows ==> HashTellsProfile(ix.rows[k]))
    && (forall k :: Searchable(ix, k) ==> ix.rows[k].vector.value.profile == SpaceOf(ix))
  }

  lemma {:induction false} HashesAreOurs(p: Profile, items: seq<Item>)
    requires WellMade(p, items)
    ensures forall id :: id in Ids(items) ==> HashedUnder(p, Hashes(p, items)[id])
  {
    if items == [] {
    } else {
      var front, last := items[..|items| - 1], items[|items| - 1];
      assert items == front + [last];
      HashesAreOurs(p, front);
      assert last in items && HashedUnder(p, ContentHash(p, last.chunk.text));
    }
  }

  predicate CarriesProfile(r: Row, p: Profile) {
    r.vector.Some? && r.vector.value.profile == p
  }

  /** After the writes a row is an old one, or carries the runtime profile; and
      if no vector was missing, every listed id is unchanged or carries it. */
  lemma {:induction false} WrittenRows(before: map<ChunkId, Row>, p: Profile, hashes: map<ChunkId, Digest>,
                                       items: seq<Item>, k: ChunkId)
    requires WellMade(p, items) && Ids(items) <= hashes.Keys
    requires forall id :: id in hashes ==> HashedUnder(p, hashes[id])
    requires k in before ==> HashTellsProfile(before[k])
    ensures var rows := WriteRows(before, hashes, items);
      && (k in before ==> k in rows)
      && (k in rows ==> HashTellsProfile(rows[k]) && ((k in before && rows[k] == before[k]) || CarriesProfile(rows[k], p)))
      && (k in Ids(items) && CountLacks(before, hashes, items) == 0 ==>
            Unchanged(before, k, hashes[k]) || (k in rows && CarriesProfile(rows[k], p)))
  {
    if items == [] {
    } else {
      var front, last := items[..|items| - 1], items[|items| - 1];
      assert items == front + [last] && last in items;
      assert Ids(items) == Ids(front) + {last.chunk.id};
      WrittenRows(before, p, hashes, front, k);
    }
  }

  /** One committed call keeps the index in one space, now the runtime's. */
  lemma UpsertKeepsOneSpace(ix: Index, p: Profile, items: seq<Item>)
    requires OneSpace(ix) && WellMade(p, items) && Upsert(ix, p, items).Committed?
    ensures OneSpace(Upsert(ix, p, items).index)
    ensures SpaceOf(Upsert(ix, p, items).index) == p
  {
    var out := Upsert(ix, p, items).index;
    var hashes := Hashes(p, items);
    HashesAreOurs(p, items);
    forall k | k in out.rows
      ensures HashTellsProfile(out.rows[k])
      ensures Searchable(out, k) ==> CarriesProfile(out.rows[k], p)
    {
      WrittenRows(ix.rows, p, hashes, items, k);
      if Searchable(out, k) && k in ix.rows && out.rows[k] == ix.rows[k] {
        StaleVectorsAreReplaced(ix, p, items, k);
      }
    }
  }

  /** A searchable row that survives a committed call untouched was of the runtime profile already. */
  lemma StaleVectorsAreReplaced(ix: Index, p: Profile, items: seq<Item>, k: ChunkId)
    requires OneSpace(ix) && WellMade(p, items) && Upsert(ix, p, items).Committed?
    requires k in ix.rows && Searchable(ix, k)
    requires k in Upsert(ix, p, items).index.rows && Upsert(ix, p, items).index.rows[k] == ix.rows[k]
    ensures CarriesProfile(ix.rows[k], p)
  {
    var hashes := Hashes(p, items);
    HashesAreOurs(p, items);
    WrittenRows(ix.rows, p, hashes, items, k);
    if Switching(ix, p) {
      assert k.uid !in Uids(items) ==> k.uid in Uncovered(ix, Uids(items));
      assert k in Ids(items);
      if Unchanged(ix.rows, k, hashes[k]) {
        OneProfilePerHash(p, ix.rows[k].vector.value.profile, hashes[k]);
      }
    }
  }

  /** An ingestion run: each call with its own runtime profile; a refused call changes nothing. */
  datatype Batch = Batch(profile: Profile, items: seq<Item>)

  function After(ix: Index, b: Batch): Index {
    match Upsert(ix, b.profile, b.items)
    case Refused(_) => ix
    case Committed(next, _, _, _) => next
  }

  function AfterAll(ix: Index, batches: seq<Batch>): Index {
    if batches == [] then ix else After(AfterAll(ix, batches[..|batches| - 1]), batches[|batches| - 1])
  }

  lemma {:induction false} OneSpaceAlways(ix: Index, batches: seq<Batch>)
    requires OneSpace(ix)
    requires forall b :: b in batches ==> WellMade(b.profile, b.items)
    ensures OneSpace(AfterAll(ix, batches))
  {
    if batches == [] {
    } else {
      var b := batches[|batches| - 1];
      var sofar := AfterAll(ix, batches[..|batches| - 1]);
      OneSpaceAlways(ix, batches[..|batches| - 1]);
      assert b in batches;
      if Upsert(sofar, b.profile, b.items).Committed? {
        UpsertKeepsOneSpace(sofar, b.profile, b.items);
      }
    }
  }

  /** ensure_index_compatible lets a search under p proceed. */
  predicate Admits(ix: Index, p: Profile) {
    || (forall k :: k in ix.rows ==> ix.rows[k].vector.None?)
    || (!ix.metadata.Recorded? && UsesLegacyLocalEmbedding(p))
    || ix.metadata == Recorded(p)
  }

  /** After any history of calls, with any profiles and any failed embeddings, a
      search that is admitted compares its query only with vectors of its own profile. */
  lemma AdmittedSearchesMeetOneSpace(ix: Index, batches: seq<Batch>, p: Profile, k: ChunkId)
    requires OneSpace(ix)
    requires forall b :: b in batches ==> WellMade(b.profile, b.items)
    requires Admits(AfterAll(ix, batches), p) && Searchable(AfterAll(ix, batches), k)
    ensures AfterAll(ix, batches).rows[k].vector.value.profile == p
  {
    OneSpaceAlways(ix, batches);
  }

  // ------------------------------------------- what a call leaves at each id

  predicate DistinctIds(items: seq<Item>) {
    forall i, j :: 0 <= i < j < |items| ==> items[i].chunk.id != items[j].chunk.id
  }

  /** A table of hashes that knows each item by its own text. */
  predicate OwnHashes(p: Profile, hashes: map<ChunkId, Digest>, items: seq<Item>) {
    forall it :: it in items ==> it.chunk.id in hashes && hashes[it.chunk.id] == ContentHash(p, it.chunk.text)
  }

  lemma LastIsNew(items: seq<Item>)
    requires DistinctIds(items) && items != []
    ensures var front, last := items[..|items| - 1], items[|items| - 1];
      items == front + [last] && last in items && last !in front && last.chunk.id !in Ids(front) && DistinctIds(front)
  {
    var n := |items| - 1;
    forall it | it in items[..n]
      ensures it.chunk.id != items[n].chunk.id
    {
      var i :| 0 <= i < n && items[..n][i] == it;
      assert items[i] == it;
    }
  }

  lemma {:induction false} DistinctItemsOwnHashes(p: Profile, items: seq<Item>)
    requires DistinctIds(items)
    ensures OwnHashes(p, Hashes(p, items), items)
  {
    if items == [] {
    } else {
      var front, last := items[..|items| - 1], items[|items| - 1];
      LastIsNew(items);
      DistinctItemsOwnHashes(p, front);
      assert forall it :: it in front ==> it.chunk.id in Ids(front);
    }
  }

  /** The row an item leaves behind, given the table the call found. */
  function RowAfter(before: map<ChunkId, Row>, p: Profile, it: Item): Option<Row> {
    var h := ContentHash(p, it.chunk.text);
    if Unchanged(before, it.chunk.id, h) then Some(before[it.chunk.id])
    else if it.vector.Some? then Some(Row(it.chunk.text, h, it.vector))
    else Find(before, it.chunk.id)
  }

  predicate Rewrites(before: map<ChunkId, Row>, p: Profile, it: Item) {
    !Unchanged(before, it.chunk.id, ContentHash(p, it.chunk.text)) && it.vector.Some?
  }

  predicate Misses(before: map<ChunkId, Row>, p: Profile, it: Item) {
    !Unchanged(before, it.chunk.id, ContentHash(p, it.chunk.text)) && it.vector.None?
  }

  lemma {:induction false} WriteRowsElsewhere(before: map<ChunkId, Row>, hashes: map<ChunkId, Digest>,
                                              items: seq<Item>, k: ChunkId)
    requires Ids(items) <= hashes.Keys && k !in Ids(items)
    ensures Find(WriteRows(before, hashes, items), k) == Find(before, k)
  {
    if items == [] {
    } else {
      var front, last := items[..|items| - 1], items[|items| - 1];
      assert items == front + [last] && last in items;
      assert Ids(items) == Ids(front) + {last.chunk.id};
      WriteRowsElsewhere(before, hashes, front, k);
    }
  }

  lemma {:induction false} WriteRowsItem(before: map<ChunkId, Row>, p: Profile, hashes: map<ChunkId, Digest>,
                                         items: seq<Item>, it: Item)
    requires DistinctIds(items) && OwnHashes(p, hashes, items) && Ids(items) <= hashes.Keys && it in items
    ensures Find(WriteRows(before, hashes, items), it.chunk.id) == RowAfter(before, p, it)
  {
    var front, last := items[..|items| - 1], items[|items| - 1];
    LastIsNew(items);
    assert Ids(items) == Ids(front) + {last.chunk.id};
    if it == last {
      WriteRowsElsewhere(before, hashes, front, it.chunk.id);
    } else {
      assert it in front && it.chunk.id in Ids(front);
      WriteRowsItem(before, p, hashes, front, it);
    }
  }

  function RewriteSet(before: map<ChunkId, Row>, p: Profile, items: seq<Item>): set<Item> {
    set it | it in items && Rewrites(before, p, it)
  }

  function MissSet(before: map<ChunkId, Row>, p: Profile, items: seq<Item>): set<Item> {
    set it | it in items && Misses(before, p, it)
  }

  lemma SetsGrow(before: map<ChunkId, Row>, p: Profile, front: seq<Item>, last: Item)
    ensures RewriteSet(before, p, front + [last]) ==
      RewriteSet(before, p, front) + if Rewrites(before, p, last) then {last} else {}
    ensures MissSet(before, p, front + [last]) ==
      MissSet(before, p, front) + if Misses(before, p, last) then {last} else {}
  {
  }

  /** Counting by position is counting the set of items, when ids do not repeat. */
  lemma {:induction false} WritesAreASet(before: map<ChunkId, Row>, p: Profile, hashes: map<ChunkId, Digest>,
                                         items: seq<Item>)
    requires DistinctIds(items) && OwnHashes(p, hashes, items) && Ids(items) <= hashes.Keys
    ensures CountWrites(before, hashes, items) == |RewriteSet(before, p, items)|
  {
    if items == [] {
    } else {
      var front, last := items[..|items| - 1], items[|items| - 1];
      LastIsNew(items);
      WritesAreASet(before, p, hashes, front);
      SetsGrow(before, p, front, last);
    }
  }

  lemma {:induction false} LacksAreASet(before: map<ChunkId, Row>, p: Profile, hashes: map<ChunkId, Digest>,
                                        items: seq<Item>)
    requires DistinctIds(items) && OwnHashes(p, hashes, items) && Ids(items) <= hashes.Keys
    ensures CountLacks(before, hashes, items) == |MissSet(before, p, items)|
  {
    if items == [] {
    } else {
      var front, last := items[..|items| - 1], items[|items| - 1];
      LastIsNew(items);
      LacksAreASet(before, p, hashes, front);
      SetsGrow(before, p, front, last);
    }
  }

  /** The whole effect of a committed call, id by id. */
  lemma UpsertAt(ix: Index, p: Profile, items: seq<Item>, k: ChunkId)
    requires DistinctIds(items) && Upsert(ix, p, items).Committed?
    ensures var out := Upsert(ix, p, items).index.rows;
      && (forall it :: it in items && it.chunk.id == k ==> Find(out, k) == RowAfter(ix.rows, p, it))
      && (k !in Ids(items) ==> Find(out, k) == if k.uid in Uids(items) then None else Find(ix.rows, k))
  {
    DistinctItemsOwnHashes(p, items);
    var rows := WriteRows(ix.rows, Hashes(p, items), items);
    if k !in Ids(items) {
      WriteRowsElsewhere(ix.rows, Hashes(p, items), items, k);
    }
    forall it | it in items && it.chunk.id == k
      ensures Find(Upsert(ix, p, items).index.rows, k) == RowAfter(ix.rows, p, it)
    {
      assert k in Ids(items);
      WriteRowsItem(ix.rows, p, Hashes(p, items), items, it);
    }
  }

  /** The numbers a committed call reports. */
  lemma UpsertCounts(ix: Index, p: Profile, items: seq<Item>)
    requires DistinctIds(items) && Upsert(ix, p, items).Committed?
    ensures var out := Upsert(ix, p, items);
      && out.written == |RewriteSet(ix.rows, p, items)|
      && out.skippedNoEmbedding == |MissSet(ix.rows, p, items)|
      && out.orphans == |Orphans(ix.rows, Uids(items), Ids(items))|
  {
    DistinctItemsOwnHashes(p, items);
    WritesAreASet(ix.rows, p, Hashes(p, items), items);
    LacksAreASet(ix.rows, p, Hashes(p, items), items);
    var rows := WriteRows(ix.rows, Hashes(p, items), items);
    forall k
      ensures k in Orphans(rows, Uids(items), Ids(items)) <==> k in Orphans(ix.rows, Uids(items), Ids(items))
    {
      if k !in Ids(items) {
        WriteRowsElsewhere(ix.rows, Hashes(p, items), items, k);
        assert Find(rows, k) == Find(ix.rows, k);
      }
    }
    assert Orphans(rows, Uids(items), Ids(items)) == Orphans(ix.rows, Uids(items), Ids(items));
  }
}
