# Job-data and RAG pipeline: a verified model

A Dafny model of the parts of the job-data and retrieval pipeline where
several writers, caches or queues have to agree. Verify it with
`dafny verify dfyconfig.toml`.

| part of the system | modules |
|---|---|
| OCR work queue over the shared `job_postings` table | `OcrRow`, `OcrQueue`, `OcrRuns`, `OcrTable` |
| Incremental vector index | `IndexHash`, `VectorIndex`, `IngestLaws`, `IngestWindows`, `Embedding`, `VectorStore` |
| Hybrid search | `SearchAxes`, `SearchRound`, `SearchTies`, `HybridSearch`, with `Fusion` shared with the offline evaluation |
| Rerank micro-batching | `RerankQueue`, `Reranker` |
| Chunker, nDCG, deduplication, plateau selection | `ItemSplit`, `Chunking`, `Ndcg`, `Dedup`, `Plateau` |
| Shared vocabulary | `Common`, `Sorting` |

**OCR queue.** A row is one record of OCR columns; each SQL statement, each
loader CASE table and the status trigger is a function on it. The queue is a
transition system in which any number of workers start, claim, finish, fail,
crash and sweep while the crawl loader and the legacy import write the same
rows. Every step carries its own `now()`, so nothing depends on clocks agreeing
or running forward, and a completion may reach the table without being
acknowledged. `SKIP LOCKED` becomes "any matching row". The class `JobPostings`
holds the table; its methods are the statements, the loaders and the worker's
main loop, and each is proved to move the table by a run of these steps. For the
loop that run, whatever the others do in it, holds exactly the worker's start and
one claim and one completion per round, and the printed counters are the worker's
account of it, so every theorem about runs applies to what the loop does.

**Vector index.** A stored vector is known by the profile and text it was made
from. `Upsert` is one `upsert_chunks` call, refused or committed as a whole.
The class `Store` is the database side, `PlanWindows` the window planner,
`EmbedTexts` the batching loop, and `Store.IngestAdditive` the driver.

**Search.** Each axis is the top of a filtered pool; the dense axis promises
only what its SQL promises, so ties may come out in any order. A round fuses
both lists; `Relax` returns the cumulative merge of the rounds it searched, which
are exactly the prefixes of the relaxation order worth a search, until there are
enough hits; `ApplyRerank` reorders inside tiers.

**Rerank queue.** Every locked section, timer expiry and execution is one step.
A timer is waiting, firing or over, and cancelling one that is already firing
has no effect. An execution makes one prediction over its batch's pairs and
hands each ticket its slice. The class `BatchQueue` is the queue object; its
methods are the steps on real slots.

Some expectations of the design hold only under a condition. Each condition is
proved to be exact, and where it does not name a failing input itself, one is
given:

* The legacy import's own verification *can* raise: a record not marked
  complete that still carries text meets a row without text, and their statuses
  differ (`OcrRow.PostCheckExactly`, input in `OcrQueue.ImportCanRefuse`). What
  it lets through keeps the queue's invariant, whatever the record
  (`OcrRow.LegacyKeepsGood`).
* "Complete exactly when there is text" survives a step unless a record outside
  the crawlers' convention is inserted, or smuggles text into a row without any
  (`OcrQueue.StepKeepsTidy`). Everything else about the queue holds for any
  record.
* The legacy import can leave a row dead with images and attempts to spare,
  exactly when it gives first images and no text to a row that was dead for
  want of images (`OcrRow.LegacyStrandsExactly`, input in
  `OcrQueue.ImportCanStrand`).
* A windowed ingest that switches the embedding profile goes through exactly when
  its first window brings again every active posting with vectors and misses none
  of its own; the one call on everything asks in addition that no later window
  misses one (`IngestLaws.WindowedSwitchExactly`, a run in
  `IngestLaws.SwitchInTwoWindows`).
* An upsert whose batch repeats a chunk id keeps every vector beside its own text
  exactly unless some id's last text, not the stored one, has no vector while an
  earlier, different text of that id has (`IngestLaws.UpsertKeepsFaithful`, input
  in `IngestLaws.RepeatedIdIsShadowed`).
* Two profiles' content hashes can meet only if a text begins with the other
  profile's fingerprint and a NUL (`IndexHash.SharedHashExactly`); chunk texts,
  which open with the context prefix, never do.
* The search's dense ranks are handed out one by one, so "no worse on both axes
  never fuses lower" holds, whatever BM25 returns, exactly for dense lists
  without equal distances (`SearchTies.FusesInOrderAlwaysExactly`), and for two
  given lists exactly where BM25 makes up for the later place of every tied
  pair (`SearchTies.FusesInOrderExactly`). `SearchTies.TwinsAreSplit` is a
  corpus where it fails. The docstring at `RAG/eval/measure_v2.py:56` gives its
  tie-sharing ranks, used there on both axes, as the search's own.
* nDCG stays within 1 under all judgements exactly for the rankings that show no
  posting twice among their first k (`Ndcg.BoundHoldsExactly`).

## Premises

* Worker ids are unique, and `max_attempts` is one constant for a table;
  inserted rows start with attempt count 0.
* One notion of white space serves Python's `strip` and `\s` and SQL's `BTRIM`,
  and digits are ASCII digits; a NULL text is the empty string.
* SHA-1 is collision-free, and model names contain no NUL.
* A chunk id is the pair of posting uid and number. The chunks handed to one
  ingest have distinct ids, as they have when the input names each posting once
  (`RAG/jobrag/sources.py:165-176` does not drop a repeated one); they are whole
  postings where a theorem says so.
* An encoder's vector depends on the profile and the text alone; a reranking
  model scores each pair by itself.
* The corpus does not change during one search. Scores are exact reals.

## Model

| member | source | states |
|---|---|---|
| OcrRow.PreparedRowsAgree | DATA/export_postgres.py:147-167 | what every record becomes on loading, case by case; the guards with and without the text_source test agree on it, and need_ocr, text source and status tell one story |
| OcrRow.InsertIsGood | DATA/export_postgres.py:177-201 | a fresh row is the record's text and images without a trace of an attempt, satisfies the queue invariant for every record, and is complete exactly when it has text if and only if the record follows the crawlers' convention |
| OcrRow.UpsertKeepsGood | DATA/export_postgres.py:39-144 | the loader's CASE table keeps every good row good, and tidy if it was, for any record, and leaves the trigger nothing to repair |
| OcrRow.UpsertInThreeCases | DATA/export_postgres.py:51-131 | on a good row the ten CASE expressions come to three whole-row cases: takeover by a complete record, restart on new images, else only the images may change |
| OcrRow.LegacyByCases | DATA/import_legacy_sqlite.py:40-98 | on a good row and any record the legacy table, with the trigger, fills missing text or first images and replaces neither |
| OcrRow.LegacyKeepsGood | DATA/import_legacy_sqlite.py:28-106 | over any record the legacy table keeps a good row good exactly when the import's verification accepts the result, and tidy exactly unless the record smuggles text in |
| OcrRow.TriggerTellsOneStory | infra/airflow/migrations/jobrag/V2__add_job_postings_ocr_queue.sql:44-80 | where need_ocr moved and the status did not, the trigger makes status, error and lease agree with need_ocr, text source and images; anything else it leaves alone |
| OcrRow.ClaimKeepsGood | DATA/ocr_postgres.py:23-58 | a claim keeps the invariant, makes the row the claiming worker's until the lease ends with one attempt more, and changes nothing else |
| OcrRow.LeaseExcludes | DATA/ocr_postgres.py:37-51 | a claimed row is claimable again exactly from its lease's end on, while attempts are left |
| OcrRow.FailureWaitsOutBackoff | DATA/ocr_postgres.py:77-92 | a failed row is claimable again exactly after its back-off, while attempts are left |
| OcrRow.SuccessKeepsGood | DATA/ocr_postgres.py:60-75 | a success leaves the text, marked as read by OCR, and nobody's row, keeping attempts and images |
| OcrRow.FailureKeepsGood | DATA/ocr_postgres.py:77-92 | a failure by the holder puts the row back for its back-off or, after the last attempt, leaves it dead, with the beginning of the error; text, images and attempts stay |
| OcrRow.ExhaustKeepsGood | DATA/ocr_postgres.py:94-112 | the sweep only ever takes processing rows that used all attempts, and leaves them dead, nobody's, with the last error or a mention of the lease; nothing else changes |
| OcrRow.BackoffDoublesToCap | DATA/ocr_postgres.py:121-122 | the first failure waits the base time, every further one twice the time before, up to the cap of 1440 minutes |
| OcrRow.PostCheckExactly | DATA/import_legacy_sqlite.py:250-276 | over any good row and any record, the import's verification rejects in exactly one case |
| OcrRow.PostCheckOnInsert | DATA/import_legacy_sqlite.py:250-276 | a row the import inserts always passes its verification |
| OcrRow.ReadyRowsAreMatched | DATA/ocr_postgres.py:27-41 | exactly when the claim and the sweep match a row: not before its retry time or lease has passed, then the claim if attempts are left and the sweep if none are |
| OcrRow.UpsertKeepsServiceable | DATA/export_postgres.py:65-97 | the loader never leaves a row with images dead before its attempts are used |
| OcrRow.LegacyStrandsExactly | DATA/import_legacy_sqlite.py:52-78 | over any record the legacy import strands a row in exactly one case |
| OcrQueue.StepKeepsInv | DATA/ocr_postgres.py:23-112 | every step of every participant, loads and imports of any record included, keeps the row invariant and the fence |
| OcrQueue.RunKeepsInv | DATA/ocr_postgres.py:196-279 | every run keeps them |
| OcrQueue.LoadersKeepFence | DATA/export_postgres.py:120-131 | a loader leaves a processing row alone or takes it out of processing |
| OcrQueue.SweepSweeps | DATA/ocr_postgres.py:94-112 | row by row: the sweep gives up exactly the exhausted rows of its source and leaves every other row as it was |
| OcrQueue.ClaimTakesOver | DATA/ocr_postgres.py:46-58 | a claim takes over one row of its worker's source and hands out that row's images and attempt number |
| OcrQueue.CompletionLeaves | DATA/ocr_postgres.py:60-92 | a completion fills in or puts back its own row while its worker still holds it, and otherwise changes nothing |
| OcrQueue.LoadWrites | DATA/export_postgres.py:224-251 | a load writes its own row alone, fresh from the record or over the row it finds |
| OcrQueue.StepMovesWorkers | DATA/ocr_postgres.py:143-174 | who each step starts, stops, gives a claim or relieves of one; every other worker stays as it was |
| OcrQueue.LostAcknowledgement | DATA/ocr_postgres.py:143-151 | a completion whose acknowledgement is lost can be sent again, lands the first time and changes nothing the second |
| OcrQueue.CrashedClaimIsTakenOver | DATA/ocr_postgres.py:37-51 | a crashed worker's row can be claimed by another from the lease's end on and not before, as the next attempt |
| OcrQueue.Fencing | DATA/ocr_postgres.py:46-58 | in every reachable state a processing row is the in-flight claim, images and attempt included, of the one worker it names |
| OcrQueue.CompletionsWriteTheirOwnClaim | DATA/ocr_postgres.py:143-174 | a completion after any run finds its row exactly as its own claim left it and writes that row alone, or changes nothing |
| OcrQueue.OneLandingPerClaim | DATA/ocr_postgres.py:71-74 | over any run at most one completion lands per claim granted, even with lost acknowledgements |
| OcrQueue.StepKeepsText | DATA/export_postgres.py:51-75 | one step keeps a completed row completed; only a complete loaded record replaces its text, never the legacy import |
| OcrQueue.CompletedTextIsNeverLost | DATA/import_legacy_sqlite.py:40-63 | along every run a completed row stays completed with non-blank text |
| OcrQueue.LoaderResetRequeues | DATA/export_postgres.py:84-97 | the loader's counter reset moves the row to pending in the same step |
| OcrQueue.StepMovesAttempts | DATA/ocr_postgres.py:48 | the counter moves only by a claim, by one, or by a reset, to zero |
| OcrQueue.AttemptBudget | DATA/ocr_postgres.py:27-48 | over any run attempts stay within the limit and claims within limit times one plus resets |
| OcrQueue.StepKeepsServiceable | DATA/import_legacy_sqlite.py:52-78 | of all steps exactly the stranding imports leave a row with images dead too early |
| OcrQueue.NoStuckWork | DATA/ocr_postgres.py:94-112 | over any run without a stranding import every reachable waiting row with images is dead with all attempts used or from a finite time on matched by exactly one of claim and sweep; one sweep of its source then leaves it dead, any idle worker of its source can claim it |
| OcrQueue.StepKeepsTidy | DATA/export_postgres.py:154-161 | the exact steps that leave a row complete without text source or waiting with text |
| OcrQueue.CompleteMeansText | DATA/export_postgres.py:154-161 | while records follow the crawlers' convention a row is complete if and only if it has text, in every reachable state |
| OcrQueue.ImportCanRefuse | DATA/import_legacy_sqlite.py:250-276 | a run from the empty table and a record whose import fails its own verification |
| OcrQueue.ImportCanStrand | DATA/import_legacy_sqlite.py:64-78 | a run from the empty table after which a row is dead, unattempted and matched by no statement at any time |
| OcrQueue.StepConservesAttempts | DATA/ocr_postgres.py:46-58 | without loads a claim uses up exactly one attempt of the table and nothing else does |
| OcrQueue.ClaimsAreConserved | DATA/ocr_postgres.py:211-221 | over any load-free run claims granted plus attempts left equal the attempts left at the start |
| OcrRuns.SettleMoves | DATA/ocr_postgres.py:125-174 | what other connections commit between two statements is a run of those of their steps that match when their turn comes |
| OcrRuns.AccountAppend | DATA/ocr_postgres.py:202-264 | a worker's counters over two runs in a row are the sums of its counters over each |
| OcrRuns.RoundWorks | DATA/ocr_postgres.py:211-264 | a claim and its completion, with what others commit before each, make one run whose only own steps are those two |
| OcrTable.ValidateRows | DATA/export_postgres.py:204-221 | accepts exactly batches whose keys have both parts and are distinct, else names the first offending record and the one it repeats |
| OcrTable.LegacyAllAt | DATA/import_legacy_sqlite.py:291-296 | with distinct keys every staged record meets the row the import found |
| OcrTable.PostCheckFindsOffenders | DATA/import_legacy_sqlite.py:254-272 | the verification rejects exactly the offending records of a batch |
| OcrTable.AcceptedImportKeepsInv | DATA/import_legacy_sqlite.py:279-300 | a batch the verification lets through keeps the table's invariant |
| OcrTable.LoadAllMoves | DATA/export_postgres.py:224-251 | loading a batch is a run of one load step per record |
| OcrTable.LegacyAllMoves | DATA/import_legacy_sqlite.py:279-300 | an accepted import is a run of one import step per record, each accepted by itself |
| OcrTable.JobPostings.MarkExhausted | DATA/ocr_postgres.py:125-130 | performs the sweep step, gives up exactly the exhausted rows of the source and no other, and returns how many there were |
| OcrTable.JobPostings.ClaimOne | DATA/ocr_postgres.py:133-140 | takes over some matching unlocked row as one step and returns its images and attempt, or there is none and nothing changes |
| OcrTable.JobPostings.MarkSuccess | DATA/ocr_postgres.py:143-151 | fills in the row if it was still held, says whether it was, and touches no other |
| OcrTable.JobPostings.MarkFailure | DATA/ocr_postgres.py:154-174 | puts the row back or leaves it dead if it was still held, touches no other, and reports what the row now says |
| OcrTable.JobPostings.LoadSnapshot | DATA/export_postgres.py:224-251 | writes all records, one load step each, or, on a bad key, none |
| OcrTable.JobPostings.ImportLegacy | DATA/import_legacy_sqlite.py:279-300 | one transaction that succeeds exactly when no key is bad and no record offends, then as one accepted import step per record; otherwise leaves the table as it was, and always keeps the invariant |
| OcrTable.JobPostings.Complete | DATA/ocr_postgres.py:223-264 | performs exactly the completion step on the worker's own claim, no other row differs, and what is reported is what it left there: the text, a retry at its time, death after the last attempt, or nothing of its own |
| OcrTable.JobPostings.TakeNext | DATA/ocr_postgres.py:212-221 | the first half of a turn: one claim after what others commit, or nothing claimable was unlocked |
| OcrTable.JobPostings.FinishClaim | DATA/ocr_postgres.py:223-264 | the second half: one completion of the claim after what others commit during the OCR |
| OcrTable.JobPostings.Round | DATA/ocr_postgres.py:211-264 | one turn is a run in which the worker takes one claim and completes it and others commit in between; drained means nothing claimable was unlocked, else the claimed row holds what is reported |
| OcrTable.JobPostings.Drain | DATA/ocr_postgres.py:196-279 | the whole loop is a run of the queue in which the worker starts, sweeps its source of exhausted rows and takes one claim and one completion per claimed key; the counters are its account of that run, the cap holds, and without loads the uncapped loop ends within the attempts left |
| IndexHash.FingerprintInjective | RAG/jobrag/model_config.py:61-63 | fingerprints tell profiles apart |
| IndexHash.SharedHashExactly | RAG/jobrag/embedding.py:171-184 | exactly when two profile and text pairs share a hash |
| IndexHash.HashSeparates | RAG/jobrag/embedding.py:171-184 | on prefixed chunk texts a shared hash means same profile and same text |
| VectorIndex.UpsertKeepsOneSpace | RAG/jobrag/store.py:202-317 | a committed call leaves every searchable vector in the runtime's space |
| VectorIndex.StaleVectorsAreReplaced | RAG/jobrag/store.py:238-299 | a searchable row that survives a call untouched was of the runtime's profile already |
| VectorIndex.OneSpaceAlways | RAG/jobrag/store.py:202-317 | any sequence of calls with any batches, profiles and failed embeddings keeps one space |
| VectorIndex.AdmittedSearchesMeetOneSpace | RAG/jobrag/store.py:57-86 | an admitted search only meets vectors of its own profile |
| VectorIndex.UpsertAt | RAG/jobrag/store.py:267-308 | where a committed call leaves each chunk id |
| VectorIndex.UpsertCounts | RAG/jobrag/store.py:313-317 | the reported numbers count exactly the rewritten, missed and orphaned chunks |
| VectorIndex.RefusedExactly | RAG/jobrag/store.py:238-299 | exactly when a call is refused: no metadata, or a profile switch that leaves out an active posting with vectors or brings a changed text without one |
| IngestLaws.BatchEndsFresh | RAG/jobrag/store.py:267-290 | after a call that missed nothing every chunk has the vector of its own text |
| IngestLaws.IncrementalEqualsRebuild | RAG/jobrag/store.py:202-317 | the batch's postings hold exactly what a rebuild from nothing stores, all others are as before |
| IngestLaws.UpsertKeepsFaithful | RAG/jobrag/store.py:268-289 | stored vectors stay embeddings of the stored text exactly when the call is refused or writes no text under another text's hash; batches without a repeated id always do |
| IngestLaws.RepeatedIdIsShadowed | RAG/jobrag/store.py:268-289 | a batch with a repeated id that stores one text under the hash of another, which then counts as unchanged |
| IngestLaws.RerunDoesNothing | RAG/jobrag/store.py:267-308 | the same chunks again write nothing, delete nothing and miss nothing |
| IngestLaws.OrderDoesNotMatter | RAG/jobrag/store.py:267-317 | the same items in another order have the same effect and counts |
| IngestLaws.WindowsMerge | RAG/jobrag/store.py:177-199 | two calls on disjoint postings equal one call on both |
| IngestLaws.WindowedIngestRefinesOneShot | RAG/run_ingest_additive.py:83-101 | windows without a shared posting give the table and totals of one call |
| IngestLaws.OnlyTheFirstCanBeRefused | RAG/jobrag/store.py:242-265 | a run gets past its windows exactly when it gets past the first, whatever profile was recorded |
| IngestLaws.WindowedSwitchExactly | RAG/jobrag/store.py:242-265 | under a profile switch, exactly when a windowed run succeeds, exactly when one call would, and that both then leave the same table and totals |
| IngestLaws.SwitchInTwoWindows | RAG/jobrag/store.py:242-265 | a profile switch that succeeds over two windows |
| IngestWindows.PlanWindows | RAG/jobrag/ingest_windows.py:9-32 | the windows permute the chunks, are non-empty, share no posting and keep the order of postings and of chunks; every window but the last has at least size chunks outside the unchanged ones, none had them before its last posting |
| IngestWindows.WindowsAreTight | RAG/jobrag/ingest_windows.py:24-29 | a closed window reaches the size only with its last posting |
| IngestWindows.PlanIsWellSized | RAG/jobrag/ingest_windows.py:23-32 | counted chunk by chunk: every window but the last has size chunks to embed, and no window had them without its last posting |
| IngestWindows.PlanKeepsOrder | RAG/jobrag/ingest_windows.py:19-24 | postings follow each other in first-seen order, each with its chunks in the order given |
| IngestWindows.WindowsAreApart | RAG/jobrag/ingest_windows.py:19-21 | no posting spans two windows |
| IngestWindows.GroupByPosting | RAG/jobrag/ingest_windows.py:19-21 | chunks grouped by posting in first-seen order |
| Embedding.EncodeWithRetry | RAG/jobrag/embedding.py:103-122 | a batch is encoded by its first reply, or by the second after a soft failure of the first; a fatal reply met on the way is fatal |
| Embedding.EmbedTexts | RAG/jobrag/embedding.py:66-100 | each text gets its own embedding exactly if the replies to its stretch of batch_size texts encode it, the run stops exactly where some batch's reply is fatal, and the counters count the texts with and without |
| Embedding.BatchesAreConsecutive | RAG/jobrag/embedding.py:84-86 | the batches are consecutive stretches of batch_size texts |
| VectorStore.PlannedWindowsEqualOneShot | RAG/run_ingest_additive.py:86-101 | the planned windows run to the end equal one call on all chunks |
| VectorStore.FinishedRunEqualsOneShot | RAG/run_ingest_additive.py:86-101 | whatever profile was recorded before, planned windows that run to the end equal one call on all chunks |
| VectorStore.Store.EnsureIndexCompatible | RAG/jobrag/store.py:57-86 | decides exactly the admission rule |
| VectorStore.Store.UnchangedChunkIds | RAG/jobrag/store.py:122-126 | exactly the chunks whose stored hash is that of their text |
| VectorStore.Store.DeleteOrphanChunks | RAG/jobrag/store.py:177-199 | removes and counts exactly the orphans of the given postings |
| VectorStore.Store.WriteChunks | RAG/jobrag/store.py:267-290 | the write loop equals the table function, with its counts |
| VectorStore.Store.UpsertChunks | RAG/jobrag/store.py:202-317 | refused calls change nothing, committed ones publish rows, orphans and profile together |
| VectorStore.Store.IngestWindow | RAG/run_ingest_additive.py:88-100 | one window: each changed chunk gets its vector exactly if its batch was encoded, and the whole window is upserted unless a reply was fatal |
| VectorStore.ChangedOnlyInOrder | RAG/run_ingest_additive.py:89 | the chunks to embed are those not unchanged, in their order |
| VectorStore.Store.IngestAdditive | RAG/run_ingest_additive.py:70-103 | a finished run equals one call on all chunks, under a profile switch too, and rebuilds its postings; without a fatal reply only a switch stops it, and before its first window; aborted it leaves exactly the windows committed so far |
| VectorStore.AdditiveIngestRebuilds | RAG/run_ingest_additive.py:86-103 | the finished loop leaves exactly the input's chunks with their own vectors and no other posting touched |
| VectorStore.WindowsCommitted | RAG/run_ingest_additive.py:83-97 | after some windows the table is what one call on just their whole postings gives |
| VectorStore.ResumeEndsTheSame | RAG/run_ingest_additive.py:83-85 | a rerun after an abort ends with the table of an uninterrupted run |
| Fusion.HigherCounts | RAG/eval/measure_v2.py:55-62 | on a list split by a score the number of higher entries is the split point |
| Fusion.CompetitionRanks | RAG/eval/measure_v2.py:55-62 | on any descending list a posting's rank is one plus the number of strictly higher scores |
| Fusion.AddAxis | RAG/eval/measure_v2.py:70-74 | one pass adds each ranked posting's reciprocal and touches nothing else |
| Fusion.RrfFuse | RAG/eval/measure_v2.py:65-75 | every posting of either prefix once, scored with the sum of its two shares spelled out as reciprocals, higher scores first and equal ones by uid |
| Fusion.RrfIsFused | RAG/eval/measure_v2.py:70-74 | a posting's share of a list is one over the constant plus one plus the number of strictly higher entries, and nothing where it is not listed |
| Fusion.NoWorseContributes | RAG/jobrag/search.py:213-221 | no worse on an axis contributes no less, strictly better contributes more |
| Fusion.FusionIsMonotone | RAG/eval/measure_v2.py:65-75 | no worse on both axes never fuses lower; strictly better on one, strictly higher |
| SearchAxes.FilterMeansSatisfies | RAG/jobrag/search.py:88-205 | the strict SQL filter is the Python row test, relaxing only widens, unset axes change nothing |
| SearchAxes.FilterSpelledOut | RAG/jobrag/search.py:88-98 | what the filter and the row test ask for: active, a shared region, no more years required than there are, where asked and not relaxed |
| SearchAxes.BestPerPosting | RAG/jobrag/search.py:171-177 | the earliest best chunk of every eligible posting above the floor |
| SearchAxes.Bm25Axis | RAG/jobrag/search.py:151-180 | the top of the pool, higher scores first and equal ones by uid, each posting with its earliest best chunk |
| SearchAxes.DenseAxis | RAG/jobrag/search.py:103-117 | at most the limit, one per posting, nearest first, leaving out only what is no nearer |
| SearchRound.DenseRanks | RAG/jobrag/search.py:213-214 | sequential ranks by place |
| SearchRound.Bm25Ranks | RAG/jobrag/search.py:217-222 | competition ranks with the listed chunk |
| SearchRound.SearchOnce | RAG/jobrag/search.py:208-252 | one hit per listed posting with its fused score spelled out and its tier, exact hits first, then higher scores, then by uid, and only beaten hits cut off |
| SearchRound.HitIsScored | RAG/jobrag/search.py:229-234 | a hit's score is one over the constant plus its dense place, plus one over the constant plus its BM25 rank |
| SearchTies.DenseShareFollowsDistanceExactly | RAG/jobrag/search.py:213-214 | the dense share follows the distance exactly where no two listed postings are equally near |
| SearchTies.FusesInOrderExactly | RAG/jobrag/search.py:213-236 | for two given lists fusion follows both axes exactly where the later of no tied pair is wronged |
| SearchTies.FusesInOrderAlwaysExactly | RAG/jobrag/search.py:213-236 | fusion follows both axes whatever BM25 returns exactly where the dense list has no ties |
| SearchTies.DenseShareOrder | RAG/jobrag/search.py:231-234 | the dense share is ordered by list place and by nothing else |
| SearchTies.NoWorseHitLeads | RAG/jobrag/search.py:224-250 | without dense ties a hit of the same tier no worse on both axes is ranked no lower, but for the uid tie-break |
| SearchTies.DominatingHitLeads | RAG/jobrag/search.py:224-250 | with ties too, a hit placed before another and no worse on BM25 is not ranked below it |
| SearchTies.NearerComesFirst | RAG/jobrag/search.py:108-114 | a strictly nearer posting is placed first |
| SearchTies.TwinsAreSplit | RAG/jobrag/search.py:213-236 | a corpus of two postings equal on both axes whose fused scores differ in every round |
| SearchRound.ShortRoundIsComplete | RAG/jobrag/search.py:208-252 | a round shorter than the candidate limit found everything its filters admit |
| SearchRound.StrictHitsAreExact | RAG/jobrag/search.py:326 | the strict round's hits are all exact |
| SearchRound.RelaxingFindsNoExactHit | RAG/jobrag/search.py:326-349 | after a short strict round relaxed rounds find no new exact posting |
| HybridSearch.MergeRound | RAG/jobrag/search.py:339-343 | keeps every earlier hit, adds exactly the unseen ones, distinct and sorted |
| HybridSearch.MergeKeepsStrictTier | RAG/jobrag/search.py:341-343 | inexact additions leave the strict hits in place at the front |
| HybridSearch.InactiveAxesKeepPools | RAG/jobrag/search.py:335-338 | skipping rounds that relax only unset axes loses nothing |
| HybridSearch.RoundIsSound | RAG/jobrag/search.py:224-246 | every hit of a round passes the round's filter and is flagged exact as its posting is |
| HybridSearch.StrictRoundIsSafe | RAG/jobrag/search.py:326 | the strict search's hits are exact, sorted, distinct and, if few, all there are |
| HybridSearch.MergedRoundFacts | RAG/jobrag/search.py:338-343 | merging any round keeps every earlier hit, the strict tier in place and completeness when short |
| HybridSearch.Relax | RAG/jobrag/search.py:328-349 | the result is the strict list with the rounds of exactly the active prefixes merged in, each searched while hits were too few; it keeps the strict hits as the exact tier, every hit passes the relaxed filter and is flagged exact as its posting is, and the loop gives up short only when everything reachable was found |
| HybridSearch.ActivePrefixesSpelledOut | RAG/jobrag/search.py:332-338 | the rounds worth a search are the prefixes that lift a condition on regions or experience that was asked for |
| HybridSearch.ApplyRerank | RAG/jobrag/search.py:282-310 | each hit of the prefix gets the scorer's answer to its own pair; in each tier scored hits lead, higher scores first, ties by fused score and uid; no answer leaves the list as it was |
| HybridSearch.ReranksAreRight | RAG/jobrag/search.py:295-310 | own scores and their order, stated over the hits' fields |
| HybridSearch.RerankKeepsTiers | RAG/jobrag/search.py:304-309 | reranking permutes only the first RERANK_TOP_N and never across tiers |
| HybridSearch.ReranksKeepsSound | RAG/jobrag/search.py:282-310 | reranking changes no posting's filter test and no flag |
| HybridSearch.Search | RAG/jobrag/search.py:313-357 | strict search, relaxation, rerank and cut end to end over one corpus: every returned hit passes the reported filter and is flagged exact exactly if its posting meets all conditions; distinct uids, exact before relaxed, best scored first in each tier, the strict search's hits kept as the exact tier, complete when short |
| RerankQueue.StepKeepsInv | RAG/jobrag/reranker.py:175-243 | every locked section, expiry and execution keeps the accounting of tickets and the answers' being each ticket's own |
| RerankQueue.SubmitSpelledOut | RAG/jobrag/reranker.py:175-187 | a submission queues its ticket; a full queue leaves as a batch and its timer, if still waiting, is over; a queue without a timer gets one |
| RerankQueue.TimerSpelledOut | RAG/jobrag/reranker.py:193-208 | an expired timer commits to its callback, which empties the queue and forgets its timer |
| RerankQueue.ExecuteSpelledOut | RAG/jobrag/reranker.py:210-243 | a batch is executed once and answers its own tickets alone |
| RerankQueue.HandedOwnScores | RAG/jobrag/reranker.py:218-237 | through concatenation and slicing each ticket gets what its own pairs score alone |
| RerankQueue.OwnSlice | RAG/jobrag/reranker.py:218-236 | between a slot's boundaries lie what its own pairs score alone |
| RerankQueue.AnswersAreFinal | RAG/jobrag/reranker.py:210-243 | an answer once given never changes |
| RerankQueue.NoLostWakeup | RAG/jobrag/reranker.py:193-208 | in every reachable state waiting slots have a timer whose callback has yet to run and takes them all |
| RerankQueue.StepUsesWork | RAG/jobrag/reranker.py:193-203 | every step but a submission uses up work |
| RerankQueue.QuiescenceIsReached | RAG/jobrag/reranker.py:175-208 | after the last submission a run is at most as long as the work left |
| RerankQueue.QuiescentIsServed | RAG/jobrag/reranker.py:175-208 | where nothing but a submission is possible no ticket waits and every batch has run |
| RerankQueue.EachTicketInOneBatch | RAG/jobrag/reranker.py:200-203 | no ticket is in two batches, twice in one, or in a batch and still waiting |
| RerankQueue.EveryTicketIsServedOnce | RAG/jobrag/reranker.py:175-243 | at rest every ticket ever submitted is at one place of one executed batch and answered with its own pairs' scores or the fallback |
| Reranker.ParseScores | RAG/jobrag/reranker.py:87-106 | accepts exactly a permutation of the indexes with scores in range, and returns each score at its index |
| Reranker.Predict | RAG/jobrag/reranker.py:45-74 | answers are refused exactly when some request's reply is missing or invalid, and an honest provider's accepted answers are the pairs' scores in order |
| Reranker.ClipKeepsBeginning | RAG/jobrag/reranker.py:50-54 | a candidate keeps its query and the first characters of its text |
| Reranker.Concatenate | RAG/jobrag/reranker.py:218-223 | one concatenation and the boundaries of each slot |
| Reranker.ExecuteBatch | RAG/jobrag/reranker.py:210-243 | every slot is completed, with its own pairs' scores, or all of them with the fallback |
| Reranker.BatchQueue.RunBatch | RAG/jobrag/reranker.py:189-198 | running a drained batch performs the execution step, completes its slots and leaves all others as they were |
| Reranker.BatchIsReady | RAG/jobrag/reranker.py:193-203 | in every reachable state each batch that has not run can be run |
| Reranker.AtRestEverySlotIsDone | RAG/jobrag/reranker.py:256-260 | at rest every slot ever issued is done and its caller reads its own pairs' scores or the fallback |
| Reranker.BatchQueue.Expire | RAG/jobrag/reranker.py:183-186 | a waiting timer commits to its callback |
| Reranker.BatchQueue.Submit | RAG/jobrag/reranker.py:175-187 | the locked section performs the step and returns the batch it drained |
| Reranker.BatchQueue.OnTimeout | RAG/jobrag/reranker.py:193-196 | the callback's locked section performs the step and takes all waiting slots |
| Reranker.BatchQueue.CancelTimer | RAG/jobrag/reranker.py:205-208 | forgets the timer; cancels it only while it waits |
| Reranker.BatchQueue.Drain | RAG/jobrag/reranker.py:200-203 | hands over the slots and leaves none |
| ItemSplit.FieldsWeaveBack | RAG/jobrag/chunking.py:21-34 | the body is its fields with the separators in between and nothing else |
| ItemSplit.SeparatorsSeparate | RAG/jobrag/chunking.py:21 | every separator is a newline, alone or with a bullet or number and spaces |
| ItemSplit.FieldsSplitRight | RAG/jobrag/chunking.py:21-34 | each field ends at the first newline and the separator behind it is as long as a separator can be, which fixes the split |
| ItemSplit.FieldsHoldNoNewline | RAG/jobrag/chunking.py:21-34 | no field holds a newline |
| ItemSplit.ItemsAreClean | RAG/jobrag/chunking.py:33-34 | items are stripped and not empty, and only blank fields leave none |
| ItemSplit.StripBlank | RAG/jobrag/chunking.py:34-39 | stripping empties exactly the blank texts |
| ItemSplit.StripTrims | RAG/jobrag/chunking.py:34-39 | stripping takes away white space at the two ends and nothing else |
| ItemSplit.ItemsKeepOrder | RAG/jobrag/chunking.py:33-34 | the items are the stripped fields in order, passing over blank ones only |
| ItemSplit.ItemsHoldNoNewline | RAG/jobrag/chunking.py:33-34 | every item is one line |
| ItemSplit.SomethingLeavesAnItem | RAG/jobrag/chunking.py:39-56 | a stripped body with anything in it has an item |
| Chunking.ChunkPosting | RAG/jobrag/chunking.py:37-78 | a short body is one whole chunk; the chunks of a long one render a plan that restores its items in order and closes a run only where it must, and their own texts, cut at newlines and read in order, give these items back; a posting with any text has a chunk |
| Chunking.PlanTellsItems | RAG/jobrag/chunking.py:42-77 | every chunk is numbered, counted and flagged as it should be, and reading the chunks' texts back restores the items |
| Chunking.PlanAt | RAG/jobrag/chunking.py:55-77 | every run is within the target or one new item, is led by the previous run's last item exactly when it follows a run, and follows one only because the next item did not fit in; only oversized items are cut, completely |
| Chunking.CutItem | RAG/jobrag/chunking.py:61-69 | the forced parts rejoin to the item |
| Chunking.CarryOver | RAG/jobrag/chunking.py:70-75 | the next run opens with the last item and adds one |
| Chunking.ExtendRun | RAG/jobrag/chunking.py:74-75 | a run within the target takes one more item |
| Chunking.ChunksArePrefixed | RAG/jobrag/chunking.py:42-49 | every chunk opens with the posting's context and numbers are distinct |
| Ndcg.DcgInLayers | RAG/eval/core.py:29-30 | discounted gain splits into one layer per grade threshold |
| Ndcg.GradesSpelledOut | RAG/eval/core.py:11 | two for a posting judged correct, one for ambiguous, none for any other or none at all |
| Ndcg.NdcgIsShare | RAG/eval/core.py:33-37 | times the ideal, nDCG is the discounted gain of the first k; without an ideal it is 0 |
| Ndcg.HitsAtBestOnTop | RAG/eval/core.py:29-30 | hits anywhere weigh at most what the first positions weigh |
| Ndcg.RankingHitsAtMostJudged | RAG/eval/core.py:34-35 | a duplicate-free ranking never hits more than was judged |
| Ndcg.IdealIsBest | RAG/eval/core.py:33-37 | no ranking without a repeat among its first k has a DCG@k above the sorted judgements' |
| Ndcg.NdcgInUnitInterval | RAG/eval/core.py:33-37 | for such rankings nDCG lies in [0, 1] |
| Ndcg.BoundHoldsExactly | RAG/eval/core.py:33-37 | nDCG stays within 1 under all judgements exactly for the rankings without a repeat among their first k |
| Ndcg.IdealIsPositive | RAG/eval/core.py:36-37 | the ideal is positive exactly when something relevant is judged and k is positive |
| Ndcg.OracleAttains | RAG/eval/run.py:249-252 | the grade-sorted oracle scores 1 exactly where anything can score, else 0 |
| Ndcg.RepeatGoesPastIdeal | RAG/eval/core.py:33-37 | any ranking with such a repeat exceeds 1 under the judgements that find all of it relevant |
| Dedup.NormalFormIsFixed | DATA/merge_job_postings.py:43-45 | normalising a normalised text changes nothing |
| Dedup.NormalCharacter | DATA/merge_job_postings.py:43-45 | what normalising does to each character |
| Dedup.NormalOfAppend | DATA/merge_job_postings.py:43-45 | normalising works character by character |
| Dedup.SameKeyExactly | DATA/merge_job_postings.py:74-80 | exactly when two rows have one key: same company and title where both have these, else same site and id |
| Dedup.QLeqIsPreorder | DATA/merge_job_postings.py:83-94 | quality tuples are totally and transitively ordered |
| Dedup.BetterIsRicher | DATA/merge_job_postings.py:83-94 | a row displaces another exactly if it is richer: readable first, then longer text, then more of the five fields, then collected later |
| Dedup.WinnerIsEarliestBest | DATA/merge_job_postings.py:165-169 | a key's row is its earliest row of maximal quality |
| Dedup.DedupKeepsTheBest | DATA/merge_job_postings.py:158-170 | each key once, at its first place, with that row |
| Dedup.DedupIsRight | DATA/merge_job_postings.py:158-170 | the same stated over the rows' fields: each kept row is no poorer than any row of its posting and richer than those before it |
| Dedup.DedupIsHomomorphic | DATA/merge_job_postings.py:158-170 | deduplicating either half first gives the same result |
| Dedup.Deduplicate | DATA/merge_job_postings.py:158-170 | every posting is kept exactly once, as the first of its richest rows, and kept plus duplicates is the input length |
| Plateau.Best | RAG/eval/measure_v2.py:178 | the maximum and the first key that reaches it |
| Plateau.Runs | RAG/eval/measure_v2.py:183-193 | exactly the maximal runs of eligible keys, in order |
| Plateau.LongestIsFirst | RAG/eval/measure_v2.py:194 | max by length picks the first of the longest runs |
| Plateau.ChoiceIsRight | RAG/eval/measure_v2.py:178-195 | the choice stated over scores: within 0.01 of the best, the default if it is, else the middle of the first longest stretch of such scores |
| Plateau.PlateauPick | RAG/eval/measure_v2.py:176-198 | a swept key within the tolerance of the best: the default if eligible, else the middle of the first longest run |

## Left out

- The claim's ORDER BY preference: with SKIP LOCKED any matching row may be taken, and the theorems hold for any choice.
- Descriptive COALESCE columns, `collected_at`, `ocr_updated_at` and `ocr_last_attempt_at` of `job_postings`.
- Rows inserted without a status, which the trigger fills in: no modelled writer does that.
- BATCH slicing of the rendered SQL, SQL quoting, JSON and SQLite reading, and the staging table's own checks, which normalised records pass.
- `upsert_postings` and reactivation of inactive postings: the vector-space property takes the active set as fixed.
- `part`, `tokens`, `forced_split` and `needs_review` of a chunk whose hash is unchanged: the source does not refresh them either.
- `run_rechunk_stale.py`: it passes only changed chunks, so the whole-posting condition does not hold for it.
- Embedding, BM25, tokenizer, OCR and cross-encoder internals; SHA-1; the BM25 cache's refresh rule.
- Fusion.FusionIsMonotone: speaks of competition ranks on both axes, as the evaluation fuses; the search's sequential dense ranks have SearchTies.FusesInOrderExactly instead.
- Rounding of fused scores to six digits and of reported similarities.
- Descriptive fields of a search hit, and the queries that fetch rerank texts: the texts are a parameter.
- `json.loads` and the type checks on a provider's raw answer: parsing starts from decoded entries; non-finite scores do not exist among reals.
- Model loading, environment settings, locks and events themselves: a locked section is one step.
- The wording of the context prefix: it is a parameter of a posting.
- The rounded copy of the curve that `plateau_pick` also returns.
- Crawlers, HTML parsing, LLM judging, dashboards, web servers and the frontend.
