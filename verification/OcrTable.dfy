/** The job_postings table as the connections see it: validate_rows, the two
    loaders and the worker's main loop, each proved to move the table by steps of
    the transition system of OcrQueue. */
module OcrTable {
  import opened Common
  import opened OcrRow
  import opened OcrQueue
  import opened OcrRuns

  datatype Record = Record(key: Key, raw: RawRow)

  datatype LoadError =
    | NoRecords
    | MissingKey(index: nat)
    | DuplicateKey(first: nat, index: nat)
    | VerificationFailed

  predicate HasKey(k: Key) {
    k.source != "" && k.postingId != ""
  }

  predicate ValidKeys(records: seq<Record>) {
    && (forall i :: 0 <= i < |records| ==> HasKey(records[i].key))
    && (forall i, j :: 0 <= i < j < |records| ==> records[i].key != records[j].key)
  }

  /** Accepts exactly the batches with complete, distinct keys; otherwise names
      the first offending record and, for a duplicate, the record it repeats. */
  method ValidateRows(records: seq<Record>) returns (error: Option<LoadError>)
    ensures error.None? <==> ValidKeys(records)
    ensures error.None? <==>
      && (forall i :: 0 <= i < |records| ==> records[i].key.source != "" && records[i].key.postingId != "")
      && (forall i, j :: 0 <= i < j < |records| ==>
            records[i].key.source != records[j].key.source || records[i].key.postingId != records[j].key.postingId)
    ensures error.Some? ==>
      match error.value
      case MissingKey(i) => i < |records| && !HasKey(records[i].key) && ValidKeys(records[..i])
      case DuplicateKey(f, i) => f < i < |records| && records[f].key == records[i].key && ValidKeys(records[..i])
      case _ => false
  {
    var seen: map<Key, nat> := map[];
    for i := 0 to |records|
      invariant ValidKeys(records[..i])
      invariant forall k :: k in seen ==> seen[k] < i && records[seen[k]].key == k
      invariant forall j :: 0 <= j < i ==> records[j].key in seen
    {
      var key := records[i].key;
      if !HasKey(key) {
        return Some(MissingKey(i));
      }
      if key in seen {
        return Some(DuplicateKey(seen[key], i));
      }
      seen := seen[key := i];
    }
    assert records[..|records|] == records;
    return None;
  }

  // ------------------------------------------------------- batches as functions

  /** The table after the records were loaded one by one. */
  function LoadAll(rows: map<Key, Row>, records: seq<Record>): map<Key, Row> {
    if records == [] then rows
    else
      var last := records[|records| - 1];
      LoadRows(LoadAll(rows, records[..|records| - 1]), last.key, Prepare(last.raw))
  }

  function LegacyAll(rows: map<Key, Row>, records: seq<Record>): map<Key, Row> {
    if records == [] then rows
    else
      var last := records[|records| - 1];
      LegacyRows(LegacyAll(rows, records[..|records| - 1]), last.key, Prepare(last.raw))
  }

  predicate AllFollowCrawler(records: seq<Record>) {
    forall i :: 0 <= i < |records| ==> FollowsCrawler(records[i].raw)
  }

  lemma {:induction false} LoadAllKeepsInv(maxAttempts: nat, s: State, records: seq<Record>)
    requires Inv(maxAttempts, s)
    ensures Inv(maxAttempts, s.(rows := LoadAll(s.rows, records)))
  {
    if records == [] {
    } else {
      var last := records[|records| - 1];
      var front := records[..|records| - 1];
      LoadAllKeepsInv(maxAttempts, s, front);
      LoadKeepsInv(maxAttempts, s.(rows := LoadAll(s.rows, front)), last.key, last.raw);
    }
  }

  lemma {:induction false} LegacyAllElsewhere(rows: map<Key, Row>, records: seq<Record>, k: Key)
    requires forall i :: 0 <= i < |records| ==> records[i].key != k
    ensures k in LegacyAll(rows, records) <==> k in rows
    ensures k in rows ==> LegacyAll(rows, records)[k] == rows[k]
  {
    if records == [] {
    } else {
      LegacyAllElsewhere(rows, records[..|records| - 1], k);
    }
  }

  /** With distinct keys every record meets the row the import found, not one it wrote. */
  lemma {:induction false} LegacyAllAt(rows: map<Key, Row>, records: seq<Record>, i: nat)
    requires forall a, b :: 0 <= a < b < |records| ==> records[a].key != records[b].key
    requires i < |records|
    ensures records[i].key in LegacyAll(rows, records)
    ensures LegacyAll(rows, records)[records[i].key] == LegacyRows(rows, records[i].key, Prepare(records[i].raw))[records[i].key]
  {
    var n := |records| - 1;
    var front := records[..n];
    if i == n {
      LegacyAllElsewhere(rows, front, records[n].key);
    } else {
      LegacyAllAt(rows, front, i);
    }
  }

  /** The one kind of record on which the import's verification raises. */
  predicate Offends(rows: map<Key, Row>, rec: Record) {
    && rec.key in rows
    && SmugglesText(rows[rec.key], rec.raw)
    && rows[rec.key].status != (if rec.raw.images != [] then Pending else Dead)
  }

  lemma PostCheckFindsOffenders(maxAttempts: nat, s: State, records: seq<Record>, i: nat)
    requires Inv(maxAttempts, s) && ValidKeys(records) && i < |records|
    ensures records[i].key in LegacyAll(s.rows, records)
    ensures PostCheck(LegacyAll(s.rows, records)[records[i].key]) <==> !Offends(s.rows, records[i])
  {
    var rec := records[i];
    LegacyAllAt(s.rows, records, i);
    if rec.key in s.rows {
      PostCheckExactly(s.rows[rec.key], rec.raw, maxAttempts);
    } else {
      PostCheckOnInsert(rec.raw);
    }
  }

  /** A batch the verification lets through keeps the table's invariant. */
  lemma {:induction false} AcceptedImportKeepsInv(maxAttempts: nat, s: State, records: seq<Record>)
    requires Inv(maxAttempts, s) && ValidKeys(records)
    requires forall i :: 0 <= i < |records| ==> !Offends(s.rows, records[i])
    ensures Inv(maxAttempts, s.(rows := LegacyAll(s.rows, records)))
  {
    if records == [] {
    } else {
      var n := |records| - 1;
      var last := records[n];
      AcceptedImportKeepsInv(maxAttempts, s, records[..n]);
      LegacyAllElsewhere(s.rows, records[..n], last.key);
      LegacyAllAt(s.rows, records, n);
      PostCheckFindsOffenders(maxAttempts, s, records, n);
      LoadKeepsInv(maxAttempts, s.(rows := LegacyAll(s.rows, records[..n])), last.key, last.raw);
    }
  }

  function LoadSteps(records: seq<Record>): seq<Step> {
    if records == [] then []
    else LoadSteps(records[..|records| - 1]) + [Load(records[|records| - 1].key, records[|records| - 1].raw)]
  }

  function LegacySteps(records: seq<Record>): seq<Step> {
    if records == [] then []
    else
      LegacySteps(records[..|records| - 1]) + [LegacyLoad(records[|records| - 1].key, records[|records| - 1].raw)]
  }

  /** Loading a batch is loading its records, one step each. */
  lemma {:induction false} LoadAllMoves(maxAttempts: nat, s: State, records: seq<Record>)
    ensures Moves(maxAttempts, s, LoadSteps(records), s.(rows := LoadAll(s.rows, records)))
  {
    if records == [] {
    } else {
      var last := records[|records| - 1];
      var t := s.(rows := LoadAll(s.rows, records[..|records| - 1]));
      LoadAllMoves(maxAttempts, s, records[..|records| - 1]);
      OneStepMoves(maxAttempts, t, Load(last.key, last.raw));
      MovesOn(maxAttempts, s, LoadSteps(records[..|records| - 1]), t, [Load(last.key, last.raw)],
              s.(rows := LoadAll(s.rows, records)));
    }
  }

  /** An accepted import is its records' imports, each accepted by itself. */
  lemma {:induction false} LegacyAllMoves(maxAttempts: nat, s: State, records: seq<Record>)
    requires Inv(maxAttempts, s) && ValidKeys(records)
    requires forall i :: 0 <= i < |records| ==> !Offends(s.rows, records[i])
    ensures Moves(maxAttempts, s, LegacySteps(records), s.(rows := LegacyAll(s.rows, records)))
  {
    if records == [] {
    } else {
      var n := |records| - 1;
      var last := records[n];
      var t := s.(rows := LegacyAll(s.rows, records[..n]));
      LegacyAllMoves(maxAttempts, s, records[..n]);
      PostCheckFindsOffenders(maxAttempts, s, records, n);
      OneStepMoves(maxAttempts, t, LegacyLoad(last.key, last.raw));
      MovesOn(maxAttempts, s, LegacySteps(records[..n]), t, [LegacyLoad(last.key, last.raw)],
              s.(rows := LegacyAll(s.rows, records)));
    }
  }

  /** Every row the claim statement would match is locked by somebody else. */
  predicate NothingToClaim(rows: map<Key, Row>, source: string, maxAttempts: nat, now: int, locked: set<Key>) {
    forall k :: k in rows && Matches(rows, k, source, maxAttempts, now) ==> k in locked
  }

  // ------------------------------------------------------------ a worker's turns

  /** The completion the OCR's outcome asks for. */
  function Report(w: string, text: Option<string>, baseMinutes: nat, now: int): Step {
    match text
    case Some(t) => Finish(w, t, true)
    case None => Fail(w, "insufficient_ocr_text", baseMinutes, now, true)
  }

  /** What one execution of main is given, and what its rounds meet: clock(n) and
      later(n) are the times of the n-th claim and of its completion, locked(n) the
      rows others hold locked, ocr(n) the text found, before(n) and during(n) what
      everybody else commits before the claim and during the OCR. */
  datatype Shift = Shift(worker: string, source: string, cap: nat, leaseMinutes: int, baseMinutes: nat,
                         clock: nat -> int, later: nat -> int, locked: nat -> set<Key>, ocr: nat -> Option<string>,
                         before: nat -> seq<Step>, during: nat -> seq<Step>)

  /** Usable texts, other workers, and no loader where nothing else ends the loop. */
  ghost predicate Sensible(shift: Shift) {
    && (forall n :: shift.ocr(n).Some? ==> !Blank(shift.ocr(n).value))
    && (forall n :: AllForeign(shift.before(n), shift.worker) && AllForeign(shift.during(n), shift.worker))
    && (shift.cap == 0 ==> NoLoads(shift))
  }

  ghost predicate NoLoads(shift: Shift) {
    forall n, st :: st in shift.before(n) || st in shift.during(n) ==> !IsLoad(st)
  }

  /** The worker's own two steps in its n-th round: a claim and its completion. */
  function Turn(shift: Shift, key: Key, n: nat): seq<Step> {
    [ClaimNext(shift.worker, key, shift.leaseMinutes, shift.clock(n)),
     Report(shift.worker, shift.ocr(n), shift.baseMinutes, shift.later(n))]
  }

  /** The n-th round's own steps, if there was a row to claim. */
  function TurnOf(shift: Shift, claim: Option<Claim>, n: nat): seq<Step> {
    match claim
    case None => []
    case Some(c) => Turn(shift, c.key, n)
  }

  /** The worker's own steps over as many rounds as there are claimed keys. */
  function Turns(shift: Shift, keys: seq<Key>): seq<Step> {
    if keys == [] then []
    else Turns(shift, keys[..|keys| - 1]) + Turn(shift, keys[|keys| - 1], |keys| - 1)
  }

  function Opening(shift: Shift): seq<Step> {
    [Start(shift.worker, shift.source), Sweep(shift.source, shift.clock(0))]
  }

  /** No round claimed a row that was locked then. */
  ghost predicate NoneLocked(shift: Shift, keys: seq<Key>) {
    forall n :: 0 <= n < |keys| ==> keys[n] !in shift.locked(n)
  }

  lemma NoneLockedGrows(shift: Shift, keys: seq<Key>, claim: Option<Claim>)
    requires NoneLocked(shift, keys)
    requires claim.Some? ==> claim.value.key !in shift.locked(|keys|)
    ensures NoneLocked(shift, KeysAfter(keys, claim))
    ensures |KeysAfter(keys, claim)| == |keys| + if claim.Some? then 1 else 0
  {
  }

  /** The run starts the worker and sweeps its source, and the rest follows from there. */
  ghost predicate Opened(maxAttempts: nat, shift: Shift, s: State, run: seq<Step>, t: State) {
    exists mid: State, rest: seq<Step> ::
      && run == Opening(shift) + rest
      && mid.workers == s.workers[shift.worker := Worker(shift.source, None, false)]
      && Swept(s.rows, mid.rows, shift.source, maxAttempts, shift.clock(0))
      && Moves(maxAttempts, mid, rest, t)
  }

  lemma OpenedGrows(maxAttempts: nat, shift: Shift, s: State, run: seq<Step>, t: State, more: seq<Step>, u: State)
    requires Opened(maxAttempts, shift, s, run, t) && Moves(maxAttempts, t, more, u)
    ensures Opened(maxAttempts, shift, s, run + more, u)
  {
    var mid: State, rest: seq<Step> :|
      && run == Opening(shift) + rest
      && mid.workers == s.workers[shift.worker := Worker(shift.source, None, false)]
      && Swept(s.rows, mid.rows, shift.source, maxAttempts, shift.clock(0))
      && Moves(maxAttempts, mid, rest, t);
    MovesOn(maxAttempts, mid, rest, t, more, u);
    Regroup(Opening(shift), rest, more);
  }

  /** How far main has come: it started, swept, and then only took its turns, one
      per claimed key; the counters are the worker's account of the run. */
  ghost predicate Drains(maxAttempts: nat, shift: Shift, s: State, run: seq<Step>, t: State, keys: seq<Key>,
                         tally: Tally) {
    && Opened(maxAttempts, shift, s, run, t)
    && |keys| == tally.claimed
    && NoneLocked(shift, keys)
    && Worked(maxAttempts, s, run, t, shift.worker,
              [Start(shift.worker, shift.source)] + Turns(shift, keys), tally)
    && tally.claimed == tally.filled + tally.retryWait + tally.dead + tally.lostLease
    && (shift.cap != 0 ==> tally.claimed <= shift.cap)
  }

  lemma DrainsOpening(maxAttempts: nat, shift: Shift, s: State, t: State)
    requires Worked(maxAttempts, s, Opening(shift), t, shift.worker, [Start(shift.worker, shift.source)], NO_ENTRY)
    requires t.workers == s.workers[shift.worker := Worker(shift.source, None, false)]
    requires Swept(s.rows, t.rows, shift.source, maxAttempts, shift.clock(0))
    ensures Drains(maxAttempts, shift, s, Opening(shift), t, [], NO_ENTRY)
  {
    EmptyIsUnit([Start(shift.worker, shift.source)]);
    EmptyIsUnit(Opening(shift));
    assert Moves(maxAttempts, t, [], t);
  }

  /** One more round of the worker, on a row or on none, on top of a run. */
  lemma TurnTaken(maxAttempts: nat, shift: Shift, s: State, run: seq<Step>, t: State, more: seq<Step>, u: State,
                  first: seq<Step>, keys: seq<Key>, tally: Tally, claim: Option<Claim>, result: Tally)
    requires Worked(maxAttempts, s, run, t, shift.worker, first + Turns(shift, keys), tally)
    requires Worked(maxAttempts, t, more, u, shift.worker, TurnOf(shift, claim, |keys|), result)
    ensures Worked(maxAttempts, s, run + more, u, shift.worker, first + Turns(shift, KeysAfter(keys, claim)),
                   tally.Plus(result))
  {
    WorkedOn(maxAttempts, s, run, t, more, u, shift.worker, first + Turns(shift, keys), tally,
             TurnOf(shift, claim, |keys|), result);
    if claim.Some? {
      TurnsGrow(shift, keys, claim.value.key);
      Regroup(first, Turns(shift, keys), Turn(shift, claim.value.key, |keys|));
    } else {
      EmptyIsUnit(first + Turns(shift, keys));
    }
  }

  function KeysAfter(keys: seq<Key>, claim: Option<Claim>): seq<Key> {
    if claim.Some? then keys + [claim.value.key] else keys
  }

  lemma DrainsOn(maxAttempts: nat, shift: Shift, s: State, run: seq<Step>, t: State, more: seq<Step>, u: State,
                 keys: seq<Key>, tally: Tally, claim: Option<Claim>, result: RoundResult)
    requires Drains(maxAttempts, shift, s, run, t, keys, tally)
    requires shift.cap == 0 || tally.claimed < shift.cap
    requires result.Drained? <==> claim.None?
    requires claim.Some? ==> claim.value.key !in shift.locked(|keys|)
    requires Worked(maxAttempts, t, more, u, shift.worker, TurnOf(shift, claim, |keys|), TallyOf(result))
    ensures Drains(maxAttempts, shift, s, run + more, u, KeysAfter(keys, claim), tally.Plus(TallyOf(result)))
  {
    TurnTaken(maxAttempts, shift, s, run, t, more, u, [Start(shift.worker, shift.source)], keys, tally, claim,
              TallyOf(result));
    TallyAdds(tally, result);
    NoneLockedGrows(shift, keys, claim);
    OpenedGrows(maxAttempts, shift, s, run, t, more, u);
  }

  lemma TurnsGrow(shift: Shift, keys: seq<Key>, key: Key)
    ensures Turns(shift, keys + [key]) == Turns(shift, keys) + Turn(shift, key, |keys|)
  {
    DropLast(keys, key);
  }

  /** What a finished round left in the claimed row: the text, a retry at its time,
      or death after the last attempt. Where the lease was lost the row is not
      this worker's any more. */
  ghost predicate LeftBehind(rows: map<Key, Row>, maxAttempts: nat, claim: Claim, result: RoundResult,
                             text: Option<string>,
                             baseMinutes: nat, now: int) {
    match result
    case Drained => false
    case LostLease => true
    case Filled =>
      && text.Some? && claim.key in rows
      && var r := rows[claim.key];
         r.needOcr == X && r.status.Succeeded? && r.body == text.value && r.textSource == FromOcr
         && r.attempts == claim.attempt && r.images == claim.images
    case WillRetry =>
      && text.None? && claim.key in rows
      && var r := rows[claim.key];
         r.status.RetryWait? && r.attempts == claim.attempt < maxAttempts && r.images == claim.images
         && r.nextRetry == Some(now + RetryDelayMinutes(claim.attempt, baseMinutes))
    case GaveUp =>
      && text.None? && claim.key in rows
      && var r := rows[claim.key];
         r.status.Dead? && r.needOcr == O && r.attempts == claim.attempt == maxAttempts && r.images == claim.images
  }

  // ------------------------------------------------------------------ the table

  /** What a claim made of its row: the worker's, with one attempt more; the claim names
      that attempt and the row's images. */
  ghost predicate Claimed(before: map<Key, Row>, after: map<Key, Row>, claim: Claim, w: string, leaseMinutes: int,
                          now: int) {
    && claim.key in before && claim.key in after && SameElsewhere(before, after, claim.key)
    && TakenOver(before[claim.key], after[claim.key], w, leaseMinutes, now)
    && claim.images == before[claim.key].images && claim.attempt == before[claim.key].attempts + 1
  }

  /** What a completion that landed made of the claimed row. */
  ghost predicate Reported(before: map<Key, Row>, after: map<Key, Row>, maxAttempts: nat, claim: Claim,
                           text: Option<string>, baseMinutes: nat, now: int) {
    && claim.key in before && claim.key in after
    && match text
       case Some(t) => FilledIn(before[claim.key], after[claim.key], t)
       case None => PutBack(before[claim.key], after[claim.key], claim.attempt, maxAttempts, baseMinutes,
                            "insufficient_ocr_text", now)
  }

  /** How a round must end that completes with this step. */
  function ResultOf(maxAttempts: nat, s: State, claim: Claim, step: Step): RoundResult {
    if !Lands(s, step, claim.key) then LostLease
    else if step.Finish? then Filled
    else if claim.attempt < maxAttempts then WillRetry
    else GaveUp
  }

  lemma CompletionFacts(maxAttempts: nat, s: State, claim: Claim, w: string, text: Option<string>, baseMinutes: nat,
                        now: int)
    requires Inv(maxAttempts, s) && InFlight(s, w) && s.workers[w].claim == Some(claim)
    requires text.Some? ==> !Blank(text.value)
    ensures var step := Report(w, text, baseMinutes, now);
      var result := ResultOf(maxAttempts, s, claim, step);
      var after := Apply(maxAttempts, s, step).rows;
      && Entry(maxAttempts, s, step, w) == OutcomeOf(result)
      && SameElsewhere(s.rows, after, claim.key)
      && (result.LostLease? ==> after == s.rows)
      && (!result.LostLease? ==> Reported(s.rows, after, maxAttempts, claim, text, baseMinutes, now))
      && LeftBehind(after, maxAttempts, claim, result, text, baseMinutes, now)
  {
    CompletionLeaves(maxAttempts, s, Report(w, text, baseMinutes, now));
  }

  class JobPostings {
    const maxAttempts: nat
    var rows: map<Key, Row>
    var workers: map<string, Worker>

    function Snapshot(): State
      reads this
    {
      State(rows, workers)
    }

    ghost predicate Valid()
      reads this
    {
      Inv(maxAttempts, Snapshot())
    }

    constructor (maxAttempts: nat)
      ensures Valid() && rows == map[] && workers == map[] && this.maxAttempts == maxAttempts
    {
      this.maxAttempts := maxAttempts;
      rows := map[];
      workers := map[];
    }

    /** EXHAUSTED_SQL; the result is the number of rows it matched. */
    method MarkExhausted(source: string, now: int) returns (count: nat)
      requires Valid()
      modifies this`rows
      ensures Valid() && Snapshot() == Apply(maxAttempts, old(Snapshot()), Sweep(source, now))
      ensures Swept(old(rows), rows, source, maxAttempts, now)
      ensures count == |set k | k in old(rows) && k.source == source && Exhausted(old(rows)[k], maxAttempts, now)|
    {
      SweepSweeps(maxAttempts, Snapshot(), source, now);
      SweepKeepsInv(maxAttempts, Snapshot(), source, now);
      count := |set k | k in rows && k.source == source && Exhausted(rows[k], maxAttempts, now)|;
      rows := SweepRows(rows, source, maxAttempts, now);
    }

    /** CLAIM_SQL with SKIP LOCKED: any matching row nobody else holds locked. */
    method ClaimOne(w: string, leaseMinutes: int, now: int, locked: set<Key>) returns (claim: Option<Claim>)
      requires Valid() && Running(Snapshot(), w) && workers[w].claim.None?
      modifies this
      ensures Valid()
      ensures claim.None? ==>
        Snapshot() == old(Snapshot()) && NothingToClaim(rows, workers[w].source, maxAttempts, now, locked)
      ensures claim.Some? ==>
        && claim.value.key !in locked
        && Enabled(maxAttempts, old(Snapshot()), ClaimNext(w, claim.value.key, leaseMinutes, now))
        && Snapshot() == Apply(maxAttempts, old(Snapshot()), ClaimNext(w, claim.value.key, leaseMinutes, now))
        && workers[w].claim == claim
        && Claimed(old(rows), rows, claim.value, w, leaseMinutes, now)
    {
      var candidates := set k | k in rows && k !in locked && Matches(rows, k, workers[w].source, maxAttempts, now);
      if candidates == {} {
        forall k | k in rows && Matches(rows, k, workers[w].source, maxAttempts, now) ensures k in locked {
          assert k !in candidates;
        }
        return None;
      }
      var k :| k in candidates;
      StepKeepsInv(maxAttempts, Snapshot(), ClaimNext(w, k, leaseMinutes, now));
      ClaimTakesOver(maxAttempts, Snapshot(), ClaimNext(w, k, leaseMinutes, now));
      var r := ClaimRow(rows[k], w, leaseMinutes, now);
      claim := Some(Claim(k, r.images, r.attempts));
      rows, workers := rows[k := r], workers[w := workers[w].(claim := claim)];
    }

    /** SUCCESS_SQL; true when the row was still this worker's. */
    method MarkSuccess(claim: Claim, w: string, text: string) returns (updated: bool)
      requires Valid() && Running(Snapshot(), w) && workers[w].claim == Some(claim)
      requires !Blank(text)
      modifies this
      ensures Valid() && Snapshot() == Apply(maxAttempts, old(Snapshot()), Finish(w, text, true))
      ensures updated <==> Lands(old(Snapshot()), Finish(w, text, true), claim.key)
      ensures updated ==> claim.key in rows && FilledIn(old(rows)[claim.key], rows[claim.key], text)
      ensures SameElsewhere(old(rows), rows, claim.key) && (!updated ==> rows == old(rows))
    {
      CompletionLeaves(maxAttempts, Snapshot(), Finish(w, text, true));
      CompletionKeepsInv(maxAttempts, Snapshot(), Finish(w, text, true));
      updated := claim.key in rows && HeldBy(rows[claim.key], w);
      if updated {
        rows := rows[claim.key := SuccessRow(rows[claim.key], text)];
      }
      workers := workers[w := workers[w].(claim := None)];
    }

    /** mark_failure: the status and delay come from the attempt number the claim handed out. */
    method MarkFailure(claim: Claim, w: string, baseMinutes: nat, error: string, now: int)
      returns (status: Status, delay: nat, updated: bool)
      requires Valid() && Running(Snapshot(), w) && workers[w].claim == Some(claim)
      modifies this
      ensures Valid() && Snapshot() == Apply(maxAttempts, old(Snapshot()), Fail(w, error, baseMinutes, now, true))
      ensures updated <==> Lands(old(Snapshot()), Fail(w, error, baseMinutes, now, true), claim.key)
      ensures updated ==>
        && rows[claim.key].status == status
        && (status.RetryWait? ==> claim.attempt < maxAttempts && rows[claim.key].nextRetry == Some(now + delay))
        && (!status.RetryWait? ==> status.Dead? && rows[claim.key].attempts == maxAttempts)
        && PutBack(old(rows)[claim.key], rows[claim.key], claim.attempt, maxAttempts, baseMinutes, error, now)
      ensures status.Dead? ==> delay == 0
      ensures SameElsewhere(old(rows), rows, claim.key) && (!updated ==> rows == old(rows))
    {
      CompletionLeaves(maxAttempts, Snapshot(), Fail(w, error, baseMinutes, now, true));
      CompletionKeepsInv(maxAttempts, Snapshot(), Fail(w, error, baseMinutes, now, true));
      status := if claim.attempt >= maxAttempts then Dead else RetryWait;
      delay := if status.Dead? then 0 else RetryDelayMinutes(claim.attempt, baseMinutes);
      updated := claim.key in rows && HeldBy(rows[claim.key], w);
      if updated {
        rows := rows[claim.key := FailureRow(rows[claim.key], claim.attempt, maxAttempts, baseMinutes, error, now)];
      }
      workers := workers[w := workers[w].(claim := None)];
    }

    /** The crawl loader: nothing is written unless every key is present and distinct. */
    method LoadSnapshot(records: seq<Record>) returns (error: Option<LoadError>)
      requires Valid()
      modifies this`rows
      ensures Valid()
      ensures error.None? <==> ValidKeys(records)
      ensures rows == if error.None? then LoadAll(old(rows), records) else old(rows)
      ensures Moves(maxAttempts, old(Snapshot()), if error.None? then LoadSteps(records) else [], Snapshot())
    {
      error := ValidateRows(records);
      if error.Some? {
        return;
      }
      for i := 0 to |records|
        invariant rows == LoadAll(old(rows), records[..i])
      {
        assert records[..i + 1][..i] == records[..i];
        rows := LoadRows(rows, records[i].key, Prepare(records[i].raw));
      }
      assert records[..|records|] == records;
      LoadAllKeepsInv(maxAttempts, old(Snapshot()), records);
      LoadAllMoves(maxAttempts, old(Snapshot()), records);
    }

    /** The legacy import as one transaction: stage, upsert, verify, then commit,
        or leave the table as it was. It verifies exactly when no record offends. */
    method ImportLegacy(records: seq<Record>, commit: bool) returns (error: Option<LoadError>)
      requires Valid()
      modifies this`rows
      ensures error.None? <==>
        records != [] && ValidKeys(records) && forall i :: 0 <= i < |records| ==> !Offends(old(rows), records[i])
      ensures rows == if error.None? && commit then LegacyAll(old(rows), records) else old(rows)
      ensures Moves(maxAttempts, old(Snapshot()), if error.None? && commit then LegacySteps(records) else [], Snapshot())
      ensures error == Some(VerificationFailed) ==> exists i :: 0 <= i < |records| && Offends(old(rows), records[i])
      ensures Valid()
      ensures AllFollowCrawler(records) ==> error != Some(VerificationFailed)
    {
      if records == [] {
        return Some(NoRecords);
      }
      error := ValidateRows(records);
      if error.Some? {
        return;
      }
      var saved := rows;
      for i := 0 to |records|
        invariant rows == LegacyAll(saved, records[..i])
      {
        assert records[..i + 1][..i] == records[..i];
        rows := LegacyRows(rows, records[i].key, Prepare(records[i].raw));
      }
      assert records[..|records|] == records;
      for i := 0 to |records|
        invariant rows == LegacyAll(saved, records)
        invariant forall j :: 0 <= j < i ==> !Offends(saved, records[j])
      {
        PostCheckFindsOffenders(maxAttempts, old(Snapshot()), records, i);
        if !PostCheck(rows[records[i].key]) {
          rows := saved;
          return Some(VerificationFailed);
        }
      }
      AcceptedImportKeepsInv(maxAttempts, old(Snapshot()), records);
      LegacyAllMoves(maxAttempts, old(Snapshot()), records);
      if !commit {
        rows := saved;
      }
    }

    /** Other connections commit between two of our statements. */
    method Interfere(steps: seq<Step>, ghost w: string)
      requires Valid() && w in workers
      requires AllForeign(steps, w)
      modifies this
      ensures Valid() && w in workers && workers[w] == old(workers)[w]
      ensures Snapshot() == Settle(maxAttempts, old(Snapshot()), steps)
      ensures Worked(maxAttempts, old(Snapshot()), Committed(maxAttempts, old(Snapshot()), steps), Snapshot(), w,
                     [], NO_ENTRY)
      ensures (forall st :: st in steps ==> !IsLoad(st)) ==>
        AttemptsLeft(maxAttempts, rows) <= AttemptsLeft(maxAttempts, old(rows))
    {
      SettleKeeps(maxAttempts, Snapshot(), steps, w);
      SettleWorks(maxAttempts, Snapshot(), steps, w);
      var t := Settle(maxAttempts, Snapshot(), steps);
      rows, workers := t.rows, t.workers;
    }

    /** main's first statements: a fresh worker sweeps its source. */
    method Begin(w: string, source: string, now: int)
      requires Valid() && w !in workers
      modifies this
      ensures Valid() && workers == old(workers)[w := Worker(source, None, false)]
      ensures Swept(old(rows), rows, source, maxAttempts, now)
      ensures Worked(maxAttempts, old(Snapshot()), [Start(w, source), Sweep(source, now)], Snapshot(), w,
                     [Start(w, source)], NO_ENTRY)
      ensures AttemptsLeft(maxAttempts, rows) == AttemptsLeft(maxAttempts, old(rows))
    {
      ghost var s := Snapshot();
      StepKeepsInv(maxAttempts, Snapshot(), Start(w, source));
      workers := workers[w := Worker(source, None, false)];
      ghost var started := Snapshot();
      var _ := MarkExhausted(source, now);
      StepConservesAttempts(maxAttempts, started, Sweep(source, now));
      StartWorks(maxAttempts, s, Start(w, source), started, Sweep(source, now), w);
    }

    /** The second half of main's loop body: report what the OCR gave. */
    method Complete(w: string, claim: Claim, text: Option<string>, baseMinutes: nat, now: int)
      returns (result: RoundResult)
      requires Valid() && Running(Snapshot(), w) && workers[w].claim == Some(claim)
      requires text.Some? ==> !Blank(text.value)
      modifies this
      ensures Valid() && workers == old(workers)[w := old(workers)[w].(claim := None)]
      ensures Snapshot() == Apply(maxAttempts, old(Snapshot()), Report(w, text, baseMinutes, now))
      ensures result.LostLease? <==> !Lands(old(Snapshot()), Report(w, text, baseMinutes, now), claim.key)
      ensures Entry(maxAttempts, old(Snapshot()), Report(w, text, baseMinutes, now), w) == OutcomeOf(result)
      ensures SameElsewhere(old(rows), rows, claim.key) && (result.LostLease? ==> rows == old(rows))
      ensures !result.LostLease? ==> Reported(old(rows), rows, maxAttempts, claim, text, baseMinutes, now)
      ensures !result.Drained? && LeftBehind(rows, maxAttempts, claim, result, text, baseMinutes, now)
      ensures AttemptsLeft(maxAttempts, rows) == AttemptsLeft(maxAttempts, old(rows))
    {
      ghost var s, step := Snapshot(), Report(w, text, baseMinutes, now);
      if text.Some? {
        var updated := MarkSuccess(claim, w, text.value);
        result := if updated then Filled else LostLease;
      } else {
        var status, _, updated := MarkFailure(claim, w, baseMinutes, "insufficient_ocr_text", now);
        result := if !updated then LostLease else if status.Dead? then GaveUp else WillRetry;
      }
      StepConservesAttempts(maxAttempts, s, step);
      CompletionFacts(maxAttempts, s, claim, w, text, baseMinutes, now);
      assert result == ResultOf(maxAttempts, s, claim, step);
    }

    /** The first half of main's loop body: others commit, then a claim. */
    method TakeNext(shift: Shift, n: nat) returns (claim: Option<Claim>, ghost run: seq<Step>)
      requires Valid() && Sensible(shift)
      requires Running(Snapshot(), shift.worker) && workers[shift.worker].claim.None?
      modifies this
      ensures Valid() && Running(Snapshot(), shift.worker)
      ensures workers[shift.worker] == old(workers)[shift.worker].(claim := claim)
      ensures claim.None? ==>
        && NothingToClaim(rows, workers[shift.worker].source, maxAttempts, shift.clock(n), shift.locked(n))
        && Worked(maxAttempts, old(Snapshot()), run, Snapshot(), shift.worker, [], NO_ENTRY)
      ensures claim.Some? ==>
        && claim.value.key !in shift.locked(n)
        && Worked(maxAttempts, old(Snapshot()), run, Snapshot(), shift.worker,
                  [ClaimNext(shift.worker, claim.value.key, shift.leaseMinutes, shift.clock(n))], ONE_CLAIM)
      ensures NoLoads(shift) ==>
        (if claim.None? then 0 else 1) + AttemptsLeft(maxAttempts, rows) <= AttemptsLeft(maxAttempts, old(rows))
    {
      var w := shift.worker;
      ghost var s := Snapshot();
      Interfere(shift.before(n), w);
      ghost var t := Snapshot();
      run := Committed(maxAttempts, s, shift.before(n));
      claim := ClaimOne(w, shift.leaseMinutes, shift.clock(n), shift.locked(n));
      if claim.Some? {
        ghost var step := ClaimNext(w, claim.value.key, shift.leaseMinutes, shift.clock(n));
        StepConservesAttempts(maxAttempts, t, step);
        StepAfterOthers(maxAttempts, s, run, t, step, w);
        run := run + [step];
      }
    }

    /** The second half: others commit during the OCR, then the claim is completed. */
    method FinishClaim(shift: Shift, n: nat, claim: Claim) returns (result: RoundResult, ghost run: seq<Step>)
      requires Valid() && Sensible(shift)
      requires Running(Snapshot(), shift.worker) && workers[shift.worker].claim == Some(claim)
      modifies this
      ensures Valid() && Running(Snapshot(), shift.worker) && !result.Drained?
      ensures workers[shift.worker] == old(workers)[shift.worker].(claim := None)
      ensures LeftBehind(rows, maxAttempts, claim, result, shift.ocr(n), shift.baseMinutes, shift.later(n))
      ensures Worked(maxAttempts, old(Snapshot()), run, Snapshot(), shift.worker,
                     [Report(shift.worker, shift.ocr(n), shift.baseMinutes, shift.later(n))], OutcomeOf(result))
      ensures NoLoads(shift) ==> AttemptsLeft(maxAttempts, rows) <= AttemptsLeft(maxAttempts, old(rows))
    {
      var w := shift.worker;
      ghost var s := Snapshot();
      Interfere(shift.during(n), w);
      ghost var t, last := Snapshot(), Report(w, shift.ocr(n), shift.baseMinutes, shift.later(n));
      run := Committed(maxAttempts, s, shift.during(n));
      result := Complete(w, claim, shift.ocr(n), shift.baseMinutes, shift.later(n));
      StepAfterOthers(maxAttempts, s, run, t, last, w);
      run := run + [last];
    }

    /** One turn of main's loop body, the n-th: claim, let the others commit, complete. */
    method Round(shift: Shift, n: nat)
      returns (result: RoundResult, claim: Option<Claim>, ghost run: seq<Step>)
      requires Valid() && Sensible(shift)
      requires Running(Snapshot(), shift.worker) && workers[shift.worker].claim.None?
      modifies this
      ensures Valid() && Running(Snapshot(), shift.worker) && workers[shift.worker] == old(workers)[shift.worker]
      ensures result.Drained? <==> claim.None?
      ensures result.Drained? ==>
        NothingToClaim(rows, workers[shift.worker].source, maxAttempts, shift.clock(n), shift.locked(n))
      ensures claim.Some? ==> claim.value.key !in shift.locked(n)
      ensures claim.Some? ==>
        LeftBehind(rows, maxAttempts, claim.value, result, shift.ocr(n), shift.baseMinutes, shift.later(n))
      ensures Worked(maxAttempts, old(Snapshot()), run, Snapshot(), shift.worker, TurnOf(shift, claim, n), TallyOf(result))
      ensures NoLoads(shift) ==>
        (if result.Drained? then 0 else 1) + AttemptsLeft(maxAttempts, rows) <= AttemptsLeft(maxAttempts, old(rows))
    {
      ghost var s := Snapshot();
      claim, run := TakeNext(shift, n);
      if claim.None? {
        return Drained, None, run;
      }
      ghost var t, more := Snapshot(), [];
      result, more := FinishClaim(shift, n, claim.value);
      RoundWorks(maxAttempts, s, run, t, more, Snapshot(), shift.worker,
                 ClaimNext(shift.worker, claim.value.key, shift.leaseMinutes, shift.clock(n)),
                 Report(shift.worker, shift.ocr(n), shift.baseMinutes, shift.later(n)), OutcomeOf(result));
      run := run + more;
    }

    /** main: sweep once, then claim and complete until the cap is reached or no
        row can be claimed. Without a cap the loop still ends, because no loads
        arrive and every claim burns one of the attempts left. `run` is everything
        anybody committed meanwhile. */
    method Drain(shift: Shift) returns (tally: Tally, ghost run: seq<Step>, ghost keys: seq<Key>)
      requires Valid() && shift.worker !in workers && Sensible(shift)
      modifies this
      ensures Valid() && Drains(maxAttempts, shift, old(Snapshot()), run, Snapshot(), keys, tally)
      ensures NoLoads(shift) ==>
        tally.claimed + AttemptsLeft(maxAttempts, rows) <= AttemptsLeft(maxAttempts, old(rows))
      ensures shift.cap == 0 || tally.claimed < shift.cap ==>
        NothingToClaim(rows, shift.source, maxAttempts, shift.clock(tally.claimed), shift.locked(tally.claimed))
    {
      ghost var s := Snapshot();
      Begin(shift.worker, shift.source, shift.clock(0));
      tally, run, keys := NO_ENTRY, Opening(shift), [];
      DrainsOpening(maxAttempts, shift, s, Snapshot());
      var drained := false;
      while !drained && (shift.cap == 0 || tally.claimed < shift.cap)
        invariant Valid() && Running(Snapshot(), shift.worker)
        invariant workers[shift.worker] == Worker(shift.source, None, false)
        invariant Drains(maxAttempts, shift, s, run, Snapshot(), keys, tally)
        invariant NoLoads(shift) ==>
          tally.claimed + AttemptsLeft(maxAttempts, rows) <= AttemptsLeft(maxAttempts, old(rows))
        invariant drained ==>
          NothingToClaim(rows, shift.source, maxAttempts, shift.clock(tally.claimed), shift.locked(tally.claimed))
        decreases !drained, if shift.cap == 0 then AttemptsLeft(maxAttempts, rows) else shift.cap - tally.claimed
      {
        AttemptsLeftNonNegative(maxAttempts, rows);
        ghost var t := Snapshot();
        var result, claim, more := Round(shift, tally.claimed);
        DrainsOn(maxAttempts, shift, s, run, t, more, Snapshot(), keys, tally, claim, result);
        run, keys := run + more, KeysAfter(keys, claim);
        TallyAdds(tally, result);
        tally := tally.Plus(TallyOf(result));
        drained := result.Drained?;
      }
    }
  }
}
