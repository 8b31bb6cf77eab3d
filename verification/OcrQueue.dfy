/** The shared queue as a transition system: workers claim, complete, crash and
    sweep while the crawl loader and the legacy import rewrite the same rows.
    Every SQL statement is one atomic step; any interleaving is a run. */
module OcrQueue {
  import opened Common
  import opened OcrRow

  datatype Key = Key(source: string, postingId: string)

  /** What a claim hands to its worker. */
  datatype Claim = Claim(key: Key, images: seq<string>, attempt: nat)

  /** One worker process; its id is a fresh uuid. */
  datatype Worker = Worker(source: string, claim: Option<Claim>, crashed: bool)

  datatype State = State(rows: map<Key, Row>, workers: map<string, Worker>)

  /** Loaders bring any record; a legacy import commits only what its own
      verification accepts. Each step carries its own now(): nothing below relies on clocks agreeing.
      An unacknowledged completion reaches the table but not the worker. */
  datatype Step =
    | Start(worker: string, source: string)
    | Crash(worker: string)
    | Sweep(source: string, now: int)
    | ClaimNext(worker: string, key: Key, leaseMinutes: int, now: int)
    | Finish(worker: string, text: string, acknowledged: bool)
    | Fail(worker: string, error: string, baseMinutes: nat, now: int, acknowledged: bool)
    | Load(key: Key, raw: RawRow)
    | LegacyLoad(key: Key, raw: RawRow)

  // ------------------------------------------------ the statements on the table

  function SweepRows(rows: map<Key, Row>, source: string, maxAttempts: nat, now: int): map<Key, Row> {
    map k | k in rows :: if k.source == source && Exhausted(rows[k], maxAttempts, now) then ExhaustRow(rows[k]) else rows[k]
  }

  predicate Matches(rows: map<Key, Row>, k: Key, source: string, maxAttempts: nat, now: int) {
    k in rows && k.source == source && Claimable(rows[k], maxAttempts, now)
  }

  function FinishRows(rows: map<Key, Row>, c: Claim, worker: string, text: string): map<Key, Row> {
    if c.key in rows && HeldBy(rows[c.key], worker) then rows[c.key := SuccessRow(rows[c.key], text)] else rows
  }

  function FailRows(rows: map<Key, Row>, c: Claim, worker: string, maxAttempts: nat, baseMinutes: nat,
                    error: string, now: int): map<Key, Row>
  {
    if c.key in rows && HeldBy(rows[c.key], worker) then
      rows[c.key := FailureRow(rows[c.key], c.attempt, maxAttempts, baseMinutes, error, now)]
    else rows
  }

  function LoadRows(rows: map<Key, Row>, k: Key, e: Incoming): map<Key, Row> {
    rows[k := if k in rows then UpsertRow(rows[k], e) else InsertRow(e)]
  }

  function LegacyRows(rows: map<Key, Row>, k: Key, e: Incoming): map<Key, Row> {
    rows[k := if k in rows then LegacyUpsertRow(rows[k], e) else InsertRow(e)]
  }

  // --------------------------------------------------------------------- steps

  predicate Running(s: State, w: string) {
    w in s.workers && !s.workers[w].crashed
  }

  predicate InFlight(s: State, w: string) {
    Running(s, w) && s.workers[w].claim.Some?
  }

  predicate Enabled(maxAttempts: nat, s: State, step: Step) {
    match step
    case Start(w, _) => w !in s.workers
    case Crash(w) => Running(s, w)
    case Sweep(_, _) => true
    case ClaimNext(w, k, _, now) =>
      Running(s, w) && s.workers[w].claim.None? && Matches(s.rows, k, s.workers[w].source, maxAttempts, now)
    case Finish(w, text, _) => InFlight(s, w) && !Blank(text)
    case Fail(w, _, _, _, _) => InFlight(s, w)
    case Load(_, _) => true
    case LegacyLoad(k, raw) => PostCheck(LegacyRows(s.rows, k, Prepare(raw))[k])
  }

  function Idle(workers: map<string, Worker>, w: string, acknowledged: bool): map<string, Worker>
    requires w in workers
  {
    if acknowledged then workers[w := workers[w].(claim := None)] else workers
  }

  function Apply(maxAttempts: nat, s: State, step: Step): State
    requires Enabled(maxAttempts, s, step)
  {
    match step
    case Start(w, source) => s.(workers := s.workers[w := Worker(source, None, false)])
    case Crash(w) => s.(workers := s.workers[w := s.workers[w].(crashed := true)])
    case Sweep(source, now) => s.(rows := SweepRows(s.rows, source, maxAttempts, now))
    case ClaimNext(w, k, leaseMinutes, now) =>
      var r := ClaimRow(s.rows[k], w, leaseMinutes, now);
      State(s.rows[k := r], s.workers[w := s.workers[w].(claim := Some(Claim(k, r.images, r.attempts)))])
    case Finish(w, text, acknowledged) =>
      State(FinishRows(s.rows, s.workers[w].claim.value, w, text), Idle(s.workers, w, acknowledged))
    case Fail(w, error, baseMinutes, now, acknowledged) =>
      State(FailRows(s.rows, s.workers[w].claim.value, w, maxAttempts, baseMinutes, error, now),
            Idle(s.workers, w, acknowledged))
    case Load(k, raw) => s.(rows := LoadRows(s.rows, k, Prepare(raw)))
    case LegacyLoad(k, raw) => s.(rows := LegacyRows(s.rows, k, Prepare(raw)))
  }

  predicate ValidRun(maxAttempts: nat, s: State, steps: seq<Step>)
    decreases |steps|
  {
    steps == [] || (Enabled(maxAttempts, s, steps[0]) && ValidRun(maxAttempts, Apply(maxAttempts, s, steps[0]), steps[1..]))
  }

  function Run(maxAttempts: nat, s: State, steps: seq<Step>): State
    requires ValidRun(maxAttempts, s, steps)
    decreases |steps|
  {
    if steps == [] then s else Run(maxAttempts, Apply(maxAttempts, s, steps[0]), steps[1..])
  }

  /** Where a run may begin: rows only ever inserted, no worker yet. */
  ghost predicate Init(s: State) {
    && s.workers == map[]
    && forall k :: k in s.rows ==> exists raw :: s.rows[k] == InsertRow(Prepare(raw))
  }

  // ------------------------------------------------------------- the invariant

  /** A processing row is the one in-flight claim of the worker it names. */
  predicate Fenced(r: Row, k: Key, workers: map<string, Worker>) {
    r.status.Processing? ==>
      && r.worker.Some?
      && r.worker.value in workers
      && workers[r.worker.value].claim == Some(Claim(k, r.images, r.attempts))
  }

  predicate Inv(maxAttempts: nat, s: State) {
    forall k :: k in s.rows ==> Good(s.rows[k], maxAttempts) && Fenced(s.rows[k], k, s.workers)
  }

  lemma InitInv(maxAttempts: nat, s: State)
    requires Init(s)
    ensures Inv(maxAttempts, s)
  {
    forall k | k in s.rows
      ensures Good(s.rows[k], maxAttempts) && Fenced(s.rows[k], k, s.workers)
    {
      var raw :| s.rows[k] == InsertRow(Prepare(raw));
      InsertIsGood(raw, maxAttempts);
      PreparedRowsAgree(raw);
    }
  }

  /** A loader leaves a processing row alone or takes it out of processing. */
  lemma LoadersKeepFence(j: Row, raw: RawRow, k: Key, maxAttempts: nat, workers: map<string, Worker>)
    requires Good(j, maxAttempts) && Fenced(j, k, workers)
    ensures Fenced(UpsertRow(j, Prepare(raw)), k, workers)
    ensures Fenced(LegacyUpsertRow(j, Prepare(raw)), k, workers)
  {
    PreparedRowsAgree(raw);
    UpsertKeepsGood(j, raw, maxAttempts);
    LegacyByCases(j, raw, maxAttempts);
  }

  lemma LoadKeepsInv(maxAttempts: nat, s: State, k: Key, raw: RawRow)
    requires Inv(maxAttempts, s)
    ensures Inv(maxAttempts, s.(rows := LoadRows(s.rows, k, Prepare(raw))))
    ensures PostCheck(LegacyRows(s.rows, k, Prepare(raw))[k]) ==>
      Inv(maxAttempts, s.(rows := LegacyRows(s.rows, k, Prepare(raw))))
  {
    if k in s.rows {
      LoadersKeepFence(s.rows[k], raw, k, maxAttempts, s.workers);
      UpsertKeepsGood(s.rows[k], raw, maxAttempts);
      LegacyKeepsGood(s.rows[k], raw, maxAttempts);
    } else {
      InsertIsGood(raw, maxAttempts);
      PreparedRowsAgree(raw);
    }
  }

  lemma SweepKeepsInv(maxAttempts: nat, s: State, source: string, now: int)
    requires Inv(maxAttempts, s)
    ensures Inv(maxAttempts, s.(rows := SweepRows(s.rows, source, maxAttempts, now)))
  {
    forall k | k in s.rows && Exhausted(s.rows[k], maxAttempts, now)
      ensures Good(ExhaustRow(s.rows[k]), maxAttempts)
    {
      ExhaustKeepsGood(s.rows[k], maxAttempts, now);
    }
  }

  lemma ClaimKeepsInv(maxAttempts: nat, s: State, step: Step)
    requires Inv(maxAttempts, s) && step.ClaimNext? && Enabled(maxAttempts, s, step)
    ensures Inv(maxAttempts, Apply(maxAttempts, s, step))
  {
    ClaimKeepsGood(s.rows[step.key], maxAttempts, step.worker, step.leaseMinutes, step.now);
  }

  /** No other row can be held by a worker whose claim is elsewhere. */
  lemma CompletionKeepsInv(maxAttempts: nat, s: State, step: Step)
    requires Inv(maxAttempts, s) && (step.Finish? || step.Fail?) && Enabled(maxAttempts, s, step)
    ensures Inv(maxAttempts, Apply(maxAttempts, s, step))
  {
    var w := step.worker;
    var c := s.workers[w].claim.value;
    var t := Apply(maxAttempts, s, step);
    if c.key in s.rows && HeldBy(s.rows[c.key], w) {
      if step.Finish? {
        SuccessKeepsGood(s.rows[c.key], maxAttempts, w, step.text);
      } else {
        FailureKeepsGood(s.rows[c.key], maxAttempts, w, step.baseMinutes, step.error, step.now);
      }
    }
    forall k | k in t.rows
      ensures Good(t.rows[k], maxAttempts) && Fenced(t.rows[k], k, t.workers)
    {
      assert k in s.rows;
    }
  }

  /** Every step of every participant keeps the queue invariant and the fence. */
  lemma StepKeepsInv(maxAttempts: nat, s: State, step: Step)
    requires Inv(maxAttempts, s) && Enabled(maxAttempts, s, step)
    ensures Inv(maxAttempts, Apply(maxAttempts, s, step))
  {
    match step
    case Start(_, _) =>
    case Crash(_) =>
    case Sweep(source, now) => SweepKeepsInv(maxAttempts, s, source, now);
    case ClaimNext(_, _, _, _) => ClaimKeepsInv(maxAttempts, s, step);
    case Finish(_, _, _) => CompletionKeepsInv(maxAttempts, s, step);
    case Fail(_, _, _, _, _) => CompletionKeepsInv(maxAttempts, s, step);
    case Load(k, raw) => LoadKeepsInv(maxAttempts, s, k, raw);
    case LegacyLoad(k, raw) => LoadKeepsInv(maxAttempts, s, k, raw);
  }

  lemma {:induction false} RunKeepsInv(maxAttempts: nat, s: State, steps: seq<Step>)
    requires Inv(maxAttempts, s) && ValidRun(maxAttempts, s, steps)
    ensures Inv(maxAttempts, Run(maxAttempts, s, steps))
    decreases |steps|
  {
    if steps == [] {
    } else {
      StepKeepsInv(maxAttempts, s, steps[0]);
      RunKeepsInv(maxAttempts, Apply(maxAttempts, s, steps[0]), steps[1..]);
    }
  }

  // ------------------------------------------------ what each step does, row by row

  /** The sweep gives up exactly the exhausted rows of its source; every other row
      stays as it was, and none comes or goes. */
  ghost predicate Swept(before: map<Key, Row>, after: map<Key, Row>, source: string, maxAttempts: nat, now: int) {
    && after.Keys == before.Keys
    && (forall k :: k in before && k.source == source && Exhausted(before[k], maxAttempts, now) ==>
          GivenUp(before[k], after[k]))
    && (forall k :: k in before && !(k.source == source && Exhausted(before[k], maxAttempts, now)) ==>
          after[k] == before[k])
  }

  lemma SweepSweeps(maxAttempts: nat, s: State, source: string, now: int)
    requires Inv(maxAttempts, s)
    ensures Swept(s.rows, Apply(maxAttempts, s, Sweep(source, now)).rows, source, maxAttempts, now)
  {
    forall k | k in s.rows && k.source == source && Exhausted(s.rows[k], maxAttempts, now)
      ensures GivenUp(s.rows[k], Apply(maxAttempts, s, Sweep(source, now)).rows[k])
    {
      ExhaustKeepsGood(s.rows[k], maxAttempts, now);
    }
  }

  /** No row but this one differs. */
  ghost predicate SameElsewhere(before: map<Key, Row>, after: map<Key, Row>, k: Key) {
    && (forall j :: j != k ==> (j in before <==> j in after))
    && (forall j :: j in before && j in after && j != k ==> after[j] == before[j])
  }

  lemma ClaimTakesOver(maxAttempts: nat, s: State, step: Step)
    requires Inv(maxAttempts, s) && step.ClaimNext? && Enabled(maxAttempts, s, step)
    ensures var t, k := Apply(maxAttempts, s, step), step.key;
      && k in s.rows && k in t.rows && SameElsewhere(s.rows, t.rows, k)
      && k.source == s.workers[step.worker].source
      && TakenOver(s.rows[k], t.rows[k], step.worker, step.leaseMinutes, step.now)
      && step.worker in t.workers
      && t.workers[step.worker].claim == Some(Claim(k, s.rows[k].images, s.rows[k].attempts + 1))
  {
    ClaimKeepsGood(s.rows[step.key], maxAttempts, step.worker, step.leaseMinutes, step.now);
  }

  /** A completion fills in or puts back the row its worker still holds. */
  lemma CompletionLeaves(maxAttempts: nat, s: State, step: Step)
    requires Inv(maxAttempts, s) && (step.Finish? || step.Fail?) && Enabled(maxAttempts, s, step)
    ensures var t, c := Apply(maxAttempts, s, step), s.workers[step.worker].claim.value;
      var held := c.key in s.rows && s.rows[c.key].status.Processing? && s.rows[c.key].worker == Some(step.worker);
      && (!held ==> t.rows == s.rows)
      && (held ==>
            && c.key in t.rows && SameElsewhere(s.rows, t.rows, c.key)
            && (step.Finish? ==> FilledIn(s.rows[c.key], t.rows[c.key], step.text))
            && (step.Fail? ==> PutBack(s.rows[c.key], t.rows[c.key], c.attempt, maxAttempts, step.baseMinutes, step.error,
                                       step.now)))
  {
    var c := s.workers[step.worker].claim.value;
    if c.key in s.rows && HeldBy(s.rows[c.key], step.worker) {
      if step.Finish? {
        SuccessKeepsGood(s.rows[c.key], maxAttempts, step.worker, step.text);
      } else {
        FailureKeepsGood(s.rows[c.key], maxAttempts, step.worker, step.baseMinutes, step.error, step.now);
      }
    }
  }

  /** A load writes its own row alone: a new one from the record, or over the row it
      finds what the loader's three cases, or the import's five, say. */
  lemma LoadWrites(maxAttempts: nat, s: State, step: Step)
    requires Inv(maxAttempts, s) && (step.Load? || step.LegacyLoad?) && Enabled(maxAttempts, s, step)
    ensures var t, k := Apply(maxAttempts, s, step), step.key;
      && k in t.rows && SameElsewhere(s.rows, t.rows, k) && t.workers == s.workers
      && (k !in s.rows ==> Inserted(step.raw, t.rows[k]))
      && (k in s.rows && step.Load? ==> t.rows[k] == UpsertRow(s.rows[k], Prepare(step.raw)))
      && (k in s.rows && step.LegacyLoad? ==> t.rows[k] == LegacyUpsertRow(s.rows[k], Prepare(step.raw)))
  {
    InsertIsGood(step.raw, maxAttempts);
  }

  /** Workers come, crash and move on only by their own steps: a completion leaves
      its worker the claim exactly where it is not acknowledged. */
  lemma StepMovesWorkers(maxAttempts: nat, s: State, step: Step, w: string)
    requires Enabled(maxAttempts, s, step)
    ensures var t := Apply(maxAttempts, s, step);
      match step
      case Start(v, source) =>
        t.rows == s.rows
        && (if w == v then w in t.workers && t.workers[w] == Worker(source, None, false) else SameWorker(s, t, w))
      case Crash(v) =>
        t.rows == s.rows && v in t.workers && t.workers[v].crashed
        && (if w == v then t.workers[w].claim == s.workers[w].claim else SameWorker(s, t, w))
      case ClaimNext(v, _, _, _) =>
        if w == v then w in t.workers && !t.workers[w].crashed && t.workers[w].claim.Some? else SameWorker(s, t, w)
      case Finish(v, _, acknowledged) =>
        if w == v && acknowledged then w in t.workers && !t.workers[w].crashed && t.workers[w].claim.None?
        else SameWorker(s, t, w)
      case Fail(v, _, _, _, acknowledged) =>
        if w == v && acknowledged then w in t.workers && !t.workers[w].crashed && t.workers[w].claim.None?
        else SameWorker(s, t, w)
      case _ => SameWorker(s, t, w)
  {
  }

  predicate SameWorker(s: State, t: State, w: string) {
    (w in s.workers <==> w in t.workers) && (w in s.workers ==> t.workers[w] == s.workers[w])
  }

  // -------------------------------------------------------------------- fencing

  /** In every reachable state a row under processing is the in-flight claim of
      the worker it names, images and attempt number included, and no worker is
      named by two rows. */
  lemma Fencing(maxAttempts: nat, s0: State, steps: seq<Step>, k: Key)
    requires Init(s0) && ValidRun(maxAttempts, s0, steps)
    requires k in Run(maxAttempts, s0, steps).rows
    ensures var s := Run(maxAttempts, s0, steps);
      var r := s.rows[k];
      r.status.Processing? ==>
        && r.worker.Some? && r.worker.value in s.workers
        && s.workers[r.worker.value].claim == Some(Claim(k, r.images, r.attempts))
        && forall k' :: k' in s.rows && HeldBy(s.rows[k'], r.worker.value) ==> k' == k
  {
    InitInv(maxAttempts, s0);
    RunKeepsInv(maxAttempts, s0, steps);
  }

  /** A completion that arrives after any run either finds the row exactly as its
      own claim left it and writes that row alone, or changes no row. */
  lemma CompletionsWriteTheirOwnClaim(maxAttempts: nat, s0: State, steps: seq<Step>, last: Step)
    requires Init(s0) && ValidRun(maxAttempts, s0, steps)
    requires (last.Finish? || last.Fail?) && Enabled(maxAttempts, Run(maxAttempts, s0, steps), last)
    ensures var s := Run(maxAttempts, s0, steps);
      var c := s.workers[last.worker].claim.value;
      var after := Apply(maxAttempts, s, last).rows;
      if c.key in s.rows && HeldBy(s.rows[c.key], last.worker) then
        && s.rows[c.key].images == c.images
        && s.rows[c.key].attempts == c.attempt
        && after.Keys == s.rows.Keys
        && (forall k :: k in s.rows && k != c.key ==> after[k] == s.rows[k])
        && after[c.key].attempts == c.attempt
        && (last.Finish? ==> after[c.key].body == last.text && after[c.key].status.Succeeded? && after[c.key].needOcr == X)
        && (last.Fail? ==> after[c.key].status == (if c.attempt < maxAttempts then RetryWait else Dead)
                           && after[c.key].body == s.rows[c.key].body)
      else
        after == s.rows
  {
    InitInv(maxAttempts, s0);
    RunKeepsInv(maxAttempts, s0, steps);
    var s := Run(maxAttempts, s0, steps);
    var c := s.workers[last.worker].claim.value;
    if c.key in s.rows && HeldBy(s.rows[c.key], last.worker) && last.Finish? {
      SuccessKeepsGood(s.rows[c.key], maxAttempts, last.worker, last.text);
    }
  }

  /** Does this completion find its row still held? */
  predicate Lands(s: State, step: Step, k: Key) {
    && (step.Finish? || step.Fail?)
    && InFlight(s, step.worker)
    && s.workers[step.worker].claim.value.key == k
    && k in s.rows
    && HeldBy(s.rows[k], step.worker)
  }

  function Landings(maxAttempts: nat, s: State, steps: seq<Step>, k: Key): nat
    requires ValidRun(maxAttempts, s, steps)
    decreases |steps|
  {
    if steps == [] then 0
    else
      var later := Landings(maxAttempts, Apply(maxAttempts, s, steps[0]), steps[1..], k);
      if Lands(s, steps[0], k) then 1 + later else later
  }

  function Open(s: State, k: Key): nat {
    if k in s.rows && s.rows[k].status.Processing? then 1 else 0
  }

  /** Over any run at most one completion lands per claim granted on a row, even
      when acknowledgements are lost and the completion is retried. */
  lemma {:induction false} OneLandingPerClaim(maxAttempts: nat, s: State, steps: seq<Step>, k: Key)
    requires Inv(maxAttempts, s) && ValidRun(maxAttempts, s, steps)
    ensures Landings(maxAttempts, s, steps, k) + Open(Run(maxAttempts, s, steps), k)
         <= ClaimsGranted(steps, k) + Open(s, k)
    decreases |steps|
  {
    if steps == [] {
    } else {
      var t := Apply(maxAttempts, s, steps[0]);
      StepKeepsInv(maxAttempts, s, steps[0]);
      OneLandingPerClaim(maxAttempts, t, steps[1..], k);
      StepOpens(maxAttempts, s, steps[0], k);
    }
  }

  lemma StepOpens(maxAttempts: nat, s: State, step: Step, k: Key)
    requires Inv(maxAttempts, s) && Enabled(maxAttempts, s, step)
    ensures Open(Apply(maxAttempts, s, step), k) + (if Lands(s, step, k) then 1 else 0)
         <= Open(s, k) + (if GrantsClaim(step, k) then 1 else 0)
  {
    if step.Load? || step.LegacyLoad? {
      PreparedRowsAgree(step.raw);
      if k in s.rows {
        UpsertKeepsGood(s.rows[k], step.raw, maxAttempts);
        LegacyKeepsGood(s.rows[k], step.raw, maxAttempts);
      }
    }
  }

  // ------------------------------------------------- completed text is never lost

  predicate HasText(r: Row) {
    r.needOcr == X && !Blank(r.body) && Completed(r.status)
  }

  /** One step keeps a completed row completed; only a loaded record that itself
      carries complete text may replace the text, and the legacy import never does. */
  lemma StepKeepsText(maxAttempts: nat, s: State, step: Step, k: Key)
    requires Inv(maxAttempts, s) && Enabled(maxAttempts, s, step)
    requires k in s.rows && HasText(s.rows[k])
    ensures k in Apply(maxAttempts, s, step).rows && HasText(Apply(maxAttempts, s, step).rows[k])
    ensures var body' := Apply(maxAttempts, s, step).rows[k].body;
      body' != s.rows[k].body ==>
        step.Load? && step.key == k && step.raw.needOcr == "X" && body' == step.raw.body
  {
    StepKeepsInv(maxAttempts, s, step);
    if step.Load? {
      PreparedRowsAgree(step.raw);
    }
  }

  /** Along every run a completed row stays completed with non-blank text. */
  lemma {:induction false} CompletedTextIsNeverLost(maxAttempts: nat, s: State, steps: seq<Step>, k: Key)
    requires Inv(maxAttempts, s) && ValidRun(maxAttempts, s, steps)
    requires k in s.rows && s.rows[k].needOcr == X
    ensures k in Run(maxAttempts, s, steps).rows && HasText(Run(maxAttempts, s, steps).rows[k])
    ensures (forall i :: 0 <= i < |steps| ==> !(steps[i].Load? && steps[i].key == k)) ==>
      Run(maxAttempts, s, steps).rows[k].body == s.rows[k].body
    decreases |steps|
  {
    if steps == [] {
    } else {
      StepKeepsInv(maxAttempts, s, steps[0]);
      StepKeepsText(maxAttempts, s, steps[0], k);
      CompletedTextIsNeverLost(maxAttempts, Apply(maxAttempts, s, steps[0]), steps[1..], k);
    }
  }

  // ------------------------------------------------------------- attempt budget

  /** Does this step grant a claim on k? */
  predicate GrantsClaim(step: Step, k: Key) {
    step.ClaimNext? && step.key == k
  }

  /** Does this step take the attempt-counter reset branch of a CASE table for k? */
  predicate ResetsCounter(s: State, step: Step, k: Key) {
    && (step.Load? || step.LegacyLoad?)
    && step.key == k
    && k in s.rows
    && (if step.Load? then s.rows[k].needOcr == O && BringsNewImages(s.rows[k], Prepare(step.raw))
        else s.rows[k].images == [] && Prepare(step.raw).images != [])
  }

  function ClaimsGranted(steps: seq<Step>, k: Key): nat {
    if steps == [] then 0 else (if GrantsClaim(steps[0], k) then 1 else 0) + ClaimsGranted(steps[1..], k)
  }

  function Resets(maxAttempts: nat, s: State, steps: seq<Step>, k: Key): nat
    requires ValidRun(maxAttempts, s, steps)
    decreases |steps|
  {
    if steps == [] then 0
    else
      var later := Resets(maxAttempts, Apply(maxAttempts, s, steps[0]), steps[1..], k);
      if ResetsCounter(s, steps[0], k) then 1 + later else later
  }

  function AttemptsOf(s: State, k: Key): nat {
    if k in s.rows then s.rows[k].attempts else 0
  }

  /** Whatever the rows look like, the loader's reset moves the row to pending in the same step. */
  lemma LoaderResetRequeues(j: Row, raw: RawRow)
    requires j.needOcr == O && BringsNewImages(j, Prepare(raw))
    ensures var n := UpsertRow(j, Prepare(raw));
      n.status.Pending? && n.attempts == 0 && n.images == raw.images && n.nextRetry.None? && n.lastError.None?
  {
  }

  lemma StepMovesAttempts(maxAttempts: nat, s: State, step: Step, k: Key)
    requires Inv(maxAttempts, s) && Enabled(maxAttempts, s, step)
    ensures AttemptsOf(Apply(maxAttempts, s, step), k) ==
      if GrantsClaim(step, k) then AttemptsOf(s, k) + 1
      else if ResetsCounter(s, step, k) then 0
      else AttemptsOf(s, k)
  {
    if (step.Load? || step.LegacyLoad?) && k in s.rows {
      UpsertKeepsGood(s.rows[k], step.raw, maxAttempts);
      LegacyKeepsGood(s.rows[k], step.raw, maxAttempts);
    }
  }

  lemma {:induction false} BudgetFrom(maxAttempts: nat, s: State, steps: seq<Step>, k: Key)
    requires Inv(maxAttempts, s) && ValidRun(maxAttempts, s, steps)
    ensures AttemptsOf(s, k) + ClaimsGranted(steps, k)
         <= AttemptsOf(Run(maxAttempts, s, steps), k) + maxAttempts * Resets(maxAttempts, s, steps, k)
    decreases |steps|
  {
    if steps == [] {
    } else {
      var t := Apply(maxAttempts, s, steps[0]);
      var later := Resets(maxAttempts, t, steps[1..], k);
      StepKeepsInv(maxAttempts, s, steps[0]);
      StepMovesAttempts(maxAttempts, s, steps[0], k);
      BudgetFrom(maxAttempts, t, steps[1..], k);
      OneMore(maxAttempts, later);
      assert Run(maxAttempts, s, steps) == Run(maxAttempts, t, steps[1..]);
      assert Resets(maxAttempts, s, steps, k) == if ResetsCounter(s, steps[0], k) then 1 + later else later;
      assert AttemptsOf(s, k) <= maxAttempts;
    }
  }

  lemma OneMore(m: nat, n: nat)
    ensures m * (1 + n) == m + m * n
  {
  }

  /** Over any run, a row is claimed at most maxAttempts times per counter
      lifetime: one lifetime, plus one for each load that reset the counter. */
  lemma AttemptBudget(maxAttempts: nat, s0: State, steps: seq<Step>, k: Key)
    requires Init(s0) && ValidRun(maxAttempts, s0, steps)
    ensures AttemptsOf(Run(maxAttempts, s0, steps), k) <= maxAttempts
    ensures ClaimsGranted(steps, k) <= maxAttempts * (1 + Resets(maxAttempts, s0, steps, k))
  {
    InitInv(maxAttempts, s0);
    RunKeepsInv(maxAttempts, s0, steps);
    BudgetFrom(maxAttempts, s0, steps, k);
    OneMore(maxAttempts, Resets(maxAttempts, s0, steps, k));
  }

  // ------------------------------------------------------------ nothing is stuck

  predicate AllServiceable(maxAttempts: nat, s: State) {
    forall k :: k in s.rows ==> Serviceable(s.rows[k], maxAttempts)
  }

  /** A legacy record brings first images, and neither it nor the row has text, to
      a row that was dead for want of images. */
  predicate Strands(s: State, step: Step) {
    && step.LegacyLoad?
    && step.key in s.rows
    && s.rows[step.key].status.Dead?
    && s.rows[step.key].images == []
    && step.raw.images != []
    && Blank(step.raw.body)
    && Blank(s.rows[step.key].body)
  }

  /** Of all steps exactly the stranding imports leave a row with images dead
      before its attempts are used. */
  lemma StepKeepsServiceable(maxAttempts: nat, s: State, step: Step)
    requires maxAttempts >= 1
    requires Inv(maxAttempts, s) && AllServiceable(maxAttempts, s) && Enabled(maxAttempts, s, step)
    ensures AllServiceable(maxAttempts, Apply(maxAttempts, s, step)) <==> !Strands(s, step)
  {
    if step.Load? || step.LegacyLoad? {
      PreparedRowsAgree(step.raw);
      if step.key in s.rows {
        UpsertKeepsServiceable(s.rows[step.key], step.raw, maxAttempts);
        LegacyStrandsExactly(s.rows[step.key], step.raw, maxAttempts);
      }
      if Strands(s, step) {
        assert step.key in Apply(maxAttempts, s, step).rows;
      }
    }
  }

  /** No import along the run strands the row it meets. */
  predicate StrandFree(maxAttempts: nat, s: State, steps: seq<Step>)
    requires ValidRun(maxAttempts, s, steps)
    decreases |steps|
  {
    steps == [] || (!Strands(s, steps[0]) && StrandFree(maxAttempts, Apply(maxAttempts, s, steps[0]), steps[1..]))
  }

  lemma {:induction false} RunKeepsServiceable(maxAttempts: nat, s: State, steps: seq<Step>)
    requires maxAttempts >= 1
    requires Inv(maxAttempts, s) && AllServiceable(maxAttempts, s) && ValidRun(maxAttempts, s, steps)
    requires StrandFree(maxAttempts, s, steps)
    ensures AllServiceable(maxAttempts, Run(maxAttempts, s, steps))
    decreases |steps|
  {
    if steps == [] {
    } else {
      StepKeepsInv(maxAttempts, s, steps[0]);
      StepKeepsServiceable(maxAttempts, s, steps[0]);
      RunKeepsServiceable(maxAttempts, Apply(maxAttempts, s, steps[0]), steps[1..]);
    }
  }

  /** With workers, the loader and imports that strand nothing, every reachable
      waiting row with images has run out of attempts and is dead, or from a finite
      moment on is matched by exactly one of the claim and the sweep. The sweep of
      its source then leaves it dead, and any idle worker of its source can claim it. */
  lemma NoStuckWork(maxAttempts: nat, s0: State, steps: seq<Step>, k: Key, now: int)
    requires maxAttempts >= 1 && Init(s0) && ValidRun(maxAttempts, s0, steps)
    requires StrandFree(maxAttempts, s0, steps)
    requires k in Run(maxAttempts, s0, steps).rows
    ensures var r := Run(maxAttempts, s0, steps).rows[k];
      r.needOcr == O && r.images != [] ==>
        || (r.status.Dead? && r.attempts == maxAttempts)
        || (&& !r.status.Dead?
            && (now >= ReadyAt(r) ==>
                  && (Claimable(r, maxAttempts, now) <==> r.attempts < maxAttempts)
                  && (Exhausted(r, maxAttempts, now) <==> r.attempts == maxAttempts)))
    ensures var s := Run(maxAttempts, s0, steps);
      var r := s.rows[k];
      var swept := Apply(maxAttempts, s, Sweep(k.source, now)).rows;
      r.needOcr == O && r.images != [] && now >= ReadyAt(r) ==>
        && (r.attempts == maxAttempts ==> k in swept && swept[k].status.Dead? && swept[k].worker.None?)
        && (r.attempts < maxAttempts ==> forall w, lease: int ::
              Running(s, w) && s.workers[w].claim.None? && s.workers[w].source == k.source ==>
                Enabled(maxAttempts, s, ClaimNext(w, k, lease, now)))
  {
    InitInv(maxAttempts, s0);
    RunKeepsInv(maxAttempts, s0, steps);
    SweepSweeps(maxAttempts, Run(maxAttempts, s0, steps), k.source, now);
    forall k | k in s0.rows
      ensures Serviceable(s0.rows[k], maxAttempts)
    {
      var raw :| s0.rows[k] == InsertRow(Prepare(raw));
      PreparedRowsAgree(raw);
    }
    RunKeepsServiceable(maxAttempts, s0, steps);
    ReadyRowsAreMatched(Run(maxAttempts, s0, steps).rows[k], maxAttempts, now);
  }

  // ------------------------------------------------------- complete means text

  predicate AllTidy(s: State) {
    forall k :: k in s.rows ==> Tidy(s.rows[k])
  }

  /** A step keeps every row tidy exactly unless a loader inserts a record outside
      the crawlers' convention or an import smuggles text into a row without any. */
  predicate Untidies(s: State, step: Step) {
    && (step.Load? || step.LegacyLoad?)
    && if step.key in s.rows then step.LegacyLoad? && SmugglesText(s.rows[step.key], step.raw)
       else !FollowsCrawler(step.raw)
  }

  lemma StepKeepsTidy(maxAttempts: nat, s: State, step: Step)
    requires Inv(maxAttempts, s) && AllTidy(s) && Enabled(maxAttempts, s, step)
    ensures AllTidy(Apply(maxAttempts, s, step)) <==> !Untidies(s, step)
  {
    if step.Load? || step.LegacyLoad? {
      InsertIsGood(step.raw, maxAttempts);
      if step.key in s.rows {
        UpsertKeepsGood(s.rows[step.key], step.raw, maxAttempts);
        LegacyKeepsGood(s.rows[step.key], step.raw, maxAttempts);
      }
      assert step.key in Apply(maxAttempts, s, step).rows;
    }
  }

  /** While every record follows the crawlers' convention, a row is complete if
      and only if it has text, in every reachable state. */
  lemma {:induction false} CompleteMeansText(maxAttempts: nat, s: State, steps: seq<Step>)
    requires Inv(maxAttempts, s) && AllTidy(s) && ValidRun(maxAttempts, s, steps)
    requires forall i :: 0 <= i < |steps| && (steps[i].Load? || steps[i].LegacyLoad?) ==> FollowsCrawler(steps[i].raw)
    ensures AllTidy(Run(maxAttempts, s, steps))
    ensures forall k :: k in Run(maxAttempts, s, steps).rows ==>
      (Run(maxAttempts, s, steps).rows[k].needOcr == X <==> !Blank(Run(maxAttempts, s, steps).rows[k].body))
    decreases |steps|
  {
    if steps == [] {
    } else {
      StepKeepsInv(maxAttempts, s, steps[0]);
      StepKeepsTidy(maxAttempts, s, steps[0]);
      var t := Apply(maxAttempts, s, steps[0]);
      CompleteMeansText(maxAttempts, t, steps[1..]);
      assert Run(maxAttempts, s, steps) == Run(maxAttempts, t, steps[1..]);
    }
  }

  // ------------------------------------------------------- where imports go wrong

  const NOTHING: State := State(map[], map[])

  /** From the empty table: a posting crawled with one image meets a legacy record
      that waits for OCR and yet carries text. The import refuses its own result. */
  lemma ImportCanRefuse(maxAttempts: nat, k: Key)
    ensures var run := [Load(k, RawRow("O", "", ["image"]))];
      && ValidRun(maxAttempts, NOTHING, run)
      && var s := Run(maxAttempts, NOTHING, run);
         k in s.rows && !PostCheck(LegacyRows(s.rows, k, Prepare(RawRow("O", "text", [])))[k])
  {
    var run := [Load(k, RawRow("O", "", ["image"]))];
    assert run[1..] == [];
    assert Blank("") && !Blank("text") by {
      assert !IsSpace("text"[0]);
    }
    assert Run(maxAttempts, NOTHING, run) == Apply(maxAttempts, NOTHING, run[0]);
  }

  /** From the empty table: a posting crawled without images meets a legacy record
      that has one. The row is left dead, with no attempt made, and nothing will
      ever pick it up. */
  lemma ImportCanStrand(maxAttempts: nat, k: Key, now: int)
    requires maxAttempts >= 1
    ensures var run := [Load(k, RawRow("O", "", [])), LegacyLoad(k, RawRow("O", "", ["image"]))];
      && ValidRun(maxAttempts, NOTHING, run)
      && var s := Run(maxAttempts, NOTHING, run);
         && k in s.rows && s.rows[k].images != [] && s.rows[k].attempts == 0
         && !Serviceable(s.rows[k], maxAttempts)
         && !Claimable(s.rows[k], maxAttempts, now) && !Exhausted(s.rows[k], maxAttempts, now)
  {
    var run := [Load(k, RawRow("O", "", [])), LegacyLoad(k, RawRow("O", "", ["image"]))];
    assert run[1..] == [run[1]] && run[1..][1..] == [];
    var s1 := Apply(maxAttempts, NOTHING, run[0]);
    assert ValidRun(maxAttempts, s1, [run[1]]);
    assert Run(maxAttempts, NOTHING, run) == Run(maxAttempts, s1, [run[1]]) == Apply(maxAttempts, s1, run[1]);
  }

  // ------------------------------------------------------ what the workers survive

  /** From the empty table: a completion whose acknowledgement is lost is sent again.
      Both are possible, the first one lands, the second finds the row done. */
  lemma LostAcknowledgement(maxAttempts: nat, k: Key, w: string, text: string)
    requires maxAttempts >= 1 && !Blank(text)
    ensures var crawled, s1, s2 := Load(k, RawRow("O", "", ["image"])), Crawled(k), Working(k, w);
      && Enabled(maxAttempts, NOTHING, crawled) && Apply(maxAttempts, NOTHING, crawled) == s1
      && Moves2(maxAttempts, s1, Start(w, k.source), ClaimNext(w, k, 60, 0), s2)
      && Enabled(maxAttempts, s2, Finish(w, text, false))
      && var s3 := Apply(maxAttempts, s2, Finish(w, text, false));
         && k in s3.rows && s3.rows[k].body == text && w in s3.workers && s3.workers[w] == s2.workers[w]
         && Enabled(maxAttempts, s3, Finish(w, text, true)) && Apply(maxAttempts, s3, Finish(w, text, true)).rows == s3.rows
  {
    CrawledAndClaimed(maxAttempts, k, w);
  }

  /** From the empty table: a worker claims and crashes. Once its lease is over another
      one of its source can claim the same row, as the second attempt. */
  lemma CrashedClaimIsTakenOver(maxAttempts: nat, k: Key, w: string, v: string)
    requires maxAttempts >= 2 && v != w
    ensures var s2 := Working(k, w);
      && Enabled(maxAttempts, s2, Crash(w))
      && var s3 := Apply(maxAttempts, s2, Crash(w));
         && Enabled(maxAttempts, s3, Start(v, k.source))
         && var s4 := Apply(maxAttempts, s3, Start(v, k.source));
            && !Enabled(maxAttempts, s4, ClaimNext(v, k, 60, 59))
            && Enabled(maxAttempts, s4, ClaimNext(v, k, 60, 60))
            && var s5 := Apply(maxAttempts, s4, ClaimNext(v, k, 60, 60));
               s5.rows[k].worker == Some(v) && s5.rows[k].attempts == 2
               && !Lands(s5, Finish(w, "text", true), k)
  {
    CrawledAndClaimed(maxAttempts, k, w);
  }

  /** One posting crawled with one image, and one worker on it. */
  function Crawled(k: Key): State {
    State(map[k := Row(O, "", NoText, ["image"], Pending, 0, None, None, None, None)], map[])
  }

  function Working(k: Key, w: string): State {
    State(map[k := Row(O, "", NoText, ["image"], Processing, 1, None, None, Some(60), Some(w))],
          map[w := Worker(k.source, Some(Claim(k, ["image"], 1)), false)])
  }

  predicate Moves2(maxAttempts: nat, s: State, first: Step, second: Step, t: State) {
    && Enabled(maxAttempts, s, first)
    && Enabled(maxAttempts, Apply(maxAttempts, s, first), second)
    && Apply(maxAttempts, Apply(maxAttempts, s, first), second) == t
  }

  lemma CrawledAndClaimed(maxAttempts: nat, k: Key, w: string)
    requires maxAttempts >= 1
    ensures var crawled := Load(k, RawRow("O", "", ["image"]));
      && Enabled(maxAttempts, NOTHING, crawled) && Apply(maxAttempts, NOTHING, crawled) == Crawled(k)
      && Moves2(maxAttempts, Crawled(k), Start(w, k.source), ClaimNext(w, k, 60, 0), Working(k, w))
  {
    var s := Apply(maxAttempts, Crawled(k), Start(w, k.source));
    assert s.workers == map[w := Worker(k.source, None, false)];
    var t := Apply(maxAttempts, s, ClaimNext(w, k, 60, 0));
    assert t.rows[k] == Working(k, w).rows[k];
    assert t.rows == Working(k, w).rows && t.workers == Working(k, w).workers;
  }

  // --------------------------------------------------------- draining terminates

  /** Attempts left over the whole table. */
  ghost function AttemptsLeft(maxAttempts: nat, rows: map<Key, Row>): int
    decreases |rows|
  {
    if rows == map[] then 0
    else
      var k :| k in rows;
      maxAttempts - rows[k].attempts + AttemptsLeft(maxAttempts, rows - {k})
  }

  lemma {:induction false} AttemptsLeftWithout(maxAttempts: nat, rows: map<Key, Row>, k: Key)
    requires k in rows
    ensures AttemptsLeft(maxAttempts, rows) ==
      maxAttempts - rows[k].attempts + AttemptsLeft(maxAttempts, rows - {k})
    decreases |rows|
  {
    var p :| p in rows && AttemptsLeft(maxAttempts, rows) ==
      maxAttempts - rows[p].attempts + AttemptsLeft(maxAttempts, rows - {p});
    if p == k {
    } else {
      AttemptsLeftWithout(maxAttempts, rows - {p}, k);
      AttemptsLeftWithout(maxAttempts, rows - {k}, p);
      assert rows - {p} - {k} == rows - {k} - {p};
    }
  }

  lemma {:induction false} AttemptsLeftAgrees(maxAttempts: nat, a: map<Key, Row>, b: map<Key, Row>)
    requires a.Keys == b.Keys && forall k :: k in a ==> a[k].attempts == b[k].attempts
    ensures AttemptsLeft(maxAttempts, a) == AttemptsLeft(maxAttempts, b)
    decreases |a|
  {
    if a != map[] {
      var k :| k in a;
      AttemptsLeftWithout(maxAttempts, a, k);
      AttemptsLeftWithout(maxAttempts, b, k);
      AttemptsLeftAgrees(maxAttempts, a - {k}, b - {k});
    } else {
      assert b == map[];
    }
  }

  lemma {:induction false} AttemptsLeftNonNegative(maxAttempts: nat, rows: map<Key, Row>)
    requires forall k :: k in rows ==> rows[k].attempts <= maxAttempts
    ensures AttemptsLeft(maxAttempts, rows) >= 0
    decreases |rows|
  {
    if rows == map[] {
    } else {
      var k :| k in rows;
      AttemptsLeftWithout(maxAttempts, rows, k);
      AttemptsLeftNonNegative(maxAttempts, rows - {k});
    }
  }

  predicate IsLoad(step: Step) {
    step.Load? || step.LegacyLoad?
  }

  function Claims(steps: seq<Step>): nat {
    if steps == [] then 0 else (if steps[0].ClaimNext? then 1 else 0) + Claims(steps[1..])
  }

  /** Without loads every claim, whoever makes it, burns exactly one attempt and nothing else does. */
  lemma StepConservesAttempts(maxAttempts: nat, s: State, step: Step)
    requires Enabled(maxAttempts, s, step) && !IsLoad(step)
    ensures AttemptsLeft(maxAttempts, Apply(maxAttempts, s, step).rows) + Claims([step]) ==
      AttemptsLeft(maxAttempts, s.rows)
  {
    var t := Apply(maxAttempts, s, step);
    assert [step][1..] == [];
    if step.ClaimNext? {
      AttemptsLeftWithout(maxAttempts, s.rows, step.key);
      AttemptsLeftWithout(maxAttempts, t.rows, step.key);
      assert s.rows - {step.key} == t.rows - {step.key};
    } else {
      AttemptsLeftAgrees(maxAttempts, s.rows, t.rows);
    }
  }

  /** Over any load-free run of any number of workers, claims granted plus
      attempts left equal the attempts left at the start: the queue drains. */
  lemma {:induction false} ClaimsAreConserved(maxAttempts: nat, s: State, steps: seq<Step>)
    requires ValidRun(maxAttempts, s, steps)
    requires forall i :: 0 <= i < |steps| ==> !IsLoad(steps[i])
    ensures AttemptsLeft(maxAttempts, Run(maxAttempts, s, steps).rows) + Claims(steps) ==
      AttemptsLeft(maxAttempts, s.rows)
    ensures Inv(maxAttempts, s) ==> Claims(steps) <= AttemptsLeft(maxAttempts, s.rows)
    decreases |steps|
  {
    if steps == [] {
    } else {
      StepConservesAttempts(maxAttempts, s, steps[0]);
      assert [steps[0]][1..] == [];
      ClaimsAreConserved(maxAttempts, Apply(maxAttempts, s, steps[0]), steps[1..]);
    }
    if Inv(maxAttempts, s) {
      RunKeepsInv(maxAttempts, s, steps);
      AttemptsLeftNonNegative(maxAttempts, Run(maxAttempts, s, steps).rows);
    }
  }
}
