/** One row of job_postings: the load normalisation, the two ON CONFLICT CASE
    tables, the worker's UPDATE statements, and what each keeps of a row. */
module OcrRow {
  import opened Common

  datatype NeedOcr = O | X

  datatype TextSource = NoText | Original | FromOcr

  datatype Status = NotRequired | Pending | Processing | RetryWait | Succeeded | Dead

  /** The OCR-relevant columns. Times are minutes; NULL text is the empty string. */
  datatype Row = Row(
    needOcr: NeedOcr,
    body: string,
    textSource: TextSource,
    images: seq<string>,
    status: Status,
    attempts: nat,
    lastError: Option<string>,
    nextRetry: Option<int>,
    lease: Option<int>,
    worker: Option<string>)

  // ---------------------------------------------------------------- loading

  /** A crawled or legacy record before normalisation. */
  datatype RawRow = RawRow(needOcr: string, body: string, images: seq<string>)

  /** The columns a loader offers as EXCLUDED. */
  datatype Incoming = Incoming(
    needOcr: NeedOcr,
    body: string,
    textSource: TextSource,
    images: seq<string>,
    status: Status)

  function NormalizeRowForLoad(raw: RawRow): RawRow {
    if raw.needOcr != "X" || Blank(raw.body) then raw.(needOcr := "O") else raw
  }

  function TextSourceOf(raw: RawRow): TextSource {
    if raw.needOcr == "O" || raw.body == "" then NoText
    else if raw.images != [] then FromOcr
    else Original
  }

  function OcrStatusOf(raw: RawRow): Status {
    if raw.needOcr == "O" || Blank(raw.body) then
      if raw.images != [] then Pending else Dead
    else if TextSourceOf(raw) == FromOcr then Succeeded
    else NotRequired
  }

  /** What row_values writes for a record that went through normalisation. */
  function Prepare(raw: RawRow): Incoming {
    var n := NormalizeRowForLoad(raw);
    Incoming(if n.needOcr == "O" then O else X, n.body, TextSourceOf(n), n.images, OcrStatusOf(n))
  }

  /** The crawlers' convention: a record still waiting for OCR carries no text. */
  predicate FollowsCrawler(raw: RawRow) {
    raw.needOcr != "X" ==> Blank(raw.body)
  }

  /** The guard spelled with the text_source test. */
  predicate Completes(e: Incoming) {
    !Blank(e.body) && e.textSource != NoText && e.needOcr == X
  }

  /** The guard spelled without it. */
  predicate CarriesBody(e: Incoming) {
    !Blank(e.body) && e.needOcr == X
  }

  /** On every record that went through normalisation the two spellings of the
      guard agree, and status, text source and need_ocr tell one story: a record
      marked complete that has text is complete, by OCR if it has images and as
      crawled if not; any other waits, or is dead without images. Text and images
      are the record's own. */
  lemma PreparedRowsAgree(raw: RawRow)
    ensures var e := Prepare(raw); var complete := raw.needOcr == "X" && !Blank(raw.body);
      && e.body == raw.body && e.images == raw.images
      && (complete && raw.images != [] ==> e.needOcr == X && e.textSource == FromOcr && e.status == Succeeded)
      && (complete && raw.images == [] ==> e.needOcr == X && e.textSource == Original && e.status == NotRequired)
      && (!complete && raw.images != [] ==> e.needOcr == O && e.textSource == NoText && e.status == Pending)
      && (!complete && raw.images == [] ==> e.needOcr == O && e.textSource == NoText && e.status == Dead)
    ensures var e := Prepare(raw);
      && Completes(e) == CarriesBody(e) == (e.needOcr == X)
      && (e.needOcr == X <==> raw.needOcr == "X" && !Blank(raw.body))
      && (e.needOcr == X <==> e.textSource != NoText)
      && (e.needOcr == X <==> e.status.NotRequired? || e.status.Succeeded?)
      && (e.needOcr == O ==> e.status == if e.images != [] then Pending else Dead)
      && (FollowsCrawler(raw) ==> (e.needOcr == O <==> Blank(e.body)))
  {
    assert Blank("");
  }

  /** The row an INSERT without conflict creates. */
  function InsertRow(e: Incoming): Row {
    Row(e.needOcr, e.body, e.textSource, e.images, e.status, 0, None, None, None, None)
  }

  /** A crawl waiting for OCR that brings other, non-empty images. */
  predicate BringsNewImages(j: Row, e: Incoming) {
    e.needOcr == O && e.images != [] && e.images != j.images
  }

  /** The loader's ON CONFLICT table, one CASE per column. */
  function UpsertColumns(j: Row, e: Incoming): Row {
    Row(
      if Completes(e) then e.needOcr else j.needOcr,
      if Completes(e) then e.body else j.body,
      if Completes(e) then e.textSource else j.textSource,
      if e.images != [] then e.images else j.images,
      if Completes(e) then e.status
      else if j.needOcr == X && !Blank(j.body) then j.status
      else if BringsNewImages(j, e) then Pending
      else j.status,
      if j.needOcr == O && BringsNewImages(j, e) then 0 else j.attempts,
      if CarriesBody(e) then None
      else if j.needOcr == O && BringsNewImages(j, e) then None
      else j.lastError,
      if CarriesBody(e) then None
      else if j.needOcr == O && BringsNewImages(j, e) then None
      else j.nextRetry,
      if CarriesBody(e) then None else j.lease,
      if CarriesBody(e) then None else j.worker)
  }

  /** The legacy import's ON CONFLICT table, one CASE per column. */
  function LegacyColumns(j: Row, e: Incoming): Row {
    var fills := Blank(j.body) && !Blank(e.body);
    var firstImages := j.images == [] && e.images != [];
    Row(
      if !Blank(j.body) || !Blank(e.body) then X else O,
      if fills then e.body else j.body,
      if fills then e.textSource else j.textSource,
      if firstImages then e.images else j.images,
      if !Blank(j.body) then j.status
      else if !Blank(e.body) then e.status
      else if j.status.Pending? || j.status.Processing? || j.status.RetryWait? || j.status.Dead? then j.status
      else e.status,
      if firstImages then 0 else j.attempts,
      if !Blank(e.body) || firstImages then None else j.lastError,
      if !Blank(e.body) || firstImages then None else j.nextRetry,
      if !Blank(e.body) then None else j.lease,
      if !Blank(e.body) then None else j.worker)
  }

  /** The BEFORE UPDATE trigger: need_ocr moved but the status did not follow. */
  function NormalizeTrigger(before: Row, after: Row): Row {
    if after.needOcr != before.needOcr && after.status == before.status then
      after.(
        status :=
          if after.needOcr == O && after.images != [] then Pending
          else if after.needOcr == O then Dead
          else if after.textSource == FromOcr then Succeeded
          else NotRequired,
        lastError := if after.needOcr == O && after.images == [] then Some("missing_image_urls") else None,
        nextRetry := None,
        lease := None,
        worker := None)
    else after
  }

  function UpsertRow(j: Row, e: Incoming): Row {
    NormalizeTrigger(j, UpsertColumns(j, e))
  }

  function LegacyUpsertRow(j: Row, e: Incoming): Row {
    NormalizeTrigger(j, LegacyColumns(j, e))
  }

  // --------------------------------------------------- the worker's statements

  /** A time that has passed; a missing time always has. */
  predicate Due(t: Option<int>, now: int) {
    t.None? || t.value <= now
  }

  predicate Claimable(r: Row, maxAttempts: nat, now: int) {
    && r.needOcr == O
    && |r.images| > 0
    && r.attempts < maxAttempts
    && (|| r.status.Pending?
        || (r.status.RetryWait? && Due(r.nextRetry, now))
        || (r.status.Processing? && Due(r.lease, now)))
  }

  function ClaimRow(r: Row, worker: string, leaseMinutes: int, now: int): Row {
    NormalizeTrigger(r, r.(
      status := Processing,
      attempts := r.attempts + 1,
      worker := Some(worker),
      lease := Some(now + leaseMinutes)))
  }

  /** The WHERE clause both completions share. */
  predicate HeldBy(r: Row, worker: string) {
    r.status.Processing? && r.worker == Some(worker)
  }

  function SuccessRow(r: Row, text: string): Row {
    NormalizeTrigger(r, r.(
      body := text,
      textSource := FromOcr,
      needOcr := X,
      status := Succeeded,
      lastError := None,
      nextRetry := None,
      lease := None,
      worker := None))
  }

  function Pow2(n: nat): (r: nat) {
    if n == 0 then 1 else 2 * Pow2(n - 1)
  }

  const RETRY_CAP_MINUTES := 1440

  function RetryDelayMinutes(attempt: nat, baseMinutes: nat): (r: nat) {
    var d := baseMinutes * Pow2(if attempt > 0 then attempt - 1 else 0);
    if d < RETRY_CAP_MINUTES then d else RETRY_CAP_MINUTES
  }

  /** The first attempt's failure waits the base time; from then on the back-off
      doubles with every further attempt until it reaches the cap, and never exceeds it. */
  lemma BackoffDoublesToCap(attempt: nat, baseMinutes: nat)
    ensures attempt <= 1 ==>
      RetryDelayMinutes(attempt, baseMinutes) == if baseMinutes < RETRY_CAP_MINUTES then baseMinutes else RETRY_CAP_MINUTES
    ensures attempt >= 1 ==> var d := RetryDelayMinutes(attempt, baseMinutes);
      && d <= RETRY_CAP_MINUTES
      && d <= RetryDelayMinutes(attempt + 1, baseMinutes)
      && RetryDelayMinutes(attempt + 1, baseMinutes) == (if 2 * d < RETRY_CAP_MINUTES then 2 * d else RETRY_CAP_MINUTES)
  {
    if attempt >= 1 {
      assert baseMinutes * Pow2(attempt) == 2 * (baseMinutes * Pow2(attempt - 1));
    }
  }

  function FailureStatus(attempt: nat, maxAttempts: nat): Status {
    if attempt >= maxAttempts then Dead else RetryWait
  }

  function FailureDelay(attempt: nat, maxAttempts: nat, baseMinutes: nat): nat {
    if FailureStatus(attempt, maxAttempts).Dead? then 0 else RetryDelayMinutes(attempt, baseMinutes)
  }

  function Truncate(error: string): string {
    if |error| <= 2000 then error else error[..2000]
  }

  function FailureRow(r: Row, attempt: nat, maxAttempts: nat, baseMinutes: nat, error: string, now: int): Row {
    var status := FailureStatus(attempt, maxAttempts);
    NormalizeTrigger(r, r.(
      status := status,
      lastError := Some(Truncate(error)),
      nextRetry := if status.RetryWait? then Some(now + FailureDelay(attempt, maxAttempts, baseMinutes)) else None,
      lease := None,
      worker := None))
  }

  predicate Exhausted(r: Row, maxAttempts: nat, now: int) {
    && r.needOcr == O
    && r.attempts >= maxAttempts
    && (r.status.RetryWait? || (r.status.Processing? && Due(r.lease, now)))
  }

  function ExhaustRow(r: Row): Row {
    NormalizeTrigger(r, r.(
      status := Dead,
      lastError := if r.lastError.Some? then r.lastError else Some("lease_expired_after_max_attempts"),
      nextRetry := None,
      lease := None,
      worker := None))
  }

  // ------------------------------------------------------------- the invariant

  predicate Completed(s: Status) {
    s.NotRequired? || s.Succeeded?
  }

  /** What every reachable row satisfies, whoever wrote it last and whatever
      record it came from. */
  predicate Good(r: Row, maxAttempts: nat) {
    && (r.needOcr == X ==> !Blank(r.body))
    && (r.needOcr == X <==> Completed(r.status))
    && r.attempts <= maxAttempts
    && (r.needOcr == X ==> r.lastError.None?)
    && (r.needOcr == X || r.status.Dead? ==> r.nextRetry.None? && r.lease.None? && r.worker.None?)
    && (r.needOcr == O && !r.status.Dead? ==> r.images != [])
    && (r.status.Pending? ==> r.attempts == 0 && r.nextRetry.None?)
    && (r.status.RetryWait? ==> 1 <= r.attempts < maxAttempts && r.nextRetry.Some? && r.lease.None? && r.worker.None?)
    && (r.status.Processing? ==> 1 <= r.attempts && r.lease.Some? && r.worker.Some?)
  }

  /** The other half of "complete exactly when there is text": a row waiting for
      OCR has none, and the text source says which it is. */
  predicate Tidy(r: Row) {
    && (r.needOcr == O ==> Blank(r.body))
    && (r.needOcr == X <==> r.textSource != NoText)
  }

  /** A fresh row holds the record's text and images and no trace of an attempt. */
  predicate Inserted(raw: RawRow, r: Row) {
    && (r.needOcr == X <==> raw.needOcr == "X" && !Blank(raw.body))
    && r.textSource == (if r.needOcr == O then NoText else if raw.images != [] then FromOcr else Original)
    && r.body == raw.body && r.images == raw.images
    && (r.needOcr == X ==> r.status == if raw.images != [] then Succeeded else NotRequired)
    && (r.needOcr == O ==> r.status == if raw.images != [] then Pending else Dead)
    && r.attempts == 0 && r.lastError.None? && r.nextRetry.None? && r.lease.None? && r.worker.None?
  }

  /** A fresh insert is good for every record, and tidy exactly for those that
      follow the crawlers' convention. */
  lemma InsertIsGood(raw: RawRow, maxAttempts: nat)
    ensures Inserted(raw, InsertRow(Prepare(raw)))
    ensures Good(InsertRow(Prepare(raw)), maxAttempts)
    ensures Tidy(InsertRow(Prepare(raw))) <==> FollowsCrawler(raw)
  {
    PreparedRowsAgree(raw);
  }

  /** The loader keeps every good row good, and tidy if it was, whatever the
      record holds; the trigger has nothing to repair. */
  lemma UpsertKeepsGood(j: Row, raw: RawRow, maxAttempts: nat)
    requires Good(j, maxAttempts)
    ensures Good(UpsertRow(j, Prepare(raw)), maxAttempts)
    ensures Tidy(j) ==> Tidy(UpsertRow(j, Prepare(raw)))
    ensures UpsertRow(j, Prepare(raw)) == UpsertColumns(j, Prepare(raw))
  {
    PreparedRowsAgree(raw);
  }

  /** A record not marked complete brings text to a row that has none. */
  predicate SmugglesText(j: Row, raw: RawRow) {
    raw.needOcr != "X" && !Blank(raw.body) && Blank(j.body)
  }

  /** Over any record, the legacy table keeps a good row good exactly when the
      import's own verification accepts the result, and a tidy row tidy exactly
      unless the record smuggles text in. */
  lemma LegacyKeepsGood(j: Row, raw: RawRow, maxAttempts: nat)
    requires Good(j, maxAttempts)
    ensures Good(LegacyUpsertRow(j, Prepare(raw)), maxAttempts) <==> PostCheck(LegacyUpsertRow(j, Prepare(raw)))
    ensures Tidy(j) ==> (Tidy(LegacyUpsertRow(j, Prepare(raw))) <==> !SmugglesText(j, raw))
    ensures Tidy(j) && FollowsCrawler(raw) ==> LegacyUpsertRow(j, Prepare(raw)) == LegacyColumns(j, Prepare(raw))
  {
    PreparedRowsAgree(raw);
  }

  /** The loader's ten CASE expressions amount to three whole-row cases: a complete
      record takes the row over, new images restart a waiting row, and anything
      else changes no more than the images. */
  lemma UpsertInThreeCases(j: Row, raw: RawRow, maxAttempts: nat)
    requires Good(j, maxAttempts)
    ensures var images := if raw.images != [] then raw.images else j.images;
      UpsertRow(j, Prepare(raw)) ==
        if raw.needOcr == "X" && !Blank(raw.body) then
          Row(X, raw.body, if raw.images != [] then FromOcr else Original, images,
              if raw.images != [] then Succeeded else NotRequired, j.attempts, None, None, None, None)
        else if j.needOcr == O && raw.images != [] && raw.images != j.images then
          j.(images := images, status := Pending, attempts := 0, lastError := None, nextRetry := None)
        else j.(images := images)
  {
    PreparedRowsAgree(raw);
  }

  /** The legacy table likewise, on any record: it never replaces text or images.
      A row with text keeps it and is complete from then on; one without takes
      the record's text, or its first images, or nothing. Where the statuses
      coincide although the text is new, the trigger completes the row. */
  lemma LegacyByCases(j: Row, raw: RawRow, maxAttempts: nat)
    requires Good(j, maxAttempts)
    ensures var first := j.images == [] && raw.images != [];
      var images, attempts := if first then raw.images else j.images, if first then 0 else j.attempts;
      var complete := if j.textSource == FromOcr then Succeeded else NotRequired;
      var source := if raw.needOcr != "X" then NoText else if raw.images != [] then FromOcr else Original;
      var status := if raw.needOcr != "X" then (if raw.images != [] then Pending else Dead)
                    else if raw.images != [] then Succeeded else NotRequired;
      LegacyUpsertRow(j, Prepare(raw)) ==
        if j.needOcr == X then j.(images := images, attempts := attempts)
        else if !Blank(j.body) then Row(X, j.body, j.textSource, images, complete, attempts, None, None, None, None)
        else if !Blank(raw.body) then
          Row(X, raw.body, source, images, if status == j.status then NotRequired else status, attempts,
              None, None, None, None)
        else if first then j.(images := images, attempts := 0, lastError := None, nextRetry := None)
        else j
  {
    PreparedRowsAgree(raw);
  }

  /** Until its lease runs out a claimed row cannot be claimed again; from then on
      it can, while attempts are left. */
  lemma LeaseExcludes(r: Row, maxAttempts: nat, worker: string, leaseMinutes: int, now: int, t: int)
    requires Good(r, maxAttempts) && Claimable(r, maxAttempts, now)
    ensures Claimable(ClaimRow(r, worker, leaseMinutes, now), maxAttempts, t) <==>
      now + leaseMinutes <= t && r.attempts + 1 < maxAttempts
  {
  }

  /** A failed row waits out exactly its back-off, and only while attempts are left. */
  lemma FailureWaitsOutBackoff(r: Row, maxAttempts: nat, worker: string, baseMinutes: nat, error: string, now: int,
                               t: int)
    requires Good(r, maxAttempts) && HeldBy(r, worker)
    ensures Claimable(FailureRow(r, r.attempts, maxAttempts, baseMinutes, error, now), maxAttempts, t) <==>
      r.attempts < maxAttempts && now + RetryDelayMinutes(r.attempts, baseMinutes) <= t
  {
  }

  // ----------------------------------- what each statement leaves, column by column

  /** A claimed row: the worker's until the lease ends, one attempt more; text,
      images and history as they were. */
  predicate TakenOver(r: Row, after: Row, worker: string, leaseMinutes: int, now: int) {
    && after.status.Processing? && after.worker == Some(worker) && after.lease == Some(now + leaseMinutes)
    && after.attempts == r.attempts + 1
    && after.needOcr == r.needOcr && after.body == r.body && after.textSource == r.textSource
    && after.images == r.images && after.lastError == r.lastError && after.nextRetry == r.nextRetry
  }

  /** A completed row: the text, and nobody's any more. */
  predicate FilledIn(r: Row, after: Row, text: string) {
    && after.status.Succeeded? && after.needOcr == X && after.body == text && after.textSource == FromOcr
    && after.images == r.images && after.attempts == r.attempts
    && after.lastError.None? && after.nextRetry.None? && after.lease.None? && after.worker.None?
  }

  /** A failed row: put back until its back-off is over, or dead after the last
      attempt; the error is kept up to its first 2000 characters. */
  predicate PutBack(r: Row, after: Row, attempt: nat, maxAttempts: nat, baseMinutes: nat, error: string, now: int) {
    && (attempt < maxAttempts ==>
          after.status.RetryWait? && after.nextRetry == Some(now + RetryDelayMinutes(attempt, baseMinutes)))
    && (attempt >= maxAttempts ==> after.status.Dead? && after.nextRetry.None?)
    && after.lastError.Some? && after.lastError.value <= error
    && (|after.lastError.value| == |error| || |after.lastError.value| == 2000 < |error|)
    && after.lease.None? && after.worker.None?
    && after.needOcr == r.needOcr && after.body == r.body && after.textSource == r.textSource
    && after.images == r.images && after.attempts == r.attempts
  }

  /** A swept row: dead and nobody's, with an error to show for it. */
  predicate GivenUp(r: Row, after: Row) {
    && after.status.Dead? && after.nextRetry.None? && after.lease.None? && after.worker.None?
    && (r.lastError.Some? ==> after.lastError == r.lastError)
    && (r.lastError.None? ==> after.lastError == Some("lease_expired_after_max_attempts"))
    && after.needOcr == r.needOcr && after.body == r.body && after.textSource == r.textSource
    && after.images == r.images && after.attempts == r.attempts
  }

  /** Whatever a statement leaves where need_ocr moved and the status did not, the
      trigger makes one story of it; anything else it leaves alone. */
  lemma TriggerTellsOneStory(before: Row, after: Row)
    ensures var n := NormalizeTrigger(before, after);
      if after.needOcr == before.needOcr || after.status != before.status then n == after
      else
        && (Completed(n.status) <==> n.needOcr == X)
        && (n.status.Succeeded? <==> n.needOcr == X && n.textSource == FromOcr)
        && (n.status.Dead? <==> n.needOcr == O && n.images == []) && (n.status.Pending? <==> n.needOcr == O && n.images != [])
        && (n.status.Dead? ==> n.lastError == Some("missing_image_urls")) && (!n.status.Dead? ==> n.lastError.None?)
        && n.nextRetry.None? && n.lease.None? && n.worker.None?
        && n.needOcr == after.needOcr && n.body == after.body && n.textSource == after.textSource
        && n.images == after.images && n.attempts == after.attempts
  {
  }

  lemma ClaimKeepsGood(r: Row, maxAttempts: nat, worker: string, leaseMinutes: int, now: int)
    requires Good(r, maxAttempts) && Claimable(r, maxAttempts, now)
    ensures Good(ClaimRow(r, worker, leaseMinutes, now), maxAttempts)
    ensures HeldBy(ClaimRow(r, worker, leaseMinutes, now), worker)
    ensures TakenOver(r, ClaimRow(r, worker, leaseMinutes, now), worker, leaseMinutes, now)
    ensures Tidy(r) ==> Tidy(ClaimRow(r, worker, leaseMinutes, now))
  {
  }

  lemma SuccessKeepsGood(r: Row, maxAttempts: nat, worker: string, text: string)
    requires Good(r, maxAttempts) && HeldBy(r, worker) && !Blank(text)
    ensures Good(SuccessRow(r, text), maxAttempts) && Tidy(SuccessRow(r, text))
    ensures FilledIn(r, SuccessRow(r, text), text)
  {
  }

  lemma FailureKeepsGood(r: Row, maxAttempts: nat, worker: string, baseMinutes: nat, error: string, now: int)
    requires Good(r, maxAttempts) && HeldBy(r, worker)
    ensures Good(FailureRow(r, r.attempts, maxAttempts, baseMinutes, error, now), maxAttempts)
    ensures PutBack(r, FailureRow(r, r.attempts, maxAttempts, baseMinutes, error, now),
                    r.attempts, maxAttempts, baseMinutes, error, now)
    ensures Tidy(r) ==> Tidy(FailureRow(r, r.attempts, maxAttempts, baseMinutes, error, now))
  {
  }

  lemma ExhaustKeepsGood(r: Row, maxAttempts: nat, now: int)
    requires Good(r, maxAttempts) && Exhausted(r, maxAttempts, now)
    ensures Good(ExhaustRow(r), maxAttempts) && (Tidy(r) ==> Tidy(ExhaustRow(r)))
    ensures GivenUp(r, ExhaustRow(r))
    ensures r.status.Processing? && r.attempts == maxAttempts
  {
  }

  // --------------------------------------------------- the legacy post-check

  /** What the import verifies of a loaded row before it commits. */
  predicate PostCheck(r: Row) {
    || (r.needOcr == X && !Blank(r.body) && Completed(r.status))
    || (r.needOcr == O && !Completed(r.status))
  }

  /** Over any good row and any record at all, the import's own verification
      rejects the upserted row in exactly one case: a record that is not marked
      complete but nevertheless carries text meets a row that has none, and the
      two statuses differ. (When they coincide the trigger sees need_ocr move
      under an unmoved status and repairs it.) */
  lemma PostCheckExactly(j: Row, raw: RawRow, maxAttempts: nat)
    requires Good(j, maxAttempts)
    ensures PostCheck(LegacyUpsertRow(j, Prepare(raw)))
       <==> !(SmugglesText(j, raw) && j.status != (if raw.images != [] then Pending else Dead))
  {
    PreparedRowsAgree(raw);
    var e := Prepare(raw);
    var n := LegacyColumns(j, e);
    if Blank(j.body) && !Blank(e.body) {
      assert n.needOcr == X && n.status == e.status;
    }
  }

  lemma PostCheckOnInsert(raw: RawRow)
    ensures PostCheck(InsertRow(Prepare(raw)))
  {
    PreparedRowsAgree(raw);
  }

  // ------------------------------------------------------------ nothing is stuck

  /** A row with images gives up only after all its attempts. */
  predicate Serviceable(r: Row, maxAttempts: nat) {
    r.needOcr == O && r.images != [] && r.status.Dead? ==> r.attempts == maxAttempts
  }

  /** The moment from which a live waiting row is matched by a statement. */
  function ReadyAt(r: Row): int {
    if r.status.RetryWait? && r.nextRetry.Some? then r.nextRetry.value
    else if r.status.Processing? && r.lease.Some? then r.lease.value
    else 0
  }

  /** Until its retry time or lease has passed no statement matches a live waiting
      row; from then on the claim does if attempts are left, and the sweep if none
      are. Dead and complete rows are matched by neither. */
  lemma ReadyRowsAreMatched(r: Row, maxAttempts: nat, now: int)
    requires Good(r, maxAttempts) && maxAttempts >= 1
    ensures Claimable(r, maxAttempts, now) <==>
      || (r.status.Pending? && r.needOcr == O)
      || (r.status.RetryWait? && r.nextRetry.value <= now)
      || (r.status.Processing? && r.lease.value <= now && r.attempts < maxAttempts)
    ensures Exhausted(r, maxAttempts, now) <==> r.status.Processing? && r.lease.value <= now && r.attempts == maxAttempts
    ensures r.needOcr == O && !r.status.Dead? && now >= ReadyAt(r) ==>
      && (Claimable(r, maxAttempts, now) <==> r.attempts < maxAttempts)
      && (Exhausted(r, maxAttempts, now) <==> r.attempts == maxAttempts)
    ensures r.status.RetryWait? ==> r.nextRetry == Some(ReadyAt(r))
    ensures r.status.Processing? ==> r.lease == Some(ReadyAt(r))
  {
  }

  lemma UpsertKeepsServiceable(j: Row, raw: RawRow, maxAttempts: nat)
    requires Good(j, maxAttempts) && Serviceable(j, maxAttempts)
    ensures Serviceable(UpsertRow(j, Prepare(raw)), maxAttempts)
  {
    PreparedRowsAgree(raw);
  }

  /** Over any record, the legacy import strands a row (dead, with images, attempts
      left) exactly when it gives first images, and neither has text, to a row that
      was dead for want of images. */
  lemma LegacyStrandsExactly(j: Row, raw: RawRow, maxAttempts: nat)
    requires Good(j, maxAttempts) && Serviceable(j, maxAttempts) && maxAttempts >= 1
    ensures Serviceable(LegacyUpsertRow(j, Prepare(raw)), maxAttempts)
       <==> !(j.status.Dead? && j.images == [] && raw.images != [] && Blank(raw.body) && Blank(j.body))
  {
    PreparedRowsAgree(raw);
  }
}
