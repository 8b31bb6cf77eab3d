/** The micro-batching queue as a transition system: every locked section, every
    timer expiry and every execution is one atomic step. */
module RerankQueue {
  import opened Common

  const MAX_BATCH_SLOTS: nat := 10

  datatype Pair = Pair(query: string, text: string)

  function ScoresOf(pairs: seq<Pair>, score: Pair -> real): (r: seq<real>)
    ensures |r| == |pairs| && forall i :: 0 <= i < |pairs| ==> r[i] == score(pairs[i])
  {
    seq(|pairs|, i requires 0 <= i < |pairs| => score(pairs[i]))
  }

  /** A submitted slot; tickets are numbered in the order of submission. */
  datatype Ticket = Ticket(id: nat, pairs: seq<Pair>)

  /** A timer waits, then commits to its callback, then is over. Cancelling only
      works while it waits: a callback already on its way runs all the same. */
  datatype Phase = Waiting | Firing | Over

  /** `timer` is what the queue's timer field refers to; `submitted` and `batches`
      are history, `ran` the batches that have been executed, and `answers` what
      each completed ticket's caller gets: its scores, or None for the fallback. */
  datatype State = State(submitted: seq<Ticket>, slots: seq<Ticket>, timer: Option<nat>, timers: seq<Phase>,
                         batches: seq<seq<Ticket>>, ran: set<nat>, answers: map<nat, Option<seq<real>>>)

  /** An execution makes one prediction over all the batch's pairs; None stands for
      a missing model or an error. */
  datatype Step = Submit(pairs: seq<Pair>) | Expire(t: nat) | Callback(t: nat)
                | Execute(b: nat, prediction: Option<seq<real>>)

  function Init(): State {
    State([], [], None, [], [], {}, map[])
  }

  // ------------------------------------------------------------------ steps

  function Cancel(timers: seq<Phase>, timer: Option<nat>): (r: seq<Phase>)
    ensures |r| == |timers|
  {
    if timer.Some? && timer.value < |timers| && timers[timer.value] == Waiting then timers[timer.value := Over]
    else timers
  }

  /** Hand over the queue; an empty one makes no batch. */
  function Drained(s: State): State {
    s.(slots := [], batches := if s.slots == [] then s.batches else s.batches + [s.slots])
  }

  function Queued(s: State, pairs: seq<Pair>): State {
    var ticket := Ticket(|s.submitted|, pairs);
    s.(submitted := s.submitted + [ticket], slots := s.slots + [ticket])
  }

  function AfterSubmit(s: State, pairs: seq<Pair>): State {
    var q := Queued(s, pairs);
    if |q.slots| >= MAX_BATCH_SLOTS then
      Drained(q.(timer := None, timers := Cancel(q.timers, q.timer)))
    else if q.timer == None then
      q.(timer := Some(|q.timers|), timers := q.timers + [Waiting])
    else q
  }

  function AfterCallback(s: State, t: nat): State
    requires t < |s.timers|
  {
    Drained(s.(timer := None, timers := s.timers[t := Over]))
  }

  function PairLists(batch: seq<Ticket>): (r: seq<seq<Pair>>)
    ensures |r| == |batch| && forall i :: 0 <= i < |batch| ==> r[i] == batch[i].pairs
  {
    seq(|batch|, i requires 0 <= i < |batch| => batch[i].pairs)
  }

  /** scores from lo up to hi, cut off at the end. */
  function Slice(scores: seq<real>, lo: nat, hi: nat): seq<real> {
    var cut := Take(scores, hi);
    if lo <= |cut| then cut[lo..] else []
  }

  /** Where the n-th list begins in the concatenation of all. */
  function Boundary(lists: seq<seq<Pair>>, n: nat): nat
    requires n <= |lists|
  {
    |Concat(lists[..n])|
  }

  /** Each ticket of the batch gets the slice of the prediction where its own pairs
      are in the concatenation, or the fallback. */
  function Handed(batch: seq<Ticket>, prediction: Option<seq<real>>): map<nat, Option<seq<real>>> {
    if batch == [] then map[]
    else
      var front, last := batch[..|batch| - 1], batch[|batch| - 1];
      var lo, hi := Boundary(PairLists(batch), |front|), Boundary(PairLists(batch), |batch|);
      Handed(front, prediction)[last.id := if prediction.Some? then Some(Slice(prediction.value, lo, hi)) else None]
  }

  function AfterExecute(s: State, b: nat, prediction: Option<seq<real>>): State
    requires b < |s.batches|
  {
    s.(ran := s.ran + {b}, answers := s.answers + Handed(s.batches[b], prediction))
  }

  /** A prediction scores every pair by itself. */
  predicate Enabled(score: Pair -> real, s: State, step: Step) {
    match step
    case Submit(_) => true
    case Expire(t) => t < |s.timers| && s.timers[t] == Waiting
    case Callback(t) => t < |s.timers| && s.timers[t] == Firing
    case Execute(b, prediction) =>
      && b < |s.batches| && b !in s.ran
      && (prediction.Some? ==> prediction.value == ScoresOf(Concat(PairLists(s.batches[b])), score))
  }

  function Apply(score: Pair -> real, s: State, step: Step): State
    requires Enabled(score, s, step)
  {
    match step
    case Submit(pairs) => AfterSubmit(s, pairs)
    case Expire(t) => s.(timers := s.timers[t := Firing])
    case Callback(t) => AfterCallback(s, t)
    case Execute(b, prediction) => AfterExecute(s, b, prediction)
  }

  // ------------------------------------------------------------------ what each step does

  /** A submission takes the next number and joins the queue. If that fills a batch the
      batch leaves, and the queue's timer, if it has not committed to its callback yet,
      is over; else a queue without a timer gets a new one, that waits. */
  lemma SubmitSpelledOut(score: Pair -> real, s: State, pairs: seq<Pair>)
    ensures Enabled(score, s, Submit(pairs))
    ensures var t, ticket := Apply(score, s, Submit(pairs)), Ticket(|s.submitted|, pairs);
      && t.submitted == s.submitted + [ticket] && t.ran == s.ran && t.answers == s.answers
      && (|s.slots| + 1 >= MAX_BATCH_SLOTS ==>
            && t.slots == [] && t.timer.None? && t.batches == s.batches + [s.slots + [ticket]]
            && |t.timers| == |s.timers|
            && forall i: nat :: i < |s.timers| ==>
                 t.timers[i] == if s.timer == Some(i) && s.timers[i] == Waiting then Over else s.timers[i])
      && (|s.slots| + 1 < MAX_BATCH_SLOTS ==>
            && t.slots == s.slots + [ticket] && t.batches == s.batches
            && (s.timer.None? ==> t.timer == Some(|s.timers|) && t.timers == s.timers + [Waiting])
            && (s.timer.Some? ==> t.timer == s.timer && t.timers == s.timers))
  {
  }

  /** A timer that expires commits to its callback; the callback empties the queue,
      forgets whatever timer the queue has and ends its own. */
  lemma TimerSpelledOut(score: Pair -> real, s: State, i: nat)
    requires i < |s.timers|
    ensures s.timers[i] == Waiting ==>
      && Enabled(score, s, Expire(i))
      && Apply(score, s, Expire(i)) == s.(timers := s.timers[i := Firing])
    ensures s.timers[i] == Firing ==>
      && Enabled(score, s, Callback(i))
      && var t := Apply(score, s, Callback(i));
         && t.slots == [] && t.timer.None? && t.timers == s.timers[i := Over]
         && t.batches == (if s.slots == [] then s.batches else s.batches + [s.slots])
         && t.submitted == s.submitted && t.ran == s.ran && t.answers == s.answers
    ensures s.timers[i] == Over ==> !Enabled(score, s, Expire(i)) && !Enabled(score, s, Callback(i))
  {
  }

  /** An execution runs its batch once and answers its tickets alone. */
  lemma ExecuteSpelledOut(score: Pair -> real, s: State, b: nat, prediction: Option<seq<real>>, id: nat)
    requires Enabled(score, s, Execute(b, prediction))
    ensures var t := Apply(score, s, Execute(b, prediction));
      && t == s.(ran := s.ran + {b}, answers := t.answers)
      && !Enabled(score, t, Execute(b, prediction))
      && ((exists i :: 0 <= i < |s.batches[b]| && s.batches[b][i].id == id) ==> id in t.answers)
      && ((forall i :: 0 <= i < |s.batches[b]| ==> s.batches[b][i].id != id) ==>
            (id in t.answers <==> id in s.answers) && (id in s.answers ==> t.answers[id] == s.answers[id]))
  {
    HandedKeys(s.batches[b], prediction, id);
  }

  // ------------------------------------------------------------------ the queue's invariant

  predicate Live(p: Phase) {
    p == Waiting || p == Firing
  }

  predicate BatchesFit(batches: seq<seq<Ticket>>) {
    forall b :: 0 <= b < |batches| ==> 1 <= |batches[b]| <= MAX_BATCH_SLOTS
  }

  predicate Numbered(submitted: seq<Ticket>) {
    forall i :: 0 <= i < |submitted| ==> submitted[i].id == i
  }

  /** Every submitted ticket is, in submission order, in exactly one place; whatever
      the queue's timer field names has yet to run; and nobody waits without it. */
  predicate QueueInv(s: State) {
    && Numbered(s.submitted)
    && Concat(s.batches) + s.slots == s.submitted
    && |s.slots| < MAX_BATCH_SLOTS
    && BatchesFit(s.batches)
    && (s.timer.Some? ==> s.timer.value < |s.timers| && Live(s.timers[s.timer.value]))
    && (s.slots != [] ==> s.timer.Some?)
    && (forall b :: b in s.ran ==> b < |s.batches|)
  }

  lemma DrainKeeps(s: State)
    requires Concat(s.batches) + s.slots == s.submitted && |s.slots| <= MAX_BATCH_SLOTS && BatchesFit(s.batches)
    ensures var d := Drained(s); Concat(d.batches) + d.slots == d.submitted && BatchesFit(d.batches)
  {
    ConcatSnoc(s.batches, s.slots);
    assert Concat(s.batches + [s.slots]) + [] == Concat(s.batches) + s.slots;
    assert s.slots == [] ==> Concat(s.batches) + [] == s.submitted;
  }

  lemma StepKeepsQueue(score: Pair -> real, s: State, step: Step)
    requires QueueInv(s) && Enabled(score, s, step)
    ensures QueueInv(Apply(score, s, step))
  {
    match step
    case Submit(pairs) =>
      var q := Queued(s, pairs);
      assert Concat(q.batches) + q.slots == (Concat(s.batches) + s.slots) + [Ticket(|s.submitted|, pairs)];
      if |q.slots| >= MAX_BATCH_SLOTS {
        DrainKeeps(q.(timer := None, timers := Cancel(q.timers, q.timer)));
      }
    case Callback(t) =>
      DrainKeeps(s.(timer := None, timers := s.timers[t := Over]));
    case Expire(t) =>
    case Execute(b, _) =>
  }

  // ------------------------------------------------------------------ exactly once

  lemma {:induction false} InConcat<T>(xss: seq<seq<T>>, a: nat, x: T)
    requires a < |xss| && x in xss[a]
    ensures x in Concat(xss)
  {
    if a == 0 {
    } else {
      InConcat(xss[1..], a - 1, x);
    }
  }

  lemma {:induction false} ConcatKeepsApart<T>(xss: seq<seq<T>>, a: nat, i: nat, b: nat, j: nat)
    requires NoRepeats(Concat(xss))
    requires a < |xss| && b < |xss| && i < |xss[a]| && j < |xss[b]| && xss[a][i] == xss[b][j]
    ensures a == b && i == j
  {
    var rest := Concat(xss[1..]);
    assert forall k :: 0 <= k < |xss[0]| ==> Concat(xss)[k] == xss[0][k];
    assert forall k :: 0 <= k < |rest| ==> Concat(xss)[|xss[0]| + k] == rest[k];
    if a > 0 && b > 0 {
      assert NoRepeats(rest);
      ConcatKeepsApart(xss[1..], a - 1, i, b - 1, j);
    } else if a > 0 {
      InConcat(xss[1..], a - 1, xss[a][i]);
    } else if b > 0 {
      InConcat(xss[1..], b - 1, xss[b][j]);
    }
  }

  /** Where a position of the concatenation comes from. */
  lemma {:induction false} FromConcat<T>(xss: seq<seq<T>>, k: nat) returns (a: nat, i: nat)
    requires k < |Concat(xss)|
    ensures a < |xss| && i < |xss[a]| && xss[a][i] == Concat(xss)[k]
  {
    if k < |xss[0]| {
      a, i := 0, k;
    } else {
      a, i := FromConcat(xss[1..], k - |xss[0]|);
      a := a + 1;
    }
  }

  /** A batched ticket is the submitted one of its number. */
  lemma BatchedIsSubmitted(s: State, b: nat, i: nat)
    requires QueueInv(s) && b < |s.batches| && i < |s.batches[b]|
    ensures s.batches[b][i].id < |s.submitted| && s.submitted[s.batches[b][i].id] == s.batches[b][i]
  {
    var all := Concat(s.batches);
    InConcat(s.batches, b, s.batches[b][i]);
    var k :| 0 <= k < |all| && all[k] == s.batches[b][i];
    assert s.submitted[k] == all[k];
  }

  /** A number is at one position of one batch, or still waits. */
  lemma EachTicketInOneBatch(s: State, a: nat, i: nat, b: nat, j: nat)
    requires QueueInv(s)
    requires a < |s.batches| && b < |s.batches| && i < |s.batches[a]| && j < |s.batches[b]|
    ensures s.batches[a][i].id == s.batches[b][j].id ==> a == b && i == j
    ensures s.batches[a][i] !in s.slots
  {
    var all := Concat(s.batches);
    assert forall k :: 0 <= k < |all| ==> s.submitted[k] == all[k];
    assert forall k :: 0 <= k < |s.slots| ==> s.submitted[|all| + k] == s.slots[k];
    InConcat(s.batches, a, s.batches[a][i]);
    BatchedIsSubmitted(s, a, i);
    BatchedIsSubmitted(s, b, j);
    if s.batches[a][i].id == s.batches[b][j].id {
      ConcatKeepsApart(s.batches, a, i, b, j);
    }
  }

  // ------------------------------------------------------------------ own scores

  predicate DistinctIds(batch: seq<Ticket>) {
    forall i, j :: 0 <= i < j < |batch| ==> batch[i].id != batch[j].id
  }

  /** Exactly the batch's own tickets are answered. */
  lemma {:induction false} HandedKeys(batch: seq<Ticket>, prediction: Option<seq<real>>, id: nat)
    ensures id in Handed(batch, prediction) <==> exists i :: 0 <= i < |batch| && batch[i].id == id
  {
    if batch == [] {
    } else {
      var front := batch[..|batch| - 1];
      HandedKeys(front, prediction, id);
      assert forall i :: 0 <= i < |front| ==> batch[i] == front[i];
      assert batch[|batch| - 1].id == id ==> exists i :: 0 <= i < |batch| && batch[i].id == id;
    }
  }

  lemma PairListsSnoc(batch: seq<Ticket>)
    requires batch != []
    ensures PairLists(batch) == PairLists(batch[..|batch| - 1]) + [batch[|batch| - 1].pairs]
    ensures Concat(PairLists(batch)) == Concat(PairLists(batch[..|batch| - 1])) + batch[|batch| - 1].pairs
  {
    ConcatSnoc(PairLists(batch[..|batch| - 1]), batch[|batch| - 1].pairs);
  }

  lemma ScoresOfFront(front: seq<Pair>, rest: seq<Pair>, scores: seq<real>, score: Pair -> real)
    requires ScoresOf(front + rest, score) <= scores
    ensures ScoresOf(front, score) <= scores
  {
    assert forall i :: 0 <= i < |front| ==> ScoresOf(front + rest, score)[i] == score(front[i]);
  }

  lemma ScoresAfter(front: seq<Pair>, own: seq<Pair>, scores: seq<real>, score: Pair -> real)
    requires ScoresOf(front + own, score) <= scores
    ensures Slice(scores, |front|, |front + own|) == ScoresOf(own, score)
  {
    assert forall i :: 0 <= i < |own| ==> ScoresOf(front + own, score)[|front| + i] == score(own[i]);
  }

  /** Between its boundaries lie what a list's own pairs score alone. */
  lemma OwnSlice(lists: seq<seq<Pair>>, n: nat, scores: seq<real>, score: Pair -> real)
    requires n < |lists| && ScoresOf(Concat(lists), score) <= scores
    ensures Boundary(lists, n) <= Boundary(lists, n + 1) <= |scores|
    ensures Slice(scores, Boundary(lists, n), Boundary(lists, n + 1)) == ScoresOf(lists[n], score)
  {
    var front, own := Concat(lists[..n]), lists[n];
    PrefixSnoc(lists, n);
    ConcatSnoc(lists[..n], own);
    SplitAt(lists, n + 1);
    ConcatAppend(lists[..n + 1], lists[n + 1..]);
    ScoresOfFront(front + own, Concat(lists[n + 1..]), scores, score);
    ScoresAfter(front, own, scores, score);
  }

  lemma LastSlice(batch: seq<Ticket>, scores: seq<real>, score: Pair -> real)
    requires batch != [] && ScoresOf(Concat(PairLists(batch)), score) <= scores
    ensures var n := |batch| - 1; var lists := PairLists(batch);
      && Slice(scores, Boundary(lists, n), Boundary(lists, n + 1)) == ScoresOf(batch[n].pairs, score)
      && ScoresOf(Concat(PairLists(batch[..n])), score) <= scores
  {
    var n := |batch| - 1;
    PairListsSnoc(batch);
    OwnSlice(PairLists(batch), n, scores, score);
    ScoresOfFront(Concat(PairLists(batch[..n])), batch[n].pairs, scores, score);
  }

  /** Through concatenation and slicing each ticket gets what its own pairs score
      alone. */
  lemma {:induction false} HandedOwnScores(batch: seq<Ticket>, scores: seq<real>, score: Pair -> real, i: nat)
    requires DistinctIds(batch) && i < |batch|
    requires ScoresOf(Concat(PairLists(batch)), score) <= scores
    ensures batch[i].id in Handed(batch, Some(scores))
    ensures Handed(batch, Some(scores))[batch[i].id] == Some(ScoresOf(batch[i].pairs, score))
  {
    var n := |batch| - 1;
    LastSlice(batch, scores, score);
    if i == n {
    } else {
      HandedOwnScores(batch[..n], scores, score, i);
    }
  }

  lemma {:induction false} HandedFallback(batch: seq<Ticket>, id: nat)
    requires id in Handed(batch, None)
    ensures Handed(batch, None)[id] == None
  {
    if batch == [] {
    } else if batch[|batch| - 1].id == id {
    } else {
      HandedFallback(batch[..|batch| - 1], id);
    }
  }

  /** A ticket's own scores, or the fallback. */
  predicate OwnAnswer(score: Pair -> real, ticket: Ticket, answer: Option<seq<real>>) {
    answer == None || answer == Some(ScoresOf(ticket.pairs, score))
  }

  ghost predicate InRanBatch(s: State, id: nat) {
    exists b: nat, i: nat :: b in s.ran && b < |s.batches| && i < |s.batches[b]| && s.batches[b][i].id == id
  }

  /** Exactly the tickets of executed batches are answered, each with its own. */
  ghost predicate AnswersInv(score: Pair -> real, s: State) {
    && (forall id: nat :: id in s.answers <==> InRanBatch(s, id))
    && (forall id: nat :: id in s.answers ==> id < |s.submitted| && OwnAnswer(score, s.submitted[id], s.answers[id]))
  }

  ghost predicate Inv(score: Pair -> real, s: State) {
    QueueInv(s) && AnswersInv(score, s)
  }

  lemma BatchIdsDistinct(s: State, b: nat)
    requires QueueInv(s) && b < |s.batches|
    ensures DistinctIds(s.batches[b])
  {
    forall i, j | 0 <= i < j < |s.batches[b]|
      ensures s.batches[b][i].id != s.batches[b][j].id
    {
      EachTicketInOneBatch(s, b, i, b, j);
    }
  }

  lemma HandedIsOwn(score: Pair -> real, s: State, b: nat, prediction: Option<seq<real>>, id: nat)
    requires QueueInv(s) && Enabled(score, s, Execute(b, prediction))
    requires id in Handed(s.batches[b], prediction)
    ensures id < |s.submitted| && OwnAnswer(score, s.submitted[id], Handed(s.batches[b], prediction)[id])
  {
    var batch := s.batches[b];
    HandedKeys(batch, prediction, id);
    var i: nat :| i < |batch| && batch[i].id == id;
    BatchedIsSubmitted(s, b, i);
    BatchIdsDistinct(s, b);
    if prediction.Some? {
      HandedOwnScores(batch, prediction.value, score, i);
    } else {
      HandedFallback(batch, id);
    }
  }

  lemma ExecuteKeepsAnswers(score: Pair -> real, s: State, b: nat, prediction: Option<seq<real>>)
    requires Inv(score, s) && Enabled(score, s, Execute(b, prediction))
    ensures AnswersInv(score, AfterExecute(s, b, prediction))
  {
    var t := AfterExecute(s, b, prediction);
    forall id: nat
      ensures id in t.answers <==> InRanBatch(t, id)
    {
      HandedKeys(s.batches[b], prediction, id);
      if InRanBatch(s, id) {
        var c: nat, i: nat :| c in s.ran && c < |s.batches| && i < |s.batches[c]| && s.batches[c][i].id == id;
        assert c in t.ran;
      }
    }
    forall id: nat | id in t.answers
      ensures id < |t.submitted| && OwnAnswer(score, t.submitted[id], t.answers[id])
    {
      if id in Handed(s.batches[b], prediction) {
        HandedIsOwn(score, s, b, prediction, id);
      }
    }
  }

  /** Steps that only move tickets leave every executed batch where it is. */
  lemma MoveKeepsAnswers(score: Pair -> real, s: State, t: State)
    requires Inv(score, s) && QueueInv(t)
    requires t.ran == s.ran && t.answers == s.answers && s.batches <= t.batches && s.submitted <= t.submitted
    ensures AnswersInv(score, t)
  {
    forall id: nat
      ensures InRanBatch(s, id) <==> InRanBatch(t, id)
    {
      assert forall b :: b in s.ran ==> b < |s.batches| && t.batches[b] == s.batches[b];
    }
  }

  /** Every locked section, expiry and execution keeps the invariant. */
  lemma StepKeepsInv(score: Pair -> real, s: State, step: Step)
    requires Inv(score, s) && Enabled(score, s, step)
    ensures Inv(score, Apply(score, s, step))
  {
    StepKeepsQueue(score, s, step);
    match step
    case Execute(b, prediction) => ExecuteKeepsAnswers(score, s, b, prediction);
    case Submit(_) => MoveKeepsAnswers(score, s, Apply(score, s, step));
    case Callback(_) => MoveKeepsAnswers(score, s, Apply(score, s, step));
    case Expire(_) => MoveKeepsAnswers(score, s, Apply(score, s, step));
  }

  /** An answer once given never changes. */
  lemma AnswersAreFinal(score: Pair -> real, s: State, step: Step, id: nat)
    requires Inv(score, s) && Enabled(score, s, step) && id in s.answers
    ensures id in Apply(score, s, step).answers && Apply(score, s, step).answers[id] == s.answers[id]
  {
    if step.Execute? {
      HandedKeys(s.batches[step.b], step.prediction, id);
      var c: nat, i: nat :| c in s.ran && c < |s.batches| && i < |s.batches[c]| && s.batches[c][i].id == id;
      forall j: nat | j < |s.batches[step.b]|
        ensures s.batches[step.b][j].id != id
      {
        EachTicketInOneBatch(s, c, i, step.b, j);
      }
    }
  }

  // ------------------------------------------------------------------ runs

  predicate ValidRun(score: Pair -> real, s: State, run: seq<Step>)
    decreases |run|
  {
    run == [] || (Enabled(score, s, run[0]) && ValidRun(score, Apply(score, s, run[0]), run[1..]))
  }

  function Run(score: Pair -> real, s: State, run: seq<Step>): State
    requires ValidRun(score, s, run)
    decreases |run|
  {
    if run == [] then s else Run(score, Apply(score, s, run[0]), run[1..])
  }

  lemma InitInv(score: Pair -> real)
    ensures Inv(score, Init())
  {
  }

  lemma {:induction false} RunKeepsInv(score: Pair -> real, s: State, run: seq<Step>)
    requires Inv(score, s) && ValidRun(score, s, run)
    ensures Inv(score, Run(score, s, run))
    decreases |run|
  {
    if run == [] {
    } else {
      StepKeepsInv(score, s, run[0]);
      RunKeepsInv(score, Apply(score, s, run[0]), run[1..]);
    }
  }

  // ------------------------------------------------------------------ no lost wakeup

  /** Whenever tickets wait, the timer the queue holds still has its callback to run,
      and that callback takes all of them into one batch. */
  lemma NoLostWakeup(score: Pair -> real, run: seq<Step>)
    requires ValidRun(score, Init(), run)
    ensures var s := Run(score, Init(), run);
      s.slots != [] ==>
        && s.timer.Some? && s.timer.value < |s.timers| && Live(s.timers[s.timer.value])
        && (s.timers[s.timer.value] == Firing ==>
              AfterCallback(s, s.timer.value).batches == s.batches + [s.slots])
  {
    InitInv(score);
    RunKeepsInv(score, Init(), run);
  }

  function PhaseWork(p: Phase): nat {
    match p case Waiting => 3 case Firing => 2 case Over => 0
  }

  function LiveWork(timers: seq<Phase>): nat {
    if timers == [] then 0 else LiveWork(timers[..|timers| - 1]) + PhaseWork(timers[|timers| - 1])
  }

  /** Steps still owed by timers and by batches that have not run. */
  function Work(s: State): int {
    LiveWork(s.timers) + |s.batches| - |s.ran|
  }

  lemma {:induction false} LiveWorkUpdate(timers: seq<Phase>, t: nat, p: Phase)
    requires t < |timers|
    ensures LiveWork(timers[t := p]) - PhaseWork(p) == LiveWork(timers) - PhaseWork(timers[t])
  {
    var front := timers[..|timers| - 1];
    if t == |timers| - 1 {
      assert timers[t := p][..|timers| - 1] == front;
    } else {
      assert timers[t := p][..|timers| - 1] == front[t := p];
      LiveWorkUpdate(front, t, p);
    }
  }

  /** Every step but a submission uses up work. */
  lemma StepUsesWork(score: Pair -> real, s: State, step: Step)
    requires QueueInv(s) && Enabled(score, s, step) && !step.Submit?
    ensures Work(Apply(score, s, step)) < Work(s)
  {
    match step
    case Expire(t) => LiveWorkUpdate(s.timers, t, Firing);
    case Callback(t) => LiveWorkUpdate(s.timers, t, Over);
    case Execute(b, _) => assert b !in s.ran;
    case Submit(_) =>
  }

  /** After the last submission a run can only be as long as the work left. */
  lemma {:induction false} QuiescenceIsReached(score: Pair -> real, s: State, run: seq<Step>)
    requires QueueInv(s) && ValidRun(score, s, run)
    requires forall i :: 0 <= i < |run| ==> !run[i].Submit?
    ensures |run| <= Work(s)
    ensures Work(Run(score, s, run)) + |run| <= Work(s)
    decreases |run|
  {
    BelowIsFew(s.ran, |s.batches|);
    if run == [] {
    } else {
      StepKeepsQueue(score, s, run[0]);
      StepUsesWork(score, s, run[0]);
      QuiescenceIsReached(score, Apply(score, s, run[0]), run[1..]);
    }
  }

  /** Nothing but a submission can happen. */
  ghost predicate Quiescent(score: Pair -> real, s: State) {
    forall step :: Enabled(score, s, step) ==> step.Submit?
  }

  /** At rest nobody waits and every batch has run. */
  lemma QuiescentIsServed(score: Pair -> real, s: State)
    requires QueueInv(s) && Quiescent(score, s)
    ensures s.slots == [] && Concat(s.batches) == s.submitted
    ensures forall b: nat :: b < |s.batches| ==> b in s.ran
  {
    if s.slots != [] {
      var t := s.timer.value;
      var step := if s.timers[t] == Waiting then Expire(t) else Callback(t);
      assert Enabled(score, s, step);
      assert false;
    }
    forall b: nat | b < |s.batches|
      ensures b in s.ran
    {
      assert Enabled(score, s, Execute(b, None)) ==> Execute(b, None).Submit?;
    }
    assert Concat(s.batches) + [] == Concat(s.batches);
  }

  /** Over any run from the empty queue that has come to rest, every ticket ever
      submitted sits at exactly one place of exactly one batch, that batch was
      executed, and the ticket is answered with the scores of its own pairs, as
      if scored alone, or with the fallback. */
  lemma EveryTicketIsServedOnce(score: Pair -> real, run: seq<Step>, id: nat) returns (b: nat, i: nat)
    requires ValidRun(score, Init(), run) && Quiescent(score, Run(score, Init(), run))
    requires id < |Run(score, Init(), run).submitted|
    ensures var s := Run(score, Init(), run);
      && b < |s.batches| && b in s.ran && i < |s.batches[b]| && s.batches[b][i] == s.submitted[id]
      && (forall c: nat, j: nat :: c < |s.batches| && j < |s.batches[c]| && s.batches[c][j].id == id ==> c == b && j == i)
      && id in s.answers && OwnAnswer(score, s.submitted[id], s.answers[id])
  {
    var s := Run(score, Init(), run);
    InitInv(score);
    RunKeepsInv(score, Init(), run);
    QuiescentIsServed(score, s);
    b, i := FromConcat(s.batches, id);
    assert s.submitted[id].id == id;
    forall c: nat, j: nat | c < |s.batches| && j < |s.batches[c]| && s.batches[c][j].id == id
      ensures c == b && j == i
    {
      EachTicketInOneBatch(s, c, j, b, i);
    }
    assert InRanBatch(s, id);
  }
}
