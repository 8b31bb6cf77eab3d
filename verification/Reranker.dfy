/** The reranker around the queue: slots, the locked sections, execution of a
    batch, and the GMS provider's validated answers. */
module Reranker {
  import opened Common
  import opened RerankQueue

  /** predict either raises (None) or scores every pair by itself. */
  ghost predicate Pairwise(predict: seq<Pair> -> Option<seq<real>>, score: Pair -> real) {
    forall ps :: predict(ps).Some? ==> predict(ps).value == ScoresOf(ps, score)
  }

  // ------------------------------------------------------------------ parsing the provider's answer

  datatype Entry = Entry(index: int, score: real)

  /** One entry for each index below expected, every score within [0, 1]. */
  ghost predicate ValidAnswer(entries: seq<Entry>, expected: nat) {
    && |entries| == expected
    && (forall i :: 0 <= i < |entries| ==> 0 <= entries[i].index < expected && 0.0 <= entries[i].score <= 1.0)
    && (forall i, j :: 0 <= i < j < |entries| ==> entries[i].index != entries[j].index)
  }

  ghost function IndexSet(entries: seq<Entry>, n: nat): set<int>
    requires n <= |entries|
  {
    set i | 0 <= i < n :: entries[i].index
  }

  ghost predicate InRange(e: Entry, expected: nat) {
    0 <= e.index < expected && 0.0 <= e.score <= 1.0
  }

  /** The first n entries are in range and answer distinct indexes. */
  ghost predicate Accepted(entries: seq<Entry>, n: nat, expected: nat)
    requires n <= |entries|
  {
    && (forall i :: 0 <= i < n ==> InRange(entries[i], expected))
    && (forall i, j :: 0 <= i < j < n ==> entries[i].index != entries[j].index)
  }

  /** The first n entries are filed under their indexes. */
  ghost predicate Filed(entries: seq<Entry>, n: nat, indexed: map<int, real>)
    requires n <= |entries|
  {
    && indexed.Keys == IndexSet(entries, n)
    && (forall i :: 0 <= i < n ==> indexed[entries[i].index] == entries[i].score)
  }

  lemma AcceptOneMore(entries: seq<Entry>, n: nat, expected: nat)
    requires n < |entries| && Accepted(entries, n, expected)
    requires entries[n].index !in IndexSet(entries, n) && InRange(entries[n], expected)
    ensures Accepted(entries, n + 1, expected)
  {
    forall i | 0 <= i < n
      ensures entries[i].index != entries[n].index
    {
      assert entries[i].index in IndexSet(entries, n);
    }
  }

  lemma FileOneMore(entries: seq<Entry>, n: nat, indexed: map<int, real>)
    requires n < |entries| && Filed(entries, n, indexed) && entries[n].index !in indexed
    ensures Filed(entries, n + 1, indexed[entries[n].index := entries[n].score])
    ensures |indexed[entries[n].index := entries[n].score].Keys| == |indexed.Keys| + 1
  {
    var after := indexed[entries[n].index := entries[n].score];
    assert after.Keys == indexed.Keys + {entries[n].index};
    assert IndexSet(entries, n + 1) == IndexSet(entries, n) + {entries[n].index};
    forall i | 0 <= i < n
      ensures after[entries[i].index] == entries[i].score
    {
      assert entries[i].index in IndexSet(entries, n);
    }
  }

  /** _parse_scores, from the decoded entries on: accepted exactly when valid, and
      then in index order whatever order the provider answered in. */
  method ParseScores(entries: seq<Entry>, expected: nat) returns (scores: Option<seq<real>>)
    ensures scores.Some? <==> ValidAnswer(entries, expected)
    ensures scores.Some? ==> |scores.value| == expected
    ensures scores.Some? ==> forall i :: 0 <= i < |entries| ==> scores.value[entries[i].index] == entries[i].score
  {
    var indexed: map<int, real> := map[];
    for i := 0 to |entries|
      invariant Accepted(entries, i, expected) && Filed(entries, i, indexed) && |indexed.Keys| == i
    {
      var e := entries[i];
      if e.index in indexed || !(0 <= e.index < expected) {
        return None;
      }
      if !(0.0 <= e.score <= 1.0) {
        return None;
      }
      AcceptOneMore(entries, i, expected);
      FileOneMore(entries, i, indexed);
      indexed := indexed[e.index := e.score];
    }
    assert |indexed.Keys| == |indexed|;
    if |indexed| != expected {
      return None;
    }
    BelowIsFew(indexed.Keys, expected);
    var r: seq<real> := [];
    for k := 0 to expected
      invariant |r| == k
      invariant forall m :: 0 <= m < k ==> r[m] == indexed[m]
    {
      r := r + [indexed[k]];
    }
    scores := Some(r);
  }

  // ------------------------------------------------------------------ _GmsReranker.predict

  function Clip(p: Pair, maxChars: nat): Pair {
    if maxChars < |p.text| then p.(text := p.text[..maxChars]) else p
  }

  /** A clipped pair keeps its query and the beginning of its text. */
  lemma ClipKeepsBeginning(p: Pair, maxChars: nat)
    ensures Clip(p, maxChars).query == p.query && Clip(p, maxChars).text <= p.text
    ensures |Clip(p, maxChars).text| == |p.text| || |Clip(p, maxChars).text| == maxChars < |p.text|
  {
  }

  function Clipped(pairs: seq<Pair>, maxChars: nat): (r: seq<Pair>)
    ensures |r| == |pairs| && forall i :: 0 <= i < |pairs| ==> r[i] == Clip(pairs[i], maxChars)
  {
    seq(|pairs|, i requires 0 <= i < |pairs| => Clip(pairs[i], maxChars))
  }

  /** The provider puts each candidate's own score behind its index. */
  ghost predicate Honest(reply: seq<Pair> -> Option<seq<Entry>>, score: Pair -> real) {
    forall ps :: reply(ps).Some? ==>
      forall i :: 0 <= i < |reply(ps).value| && 0 <= reply(ps).value[i].index < |ps| ==>
        reply(ps).value[i].score == score(ps[reply(ps).value[i].index])
  }

  /** An accepted answer of an honest provider is the batch's scores in order. */
  lemma HonestAnswer(ps: seq<Pair>, reply: seq<Pair> -> Option<seq<Entry>>, score: Pair -> real, scores: seq<real>)
    requires Honest(reply, score) && reply(ps).Some? && ValidAnswer(reply(ps).value, |ps|)
    requires |scores| == |ps|
    requires forall i :: 0 <= i < |reply(ps).value| ==> scores[reply(ps).value[i].index] == reply(ps).value[i].score
    ensures scores == ScoresOf(ps, score)
  {
    var entries := reply(ps).value;
    IndexesCount(entries, |entries|);
    BelowIsFew(IndexSet(entries, |entries|), |ps|);
    forall k | 0 <= k < |ps|
      ensures scores[k] == score(ps[k])
    {
      assert k in IndexSet(entries, |entries|);
      var i :| 0 <= i < |entries| && entries[i].index == k;
    }
  }

  lemma {:induction false} IndexesCount(entries: seq<Entry>, n: nat)
    requires n <= |entries|
    requires forall i, j :: 0 <= i < j < n ==> entries[i].index != entries[j].index
    ensures |IndexSet(entries, n)| == n
  {
    if n == 0 {
    } else {
      IndexesCount(entries, n - 1);
      assert IndexSet(entries, n) == IndexSet(entries, n - 1) + {entries[n - 1].index};
    }
  }

  lemma ScoresJoin(pairs: seq<Pair>, start: nat, end: nat, maxChars: nat, score: Pair -> real)
    requires start <= end <= |pairs|
    ensures ScoresOf(Clipped(pairs[..start], maxChars), score) + ScoresOf(Clipped(pairs[start..end], maxChars), score)
         == ScoresOf(Clipped(pairs[..end], maxChars), score)
  {
  }

  /** Where the requests start: every so many pairs. */
  predicate BatchStart(start: nat, size: nat)
    requires size >= 1
  {
    start == 0 || (start >= size && BatchStart(start - size, size))
  }

  lemma {:induction false} StartsAreApart(a: nat, b: nat, size: nat)
    requires size >= 1 && BatchStart(a, size) && BatchStart(b, size) && a < b
    ensures a + size <= b
  {
    if a == 0 {
    } else {
      StartsAreApart(a - size, b - size, size);
    }
  }

  /** The candidates of the request that starts here. */
  function BatchAt(pairs: seq<Pair>, start: nat, size: nat, maxChars: nat): seq<Pair>
    requires start <= |pairs|
  {
    Clipped(Take(pairs[start..], size), maxChars)
  }

  /** The request that starts here is not answered, or not validly. */
  ghost predicate Unanswered(pairs: seq<Pair>, size: nat, maxChars: nat, reply: seq<Pair> -> Option<seq<Entry>>,
                             start: nat)
    requires size >= 1
  {
    && start < |pairs| && BatchStart(start, size)
    && var batch := BatchAt(pairs, start, size, maxChars);
       reply(batch) == None || !ValidAnswer(reply(batch).value, |batch|)
  }

  /** None of the requests before this start went unanswered. */
  ghost predicate AnsweredBefore(pairs: seq<Pair>, size: nat, maxChars: nat, reply: seq<Pair> -> Option<seq<Entry>>,
                                 end: nat)
    requires size >= 1
  {
    forall start: nat :: start < end ==> !Unanswered(pairs, size, maxChars, reply, start)
  }

  lemma AnsweredOneMore(pairs: seq<Pair>, size: nat, maxChars: nat, reply: seq<Pair> -> Option<seq<Entry>>, end: nat)
    requires size >= 1 && BatchStart(end, size)
    requires AnsweredBefore(pairs, size, maxChars, reply, end) && !Unanswered(pairs, size, maxChars, reply, end)
    ensures BatchStart(end + size, size) && AnsweredBefore(pairs, size, maxChars, reply, end + size)
  {
    forall start: nat | end < start < end + size
      ensures !Unanswered(pairs, size, maxChars, reply, start)
    {
      if BatchStart(start, size) {
        StartsAreApart(end, start, size);
      }
    }
  }

  /** Requests of at most batchSize candidates, their scores strung together.
      None stands for the raised error, which some request's answer has to cause. */
  method Predict(pairs: seq<Pair>, batchSize: nat, maxChars: nat, reply: seq<Pair> -> Option<seq<Entry>>,
                 ghost score: Pair -> real)
    returns (scores: Option<seq<real>>)
    requires batchSize >= 1
    ensures scores.None? <==> exists start: nat :: Unanswered(pairs, batchSize, maxChars, reply, start)
    ensures scores.Some? ==> |scores.value| == |pairs|
    ensures scores.Some? && Honest(reply, score) ==> scores.value == ScoresOf(Clipped(pairs, maxChars), score)
  {
    var all: seq<real> := [];
    var start := 0;
    while start < |pairs|
      invariant |all| == if start < |pairs| then start else |pairs|
      invariant BatchStart(start, batchSize) && AnsweredBefore(pairs, batchSize, maxChars, reply, start)
      invariant Honest(reply, score) ==> all == ScoresOf(Clipped(pairs[..|all|], maxChars), score)
    {
      var end := if start + batchSize < |pairs| then start + batchSize else |pairs|;
      var batch := Clipped(pairs[start..end], maxChars);
      assert Take(pairs[start..], batchSize) == pairs[start..end];
      var answer := reply(batch);
      if answer == None {
        assert Unanswered(pairs, batchSize, maxChars, reply, start);
        return None;
      }
      var parsed := ParseScores(answer.value, |batch|);
      if parsed == None {
        assert Unanswered(pairs, batchSize, maxChars, reply, start);
        return None;
      }
      AnsweredOneMore(pairs, batchSize, maxChars, reply, start);
      if Honest(reply, score) {
        HonestAnswer(batch, reply, score, parsed.value);
        ScoresJoin(pairs, start, end, maxChars, score);
      }
      all := all + parsed.value;
      start := start + batchSize;
    }
    assert pairs[..|all|] == pairs;
    scores := Some(all);
  }

  // ------------------------------------------------------------------ slots and batches

  class Slot {
    ghost const id: nat
    const pairs: seq<Pair>
    var result: Option<seq<real>>
    var failed: bool
    var done: bool

    constructor (ghost id: nat, pairs: seq<Pair>)
      ensures this.id == id && this.pairs == pairs && result == None && !failed && !done
    {
      this.id := id;
      this.pairs := pairs;
      result, failed, done := None, false, false;
    }

    ghost function Ticket(): Ticket {
      RerankQueue.Ticket(id, pairs)
    }

    /** What the waiting caller is handed once the slot is done. */
    function Answer(): Option<seq<real>>
      reads this
    {
      if failed then None else result
    }
  }

  ghost function Tickets(slots: seq<Slot>): (r: seq<Ticket>)
    ensures |r| == |slots| && forall i :: 0 <= i < |slots| ==> r[i] == slots[i].Ticket()
  {
    seq(|slots|, i requires 0 <= i < |slots| => slots[i].Ticket())
  }

  function SlotPairs(slots: seq<Slot>): (r: seq<seq<Pair>>)
    ensures |r| == |slots| && forall i :: 0 <= i < |slots| ==> r[i] == slots[i].pairs
  {
    seq(|slots|, i requires 0 <= i < |slots| => slots[i].pairs)
  }

  /** Each list's boundaries in the concatenation. */
  ghost predicate Bounded(lists: seq<seq<Pair>>, bounds: seq<(nat, nat)>) {
    |bounds| == |lists| && forall i :: 0 <= i < |lists| ==> bounds[i] == (Boundary(lists, i), Boundary(lists, i + 1))
  }

  lemma BoundedSlice(lists: seq<seq<Pair>>, bounds: seq<(nat, nat)>, i: nat, score: Pair -> real)
    requires Bounded(lists, bounds) && i < |lists|
    ensures Slice(ScoresOf(Concat(lists), score), bounds[i].0, bounds[i].1) == ScoresOf(lists[i], score)
  {
    OwnSlice(lists, i, ScoresOf(Concat(lists), score), score);
  }

  /** One concatenated request and its slice boundaries. */
  method Concatenate(lists: seq<seq<Pair>>) returns (all: seq<Pair>, bounds: seq<(nat, nat)>)
    ensures all == Concat(lists) && Bounded(lists, bounds)
  {
    all, bounds := [], [];
    PrefixEnds(lists);
    for i := 0 to |lists|
      invariant all == Concat(lists[..i]) && |bounds| == i
      invariant forall j :: 0 <= j < i ==> bounds[j] == (Boundary(lists, j), Boundary(lists, j + 1))
    {
      var start := |all|;
      PrefixSnoc(lists, i);
      ConcatSnoc(lists[..i], lists[i]);
      all := all + lists[i];
      bounds := bounds + [(start, |all|)];
    }
  }

  /** What a model makes of a batch: None without a model, or where it raises. */
  function Predicted(model: Option<seq<Pair> -> Option<seq<real>>>, pairs: seq<Pair>): Option<seq<real>> {
    if model == None then None else model.value(pairs)
  }

  /** What a slot with these pairs is owed once the batch's prediction is in. */
  ghost function Deserved(prediction: Option<seq<real>>, pairs: seq<Pair>, score: Pair -> real): Option<seq<real>> {
    if prediction.Some? then Some(ScoresOf(pairs, score)) else None
  }

  /** Every slot of the batch is completed: with what its own pairs score alone, or
      all of them with the fallback. */
  method ExecuteBatch(slots: seq<Slot>, model: Option<seq<Pair> -> Option<seq<real>>>, ghost score: Pair -> real)
    requires model.Some? ==> Pairwise(model.value, score)
    requires forall s :: s in slots ==> !s.failed
    modifies set s | s in slots
    ensures forall s :: s in slots ==> s.done
    ensures forall s :: s in slots ==> s.Answer() == Deserved(Predicted(model, Concat(SlotPairs(slots))), s.pairs, score)
  {
    if model == None {
      CompleteWithout(slots);
      return;
    }
    var lists := SlotPairs(slots);
    var all, bounds := Concatenate(lists);
    var scores := model.value(all);
    if scores.Some? {
      CompleteWith(slots, bounds, scores.value, score);
    } else {
      FailAll(slots);
    }
  }

  method CompleteWithout(slots: seq<Slot>)
    modifies set s | s in slots
    ensures forall s :: s in slots ==> s.done && s.result == None && s.failed == old(s.failed)
  {
    for i := 0 to |slots|
      invariant forall s :: s in slots ==> s.failed == old(s.failed)
      invariant forall j :: 0 <= j < i ==> slots[j].done && slots[j].result == None
    {
      slots[i].result := None;
      slots[i].done := true;
    }
  }

  method FailAll(slots: seq<Slot>)
    modifies set s | s in slots
    ensures forall s :: s in slots ==> s.done && s.failed
  {
    for i := 0 to |slots|
      invariant forall j :: 0 <= j < i ==> slots[j].done && slots[j].failed
    {
      slots[i].failed := true;
      slots[i].done := true;
    }
  }

  /** Each slot gets its own slice of the batch's scores. */
  method CompleteWith(slots: seq<Slot>, bounds: seq<(nat, nat)>, scores: seq<real>, ghost score: Pair -> real)
    requires Bounded(SlotPairs(slots), bounds) && scores == ScoresOf(Concat(SlotPairs(slots)), score)
    modifies set s | s in slots
    ensures forall s :: s in slots ==> s.done && s.result == Some(ScoresOf(s.pairs, score)) && s.failed == old(s.failed)
  {
    ghost var lists := SlotPairs(slots);
    for i := 0 to |slots|
      invariant forall s :: s in slots ==> s.failed == old(s.failed)
      invariant forall j :: 0 <= j < i ==>
        slots[j].done && slots[j].result == Some(ScoresOf(slots[j].pairs, score))
    {
      var (lo, hi) := bounds[i];
      BoundedSlice(lists, bounds, i, score);
      slots[i].result := Some(Slice(scores, lo, hi));
      slots[i].done := true;
    }
  }

  // ------------------------------------------------------------------ _BatchQueue

  ghost function BatchTickets(batches: seq<seq<Slot>>): (r: seq<seq<Ticket>>)
    ensures |r| == |batches| && forall b :: 0 <= b < |batches| ==> r[b] == Tickets(batches[b])
  {
    seq(|batches|, b requires 0 <= b < |batches| => Tickets(batches[b]))
  }

  /** These slots are the issued ones of their numbers. */
  ghost predicate AreIssued(slots: seq<Slot>, issued: seq<Slot>) {
    forall i :: 0 <= i < |slots| ==> slots[i].id < |issued| && issued[slots[i].id] == slots[i]
  }

  /** The queue's fields are what the state says. */
  ghost predicate Ties(s: State, slots: seq<Slot>, timer: Option<nat>, timers: seq<Phase>, issued: seq<Slot>,
                       batches: seq<seq<Slot>>) {
    && s.slots == Tickets(slots) && s.timer == timer && s.timers == timers
    && s.submitted == Tickets(issued) && s.batches == BatchTickets(batches)
    && (forall i :: 0 <= i < |issued| ==> issued[i].id == i)
    && AreIssued(slots, issued)
    && (forall b :: 0 <= b < |batches| ==> AreIssued(batches[b], issued))
  }

  lemma StillIssued(slots: seq<Slot>, issued: seq<Slot>, slot: Slot)
    requires AreIssued(slots, issued) && slot.id == |issued|
    ensures AreIssued(slots, issued + [slot]) && AreIssued(slots + [slot], issued + [slot])
  {
  }

  lemma QueueOneMore(s: State, slots: seq<Slot>, timer: Option<nat>, timers: seq<Phase>, issued: seq<Slot>,
                     batches: seq<seq<Slot>>, slot: Slot)
    requires Ties(s, slots, timer, timers, issued, batches) && slot.id == |issued|
    ensures Ties(Queued(s, slot.pairs), slots + [slot], timer, timers, issued + [slot], batches)
  {
    StillIssued(slots, issued, slot);
    forall b | 0 <= b < |batches|
      ensures AreIssued(batches[b], issued + [slot])
    {
      StillIssued(batches[b], issued, slot);
    }
    assert Tickets(slots + [slot]) == Tickets(slots) + [slot.Ticket()];
    assert Tickets(issued + [slot]) == Tickets(issued) + [slot.Ticket()];
  }

  lemma DrainTies(s: State, slots: seq<Slot>, timer: Option<nat>, timers: seq<Phase>, issued: seq<Slot>,
                  batches: seq<seq<Slot>>)
    requires Ties(s, slots, timer, timers, issued, batches)
    ensures Ties(Drained(s), [], timer, timers, issued, if slots == [] then batches else batches + [slots])
  {
    assert BatchTickets(batches + [slots]) == BatchTickets(batches) + [Tickets(slots)];
    assert Tickets([]) == [];
  }

  /** A slot's done event is set exactly once it is answered, and its caller then
      reads that answer. */
  ghost predicate Reports(slot: Slot, id: nat, answers: map<nat, Option<seq<real>>>)
    reads slot
  {
    && (slot.done <==> id in answers)
    && (if slot.done then answers[id] == slot.Answer() else !slot.failed)
  }

  /** The queue object: its two fields, the timer runtime it uses, and as history
      every slot ever issued, the batches drained, and the state of the transition
      system they stand for. */
  class BatchQueue {
    var slots: seq<Slot>
    var timer: Option<nat>
    var timers: seq<Phase>
    ghost var issued: seq<Slot>
    ghost var batches: seq<seq<Slot>>
    ghost var state: State

    ghost predicate Tied()
      reads this
    {
      Ties(state, slots, timer, timers, issued, batches)
    }

    /** Every issued slot reports what the state says; nothing else is answered. */
    ghost predicate Told()
      reads this, set s | s in issued
    {
      && (forall i :: 0 <= i < |issued| ==> Reports(issued[i], i, state.answers))
      && (forall id :: id in state.answers ==> id < |issued|)
    }

    ghost predicate Valid()
      reads this, set s | s in issued
    {
      Tied() && Told()
    }

    constructor ()
      ensures Valid() && state == Init()
    {
      slots, timer, timers := [], None, [];
      issued, batches, state := [], [], Init();
    }

    method Drain() returns (batch: seq<Slot>)
      modifies this`slots, this`batches
      ensures batch == old(slots) && slots == []
      ensures batches == if batch == [] then old(batches) else old(batches) + [batch]
    {
      batch := slots;
      slots := [];
      if batch != [] {
        batches := batches + [batch];
      }
    }

    method CancelTimer()
      modifies this`timer, this`timers
      ensures timer == None && timers == Cancel(old(timers), old(timer))
    {
      if timer.Some? {
        timers := Cancel(timers, timer);
        timer := None;
      }
    }

    /** The locked part of submit; the caller runs the batch it gets, if any. */
    method Submit(pairs: seq<Pair>) returns (slot: Slot, batch: seq<Slot>)
      requires Valid()
      modifies this
      ensures Valid() && state == AfterSubmit(old(state), pairs)
      ensures fresh(slot) && slot.pairs == pairs && !slot.done && issued == old(issued) + [slot]
      ensures batch == if old(|slots|) + 1 >= MAX_BATCH_SLOTS then old(slots) + [slot] else []
      ensures batches == if batch == [] then old(batches) else old(batches) + [batch]
    {
      slot := new Slot(|issued|, pairs);
      QueueOneMore(state, slots, timer, timers, issued, batches, slot);
      ghost var q := Queued(state, pairs);
      DrainTies(q.(timer := None, timers := Cancel(q.timers, q.timer)), slots + [slot], None, Cancel(timers, timer),
                issued + [slot], batches);
      slots := slots + [slot];
      issued := issued + [slot];
      state := AfterSubmit(state, pairs);
      if |slots| >= MAX_BATCH_SLOTS {
        CancelTimer();
        batch := Drain();
      } else {
        if timer == None {
          timer := Some(|timers|);
          timers := timers + [Waiting];
        }
        batch := [];
      }
    }

    /** A timer's wait is over and its thread is on the way to the callback. */
    method Expire(t: nat)
      requires Valid() && t < |timers| && timers[t] == Waiting
      modifies this`timers, this`state
      ensures Valid() && state == old(state).(timers := old(timers)[t := Firing])
    {
      timers := timers[t := Firing];
      state := state.(timers := timers);
    }

    /** The locked part of a timer's callback. */
    method OnTimeout(t: nat) returns (batch: seq<Slot>)
      requires Valid() && t < |timers| && timers[t] == Firing
      modifies this
      ensures Valid() && state == AfterCallback(old(state), t) && issued == old(issued)
      ensures batch == old(slots)
      ensures batches == if batch == [] then old(batches) else old(batches) + [batch]
    {
      DrainTies(state.(timer := None, timers := timers[t := Over]), slots, None, timers[t := Over], issued, batches);
      state := AfterCallback(state, t);
      timers := timers[t := Over];
      timer := None;
      batch := Drain();
    }

    /** The thread that drained the b-th batch runs it, outside the lock. */
    method RunBatch(batch: seq<Slot>, ghost b: nat, model: Option<seq<Pair> -> Option<seq<real>>>,
                    ghost score: Pair -> real)
      requires Valid() && b < |batches| && batches[b] == batch && ReadyToRun(state, b)
      requires model.Some? ==> Pairwise(model.value, score)
      modifies this`state, set s | s in batch
      ensures Valid()
      ensures state == AfterExecute(old(state), b, Predicted(model, Concat(PairLists(Tickets(batch)))))
      ensures forall s :: s in batch ==> s.done
    {
      ghost var tickets := Tickets(batch);
      ghost var prediction := Predicted(model, Concat(PairLists(tickets)));
      ghost var before := state;
      assert SlotPairs(batch) == PairLists(tickets) && before.batches[b] == tickets;
      assert forall i :: 0 <= i < |batch| ==> tickets[i].id !in before.answers;
      ExecuteBatch(batch, model, score);
      forall i | 0 <= i < |issued| && issued[i] !in batch
        ensures Reports(issued[i], i, before.answers)
      {
        assert old(Reports(issued[i], i, state.answers));
      }
      BatchReports(issued, batch, before.answers, prediction, score);
      state := AfterExecute(before, b, prediction);
    }
  }

  /** After its execution the batch's slots report what they were handed, and all
      others what they did before. */
  lemma BatchReports(issued: seq<Slot>, batch: seq<Slot>, answers: map<nat, Option<seq<real>>>,
                     prediction: Option<seq<real>>, score: Pair -> real)
    requires (forall i :: 0 <= i < |issued| ==> issued[i].id == i) && AreIssued(batch, issued)
    requires DistinctIds(Tickets(batch))
    requires prediction.Some? ==> prediction.value == ScoresOf(Concat(PairLists(Tickets(batch))), score)
    requires forall s :: s in batch ==> s.done && s.Answer() == Deserved(prediction, s.pairs, score)
    requires forall i :: 0 <= i < |issued| && issued[i] !in batch ==> Reports(issued[i], i, answers)
    requires forall id :: id in answers ==> id < |issued|
    ensures forall i :: 0 <= i < |issued| ==> Reports(issued[i], i, answers + Handed(Tickets(batch), prediction))
    ensures forall id :: id in answers + Handed(Tickets(batch), prediction) ==> id < |issued|
  {
    var tickets := Tickets(batch);
    HandedAnswers(tickets, prediction, score);
    forall i | 0 <= i < |issued|
      ensures Reports(issued[i], i, answers + Handed(tickets, prediction))
    {
      if issued[i] in batch {
        var j :| 0 <= j < |batch| && batch[j] == issued[i];
        assert tickets[j].id == i;
      } else {
        assert forall j :: 0 <= j < |batch| ==> tickets[j].id != i;
      }
    }
  }

  /** When the queue has come to rest every slot ever issued is done, and its caller
      reads the scores of the slot's own pairs or the fallback. */
  lemma AtRestEverySlotIsDone(q: BatchQueue, score: Pair -> real, slot: Slot)
    requires q.Valid() && Inv(score, q.state) && Quiescent(score, q.state) && slot in q.issued
    ensures slot.done && OwnAnswer(score, slot.Ticket(), slot.Answer())
  {
    var s := q.state;
    var id: nat :| id < |q.issued| && q.issued[id] == slot;
    QuiescentIsServed(score, s);
    var b, i := FromConcat(s.batches, id);
    assert s.submitted[id] == slot.Ticket();
    assert InRanBatch(s, id);
    assert Reports(slot, id, s.answers);
  }

  /** The batch has not run, its numbers differ, and none of them is answered. */
  ghost predicate ReadyToRun(s: State, b: nat) {
    && b < |s.batches| && b !in s.ran && DistinctIds(s.batches[b])
    && forall i :: 0 <= i < |s.batches[b]| ==> s.batches[b][i].id !in s.answers
  }

  /** In every reachable state each batch that has not run is ready to. */
  lemma BatchIsReady(score: Pair -> real, s: State, b: nat)
    requires Inv(score, s) && b < |s.batches| && b !in s.ran
    ensures ReadyToRun(s, b)
  {
    BatchIdsDistinct(s, b);
    forall i: nat | i < |s.batches[b]|
      ensures s.batches[b][i].id !in s.answers
    {
      if InRanBatch(s, s.batches[b][i].id) {
        var c: nat, j: nat :| c in s.ran && c < |s.batches| && j < |s.batches[c]| && s.batches[c][j].id == s.batches[b][i].id;
        EachTicketInOneBatch(s, c, j, b, i);
        assert false;
      }
    }
  }

  lemma HandedAnswers(batch: seq<Ticket>, prediction: Option<seq<real>>, score: Pair -> real)
    requires DistinctIds(batch)
    requires prediction.Some? ==> prediction.value == ScoresOf(Concat(PairLists(batch)), score)
    ensures forall id: nat :: id in Handed(batch, prediction) <==> exists i :: 0 <= i < |batch| && batch[i].id == id
    ensures forall i :: 0 <= i < |batch| ==> batch[i].id in Handed(batch, prediction)
    ensures forall i :: 0 <= i < |batch| ==>
      Handed(batch, prediction)[batch[i].id] == Deserved(prediction, batch[i].pairs, score)
  {
    forall id: nat
      ensures id in Handed(batch, prediction) <==> exists i :: 0 <= i < |batch| && batch[i].id == id
    {
      HandedKeys(batch, prediction, id);
    }
    forall i | 0 <= i < |batch|
      ensures batch[i].id in Handed(batch, prediction)
      ensures Handed(batch, prediction)[batch[i].id] == Deserved(prediction, batch[i].pairs, score)
    {
      HandedKeys(batch, prediction, batch[i].id);
      if prediction.Some? {
        HandedOwnScores(batch, prediction.value, score, i);
      } else {
        HandedFallback(batch, batch[i].id);
      }
    }
  }
}
