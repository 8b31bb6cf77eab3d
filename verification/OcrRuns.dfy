/** Runs of the queue put together: appending them, what other connections commit
    in between, and what one worker did in a run. */
module OcrRuns {
  import opened Common
  import opened OcrRow
  import opened OcrQueue

  /** This run takes the queue from s to t. */
  ghost predicate Moves(maxAttempts: nat, s: State, run: seq<Step>, t: State) {
    ValidRun(maxAttempts, s, run) && Run(maxAttempts, s, run) == t
  }

  lemma OneStepMoves(maxAttempts: nat, s: State, step: Step)
    requires Enabled(maxAttempts, s, step)
    ensures Moves(maxAttempts, s, [step], Apply(maxAttempts, s, step))
  {
    NothingAfter(step);
  }

  lemma {:induction false} MovesOn(maxAttempts: nat, s: State, first: seq<Step>, t: State, more: seq<Step>, u: State)
    requires Moves(maxAttempts, s, first, t) && Moves(maxAttempts, t, more, u)
    ensures Moves(maxAttempts, s, first + more, u)
    decreases |first|
  {
    if first == [] {
      RestOfBoth(first, more);
    } else {
      MovesOn(maxAttempts, Apply(maxAttempts, s, first[0]), first[1..], t, more, u);
      RestOfBoth(first, more);
    }
  }

  // --------------------------------------------------------------- interference

  /** A step of somebody else. */
  predicate Foreign(step: Step, w: string) {
    match step
    case Start(v, _) => v != w
    case Crash(v) => v != w
    case ClaimNext(v, _, _, _) => v != w
    case Finish(v, _, _) => v != w
    case Fail(v, _, _, _, _) => v != w
    case _ => true
  }

  predicate AllForeign(steps: seq<Step>, w: string) {
    forall st :: st in steps ==> Foreign(st, w)
  }

  /** Those of the steps that are enabled when their turn comes. */
  function Committed(maxAttempts: nat, s: State, steps: seq<Step>): seq<Step>
    decreases |steps|
  {
    if steps == [] then []
    else if Enabled(maxAttempts, s, steps[0]) then
      [steps[0]] + Committed(maxAttempts, Apply(maxAttempts, s, steps[0]), steps[1..])
    else Committed(maxAttempts, s, steps[1..])
  }

  /** What other connections commit leads here. */
  function Settle(maxAttempts: nat, s: State, steps: seq<Step>): State
    decreases |steps|
  {
    if steps == [] then s
    else Settle(maxAttempts, if Enabled(maxAttempts, s, steps[0]) then Apply(maxAttempts, s, steps[0]) else s, steps[1..])
  }

  lemma {:induction false} SettleMoves(maxAttempts: nat, s: State, steps: seq<Step>)
    ensures Moves(maxAttempts, s, Committed(maxAttempts, s, steps), Settle(maxAttempts, s, steps))
    ensures forall st :: st in Committed(maxAttempts, s, steps) ==> st in steps
    decreases |steps|
  {
    if steps == [] {
    } else if Enabled(maxAttempts, s, steps[0]) {
      var t := Apply(maxAttempts, s, steps[0]);
      SettleMoves(maxAttempts, t, steps[1..]);
      var rest := Committed(maxAttempts, t, steps[1..]);
      assert ([steps[0]] + rest)[1..] == rest;
    } else {
      SettleMoves(maxAttempts, s, steps[1..]);
    }
  }

  lemma {:induction false} SettleKeeps(maxAttempts: nat, s: State, steps: seq<Step>, w: string)
    requires Inv(maxAttempts, s) && w in s.workers
    requires AllForeign(steps, w)
    ensures var t := Settle(maxAttempts, s, steps);
      && Inv(maxAttempts, t)
      && w in t.workers && t.workers[w] == s.workers[w]
      && ((forall st :: st in steps ==> !IsLoad(st)) ==> AttemptsLeft(maxAttempts, t.rows) <= AttemptsLeft(maxAttempts, s.rows))
    decreases |steps|
  {
    if steps == [] {
    } else {
      var step := steps[0];
      assert step in steps && Foreign(step, w);
      var t := if Enabled(maxAttempts, s, step) then Apply(maxAttempts, s, step) else s;
      if Enabled(maxAttempts, s, step) {
        StepKeepsInv(maxAttempts, s, step);
        if !IsLoad(step) {
          StepConservesAttempts(maxAttempts, s, step);
        }
      }
      SettleKeeps(maxAttempts, t, steps[1..], w);
    }
  }

  // ------------------------------------------------------- what one worker did

  /** The counters main prints. */
  datatype Tally = Tally(claimed: int, filled: int, retryWait: int, dead: int, lostLease: int) {
    function Plus(other: Tally): Tally {
      Tally(claimed + other.claimed, filled + other.filled, retryWait + other.retryWait, dead + other.dead,
            lostLease + other.lostLease)
    }
  }

  const NO_ENTRY := Tally(0, 0, 0, 0, 0)
  const ONE_CLAIM := Tally(1, 0, 0, 0, 0)

  /** What a step adds to a worker's counters: a claim, a text that reached its
      row, a failure that left it waiting or, after the last attempt, dead, or a
      completion that came too late for its lease. */
  function Entry(maxAttempts: nat, s: State, step: Step, w: string): Tally {
    if Foreign(step, w) then NO_ENTRY
    else if step.ClaimNext? then ONE_CLAIM
    else if (step.Finish? || step.Fail?) && InFlight(s, w) then
      var c := s.workers[w].claim.value;
      if !Lands(s, step, c.key) then Tally(0, 0, 0, 0, 1)
      else if step.Finish? then Tally(0, 1, 0, 0, 0)
      else if c.attempt < maxAttempts then Tally(0, 0, 1, 0, 0)
      else Tally(0, 0, 0, 1, 0)
    else NO_ENTRY
  }

  /** How one of main's rounds ends. */
  datatype RoundResult = Drained | Filled | WillRetry | GaveUp | LostLease

  /** Which of main's counters a completion moves. */
  function OutcomeOf(result: RoundResult): Tally {
    match result
    case Drained => NO_ENTRY
    case Filled => Tally(0, 1, 0, 0, 0)
    case WillRetry => Tally(0, 0, 1, 0, 0)
    case GaveUp => Tally(0, 0, 0, 1, 0)
    case LostLease => Tally(0, 0, 0, 0, 1)
  }

  /** What a round adds to main's counters. */
  function TallyOf(result: RoundResult): Tally {
    if result.Drained? then NO_ENTRY else ONE_CLAIM.Plus(OutcomeOf(result))
  }

  lemma TallyAdds(tally: Tally, result: RoundResult)
    ensures var sum := tally.Plus(TallyOf(result));
      && sum.claimed == tally.claimed + (if result.Drained? then 0 else 1)
      && sum.filled + sum.retryWait + sum.dead + sum.lostLease - sum.claimed ==
         tally.filled + tally.retryWait + tally.dead + tally.lostLease - tally.claimed
  {
  }

  /** A worker's counters over a run. */
  function Account(maxAttempts: nat, s: State, run: seq<Step>, w: string): Tally
    requires ValidRun(maxAttempts, s, run)
    decreases |run|
  {
    if run == [] then NO_ENTRY
    else
      var later := Account(maxAttempts, Apply(maxAttempts, s, run[0]), run[1..], w);
      if Foreign(run[0], w) then later else Entry(maxAttempts, s, run[0], w).Plus(later)
  }

  /** A worker's own steps in a run; a sweep is nobody's in particular. */
  function OwnSteps(run: seq<Step>, w: string): seq<Step> {
    if run == [] then []
    else
      var rest := OwnSteps(run[1..], w);
      if Foreign(run[0], w) then rest else [run[0]] + rest
  }

  lemma {:induction false} OwnStepsAppend(first: seq<Step>, more: seq<Step>, w: string)
    ensures OwnSteps(first + more, w) == OwnSteps(first, w) + OwnSteps(more, w)
  {
    if first == [] {
      RestOfBoth(first, more);
    } else {
      OwnStepsAppend(first[1..], more, w);
      RestOfBoth(first, more);
    }
  }

  lemma PlusIsAssociative(a: Tally, b: Tally, c: Tally)
    ensures a.Plus(b).Plus(c) == a.Plus(b.Plus(c))
  {
  }

  lemma NothingAddsNothing(a: Tally)
    ensures a.Plus(NO_ENTRY) == a == NO_ENTRY.Plus(a)
  {
  }

  lemma AccountFrom(maxAttempts: nat, s: State, run: seq<Step>, t: State, rest: seq<Step>, w: string)
    requires ValidRun(maxAttempts, s, run)
    requires run != [] && t == Apply(maxAttempts, s, run[0]) && rest == run[1..]
    ensures Account(maxAttempts, s, run, w) ==
      if Foreign(run[0], w) then Account(maxAttempts, t, rest, w)
      else Entry(maxAttempts, s, run[0], w).Plus(Account(maxAttempts, t, rest, w))
  {
  }

  lemma {:induction false} AccountAppend(maxAttempts: nat, s: State, first: seq<Step>, t: State, more: seq<Step>,
                                         w: string)
    requires Moves(maxAttempts, s, first, t) && ValidRun(maxAttempts, t, more)
    requires ValidRun(maxAttempts, s, first + more)
    ensures Account(maxAttempts, s, first + more, w) ==
      Account(maxAttempts, s, first, w).Plus(Account(maxAttempts, t, more, w))
    decreases |first|
  {
    RestOfBoth(first, more);
    if first == [] {
      NothingAddsNothing(Account(maxAttempts, t, more, w));
    } else {
      var s1 := Apply(maxAttempts, s, first[0]);
      AccountAppend(maxAttempts, s1, first[1..], t, more, w);
      AccountFrom(maxAttempts, s, first, s1, first[1..], w);
      AccountFrom(maxAttempts, s, first + more, s1, first[1..] + more, w);
      PlusIsAssociative(Entry(maxAttempts, s, first[0], w), Account(maxAttempts, s1, first[1..], w),
                        Account(maxAttempts, t, more, w));
    }
  }

  /** What the others commit is none of a worker's steps, nor on its account. */
  lemma {:induction false} ForeignIsNotOwn(run: seq<Step>, w: string)
    requires AllForeign(run, w)
    ensures OwnSteps(run, w) == []
  {
    if run == [] {
    } else {
      assert Foreign(run[0], w);
      ForeignIsNotOwn(run[1..], w);
    }
  }

  lemma {:induction false} ForeignAddsNothing(maxAttempts: nat, s: State, run: seq<Step>, w: string)
    requires ValidRun(maxAttempts, s, run) && AllForeign(run, w)
    ensures Account(maxAttempts, s, run, w) == NO_ENTRY
    decreases |run|
  {
    if run == [] {
    } else {
      assert Foreign(run[0], w);
      ForeignAddsNothing(maxAttempts, Apply(maxAttempts, s, run[0]), run[1..], w);
    }
  }

  /** A run, and what one worker did in it. */
  ghost predicate Worked(maxAttempts: nat, s: State, run: seq<Step>, t: State, w: string, own: seq<Step>,
                         tally: Tally) {
    && Moves(maxAttempts, s, run, t)
    && OwnSteps(run, w) == own
    && Account(maxAttempts, s, run, w) == tally
  }

  lemma WorkedOn(maxAttempts: nat, s: State, first: seq<Step>, t: State, more: seq<Step>, u: State, w: string,
                 own: seq<Step>, tally: Tally, own': seq<Step>, tally': Tally)
    requires Worked(maxAttempts, s, first, t, w, own, tally) && Worked(maxAttempts, t, more, u, w, own', tally')
    ensures Worked(maxAttempts, s, first + more, u, w, own + own', tally.Plus(tally'))
  {
    MovesOn(maxAttempts, s, first, t, more, u);
    OwnStepsAppend(first, more, w);
    AccountAppend(maxAttempts, s, first, t, more, w);
  }

  lemma SettleWorks(maxAttempts: nat, s: State, steps: seq<Step>, w: string)
    requires AllForeign(steps, w)
    ensures Worked(maxAttempts, s, Committed(maxAttempts, s, steps), Settle(maxAttempts, s, steps), w, [], NO_ENTRY)
  {
    SettleMoves(maxAttempts, s, steps);
    ForeignIsNotOwn(Committed(maxAttempts, s, steps), w);
    ForeignAddsNothing(maxAttempts, s, Committed(maxAttempts, s, steps), w);
  }

  lemma OneStepOwned(step: Step, w: string)
    ensures OwnSteps([step], w) == if Foreign(step, w) then [] else [step]
  {
    NothingAfter(step);
  }

  lemma OneStepAccount(maxAttempts: nat, s: State, step: Step, w: string)
    requires Enabled(maxAttempts, s, step)
    ensures ValidRun(maxAttempts, s, [step]) && Account(maxAttempts, s, [step], w) == Entry(maxAttempts, s, step, w)
  {
    NothingAfter(step);
    NothingAddsNothing(Entry(maxAttempts, s, step, w));
  }

  lemma OwnStepWorks(maxAttempts: nat, s: State, step: Step, w: string)
    requires Enabled(maxAttempts, s, step) && !Foreign(step, w)
    ensures Worked(maxAttempts, s, [step], Apply(maxAttempts, s, step), w, [step], Entry(maxAttempts, s, step, w))
  {
    OneStepMoves(maxAttempts, s, step);
    OneStepOwned(step, w);
    OneStepAccount(maxAttempts, s, step, w);
  }

  lemma ForeignStepWorks(maxAttempts: nat, s: State, step: Step, w: string)
    requires Enabled(maxAttempts, s, step) && Foreign(step, w)
    ensures Worked(maxAttempts, s, [step], Apply(maxAttempts, s, step), w, [], NO_ENTRY)
  {
    OneStepMoves(maxAttempts, s, step);
    OneStepOwned(step, w);
    OneStepAccount(maxAttempts, s, step, w);
  }

  /** What the others commit before or after changes nothing of a worker's account. */
  lemma WorkedAfterOthers(maxAttempts: nat, s: State, others: seq<Step>, t: State, more: seq<Step>, u: State, w: string,
                          own: seq<Step>, tally: Tally)
    requires Worked(maxAttempts, s, others, t, w, [], NO_ENTRY) && Worked(maxAttempts, t, more, u, w, own, tally)
    ensures Worked(maxAttempts, s, others + more, u, w, own, tally)
  {
    WorkedOn(maxAttempts, s, others, t, more, u, w, [], NO_ENTRY, own, tally);
    EmptyIsUnit(own);
    NothingAddsNothing(tally);
  }

  lemma WorkedBeforeOthers(maxAttempts: nat, s: State, first: seq<Step>, t: State, others: seq<Step>, u: State,
                           w: string, own: seq<Step>, tally: Tally)
    requires Worked(maxAttempts, s, first, t, w, own, tally) && Worked(maxAttempts, t, others, u, w, [], NO_ENTRY)
    ensures Worked(maxAttempts, s, first + others, u, w, own, tally)
  {
    WorkedOn(maxAttempts, s, first, t, others, u, w, own, tally, [], NO_ENTRY);
    EmptyIsUnit(own);
    NothingAddsNothing(tally);
  }

  /** A worker starts and sweeps its source. */
  lemma StartWorks(maxAttempts: nat, s: State, start: Step, t: State, sweep: Step, w: string)
    requires start.Start? && start.worker == w && Enabled(maxAttempts, s, start)
    requires t == Apply(maxAttempts, s, start) && sweep.Sweep?
    ensures Worked(maxAttempts, s, [start, sweep], Apply(maxAttempts, t, sweep), w, [start], NO_ENTRY)
  {
    OwnStepWorks(maxAttempts, s, start, w);
    ForeignStepWorks(maxAttempts, t, sweep, w);
    WorkedBeforeOthers(maxAttempts, s, [start], t, [sweep], Apply(maxAttempts, t, sweep), w, [start], NO_ENTRY);
    PairOf(start, sweep);
  }

  /** What the others commit, and then a step of the worker's own. */
  lemma StepAfterOthers(maxAttempts: nat, s: State, others: seq<Step>, t: State, step: Step, w: string)
    requires Worked(maxAttempts, s, others, t, w, [], NO_ENTRY)
    requires Enabled(maxAttempts, t, step) && !Foreign(step, w)
    ensures Worked(maxAttempts, s, others + [step], Apply(maxAttempts, t, step), w, [step], Entry(maxAttempts, t, step, w))
  {
    OwnStepWorks(maxAttempts, t, step, w);
    WorkedAfterOthers(maxAttempts, s, others, t, [step], Apply(maxAttempts, t, step), w, [step],
                      Entry(maxAttempts, t, step, w));
  }

  /** A claim and its completion, with what the others commit before each, are one run
      whose only own steps are these two. */
  lemma RoundWorks(maxAttempts: nat, s: State, first: seq<Step>, t: State, second: seq<Step>, u: State, w: string,
                   claim: Step, last: Step, outcome: Tally)
    requires Worked(maxAttempts, s, first, t, w, [claim], ONE_CLAIM)
    requires Worked(maxAttempts, t, second, u, w, [last], outcome)
    ensures Worked(maxAttempts, s, first + second, u, w, [claim, last], ONE_CLAIM.Plus(outcome))
  {
    WorkedOn(maxAttempts, s, first, t, second, u, w, [claim], ONE_CLAIM, [last], outcome);
    PairOf(claim, last);
  }
}
