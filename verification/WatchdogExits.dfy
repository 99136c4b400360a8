/**
 How the generator ends and why: each way out of it is traced back to the events of the run
 that lead there, and to nothing else.
 */
module WatchdogExits {
  import opened Wrappers
  import opened Watchdog
  import opened WatchdogSafety

  // ---------------------------------------------------------------- what happened before n

  /** A race was decided so, and the generator went on from it. */
  ghost predicate TakenUp(events: seq<Event>, n: nat, outcome: Outcome) {
    exists m: nat, k: nat :: m < k < n <= |events| && events[m] == Settle(outcome) && events[k].Resume?
  }

  /** A race was decided so, and the generator has not gone on yet. */
  ghost predicate Waiting(events: seq<Event>, n: nat, outcome: Outcome) {
    exists m: nat :: m < n <= |events| && events[m] == Settle(outcome) && NoResume(events, m + 1, n)
  }

  ghost predicate NoResume(events: seq<Event>, from: nat, to: nat)
    requires to <= |events|
  {
    forall k | from <= k < to :: !events[k].Resume?
  }

  /** The round that begins at k finds the deadline in force passed. */
  ghost predicate LateRound(c: Config, states: seq<Watch>, events: seq<Event>, k: nat) {
    && k < |events| && k < |states| && events[k].Loop?
    && states[k].Deadline(c).Some? && states[k].Deadline(c).value <= events[k].r1
  }

  ghost predicate SomeRoundLate(c: Config, states: seq<Watch>, events: seq<Event>, n: nat) {
    exists k: nat :: k < n && LateRound(c, states, events, k)
  }

  ghost predicate ConsumerLeftBefore(events: seq<Event>, n: nat) {
    exists k: nat :: k < n <= |events| && events[k].ConsumerLeaves?
  }

  // ---------------------------------------------------------------- one event more

  lemma TakenUpAfter(events: seq<Event>, n: nat, outcome: Outcome)
    requires n < |events|
    ensures TakenUp(events, n + 1, outcome) <==>
      TakenUp(events, n, outcome) || (events[n].Resume? && Waiting(events, n, outcome))
  {
    if TakenUp(events, n + 1, outcome) && !TakenUp(events, n, outcome) {
      var m: nat, k: nat :| m < k < n + 1 && events[m] == Settle(outcome) && events[k].Resume?;
      assert k == n;
      assert NoResume(events, m + 1, n);
    }
  }

  lemma WaitingAfter(events: seq<Event>, n: nat, outcome: Outcome)
    requires n < |events|
    ensures Waiting(events, n + 1, outcome) <==>
      events[n] == Settle(outcome) || (!events[n].Resume? && Waiting(events, n, outcome))
  {
    if events[n] == Settle(outcome) {
      assert NoResume(events, n + 1, n + 1);
    } else if Waiting(events, n + 1, outcome) {
      var m: nat :| m < n + 1 && events[m] == Settle(outcome) && NoResume(events, m + 1, n + 1);
      assert NoResume(events, m + 1, n);
    }
  }

  /** The phase in front of event n tells the outcomes that happened, the exit those that were taken up. */
  ghost predicate Tells(c: Config, states: seq<Watch>, events: seq<Event>, n: nat)
    requires n < |states|
  {
    var phase := states[n].phase;
    && (forall outcome: Outcome :: phase == Settled(outcome) <==> Waiting(events, n, outcome))
    && (phase == Closed(Finished) <==> TakenUp(events, n, End))
    && (phase == Closed(Failed) <==> TakenUp(events, n, Failure))
    && (phase == Closed(Aborted) <==> TakenUp(events, n, AbortSeen))
    && (phase == Closed(TimedOut) <==> TakenUp(events, n, Timeout) || SomeRoundLate(c, states, events, n))
    && (phase == Closed(ConsumerLeft) <==> ConsumerLeftBefore(events, n))
  }

  /** What one step does to the phase. */
  lemma PhaseAfter(s: Watch, c: Config, e: Event)
    requires Enabled(s, c, e)
    ensures var t := Next(s, c, e);
      match e
      case Loop(r1, _, _) =>
        if s.Deadline(c).Some? && s.Deadline(c).value <= r1 then t.phase == Closed(TimedOut) else t.phase.Racing?
      case Settle(outcome) => t.phase == Settled(outcome)
      case Resume(_) =>
        && s.phase.Settled?
        && t.phase == (match s.phase.outcome
                       case End => Closed(Finished)
                       case Failure => Closed(Failed)
                       case Timeout => Closed(TimedOut)
                       case AbortSeen => Closed(Aborted)
                       case Item(_) => Yielded)
      case ConsumerNext => t.phase == Top
      case ConsumerLeaves => t.phase == Closed(ConsumerLeft)
      case _ => t.phase == s.phase
  {
    if e.Loop? {
      RemintKeeps(s, c);
    }
  }

  lemma StepTells(c: Config, states: seq<Watch>, events: seq<Event>, n: nat)
    requires |states| == |events| + 1 && n < |events| && StepAt(c, states, events, n)
    requires Tells(c, states, events, n)
    ensures Tells(c, states, events, n + 1)
  {
    PhaseAfter(states[n], c, events[n]);
    forall outcome: Outcome
      ensures TakenUp(events, n + 1, outcome) <==>
        TakenUp(events, n, outcome) || (events[n].Resume? && Waiting(events, n, outcome))
      ensures Waiting(events, n + 1, outcome) <==>
        events[n] == Settle(outcome) || (!events[n].Resume? && Waiting(events, n, outcome))
    {
      TakenUpAfter(events, n, outcome);
      WaitingAfter(events, n, outcome);
    }
    OthersAfter(c, states, events, n);
    var was, now := states[n].phase, states[n + 1].phase;
    assert was.Closed? ==> now == was;
    assert was.Settled? ==> Waiting(events, n, was.outcome);
  }

  lemma OthersAfter(c: Config, states: seq<Watch>, events: seq<Event>, n: nat)
    requires n < |events|
    ensures SomeRoundLate(c, states, events, n + 1) <==>
      SomeRoundLate(c, states, events, n) || LateRound(c, states, events, n)
    ensures ConsumerLeftBefore(events, n + 1) <==> ConsumerLeftBefore(events, n) || events[n].ConsumerLeaves?
  {}

  lemma {:induction false} RunTells(c: Config, states: seq<Watch>, events: seq<Event>, n: nat)
    requires IsRun(c, states, events) && n <= |events|
    ensures Tells(c, states, events, n)
  {
    if n == 0 {
      assert states[0].phase == Top;
    } else {
      RunTells(c, states, events, n - 1);
      assert StepAt(c, states, events, n - 1);
      StepTells(c, states, events, n - 1);
    }
  }

  // ---------------------------------------------------------------- main results

  /**
   In every run the generator has ended normally exactly when a race was decided by the
   source's end and then taken up, with the source's error exactly when one was decided by
   its failure, and as aborted exactly when one was decided by the abort. It has raised a
   timeout exactly when one was decided by the timer or a round began past its deadline.
   */
  lemma ExitIff(c: Config, states: seq<Watch>, events: seq<Event>, n: nat)
    requires IsRun(c, states, events) && n <= |events|
    ensures states[n].phase == Closed(Finished) <==> TakenUp(events, n, End)
    ensures states[n].phase == Closed(Failed) <==> TakenUp(events, n, Failure)
    ensures states[n].phase == Closed(Aborted) <==> TakenUp(events, n, AbortSeen)
    ensures states[n].phase == Closed(TimedOut) <==>
      TakenUp(events, n, Timeout) || SomeRoundLate(c, states, events, n)
    ensures states[n].phase == Closed(ConsumerLeft) <==> ConsumerLeftBefore(events, n)
  {
    RunTells(c, states, events, n);
  }

  /** And of the step that leaves it, from the race it stands behind. */
  lemma ClosingStepIff(c: Config, states: seq<Watch>, events: seq<Event>, n: nat)
    requires Reaches(c, states, events, n)
    requires !states[n].phase.Closed? && states[n + 1].phase.Closed?
    ensures var exit := states[n + 1].phase.exit;
      && (exit.Finished? <==> states[n].phase == Settled(End))
      && (exit.Failed? <==> states[n].phase == Settled(Failure))
      && (exit.Aborted? <==> states[n].phase == Settled(AbortSeen))
      && (exit.TimedOut? <==> states[n].phase == Settled(Timeout) || LateRound(c, states, events, n))
      && (exit.ConsumerLeft? <==> events[n].ConsumerLeaves?)
  {
    assert StepAt(c, states, events, n);
    PhaseAfter(states[n], c, events[n]);
  }

  /** An item that was taken up is handed to the consumer; nothing else is. */
  lemma ItemsAreYielded(c: Config, states: seq<Watch>, events: seq<Event>, n: nat)
    requires Reaches(c, states, events, n) && !states[n].phase.Yielded?
    ensures states[n + 1].phase.Yielded? <==>
      events[n].Resume? && exists progress :: Waiting(events, n, Item(progress))
  {
    assert StepAt(c, states, events, n);
    RunTells(c, states, events, n);
    PhaseAfter(states[n], c, events[n]);
    if events[n].Resume? {
      assert states[n].phase == Settled(states[n].phase.outcome);
    }
  }

  // ---------------------------------------------------------------- the deadline in force

  /** At event k the generator takes up a progress item. */
  ghost predicate ProgressAt(states: seq<Watch>, events: seq<Event>, k: nat) {
    k < |events| && k < |states| && events[k].Resume? && states[k].phase == Settled(Item(true))
  }

  /** Event k is the last before n at which it does. */
  ghost predicate LastProgressAt(states: seq<Watch>, events: seq<Event>, n: nat, k: nat) {
    k < n && ProgressAt(states, events, k) && forall m: nat | k < m < n :: !ProgressAt(states, events, m)
  }

  ghost predicate NoProgress(states: seq<Watch>, events: seq<Event>, n: nat) {
    forall m: nat | m < n :: !ProgressAt(states, events, m)
  }

  ghost predicate DeadlineTold(c: Config, states: seq<Watch>, events: seq<Event>, n: nat)
    requires n < |states| && n <= |events|
  {
    && (NoProgress(states, events, n) ==> states[n].awaitingFirstItem)
    && (forall k: nat | LastProgressAt(states, events, n, k) ::
          !states[n].awaitingFirstItem && states[n].lastProgressAt == events[k].r1)
  }

  ghost predicate Progresses(s: Watch, t: Watch, e: Event) {
    if e.Resume? && s.phase == Settled(Item(true)) then !t.awaitingFirstItem && t.lastProgressAt == e.r1
    else t.awaitingFirstItem == s.awaitingFirstItem && t.lastProgressAt == s.lastProgressAt
  }

  lemma ProgressAfter(s: Watch, c: Config, e: Event)
    requires Enabled(s, c, e) && !Next(s, c, e).phase.Closed?
    ensures Progresses(s, Next(s, c, e), e)
  {
    match e
    case Loop(r1, r2, r3) => RoundKeepsProgress(s, c, r1, r2, r3);
    case TimerFires(id, r1, r2) => TimerKeepsProgress(s.(live := s.live - {id}), c, r1, r2);
    case _ =>
  }

  lemma RoundKeepsProgress(s: Watch, c: Config, r1: int, r2: int, r3: int)
    ensures var t := StartRace(s, c, r1, r2, r3);
      t.awaitingFirstItem == s.awaitingFirstItem && t.lastProgressAt == s.lastProgressAt
  {}

  lemma TimerKeepsProgress(s: Watch, c: Config, r1: int, r2: int)
    ensures var t := OnTimerFire(s, c, r1, r2);
      t.awaitingFirstItem == s.awaitingFirstItem && t.lastProgressAt == s.lastProgressAt
  {}

  lemma ToldLater(c: Config, states: seq<Watch>, events: seq<Event>, before: nat, n: nat)
    requires |states| == |events| + 1 && n == before + 1 <= |events|
    requires DeadlineTold(c, states, events, before) && Progresses(states[before], states[n], events[before])
    ensures DeadlineTold(c, states, events, n)
  {
    forall k: nat | LastProgressAt(states, events, n, k)
      ensures !states[n].awaitingFirstItem && states[n].lastProgressAt == events[k].r1
    {
      if k != before {
        assert LastProgressAt(states, events, before, k) && !ProgressAt(states, events, before);
      } else {
        assert ProgressAt(states, events, k);
      }
    }
    if NoProgress(states, events, n) {
      assert NoProgress(states, events, before) && !ProgressAt(states, events, before);
    }
  }

  lemma {:induction false} RunTellsDeadline(c: Config, states: seq<Watch>, events: seq<Event>, n: nat)
    requires IsRun(c, states, events) && n <= |events| && !states[n].phase.Closed?
    ensures DeadlineTold(c, states, events, n)
  {
    if n > 0 {
      var before := n - 1;
      assert StepAt(c, states, events, before);
      PhaseAfter(states[before], c, events[before]);
      RunTellsDeadline(c, states, events, before);
      ProgressAfter(states[before], c, events[before]);
      ToldLater(c, states, events, before, n);
    }
  }

  /** As long as no progress item has come, the first-item limit is in force; from then on one idle limit from the last of them. */
  lemma DeadlineIff(c: Config, states: seq<Watch>, events: seq<Event>, n: nat)
    requires IsRun(c, states, events) && n <= |events| && !states[n].phase.Closed?
    ensures NoProgress(states, events, n) ==> states[n].Deadline(c) == c.firstDeadline
    ensures forall k: nat | LastProgressAt(states, events, n, k) ::
      states[n].Deadline(c) == if c.idle.Some? then Some(events[k].r1 + c.idle.value) else None
  {
    RunTellsDeadline(c, states, events, n);
  }
}
