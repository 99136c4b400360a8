/**
 The watchdog as it runs: closures that share variables with the generator's loop. Each
 stretch is proved to be one step of the machine in `Watchdog`, so the results of
 `WatchdogSafety` are about it.
 */
module WatchdogGenerator {
  import opened Wrappers
  import opened Watchdog
  import opened WatchdogSafety

  class Generator {
    const c: Config

    // shared by the closures
    var awaitingFirstItem: bool
    var lastProgressAt: int
    var timer: Option<nat>
    var timerFireAtMs: Option<int>
    var timeoutPromise: Option<nat>
    var resolveTimeout: Option<nat>
    var timeoutFired: bool
    var abortPromise: Option<nat>
    var resolveAbort: Option<nat>
    var raceCount: nat
    var iteratorClosed: bool

    // the surroundings
    var now: int
    var live: map<nat, int>
    var nextTimer: nat
    var nextPromise: nat
    var resolved: set<nat>
    var aborted: bool
    var phase: Phase
    var returnCalls: nat

    function State(): Watch
      reads this
    {
      Watch(now, awaitingFirstItem, lastProgressAt, live, nextTimer, timer, timerFireAtMs, timeoutPromise, abortPromise,
            nextPromise, resolved, timeoutFired, aborted, raceCount, phase, returnCalls)
    }

    ghost predicate Valid()
      reads this
    {
      && Inv(State(), c)
      && resolveTimeout == timeoutPromise && resolveAbort == abortPromise
      && (iteratorClosed <==> phase.Closed?)
    }

    constructor (config: Config, start: int)
      ensures c == config && Valid() && State() == Start(config, start)
    {
      c := config;
      awaitingFirstItem, lastProgressAt, raceCount, iteratorClosed := true, start, 0, false;
      timer, timerFireAtMs, timeoutPromise, resolveTimeout, timeoutFired := None, None, None, None, false;
      abortPromise := if config.hasSignal then Some(0) else None;
      resolveAbort := if config.hasSignal then Some(0) else None;
      nextPromise := if config.hasSignal then 1 else 0;
      now, live, nextTimer, resolved, aborted, phase, returnCalls := start, map[], 0, {}, false, Top, 0;
    }

    function CurrentDeadlineMs(): (deadline: Option<int>)
      reads this
      ensures deadline == State().Deadline(c)
    {
      if awaitingFirstItem then c.firstDeadline
      else if c.idle.Some? then Some(lastProgressAt + c.idle.value)
      else None
    }

    /** `setTimeout`, with the handle and its mark. */
    method StartTimer(fireAt: int, r: int, delay: int)
      modifies this
      ensures State() == SetTimer(old(State()), fireAt, r, delay)
      ensures SameResolvers(old(resolveTimeout), old(resolveAbort), old(iteratorClosed))
    {
      timerFireAtMs := Some(fireAt);
      timer := Some(nextTimer);
      live := live[nextTimer := r + delay];
      nextTimer := nextTimer + 1;
    }

    predicate SameResolvers(timeout: Option<nat>, abort: Option<nat>, closed: bool)
      reads this
    {
      resolveTimeout == timeout && resolveAbort == abort && iteratorClosed == closed
    }

    /** The body of `onTimerFire`. */
    method CheckDeadline(r1: int, r2: int)
      requires resolveTimeout == timeoutPromise
      modifies this
      ensures State() == OnTimerFire(old(State()), c, r1, r2)
      ensures SameResolvers(old(resolveTimeout), old(resolveAbort), old(iteratorClosed))
    {
      timer := None;
      timerFireAtMs := None;
      var deadlineMs := CurrentDeadlineMs();
      if deadlineMs.None? {
        return;
      }
      var remainingMs := deadlineMs.value - r1;
      if remainingMs > 0 {
        StartTimer(deadlineMs.value, r2, remainingMs);
        return;
      }
      timeoutFired := true;
      if resolveTimeout.Some? {
        resolved := resolved + {resolveTimeout.value};
      }
    }

    /** The runtime drops the timer and calls `onTimerFire`. */
    method TimerFired(id: nat, r1: int, r2: int)
      requires Valid() && Enabled(State(), c, TimerFires(id, r1, r2))
      modifies this
      ensures Valid() && State() == Next(old(State()), c, TimerFires(id, r1, r2))
    {
      ghost var after := Next(State(), c, TimerFires(id, r1, r2));
      FireKeepsInv(State(), c, id, r1, r2);
      live := live - {id};
      CheckDeadline(r1, r2);
      now := r2;
      assert State() == after;
    }

    /** A new timeout promise and its resolver. */
    method MintTimeout()
      modifies this
      ensures State() == FreshTimeout(old(State()))
      ensures resolveTimeout == timeoutPromise
      ensures resolveAbort == old(resolveAbort) && iteratorClosed == old(iteratorClosed)
    {
      resolveTimeout := Some(nextPromise);
      timeoutPromise := Some(nextPromise);
      nextPromise := nextPromise + 1;
      timeoutFired := false;
    }

    /** `armTimer` */
    method Arm(deadlineMs: int, r: int)
      requires resolveTimeout == timeoutPromise
      modifies this
      ensures State() == ArmTimer(old(State()), deadlineMs, r)
      ensures resolveTimeout == timeoutPromise
      ensures resolveAbort == old(resolveAbort) && iteratorClosed == old(iteratorClosed)
    {
      if timeoutPromise.None? || timeoutFired {
        MintTimeout();
      }
      if timer.Some? {
        if timerFireAtMs.Some? && timerFireAtMs.value <= deadlineMs {
          return;
        }
        live := live - {timer.value};
      }
      StartTimer(deadlineMs, r, Max(0, deadlineMs - r));
    }

    /** The replacement of racers every 1024 rounds. */
    method RemintRacers()
      requires resolveTimeout == timeoutPromise && resolveAbort == abortPromise
      modifies this
      ensures State() == Remint(old(State()))
      ensures resolveTimeout == timeoutPromise && resolveAbort == abortPromise
      ensures iteratorClosed == old(iteratorClosed)
    {
      raceCount := raceCount + 1;
      if raceCount % RACER_REMINT_INTERVAL == 0 {
        if abortPromise.Some? && !aborted {
          resolveAbort := Some(nextPromise);
          abortPromise := Some(nextPromise);
          nextPromise := nextPromise + 1;
        }
        if timeoutPromise.Some? && !timeoutFired {
          MintTimeout();
        }
      }
    }

    /** `closeIterator` */
    method CloseIterator()
      modifies this
      ensures iteratorClosed
      ensures State() == old(State()).(returnCalls := old(returnCalls) + if old(iteratorClosed) then 0 else 1)
      ensures resolveTimeout == old(resolveTimeout) && resolveAbort == old(resolveAbort)
    {
      if iteratorClosed {
        return;
      }
      iteratorClosed := true;
      returnCalls := returnCalls + 1;
    }

    /** The way out: both `finally` blocks, the inner one closing a source not closed yet. */
    method Exit(exit: Exit)
      requires !iteratorClosed || returnCalls > 0
      modifies this
      ensures iteratorClosed
      ensures State() == Leave(old(State()), exit).(returnCalls := old(returnCalls) + if old(iteratorClosed) then 0 else 1)
      ensures resolveTimeout == old(resolveTimeout) && resolveAbort == old(resolveAbort)
    {
      CloseIterator();
      if timer.Some? {
        live := live - {timer.value};
      }
      timer, timerFireAtMs := None, None;
      phase := Closed(exit);
    }

    method CloseAndExit(exit: Exit)
      requires !iteratorClosed
      modifies this
      ensures iteratorClosed && State() == Leave(old(State()), exit)
      ensures resolveTimeout == old(resolveTimeout) && resolveAbort == old(resolveAbort)
    {
      CloseIterator();
      Exit(exit);
    }

    /** One round of the loop, from its top to the race or to the check that ends it. */
    method Round(r1: int, r2: int, r3: int)
      requires Valid() && Enabled(State(), c, Loop(r1, r2, r3))
      modifies this
      ensures Valid() && State() == Next(old(State()), c, Loop(r1, r2, r3))
    {
      LoopKeepsInv(State(), c, r1, r2, r3);
      RemintRacers();
      now := r3;
      EnterTheRace(r1, r2, r3);
    }

    /** How long this race may take, by the clock reading r1. */
    method ActiveTimeoutMs(r1: int) returns (left: Option<int>)
      ensures State().Deadline(c) == if left.None? then None else Some(r1 + left.value)
    {
      left := None;
      if awaitingFirstItem {
        if c.firstDeadline.Some? {
          left := Some(c.firstDeadline.value - r1);
        }
      } else if c.idle.Some? {
        left := Some(c.idle.value - (r1 - lastProgressAt));
      }
    }

    method EnterTheRace(r1: int, r2: int, r3: int)
      requires resolveTimeout == timeoutPromise && resolveAbort == abortPromise && !iteratorClosed
      modifies this
      ensures State() == EnterRace(old(State()), c, r1, r2, r3)
      ensures resolveTimeout == timeoutPromise && resolveAbort == abortPromise
      ensures iteratorClosed <==> old(State()).Deadline(c).Some? && old(State()).Deadline(c).value <= r1
    {
      var activeTimeoutMs := ActiveTimeoutMs(r1);
      if activeTimeoutMs.None? {
        phase := Racing(None);
      } else if activeTimeoutMs.value <= 0 {
        CloseAndExit(TimedOut);
      } else {
        Arm(r2 + activeTimeoutMs.value, r3);
        phase := Racing(timeoutPromise);
      }
    }

    /** The generator after its race. */
    method ResumeAfterRace(r: int)
      requires Valid() && Enabled(State(), c, Resume(r))
      modifies this
      ensures Valid() && State() == Next(old(State()), c, Resume(r))
    {
      ghost var after := AfterRace(State(), r);
      ResumeKeepsInv(State(), c, r);
      ReadOutcome(r);
      assert State() == after;
    }

    method ReadOutcome(r: int)
      requires phase.Settled? && !iteratorClosed
      modifies this
      ensures State() == AfterRace(old(State()), r)
      ensures resolveTimeout == old(resolveTimeout) && resolveAbort == old(resolveAbort)
      ensures iteratorClosed <==> phase.Closed?
    {
      now := r;
      match phase.outcome
      case AbortSeen =>
        CloseAndExit(Aborted);
      case Timeout =>
        CloseAndExit(TimedOut);
      case Failure =>
        Exit(Failed);
      case End =>
        awaitingFirstItem := false;
        Exit(Finished);
      case Item(progress) =>
        if progress {
          awaitingFirstItem := false;
          lastProgressAt := r;
        }
        phase := Yielded;
    }
  }
}
