/**
 The idle-stream watchdog as a timed state machine. One step is one synchronous stretch
 of `iterateWithIdleTimeout` or one thing its surroundings do; each clock reading of a
 stretch is a value of its own, and a stretch takes no longer than `skew`.
 */
module Watchdog {
  import opened Wrappers

  const RACER_REMINT_INTERVAL := 1024

  /** The limits after normalising: absent when not given or not positive. */
  datatype Config = Config(firstDeadline: Option<int>, idle: Option<nat>, hasSignal: bool, skew: nat)

  datatype Outcome = Item(progress: bool) | End | Failure | Timeout | AbortSeen

  datatype Exit = Finished | Failed | TimedOut | Aborted | ConsumerLeft

  datatype Phase =
    | Top                                // about to ask for the next item
    | Racing(timeout: Option<nat>)       // the race is pending, with that timeout promise in it
    | Settled(outcome: Outcome)          // the race is decided, the generator not yet resumed
    | Yielded                            // the consumer has the item
    | Closed(exit: Exit)

  /**
   `live` is what the runtime holds: timers that will still fire, with their due times.
   Promises are numbers; `resolved` are the resolved ones. `returnCalls` counts the calls of
   the source's `return`.
   */
  datatype Watch = Watch(
    now: int,
    awaitingFirstItem: bool,
    lastProgressAt: int,
    live: map<nat, int>,
    nextTimer: nat,
    timer: Option<nat>,
    timerFireAtMs: Option<int>,          // `None` is infinity
    timeoutPromise: Option<nat>,
    abortPromise: Option<nat>,
    nextPromise: nat,
    resolved: set<nat>,
    timeoutFired: bool,
    aborted: bool,
    raceCount: nat,
    phase: Phase,
    returnCalls: nat)
  {
    /** `currentDeadlineMs` */
    function Deadline(c: Config): Option<int> {
      if awaitingFirstItem then c.firstDeadline
      else if c.idle.Some? then Some(lastProgressAt + c.idle.value)
      else None
    }
  }

  datatype Event =
    | Wait(until: int)
    | Loop(r1: int, r2: int, r3: int)    // a round from its top to the race
    | TimerFires(id: nat, r1: int, r2: int)
    | AbortSignal
    | Settle(outcome: Outcome)
    | Resume(r1: int)                    // the generator after its race
    | ConsumerNext
    | ConsumerLeaves

  function Max(a: int, b: int): int { if a < b then b else a }

  // ---------------------------------------------------------------- the closures

  function FreshTimeout(s: Watch): Watch {
    s.(timeoutPromise := Some(s.nextPromise), nextPromise := s.nextPromise + 1, timeoutFired := false)
  }

  /** `setTimeout` at clock reading r. */
  function SetTimer(s: Watch, fireAt: int, r: int, delay: int): Watch {
    s.(timer := Some(s.nextTimer), nextTimer := s.nextTimer + 1, timerFireAtMs := Some(fireAt),
       live := s.live[s.nextTimer := r + delay])
  }

  function ClearTimer(s: Watch): Watch {
    if s.timer.Some? then s.(live := s.live - {s.timer.value}) else s
  }

  /** `armTimer` at clock reading r. */
  function ArmTimer(s: Watch, deadline: int, r: int): Watch {
    var t := if s.timeoutPromise.None? || s.timeoutFired then FreshTimeout(s) else s;
    if t.timer.Some? && t.timerFireAtMs.Some? && t.timerFireAtMs.value <= deadline then t
    else SetTimer(ClearTimer(t), deadline, r, Max(0, deadline - r))
  }

  /** `onTimerFire`, with the deadline check at clock reading r1 and `setTimeout` at r2. */
  function OnTimerFire(s: Watch, c: Config, r1: int, r2: int): Watch {
    var t := s.(timer := None, timerFireAtMs := None);
    var deadline := s.Deadline(c);
    if deadline.None? then t
    else if deadline.value > r1 then SetTimer(t, deadline.value, r2, deadline.value - r1)
    else
      t.(timeoutFired := true,
         resolved := if t.timeoutPromise.Some? then t.resolved + {t.timeoutPromise.value} else t.resolved)
  }

  /** Every 1024 races the promises that have not fired are replaced. */
  function Remint(s: Watch): Watch {
    var t := s.(raceCount := s.raceCount + 1);
    if t.raceCount % RACER_REMINT_INTERVAL != 0 then t
    else
      var u := if t.abortPromise.Some? && !t.aborted
               then t.(abortPromise := Some(t.nextPromise), nextPromise := t.nextPromise + 1) else t;
      if u.timeoutPromise.Some? && !u.timeoutFired then FreshTimeout(u) else u
  }

  /** Leaving the generator: the source is told once, the timer goes. */
  function Leave(s: Watch, exit: Exit): Watch {
    ClearTimer(s).(timer := None, timerFireAtMs := None, phase := Closed(exit), returnCalls := s.returnCalls + 1)
  }

  // ---------------------------------------------------------------- steps

  ghost predicate Enabled(s: Watch, c: Config, e: Event) {
    match e
    case Wait(until) => s.now <= until
    case Loop(r1, r2, r3) => s.phase.Top? && s.now <= r1 <= r2 <= r3 <= r1 + c.skew
    case TimerFires(id, r1, r2) => id in s.live && s.now <= r1 <= r2 <= r1 + c.skew
    case AbortSignal => c.hasSignal && !s.aborted
    case Settle(outcome) =>
      s.phase.Racing? &&
      (match outcome
       case Timeout => s.phase.timeout.Some? && s.phase.timeout.value in s.resolved
       case AbortSeen => s.abortPromise.Some? && s.abortPromise.value in s.resolved
       case _ => true)
    case Resume(r1) => s.phase.Settled? && s.now <= r1
    case ConsumerNext => s.phase.Yielded?
    case ConsumerLeaves => s.phase.Yielded?
  }

  function Next(s: Watch, c: Config, e: Event): Watch
    requires Enabled(s, c, e)
  {
    match e
    case Wait(until) => s.(now := until)
    case Loop(r1, r2, r3) => StartRace(s, c, r1, r2, r3)
    case TimerFires(id, r1, r2) => OnTimerFire(s.(live := s.live - {id}), c, r1, r2).(now := r2)
    case AbortSignal =>
      s.(aborted := true,
         resolved := if s.abortPromise.Some? then s.resolved + {s.abortPromise.value} else s.resolved)
    case Settle(outcome) => s.(phase := Settled(outcome))
    case Resume(r1) => AfterRace(s, r1)
    case ConsumerNext => s.(phase := Top)
    case ConsumerLeaves => Leave(s, ConsumerLeft)
  }

  function StartRace(s: Watch, c: Config, r1: int, r2: int, r3: int): Watch {
    EnterRace(Remint(s).(now := r3), c, r1, r2, r3)
  }

  function EnterRace(s: Watch, c: Config, r1: int, r2: int, r3: int): Watch {
    var deadline := s.Deadline(c);
    if deadline.None? then s.(phase := Racing(None))
    else if deadline.value <= r1 then Leave(s, TimedOut)
    else
      var armed := ArmTimer(s, r2 + (deadline.value - r1), r3);
      armed.(phase := Racing(armed.timeoutPromise))
  }

  function AfterRace(s: Watch, r: int): Watch
    requires s.phase.Settled?
  {
    var t := s.(now := r);
    match s.phase.outcome
    case AbortSeen => Leave(t, Aborted)
    case Timeout => Leave(t, TimedOut)
    case Failure => Leave(t, Failed)
    case End => Leave(t.(awaitingFirstItem := false), Finished)
    case Item(progress) =>
      if progress then t.(awaitingFirstItem := false, lastProgressAt := r, phase := Yielded)
      else t.(phase := Yielded)
  }

  /** The generator when it is first asked, with a signal that is not aborted yet. */
  function Start(c: Config, now: int): Watch {
    Watch(now, true, now, map[], 0, None, None, None, if c.hasSignal then Some(0) else None,
          if c.hasSignal then 1 else 0, {}, false, false, 0, Top, 0)
  }

  // ---------------------------------------------------------------- runs

  ghost predicate StepAt(c: Config, states: seq<Watch>, events: seq<Event>, n: nat)
    requires |states| == |events| + 1
  {
    n < |events| ==> Enabled(states[n], c, events[n]) && states[n + 1] == Next(states[n], c, events[n])
  }

  ghost predicate IsRun(c: Config, states: seq<Watch>, events: seq<Event>) {
    && |states| == |events| + 1
    && states[0] == Start(c, states[0].now)
    && forall n: nat :: StepAt(c, states, events, n)
  }
}
