/**
 What every reachable state of the watchdog keeps, and what follows: no timeout before the
 deadline, one timer, a silent source is cut off in time, and racers left over from earlier
 rounds do no harm.
 */
module WatchdogSafety {
  import opened Wrappers
  import opened Watchdog

  /** The runtime holds the watchdog's timer and no other, due no later than `skew` after its mark. */
  ghost predicate TimerInv(s: Watch, c: Config) {
    && s.live.Keys == (if s.timer.Some? then {s.timer.value} else {})
    && (s.timer.Some? <==> s.timerFireAtMs.Some?)
    && (s.timer.Some? ==> s.timeoutPromise.Some?)
    && (s.timer.Some? ==> s.timer.value < s.nextTimer && s.live[s.timer.value] <= s.timerFireAtMs.value + c.skew)
  }

  /** A promise in use is resolved exactly when its flag is up; numbers still to come are not. */
  ghost predicate PromiseInv(s: Watch, c: Config) {
    && (forall p | p in s.resolved :: p < s.nextPromise)
    && (s.timeoutPromise.None? ==> !s.timeoutFired)
    && (s.timeoutPromise.Some? ==>
          s.timeoutPromise.value < s.nextPromise && (s.timeoutFired <==> s.timeoutPromise.value in s.resolved))
    && (s.abortPromise.Some? <==> c.hasSignal)
    && (s.abortPromise.Some? ==>
          && s.abortPromise.value < s.nextPromise && s.abortPromise != s.timeoutPromise
          && (s.aborted <==> s.abortPromise.value in s.resolved))
    && (s.aborted ==> c.hasSignal)
  }

  /** While a race with a deadline is pending, either its time is up or a timer will say so. */
  ghost predicate RaceInv(s: Watch, c: Config) {
    match s.phase
    case Racing(timeout) =>
      (match timeout
       case None => s.Deadline(c).None?
       case Some(p) =>
         && s.timeoutPromise == timeout && s.Deadline(c).Some?
         && (if s.timeoutFired then s.Deadline(c).value <= s.now
             else s.timerFireAtMs.Some? && s.timerFireAtMs.value <= s.Deadline(c).value + c.skew))
    case Settled(outcome) =>
      outcome.Timeout? ==> s.Deadline(c).Some? && s.Deadline(c).value <= s.now
    case _ => true
  }

  ghost predicate ExitInv(s: Watch) {
    && s.returnCalls == (if s.phase.Closed? then 1 else 0)
    && (s.phase.Closed? ==> s.live == map[] && s.timer.None?)
    && (s.phase.Closed? && s.phase.exit.Aborted? ==> s.aborted)
    && (s.phase.Settled? && s.phase.outcome.AbortSeen? ==> s.aborted)
  }

  ghost predicate Inv(s: Watch, c: Config) {
    TimerInv(s, c) && PromiseInv(s, c) && RaceInv(s, c) && ExitInv(s)
  }

  lemma StartHasInv(c: Config, now: int)
    ensures Inv(Start(c, now), c)
  {}

  // ---------------------------------------------------------------- the closures keep it

  lemma ClearedTimer(s: Watch, c: Config)
    requires TimerInv(s, c)
    ensures ClearTimer(s).live == map[]
  {
    assert ClearTimer(s).live.Keys == {};
  }

  lemma SetTimerInv(s: Watch, c: Config, fireAt: int, r: int, delay: int)
    requires s.live == map[] && s.timeoutPromise.Some? && r + delay <= fireAt + c.skew
    ensures TimerInv(SetTimer(s, fireAt, r, delay), c)
  {}

  lemma FreshTimeoutInv(s: Watch, c: Config)
    requires PromiseInv(s, c)
    ensures PromiseInv(FreshTimeout(s), c)
    ensures FreshTimeout(s).timeoutPromise.value !in s.resolved
  {}

  lemma ArmTimerInv(s: Watch, c: Config, deadline: int, r: int)
    requires TimerInv(s, c) && PromiseInv(s, c) && r <= deadline + c.skew
    ensures var t := ArmTimer(s, deadline, r);
      && TimerInv(t, c) && PromiseInv(t, c)
      && t.timeoutPromise.Some? && !t.timeoutFired
      && t.timerFireAtMs.Some? && t.timerFireAtMs.value <= deadline
  {
    FreshTimeoutInv(s, c);
    var t := if s.timeoutPromise.None? || s.timeoutFired then FreshTimeout(s) else s;
    if !(t.timer.Some? && t.timerFireAtMs.Some? && t.timerFireAtMs.value <= deadline) {
      ClearedTimer(t, c);
      SetTimerInv(ClearTimer(t), c, deadline, r, Max(0, deadline - r));
    }
  }

  lemma RemintInv(s: Watch, c: Config)
    requires TimerInv(s, c) && PromiseInv(s, c)
    ensures TimerInv(Remint(s), c) && PromiseInv(Remint(s), c)
  {}

  lemma LeaveInv(s: Watch, c: Config, exit: Exit)
    requires TimerInv(s, c) && PromiseInv(s, c) && s.returnCalls == 0 && (exit.Aborted? ==> s.aborted)
    ensures Inv(Leave(s, exit), c)
  {
    ClearedTimer(s, c);
  }

  // ---------------------------------------------------------------- every step keeps it

  lemma LoopKeepsInv(s: Watch, c: Config, r1: int, r2: int, r3: int)
    requires Inv(s, c) && Enabled(s, c, Loop(r1, r2, r3))
    ensures Inv(StartRace(s, c, r1, r2, r3), c)
  {
    RemintInv(s, c);
    RemintKeeps(s, c);
    EnterRaceInv(Remint(s).(now := r3), c, r1, r2, r3);
  }

  lemma RemintKeeps(s: Watch, c: Config)
    ensures Remint(s).Deadline(c) == s.Deadline(c)
    ensures Remint(s).returnCalls == s.returnCalls && Remint(s).phase == s.phase && Remint(s).aborted == s.aborted
  {}

  lemma EnterRaceInv(s: Watch, c: Config, r1: int, r2: int, r3: int)
    requires TimerInv(s, c) && PromiseInv(s, c) && s.returnCalls == 0 && r1 <= r2 <= r3 <= r1 + c.skew
    ensures Inv(EnterRace(s, c, r1, r2, r3), c)
  {
    var deadline := s.Deadline(c);
    if deadline.None? {
      OpenRace(s, c);
    } else if deadline.value <= r1 {
      LeaveInv(s, c, TimedOut);
    } else {
      var fireAt := r2 + (deadline.value - r1);
      RaceStarts(s, c, fireAt, r3);
      var armed := ArmTimer(s, fireAt, r3);
      assert EnterRace(s, c, r1, r2, r3) == armed.(phase := Racing(armed.timeoutPromise));
    }
  }

  lemma OpenRace(s: Watch, c: Config)
    requires TimerInv(s, c) && PromiseInv(s, c) && s.returnCalls == 0 && s.Deadline(c).None?
    ensures Inv(s.(phase := Racing(None)), c)
  {}

  lemma RaceStarts(t: Watch, c: Config, fireAt: int, r: int)
    requires TimerInv(t, c) && PromiseInv(t, c) && t.returnCalls == 0
    requires t.Deadline(c).Some? && r <= fireAt + c.skew && fireAt <= t.Deadline(c).value + c.skew
    ensures var armed := ArmTimer(t, fireAt, r); Inv(armed.(phase := Racing(armed.timeoutPromise)), c)
  {
    ArmTimerInv(t, c, fireAt, r);
    ArmTimerKeeps(t, c, fireAt, r);
  }

  lemma ArmTimerKeeps(t: Watch, c: Config, fireAt: int, r: int)
    ensures var armed := ArmTimer(t, fireAt, r);
      && armed.Deadline(c) == t.Deadline(c) && armed.returnCalls == t.returnCalls && armed.now == t.now
      && armed.resolved == t.resolved
  {}

  lemma FireKeepsInv(s: Watch, c: Config, id: nat, r1: int, r2: int)
    requires Inv(s, c) && Enabled(s, c, TimerFires(id, r1, r2))
    ensures Inv(Next(s, c, TimerFires(id, r1, r2)), c)
  {
    assert id in s.live.Keys;
    var fired := s.(live := s.live - {id});
    assert fired.live.Keys == {};
    var deadline := s.Deadline(c);
    if deadline.Some? && deadline.value > r1 {
      SetTimerInv(fired.(timer := None, timerFireAtMs := None), c, deadline.value, r2, deadline.value - r1);
    }
  }

  lemma ResumeKeepsInv(s: Watch, c: Config, r: int)
    requires Inv(s, c) && Enabled(s, c, Resume(r))
    ensures Inv(AfterRace(s, r), c)
  {
    match s.phase.outcome
    case AbortSeen => LeaveInv(s.(now := r), c, Aborted);
    case Timeout => LeaveInv(s.(now := r), c, TimedOut);
    case Failure => LeaveInv(s.(now := r), c, Failed);
    case End => LeaveInv(s.(now := r, awaitingFirstItem := false), c, Finished);
    case Item(progress) =>
  }

  lemma AbortKeepsInv(s: Watch, c: Config)
    requires Inv(s, c) && Enabled(s, c, AbortSignal)
    ensures Inv(Next(s, c, AbortSignal), c)
  {}

  lemma SettleKeepsInv(s: Watch, c: Config, outcome: Outcome)
    requires Inv(s, c) && Enabled(s, c, Settle(outcome))
    ensures Inv(Next(s, c, Settle(outcome)), c)
  {}

  lemma StepKeepsInv(s: Watch, c: Config, e: Event)
    requires Inv(s, c) && Enabled(s, c, e)
    ensures Inv(Next(s, c, e), c)
  {
    match e
    case Loop(r1, r2, r3) => LoopKeepsInv(s, c, r1, r2, r3);
    case TimerFires(id, r1, r2) => FireKeepsInv(s, c, id, r1, r2);
    case AbortSignal => AbortKeepsInv(s, c);
    case Settle(outcome) => SettleKeepsInv(s, c, outcome);
    case Resume(r1) => ResumeKeepsInv(s, c, r1);
    case ConsumerLeaves => LeaveInv(s, c, ConsumerLeft);
    case _ =>
  }

  lemma {:induction false} RunKeepsInv(c: Config, states: seq<Watch>, events: seq<Event>, n: nat)
    requires IsRun(c, states, events) && n <= |events|
    ensures Inv(states[n], c)
  {
    if n == 0 {
      StartHasInv(c, states[0].now);
    } else {
      RunKeepsInv(c, states, events, n - 1);
      assert StepAt(c, states, events, n - 1);
      StepKeepsInv(states[n - 1], c, events[n - 1]);
    }
  }
  // ---------------------------------------------------------------- main results

  ghost predicate TimerDueBy(s: Watch, time: int) {
    exists id: nat :: id in s.live && s.live[id] <= time
  }

  /** A state some run reaches, and the step taken from it. */
  ghost predicate Reaches(c: Config, states: seq<Watch>, events: seq<Event>, n: nat) {
    IsRun(c, states, events) && n < |events|
  }

  /** A timeout is only ever raised at or after the deadline in force. */
  lemma NeverEarly(c: Config, states: seq<Watch>, events: seq<Event>, n: nat)
    requires Reaches(c, states, events, n)
    requires !states[n].phase.Closed? && states[n + 1].phase == Closed(TimedOut)
    ensures states[n].Deadline(c).Some? && states[n].Deadline(c).value <= states[n + 1].now
  {
    RunKeepsInv(c, states, events, n);
    assert StepAt(c, states, events, n);
    if events[n].Loop? {
      RemintKeeps(states[n], c);
    }
  }

  /** At every moment the runtime holds at most one timer, and none once the generator is left. */
  lemma AtMostOneTimer(c: Config, states: seq<Watch>, events: seq<Event>, n: nat)
    requires IsRun(c, states, events) && n <= |events|
    ensures |states[n].live| <= 1
    ensures states[n].phase.Closed? ==> |states[n].live| == 0
  {
    RunKeepsInv(c, states, events, n);
    var s := states[n];
    if s.timer.Some? {
      assert |s.live.Keys| == 1;
    } else {
      assert |s.live.Keys| == 0;
    }
    CountIsKeys(s.live);
  }

  lemma CountIsKeys(live: map<nat, int>)
    ensures |live| == |live.Keys|
  {}

  /**
   A source that stays silent is cut off: while a race with a deadline is pending, a timer is
   due within two stretches of the deadline, or the race can already end with the timeout.
   */
  lemma SilentSourceIsCutOff(c: Config, states: seq<Watch>, events: seq<Event>, n: nat)
    requires IsRun(c, states, events) && n <= |events|
    requires states[n].phase.Racing? && states[n].Deadline(c).Some?
    ensures var s := states[n];
      || Enabled(s, c, Settle(Timeout))
      || TimerDueBy(s, s.Deadline(c).value + 2 * c.skew)
  {
    RunKeepsInv(c, states, events, n);
    var s := states[n];
    if !s.timeoutFired {
      assert s.timer.value in s.live.Keys && s.live[s.timer.value] <= s.Deadline(c).value + 2 * c.skew;
    }
  }

  /** A pending race with a deadline is decided already, or a timer is due no later than the deadline. */
  ghost predicate OnTime(c: Config, s: Watch) {
    s.phase.Racing? && s.Deadline(c).Some? ==> Enabled(s, c, Settle(Timeout)) || TimerDueBy(s, s.Deadline(c).value)
  }

  ghost predicate AlwaysOnTime(c: Config, states: seq<Watch>, events: seq<Event>) {
    forall n | 0 <= n < |states| :: OnTime(c, states[n])
  }

  /** A first item due at time 1, asked for at time 0: the second clock reading makes the timer late. */
  lemma LateTimer(k: nat) returns (c: Config, states: seq<Watch>, events: seq<Event>)
    requires k > 0
    ensures c.skew == k && IsRun(c, states, events) && |events| == 1 && !OnTime(c, states[1])
  {
    c := Config(Some(1), None, false, k);
    var start := Start(c, 0);
    var e := Loop(0, k, k);
    var late := Next(start, c, e);
    states, events := [start, late], [e];
    assert StepAt(c, states, events, 0);
    assert late.phase == Racing(Some(0)) && late.live == map[0 := k + 1] && late.resolved == {};
    assert late.Deadline(c) == Some(1);
    assert forall id: nat :: id in late.live ==> late.live[id] == k + 1;
  }

  /** Every timer is on time, under all limits and in all runs, if and only if a stretch takes no time. */
  lemma OnTimeIff(k: nat)
    ensures (forall c: Config, states: seq<Watch>, events: seq<Event> | c.skew == k && IsRun(c, states, events) ::
               AlwaysOnTime(c, states, events))
            <==> k == 0
  {
    if k == 0 {
      forall c: Config, states: seq<Watch>, events: seq<Event> | c.skew == k && IsRun(c, states, events)
        ensures AlwaysOnTime(c, states, events)
      {
        forall n | 0 <= n < |states| ensures OnTime(c, states[n]) {
          if states[n].phase.Racing? && states[n].Deadline(c).Some? {
            SilentSourceIsCutOff(c, states, events, n);
          }
        }
      }
    } else {
      var c: Config, states, events := LateTimer(k);
      assert !AlwaysOnTime(c, states, events);
    }
  }

  /**
   Race by race: a timer armed for it is due at the deadline plus the time between the first two
   clock readings, or at once when that has passed by the third; it is on time if and only if the
   first two agree and the third is no later than the deadline. A timer kept is due as before.
   */
  lemma RaceOnTimeIff(c: Config, states: seq<Watch>, events: seq<Event>, n: nat)
    requires Reaches(c, states, events, n) && events[n].Loop?
    requires states[n + 1].phase.Racing? && states[n + 1].Deadline(c).Some?
    ensures var s, after, e := states[n], states[n + 1], events[n];
      var deadline := after.Deadline(c).value;
      if after.nextTimer == s.nextTimer then
        after.live == s.live && (OnTime(c, after) <==> TimerDueBy(s, deadline))
      else
        && after.live == map[s.nextTimer := Max(deadline + (e.r2 - e.r1), e.r3)]
        && (OnTime(c, after) <==> e.r1 == e.r2 && e.r3 <= deadline)
  {
    RunKeepsInv(c, states, events, n);
    RacesStartUndecided(c, states, events, n);
    assert StepAt(c, states, events, n);
    var s, after, e := states[n], states[n + 1], events[n];
    RaceTimer(s, c, e.r1, e.r2, e.r3);
    var deadline := after.Deadline(c).value;
    if after.nextTimer != s.nextTimer {
      DueBy(after, s.nextTimer, Max(deadline + (e.r2 - e.r1), e.r3), deadline);
    }
  }

  lemma DueBy(s: Watch, timer: nat, due: int, time: int)
    requires s.live == map[timer := due]
    ensures TimerDueBy(s, time) <==> due <= time
  {
    assert timer in s.live;
  }

  lemma RaceTimer(s: Watch, c: Config, r1: int, r2: int, r3: int)
    requires TimerInv(s, c) && s.Deadline(c).Some? && s.phase.Top? && StartRace(s, c, r1, r2, r3).phase.Racing?
    ensures var after := StartRace(s, c, r1, r2, r3); var deadline := s.Deadline(c).value;
      && after.Deadline(c) == s.Deadline(c)
      && if after.nextTimer == s.nextTimer then after.live == s.live
         else after.live == map[s.nextTimer := Max(deadline + (r2 - r1), r3)]
  {
    RemintKeeps(s, c);
    RemintKeepsTimer(s);
    var t := Remint(s).(now := r3);
    var fireAt := r2 + (s.Deadline(c).value - r1);
    assert t.Deadline(c) == s.Deadline(c);
    var armed := ArmTimer(t, fireAt, r3);
    assert StartRace(s, c, r1, r2, r3) == armed.(phase := Racing(armed.timeoutPromise));
    ArmedTimer(t, c, fireAt, r3);
    ArmTimerKeeps(t, c, fireAt, r3);
  }

  lemma RemintKeepsTimer(s: Watch)
    ensures Remint(s).timer == s.timer && Remint(s).live == s.live && Remint(s).nextTimer == s.nextTimer
  {}

  lemma ArmedTimer(s: Watch, c: Config, fireAt: int, r: int)
    requires TimerInv(s, c)
    ensures var armed := ArmTimer(s, fireAt, r);
      if armed.nextTimer == s.nextTimer then armed.live == s.live
      else armed.live == map[s.nextTimer := Max(fireAt, r)]
  {
    var t := if s.timeoutPromise.None? || s.timeoutFired then FreshTimeout(s) else s;
    ClearedTimer(t, c);
  }

  /** When that timer fires in time for the deadline to have passed, the pending race can end with the timeout at once. */
  lemma FiredTimerEndsRace(c: Config, states: seq<Watch>, events: seq<Event>, n: nat)
    requires Reaches(c, states, events, n) && events[n].TimerFires?
    requires states[n].phase.Racing? && states[n].Deadline(c).Some?
    ensures states[n].Deadline(c).value <= events[n].r1 ==> Enabled(states[n + 1], c, Settle(Timeout))
    ensures events[n].r1 < states[n].Deadline(c).value ==>
      TimerDueBy(states[n + 1], states[n].Deadline(c).value + c.skew)
  {
    RunKeepsInv(c, states, events, n);
    assert StepAt(c, states, events, n);
    if events[n].r1 < states[n].Deadline(c).value {
      assert states[n].nextTimer in states[n + 1].live;
    }
  }

  /** A race never starts with a timeout that is already resolved: racers of earlier rounds, fired or replaced, are out. */
  lemma RacesStartUndecided(c: Config, states: seq<Watch>, events: seq<Event>, n: nat)
    requires Reaches(c, states, events, n) && events[n].Loop? && states[n + 1].phase.Racing?
    ensures !Enabled(states[n + 1], c, Settle(Timeout))
    ensures !states[n].aborted ==> !Enabled(states[n + 1], c, Settle(AbortSeen))
    ensures states[n].aborted ==> Enabled(states[n + 1], c, Settle(AbortSeen))
  {
    RunKeepsInv(c, states, events, n);
    assert StepAt(c, states, events, n);
    var s := states[n];
    RemintInv(s, c);
    RemintKeeps(s, c);
    var t := Remint(s).(now := events[n].r3);
    RaceStartsUndecided(t, c, events[n].r1, events[n].r2, events[n].r3);
  }

  lemma RaceStartsUndecided(t: Watch, c: Config, r1: int, r2: int, r3: int)
    requires TimerInv(t, c) && PromiseInv(t, c) && r1 <= r2 <= r3 <= r1 + c.skew
    requires EnterRace(t, c, r1, r2, r3).phase.Racing?
    ensures !Enabled(EnterRace(t, c, r1, r2, r3), c, Settle(Timeout))
    ensures t.aborted <==> Enabled(EnterRace(t, c, r1, r2, r3), c, Settle(AbortSeen))
  {
    var deadline := t.Deadline(c);
    if deadline.Some? {
      var fireAt := r2 + (deadline.value - r1);
      ArmTimerInv(t, c, fireAt, r3);
      ArmTimerKeeps(t, c, fireAt, r3);
    }
  }

  /** An abort is never lost to a replaced promise: every race pending after it can end with it. */
  lemma AbortIsSeen(c: Config, states: seq<Watch>, events: seq<Event>, n: nat)
    requires IsRun(c, states, events) && n <= |events| && states[n].phase.Racing?
    ensures states[n].aborted <==> Enabled(states[n], c, Settle(AbortSeen))
  {
    RunKeepsInv(c, states, events, n);
  }

  /** The step hands a progress item to the consumer. */
  predicate Progresses(s: Watch, e: Event) {
    e.Resume? && s.phase == Settled(Item(true))
  }

  /** Only progress moves the deadline, and then to one idle limit from now. */
  lemma OnlyProgressMovesDeadline(c: Config, s: Watch, e: Event)
    requires Enabled(s, c, e) && !Next(s, c, e).phase.Closed?
    ensures !Progresses(s, e) ==> Next(s, c, e).Deadline(c) == s.Deadline(c)
    ensures Progresses(s, e) ==>
      Next(s, c, e).Deadline(c) == if c.idle.Some? then Some(e.r1 + c.idle.value) else None
  {
    if e.Loop? {
      RemintKeeps(s, c);
      RaceKeepsDeadline(Remint(s).(now := e.r3), c, e.r1, e.r2, e.r3);
    }
  }

  lemma RaceKeepsDeadline(s: Watch, c: Config, r1: int, r2: int, r3: int)
    ensures EnterRace(s, c, r1, r2, r3).Deadline(c) == s.Deadline(c)
  {
    if s.Deadline(c).Some? {
      ArmTimerKeeps(s, c, r2 + (s.Deadline(c).value - r1), r3);
    }
  }

  /** However many other items arrive, without progress the deadline stays where it was. */
  lemma {:induction false} OtherItemsNeverExtend(c: Config, states: seq<Watch>, events: seq<Event>, m: nat, n: nat)
    requires IsRun(c, states, events) && m <= n <= |events|
    requires forall k | m <= k < n :: !Progresses(states[k], events[k])
    requires forall k | m <= k <= n :: !states[k].phase.Closed?
    ensures states[n].Deadline(c) == states[m].Deadline(c)
    decreases n
  {
    if m < n {
      OtherItemsNeverExtend(c, states, events, m, n - 1);
      RunKeepsInv(c, states, events, n - 1);
      assert StepAt(c, states, events, n - 1);
      OnlyProgressMovesDeadline(c, states[n - 1], events[n - 1]);
    }
  }

  /** So a source that only sends such items does not outlive the deadline: the next round ends the stream. */
  lemma KeepAlivesDoNotHelp(c: Config, states: seq<Watch>, events: seq<Event>, m: nat, n: nat)
    requires Reaches(c, states, events, n) && m <= n && events[n].Loop?
    requires forall k | m <= k < n :: !Progresses(states[k], events[k])
    requires forall k | m <= k <= n :: !states[k].phase.Closed?
    requires states[m].Deadline(c).Some? && states[m].Deadline(c).value <= events[n].r1
    ensures states[n + 1].phase == Closed(TimedOut)
  {
    OtherItemsNeverExtend(c, states, events, m, n);
    assert StepAt(c, states, events, n);
    RemintKeeps(states[n], c);
  }

  /** The source is told to stop exactly once, however the generator ends. */
  lemma SourceToldOnce(c: Config, states: seq<Watch>, events: seq<Event>, n: nat)
    requires IsRun(c, states, events) && n <= |events|
    ensures states[n].returnCalls == if states[n].phase.Closed? then 1 else 0
  {
    RunKeepsInv(c, states, events, n);
  }
}
