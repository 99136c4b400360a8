/**
 What the watchdog holds on to over a long stream: one timer is enough for many items, and
 a racer promise is used for many races but never for more than 1024.
 */
module WatchdogRacers {
  import opened Wrappers
  import opened Watchdog
  import opened WatchdogSafety

  // ---------------------------------------------------------------- counts

  /** How many timers have fired before event n. */
  function Fires(events: seq<Event>, n: nat): nat
    requires n <= |events|
  {
    if n == 0 then 0 else Fires(events, n - 1) + if events[n - 1].TimerFires? then 1 else 0
  }

  /** The round behind event m has the timeout promise p in its race. */
  predicate RacesTimeout(states: seq<Watch>, m: nat, p: nat)
    requires m + 1 < |states|
  {
    states[m + 1].phase == Racing(Some(p))
  }

  /** The round behind event m has the abort promise p in its race, and nothing has aborted yet. */
  predicate RacesAbort(states: seq<Watch>, m: nat, p: nat)
    requires m + 1 < |states|
  {
    states[m + 1].phase.Racing? && states[m + 1].abortPromise == Some(p) && !states[m + 1].aborted
  }

  function TimeoutRaces(states: seq<Watch>, events: seq<Event>, n: nat, p: nat): nat
    requires |states| == |events| + 1 && n <= |events|
  {
    if n == 0 then 0
    else TimeoutRaces(states, events, n - 1, p) + if events[n - 1].Loop? && RacesTimeout(states, n - 1, p) then 1 else 0
  }

  function AbortRaces(states: seq<Watch>, events: seq<Event>, n: nat, p: nat): nat
    requires |states| == |events| + 1 && n <= |events|
  {
    if n == 0 then 0
    else AbortRaces(states, events, n - 1, p) + if events[n - 1].Loop? && RacesAbort(states, n - 1, p) then 1 else 0
  }

  // ---------------------------------------------------------------- promises

  /** A promise in use has been in no more races than rounds were begun since the last replacement. */
  ghost predicate RaceCounts(states: seq<Watch>, events: seq<Event>, n: nat)
    requires |states| == |events| + 1 && n <= |events|
  {
    forall p: nat :: Counted(states, events, n, p)
  }

  ghost predicate Counted(states: seq<Watch>, events: seq<Event>, n: nat, p: nat)
    requires |states| == |events| + 1 && n <= |events|
  {
    TimeoutCount(states, events, n, p) && AbortCount(states, events, n, p)
  }

  ghost predicate TimeoutCount(states: seq<Watch>, events: seq<Event>, n: nat, p: nat)
    requires |states| == |events| + 1 && n <= |events|
  {
    TimeoutRaces(states, events, n, p) <= RaceLimit(states[n], p, states[n].timeoutPromise, states[n].timeoutFired)
  }

  ghost predicate AbortCount(states: seq<Watch>, events: seq<Event>, n: nat, p: nat)
    requires |states| == |events| + 1 && n <= |events|
  {
    AbortRaces(states, events, n, p) <= RaceLimit(states[n], p, states[n].abortPromise, states[n].aborted)
  }

  function RaceLimit(s: Watch, p: nat, current: Option<nat>, resolved: bool): nat {
    if s.nextPromise <= p then 0
    else if current == Some(p) && !resolved then s.raceCount % RACER_REMINT_INTERVAL + 1
    else RACER_REMINT_INTERVAL
  }

  /** What a round does to the promises. */
  ghost predicate RoundRenews(s: Watch, t: Watch) {
    var due := t.raceCount % RACER_REMINT_INTERVAL == 0;
    && t.raceCount == s.raceCount + 1 && t.aborted == s.aborted && s.nextPromise <= t.nextPromise
    && (t.timeoutPromise != s.timeoutPromise ==>
          t.timeoutPromise.Some? && s.nextPromise <= t.timeoutPromise.value < t.nextPromise && !t.timeoutFired)
    && (t.timeoutPromise == s.timeoutPromise ==> t.timeoutFired == s.timeoutFired)
    && (t.abortPromise != s.abortPromise ==> t.abortPromise.Some? && s.nextPromise <= t.abortPromise.value < t.nextPromise)
    && (due && !t.timeoutFired && s.timeoutPromise.Some? ==> t.timeoutPromise != s.timeoutPromise)
    && (due && !t.aborted && s.abortPromise.Some? ==> t.abortPromise != s.abortPromise)
    && (t.phase.Racing? && t.phase.timeout.Some? ==> t.phase.timeout == t.timeoutPromise && !t.timeoutFired)
  }

  lemma RemintRenews(s: Watch, c: Config)
    requires PromiseInv(s, c)
    ensures var t := Remint(s).(phase := Top);
      RoundRenews(s, t) && PromiseInv(t, c)
  {}

  lemma RoundIsRenewing(s: Watch, c: Config, r1: int, r2: int, r3: int)
    requires PromiseInv(s, c) && s.phase.Top?
    ensures RoundRenews(s, StartRace(s, c, r1, r2, r3))
  {
    RemintRenews(s, c);
    var u := Remint(s).(now := r3);
    EnterKeepsPromises(u, c, r1, r2, r3);
  }

  lemma EnterKeepsPromises(u: Watch, c: Config, r1: int, r2: int, r3: int)
    requires PromiseInv(u, c) && u.phase.Top?
    ensures var t := EnterRace(u, c, r1, r2, r3);
      && t.raceCount == u.raceCount && t.aborted == u.aborted && t.abortPromise == u.abortPromise
      && u.nextPromise <= t.nextPromise
      && (t.timeoutPromise == u.timeoutPromise ==> t.timeoutFired == u.timeoutFired)
      && (t.timeoutPromise != u.timeoutPromise ==>
            && t.timeoutPromise == Some(u.nextPromise) && t.nextPromise == u.nextPromise + 1
            && !t.timeoutFired && (u.timeoutPromise.None? || u.timeoutFired))
      && (t.phase.Racing? && t.phase.timeout.Some? ==> t.phase.timeout == t.timeoutPromise && !t.timeoutFired)
  {
    var deadline := u.Deadline(c);
    if deadline.Some? && deadline.value > r1 {
      ArmRenews(u, r2 + (deadline.value - r1), r3);
    }
  }

  lemma ArmRenews(u: Watch, fireAt: int, r: int)
    ensures var t := ArmTimer(u, fireAt, r);
      && t.raceCount == u.raceCount && t.aborted == u.aborted && t.abortPromise == u.abortPromise && !t.timeoutFired
      && (if u.timeoutPromise.None? || u.timeoutFired
          then t.timeoutPromise == Some(u.nextPromise) && t.nextPromise == u.nextPromise + 1
          else t.timeoutPromise == u.timeoutPromise && t.nextPromise == u.nextPromise)
  {}

  /** What any other step does to them: nothing but resolving them. */
  lemma OthersRenewNothing(s: Watch, c: Config, e: Event)
    requires Enabled(s, c, e) && !e.Loop?
    ensures var t := Next(s, c, e);
      && t.raceCount == s.raceCount && t.nextPromise == s.nextPromise
      && t.timeoutPromise == s.timeoutPromise && t.abortPromise == s.abortPromise
      && (s.timeoutFired ==> t.timeoutFired) && (s.aborted ==> t.aborted)
  {
    match e
    case TimerFires(id, r1, r2) => FiringRenewsNothing(s.(live := s.live - {id}), c, r1, r2);
    case Resume(r1) => ResumingRenewsNothing(s, r1);
    case _ =>
  }

  lemma FiringRenewsNothing(s: Watch, c: Config, r1: int, r2: int)
    ensures var t := OnTimerFire(s, c, r1, r2);
      && t.raceCount == s.raceCount && t.nextPromise == s.nextPromise
      && t.timeoutPromise == s.timeoutPromise && t.abortPromise == s.abortPromise
      && (s.timeoutFired ==> t.timeoutFired) && t.aborted == s.aborted
  {}

  lemma ResumingRenewsNothing(s: Watch, r1: int)
    requires s.phase.Settled?
    ensures var t := AfterRace(s, r1);
      && t.raceCount == s.raceCount && t.nextPromise == s.nextPromise
      && t.timeoutPromise == s.timeoutPromise && t.abortPromise == s.abortPromise
      && t.timeoutFired == s.timeoutFired && t.aborted == s.aborted
  {}

  lemma LimitGrows(s: Watch, t: Watch, p: nat, current: Option<nat>, was: bool, now: bool)
    requires t.raceCount == s.raceCount && t.nextPromise == s.nextPromise && (was ==> now)
    ensures RaceLimit(s, p, current, was) <= RaceLimit(t, p, current, now)
  {}

  /** One more round, seen from one promise. */
  lemma LimitCovers(s: Watch, t: Watch, p: nat, before: Option<nat>, after: Option<nat>, was: bool, now: bool, count: nat)
    requires t.raceCount == s.raceCount + 1 && s.nextPromise <= t.nextPromise
    requires before.Some? ==> before.value < s.nextPromise
    requires after.Some? ==> after.value < t.nextPromise
    requires after != before ==> after.Some? && s.nextPromise <= after.value && !now
    requires after == before ==> now == was
    requires t.raceCount % RACER_REMINT_INTERVAL == 0 && !now && before.Some? ==> after != before
    requires count <= RaceLimit(s, p, before, was)
    ensures count <= RaceLimit(t, p, after, now)
    ensures after == Some(p) && !now ==> count + 1 <= RaceLimit(t, p, after, now)
  {
    Remainder(s.raceCount);
  }

  lemma Remainder(k: nat)
    ensures (k + 1) % RACER_REMINT_INTERVAL == if k % RACER_REMINT_INTERVAL == RACER_REMINT_INTERVAL - 1 then 0
                                               else k % RACER_REMINT_INTERVAL + 1
  {}

  lemma RoundCounts(c: Config, states: seq<Watch>, events: seq<Event>, n: nat, p: nat)
    requires |states| == |events| + 1 && n < |events| && StepAt(c, states, events, n) && events[n].Loop?
    requires Inv(states[n], c) && Inv(states[n + 1], c)
    requires Counted(states, events, n, p)
    ensures Counted(states, events, n + 1, p)
  {
    var s, t, e := states[n], states[n + 1], events[n];
    RoundIsRenewing(s, c, e.r1, e.r2, e.r3);
    LimitCovers(s, t, p, s.timeoutPromise, t.timeoutPromise, s.timeoutFired, t.timeoutFired, TimeoutRaces(states, events, n, p));
    LimitCovers(s, t, p, s.abortPromise, t.abortPromise, s.aborted, t.aborted, AbortRaces(states, events, n, p));
  }

  lemma StepCounts(c: Config, states: seq<Watch>, events: seq<Event>, n: nat)
    requires |states| == |events| + 1 && n < |events| && StepAt(c, states, events, n)
    requires Inv(states[n], c) && Inv(states[n + 1], c) && RaceCounts(states, events, n)
    ensures RaceCounts(states, events, n + 1)
  {
    var s, t, next := states[n], states[n + 1], n + 1;
    forall p: nat
      ensures Counted(states, events, next, p)
    {
      assert Counted(states, events, n, p);
      if events[n].Loop? {
        RoundCounts(c, states, events, n, p);
      } else {
        OthersRenewNothing(s, c, events[n]);
        LimitGrows(s, t, p, s.timeoutPromise, s.timeoutFired, t.timeoutFired);
        LimitGrows(s, t, p, s.abortPromise, s.aborted, t.aborted);
      }
    }
  }

  lemma {:induction false} RunCounts(c: Config, states: seq<Watch>, events: seq<Event>, n: nat)
    requires IsRun(c, states, events) && n <= |events|
    ensures RaceCounts(states, events, n)
  {
    if n > 0 {
      RunCounts(c, states, events, n - 1);
      RunKeepsInv(c, states, events, n - 1);
      RunKeepsInv(c, states, events, n);
      assert StepAt(c, states, events, n - 1);
      StepCounts(c, states, events, n - 1);
    }
  }

  /** However long the stream, no promise is ever in more than 1024 races, the abort promise until the abort. */
  lemma PromisesAreReplaced(c: Config, states: seq<Watch>, events: seq<Event>, n: nat, p: nat)
    requires IsRun(c, states, events) && n <= |events|
    ensures TimeoutRaces(states, events, n, p) <= RACER_REMINT_INTERVAL
    ensures AbortRaces(states, events, n, p) <= RACER_REMINT_INTERVAL
  {
    RunCounts(c, states, events, n);
    assert Counted(states, events, n, p);
  }

  // ---------------------------------------------------------------- how many

  ghost predicate FewPromises(s: Watch, c: Config, fires: nat) {
    s.nextPromise + (if s.timeoutFired then 1 else 0)
      <= (if c.hasSignal then 1 else 0) + (if s.timeoutPromise.Some? then 1 else 0)
         + 2 * (s.raceCount / RACER_REMINT_INTERVAL) + fires
  }

  lemma Quotient(k: nat)
    ensures (k + 1) / RACER_REMINT_INTERVAL
         == k / RACER_REMINT_INTERVAL + if (k + 1) % RACER_REMINT_INTERVAL == 0 then 1 else 0
  {}

  lemma RoundKeepsFew(s: Watch, c: Config, e: Event, fires: nat)
    requires Enabled(s, c, e) && e.Loop? && PromiseInv(s, c) && FewPromises(s, c, fires)
    ensures FewPromises(Next(s, c, e), c, fires)
  {
    Quotient(s.raceCount);
    RemintKeepsFew(s, c, fires);
    RemintKeepsPromises(s, c);
    EnterKeepsFew(Remint(s).(now := e.r3), c, e.r1, e.r2, e.r3, fires);
  }

  lemma RemintKeepsPromises(s: Watch, c: Config)
    requires PromiseInv(s, c)
    ensures PromiseInv(Remint(s), c) && Remint(s).phase == s.phase
  {}

  lemma EnterKeepsFew(u: Watch, c: Config, r1: int, r2: int, r3: int, fires: nat)
    requires PromiseInv(u, c) && u.phase.Top? && FewPromises(u, c, fires)
    ensures FewPromises(EnterRace(u, c, r1, r2, r3), c, fires)
  {
    var deadline := u.Deadline(c);
    if deadline.Some? && deadline.value > r1 {
      ArmRenews(u, r2 + (deadline.value - r1), r3);
    }
  }

  lemma RemintKeepsFew(s: Watch, c: Config, fires: nat)
    requires PromiseInv(s, c) && FewPromises(s, c, fires)
    requires (s.raceCount + 1) / RACER_REMINT_INTERVAL
          == s.raceCount / RACER_REMINT_INTERVAL + if (s.raceCount + 1) % RACER_REMINT_INTERVAL == 0 then 1 else 0
    ensures FewPromises(Remint(s), c, fires)
  {}

  /** And few promises are made: two at the start, two every 1024 rounds, and one for each timer that fires. */
  lemma {:induction false} PromisesAreFew(c: Config, states: seq<Watch>, events: seq<Event>, n: nat)
    requires IsRun(c, states, events) && n <= |events|
    ensures FewPromises(states[n], c, Fires(events, n))
  {
    if n > 0 {
      PromisesAreFew(c, states, events, n - 1);
      RunKeepsInv(c, states, events, n - 1);
      assert StepAt(c, states, events, n - 1);
      var s, e := states[n - 1], events[n - 1];
      if e.Loop? {
        RoundKeepsFew(s, c, e, Fires(events, n - 1));
      } else {
        OthersRenewNothing(s, c, e);
      }
    }
  }

  /**
   With stretches that take no time: the timer held is never due behind the deadline once it
   has been set or checked for it, and each timer but two has fired.
   */
  ghost predicate FewTimers(s: Watch, c: Config, fires: nat) {
    var used := fires + if s.timer.Some? then 1 else 0;
    && s.lastProgressAt <= s.now
    && (if s.awaitingFirstItem then s.nextTimer <= used && MarkInTime(s, c)
        else s.nextTimer <= used || (s.nextTimer <= used + 1 && MarkInTime(s, c)))
  }

  ghost predicate MarkInTime(s: Watch, c: Config) {
    s.timer.Some? && s.timerFireAtMs.Some? ==> s.Deadline(c).Some? && s.timerFireAtMs.value <= s.Deadline(c).value
  }

  ghost predicate TimersOk(s: Watch, c: Config, fires: nat) {
    s.nextTimer <= fires + 2 && (s.phase.Closed? || FewTimers(s, c, fires))
  }

  lemma RoundKeepsTimers(s: Watch, c: Config, r: int, fires: nat)
    requires c.skew == 0 && s.phase.Top? && s.now <= r && TimerInv(s, c) && FewTimers(s, c, fires)
    ensures TimersOk(StartRace(s, c, r, r, r), c, fires)
  {
    RemintKeeps(s, c);
  }

  lemma FireKeepsTimers(s: Watch, c: Config, e: Event, fires: nat)
    requires c.skew == 0 && e.TimerFires? && Enabled(s, c, e) && TimerInv(s, c) && FewTimers(s, c, fires)
    ensures FewTimers(Next(s, c, e), c, fires + 1)
  {
    assert e.id in s.live.Keys;
  }

  lemma OtherKeepsTimers(s: Watch, c: Config, e: Event, fires: nat)
    requires Enabled(s, c, e) && !e.Loop? && !e.TimerFires? && TimersOk(s, c, fires) && !s.phase.Closed?
    ensures TimersOk(Next(s, c, e), c, fires)
  {}

  lemma ClosedSetsNoTimer(s: Watch, c: Config, e: Event)
    requires ExitInv(s) && s.phase.Closed? && Enabled(s, c, e)
    ensures Next(s, c, e).phase.Closed? && Next(s, c, e).nextTimer == s.nextTimer
  {}

  lemma StepKeepsTimers(s: Watch, c: Config, e: Event, fires: nat)
    requires TimerInv(s, c) && ExitInv(s) && Enabled(s, c, e) && c.skew == 0 && TimersOk(s, c, fires)
    ensures TimersOk(Next(s, c, e), c, fires + if e.TimerFires? then 1 else 0)
  {
    if s.phase.Closed? {
      ClosedSetsNoTimer(s, c, e);
    } else {
      match e
      case Loop(r1, r2, r3) =>
        assert r1 == r2 == r3;
        RoundKeepsTimers(s, c, r1, fires);
      case TimerFires(_, _, _) => FireKeepsTimers(s, c, e, fires);
      case _ => OtherKeepsTimers(s, c, e, fires);
    }
  }

  lemma {:induction false} TimerCount(c: Config, states: seq<Watch>, events: seq<Event>, n: nat)
    requires IsRun(c, states, events) && n <= |events| && c.skew == 0
    ensures TimersOk(states[n], c, Fires(events, n))
  {
    if n > 0 {
      TimerCount(c, states, events, n - 1);
      RunKeepsInv(c, states, events, n - 1);
      assert StepAt(c, states, events, n - 1);
      StepKeepsTimers(states[n - 1], c, events[n - 1], Fires(events, n - 1));
    }
  }

  /** When a stretch takes no time, one timer serves any number of items: all that are ever set, but two, have fired. */
  lemma TimersAreFew(c: Config, states: seq<Watch>, events: seq<Event>, n: nat)
    requires IsRun(c, states, events) && n <= |events| && c.skew == 0
    ensures states[n].nextTimer <= Fires(events, n) + 2
  {
    TimerCount(c, states, events, n);
  }
}
