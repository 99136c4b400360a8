/** What the driver promises about whole runs of one chat. */
module SessionTheorems {
  import opened Wrappers
  import opened LifecycleLock
  import opened SessionProtocol
  import opened SessionSafety

  // ---------------------------------------------------------------- sessions and resets

  /**
   A turn that holds a session holds the live map entry; no reset has taken it to be
   closed, and none is between taking a session and the return of `deleteSession`.
   */
  lemma ResetSparesExecutingTurn(chats: seq<Chat>, events: seq<Event>, n: nat, j: nat)
    requires IsRunFromStart(chats, events) && n <= |events|
    requires j < |chats[n].jobs| && chats[n].jobs[j].phase.Executing()
    ensures chats[n].sessions == Some(chats[n].jobs[j].phase.session)
    ensures chats[n].jobs[j].phase.session !in chats[n].closed
    ensures forall k | 0 <= k < |chats[n].resets| :: !chats[n].resets[k].Destroying()
  {
    RunKeepsInv(chats, events, n);
  }

  /** At most one creation is in flight. */
  lemma OneCreationInFlight(chats: seq<Chat>, events: seq<Event>, n: nat, c: nat, d: nat)
    requires IsRunFromStart(chats, events) && n <= |events|
    requires c < |chats[n].creations| && d < |chats[n].creations|
    requires !chats[n].creations[c].stage.Finished() && !chats[n].creations[d].stage.Finished()
    ensures c == d
  {
    RunKeepsInv(chats, events, n);
  }

  /**
   A live map entry is never overwritten: it stays until a reset, with no accepted
   job left, takes it out, and a creation that fills the map finds it empty.
   */
  lemma SessionStep(s: Chat, e: Event)
    requires Inv(s) && Enabled(s, e)
    ensures e.SessionBuilt? ==> s.sessions.None?
    ensures s.sessions.Some? ==>
              Next(s, e).sessions == s.sessions || (Next(s, e).sessions.None? && e.ResetEnters? && Unsettled(s.jobs) == 0)
  {
    if e.ResetEnters? {
      EntryIsTaken(s, e.reset);
    } else if s.sessions.Some? && !e.SessionBuilt? && !e.ResetCreationAwaited? {
      EntryStays(s, e);
    }
  }

  lemma EntryIsTaken(s: Chat, k: nat)
    requires QueueOk(s) && Enabled(s, ResetEnters(k))
    ensures Next(s, ResetEnters(k)).sessions == s.sessions
         || (Next(s, ResetEnters(k)).sessions.None? && Unsettled(s.jobs) == 0)
  {
    UnsettledZero(s.jobs);
  }

  lemma EntryStays(s: Chat, e: Event)
    requires Enabled(s, e) && !e.SessionBuilt? && !e.ResetEnters? && !e.ResetCreationAwaited?
    ensures Next(s, e).sessions == s.sessions
  {}

  lemma MapEntryNeverOverwritten(chats: seq<Chat>, events: seq<Event>, n: nat)
    requires IsRunFromStart(chats, events) && n < |events|
    ensures events[n].SessionBuilt? ==> chats[n].sessions.None?
    ensures chats[n].sessions.Some? ==>
              || chats[n + 1].sessions == chats[n].sessions
              || (chats[n + 1].sessions.None? && events[n].ResetEnters? && Unsettled(chats[n].jobs) == 0)
  {
    RunKeepsInv(chats, events, n);
    assert StepAt(chats, events, n);
    SessionStep(chats[n], events[n]);
  }

  lemma SessionsGrow(s: Chat, e: Event)
    requires Enabled(s, e)
    ensures s.nextSession <= Next(s, e).nextSession
    ensures Next(s, e).sessions.Some? ==>
              Next(s, e).sessions == s.sessions || Next(s, e).sessions == Some(s.nextSession)
    ensures Next(s, e).sessions.None? || Next(s, e).sessions == s.sessions || e.SessionBuilt?
    ensures !e.SessionBuilt? ==> Next(s, e).nextSession == s.nextSession
  {}

  /** From a moment without a session on, every session in the map is a newer object. */
  lemma {:induction false} LaterSessionsAreNew(chats: seq<Chat>, events: seq<Event>, a: nat, b: nat)
    requires IsRun(chats, events) && a <= b <= |events| && chats[a].sessions.None?
    ensures chats[a].nextSession <= chats[b].nextSession
    ensures chats[b].sessions.Some? ==> chats[a].nextSession <= chats[b].sessions.value
  {
    if a < b {
      LaterSessionsAreNew(chats, events, a, b - 1);
      assert StepAt(chats, events, b - 1);
      SessionsGrow(chats[b - 1], events[b - 1]);
    }
  }

  /** A reset that is under way either goes on or ends and clears the flag. */
  lemma ResetStep(s: Chat, e: Event)
    requires Enabled(s, e) && TouchesResets(e) && !e.ResetBegins?
    ensures e.reset < |s.resets| && !s.resets[e.reset].Ended?
    ensures var after := Next(s, e);
      && e.reset < |after.resets| && after.resets == s.resets[e.reset := after.resets[e.reset]]
      && after.resetting == (s.resetting && !after.resets[e.reset].Ended?)
  {}

  /** While a reset destroys, no session is built and no other reset gets the lock. */
  lemma DestroyerIsAlone(s: Chat, e: Event, k: nat)
    requires Inv(s) && Enabled(s, e) && k < |s.resets| && s.resets[k].Destroying()
    ensures s.sessions.None? && !e.SessionBuilt? && !e.ResetEnters?
  {
    if e.SessionBuilt? {
      CreatorIsAlone(s, e.resolver);
    } else if e.ResetEnters? {
      EnteringIsAlone(s, s.resets[e.reset].ticket);
    }
  }

  /** One step of a destroying reset: it keeps destroying until its `deleteSession` returns. */
  lemma DestroyingStep(s: Chat, e: Event, k: nat)
    requires Enabled(s, e) && !e.SessionBuilt? && !e.ResetEnters?
    requires k < |s.resets| && s.resets[k].Destroying() && s.sessions.None?
    ensures k < |Next(s, e).resets|
    ensures e == ResetDeleted(k) || Next(s, e).resets[k].Destroying()
    ensures Next(s, e).sessions.None? && Next(s, e).nextSession == s.nextSession
  {
    SessionsGrow(s, e);
    if !TouchesResets(e) {
      OtherStepsLeaveResets(s, e);
    } else if !e.ResetBegins? && e.reset == k {
      DestroyerGoesOn(s, e);
    } else if !e.ResetBegins? {
      ResetStep(s, e);
    }
  }

  lemma DestroyerGoesOn(s: Chat, e: Event)
    requires Enabled(s, e) && TouchesResets(e) && !e.ResetBegins? && !e.ResetEnters?
    requires e.reset < |s.resets| && s.resets[e.reset].Destroying()
    ensures e.reset < |Next(s, e).resets|
    ensures e == ResetDeleted(e.reset) || Next(s, e).resets[e.reset].Destroying()
  {}

  lemma DestroyingStepAt(chats: seq<Chat>, events: seq<Event>, n: nat, k: nat)
    requires IsRunFromStart(chats, events) && n < |events|
    requires k < |chats[n].resets| && chats[n].resets[k].Destroying()
    ensures k < |chats[n + 1].resets|
    ensures events[n] == ResetDeleted(k) || chats[n + 1].resets[k].Destroying()
    ensures chats[n + 1].sessions.None? && chats[n + 1].nextSession == chats[n].nextSession
  {
    RunKeepsInv(chats, events, n);
    assert StepAt(chats, events, n);
    DestroyerIsAlone(chats[n], events[n], k);
    DestroyingStep(chats[n], events[n], k);
  }

  lemma {:induction false} DestroyingUntilDeleted(
    chats: seq<Chat>, events: seq<Event>, a: nat, b: nat, k: nat) returns (c: nat)
    requires IsRunFromStart(chats, events) && a <= b <= |events|
    requires k < |chats[a].resets| && chats[a].resets[k].Destroying()
    requires forall i | 0 <= i < |chats[b].resets| :: !chats[b].resets[i].Destroying()
    ensures a <= c < b && events[c] == ResetDeleted(k)
    ensures chats[c + 1].sessions.None? && chats[c + 1].nextSession == chats[a].nextSession
    decreases b - a
  {
    assert a < b;
    DestroyingStepAt(chats, events, a, k);
    if events[a] == ResetDeleted(k) {
      c := a;
    } else {
      c := DestroyingUntilDeleted(chats, events, a + 1, b, k);
    }
  }

  /**
   A turn that gets its session after a reset took the old one away gets an object that
   did not exist yet when that reset's `deleteSession` returned.
   */
  lemma SessionAfterResetIsNew(chats: seq<Chat>, events: seq<Event>, a: nat, b: nat, k: nat, j: nat) returns (c: nat)
    requires IsRunFromStart(chats, events) && a <= b <= |events|
    requires k < |chats[a].resets| && chats[a].resets[k].Destroying()
    requires j < |chats[b].jobs| && chats[b].jobs[j].phase.Executing()
    ensures a <= c < b && events[c] == ResetDeleted(k)
    ensures chats[c + 1].nextSession <= chats[b].jobs[j].phase.session
  {
    ResetSparesExecutingTurn(chats, events, b, j);
    c := DestroyingUntilDeleted(chats, events, a, b, k);
    LaterSessionsAreNew(chats, events, c + 1, b);
  }

  /** Two calls of `withLifecycleLock` are never inside together, whoever made them. */
  lemma LockExcludes(chats: seq<Chat>, events: seq<Event>, n: nat, r: nat, k: nat)
    requires IsRunFromStart(chats, events) && n <= |events|
    requires r < |chats[n].resolvers| && (chats[n].resolvers[r].phase.Creating? || chats[n].resolvers[r].phase.Leaving?)
    requires k < |chats[n].resets|
    ensures !chats[n].resets[k].Destroying() && !chats[n].resets[k].LeavingLock? && !chats[n].resets[k].AwaitingInFlight?
    ensures forall q | 0 <= q < |chats[n].resolvers| && q != r ::
              !chats[n].resolvers[q].phase.Creating? && !chats[n].resolvers[q].phase.Leaving?
  {
    RunKeepsInv(chats, events, n);
    var s := chats[n];
    assert ResolverTicket(s.lock, r, s.resolvers[r].phase);
    assert ResetTicket(s.lock, k, s.resets[k]);
    if s.resets[k].Destroying() || s.resets[k].LeavingLock? {
      MutualExclusion(s.lock, s.resolvers[r].phase.ticket, s.resets[k].ticket);
    }
    forall q | 0 <= q < |s.resolvers| && q != r
      ensures !s.resolvers[q].phase.Creating? && !s.resolvers[q].phase.Leaving?
    {
      assert ResolverTicket(s.lock, q, s.resolvers[q].phase);
      if s.resolvers[q].phase.Creating? || s.resolvers[q].phase.Leaving? {
        MutualExclusion(s.lock, s.resolvers[r].phase.ticket, s.resolvers[q].phase.ticket);
      }
    }
  }

  // ---------------------------------------------------------------- the queue

  /** The counter of the live queue object is the number of accepted jobs that have not settled, at most three. */
  lemma PendingCountsUnsettled(chats: seq<Chat>, events: seq<Event>, n: nat)
    requires IsRunFromStart(chats, events) && n <= |events|
    ensures LivePending(chats[n]) == Unsettled(chats[n].jobs) <= MAX_QUEUE_PER_SESSION
    ensures forall q | 0 <= q < |chats[n].queues| && chats[n].current != Some(q) :: chats[n].queues[q].pending == 0
    ensures forall j | 0 <= j < |chats[n].jobs| && !chats[n].jobs[j].phase.Settled? ::
              chats[n].current == Some(chats[n].jobs[j].queue)
  {
    RunKeepsInv(chats, events, n);
    UnsettledZero(chats[n].jobs);
  }

  /** A submission is accepted exactly when fewer than three jobs are unsettled (and, for a plain message, no reset flag is up). */
  lemma AcceptedWhenNotFull(chats: seq<Chat>, events: seq<Event>, n: nat)
    requires IsRunFromStart(chats, events) && n < |events|
    requires events[n].MessageArrives? || events[n].CommandExpanded?
    ensures var accepted := |chats[n + 1].jobs| > |chats[n].jobs|;
      && (accepted <==> Unsettled(chats[n].jobs) < MAX_QUEUE_PER_SESSION
                        && (events[n].MessageArrives? ==> !chats[n].resetting))
      && (accepted ==> chats[n + 1].jobs[..|chats[n].jobs|] == chats[n].jobs
                       && chats[n + 1].jobs[|chats[n].jobs|].phase.Queued?)
  {
    PendingCountsUnsettled(chats, events, n);
    assert StepAt(chats, events, n);
  }

  /** What a step may do to a job that already exists. */
  lemma JobStep(s: Chat, e: Event, j: nat)
    requires Enabled(s, e) && j < |s.jobs|
    ensures var after := Next(s, e);
      && j < |after.jobs| && after.jobs[j].epoch == s.jobs[j].epoch
      && (s.jobs[j].phase.Queued? && e != BodyStarts(j) ==> after.jobs[j].phase.Queued?)
      && (!s.jobs[j].phase.Queued? ==> !after.jobs[j].phase.Queued?)
      && (s.jobs[j].phase.Done() ==> after.jobs[j].phase.Done() && after.jobs[j].phase.outcome == s.jobs[j].phase.outcome)
  {
    if !TouchesJobs(e) {
      OtherStepsLeaveJobs(s, e);
    }
  }

  lemma {:induction false} StartedStaysStarted(chats: seq<Chat>, events: seq<Event>, a: nat, b: nat, j: nat)
    requires IsRun(chats, events) && a <= b <= |events|
    requires j < |chats[a].jobs| && !chats[a].jobs[j].phase.Queued?
    ensures j < |chats[b].jobs| && !chats[b].jobs[j].phase.Queued?
  {
    if a < b {
      StartedStaysStarted(chats, events, a, b - 1, j);
      assert StepAt(chats, events, b - 1);
      JobStep(chats[b - 1], events[b - 1], j);
    }
  }

  lemma StartsInOrder(jobs: seq<Job>, i: nat, j: nat)
    requires ChainInv(jobs) && i < |jobs| && j < |jobs|
    requires !jobs[i].phase.Queued? && jobs[j].phase.Queued? && ChainResolved(jobs, jobs[j].prev)
    ensures i < j && DoneBelow(jobs, j)
    ensures forall h | j < h < |jobs| :: jobs[h].phase.Queued?
  {
    AdvanceKeepsChain(jobs, j, BodyDone(Failed));
    assert DoneBelow(jobs, i);
    forall h | j < h < |jobs| ensures jobs[h].phase.Queued? {
      assert !jobs[h].phase.Queued? ==> DoneBelow(jobs, h);
    }
  }

  /**
   Bodies start in submission order, each once, and the next one starts only when every
   earlier one has ended, across deleted and recreated queue objects.
   */
  lemma BodiesRunInOrder(chats: seq<Chat>, events: seq<Event>, a: nat, b: nat, i: nat, j: nat)
    requires IsRunFromStart(chats, events) && a < b < |events|
    requires events[a] == BodyStarts(i) && events[b] == BodyStarts(j)
    ensures i < j < |chats[b].jobs|
    ensures forall h | 0 <= h < j :: chats[b].jobs[h].phase.Done()
    ensures forall h | j < h < |chats[b].jobs| :: chats[b].jobs[h].phase.Queued?
  {
    var n := a + 1;
    BodyHasStarted(chats, events, a, i, n);
    StartedStaysStarted(chats, events, n, b, i);
    RunKeepsInv(chats, events, b);
    assert StepAt(chats, events, b);
    NextToStart(chats[b], i, j);
  }

  lemma BodyHasStarted(chats: seq<Chat>, events: seq<Event>, a: nat, i: nat, n: nat)
    requires IsRun(chats, events) && a < |events| && events[a] == BodyStarts(i) && n == a + 1
    ensures i < |chats[n].jobs| && !chats[n].jobs[i].phase.Queued?
  {
    assert StepAt(chats, events, a);
  }

  /** The one body that may start, seen from a body that has. */
  lemma NextToStart(s: Chat, i: nat, j: nat)
    requires Inv(s) && Enabled(s, BodyStarts(j)) && i < |s.jobs| && !s.jobs[i].phase.Queued?
    ensures i < j < |s.jobs|
    ensures forall h | 0 <= h < j :: s.jobs[h].phase.Done()
    ensures forall h | j < h < |s.jobs| :: s.jobs[h].phase.Queued?
  {
    StartsInOrder(s.jobs, i, j);
  }

  /** Never two bodies at once. */
  lemma BodiesNeverOverlap(chats: seq<Chat>, events: seq<Event>, n: nat, i: nat, j: nat)
    requires IsRunFromStart(chats, events) && n <= |events| && i < |chats[n].jobs| && j < |chats[n].jobs|
    requires chats[n].jobs[i].phase.InBody() && chats[n].jobs[j].phase.InBody()
    ensures i == j
  {
    RunKeepsInv(chats, events, n);
    OneBody(chats[n].jobs, i, j);
  }

  // ---------------------------------------------------------------- `/stop`

  lemma StopStep(s: Chat, e: Event)
    requires Enabled(s, e)
    ensures s.stopEpoch <= Next(s, e).stopEpoch
    ensures !e.Stop? ==> Next(s, e).stopEpoch == s.stopEpoch
    ensures e.Stop? && LivePending(s) > 0 ==> s.stopEpoch < Next(s, e).stopEpoch
  {}

  /** While job j waits, the epoch stays the one it captured exactly as long as no `/stop` comes. */
  lemma {:induction false} EpochWhileWaiting(chats: seq<Chat>, events: seq<Event>, a: nat, b: nat, j: nat)
    requires IsRunFromStart(chats, events) && a <= b <= |events|
    requires j < |chats[a].jobs| && chats[a].jobs[j].phase.Queued? && chats[a].jobs[j].epoch == chats[a].stopEpoch
    requires forall c | a <= c < b :: events[c] != BodyStarts(j)
    ensures j < |chats[b].jobs| && chats[b].jobs[j].phase.Queued? && chats[b].jobs[j].epoch == chats[a].stopEpoch
    ensures chats[a].stopEpoch <= chats[b].stopEpoch
    ensures chats[b].stopEpoch == chats[a].stopEpoch <==> forall c | a <= c < b :: !events[c].Stop?
  {
    if a < b {
      EpochWhileWaiting(chats, events, a, b - 1, j);
      assert StepAt(chats, events, b - 1);
      JobStep(chats[b - 1], events[b - 1], j);
      StopStep(chats[b - 1], events[b - 1]);
      PendingCountsUnsettled(chats, events, b - 1);
      UnsettledZero(chats[b - 1].jobs);
    }
  }

  /**
   A job is dropped when its turn comes exactly when some `/stop` came between its
   submission (event a) and the start of its body (event b); otherwise its turn runs.
   */
  lemma DroppedIffStopped(chats: seq<Chat>, events: seq<Event>, a: nat, b: nat, j: nat)
    requires IsRunFromStart(chats, events) && a < b < |events|
    requires |chats[a].jobs| == j < |chats[a + 1].jobs|
    requires events[b] == BodyStarts(j) && forall c | a < c < b :: events[c] != BodyStarts(j)
    ensures j < |chats[b + 1].jobs|
    ensures chats[b + 1].jobs[j].phase == BodyDone(DroppedSilently) <==> exists c :: a < c < b && events[c].Stop?
    ensures chats[b + 1].jobs[j].phase.Resolving? <==> forall c | a < c < b :: !events[c].Stop?
  {
    var next := a + 1;
    assert StepAt(chats, events, a) && StepAt(chats, events, b);
    AcceptedStep(chats[a], events[a], j);
    EpochWhileWaiting(chats, events, next, b, j);
    BodyStartStep(chats[b], j);
    assert (forall c | next <= c < b :: !events[c].Stop?) <==> (forall c | a < c < b :: !events[c].Stop?);
  }

  /** A job is accepted as a waiting one, with the epoch of the moment. */
  lemma AcceptedStep(s: Chat, e: Event, j: nat)
    requires Enabled(s, e) && |s.jobs| == j < |Next(s, e).jobs|
    ensures Next(s, e).jobs[j].phase.Queued? && Next(s, e).jobs[j].epoch == Next(s, e).stopEpoch
  {
    if !TouchesJobs(e) {
      OtherStepsLeaveJobs(s, e);
    }
  }

  lemma BodyStartStep(s: Chat, j: nat)
    requires Enabled(s, BodyStarts(j))
    ensures var after := Next(s, BodyStarts(j));
      && j < |after.jobs|
      && (after.jobs[j].phase == BodyDone(DroppedSilently) <==> s.stopEpoch != s.jobs[j].epoch)
      && (after.jobs[j].phase.Resolving? <==> s.stopEpoch == s.jobs[j].epoch)
  {}

  /** The running turn was told to stop, or has already ended that way. */
  predicate StopSeen(p: Phase) {
    match p
    case Racing(_, stop) => stop
    case Cancelling(_, silent) => silent
    case BodyDone(o) => o == StoppedSilently
    case Settled(o) => o == StoppedSilently
    case _ => false
  }

  lemma StopSeenStep(s: Chat, e: Event, j: nat)
    requires Enabled(s, e) && j < |s.jobs| && StopSeen(s.jobs[j].phase)
    ensures j < |Next(s, e).jobs| && StopSeen(Next(s, e).jobs[j].phase)
  {
    if !TouchesJobs(e) {
      OtherStepsLeaveJobs(s, e);
    }
  }

  /** The turn `/stop` finds registered and racing never replies, whatever its session does afterwards. */
  lemma {:induction false} StoppedTurnIsSilent(chats: seq<Chat>, events: seq<Event>, a: nat, b: nat, j: nat)
    requires IsRunFromStart(chats, events) && a < b <= |events|
    requires events[a].Stop? && j < |chats[a].jobs| && chats[a].jobs[j].phase.Racing?
    ensures j < |chats[b].jobs| && StopSeen(chats[b].jobs[j].phase)
  {
    if a + 1 < b {
      var before := b - 1;
      StoppedTurnIsSilent(chats, events, a, before, j);
      assert StepAt(chats, events, before);
      StopSeenStep(chats[before], events[before], j);
    } else {
      RunKeepsInv(chats, events, a);
      assert StepAt(chats, events, a);
      RacingTurnIsStopped(chats[a], events[a], j);
    }
  }

  lemma RacingTurnIsStopped(s: Chat, e: Event, j: nat)
    requires Inv(s) && Enabled(s, e) && e.Stop? && j < |s.jobs| && s.jobs[j].phase.Racing?
    ensures j < |Next(s, e).jobs| && StopSeen(Next(s, e).jobs[j].phase)
  {
    assert Next(s, e) == StopChat(s, e.cronTurn);
  }

  // ---------------------------------------------------------------- the `resetting` flag

  /** Resets start only while the flag is down, as `submit` makes sure for `/new` and the first reset of `/cancel`. */
  ghost predicate ResetsWaitForFlag(chats: seq<Chat>, events: seq<Event>)
    requires IsRun(chats, events)
  {
    forall n | 0 <= n < |events| && events[n].ResetBegins? :: !chats[n].resetting
  }

  ghost predicate FlagExact(s: Chat) {
    && (s.resetting ==> s.resets != [] && !s.resets[|s.resets| - 1].Ended?)
    && (forall k | 0 <= k < |s.resets| :: s.resets[k].Ended? || (s.resetting && k + 1 == |s.resets|))
  }

  lemma FlagStep(s: Chat, e: Event)
    requires FlagExact(s) && Enabled(s, e) && (e.ResetBegins? ==> !s.resetting)
    ensures FlagExact(Next(s, e))
  {
    if !TouchesResets(e) {
      OtherStepsLeaveResets(s, e);
    } else if !e.ResetBegins? {
      ResetStep(s, e);
    }
  }

  /**
   Under that discipline at most one reset is active and the flag is up exactly while
   it is, so every plain message that lands during a reset is refused.
   */
  lemma {:induction false} FlagIsExact(chats: seq<Chat>, events: seq<Event>, n: nat)
    requires IsRunFromStart(chats, events) && n <= |events| && ResetsWaitForFlag(chats, events)
    ensures FlagExact(chats[n])
    ensures chats[n].resetting <==> exists k :: 0 <= k < |chats[n].resets| && !chats[n].resets[k].Ended?
    ensures n < |events| && events[n].MessageArrives? && chats[n].resetting ==> chats[n + 1] == chats[n]
  {
    if n < |events| {
      assert StepAt(chats, events, n);
    }
    if n > 0 {
      FlagIsExact(chats, events, n - 1);
      assert StepAt(chats, events, n - 1);
      FlagStep(chats[n - 1], events[n - 1]);
    }
  }

  ghost predicate UnderWay(s: Chat, k: nat) {
    k < |s.resets| && !s.resets[k].Ended?
  }

  ghost predicate SomeUnderWay(s: Chat) {
    exists k: nat :: UnderWay(s, k)
  }

  /** Whenever a reset is under way the flag is up. */
  ghost predicate Covering(chats: seq<Chat>) {
    forall n | 0 <= n < |chats| && SomeUnderWay(chats[n]) :: chats[n].resetting
  }

  lemma FlagNeedsResetStep(s: Chat, e: Event)
    requires (s.resetting ==> SomeUnderWay(s)) && Enabled(s, e)
    ensures Next(s, e).resetting ==> SomeUnderWay(Next(s, e))
  {
    var after := Next(s, e);
    if !TouchesResets(e) {
      OtherStepsLeaveResets(s, e);
      if k: nat :| UnderWay(s, k) {
        assert UnderWay(after, k);
      }
    } else if e.ResetBegins? {
      assert UnderWay(after, |s.resets|);
    } else {
      ResetStep(s, e);
      assert after.resetting ==> UnderWay(after, e.reset);
    }
  }

  /** The flag is never up without a reset: whichever ends takes it down. */
  lemma {:induction false} FlagNeedsReset(chats: seq<Chat>, events: seq<Event>, n: nat)
    requires IsRunFromStart(chats, events) && n <= |events|
    ensures chats[n].resetting ==> SomeUnderWay(chats[n])
  {
    if n > 0 {
      FlagNeedsReset(chats, events, n - 1);
      assert StepAt(chats, events, n - 1);
      FlagNeedsResetStep(chats[n - 1], events[n - 1]);
    }
  }

  /** A step that ends one of two resets leaves the other without a flag. */
  lemma TwoUnderWayStep(s: Chat, e: Event, i: nat, j: nat)
    requires Enabled(s, e) && i != j && UnderWay(s, i) && UnderWay(s, j)
    ensures var after := Next(s, e);
      (UnderWay(after, i) && UnderWay(after, j)) || (SomeUnderWay(after) && !after.resetting)
  {
    var after := Next(s, e);
    if !TouchesResets(e) {
      OtherStepsLeaveResets(s, e);
    } else if !e.ResetBegins? {
      ResetStep(s, e);
      if after.resets[e.reset].Ended? {
        assert UnderWay(after, if e.reset == i then j else i);
      }
    }
  }

  /** Two resets under way that both end leave a moment that is not covered. */
  lemma {:induction false} TwoUnderWayUncovered(chats: seq<Chat>, events: seq<Event>, n: nat, i: nat, j: nat)
    requires IsRun(chats, events) && n <= |events| && i != j && UnderWay(chats[n], i) && UnderWay(chats[n], j)
    requires !SomeUnderWay(chats[|events|])
    ensures !Covering(chats)
    decreases |events| - n
  {
    assert StepAt(chats, events, n);
    var next := n + 1;
    TwoUnderWayStep(chats[n], events[n], i, j);
    if UnderWay(chats[next], i) && UnderWay(chats[next], j) {
      TwoUnderWayUncovered(chats, events, next, i, j);
    }
  }

  lemma BeginningKeepsOthers(s: Chat, k: nat)
    requires UnderWay(s, k)
    ensures UnderWay(Next(s, ResetBegins), k) && UnderWay(Next(s, ResetBegins), |s.resets|) && k != |s.resets|
  {}

  /**
   When no reset is under way any more, looking back: the flag covered every reset if and only
   if none began while the flag was up. While it is up, plain messages are refused.
   */
  lemma FlagCoversReset(chats: seq<Chat>, events: seq<Event>)
    requires IsRunFromStart(chats, events) && !SomeUnderWay(chats[|events|])
    ensures Covering(chats) <==> ResetsWaitForFlag(chats, events)
    ensures forall n | 0 <= n < |events| && events[n].MessageArrives? && chats[n].resetting :: chats[n + 1] == chats[n]
  {
    forall n | 0 <= n < |events| && events[n].MessageArrives? && chats[n].resetting ensures chats[n + 1] == chats[n] {
      assert StepAt(chats, events, n);
    }
    if ResetsWaitForFlag(chats, events) {
      forall n | 0 <= n < |chats| && SomeUnderWay(chats[n]) ensures chats[n].resetting {
        FlagIsExact(chats, events, n);
      }
    } else {
      var n :| 0 <= n < |events| && events[n].ResetBegins? && chats[n].resetting;
      FlagNeedsReset(chats, events, n);
      var k: nat :| UnderWay(chats[n], k);
      BeginningKeepsOthers(chats[n], k);
      assert StepAt(chats, events, n);
      TwoUnderWayUncovered(chats, events, n + 1, k, |chats[n].resets|);
    }
  }

  /** Two overlapping resets of an idle chat: the first at `first`, the second waiting for the lock. */
  function TwoResets(stage: Stage, first: Reset, flag: bool): Chat {
    INITIAL.(lock := Lock([Ticket(None, stage, ByReset(0)), Ticket(Some(0), Waiting, ByReset(1))], Some(1)),
             resets := [first, AwaitingResetLock(1)],
             resetting := flag)
  }

  lemma FirstOfTwoResetsRuns()
    ensures Enabled(TwoResets(Waiting, AwaitingResetLock(0), true), ResetEnters(0))
    ensures Next(TwoResets(Waiting, AwaitingResetLock(0), true), ResetEnters(0)) == TwoResets(Holding, Deleting(0), true)
    ensures Enabled(TwoResets(Holding, Deleting(0), true), ResetDeleted(0))
    ensures Next(TwoResets(Holding, Deleting(0), true), ResetDeleted(0)) == TwoResets(Holding, LeavingLock(0), true)
    ensures Enabled(TwoResets(Holding, LeavingLock(0), true), ResetLeaves(0))
    ensures Next(TwoResets(Holding, LeavingLock(0), true), ResetLeaves(0)) == TwoResets(Released, Ending, true)
    ensures Enabled(TwoResets(Released, Ending, true), ResetEnds(0))
    ensures Next(TwoResets(Released, Ending, true), ResetEnds(0)) == TwoResets(Released, Ended, false)
  {}

  /** A run goes on with any enabled event. */
  lemma RunGoesOn(chats: seq<Chat>, events: seq<Event>, s: Chat, e: Event, after: Chat)
    returns (longer: seq<Chat>, more: seq<Event>)
    requires IsRunFromStart(chats, events) && chats[|events|] == s && Enabled(s, e) && Next(s, e) == after
    ensures IsRunFromStart(longer, more) && longer[|more|] == after
  {
    longer, more := chats + [after], events + [e];
    forall i: nat | i < |more| ensures StepAt(longer, more, i) {
      if i < |events| {
        assert StepAt(chats, events, i);
      }
    }
  }

  lemma FlaglessAccepts()
    ensures |Next(TwoResets(Released, Ended, false), MessageArrives).jobs| == 1
  {}

  lemma TwoResetsBegin()
    ensures Next(Next(INITIAL, ResetBegins), ResetBegins) == TwoResets(Waiting, AwaitingResetLock(0), true)
  {}

  /** Without it (the second reset of `/cancel`) the first reset to end takes the flag down for both. */
  lemma FlagLapsesWithTwoResets() returns (chats: seq<Chat>, events: seq<Event>)
    ensures IsRunFromStart(chats, events)
    ensures var last := chats[|events|];
      && !last.resetting && |last.resets| == 2 && last.resets[1].AwaitingResetLock?
      && |Next(last, MessageArrives).jobs| == 1
  {
    FirstOfTwoResetsRuns();
    TwoResetsBegin();
    var begun := Next(INITIAL, ResetBegins);
    var both, inside := TwoResets(Waiting, AwaitingResetLock(0), true), TwoResets(Holding, Deleting(0), true);
    var leaving, ending := TwoResets(Holding, LeavingLock(0), true), TwoResets(Released, Ending, true);
    chats, events := [INITIAL], [];
    chats, events := RunGoesOn(chats, events, INITIAL, ResetBegins, begun);
    chats, events := RunGoesOn(chats, events, begun, ResetBegins, both);
    chats, events := RunGoesOn(chats, events, both, ResetEnters(0), inside);
    chats, events := RunGoesOn(chats, events, inside, ResetDeleted(0), leaving);
    chats, events := RunGoesOn(chats, events, leaving, ResetLeaves(0), ending);
    chats, events := RunGoesOn(chats, events, ending, ResetEnds(0), TwoResets(Released, Ended, false));
    FlaglessAccepts();
  }
}
