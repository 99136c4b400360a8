/**
 Nothing gets stuck: as long as a job, a call of `resolveSession` or a reset is unfinished, some
 step that needs no new input is enabled, and every such step brings the chat nearer to rest.
 */
module SessionProgress {
  import opened Wrappers
  import opened LifecycleLock
  import opened SessionProtocol
  import opened SessionSafety
  import opened SessionTheorems

  /** Not something a user asks for: a promise that resolves, or the stretch behind it. */
  predicate Internal(e: Event) {
    && !e.MessageArrives? && !e.CommandArrives? && !e.CommandAnswered? && !e.CommandExpanded?
    && !e.Stop? && !e.GetSession? && !e.ResetBegins?
  }

  // ---------------------------------------------------------------- who is behind a ticket

  /** The call behind ticket t is where the ticket says: before the lock, or inside. */
  ghost predicate Owned(s: Chat, t: nat)
    requires t < |s.lock.tickets|
  {
    var ticket := s.lock.tickets[t];
    match ticket.stage
    case Released => true
    case Waiting =>
      (match ticket.owner
       case ByResolver(r) => r < |s.resolvers| && s.resolvers[r].phase == AwaitingLock(t)
       case ByReset(k) => k < |s.resets| && s.resets[k] == AwaitingResetLock(t))
    case Holding =>
      (match ticket.owner
       case ByResolver(r) =>
         r < |s.resolvers| && (s.resolvers[r].phase.Creating? || s.resolvers[r].phase.Leaving?)
         && s.resolvers[r].phase.ticket == t
       case ByReset(k) =>
         k < |s.resets| && (s.resets[k].Destroying() || s.resets[k].LeavingLock?) && s.resets[k].ticket == t)
  }

  ghost predicate AllOwned(s: Chat) {
    forall t: nat | t < |s.lock.tickets| :: Owned(s, t)
  }

  /** What is awaited exists. */
  ghost predicate Awaits(s: Chat) {
    && (forall r | 0 <= r < |s.resolvers| && s.resolvers[r].phase.AwaitingCreation? ::
          s.resolvers[r].phase.creation < |s.creations|)
    && (forall k | 0 <= k < |s.resets| && s.resets[k].AwaitingChain? ::
          s.resets[k].queue < |s.queues| && (s.resets[k].chain.Some? ==> s.resets[k].chain.value < |s.jobs|))
  }

  // ---------------------------------------------------------------- kept by every step

  lemma StartResolveKeepsOwned(s: Chat, job: Option<nat>)
    requires AllOwned(s)
    ensures AllOwned(StartResolve(s, job))
  {
    var after := StartResolve(s, job);
    forall t: nat | t < |after.lock.tickets| ensures Owned(after, t) {
      if t < |s.lock.tickets| {
        assert Owned(s, t);
      }
    }
  }

  lemma OwnedByOthers(s: Chat, after: Chat, t: nat)
    requires t < |s.lock.tickets| && Owned(s, t) && t < |after.lock.tickets| && after.lock.tickets[t] == s.lock.tickets[t]
    requires match s.lock.tickets[t].owner
             case ByResolver(r) => r < |s.resolvers| ==> r < |after.resolvers| && after.resolvers[r].phase == s.resolvers[r].phase
             case ByReset(k) => k < |s.resets| ==> k < |after.resets| && after.resets[k] == s.resets[k]
    ensures Owned(after, t)
  {}

  lemma ResolverMovesKeepOwned(s: Chat, e: Event)
    requires AllOwned(s) && OwnersOk(s) && Enabled(s, e)
    requires e.CreationAwaited? || e.ResolverEnters? || e.SessionBuilt? || e.CreationSettles? || e.ResolverLeaves?
    ensures AllOwned(Next(s, e))
  {
    var after := Next(s, e);
    var r := e.resolver;
    assert ResolverTicket(s.lock, r, s.resolvers[r].phase);
    forall t: nat | t < |after.lock.tickets| ensures Owned(after, t) {
      assert Owned(s, t);
      if s.lock.tickets[t].owner != ByResolver(r) {
        OwnedByOthers(s, after, t);
      }
    }
  }

  lemma ResetMovesKeepOwned(s: Chat, e: Event)
    requires AllOwned(s) && OwnersOk(s) && Enabled(s, e)
    requires e.ResetClosed? || e.ResetDeleted? || e.ResetLeaves? || e.ResetEnds?
    ensures AllOwned(Next(s, e))
  {
    var after := Next(s, e);
    var k := e.reset;
    assert ResetTicket(s.lock, k, s.resets[k]);
    forall t: nat | t < |after.lock.tickets| ensures Owned(after, t) {
      assert Owned(s, t);
      if s.lock.tickets[t].owner != ByReset(k) {
        OwnedByOthers(s, after, t);
      }
    }
  }

  lemma ResetEntersKeepsOwned(s: Chat, k: nat)
    requires AllOwned(s) && Inv(s) && Enabled(s, ResetEnters(k))
    ensures AllOwned(Next(s, ResetEnters(k)))
  {
    var after := Next(s, ResetEnters(k));
    EnteringIsAlone(s, s.resets[k].ticket);
    assert ResetTicket(s.lock, k, s.resets[k]);
    forall t: nat | t < |after.lock.tickets| ensures Owned(after, t) {
      assert Owned(s, t);
      if s.lock.tickets[t].owner != ByReset(k) {
        OwnedByOthers(s, after, t);
      }
    }
  }

  lemma ResetStartsKeepOwned(s: Chat, e: Event)
    requires AllOwned(s) && OwnersOk(s) && Enabled(s, e) && (e.ResetBegins? || e.ResetChainDone?)
    ensures AllOwned(Next(s, e))
  {
    var after := Next(s, e);
    forall t: nat | t < |after.lock.tickets| ensures Owned(after, t) {
      if t < |s.lock.tickets| {
        assert Owned(s, t);
        if e.ResetBegins? || s.lock.tickets[t].owner != ByReset(e.reset) {
          OwnedByOthers(s, after, t);
        }
      }
    }
  }

  lemma JobStepsLeaveLock(s: Chat, e: Event)
    requires Enabled(s, e) && TouchesJobs(e) && !e.BodyStarts?
    ensures Next(s, e).lock == s.lock && Next(s, e).resolvers == s.resolvers && Next(s, e).resets == s.resets
    ensures Next(s, e).creations == s.creations
  {}

  lemma StepKeepsOwned(s: Chat, e: Event)
    requires AllOwned(s) && Inv(s) && Enabled(s, e)
    ensures AllOwned(Next(s, e))
  {
    match e
    case BodyStarts(j) => BodyStartsKeepsOwned(s, j);
    case GetSession => StartResolveKeepsOwned(s, None);
    case CreationAwaited(_) => ResolverMovesKeepOwned(s, e);
    case ResolverEnters(_) => ResolverMovesKeepOwned(s, e);
    case SessionBuilt(_, _) => ResolverMovesKeepOwned(s, e);
    case CreationSettles(_, _) => ResolverMovesKeepOwned(s, e);
    case ResolverLeaves(_) => ResolverMovesKeepOwned(s, e);
    case ResetBegins => ResetStartsKeepOwned(s, e);
    case ResetChainDone(_) => ResetStartsKeepOwned(s, e);
    case ResetEnters(k) => ResetEntersKeepsOwned(s, k);
    case ResetCreationAwaited(_) =>
    case ResetClosed(_) => ResetMovesKeepOwned(s, e);
    case ResetDeleted(_) => ResetMovesKeepOwned(s, e);
    case ResetLeaves(_) => ResetMovesKeepOwned(s, e);
    case ResetEnds(_) => ResetMovesKeepOwned(s, e);
    case _ => OthersKeepOwned(s, e);
  }

  lemma OthersKeepOwned(s: Chat, e: Event)
    requires AllOwned(s) && Enabled(s, e)
    requires (TouchesJobs(e) && !e.BodyStarts?) || e.CommandArrives? || e.CommandAnswered?
    ensures AllOwned(Next(s, e))
  {
    if TouchesJobs(e) {
      JobStepsLeaveLock(s, e);
    }
    forall t: nat | t < |s.lock.tickets| ensures Owned(Next(s, e), t) {
      assert Owned(s, t);
    }
  }

  lemma BodyStartsKeepsOwned(s: Chat, j: nat)
    requires AllOwned(s) && Enabled(s, BodyStarts(j))
    ensures AllOwned(Next(s, BodyStarts(j)))
  {
    var after := Next(s, BodyStarts(j));
    StartResolveKeepsOwned(s, Some(j));
    var started := if s.stopEpoch != s.jobs[j].epoch then s else StartResolve(s, Some(j));
    assert AllOwned(started);
    forall t: nat | t < |after.lock.tickets| ensures Owned(after, t) {
      assert Owned(started, t);
    }
  }

  lemma StepKeepsAwaits(s: Chat, e: Event)
    requires Awaits(s) && Inv(s) && Enabled(s, e)
    ensures Awaits(Next(s, e))
  {
    var after := Next(s, e);
    ObjectsStay(s, e);
    forall r | 0 <= r < |after.resolvers| && after.resolvers[r].phase.AwaitingCreation?
      ensures after.resolvers[r].phase.creation < |after.creations|
    {
      AwaitedCreationStays(s, e, r);
    }
    forall k | 0 <= k < |after.resets| && after.resets[k].AwaitingChain?
      ensures after.resets[k].queue < |after.queues| && (after.resets[k].chain.Some? ==> after.resets[k].chain.value < |after.jobs|)
    {
      AwaitedChainStays(s, e, k);
    }
  }

  /** Promises and objects are only ever added. */
  lemma ObjectsStay(s: Chat, e: Event)
    requires Enabled(s, e)
    ensures |s.queues| <= |Next(s, e).queues| && |s.jobs| <= |Next(s, e).jobs| && |s.creations| <= |Next(s, e).creations|
  {
    if !TouchesJobs(e) {
      OtherStepsLeaveJobs(s, e);
    } else if !e.BodyStarts? {
      JobStepsLeaveLock(s, e);
    }
  }

  lemma AwaitedCreationStays(s: Chat, e: Event, r: nat)
    requires Awaits(s) && Inv(s) && Enabled(s, e)
    requires r < |Next(s, e).resolvers| && Next(s, e).resolvers[r].phase.AwaitingCreation?
    ensures Next(s, e).resolvers[r].phase.creation < |s.creations|
  {
    if !TouchesSessions(e) {
      OtherStepsLeaveSessions(s, e);
    } else if TouchesResets(e) {
      ResetsLeaveResolvers(s, e);
    } else if e.BodyStarts? || e.GetSession? {
      StartAwaits(s, e, r);
    } else {
      assert Next(s, e).resolvers == s.resolvers[e.resolver := Next(s, e).resolvers[e.resolver]];
    }
  }

  lemma StartAwaits(s: Chat, e: Event, r: nat)
    requires CreationOk(s) && Enabled(s, e) && (e.BodyStarts? || e.GetSession?)
    requires r < |Next(s, e).resolvers| && Next(s, e).resolvers[r].phase.AwaitingCreation?
    ensures r < |s.resolvers| ==> s.resolvers[r] == Next(s, e).resolvers[r]
    ensures r >= |s.resolvers| ==> Next(s, e).resolvers[r].phase.creation < |s.creations|
  {}

  lemma ResetsLeaveResolvers(s: Chat, e: Event)
    requires Enabled(s, e) && TouchesResets(e)
    ensures Next(s, e).resolvers == s.resolvers
  {}

  lemma AwaitedChainStays(s: Chat, e: Event, k: nat)
    requires Awaits(s) && Inv(s) && Enabled(s, e)
    requires k < |Next(s, e).resets| && Next(s, e).resets[k].AwaitingChain?
    ensures var reset := Next(s, e).resets[k];
      reset.queue < |s.queues| && (reset.chain.Some? ==> reset.chain.value < |s.jobs|)
  {
    if !TouchesResets(e) {
      OtherStepsLeaveResets(s, e);
    } else if !e.ResetBegins? {
      ResetStep(s, e);
      if e.reset == k {
        NoWayBack(s, e);
      }
    }
  }

  lemma NoWayBack(s: Chat, e: Event)
    requires Enabled(s, e) && TouchesResets(e) && !e.ResetBegins? && e.reset < |Next(s, e).resets|
    ensures !Next(s, e).resets[e.reset].AwaitingChain?
  {}

  lemma {:induction false} RunKeepsOwned(chats: seq<Chat>, events: seq<Event>, n: nat)
    requires IsRunFromStart(chats, events) && n <= |events|
    ensures AllOwned(chats[n]) && Awaits(chats[n])
  {
    if n > 0 {
      RunKeepsOwned(chats, events, n - 1);
      RunKeepsInv(chats, events, n - 1);
      assert StepAt(chats, events, n - 1);
      StepKeepsOwned(chats[n - 1], events[n - 1]);
      StepKeepsAwaits(chats[n - 1], events[n - 1]);
    }
  }

  // ---------------------------------------------------------------- something can always move

  ghost predicate CanMove(s: Chat) {
    exists e :: Internal(e) && Enabled(s, e)
  }

  lemma {:induction false} FirstUnreleased(lock: Lock<Owner>, t: nat) returns (first: nat)
    requires t < |lock.tickets| && !lock.tickets[t].stage.Released?
    ensures first <= t && !lock.tickets[first].stage.Released? && ReleasedBelow(lock.tickets, first)
  {
    if i :| 0 <= i < t && !lock.tickets[i].stage.Released? {
      first := FirstUnreleased(lock, i);
    } else {
      first := t;
    }
  }

  /** While the lock is held or waited for, the first call in line can move. */
  lemma LockMoves(s: Chat, t: nat)
    requires Inv(s) && AllOwned(s) && t < |s.lock.tickets| && !s.lock.tickets[t].stage.Released?
    ensures CanMove(s)
  {
    var first := FirstUnreleased(s.lock, t);
    assert Owned(s, first);
    if s.lock.tickets[first].stage.Waiting? {
      FirstUnreleasedMayEnter(s.lock, first);
    }
    match s.lock.tickets[first].owner
    case ByResolver(r) => OwnerMoves(s, r, first);
    case ByReset(k) => ResetOwnerMoves(s, k, first);
  }

  lemma OwnerMoves(s: Chat, r: nat, t: nat)
    requires Inv(s) && t < |s.lock.tickets| && Owned(s, t) && s.lock.tickets[t].owner == ByResolver(r)
    requires s.lock.tickets[t].stage.Holding? || (s.lock.tickets[t].stage.Waiting? && MayEnter(s.lock, t))
    ensures CanMove(s)
  {
    if s.lock.tickets[t].stage.Waiting? {
      assert Enabled(s, ResolverEnters(r));
    } else if s.resolvers[r].phase.Leaving? {
      assert Enabled(s, ResolverLeaves(r));
    } else {
      CreatorMoves(s, r);
    }
  }

  lemma CreatorMoves(s: Chat, r: nat)
    requires CreationOk(s) && r < |s.resolvers| && s.resolvers[r].phase.Creating?
    ensures CanMove(s)
  {
    if s.creations[s.resolvers[r].phase.creation].stage.Building? {
      assert Enabled(s, SessionBuilt(r, true));
    } else {
      assert Enabled(s, CreationSettles(r, true));
    }
  }

  lemma ResetOwnerMoves(s: Chat, k: nat, t: nat)
    requires Inv(s) && t < |s.lock.tickets| && Owned(s, t) && s.lock.tickets[t].owner == ByReset(k)
    requires s.lock.tickets[t].stage.Holding? || (s.lock.tickets[t].stage.Waiting? && MayEnter(s.lock, t))
    ensures CanMove(s)
  {
    if s.lock.tickets[t].stage.Waiting? {
      assert Enabled(s, ResetEnters(k));
    } else {
      match s.resets[k]
      case Closing(_, _) => assert Enabled(s, ResetClosed(k));
      case Deleting(_) => assert Enabled(s, ResetDeleted(k));
      case LeavingLock(_) => assert Enabled(s, ResetLeaves(k));
    }
  }

  lemma ResolverMoves(s: Chat, r: nat)
    requires Inv(s) && AllOwned(s) && Awaits(s) && r < |s.resolvers| && !s.resolvers[r].phase.Returned?
    ensures CanMove(s)
  {
    assert ResolverTicket(s.lock, r, s.resolvers[r].phase);
    match s.resolvers[r].phase
    case AwaitingCreation(c) =>
      if s.creations[c].stage.Finished() {
        assert Enabled(s, CreationAwaited(r));
      } else {
        CreatorMoves(s, s.creations[c].maker);
      }
    case AwaitingLock(t) => LockMoves(s, t);
    case Creating(t, _) => LockMoves(s, t);
    case Leaving(t, _) => LockMoves(s, t);
  }

  lemma {:induction false} JobMoves(s: Chat, j: nat)
    requires Inv(s) && AllOwned(s) && Awaits(s) && j < |s.jobs| && !s.jobs[j].phase.Settled?
    ensures CanMove(s)
    decreases j
  {
    match s.jobs[j].phase
    case Queued =>
      var prev := s.jobs[j].prev;
      if prev.Some? && !s.jobs[prev.value].phase.Done() {
        JobMoves(s, prev.value);
      } else {
        assert Enabled(s, BodyStarts(j));
      }
    case Resolving(r) =>
      if s.resolvers[r].phase.Returned? {
        assert Enabled(s, SessionResolved(j));
      } else {
        ResolverMoves(s, r);
      }
    case Racing(_, _) => assert Enabled(s, RaceEnds(j, true));
    case Cancelling(_, _) => assert Enabled(s, CancelReturns(j));
    case BodyDone(_) => assert Enabled(s, JobSettles(j));
  }

  lemma ResetMoves(s: Chat, k: nat)
    requires Inv(s) && AllOwned(s) && Awaits(s) && k < |s.resets| && !s.resets[k].Ended?
    ensures CanMove(s)
  {
    assert ResetTicket(s.lock, k, s.resets[k]);
    match s.resets[k]
    case AwaitingChain(_, chain) =>
      if ChainResolved(s.jobs, chain) {
        assert Enabled(s, ResetChainDone(k));
      } else {
        JobMoves(s, chain.value);
      }
    case AwaitingResetLock(t) => LockMoves(s, t);
    case Closing(_, _) => assert Enabled(s, ResetClosed(k));
    case Deleting(_) => assert Enabled(s, ResetDeleted(k));
    case LeavingLock(_) => assert Enabled(s, ResetLeaves(k));
    case Ending => assert Enabled(s, ResetEnds(k));
  }

  // ---------------------------------------------------------------- and every move brings rest nearer

  function Total<T(!new)>(s: seq<T>, weight: T -> nat): nat {
    if s == [] then 0 else Total(s[..|s| - 1], weight) + weight(s[|s| - 1])
  }

  lemma TotalAppend<T(!new)>(s: seq<T>, x: T, weight: T -> nat)
    ensures Total(s + [x], weight) == Total(s, weight) + weight(x)
  {
    assert (s + [x])[..|s|] == s;
  }

  lemma {:induction false} TotalUpdate<T(!new)>(s: seq<T>, i: nat, x: T, weight: T -> nat)
    requires i < |s|
    ensures Total(s[i := x], weight) + weight(s[i]) == Total(s, weight) + weight(x)
  {
    var n := |s| - 1;
    if i < n {
      TotalUpdate(s[..n], i, x, weight);
      assert s[i := x][..n] == s[..n][i := x];
    } else {
      assert s[i := x][..n] == s[..n];
    }
  }

  lemma {:induction false} TotalZero<T(!new)>(s: seq<T>, weight: T -> nat)
    ensures Total(s, weight) == 0 <==> forall i | 0 <= i < |s| :: weight(s[i]) == 0
  {
    if s != [] {
      var front := s[..|s| - 1];
      TotalZero(front, weight);
      assert forall i | 0 <= i < |front| :: front[i] == s[i];
    }
  }

  /** How many steps it has before it at most, those of its call of `resolveSession` included. */
  function JobWeight(job: Job): nat {
    match job.phase
    case Queued => 10
    case Resolving(_) => 4
    case Racing(_, _) => 3
    case Cancelling(_, _) => 2
    case BodyDone(_) => 1
    case Settled(_) => 0
  }

  function ResolverWeight(r: Resolver): nat {
    match r.phase
    case AwaitingCreation(_) => 1
    case AwaitingLock(_) => 5
    case Creating(_, _) => 3
    case Leaving(_, _) => 2
    case Returned(_) => 0
  }

  function CreationWeight(c: Creation): nat { if c.stage.Building? then 1 else 0 }

  function ResetWeight(reset: Reset): nat {
    match reset
    case AwaitingChain(_, _) => 7
    case AwaitingResetLock(_) => 6
    case AwaitingInFlight(_, _) => 5
    case Closing(_, _) => 4
    case Deleting(_) => 3
    case LeavingLock(_) => 2
    case Ending => 1
    case Ended => 0
  }

  function Load(s: Chat): nat {
    Total(s.jobs, JobWeight) + Total(s.resolvers, ResolverWeight) + Total(s.creations, CreationWeight)
    + Total(s.resets, ResetWeight)
  }

  lemma JobLightens(s: Chat, e: Event)
    requires Enabled(s, e) && (e.SessionResolved? || e.RaceEnds? || e.CancelReturns? || e.JobSettles?)
    ensures Load(Next(s, e)) < Load(s)
  {
    var after := Next(s, e);
    JobStepsLeaveLock(s, e);
    assert after.jobs == s.jobs[e.job := after.jobs[e.job]];
    TotalUpdate(s.jobs, e.job, after.jobs[e.job], JobWeight);
  }

  /** A call of `resolveSession` adds one resolver and touches no other list that is weighed. */
  lemma CallAddsOne(s: Chat, job: Option<nat>)
    ensures var t := StartResolve(s, job);
      && t.jobs == s.jobs && t.creations == s.creations && t.resets == s.resets
      && Total(t.resolvers, ResolverWeight) <= Total(s.resolvers, ResolverWeight) + 5
  {
    var t := StartResolve(s, job);
    var called := t.resolvers[|s.resolvers|];
    assert t.resolvers == s.resolvers + [called];
    TotalAppend(s.resolvers, called, ResolverWeight);
  }

  lemma BodyStartLightens(s: Chat, j: nat)
    requires Enabled(s, BodyStarts(j))
    ensures Load(Next(s, BodyStarts(j))) < Load(s)
  {
    if s.stopEpoch != s.jobs[j].epoch {
      PhaseLightens(s, s, j, BodyDone(DroppedSilently), 0);
    } else {
      CallAddsOne(s, Some(j));
      PhaseLightens(s, StartResolve(s, Some(j)), j, Resolving(|s.resolvers|), 5);
    }
  }

  /** A job that moves on lightens the chat by more than the call it makes adds. */
  lemma PhaseLightens(s: Chat, t: Chat, j: nat, phase: Phase, added: nat)
    requires j < |s.jobs| && t.jobs == s.jobs && t.creations == s.creations && t.resets == s.resets
    requires Total(t.resolvers, ResolverWeight) <= Total(s.resolvers, ResolverWeight) + added
    requires JobWeight(s.jobs[j].(phase := phase)) + added < JobWeight(s.jobs[j])
    ensures Load(WithPhase(t, j, phase)) < Load(s)
  {
    TotalUpdate(s.jobs, j, s.jobs[j].(phase := phase), JobWeight);
  }

  lemma ResolverLightens(s: Chat, e: Event)
    requires Enabled(s, e) && (e.CreationAwaited? || e.SessionBuilt? || e.CreationSettles? || e.ResolverLeaves?)
    ensures Load(Next(s, e)) < Load(s)
  {
    var after := Next(s, e);
    var r := e.resolver;
    assert after.resolvers == s.resolvers[r := after.resolvers[r]];
    TotalUpdate(s.resolvers, r, after.resolvers[r], ResolverWeight);
    if e.SessionBuilt? || e.CreationSettles? {
      var c := s.resolvers[r].phase.creation;
      assert after.creations == s.creations[c := after.creations[c]];
      TotalUpdate(s.creations, c, after.creations[c], CreationWeight);
    }
  }

  lemma EnteringLightens(s: Chat, r: nat)
    requires Enabled(s, ResolverEnters(r))
    ensures Load(Next(s, ResolverEnters(r))) < Load(s)
  {
    var after := Next(s, ResolverEnters(r));
    TotalUpdate(s.resolvers, r, after.resolvers[r], ResolverWeight);
    if s.sessions.None? {
      TotalAppend(s.creations, Creation(r, Building), CreationWeight);
    }
  }

  lemma ResetLightens(s: Chat, e: Event)
    requires Enabled(s, e) && TouchesResets(e) && !e.ResetBegins?
    ensures Load(Next(s, e)) < Load(s)
  {
    var after := Next(s, e);
    ResetStep(s, e);
    ResetsLeaveResolvers(s, e);
    ResetGoesOn(s, e);
    TotalUpdate(s.resets, e.reset, after.resets[e.reset], ResetWeight);
  }

  lemma ResetGoesOn(s: Chat, e: Event)
    requires Enabled(s, e) && TouchesResets(e) && !e.ResetBegins? && e.reset < |Next(s, e).resets|
    ensures ResetWeight(Next(s, e).resets[e.reset]) < ResetWeight(s.resets[e.reset])
    ensures Next(s, e).jobs == s.jobs && Next(s, e).creations == s.creations
  {}

  lemma StepLightens(s: Chat, e: Event)
    requires Enabled(s, e) && Internal(e)
    ensures Load(Next(s, e)) < Load(s)
  {
    match e
    case BodyStarts(j) => BodyStartLightens(s, j);
    case SessionResolved(_) => JobLightens(s, e);
    case RaceEnds(_, _) => JobLightens(s, e);
    case CancelReturns(_) => JobLightens(s, e);
    case JobSettles(_) => JobLightens(s, e);
    case ResolverEnters(r) => EnteringLightens(s, r);
    case CreationAwaited(_) => ResolverLightens(s, e);
    case SessionBuilt(_, _) => ResolverLightens(s, e);
    case CreationSettles(_, _) => ResolverLightens(s, e);
    case ResolverLeaves(_) => ResolverLightens(s, e);
    case _ => ResetLightens(s, e);
  }

  // ---------------------------------------------------------------- main results

  /** Every job settled, every call of `resolveSession` returned, every reset over, and the lock free. */
  ghost predicate AtRest(s: Chat) {
    && (forall j | 0 <= j < |s.jobs| :: s.jobs[j].phase.Settled?)
    && (forall r | 0 <= r < |s.resolvers| :: s.resolvers[r].phase.Returned?)
    && (forall k | 0 <= k < |s.resets| :: s.resets[k].Ended?)
    && (forall t | 0 <= t < |s.lock.tickets| :: s.lock.tickets[t].stage.Released?)
  }

  /** In every reachable state: something can move without new input, or everything is finished. */
  lemma NothingStuck(chats: seq<Chat>, events: seq<Event>, n: nat)
    requires IsRunFromStart(chats, events) && n <= |events|
    ensures AtRest(chats[n]) || CanMove(chats[n])
  {
    RunKeepsInv(chats, events, n);
    RunKeepsOwned(chats, events, n);
    var s := chats[n];
    if j :| 0 <= j < |s.jobs| && !s.jobs[j].phase.Settled? {
      JobMoves(s, j);
    } else if r :| 0 <= r < |s.resolvers| && !s.resolvers[r].phase.Returned? {
      ResolverMoves(s, r);
    } else if k :| 0 <= k < |s.resets| && !s.resets[k].Ended? {
      ResetMoves(s, k);
    } else if t: nat :| t < |s.lock.tickets| && !s.lock.tickets[t].stage.Released? {
      LockMoves(s, t);
    }
  }

  /**
   From any reachable state on, steps without new input come to an end after `Load` of them at
   most, and when none is left everything is finished.
   */
  lemma {:induction false} ComesToRest(chats: seq<Chat>, events: seq<Event>, a: nat, b: nat)
    requires IsRunFromStart(chats, events) && a <= b <= |events|
    requires forall c | a <= c < b :: Internal(events[c])
    ensures b - a + Load(chats[b]) <= Load(chats[a])
    ensures !CanMove(chats[b]) ==> AtRest(chats[b])
    decreases b - a
  {
    NothingStuck(chats, events, b);
    if a < b {
      var before := b - 1;
      ComesToRest(chats, events, a, before);
      assert StepAt(chats, events, before);
      StepLightens(chats[before], events[before]);
    }
  }
}
