/** What every run of the chat protocol keeps, and what that means for turns, queues and resets. */
module SessionSafety {
  import opened Wrappers
  import opened LifecycleLock
  import opened SessionProtocol

  // ---------------------------------------------------------------- the queue

  ghost predicate DoneBelow(jobs: seq<Job>, n: nat)
    requires n <= |jobs|
  {
    forall i | 0 <= i < n :: jobs[i].phase.Done()
  }

  ghost predicate SettledBelow(jobs: seq<Job>, n: nat)
    requires n <= |jobs|
  {
    forall i | 0 <= i < n :: jobs[i].phase.Settled?
  }

  /** Accepted submissions whose `finally` has not run. */
  function Unsettled(jobs: seq<Job>): nat {
    if jobs == [] then 0
    else Unsettled(jobs[..|jobs| - 1]) + if jobs[|jobs| - 1].phase.Settled? then 0 else 1
  }

  ghost predicate ChainInv(jobs: seq<Job>) {
    && (forall j | 0 <= j < |jobs| :: jobs[j].prev.Some? ==> jobs[j].prev.value + 1 == j)
    && (forall j | 0 <= j < |jobs| :: jobs[j].prev.None? ==> SettledBelow(jobs, j))
    && (forall j | 0 <= j < |jobs| :: !jobs[j].phase.Queued? ==> DoneBelow(jobs, j))
  }

  ghost predicate QueueInv(jobs: seq<Job>, queues: seq<Queue>, current: Option<nat>) {
    && (current.None? ==> SettledBelow(jobs, |jobs|))
    && (current.Some? ==>
          && current.value + 1 == |queues| && jobs != []
          && queues[current.value].chain == Some(|jobs| - 1)
          && queues[current.value].pending == Unsettled(jobs)
          && 1 <= Unsettled(jobs) <= MAX_QUEUE_PER_SESSION)
    && (forall j | 0 <= j < |jobs| :: jobs[j].queue < |queues|)
    && (forall j | 0 <= j < |jobs| :: jobs[j].phase.Settled? || current == Some(jobs[j].queue))
    && (forall q | 0 <= q < |queues| :: current == Some(q) || queues[q].pending == 0)
  }

  // ---------------------------------------------------------------- lock, creations, sessions

  ghost predicate TicketIs(lock: Lock<Owner>, t: nat, owner: Owner, holding: bool) {
    && t < |lock.tickets| && lock.tickets[t].owner == owner
    && (if holding then lock.tickets[t].stage.Holding? else lock.tickets[t].stage.Waiting?)
  }

  ghost predicate ResolverTicket(lock: Lock<Owner>, r: nat, phase: ResolverPhase) {
    match phase
    case AwaitingLock(t) => TicketIs(lock, t, ByResolver(r), false)
    case Creating(t, _) => TicketIs(lock, t, ByResolver(r), true)
    case Leaving(t, _) => TicketIs(lock, t, ByResolver(r), true)
    case _ => true
  }

  ghost predicate ResetTicket(lock: Lock<Owner>, k: nat, reset: Reset) {
    match reset
    case AwaitingResetLock(t) => TicketIs(lock, t, ByReset(k), false)
    case AwaitingInFlight(t, _) => TicketIs(lock, t, ByReset(k), true)
    case Closing(t, _) => TicketIs(lock, t, ByReset(k), true)
    case Deleting(t) => TicketIs(lock, t, ByReset(k), true)
    case LeavingLock(t) => TicketIs(lock, t, ByReset(k), true)
    case _ => true
  }

  ghost predicate OwnersInv(lock: Lock<Owner>, resolvers: seq<Resolver>, resets: seq<Reset>) {
    && LockInv(lock)
    && (forall r | 0 <= r < |resolvers| :: ResolverTicket(lock, r, resolvers[r].phase))
    && (forall k | 0 <= k < |resets| :: ResetTicket(lock, k, resets[k]))
  }

  /** At most one creation is unfinished; the map names it, and its maker is inside the lock. */
  ghost predicate CreationInv(
    resolvers: seq<Resolver>, creations: seq<Creation>, inFlight: Option<nat>, sessions: Option<nat>)
  {
    && (inFlight.Some? ==>
          && inFlight.value < |creations| && !creations[inFlight.value].stage.Finished()
          && creations[inFlight.value].maker < |resolvers|
          && var phase := resolvers[creations[inFlight.value].maker].phase;
          && phase.Creating? && phase.creation == inFlight.value
          && sessions == (match creations[inFlight.value].stage case Installed(x) => Some(x) case _ => None))
    && (forall c | 0 <= c < |creations| :: creations[c].stage.Finished() || inFlight == Some(c))
    && (forall r | 0 <= r < |resolvers| :: resolvers[r].phase.Creating? ==>
          && inFlight == Some(resolvers[r].phase.creation)
          && inFlight.value < |creations| && creations[inFlight.value].maker == r)
  }

  /** What a pending `resolveSession` will hand over, if that is settled already. */
  ghost predicate WillReturn(creations: seq<Creation>, phase: ResolverPhase, x: nat) {
    match phase
    case AwaitingCreation(c) =>
      c < |creations| && (creations[c].stage == Installed(x) || creations[c].stage == Succeeded(x))
    case AwaitingLock(_) => false
    case Creating(_, c) => c < |creations| && creations[c].stage == Installed(x)
    case Leaving(_, result) => result == Some(x)
    case Returned(result) => result == Some(x)
  }

  ghost predicate HoldInv(
    jobs: seq<Job>, resolvers: seq<Resolver>, creations: seq<Creation>, sessions: Option<nat>)
  {
    && (forall j | 0 <= j < |jobs| :: jobs[j].phase.Executing() ==> sessions == Some(jobs[j].phase.session))
    && (forall j | 0 <= j < |jobs| :: jobs[j].phase.Resolving? ==> jobs[j].phase.resolver < |resolvers|)
    && (forall j, x: nat | 0 <= j < |jobs| && jobs[j].phase.Resolving?
                      && WillReturn(creations, resolvers[jobs[j].phase.resolver].phase, x) :: sessions == Some(x))
  }

  ghost predicate ResetInv(resets: seq<Reset>, sessions: Option<nat>) {
    forall k | 0 <= k < |resets| :: !resets[k].AwaitingInFlight? && (resets[k].Destroying() ==> sessions.None?)
  }

  ghost predicate ActiveInv(jobs: seq<Job>, active: Option<nat>) {
    && (active.Some? ==> active.value < |jobs| && jobs[active.value].phase.Executing())
    && (forall j | 0 <= j < |jobs| :: jobs[j].phase.Executing() ==> active == Some(j))
  }

  ghost predicate NumberInv(sessions: Option<nat>, next: nat, closed: set<nat>) {
    && (sessions.Some? ==> sessions.value < next && sessions.value !in closed)
    && (forall x | x in closed :: x < next)
  }

  ghost predicate Inv(s: Chat) {
    && QueueOk(s)
    && OwnersOk(s)
    && CreationOk(s)
    && HoldOk(s)
    && ResetInv(s.resets, s.sessions)
    && ActiveInv(s.jobs, s.activeTurn)
    && NumberInv(s.sessions, s.nextSession, s.closed)
  }

  // ---------------------------------------------------------------- counting

  lemma {:induction false} UnsettledZero(jobs: seq<Job>)
    ensures Unsettled(jobs) == 0 <==> SettledBelow(jobs, |jobs|)
  {
    if jobs != [] {
      var n := |jobs| - 1;
      UnsettledZero(jobs[..n]);
      assert forall i | 0 <= i < n :: jobs[..n][i] == jobs[i];
      if SettledBelow(jobs[..n], n) && jobs[n].phase.Settled? {
        forall i | 0 <= i < |jobs| ensures jobs[i].phase.Settled? {
          if i < n { assert jobs[i] == jobs[..n][i]; }
        }
      }
    }
  }

  lemma UnsettledAppend(jobs: seq<Job>, job: Job)
    requires !job.phase.Settled?
    ensures Unsettled(jobs + [job]) == Unsettled(jobs) + 1
  {
    assert (jobs + [job])[..|jobs|] == jobs;
  }

  lemma {:induction false} UnsettledUpdate(jobs: seq<Job>, j: nat, job: Job)
    requires j < |jobs| && !jobs[j].phase.Settled?
    ensures Unsettled(jobs[j := job]) == Unsettled(jobs) - if job.phase.Settled? then 1 else 0
  {
    var n := |jobs| - 1;
    if j == n {
      assert jobs[j := job][..n] == jobs[..n];
    } else {
      assert jobs[j := job][..n] == jobs[..n][j := job];
      UnsettledUpdate(jobs[..n], j, job);
    }
  }

  // ---------------------------------------------------------------- the queue, step by step

  ghost predicate QueueOk(s: Chat) {
    ChainInv(s.jobs) && QueueInv(s.jobs, s.queues, s.current)
  }

  lemma EnqueueKeepsQueue(s: Chat)
    requires QueueOk(s)
    ensures QueueOk(Enqueue(s))
  {
    var after := Enqueue(s);
    if after != s {
      UnsettledAppend(s.jobs, after.jobs[|s.jobs|]);
      UnsettledZero(s.jobs);
      assert forall i | 0 <= i < |s.jobs| :: after.jobs[i] == s.jobs[i];
      EnqueueKeepsChain(s.jobs, after.jobs[|s.jobs|]);
    }
  }

  lemma MessageKeepsQueue(s: Chat)
    requires QueueOk(s)
    ensures QueueOk(Next(s, MessageArrives))
  {
    EnqueueKeepsQueue(s);
  }

  lemma ExpandedKeepsQueue(s: Chat)
    requires QueueOk(s) && Enabled(s, CommandExpanded)
    ensures QueueOk(Next(s, CommandExpanded))
  {
    var answered := s.(commands := s.commands - 1);
    EnqueueKeepsQueue(answered);
    assert Next(s, CommandExpanded) == Enqueue(answered);
  }

  lemma EnqueueKeepsChain(jobs: seq<Job>, job: Job)
    requires ChainInv(jobs) && job.phase.Queued?
    requires job.prev == (if SettledBelow(jobs, |jobs|) then None else Some(|jobs| - 1))
    ensures ChainInv(jobs + [job])
  {
    var after := jobs + [job];
    forall j | 0 <= j < |after|
      ensures after[j].prev.None? ==> SettledBelow(after, j)
      ensures !after[j].phase.Queued? ==> DoneBelow(after, j)
    {
      if j < |jobs| {
        assert after[j] == jobs[j];
      }
    }
  }

  /** The phase changes a job makes between entering the queue and its `finally`. */
  predicate Advances(jobs: seq<Job>, j: nat, phase: Phase) {
    && j < |jobs| && !jobs[j].phase.Settled? && !phase.Queued?
    && (jobs[j].phase.Queued? ==> ChainResolved(jobs, jobs[j].prev))
    && (jobs[j].phase.Done() ==> phase.Done())
  }

  lemma AdvanceKeepsChain(jobs: seq<Job>, j: nat, phase: Phase)
    requires ChainInv(jobs) && Advances(jobs, j, phase)
    ensures ChainInv(jobs[j := jobs[j].(phase := phase)])
    ensures DoneBelow(jobs, j)
  {
    var after := jobs[j := jobs[j].(phase := phase)];
    if jobs[j].phase.Queued? && jobs[j].prev.Some? {
      assert DoneBelow(jobs, jobs[j].prev.value);
    }
    forall i | 0 <= i < |after|
      ensures after[i].prev.None? ==> SettledBelow(after, i)
      ensures !after[i].phase.Queued? ==> DoneBelow(after, i)
    {
      if i != j && !jobs[i].phase.Queued? {
        assert DoneBelow(jobs, i);
      }
    }
  }

  lemma AdvanceKeepsQueue(s: Chat, j: nat, phase: Phase)
    requires QueueOk(s) && Advances(s.jobs, j, phase) && !phase.Settled?
    ensures QueueOk(WithPhase(s, j, phase))
  {
    AdvanceKeepsChain(s.jobs, j, phase);
    UnsettledUpdate(s.jobs, j, s.jobs[j].(phase := phase));
  }

  lemma SettleKeepsQueue(s: Chat, j: nat)
    requires QueueOk(s) && Enabled(s, JobSettles(j))
    ensures QueueOk(Next(s, JobSettles(j)))
  {
    var after := SettleJob(s, j);
    AdvanceKeepsChain(s.jobs, j, after.jobs[j].phase);
    SettleKeepsQueueObjects(s, j);
    assert Next(s, JobSettles(j)) == after;
  }

  lemma SettleKeepsQueueObjects(s: Chat, j: nat)
    requires QueueOk(s) && Enabled(s, JobSettles(j))
    ensures QueueInv(SettleJob(s, j).jobs, SettleJob(s, j).queues, SettleJob(s, j).current)
  {
    var after := SettleJob(s, j);
    UnsettledUpdate(s.jobs, j, after.jobs[j]);
    UnsettledZero(after.jobs);
  }

  predicate MovesBody(e: Event) { e.BodyStarts? || e.SessionResolved? || e.RaceEnds? || e.CancelReturns? }

  lemma BodyStepAdvances(s: Chat, e: Event) returns (phase: Phase)
    requires Enabled(s, e) && MovesBody(e)
    ensures Advances(s.jobs, e.job, phase) && !phase.Settled?
    ensures var after := Next(s, e);
            after.jobs == WithPhase(s, e.job, phase).jobs && after.queues == s.queues && after.current == s.current
  {
    phase := Next(s, e).jobs[e.job].phase;
  }

  lemma BodyStepKeepsQueue(s: Chat, e: Event)
    requires QueueOk(s) && Enabled(s, e) && MovesBody(e)
    ensures QueueOk(Next(s, e))
  {
    var phase := BodyStepAdvances(s, e);
    AdvanceKeepsQueue(s, e.job, phase);
  }

  lemma StopKeepsQueue(s: Chat, cronTurn: bool)
    requires QueueOk(s)
    ensures QueueOk(Next(s, Stop(cronTurn)))
  {
    if s.activeTurn.Some? && s.activeTurn.value < |s.jobs| && s.jobs[s.activeTurn.value].phase.Racing? {
      AdvanceKeepsQueue(s, s.activeTurn.value, Racing(s.jobs[s.activeTurn.value].phase.session, true));
    }
  }

  lemma OtherStepsKeepQueue(s: Chat, e: Event)
    requires QueueOk(s) && Enabled(s, e) && !TouchesJobs(e)
    ensures QueueOk(Next(s, e))
  {
    OtherStepsLeaveJobs(s, e);
  }

  lemma StepKeepsQueue(s: Chat, e: Event)
    requires QueueOk(s) && Enabled(s, e)
    ensures QueueOk(Next(s, e))
  {
    if MovesBody(e) {
      BodyStepKeepsQueue(s, e);
    } else {
      match e
      case JobSettles(j) => SettleKeepsQueue(s, j);
      case Stop(cronTurn) => StopKeepsQueue(s, cronTurn);
      case MessageArrives => MessageKeepsQueue(s);
      case CommandExpanded => ExpandedKeepsQueue(s);
      case _ => OtherStepsKeepQueue(s, e);
    }
  }

  /** Only these events touch the jobs, the queue objects or the registered turn. */
  predicate TouchesJobs(e: Event) {
    || e.MessageArrives? || e.CommandExpanded? || e.BodyStarts? || e.SessionResolved?
    || e.RaceEnds? || e.CancelReturns? || e.JobSettles? || e.Stop?
  }

  lemma OtherStepsLeaveJobs(s: Chat, e: Event)
    requires Enabled(s, e) && !TouchesJobs(e)
    ensures var after := Next(s, e);
            after.jobs == s.jobs && after.queues == s.queues && after.current == s.current
            && after.activeTurn == s.activeTurn && after.stopEpoch == s.stopEpoch
  {}

  /** At most one job is inside its body. */
  lemma OneBody(jobs: seq<Job>, i: nat, j: nat)
    requires ChainInv(jobs) && i < |jobs| && j < |jobs|
    requires jobs[i].phase.InBody() && jobs[j].phase.InBody()
    ensures i == j
  {
    assert DoneBelow(jobs, i) && DoneBelow(jobs, j);
  }

  lemma RegisterKeepsActive(s: Chat, j: nat)
    requires ChainInv(s.jobs) && ActiveInv(s.jobs, s.activeTurn) && Enabled(s, SessionResolved(j))
    ensures ActiveInv(Next(s, SessionResolved(j)).jobs, Next(s, SessionResolved(j)).activeTurn)
  {
    if s.activeTurn.Some? {
      OneBody(s.jobs, j, s.activeTurn.value);
    }
  }

  lemma TurnStepKeepsActive(s: Chat, e: Event)
    requires ActiveInv(s.jobs, s.activeTurn) && Enabled(s, e) && (e.RaceEnds? || e.CancelReturns?)
    ensures ActiveInv(Next(s, e).jobs, Next(s, e).activeTurn)
  {}

  lemma BodyEdgeKeepsActive(s: Chat, e: Event)
    requires ActiveInv(s.jobs, s.activeTurn) && Enabled(s, e) && (e.JobSettles? || e.BodyStarts?)
    ensures ActiveInv(Next(s, e).jobs, Next(s, e).activeTurn)
  {}

  lemma StopKeepsActive(s: Chat, cronTurn: bool)
    requires ActiveInv(s.jobs, s.activeTurn)
    ensures ActiveInv(StopChat(s, cronTurn).jobs, StopChat(s, cronTurn).activeTurn)
  {}

  lemma StepKeepsActive(s: Chat, e: Event)
    requires ChainInv(s.jobs) && ActiveInv(s.jobs, s.activeTurn) && Enabled(s, e)
    ensures ActiveInv(Next(s, e).jobs, Next(s, e).activeTurn)
  {
    if e.SessionResolved? {
      RegisterKeepsActive(s, e.job);
    } else if e.Stop? {
      StopKeepsActive(s, e.cronTurn);
    } else if e.MessageArrives? || e.CommandExpanded? {
    } else if e.RaceEnds? || e.CancelReturns? {
      TurnStepKeepsActive(s, e);
    } else if TouchesJobs(e) {
      BodyEdgeKeepsActive(s, e);
    } else {
      OtherStepsLeaveJobs(s, e);
    }
  }

  // ---------------------------------------------------------------- the lock, step by step

  ghost predicate OwnersOk(s: Chat) { OwnersInv(s.lock, s.resolvers, s.resets) }

  lemma RequestKeepsOwners(s: Chat, owner: Owner)
    requires OwnersOk(s)
    ensures OwnersInv(Request(s.lock, owner), s.resolvers, s.resets)
    ensures TicketIs(Request(s.lock, owner), |s.lock.tickets|, owner, false)
  {
    RequestKeepsInv(s.lock, owner);
    var after := Request(s.lock, owner);
    assert forall t | 0 <= t < |s.lock.tickets| :: after.tickets[t] == s.lock.tickets[t];
  }

  /** Tickets of everybody but the one entering are as they were. */
  lemma EnterKeepsOwners(s: Chat, t: nat)
    requires OwnersOk(s) && MayEnter(s.lock, t)
    ensures LockInv(Enter(s.lock, t))
    ensures forall r | 0 <= r < |s.resolvers| && s.lock.tickets[t].owner != ByResolver(r) ::
              ResolverTicket(Enter(s.lock, t), r, s.resolvers[r].phase)
    ensures forall k | 0 <= k < |s.resets| && s.lock.tickets[t].owner != ByReset(k) ::
              ResetTicket(Enter(s.lock, t), k, s.resets[k])
  {
    EnterKeepsInv(s.lock, t);
  }

  lemma ReleaseKeepsOwners(s: Chat, t: nat)
    requires OwnersOk(s) && Holds(s.lock, t)
    ensures LockInv(Release(s.lock, t))
    ensures forall r | 0 <= r < |s.resolvers| && s.lock.tickets[t].owner != ByResolver(r) ::
              ResolverTicket(Release(s.lock, t), r, s.resolvers[r].phase)
    ensures forall k | 0 <= k < |s.resets| && s.lock.tickets[t].owner != ByReset(k) ::
              ResetTicket(Release(s.lock, t), k, s.resets[k])
  {
    ReleaseKeepsInv(s.lock, t);
  }

  lemma StartResolveKeepsOwners(s: Chat, job: Option<nat>)
    requires OwnersOk(s)
    ensures OwnersOk(StartResolve(s, job))
  {
    RequestKeepsOwners(s, ByResolver(|s.resolvers|));
  }

  lemma ResolverStepKeepsOwners(s: Chat, e: Event)
    requires OwnersOk(s) && Enabled(s, e) && (e.CreationAwaited? || e.SessionBuilt? || e.CreationSettles?)
    ensures OwnersOk(Next(s, e))
  {
    assert ResolverTicket(s.lock, e.resolver, s.resolvers[e.resolver].phase);
  }

  lemma ResolverLockStepKeepsOwners(s: Chat, e: Event)
    requires OwnersOk(s) && Enabled(s, e) && (e.ResolverEnters? || e.ResolverLeaves?)
    ensures OwnersOk(Next(s, e))
  {
    var r := e.resolver;
    assert ResolverTicket(s.lock, r, s.resolvers[r].phase);
    if e.ResolverEnters? {
      EnterKeepsOwners(s, s.resolvers[r].phase.ticket);
    } else {
      ReleaseKeepsOwners(s, s.resolvers[r].phase.ticket);
    }
  }

  lemma ResetStepKeepsOwners(s: Chat, e: Event)
    requires OwnersOk(s) && Enabled(s, e)
    requires e.ResetCreationAwaited? || e.ResetClosed? || e.ResetDeleted? || e.ResetEnds?
    ensures OwnersOk(Next(s, e))
  {
    assert ResetTicket(s.lock, e.reset, s.resets[e.reset]);
  }

  lemma ResetEntersKeepsOwners(s: Chat, k: nat)
    requires OwnersOk(s) && Enabled(s, ResetEnters(k))
    ensures OwnersOk(Next(s, ResetEnters(k)))
  {
    var after := Next(s, ResetEnters(k));
    HolderKeepsOwners(s, k, after.resets[k]);
  }

  lemma HolderKeepsOwners(s: Chat, k: nat, inside: Reset)
    requires OwnersOk(s) && Enabled(s, ResetEnters(k))
    requires ResetTicket(Enter(s.lock, s.resets[k].ticket), k, inside)
    ensures OwnersInv(Enter(s.lock, s.resets[k].ticket), s.resolvers, s.resets[k := inside])
  {
    assert ResetTicket(s.lock, k, s.resets[k]);
    EnterKeepsOwners(s, s.resets[k].ticket);
  }

  lemma ResetLeavesKeepsOwners(s: Chat, k: nat)
    requires OwnersOk(s) && Enabled(s, ResetLeaves(k))
    ensures OwnersOk(Next(s, ResetLeaves(k)))
  {
    assert ResetTicket(s.lock, k, s.resets[k]);
    ReleaseKeepsOwners(s, s.resets[k].ticket);
  }

  lemma ResetStartKeepsOwners(s: Chat, e: Event)
    requires OwnersOk(s) && Enabled(s, e) && (e.ResetBegins? || e.ResetChainDone?)
    ensures OwnersOk(Next(s, e))
  {
    RequestKeepsOwners(s, ByReset(if e.ResetBegins? then |s.resets| else e.reset));
  }

  lemma StepKeepsOwners(s: Chat, e: Event)
    requires OwnersOk(s) && Enabled(s, e)
    ensures OwnersOk(Next(s, e))
  {
    match e
    case BodyStarts(j) => StartResolveKeepsOwners(s, Some(j));
    case GetSession => StartResolveKeepsOwners(s, None);
    case CreationAwaited(_) => ResolverStepKeepsOwners(s, e);
    case ResolverEnters(_) => ResolverLockStepKeepsOwners(s, e);
    case SessionBuilt(_, _) => ResolverStepKeepsOwners(s, e);
    case CreationSettles(_, _) => ResolverStepKeepsOwners(s, e);
    case ResolverLeaves(_) => ResolverLockStepKeepsOwners(s, e);
    case ResetBegins => ResetStartKeepsOwners(s, e);
    case ResetChainDone(_) => ResetStartKeepsOwners(s, e);
    case ResetEnters(k) => ResetEntersKeepsOwners(s, k);
    case ResetLeaves(k) => ResetLeavesKeepsOwners(s, k);
    case ResetCreationAwaited(_) => ResetStepKeepsOwners(s, e);
    case ResetClosed(_) => ResetStepKeepsOwners(s, e);
    case ResetDeleted(_) => ResetStepKeepsOwners(s, e);
    case ResetEnds(_) => ResetStepKeepsOwners(s, e);
    case _ =>
  }

  // ---------------------------------------------------------------- sessions, step by step

  ghost predicate CreationOk(s: Chat) {
    CreationInv(s.resolvers, s.creations, s.sessionCreations, s.sessions)
  }

  /** Whoever enters the lock finds no creation running and no reset destroying. */
  lemma EnteringIsAlone(s: Chat, t: nat)
    requires OwnersOk(s) && CreationOk(s) && MayEnter(s.lock, t)
    ensures s.sessionCreations.None?
    ensures forall k | 0 <= k < |s.resets| :: !s.resets[k].Destroying()
  {
    EntersInOrder(s.lock, t);
    assert s.sessionCreations.Some? ==>
        var r := s.creations[s.sessionCreations.value].maker;
        ResolverTicket(s.lock, r, s.resolvers[r].phase);
    assert forall k | 0 <= k < |s.resets| :: ResetTicket(s.lock, k, s.resets[k]);
  }

  /** While a creation runs, no reset destroys. */
  lemma CreatorIsAlone(s: Chat, r: nat)
    requires OwnersOk(s) && r < |s.resolvers| && s.resolvers[r].phase.Creating?
    ensures forall k | 0 <= k < |s.resets| :: !s.resets[k].Destroying()
  {
    var t := s.resolvers[r].phase.ticket;
    assert ResolverTicket(s.lock, r, s.resolvers[r].phase);
    forall k | 0 <= k < |s.resets|
      ensures !s.resets[k].Destroying()
    {
      assert ResetTicket(s.lock, k, s.resets[k]);
      if s.resets[k].Destroying() {
        MutualExclusion(s.lock, t, s.resets[k].ticket);
      }
    }
  }

  /** Only these events touch the creations, the resolvers or the `sessions` entry. */
  predicate TouchesSessions(e: Event) {
    || e.BodyStarts? || e.GetSession? || e.CreationAwaited? || e.ResolverEnters? || e.SessionBuilt?
    || e.CreationSettles? || e.ResolverLeaves? || e.ResetEnters? || e.ResetCreationAwaited?
  }

  lemma OtherStepsLeaveSessions(s: Chat, e: Event)
    requires Enabled(s, e) && !TouchesSessions(e)
    ensures var after := Next(s, e);
            after.resolvers == s.resolvers && after.creations == s.creations && after.sessions == s.sessions
            && after.sessionCreations == s.sessionCreations && after.nextSession == s.nextSession
            && after.closed == s.closed
  {}

  lemma StartResolveKeepsCreation(s: Chat, job: Option<nat>)
    requires CreationOk(s)
    ensures CreationOk(StartResolve(s, job))
  {}

  lemma ResolverEntersKeepsCreation(s: Chat, r: nat)
    requires OwnersOk(s) && CreationOk(s) && Enabled(s, ResolverEnters(r))
    ensures CreationOk(EnterAndCreate(s, r))
  {
    EnteringIsAlone(s, s.resolvers[r].phase.ticket);
  }

  lemma SessionBuiltKeepsCreation(s: Chat, r: nat, ok: bool)
    requires CreationOk(s) && Enabled(s, SessionBuilt(r, ok))
    ensures CreationOk(InstallOrFail(s, r, ok))
  {}

  lemma CreationSettlesKeepsCreation(s: Chat, r: nat, ok: bool)
    requires CreationOk(s) && Enabled(s, CreationSettles(r, ok))
    ensures CreationOk(Next(s, CreationSettles(r, ok)))
  {}

  lemma ResolverReturnsKeepsCreation(s: Chat, e: Event)
    requires CreationOk(s) && Enabled(s, e) && (e.CreationAwaited? || e.ResolverLeaves?)
    ensures CreationOk(Next(s, e))
  {}

  lemma ResetKeepsCreation(s: Chat, e: Event)
    requires OwnersOk(s) && CreationOk(s) && ResetInv(s.resets, s.sessions) && Enabled(s, e)
    requires e.ResetEnters? || e.ResetCreationAwaited?
    ensures CreationOk(Next(s, e))
  {
    if e.ResetEnters? {
      EnteringIsAlone(s, s.resets[e.reset].ticket);
    }
  }

  lemma StepKeepsCreation(s: Chat, e: Event)
    requires OwnersOk(s) && CreationOk(s) && ResetInv(s.resets, s.sessions) && Enabled(s, e)
    ensures CreationOk(Next(s, e))
  {
    match e
    case BodyStarts(j) => StartResolveKeepsCreation(s, Some(j));
    case GetSession => StartResolveKeepsCreation(s, None);
    case ResolverEnters(r) => ResolverEntersKeepsCreation(s, r);
    case SessionBuilt(r, ok) => SessionBuiltKeepsCreation(s, r, ok);
    case CreationSettles(r, ok) => CreationSettlesKeepsCreation(s, r, ok);
    case CreationAwaited(_) => ResolverReturnsKeepsCreation(s, e);
    case ResolverLeaves(_) => ResolverReturnsKeepsCreation(s, e);
    case ResetEnters(_) => ResetKeepsCreation(s, e);
    case ResetCreationAwaited(_) => ResetKeepsCreation(s, e);
    case _ => OtherStepsLeaveSessions(s, e);
  }

  lemma SessionBuiltKeepsReset(s: Chat, r: nat, ok: bool)
    requires OwnersOk(s) && ResetInv(s.resets, s.sessions) && Enabled(s, SessionBuilt(r, ok))
    ensures ResetInv(InstallOrFail(s, r, ok).resets, InstallOrFail(s, r, ok).sessions)
  {
    CreatorIsAlone(s, r);
  }

  lemma ResetEntersKeepsReset(s: Chat, k: nat)
    requires OwnersOk(s) && CreationOk(s) && ResetInv(s.resets, s.sessions) && Enabled(s, ResetEnters(k))
    ensures ResetInv(EnterReset(s, k).resets, EnterReset(s, k).sessions)
  {
    EnteringIsAlone(s, s.resets[k].ticket);
  }

  lemma ResetMovesKeepReset(s: Chat, e: Event)
    requires ResetInv(s.resets, s.sessions) && Enabled(s, e) && TouchesResets(e) && !e.ResetEnters?
    ensures ResetInv(Next(s, e).resets, Next(s, e).sessions)
  {}

  predicate TouchesResets(e: Event) {
    || e.ResetBegins? || e.ResetChainDone? || e.ResetEnters? || e.ResetCreationAwaited? || e.ResetClosed?
    || e.ResetDeleted? || e.ResetLeaves? || e.ResetEnds?
  }

  lemma OtherStepsLeaveResets(s: Chat, e: Event)
    requires Enabled(s, e) && !TouchesResets(e)
    ensures Next(s, e).resets == s.resets && Next(s, e).resetting == s.resetting
  {
    if TouchesJobs(e) {
      JobStepsLeaveResets(s, e);
    }
  }

  lemma JobStepsLeaveResets(s: Chat, e: Event)
    requires Enabled(s, e) && TouchesJobs(e)
    ensures Next(s, e).resets == s.resets && Next(s, e).resetting == s.resetting
  {}

  /** Only a creation that succeeds fills the `sessions` entry. */
  lemma OtherStepsFillNothing(s: Chat, e: Event)
    requires Enabled(s, e) && !e.SessionBuilt? && s.sessions.None?
    ensures Next(s, e).sessions.None?
  {}

  lemma StepKeepsReset(s: Chat, e: Event)
    requires OwnersOk(s) && CreationOk(s) && ResetInv(s.resets, s.sessions) && Enabled(s, e)
    ensures ResetInv(Next(s, e).resets, Next(s, e).sessions)
  {
    if e.SessionBuilt? {
      SessionBuiltKeepsReset(s, e.resolver, e.ok);
    } else if e.ResetEnters? {
      ResetEntersKeepsReset(s, e.reset);
    } else if TouchesResets(e) {
      ResetMovesKeepReset(s, e);
    } else {
      OtherStepsLeaveResets(s, e);
      if s.sessions.None? {
        OtherStepsFillNothing(s, e);
      }
    }
  }

  lemma StepKeepsNumbers(s: Chat, e: Event)
    requires NumberInv(s.sessions, s.nextSession, s.closed) && Enabled(s, e)
    ensures NumberInv(Next(s, e).sessions, Next(s, e).nextSession, Next(s, e).closed)
  {
    if !TouchesSessions(e) {
      OtherStepsLeaveSessions(s, e);
    }
  }

  ghost predicate HoldOk(s: Chat) { HoldInv(s.jobs, s.resolvers, s.creations, s.sessions) }

  lemma StartResolveKeepsHold(s: Chat, job: Option<nat>)
    requires CreationOk(s) && HoldOk(s)
    ensures HoldOk(StartResolve(s, job))
    ensures var after := StartResolve(s, job);
            forall x: nat :: WillReturn(s.creations, after.resolvers[|s.resolvers|].phase, x) ==> s.sessions == Some(x)
  {
    var after := StartResolve(s, job);
    forall j, x: nat | 0 <= j < |s.jobs| && s.jobs[j].phase.Resolving?
                  && WillReturn(s.creations, after.resolvers[s.jobs[j].phase.resolver].phase, x)
      ensures s.sessions == Some(x)
    {
      assert WillReturn(s.creations, s.resolvers[s.jobs[j].phase.resolver].phase, x);
    }
  }

  lemma BodyStartsKeepsHold(s: Chat, j: nat)
    requires CreationOk(s) && HoldOk(s) && Enabled(s, BodyStarts(j))
    ensures HoldOk(Next(s, BodyStarts(j)))
  {
    StartResolveKeepsHold(s, Some(j));
  }

  lemma ResolverEntersKeepsHold(s: Chat, r: nat)
    requires OwnersOk(s) && CreationOk(s) && HoldOk(s) && Enabled(s, ResolverEnters(r))
    ensures HoldOk(Next(s, ResolverEnters(r)))
  {
    var after := Next(s, ResolverEnters(r));
    EnteringIsAlone(s, s.resolvers[r].phase.ticket);
    forall j, x: nat | 0 <= j < |after.jobs| && after.jobs[j].phase.Resolving?
                  && WillReturn(after.creations, after.resolvers[after.jobs[j].phase.resolver].phase, x)
      ensures after.sessions == Some(x)
    {
      var q := s.jobs[j].phase.resolver;
      if WillReturn(s.creations, s.resolvers[q].phase, x) {
        assert s.sessions == Some(x);
      }
    }
  }

  lemma ResolverStepKeepsHold(s: Chat, e: Event)
    requires CreationOk(s) && HoldOk(s) && Enabled(s, e)
    requires e.CreationAwaited? || e.CreationSettles? || e.ResolverLeaves? || e.SessionBuilt?
    ensures HoldOk(Next(s, e))
  {
    var after := Next(s, e);
    forall j, x: nat | 0 <= j < |after.jobs| && after.jobs[j].phase.Resolving?
                  && WillReturn(after.creations, after.resolvers[after.jobs[j].phase.resolver].phase, x)
      ensures after.sessions == Some(x)
    {
      var q := s.jobs[j].phase.resolver;
      if WillReturn(s.creations, s.resolvers[q].phase, x) {
        assert s.sessions == Some(x);
      }
    }
  }

  /** A reset that got past the `pending` check inside the lock finds no turn in its body. */
  lemma IdleQueueHasNoTurn(s: Chat, j: nat)
    requires QueueOk(s) && LivePending(s) <= 0 && j < |s.jobs|
    ensures s.jobs[j].phase.Settled?
  {
    UnsettledZero(s.jobs);
  }

  lemma ResetStepKeepsHold(s: Chat, e: Event)
    requires QueueOk(s) && OwnersOk(s) && CreationOk(s) && HoldOk(s) && ResetInv(s.resets, s.sessions)
    requires Enabled(s, e) && (e.ResetEnters? || e.ResetCreationAwaited?)
    ensures HoldOk(Next(s, e))
  {
    if e.ResetEnters? && LivePending(s) <= 0 {
      forall j | 0 <= j < |s.jobs| ensures s.jobs[j].phase.Settled? {
        IdleQueueHasNoTurn(s, j);
      }
      EnteringIsAlone(s, s.resets[e.reset].ticket);
    }
  }

  lemma SessionResolvedKeepsHold(s: Chat, j: nat)
    requires HoldOk(s) && Enabled(s, SessionResolved(j))
    ensures HoldOk(Next(s, SessionResolved(j)))
  {
    var phase := s.resolvers[s.jobs[j].phase.resolver].phase;
    assert phase.result.Some? ==> WillReturn(s.creations, phase, phase.result.value);
  }

  lemma TurnStepKeepsHold(s: Chat, e: Event)
    requires HoldOk(s) && Enabled(s, e) && (e.RaceEnds? || e.CancelReturns? || e.JobSettles?)
    ensures HoldOk(Next(s, e))
  {}

  lemma StopKeepsHold(s: Chat, cronTurn: bool)
    requires HoldOk(s)
    ensures HoldOk(StopChat(s, cronTurn))
  {}

  lemma EnqueueKeepsHold(s: Chat)
    requires HoldOk(s)
    ensures HoldOk(Enqueue(s))
  {}

  lemma StepKeepsHold(s: Chat, e: Event)
    requires QueueOk(s) && OwnersOk(s) && CreationOk(s) && HoldOk(s) && ResetInv(s.resets, s.sessions)
    requires Enabled(s, e)
    ensures HoldOk(Next(s, e))
  {
    if e.ResetEnters? || e.ResetCreationAwaited? {
      ResetStepKeepsHold(s, e);
    } else if e.BodyStarts? {
      BodyStartsKeepsHold(s, e.job);
    } else if e.GetSession? {
      StartResolveKeepsHold(s, None);
    } else if e.ResolverEnters? {
      ResolverEntersKeepsHold(s, e.resolver);
    } else if TouchesSessions(e) {
      ResolverStepKeepsHold(s, e);
    } else if e.SessionResolved? {
      SessionResolvedKeepsHold(s, e.job);
    } else if e.Stop? {
      StopKeepsHold(s, e.cronTurn);
    } else if e.MessageArrives? {
      EnqueueKeepsHold(s);
    } else if e.CommandExpanded? {
      EnqueueKeepsHold(s.(commands := s.commands - 1));
    } else if TouchesJobs(e) {
      TurnStepKeepsHold(s, e);
    } else {
      OtherStepsLeaveSessions(s, e);
      OtherStepsLeaveJobs(s, e);
    }
  }

  // ---------------------------------------------------------------- all runs

  lemma StepKeepsInv(s: Chat, e: Event)
    requires Inv(s) && Enabled(s, e)
    ensures Inv(Next(s, e))
  {
    StepKeepsQueue(s, e);
    StepKeepsActive(s, e);
    StepKeepsOwners(s, e);
    StepKeepsCreation(s, e);
    StepKeepsReset(s, e);
    StepKeepsHold(s, e);
    StepKeepsNumbers(s, e);
  }

  lemma InitialInv()
    ensures Inv(INITIAL)
  {}

  lemma RunStepKeepsInv(chats: seq<Chat>, events: seq<Event>, n: nat, next: nat)
    requires IsRun(chats, events) && n < |events| && next == n + 1 && Inv(chats[n])
    ensures Inv(chats[next])
  {
    assert StepAt(chats, events, n);
    StepKeepsInv(chats[n], events[n]);
  }

  /** The invariant holds in every state of every run. */
  lemma {:induction false} RunKeepsInv(chats: seq<Chat>, events: seq<Event>, n: nat)
    requires IsRunFromStart(chats, events) && n <= |events|
    ensures Inv(chats[n])
  {
    if n == 0 {
      InitialInv();
    } else {
      RunKeepsInv(chats, events, n - 1);
      RunStepKeepsInv(chats, events, n - 1, n);
    }
  }
}
