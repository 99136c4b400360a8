/**
 One chat of the line session driver as a step machine: every synchronous stretch
 of `submit`, `runTurn`, `resolveSession`, `createSessionFor`, `resetSession` and
 `stopActiveTurn` is one event, every `await` is a place where any other enabled
 event may come in between. Promises are named by their position in a log (jobs,
 resolvers, creations, resets, lock tickets), which only grows.

 All maps of the driver are keyed by the chat, so chats do not interact; the class
 in SessionDriver.dfy keeps the maps and proves that.
 */
module SessionProtocol {
  import opened Wrappers
  import opened LifecycleLock

  const MAX_QUEUE_PER_SESSION := 3

  // ---------------------------------------------------------------- state

  datatype Outcome =
    | Answered          // the turn ended and its text (or failure) is the reply
    | TimedOut          // the deadline, or a prompt failure without an end event
    | StoppedSilently   // `/stop` interrupted the registered turn
    | DroppedSilently   // `/stop` came while the job waited in the queue
    | Failed            // `runTurn` threw

  datatype Phase =
    | Queued
    | Resolving(resolver: nat)
    | Racing(session: nat, stopRequested: bool)
    | Cancelling(session: nat, silent: bool)
    | BodyDone(outcome: Outcome)
    | Settled(outcome: Outcome)
  {
    /** The `then` callback of the job has started and not returned. */
    predicate InBody() { Resolving? || Racing? || Cancelling? }

    /** The job's own promise has resolved. */
    predicate Done() { BodyDone? || Settled? }

    /** The turn holds a session and is registered for `/stop`. */
    predicate Executing() { Racing? || Cancelling? }
  }

  /** `prev` is the chain the job was hung on: `None` stands for `Promise.resolve()`. */
  datatype Job = Job(queue: nat, prev: Option<nat>, epoch: nat, phase: Phase)

  /** A `SessionQueue` object; `chain` names the job whose settled promise it holds. */
  datatype Queue = Queue(chain: Option<nat>, pending: int)

  datatype CreationStage =
    | Building                    // inside `getOrCreateSession`
    | Installed(session: nat)     // in the `sessions` map, inside `applyChannelPrompt`
    | Succeeded(session: nat)
    | Rejected
  {
    predicate Finished() { Succeeded? || Rejected? }
  }

  datatype Creation = Creation(maker: nat, stage: CreationStage)

  /** One call of `resolveSession`; `None` as a result is a rejected promise. */
  datatype ResolverPhase =
    | AwaitingCreation(creation: nat)
    | AwaitingLock(ticket: nat)
    | Creating(ticket: nat, creation: nat)
    | Leaving(ticket: nat, result: Option<nat>)
    | Returned(result: Option<nat>)

  /** `job` is the turn that called; bridge commands call without one. */
  datatype Resolver = Resolver(job: Option<nat>, phase: ResolverPhase)

  /** One call of `resetSession`. */
  datatype Reset =
    | AwaitingChain(queue: nat, chain: Option<nat>)
    | AwaitingResetLock(ticket: nat)
    | AwaitingInFlight(ticket: nat, creation: nat)
    | Closing(ticket: nat, session: nat)
    | Deleting(ticket: nat)
    | LeavingLock(ticket: nat)
    | Ending
    | Ended
  {
    /** From taking the session out of the map until `deleteSession` has returned. */
    predicate Destroying() { Closing? || Deleting? }
  }

  datatype Owner = ByResolver(resolver: nat) | ByReset(reset: nat)

  datatype Chat = Chat(
    jobs: seq<Job>,                  // accepted submissions, oldest first
    queues: seq<Queue>,              // every queue object ever made
    current: Option<nat>,            // `queues.get(key)`
    commands: nat,                   // submissions inside `runCommand`
    stopEpoch: nat,
    activeTurn: Option<nat>,         // `activeTurns.get(key)`
    sessions: Option<nat>,           // `sessions.get(key)`
    sessionCreations: Option<nat>,   // `sessionCreations.get(key)`
    creations: seq<Creation>,
    nextSession: nat,                // session objects are numbered in the order they appear
    closed: set<nat>,                // sessions some reset has taken away to close
    lock: Lock<Owner>,
    resolvers: seq<Resolver>,
    resets: seq<Reset>,
    resetting: bool)                 // `resetting.has(key)`

  const INITIAL: Chat :=
    Chat([], [], None, 0, 0, None, None, None, [], 0, {}, Lock([], None), [], [], false)

  // ---------------------------------------------------------------- events

  datatype Event =
    | MessageArrives                          // `submit` of a message that is no command
    | CommandArrives                          // `submit` up to `await this.runCommand`
    | CommandAnswered                         // the command replied; no turn
    | CommandExpanded                         // the command became a prompt; the rest of `submit`
    | BodyStarts(job: nat)
    | SessionResolved(job: nat)               // `await this.resolveSession` returns in `runTurn`
    | RaceEnds(job: nat, ended: bool)         // the race settles; `ended` = an end event was seen
    | CancelReturns(job: nat)
    | JobSettles(job: nat)                    // the `finally` of `submit`
    | Stop(cronTurn: bool)                    // `stopActiveTurn`; `cronTurn`: a scheduled turn runs
    | GetSession                              // a bridge command calls `resolveSession`
    | CreationAwaited(resolver: nat)
    | ResolverEnters(resolver: nat)
    | SessionBuilt(resolver: nat, ok: bool)   // `getOrCreateSession` settles
    | CreationSettles(resolver: nat, ok: bool)// `applyChannelPrompt` settles
    | ResolverLeaves(resolver: nat)
    | ResetBegins
    | ResetChainDone(reset: nat)
    | ResetEnters(reset: nat)
    | ResetCreationAwaited(reset: nat)
    | ResetClosed(reset: nat)
    | ResetDeleted(reset: nat)                // `deleteSession` returned
    | ResetLeaves(reset: nat)
    | ResetEnds(reset: nat)

  predicate Enabled(s: Chat, e: Event) {
    match e
    case MessageArrives => true
    case CommandArrives => true
    case CommandAnswered => s.commands > 0
    case CommandExpanded => s.commands > 0
    case BodyStarts(j) => j < |s.jobs| && s.jobs[j].phase.Queued? && ChainResolved(s.jobs, s.jobs[j].prev)
    case SessionResolved(j) =>
      && j < |s.jobs| && s.jobs[j].phase.Resolving?
      && s.jobs[j].phase.resolver < |s.resolvers| && s.resolvers[s.jobs[j].phase.resolver].phase.Returned?
    case RaceEnds(j, ended) => j < |s.jobs| && s.jobs[j].phase.Racing?
    case CancelReturns(j) => j < |s.jobs| && s.jobs[j].phase.Cancelling?
    case JobSettles(j) => j < |s.jobs| && s.jobs[j].phase.BodyDone? && s.jobs[j].queue < |s.queues|
    case Stop(_) => true
    case GetSession => true
    case CreationAwaited(r) =>
      && r < |s.resolvers| && s.resolvers[r].phase.AwaitingCreation?
      && s.resolvers[r].phase.creation < |s.creations|
      && s.creations[s.resolvers[r].phase.creation].stage.Finished()
    case ResolverEnters(r) =>
      r < |s.resolvers| && s.resolvers[r].phase.AwaitingLock? && MayEnter(s.lock, s.resolvers[r].phase.ticket)
    case SessionBuilt(r, ok) =>
      && r < |s.resolvers| && s.resolvers[r].phase.Creating? && s.resolvers[r].phase.creation < |s.creations|
      && s.creations[s.resolvers[r].phase.creation].stage.Building?
    case CreationSettles(r, ok) =>
      && r < |s.resolvers| && s.resolvers[r].phase.Creating? && s.resolvers[r].phase.creation < |s.creations|
      && s.creations[s.resolvers[r].phase.creation].stage.Installed?
    case ResolverLeaves(r) =>
      r < |s.resolvers| && s.resolvers[r].phase.Leaving? && Holds(s.lock, s.resolvers[r].phase.ticket)
    case ResetBegins => true
    case ResetChainDone(k) =>
      && k < |s.resets| && s.resets[k].AwaitingChain? && s.resets[k].queue < |s.queues|
      && ChainResolved(s.jobs, s.resets[k].chain)
    case ResetEnters(k) =>
      k < |s.resets| && s.resets[k].AwaitingResetLock? && MayEnter(s.lock, s.resets[k].ticket)
    case ResetCreationAwaited(k) =>
      && k < |s.resets| && s.resets[k].AwaitingInFlight? && s.resets[k].creation < |s.creations|
      && s.creations[s.resets[k].creation].stage.Finished()
    case ResetClosed(k) => k < |s.resets| && s.resets[k].Closing?
    case ResetDeleted(k) => k < |s.resets| && s.resets[k].Deleting?
    case ResetLeaves(k) => k < |s.resets| && s.resets[k].LeavingLock? && Holds(s.lock, s.resets[k].ticket)
    case ResetEnds(k) => k < |s.resets| && s.resets[k].Ending?
  }

  predicate ChainResolved(jobs: seq<Job>, chain: Option<nat>) {
    chain.Some? ==> chain.value < |jobs| && jobs[chain.value].phase.Done()
  }

  /** `this.queues.get(key)?.pending ?? 0` */
  function LivePending(s: Chat): int {
    if s.current.Some? && s.current.value < |s.queues| then s.queues[s.current.value].pending else 0
  }

  function Next(s: Chat, e: Event): Chat
    requires Enabled(s, e)
  {
    match e
    case MessageArrives => if s.resetting then s else Enqueue(s)
    case CommandArrives => if s.resetting then s else s.(commands := s.commands + 1)
    case CommandAnswered => s.(commands := s.commands - 1)
    case CommandExpanded => Enqueue(s.(commands := s.commands - 1))
    case BodyStarts(j) =>
      if s.stopEpoch != s.jobs[j].epoch then WithPhase(s, j, BodyDone(DroppedSilently))
      else WithPhase(StartResolve(s, Some(j)), j, Resolving(|s.resolvers|))
    case SessionResolved(j) =>
      (match s.resolvers[s.jobs[j].phase.resolver].phase.result
       case Some(x) => WithPhase(s, j, Racing(x, false)).(activeTurn := Some(j))
       case None => WithPhase(s, j, BodyDone(Failed)))
    case RaceEnds(j, ended) =>
      var p := s.jobs[j].phase;
      if p.stopRequested then WithPhase(s, j, Cancelling(p.session, true))
      else if !ended then WithPhase(s, j, Cancelling(p.session, false))
      else Unregister(WithPhase(s, j, BodyDone(Answered)), j)
    case CancelReturns(j) =>
      Unregister(WithPhase(s, j, BodyDone(if s.jobs[j].phase.silent then StoppedSilently else TimedOut)), j)
    case JobSettles(j) => SettleJob(s, j)
    case Stop(cronTurn) => StopChat(s, cronTurn)
    case GetSession => StartResolve(s, None)
    case CreationAwaited(r) =>
      var stage := s.creations[s.resolvers[r].phase.creation].stage;
      WithResolver(s, r, Returned(if stage.Succeeded? then Some(stage.session) else None))
    case ResolverEnters(r) => EnterAndCreate(s, r)
    case SessionBuilt(r, ok) => InstallOrFail(s, r, ok)
    case CreationSettles(r, ok) =>
      var phase := s.resolvers[r].phase;
      var x := s.creations[phase.creation].stage.session;
      WithResolver(WithCreation(s, phase.creation, if ok then Succeeded(x) else Rejected).(sessionCreations := None),
                   r, Leaving(phase.ticket, if ok then Some(x) else None))
    case ResolverLeaves(r) =>
      var phase := s.resolvers[r].phase;
      WithResolver(s.(lock := Release(s.lock, phase.ticket)), r, Returned(phase.result))
    case ResetBegins => BeginReset(s)
    case ResetChainDone(k) =>
      if s.queues[s.resets[k].queue].pending > 0 then WithReset(s, k, Ended).(resetting := false)
      else WithReset(s.(lock := Request(s.lock, ByReset(k))), k, AwaitingResetLock(|s.lock.tickets|))
    case ResetEnters(k) => EnterReset(s, k)
    case ResetCreationAwaited(k) => TakeSession(s, k, s.resets[k].ticket)
    case ResetClosed(k) => WithReset(s, k, Deleting(s.resets[k].ticket))
    case ResetDeleted(k) => WithReset(s, k, LeavingLock(s.resets[k].ticket))
    case ResetLeaves(k) => WithReset(s.(lock := Release(s.lock, s.resets[k].ticket)), k, Ending)
    case ResetEnds(k) => WithReset(s, k, Ended).(resetting := false)
  }

  function WithPhase(s: Chat, j: nat, phase: Phase): Chat
    requires j < |s.jobs|
  {
    s.(jobs := s.jobs[j := s.jobs[j].(phase := phase)])
  }

  function WithResolver(s: Chat, r: nat, phase: ResolverPhase): Chat
    requires r < |s.resolvers|
  {
    s.(resolvers := s.resolvers[r := s.resolvers[r].(phase := phase)])
  }

  function WithCreation(s: Chat, c: nat, stage: CreationStage): Chat
    requires c < |s.creations|
  {
    s.(creations := s.creations[c := s.creations[c].(stage := stage)])
  }

  function WithReset(s: Chat, k: nat, reset: Reset): Chat
    requires k < |s.resets|
  {
    s.(resets := s.resets[k := reset])
  }

  /** The queueing stretch of `submit`: refuse when full, otherwise hang the job on the chain. */
  function Enqueue(s: Chat): Chat {
    var live := s.current.Some? && s.current.value < |s.queues|;
    var q := if live then s.current.value else |s.queues|;
    var queue := if live then s.queues[q] else Queue(None, 0);
    if queue.pending >= MAX_QUEUE_PER_SESSION then s
    else
      var grown := Queue(Some(|s.jobs|), queue.pending + 1);
      s.(jobs := s.jobs + [Job(q, queue.chain, s.stopEpoch, Queued)],
         queues := if live then s.queues[q := grown] else s.queues + [grown],
         current := Some(q))
  }

  function SettleJob(s: Chat, j: nat): Chat
    requires j < |s.jobs| && s.jobs[j].phase.BodyDone? && s.jobs[j].queue < |s.queues|
  {
    var q := s.jobs[j].queue;
    var left := s.queues[q].pending - 1;
    WithPhase(s, j, Settled(s.jobs[j].phase.outcome))
    .(queues := s.queues[q := s.queues[q].(pending := left)],
      current := if left == 0 && s.current == Some(q) then None else s.current)
  }

  function Unregister(s: Chat, j: nat): Chat {
    s.(activeTurn := if s.activeTurn == Some(j) then None else s.activeTurn)
  }

  /** `stopActiveTurn`: nothing to stop leaves the chat as it is. */
  function StopChat(s: Chat, cronTurn: bool): Chat {
    if s.activeTurn.None? && LivePending(s) == 0 && !cronTurn then s
    else
      var bumped := s.(stopEpoch := s.stopEpoch + 1);
      if s.activeTurn.Some? && s.activeTurn.value < |s.jobs| && s.jobs[s.activeTurn.value].phase.Racing?
      then WithPhase(bumped, s.activeTurn.value, Racing(s.jobs[s.activeTurn.value].phase.session, true))
      else bumped
  }

  /** The synchronous start of `resolveSession`. */
  function StartResolve(s: Chat, job: Option<nat>): Chat {
    if s.sessions.Some? then s.(resolvers := s.resolvers + [Resolver(job, Returned(s.sessions))])
    else if s.sessionCreations.Some? then
      s.(resolvers := s.resolvers + [Resolver(job, AwaitingCreation(s.sessionCreations.value))])
    else
      s.(resolvers := s.resolvers + [Resolver(job, AwaitingLock(|s.lock.tickets|))],
         lock := Request(s.lock, ByResolver(|s.resolvers|)))
  }

  /** Inside the lock: re-check the map, otherwise start the one creation. */
  function EnterAndCreate(s: Chat, r: nat): Chat
    requires Enabled(s, ResolverEnters(r))
  {
    var t := s.resolvers[r].phase.ticket;
    var inside := s.(lock := Enter(s.lock, t));
    if s.sessions.Some? then WithResolver(inside, r, Leaving(t, s.sessions))
    else
      WithResolver(inside, r, Creating(t, |s.creations|))
      .(creations := s.creations + [Creation(r, Building)], sessionCreations := Some(|s.creations|))
  }

  function InstallOrFail(s: Chat, r: nat, ok: bool): Chat
    requires Enabled(s, SessionBuilt(r, ok))
  {
    var phase := s.resolvers[r].phase;
    if ok then
      WithCreation(s, phase.creation, Installed(s.nextSession))
      .(sessions := Some(s.nextSession), nextSession := s.nextSession + 1)
    else
      WithResolver(WithCreation(s, phase.creation, Rejected).(sessionCreations := None), r, Leaving(phase.ticket, None))
  }

  function BeginReset(s: Chat): Chat {
    var flagged := s.(resetting := true);
    if s.current.Some? && s.current.value < |s.queues| then
      flagged.(resets := s.resets + [AwaitingChain(s.current.value, s.queues[s.current.value].chain)])
    else
      flagged.(resets := s.resets + [AwaitingResetLock(|s.lock.tickets|)],
               lock := Request(s.lock, ByReset(|s.resets|)))
  }

  /** Inside the lock: re-read the live queue, wait for a creation, then take the session away. */
  function EnterReset(s: Chat, k: nat): Chat
    requires Enabled(s, ResetEnters(k))
  {
    var t := s.resets[k].ticket;
    var inside := s.(lock := Enter(s.lock, t));
    if LivePending(s) > 0 then WithReset(inside, k, LeavingLock(t))
    else if s.sessionCreations.Some? then WithReset(inside, k, AwaitingInFlight(t, s.sessionCreations.value))
    else TakeSession(inside, k, t)
  }

  function TakeSession(s: Chat, k: nat, t: nat): Chat
    requires k < |s.resets|
  {
    match s.sessions
    case None => WithReset(s, k, Deleting(t))
    case Some(x) => WithReset(s, k, Closing(t, x)).(sessions := None, closed := s.closed + {x})
  }

  // ---------------------------------------------------------------- runs

  /** Event i of the run was enabled and led to the next state. */
  ghost predicate StepAt(chats: seq<Chat>, events: seq<Event>, i: nat)
    requires |chats| == |events| + 1 && i < |events|
  {
    Enabled(chats[i], events[i]) && chats[i + 1] == Next(chats[i], events[i])
  }

  /** `chats` is a run under the events `events`: one state more than events. */
  ghost predicate IsRun(chats: seq<Chat>, events: seq<Event>) {
    |chats| == |events| + 1 && forall i: nat | i < |events| :: StepAt(chats, events, i)
  }

  ghost predicate IsRunFromStart(chats: seq<Chat>, events: seq<Event>) {
    IsRun(chats, events) && chats[0] == INITIAL
  }
}
