/**
 The line session driver with its maps, one method per synchronous stretch. Each
 method is proved to take the event of the protocol on its own chat and to leave
 every other chat alone, so the theorems about runs hold for every chat of the
 driver whatever the chats interleave. One event has no method: a reset that waits
 for a creation, which `NoResetAwaitsCreation` shows never happens.
 */
module SessionDriver {
  import opened Wrappers
  import opened LifecycleLock
  import opened SessionProtocol
  import opened SessionSafety

  /** The promises and queue objects of one chat that are still referenced from somewhere. */
  datatype Promises = Promises(
    jobs: seq<Job>, queueObjects: seq<Queue>, commands: nat, creations: seq<Creation>, nextSession: nat,
    closed: set<nat>, tickets: seq<Ticket<Owner>>, resolvers: seq<Resolver>, resets: seq<Reset>)

  const NOTHING := Promises([], [], 0, [], 0, {}, [], [], [])

  function Get<K(==), V>(m: map<K, V>, k: K): Option<V> {
    if k in m then Some(m[k]) else None
  }

  class LineSessionDriver {
    var queues: map<string, nat>
    var sessions: map<string, nat>
    var sessionCreations: map<string, nat>
    var lifecycleLocks: map<string, nat>
    var activeTurns: map<string, nat>
    var stopEpoch: map<string, nat>
    var resetting: set<string>
    var promises: map<string, Promises>

    function PromisesOf(key: string): Promises
      reads this
    {
      if key in promises then promises[key] else NOTHING
    }

    /** The protocol state of one chat. */
    function ChatOf(key: string): Chat
      reads this
    {
      var p := PromisesOf(key);
      Chat(p.jobs, p.queueObjects, Get(queues, key), p.commands,
           if key in stopEpoch then stopEpoch[key] else 0,
           Get(activeTurns, key), Get(sessions, key), Get(sessionCreations, key),
           p.creations, p.nextSession, p.closed, Lock(p.tickets, Get(lifecycleLocks, key)),
           p.resolvers, p.resets, key in resetting)
    }

    ghost predicate Valid()
      reads this
    {
      forall key {:trigger Inv(ChatOf(key))} :: Inv(ChatOf(key))
    }

    /** The chat `key` took event `e`; no other chat changed. */
    twostate predicate Took(key: string, e: Event)
      reads this
    {
      && Enabled(old(ChatOf(key)), e)
      && ChatOf(key) == Next(old(ChatOf(key)), e)
      && forall k :: k != key ==> ChatOf(k) == old(ChatOf(k))
    }

    /** Hence every method below keeps the invariant of every chat. */
    twostate lemma TookKeepsValid(key: string, e: Event)
      requires old(Valid()) && Took(key, e)
      ensures Valid()
    {
      assert Inv(old(ChatOf(key)));
      StepKeepsInv(old(ChatOf(key)), e);
      forall k ensures Inv(ChatOf(k)) {
        assert Inv(old(ChatOf(k)));
      }
    }

    lemma PendingIsUnsettled(key: string)
      requires Valid()
      ensures LivePending(ChatOf(key)) == Unsettled(ChatOf(key).jobs)
      ensures Unsettled(ChatOf(key).jobs) == 0 ==> ChatOf(key).activeTurn.None?
    {
      assert Inv(ChatOf(key));
      UnsettledZero(ChatOf(key).jobs);
    }

    /** What a reset finds when it gets the lock. */
    lemma FactsInsideLock(key: string, k: nat)
      requires Valid() && Enabled(ChatOf(key), ResetEnters(k))
      ensures ChatOf(key).sessionCreations.None?
      ensures LivePending(ChatOf(key)) == Unsettled(ChatOf(key).jobs)
      ensures LivePending(ChatOf(key)) == 0 ==>
                forall j | 0 <= j < |ChatOf(key).jobs| :: !ChatOf(key).jobs[j].phase.Executing()
    {
      assert Inv(ChatOf(key));
      UnsettledZero(ChatOf(key).jobs);
      EnteringIsAlone(ChatOf(key), ChatOf(key).resets[k].ticket);
    }

    /** What a creation finds when its session is there. */
    lemma EntryIsEmpty(key: string, r: nat)
      requires Valid() && Enabled(ChatOf(key), SessionBuilt(r, true))
      ensures key !in sessions
    {
      assert Inv(ChatOf(key));
      SessionBuiltFindsNone(ChatOf(key), r);
    }

    constructor ()
      ensures Valid()
      ensures forall key :: ChatOf(key) == INITIAL
    {
      queues, sessions, sessionCreations, lifecycleLocks := map[], map[], map[], map[];
      activeTurns, stopEpoch, resetting, promises := map[], map[], {}, map[];
      new;
      InitialInv();
    }

    /** `submit` of a plain message: the reset guard and the queueing stretch. */
    method Submit(key: string) returns (accepted: bool, waitingBehind: int)
      requires Valid()
      modifies this
      ensures Took(key, MessageArrives)
      ensures accepted <==> key !in old(resetting) && Unsettled(old(ChatOf(key)).jobs) < MAX_QUEUE_PER_SESSION
      ensures accepted ==> waitingBehind == Unsettled(old(ChatOf(key)).jobs)
    {
      PendingIsUnsettled(key);
      accepted, waitingBehind := EnqueueJob(key, key in resetting);
    }

    /** `submit` after `runCommand`: nothing re-reads the `resetting` flag here. */
    method SubmitExpanded(key: string) returns (accepted: bool, waitingBehind: int)
      requires Valid() && PromisesOf(key).commands > 0
      modifies this
      ensures Took(key, CommandExpanded)
      ensures accepted <==> Unsettled(old(ChatOf(key)).jobs) < MAX_QUEUE_PER_SESSION
      ensures accepted ==> waitingBehind == Unsettled(old(ChatOf(key)).jobs)
    {
      PendingIsUnsettled(key);
      AnswerCommand(key);
      accepted, waitingBehind := EnqueueJob(key, false);
    }

    /** `submit` of a command: the reset guard, up to `await this.runCommand`. */
    method ReceiveCommand(key: string) returns (refused: bool)
      modifies this`promises
      ensures Took(key, CommandArrives)
      ensures refused <==> key in resetting
    {
      refused := key in resetting;
      if !refused {
        var p := PromisesOf(key);
        promises := promises[key := p.(commands := p.commands + 1)];
      }
    }

    /** The command was answered by the bridge. */
    method AnswerCommand(key: string)
      requires Enabled(ChatOf(key), CommandAnswered)
      modifies this`promises
      ensures Took(key, CommandAnswered)
    {
      var p := PromisesOf(key);
      promises := promises[key := p.(commands := p.commands - 1)];
    }

    /** The queueing stretch of `submit`, skipped when the caller's guard refused the message. */
    method EnqueueJob(key: string, refused: bool) returns (accepted: bool, waitingBehind: int)
      modifies this
      ensures ChatOf(key) == if refused then old(ChatOf(key)) else Enqueue(old(ChatOf(key)))
      ensures forall k :: k != key ==> ChatOf(k) == old(ChatOf(k))
      ensures waitingBehind == LivePending(old(ChatOf(key)))
      ensures accepted <==> !refused && waitingBehind < MAX_QUEUE_PER_SESSION
    {
      var p := PromisesOf(key);
      var live := key in queues && queues[key] < |p.queueObjects|;
      var queueId := if live then queues[key] else |p.queueObjects|;
      var queue := if live then p.queueObjects[queueId] else Queue(None, 0);
      waitingBehind := queue.pending;
      accepted := !refused && queue.pending < MAX_QUEUE_PER_SESSION;
      if accepted {
        var grown := Queue(Some(|p.jobs|), queue.pending + 1);
        var epoch := if key in stopEpoch then stopEpoch[key] else 0;
        queues := queues[key := queueId];
        promises := promises[key := p.(
          jobs := p.jobs + [Job(queueId, queue.chain, epoch, Queued)],
          queueObjects := if live then p.queueObjects[queueId := grown] else p.queueObjects + [grown])];
      }
    }

    /** The `finally` of `submit`. */
    method Settle(key: string, j: nat)
      requires Enabled(ChatOf(key), JobSettles(j))
      modifies this`queues, this`promises
      ensures Took(key, JobSettles(j))
    {
      var p := PromisesOf(key);
      var q := p.jobs[j].queue;
      var left := p.queueObjects[q].pending - 1;
      promises := promises[key := p.(
        jobs := p.jobs[j := p.jobs[j].(phase := Settled(p.jobs[j].phase.outcome))],
        queueObjects := p.queueObjects[q := p.queueObjects[q].(pending := left)])];
      if left == 0 && key in queues && queues[key] == q {
        queues := queues - {key};
      }
      forall k | k != key ensures ChatOf(k) == old(ChatOf(k)) {
        assert PromisesOf(k) == old(PromisesOf(k));
      }
    }

    /** `stopActiveTurn`; the answer says whether there was anything to stop. */
    method StopActiveTurn(key: string, cronTurn: bool) returns (stopped: bool)
      requires Valid()
      modifies this`stopEpoch, this`promises
      ensures Took(key, Stop(cronTurn))
      ensures stopped <==> cronTurn || Unsettled(old(ChatOf(key)).jobs) > 0
    {
      PendingIsUnsettled(key);
      var p := PromisesOf(key);
      var pending := if key in queues && queues[key] < |p.queueObjects| then p.queueObjects[queues[key]].pending else 0;
      stopped := key in activeTurns || pending != 0 || cronTurn;
      if stopped {
        stopEpoch := stopEpoch[key := (if key in stopEpoch then stopEpoch[key] else 0) + 1];
        if key in activeTurns && activeTurns[key] < |p.jobs| && p.jobs[activeTurns[key]].phase.Racing? {
          var a := activeTurns[key];
          promises := promises[key := p.(jobs := p.jobs[a := p.jobs[a].(phase := Racing(p.jobs[a].phase.session, true))])];
        }
      }
      forall k | k != key ensures ChatOf(k) == old(ChatOf(k)) {
        assert PromisesOf(k) == old(PromisesOf(k));
      }
    }

    /** The queued callback of `submit`: drop the job when the epoch moved, otherwise start its turn. */
    method StartBody(key: string, j: nat) returns (dropped: bool)
      requires Enabled(ChatOf(key), BodyStarts(j))
      modifies this`lifecycleLocks, this`promises
      ensures Took(key, BodyStarts(j))
      ensures dropped <==> old(ChatOf(key)).jobs[j].epoch != old(ChatOf(key)).stopEpoch
    {
      var p := PromisesOf(key);
      dropped := (if key in stopEpoch then stopEpoch[key] else 0) != p.jobs[j].epoch;
      if dropped {
        promises := promises[key := p.(jobs := p.jobs[j := p.jobs[j].(phase := BodyDone(DroppedSilently))])];
      } else {
        var phase := Returned(None);
        var tickets := p.tickets;
        if key in sessions {
          phase := Returned(Some(sessions[key]));
        } else if key in sessionCreations {
          phase := AwaitingCreation(sessionCreations[key]);
        } else {
          phase := AwaitingLock(|p.tickets|);
          tickets := p.tickets + [Ticket(Get(lifecycleLocks, key), Waiting, ByResolver(|p.resolvers|))];
          lifecycleLocks := lifecycleLocks[key := |p.tickets|];
        }
        promises := promises[key := p.(
          jobs := p.jobs[j := p.jobs[j].(phase := Resolving(|p.resolvers|))],
          resolvers := p.resolvers + [Resolver(Some(j), phase)],
          tickets := tickets)];
      }
    }

    /** `runTurn` after `await this.resolveSession`: register the turn and start the race. */
    method RegisterTurn(key: string, j: nat)
      requires Enabled(ChatOf(key), SessionResolved(j))
      modifies this`activeTurns, this`promises
      ensures Took(key, SessionResolved(j))
    {
      var p := PromisesOf(key);
      match p.resolvers[p.jobs[j].phase.resolver].phase.result {
        case Some(x) =>
          promises := promises[key := p.(jobs := p.jobs[j := p.jobs[j].(phase := Racing(x, false))])];
          activeTurns := activeTurns[key := j];
        case None =>
          promises := promises[key := p.(jobs := p.jobs[j := p.jobs[j].(phase := BodyDone(Failed))])];
      }
    }

    /** `runTurn` behind its race: cancel when `/stop` or the deadline won, otherwise reply and unregister. */
    method EndRace(key: string, j: nat, ended: bool)
      requires Enabled(ChatOf(key), RaceEnds(j, ended))
      modifies this`activeTurns, this`promises
      ensures Took(key, RaceEnds(j, ended))
    {
      var p := PromisesOf(key);
      var phase := p.jobs[j].phase;
      if phase.stopRequested {
        promises := promises[key := p.(jobs := p.jobs[j := p.jobs[j].(phase := Cancelling(phase.session, true))])];
      } else if !ended {
        promises := promises[key := p.(jobs := p.jobs[j := p.jobs[j].(phase := Cancelling(phase.session, false))])];
      } else {
        promises := promises[key := p.(jobs := p.jobs[j := p.jobs[j].(phase := BodyDone(Answered))])];
        if key in activeTurns && activeTurns[key] == j {
          activeTurns := activeTurns - {key};
        }
      }
    }

    /** `runTurn` behind `await session.cancel`. */
    method CancelReturned(key: string, j: nat)
      requires Enabled(ChatOf(key), CancelReturns(j))
      modifies this`activeTurns, this`promises
      ensures Took(key, CancelReturns(j))
    {
      var p := PromisesOf(key);
      var outcome := if p.jobs[j].phase.silent then StoppedSilently else TimedOut;
      promises := promises[key := p.(jobs := p.jobs[j := p.jobs[j].(phase := BodyDone(outcome))])];
      if key in activeTurns && activeTurns[key] == j {
        activeTurns := activeTurns - {key};
      }
    }

    /** The synchronous start of `resolveSession`, called by a bridge command. */
    method ResolveForCommand(key: string)
      modifies this`lifecycleLocks, this`promises
      ensures Took(key, GetSession)
    {
      var p := PromisesOf(key);
      var phase := Returned(None);
      if key in sessions {
        phase := Returned(Some(sessions[key]));
      } else if key in sessionCreations {
        phase := AwaitingCreation(sessionCreations[key]);
      } else {
        phase := AwaitingLock(|p.tickets|);
        p := p.(tickets := p.tickets + [Ticket(Get(lifecycleLocks, key), Waiting, ByResolver(|p.resolvers|))]);
        lifecycleLocks := lifecycleLocks[key := |p.tickets| - 1];
      }
      promises := promises[key := p.(resolvers := p.resolvers + [Resolver(None, phase)])];
    }

    /** `resolveSession` inside the lock: re-check the map, otherwise start a creation and publish it. */
    method ResolveInsideLock(key: string, r: nat)
      requires Enabled(ChatOf(key), ResolverEnters(r))
      modifies this`sessionCreations, this`promises
      ensures Took(key, ResolverEnters(r))
    {
      var p := PromisesOf(key);
      var t := p.resolvers[r].phase.ticket;
      p := p.(tickets := p.tickets[t := p.tickets[t].(stage := Holding)]);
      if key in sessions {
        p := p.(resolvers := p.resolvers[r := p.resolvers[r].(phase := Leaving(t, Some(sessions[key])))]);
      } else {
        sessionCreations := sessionCreations[key := |p.creations|];
        p := p.(resolvers := p.resolvers[r := p.resolvers[r].(phase := Creating(t, |p.creations|))],
                creations := p.creations + [Creation(r, Building)]);
      }
      promises := promises[key := p];
    }

    /** `resolveSession` behind the creation of another call: its session, or its rejection. */
    method ReturnAwaitedCreation(key: string, r: nat)
      requires Enabled(ChatOf(key), CreationAwaited(r))
      modifies this`promises
      ensures Took(key, CreationAwaited(r))
    {
      var p := PromisesOf(key);
      var stage := p.creations[p.resolvers[r].phase.creation].stage;
      var result := if stage.Succeeded? then Some(stage.session) else None;
      promises := promises[key := p.(resolvers := p.resolvers[r := p.resolvers[r].(phase := Returned(result))])];
    }

    /** `getOrCreateSession` failed: the creation leaves its map, and the call goes on to leave the lock. */
    method FailCreation(key: string, r: nat)
      requires Enabled(ChatOf(key), SessionBuilt(r, false))
      modifies this`sessionCreations, this`promises
      ensures Took(key, SessionBuilt(r, false))
    {
      var p := PromisesOf(key);
      var phase := p.resolvers[r].phase;
      sessionCreations := sessionCreations - {key};
      promises := promises[key := p.(
        creations := p.creations[phase.creation := p.creations[phase.creation].(stage := Rejected)],
        resolvers := p.resolvers[r := p.resolvers[r].(phase := Leaving(phase.ticket, None))])];
    }

    /** `createSessionFor` after `getOrCreateSession` returned a session: it always fills an empty entry. */
    method InstallSession(key: string, r: nat) returns (session: nat)
      requires Valid() && Enabled(ChatOf(key), SessionBuilt(r, true))
      modifies this`sessions, this`promises
      ensures Took(key, SessionBuilt(r, true))
      ensures old(key !in sessions) && key in sessions && sessions[key] == session
    {
      var p := PromisesOf(key);
      var c := p.resolvers[r].phase.creation;
      session := p.nextSession;
      EntryIsEmpty(key, r);
      sessions := sessions[key := session];
      promises := promises[key := p.(creations := p.creations[c := p.creations[c].(stage := Installed(session))],
                                     nextSession := session + 1)];
      forall k | k != key ensures ChatOf(k) == old(ChatOf(k)) {
        assert PromisesOf(k) == old(PromisesOf(k));
      }
    }

    /** The end of a creation: drop it from the map and hand its result to its maker. */
    method SettleCreation(key: string, r: nat, ok: bool)
      requires Enabled(ChatOf(key), CreationSettles(r, ok))
      modifies this`sessionCreations, this`promises
      ensures Took(key, CreationSettles(r, ok))
    {
      var p := PromisesOf(key);
      var phase := p.resolvers[r].phase;
      var x := p.creations[phase.creation].stage.session;
      sessionCreations := sessionCreations - {key};
      promises := promises[key := p.(
        creations := p.creations[phase.creation := p.creations[phase.creation].(stage := if ok then Succeeded(x) else Rejected)],
        resolvers := p.resolvers[r := p.resolvers[r].(phase := Leaving(phase.ticket, if ok then Some(x) else None))])];
    }

    /** The `finally` of `withLifecycleLock` for a resolver: open the gate, drop the entry if it is still ours. */
    method LeaveLock(key: string, r: nat)
      requires Enabled(ChatOf(key), ResolverLeaves(r))
      modifies this`lifecycleLocks, this`promises
      ensures Took(key, ResolverLeaves(r))
    {
      var p := PromisesOf(key);
      var phase := p.resolvers[r].phase;
      if key in lifecycleLocks && lifecycleLocks[key] == phase.ticket {
        lifecycleLocks := lifecycleLocks - {key};
      }
      promises := promises[key := p.(
        tickets := p.tickets[phase.ticket := p.tickets[phase.ticket].(stage := Released)],
        resolvers := p.resolvers[r := p.resolvers[r].(phase := Returned(phase.result))])];
    }

    /** `resetSession` up to its first `await`. */
    method BeginResetSession(key: string)
      modifies this
      ensures Took(key, ResetBegins)
    {
      if key in queues && queues[key] < |PromisesOf(key).queueObjects| {
        AwaitQueueForReset(key);
      } else {
        RequestLockForReset(key);
      }
    }

    /** There is a queue object: wait for its chain. */
    method AwaitQueueForReset(key: string)
      requires key in queues && queues[key] < |PromisesOf(key).queueObjects|
      modifies this
      ensures Took(key, ResetBegins)
    {
      var p := PromisesOf(key);
      resetting := resetting + {key};
      promises := promises[key := p.(
        resets := p.resets + [AwaitingChain(queues[key], p.queueObjects[queues[key]].chain)])];
      forall k | k != key ensures ChatOf(k) == old(ChatOf(k)) {
        assert PromisesOf(k) == old(PromisesOf(k));
      }
    }

    /** There is none: ask for the lock at once. */
    method RequestLockForReset(key: string)
      requires !(key in queues && queues[key] < |PromisesOf(key).queueObjects|)
      modifies this
      ensures Took(key, ResetBegins)
    {
      ghost var before := ChatOf(key);
      var p := PromisesOf(key);
      var ticket := Ticket(Get(lifecycleLocks, key), Waiting, ByReset(|p.resets|));
      var waiting := AwaitingResetLock(|p.tickets|);
      resetting := resetting + {key};
      lifecycleLocks := lifecycleLocks[key := |p.tickets|];
      promises := promises[key := p.(tickets := p.tickets + [ticket], resets := p.resets + [waiting])];
      assert ChatOf(key).lock == Request(before.lock, ByReset(|before.resets|));
      forall k | k != key ensures ChatOf(k) == old(ChatOf(k)) {
        assert PromisesOf(k) == old(PromisesOf(k));
      }
    }

    /** `resetSession` behind the queue's chain: give up when the queue object is busy again, otherwise ask for the lock. */
    method CheckQueueBehindChain(key: string, k: nat) returns (refused: bool)
      requires Enabled(ChatOf(key), ResetChainDone(k))
      modifies this`resetting, this`lifecycleLocks, this`promises
      ensures Took(key, ResetChainDone(k))
      ensures refused <==> old(ChatOf(key)).queues[old(ChatOf(key)).resets[k].queue].pending > 0
    {
      var p := PromisesOf(key);
      refused := p.queueObjects[p.resets[k].queue].pending > 0;
      if refused {
        resetting := resetting - {key};
        p := p.(resets := p.resets[k := Ended]);
      } else {
        var ticket := Ticket(Get(lifecycleLocks, key), Waiting, ByReset(k));
        lifecycleLocks := lifecycleLocks[key := |p.tickets|];
        p := p.(tickets := p.tickets + [ticket], resets := p.resets[k := AwaitingResetLock(|p.tickets|)]);
      }
      promises := promises[key := p];
      forall k | k != key ensures ChatOf(k) == old(ChatOf(k)) {
        assert PromisesOf(k) == old(PromisesOf(k));
      }
    }

    /**
     `resetSession` inside the lock: refuse when a job was accepted meanwhile, otherwise
     take the session out of the map. No turn holds the session that is taken, and no
     creation can be in flight.
     */
    method TakeSessionInsideLock(key: string, k: nat) returns (taken: Option<nat>)
      requires Valid() && Enabled(ChatOf(key), ResetEnters(k))
      modifies this`sessions, this`promises
      ensures Took(key, ResetEnters(k))
      ensures Unsettled(old(ChatOf(key)).jobs) > 0 ==> taken.None? && sessions == old(sessions)
      ensures Unsettled(old(ChatOf(key)).jobs) == 0 ==> taken == old(Get(sessions, key)) && key !in sessions
      ensures taken.Some? ==> forall j | 0 <= j < |ChatOf(key).jobs| :: !ChatOf(key).jobs[j].phase.Executing()
    {
      var p := PromisesOf(key);
      FactsInsideLock(key, k);
      var t := p.resets[k].ticket;
      p := p.(tickets := p.tickets[t := p.tickets[t].(stage := Holding)]);
      var pending := if key in queues && queues[key] < |p.queueObjects| then p.queueObjects[queues[key]].pending else 0;
      taken := None;
      if pending > 0 {
        p := p.(resets := p.resets[k := LeavingLock(t)]);
      } else if key in sessions {
        taken := Some(sessions[key]);
        p := p.(resets := p.resets[k := Closing(t, sessions[key])], closed := p.closed + {sessions[key]});
        sessions := sessions - {key};
      } else {
        p := p.(resets := p.resets[k := Deleting(t)]);
      }
      promises := promises[key := p];
      forall k | k != key ensures ChatOf(k) == old(ChatOf(k)) {
        assert PromisesOf(k) == old(PromisesOf(k));
      }
    }

    /** The old session is closed; `deleteSession` is next. */
    method SessionClosed(key: string, k: nat)
      requires Enabled(ChatOf(key), ResetClosed(k))
      modifies this`promises
      ensures Took(key, ResetClosed(k))
    {
      var p := PromisesOf(key);
      promises := promises[key := p.(resets := p.resets[k := Deleting(p.resets[k].ticket)])];
    }

    /** `deleteSession` returned. */
    method SessionDeleted(key: string, k: nat)
      requires Enabled(ChatOf(key), ResetDeleted(k))
      modifies this`promises
      ensures Took(key, ResetDeleted(k))
    {
      var p := PromisesOf(key);
      promises := promises[key := p.(resets := p.resets[k := LeavingLock(p.resets[k].ticket)])];
    }

    /** The `finally` of `withLifecycleLock` for a reset. */
    method LeaveResetLock(key: string, k: nat)
      requires Enabled(ChatOf(key), ResetLeaves(k))
      modifies this`lifecycleLocks, this`promises
      ensures Took(key, ResetLeaves(k))
    {
      var p := PromisesOf(key);
      var t := p.resets[k].ticket;
      if key in lifecycleLocks && lifecycleLocks[key] == t {
        lifecycleLocks := lifecycleLocks - {key};
      }
      promises := promises[key := p.(
        tickets := p.tickets[t := p.tickets[t].(stage := Released)],
        resets := p.resets[k := Ending])];
    }

    /** The outer `finally` of `resetSession`. */
    method EndResetSession(key: string, k: nat)
      requires Enabled(ChatOf(key), ResetEnds(k))
      modifies this`resetting, this`promises
      ensures Took(key, ResetEnds(k))
    {
      var p := PromisesOf(key);
      resetting := resetting - {key};
      promises := promises[key := p.(resets := p.resets[k := Ended])];
    }
  }

  /** A reset inside the lock never finds a creation to wait for, so that wait is the one event without a method. */
  lemma NoResetAwaitsCreation(s: Chat, k: nat)
    requires Inv(s)
    ensures !Enabled(s, ResetCreationAwaited(k))
  {}

  lemma SessionBuiltFindsNone(s: Chat, r: nat)
    requires Inv(s) && Enabled(s, SessionBuilt(r, true))
    ensures s.sessions.None?
  {}
}
