/** What a call of `resolveSession` waits for: nothing, the creation under way, or the lock. */
module SessionShares {
  import opened Wrappers
  import opened LifecycleLock
  import opened SessionProtocol
  import opened SessionSafety
  import opened SessionOutcomes

  /** The step makes resolver r. */
  ghost predicate Calls(s: Chat, e: Event, r: nat)
    requires Enabled(s, e)
  {
    r == |s.resolvers| && r < |Next(s, e).resolvers|
  }

  /** A call shares creation c: it waits for it, or has returned what came of it. */
  ghost predicate Shares(s: Chat, r: nat, c: nat) {
    && r < |s.resolvers| && c < |s.creations|
    && match s.resolvers[r].phase
       case AwaitingCreation(d) => d == c
       case Returned(result) => s.creations[c].stage == (if result.Some? then Succeeded(result.value) else Rejected)
       case _ => false
  }

  lemma OthersCallNothing(s: Chat, e: Event)
    requires Enabled(s, e) && !e.GetSession? && !e.BodyStarts?
    ensures |Next(s, e).resolvers| == |s.resolvers|
  {}

  /** The step that calls does what `StartResolve` says. */
  lemma CallIsStart(s: Chat, e: Event, r: nat) returns (job: Option<nat>)
    requires Enabled(s, e) && Calls(s, e, r)
    ensures Next(s, e).resolvers == StartResolve(s, job).resolvers && Next(s, e).creations == s.creations
  {
    if e.GetSession? {
      job := None;
    } else if e.BodyStarts? {
      job := Some(e.job);
    } else {
      OthersCallNothing(s, e);
      assert false;
    }
  }

  /** A session in the map is returned at once; otherwise a creation under way is shared; only without either is the lock asked for. */
  lemma CallStarts(s: Chat, e: Event, r: nat)
    requires Enabled(s, e) && Calls(s, e, r) && (s.sessionCreations.Some? ==> s.sessionCreations.value < |s.creations|)
    ensures s.sessions.Some? ==> Next(s, e).resolvers[r].phase == Returned(s.sessions)
    ensures s.sessions.None? && s.sessionCreations.Some? ==> Shares(Next(s, e), r, s.sessionCreations.value)
    ensures s.sessions.None? && s.sessionCreations.None? ==> Next(s, e).resolvers[r].phase.AwaitingLock?
  {
    var job := CallIsStart(s, e, r);
  }

  lemma CreationInFlight(s: Chat)
    requires Inv(s)
    ensures s.sessionCreations.Some? ==> s.sessionCreations.value < |s.creations|
  {}

  lemma StepKeepsSharing(s: Chat, e: Event, r: nat, c: nat)
    requires Enabled(s, e) && Shares(s, r, c)
    ensures Shares(Next(s, e), r, c)
  {
    if s.resolvers[r].phase.Returned? {
      FinishedStays(s, e, c);
      OtherResolverStays(s, e, r);
    } else if e == CreationAwaited(r) {
      SharedReturns(s, r, c);
    } else {
      CreationsStay(s, e, c);
      OtherResolverStays(s, e, r);
    }
  }

  lemma SharedReturns(s: Chat, r: nat, c: nat)
    requires Enabled(s, CreationAwaited(r)) && Shares(s, r, c)
    ensures Shares(Next(s, CreationAwaited(r)), r, c)
  {}

  lemma CreationsStay(s: Chat, e: Event, c: nat)
    requires Enabled(s, e) && c < |s.creations|
    ensures c < |Next(s, e).creations|
  {
    if !TouchesSessions(e) {
      OtherStepsLeaveSessions(s, e);
    }
  }

  lemma {:induction false} RunKeepsSharing(chats: seq<Chat>, events: seq<Event>, m: nat, n: nat, r: nat, c: nat)
    requires IsRun(chats, events) && m <= n <= |events| && Shares(chats[m], r, c)
    ensures Shares(chats[n], r, c)
    decreases n - m
  {
    if m < n {
      var before := n - 1;
      RunKeepsSharing(chats, events, m, before, r, c);
      assert StepAt(chats, events, before);
      StepKeepsSharing(chats[before], events[before], r, c);
    }
  }

  /**
   In every run: a call that finds a session returns it in the same step, and one that finds a
   creation under way never takes the lock; it returns that creation's session, or its rejection.
   */
  lemma CallsShareCreation(chats: seq<Chat>, events: seq<Event>, n: nat, m: nat, r: nat)
    requires IsRunFromStart(chats, events) && n < m <= |events|
    requires Enabled(chats[n], events[n]) && Calls(chats[n], events[n], r)
    ensures r < |chats[n + 1].resolvers|
    ensures chats[n].sessions.Some? ==> chats[n + 1].resolvers[r].phase == Returned(chats[n].sessions)
    ensures chats[n].sessions.None? && chats[n].sessionCreations.Some? ==> Shares(chats[m], r, chats[n].sessionCreations.value)
    ensures chats[n].sessions.None? && chats[n].sessionCreations.None? ==> chats[n + 1].resolvers[r].phase.AwaitingLock?
  {
    var next := n + 1;
    RunKeepsInv(chats, events, n);
    CreationInFlight(chats[n]);
    assert StepAt(chats, events, n);
    CallStarts(chats[n], events[n], r);
    if chats[n].sessions.None? && chats[n].sessionCreations.Some? {
      RunKeepsSharing(chats, events, next, m, r, chats[n].sessionCreations.value);
    }
  }
}
