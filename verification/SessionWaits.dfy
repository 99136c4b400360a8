/** A reset lets the turns that were there before it finish first, and which sessions resets take away. */
module SessionWaits {
  import opened Wrappers
  import opened LifecycleLock
  import opened SessionProtocol
  import opened SessionSafety
  import opened SessionTheorems
  import opened SessionOutcomes

  /** Reset k waits behind the last of the first m jobs, or all of them are over. */
  ghost predicate WaitsFor(s: Chat, k: nat, m: nat) {
    && k < |s.resets| && m <= |s.jobs|
    && if s.resets[k].AwaitingChain? then m > 0 && s.resets[k].chain == Some(m - 1) else DoneBelow(s.jobs, m)
  }

  lemma BeginsWaiting(s: Chat)
    requires QueueOk(s)
    ensures WaitsFor(Next(s, ResetBegins), |s.resets|, |s.jobs|)
  {}

  /** What is over stays over. */
  lemma DoneStays(s: Chat, e: Event, m: nat)
    requires Enabled(s, e) && m <= |s.jobs|
    ensures m <= |Next(s, e).jobs| && (DoneBelow(s.jobs, m) ==> DoneBelow(Next(s, e).jobs, m))
  {
    if m > 0 {
      JobStep(s, e, m - 1);
    }
    if DoneBelow(s.jobs, m) {
      forall i | 0 <= i < m
        ensures Next(s, e).jobs[i].phase.Done()
      {
        JobStep(s, e, i);
      }
    }
  }

  /** When the last of the jobs is over, all are. */
  lemma ChainIsDone(jobs: seq<Job>, m: nat)
    requires ChainInv(jobs) && 0 < m && ChainResolved(jobs, Some(m - 1))
    ensures m <= |jobs| && DoneBelow(jobs, m)
  {
    assert !jobs[m - 1].phase.Queued?;
  }

  lemma OtherResetsStay(s: Chat, e: Event, k: nat)
    requires Enabled(s, e) && k < |s.resets| && e != ResetChainDone(k)
    ensures k < |Next(s, e).resets|
    ensures s.resets[k].AwaitingChain? ==> Next(s, e).resets[k] == s.resets[k]
    ensures !s.resets[k].AwaitingChain? ==> !Next(s, e).resets[k].AwaitingChain?
  {
    if !TouchesResets(e) {
      OtherStepsLeaveResets(s, e);
    }
  }

  lemma StepKeepsWaiting(s: Chat, e: Event, k: nat, m: nat)
    requires Enabled(s, e) && ChainInv(s.jobs) && WaitsFor(s, k, m)
    ensures WaitsFor(Next(s, e), k, m)
  {
    DoneStays(s, e, m);
    if e == ResetChainDone(k) {
      ChainIsDone(s.jobs, m);
      DoneStays(s, e, m);
    } else {
      OtherResetsStay(s, e, k);
    }
  }

  lemma {:induction false} RunKeepsWaiting(chats: seq<Chat>, events: seq<Event>, b: nat, n: nat, k: nat)
    requires IsRunFromStart(chats, events) && b < n <= |events| && events[b] == ResetBegins && k == |chats[b].resets|
    ensures WaitsFor(chats[n], k, |chats[b].jobs|)
    decreases n - b
  {
    var before := n - 1;
    assert StepAt(chats, events, before);
    RunKeepsInv(chats, events, before);
    if before == b {
      BeginsWaiting(chats[b]);
    } else {
      RunKeepsWaiting(chats, events, b, before, k);
      StepKeepsWaiting(chats[before], events[before], k, |chats[b].jobs|);
    }
  }

  /**
   In every run: once a reset is past the queue, and so whenever it is inside the lock, closes or
   deletes, every job that was accepted before it began is over.
   */
  lemma ResetWaitsForTurns(chats: seq<Chat>, events: seq<Event>, b: nat, n: nat, k: nat, j: nat)
    requires IsRunFromStart(chats, events) && b < n <= |events| && events[b] == ResetBegins && k == |chats[b].resets|
    requires j < |chats[b].jobs|
    ensures k < |chats[n].resets| && j < |chats[n].jobs|
    ensures !chats[n].resets[k].AwaitingChain? ==> chats[n].jobs[j].phase.Done()
  {
    RunKeepsWaiting(chats, events, b, n, k);
  }

  // ---------------------------------------------------------------- which sessions are taken away

  /** A reset comes inside the lock, finds no job unsettled, and finds this session in the map. */
  ghost predicate TakenAway(s: Chat, e: Event, x: nat) {
    e.ResetEnters? && Unsettled(s.jobs) == 0 && s.sessions == Some(x)
  }

  lemma EnteringTakes(s: Chat, k: nat, x: nat)
    requires Inv(s) && Enabled(s, ResetEnters(k))
    ensures x in Next(s, ResetEnters(k)).closed <==> x in s.closed || TakenAway(s, ResetEnters(k), x)
  {
    UnsettledZero(s.jobs);
    EnteringIsAlone(s, s.resets[k].ticket);
  }

  lemma OthersLeaveClosed(s: Chat, e: Event)
    requires Enabled(s, e) && !TouchesResets(e)
    ensures Next(s, e).closed == s.closed
  {}

  lemma OthersTakeNothing(s: Chat, e: Event)
    requires ResetInv(s.resets, s.sessions) && Enabled(s, e) && !e.ResetEnters?
    ensures Next(s, e).closed == s.closed
  {
    if !TouchesResets(e) {
      OthersLeaveClosed(s, e);
    }
  }

  lemma ClosedStep(s: Chat, e: Event, x: nat)
    requires Inv(s) && Enabled(s, e)
    ensures x in Next(s, e).closed <==> x in s.closed || TakenAway(s, e, x)
  {
    if e.ResetEnters? {
      EnteringTakes(s, e.reset, x);
    } else {
      OthersTakeNothing(s, e);
    }
  }

  ghost predicate TakenBefore(chats: seq<Chat>, events: seq<Event>, n: nat, x: nat)
    requires |chats| == |events| + 1 && n <= |events|
  {
    exists i :: 0 <= i < n && TakenAway(chats[i], events[i], x)
  }

  /** The sessions counted as taken away to be closed are those resets took, no others. */
  lemma {:induction false} ClosedIff(chats: seq<Chat>, events: seq<Event>, n: nat, x: nat)
    requires IsRunFromStart(chats, events) && n <= |events|
    ensures x in chats[n].closed <==> TakenBefore(chats, events, n, x)
  {
    if n > 0 {
      var before := n - 1;
      ClosedIff(chats, events, before, x);
      RunKeepsInv(chats, events, before);
      assert StepAt(chats, events, before);
      ClosedStep(chats[before], events[before], x);
      assert TakenBefore(chats, events, n, x)
        <==> TakenBefore(chats, events, before, x) || TakenAway(chats[before], events[before], x);
    }
  }
}
