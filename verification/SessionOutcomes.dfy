/** How turns and resets end: which events of a run lead to which end, in both directions. */
module SessionOutcomes {
  import opened Wrappers
  import opened LifecycleLock
  import opened SessionProtocol
  import opened SessionSafety
  import opened SessionTheorems

  // ---------------------------------------------------------------- how a turn ends

  /** Event e came among the first n. */
  ghost predicate Came(events: seq<Event>, n: nat, e: Event)
    requires n <= |events|
  {
    exists c :: 0 <= c < n && events[c] == e
  }

  /** A `/stop` came while turn j was racing. */
  ghost predicate StoppedRacing(chats: seq<Chat>, events: seq<Event>, n: nat, j: nat)
    requires |chats| == |events| + 1 && n <= |events|
  {
    exists c :: 0 <= c < n && events[c].Stop? && j < |chats[c].jobs| && chats[c].jobs[j].phase.Racing?
  }

  /** The turn was refused its session. */
  ghost predicate Refused(chats: seq<Chat>, events: seq<Event>, n: nat, j: nat)
    requires |chats| == |events| + 1 && n <= |events|
  {
    exists c :: 0 <= c < n && events[c] == SessionResolved(j) && Enabled(chats[c], events[c])
                && chats[c].resolvers[chats[c].jobs[j].phase.resolver].phase.result.None?
  }

  /** The turn found its epoch gone when its body started. */
  ghost predicate Outdated(chats: seq<Chat>, events: seq<Event>, n: nat, j: nat)
    requires |chats| == |events| + 1 && n <= |events|
  {
    exists c :: 0 <= c < n && events[c] == BodyStarts(j) && Enabled(chats[c], events[c])
                && chats[c].stopEpoch != chats[c].jobs[j].epoch
  }

  /** What has happened to turn j among the first n events. */
  datatype Story = Story(outdated: bool, refused: bool, stopped: bool, over: bool, late: bool)

  ghost function StoryOf(chats: seq<Chat>, events: seq<Event>, n: nat, j: nat): Story
    requires |chats| == |events| + 1 && n <= |events|
  {
    Story(Outdated(chats, events, n, j), Refused(chats, events, n, j), StoppedRacing(chats, events, n, j),
          Came(events, n, RaceEnds(j, true)), Came(events, n, RaceEnds(j, false)))
  }

  const NOTHING := Story(false, false, false, false, false)

  /** The phase and the story of a turn agree. */
  ghost predicate Tells(phase: Phase, story: Story) {
    match phase
    case Queued => story == NOTHING
    case Resolving(_) => story == NOTHING
    case Racing(_, stop) => story == NOTHING.(stopped := stop)
    case Cancelling(_, silent) =>
      && !story.outdated && !story.refused && story.stopped == silent && story.over != story.late
      && (!silent ==> story.late)
    case BodyDone(o) => ToldBy(o, story)
    case Settled(o) => ToldBy(o, story)
  }

  ghost predicate ToldBy(o: Outcome, story: Story) {
    match o
    case DroppedSilently => story == NOTHING.(outdated := true)
    case Failed => story == NOTHING.(refused := true)
    case StoppedSilently => story == NOTHING.(stopped := true, over := story.over, late := !story.over)
    case Answered => story == NOTHING.(over := true)
    case TimedOut => story == NOTHING.(late := true)
  }

  /** What one more event adds to the story of turn j. */
  ghost function OneMore(s: Chat, e: Event, j: nat, story: Story): Story
    requires Enabled(s, e)
  {
    Story(story.outdated || (e == BodyStarts(j) && s.stopEpoch != s.jobs[j].epoch),
          story.refused || (e == SessionResolved(j) && s.resolvers[s.jobs[j].phase.resolver].phase.result.None?),
          story.stopped || (e.Stop? && j < |s.jobs| && s.jobs[j].phase.Racing?),
          story.over || e == RaceEnds(j, true), story.late || e == RaceEnds(j, false))
  }

  lemma CameLater(events: seq<Event>, n: nat, m: nat, e: Event)
    requires m == n + 1 <= |events|
    ensures Came(events, m, e) <==> Came(events, n, e) || events[n] == e
  {}

  lemma StoppedLater(chats: seq<Chat>, events: seq<Event>, n: nat, m: nat, j: nat)
    requires |chats| == |events| + 1 && m == n + 1 <= |events|
    ensures StoppedRacing(chats, events, m, j) <==>
      || StoppedRacing(chats, events, n, j)
      || (events[n].Stop? && j < |chats[n].jobs| && chats[n].jobs[j].phase.Racing?)
  {}

  lemma RefusedLater(chats: seq<Chat>, events: seq<Event>, n: nat, m: nat, j: nat)
    requires |chats| == |events| + 1 && m == n + 1 <= |events| && Enabled(chats[n], events[n])
    ensures Refused(chats, events, m, j) <==>
      || Refused(chats, events, n, j)
      || (events[n] == SessionResolved(j) && chats[n].resolvers[chats[n].jobs[j].phase.resolver].phase.result.None?)
  {}

  lemma OutdatedLater(chats: seq<Chat>, events: seq<Event>, n: nat, m: nat, j: nat)
    requires |chats| == |events| + 1 && m == n + 1 <= |events| && Enabled(chats[n], events[n])
    ensures Outdated(chats, events, m, j) <==>
      Outdated(chats, events, n, j) || (events[n] == BodyStarts(j) && chats[n].stopEpoch != chats[n].jobs[j].epoch)
  {}

  lemma StoryGrows(chats: seq<Chat>, events: seq<Event>, n: nat, m: nat, j: nat)
    requires |chats| == |events| + 1 && m == n + 1 <= |events| && Enabled(chats[n], events[n])
    ensures StoryOf(chats, events, m, j) == OneMore(chats[n], events[n], j, StoryOf(chats, events, n, j))
  {
    CameLater(events, n, m, RaceEnds(j, true));
    CameLater(events, n, m, RaceEnds(j, false));
    StoppedLater(chats, events, n, m, j);
    RefusedLater(chats, events, n, m, j);
    OutdatedLater(chats, events, n, m, j);
  }

  /** The registered turn is the only one a `/stop` can find racing. */
  lemma StopTells(s: Chat, e: Event, j: nat, story: Story)
    requires ActiveInv(s.jobs, s.activeTurn) && Enabled(s, e) && e.Stop? && j < |s.jobs| && Tells(s.jobs[j].phase, story)
    ensures j < |Next(s, e).jobs| && Tells(Next(s, e).jobs[j].phase, OneMore(s, e, j, story))
  {
    assert Next(s, e) == StopChat(s, e.cronTurn);
  }

  lemma BodyTells(s: Chat, e: Event, j: nat, story: Story)
    requires Enabled(s, e) && (e.BodyStarts? || e.SessionResolved?) && j < |s.jobs| && Tells(s.jobs[j].phase, story)
    ensures j < |Next(s, e).jobs| && Tells(Next(s, e).jobs[j].phase, OneMore(s, e, j, story))
  {}

  lemma EndTells(s: Chat, e: Event, j: nat, story: Story)
    requires Enabled(s, e) && (e.RaceEnds? || e.CancelReturns?) && j < |s.jobs| && Tells(s.jobs[j].phase, story)
    ensures j < |Next(s, e).jobs| && Tells(Next(s, e).jobs[j].phase, OneMore(s, e, j, story))
  {}

  lemma QueueTells(s: Chat, e: Event, j: nat, story: Story)
    requires Enabled(s, e) && (e.MessageArrives? || e.CommandExpanded? || e.JobSettles?)
    requires j < |s.jobs| && Tells(s.jobs[j].phase, story)
    ensures j < |Next(s, e).jobs| && Tells(Next(s, e).jobs[j].phase, OneMore(s, e, j, story))
  {}

  lemma StepTells(s: Chat, e: Event, j: nat, story: Story)
    requires Inv(s) && Enabled(s, e)
    requires if j < |s.jobs| then Tells(s.jobs[j].phase, story) else story == NOTHING
    ensures var after := Next(s, e); var more := OneMore(s, e, j, story);
            if j < |after.jobs| then Tells(after.jobs[j].phase, more) else more == NOTHING
  {
    if !TouchesJobs(e) {
      OtherStepsLeaveJobs(s, e);
    } else if j >= |s.jobs| {
      if j < |Next(s, e).jobs| {
        NewJob(s, e, j);
      }
    } else if e.Stop? {
      StopTells(s, e, j, story);
    } else if e.BodyStarts? || e.SessionResolved? {
      BodyTells(s, e, j, story);
    } else if e.RaceEnds? || e.CancelReturns? {
      EndTells(s, e, j, story);
    } else {
      QueueTells(s, e, j, story);
    }
  }

  lemma NewJob(s: Chat, e: Event, j: nat)
    requires Enabled(s, e) && |s.jobs| <= j < |Next(s, e).jobs|
    ensures Next(s, e).jobs[j].phase.Queued? && (e.MessageArrives? || e.CommandExpanded?)
  {
    if !TouchesJobs(e) {
      OtherStepsLeaveJobs(s, e);
    }
  }

  lemma {:induction false} RunTells(chats: seq<Chat>, events: seq<Event>, n: nat, j: nat)
    requires IsRunFromStart(chats, events) && n <= |events|
    ensures var story := StoryOf(chats, events, n, j);
            if j < |chats[n].jobs| then Tells(chats[n].jobs[j].phase, story) else story == NOTHING
  {
    if n > 0 {
      var before := n - 1;
      RunTells(chats, events, before, j);
      RunKeepsInv(chats, events, before);
      assert StepAt(chats, events, before);
      StoryGrows(chats, events, before, n, j);
      StepTells(chats[before], events[before], j, StoryOf(chats, events, before, j));
    }
  }

  /**
   How a turn that is over has ended, in every run: silently if and only if a `/stop` came while it
   was racing; with an answer, or for its deadline, if and only if its race ended that way without
   one; with a failure if and only if it was refused a session; dropped if and only if its epoch was
   gone when its body started.
   */
  lemma TurnEndsIff(chats: seq<Chat>, events: seq<Event>, n: nat, j: nat)
    requires IsRunFromStart(chats, events) && n <= |events| && j < |chats[n].jobs| && chats[n].jobs[j].phase.Done()
    ensures var o := chats[n].jobs[j].phase.outcome;
      && (o.StoppedSilently? <==> StoppedRacing(chats, events, n, j))
      && (o.Answered? <==> Came(events, n, RaceEnds(j, true)) && !StoppedRacing(chats, events, n, j))
      && (o.TimedOut? <==> Came(events, n, RaceEnds(j, false)) && !StoppedRacing(chats, events, n, j))
      && (o.Failed? <==> Refused(chats, events, n, j))
      && (o.DroppedSilently? <==> Outdated(chats, events, n, j))
  {
    RunTells(chats, events, n, j);
  }

  // ---------------------------------------------------------------- how a reset ends

  /** Reset k began while the chat had a queue object. */
  ghost predicate BeganBehindQueue(chats: seq<Chat>, events: seq<Event>, n: nat, k: nat)
    requires |chats| == |events| + 1 && n <= |events|
  {
    exists c :: 0 <= c < n && events[c].ResetBegins? && |chats[c].resets| == k && chats[c].current.Some?
  }

  /** Behind the chain the queue object it waited for was busy, or not. */
  ghost predicate ChainLeft(chats: seq<Chat>, events: seq<Event>, n: nat, k: nat, busy: bool)
    requires |chats| == |events| + 1 && n <= |events|
  {
    exists c :: 0 <= c < n && events[c] == ResetChainDone(k) && Enabled(chats[c], events[c])
                && (chats[c].queues[chats[c].resets[k].queue].pending > 0 <==> busy)
  }

  /** It came inside the lock with jobs unsettled, or with none. */
  ghost predicate EnteredLock(chats: seq<Chat>, events: seq<Event>, n: nat, k: nat, busy: bool)
    requires |chats| == |events| + 1 && n <= |events|
  {
    exists c :: 0 <= c < n && events[c] == ResetEnters(k) && (Unsettled(chats[c].jobs) > 0 <==> busy)
  }

  /** The sessions that were in the map when it came inside the lock with no job unsettled. */
  ghost function Found(chats: seq<Chat>, events: seq<Event>, n: nat, k: nat): iset<nat>
    requires |chats| == |events| + 1 && n <= |events|
  {
    iset x: nat | exists c :: 0 <= c < n && events[c] == ResetEnters(k)
                              && Unsettled(chats[c].jobs) == 0 && chats[c].sessions == Some(x)
  }

  datatype ResetStory = ResetStory(
    waits: bool, gaveUp: bool, waited: bool, busy: bool, idle: bool, found: iset<nat>,
    closed: bool, deleted: bool, left: bool)

  ghost function ResetStoryOf(chats: seq<Chat>, events: seq<Event>, n: nat, k: nat): ResetStory
    requires |chats| == |events| + 1 && n <= |events|
  {
    ResetStory(BeganBehindQueue(chats, events, n, k), ChainLeft(chats, events, n, k, true),
               ChainLeft(chats, events, n, k, false), EnteredLock(chats, events, n, k, true),
               EnteredLock(chats, events, n, k, false), Found(chats, events, n, k),
               Came(events, n, ResetClosed(k)), Came(events, n, ResetDeleted(k)), Came(events, n, ResetLeaves(k)))
  }

  const UNBEGUN := ResetStory(false, false, false, false, false, iset{}, false, false, false)

  /** The way to the lock is open: at once without a queue, behind an idle chain with one. */
  ghost predicate Comes(story: ResetStory) {
    !story.gaveUp && (story.waited <==> story.waits)
  }

  /** Everything a reset does inside the lock is done: nothing with jobs unsettled, otherwise close and delete. */
  ghost predicate Worked(story: ResetStory) {
    && Comes(story) && story.busy != story.idle && (story.deleted <==> story.idle)
    && (story.closed <==> story.found != iset{}) && (story.busy ==> story.found == iset{})
  }

  ghost predicate ResetTells(reset: Reset, story: ResetStory) {
    match reset
    case AwaitingChain(_, _) => story == UNBEGUN.(waits := true)
    case AwaitingResetLock(_) => story == UNBEGUN.(waits := story.waits, waited := story.waits)
    case AwaitingInFlight(_, _) => false
    case Closing(_, x) => story == UNBEGUN.(waits := story.waits, waited := story.waits, idle := true, found := iset{x})
    case Deleting(_) =>
      && story == UNBEGUN.(waits := story.waits, waited := story.waits, idle := true, found := story.found, closed := story.closed)
      && (story.closed <==> story.found != iset{})
    case LeavingLock(_) => Worked(story) && !story.left
    case Ending => Worked(story) && story.left
    case Ended => (Worked(story) && story.left) || story == UNBEGUN.(waits := true, gaveUp := true)
  }

  ghost function OneMoreReset(s: Chat, e: Event, k: nat, story: ResetStory): ResetStory
    requires Enabled(s, e)
  {
    ResetStory(story.waits || (e.ResetBegins? && |s.resets| == k && s.current.Some?),
               story.gaveUp || (e == ResetChainDone(k) && s.queues[s.resets[k].queue].pending > 0),
               story.waited || (e == ResetChainDone(k) && s.queues[s.resets[k].queue].pending <= 0),
               story.busy || (e == ResetEnters(k) && Unsettled(s.jobs) > 0),
               story.idle || (e == ResetEnters(k) && Unsettled(s.jobs) == 0),
               if e == ResetEnters(k) && Unsettled(s.jobs) == 0 && s.sessions.Some?
               then story.found + iset{s.sessions.value} else story.found,
               story.closed || e == ResetClosed(k), story.deleted || e == ResetDeleted(k), story.left || e == ResetLeaves(k))
  }

  lemma FoundGrows(chats: seq<Chat>, events: seq<Event>, n: nat, m: nat, k: nat)
    requires |chats| == |events| + 1 && m == n + 1 <= |events|
    ensures Found(chats, events, m, k) ==
      if events[n] == ResetEnters(k) && Unsettled(chats[n].jobs) == 0 && chats[n].sessions.Some?
      then Found(chats, events, n, k) + iset{chats[n].sessions.value} else Found(chats, events, n, k)
  {}

  lemma BeganGrows(chats: seq<Chat>, events: seq<Event>, n: nat, m: nat, k: nat)
    requires |chats| == |events| + 1 && m == n + 1 <= |events|
    ensures BeganBehindQueue(chats, events, m, k) <==>
      BeganBehindQueue(chats, events, n, k) || (events[n].ResetBegins? && |chats[n].resets| == k && chats[n].current.Some?)
  {}

  lemma ChainLeftGrows(chats: seq<Chat>, events: seq<Event>, n: nat, m: nat, k: nat, busy: bool)
    requires |chats| == |events| + 1 && m == n + 1 <= |events| && Enabled(chats[n], events[n])
    ensures ChainLeft(chats, events, m, k, busy) <==>
      || ChainLeft(chats, events, n, k, busy)
      || (events[n] == ResetChainDone(k) && (chats[n].queues[chats[n].resets[k].queue].pending > 0 <==> busy))
  {}

  lemma EnteredGrows(chats: seq<Chat>, events: seq<Event>, n: nat, m: nat, k: nat, busy: bool)
    requires |chats| == |events| + 1 && m == n + 1 <= |events|
    ensures EnteredLock(chats, events, m, k, busy) <==>
      EnteredLock(chats, events, n, k, busy) || (events[n] == ResetEnters(k) && (Unsettled(chats[n].jobs) > 0 <==> busy))
  {}

  lemma ResetStoryGrows(chats: seq<Chat>, events: seq<Event>, n: nat, m: nat, k: nat)
    requires |chats| == |events| + 1 && m == n + 1 <= |events| && Enabled(chats[n], events[n])
    ensures ResetStoryOf(chats, events, m, k) == OneMoreReset(chats[n], events[n], k, ResetStoryOf(chats, events, n, k))
  {
    CameLater(events, n, m, ResetClosed(k));
    CameLater(events, n, m, ResetDeleted(k));
    CameLater(events, n, m, ResetLeaves(k));
    BeganGrows(chats, events, n, m, k);
    ChainLeftGrows(chats, events, n, m, k, true);
    ChainLeftGrows(chats, events, n, m, k, false);
    EnteredGrows(chats, events, n, m, k, true);
    EnteredGrows(chats, events, n, m, k, false);
    FoundGrows(chats, events, n, m, k);
  }

  lemma ResetEntersTells(s: Chat, k: nat, story: ResetStory)
    requires Inv(s) && Enabled(s, ResetEnters(k)) && ResetTells(s.resets[k], story)
    ensures k < |Next(s, ResetEnters(k)).resets|
    ensures ResetTells(Next(s, ResetEnters(k)).resets[k], OneMoreReset(s, ResetEnters(k), k, story))
  {
    UnsettledZero(s.jobs);
    EnteringIsAlone(s, s.resets[k].ticket);
    if s.sessions.Some? {
      assert iset{} + iset{s.sessions.value} == iset{s.sessions.value};
      assert s.sessions.value in iset{s.sessions.value};
    }
  }

  lemma ResetBeginsTells(s: Chat, story: ResetStory)
    requires Inv(s) && story == UNBEGUN
    ensures |s.resets| < |Next(s, ResetBegins).resets|
    ensures ResetTells(Next(s, ResetBegins).resets[|s.resets|], OneMoreReset(s, ResetBegins, |s.resets|, story))
  {}

  lemma ChainDoneTells(s: Chat, k: nat, story: ResetStory)
    requires Enabled(s, ResetChainDone(k)) && ResetTells(s.resets[k], story)
    ensures k < |Next(s, ResetChainDone(k)).resets|
    ensures ResetTells(Next(s, ResetChainDone(k)).resets[k], OneMoreReset(s, ResetChainDone(k), k, story))
  {}

  lemma ClosingTells(s: Chat, k: nat, story: ResetStory)
    requires Enabled(s, ResetClosed(k)) && ResetTells(s.resets[k], story)
    ensures k < |Next(s, ResetClosed(k)).resets|
    ensures ResetTells(Next(s, ResetClosed(k)).resets[k], OneMoreReset(s, ResetClosed(k), k, story))
  {
    assert s.resets[k].session in story.found;
  }

  lemma LeavingTells(s: Chat, e: Event, story: ResetStory)
    requires Enabled(s, e) && (e.ResetDeleted? || e.ResetLeaves? || e.ResetEnds?)
    requires e.reset < |s.resets| && ResetTells(s.resets[e.reset], story)
    ensures e.reset < |Next(s, e).resets| && ResetTells(Next(s, e).resets[e.reset], OneMoreReset(s, e, e.reset, story))
  {}

  lemma ResetMovesTell(s: Chat, e: Event, story: ResetStory)
    requires Enabled(s, e) && TouchesResets(e) && !e.ResetBegins? && !e.ResetEnters? && !e.ResetCreationAwaited?
    requires e.reset < |s.resets| && ResetTells(s.resets[e.reset], story)
    ensures e.reset < |Next(s, e).resets| && ResetTells(Next(s, e).resets[e.reset], OneMoreReset(s, e, e.reset, story))
  {
    if e.ResetChainDone? {
      ChainDoneTells(s, e.reset, story);
    } else if e.ResetClosed? {
      ClosingTells(s, e.reset, story);
    } else {
      LeavingTells(s, e, story);
    }
  }

  lemma ResetStepTells(s: Chat, e: Event, k: nat, story: ResetStory)
    requires Inv(s) && Enabled(s, e)
    requires if k < |s.resets| then ResetTells(s.resets[k], story) else story == UNBEGUN
    ensures var after := Next(s, e); var more := OneMoreReset(s, e, k, story);
            if k < |after.resets| then ResetTells(after.resets[k], more) else more == UNBEGUN
  {
    if e.ResetBegins? && k == |s.resets| {
      ResetBeginsTells(s, story);
    } else if !TouchesResets(e) || e.ResetBegins? || e.reset != k {
      OtherResetStays(s, e, k, story);
    } else {
      ResetStep(s, e);
      if e.ResetEnters? {
        ResetEntersTells(s, k, story);
      } else {
        ResetMovesTell(s, e, story);
      }
    }
  }

  /** An event of another kind, or of another reset. */
  ghost predicate OfOther(s: Chat, e: Event, k: nat) {
    !TouchesResets(e) || (if e.ResetBegins? then k != |s.resets| else e.reset != k)
  }

  lemma OtherStoryStays(s: Chat, e: Event, k: nat, story: ResetStory)
    requires Enabled(s, e) && OfOther(s, e, k)
    ensures OneMoreReset(s, e, k, story) == story
  {}

  lemma OtherResetStays(s: Chat, e: Event, k: nat, story: ResetStory)
    requires Enabled(s, e) && OfOther(s, e, k)
    ensures OneMoreReset(s, e, k, story) == story
    ensures k < |Next(s, e).resets| <==> k < |s.resets|
    ensures k < |s.resets| ==> Next(s, e).resets[k] == s.resets[k]
  {
    OtherStoryStays(s, e, k, story);
    if !TouchesResets(e) {
      OtherStepsLeaveResets(s, e);
    } else if e.ResetBegins? {
      BeginAddsOne(s);
    } else {
      ResetStep(s, e);
    }
  }

  lemma BeginAddsOne(s: Chat)
    ensures |BeginReset(s).resets| == |s.resets| + 1 && BeginReset(s).resets[..|s.resets|] == s.resets
  {}

  lemma {:induction false} RunTellsReset(chats: seq<Chat>, events: seq<Event>, n: nat, k: nat)
    requires IsRunFromStart(chats, events) && n <= |events|
    ensures var story := ResetStoryOf(chats, events, n, k);
            if k < |chats[n].resets| then ResetTells(chats[n].resets[k], story) else story == UNBEGUN
  {
    if n > 0 {
      var before := n - 1;
      RunTellsReset(chats, events, before, k);
      RunKeepsInv(chats, events, before);
      assert StepAt(chats, events, before);
      ResetStoryGrows(chats, events, before, n, k);
      ResetStepTells(chats[before], events[before], k, ResetStoryOf(chats, events, before, k));
    } else {
      assert Found(chats, events, 0, k) == iset{};
    }
  }

  /**
   What a reset that is over has done, in every run: it gave up behind the chain if and only if the
   queue object it waited for was busy again, and otherwise came inside the lock. There it called
   `deleteSession` if and only if no job was unsettled, and closed a session if and only if the map
   then had one.
   */
  lemma ResetEndsIff(chats: seq<Chat>, events: seq<Event>, n: nat, k: nat)
    requires IsRunFromStart(chats, events) && n <= |events| && k < |chats[n].resets| && chats[n].resets[k].Ended?
    ensures ChainLeft(chats, events, n, k, true) <==> !EnteredLock(chats, events, n, k, true) && !EnteredLock(chats, events, n, k, false)
    ensures ChainLeft(chats, events, n, k, true) || ChainLeft(chats, events, n, k, false) <==> BeganBehindQueue(chats, events, n, k)
    ensures Came(events, n, ResetDeleted(k)) <==> EnteredLock(chats, events, n, k, false)
    ensures Came(events, n, ResetClosed(k)) <==> exists x :: x in Found(chats, events, n, k)
    ensures Came(events, n, ResetLeaves(k)) <==> !ChainLeft(chats, events, n, k, true)
  {
    RunTellsReset(chats, events, n, k);
    var story := ResetStoryOf(chats, events, n, k);
    assert story.found != iset{} <==> exists x :: x in story.found;
  }

  /** The session a reset closes is the one it found in the map, and `deleteSession` comes behind the closing. */
  lemma ResetClosesWhatItFound(chats: seq<Chat>, events: seq<Event>, n: nat, k: nat)
    requires IsRunFromStart(chats, events) && n < |events|
    ensures events[n] == ResetClosed(k) ==>
      k < |chats[n].resets| && chats[n].resets[k].Closing? && Found(chats, events, n, k) == iset{chats[n].resets[k].session}
    ensures events[n] == ResetDeleted(k) ==>
      (Came(events, n, ResetClosed(k)) <==> exists x :: x in Found(chats, events, n, k))
  {
    RunTellsReset(chats, events, n, k);
    assert StepAt(chats, events, n);
    var found := Found(chats, events, n, k);
    assert found != iset{} <==> exists x :: x in found;
  }

  /** At that moment it has neither closed nor deleted anything. */
  lemma NotBeforeEntering(chats: seq<Chat>, events: seq<Event>, n: nat, c: nat, k: nat)
    requires IsRunFromStart(chats, events) && n < |events| && c < |events| && events[n] == ResetEnters(k)
    requires events[c] == ResetClosed(k) || events[c] == ResetDeleted(k)
    ensures n < c
  {
    RunTellsReset(chats, events, n, k);
    assert StepAt(chats, events, n);
    assert !Came(events, n, ResetClosed(k)) && !Came(events, n, ResetDeleted(k));
  }

  lemma BusyResetTakesNothing(chats: seq<Chat>, events: seq<Event>, n: nat, k: nat)
    requires IsRunFromStart(chats, events) && n < |events| && events[n] == ResetEnters(k) && Unsettled(chats[n].jobs) > 0
    ensures chats[n + 1].sessions == chats[n].sessions
  {
    RunKeepsInv(chats, events, n);
    assert StepAt(chats, events, n);
    UnsettledZero(chats[n].jobs);
  }

  /**
   From the moment a reset comes inside the lock: with no job unsettled it closes the session in the
   map, if there is one, and then deletes; with one unsettled the entry stays and neither happens.
   */
  lemma IdleResetDestroys(chats: seq<Chat>, events: seq<Event>, n: nat, b: nat, k: nat)
    requires IsRunFromStart(chats, events) && n < b <= |events| && events[n] == ResetEnters(k)
    requires k < |chats[b].resets| && chats[b].resets[k].Ended?
    ensures Unsettled(chats[n].jobs) == 0 ==>
      exists c :: n < c < b && events[c] == ResetDeleted(k)
                  && (chats[n].sessions.Some? ==> exists d :: n < d < c && events[d] == ResetClosed(k))
    ensures Unsettled(chats[n].jobs) > 0 ==>
      && chats[n + 1].sessions == chats[n].sessions
      && forall c | 0 <= c < b :: events[c] != ResetClosed(k) && events[c] != ResetDeleted(k)
  {
    RunTellsReset(chats, events, n, k);
    RunTellsReset(chats, events, b, k);
    assert StepAt(chats, events, n);
    if Unsettled(chats[n].jobs) > 0 {
      assert EnteredLock(chats, events, b, k, true);
      assert !Came(events, b, ResetClosed(k)) && !Came(events, b, ResetDeleted(k));
      BusyResetTakesNothing(chats, events, n, k);
    } else {
      assert EnteredLock(chats, events, b, k, false);
      var c :| 0 <= c < b && events[c] == ResetDeleted(k);
      NotBeforeEntering(chats, events, n, c, k);
      ResetClosesWhatItFound(chats, events, c, k);
      if chats[n].sessions.Some? {
        assert chats[n].sessions.value in Found(chats, events, c, k);
        var d :| 0 <= d < c && events[d] == ResetClosed(k);
        NotBeforeEntering(chats, events, n, d, k);
      }
    }
  }

  // ---------------------------------------------------------------- what `resolveSession` returns

  /** The creation the call is waiting for, or making. */
  ghost function AskingFor(s: Chat, r: nat): iset<nat> {
    if r < |s.resolvers| then
      match s.resolvers[r].phase
      case AwaitingCreation(c) => iset{c}
      case Creating(_, c) => iset{c}
      case _ => iset{}
    else iset{}
  }

  /** All creations the call has waited for or made so far. */
  ghost function AskedFor(chats: seq<Chat>, n: nat, r: nat): iset<nat>
    requires n < |chats|
  {
    iset c: nat | HasAsked(chats, n, r, c)
  }

  ghost predicate HasAsked(chats: seq<Chat>, n: nat, r: nat, c: nat)
    requires n < |chats|
  {
    exists i :: 0 <= i <= n && c in AskingFor(chats[i], r)
  }

  /** A call has a session that was there, or the outcome of the one creation it asked for. */
  ghost predicate HasResult(creations: seq<Creation>, asked: iset<nat>, result: Option<nat>) {
    || (asked == iset{} && result.Some?)
    || exists c: nat :: asked == iset{c} && ResultOf(creations, c, result)
  }

  ghost predicate ResultOf(creations: seq<Creation>, c: nat, result: Option<nat>) {
    c < |creations| && creations[c].stage == if result.Some? then Succeeded(result.value) else Rejected
  }

  ghost predicate ResolverTells(creations: seq<Creation>, phase: ResolverPhase, asked: iset<nat>) {
    match phase
    case AwaitingCreation(c) => asked == iset{c}
    case AwaitingLock(_) => asked == iset{}
    case Creating(_, c) => asked == iset{c}
    case Leaving(_, result) => HasResult(creations, asked, result)
    case Returned(result) => HasResult(creations, asked, result)
  }

  lemma FinishedStays(s: Chat, e: Event, c: nat)
    requires Enabled(s, e) && c < |s.creations| && s.creations[c].stage.Finished()
    ensures c < |Next(s, e).creations| && Next(s, e).creations[c].stage == s.creations[c].stage
  {
    if !TouchesSessions(e) {
      OtherStepsLeaveSessions(s, e);
    }
  }

  lemma ResultStays(s: Chat, e: Event, asked: iset<nat>, result: Option<nat>)
    requires Enabled(s, e) && HasResult(s.creations, asked, result)
    ensures HasResult(Next(s, e).creations, asked, result)
  {
    if c: nat :| asked == iset{c} && ResultOf(s.creations, c, result) {
      FinishedStays(s, e, c);
      assert ResultOf(Next(s, e).creations, c, result);
    }
  }

  lemma AskedGrows(chats: seq<Chat>, n: nat, m: nat, r: nat)
    requires m == n + 1 < |chats|
    ensures AskedFor(chats, m, r) == AskedFor(chats, n, r) + AskingFor(chats[m], r)
  {
    forall c: nat ensures HasAsked(chats, m, r, c) <==> HasAsked(chats, n, r, c) || c in AskingFor(chats[m], r) {}
  }

  /** A call that starts finds a session, a creation, or the way to the lock. */
  lemma NewResolverTells(s: Chat, job: Option<nat>)
    ensures var after := StartResolve(s, job); var r := |s.resolvers|;
      r < |after.resolvers| && after.resolvers[..r] == s.resolvers && after.creations == s.creations
      && ResolverTells(after.creations, after.resolvers[r].phase, AskingFor(after, r))
  {}

  /** The creation of the call goes on, or comes to its end. */
  lemma CreationMoveTells(s: Chat, e: Event, asked: iset<nat>)
    requires Enabled(s, e) && (e.SessionBuilt? || e.CreationSettles?)
    requires ResolverTells(s.creations, s.resolvers[e.resolver].phase, asked)
    ensures var after := Next(s, e);
      e.resolver < |after.resolvers|
      && ResolverTells(after.creations, after.resolvers[e.resolver].phase, asked + AskingFor(after, e.resolver))
  {
    var after := Next(s, e);
    var c := s.resolvers[e.resolver].phase.creation;
    assert asked + AskingFor(after, e.resolver) == asked;
    if after.resolvers[e.resolver].phase.Leaving? {
      assert ResultOf(after.creations, c, after.resolvers[e.resolver].phase.result);
    }
  }

  lemma ResolverMoveTells(s: Chat, e: Event, asked: iset<nat>)
    requires Enabled(s, e)
    requires e.CreationAwaited? || e.SessionBuilt? || e.CreationSettles? || e.ResolverLeaves?
    requires ResolverTells(s.creations, s.resolvers[e.resolver].phase, asked)
    ensures var after := Next(s, e);
      e.resolver < |after.resolvers|
      && ResolverTells(after.creations, after.resolvers[e.resolver].phase, asked + AskingFor(after, e.resolver))
  {
    if e.SessionBuilt? || e.CreationSettles? {
      CreationMoveTells(s, e, asked);
    } else {
      var after := Next(s, e);
      assert asked + AskingFor(after, e.resolver) == asked;
      if e.CreationAwaited? {
        var c := s.resolvers[e.resolver].phase.creation;
        assert ResultOf(after.creations, c, after.resolvers[e.resolver].phase.result);
      }
    }
  }

  lemma EnteringTells(s: Chat, r: nat, asked: iset<nat>)
    requires Enabled(s, ResolverEnters(r)) && ResolverTells(s.creations, s.resolvers[r].phase, asked)
    ensures var after := Next(s, ResolverEnters(r));
      r < |after.resolvers| && ResolverTells(after.creations, after.resolvers[r].phase, asked + AskingFor(after, r))
  {
    assert iset{} + AskingFor(Next(s, ResolverEnters(r)), r) == AskingFor(Next(s, ResolverEnters(r)), r);
  }

  /** A call the event is not about. */
  lemma OtherResolverStays(s: Chat, e: Event, r: nat)
    requires Enabled(s, e) && r < |s.resolvers|
    requires e.CreationAwaited? || e.ResolverEnters? || e.SessionBuilt? || e.CreationSettles? || e.ResolverLeaves? ==> e.resolver != r
    ensures r < |Next(s, e).resolvers| && Next(s, e).resolvers[r] == s.resolvers[r]
  {
    if !TouchesSessions(e) {
      OtherStepsLeaveSessions(s, e);
    }
  }

  lemma OtherResolverTells(s: Chat, e: Event, r: nat, asked: iset<nat>)
    requires Enabled(s, e) && r < |s.resolvers| && ResolverTells(s.creations, s.resolvers[r].phase, asked)
    requires r < |Next(s, e).resolvers| && Next(s, e).resolvers[r] == s.resolvers[r]
    ensures ResolverTells(Next(s, e).creations, s.resolvers[r].phase, asked + AskingFor(Next(s, e), r))
  {
    match s.resolvers[r].phase
    case Leaving(_, result) =>
      assert asked + AskingFor(Next(s, e), r) == asked;
      ResultStays(s, e, asked, result);
    case Returned(result) =>
      assert asked + AskingFor(Next(s, e), r) == asked;
      ResultStays(s, e, asked, result);
    case _ => assert asked + AskingFor(Next(s, e), r) == asked;
  }

  lemma ResolverAppears(s: Chat, e: Event, r: nat)
    requires Enabled(s, e) && |s.resolvers| <= r < |Next(s, e).resolvers|
    ensures ResolverTells(Next(s, e).creations, Next(s, e).resolvers[r].phase, AskingFor(Next(s, e), r))
  {
    if !TouchesSessions(e) {
      OtherStepsLeaveSessions(s, e);
    } else if e.GetSession? {
      NewResolverTells(s, None);
    } else if e.BodyStarts? {
      NewResolverTells(s, Some(e.job));
    } else {
      NobodyCalls(s, e);
    }
  }

  lemma NobodyCalls(s: Chat, e: Event)
    requires Enabled(s, e) && TouchesSessions(e) && !e.GetSession? && !e.BodyStarts?
    ensures |Next(s, e).resolvers| == |s.resolvers|
  {}

  lemma {:induction false} RunTellsResolver(chats: seq<Chat>, events: seq<Event>, n: nat, r: nat)
    requires IsRunFromStart(chats, events) && n <= |events|
    ensures var asked := AskedFor(chats, n, r);
            if r < |chats[n].resolvers| then ResolverTells(chats[n].creations, chats[n].resolvers[r].phase, asked)
            else asked == iset{}
  {
    if n > 0 {
      var before := n - 1;
      RunTellsResolver(chats, events, before, r);
      RunKeepsInv(chats, events, before);
      AskedGrows(chats, before, n, r);
      assert StepAt(chats, events, before);
      ResolverStepTells(chats[before], events[before], r, AskedFor(chats, before, r));
    } else {
      assert AskedFor(chats, 0, r) == iset{};
    }
  }

  lemma ResolverStepTells(s: Chat, e: Event, r: nat, asked: iset<nat>)
    requires Inv(s) && Enabled(s, e)
    requires if r < |s.resolvers| then ResolverTells(s.creations, s.resolvers[r].phase, asked) else asked == iset{}
    ensures var after := Next(s, e); var more := asked + AskingFor(after, r);
            if r < |after.resolvers| then ResolverTells(after.creations, after.resolvers[r].phase, more) else more == iset{}
  {
    if r >= |s.resolvers| {
      assert iset{} + AskingFor(Next(s, e), r) == AskingFor(Next(s, e), r);
      if r < |Next(s, e).resolvers| {
        ResolverAppears(s, e, r);
      }
    } else if e.ResolverEnters? && e.resolver == r {
      EnteringTells(s, r, asked);
    } else if (e.CreationAwaited? || e.SessionBuilt? || e.CreationSettles? || e.ResolverLeaves?) && e.resolver == r {
      ResolverMoveTells(s, e, asked);
    } else {
      OtherResolverStays(s, e, r);
      OtherResolverTells(s, e, r, asked);
    }
  }

  /**
   What a call of `resolveSession` returns, in every run: a rejection if and only if the one creation
   it made or waited for was rejected, that creation's session if it succeeded, and otherwise one
   that was in the map, without any creation.
   */
  lemma ResolveReturnsIff(chats: seq<Chat>, events: seq<Event>, n: nat, r: nat)
    requires IsRunFromStart(chats, events) && n <= |events|
    requires r < |chats[n].resolvers| && chats[n].resolvers[r].phase.Returned?
    ensures var s := chats[n]; var result := s.resolvers[r].phase.result; var asked := AskedFor(chats, n, r);
      && (forall c, d | c in asked && d in asked :: c == d)
      && (result.None? <==> exists c :: c in asked && c < |s.creations| && s.creations[c].stage.Rejected?)
      && (forall c | c in asked && result.Some? :: c < |s.creations| && s.creations[c].stage == Succeeded(result.value))
  {
    RunTellsResolver(chats, events, n, r);
  }

  // ---------------------------------------------------------------- which creations are rejected

  /** The event makes creation c fail: it is not built, or not given its prompt. */
  ghost predicate Fails(s: Chat, e: Event, c: nat) {
    && ((e.SessionBuilt? && !e.ok) || (e.CreationSettles? && !e.ok))
    && e.resolver < |s.resolvers| && s.resolvers[e.resolver].phase.Creating? && s.resolvers[e.resolver].phase.creation == c
  }

  /** The events that end a creation. */
  lemma EndedCreation(s: Chat, e: Event, c: nat)
    requires Enabled(s, e) && (e.SessionBuilt? || e.CreationSettles?)
    ensures var after := Next(s, e);
      (c < |after.creations| && after.creations[c].stage.Rejected?)
      <==> (c < |s.creations| && s.creations[c].stage.Rejected?) || Fails(s, e, c)
  {}

  lemma OthersRejectNothing(s: Chat, e: Event, c: nat)
    requires Enabled(s, e) && !e.SessionBuilt? && !e.CreationSettles?
    ensures (c < |Next(s, e).creations| && Next(s, e).creations[c].stage.Rejected?)
       <==> (c < |s.creations| && s.creations[c].stage.Rejected?)
  {
    if !TouchesSessions(e) {
      OtherStepsLeaveSessions(s, e);
    }
  }

  lemma RejectedStep(s: Chat, e: Event, c: nat)
    requires Enabled(s, e)
    ensures var after := Next(s, e);
      (c < |after.creations| && after.creations[c].stage.Rejected?)
      <==> (c < |s.creations| && s.creations[c].stage.Rejected?) || Fails(s, e, c)
  {
    if e.SessionBuilt? || e.CreationSettles? {
      EndedCreation(s, e, c);
    } else {
      OthersRejectNothing(s, e, c);
    }
  }

  ghost predicate FailedBefore(chats: seq<Chat>, events: seq<Event>, n: nat, c: nat)
    requires |chats| == |events| + 1 && n <= |events|
  {
    exists i :: 0 <= i < n && Fails(chats[i], events[i], c)
  }

  lemma FailedLater(chats: seq<Chat>, events: seq<Event>, n: nat, m: nat, c: nat)
    requires |chats| == |events| + 1 && m == n + 1 <= |events|
    ensures FailedBefore(chats, events, m, c) <==> FailedBefore(chats, events, n, c) || Fails(chats[n], events[n], c)
  {}

  /** A creation is rejected if and only if an event of its own made it fail. */
  lemma {:induction false} CreationRejectedIff(chats: seq<Chat>, events: seq<Event>, n: nat, c: nat)
    requires IsRunFromStart(chats, events) && n <= |events|
    ensures (c < |chats[n].creations| && chats[n].creations[c].stage.Rejected?) <==> FailedBefore(chats, events, n, c)
  {
    if n > 0 {
      var before := n - 1;
      CreationRejectedIff(chats, events, before, c);
      assert StepAt(chats, events, before);
      RejectedStep(chats[before], events[before], c);
      FailedLater(chats, events, before, n, c);
    }
  }

  // ---------------------------------------------------------------- commands

  /** Commands that were answered or became a prompt. */
  function CommandsEnded(events: seq<Event>): nat {
    if events == [] then 0
    else
      var last := events[|events| - 1];
      CommandsEnded(events[..|events| - 1]) + if last.CommandAnswered? || last.CommandExpanded? then 1 else 0
  }

  /** Commands that got past the reset guard. */
  ghost function Taken(chats: seq<Chat>, events: seq<Event>, n: nat): nat
    requires |chats| == |events| + 1 && n <= |events|
  {
    if n == 0 then 0
    else Taken(chats, events, n - 1) + if events[n - 1].CommandArrives? && !chats[n - 1].resetting then 1 else 0
  }

  lemma CommandStep(s: Chat, e: Event)
    requires Enabled(s, e)
    ensures Next(s, e).commands + (if e.CommandAnswered? || e.CommandExpanded? then 1 else 0)
         == s.commands + if e.CommandArrives? && !s.resetting then 1 else 0
  {}

  /** Every command taken is answered or expanded once; those that were not are still running. */
  lemma {:induction false} CommandsCounted(chats: seq<Chat>, events: seq<Event>, n: nat)
    requires IsRunFromStart(chats, events) && n <= |events|
    ensures chats[n].commands + CommandsEnded(events[..n])
         == Taken(chats, events, n)
  {
    if n > 0 {
      CommandsCounted(chats, events, n - 1);
      assert StepAt(chats, events, n - 1);
      CommandStep(chats[n - 1], events[n - 1]);
      assert events[..n][..n - 1] == events[..n - 1];
    }
  }
}
