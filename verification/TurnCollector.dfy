/**
 Collecting the final answer of one turn from the session's event stream: what counts is
 what the turn says after its last tool call.
 */
module TurnCollector {
  import opened Wrappers

  datatype Reason = Completed | Cancelled | FailedTurn

  datatype Event =
    | ErrorEvent(agent: string, code: string, message: string)
    | TurnStarted(turn: nat, agent: string)
    | ToolCall(turn: nat, agent: string)          // `tool.call.started` or `tool.call.delta`
    | AssistantDelta(turn: nat, agent: string, delta: string)
    | TurnEnded(turn: nat, agent: string, reason: Reason, stepBudgetExhausted: bool)
    | OtherEvent
  {
    predicate Of(t: nat, a: string) {
      (ToolCall? || AssistantDelta? || TurnEnded?) && turn == t && agent == a
    }
  }

  datatype Turn = Turn(id: nat, agent: string)

  datatype Failure = Failure(code: string, message: string)

  // ---------------------------------------------------------------- what a stream of events says

  /** The turn that is collected: the first one that starts. */
  function FirstTurn(feed: seq<Event>): Option<Turn> {
    if feed == [] then None
    else
      var earlier := FirstTurn(feed[..|feed| - 1]);
      var e := feed[|feed| - 1];
      if earlier.Some? then earlier else if e.TurnStarted? then Some(Turn(e.turn, e.agent)) else None
  }

  /** The event belongs to the collected turn, and that turn has started before it. */
  predicate Own(feed: seq<Event>, k: nat)
    requires k < |feed|
  {
    var turn := FirstTurn(feed[..k]);
    turn.Some? && feed[k].Of(turn.value.id, turn.value.agent)
  }

  /** Where the final answer begins: behind the last tool call of the collected turn. */
  function AnswerFrom(feed: seq<Event>): (from: nat)
    ensures from <= |feed|
    ensures forall k | from <= k < |feed| :: !(Own(feed, k) && feed[k].ToolCall?)
    ensures from > 0 ==> Own(feed, from - 1) && feed[from - 1].ToolCall?
  {
    if feed == [] then 0
    else
      var n := |feed| - 1;
      var front := feed[..n];
      assert forall k | 0 <= k <= n :: front[..k] == feed[..k];
      if Own(feed, n) && feed[n].ToolCall? then |feed| else AnswerFrom(front)
  }

  /** The assistant text of the collected turn from place k on. */
  function SaidFrom(feed: seq<Event>, k: nat): string
    requires k <= |feed|
    decreases |feed| - k
  {
    if k == |feed| then ""
    else (if Own(feed, k) && feed[k].AssistantDelta? then feed[k].delta else "") + SaidFrom(feed, k + 1)
  }

  /** The final answer of a stream of events. */
  function FinalText(feed: seq<Event>): string {
    SaidFrom(feed, AnswerFrom(feed))
  }

  /** The event ends the collection: an error of the main agent, or the end of the collected turn. */
  predicate Settles(feed: seq<Event>, e: Event) {
    match e
    case ErrorEvent(agent, _, _) => agent == "main"
    case TurnEnded(turn, agent, _, _) => FirstTurn(feed) == Some(Turn(turn, agent))
    case _ => false
  }

  // ---------------------------------------------------------------- the collector as an object

  class LineTurnCollector {
    var text: string
    var failure: Option<Failure>
    var ended: Option<Reason>
    var stepBudgetExhausted: bool
    var activeTurnId: Option<nat>
    var activeAgentId: Option<string>

    /** The events handled so far. */
    ghost var feed: seq<Event>

    ghost predicate Valid()
      reads this
    {
      && text == FinalText(feed)
      && (activeTurnId.Some? <==> activeAgentId.Some?)
      && FirstTurn(feed) == (if activeTurnId.Some? then Some(Turn(activeTurnId.value, activeAgentId.value)) else None)
    }

    constructor ()
      ensures Valid() && feed == [] && failure.None? && ended.None?
    {
      text, failure, ended, stepBudgetExhausted, activeTurnId, activeAgentId := "", None, None, false, None, None;
      feed := [];
    }

    /** `handleEvent`; `settled` is a call of `resolveTurn`. */
    method HandleEvent(event: Event) returns (settled: bool)
      requires Valid()
      modifies this
      ensures Valid() && feed == old(feed) + [event]
      ensures settled == Settles(old(feed), event)
      ensures settled && event.ErrorEvent? ==> failure == Some(Failure(event.code, event.message))
      ensures settled && event.TurnEnded? ==> ended == Some(event.reason)
      ensures !(settled && event.ErrorEvent?) ==> failure == old(failure)
      ensures !(settled && event.TurnEnded?) ==> ended == old(ended)
      ensures stepBudgetExhausted ==
        (old(stepBudgetExhausted)
         || (settled && event.TurnEnded? && event.reason.Completed? && event.stepBudgetExhausted))
    {
      ghost var turn := FirstTurn(feed);
      ghost var longer := feed + [event];
      OneMoreEvent(feed, event, turn, longer);
      feed := longer;
      if event.ErrorEvent? {
        if event.agent != "main" {
          return false;
        }
        failure := Some(Failure(event.code, event.message));
        return true;
      }
      if event.TurnStarted? {
        if activeTurnId.Some? {
          return false;
        }
        activeTurnId := Some(event.turn);
        activeAgentId := Some(event.agent);
        return false;
      }
      if activeTurnId.None? || activeAgentId.None? || !event.Of(activeTurnId.value, activeAgentId.value) {
        return false;
      }
      if event.ToolCall? {
        text := "";
        return false;
      }
      if event.AssistantDelta? {
        text := text + event.delta;
        return false;
      }
      ended := Some(event.reason);
      if event.reason.Completed? && event.stepBudgetExhausted {
        stepBudgetExhausted := true;
      }
      return true;
    }
  }

  predicate OwnOf(turn: Option<Turn>, e: Event) {
    turn.Some? && e.Of(turn.value.id, turn.value.agent)
  }

  /** What one more event does to the final answer. */
  lemma OneMoreEvent(feed: seq<Event>, e: Event, turn: Option<Turn>, longer: seq<Event>)
    requires turn == FirstTurn(feed) && longer == feed + [e]
    ensures FirstTurn(longer) == if turn.None? && e.TurnStarted? then Some(Turn(e.turn, e.agent)) else turn
    ensures FinalText(longer) ==
      if OwnOf(turn, e) && e.ToolCall? then ""
      else if OwnOf(turn, e) && e.AssistantDelta? then FinalText(feed) + e.delta
      else FinalText(feed)
  {
    assert longer[..|feed|] == feed;
    assert Own(longer, |feed|) <==> OwnOf(turn, e);
    SaidLonger(feed, e, AnswerFrom(feed));
  }

  lemma {:induction false} SaidLonger(feed: seq<Event>, e: Event, k: nat)
    requires k <= |feed|
    ensures var longer := feed + [e];
      SaidFrom(longer, k) == SaidFrom(feed, k) + if Own(longer, |feed|) && e.AssistantDelta? then e.delta else ""
    decreases |feed| - k
  {
    var longer := feed + [e];
    if k < |feed| {
      assert longer[..k] == feed[..k];
      SaidLonger(feed, e, k + 1);
    } else {
      assert SaidFrom(longer, |longer|) == "";
    }
  }
}
