/** The final answer of a turn, told from the places of the events. */
module TurnAnswers {
  import opened Wrappers
  import opened TurnCollector

  /** The first turn to start is turn t of agent a, and it starts before place k. */
  ghost predicate StartedBefore(feed: seq<Event>, k: nat, t: nat, a: string) {
    exists s: nat :: FirstStart(feed, s, k) && feed[s].turn == t && feed[s].agent == a
  }

  ghost predicate FirstStart(feed: seq<Event>, s: nat, k: nat) {
    s < k <= |feed| && feed[s].TurnStarted? && forall e | 0 <= e < s :: !feed[e].TurnStarted?
  }

  /** Behind place k the turn calls no tool any more. */
  ghost predicate NoToolBehind(feed: seq<Event>, k: nat, t: nat, a: string) {
    forall m | k < m < |feed| && feed[m].ToolCall? :: feed[m].turn != t || feed[m].agent != a
  }

  /** The text at place k is part of the final answer: the first turn says it behind its last tool call. */
  ghost predicate Final(feed: seq<Event>, k: nat) {
    && k < |feed| && feed[k].AssistantDelta?
    && StartedBefore(feed, k, feed[k].turn, feed[k].agent)
    && NoToolBehind(feed, k, feed[k].turn, feed[k].agent)
  }

  /** The final texts from place k on, in order. */
  ghost function FinalFrom(feed: seq<Event>, k: nat): string
    requires k <= |feed|
    decreases |feed| - k
  {
    if k == |feed| then "" else (if Final(feed, k) then feed[k].delta else "") + FinalFrom(feed, k + 1)
  }

  lemma {:induction false} FirstTurnIff(feed: seq<Event>, t: nat, a: string)
    ensures FirstTurn(feed) == Some(Turn(t, a)) <==> StartedBefore(feed, |feed|, t, a)
    ensures FirstTurn(feed).None? <==> forall e | 0 <= e < |feed| :: !feed[e].TurnStarted?
  {
    if feed != [] {
      var n := |feed| - 1;
      var front := feed[..n];
      FirstTurnIff(front, t, a);
      assert forall e | 0 <= e < n :: front[e] == feed[e];
      if StartedBefore(front, n, t, a) {
        var s: nat :| FirstStart(front, s, n) && front[s].turn == t && front[s].agent == a;
        assert FirstStart(feed, s, |feed|);
      }
      if StartedBefore(feed, |feed|, t, a) {
        var s: nat :| FirstStart(feed, s, |feed|) && feed[s].turn == t && feed[s].agent == a;
        if s < n {
          assert FirstStart(front, s, n);
        }
      }
      if FirstTurn(front).None? && feed[n].TurnStarted? {
        assert FirstStart(feed, n, |feed|);
      }
      if FirstTurn(front).Some? {
        var turn := FirstTurn(front).value;
        FirstTurnIff(front, turn.id, turn.agent);
      }
    }
  }

  /** An event is the collected turn's own when it names the first turn to start before it. */
  lemma OwnIff(feed: seq<Event>, k: nat)
    requires k < |feed| && (feed[k].ToolCall? || feed[k].AssistantDelta?)
    ensures Own(feed, k) <==> StartedBefore(feed, k, feed[k].turn, feed[k].agent)
  {
    var t, a := feed[k].turn, feed[k].agent;
    FirstTurnIff(feed[..k], t, a);
    assert forall s: nat :: FirstStart(feed[..k], s, k) <==> FirstStart(feed, s, k);
    if StartedBefore(feed, k, t, a) {
      var s: nat :| FirstStart(feed, s, k) && feed[s].turn == t && feed[s].agent == a;
      assert FirstStart(feed[..k], s, k) && feed[..k][s] == feed[s];
    }
    if StartedBefore(feed[..k], k, t, a) {
      var s: nat :| FirstStart(feed[..k], s, k) && feed[..k][s].turn == t && feed[..k][s].agent == a;
      assert FirstStart(feed, s, k);
    }
  }

  /** All own events are of one turn. */
  lemma OneTurn(feed: seq<Event>, k: nat, m: nat, t: nat, a: string, u: nat, b: string)
    requires k <= |feed| && m <= |feed| && StartedBefore(feed, k, t, a) && StartedBefore(feed, m, u, b)
    ensures t == u && a == b
  {
    var s: nat :| FirstStart(feed, s, k) && feed[s].turn == t && feed[s].agent == a;
    var r: nat :| FirstStart(feed, r, m) && feed[r].turn == u && feed[r].agent == b;
    assert s == r;
  }

  lemma StartedLater(feed: seq<Event>, k: nat, m: nat, t: nat, a: string)
    requires k <= m <= |feed| && StartedBefore(feed, k, t, a)
    ensures StartedBefore(feed, m, t, a)
  {
    var s: nat :| FirstStart(feed, s, k) && feed[s].turn == t && feed[s].agent == a;
    assert FirstStart(feed, s, m);
  }

  /** Behind the place where the answer begins the turn calls no tool. */
  lemma AnswerHasNoTool(feed: seq<Event>, k: nat, t: nat, a: string)
    requires AnswerFrom(feed) <= k < |feed| && StartedBefore(feed, k, t, a)
    ensures NoToolBehind(feed, k, t, a)
  {
    forall m | k < m < |feed| && feed[m].ToolCall?
      ensures feed[m].turn != t || feed[m].agent != a
    {
      OwnIff(feed, m);
      if feed[m].turn == t && feed[m].agent == a {
        StartedLater(feed, k, m, t, a);
      }
    }
  }

  /** Right before that place it calls one. */
  lemma ToolBeforeAnswer(feed: seq<Event>, k: nat, t: nat, a: string)
    requires k + 1 < AnswerFrom(feed) && StartedBefore(feed, k, t, a)
    ensures !NoToolBehind(feed, k, t, a)
  {
    var m := AnswerFrom(feed) - 1;
    OwnIff(feed, m);
    OneTurn(feed, k, m, t, a, feed[m].turn, feed[m].agent);
  }

  /** An own text is final exactly from where the answer begins. */
  lemma FinalIff(feed: seq<Event>, k: nat)
    requires k < |feed|
    ensures Final(feed, k) <==> AnswerFrom(feed) <= k && Own(feed, k) && feed[k].AssistantDelta?
  {
    if feed[k].AssistantDelta? {
      OwnIff(feed, k);
      if Own(feed, k) {
        if AnswerFrom(feed) <= k {
          AnswerHasNoTool(feed, k, feed[k].turn, feed[k].agent);
        } else if k + 1 < AnswerFrom(feed) {
          ToolBeforeAnswer(feed, k, feed[k].turn, feed[k].agent);
        }
      }
    }
  }

  lemma {:induction false} SaidIsFinal(feed: seq<Event>, k: nat)
    requires AnswerFrom(feed) <= k <= |feed|
    ensures SaidFrom(feed, k) == FinalFrom(feed, k)
    decreases |feed| - k
  {
    if k < |feed| {
      FinalIff(feed, k);
      SaidIsFinal(feed, k + 1);
    }
  }

  lemma {:induction false} NothingFinalBefore(feed: seq<Event>, k: nat)
    requires k <= AnswerFrom(feed)
    ensures FinalFrom(feed, k) == FinalFrom(feed, AnswerFrom(feed))
    decreases AnswerFrom(feed) - k
  {
    if k < AnswerFrom(feed) {
      FinalIff(feed, k);
      NothingFinalBefore(feed, k + 1);
    }
  }

  /** The collected answer is what the first turn to start says behind its last tool call, and nothing of any other turn or agent. */
  lemma AnswerIsFinal(feed: seq<Event>)
    ensures FinalText(feed) == FinalFrom(feed, 0)
  {
    NothingFinalBefore(feed, 0);
    SaidIsFinal(feed, AnswerFrom(feed));
  }
}
