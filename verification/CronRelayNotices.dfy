/**
 Over every history: a fire that is taken up sends its notice, once, and no other fire does;
 and a fire is taken up exactly when no user turn runs and no earlier one is still collected.
 */
module CronRelayNotices {
  import opened CronRelay
  import opened CronRelayTheorems
  import opened TurnCollector
  import opened Whitespace
  import opened Wrappers

  /** What one input adds to the notices sent. */
  lemma NoticesAfter(r: Relay, x: Input, fire: nat, text: string)
    ensures multiset(Step(r, x).sent)[Notice(fire, text)]
         == multiset(r.sent)[Notice(fire, text)]
            + if x.Fire? && !x.busy && r.collecting.None? && fire == r.inputs && x.notice == Some(text) then 1 else 0
  {
    match x
    case Fire(notice, pendingStart, failureNotice, busy) =>
      if !busy && r.collecting.None? {
        var c := Collection(r.inputs, [], failureNotice);
        var begun := r.(collecting := Some(c), guards := r.guards + {r.inputs});
        var fed := if pendingStart.Some? then Feed(begun, c, pendingStart.value) else begun;
        if pendingStart.Some? {
          FeedSendsNoNotice(begun, c, pendingStart.value, fire, text);
        }
        if notice.Some? {
          OneMoreSent(fed.sent, Notice(r.inputs, notice.value), Notice(fire, text));
        }
      }
    case Incoming(event, busy) =>
      if r.collecting.Some? && !busy {
        FeedSendsNoNotice(r, r.collecting.value, event, fire, text);
      }
    case _ =>
  }

  lemma OneMoreSent(sent: seq<Sent>, m: Sent, n: Sent)
    ensures multiset(sent + [m])[n] == multiset(sent)[n] + if m == n then 1 else 0
  {}

  /** A collection that ends sends a result, never a notice. */
  lemma FeedSendsNoNotice(r: Relay, c: Collection, e: Event, fire: nat, text: string)
    ensures multiset(Feed(r, c, e).sent)[Notice(fire, text)] == multiset(r.sent)[Notice(fire, text)]
  {
    var grown := c.(feed := c.feed + [e]);
    if Settles(c.feed, e) {
      var out := Outgoing(grown.fire, grown.feed, grown.failureNotice);
      assert Feed(r, c, e).sent == r.sent + out;
      assert out == [] || (out == [out[0]] && out[0].Result?());
      if out != [] {
        OneMoreSent(r.sent, out[0], Notice(fire, text));
      } else {
        assert r.sent + [] == r.sent;
      }
    }
  }

  /** Every fire that is taken up with a notice sends that notice, exactly once; no other notice is ever sent. */
  lemma {:induction false} NoticeIffAccepted(inputs: seq<Input>, fire: nat, text: string)
    ensures multiset(Run(inputs).sent)[Notice(fire, text)]
         == if Accepted(inputs, fire) && inputs[fire].notice == Some(text) then 1 else 0
  {
    if inputs != [] {
      var front, last := inputs[..|inputs| - 1], |inputs| - 1;
      NoticeIffAccepted(front, fire, text);
      NoticesAfter(Run(front), inputs[last], fire, text);
      if fire < last {
        assert inputs[..fire] == front[..fire];
      } else if fire == last {
        assert inputs[..fire] == front;
      }
    }
  }

  /** The runtime holds the guard of the fire being collected and no other. */
  ghost predicate GuardHeld(r: Relay) {
    && r.guards == (if r.collecting.Some? then {r.collecting.value.fire} else {})
    && (r.collecting.Some? ==> r.collecting.value.fire < r.inputs)
  }

  lemma {:induction false} OneGuardAtMost(inputs: seq<Input>)
    ensures GuardHeld(Run(inputs))
  {
    if inputs != [] {
      OneGuardAtMost(inputs[..|inputs| - 1]);
    }
  }

  /** The fire is being collected: taken up, and neither disturbed nor settled since. */
  ghost predicate StillCollected(inputs: seq<Input>, i: nat) {
    i < |inputs| && Accepted(inputs, i)
    && Undisturbed(inputs, i, |inputs| - 1) && UnsettledThrough(inputs, i, |inputs| - 1)
  }

  /** A fire is taken up exactly when the user is not served and no earlier fire is still collected. */
  lemma AcceptedIff(inputs: seq<Input>, i: nat)
    requires i < |inputs|
    ensures Accepted(inputs, i) <==>
      inputs[i].Fire? && !inputs[i].busy && forall e: nat :: !StillCollected(inputs[..i], e)
  {
    CollectingIff(inputs[..i]);
  }

  lemma CollectingIff(inputs: seq<Input>)
    ensures Run(inputs).collecting.Some? <==> exists e: nat :: StillCollected(inputs, e)
  {
    if Run(inputs).collecting.Some? {
      RunKeeps(inputs);
      CollectedIsUnderway(inputs, Run(inputs).collecting.value);
    }
    if e: nat :| StillCollected(inputs, e) {
      KeepsCollecting(inputs, e, FeedOf(inputs, e, |inputs| - 1));
    }
  }

  lemma CollectedIsUnderway(inputs: seq<Input>, c: Collection)
    requires Underway(inputs, c.fire, c.feed)
    ensures StillCollected(inputs, c.fire)
  {}

  // ---------------------------------------------------------------- results

  /** The result for fire i, whose collection settled at input j: its text, or without one the failure notice if it has one. */
  ghost predicate ResultOf(inputs: seq<Input>, i: nat, j: nat, m: Sent) {
    && i <= j < |inputs| && Accepted(inputs, i) && SettledAt(inputs, i, j)
    && var text := Trim(FinalText(FeedOf(inputs, i, j)));
       if text == "" then m.NoAnswer? && m.fire == i && inputs[i].failureNotice == Some(m.text)
       else m == Answer(i, text)
  }

  lemma {:induction false} PrefixAgrees(inputs: seq<Input>, n: nat, i: nat, j: nat)
    requires i <= j < n <= |inputs| && inputs[i].Fire?
    ensures Accepted(inputs[..n], i) == Accepted(inputs, i)
    ensures SettledAt(inputs[..n], i, j) == SettledAt(inputs, i, j)
    ensures FeedOf(inputs[..n], i, j) == FeedOf(inputs, i, j)
    decreases |inputs| - n
  {
    if n == |inputs| {
      assert inputs[..n] == inputs;
    } else {
      var next := n + 1;
      assert inputs[..next] == inputs[..n] + [inputs[n]];
      UnsettledLonger(inputs[..n], inputs[n], i, j);
      FeedOfLonger(inputs[..n], inputs[n], i, j);
      PrefixAgrees(inputs, next, i, j);
    }
  }

  lemma StepSends(r: Relay, x: Input)
    ensures r.sent <= Step(r, x).sent
  {}

  lemma {:induction false} SentStays(inputs: seq<Input>, n: nat, m: Sent)
    requires n <= |inputs| && m in Run(inputs[..n]).sent
    ensures m in Run(inputs).sent
    decreases |inputs| - n
  {
    if n == |inputs| {
      assert inputs[..n] == inputs;
    } else {
      var next := n + 1;
      assert inputs[..next] == inputs[..n] + [inputs[n]];
      RunAppend(inputs[..n], inputs[n]);
      StepSends(Run(inputs[..n]), inputs[n]);
      SentStays(inputs, next, m);
    }
  }

  /** The replayed start event settles the collection at once. */
  lemma SettledByStart(r: Relay, x: Input, m: Sent)
    requires x.Fire? && !x.busy && r.collecting.None? && x.pendingStart.Some? && Settles([], x.pendingStart.value)
    requires m in Outgoing(r.inputs, [x.pendingStart.value], x.failureNotice)
    ensures m in Step(r, x).sent
  {
    var c := Collection(r.inputs, [], x.failureNotice);
    var begun := r.(collecting := Some(c), guards := r.guards + {r.inputs});
    var start := x.pendingStart.value;
    assert [] + [start] == [start];
    assert m in Feed(begun, c, start).sent;
  }

  lemma ResultIsSent(inputs: seq<Input>, i: nat, j: nat, m: Sent)
    requires ResultOf(inputs, i, j, m)
    ensures m in Run(inputs).sent
  {
    var n := j + 1;
    var before, longer := inputs[..j], inputs[..n];
    assert longer == before + [inputs[j]];
    PrefixAgrees(inputs, n, i, j);
    assert longer[i] == inputs[i];
    assert m in Outgoing(i, FeedOf(inputs, i, j), inputs[i].failureNotice);
    if i < j {
      SettledFireIsAnswered(before, inputs[j], i, longer, j);
    } else {
      RunAppend(before, inputs[j]);
      SettledByStart(Run(before), inputs[j], m);
    }
    SentStays(inputs, n, m);
  }

  /** A result is sent exactly when its fire was taken up and its collection ran undisturbed to an end that gives this result. */
  lemma ResultIff(inputs: seq<Input>, m: Sent)
    requires m.Result?()
    ensures m in Run(inputs).sent <==> exists j: nat :: ResultOf(inputs, m.fire, j, m)
  {
    if m in Run(inputs).sent {
      var a :| 0 <= a < |Run(inputs).sent| && Run(inputs).sent[a] == m;
      RunKeeps(inputs);
      assert Justified(inputs, m);
      var j :| m.fire <= j < |inputs| && SettledAt(inputs, m.fire, j) && Due(inputs, m.fire, j, m);
      assert ResultOf(inputs, m.fire, j, m);
    }
    if j: nat :| ResultOf(inputs, m.fire, j, m) {
      ResultIsSent(inputs, m.fire, j, m);
    }
  }
}
