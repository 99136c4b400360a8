/**
 Over every history: a fire gets at most one result, a fire that was not taken up gets
 nothing, and what is delivered is the final answer of the turn that was collected for it.
 */
module CronRelayTheorems {
  import opened CronRelay
  import opened TurnCollector
  import opened Whitespace
  import opened Wrappers

  // ---------------------------------------------------------------- one more input

  lemma RunAppend(inputs: seq<Input>, x: Input)
    ensures Run(inputs + [x]) == Step(Run(inputs), x)
  {
    assert (inputs + [x])[..|inputs|] == inputs;
  }

  lemma {:induction false} FeedOfLonger(inputs: seq<Input>, x: Input, i: nat, j: nat)
    requires i <= j < |inputs| && inputs[i].Fire?
    ensures FeedOf(inputs + [x], i, j) == FeedOf(inputs, i, j)
    ensures SettlesAt(inputs + [x], i, j) == SettlesAt(inputs, i, j)
    decreases j
  {
    if i < j {
      FeedOfLonger(inputs, x, i, j - 1);
    }
  }

  lemma {:induction false} UnsettledLonger(inputs: seq<Input>, x: Input, i: nat, j: nat)
    requires i <= j < |inputs| && inputs[i].Fire?
    ensures UnsettledThrough(inputs + [x], i, j) == UnsettledThrough(inputs, i, j)
    ensures Undisturbed(inputs + [x], i, j) == Undisturbed(inputs, i, j)
    ensures SettledAt(inputs + [x], i, j) == SettledAt(inputs, i, j)
    ensures Accepted(inputs + [x], i) == Accepted(inputs, i)
  {
    var longer := inputs + [x];
    assert longer[..i] == inputs[..i];
    forall k | i <= k <= j ensures SettlesAt(longer, i, k) == SettlesAt(inputs, i, k) {
      FeedOfLonger(inputs, x, i, k);
    }
    assert forall k | 0 <= k < |inputs| :: longer[k] == inputs[k];
    assert forall k | i <= k <= j - 1 :: SettlesAt(longer, i, k) == SettlesAt(inputs, i, k);
  }

  // ---------------------------------------------------------------- what is being collected

  /** Fire i has been collected up to the last input, undisturbed and not settled. */
  ghost predicate Underway(inputs: seq<Input>, i: nat, feed: seq<Event>) {
    && Accepted(inputs, i) && feed == FeedOf(inputs, i, |inputs| - 1)
    && UnsettledThrough(inputs, i, |inputs| - 1) && Undisturbed(inputs, i, |inputs| - 1)
  }

  /** The collection under way is that of an accepted fire, undisturbed and not settled since. */
  ghost predicate CollectingInv(inputs: seq<Input>, r: Relay) {
    r.collecting.Some? ==>
      var c := r.collecting.value;
      Underway(inputs, c.fire, c.feed) && c.failureNotice == inputs[c.fire].failureNotice && c.fire in r.guards
  }

  /** The result of a fire that settled at input j. */
  ghost predicate Due(inputs: seq<Input>, i: nat, j: nat, m: Sent)
    requires i <= j < |inputs| && inputs[i].Fire?
  {
    m in Outgoing(i, FeedOf(inputs, i, j), inputs[i].failureNotice)
  }

  /** Something sent: the notice of an accepted fire, or the result due where its collection settled. */
  ghost predicate Justified(inputs: seq<Input>, m: Sent) {
    && Accepted(inputs, m.fire)
    && if m.Notice? then inputs[m.fire].notice == Some(m.text)
       else exists j :: m.fire <= j < |inputs| && SettledAt(inputs, m.fire, j) && Due(inputs, m.fire, j, m)
  }

  ghost predicate SentInv(inputs: seq<Input>, r: Relay) {
    && (forall a | 0 <= a < |r.sent| :: Justified(inputs, r.sent[a]))
    && (forall a, b | 0 <= a < b < |r.sent| && r.sent[a].Result?() && r.sent[b].Result?() :: r.sent[a].fire != r.sent[b].fire)
    && (forall a | 0 <= a < |r.sent| && r.sent[a].Result?() && r.collecting.Some? :: r.sent[a].fire != r.collecting.value.fire)
  }

  lemma JustifiedLonger(inputs: seq<Input>, x: Input, m: Sent)
    requires Justified(inputs, m)
    ensures Justified(inputs + [x], m)
  {
    UnsettledLonger(inputs, x, m.fire, m.fire);
    if !m.Notice? {
      var j :| m.fire <= j < |inputs| && SettledAt(inputs, m.fire, j) && Due(inputs, m.fire, j, m);
      UnsettledLonger(inputs, x, m.fire, j);
      FeedOfLonger(inputs, x, m.fire, j);
      assert SettledAt(inputs + [x], m.fire, j) && Due(inputs + [x], m.fire, j, m);
    }
  }

  lemma AllJustifiedLonger(inputs: seq<Input>, x: Input, sent: seq<Sent>)
    requires forall a | 0 <= a < |sent| :: Justified(inputs, sent[a])
    ensures forall a | 0 <= a < |sent| :: Justified(inputs + [x], sent[a])
  {
    forall a | 0 <= a < |sent| ensures Justified(inputs + [x], sent[a]) {
      JustifiedLonger(inputs, x, sent[a]);
    }
  }

  /** Fires that results were sent for lie in the past. */
  lemma SentForEarlier(inputs: seq<Input>, r: Relay, a: nat)
    requires SentInv(inputs, r) && a < |r.sent|
    ensures r.sent[a].fire < |inputs|
  {
    assert Justified(inputs, r.sent[a]);
  }

  // ---------------------------------------------------------------- steps

  lemma UndisturbedGrows(inputs: seq<Input>, i: nat, m: nat, n: nat)
    requires n == m + 1 && i <= m && n < |inputs| && Undisturbed(inputs, i, m)
    requires !inputs[n].Dispose? && inputs[n] != GuardFires(i) && (inputs[n].Incoming? ==> !inputs[n].busy)
    ensures Undisturbed(inputs, i, n)
  {}

  lemma UnsettledGrows(inputs: seq<Input>, i: nat, m: nat, n: nat)
    requires n == m + 1 && i <= m && n < |inputs| && inputs[i].Fire? && UnsettledThrough(inputs, i, m)
    ensures SettlesAt(inputs, i, n) || UnsettledThrough(inputs, i, n)
  {}

  /** The history of the collection under way, seen with one more input. */
  lemma LongerHistory(inputs: seq<Input>, x: Input, i: nat, feed: seq<Event>, longer: seq<Input>, m: nat, n: nat)
    requires Underway(inputs, i, feed) && longer == inputs + [x] && n == |inputs| && m == n - 1
    ensures Accepted(longer, i) && longer[i] == inputs[i] && longer[n] == x && FeedOf(longer, i, m) == feed
    ensures UnsettledThrough(longer, i, m) && Undisturbed(longer, i, m)
    ensures FeedOf(longer, i, n) == feed + if x.Incoming? then [x.event] else []
    ensures SettlesAt(longer, i, n) <==> x.Incoming? && Settles(feed, x.event)
  {
    UnsettledLonger(inputs, x, i, m);
    FeedOfLonger(inputs, x, i, m);
  }

  /** One more event for the collection under way. */
  lemma EventUnderway(inputs: seq<Input>, x: Input, i: nat, feed: seq<Event>, longer: seq<Input>, n: nat)
    requires Underway(inputs, i, feed) && x.Incoming? && !x.busy && longer == inputs + [x] && n == |inputs|
    ensures Accepted(longer, i) && longer[i] == inputs[i] && FeedOf(longer, i, n) == feed + [x.event]
    ensures Settles(feed, x.event) ==> SettledAt(longer, i, n)
    ensures !Settles(feed, x.event) ==> Underway(longer, i, feed + [x.event])
  {
    var m: nat := n - 1;
    LongerHistory(inputs, x, i, feed, longer, m, n);
    UndisturbedGrows(longer, i, m, n);
    UnsettledGrows(longer, i, m, n);
  }

  /** An input that is no event and no disturbance leaves the collection under way as it is. */
  lemma OtherUnderway(inputs: seq<Input>, x: Input, i: nat, feed: seq<Event>, longer: seq<Input>, n: nat)
    requires Underway(inputs, i, feed) && longer == inputs + [x] && n == |inputs|
    requires !x.Incoming? && !x.Dispose? && x != GuardFires(i)
    ensures Underway(longer, i, feed) && longer[i] == inputs[i]
  {
    var m: nat := n - 1;
    LongerHistory(inputs, x, i, feed, longer, m, n);
    UndisturbedGrows(longer, i, m, n);
    UnsettledGrows(longer, i, m, n);
    assert feed + [] == feed;
  }

  /** An event for the collector keeps the collection up to date, or settles it. */
  lemma FeedKeeps(inputs: seq<Input>, x: Input, r: Relay, c: Collection, e: Event)
    requires r.collecting.Some? && r.collecting.value == c && CollectingInv(inputs, r) && SentInv(inputs, r)
    requires x == Incoming(e, false)
    ensures CollectingInv(inputs + [x], Feed(r, c, e)) && SentInv(inputs + [x], Feed(r, c, e))
  {
    var longer := inputs + [x];
    EventUnderway(inputs, x, c.fire, c.feed, longer, |inputs|);
    AllJustifiedLonger(inputs, x, r.sent);
    if Settles(c.feed, e) {
      ResultJustified(longer, c.fire, |inputs|, r.sent, c.feed + [e], c.failureNotice);
    }
  }

  /** The results of a settled fire, put behind what was sent before. */
  lemma ResultJustified(inputs: seq<Input>, i: nat, j: nat, sent: seq<Sent>, feed: seq<Event>, failureNotice: Option<string>)
    requires i <= j < |inputs| && Accepted(inputs, i) && SettledAt(inputs, i, j)
    requires failureNotice == inputs[i].failureNotice && feed == FeedOf(inputs, i, j)
    requires forall a | 0 <= a < |sent| :: Justified(inputs, sent[a])
    requires forall a | 0 <= a < |sent| && sent[a].Result?() :: sent[a].fire != i
    requires forall a, b | 0 <= a < b < |sent| && sent[a].Result?() && sent[b].Result?() :: sent[a].fire != sent[b].fire
    ensures var after := sent + Outgoing(i, feed, failureNotice);
      && (forall a | 0 <= a < |after| :: Justified(inputs, after[a]))
      && (forall a, b | 0 <= a < b < |after| && after[a].Result?() && after[b].Result?() :: after[a].fire != after[b].fire)
  {
    var results := Outgoing(i, feed, failureNotice);
    if results != [] {
      assert |results| == 1 && Due(inputs, i, j, results[0]) && results[0].fire == i;
      assert Justified(inputs, results[0]);
    }
  }

  /** An input that changes neither the collection nor what was sent, and does not disturb the collection. */
  lemma OtherKeeps(inputs: seq<Input>, x: Input, r: Relay, after: Relay)
    requires CollectingInv(inputs, r) && SentInv(inputs, r)
    requires after.sent == r.sent && after.collecting == r.collecting
    requires r.collecting.Some? ==> r.collecting.value.fire in after.guards
    requires !x.Incoming? && !x.Dispose? && (r.collecting.Some? ==> x != GuardFires(r.collecting.value.fire))
    ensures CollectingInv(inputs + [x], after) && SentInv(inputs + [x], after)
  {
    AllJustifiedLonger(inputs, x, r.sent);
    if r.collecting.Some? {
      OtherUnderway(inputs, x, r.collecting.value.fire, r.collecting.value.feed, inputs + [x], |inputs|);
    }
  }

  /** An input that ends the collection without a result, or finds none. */
  lemma EndKeeps(inputs: seq<Input>, x: Input, r: Relay, after: Relay)
    requires SentInv(inputs, r) && after.sent == r.sent && after.collecting.None?
    ensures CollectingInv(inputs + [x], after) && SentInv(inputs + [x], after)
  {
    AllJustifiedLonger(inputs, x, r.sent);
  }

  /** The notice that a fire was taken up. */
  lemma NoticeKeeps(inputs: seq<Input>, r: Relay, i: nat, text: string)
    requires CollectingInv(inputs, r) && SentInv(inputs, r)
    requires Accepted(inputs, i) && inputs[i].notice == Some(text)
    ensures CollectingInv(inputs, r.(sent := r.sent + [Notice(i, text)]))
    ensures SentInv(inputs, r.(sent := r.sent + [Notice(i, text)]))
  {
    assert Justified(inputs, Notice(i, text));
  }

  /** The fire's own start of a turn, replayed to its collector. */
  lemma ReplayKeeps(inputs: seq<Input>, i: nat, r: Relay, c: Collection, e: Event)
    requires i + 1 == |inputs| && Accepted(inputs, i) && inputs[i].pendingStart == Some(e)
    requires c == Collection(i, [], inputs[i].failureNotice) && r.collecting == Some(c) && i in r.guards
    requires forall a | 0 <= a < |r.sent| :: Justified(inputs, r.sent[a]) && r.sent[a].fire != i
    requires SentInv(inputs, r.(collecting := None))
    ensures CollectingInv(inputs, Feed(r, c, e)) && SentInv(inputs, Feed(r, c, e))
  {
    assert FeedOf(inputs, i, i) == [] + [e];
    assert SettlesAt(inputs, i, i) == Settles([], e);
    if Settles([], e) {
      assert SettledAt(inputs, i, i);
      ResultJustified(inputs, i, i, r.sent, [] + [e], c.failureNotice);
    }
  }

  /** An accepted fire starts a collection of its own. */
  lemma BeginKeeps(inputs: seq<Input>, x: Input, r: Relay)
    requires r == Run(inputs) && r.collecting.None? && SentInv(inputs, r) && x.Fire? && !x.busy
    ensures CollectingInv(inputs + [x], Begin(r, x)) && SentInv(inputs + [x], Begin(r, x))
  {
    var longer := inputs + [x];
    var i := |inputs|;
    assert longer[..i] == inputs && Accepted(longer, i);
    AllJustifiedLonger(inputs, x, r.sent);
    forall a | 0 <= a < |r.sent| ensures r.sent[a].fire != i {
      SentForEarlier(inputs, r, a);
    }
    var c := Collection(i, [], x.failureNotice);
    var begun := r.(collecting := Some(c), guards := r.guards + {i});
    var fed := if x.pendingStart.Some? then Feed(begun, c, x.pendingStart.value) else begun;
    if x.pendingStart.Some? {
      ReplayKeeps(longer, i, begun, c, x.pendingStart.value);
    } else {
      assert FeedOf(longer, i, i) == [] && !SettlesAt(longer, i, i);
    }
    if x.notice.Some? {
      NoticeKeeps(longer, fed, i, x.notice.value);
    }
  }

  lemma StepKeeps(inputs: seq<Input>, x: Input)
    requires CollectingInv(inputs, Run(inputs)) && SentInv(inputs, Run(inputs))
    ensures CollectingInv(inputs + [x], Run(inputs + [x])) && SentInv(inputs + [x], Run(inputs + [x]))
  {
    RunAppend(inputs, x);
    var r := Run(inputs);
    match x
    case Fire(_, _, _, busy) =>
      if busy || r.collecting.Some? {
        OtherKeeps(inputs, x, r, r);
      } else {
        BeginKeeps(inputs, x, r);
      }
    case Incoming(event, busy) =>
      if r.collecting.None? || busy {
        EndKeeps(inputs, x, r, Handle(r, x));
      } else {
        FeedKeeps(inputs, x, r, r.collecting.value, event);
      }
    case GuardFires(fire) =>
      if r.collecting.Some? && r.collecting.value.fire != fire {
        OtherKeeps(inputs, x, r, Handle(r, x));
      } else {
        EndKeeps(inputs, x, r, Handle(r, x));
      }
    case Dispose =>
      EndKeeps(inputs, x, r, Handle(r, x));
  }

  lemma {:induction false} RunKeeps(inputs: seq<Input>)
    ensures CollectingInv(inputs, Run(inputs)) && SentInv(inputs, Run(inputs))
  {
    if inputs != [] {
      var front := inputs[..|inputs| - 1];
      RunKeeps(front);
      StepKeeps(front, inputs[|inputs| - 1]);
      assert inputs == front + [inputs[|inputs| - 1]];
    }
  }

  // ---------------------------------------------------------------- main results

  /** At most one result for a fire. */
  lemma OneResultPerFire(inputs: seq<Input>, a: nat, b: nat)
    requires a < b < |Run(inputs).sent| && Run(inputs).sent[a].Result?() && Run(inputs).sent[b].Result?()
    ensures Run(inputs).sent[a].fire != Run(inputs).sent[b].fire
  {
    RunKeeps(inputs);
  }

  /** A fire that arrives busy, or while another is being collected, is never mentioned. */
  lemma DroppedFiresAreSilent(inputs: seq<Input>, a: nat)
    requires a < |Run(inputs).sent|
    ensures Accepted(inputs, Run(inputs).sent[a].fire)
  {
    RunKeeps(inputs);
    assert Justified(inputs, Run(inputs).sent[a]);
  }

  /** What is delivered is the trimmed final answer of the turn collected for the fire, up to the event that settled it. */
  lemma AnswerIsFinalText(inputs: seq<Input>, a: nat)
    requires a < |Run(inputs).sent| && Run(inputs).sent[a].Answer?
    ensures var m := Run(inputs).sent[a];
      && m.fire < |inputs| && inputs[m.fire].Fire? && m.text != ""
      && exists j :: m.fire <= j < |inputs| && SettledAt(inputs, m.fire, j) && m.text == Trim(FinalText(FeedOf(inputs, m.fire, j)))
  {
    RunKeeps(inputs);
    var m := Run(inputs).sent[a];
    assert Justified(inputs, m) && !m.Notice?;
    var j :| m.fire <= j < |inputs| && SettledAt(inputs, m.fire, j) && Due(inputs, m.fire, j, m);
  }

  /** One input that neither disturbs nor settles. */
  lemma StaysCollecting(r: Relay, c: Collection, x: Input, feed: seq<Event>)
    requires r.collecting == Some(c) && !x.Dispose? && x != GuardFires(c.fire)
    requires x.Incoming? ==> !x.busy && !Settles(c.feed, x.event)
    requires feed == c.feed + if x.Incoming? then [x.event] else []
    ensures Step(r, x).collecting == Some(c.(feed := feed))
  {
    assert c.feed + [] == c.feed;
  }

  /** The input that starts the collection, without settling it. */
  lemma StartsCollecting(r: Relay, x: Input, feed: seq<Event>)
    requires r.collecting.None? && x.Fire? && !x.busy
    requires x.pendingStart.Some? ==> !Settles([], x.pendingStart.value)
    requires feed == if x.pendingStart.Some? then [x.pendingStart.value] else []
    ensures Step(r, x).collecting == Some(Collection(r.inputs, feed, x.failureNotice))
  {
    if x.pendingStart.Some? {
      assert [] + [x.pendingStart.value] == [x.pendingStart.value];
    }
  }

  /** As long as nothing disturbs or settles it, an accepted fire stays the one being collected. */
  lemma {:induction false} KeepsCollecting(inputs: seq<Input>, i: nat, feed: seq<Event>)
    requires Underway(inputs, i, feed)
    ensures Run(inputs).collecting == Some(Collection(i, feed, inputs[i].failureNotice))
    decreases |inputs|
  {
    var front, x := inputs[..|inputs| - 1], inputs[|inputs| - 1];
    var n := |front|;
    assert inputs == front + [x];
    RunAppend(front, x);
    assert !SettlesAt(inputs, i, n);
    if i == n {
      assert inputs[..i] == front;
      StartsCollecting(Run(front), x, feed);
    } else {
      var before := FeedOf(front, i, n - 1);
      EarlierUnderway(front, x, i, n, inputs);
      KeepsCollecting(front, i, before);
      FeedOfLonger(front, x, i, n - 1);
      StaysCollecting(Run(front), Collection(i, before, inputs[i].failureNotice), x, feed);
    }
  }

  lemma EarlierUnderway(front: seq<Input>, x: Input, i: nat, n: nat, inputs: seq<Input>)
    requires n == |front| && i < n && inputs == front + [x]
    requires Accepted(inputs, i) && UnsettledThrough(inputs, i, n - 1) && Undisturbed(inputs, i, n - 1)
    ensures Underway(front, i, FeedOf(front, i, n - 1)) && front[i] == inputs[i]
  {
    assert front[i] == inputs[i];
    assert inputs[i].Fire?;
    UnsettledLonger(front, x, i, n - 1);
  }

  /** A collection that runs undisturbed to its end gets its result at that very input. */
  lemma SettledFireIsAnswered(inputs: seq<Input>, x: Input, i: nat, longer: seq<Input>, n: nat)
    requires longer == inputs + [x] && n == |inputs| && i < n && Accepted(longer, i) && SettledAt(longer, i, n)
    ensures Run(longer).sent == Run(inputs).sent + Outgoing(i, FeedOf(longer, i, n), longer[i].failureNotice)
  {
    var feed := FeedOf(inputs, i, n - 1);
    assert longer[n] == x;
    assert Undisturbed(longer, i, n - 1);
    EarlierUnderway(inputs, x, i, n, longer);
    FeedOfLonger(inputs, x, i, n - 1);
    KeepsCollecting(inputs, i, feed);
    RunAppend(inputs, x);
    SettlingStep(Run(inputs), Collection(i, feed, inputs[i].failureNotice), x);
  }

  lemma SettlingStep(r: Relay, c: Collection, x: Input)
    requires r.collecting == Some(c) && x.Incoming? && !x.busy && Settles(c.feed, x.event)
    ensures Step(r, x).sent == r.sent + Outgoing(c.fire, c.feed + [x.event], c.failureNotice)
  {}
}
