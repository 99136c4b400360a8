/**
 The relay of scheduled tasks: a fired task's turn is collected from the session's events
 and its final answer is sent to the chat, once, and only when no user turn covers it.
 */
module CronRelay {
  import opened TurnCollector
  import opened Whitespace
  import opened Wrappers

  /** What the relay is told, with what `isBusy` says at that moment. A guard is named after its fire. */
  datatype Input =
    | Fire(notice: Option<string>, pendingStart: Option<Event>, failureNotice: Option<string>, busy: bool)
    | Incoming(event: Event, busy: bool)
    | GuardFires(fire: nat)
    | Dispose

  datatype Sent = Notice(fire: nat, text: string) | Answer(fire: nat, text: string) | NoAnswer(fire: nat, text: string)
  {
    predicate Result?() { Answer? || NoAnswer? }
  }

  /** A fire being collected, with the events its collector has seen. */
  datatype Collection = Collection(fire: nat, feed: seq<Event>, failureNotice: Option<string>)

  /** `guards` are the timers the runtime holds. Fires are numbered by their place among the inputs. */
  datatype Relay = Relay(inputs: nat, collecting: Option<Collection>, guards: set<nat>, sent: seq<Sent>)

  const IDLE := Relay(0, None, {}, [])

  // ---------------------------------------------------------------- one input

  /** What `deliver` sends for a fire whose collector has seen these events. */
  function Outgoing(fire: nat, feed: seq<Event>, failureNotice: Option<string>): seq<Sent> {
    var text := Trim(FinalText(feed));
    if text != "" then [Answer(fire, text)]
    else if failureNotice.Some? then [NoAnswer(fire, failureNotice.value)]
    else []
  }

  /** The collection is over: its guard goes, and the answer or the failure notice goes out. */
  function Deliver(r: Relay, c: Collection): Relay {
    r.(collecting := None, guards := r.guards - {c.fire}, sent := r.sent + Outgoing(c.fire, c.feed, c.failureNotice))
  }

  function Feed(r: Relay, c: Collection, e: Event): Relay {
    var grown := c.(feed := c.feed + [e]);
    if Settles(c.feed, e) then Deliver(r, grown) else r.(collecting := Some(grown))
  }

  function Drop(r: Relay): Relay {
    r.(collecting := None, guards := if r.collecting.Some? then r.guards - {r.collecting.value.fire} else r.guards)
  }

  function Begin(r: Relay, input: Input): Relay
    requires input.Fire?
  {
    var c := Collection(r.inputs, [], input.failureNotice);
    var begun := r.(collecting := Some(c), guards := r.guards + {r.inputs});
    var fed := if input.pendingStart.Some? then Feed(begun, c, input.pendingStart.value) else begun;
    if input.notice.Some? then fed.(sent := fed.sent + [Notice(r.inputs, input.notice.value)]) else fed
  }

  function Handle(r: Relay, input: Input): Relay {
    match input
    case Fire(_, _, _, busy) => if busy || r.collecting.Some? then r else Begin(r, input)
    case Incoming(event, busy) =>
      if r.collecting.None? then r else if busy then Drop(r) else Feed(r, r.collecting.value, event)
    case GuardFires(fire) =>
      if fire !in r.guards then r
      else
        var t := r.(guards := r.guards - {fire});
        if r.collecting.Some? && r.collecting.value.fire == fire then t.(collecting := None) else t
    case Dispose => Drop(r)
  }

  function Step(r: Relay, input: Input): Relay {
    Handle(r, input).(inputs := r.inputs + 1)
  }

  function Run(inputs: seq<Input>): (r: Relay)
    ensures r.inputs == |inputs|
  {
    if inputs == [] then IDLE else Step(Run(inputs[..|inputs| - 1]), inputs[|inputs| - 1])
  }

  // ---------------------------------------------------------------- what a history says

  /** The fire is taken up: no user turn is running and no other fire is being collected. */
  ghost predicate Accepted(inputs: seq<Input>, i: nat) {
    i < |inputs| && inputs[i].Fire? && !inputs[i].busy && Run(inputs[..i]).collecting.None?
  }

  /** What fire i's collector sees up to input j. */
  function FeedOf(inputs: seq<Input>, i: nat, j: nat): seq<Event>
    requires i <= j < |inputs| && inputs[i].Fire?
    decreases j
  {
    if j == i then (if inputs[i].pendingStart.Some? then [inputs[i].pendingStart.value] else [])
    else FeedOf(inputs, i, j - 1) + if inputs[j].Incoming? then [inputs[j].event] else []
  }

  /** Between fire i and input j nobody takes the chat over, gives up or resets. */
  predicate Undisturbed(inputs: seq<Input>, i: nat, j: nat)
    requires j < |inputs|
  {
    forall k | i < k <= j :: !inputs[k].Dispose? && inputs[k] != GuardFires(i) && (inputs[k].Incoming? ==> !inputs[k].busy)
  }

  /** Input j brings the event that settles the collection of fire i. */
  predicate SettlesAt(inputs: seq<Input>, i: nat, j: nat)
    requires i <= j < |inputs| && inputs[i].Fire?
  {
    if j == i then inputs[i].pendingStart.Some? && Settles([], inputs[i].pendingStart.value)
    else inputs[j].Incoming? && Settles(FeedOf(inputs, i, j - 1), inputs[j].event)
  }

  predicate UnsettledThrough(inputs: seq<Input>, i: nat, j: nat)
    requires i <= j < |inputs| && inputs[i].Fire?
  {
    forall k | i <= k <= j :: !SettlesAt(inputs, i, k)
  }

  /** Fire i's collection runs undisturbed and settles at input j, for the first time. */
  predicate SettledAt(inputs: seq<Input>, i: nat, j: nat)
    requires i <= j < |inputs| && inputs[i].Fire?
  {
    Undisturbed(inputs, i, j) && SettlesAt(inputs, i, j) && (i < j ==> UnsettledThrough(inputs, i, j - 1))
  }

  // ---------------------------------------------------------------- the relay as an object

  class CronRelay {
    var collector: LineTurnCollector?
    var guard: Option<nat>
    /** What the settle closure of the collector has captured. */
    var firing: nat
    var failureNotice: Option<string>
    // the surroundings
    var guards: set<nat>
    var sent: seq<Sent>
    var inputs: nat

    ghost predicate Valid()
      reads this, collector
    {
      && (collector != null ==> collector.Valid() && guard == Some(firing))
      && (guard.Some? && guard.value in guards ==> collector != null && guard.value == firing)
    }

    ghost function State(): Relay
      reads this, collector
    {
      Relay(inputs, if collector != null then Some(Collection(firing, collector.feed, failureNotice)) else None, guards, sent)
    }

    constructor ()
      ensures Valid() && State() == IDLE
    {
      collector, guard, firing, failureNotice, guards, sent, inputs := null, None, 0, None, {}, [], 0;
    }

    /** `clearGuard` */
    method ClearGuard()
      modifies this
      ensures guard.None? && guards == (if old(guard).Some? then old(guards) - {old(guard).value} else old(guards))
      ensures collector == old(collector) && firing == old(firing) && failureNotice == old(failureNotice)
      ensures sent == old(sent) && inputs == old(inputs)
    {
      if guard.Some? {
        guards := guards - {guard.value};
        guard := None;
      }
    }

    /** The settle closure: the collection ends, and `deliver` sends what there is. */
    method Settle(c: LineTurnCollector)
      requires Valid() && collector == c
      modifies this
      ensures Valid() && State() == Deliver(old(State()), Collection(firing, c.feed, failureNotice))
      ensures old(firing) == firing && old(failureNotice) == failureNotice && inputs == old(inputs) && collector == null
    {
      ClearGuard();
      collector := null;
      var text := Trim(c.text);
      if text == "" {
        if failureNotice.Some? {
          sent := sent + [NoAnswer(firing, failureNotice.value)];
        }
        return;
      }
      sent := sent + [Answer(firing, text)];
    }

    /** One event for the collector, and the settle closure if that was the last. */
    method FeedCollector(c: LineTurnCollector, event: Event)
      requires Valid() && collector == c
      modifies this, c
      ensures Valid() && State() == Feed(old(State()), old(Collection(firing, c.feed, failureNotice)), event)
      ensures old(firing) == firing && old(failureNotice) == failureNotice && inputs == old(inputs)
      ensures collector == null || collector == c
    {
      ghost var before, feed := State(), c.feed;
      var settled := c.HandleEvent(event);
      if settled {
        assert Deliver(State(), Collection(firing, c.feed, failureNotice))
            == Deliver(before, Collection(firing, feed + [event], failureNotice));
        Settle(c);
      }
    }

    /** The collection is given up without a result. */
    method DropCollection()
      requires Valid()
      modifies this
      ensures Valid() && State() == Drop(old(State()))
    {
      ClearGuard();
      collector := null;
    }

    /** The body of `onEvent`. */
    method HandleIncoming(event: Event, busy: bool)
      requires Valid()
      modifies this, collector
      ensures Valid() && State() == Handle(old(State()), Incoming(event, busy))
    {
      if collector == null {
        return;
      }
      if busy {
        DropCollection();
        return;
      }
      ghost var before := State();
      var c: LineTurnCollector := collector;
      assert before.collecting == Some(Collection(firing, c.feed, failureNotice));
      FeedCollector(c, event);
      assert State() == Feed(before, before.collecting.value, event);
    }

    /** `onEvent` */
    method OnEvent(event: Event, busy: bool)
      requires Valid()
      modifies this, collector
      ensures Valid() && State() == Step(old(State()), Incoming(event, busy))
    {
      HandleIncoming(event, busy);
      inputs := inputs + 1;
    }

    /** `onFire`, when the fire is taken up. */
    method BeginCollection(notice: Option<string>, pendingStart: Option<Event>, failure: Option<string>)
      requires Valid() && collector == null
      modifies this
      ensures Valid() && State() == Begin(old(State()), Fire(notice, pendingStart, failure, false))
      ensures inputs == old(inputs) && (collector != null ==> fresh(collector))
    {
      var c := new LineTurnCollector();
      collector := c;
      firing, failureNotice := inputs, failure;
      guard, guards := Some(inputs), guards + {inputs};
      if pendingStart.Some? {
        FeedCollector(c, pendingStart.value);
      }
      if notice.Some? {
        sent := sent + [Notice(inputs, notice.value)];
      }
    }

    /** `onFire` */
    method OnFire(notice: Option<string>, pendingStart: Option<Event>, failure: Option<string>, busy: bool)
      requires Valid()
      modifies this, collector
      ensures Valid() && State() == Step(old(State()), Fire(notice, pendingStart, failure, busy))
    {
      if !busy && collector == null {
        BeginCollection(notice, pendingStart, failure);
      }
      inputs := inputs + 1;
    }

    /** The guard's callback; the runtime has dropped the timer. */
    method OnGuard(fire: nat)
      requires Valid()
      modifies this
      ensures Valid() && State() == Step(old(State()), GuardFires(fire))
    {
      if fire in guards {
        guards := guards - {fire};
        if collector != null && firing == fire {
          collector := null;
        }
      }
      inputs := inputs + 1;
    }

    /** `dispose` */
    method OnDispose()
      requires Valid()
      modifies this
      ensures Valid() && State() == Step(old(State()), Dispose)
    {
      DropCollection();
      inputs := inputs + 1;
    }
  }
}
