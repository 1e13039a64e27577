/** What subscribers of the realtime hub can rely on in every run, and the hub's methods as runs. */
module RealtimeHubTheorems {
  import opened RealtimeHub

  ghost predicate Reachable(h: Hub) {
    exists steps :: IsRun(EMPTY, steps) && Run(EMPTY, steps) == h
  }

  lemma ReachableInv(h: Hub)
    requires Reachable(h)
    ensures Inv(h)
  {
    assert Inv(EMPTY);
    var steps :| IsRun(EMPTY, steps) && Run(EMPTY, steps) == h;
    RunKeeps(EMPTY, steps);
  }

  /** No send ever reaches a closed channel, and no empty set of subscribers is kept. */
  lemma SendsReachOpenChannels(h: Hub, p: nat, c: int)
    requires Reachable(h) && p in h.flights && c in h.flights[p].todo
    ensures Enabled(h, Send(p, c)) && !h.channels[c].closed
    ensures forall key :: key in h.subscriptions ==> h.subscriptions[key] != {}
  {
    ReachableInv(h);
    assert FlightOk(h, p, h.flights[p]);
  }

  /** Where an event goes: to its partition key, or else to the conversation that its first part names. */
  function Destination(e: Event): string {
    if e.partitionKey != "" then e.partitionKey
    else
      match (e.conversation, e.message, e.readReceipt, e.typing)
      case (Some(id), _, _, _) => id
      case (None, Some(id), _, _) => id
      case (None, None, Some(id), _) => id
      case (None, None, None, Some(id)) => id
      case _ => ""
  }

  /** A publish serves exactly the channels that were subscribed to its event's destination and are not cancelled. */
  lemma TargetsExactly(h: Hub, p: nat, e: Event)
    requires Reachable(h) && Enabled(h, Begin(p, e))
    ensures var targets := Apply(h, Begin(p, e)).flights[p].targets;
      forall c :: c in targets <==> c in h.channels && !h.channels[c].closed && h.channels[c].key == Destination(e)
  {
    ReachableInv(h);
    assert KeyOf(e) == Destination(e);
    forall c ensures c in Subscribers(h, KeyOf(e)) <==>
                     c in h.channels && !h.channels[c].closed && h.channels[c].key == KeyOf(e) {
    }
  }

  /** A send appends the event to a channel with fewer than 32 events waiting, and is recorded as a drop otherwise. */
  lemma SentExactly(h: Hub, p: nat, c: int)
    requires Enabled(h, Send(p, c))
    ensures var h', sent := Apply(h, Send(p, c)), Sent(p, h.flights[p].event);
      && h'.channels.Keys == h.channels.Keys
      && h'.channels[c].buffer == h.channels[c].buffer + (if |h.channels[c].buffer| < 32 then [sent] else [])
      && h'.dropped == h.dropped + (if |h.channels[c].buffer| < 32 then {} else {(p, c)})
      && (forall other :: other in h.channels && other != c ==> h'.channels[other] == h.channels[other])
  {
  }

  /** A receive takes the event that has waited longest, and leaves the others and every other channel alone. */
  lemma ReceivedExactly(h: Hub, c: int)
    requires Enabled(h, Receive(c))
    ensures var ch, ch' := h.channels[c], Apply(h, Receive(c)).channels[c];
      && ch.buffer == [ch'.received[|ch'.received| - 1]] + ch'.buffer
        && ch'.received[..|ch'.received| - 1] == ch.received
      && ch'.Stream() == ch.Stream() && ch'.closed == ch.closed && ch'.key == ch.key
    ensures Apply(h, Receive(c)) == h.(channels := h.channels[c := Apply(h, Receive(c)).channels[c]])
  {
  }

  lemma {:induction false} EndedStays(h: Hub, steps: seq<Step>, p: nat)
    requires IsRun(h, steps) && p in h.ended
    ensures p in Run(h, steps).ended
    decreases |steps|
  {
    if steps != [] {
      EndedStays(Apply(h, steps[0]), steps[1..], p);
    }
  }

  /**
   Every publish that begins after one has ended, normally or not, however much later, has it among the earlier ones.
   */
  lemma EndedIsEarlier(h: Hub, end: Step, steps: seq<Step>, p: nat, q: nat, e: Event)
    requires end in {End(p), Abort(p)} && Enabled(h, end) && IsRun(Apply(h, end), steps)
    requires Enabled(Run(Apply(h, end), steps), Begin(q, e))
    ensures p in Apply(Run(Apply(h, end), steps), Begin(q, e)).earlier[q]
  {
    EndedStays(Apply(h, end), steps, p);
  }

  /** A channel's buffer is bounded, and all it ever carries is events of its key, each publish at most once. */
  lemma ChannelsCarryTheirKey(h: Hub, c: int)
    requires Reachable(h) && c in h.channels
    ensures |h.channels[c].buffer| <= 32
    ensures forall i :: 0 <= i < |h.channels[c].Stream()| ==>
      KeyOf(h.channels[c].Stream()[i].event) == h.channels[c].key
    ensures forall i, j :: 0 <= i < j < |h.channels[c].Stream()| ==>
      h.channels[c].Stream()[i].publish != h.channels[c].Stream()[j].publish
  {
    ReachableInv(h);
    assert ChannelOk(h, h.channels[c]);
  }

  /**
   Of two publishes, one of which ended before the other began, a channel that carries both carries them in that order.
   */
  lemma SequentialPublishesInOrder(h: Hub, c: int, i: nat, j: nat)
    requires Reachable(h) && c in h.channels && i < |h.channels[c].Stream()| && j < |h.channels[c].Stream()|
    requires var later := h.channels[c].Stream()[j].publish;
      later in h.earlier && h.channels[c].Stream()[i].publish in h.earlier[later]
    ensures i < j
  {
    ReachableInv(h);
    var ch := h.channels[c];
    assert ChannelOk(h, ch);
    assert ch.Stream()[i].publish in h.ended;
    if i == j {
      NotBeforeItself(h, ch.Stream()[j].publish);
    }
  }

  /** A publish has not ended before it began. */
  lemma NotBeforeItself(h: Hub, p: nat)
    requires Reachable(h) && p in h.earlier
    ensures p !in h.earlier[p]
  {
    var steps :| IsRun(EMPTY, steps) && Run(EMPTY, steps) == h;
    NotBeforeItselfRun(EMPTY, steps, p);
  }

  lemma {:induction false} NotBeforeItselfRun(h: Hub, steps: seq<Step>, p: nat)
    requires Inv(h) && IsRun(h, steps) && (p in h.earlier ==> p !in h.earlier[p])
    ensures p in Run(h, steps).earlier ==> p !in Run(h, steps).earlier[p]
    decreases |steps|
  {
    if steps != [] {
      StepKeeps(h, steps[0]);
      NotBeforeItselfRun(Apply(h, steps[0]), steps[1..], p);
    }
  }

  /** When a publish ends normally, each subscriber it found has the event, or had a full buffer when its turn came. */
  lemma LossesAreDrops(h: Hub, p: nat, c: int)
    requires Reachable(h) && Enabled(h, End(p)) && c in h.flights[p].targets
    ensures c in h.channels && (Carries(h.channels[c], p) || (p, c) in h.dropped)
  {
    ReachableInv(h);
    assert FlightOk(h, p, h.flights[p]);
  }

  lemma DropsNeedFullBuffers(h: Hub, step: Step, p: nat, c: int)
    requires Enabled(h, step) && (p, c) !in h.dropped && (p, c) in Apply(h, step).dropped
    ensures step == Send(p, c) && |h.channels[c].buffer| >= 32
  {
  }

  /** After its cancel a channel gets nothing any more. */
  lemma {:induction false} NothingAfterCancel(h: Hub, steps: seq<Step>, c: int)
    requires Inv(h) && IsRun(h, steps) && c in h.channels && h.channels[c].closed
    ensures var h' := Run(h, steps);
      c in h'.channels && h'.channels[c].closed && h'.channels[c].Stream() == h.channels[c].Stream()
    decreases |steps|
  {
    if steps != [] {
      StepKeeps(h, steps[0]);
      ClosedStays(h, steps[0], c);
      NothingAfterCancel(Apply(h, steps[0]), steps[1..], c);
    }
  }

  lemma ClosedStays(h: Hub, step: Step, c: int)
    requires Inv(h) && Enabled(h, step) && c in h.channels && h.channels[c].closed
    ensures var h' := Apply(h, step);
      c in h'.channels && h'.channels[c].closed && h'.channels[c].Stream() == h.channels[c].Stream()
  {
    if step.Send? {
      assert FlightOk(h, step.p, h.flights[step.p]);
    } else if step == Receive(c) {
      var ch := h.channels[c];
      assert ch.buffer == [ch.buffer[0]] + ch.buffer[1..];
    }
  }

  /** And a new channel gets nothing that was published before. */
  lemma NothingBeforeSubscribe(h: Hub, key: string, c: int, steps: seq<Step>, p: nat)
    requires Inv(h) && Enabled(h, Subscribe(key, c)) && p in h.earlier
    requires IsRun(Apply(h, Subscribe(key, c)), steps)
    ensures c in Run(Apply(h, Subscribe(key, c)), steps).channels
    ensures !Carries(Run(Apply(h, Subscribe(key, c)), steps).channels[c], p)
  {
    StepKeeps(h, Subscribe(key, c));
    var h1 := Apply(h, Subscribe(key, c));
    assert h1.channels[c].Stream() == [];
    OldPublishStaysAway(h1, steps, c, p);
  }

  lemma {:induction false} OldPublishStaysAway(h: Hub, steps: seq<Step>, c: int, p: nat)
    requires Inv(h) && IsRun(h, steps) && c in h.channels
    requires p in h.earlier && p !in h.flights && !Carries(h.channels[c], p)
    ensures c in Run(h, steps).channels && !Carries(Run(h, steps).channels[c], p)
    decreases |steps|
  {
    if steps != [] {
      var h1 := Apply(h, steps[0]);
      StepKeeps(h, steps[0]);
      if steps[0].Send? { SendCarries(h, steps[0].p, steps[0].c, c, p); }
      if steps[0] == Receive(c) {
        var ch := h.channels[c];
        assert ch.buffer == [ch.buffer[0]] + ch.buffer[1..];
      }
      assert !steps[0].Send? ==> h1.channels[c].Stream() == h.channels[c].Stream();
      OldPublishStaysAway(h1, steps[1..], c, p);
    }
  }

  // ---------- The hub as an object ----------

  /** A run goes on with one more step. */
  function Follow(h: Hub, steps: seq<Step>, step: Step): (longer: seq<Step>)
    requires IsRun(h, steps) && Enabled(Run(h, steps), step)
    ensures IsRun(h, longer) && Run(h, longer) == Apply(Run(h, steps), step)
    decreases |steps|
  {
    if steps == [] then
      assert [step][1..] == [];
      [step]
    else
      var rest := Follow(Apply(h, steps[0]), steps[1..], step);
      assert ([steps[0]] + rest)[1..] == rest;
      [steps[0]] + rest
  }

  /** Ranging over a map yields its keys in no particular order. */
  method AnyOf<T>(todo: set<T>) returns (c: T)
    requires todo != {}
    ensures c in todo
  {
    c :| c in todo;
  }

  class HubObject {
    var subscriptions: map<string, set<int>>
    var channels: map<int, Channel>
    /** Book-keeping of the specification: the publishes so far, and their drops. */
    ghost var history: Hub

    ghost function View(): Hub
      reads this
    {
      history.(subscriptions := subscriptions, channels := channels)
    }

    constructor ()
      ensures View() == EMPTY
    {
      subscriptions, channels, history := map[], map[], EMPTY;
    }

    /** `c` identifies the channel that is made. */
    method Subscribe(conversationId: string, c: int)
      requires Enabled(View(), Step.Subscribe(conversationId, c))
      modifies this
      ensures View() == Apply(old(View()), Step.Subscribe(conversationId, c))
    {
      if conversationId !in subscriptions {
        subscriptions := subscriptions[conversationId := {}];
      }
      subscriptions := subscriptions[conversationId := subscriptions[conversationId] + {c}];
      channels := channels[c := Channel(conversationId, [], [], false)];
    }

    /** The function that `Subscribe` returns, for channel `c`. */
    method Cancel(c: int)
      requires Enabled(View(), Step.Cancel(c))
      modifies this
      ensures View() == Apply(old(View()), Step.Cancel(c))
    {
      var key := channels[c].key;
      if key in subscriptions {
        subscriptions := subscriptions[key := subscriptions[key] - {c}];
        if subscriptions[key] == {} {
          subscriptions := subscriptions - {key};
        }
      }
      channels := channels[c := channels[c].(closed := true)];
    }

    /** One turn of the loop: a send that does not block. */
    method Serve(ghost h: Hub, ghost before: seq<Step>, event: Event, p: nat, c: int) returns (ghost steps: seq<Step>)
      requires Inv(View()) && IsRun(h, before) && View() == Run(h, before)
      requires p in View().flights && View().flights[p].event == event && c in View().flights[p].todo
      modifies this
      ensures Inv(View()) && IsRun(h, steps) && View() == Run(h, steps)
      ensures p in View().flights && View().flights[p] == old(View().flights[p].(todo := View().flights[p].todo - {c}))
    {
      ghost var h1 := View();
      assert FlightOk(h1, p, h1.flights[p]);
      StepKeeps(h1, Send(p, c));
      steps := Follow(h, before, Send(p, c));
      if |channels[c].buffer| < CAPACITY {
        channels := channels[c := channels[c].(buffer := channels[c].buffer + [Sent(p, event)])];
      }
      history := Apply(h1, Send(p, c));
    }

    /**
     `p` numbers this call, for the record kept in the channels; `served` is how many subscribers get their turn before
     the context ends, and all of them if it does not.
     */
    method Publish(event: Event, p: nat, served: nat) returns (finished: bool, ghost steps: seq<Step>)
      requires Inv(View()) && Enabled(View(), Begin(p, event))
      modifies this
      ensures IsRun(old(View()), steps) && View() == Run(old(View()), steps)
      ensures finished ==> forall c :: c in Subscribers(old(View()), KeyOf(event)) ==>
        c in channels && (Carries(channels[c], p) || (p, c) in View().dropped)
    {
      ghost var h := View();
      var key := event.partitionKey;
      if key == "" {
        key := ConversationOf(event);
      }
      steps := Follow(h, [], Begin(p, event));
      StepKeeps(h, Begin(p, event));
      history := Apply(h, Begin(p, event));
      var todo := if key in subscriptions then subscriptions[key] else {};
      ghost var targets := todo;
      var turns := 0;
      while todo != {} && turns < served
        invariant Inv(View()) && IsRun(h, steps) && View() == Run(h, steps)
        invariant p in View().flights && View().flights[p] == Flight(event, targets, todo)
        decreases |todo|
      {
        var c := AnyOf(todo);
        steps := Serve(h, steps, event, p, c);
        todo := todo - {c};
        turns := turns + 1;
      }
      finished := todo == {};
      ghost var h2 := View();
      assert FlightOk(h2, p, h2.flights[p]);
      ghost var last := if finished then End(p) else Abort(p);
      steps := Follow(h, steps, last);
      history := Apply(h2, last);
    }
  }
}
