/**
 The realtime hub. Publishes run concurrently under the read lock and fill subscribers' buffered channels one send at a
 time; subscribing and cancelling take the write lock, so that they happen only between publishes; receivers drain their
 channels at any time.
 */
module RealtimeHub {
  import opened Common

  const CAPACITY := 32

  /** The parts of a chat event that decide where it goes. */
  datatype Event = Event(
    partitionKey: string,
    conversation: Option<string>,
    message: Option<string>,
    readReceipt: Option<string>,
    typing: Option<string>,
    body: string)

  function ConversationOf(e: Event): string {
    if e.conversation.Some? then e.conversation.value
    else if e.message.Some? then e.message.value
    else if e.readReceipt.Some? then e.readReceipt.value
    else if e.typing.Some? then e.typing.value
    else ""
  }

  function KeyOf(e: Event): string {
    if e.partitionKey == "" then ConversationOf(e) else e.partitionKey
  }

  /** An event in a channel, with the publish it comes from. */
  datatype Sent = Sent(publish: nat, event: Event)

  datatype Channel = Channel(key: string, buffer: seq<Sent>, received: seq<Sent>, closed: bool)
  {
    /** Everything that was ever sent to the channel, in order. */
    function Stream(): seq<Sent> { received + buffer }
  }

  /** A publish under way: the subscribers it found, and those it has still to serve. */
  datatype Flight = Flight(event: Event, targets: set<int>, todo: set<int>)

  datatype Hub = Hub(
    subscriptions: map<string, set<int>>,
    channels: map<int, Channel>,
    flights: map<nat, Flight>,
    ended: set<nat>,
    /** For each publish, the publishes that had ended when it began. */
    earlier: map<nat, set<nat>>,
    /** The sends that found a full buffer. */
    dropped: set<(nat, int)>)

  const EMPTY := Hub(map[], map[], map[], {}, map[], {})

  datatype Step =
    | Subscribe(key: string, c: int)
    | Cancel(c: int)
    | Begin(p: nat, event: Event)
    | Send(p: nat, c: int)
    | End(p: nat)
    | Abort(p: nat)
    | Receive(c: int)

  function Subscribers(h: Hub, key: string): set<int> {
    if key in h.subscriptions then h.subscriptions[key] else {}
  }

  /**
   Channels and publishes are new; each cancel function is called once; the locks keep writers and publishes apart.
   */
  predicate Enabled(h: Hub, step: Step) {
    match step
    case Subscribe(_, c) => h.flights == map[] && c !in h.channels
    case Cancel(c) => h.flights == map[] && c in h.channels && !h.channels[c].closed
    case Begin(p, _) => p !in h.earlier
    case Send(p, c) => p in h.flights && c in h.flights[p].todo && c in h.channels
    case End(p) => p in h.flights && h.flights[p].todo == {}
    case Abort(p) => p in h.flights
    case Receive(c) => c in h.channels && h.channels[c].buffer != []
  }

  /** `delete` on the subscriptions, and on the whole entry when it is empty. */
  function Unregister(subscriptions: map<string, set<int>>, key: string, c: int): map<string, set<int>> {
    if key !in subscriptions then subscriptions
    else if subscriptions[key] - {c} == {} then subscriptions - {key}
    else subscriptions[key := subscriptions[key] - {c}]
  }

  function Apply(h: Hub, step: Step): Hub
    requires Enabled(h, step)
  {
    match step
    case Subscribe(key, c) =>
      h.(subscriptions := h.subscriptions[key := Subscribers(h, key) + {c}],
         channels := h.channels[c := Channel(key, [], [], false)])
    case Cancel(c) =>
      h.(subscriptions := Unregister(h.subscriptions, h.channels[c].key, c),
         channels := h.channels[c := h.channels[c].(closed := true)])
    case Begin(p, event) =>
      var targets := Subscribers(h, KeyOf(event));
      h.(flights := h.flights[p := Flight(event, targets, targets)], earlier := h.earlier[p := h.ended])
    case Send(p, c) =>
      var flight, ch := h.flights[p], h.channels[c];
      var flights := h.flights[p := flight.(todo := flight.todo - {c})];
      if |ch.buffer| < CAPACITY
      then h.(flights := flights, channels := h.channels[c := ch.(buffer := ch.buffer + [Sent(p, flight.event)])])
      else h.(flights := flights, dropped := h.dropped + {(p, c)})
    case End(p) => h.(flights := h.flights - {p}, ended := h.ended + {p})
    case Abort(p) => h.(flights := h.flights - {p}, ended := h.ended + {p})
    case Receive(c) =>
      var ch := h.channels[c];
      h.(channels := h.channels[c := ch.(buffer := ch.buffer[1..], received := ch.received + [ch.buffer[0]])])
  }

  predicate IsRun(h: Hub, steps: seq<Step>)
    decreases |steps|
  {
    steps == [] || (Enabled(h, steps[0]) && IsRun(Apply(h, steps[0]), steps[1..]))
  }

  function Run(h: Hub, steps: seq<Step>): Hub
    requires IsRun(h, steps)
    decreases |steps|
  {
    if steps == [] then h else Run(Apply(h, steps[0]), steps[1..])
  }

  // ---------- The invariant ----------

  /** Channels are registered under their key exactly while they are open, and no key has an empty set. */
  ghost predicate Registered(h: Hub) {
    && (forall key :: key in h.subscriptions ==> h.subscriptions[key] != {})
    && (forall key, c :: key in h.subscriptions && c in h.subscriptions[key] ==>
          c in h.channels && !h.channels[c].closed && h.channels[c].key == key)
    && (forall c :: c in h.channels && !h.channels[c].closed ==> c in Subscribers(h, h.channels[c].key))
  }

  ghost predicate Carries(ch: Channel, p: nat) {
    exists i :: 0 <= i < |ch.Stream()| && ch.Stream()[i].publish == p
  }

  /** A channel holds events of its own key only, each publish at most once, and never one before an earlier one. */
  ghost predicate ChannelOk(h: Hub, ch: Channel) {
    && |ch.buffer| <= CAPACITY
    && (forall i :: 0 <= i < |ch.Stream()| ==>
        KeyOf(ch.Stream()[i].event) == ch.key && ch.Stream()[i].publish in h.earlier)
    && (forall i, j :: 0 <= i < j < |ch.Stream()| ==>
          && ch.Stream()[i].publish != ch.Stream()[j].publish
          && ch.Stream()[j].publish !in h.earlier[ch.Stream()[i].publish])
  }

  /** A publish under way still serves subscribers of its key, which it has not served; the others it has. */
  ghost predicate FlightOk(h: Hub, p: nat, flight: Flight) {
    && p in h.earlier && p !in h.ended && flight.todo <= flight.targets
    && (forall c :: c in flight.todo ==> c in Subscribers(h, KeyOf(flight.event)))
    && (forall c :: c in flight.targets ==> c in h.channels)
    && (forall c :: c in flight.todo ==> !Carries(h.channels[c], p))
    && (forall c :: c in flight.targets && c !in flight.todo ==> Carries(h.channels[c], p) || (p, c) in h.dropped)
  }

  ghost predicate Inv(h: Hub) {
    && Registered(h)
    && (forall c {:trigger ChannelOk(h, h.channels[c])} :: c in h.channels ==> ChannelOk(h, h.channels[c]))
    && (forall p {:trigger FlightOk(h, p, h.flights[p])} :: p in h.flights ==> FlightOk(h, p, h.flights[p]))
    && (forall p :: p in h.ended ==> p in h.earlier)
    && (forall p, q :: p in h.earlier && q in h.earlier[p] ==> q in h.ended)
  }

  ghost predicate SameStream(ch: Channel, ch': Channel) {
    ch'.Stream() == ch.Stream() && ch'.key == ch.key && |ch'.buffer| <= |ch.buffer|
  }

  /** Steps that leave the streams alone. */
  lemma SameStreams(h: Hub, h': Hub)
    requires Inv(h) && h.channels.Keys == h'.channels.Keys
    requires forall c :: c in h.channels ==> SameStream(h.channels[c], h'.channels[c])
    requires forall p :: p in h.earlier ==> p in h'.earlier && h'.earlier[p] == h.earlier[p]
    ensures forall c {:trigger ChannelOk(h', h'.channels[c])} :: c in h'.channels ==> ChannelOk(h', h'.channels[c])
    ensures forall c, p {:trigger Carries(h'.channels[c], p)} :: c in h.channels ==>
      (Carries(h'.channels[c], p) <==> Carries(h.channels[c], p))
  {
    forall c | c in h'.channels ensures ChannelOk(h', h'.channels[c]) {
      assert ChannelOk(h, h.channels[c]);
    }
  }

  lemma SubscribeKeeps(h: Hub, key: string, c: int)
    requires Inv(h) && Enabled(h, Subscribe(key, c))
    ensures Inv(Apply(h, Subscribe(key, c)))
  {
    var h' := Apply(h, Subscribe(key, c));
    forall d | d in h'.channels ensures ChannelOk(h', h'.channels[d]) {
      if d != c { assert ChannelOk(h, h.channels[d]); }
    }
  }

  lemma CancelKeeps(h: Hub, c: int)
    requires Inv(h) && Enabled(h, Cancel(c))
    ensures Inv(Apply(h, Cancel(c)))
  {
    var h' := Apply(h, Cancel(c));
    SameStreams(h, h');
  }

  lemma BeginKeeps(h: Hub, p: nat, event: Event)
    requires Inv(h) && Enabled(h, Begin(p, event))
    ensures Inv(Apply(h, Begin(p, event)))
  {
    var h' := Apply(h, Begin(p, event));
    SameStreams(h, h');
    forall c | c in h.channels ensures !Carries(h.channels[c], p) {
      assert ChannelOk(h, h.channels[c]);
    }
    forall q | q in h'.flights ensures FlightOk(h', q, h'.flights[q]) {
      if q != p { assert FlightOk(h, q, h.flights[q]); }
    }
  }

  lemma EndKeeps(h: Hub, p: nat, step: Step)
    requires Inv(h) && (step == End(p) || step == Abort(p)) && Enabled(h, step)
    ensures Inv(Apply(h, step))
  {
    var h' := Apply(h, step);
    assert FlightOk(h, p, h.flights[p]);
    SameStreams(h, h');
    forall q | q in h'.flights ensures FlightOk(h', q, h'.flights[q]) {
      assert FlightOk(h, q, h.flights[q]);
    }
  }

  lemma ReceiveKeeps(h: Hub, c: int)
    requires Inv(h) && Enabled(h, Receive(c))
    ensures Inv(Apply(h, Receive(c)))
  {
    var h' := Apply(h, Receive(c));
    assert ChannelOk(h, h.channels[c]);
    assert h.channels[c].buffer == [h.channels[c].buffer[0]] + h.channels[c].buffer[1..];
    assert SameStream(h.channels[c], h'.channels[c]);
    SameStreams(h, h');
    forall q | q in h'.flights ensures FlightOk(h', q, h'.flights[q]) {
      assert FlightOk(h, q, h.flights[q]);
    }
  }

  /** A send puts the publish last, and no publish that is still under way can be earlier than one already there. */
  lemma SendKeeps(h: Hub, p: nat, c: int)
    requires Inv(h) && Enabled(h, Send(p, c))
    ensures Inv(Apply(h, Send(p, c)))
  {
    var h' := Apply(h, Send(p, c));
    var flight, ch := h.flights[p], h.channels[c];
    assert FlightOk(h, p, flight) && ChannelOk(h, ch);
    forall d | d in h'.channels ensures ChannelOk(h', h'.channels[d]) {
      assert ChannelOk(h, h.channels[d]);
      if d == c && |ch.buffer| < CAPACITY {
        assert h'.channels[c].Stream() == ch.Stream() + [Sent(p, flight.event)];
      }
    }
    forall d, q | d in h.channels
      ensures Carries(h'.channels[d], q)
         <==> Carries(h.channels[d], q) || (d == c && q == p && |ch.buffer| < CAPACITY)
    {
      SendCarries(h, p, c, d, q);
    }
    forall q | q in h'.flights ensures FlightOk(h', q, h'.flights[q]) {
      assert FlightOk(h, q, h.flights[q]);
    }
  }

  lemma SendCarries(h: Hub, p: nat, c: int, d: int, q: nat)
    requires Enabled(h, Send(p, c)) && d in h.channels
    ensures Carries(Apply(h, Send(p, c)).channels[d], q) <==>
      Carries(h.channels[d], q) || (d == c && q == p && |h.channels[c].buffer| < CAPACITY)
  {
    var before, after := h.channels[d], Apply(h, Send(p, c)).channels[d];
    if d == c && |before.buffer| < CAPACITY {
      assert after.Stream() == before.Stream() + [Sent(p, h.flights[p].event)];
      if Carries(before, q) {
        var i :| 0 <= i < |before.Stream()| && before.Stream()[i].publish == q;
        assert after.Stream()[i].publish == q;
      }
      assert after.Stream()[|before.Stream()|].publish == p;
    }
  }

  lemma StepKeeps(h: Hub, step: Step)
    requires Inv(h) && Enabled(h, step)
    ensures Inv(Apply(h, step))
  {
    match step
    case Subscribe(key, c) => SubscribeKeeps(h, key, c);
    case Cancel(c) => CancelKeeps(h, c);
    case Begin(p, event) => BeginKeeps(h, p, event);
    case Send(p, c) => SendKeeps(h, p, c);
    case End(p) => EndKeeps(h, p, step);
    case Abort(p) => EndKeeps(h, p, step);
    case Receive(c) => ReceiveKeeps(h, c);
  }

  lemma {:induction false} RunKeeps(h: Hub, steps: seq<Step>)
    requires Inv(h) && IsRun(h, steps)
    ensures Inv(Run(h, steps))
    decreases |steps|
  {
    if steps != [] {
      StepKeeps(h, steps[0]);
      RunKeeps(Apply(h, steps[0]), steps[1..]);
    }
  }
}
