/**
 The matching store and its publishers as one system: store transactions interleave with the micro-steps of any number
 of publishers on one outbox.
 */
module MatchingDelivery {
  import opened Common
  import opened MatchingTables
  import MatchingOutbox
  import MatchingRuns
  import MatchingTheorems
  import Outbox
  import Publishers
  import PublisherTheorems

  datatype World = World(tables: Tables, delivery: Publishers.World)

  /** A transaction of the store, or a micro-step of a publisher or of the clock. */
  datatype Step = Domain(step: MatchingRuns.Step) | Deliver(act: Publishers.Act)

  /** Both halves see one outbox. */
  ghost predicate Joined(w: World) {
    w.tables.outbox == w.delivery.outbox && Publishers.Busy(w.delivery)
  }

  ghost predicate Enabled(w: World, step: Step) {
    match step
    case Domain(s) => MatchingRuns.Enabled(w.tables, s) && !s.Fetch? && !s.Published? && !s.Failed?
    case Deliver(a) => Publishers.Enabled(w.delivery, a) && !a.Insert?
  }

  ghost function Apply(w: World, step: Step): World
    requires Joined(w) && Enabled(w, step)
  {
    match step
    case Domain(s) =>
      var t := MatchingRuns.Apply(w.tables, s);
      World(t, w.delivery.(outbox := t.outbox))
    case Deliver(a) =>
      var d := Publishers.Apply(w.delivery, a);
      World(w.tables.(outbox := d.outbox), d)
  }

  lemma StaysJoined(w: World, step: Step)
    requires Joined(w) && Enabled(w, step)
    ensures Joined(Apply(w, step))
  {
    if step.Deliver? {
      Publishers.StaysBusy(w.delivery, step.act);
    }
  }

  ghost predicate IsRun(w: World, steps: seq<Step>)
    requires Joined(w)
    decreases |steps|
  {
    steps == [] || (Enabled(w, steps[0]) && (StaysJoined(w, steps[0]); IsRun(Apply(w, steps[0]), steps[1..])))
  }

  ghost function Run(w: World, steps: seq<Step>): (w': World)
    requires Joined(w) && IsRun(w, steps)
    ensures Joined(w')
    decreases |steps|
  {
    if steps == [] then w else StaysJoined(w, steps[0]); Run(Apply(w, steps[0]), steps[1..])
  }

  function Start(now: Time, limit: int): World {
    World(EMPTY, Publishers.Start(now, limit))
  }

  // ---------- Each half sees a run of its own ----------

  /** What a publisher's step is to the store: one of its outbox statements, or nothing. */
  ghost function StoreSteps(w: Publishers.World, a: Publishers.Act): seq<MatchingRuns.Step>
    requires Publishers.Busy(w) && Publishers.Enabled(w, a)
  {
    match a
    case Claim(_, picked, claimed) => if claimed.Applied() then [MatchingRuns.Fetch(w.limit, picked, w.now)] else []
    case Mark(p, marked) =>
      if marked.Applied() then [MatchingRuns.Published(Publishers.PhaseOf(w, p).batch[0], w.now)] else []
    case MarkFailed(p, noted, cause) =>
      if noted.Applied() then [MatchingRuns.Failed(Publishers.PhaseOf(w, p).batch[0], cause)] else []
    case _ => []
  }

  lemma DeliverIsStoreStep(w: World, a: Publishers.Act)
    requires Joined(w) && Enabled(w, Deliver(a))
    ensures var steps := StoreSteps(w.delivery, a);
      && |steps| <= 1 && MatchingRuns.IsRun(w.tables, steps)
      && MatchingRuns.Run(w.tables, steps) == Apply(w, Deliver(a)).tables
  {
    var steps := StoreSteps(w.delivery, a);
    if steps != [] {
      assert MatchingRuns.Enabled(w.tables, steps[0]);
      assert steps[1..] == [];
    }
  }

  ghost predicate BothReachable(w: World) {
    Joined(w) && MatchingTheorems.Reachable(w.tables) && PublisherTheorems.Reachable(w.delivery)
  }

  lemma StoreAfterStep(t: Tables, s: MatchingRuns.Step)
    requires MatchingTheorems.Reachable(t) && MatchingRuns.Enabled(t, s)
    ensures MatchingTheorems.Reachable(MatchingRuns.Apply(t, s))
  {
    MatchingTheorems.OneStep(t, s);
    MatchingTheorems.ReachableAfterRun(t, [s]);
  }

  lemma DeliveryAfterDomainStep(w: World, s: MatchingRuns.Step)
    requires BothReachable(w) && Enabled(w, Domain(s))
    ensures PublisherTheorems.Reachable(Apply(w, Domain(s)).delivery)
  {
    MatchingOutbox.DomainStepsAreInsertions(w.tables, s, w.delivery);
    var rows := MatchingOutbox.NewRows(w.tables.outbox, MatchingRuns.Apply(w.tables, s).outbox);
    PublisherTheorems.ReachableNext(w.delivery, Publishers.Insert(rows));
  }

  lemma DomainStepKeeps(w: World, s: MatchingRuns.Step)
    requires BothReachable(w) && Enabled(w, Domain(s))
    ensures BothReachable(Apply(w, Domain(s)))
  {
    StaysJoined(w, Domain(s));
    StoreAfterStep(w.tables, s);
    DeliveryAfterDomainStep(w, s);
  }

  lemma DeliverKeeps(w: World, a: Publishers.Act)
    requires BothReachable(w) && Enabled(w, Deliver(a))
    ensures BothReachable(Apply(w, Deliver(a)))
  {
    StaysJoined(w, Deliver(a));
    DeliverIsStoreStep(w, a);
    MatchingTheorems.ReachableAfterRun(w.tables, StoreSteps(w.delivery, a));
    PublisherTheorems.ReachableNext(w.delivery, a);
  }

  /**
   Whatever the store and its publishers do together, the tables are such as the store's runs lead to, and the delivery
   such as the publishers' runs lead to: what is proved of either holds of the whole.
   */
  lemma {:induction false} RunKeeps(w: World, steps: seq<Step>)
    requires BothReachable(w) && IsRun(w, steps)
    ensures BothReachable(Run(w, steps))
    decreases |steps|
  {
    if steps != [] {
      match steps[0] {
        case Domain(s) => DomainStepKeeps(w, s);
        case Deliver(a) => DeliverKeeps(w, a);
      }
      RunKeeps(Apply(w, steps[0]), steps[1..]);
    }
  }

  // ---------- What reaches Kafka ----------

  /**
   Over all runs of the whole system from empty tables: each subject has the one event expected of it; whatever was
   written to Kafka or marked published is such an event, truthful of the tables, written at most 20 times, and marked
   only after Kafka acknowledged a write; and an event can still be published exactly when it is published, has attempts
   left, or is in a publisher's hands.
   */
  lemma DeliveryIsTruthful(now: Time, limit: int, steps: seq<Step>, x: MatchingRuns.Subject, e: string)
    requires IsRun(Start(now, limit), steps)
    ensures var w := Run(Start(now, limit), steps);
      && |MatchingRuns.Announcing(w.tables.outbox, x)| == MatchingRuns.Expected(w.tables.swipes, w.tables.matches, x)
      && (e in w.delivery.sends || e in w.tables.outbox ==>
            && e in w.tables.outbox
            && MatchingRuns.Truthful(w.tables.swipes, w.tables.matches, w.tables.outbox[e].event)
            && Publishers.WritesOf(w.delivery, e) <= w.tables.outbox[e].attempts <= Outbox.MAX_ATTEMPTS
            && (w.tables.outbox[e].publishedAt.Some? ==> Publishers.AcksOf(w.delivery, e) >= 1)
            && (PublisherTheorems.Publishable(w.delivery, e)
                <==> exists acts :: PublisherTheorems.PublishesBy(w.delivery, acts, e)))
  {
    var w := Run(Start(now, limit), steps);
    PublisherTheorems.ReachableStart(now, limit);
    MatchingTheorems.ReachableEmpty();
    RunKeeps(Start(now, limit), steps);
    MatchingTheorems.OutboxMirrorsTables(w.tables, x);
    PublisherTheorems.ReachableInv(w.delivery);
    if e in w.tables.outbox {
      MatchingTheorems.OutboxMirrorsTables(w.tables, MatchingRuns.SubjectOf(w.tables.outbox[e].event));
      assert Publishers.RowOk(w.delivery, e);
      PublisherTheorems.PublishableExactly(w.delivery, e);
    }
  }
}
