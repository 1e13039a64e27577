/** What the analytics counters say about the raw events, over all interleavings of ingests with failing statements. */
module AnalyticsTheorems {
  import opened Common
  import opened Arithmetic
  import opened Analytics

  // ---------- Which events are stored ----------

  /**
   An event is stored exactly when it has its three identifiers and one of the ten types, its identifier is new, and the
   insert takes effect; an event without a time takes the clock's.
   */
  lemma StoredExactly(w: World, i: int, event: Event, now: Time, stored: Outcome)
    requires i !in w.ingests && now != ZERO_TIME
    ensures var w' := Apply(w, Start(i, event, now, stored));
      && (w'.raw != w.raw && event.id !in w.raw <==>
            && event.id != "" && event.profileId != "" && event.actorId != ""
            && event.kind in {View, Impression, SwipeLeft, SwipeRight, CardOpen, CtrClick, ChatStart, Donation, Boost,
                              ProfileChange}
            && event.id !in w.raw && stored.Applied())
      && (w'.raw != w.raw ==>
            w'.raw == w.raw[event.id := event.(at := if event.at == ZERO_TIME then now else event.at)])
      && w'.counters == w.counters
  {
    var e := Stamped(event, now);
    assert e.id !in w.raw ==> w.raw[e.id := e] != w.raw;
  }

  // ---------- A sum of counters is a number of events ----------

  /** The SQL sum over a set of counter rows. */
  ghost function SumOf(counters: map<Key, nat>, keys: set<Key>): nat
    decreases |keys|
  {
    if keys == {} then 0
    else
      var key :| key in keys;
      Counter(counters, key) + SumOf(counters, keys - {key})
  }

  lemma SumPicks(counters: map<Key, nat>, keys: set<Key>) returns (key: Key)
    requires keys != {}
    ensures key in keys && SumOf(counters, keys) == Counter(counters, key) + SumOf(counters, keys - {key})
  {
    key :| key in keys && SumOf(counters, keys) == Counter(counters, key) + SumOf(counters, keys - {key});
  }

  /** The events counted in one of the given buckets. */
  ghost function CountedIn(w: World, size: BucketSize, keys: set<Key>): set<string>
    requires w.raw.Keys == w.counted.Keys
  {
    set id | id in w.raw && KeyFor(w.raw[id], size) in keys && w.counted[id] >= Stage(size)
  }

  lemma CountedSplits(w: World, size: BucketSize, keys: set<Key>, key: Key)
    requires w.raw.Keys == w.counted.Keys && key in keys && key.size == size
    ensures CountedIn(w, size, keys) == Counted(w.raw, w.counted, key) + CountedIn(w, size, keys - {key})
    ensures Counted(w.raw, w.counted, key) !! CountedIn(w, size, keys - {key})
  {
  }

  /** The counters of any set of buckets add up to the number of events counted in one of them. */
  lemma {:induction false} SumCountsEvents(w: World, size: BucketSize, keys: set<Key>)
    requires Inv(w) && forall key :: key in keys ==> key.size == size
    ensures SumOf(w.counters, keys) == |CountedIn(w, size, keys)|
    decreases |keys|
  {
    if keys == {} {
      assert CountedIn(w, size, keys) == {};
    } else {
      var key := SumPicks(w.counters, keys);
      SumCountsEvents(w, size, keys - {key});
      CountedSplits(w, size, keys, key);
      CardDisjoint(Counted(w.raw, w.counted, key), CountedIn(w, size, keys - {key}));
    }
  }

  lemma CardDisjoint<T>(a: set<T>, b: set<T>)
    requires a !! b
    ensures |a + b| == |a| + |b|
  {
  }

  /** A counter row exists as soon as one event has raised it. */
  lemma CountedHasRow(w: World, id: string, size: BucketSize)
    requires Inv(w) && id in w.raw && w.counted[id] >= Stage(size)
    ensures KeyFor(w.raw[id], size) in w.counters
  {
    var key := KeyFor(w.raw[id], size);
    assert id in Counted(w.raw, w.counted, key);
  }

  // ---------- Buckets ----------

  /** The seconds of a bucket: a minute, an hour of sixty of them, a day of twenty-four hours. */
  function Seconds(size: BucketSize): int {
    match size
    case MinuteBucket => 60
    case HourBucket => 60 * 60
    case DayBucket => 24 * 60 * 60
  }

  /** Two moments share a bucket exactly when as many whole minutes, hours or days have passed at both. */
  lemma SameBucketExactly(size: BucketSize, a: int, b: int)
    ensures var width := Seconds(size) * 1_000_000_000;
      && (Normalize(size, a) == Normalize(size, b) <==> a / width == b / width)
      && Normalize(size, a) == a / width * width
  {
    var width := Seconds(size) * 1_000_000_000;
    assert width == Width(size);
    DivMod(a, width);
    DivMod(b, width);
    if a / width != b / width {
      DifferentMultiples(a / width, b / width, width);
    }
  }

  lemma DifferentMultiples(k: int, m: int, width: int)
    requires k != m && width > 0
    ensures k * width != m * width
  {
    DivModUnique(k * width, k, 0, width);
    DivModUnique(m * width, m, 0, width);
  }

  // ---------- Hours of a day ----------

  /** Truncating to the hour first does not change the day. */
  lemma DayOfHour(at: int)
    ensures Normalize(DayBucket, Normalize(HourBucket, at)) == Normalize(DayBucket, at)
  {
    var hour := Normalize(HourBucket, at);
    DivMod(at, HOUR);
    DivMod(at, DAY);
    DivMod(hour, DAY);
    var q, d := at / HOUR, at / DAY;
    assert hour == q * HOUR;
    assert d * DAY == (d * 24) * HOUR;
    assert q >= d * 24 && q < d * 24 + 24;
    assert d * DAY <= hour < d * DAY + DAY;
    DivModUnique(hour, d, hour - d * DAY, DAY);
  }

  /** The rows of one size, profile and type whose bucket starts between two moments, both included. */
  ghost function RowsBetween(counters: map<Key, nat>, profile: string, kind: EventType, size: BucketSize, lo: int,
                             hi: int)
    : set<Key>
  {
    set key | key in counters && key.profileId == profile && key.kind == kind && key.size == size && lo <= key.at <= hi
  }

  /** The stored events of a profile and type that fall on a day from `lo` to `hi`, both included. */
  ghost function EventsBetween(raw: map<string, Event>, profile: string, kind: EventType, lo: int, hi: int)
    : set<string>
  {
    set id | id in raw && raw[id].profileId == profile && raw[id].kind == kind
             && lo <= Normalize(DayBucket, raw[id].at) <= hi
  }

  /** Those that have raised their counter of the given size. */
  ghost function CountedBetween(w: World, profile: string, kind: EventType, size: BucketSize, lo: int, hi: int)
    : set<string>
    requires w.raw.Keys == w.counted.Keys
  {
    set id | id in EventsBetween(w.raw, profile, kind, lo, hi) && w.counted[id] >= Stage(size)
  }

  /** The day counters from `lo` to `hi` add up to the events of these days that were counted. */
  lemma DaySumCountsEvents(w: World, profile: string, kind: EventType, lo: int, hi: int)
    requires Inv(w)
    ensures SumOf(w.counters, RowsBetween(w.counters, profile, kind, DayBucket, lo, hi))
         == |CountedBetween(w, profile, kind, DayBucket, lo, hi)|
  {
    var keys := RowsBetween(w.counters, profile, kind, DayBucket, lo, hi);
    SumCountsEvents(w, DayBucket, keys);
    forall id | id in CountedBetween(w, profile, kind, DayBucket, lo, hi) ensures KeyFor(w.raw[id], DayBucket) in keys {
      CountedHasRow(w, id, DayBucket);
    }
    assert CountedIn(w, DayBucket, keys) == CountedBetween(w, profile, kind, DayBucket, lo, hi);
  }

  lemma HourCountedIn(w: World, profile: string, kind: EventType, day: int)
    requires Inv(w) && day == Normalize(DayBucket, day)
    ensures CountedIn(w, HourBucket, RowsBetween(w.counters, profile, kind, HourBucket, day, day + DAY - 1))
         == CountedBetween(w, profile, kind, HourBucket, day, day)
  {
    var keys := RowsBetween(w.counters, profile, kind, HourBucket, day, day + DAY - 1);
    forall id | id in w.raw
      ensures id in CountedIn(w, HourBucket, keys) <==> id in CountedBetween(w, profile, kind, HourBucket, day, day) {
      HourOnDay(day, w.raw[id].at);
      if w.counted[id] >= 1 {
        CountedHasRow(w, id, HourBucket);
      }
    }
  }

  /** The hour counters of one day add up to the events of that day counted by the hour. */
  lemma HourSumCountsEvents(w: World, profile: string, kind: EventType, day: int)
    requires Inv(w) && day == Normalize(DayBucket, day)
    ensures SumOf(w.counters, RowsBetween(w.counters, profile, kind, HourBucket, day, day + DAY - 1))
         == |CountedBetween(w, profile, kind, HourBucket, day, day)|
  {
    SumCountsEvents(w, HourBucket, RowsBetween(w.counters, profile, kind, HourBucket, day, day + DAY - 1));
    HourCountedIn(w, profile, kind, day);
  }

  lemma SameDay(day: int, at: int)
    requires day == Normalize(DayBucket, day)
    ensures day <= at < day + DAY <==> Normalize(DayBucket, at) == day
  {
    if day <= at < day + DAY {
      DivMod(day, DAY);
      DivModUnique(at, day / DAY, at - day, DAY);
    }
  }

  lemma HourOnDay(day: int, at: int)
    requires day == Normalize(DayBucket, day)
    ensures day <= Normalize(HourBucket, at) < day + DAY <==> Normalize(DayBucket, at) == day
  {
    DayOfHour(at);
    SameDay(day, Normalize(HourBucket, at));
  }

  /** Over all runs: stored events of a day >= sum of its hour counters >= its day counter. */
  lemma CountersLagBehindEvents(steps: seq<Step>, profile: string, kind: EventType, day: int)
    requires IsRun(EMPTY, steps) && day == Normalize(DayBucket, day)
    ensures var w := Run(EMPTY, steps);
      && Counter(w.counters, Key(profile, DayBucket, day, kind))
         <= SumOf(w.counters, RowsBetween(w.counters, profile, kind, HourBucket, day, day + DAY - 1))
         <= |EventsBetween(w.raw, profile, kind, day, day)|
  {
    EmptyInv();
    RunKeeps(EMPTY, steps);
    var w := Run(EMPTY, steps);
    HourSumCountsEvents(w, profile, kind, day);
    var byHour := CountedBetween(w, profile, kind, HourBucket, day, day);
    CardSubset(Counted(w.raw, w.counted, Key(profile, DayBucket, day, kind)), byHour);
    CardSubset(byHour, EventsBetween(w.raw, profile, kind, day, day));
  }

  // ---------- Nothing in flight, nothing lost ----------

  /** A step at which no statement is lost: it either completes or, for the first, leaves no trace. */
  predicate Clean(step: Step) {
    match step
    case Start(_, _, _, stored) => stored != AppliedThenLost
    case Aggregate(_, done) => done.Done?
    case Crash(_) => false
  }

  predicate InFlight(ingests: map<int, Phase>, id: string) {
    exists i :: i in ingests && ingests[i].event.id == id
  }

  /** Every event short of a counter is still being ingested. */
  ghost predicate NothingLost(w: World)
    requires w.raw.Keys == w.counted.Keys
  {
    forall id {:trigger InFlight(w.ingests, id)} :: id in w.raw && w.counted[id] < 2 ==> InFlight(w.ingests, id)
  }

  lemma CleanStepLosesNothing(w: World, step: Step)
    requires Inv(w) && Enabled(w, step) && NothingLost(w) && Clean(step)
    ensures Inv(Apply(w, step)) && NothingLost(Apply(w, step))
  {
    StepKeeps(w, step);
    var w' := Apply(w, step);
    if step.Aggregate? {
      assert PhaseOk(w, w.ingests[step.i]);
    }
    forall id | id in w'.raw && w'.counted[id] < 2 ensures InFlight(w'.ingests, id) {
      if id in w.raw && w.counted[id] < 2 {
        assert InFlight(w.ingests, id);
        var j :| j in w.ingests && w.ingests[j].event.id == id;
        assert PhaseOk(w, w.ingests[j]);
        assert j in w'.ingests && w'.ingests[j].event.id == id;
      } else {
        assert step.Start?;
        assert w'.ingests[step.i].event.id == id;
      }
    }
  }

  lemma {:induction false} CleanRunLosesNothing(w: World, steps: seq<Step>)
    requires Inv(w) && IsRun(w, steps) && NothingLost(w) && forall step :: step in steps ==> Clean(step)
    ensures Inv(Run(w, steps)) && NothingLost(Run(w, steps))
    decreases |steps|
  {
    if steps != [] {
      CleanStepLosesNothing(w, steps[0]);
      CleanRunLosesNothing(Apply(w, steps[0]), steps[1..]);
    }
  }

  /** After a clean run with no ingest in flight every stored event is in both counters. */
  lemma QuietMeansCounted(steps: seq<Step>)
    requires IsRun(EMPTY, steps) && (forall step :: step in steps ==> Clean(step))
    requires Run(EMPTY, steps).ingests == map[]
    ensures var w := Run(EMPTY, steps); Inv(w) && forall id :: id in w.raw ==> w.counted[id] == 2
  {
    EmptyInv();
    CleanRunLosesNothing(EMPTY, steps);
    var w := Run(EMPTY, steps);
    forall id | id in w.raw ensures w.counted[id] == 2 {
      assert !InFlight(w.ingests, id);
    }
  }

  /** Then stored events, hour counters and day counter agree. */
  lemma QuietCountersAgree(steps: seq<Step>, profile: string, kind: EventType, day: int)
    requires IsRun(EMPTY, steps) && (forall step :: step in steps ==> Clean(step))
    requires Run(EMPTY, steps).ingests == map[] && day == Normalize(DayBucket, day)
    ensures var w := Run(EMPTY, steps);
      && Counter(w.counters, Key(profile, DayBucket, day, kind))
         == SumOf(w.counters, RowsBetween(w.counters, profile, kind, HourBucket, day, day + DAY - 1))
         == |EventsBetween(w.raw, profile, kind, day, day)|
  {
    QuietMeansCounted(steps);
    var w := Run(EMPTY, steps);
    var events := EventsBetween(w.raw, profile, kind, day, day);
    HourSumCountsEvents(w, profile, kind, day);
    assert CountedBetween(w, profile, kind, HourBucket, day, day) == events;
    assert Counted(w.raw, w.counted, Key(profile, DayBucket, day, kind)) == events;
  }

  // ---------- Exactly when a day counter is right ----------

  /** In any state, a day counter falls short by the events of its day that have not raised it. */
  lemma RightMeansAllCounted(w: World, profile: string, kind: EventType, day: int)
    requires Inv(w)
    ensures Counter(w.counters, Key(profile, DayBucket, day, kind)) == |EventsBetween(w.raw, profile, kind, day, day)|
       <==> forall id :: id in EventsBetween(w.raw, profile, kind, day, day) ==> w.counted[id] == 2
  {
    var events, counted := EventsBetween(w.raw, profile, kind, day, day),
                           Counted(w.raw, w.counted, Key(profile, DayBucket, day, kind));
    assert counted == set id | id in events && w.counted[id] == 2;
    SubsetSameSize(counted, events);
  }

  lemma SubsetSameSize<T>(a: set<T>, b: set<T>)
    requires a <= b
    ensures |a| == |b| <==> a == b
  {
    assert b == a + (b - a);
    CardDisjoint(a, b - a);
  }

  /** Of the steps to come, the first of ingest `i` is a day statement that takes effect. */
  predicate DayApplies(i: int, steps: seq<Step>)
    decreases |steps|
  {
    && steps != []
    && if steps[0].i != i then DayApplies(i, steps[1..]) else steps[0].Aggregate? && steps[0].done.Applied()
  }

  /**
   Of the steps to come, the first two of ingest `i` are its statements, the hour's answered and the day's applied.
   */
  predicate HourThenDay(i: int, steps: seq<Step>)
    decreases |steps|
  {
    && steps != []
    && if steps[0].i != i then HourThenDay(i, steps[1..])
       else steps[0].Aggregate? && steps[0].done.Done? && DayApplies(i, steps[1..])
  }

  /** The step stores an event of the given profile, type and day. */
  predicate Stores(w: World, step: Step, profile: string, kind: EventType, day: int) {
    && step.Start? && step.stored.Applied()
    && var e := Stamped(step.event, step.now);
       Valid(e) && e.id !in w.raw && e.profileId == profile && e.kind == kind && Normalize(DayBucket, e.at) == day
  }

  /** Every step that stores an event of the day is answered, and its hour and day statements follow with effect. */
  predicate EveryStoreCounted(w: World, steps: seq<Step>, profile: string, kind: EventType, day: int)
    requires IsRun(w, steps)
    decreases |steps|
  {
    steps == [] ||
    (&& (Stores(w, steps[0], profile, kind, day) ==> steps[0].stored.Done? && HourThenDay(steps[0].i, steps[1..]))
     && EveryStoreCounted(Apply(w, steps[0]), steps[1..], profile, kind, day))
  }

  lemma RawStaysAtStep(w: World, step: Step, id: string)
    requires Enabled(w, step) && id in w.raw
    ensures id in Apply(w, step).raw && Apply(w, step).raw[id] == w.raw[id]
  {
  }

  lemma {:induction false} RawStays(w: World, steps: seq<Step>, id: string)
    requires Inv(w) && IsRun(w, steps) && id in w.raw
    ensures Inv(Run(w, steps)) && id in Run(w, steps).raw && Run(w, steps).raw[id] == w.raw[id]
    decreases |steps|
  {
    if steps != [] {
      StepKeeps(w, steps[0]);
      RawStaysAtStep(w, steps[0], id);
      RawStays(Apply(w, steps[0]), steps[1..], id);
    }
  }

  lemma AbandonedStep(w: World, step: Step, id: string)
    requires Inv(w) && Enabled(w, step) && id in w.raw && !InFlight(w.ingests, id)
    ensures var w' := Apply(w, step);
      Inv(w') && id in w'.raw && w'.counted[id] == w.counted[id] && !InFlight(w'.ingests, id)
  {
    StepKeeps(w, step);
    var w' := Apply(w, step);
    forall j | j in w'.ingests ensures w'.ingests[j].event.id != id {
      if j in w.ingests {
        assert w.ingests[j].event.id != id;
      }
    }
    if step.Aggregate? {
      assert w.ingests[step.i].event.id != id;
    }
  }

  /** An event that no ingest has in hand is counted no further. */
  lemma {:induction false} AbandonedStays(w: World, steps: seq<Step>, id: string)
    requires Inv(w) && IsRun(w, steps) && id in w.raw && !InFlight(w.ingests, id)
    ensures Inv(Run(w, steps)) && id in Run(w, steps).raw && Run(w, steps).counted[id] == w.counted[id]
    decreases |steps|
  {
    if steps != [] {
      AbandonedStep(w, steps[0], id);
      AbandonedStays(Apply(w, steps[0]), steps[1..], id);
    }
  }

  /** What becomes of an event whose ingest has still to count its day. */
  lemma {:induction false} DayFate(w: World, steps: seq<Step>, i: int)
    requires Inv(w) && IsRun(w, steps) && i in w.ingests && w.ingests[i].CountDay?
    ensures var id := w.ingests[i].event.id;
      Inv(Run(w, steps)) && id in Run(w, steps).raw && (Run(w, steps).counted[id] == 2 <==> DayApplies(i, steps))
    decreases |steps|
  {
    assert PhaseOk(w, w.ingests[i]);
    if steps != [] {
      StepKeeps(w, steps[0]);
      var w', id := Apply(w, steps[0]), w.ingests[i].event.id;
      if steps[0].i == i {
        assert !InFlight(w'.ingests, id);
        AbandonedStays(w', steps[1..], id);
      } else {
        DayFate(w', steps[1..], i);
      }
    }
  }

  /** What becomes of an event that has just been stored. */
  lemma {:induction false} HourFate(w: World, steps: seq<Step>, i: int)
    requires Inv(w) && IsRun(w, steps) && i in w.ingests && w.ingests[i].CountHour?
    ensures var id := w.ingests[i].event.id;
      Inv(Run(w, steps)) && id in Run(w, steps).raw && (Run(w, steps).counted[id] == 2 <==> HourThenDay(i, steps))
    decreases |steps|
  {
    assert PhaseOk(w, w.ingests[i]);
    if steps != [] {
      StepKeeps(w, steps[0]);
      var w', id := Apply(w, steps[0]), w.ingests[i].event.id;
      if steps[0].i != i {
        HourFate(w', steps[1..], i);
      } else if steps[0].Aggregate? && steps[0].done.Done? {
        DayFate(w', steps[1..], i);
      } else {
        assert !InFlight(w'.ingests, id);
        AbandonedStays(w', steps[1..], id);
      }
    }
  }

  /** The event that a step stores is in both counters at the end exactly when its own statements put it there. */
  lemma StoreFate(w: World, steps: seq<Step>, profile: string, kind: EventType, day: int)
    requires Inv(w) && IsRun(w, steps) && steps != [] && Stores(w, steps[0], profile, kind, day)
    ensures var id := Stamped(steps[0].event, steps[0].now).id;
      && Inv(Run(w, steps)) && id in EventsBetween(Run(w, steps).raw, profile, kind, day, day)
      && (Run(w, steps).counted[id] == 2 <==> steps[0].stored.Done? && HourThenDay(steps[0].i, steps[1..]))
  {
    StepKeeps(w, steps[0]);
    var w', id := Apply(w, steps[0]), Stamped(steps[0].event, steps[0].now).id;
    RawStays(w', steps[1..], id);
    if steps[0].stored.Done? {
      HourFate(w', steps[1..], steps[0].i);
    } else {
      assert !InFlight(w'.ingests, id) by {
        forall j | j in w.ingests ensures w.ingests[j].event.id != id {
          assert PhaseOk(w, w.ingests[j]);
        }
      }
      AbandonedStays(w', steps[1..], id);
    }
  }

  /** A step that does not store an event of the day leaves the events of the day as they were. */
  lemma OtherStepStoresNone(w: World, steps: seq<Step>, profile: string, kind: EventType, day: int, id: string)
    requires Inv(w) && IsRun(w, steps) && steps != [] && !Stores(w, steps[0], profile, kind, day)
    requires id in Apply(w, steps[0]).raw && id !in w.raw
    ensures id !in EventsBetween(Run(w, steps).raw, profile, kind, day, day)
  {
    StepKeeps(w, steps[0]);
    RawStays(Apply(w, steps[0]), steps[1..], id);
  }

  /** The events of the day beyond those of `known` have raised both counters. */
  ghost predicate NewOnesCounted(known: set<string>, w: World, profile: string, kind: EventType, day: int)
    requires w.raw.Keys == w.counted.Keys
  {
    forall id :: id in EventsBetween(w.raw, profile, kind, day, day) && id !in known ==> w.counted[id] == 2
  }

  lemma StoringStep(w: World, steps: seq<Step>, profile: string, kind: EventType, day: int)
    requires Inv(w) && IsRun(w, steps) && steps != [] && Stores(w, steps[0], profile, kind, day)
    requires Inv(Run(w, steps))
    ensures NewOnesCounted(w.raw.Keys, Run(w, steps), profile, kind, day)
       <==> && NewOnesCounted(Apply(w, steps[0]).raw.Keys, Run(w, steps), profile, kind, day)
            && steps[0].stored.Done? && HourThenDay(steps[0].i, steps[1..])
  {
    StoreFate(w, steps, profile, kind, day);
    assert Apply(w, steps[0]).raw.Keys == w.raw.Keys + {Stamped(steps[0].event, steps[0].now).id};
  }

  lemma OtherStep(w: World, steps: seq<Step>, profile: string, kind: EventType, day: int)
    requires Inv(w) && IsRun(w, steps) && steps != [] && !Stores(w, steps[0], profile, kind, day)
    requires Inv(Run(w, steps))
    ensures NewOnesCounted(w.raw.Keys, Run(w, steps), profile, kind, day)
       <==> NewOnesCounted(Apply(w, steps[0]).raw.Keys, Run(w, steps), profile, kind, day)
  {
    StepAddsKeys(w, steps[0]);
    forall id | id in Apply(w, steps[0]).raw && id !in w.raw
      ensures id !in EventsBetween(Run(w, steps).raw, profile, kind, day, day) {
      OtherStepStoresNone(w, steps, profile, kind, day, id);
    }
  }

  /** The events of the day that a run stores are all in their counters exactly when every store is counted. */
  lemma {:induction false} StoresCountedExactly(w: World, steps: seq<Step>, profile: string, kind: EventType, day: int)
    requires Inv(w) && IsRun(w, steps)
    ensures Inv(Run(w, steps))
    ensures EveryStoreCounted(w, steps, profile, kind, day)
       <==> NewOnesCounted(w.raw.Keys, Run(w, steps), profile, kind, day)
    decreases |steps|
  {
    if steps != [] {
      StepKeeps(w, steps[0]);
      StoresCountedExactly(Apply(w, steps[0]), steps[1..], profile, kind, day);
      if Stores(w, steps[0], profile, kind, day) {
        StoringStep(w, steps, profile, kind, day);
      } else {
        OtherStep(w, steps, profile, kind, day);
      }
    }
  }

  lemma StepAddsKeys(w: World, step: Step)
    requires Enabled(w, step)
    ensures w.raw.Keys <= Apply(w, step).raw.Keys
  {
  }

  /**
   A day counter equals the number of stored events of its day if and only if for every statement that stored one of
   them the answer arrived, the ingest's hour statement applied and was answered, and its day statement applied.
   */
  lemma DayCounterRightExactly(steps: seq<Step>, profile: string, kind: EventType, day: int)
    requires IsRun(EMPTY, steps)
    ensures var w := Run(EMPTY, steps);
      Counter(w.counters, Key(profile, DayBucket, day, kind)) == |EventsBetween(w.raw, profile, kind, day, day)|
      <==> EveryStoreCounted(EMPTY, steps, profile, kind, day)
  {
    EmptyInv();
    StoresCountedExactly(EMPTY, steps, profile, kind, day);
    RightMeansAllCounted(Run(EMPTY, steps), profile, kind, day);
  }

  // ---------- Redelivery ----------

  /** A delivery of an event that is already stored. */
  predicate Redelivers(w: World, step: Step) {
    step.Start? && Stamped(step.event, step.now).id in w.raw
  }

  /** A run with all its redeliveries taken out. */
  function FirstDeliveries(w: World, steps: seq<Step>): seq<Step>
    requires IsRun(w, steps)
    decreases |steps|
  {
    if steps == [] then []
    else
      var rest := FirstDeliveries(Apply(w, steps[0]), steps[1..]);
      if Redelivers(w, steps[0]) then rest else [steps[0]] + rest
  }

  /** Redeliveries change nothing, wherever they fall in a run: it ends in the same tables without them. */
  lemma {:induction false} RedeliveriesChangeNothing(w: World, steps: seq<Step>)
    requires IsRun(w, steps)
    ensures IsRun(w, FirstDeliveries(w, steps)) && Run(w, FirstDeliveries(w, steps)) == Run(w, steps)
    decreases |steps|
  {
    if steps != [] {
      RedeliveriesChangeNothing(Apply(w, steps[0]), steps[1..]);
      var rest := FirstDeliveries(Apply(w, steps[0]), steps[1..]);
      assert ([steps[0]] + rest)[1..] == rest;
    }
  }

  // ---------- The statistics report ----------

  datatype StatRow = StatRow(kind: EventType, value: nat)

  datatype Stats = Stats(
    views: nat, impressions: nat, ctr: real, cardOpens: nat, chatStarts: nat, donations: nat, boosts: nat,
    profileChanges: nat)

  /** The value the grouped query has for a type: the sum of its day counters from the day of `from` to that of `to`. */
  ghost function Reported(counters: map<Key, nat>, profile: string, kind: EventType, from: int, to: int): nat {
    SumOf(counters,
          RowsBetween(counters, profile, kind, DayBucket, Normalize(DayBucket, from), Normalize(DayBucket, to)))
  }

  /** The rows of the grouped query, in any order: one for each type that has a counter in the range. */
  ghost predicate IsAnswer(counters: map<Key, nat>, profile: string, from: int, to: int, rows: seq<StatRow>) {
    && (forall i, j :: 0 <= i < j < |rows| ==> rows[i].kind != rows[j].kind)
    && (forall i :: 0 <= i < |rows| ==> rows[i].value == Reported(counters, profile, rows[i].kind, from, to))
    && (forall key :: key in counters && key.profileId == profile && key.size == DayBucket
            && Normalize(DayBucket, from) <= key.at <= Normalize(DayBucket, to)
          ==> HasRow(rows, key.kind))
  }

  predicate HasRow(rows: seq<StatRow>, kind: EventType) {
    exists i :: 0 <= i < |rows| && rows[i].kind == kind
  }

  /** The value of a type in a list of rows, 0 when it has none. */
  function ValueIn(rows: seq<StatRow>, kind: EventType): nat {
    if rows == [] then 0
    else if rows[|rows| - 1].kind == kind then rows[|rows| - 1].value
    else ValueIn(rows[..|rows| - 1], kind)
  }

  lemma {:induction false} ValueOfRow(rows: seq<StatRow>, kind: EventType)
    ensures HasRow(rows, kind) ==>
      exists i :: 0 <= i < |rows| && rows[i].kind == kind && ValueIn(rows, kind) == rows[i].value
    ensures !HasRow(rows, kind) ==> ValueIn(rows, kind) == 0
  {
    if rows != [] && rows[|rows| - 1].kind != kind {
      var init := rows[..|rows| - 1];
      ValueOfRow(init, kind);
      if HasRow(rows, kind) {
        var i :| 0 <= i < |rows| && rows[i].kind == kind;
        assert init[i].kind == kind;
      } else {
        assert !HasRow(init, kind);
      }
    }
  }

  /** Every type's value in an answer is its sum, with or without a row. */
  lemma AnswerValues(counters: map<Key, nat>, profile: string, from: int, to: int, rows: seq<StatRow>, kind: EventType)
    requires IsAnswer(counters, profile, from, to, rows)
    ensures ValueIn(rows, kind) == Reported(counters, profile, kind, from, to)
  {
    ValueOfRow(rows, kind);
    if !HasRow(rows, kind) {
      assert RowsBetween(counters, profile, kind, DayBucket, Normalize(DayBucket, from), Normalize(DayBucket, to))
        == {};
    }
  }

  lemma ValueStep(rows: seq<StatRow>, n: nat, kind: EventType)
    requires n < |rows|
    ensures ValueIn(rows[..n + 1], kind) == if rows[n].kind == kind then rows[n].value else ValueIn(rows[..n], kind)
  {
    assert rows[..n + 1][..n] == rows[..n];
  }

  /** The scan of `ExtendedStats` over the rows of its query; every other type is passed over. */
  method ScanRows(rows: seq<StatRow>) returns (stats: Stats)
    ensures stats == Stats(ValueIn(rows, View), ValueIn(rows, Impression), stats.ctr, ValueIn(rows, CardOpen),
                           ValueIn(rows, ChatStart), ValueIn(rows, Donation), ValueIn(rows, Boost),
                           ValueIn(rows, ProfileChange))
    ensures stats.ctr * stats.impressions as real == if stats.impressions > 0 then stats.views as real else 0.0
    ensures stats.impressions == 0 ==> stats.ctr == 0.0
  {
    stats := Stats(0, 0, 0.0, 0, 0, 0, 0, 0);
    for n := 0 to |rows|
      invariant stats.ctr == 0.0
      invariant stats.views == ValueIn(rows[..n], View) && stats.impressions == ValueIn(rows[..n], Impression)
      invariant stats.cardOpens == ValueIn(rows[..n], CardOpen) && stats.chatStarts == ValueIn(rows[..n], ChatStart)
      invariant stats.donations == ValueIn(rows[..n], Donation) && stats.boosts == ValueIn(rows[..n], Boost)
      invariant stats.profileChanges == ValueIn(rows[..n], ProfileChange)
    {
      forall kind ensures ValueIn(rows[..n + 1], kind)
                          == if rows[n].kind == kind then rows[n].value else ValueIn(rows[..n], kind) {
        ValueStep(rows, n, kind);
      }
      var value := rows[n].value;
      match rows[n].kind {
        case View => stats := stats.(views := value);
        case Impression => stats := stats.(impressions := value);
        case CardOpen => stats := stats.(cardOpens := value);
        case ChatStart => stats := stats.(chatStarts := value);
        case Donation => stats := stats.(donations := value);
        case Boost => stats := stats.(boosts := value);
        case ProfileChange => stats := stats.(profileChanges := value);
        case _ =>
      }
    }
    assert rows[..|rows|] == rows;
    if stats.impressions > 0 {
      stats := stats.(ctr := stats.views as real / stats.impressions as real);
    }
  }

  /**
   The seven reported numbers are the sums of their types, and the rate is views per impression where there are any.
   */
  ghost predicate Reports(stats: Stats, counters: map<Key, nat>, profile: string, from: int, to: int) {
    && stats.views == Reported(counters, profile, View, from, to)
    && stats.impressions == Reported(counters, profile, Impression, from, to)
    && stats.cardOpens == Reported(counters, profile, CardOpen, from, to)
    && stats.chatStarts == Reported(counters, profile, ChatStart, from, to)
    && stats.donations == Reported(counters, profile, Donation, from, to)
    && stats.boosts == Reported(counters, profile, Boost, from, to)
    && stats.profileChanges == Reported(counters, profile, ProfileChange, from, to)
    && stats.ctr * stats.impressions as real == (if stats.impressions > 0 then stats.views as real else 0.0)
    && (stats.impressions == 0 ==> stats.ctr == 0.0)
  }

  lemma ScanReports(stats: Stats, rows: seq<StatRow>, counters: map<Key, nat>, profile: string, from: int, to: int)
    requires IsAnswer(counters, profile, from, to, rows)
    requires stats == Stats(ValueIn(rows, View), ValueIn(rows, Impression), stats.ctr, ValueIn(rows, CardOpen),
                            ValueIn(rows, ChatStart), ValueIn(rows, Donation), ValueIn(rows, Boost),
                            ValueIn(rows, ProfileChange))
    requires stats.ctr * stats.impressions as real == if stats.impressions > 0 then stats.views as real else 0.0
    requires stats.impressions == 0 ==> stats.ctr == 0.0
    ensures Reports(stats, counters, profile, from, to)
  {
    AnswerValues(counters, profile, from, to, rows, View);
    AnswerValues(counters, profile, from, to, rows, Impression);
    AnswerValues(counters, profile, from, to, rows, CardOpen);
    AnswerValues(counters, profile, from, to, rows, ChatStart);
    AnswerValues(counters, profile, from, to, rows, Donation);
    AnswerValues(counters, profile, from, to, rows, Boost);
    AnswerValues(counters, profile, from, to, rows, ProfileChange);
  }

  /** After a clean run with no ingest in flight each reported number is a direct count of the stored events. */
  lemma StatsCountEvents(steps: seq<Step>, profile: string, kind: EventType, from: int, to: int)
    requires IsRun(EMPTY, steps) && (forall step :: step in steps ==> Clean(step))
    requires Run(EMPTY, steps).ingests == map[]
    ensures var w := Run(EMPTY, steps);
      Reported(w.counters, profile, kind, from, to)
      == |EventsBetween(w.raw, profile, kind, Normalize(DayBucket, from), Normalize(DayBucket, to))|
  {
    QuietMeansCounted(steps);
    var w := Run(EMPTY, steps);
    var lo, hi := Normalize(DayBucket, from), Normalize(DayBucket, to);
    DaySumCountsEvents(w, profile, kind, lo, hi);
    assert CountedBetween(w, profile, kind, DayBucket, lo, hi) == EventsBetween(w.raw, profile, kind, lo, hi);
  }

  /** After any run it counts stored events too, but perhaps not all: none is counted twice. */
  lemma StatsNeverOvercount(steps: seq<Step>, profile: string, kind: EventType, from: int, to: int)
    requires IsRun(EMPTY, steps)
    ensures var w := Run(EMPTY, steps);
      Reported(w.counters, profile, kind, from, to)
      <= |EventsBetween(w.raw, profile, kind, Normalize(DayBucket, from), Normalize(DayBucket, to))|
  {
    EmptyInv();
    RunKeeps(EMPTY, steps);
    var w := Run(EMPTY, steps);
    var lo, hi := Normalize(DayBucket, from), Normalize(DayBucket, to);
    DaySumCountsEvents(w, profile, kind, lo, hi);
    CardSubset(CountedBetween(w, profile, kind, DayBucket, lo, hi), EventsBetween(w.raw, profile, kind, lo, hi));
  }
}
