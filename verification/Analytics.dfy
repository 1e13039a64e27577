/**
 Analytics ingestion. An event is stored raw, then counted in its hour and then in its day, by three separate
 statements; ingests interleave, and each statement may fail before or after it takes effect.
 */
module Analytics {
  import opened Common

  /** Times count nanoseconds from the unset time, midnight UTC of 1 January of year 1, to which buckets are aligned. */
  const MINUTE: int := 60_000_000_000

  const HOUR: int := 3_600_000_000_000

  const DAY: int := 86_400_000_000_000

  datatype EventType = View | Impression | SwipeLeft | SwipeRight | CardOpen | CtrClick | ChatStart | Donation | Boost
                     | ProfileChange | UnknownType(name: string)

  datatype BucketSize = MinuteBucket | HourBucket | DayBucket

  datatype Event = Event(id: string, profileId: string, actorId: string, kind: EventType, at: Time)

  datatype Key = Key(profileId: string, size: BucketSize, at: int, kind: EventType)

  function Width(size: BucketSize): (w: int)
    ensures w > 0
  {
    match size
    case MinuteBucket => MINUTE
    case HourBucket => HOUR
    case DayBucket => DAY
  }

  /** The start of the bucket that a moment falls into. */
  function Normalize(size: BucketSize, at: int): (start: int)
    ensures start <= at < start + Width(size)
  {
    at - at % Width(size)
  }

  function KeyFor(e: Event, size: BucketSize): Key {
    Key(e.profileId, size, Normalize(size, e.at), e.kind)
  }

  predicate Valid(e: Event) {
    e.id != "" && e.profileId != "" && e.actorId != "" && !e.kind.UnknownType? && e.at != ZERO_TIME
  }

  // ---------- Ingestion ----------

  /** What an ingest under way has still to do. */
  datatype Phase = CountHour(event: Event) | CountDay(event: Event)

  /** `counted` says for each raw event how many of its two counters have been raised. */
  datatype World = World(
    raw: map<string, Event>,
    counters: map<Key, nat>,
    ingests: map<int, Phase>,
    counted: map<string, nat>)

  const EMPTY := World(map[], map[], map[], map[])

  datatype Step =
    | Start(i: int, event: Event, now: Time, stored: Outcome)
    | Aggregate(i: int, done: Outcome)
    | Crash(i: int)

  function Counter(counters: map<Key, nat>, key: Key): nat {
    if key in counters then counters[key] else 0
  }

  /** The upsert of `AggregateEvent`. */
  function Raise(counters: map<Key, nat>, key: Key): map<Key, nat> {
    counters[key := Counter(counters, key) + 1]
  }

  /** A missing time is filled in from the clock. */
  function Stamped(e: Event, now: Time): Event {
    if e.at == ZERO_TIME then e.(at := now) else e
  }

  predicate Enabled(w: World, step: Step) {
    match step
    case Start(i, _, _, _) => i !in w.ingests
    case Aggregate(i, _) => i in w.ingests
    case Crash(i) => i in w.ingests
  }

  function Apply(w: World, step: Step): World
    requires Enabled(w, step)
  {
    match step
    case Start(i, event, now, stored) =>
      var e := Stamped(event, now);
      if !Valid(e) || e.id in w.raw || !stored.Applied() then w
      else
        var w1 := w.(raw := w.raw[e.id := e], counted := w.counted[e.id := 0]);
        if stored.Reported() then w1.(ingests := w.ingests[i := CountHour(e)]) else w1
    case Aggregate(i, done) =>
      var e := w.ingests[i].event;
      var hour := w.ingests[i].CountHour?;
      var key := KeyFor(e, if hour then HourBucket else DayBucket);
      var w1 := if done.Applied()
                then w.(counters := Raise(w.counters, key), counted := w.counted[e.id := if hour then 1 else 2])
                else w;
      if hour && done.Reported() then w1.(ingests := w.ingests[i := CountDay(e)]) else w1.(ingests := w.ingests - {i})
    case Crash(i) => w.(ingests := w.ingests - {i})
  }

  predicate IsRun(w: World, steps: seq<Step>)
    decreases |steps|
  {
    steps == [] || (Enabled(w, steps[0]) && IsRun(Apply(w, steps[0]), steps[1..]))
  }

  function Run(w: World, steps: seq<Step>): World
    requires IsRun(w, steps)
    decreases |steps|
  {
    if steps == [] then w else Run(Apply(w, steps[0]), steps[1..])
  }

  // ---------- The invariant: every counter counts events ----------

  /** How many counters an event must have raised to be in a bucket of this size; minutes are never counted. */
  function Stage(size: BucketSize): nat {
    match size
    case MinuteBucket => 3
    case HourBucket => 1
    case DayBucket => 2
  }

  /** The events counted under a key. */
  ghost function Counted(raw: map<string, Event>, counted: map<string, nat>, key: Key): set<string>
    requires raw.Keys == counted.Keys
  {
    set id | id in raw && KeyFor(raw[id], key.size) == key && counted[id] >= Stage(key.size)
  }

  /** Every counter holds the number of events counted under its key. */
  ghost predicate CountersOk(w: World)
    requires w.raw.Keys == w.counted.Keys
  {
    forall key :: Counter(w.counters, key) == |Counted(w.raw, w.counted, key)|
  }

  ghost predicate PhaseOk(w: World, phase: Phase) {
    var e := phase.event;
    e.id in w.raw && w.raw[e.id] == e && e.id in w.counted && w.counted[e.id] == if phase.CountHour? then 0 else 1
  }

  ghost predicate Inv(w: World) {
    && w.raw.Keys == w.counted.Keys
    && (forall id :: id in w.raw ==> w.raw[id].id == id && Valid(w.raw[id]) && w.counted[id] <= 2)
    && (forall i {:trigger PhaseOk(w, w.ingests[i])} :: i in w.ingests ==> PhaseOk(w, w.ingests[i]))
    && (forall i, j :: i in w.ingests && j in w.ingests && w.ingests[i].event.id == w.ingests[j].event.id ==> i == j)
    && CountersOk(w)
  }

  /** An event just stored is counted nowhere. */
  lemma StoreCountsNothing(raw: map<string, Event>, counted: map<string, nat>, e: Event, key: Key)
    requires raw.Keys == counted.Keys && e.id !in raw
    ensures Counted(raw[e.id := e], counted[e.id := 0], key) == Counted(raw, counted, key)
  {
  }

  /** Raising the counter of the next stage counts exactly the event that raises it, and only there. */
  lemma RaiseCountsOne(raw: map<string, Event>, counted: map<string, nat>, id: string, size: BucketSize, key: Key)
    requires raw.Keys == counted.Keys && id in raw && size != MinuteBucket && counted[id] == Stage(size) - 1
    ensures var counted' := counted[id := Stage(size)];
      if key == KeyFor(raw[id], size)
      then id !in Counted(raw, counted, key) && Counted(raw, counted', key) == Counted(raw, counted, key) + {id}
      else Counted(raw, counted', key) == Counted(raw, counted, key)
  {
  }

  lemma StartKeeps(w: World, i: int, event: Event, now: Time, stored: Outcome)
    requires Inv(w) && Enabled(w, Start(i, event, now, stored))
    ensures Inv(Apply(w, Start(i, event, now, stored)))
  {
    var w' := Apply(w, Start(i, event, now, stored));
    var e := Stamped(event, now);
    if e.id !in w.raw {
      forall j | j in w.ingests ensures w.ingests[j].event.id != e.id && PhaseOk(w', w.ingests[j]) {
        assert PhaseOk(w, w.ingests[j]);
      }
      assert w'.raw.Keys == w'.counted.Keys;
      assert CountersOk(w') by {
        forall key ensures Counter(w'.counters, key) == |Counted(w'.raw, w'.counted, key)| {
          StoreCountsNothing(w.raw, w.counted, e, key);
        }
      }
    }
  }

  lemma RaiseKeepsCounters(w: World, w': World, id: string, size: BucketSize)
    requires w.raw.Keys == w.counted.Keys && CountersOk(w)
    requires id in w.raw && size != MinuteBucket && w.counted[id] == Stage(size) - 1
    requires w'.raw == w.raw && w'.counted == w.counted[id := Stage(size)]
    requires w'.counters == Raise(w.counters, KeyFor(w.raw[id], size))
    ensures w'.raw.Keys == w'.counted.Keys && CountersOk(w')
  {
    forall key ensures Counter(w'.counters, key) == |Counted(w'.raw, w'.counted, key)| {
      RaiseCountsOne(w.raw, w.counted, id, size, key);
    }
  }

  lemma AggregateKeeps(w: World, i: int, done: Outcome)
    requires Inv(w) && Enabled(w, Aggregate(i, done))
    ensures Inv(Apply(w, Aggregate(i, done)))
  {
    var w' := Apply(w, Aggregate(i, done));
    var phase := w.ingests[i];
    assert PhaseOk(w, phase);
    if done.Applied() {
      RaiseKeepsCounters(w, w', phase.event.id, if phase.CountHour? then HourBucket else DayBucket);
    }
    forall j | j in w'.ingests ensures PhaseOk(w', w'.ingests[j]) {
      assert PhaseOk(w, w.ingests[j]);
    }
  }

  lemma CrashKeeps(w: World, i: int)
    requires Inv(w) && Enabled(w, Crash(i))
    ensures Inv(Apply(w, Crash(i)))
  {
    var w' := Apply(w, Crash(i));
    forall j | j in w'.ingests ensures PhaseOk(w', w'.ingests[j]) {
      assert PhaseOk(w, w.ingests[j]);
    }
    assert CountersOk(w');
  }

  lemma StepKeeps(w: World, step: Step)
    requires Inv(w) && Enabled(w, step)
    ensures Inv(Apply(w, step))
  {
    match step
    case Start(i, event, now, stored) => StartKeeps(w, i, event, now, stored);
    case Aggregate(i, done) => AggregateKeeps(w, i, done);
    case Crash(i) => CrashKeeps(w, i);
  }

  lemma {:induction false} RunKeeps(w: World, steps: seq<Step>)
    requires Inv(w) && IsRun(w, steps)
    ensures Inv(Run(w, steps))
    decreases |steps|
  {
    if steps != [] {
      StepKeeps(w, steps[0]);
      RunKeeps(Apply(w, steps[0]), steps[1..]);
    }
  }

  lemma EmptyInv()
    ensures Inv(EMPTY)
  {
    forall key ensures |Counted(EMPTY.raw, EMPTY.counted, key)| == 0 {
      assert Counted(EMPTY.raw, EMPTY.counted, key) == {};
    }
  }
}
