/** The analytics service: one ingest makes three writes in order, and each may be the last. */
module AnalyticsService {
  import opened Common
  import opened Analytics
  import opened AnalyticsTheorems

  datatype Error = InvalidEvent | StoreFailed | DuplicateEvent | HourFailed | DayFailed | Forbidden

  /** The steps of one ingest that nothing interrupts, in session `i` of the machine. */
  function IngestSteps(w: World, i: int, event: Event, now: Time, stored: Outcome, hour: Outcome, day: Outcome)
    : (steps: seq<Step>)
    requires i !in w.ingests
    ensures IsRun(w, steps)
  {
    var start := Start(i, event, now, stored);
    var w1 := Apply(w, start);
    if i !in w1.ingests then
      assert IsRun(w1, [start][1..]);
      [start]
    else
      var second := Aggregate(i, hour);
      var w2 := Apply(w1, second);
      if i !in w2.ingests then
        RunOfTwo(w, start, second);
        [start, second]
      else
        var third := Aggregate(i, day);
        RunOfTwo(w1, second, third);
        assert [start, second, third][1..] == [second, third];
        [start, second, third]
  }

  lemma RunOfTwo(w: World, a: Step, b: Step)
    requires Enabled(w, a) && Enabled(Apply(w, a), b)
    ensures IsRun(w, [a, b]) && Run(w, [a, b]) == Apply(Apply(w, a), b)
  {
    assert [a, b][1..] == [b] && [b][1..] == [];
    assert Run(Apply(w, a), [b]) == Apply(Apply(w, a), b);
  }

  /** The counters after an ingest of a new event `e`. */
  function Counters(counters: map<Key, nat>, e: Event, stored: Outcome, hour: Outcome, day: Outcome): map<Key, nat> {
    if !stored.Reported() then counters
    else
      var c1 := if hour.Applied() then Raise(counters, KeyFor(e, HourBucket)) else counters;
      if hour.Reported() && day.Applied() then Raise(c1, KeyFor(e, DayBucket)) else c1
  }

  predicate Stores(raw: map<string, Event>, e: Event, stored: Outcome) {
    Valid(e) && e.id !in raw && stored.Applied()
  }

  /** What an ingest of `e` leaves behind: the event stored, its counters raised as far as it got, and no session. */
  ghost predicate Ingested(w: World, w': World, e: Event, stored: Outcome, hour: Outcome, day: Outcome) {
    && w'.ingests == w.ingests
    && w'.raw == (if Stores(w.raw, e, stored) then w.raw[e.id := e] else w.raw)
    && w'.counters == if Stores(w.raw, e, stored) then Counters(w.counters, e, stored, hour, day) else w.counters
  }

  lemma IngestEffect(w: World, i: int, event: Event, now: Time, stored: Outcome, hour: Outcome, day: Outcome)
    requires i !in w.ingests
    ensures var w' := Run(w, IngestSteps(w, i, event, now, stored, hour, day));
      Ingested(w, w', Stamped(event, now), stored, hour, day)
  {
    var steps := IngestSteps(w, i, event, now, stored, hour, day);
    var w1 := Apply(w, steps[0]);
    if i !in w1.ingests {
      assert steps[1..] == [];
      assert Run(w, steps) == w1;
    } else if i !in Apply(w1, steps[1]).ingests {
      RunOfTwo(w, steps[0], steps[1]);
      CountingEffect(w, w1, i, event, now, stored, hour, day);
    } else {
      RunOfTwo(w1, steps[1], steps[2]);
      assert steps[1..] == [steps[1], steps[2]];
      CountingEffect(w, w1, i, event, now, stored, hour, day);
    }
  }

  lemma CountingEffect(w: World, w1: World, i: int, event: Event, now: Time, stored: Outcome, hour: Outcome,
                       day: Outcome)
    requires i !in w.ingests && w1 == Apply(w, Start(i, event, now, stored)) && i in w1.ingests
    ensures var e := Stamped(event, now);
      var w2 := Apply(w1, Aggregate(i, hour));
      && (i in w2.ingests <==> hour.Reported())
      && Ingested(w, if i in w2.ingests then Apply(w2, Aggregate(i, day)) else w2, e, stored, hour, day)
  {
    var e := Stamped(event, now);
    HourEffect(w1, i, e, hour);
    if hour.Reported() {
      DayEffect(Apply(w1, Aggregate(i, hour)), i, e, day);
    }
  }

  lemma HourEffect(w: World, i: int, e: Event, hour: Outcome)
    requires i in w.ingests && w.ingests[i] == CountHour(e)
    ensures var w' := Apply(w, Aggregate(i, hour));
      && w'.raw == w.raw
      && w'.counters == (if hour.Applied() then Raise(w.counters, KeyFor(e, HourBucket)) else w.counters)
      && w'.ingests == if hour.Reported() then w.ingests[i := CountDay(e)] else w.ingests - {i}
  {
  }

  lemma DayEffect(w: World, i: int, e: Event, day: Outcome)
    requires i in w.ingests && w.ingests[i] == CountDay(e)
    ensures var w' := Apply(w, Aggregate(i, day));
      && w'.raw == w.raw
      && w'.counters == (if day.Applied() then Raise(w.counters, KeyFor(e, DayBucket)) else w.counters)
      && w'.ingests == w.ingests - {i}
  {
  }

  class Service {
    var raw: map<string, Event>
    var counters: map<Key, nat>

    constructor ()
      ensures raw == map[] && counters == map[]
    {
      raw, counters := map[], map[];
    }

    /** The insert that does nothing on a conflict; it says whether a row was inserted. */
    method IngestRawEvent(event: Event, stored: Outcome) returns (r: Result<bool, ()>)
      modifies `raw
      ensures raw == if stored.Applied() && event.id !in old(raw) then old(raw)[event.id := event] else old(raw)
      ensures r == if stored.Reported() then Ok(event.id !in old(raw)) else Err(())
    {
      var inserted := event.id !in raw;
      if stored.Applied() && inserted {
        raw := raw[event.id := event];
      }
      return if stored.Reported() then Ok(inserted) else Err(());
    }

    method AggregateEvent(event: Event, size: BucketSize, done: Outcome) returns (ok: bool)
      modifies `counters
      ensures counters == if done.Applied() then Raise(old(counters), KeyFor(event, size)) else old(counters)
      ensures ok == done.Reported()
    {
      if done.Applied() {
        var key := KeyFor(event, size);
        counters := counters[key := if key in counters then counters[key] + 1 else 1];
      }
      ok := done.Reported();
    }

    /**
     Moves the tables as the ingest's steps do, ends the session, and reports success exactly when all three writes did.
     */
    method IngestEvent(event: Event, now: Time, stored: Outcome, hour: Outcome, day: Outcome, ghost w: World,
                       ghost i: int)
      returns (r: Result<(), Error>)
      requires w.raw == raw && w.counters == counters && i !in w.ingests
      modifies this
      ensures var w' := Run(w, IngestSteps(w, i, event, now, stored, hour, day));
        raw == w'.raw && counters == w'.counters && w'.ingests == w.ingests
      ensures r.Ok? <==> Valid(Stamped(event, now)) && Stamped(event, now).id !in old(raw)
                         && stored.Reported() && hour.Reported() && day.Reported()
      ensures r == Err(DuplicateEvent)
          <==> Valid(Stamped(event, now)) && Stamped(event, now).id in old(raw) && stored.Reported()
      ensures !Valid(Stamped(event, now)) ==> r == Err(InvalidEvent)
      ensures Valid(Stamped(event, now)) && stored == Done && Stamped(event, now).id !in old(raw) ==>
        r == if hour != Done then Err(HourFailed) else if day != Done then Err(DayFailed) else Ok(())
      ensures Valid(Stamped(event, now)) && stored != Done ==> r == Err(StoreFailed)
    {
      IngestEffect(w, i, event, now, stored, hour, day);
      var e := event;
      if e.at == ZERO_TIME {
        e := e.(at := now);
      }
      if !Valid(e) {
        return Err(InvalidEvent);
      }
      var inserted := IngestRawEvent(e, stored);
      if inserted.Err? {
        return Err(StoreFailed);
      }
      if !inserted.value {
        return Err(DuplicateEvent);
      }
      var ok := AggregateEvent(e, HourBucket, hour);
      if !ok {
        return Err(HourFailed);
      }
      ok := AggregateEvent(e, DayBucket, day);
      return if ok then Ok(()) else Err(DayFailed);
    }

    /** Only owners and shelters get statistics; `rows` is the database's answer to the grouped query. */
    method ExtendedStats(role: string, ghost profile: string, ghost from: int, ghost to: int, rows: seq<StatRow>)
      returns (r: Result<Stats, Error>)
      requires IsAnswer(counters, profile, from, to, rows)
      ensures r.Ok? <==> role == "owner" || role == "shelter"
      ensures r.Ok? ==> Reports(r.value, counters, profile, from, to)
    {
      if role != "owner" && role != "shelter" {
        return Err(Forbidden);
      }
      var stats := ScanRows(rows);
      ScanReports(stats, rows, counters, profile, from, to);
      return Ok(stats);
    }
  }
}
