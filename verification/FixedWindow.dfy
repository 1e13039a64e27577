/**
 The Redis-backed fixed-window limiter. Redis is a map of counters with expiry times; either of its two commands may
 fail before or after it takes effect. Times are nanoseconds since Go's zero time, to which windows are aligned.
 */
module FixedWindow {
  import opened Common
  import opened Arithmetic

  const SECOND: int := 1_000_000_000

  /** Seconds from Go's zero time to the Unix epoch. */
  const UNIX_OFFSET: int := 62_135_596_800

  datatype Name = Name(key: string, unix: int)

  datatype Counter = Counter(count: int, expiresAt: Option<Time>)

  type Redis = map<Name, Counter>

  datatype Decision = Decision(allowed: bool, retryAfter: Time)

  datatype Error = RedisFailure

  datatype Call = Call(key: string, now: nat, incr: Outcome, expire: Outcome)

  /** A window of whole positive seconds. */
  predicate WholeSeconds(window: int) {
    window > 0 && window % SECOND == 0
  }

  function Truncate(now: nat, window: int): (start: int)
    requires window > 0
    ensures start <= now < start + window && Aligned(start, window)
  {
    DivMod(now, window);
    DivModUnique(now - now % window, now / window, 0, window);
    now - now % window
  }

  predicate Aligned(t: int, window: int)
    requires window > 0
  {
    t % window == 0
  }

  /** The start of a window is found from any moment in it. */
  lemma TruncateIs(now: nat, start: int, window: int)
    requires window > 0 && Aligned(start, window) && start <= now < start + window
    ensures Truncate(now, window) == start
  {
    DivMod(start, window);
    DivModUnique(now, start / window, now - start, window);
  }

  lemma NextAligned(start: int, window: int)
    requires window > 0 && Aligned(start, window)
    ensures Aligned(start + window, window)
  {
    DivMod(start, window);
    MultipleOfNext(start / window, window);
    DivModUnique(start + window, start / window + 1, 0, window);
  }

  lemma MultipleOfNext(k: int, w: int)
    ensures (k + 1) * w == k * w + w
  {
  }

  function Unix(t: int): int {
    t / SECOND - UNIX_OFFSET
  }

  function BucketName(key: string, now: nat, window: int): Name
    requires window > 0
  {
    Name(key, Unix(Truncate(now, window)))
  }

  predicate Live(r: Redis, name: Name, now: Time) {
    name in r && (r[name].expiresAt.Some? ==> now < r[name].expiresAt.value)
  }

  /** INCR: a missing or expired counter starts at one, without expiry. */
  function Incr(r: Redis, name: Name, now: Time): Counter {
    if Live(r, name, now) then r[name].(count := r[name].count + 1) else Counter(1, None)
  }

  function Decide(r: Redis, c: Call, limit: int, window: int): (Redis, Result<Decision, Error>)
    requires window > 0
  {
    if c.key == "" then (r, Ok(Decision(true, 0)))
    else
      var name := BucketName(c.key, c.now, window);
      var counter := Incr(r, name, c.now);
      var r1 := if c.incr.Applied() then r[name := counter] else r;
      if !c.incr.Reported() then (r1, Err(RedisFailure))
      else
        var r2 := if counter.count == 1 && c.expire.Applied()
                  then r1[name := counter.(expiresAt := Some(c.now + window * 2))] else r1;
        if counter.count == 1 && !c.expire.Reported() then (r2, Err(RedisFailure))
        else if counter.count > limit then
          (r2, Ok(Decision(false, window - (c.now - Truncate(c.now, window)))))
        else (r2, Ok(Decision(true, 0)))
  }

  // ---------- Runs ----------

  /** Redis after the first `j` calls. */
  function After(calls: seq<Call>, limit: int, window: int, j: nat): Redis
    requires window > 0 && j <= |calls|
  {
    if j == 0 then map[] else Decide(After(calls, limit, window, j - 1), calls[j - 1], limit, window).0
  }

  predicate Admitted(calls: seq<Call>, limit: int, window: int, j: nat)
    requires window > 0 && j < |calls|
  {
    var reply := Decide(After(calls, limit, window, j), calls[j], limit, window).1;
    reply.Ok? && reply.value.allowed
  }

  predicate InWindow(c: Call, key: string, start: int, window: int)
    requires window > 0
  {
    c.key == key && Truncate(c.now, window) == start
  }

  /** How many of the first `j` calls counted against a window of a key. */
  function Hits(calls: seq<Call>, window: int, key: string, start: int, j: nat): nat
    requires window > 0 && j <= |calls|
  {
    if j == 0 then 0
    else Hits(calls, window, key, start, j - 1)
         + if InWindow(calls[j - 1], key, start, window) && calls[j - 1].incr.Applied() then 1 else 0
  }

  /** A window's counter, if there is one, holds the window's hits and outlives the window. */
  ghost predicate CounterOk(r: Redis, hits: nat, key: string, start: int, window: int) {
    var name := Name(key, Unix(start));
    && (name !in r ==> hits == 0)
    && (name in r ==> r[name].count == hits >= 1
                      && (r[name].expiresAt.Some? ==> r[name].expiresAt.value >= start + window))
  }

  /** Windows of whole seconds have names of their own. */
  lemma NamesDiffer(window: int, a: int, b: int)
    requires WholeSeconds(window) && Aligned(a, window) && Aligned(b, window) && Unix(a) == Unix(b)
    ensures a == b
  {
    WholeStart(window, a);
    WholeStart(window, b);
  }

  lemma WholeStart(window: int, a: int)
    requires WholeSeconds(window) && Aligned(a, window)
    ensures a % SECOND == 0
  {
    var k, m := a / window, window / SECOND;
    DivMod(a, window);
    assert a == k * (m * SECOND) == (k * m) * SECOND;
  }

  lemma StepCounts(r: Redis, c: Call, limit: int, window: int, hits: nat, key: string, start: int)
    requires WholeSeconds(window) && key != "" && Aligned(start, window) && CounterOk(r, hits, key, start, window)
    ensures CounterOk(Decide(r, c, limit, window).0,
                      hits + (if InWindow(c, key, start, window) && c.incr.Applied() then 1 else 0), key, start, window)
  {
    if c.key == key && Unix(Truncate(c.now, window)) == Unix(start) {
      NamesDiffer(window, Truncate(c.now, window), start);
    }
  }

  /** No counter is lost or reset inside its window: it always holds the number of hits of the window. */
  lemma {:induction false} CounterCountsHits(calls: seq<Call>, limit: int, window: int, key: string, start: int, j: nat)
    requires WholeSeconds(window) && key != "" && Aligned(start, window) && j <= |calls|
    ensures CounterOk(After(calls, limit, window, j), Hits(calls, window, key, start, j), key, start, window)
  {
    if j > 0 {
      CounterCountsHits(calls, limit, window, key, start, j - 1);
      StepCounts(After(calls, limit, window, j - 1), calls[j - 1], limit, window,
                 Hits(calls, window, key, start, j - 1), key, start);
    }
  }

  /**
   A call is admitted exactly when Redis answers and at most `limit` calls of its key, itself included, have hit its
   aligned window so far. Refused callers are told to wait for the next window.
   */
  lemma AdmittedExactly(calls: seq<Call>, limit: int, window: int, j: nat)
    requires WholeSeconds(window) && j < |calls| && calls[j].key != ""
    ensures var c := calls[j];
      var earlier := Hits(calls, window, c.key, Truncate(c.now, window), j);
      Admitted(calls, limit, window, j) <==>
        c.incr.Reported() && (earlier == 0 ==> c.expire.Reported()) && earlier + 1 <= limit
  {
    CounterCountsHits(calls, limit, window, calls[j].key, Truncate(calls[j].now, window), j);
  }

  lemma RetryAtNextWindow(r: Redis, c: Call, limit: int, window: int)
    requires window > 0
    ensures var reply := Decide(r, c, limit, window).1;
      reply.Ok? && !reply.value.allowed ==>
        && 0 < reply.value.retryAfter <= window
        && c.now + reply.value.retryAfter == Truncate(c.now, window) + window
        && Truncate(c.now + reply.value.retryAfter, window) == Truncate(c.now, window) + window
  {
    var start := Truncate(c.now, window);
    NextAligned(start, window);
    TruncateIs(start + window, start + window, window);
  }

  /** A window's counter bears the Unix time at which the window starts. */
  lemma NamedByUnixTime(key: string, now: nat, window: int)
    requires WholeSeconds(window)
    ensures var seconds := BucketName(key, now, window).unix + 62_135_596_800;
      BucketName(key, now, window).key == key && seconds * 1_000_000_000 == Truncate(now, window)
  {
    var start := Truncate(now, window);
    WholeStart(window, start);
    DivMod(start, SECOND);
  }

  /** The first hit dates its counter: it lives for two windows, and so through its own, and is gone after that. */
  lemma FirstHitExpires(r: Redis, c: Call, limit: int, window: int, later: Time)
    requires window > 0 && c.key != "" && !Live(r, BucketName(c.key, c.now, window), c.now)
    requires c.incr == Done && c.expire.Applied()
    ensures var (r', name) := (Decide(r, c, limit, window).0, BucketName(c.key, c.now, window));
      && (Live(r', name, later) <==> later < c.now + 2 * window)
      && (later < Truncate(c.now, window) + window ==> Live(r', name, later))
      && forall other :: other != name ==> (other in r' <==> other in r) && (other in r ==> r'[other] == r[other])
  {
  }

  /** A call without a key is let through and counted nowhere; an admitted one is told to wait for nothing. */
  lemma AdmittedAtOnce(r: Redis, c: Call, limit: int, window: int)
    requires window > 0
    ensures var (r', reply) := Decide(r, c, limit, window);
      && (c.key == "" ==> r' == r && reply == Ok(Decision(true, 0)))
      && (reply.Ok? && reply.value.allowed ==> reply.value.retryAfter == 0)
  {
  }

  /** How many of the first `j` calls of a key were admitted in an aligned window. */
  function AdmittedIn(calls: seq<Call>, limit: int, window: int, key: string, start: int, j: nat): nat
    requires window > 0 && j <= |calls|
  {
    if j == 0 then 0
    else AdmittedIn(calls, limit, window, key, start, j - 1)
         + if InWindow(calls[j - 1], key, start, window) && Admitted(calls, limit, window, j - 1) then 1 else 0
  }

  /** Every aligned window admits at most `limit` calls of a key, in whatever order the clock readings come. */
  lemma {:induction false} WindowBound(calls: seq<Call>, limit: nat, window: int, key: string, start: int, j: nat)
    requires WholeSeconds(window) && key != "" && Aligned(start, window) && j <= |calls|
    ensures AdmittedIn(calls, limit, window, key, start, j) <= Hits(calls, window, key, start, j)
    ensures AdmittedIn(calls, limit, window, key, start, j) <= limit
  {
    if j > 0 {
      WindowBound(calls, limit, window, key, start, j - 1);
      if InWindow(calls[j - 1], key, start, window) { AdmittedExactly(calls, limit, window, j - 1); }
    }
  }

  /** How many of the first `j` calls of a key were admitted from `from` on, for the length of a window. */
  function AdmittedSpan(calls: seq<Call>, limit: int, window: int, key: string, from: nat, j: nat): nat
    requires window > 0 && j <= |calls|
  {
    if j == 0 then 0
    else AdmittedSpan(calls, limit, window, key, from, j - 1)
         + if calls[j - 1].key == key && from <= calls[j - 1].now < from + window
              && Admitted(calls, limit, window, j - 1)
           then 1 else 0
  }

  lemma {:induction false} SpanInTwoWindows(calls: seq<Call>, limit: int, window: int, key: string, from: nat, j: nat)
    requires window > 0 && j <= |calls|
    ensures var start := Truncate(from, window);
      AdmittedSpan(calls, limit, window, key, from, j) <=
      AdmittedIn(calls, limit, window, key, start, j) + AdmittedIn(calls, limit, window, key, start + window, j)
  {
    if j > 0 {
      SpanInTwoWindows(calls, limit, window, key, from, j - 1);
      if from <= calls[j - 1].now < from + window { NearWindow(calls[j - 1].now, from, window); }
    }
  }

  lemma NearWindow(now: nat, from: nat, window: int)
    requires window > 0 && from <= now < from + window
    ensures Truncate(now, window) in {Truncate(from, window), Truncate(from, window) + window}
  {
    var start := Truncate(from, window);
    NextAligned(start, window);
    TruncateIs(now, if now < start + window then start else start + window, window);
  }

  /** So any half-open span of one window's length admits at most twice the limit. */
  lemma SpanBound(calls: seq<Call>, limit: nat, window: int, key: string, from: nat)
    requires WholeSeconds(window) && key != ""
    ensures AdmittedSpan(calls, limit, window, key, from, |calls|) <= 2 * limit
  {
    var start := Truncate(from, window);
    SpanInTwoWindows(calls, limit, window, key, from, |calls|);
    NextAligned(start, window);
    WindowBound(calls, limit, window, key, start, |calls|);
    WindowBound(calls, limit, window, key, start + window, |calls|);
  }

  /** `limit` calls at a moment of a window and `limit` more at the first moment of the next. */
  function Straddle(key: string, limit: nat, early: nat, boundary: nat): seq<Call> {
    seq(2 * limit, i => Call(key, if i < limit then early else boundary, Done, Done))
  }

  /** `boundary` ends the window that `early` is in. */
  predicate EndsWindow(window: int, early: nat, boundary: nat) {
    WholeSeconds(window) && Aligned(boundary, window) && boundary - window <= early < boundary
  }

  lemma StraddleWindow(key: string, limit: nat, window: int, early: nat, boundary: nat, i: nat)
    requires EndsWindow(window, early, boundary) && i < 2 * limit
    ensures var c := Straddle(key, limit, early, boundary)[i];
      Truncate(c.now, window) == (if i < limit then boundary - window else boundary)
  {
    PreviousAligned(boundary, window);
    TruncateIs(if i < limit then early else boundary, if i < limit then boundary - window else boundary, window);
  }

  lemma {:induction false} StraddleHits(key: string, limit: nat, window: int, early: nat, boundary: nat, j: nat)
    requires EndsWindow(window, early, boundary) && j <= 2 * limit
    ensures var calls := Straddle(key, limit, early, boundary);
      && Hits(calls, window, key, boundary - window, j) == (if j < limit then j else limit)
      && Hits(calls, window, key, boundary, j) == (if j < limit then 0 else j - limit)
  {
    if j > 0 {
      StraddleHits(key, limit, window, early, boundary, j - 1);
      StraddleWindow(key, limit, window, early, boundary, j - 1);
    }
  }

  lemma StraddleAdmitted(key: string, limit: nat, window: int, early: nat, boundary: nat, i: nat)
    requires EndsWindow(window, early, boundary) && key != "" && i < 2 * limit
    ensures Admitted(Straddle(key, limit, early, boundary), limit, window, i)
  {
    StraddleHits(key, limit, window, early, boundary, i);
    StraddleWindow(key, limit, window, early, boundary, i);
    AdmittedExactly(Straddle(key, limit, early, boundary), limit, window, i);
  }

  /**
   All these calls are admitted, so that the span from the early moment on has twice the limit, unless it is the early
   moment's own window and ends before the others.
   */
  lemma {:induction false} StraddleSpan(key: string, limit: nat, window: int, early: nat, boundary: nat, j: nat)
    requires EndsWindow(window, early, boundary) && key != "" && j <= 2 * limit
    ensures AdmittedSpan(Straddle(key, limit, early, boundary), limit, window, key, early, j)
         == if early == boundary - window && j > limit then limit else j
  {
    if j > 0 {
      StraddleSpan(key, limit, window, early, boundary, j - 1);
      StraddleAdmitted(key, limit, window, early, boundary, j - 1);
    }
  }

  /**
   The most that a span of one window's length can admit: the limit if it is a window itself, twice that otherwise.
   */
  function MostInSpan(limit: nat, window: int, from: nat): nat
    requires window > 0
  {
    if Aligned(from, window) then limit else 2 * limit
  }

  /** A span that is a window admits what the window does. */
  lemma {:induction false} AlignedSpan(calls: seq<Call>, limit: int, window: int, key: string, from: nat, j: nat)
    requires window > 0 && Aligned(from, window) && j <= |calls|
    ensures AdmittedSpan(calls, limit, window, key, from, j) == AdmittedIn(calls, limit, window, key, from, j)
  {
    if j > 0 {
      AlignedSpan(calls, limit, window, key, from, j - 1);
      if from <= calls[j - 1].now < from + window { TruncateIs(calls[j - 1].now, from, window); }
    }
  }

  /** For every span, aligned or not, this is a bound for all calls, and some calls reach it. */
  lemma SpanMostExactly(limit: nat, window: int, key: string, from: nat)
    requires WholeSeconds(window) && key != ""
    ensures forall calls :: AdmittedSpan(calls, limit, window, key, from, |calls|) <= MostInSpan(limit, window, from)
    ensures exists calls :: AdmittedSpan(calls, limit, window, key, from, |calls|) == MostInSpan(limit, window, from)
  {
    forall calls ensures AdmittedSpan(calls, limit, window, key, from, |calls|) <= MostInSpan(limit, window, from) {
      SpanBound(calls, limit, window, key, from);
      if Aligned(from, window) {
        AlignedSpan(calls, limit, window, key, from, |calls|);
        WindowBound(calls, limit, window, key, from, |calls|);
      }
    }
    var start := Truncate(from, window);
    NextAligned(start, window);
    if Aligned(from, window) { TruncateIs(from, from, window); }
    StraddleSpan(key, limit, window, from, start + window, 2 * limit);
    assert |Straddle(key, limit, from, start + window)| == 2 * limit;
  }

  /** So the limit holds for the spans that are windows, and for no other. */
  lemma LimitHoldsExactly(limit: nat, window: int, key: string, from: nat)
    requires WholeSeconds(window) && key != "" && limit > 0
    ensures (forall calls :: AdmittedSpan(calls, limit, window, key, from, |calls|) <= limit) <==> Aligned(from, window)
  {
    SpanMostExactly(limit, window, key, from);
  }

  lemma PreviousAligned(start: int, window: int)
    requires window > 0 && Aligned(start, window)
    ensures Aligned(start - window, window)
  {
    DivMod(start, window);
    MultipleOfNext(start / window - 1, window);
    DivModUnique(start - window, start / window - 1, 0, window);
  }

  class Limiter {
    var redis: Redis

    constructor ()
      ensures redis == map[]
    {
      redis := map[];
    }

    method Allow(c: Call, limit: int, window: int) returns (reply: Result<Decision, Error>)
      requires window > 0
      modifies this
      ensures (redis, reply) == Decide(old(redis), c, limit, window)
    {
      if c.key == "" {
        return Ok(Decision(true, 0));
      }
      var windowStart := Truncate(c.now, window);
      var name := Name(c.key, Unix(windowStart));
      var counter := Incr(redis, name, c.now);
      if c.incr.Applied() {
        redis := redis[name := counter];
      }
      if !c.incr.Reported() {
        return Err(RedisFailure);
      }
      if counter.count == 1 {
        if c.expire.Applied() {
          redis := redis[name := counter.(expiresAt := Some(c.now + window * 2))];
        }
        if !c.expire.Reported() {
          return Err(RedisFailure);
        }
      }
      if counter.count > limit {
        return Ok(Decision(false, window - (c.now - windowStart)));
      }
      reply := Ok(Decision(true, 0));
    }
  }
}
