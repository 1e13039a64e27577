/**
 The two circuit breakers of the services: one with three states and a count of failures, one with a count and a
 deadline. Callers report results at any time, also those of calls admitted long before.
 */
module Breakers {
  import opened Common

  datatype Mode = Closed | Open | HalfOpen

  /** The matching service's breaker. */
  datatype StateBreaker = StateBreaker(mode: Mode, failures: nat, threshold: int, openedAt: Time, openTimeout: Time)

  /** The billing service's breaker. */
  datatype DeadlineBreaker = DeadlineBreaker(threshold: int, cooldown: Time, failures: nat, openedUntil: Time)

  const DEFAULT_OPEN_TIMEOUT: Time := 30_000_000_000

  const DEFAULT_COOLDOWN: Time := 1_000_000_000

  function NewStateBreaker(threshold: int, openTimeout: Time): StateBreaker {
    StateBreaker(Closed, 0, if threshold <= 0 then 5 else threshold, ZERO_TIME,
                 if openTimeout <= 0 then DEFAULT_OPEN_TIMEOUT else openTimeout)
  }

  function NewDeadlineBreaker(threshold: int, cooldown: Time): DeadlineBreaker {
    DeadlineBreaker(if threshold <= 0 then 3 else threshold,
                    if cooldown <= 0 then DEFAULT_COOLDOWN else cooldown, 0, ZERO_TIME)
  }

  /** What happens to a breaker: a call asks to be admitted, or an admitted call reports its result. */
  datatype Event = Ask(at: Time) | Failure(at: Time) | Success(at: Time)

  function StateStep(b: StateBreaker, e: Event): StateBreaker {
    match e
    case Ask(now) => if b.mode == Open && now - b.openedAt >= b.openTimeout then b.(mode := HalfOpen) else b
    case Failure(now) =>
      if b.failures + 1 >= b.threshold || b.mode == HalfOpen
      then b.(failures := b.failures + 1, mode := Open, openedAt := now)
      else b.(failures := b.failures + 1)
    case Success(_) => b.(failures := 0, mode := Closed)
  }

  predicate StateRefuses(b: StateBreaker, now: Time) {
    b.mode == Open && now - b.openedAt < b.openTimeout
  }

  function DeadlineStep(b: DeadlineBreaker, e: Event): DeadlineBreaker {
    match e
    case Ask(_) => b
    case Failure(now) =>
      if b.failures + 1 >= b.threshold
      then b.(failures := b.failures + 1, openedUntil := now + b.cooldown)
      else b.(failures := b.failures + 1)
    case Success(_) => b.(failures := 0, openedUntil := ZERO_TIME)
  }

  predicate DeadlineRefuses(b: DeadlineBreaker, now: Time) {
    now < b.openedUntil
  }

  /** For each call that asks, whether it is refused. */
  function StateAnswers(b: StateBreaker, trace: seq<Event>): seq<bool>
    decreases |trace|
  {
    if trace == [] then []
    else
      var rest := StateAnswers(StateStep(b, trace[0]), trace[1..]);
      if trace[0].Ask? then [StateRefuses(b, trace[0].at)] + rest else rest
  }

  function DeadlineAnswers(b: DeadlineBreaker, trace: seq<Event>): seq<bool>
    decreases |trace|
  {
    if trace == [] then []
    else (if trace[0].Ask? then [DeadlineRefuses(b, trace[0].at)] else [])
         + DeadlineAnswers(DeadlineStep(b, trace[0]), trace[1..])
  }

  /** The clock never goes back, and has left the unset time behind. */
  predicate Monotone(since: Time, trace: seq<Event>)
    decreases |trace|
  {
    trace == [] || (since <= trace[0].at && Monotone(trace[0].at, trace[1..]))
  }

  /** The two forms describe the same breaker at time `now`. */
  predicate Same(a: StateBreaker, b: DeadlineBreaker, now: Time) {
    && a.threshold == b.threshold > 0 && a.openTimeout == b.cooldown > 0 && a.failures == b.failures
    && (a.mode == Closed <==> a.failures < a.threshold)
    && match a.mode
       case Closed => b.openedUntil == ZERO_TIME
       case Open => b.openedUntil == a.openedAt + a.openTimeout
       case HalfOpen => b.openedUntil <= now
  }

  lemma SameStep(a: StateBreaker, b: DeadlineBreaker, since: Time, e: Event)
    requires Same(a, b, since) && ZERO_TIME <= since <= e.at
    ensures Same(StateStep(a, e), DeadlineStep(b, e), e.at)
    ensures StateRefuses(a, e.at) == DeadlineRefuses(b, e.at)
  {
  }

  lemma {:induction false} SameAnswers(a: StateBreaker, b: DeadlineBreaker, since: Time, trace: seq<Event>)
    requires Same(a, b, since) && ZERO_TIME <= since && Monotone(since, trace)
    ensures StateAnswers(a, trace) == DeadlineAnswers(b, trace)
    decreases |trace|
  {
    if trace != [] {
      SameStep(a, b, since, trace[0]);
      SameAnswers(StateStep(a, trace[0]), DeadlineStep(b, trace[0]), trace[0].at, trace[1..]);
    }
  }

  ghost predicate Indistinguishable(threshold: int, timeout: Time) {
    forall trace :: Monotone(ZERO_TIME, trace) ==>
                      StateAnswers(NewStateBreaker(threshold, timeout), trace)
                      == DeadlineAnswers(NewDeadlineBreaker(threshold, timeout), trace)
  }

  /** The state of the three-state breaker after a trace. */
  function StateAfter(b: StateBreaker, trace: seq<Event>): StateBreaker
    decreases |trace|
  {
    if trace == [] then b else StateAfter(StateStep(b, trace[0]), trace[1..])
  }

  /** After every trace the three-state breaker is closed exactly while it counts fewer failures than its threshold. */
  lemma {:induction false} ClosedExactlyBelowThreshold(b: StateBreaker, trace: seq<Event>)
    requires b.threshold > 0 && (b.mode == Closed <==> b.failures < b.threshold)
    ensures var b' := StateAfter(b, trace); b'.mode == Closed <==> b'.failures < b'.threshold
    decreases |trace|
  {
    if trace != [] {
      ClosedExactlyBelowThreshold(StateStep(b, trace[0]), trace[1..]);
    }
  }

  // ---------- What a breaker's answer depends on ----------

  /** How many failures have been reported since the last success. */
  function Streak(trace: seq<Event>): nat {
    if trace == [] then 0
    else
      var init := trace[..|trace| - 1];
      match trace[|trace| - 1]
      case Ask(_) => Streak(init)
      case Failure(_) => Streak(init) + 1
      case Success(_) => 0
  }

  /** When the last failure was reported. */
  function LastFailure(trace: seq<Event>): Time {
    if trace == [] then ZERO_TIME
    else
      match trace[|trace| - 1]
      case Failure(at) => at
      case _ => LastFailure(trace[..|trace| - 1])
  }

  /** Since the last report a call has asked after the time-out. */
  predicate Probed(trace: seq<Event>, timeout: Time) {
    && trace != []
    && match trace[|trace| - 1]
       case Ask(at) =>
         Probed(trace[..|trace| - 1], timeout) || at - LastFailure(trace[..|trace| - 1]) >= timeout
       case _ => false
  }

  lemma {:induction false} StateAfterOne(b: StateBreaker, trace: seq<Event>, e: Event)
    ensures StateAfter(b, trace + [e]) == StateStep(StateAfter(b, trace), e)
    decreases |trace|
  {
    if trace == [] {
      assert [e][1..] == [] && trace + [e] == [e];
    } else {
      assert (trace + [e])[1..] == trace[1..] + [e];
      StateAfterOne(StateStep(b, trace[0]), trace[1..], e);
    }
  }

  function DeadlineAfter(b: DeadlineBreaker, trace: seq<Event>): DeadlineBreaker
    decreases |trace|
  {
    if trace == [] then b else DeadlineAfter(DeadlineStep(b, trace[0]), trace[1..])
  }

  lemma {:induction false} DeadlineAfterOne(b: DeadlineBreaker, trace: seq<Event>, e: Event)
    ensures DeadlineAfter(b, trace + [e]) == DeadlineStep(DeadlineAfter(b, trace), e)
    decreases |trace|
  {
    if trace == [] {
      assert [e][1..] == [] && trace + [e] == [e];
    } else {
      assert (trace + [e])[1..] == trace[1..] + [e];
      DeadlineAfterOne(DeadlineStep(b, trace[0]), trace[1..], e);
    }
  }

  /** The three-state breaker from the trace alone; for arguments that are not positive it takes 5 failures and 30 s. */
  lemma {:induction false} StateExactly(threshold: int, timeout: Time, trace: seq<Event>)
    ensures var b := StateAfter(NewStateBreaker(threshold, timeout), trace);
      var enough := if threshold > 0 then threshold else 5;
      var wait := if timeout > 0 then timeout else 30_000_000_000;
      && b.threshold == enough && b.openTimeout == wait && b.failures == Streak(trace)
      && (Streak(trace) >= enough ==> b.openedAt == LastFailure(trace))
      && b.mode == (if Streak(trace) < enough then Closed else if Probed(trace, wait) then HalfOpen else Open)
      && forall now :: StateRefuses(b, now) <==>
           Streak(trace) >= enough && !Probed(trace, wait) && now - LastFailure(trace) < wait
  {
    if trace != [] {
      var init, last := trace[..|trace| - 1], trace[|trace| - 1];
      StateExactly(threshold, timeout, init);
      StateAfterOne(NewStateBreaker(threshold, timeout), init, last);
      assert trace == init + [last];
    }
  }

  /** And the one with a deadline; for arguments that are not positive it takes 3 failures and 1 s. */
  lemma {:induction false} DeadlineExactly(threshold: int, cooldown: Time, trace: seq<Event>)
    ensures var b := DeadlineAfter(NewDeadlineBreaker(threshold, cooldown), trace);
      var enough := if threshold > 0 then threshold else 3;
      var wait := if cooldown > 0 then cooldown else 1_000_000_000;
      && b.threshold == enough && b.cooldown == wait && b.failures == Streak(trace)
      && b.openedUntil == (if Streak(trace) >= enough then LastFailure(trace) + wait else ZERO_TIME)
      && forall now :: now >= ZERO_TIME ==>
           (DeadlineRefuses(b, now) <==> Streak(trace) >= enough && now - LastFailure(trace) < wait)
  {
    if trace != [] {
      var init, last := trace[..|trace| - 1], trace[|trace| - 1];
      DeadlineExactly(threshold, cooldown, init);
      DeadlineAfterOne(NewDeadlineBreaker(threshold, cooldown), init, last);
      assert trace == init + [last];
    }
  }

  // ---------- Where the defaults differ ----------

  /** `n` failures at one moment, then a call. */
  function Burst(n: nat, failAt: Time, askAt: Time): seq<Event> {
    if n == 0 then [Ask(askAt)] else [Failure(failAt)] + Burst(n - 1, failAt, askAt)
  }

  lemma {:induction false} BurstMonotone(n: nat, since: Time, failAt: Time, askAt: Time)
    requires since <= failAt <= askAt
    ensures Monotone(since, Burst(n, failAt, askAt))
    decreases n
  {
    if n > 0 {
      BurstMonotone(n - 1, failAt, failAt, askAt);
      assert Burst(n, failAt, askAt)[1..] == Burst(n - 1, failAt, askAt);
    }
  }

  /** A burst of failures opens a breaker exactly when it reaches the threshold, and then until the time-out. */
  lemma {:induction false} StateBurst(b: StateBreaker, n: nat, failAt: Time, askAt: Time)
    requires b.mode == (if b.failures < b.threshold then Closed else Open) && b.threshold > 0
    requires b.mode == Open ==> b.openedAt == failAt
    ensures StateAnswers(b, Burst(n, failAt, askAt)) ==
      [b.failures + n >= b.threshold && askAt - failAt < b.openTimeout]
    decreases n
  {
    var trace := Burst(n, failAt, askAt);
    if n == 0 {
      assert trace[1..] == [];
    } else {
      assert trace[1..] == Burst(n - 1, failAt, askAt);
      StateBurst(StateStep(b, trace[0]), n - 1, failAt, askAt);
    }
  }

  lemma {:induction false} DeadlineBurst(b: DeadlineBreaker, n: nat, failAt: Time, askAt: Time)
    requires b.threshold > 0
    requires b.openedUntil == (if b.failures < b.threshold then ZERO_TIME else failAt + b.cooldown)
    requires ZERO_TIME <= askAt
    ensures DeadlineAnswers(b, Burst(n, failAt, askAt)) ==
      [b.failures + n >= b.threshold && askAt - failAt < b.cooldown]
    decreases n
  {
    var trace := Burst(n, failAt, askAt);
    if n == 0 {
      assert trace[1..] == [];
    } else {
      assert trace[1..] == Burst(n - 1, failAt, askAt);
      DeadlineBurst(DeadlineStep(b, trace[0]), n - 1, failAt, askAt);
    }
  }

  /**
   Built from the same arguments, the two breakers admit and refuse exactly the same calls on every trace if and only if
   the arguments are positive: otherwise each falls back to defaults of its own.
   */
  lemma IndistinguishableExactly(threshold: int, timeout: Time)
    ensures Indistinguishable(threshold, timeout) <==> threshold > 0 && timeout > 0
  {
    var a, b := NewStateBreaker(threshold, timeout), NewDeadlineBreaker(threshold, timeout);
    if threshold > 0 && timeout > 0 {
      forall trace | Monotone(ZERO_TIME, trace) ensures StateAnswers(a, trace) == DeadlineAnswers(b, trace) {
        SameAnswers(a, b, ZERO_TIME, trace);
      }
    } else {
      var n := b.threshold;
      var askAt := if threshold <= 0 then 0 else DEFAULT_COOLDOWN;
      var trace := Burst(n, 0, askAt);
      BurstMonotone(n, ZERO_TIME, 0, askAt);
      StateBurst(a, n, 0, askAt);
      DeadlineBurst(b, n, 0, askAt);
      assert StateAnswers(a, trace) != DeadlineAnswers(b, trace);
    }
  }

  // ---------- The breakers as objects ----------

  class MatchingBreaker {
    var mode: Mode
    var failures: nat
    var openedAt: Time
    const threshold: int
    const openTimeout: Time

    ghost function View(): StateBreaker
      reads this
    {
      StateBreaker(mode, failures, threshold, openedAt, openTimeout)
    }

    constructor (threshold: int, openTimeout: Time)
      ensures View() == NewStateBreaker(threshold, openTimeout)
    {
      mode, failures, openedAt := Closed, 0, ZERO_TIME;
      this.threshold := if threshold <= 0 then 5 else threshold;
      this.openTimeout := if openTimeout <= 0 then DEFAULT_OPEN_TIMEOUT else openTimeout;
    }

    method Before(now: Time) returns (refused: bool)
      modifies this`mode
      ensures refused == StateRefuses(old(View()), now)
      ensures View() == StateStep(old(View()), Ask(now))
    {
      if mode == Open {
        if now - openedAt < openTimeout {
          return true;
        }
        mode := HalfOpen;
      }
      refused := false;
    }

    method AfterFailure(now: Time)
      modifies this
      ensures View() == StateStep(old(View()), Failure(now))
    {
      failures := failures + 1;
      if failures >= threshold || mode == HalfOpen {
        mode := Open;
        openedAt := now;
      }
    }

    method AfterSuccess(now: Time)
      modifies this
      ensures View() == StateStep(old(View()), Success(now))
    {
      failures := 0;
      mode := Closed;
    }
  }

  class BillingBreaker {
    var failures: nat
    var openedUntil: Time
    const threshold: int
    const cooldown: Time

    ghost function View(): DeadlineBreaker
      reads this
    {
      DeadlineBreaker(threshold, cooldown, failures, openedUntil)
    }

    constructor (threshold: int, cooldown: Time)
      ensures View() == NewDeadlineBreaker(threshold, cooldown)
    {
      failures, openedUntil := 0, ZERO_TIME;
      this.threshold := if threshold <= 0 then 3 else threshold;
      this.cooldown := if cooldown <= 0 then DEFAULT_COOLDOWN else cooldown;
    }

    /** The two critical sections of `Execute`, with the call between them left out when other calls interleave. */
    method Check(now: Time) returns (refused: bool)
      ensures refused == DeadlineRefuses(View(), now)
      ensures View() == DeadlineStep(View(), Ask(now))
    {
      refused := now < openedUntil;
    }

    method Settle(failed: bool, now: Time)
      modifies this
      ensures View() == DeadlineStep(old(View()), if failed then Failure(now) else Success(now))
    {
      if failed {
        failures := failures + 1;
        if failures >= threshold {
          openedUntil := now + cooldown;
        }
        return;
      }
      failures := 0;
      openedUntil := ZERO_TIME;
    }

    /** A call that nothing interleaves with: `failed` is how it would end, at time `end`. */
    method Execute(start: Time, failed: bool, end: Time) returns (refused: bool)
      modifies this
      ensures refused == DeadlineRefuses(old(View()), start)
      ensures View() == if refused then old(View())
                        else DeadlineStep(old(View()), if failed then Failure(end) else Success(end))
    {
      refused := Check(start);
      if !refused {
        Settle(failed, end);
      }
    }
  }
}
