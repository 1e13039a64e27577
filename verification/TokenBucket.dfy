/** The token-bucket rate limiter, over real time and real tokens. */
module TokenBucket {

  datatype Bucket = Bucket(rate: real, burst: real, tokens: real, last: real)

  function NewBucket(rate: real, burst: int, now: real): Bucket {
    Bucket(rate, burst as real, burst as real, now)
  }

  /** The tokens there are at `now`, before the call takes one. */
  function Level(b: Bucket, now: real): real {
    var filled := b.tokens + (now - b.last) * b.rate;
    if filled > b.burst then b.burst else filled
  }

  predicate Admits(b: Bucket, now: real) {
    Level(b, now) >= 1.0
  }

  function Spend(b: Bucket, now: real): Bucket {
    b.(last := now, tokens := if Admits(b, now) then Level(b, now) - 1.0 else Level(b, now))
  }

  /** Calls in order, none before the bucket was last touched. */
  ghost predicate InOrder(b: Bucket, times: seq<real>) {
    && (times != [] ==> b.last <= times[0])
    && forall i, j :: 0 <= i <= j < |times| ==> times[i] <= times[j]
  }

  /** The bucket after the first `k` calls. */
  function After(b: Bucket, times: seq<real>, k: nat): (b': Bucket)
    requires k <= |times|
    ensures b'.rate == b.rate && b'.burst == b.burst
    ensures b'.last == if k == 0 then b.last else times[k - 1]
  {
    if k == 0 then b else Spend(After(b, times, k - 1), times[k - 1])
  }

  predicate Admitted(b: Bucket, times: seq<real>, k: nat)
    requires k < |times|
  {
    Admits(After(b, times, k), times[k])
  }

  /** How many of the calls `i`, ..., `j - 1` are admitted. */
  function Count(b: Bucket, times: seq<real>, i: nat, j: nat): (n: nat)
    requires i <= j <= |times|
    ensures n <= j - i
    decreases j
  {
    if i == j then 0 else Count(b, times, i, j - 1) + if Admitted(b, times, j - 1) then 1 else 0
  }

  /** A bucket that starts full, as the constructor leaves it. */
  ghost predicate Fresh(b: Bucket) {
    b.rate >= 0.0 && b.burst >= 0.0 && b.tokens == b.burst
  }

  // ---------- The same in units of earned tokens, where everything is linear ----------

  /** What the rate has earned, since time 0, up to each call. */
  function Earned(b: Bucket, times: seq<real>): (e: seq<real>)
    ensures |e| == |times|
    ensures forall i :: 0 <= i < |times| ==> e[i] == b.rate * times[i]
  {
    seq(|times|, i requires 0 <= i < |times| => b.rate * times[i])
  }

  ghost predicate Rising(e: seq<real>) {
    forall i, j :: 0 <= i <= j < |e| ==> e[i] <= e[j]
  }

  /** The level at call `j` of a bucket that was full at the first call. */
  function LevelAt(burst: real, e: seq<real>, j: nat): real
    requires j < |e|
  {
    if j == 0 then burst
    else
      var before := LevelAt(burst, e, j - 1);
      var filled := before - (if before >= 1.0 then 1.0 else 0.0) + (e[j] - e[j - 1]);
      if filled > burst then burst else filled
  }

  function CountAt(burst: real, e: seq<real>, i: nat, j: nat): nat
    requires i <= j <= |e|
    decreases j
  {
    if i == j then 0 else CountAt(burst, e, i, j - 1) + if LevelAt(burst, e, j - 1) >= 1.0 then 1 else 0
  }

  /** What is left at call `j` of a bucket that was full at call `i`: refilled since then, minus the calls admitted. */
  function Left(burst: real, e: seq<real>, i: nat, j: nat): real
    requires i <= j < |e|
  {
    burst + (e[j] - e[i]) - CountAt(burst, e, i, j) as real
  }

  /** The level at a call is the smallest remainder over all windows that end there. */
  lemma {:induction false} LevelIsLeast(burst: real, e: seq<real>, j: nat) returns (tightest: nat)
    requires Rising(e) && j < |e|
    ensures forall i :: 0 <= i <= j ==> LevelAt(burst, e, j) <= Left(burst, e, i, j)
    ensures tightest <= j && LevelAt(burst, e, j) == Left(burst, e, tightest, j)
  {
    tightest := j;
    if j > 0 {
      var before := LevelIsLeast(burst, e, j - 1);
      forall i | 0 <= i <= j ensures LevelAt(burst, e, j) <= Left(burst, e, i, j) {
        if i < j { assert LevelAt(burst, e, j - 1) <= Left(burst, e, i, j - 1); }
      }
      if LevelAt(burst, e, j) != burst { tightest := before; }
    }
  }

  lemma {:induction false} RateGrows(rate: real, a: real, c: real)
    requires rate >= 0.0 && a <= c
    ensures rate * a <= rate * c && rate * c - rate * a == rate * (c - a) == (c - a) * rate
  {
    assert rate * (c - a) >= 0.0;
  }

  lemma EarnedRises(b: Bucket, times: seq<real>)
    requires b.rate >= 0.0 && InOrder(b, times)
    ensures Rising(Earned(b, times))
  {
    var e := Earned(b, times);
    forall i, j | 0 <= i <= j < |times| ensures e[i] <= e[j] {
      RateGrows(b.rate, times[i], times[j]);
    }
  }

  lemma LevelByGain(b: Bucket, now: real, gain: real)
    requires gain == (now - b.last) * b.rate
    ensures Level(b, now) == if b.tokens + gain > b.burst then b.burst else b.tokens + gain
  {
  }

  lemma LevelNext(s: Bucket, rate: real, t0: real, t1: real, e0: real, e1: real)
    requires s.rate == rate >= 0.0 && t0 <= t1 && e0 == rate * t0 && e1 == rate * t1
    ensures var before := Level(s, t0);
      var filled := before - (if before >= 1.0 then 1.0 else 0.0) + (e1 - e0);
      Level(Spend(s, t0), t1) == if filled > s.burst then s.burst else filled
  {
    RateGrows(rate, t0, t1);
    LevelByGain(Spend(s, t0), t1, e1 - e0);
  }

  lemma LevelFirst(b: Bucket, now: real)
    requires Fresh(b) && b.last <= now
    ensures Level(b, now) == b.burst
  {
    RateGrows(b.rate, b.last, now);
  }

  /** The bucket's level is the level in earned tokens. */
  lemma {:induction false} LevelInUnits(b: Bucket, times: seq<real>, k: nat)
    requires Fresh(b) && InOrder(b, times) && k < |times|
    ensures Level(After(b, times, k), times[k]) == LevelAt(b.burst, Earned(b, times), k)
  {
    if k == 0 {
      LevelFirst(b, times[0]);
    } else {
      var e := Earned(b, times);
      assert times[k - 1] <= times[k];
      LevelNext(After(b, times, k - 1), b.rate, times[k - 1], times[k], e[k - 1], e[k]);
      LevelInUnits(b, times, k - 1);
    }
  }

  lemma {:induction false} LevelInRange(burst: real, e: seq<real>, k: nat)
    requires burst >= 0.0 && Rising(e) && k < |e|
    ensures 0.0 <= LevelAt(burst, e, k) <= burst
  {
    if k > 0 { LevelInRange(burst, e, k - 1); }
  }

  lemma {:induction false} CountInUnits(b: Bucket, times: seq<real>, i: nat, j: nat)
    requires Fresh(b) && InOrder(b, times) && i <= j <= |times|
    ensures Count(b, times, i, j) == CountAt(b.burst, Earned(b, times), i, j)
    decreases j
  {
    if i < j {
      CountInUnits(b, times, i, j - 1);
      LevelInUnits(b, times, j - 1);
    }
  }

  // ---------- What the limiter guarantees ----------

  /** Tokens never go below zero nor above the burst. */
  lemma TokensInRange(b: Bucket, times: seq<real>, k: nat)
    requires Fresh(b) && InOrder(b, times) && k <= |times|
    ensures 0.0 <= After(b, times, k).tokens <= b.burst
  {
    if k > 0 {
      EarnedRises(b, times);
      LevelInUnits(b, times, k - 1);
      LevelInRange(b.burst, Earned(b, times), k - 1);
    }
  }

  /** A window from call `i` to call `j` has room for `n` calls: the burst, plus what the rate earns meanwhile. */
  predicate Room(b: Bucket, times: seq<real>, i: nat, j: nat, n: nat)
    requires i <= j < |times|
  {
    n as real <= b.burst + b.rate * (times[j] - times[i])
  }

  /** The calls of a window, all of them, keep to the contract. */
  predicate Conforms(b: Bucket, times: seq<real>, i: nat, j: nat)
    requires i <= j < |times|
  {
    Room(b, times, i, j, j - i + 1)
  }

  /** The window has room for call `j` beside the calls admitted before it. */
  predicate RoomForOneMore(b: Bucket, times: seq<real>, i: nat, j: nat)
    requires i <= j < |times|
  {
    Room(b, times, i, j, Count(b, times, i, j) + 1)
  }

  predicate OneLeft(burst: real, e: seq<real>, i: nat, j: nat)
    requires i <= j < |e|
  {
    Left(burst, e, i, j) >= 1.0
  }

  lemma RoomInUnits(b: Bucket, times: seq<real>, i: nat, j: nat, n: nat)
    requires b.rate >= 0.0 && InOrder(b, times) && i <= j < |times|
    ensures Room(b, times, i, j, n) <==> n as real <= b.burst + (Earned(b, times)[j] - Earned(b, times)[i])
  {
    RateGrows(b.rate, times[i], times[j]);
  }

  /**
   The limiter is as generous as its contract allows: a call is admitted exactly when every window that ends at it still
   has room for it beside the calls admitted in that window.
   */
  lemma AdmitsExactly(b: Bucket, times: seq<real>, j: nat)
    requires Fresh(b) && InOrder(b, times) && j < |times|
    ensures Admitted(b, times, j) <==> forall i :: 0 <= i <= j ==> RoomForOneMore(b, times, i, j)
  {
    EarnedRises(b, times);
    LevelInUnits(b, times, j);
    LeastExactly(b.burst, Earned(b, times), j);
    RoomsAreLeft(b, times, j);
  }

  lemma LeastExactly(burst: real, e: seq<real>, j: nat)
    requires Rising(e) && j < |e|
    ensures LevelAt(burst, e, j) >= 1.0 <==> forall i :: 0 <= i <= j ==> OneLeft(burst, e, i, j)
  {
    var tightest := LevelIsLeast(burst, e, j);
    assert OneLeft(burst, e, tightest, j) <==> LevelAt(burst, e, j) >= 1.0;
  }

  lemma RoomsAreLeft(b: Bucket, times: seq<real>, j: nat)
    requires Fresh(b) && InOrder(b, times) && j < |times|
    ensures (forall i :: 0 <= i <= j ==> RoomForOneMore(b, times, i, j))
       <==> (forall i :: 0 <= i <= j ==> OneLeft(b.burst, Earned(b, times), i, j))
  {
    forall i | 0 <= i <= j ensures RoomForOneMore(b, times, i, j) <==> OneLeft(b.burst, Earned(b, times), i, j) {
      RoomIsLeft(b, times, i, j);
    }
  }

  lemma RoomIsLeft(b: Bucket, times: seq<real>, i: nat, j: nat)
    requires Fresh(b) && InOrder(b, times) && i <= j < |times|
    ensures RoomForOneMore(b, times, i, j) <==> OneLeft(b.burst, Earned(b, times), i, j)
  {
    CountInUnits(b, times, i, j);
    RoomInUnits(b, times, i, j, Count(b, times, i, j) + 1);
  }

  lemma FewerFit(b: Bucket, times: seq<real>, i: nat, j: nat, m: nat, n: nat)
    requires i <= j < |times| && m <= n
    ensures Room(b, times, i, j, n) ==> Room(b, times, i, j, m)
  {
  }

  lemma RoomGrows(b: Bucket, times: seq<real>, i: nat, j: nat, n: nat)
    requires b.rate >= 0.0 && InOrder(b, times) && i < j < |times| && Room(b, times, i, j - 1, n)
    ensures Room(b, times, i, j, n)
  {
    EarnedRises(b, times);
    RoomInUnits(b, times, i, j - 1, n);
    RoomInUnits(b, times, i, j, n);
  }

  /** In every window from call `i` to call `j`, both included, at most burst + rate * duration calls are admitted. */
  lemma {:induction false} WindowBound(b: Bucket, times: seq<real>, i: nat, j: nat)
    requires Fresh(b) && InOrder(b, times) && i <= j < |times|
    ensures Room(b, times, i, j, Count(b, times, i, j + 1))
    decreases j
  {
    if Admitted(b, times, j) {
      AdmitsExactly(b, times, j);
      assert RoomForOneMore(b, times, i, j);
    } else if i == j {
      RoomInUnits(b, times, i, j, 0);
    } else {
      WindowBound(b, times, i, j - 1);
      RoomGrows(b, times, i, j, Count(b, times, i, j));
    }
  }

  /** Traffic is admitted in full exactly when it keeps to the contract by itself. */
  lemma FullyAdmittedExactly(b: Bucket, times: seq<real>)
    requires Fresh(b) && InOrder(b, times)
    ensures (forall k :: 0 <= k < |times| ==> Admitted(b, times, k)) <==>
            forall i, j :: 0 <= i <= j < |times| ==> Conforms(b, times, i, j)
  {
    if forall k :: 0 <= k < |times| ==> Admitted(b, times, k) {
      forall i, j | 0 <= i <= j < |times| ensures Conforms(b, times, i, j) {
        AdmittedConforms(b, times, i, j);
      }
    } else {
      var k :| 0 <= k < |times| && !Admitted(b, times, k);
      var i := RefusedExceeds(b, times, k);
    }
  }

  lemma AdmittedConforms(b: Bucket, times: seq<real>, i: nat, j: nat)
    requires Fresh(b) && InOrder(b, times) && i <= j < |times|
    requires forall k :: 0 <= k < |times| ==> Admitted(b, times, k)
    ensures Conforms(b, times, i, j)
  {
    AllCounted(b, times, i, j);
    AdmitsExactly(b, times, j);
    assert RoomForOneMore(b, times, i, j);
  }

  lemma RefusedExceeds(b: Bucket, times: seq<real>, k: nat) returns (i: nat)
    requires Fresh(b) && InOrder(b, times) && k < |times| && !Admitted(b, times, k)
    ensures i <= k && !Conforms(b, times, i, k)
  {
    AdmitsExactly(b, times, k);
    i :| 0 <= i <= k && !RoomForOneMore(b, times, i, k);
    FewerFit(b, times, i, k, Count(b, times, i, k) + 1, k - i + 1);
  }

  lemma {:induction false} AllCounted(b: Bucket, times: seq<real>, i: nat, j: nat)
    requires i <= j <= |times| && forall k :: 0 <= k < |times| ==> Admitted(b, times, k)
    ensures Count(b, times, i, j) == j - i
    decreases j
  {
    if i < j { AllCounted(b, times, i, j - 1); }
  }

  /** With a burst of at least one, calls at least 1/rate apart are never refused. */
  lemma SpacedCallsAdmitted(b: Bucket, times: seq<real>)
    requires Fresh(b) && InOrder(b, times) && b.burst >= 1.0 && b.rate > 0.0
    requires forall k :: 0 < k < |times| ==> times[k] - times[k - 1] >= 1.0 / b.rate
    ensures forall k :: 0 <= k < |times| ==> Admitted(b, times, k)
  {
    forall i, j | 0 <= i <= j < |times| ensures Conforms(b, times, i, j) {
      SpacedCallsEarn(b, times, i, j);
      RoomInUnits(b, times, i, j, j - i + 1);
    }
    FullyAdmittedExactly(b, times);
  }

  lemma {:induction false} SpacedCallsEarn(b: Bucket, times: seq<real>, i: nat, j: nat)
    requires i <= j < |times| && b.rate > 0.0
    requires forall k :: 0 < k < |times| ==> times[k] - times[k - 1] >= 1.0 / b.rate
    ensures b.rate * times[j] - b.rate * times[i] >= (j - i) as real
    decreases j
  {
    if i < j {
      SpacedCallsEarn(b, times, i, j - 1);
      RateGrows(b.rate, 1.0 / b.rate, times[j] - times[j - 1]);
      assert b.rate * (1.0 / b.rate) == 1.0;
      RateGrows(b.rate, times[j - 1], times[j]);
    }
  }

  class RateLimiter {
    const rate: real
    const burst: real
    var tokens: real
    var last: real

    ghost function View(): Bucket
      reads this
    {
      Bucket(rate, burst, tokens, last)
    }

    constructor (rate: real, burst: int, now: real)
      ensures View() == NewBucket(rate, burst, now)
      ensures rate >= 0.0 && burst >= 0 ==> Fresh(View())
    {
      this.rate, this.burst := rate, burst as real;
      tokens, last := burst as real, now;
    }

    method Allow(now: real) returns (allowed: bool)
      modifies this
      ensures allowed == Admits(old(View()), now)
      ensures View() == Spend(old(View()), now)
    {
      ghost var before := View();
      var elapsed := now - last;
      LevelByGain(before, now, elapsed * rate);
      last := now;
      tokens := tokens + elapsed * rate;
      if tokens > burst {
        tokens := burst;
      }
      if tokens < 1.0 {
        return false;
      }
      tokens := tokens - 1.0;
      allowed := true;
    }
  }
}
