/** When publishers share an event, and when an event can still be published. */
module PublisherTheorems {
  import opened Common
  import opened MatchingTables
  import opened Publishers
  import Outbox

  lemma {:induction false} RunConcat(w: World, a: seq<Act>, b: seq<Act>)
    requires Busy(w) && IsRun(w, a) && IsRun(Run(w, a), b)
    ensures IsRun(w, a + b) && Run(w, a + b) == Run(Run(w, a), b)
    decreases |a|
  {
    if a == [] {
      assert a + b == b;
    } else {
      StaysBusy(w, a[0]);
      RunConcat(Apply(w, a[0]), a[1..], b);
      assert (a + b)[0] == a[0] && (a + b)[1..] == a[1..] + b;
    }
  }

  /** What any run of any publishers can lead to. */
  ghost predicate Reachable(w: World) {
    exists now, limit, acts {:trigger IsRun(Start(now, limit), acts)} ::
      IsRun(Start(now, limit), acts) && Run(Start(now, limit), acts) == w
  }

  lemma ReachableInv(w: World)
    requires Reachable(w)
    ensures Inv(w) && Busy(w)
  {
    var now, limit, acts :| IsRun(Start(now, limit), acts) && Run(Start(now, limit), acts) == w;
    RunKeeps(Start(now, limit), acts);
  }

  lemma ReachableStart(now: Time, limit: int)
    ensures Reachable(Start(now, limit))
  {
    assert IsRun(Start(now, limit), []);
  }

  lemma ReachableNext(w: World, a: Act)
    requires Reachable(w) && Busy(w) && Enabled(w, a)
    ensures Reachable(Apply(w, a))
  {
    var now, limit, acts :| IsRun(Start(now, limit), acts) && Run(Start(now, limit), acts) == w;
    OneAct(w, a);
    RunConcat(Start(now, limit), acts, [a]);
    assert IsRun(Start(now, limit), acts + [a]);
  }

  // ---------- Leases keep publishers apart, as long as flushes are quick ----------

  /** The clock moves on only while every flush under way is still inside its lease. */
  ghost predicate Timely(w: World, a: Act) {
    a.Tick? ==> forall p :: p in w.publishers && !w.publishers[p].Idle? ==>
      a.to <= w.publishers[p].claimedAt + Outbox.LEASE
  }

  ghost predicate IsTimelyRun(w: World, acts: seq<Act>)
    requires Busy(w)
    decreases |acts|
  {
    acts == [] || (Enabled(w, acts[0]) && Timely(w, acts[0]) &&
                   (StaysBusy(w, acts[0]); IsTimelyRun(Apply(w, acts[0]), acts[1..])))
  }

  lemma {:induction false} TimelyIsRun(w: World, acts: seq<Act>)
    requires Busy(w) && IsTimelyRun(w, acts)
    ensures IsRun(w, acts)
    decreases |acts|
  {
    if acts != [] {
      StaysBusy(w, acts[0]);
      TimelyIsRun(Apply(w, acts[0]), acts[1..]);
    }
  }

  function Batch(phase: Phase): seq<string> {
    if phase.Idle? then [] else phase.batch
  }

  /** A publisher at work holds live leases on its whole batch. */
  ghost predicate Leased(w: World, phase: Phase) {
    !phase.Idle? ==>
      && w.now <= phase.claimedAt + Outbox.LEASE
      && forall e :: e in Batch(phase) ==>
           e in w.outbox && w.outbox[e].lockedUntil == Some(phase.claimedAt + Outbox.LEASE)
  }

  ghost predicate Apart(a: Phase, b: Phase) {
    forall e :: e in Batch(a) ==> e !in Batch(b)
  }

  ghost predicate Exclusive(w: World) {
    && (forall p {:trigger Leased(w, w.publishers[p])} :: p in w.publishers ==> Leased(w, w.publishers[p]))
    && (forall p, q {:trigger Apart(w.publishers[p], w.publishers[q])} ::
          p in w.publishers && q in w.publishers && p != q ==> Apart(w.publishers[p], w.publishers[q]))
  }

  /** A publisher that keeps some of its batch, and changes rows only of events it drops, disturbs no other. */
  lemma ShrinkKeeps(w: World, w': World, p: int, phase: Phase)
    requires Inv(w) && Exclusive(w) && p in w.publishers && w'.now == w.now
    requires w'.publishers == w.publishers[p := phase] && w'.outbox.Keys == w.outbox.Keys
    requires !phase.Idle? ==> !w.publishers[p].Idle? && phase.claimedAt == w.publishers[p].claimedAt
    requires forall e :: e in Batch(phase) ==> e in Batch(w.publishers[p])
    requires forall e :: e in w.outbox && w'.outbox[e].lockedUntil != w.outbox[e].lockedUntil ==>
      e in Batch(w.publishers[p]) && e !in Batch(phase)
    ensures Exclusive(w')
  {
    assert Leased(w, w.publishers[p]);
    forall q | q in w'.publishers ensures Leased(w', w'.publishers[q]) {
      if q != p {
        assert Leased(w, w.publishers[q]) && Apart(w.publishers[p], w.publishers[q]);
      }
    }
    forall q, r | q in w'.publishers && r in w'.publishers && q != r ensures Apart(w'.publishers[q], w'.publishers[r]) {
      assert Apart(w.publishers[q], w.publishers[r]) && Apart(w.publishers[r], w.publishers[q]);
    }
  }

  /** A claim takes only rows whose lease, if any, has run out, and so none that another publisher works on. */
  lemma ClaimKeepsExclusive(w: World, p: int, picked: seq<string>, claimed: Outcome)
    requires Inv(w) && Busy(w) && Exclusive(w) && Enabled(w, Claim(p, picked, claimed))
    ensures Exclusive(Apply(w, Claim(p, picked, claimed)))
  {
    var w' := Apply(w, Claim(p, picked, claimed));
    forall q | q in w.publishers && q != p
      ensures Leased(w', w'.publishers[q]) && forall e :: e in picked ==> e !in Batch(w.publishers[q])
    {
      assert Leased(w, w.publishers[q]);
    }
    forall q, r | q in w'.publishers && r in w'.publishers && q != r ensures Apart(w'.publishers[q], w'.publishers[r]) {
      if q != p && r != p { assert Apart(w.publishers[q], w.publishers[r]); }
    }
  }

  lemma ActKeepsExclusive(w: World, a: Act)
    requires Inv(w) && Busy(w) && Exclusive(w) && Enabled(w, a) && Timely(w, a)
    ensures Exclusive(Apply(w, a))
  {
    var w' := Apply(w, a);
    match a
    case Tick(to) =>
      forall p | p in w'.publishers ensures Leased(w', w'.publishers[p]) { assert Leased(w, w.publishers[p]); }
      forall p, q | p in w'.publishers && q in w'.publishers && p != q
        ensures Apart(w'.publishers[p], w'.publishers[q]) {
        assert Apart(w.publishers[p], w.publishers[q]);
      }
    case Insert(rows) =>
      forall p | p in w'.publishers ensures Leased(w', w'.publishers[p]) { assert Leased(w, w.publishers[p]); }
      forall p, q | p in w'.publishers && q in w'.publishers && p != q
        ensures Apart(w'.publishers[p], w'.publishers[q]) {
        assert Apart(w.publishers[p], w.publishers[q]);
      }
    case Claim(p, picked, claimed) => ClaimKeepsExclusive(w, p, picked, claimed);
    case Write(p, ok) => ShrinkKeeps(w, w', p, w'.publishers[p]);
    case Mark(p, marked) =>
      assert PhaseOk(w, w.publishers[p]);
      FirstOnce(w.publishers[p].batch);
      ShrinkKeeps(w, w', p, w'.publishers[p]);
    case MarkFailed(p, noted, cause) => ShrinkKeeps(w, w', p, Idle);
    case Crash(p) =>
      if p in w.publishers {
        ShrinkKeeps(w, w', p, Idle);
      } else {
        forall q | q in w'.publishers ensures Leased(w', w'.publishers[q]) {
          if q != p { assert Leased(w, w.publishers[q]); }
        }
        forall q, r | q in w'.publishers && r in w'.publishers && q != r
          ensures Apart(w'.publishers[q], w'.publishers[r]) {
          if q != p && r != p { assert Apart(w.publishers[q], w.publishers[r]); }
        }
      }
  }

  /** If every flush ends inside its lease, no event is ever in the hands of two publishers. */
  lemma {:induction false} NoEventHeldTwice(w: World, acts: seq<Act>)
    requires Inv(w) && Busy(w) && Exclusive(w) && IsTimelyRun(w, acts)
    ensures IsRun(w, acts) && Exclusive(Run(w, acts))
    decreases |acts|
  {
    TimelyIsRun(w, acts);
    if acts != [] {
      StaysBusy(w, acts[0]);
      ActKeeps(w, acts[0]);
      ActKeepsExclusive(w, acts[0]);
      NoEventHeldTwice(Apply(w, acts[0]), acts[1..]);
      TimelyIsRun(Apply(w, acts[0]), acts[1..]);
    }
  }

  /** So it is from the start: over any timely run of any publishers on a table that was empty. */
  lemma NeverHeldTwice(now: Time, limit: int, acts: seq<Act>, p: int, q: int)
    requires IsTimelyRun(Start(now, limit), acts) && p != q
    ensures IsRun(Start(now, limit), acts)
    ensures var w := Run(Start(now, limit), acts);
      Inv(w) && Apart(PhaseOf(w, p), PhaseOf(w, q))
  {
    NoEventHeldTwice(Start(now, limit), acts);
    RunKeeps(Start(now, limit), acts);
  }

  /** Without that, they can: a flush that outlives its lease shares its event with the next claim. */
  lemma SlowFlushSharesItsEvent(e: string, row: Outbox.Row<Event>, t: Time)
    requires IsNew(row)
    ensures var w := World(map[e := row], map[], map[], t, 1);
      var acts := [Claim(1, [e], Done), Tick(t + Outbox.LEASE + 1), Claim(2, [e], Done)];
      Inv(w) && Busy(w) && IsRun(w, acts) && !Apart(PhaseOf(Run(w, acts), 1), PhaseOf(Run(w, acts), 2))
  {
    var w := World(map[e := row], map[], map[], t, 1);
    assert Holders(w, e) == {};
    var acts := [Claim(1, [e], Done), Tick(t + Outbox.LEASE + 1), Claim(2, [e], Done)];
    OneAct(w, acts[0]);
    var w1 := Apply(w, acts[0]);
    OneAct(w1, acts[1]);
    var w2 := Apply(w1, acts[1]);
    assert Enabled(w2, acts[2]);
    OneAct(w2, acts[2]);
    RunConcat(w1, [acts[1]], [acts[2]]);
    RunConcat(w, [acts[0]], [acts[1]] + [acts[2]]);
    assert [acts[0]] + ([acts[1]] + [acts[2]]) == acts;
    assert e in Batch(PhaseOf(Apply(w2, acts[2]), 1)) && e in Batch(PhaseOf(Apply(w2, acts[2]), 2));
  }

  // ---------- Which events can still be published ----------

  /** The events a publisher will mark published if nothing more goes wrong. */
  function InHand(phase: Phase): seq<string> {
    if phase.Writing? || phase.Marking? then phase.batch else []
  }

  ghost predicate Publishable(w: World, e: string)
    requires e in w.outbox
  {
    || w.outbox[e].publishedAt.Some?
    || w.outbox[e].attempts < Outbox.MAX_ATTEMPTS
    || exists p :: p in w.publishers && e in InHand(w.publishers[p])
  }

  /** An event that has spent its attempts and is in nobody's hands stays that way. */
  lemma LostStays(w: World, a: Act, e: string)
    requires Busy(w) && Inv(w) && Enabled(w, a) && e in w.outbox && !Publishable(w, e)
    ensures e in Apply(w, a).outbox && !Publishable(Apply(w, a), e)
  {
    var w' := Apply(w, a);
    forall p | p in w'.publishers ensures e !in InHand(w'.publishers[p]) {
      if p in w.publishers {
        assert e !in InHand(w.publishers[p]);
        assert PhaseOk(w, w.publishers[p]);
      }
    }
  }

  lemma {:induction false} LostForever(w: World, acts: seq<Act>, e: string)
    requires Busy(w) && Inv(w) && IsRun(w, acts) && e in w.outbox && !Publishable(w, e)
    ensures e in Run(w, acts).outbox && Run(w, acts).outbox[e].publishedAt.None?
    decreases |acts|
  {
    if acts != [] {
      StaysBusy(w, acts[0]);
      ActKeeps(w, acts[0]);
      LostStays(w, acts[0], e);
      LostForever(Apply(w, acts[0]), acts[1..], e);
    }
  }

  ghost predicate PublishesBy(w: World, acts: seq<Act>, e: string)
    requires Busy(w)
  {
    IsRun(w, acts) && e in Run(w, acts).outbox && Run(w, acts).outbox[e].publishedAt.Some?
  }

  lemma OneAct(w: World, a: Act)
    requires Busy(w) && Enabled(w, a)
    ensures IsRun(w, [a]) && Run(w, [a]) == Apply(w, a)
  {
    StaysBusy(w, a);
    assert [a][1..] == [];
  }

  /** Everything outside `done` is as it was, and `p` is the only publisher that moved. */
  ghost predicate OnlyPublished(w: World, w': World, p: int, done: seq<string>) {
    && w'.now == w.now && w'.limit == w.limit && w'.outbox.Keys == w.outbox.Keys
    && (forall e :: e in w.outbox && e !in done ==> w'.outbox[e] == w.outbox[e])
    && (forall e :: e in done && e in w.outbox ==> w'.outbox[e].publishedAt.Some?)
    && (forall q :: q in w.publishers && q != p ==> PhaseOf(w', q) == PhaseOf(w, q))
  }

  /** A publisher whose writes and marks go well publishes all it has in hand. */
  lemma {:induction false} FinishBatch(w: World, p: int) returns (acts: seq<Act>)
    requires Inv(w) && Busy(w) && !PhaseOf(w, p).Failing?
    ensures IsRun(w, acts) && Inv(Run(w, acts)) && PhaseOf(Run(w, acts), p).Idle?
    ensures OnlyPublished(w, Run(w, acts), p, InHand(PhaseOf(w, p)))
    decreases |InHand(PhaseOf(w, p))|, PhaseOf(w, p).Writing?
  {
    var phase := PhaseOf(w, p);
    if phase.Idle? {
      acts := [];
      return;
    }
    assert PhaseOk(w, phase);
    var a := if phase.Writing? then Write(p, true) else Mark(p, Done);
    OneAct(w, a);
    StaysBusy(w, a);
    ActKeeps(w, a);
    var rest := FinishBatch(Apply(w, a), p);
    RunConcat(w, [a], rest);
    acts := [a] + rest;
    FirstOnce(phase.batch);
  }

  lemma {:induction false} OldestRow(o: Outbox.Table<Event>, s: set<string>) returns (id: string)
    requires s != {} && s <= o.Keys
    ensures id in s && forall other :: other in s ==> o[id].createdAt <= o[other].createdAt
    decreases |s|
  {
    id :| id in s;
    if s != {id} {
      var rest := OldestRow(o, s - {id});
      if o[rest].createdAt < o[id].createdAt { id := rest; }
    }
  }

  lemma {:induction false} OldestRows(o: Outbox.Table<Event>, s: set<string>, n: nat) returns (ids: seq<string>)
    requires s <= o.Keys
    ensures Outbox.Distinct(ids) && |ids| <= n && forall id :: id in ids ==> id in s
    ensures |ids| < n ==> forall id :: id in s ==> id in ids
    ensures s != {} && n > 0 ==> ids != []
    ensures forall id, other :: id in ids && other in s && other !in ids ==> o[id].createdAt <= o[other].createdAt
    decreases n
  {
    if n == 0 || s == {} {
      ids := [];
    } else {
      var id := OldestRow(o, s);
      var rest := OldestRows(o, s - {id}, n - 1);
      ids := [id] + rest;
    }
  }

  // ---------- Which events a claim can take ----------

  /** The claimable events that are strictly older than `e`. */
  ghost function Older(o: Outbox.Table<Event>, e: string, now: Time): set<string>
    requires e in o
  {
    set id | id in Outbox.Eligible(o, now) && o[id].createdAt < o[e].createdAt
  }

  lemma PickedHasRoom(o: Outbox.Table<Event>, picked: seq<string>, e: string, limit: int, now: Time)
    requires Outbox.ValidPick(o, picked, limit, now) && e in picked
    ensures e in o && Outbox.Claimable(o[e], now) && |Older(o, e, now)| < Outbox.NormalizeLimit(limit)
  {
    Outbox.DistinctCard(picked);
    assert Older(o, e, now) + {e} <= Outbox.Members(picked);
    CardSubset(Older(o, e, now) + {e}, Outbox.Members(picked));
    CardAdd(Older(o, e, now), e);
  }

  lemma RoomIsPicked(o: Outbox.Table<Event>, e: string, limit: int, now: Time) returns (picked: seq<string>)
    requires e in o && Outbox.Claimable(o[e], now) && |Older(o, e, now)| < Outbox.NormalizeLimit(limit)
    ensures Outbox.ValidPick(o, picked, limit, now) && e in picked
  {
    var n, others := Outbox.NormalizeLimit(limit), Outbox.Eligible(o, now) - {e};
    var ids := OldestRows(o, others, n - 1);
    picked := ids + [e];
    forall other | other in others && other !in ids ensures o[e].createdAt <= o[other].createdAt {
      if o[other].createdAt < o[e].createdAt {
        assert |ids| == n - 1;
        Outbox.DistinctCard(ids);
        CardAdd(Outbox.Members(ids), other);
        assert Outbox.Members(ids) + {other} <= Older(o, e, now);
        CardSubset(Outbox.Members(ids) + {other}, Older(o, e, now));
      }
    }
  }

  /** The claim of `q` takes an event that `p` still has in its batch. */
  ghost predicate TakesFrom(w: World, p: int, q: int, picked: seq<string>, e: string)
    requires Busy(w)
  {
    var claim := Claim(q, picked, Done);
    && Enabled(w, claim)
    && e in Batch(PhaseOf(Apply(w, claim), p)) && e in Batch(PhaseOf(Apply(w, claim), q))
  }

  /**
   Of the events that a publisher has in its batch, the claim of another can take exactly those that are unpublished,
   have attempts left, whose lease has run out, and that fewer older ones than make up a batch are ahead of.
   */
  lemma SecondClaimExactly(w: World, p: int, q: int, e: string)
    requires Inv(w) && Busy(w) && p != q && PhaseOf(w, q).Idle? && e in Batch(PhaseOf(w, p))
    ensures e in w.outbox
    ensures (exists picked :: TakesFrom(w, p, q, picked, e))
       <==> Outbox.Claimable(w.outbox[e], w.now) && |Older(w.outbox, e, w.now)| < Outbox.NormalizeLimit(w.limit)
  {
    assert PhaseOk(w, PhaseOf(w, p));
    if picked :| TakesFrom(w, p, q, picked, e) {
      PickedHasRoom(w.outbox, picked, e, w.limit, w.now);
    }
    if Outbox.Claimable(w.outbox[e], w.now) && |Older(w.outbox, e, w.now)| < Outbox.NormalizeLimit(w.limit) {
      var picked := RoomIsPicked(w.outbox, e, w.limit, w.now);
      assert TakesFrom(w, p, q, picked, e);
    }
  }

  // ---------- Every claimable event is reached ----------

  /** An idle publisher working undisturbed reaches every claimable event, batch after batch, oldest first. */
  lemma {:induction false} Drain(w: World, p: int, e: string) returns (acts: seq<Act>)
    requires Inv(w) && Busy(w) && PhaseOf(w, p).Idle?
    requires e in Outbox.Eligible(w.outbox, w.now)
    ensures PublishesBy(w, acts, e)
    decreases |Outbox.Eligible(w.outbox, w.now)|
  {
    var eligible := Outbox.Eligible(w.outbox, w.now);
    var picked := OldestRows(w.outbox, eligible, Outbox.NormalizeLimit(w.limit));
    var claim := Claim(p, picked, Done);
    OneAct(w, claim);
    StaysBusy(w, claim);
    ActKeeps(w, claim);
    var w1 := Apply(w, claim);
    var finish := FinishBatch(w1, p);
    RunConcat(w, [claim], finish);
    acts := [claim] + finish;
    if e !in picked {
      var w2 := Run(w, acts);
      var later := Outbox.Eligible(w2.outbox, w2.now);
      assert later <= eligible - {picked[0]};
      CardSubset(later, eligible - {picked[0]});
      var more := Drain(w2, p, e);
      RunConcat(w, acts, more);
      acts := acts + more;
    }
  }

  lemma {:induction false} BeyondAll(s: set<int>) returns (p: int)
    ensures forall q :: q in s ==> q < p
    decreases |s|
  {
    p := 0;
    if q :| q in s {
      var r := BeyondAll(s - {q});
      p := if q < r then r else q + 1;
      assert forall other :: other in s ==> other == q || other in s - {q};
    }
  }

  /**
   An event can still be published, by some run, exactly when it is published already, has attempts left, or is in the
   hands of a publisher.
   */
  lemma PublishableExactly(w: World, e: string)
    requires Inv(w) && Busy(w) && e in w.outbox
    ensures Publishable(w, e) <==> exists acts :: PublishesBy(w, acts, e)
  {
    if w.outbox[e].publishedAt.Some? {
      assert PublishesBy(w, [], e);
    } else if p :| p in w.publishers && e in InHand(w.publishers[p]) {
      var acts := FinishBatch(w, p);
      assert PublishesBy(w, acts, e);
    } else if w.outbox[e].attempts < Outbox.MAX_ATTEMPTS {
      var lock := w.outbox[e].lockedUntil;
      var tick := Tick(if lock.Some? && lock.value >= w.now then lock.value + 1 else w.now);
      OneAct(w, tick);
      StaysBusy(w, tick);
      ActKeeps(w, tick);
      var p := BeyondAll(w.publishers.Keys);
      var drain := Drain(Apply(w, tick), p, e);
      RunConcat(w, [tick], drain);
      assert PublishesBy(w, [tick] + drain, e);
    } else {
      forall acts | IsRun(w, acts) ensures !PublishesBy(w, acts, e) {
        LostForever(w, acts, e);
      }
    }
  }

  // ---------- Attempts are spent on the whole batch ----------

  /** Two events, claimed together `n` times; the second has never been written. */
  ghost predicate Starving(w: World, a: string, b: string, n: nat) {
    && Inv(w) && Busy(w) && w.limit == 2 && a != b && w.outbox.Keys == {a, b} && WritesOf(w, b) == 0
    && PhaseOf(w, 1).Idle? && Waiting(w, a, n) && Waiting(w, b, n)
  }

  ghost predicate Waiting(w: World, e: string, n: nat) {
    && e in w.outbox && w.outbox[e].publishedAt.None? && w.outbox[e].attempts == n
    && (w.outbox[e].lockedUntil.Some? ==> w.outbox[e].lockedUntil.value <= w.now + Outbox.LEASE)
    && (forall p :: p in w.publishers && p != 1 ==> w.publishers[p].Idle?)
  }

  /** The same in the middle of a flush, with nothing written yet. */
  ghost predicate Claimed(w: World, a: string, b: string, n: nat) {
    && Inv(w) && Busy(w) && w.limit == 2 && a != b && w.outbox.Keys == {a, b} && WritesOf(w, b) == 0
    && PhaseOf(w, 1) == Writing([a, b], w.now) && Waiting(w, a, n) && Waiting(w, b, n)
  }

  lemma Then(w: World, acts: seq<Act>, a: Act)
    requires Inv(w) && Busy(w) && IsRun(w, acts) && Enabled(Run(w, acts), a)
    ensures IsRun(w, acts + [a]) && Run(w, acts + [a]) == Apply(Run(w, acts), a) && Inv(Run(w, acts + [a]))
  {
    RunKeeps(w, acts);
    OneAct(Run(w, acts), a);
    RunConcat(w, acts, [a]);
    ActKeeps(Run(w, acts), a);
  }

  lemma ClaimBoth(w: World, a: string, b: string, n: nat) returns (acts: seq<Act>)
    requires Starving(w, a, b, n) && n < Outbox.MAX_ATTEMPTS
    ensures IsRun(w, acts) && Claimed(Run(w, acts), a, b, n + 1)
  {
    acts := [Tick(w.now + Outbox.LEASE + 1)];
    OneAct(w, acts[0]);
    ActKeeps(w, acts[0]);
    Then(w, acts, Claim(1, [a, b], Done));
    acts := acts + [Claim(1, [a, b], Done)];
  }

  /** The first write fails, and the flush returns; but the claim has cost both events an attempt. */
  lemma FailFirst(w: World, a: string, b: string, n: nat) returns (acts: seq<Act>)
    requires Claimed(w, a, b, n)
    ensures IsRun(w, acts) && Starving(Run(w, acts), a, b, n)
  {
    acts := [Write(1, false)];
    OneAct(w, acts[0]);
    ActKeeps(w, acts[0]);
    Then(w, acts, MarkFailed(1, Done, ""));
    acts := acts + [MarkFailed(1, Done, "")];
  }

  lemma {:induction false} Starve(w: World, a: string, b: string, n: nat) returns (acts: seq<Act>)
    requires Starving(w, a, b, n) && n <= Outbox.MAX_ATTEMPTS
    ensures IsRun(w, acts) && Starving(Run(w, acts), a, b, Outbox.MAX_ATTEMPTS)
    decreases Outbox.MAX_ATTEMPTS - n
  {
    if n == Outbox.MAX_ATTEMPTS {
      acts := [];
    } else {
      var claim := ClaimBoth(w, a, b, n);
      var fail := FailFirst(Run(w, claim), a, b, n + 1);
      RunConcat(w, claim, fail);
      var more := Starve(Run(w, claim + fail), a, b, n + 1);
      RunConcat(w, claim + fail, more);
      acts := claim + fail + more;
    }
  }

  /** So an event can run out of attempts without a single write, and then no run publishes it. */
  lemma EventLostUnwritten(a: string, b: string, ra: Outbox.Row<Event>, rb: Outbox.Row<Event>) returns (acts: seq<Act>)
    requires a != b && IsNew(ra) && IsNew(rb)
    ensures var w := World(map[a := ra, b := rb], map[], map[], 0, 2);
      && Busy(w) && IsRun(w, acts)
      && WritesOf(Run(w, acts), b) == 0
      && b in Run(w, acts).outbox && !exists more :: PublishesBy(Run(w, acts), more, b)
  {
    var w := World(map[a := ra, b := rb], map[], map[], 0, 2);
    assert Holders(w, a) == {} && Holders(w, b) == {};
    acts := Starve(w, a, b, 0);
    PublishableExactly(Run(w, acts), b);
  }
}
