/** The publisher's flush, as the loop it is: it is one of the runs of the world of publishers. */
module OutboxPublisher {
  import opened Common
  import opened MatchingTables
  import opened MatchingStore
  import opened Publishers
  import opened PublisherTheorems
  import Outbox

  /** How the write of one event, with the cause if it fails, and its mark end. */
  datatype Answer = Answer(written: bool, cause: string, marked: Outcome)
  {
    predicate Good() { written && marked == Done }
  }

  /** The row of an event after its turn in the loop. */
  function Turn(o: Outbox.Table<Event>, id: string, answer: Answer, now: Time): (o': Outbox.Table<Event>)
    ensures o'.Keys == o.Keys
  {
    if !answer.marked.Applied() then o
    else if answer.written then Outbox.MarkPublished(o, id, now)
    else Outbox.MarkFailed(o, id, answer.cause)
  }

  /** The table after the loop over a claimed batch: it stops at the first turn that does not go well. */
  function Settle(o: Outbox.Table<Event>, batch: seq<string>, answers: seq<Answer>, now: Time): Outbox.Table<Event>
    requires |answers| == |batch|
    decreases |batch|
  {
    if batch == [] then o
    else
      var o1 := Turn(o, batch[0], answers[0], now);
      if answers[0].Good() then Settle(o1, batch[1..], answers[1..], now) else o1
  }

  predicate AllGood(answers: seq<Answer>, n: nat)
    requires n <= |answers|
  {
    forall j :: 0 <= j < n ==> answers[j].Good()
  }

  lemma {:induction false} SettleLeavesOthers(o: Outbox.Table<Event>, batch: seq<string>, answers: seq<Answer>,
                                              now: Time)
    requires |answers| == |batch|
    ensures Settle(o, batch, answers, now).Keys == o.Keys
    ensures forall e :: e in o && e !in batch ==> Settle(o, batch, answers, now)[e] == o[e]
    decreases |batch|
  {
    if batch != [] {
      SettleLeavesOthers(Turn(o, batch[0], answers[0], now), batch[1..], answers[1..], now);
    }
  }

  /** After a flush, the events up to the first turn that went wrong are published. */
  lemma {:induction false} SettlePublishes(o: Outbox.Table<Event>, batch: seq<string>, answers: seq<Answer>, now: Time,
                                           i: nat)
    requires |answers| == |batch| && Outbox.Distinct(batch) && forall j :: 0 <= j < |batch| ==> batch[j] in o
    requires i < |batch| && AllGood(answers, i + 1)
    ensures Settle(o, batch, answers, now).Keys == o.Keys
    ensures Settle(o, batch, answers, now)[batch[i]].publishedAt == Some(now)
    decreases |batch|
  {
    var o1 := Turn(o, batch[0], answers[0], now);
    FirstOnce(batch);
    SettleLeavesOthers(o1, batch[1..], answers[1..], now);
    if i > 0 {
      SettlePublishes(o1, batch[1..], answers[1..], now, i - 1);
      assert batch[1..][i - 1] == batch[i];
    }
  }

  /** The rows after it are exactly as they were claimed: leased, and one attempt poorer. */
  lemma {:induction false} SettleLeavesRest(o: Outbox.Table<Event>, batch: seq<string>, answers: seq<Answer>, now: Time,
                                            k: nat, i: nat)
    requires |answers| == |batch| && Outbox.Distinct(batch) && forall j :: 0 <= j < |batch| ==> batch[j] in o
    requires k < i < |batch| && !answers[k].Good()
    ensures Settle(o, batch, answers, now).Keys == o.Keys
    ensures Settle(o, batch, answers, now)[batch[i]] == o[batch[i]]
    decreases |batch|
  {
    var o1 := Turn(o, batch[0], answers[0], now);
    FirstOnce(batch);
    SettleLeavesOthers(o1, batch[1..], answers[1..], now);
    assert batch[1..][i - 1] == batch[i];
    if k > 0 {
      SettleLeavesRest(o1, batch[1..], answers[1..], now, k - 1, i - 1);
    }
  }

  /** The row at the first turn that goes wrong. */
  lemma {:induction false} SettleAtFailure(o: Outbox.Table<Event>, batch: seq<string>, answers: seq<Answer>, now: Time,
                                           k: nat)
    requires |answers| == |batch| && Outbox.Distinct(batch) && forall j :: 0 <= j < |batch| ==> batch[j] in o
    requires k < |batch| && AllGood(answers, k) && !answers[k].Good()
    ensures Settle(o, batch, answers, now).Keys == o.Keys
    ensures Settle(o, batch, answers, now)[batch[k]] == Turn(o, batch[k], answers[k], now)[batch[k]]
    decreases |batch|
  {
    var o1 := Turn(o, batch[0], answers[0], now);
    FirstOnce(batch);
    SettleLeavesOthers(o1, batch[1..], answers[1..], now);
    if k > 0 {
      assert answers[0].Good();
      assert batch[1..][k - 1] == batch[k] && answers[1..][k - 1] == answers[k];
      forall j | 0 <= j < k - 1 ensures answers[1..][j].Good() {
        assert answers[1..][j] == answers[j + 1];
      }
      SettleAtFailure(o1, batch[1..], answers[1..], now, k - 1);
    }
  }

  /**
   After a flush, the event at the first turn that went wrong: if its write failed and the mark applied, it can be
   claimed at once, unless this was its twentieth attempt, and shows the cause; if the mark did not apply, only when its
   lease has run out; and if it was written and marked with the answer lost, never again.
   */
  lemma FailedTurnExactly(o: Outbox.Table<Event>, picked: seq<string>, answers: seq<Answer>, limit: int, now: Time,
                          k: nat, later: Time)
    requires Outbox.ValidPick(o, picked, limit, now) && |answers| == |picked| && k < |picked|
    requires AllGood(answers, k) && !answers[k].Good()
    ensures var o' := Settle(Outbox.Claim(o, picked, now), picked, answers, now);
      && (picked[k] in Outbox.Eligible(o', later) <==>
            && o[picked[k]].attempts + 1 < 20
            && if answers[k].marked.Applied() then !answers[k].written else later > now + 30_000)
      && picked[k] in o'
      && (!answers[k].written && answers[k].marked.Applied() ==> o'[picked[k]].lastError == answers[k].cause)
  {
    var claimed := Outbox.Claim(o, picked, now);
    SettleAtFailure(claimed, picked, answers, now, k);
  }

  class Publisher {
    const store: Store
    const batch: int
    var sends: map<string, Sends>

    constructor (store: Store, batch: int)
      ensures this.store == store && sends == map[]
      ensures this.batch == if batch <= 0 then Outbox.DEFAULT_BATCH else batch
    {
      this.store := store;
      this.batch := if batch <= 0 then Outbox.DEFAULT_BATCH else batch;
      this.sends := map[];
    }

    /** This publisher alone, as number 0, in a given phase. */
    ghost function View(phase: Phase, now: Time): World
      reads this, store
    {
      World(store.outbox, map[0 := phase], sends, now, batch)
    }

    /** The Kafka write of the event at hand. */
    method WriteOne(id: string, ghost rest: seq<string>, ok: bool, now: Time, ghost w: World, ghost before: seq<Act>)
      returns (ghost acts: seq<Act>)
      requires Busy(w) && IsRun(w, before) && Run(w, before) == View(Writing([id] + rest, now), now)
      modifies this`sends
      ensures IsRun(w, acts)
      ensures Run(w, acts) == View(if ok then Marking([id] + rest, now) else Failing([id] + rest, now), now)
    {
      acts := Follow(w, before, Write(0, ok));
      sends := Sent(sends, id, ok);
      ghost var written := if ok then Marking([id] + rest, now) else Failing([id] + rest, now);
      assert map[0 := Writing([id] + rest, now)][0 := written] == map[0 := written];
    }

    /** The statement that marks it published, or notes its failure. */
    method MarkOne(id: string, ghost rest: seq<string>, answer: Answer, now: Time, ghost w: World,
                   ghost before: seq<Act>)
      returns (ghost acts: seq<Act>)
      requires Busy(w) && IsRun(w, before)
      requires Run(w, before)
          == View(if answer.written then Marking([id] + rest, now) else Failing([id] + rest, now), now)
      modifies store`outbox
      ensures IsRun(w, acts) && Run(w, acts) == View(if answer.Good() then Continue(rest, now) else Idle, now)
      ensures store.outbox == Turn(old(store.outbox), id, answer, now)
    {
      assert ([id] + rest)[0] == id && ([id] + rest)[1..] == rest;
      ghost var next := if answer.Good() then Continue(rest, now) else Idle;
      if answer.written {
        assert map[0 := Marking([id] + rest, now)][0 := next] == map[0 := next];
        acts := Follow(w, before, Mark(0, answer.marked));
        if answer.marked.Applied() {
          store.MarkOutboxPublished(id, now);
        }
      } else {
        assert map[0 := Failing([id] + rest, now)][0 := next] == map[0 := next];
        acts := Follow(w, before, MarkFailed(0, answer.marked, answer.cause));
        if answer.marked.Applied() {
          store.MarkOutboxFailed(id, answer.cause);
        }
      }
    }

    /** One turn of the loop: write, then mark. The loop goes on only if both went well. */
    method PublishOne(id: string, ghost rest: seq<string>, answer: Answer, now: Time, ghost w: World,
                      ghost before: seq<Act>)
      returns (goOn: bool, ghost acts: seq<Act>)
      requires Busy(w) && IsRun(w, before) && Run(w, before) == View(Writing([id] + rest, now), now)
      modifies store`outbox, this`sends
      ensures goOn <==> answer.Good()
      ensures IsRun(w, acts) && Run(w, acts) == View(if goOn then Continue(rest, now) else Idle, now)
      ensures store.outbox == Turn(old(store.outbox), id, answer, now)
    {
      acts := WriteOne(id, rest, answer.written, now, w, before);
      acts := MarkOne(id, rest, answer, now, w, acts);
      goOn := answer.Good();
    }

    method Begin(picked: seq<string>, now: Time) returns (ghost acts: seq<Act>)
      requires Outbox.ValidPick(store.outbox, picked, batch, now)
      modifies store`outbox
      ensures Busy(old(View(Idle, now))) && IsRun(old(View(Idle, now)), acts)
      ensures Run(old(View(Idle, now)), acts) == View(Continue(picked, now), now)
      ensures store.outbox == Outbox.Claim(old(store.outbox), picked, now)
    {
      OneAct(View(Idle, now), Claim(0, picked, Done));
      assert map[0 := Idle][0 := Continue(picked, now)] == map[0 := Continue(picked, now)];
      store.FetchOutbox(batch, picked, now);
      acts := [Claim(0, picked, Done)];
    }

    /** `picked` is what the claim selects; `answers` is how the i-th write and mark would end. */
    method Flush(picked: seq<string>, answers: seq<Answer>, now: Time) returns (ok: bool, ghost acts: seq<Act>)
      requires Outbox.ValidPick(store.outbox, picked, batch, now) && |answers| == |picked|
      modifies store`outbox, this`sends
      ensures Busy(old(View(Idle, now))) && IsRun(old(View(Idle, now)), acts)
      ensures Run(old(View(Idle, now)), acts) == View(Idle, now)
      ensures store.outbox == Settle(Outbox.Claim(old(store.outbox), picked, now), picked, answers, now)
      ensures ok <==> AllGood(answers, |picked|)
    {
      ghost var w := View(Idle, now);
      acts := Begin(picked, now);
      ok := true;
      ghost var end := Settle(store.outbox, picked, answers, now);
      var i := 0;
      while i < |picked| && ok
        invariant 0 <= i <= |picked|
        invariant Busy(w) && IsRun(w, acts)
        invariant Run(w, acts) == View(if ok then Continue(picked[i..], now) else Idle, now)
        invariant end == if ok then Settle(store.outbox, picked[i..], answers[i..], now) else store.outbox
        invariant ok <==> AllGood(answers, i)
      {
        FirstOfRest(picked, i);
        FirstOfRest(answers, i);
        ok, acts := PublishOne(picked[i], picked[i + 1..], answers[i], now, w, acts);
        i := i + 1;
      }
    }
  }

  lemma FirstOfRest<T>(s: seq<T>, i: nat)
    requires i < |s|
    ensures s[i..] == [s[i]] + s[i + 1..] && s[i..][0] == s[i] && s[i..][1..] == s[i + 1..]
  {
  }

  /** A run goes on with one more act. */
  ghost function Follow(w: World, acts: seq<Act>, a: Act): (longer: seq<Act>)
    requires Busy(w) && IsRun(w, acts) && Enabled(Run(w, acts), a)
    ensures IsRun(w, longer) && Run(w, longer) == Apply(Run(w, acts), a)
  {
    OneAct(Run(w, acts), a);
    RunConcat(w, acts, [a]);
    acts + [a]
  }
}
