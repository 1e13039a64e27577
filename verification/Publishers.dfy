/**
 Any number of outbox publishers working on one table. Each `flush` is broken into its claim, its Kafka writes and its
 marks, so that publishers, domain transactions, crashes and the clock interleave freely. Every database statement may
 fail before or after it takes effect, and every Kafka write may fail.
 */
module Publishers {
  import opened Common
  import opened MatchingTables
  import Outbox

  /** Where a publisher is in its loop over the claimed batch; the event at hand comes first. */
  datatype Phase =
    | Idle
    | Writing(batch: seq<string>, claimedAt: Time)
    | Marking(batch: seq<string>, claimedAt: Time)
    | Failing(batch: seq<string>, claimedAt: Time)

  /** How often an event was written to Kafka, and how often Kafka answered that it has it. */
  datatype Sends = Sends(writes: nat, acks: nat)

  datatype World = World(
    outbox: Outbox.Table<Event>,
    publishers: map<int, Phase>,
    sends: map<string, Sends>,
    now: Time,
    limit: int)

  datatype Act =
    | Tick(to: Time)
    | Insert(rows: Outbox.Table<Event>)
    | Claim(p: int, picked: seq<string>, claimed: Outcome)
    | Write(p: int, ok: bool)
    | Mark(p: int, marked: Outcome)
    | MarkFailed(p: int, noted: Outcome, cause: string)
    | Crash(p: int)

  function PhaseOf(w: World, p: int): Phase {
    if p in w.publishers then w.publishers[p] else Idle
  }

  function SendsOf(sends: map<string, Sends>, e: string): Sends {
    if e in sends then sends[e] else Sends(0, 0)
  }

  function WritesOf(w: World, e: string): nat {
    SendsOf(w.sends, e).writes
  }

  function AcksOf(w: World, e: string): nat {
    SendsOf(w.sends, e).acks
  }

  /** One more write of an event. */
  function Sent(sends: map<string, Sends>, e: string, ok: bool): map<string, Sends> {
    var s := SendsOf(sends, e);
    sends[e := Sends(s.writes + 1, s.acks + if ok then 1 else 0)]
  }

  /** The loop goes on with the next event, or ends. */
  function Continue(rest: seq<string>, claimedAt: Time): Phase {
    if rest == [] then Idle else Writing(rest, claimedAt)
  }

  ghost predicate IsNew(row: Outbox.Row<Event>) {
    row == Outbox.NewRow(row.event, row.partitionKey, row.createdAt)
  }

  ghost predicate Enabled(w: World, a: Act) {
    match a
    case Tick(to) => w.now <= to
    case Insert(rows) => rows.Keys !! w.outbox.Keys && forall id :: id in rows ==> IsNew(rows[id])
    case Claim(p, picked, _) => PhaseOf(w, p).Idle? && Outbox.ValidPick(w.outbox, picked, w.limit, w.now)
    case Write(p, _) => PhaseOf(w, p).Writing?
    case Mark(p, _) => PhaseOf(w, p).Marking?
    case MarkFailed(p, _, _) => PhaseOf(w, p).Failing?
    case Crash(p) => true
  }

  /** Batches of publishers at work are not empty. */
  ghost predicate Busy(w: World) {
    forall p :: p in w.publishers && !w.publishers[p].Idle? ==> w.publishers[p].batch != []
  }

  function WithPhase(w: World, p: int, phase: Phase): World {
    w.(publishers := w.publishers[p := phase])
  }

  ghost function Apply(w: World, a: Act): World
    requires Busy(w) && Enabled(w, a)
  {
    match a
    case Tick(to) => w.(now := to)
    case Insert(rows) => w.(outbox := w.outbox + rows)
    case Claim(p, picked, claimed) =>
      var w1 := if claimed.Applied() then w.(outbox := Outbox.Claim(w.outbox, picked, w.now)) else w;
      WithPhase(w1, p, if claimed.Reported() then Continue(picked, w.now) else Idle)
    case Write(p, ok) =>
      var Writing(batch, claimedAt) := PhaseOf(w, p);
      WithPhase(w.(sends := Sent(w.sends, batch[0], ok)), p,
                if ok then Marking(batch, claimedAt) else Failing(batch, claimedAt))
    case Mark(p, marked) =>
      var Marking(batch, claimedAt) := PhaseOf(w, p);
      var w1 := if marked.Applied() then w.(outbox := Outbox.MarkPublished(w.outbox, batch[0], w.now)) else w;
      WithPhase(w1, p, if marked.Reported() then Continue(batch[1..], claimedAt) else Idle)
    case MarkFailed(p, noted, cause) =>
      var batch := PhaseOf(w, p).batch;
      var w1 := if noted.Applied() then w.(outbox := Outbox.MarkFailed(w.outbox, batch[0], cause)) else w;
      WithPhase(w1, p, Idle)
    case Crash(p) => WithPhase(w, p, Idle)
  }

  lemma StaysBusy(w: World, a: Act)
    requires Busy(w) && Enabled(w, a)
    ensures Busy(Apply(w, a))
  {
  }

  /** An empty outbox and no publisher at work. */
  function Start(now: Time, limit: int): World {
    World(map[], map[], map[], now, limit)
  }

  ghost predicate IsRun(w: World, acts: seq<Act>)
    requires Busy(w)
    decreases |acts|
  {
    acts == [] || (Enabled(w, acts[0]) && (StaysBusy(w, acts[0]); IsRun(Apply(w, acts[0]), acts[1..])))
  }

  ghost function Run(w: World, acts: seq<Act>): (w': World)
    requires Busy(w) && IsRun(w, acts)
    ensures Busy(w')
    decreases |acts|
  {
    if acts == [] then w else StaysBusy(w, acts[0]); Run(Apply(w, acts[0]), acts[1..])
  }

  // ---------- Attempts, writes and publication ----------

  /** The claimed events a publisher has not written yet. */
  function Unwritten(phase: Phase): seq<string> {
    match phase
    case Idle => []
    case Writing(batch, _) => batch
    case Marking(batch, _) => if batch == [] then [] else batch[1..]
    case Failing(batch, _) => if batch == [] then [] else batch[1..]
  }

  ghost function Holders(w: World, e: string): set<int> {
    set p | p in w.publishers && e in Unwritten(w.publishers[p])
  }

  /**
   The phase of a publisher fits the tables: a batch lists stored events, each once; what is being marked was
   acknowledged by Kafka.
   */
  ghost predicate PhaseOk(w: World, phase: Phase) {
    !phase.Idle? ==>
      && phase.batch != [] && Outbox.Distinct(phase.batch)
      && (forall i :: 0 <= i < |phase.batch| ==> phase.batch[i] in w.outbox)
      && (phase.Marking? ==> AcksOf(w, phase.batch[0]) >= 1)
  }

  /** Every write of an event was paid for by one of its at most 20 attempts, and publication by an acknowledged one. */
  ghost predicate RowOk(w: World, e: string)
    requires e in w.outbox
  {
    && w.outbox[e].attempts <= Outbox.MAX_ATTEMPTS
    && WritesOf(w, e) + |Holders(w, e)| <= w.outbox[e].attempts
    && AcksOf(w, e) <= WritesOf(w, e)
    && (w.outbox[e].publishedAt.Some? ==> AcksOf(w, e) >= 1)
  }

  ghost predicate Inv(w: World) {
    && (forall p :: p in w.publishers ==> PhaseOk(w, w.publishers[p]))
    && (forall e {:trigger RowOk(w, e)} :: e in w.outbox ==> RowOk(w, e))
    && (forall e :: e in w.sends ==> e in w.outbox)
  }

  /** Only the publisher that moves can start or stop holding an event. */
  lemma HoldersAfter(w: World, w': World, p: int, phase: Phase, e: string)
    requires w'.publishers == w.publishers[p := phase]
    ensures Holders(w', e) == if e in Unwritten(phase) then Holders(w, e) + {p} else Holders(w, e) - {p}
    ensures e !in Unwritten(PhaseOf(w, p)) <==> p !in Holders(w, e)
  {
  }

  lemma TickKeeps(w: World, to: Time)
    requires Inv(w)
    ensures Inv(w.(now := to))
  {
    var w' := w.(now := to);
    forall e | e in w'.outbox ensures RowOk(w', e) {
      assert RowOk(w, e) && Holders(w', e) == Holders(w, e);
    }
    forall p | p in w'.publishers ensures PhaseOk(w', w'.publishers[p]) {
      assert PhaseOk(w, w.publishers[p]);
    }
  }

  lemma InsertKeeps(w: World, rows: Outbox.Table<Event>)
    requires Inv(w) && Enabled(w, Insert(rows))
    ensures Inv(w.(outbox := w.outbox + rows))
  {
    var w' := w.(outbox := w.outbox + rows);
    forall p | p in w'.publishers ensures PhaseOk(w', w'.publishers[p]) {
      assert PhaseOk(w, w.publishers[p]);
    }
    forall e | e in w'.outbox ensures RowOk(w', e) {
      assert Holders(w', e) == Holders(w, e);
      if e in rows {
        assert IsNew(rows[e]);
        forall p | p in w.publishers ensures e !in Unwritten(w.publishers[p]) {
          assert PhaseOk(w, w.publishers[p]);
        }
        assert Holders(w, e) == {};
      } else {
        assert RowOk(w, e);
      }
    }
  }

  /**
   A publisher moves to a phase that is right for it. For each event the attempts may grow; a write must take the event
   out of the publisher's hands, and putting it there must be paid for by an attempt.
   */
  lemma MoveKeeps(w: World, w': World, p: int, phase: Phase)
    requires Inv(w) && w'.publishers == w.publishers[p := phase] && PhaseOk(w', phase)
    requires w'.outbox.Keys == w.outbox.Keys && forall e :: e in w'.sends ==> e in w'.outbox
    requires forall e :: e in w.outbox ==>
      && AcksOf(w', e) >= AcksOf(w, e) && WritesOf(w', e) - WritesOf(w, e) >= AcksOf(w', e) - AcksOf(w, e)
      && (w'.outbox[e].attempts == w.outbox[e].attempts || w'.outbox[e].attempts <= Outbox.MAX_ATTEMPTS)
      && (w'.outbox[e].publishedAt.Some? ==> w.outbox[e].publishedAt.Some? || AcksOf(w', e) >= 1)
      && WritesOf(w', e) - WritesOf(w, e) + (if e in Unwritten(phase) then 1 else 0)
         <= w'.outbox[e].attempts - w.outbox[e].attempts + (if e in Unwritten(PhaseOf(w, p)) then 1 else 0)
    ensures Inv(w')
  {
    forall q | q in w'.publishers ensures PhaseOk(w', w'.publishers[q]) {
      if q != p { assert PhaseOk(w, w.publishers[q]); }
    }
    forall e | e in w'.outbox ensures RowOk(w', e) {
      assert RowOk(w, e);
      HoldersAfter(w, w', p, phase, e);
      var others := Holders(w, e) - {p};
      assert p in Holders(w, e) ==> Holders(w, e) == others + {p};
    }
  }

  lemma FirstOnce(batch: seq<string>)
    requires Outbox.Distinct(batch) && batch != []
    ensures Outbox.Distinct(batch[1..])
    ensures forall e :: e in batch[1..] <==> e in batch && e != batch[0]
  {
    forall e ensures e in batch[1..] <==> e in batch && e != batch[0] {
      if e in batch[1..] {
        var i :| 0 <= i < |batch[1..]| && batch[1..][i] == e;
        assert batch[i + 1] == e;
      }
      assert batch == [batch[0]] + batch[1..];
    }
  }

  lemma ClaimKeeps(w: World, p: int, picked: seq<string>, claimed: Outcome)
    requires Inv(w) && Busy(w) && Enabled(w, Claim(p, picked, claimed))
    ensures Inv(Apply(w, Claim(p, picked, claimed)))
  {
    var w' := Apply(w, Claim(p, picked, claimed));
    if claimed.Applied() {
      Outbox.ClaimDelivers(w.outbox, picked, w.limit, w.now);
    }
    MoveKeeps(w, w', p, w'.publishers[p]);
  }

  lemma WriteKeeps(w: World, p: int, ok: bool)
    requires Inv(w) && Busy(w) && Enabled(w, Write(p, ok))
    ensures Inv(Apply(w, Write(p, ok)))
  {
    var w' := Apply(w, Write(p, ok));
    var batch := w.publishers[p].batch;
    assert PhaseOk(w, w.publishers[p]);
    FirstOnce(batch);
    MoveKeeps(w, w', p, w'.publishers[p]);
  }

  lemma MarkKeeps(w: World, p: int, marked: Outcome)
    requires Inv(w) && Busy(w) && Enabled(w, Mark(p, marked))
    ensures Inv(Apply(w, Mark(p, marked)))
  {
    var w' := Apply(w, Mark(p, marked));
    assert PhaseOk(w, w.publishers[p]);
    FirstOnce(w.publishers[p].batch);
    MoveKeeps(w, w', p, w'.publishers[p]);
  }

  lemma ActKeeps(w: World, a: Act)
    requires Inv(w) && Busy(w) && Enabled(w, a)
    ensures Inv(Apply(w, a))
  {
    match a
    case Tick(to) => TickKeeps(w, to);
    case Insert(rows) => InsertKeeps(w, rows);
    case Claim(p, picked, claimed) => ClaimKeeps(w, p, picked, claimed);
    case Write(p, ok) => WriteKeeps(w, p, ok);
    case Mark(p, marked) => MarkKeeps(w, p, marked);
    case MarkFailed(p, noted, cause) => MoveKeeps(w, Apply(w, a), p, Idle);
    case Crash(p) => MoveKeeps(w, Apply(w, a), p, Idle);
  }

  /**
   Nothing is forgotten: events stay, attempts, writes and acknowledgements only grow, and a published event stays as it
   is.
   */
  ghost predicate Progresses(w: World, w': World) {
    forall e :: e in w.outbox ==>
      && e in w'.outbox && w'.outbox[e].event == w.outbox[e].event
      && w'.outbox[e].attempts >= w.outbox[e].attempts && WritesOf(w', e) >= WritesOf(w, e)
      && AcksOf(w', e) >= AcksOf(w, e)
      && (w.outbox[e].publishedAt.Some? ==>
            w'.outbox[e].publishedAt.Some? && w'.outbox[e].attempts == w.outbox[e].attempts)
  }

  lemma ActProgresses(w: World, a: Act)
    requires Busy(w) && Enabled(w, a)
    ensures Progresses(w, Apply(w, a))
  {
  }

  /**
   Over every run of any publishers: attempts never exceed 20, an event is written at most once per attempt, it is
   marked published only after a write that Kafka acknowledged, and from then on it is neither claimed nor unmarked.
   */
  lemma {:induction false} RunKeeps(w: World, acts: seq<Act>)
    requires Inv(w) && Busy(w) && IsRun(w, acts)
    ensures Inv(Run(w, acts)) && Progresses(w, Run(w, acts))
    decreases |acts|
  {
    if acts != [] {
      StaysBusy(w, acts[0]);
      ActKeeps(w, acts[0]);
      ActProgresses(w, acts[0]);
      RunKeeps(Apply(w, acts[0]), acts[1..]);
    }
  }
}
