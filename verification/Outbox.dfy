/**
 The transactional outbox table: rows wait to be written to Kafka, are claimed in batches under a
 lease, and end up published. Modelled as the effect of each SQL statement on a map from event id.
 */
module Outbox {
  import opened Common

  const MAX_ATTEMPTS: nat := 20

  /** The lease a claim takes, in milliseconds. */
  const LEASE: Time := 30_000

  const DEFAULT_BATCH := 50

  const MAX_BATCH := 100

  datatype Row<+E> = Row(
    event: E,
    partitionKey: string,
    createdAt: Time,
    attempts: nat,
    lastError: string,
    lockedUntil: Option<Time>,
    publishedAt: Option<Time>)

  type Table<+E> = map<string, Row<E>>

  /** A row as `insertOutbox` leaves it: never tried, not leased, not published. */
  function NewRow<E>(event: E, partitionKey: string, createdAt: Time): Row<E> {
    Row(event, partitionKey, createdAt, 0, "", None, None)
  }

  function NormalizeLimit(limit: int): (n: nat)
    ensures 1 <= n <= MAX_BATCH
  {
    if limit <= 0 || limit > MAX_BATCH then DEFAULT_BATCH else limit
  }

  predicate Claimable<E>(row: Row<E>, now: Time) {
    && row.publishedAt.None?
    && (row.lockedUntil.Some? ==> row.lockedUntil.value < now)
    && row.attempts < MAX_ATTEMPTS
  }

  ghost function Eligible<E>(o: Table<E>, now: Time): set<string> {
    set id | id in o && Claimable(o[id], now)
  }

  ghost predicate Distinct<T>(s: seq<T>) {
    forall i, j :: 0 <= i < j < |s| ==> s[i] != s[j]
  }

  /**
   What the claiming query may select: claimable rows, each once, oldest first by creation time, as many as
   the limit allows. Rows created at the same time come in no particular order.
   */
  ghost predicate ValidPick<E>(o: Table<E>, picked: seq<string>, limit: int, now: Time) {
    && Distinct(picked)
    && (forall id :: id in picked ==> id in o && Claimable(o[id], now))
    && |picked| <= NormalizeLimit(limit)
    && (|picked| < NormalizeLimit(limit) ==> forall id :: id in Eligible(o, now) ==> id in picked)
    && (forall id, other :: id in picked && other in Eligible(o, now) && other !in picked
                            ==> o[id].createdAt <= o[other].createdAt)
  }

  function Claim<E>(o: Table<E>, picked: seq<string>, now: Time): Table<E> {
    map id | id in o ::
      if id in picked then o[id].(lockedUntil := Some(now + LEASE), attempts := o[id].attempts + 1) else o[id]
  }

  function MarkPublished<E>(o: Table<E>, id: string, now: Time): (o': Table<E>)
    ensures o'.Keys == o.Keys
  {
    if id in o then o[id := o[id].(publishedAt := Some(now), lockedUntil := None, lastError := "")] else o
  }

  function MarkFailed<E>(o: Table<E>, id: string, cause: string): (o': Table<E>)
    ensures o'.Keys == o.Keys
  {
    if id in o then o[id := o[id].(lockedUntil := None, lastError := cause)] else o
  }

  /** Delivery bookkeeping moves forward only, and touches nothing but the delivery columns. */
  ghost predicate Delivered<E>(o: Table<E>, o': Table<E>) {
    && o.Keys == o'.Keys
    && forall id :: id in o ==>
         && o'[id].event == o[id].event
         && o'[id].partitionKey == o[id].partitionKey
         && o'[id].createdAt == o[id].createdAt
         && o'[id].attempts >= o[id].attempts
         && (o[id].publishedAt.Some? ==> o'[id].publishedAt.Some? && o'[id].attempts == o[id].attempts)
  }

  function Members(s: seq<string>): set<string> {
    set id | id in s
  }

  lemma {:induction false} DistinctCard(s: seq<string>)
    requires Distinct(s)
    ensures |Members(s)| == |s|
  {
    if s == [] {
      assert Members(s) == {};
    } else {
      var init, last := s[..|s| - 1], s[|s| - 1];
      DistinctCard(init);
      assert s == init + [last];
      assert Members(s) == Members(init) + {last};
      CardAdd(Members(init), last);
    }
  }

  /** A claim takes as many events as it is asked for, 50 for a size that is not within 1 and 100, or all there are. */
  lemma PickSize<E>(o: Table<E>, picked: seq<string>, limit: int, now: Time)
    requires ValidPick(o, picked, limit, now)
    ensures var size := if 1 <= limit <= 100 then limit else 50;
      |picked| == if size <= |Eligible(o, now)| then size else |Eligible(o, now)|
  {
    var taken := Members(picked);
    DistinctCard(picked);
    CardSubset(taken, Eligible(o, now));
    if |picked| < NormalizeLimit(limit) {
      assert taken == Eligible(o, now);
    }
  }

  lemma ClaimDelivers<E>(o: Table<E>, picked: seq<string>, limit: int, now: Time)
    requires ValidPick(o, picked, limit, now)
    ensures Delivered(o, Claim(o, picked, now))
    ensures forall id :: id in o ==>
      (Claim(o, picked, now)[id].attempts == o[id].attempts + 1 <==> id in picked)
    ensures forall id :: id in o && o[id].attempts <= MAX_ATTEMPTS ==>
      Claim(o, picked, now)[id].attempts <= MAX_ATTEMPTS
  {
  }

  /** A claimed event is nobody else's for thirty seconds, and after that anybody's while it has attempts left. */
  lemma ClaimHolds<E>(o: Table<E>, picked: seq<string>, limit: int, now: Time, id: string, later: Time)
    requires ValidPick(o, picked, limit, now) && id in picked
    ensures id in Eligible(Claim(o, picked, now), later) <==> later > now + 30_000 && o[id].attempts + 1 < 20
  {
  }

  /** A failed write frees its event: any later claim can take it while it has attempts left, and it shows the cause. */
  lemma FailureFrees<E>(o: Table<E>, id: string, cause: string)
    requires id in o
    ensures var o' := MarkFailed(o, id, cause);
      && (forall now :: id in Eligible(o', now) <==> o[id].publishedAt.None? && o[id].attempts < 20)
      && o'[id].lastError == cause && o'[id].publishedAt == o[id].publishedAt && o'[id].attempts == o[id].attempts
      && o'[id].event == o[id].event && forall other :: other in o && other != id ==> o'[other] == o[other]
  {
  }

  /** A publication is dated, clears the cause, and takes the event out of every later claim. */
  lemma PublicationEnds<E>(o: Table<E>, id: string, now: Time)
    requires id in o
    ensures var o' := MarkPublished(o, id, now);
      && (forall later :: id !in Eligible(o', later))
      && o'[id].publishedAt == Some(now) && o'[id].lockedUntil == None && o'[id].lastError == ""
      && o'[id].event == o[id].event && forall other :: other in o && other != id ==> o'[other] == o[other]
  {
  }

  lemma MarksDeliver<E>(o: Table<E>, id: string, now: Time, cause: string)
    ensures Delivered(o, MarkPublished(o, id, now))
    ensures Delivered(o, MarkFailed(o, id, cause))
  {
  }
}
