/** The matching service's store and the use cases on top of it, as they update the tables in place. */
module MatchingStore {
  import opened Common
  import opened MatchingDomain
  import opened MatchingTables
  import Outbox

  class Store {
    var swipes: map<string, Swipe>
    var matches: map<string, Match>
    var keys: map<string, KeyRow>
    var availability: map<string, bool>
    var outbox: Outbox.Table<Event>

    ghost function Rows(): Tables
      reads this
    {
      Tables(swipes, matches, keys, availability, outbox)
    }

    constructor ()
      ensures Rows() == EMPTY
    {
      swipes, matches, keys, availability, outbox := map[], map[], map[], map[], map[];
    }

    /** Works on copies of the tables and assigns them only on commit. */
    method RecordSwipe(cmd: Command, draw: Draw, now: Time) returns (reply: Reply)
      modifies this
      ensures (Rows(), reply) == MatchingTables.RecordSwipe(old(Rows()), cmd, draw, now)
    {
      if cmd.key in keys {
        reply := FindIdempotency(cmd.key);
        return;
      }
      if !Available(availability, cmd.animalId) {
        return Err(UnavailableAnimal);
      }
      var created := NewSwipe(draw.swipeId, cmd, now);
      if created.Err? {
        return Err(created.error);
      }
      var swipe := created.value;
      if swipe.id in swipes {
        return Err(StorageFailure);
      }
      if AlreadySwiped(swipes, swipe.actorId, swipe.animalId) {
        return Err(DuplicateSwipe);
      }
      var swipesTx := swipes[swipe.id := swipe];
      if draw.swipeEventId in outbox {
        return Err(StorageFailure);
      }
      var outboxTx := outbox[draw.swipeEventId := Outbox.NewRow(SwipeRecorded(swipe, cmd.key), swipe.actorId, now)];
      var matchesTx := matches;
      var matched: Option<Match> := None;
      var matchId := "";
      if swipe.direction == Right {
        var made := NewMatchFromSwipe(draw.matchId, swipe);
        if made.Err? {
          return Err(made.error);
        }
        var m := made.value;
        if m.id in matches || AlreadyMatched(matches, m.adopterId, m.animalId) {
          return Err(StorageFailure);
        }
        matchesTx := matchesTx[m.id := m];
        if draw.matchEventId in outboxTx {
          return Err(StorageFailure);
        }
        outboxTx := outboxTx[draw.matchEventId := Outbox.NewRow(MatchCreated(m, swipe, cmd.key), m.id, now)];
        matched := Some(m);
        matchId := m.id;
      }
      swipes, matches, outbox := swipesTx, matchesTx, outboxTx;
      keys := keys[cmd.key := KeyRow(cmd.actorId, swipe.id, matchId)];
      reply := Ok(Recorded(swipe, matched, matched.Some?, false, false, ""));
    }

    method FindIdempotency(key: string) returns (reply: Reply)
      requires key in keys
      ensures reply == Replay(Rows(), key)
    {
      var row := keys[key];
      if row.swipeId !in swipes {
        return Err(StorageFailure);
      }
      var found := Recorded(swipes[row.swipeId], None, false, true, false, "");
      if row.matchId != "" {
        if row.matchId !in matches {
          return Err(StorageFailure);
        }
        var m := matches[row.matchId];
        found := found.(matched := Some(m));
        if m.conversationId != "" {
          found := found.(chatCreated := true, conversationId := m.conversationId);
        }
      }
      reply := Ok(found);
    }

    method UpdateMatchConversation(matchId: string, conversationId: string, now: Time) returns (r: Result<(), Error>)
      modifies this`matches
      ensures (Rows(), r) == AttachConversation(old(Rows()), matchId, conversationId, now)
    {
      if matchId !in matches || matches[matchId].conversationId !in {"", conversationId} {
        return Err(NotFound);
      }
      matches := matches[matchId := matches[matchId].(conversationId := conversationId, updatedAt := now)];
      r := Ok(());
    }

    /** `rows` is the order in which the database returns the selected rows. */
    method ArchiveMatchesByAnimal(animalId: string, reason: string, rows: seq<string>, eventIds: seq<string>, now: Time)
      returns (r: Result<seq<Match>, Error>)
      requires |rows| == |eventIds| && IsSelection(Rows(), animalId, rows)
      modifies this
      ensures (Rows(), r) == ArchiveMatches(old(Rows()), rows, eventIds, reason, now)
    {
      r := ArchiveSelected(reason, rows, eventIds, now);
    }

    /** The rest of that transaction: one by one the selected matches are archived and announced. */
    method ArchiveSelected(reason: string, rows: seq<string>, eventIds: seq<string>, now: Time)
      returns (r: Result<seq<Match>, Error>)
      requires |rows| == |eventIds| && Outbox.Distinct(rows) && Present(Rows(), rows)
      modifies this
      ensures (Rows(), r) == ArchiveMatches(old(Rows()), rows, eventIds, reason, now)
    {
      var matchesTx, outboxTx := matches, outbox;
      var archived: seq<Match> := [];
      ghost var t := Rows();
      for i := 0 to |rows|
        invariant Rows() == t && matchesTx.Keys == t.matches.Keys
        invariant ArchiveRows(t, rows[..i], eventIds[..i], reason, now) ==
          Ok(t.(matches := matchesTx, outbox := outboxTx))
        invariant archived == Lookup(matchesTx, rows[..i])
        invariant forall j :: i <= j < |rows| ==> matchesTx[rows[j]] == t.matches[rows[j]]
      {
        ArchiveTurn(t, rows, eventIds, reason, now, i, t.(matches := matchesTx, outbox := outboxTx));
        var next := Archive(matches[rows[i]], now);
        if next.Err? {
          return Err(next.error);
        }
        if eventIds[i] in outboxTx {
          return Err(StorageFailure);
        }
        OneArchived(matchesTx, rows, i, next.value);
        matchesTx := matchesTx[rows[i] := next.value];
        outboxTx := outboxTx[eventIds[i] := Outbox.NewRow(MatchArchived(rows[i], reason), rows[i], now)];
        archived := archived + [next.value];
      }
      WholePrefix(rows);
      WholePrefix(eventIds);
      matches, outbox := matchesTx, outboxTx;
      r := Ok(archived);
    }

    method SetAnimalAvailability(animalId: string, available: bool)
      modifies this`availability
      ensures Rows() == SetAvailability(old(Rows()), animalId, available)
    {
      availability := availability[animalId := available];
    }

    /** `picked` is what the claiming query selects. */
    method FetchOutbox(limit: int, picked: seq<string>, now: Time)
      requires Outbox.ValidPick(outbox, picked, limit, now)
      modifies this`outbox
      ensures outbox == Outbox.Claim(old(outbox), picked, now)
    {
      outbox := map id | id in outbox ::
        if id in picked
        then outbox[id].(lockedUntil := Some(now + Outbox.LEASE), attempts := outbox[id].attempts + 1)
        else outbox[id];
    }

    method MarkOutboxPublished(eventId: string, now: Time)
      modifies this`outbox
      ensures outbox == Outbox.MarkPublished(old(outbox), eventId, now)
    {
      if eventId in outbox {
        outbox := outbox[eventId := outbox[eventId].(publishedAt := Some(now), lockedUntil := None, lastError := "")];
      }
    }

    method MarkOutboxFailed(eventId: string, cause: string)
      modifies this`outbox
      ensures outbox == Outbox.MarkFailed(old(outbox), eventId, cause)
    {
      if eventId in outbox {
        outbox := outbox[eventId := outbox[eventId].(lockedUntil := None, lastError := cause)];
      }
    }
  }

  lemma WholePrefix<T>(s: seq<T>)
    ensures s[..|s|] == s
  {
  }

  /** Writing row i back changes none of the other selected rows. */
  lemma OneArchived(matches: map<string, Match>, rows: seq<string>, i: nat, next: Match)
    requires Outbox.Distinct(rows) && i < |rows| && forall j :: 0 <= j < |rows| ==> rows[j] in matches
    ensures Lookup(matches[rows[i] := next], rows[..i + 1]) == Lookup(matches, rows[..i]) + [next]
    ensures forall j :: i < j < |rows| ==> matches[rows[i] := next][rows[j]] == matches[rows[j]]
  {
  }

  /** One iteration of the archiving loop. */
  lemma ArchiveStep(t: Tables, rows: seq<string>, eventIds: seq<string>, reason: string, now: Time, i: nat)
    requires |rows| == |eventIds| && i < |rows| && Present(t, rows)
    requires ArchiveRows(t, rows[..i], eventIds[..i], reason, now).Ok?
    ensures ArchiveRows(t, rows[..i + 1], eventIds[..i + 1], reason, now) ==
      ArchiveOne(ArchiveRows(t, rows[..i], eventIds[..i], reason, now).value, rows[i], eventIds[i], reason, now)
  {
    assert rows[..i + 1][..i] == rows[..i] && eventIds[..i + 1][..i] == eventIds[..i];
  }

  /** One iteration, from the tables `t1` that the iterations before it have made. */
  lemma ArchiveTurn(t: Tables, rows: seq<string>, eventIds: seq<string>, reason: string, now: Time, i: nat, t1: Tables)
    requires |rows| == |eventIds| && i < |rows| && Present(t, rows)
    requires ArchiveRows(t, rows[..i], eventIds[..i], reason, now) == Ok(t1)
    requires rows[i] in t1.matches && t1.matches[rows[i]] == t.matches[rows[i]]
    ensures match Archive(t.matches[rows[i]], now)
      case Err(e) => ArchiveRows(t, rows, eventIds, reason, now) == Err(e)
      case Ok(next) =>
        var row := Outbox.NewRow(MatchArchived(rows[i], reason), rows[i], now);
        var t2 := t1.(matches := t1.matches[rows[i] := next], outbox := t1.outbox[eventIds[i] := row]);
        if eventIds[i] in t1.outbox then ArchiveRows(t, rows, eventIds, reason, now) == Err(StorageFailure)
        else ArchiveRows(t, rows[..i + 1], eventIds[..i + 1], reason, now) == Ok(t2)
  {
    ArchiveStep(t, rows, eventIds, reason, now, i);
    if ArchiveRows(t, rows[..i + 1], eventIds[..i + 1], reason, now).Err? {
      FailureStays(t, rows, eventIds, reason, now, i + 1);
    }
  }

  /** A loop iteration that fails makes the whole transaction fail with the same error. */
  lemma {:induction false} FailureStays(t: Tables, rows: seq<string>, eventIds: seq<string>, reason: string, now: Time,
                                        n: nat)
    requires |rows| == |eventIds| && n <= |rows|
    requires Present(t, rows)
    requires ArchiveRows(t, rows[..n], eventIds[..n], reason, now).Err?
    ensures ArchiveRows(t, rows, eventIds, reason, now) == ArchiveRows(t, rows[..n], eventIds[..n], reason, now)
    decreases |rows| - n
  {
    if n < |rows| {
      assert rows[..n + 1][..n] == rows[..n] && eventIds[..n + 1][..n] == eventIds[..n];
      FailureStays(t, rows, eventIds, reason, now, n + 1);
    } else {
      assert rows[..n] == rows && eventIds[..n] == eventIds;
    }
  }
}
