/**
 When each call of the matching service is accepted, and what an accepted call leaves behind, in the command's terms.
 */
module MatchingOutcomes {
  import opened Common
  import opened Text
  import opened MatchingDomain
  import opened MatchingTables
  import opened MatchingRuns
  import Outbox

  // ---------- Recording a swipe ----------

  predicate Swiped(swipes: Swipes, actorId: string, animalId: string) {
    exists id :: id in swipes && swipes[id].actorId == actorId && swipes[id].animalId == animalId
  }

  /** The five required fields are there. */
  predicate Complete(cmd: Command) {
    && TrimSpace(cmd.actorId) != "" && TrimSpace(cmd.animalId) != "" && TrimSpace(cmd.ownerId) != ""
    && TrimSpace(cmd.key) != "" && cmd.direction in {Left, Right}
  }

  /** The animal has not been made unavailable. */
  predicate Offered(t: Tables, animalId: string) {
    animalId !in t.availability || t.availability[animalId]
  }

  /** The time and what the identifier generator drew can be stored; a match needs two more identifiers. */
  predicate DrawFits(t: Tables, direction: Direction, draw: Draw, now: Time) {
    && now != ZERO_TIME && TrimSpace(draw.swipeId) != "" && TrimSpace(draw.swipeId) !in t.swipes
    && draw.swipeEventId !in t.outbox
    && (direction == Right ==>
          && TrimSpace(draw.matchId) != "" && TrimSpace(draw.matchId) !in t.matches
          && draw.matchEventId !in t.outbox && draw.matchEventId != draw.swipeEventId)
  }

  function SwipeOf(cmd: Command, draw: Draw, now: Time): Swipe {
    Swipe(TrimSpace(draw.swipeId), TrimSpace(cmd.actorId), cmd.actorIsGuest, TrimSpace(cmd.animalId),
          TrimSpace(cmd.ownerId), cmd.direction, TrimSpace(cmd.feedCardId), TrimSpace(cmd.feedSessionId), now)
  }

  function MatchOf(cmd: Command, draw: Draw, now: Time): Match {
    Match(TrimSpace(draw.matchId), TrimSpace(cmd.animalId), TrimSpace(cmd.actorId), TrimSpace(cmd.ownerId), "", Active,
          now, now)
  }

  /** An event in the outbox that nobody has tried to deliver yet. */
  function Waiting(event: Event, partitionKey: string, createdAt: Time): Outbox.Row<Event> {
    Outbox.Row(event, partitionKey, createdAt, 0, "", None, None)
  }

  /** The tables with the command's swipe, its announcement and its key, and for a right swipe its match. */
  function TablesWith(t: Tables, cmd: Command, draw: Draw, now: Time): Tables {
    var swipe, m, key := SwipeOf(cmd, draw, now), MatchOf(cmd, draw, now), TrimSpace(cmd.key);
    var o := t.outbox[draw.swipeEventId := Waiting(SwipeRecorded(swipe, key), swipe.actorId, now)];
    if cmd.direction == Left then
      t.(swipes := t.swipes[swipe.id := swipe], outbox := o,
         keys := t.keys[key := KeyRow(swipe.actorId, swipe.id, "")])
    else
      t.(swipes := t.swipes[swipe.id := swipe], matches := t.matches[m.id := m],
         outbox := o[draw.matchEventId := Waiting(MatchCreated(m, swipe, key), m.id, now)],
         keys := t.keys[key := KeyRow(swipe.actorId, swipe.id, m.id)])
  }

  lemma MatchedIsSwiped(t: Tables, actorId: string, animalId: string)
    requires Paired(t.swipes, t.matches) && AlreadyMatched(t.matches, actorId, animalId)
    ensures Swiped(t.swipes, actorId, animalId)
  {
    var id :| id in t.matches && t.matches[id].adopterId == actorId && t.matches[id].animalId == animalId;
    assert HasSwipe(t.swipes, t.matches[id]);
  }

  lemma NormalizedSwipe(cmd: Command, draw: Draw, now: Time)
    ensures var n := NormalizeCommand(cmd);
      && n.key == TrimSpace(cmd.key) && n.animalId == TrimSpace(cmd.animalId) && n.actorId == TrimSpace(cmd.actorId)
      && (ValidCommand(cmd) <==> Complete(cmd))
      && (NewSwipe(draw.swipeId, n, now).Ok? <==> Complete(cmd) && TrimSpace(draw.swipeId) != "" && now != ZERO_TIME)
      && (NewSwipe(draw.swipeId, n, now).Ok? ==> NewSwipe(draw.swipeId, n, now).value == SwipeOf(cmd, draw, now))
      && (NewSwipe(draw.swipeId, n, now).Err? ==> NewSwipe(draw.swipeId, n, now).error == InvalidArgument)
  {
    TrimSpaceFixed(TrimSpace(cmd.actorId));
    TrimSpaceFixed(TrimSpace(cmd.animalId));
    TrimSpaceFixed(TrimSpace(cmd.ownerId));
    TrimSpaceFixed(TrimSpace(cmd.feedCardId));
    TrimSpaceFixed(TrimSpace(cmd.feedSessionId));
    TrimSpaceFixed(TrimSpace(cmd.key));
  }

  lemma MatchFromSwipe(cmd: Command, draw: Draw, now: Time)
    requires Complete(cmd) && now != ZERO_TIME && cmd.direction == Right
    ensures var r := NewMatchFromSwipe(draw.matchId, SwipeOf(cmd, draw, now));
      && (r.Ok? <==> TrimSpace(draw.matchId) != "")
      && (r.Ok? ==> r.value == MatchOf(cmd, draw, now))
  {
    TrimSpaceFixed(TrimSpace(cmd.actorId));
    TrimSpaceFixed(TrimSpace(cmd.animalId));
    TrimSpaceFixed(TrimSpace(cmd.ownerId));
  }

  predicate Recordable(t: Tables, cmd: Command, draw: Draw, now: Time) {
    && Complete(cmd) && TrimSpace(cmd.key) !in t.keys && Offered(t, TrimSpace(cmd.animalId))
    && !Swiped(t.swipes, TrimSpace(cmd.actorId), TrimSpace(cmd.animalId)) && DrawFits(t, cmd.direction, draw, now)
  }

  /** A left swipe leaves a swipe alone, a right swipe a match as well. */
  function AnswerTo(cmd: Command, draw: Draw, now: Time): Recorded {
    var right := cmd.direction == Right;
    Recorded(SwipeOf(cmd, draw, now), if right then Some(MatchOf(cmd, draw, now)) else None, right, false, false, "")
  }

  lemma FirstInsert(t: Tables, cmd: Command, draw: Draw, now: Time)
    ensures var swipe, key := SwipeOf(cmd, draw, now), TrimSpace(cmd.key);
      var r := InsertSwipe(t, swipe, key, draw.swipeEventId, now);
      && (r.Ok? <==> && TrimSpace(draw.swipeId) !in t.swipes && draw.swipeEventId !in t.outbox
                     && !Swiped(t.swipes, TrimSpace(cmd.actorId), TrimSpace(cmd.animalId)))
      && (r.Ok? ==> r.value == t.(swipes := t.swipes[swipe.id := swipe],
            outbox := t.outbox[draw.swipeEventId := Waiting(SwipeRecorded(swipe, key), swipe.actorId, now)]))
      && (r == Err(DuplicateSwipe) <==> && TrimSpace(draw.swipeId) !in t.swipes
                                        && Swiped(t.swipes, TrimSpace(cmd.actorId), TrimSpace(cmd.animalId)))
      && (r.Err? ==> r.error in {DuplicateSwipe, StorageFailure})
  {
  }

  lemma SecondInsert(t: Tables, t1: Tables, cmd: Command, draw: Draw, now: Time)
    requires Paired(t.swipes, t.matches) && !Swiped(t.swipes, TrimSpace(cmd.actorId), TrimSpace(cmd.animalId))
    requires t1.matches == t.matches && t1.outbox.Keys == t.outbox.Keys + {draw.swipeEventId}
    ensures var m, swipe, key := MatchOf(cmd, draw, now), SwipeOf(cmd, draw, now), TrimSpace(cmd.key);
      var r := InsertMatch(t1, m, swipe, key, draw.matchEventId, now);
      && (r.Ok? <==> && TrimSpace(draw.matchId) !in t.matches && draw.matchEventId !in t.outbox
                     && draw.matchEventId != draw.swipeEventId)
      && (r.Ok? ==> r.value == t1.(matches := t1.matches[m.id := m],
            outbox := t1.outbox[draw.matchEventId := Waiting(MatchCreated(m, swipe, key), m.id, now)]))
      && (r.Err? ==> r.error == StorageFailure)
  {
    if AlreadyMatched(t1.matches, TrimSpace(cmd.actorId), TrimSpace(cmd.animalId)) {
      MatchedIsSwiped(t, TrimSpace(cmd.actorId), TrimSpace(cmd.animalId));
    }
  }

  lemma Accepted(t: Tables, cmd: Command, draw: Draw, now: Time)
    requires Paired(t.swipes, t.matches) && Recordable(t, cmd, draw, now)
    ensures ServiceRecord(t, cmd, draw, now) == (TablesWith(t, cmd, draw, now), Ok(AnswerTo(cmd, draw, now)))
  {
    NormalizedSwipe(cmd, draw, now);
    FirstInsert(t, cmd, draw, now);
    if cmd.direction == Right {
      MatchFromSwipe(cmd, draw, now);
      SecondInsert(t, InsertSwipe(t, SwipeOf(cmd, draw, now), TrimSpace(cmd.key), draw.swipeEventId, now).value,
                   cmd, draw, now);
    }
  }

  /** Why a command is not recorded; what fails after the swipe's own insert is a storage failure. */
  predicate RefusalFits(t: Tables, cmd: Command, draw: Draw, now: Time, error: Error) {
    if !Complete(cmd) then error == InvalidArgument
    else if !Offered(t, TrimSpace(cmd.animalId)) then error == UnavailableAnimal
    else if now == ZERO_TIME || TrimSpace(draw.swipeId) == "" then error == InvalidArgument
    else if TrimSpace(draw.swipeId) in t.swipes then error == StorageFailure
    else if Swiped(t.swipes, TrimSpace(cmd.actorId), TrimSpace(cmd.animalId)) then error == DuplicateSwipe
    else if draw.swipeEventId in t.outbox then error == StorageFailure
    else error == if TrimSpace(draw.matchId) == "" then InvalidArgument else StorageFailure
  }

  lemma Refused(t: Tables, cmd: Command, draw: Draw, now: Time)
    requires Paired(t.swipes, t.matches) && !Recordable(t, cmd, draw, now)
    requires Complete(cmd) ==> TrimSpace(cmd.key) !in t.keys
    ensures var (t', reply) := ServiceRecord(t, cmd, draw, now);
      t' == t && reply.Err? && RefusalFits(t, cmd, draw, now, reply.error)
  {
    NormalizedSwipe(cmd, draw, now);
    FirstInsert(t, cmd, draw, now);
    var first := InsertSwipe(t, SwipeOf(cmd, draw, now), TrimSpace(cmd.key), draw.swipeEventId, now);
    if Complete(cmd) && now != ZERO_TIME && first.Ok? && cmd.direction == Right {
      MatchFromSwipe(cmd, draw, now);
      SecondInsert(t, first.value, cmd, draw, now);
    }
  }

  /**
   A swipe is recorded exactly when the command is complete, its key unused, the animal offered, the pair not swiped yet
   and what was drawn is storable; then the tables and the answer are those of this very command.
   */
  lemma RecordedExactly(t: Tables, cmd: Command, draw: Draw, now: Time)
    requires Inv(t)
    ensures var (t', reply) := ServiceRecord(t, cmd, draw, now);
      && (reply.Ok? && !reply.value.idempotent <==> Recordable(t, cmd, draw, now))
      && (Recordable(t, cmd, draw, now) ==>
            t' == TablesWith(t, cmd, draw, now) && reply == Ok(AnswerTo(cmd, draw, now)))
      && (!Recordable(t, cmd, draw, now) ==> t' == t)
  {
    if Recordable(t, cmd, draw, now) {
      Accepted(t, cmd, draw, now);
    } else if Complete(cmd) && TrimSpace(cmd.key) in t.keys {
      ReplayedExactly(t, cmd, draw, now);
    } else {
      Refused(t, cmd, draw, now);
    }
  }

  /**
   A complete command under an unused key is refused for its animal, or for an earlier swipe of the pair, exactly so.
   */
  lemma RefusedExactly(t: Tables, cmd: Command, draw: Draw, now: Time)
    requires Inv(t)
    ensures var reply := ServiceRecord(t, cmd, draw, now).1;
      var open := Complete(cmd) && TrimSpace(cmd.key) !in t.keys;
      && (reply == Err(UnavailableAnimal) <==> open && !Offered(t, TrimSpace(cmd.animalId)))
      && (reply == Err(DuplicateSwipe) <==>
            && open && Offered(t, TrimSpace(cmd.animalId)) && now != ZERO_TIME && TrimSpace(draw.swipeId) != ""
            && TrimSpace(draw.swipeId) !in t.swipes
            && Swiped(t.swipes, TrimSpace(cmd.actorId), TrimSpace(cmd.animalId)))
      && (!Complete(cmd) ==> reply == Err(InvalidArgument))
  {
    if Recordable(t, cmd, draw, now) {
      Accepted(t, cmd, draw, now);
    } else if Complete(cmd) && TrimSpace(cmd.key) in t.keys {
      ReplayedExactly(t, cmd, draw, now);
    } else {
      Refused(t, cmd, draw, now);
    }
  }

  /**
   A complete command under a stored key is answered with that key's swipe, match and conversation as they are now.
   */
  lemma ReplayedExactly(t: Tables, cmd: Command, draw: Draw, now: Time)
    requires Inv(t)
    requires Complete(cmd) && TrimSpace(cmd.key) in t.keys
    ensures var (t', reply) := ServiceRecord(t, cmd, draw, now);
      var row := t.keys[TrimSpace(cmd.key)];
      && t' == t && row.swipeId in t.swipes && (row.matchId != "" ==> row.matchId in t.matches)
      && var m := if row.matchId == "" then None else Some(t.matches[row.matchId]);
         var conversation := if m.Some? then m.value.conversationId else "";
         reply == Ok(Recorded(t.swipes[row.swipeId], m, false, true, conversation != "", conversation))
  {
    NormalizedSwipe(cmd, draw, now);
    assert KeyRowOk(t.swipes, t.matches, t.keys[TrimSpace(cmd.key)]);
  }

  // ---------- Attaching a conversation ----------

  /** The trimmed match has no conversation yet, or this one. */
  predicate Attachable(t: Tables, matchId: string, conversationId: string) {
    matchId in t.matches && t.matches[matchId].conversationId in {"", conversationId}
  }

  /** An attachment is accepted exactly then, and then the match has the conversation and nothing else has changed. */
  lemma AttachedExactly(t: Tables, matchId: string, conversationId: string, now: Time)
    ensures var (t', r) := AttachConversation(t, matchId, conversationId, now);
      && (r == Ok(()) <==> Attachable(t, matchId, conversationId))
      && (r.Err? ==> r.error == NotFound && t' == t)
      && (r.Ok? ==>
            && t'.matches.Keys == t.matches.Keys && t'.matches[matchId].conversationId == conversationId
            && t'.matches[matchId].updatedAt == now && t'.matches[matchId].status == t.matches[matchId].status
            && (forall id :: id in t.matches && id != matchId ==> t'.matches[id] == t.matches[id])
            && t'.swipes == t.swipes && t'.keys == t.keys && t'.outbox == t.outbox && t'.availability == t.availability)
  {
  }

  /** From then on, over every run, the match keeps that conversation, and no other can be attached. */
  lemma AttachedForGood(t: Tables, matchId: string, conversationId: string, now: Time, steps: seq<Step>, other: string,
                        later: Time)
    requires Inv(t) && AttachConversation(t, matchId, conversationId, now).1.Ok? && conversationId != ""
    requires IsRun(AttachConversation(t, matchId, conversationId, now).0, steps)
    ensures var end := Run(AttachConversation(t, matchId, conversationId, now).0, steps);
      && matchId in end.matches && end.matches[matchId].conversationId == conversationId
      && (AttachConversation(end, matchId, other, later).1.Ok? <==> other == conversationId)
  {
    var t1 := AttachConversation(t, matchId, conversationId, now).0;
    AttachKeeps(t, matchId, conversationId, now);
    AttachedExactly(t, matchId, conversationId, now);
    ConversationStays(t1, matchId, steps);
    AttachedExactly(Run(t1, steps), matchId, other, later);
  }

  lemma ConversationStays(t: Tables, matchId: string, steps: seq<Step>)
    requires Inv(t) && matchId in t.matches && t.matches[matchId].conversationId != "" && IsRun(t, steps)
    ensures var end := Run(t, steps);
      matchId in end.matches && end.matches[matchId].conversationId == t.matches[matchId].conversationId
  {
    RunKeeps(t, steps);
    assert MatchEvolves(t.matches[matchId], Run(t, steps).matches[matchId]);
  }

  // ---------- Archiving ----------

  /** The matches after archiving the selected ones: only their status and their time have changed. */
  function ArchivedMatches(matches: Matches, rows: seq<string>, now: Time): Matches {
    map id | id in matches :: if id in rows then matches[id].(status := Archived, updatedAt := now) else matches[id]
  }

  /** The i-th selected match is announced under the i-th drawn identifier, with the reason given. */
  ghost predicate Announced(o: Outbox.Table<Event>, o': Outbox.Table<Event>, rows: seq<string>, eventIds: seq<string>,
                            reason: string, now: Time)
    requires |rows| == |eventIds|
  {
    && (forall e :: e in o' <==> e in o || e in eventIds)
    && (forall e :: e in o ==> e in o' && o'[e] == o[e])
    && (forall i :: 0 <= i < |rows| ==>
          eventIds[i] in o' && o'[eventIds[i]] == Waiting(MatchArchived(rows[i], reason), rows[i], now))
  }

  ghost predicate EventsFit(o: Outbox.Table<Event>, eventIds: seq<string>) {
    Outbox.Distinct(eventIds) && forall e :: e in eventIds ==> e !in o
  }

  lemma ArchiveLast(t: Tables, t1: Tables, rows: seq<string>, eventIds: seq<string>, reason: string, now: Time)
    requires |rows| == |eventIds| > 0 && Present(t, rows) && Outbox.Distinct(rows) && EventsFit(t.outbox, eventIds)
    requires now != ZERO_TIME && TrimSpace(t.matches[rows[|rows| - 1]].id) != ""
    requires var n := |rows| - 1;
      && t1 == t.(matches := ArchivedMatches(t.matches, rows[..n], now), outbox := t1.outbox)
      && Announced(t.outbox, t1.outbox, rows[..n], eventIds[..n], reason, now)
    ensures var r := ArchiveOne(t1, rows[|rows| - 1], eventIds[|rows| - 1], reason, now);
      && r.Ok? && r.value == t.(matches := ArchivedMatches(t.matches, rows, now), outbox := r.value.outbox)
      && Announced(t.outbox, r.value.outbox, rows, eventIds, reason, now)
  {
    var n := |rows| - 1;
    assert rows == rows[..n] + [rows[n]] && eventIds == eventIds[..n] + [eventIds[n]];
    assert eventIds[n] in eventIds;
    assert rows[n] !in rows[..n] && eventIds[n] !in eventIds[..n];
    var r := ArchiveOne(t1, rows[n], eventIds[n], reason, now).value;
    assert r.matches == ArchivedMatches(t.matches, rows, now);
    AnnouncedOneMore(t.outbox, t1.outbox, rows, eventIds, reason, now);
  }

  lemma AnnouncedOneMore(o: Outbox.Table<Event>, o1: Outbox.Table<Event>, rows: seq<string>, eventIds: seq<string>,
                         reason: string, now: Time)
    requires |rows| == |eventIds| > 0 && EventsFit(o, eventIds)
    requires Announced(o, o1, rows[..|rows| - 1], eventIds[..|rows| - 1], reason, now)
    ensures var n := |rows| - 1;
      Announced(o, o1[eventIds[n] := Waiting(MatchArchived(rows[n], reason), rows[n], now)],
                rows, eventIds, reason, now)
  {
    var n := |rows| - 1;
    assert eventIds == eventIds[..n] + [eventIds[n]];
    forall i | 0 <= i < n ensures eventIds[i] in o1 && eventIds[i] != eventIds[n] {
      assert eventIds[..n][i] == eventIds[i] && rows[..n][i] == rows[i];
    }
  }

  lemma FirstFit(o: Outbox.Table<Event>, eventIds: seq<string>)
    requires eventIds != [] && EventsFit(o, eventIds)
    ensures EventsFit(o, eventIds[..|eventIds| - 1])
  {
  }

  lemma {:induction false} ArchivesAll(t: Tables, rows: seq<string>, eventIds: seq<string>, reason: string, now: Time)
    requires MatchRows(t.matches) && |rows| == |eventIds| && Present(t, rows) && Outbox.Distinct(rows)
    requires EventsFit(t.outbox, eventIds) && (rows != [] ==> now != ZERO_TIME)
    ensures var r := ArchiveRows(t, rows, eventIds, reason, now);
      && r.Ok? && r.value == t.(matches := ArchivedMatches(t.matches, rows, now), outbox := r.value.outbox)
      && Announced(t.outbox, r.value.outbox, rows, eventIds, reason, now)
    decreases |rows|
  {
    if rows == [] {
      assert ArchivedMatches(t.matches, rows, now) == t.matches;
    } else {
      var n := |rows| - 1;
      FirstFit(t.outbox, eventIds);
      ArchivesAll(t, rows[..n], eventIds[..n], reason, now);
      ArchiveLast(t, ArchiveRows(t, rows[..n], eventIds[..n], reason, now).value, rows, eventIds, reason, now);
    }
  }

  /** A loop that gets through had a time and unused identifiers, each drawn once. */
  lemma {:induction false} ArchivesOnlyFitting(t: Tables, rows: seq<string>, eventIds: seq<string>, reason: string,
                                               now: Time)
    requires |rows| == |eventIds| && Present(t, rows) && ArchiveRows(t, rows, eventIds, reason, now).Ok?
    ensures EventsFit(t.outbox, eventIds) && (rows != [] ==> now != ZERO_TIME)
    ensures var o' := ArchiveRows(t, rows, eventIds, reason, now).value.outbox;
      (forall e :: e in t.outbox ==> e in o') && (forall e :: e in eventIds ==> e in o')
    decreases |rows|
  {
    if rows != [] {
      var n := |rows| - 1;
      ArchiveRowsLast(t, rows, eventIds, reason, now);
      ArchivesOnlyFitting(t, rows[..n], eventIds[..n], reason, now);
      var t1 := ArchiveRows(t, rows[..n], eventIds[..n], reason, now).value;
      assert eventIds == eventIds[..n] + [eventIds[n]] && eventIds[n] !in t1.outbox;
      forall i | 0 <= i < n ensures eventIds[i] != eventIds[n] {
        assert eventIds[i] in eventIds[..n];
      }
    }
  }

  /**
   Archiving an animal's matches succeeds exactly when the time and the drawn identifiers can be stored; then exactly
   its active matches are archived at that time, each announced once with the reason, and answered in order. Otherwise
   nothing changes.
   */
  lemma ArchivedExactly(t: Tables, animalId: string, reason: string, rows: seq<string>, eventIds: seq<string>,
                        now: Time)
    requires Inv(t) && |rows| == |eventIds| && IsSelection(t, animalId, rows)
    ensures var (t', r) := ArchiveMatches(t, rows, eventIds, reason, now);
      && (r.Ok? <==> EventsFit(t.outbox, eventIds) && (rows != [] ==> now != ZERO_TIME))
      && (r.Err? ==> t' == t)
      && (r.Ok? ==>
            && t' == t.(matches := t'.matches, outbox := t'.outbox) && t'.matches.Keys == t.matches.Keys
            && Announced(t.outbox, t'.outbox, rows, eventIds, reason, now)
            && (forall id :: id in t.matches ==>
                  t'.matches[id] == if t.matches[id].animalId == animalId && t.matches[id].status == Active
                                    then t.matches[id].(status := Archived, updatedAt := now) else t.matches[id])
            && |r.value| == |rows| && forall i :: 0 <= i < |rows| ==> r.value[i] == t'.matches[rows[i]])
  {
    if EventsFit(t.outbox, eventIds) && (rows != [] ==> now != ZERO_TIME) {
      ArchivesAll(t, rows, eventIds, reason, now);
    } else if ArchiveRows(t, rows, eventIds, reason, now).Ok? {
      ArchivesOnlyFitting(t, rows, eventIds, reason, now);
    }
  }

  // ---------- Availability ----------

  /** What a consumed event does, with its fields trimmed; one without its identifiers does nothing. */
  lemma HandledExactly(t: Tables, id: string, conversationId: string, available: bool, now: Time)
    ensures Apply(t, ConversationCreated(id, conversationId, now))
         == if TrimSpace(id) != "" && TrimSpace(conversationId) != ""
               && Attachable(t, TrimSpace(id), TrimSpace(conversationId))
            then t.(matches := t.matches[TrimSpace(id) := t.matches[TrimSpace(id)].(
                      conversationId := TrimSpace(conversationId), updatedAt := now)])
            else t
    ensures Apply(t, SetAvailable(id, available))
         == if TrimSpace(id) != "" then t.(availability := t.availability[TrimSpace(id) := available]) else t
  {
  }

  /** An archiving without an animal is refused; the others archive the trimmed animal with the trimmed reason. */
  lemma ArchivingHandledExactly(t: Tables, animalId: string, rows: seq<string>, eventIds: seq<string>, reason: string,
                                now: Time)
    requires TrimSpace(animalId) != "" ==> |rows| == |eventIds| && Present(t, rows)
    ensures TrimSpace(animalId) == "" ==>
      ServiceArchive(t, animalId, rows, eventIds, reason, now) == (t, Err(InvalidArgument))
    ensures TrimSpace(animalId) != "" ==>
      ServiceArchive(t, animalId, rows, eventIds, reason, now)
      == ArchiveMatches(t, rows, eventIds, TrimSpace(reason), now)
  {
  }

  /** What is set is what the next swipe finds, for this animal and no other. */
  lemma OfferedAsSet(t: Tables, animalId: string, available: bool, other: string)
    ensures var t' := SetAvailability(t, animalId, available);
      && (Offered(t', other) <==> if other == animalId then available else Offered(t, other))
      && t'.swipes == t.swipes && t'.matches == t.matches && t'.keys == t.keys && t'.outbox == t.outbox
  {
  }
}
