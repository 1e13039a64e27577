/**
 What each transaction of the matching store does to the tables, as a function of the tables before it. A
 transaction that fails leaves the tables as they were. Primary keys and unique indexes are the database's, so an
 identifier drawn twice is an error and not an assumption.
 */
module MatchingTables {
  import opened Common
  import opened MatchingDomain
  import Outbox

  datatype Event =
    | SwipeRecorded(swipe: Swipe, key: string)
    | MatchCreated(created: Match, from: Swipe, key: string)
    | MatchArchived(matchId: string, reason: string)

  datatype KeyRow = KeyRow(actorId: string, swipeId: string, matchId: string)

  datatype Tables = Tables(
    swipes: map<string, Swipe>,
    matches: map<string, Match>,
    keys: map<string, KeyRow>,
    availability: map<string, bool>,
    outbox: Outbox.Table<Event>)

  const EMPTY := Tables(map[], map[], map[], map[], map[])

  /** The identifiers `uuid.NewString` yields during one `RecordSwipe`. */
  datatype Draw = Draw(swipeId: string, matchId: string, swipeEventId: string, matchEventId: string)

  datatype Recorded = Recorded(
    swipe: Swipe,
    matched: Option<Match>,
    createdMatch: bool,
    idempotent: bool,
    chatCreated: bool,
    conversationId: string)

  type Reply = Result<Recorded, Error>

  function Available(availability: map<string, bool>, animalId: string): bool {
    animalId in availability ==> availability[animalId]
  }

  predicate AlreadySwiped(swipes: map<string, Swipe>, actorId: string, animalId: string) {
    exists id :: id in swipes && swipes[id].actorId == actorId && swipes[id].animalId == animalId
  }

  predicate AlreadyMatched(matches: map<string, Match>, adopterId: string, animalId: string) {
    exists id :: id in matches && matches[id].status == Active
                 && matches[id].adopterId == adopterId && matches[id].animalId == animalId
  }

  /** `findIdempotency`, for a key that has a row. */
  function Replay(t: Tables, key: string): Reply
    requires key in t.keys
  {
    var row := t.keys[key];
    if row.swipeId !in t.swipes then Err(StorageFailure)
    else if row.matchId == "" then Ok(Recorded(t.swipes[row.swipeId], None, false, true, false, ""))
    else if row.matchId !in t.matches then Err(StorageFailure)
    else
      var m := t.matches[row.matchId];
      Ok(Recorded(t.swipes[row.swipeId], Some(m), false, true, m.conversationId != "", m.conversationId))
  }

  function InsertSwipe(t: Tables, swipe: Swipe, key: string, eventId: string, now: Time): Result<Tables, Error> {
    if swipe.id in t.swipes then Err(StorageFailure)
    else if AlreadySwiped(t.swipes, swipe.actorId, swipe.animalId) then Err(DuplicateSwipe)
    else if eventId in t.outbox then Err(StorageFailure)
    else Ok(t.(swipes := t.swipes[swipe.id := swipe],
               outbox := t.outbox[eventId := Outbox.NewRow(SwipeRecorded(swipe, key), swipe.actorId, now)]))
  }

  function InsertMatch(t: Tables, m: Match, swipe: Swipe, key: string, eventId: string, now: Time)
    : Result<Tables, Error>
  {
    if m.id in t.matches || AlreadyMatched(t.matches, m.adopterId, m.animalId) then Err(StorageFailure)
    else if eventId in t.outbox then Err(StorageFailure)
    else Ok(t.(matches := t.matches[m.id := m],
               outbox := t.outbox[eventId := Outbox.NewRow(MatchCreated(m, swipe, key), m.id, now)]))
  }

  /** `RecordSwipe`: the tables after it and its reply. */
  function RecordSwipe(t: Tables, cmd: Command, draw: Draw, now: Time): (Tables, Reply) {
    if cmd.key in t.keys then (t, Replay(t, cmd.key))
    else if !Available(t.availability, cmd.animalId) then (t, Err(UnavailableAnimal))
    else match NewSwipe(draw.swipeId, cmd, now)
      case Err(e) => (t, Err(e))
      case Ok(swipe) =>
        match InsertSwipe(t, swipe, cmd.key, draw.swipeEventId, now)
        case Err(e) => (t, Err(e))
        case Ok(t1) =>
          if swipe.direction != Right then
            (t1.(keys := t1.keys[cmd.key := KeyRow(cmd.actorId, swipe.id, "")]),
             Ok(Recorded(swipe, None, false, false, false, "")))
          else match NewMatchFromSwipe(draw.matchId, swipe)
            case Err(e) => (t, Err(e))
            case Ok(m) =>
              match InsertMatch(t1, m, swipe, cmd.key, draw.matchEventId, now)
              case Err(e) => (t, Err(e))
              case Ok(t2) =>
                (t2.(keys := t2.keys[cmd.key := KeyRow(cmd.actorId, swipe.id, m.id)]),
                 Ok(Recorded(swipe, Some(m), true, false, false, "")))
  }

  /** `UpdateMatchConversation`. */
  function AttachConversation(t: Tables, matchId: string, conversationId: string, now: Time)
    : (Tables, Result<(), Error>)
  {
    if matchId in t.matches && t.matches[matchId].conversationId in {"", conversationId} then
      (t.(matches := t.matches[matchId := t.matches[matchId].(conversationId := conversationId, updatedAt := now)]),
       Ok(()))
    else (t, Err(NotFound))
  }

  ghost function ActiveMatches(t: Tables, animalId: string): set<string> {
    set id | id in t.matches && t.matches[id].animalId == animalId && t.matches[id].status == Active
  }

  /** `rows` is one of the orders in which the selecting query may return the active matches of an animal. */
  ghost predicate IsSelection(t: Tables, animalId: string, rows: seq<string>) {
    && Outbox.Distinct(rows)
    && (forall i :: 0 <= i < |rows| ==> rows[i] in ActiveMatches(t, animalId))
    && (forall id :: id in ActiveMatches(t, animalId) ==> id in rows)
  }

  predicate Present(t: Tables, rows: seq<string>) {
    forall i :: 0 <= i < |rows| ==> rows[i] in t.matches
  }

  function ArchiveOne(t: Tables, id: string, eventId: string, reason: string, now: Time): Result<Tables, Error>
    requires id in t.matches
  {
    match Archive(t.matches[id], now)
    case Err(e) => Err(e)
    case Ok(next) =>
      if eventId in t.outbox then Err(StorageFailure)
      else Ok(t.(matches := t.matches[id := next],
                 outbox := t.outbox[eventId := Outbox.NewRow(MatchArchived(id, reason), id, now)]))
  }

  /** The archiving loop over the selected rows, the i-th with the i-th drawn event id. */
  function ArchiveRows(t: Tables, rows: seq<string>, eventIds: seq<string>, reason: string, now: Time)
    : (r: Result<Tables, Error>)
    requires |rows| == |eventIds|
    requires Present(t, rows)
    ensures r.Ok? ==> r.value.matches.Keys == t.matches.Keys
    decreases |rows|
  {
    if rows == [] then Ok(t)
    else
      var last := |rows| - 1;
      match ArchiveRows(t, rows[..last], eventIds[..last], reason, now)
      case Err(e) => Err(e)
      case Ok(t1) => ArchiveOne(t1, rows[last], eventIds[last], reason, now)
  }

  function Lookup(matches: map<string, Match>, rows: seq<string>): (r: seq<Match>)
    requires forall i :: 0 <= i < |rows| ==> rows[i] in matches
    ensures |r| == |rows|
    ensures forall i :: 0 <= i < |rows| ==> r[i] == matches[rows[i]]
  {
    seq(|rows|, i requires 0 <= i < |rows| => matches[rows[i]])
  }

  /** `ArchiveMatchesByAnimal`: the tables after it and the archived matches. */
  function ArchiveMatches(t: Tables, rows: seq<string>, eventIds: seq<string>, reason: string, now: Time)
    : (Tables, Result<seq<Match>, Error>)
    requires |rows| == |eventIds|
    requires Present(t, rows)
  {
    match ArchiveRows(t, rows, eventIds, reason, now)
    case Err(e) => (t, Err(e))
    case Ok(t1) => (t1, Ok(Lookup(t1.matches, rows)))
  }

  /** `SetAnimalAvailability`. The owner column is written and never read again, so it is not kept. */
  function SetAvailability(t: Tables, animalId: string, available: bool): Tables {
    t.(availability := t.availability[animalId := available])
  }
}
