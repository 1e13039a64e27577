/**
 Runs of the matching service: every interleaving of its transactions and of the outbox statements, one atomic step
 each, from the empty tables.
 */
module MatchingRuns {
  import opened Common
  import opened Text
  import opened MatchingDomain
  import opened MatchingTables
  import Outbox

  /**
   One committed or failed transaction. `SetAvailable` and then `ArchiveAnimal` are the two transactions of
   `HandleAnimalStatusChanged`; other steps may come between them.
   */
  datatype Step =
    | Record(cmd: Command, draw: Draw, now: Time)
    | ConversationCreated(matchId: string, conversationId: string, now: Time)
    | SetAvailable(animalId: string, available: bool)
    | ArchiveAnimal(animalId: string, reason: string, rows: seq<string>, eventIds: seq<string>, now: Time)
    | Fetch(limit: int, picked: seq<string>, now: Time)
    | Published(eventId: string, now: Time)
    | Failed(eventId: string, cause: string)

  /** `Service.RecordSwipe`: validate, normalize, record. */
  function ServiceRecord(t: Tables, cmd: Command, draw: Draw, now: Time): (Tables, Reply) {
    if !ValidCommand(cmd) then (t, Err(InvalidArgument)) else RecordSwipe(t, NormalizeCommand(cmd), draw, now)
  }

  function ServiceArchive(t: Tables, animalId: string, rows: seq<string>, eventIds: seq<string>, reason: string,
                          now: Time)
    : (Tables, Result<seq<Match>, Error>)
    requires TrimSpace(animalId) != "" ==> |rows| == |eventIds| && Present(t, rows)
  {
    if TrimSpace(animalId) == "" then (t, Err(InvalidArgument))
    else ArchiveMatches(t, rows, eventIds, TrimSpace(reason), now)
  }

  /** What the database chooses must be something the query can return. */
  ghost predicate Enabled(t: Tables, step: Step) {
    match step
    case ArchiveAnimal(animalId, _, rows, eventIds, _) =>
      TrimSpace(animalId) != "" ==> |rows| == |eventIds| && IsSelection(t, TrimSpace(animalId), rows)
    case Fetch(limit, picked, now) => Outbox.ValidPick(t.outbox, picked, limit, now)
    case _ => true
  }

  ghost function Apply(t: Tables, step: Step): Tables
    requires Enabled(t, step)
  {
    match step
    case Record(cmd, draw, now) => ServiceRecord(t, cmd, draw, now).0
    case ConversationCreated(matchId, conversationId, now) =>
      if TrimSpace(matchId) == "" || TrimSpace(conversationId) == "" then t
      else AttachConversation(t, TrimSpace(matchId), TrimSpace(conversationId), now).0
    case SetAvailable(animalId, available) =>
      if TrimSpace(animalId) == "" then t else SetAvailability(t, TrimSpace(animalId), available)
    case ArchiveAnimal(animalId, reason, rows, eventIds, now) =>
      ServiceArchive(t, animalId, rows, eventIds, reason, now).0
    case Fetch(_, picked, now) => t.(outbox := Outbox.Claim(t.outbox, picked, now))
    case Published(eventId, now) => t.(outbox := Outbox.MarkPublished(t.outbox, eventId, now))
    case Failed(eventId, cause) => t.(outbox := Outbox.MarkFailed(t.outbox, eventId, cause))
  }

  ghost predicate IsRun(t: Tables, steps: seq<Step>)
    decreases |steps|
  {
    steps == [] || (Enabled(t, steps[0]) && IsRun(Apply(t, steps[0]), steps[1..]))
  }

  ghost function Run(t: Tables, steps: seq<Step>): Tables
    requires IsRun(t, steps)
    decreases |steps|
  {
    if steps == [] then t else Run(Apply(t, steps[0]), steps[1..])
  }

  // ---------- What never changes ----------

  /** Two versions of one match: only conversation, status and update time may differ. */
  predicate SameMatch(m: Match, m': Match) {
    && m'.id == m.id && m'.animalId == m.animalId && m'.createdAt == m.createdAt
    && m'.adopterId == m.adopterId && m'.ownerId == m.ownerId
  }

  predicate MatchEvolves(m: Match, m': Match) {
    && SameMatch(m, m')
    && (m'.status == m.status || (m.status == Active && m'.status == Archived))
    && (m.conversationId != "" ==> m'.conversationId == m.conversationId)
  }

  predicate RowEvolves(r: Outbox.Row<Event>, r': Outbox.Row<Event>) {
    && r'.event == r.event && r'.createdAt == r.createdAt && r'.attempts >= r.attempts
    && (r.publishedAt.Some? ==> r'.publishedAt.Some? && r'.attempts == r.attempts)
  }

  /**
   The order in which tables can follow each other: swipes and keys are never changed or removed; a match keeps its
   identity, moves only from active to archived, and keeps its first conversation; an outbox event keeps its content,
   its attempts never drop, and once published it stays published and is not tried again.
   */
  ghost predicate Evolves(t: Tables, t': Tables) {
    && (forall id :: id in t.swipes ==> id in t'.swipes && t'.swipes[id] == t.swipes[id])
    && (forall key :: key in t.keys ==> key in t'.keys && t'.keys[key] == t.keys[key])
    && (forall id :: id in t.matches ==> id in t'.matches && MatchEvolves(t.matches[id], t'.matches[id]))
    && (forall id :: id in t.outbox ==> id in t'.outbox && RowEvolves(t.outbox[id], t'.outbox[id]))
  }

  lemma EvolvesReflexive(t: Tables)
    ensures Evolves(t, t)
  {
  }

  lemma RowsAdded(t: Tables, t': Tables)
    requires forall id :: id in t.swipes ==> id in t'.swipes && t'.swipes[id] == t.swipes[id]
    requires forall key :: key in t.keys ==> key in t'.keys && t'.keys[key] == t.keys[key]
    requires forall id :: id in t.matches ==> id in t'.matches && t'.matches[id] == t.matches[id]
    requires forall id :: id in t.outbox ==> id in t'.outbox && t'.outbox[id] == t.outbox[id]
    ensures Evolves(t, t')
  {
  }

  /** One match replaced by a later version of itself. */
  lemma MatchReplaced(t: Tables, t': Tables, id: string, m: Match)
    requires id in t.matches && MatchEvolves(t.matches[id], m) && t'.matches == t.matches[id := m]
    requires t'.swipes == t.swipes && t'.keys == t.keys
    requires forall e :: e in t.outbox ==> e in t'.outbox && t'.outbox[e] == t.outbox[e]
    ensures Evolves(t, t')
  {
  }

  lemma EvolvesTransitive(a: Tables, b: Tables, c: Tables)
    requires Evolves(a, b) && Evolves(b, c)
    ensures Evolves(a, c)
  {
    forall id | id in a.matches ensures id in c.matches && MatchEvolves(a.matches[id], c.matches[id]) {
      assert id in b.matches && MatchEvolves(b.matches[id], c.matches[id]);
    }
    forall id | id in a.outbox ensures id in c.outbox && RowEvolves(a.outbox[id], c.outbox[id]) {
      assert id in b.outbox && RowEvolves(b.outbox[id], c.outbox[id]);
    }
  }

  // ---------- The invariant ----------

  type Swipes = map<string, Swipe>

  type Matches = map<string, Match>

  predicate SamePair(a: Swipe, b: Swipe) {
    a.actorId == b.actorId && a.animalId == b.animalId
  }

  predicate SameMatchedPair(a: Match, b: Match) {
    a.adopterId == b.adopterId && a.animalId == b.animalId
  }

  ghost predicate SwipeRows(swipes: Swipes) {
    && (forall id :: id in swipes ==> swipes[id].id == id && swipes[id].direction in {Left, Right})
    && (forall a, b {:trigger SamePair(swipes[a], swipes[b])} ::
          a in swipes && b in swipes && SamePair(swipes[a], swipes[b]) ==> a == b)
  }

  ghost predicate MatchRows(matches: Matches) {
    && (forall id :: id in matches ==>
                       matches[id].id == id && TrimSpace(id) != "" && matches[id].status in {Active, Archived})
    && (forall a, b {:trigger SameMatchedPair(matches[a], matches[b])} ::
          a in matches && b in matches && SameMatchedPair(matches[a], matches[b]) ==> a == b)
  }

  ghost predicate HasMatch(matches: Matches, swipe: Swipe) {
    exists id :: id in matches && Twin(swipe, matches[id])
  }

  ghost predicate HasSwipe(swipes: Swipes, m: Match) {
    exists id :: id in swipes && swipes[id].direction == Right && Twin(swipes[id], m)
  }

  ghost predicate Paired(swipes: Swipes, matches: Matches) {
    && (forall id {:trigger HasMatch(matches, swipes[id])} ::
          id in swipes && swipes[id].direction == Right ==> HasMatch(matches, swipes[id]))
    && (forall id {:trigger HasSwipe(swipes, matches[id])} :: id in matches ==> HasSwipe(swipes, matches[id]))
  }

  ghost predicate KeyRowOk(swipes: Swipes, matches: Matches, row: KeyRow) {
    && row.swipeId in swipes
    && if swipes[row.swipeId].direction == Right
       then row.matchId in matches && Twin(swipes[row.swipeId], matches[row.matchId])
       else row.matchId == ""
  }

  ghost predicate KeyRows(t: Tables) {
    forall key {:trigger KeyRowOk(t.swipes, t.matches, t.keys[key])} ::
      key in t.keys ==> KeyRowOk(t.swipes, t.matches, t.keys[key])
  }

  /** What an outbox event announces. */
  datatype Subject = SwipeSubject(id: string) | CreationSubject(id: string) | ArchivalSubject(id: string)

  function SubjectOf(e: Event): Subject {
    match e
    case SwipeRecorded(swipe, _) => SwipeSubject(swipe.id)
    case MatchCreated(m, _, _) => CreationSubject(m.id)
    case MatchArchived(id, _) => ArchivalSubject(id)
  }

  ghost function Announcing(o: Outbox.Table<Event>, x: Subject): set<string> {
    set id | id in o && SubjectOf(o[id].event) == x
  }

  /** One event per stored swipe, one per stored match, one more per archived match, and no others. */
  function Expected(swipes: Swipes, matches: Matches, x: Subject): nat {
    match x
    case SwipeSubject(id) => if id in swipes then 1 else 0
    case CreationSubject(id) => if id in matches then 1 else 0
    case ArchivalSubject(id) => if id in matches && matches[id].status == Archived then 1 else 0
  }

  ghost predicate Counted(t: Tables) {
    forall x :: |Announcing(t.outbox, x)| == Expected(t.swipes, t.matches, x)
  }

  /** What an event says is what the tables hold; of a match, the parts that never change. */
  ghost predicate Truthful(swipes: Swipes, matches: Matches, e: Event) {
    match e
    case SwipeRecorded(swipe, _) => swipe.id in swipes && swipes[swipe.id] == swipe
    case MatchCreated(m, swipe, _) =>
      && m.id in matches && SameMatch(m, matches[m.id]) && m.status == Active
      && swipe.id in swipes && swipes[swipe.id] == swipe && Twin(swipe, m)
    case MatchArchived(id, _) => id in matches && matches[id].status == Archived
  }

  ghost predicate Payloads(t: Tables) {
    forall id {:trigger Truthful(t.swipes, t.matches, t.outbox[id].event)} ::
      id in t.outbox ==> Truthful(t.swipes, t.matches, t.outbox[id].event)
  }

  ghost predicate Inv(t: Tables) {
    && SwipeRows(t.swipes) && MatchRows(t.matches) && Paired(t.swipes, t.matches)
    && KeyRows(t) && Counted(t) && Payloads(t)
  }

  // ---------- Every step keeps it ----------

  lemma AnnounceOneMore(o: Outbox.Table<Event>, id: string, row: Outbox.Row<Event>, x: Subject)
    requires id !in o
    ensures |Announcing(o[id := row], x)| == |Announcing(o, x)| + if SubjectOf(row.event) == x then 1 else 0
  {
    var before, after := Announcing(o, x), Announcing(o[id := row], x);
    assert after == if SubjectOf(row.event) == x then before + {id} else before;
  }

  /** Inserting an event that announces a subject due one more announcement. */
  lemma CountInsert(t: Tables, t': Tables, id: string, row: Outbox.Row<Event>)
    requires id !in t.outbox && t'.outbox == t.outbox[id := row]
    requires Counted(t)
    requires forall x :: Expected(t'.swipes, t'.matches, x) ==
                         Expected(t.swipes, t.matches, x) + if SubjectOf(row.event) == x then 1 else 0
    ensures Counted(t')
  {
    forall x ensures |Announcing(t'.outbox, x)| == Expected(t'.swipes, t'.matches, x) {
      AnnounceOneMore(t.outbox, id, row, x);
    }
  }

  /** Facts about stored rows survive every evolution. */
  lemma FactsStay(t: Tables, t': Tables)
    requires Inv(t) && Evolves(t, t')
    ensures forall id {:trigger HasMatch(t'.matches, t.swipes[id])} ::
      id in t.swipes && t.swipes[id].direction == Right ==> HasMatch(t'.matches, t.swipes[id])
    ensures forall id {:trigger HasSwipe(t'.swipes, t'.matches[id])} ::
      id in t.matches ==> id in t'.matches && HasSwipe(t'.swipes, t'.matches[id])
    ensures forall key {:trigger KeyRowOk(t'.swipes, t'.matches, t.keys[key])} ::
      key in t.keys ==> KeyRowOk(t'.swipes, t'.matches, t.keys[key])
    ensures forall id {:trigger Truthful(t'.swipes, t'.matches, t.outbox[id].event)} ::
      id in t.outbox ==> Truthful(t'.swipes, t'.matches, t.outbox[id].event)
  {
    forall id | id in t.swipes && t.swipes[id].direction == Right ensures HasMatch(t'.matches, t.swipes[id]) {
      assert HasMatch(t.matches, t.swipes[id]);
      var mid :| mid in t.matches && Twin(t.swipes[id], t.matches[mid]);
      assert mid in t'.matches;
    }
    forall id | id in t.matches ensures id in t'.matches && HasSwipe(t'.swipes, t'.matches[id]) {
      assert HasSwipe(t.swipes, t.matches[id]);
      var sid :| sid in t.swipes && t.swipes[sid].direction == Right && Twin(t.swipes[sid], t.matches[id]);
      assert sid in t'.swipes;
    }
    forall key | key in t.keys ensures KeyRowOk(t'.swipes, t'.matches, t.keys[key]) {
      assert KeyRowOk(t.swipes, t.matches, t.keys[key]);
    }
    forall id | id in t.outbox ensures Truthful(t'.swipes, t'.matches, t.outbox[id].event) {
      assert Truthful(t.swipes, t.matches, t.outbox[id].event);
    }
  }

  /** The rows of `t'` that `t` does not have are sound. */
  ghost predicate NewRowsOk(t: Tables, t': Tables) {
    && (forall id {:trigger HasMatch(t'.matches, t'.swipes[id])} ::
          id in t'.swipes && id !in t.swipes && t'.swipes[id].direction == Right ==>
            HasMatch(t'.matches, t'.swipes[id]))
    && (forall id {:trigger HasSwipe(t'.swipes, t'.matches[id])} ::
          id in t'.matches && id !in t.matches ==> HasSwipe(t'.swipes, t'.matches[id]))
    && (forall key {:trigger KeyRowOk(t'.swipes, t'.matches, t'.keys[key])} ::
          key in t'.keys && key !in t.keys ==> KeyRowOk(t'.swipes, t'.matches, t'.keys[key]))
    && (forall id {:trigger Truthful(t'.swipes, t'.matches, t'.outbox[id].event)} ::
          id in t'.outbox && id !in t.outbox ==> Truthful(t'.swipes, t'.matches, t'.outbox[id].event))
  }

  /** So after an evolution only the new rows are left to check. */
  lemma NewRowsSuffice(t: Tables, t': Tables)
    requires Inv(t) && Evolves(t, t')
    requires SwipeRows(t'.swipes) && MatchRows(t'.matches) && Counted(t') && NewRowsOk(t, t')
    ensures Inv(t')
  {
    FactsStay(t, t');
  }

  /** A left swipe. */
  lemma LeftSwipeKeeps(t: Tables, t1: Tables, swipe: Swipe, key: string, actorId: string, eventId: string, now: Time)
    requires Inv(t) && swipe.direction == Left && key !in t.keys
    requires InsertSwipe(t, swipe, key, eventId, now) == Ok(t1)
    ensures var t' := t1.(keys := t1.keys[key := KeyRow(actorId, swipe.id, "")]);
      Inv(t') && Evolves(t, t')
  {
    var t' := t1.(keys := t1.keys[key := KeyRow(actorId, swipe.id, "")]);
    RowsAdded(t, t');
    CountInsert(t, t', eventId, t1.outbox[eventId]);
    NewRowsSuffice(t, t');
  }

  /** No match of a pair can exist before its first swipe. */
  lemma NewPairFits(t: Tables, swipe: Swipe, m: Match)
    requires Inv(t) && !AlreadySwiped(t.swipes, swipe.actorId, swipe.animalId)
    requires Twin(swipe, m) && m.status == Active && TrimSpace(m.id) != ""
    ensures MatchRows(t.matches[m.id := m])
  {
    forall id | id in t.matches ensures !SameMatchedPair(t.matches[id], m) {
      assert HasSwipe(t.swipes, t.matches[id]);
    }
  }

  /** `t'` is `t` with a right swipe, its match, its key and its two events. */
  ghost predicate RightInserted(t: Tables, t': Tables, swipe: Swipe, m: Match, key: string, row: KeyRow,
                                e1: string, r1: Outbox.Row<Event>, e2: string, r2: Outbox.Row<Event>)
  {
    && swipe.direction == Right && m.status == Active && Twin(swipe, m) && TrimSpace(m.id) != ""
    && swipe.id !in t.swipes && m.id !in t.matches && key !in t.keys
    && e1 !in t.outbox && e2 !in t.outbox && e1 != e2
    && row.swipeId == swipe.id && row.matchId == m.id
    && r1.event.SwipeRecorded? && r1.event.swipe == swipe
    && r2.event.MatchCreated? && r2.event.created == m && r2.event.from == swipe
    && t'.swipes == t.swipes[swipe.id := swipe] && t'.matches == t.matches[m.id := m]
    && t'.keys == t.keys[key := row] && t'.outbox == t.outbox[e1 := r1][e2 := r2]
  }

  lemma RightRowsCounted(t: Tables, t': Tables, swipe: Swipe, m: Match, key: string, row: KeyRow,
                         e1: string, r1: Outbox.Row<Event>, e2: string, r2: Outbox.Row<Event>)
    requires Counted(t) && RightInserted(t, t', swipe, m, key, row, e1, r1, e2, r2)
    ensures Counted(t')
  {
    var t1 := t.(swipes := t'.swipes, outbox := t.outbox[e1 := r1]);
    CountInsert(t, t1, e1, r1);
    CountInsert(t1, t', e2, r2);
  }

  lemma RightRowsSound(t: Tables, t': Tables, swipe: Swipe, m: Match, key: string, row: KeyRow,
                       e1: string, r1: Outbox.Row<Event>, e2: string, r2: Outbox.Row<Event>)
    requires RightInserted(t, t', swipe, m, key, row, e1, r1, e2, r2)
    ensures NewRowsOk(t, t') && Evolves(t, t')
  {
    RowsAdded(t, t');
    assert HasMatch(t'.matches, swipe) by { assert m.id in t'.matches; }
    assert HasSwipe(t'.swipes, m) by { assert swipe.id in t'.swipes; }
  }

  lemma RightRowsKeep(t: Tables, t': Tables, swipe: Swipe, m: Match, key: string, row: KeyRow,
                      e1: string, r1: Outbox.Row<Event>, e2: string, r2: Outbox.Row<Event>)
    requires Inv(t) && !AlreadySwiped(t.swipes, swipe.actorId, swipe.animalId)
    requires RightInserted(t, t', swipe, m, key, row, e1, r1, e2, r2)
    ensures Inv(t') && Evolves(t, t')
  {
    RightRowsCounted(t, t', swipe, m, key, row, e1, r1, e2, r2);
    RightRowsSound(t, t', swipe, m, key, row, e1, r1, e2, r2);
    NewPairFits(t, swipe, m);
    NewRowsSuffice(t, t');
  }

  lemma RightSwipeKeeps(t: Tables, t1: Tables, t2: Tables, swipe: Swipe, m: Match, cmd: Command, draw: Draw, now: Time)
    requires Inv(t) && swipe.direction == Right && cmd.key !in t.keys
    requires Twin(swipe, m) && m.status == Active && TrimSpace(m.id) != ""
    requires InsertSwipe(t, swipe, cmd.key, draw.swipeEventId, now) == Ok(t1)
    requires InsertMatch(t1, m, swipe, cmd.key, draw.matchEventId, now) == Ok(t2)
    ensures var t' := t2.(keys := t2.keys[cmd.key := KeyRow(cmd.actorId, swipe.id, m.id)]);
      Inv(t') && Evolves(t, t')
  {
    var row := KeyRow(cmd.actorId, swipe.id, m.id);
    var e1, e2 := draw.swipeEventId, draw.matchEventId;
    RightRowsKeep(t, t2.(keys := t2.keys[cmd.key := row]), swipe, m, cmd.key, row, e1, t1.outbox[e1], e2,
                  t2.outbox[e2]);
  }

  lemma RecordKeeps(t: Tables, cmd: Command, draw: Draw, now: Time)
    requires Inv(t)
    ensures Inv(ServiceRecord(t, cmd, draw, now).0) && Evolves(t, ServiceRecord(t, cmd, draw, now).0)
  {
    var n := NormalizeCommand(cmd);
    var t' := ServiceRecord(t, cmd, draw, now).0;
    if t' != t {
      var swipe := NewSwipe(draw.swipeId, n, now).value;
      var t1 := InsertSwipe(t, swipe, n.key, draw.swipeEventId, now).value;
      if swipe.direction == Right {
        var m := NewMatchFromSwipe(draw.matchId, swipe).value;
        NewMatchIsTwin(draw.swipeId, draw.matchId, n, now);
        var t2 := InsertMatch(t1, m, swipe, n.key, draw.matchEventId, now).value;
        RightSwipeKeeps(t, t1, t2, swipe, m, n, draw, now);
      } else {
        LeftSwipeKeeps(t, t1, swipe, n.key, n.actorId, draw.swipeEventId, now);
      }
    }
  }

  lemma MatchRowsUpdate(matches: Matches, id: string, m: Match)
    requires MatchRows(matches) && id in matches && MatchEvolves(matches[id], m)
    ensures MatchRows(matches[id := m])
  {
    var matches' := matches[id := m];
    forall a, b | a in matches' && b in matches' && SameMatchedPair(matches'[a], matches'[b]) ensures a == b {
      assert SameMatchedPair(matches[a], matches[b]);
    }
  }

  lemma AttachKeeps(t: Tables, matchId: string, conversationId: string, now: Time)
    requires Inv(t)
    ensures var t' := AttachConversation(t, matchId, conversationId, now).0; Inv(t') && Evolves(t, t')
  {
    EvolvesReflexive(t);
    if matchId in t.matches && t.matches[matchId].conversationId in {"", conversationId} {
      var m := t.matches[matchId];
      MatchUpdateKeeps(t, matchId, m.(conversationId := conversationId, updatedAt := now));
    }
  }

  lemma UpdateCounted(t: Tables, t': Tables, id: string, m: Match)
    requires Counted(t) && id in t.matches && m.status == t.matches[id].status
    requires t'.swipes == t.swipes && t'.matches == t.matches[id := m] && t'.outbox == t.outbox
    ensures Counted(t')
  {
  }

  lemma ArchivalCounted(t: Tables, t': Tables, id: string, m: Match, eventId: string, row: Outbox.Row<Event>)
    requires Counted(t) && id in t.matches && t.matches[id].status == Active && m.status == Archived
    requires eventId !in t.outbox && row.event.MatchArchived? && row.event.matchId == id
    requires t'.swipes == t.swipes && t'.matches == t.matches[id := m] && t'.outbox == t.outbox[eventId := row]
    ensures Counted(t')
  {
    CountInsert(t, t', eventId, row);
  }

  lemma MatchUpdateKeeps(t: Tables, id: string, m: Match)
    requires Inv(t) && id in t.matches && MatchEvolves(t.matches[id], m) && m.status == t.matches[id].status
    ensures var t' := t.(matches := t.matches[id := m]); Inv(t') && Evolves(t, t')
  {
    var t' := t.(matches := t.matches[id := m]);
    MatchReplaced(t, t', id, m);
    MatchRowsUpdate(t.matches, id, m);
    UpdateCounted(t, t', id, m);
    NewRowsSuffice(t, t');
  }

  lemma ArchiveOneKeeps(t: Tables, id: string, eventId: string, reason: string, now: Time)
    requires Inv(t) && id in t.matches && t.matches[id].status == Active
    requires ArchiveOne(t, id, eventId, reason, now).Ok?
    ensures var t' := ArchiveOne(t, id, eventId, reason, now).value; Inv(t') && Evolves(t, t')
  {
    ArchivalKeeps(t, id, t.matches[id].(status := Archived, updatedAt := now), eventId,
                  Outbox.NewRow(MatchArchived(id, reason), id, now));
  }

  lemma ArchivalKeeps(t: Tables, id: string, m: Match, eventId: string, row: Outbox.Row<Event>)
    requires Inv(t) && id in t.matches && t.matches[id].status == Active
    requires MatchEvolves(t.matches[id], m) && m.status == Archived
    requires eventId !in t.outbox && row.event.MatchArchived? && row.event.matchId == id
    ensures var t' := t.(matches := t.matches[id := m], outbox := t.outbox[eventId := row]); Inv(t') && Evolves(t, t')
  {
    var t' := t.(matches := t.matches[id := m], outbox := t.outbox[eventId := row]);
    MatchReplaced(t, t', id, m);
    MatchRowsUpdate(t.matches, id, m);
    ArchivalCounted(t, t', id, m, eventId, row);
    NewRowsSuffice(t, t');
  }

  /** The archiving loop touches nothing but the status of its rows, which are distinct. */
  ghost predicate Archives(t: Tables, rows: seq<string>, t': Tables) {
    && t'.availability == t.availability && t'.swipes == t.swipes && t'.keys == t.keys
    && t'.matches.Keys == t.matches.Keys
    && forall id :: id in t.matches ==>
                      if id in rows then t'.matches[id].status == Archived else t'.matches[id] == t.matches[id]
  }

  lemma ArchiveRowsLast(t: Tables, rows: seq<string>, eventIds: seq<string>, reason: string, now: Time)
    requires |rows| == |eventIds| && Present(t, rows) && rows != []
    requires ArchiveRows(t, rows, eventIds, reason, now).Ok?
    ensures var last := |rows| - 1;
      var before := ArchiveRows(t, rows[..last], eventIds[..last], reason, now);
      && before.Ok?
      && ArchiveOne(before.value, rows[last], eventIds[last], reason, now)
        == ArchiveRows(t, rows, eventIds, reason, now)
  {
  }

  lemma {:induction false} ArchiveRowsEffect(t: Tables, rows: seq<string>, eventIds: seq<string>, reason: string,
                                             now: Time)
    requires |rows| == |eventIds| && Outbox.Distinct(rows) && Present(t, rows)
    requires ArchiveRows(t, rows, eventIds, reason, now).Ok?
    ensures Archives(t, rows, ArchiveRows(t, rows, eventIds, reason, now).value)
    decreases |rows|
  {
    if rows != [] {
      var last := |rows| - 1;
      assert rows == rows[..last] + [rows[last]];
      ArchiveRowsLast(t, rows, eventIds, reason, now);
      ArchiveRowsEffect(t, rows[..last], eventIds[..last], reason, now);
    }
  }

  lemma {:induction false} ArchiveRowsKeep(t: Tables, rows: seq<string>, eventIds: seq<string>, reason: string,
                                           now: Time)
    requires Inv(t) && |rows| == |eventIds| && Outbox.Distinct(rows) && Present(t, rows)
    requires forall i :: 0 <= i < |rows| ==> t.matches[rows[i]].status == Active
    requires ArchiveRows(t, rows, eventIds, reason, now).Ok?
    ensures var t' := ArchiveRows(t, rows, eventIds, reason, now).value; Inv(t') && Evolves(t, t')
    decreases |rows|
  {
    EvolvesReflexive(t);
    if rows != [] {
      var last := |rows| - 1;
      ArchiveRowsLast(t, rows, eventIds, reason, now);
      ArchiveRowsKeep(t, rows[..last], eventIds[..last], reason, now);
      LastStillActive(t, rows, eventIds, reason, now);
      var t1 := ArchiveRows(t, rows[..last], eventIds[..last], reason, now).value;
      ArchiveOneMoreKeeps(t, t1, rows[last], eventIds[last], reason, now);
    }
  }

  lemma LastStillActive(t: Tables, rows: seq<string>, eventIds: seq<string>, reason: string, now: Time)
    requires |rows| == |eventIds| && Outbox.Distinct(rows) && Present(t, rows) && rows != []
    requires t.matches[rows[|rows| - 1]].status == Active
    requires ArchiveRows(t, rows[..|rows| - 1], eventIds[..|rows| - 1], reason, now).Ok?
    ensures var before := ArchiveRows(t, rows[..|rows| - 1], eventIds[..|rows| - 1], reason, now).value;
      before.matches[rows[|rows| - 1]].status == Active
  {
    var last := |rows| - 1;
    ArchiveRowsEffect(t, rows[..last], eventIds[..last], reason, now);
  }

  lemma ArchiveOneMoreKeeps(t: Tables, t1: Tables, id: string, eventId: string, reason: string, now: Time)
    requires Inv(t1) && Evolves(t, t1) && id in t1.matches && t1.matches[id].status == Active
    requires ArchiveOne(t1, id, eventId, reason, now).Ok?
    ensures var t' := ArchiveOne(t1, id, eventId, reason, now).value; Inv(t') && Evolves(t, t')
  {
    ArchiveOneKeeps(t1, id, eventId, reason, now);
    EvolvesTransitive(t, t1, ArchiveOne(t1, id, eventId, reason, now).value);
  }

  lemma DeliveryKeeps(t: Tables, o: Outbox.Table<Event>)
    requires Inv(t) && Outbox.Delivered(t.outbox, o)
    ensures Inv(t.(outbox := o)) && Evolves(t, t.(outbox := o))
  {
    var t' := t.(outbox := o);
    assert Evolves(t, t');
    forall x ensures Announcing(o, x) == Announcing(t.outbox, x) {
    }
    NewRowsSuffice(t, t');
  }

  lemma AvailabilityKeeps(t: Tables, animalId: string, available: bool)
    requires Inv(t)
    ensures Inv(SetAvailability(t, animalId, available)) && Evolves(t, SetAvailability(t, animalId, available))
  {
    var t' := SetAvailability(t, animalId, available);
    EvolvesReflexive(t);
    assert Counted(t');
    NewRowsSuffice(t, t');
  }

  lemma StepKeeps(t: Tables, step: Step)
    requires Inv(t) && Enabled(t, step)
    ensures Inv(Apply(t, step)) && Evolves(t, Apply(t, step))
  {
    EvolvesReflexive(t);
    match step
    case Record(cmd, draw, now) => RecordKeeps(t, cmd, draw, now);
    case ConversationCreated(matchId, conversationId, now) =>
      AttachKeeps(t, TrimSpace(matchId), TrimSpace(conversationId), now);
    case SetAvailable(animalId, available) => AvailabilityKeeps(t, TrimSpace(animalId), available);
    case ArchiveAnimal(animalId, reason, rows, eventIds, now) =>
      if TrimSpace(animalId) != "" && ArchiveRows(t, rows, eventIds, TrimSpace(reason), now).Ok? {
        ArchiveRowsKeep(t, rows, eventIds, TrimSpace(reason), now);
      }
    case Fetch(limit, picked, now) =>
      Outbox.ClaimDelivers(t.outbox, picked, limit, now);
      DeliveryKeeps(t, Outbox.Claim(t.outbox, picked, now));
    case Published(eventId, now) =>
      Outbox.MarksDeliver(t.outbox, eventId, now, "");
      DeliveryKeeps(t, Outbox.MarkPublished(t.outbox, eventId, now));
    case Failed(eventId, cause) =>
      Outbox.MarksDeliver(t.outbox, eventId, 0, cause);
      DeliveryKeeps(t, Outbox.MarkFailed(t.outbox, eventId, cause));
  }

  /** Every run keeps the invariant, and everything it passed through evolves into what it ends in. */
  lemma {:induction false} RunKeeps(t: Tables, steps: seq<Step>)
    requires Inv(t) && IsRun(t, steps)
    ensures Inv(Run(t, steps)) && Evolves(t, Run(t, steps))
    decreases |steps|
  {
    if steps == [] {
      EvolvesReflexive(t);
    } else {
      var t1 := Apply(t, steps[0]);
      StepKeeps(t, steps[0]);
      RunKeeps(t1, steps[1..]);
      EvolvesTransitive(t, t1, Run(t1, steps[1..]));
      assert Run(t, steps) == Run(t1, steps[1..]);
    }
  }

  lemma EmptyInv()
    ensures Inv(EMPTY)
  {
    forall x ensures |Announcing(EMPTY.outbox, x)| == Expected(EMPTY.swipes, EMPTY.matches, x) {
      assert Announcing(EMPTY.outbox, x) == {};
    }
  }
}
