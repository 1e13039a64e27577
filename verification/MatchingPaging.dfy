/** The swipe and match listings: keyset pages over tables that other transactions change between requests. */
module MatchingPaging {
  import opened Common
  import opened Text
  import opened MatchingDomain
  import opened MatchingTables
  import opened MatchingRuns
  import opened MatchingTheorems
  import opened Keyset

  /** A page token; its text, base64 of JSON, is not modelled. */
  datatype Token = NoToken | CursorToken(key: Key) | MalformedToken

  function DecodeCursor(token: Token): Result<Option<Key>, Error> {
    match token
    case NoToken => Ok(None)
    case CursorToken(key) => if key.id == "" || key.at == ZERO_TIME then Err(InvalidArgument) else Ok(Some(key))
    case MalformedToken => Err(InvalidArgument)
  }

  /** A size from 1 to 100 is granted, a larger one cut to 100, and without one it is 50. */
  function PageSize(requested: int): (size: nat)
    ensures 0 < size <= 100 && (0 < requested <= 100 ==> size == requested)
    ensures (requested <= 0 ==> size == 50) && (requested > 100 ==> size == 100)
  {
    if requested <= 0 then 50 else if requested > 100 then 100 else requested
  }

  function SwipeKey(s: Swipe): Key {
    Key(s.swipedAt, s.id)
  }

  function MatchKey(m: Match): Key {
    Key(m.createdAt, m.id)
  }

  predicate SelectsSwipe(s: Swipe, actorId: string, directions: seq<Direction>) {
    s.actorId == actorId && (directions == [] || s.direction in directions)
  }

  predicate SelectsMatch(m: Match, profileId: string, statuses: seq<MatchStatus>) {
    (m.adopterId == profileId || m.ownerId == profileId) && (statuses == [] || m.status in statuses)
  }

  ghost function SwipeKeys(t: Tables, actorId: string, directions: seq<Direction>): set<Key> {
    set id | id in t.swipes && SelectsSwipe(t.swipes[id], actorId, directions) :: SwipeKey(t.swipes[id])
  }

  ghost function MatchKeys(t: Tables, profileId: string, statuses: seq<MatchStatus>): set<Key> {
    set id | id in t.matches && SelectsMatch(t.matches[id], profileId, statuses) :: MatchKey(t.matches[id])
  }

  // ---------- The two listings ----------

  ghost predicate StoredSwipes(t: Tables, rows: seq<Swipe>) {
    forall i :: 0 <= i < |rows| ==> rows[i].id in t.swipes && t.swipes[rows[i].id] == rows[i]
  }

  ghost predicate StoredMatches(t: Tables, rows: seq<Match>) {
    forall i :: 0 <= i < |rows| ==> rows[i].id in t.matches && t.matches[rows[i].id] == rows[i]
  }

  /** `rows` is the database's answer to the page query; the reply is the page that the tables call for. */
  method ListSwipes(ghost t: Tables, actorId: string, directions: seq<Direction>, pageSize: int, token: Token,
                    rows: seq<Swipe>)
    returns (r: Result<Page<Swipe>, Error>)
    requires DecodeCursor(token).Ok? ==>
      && StoredSwipes(t, rows)
      && KeysOf(rows, SwipeKey)
         == Query(SwipeKeys(t, TrimSpace(actorId), directions), DecodeCursor(token).value, PageSize(pageSize) + 1)
    ensures r.Ok? <==> TrimSpace(actorId) != "" && DecodeCursor(token).Ok?
    ensures r.Err? ==> r.error == InvalidArgument
    ensures r.Ok? ==>
      && StoredSwipes(t, r.value.items)
      && Page(KeysOf(r.value.items, SwipeKey), r.value.next)
         == PageOf(SwipeKeys(t, TrimSpace(actorId), directions), DecodeCursor(token).value, PageSize(pageSize))
  {
    var actor := TrimSpace(actorId);
    if actor == "" {
      return Err(InvalidArgument);
    }
    var cursor := DecodeCursor(token);
    if cursor.Err? {
      return Err(cursor.error);
    }
    var page := Collect(rows, PageSize(pageSize), SwipeKey);
    CutIsPage(SwipeKeys(t, actor, directions), cursor.value, PageSize(pageSize), rows, SwipeKey, page);
    return Ok(page);
  }

  method ListMatches(ghost t: Tables, profileId: string, statuses: seq<MatchStatus>, pageSize: int, token: Token,
                     rows: seq<Match>)
    returns (r: Result<Page<Match>, Error>)
    requires DecodeCursor(token).Ok? ==>
      && StoredMatches(t, rows)
      && KeysOf(rows, MatchKey)
         == Query(MatchKeys(t, TrimSpace(profileId), statuses), DecodeCursor(token).value, PageSize(pageSize) + 1)
    ensures r.Ok? <==> TrimSpace(profileId) != "" && DecodeCursor(token).Ok?
    ensures r.Err? ==> r.error == InvalidArgument
    ensures r.Ok? ==>
      && StoredMatches(t, r.value.items)
      && Page(KeysOf(r.value.items, MatchKey), r.value.next)
         == PageOf(MatchKeys(t, TrimSpace(profileId), statuses), DecodeCursor(token).value, PageSize(pageSize))
  {
    var profile := TrimSpace(profileId);
    if profile == "" {
      return Err(InvalidArgument);
    }
    var cursor := DecodeCursor(token);
    if cursor.Err? {
      return Err(cursor.error);
    }
    var page := Collect(rows, PageSize(pageSize), MatchKey);
    CutIsPage(MatchKeys(t, profile, statuses), cursor.value, PageSize(pageSize), rows, MatchKey, page);
    return Ok(page);
  }

  // ---------- Every next token is accepted ----------

  ghost predicate IdentifiedSwipes(swipes: map<string, Swipe>) {
    forall id :: id in swipes ==> swipes[id].id != "" && swipes[id].swipedAt != ZERO_TIME
  }

  ghost predicate IdentifiedMatches(matches: map<string, Match>) {
    forall id :: id in matches ==> matches[id].id != "" && matches[id].createdAt != ZERO_TIME
  }

  /** Every row has an identifier and a time, so a cursor made of it decodes. */
  ghost predicate Identified(t: Tables) {
    IdentifiedSwipes(t.swipes) && IdentifiedMatches(t.matches)
  }

  /** `swipes'` and `matches'` hold at most one new row each, a new swipe and the match made from it. */
  ghost predicate Adds(t: Tables, t': Tables, made: Result<Swipe, Error>, matchId: string) {
    && (t'.swipes == t.swipes || (made.Ok? && t'.swipes == t.swipes[made.value.id := made.value]))
    && (t'.matches == t.matches
        || (made.Ok? && AddsMatch(t.matches, t'.matches, NewMatchFromSwipe(matchId, made.value))))
  }

  ghost predicate AddsMatch(matches: map<string, Match>, matches': map<string, Match>, m: Result<Match, Error>) {
    m.Ok? && matches' == matches[m.value.id := m.value]
  }

  lemma RecordAdds(t: Tables, n: Command, draw: Draw, now: Time)
    ensures Adds(t, RecordSwipe(t, n, draw, now).0, NewSwipe(draw.swipeId, n, now), draw.matchId)
  {
    var t' := RecordSwipe(t, n, draw, now).0;
    if t' == t {
      return;
    }
    var swipe := NewSwipe(draw.swipeId, n, now).value;
    var t1 := InsertSwipe(t, swipe, n.key, draw.swipeEventId, now).value;
    assert t1.swipes == t.swipes[swipe.id := swipe] && t1.matches == t.matches;
    if swipe.direction == Right {
      var m := NewMatchFromSwipe(draw.matchId, swipe);
      var t2 := InsertMatch(t1, m.value, swipe, n.key, draw.matchEventId, now).value;
      assert t2.swipes == t1.swipes && AddsMatch(t.matches, t2.matches, m);
    }
  }

  lemma AddedIdentified(t: Tables, t': Tables, swipeId: string, n: Command, now: Time, matchId: string)
    requires Identified(t) && Adds(t, t', NewSwipe(swipeId, n, now), matchId)
    ensures Identified(t')
  {
    TrimSpaceFixed(matchId);
  }

  /** Rows that evolve without new ones appearing stay identified. */
  lemma EvolvedIdentified(t: Tables, t': Tables)
    requires Identified(t) && Evolves(t, t') && t'.swipes == t.swipes && t'.matches.Keys == t.matches.Keys
    ensures Identified(t')
  {
    forall id | id in t'.matches ensures t'.matches[id].id != "" && t'.matches[id].createdAt != ZERO_TIME {
      assert id in t.matches && MatchEvolves(t.matches[id], t'.matches[id]);
    }
  }

  lemma StepIdentifies(t: Tables, step: Step)
    requires Identified(t) && Enabled(t, step) && Evolves(t, Apply(t, step))
    ensures Identified(Apply(t, step))
  {
    match step
    case Record(cmd, draw, now) =>
      var n := NormalizeCommand(cmd);
      RecordAdds(t, n, draw, now);
      AddedIdentified(t, RecordSwipe(t, n, draw, now).0, draw.swipeId, n, now, draw.matchId);
    case ArchiveAnimal(id, reason, rows, eventIds, now) => ArchiveIdentifies(t, step);
    case _ =>
      OtherStepAddsNone(t, step);
      EvolvedIdentified(t, Apply(t, step));
  }

  lemma OtherStepAddsNone(t: Tables, step: Step)
    requires Enabled(t, step) && !step.Record? && !step.ArchiveAnimal?
    ensures Apply(t, step).swipes == t.swipes && Apply(t, step).matches.Keys == t.matches.Keys
  {
  }

  lemma ArchiveIdentifies(t: Tables, step: Step)
    requires Identified(t) && step.ArchiveAnimal? && Enabled(t, step) && Evolves(t, Apply(t, step))
    ensures Identified(Apply(t, step))
  {
    var reason := TrimSpace(step.reason);
    if TrimSpace(step.animalId) != "" && ArchiveRows(t, step.rows, step.eventIds, reason, step.now).Ok? {
      ArchiveRowsEffect(t, step.rows, step.eventIds, reason, step.now);
    }
    EvolvedIdentified(t, Apply(t, step));
  }

  lemma {:induction false} RunIdentifies(t: Tables, steps: seq<Step>)
    requires Inv(t) && Identified(t) && IsRun(t, steps)
    ensures Identified(Run(t, steps))
    decreases |steps|
  {
    if steps != [] {
      StepKeeps(t, steps[0]);
      StepIdentifies(t, steps[0]);
      RunIdentifies(Apply(t, steps[0]), steps[1..]);
    }
  }

  /** In every reachable state the token of any row, and so of any page, is accepted by the next request. */
  lemma TokensAreAccepted(t: Tables)
    requires Reachable(t)
    ensures forall id :: id in t.swipes ==>
      DecodeCursor(CursorToken(SwipeKey(t.swipes[id]))) == Ok(Some(SwipeKey(t.swipes[id])))
    ensures forall id :: id in t.matches ==>
      DecodeCursor(CursorToken(MatchKey(t.matches[id]))) == Ok(Some(MatchKey(t.matches[id])))
  {
    EmptyInv();
    var steps :| IsRun(EMPTY, steps) && Run(EMPTY, steps) == t;
    RunIdentifies(EMPTY, steps);
  }

  /** No token is the start; a malformed one, and one without an identifier or a time, is refused, and no other. */
  lemma RefusedTokensExactly(token: Token)
    ensures DecodeCursor(token).Err? <==>
      token.MalformedToken? || (token.CursorToken? && (token.key.id == "" || token.key.at == 0))
    ensures DecodeCursor(token).Err? ==> DecodeCursor(token).error == InvalidArgument
    ensures DecodeCursor(NoToken) == Ok(None)
  {
  }

  // ---------- Crawling while the store runs ----------

  ghost predicate AreRuns(t: Tables, runs: seq<seq<Step>>)
    decreases |runs|
  {
    runs == [] || (IsRun(t, runs[0]) && AreRuns(Run(t, runs[0]), runs[1..]))
  }

  /** The tables at each request, when runs[i] happens between request i and request i + 1. */
  ghost function History(t: Tables, runs: seq<seq<Step>>): (h: seq<Tables>)
    requires AreRuns(t, runs)
    ensures |h| == |runs| + 1 && h[0] == t
    decreases |runs|
  {
    if runs == [] then [t] else [t] + History(Run(t, runs[0]), runs[1..])
  }

  lemma {:induction false} HistoryStep(t: Tables, runs: seq<seq<Step>>, i: nat)
    requires AreRuns(t, runs) && i < |runs|
    ensures IsRun(History(t, runs)[i], runs[i]) && History(t, runs)[i + 1] == Run(History(t, runs)[i], runs[i])
    decreases |runs|
  {
    if i > 0 {
      HistoryStep(Run(t, runs[0]), runs[1..], i - 1);
    }
  }

  lemma {:induction false} HistoryReachable(t: Tables, runs: seq<seq<Step>>, i: nat)
    requires Reachable(t) && AreRuns(t, runs) && i <= |runs|
    ensures Reachable(History(t, runs)[i])
  {
    if i > 0 {
      HistoryReachable(t, runs, i - 1);
      HistoryStep(t, runs, i - 1);
      ReachableAfterRun(History(t, runs)[i - 1], runs[i - 1]);
    }
  }

  lemma SwipeKeysGrow(t: Tables, t': Tables, actorId: string, directions: seq<Direction>)
    requires Evolves(t, t')
    ensures SwipeKeys(t, actorId, directions) <= SwipeKeys(t', actorId, directions)
  {
    forall key | key in SwipeKeys(t, actorId, directions) ensures key in SwipeKeys(t', actorId, directions) {
      var id :| id in t.swipes && SelectsSwipe(t.swipes[id], actorId, directions) && SwipeKey(t.swipes[id]) == key;
      assert id in t'.swipes && t'.swipes[id] == t.swipes[id];
    }
  }

  lemma {:induction false} SwipeTableGrows(t: Tables, runs: seq<seq<Step>>, i: nat, actorId: string,
                                           directions: seq<Direction>)
    requires Reachable(t) && AreRuns(t, runs) && i < |runs|
    ensures SwipeKeys(History(t, runs)[i], actorId, directions)
        <= SwipeKeys(History(t, runs)[i + 1], actorId, directions)
  {
    var before := History(t, runs)[i];
    HistoryReachable(t, runs, i);
    HistoryStep(t, runs, i);
    ReachableInv(before);
    RunKeeps(before, runs[i]);
    SwipeKeysGrow(before, Run(before, runs[i]), actorId, directions);
  }

  ghost function SwipeTables(h: seq<Tables>, actorId: string, directions: seq<Direction>): (r: seq<set<Key>>)
    ensures |r| == |h| && forall i :: 0 <= i < |h| ==> r[i] == SwipeKeys(h[i], actorId, directions)
  {
    seq(|h|, i requires 0 <= i < |h| => SwipeKeys(h[i], actorId, directions))
  }

  /**
   Whatever the store does between the requests, a finished crawl of `ListSwipes` has every swipe that matched at its
   start exactly once, none twice, and all in descending order.
   */
  lemma SwipeCrawlIsComplete(t: Tables, runs: seq<seq<Step>>, actorId: string, directions: seq<Direction>, size: nat)
    requires Reachable(t) && AreRuns(t, runs) && size > 0
    requires Ends(SwipeTables(History(t, runs), actorId, directions), None, size)
    ensures var all := Crawl(SwipeTables(History(t, runs), actorId, directions), None, size);
      && Descends(all)
      && (forall key :: Occurrences(all, key) <= 1)
      && (forall id :: id in t.swipes && SelectsSwipe(t.swipes[id], actorId, directions)
            ==> Occurrences(all, SwipeKey(t.swipes[id])) == 1)
  {
    var tables := SwipeTables(History(t, runs), actorId, directions);
    forall i | 0 <= i < |tables| - 1 ensures tables[i] <= tables[i + 1] {
      SwipeTableGrows(t, runs, i, actorId, directions);
    }
    StepwiseInsertOnly(tables);
    CrawlIsComplete(tables, size);
    forall id | id in t.swipes && SelectsSwipe(t.swipes[id], actorId, directions)
      ensures SwipeKey(t.swipes[id]) in tables[0]
    {
    }
  }

  ghost function MatchTables(h: seq<Tables>, profileId: string, statuses: seq<MatchStatus>): (r: seq<set<Key>>)
    ensures |r| == |h| && forall i :: 0 <= i < |h| ==> r[i] == MatchKeys(h[i], profileId, statuses)
  {
    seq(|h|, i requires 0 <= i < |h| => MatchKeys(h[i], profileId, statuses))
  }

  /**
   A swipe is listed to its actor, when its direction is one of those asked for or none is asked for, and to no other.
   */
  lemma SwipeListedExactly(t: Tables, actorId: string, directions: seq<Direction>, id: string)
    requires SwipeRows(t.swipes) && id in t.swipes
    ensures SwipeKey(t.swipes[id]) in SwipeKeys(t, actorId, directions)
       <==> t.swipes[id].actorId == actorId && (directions == [] || t.swipes[id].direction in directions)
  {
  }

  /** A match is listed to its adopter and its owner, when its status is one of those asked for or none is asked for. */
  lemma MatchListedExactly(t: Tables, profileId: string, statuses: seq<MatchStatus>, id: string)
    requires MatchRows(t.matches) && id in t.matches
    ensures MatchKey(t.matches[id]) in MatchKeys(t, profileId, statuses)
       <==> && (t.matches[id].adopterId == profileId || t.matches[id].ownerId == profileId)
            && (statuses == [] || t.matches[id].status in statuses)
  {
    ListedExactly(t, profileId, statuses, t.matches[id]);
  }

  /** A match's row is its own: no other match has its key, so it is listed exactly when it passes the filter. */
  lemma ListedExactly(t: Tables, profileId: string, statuses: seq<MatchStatus>, m: Match)
    requires MatchRows(t.matches) && m.id in t.matches && SameMatch(m, t.matches[m.id])
    ensures MatchKey(m) in MatchKeys(t, profileId, statuses) <==> SelectsMatch(t.matches[m.id], profileId, statuses)
  {
    assert MatchKey(t.matches[m.id]) == MatchKey(m);
  }

  /**
   Exactly which matches a finished crawl returns while the store runs: those that pass the filter at the one request
   that their key falls to. The others are missed, even if they passed it at every other request.
   */
  lemma MatchCrawlFindsExactly(t: Tables, runs: seq<seq<Step>>, profileId: string, statuses: seq<MatchStatus>,
                               size: nat, id: string) returns (i: nat)
    requires Reachable(t) && AreRuns(t, runs) && size > 0 && id in t.matches
    requires Ends(MatchTables(History(t, runs), profileId, statuses), None, size)
    ensures var h := History(t, runs);
      var tables := MatchTables(h, profileId, statuses);
      && i < |Cursors(tables, None, size)| && Covers(Cursors(tables, None, size), i, MatchKey(t.matches[id]))
      && id in h[i].matches
      && (MatchKey(t.matches[id]) in Crawl(tables, None, size) <==> SelectsMatch(h[i].matches[id], profileId, statuses))
  {
    var tables := MatchTables(History(t, runs), profileId, statuses);
    var key := MatchKey(t.matches[id]);
    i := CoveredOnce(tables, None, size, key);
    GatheredWhereCovered(tables, None, size, key, i);
    ReachableInv(t);
    assert t.matches[id].id == id;
    MatchInHistory(t, runs, i, id, t.matches[id]);
    HistoryReachable(t, runs, i);
    ReachableInv(History(t, runs)[i]);
    ListedExactly(History(t, runs)[i], profileId, statuses, t.matches[id]);
  }

  /**
   How it happens. Of two active matches, the newer is on the first page of one; if the older is archived before the
   second page is asked for, the crawl ends without it.
   */
  lemma ArchivedBeforeItsPageIsMissed(t: Tables, newer: string, older: string, profileId: string, archive: Step)
    requires Reachable(t) && newer in t.matches && older in t.matches
    requires MatchKeys(t, profileId, [Active]) == {MatchKey(t.matches[newer]), MatchKey(t.matches[older])}
    requires Less(MatchKey(t.matches[older]), MatchKey(t.matches[newer]))
    requires archive.ArchiveAnimal? && Enabled(t, archive)
    requires MatchKeys(Apply(t, archive), profileId, [Active]) == {MatchKey(t.matches[newer])}
    ensures var tables := MatchTables([t, Apply(t, archive)], profileId, [Active]);
      && Ends(tables, None, 1)
      && Crawl(tables, None, 1) == [MatchKey(t.matches[newer])]
      && MatchKey(t.matches[older]) in tables[0]
  {
    var a, b := MatchKey(t.matches[newer]), MatchKey(t.matches[older]);
    var tables := MatchTables([t, Apply(t, archive)], profileId, [Active]);
    OneOfTwo(tables[0], a, b);
    NothingBelow(tables[1], a);
    assert tables[1..] == [tables[1]];
  }

  lemma OneOfTwo(rows: set<Key>, a: Key, b: Key)
    requires rows == {a, b} && Less(b, a)
    ensures PageOf(rows, None, 1) == Page([a], Some(a))
  {
    LessTotal(a, b);
    assert Below(rows, None) == rows;
    ListingUnique([a, b], rows);
  }

  lemma NothingBelow(rows: set<Key>, a: Key)
    requires rows == {a}
    ensures PageOf(rows, Some(a), 1) == Page([], None)
  {
    LessTotal(a, a);
    assert Below(rows, Some(a)) == {};
  }

  lemma {:induction false} MatchInHistory(t: Tables, runs: seq<seq<Step>>, i: nat, id: string, m: Match)
    requires Reachable(t) && AreRuns(t, runs) && i <= |runs| && id in t.matches && SameMatch(m, t.matches[id])
    ensures id in History(t, runs)[i].matches && SameMatch(m, History(t, runs)[i].matches[id])
    decreases |runs|
  {
    if i > 0 {
      SameAfterRun(t, runs[0], id, m);
      ReachableAfterRun(t, runs[0]);
      MatchInHistory(Run(t, runs[0]), runs[1..], i - 1, id, m);
    }
  }

  lemma SameAfterRun(t: Tables, steps: seq<Step>, id: string, m: Match)
    requires Reachable(t) && IsRun(t, steps) && id in t.matches && SameMatch(m, t.matches[id])
    ensures id in Run(t, steps).matches && SameMatch(m, Run(t, steps).matches[id])
  {
    MatchesOnlyMoveForward(t, steps, id);
  }

  /**
   A match can leave a listing that filters by status while it is crawled. Every match that passes the filter at each
   request is still returned exactly once, and none twice; without a status filter that is every match there was.
   */
  lemma MatchCrawlFindsStaying(t: Tables, runs: seq<seq<Step>>, profileId: string, statuses: seq<MatchStatus>,
                               size: nat, id: string)
    requires Reachable(t) && AreRuns(t, runs) && size > 0
    requires Ends(MatchTables(History(t, runs), profileId, statuses), None, size)
    requires id in t.matches && SelectsMatch(t.matches[id], profileId, statuses)
    requires statuses == [] || forall i :: 0 <= i <= |runs| && id in History(t, runs)[i].matches ==>
      History(t, runs)[i].matches[id].status in statuses
    ensures var all := Crawl(MatchTables(History(t, runs), profileId, statuses), None, size);
      Descends(all) && Occurrences(all, MatchKey(t.matches[id])) == 1 && forall key :: Occurrences(all, key) <= 1
  {
    var tables := MatchTables(History(t, runs), profileId, statuses);
    var key := MatchKey(t.matches[id]);
    forall i | 0 <= i < |tables| ensures key in tables[i] {
      MatchInHistory(t, runs, i, id, t.matches[id]);
      var m := History(t, runs)[i].matches[id];
      assert SelectsMatch(m, profileId, statuses) && MatchKey(m) == key;
    }
    CrawlFindsStayingRow(tables, None, size, key);
    CrawlDescends(tables, None, size);
    var all := Crawl(tables, None, size);
    forall k ensures Occurrences(all, k) == if k in all then 1 else 0 {
      DescendingOnce(all, k);
    }
  }
}
