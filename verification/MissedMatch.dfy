/** A run in which a page-by-page listing of active matches misses one that was active when it began. */
module MissedMatch {
  import opened Common
  import opened Text
  import opened MatchingDomain
  import opened MatchingTables
  import opened MatchingRuns
  import opened MatchingPaging
  import opened Keyset
  import MatchingTheorems
  import Outbox

  // An adopter likes two animals; between two pages of one match the older one's animal is archived.

  const LIKE_Y := Command("p", false, "y", "o", Right, "", "", "k")

  const LIKE_X := Command("p", false, "x", "o", Right, "", "", "l")

  const DRAW_Y := Draw("s", "m", "e", "f")

  const DRAW_X := Draw("t", "n", "g", "h")

  const MATCH_Y := Match("m", "y", "p", "o", "", Active, 1, 1)

  const MATCH_X := Match("n", "x", "p", "o", "", Active, 2, 2)

  const SWIPE_Y := Swipe("s", "p", false, "y", "o", Right, "", "", 1)

  const SWIPE_X := Swipe("t", "p", false, "x", "o", Right, "", "", 2)

  const STEPS := [Record(LIKE_Y, DRAW_Y, 1), Record(LIKE_X, DRAW_X, 2)]

  const GONE_Y := ArchiveAnimal("y", "", ["m"], ["a"], 3)

  lemma LetterFixed(s: string)
    requires |s| == 1 && !IsSpace(s[0])
    ensures TrimSpace(s) == s
  {
  }

  lemma LettersFixed()
    ensures TrimSpace("p") == "p" && TrimSpace("o") == "o" && TrimSpace("x") == "x" && TrimSpace("y") == "y"
    ensures TrimSpace("k") == "k" && TrimSpace("l") == "l" && TrimSpace("s") == "s" && TrimSpace("t") == "t"
    ensures TrimSpace("m") == "m" && TrimSpace("n") == "n" && TrimSpace("") == ""
  {
    LetterFixed("p");
    LetterFixed("o");
    LetterFixed("x");
    LetterFixed("y");
    LetterFixed("k");
    LetterFixed("l");
    LetterFixed("s");
    LetterFixed("t");
    LetterFixed("m");
    LetterFixed("n");
  }

  lemma LikesAreValid()
    ensures ValidCommand(LIKE_Y) && NormalizeCommand(LIKE_Y) == LIKE_Y
    ensures ValidCommand(LIKE_X) && NormalizeCommand(LIKE_X) == LIKE_X
    ensures NewSwipe("s", LIKE_Y, 1) == Ok(SWIPE_Y) && NewMatchFromSwipe("m", SWIPE_Y) == Ok(MATCH_Y)
    ensures NewSwipe("t", LIKE_X, 2) == Ok(SWIPE_X) && NewMatchFromSwipe("n", SWIPE_X) == Ok(MATCH_X)
  {
    LettersFixed();
  }

  /** A right swipe of a new pair adds its rows. */
  lemma RightSwipeAdds(t: Tables, cmd: Command, draw: Draw, now: Time, swipe: Swipe, m: Match)
    requires NewSwipe(draw.swipeId, cmd, now) == Ok(swipe) && NewMatchFromSwipe(draw.matchId, swipe) == Ok(m)
    requires cmd.key !in t.keys && Available(t.availability, cmd.animalId) && swipe.direction == Right
    requires swipe.id !in t.swipes && !AlreadySwiped(t.swipes, swipe.actorId, swipe.animalId)
    requires m.id !in t.matches && !AlreadyMatched(t.matches, m.adopterId, m.animalId)
    requires draw.swipeEventId !in t.outbox && draw.matchEventId !in t.outbox && draw.swipeEventId != draw.matchEventId
    ensures RecordSwipe(t, cmd, draw, now).0 == RightRows(t, cmd, draw, now, swipe, m)
  {
    var t1 := t.(swipes := t.swipes[swipe.id := swipe],
                 outbox := t.outbox[draw.swipeEventId :=
                   Outbox.NewRow(SwipeRecorded(swipe, cmd.key), swipe.actorId, now)]);
    assert InsertSwipe(t, swipe, cmd.key, draw.swipeEventId, now) == Ok(t1);
    assert draw.matchEventId !in t1.outbox;
    assert InsertMatch(t1, m, swipe, cmd.key, draw.matchEventId, now).Ok?;
  }

  function RightRows(t: Tables, cmd: Command, draw: Draw, now: Time, swipe: Swipe, m: Match): Tables {
    Tables(t.swipes[swipe.id := swipe], t.matches[m.id := m],
           t.keys[cmd.key := KeyRow(cmd.actorId, swipe.id, m.id)], t.availability,
           t.outbox[draw.swipeEventId := Outbox.NewRow(SwipeRecorded(swipe, cmd.key), swipe.actorId, now)]
                   [draw.matchEventId := Outbox.NewRow(MatchCreated(m, swipe, cmd.key), m.id, now)])
  }

  lemma AfterFirst()
    ensures Apply(EMPTY, STEPS[0]) == RightRows(EMPTY, LIKE_Y, DRAW_Y, 1, SWIPE_Y, MATCH_Y)
  {
    LikesAreValid();
    RightSwipeAdds(EMPTY, LIKE_Y, DRAW_Y, 1, SWIPE_Y, MATCH_Y);
  }

  lemma AfterSecond(t: Tables)
    requires t == RightRows(EMPTY, LIKE_Y, DRAW_Y, 1, SWIPE_Y, MATCH_Y)
    ensures Apply(t, STEPS[1]) == RightRows(t, LIKE_X, DRAW_X, 2, SWIPE_X, MATCH_X)
  {
    LikesAreValid();
    SecondFits(t);
    RightSwipeAdds(t, LIKE_X, DRAW_X, 2, SWIPE_X, MATCH_X);
  }

  lemma SecondFits(t: Tables)
    requires t == RightRows(EMPTY, LIKE_Y, DRAW_Y, 1, SWIPE_Y, MATCH_Y)
    ensures "l" !in t.keys && "t" !in t.swipes && "n" !in t.matches && "g" !in t.outbox && "h" !in t.outbox
    ensures !AlreadySwiped(t.swipes, "p", "x") && !AlreadyMatched(t.matches, "p", "x")
  {
  }

  lemma TwoMatches()
    ensures IsRun(EMPTY, STEPS)
    ensures Run(EMPTY, STEPS).matches == map["m" := MATCH_Y, "n" := MATCH_X] && "a" !in Run(EMPTY, STEPS).outbox
  {
    AfterFirst();
    AfterSecond(Apply(EMPTY, STEPS[0]));
    RunOfTwo(EMPTY, STEPS[0], STEPS[1]);
  }

  lemma RunOfTwo(t: Tables, a: Step, b: Step)
    requires Enabled(t, a) && Enabled(Apply(t, a), b)
    ensures IsRun(t, [a, b]) && Run(t, [a, b]) == Apply(Apply(t, a), b)
  {
    MatchingTheorems.OneStep(t, a);
    MatchingTheorems.OneStep(Apply(t, a), b);
    MatchingTheorems.RunConcat(t, [a], [b]);
    assert [a] + [b] == [a, b];
  }

  lemma ArchivesY(t: Tables)
    requires t.matches == map["m" := MATCH_Y, "n" := MATCH_X] && "a" !in t.outbox
    ensures Enabled(t, GONE_Y)
    ensures Apply(t, GONE_Y).matches == map["m" := MATCH_Y.(status := Archived, updatedAt := 3), "n" := MATCH_X]
  {
    LettersFixed();
    assert ActiveMatches(t, "y") == {"m"};
    ArchivesOne(t, "m", "a", 3);
  }

  lemma ArchivesOne(t: Tables, id: string, eventId: string, now: Time)
    requires id in t.matches && TrimSpace(t.matches[id].id) != "" && now != ZERO_TIME && eventId !in t.outbox
    ensures ArchiveRows(t, [id], [eventId], "", now).Ok?
    ensures ArchiveRows(t, [id], [eventId], "", now).value.matches
         == t.matches[id := t.matches[id].(status := Archived, updatedAt := now)]
  {
    assert [id][..0] == [] && [eventId][..0] == [];
    assert ArchiveRows(t, [id][..0], [eventId][..0], "", now) == Ok(t);
  }

  /** The match with "y" is active when the crawl begins, and the crawl ends without it. */
  lemma CrawlMissesY()
    ensures var t := Run(EMPTY, STEPS);
      && IsRun(EMPTY, STEPS) && Enabled(t, GONE_Y)
      && var tables := MatchTables([t, Apply(t, GONE_Y)], "p", [Active]);
      && Ends(tables, None, 1) && MatchKey(MATCH_Y) in tables[0] && MatchKey(MATCH_Y) !in Crawl(tables, None, 1)
  {
    TwoMatches();
    var t := Run(EMPTY, STEPS);
    ArchivesY(t);
    ListsBoth(t);
    ListsX(Apply(t, GONE_Y));
    assert MatchingTheorems.Reachable(t);
    ArchivedBeforeItsPageIsMissed(t, "n", "m", "p", GONE_Y);
  }

  lemma ListsBoth(t: Tables)
    requires t.matches == map["m" := MATCH_Y, "n" := MATCH_X]
    ensures MatchKeys(t, "p", [Active]) == {MatchKey(MATCH_X), MatchKey(MATCH_Y)}
  {
    assert t.matches["m"] == MATCH_Y && t.matches["n"] == MATCH_X;
  }

  lemma ListsX(t: Tables)
    requires t.matches == map["m" := MATCH_Y.(status := Archived, updatedAt := 3), "n" := MATCH_X]
    ensures MatchKeys(t, "p", [Active]) == {MatchKey(MATCH_X)}
  {
    assert t.matches["n"] == MATCH_X;
  }
}
