/** What holds of every run of the matching service. */
module MatchingTheorems {
  import opened Common
  import opened Text
  import opened MatchingDomain
  import opened MatchingTables
  import opened MatchingRuns

  ghost predicate Reachable(t: Tables) {
    exists steps :: IsRun(EMPTY, steps) && Run(EMPTY, steps) == t
  }

  /** In every reachable state: one swipe per pair, and right swipes and matches correspond one to one. */
  lemma SwipesAndMatchesCorrespond(t: Tables)
    requires Reachable(t)
    ensures forall a, b :: a in t.swipes && b in t.swipes && SamePair(t.swipes[a], t.swipes[b]) ==> a == b
    ensures forall s :: s in t.swipes && t.swipes[s].direction == Right ==>
      exists m :: m in t.matches && Twin(t.swipes[s], t.matches[m])
                  && forall other :: other in t.matches && Twin(t.swipes[s], t.matches[other]) ==> other == m
    ensures forall m :: m in t.matches ==>
      exists s :: s in t.swipes && t.swipes[s].direction == Right && Twin(t.swipes[s], t.matches[m])
                  && forall other :: other in t.swipes && Twin(t.swipes[other], t.matches[m]) ==> other == s
  {
    ReachableInv(t);
    forall s | s in t.swipes && t.swipes[s].direction == Right
      ensures exists m :: m in t.matches && Twin(t.swipes[s], t.matches[m])
                          && forall other :: other in t.matches && Twin(t.swipes[s], t.matches[other]) ==> other == m
    {
      assert HasMatch(t.matches, t.swipes[s]);
      var m :| m in t.matches && Twin(t.swipes[s], t.matches[m]);
      forall other | other in t.matches && Twin(t.swipes[s], t.matches[other]) ensures other == m {
        assert SameMatchedPair(t.matches[other], t.matches[m]);
      }
    }
    forall m | m in t.matches
      ensures exists s :: s in t.swipes && t.swipes[s].direction == Right && Twin(t.swipes[s], t.matches[m])
                          && forall other :: other in t.swipes && Twin(t.swipes[other], t.matches[m]) ==> other == s
    {
      assert HasSwipe(t.swipes, t.matches[m]);
      var s :| s in t.swipes && t.swipes[s].direction == Right && Twin(t.swipes[s], t.matches[m]);
      forall other | other in t.swipes && Twin(t.swipes[other], t.matches[m]) ensures other == s {
        assert SamePair(t.swipes[other], t.swipes[s]);
      }
    }
  }

  lemma ReachableInv(t: Tables)
    requires Reachable(t)
    ensures Inv(t)
  {
    EmptyInv();
    var steps :| IsRun(EMPTY, steps) && Run(EMPTY, steps) == t;
    RunKeeps(EMPTY, steps);
  }

  lemma {:induction false} RunConcat(t: Tables, first: seq<Step>, second: seq<Step>)
    requires IsRun(t, first) && IsRun(Run(t, first), second)
    ensures IsRun(t, first + second) && Run(t, first + second) == Run(Run(t, first), second)
    decreases |first|
  {
    if first == [] {
      assert first + second == second;
    } else {
      var t1, all := Apply(t, first[0]), first + second;
      assert all[0] == first[0] && all[1..] == first[1..] + second;
      RunConcat(t1, first[1..], second);
      assert IsRun(t1, all[1..]) && Run(t, all) == Run(t1, all[1..]);
    }
  }

  lemma ReachableAfterRun(t: Tables, steps: seq<Step>)
    requires Reachable(t) && IsRun(t, steps)
    ensures Reachable(Run(t, steps))
  {
    var first :| IsRun(EMPTY, first) && Run(EMPTY, first) == t;
    RunConcat(EMPTY, first, steps);
    var all := first + steps;
    assert IsRun(EMPTY, all) && Run(EMPTY, all) == Run(t, steps);
  }

  lemma OneStep(t: Tables, step: Step)
    requires Enabled(t, step)
    ensures IsRun(t, [step]) && Run(t, [step]) == Apply(t, step)
  {
    var t' := Apply(t, step);
    assert IsRun(t', []) && Run(t', []) == t';
    assert [step][0] == step && [step][1..] == [];
    assert IsRun(t, [step]) && Run(t, [step]) == Run(t', [step][1..]);
  }

  lemma ReachableEmpty()
    ensures Reachable(EMPTY)
  {
    assert IsRun(EMPTY, []) && Run(EMPTY, []) == EMPTY;
  }

  /** In every reachable state each swipe, match and archival has exactly one truthful event in the outbox. */
  lemma OutboxMirrorsTables(t: Tables, x: Subject)
    requires Reachable(t)
    ensures |Announcing(t.outbox, x)| == Expected(t.swipes, t.matches, x)
    ensures forall id :: id in Announcing(t.outbox, x) ==> Truthful(t.swipes, t.matches, t.outbox[id].event)
    ensures forall id :: id in t.outbox ==> Expected(t.swipes, t.matches, SubjectOf(t.outbox[id].event)) == 1
  {
    ReachableInv(t);
    forall id | id in t.outbox
      ensures Truthful(t.swipes, t.matches, t.outbox[id].event)
    {
    }
  }

  /** Each idempotency key names a stored swipe and exactly that swipe's match. */
  lemma KeysNameSwipeAndMatch(t: Tables, key: string)
    requires Reachable(t) && key in t.keys
    ensures var row := t.keys[key];
      && row.swipeId in t.swipes
      && (t.swipes[row.swipeId].direction == Left ==> row.matchId == "")
      && (t.swipes[row.swipeId].direction == Right ==>
            forall m :: m in t.matches && Twin(t.swipes[row.swipeId], t.matches[m]) <==> m == row.matchId)
  {
    ReachableInv(t);
    assert KeyRowOk(t.swipes, t.matches, t.keys[key]);
    var row := t.keys[key];
    forall m | m in t.matches && row.matchId in t.matches && Twin(t.swipes[row.swipeId], t.matches[row.matchId])
               && Twin(t.swipes[row.swipeId], t.matches[m])
      ensures m == row.matchId
    {
      assert SameMatchedPair(t.matches[m], t.matches[row.matchId]);
    }
  }

  /** What a reply says about its swipe and its match, apart from the columns that later steps may change. */
  ghost predicate SameRecord(a: Recorded, b: Recorded) {
    && a.swipe == b.swipe
    && a.matched.Some? == b.matched.Some?
    && (a.matched.Some? ==> MatchEvolves(a.matched.value, b.matched.value))
  }

  /**
   Idempotent replay. After a recorded swipe, and whatever happens in between, any valid command with the same key is
   answered with the same swipe and the same match, and changes nothing.
   */
  lemma ReplayIsIdempotent(t: Tables, cmd: Command, draw: Draw, now: Time, between: seq<Step>,
                           cmd': Command, draw': Draw, now': Time)
    requires Reachable(t)
    requires ServiceRecord(t, cmd, draw, now).1.Ok?
    requires IsRun(ServiceRecord(t, cmd, draw, now).0, between)
    requires ValidCommand(cmd') && TrimSpace(cmd'.key) == TrimSpace(cmd.key)
    ensures var (t1, first) := ServiceRecord(t, cmd, draw, now);
      var t2 := Run(t1, between);
      var (t3, again) := ServiceRecord(t2, cmd', draw', now');
      t3 == t2 && again.Ok? && again.value.idempotent && !again.value.createdMatch
        && SameRecord(first.value, again.value)
  {
    ReachableInv(t);
    RecordKeeps(t, cmd, draw, now);
    var (t1, first) := ServiceRecord(t, cmd, draw, now);
    RecordedUnderKey(t, cmd, draw, now);
    RunKeeps(t1, between);
    var t2 := Run(t1, between);
    var key := TrimSpace(cmd.key);
    assert KeyRowOk(t2.swipes, t2.matches, t2.keys[key]);
    if first.value.matched.Some? {
      assert MatchEvolves(t1.matches[first.value.matched.value.id], t2.matches[first.value.matched.value.id]);
    }
  }

  /** A recorded swipe is what its key names. */
  ghost predicate NamedByKey(t: Tables, key: string, r: Recorded) {
    && key in t.keys && t.keys[key].swipeId == r.swipe.id
    && r.swipe.id in t.swipes && t.swipes[r.swipe.id] == r.swipe
    && t.keys[key].matchId == (if r.matched.Some? then r.matched.value.id else "")
    && (r.matched.Some? ==> r.matched.value.id != "" && r.matched.value.id in t.matches
                            && t.matches[r.matched.value.id] == r.matched.value)
  }

  lemma ReplayNamedByKey(t: Tables, key: string)
    requires SwipeRows(t.swipes) && MatchRows(t.matches) && key in t.keys && Replay(t, key).Ok?
    ensures NamedByKey(t, key, Replay(t, key).value)
  {
  }

  lemma NewNamedByKey(t: Tables, cmd: Command, draw: Draw, now: Time)
    requires cmd.key !in t.keys && RecordSwipe(t, cmd, draw, now).1.Ok?
    ensures NamedByKey(RecordSwipe(t, cmd, draw, now).0, cmd.key, RecordSwipe(t, cmd, draw, now).1.value)
  {
    var swipe := NewSwipe(draw.swipeId, cmd, now).value;
    var t1 := InsertSwipe(t, swipe, cmd.key, draw.swipeEventId, now).value;
    assert t1.swipes == t.swipes[swipe.id := swipe];
    if swipe.direction == Right {
      var m := NewMatchFromSwipe(draw.matchId, swipe).value;
      var t2 := InsertMatch(t1, m, swipe, cmd.key, draw.matchEventId, now).value;
      assert t2.swipes == t1.swipes && t2.matches == t1.matches[m.id := m] && m.id != "";
      var row := KeyRow(cmd.actorId, swipe.id, m.id);
      assert RecordSwipe(t, cmd, draw, now)
          == (t2.(keys := t2.keys[cmd.key := row]), Ok(Recorded(swipe, Some(m), true, false, false, "")));
      NamedAfter(t2.(keys := t2.keys[cmd.key := row]), cmd.key, row, Recorded(swipe, Some(m), true, false, false, ""));
    } else {
      var row := KeyRow(cmd.actorId, swipe.id, "");
      assert RecordSwipe(t, cmd, draw, now)
          == (t1.(keys := t1.keys[cmd.key := row]), Ok(Recorded(swipe, None, false, false, false, "")));
      NamedAfter(t1.(keys := t1.keys[cmd.key := row]), cmd.key, row, Recorded(swipe, None, false, false, false, ""));
    }
  }

  lemma NamedAfter(t: Tables, key: string, row: KeyRow, r: Recorded)
    requires key in t.keys && t.keys[key] == row && row.swipeId == r.swipe.id
    requires r.swipe.id in t.swipes && t.swipes[r.swipe.id] == r.swipe
    requires row.matchId == if r.matched.Some? then r.matched.value.id else ""
    requires r.matched.Some? ==> r.matched.value.id != "" && r.matched.value.id in t.matches
                                 && t.matches[r.matched.value.id] == r.matched.value
    ensures NamedByKey(t, key, r)
  {
  }

  lemma RecordedUnderKey(t: Tables, cmd: Command, draw: Draw, now: Time)
    requires Inv(t) && ServiceRecord(t, cmd, draw, now).1.Ok?
    ensures var (t', reply) := ServiceRecord(t, cmd, draw, now); NamedByKey(t', TrimSpace(cmd.key), reply.value)
  {
    var n := NormalizeCommand(cmd);
    if n.key in t.keys {
      ReplayNamedByKey(t, n.key);
    } else {
      NewNamedByKey(t, n, draw, now);
    }
  }

  // ---------- An unavailable animal ----------

  predicate MakesAvailable(step: Step, animalId: string) {
    step.SetAvailable? && step.available && TrimSpace(step.animalId) == animalId
  }

  ghost predicate NeverMakesAvailable(steps: seq<Step>, animalId: string) {
    forall i :: 0 <= i < |steps| ==> !MakesAvailable(steps[i], animalId)
  }

  lemma NoNewActive(t: Tables, t': Tables, animalId: string)
    requires Evolves(t, t')
    requires forall id :: id in t'.matches && t'.matches[id].animalId == animalId ==> id in t.matches
    ensures ActiveMatches(t', animalId) <= ActiveMatches(t, animalId)
  {
    forall id | id in ActiveMatches(t', animalId) ensures id in ActiveMatches(t, animalId) {
      assert id in t.matches && MatchEvolves(t.matches[id], t'.matches[id]);
    }
  }

  /** The only match that recording a swipe can add is one of the animal it checked. */
  lemma RecordAddsCheckedAnimal(t: Tables, n: Command, draw: Draw, now: Time)
    ensures var t' := RecordSwipe(t, n, draw, now).0;
      && t'.availability == t.availability
      && (t'.matches == t.matches || Available(t.availability, n.animalId))
      && forall id :: id in t'.matches && id !in t.matches ==>
                        t'.matches[id].animalId == TrimSpace(TrimSpace(n.animalId))
  {
    var t' := RecordSwipe(t, n, draw, now).0;
    if t' == t {
      return;
    }
    var swipe := NewSwipe(draw.swipeId, n, now).value;
    var t1 := InsertSwipe(t, swipe, n.key, draw.swipeEventId, now).value;
    assert t1.availability == t.availability && t1.matches == t.matches;
    if swipe.direction == Right {
      var m := NewMatchFromSwipe(draw.matchId, swipe).value;
      var t2 := InsertMatch(t1, m, swipe, n.key, draw.matchEventId, now).value;
      assert t2.availability == t.availability && t2.matches == t.matches[m.id := m];
    }
  }

  /** An unavailable animal stays so, and gains no active match. */
  lemma UnavailableStep(t: Tables, step: Step, animalId: string)
    requires Enabled(t, step) && Evolves(t, Apply(t, step)) && !MakesAvailable(step, animalId)
    requires !Available(t.availability, animalId)
    ensures !Available(Apply(t, step).availability, animalId)
    ensures ActiveMatches(Apply(t, step), animalId) <= ActiveMatches(t, animalId)
  {
    match step
    case Record(cmd, draw, now) =>
      var n := NormalizeCommand(cmd);
      TrimSpaceFixed(n.animalId);
      RecordAddsCheckedAnimal(t, n, draw, now);
      NoNewActive(t, Apply(t, step), animalId);
    case ArchiveAnimal(id, reason, rows, eventIds, now) =>
      if TrimSpace(id) != "" && ArchiveRows(t, rows, eventIds, TrimSpace(reason), now).Ok? {
        ArchiveRowsEffect(t, rows, eventIds, TrimSpace(reason), now);
      }
      NoNewActive(t, Apply(t, step), animalId);
    case _ => NoNewActive(t, Apply(t, step), animalId);
  }

  lemma {:induction false} UnavailableRun(t: Tables, steps: seq<Step>, animalId: string)
    requires Inv(t) && IsRun(t, steps) && NeverMakesAvailable(steps, animalId)
    requires !Available(t.availability, animalId)
    ensures !Available(Run(t, steps).availability, animalId)
    ensures ActiveMatches(Run(t, steps), animalId) <= ActiveMatches(t, animalId)
    decreases |steps|
  {
    if steps != [] {
      assert !MakesAvailable(steps[0], animalId);
      StepKeeps(t, steps[0]);
      UnavailableStep(t, steps[0], animalId);
      forall i | 0 <= i < |steps[1..]| ensures !MakesAvailable(steps[1..][i], animalId) {
        assert steps[1..][i] == steps[i + 1];
      }
      UnavailableRun(Apply(t, steps[0]), steps[1..], animalId);
    }
  }

  /**
   Once both transactions of `HandleAnimalStatusChanged(available = false)` have committed, with anything in between and
   afterwards except making the animal available again, the animal has no active match.
   */
  lemma NoActiveMatchWhileUnavailable(t: Tables, animalId: string, between: seq<Step>, archive: Step,
                                      afterwards: seq<Step>)
    requires Reachable(t) && TrimSpace(animalId) != ""
    requires archive.ArchiveAnimal? && archive.animalId == animalId
    requires var t1 := Apply(t, SetAvailable(animalId, false));
      && IsRun(t1, between)
      && Enabled(Run(t1, between), archive)
      && ServiceArchive(Run(t1, between), animalId, archive.rows, archive.eventIds, archive.reason, archive.now).1.Ok?
      && IsRun(Apply(Run(t1, between), archive), afterwards)
    requires NeverMakesAvailable(between, TrimSpace(animalId)) && NeverMakesAvailable(afterwards, TrimSpace(animalId))
    ensures var t1 := Apply(t, SetAvailable(animalId, false));
      ActiveMatches(Run(Apply(Run(t1, between), archive), afterwards), TrimSpace(animalId)) == {}
  {
    var a := TrimSpace(animalId);
    ReachableInv(t);
    StepKeeps(t, SetAvailable(animalId, false));
    var t1 := Apply(t, SetAvailable(animalId, false));
    UnavailableRun(t1, between, a);
    RunKeeps(t1, between);
    var t2 := Run(t1, between);
    ArchivingLeavesNoActive(t2, archive);
    StepKeeps(t2, archive);
    UnavailableRun(Apply(t2, archive), afterwards, a);
  }

  lemma ArchivingLeavesNoActive(t: Tables, archive: Step)
    requires archive.ArchiveAnimal? && TrimSpace(archive.animalId) != "" && Enabled(t, archive)
    requires ServiceArchive(t, archive.animalId, archive.rows, archive.eventIds, archive.reason, archive.now).1.Ok?
    ensures ActiveMatches(Apply(t, archive), TrimSpace(archive.animalId)) == {}
    ensures Apply(t, archive).availability == t.availability
  {
    ArchiveRowsEffect(t, archive.rows, archive.eventIds, TrimSpace(archive.reason), archive.now);
  }

  /** A match that has been archived is never active again, and an attached conversation is never replaced. */
  lemma MatchesOnlyMoveForward(t: Tables, steps: seq<Step>, id: string)
    requires Reachable(t) && IsRun(t, steps) && id in t.matches
    ensures var t' := Run(t, steps);
      && id in t'.matches && SameMatch(t.matches[id], t'.matches[id])
      && (t.matches[id].status == Archived ==> t'.matches[id].status == Archived)
      && (t.matches[id].conversationId != "" ==> t'.matches[id].conversationId == t.matches[id].conversationId)
  {
    ReachableInv(t);
    RunKeeps(t, steps);
    MatchStays(t, Run(t, steps), id);
  }

  lemma MatchStays(t: Tables, t': Tables, id: string)
    requires Evolves(t, t') && id in t.matches
    ensures id in t'.matches && MatchEvolves(t.matches[id], t'.matches[id])
  {
  }
}
