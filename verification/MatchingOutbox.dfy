/** The two halves meet: to the publishers, every domain transaction is an insertion of new rows. */
module MatchingOutbox {
  import opened Common
  import opened Text
  import opened MatchingDomain
  import opened MatchingTables
  import MatchingRuns
  import Publishers
  import Outbox

  /** `o'` is `o` with new, never tried rows. */
  ghost predicate Adds(o: Outbox.Table<Event>, o': Outbox.Table<Event>) {
    && (forall id :: id in o ==> id in o' && o'[id] == o[id])
    && (forall id :: id in o' && id !in o ==> Publishers.IsNew(o'[id]))
  }

  function NewRows(o: Outbox.Table<Event>, o': Outbox.Table<Event>): Outbox.Table<Event> {
    map id | id in o' && id !in o :: o'[id]
  }

  lemma InsertSwipeAdds(t: Tables, swipe: Swipe, key: string, eventId: string, now: Time)
    requires InsertSwipe(t, swipe, key, eventId, now).Ok?
    ensures Adds(t.outbox, InsertSwipe(t, swipe, key, eventId, now).value.outbox)
  {
  }

  lemma InsertMatchAdds(t: Tables, m: Match, swipe: Swipe, key: string, eventId: string, now: Time)
    requires InsertMatch(t, m, swipe, key, eventId, now).Ok?
    ensures Adds(t.outbox, InsertMatch(t, m, swipe, key, eventId, now).value.outbox)
  {
  }

  lemma AddsTransitive(a: Outbox.Table<Event>, b: Outbox.Table<Event>, c: Outbox.Table<Event>)
    requires Adds(a, b) && Adds(b, c)
    ensures Adds(a, c)
  {
  }

  lemma RecordAdds(t: Tables, cmd: Command, draw: Draw, now: Time)
    ensures Adds(t.outbox, RecordSwipe(t, cmd, draw, now).0.outbox)
  {
    var t' := RecordSwipe(t, cmd, draw, now).0;
    if t' != t {
      var swipe := NewSwipe(draw.swipeId, cmd, now).value;
      var t1 := InsertSwipe(t, swipe, cmd.key, draw.swipeEventId, now).value;
      InsertSwipeAdds(t, swipe, cmd.key, draw.swipeEventId, now);
      if swipe.direction == Right {
        var m := NewMatchFromSwipe(draw.matchId, swipe).value;
        InsertMatchAdds(t1, m, swipe, cmd.key, draw.matchEventId, now);
        AddsTransitive(t.outbox, t1.outbox, t'.outbox);
      }
    }
  }

  lemma {:induction false} ArchiveAdds(t: Tables, rows: seq<string>, eventIds: seq<string>, reason: string, now: Time)
    requires |rows| == |eventIds| && Present(t, rows)
    requires ArchiveRows(t, rows, eventIds, reason, now).Ok?
    ensures Adds(t.outbox, ArchiveRows(t, rows, eventIds, reason, now).value.outbox)
    decreases |rows|
  {
    if rows != [] {
      var last := |rows| - 1;
      MatchingRuns.ArchiveRowsLast(t, rows, eventIds, reason, now);
      ArchiveAdds(t, rows[..last], eventIds[..last], reason, now);
    }
  }

  lemma AddsIsInsertion(w: Publishers.World, o: Outbox.Table<Event>)
    requires Publishers.Busy(w) && Adds(w.outbox, o)
    ensures var insert := Publishers.Insert(NewRows(w.outbox, o));
      Publishers.Enabled(w, insert) && Publishers.Apply(w, insert) == w.(outbox := o)
  {
    assert w.outbox + NewRows(w.outbox, o) == o;
  }

  lemma DomainStepAdds(t: Tables, step: MatchingRuns.Step)
    requires MatchingRuns.Enabled(t, step) && !step.Fetch? && !step.Published? && !step.Failed?
    ensures Adds(t.outbox, MatchingRuns.Apply(t, step).outbox)
  {
    if step.Record? {
      RecordAdds(t, NormalizeCommand(step.cmd), step.draw, step.now);
    } else if step.ArchiveAnimal? {
      if TrimSpace(step.animalId) != ""
         && ArchiveRows(t, step.rows, step.eventIds, TrimSpace(step.reason), step.now).Ok? {
        ArchiveAdds(t, step.rows, step.eventIds, TrimSpace(step.reason), step.now);
      }
    }
  }

  /** The outbox statements of the run model are the publishers' claims and marks; every other step is an insertion. */
  lemma DomainStepsAreInsertions(t: Tables, step: MatchingRuns.Step, w: Publishers.World)
    requires MatchingRuns.Enabled(t, step) && !step.Fetch? && !step.Published? && !step.Failed?
    requires w.outbox == t.outbox && Publishers.Busy(w)
    ensures var t' := MatchingRuns.Apply(t, step);
      var insert := Publishers.Insert(NewRows(t.outbox, t'.outbox));
      Publishers.Enabled(w, insert) && Publishers.Apply(w, insert) == w.(outbox := t'.outbox)
  {
    DomainStepAdds(t, step);
    AddsIsInsertion(w, MatchingRuns.Apply(t, step).outbox);
  }
}
