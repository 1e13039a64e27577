/** The matching use cases: they validate and normalize their input and sequence the store's transactions. */
module MatchingService {
  import opened Common
  import opened Text
  import opened MatchingDomain
  import opened MatchingTables
  import opened MatchingRuns
  import opened MatchingStore

  const VALIDATION_ID := "validation-swipe-id"

  /** `validateRecordSwipeInput`: builds a throw-away swipe. */
  function Validate(cmd: Command, wall: Time): (r: Result<Swipe, Error>)
    requires wall != ZERO_TIME
    ensures r.Ok? <==> ValidCommand(cmd)
    ensures r.Err? ==> r.error == InvalidArgument
  {
    TrimSpaceFixed(VALIDATION_ID);
    NewSwipe(VALIDATION_ID, cmd, wall)
  }

  /** The store's reply already names the conversation of its match. */
  lemma ReplyNamesConversation(t: Tables, cmd: Command, draw: Draw, now: Time)
    ensures var reply := MatchingTables.RecordSwipe(t, cmd, draw, now).1;
      reply.Ok? && reply.value.matched.Some? && reply.value.matched.value.conversationId != "" ==>
        reply.value.chatCreated && reply.value.conversationId == reply.value.matched.value.conversationId
  {
  }

  class Service {
    const store: Store

    constructor (store: Store)
      ensures this.store == store
    {
      this.store := store;
    }

    /** `wall` is the system clock's reading, which is never the unset time. */
    method RecordSwipe(cmd: Command, draw: Draw, wall: Time, now: Time) returns (reply: Reply)
      requires wall != ZERO_TIME
      modifies store
      ensures (store.Rows(), reply) == ServiceRecord(old(store.Rows()), cmd, draw, now)
    {
      var checked := Validate(cmd, wall);
      if checked.Err? {
        return Err(checked.error);
      }
      ReplyNamesConversation(store.Rows(), NormalizeCommand(cmd), draw, now);
      reply := store.RecordSwipe(NormalizeCommand(cmd), draw, now);
      if reply.Ok? && reply.value.matched.Some? {
        var conversationId := reply.value.matched.value.conversationId;
        if conversationId != "" {
          reply := Ok(reply.value.(chatCreated := true, conversationId := conversationId));
        }
      }
    }

    method HandleAnimalArchived(animalId: string, reason: string, rows: seq<string>, eventIds: seq<string>, now: Time)
      returns (r: Result<seq<Match>, Error>)
      requires Enabled(store.Rows(), ArchiveAnimal(animalId, reason, rows, eventIds, now))
      modifies store
      ensures (store.Rows(), r) == ServiceArchive(old(store.Rows()), animalId, rows, eventIds, reason, now)
    {
      if TrimSpace(animalId) == "" {
        return Err(InvalidArgument);
      }
      r := store.ArchiveMatchesByAnimal(TrimSpace(animalId), TrimSpace(reason), rows, eventIds, now);
    }

    /** The two transactions one after the other; with other steps between them they are two steps of a run. */
    method HandleAnimalStatusChanged(animalId: string, available: bool, reason: string,
                                     rows: seq<string>, eventIds: seq<string>, now: Time)
      returns (r: Result<seq<Match>, Error>)
      requires Enabled(store.Rows(), ArchiveAnimal(animalId, reason, rows, eventIds, now))
      modifies store
      ensures var first := Apply(old(store.Rows()), SetAvailable(animalId, available));
        store.Rows() == if available then first
                        else Apply(first, ArchiveAnimal(animalId, reason, rows, eventIds, now))
      ensures r == if TrimSpace(animalId) == "" then Err(InvalidArgument)
                   else if available then Ok([])
                   else ServiceArchive(Apply(old(store.Rows()), SetAvailable(animalId, available)), animalId, rows,
                                       eventIds, reason, now).1
      ensures r.Ok? && !available ==> ActiveMatches(store.Rows(), TrimSpace(animalId)) == {}
    {
      ghost var t := store.Rows();
      if TrimSpace(animalId) == "" {
        return Err(InvalidArgument);
      }
      store.SetAnimalAvailability(TrimSpace(animalId), available);
      if available {
        return Ok([]);
      }
      ghost var t1 := store.Rows();
      assert ActiveMatches(t1, TrimSpace(animalId)) == ActiveMatches(t, TrimSpace(animalId));
      r := HandleAnimalArchived(animalId, reason, rows, eventIds, now);
      if r.Ok? {
        ArchiveRowsEffect(t1, rows, eventIds, TrimSpace(reason), now);
      }
    }

    method HandleConversationCreated(matchId: string, conversationId: string, now: Time) returns (r: Result<(), Error>)
      modifies store
      ensures store.Rows() == Apply(old(store.Rows()), ConversationCreated(matchId, conversationId, now))
      ensures r == if TrimSpace(matchId) == "" || TrimSpace(conversationId) == "" then Err(InvalidArgument)
                   else AttachConversation(old(store.Rows()), TrimSpace(matchId), TrimSpace(conversationId), now).1
    {
      if TrimSpace(matchId) == "" || TrimSpace(conversationId) == "" {
        return Err(InvalidArgument);
      }
      r := store.UpdateMatchConversation(TrimSpace(matchId), TrimSpace(conversationId), now);
    }
  }
}
