/** The matching service's entities and the constructors that validate them. */
module MatchingDomain {
  import opened Common
  import opened Text

  datatype Direction = DirectionUnspecified | Left | Right

  datatype MatchStatus = StatusUnspecified | Active | Archived | Blocked

  datatype Error = InvalidArgument | NotFound | DuplicateSwipe | UnavailableAnimal | StorageFailure

  datatype Command = Command(
    actorId: string,
    actorIsGuest: bool,
    animalId: string,
    ownerId: string,
    direction: Direction,
    feedCardId: string,
    feedSessionId: string,
    key: string)

  datatype Swipe = Swipe(
    id: string,
    actorId: string,
    actorIsGuest: bool,
    animalId: string,
    ownerId: string,
    direction: Direction,
    feedCardId: string,
    feedSessionId: string,
    swipedAt: Time)

  datatype Match = Match(
    id: string,
    animalId: string,
    adopterId: string,
    ownerId: string,
    conversationId: string,
    status: MatchStatus,
    createdAt: Time,
    updatedAt: Time)

  predicate ValidCommand(cmd: Command) {
    && TrimSpace(cmd.actorId) != ""
    && TrimSpace(cmd.animalId) != ""
    && TrimSpace(cmd.ownerId) != ""
    && (cmd.direction == Left || cmd.direction == Right)
    && TrimSpace(cmd.key) != ""
  }

  function NormalizeCommand(cmd: Command): Command {
    cmd.(actorId := TrimSpace(cmd.actorId),
         animalId := TrimSpace(cmd.animalId),
         ownerId := TrimSpace(cmd.ownerId),
         feedCardId := TrimSpace(cmd.feedCardId),
         feedSessionId := TrimSpace(cmd.feedSessionId),
         key := TrimSpace(cmd.key))
  }

  function NewSwipe(id: string, cmd: Command, now: Time): (r: Result<Swipe, Error>)
    ensures r.Ok? ==> r.value.id != "" && r.value.direction in {Left, Right}
    ensures r.Ok? ==> r.value.actorId != "" && r.value.animalId != "" && r.value.ownerId != ""
  {
    if TrimSpace(id) == "" || !ValidCommand(cmd) || now == ZERO_TIME then Err(InvalidArgument)
    else Ok(Swipe(TrimSpace(id), TrimSpace(cmd.actorId), cmd.actorIsGuest, TrimSpace(cmd.animalId),
                  TrimSpace(cmd.ownerId), cmd.direction, TrimSpace(cmd.feedCardId),
                  TrimSpace(cmd.feedSessionId), now))
  }

  /** A match repeats the people and the animal of the right swipe it comes from. */
  predicate Twin(swipe: Swipe, m: Match) {
    swipe.actorId == m.adopterId && swipe.animalId == m.animalId && swipe.ownerId == m.ownerId
  }

  function NewMatchFromSwipe(id: string, swipe: Swipe): (r: Result<Match, Error>)
    ensures r.Ok? ==> r.value.status == Active && r.value.conversationId == "" && TrimSpace(r.value.id) != ""
  {
    if || TrimSpace(id) == "" || swipe.direction != Right
       || TrimSpace(swipe.actorId) == "" || TrimSpace(swipe.animalId) == "" || TrimSpace(swipe.ownerId) == ""
       || swipe.swipedAt == ZERO_TIME
    then Err(InvalidArgument)
    else
      TrimSpaceFixed(TrimSpace(id));
      Ok(Match(TrimSpace(id), TrimSpace(swipe.animalId), TrimSpace(swipe.actorId), TrimSpace(swipe.ownerId),
               "", Active, swipe.swipedAt, swipe.swipedAt))
  }

  /** `Match.Archive`: an archived copy. */
  function Archive(m: Match, now: Time): Result<Match, Error> {
    if TrimSpace(m.id) == "" || now == ZERO_TIME then Err(InvalidArgument)
    else Ok(m.(status := Archived, updatedAt := now))
  }

  /** A command that `NewSwipe` accepts yields a swipe whose match, when it is a right swipe, is its twin. */
  lemma NewMatchIsTwin(swipeId: string, matchId: string, cmd: Command, now: Time)
    requires NewSwipe(swipeId, cmd, now).Ok?
    requires TrimSpace(matchId) != ""
    ensures var swipe := NewSwipe(swipeId, cmd, now).value;
      swipe.direction == Right <==>
        NewMatchFromSwipe(matchId, swipe).Ok? && Twin(swipe, NewMatchFromSwipe(matchId, swipe).value)
  {
    TrimSpaceFixed(TrimSpace(cmd.actorId));
    TrimSpaceFixed(TrimSpace(cmd.animalId));
    TrimSpaceFixed(TrimSpace(cmd.ownerId));
  }
}
