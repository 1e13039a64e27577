/**
 Rotations that overlap. Read, create and revoke are steps of their own, so that any number of rotations interleave;
 each repository call may fail before or after it takes effect, and a session may stop anywhere.
 */
module RotationRaces {
  import opened Common
  import opened RefreshTokens
  import RefreshTokenTheorems

  /** How far a call of `RotateRefreshToken` has come; `current` is the presented token as it was read. */
  datatype Phase =
    | Fresh(current: Token, now: Time)
    | Reused(current: Token, now: Time)
    | Created(current: Token, now: Time, next: Token)
    | Won(current: Token, next: Token)
    | Caught(current: Token)
    | Ended

  datatype World = World(
    tokens: Table,
    sessions: map<int, Phase>,
    /** The ids of the tokens that callers were handed. */
    released: set<string>,
    /** The families that a detected reuse has revoked. */
    purged: set<string>)

  datatype Act =
    | Read(i: int, raw: string, now: Time, read: Outcome)
    | CreateNext(i: int, draw: Draw, now: Time, ttl: Time, created: Outcome)
    | Revoke(i: int, revoked: Outcome)
    | RevokeAll(i: int, revoked: Outcome)
    | Crash(i: int)

  /** The token with a hash, if there is one. */
  ghost function Find(t: Table, hash: Digest): Option<Token> {
    if Stored(t, hash) then
      var id :| id in t && t[id].hash == hash;
      Some(t[id])
    else None
  }

  lemma FindIs(t: Table, id: string, hash: Digest)
    requires UniqueHashes(t) && id in t && t[id].hash == hash
    ensures Find(t, hash) == Some(t[id])
  {
  }

  predicate Enabled(w: World, act: Act) {
    match act
    case Read(i, _, _, _) => i !in w.sessions
    case CreateNext(i, _, _, _, _) => i in w.sessions && w.sessions[i].Fresh?
    case Revoke(i, _) => i in w.sessions && w.sessions[i].Created?
    case RevokeAll(i, _) => i in w.sessions && w.sessions[i].Reused?
    case Crash(i) => i in w.sessions && (w.sessions[i].Fresh? || w.sessions[i].Reused? || w.sessions[i].Created?)
  }

  function WithPhase(w: World, i: int, phase: Phase): World {
    w.(sessions := w.sessions[i := phase])
  }

  ghost function AfterRead(t: Table, raw: string, now: Time, read: Outcome): Phase {
    match Find(t, Sha256(raw))
    case None => Ended
    case Some(current) =>
      if !read.Reported() || current.expiresAt < now then Ended
      else if current.revokedAt.Some? then Reused(current, now)
      else Fresh(current, now)
  }

  function NextToken(current: Token, draw: Draw, now: Time, ttl: Time): Option<Token> {
    if draw.id.None? || draw.raw.None? then None
    else Some(Token(draw.id.value, current.tenantId, current.userId, Sha256(draw.raw.value), current.familyId,
                    now + ttl, now, None, ""))
  }

  ghost function Apply(w: World, act: Act): World
    requires Enabled(w, act)
  {
    match act
    case Read(i, raw, now, read) => WithPhase(w, i, AfterRead(w.tokens, raw, now, read))
    case CreateNext(i, draw, now, ttl, created) =>
      var Fresh(current, readAt) := w.sessions[i];
      (match NextToken(current, draw, now, ttl)
       case None => WithPhase(w, i, Ended)
       case Some(next) =>
         var (t, ok) := Create(w.tokens, next, created);
         WithPhase(w.(tokens := t), i, if ok then Created(current, readAt, next) else Ended))
    case Revoke(i, revoked) =>
      var Created(current, now, next) := w.sessions[i];
      var w1 := if revoked.Applied() then w.(tokens := RevokeOne(w.tokens, current.id, "rotated", now)) else w;
      if revoked.Reported() then WithPhase(w1, i, Won(current, next)).(released := w1.released + {next.id})
      else WithPhase(w1, i, Ended)
    case RevokeAll(i, revoked) =>
      var Reused(current, now) := w.sessions[i];
      var w1 := if revoked.Applied()
                then w.(tokens := RevokeFamily(w.tokens, current.familyId, "reuse_detected", now),
                        purged := w.purged + {current.familyId})
                else w;
      WithPhase(w1, i, if revoked.Reported() then Caught(current) else Ended)
    case Crash(i) => WithPhase(w, i, Ended)
  }

  ghost predicate IsRun(w: World, acts: seq<Act>)
    decreases |acts|
  {
    acts == [] || (Enabled(w, acts[0]) && IsRun(Apply(w, acts[0]), acts[1..]))
  }

  ghost function Run(w: World, acts: seq<Act>): World
    requires IsRun(w, acts)
    decreases |acts|
  {
    if acts == [] then w else Run(Apply(w, acts[0]), acts[1..])
  }

  /** A session that nothing interrupts is the atomic rotation. */
  lemma SessionIsRotate(w: World, i: int, raw: string, draw: Draw, faults: Faults, now: Time, ttl: Time)
    requires UniqueHashes(w.tokens) && i !in w.sessions
    ensures var w1 := Apply(w, Read(i, raw, now, faults.read));
      var (t, reply) := Rotate(w.tokens, raw, draw, faults, now, ttl);
      match w1.sessions[i]
      case Fresh(_, _) =>
        var w2 := Apply(w1, CreateNext(i, draw, now, ttl, faults.created));
        if w2.sessions[i].Ended? then w2.tokens == t && reply.Err?
        else
          var w3 := Apply(w2, Revoke(i, faults.revoked));
          w3.tokens == t && (w3.sessions[i].Won? <==> reply.Ok?)
            && (reply.Ok? ==> w3.sessions[i].next == reply.value.token)
      case Reused(_, _) =>
        var w2 := Apply(w1, RevokeAll(i, faults.revoked));
        w2.tokens == t && (w2.sessions[i].Caught? <==> reply == Err(TokenReused))
      case _ => w1.tokens == t && (reply == Err(InvalidToken) || reply == Err(TokenExpired))
  {
    if Stored(w.tokens, Sha256(raw)) {
      var current := Lookup(w.tokens, Sha256(raw));
      FoundIsLookedUp(w.tokens, Sha256(raw));
    }
  }

  lemma FoundIsLookedUp(t: Table, hash: Digest)
    requires UniqueHashes(t) && Stored(t, hash)
    ensures Find(t, hash) == Some(Lookup(t, hash))
  {
    var id :| id in t && t[id] == Lookup(t, hash) && t[id].hash == hash;
    FindIs(t, id, hash);
  }

  // ---------- The invariant ----------

  predicate InFamily(t: Table, id: string, familyId: string) {
    id in t && t[id].familyId == familyId
  }

  predicate IsRevoked(t: Table, id: string) {
    id in t && t[id].revokedAt.Some?
  }

  predicate HasNext(phase: Phase) {
    phase.Created? || phase.Won?
  }

  ghost predicate PhaseOk(t: Table, released: set<string>, phase: Phase) {
    && (!phase.Ended? ==> InFamily(t, phase.current.id, phase.current.familyId))
    && (HasNext(phase) ==> InFamily(t, phase.next.id, phase.current.familyId))
    && (phase.Created? ==> phase.next.id !in released)
    && (phase.Won? ==> phase.next.id in released && IsRevoked(t, phase.current.id))
    && (phase.Reused? || phase.Caught? ==> IsRevoked(t, phase.current.id))
  }

  predicate DistinctNext(a: Phase, b: Phase) {
    HasNext(a) && HasNext(b) ==> a.next.id != b.next.id
  }

  ghost predicate PhasesOk(t: Table, released: set<string>, sessions: map<int, Phase>) {
    && (forall i {:trigger PhaseOk(t, released, sessions[i])} :: i in sessions ==> PhaseOk(t, released, sessions[i]))
    && (forall i, j {:trigger DistinctNext(sessions[i], sessions[j])} ::
          i in sessions && j in sessions && i != j ==> DistinctNext(sessions[i], sessions[j]))
  }

  ghost predicate TableOk(t: Table) {
    UniqueHashes(t) && forall id :: id in t ==> t[id].id == id
  }

  ghost predicate Inv(w: World) {
    TableOk(w.tokens) && w.released <= w.tokens.Keys && PhasesOk(w.tokens, w.released, w.sessions)
  }

  /** Tokens are never removed, keep their family, and stay revoked. */
  ghost predicate TableEvolves(t: Table, t': Table) {
    forall id {:trigger id in t} {:trigger id in t'} :: id in t ==>
      && id in t' && t'[id].familyId == t[id].familyId && t'[id].hash == t[id].hash
      && (t[id].revokedAt.Some? ==> t'[id].revokedAt.Some?)
  }

  lemma PhaseStays(t: Table, t': Table, released: set<string>, released': set<string>, phase: Phase)
    requires PhaseOk(t, released, phase) && TableEvolves(t, t') && released <= released'
    requires phase.Created? ==> phase.next.id !in released'
    ensures PhaseOk(t', released', phase)
  {
  }

  /** One session moves to a phase that fits the new tables; the others are as they were. */
  lemma MoveKeeps(w: World, w': World, i: int, phase: Phase)
    requires Inv(w) && TableOk(w'.tokens) && TableEvolves(w.tokens, w'.tokens)
    requires w.released <= w'.released <= w'.tokens.Keys && w'.sessions == w.sessions[i := phase]
    requires PhaseOk(w'.tokens, w'.released, phase)
    requires forall id :: id in w'.released && id !in w.released ==> HasNext(phase) && id == phase.next.id
    requires HasNext(phase) ==> forall j :: j in w.sessions && j != i ==> DistinctNext(w.sessions[j], phase)
    ensures Inv(w')
  {
    forall j | j in w'.sessions ensures PhaseOk(w'.tokens, w'.released, w'.sessions[j]) {
      if j != i {
        assert PhaseOk(w.tokens, w.released, w.sessions[j]);
        assert HasNext(phase) ==> DistinctNext(w.sessions[j], phase);
        PhaseStays(w.tokens, w'.tokens, w.released, w'.released, w.sessions[j]);
      }
    }
    forall a, b | a in w'.sessions && b in w'.sessions && a != b ensures DistinctNext(w'.sessions[a], w'.sessions[b]) {
      if a != i && b != i {
        assert DistinctNext(w.sessions[a], w.sessions[b]);
      } else if HasNext(phase) {
        var other := if a == i then b else a;
        assert DistinctNext(w.sessions[other], phase);
      }
    }
  }

  lemma ActEvolves(w: World, act: Act)
    requires Inv(w) && Enabled(w, act)
    ensures TableEvolves(w.tokens, Apply(w, act).tokens)
  {
    match act
    case CreateNext(i, draw, now, ttl, created) =>
      var next := NextToken(w.sessions[i].current, draw, now, ttl);
      if next.Some? {
        CreateEvolves(w.tokens, next.value, created);
      }
    case Revoke(i, _) => RevokeOneEvolves(w.tokens, w.sessions[i].current.id, "rotated", w.sessions[i].now);
    case RevokeAll(i, _) =>
      RevokeFamilyEvolves(w.tokens, w.sessions[i].current.familyId, "reuse_detected", w.sessions[i].now);
    case _ =>
  }

  lemma CreateEvolves(t: Table, token: Token, created: Outcome)
    ensures TableEvolves(t, Create(t, token, created).0)
  {
  }

  lemma RevokeOneEvolves(t: Table, id: string, reason: string, now: Time)
    ensures TableEvolves(t, RevokeOne(t, id, reason, now))
  {
  }

  lemma RevokeFamilyEvolves(t: Table, familyId: string, reason: string, now: Time)
    ensures TableEvolves(t, RevokeFamily(t, familyId, reason, now))
  {
  }

  lemma CreateNextKeeps(w: World, i: int, draw: Draw, now: Time, ttl: Time, created: Outcome)
    requires Inv(w) && Enabled(w, CreateNext(i, draw, now, ttl, created))
    ensures Inv(Apply(w, CreateNext(i, draw, now, ttl, created)))
  {
    var w' := Apply(w, CreateNext(i, draw, now, ttl, created));
    var phase := w.sessions[i];
    assert PhaseOk(w.tokens, w.released, phase);
    ActEvolves(w, CreateNext(i, draw, now, ttl, created));
    if w'.sessions[i].Created? {
      var next := w'.sessions[i].next;
      forall j | j in w.sessions && j != i ensures DistinctNext(w.sessions[j], w'.sessions[i]) {
        assert PhaseOk(w.tokens, w.released, w.sessions[j]);
      }
    }
    MoveKeeps(w, w', i, w'.sessions[i]);
  }

  lemma RevokeKeeps(w: World, i: int, revoked: Outcome)
    requires Inv(w) && Enabled(w, Revoke(i, revoked))
    ensures Inv(Apply(w, Revoke(i, revoked)))
  {
    var w' := Apply(w, Revoke(i, revoked));
    var phase := w.sessions[i];
    assert PhaseOk(w.tokens, w.released, phase);
    forall j | j in w.sessions && j != i ensures DistinctNext(w.sessions[j], phase) {
    }
    MoveKeeps(w, w', i, w'.sessions[i]);
  }

  lemma ActKeeps(w: World, act: Act)
    requires Inv(w) && Enabled(w, act)
    ensures Inv(Apply(w, act))
  {
    match act
    case Read(i, raw, now, read) => MoveKeeps(w, Apply(w, act), i, AfterRead(w.tokens, raw, now, read));
    case CreateNext(i, draw, now, ttl, created) => CreateNextKeeps(w, i, draw, now, ttl, created);
    case Revoke(i, revoked) => RevokeKeeps(w, i, revoked);
    case RevokeAll(i, revoked) =>
      assert PhaseOk(w.tokens, w.released, w.sessions[i]);
      MoveKeeps(w, Apply(w, act), i, Apply(w, act).sessions[i]);
    case Crash(i) => MoveKeeps(w, Apply(w, act), i, Ended);
  }

  lemma {:induction false} RunKeeps(w: World, acts: seq<Act>)
    requires Inv(w) && IsRun(w, acts)
    ensures Inv(Run(w, acts))
    decreases |acts|
  {
    if acts != [] {
      ActKeeps(w, acts[0]);
      RunKeeps(Apply(w, acts[0]), acts[1..]);
    }
  }

  // ---------- Who wins ----------

  /** The act revokes the token: its own rotation's last step, or the revocation of its family. */
  predicate RevokesToken(w: World, act: Act, id: string)
    requires Enabled(w, act)
  {
    match act
    case Revoke(i, revoked) => revoked.Applied() && w.sessions[i].current.id == id
    case RevokeAll(i, revoked) => revoked.Applied() && InFamily(w.tokens, id, w.sessions[i].current.familyId)
    case _ => false
  }

  ghost predicate RevokedDuring(w: World, acts: seq<Act>, id: string)
    requires IsRun(w, acts)
    decreases |acts|
  {
    acts != [] && (RevokesToken(w, acts[0], id) || RevokedDuring(Apply(w, acts[0]), acts[1..], id))
  }

  lemma ActRevokesExactly(w: World, act: Act, id: string)
    requires Inv(w) && Enabled(w, act)
    ensures IsRevoked(Apply(w, act).tokens, id) <==> IsRevoked(w.tokens, id) || RevokesToken(w, act, id)
  {
    if act.Revoke? {
      assert PhaseOk(w.tokens, w.released, w.sessions[act.i]);
    }
  }

  lemma {:induction false} RevokedExactly(w: World, acts: seq<Act>, id: string)
    requires Inv(w) && IsRun(w, acts)
    ensures IsRevoked(Run(w, acts).tokens, id) <==> IsRevoked(w.tokens, id) || RevokedDuring(w, acts, id)
    decreases |acts|
  {
    if acts != [] {
      ActRevokesExactly(w, acts[0], id);
      ActKeeps(w, acts[0]);
      RevokedExactly(Apply(w, acts[0]), acts[1..], id);
    }
  }

  /** A session that found its token unrevoked is never caught, and one that found it revoked never wins. */
  predicate Follows(before: Phase, after: Phase) {
    match before
    case Fresh(_, _) => !after.Reused? && !after.Caught?
    case Created(_, _, _) => !after.Reused? && !after.Caught? && !after.Fresh?
    case Reused(_, _) => after.Reused? || after.Caught? || after.Ended?
    case _ => after == before
  }

  lemma {:induction false} SessionFollows(w: World, acts: seq<Act>, i: int)
    requires IsRun(w, acts) && i in w.sessions
    ensures i in Run(w, acts).sessions && Follows(w.sessions[i], Run(w, acts).sessions[i])
    decreases |acts|
  {
    if acts != [] {
      SessionFollows(Apply(w, acts[0]), acts[1..], i);
    }
  }

  /**
   Over every interleaving, a rotation that is answered at all succeeds if and only if its read came before the first
   revocation of the token; otherwise it reports reuse.
   */
  lemma OverlapExactly(w: World, before: seq<Act>, i: int, raw: string, now: Time, read: Outcome, after: seq<Act>,
                       id: string)
    requires Inv(w) && IsRun(w, before) && Enabled(Run(w, before), Read(i, raw, now, read))
    requires IsRun(Apply(Run(w, before), Read(i, raw, now, read)), after)
    requires id in Run(w, before).tokens && Run(w, before).tokens[id].hash == Sha256(raw)
    ensures var end := Run(Apply(Run(w, before), Read(i, raw, now, read)), after);
      && i in end.sessions
      && (end.sessions[i].Won? || end.sessions[i].Caught? ==>
            (end.sessions[i].Won? <==> !IsRevoked(w.tokens, id) && !RevokedDuring(w, before, id)))
  {
    RunKeeps(w, before);
    RevokedExactly(w, before, id);
    var w1 := Run(w, before);
    FindIs(w1.tokens, id, Sha256(raw));
    SessionFollows(Apply(w1, Read(i, raw, now, read)), after, i);
  }

  // ---------- How many tokens are usable ----------

  ghost function ReleasedIn(w: World, f: string): set<string> {
    set id | id in w.released && InFamily(w.tokens, id, f)
  }

  /** The tokens of a family that are in a caller's hands and unrevoked. */
  ghost function Usable(w: World, f: string): set<string> {
    set id | id in ReleasedIn(w, f) && !IsRevoked(w.tokens, id)
  }

  ghost function Wins(w: World, f: string): set<int> {
    set i | i in w.sessions && w.sessions[i].Won? && w.sessions[i].current.familyId == f
  }

  lemma SameReleased(w: World, w': World, f: string)
    requires TableEvolves(w.tokens, w'.tokens) && w.released <= w.tokens.Keys && w'.released == w.released
    ensures ReleasedIn(w', f) == ReleasedIn(w, f)
  {
    forall id | id in w.released ensures InFamily(w'.tokens, id, f) <==> InFamily(w.tokens, id, f) {
      assert id in w.tokens;
    }
  }

  lemma OneMoreReleased(w: World, w': World, id: string, family: string, f: string)
    requires TableEvolves(w.tokens, w'.tokens) && w.released <= w.tokens.Keys && w'.released == w.released + {id}
    requires id !in w.released && InFamily(w.tokens, id, family)
    ensures ReleasedIn(w', f) == ReleasedIn(w, f) + if family == f then {id} else {}
  {
    forall other | other in w'.released ensures InFamily(w'.tokens, other, f) <==> InFamily(w.tokens, other, f) {
      assert other in w.tokens;
    }
  }

  lemma SameWins(w: World, w': World, i: int, phase: Phase, f: string)
    requires w'.sessions == w.sessions[i := phase] && !phase.Won? && (i in w.sessions ==> !w.sessions[i].Won?)
    ensures Wins(w', f) == Wins(w, f)
  {
  }

  lemma OneMoreWin(w: World, w': World, i: int, phase: Phase, f: string)
    requires w'.sessions == w.sessions[i := phase] && phase.Won? && i in w.sessions && !w.sessions[i].Won?
    ensures Wins(w', f) == Wins(w, f) + if phase.current.familyId == f then {i} else {}
    ensures i !in Wins(w, f)
  {
  }

  /** The act is the answered last step of a rotation. */
  predicate Succeeds(act: Act) {
    act.Revoke? && act.revoked.Reported()
  }

  /** Any other act hands out nothing. */
  lemma OtherActMoves(w: World, act: Act)
    requires Enabled(w, act) && !Succeeds(act)
    ensures var w' := Apply(w, act);
      && w'.released == w.released && act.i in w'.sessions && !w'.sessions[act.i].Won?
      && w'.sessions == w.sessions[act.i := w'.sessions[act.i]] && (act.i in w.sessions ==> !w.sessions[act.i].Won?)
  {
  }

  lemma WinReleases(w: World, act: Act, f: string)
    requires Inv(w) && Enabled(w, act) && Succeeds(act) && TableEvolves(w.tokens, Apply(w, act).tokens)
    ensures |ReleasedIn(Apply(w, act), f)| - |Wins(Apply(w, act), f)| == |ReleasedIn(w, f)| - |Wins(w, f)|
  {
    var w', phase := Apply(w, act), w.sessions[act.i];
    assert PhaseOk(w.tokens, w.released, phase);
    OneMoreReleased(w, w', phase.next.id, phase.current.familyId, f);
    OneMoreWin(w, w', act.i, w'.sessions[act.i], f);
    if phase.current.familyId == f {
      CardAdd(ReleasedIn(w, f), phase.next.id);
      CardAdd(Wins(w, f), act.i);
    }
  }

  /** Every success hands out one more token of the family, and nothing else does. */
  lemma ActReleases(w: World, act: Act, f: string)
    requires Inv(w) && Enabled(w, act)
    ensures |ReleasedIn(Apply(w, act), f)| - |Wins(Apply(w, act), f)| == |ReleasedIn(w, f)| - |Wins(w, f)|
  {
    var w' := Apply(w, act);
    ActEvolves(w, act);
    if Succeeds(act) {
      WinReleases(w, act, f);
    } else {
      OtherActMoves(w, act);
      SameReleased(w, w', f);
      SameWins(w, w', act.i, w'.sessions[act.i], f);
    }
  }

  lemma {:induction false} WinsAreReleases(w: World, acts: seq<Act>, f: string)
    requires Inv(w) && IsRun(w, acts)
    ensures |ReleasedIn(Run(w, acts), f)| - |Wins(Run(w, acts), f)| == |ReleasedIn(w, f)| - |Wins(w, f)|
    decreases |acts|
  {
    if acts != [] {
      ActReleases(w, acts[0], f);
      ActKeeps(w, acts[0]);
      WinsAreReleases(Apply(w, acts[0]), acts[1..], f);
    }
  }

  // ---------- Rotations of one token ----------

  /** Every rotation under way is one of the token. */
  ghost predicate AllOn(w: World, id: string) {
    forall i :: i in w.sessions && !w.sessions[i].Ended? ==> w.sessions[i].current.id == id
  }

  /** The acts present the token and no other. */
  ghost predicate Presents(hash: Digest, acts: seq<Act>) {
    forall act :: act in acts && act.Read? ==> Sha256(act.raw) == hash
  }

  /**
   Of the tokens handed out in the family, the revoked ones are those of the start and, once revoked, the contested one.
   */
  ghost predicate OnlyContestedRevoked(w: World, f: string, id: string, dead: set<string>) {
    forall other {:trigger IsRevoked(w.tokens, other)} ::
      InFamily(w.tokens, other, f) && IsRevoked(w.tokens, other) ==> other in dead || other == id
  }

  lemma ActOnOne(w: World, act: Act, id: string, f: string, dead: set<string>)
    requires Inv(w) && Enabled(w, act) && InFamily(w.tokens, id, f) && AllOn(w, id)
    requires act.Read? ==> Sha256(act.raw) == w.tokens[id].hash
    requires OnlyContestedRevoked(w, f, id, dead) && f !in Apply(w, act).purged
    ensures InFamily(Apply(w, act).tokens, id, f) && Apply(w, act).tokens[id].hash == w.tokens[id].hash
    ensures AllOn(Apply(w, act), id) && OnlyContestedRevoked(Apply(w, act), f, id, dead)
  {
    var w' := Apply(w, act);
    match act
    case Read(i, raw, now, read) => FindIs(w.tokens, id, Sha256(raw));
    case Crash(i) =>
    case _ => assert PhaseOk(w.tokens, w.released, w.sessions[act.i]);
    forall other | InFamily(w'.tokens, other, f) && IsRevoked(w'.tokens, other) ensures other in dead || other == id {
      ActRevokesExactly(w, act, other);
    }
  }

  lemma {:induction false} RunOnOne(w: World, acts: seq<Act>, id: string, f: string, dead: set<string>)
    requires Inv(w) && IsRun(w, acts) && InFamily(w.tokens, id, f) && AllOn(w, id)
    requires Presents(w.tokens[id].hash, acts) && OnlyContestedRevoked(w, f, id, dead) && f !in Run(w, acts).purged
    ensures InFamily(Run(w, acts).tokens, id, f) && OnlyContestedRevoked(Run(w, acts), f, id, dead)
    decreases |acts|
  {
    if acts != [] {
      PurgedStays(Apply(w, acts[0]), acts[1..], f);
      ActOnOne(w, acts[0], id, f, dead);
      ActKeeps(w, acts[0]);
      RunOnOne(Apply(w, acts[0]), acts[1..], id, f, dead);
    }
  }

  lemma {:induction false} PurgedStays(w: World, acts: seq<Act>, f: string)
    requires IsRun(w, acts)
    ensures f in w.purged ==> f in Run(w, acts).purged
    decreases |acts|
  {
    if acts != [] {
      PurgedStays(Apply(w, acts[0]), acts[1..], f);
    }
  }

  /** What is handed out during a run did not exist at its start. */
  ghost predicate OnlyNew(w: World, start: World) {
    && start.tokens.Keys <= w.tokens.Keys && start.released <= w.released
    && (forall id :: id in w.released && id !in start.released ==> id !in start.tokens)
    && (forall i :: i in w.sessions && HasNext(w.sessions[i]) ==> w.sessions[i].next.id !in start.tokens)
  }

  lemma {:induction false} RunOnlyNew(w: World, acts: seq<Act>, start: World)
    requires Inv(w) && IsRun(w, acts) && OnlyNew(w, start)
    ensures OnlyNew(Run(w, acts), start)
    decreases |acts|
  {
    if acts != [] {
      ActOnlyNew(w, acts[0], start);
      ActKeeps(w, acts[0]);
      RunOnlyNew(Apply(w, acts[0]), acts[1..], start);
    }
  }

  lemma ActOnlyNew(w: World, act: Act, start: World)
    requires Inv(w) && Enabled(w, act) && OnlyNew(w, start)
    ensures OnlyNew(Apply(w, act), start)
  {
    ActEvolves(w, act);
    forall id | id in w.tokens ensures id in Apply(w, act).tokens {
    }
  }

  ghost function RevokedIn(w: World, f: string): set<string> {
    set id | id in w.tokens && InFamily(w.tokens, id, f) && IsRevoked(w.tokens, id)
  }

  lemma UsableCount(w: World, f: string)
    ensures |Usable(w, f)| == |ReleasedIn(w, f)| - |ReleasedIn(w, f) * RevokedIn(w, f)|
  {
    assert Usable(w, f) == ReleasedIn(w, f) - ReleasedIn(w, f) * RevokedIn(w, f);
    CardMinus(ReleasedIn(w, f), ReleasedIn(w, f) * RevokedIn(w, f));
  }

  /** The revoked tokens that were handed out: those of the start, and the contested one if it is. */
  lemma DeadAtEnd(w: World, acts: seq<Act>, id: string, f: string)
    requires Inv(w) && w.sessions == map[] && IsRun(w, acts)
    requires id in Usable(w, f) && Presents(w.tokens[id].hash, acts) && f !in Run(w, acts).purged
    ensures var end := Run(w, acts);
      ReleasedIn(end, f) * RevokedIn(end, f)
      == ReleasedIn(w, f) * RevokedIn(w, f) + if IsRevoked(end.tokens, id) then {id} else {}
  {
    var end := Run(w, acts);
    RunOnOne(w, acts, id, f, RevokedIn(w, f));
    RunOnlyNew(w, acts, w);
    RunEvolves(w, acts);
    var dead, gone := ReleasedIn(w, f) * RevokedIn(w, f), ReleasedIn(end, f) * RevokedIn(end, f);
    forall other | other in dead ensures other in gone {
      assert other in w.tokens;
    }
    assert id in w.tokens && id in end.released;
    forall other | other in gone ensures other in dead || other == id {
      assert InFamily(end.tokens, other, f) && IsRevoked(end.tokens, other);
    }
  }

  lemma {:induction false} RunEvolves(w: World, acts: seq<Act>)
    requires Inv(w) && IsRun(w, acts)
    ensures TableEvolves(w.tokens, Run(w, acts).tokens)
    decreases |acts|
  {
    if acts != [] {
      ActEvolves(w, acts[0]);
      ActKeeps(w, acts[0]);
      RunEvolves(Apply(w, acts[0]), acts[1..]);
      EvolvesOn(w.tokens, Apply(w, acts[0]).tokens, Run(w, acts).tokens);
    }
  }

  lemma EvolvesOn(a: Table, b: Table, c: Table)
    requires TableEvolves(a, b) && TableEvolves(b, c)
    ensures TableEvolves(a, c)
  {
    forall id | id in a ensures id in c && c[id].familyId == a[id].familyId && c[id].hash == a[id].hash
                                && (a[id].revokedAt.Some? ==> c[id].revokedAt.Some?) {
      assert id in b;
    }
  }

  lemma WinnersAreUsable(w: World, acts: seq<Act>, id: string, f: string)
    requires Inv(w) && w.sessions == map[] && IsRun(w, acts)
    requires id in Usable(w, f) && Presents(w.tokens[id].hash, acts) && f !in Run(w, acts).purged
    ensures var end := Run(w, acts); forall i :: i in Wins(end, f) ==> end.sessions[i].next.id in Usable(end, f)
  {
    var end := Run(w, acts);
    RunKeeps(w, acts);
    RunOnOne(w, acts, id, f, RevokedIn(w, f));
    RunOnlyNew(w, acts, w);
    forall i | i in Wins(end, f) ensures end.sessions[i].next.id in Usable(end, f) {
      assert PhaseOk(end.tokens, end.released, end.sessions[i]);
      var next := end.sessions[i].next.id;
      assert next !in w.tokens && id in w.tokens;
      assert next in ReleasedIn(end, f);
    }
  }

  /**
   Any number of rotations of a family's one usable token, in any interleaving: unless a reuse revoked the family, it
   ends with one usable token per successful rotation, and with the token itself if nobody revoked it.
   */
  lemma OneUsablePerWin(w: World, acts: seq<Act>, id: string, f: string)
    requires Inv(w) && w.sessions == map[] && IsRun(w, acts)
    requires Usable(w, f) == {id} && Presents(w.tokens[id].hash, acts) && f !in Run(w, acts).purged
    ensures var end := Run(w, acts);
      && |Usable(end, f)| == |Wins(end, f)| + (if IsRevoked(end.tokens, id) then 0 else 1)
      && forall i :: i in Wins(end, f) ==> end.sessions[i].next.id in Usable(end, f)
  {
    var end := Run(w, acts);
    WinnersAreUsable(w, acts, id, f);
    assert id in Usable(w, f);
    WinsAreReleases(w, acts, f);
    assert Wins(w, f) == {};
    UsableCount(w, f);
    UsableCount(end, f);
    DeadAtEnd(w, acts, id, f);
    if IsRevoked(end.tokens, id) {
      CardAdd(ReleasedIn(w, f) * RevokedIn(w, f), id);
    }
  }

  /** The world in which races begin: no rotation is under way. */
  function Quiet(s: State): World {
    World(s.tokens, map[], set id | id in s.tokens && id in Chain(s, s.tokens[id].familyId), {})
  }

  /** Whatever calls came before, a usable token is the one usable token of its family when a race for it begins. */
  lemma RaceBegins(s: State, ttl: Time, id: string)
    requires RefreshTokenTheorems.Reachable(s, ttl) && RefreshTokenTheorems.Usable(s, id)
    ensures Inv(Quiet(s)) && Usable(Quiet(s), s.tokens[id].familyId) == {id}
  {
    RefreshTokenTheorems.ReachableInv(s, ttl);
    var f := s.tokens[id].familyId;
    forall other | other in Usable(Quiet(s), f) ensures other == id {
      RefreshTokenTheorems.OneUsableTokenPerFamily(s, ttl, other, id);
    }
  }

  lemma CardMinus<T>(s: set<T>, r: set<T>)
    requires r <= s
    ensures |s - r| == |s| - |r|
  {
    assert s == r + (s - r);
  }

  // ---------- When a detected reuse is final ----------

  /** No token of the family is unrevoked, and no rotation is about to make one. */
  ghost predicate Dead(w: World, f: string) {
    && (forall id :: id in w.tokens && w.tokens[id].familyId == f ==> w.tokens[id].revokedAt.Some?)
    && !PendingIn(w, f)
  }

  /** A rotation of a token of the family has read it as good and has not yet made the next one. */
  predicate PendingIn(w: World, f: string) {
    exists i :: i in w.sessions && w.sessions[i].Fresh? && w.sessions[i].current.familyId == f
  }

  ghost predicate NeverUsable(w: World, f: string) {
    forall acts :: IsRun(w, acts) ==> Usable(Run(w, acts), f) == {}
  }

  lemma ReadStaysDead(w: World, i: int, raw: string, now: Time, read: Outcome, f: string)
    requires Inv(w) && Dead(w, f) && i !in w.sessions
    ensures Dead(Apply(w, Read(i, raw, now, read)), f)
  {
    var phase := AfterRead(w.tokens, raw, now, read);
    assert phase.Fresh? ==> phase.current.familyId != f;
  }

  lemma CreateStaysDead(w: World, i: int, draw: Draw, now: Time, ttl: Time, created: Outcome, f: string)
    requires Inv(w) && Dead(w, f) && Enabled(w, CreateNext(i, draw, now, ttl, created))
    ensures Dead(Apply(w, CreateNext(i, draw, now, ttl, created)), f)
  {
    assert w.sessions[i].current.familyId != f;
  }

  lemma ActStaysDead(w: World, act: Act, f: string)
    requires Inv(w) && Dead(w, f) && Enabled(w, act)
    ensures Dead(Apply(w, act), f)
  {
    match act
    case Read(i, raw, now, read) => ReadStaysDead(w, i, raw, now, read, f);
    case CreateNext(i, draw, now, ttl, created) => CreateStaysDead(w, i, draw, now, ttl, created, f);
    case _ =>
  }

  lemma {:induction false} DeadForever(w: World, acts: seq<Act>, f: string)
    requires Inv(w) && Dead(w, f) && IsRun(w, acts)
    ensures Usable(Run(w, acts), f) == {}
    decreases |acts|
  {
    if acts != [] {
      ActStaysDead(w, acts[0], f);
      ActKeeps(w, acts[0]);
      DeadForever(Apply(w, acts[0]), acts[1..], f);
    }
  }

  /**
   A rotation that has read its token, but not yet made the next one, when a detected reuse revokes the family still
   succeeds and revives the family.
   */
  lemma ReuseMissesPendingRotation(w: World, i: int, j: int, revoked: Outcome, draw: Draw, now: Time, ttl: Time)
    requires Inv(w) && i in w.sessions && w.sessions[i].Fresh? && j in w.sessions && w.sessions[j].Reused?
    requires w.sessions[i].current.familyId == w.sessions[j].current.familyId && revoked.Applied()
    requires draw.id.Some? && draw.raw.Some? && draw.id.value !in w.tokens && !Stored(w.tokens, Sha256(draw.raw.value))
    ensures var f := w.sessions[i].current.familyId;
      var purged := Apply(w, RevokeAll(j, revoked));
      var rest := [CreateNext(i, draw, now, ttl, Done), Revoke(i, Done)];
      && Usable(purged, f) == {}
      && IsRun(purged, rest)
      && i in Run(purged, rest).sessions && Run(purged, rest).sessions[i].Won?
      && Usable(Run(purged, rest), f) == {draw.id.value}
  {
    var f := w.sessions[i].current.familyId;
    var purged := Apply(w, RevokeAll(j, revoked));
    assert PhaseOk(w.tokens, w.released, w.sessions[i]);
    assert !Stored(purged.tokens, Sha256(draw.raw.value)) by {
      forall id | id in purged.tokens ensures purged.tokens[id].hash != Sha256(draw.raw.value) {
        assert purged.tokens[id].hash == w.tokens[id].hash;
      }
    }
    var created := Apply(purged, CreateNext(i, draw, now, ttl, Done));
    assert created.sessions[i].Created?;
    var end := Apply(created, Revoke(i, Done));
    forall id ensures id in Usable(end, f) <==> id == draw.id.value {
    }
    RunTwo(purged, CreateNext(i, draw, now, ttl, Done), Revoke(i, Done));
  }

  lemma RunTwo(w: World, a: Act, b: Act)
    requires Enabled(w, a) && Enabled(Apply(w, a), b)
    ensures IsRun(w, [a, b]) && Run(w, [a, b]) == Apply(Apply(w, a), b)
  {
    var w1 := Apply(w, a);
    var w2 := Apply(w1, b);
    assert IsRun(w2, []) && Run(w2, []) == w2;
    assert [b][1..] == [] && IsRun(w1, [b]) && Run(w1, [b]) == w2;
    assert [a, b][1..] == [b] && IsRun(w, [a, b]) && Run(w, [a, b]) == Run(w1, [b]);
  }

  /** Finitely many tokens leave an identifier and a random value unused. */
  lemma {:induction false} BeyondAll(taken: set<string>) returns (s: string)
    ensures forall t :: t in taken ==> |t| < |s|
    decreases |taken|
  {
    if taken == {} {
      s := "";
    } else {
      var t :| t in taken;
      var longer := BeyondAll(taken - {t});
      s := longer + t + "x";
    }
  }

  lemma FreshDraw(w: World) returns (draw: Draw)
    ensures draw.id.Some? && draw.raw.Some? && draw.id.value !in w.tokens && !Stored(w.tokens, Sha256(draw.raw.value))
  {
    var id := BeyondAll(w.tokens.Keys);
    var raws := set k | k in w.tokens :: w.tokens[k].hash.raw;
    var raw := BeyondAll(raws);
    draw := Draw(None, Some(id), Some(raw));
    forall k | k in w.tokens ensures w.tokens[k].hash != Sha256(raw) {
      assert w.tokens[k].hash.raw in raws;
    }
  }

  /**
   A detected reuse whose revocation takes effect kills the family for good, whatever rotations follow or are under way,
   if and only if no rotation of the family had then read its token without having made the next one.
   */
  lemma ReuseIsFinalExactly(w: World, j: int, revoked: Outcome)
    requires Inv(w) && j in w.sessions && w.sessions[j].Reused? && revoked.Applied()
    ensures var f := w.sessions[j].current.familyId;
      NeverUsable(Apply(w, RevokeAll(j, revoked)), f) <==> !PendingIn(w, f)
  {
    var f := w.sessions[j].current.familyId;
    var purged := Apply(w, RevokeAll(j, revoked));
    if i :| i in w.sessions && w.sessions[i].Fresh? && w.sessions[i].current.familyId == f {
      var draw := FreshDraw(w);
      ReuseMissesPendingRotation(w, i, j, revoked, draw, 0, 0);
      assert IsRun(purged, [CreateNext(i, draw, 0, 0, Done), Revoke(i, Done)]);
    } else {
      ActKeeps(w, RevokeAll(j, revoked));
      assert Dead(purged, f);
      forall acts | IsRun(purged, acts) ensures Usable(Run(purged, acts), f) == {} {
        DeadForever(purged, acts, f);
      }
    }
  }
}
