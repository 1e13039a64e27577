/** When a refresh token is issued or rotated, and what the caller then holds. */
module TokenOutcomes {
  import opened Common
  import opened RefreshTokens

  /** No two tokens share a value, and each lies under its own identifier; the runs of calls keep it so. */
  ghost predicate Sound(t: Table) {
    UniqueHashes(t) && forall id :: id in t ==> t[id].id == id
  }

  /** The draws are there and collide with no stored token. */
  predicate DrawFits(t: Table, draw: Draw) {
    && draw.id.Some? && draw.raw.Some? && draw.id.value !in t
    && forall id :: id in t ==> t[id].hash != Sha256(draw.raw.value)
  }

  /**
   What the caller is handed belongs to the stored token: its value, and the identity, family and lifetime asked for.
   */
  predicate HandedOut(t: Table, issued: Issued, draw: Draw, tenantId: string, userId: string, familyId: string,
                      now: Time, ttl: Time)
  {
    && draw.id == Some(issued.token.id) && draw.raw == Some(issued.raw) && Sha256(issued.raw) == issued.token.hash
    && issued.token.id in t && t[issued.token.id] == issued.token
    && issued.token.tenantId == tenantId && issued.token.userId == userId && issued.token.familyId == familyId
    && issued.token.expiresAt == now + ttl && issued.token.createdAt == now && issued.token.revokedAt.None?
  }

  /** A token that nobody was handed: the insert took effect, but the call did not end well. */
  predicate NewIn(t': Table, t: Table, draw: Draw) {
    && draw.id.Some? && draw.raw.Some? && t'.Keys == t.Keys + {draw.id.value}
    && t'[draw.id.value].hash == Sha256(draw.raw.value)
    && forall id :: id in t && id != draw.id.value ==> t'[id] == t[id]
  }

  /** A first token is issued exactly when the draws fit and the insert is answered; it is that of the user. */
  lemma IssuedExactly(t: Table, tenantId: string, userId: string, draw: Draw, created: Outcome, now: Time, ttl: Time)
    ensures var (t', reply) := IssueFirst(t, tenantId, userId, draw, created, now, ttl);
      && (reply.Ok? <==> draw.familyId.Some? && DrawFits(t, draw) && created == Done)
      && (reply.Ok? ==>
            && HandedOut(t', reply.value, draw, tenantId, userId, draw.familyId.value, now, ttl)
            && reply.value.previousId == "" && t' == t[reply.value.token.id := reply.value.token])
      && (reply == Err(EntropyFailure) <==> draw.familyId.None? || draw.id.None? || draw.raw.None?)
      && (reply.Err? ==> if draw.familyId.Some? && DrawFits(t, draw) && created == AppliedThenLost
                         then NewIn(t', t, draw) else t' == t)
  {
  }

  /**
   A presented token is rotated exactly when it is stored, not expired and not revoked, the draws fit and every
   statement is answered. The successor is that of the same user in the same family, and the token is revoked as
   rotated.
   */
  lemma RotatedExactly(t: Table, raw: string, id: string, draw: Draw, faults: Faults, now: Time, ttl: Time)
    requires Sound(t) && id in t && t[id].hash == Sha256(raw)
    ensures var (t', reply) := Rotate(t, raw, draw, faults, now, ttl);
      && (reply.Ok? <==> && now <= t[id].expiresAt && t[id].revokedAt.None? && DrawFits(t, draw)
                         && faults.read == Done && faults.created == Done && faults.revoked == Done)
      && (reply.Ok? ==>
            && HandedOut(t', reply.value, draw, t[id].tenantId, t[id].userId, t[id].familyId, now, ttl)
            && reply.value.previousId == id
            && t' == t[reply.value.token.id := reply.value.token]
                      [id := t[id].(revokedAt := Some(now), revokedReason := "rotated")])
      && (reply == Err(EntropyFailure) <==>
            && faults.read == Done && now <= t[id].expiresAt && t[id].revokedAt.None?
            && (draw.id.None? || draw.raw.None?))
      && (faults.read == Done && now <= t[id].expiresAt && t[id].revokedAt.None? && reply.Err? ==>
            if !DrawFits(t, draw) || faults.created == NotApplied then t' == t
            else NewIn(t', if faults.created == Done && faults.revoked == AppliedThenLost
                           then t[id := t[id].(revokedAt := Some(now), revokedReason := "rotated")] else t, draw))
      && (reply == Err(TokenExpired) <==> faults.read == Done && t[id].expiresAt < now)
  {
    LookupIs(t, id, Sha256(raw));
  }

  /** What is no token, or cannot be read, is refused as invalid, and nothing else is. */
  lemma InvalidExactly(t: Table, raw: string, draw: Draw, faults: Faults, now: Time, ttl: Time)
    requires UniqueHashes(t)
    ensures var (t', reply) := Rotate(t, raw, draw, faults, now, ttl);
      && (reply == Err(InvalidToken) <==> faults.read != Done || forall id :: id in t ==> t[id].hash != Sha256(raw))
      && (reply == Err(InvalidToken) ==> t' == t)
  {
  }

  /**
   A detected reuse dates the revocation of the family's tokens that were not revoked yet, and touches no other family.
   */
  lemma ReusedExactly(t: Table, raw: string, id: string, draw: Draw, faults: Faults, now: Time, ttl: Time)
    requires Sound(t) && id in t && t[id].hash == Sha256(raw)
    requires faults.read == Done && now <= t[id].expiresAt && t[id].revokedAt.Some?
    ensures var (t', reply) := Rotate(t, raw, draw, faults, now, ttl);
      && reply == Err(if faults.revoked == Done then TokenReused else RepositoryFailure)
      && t'.Keys == t.Keys
      && forall other :: other in t ==>
           t'[other] == if t[other].familyId != t[id].familyId || !faults.revoked.Applied() then t[other]
                        else t[other].(revokedReason := "reuse_detected",
                                       revokedAt := if t[other].revokedAt.Some? then t[other].revokedAt else Some(now))
  {
    LookupIs(t, id, Sha256(raw));
  }

  predicate Works(t: Table, issued: Issued, draw: Draw, now: Time, ttl: Time)
    requires UniqueHashes(t)
  {
    var reply := Rotate(t, issued.raw, draw, Faults(Done, Done, Done), now, ttl).1;
    reply.Ok? && reply.value.previousId == issued.token.id
  }

  /** The value that an issue hands out is the key to its token: presented before it expires, it is rotated. */
  lemma IssuedWorks(t: Table, tenantId: string, userId: string, draw: Draw, created: Outcome, now: Time, ttl: Time,
                    next: Draw, later: Time)
    requires Sound(t) && IssueFirst(t, tenantId, userId, draw, created, now, ttl).1.Ok?
    requires DrawFits(IssueFirst(t, tenantId, userId, draw, created, now, ttl).0, next) && later <= now + ttl
    ensures var (t', reply) := IssueFirst(t, tenantId, userId, draw, created, now, ttl);
      Sound(t') && Works(t', reply.value, next, later, ttl)
  {
    IssuedExactly(t, tenantId, userId, draw, created, now, ttl);
    var (t', reply) := IssueFirst(t, tenantId, userId, draw, created, now, ttl);
    RotatedExactly(t', reply.value.raw, reply.value.token.id, next, Faults(Done, Done, Done), later, ttl);
  }

  /** And so is the value that a rotation hands out. */
  lemma RotatedWorks(t: Table, raw: string, draw: Draw, faults: Faults, now: Time, ttl: Time, next: Draw, later: Time)
    requires Sound(t) && Rotate(t, raw, draw, faults, now, ttl).1.Ok?
    requires DrawFits(Rotate(t, raw, draw, faults, now, ttl).0, next) && later <= now + ttl
    ensures var (t', reply) := Rotate(t, raw, draw, faults, now, ttl);
      Sound(t') && Works(t', reply.value, next, later, ttl)
  {
    var id :| id in t && t[id].hash == Sha256(raw);
    RotatedExactly(t, raw, id, draw, faults, now, ttl);
    var (t', reply) := Rotate(t, raw, draw, faults, now, ttl);
    RotatedExactly(t', reply.value.raw, reply.value.token.id, next, Faults(Done, Done, Done), later, ttl);
  }
}
