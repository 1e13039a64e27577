/** The token service and its repository, as they update the token table in place. */
module TokenService {
  import opened Common
  import opened RefreshTokens

  class Service {
    var tokens: Table
    const ttl: Time
    /** Which tokens each family has handed out; kept for the specification only. */
    ghost var chains: map<string, seq<string>>

    ghost function View(): State
      reads this
    {
      State(tokens, chains)
    }

    constructor (ttl: Time)
      ensures View() == State(map[], map[]) && this.ttl == ttl
    {
      this.ttl := ttl;
      tokens, chains := map[], map[];
    }

    method CreateRefreshToken(token: Token, created: Outcome) returns (ok: bool)
      modifies this`tokens
      ensures (tokens, ok) == Create(old(tokens), token, created)
    {
      if token.id in tokens || Stored(tokens, token.hash) {
        return false;
      }
      if created.Applied() {
        tokens := tokens[token.id := token];
      }
      ok := created.Reported();
    }

    method RevokeRefreshToken(id: string, reason: string, now: Time, revoked: Outcome) returns (ok: bool)
      modifies this`tokens
      ensures tokens == if revoked.Applied() then RevokeOne(old(tokens), id, reason, now) else old(tokens)
      ensures ok == revoked.Reported()
    {
      if revoked.Applied() && id in tokens {
        tokens := tokens[id := Revoked(tokens[id], reason, now)];
      }
      ok := revoked.Reported();
    }

    method RevokeRefreshTokenFamily(familyId: string, reason: string, now: Time, revoked: Outcome) returns (ok: bool)
      modifies this`tokens
      ensures tokens == if revoked.Applied() then RevokeFamily(old(tokens), familyId, reason, now) else old(tokens)
      ensures ok == revoked.Reported()
    {
      if revoked.Applied() {
        tokens := map id | id in tokens ::
          if tokens[id].familyId == familyId then Revoked(tokens[id], reason, now) else tokens[id];
      }
      ok := revoked.Reported();
    }

    method IssueToken(tenantId: string, userId: string, familyId: string, draw: Draw, created: Outcome, now: Time)
      returns (reply: Reply)
      modifies this`tokens
      ensures (tokens, reply) == Issue(old(tokens), tenantId, userId, familyId, draw, created, now, ttl)
    {
      if draw.id.None? {
        return Err(EntropyFailure);
      }
      if draw.raw.None? {
        return Err(EntropyFailure);
      }
      var token := Token(draw.id.value, tenantId, userId, Sha256(draw.raw.value), familyId, now + ttl, now, None, "");
      var ok := CreateRefreshToken(token, created);
      reply := if ok then Ok(Issued(draw.raw.value, token, "")) else Err(RepositoryFailure);
    }

    method IssueRefreshToken(tenantId: string, userId: string, draw: Draw, created: Outcome, now: Time)
      returns (reply: Reply)
      requires UniqueHashes(tokens)
      modifies this
      ensures reply == Answer(old(View()), IssueCall(tenantId, userId, draw, created, now), ttl).1
      ensures View() == Apply(old(View()), IssueCall(tenantId, userId, draw, created, now), ttl)
    {
      if draw.familyId.None? {
        return Err(EntropyFailure);
      }
      reply := IssueToken(tenantId, userId, draw.familyId.value, draw, created, now);
      chains := HandOut(View(), tokens, reply).chains;
    }

    method RotateRefreshToken(raw: string, draw: Draw, faults: Faults, now: Time) returns (reply: Reply)
      requires UniqueHashes(tokens)
      modifies this
      ensures reply == Answer(old(View()), RotateCall(raw, draw, faults, now), ttl).1
      ensures View() == Apply(old(View()), RotateCall(raw, draw, faults, now), ttl)
    {
      if !Stored(tokens, Sha256(raw)) || !faults.read.Reported() {
        return Err(InvalidToken);
      }
      var current := Lookup(tokens, Sha256(raw));
      if current.expiresAt < now {
        return Err(TokenExpired);
      }
      if current.revokedAt.Some? {
        var ok := RevokeRefreshTokenFamily(current.familyId, "reuse_detected", now, faults.revoked);
        return Err(if ok then TokenReused else RepositoryFailure);
      }
      var next := IssueToken(current.tenantId, current.userId, current.familyId, draw, faults.created, now);
      if next.Err? {
        return next;
      }
      var ok := RevokeRefreshToken(current.id, "rotated", now, faults.revoked);
      if !ok {
        return Err(RepositoryFailure);
      }
      reply := Ok(next.value.(previousId := current.id));
      chains := HandOut(View(), tokens, reply).chains;
    }
  }
}
