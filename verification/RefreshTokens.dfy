/**
 Refresh-token rotation with reuse detection, the scheme of section 4.14.2 of RFC 9700. A call is one atomic step in
 which any repository statement may fail before or after it takes effect.
 */
module RefreshTokens {
  import opened Common

  /** SHA-256, taken to be collision free. */
  datatype Digest = Sha256(raw: string)

  datatype Token = Token(
    id: string,
    tenantId: string,
    userId: string,
    hash: Digest,
    familyId: string,
    expiresAt: Time,
    createdAt: Time,
    revokedAt: Option<Time>,
    revokedReason: string)

  type Table = map<string, Token>

  datatype Error = InvalidToken | TokenExpired | TokenReused | RepositoryFailure | EntropyFailure

  datatype Issued = Issued(raw: string, token: Token, previousId: string)

  /** What the random sources yield during one call; None when they fail. */
  datatype Draw = Draw(familyId: Option<string>, id: Option<string>, raw: Option<string>)

  /** How the statements of one call end. */
  datatype Faults = Faults(read: Outcome, created: Outcome, revoked: Outcome)

  ghost predicate UniqueHashes(t: Table) {
    forall a, b :: a in t && b in t && t[a].hash == t[b].hash ==> a == b
  }

  predicate Stored(t: Table, hash: Digest) {
    exists id :: id in t && t[id].hash == hash
  }

  /** `GetRefreshTokenByHash`, for a stored hash. */
  function Lookup(t: Table, hash: Digest): (token: Token)
    requires UniqueHashes(t) && Stored(t, hash)
    ensures exists id :: id in t && t[id] == token && t[id].hash == hash
  {
    var id :| id in t && t[id].hash == hash;
    t[id]
  }

  /** `coalesce(revoked_at, now)`: the first revocation time stays. */
  function Revoked(token: Token, reason: string, now: Time): Token {
    token.(revokedAt := if token.revokedAt.Some? then token.revokedAt else Some(now), revokedReason := reason)
  }

  function RevokeOne(t: Table, id: string, reason: string, now: Time): Table {
    if id in t then t[id := Revoked(t[id], reason, now)] else t
  }

  function RevokeFamily(t: Table, familyId: string, reason: string, now: Time): Table {
    map id | id in t :: if t[id].familyId == familyId then Revoked(t[id], reason, now) else t[id]
  }

  /** The insert fails on a primary key or token hash that is in use. */
  function Create(t: Table, token: Token, created: Outcome): (Table, bool) {
    if token.id in t || Stored(t, token.hash) then (t, false)
    else (if created.Applied() then t[token.id := token] else t, created.Reported())
  }

  type Reply = Result<Issued, Error>

  function Issue(t: Table, tenantId: string, userId: string, familyId: string, draw: Draw, created: Outcome,
                 now: Time, ttl: Time): (Table, Reply)
  {
    if draw.id.None? || draw.raw.None? then (t, Err(EntropyFailure))
    else
      var raw := draw.raw.value;
      var token := Token(draw.id.value, tenantId, userId, Sha256(raw), familyId, now + ttl, now, None, "");
      var (t', ok) := Create(t, token, created);
      (t', if ok then Ok(Issued(raw, token, "")) else Err(RepositoryFailure))
  }

  /** `IssueRefreshToken`. */
  function IssueFirst(t: Table, tenantId: string, userId: string, draw: Draw, created: Outcome, now: Time, ttl: Time)
    : (Table, Reply)
  {
    if draw.familyId.None? then (t, Err(EntropyFailure))
    else Issue(t, tenantId, userId, draw.familyId.value, draw, created, now, ttl)
  }

  /** `RotateRefreshToken`, once the presented token has been read. */
  function RotateRead(t: Table, current: Token, draw: Draw, faults: Faults, now: Time, ttl: Time): (Table, Reply) {
    if current.expiresAt < now then (t, Err(TokenExpired))
    else if current.revokedAt.Some? then
      (if faults.revoked.Applied() then RevokeFamily(t, current.familyId, "reuse_detected", now) else t,
       Err(if faults.revoked.Reported() then TokenReused else RepositoryFailure))
    else
      var (t1, next) := Issue(t, current.tenantId, current.userId, current.familyId, draw, faults.created, now, ttl);
      if next.Err? then (t1, next)
      else
        (if faults.revoked.Applied() then RevokeOne(t1, current.id, "rotated", now) else t1,
         if faults.revoked.Reported() then Ok(next.value.(previousId := current.id)) else Err(RepositoryFailure))
  }

  function Rotate(t: Table, raw: string, draw: Draw, faults: Faults, now: Time, ttl: Time): (Table, Reply)
    requires UniqueHashes(t)
  {
    if !Stored(t, Sha256(raw)) || !faults.read.Reported() then (t, Err(InvalidToken))
    else RotateRead(t, Lookup(t, Sha256(raw)), draw, faults, now, ttl)
  }

  // ---------- Runs ----------

  /** The tokens, and for each family the ids of its tokens that were handed to a caller, in order. */
  datatype State = State(tokens: Table, chains: map<string, seq<string>>)

  function Chain(s: State, familyId: string): seq<string> {
    if familyId in s.chains then s.chains[familyId] else []
  }

  function HandOut(s: State, t: Table, reply: Reply): State {
    if reply.Err? then s.(tokens := t)
    else
      var token := reply.value.token;
      State(t, s.chains[token.familyId := Chain(s, token.familyId) + [token.id]])
  }

  datatype Call =
    | IssueCall(tenantId: string, userId: string, draw: Draw, created: Outcome, now: Time)
    | RotateCall(raw: string, draw: Draw, faults: Faults, now: Time)

  /** A caller can present what it was handed, or something that is no token; the stored random values are secret. */
  ghost predicate Presentable(s: State, raw: string) {
    forall id :: id in s.tokens && s.tokens[id].hash == Sha256(raw) ==> id in Chain(s, s.tokens[id].familyId)
  }

  /** A new family's id was never used; for token ids and values the unique indexes see to that. */
  ghost predicate Enabled(s: State, c: Call) {
    match c
    case IssueCall(_, _, draw, _, _) =>
      draw.familyId.Some? ==>
        && Chain(s, draw.familyId.value) == []
        && forall id :: id in s.tokens ==> s.tokens[id].familyId != draw.familyId.value
    case RotateCall(raw, _, _, _) => Presentable(s, raw)
  }

  ghost function Answer(s: State, c: Call, ttl: Time): (Table, Reply)
    requires UniqueHashes(s.tokens)
  {
    match c
    case IssueCall(tenantId, userId, draw, created, now) =>
      IssueFirst(s.tokens, tenantId, userId, draw, created, now, ttl)
    case RotateCall(raw, draw, faults, now) => Rotate(s.tokens, raw, draw, faults, now, ttl)
  }

  ghost function Apply(s: State, c: Call, ttl: Time): State
    requires UniqueHashes(s.tokens)
  {
    HandOut(s, Answer(s, c, ttl).0, Answer(s, c, ttl).1)
  }

  /** Of the tokens a family handed out, all but the last are revoked. */
  ghost predicate ChainOk(s: State, familyId: string) {
    var chain := Chain(s, familyId);
    && (forall i :: 0 <= i < |chain| ==> chain[i] in s.tokens && s.tokens[chain[i]].familyId == familyId)
    && (forall i :: 0 <= i < |chain| - 1 ==> s.tokens[chain[i]].revokedAt.Some?)
    && (forall i, j :: 0 <= i < j < |chain| ==> chain[i] != chain[j])
  }

  ghost predicate Inv(s: State) {
    && UniqueHashes(s.tokens)
    && (forall id :: id in s.tokens ==> s.tokens[id].id == id)
    && (forall f {:trigger ChainOk(s, f)} :: ChainOk(s, f))
  }

  /** Tokens are never removed, change in nothing but their revocation, and stay revoked; chains only grow. */
  ghost predicate Evolves(s: State, s': State) {
    && (forall id :: id in s.tokens ==>
          && id in s'.tokens
          && s'.tokens[id].hash == s.tokens[id].hash && s'.tokens[id].familyId == s.tokens[id].familyId
          && s'.tokens[id].expiresAt == s.tokens[id].expiresAt
          && (s.tokens[id].revokedAt.Some? ==> s'.tokens[id].revokedAt == s.tokens[id].revokedAt))
    && (forall f :: Chain(s, f) <= Chain(s', f))
  }

  lemma LookupIs(t: Table, id: string, hash: Digest)
    requires UniqueHashes(t) && id in t && t[id].hash == hash
    ensures Stored(t, hash) && Lookup(t, hash) == t[id]
  {
  }

  /** A chain stays sound while its tokens keep their family and their revocation. */
  lemma ChainStays(s: State, s': State, familyId: string)
    requires ChainOk(s, familyId) && s'.chains == s.chains
    requires forall id :: id in s.tokens ==>
      && id in s'.tokens && s'.tokens[id].familyId == s.tokens[id].familyId
      && (s.tokens[id].revokedAt.Some? ==> s'.tokens[id].revokedAt.Some?)
    ensures ChainOk(s', familyId)
  {
    var chain := Chain(s, familyId);
    forall i | 0 <= i < |chain|
      ensures chain[i] in s'.tokens && s'.tokens[chain[i]].familyId == familyId
      ensures i < |chain| - 1 ==> s'.tokens[chain[i]].revokedAt.Some?
    {
      assert chain[i] in s.tokens;
    }
  }

  /** A revocation changes no hash and no family. */
  lemma RevokeKeeps(s: State, t: Table)
    requires Inv(s) && t.Keys == s.tokens.Keys
    requires forall id :: id in t ==>
      t[id] == s.tokens[id] || exists reason, now :: t[id] == Revoked(s.tokens[id], reason, now)
    ensures Inv(s.(tokens := t)) && Evolves(s, s.(tokens := t))
  {
    var s' := s.(tokens := t);
    forall f ensures ChainOk(s', f) {
      ChainStays(s, s', f);
    }
  }

  /** A created token that is not handed out. */
  lemma CreateKeeps(s: State, token: Token, created: Outcome)
    requires Inv(s)
    ensures var s' := s.(tokens := Create(s.tokens, token, created).0); Inv(s') && Evolves(s, s')
  {
    var s' := s.(tokens := Create(s.tokens, token, created).0);
    forall f ensures ChainOk(s', f) {
      ChainStays(s, s', f);
    }
  }

  /** Handing out a token that nobody has yet, when all earlier ones of its family are revoked. */
  lemma HandOutKeeps(s: State, id: string)
    requires Inv(s) && id in s.tokens
    requires var f := s.tokens[id].familyId;
      id !in Chain(s, f) && forall i :: 0 <= i < |Chain(s, f)| ==>
        Chain(s, f)[i] in s.tokens && s.tokens[Chain(s, f)[i]].revokedAt.Some?
    ensures var f := s.tokens[id].familyId;
      var s' := s.(chains := s.chains[f := Chain(s, f) + [id]]);
      Inv(s') && Evolves(s, s')
  {
    var f := s.tokens[id].familyId;
    var s' := s.(chains := s.chains[f := Chain(s, f) + [id]]);
    forall g ensures ChainOk(s', g) && Chain(s, g) <= Chain(s', g) {
      assert ChainOk(s, g);
    }
  }

  lemma EvolvesTransitive(a: State, b: State, c: State)
    requires Evolves(a, b) && Evolves(b, c)
    ensures Evolves(a, c)
  {
    forall f ensures Chain(a, f) <= Chain(c, f) {
      assert Chain(a, f) <= Chain(b, f) && Chain(b, f) <= Chain(c, f);
    }
  }

  lemma IssueKeeps(s: State, tenantId: string, userId: string, draw: Draw, created: Outcome, now: Time, ttl: Time)
    requires Inv(s) && Enabled(s, IssueCall(tenantId, userId, draw, created, now))
    ensures var s' := Apply(s, IssueCall(tenantId, userId, draw, created, now), ttl); Inv(s') && Evolves(s, s')
  {
    var (t, reply) := IssueFirst(s.tokens, tenantId, userId, draw, created, now, ttl);
    if draw.familyId.Some? && draw.id.Some? && draw.raw.Some? {
      var token :=
        Token(draw.id.value, tenantId, userId, Sha256(draw.raw.value), draw.familyId.value, now + ttl, now, None, "");
      CreateKeeps(s, token, created);
      if reply.Ok? { HandOutKeeps(s.(tokens := t), token.id); }
    }
  }

  /** Only the last token a family handed out can be rotated. */
  lemma UnrevokedIsLast(s: State, id: string)
    requires Inv(s) && id in s.tokens && s.tokens[id].revokedAt.None? && id in Chain(s, s.tokens[id].familyId)
    ensures var chain := Chain(s, s.tokens[id].familyId); chain[|chain| - 1] == id
  {
    assert ChainOk(s, s.tokens[id].familyId);
  }

  /** A rotation of an unrevoked token: create, revoke, hand out. */
  lemma SuccessionKeeps(s: State, id: string, draw: Draw, faults: Faults, now: Time, ttl: Time)
    requires Inv(s) && id in s.tokens && s.tokens[id].revokedAt.None? && now <= s.tokens[id].expiresAt
    requires id in Chain(s, s.tokens[id].familyId)
    ensures var (t, reply) := RotateRead(s.tokens, s.tokens[id], draw, faults, now, ttl);
      Inv(HandOut(s, t, reply)) && Evolves(s, HandOut(s, t, reply))
  {
    var current := s.tokens[id];
    var (t, reply) := RotateRead(s.tokens, current, draw, faults, now, ttl);
    if draw.id.Some? && draw.raw.Some? {
      var token := Token(draw.id.value, current.tenantId, current.userId, Sha256(draw.raw.value), current.familyId,
                         now + ttl, now, None, "");
      CreateKeeps(s, token, faults.created);
      var s1 := s.(tokens := Create(s.tokens, token, faults.created).0);
      if Create(s.tokens, token, faults.created).1 {
        RevokeKeeps(s1, t);
        var s2 := s1.(tokens := t);
        EvolvesTransitive(s, s1, s2);
        if reply.Ok? {
          UnrevokedIsLast(s, id);
          assert ChainOk(s, current.familyId);
          HandOutKeeps(s2, token.id);
          EvolvesTransitive(s, s2, HandOut(s, t, reply));
        }
      }
    }
  }

  lemma RotateKeeps(s: State, raw: string, draw: Draw, faults: Faults, now: Time, ttl: Time)
    requires Inv(s) && Presentable(s, raw)
    ensures var s' := Apply(s, RotateCall(raw, draw, faults, now), ttl); Inv(s') && Evolves(s, s')
  {
    if Stored(s.tokens, Sha256(raw)) && faults.read.Reported() {
      var id :| id in s.tokens && s.tokens[id].hash == Sha256(raw);
      LookupIs(s.tokens, id, Sha256(raw));
      var current := s.tokens[id];
      if now <= current.expiresAt {
        if current.revokedAt.Some? {
          RevokeKeeps(s, Rotate(s.tokens, raw, draw, faults, now, ttl).0);
        } else {
          SuccessionKeeps(s, id, draw, faults, now, ttl);
        }
      }
    }
  }

  lemma CallKeeps(s: State, c: Call, ttl: Time)
    requires Inv(s) && Enabled(s, c)
    ensures Inv(Apply(s, c, ttl)) && Evolves(s, Apply(s, c, ttl))
  {
    match c
    case IssueCall(tenantId, userId, draw, created, now) => IssueKeeps(s, tenantId, userId, draw, created, now, ttl);
    case RotateCall(raw, draw, faults, now) => RotateKeeps(s, raw, draw, faults, now, ttl);
  }

  ghost predicate IsRun(s: State, calls: seq<Call>, ttl: Time)
    requires Inv(s)
    decreases |calls|
  {
    calls == []
      || (Enabled(s, calls[0]) && (CallKeeps(s, calls[0], ttl); IsRun(Apply(s, calls[0], ttl), calls[1..], ttl)))
  }

  ghost function Run(s: State, calls: seq<Call>, ttl: Time): State
    requires Inv(s) && IsRun(s, calls, ttl)
    decreases |calls|
  {
    if calls == [] then s else CallKeeps(s, calls[0], ttl); Run(Apply(s, calls[0], ttl), calls[1..], ttl)
  }

  lemma {:induction false} RunKeeps(s: State, calls: seq<Call>, ttl: Time)
    requires Inv(s) && IsRun(s, calls, ttl)
    ensures Inv(Run(s, calls, ttl)) && Evolves(s, Run(s, calls, ttl))
    decreases |calls|
  {
    if calls != [] {
      var s1 := Apply(s, calls[0], ttl);
      CallKeeps(s, calls[0], ttl);
      RunKeeps(s1, calls[1..], ttl);
      EvolvesTransitive(s, s1, Run(s1, calls[1..], ttl));
    }
  }
}
