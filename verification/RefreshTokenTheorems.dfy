/** What refresh-token rotation guarantees over whole runs of calls that do not overlap. */
module RefreshTokenTheorems {
  import opened Common
  import opened RefreshTokens

  const START := State(map[], map[])

  lemma StartInv()
    ensures Inv(START)
  {
  }

  ghost predicate Reachable(s: State, ttl: Time) {
    StartInv();
    exists calls :: IsRun(START, calls, ttl) && Run(START, calls, ttl) == s
  }

  lemma ReachableInv(s: State, ttl: Time)
    requires Reachable(s, ttl)
    ensures Inv(s)
  {
    StartInv();
    var calls :| IsRun(START, calls, ttl) && Run(START, calls, ttl) == s;
    RunKeeps(START, calls, ttl);
  }

  ghost predicate Usable(s: State, id: string) {
    id in s.tokens && s.tokens[id].revokedAt.None? && id in Chain(s, s.tokens[id].familyId)
  }

  /** In every reachable state a family has at most one token that is both unrevoked and in a caller's hands. */
  lemma OneUsableTokenPerFamily(s: State, ttl: Time, a: string, b: string)
    requires Reachable(s, ttl) && Usable(s, a) && Usable(s, b) && s.tokens[a].familyId == s.tokens[b].familyId
    ensures a == b
  {
    ReachableInv(s, ttl);
    UnrevokedIsLast(s, a);
    UnrevokedIsLast(s, b);
  }

  /** A successful rotation takes the last token of its family's chain, revokes it, and appends its successor. */
  lemma RotationExtendsChain(s: State, raw: string, draw: Draw, faults: Faults, now: Time, ttl: Time)
    requires Inv(s) && Presentable(s, raw)
    requires Rotate(s.tokens, raw, draw, faults, now, ttl).1.Ok?
    ensures var issued := Rotate(s.tokens, raw, draw, faults, now, ttl).1.value;
      var s' := Apply(s, RotateCall(raw, draw, faults, now), ttl);
      var f := issued.token.familyId;
      var chain := Chain(s, f);
      && chain != [] && chain[|chain| - 1] == issued.previousId
      && issued.previousId in s.tokens && s.tokens[issued.previousId].hash == Sha256(raw)
      && Chain(s', f) == chain + [issued.token.id] && issued.token.id !in s.tokens
      && issued.previousId in s'.tokens && s'.tokens[issued.previousId].revokedAt.Some?
      && Usable(s', issued.token.id)
  {
    var id :| id in s.tokens && s.tokens[id].hash == Sha256(raw);
    LookupIs(s.tokens, id, Sha256(raw));
    UnrevokedIsLast(s, id);
  }

  /** A revoked token stays revoked, so that presenting it never succeeds again. */
  lemma RevokedNeverRotates(s: State, calls: seq<Call>, id: string, raw: string, draw: Draw, faults: Faults, now: Time,
                            ttl: Time)
    requires Inv(s) && IsRun(s, calls, ttl)
    requires id in s.tokens && s.tokens[id].revokedAt.Some? && s.tokens[id].hash == Sha256(raw)
    ensures (RunKeeps(s, calls, ttl); Rotate(Run(s, calls, ttl).tokens, raw, draw, faults, now, ttl).1.Err?)
  {
    RunKeeps(s, calls, ttl);
    LookupIs(Run(s, calls, ttl).tokens, id, Sha256(raw));
  }

  /** So every token is rotated at most once: the successful rotations of a family form one chain. */
  lemma RotatedAtMostOnce(s: State, first: Call, between: seq<Call>, draw: Draw, faults: Faults, now: Time, ttl: Time)
    requires Inv(s) && first.RotateCall? && Enabled(s, first) && Answer(s, first, ttl).1.Ok?
    requires (CallKeeps(s, first, ttl); IsRun(Apply(s, first, ttl), between, ttl))
    ensures (CallKeeps(s, first, ttl); var s2 := Run(Apply(s, first, ttl), between, ttl);
             RunKeeps(Apply(s, first, ttl), between, ttl);
             Rotate(s2.tokens, first.raw, draw, faults, now, ttl).1.Err?)
  {
    CallKeeps(s, first, ttl);
    RotationExtendsChain(s, first.raw, first.draw, first.faults, first.now, ttl);
    var s1 := Apply(s, first, ttl);
    RevokedNeverRotates(s1, between, Answer(s, first, ttl).1.value.previousId, first.raw, draw, faults, now, ttl);
  }

  // ---------- Reuse detection ----------

  ghost predicate Dead(t: Table, familyId: string) {
    forall id :: id in t && t[id].familyId == familyId ==> t[id].revokedAt.Some?
  }

  ghost function Members(t: Table, familyId: string): set<string> {
    set id | id in t && t[id].familyId == familyId
  }

  /** Reuse is reported exactly when the presented token is stored, not expired and already revoked. */
  lemma ReuseReportedExactly(t: Table, raw: string, draw: Draw, faults: Faults, now: Time, ttl: Time)
    requires UniqueHashes(t)
    ensures Rotate(t, raw, draw, faults, now, ttl).1 == Err(TokenReused) <==>
      && faults.read.Reported() && faults.revoked.Reported()
      && exists id :: id in t && t[id].hash == Sha256(raw) && t[id].revokedAt.Some? && now <= t[id].expiresAt
  {
  }

  lemma ReuseKillsFamily(t: Table, raw: string, draw: Draw, faults: Faults, now: Time, ttl: Time)
    requires UniqueHashes(t) && Rotate(t, raw, draw, faults, now, ttl).1 == Err(TokenReused)
    ensures var t' := Rotate(t, raw, draw, faults, now, ttl).0;
      var f := Lookup(t, Sha256(raw)).familyId;
      Dead(t', f) && Members(t', f) == Members(t, f)
  {
  }

  /** A rotation can add a token only to the family of an unrevoked one. */
  lemma RotateReadAdds(t: Table, current: Token, draw: Draw, faults: Faults, now: Time, ttl: Time, id: string)
    requires id in RotateRead(t, current, draw, faults, now, ttl).0 && id !in t
    ensures current.revokedAt.None?
    ensures RotateRead(t, current, draw, faults, now, ttl).0[id].familyId == current.familyId
  {
  }

  /** A family whose tokens are all revoked gains none, since nothing in it can be rotated. */
  lemma DeadStep(s: State, c: Call, familyId: string, ttl: Time)
    requires Inv(s) && Enabled(s, c) && Dead(s.tokens, familyId) && Members(s.tokens, familyId) != {}
    ensures Dead(Apply(s, c, ttl).tokens, familyId)
    ensures Members(Apply(s, c, ttl).tokens, familyId) == Members(s.tokens, familyId)
  {
    CallKeeps(s, c, ttl);
    var t' := Apply(s, c, ttl).tokens;
    var some :| some in Members(s.tokens, familyId);
    assert s.tokens[some].familyId == familyId;
    forall id | id in t' && t'[id].familyId == familyId ensures id in s.tokens {
      if c.RotateCall? && id !in s.tokens {
        RotateReadAdds(s.tokens, Lookup(s.tokens, Sha256(c.raw)), c.draw, c.faults, c.now, ttl, id);
      }
    }
    assert Members(t', familyId) == Members(s.tokens, familyId);
  }

  lemma {:induction false} DeadForever(s: State, calls: seq<Call>, familyId: string, ttl: Time)
    requires Inv(s) && IsRun(s, calls, ttl) && Dead(s.tokens, familyId) && Members(s.tokens, familyId) != {}
    ensures Dead(Run(s, calls, ttl).tokens, familyId)
    ensures Members(Run(s, calls, ttl).tokens, familyId) == Members(s.tokens, familyId)
    decreases |calls|
  {
    if calls != [] {
      CallKeeps(s, calls[0], ttl);
      DeadStep(s, calls[0], familyId, ttl);
      DeadForever(Apply(s, calls[0], ttl), calls[1..], familyId, ttl);
    }
  }

  /** After reuse was detected once, every token of the family stays revoked and the family never gains a token. */
  lemma ReuseIsFinal(s: State, reuse: Call, later: seq<Call>, ttl: Time)
    requires Inv(s) && reuse.RotateCall? && Enabled(s, reuse) && Answer(s, reuse, ttl).1 == Err(TokenReused)
    requires (CallKeeps(s, reuse, ttl); IsRun(Apply(s, reuse, ttl), later, ttl))
    ensures (CallKeeps(s, reuse, ttl);
             var f := Lookup(s.tokens, Sha256(reuse.raw)).familyId;
             var end := Run(Apply(s, reuse, ttl), later, ttl);
             Dead(end.tokens, f) && Members(end.tokens, f) == Members(s.tokens, f))
  {
    CallKeeps(s, reuse, ttl);
    ReuseKillsFamily(s.tokens, reuse.raw, reuse.draw, reuse.faults, reuse.now, ttl);
    var f := Lookup(s.tokens, Sha256(reuse.raw)).familyId;
    var id :| id in s.tokens && s.tokens[id].hash == Sha256(reuse.raw);
    LookupIs(s.tokens, id, Sha256(reuse.raw));
    assert id in Members(s.tokens, f);
    DeadForever(Apply(s, reuse, ttl), later, f, ttl);
  }

  /**
   The point of the scheme: once a token has been rotated, presenting it a second time before it expires takes its
   successor away from whoever holds it.
   */
  lemma SecondUseRevokesSuccessor(s: State, first: Call, second: Call, ttl: Time)
    requires Inv(s) && first.RotateCall? && Enabled(s, first) && Answer(s, first, ttl).1.Ok?
    requires second.RotateCall? && second.raw == first.raw
    requires second.faults.read.Reported() && second.faults.revoked.Applied()
    requires second.now <= Lookup(s.tokens, Sha256(first.raw)).expiresAt
    ensures (CallKeeps(s, first, ttl);
             var successor := Answer(s, first, ttl).1.value.token.id;
             var end := Answer(Apply(s, first, ttl), second, ttl).0;
             successor in end && end[successor].revokedAt.Some?)
  {
    CallKeeps(s, first, ttl);
    RotationExtendsChain(s, first.raw, first.draw, first.faults, first.now, ttl);
    var id := Answer(s, first, ttl).1.value.previousId;
    LookupIs(s.tokens, id, Sha256(first.raw));
    LookupIs(Apply(s, first, ttl).tokens, id, Sha256(first.raw));
  }
}
