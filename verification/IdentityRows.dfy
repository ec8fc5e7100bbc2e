/** What each identity transaction does to every row, in the columns' own terms and in milliseconds. */
module IdentityRows {
  import opened Common
  import opened IdentityTables
  import opened IdentityChains
  import opened IdentityRuns

  // ---- Session creation ----

  /** One row in each of three tables, all expiring thirty days from now, exactly when no key or reference is
      violated. */
  lemma CreateSessionRows(t: Tables, user: Uuid, device: Uuid, ids: SessionIds, hash: Digest, now: Time)
    ensures var t' := CreateSession(t, user, device, ids, hash, now);
            var expiry := now + 30 * 24 * 60 * 60 * 1000;
            if && user in t.users && device in t.devices
               && ids.session !in t.sessions && ids.family !in t.families && ids.token !in t.tokens
               && (forall i :: i in t.tokens ==> t.tokens[i].verifierHash != hash)
            then
              && t'.sessions == t.sessions[ids.session := Session(user, device, 1, now, expiry, None)]
              && t'.families == t.families[ids.family := Family(user, device, false, now, now)]
              && t'.tokens == t.tokens[ids.token :=
                   Token(ids.family, hash, None, None, expiry, false, None, false, None, now)]
              && t'.users == t.users && t'.devices == t.devices
            else t' == t
  {}

  // ---- Refresh ----

  predicate Live(t: Tables, tok: Token, now: Time)
    requires tok.familyId in t.families
  {
    !t.families[tok.familyId].isCompromised && !tok.isRevoked && now <= tok.expiresAt
  }

  /** A dead token, and a replay within ten seconds, change nothing. */
  lemma RefusedOrReplayed(t: Tables, id: Uuid, newId: Uuid, newHash: Digest, now: Time)
    requires Inv(t) && id in t.tokens && t.tokens[id].familyId in t.families
    requires t.tokens[id].isRotated ==> t.tokens[id].rotatedAt.Some?
    ensures var tok := t.tokens[id]; var (t', outcome) := Refresh(t, tok.verifierHash, newId, newHash, now);
            && (!Live(t, tok, now) ==> t' == t && outcome == InvalidOrRevoked)
            && (Live(t, tok, now) && tok.isRotated && now - tok.rotatedAt.value <= 10_000 ==>
                  t' == t && outcome == GraceReplay(tok.familyId))
  {
    RefreshOutcomeExact(t, id, newId, newHash, now);
  }

  /** A live token not rotated yet: it is stamped and replaced, unless a key or the reference is violated. */
  lemma RotationRows(t: Tables, id: Uuid, newId: Uuid, newHash: Digest, now: Time)
    requires Inv(t) && id in t.tokens && t.tokens[id].familyId in t.families
    requires Live(t, t.tokens[id], now) && !t.tokens[id].isRotated
    ensures var tok := t.tokens[id]; var (t', outcome) := Refresh(t, tok.verifierHash, newId, newHash, now);
            if t.fk.AtCommit? && newId !in t.tokens && forall i :: i in t.tokens ==> t.tokens[i].verifierHash != newHash
            then
              && outcome == Rotated(tok.familyId)
              && t' == t.(tokens := t.tokens
                            [id := tok.(isRotated := true, rotatedAt := Some(now), replacement := Some(newId))]
                            [newId := Token(tok.familyId, newHash, Some(id), None, tok.expiresAt,
                                            false, None, false, None, now)])
            else t' == t && outcome == ConstraintViolation
  {
    RefreshIsRow(t, id, newId, newHash, now);
  }

  /** A rotated token presented later than ten seconds after: its family, all tokens of it, and the sessions of that
      user on that device; no other row. */
  lemma ReuseRows(t: Tables, id: Uuid, newId: Uuid, newHash: Digest, now: Time)
    requires Inv(t) && id in t.tokens && t.tokens[id].familyId in t.families
    requires Live(t, t.tokens[id], now) && t.tokens[id].isRotated
    requires t.tokens[id].rotatedAt.Some? && now - t.tokens[id].rotatedAt.value > 10_000
    ensures var f := t.tokens[id].familyId; var fam := t.families[f];
            var (t', outcome) := Refresh(t, t.tokens[id].verifierHash, newId, newHash, now);
            && outcome == ReuseDetected(f) && t'.users == t.users && t'.devices == t.devices
            && t'.families == t.families[f := fam.(isCompromised := true, updatedAt := now)]
            && t'.tokens == (map i | i in t.tokens :: if t.tokens[i].familyId == f
                 then t.tokens[i].(isRevoked := true, revokedAt := Some(now)) else t.tokens[i])
            && t'.sessions == (map i | i in t.sessions ::
                 if t.sessions[i].userId == fam.userId && t.sessions[i].deviceId == fam.deviceId
                 then t.sessions[i].(revokedAt := Some(now)) else t.sessions[i])
  {
    RefreshIsRow(t, id, newId, newHash, now);
    var t' := Refresh(t, t.tokens[id].verifierHash, newId, newHash, now).0;
    assert t' == Compromise(t, t.tokens[id].familyId, now);
    assert t'.families == t.families[t.tokens[id].familyId := t'.families[t.tokens[id].familyId]];
  }

  // ---- Revocation ----

  /** The device, its sessions, its families and their tokens, exactly when the device is the user's and not revoked. */
  lemma RevokeDeviceRows(t: Tables, user: Uuid, device: Uuid, now: Time)
    ensures var t' := RevokeDevice(t, user, device, now);
            if device in t.devices && t.devices[device].userId == user && !t.devices[device].isRevoked
            then
              && t'.users == t.users && t'.devices == t.devices[device := Device(user, true)]
              && t'.sessions == (map i | i in t.sessions :: if t.sessions[i].deviceId == device
                   then t.sessions[i].(revokedAt := Some(now)) else t.sessions[i])
              && t'.families == (map f | f in t.families :: if t.families[f].deviceId == device
                   then t.families[f].(isCompromised := true, updatedAt := now) else t.families[f])
              && t'.tokens == (map i | i in t.tokens ::
                   if t.tokens[i].familyId in t.families && t.families[t.tokens[i].familyId].deviceId == device
                   then t.tokens[i].(isRevoked := true, revokedAt := Some(now)) else t.tokens[i])
            else t' == t
  {}

  /** A device is revoked once: whoever asks again, in any later state, nothing changes. */
  lemma {:induction false} SecondRevocationRefused(w: World, later: seq<Step>, user: Uuid, device: Uuid, now: Time)
    requires device in w.db.devices && w.db.devices[device].isRevoked
    ensures var db := Run(w, later).db;
            && device in db.devices && db.devices[device].isRevoked
            && RevokeDevice(db, user, device, now) == db
    decreases |later|
  {
    if later != [] {
      SecondRevocationRefused(Next(w, later[0]), later[1..], user, device, now);
    }
  }

  /** After a session has been revoked no claims for it pass the guard, in any later state. */
  lemma SessionRevocationIsFinal(w: World, session: Uuid, now: Time, later: seq<Step>, c: AccessClaims)
    requires session in w.db.sessions && c.sessionId == session
    ensures !GuardAccepts(Run(Next(w, RevokesSession(session, now)), later).db, c)
  {
    RevokedSessionStaysRevoked(Next(w, RevokesSession(session, now)), later, session, c);
  }

  /** The three statements of logout-all, each with the rows it hits. */
  lemma LogoutRows(t: Tables, user: Uuid, now: Time)
    ensures LogoutSessions(t, user, now) == t.(sessions := map i | i in t.sessions ::
              if t.sessions[i].userId == user then t.sessions[i].(revokedAt := Some(now)) else t.sessions[i])
    ensures LogoutFamilies(t, user, now) == t.(families := map f | f in t.families ::
              if t.families[f].userId == user
              then t.families[f].(isCompromised := true, updatedAt := now) else t.families[f])
    ensures LogoutTokens(t, user, now) == t.(tokens := map i | i in t.tokens ::
              if t.tokens[i].familyId in t.families && t.families[t.tokens[i].familyId].userId == user
              then t.tokens[i].(isRevoked := true, revokedAt := Some(now)) else t.tokens[i])
  {}
}
