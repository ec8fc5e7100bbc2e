/** The identity services over their tables. Each method is one transaction, or one lone statement, and runs its
    statements in the source's order; a violated key or reference rolls the tables back. */
module IdentityService {
  import opened Common
  import opened IdentityTables
  import opened IdentityChains
  import opened IdentityRuns

  type RawToken = nat

  datatype RefreshError = Refused(outcome: RefreshOutcome)

  datatype TokenPair = TokenPair(access: AccessClaims, refreshToken: RawToken, familyId: Uuid)

  datatype NewToken = NewToken(id: Uuid, raw: RawToken)

  function ClaimsFor(session: Uuid, f: Family): AccessClaims {
    AccessClaims(session, f.userId, f.deviceId, SESSION_VERSION)
  }

  lemma SameHashesUsed(a: map<Uuid, Token>, b: map<Uuid, Token>, hash: Digest)
    requires a.Keys == b.Keys && forall i :: i in a ==> a[i].verifierHash == b[i].verifierHash
    ensures HashUsed(a, hash) <==> HashUsed(b, hash)
  {
    if i :| i in a && a[i].verifierHash == hash {
      assert i in b && b[i].verifierHash == hash;
    }
  }

  class Store {
    const fk: ForeignKeys
    const hash: RawToken -> Digest
    var users: map<Uuid, AccountState>
    var devices: map<Uuid, Device>
    var sessions: map<Uuid, Session>
    var families: map<Uuid, Family>
    var tokens: map<Uuid, Token>

    ghost function Db(): Tables
      reads this
    {
      Tables(fk, users, devices, sessions, families, tokens)
    }

    ghost predicate Valid()
      reads this
    {
      Inv(Db())
    }

    /** The session row these claims name, its device and its user, all in order. */
    ghost predicate LiveSession(c: AccessClaims)
      reads this
    {
      && c.sessionId in sessions && c.deviceId in devices && c.userId in users
      && sessions[c.sessionId].userId == c.userId && sessions[c.sessionId].deviceId == c.deviceId
      && sessions[c.sessionId].revokedAt.None? && sessions[c.sessionId].version == c.version
      && !devices[c.deviceId].isRevoked && users[c.userId] in {Active, PendingProfile}
    }

    constructor (fk: ForeignKeys, hash: RawToken -> Digest)
      ensures Valid() && Db() == EmptyTables(fk) && this.hash == hash
    {
      this.fk, this.hash := fk, hash;
      users, devices, sessions, families, tokens := map[], map[], map[], map[], map[];
      EmptyInv(fk);
    }

    method RegisterAccount(user: Uuid, device: Uuid) returns (ok: bool)
      requires Valid()
      modifies this`users, this`devices
      ensures Valid() && Db() == IdentityTables.RegisterAccount(old(Db()), user, device)
      ensures ok <==> user !in old(users) && device !in old(devices)
      ensures users == if ok then old(users)[user := Active] else old(users)
      ensures devices == if ok then old(devices)[device := Device(user, false)] else old(devices)
    {
      ghost var before := Db();
      ok := user !in users && device !in devices;
      if ok {
        users := users[user := Active];
        devices := devices[device := Device(user, false)];
      }
      RevocationKeepsInv(before, Db(), {}, 0);
    }

    method CreateSession(user: Uuid, device: Uuid, ids: SessionIds, raw: RawToken, now: Time)
      returns (r: Result<TokenPair, ()>)
      requires Valid()
      modifies this`sessions, this`families, this`tokens
      ensures Valid() && Db() == IdentityTables.CreateSession(old(Db()), user, device, ids, hash(raw), now)
      ensures r.Ok? <==> && user in users && device in devices
                         && ids.session !in old(sessions) && ids.family !in old(families) && ids.token !in old(tokens)
                         && forall i :: i in old(tokens) ==> old(tokens)[i].verifierHash != hash(raw)
      ensures r.Ok? ==>
                && r.value == TokenPair(AccessClaims(ids.session, user, device, 1), raw, ids.family)
                && (users[user].Active? && !devices[device].isRevoked ==> GuardAccepts(Db(), r.value.access))
    {
      ghost var before := Db();
      var sessions0, families0 := sessions, families;
      CreateSessionKeepsInv(before, user, device, ids, hash(raw), now);
      if ids.session in sessions || user !in users || device !in devices {
        return Err(());
      }
      var expiresAt := now + REFRESH_TTL;
      sessions := sessions[ids.session := Session(user, device, SESSION_VERSION, now, expiresAt, None)];
      if ids.family in families {
        sessions := sessions0;
        return Err(());
      }
      families := families[ids.family := Family(user, device, false, now, now)];
      if ids.token in tokens || HashUsed(tokens, hash(raw)) {
        sessions, families := sessions0, families0;
        return Err(());
      }
      tokens := tokens[ids.token := Token(ids.family, hash(raw), None, None, expiresAt, false, None, false, None, now)];
      r := Ok(TokenPair(AccessClaims(ids.session, user, device, SESSION_VERSION), raw, ids.family));
    }

    /** `jwtSession` is the session id generated for the access token; no row is ever inserted for it. */
    method RotateRefreshToken(raw: RawToken, next: NewToken, jwtSession: Uuid, now: Time)
      returns (r: Result<TokenPair, RefreshError>)
      requires Valid()
      modifies this`sessions, this`families, this`tokens
      ensures Valid()
      ensures Db() == Refresh(old(Db()), hash(raw), next.id, hash(next.raw), now).0
      ensures var outcome := Refresh(old(Db()), hash(raw), next.id, hash(next.raw), now).1;
              match outcome
              case Rotated(f) => r.Ok? && r.value.refreshToken == next.raw && r.value.familyId == f
              case GraceReplay(f) => r.Ok? && r.value.refreshToken == raw && r.value.familyId == f
              case refused => r == Err(Refused(refused))
      ensures r.Ok? ==>
                && r.value.familyId in old(families)
                && r.value.access.sessionId == jwtSession && r.value.access.version == 1
                && r.value.access.userId == old(families)[r.value.familyId].userId
                && r.value.access.deviceId == old(families)[r.value.familyId].deviceId
      ensures r == Err(Refused(UnknownToken)) <==>
                forall i :: i in old(tokens) ==> old(tokens)[i].verifierHash != hash(raw)
      ensures r.Ok? ==> (GuardAccepts(Db(), r.value.access) <==> LiveSession(r.value.access))
    {
      ghost var before := Db();
      RefreshKeepsInv(before, hash(raw), next.id, hash(next.raw), now);
      if id :| id in tokens && tokens[id].verifierHash == hash(raw) {
        RefreshIsRow(before, id, next.id, hash(next.raw), now);
        r := RotateRow(raw, id, next, jwtSession, now);
      } else {
        r := Err(Refused(UnknownToken));
      }
    }

    method RotateRow(raw: RawToken, id: Uuid, next: NewToken, jwtSession: Uuid, now: Time)
      returns (r: Result<TokenPair, RefreshError>)
      requires id in tokens && tokens[id].familyId in families
      modifies this`sessions, this`families, this`tokens
      ensures Db() == RefreshRow(old(Db()), id, next.id, hash(next.raw), now).0
      ensures match RefreshRow(old(Db()), id, next.id, hash(next.raw), now).1
              case Rotated(f) => r.Ok? && r.value.refreshToken == next.raw && r.value.familyId == f
              case GraceReplay(f) => r.Ok? && r.value.refreshToken == raw && r.value.familyId == f
              case refused => r == Err(Refused(refused))
      ensures r.Ok? ==>
                && r.value.familyId in old(families)
                && r.value.access.sessionId == jwtSession && r.value.access.version == 1
                && r.value.access.userId == old(families)[r.value.familyId].userId
                && r.value.access.deviceId == old(families)[r.value.familyId].deviceId
    {
      var tok := tokens[id];
      var fam := families[tok.familyId];
      if fam.isCompromised || tok.isRevoked || tok.expiresAt < now {
        return Err(Refused(InvalidOrRevoked));
      }
      var access := ClaimsFor(jwtSession, fam);
      if tok.isRotated {
        if tok.rotatedAt.Some? && now - tok.rotatedAt.value <= GRACE && tok.replacement.Some? {
          var replacement := tok.replacement.value;
          if replacement in tokens && !tokens[replacement].isRevoked {
            return Ok(TokenPair(access, raw, tok.familyId));
          }
        }
        families := families[tok.familyId := fam.(isCompromised := true, updatedAt := now)];
        tokens := RevokeTokens(tokens, {tok.familyId}, now);
        sessions := RevokeSessions(sessions, (s: Session) => s.userId == fam.userId && s.deviceId == fam.deviceId, now);
        ghost var target := Compromise(old(Db()), tok.familyId, now);
        assert families == target.families && tokens == target.tokens && sessions == target.sessions;
        return Err(Refused(ReuseDetected(tok.familyId)));
      }
      var tokens0 := tokens;
      tokens := tokens[id := tok.(isRotated := true, rotatedAt := Some(now), replacement := Some(next.id))];
      if fk.PerStatement? && next.id !in tokens {
        tokens := tokens0;
        return Err(Refused(ConstraintViolation));
      }
      SameHashesUsed(tokens0, tokens, hash(next.raw));
      if next.id in tokens || HashUsed(tokens, hash(next.raw)) {
        tokens := tokens0;
        return Err(Refused(ConstraintViolation));
      }
      tokens := tokens[next.id := Token(tok.familyId, hash(next.raw), Some(id), None, tok.expiresAt,
                                        false, None, false, None, now)];
      r := Ok(TokenPair(access, next.raw, tok.familyId));
    }

    method RevokeDevice(user: Uuid, device: Uuid, now: Time) returns (ok: bool)
      requires Valid()
      modifies this`devices, this`sessions, this`families, this`tokens
      ensures Valid() && Db() == IdentityTables.RevokeDevice(old(Db()), user, device, now)
      ensures ok <==> device in old(devices) && old(devices)[device].userId == user && !old(devices)[device].isRevoked
      ensures !ok ==> Db() == old(Db())
      ensures ok ==> device in devices && devices[device].isRevoked
      ensures ok ==> forall c: AccessClaims :: c.deviceId == device ==> !GuardAccepts(Db(), c)
    {
      RevokeDeviceKeepsInv(Db(), user, device, now);
      ok := device in devices && devices[device].userId == user && !devices[device].isRevoked;
      if ok {
        devices := devices[device := devices[device].(isRevoked := true)];
        sessions := RevokeSessions(sessions, (s: Session) => s.deviceId == device, now);
        families := CompromiseFamilies(families, (i: Uuid, f: Family) => f.deviceId == device, now);
        assert FamiliesOfDevice(families, device) == FamiliesOfDevice(old(families), device);
        tokens := RevokeTokens(tokens, FamiliesOfDevice(families, device), now);
        ghost var target := IdentityTables.RevokeDevice(old(Db()), user, device, now);
        assert families == target.families && tokens == target.tokens && sessions == target.sessions;
      }
    }

    method RevokeSession(session: Uuid, now: Time)
      requires Valid()
      modifies this`sessions
      ensures Valid() && Db() == IdentityTables.RevokeSession(old(Db()), session, now)
      ensures session in sessions <==> session in old(sessions)
      ensures session in sessions ==>
                sessions == old(sessions)[session := old(sessions)[session].(revokedAt := Some(now))]
      ensures session !in sessions ==> sessions == old(sessions)
    {
      ghost var before := Db();
      if session in sessions {
        sessions := sessions[session := sessions[session].(revokedAt := Some(now))];
      }
      RevocationKeepsInv(before, Db(), {}, now);
    }

    /** The three statements of revokeAllSessionsForUser when nothing runs between them. */
    method RevokeAllSessionsForUser(user: Uuid, now: Time)
      requires Valid()
      modifies this`sessions, this`families, this`tokens
      ensures Valid()
      ensures Db() == LogoutTokens(LogoutFamilies(LogoutSessions(old(Db()), user, now), user, now), user, now)
      ensures GuardShutsOutUser(user)
    {
      LogoutAllKeepsInv(Db(), user, now);
      sessions := RevokeSessions(sessions, (s: Session) => s.userId == user, now);
      families := CompromiseFamilies(families, (i: Uuid, f: Family) => f.userId == user, now);
      tokens := RevokeTokens(tokens, FamiliesOfUser(families, user), now);
    }

    ghost predicate GuardShutsOutUser(user: Uuid)
      reads this
    {
      forall c: AccessClaims :: c.userId == user ==> !GuardAccepts(Db(), c)
    }

    /** canActivate; `claims` is None when the header is missing or the access token does not verify. */
    method CanActivate(claims: Option<AccessClaims>) returns (ok: bool)
      ensures ok <==> claims.Some? && GuardAccepts(Db(), claims.value)
      ensures ok <==> claims.Some? && LiveSession(claims.value)
    {
      if claims.None? {
        return false;
      }
      var c := claims.value;
      if c.sessionId !in sessions {
        return false;
      }
      var s := sessions[c.sessionId];
      if s.userId != c.userId || s.deviceId != c.deviceId || s.deviceId !in devices || s.userId !in users {
        return false;
      }
      if s.revokedAt.Some? || devices[s.deviceId].isRevoked {
        return false;
      }
      if users[s.userId] != Active && users[s.userId] != PendingProfile {
        return false;
      }
      ok := s.version == c.version;
    }
  }
}
