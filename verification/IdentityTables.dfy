/** The identity tables and what each transaction, or each lone auto-committed statement, does to them. */
module IdentityTables {
  import opened Common

  const REFRESH_TTL: Time := 30 * DAY
  const GRACE: Time := 10 * SECOND
  const SESSION_VERSION := 1

  datatype AccountState = PendingProfile | Active | Restricted | Suspended | DeletionPending | Deleted

  datatype Device = Device(userId: Uuid, isRevoked: bool)

  datatype Session = Session(userId: Uuid, deviceId: Uuid, version: int,
                             createdAt: Time, expiresAt: Time, revokedAt: Option<Time>)

  datatype Family = Family(userId: Uuid, deviceId: Uuid, isCompromised: bool, createdAt: Time, updatedAt: Time)

  datatype Token = Token(familyId: Uuid, verifierHash: Digest, parent: Option<Uuid>, replacement: Option<Uuid>,
                         expiresAt: Time, isRotated: bool, rotatedAt: Option<Time>,
                         isRevoked: bool, revokedAt: Option<Time>, createdAt: Time)

  /** When the self-reference refresh_tokens.replacement_token_id is checked. The migration declares it
      NOT DEFERRABLE by default, which is PerStatement; rotation is written as if it were AtCommit. */
  datatype ForeignKeys = PerStatement | AtCommit

  datatype Tables = Tables(fk: ForeignKeys, users: map<Uuid, AccountState>, devices: map<Uuid, Device>,
                           sessions: map<Uuid, Session>, families: map<Uuid, Family>, tokens: map<Uuid, Token>)

  function EmptyTables(fk: ForeignKeys): Tables {
    Tables(fk, map[], map[], map[], map[], map[])
  }

  // ---- UPDATE ... WHERE, one function per table ----

  function RevokeSessions(sessions: map<Uuid, Session>, hit: Session -> bool, now: Time): map<Uuid, Session> {
    map i | i in sessions :: if hit(sessions[i]) then sessions[i].(revokedAt := Some(now)) else sessions[i]
  }

  function CompromiseFamilies(families: map<Uuid, Family>, hit: (Uuid, Family) -> bool, now: Time): map<Uuid, Family> {
    map i | i in families ::
      if hit(i, families[i]) then families[i].(isCompromised := true, updatedAt := now) else families[i]
  }

  function RevokeTokens(tokens: map<Uuid, Token>, owners: set<Uuid>, now: Time): map<Uuid, Token> {
    map i | i in tokens ::
      if tokens[i].familyId in owners then tokens[i].(isRevoked := true, revokedAt := Some(now)) else tokens[i]
  }

  function FamiliesOfUser(families: map<Uuid, Family>, user: Uuid): set<Uuid> {
    set i | i in families && families[i].userId == user
  }

  function FamiliesOfDevice(families: map<Uuid, Family>, device: Uuid): set<Uuid> {
    set i | i in families && families[i].deviceId == device
  }

  predicate HashUsed(tokens: map<Uuid, Token>, hash: Digest) {
    exists i :: i in tokens && tokens[i].verifierHash == hash
  }

  // ---- Registration and session creation ----

  /** The part of registerAccount that later steps depend on: a new user owning a new device. */
  function RegisterAccount(t: Tables, user: Uuid, device: Uuid): Tables {
    if user in t.users || device in t.devices then t
    else t.(users := t.users[user := Active], devices := t.devices[device := Device(user, false)])
  }

  datatype SessionIds = SessionIds(session: Uuid, family: Uuid, token: Uuid)

  predicate CanInsertSession(t: Tables, user: Uuid, device: Uuid, ids: SessionIds, hash: Digest) {
    && user in t.users && device in t.devices
    && ids.session !in t.sessions && ids.family !in t.families && ids.token !in t.tokens
    && !HashUsed(t.tokens, hash)
  }

  function FirstToken(family: Uuid, hash: Digest, now: Time): Token {
    Token(family, hash, None, None, now + REFRESH_TTL, false, None, false, None, now)
  }

  /** createSession: one row in each of three tables, or none when a key or reference is violated. */
  function CreateSession(t: Tables, user: Uuid, device: Uuid, ids: SessionIds, hash: Digest, now: Time): Tables {
    if !CanInsertSession(t, user, device, ids, hash) then t
    else t.(
      sessions := t.sessions[ids.session := Session(user, device, SESSION_VERSION, now, now + REFRESH_TTL, None)],
      families := t.families[ids.family := Family(user, device, false, now, now)],
      tokens := t.tokens[ids.token := FirstToken(ids.family, hash, now)])
  }

  // ---- Refresh ----

  datatype RefreshOutcome =
    | UnknownToken
    | InvalidOrRevoked
    | GraceReplay(family: Uuid)
    | ReuseDetected(family: Uuid)
    | ConstraintViolation
    | Rotated(family: Uuid)

  /** The row that SELECT ... WHERE token_verifier_hash = h joins with its family. */
  ghost predicate Presents(t: Tables, hash: Digest, id: Uuid) {
    id in t.tokens && t.tokens[id].verifierHash == hash && t.tokens[id].familyId in t.families
  }

  predicate Usable(t: Tables, id: Uuid, now: Time)
    requires id in t.tokens && t.tokens[id].familyId in t.families
  {
    && !t.families[t.tokens[id].familyId].isCompromised
    && !t.tokens[id].isRevoked
    && now <= t.tokens[id].expiresAt
  }

  function InGrace(tok: Token, now: Time): bool {
    tok.rotatedAt.Some? && now - tok.rotatedAt.value <= GRACE && tok.replacement.Some?
  }

  function Compromise(t: Tables, family: Uuid, now: Time): Tables
    requires family in t.families
  {
    var owner := t.families[family];
    t.(families := CompromiseFamilies(t.families, (i: Uuid, f: Family) => i == family, now),
       tokens := RevokeTokens(t.tokens, {family}, now),
       sessions := RevokeSessions(t.sessions,
                                  (s: Session) => s.userId == owner.userId && s.deviceId == owner.deviceId, now))
  }

  predicate CanRotate(t: Tables, newId: Uuid, newHash: Digest) {
    t.fk.AtCommit? && newId !in t.tokens && !HashUsed(t.tokens, newHash)
  }

  function Rotate(t: Tables, id: Uuid, newId: Uuid, newHash: Digest, now: Time): Tables
    requires id in t.tokens
  {
    var tok := t.tokens[id];
    t.(tokens := t.tokens
         [id := tok.(isRotated := true, rotatedAt := Some(now), replacement := Some(newId))]
         [newId := Token(tok.familyId, newHash, Some(id), None, tok.expiresAt, false, None, false, None, now)])
  }

  function RefreshRow(t: Tables, id: Uuid, newId: Uuid, newHash: Digest, now: Time): (Tables, RefreshOutcome)
    requires id in t.tokens && t.tokens[id].familyId in t.families
  {
    var tok := t.tokens[id];
    if !Usable(t, id, now) then (t, InvalidOrRevoked)
    else if tok.isRotated then
      if InGrace(tok, now) && tok.replacement.value in t.tokens && !t.tokens[tok.replacement.value].isRevoked then
        (t, GraceReplay(tok.familyId))
      else
        (Compromise(t, tok.familyId, now), ReuseDetected(tok.familyId))
    else if CanRotate(t, newId, newHash) then (Rotate(t, id, newId, newHash, now), Rotated(tok.familyId))
    else (t, ConstraintViolation)
  }

  /** rotateRefreshToken, seen from the database. */
  ghost function Refresh(t: Tables, hash: Digest, newId: Uuid, newHash: Digest, now: Time): (Tables, RefreshOutcome) {
    if id :| Presents(t, hash, id) then RefreshRow(t, id, newId, newHash, now) else (t, UnknownToken)
  }

  // ---- Revocation ----

  predicate CanRevokeDevice(t: Tables, user: Uuid, device: Uuid) {
    device in t.devices && t.devices[device].userId == user && !t.devices[device].isRevoked
  }

  function RevokeDevice(t: Tables, user: Uuid, device: Uuid, now: Time): Tables {
    if !CanRevokeDevice(t, user, device) then t
    else t.(
      devices := t.devices[device := t.devices[device].(isRevoked := true)],
      sessions := RevokeSessions(t.sessions, (s: Session) => s.deviceId == device, now),
      families := CompromiseFamilies(t.families, (i: Uuid, f: Family) => f.deviceId == device, now),
      tokens := RevokeTokens(t.tokens, FamiliesOfDevice(t.families, device), now))
  }

  function RevokeSession(t: Tables, id: Uuid, now: Time): Tables {
    if id !in t.sessions then t
    else t.(sessions := t.sessions[id := t.sessions[id].(revokedAt := Some(now))])
  }

  // Logout-all is three statements with no transaction around them.

  function LogoutSessions(t: Tables, user: Uuid, now: Time): Tables {
    t.(sessions := RevokeSessions(t.sessions, (s: Session) => s.userId == user, now))
  }

  function LogoutFamilies(t: Tables, user: Uuid, now: Time): Tables {
    t.(families := CompromiseFamilies(t.families, (i: Uuid, f: Family) => f.userId == user, now))
  }

  function LogoutTokens(t: Tables, user: Uuid, now: Time): Tables {
    t.(tokens := RevokeTokens(t.tokens, FamiliesOfUser(t.families, user), now))
  }

  // ---- The guard ----

  datatype AccessClaims = AccessClaims(sessionId: Uuid, userId: Uuid, deviceId: Uuid, version: int)

  /** canActivate after the signature, issuer, audience and expiry of the access token have been verified. */
  predicate GuardAccepts(t: Tables, c: AccessClaims) {
    && c.sessionId in t.sessions
    && var s := t.sessions[c.sessionId];
       && s.userId == c.userId && s.deviceId == c.deviceId
       && s.deviceId in t.devices && s.userId in t.users
       && s.revokedAt.None?
       && !t.devices[s.deviceId].isRevoked
       && (t.users[s.userId].Active? || t.users[s.userId].PendingProfile?)
       && s.version == c.version
  }
}
