/** What device revocation and logout-all guarantee about access tokens, and the one race that defeats them:
    a registration whose session has not been created yet. */
module IdentityRevocation {
  import opened Common
  import opened IdentityTables
  import opened IdentityChains
  import opened IdentityRuns

  /** A pending registration has committed its user and device. */
  ghost predicate RegisteringOk(w: World) {
    && (forall u, d :: (u, d) in w.registering ==> u in w.db.users && d in w.db.devices && w.db.devices[d].userId == u)
    && (forall u :: u in w.db.users ==> w.db.users[u] == Active)
  }

  lemma NextKeepsRegisteringOk(w: World, s: Step)
    requires RegisteringOk(w)
    ensures RegisteringOk(Next(w, s))
  {}

  lemma {:induction false} RunKeepsRegisteringOk(w: World, steps: seq<Step>)
    requires RegisteringOk(w)
    ensures RegisteringOk(Run(w, steps))
    decreases |steps|
  {
    if steps != [] {
      NextKeepsRegisteringOk(w, steps[0]);
      RunKeepsRegisteringOk(Next(w, steps[0]), steps[1..]);
    }
  }

  // ---- Device revocation ----

  ghost predicate DevicePending(w: World, device: Uuid) {
    exists u :: (u, device) in w.registering
  }

  ghost predicate DeviceClosed(w: World, device: Uuid) {
    && device in w.db.devices && w.db.devices[device].isRevoked
    && !DevicePending(w, device)
    && (forall f :: f in w.db.families && w.db.families[f].deviceId == device ==> w.db.families[f].isCompromised)
    && (forall i :: i in w.db.sessions && w.db.sessions[i].deviceId == device ==> w.db.sessions[i].revokedAt.Some?)
  }

  lemma NextKeepsDeviceClosed(w: World, s: Step, device: Uuid)
    requires DeviceClosed(w, device)
    ensures DeviceClosed(Next(w, s), device)
  {}

  lemma {:induction false} RunKeepsDeviceClosed(w: World, steps: seq<Step>, device: Uuid)
    requires DeviceClosed(w, device)
    ensures DeviceClosed(Run(w, steps), device)
    decreases |steps|
  {
    if steps != [] {
      NextKeepsDeviceClosed(w, steps[0], device);
      RunKeepsDeviceClosed(Next(w, steps[0]), steps[1..], device);
    }
  }

  ghost predicate NoTokenWorks(t: Tables, device: Uuid) {
    && (forall c: AccessClaims :: c.deviceId == device ==> !GuardAccepts(t, c))
    && (forall f {:trigger NeverRotatesAgain(t, f)} ::
          f in t.families && t.families[f].deviceId == device ==> NeverRotatesAgain(t, f))
  }

  ghost predicate RowsRevoked(t: Tables, device: Uuid) {
    && (forall i :: i in t.sessions && t.sessions[i].deviceId == device ==> t.sessions[i].revokedAt.Some?)
    && (forall f :: f in t.families && t.families[f].deviceId == device ==> t.families[f].isCompromised)
  }

  lemma RevokeDeviceEffect(t: Tables, user: Uuid, device: Uuid, now: Time, family: Uuid)
    requires CanRevokeDevice(t, user, device) && family in t.families && t.families[family].deviceId == device
    ensures var t' := RevokeDevice(t, user, device, now);
            SameFamily(t, t', family) && t'.families[family].isCompromised && AllRevoked(t'.tokens, family)
  {}

  /** The tokens of a family that a device revocation hits stay revoked with it. */
  lemma {:induction false} RevokedDeviceTokens(w: World, user: Uuid, device: Uuid, now: Time, later: seq<Step>,
                                               family: Uuid)
    requires Inv(w.db) && CanRevokeDevice(w.db, user, device)
    requires family in w.db.families && w.db.families[family].deviceId == device
    ensures var end := Run(Next(w, RevokesDevice(user, device, now)), later);
            SameFamily(w.db, end.db, family) && AllRevoked(end.db.tokens, family) && NeverRotatesAgain(end.db, family)
  {
    var w1 := Next(w, RevokesDevice(user, device, now));
    var end := Run(w1, later);
    NextKeepsInv(w, RevokesDevice(user, device, now));
    RevokeDeviceEffect(w.db, user, device, now, family);
    RunKeepsFrozen(w1, later, family);
    RunKeepsInv(w1, later);
    FrozenNeverRotates(end.db, family);
    SameFamilyChains(w.db, w1.db, end.db, family);
    forall i: Uuid | Member(end.db.tokens, family, i) ensures end.db.tokens[i].isRevoked {
      assert Member(w1.db.tokens, family, i);
    }
  }

  /** Once revokeDevice has committed for a device whose registration has finished, no later guard check accepts
      an access token for it and no refresh token of its families rotates. */
  lemma RevokedDeviceStaysOut(w: World, user: Uuid, device: Uuid, now: Time, later: seq<Step>)
    requires Inv(w.db) && CanRevokeDevice(w.db, user, device) && !DevicePending(w, device)
    ensures NoTokenWorks(Run(Next(w, RevokesDevice(user, device, now)), later).db, device)
    ensures RowsRevoked(Run(Next(w, RevokesDevice(user, device, now)), later).db, device)
  {
    var w1 := Next(w, RevokesDevice(user, device, now));
    var end := Run(w1, later);
    NextKeepsInv(w, RevokesDevice(user, device, now));
    RunKeepsInv(w1, later);
    RunKeepsDeviceClosed(w1, later, device);
    forall f | f in end.db.families && end.db.families[f].deviceId == device ensures NeverRotatesAgain(end.db, f) {
      FrozenNeverRotates(end.db, f);
    }
  }

  lemma FreshIds(t: Tables) returns (ids: SessionIds, hash: Digest)
    ensures ids.session !in t.sessions && ids.family !in t.families && ids.token !in t.tokens
    ensures !HashUsed(t.tokens, hash)
  {
    var s := FreshNumber(t.sessions.Keys);
    var f := FreshNumber(t.families.Keys);
    var k := FreshNumber(t.tokens.Keys);
    ids := SessionIds(s, f, k);
    hash := FreshNumber(set i | i in t.tokens :: t.tokens[i].verifierHash);
  }

  /** The condition is exact: when the registration is still pending, its createSession can follow the
      revocation and leave the revoked device a family whose token rotates. */
  lemma PendingRegistrationOutlivesRevocation(w: World, user: Uuid, device: Uuid, now: Time)
    returns (later: seq<Step>, id: Uuid, newId: Uuid, newHash: Digest)
    requires Inv(w.db) && CanRevokeDevice(w.db, user, device)
    requires RegisteringOk(w) && DevicePending(w, device)
    ensures var db := Run(Next(w, RevokesDevice(user, device, now)), later).db;
            && id in db.tokens && db.tokens[id].familyId in db.families
            && db.families[db.tokens[id].familyId].deviceId == device
            && (db.fk.AtCommit? <==> Refresh(db, db.tokens[id].verifierHash, newId, newHash, now).1.Rotated?)
            && !NoTokenWorks(db, device)
  {
    var u :| (u, device) in w.registering;
    var w1 := Next(w, RevokesDevice(user, device, now));
    NextKeepsInv(w, RevokesDevice(user, device, now));
    var ids, hash := FreshIds(w1.db);
    var s := FinishesRegistration(u, device, ids, hash, now);
    later := [s];
    var w2 := Next(w1, s);
    assert Run(w1, later) == Run(w2, []) == w2;
    NextKeepsInv(w1, s);
    id := ids.token;
    var spare, spareHash := FreshIds(w2.db);
    newId, newHash := spare.token, spareHash;
    RefreshOutcomeExact(w2.db, id, newId, newHash, now);
    assert Member(w2.db.tokens, ids.family, id);
    assert !NeverRotatesAgain(w2.db, ids.family) by {
      assert Refresh(w2.db, w2.db.tokens[id].verifierHash, newId, newHash, now).1 != InvalidOrRevoked;
    }
  }

  /** For all inputs: a device revocation is final exactly when no registration is pending on the device. */
  lemma RevocationIsFinalIff(w: World, user: Uuid, device: Uuid, now: Time)
    requires Inv(w.db) && RegisteringOk(w)
    requires device in w.db.devices && w.db.devices[device].userId == user && !w.db.devices[device].isRevoked
    ensures (forall later {:trigger Run(Next(w, RevokesDevice(user, device, now)), later)} ::
               NoTokenWorks(Run(Next(w, RevokesDevice(user, device, now)), later).db, device))
            <==> !DevicePending(w, device)
  {
    if DevicePending(w, device) {
      var later, _, _, _ := PendingRegistrationOutlivesRevocation(w, user, device, now);
      assert !NoTokenWorks(Run(Next(w, RevokesDevice(user, device, now)), later).db, device);
    } else {
      forall later: seq<Step> ensures NoTokenWorks(Run(Next(w, RevokesDevice(user, device, now)), later).db, device) {
        RevokedDeviceStaysOut(w, user, device, now, later);
      }
    }
  }

  // ---- Logout-all and access tokens ----

  /** A registration of the user is pending on a device that is not revoked. */
  ghost predicate LiveDevicePending(w: World, user: Uuid) {
    exists d :: (user, d) in w.registering && d in w.db.devices && !w.db.devices[d].isRevoked
  }

  predicate OnRevokedDevice(t: Tables, s: Session) {
    s.deviceId in t.devices && t.devices[s.deviceId].isRevoked
  }

  /** The user has no session the guard accepts, and can gain none. */
  ghost predicate UserOut(w: World, user: Uuid) {
    && user in w.db.users && !LiveDevicePending(w, user)
    && (forall i :: i in w.db.sessions && w.db.sessions[i].userId == user ==>
          w.db.sessions[i].revokedAt.Some? || OnRevokedDevice(w.db, w.db.sessions[i]))
  }

  lemma NextKeepsUserOut(w: World, s: Step, user: Uuid)
    requires RegisteringOk(w) && UserOut(w, user)
    ensures UserOut(Next(w, s), user)
  {}

  lemma {:induction false} RunKeepsUserOut(w: World, steps: seq<Step>, user: Uuid)
    requires RegisteringOk(w) && UserOut(w, user)
    ensures UserOut(Run(w, steps), user)
    decreases |steps|
  {
    if steps != [] {
      NextKeepsRegisteringOk(w, steps[0]);
      NextKeepsUserOut(w, steps[0], user);
      RunKeepsUserOut(Next(w, steps[0]), steps[1..], user);
    }
  }

  ghost predicate GuardShutsOut(t: Tables, user: Uuid) {
    forall c: AccessClaims :: c.userId == user ==> !GuardAccepts(t, c)
  }

  /** The first statement of logout-all ends every access token of the user, for good, unless a registration of
      theirs is pending on a device that is not revoked. */
  lemma LogoutEndsAccess(w: World, user: Uuid, now: Time, later: seq<Step>)
    requires RegisteringOk(w) && user in w.db.users && !LiveDevicePending(w, user)
    ensures GuardShutsOut(Run(Next(w, LogsOutSessions(user, now)), later).db, user)
  {
    NextKeepsRegisteringOk(w, LogsOutSessions(user, now));
    RunKeepsUserOut(Next(w, LogsOutSessions(user, now)), later, user);
  }

  /** If one is, a session created between the statements survives all three of them. */
  lemma PendingRegistrationOutlivesLogout(w: World, user: Uuid, now: Time)
    returns (between: seq<Step>, c: AccessClaims)
    requires RegisteringOk(w) && LiveDevicePending(w, user)
    ensures var w1 := Run(Next(w, LogsOutSessions(user, now)), between);
            var done := Next(Next(w1, LogsOutFamilies(user, now)), LogsOutTokens(user, now));
            c.userId == user && GuardAccepts(w1.db, c) && GuardAccepts(done.db, c)
  {
    var device :| (user, device) in w.registering && device in w.db.devices && !w.db.devices[device].isRevoked;
    var w0 := Next(w, LogsOutSessions(user, now));
    var ids, hash := FreshIds(w0.db);
    var s := FinishesRegistration(user, device, ids, hash, now);
    between := [s];
    assert Run(w0, between) == Run(Next(w0, s), []) == Next(w0, s);
    c := AccessClaims(ids.session, user, device, SESSION_VERSION);
  }

  /** For all inputs: logout-all shuts the guard to a user for good exactly when no registration of theirs is
      pending on a device that is not revoked. */
  lemma LogoutEndsAccessIff(w: World, user: Uuid, now: Time)
    requires RegisteringOk(w) && user in w.db.users
    ensures (forall later {:trigger Run(Next(w, LogsOutSessions(user, now)), later)} ::
               GuardShutsOut(Run(Next(w, LogsOutSessions(user, now)), later).db, user))
            <==> !LiveDevicePending(w, user)
  {
    if LiveDevicePending(w, user) {
      var between, c := PendingRegistrationOutlivesLogout(w, user, now);
      assert !GuardShutsOut(Run(Next(w, LogsOutSessions(user, now)), between).db, user);
    } else {
      forall later: seq<Step> ensures GuardShutsOut(Run(Next(w, LogsOutSessions(user, now)), later).db, user) {
        LogoutEndsAccess(w, user, now, later);
      }
    }
  }

  // ---- Logout-all and refresh tokens ----

  ghost predicate UserPending(w: World, user: Uuid) {
    exists d :: (user, d) in w.registering
  }

  lemma {:induction false} NeverPendingAgain(w: World, steps: seq<Step>, user: Uuid)
    requires user in w.db.users && !UserPending(w, user)
    ensures user in Run(w, steps).db.users && !UserPending(Run(w, steps), user)
    decreases |steps|
  {
    if steps != [] {
      NeverPendingAgain(Next(w, steps[0]), steps[1..], user);
    }
  }

  ghost predicate OwnedFamily(t: Tables, family: Uuid, user: Uuid) {
    family in t.families && t.families[family].userId == user
  }

  /** Without a pending registration a user gets no further family. */
  lemma {:induction false} RunAddsNoFamily(w: World, steps: seq<Step>, user: Uuid, family: Uuid)
    requires user in w.db.users && !UserPending(w, user) && OwnedFamily(Run(w, steps).db, family, user)
    ensures OwnedFamily(w.db, family, user)
    decreases |steps|
  {
    if steps != [] {
      NeverPendingAgain(w, [steps[0]], user);
      assert Run(w, [steps[0]]) == Run(Next(w, steps[0]), []) == Next(w, steps[0]);
      RunAddsNoFamily(Next(w, steps[0]), steps[1..], user, family);
    }
  }

  ghost predicate NoFamilyRotates(t: Tables, user: Uuid) {
    forall f {:trigger OwnedFamily(t, f, user)} :: OwnedFamily(t, f, user) ==> NeverRotatesAgain(t, f)
  }

  /** createSession does not look at the device: a registration pending when logout-all ends can still add a family
      whose token is not refused, and rotates when references are checked at commit, on a revoked device too. */
  lemma PendingRegistrationOutlivesTokens(w: World, user: Uuid, now: Time)
    returns (later: seq<Step>, id: Uuid, newId: Uuid, newHash: Digest)
    requires Inv(w.db) && RegisteringOk(w) && UserPending(w, user)
    ensures var db := Run(Next(w, LogsOutTokens(user, now)), later).db;
            && id in db.tokens && OwnedFamily(db, db.tokens[id].familyId, user)
            && (db.fk.AtCommit? <==> Refresh(db, db.tokens[id].verifierHash, newId, newHash, now).1.Rotated?)
            && !NoFamilyRotates(db, user)
  {
    var device :| (user, device) in w.registering;
    var w1 := Next(w, LogsOutTokens(user, now));
    NextKeepsInv(w, LogsOutTokens(user, now));
    var ids, hash := FreshIds(w1.db);
    var s := FinishesRegistration(user, device, ids, hash, now);
    later := [s];
    var w2 := Next(w1, s);
    assert Run(w1, later) == Run(w2, []) == w2;
    NextKeepsInv(w1, s);
    id := ids.token;
    var spare, spareHash := FreshIds(w2.db);
    newId, newHash := spare.token, spareHash;
    RefreshOutcomeExact(w2.db, id, newId, newHash, now);
    assert Member(w2.db.tokens, ids.family, id);
    assert OwnedFamily(w2.db, ids.family, user) && !NeverRotatesAgain(w2.db, ids.family) by {
      assert Refresh(w2.db, w2.db.tokens[id].verifierHash, newId, newHash, now).1 != InvalidOrRevoked;
    }
  }

  /** Without a pending registration the last statement of logout-all ends rotation for good. */
  lemma LogoutEndsRotation(w: World, user: Uuid, now: Time, later: seq<Step>)
    requires Inv(w.db) && user in w.db.users && !UserPending(w, user)
    ensures NoFamilyRotates(Run(Next(w, LogsOutTokens(user, now)), later).db, user)
  {
    var s := LogsOutTokens(user, now);
    var end := Run(Next(w, s), later);
    forall f: Uuid | OwnedFamily(end.db, f, user) ensures NeverRotatesAgain(end.db, f) {
      RunAddsNoFamily(Next(w, s), later, user, f);
      LogoutTokensFreezes(w, user, now, later, f);
    }
  }

  /** For all inputs: after the last statement of logout-all no family of the user ever rotates again, those created
      later included, exactly when no registration of theirs is pending then, on whatever device. */
  lemma LogoutEndsRotationIff(w: World, user: Uuid, now: Time)
    requires Inv(w.db) && RegisteringOk(w) && user in w.db.users
    ensures (forall later {:trigger Run(Next(w, LogsOutTokens(user, now)), later)} ::
               NoFamilyRotates(Run(Next(w, LogsOutTokens(user, now)), later).db, user))
            <==> !UserPending(w, user)
  {
    if UserPending(w, user) {
      var later, _, _, _ := PendingRegistrationOutlivesTokens(w, user, now);
      assert !NoFamilyRotates(Run(Next(w, LogsOutTokens(user, now)), later).db, user);
    } else {
      forall later: seq<Step> ensures NoFamilyRotates(Run(Next(w, LogsOutTokens(user, now)), later).db, user) {
        LogoutEndsRotation(w, user, now, later);
      }
    }
  }

  // ---- Access tokens handed out by a refresh ----

  /** Steps that may add a row to the session table under this id. */
  predicate Creates(s: Step, session: Uuid) {
    s.FinishesRegistration? && s.ids.session == session
  }

  /** rotateRefreshToken signs its access token for a session id it has just generated and never inserts. Unless
      a createSession happens to use the same id, the guard refuses that token for ever. */
  lemma {:induction false} RefreshedAccessIsRefused(w: World, steps: seq<Step>, c: AccessClaims)
    requires c.sessionId !in w.db.sessions
    requires forall k :: 0 <= k < |steps| ==> !Creates(steps[k], c.sessionId)
    ensures !GuardAccepts(Run(w, steps).db, c)
    decreases |steps|
  {
    if steps != [] {
      RefreshedAccessIsRefused(Next(w, steps[0]), steps[1..], c);
    }
  }

  // ---- The foreign key as migrated ----

  lemma {:induction false} RunKeepsForeignKeys(w: World, steps: seq<Step>)
    ensures Run(w, steps).db.fk == w.db.fk
    decreases |steps|
  {
    if steps != [] {
      RunKeepsForeignKeys(Next(w, steps[0]), steps[1..]);
    }
  }

  /** With the reference checked at each statement, as the migration leaves it, no token is ever rotated:
      every family keeps its first token, and no refresh ever yields anything but a refusal. */
  lemma StatementChecksForbidRotation(steps: seq<Step>, family: Uuid, hash: Digest, newId: Uuid, newHash: Digest,
                                      now: Time)
    requires family in Run(Start(PerStatement), steps).db.families
    ensures var db := Run(Start(PerStatement), steps).db;
            && (exists id :: IsChain(db.tokens, family, [id]))
            && Refresh(db, hash, newId, newHash, now).0 == db
            && Refresh(db, hash, newId, newHash, now).1 in {UnknownToken, InvalidOrRevoked, ConstraintViolation}
  {
    var db := Run(Start(PerStatement), steps).db;
    EmptyInv(PerStatement);
    RunKeepsInv(Start(PerStatement), steps);
    RunKeepsForeignKeys(Start(PerStatement), steps);
    var chain := ChainOf(db, family);
    assert RowOk(db, chain[0]);
    UnrotatedIsLast(db.tokens, family, chain, chain[0]);
    assert 1 < |chain| ==> Apart(chain, 0, |chain| - 1);
    assert chain == [chain[0]];
    if id :| Presents(db, hash, id) {
      assert RowOk(db, id);
      RefreshOutcomeExact(db, id, newId, newHash, now);
    }
  }
}
