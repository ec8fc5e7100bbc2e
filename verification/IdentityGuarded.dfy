/** Revocation and logout as the controllers reach them: behind the guard, for the user the guard accepted. A pending
    registration cannot pass the guard, so the race that defeats direct calls to the services cannot happen. */
module IdentityGuarded {
  import opened Common
  import opened IdentityTables
  import opened IdentityChains
  import opened IdentityRuns
  import opened IdentityRevocation

  ghost predicate HasSession(t: Tables, user: Uuid) {
    exists i :: i in t.sessions && t.sessions[i].userId == user
  }

  /** Each user registers once, on one device, and has no session before that registration is finished. */
  ghost predicate OneRegistration(w: World) {
    && (forall u, d, e :: (u, d) in w.registering && (u, e) in w.registering ==> d == e)
    && (forall u, d :: (u, d) in w.registering ==> !HasSession(w.db, u))
    && (forall i :: i in w.db.sessions ==> w.db.sessions[i].userId in w.db.users)
  }

  lemma SessionOwnersStep(t: Tables, t': Tables, user: Uuid)
    requires !HasSession(t, user)
    requires forall i :: i in t'.sessions ==>
               t'.sessions[i].userId != user || (i in t.sessions && t.sessions[i].userId == user)
    ensures !HasSession(t', user)
  {
    assert forall i :: i in t.sessions ==> t.sessions[i].userId != user;
  }

  /** A session appears only for the user whose registration it finishes. */
  lemma NewSessionsAreRegistrations(w: World, s: Step, user: Uuid)
    requires !(s.FinishesRegistration? && s.user == user && (user, s.device) in w.registering)
    ensures forall i :: i in Next(w, s).db.sessions ==>
              || Next(w, s).db.sessions[i].userId != user
              || (i in w.db.sessions && w.db.sessions[i].userId == user)
  {}

  lemma NextKeepsOneRegistration(w: World, s: Step)
    requires RegisteringOk(w) && OneRegistration(w)
    ensures OneRegistration(Next(w, s))
  {
    var w' := Next(w, s);
    forall u: Uuid, d: Uuid | (u, d) in w'.registering ensures !HasSession(w'.db, u) {
      assert !(s.FinishesRegistration? && s.user == u && (u, s.device) in w.registering);
      NewSessionsAreRegistrations(w, s, u);
      assert u in w.db.users ==> (u, d) in w.registering;
      SessionOwnersStep(w.db, w'.db, u);
    }
  }

  lemma {:induction false} RunKeepsOneRegistration(w: World, steps: seq<Step>)
    requires RegisteringOk(w) && OneRegistration(w)
    ensures OneRegistration(Run(w, steps))
    decreases |steps|
  {
    if steps != [] {
      NextKeepsRegisteringOk(w, steps[0]);
      NextKeepsOneRegistration(w, steps[0]);
      RunKeepsOneRegistration(Next(w, steps[0]), steps[1..]);
    }
  }

  /** In every reachable state, and ever after, a user the guard accepts has no pending registration. */
  lemma AcceptedUserIsRegistered(fk: ForeignKeys, before: seq<Step>, c: AccessClaims, between: seq<Step>)
    requires GuardAccepts(Run(Start(fk), before).db, c)
    ensures var w := Run(Run(Start(fk), before), between);
            && Inv(w.db) && RegisteringOk(w) && c.userId in w.db.users && !UserPending(w, c.userId)
  {
    var w := Run(Start(fk), before);
    EmptyInv(fk);
    RunKeepsInv(Start(fk), before);
    RunKeepsOneRegistration(Start(fk), before);
    RunKeepsRegisteringOk(Start(fk), before);
    assert HasSession(w.db, c.userId);
    NeverPendingAgain(w, between, c.userId);
    RunKeepsInv(w, between);
    RunKeepsRegisteringOk(w, between);
  }

  /** DELETE devices/:id. A user the guard has accepted revokes a device of theirs; whatever ran between the guard and
      the revocation, no token for that device works in any later state. No condition on registrations is left. */
  lemma GuardedRevocationIsFinal(fk: ForeignKeys, before: seq<Step>, c: AccessClaims, between: seq<Step>,
                                 device: Uuid, now: Time, later: seq<Step>)
    requires GuardAccepts(Run(Start(fk), before).db, c)
    requires var devices := Run(Run(Start(fk), before), between).db.devices;
             device in devices && devices[device].userId == c.userId && !devices[device].isRevoked
    ensures var w := Run(Run(Start(fk), before), between);
            var end := Run(Next(w, RevokesDevice(c.userId, device, now)), later);
            NoTokenWorks(end.db, device) && RowsRevoked(end.db, device)
  {
    var w := Run(Run(Start(fk), before), between);
    AcceptedUserIsRegistered(fk, before, c, between);
    assert forall u :: (u, device) in w.registering ==> u == c.userId;
    RevokedDeviceStaysOut(w, c.userId, device, now, later);
  }

  /** POST logout-all. For a user the guard has accepted its first statement shuts the guard for good. */
  lemma GuardedLogoutIsFinal(fk: ForeignKeys, before: seq<Step>, c: AccessClaims, between: seq<Step>,
                             now: Time, later: seq<Step>)
    requires GuardAccepts(Run(Start(fk), before).db, c)
    ensures var w := Run(Run(Start(fk), before), between);
            GuardShutsOut(Run(Next(w, LogsOutSessions(c.userId, now)), later).db, c.userId)
  {
    var w := Run(Run(Start(fk), before), between);
    AcceptedUserIsRegistered(fk, before, c, between);
    assert LiveDevicePending(w, c.userId) ==> UserPending(w, c.userId);
    LogoutEndsAccess(w, c.userId, now, later);
  }

  /** POST logout-all, to the end: `between` runs from the guard to just before the second statement, `mid` from there
      to the third. In every later state every family the user has is compromised, revoked and out of rotation. */
  lemma GuardedLogoutEndsRotation(fk: ForeignKeys, before: seq<Step>, c: AccessClaims, between: seq<Step>, t2: Time,
                                  mid: seq<Step>, t3: Time, later: seq<Step>, family: Uuid)
    requires GuardAccepts(Run(Start(fk), before).db, c)
    requires var w2 := Next(Run(Run(Start(fk), before), between), LogsOutFamilies(c.userId, t2));
             OwnedFamily(Run(Next(Run(w2, mid), LogsOutTokens(c.userId, t3)), later).db, family, c.userId)
    ensures var w2 := Next(Run(Run(Start(fk), before), between), LogsOutFamilies(c.userId, t2));
            var end := Run(Next(Run(w2, mid), LogsOutTokens(c.userId, t3)), later);
            && end.db.families[family].isCompromised && AllRevoked(end.db.tokens, family)
            && NeverRotatesAgain(end.db, family)
  {
    var w := Run(Run(Start(fk), before), between);
    var w2 := Next(w, LogsOutFamilies(c.userId, t2));
    var w3 := Run(w2, mid);
    AcceptedUserIsRegistered(fk, before, c, between);
    NeverPendingAgain(w2, mid, c.userId);
    RunAddsNoFamily(Next(w3, LogsOutTokens(c.userId, t3)), later, c.userId, family);
    RunAddsNoFamily(w2, mid, c.userId, family);
    LogoutAllIsFinal(w, c.userId, t2, mid, t3, later, family);
  }
}
