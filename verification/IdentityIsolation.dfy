/** Nobody's sessions and tokens change through what other users do. */
module IdentityIsolation {
  import opened Common
  import opened IdentityTables
  import opened IdentityChains
  import opened IdentityRuns
  import opened IdentityRevocation
  import opened IdentityHistory

  // ---- Sessions and families belong to the owner of their device ----

  ghost predicate OwnersMatch(t: Tables) {
    && (forall i :: i in t.sessions ==>
          t.sessions[i].deviceId in t.devices && t.devices[t.sessions[i].deviceId].userId == t.sessions[i].userId)
    && (forall f :: f in t.families ==>
          t.families[f].deviceId in t.devices && t.devices[t.families[f].deviceId].userId == t.families[f].userId)
  }

  lemma RefreshKeepsOwners(t: Tables, hash: Digest, newId: Uuid, newHash: Digest, now: Time)
    requires OwnersMatch(t)
    ensures OwnersMatch(Refresh(t, hash, newId, newHash, now).0)
  {}

  lemma NextKeepsOwners(w: World, s: Step)
    requires OwnersMatch(w.db) && RegisteringOk(w)
    ensures OwnersMatch(Next(w, s).db)
  {
    match s
    case Refreshes(hash, newId, newHash, now) => RefreshKeepsOwners(w.db, hash, newId, newHash, now);
    case _ =>
  }

  // ---- The rows of one user ----

  function SessionsOf(t: Tables, user: Uuid): map<Uuid, Session> {
    map i | i in t.sessions && t.sessions[i].userId == user :: t.sessions[i]
  }

  function FamiliesOf(t: Tables, user: Uuid): map<Uuid, Family> {
    map f | f in t.families && t.families[f].userId == user :: t.families[f]
  }

  function TokensOf(t: Tables, user: Uuid): map<Uuid, Token> {
    map i | i in t.tokens && t.tokens[i].familyId in FamiliesOf(t, user) :: t.tokens[i]
  }

  ghost predicate SameRowsOf(a: Tables, b: Tables, user: Uuid) {
    && SessionsOf(a, user) == SessionsOf(b, user) && FamiliesOf(a, user) == FamiliesOf(b, user)
    && TokensOf(a, user) == TokensOf(b, user)
  }

  /** The steps taken by or for a user: their logins, logouts and revocations, and any use of their tokens. */
  ghost predicate Concerns(w: World, s: Step, user: Uuid) {
    match s
    case Registers(_, _) => false
    case FinishesRegistration(u, _, _, _, _) => u == user
    case Refreshes(hash, _, _, _) =>
      exists i :: Presents(w.db, hash, i) && w.db.families[w.db.tokens[i].familyId].userId == user
    case RevokesDevice(u, _, _) => u == user
    case RevokesSession(i, _) => i in w.db.sessions && w.db.sessions[i].userId == user
    case LogsOutSessions(u, _) => u == user
    case LogsOutFamilies(u, _) => u == user
    case LogsOutTokens(u, _) => u == user
  }

  ghost predicate NoneConcerns(w: World, steps: seq<Step>, user: Uuid)
    decreases |steps|
  {
    steps == [] || (!Concerns(w, steps[0], user) && NoneConcerns(Next(w, steps[0]), steps[1..], user))
  }

  lemma RotateSparesOthers(t: Tables, id: Uuid, newId: Uuid, newHash: Digest, now: Time, user: Uuid)
    requires id in t.tokens && newId !in t.tokens && t.tokens[id].familyId !in FamiliesOf(t, user)
    ensures SameRowsOf(t, Rotate(t, id, newId, newHash, now), user)
  {
    var t' := Rotate(t, id, newId, newHash, now);
    assert FamiliesOf(t', user) == FamiliesOf(t, user);
    assert TokensOf(t', user) == TokensOf(t, user);
  }

  lemma CompromiseSparesOthers(t: Tables, family: Uuid, now: Time, user: Uuid)
    requires family in t.families && t.families[family].userId != user
    ensures SameRowsOf(t, Compromise(t, family, now), user)
  {
    var t' := Compromise(t, family, now);
    assert SessionsOf(t', user) == SessionsOf(t, user);
    assert FamiliesOf(t', user) == FamiliesOf(t, user);
    assert TokensOf(t', user) == TokensOf(t, user);
  }

  lemma RefreshSparesOthers(t: Tables, hash: Digest, newId: Uuid, newHash: Digest, now: Time, user: Uuid)
    requires Inv(t)
    requires forall i :: Presents(t, hash, i) ==> t.families[t.tokens[i].familyId].userId != user
    ensures SameRowsOf(t, Refresh(t, hash, newId, newHash, now).0, user)
  {
    if id :| Presents(t, hash, id) {
      RefreshIsRow(t, id, newId, newHash, now);
      match RefreshRow(t, id, newId, newHash, now).1
      case Rotated(_) => RotateSparesOthers(t, id, newId, newHash, now, user);
      case ReuseDetected(f) => CompromiseSparesOthers(t, f, now, user);
      case _ =>
    }
  }

  lemma FinishingSparesOthers(t: Tables, u: Uuid, device: Uuid, ids: SessionIds, hash: Digest, now: Time, user: Uuid)
    requires u != user && RowsOk(t)
    ensures SameRowsOf(t, CreateSession(t, u, device, ids, hash, now), user)
  {
    if CanInsertSession(t, u, device, ids, hash) {
      NewSessionKeepsRows(t, u, device, ids, hash, now);
      var t' := CreateSession(t, u, device, ids, hash, now);
      assert FamiliesOf(t', user) == FamiliesOf(t, user);
    }
  }

  lemma DeviceRevocationSparesOthers(t: Tables, owner: Uuid, device: Uuid, now: Time, user: Uuid)
    requires OwnersMatch(t) && owner != user
    ensures SameRowsOf(t, RevokeDevice(t, owner, device, now), user)
  {
    if CanRevokeDevice(t, owner, device) {
      var t' := RevokeDevice(t, owner, device, now);
      assert SessionsOf(t', user) == SessionsOf(t, user);
      assert FamiliesOf(t', user) == FamiliesOf(t, user);
      assert TokensOf(t', user) == TokensOf(t, user);
    }
  }

  lemma RevocationSparesOthers(w: World, s: Step, user: Uuid)
    requires !Concerns(w, s, user) && !s.Refreshes? && !s.FinishesRegistration? && !s.RevokesDevice?
    ensures SameRowsOf(w.db, Next(w, s).db, user)
  {
    assert FamiliesOf(Next(w, s).db, user) == FamiliesOf(w.db, user);
  }

  lemma NextSparesOthers(w: World, s: Step, user: Uuid)
    requires Inv(w.db) && OwnersMatch(w.db) && !Concerns(w, s, user)
    ensures SameRowsOf(w.db, Next(w, s).db, user)
  {
    match s
    case Refreshes(hash, newId, newHash, now) => RefreshSparesOthers(w.db, hash, newId, newHash, now, user);
    case FinishesRegistration(u, d, ids, hash, now) => FinishingSparesOthers(w.db, u, d, ids, hash, now, user);
    case RevokesDevice(u, d, now) => DeviceRevocationSparesOthers(w.db, u, d, now, user);
    case _ => RevocationSparesOthers(w, s, user);
  }

  lemma {:induction false} RunSparesOthers(w: World, steps: seq<Step>, user: Uuid)
    requires Inv(w.db) && OwnersMatch(w.db) && RegisteringOk(w) && NoneConcerns(w, steps, user)
    ensures SameRowsOf(w.db, Run(w, steps).db, user)
    decreases |steps|
  {
    if steps != [] {
      NextKeepsInv(w, steps[0]);
      NextKeepsOwners(w, steps[0]);
      NextKeepsRegisteringOk(w, steps[0]);
      NextSparesOthers(w, steps[0], user);
      RunSparesOthers(Next(w, steps[0]), steps[1..], user);
    }
  }

  lemma {:induction false} RunKeepsOwners(w: World, steps: seq<Step>)
    requires OwnersMatch(w.db) && RegisteringOk(w)
    ensures OwnersMatch(Run(w, steps).db)
    decreases |steps|
  {
    if steps != [] {
      NextKeepsOwners(w, steps[0]);
      NextKeepsRegisteringOk(w, steps[0]);
      RunKeepsOwners(Next(w, steps[0]), steps[1..]);
    }
  }

  /** From any reachable state, a run none of whose steps concerns a user leaves that user's sessions, families and
      tokens exactly as they were: revocation cascades never reach past the owner of the device. */
  lemma OthersDoNotInterfere(fk: ForeignKeys, before: seq<Step>, steps: seq<Step>, user: Uuid)
    requires NoneConcerns(Run(Start(fk), before), steps, user)
    ensures var w := Run(Start(fk), before);
            OwnersMatch(w.db) && SameRowsOf(w.db, Run(w, steps).db, user)
  {
    EmptyInv(fk);
    RunKeepsInv(Start(fk), before);
    RunKeepsOwners(Start(fk), before);
    RunKeepsRegisteringOk(Start(fk), before);
    RunSparesOthers(Run(Start(fk), before), steps, user);
  }

  lemma SpareToken(a: Tables, b: Tables, user: Uuid, family: Uuid, id: Uuid)
    requires SameRowsOf(a, b, user) && family in a.families && a.families[family].userId == user
    requires id in a.tokens && a.tokens[id].familyId == family
    ensures family in b.families && b.families[family] == a.families[family]
    ensures id in b.tokens && b.tokens[id] == a.tokens[id]
  {
    assert family in FamiliesOf(a, user) && id in TokensOf(a, user);
    assert FamiliesOf(a, user)[family] == FamiliesOf(b, user)[family];
    assert TokensOf(a, user)[id] == TokensOf(b, user)[id];
  }

  /** Right after a rotation the token handed out is live. */
  lemma SuccessorIsLive(t: Tables, id: Uuid, newId: Uuid, newHash: Digest, at: Time)
    requires Inv(t) && id in t.tokens && t.tokens[id].familyId in t.families
    requires Refresh(t, t.tokens[id].verifierHash, newId, newHash, at).1.Rotated?
    ensures var t' := Refresh(t, t.tokens[id].verifierHash, newId, newHash, at).0;
            && t'.families == t.families && !t.families[t.tokens[id].familyId].isCompromised
            && newId in t'.tokens && t'.tokens[newId].familyId == t.tokens[id].familyId
            && !t'.tokens[newId].isRevoked && !t'.tokens[newId].isRotated
  {
    RefreshIsRow(t, id, newId, newHash, at);
  }

  /** As long as no step concerns the user, the token handed out by a rotation rotates in its turn, whatever everybody
      else does, exactly until thirty days after the family's creation. */
  lemma SuccessorRotatesUndisturbed(w: World, id: Uuid, newId: Uuid, newHash: Digest, at: Time,
                                    steps: seq<Step>, nextId: Uuid, nextHash: Digest, now: Time)
    requires Inv(w.db) && OwnersMatch(w.db) && RegisteringOk(w)
    requires id in w.db.tokens && w.db.tokens[id].familyId in w.db.families
    requires Refresh(w.db, w.db.tokens[id].verifierHash, newId, newHash, at).1.Rotated?
    requires NoneConcerns(Next(w, Refreshes(w.db.tokens[id].verifierHash, newId, newHash, at)), steps,
                          w.db.families[w.db.tokens[id].familyId].userId)
    ensures var tok := w.db.tokens[id];
            var db := Run(Next(w, Refreshes(tok.verifierHash, newId, newHash, at)), steps).db;
            CanRotate(db, nextId, nextHash) ==>
              (Refresh(db, newHash, nextId, nextHash, now).1 == Rotated(tok.familyId)
               <==> now <= w.db.families[tok.familyId].createdAt + 30 * DAY)
  {
    var tok := w.db.tokens[id];
    var user := w.db.families[tok.familyId].userId;
    var s := Refreshes(tok.verifierHash, newId, newHash, at);
    var w1 := Next(w, s);
    SuccessorIsLive(w.db, id, newId, newHash, at);
    NextKeepsInv(w, s);
    NextKeepsOwners(w, s);
    NextKeepsRegisteringOk(w, s);
    RunSparesOthers(w1, steps, user);
    SpareToken(w1.db, Run(w1, steps).db, user, tok.familyId, newId);
    SuccessorRotates(w, id, newId, newHash, at, steps, nextId, nextHash, now);
  }
}
