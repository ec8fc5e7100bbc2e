/** Runs of the identity services: any interleaving of their transactions and lone statements, with any
    clock readings and any generated identifiers. Every statement below holds for all of them. */
module IdentityRuns {
  import opened Common
  import opened IdentityTables
  import opened IdentityChains

  /** The tables, and the registrations that have committed their device but not yet created its session. */
  datatype World = World(db: Tables, registering: set<(Uuid, Uuid)>)

  datatype Step =
    | Registers(user: Uuid, device: Uuid)
    | FinishesRegistration(user: Uuid, device: Uuid, ids: SessionIds, hash: Digest, now: Time)
    | Refreshes(hash: Digest, newId: Uuid, newHash: Digest, now: Time)
    | RevokesDevice(user: Uuid, device: Uuid, now: Time)
    | RevokesSession(session: Uuid, now: Time)
    | LogsOutSessions(user: Uuid, now: Time)
    | LogsOutFamilies(user: Uuid, now: Time)
    | LogsOutTokens(user: Uuid, now: Time)

  function Start(fk: ForeignKeys): World {
    World(EmptyTables(fk), {})
  }

  /** registerAccount is the only caller of createSession, once, for the device it has just inserted. */
  ghost function Next(w: World, s: Step): World {
    match s
    case Registers(u, d) =>
      if u in w.db.users || d in w.db.devices then w
      else World(RegisterAccount(w.db, u, d), w.registering + {(u, d)})
    case FinishesRegistration(u, d, ids, hash, now) =>
      if (u, d) !in w.registering then w
      else World(CreateSession(w.db, u, d, ids, hash, now), w.registering - {(u, d)})
    case Refreshes(hash, newId, newHash, now) => w.(db := Refresh(w.db, hash, newId, newHash, now).0)
    case RevokesDevice(u, d, now) => w.(db := RevokeDevice(w.db, u, d, now))
    case RevokesSession(i, now) => w.(db := RevokeSession(w.db, i, now))
    case LogsOutSessions(u, now) => w.(db := LogoutSessions(w.db, u, now))
    case LogsOutFamilies(u, now) => w.(db := LogoutFamilies(w.db, u, now))
    case LogsOutTokens(u, now) => w.(db := LogoutTokens(w.db, u, now))
  }

  ghost function Run(w: World, steps: seq<Step>): World
    decreases |steps|
  {
    if steps == [] then w else Run(Next(w, steps[0]), steps[1..])
  }

  // ---- The chain invariant over every run ----

  lemma EmptyInv(fk: ForeignKeys)
    ensures Inv(EmptyTables(fk))
  {
    var none: map<Uuid, seq<Uuid>> := map[];
    assert ChainedBy(EmptyTables(fk), none);
  }

  lemma RevokeDeviceKeepsInv(t: Tables, user: Uuid, device: Uuid, now: Time)
    requires Inv(t)
    ensures Inv(RevokeDevice(t, user, device, now))
  {
    if CanRevokeDevice(t, user, device) {
      RevocationKeepsInv(t, RevokeDevice(t, user, device, now), FamiliesOfDevice(t.families, device), now);
    }
  }

  lemma NextKeepsInv(w: World, s: Step)
    requires Inv(w.db)
    ensures Inv(Next(w, s).db)
  {
    match s
    case FinishesRegistration(u, d, ids, hash, now) => CreateSessionKeepsInv(w.db, u, d, ids, hash, now);
    case Refreshes(hash, newId, newHash, now) => RefreshKeepsInv(w.db, hash, newId, newHash, now);
    case RevokesDevice(u, d, now) => RevokeDeviceKeepsInv(w.db, u, d, now);
    case LogsOutFamilies(u, now) =>
      RevocationKeepsInv(w.db, Next(w, s).db, {}, now);
    case LogsOutTokens(u, now) => RevocationKeepsInv(w.db, Next(w, s).db, FamiliesOfUser(w.db.families, u), now);
    case _ => RevocationKeepsInv(w.db, Next(w, s).db, {}, 0);
  }

  lemma {:induction false} RunKeepsInv(w: World, steps: seq<Step>)
    requires Inv(w.db)
    ensures Inv(Run(w, steps).db)
    decreases |steps|
  {
    if steps != [] {
      NextKeepsInv(w, steps[0]);
      RunKeepsInv(Next(w, steps[0]), steps[1..]);
    }
  }

  /** In every reachable state the tokens of each family form one unbranched chain. */
  lemma EveryFamilyIsAChain(fk: ForeignKeys, steps: seq<Step>, family: Uuid) returns (chain: seq<Uuid>)
    requires family in Run(Start(fk), steps).db.families
    ensures IsChain(Run(Start(fk), steps).db.tokens, family, chain)
  {
    EmptyInv(fk);
    RunKeepsInv(Start(fk), steps);
    chain := ChainOf(Run(Start(fk), steps).db, family);
  }

  /** Every token carries the expiry of the first one, so no rotation happens later than thirty days
      after the family was created. */
  lemma NoRotationAfterThirtyDays(fk: ForeignKeys, steps: seq<Step>, id: Uuid, newId: Uuid, newHash: Digest, now: Time)
    requires id in Run(Start(fk), steps).db.tokens
    ensures var db := Run(Start(fk), steps).db; var tok := db.tokens[id];
            && tok.familyId in db.families
            && tok.expiresAt == db.families[tok.familyId].createdAt + 30 * DAY
            && (Refresh(db, tok.verifierHash, newId, newHash, now).1.Rotated? ==>
                  now <= db.families[tok.familyId].createdAt + 30 * DAY)
  {
    EmptyInv(fk);
    RunKeepsInv(Start(fk), steps);
    var db := Run(Start(fk), steps).db;
    assert RowOk(db, id);
    RefreshOutcomeExact(db, id, newId, newHash, now);
  }

  // ---- Frozen families ----

  ghost predicate AllRevoked(tokens: map<Uuid, Token>, family: Uuid) {
    forall i {:trigger Member(tokens, family, i)} :: Member(tokens, family, i) ==> tokens[i].isRevoked
  }

  /** No token of the family can be used any more. */
  ghost predicate Frozen(t: Tables, family: Uuid) {
    family in t.families && (t.families[family].isCompromised || AllRevoked(t.tokens, family))
  }

  /** The same tokens with the same lineage; revocations only added. */
  ghost predicate SameFamily(a: Tables, b: Tables, family: Uuid) {
    && family in a.families && family in b.families
    && (a.families[family].isCompromised ==> b.families[family].isCompromised)
    && (forall i {:trigger Member(a.tokens, family, i)} {:trigger Member(b.tokens, family, i)} ::
          (Member(a.tokens, family, i) <==> Member(b.tokens, family, i)) &&
          (Member(a.tokens, family, i) ==>
             && (a.tokens[i].isRevoked ==> b.tokens[i].isRevoked)
             && b.tokens[i] == a.tokens[i].(isRevoked := b.tokens[i].isRevoked, revokedAt := b.tokens[i].revokedAt)))
  }

  lemma FrozenIsRejected(t: Tables, id: Uuid, newId: Uuid, newHash: Digest, now: Time)
    requires Inv(t) && id in t.tokens && Frozen(t, t.tokens[id].familyId)
    ensures Refresh(t, t.tokens[id].verifierHash, newId, newHash, now) == (t, InvalidOrRevoked)
  {
    assert Member(t.tokens, t.tokens[id].familyId, id);
    RefreshOutcomeExact(t, id, newId, newHash, now);
  }

  lemma OthersKeepFamily(w: World, s: Step, family: Uuid)
    requires family in w.db.families && !s.Refreshes?
    ensures SameFamily(w.db, Next(w, s).db, family)
  {}

  /** A refresh touches the presented token's family only. */
  lemma RowSparesOtherFamilies(t: Tables, id: Uuid, newId: Uuid, newHash: Digest, now: Time, family: Uuid)
    requires id in t.tokens && t.tokens[id].familyId in t.families
    requires family in t.families && family != t.tokens[id].familyId
    ensures SameFamily(t, RefreshRow(t, id, newId, newHash, now).0, family)
  {
    var t' := RefreshRow(t, id, newId, newHash, now).0;
    forall i: Uuid
      ensures Member(t.tokens, family, i) <==> Member(t'.tokens, family, i)
      ensures Member(t.tokens, family, i) ==> t'.tokens[i] == t.tokens[i]
    {}
  }

  lemma RefreshSparesFrozen(t: Tables, hash: Digest, newId: Uuid, newHash: Digest, now: Time, family: Uuid)
    requires Inv(t) && Frozen(t, family)
    ensures SameFamily(t, Refresh(t, hash, newId, newHash, now).0, family)
  {
    if id :| Presents(t, hash, id) {
      RefreshIsRow(t, id, newId, newHash, now);
      if t.tokens[id].familyId == family {
        FrozenIsRejected(t, id, newId, newHash, now);
      } else {
        RowSparesOtherFamilies(t, id, newId, newHash, now, family);
      }
    }
  }

  lemma NextKeepsFrozen(w: World, s: Step, family: Uuid)
    requires Inv(w.db) && Frozen(w.db, family)
    ensures SameFamily(w.db, Next(w, s).db, family) && Frozen(Next(w, s).db, family)
  {
    match s
    case Refreshes(hash, newId, newHash, now) => RefreshSparesFrozen(w.db, hash, newId, newHash, now, family);
    case _ => OthersKeepFamily(w, s, family);
  }

  lemma SameFamilyChains(a: Tables, b: Tables, c: Tables, family: Uuid)
    requires SameFamily(a, b, family) && SameFamily(b, c, family)
    ensures SameFamily(a, c, family)
  {
    forall i: Uuid ensures Member(a.tokens, family, i) <==> Member(b.tokens, family, i) {}
  }

  lemma {:induction false} RunKeepsFrozen(w: World, steps: seq<Step>, family: Uuid)
    requires Inv(w.db) && Frozen(w.db, family)
    ensures SameFamily(w.db, Run(w, steps).db, family) && Frozen(Run(w, steps).db, family)
    decreases |steps|
  {
    if steps != [] {
      var w1 := Next(w, steps[0]);
      NextKeepsInv(w, steps[0]);
      NextKeepsFrozen(w, steps[0], family);
      RunKeepsFrozen(w1, steps[1..], family);
      SameFamilyChains(w.db, w1.db, Run(w1, steps[1..]).db, family);
    }
  }

  // ---- Reuse detection ----

  ghost predicate AllSessionsRevoked(t: Tables, user: Uuid, device: Uuid) {
    forall i :: i in t.sessions && t.sessions[i].userId == user && t.sessions[i].deviceId == device ==>
                  t.sessions[i].revokedAt.Some?
  }

  lemma CompromiseEffect(t: Tables, family: Uuid, now: Time)
    requires family in t.families
    ensures var t' := Compromise(t, family, now); var owner := t.families[family];
            && family in t'.families && t'.families[family].isCompromised && AllRevoked(t'.tokens, family)
            && AllSessionsRevoked(t', owner.userId, owner.deviceId) && SameFamily(t, t', family)
  {}

  /** Whatever token of the family is presented, whenever, with whatever fresh material, it is refused
      and nothing changes. */
  ghost predicate NeverRotatesAgain(t: Tables, family: Uuid) {
    forall id, newId, newHash, now {:trigger Refresh(t, t.tokens[id].verifierHash, newId, newHash, now)} ::
      Member(t.tokens, family, id) ==>
        Refresh(t, t.tokens[id].verifierHash, newId, newHash, now) == (t, InvalidOrRevoked)
  }

  lemma FrozenNeverRotates(t: Tables, family: Uuid)
    requires Inv(t) && Frozen(t, family)
    ensures NeverRotatesAgain(t, family)
  {
    forall id: Uuid, newId: Uuid, newHash: Digest, now: Time | Member(t.tokens, family, id)
      ensures Refresh(t, t.tokens[id].verifierHash, newId, newHash, now) == (t, InvalidOrRevoked)
    {
      FrozenIsRejected(t, id, newId, newHash, now);
    }
  }

  /** Presenting a rotated, usable token more than ten seconds after its rotation compromises its family, revokes
      all its tokens and every session of that user and device; in every later run no step rotates a token of
      the family or adds one to it. */
  lemma ReuseKillsTheFamily(w: World, id: Uuid, newId: Uuid, newHash: Digest, now: Time, later: seq<Step>)
    requires Inv(w.db) && id in w.db.tokens && w.db.tokens[id].familyId in w.db.families
    requires Usable(w.db, id, now) && w.db.tokens[id].isRotated
    requires w.db.tokens[id].rotatedAt.Some? && now - w.db.tokens[id].rotatedAt.value > 10_000
    ensures var tok := w.db.tokens[id]; var family := w.db.families[tok.familyId];
            var w1 := Next(w, Refreshes(tok.verifierHash, newId, newHash, now));
            var w2 := Run(w1, later);
            && Refresh(w.db, tok.verifierHash, newId, newHash, now).1 == ReuseDetected(tok.familyId)
            && Frozen(w1.db, tok.familyId) && w1.db.families[tok.familyId].isCompromised
            && AllRevoked(w1.db.tokens, tok.familyId)
            && AllSessionsRevoked(w1.db, family.userId, family.deviceId)
            && SameFamily(w.db, w1.db, tok.familyId) && SameFamily(w1.db, w2.db, tok.familyId)
            && NeverRotatesAgain(w2.db, tok.familyId)
  {
    var tok := w.db.tokens[id];
    RefreshOutcomeExact(w.db, id, newId, newHash, now);
    RefreshIsRow(w.db, id, newId, newHash, now);
    var s := Refreshes(tok.verifierHash, newId, newHash, now);
    var w1 := Next(w, s);
    assert w1.db == Compromise(w.db, tok.familyId, now);
    CompromiseEffect(w.db, tok.familyId, now);
    NextKeepsInv(w, s);
    RunKeepsFrozen(w1, later, tok.familyId);
    RunKeepsInv(w1, later);
    FrozenNeverRotates(Run(w1, later).db, tok.familyId);
  }

  // ---- Revoked sessions stay revoked ----

  ghost predicate SessionDead(t: Tables, session: Uuid) {
    session in t.sessions && t.sessions[session].revokedAt.Some?
  }

  lemma NextKeepsSessionDead(w: World, s: Step, session: Uuid)
    requires SessionDead(w.db, session)
    ensures SessionDead(Next(w, s).db, session)
  {}

  lemma {:induction false} RevokedSessionStaysRevoked(w: World, steps: seq<Step>, session: Uuid, c: AccessClaims)
    requires SessionDead(w.db, session) && c.sessionId == session
    ensures SessionDead(Run(w, steps).db, session) && !GuardAccepts(Run(w, steps).db, c)
    decreases |steps|
  {
    if steps != [] {
      NextKeepsSessionDead(w, steps[0], session);
      RevokedSessionStaysRevoked(Next(w, steps[0]), steps[1..], session, c);
    }
  }

  // ---- Logout-all, three statements with anything in between ----

  lemma LogoutFamiliesFreezes(w: World, user: Uuid, now: Time, mid: seq<Step>, family: Uuid)
    requires Inv(w.db) && family in w.db.families && w.db.families[family].userId == user
    ensures var before3 := Run(Next(w, LogsOutFamilies(user, now)), mid);
            && SameFamily(w.db, before3.db, family) && Frozen(before3.db, family)
            && before3.db.families[family].isCompromised
  {
    var w2 := Next(w, LogsOutFamilies(user, now));
    NextKeepsInv(w, LogsOutFamilies(user, now));
    RunKeepsFrozen(w2, mid, family);
    SameFamilyChains(w.db, w2.db, Run(w2, mid).db, family);
  }

  lemma LogoutTokensEffect(t: Tables, user: Uuid, now: Time, family: Uuid)
    requires family in t.families && t.families[family].userId == user
    ensures SameFamily(t, LogoutTokens(t, user, now), family) && AllRevoked(LogoutTokens(t, user, now).tokens, family)
  {}

  lemma LogoutTokensFreezes(w: World, user: Uuid, now: Time, later: seq<Step>, family: Uuid)
    requires Inv(w.db) && family in w.db.families && w.db.families[family].userId == user
    ensures var end := Run(Next(w, LogsOutTokens(user, now)), later);
            SameFamily(w.db, end.db, family) && AllRevoked(end.db.tokens, family) && NeverRotatesAgain(end.db, family)
  {
    var done := Next(w, LogsOutTokens(user, now));
    var end := Run(done, later);
    NextKeepsInv(w, LogsOutTokens(user, now));
    LogoutTokensEffect(w.db, user, now, family);
    RunKeepsFrozen(done, later, family);
    RunKeepsInv(done, later);
    FrozenNeverRotates(end.db, family);
    SameFamilyChains(w.db, done.db, end.db, family);
    forall i: Uuid | Member(end.db.tokens, family, i) ensures end.db.tokens[i].isRevoked {
      assert Member(done.db.tokens, family, i);
    }
  }

  lemma NextKeepsOwner(w: World, s: Step, family: Uuid)
    requires family in w.db.families
    ensures var db := Next(w, s).db;
            && family in db.families
            && db.families[family].userId == w.db.families[family].userId
            && db.families[family].deviceId == w.db.families[family].deviceId
  {}

  /** Rows of families are never deleted and never change hands. */
  lemma {:induction false} RunKeepsOwner(w: World, steps: seq<Step>, family: Uuid)
    requires family in w.db.families
    ensures var db := Run(w, steps).db;
            && family in db.families
            && db.families[family].userId == w.db.families[family].userId
            && db.families[family].deviceId == w.db.families[family].deviceId
    decreases |steps|
  {
    if steps != [] {
      NextKeepsOwner(w, steps[0], family);
      RunKeepsOwner(Next(w, steps[0]), steps[1..], family);
    }
  }

  /** `w` is any reachable state just before the second statement, `mid` whatever runs between the second and the
      third. No family of the user that existed before the third statement ever rotates again, and all its tokens
      are revoked, the ones minted on the way included; those that existed before the second are compromised. */
  lemma LogoutAllIsFinal(w: World, user: Uuid, t2: Time, mid: seq<Step>, t3: Time, later: seq<Step>, family: Uuid)
    requires Inv(w.db)
    requires var before3 := Run(Next(w, LogsOutFamilies(user, t2)), mid);
             family in before3.db.families && before3.db.families[family].userId == user
    ensures var before3 := Run(Next(w, LogsOutFamilies(user, t2)), mid);
            var end := Run(Next(before3, LogsOutTokens(user, t3)), later);
            && AllRevoked(end.db.tokens, family) && NeverRotatesAgain(end.db, family)
            && (family in w.db.families ==>
                  SameFamily(w.db, end.db, family) && end.db.families[family].isCompromised)
  {
    var w2 := Next(w, LogsOutFamilies(user, t2));
    var before3 := Run(w2, mid);
    NextKeepsInv(w, LogsOutFamilies(user, t2));
    RunKeepsInv(w2, mid);
    LogoutTokensFreezes(before3, user, t3, later, family);
    if family in w.db.families {
      RunKeepsOwner(w2, mid, family);
      LogoutFamiliesFreezes(w, user, t2, mid, family);
      SameFamilyChains(w.db, before3.db, Run(Next(before3, LogsOutTokens(user, t3)), later).db, family);
    }
  }

  /** The three statements with nothing between them. */
  lemma LogoutAllKeepsInv(t: Tables, user: Uuid, now: Time)
    requires Inv(t)
    ensures Inv(LogoutTokens(LogoutFamilies(LogoutSessions(t, user, now), user, now), user, now))
  {
    var w := World(t, {});
    NextKeepsInv(w, LogsOutSessions(user, now));
    var w1 := Next(w, LogsOutSessions(user, now));
    NextKeepsInv(w1, LogsOutFamilies(user, now));
    NextKeepsInv(Next(w1, LogsOutFamilies(user, now)), LogsOutTokens(user, now));
  }
}
