/** What a rotation leaves behind: how the old token and its successor answer later, whatever ran in between. */
module IdentityHistory {
  import opened Common
  import opened IdentityTables
  import opened IdentityChains
  import opened IdentityRuns

  /** Token rows are never deleted, and once rotated they are only ever revoked. */
  ghost predicate Remembers(a: Tables, b: Tables, i: Uuid)
    requires i in a.tokens
  {
    && i in b.tokens
    && b.tokens[i].familyId == a.tokens[i].familyId && b.tokens[i].verifierHash == a.tokens[i].verifierHash
    && b.tokens[i].parent == a.tokens[i].parent && b.tokens[i].expiresAt == a.tokens[i].expiresAt
    && (a.tokens[i].isRevoked ==> b.tokens[i].isRevoked)
    && (a.tokens[i].isRotated ==>
          && b.tokens[i].isRotated && b.tokens[i].rotatedAt == a.tokens[i].rotatedAt
          && b.tokens[i].replacement == a.tokens[i].replacement)
  }

  lemma CompromiseRemembers(t: Tables, family: Uuid, now: Time, i: Uuid)
    requires family in t.families && i in t.tokens
    ensures Remembers(t, Compromise(t, family, now), i)
  {}

  lemma RefreshRemembers(t: Tables, hash: Digest, newId: Uuid, newHash: Digest, now: Time, i: Uuid)
    requires Inv(t) && i in t.tokens
    ensures Remembers(t, Refresh(t, hash, newId, newHash, now).0, i)
  {
    if id :| Presents(t, hash, id) {
      RefreshIsRow(t, id, newId, newHash, now);
      match RefreshRow(t, id, newId, newHash, now).1
      case ReuseDetected(f) => CompromiseRemembers(t, f, now, i);
      case _ =>
    }
  }

  lemma NextRemembers(w: World, s: Step, i: Uuid)
    requires Inv(w.db) && i in w.db.tokens
    ensures Remembers(w.db, Next(w, s).db, i)
  {
    match s
    case Refreshes(hash, newId, newHash, now) => RefreshRemembers(w.db, hash, newId, newHash, now, i);
    case _ =>
  }

  lemma {:induction false} RunRemembers(w: World, steps: seq<Step>, i: Uuid)
    requires Inv(w.db) && i in w.db.tokens
    ensures Remembers(w.db, Run(w, steps).db, i)
    decreases |steps|
  {
    if steps != [] {
      NextKeepsInv(w, steps[0]);
      NextRemembers(w, steps[0], i);
      RunRemembers(Next(w, steps[0]), steps[1..], i);
    }
  }

  /** After a rotation at `at`, whatever runs in between: the old token, as long as it is usable, replays if it is
      presented by `at` + 10 s and is taken as reuse from then on; its row still names the successor, which is the
      token that was handed out, descends from the old one and expires with it. */
  lemma ReplayAfterRotation(w: World, id: Uuid, newId: Uuid, newHash: Digest, at: Time, between: seq<Step>,
                            otherId: Uuid, otherHash: Digest, now: Time)
    requires Inv(w.db) && id in w.db.tokens
    requires Refresh(w.db, w.db.tokens[id].verifierHash, newId, newHash, at).1.Rotated?
    ensures var hash := w.db.tokens[id].verifierHash; var family := w.db.tokens[id].familyId;
            var db := Run(Next(w, Refreshes(hash, newId, newHash, at)), between).db;
            && id in db.tokens && newId in db.tokens && family in db.families
            && db.tokens[id].familyId == db.tokens[newId].familyId == family
            && db.tokens[id].replacement == Some(newId) && db.tokens[newId].parent == Some(id)
            && db.tokens[newId].verifierHash == newHash && db.tokens[newId].expiresAt == w.db.tokens[id].expiresAt
            && Refresh(db, hash, otherId, otherHash, now).1
               == (if !Usable(db, id, now) then InvalidOrRevoked
                   else if now <= at + 10 * SECOND then GraceReplay(family) else ReuseDetected(family))
  {
    var hash := w.db.tokens[id].verifierHash;
    var s := Refreshes(hash, newId, newHash, at);
    var w1 := Next(w, s);
    RefreshIsRow(w.db, id, newId, newHash, at);
    assert w1.db == Rotate(w.db, id, newId, newHash, at);
    NextKeepsInv(w, s);
    RunKeepsInv(w1, between);
    RunRemembers(w1, between, id);
    RunRemembers(w1, between, newId);
    var db := Run(w1, between).db;
    assert db.tokens[id].rotatedAt == Some(at);
    RefreshOutcomeExact(db, id, otherId, otherHash, now);
  }

  /** After any later run, the token handed out rotates exactly as long as its family is sound, it has not been
      rotated already, and the family's thirty days are not over. */
  lemma SuccessorRotates(w: World, id: Uuid, newId: Uuid, newHash: Digest, at: Time, between: seq<Step>,
                         nextId: Uuid, nextHash: Digest, now: Time)
    requires Inv(w.db) && id in w.db.tokens && w.db.tokens[id].familyId in w.db.families
    requires Refresh(w.db, w.db.tokens[id].verifierHash, newId, newHash, at).1.Rotated?
    ensures var hash := w.db.tokens[id].verifierHash; var family := w.db.tokens[id].familyId;
            var db := Run(Next(w, Refreshes(hash, newId, newHash, at)), between).db;
            && newId in db.tokens && family in db.families
            && (CanRotate(db, nextId, nextHash) ==>
                  (Refresh(db, newHash, nextId, nextHash, now).1 == Rotated(family) <==>
                     && !db.families[family].isCompromised && !db.tokens[newId].isRevoked && !db.tokens[newId].isRotated
                     && now <= db.families[family].createdAt + 30 * DAY))
  {
    var hash := w.db.tokens[id].verifierHash;
    var s := Refreshes(hash, newId, newHash, at);
    var w1 := Next(w, s);
    var db := Run(w1, between).db;
    ReplayAfterRotation(w, id, newId, newHash, at, between, nextId, nextHash, now);
    NextKeepsInv(w, s);
    RunKeepsInv(w1, between);
    assert RowOk(db, newId);
    RefreshOutcomeExact(db, newId, nextId, nextHash, now);
  }
}
