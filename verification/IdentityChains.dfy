/** Token families are simple chains, in every reachable state and under every step. */
module IdentityChains {
  import opened Common
  import opened IdentityTables

  ghost predicate Member(tokens: map<Uuid, Token>, family: Uuid, id: Uuid) {
    id in tokens && tokens[id].familyId == family
  }

  /** The tokens at two neighbouring places of a chain name each other, and the earlier one is rotated. */
  ghost predicate Linked(tokens: map<Uuid, Token>, chain: seq<Uuid>, i: nat) {
    && i + 1 < |chain| && chain[i] in tokens && chain[i + 1] in tokens
    && tokens[chain[i]].isRotated
    && tokens[chain[i]].replacement == Some(chain[i + 1])
    && tokens[chain[i + 1]].parent == Some(chain[i])
  }

  ghost predicate Apart(chain: seq<Uuid>, i: int, j: int)
    requires 0 <= i < j < |chain|
  {
    chain[i] != chain[j]
  }

  function Last(chain: seq<Uuid>): Uuid
    requires 0 < |chain|
  {
    chain[|chain| - 1]
  }

  /** `chain` lists the tokens of a family, each once, from the first one issued to the one still unrotated;
      they are revoked all together or not at all. */
  ghost predicate IsChain(tokens: map<Uuid, Token>, family: Uuid, chain: seq<Uuid>) {
    && 0 < |chain|
    && (forall t {:trigger Member(tokens, family, t)} :: Member(tokens, family, t) <==> t in chain)
    && (forall i, j {:trigger Apart(chain, i, j)} :: 0 <= i < j < |chain| ==> Apart(chain, i, j))
    && (forall i: nat {:trigger Linked(tokens, chain, i)} :: i + 1 < |chain| ==> Linked(tokens, chain, i))
    && Member(tokens, family, chain[0]) && tokens[chain[0]].parent == None
    && Member(tokens, family, Last(chain)) && !tokens[Last(chain)].isRotated && tokens[Last(chain)].replacement == None
    && (forall t {:trigger Member(tokens, family, t)} ::
          Member(tokens, family, t) ==> tokens[t].isRevoked == tokens[Last(chain)].isRevoked)
  }

  /** What holds of a token row by itself and of its family row. */
  ghost predicate RowOk(t: Tables, i: Uuid)
    requires i in t.tokens
  {
    && t.tokens[i].familyId in t.families
    && t.tokens[i].expiresAt == t.families[t.tokens[i].familyId].createdAt + REFRESH_TTL
    && (t.tokens[i].isRotated <==> t.tokens[i].rotatedAt.Some?)
    && (t.fk.PerStatement? ==> !t.tokens[i].isRotated)
  }

  ghost predicate RowsOk(t: Tables) {
    forall i {:trigger RowOk(t, i)} :: i in t.tokens ==> RowOk(t, i)
  }

  ghost predicate SameHash(tokens: map<Uuid, Token>, i: Uuid, j: Uuid) {
    i in tokens && j in tokens && tokens[i].verifierHash == tokens[j].verifierHash
  }

  ghost predicate HashesUnique(tokens: map<Uuid, Token>) {
    forall i, j {:trigger SameHash(tokens, i, j)} :: SameHash(tokens, i, j) ==> i == j
  }

  ghost predicate ChainedBy(t: Tables, chains: map<Uuid, seq<Uuid>>) {
    && chains.Keys == t.families.Keys
    && forall f {:trigger chains[f]} :: f in chains ==> IsChain(t.tokens, f, chains[f])
  }

  ghost predicate Chained(t: Tables) {
    exists chains :: ChainedBy(t, chains)
  }

  ghost predicate Inv(t: Tables) {
    && HashesUnique(t.tokens)
    && RowsOk(t)
    && Chained(t)
  }

  lemma ChainOf(t: Tables, family: Uuid) returns (chain: seq<Uuid>)
    requires Inv(t) && family in t.families
    ensures IsChain(t.tokens, family, chain)
  {
    var chains :| ChainedBy(t, chains);
    chain := chains[family];
  }

  ghost predicate SameOwners(a: map<Uuid, Family>, b: map<Uuid, Family>) {
    && a.Keys == b.Keys
    && forall i :: i in a ==> b[i] == a[i].(isCompromised := b[i].isCompromised, updatedAt := b[i].updatedAt)
  }

  lemma RevocationKeepsChain(a: map<Uuid, Token>, b: map<Uuid, Token>, owners: set<Uuid>, now: Time,
                             family: Uuid, chain: seq<Uuid>)
    requires IsChain(a, family, chain)
    requires b == a || b == RevokeTokens(a, owners, now)
    ensures IsChain(b, family, chain)
  {
    forall t: Uuid ensures Member(b, family, t) <==> Member(a, family, t) {}
    forall i: nat | i + 1 < |chain| ensures Linked(b, chain, i) {
      assert Linked(a, chain, i);
    }
  }

  lemma RevocationKeepsChains(a: Tables, b: Tables, owners: set<Uuid>, now: Time, chains: map<Uuid, seq<Uuid>>)
    requires ChainedBy(a, chains) && a.families.Keys == b.families.Keys
    requires b.tokens == a.tokens || b.tokens == RevokeTokens(a.tokens, owners, now)
    ensures ChainedBy(b, chains)
  {
    forall f | f in chains ensures IsChain(b.tokens, f, chains[f]) {
      RevocationKeepsChain(a.tokens, b.tokens, owners, now, f, chains[f]);
    }
  }

  lemma RevocationKeepsChained(a: Tables, b: Tables, owners: set<Uuid>, now: Time)
    requires Chained(a) && a.families.Keys == b.families.Keys
    requires b.tokens == a.tokens || b.tokens == RevokeTokens(a.tokens, owners, now)
    ensures Chained(b)
  {
    var chains :| ChainedBy(a, chains);
    RevocationKeepsChains(a, b, owners, now, chains);
  }

  lemma RowsStayOk(a: Tables, b: Tables)
    requires RowsOk(a) && a.fk == b.fk && SameOwners(a.families, b.families)
    requires a.tokens.Keys == b.tokens.Keys
    requires forall i :: i in a.tokens ==>
               b.tokens[i] == a.tokens[i].(isRevoked := b.tokens[i].isRevoked, revokedAt := b.tokens[i].revokedAt)
    ensures RowsOk(b)
  {
    forall i | i in b.tokens ensures RowOk(b, i) {
      assert RowOk(a, i);
    }
  }

  /** New rows must bring new hashes. */
  lemma HashesStayUnique(a: map<Uuid, Token>, b: map<Uuid, Token>)
    requires HashesUnique(a) && a.Keys <= b.Keys
    requires forall i :: i in a ==> b[i].verifierHash == a[i].verifierHash
    requires forall i, j :: i in b && i !in a && j in b && b[i].verifierHash == b[j].verifierHash ==> i == j
    ensures HashesUnique(b)
  {
    forall i: Uuid, j: Uuid | SameHash(b, i, j) ensures i == j {
      assert i in a && j in a ==> SameHash(a, i, j);
    }
  }

  lemma RevocationKeepsRows(a: Tables, b: Tables, owners: set<Uuid>, now: Time)
    requires RowsOk(a) && HashesUnique(a.tokens)
    requires a.fk == b.fk && SameOwners(a.families, b.families)
    requires b.tokens == a.tokens || b.tokens == RevokeTokens(a.tokens, owners, now)
    ensures RowsOk(b) && HashesUnique(b.tokens)
  {
    RowsStayOk(a, b);
    HashesStayUnique(a.tokens, b.tokens);
  }

  /** Revoking whole families keeps every chain. */
  lemma RevocationKeepsInv(a: Tables, b: Tables, owners: set<Uuid>, now: Time)
    requires Inv(a)
    requires a.fk == b.fk && SameOwners(a.families, b.families)
    requires b.tokens == a.tokens || b.tokens == RevokeTokens(a.tokens, owners, now)
    ensures Inv(b)
  {
    RevocationKeepsChained(a, b, owners, now);
    RevocationKeepsRows(a, b, owners, now);
  }

  lemma OtherChainsKept(a: map<Uuid, Token>, b: map<Uuid, Token>, family: Uuid, chain: seq<Uuid>)
    requires IsChain(a, family, chain)
    requires forall t :: t in a && a[t].familyId == family ==> t in b && b[t] == a[t]
    requires forall t :: t in b && b[t].familyId == family ==> t in a && b[t] == a[t]
    ensures IsChain(b, family, chain)
  {
    forall t: Uuid ensures Member(b, family, t) <==> Member(a, family, t) {}
    forall i: nat | i + 1 < |chain| ensures Linked(b, chain, i) {
      assert Linked(a, chain, i);
      assert chain[i] in chain && chain[i + 1] in chain;
      assert Member(a, family, chain[i]) && Member(a, family, chain[i + 1]);
    }
  }

  lemma NewSessionKeepsRows(t: Tables, user: Uuid, device: Uuid, ids: SessionIds, hash: Digest, now: Time)
    requires RowsOk(t) && CanInsertSession(t, user, device, ids, hash)
    ensures RowsOk(CreateSession(t, user, device, ids, hash, now))
    ensures forall i {:trigger Member(t.tokens, ids.family, i)} :: !Member(t.tokens, ids.family, i)
  {
    var t' := CreateSession(t, user, device, ids, hash, now);
    forall i | i in t.tokens ensures RowOk(t', i) && t.tokens[i].familyId != ids.family {
      assert RowOk(t, i);
    }
  }

  lemma NewChain(t: Tables, user: Uuid, device: Uuid, ids: SessionIds, hash: Digest, now: Time)
    requires CanInsertSession(t, user, device, ids, hash)
    requires forall i {:trigger Member(t.tokens, ids.family, i)} :: !Member(t.tokens, ids.family, i)
    ensures IsChain(CreateSession(t, user, device, ids, hash, now).tokens, ids.family, [ids.token])
  {
    var b := CreateSession(t, user, device, ids, hash, now).tokens;
    forall x: Uuid ensures Member(b, ids.family, x) <==> x in [ids.token] {
      assert !Member(t.tokens, ids.family, x);
    }
  }

  lemma NewSessionKeepsChains(t: Tables, user: Uuid, device: Uuid, ids: SessionIds, hash: Digest, now: Time,
                              chains: map<Uuid, seq<Uuid>>)
    requires ChainedBy(t, chains) && CanInsertSession(t, user, device, ids, hash)
    requires forall i {:trigger Member(t.tokens, ids.family, i)} :: !Member(t.tokens, ids.family, i)
    ensures ChainedBy(CreateSession(t, user, device, ids, hash, now), chains[ids.family := [ids.token]])
  {
    var t' := CreateSession(t, user, device, ids, hash, now);
    var chains' := chains[ids.family := [ids.token]];
    forall f | f in chains' ensures IsChain(t'.tokens, f, chains'[f]) {
      if f == ids.family {
        NewChain(t, user, device, ids, hash, now);
      } else {
        OtherChainsKept(t.tokens, t'.tokens, f, chains[f]);
      }
    }
  }

  lemma CreateSessionKeepsInv(t: Tables, user: Uuid, device: Uuid, ids: SessionIds, hash: Digest, now: Time)
    requires Inv(t)
    ensures Inv(CreateSession(t, user, device, ids, hash, now))
  {
    if CanInsertSession(t, user, device, ids, hash) {
      var t' := CreateSession(t, user, device, ids, hash, now);
      NewSessionKeepsRows(t, user, device, ids, hash, now);
      var chains :| ChainedBy(t, chains);
      NewSessionKeepsChains(t, user, device, ids, hash, now, chains);
      HashesStayUnique(t.tokens, t'.tokens);
    }
  }

  lemma UnrotatedIsLast(tokens: map<Uuid, Token>, family: Uuid, chain: seq<Uuid>, id: Uuid)
    requires IsChain(tokens, family, chain) && Member(tokens, family, id)
    ensures tokens[id].isRotated <==> id != Last(chain)
  {
    var k :| 0 <= k < |chain| && chain[k] == id;
    if k + 1 < |chain| {
      assert Linked(tokens, chain, k);
    }
  }

  lemma ExtendChain(t: Tables, family: Uuid, chain: seq<Uuid>, newId: Uuid, newHash: Digest, now: Time)
    requires IsChain(t.tokens, family, chain) && newId !in t.tokens && !t.tokens[Last(chain)].isRevoked
    ensures IsChain(Rotate(t, Last(chain), newId, newHash, now).tokens, family, chain + [newId])
  {
    var chain' := chain + [newId];
    var b := Rotate(t, Last(chain), newId, newHash, now).tokens;
    forall x: Uuid ensures Member(b, family, x) <==> x in chain' {
      assert Member(t.tokens, family, x) <==> x in chain;
    }
    forall i: nat | i + 1 < |chain'| ensures Linked(b, chain', i) {
      if i + 1 < |chain| {
        assert Linked(t.tokens, chain, i);
        assert Apart(chain, i, |chain| - 1);
        assert chain[i + 1] in chain && chain[i] in chain;
      }
    }
    forall i: int, j: int | 0 <= i < j < |chain'| ensures Apart(chain', i, j) {
      assert chain[i] in chain;
      assert Member(t.tokens, family, chain[i]);
      if j < |chain| { assert Apart(chain, i, j); }
    }
    assert Last(chain') == newId && chain'[0] == chain[0];
    forall x: Uuid | Member(b, family, x) ensures b[x].isRevoked == b[newId].isRevoked {
      if x != newId { assert Member(t.tokens, family, x); }
    }
    assert chain[0] in chain;
  }

  lemma RotateKeepsChains(t: Tables, id: Uuid, newId: Uuid, newHash: Digest, now: Time, chains: map<Uuid, seq<Uuid>>)
    returns (chains': map<Uuid, seq<Uuid>>)
    requires ChainedBy(t, chains)
    requires id in t.tokens && !t.tokens[id].isRotated && !t.tokens[id].isRevoked && t.tokens[id].familyId in t.families
    requires CanRotate(t, newId, newHash)
    ensures ChainedBy(Rotate(t, id, newId, newHash, now), chains')
  {
    var t' := Rotate(t, id, newId, newHash, now);
    var family := t.tokens[id].familyId;
    assert Member(t.tokens, family, id);
    UnrotatedIsLast(t.tokens, family, chains[family], id);
    chains' := chains[family := chains[family] + [newId]];
    forall f | f in chains' ensures IsChain(t'.tokens, f, chains'[f]) {
      if f == family {
        ExtendChain(t, family, chains[f], newId, newHash, now);
      } else {
        OtherChainsKept(t.tokens, t'.tokens, f, chains[f]);
      }
    }
  }

  lemma RotateKeepsChained(t: Tables, id: Uuid, newId: Uuid, newHash: Digest, now: Time)
    requires Chained(t)
    requires id in t.tokens && !t.tokens[id].isRotated && !t.tokens[id].isRevoked && t.tokens[id].familyId in t.families
    requires CanRotate(t, newId, newHash)
    ensures Chained(Rotate(t, id, newId, newHash, now))
  {
    var chains :| ChainedBy(t, chains);
    var chains' := RotateKeepsChains(t, id, newId, newHash, now, chains);
    assert ChainedBy(Rotate(t, id, newId, newHash, now), chains');
  }

  lemma RotateKeepsHashes(t: Tables, id: Uuid, newId: Uuid, newHash: Digest, now: Time)
    requires HashesUnique(t.tokens) && id in t.tokens && CanRotate(t, newId, newHash)
    ensures HashesUnique(Rotate(t, id, newId, newHash, now).tokens)
  {
    HashesStayUnique(t.tokens, Rotate(t, id, newId, newHash, now).tokens);
  }

  lemma RotateKeepsRows(t: Tables, id: Uuid, newId: Uuid, newHash: Digest, now: Time)
    requires RowsOk(t) && id in t.tokens && CanRotate(t, newId, newHash)
    ensures RowsOk(Rotate(t, id, newId, newHash, now))
    ensures t.tokens[id].familyId in t.families
  {
    var t' := Rotate(t, id, newId, newHash, now);
    assert RowOk(t, id);
    forall i | i in t'.tokens ensures RowOk(t', i) {
      if i != newId { assert RowOk(t, i); }
    }
  }

  /** Rotation extends the one chain of the family at its unrotated end. */
  lemma RotateKeepsInv(t: Tables, id: Uuid, newId: Uuid, newHash: Digest, now: Time)
    requires Inv(t) && id in t.tokens && !t.tokens[id].isRotated && !t.tokens[id].isRevoked
    requires CanRotate(t, newId, newHash)
    ensures Inv(Rotate(t, id, newId, newHash, now))
  {
    RotateKeepsRows(t, id, newId, newHash, now);
    RotateKeepsChained(t, id, newId, newHash, now);
    RotateKeepsHashes(t, id, newId, newHash, now);
  }

  /** The verifier hash is unique, so a presented hash selects one row. */
  lemma RefreshIsRow(t: Tables, id: Uuid, newId: Uuid, newHash: Digest, now: Time)
    requires Inv(t) && id in t.tokens
    ensures t.tokens[id].familyId in t.families
    ensures Refresh(t, t.tokens[id].verifierHash, newId, newHash, now) == RefreshRow(t, id, newId, newHash, now)
  {
    assert RowOk(t, id);
    var hash := t.tokens[id].verifierHash;
    assert Presents(t, hash, id);
    forall i: Uuid | Presents(t, hash, i) ensures i == id {
      assert SameHash(t.tokens, i, id);
    }
  }

  lemma CompromiseKeepsInv(t: Tables, family: Uuid, now: Time)
    requires Inv(t) && family in t.families
    ensures Inv(Compromise(t, family, now))
  {
    var t' := Compromise(t, family, now);
    RevocationKeepsInv(t, t', {family}, now);
  }

  lemma RefreshKeepsInv(t: Tables, hash: Digest, newId: Uuid, newHash: Digest, now: Time)
    requires Inv(t)
    ensures Inv(Refresh(t, hash, newId, newHash, now).0)
  {
    if id :| Presents(t, hash, id) {
      RefreshIsRow(t, id, newId, newHash, now);
      match RefreshRow(t, id, newId, newHash, now).1
      case Rotated(_) => RotateKeepsInv(t, id, newId, newHash, now);
      case ReuseDetected(f) => CompromiseKeepsInv(t, f, now);
      case _ =>
    }
  }

  // ---- What the chains say ----

  /** The token reached after `n` replacement links. */
  ghost function Follow(tokens: map<Uuid, Token>, id: Uuid, n: nat): Option<Uuid>
    decreases n
  {
    if id !in tokens then None
    else if n == 0 then Some(id)
    else if tokens[id].replacement.None? then None
    else Follow(tokens, tokens[id].replacement.value, n - 1)
  }

  lemma {:induction false} FollowAlongChain(tokens: map<Uuid, Token>, family: Uuid, chain: seq<Uuid>, i: nat, n: nat)
    requires IsChain(tokens, family, chain) && i + n < |chain|
    ensures Follow(tokens, chain[i], n) == Some(chain[i + n])
    decreases n
  {
    assert chain[i] in chain;
    assert Member(tokens, family, chain[i]);
    if n > 0 {
      assert Linked(tokens, chain, i);
      FollowAlongChain(tokens, family, chain, i + 1, n - 1);
    }
  }

  ghost predicate LeadsTo(tokens: map<Uuid, Token>, id: Uuid, leaf: Uuid) {
    exists n: nat :: Follow(tokens, id, n) == Some(leaf)
  }

  /** Every token of a family leads, through replacements, to the family's only unrotated token. */
  lemma ReplacementsEndAtTheLeaf(t: Tables, family: Uuid) returns (leaf: Uuid)
    requires Inv(t) && family in t.families
    ensures Member(t.tokens, family, leaf) && t.tokens[leaf].replacement == None
    ensures forall i {:trigger LeadsTo(t.tokens, i, leaf)} :: Member(t.tokens, family, i) ==>
              (!t.tokens[i].isRotated <==> i == leaf) && LeadsTo(t.tokens, i, leaf)
  {
    var chain := ChainOf(t, family);
    leaf := Last(chain);
    forall i: Uuid | Member(t.tokens, family, i)
      ensures (!t.tokens[i].isRotated <==> i == leaf) && LeadsTo(t.tokens, i, leaf)
    {
      UnrotatedIsLast(t.tokens, family, chain, i);
      var k :| 0 <= k < |chain| && chain[k] == i;
      FollowAlongChain(t.tokens, family, chain, k, |chain| - 1 - k);
    }
  }

  lemma Neighbours(t: Tables, i: Uuid)
    requires Inv(t) && i in t.tokens
    ensures match t.tokens[i].replacement
            case None => !t.tokens[i].isRotated
            case Some(r) =>
              t.tokens[i].isRotated && Member(t.tokens, t.tokens[i].familyId, r) && t.tokens[r].parent == Some(i)
    ensures match t.tokens[i].parent
            case None => true
            case Some(p) => Member(t.tokens, t.tokens[i].familyId, p) && t.tokens[p].replacement == Some(i)
  {
    assert RowOk(t, i);
    var family := t.tokens[i].familyId;
    var chain := ChainOf(t, family);
    assert Member(t.tokens, family, i);
    var k :| 0 <= k < |chain| && chain[k] == i;
    if k + 1 < |chain| {
      assert Linked(t.tokens, chain, k);
      assert chain[k + 1] in chain;
      assert Member(t.tokens, family, chain[k + 1]);
    }
    if 0 < k {
      assert Linked(t.tokens, chain, k - 1);
      assert chain[k - 1] in chain;
      assert Member(t.tokens, family, chain[k - 1]);
    }
  }

  /** Parent and replacement links undo each other, and never leave the family. */
  lemma LinksAreInverse(t: Tables, i: Uuid, j: Uuid)
    requires Inv(t) && i in t.tokens && j in t.tokens
    ensures t.tokens[i].replacement == Some(j) <==> t.tokens[j].parent == Some(i)
    ensures t.tokens[i].replacement == Some(j) ==> t.tokens[i].familyId == t.tokens[j].familyId
  {
    Neighbours(t, i);
    Neighbours(t, j);
  }

  lemma RevokedTogether(t: Tables, i: Uuid, j: Uuid)
    requires Inv(t) && i in t.tokens && Member(t.tokens, t.tokens[i].familyId, j)
    ensures t.tokens[i].isRevoked == t.tokens[j].isRevoked
  {
    assert RowOk(t, i);
    var chain := ChainOf(t, t.tokens[i].familyId);
    assert Member(t.tokens, t.tokens[i].familyId, i);
  }

  /** On reachable tables the outcome of a refresh is decided by the presented row alone:
      an in-grace replay always finds its replacement alive, compromises nothing and changes no row. */
  lemma RefreshOutcomeExact(t: Tables, id: Uuid, newId: Uuid, newHash: Digest, now: Time)
    requires Inv(t) && id in t.tokens
    ensures t.tokens[id].familyId in t.families && (t.tokens[id].isRotated <==> t.tokens[id].rotatedAt.Some?)
    ensures var tok := t.tokens[id];
            var (t', outcome) := Refresh(t, tok.verifierHash, newId, newHash, now);
            && (outcome == InvalidOrRevoked <==> !Usable(t, id, now))
            && (outcome == GraceReplay(tok.familyId) <==>
                  Usable(t, id, now) && tok.isRotated && now - tok.rotatedAt.value <= 10_000)
            && (outcome == ReuseDetected(tok.familyId) <==>
                  Usable(t, id, now) && tok.isRotated && now - tok.rotatedAt.value > 10_000)
            && (outcome == Rotated(tok.familyId) <==>
                  Usable(t, id, now) && !tok.isRotated && CanRotate(t, newId, newHash))
            && (outcome == ConstraintViolation <==>
                  Usable(t, id, now) && !tok.isRotated && !CanRotate(t, newId, newHash))
            && (t' != t ==> outcome.Rotated? || outcome.ReuseDetected?)
  {
    assert RowOk(t, id);
    RefreshIsRow(t, id, newId, newHash, now);
    Neighbours(t, id);
    if t.tokens[id].isRotated {
      RevokedTogether(t, id, t.tokens[id].replacement.value);
    }
  }
}
