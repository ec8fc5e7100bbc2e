/** The envelope service and the retry worker over their tables, statement by statement. Where a query leaves the
    order or the choice of rows to the database, its answer is a parameter constrained by what the query asks. */
module TransportService {
  import opened Common
  import opened TransportTables
  import opened TransportRuns
  import opened TransportSafety

  datatype Receipt =
    | Stored(envelopeId: Uuid, deviceCount: nat)
    | Cached(envelopeId: Uuid, envelope: Envelope)

  function AcceptedAt(envelopes: map<Uuid, Envelope>, e: Uuid): Time {
    if e in envelopes then envelopes[e].acceptedAt else 0
  }

  ghost predicate InOrder(envelopes: map<Uuid, Envelope>, ids: seq<Uuid>) {
    forall i, j :: 0 <= i < j < |ids| ==> AcceptedAt(envelopes, ids[i]) <= AcceptedAt(envelopes, ids[j])
  }

  predicate IsOldest(envelopes: map<Uuid, Envelope>, ids: set<Uuid>, e: Uuid) {
    e in ids && forall x: Uuid :: x in ids ==> AcceptedAt(envelopes, e) <= AcceptedAt(envelopes, x)
  }

  lemma {:induction false} OldestExists(envelopes: map<Uuid, Envelope>, ids: set<Uuid>) returns (e: Uuid)
    requires ids != {}
    ensures IsOldest(envelopes, ids, e)
  {
    var x :| x in ids;
    e := x;
    if ids != {x} {
      var y := OldestExists(envelopes, ids - {x});
      e := if AcceptedAt(envelopes, x) <= AcceptedAt(envelopes, y) then x else y;
      forall z | z in ids ensures AcceptedAt(envelopes, e) <= AcceptedAt(envelopes, z) {
        assert z == x || z in ids - {x};
      }
    }
  }

  /** ORDER BY server_accepted_at ASC. */
  method OldestFirst(envelopes: map<Uuid, Envelope>, ids: set<Uuid>) returns (rows: seq<Uuid>)
    ensures Lists(rows, ids) && InOrder(envelopes, rows)
  {
    rows := [];
    var left := ids;
    while left != {}
      invariant left <= ids && Lists(rows, ids - left) && InOrder(envelopes, rows)
      invariant forall i, e :: 0 <= i < |rows| && e in left ==>
                  AcceptedAt(envelopes, rows[i]) <= AcceptedAt(envelopes, e)
      decreases left
    {
      ghost var oldest := OldestExists(envelopes, left);
      var e :| e in left && IsOldest(envelopes, left, e);
      assert e !in rows;
      assert IsOldest(envelopes, left, e);
      rows := rows + [e];
      left := left - {e};
    }
    assert ids - left == ids;
  }

  /** Undelivered, unexpired, and attempted fewer than five times. */
  predicate IsDue(r: Record, envelopes: map<Uuid, Envelope>, now: Time) {
    && r.status in {Accepted, Queued, Routed} && r.attempts < 5
    && r.envelopeId in envelopes && now < envelopes[r.envelopeId].sent.expiresAt
  }

  function Attempted(records: map<Uuid, Record>, rows: seq<Uuid>, now: Time, i: Uuid): Record
    requires i in records
  {
    if i !in rows then records[i]
    else records[i].(status := Queued, attempts := records[i].attempts + 1, lastAttemptedAt := Some(now))
  }

  lemma {:induction false} WriteAllExact(t: Tables, rows: seq<Uuid>, now: Time, i: Uuid)
    requires NoDup(rows) && i in t.records
    ensures i in WriteAll(t, rows, now).records
    ensures WriteAll(t, rows, now).records[i] == Attempted(t.records, rows, now, i)
    decreases |rows|
  {
    if rows != [] {
      assert rows == [rows[0]] + rows[1..];
      assert NoDup(rows[1..]);
      WriteAllExact(WriteAttempt(t, rows[0], now), rows[1..], now, i);
    }
  }

  lemma SameTargetsKept(a: map<Uuid, Record>, b: map<Uuid, Record>)
    requires TargetsUnique(a) && b.Keys <= a.Keys
    requires forall i :: i in b ==> b[i].envelopeId == a[i].envelopeId && b[i].deviceId == a[i].deviceId
    ensures TargetsUnique(b)
  {
    forall j: Uuid, k: Uuid | SameTarget(b, j, k) ensures j == k {
      assert SameTarget(a, j, k);
    }
  }

  lemma AllAttempted(t: Tables, rows: seq<Uuid>, now: Time)
    requires NoDup(rows)
    ensures WriteAll(t, rows, now).records == map i | i in t.records :: Attempted(t.records, rows, now, i)
  {
    WriteAllGrows(t, rows, now);
    forall i: Uuid | i in t.records ensures WriteAll(t, rows, now).records[i] == Attempted(t.records, rows, now, i) {
      WriteAllExact(t, rows, now, i);
    }
  }

  /** A selection holds due rows only, at most fifty, and all there are when it holds fewer. */
  lemma BatchIsDue(t: Tables, rows: seq<Uuid>, now: Time)
    requires IsBatch(t, rows, now)
    ensures |rows| <= 50 && forall i :: i in rows ==> i in t.records && IsDue(t.records[i], t.envelopes, now)
    ensures |rows| < 50 ==> forall i :: i in t.records && IsDue(t.records[i], t.envelopes, now) ==> i in rows
  {
    forall i: Uuid | i in t.records && IsDue(t.records[i], t.envelopes, now) ensures |rows| < 50 ==> i in rows {
      assert Selectable(t, i, now);
    }
  }

  /** When a series of record inserts violates nothing. */
  ghost predicate Insertable(records: map<Uuid, Record>, envelope: Uuid, devices: seq<Uuid>, ids: seq<Uuid>)
    requires |devices| == |ids|
  {
    && NoDup(devices) && NoDup(ids)
    && forall k :: 0 <= k < |ids| ==> ids[k] !in records && !HasRecord(records, envelope, devices[k])
  }

  lemma InsertableStep(records: map<Uuid, Record>, r1: map<Uuid, Record>, envelope: Uuid, devices: seq<Uuid>,
                       ids: seq<Uuid>)
    requires |devices| == |ids| && devices != [] && r1 == records[ids[0] := NewRecord(envelope, devices[0])]
    ensures Insertable(records, envelope, devices, ids) <==>
              && ids[0] !in records && !HasRecord(records, envelope, devices[0])
              && Insertable(r1, envelope, devices[1..], ids[1..])
  {
    assert IsRecord(r1, ids[0], envelope, devices[0]);
    forall k | 0 < k < |ids| ensures ids[k] == ids[1..][k - 1] && devices[k] == devices[1..][k - 1] {}
    if ids[0] !in records {
      forall d: Uuid ensures HasRecord(r1, envelope, d) <==> d == devices[0] || HasRecord(records, envelope, d) {
        if i :| IsRecord(records, i, envelope, d) {
          assert IsRecord(r1, i, envelope, d);
        }
        if i :| IsRecord(r1, i, envelope, d) {
          assert i != ids[0] ==> IsRecord(records, i, envelope, d);
        }
      }
    }
  }

  lemma {:induction false} InsertableIff(records: map<Uuid, Record>, envelope: Uuid, devices: seq<Uuid>, ids: seq<Uuid>)
    requires |devices| == |ids|
    ensures InsertRecords(records, envelope, devices, ids).Some? <==> Insertable(records, envelope, devices, ids)
    decreases |devices|
  {
    if devices != [] {
      var r1 := records[ids[0] := NewRecord(envelope, devices[0])];
      InsertableIff(r1, envelope, devices[1..], ids[1..]);
      InsertableStep(records, r1, envelope, devices, ids);
    }
  }

  predicate IsTarget(r: Record, envelope: Uuid, device: Uuid) {
    r.envelopeId == envelope && r.deviceId == device
  }

  predicate IsKeyRow(keys: map<Uuid, KeyRow>, i: Uuid, device: Uuid, key: Uuid)
    requires i in keys
  {
    keys[i].senderDevice == device && keys[i].key == key
  }

  lemma LookUpIsRow(sha: Sha, t: Tables, i: Uuid, digest: Digest)
    requires KeysInv(sha, t) && i in t.keys
    ensures LookUp(t, t.keys[i].senderDevice, t.keys[i].key, digest)
            == if t.keys[i].digest == digest then Retry(t.keys[i].envelopeId) else Mismatch
  {
    var device, key := t.keys[i].senderDevice, t.keys[i].key;
    assert IsKey(t, i, device, key);
    forall j: Uuid | IsKey(t, j, device, key) ensures j == i {
      assert SamePair(t, i, j);
    }
  }

  /** Expiry only touches rows that are no longer listed. */
  lemma ExpiryHidesNothing(t: Tables, user: Uuid, device: Uuid, envelope: Uuid, now: Time)
    ensures ListedPending(ExpireDue(t, now), user, device, envelope, now)
            <==> ListedPending(t, user, device, envelope, now)
  {
    var t' := ExpireDue(t, now);
    if ListedPending(t, user, device, envelope, now) {
      var i :| IsRecord(t.records, i, envelope, device) && Pending(t.records[i].status);
      assert IsRecord(t'.records, i, envelope, device) && Pending(t'.records[i].status);
    }
    if ListedPending(t', user, device, envelope, now) {
      var i :| IsRecord(t'.records, i, envelope, device) && Pending(t'.records[i].status);
      assert IsRecord(t.records, i, envelope, device) && Pending(t.records[i].status);
    }
  }

  class Store {
    const sha: Sha
    var users: set<Uuid>
    var devices: map<Uuid, Device>
    var members: set<(Uuid, Uuid)>
    var envelopes: map<Uuid, Envelope>
    var keys: map<Uuid, KeyRow>
    var records: map<Uuid, Record>
    var acks: map<Uuid, Ack>

    ghost function Db(): Tables
      reads this
    {
      Tables(users, devices, members, envelopes, keys, records, acks)
    }

    /** The unique constraints, and every key row's envelope. */
    ghost predicate Valid()
      reads this
    {
      KeysInv(sha, Db()) && TargetsUnique(records)
    }

    /** The sending device exists, is the sender's and is not revoked. */
    ghost predicate OwnsDevice(s: Submission)
      reads this
    {
      && s.senderDevice in devices && devices[s.senderDevice].userId == s.senderUser
      && !devices[s.senderDevice].isRevoked
    }

    /** What submitEnvelope answers when nothing runs between its statements. */
    ghost function Answer(t: Tables, s: Submission, rows: seq<Uuid>, ids: CommitIds, now: Time)
      : (Tables, Result<Receipt, SubmitError>)
      requires KeysInv(sha, t) && |rows| == |ids.records|
    {
      if Authorize(t, s).Some? then (t, Err(Authorize(t, s).value))
      else
        match LookUp(t, s.senderDevice, s.key, sha(s.payload))
        case Mismatch => (t, Err(DigestMismatch))
        case Retry(e) => if e in t.envelopes then (t, Ok(Cached(e, t.envelopes[e]))) else (t, Err(DatabaseError))
        case Miss =>
          match Commit(t, s, sha(s.payload), rows, ids, now)
          case None => (t, Err(DatabaseError))
          case Some(t') => (t', Ok(Stored(ids.envelope, |rows|)))
    }

    /** A retry is recognised by device, key and digest, and is always answered with the envelope it stored. */
    method SubmitEnvelope(s: Submission, rows: seq<Uuid>, ids: CommitIds, now: Time)
      returns (r: Result<Receipt, SubmitError>)
      requires Valid() && Lists(rows, ActiveDevices(Db(), s.recipientUser)) && |rows| == |ids.records|
      modifies this`envelopes, this`keys, this`records
      ensures Valid() && (Db(), r) == Answer(old(Db()), s, rows, ids, now)
      ensures r == Err(SenderDeviceInvalid) <==> !OwnsDevice(s)
      ensures r == Err(NotAMember) <==> OwnsDevice(s) && (s.conversation, s.senderUser) !in members
      ensures r == Err(PayloadTooLarge) <==>
                OwnsDevice(s) && (s.conversation, s.senderUser) in members && |s.payload| > 65536
      ensures r.Ok? || r.error in {DigestMismatch, DatabaseError} ==>
                OwnsDevice(s) && (s.conversation, s.senderUser) in members && |s.payload| <= 65536
      ensures r == Err(DigestMismatch) ==>
                exists i :: i in keys && keys[i].senderDevice == s.senderDevice && keys[i].key == s.key
                            && keys[i].digest != sha(s.payload)
      ensures r.Ok? && r.value.Stored? ==>
                && (forall d :: d in devices && devices[d].userId == s.recipientUser && !devices[d].isRevoked ==>
                      HasRecord(records, ids.envelope, d))
                && (forall i :: i in records && i !in old(records) ==>
                      var r := records[i];
                      && r == Record(ids.envelope, r.deviceId, Accepted, 0, None, None) && r.deviceId in devices
                      && devices[r.deviceId].userId == s.recipientUser && !devices[r.deviceId].isRevoked)
      ensures r.Ok? && r.value.Stored? ==>
                forall i :: i in old(keys) ==> old(keys)[i].senderDevice != s.senderDevice || old(keys)[i].key != s.key
      ensures !(r.Ok? && r.value.Stored?) ==> Db() == old(Db())
      ensures r.Ok? && r.value.Cached? ==>
                && r.value.envelopeId in old(envelopes) && r.value.envelope == old(envelopes)[r.value.envelopeId]
                && r.value.envelope.sent.senderDevice == s.senderDevice && r.value.envelope.sent.key == s.key
                && sha(r.value.envelope.sent.payload) == sha(s.payload)
      ensures r.Ok? && r.value.Stored? ==>
                forall d :: d in ActiveDevices(old(Db()), s.recipientUser) ==> HasRecord(records, ids.envelope, d)
    {
      if s.senderDevice !in devices || devices[s.senderDevice].userId != s.senderUser
         || devices[s.senderDevice].isRevoked {
        return Err(SenderDeviceInvalid);
      }
      if (s.conversation, s.senderUser) !in members {
        return Err(NotAMember);
      }
      if |s.payload| > MAX_PAYLOAD {
        return Err(PayloadTooLarge);
      }
      var digest := sha(s.payload);
      if i :| i in keys && keys[i].senderDevice == s.senderDevice && keys[i].key == s.key {
        LookUpIsRow(sha, Db(), i, digest);
        assert KeyOk(sha, Db(), i);
        if keys[i].digest != digest {
          return Err(DigestMismatch);
        }
        return Ok(Cached(keys[i].envelopeId, envelopes[keys[i].envelopeId]));
      }
      assert !KeyTaken(Db(), s.senderDevice, s.key);
      r := InsertEnvelope(s, digest, rows, ids, now);
    }

    /** The transaction. A violated constraint rolls back every row inserted so far. */
    method InsertEnvelope(s: Submission, digest: Digest, rows: seq<Uuid>, ids: CommitIds, now: Time)
      returns (r: Result<Receipt, SubmitError>)
      requires Valid() && digest == sha(s.payload) && |rows| == |ids.records|
      modifies this`envelopes, this`keys, this`records
      ensures Valid()
      ensures match Commit(old(Db()), s, digest, rows, ids, now)
              case None => Db() == old(Db()) && r == Err(DatabaseError)
              case Some(t) => Db() == t && r == Ok(Stored(ids.envelope, |rows|))
      ensures r.Ok? ==> forall d :: d in rows ==> HasRecord(records, ids.envelope, d)
      ensures r.Ok? <==>
                && ids.envelope !in old(envelopes) && s.recipientUser in users && ids.key !in old(keys)
                && (forall i :: i in old(keys) ==>
                      old(keys)[i].senderDevice != s.senderDevice || old(keys)[i].key != s.key)
                && Insertable(old(records), ids.envelope, rows, ids.records)
      ensures r.Ok? ==>
                && envelopes == old(envelopes)[ids.envelope := Envelope(s, now)]
                && keys == old(keys)[ids.key := KeyRow(s.senderDevice, s.key, ids.envelope, sha(s.payload))]
                && (forall i :: i in old(records) ==> i in records && records[i] == old(records)[i])
                && (forall i :: i in records && i !in old(records) ==>
                      && records[i].deviceId in rows
                      && records[i] == Record(ids.envelope, records[i].deviceId, Accepted, 0, None, None))
    {
      var envelopes0, keys0, records0 := envelopes, keys, records;
      if ids.envelope in envelopes || s.recipientUser !in users {
        return Err(DatabaseError);
      }
      envelopes := envelopes[ids.envelope := Envelope(s, now)];
      if ids.key in keys || exists i :: i in keys && IsKeyRow(keys, i, s.senderDevice, s.key) {
        if ids.key !in keys {
          ghost var i :| i in keys && IsKeyRow(keys, i, s.senderDevice, s.key);
          assert IsKey(old(Db()), i, s.senderDevice, s.key);
        }
        envelopes := envelopes0;
        return Err(DatabaseError);
      }
      assert !KeyTaken(old(Db()), s.senderDevice, s.key);
      keys := keys[ids.key := KeyRow(s.senderDevice, s.key, ids.envelope, digest)];
      for n := 0 to |rows|
        invariant InsertRecords(records0, ids.envelope, rows, ids.records)
                  == InsertRecords(records, ids.envelope, rows[n..], ids.records[n..])
        invariant envelopes == envelopes0[ids.envelope := Envelope(s, now)]
        invariant keys == keys0[ids.key := KeyRow(s.senderDevice, s.key, ids.envelope, digest)]
      {
        if ids.records[n] in records || exists i :: i in records && IsRecord(records, i, ids.envelope, rows[n]) {
          assert ids.records[n] in records || HasRecord(records, ids.envelope, rows[n]);
          envelopes, keys, records := envelopes0, keys0, records0;
          InsertableIff(records0, ids.envelope, rows, ids.records);
          return Err(DatabaseError);
        }
        assert !HasRecord(records, ids.envelope, rows[n]);
        records := records[ids.records[n] := NewRecord(ids.envelope, rows[n])];
        assert rows[n..][1..] == rows[n + 1..] && ids.records[n..][1..] == ids.records[n + 1..];
      }
      InsertableIff(records0, ids.envelope, rows, ids.records);
      CommitKeepsKeys(sha, old(Db()), s, rows, ids, now);
      InsertRecordsUnique(records0, ids.envelope, rows, ids.records);
      InsertRecordsKeeps(records0, ids.envelope, rows, ids.records);
      r := Ok(Stored(ids.envelope, |rows|));
    }

    /** Read-only. The envelopes a device is still owed, each once, the first accepted first; ties are left to the
        database. */
    method GetPendingEnvelopes(user: Uuid, device: Uuid, now: Time) returns (pending: seq<Uuid>)
      requires Valid()
      ensures forall e :: e in pending <==> ListedPending(Db(), user, device, e, now)
      ensures forall e :: e in pending <==>
                && e in envelopes && envelopes[e].sent.recipientUser == user && now < envelopes[e].sent.expiresAt
                && exists i :: i in records && records[i].envelopeId == e && records[i].deviceId == device
                               && records[i].status in {Accepted, Queued, Routed}
      ensures NoDup(pending)
      ensures forall i, j :: 0 <= i < j < |pending| && pending[i] in envelopes && pending[j] in envelopes ==>
                envelopes[pending[i]].acceptedAt <= envelopes[pending[j]].acceptedAt
    {
      var owed := set i | i in records && records[i].deviceId == device && Pending(records[i].status)
                          && records[i].envelopeId in envelopes
                          && envelopes[records[i].envelopeId].sent.recipientUser == user
                          && now < envelopes[records[i].envelopeId].sent.expiresAt :: records[i].envelopeId;
      forall e: Uuid | ListedPending(Db(), user, device, e, now) ensures e in owed {
        var i :| IsRecord(records, i, e, device) && Pending(records[i].status);
        assert records[i].envelopeId == e;
      }
      forall e: Uuid | e in owed ensures ListedPending(Db(), user, device, e, now) {
        var i :| i in records && records[i].deviceId == device && Pending(records[i].status)
                 && records[i].envelopeId == e;
        assert IsRecord(records, i, e, device);
      }
      pending := OldestFirst(envelopes, owed);
    }

    method AcknowledgeDelivery(user: Uuid, device: Uuid, envelope: Uuid, ackId: Uuid, now: Time) returns (ok: bool)
      requires Valid()
      modifies this`records, this`acks
      ensures Valid()
      ensures match Acknowledge(old(Db()), user, device, envelope, ackId, now)
              case None => !ok && Db() == old(Db())
              case Some(t) => ok && Db() == t
      ensures ok ==> HasAck(Db(), envelope, device) && !ListedPending(Db(), user, device, envelope, now)
      ensures ok <==>
                && envelope in envelopes && envelopes[envelope].sent.recipientUser == user && ackId !in old(acks)
                && exists i :: i in old(records) && IsTarget(old(records)[i], envelope, device)
      ensures ok ==>
                && acks == old(acks)[ackId := Ack(envelope, device)]
                && records == map i | i in old(records) ::
                     if old(records)[i].envelopeId == envelope && old(records)[i].deviceId == device
                     then old(records)[i].(status := Delivered, deliveredAt := Some(now)) else old(records)[i]
    {
      ghost var before := Db();
      if i :| i in records && records[i].envelopeId == envelope && records[i].deviceId == device {
        forall k: Uuid | IsRecord(records, k, envelope, device) ensures k == i {
          assert SameTarget(records, i, k);
        }
        if envelope !in envelopes || envelopes[envelope].sent.recipientUser != user {
          return false;
        }
        assert MayAcknowledge(before, user, device, envelope, i);
        var records0 := records;
        records := records[i := records[i].(status := Delivered, deliveredAt := Some(now))];
        if ackId in acks {
          records := records0;
          return false;
        }
        acks := acks[ackId := Ack(envelope, device)];
        SameKeysKept(sha, before, Db());
        SameTargetsKept(records0, records);
        forall k | k in records0 ensures IsTarget(records0[k], envelope, device) ==> k == i {
          assert IsTarget(records0[k], envelope, device) ==> SameTarget(records0, i, k);
        }
        assert ackId in acks && acks[ackId] == Ack(envelope, device);
        forall k: Uuid | IsRecord(records, k, envelope, device) ensures !Pending(records[k].status) {
          assert SameTarget(records, i, k);
        }
        ok := true;
      } else {
        ok := false;
      }
    }

    /** One pass of the retry worker over the rows its query returned, with nothing in between. */
    method ProcessOfflineMessageRetries(rows: seq<Uuid>, now: Time)
      requires Valid() && IsBatch(Db(), rows, now)
      modifies this`records
      ensures Valid() && Db() == WriteAll(old(Db()), rows, now)
      ensures records == map i | i in old(records) ::
                if i in rows
                then old(records)[i].(status := Queued, attempts := old(records)[i].attempts + 1,
                                      lastAttemptedAt := Some(now))
                else old(records)[i]
    {
      ghost var before := Db();
      for n := 0 to |rows|
        invariant WriteAll(before, rows, now) == WriteAll(Db(), rows[n..], now)
        invariant records.Keys == before.records.Keys
      {
        var i := rows[n];
        assert i in rows;
        assert Selectable(before, i, now);
        records := records[i := records[i].(status := Queued, attempts := records[i].attempts + 1,
                                            lastAttemptedAt := Some(now))];
        assert rows[n..][1..] == rows[n + 1..];
      }
      WriteAllGrows(before, rows, now);
      SameKeysKept(sha, before, Db());
      AllAttempted(before, rows, now);
      SameTargetsKept(before.records, records);
    }

    method ProcessExpiredEnvelopeCleanup(now: Time)
      requires Valid()
      modifies this`records
      ensures Valid() && Db() == ExpireDue(old(Db()), now)
      ensures forall user, device, e ::
                ListedPending(Db(), user, device, e, now) <==> old(ListedPending(Db(), user, device, e, now))
      ensures forall i :: i in records && Pending(records[i].status) && records[i].envelopeId in envelopes ==>
                now < envelopes[records[i].envelopeId].sent.expiresAt
      ensures records == map i | i in old(records) ::
                if && old(records)[i].status in {Accepted, Queued, Routed} && old(records)[i].envelopeId in envelopes
                   && envelopes[old(records)[i].envelopeId].sent.expiresAt <= now
                then old(records)[i].(status := Expired) else old(records)[i]
    {
      ghost var before := Db();
      records := map i | i in records ::
        if records[i].envelopeId in envelopes && envelopes[records[i].envelopeId].sent.expiresAt <= now
           && Pending(records[i].status)
        then records[i].(status := Expired) else records[i];
      assert Db() == ExpireDue(before, now);
      SameKeysKept(sha, before, Db());
      SameTargetsKept(before.records, records);
      forall user: Uuid, device: Uuid, e: Uuid
        ensures ListedPending(Db(), user, device, e, now) <==> ListedPending(before, user, device, e, now)
      {
        ExpiryHidesNothing(before, user, device, e, now);
      }
    }
  }
}
