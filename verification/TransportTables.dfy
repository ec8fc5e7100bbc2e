/** The message transport tables, and what each statement or transaction of the envelope service and of the
    retry worker does to them. */
module TransportTables {
  import opened Common

  const MAX_PAYLOAD := 65536
  const MAX_ATTEMPTS := 5
  const BATCH := 50

  type Payload = seq<bv8>

  datatype Status = Accepted | Queued | Routed | Delivered | Read | Expired | RevokedRecipient | PermanentlyFailed

  datatype Device = Device(userId: Uuid, isRevoked: bool)

  datatype Submission = Submission(senderUser: Uuid, senderDevice: Uuid, conversation: Uuid, recipientUser: Uuid,
                                   key: Uuid, protocolVersion: int, payload: Payload,
                                   clientCreatedAt: Time, expiresAt: Time)

  datatype Envelope = Envelope(sent: Submission, acceptedAt: Time)

  datatype KeyRow = KeyRow(senderDevice: Uuid, key: Uuid, envelopeId: Uuid, digest: Digest)

  datatype Record = Record(envelopeId: Uuid, deviceId: Uuid, status: Status, attempts: int,
                           lastAttemptedAt: Option<Time>, deliveredAt: Option<Time>)

  datatype Ack = Ack(envelopeId: Uuid, deviceId: Uuid)

  datatype Tables = Tables(users: set<Uuid>, devices: map<Uuid, Device>, members: set<(Uuid, Uuid)>,
                           envelopes: map<Uuid, Envelope>, keys: map<Uuid, KeyRow>,
                           records: map<Uuid, Record>, acks: map<Uuid, Ack>)

  const EMPTY: Tables := Tables({}, map[], {}, map[], map[], map[], map[])

  // ---- Submission: check, look the key up, resolve the devices, commit ----

  datatype SubmitError = SenderDeviceInvalid | NotAMember | PayloadTooLarge | DigestMismatch | DatabaseError

  function Authorize(t: Tables, s: Submission): Option<SubmitError> {
    if s.senderDevice !in t.devices || t.devices[s.senderDevice].userId != s.senderUser
       || t.devices[s.senderDevice].isRevoked then Some(SenderDeviceInvalid)
    else if (s.conversation, s.senderUser) !in t.members then Some(NotAMember)
    else if |s.payload| > MAX_PAYLOAD then Some(PayloadTooLarge)
    else None
  }

  predicate IsKey(t: Tables, i: Uuid, device: Uuid, key: Uuid) {
    i in t.keys && t.keys[i].senderDevice == device && t.keys[i].key == key
  }

  ghost predicate KeyTaken(t: Tables, device: Uuid, key: Uuid) {
    exists i :: IsKey(t, i, device, key)
  }

  datatype Lookup = Miss | Retry(envelopeId: Uuid) | Mismatch

  ghost function LookUp(t: Tables, device: Uuid, key: Uuid, digest: Digest): Lookup {
    if i :| IsKey(t, i, device, key) then
      if t.keys[i].digest == digest then Retry(t.keys[i].envelopeId) else Mismatch
    else Miss
  }

  function ActiveDevices(t: Tables, user: Uuid): set<Uuid> {
    set d | d in t.devices && t.devices[d].userId == user && !t.devices[d].isRevoked
  }

  ghost predicate NoDup(s: seq<Uuid>) {
    forall i, j :: 0 <= i < j < |s| ==> s[i] != s[j]
  }

  /** The rows of a query, in whatever order the database returns them. */
  ghost predicate Lists(rows: seq<Uuid>, ids: set<Uuid>) {
    NoDup(rows) && forall i :: i in rows <==> i in ids
  }

  predicate IsRecord(records: map<Uuid, Record>, i: Uuid, envelope: Uuid, device: Uuid) {
    i in records && records[i].envelopeId == envelope && records[i].deviceId == device
  }

  ghost predicate HasRecord(records: map<Uuid, Record>, envelope: Uuid, device: Uuid) {
    exists i :: IsRecord(records, i, envelope, device)
  }

  function NewRecord(envelope: Uuid, device: Uuid): Record {
    Record(envelope, device, Accepted, 0, None, None)
  }

  /** The loop of inserts; None when a row violates the primary key or the unique pair. */
  ghost function InsertRecords(records: map<Uuid, Record>, envelope: Uuid, devices: seq<Uuid>, ids: seq<Uuid>)
    : Option<map<Uuid, Record>>
    requires |devices| == |ids|
    decreases |devices|
  {
    if devices == [] then Some(records)
    else if ids[0] in records || HasRecord(records, envelope, devices[0]) then None
    else InsertRecords(records[ids[0] := NewRecord(envelope, devices[0])], envelope, devices[1..], ids[1..])
  }

  datatype CommitIds = CommitIds(envelope: Uuid, key: Uuid, records: seq<Uuid>)

  /** The transaction: every row, or none. */
  ghost function Commit(t: Tables, s: Submission, digest: Digest, devices: seq<Uuid>, ids: CommitIds, now: Time)
    : Option<Tables>
    requires |devices| == |ids.records|
  {
    if ids.envelope in t.envelopes || s.recipientUser !in t.users then None
    else if ids.key in t.keys || KeyTaken(t, s.senderDevice, s.key) then None
    else
      match InsertRecords(t.records, ids.envelope, devices, ids.records)
      case None => None
      case Some(records) => Some(t.(
        envelopes := t.envelopes[ids.envelope := Envelope(s, now)],
        keys := t.keys[ids.key := KeyRow(s.senderDevice, s.key, ids.envelope, digest)],
        records := records))
  }

  // ---- Delivery ----

  predicate Pending(s: Status) {
    s == Accepted || s == Queued || s == Routed
  }

  /** The rows getPendingEnvelopes joins. */
  ghost predicate ListedPending(t: Tables, user: Uuid, device: Uuid, envelope: Uuid, now: Time) {
    && envelope in t.envelopes && t.envelopes[envelope].sent.recipientUser == user
    && now < t.envelopes[envelope].sent.expiresAt
    && exists i :: IsRecord(t.records, i, envelope, device) && Pending(t.records[i].status)
  }

  predicate MayAcknowledge(t: Tables, user: Uuid, device: Uuid, envelope: Uuid, i: Uuid) {
    && IsRecord(t.records, i, envelope, device)
    && envelope in t.envelopes && t.envelopes[envelope].sent.recipientUser == user
  }

  function MarkDelivered(t: Tables, i: Uuid, ackId: Uuid, now: Time): Tables
    requires i in t.records
  {
    t.(records := t.records[i := t.records[i].(status := Delivered, deliveredAt := Some(now))],
       acks := t.acks[ackId := Ack(t.records[i].envelopeId, t.records[i].deviceId)])
  }

  ghost function Acknowledge(t: Tables, user: Uuid, device: Uuid, envelope: Uuid, ackId: Uuid, now: Time)
    : Option<Tables>
  {
    if i :| MayAcknowledge(t, user, device, envelope, i) then
      if ackId in t.acks then None else Some(MarkDelivered(t, i, ackId, now))
    else None
  }

  // ---- The worker ----

  predicate Selectable(t: Tables, i: Uuid, now: Time) {
    && i in t.records && Pending(t.records[i].status)
    && t.records[i].envelopeId in t.envelopes && now < t.envelopes[t.records[i].envelopeId].sent.expiresAt
    && t.records[i].attempts < MAX_ATTEMPTS
  }

  /** Any answer to SELECT ... LIMIT 50 with no ORDER BY. */
  ghost predicate IsBatch(t: Tables, rows: seq<Uuid>, now: Time) {
    && NoDup(rows) && |rows| <= BATCH
    && (forall i :: i in rows ==> Selectable(t, i, now))
    && (|rows| < BATCH ==> forall i {:trigger Selectable(t, i, now)} :: Selectable(t, i, now) ==> i in rows)
  }

  /** The worker's UPDATE: by primary key, whatever the row holds by now. */
  function WriteAttempt(t: Tables, i: Uuid, now: Time): Tables {
    if i !in t.records then t
    else t.(records := t.records[i := t.records[i].(status := Queued, attempts := t.records[i].attempts + 1,
                                                    lastAttemptedAt := Some(now))])
  }

  function WriteAll(t: Tables, rows: seq<Uuid>, now: Time): Tables
    decreases |rows|
  {
    if rows == [] then t else WriteAll(WriteAttempt(t, rows[0], now), rows[1..], now)
  }

  function ExpireDue(t: Tables, now: Time): Tables {
    t.(records := map i | i in t.records ::
         if t.records[i].envelopeId in t.envelopes && t.envelopes[t.records[i].envelopeId].sent.expiresAt <= now
            && Pending(t.records[i].status)
         then t.records[i].(status := Expired) else t.records[i])
  }
}
