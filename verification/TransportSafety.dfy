/** Idempotent submission, and no accepted envelope lost, in every reachable state of every interleaving. */
module TransportSafety {
  import opened Common
  import opened TransportTables
  import opened TransportRuns

  // ---- Idempotency keys ----

  /** A key row repeats what its envelope says. */
  ghost predicate KeyOk(sha: Sha, t: Tables, i: Uuid)
    requires i in t.keys
  {
    && t.keys[i].envelopeId in t.envelopes
    && var sent := t.envelopes[t.keys[i].envelopeId].sent;
       t.keys[i] == KeyRow(sent.senderDevice, sent.key, t.keys[i].envelopeId, sha(sent.payload))
  }

  ghost predicate SamePair(t: Tables, i: Uuid, j: Uuid) {
    i in t.keys && j in t.keys && t.keys[i].senderDevice == t.keys[j].senderDevice && t.keys[i].key == t.keys[j].key
  }

  ghost predicate KeyOf(t: Tables, i: Uuid, envelope: Uuid) {
    i in t.keys && t.keys[i].envelopeId == envelope
  }

  ghost predicate HasKey(t: Tables, envelope: Uuid) {
    exists i :: KeyOf(t, i, envelope)
  }

  ghost predicate KeysInv(sha: Sha, t: Tables) {
    && (forall i {:trigger KeyOk(sha, t, i)} :: i in t.keys ==> KeyOk(sha, t, i))
    && (forall i, j {:trigger SamePair(t, i, j)} :: SamePair(t, i, j) ==> i == j)
    && (forall e {:trigger HasKey(t, e)} :: e in t.envelopes ==> HasKey(t, e))
  }

  lemma CommitKeepsKeys(sha: Sha, t: Tables, s: Submission, devices: seq<Uuid>, ids: CommitIds, now: Time)
    requires KeysInv(sha, t) && |devices| == |ids.records|
    requires Commit(t, s, sha(s.payload), devices, ids, now).Some?
    ensures KeysInv(sha, Commit(t, s, sha(s.payload), devices, ids, now).value)
  {
    var t' := Commit(t, s, sha(s.payload), devices, ids, now).value;
    forall i: Uuid | i in t'.keys ensures KeyOk(sha, t', i) {
      if i != ids.key { assert KeyOk(sha, t, i); }
    }
    forall i: Uuid, j: Uuid | SamePair(t', i, j) ensures i == j {
      assert i in t.keys && j in t.keys ==> SamePair(t, i, j);
      assert i in t.keys && j !in t.keys ==> IsKey(t, i, s.senderDevice, s.key);
      assert j in t.keys && i !in t.keys ==> IsKey(t, j, s.senderDevice, s.key);
    }
    forall e: Uuid | e in t'.envelopes ensures HasKey(t', e) {
      if e == ids.envelope {
        assert KeyOf(t', ids.key, e);
      } else {
        assert HasKey(t, e);
        var i :| KeyOf(t, i, e);
        assert KeyOf(t', i, e);
      }
    }
  }

  lemma SameKeysKept(sha: Sha, a: Tables, b: Tables)
    requires KeysInv(sha, a) && a.keys == b.keys && a.envelopes == b.envelopes
    ensures KeysInv(sha, b)
  {
    forall i: Uuid | i in b.keys ensures KeyOk(sha, b, i) {
      assert KeyOk(sha, a, i);
    }
    forall i: Uuid, j: Uuid | SamePair(b, i, j) ensures i == j {
      assert SamePair(a, i, j);
    }
    forall e: Uuid | e in b.envelopes ensures HasKey(b, e) {
      assert HasKey(a, e);
      var i :| KeyOf(a, i, e);
      assert KeyOf(b, i, e);
    }
  }

  /** Steps that add no envelope, key row or record, and no addressee. */
  ghost predicate SameRows(w: World, w': World) {
    && w'.db.envelopes == w.db.envelopes && w'.db.keys == w.db.keys && w'.fanout == w.fanout
    && w'.db.records.Keys == w.db.records.Keys
    && w.clock <= w'.clock
  }

  lemma EnvKeepsRows(w: World, s: EnvStep)
    ensures SameRows(w, NextEnv(w, s)) && NextEnv(w, s).flights == w.flights && NextEnv(w, s).db.records == w.db.records
  {}

  lemma WorkKeepsRows(w: World, s: WorkerStep)
    ensures SameRows(w, NextWork(w, s)) && NextWork(w, s).flights == w.flights
  {
    if s.RunsPass? {
      WriteAllGrows(w.db, s.rows, w.clock);
    }
  }

  /** Only a successful commit adds an envelope or a key row. */
  lemma OtherStepsKeepRows(sha: Sha, w: World, s: Step)
    requires !(s.Submit? && s.submit.Commits?)
    ensures SameRows(w, Next(sha, w, s))
  {
    match s
    case Env(e) => EnvKeepsRows(w, e);
    case Submit(e) =>
    case Deliver(e) =>
    case Work(e) => WorkKeepsRows(w, e);
  }

  lemma NextKeepsKeys(sha: Sha, w: World, s: Step)
    requires KeysInv(sha, w.db)
    ensures KeysInv(sha, Next(sha, w, s).db)
  {
    if s.Submit? && s.submit.Commits? {
      var c := s.submit;
      if MayCommit(w, c.req, c.ids) {
        var f := w.flights[c.req];
        if Commit(w.db, f.sub, sha(f.sub.payload), f.devices, c.ids, w.clock).Some? {
          CommitKeepsKeys(sha, w.db, f.sub, f.devices, c.ids, w.clock);
        }
      }
    } else {
      OtherStepsKeepRows(sha, w, s);
      SameKeysKept(sha, w.db, Next(sha, w, s).db);
    }
  }

  lemma {:induction false} RunKeepsKeys(sha: Sha, w: World, steps: seq<Step>)
    requires KeysInv(sha, w.db)
    ensures KeysInv(sha, Run(sha, w, steps).db)
    decreases |steps|
  {
    if steps != [] {
      NextKeepsKeys(sha, w, steps[0]);
      RunKeepsKeys(sha, Next(sha, w, steps[0]), steps[1..]);
    }
  }

  ghost predicate SameSender(t: Tables, e: Uuid, f: Uuid) {
    && e in t.envelopes && f in t.envelopes
    && t.envelopes[e].sent.senderDevice == t.envelopes[f].sent.senderDevice
    && t.envelopes[e].sent.key == t.envelopes[f].sent.key
  }

  ghost predicate ExactlyOneKey(sha: Sha, t: Tables, envelope: Uuid)
    requires envelope in t.envelopes
  {
    var sent := t.envelopes[envelope].sent;
    exists i :: KeyOf(t, i, envelope) && t.keys[i] == KeyRow(sent.senderDevice, sent.key, envelope, sha(sent.payload))
                && forall j :: KeyOf(t, j, envelope) ==> j == i
  }

  lemma TheKey(sha: Sha, t: Tables, envelope: Uuid) returns (i: Uuid)
    requires KeysInv(sha, t) && envelope in t.envelopes
    ensures KeyOf(t, i, envelope) && KeyOk(sha, t, i)
    ensures forall j :: KeyOf(t, j, envelope) ==> j == i
  {
    assert HasKey(t, envelope);
    i :| KeyOf(t, i, envelope);
    assert KeyOk(sha, t, i);
    forall j: Uuid | KeyOf(t, j, envelope) ensures j == i {
      assert KeyOk(sha, t, j);
      assert SamePair(t, i, j);
    }
  }

  /** However submissions interleave, a sender device and key own at most one envelope, and every envelope has
      exactly one key record, which holds its payload's digest. */
  lemma OneEnvelopePerKey(sha: Sha, workers: set<Uuid>, now: Time, steps: seq<Step>)
    ensures var t := Run(sha, Start(workers, now), steps).db;
            && (forall e, f :: SameSender(t, e, f) ==> e == f)
            && (forall e :: e in t.envelopes ==> ExactlyOneKey(sha, t, e))
  {
    var t := Run(sha, Start(workers, now), steps).db;
    RunKeepsKeys(sha, Start(workers, now), steps);
    forall e: Uuid, f: Uuid | SameSender(t, e, f) ensures e == f {
      var i := TheKey(sha, t, e);
      var j := TheKey(sha, t, f);
      assert SamePair(t, i, j);
    }
    forall e: Uuid | e in t.envelopes ensures ExactlyOneKey(sha, t, e) {
      var i := TheKey(sha, t, e);
    }
  }

  /** A resolved submission about to commit under the same sender device and key. */
  ghost predicate Contends(w: World, req: Uuid, ids: CommitIds, sent: Submission) {
    MayCommit(w, req, ids)
    && w.flights[req].sub.senderDevice == sent.senderDevice && w.flights[req].sub.key == sent.key
  }

  /** Once an envelope is stored, every later retry of its key with the same digest is answered with it, every
      retry with another digest is refused, and every commit that lost the race leaves no row. */
  lemma RetriesFindTheEnvelope(sha: Sha, w: World, envelope: Uuid, later: seq<Step>, digest: Digest)
    requires KeysInv(sha, w.db) && envelope in w.db.envelopes
    ensures var sent := w.db.envelopes[envelope].sent; var end := Run(sha, w, later);
            && LookUp(end.db, sent.senderDevice, sent.key, digest)
               == (if digest == sha(sent.payload) then Retry(envelope) else Mismatch)
            && (forall req, ids :: Contends(end, req, ids, sent) ==> AfterCommit(end, sha, req, ids).db == end.db)
  {
    var sent := w.db.envelopes[envelope].sent;
    var end := Run(sha, w, later);
    RunKeepsKeys(sha, w, later);
    RunGrows(sha, w, later);
    var i := TheKey(sha, end.db, envelope);
    assert IsKey(end.db, i, sent.senderDevice, sent.key);
    forall j: Uuid | IsKey(end.db, j, sent.senderDevice, sent.key) ensures j == i {
      assert SamePair(end.db, i, j);
    }
  }

  // ---- Delivery records ----

  ghost predicate HasAck(t: Tables, envelope: Uuid, device: Uuid) {
    exists a :: a in t.acks && t.acks[a] == Ack(envelope, device)
  }

  ghost predicate RecordOk(w: World, i: Uuid)
    requires i in w.db.records
  {
    var r := w.db.records[i];
    && r.envelopeId in w.db.envelopes && r.envelopeId in w.fanout && r.deviceId in w.fanout[r.envelopeId]
    && r.status in {Accepted, Queued, Delivered, Expired}
    && (r.status == Delivered ==> HasAck(w.db, r.envelopeId, r.deviceId))
    && (r.status == Expired ==> w.db.envelopes[r.envelopeId].sent.expiresAt <= w.clock)
    && 0 <= r.attempts
  }

  ghost predicate SameTarget(records: map<Uuid, Record>, i: Uuid, j: Uuid) {
    && i in records && j in records
    && records[i].envelopeId == records[j].envelopeId && records[i].deviceId == records[j].deviceId
  }

  ghost predicate FanOk(w: World, e: Uuid)
    requires e in w.db.envelopes
  {
    e in w.fanout && forall d :: d in w.fanout[e] ==>
      && HasRecord(w.db.records, e, d)
      && d in w.db.devices && w.db.devices[d].userId == w.db.envelopes[e].sent.recipientUser
  }

  ghost predicate FlightOk(w: World, req: Uuid)
    requires req in w.flights
  {
    w.flights[req].Resolved? ==> forall d :: d in w.flights[req].devices ==>
      d in w.db.devices && w.db.devices[d].userId == w.flights[req].sub.recipientUser
  }

  ghost predicate RecordsOk(w: World) {
    forall i {:trigger RecordOk(w, i)} :: i in w.db.records ==> RecordOk(w, i)
  }

  ghost predicate TargetsUnique(records: map<Uuid, Record>) {
    forall i, j {:trigger SameTarget(records, i, j)} :: SameTarget(records, i, j) ==> i == j
  }

  ghost predicate FansOk(w: World) {
    forall e {:trigger FanOk(w, e)} :: e in w.db.envelopes ==> FanOk(w, e)
  }

  ghost predicate FlightsOk(w: World) {
    forall req {:trigger FlightOk(w, req)} :: req in w.flights ==> FlightOk(w, req)
  }

  ghost predicate DeliveryInv(w: World) {
    RecordsOk(w) && TargetsUnique(w.db.records) && FansOk(w) && FlightsOk(w)
  }

  lemma SameRowsKeepRest(w: World, w': World)
    requires DeliveryInv(w) && SameRows(w, w') && Grows(w.db, w'.db)
    ensures TargetsUnique(w'.db.records) && FansOk(w')
  {
    forall i: Uuid, j: Uuid | SameTarget(w'.db.records, i, j) ensures i == j {
      assert SameTarget(w.db.records, i, j);
    }
    forall e: Uuid | e in w'.db.envelopes ensures FanOk(w', e) {
      assert FanOk(w, e);
      forall d: Uuid | d in w.fanout[e] ensures HasRecord(w'.db.records, e, d) {
        assert HasRecord(w.db.records, e, d);
        var i :| IsRecord(w.db.records, i, e, d);
        assert IsRecord(w'.db.records, i, e, d);
      }
    }
  }

  lemma SameFlightsOk(w: World, w': World)
    requires FlightsOk(w) && w'.flights == w.flights && Grows(w.db, w'.db)
    ensures FlightsOk(w')
  {
    forall req: Uuid | req in w'.flights ensures FlightOk(w', req) {
      assert FlightOk(w, req);
    }
  }

  /** A row is still fine when it is unchanged, freshly queued, delivered with its acknowledgement, or due. */
  ghost predicate RowStep(w: World, w': World, i: Uuid)
    requires i in w.db.records && i in w'.db.records
  {
    var a := w.db.records[i]; var b := w'.db.records[i];
    && b.envelopeId == a.envelopeId && b.deviceId == a.deviceId && a.attempts <= b.attempts
    && (|| b.status == a.status || b.status == Queued
        || (b.status == Delivered && HasAck(w'.db, b.envelopeId, b.deviceId))
        || (b.status == Expired && b.envelopeId in w.db.envelopes
            && w.db.envelopes[b.envelopeId].sent.expiresAt <= w.clock))
  }

  lemma AcksPersist(a: Tables, b: Tables, envelope: Uuid, device: Uuid)
    requires Grows(a, b)
    ensures HasAck(a, envelope, device) ==> HasAck(b, envelope, device)
  {
    if HasAck(a, envelope, device) {
      var k :| k in a.acks && a.acks[k] == Ack(envelope, device);
      assert k in b.acks && b.acks[k] == Ack(envelope, device);
    }
  }

  lemma RowStepsKeepInv(w: World, w': World)
    requires DeliveryInv(w) && SameRows(w, w') && Grows(w.db, w'.db) && w'.flights == w.flights
    requires forall i {:trigger RowStep(w, w', i)} :: i in w.db.records ==> RowStep(w, w', i)
    ensures DeliveryInv(w')
  {
    SameRowsKeepRest(w, w');
    SameFlightsOk(w, w');
    forall i: Uuid | i in w'.db.records ensures RecordOk(w', i) {
      assert RecordOk(w, i) && RowStep(w, w', i);
      AcksPersist(w.db, w'.db, w.db.records[i].envelopeId, w.db.records[i].deviceId);
    }
  }

  // ---- Each kind of step ----

  lemma DeliverRowStep(w: World, s: DeliveryStep, i: Uuid)
    requires i in w.db.records && i in NextDeliver(w, s).db.records
    ensures RowStep(w, NextDeliver(w, s), i)
  {
    if s.Acks? && Acknowledge(w.db, s.user, s.device, s.envelope, s.ackId, w.clock).Some? {
      var k :| MayAcknowledge(w.db, s.user, s.device, s.envelope, k)
               && Acknowledge(w.db, s.user, s.device, s.envelope, s.ackId, w.clock)
                  == Some(MarkDelivered(w.db, k, s.ackId, w.clock));
      var db := NextDeliver(w, s).db;
      assert s.ackId in db.acks && db.acks[s.ackId] == Ack(s.envelope, s.device);
    }
  }

  lemma {:induction false} WriteAllRows(t: Tables, rows: seq<Uuid>, now: Time, i: Uuid)
    requires i in t.records && i in WriteAll(t, rows, now).records
    ensures var a := t.records[i]; var b := WriteAll(t, rows, now).records[i];
            && b.envelopeId == a.envelopeId && b.deviceId == a.deviceId && a.attempts <= b.attempts
            && (if i in rows then b.status == Queued else b == a)
    decreases |rows|
  {
    if rows != [] {
      WriteAllGrows(WriteAttempt(t, rows[0], now), rows[1..], now);
      WriteAllRows(WriteAttempt(t, rows[0], now), rows[1..], now, i);
    }
  }

  lemma WorkRowStep(w: World, s: WorkerStep, i: Uuid)
    requires i in w.db.records && i in NextWork(w, s).db.records
    ensures RowStep(w, NextWork(w, s), i)
  {
    if s.RunsPass? {
      WriteAllGrows(w.db, s.rows, w.clock);
      WriteAllRows(w.db, s.rows, w.clock, i);
    }
  }

  /** Apart from submissions, every step does one of those things to every row. */
  lemma OtherRowStep(sha: Sha, w: World, s: Step, i: Uuid)
    requires !s.Submit? && i in w.db.records && i in Next(sha, w, s).db.records
    ensures RowStep(w, Next(sha, w, s), i)
  {
    match s
    case Env(e) => EnvKeepsRows(w, e);
    case Deliver(e) => DeliverRowStep(w, e, i);
    case Work(e) => WorkRowStep(w, e, i);
  }

  lemma SubmitKeepsFlights(sha: Sha, w: World, s: SubmitStep)
    requires FlightsOk(w)
    ensures FlightsOk(NextSubmit(sha, w, s))
  {
    var w' := NextSubmit(sha, w, s);
    forall req: Uuid | req in w'.flights ensures FlightOk(w', req) {
      if req in w.flights { assert FlightOk(w, req); }
    }
  }

  lemma {:induction false} InsertRecordsUnique(records: map<Uuid, Record>, envelope: Uuid, devices: seq<Uuid>,
                                               ids: seq<Uuid>)
    requires TargetsUnique(records)
    requires |devices| == |ids| && InsertRecords(records, envelope, devices, ids).Some?
    ensures TargetsUnique(InsertRecords(records, envelope, devices, ids).value)
    decreases |devices|
  {
    if devices != [] {
      var d := devices[0];
      var r1 := records[ids[0] := NewRecord(envelope, d)];
      forall i: Uuid, j: Uuid | SameTarget(r1, i, j) ensures i == j {
        assert i != ids[0] && j != ids[0] ==> SameTarget(records, i, j);
        assert !IsRecord(records, i, envelope, d) && !IsRecord(records, j, envelope, d);
      }
      InsertRecordsUnique(r1, envelope, devices[1..], ids[1..]);
    }
  }

  /** `w'` is `w` with one more envelope and one fresh record for each of its devices. */
  ghost predicate AddsEnvelope(w: World, w': World, envelope: Uuid, f: Flight) {
    && f.Resolved? && envelope !in w.db.envelopes
    && w'.db.envelopes == w.db.envelopes[envelope := Envelope(f.sub, w.clock)]
    && w'.fanout == w.fanout[envelope := set d | d in f.devices]
    && w'.clock == w.clock && w'.db.acks == w.db.acks && w'.db.devices == w.db.devices
    && (forall i :: i in w.db.records ==> i in w'.db.records && w'.db.records[i] == w.db.records[i])
    && (forall i :: i in w'.db.records && i !in w.db.records ==>
          && w'.db.records[i].deviceId in f.devices
          && w'.db.records[i] == NewRecord(envelope, w'.db.records[i].deviceId))
    && (forall d :: d in f.devices ==> HasRecord(w'.db.records, envelope, d))
  }

  lemma CommittedRecordsOk(w: World, w': World, envelope: Uuid, f: Flight)
    requires RecordsOk(w) && AddsEnvelope(w, w', envelope, f)
    ensures RecordsOk(w')
  {
    forall i: Uuid | i in w'.db.records ensures RecordOk(w', i) {
      if i in w.db.records {
        assert RecordOk(w, i);
        var r := w.db.records[i];
        if HasAck(w.db, r.envelopeId, r.deviceId) {
          var a :| a in w.db.acks && w.db.acks[a] == Ack(r.envelopeId, r.deviceId);
          assert a in w'.db.acks && w'.db.acks[a] == Ack(r.envelopeId, r.deviceId);
        }
      }
    }
  }

  lemma CommittedFansOk(w: World, w': World, envelope: Uuid, f: Flight)
    requires FansOk(w) && AddsEnvelope(w, w', envelope, f)
    requires forall d :: d in f.devices ==> d in w.db.devices && w.db.devices[d].userId == f.sub.recipientUser
    ensures FansOk(w')
  {
    forall e: Uuid | e in w'.db.envelopes ensures FanOk(w', e) {
      if e != envelope {
        assert FanOk(w, e);
        forall d: Uuid | d in w'.fanout[e] ensures HasRecord(w'.db.records, e, d) {
          assert HasRecord(w.db.records, e, d);
          var i :| IsRecord(w.db.records, i, e, d);
          assert IsRecord(w'.db.records, i, e, d);
        }
      }
    }
  }

  /** Whether a submission's step adds an envelope. */
  ghost predicate Accepts(sha: Sha, w: World, s: SubmitStep) {
    s.Commits? && MayCommit(w, s.req, s.ids)
    && var f := w.flights[s.req];
       Commit(w.db, f.sub, sha(f.sub.payload), f.devices, s.ids, w.clock).Some?
  }

  lemma AcceptedRowsOk(sha: Sha, w: World, s: SubmitStep)
    requires DeliveryInv(w) && Accepts(sha, w, s)
    ensures RecordsOk(NextSubmit(sha, w, s)) && FansOk(NextSubmit(sha, w, s))
    ensures TargetsUnique(NextSubmit(sha, w, s).db.records)
  {
    var f := w.flights[s.req];
    var w' := NextSubmit(sha, w, s);
    assert FlightOk(w, s.req);
    InsertRecordsKeeps(w.db.records, s.ids.envelope, f.devices, s.ids.records);
    InsertRecordsUnique(w.db.records, s.ids.envelope, f.devices, s.ids.records);
    CommittedRecordsOk(w, w', s.ids.envelope, f);
    CommittedFansOk(w, w', s.ids.envelope, f);
  }

  lemma SubmitKeepsDelivery(sha: Sha, w: World, s: SubmitStep)
    requires DeliveryInv(w)
    ensures DeliveryInv(NextSubmit(sha, w, s))
  {
    var w' := NextSubmit(sha, w, s);
    SubmitKeepsFlights(sha, w, s);
    if Accepts(sha, w, s) {
      AcceptedRowsOk(sha, w, s);
    } else {
      assert w'.db == w.db && w'.fanout == w.fanout && w'.clock == w.clock;
      forall i: Uuid | i in w'.db.records ensures RecordOk(w', i) {
        assert RecordOk(w, i);
      }
      forall e: Uuid | e in w'.db.envelopes ensures FanOk(w', e) {
        assert FanOk(w, e);
      }
    }
  }

  lemma NextKeepsDelivery(sha: Sha, w: World, s: Step)
    requires DeliveryInv(w)
    ensures DeliveryInv(Next(sha, w, s))
  {
    if s.Submit? {
      SubmitKeepsDelivery(sha, w, s.submit);
    } else {
      var w' := Next(sha, w, s);
      NextGrows(sha, w, s);
      OtherStepsKeepRows(sha, w, s);
      forall i: Uuid | i in w.db.records ensures RowStep(w, w', i) {
        OtherRowStep(sha, w, s, i);
      }
      RowStepsKeepInv(w, w');
    }
  }

  lemma {:induction false} RunKeepsDelivery(sha: Sha, w: World, steps: seq<Step>)
    requires DeliveryInv(w)
    ensures DeliveryInv(Run(sha, w, steps))
    decreases |steps|
  {
    if steps != [] {
      NextKeepsDelivery(sha, w, steps[0]);
      RunKeepsDelivery(sha, Next(sha, w, steps[0]), steps[1..]);
    }
  }

  ghost predicate OnlyRecord(t: Tables, i: Uuid, envelope: Uuid, device: Uuid) {
    IsRecord(t.records, i, envelope, device) && forall j :: IsRecord(t.records, j, envelope, device) ==> j == i
  }

  /** No accepted envelope is lost. In every reachable state, stale worker writes included, each envelope has
      exactly one record for each device it was resolved to and none for another, and that record is listed to the
      recipient, or delivered with an acknowledgement row, or past its expiry. */
  lemma NothingIsLost(sha: Sha, workers: set<Uuid>, now: Time, steps: seq<Step>, envelope: Uuid, device: Uuid)
    returns (i: Uuid)
    requires var w := Run(sha, Start(workers, now), steps);
             envelope in w.db.envelopes && envelope in w.fanout && device in w.fanout[envelope]
    ensures var w := Run(sha, Start(workers, now), steps); var sent := w.db.envelopes[envelope].sent;
            && OnlyRecord(w.db, i, envelope, device)
            && (|| ListedPending(w.db, sent.recipientUser, device, envelope, w.clock)
                || (w.db.records[i].status == Delivered && HasAck(w.db, envelope, device))
                || sent.expiresAt <= w.clock)
  {
    var w := Run(sha, Start(workers, now), steps);
    RunKeepsDelivery(sha, Start(workers, now), steps);
    assert FanOk(w, envelope);
    assert HasRecord(w.db.records, envelope, device);
    i :| IsRecord(w.db.records, i, envelope, device);
    forall j: Uuid | IsRecord(w.db.records, j, envelope, device) ensures j == i {
      assert SameTarget(w.db.records, i, j);
    }
    assert RecordOk(w, i);
  }

  /** The converse: no record is addressed outside the fan-out, and the fan-out names the recipient's devices only. */
  lemma NothingIsMisdelivered(sha: Sha, workers: set<Uuid>, now: Time, steps: seq<Step>, i: Uuid)
    requires i in Run(sha, Start(workers, now), steps).db.records
    ensures var w := Run(sha, Start(workers, now), steps); var r := w.db.records[i];
            && r.envelopeId in w.db.envelopes && r.envelopeId in w.fanout && r.deviceId in w.fanout[r.envelopeId]
            && r.deviceId in w.db.devices && r.status in {Accepted, Queued, Delivered, Expired}
            && w.db.devices[r.deviceId].userId == w.db.envelopes[r.envelopeId].sent.recipientUser
            && (r.status == Delivered ==> HasAck(w.db, r.envelopeId, r.deviceId))
            && (r.status == Expired ==> w.db.envelopes[r.envelopeId].sent.expiresAt <= w.clock)
  {
    var w := Run(sha, Start(workers, now), steps);
    RunKeepsDelivery(sha, Start(workers, now), steps);
    assert RecordOk(w, i);
    assert FanOk(w, w.db.records[i].envelopeId);
  }
}
