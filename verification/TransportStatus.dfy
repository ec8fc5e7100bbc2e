/** When delivery statuses only move forward, and how an interrupted pass moves one back. */
module TransportStatus {
  import opened Common
  import opened TransportTables
  import opened TransportRuns
  import opened TransportSafety

  function Rank(s: Status): nat {
    match s
    case Accepted => 0
    case Queued => 1
    case Routed => 1
    case Expired => 2
    case _ => 3
  }

  /** Passes are not interrupted. */
  predicate Atomic(s: Step) {
    !(s.Work? && (s.work.Selects? || s.work.Writes?))
  }

  // ---- An uninterrupted pass is a selection followed by its writes ----

  function Drain(x: Uuid, n: nat): seq<Step> {
    seq(n, _ => Work(Writes(x)))
  }

  lemma {:induction false} DrainWritesAll(sha: Sha, w: World, x: Uuid)
    requires x in w.batches
    ensures Run(sha, w, Drain(x, |w.batches[x]|))
            == w.(db := WriteAll(w.db, w.batches[x], w.clock), batches := w.batches[x := []])
    decreases |w.batches[x]|
  {
    var n := |w.batches[x]|;
    if n == 0 {
      assert w.batches == w.batches[x := []];
    } else {
      var w1 := Next(sha, w, Work(Writes(x)));
      assert Drain(x, n)[1..] == Drain(x, n - 1);
      DrainWritesAll(sha, w1, x);
      assert w1.batches[x := []] == w.batches[x := []];
    }
  }

  lemma PassIsSelectThenWrites(sha: Sha, w: World, x: Uuid, rows: seq<Uuid>)
    requires MaySelect(w, x, rows)
    ensures Run(sha, w, [Work(Selects(x, rows))] + Drain(x, |rows|)) == Next(sha, w, Work(RunsPass(x, rows)))
  {
    var s := [Work(Selects(x, rows))] + Drain(x, |rows|);
    var w1 := Next(sha, w, s[0]);
    assert s[1..] == Drain(x, |rows|);
    DrainWritesAll(sha, w1, x);
    assert w1.batches[x := []] == w.batches;
  }

  // ---- Monotone statuses ----

  ghost predicate AckedIsDelivered(t: Tables, i: Uuid)
    requires i in t.records
  {
    HasAck(t, t.records[i].envelopeId, t.records[i].deviceId) ==> t.records[i].status == Delivered
  }

  ghost predicate AcksOk(w: World) {
    && (forall a :: a in w.db.acks ==> w.db.acks[a].envelopeId in w.db.envelopes)
    && (forall i {:trigger AckedIsDelivered(w.db, i)} :: i in w.db.records ==> AckedIsDelivered(w.db, i))
  }

  /** What one step does to one record: nothing backwards, and nothing after delivery. */
  ghost predicate Forward(w: World, w': World, i: Uuid) {
    && i in w.db.records && i in w'.db.records
    && Rank(w.db.records[i].status) <= Rank(w'.db.records[i].status)
    && (w.db.records[i].status == Delivered ==> w'.db.records[i].status == Delivered)
  }

  /** A worker's write reaches a row that stopped being pending after it was selected. */
  ghost predicate HitsStale(w: World, s: Step) {
    && s.Work? && s.work.Writes? && MayWrite(w, s.work.worker)
    && var i := w.batches[s.work.worker][0];
       i in w.db.records && !Pending(w.db.records[i].status)
  }

  /** A worker's write reaches a row that was delivered after it was selected. */
  ghost predicate HitsDelivered(w: World, s: Step) {
    HitsStale(w, s) && w.db.records[w.batches[s.work.worker][0]].status == Delivered
  }

  lemma DeliverForward(w: World, s: DeliveryStep, i: Uuid)
    requires RecordsOk(w) && i in w.db.records
    ensures Forward(w, NextDeliver(w, s), i)
  {
    assert RecordOk(w, i);
  }

  lemma WorkForward(w: World, s: WorkerStep, i: Uuid)
    requires RecordsOk(w) && i in w.db.records && !HitsStale(w, Work(s))
    ensures Forward(w, NextWork(w, s), i)
  {
    assert RecordOk(w, i);
    if s.RunsPass? {
      WriteAllGrows(w.db, s.rows, w.clock);
      WriteAllRows(w.db, s.rows, w.clock, i);
      if MaySelect(w, s.worker, s.rows) && i in s.rows {
        assert Selectable(w.db, i, w.clock);
      }
    }
  }

  lemma SubmitForward(sha: Sha, w: World, s: SubmitStep, i: Uuid)
    requires i in w.db.records
    ensures Forward(w, NextSubmit(sha, w, s), i)
  {
    if s.Commits? && MayCommit(w, s.req, s.ids) {
      var f := w.flights[s.req];
      if Commit(w.db, f.sub, sha(f.sub.payload), f.devices, s.ids, w.clock).Some? {
        InsertRecordsKeeps(w.db.records, s.ids.envelope, f.devices, s.ids.records);
      }
    }
  }

  lemma NextForward(sha: Sha, w: World, s: Step, i: Uuid)
    requires RecordsOk(w) && i in w.db.records && !HitsStale(w, s)
    ensures Forward(w, Next(sha, w, s), i)
  {
    match s
    case Env(e) => EnvKeepsRows(w, e);
    case Submit(e) => SubmitForward(sha, w, e, i);
    case Deliver(e) => DeliverForward(w, e, i);
    case Work(e) => WorkForward(w, e, i);
  }

  lemma NewAckIsForDelivered(w: World, s: DeliveryStep, i: Uuid)
    requires DeliveryInv(w) && i in w.db.records
    ensures var w' := NextDeliver(w, s); var r := w.db.records[i];
            i in w'.db.records && (HasAck(w'.db, r.envelopeId, r.deviceId) ==>
              HasAck(w.db, r.envelopeId, r.deviceId) || w'.db.records[i].status == Delivered)
  {
    var w' := NextDeliver(w, s);
    var r := w.db.records[i];
    if HasAck(w'.db, r.envelopeId, r.deviceId) && !HasAck(w.db, r.envelopeId, r.deviceId) {
      var a :| a in w'.db.acks && w'.db.acks[a] == Ack(r.envelopeId, r.deviceId);
      var k :| MayAcknowledge(w.db, s.user, s.device, s.envelope, k)
               && Acknowledge(w.db, s.user, s.device, s.envelope, s.ackId, w.clock)
                  == Some(MarkDelivered(w.db, k, s.ackId, w.clock));
      assert w'.db == MarkDelivered(w.db, k, s.ackId, w.clock);
      assert a == s.ackId;
      assert SameTarget(w.db.records, i, k);
      assert i == k;
    }
  }

  lemma DeliverKeepsAcks(w: World, s: DeliveryStep)
    requires DeliveryInv(w) && AcksOk(w)
    ensures AcksOk(NextDeliver(w, s))
  {
    var w' := NextDeliver(w, s);
    DeliverGrows(w, s);
    forall i: Uuid | i in w'.db.records ensures AckedIsDelivered(w'.db, i) {
      assert AckedIsDelivered(w.db, i);
      DeliverForward(w, s, i);
      NewAckIsForDelivered(w, s, i);
    }
  }

  lemma WorkKeepsAcks(w: World, s: WorkerStep)
    requires RecordsOk(w) && AcksOk(w) && !HitsDelivered(w, Work(s))
    ensures AcksOk(NextWork(w, s))
  {
    var w' := NextWork(w, s);
    WorkKeepsRows(w, s);
    WorkGrows(w, s);
    if s.RunsPass? { WriteAllGrows(w.db, s.rows, w.clock); }
    assert w'.db.acks == w.db.acks;
    forall i: Uuid | i in w'.db.records ensures AckedIsDelivered(w'.db, i) {
      assert AckedIsDelivered(w.db, i);
      if !HitsStale(w, Work(s)) { WorkForward(w, s, i); }
    }
  }

  lemma SubmitAddsNoAck(sha: Sha, w: World, s: SubmitStep)
    ensures var w' := NextSubmit(sha, w, s);
            && w'.db.acks == w.db.acks
            && (forall i :: i in w.db.records ==> i in w'.db.records && w'.db.records[i] == w.db.records[i])
            && (forall i :: i in w'.db.records && i !in w.db.records ==> w'.db.records[i].envelopeId !in w.db.envelopes)
  {
    if s.Commits? && MayCommit(w, s.req, s.ids) {
      var f := w.flights[s.req];
      if Commit(w.db, f.sub, sha(f.sub.payload), f.devices, s.ids, w.clock).Some? {
        InsertRecordsKeeps(w.db.records, s.ids.envelope, f.devices, s.ids.records);
      }
    }
  }

  lemma SubmitKeepsAcks(sha: Sha, w: World, s: SubmitStep)
    requires AcksOk(w)
    ensures AcksOk(NextSubmit(sha, w, s))
  {
    var w' := NextSubmit(sha, w, s);
    SubmitGrows(sha, w, s);
    SubmitAddsNoAck(sha, w, s);
    forall i: Uuid | i in w'.db.records ensures AckedIsDelivered(w'.db, i) {
      if i in w.db.records { assert AckedIsDelivered(w.db, i); }
    }
  }

  lemma EnvKeepsAcks(w: World, s: EnvStep)
    requires AcksOk(w)
    ensures AcksOk(NextEnv(w, s))
  {
    var w' := NextEnv(w, s);
    EnvKeepsRows(w, s);
    assert w'.db.acks == w.db.acks;
    forall i: Uuid | i in w'.db.records ensures AckedIsDelivered(w'.db, i) {
      assert AckedIsDelivered(w.db, i);
    }
  }

  lemma NextKeepsAcks(sha: Sha, w: World, s: Step)
    requires DeliveryInv(w) && AcksOk(w) && !HitsDelivered(w, s)
    ensures AcksOk(Next(sha, w, s))
  {
    match s
    case Env(e) => EnvKeepsAcks(w, e);
    case Submit(e) => SubmitKeepsAcks(sha, w, e);
    case Deliver(e) => DeliverKeepsAcks(w, e);
    case Work(e) => WorkKeepsAcks(w, e);
  }

  // ---- Exactly when, over every run with any worker steps ----

  ghost predicate NeverHitsStale(sha: Sha, w: World, steps: seq<Step>)
    decreases |steps|
  {
    steps == [] || (!HitsStale(w, steps[0]) && NeverHitsStale(sha, Next(sha, w, steps[0]), steps[1..]))
  }

  ghost predicate NeverHitsDelivered(sha: Sha, w: World, steps: seq<Step>)
    decreases |steps|
  {
    steps == [] || (!HitsDelivered(w, steps[0]) && NeverHitsDelivered(sha, Next(sha, w, steps[0]), steps[1..]))
  }

  ghost predicate AllForward(w: World, w': World) {
    forall i {:trigger Forward(w, w', i)} :: i in w.db.records ==> Forward(w, w', i)
  }

  ghost predicate AlwaysForward(sha: Sha, w: World, steps: seq<Step>)
    decreases |steps|
  {
    steps == [] || (AllForward(w, Next(sha, w, steps[0])) && AlwaysForward(sha, Next(sha, w, steps[0]), steps[1..]))
  }

  /** Every record is delivered exactly when its acknowledgement row exists. */
  ghost predicate Synced(t: Tables) {
    forall i {:trigger AckedIsDelivered(t, i)} :: i in t.records ==>
      (t.records[i].status == Delivered <==> HasAck(t, t.records[i].envelopeId, t.records[i].deviceId))
  }

  ghost predicate AlwaysSynced(sha: Sha, w: World, steps: seq<Step>)
    decreases |steps|
  {
    Synced(w.db) && (steps == [] || AlwaysSynced(sha, Next(sha, w, steps[0]), steps[1..]))
  }

  /** A write lowers the status of its row exactly when the row is no longer pending. */
  lemma StepForwardIff(sha: Sha, w: World, s: Step)
    requires DeliveryInv(w)
    ensures AllForward(w, Next(sha, w, s)) <==> !HitsStale(w, s)
  {
    if HitsStale(w, s) {
      var i := w.batches[s.work.worker][0];
      assert RecordOk(w, i);
      assert !Forward(w, Next(sha, w, s), i);
    } else {
      forall i: Uuid | i in w.db.records ensures Forward(w, Next(sha, w, s), i) {
        NextForward(sha, w, s, i);
      }
    }
  }

  lemma AcksOkIsSynced(w: World)
    requires DeliveryInv(w) && AcksOk(w)
    ensures Synced(w.db)
  {
    forall i: Uuid | i in w.db.records
      ensures w.db.records[i].status == Delivered
              <==> HasAck(w.db, w.db.records[i].envelopeId, w.db.records[i].deviceId)
    {
      assert RecordOk(w, i) && AckedIsDelivered(w.db, i);
    }
  }

  lemma StepSyncedIff(sha: Sha, w: World, s: Step)
    requires DeliveryInv(w) && AcksOk(w)
    ensures HitsDelivered(w, s) ==> !Synced(Next(sha, w, s).db)
    ensures !HitsDelivered(w, s) ==> AcksOk(Next(sha, w, s))
  {
    if HitsDelivered(w, s) {
      var i := w.batches[s.work.worker][0];
      var db := Next(sha, w, s).db;
      assert RecordOk(w, i);
      AcksPersist(w.db, db, w.db.records[i].envelopeId, w.db.records[i].deviceId) by {
        NextGrows(sha, w, s);
      }
      assert !AckedIsDelivered(db, i);
    } else {
      NextKeepsAcks(sha, w, s);
    }
  }

  /** Over every run: every step moves every status forward only, and none away from delivered, exactly when no write
      of the run reaches a row that is no longer pending. */
  lemma {:induction false} StatusesOnlyRiseIff(sha: Sha, w: World, steps: seq<Step>)
    requires DeliveryInv(w)
    ensures AlwaysForward(sha, w, steps) <==> NeverHitsStale(sha, w, steps)
    decreases |steps|
  {
    if steps != [] {
      StepForwardIff(sha, w, steps[0]);
      NextKeepsDelivery(sha, w, steps[0]);
      StatusesOnlyRiseIff(sha, Next(sha, w, steps[0]), steps[1..]);
    }
  }

  /** Over every run: delivered and acknowledged mean the same in every state exactly when no write of the run reaches a
      delivered row. */
  lemma {:induction false} SyncedIff(sha: Sha, w: World, steps: seq<Step>)
    requires DeliveryInv(w) && AcksOk(w)
    ensures AlwaysSynced(sha, w, steps) <==> NeverHitsDelivered(sha, w, steps)
    decreases |steps|
  {
    AcksOkIsSynced(w);
    if steps != [] {
      var w' := Next(sha, w, steps[0]);
      StepSyncedIff(sha, w, steps[0]);
      NextKeepsDelivery(sha, w, steps[0]);
      if HitsDelivered(w, steps[0]) {
        assert !AlwaysSynced(sha, w', steps[1..]);
      } else {
        SyncedIff(sha, w', steps[1..]);
      }
    }
  }

  lemma {:induction false} SyncedAtTheEnd(sha: Sha, w: World, steps: seq<Step>)
    requires AlwaysSynced(sha, w, steps)
    ensures Synced(Run(sha, w, steps).db)
    decreases |steps|
  {
    if steps != [] {
      SyncedAtTheEnd(sha, Next(sha, w, steps[0]), steps[1..]);
    }
  }

  /** From the empty tables: every record of every state is delivered just if it is acknowledged, exactly when no write
      of the run reaches a delivered row. */
  lemma DeliveredIffAcknowledged(sha: Sha, workers: set<Uuid>, now: Time, steps: seq<Step>)
    ensures var w := Start(workers, now);
            && (AlwaysSynced(sha, w, steps) <==> NeverHitsDelivered(sha, w, steps))
            && (NeverHitsDelivered(sha, w, steps) ==> Synced(Run(sha, w, steps).db))
  {
    var w := Start(workers, now);
    SyncedIff(sha, w, steps);
    if AlwaysSynced(sha, w, steps) {
      SyncedAtTheEnd(sha, w, steps);
    }
  }

  /** What a whole run does to one record. */
  lemma {:induction false} StatusOnlyRises(sha: Sha, w: World, steps: seq<Step>, i: Uuid)
    requires DeliveryInv(w) && NeverHitsStale(sha, w, steps) && i in w.db.records
    ensures Forward(w, Run(sha, w, steps), i)
    decreases |steps|
  {
    if steps != [] {
      NextKeepsDelivery(sha, w, steps[0]);
      NextForward(sha, w, steps[0], i);
      StatusOnlyRises(sha, Next(sha, w, steps[0]), steps[1..], i);
    }
  }

  ghost predicate AllAtomic(steps: seq<Step>) {
    forall k :: 0 <= k < |steps| ==> Atomic(steps[k])
  }

  /** Runs of uninterrupted passes meet both conditions. */
  lemma {:induction false} AtomicRunsAreClean(sha: Sha, w: World, steps: seq<Step>)
    requires AllAtomic(steps)
    ensures NeverHitsStale(sha, w, steps) && NeverHitsDelivered(sha, w, steps)
    decreases |steps|
  {
    if steps != [] {
      assert Atomic(steps[0]);
      AtomicRunsAreClean(sha, Next(sha, w, steps[0]), steps[1..]);
    }
  }

  // ---- A run that fails both ----

  /** An acknowledgement between the selection and the write is undone in the status column,
      so the delivered envelope is listed as pending again. */
  lemma StaleWriteReopensDelivered(sha: Sha, w: World, x: Uuid, rows: seq<Uuid>, ackId: Uuid)
    requires DeliveryInv(w) && MaySelect(w, x, rows) && rows != [] && ackId !in w.db.acks
    requires Selectable(w.db, rows[0], w.clock)
    ensures var r := w.db.records[rows[0]]; var user := w.db.envelopes[r.envelopeId].sent.recipientUser;
            var end := Next(sha, Next(sha, Next(sha, w, Work(Selects(x, rows))),
                                      Deliver(Acks(user, r.deviceId, r.envelopeId, ackId))),
                            Work(Writes(x)));
            && HasAck(end.db, r.envelopeId, r.deviceId)
            && ListedPending(end.db, user, r.deviceId, r.envelopeId, end.clock)
  {
    var i := rows[0];
    var r := w.db.records[i];
    var user := w.db.envelopes[r.envelopeId].sent.recipientUser;
    var w1 := Next(sha, w, Work(Selects(x, rows)));
    var w2 := Next(sha, w1, Deliver(Acks(user, r.deviceId, r.envelopeId, ackId)));
    assert MayAcknowledge(w1.db, user, r.deviceId, r.envelopeId, i);
    forall k: Uuid | MayAcknowledge(w1.db, user, r.deviceId, r.envelopeId, k) ensures k == i {
      assert SameTarget(w.db.records, i, k);
    }
    assert w2.db == MarkDelivered(w.db, i, ackId, w.clock);
    assert w2.batches[x] == rows;
    var w3 := Next(sha, w2, Work(Writes(x)));
    assert w3.db == WriteAttempt(w2.db, i, w.clock);
    assert IsRecord(w3.db.records, i, r.envelopeId, r.deviceId);
    assert ackId in w3.db.acks && w3.db.acks[ackId] == Ack(r.envelopeId, r.deviceId);
  }
}
