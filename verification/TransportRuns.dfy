/** Runs of the transport: submissions, acknowledgements, expiry and any number of retry workers, interleaved
    anywhere between their statements. The clock never goes back. */
module TransportRuns {
  import opened Common
  import opened TransportTables

  /** Where a submission stands between two of its statements. */
  datatype Flight =
    | Checked(sub: Submission)
    | Missed(sub: Submission)
    | Resolved(sub: Submission, devices: seq<Uuid>)

  /** `batches` holds, for each worker, the rows it has selected and not yet written;
      `fanout` remembers the devices each accepted envelope was resolved to. */
  datatype World = World(db: Tables, clock: Time, flights: map<Uuid, Flight>,
                         batches: map<Uuid, seq<Uuid>>, fanout: map<Uuid, set<Uuid>>)

  /** What the rest of the system does to the tables the transport reads, and the passing of time. */
  datatype EnvStep =
    | Waits(pause: nat)
    | AddsUser(user: Uuid)
    | AddsDevice(device: Uuid, user: Uuid)
    | RevokesDevice(device: Uuid)
    | AddsMember(conversation: Uuid, user: Uuid)

  datatype SubmitStep =
    | Submits(req: Uuid, sub: Submission)
    | LooksUp(req: Uuid)
    | Resolves(req: Uuid, devices: seq<Uuid>)
    | Commits(req: Uuid, ids: CommitIds)
    | Abandons(req: Uuid)

  datatype DeliveryStep =
    | Acks(user: Uuid, device: Uuid, envelope: Uuid, ackId: Uuid)
    | Expires

  /** A pass is a selection and the writes that follow it; RunsPass is a pass nothing interrupts. */
  datatype WorkerStep =
    | Selects(worker: Uuid, rows: seq<Uuid>)
    | Writes(worker: Uuid)
    | Crashes(worker: Uuid)
    | RunsPass(worker: Uuid, rows: seq<Uuid>)

  datatype Step =
    | Env(env: EnvStep)
    | Submit(submit: SubmitStep)
    | Deliver(deliver: DeliveryStep)
    | Work(work: WorkerStep)

  type Sha = Payload -> Digest

  function Start(workers: set<Uuid>, now: Time): World {
    World(EMPTY, now, map[], map x | x in workers :: [], map[])
  }

  ghost predicate MaySelect(w: World, worker: Uuid, rows: seq<Uuid>) {
    worker in w.batches && w.batches[worker] == [] && IsBatch(w.db, rows, w.clock)
  }

  ghost predicate MayWrite(w: World, worker: Uuid) {
    worker in w.batches && w.batches[worker] != []
  }

  ghost function AfterLookup(w: World, sha: Sha, req: Uuid, sub: Submission): World {
    if LookUp(w.db, sub.senderDevice, sub.key, sha(sub.payload)).Miss?
    then w.(flights := w.flights[req := Missed(sub)])
    else w.(flights := w.flights - {req})
  }

  predicate MayCommit(w: World, req: Uuid, ids: CommitIds) {
    req in w.flights && w.flights[req].Resolved? && |ids.records| == |w.flights[req].devices|
  }

  ghost function AfterCommit(w: World, sha: Sha, req: Uuid, ids: CommitIds): World
    requires MayCommit(w, req, ids)
  {
    var f := w.flights[req];
    match Commit(w.db, f.sub, sha(f.sub.payload), f.devices, ids, w.clock)
    case None => w.(flights := w.flights - {req})
    case Some(db) => w.(db := db, flights := w.flights - {req},
                        fanout := w.fanout[ids.envelope := set d | d in f.devices])
  }

  // A step that is not enabled changes nothing, so every sequence of steps is a run.

  function NextEnv(w: World, s: EnvStep): World {
    match s
    case Waits(pause) => w.(clock := w.clock + pause)
    case AddsUser(u) => w.(db := w.db.(users := w.db.users + {u}))
    case AddsDevice(d, u) =>
      if d in w.db.devices then w else w.(db := w.db.(devices := w.db.devices[d := Device(u, false)]))
    case RevokesDevice(d) =>
      if d !in w.db.devices then w
      else w.(db := w.db.(devices := w.db.devices[d := w.db.devices[d].(isRevoked := true)]))
    case AddsMember(c, u) => w.(db := w.db.(members := w.db.members + {(c, u)}))
  }

  ghost function NextSubmit(sha: Sha, w: World, s: SubmitStep): World {
    match s
    case Submits(req, sub) =>
      if req in w.flights || Authorize(w.db, sub).Some? then w else w.(flights := w.flights[req := Checked(sub)])
    case LooksUp(req) =>
      if req in w.flights && w.flights[req].Checked? then AfterLookup(w, sha, req, w.flights[req].sub) else w
    case Resolves(req, devices) =>
      if req in w.flights && w.flights[req].Missed?
         && Lists(devices, ActiveDevices(w.db, w.flights[req].sub.recipientUser))
      then w.(flights := w.flights[req := Resolved(w.flights[req].sub, devices)]) else w
    case Commits(req, ids) => if MayCommit(w, req, ids) then AfterCommit(w, sha, req, ids) else w
    case Abandons(req) => w.(flights := w.flights - {req})
  }

  ghost function NextDeliver(w: World, s: DeliveryStep): World {
    match s
    case Acks(u, d, e, ackId) =>
      (match Acknowledge(w.db, u, d, e, ackId, w.clock)
       case None => w
       case Some(db) => w.(db := db))
    case Expires => w.(db := ExpireDue(w.db, w.clock))
  }

  ghost function NextWork(w: World, s: WorkerStep): World {
    match s
    case Selects(x, rows) => if MaySelect(w, x, rows) then w.(batches := w.batches[x := rows]) else w
    case Writes(x) =>
      if MayWrite(w, x)
      then w.(db := WriteAttempt(w.db, w.batches[x][0], w.clock), batches := w.batches[x := w.batches[x][1..]])
      else w
    case Crashes(x) => if x in w.batches then w.(batches := w.batches[x := []]) else w
    case RunsPass(x, rows) => if MaySelect(w, x, rows) then w.(db := WriteAll(w.db, rows, w.clock)) else w
  }

  ghost function Next(sha: Sha, w: World, s: Step): World {
    match s
    case Env(e) => NextEnv(w, e)
    case Submit(e) => NextSubmit(sha, w, e)
    case Deliver(e) => NextDeliver(w, e)
    case Work(e) => NextWork(w, e)
  }

  ghost function Run(sha: Sha, w: World, steps: seq<Step>): World
    decreases |steps|
  {
    if steps == [] then w else Run(sha, Next(sha, w, steps[0]), steps[1..])
  }

  // ---- Rows only change in their delivery columns ----

  /** What any step may do to the records that were there. */
  ghost predicate Evolves(a: map<Uuid, Record>, b: map<Uuid, Record>) {
    forall i :: i in a ==> i in b && b[i].envelopeId == a[i].envelopeId && b[i].deviceId == a[i].deviceId
  }

  /** Envelopes, key rows and acknowledgements are never altered or deleted. */
  ghost predicate Grows(a: Tables, b: Tables) {
    && (forall i :: i in a.envelopes ==> i in b.envelopes && b.envelopes[i] == a.envelopes[i])
    && (forall i :: i in a.keys ==> i in b.keys && b.keys[i] == a.keys[i])
    && (forall i :: i in a.acks ==> i in b.acks && b.acks[i] == a.acks[i])
    && (forall i :: i in a.devices ==> i in b.devices && b.devices[i].userId == a.devices[i].userId)
    && Evolves(a.records, b.records)
  }

  lemma {:induction false} WriteAllGrows(t: Tables, rows: seq<Uuid>, now: Time)
    ensures Grows(t, WriteAll(t, rows, now))
    ensures WriteAll(t, rows, now) == t.(records := WriteAll(t, rows, now).records)
    ensures WriteAll(t, rows, now).records.Keys == t.records.Keys
    decreases |rows|
  {
    if rows != [] {
      WriteAllGrows(WriteAttempt(t, rows[0], now), rows[1..], now);
    }
  }

  lemma {:induction false} InsertRecordsKeeps(records: map<Uuid, Record>, envelope: Uuid, devices: seq<Uuid>,
                                              ids: seq<Uuid>)
    requires |devices| == |ids| && InsertRecords(records, envelope, devices, ids).Some?
    ensures var after := InsertRecords(records, envelope, devices, ids).value;
            && (forall i :: i in records ==> i in after && after[i] == records[i])
            && (forall i :: i in after && i !in records ==>
                  && after[i].envelopeId == envelope && after[i].deviceId in devices
                  && after[i] == NewRecord(envelope, after[i].deviceId))
            && (forall d :: d in devices ==> HasRecord(after, envelope, d))
    decreases |devices|
  {
    if devices != [] {
      var r1 := records[ids[0] := NewRecord(envelope, devices[0])];
      InsertRecordsKeeps(r1, envelope, devices[1..], ids[1..]);
      var after := InsertRecords(records, envelope, devices, ids).value;
      assert IsRecord(after, ids[0], envelope, devices[0]);
    }
  }

  lemma CommitGrows(t: Tables, s: Submission, digest: Digest, devices: seq<Uuid>, ids: CommitIds, now: Time)
    requires |devices| == |ids.records| && Commit(t, s, digest, devices, ids, now).Some?
    ensures Grows(t, Commit(t, s, digest, devices, ids, now).value)
  {
    InsertRecordsKeeps(t.records, ids.envelope, devices, ids.records);
  }

  lemma EnvGrows(w: World, s: EnvStep)
    ensures Grows(w.db, NextEnv(w, s).db)
  {}

  lemma SubmitGrows(sha: Sha, w: World, s: SubmitStep)
    ensures Grows(w.db, NextSubmit(sha, w, s).db)
  {
    if s.Commits? && MayCommit(w, s.req, s.ids) {
      var f := w.flights[s.req];
      if Commit(w.db, f.sub, sha(f.sub.payload), f.devices, s.ids, w.clock).Some? {
        CommitGrows(w.db, f.sub, sha(f.sub.payload), f.devices, s.ids, w.clock);
      }
    }
  }

  lemma AcknowledgeGrows(t: Tables, user: Uuid, device: Uuid, envelope: Uuid, ackId: Uuid, now: Time)
    requires Acknowledge(t, user, device, envelope, ackId, now).Some?
    ensures Grows(t, Acknowledge(t, user, device, envelope, ackId, now).value)
  {}

  lemma DeliverGrows(w: World, s: DeliveryStep)
    ensures Grows(w.db, NextDeliver(w, s).db)
  {
    if s.Acks? && Acknowledge(w.db, s.user, s.device, s.envelope, s.ackId, w.clock).Some? {
      AcknowledgeGrows(w.db, s.user, s.device, s.envelope, s.ackId, w.clock);
    }
  }

  lemma WorkGrows(w: World, s: WorkerStep)
    ensures Grows(w.db, NextWork(w, s).db)
  {
    if s.RunsPass? {
      WriteAllGrows(w.db, s.rows, w.clock);
    }
  }

  lemma NextGrows(sha: Sha, w: World, s: Step)
    ensures Grows(w.db, Next(sha, w, s).db)
  {
    match s
    case Env(e) => EnvGrows(w, e);
    case Submit(e) => SubmitGrows(sha, w, e);
    case Deliver(e) => DeliverGrows(w, e);
    case Work(e) => WorkGrows(w, e);
  }

  lemma NextKeepsClockAndWorkers(sha: Sha, w: World, s: Step)
    ensures w.clock <= Next(sha, w, s).clock
    ensures Next(sha, w, s).batches.Keys == w.batches.Keys
  {}

  lemma {:induction false} RunGrows(sha: Sha, w: World, steps: seq<Step>)
    ensures Grows(w.db, Run(sha, w, steps).db) && w.clock <= Run(sha, w, steps).clock
    ensures Run(sha, w, steps).batches.Keys == w.batches.Keys
    decreases |steps|
  {
    if steps != [] {
      NextGrows(sha, w, steps[0]);
      NextKeepsClockAndWorkers(sha, w, steps[0]);
      RunGrows(sha, Next(sha, w, steps[0]), steps[1..]);
    }
  }
}
