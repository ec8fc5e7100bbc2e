/** Runs from the empty tables: one that accepts an envelope for nobody, and one that attains the attempt bound. */
module TransportExamples {
  import opened Common
  import opened TransportTables
  import opened TransportRuns
  import opened TransportSafety
  import opened TransportWorkers
  import opened TransportFanout
  import opened TransportStatus

  lemma {:induction false} RunConcat(sha: Sha, w: World, a: seq<Step>, b: seq<Step>)
    ensures Run(sha, w, a + b) == Run(sha, Run(sha, w, a), b)
    decreases |a|
  {
    if a == [] {
      assert a + b == b;
    } else {
      assert (a + b)[1..] == a[1..] + b;
      RunConcat(sha, Next(sha, w, a[0]), a[1..], b);
    }
  }

  lemma Extend(sha: Sha, w: World, steps: seq<Step>, s: Step)
    ensures Run(sha, w, steps + [s]) == Next(sha, Run(sha, w, steps), s)
  {
    RunConcat(sha, w, steps, [s]);
  }

  // ---- One envelope from user 0's only device, to themselves or to user 1, who has none ----

  function TheSubmission(recipient: Uuid, now: Time): Submission {
    Submission(0, 0, 0, recipient, 0, 1, [], now, now + SECOND)
  }

  function Prepared(workers: set<Uuid>, now: Time, recipient: Uuid): World {
    var w := Start(workers, now);
    w.(db := EMPTY.(users := {recipient}, devices := map[0 := Device(0, false)], members := {(0, 0)}))
  }

  lemma Prepare(sha: Sha, workers: set<Uuid>, now: Time, recipient: Uuid) returns (steps: seq<Step>)
    ensures Run(sha, Start(workers, now), steps) == Prepared(workers, now, recipient)
  {
    var w := Start(workers, now);
    var s1, s2, s3 := Env(AddsUser(recipient)), Env(AddsDevice(0, 0)), Env(AddsMember(0, 0));
    Extend(sha, w, [s1], s2);
    Extend(sha, w, [s1] + [s2], s3);
    steps := [s1] + [s2] + [s3];
    var db := Run(sha, w, steps).db;
    assert db.users == {recipient} && db.devices == map[0 := Device(0, false)] && db.members == {(0, 0)};
  }

  function DevicesOf(recipient: Uuid): seq<Uuid> {
    if recipient == 0 then [0] else []
  }

  /** The submission has looked its key up. */
  function Missing(workers: set<Uuid>, now: Time, recipient: Uuid): World {
    Prepared(workers, now, recipient).(flights := map[0 := Missed(TheSubmission(recipient, now))])
  }

  lemma SubmitAndLookUp(sha: Sha, workers: set<Uuid>, now: Time, recipient: Uuid) returns (steps: seq<Step>)
    ensures Run(sha, Start(workers, now), steps) == Missing(workers, now, recipient)
    ensures MayResolve(Missing(workers, now, recipient), 0, DevicesOf(recipient))
  {
    var w, sub := Start(workers, now), TheSubmission(recipient, now);
    var before := Prepare(sha, workers, now, recipient);
    var s4, s5 := Submit(Submits(0, sub)), Submit(LooksUp(0));
    Extend(sha, w, before, s4);
    Extend(sha, w, before + [s4], s5);
    steps := before + [s4] + [s5];
    assert Run(sha, w, steps).flights == map[0 := Missed(sub)];
    assert ActiveDevices(Prepared(workers, now, recipient).db, recipient) == if recipient == 0 then {0} else {};
  }

  function TheIds(recipient: Uuid): CommitIds {
    CommitIds(0, 0, DevicesOf(recipient))
  }

  /** An envelope for a user without an active device is accepted, has no record, and is never listed to anyone. */
  lemma EnvelopeForNobody(sha: Sha, workers: set<Uuid>, now: Time, later: seq<Step>) returns (steps: seq<Step>)
    ensures var w := Run(sha, Run(sha, Start(workers, now), steps), later);
            && 0 in w.db.envelopes && w.db.envelopes[0].sent == TheSubmission(1, now) && !AnyRecord(w.db, 0)
            && (forall user, d :: !ListedPending(w.db, user, d, 0, w.clock))
  {
    var w := Missing(workers, now, 1);
    var before := SubmitAndLookUp(sha, workers, now, 1);
    RunKeepsDelivery(sha, Start(workers, now), before);
    var s6, s7 := Submit(Resolves(0, [])), Submit(Commits(0, TheIds(1)));
    var w1 := Next(sha, w, s6);
    assert Run(sha, w1, []) == w1;
    RecordsAreResolvedDevices(sha, w, 0, [], [], TheIds(1), later);
    Extend(sha, Start(workers, now), before, s6);
    Extend(sha, Start(workers, now), before + [s6], s7);
    steps := before + [s6] + [s7];
    assert ActiveDevices(w.db, 1) == {};
  }

  // ---- The attempt bound ----

  /** One record, attempted n times, and idle workers. */
  ghost predicate Attempted(w: World, workers: set<Uuid>, n: int) {
    && w.batches.Keys == workers && (forall x :: x in workers ==> w.batches[x] == [])
    && w.db.records.Keys == {0} && Selectable(w.db, 0, w.clock) && w.db.records[0].attempts == n
  }

  lemma OneRecord(sha: Sha, workers: set<Uuid>, now: Time)
    ensures exists steps :: Attempted(Run(sha, Start(workers, now), steps), workers, 0)
  {
    var start, w := Start(workers, now), Missing(workers, now, 0);
    var before := SubmitAndLookUp(sha, workers, now, 0);
    var s6, s7 := Submit(Resolves(0, [0])), Submit(Commits(0, TheIds(0)));
    Extend(sha, start, before, s6);
    Extend(sha, start, before + [s6], s7);
    assert w.batches.Keys == workers;
    assert Attempted(Run(sha, start, before + [s6] + [s7]), workers, 0);
  }

  lemma OnePass(sha: Sha, w: World, workers: set<Uuid>, x: Uuid, n: int)
    requires Attempted(w, workers, n) && n < MAX_ATTEMPTS - 1 && x in workers
    ensures Attempted(Next(sha, w, Work(RunsPass(x, [0]))), workers, n + 1)
  {
    var t := WriteAttempt(w.db, 0, w.clock);
    assert [0][1..] == [];
    assert WriteAll(w.db, [0], w.clock) == WriteAll(t, [], w.clock) == t;
  }

  lemma {:induction false} PassesReach(sha: Sha, workers: set<Uuid>, now: Time, x: Uuid, n: nat)
    requires n < MAX_ATTEMPTS && x in workers
    ensures exists steps :: Attempted(Run(sha, Start(workers, now), steps), workers, n)
    decreases n
  {
    if n == 0 {
      OneRecord(sha, workers, now);
    } else {
      var start, pass := Start(workers, now), Work(RunsPass(x, [0]));
      PassesReach(sha, workers, now, x, n - 1);
      var before :| Attempted(Run(sha, start, before), workers, n - 1);
      OnePass(sha, Run(sha, start, before), workers, x, n - 1);
      Extend(sha, start, before, pass);
      assert Attempted(Run(sha, start, before + [pass]), workers, n);
    }
  }

  lemma {:induction false} Listing(s: set<Uuid>) returns (rows: seq<Uuid>)
    ensures Lists(rows, s) && |rows| == |s|
  {
    if s == {} {
      rows := [];
    } else {
      var x :| x in s;
      var rest := Listing(s - {x});
      rows := rest + [x];
    }
  }

  /** The bound of 4 + k is attained from the empty tables, for every non-empty set of workers. */
  lemma AttemptBoundAttained(sha: Sha, workers: set<Uuid>, now: Time) returns (steps: seq<Step>)
    requires workers != {}
    ensures var w := Run(sha, Start(workers, now), steps);
            0 in w.db.records && w.db.records[0].attempts == 4 + |workers|
  {
    var x :| x in workers;
    var n := MAX_ATTEMPTS - 1;
    PassesReach(sha, workers, now, x, n);
    var before :| Attempted(Run(sha, Start(workers, now), before), workers, n);
    var w := Run(sha, Start(workers, now), before);
    var rows := Listing(workers);
    RaceTakesAll(sha, w, rows, 0);
    RunConcat(sha, Start(workers, now), before, SelectEach(rows, 0));
    RunConcat(sha, Start(workers, now), before + SelectEach(rows, 0), WriteEach(rows));
    steps := before + SelectEach(rows, 0) + WriteEach(rows);
  }

  // ---- A stale write ----

  lemma NotSynced(sha: Sha, workers: set<Uuid>, now: Time, steps: seq<Step>, user: Uuid, device: Uuid, envelope: Uuid)
    requires var w := Run(sha, Start(workers, now), steps);
             HasAck(w.db, envelope, device) && ListedPending(w.db, user, device, envelope, w.clock)
    ensures !NeverHitsDelivered(sha, Start(workers, now), steps)
  {
    var t := Run(sha, Start(workers, now), steps).db;
    var i :| IsRecord(t.records, i, envelope, device) && Pending(t.records[i].status);
    assert !AckedIsDelivered(t, i);
    DeliveredIffAcknowledged(sha, workers, now, steps);
  }

  /** A run from the empty tables that ends with an acknowledged envelope listed as pending. */
  lemma StaleWriteReached(sha: Sha, workers: set<Uuid>, now: Time)
    returns (steps: seq<Step>, user: Uuid, device: Uuid, envelope: Uuid)
    requires workers != {}
    ensures var w := Run(sha, Start(workers, now), steps);
            && HasAck(w.db, envelope, device) && ListedPending(w.db, user, device, envelope, w.clock)
            && !NeverHitsDelivered(sha, Start(workers, now), steps)
  {
    var x :| x in workers;
    var start := Start(workers, now);
    OneRecord(sha, workers, now);
    var before :| Attempted(Run(sha, start, before), workers, 0);
    var w := Run(sha, start, before);
    RunKeepsDelivery(sha, start, before);
    var r := w.db.records[0];
    envelope, device, user := r.envelopeId, r.deviceId, w.db.envelopes[r.envelopeId].sent.recipientUser;
    var ackId := FreshNumber(w.db.acks.Keys);
    StaleWriteReopensDelivered(sha, w, x, [0], ackId);
    var s1, s2, s3 := Work(Selects(x, [0])), Deliver(Acks(user, device, envelope, ackId)), Work(Writes(x));
    Extend(sha, start, before, s1);
    Extend(sha, start, before + [s1], s2);
    Extend(sha, start, before + [s1] + [s2], s3);
    steps := before + [s1] + [s2] + [s3];
    NotSynced(sha, workers, now, steps, user, device, envelope);
  }

  // ---- A retry for somebody else ----

  /** Once an envelope is stored, a submission under the same sender device and key with the same payload is answered
      with it in every later state, whatever recipient and conversation it names. */
  lemma RetryIgnoresRecipient(sha: Sha, w: World, envelope: Uuid, later: seq<Step>, recipient: Uuid, conversation: Uuid)
    requires KeysInv(sha, w.db) && envelope in w.db.envelopes
    ensures var end := Run(sha, w, later); var sent := w.db.envelopes[envelope].sent;
            var retry := sent.(recipientUser := recipient, conversation := conversation);
            && LookUp(end.db, retry.senderDevice, retry.key, sha(retry.payload)) == Retry(envelope)
            && envelope in end.db.envelopes && end.db.envelopes[envelope].sent == sent
  {
    RetriesFindTheEnvelope(sha, w, envelope, later, sha(w.db.envelopes[envelope].sent.payload));
    RunGrows(sha, w, later);
  }
}
