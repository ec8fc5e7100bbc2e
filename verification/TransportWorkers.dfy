/** Retry workers whose selections may be stale by the time they write. */
module TransportWorkers {
  import opened Common
  import opened TransportTables
  import opened TransportRuns
  import opened TransportSafety
  import C = StaleCounter

  ghost predicate BatchOk(w: World, x: Uuid)
    requires x in w.batches
  {
    NoDup(w.batches[x]) && forall i :: i in w.batches[x] ==> i in w.db.records
  }

  ghost predicate BatchesOk(w: World) {
    forall x {:trigger BatchOk(w, x)} :: x in w.batches ==> BatchOk(w, x)
  }

  lemma TailNoDup(rows: seq<Uuid>)
    requires NoDup(rows) && rows != []
    ensures NoDup(rows[1..]) && rows[0] !in rows[1..]
    ensures forall i :: i in rows <==> i == rows[0] || i in rows[1..]
  {
    assert rows == [rows[0]] + rows[1..];
  }

  lemma BatchStep(sha: Sha, w: World, s: Step, x: Uuid)
    requires x in w.batches && BatchOk(w, x) && x in Next(sha, w, s).batches
    ensures var rows := Next(sha, w, s).batches[x];
            NoDup(rows) && forall i :: i in rows ==> i in w.db.records
  {
    if s.Work? && s.work.Writes? && s.work.worker == x && w.batches[x] != [] {
      TailNoDup(w.batches[x]);
    }
  }

  lemma NextKeepsBatches(sha: Sha, w: World, s: Step)
    requires BatchesOk(w)
    ensures BatchesOk(Next(sha, w, s))
  {
    var w' := Next(sha, w, s);
    NextGrows(sha, w, s);
    NextKeepsClockAndWorkers(sha, w, s);
    forall x: Uuid | x in w'.batches ensures BatchOk(w', x) {
      assert BatchOk(w, x);
      BatchStep(sha, w, s, x);
    }
  }

  // ---- Attempts ----

  ghost function CounterOf(w: World, i: Uuid): C.Counter {
    C.Counter(if i in w.db.records then w.db.records[i].attempts else 0,
              (set x | x in w.batches && i in w.batches[x]),
              w.batches.Keys)
  }

  lemma SubmitKeepsCounter(sha: Sha, w: World, s: SubmitStep, i: Uuid)
    ensures CounterOf(NextSubmit(sha, w, s), i) == CounterOf(w, i)
  {
    if s.Commits? && MayCommit(w, s.req, s.ids) {
      var f := w.flights[s.req];
      if Commit(w.db, f.sub, sha(f.sub.payload), f.devices, s.ids, w.clock).Some? {
        InsertRecordsKeeps(w.db.records, s.ids.envelope, f.devices, s.ids.records);
      }
    }
  }

  /** Selecting is the check, writing is the increment. */
  lemma WorkRefinesCounter(w: World, s: WorkerStep, i: Uuid)
    requires BatchesOk(w) && !s.RunsPass?
    ensures C.Next(CounterOf(w, i), CounterOf(NextWork(w, s), i), MAX_ATTEMPTS)
  {
    var c, d := CounterOf(w, i), CounterOf(NextWork(w, s), i);
    var x := s.worker;
    assert x in w.batches ==> BatchOk(w, x);
    match s
    case Selects(_, rows) =>
      if MaySelect(w, x, rows) && i in rows {
        assert Selectable(w.db, i, w.clock);
        assert d.holders == c.holders + {x};
        assert C.Checks(c, d, MAX_ATTEMPTS, x);
      } else {
        assert d.holders == c.holders;
      }
    case Writes(_) =>
      if MayWrite(w, x) {
        TailNoDup(w.batches[x]);
        if w.batches[x][0] == i {
          assert d.holders == c.holders - {x};
          assert C.Increments(c, d, x);
        } else {
          assert d.holders == c.holders;
        }
      }
    case Crashes(_) =>
      assert d.holders == c.holders - {x};
      assert C.GivesUp(c, d, x);
  }

  lemma {:induction false} WriteAllAttempts(t: Tables, rows: seq<Uuid>, now: Time, i: Uuid)
    requires NoDup(rows) && i in t.records
    ensures i in WriteAll(t, rows, now).records
    ensures WriteAll(t, rows, now).records[i].attempts == t.records[i].attempts + if i in rows then 1 else 0
    decreases |rows|
  {
    if rows != [] {
      TailNoDup(rows);
      WriteAllAttempts(WriteAttempt(t, rows[0], now), rows[1..], now, i);
    }
  }

  /** An uninterrupted pass is a check and an increment of every row it selected. */
  lemma PassRefinesCounter(w: World, x: Uuid, rows: seq<Uuid>, i: Uuid) returns (m: C.Counter)
    requires MaySelect(w, x, rows) && i in rows
    ensures C.Next(CounterOf(w, i), m, MAX_ATTEMPTS)
    ensures C.Next(m, CounterOf(NextWork(w, RunsPass(x, rows)), i), MAX_ATTEMPTS)
  {
    var c, d := CounterOf(w, i), CounterOf(NextWork(w, RunsPass(x, rows)), i);
    assert Selectable(w.db, i, w.clock);
    WriteAllAttempts(w.db, rows, w.clock, i);
    m := c.(holders := c.holders + {x});
    assert C.Checks(c, m, MAX_ATTEMPTS, x);
    assert d.holders == c.holders == m.holders - {x};
    assert C.Increments(m, d, x);
  }

  lemma EnvKeepsCounter(w: World, s: EnvStep, i: Uuid)
    ensures CounterOf(NextEnv(w, s), i) == CounterOf(w, i)
  {}

  lemma OthersKeepCounter(sha: Sha, w: World, s: Step, i: Uuid)
    requires !s.Work?
    ensures CounterOf(Next(sha, w, s), i) == CounterOf(w, i)
  {
    match s
    case Env(e) => EnvKeepsCounter(w, e, i);
    case Submit(e) => SubmitKeepsCounter(sha, w, e, i);
    case Deliver(e) =>
  }

  lemma WorkKeepsAttemptBound(w: World, s: WorkerStep, i: Uuid)
    requires BatchesOk(w) && C.Bounded(CounterOf(w, i), MAX_ATTEMPTS)
    ensures C.Bounded(CounterOf(NextWork(w, s), i), MAX_ATTEMPTS)
  {
    var c, d := CounterOf(w, i), CounterOf(NextWork(w, s), i);
    if !s.RunsPass? {
      WorkRefinesCounter(w, s, i);
      C.NextKeepsBound(c, d, MAX_ATTEMPTS);
    } else if MaySelect(w, s.worker, s.rows) {
      if i in s.rows {
        var m := PassRefinesCounter(w, s.worker, s.rows, i);
        C.NextKeepsBound(c, m, MAX_ATTEMPTS);
        C.NextKeepsBound(m, d, MAX_ATTEMPTS);
      } else {
        WriteAllGrows(w.db, s.rows, w.clock);
        if i in w.db.records { WriteAllRows(w.db, s.rows, w.clock, i); }
      }
    }
  }

  lemma NextKeepsAttemptBound(sha: Sha, w: World, s: Step, i: Uuid)
    requires BatchesOk(w) && C.Bounded(CounterOf(w, i), MAX_ATTEMPTS)
    ensures C.Bounded(CounterOf(Next(sha, w, s), i), MAX_ATTEMPTS)
  {
    if s.Work? {
      WorkKeepsAttemptBound(w, s.work, i);
    } else {
      OthersKeepCounter(sha, w, s, i);
    }
  }

  lemma {:induction false} RunKeepsAttemptBound(sha: Sha, w: World, steps: seq<Step>, i: Uuid)
    requires BatchesOk(w) && C.Bounded(CounterOf(w, i), MAX_ATTEMPTS)
    ensures BatchesOk(Run(sha, w, steps)) && C.Bounded(CounterOf(Run(sha, w, steps), i), MAX_ATTEMPTS)
    decreases |steps|
  {
    if steps != [] {
      NextKeepsBatches(sha, w, steps[0]);
      NextKeepsAttemptBound(sha, w, steps[0], i);
      RunKeepsAttemptBound(sha, Next(sha, w, steps[0]), steps[1..], i);
    }
  }

  /** With k workers, however their selections and writes interleave, a row is attempted at most 4 + k times. */
  lemma AttemptsBounded(sha: Sha, workers: set<Uuid>, now: Time, steps: seq<Step>, i: Uuid)
    requires i in Run(sha, Start(workers, now), steps).db.records
    ensures Run(sha, Start(workers, now), steps).db.records[i].attempts <= 4 + |workers|
  {
    var w := Start(workers, now);
    assert CounterOf(w, i).holders == {};
    assert w.batches.Keys == workers;
    RunKeepsAttemptBound(sha, w, steps, i);
    RunGrows(sha, w, steps);
  }

  // ---- The bound is attained ----

  function SelectEach(workers: seq<Uuid>, i: Uuid): seq<Step> {
    seq(|workers|, k requires 0 <= k < |workers| => Work(Selects(workers[k], [i])))
  }

  function WriteEach(workers: seq<Uuid>): seq<Step> {
    seq(|workers|, k requires 0 <= k < |workers| => Work(Writes(workers[k])))
  }

  lemma {:induction false} EachSelects(sha: Sha, w: World, workers: seq<Uuid>, i: Uuid)
    requires NoDup(workers) && IsBatch(w.db, [i], w.clock)
    requires forall x :: x in workers ==> x in w.batches && w.batches[x] == []
    ensures var w' := Run(sha, w, SelectEach(workers, i));
            && w'.db == w.db && w'.clock == w.clock && w'.batches.Keys == w.batches.Keys
            && forall x :: x in w.batches ==> w'.batches[x] == if x in workers then [i] else w.batches[x]
    decreases |workers|
  {
    if workers != [] {
      TailNoDup(workers);
      var s := SelectEach(workers, i);
      assert s[1..] == SelectEach(workers[1..], i);
      EachSelects(sha, Next(sha, w, s[0]), workers[1..], i);
    }
  }

  lemma {:induction false} EachWrites(sha: Sha, w: World, workers: seq<Uuid>, i: Uuid)
    requires NoDup(workers) && i in w.db.records
    requires forall x :: x in workers ==> x in w.batches && w.batches[x] == [i]
    ensures var w' := Run(sha, w, WriteEach(workers));
            i in w'.db.records && w'.db.records[i].attempts == w.db.records[i].attempts + |workers|
    decreases |workers|
  {
    if workers != [] {
      TailNoDup(workers);
      var s := WriteEach(workers);
      assert s[1..] == WriteEach(workers[1..]);
      EachWrites(sha, Next(sha, w, s[0]), workers[1..], i);
    }
  }

  /** From any state where one row is selectable with four attempts and the workers are idle, all of them selecting
      before any writes takes the row to exactly 4 + k. */
  lemma RaceTakesAll(sha: Sha, w: World, workers: seq<Uuid>, i: Uuid)
    requires NoDup(workers) && Selectable(w.db, i, w.clock) && w.db.records[i].attempts == 4
    requires IsBatch(w.db, [i], w.clock)
    requires forall x :: x in workers ==> x in w.batches && w.batches[x] == []
    ensures var w' := Run(sha, Run(sha, w, SelectEach(workers, i)), WriteEach(workers));
            i in w'.db.records && w'.db.records[i].attempts == 4 + |workers|
  {
    EachSelects(sha, w, workers, i);
    EachWrites(sha, Run(sha, w, SelectEach(workers, i)), workers, i);
  }
}
