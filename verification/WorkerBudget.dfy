/** How many passes of a single worker can find anything to do. */
module WorkerBudget {
  import opened Common
  import opened TransportTables
  import opened TransportRuns
  import opened TransportSafety
  import opened TransportWorkers

  /** No new envelope is committed. Acknowledgements, expiry, the passing of time and unfinished submissions may happen
      anywhere, inside passes too, and a pass may be cut short by an error. An uninterrupted pass appears as its
      selection and its writes. */
  predicate Quiet(s: Step) {
    && !(s.Submit? && s.submit.Commits?)
    && !(s.Work? && s.work.RunsPass?)
  }

  ghost predicate AllQuiet(steps: seq<Step>) {
    forall k :: 0 <= k < |steps| ==> Quiet(steps[k])
  }

  ghost predicate FindsWork(w: World, me: Uuid, s: Step) {
    s.Work? && s.work.Selects? && s.work.worker == me && s.work.rows != [] && MaySelect(w, me, s.work.rows)
  }

  ghost function Passes(sha: Sha, w: World, me: Uuid, steps: seq<Step>): nat
    decreases |steps|
  {
    if steps == [] then 0
    else (if FindsWork(w, me, steps[0]) then 1 else 0) + Passes(sha, Next(sha, w, steps[0]), me, steps[1..])
  }

  /** An error leaves some of the selected rows unwritten. */
  ghost predicate CutsShort(w: World, me: Uuid, s: Step) {
    s.Work? && s.work.Crashes? && s.work.worker == me && MayWrite(w, me)
  }

  ghost function Errors(sha: Sha, w: World, me: Uuid, steps: seq<Step>): nat
    decreases |steps|
  {
    if steps == [] then 0
    else (if CutsShort(w, me, steps[0]) then 1 else 0) + Errors(sha, Next(sha, w, steps[0]), me, steps[1..])
  }

  /** The worker is alone. */
  ghost predicate Alone(w: World, me: Uuid) {
    w.batches.Keys == {me} && BatchesOk(w)
  }

  // ---- How often a row can still be selected ----

  /** Whether the rows selected and not yet written count as written, or as given back. */
  datatype Held = Spent | GivenBack

  ghost predicate Due(w: World, r: Record) {
    && Pending(r.status) && r.envelopeId in w.db.envelopes
    && w.clock < w.db.envelopes[r.envelopeId].sent.expiresAt
  }

  ghost function Left(w: World, me: Uuid, i: Uuid, h: Held): nat
    requires me in w.batches
  {
    if i !in w.db.records then 0
    else
      var r := w.db.records[i];
      var held := i in w.batches[me];
      if !held && !Due(w, r) then 0
      else
        var n := MAX_ATTEMPTS - r.attempts - if held && h.Spent? then 1 else 0;
        if n < 0 then 0 else n
  }

  lemma DeliverLeft(w: World, me: Uuid, s: DeliveryStep, i: Uuid, h: Held)
    requires me in w.batches
    ensures me in NextDeliver(w, s).batches && Left(NextDeliver(w, s), me, i, h) <= Left(w, me, i, h)
  {}

  lemma WorkLeft(w: World, me: Uuid, s: WorkerStep, i: Uuid, h: Held)
    requires Alone(w, me) && Quiet(Work(s)) && !CutsShort(w, me, Work(s))
    ensures me in NextWork(w, s).batches && Left(NextWork(w, s), me, i, h) <= Left(w, me, i, h)
    ensures FindsWork(w, me, Work(s)) && i in s.rows && h.Spent? ==>
              1 <= Left(w, me, i, h) && Left(NextWork(w, s), me, i, h) == Left(w, me, i, h) - 1
  {
    assert BatchOk(w, me);
    if s.Writes? && MayWrite(w, me) {
      TailNoDup(w.batches[me]);
    }
    if s.Selects? && MaySelect(w, s.worker, s.rows) && i in s.rows {
      assert Selectable(w.db, i, w.clock);
    }
  }

  lemma NextLeft(sha: Sha, w: World, me: Uuid, s: Step, i: Uuid, h: Held)
    requires Alone(w, me) && Quiet(s) && !CutsShort(w, me, s)
    ensures me in Next(sha, w, s).batches && Left(Next(sha, w, s), me, i, h) <= Left(w, me, i, h)
    ensures FindsWork(w, me, s) && i in s.work.rows && h.Spent? ==>
              1 <= Left(w, me, i, h) && Left(Next(sha, w, s), me, i, h) == Left(w, me, i, h) - 1
  {
    match s
    case Env(e) => EnvKeepsRows(w, e);
    case Submit(e) =>
    case Deliver(e) => DeliverLeft(w, me, e, i, h);
    case Work(e) => WorkLeft(w, me, e, i, h);
  }

  /** After an error the rows really are given back. */
  lemma ErrorGivesBack(w: World, me: Uuid, i: Uuid, h: Held)
    requires me in w.batches
    ensures Left(NextWork(w, Crashes(me)), me, i, h) <= Left(w, me, i, GivenBack)
  {}

  // ---- Two measures of what is left: the sum and the largest ----

  ghost function Sum(w: World, me: Uuid, ids: seq<Uuid>, h: Held): nat
    requires me in w.batches
  {
    if ids == [] then 0 else Left(w, me, ids[0], h) + Sum(w, me, ids[1..], h)
  }

  ghost function Height(w: World, me: Uuid, ids: seq<Uuid>, h: Held): nat
    requires me in w.batches
  {
    if ids == [] then 0
    else
      var rest := Height(w, me, ids[1..], h);
      if Left(w, me, ids[0], h) > rest then Left(w, me, ids[0], h) else rest
  }

  /** How many more passes the rows are good for. */
  ghost function Budget(w: World, me: Uuid, ids: seq<Uuid>, h: Held): nat
    requires me in w.batches
  {
    Sum(w, me, ids, h) / BATCH + Height(w, me, ids, h)
  }

  ghost predicate LeftAtMost(w': World, w: World, me: Uuid, i: Uuid, h': Held, h: Held)
    requires me in w'.batches && me in w.batches
  {
    Left(w', me, i, h') <= Left(w, me, i, h)
  }

  lemma {:induction false} BudgetShrinks(w': World, w: World, me: Uuid, ids: seq<Uuid>, h': Held, h: Held)
    requires me in w'.batches && me in w.batches
    requires forall i {:trigger LeftAtMost(w', w, me, i, h', h)} :: LeftAtMost(w', w, me, i, h', h)
    ensures Sum(w', me, ids, h') <= Sum(w, me, ids, h) && Height(w', me, ids, h') <= Height(w, me, ids, h)
    ensures Budget(w', me, ids, h') <= Budget(w, me, ids, h)
    decreases |ids|
  {
    if ids != [] {
      assert LeftAtMost(w', w, me, ids[0], h', h);
      BudgetShrinks(w', w, me, ids[1..], h', h);
    }
  }

  function CountIn(ids: seq<Uuid>, rows: seq<Uuid>): nat {
    if ids == [] then 0 else (if ids[0] in rows then 1 else 0) + CountIn(ids[1..], rows)
  }

  lemma {:induction false} SumSpends(sha: Sha, w: World, me: Uuid, s: Step, ids: seq<Uuid>)
    requires Alone(w, me) && Quiet(s) && FindsWork(w, me, s) && me in Next(sha, w, s).batches
    ensures Sum(Next(sha, w, s), me, ids, Spent) + CountIn(ids, s.work.rows) <= Sum(w, me, ids, Spent)
    decreases |ids|
  {
    if ids != [] {
      NextLeft(sha, w, me, s, ids[0], Spent);
      SumSpends(sha, w, me, s, ids[1..]);
    }
  }

  lemma {:induction false} HeightIsMax(w: World, me: Uuid, ids: seq<Uuid>, i: Uuid)
    requires me in w.batches && i in ids
    ensures Left(w, me, i, Spent) <= Height(w, me, ids, Spent)
    decreases |ids|
  {
    if i != ids[0] {
      HeightIsMax(w, me, ids[1..], i);
    }
  }

  lemma {:induction false} HeightAtMost(w: World, me: Uuid, ids: seq<Uuid>, n: nat)
    requires me in w.batches && forall i :: i in ids ==> Left(w, me, i, Spent) <= n
    ensures Height(w, me, ids, Spent) <= n
    decreases |ids|
  {
    if ids != [] {
      assert ids[0] in ids;
      HeightAtMost(w, me, ids[1..], n);
    }
  }

  lemma {:induction false} SumAtMost(w: World, me: Uuid, ids: seq<Uuid>)
    requires me in w.batches && forall i :: i in ids ==> Left(w, me, i, Spent) <= MAX_ATTEMPTS
    ensures Sum(w, me, ids, Spent) <= MAX_ATTEMPTS * |ids|
    decreases |ids|
  {
    if ids != [] {
      assert ids[0] in ids;
      SumAtMost(w, me, ids[1..]);
    }
  }

  function Elements(s: seq<Uuid>): set<Uuid> {
    set x | x in s
  }

  lemma {:induction false} ElementsSize(s: seq<Uuid>)
    requires NoDup(s)
    ensures |Elements(s)| == |s|
    decreases |s|
  {
    if s == [] {
      assert Elements(s) == {};
    } else {
      TailNoDup(s);
      assert Elements(s) == {s[0]} + Elements(s[1..]);
      ElementsSize(s[1..]);
    }
  }

  lemma {:induction false} CountIsCommon(ids: seq<Uuid>, rows: seq<Uuid>)
    requires NoDup(ids)
    ensures CountIn(ids, rows) == |Elements(ids) * Elements(rows)|
    decreases |ids|
  {
    if ids == [] {
      assert Elements(ids) == {};
    } else {
      TailNoDup(ids);
      CountIsCommon(ids[1..], rows);
      var rest := Elements(ids[1..]) * Elements(rows);
      if ids[0] in rows {
        assert Elements(ids) * Elements(rows) == rest + {ids[0]};
      } else {
        assert Elements(ids) * Elements(rows) == rest;
      }
    }
  }

  /** The listed rows include every row that can still be selected. */
  ghost predicate Covers(w: World, me: Uuid, ids: seq<Uuid>)
    requires me in w.batches
  {
    NoDup(ids) && forall i, h {:trigger Left(w, me, i, h)} :: 0 < Left(w, me, i, h) ==> i in ids
  }

  lemma ShortPassLowers(sha: Sha, w: World, me: Uuid, s: Step, ids: seq<Uuid>)
    requires Alone(w, me) && Covers(w, me, ids) && Quiet(s) && FindsWork(w, me, s) && me in Next(sha, w, s).batches
    requires |s.work.rows| < BATCH && s.work.rows[0] in ids
    ensures Height(Next(sha, w, s), me, ids, Spent) <= Height(w, me, ids, Spent) - 1
  {
    var w' := Next(sha, w, s);
    NextLeft(sha, w, me, s, s.work.rows[0], Spent);
    HeightIsMax(w, me, ids, s.work.rows[0]);
    forall i: Uuid | i in ids ensures Left(w', me, i, Spent) <= Height(w, me, ids, Spent) - 1 {
      NextLeft(sha, w, me, s, i, Spent);
      HeightIsMax(w, me, ids, i);
      assert 0 < Left(w, me, i, Spent) ==> Selectable(w.db, i, w.clock);
    }
    HeightAtMost(w', me, ids, Height(w, me, ids, Spent) - 1);
  }

  /** A full batch uses fifty selections; a short one takes one from every row that has any. */
  lemma PassSpends(sha: Sha, w: World, me: Uuid, s: Step, ids: seq<Uuid>)
    requires Alone(w, me) && Covers(w, me, ids) && Quiet(s) && FindsWork(w, me, s) && me in Next(sha, w, s).batches
    ensures Budget(Next(sha, w, s), me, ids, Spent) + 1 <= Budget(w, me, ids, Spent)
  {
    var rows := s.work.rows;
    var w' := Next(sha, w, s);
    SumSpends(sha, w, me, s, ids);
    forall i: Uuid | i in rows ensures i in ids {
      NextLeft(sha, w, me, s, i, Spent);
    }
    if |rows| == BATCH {
      CountIsCommon(ids, rows);
      ElementsSize(rows);
      assert Elements(ids) * Elements(rows) == Elements(rows);
      forall i: Uuid ensures LeftAtMost(w', w, me, i, Spent, Spent) {
        NextLeft(sha, w, me, s, i, Spent);
      }
      BudgetShrinks(w', w, me, ids, Spent, Spent);
    } else {
      ShortPassLowers(sha, w, me, s, ids);
    }
  }

  /** `n` covers what the rows are good for if the current pass completes, and one less than what they are good for if
      it is cut short now. */
  ghost predicate Affordable(w: World, me: Uuid, ids: seq<Uuid>, n: nat)
    requires me in w.batches
  {
    Budget(w, me, ids, Spent) <= n && Budget(w, me, ids, GivenBack) <= n + 1
  }

  lemma NextKeepsCover(sha: Sha, w: World, me: Uuid, s: Step, ids: seq<Uuid>)
    requires Alone(w, me) && Covers(w, me, ids) && Quiet(s)
    ensures Alone(Next(sha, w, s), me) && Covers(Next(sha, w, s), me, ids)
  {
    var w' := Next(sha, w, s);
    NextKeepsBatches(sha, w, s);
    NextKeepsClockAndWorkers(sha, w, s);
    forall i: Uuid, h: Held | 0 < Left(w', me, i, h) ensures i in ids {
      if CutsShort(w, me, s) {
        ErrorGivesBack(w, me, i, h);
      } else {
        NextLeft(sha, w, me, s, i, h);
      }
    }
  }

  lemma StepShrinks(sha: Sha, w: World, me: Uuid, s: Step, ids: seq<Uuid>, h: Held)
    requires Alone(w, me) && Quiet(s) && !CutsShort(w, me, s) && me in Next(sha, w, s).batches
    ensures Budget(Next(sha, w, s), me, ids, h) <= Budget(w, me, ids, h)
  {
    forall i: Uuid ensures LeftAtMost(Next(sha, w, s), w, me, i, h, h) {
      NextLeft(sha, w, me, s, i, h);
    }
    BudgetShrinks(Next(sha, w, s), w, me, ids, h, h);
  }

  lemma ErrorAffordable(w: World, me: Uuid, ids: seq<Uuid>, n: nat)
    requires me in w.batches && Affordable(w, me, ids, n)
    ensures Affordable(NextWork(w, Crashes(me)), me, ids, n + 1)
  {
    var w' := NextWork(w, Crashes(me));
    forall i: Uuid, h: Held ensures LeftAtMost(w', w, me, i, h, GivenBack) {
      ErrorGivesBack(w, me, i, h);
    }
    BudgetShrinks(w', w, me, ids, Spent, GivenBack);
    BudgetShrinks(w', w, me, ids, GivenBack, GivenBack);
  }

  /** Between passes nothing is held, so the two readings coincide. */
  lemma IdleBudget(w: World, me: Uuid, ids: seq<Uuid>)
    requires me in w.batches && w.batches[me] == []
    ensures Budget(w, me, ids, GivenBack) <= Budget(w, me, ids, Spent)
  {
    forall i: Uuid ensures LeftAtMost(w, w, me, i, GivenBack, Spent) {}
    BudgetShrinks(w, w, me, ids, GivenBack, Spent);
  }

  lemma PassAffordable(sha: Sha, w: World, me: Uuid, s: Step, ids: seq<Uuid>, n: nat)
    requires Alone(w, me) && Covers(w, me, ids) && Quiet(s) && FindsWork(w, me, s) && me in Next(sha, w, s).batches
    requires Affordable(w, me, ids, n)
    ensures 1 <= n && Affordable(Next(sha, w, s), me, ids, n - 1)
  {
    PassSpends(sha, w, me, s, ids);
    StepShrinks(sha, w, me, s, ids, GivenBack);
    IdleBudget(w, me, ids);
  }

  lemma {:induction false} PassesBounded(sha: Sha, w: World, me: Uuid, ids: seq<Uuid>, steps: seq<Step>, n: nat)
    requires Alone(w, me) && Covers(w, me, ids) && AllQuiet(steps) && Affordable(w, me, ids, n)
    ensures Passes(sha, w, me, steps) <= n + Errors(sha, w, me, steps)
    decreases |steps|
  {
    if steps != [] {
      var s := steps[0];
      var w' := Next(sha, w, s);
      NextKeepsCover(sha, w, me, s, ids);
      if CutsShort(w, me, s) {
        ErrorAffordable(w, me, ids, n);
        PassesBounded(sha, w', me, ids, steps[1..], n + 1);
      } else if FindsWork(w, me, s) {
        PassAffordable(sha, w, me, s, ids, n);
        PassesBounded(sha, w', me, ids, steps[1..], n - 1);
      } else {
        StepShrinks(sha, w, me, s, ids, Spent);
        StepShrinks(sha, w, me, s, ids, GivenBack);
        PassesBounded(sha, w', me, ids, steps[1..], n);
      }
    }
  }

  /** With one worker, idle, N selectable rows and no new commits, at most floor(N / 10) + 5 passes find any work, and
      one more for each pass an error cuts short: whichever fifty rows each LIMIT picks, and whatever is acknowledged
      or expires meanwhile. */
  lemma PassesThatFindWork(sha: Sha, start: Time, before: seq<Step>, me: Uuid, ids: seq<Uuid>, steps: seq<Step>)
    requires var w := Run(sha, Start({me}, start), before);
             && me in w.batches && w.batches[me] == []
             && NoDup(ids) && (forall i :: i in ids <==> Selectable(w.db, i, w.clock))
    requires AllQuiet(steps)
    ensures var w := Run(sha, Start({me}, start), before);
            Passes(sha, w, me, steps) <= |ids| / 10 + 5 + Errors(sha, w, me, steps)
  {
    var w0 := Start({me}, start);
    var w := Run(sha, w0, before);
    RunKeepsDelivery(sha, w0, before);
    assert CounterOf(w0, 0).holders == {};
    RunKeepsAttemptBound(sha, w0, before, 0);
    RunGrows(sha, w0, before);
    forall i: Uuid ensures Left(w, me, i, Spent) <= MAX_ATTEMPTS {
      if i in w.db.records { assert RecordOk(w, i); }
    }
    forall i: Uuid, h: Held | 0 < Left(w, me, i, h) ensures i in ids {
      assert Selectable(w.db, i, w.clock);
    }
    SumAtMost(w, me, ids);
    HeightAtMost(w, me, ids, MAX_ATTEMPTS);
    IdleBudget(w, me, ids);
    PassesBounded(sha, w, me, ids, steps, |ids| / 10 + MAX_ATTEMPTS);
  }
}
