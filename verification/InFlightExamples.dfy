/** Runs that attain the bounds on operations in flight together: all slots look before any of them writes. */
module InFlightExamples {
  import opened Common
  import opened EventLog
  import opened SlottedLog
  import K = LockInFlight
  import L = RegistrationLock
  import O = OtpInFlight
  import P = OtpService
  import V = OtpStore

  // ---- Counting rows that are all of one subject ----

  ghost predicate AllOf(log: seq<Row>, subject: Uuid, a: Time, b: Time) {
    forall k :: 0 <= k < |log| ==> log[k].subject == subject && a <= log[k].at <= b
  }

  lemma {:induction false} AllAreCounted(log: seq<Row>, subject: Uuid, a: Time, b: Time)
    requires AllOf(log, subject, a, b)
    ensures CountBetween(TimesOf(log, subject), a, b) == |log| == |TimesOf(log, subject)|
    ensures forall t :: t in TimesOf(log, subject) ==> a <= t <= b
    decreases |log|
  {
    if log != [] {
      AllAreCounted(log[..|log| - 1], subject, a, b);
    }
  }

  // ---- PIN checks ----

  /** n failures of the user, all at time 0, and nothing in flight. */
  ghost predicate Failed(w: K.World, slots: set<Uuid>, user: Uuid, n: int) {
    w.slots == slots && w.clock == 0 && w.flights == map[] && |w.failures| == n && AllOf(w.failures, user, 0, 0)
  }

  lemma Admitted(w: K.World, x: Uuid, user: Uuid)
    requires x in w.slots && x !in w.flights && w.clock == 0
    requires AllOf(w.failures, user, 0, 0) && |w.failures| < L.MAX_FAILURES
    ensures K.Next(w, K.Checks(x, user)) == w.(flights := w.flights[x := K.Flight(user, 0)])
  {
    AllAreCounted(w.failures, user, 0, 0);
    CountAtMostLength(TimesOf(w.failures, user), 0 - L.WINDOW);
  }

  lemma {:induction false} LockConcat(w: K.World, a: seq<K.Step>, b: seq<K.Step>)
    ensures K.Run(w, a + b) == K.Run(K.Run(w, a), b)
    decreases |a|
  {
    if a == [] {
      assert a + b == b;
    } else {
      assert (a + b)[1..] == a[1..] + b;
      LockConcat(K.Next(w, a[0]), a[1..], b);
    }
  }

  /** The slots of a set have all checked, and everything else is as before. */
  ghost predicate AllChecked(w: K.World, w': K.World, todo: set<Uuid>, user: Uuid) {
    && w'.failures == w.failures && w'.clock == 0 && w'.slots == w.slots
    && w'.flights.Keys == w.flights.Keys + todo
    && (forall x :: x in w.flights ==> w'.flights[x] == w.flights[x])
    && (forall x :: x in todo ==> w'.flights[x] == K.Flight(user, 0))
  }

  lemma {:induction false} AllCheck(w: K.World, todo: set<Uuid>, user: Uuid)
    requires todo <= w.slots && todo !! w.flights.Keys && w.clock == 0
    requires AllOf(w.failures, user, 0, 0) && |w.failures| < L.MAX_FAILURES
    ensures exists steps :: AllChecked(w, K.Run(w, steps), todo, user)
    decreases todo
  {
    if todo == {} {
      assert AllChecked(w, K.Run(w, []), todo, user);
    } else {
      var x :| x in todo;
      var s := K.Checks(x, user);
      var w1 := w.(flights := w.flights[x := K.Flight(user, 0)]);
      Admitted(w, x, user);
      AllCheck(w1, todo - {x}, user);
      var rest :| AllChecked(w1, K.Run(w1, rest), todo - {x}, user);
      assert ([s] + rest)[1..] == rest;
      assert AllChecked(w, K.Run(w, [s] + rest), todo, user);
    }
  }

  lemma {:induction false} AllFail(w: K.World, todo: set<Uuid>, user: Uuid)
    requires w.flights == map x | x in todo :: K.Flight(user, 0)
    requires w.clock == 0 && AllOf(w.failures, user, 0, 0)
    ensures exists steps :: Failed(K.Run(w, steps), w.slots, user, |w.failures| + |todo|)
    decreases todo
  {
    if todo == {} {
      assert Failed(K.Run(w, []), w.slots, user, |w.failures| + |todo|);
    } else {
      var x :| x in todo;
      var s := K.Records(x, false);
      var w1 := K.Next(w, s);
      assert w1.flights == map y | y in todo - {x} :: K.Flight(user, 0);
      AllFail(w1, todo - {x}, user);
      var rest :| Failed(K.Run(w1, rest), w1.slots, user, |w1.failures| + |todo - {x}|);
      assert ([s] + rest)[1..] == rest;
      assert Failed(K.Run(w, [s] + rest), w.slots, user, |w.failures| + |todo|);
    }
  }

  /** A set of slots that all check before any of them records adds a failure each, though four were there already. */
  lemma OneBurst(w: K.World, slots: set<Uuid>, group: set<Uuid>, user: Uuid, n: nat)
    requires Failed(w, slots, user, n) && n < L.MAX_FAILURES && group <= slots
    ensures exists steps :: Failed(K.Run(w, steps), slots, user, n + |group|)
  {
    AllCheck(w, group, user);
    var checks :| AllChecked(w, K.Run(w, checks), group, user);
    var w1 := K.Run(w, checks);
    assert w1.flights == map x | x in group :: K.Flight(user, 0);
    AllFail(w1, group, user);
    var records :| Failed(K.Run(w1, records), slots, user, n + |group|);
    LockConcat(w, checks, records);
    assert Failed(K.Run(w, checks + records), slots, user, n + |group|);
  }

  lemma {:induction false} FailuresReach(slots: set<Uuid>, x: Uuid, user: Uuid, n: nat)
    requires x in slots && n < L.MAX_FAILURES
    ensures exists steps :: Failed(K.Run(K.Start(slots, 0), steps), slots, user, n)
    decreases n
  {
    var w := K.Start(slots, 0);
    if n == 0 {
      assert Failed(K.Run(w, []), slots, user, n);
    } else {
      FailuresReach(slots, x, user, n - 1);
      var before :| Failed(K.Run(w, before), slots, user, n - 1);
      OneBurst(K.Run(w, before), slots, {x}, user, n - 1);
      var more :| Failed(K.Run(K.Run(w, before), more), slots, user, n);
      LockConcat(w, before, more);
      assert Failed(K.Run(w, before + more), slots, user, n);
    }
  }

  /** 4 + k failures in thirty minutes are reached. */
  lemma LockBoundAttained(slots: set<Uuid>, user: Uuid) returns (steps: seq<K.Step>)
    requires slots != {}
    ensures var all := TimesOf(K.Run(K.Start(slots, 0), steps).failures, user);
            |HalfOpen(all, -1, -1 + 30 * 60 * 1000)| == 4 + |slots|
  {
    var x :| x in slots;
    var n := L.MAX_FAILURES - 1;
    FailuresReach(slots, x, user, n);
    var before :| Failed(K.Run(K.Start(slots, 0), before), slots, user, n);
    OneBurst(K.Run(K.Start(slots, 0), before), slots, slots, user, n);
    var more :| Failed(K.Run(K.Run(K.Start(slots, 0), before), more), slots, user, n + |slots|);
    LockConcat(K.Start(slots, 0), before, more);
    steps := before + more;
    var log := K.Run(K.Start(slots, 0), steps).failures;
    var all := TimesOf(log, user);
    assert AllOf(log, user, 0, -1 + L.WINDOW);
    AllAreCounted(log, user, 0, -1 + L.WINDOW);
    CountIsClosed(all, 0, -1 + L.WINDOW);
    assert HalfOpen(all, -1, -1 + L.WINDOW) == Closed(all, 0, -1 + L.WINDOW);
  }

  // ---- Requests for one-time codes ----

  const GAP: Time := 300 * SECOND

  /** n rounds are over: k challenges each, five minutes apart, the last of them five minutes ago. */
  ghost predicate Issued(w: O.World, slots: set<Uuid>, phone: Uuid, n: nat) {
    && w.slots == slots && w.clock == GAP * n && w.flights == map[]
    && |w.log| == |slots| * n && AllOf(w.log, phone, 0, GAP * (n - 1))
  }

  lemma {:induction false} OtpConcat(w: O.World, a: seq<O.Step>, b: seq<O.Step>)
    ensures O.Run(w, a + b) == O.Run(O.Run(w, a), b)
    decreases |a|
  {
    if a == [] {
      assert a + b == b;
    } else {
      assert (a + b)[1..] == a[1..] + b;
      OtpConcat(O.Next(w, a[0]), a[1..], b);
    }
  }

  lemma RoundAdmitted(w: O.World, x: Uuid, phone: Uuid)
    requires x in w.slots && x !in w.flights && AllOf(w.log, phone, 0, w.clock - GAP)
    ensures O.Next(w, O.Looks(x, phone)) == w.(flights := w.flights[x := O.Flight(phone, w.clock)])
  {
    AllAreCounted(w.log, phone, 0, w.clock - GAP);
  }

  ghost predicate AllLooked(w: O.World, w': O.World, todo: set<Uuid>, phone: Uuid) {
    && w'.log == w.log && w'.clock == w.clock && w'.slots == w.slots
    && w'.flights.Keys == w.flights.Keys + todo
    && (forall x :: x in w.flights ==> w'.flights[x] == w.flights[x])
    && (forall x :: x in todo ==> w'.flights[x] == O.Flight(phone, w.clock))
  }

  lemma {:induction false} AllLook(w: O.World, todo: set<Uuid>, phone: Uuid)
    requires todo <= w.slots && todo !! w.flights.Keys && AllOf(w.log, phone, 0, w.clock - GAP)
    ensures exists steps :: AllLooked(w, O.Run(w, steps), todo, phone)
    decreases todo
  {
    if todo == {} {
      assert AllLooked(w, O.Run(w, []), todo, phone);
    } else {
      var x :| x in todo;
      var s := O.Looks(x, phone);
      var w1 := w.(flights := w.flights[x := O.Flight(phone, w.clock)]);
      RoundAdmitted(w, x, phone);
      AllLook(w1, todo - {x}, phone);
      var rest :| AllLooked(w1, O.Run(w1, rest), todo - {x}, phone);
      assert ([s] + rest)[1..] == rest;
      assert AllLooked(w, O.Run(w, [s] + rest), todo, phone);
    }
  }

  ghost predicate AllInserted(w: O.World, w': O.World, n: nat, phone: Uuid) {
    && w'.clock == w.clock && w'.slots == w.slots && w'.flights == map[]
    && |w'.log| == |w.log| + n && AllOf(w'.log, phone, 0, w.clock)
  }

  lemma {:induction false} AllInsert(w: O.World, todo: set<Uuid>, phone: Uuid)
    requires w.flights == map x | x in todo :: O.Flight(phone, w.clock)
    requires 0 <= w.clock && AllOf(w.log, phone, 0, w.clock)
    ensures exists steps :: AllInserted(w, O.Run(w, steps), |todo|, phone)
    decreases todo
  {
    if todo == {} {
      assert AllInserted(w, O.Run(w, []), |todo|, phone);
    } else {
      var x :| x in todo;
      var s := O.Inserts(x);
      var w1 := O.Next(w, s);
      assert w1.flights == map y | y in todo - {x} :: O.Flight(phone, w.clock);
      AllInsert(w1, todo - {x}, phone);
      var rest :| AllInserted(w1, O.Run(w1, rest), |todo - {x}|, phone);
      assert ([s] + rest)[1..] == rest;
      assert AllInserted(w, O.Run(w, [s] + rest), |todo|, phone);
    }
  }

  /** When all slots have looked, all may insert. */
  lemma InsertAfterLook(w: O.World, w1: O.World, phone: Uuid)
    requires w.flights == map[] && 0 <= w.clock && AllOf(w.log, phone, 0, w.clock - GAP)
    requires AllLooked(w, w1, w.slots, phone)
    ensures exists steps :: AllInserted(w, O.Run(w1, steps), |w.slots|, phone)
  {
    assert w1.flights == map x | x in w.slots :: O.Flight(phone, w.clock);
    AllInsert(w1, w.slots, phone);
    var inserts :| AllInserted(w1, O.Run(w1, inserts), |w.slots|, phone);
    assert AllInserted(w, O.Run(w1, inserts), |w.slots|, phone);
  }

  lemma LookThenInsert(w: O.World, phone: Uuid)
    requires w.flights == map[] && 0 <= w.clock && AllOf(w.log, phone, 0, w.clock - GAP)
    ensures exists steps :: AllInserted(w, O.Run(w, steps), |w.slots|, phone)
  {
    AllLook(w, w.slots, phone);
    var looks :| AllLooked(w, O.Run(w, looks), w.slots, phone);
    InsertAfterLook(w, O.Run(w, looks), phone);
    var inserts :| AllInserted(w, O.Run(O.Run(w, looks), inserts), |w.slots|, phone);
    OtpConcat(w, looks, inserts);
    assert AllInserted(w, O.Run(w, looks + inserts), |w.slots|, phone);
  }

  lemma OneRound(w: O.World, slots: set<Uuid>, phone: Uuid, n: nat)
    requires Issued(w, slots, phone, n)
    ensures exists steps :: Issued(O.Run(w, steps), slots, phone, n + 1)
  {
    LookThenInsert(w, phone);
    var round :| AllInserted(w, O.Run(w, round), |w.slots|, phone);
    var pause := [O.Waits(GAP)];
    var w1 := O.Run(w, round);
    OtpConcat(w, round, pause);
    assert O.Run(w1, pause) == O.Run(O.Next(w1, O.Waits(GAP)), []);
    Successor(|slots|, n);
    assert Issued(O.Run(w, round + pause), slots, phone, n + 1);
  }

  lemma {:induction false} Rounds(slots: set<Uuid>, phone: Uuid, n: nat)
    ensures exists steps :: Issued(O.Run(O.Start(slots, 0), steps), slots, phone, n)
    decreases n
  {
    var w := O.Start(slots, 0);
    if n == 0 {
      assert Issued(O.Run(w, []), slots, phone, n);
    } else {
      Rounds(slots, phone, n - 1);
      var before :| Issued(O.Run(w, before), slots, phone, n - 1);
      OneRound(O.Run(w, before), slots, phone, n - 1);
      var more :| Issued(O.Run(O.Run(w, before), more), slots, phone, n);
      OtpConcat(w, before, more);
      assert Issued(O.Run(w, before + more), slots, phone, n);
    }
  }

  /** 289 challenges for each request in flight are reached in one day. */
  lemma OtpBoundAttained(slots: set<Uuid>, phone: Uuid) returns (steps: seq<O.Step>)
    ensures |Closed(TimesOf(O.Run(O.Start(slots, 0), steps).log, phone), 0, 24 * 60 * 60 * 1000)| == 289 * |slots|
  {
    var n := 289;
    Rounds(slots, phone, n);
    steps :| Issued(O.Run(O.Start(slots, 0), steps), slots, phone, n);
    var log := O.Run(O.Start(slots, 0), steps).log;
    assert AllOf(log, phone, 0, DAY);
    AllAreCounted(log, phone, 0, DAY);
    CountIsClosed(TimesOf(log, phone), 0, DAY);
  }

  // ---- Verifications of one challenge ----

  /** Challenge 0 has taken n attempts, none of them right, and nothing is in flight. */
  ghost predicate Tried(w: V.World, slots: set<Uuid>, n: int) {
    && w.slots == slots && w.flights == map[] && 0 in w.challenges
    && V.Verifiable(w.challenges[0].(attempts := 0), 0) && w.challenges[0].maxAttempts == P.MAX_ATTEMPTS
    && w.challenges[0].attempts == n && w.challenges[0].verifierHash == 0
  }

  lemma {:induction false} RaceConcat(w: V.World, a: seq<V.Step>, b: seq<V.Step>)
    ensures V.Race(w, a + b) == V.Race(V.Race(w, a), b)
    decreases |a|
  {
    if a == [] {
      assert a + b == b;
    } else {
      assert (a + b)[1..] == a[1..] + b;
      RaceConcat(V.Step1(w, a[0]), a[1..], b);
    }
  }

  ghost predicate AllGuessed(w: V.World, w': V.World, todo: set<Uuid>) {
    && w'.challenges == w.challenges && w'.slots == w.slots
    && w'.flights.Keys == w.flights.Keys + todo
    && (forall x :: x in w.flights ==> w'.flights[x] == w.flights[x])
    && (forall x :: x in todo ==> w'.flights[x] == V.Flight(0, false))
  }

  lemma {:induction false} AllGuess(w: V.World, todo: set<Uuid>)
    requires todo <= w.slots && todo !! w.flights.Keys
    requires 0 in w.challenges && V.Verifiable(w.challenges[0], 0) && w.challenges[0].verifierHash == 0
    ensures exists steps :: AllGuessed(w, V.Race(w, steps), todo)
    decreases todo
  {
    if todo == {} {
      assert AllGuessed(w, V.Race(w, []), todo);
    } else {
      var x :| x in todo;
      var s := V.Looks(x, 0, 1, 0);
      var w1 := V.Step1(w, s);
      AllGuess(w1, todo - {x});
      var rest :| AllGuessed(w1, V.Race(w1, rest), todo - {x});
      assert ([s] + rest)[1..] == rest;
      assert AllGuessed(w, V.Race(w, [s] + rest), todo);
    }
  }

  lemma {:induction false} AllUpdate(w: V.World, todo: set<Uuid>, n: int)
    requires w.flights == map x | x in todo :: V.Flight(0, false)
    requires Tried(w.(flights := map[]), w.slots, n)
    ensures exists steps :: Tried(V.Race(w, steps), w.slots, n + |todo|)
    decreases todo
  {
    if todo == {} {
      assert w == w.(flights := map[]);
      assert Tried(V.Race(w, []), w.slots, n + |todo|);
    } else {
      var x :| x in todo;
      var s := V.Updates(x);
      var w1 := V.Step1(w, s);
      assert w1.flights == map y | y in todo - {x} :: V.Flight(0, false);
      AllUpdate(w1, todo - {x}, n + 1);
      var rest :| Tried(V.Race(w1, rest), w1.slots, n + 1 + |todo - {x}|);
      assert ([s] + rest)[1..] == rest;
      assert Tried(V.Race(w, [s] + rest), w.slots, n + |todo|);
    }
  }

  lemma OneVolley(w: V.World, slots: set<Uuid>, group: set<Uuid>, n: int)
    requires Tried(w, slots, n) && n < P.MAX_ATTEMPTS && group <= slots
    ensures exists steps :: Tried(V.Race(w, steps), slots, n + |group|)
  {
    AllGuess(w, group);
    var looks :| AllGuessed(w, V.Race(w, looks), group);
    var w1 := V.Race(w, looks);
    assert w1.flights == map x | x in group :: V.Flight(0, false);
    AllUpdate(w1, group, n);
    var updates :| Tried(V.Race(w1, updates), slots, n + |group|);
    RaceConcat(w, looks, updates);
    assert Tried(V.Race(w, looks + updates), slots, n + |group|);
  }

  lemma {:induction false} TriesReach(slots: set<Uuid>, x: Uuid, n: nat)
    requires x in slots && n < P.MAX_ATTEMPTS
    ensures exists steps :: Tried(V.Race(V.World(map[], slots, map[]), steps), slots, n)
    decreases n
  {
    var w := V.World(map[], slots, map[]);
    if n == 0 {
      var s := V.Issues(0, P.Challenge(0, 0, 0, 0, P.MAX_ATTEMPTS, P.CODE_TTL, 0, false, 0));
      assert V.Race(w, [s]) == V.Race(V.Step1(w, s), []);
      assert Tried(V.Race(w, [s]), slots, n);
    } else {
      TriesReach(slots, x, n - 1);
      var before :| Tried(V.Race(w, before), slots, n - 1);
      OneVolley(V.Race(w, before), slots, {x}, n - 1);
      var more :| Tried(V.Race(V.Race(w, before), more), slots, n);
      RaceConcat(w, before, more);
      assert Tried(V.Race(w, before + more), slots, n);
    }
  }

  /** max_attempts - 1 + k attempts on one challenge are reached. */
  lemma OtpAttemptBoundAttained(slots: set<Uuid>) returns (steps: seq<V.Step>)
    requires slots != {}
    ensures var w := V.Race(V.World(map[], slots, map[]), steps);
            0 in w.challenges && w.challenges[0].attempts == 2 + |slots|
  {
    var x :| x in slots;
    var w := V.World(map[], slots, map[]);
    var n := P.MAX_ATTEMPTS - 1;
    TriesReach(slots, x, n);
    var before :| Tried(V.Race(w, before), slots, n);
    OneVolley(V.Race(w, before), slots, slots, n);
    var more :| Tried(V.Race(V.Race(w, before), more), slots, n + |slots|);
    RaceConcat(w, before, more);
    steps := before + more;
  }
}
