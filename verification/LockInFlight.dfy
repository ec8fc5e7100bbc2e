/** PIN checks in flight together: nothing locks the failure window between the count and the insert. With k checks in
    flight thirty minutes can hold k - 1 recorded failures more. */
module LockInFlight {
  import opened Common
  import opened EventLog
  import opened SlottedLog
  import C = StaleCounter
  import L = RegistrationLock

  datatype Flight = Flight(user: Uuid, checked: Time)

  /** The log holds failed attempts only: successful ones are never counted. */
  datatype World = World(failures: seq<Row>, clock: Time, slots: set<Uuid>, flights: map<Uuid, Flight>)

  datatype Step =
    | Waits(pause: nat)
    | Checks(slot: Uuid, user: Uuid)
    | Records(slot: Uuid, isMatch: bool)
    | Drops(slot: Uuid)

  function Next(w: World, s: Step): World {
    match s
    case Waits(pause) => w.(clock := w.clock + pause)
    case Checks(x, user) =>
      if x in w.slots && x !in w.flights && CountAfter(TimesOf(w.failures, user), w.clock - L.WINDOW) < L.MAX_FAILURES
      then w.(flights := w.flights[x := Flight(user, w.clock)]) else w
    case Records(x, isMatch) =>
      if x !in w.flights then w
      else w.(failures := if isMatch then w.failures else w.failures + [Row(x, w.flights[x].user, w.clock)],
              flights := w.flights - {x})
    case Drops(x) => w.(flights := w.flights - {x})
  }

  function Run(w: World, steps: seq<Step>): World
    decreases |steps|
  {
    if steps == [] then w else Run(Next(w, steps[0]), steps[1..])
  }

  function Start(slots: set<Uuid>, now: Time): World {
    World([], now, slots, map[])
  }

  // ---- One window: a check reads the counter, a recorded failure increments it ----

  function InWindow(w: World, user: Uuid, a: Time): nat {
    CountBetween(TimesOf(w.failures, user), a + 1, a + L.WINDOW)
  }

  ghost function CounterOf(w: World, user: Uuid, a: Time): C.Counter {
    C.Counter(InWindow(w, user, a), (set x | x in w.flights && w.flights[x].user == user), w.slots)
  }

  /** No row is later than the clock. */
  ghost predicate Past(w: World) {
    w.flights.Keys <= w.slots && forall k :: 0 <= k < |w.failures| ==> w.failures[k].at <= w.clock
  }

  /** While the clock has not passed the window, checks in flight count too: they may still record in it. */
  ghost predicate WindowOk(w: World, user: Uuid, a: Time) {
    var c := CounterOf(w, user, a);
    && c.count <= L.MAX_FAILURES - 1 + |w.slots|
    && (w.clock <= a + L.WINDOW ==> C.Bounded(c, L.MAX_FAILURES))
  }

  /** Rows of the window are counted by every check made before it ends. */
  lemma {:induction false} WindowIsCounted(ts: seq<Time>, lo: Time, hi: Time, bound: Time)
    requires bound < lo
    ensures CountBetween(ts, lo, hi) <= CountAfter(ts, bound)
    decreases |ts|
  {
    if ts != [] {
      WindowIsCounted(ts[..|ts| - 1], lo, hi, bound);
    }
  }

  lemma RecordCounts(log: seq<Row>, r: Row, user: Uuid, lo: Time, hi: Time)
    ensures CountBetween(TimesOf(log + [r], user), lo, hi)
            == CountBetween(TimesOf(log, user), lo, hi) + if r.subject == user then In(r.at, lo, hi) else 0
  {
    var ts := TimesOf(log, user);
    assert (log + [r])[..|log|] == log;
    assert (ts + [r.at])[..|ts|] == ts;
  }

  lemma CheckKeepsBound(w: World, x: Uuid, u: Uuid, user: Uuid, a: Time)
    requires w.clock <= a + L.WINDOW && C.Bounded(CounterOf(w, user, a), L.MAX_FAILURES)
    ensures C.Bounded(CounterOf(Next(w, Checks(x, u)), user, a), L.MAX_FAILURES)
  {
    var c, d := CounterOf(w, user, a), CounterOf(Next(w, Checks(x, u)), user, a);
    WindowIsCounted(TimesOf(w.failures, user), a + 1, a + L.WINDOW, w.clock - L.WINDOW);
    if x in d.holders && x !in c.holders {
      assert d.holders == c.holders + {x};
      assert C.Checks(c, d, L.MAX_FAILURES, x);
      C.NextKeepsBound(c, d, L.MAX_FAILURES);
    } else {
      assert d.holders == c.holders;
    }
  }

  lemma RecordKeepsBound(w: World, x: Uuid, isMatch: bool, user: Uuid, a: Time)
    requires C.Bounded(CounterOf(w, user, a), L.MAX_FAILURES)
    ensures C.Bounded(CounterOf(Next(w, Records(x, isMatch)), user, a), L.MAX_FAILURES)
  {
    var c, d := CounterOf(w, user, a), CounterOf(Next(w, Records(x, isMatch)), user, a);
    if x in w.flights {
      RecordCounts(w.failures, Row(x, w.flights[x].user, w.clock), user, a + 1, a + L.WINDOW);
      assert d.holders == c.holders - {x};
      if d.count == c.count {
        assert C.GivesUp(c, d, x);
      } else {
        assert C.Increments(c, d, x);
      }
      C.NextKeepsBound(c, d, L.MAX_FAILURES);
    }
  }

  /** While the window lasts every step is a step of the stale counter, or leaves it lower. */
  lemma StepRefinesCounter(w: World, s: Step, user: Uuid, a: Time)
    requires Past(w) && w.clock <= a + L.WINDOW && (s.Waits? ==> w.clock + s.pause <= a + L.WINDOW)
    requires C.Bounded(CounterOf(w, user, a), L.MAX_FAILURES)
    ensures C.Bounded(CounterOf(Next(w, s), user, a), L.MAX_FAILURES)
  {
    var c, d := CounterOf(w, user, a), CounterOf(Next(w, s), user, a);
    match s
    case Waits(_) => assert d == c;
    case Checks(x, u) => CheckKeepsBound(w, x, u, user, a);
    case Records(x, isMatch) => RecordKeepsBound(w, x, isMatch, user, a);
    case Drops(x) =>
      assert d.holders == c.holders - {x};
      assert C.GivesUp(c, d, x);
      C.NextKeepsBound(c, d, L.MAX_FAILURES);
  }

  lemma NextKeepsWindow(w: World, s: Step, user: Uuid, a: Time)
    requires Past(w) && WindowOk(w, user, a)
    ensures Past(Next(w, s)) && WindowOk(Next(w, s), user, a)
  {
    if w.clock <= a + L.WINDOW && !(s.Waits? && a + L.WINDOW < w.clock + s.pause) {
      StepRefinesCounter(w, s, user, a);
    }
  }

  lemma {:induction false} RunKeepsWindow(w: World, steps: seq<Step>, user: Uuid, a: Time)
    requires Past(w) && WindowOk(w, user, a)
    ensures InWindow(Run(w, steps), user, a) <= L.MAX_FAILURES - 1 + |w.slots|
    decreases |steps|
  {
    if steps != [] {
      NextKeepsWindow(w, steps[0], user, a);
      RunKeepsWindow(Next(w, steps[0]), steps[1..], user, a);
    }
  }

  /** Without a slot nothing is ever recorded. */
  lemma {:induction false} NoSlotsNoFailures(w: World, steps: seq<Step>)
    requires w.failures == [] && w.slots == {} && w.flights == map[]
    ensures Run(w, steps).failures == []
    decreases |steps|
  {
    if steps != [] {
      NoSlotsNoFailures(Next(w, steps[0]), steps[1..]);
    }
  }

  function PerWindow(k: nat): nat {
    if k == 0 then 0 else L.MAX_FAILURES - 1 + k
  }

  lemma OneWindow(slots: set<Uuid>, now: Time, steps: seq<Step>, user: Uuid, a: Time)
    ensures InWindow(Run(Start(slots, now), steps), user, a) <= PerWindow(|slots|)
  {
    var w := Start(slots, now);
    assert CounterOf(w, user, a).holders == {};
    RunKeepsWindow(w, steps, user, a);
    if slots == {} {
      NoSlotsNoFailures(w, steps);
    }
  }

  // ---- Longer intervals ----

  lemma {:induction false} SplitInterval(ts: seq<Time>, a: Time, b: Time, c: Time)
    requires a <= b <= c
    ensures CountBetween(ts, a + 1, c) == CountBetween(ts, a + 1, b) + CountBetween(ts, b + 1, c)
    decreases |ts|
  {
    if ts != [] {
      SplitInterval(ts[..|ts| - 1], a, b, c);
    }
  }

  lemma {:induction false} EmptyInterval(ts: seq<Time>, lo: Time, hi: Time)
    requires hi < lo
    ensures CountBetween(ts, lo, hi) == 0
    decreases |ts|
  {
    if ts != [] {
      EmptyInterval(ts[..|ts| - 1], lo, hi);
    }
  }

  lemma {:induction false} ManyIntervals(slots: set<Uuid>, now: Time, steps: seq<Step>, user: Uuid, a: Time, m: nat)
    ensures CountBetween(TimesOf(Run(Start(slots, now), steps).failures, user), a + 1, a + L.WINDOW * m)
            <= PerWindow(|slots|) * m
    decreases m
  {
    var all := TimesOf(Run(Start(slots, now), steps).failures, user);
    if m == 0 {
      EmptyInterval(all, a + 1, a);
    } else {
      var b := a + L.WINDOW * (m - 1);
      ManyIntervals(slots, now, steps, user, a, m - 1);
      OneWindow(slots, now, steps, user, b);
      SplitInterval(all, a, b, b + L.WINDOW);
      Successor(PerWindow(|slots|), m - 1);
    }
  }

  /** With k checks in flight, any interval (a, a + L] holds at most (4 + k) * ceil(L / 30 min) recorded failures of one
      user; in particular any thirty minutes hold at most 4 + k. */
  lemma FailuresPerWindowInFlight(slots: set<Uuid>, now: Time, steps: seq<Step>, user: Uuid, a: Time, length: Time)
    requires 0 < length
    ensures var all := TimesOf(Run(Start(slots, now), steps).failures, user);
            |HalfOpen(all, a, a + length)|
            <= (if slots == {} then 0 else 4 + |slots|) * ((length + 1_799_999) / 1_800_000)
  {
    var all := TimesOf(Run(Start(slots, now), steps).failures, user);
    var m := L.Windows(length);
    ManyIntervals(slots, now, steps, user, a, m);
    CountIsClosed(all, a + 1, a + L.WINDOW * m);
    assert a + length <= a + L.WINDOW * m;
    assert HalfOpen(all, a, a + length) <= Closed(all, a + 1, a + L.WINDOW * m);
    SubsetSize(HalfOpen(all, a, a + length), Closed(all, a + 1, a + L.WINDOW * m));
  }
}
