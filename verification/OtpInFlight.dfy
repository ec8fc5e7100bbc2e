/** Requests for one-time codes in flight together: the cooldown query takes no lock, so a challenge is inserted after
    others it has not seen. With k requests in flight the daily bound is k times as large. */
module OtpInFlight {
  import opened Common
  import opened EventLog
  import opened SlottedLog
  import S = OtpService

  /** `stamp` is the creation time, taken when the cooldown was found to have passed. */
  datatype Flight = Flight(phone: Uuid, stamp: Time)

  datatype World = World(log: seq<Row>, clock: Time, slots: set<Uuid>, flights: map<Uuid, Flight>)

  datatype Step =
    | Waits(pause: nat)
    | Looks(slot: Uuid, phone: Uuid)
    | Inserts(slot: Uuid)
    | Drops(slot: Uuid)

  /** The check of the cooldown against rows in any order: the latest recent one is old enough. */
  predicate Admits(ts: seq<Time>, now: Time) {
    var recent := CountAfter(ts, now - DAY);
    recent == 0 || forall t :: t in ts && t > now - DAY ==> now - t >= S.Cooldown(recent)
  }

  function Next(w: World, s: Step): World {
    match s
    case Waits(pause) => w.(clock := w.clock + pause)
    case Looks(x, phone) =>
      if x in w.slots && x !in w.flights && Admits(TimesOf(w.log, phone), w.clock)
      then w.(flights := w.flights[x := Flight(phone, w.clock)]) else w
    case Inserts(x) =>
      if x in w.flights
      then w.(log := w.log + [Row(x, w.flights[x].phone, w.flights[x].stamp)], flights := w.flights - {x}) else w
    case Drops(x) => w.(flights := w.flights - {x})
  }

  function Run(w: World, steps: seq<Step>): World
    decreases |steps|
  {
    if steps == [] then w else Run(Next(w, steps[0]), steps[1..])
  }

  function Start(slots: set<Uuid>, now: Time): World {
    World([], now, slots, map[])
  }

  /** With the rows in order of creation this is the check one request at a time makes. */
  lemma AdmitsIsAllowed(ts: seq<Time>, now: Time)
    requires Sorted(ts)
    ensures Admits(ts, now) <==> S.Allowed(ts, now)
  {
    if ts != [] {
      assert ts[|ts| - 1] in ts;
      if ts[|ts| - 1] <= now - DAY {
        NoneCount(ts, now - DAY);
      }
    } else {
      assert CountAfter(ts, now - DAY) == 0;
    }
  }

  /** Seeing more rows only makes a request wait longer. */
  lemma AdmitsAmongOthers(all: seq<Time>, own: seq<Time>, now: Time)
    requires Admits(all, now) && CountAfter(own, now - DAY) <= CountAfter(all, now - DAY)
    requires forall t :: t in own ==> t in all
    ensures S.Allowed(own, now)
  {
    if own != [] {
      assert own[|own| - 1] in own;
    }
  }

  /** What one slot has issued to one phone is spaced, and what it is about to issue will be. */
  ghost predicate SlotOk(w: World, x: Uuid, phone: Uuid) {
    var own := TimesIn(w.log, phone, {x});
    && S.Spaced(own) && Ends(own, w.clock)
    && (x in w.flights && w.flights[x].phone == phone ==>
          var stamp := w.flights[x].stamp; stamp <= w.clock && Ends(own, stamp) && S.Allowed(own, stamp))
  }

  lemma NextKeepsSlot(w: World, s: Step, x: Uuid, phone: Uuid)
    requires SlotOk(w, x, phone)
    ensures SlotOk(Next(w, s), x, phone)
  {
    var own := TimesIn(w.log, phone, {x});
    match s
    case Looks(y, p) =>
      if y == x && p == phone && Admits(TimesOf(w.log, p), w.clock) {
        OwnRowsAreSeen(w.log, p, x, w.clock - DAY);
        AdmitsAmongOthers(TimesOf(w.log, p), own, w.clock);
      }
    case Inserts(y) =>
      if y in w.flights && y == x && w.flights[y].phone == phone {
        S.RequestKeepsSpacing(own, w.flights[x].stamp);
      }
    case _ =>
  }

  lemma {:induction false} RunKeepsSlot(w: World, steps: seq<Step>, x: Uuid, phone: Uuid)
    requires SlotOk(w, x, phone)
    ensures SlotOk(Run(w, steps), x, phone)
    decreases |steps|
  {
    if steps != [] {
      NextKeepsSlot(w, steps[0], x, phone);
      RunKeepsSlot(Next(w, steps[0]), steps[1..], x, phone);
    }
  }

  lemma {:induction false} RunKeepsWriters(w: World, steps: seq<Step>)
    requires WrittenBy(w.log, w.slots) && w.flights.Keys <= w.slots
    ensures Run(w, steps).slots == w.slots && WrittenBy(Run(w, steps).log, w.slots)
    decreases |steps|
  {
    if steps != [] {
      RunKeepsWriters(Next(w, steps[0]), steps[1..]);
    }
  }

  /** With k requests in flight, any closed 24-hour window holds at most 289 * k challenges of one phone. */
  lemma AtMost289PerDayInFlight(slots: set<Uuid>, now: Time, steps: seq<Step>, phone: Uuid, a: Time)
    ensures |Closed(TimesOf(Run(Start(slots, now), steps).log, phone), a, a + 24 * 60 * 60 * 1000)| <= 289 * |slots|
  {
    var w := Run(Start(slots, now), steps);
    RunKeepsWriters(Start(slots, now), steps);
    forall x | x in slots ensures |Closed(TimesIn(w.log, phone, {x}), a, a + DAY)| <= 289 {
      RunKeepsSlot(Start(slots, now), steps, x, phone);
      S.SpacedWindow(TimesIn(w.log, phone, {x}), a);
    }
    WindowBound(w.log, phone, slots, a, a + DAY, 289);
  }
}
