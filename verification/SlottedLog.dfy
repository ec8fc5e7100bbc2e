/** An event log written through k slots, each of which finishes one operation before it starts the next. A bound on
    what every slot writes is a bound, k times as large, on what they all write. */
module SlottedLog {
  import opened Common
  import opened EventLog

  datatype Row = Row(slot: Uuid, subject: Uuid, at: Time)

  /** The times of a subject's rows, in the order they were written. */
  function TimesOf(log: seq<Row>, subject: Uuid): seq<Time> {
    if log == [] then []
    else
      var rest := TimesOf(log[..|log| - 1], subject);
      var last := log[|log| - 1];
      if last.subject == subject then rest + [last.at] else rest
  }

  /** Only those written through the given slots. */
  function TimesIn(log: seq<Row>, subject: Uuid, slots: set<Uuid>): seq<Time> {
    if log == [] then []
    else
      var rest := TimesIn(log[..|log| - 1], subject, slots);
      var last := log[|log| - 1];
      if last.subject == subject && last.slot in slots then rest + [last.at] else rest
  }

  ghost predicate WrittenBy(log: seq<Row>, slots: set<Uuid>) {
    forall k :: 0 <= k < |log| ==> log[k].slot in slots
  }

  lemma {:induction false} AllSlots(log: seq<Row>, subject: Uuid, slots: set<Uuid>)
    requires WrittenBy(log, slots)
    ensures TimesIn(log, subject, slots) == TimesOf(log, subject)
    decreases |log|
  {
    if log != [] {
      AllSlots(log[..|log| - 1], subject, slots);
    }
  }

  /** A slot sees its own rows among all others. */
  lemma {:induction false} OwnRowsAreSeen(log: seq<Row>, subject: Uuid, slot: Uuid, bound: Time)
    ensures forall t :: t in TimesIn(log, subject, {slot}) ==> t in TimesOf(log, subject)
    ensures CountAfter(TimesIn(log, subject, {slot}), bound) <= CountAfter(TimesOf(log, subject), bound)
    decreases |log|
  {
    if log != [] {
      OwnRowsAreSeen(log[..|log| - 1], subject, slot, bound);
    }
  }

  function CountBetween(ts: seq<Time>, a: Time, b: Time): nat {
    if ts == [] then 0
    else (if a <= ts[|ts| - 1] <= b then 1 else 0) + CountBetween(ts[..|ts| - 1], a, b)
  }

  lemma {:induction false} CountIsClosed(ts: seq<Time>, a: Time, b: Time)
    ensures CountBetween(ts, a, b) == |Closed(ts, a, b)|
    decreases |ts|
  {
    if ts == [] {
      assert Closed(ts, a, b) == {};
    } else {
      var n := |ts| - 1;
      CountIsClosed(ts[..n], a, b);
      assert Closed(ts, a, b) == Closed(ts[..n], a, b) + if a <= ts[n] <= b then {n} else {};
    }
  }

  function In(t: Time, a: Time, b: Time): nat {
    if a <= t <= b then 1 else 0
  }

  lemma LastRowCount(log: seq<Row>, subject: Uuid, slots: set<Uuid>, a: Time, b: Time)
    requires log != []
    ensures var last := log[|log| - 1]; var before := log[..|log| - 1];
            CountBetween(TimesIn(log, subject, slots), a, b)
            == CountBetween(TimesIn(before, subject, slots), a, b)
               + if last.subject == subject && last.slot in slots then In(last.at, a, b) else 0
  {
    var ts, t := TimesIn(log[..|log| - 1], subject, slots), log[|log| - 1].at;
    assert (ts + [t])[..|ts|] == ts;
  }

  lemma {:induction false} OneMoreSlot(log: seq<Row>, subject: Uuid, slots: set<Uuid>, s: Uuid, a: Time, b: Time)
    requires s !in slots
    ensures CountBetween(TimesIn(log, subject, slots + {s}), a, b)
            == CountBetween(TimesIn(log, subject, slots), a, b) + CountBetween(TimesIn(log, subject, {s}), a, b)
    decreases |log|
  {
    if log != [] {
      OneMoreSlot(log[..|log| - 1], subject, slots, s, a, b);
      LastRowCount(log, subject, slots + {s}, a, b);
      LastRowCount(log, subject, slots, a, b);
      LastRowCount(log, subject, {s}, a, b);
    }
  }

  lemma {:induction false} NoSlots(log: seq<Row>, subject: Uuid)
    ensures TimesIn(log, subject, {}) == []
    decreases |log|
  {
    if log != [] {
      NoSlots(log[..|log| - 1], subject);
    }
  }

  ghost predicate SlotWithin(log: seq<Row>, subject: Uuid, s: Uuid, a: Time, b: Time, n: nat) {
    CountBetween(TimesIn(log, subject, {s}), a, b) <= n
  }

  lemma Successor(n: nat, k: nat)
    ensures n * (k + 1) == n * k + n
  {}

  lemma {:induction false} SlotsAddUp(log: seq<Row>, subject: Uuid, slots: set<Uuid>, a: Time, b: Time, n: nat)
    requires forall s {:trigger SlotWithin(log, subject, s, a, b, n)} ::
               s in slots ==> SlotWithin(log, subject, s, a, b, n)
    ensures CountBetween(TimesIn(log, subject, slots), a, b) <= n * |slots|
    decreases slots
  {
    if slots == {} {
      NoSlots(log, subject);
    } else {
      var s :| s in slots;
      var others := slots - {s};
      SlotsAddUp(log, subject, others, a, b, n);
      OneMoreSlot(log, subject, others, s, a, b);
      assert others + {s} == slots;
      assert SlotWithin(log, subject, s, a, b, n);
      Successor(n, |others|);
    }
  }

  /** If no slot writes more than n rows of a subject in a window, k slots write at most n * k. */
  lemma WindowBound(log: seq<Row>, subject: Uuid, slots: set<Uuid>, a: Time, b: Time, n: nat)
    requires WrittenBy(log, slots)
    requires forall s {:trigger TimesIn(log, subject, {s})} :: s in slots ==>
               |Closed(TimesIn(log, subject, {s}), a, b)| <= n
    ensures |Closed(TimesOf(log, subject), a, b)| <= n * |slots|
  {
    forall s | s in slots ensures SlotWithin(log, subject, s, a, b, n) {
      CountIsClosed(TimesIn(log, subject, {s}), a, b);
    }
    SlotsAddUp(log, subject, slots, a, b, n);
    AllSlots(log, subject, slots);
    CountIsClosed(TimesOf(log, subject), a, b);
  }
}
