/** Counting time-stamped events in a window. */
module EventLog {
  import opened Common

  ghost predicate Sorted(ts: seq<Time>) {
    forall i, j :: 0 <= i <= j < |ts| ==> ts[i] <= ts[j]
  }

  /** The last event is no later than this. */
  ghost predicate Ends(ts: seq<Time>, now: Time) {
    ts != [] ==> ts[|ts| - 1] <= now
  }

  /** How many events are strictly later than `bound`: WHERE created_at > bound. */
  function CountAfter(ts: seq<Time>, bound: Time): nat {
    if ts == [] then 0
    else (if ts[|ts| - 1] > bound then 1 else 0) + CountAfter(ts[..|ts| - 1], bound)
  }

  lemma {:induction false} CountAtMostLength(ts: seq<Time>, bound: Time)
    ensures CountAfter(ts, bound) <= |ts|
    decreases |ts|
  {
    if ts != [] {
      CountAtMostLength(ts[..|ts| - 1], bound);
    }
  }

  /** If the last k events are all after the bound, at least k are counted. */
  lemma {:induction false} SuffixCounts(ts: seq<Time>, bound: Time, k: nat)
    requires k <= |ts| && forall i :: |ts| - k <= i < |ts| ==> ts[i] > bound
    ensures k <= CountAfter(ts, bound)
    decreases k
  {
    if k > 0 {
      SuffixCounts(ts[..|ts| - 1], bound, k - 1);
    }
  }

  lemma {:induction false} NoneCount(ts: seq<Time>, bound: Time)
    requires forall i :: 0 <= i < |ts| ==> ts[i] <= bound
    ensures CountAfter(ts, bound) == 0
    decreases |ts|
  {
    if ts != [] {
      NoneCount(ts[..|ts| - 1], bound);
    }
  }

  /** The events from `a` to `b`, both ends included. */
  function Closed(ts: seq<Time>, a: Time, b: Time): set<nat> {
    set i: nat | i < |ts| && a <= ts[i] <= b
  }

  /** The events after `a`, up to and including `b`. */
  function HalfOpen(ts: seq<Time>, a: Time, b: Time): set<nat> {
    set i: nat | i < |ts| && a < ts[i] <= b
  }

  /** Times are whole milliseconds. */
  lemma ClosedIsHalfOpen(ts: seq<Time>, a: Time, b: Time)
    ensures Closed(ts, a, b) == HalfOpen(ts, a - 1, b)
  {}

  function Range(lo: nat, n: nat): set<nat> {
    if n == 0 then {} else Range(lo, n - 1) + {lo + n - 1}
  }

  lemma {:induction false} RangeSize(lo: nat, n: nat)
    ensures |Range(lo, n)| == n
    ensures forall k :: k in Range(lo, n) <==> lo <= k < lo + n
    decreases n
  {
    if n > 0 {
      RangeSize(lo, n - 1);
    }
  }

  lemma {:induction false} Least(s: set<nat>) returns (m: nat)
    requires s != {}
    ensures m in s && forall i :: i in s ==> m <= i
  {
    var x :| x in s;
    if s == {x} {
      m := x;
    } else {
      var k := Least(s - {x});
      m := if x < k then x else k;
      forall i | i in s ensures m <= i {
        assert i == x || i in s - {x};
      }
    }
  }

  /** Indices no two of which are n apart number at most n. */
  lemma CloseIndices(s: set<nat>, n: nat)
    requires forall i, j :: i in s && j in s ==> j < i + n
    ensures |s| <= n
  {
    if s != {} {
      var lo := Least(s);
      RangeSize(lo, n);
      SubsetSize(s, Range(lo, n));
    }
  }
}
