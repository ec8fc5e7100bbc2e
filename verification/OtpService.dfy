/** One-time-code challenges: the progressive cooldown between them, and the attempts on each. */
module OtpService {
  import opened Common
  import opened EventLog

  const CODE_TTL: Time := 5 * MINUTE
  const MAX_ATTEMPTS := 3

  datatype Challenge = Challenge(id: Uuid, phone: Uuid, verifierHash: Digest, attempts: int, maxAttempts: int,
                                 expiresAt: Time, resendAvailableAt: Time, isVerified: bool, createdAt: Time)

  // ---- The cooldown as a function of the earlier challenges of one phone ----

  function Cooldown(recent: nat): Time {
    if recent == 0 then 60 * SECOND else if recent == 1 then 120 * SECOND else 300 * SECOND
  }

  /** `ts` are the creation times of the phone's challenges, oldest first. */
  predicate Allowed(ts: seq<Time>, now: Time) {
    var recent := CountAfter(ts, now - DAY);
    recent == 0 || now - ts[|ts| - 1] >= Cooldown(recent)
  }

  function Request(ts: seq<Time>, now: Time): seq<Time> {
    if Allowed(ts, now) then ts + [now] else ts
  }

  // ---- The log of all phones ----

  datatype Issue = Issue(phone: Uuid, at: Time)

  function TimesOf(log: seq<Issue>, phone: Uuid): seq<Time> {
    if log == [] then []
    else
      var rest := TimesOf(log[..|log| - 1], phone);
      if log[|log| - 1].phone == phone then rest + [log[|log| - 1].at] else rest
  }

  function Next(log: seq<Issue>, r: Issue): seq<Issue> {
    if Allowed(TimesOf(log, r.phone), r.at) then log + [r] else log
  }

  function Run(log: seq<Issue>, requests: seq<Issue>): seq<Issue>
    decreases |requests|
  {
    if requests == [] then log else Run(Next(log, requests[0]), requests[1..])
  }

  /** Requests are handled one at a time on a clock that never goes back. */
  ghost predicate InOrder(requests: seq<Issue>) {
    forall i, j :: 0 <= i <= j < |requests| ==> requests[i].at <= requests[j].at
  }

  // ---- Spacing ----

  ghost predicate SpacedAt(ts: seq<Time>, i: int)
    requires 0 < i < |ts|
  {
    && ts[i] - ts[i - 1] >= 120 * SECOND
    && (2 <= i ==> ts[i] - ts[i - 1] >= 300 * SECOND || ts[i - 2] <= ts[i] - DAY)
  }

  ghost predicate Spaced(ts: seq<Time>) {
    forall i {:trigger SpacedAt(ts, i)} :: 0 < i < |ts| ==> SpacedAt(ts, i)
  }

  lemma LastGap(ts: seq<Time>, now: Time)
    requires Spaced(ts) && ts != [] && ts[|ts| - 1] <= now && Allowed(ts, now)
    ensures SpacedAt(ts + [now], |ts|)
  {
    var n := |ts|;
    if ts[n - 1] > now - DAY {
      SuffixCounts(ts, now - DAY, 1);
    }
    if 2 <= n && ts[n - 2] > now - DAY {
      assert SpacedAt(ts, n - 1);
      SuffixCounts(ts, now - DAY, 2);
    }
  }

  lemma RequestKeepsSpacing(ts: seq<Time>, now: Time)
    requires Spaced(ts) && (ts != [] ==> ts[|ts| - 1] <= now)
    ensures Spaced(Request(ts, now))
  {
    if Allowed(ts, now) {
      var n := |ts|;
      var ts' := ts + [now];
      forall i | 0 < i < |ts'| ensures SpacedAt(ts', i) {
        if i < n {
          assert SpacedAt(ts, i);
        } else {
          LastGap(ts, now);
        }
      }
    }
  }

  lemma {:induction false} Increasing(ts: seq<Time>, i: nat, j: nat)
    requires Spaced(ts) && i <= j < |ts|
    ensures ts[i] <= ts[j] && (i < j ==> ts[i] < ts[j])
    decreases j
  {
    if i < j {
      assert SpacedAt(ts, j);
      Increasing(ts, i, j - 1);
    }
  }

  /** Challenges within a day of each other: the first gap takes two minutes, every later one five. */
  lemma {:induction false} Span(ts: seq<Time>, i: nat, j: nat)
    requires Spaced(ts) && i < j < |ts| && ts[j] - ts[i] <= DAY
    ensures ts[j] - ts[i] >= 120_000 + 300_000 * (j - i - 1)
    decreases j
  {
    assert SpacedAt(ts, j);
    if i + 1 < j {
      Increasing(ts, i, j - 2);
      Span(ts, i, j - 1);
    }
  }

  /** Any closed 24-hour window holds at most 289 challenges. */
  lemma SpacedWindow(ts: seq<Time>, a: Time)
    requires Spaced(ts)
    ensures |Closed(ts, a, a + DAY)| <= 289
  {
    var s := Closed(ts, a, a + DAY);
    forall i, j | i in s && j in s ensures j < i + 289 {
      if i < j {
        Span(ts, i, j);
      }
    }
    CloseIndices(s, 289);
  }

  lemma {:induction false} TimesBefore(log: seq<Issue>, phone: Uuid, now: Time)
    requires forall k :: 0 <= k < |log| ==> log[k].at <= now
    ensures forall k :: 0 <= k < |TimesOf(log, phone)| ==> TimesOf(log, phone)[k] <= now
    decreases |log|
  {
    if log != [] {
      TimesBefore(log[..|log| - 1], phone, now);
    }
  }

  lemma {:induction false} RunKeepsSpacing(log: seq<Issue>, requests: seq<Issue>, phone: Uuid)
    requires InOrder(requests) && Spaced(TimesOf(log, phone))
    requires forall k, m :: 0 <= k < |log| && 0 <= m < |requests| ==> log[k].at <= requests[m].at
    ensures Spaced(TimesOf(Run(log, requests), phone))
    decreases |requests|
  {
    if requests != [] {
      var r := requests[0];
      TimesBefore(log, phone, r.at);
      if r.phone == phone {
        RequestKeepsSpacing(TimesOf(log, phone), r.at);
      }
      RunKeepsSpacing(Next(log, r), requests[1..], phone);
    }
  }

  /** Over every run of requests from any phones, each phone is issued at most 289 challenges in any 24 hours. */
  lemma AtMost289PerDay(requests: seq<Issue>, phone: Uuid, a: Time)
    requires InOrder(requests)
    ensures |Closed(TimesOf(Run([], requests), phone), a, a + 24 * 60 * 60 * 1000)| <= 289
  {
    RunKeepsSpacing([], requests, phone);
    SpacedWindow(TimesOf(Run([], requests), phone), a);
  }

  // ---- The bound is attained ----

  function Eager(i: nat): Time {
    if i == 0 then 0 else 120 * SECOND + 300 * SECOND * (i - 1)
  }

  /** One phone asking n times, each time as early as the cooldown allows. */
  function EagerRequests(phone: Uuid, n: nat): seq<Issue> {
    if n == 0 then [] else EagerRequests(phone, n - 1) + [Issue(phone, Eager(n - 1))]
  }

  ghost predicate AtEagerTimes(ts: seq<Time>, n: nat) {
    |ts| == n && forall i :: 0 <= i < n ==> ts[i] == Eager(i)
  }

  lemma {:induction false} EagerTimes(phone: Uuid, n: nat)
    ensures AtEagerTimes(TimesOf(EagerRequests(phone, n), phone), n)
    decreases n
  {
    if n > 0 {
      EagerTimes(phone, n - 1);
    }
  }

  lemma {:induction false} EagerRequestsAt(phone: Uuid, n: nat)
    ensures |EagerRequests(phone, n)| == n
    ensures forall i :: 0 <= i < n ==> EagerRequests(phone, n)[i] == Issue(phone, Eager(i))
    decreases n
  {
    if n > 0 {
      EagerRequestsAt(phone, n - 1);
    }
  }

  lemma {:induction false} RunAppend(log: seq<Issue>, requests: seq<Issue>, r: Issue)
    ensures Run(log, requests + [r]) == Next(Run(log, requests), r)
    decreases |requests|
  {
    var all := requests + [r];
    if requests == [] {
      assert all[1..] == [];
      assert Run(Next(log, r), []) == Next(log, r);
    } else {
      assert all[1..] == requests[1..] + [r];
      RunAppend(Next(log, requests[0]), requests[1..], r);
    }
  }

  lemma EagerAllowed(ts: seq<Time>, n: nat)
    requires n < 289 && AtEagerTimes(ts, n)
    ensures Allowed(ts, Eager(n))
  {
    CountAtMostLength(ts, Eager(n) - DAY);
    assert Eager(n) - DAY < 0;
    SuffixCounts(ts, Eager(n) - DAY, n);
    assert CountAfter(ts, Eager(n) - DAY) == n;
  }

  lemma {:induction false} EagerRun(phone: Uuid, n: nat)
    requires n <= 289
    ensures Run([], EagerRequests(phone, n)) == EagerRequests(phone, n)
    decreases n
  {
    if n > 0 {
      var before, r := EagerRequests(phone, n - 1), Issue(phone, Eager(n - 1));
      EagerRun(phone, n - 1);
      RunAppend([], before, r);
      EagerTimes(phone, n - 1);
      EagerAllowed(TimesOf(before, phone), n - 1);
      assert Next(before, r) == before + [r];
    }
  }

  lemma EagerWindow(ts: seq<Time>, n: nat)
    requires n <= 289 && AtEagerTimes(ts, n)
    ensures |Closed(ts, 0, DAY)| == n
  {
    RangeSize(0, n);
    assert Closed(ts, 0, DAY) == Range(0, n);
  }

  lemma EagerIssued(phone: Uuid, n: nat)
    requires n <= 289
    ensures InOrder(EagerRequests(phone, n)) && |Closed(TimesOf(Run([], EagerRequests(phone, n)), phone), 0, DAY)| == n
  {
    EagerRun(phone, n);
    EagerRequestsAt(phone, n);
    EagerTimes(phone, n);
    EagerWindow(TimesOf(EagerRequests(phone, n), phone), n);
  }

  /** 289 requests, each as early as the cooldown allows, are all accepted inside one day. */
  lemma Bound289Attained(phone: Uuid) returns (requests: seq<Issue>)
    ensures InOrder(requests) && |Closed(TimesOf(Run([], requests), phone), 0, 24 * 60 * 60 * 1000)| == 289
  {
    var n := 289;
    requests := EagerRequests(phone, n);
    EagerIssued(phone, n);
  }

  // ---- The advertised resend time ----

  predicate IsRecent(r: Issue, phone: Uuid, bound: Time) {
    r.phone == phone && r.at > bound
  }

  /** The challenges of the phone that are later than the bound. */
  function RecentOf(log: seq<Issue>, phone: Uuid, bound: Time): set<nat> {
    set k: nat | k < |log| && IsRecent(log[k], phone, bound)
  }

  lemma OneMoreIssue(log: seq<Issue>, n: nat, phone: Uuid, bound: Time)
    requires |log| == n + 1
    ensures |RecentOf(log, phone, bound)|
            == |RecentOf(log[..n], phone, bound)| + if IsRecent(log[n], phone, bound) then 1 else 0
  {
    var before := RecentOf(log[..n], phone, bound);
    assert RecentOf(log, phone, bound) == before + if IsRecent(log[n], phone, bound) then {n} else {};
  }

  /** The count the cooldown is decided by. */
  lemma {:induction false} RecentCounted(log: seq<Issue>, phone: Uuid, bound: Time)
    ensures CountAfter(TimesOf(log, phone), bound) == |RecentOf(log, phone, bound)|
    decreases |log|
  {
    if log == [] {
      assert RecentOf(log, phone, bound) == {};
    } else {
      var n := |log| - 1;
      RecentCounted(log[..n], phone, bound);
      OneMoreIssue(log, n, phone, bound);
    }
  }

  lemma {:induction false} NoRecentTimes(log: seq<Issue>, phone: Uuid, bound: Time)
    requires forall k :: 0 <= k < |log| && log[k].phone == phone ==> log[k].at <= bound
    ensures CountAfter(TimesOf(log, phone), bound) == 0
    decreases |log|
  {
    if log != [] {
      NoRecentTimes(log[..|log| - 1], phone, bound);
    }
  }

  /** A phone with no challenge in the last twenty-four hours is served at once, whatever other phones have asked
      for. */
  lemma {:induction false} FreshPhoneIsServed(log: seq<Issue>, r: Issue)
    requires forall k :: 0 <= k < |log| && log[k].phone == r.phone ==> log[k].at <= r.at - 24 * 60 * 60 * 1000
    ensures Next(log, r) == log + [r]
  {
    NoRecentTimes(log, r.phone, r.at - 24 * 60 * 60 * 1000);
  }

  /** With one challenge that recent a request is served from two minutes after it on, with more from five. */
  lemma AllowedIff(ts: seq<Time>, now: Time)
    ensures var recent := CountAfter(ts, now - 24 * 60 * 60 * 1000);
            Allowed(ts, now) <==> recent == 0 || now - ts[|ts| - 1] >= if recent == 1 then 120_000 else 300_000
  {
    CountAtMostLength(ts, now - DAY);
  }

  /** The response advertises now + cooldown as the time a resend becomes available, but the cooldown checked then
      counts the challenge just issued. The advertised time is kept exactly when at least two recent challenges came
      before, or one did and it is a day old by then; for a first challenge it never is. */
  lemma ResendPromiseKeptIff(ts: seq<Time>, now: Time)
    requires Allowed(ts, now)
    ensures var n := CountAfter(ts, now - DAY); var resend := now + Cooldown(n);
            Allowed(ts + [now], resend) <==> 2 <= n || (n == 1 && CountAfter(ts, resend - DAY) == 0)
  {}
}
