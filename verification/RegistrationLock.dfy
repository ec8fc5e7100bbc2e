/** Registration-lock PIN checks and their thirty-minute failure window. */
module RegistrationLock {
  import opened Common
  import opened EventLog

  const WINDOW: Time := 30 * MINUTE
  const MAX_FAILURES := 5

  type Pin = string
  type PinHash = nat

  datatype Attempt = Attempt(user: Uuid, isSuccessful: bool, at: Time)

  datatype PinError = MalformedPin | LockedOut | NotSet | IncorrectPin

  function FailuresOf(log: seq<Attempt>, user: Uuid): seq<Time> {
    if log == [] then []
    else
      var rest := FailuresOf(log[..|log| - 1], user);
      var last := log[|log| - 1];
      if last.user == user && !last.isSuccessful then rest + [last.at] else rest
  }

  predicate Locked(log: seq<Attempt>, user: Uuid, now: Time) {
    CountAfter(FailuresOf(log, user), now - WINDOW) >= MAX_FAILURES
  }

  predicate IsFailure(a: Attempt, user: Uuid, bound: Time) {
    a.user == user && !a.isSuccessful && a.at > bound
  }

  /** The failed attempts of the user that are later than the bound. */
  function FailuresAfter(log: seq<Attempt>, user: Uuid, bound: Time): set<nat> {
    set k: nat | k < |log| && IsFailure(log[k], user, bound)
  }

  lemma OneMoreAttempt(log: seq<Attempt>, n: nat, user: Uuid, bound: Time)
    requires |log| == n + 1
    ensures |FailuresAfter(log, user, bound)|
            == |FailuresAfter(log[..n], user, bound)| + if IsFailure(log[n], user, bound) then 1 else 0
  {
    var before := FailuresAfter(log[..n], user, bound);
    assert FailuresAfter(log, user, bound) == before + if IsFailure(log[n], user, bound) then {n} else {};
  }

  /** The count the lockout is decided by. */
  lemma {:induction false} FailuresCounted(log: seq<Attempt>, user: Uuid, bound: Time)
    ensures CountAfter(FailuresOf(log, user), bound) == |FailuresAfter(log, user, bound)|
    decreases |log|
  {
    if log == [] {
      assert FailuresAfter(log, user, bound) == {};
    } else {
      var n := |log| - 1;
      FailuresCounted(log[..n], user, bound);
      OneMoreAttempt(log, n, user, bound);
    }
  }

  predicate IsPin(pin: Pin) {
    6 <= |pin| <= 12 && forall i :: 0 <= i < |pin| ==> '0' <= pin[i] <= '9'
  }

  /** One PIN check: whether it would match, when it looked, when it wrote. */
  datatype Check = Check(user: Uuid, isMatch: bool, checked: Time, recorded: Time)

  function Next(log: seq<Attempt>, c: Check): seq<Attempt> {
    if Locked(log, c.user, c.checked) then log else log + [Attempt(c.user, c.isMatch, c.recorded)]
  }

  class Store {
    const hash: Pin -> PinHash
    const matches: (PinHash, Pin) -> bool
    var credentials: map<Uuid, PinHash>
    var attempts: seq<Attempt>

    method SetPin(user: Uuid, pin: Pin) returns (r: Result<(), PinError>)
      modifies this`credentials
      ensures r == if IsPin(pin) then Ok(()) else Err(MalformedPin)
      ensures r.Ok? <==> 6 <= |pin| <= 12 && forall i :: 0 <= i < |pin| ==> pin[i] in "0123456789"
      ensures credentials == if IsPin(pin) then old(credentials)[user := hash(pin)] else old(credentials)
    {
      if !IsPin(pin) {
        return Err(MalformedPin);
      }
      credentials := credentials[user := hash(pin)];
      r := Ok(());
    }

    /** The window is counted at `checked`; the attempt is recorded at `recorded`, after the slow hash comparison. */
    method VerifyPin(user: Uuid, candidate: Pin, checked: Time, recorded: Time) returns (r: Result<bool, PinError>)
      modifies this`attempts
      ensures r == if |FailuresAfter(old(attempts), user, checked - 30 * 60 * 1000)| >= 5 then Err(LockedOut)
                   else if user in credentials then Ok(matches(credentials[user], candidate)) else Err(NotSet)
      ensures attempts == if r.Ok? then old(attempts) + [Attempt(user, r.value, recorded)] else old(attempts)
      ensures r.Ok? ==> attempts == Next(old(attempts), Check(user, r.value, checked, recorded))
    {
      FailuresCounted(attempts, user, checked - WINDOW);
      var failures := CountAfter(FailuresOf(attempts, user), checked - WINDOW);
      if failures >= 5 {
        return Err(LockedOut);
      }
      if user !in credentials {
        return Err(NotSet);
      }
      var isMatch := matches(credentials[user], candidate);
      attempts := attempts + [Attempt(user, isMatch, recorded)];
      r := Ok(isMatch);
    }

    /** The credential goes only to the right PIN outside a lockout; a wrong one leaves a recorded failure. */
    method DisablePin(user: Uuid, current: Pin, checked: Time, recorded: Time) returns (r: Result<(), PinError>)
      modifies this`attempts, this`credentials
      ensures r.Ok? <==> |FailuresAfter(old(attempts), user, checked - 30 * 60 * 1000)| < 5 && user in old(credentials)
                         && matches(old(credentials)[user], current)
      ensures credentials == if r.Ok? then old(credentials) - {user} else old(credentials)
      ensures attempts == if r.Ok? || r.error.IncorrectPin? then old(attempts) + [Attempt(user, r.Ok?, recorded)]
                          else old(attempts)
    {
      var checkedPin := VerifyPin(user, current, checked, recorded);
      if checkedPin.Err? {
        return Err(checkedPin.error);
      }
      if !checkedPin.value {
        return Err(IncorrectPin);
      }
      credentials := credentials - {user};
      r := Ok(());
    }
  }

  // ---- Runs ----

  function Run(log: seq<Attempt>, checks: seq<Check>): seq<Attempt>
    decreases |checks|
  {
    if checks == [] then log else Run(Next(log, checks[0]), checks[1..])
  }

  /** The checks of one user are handled one at a time; other users' may overlap them. */
  ghost predicate OneAtATime(checks: seq<Check>, user: Uuid) {
    && (forall i :: 0 <= i < |checks| && checks[i].user == user ==> checks[i].checked <= checks[i].recorded)
    && (forall i, j :: 0 <= i < j < |checks| && checks[i].user == user && checks[j].user == user ==>
                         checks[i].recorded <= checks[j].checked)
  }

  ghost predicate ApartAt(fs: seq<Time>, i: int)
    requires MAX_FAILURES <= i < |fs|
  {
    fs[i] - fs[i - MAX_FAILURES] >= WINDOW
  }

  /** Six failures in a row take at least thirty minutes. */
  ghost predicate Throttled(fs: seq<Time>) {
    && Sorted(fs)
    && forall i {:trigger ApartAt(fs, i)} :: MAX_FAILURES <= i < |fs| ==> ApartAt(fs, i)
  }

  lemma RecordKeepsThrottle(fs: seq<Time>, checked: Time, recorded: Time)
    requires Throttled(fs) && CountAfter(fs, checked - WINDOW) < MAX_FAILURES
    requires (fs != [] ==> fs[|fs| - 1] <= checked) && checked <= recorded
    ensures Throttled(fs + [recorded])
  {
    var n := |fs|;
    var fs' := fs + [recorded];
    if MAX_FAILURES <= n && fs[n - MAX_FAILURES] > checked - WINDOW {
      SuffixCounts(fs, checked - WINDOW, MAX_FAILURES);
    }
    forall i | MAX_FAILURES <= i < |fs'| ensures ApartAt(fs', i) {
      assert i < n ==> ApartAt(fs, i);
    }
  }

  lemma {:induction false} RunKeepsThrottle(log: seq<Attempt>, checks: seq<Check>, user: Uuid)
    requires Throttled(FailuresOf(log, user)) && OneAtATime(checks, user)
    requires var fs := FailuresOf(log, user);
             forall i :: 0 <= i < |checks| && checks[i].user == user && fs != [] ==> fs[|fs| - 1] <= checks[i].checked
    ensures Throttled(FailuresOf(Run(log, checks), user))
    decreases |checks|
  {
    if checks != [] {
      var c := checks[0];
      if c.user == user && !Locked(log, user, c.checked) && !c.isMatch {
        RecordKeepsThrottle(FailuresOf(log, user), c.checked, c.recorded);
      }
      RunKeepsThrottle(Next(log, c), checks[1..], user);
    }
  }

  // ---- Windows ----

  /** How many whole windows cover a length. */
  function Windows(length: Time): int {
    (length + WINDOW - 1) / WINDOW
  }

  lemma {:induction false} ManyWindows(fs: seq<Time>, i: nat, j: nat, m: nat)
    requires Throttled(fs) && i + MAX_FAILURES * m <= j < |fs|
    ensures fs[j] - fs[i] >= WINDOW * m
    decreases m
  {
    if m > 0 {
      ManyWindows(fs, i, j - MAX_FAILURES, m - 1);
      assert ApartAt(fs, j);
    }
  }

  lemma ThrottledWindow(fs: seq<Time>, a: Time, length: Time)
    requires Throttled(fs) && 0 < length
    ensures |HalfOpen(fs, a, a + length)| <= MAX_FAILURES * Windows(length)
  {
    var m := Windows(length);
    var s := HalfOpen(fs, a, a + length);
    forall i, j | i in s && j in s ensures j < i + MAX_FAILURES * m {
      if i + MAX_FAILURES * m <= j {
        ManyWindows(fs, i, j, m);
      }
    }
    CloseIndices(s, MAX_FAILURES * m);
  }

  /** With the checks of a user handled one at a time, any interval (a, a + L] holds at most 5 * ceil(L / 30 min)
      recorded failures; in particular any thirty minutes hold at most five. */
  lemma FailuresPerWindow(checks: seq<Check>, user: Uuid, a: Time, length: Time)
    requires OneAtATime(checks, user) && 0 < length
    ensures |HalfOpen(FailuresOf(Run([], checks), user), a, a + length)| <= 5 * ((length + 1_799_999) / 1_800_000)
    ensures length <= 30 * 60 * 1000 ==> |HalfOpen(FailuresOf(Run([], checks), user), a, a + length)| <= 5
  {
    RunKeepsThrottle([], checks, user);
    ThrottledWindow(FailuresOf(Run([], checks), user), a, length);
  }

  /** Counted with both ends, thirty minutes hold at most ten: five at each end. */
  lemma ClosedWindowHoldsTen(checks: seq<Check>, user: Uuid, a: Time)
    requires OneAtATime(checks, user)
    ensures |Closed(FailuresOf(Run([], checks), user), a, a + 30 * 60 * 1000)| <= 10
  {
    var fs := FailuresOf(Run([], checks), user);
    FailuresPerWindow(checks, user, a - 1, WINDOW + 1);
    assert Windows(WINDOW + 1) == 2;
    ClosedIsHalfOpen(fs, a, a + WINDOW);
  }

  /** n wrong PINs in a row: five at time 0, the rest as the window closes. */
  function BurstTime(i: nat): Time {
    if i < MAX_FAILURES then 0 else WINDOW
  }

  function Burst(user: Uuid, n: nat): seq<Check> {
    if n == 0 then [] else Burst(user, n - 1) + [Check(user, false, BurstTime(n - 1), BurstTime(n - 1))]
  }

  lemma {:induction false} RunAppend(log: seq<Attempt>, checks: seq<Check>, c: Check)
    ensures Run(log, checks + [c]) == Next(Run(log, checks), c)
    decreases |checks|
  {
    var all := checks + [c];
    if checks == [] {
      assert all[1..] == [];
      assert Run(Next(log, c), []) == Next(log, c);
    } else {
      assert all[1..] == checks[1..] + [c];
      RunAppend(Next(log, checks[0]), checks[1..], c);
    }
  }

  ghost predicate AtBurstTimes(fs: seq<Time>, n: nat) {
    |fs| == n && forall i :: 0 <= i < n ==> fs[i] == BurstTime(i)
  }

  /** As the window closes its first five are no longer counted. */
  lemma {:induction false} LateBurstCount(fs: seq<Time>, n: nat)
    requires AtBurstTimes(fs, n) && MAX_FAILURES <= n
    ensures CountAfter(fs, 0) == n - MAX_FAILURES
    decreases n
  {
    if n == MAX_FAILURES {
      NoneCount(fs, 0);
    } else {
      LateBurstCount(fs[..n - 1], n - 1);
    }
  }

  lemma BurstAdmitted(fs: seq<Time>, n: nat)
    requires AtBurstTimes(fs, n) && n < 2 * MAX_FAILURES
    ensures CountAfter(fs, BurstTime(n) - WINDOW) < MAX_FAILURES
    ensures AtBurstTimes(fs + [BurstTime(n)], n + 1)
  {
    CountAtMostLength(fs, BurstTime(n) - WINDOW);
    if MAX_FAILURES <= n {
      LateBurstCount(fs, n);
    }
  }

  lemma {:induction false} BurstRecorded(user: Uuid, n: nat)
    requires n <= 2 * MAX_FAILURES
    ensures AtBurstTimes(FailuresOf(Run([], Burst(user, n)), user), n)
    decreases n
  {
    if n > 0 {
      var m := n - 1;
      var log := Run([], Burst(user, m));
      BurstRecorded(user, m);
      RunAppend([], Burst(user, m), Check(user, false, BurstTime(m), BurstTime(m)));
      BurstAdmitted(FailuresOf(log, user), m);
    }
  }

  lemma {:induction false} BurstChecks(user: Uuid, n: nat)
    ensures |Burst(user, n)| == n
    ensures forall i :: 0 <= i < n ==> Burst(user, n)[i] == Check(user, false, BurstTime(i), BurstTime(i))
    decreases n
  {
    if n > 0 {
      BurstChecks(user, n - 1);
    }
  }

  lemma BurstWindow(fs: seq<Time>, n: nat)
    requires AtBurstTimes(fs, n)
    ensures |Closed(fs, 0, WINDOW)| == n
  {
    RangeSize(0, n);
    assert Closed(fs, 0, WINDOW) == Range(0, n);
  }

  lemma BurstFits(user: Uuid, n: nat)
    requires n <= 2 * MAX_FAILURES
    ensures OneAtATime(Burst(user, n), user)
    ensures |Closed(FailuresOf(Run([], Burst(user, n)), user), 0, WINDOW)| == n
  {
    BurstChecks(user, n);
    BurstRecorded(user, n);
    BurstWindow(FailuresOf(Run([], Burst(user, n)), user), n);
  }

  /** And a run of ten checks attains that. */
  lemma TenFailuresInAClosedWindow(user: Uuid) returns (checks: seq<Check>)
    ensures OneAtATime(checks, user)
    ensures |Closed(FailuresOf(Run([], checks), user), 0, 30 * 60 * 1000)| == 10
  {
    var n := 2 * MAX_FAILURES;
    checks := Burst(user, n);
    BurstFits(user, n);
  }
}
