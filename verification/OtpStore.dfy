/** The challenge table, its two operations, and verifications racing on one challenge. */
module OtpStore {
  import opened Common
  import opened EventLog
  import opened OtpService
  import C = StaleCounter

  datatype RequestError = CooldownActive(secondsRemaining: int) | DatabaseError

  datatype VerifyError = UnknownChallenge | AlreadyVerified | ChallengeExpired | TooManyAttempts

  datatype Reply = Reply(challengeId: Uuid, resendAvailableAt: Time, expiresAt: Time)

  function LogOf(cs: seq<Challenge>): seq<Issue> {
    if cs == [] then []
    else LogOf(cs[..|cs| - 1]) + [Issue(cs[|cs| - 1].phone, cs[|cs| - 1].createdAt)]
  }

  predicate Verifiable(c: Challenge, now: Time) {
    !c.isVerified && now <= c.expiresAt && c.attempts < c.maxAttempts
  }

  function Marked(c: Challenge, isMatch: bool): Challenge {
    c.(isVerified := c.isVerified || isMatch, attempts := c.attempts + 1)
  }

  /** One verification of one challenge by itself; None when it is refused without being counted. */
  function Try(c: Challenge, hash: Digest, now: Time): (Challenge, Option<bool>) {
    if Verifiable(c, now) then (Marked(c, hash == c.verifierHash), Some(hash == c.verifierHash)) else (c, None)
  }

  lemma {:induction false} MarkingKeepsLog(cs: seq<Challenge>, k: nat, isMatch: bool)
    requires k < |cs|
    ensures LogOf(cs[k := Marked(cs[k], isMatch)]) == LogOf(cs)
    decreases |cs|
  {
    var cs' := cs[k := Marked(cs[k], isMatch)];
    var n := |cs| - 1;
    if k < n {
      assert cs'[..n] == cs[..n][k := Marked(cs[..n][k], isMatch)];
      MarkingKeepsLog(cs[..n], k, isMatch);
    } else {
      assert cs'[..n] == cs[..n];
    }
  }

  lemma {:induction false} LogOfRows(cs: seq<Challenge>)
    ensures |LogOf(cs)| == |cs|
    ensures forall k :: 0 <= k < |cs| ==> LogOf(cs)[k] == Issue(cs[k].phone, cs[k].createdAt)
    decreases |cs|
  {
    if cs != [] {
      LogOfRows(cs[..|cs| - 1]);
    }
  }

  /** The challenges of a phone created after the bound. */
  function CreatedAfter(cs: seq<Challenge>, phone: Uuid, bound: Time): set<nat> {
    set k: nat | k < |cs| && cs[k].phone == phone && cs[k].createdAt > bound
  }

  /** The count the cooldown is decided by, read off the table. */
  lemma RowsCounted(cs: seq<Challenge>, phone: Uuid, bound: Time)
    ensures CountAfter(TimesOf(LogOf(cs), phone), bound) == |CreatedAfter(cs, phone, bound)|
  {
    LogOfRows(cs);
    RecentCounted(LogOf(cs), phone, bound);
    assert RecentOf(LogOf(cs), phone, bound) == CreatedAfter(cs, phone, bound);
  }

  class Store {
    const hmac: (Uuid, nat) -> Digest
    /** In order of insertion, which is the order of creation. */
    var challenges: seq<Challenge>

    ghost predicate UniqueIds()
      reads this
    {
      forall i, j :: 0 <= i < j < |challenges| ==> challenges[i].id != challenges[j].id
    }

    /** The cooldown, then one row, and the row is what TimesOf counts next time. */
    method RequestOtpChallenge(phone: Uuid, id: Uuid, code: nat, now: Time) returns (r: Result<Reply, RequestError>)
      requires UniqueIds()
      modifies this`challenges
      ensures UniqueIds()
      ensures r.Ok? ==> LogOf(challenges) == Next(LogOf(old(challenges)), Issue(phone, now)) != LogOf(old(challenges))
      ensures r.Ok? ==>
                && challenges == old(challenges) + [challenges[|challenges| - 1]]
                && challenges[|challenges| - 1]
                   == Challenge(id, phone, hmac(id, code), 0, 3, r.value.expiresAt,
                                r.value.resendAvailableAt, false, now)
                && var recent := |CreatedAfter(old(challenges), phone, now - 24 * 60 * 60 * 1000)|;
                   var cooldown := if recent == 0 then 60 else if recent == 1 then 120 else 300;
                   r.value == Reply(id, now + cooldown * 1000, now + 5 * 60 * 1000)
      ensures r.Err? ==> challenges == old(challenges)
      ensures r.Err? && r.error.CooldownActive? ==>
                var ts := TimesOf(LogOf(challenges), phone);
                !Allowed(ts, now) && ts != [] &&
                var cooldown := if CountAfter(ts, now - 24 * 60 * 60 * 1000) == 1 then 120 else 300;
                var wait := ts[|ts| - 1] + cooldown * 1000 - now;
                0 < wait && (r.error.secondsRemaining - 1) * 1000 < wait <= r.error.secondsRemaining * 1000
      ensures Allowed(TimesOf(LogOf(old(challenges)), phone), now) && (forall c :: c in old(challenges) ==> c.id != id)
              ==> r.Ok?
    {
      var rows := TimesOf(LogOf(challenges), phone);
      var recent := CountAfter(rows, now - DAY);
      CountAtMostLength(rows, now - DAY);
      RowsCounted(challenges, phone, now - DAY);
      var cooldown := 60 * SECOND;
      if recent == 1 {
        cooldown := 120 * SECOND;
      } else if recent >= 2 {
        cooldown := 300 * SECOND;
      }
      if recent > 0 {
        var lastCreated := rows[|rows| - 1];
        if now - lastCreated < cooldown {
          var wait := cooldown - (now - lastCreated);
          return Err(CooldownActive((wait + 999) / 1000));
        }
      }
      if exists c :: c in challenges && c.id == id {
        return Err(DatabaseError);
      }
      var expiresAt := now + CODE_TTL;
      var resendAvailableAt := now + cooldown;
      var row := Challenge(id, phone, hmac(id, code), 0, MAX_ATTEMPTS, expiresAt, resendAvailableAt, false, now);
      assert (challenges + [row])[..|challenges|] == challenges;
      challenges := challenges + [row];
      r := Ok(Reply(id, resendAvailableAt, expiresAt));
    }

    /** One verification with nothing running between its query and its update. */
    method VerifyOtpChallenge(id: Uuid, candidate: nat, now: Time) returns (r: Result<bool, VerifyError>)
      requires UniqueIds()
      modifies this`challenges
      ensures UniqueIds() && LogOf(challenges) == LogOf(old(challenges))
      ensures |challenges| == |old(challenges)|
      ensures forall k :: 0 <= k < |challenges| ==>
                var c := old(challenges)[k];
                challenges[k] == if r.Ok? && c.id == id then c.(isVerified := r.value, attempts := c.attempts + 1)
                                 else c
      ensures forall k :: 0 <= k < |challenges| && old(challenges)[k].id == id ==>
                (challenges[k], if r.Ok? then Some(r.value) else None)
                == Try(old(challenges)[k], hmac(id, candidate), now)
      ensures forall c :: c in old(challenges) && c.id == id ==>
                && (r.Ok? <==> !c.isVerified && now <= c.expiresAt && c.attempts < c.maxAttempts)
                && (r.Ok? ==> r.value == (c.verifierHash == hmac(id, candidate)))
                && (r == Err(AlreadyVerified) <==> c.isVerified)
                && (r == Err(ChallengeExpired) <==> !c.isVerified && c.expiresAt < now)
                && (r == Err(TooManyAttempts) <==> !c.isVerified && now <= c.expiresAt && c.attempts >= c.maxAttempts)
      ensures r == Err(UnknownChallenge) <==> forall c :: c in old(challenges) ==> c.id != id
    {
      if k :| 0 <= k < |challenges| && challenges[k].id == id {
        var c := challenges[k];
        assert c in challenges;
        if c.isVerified {
          return Err(AlreadyVerified);
        }
        if c.expiresAt < now {
          return Err(ChallengeExpired);
        }
        if c.attempts >= c.maxAttempts {
          return Err(TooManyAttempts);
        }
        var isMatch := hmac(id, candidate) == c.verifierHash;
        MarkingKeepsLog(challenges, k, isMatch);
        challenges := challenges[k := c.(isVerified := c.isVerified || isMatch, attempts := c.attempts + 1)];
        r := Ok(isMatch);
      } else {
        r := Err(UnknownChallenge);
      }
    }
  }

  // ---- Verifications one at a time ----

  datatype Guess = Guess(hash: Digest, at: Time)

  /** How many of the guesses, tried one after the other, get this answer. */
  function Answers(c: Challenge, guesses: seq<Guess>, answer: bool): nat
    decreases |guesses|
  {
    if guesses == [] then 0
    else
      var (d, a) := Try(c, guesses[0].hash, guesses[0].at);
      (if a == Some(answer) then 1 else 0) + Answers(d, guesses[1..], answer)
  }

  /** Over every run of guesses a code is accepted at most once, not at all once it has been, and all answers together
      stay within the attempts that are left. */
  lemma {:induction false} AcceptedOnce(c: Challenge, guesses: seq<Guess>)
    ensures Answers(c, guesses, true) <= if c.isVerified then 0 else 1
    ensures Answers(c, guesses, true) + Answers(c, guesses, false)
            <= if c.attempts <= c.maxAttempts then c.maxAttempts - c.attempts else 0
    decreases |guesses|
  {
    if guesses != [] {
      AcceptedOnce(Try(c, guesses[0].hash, guesses[0].at).0, guesses[1..]);
    }
  }

  /** And it is accepted at the first guess with the right hash made in time, while attempts are left. */
  lemma RightGuessAccepted(c: Challenge, g: Guess)
    ensures Try(c, g.hash, g.at).1 == Some(true) <==>
              g.hash == c.verifierHash && !c.isVerified && g.at <= c.expiresAt && c.attempts < c.maxAttempts
    ensures Try(c, g.hash, g.at).1 == Some(true) ==>
              Try(c, g.hash, g.at).0 == c.(isVerified := true, attempts := c.attempts + 1)
  {}

  // ---- Verifications in flight together ----

  /** The row lock is taken outside a transaction, so it is gone before the update runs. */
  datatype Flight = Flight(challenge: Uuid, isMatch: bool)

  datatype World = World(challenges: map<Uuid, Challenge>, slots: set<Uuid>, flights: map<Uuid, Flight>)

  datatype Step =
    | Issues(id: Uuid, challenge: Challenge)
    | Looks(slot: Uuid, id: Uuid, hash: Digest, now: Time)
    | Updates(slot: Uuid)
    | Drops(slot: Uuid)

  function Step1(w: World, s: Step): World {
    match s
    case Issues(id, c) =>
      if id in w.challenges then w
      else w.(challenges := w.challenges[id := c.(attempts := 0, maxAttempts := MAX_ATTEMPTS, isVerified := false)])
    case Looks(slot, id, hash, now) =>
      if slot in w.slots && slot !in w.flights && id in w.challenges && Verifiable(w.challenges[id], now)
      then w.(flights := w.flights[slot := Flight(id, hash == w.challenges[id].verifierHash)]) else w
    case Updates(slot) =>
      if slot in w.flights && w.flights[slot].challenge in w.challenges then
        var id := w.flights[slot].challenge;
        w.(challenges := w.challenges[id := Marked(w.challenges[id], w.flights[slot].isMatch)],
           flights := w.flights - {slot})
      else w
    case Drops(slot) => w.(flights := w.flights - {slot})
  }

  function Race(w: World, steps: seq<Step>): World
    decreases |steps|
  {
    if steps == [] then w else Race(Step1(w, steps[0]), steps[1..])
  }

  ghost function CounterOf(w: World, id: Uuid): C.Counter {
    C.Counter(if id in w.challenges then w.challenges[id].attempts else 0,
              (set x | x in w.flights && w.flights[x].challenge == id),
              w.slots)
  }

  ghost predicate FlightsKnown(w: World) {
    && w.flights.Keys <= w.slots
    && (forall x :: x in w.flights ==> w.flights[x].challenge in w.challenges)
    && (forall id :: id in w.challenges ==> w.challenges[id].maxAttempts == MAX_ATTEMPTS)
  }

  lemma StepRefinesCounter(w: World, s: Step, id: Uuid)
    requires FlightsKnown(w)
    ensures FlightsKnown(Step1(w, s))
    ensures C.Next(CounterOf(w, id), CounterOf(Step1(w, s), id), MAX_ATTEMPTS)
  {
    var c, d := CounterOf(w, id), CounterOf(Step1(w, s), id);
    match s
    case Issues(i, _) => assert d.holders == c.holders;
    case Looks(slot, i, hash, now) =>
      if i == id && slot in w.slots && slot !in w.flights && i in w.challenges && Verifiable(w.challenges[i], now) {
        assert d.holders == c.holders + {slot};
        assert C.Checks(c, d, MAX_ATTEMPTS, slot);
      } else {
        assert d.holders == c.holders;
      }
    case Updates(slot) =>
      if slot in w.flights && w.flights[slot].challenge == id {
        assert d.holders == c.holders - {slot};
        assert C.Increments(c, d, slot);
      } else {
        assert d.holders == c.holders;
      }
    case Drops(slot) =>
      assert d.holders == c.holders - {slot};
      assert C.GivesUp(c, d, slot);
  }

  lemma {:induction false} RaceKeepsBound(w: World, steps: seq<Step>, id: Uuid)
    requires FlightsKnown(w) && C.Bounded(CounterOf(w, id), MAX_ATTEMPTS)
    ensures FlightsKnown(Race(w, steps)) && C.Bounded(CounterOf(Race(w, steps), id), MAX_ATTEMPTS)
    ensures Race(w, steps).slots == w.slots
    decreases |steps|
  {
    if steps != [] {
      StepRefinesCounter(w, steps[0], id);
      C.NextKeepsBound(CounterOf(w, id), CounterOf(Step1(w, steps[0]), id), MAX_ATTEMPTS);
      RaceKeepsBound(Step1(w, steps[0]), steps[1..], id);
    }
  }

  /** With k verifications in flight a challenge takes at most max_attempts - 1 + k attempts. */
  lemma OtpAttemptsBounded(slots: set<Uuid>, steps: seq<Step>, id: Uuid)
    requires id in Race(World(map[], slots, map[]), steps).challenges
    ensures var c := Race(World(map[], slots, map[]), steps).challenges[id];
            c.maxAttempts == 3 && c.attempts <= 2 + |slots|
  {
    var w := World(map[], slots, map[]);
    assert CounterOf(w, id).holders == {};
    RaceKeepsBound(w, steps, id);
  }

  // ---- How often a code is accepted in a race ----

  /** A verified challenge stays verified, and no later verification gets past its query. */
  lemma {:induction false} VerifiedStays(w: World, steps: seq<Step>, id: Uuid, slot: Uuid, hash: Digest, now: Time)
    requires id in w.challenges && w.challenges[id].isVerified
    ensures var w' := Race(w, steps);
            && id in w'.challenges && w'.challenges[id].isVerified
            && Step1(w', Looks(slot, id, hash, now)) == w'
    decreases |steps|
  {
    if steps != [] {
      VerifiedStays(Step1(w, steps[0]), steps[1..], id, slot, hash, now);
    }
  }

  /** The update of a verification that found the code right: it answers true. */
  predicate Accepts(w: World, s: Step, id: Uuid) {
    s.Updates? && s.slot in w.flights && w.flights[s.slot] == Flight(id, true) && id in w.challenges
  }

  function Acceptances(w: World, steps: seq<Step>, id: Uuid): nat
    decreases |steps|
  {
    if steps == [] then 0
    else (if Accepts(w, steps[0], id) then 1 else 0) + Acceptances(Step1(w, steps[0]), steps[1..], id)
  }

  ghost function Holders(w: World, id: Uuid): set<Uuid> {
    set x | x in w.flights && w.flights[x].challenge == id
  }

  /** Whether the challenge can still be looked at. */
  predicate IsOpen(w: World, id: Uuid) {
    id !in w.challenges || !w.challenges[id].isVerified
  }

  lemma StepKeepsShut(w: World, s: Step, id: Uuid)
    requires FlightsKnown(w)
    ensures FlightsKnown(Step1(w, s)) && Step1(w, s).slots == w.slots
    ensures !IsOpen(w, id) ==> !IsOpen(Step1(w, s), id) && Holders(Step1(w, s), id) <= Holders(w, id)
    ensures Accepts(w, s, id) ==> !IsOpen(Step1(w, s), id) && s.slot in Holders(w, id)
                                  && Holders(Step1(w, s), id) == Holders(w, id) - {s.slot}
  {}

  /** With k verifications in flight a code is accepted at most k times; once it has been, only by those that were
      already past their query. */
  lemma {:induction false} AcceptedAtMostOncePerSlot(w: World, steps: seq<Step>, id: Uuid)
    requires FlightsKnown(w)
    ensures Acceptances(w, steps, id) <= |w.slots|
    ensures !IsOpen(w, id) ==> Acceptances(w, steps, id) <= |Holders(w, id)|
    decreases |steps|
  {
    SubsetSize(Holders(w, id), w.slots);
    if steps != [] {
      var w' := Step1(w, steps[0]);
      StepKeepsShut(w, steps[0], id);
      AcceptedAtMostOncePerSlot(w', steps[1..], id);
      if !IsOpen(w, id) {
        SubsetSize(Holders(w', id), Holders(w, id));
      }
    }
  }
}
