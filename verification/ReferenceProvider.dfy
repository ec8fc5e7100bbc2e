/** The simple reference provider, and its simulation by the native registry. */
module ReferenceProvider {
  import opened Common
  import opened LittleEndian
  import opened HandleCodec
  import opened NativeRegistry
  import opened DartBoundary

  /** Handle ids in native numbering are the reference provider's plus this. */
  const OFFSET := 899

  datatype ReferenceState = ReferenceState(counter: int, active: set<int>)

  const REFERENCE_START: ReferenceState := ReferenceState(100, {})

  /** The calls a client makes; handles are named by the reference provider's ids. */
  datatype Call =
    | Create(handleType: HandleType)
    | Transform(session: int, payload: seq<byte>)
    | Dispose(arg: HandleArg)

  datatype Outcome = Issued(id: int) | Returned(payload: seq<byte>) | Done | Rejected

  function ReferenceNext(s: ReferenceState, c: Call): (ReferenceState, Outcome) {
    match c
    case Create(_) => (ReferenceState(s.counter + 1, s.active + {s.counter + 1}), Issued(s.counter + 1))
    case Transform(h, p) => (s, if h in s.active then Returned(p) else Rejected)
    case Dispose(Opaque(h)) => if h in s.active then (s.(active := s.active - {h}), Done) else (s, Rejected)
    case Dispose(_) => (s, Done)
  }

  class TestBoundaryCryptoProvider {
    var counter: int
    var activeHandles: set<int>

    ghost function State(): ReferenceState
      reads this
    {
      ReferenceState(counter, activeHandles)
    }

    constructor ()
      ensures State() == REFERENCE_START && counter == 100 && activeHandles == {}
    {
      counter, activeHandles := 100, {};
    }

    /** initializeDeviceIdentity, establishOutboundSession and createGroupState. */
    method CreateHandle(t: HandleType) returns (id: int)
      modifies this
      ensures (State(), Issued(id)) == ReferenceNext(old(State()), Create(t))
      ensures id == counter == old(counter) + 1 && activeHandles == old(activeHandles) + {id}
    {
      counter := counter + 1;
      id := counter;
      activeHandles := activeHandles + {id};
    }

    /** encryptPayload and decryptPayload. */
    method TransformPayload(session: int, payload: seq<byte>) returns (r: Option<seq<byte>>)
      ensures ReferenceNext(State(), Transform(session, payload)).1 == (if r.Some? then Returned(r.value) else Rejected)
      ensures r == if session in activeHandles then Some(payload) else None
    {
      if session !in activeHandles {
        return None;
      }
      r := Some(payload);
    }

    /** Anything but a handle object is ignored without an error. */
    method DisposeHandle(arg: HandleArg) returns (ok: bool)
      modifies this`activeHandles
      ensures (State(), if ok then Done else Rejected) == ReferenceNext(old(State()), Dispose(arg))
      ensures ok <==> (arg.Opaque? ==> arg.handleId in old(activeHandles))
      ensures activeHandles == if arg.Opaque? then old(activeHandles) - {arg.handleId} else old(activeHandles)
    {
      if arg.Opaque? {
        if arg.handleId !in activeHandles {
          return false;
        }
        activeHandles := activeHandles - {arg.handleId};
      }
      ok := true;
    }
  }

  // ---- The native registry making the same calls ----

  datatype NativeState = NativeState(handles: Handles, counter: u64)

  const NATIVE_START: NativeState := NativeState(map[], FIRST_HANDLE)

  predicate InRange(id: int) {
    0 <= id + OFFSET < TWO_64
  }

  /** The handle the native wrapper disposes, in the reference provider's numbering; 0 for what it does not know. */
  function Target(arg: HandleArg): int {
    match arg
    case Opaque(h) => h
    case Raw(h) => h
    case Other => -OFFSET
  }

  /** The Dart wrapper over the native calls; ids are translated on the way in and out. */
  function NativeNext(n: NativeState, c: Call): (NativeState, Outcome) {
    match c
    case Create(t) =>
      (NativeState(Created(n.handles, n.counter, t), Bumped(n.handles, n.counter)),
       if |n.handles| >= MAX_HANDLES then Rejected else Issued(n.counter - OFFSET))
    case Transform(h, p) =>
      (n, if InRange(h) && TransformCode(n.handles, h + OFFSET, |p|, |p| + 1024) == SUCCESS then Returned(p)
          else Rejected)
    case Dispose(arg) =>
      var h := Target(arg);
      if InRange(h) && DisposeCode(n.handles, h + OFFSET) == SUCCESS
      then (n.(handles := Disposed(n.handles, h + OFFSET)), Done) else (n, Rejected)
  }

  predicate ActiveNatively(n: NativeState, h: int) {
    InRange(h) && h + OFFSET in n.handles && n.handles[h + OFFSET].isActive
  }

  /** A reference id is active exactly when its native counterpart is in the registry and active. */
  ghost predicate SameActive(n: NativeState, s: ReferenceState, h: int) {
    h in s.active <==> ActiveNatively(n, h)
  }

  /** Same ids issued. */
  ghost predicate SameIds(n: NativeState, s: ReferenceState) {
    && n.counter == s.counter + 1 + OFFSET && FIRST_HANDLE <= n.counter
    && |n.handles| == n.counter - FIRST_HANDLE
    && (forall id {:trigger id in n.handles} :: id in n.handles <==> FIRST_HANDLE <= id < n.counter)
  }

  /** Same ids issued, same ids active. */
  ghost predicate Simulates(n: NativeState, s: ReferenceState) {
    SameIds(n, s) && forall h {:trigger SameActive(n, s, h)} :: SameActive(n, s, h)
  }

  /** When both sides answer alike: within the native limits on the size of the registry, the size of the payload and
      the type of the handle; and for a disposal by anything but a handle object, which the reference provider ignores,
      when the native side finds something to dispose. */
  predicate WithinGuards(n: NativeState, c: Call) {
    match c
    case Create(_) => |n.handles| < MAX_HANDLES
    case Transform(h, p) =>
      ActiveNatively(n, h) ==> |p| <= MAX_BUFFER_SIZE && n.handles[h + OFFSET].handleType == Session
    case Dispose(arg) => arg.Opaque? || ActiveNatively(n, Target(arg))
  }

  /** When both sides stay in step: a disposal by anything but a handle object must find nothing to dispose. */
  predicate StaysInStep(n: NativeState, c: Call) {
    match c
    case Create(_) => |n.handles| < MAX_HANDLES
    case Transform(_, _) => true
    case Dispose(arg) => arg.Opaque? || !ActiveNatively(n, Target(arg))
  }

  lemma StrayDispose(n: NativeState, s: ReferenceState, arg: HandleArg)
    requires Simulates(n, s) && !arg.Opaque?
    ensures NativeNext(n, Dispose(arg)).1 == ReferenceNext(s, Dispose(arg)).1 <==> ActiveNatively(n, Target(arg))
    ensures Simulates(NativeNext(n, Dispose(arg)).0, s) <==> !ActiveNatively(n, Target(arg))
  {
    var h := Target(arg);
    var n' := NativeNext(n, Dispose(arg)).0;
    assert SameActive(n, s, h);
    assert ActiveNatively(n, h) ==> !SameActive(n', s, h);
  }

  lemma CreateKeepsActive(n: NativeState, s: ReferenceState, t: HandleType, h: int)
    requires Simulates(n, s) && n.counter + 1 < TWO_64 && |n.handles| < MAX_HANDLES
    ensures SameActive(NativeNext(n, Create(t)).0, ReferenceNext(s, Create(t)).0, h)
  {
    assert SameActive(n, s, h);
    assert h == s.counter + 1 <==> h + OFFSET == n.counter;
  }

  lemma CreateKeepsStep(n: NativeState, s: ReferenceState, t: HandleType)
    requires Simulates(n, s) && n.counter + 1 < TWO_64 && |n.handles| < MAX_HANDLES
    ensures Simulates(NativeNext(n, Create(t)).0, ReferenceNext(s, Create(t)).0)
  {
    forall h: int ensures SameActive(NativeNext(n, Create(t)).0, ReferenceNext(s, Create(t)).0, h) {
      CreateKeepsActive(n, s, t, h);
    }
  }

  lemma CreateAgrees(n: NativeState, s: ReferenceState, t: HandleType)
    requires Simulates(n, s) && n.counter + 1 < TWO_64
    ensures NativeNext(n, Create(t)).1 == ReferenceNext(s, Create(t)).1 <==> |n.handles| < MAX_HANDLES
    ensures Simulates(NativeNext(n, Create(t)).0, ReferenceNext(s, Create(t)).0) <==> |n.handles| < MAX_HANDLES
  {
    if |n.handles| < MAX_HANDLES {
      CreateKeepsStep(n, s, t);
    }
  }

  lemma DisposeAgrees(n: NativeState, s: ReferenceState, h: int)
    requires Simulates(n, s)
    ensures NativeNext(n, Dispose(Opaque(h))).1 == ReferenceNext(s, Dispose(Opaque(h))).1
    ensures Simulates(NativeNext(n, Dispose(Opaque(h))).0, ReferenceNext(s, Dispose(Opaque(h))).0)
  {
    var n', s' := NativeNext(n, Dispose(Opaque(h))).0, ReferenceNext(s, Dispose(Opaque(h))).0;
    assert SameActive(n, s, h);
    assert n'.handles.Keys == n.handles.Keys;
    forall k: int ensures SameActive(n', s', k) {
      assert SameActive(n, s, k);
    }
  }

  /** One call, any call: exactly when both sides answer alike, and exactly when they stay in step. A disposal by a bare
      number never does both. */
  lemma CallsAgreeIff(n: NativeState, s: ReferenceState, c: Call)
    requires Simulates(n, s) && n.counter + 1 < TWO_64
    ensures NativeNext(n, c).1 == ReferenceNext(s, c).1 <==> WithinGuards(n, c)
    ensures Simulates(NativeNext(n, c).0, ReferenceNext(s, c).0) <==> StaysInStep(n, c)
  {
    match c
    case Create(t) => CreateAgrees(n, s, t);
    case Transform(h, p) => assert SameActive(n, s, h);
    case Dispose(Opaque(h)) => DisposeAgrees(n, s, h);
    case Dispose(arg) => StrayDispose(n, s, arg);
  }

  // ---- Whole traces ----

  ghost function ReferenceTrace(s: ReferenceState, calls: seq<Call>): seq<Outcome>
    decreases |calls|
  {
    if calls == [] then []
    else [ReferenceNext(s, calls[0]).1] + ReferenceTrace(ReferenceNext(s, calls[0]).0, calls[1..])
  }

  ghost function NativeTrace(n: NativeState, calls: seq<Call>): seq<Outcome>
    decreases |calls|
  {
    if calls == [] then []
    else [NativeNext(n, calls[0]).1] + NativeTrace(NativeNext(n, calls[0]).0, calls[1..])
  }

  function Creations(calls: seq<Call>): nat {
    if calls == [] then 0 else (if calls[0].Create? then 1 else 0) + Creations(calls[1..])
  }

  /** `kinds` are the types of the handles issued so far, in order: payload calls go to session handles only and
      stay within the size limit, and disposals name handle objects. A client can check this without
      looking at either provider. */
  predicate Polite(kinds: seq<HandleType>, calls: seq<Call>)
    decreases |calls|
  {
    if calls == [] then true
    else
      match calls[0]
      case Create(t) => Polite(kinds + [t], calls[1..])
      case Transform(h, p) =>
        |p| <= 10 * 1024 * 1024 && (101 <= h <= 100 + |kinds| ==> kinds[h - 101] == Session)
        && Polite(kinds, calls[1..])
      case Dispose(arg) => arg.Opaque? && Polite(kinds, calls[1..])
  }

  /** The k-th handle issued has the k-th type. */
  ghost predicate Typed(n: NativeState, kinds: seq<HandleType>) {
    && n.counter == FIRST_HANDLE + |kinds|
    && forall k :: 0 <= k < |kinds| ==>
         FIRST_HANDLE + k in n.handles && n.handles[FIRST_HANDLE + k].handleType == kinds[k]
  }

  lemma {:induction false} TracesAgree(n: NativeState, s: ReferenceState, kinds: seq<HandleType>, calls: seq<Call>)
    requires Simulates(n, s) && Typed(n, kinds) && Polite(kinds, calls) && |kinds| + Creations(calls) <= MAX_HANDLES
    ensures NativeTrace(n, calls) == ReferenceTrace(s, calls)
    decreases |calls|
  {
    if calls != [] {
      var c := calls[0];
      if c.Transform? && InRange(c.session) && c.session + OFFSET in n.handles {
        assert n.handles[FIRST_HANDLE + (c.session - 101)].handleType == kinds[c.session - 101];
      }
      CallsAgreeIff(n, s, c);
      var kinds' := if c.Create? then kinds + [c.handleType] else kinds;
      TracesAgree(NativeNext(n, c).0, ReferenceNext(s, c).0, kinds', calls[1..]);
    }
  }

  /** The native registry simulates the reference provider: over every trace with at most 10,000 creations whose
      payload calls name session handles and stay within 10 MiB and whose disposals pass handle objects, both accept
      and reject the same calls and return the same bytes, with native ids 899 above the reference ones. */
  lemma NativeSimulatesReference(calls: seq<Call>)
    requires Polite([], calls) && Creations(calls) <= 10_000
    ensures NativeTrace(NATIVE_START, calls) == ReferenceTrace(REFERENCE_START, calls)
  {
    TracesAgree(NATIVE_START, REFERENCE_START, [], calls);
  }
}
