/** Runs of the native registry: which handle ids are fresh, and what imports can undo. */
module RegistryRuns {
  import opened LittleEndian
  import opened HandleCodec
  import opened NativeRegistry

  datatype Step =
    | Creates(handleType: HandleType)
    | Disposes(handle: u64)
    | Exports(order: seq<u64>)
    | Imports(bytes: seq<byte>)

  /** `issued` are the ids handed out so far, `exported` the byte strings produced so far. */
  datatype World = World(handles: Handles, counter: u64, issued: set<u64>, exported: set<seq<byte>>)

  const START: World := World(map[], FIRST_HANDLE, {}, {})

  ghost function Next(w: World, s: Step): World {
    match s
    case Creates(t) =>
      w.(handles := Created(w.handles, w.counter, t), counter := Bumped(w.handles, w.counter),
         issued := if |w.handles| >= MAX_HANDLES then w.issued else w.issued + {w.counter})
    case Disposes(h) => w.(handles := Disposed(w.handles, h))
    case Exports(order) =>
      if Enumerates(order, w.handles) then w.(exported := w.exported + {Encode(order, w.handles)}) else w
    case Imports(b) => w.(handles := ImportHandles(b, w.handles))
  }

  ghost function Run(w: World, steps: seq<Step>): World
    decreases |steps|
  {
    if steps == [] then w else Run(Next(w, steps[0]), steps[1..])
  }

  /** Every import replays bytes this process has exported. */
  ghost predicate Replays(w: World, steps: seq<Step>)
    decreases |steps|
  {
    steps == [] || ((steps[0].Imports? ==> steps[0].bytes in w.exported) && Replays(Next(w, steps[0]), steps[1..]))
  }

  function Creations(steps: seq<Step>): nat {
    if steps == [] then 0 else (if steps[0].Creates? then 1 else 0) + Creations(steps[1..])
  }

  /** A registry this process could have held: its ids were issued, its size was within the limit. */
  ghost predicate Own(w: World, handles: Handles) {
    handles.Keys <= w.issued && |handles| <= MAX_HANDLES && Stamped(handles)
  }

  ghost predicate OwnBytes(w: World, b: seq<byte>) {
    ImportCode(b) == SUCCESS && Own(w, ImportHandles(b, map[]))
  }

  ghost predicate IssuedBelowCounter(w: World) {
    FIRST_HANDLE <= w.counter && forall id :: id in w.issued ==> FIRST_HANDLE <= id < w.counter
  }

  ghost predicate ExportsOwn(w: World) {
    forall b {:trigger OwnBytes(w, b)} :: b in w.exported ==> OwnBytes(w, b)
  }

  ghost predicate Inv(w: World) {
    Own(w, w.handles) && IssuedBelowCounter(w) && ExportsOwn(w)
  }

  lemma NextKeepsExports(w: World, s: Step)
    requires ExportsOwn(w) && Own(w, w.handles)
    ensures ExportsOwn(Next(w, s))
  {
    var w' := Next(w, s);
    forall b: seq<byte> | b in w'.exported ensures OwnBytes(w', b) {
      if b in w.exported {
        assert OwnBytes(w, b);
      } else {
        ImportOfExport(s.order, w.handles, map[]);
        assert b == Encode(s.order, w.handles);
      }
    }
  }

  lemma NextKeepsIssued(w: World, s: Step)
    requires IssuedBelowCounter(w) && (s.Creates? ==> w.counter + 1 < TWO_64)
    ensures IssuedBelowCounter(Next(w, s))
    ensures Next(w, s).counter <= w.counter + if s.Creates? then 1 else 0
  {}

  lemma NextKeepsInv(w: World, s: Step)
    requires Inv(w) && (s.Imports? ==> s.bytes in w.exported)
    requires s.Creates? ==> w.counter + 1 < TWO_64
    ensures Inv(Next(w, s))
  {
    assert s.Imports? ==> OwnBytes(w, s.bytes);
    NextKeepsExports(w, s);
    NextKeepsIssued(w, s);
  }

  /** The counter only moves with creations, so it does not wrap before 2^64 - 1000 of them. */
  lemma {:induction false} RunKeepsInv(w: World, steps: seq<Step>)
    requires Inv(w) && w.counter + Creations(steps) < TWO_64 && Replays(w, steps)
    ensures Inv(Run(w, steps)) && Run(w, steps).counter <= w.counter + Creations(steps)
    decreases |steps|
  {
    if steps != [] {
      NextKeepsInv(w, steps[0]);
      NextKeepsIssued(w, steps[0]);
      RunKeepsInv(Next(w, steps[0]), steps[1..]);
    }
  }

  /** One more handle, under an id never issued before; the others are as they were. */
  ghost predicate AddsFresh(w: World, w': World) {
    && w.counter !in w.issued && w'.issued == w.issued + {w.counter}
    && |w'.handles| == |w.handles| + 1 && w.counter in w'.handles
    && (forall id :: id in w.handles ==> id in w'.handles && w'.handles[id] == w.handles[id])
  }

  /** In every run whose imports only replay this process's exports: all ids in the registry were issued and lie
      below the counter, the registry never exceeds its limit, and a creation that succeeds returns an id never
      issued before and grows the registry by one. */
  lemma {:induction false} CreationsAreFresh(steps: seq<Step>, t: HandleType)
    requires Replays(START, steps) && 1000 + Creations(steps) + 1 < TWO_64
    ensures var w := Run(START, steps); var w' := Next(w, Creates(t));
            && w.handles.Keys <= w.issued && |w.handles| <= 10_000
            && (forall id :: id in w.issued ==> 1000 <= id < w.counter)
            && (|w.handles| < 10_000 ==> AddsFresh(w, w'))
  {
    assert Inv(START);
    RunKeepsInv(START, steps);
  }

  // ---- Imports that are not replays ----

  lemma EncodedAlone(id: u64, e: Entry, before: Handles) returns (bytes: seq<byte>)
    requires e.createdAtMs == CREATED_AT_MS
    ensures ImportCode(bytes) == SUCCESS && ImportHandles(bytes, before) == map[id := e]
  {
    var order, foreign: Handles := [id], map[id := e];
    assert foreign.Keys == {id};
    bytes := Encode(order, foreign);
    ImportOfExport(order, foreign, before);
  }

  /** Importing foreign bytes does not move the counter, so the next creation can overwrite an imported handle. */
  lemma ForeignImportCollides(w: World, e: Entry, t: HandleType) returns (bytes: seq<byte>)
    requires e.createdAtMs == CREATED_AT_MS
    ensures ImportCode(bytes) == SUCCESS
    ensures var w1 := Next(w, Imports(bytes)); var w2 := Next(w1, Creates(t));
            && w1.handles == map[w.counter := e] && w2.handles == map[w.counter := NewEntry(t)]
  {
    bytes := EncodedAlone(w.counter, e, w.handles);
  }

  // ---- Disposed handles ----

  ghost predicate Stale(handles: Handles, h: u64) {
    h in handles && !handles[h].isActive
  }

  /** Without imports a disposed handle stays stale for ever: it can be neither used nor disposed again. */
  lemma {:induction false} DisposedStaysStale(w: World, steps: seq<Step>, h: u64, inLen: nat, outMaxLen: nat)
    requires Stale(w.handles, h) && FIRST_HANDLE <= w.counter && h < w.counter
    requires w.counter + Creations(steps) < TWO_64
    requires forall k :: 0 <= k < |steps| ==> !steps[k].Imports?
    ensures var handles := Run(w, steps).handles;
            && Stale(handles, h) && DisposeCode(handles, h) == -3
            && (inLen <= 10 * 1024 * 1024 ==> TransformCode(handles, h, inLen, outMaxLen) == -3)
    decreases |steps|
  {
    if steps != [] {
      DisposedStaysStale(Next(w, steps[0]), steps[1..], h, inLen, outMaxLen);
    }
  }

  /** With a replay it does not: exporting, disposing and importing brings the handle back to life. */
  lemma ReplayRevivesHandle(w: World, order: seq<u64>, h: u64)
    requires Enumerates(order, w.handles) && Sound(w.handles) && h in w.handles && w.handles[h].isActive
    ensures var steps := [Exports(order), Disposes(h), Imports(Encode(order, w.handles))];
            Replays(w, steps) && Stale(Next(Next(w, steps[0]), steps[1]).handles, h)
            && Run(w, steps).handles == w.handles
  {
    var bytes := Encode(order, w.handles);
    var s0, s1, s2 := Exports(order), Disposes(h), Imports(bytes);
    var w1 := Next(w, s0);
    var w2 := Next(w1, s1);
    ImportOfExport(order, w.handles, w2.handles);
    var steps := [s0, s1, s2];
    assert steps[1..] == [s1, s2] && steps[1..][1..] == [s2] && steps[1..][1..][1..] == [];
    assert Run(w2, [s2]) == Run(Next(w2, s2), []);
    assert Run(w1, [s1, s2]) == Run(w2, [s2]);
    assert Replays(w2, [s2]);
    assert Replays(w1, [s1, s2]);
  }
}
