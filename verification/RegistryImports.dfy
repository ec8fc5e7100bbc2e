/** What arbitrary imports do to freshness, to the size limit and to disposed handles, with exact conditions. */
module RegistryImports {
  import opened LittleEndian
  import opened HandleCodec
  import opened NativeRegistry
  import opened RegistryRuns

  // ---- The keys an import leaves ----

  function Ids(b: seq<byte>, n: nat): set<u64>
    requires AllReadable(b, n)
  {
    set k: nat | k < n && Readable(b, k) :: IdAt(b, k)
  }

  lemma {:induction false} KeysOfFold(b: seq<byte>, n: nat)
    requires AllReadable(b, n)
    ensures Fold(b, n).Keys == Ids(b, n)
    decreases n
  {
    if n > 0 {
      assert Readable(b, n - 1);
      KeysOfFold(b, n - 1);
      assert Ids(b, n) == Ids(b, n - 1) + {IdAt(b, n - 1)};
    }
  }

  /** The ids of the records an import reads before it stops. */
  function ImportedIds(b: seq<byte>): set<u64>
    requires Clears(b)
  {
    ReachedIsFirstBad(b, 0);
    Ids(b, Reached(b, 0))
  }

  lemma ImportKeys(b: seq<byte>, before: Handles)
    requires Clears(b)
    ensures ImportHandles(b, before).Keys == ImportedIds(b)
  {
    ReachedIsFirstBad(b, 0);
    KeysOfFold(b, Reached(b, 0));
  }

  // ---- Freshness ----

  /** The id the j-th creation from here would be given; the counter wraps. */
  function Upcoming(counter: u64, j: nat): u64 {
    (counter + j) % TWO_64
  }

  function CreateAll(ts: seq<HandleType>): seq<Step> {
    seq(|ts|, k requires 0 <= k < |ts| => Creates(ts[k]))
  }

  ghost predicate Clear(keys: set<u64>, counter: u64, n: nat) {
    forall j: nat {:trigger Upcoming(counter, j)} :: j < n ==> Upcoming(counter, j) !in keys
  }

  lemma ClearStep(keys: set<u64>, counter: u64, next: u64, n: nat)
    requires 0 < n <= MAX_HANDLES && next == (counter + 1) % TWO_64
    ensures Clear(keys, counter, n) <==> counter !in keys && Clear(keys + {counter}, next, n - 1)
  {
    if Clear(keys, counter, n) {
      assert Upcoming(counter, 0) !in keys;
      forall j: nat | j < n - 1 ensures Upcoming(next, j) !in keys + {counter} {
        assert Upcoming(counter, j + 1) !in keys;
      }
    }
    if counter !in keys && Clear(keys + {counter}, next, n - 1) {
      forall j: nat | j < n ensures Upcoming(counter, j) !in keys {
        if 0 < j {
          assert Upcoming(next, j - 1) !in keys + {counter};
        }
      }
    }
  }

  /** The n ids given next are new one after the other. */
  predicate ClearInTurn(keys: set<u64>, counter: u64, n: nat)
    decreases n
  {
    n == 0 || (counter !in keys && ClearInTurn(keys + {counter}, (counter + 1) % TWO_64, n - 1))
  }

  lemma {:induction false} ClearIsInTurn(keys: set<u64>, counter: u64, n: nat)
    requires n <= MAX_HANDLES
    ensures Clear(keys, counter, n) <==> ClearInTurn(keys, counter, n)
    decreases n
  {
    if 0 < n {
      var next := (counter + 1) % TWO_64;
      ClearStep(keys, counter, next, n);
      ClearIsInTurn(keys + {counter}, next, n - 1);
    }
  }

  lemma CreateAllStep(w: World, ts: seq<HandleType>)
    requires ts != []
    ensures Run(w, CreateAll(ts)) == Run(Next(w, Creates(ts[0])), CreateAll(ts[1..]))
    ensures |ts| == |ts[1..]| + 1
  {
    assert CreateAll(ts)[1..] == CreateAll(ts[1..]);
  }

  lemma {:induction false} CreationsGrowInTurn(w: World, ts: seq<HandleType>)
    requires |w.handles| + |ts| <= MAX_HANDLES
    ensures |Run(w, CreateAll(ts)).handles| <= |w.handles| + |ts|
    ensures |Run(w, CreateAll(ts)).handles| == |w.handles| + |ts|
            <==> ClearInTurn(w.handles.Keys, w.counter, |ts|)
    decreases |ts|
  {
    if ts != [] {
      CreateAllStep(w, ts);
      CreationStep(w.handles, w.counter, ts[0]);
      CreationsGrowInTurn(Next(w, Creates(ts[0])), ts[1..]);
    } else {
      assert CreateAll(ts) == [];
    }
  }

  /** While there is room, n creations in a row grow the registry by n exactly when none of the n ids they are given
      is a key already; otherwise at least one of them overwrites a handle. */
  lemma CreationsGrowIff(w: World, ts: seq<HandleType>)
    requires |w.handles| + |ts| <= 10_000
    ensures |Run(w, CreateAll(ts)).handles| <= |w.handles| + |ts|
    ensures |Run(w, CreateAll(ts)).handles| == |w.handles| + |ts| <==> Clear(w.handles.Keys, w.counter, |ts|)
  {
    CreationsGrowInTurn(w, ts);
    ClearIsInTurn(w.handles.Keys, w.counter, |ts|);
  }

  /** After any import, read off its bytes: the next n creations are all new exactly when no record that was read
      carries one of the n ids from the counter on. */
  lemma CreationsAfterImport(w: World, b: seq<byte>, ts: seq<HandleType>)
    requires Clears(b) && |ImportedIds(b)| + |ts| <= 10_000
    ensures |Run(Next(w, Imports(b)), CreateAll(ts)).handles| == |ImportedIds(b)| + |ts|
            <==> Clear(ImportedIds(b), w.counter, |ts|)
  {
    ImportKeys(b, w.handles);
    CreationsGrowIff(Next(w, Imports(b)), ts);
  }

  // ---- The limit ----

  /** Import does not check the limit: it is exceeded exactly when the records read carry more distinct ids than
      that, and then the next creation is refused. */
  lemma ImportExceedsLimitIff(w: World, b: seq<byte>, t: HandleType)
    requires Clears(b)
    ensures var w' := Next(w, Imports(b));
            && (|w'.handles| > 10_000 <==> |ImportedIds(b)| > 10_000)
            && (|ImportedIds(b)| >= 10_000 ==> Next(w', Creates(t)) == w')
  {
    ImportKeys(b, w.handles);
    assert |ImportHandles(b, w.handles)| == |ImportHandles(b, w.handles).Keys|;
  }

  lemma {:induction false} ManyHandles(n: nat) returns (order: seq<u64>, handles: Handles)
    requires n <= TWO_64
    ensures Enumerates(order, handles) && Stamped(handles) && |handles| == n
    ensures forall id :: id in handles ==> id < n
    decreases n
  {
    if n == 0 {
      order, handles := [], map[];
    } else {
      order, handles := ManyHandles(n - 1);
      assert handles[n - 1 := NewEntry(Session)].Keys == handles.Keys + {n - 1};
      order, handles := order + [n - 1], handles[n - 1 := NewEntry(Session)];
    }
  }

  /** Registries of any size below 2^32 can be imported, those beyond the limit too. */
  lemma ImportOfAnySize(w: World, n: nat) returns (b: seq<byte>)
    requires n < TWO_32
    ensures ImportCode(b) == SUCCESS && |Next(w, Imports(b)).handles| == n
  {
    var order, handles := ManyHandles(n);
    b := Encode(order, handles);
    ImportOfExport(order, handles, w.handles);
  }

  // ---- Disposed handles ----

  predicate Active(handles: Handles, h: u64) {
    h in handles && handles[h].isActive
  }

  /** No call accepts the handle, whatever the buffers. */
  ghost predicate Refused(handles: Handles, h: u64) {
    && DisposeCode(handles, h) != SUCCESS
    && forall inLen: nat, outMaxLen: nat :: TransformCode(handles, h, inLen, outMaxLen) != SUCCESS
  }

  /** Read off the bytes: the import leaves this handle active. A refused header leaves none. */
  predicate Revives(b: seq<byte>, h: u64) {
    Active(ImportHandles(b, map[]), h)
  }

  ghost predicate NeverActive(w: World, steps: seq<Step>, h: u64)
    decreases |steps|
  {
    !Active(w.handles, h) && (steps == [] || NeverActive(Next(w, steps[0]), steps[1..], h))
  }

  ghost predicate AlwaysRefused(w: World, steps: seq<Step>, h: u64)
    decreases |steps|
  {
    Refused(w.handles, h) && (steps == [] || AlwaysRefused(Next(w, steps[0]), steps[1..], h))
  }

  /** Over every run, with any imports: a handle that was issued and is inactive stays inactive throughout, so that
      every call refuses it, exactly when no import in the run carries it as active. */
  lemma {:induction false} StaysInactiveIff(w: World, steps: seq<Step>, h: u64)
    requires !Active(w.handles, h) && h < w.counter && w.counter + Creations(steps) < TWO_64
    ensures NeverActive(w, steps, h) <==>
            forall k :: 0 <= k < |steps| && steps[k].Imports? ==> !Revives(steps[k].bytes, h)
    ensures NeverActive(w, steps, h) <==> AlwaysRefused(w, steps, h)
    decreases |steps|
  {
    if steps != [] {
      var w' := Next(w, steps[0]);
      assert forall k :: 0 < k < |steps| ==> steps[k] == steps[1..][k - 1];
      if !Active(w'.handles, h) {
        StaysInactiveIff(w', steps[1..], h);
        assert forall k :: 0 <= k < |steps| - 1 ==> steps[1..][k] == steps[k + 1];
      }
    }
  }
}
