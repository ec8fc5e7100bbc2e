/** The native handle registry: a shared map and a 64-bit counter behind one lock, so every call is one step. */
module NativeRegistry {
  import opened Common
  import opened LittleEndian
  import opened HandleCodec
  import opened WireFormat

  const MAX_BUFFER_SIZE := 10 * 1024 * 1024
  const MAX_HANDLES := 10_000
  const FIRST_HANDLE: u64 := 1000

  // ---- The calls as functions of the registry ----

  function NewEntry(t: HandleType): Entry {
    Entry(t, CREATED_AT_MS, true)
  }

  function Created(handles: Handles, counter: u64, t: HandleType): Handles {
    if |handles| >= MAX_HANDLES then handles else handles[counter := NewEntry(t)]
  }

  /** fetch_add wraps around at 64 bits. */
  function Bumped(handles: Handles, counter: u64): u64 {
    if |handles| >= MAX_HANDLES then counter else (counter + 1) % TWO_64
  }

  /** A creation adds one key, or overwrites one. */
  lemma CreationStep(handles: Handles, counter: u64, t: HandleType)
    requires |handles| < MAX_HANDLES
    ensures var after := Created(handles, counter, t);
            && after.Keys == handles.Keys + {counter}
            && |after| == |handles| + (if counter in handles then 0 else 1)
  {
    var keys := handles.Keys + {counter};
    assert Created(handles, counter, t).Keys == keys;
    assert counter in handles ==> keys == handles.Keys;
  }

  function DisposeCode(handles: Handles, h: u64): int {
    if h !in handles then INVALID_HANDLE
    else if !handles[h].isActive then STALE_OR_DOUBLE_FREE
    else SUCCESS
  }

  function Disposed(handles: Handles, h: u64): Handles {
    if h in handles then handles[h := handles[h].(isActive := false)] else handles
  }

  function TransformCode(handles: Handles, h: u64, inLen: nat, outMaxLen: nat): int {
    if inLen > MAX_BUFFER_SIZE then OVERSIZED_BUFFER
    else if h !in handles then INVALID_HANDLE
    else if !handles[h].isActive then STALE_OR_DOUBLE_FREE
    else if handles[h].handleType != Session then HANDLE_TYPE_MISMATCH
    else if outMaxLen < inLen then BUFFER_TOO_SMALL
    else SUCCESS
  }

  /** The stamp is constant and the length always fits the exported 32-bit count. */
  ghost predicate Sound(handles: Handles) {
    Stamped(handles) && |handles| < TWO_32
  }

  /** Importing these bytes succeeds and yields these handles, whatever the registry held. */
  ghost predicate Restores(b: seq<byte>, handles: Handles) {
    ImportCode(b) == SUCCESS && forall before: Handles :: ImportHandles(b, before) == handles
  }

  lemma EncodingRestores(order: seq<u64>, handles: Handles)
    requires Enumerates(order, handles) && Sound(handles)
    ensures Restores(Encode(order, handles), handles)
  {
    forall before: Handles
      ensures ImportCode(Encode(order, handles)) == SUCCESS && ImportHandles(Encode(order, handles), before) == handles
    {
      ImportOfExport(order, handles, before);
    }
    ImportOfExport(order, handles, map[]);
  }

  method CopyFromSlice(dst: array<byte>, src: seq<byte>)
    requires |src| <= dst.Length
    modifies dst
    ensures dst[..] == src + old(dst[|src|..])
  {
    for n := 0 to |src|
      invariant dst[..n] == src[..n] && dst[n..] == old(dst[n..])
    {
      dst[n] := src[n];
    }
    assert dst[..] == dst[..|src|] + dst[|src|..];
    assert src[..|src|] == src;
  }

  lemma ImportSound(b: seq<byte>, before: Handles)
    requires Sound(before)
    ensures Sound(ImportHandles(b, before))
  {
    if HEADER <= |b| {
      ReachedIsFirstBad(b, 0);
      FoldBounds(b, Reached(b, 0));
    }
  }

  lemma StopsAt(b: seq<byte>, n: nat)
    requires HEADER <= |b| && n <= Count(b) && AllReadable(b, n) && (n == Count(b) || !Readable(b, n))
    ensures Reached(b, 0) == n
  {
    ReachedIsFirstBad(b, 0);
    var m := Reached(b, 0);
    assert n < m ==> Readable(b, n);
    assert !(m < n);
  }

  lemma FoldStep(b: seq<byte>, n: nat)
    requires AllReadable(b, n) && Readable(b, n)
    ensures AllReadable(b, n + 1) && Fold(b, n + 1) == Fold(b, n)[IdAt(b, n) := EntryAt(b, n)]
  {}

  /** The handles are those already walked, each once, and those left. */
  ghost predicate Walked(order: seq<u64>, left: set<u64>, handles: Handles) {
    Enumerates(order, handles - left) && left <= handles.Keys && KnownIds(order, handles)
  }

  lemma AppendIsAssociative(a: seq<byte>, b: seq<byte>, c: seq<byte>)
    ensures (a + b) + c == a + (b + c)
  {}

  class Registry {
    var handles: Handles
    var counter: u64

    ghost predicate Valid()
      reads this
    {
      Sound(handles)
    }

    constructor ()
      ensures Valid() && handles == map[] && counter == 1000
    {
      handles, counter := map[], FIRST_HANDLE;
    }

    method RegisterHandle(t: HandleType) returns (r: Result<u64, int>)
      requires Valid()
      modifies this
      ensures Valid() && handles == Created(old(handles), old(counter), t)
      ensures counter == Bumped(old(handles), old(counter))
      ensures r == if |old(handles)| >= 10_000 then Err(-10) else Ok(old(counter))
      ensures r.Err? ==> handles == old(handles) && counter == old(counter)
      ensures r.Ok? ==>
                && handles == old(handles)[old(counter) := Entry(t, 1722900000000, true)]
                && counter == (old(counter) + 1) % 0x1_0000_0000_0000_0000
    {
      if |handles| >= MAX_HANDLES {
        return Err(REGISTRY_EXHAUSTED);
      }
      var id := counter;
      counter := (counter + 1) % TWO_64;
      assert handles[id := NewEntry(t)].Keys == handles.Keys + {id};
      handles := handles[id := Entry(t, CREATED_AT_MS, true)];
      r := Ok(id);
    }

    method DisposeHandle(h: u64) returns (code: int)
      requires Valid()
      modifies this`handles
      ensures Valid() && handles == Disposed(old(handles), h) && code == DisposeCode(old(handles), h)
      ensures code == -2 <==> h !in old(handles)
      ensures code == -3 <==> h in old(handles) && !old(handles)[h].isActive
      ensures code == 0 <==> h in old(handles) && old(handles)[h].isActive
      ensures handles == if code == 0 then old(handles)[h := old(handles)[h].(isActive := false)] else old(handles)
    {
      if h in handles {
        var entry := handles[h];
        if !entry.isActive {
          assert handles[h := entry.(isActive := false)] == handles;
          return STALE_OR_DOUBLE_FREE;
        }
        assert handles[h := entry.(isActive := false)].Keys == handles.Keys;
        handles := handles[h := entry.(isActive := false)];
        code := SUCCESS;
      } else {
        code := INVALID_HANDLE;
      }
    }

    /** The caller vouches for the lengths of the buffers it passes, unless the input is oversized. */
    method TransformPayload(h: u64, inBuf: array<byte>, inLen: nat, outBuf: array<byte>, outMaxLen: nat)
      returns (code: int, outLen: nat)
      requires inLen <= MAX_BUFFER_SIZE ==> inLen <= inBuf.Length
      requires outMaxLen <= outBuf.Length && inBuf != outBuf
      modifies outBuf
      ensures code == TransformCode(handles, h, inLen, outMaxLen)
      ensures code == if inLen > 10 * 1024 * 1024 then -6
                      else if h !in handles then -2
                      else if !handles[h].isActive then -3
                      else if handles[h].handleType != Session then -9
                      else if outMaxLen < inLen then -5 else 0
      ensures code == SUCCESS ==> outLen == inLen && outBuf[..] == inBuf[..inLen] + old(outBuf[inLen..])
      ensures code != SUCCESS ==> outBuf[..] == old(outBuf[..])
    {
      outLen := 0;
      if inLen > MAX_BUFFER_SIZE {
        return OVERSIZED_BUFFER, 0;
      }
      if h !in handles {
        return INVALID_HANDLE, 0;
      }
      if !handles[h].isActive {
        return STALE_OR_DOUBLE_FREE, 0;
      }
      if handles[h].handleType != Session {
        return HANDLE_TYPE_MISMATCH, 0;
      }
      if outMaxLen < inLen {
        return BUFFER_TOO_SMALL, 0;
      }
      CopyFromSlice(outBuf, inBuf[..inLen]);
      return SUCCESS, inLen;
    }

    /** Walks the map in whatever order it yields; `order` records that order. */
    method Serialize() returns (state: seq<byte>, ghost order: seq<u64>)
      requires Valid()
      ensures Enumerates(order, handles) && state == Encode(order, handles)
      ensures Restores(state, handles) && StartsExport(state, |handles|)
      ensures forall k: nat :: k < |order| ==> HoldsRecord(state, k, order[k], handles[order[k]])
    {
      state := ToLE(API_VERSION, 4) + ToLE(|handles| % TWO_32, 4);
      ghost var header := state;
      var left := handles.Keys;
      order := [];
      while left != {}
        invariant Walked(order, left, handles)
        invariant state == header + EncodeRecords(order, handles)
        decreases left
      {
        var id :| id in left;
        var record := ToLE(id, 8) + [Code(handles[id].handleType), if handles[id].isActive then 1 else 0];
        AppendIsAssociative(header, EncodeRecords(order, handles), record);
        state := state + record;
        order := order + [id];
        left := left - {id};
      }
      assert handles - left == handles;
      EncodingRestores(order, handles);
      ExportedBytes(order, handles);
    }

    method ExportState(outBuf: array<byte>, outMaxLen: nat) returns (code: int, outLen: nat, ghost order: seq<u64>)
      requires Valid() && outMaxLen <= outBuf.Length
      modifies outBuf
      ensures Enumerates(order, handles) && outLen == |Encode(order, handles)| == HEADER + RECORD * |handles|
      ensures code == if outLen <= outMaxLen then 0 else -5
      ensures code == 0 ==> StartsExport(outBuf[..outLen], |handles|)
      ensures code == 0 ==>
                forall k: nat :: k < |order| ==> HoldsRecord(outBuf[..outLen], k, order[k], handles[order[k]])
      ensures outBuf[..] == if code == SUCCESS then Encode(order, handles) + old(outBuf[outLen..]) else old(outBuf[..])
    {
      var state: seq<byte>;
      state, order := Serialize();
      OrderLength(order, handles);
      HeaderOf(order, handles);
      outLen := |state|;
      if outMaxLen < |state| {
        return BUFFER_TOO_SMALL, outLen, order;
      }
      CopyFromSlice(outBuf, state);
      assert outBuf[..outLen] == state;
      code := SUCCESS;
    }

    method ImportState(inBuf: array<byte>, inLen: nat) returns (code: int)
      requires Valid() && inLen <= inBuf.Length
      modifies this`handles
      ensures Valid()
      ensures code == ImportCode(inBuf[..inLen]) && handles == ImportHandles(inBuf[..inLen], old(handles))
      ensures code == 0 <==>
                && 8 <= inLen && inBuf[..4] == [1, 0, 0, 0] && 8 + 10 * Word(inBuf[..inLen], 4) <= inLen
                && forall k :: 0 <= k < Word(inBuf[..inLen], 4) ==> 1 <= inBuf[16 + 10 * k] <= 3
      ensures code == -7 <==> 8 <= inLen && inBuf[..4] != [1, 0, 0, 0]
      ensures code in {0, -7, -8} && (code == -7 || inLen < 8 ==> handles == old(handles))
    {
      var b := inBuf[..inLen];
      assert 8 <= inLen ==> b[..4] == inBuf[..4];
      ImportCodeOfBytes(b);
      code := ImportSlice(b);
    }

    /** The registry is cleared before the first record is looked at. */
    method ImportSlice(b: seq<byte>) returns (code: int)
      requires Valid()
      modifies this`handles
      ensures Valid()
      ensures code == ImportCode(b) && handles == ImportHandles(b, old(handles))
    {
      ImportSound(b, handles);
      if |b| < 8 {
        return INVALID_STATE;
      }
      if U32(b[..4]) != API_VERSION {
        return VERSION_MISMATCH;
      }
      var count := U32(b[4..8]);
      var offset := 8;
      handles := map[];
      for n := 0 to count
        invariant offset == HEADER + RECORD * n
        invariant AllReadable(b, n) && handles == Fold(b, n)
      {
        if offset + 10 > |b| {
          StopsAt(b, n);
          return INVALID_STATE;
        }
        var id := U64(b[offset..offset + 8]);
        var typeByte := b[offset + 8];
        if typeByte != 1 && typeByte != 2 && typeByte != 3 {
          StopsAt(b, n);
          return INVALID_STATE;
        }
        FoldStep(b, n);
        var handleType := if typeByte == 1 then Identity else if typeByte == 2 then Session else Group;
        var isActive := b[offset + 9] != 0;
        offset := offset + 10;
        handles := handles[id := Entry(handleType, CREATED_AT_MS, isActive)];
      }
      StopsAt(b, count);
      code := SUCCESS;
    }
  }
}
