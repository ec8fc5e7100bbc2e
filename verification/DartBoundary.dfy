/** The Dart side of the boundary: its own parser of the exported form, and its calls into the native registry. */
module DartBoundary {
  import opened Common
  import opened LittleEndian
  import opened HandleCodec
  import opened NativeRegistry
  import opened WireFormat

  const EXPORT_BUFFER := 64 * 1024

  /** What callers pass to disposeHandle, which takes anything: one of the three handle objects, a bare number, or
      something else. */
  datatype HandleArg = Opaque(handleId: int) | Raw(number: int) | Other

  datatype RestoredHandle = RestoredHandle(handleId: int, handleType: byte, isActive: bool)

  function DartLength(b: seq<byte>): nat {
    if |b| < HEADER then 0
    else if HEADER + RECORD * Count(b) <= |b| then Count(b)
    else (|b| - HEADER) / RECORD
  }

  /** The list read off a byte string: as many whole records as the count asks for, each with its three fields. */
  ghost predicate Parses(b: seq<byte>, list: seq<RestoredHandle>) {
    && |list| == DartLength(b)
    && forall k {:trigger Fits(b, k)} {:trigger list[k]} :: 0 <= k < |list| ==>
         Fits(b, k) && list[k] == RestoredHandle(Signed(IdAt(b, k)), TypeByteAt(b, k), ActiveAt(b, k))
  }

  /** A list entry in terms of its ten bytes; the id is the same 64 bits, read as signed. */
  ghost predicate IsRecordOf(b: seq<byte>, k: nat, r: RestoredHandle) {
    && 18 + 10 * k <= |b|
    && var id := Word(b, 8 + 10 * k) + 0x1_0000_0000 * Word(b, 12 + 10 * k);
       r == RestoredHandle(if id < 0x8000_0000_0000_0000 then id else id - 0x1_0000_0000_0000_0000,
                           b[16 + 10 * k], b[17 + 10 * k] != 0)
  }

  lemma ParsedBytes(b: seq<byte>, list: seq<RestoredHandle>)
    requires Parses(b, list)
    ensures |b| < 8 ==> list == []
    ensures 8 <= |b| ==> |list| == if 8 + 10 * Word(b, 4) <= |b| then Word(b, 4) else (|b| - 8) / 10
    ensures forall k: nat :: k < |list| ==> IsRecordOf(b, k, list[k])
  {
    if 8 <= |b| {
      HeaderBytes(b);
    }
    forall k: nat | k < |list| ensures IsRecordOf(b, k, list[k]) {
      assert Fits(b, k) && list[k] == RestoredHandle(Signed(IdAt(b, k)), TypeByteAt(b, k), ActiveAt(b, k));
      RecordBytes(b, k);
    }
  }

  /** parseExportedState checks neither the version nor the type bytes; it stops at the count or the last
      whole record. */
  method ParseExportedState(b: seq<byte>) returns (list: seq<RestoredHandle>)
    ensures Parses(b, list)
    ensures |b| < 8 ==> list == []
    ensures 8 <= |b| ==> |list| == if 8 + 10 * Word(b, 4) <= |b| then Word(b, 4) else (|b| - 8) / 10
    ensures forall k: nat :: k < |list| ==> IsRecordOf(b, k, list[k])
  {
    list := [];
    if |b| < 8 {
      ParsedBytes(b, list);
      return;
    }
    var count := U32(b[4..8]);
    var offset := 8;
    for i := 0 to count
      invariant offset == HEADER + RECORD * i && |list| == i && offset <= |b|
      invariant forall k :: 0 <= k < i ==>
                  Fits(b, k) && list[k] == RestoredHandle(Signed(IdAt(b, k)), TypeByteAt(b, k), ActiveAt(b, k))
    {
      if offset + 10 > |b| {
        break;
      }
      var handleId := Signed(U64(b[offset..offset + 8]));
      var handleType := b[offset + 8];
      var isActive := b[offset + 9] != 0;
      offset := offset + 10;
      list := list + [RestoredHandle(handleId, handleType, isActive)];
    }
    ParsedBytes(b, list);
  }

  ghost predicate Foldable(list: seq<RestoredHandle>) {
    forall k :: 0 <= k < |list| ==> IsCode(list[k].handleType) && -TWO_64 / 2 <= list[k].handleId < TWO_64 / 2
  }

  /** The registry a list of restored handles stands for, the last one winning; ids compared as 64-bit patterns. */
  ghost function FoldList(list: seq<RestoredHandle>): Handles
    requires Foldable(list)
  {
    if list == [] then map[]
    else
      var last := list[|list| - 1];
      FoldList(list[..|list| - 1])
        [Unsigned(last.handleId) := Entry(TypeOf(last.handleType), CREATED_AT_MS, last.isActive)]
  }

  lemma {:induction false} FoldsAgree(b: seq<byte>, list: seq<RestoredHandle>, n: nat)
    requires Parses(b, list) && n <= |list| && AllReadable(b, n)
    ensures Foldable(list[..n]) && FoldList(list[..n]) == Fold(b, n)
    decreases n
  {
    if n > 0 {
      FoldsAgree(b, list, n - 1);
      assert list[..n][..n - 1] == list[..n - 1];
      assert Readable(b, n - 1);
      assert list[n - 1] == RestoredHandle(Signed(IdAt(b, n - 1)), TypeByteAt(b, n - 1), ActiveAt(b, n - 1));
      forall k | 0 <= k < n
        ensures IsCode(list[..n][k].handleType) && -TWO_64 / 2 <= list[..n][k].handleId < TWO_64 / 2
      {
        assert k < n - 1 ==> list[..n][k] == list[..n - 1][k];
      }
    }
  }

  /** The two parsers on every byte string. Under a header the native side refuses, import leaves the registry alone,
      while Dart lists the records all the same. Under one it accepts, what import leaves is the fold of the first m
      entries of Dart's list, where m is where import stopped: short of Dart exactly at an unknown type byte, while on
      a truncated string both stop at the same record. */
  lemma {:induction false} ParsersAgree(b: seq<byte>, list: seq<RestoredHandle>, before: Handles)
    requires Parses(b, list)
    ensures !Clears(b) ==> ImportHandles(b, before) == before && ImportCode(b) in {INVALID_STATE, VERSION_MISMATCH}
    ensures Clears(b) ==>
              var m := Reached(b, 0);
              && m <= |list| && Foldable(list[..m]) && ImportHandles(b, before) == FoldList(list[..m])
              && (m < |list| <==> exists k :: 0 <= k < |list| && !IsCode(list[k].handleType))
              && (m < |list| ==> !IsCode(list[m].handleType))
              && (ImportCode(b) == SUCCESS <==> m == |list| == Count(b))
  {
    if Clears(b) {
      var m := Reached(b, 0);
      ReachedIsFirstBad(b, 0);
      assert 0 < m ==> Readable(b, m - 1);
      assert m <= |list|;
      FoldsAgree(b, list, m);
      if m < |list| {
        assert Fits(b, m) && list[m].handleType == TypeByteAt(b, m);
      } else {
        forall k | 0 <= k < |list| ensures IsCode(list[k].handleType) {
          assert Readable(b, k) && list[k].handleType == TypeByteAt(b, k);
        }
      }
    }
  }

  /** Whatever the registry held, the import leaves what Dart's whole list stands for. */
  ghost predicate SameRegistry(b: seq<byte>, list: seq<RestoredHandle>) {
    Foldable(list) && forall before: Handles :: ImportHandles(b, before) == FoldList(list)
  }

  /** That holds exactly when the native side accepts the header and every type byte Dart lists is a known one. */
  lemma SameRegistryIff(b: seq<byte>, list: seq<RestoredHandle>)
    requires Parses(b, list)
    ensures SameRegistry(b, list) <==> Clears(b) && forall k :: 0 <= k < |list| ==> IsCode(list[k].handleType)
  {
    if Clears(b) {
      forall before: Handles ensures Foldable(list) ==> ImportHandles(b, before) == FoldList(list) {
        ParsersAgree(b, list, before);
        assert list[..|list|] == list;
      }
      ParsersAgree(b, list, map[]);
      assert list[..|list|] == list;
    } else {
      var one: Handles := map[0 := NewEntry(Session)];
      assert 0 in one && ImportHandles(b, map[]) != ImportHandles(b, one);
    }
  }

  /** A well-formed export parses in Dart to exactly the registry a native import restores. */
  lemma WellFormedParsesAlike(b: seq<byte>, list: seq<RestoredHandle>, before: Handles)
    requires WellFormed(b) && Parses(b, list)
    ensures Foldable(list) && FoldList(list) == ImportHandles(b, before)
  {
    ImportSucceedsIff(b);
    ParsersAgree(b, list, before);
    assert list[..|list|] == list;
  }

  /** exportOpaqueState hands the registry a 64 KiB buffer, which suffices exactly up to 6552 handles. */
  method ExportOpaqueState(reg: Registry) returns (r: Result<seq<byte>, int>, ghost order: seq<u64>)
    requires reg.Valid()
    ensures Enumerates(order, reg.handles)
    ensures r.Ok? <==> |reg.handles| <= 6552
    ensures r == if r.Ok? then Ok(Encode(order, reg.handles)) else Err(-5)
  {
    var out := new byte[EXPORT_BUFFER];
    var code, len;
    code, len, order := reg.ExportState(out, EXPORT_BUFFER);
    if code != SUCCESS {
      return Err(code), order;
    }
    r := Ok(out[..len]);
  }

  /** encryptPayload and decryptPayload: the output buffer always has room, so that error never shows. */
  method TransformPayloadInternal(reg: Registry, handleId: u64, input: seq<byte>) returns (r: Result<seq<byte>, int>)
    ensures var code := TransformCode(reg.handles, handleId, |input|, |input| + 1024);
            r == if code == 0 then Ok(input) else Err(code)
    ensures r == if |input| > 10 * 1024 * 1024 then Err(-6)
                 else if handleId !in reg.handles then Err(-2)
                 else if !reg.handles[handleId].isActive then Err(-3)
                 else if reg.handles[handleId].handleType != Session then Err(-9) else Ok(input)
  {
    if |input| > 10 * 1024 * 1024 {
      return Err(OVERSIZED_BUFFER);
    }
    var inPtr := new byte[|input|](k requires 0 <= k < |input| => input[k]);
    var outMaxLen := |input| + 1024;
    var outPtr := new byte[outMaxLen];
    var code, len := reg.TransformPayload(handleId, inPtr, |input|, outPtr, outMaxLen);
    if code != SUCCESS {
      return Err(code);
    }
    assert inPtr[..|input|] == input;
    assert outPtr[..len] == input;
    r := Ok(outPtr[..len]);
  }

  /** A Dart int: 64 bits, signed. */
  predicate IsDartInt(n: int) {
    -TWO_64 / 2 <= n < TWO_64 / 2
  }

  /** disposeHandle: a bare number is disposed like a handle object, anything else as handle 0. A negative number goes
      over as its 64-bit pattern. */
  method DisposeHandle(reg: Registry, arg: HandleArg) returns (r: Result<(), int>)
    requires reg.Valid() && (arg.Opaque? ==> IsDartInt(arg.handleId)) && (arg.Raw? ==> IsDartInt(arg.number))
    modifies reg`handles
    ensures var h := match arg case Opaque(n) => Unsigned(n) case Raw(n) => Unsigned(n) case Other => 0;
            && reg.Valid() && reg.handles == Disposed(old(reg.handles), h)
            && (r.Ok? <==> h in old(reg.handles) && old(reg.handles)[h].isActive)
            && (r.Err? ==> reg.handles == old(reg.handles) && r.error == DisposeCode(old(reg.handles), h))
  {
    var rawHandle := 0;
    if arg.Opaque? {
      rawHandle := arg.handleId;
    } else if arg.Raw? {
      rawHandle := arg.number;
    }
    var code := reg.DisposeHandle(Unsigned(rawHandle));
    assert code != SUCCESS ==> reg.handles == old(reg.handles);
    r := if code == SUCCESS then Ok(()) else Err(code);
  }
}
