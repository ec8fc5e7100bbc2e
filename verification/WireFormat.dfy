/** The exported form in literal bytes: what each one means to an import, and what an export puts there. */
module WireFormat {
  import opened LittleEndian
  import opened HandleCodec

  lemma HeaderBytes(b: seq<byte>)
    requires 8 <= |b|
    ensures Version(b) == 1 <==> b[..4] == [1, 0, 0, 0]
    ensures Count(b) == Word(b, 4)
  {
    FourBytes(b[..4]);
    FourBytes(b[4..8]);
    assert b[..4] == [b[0], b[1], b[2], b[3]];
  }

  lemma RecordBytes(b: seq<byte>, k: nat)
    requires 18 + 10 * k <= |b|
    ensures Fits(b, k)
    ensures IdAt(b, k) == Word(b, 8 + 10 * k) + 0x1_0000_0000 * Word(b, 12 + 10 * k)
    ensures TypeByteAt(b, k) == b[16 + 10 * k] && ActiveAt(b, k) == (b[17 + 10 * k] != 0)
  {
    var id := b[8 + 10 * k..16 + 10 * k];
    EightBytes(id);
    FourBytes(id[..4]);
    FourBytes(id[4..]);
  }

  // ---- Import ----

  /** For every byte string: import answers 0 exactly when the eight header bytes are there and start with 1, 0, 0, 0,
      all the records they count fit, and every type byte is 1, 2 or 3; -7 exactly for another version, else -8. */
  lemma ImportCodeOfBytes(b: seq<byte>)
    ensures ImportCode(b) == 0 <==>
              && 8 <= |b| && b[..4] == [1, 0, 0, 0] && 8 + 10 * Word(b, 4) <= |b|
              && forall k :: 0 <= k < Word(b, 4) ==> 1 <= b[16 + 10 * k] <= 3
    ensures ImportCode(b) == -7 <==> 8 <= |b| && b[..4] != [1, 0, 0, 0]
    ensures ImportCode(b) in {0, -7, -8}
    ensures ImportCode(b) == -7 || |b| < 8 ==> forall before: Handles :: ImportHandles(b, before) == before
  {
    ImportSucceedsIff(b);
    if 8 <= |b| {
      HeaderBytes(b);
      assert forall k :: 0 <= k ==> HEADER + RECORD * k + 8 == 16 + 10 * k;
    }
  }

  /** A type byte and the type it stands for. */
  predicate Means(code: byte, t: HandleType) {
    (code == 1 && t == Identity) || (code == 2 && t == Session) || (code == 3 && t == Group)
  }

  /** A record that was read and is the last with its id decides its handle: Identity, Session or Group for byte 1, 2 or
      3, active unless the byte after it is 0. */
  lemma {:induction false} RecordDecides(b: seq<byte>, k: nat, n: nat)
    requires AllReadable(b, n) && k < n
    requires forall j :: k < j < n ==> Readable(b, j) && IdAt(b, j) != IdAt(b, k)
    ensures 18 + 10 * k <= |b|
    ensures IdAt(b, k) in Fold(b, n)
    ensures Means(b[16 + 10 * k], Fold(b, n)[IdAt(b, k)].handleType)
    ensures Fold(b, n)[IdAt(b, k)] == Entry(Fold(b, n)[IdAt(b, k)].handleType, 1722900000000, b[17 + 10 * k] != 0)
    decreases n
  {
    assert Readable(b, k);
    RecordBytes(b, k);
    if k < n - 1 {
      assert Readable(b, n - 1) && IdAt(b, n - 1) != IdAt(b, k);
      RecordDecides(b, k, n - 1);
    }
  }

  /** The same of an import: record k, when it was read and no later record read carries its id. */
  lemma ImportedRecord(b: seq<byte>, k: nat, before: Handles)
    requires 8 <= |b| && b[..4] == [1, 0, 0, 0] && k < Reached(b, 0)
    requires forall j :: k < j < Reached(b, 0) ==> Readable(b, j) && IdAt(b, j) != IdAt(b, k)
    ensures 18 + 10 * k <= |b|
    ensures var id := Word(b, 8 + 10 * k) + 0x1_0000_0000 * Word(b, 12 + 10 * k);
            var handles := ImportHandles(b, before);
            && id in handles && Means(b[16 + 10 * k], handles[id].handleType)
            && (handles[id].isActive <==> b[17 + 10 * k] != 0)
  {
    HeaderBytes(b);
    ReachedIsFirstBad(b, 0);
    RecordDecides(b, k, Reached(b, 0));
    RecordBytes(b, k);
  }

  // ---- Export ----

  lemma OneAsBytes()
    ensures ToLE(1, 4) == [1, 0, 0, 0]
  {
    assert ToLE(0, 1) == [0] + ToLE(0, 0);
    assert ToLE(0, 2) == [0] + ToLE(0, 1);
    assert ToLE(0, 3) == [0] + ToLE(0, 2);
    assert ToLE(1, 4) == [1] + ToLE(0, 3);
  }

  /** An export starts with 1, 0, 0, 0 and the count, and has ten bytes for each handle. */
  ghost predicate StartsExport(b: seq<byte>, n: nat) {
    |b| == 8 + 10 * n && b[..4] == [1, 0, 0, 0] && Word(b, 4) == n
  }

  /** Record k holds the id, the type byte, and 1 or 0. */
  ghost predicate HoldsRecord(b: seq<byte>, k: nat, id: u64, e: Entry) {
    && 18 + 10 * k <= |b|
    && Word(b, 8 + 10 * k) + 0x1_0000_0000 * Word(b, 12 + 10 * k) == id
    && Means(b[16 + 10 * k], e.handleType)
    && b[17 + 10 * k] == if e.isActive then 1 else 0
  }

  lemma ExportedHeader(order: seq<u64>, handles: Handles)
    requires KnownIds(order, handles) && |order| == |handles| < TWO_32
    ensures StartsExport(Encode(order, handles), |handles|)
  {
    var b := Encode(order, handles);
    HeaderOf(order, handles);
    OneAsBytes();
    assert b[..4] == ToLE(API_VERSION, 4);
    HeaderBytes(b);
  }

  lemma ExportedRecord(order: seq<u64>, handles: Handles, k: nat)
    requires KnownIds(order, handles) && |order| == |handles| < TWO_32 && k < |order|
    requires handles[order[k]].createdAtMs == CREATED_AT_MS
    ensures HoldsRecord(Encode(order, handles), k, order[k], handles[order[k]])
  {
    var b := Encode(order, handles);
    HeaderOf(order, handles);
    RecordSlice(order, handles, k);
    RecordOfEncode(order, handles, k);
    RecordBytes(b, k);
    var r := EncodeRecord(order[k], handles[order[k]]);
    assert b[HEADER..][RECORD * k..RECORD * (k + 1)] == r;
    assert b[16 + 10 * k] == r[8] && b[17 + 10 * k] == r[9];
  }

  /** Whatever order the map is walked in. */
  lemma ExportedBytes(order: seq<u64>, handles: Handles)
    requires Enumerates(order, handles) && |handles| < TWO_32 && Stamped(handles)
    ensures StartsExport(Encode(order, handles), |handles|)
    ensures forall k: nat :: k < |order| ==> HoldsRecord(Encode(order, handles), k, order[k], handles[order[k]])
  {
    OrderLength(order, handles);
    ExportedHeader(order, handles);
    forall k: nat | k < |order| ensures HoldsRecord(Encode(order, handles), k, order[k], handles[order[k]]) {
      assert order[k] in order;
      ExportedRecord(order, handles, k);
    }
  }
}
