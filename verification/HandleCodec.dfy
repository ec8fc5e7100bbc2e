/** The exported form of the handle registry: a version, a count, and one ten-byte record per handle. */
module HandleCodec {
  import opened LittleEndian

  const API_VERSION := 1
  const CREATED_AT_MS := 1722900000000
  const HEADER := 8
  const RECORD := 10

  const SUCCESS := 0
  const INVALID_HANDLE := -2
  const STALE_OR_DOUBLE_FREE := -3
  const BUFFER_TOO_SMALL := -5
  const OVERSIZED_BUFFER := -6
  const VERSION_MISMATCH := -7
  const INVALID_STATE := -8
  const HANDLE_TYPE_MISMATCH := -9
  const REGISTRY_EXHAUSTED := -10

  datatype HandleType = Identity | Session | Group

  datatype Entry = Entry(handleType: HandleType, createdAtMs: nat, isActive: bool)

  type Handles = map<u64, Entry>

  function Code(t: HandleType): byte {
    match t
    case Identity => 1
    case Session => 2
    case Group => 3
  }

  predicate IsCode(b: byte) {
    1 <= b <= 3
  }

  function TypeOf(b: byte): HandleType
    requires IsCode(b)
  {
    if b == 1 then Identity else if b == 2 then Session else Group
  }

  function Flag(b: bool): byte {
    if b then 1 else 0
  }

  // ---- Writing ----

  function EncodeRecord(id: u64, e: Entry): (b: seq<byte>)
    ensures |b| == RECORD
  {
    ToLE(id, 8) + [Code(e.handleType), Flag(e.isActive)]
  }

  ghost predicate KnownIds(order: seq<u64>, handles: Handles) {
    forall id :: id in order ==> id in handles
  }

  function EncodeRecords(order: seq<u64>, handles: Handles): seq<byte>
    requires KnownIds(order, handles)
  {
    if order == [] then []
    else
      var n := |order| - 1;
      assert forall id :: id in order[..n] ==> id in order;
      EncodeRecords(order[..n], handles) + EncodeRecord(order[n], handles[order[n]])
  }

  /** The count is the length cast to 32 bits. */
  function Encode(order: seq<u64>, handles: Handles): seq<byte>
    requires KnownIds(order, handles)
  {
    ToLE(API_VERSION, 4) + ToLE(|handles| % TWO_32, 4) + EncodeRecords(order, handles)
  }

  // ---- Reading ----

  function Version(b: seq<byte>): u32
    requires HEADER <= |b|
  {
    U32(b[..4])
  }

  function Count(b: seq<byte>): u32
    requires HEADER <= |b|
  {
    U32(b[4..8])
  }

  predicate Fits(b: seq<byte>, k: nat) {
    HEADER + RECORD * (k + 1) <= |b|
  }

  function IdAt(b: seq<byte>, k: nat): u64
    requires Fits(b, k)
  {
    U64(b[HEADER + RECORD * k..HEADER + RECORD * k + 8])
  }

  function TypeByteAt(b: seq<byte>, k: nat): byte
    requires Fits(b, k)
  {
    b[HEADER + RECORD * k + 8]
  }

  function ActiveAt(b: seq<byte>, k: nat): bool
    requires Fits(b, k)
  {
    b[HEADER + RECORD * k + 9] != 0
  }

  predicate Readable(b: seq<byte>, k: nat) {
    Fits(b, k) && IsCode(TypeByteAt(b, k))
  }

  predicate AllReadable(b: seq<byte>, n: nat) {
    forall k :: 0 <= k < n ==> Readable(b, k)
  }

  function EntryAt(b: seq<byte>, k: nat): Entry
    requires Readable(b, k)
  {
    Entry(TypeOf(TypeByteAt(b, k)), CREATED_AT_MS, ActiveAt(b, k))
  }

  /** The registry holding the first n records, later ones winning. */
  function Fold(b: seq<byte>, n: nat): Handles
    requires AllReadable(b, n)
  {
    if n == 0 then map[]
    else
      assert Readable(b, n - 1);
      Fold(b, n - 1)[IdAt(b, n - 1) := EntryAt(b, n - 1)]
  }

  /** How far the import loop gets: the first record that is missing or has an unknown type, or the count. */
  function Reached(b: seq<byte>, k: nat): nat
    requires HEADER <= |b| && k <= Count(b)
    decreases Count(b) - k
  {
    if k < Count(b) && Readable(b, k) then Reached(b, k + 1) else k
  }

  lemma {:induction false} ReachedIsFirstBad(b: seq<byte>, k: nat)
    requires HEADER <= |b| && k <= Count(b) && AllReadable(b, k)
    ensures var m := Reached(b, k);
            k <= m <= Count(b) && AllReadable(b, m) && (m < Count(b) ==> !Readable(b, m))
    decreases Count(b) - k
  {
    if k < Count(b) && Readable(b, k) {
      ReachedIsFirstBad(b, k + 1);
    }
  }

  function ImportCode(b: seq<byte>): int {
    if |b| < HEADER then INVALID_STATE
    else if Version(b) != API_VERSION then VERSION_MISMATCH
    else if Reached(b, 0) == Count(b) then SUCCESS
    else INVALID_STATE
  }

  /** A recognised header: from here on the old registry is gone. */
  predicate Clears(b: seq<byte>) {
    HEADER <= |b| && Version(b) == API_VERSION
  }

  /** A failed import has already cleared the registry and keeps the records before the bad one. */
  function ImportHandles(b: seq<byte>, before: Handles): Handles {
    if !Clears(b) then before
    else
      ReachedIsFirstBad(b, 0);
      Fold(b, Reached(b, 0))
  }

  ghost predicate WellFormed(b: seq<byte>) {
    && HEADER <= |b| && Version(b) == API_VERSION
    && HEADER + RECORD * Count(b) <= |b|
    && forall k :: 0 <= k < Count(b) ==> IsCode(b[HEADER + RECORD * k + 8])
  }

  /** For every byte string: import succeeds exactly on the well-formed ones. */
  lemma ImportSucceedsIff(b: seq<byte>)
    ensures ImportCode(b) == SUCCESS <==> WellFormed(b)
  {
    if HEADER <= |b| {
      ReachedIsFirstBad(b, 0);
      var m := Reached(b, 0);
      if m == Count(b) && Version(b) == API_VERSION {
        if 0 < m { assert Readable(b, m - 1); }
        forall k: nat | k < Count(b) ensures IsCode(b[HEADER + RECORD * k + 8]) {
          assert Readable(b, k);
        }
      }
      if WellFormed(b) {
        forall k: nat | k < Count(b) ensures Readable(b, k) {}
      }
    }
  }

  // ---- Round trip ----

  ghost predicate Enumerates(order: seq<u64>, handles: Handles) {
    && (forall i, j :: 0 <= i < j < |order| ==> order[i] != order[j])
    && (forall id :: id in order <==> id in handles)
  }

  lemma {:induction false} RecordsLength(order: seq<u64>, handles: Handles)
    requires KnownIds(order, handles)
    ensures |EncodeRecords(order, handles)| == RECORD * |order|
    decreases |order|
  {
    if order != [] {
      RecordsLength(order[..|order| - 1], handles);
    }
  }

  lemma {:induction false} RecordSlice(order: seq<u64>, handles: Handles, k: nat)
    requires KnownIds(order, handles) && k < |order|
    ensures |EncodeRecords(order, handles)| == RECORD * |order|
    ensures EncodeRecords(order, handles)[RECORD * k..RECORD * (k + 1)] == EncodeRecord(order[k], handles[order[k]])
    decreases |order|
  {
    var n := |order| - 1;
    RecordsLength(order, handles);
    RecordsLength(order[..n], handles);
    if k < n {
      RecordSlice(order[..n], handles, k);
    }
  }

  lemma {:induction false} OrderLength(order: seq<u64>, handles: Handles)
    requires Enumerates(order, handles)
    ensures |order| == |handles|
    decreases |order|
  {
    if order == [] {
      assert handles == map[];
    } else {
      var last := order[|order| - 1];
      var rest := handles - {last};
      assert order == order[..|order| - 1] + [last];
      OrderLength(order[..|order| - 1], rest);
      assert handles.Keys == rest.Keys + {last};
    }
  }

  lemma HeaderFields(b: seq<byte>, version: u32, count: u32, rest: seq<byte>)
    requires b == ToLE(version, 4) + ToLE(count, 4) + rest
    ensures |b| == HEADER + |rest| && b[HEADER..] == rest
    ensures Version(b) == version && Count(b) == count
  {
    assert b[..4] == ToLE(version, 4);
    assert b[4..8] == ToLE(count, 4);
    U32RoundTrip(version);
    U32RoundTrip(count);
  }

  lemma HeaderOf(order: seq<u64>, handles: Handles)
    requires KnownIds(order, handles) && |order| == |handles| < TWO_32
    ensures var b := Encode(order, handles);
            && |b| == 8 + 10 * |handles| && b[HEADER..] == EncodeRecords(order, handles)
            && Version(b) == 1 && Count(b) == |handles| == |order|
  {
    var n: u32 := |handles|;
    assert n % TWO_32 == n;
    RecordsLength(order, handles);
    HeaderFields(Encode(order, handles), API_VERSION, n, EncodeRecords(order, handles));
  }

  /** The three fields of a record that lies at place k of a byte string. */
  lemma FieldsAt(b: seq<byte>, rest: seq<byte>, r: seq<byte>, k: nat)
    requires HEADER <= |b| && b[HEADER..] == rest && RECORD * (k + 1) <= |rest|
    requires |r| == RECORD && rest[RECORD * k..RECORD * (k + 1)] == r
    ensures Fits(b, k)
    ensures IdAt(b, k) == U64(r[..8]) && TypeByteAt(b, k) == r[8] && ActiveAt(b, k) == (r[9] != 0)
  {
    assert forall i :: 0 <= i < RECORD ==> b[HEADER + RECORD * k + i] == rest[RECORD * k + i] == r[i];
    assert b[HEADER + RECORD * k..HEADER + RECORD * k + 8] == r[..8];
  }

  lemma DecodeRecord(b: seq<byte>, rest: seq<byte>, id: u64, e: Entry, k: nat)
    requires HEADER <= |b| && b[HEADER..] == rest && RECORD * (k + 1) <= |rest|
    requires rest[RECORD * k..RECORD * (k + 1)] == EncodeRecord(id, e) && e.createdAtMs == CREATED_AT_MS
    ensures Readable(b, k) && IdAt(b, k) == id && EntryAt(b, k) == e
  {
    var r := EncodeRecord(id, e);
    FieldsAt(b, rest, r, k);
    assert r[..8] == ToLE(id, 8);
    U64RoundTrip(id);
  }

  lemma RecordOfEncode(order: seq<u64>, handles: Handles, k: nat)
    requires KnownIds(order, handles) && |order| == |handles| < TWO_32 && k < |order|
    requires handles[order[k]].createdAtMs == CREATED_AT_MS
    ensures var b := Encode(order, handles);
            Readable(b, k) && IdAt(b, k) == order[k] && EntryAt(b, k) == handles[order[k]]
  {
    var b := Encode(order, handles);
    HeaderOf(order, handles);
    RecordSlice(order, handles, k);
    DecodeRecord(b, EncodeRecords(order, handles), order[k], handles[order[k]], k);
  }

  ghost predicate Stamped(handles: Handles) {
    forall id :: id in handles ==> handles[id].createdAtMs == CREATED_AT_MS
  }

  function Restricted(ids: seq<u64>, handles: Handles): Handles {
    map id | id in ids && id in handles :: handles[id]
  }

  lemma RestrictedStep(ids: seq<u64>, last: u64, handles: Handles)
    requires last in handles
    ensures Restricted(ids + [last], handles) == Restricted(ids, handles)[last := handles[last]]
  {}

  lemma {:induction false} FoldOfEncode(order: seq<u64>, handles: Handles, n: nat)
    requires KnownIds(order, handles) && |order| == |handles| < TWO_32 && Stamped(handles) && n <= |order|
    ensures AllReadable(Encode(order, handles), n)
    ensures Fold(Encode(order, handles), n) == Restricted(order[..n], handles)
    decreases n
  {
    if n > 0 {
      assert order[n - 1] in order;
      RecordOfEncode(order, handles, n - 1);
      FoldOfEncode(order, handles, n - 1);
      assert order[..n] == order[..n - 1] + [order[n - 1]];
      RestrictedStep(order[..n - 1], order[n - 1], handles);
    }
  }

  /** Whatever order the hash map is walked in, importing an export restores exactly the registry it came from. */
  lemma ImportOfExport(order: seq<u64>, handles: Handles, before: Handles)
    requires Enumerates(order, handles) && |handles| < TWO_32 && Stamped(handles)
    ensures ImportCode(Encode(order, handles)) == SUCCESS
    ensures ImportHandles(Encode(order, handles), before) == handles
  {
    var b := Encode(order, handles);
    OrderLength(order, handles);
    HeaderOf(order, handles);
    FoldOfEncode(order, handles, |order|);
    ReachedIsFirstBad(b, 0);
    assert Reached(b, 0) == Count(b);
    assert order[..|order|] == order;
  }

  lemma {:induction false} FoldBounds(b: seq<byte>, n: nat)
    requires AllReadable(b, n)
    ensures Stamped(Fold(b, n)) && |Fold(b, n)| <= n
    decreases n
  {
    if n > 0 {
      assert Readable(b, n - 1);
      FoldBounds(b, n - 1);
      var m := Fold(b, n - 1);
      var id := IdAt(b, n - 1);
      assert Fold(b, n).Keys == m.Keys + {id};
      assert m.Keys + {id} == if id in m.Keys then m.Keys else m.Keys + {id};
    }
  }

  /** Importing, exporting in any order and importing again is importing once. */
  lemma ImportExportImport(b: seq<byte>, before: Handles, order: seq<u64>, elsewhere: Handles)
    requires ImportCode(b) == SUCCESS && Enumerates(order, ImportHandles(b, before))
    ensures var handles := ImportHandles(b, before);
            ImportCode(Encode(order, handles)) == SUCCESS && ImportHandles(Encode(order, handles), elsewhere) == handles
  {
    ReachedIsFirstBad(b, 0);
    FoldBounds(b, Reached(b, 0));
    ImportOfExport(order, ImportHandles(b, before), elsewhere);
  }
}
