/** Fixed-width little-endian integers. */
module LittleEndian {
  type byte = b: int | 0 <= b < 256

  const TWO_32 := 0x1_0000_0000
  const TWO_64 := 0x1_0000_0000_0000_0000

  type u32 = n: int | 0 <= n < TWO_32
  type u64 = n: int | 0 <= n < TWO_64

  function Pow256(width: nat): nat {
    if width == 0 then 1 else 256 * Pow256(width - 1)
  }

  function ToLE(n: nat, width: nat): (b: seq<byte>)
    ensures |b| == width
    decreases width, n
  {
    if width == 0 then [] else [n % 256] + ToLE(n / 256, width - 1)
  }

  function FromLE(b: seq<byte>): nat {
    if b == [] then 0 else b[0] + 256 * FromLE(b[1..])
  }

  function DropDigits(n: nat, k: nat): nat
    decreases k
  {
    if k == 0 then n else DropDigits(n / 256, k - 1)
  }

  /** The byte at place k is the k-th base-256 digit, the lowest first. */
  lemma {:induction false} ToLEDigit(n: nat, width: nat, k: nat)
    requires k < width
    ensures ToLE(n, width)[k] == DropDigits(n, k) % 256
    decreases width
  {
    if k > 0 {
      ToLEDigit(n / 256, width - 1, k - 1);
    }
  }

  lemma {:induction false} FromToLE(n: nat, width: nat)
    requires n < Pow256(width)
    ensures FromLE(ToLE(n, width)) == n
    decreases width
  {
    if width > 0 {
      FromToLE(n / 256, width - 1);
      assert ToLE(n, width)[1..] == ToLE(n / 256, width - 1);
    }
  }

  lemma LowDigit(d: byte, rest: nat)
    ensures (d + 256 * rest) % 256 == d && (d + 256 * rest) / 256 == rest
  {}

  lemma {:induction false} ToFromLE(b: seq<byte>)
    ensures FromLE(b) < Pow256(|b|) && ToLE(FromLE(b), |b|) == b
    decreases |b|
  {
    if b != [] {
      var n, rest := FromLE(b), FromLE(b[1..]);
      ToFromLE(b[1..]);
      LowDigit(b[0], rest);
      assert ToLE(n, |b|) == [n % 256] + ToLE(n / 256, |b| - 1);
      assert b == [b[0]] + b[1..];
    }
  }

  lemma Widths()
    ensures Pow256(4) == TWO_32 && Pow256(8) == TWO_64
  {
    assert Pow256(2) == 256 * (256 * Pow256(0));
    assert Pow256(4) == 256 * (256 * Pow256(2));
    assert Pow256(6) == 256 * (256 * Pow256(4));
    assert Pow256(8) == 256 * (256 * Pow256(6));
  }

  function U32(b: seq<byte>): u32
    requires |b| == 4
  {
    ToFromLE(b);
    Widths();
    FromLE(b)
  }

  function U64(b: seq<byte>): u64
    requires |b| == 8
  {
    ToFromLE(b);
    Widths();
    FromLE(b)
  }

  lemma U32RoundTrip(n: u32)
    ensures U32(ToLE(n, 4)) == n
  {
    Widths();
    FromToLE(n, 4);
  }

  lemma U64RoundTrip(n: u64)
    ensures U64(ToLE(n, 8)) == n
  {
    Widths();
    FromToLE(n, 8);
  }

  // ---- Byte by byte ----

  /** Four bytes, the lowest first. */
  function Word(b: seq<byte>, at: nat): nat
    requires at + 4 <= |b|
  {
    b[at] as int + 0x100 * b[at + 1] as int + 0x1_0000 * b[at + 2] as int + 0x100_0000 * b[at + 3] as int
  }

  lemma FromTwoBytes(b: seq<byte>, rest: seq<byte>)
    requires 2 <= |b| && rest == b[2..]
    ensures FromLE(b) == b[0] + 0x100 * b[1] + 0x1_0000 * FromLE(rest)
  {
    assert b[1..][1..] == rest;
  }

  lemma FourBytes(b: seq<byte>)
    requires |b| == 4
    ensures U32(b) == Word(b, 0)
  {
    FromTwoBytes(b, b[2..]);
    FromTwoBytes(b[2..], []);
  }

  lemma EightBytes(b: seq<byte>)
    requires |b| == 8
    ensures U64(b) == U32(b[..4]) + TWO_32 * U32(b[4..])
  {
    var c := b[4..];
    FromTwoBytes(b, b[2..]);
    FromTwoBytes(b[2..], c);
    FourBytes(b[..4]);
  }

  /** Dart integers are signed: the same 64 bits, read in two's complement. */
  function Signed(n: u64): int {
    if n < TWO_64 / 2 then n else n - TWO_64
  }

  function Unsigned(n: int): u64
    requires -TWO_64 / 2 <= n < TWO_64 / 2
  {
    if 0 <= n then n else n + TWO_64
  }
}
