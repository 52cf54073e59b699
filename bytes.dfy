/** Go's fixed-width unsigned integers, wrap-around addition, and the byte orders of
    `encoding/binary` that the mirror uses for store keys and values, partition keys and
    the unique-id preimage. */
module Bytes {

  type byte = x: int | 0 <= x < 0x100
  type uint32 = x: int | 0 <= x < 0x1_0000_0000
  type uint64 = x: int | 0 <= x < 0x1_0000_0000_0000_0000

  /** A Go string is an immutable sequence of bytes; `[]byte(s)` is the identity here. */
  type GoString = seq<byte>

  const MAX_UINT32: uint32 := 0xFFFF_FFFF

  /** Go's `a + b` on `uint32`, which wraps around modulo 2^32. */
  function Add32(a: uint32, b: uint32): (r: uint32)
    ensures a + b <= MAX_UINT32 ==> r == a + b
    ensures a + b > MAX_UINT32 ==> r == a + b - 0x1_0000_0000
  {
    (a + b) % 0x1_0000_0000
  }

  function Pow256(n: nat): (r: nat)
    ensures r >= 1
  {
    if n == 0 then 1 else 256 * Pow256(n - 1)
  }

  lemma Pow256Widths()
    ensures Pow256(4) == 0x1_0000_0000
    ensures Pow256(8) == 0x1_0000_0000_0000_0000
  {
    assert Pow256(2) == 0x1_0000;
    assert Pow256(4) == 0x1_0000_0000;
  }

  /** The `n`-byte little-endian encoding of `x`: least significant byte first. */
  function LittleEndian(x: nat, n: nat): (r: seq<byte>)
    requires x < Pow256(n)
    ensures |r| == n
  {
    if n == 0 then [] else [x % 256] + LittleEndian(x / 256, n - 1)
  }

  /** The number whose little-endian encoding is `s`. */
  function FromLittleEndian(s: seq<byte>): (x: nat)
    ensures x < Pow256(|s|)
  {
    if s == [] then 0 else s[0] + 256 * FromLittleEndian(s[1..])
  }

  /** The `n`-byte big-endian encoding of `x`: most significant byte first. */
  function BigEndian(x: nat, n: nat): (r: seq<byte>)
    requires x < Pow256(n)
    ensures |r| == n
  {
    if n == 0 then [] else BigEndian(x / 256, n - 1) + [x % 256]
  }

  /** The number whose big-endian encoding is `s`. */
  function FromBigEndian(s: seq<byte>): (x: nat)
    ensures x < Pow256(|s|)
  {
    if s == [] then 0 else 256 * FromBigEndian(s[..|s| - 1]) + s[|s| - 1]
  }

  lemma {:induction false} LittleEndianRoundTrip(x: nat, n: nat)
    requires x < Pow256(n)
    ensures FromLittleEndian(LittleEndian(x, n)) == x
  {
    if n > 0 {
      LittleEndianRoundTrip(x / 256, n - 1);
      assert LittleEndian(x, n)[1..] == LittleEndian(x / 256, n - 1);
    }
  }

  lemma {:induction false} BigEndianRoundTrip(x: nat, n: nat)
    requires x < Pow256(n)
    ensures FromBigEndian(BigEndian(x, n)) == x
  {
    if n > 0 {
      BigEndianRoundTrip(x / 256, n - 1);
      var s := BigEndian(x, n);
      assert s[..|s| - 1] == BigEndian(x / 256, n - 1);
    }
  }

  lemma {:induction false} FromBigEndianRoundTrip(s: seq<byte>)
    ensures BigEndian(FromBigEndian(s), |s|) == s
  {
    if s != [] {
      var init := s[..|s| - 1];
      FromBigEndianRoundTrip(init);
      var x := FromBigEndian(s);
      assert x / 256 == FromBigEndian(init) && x % 256 == s[|s| - 1];
      assert s == init + [s[|s| - 1]];
    }
  }

  // ---- the fixed widths Go uses ----

  /** `binary.BigEndian.AppendUint32` applied to no prefix. */
  function BigEndian32(x: uint32): (r: seq<byte>)
    ensures |r| == 4
  {
    Pow256Widths();
    BigEndian(x, 4)
  }

  /** `binary.BigEndian.Uint32(b)`: reads the first four bytes (Go panics on a shorter slice). */
  function BigEndianUint32(b: seq<byte>): uint32
    requires |b| >= 4
  {
    Pow256Widths();
    FromBigEndian(b[..4])
  }

  /** `binary.LittleEndian.PutUint32`, and `binary.Write` of a `uint32` in little-endian order. */
  function LittleEndian32(x: uint32): (r: seq<byte>)
    ensures |r| == 4
  {
    Pow256Widths();
    LittleEndian(x, 4)
  }

  /** `binary.LittleEndian.Uint32(b)`. */
  function LittleEndianUint32(b: seq<byte>): uint32
    requires |b| >= 4
  {
    Pow256Widths();
    FromLittleEndian(b[..4])
  }

  /** `binary.Write` of a `uint64` in little-endian order. */
  function LittleEndian64(x: uint64): (r: seq<byte>)
    ensures |r| == 8
  {
    Pow256Widths();
    LittleEndian(x, 8)
  }

  lemma BigEndian32RoundTrip(x: uint32)
    ensures BigEndianUint32(BigEndian32(x)) == x
  {
    Pow256Widths();
    BigEndianRoundTrip(x, 4);
    assert BigEndian32(x)[..4] == BigEndian(x, 4);
  }

  /** Every four-byte value is the encoding of the number decoded from it. */
  lemma BigEndianUint32RoundTrip(b: seq<byte>)
    requires |b| == 4
    ensures BigEndian32(BigEndianUint32(b)) == b
  {
    Pow256Widths();
    assert b[..4] == b;
    FromBigEndianRoundTrip(b);
  }

  lemma BigEndian32Injective(x: uint32, y: uint32)
    ensures BigEndian32(x) == BigEndian32(y) ==> x == y
  {
    BigEndian32RoundTrip(x);
    BigEndian32RoundTrip(y);
  }

  lemma LittleEndian32RoundTrip(x: uint32)
    ensures LittleEndianUint32(LittleEndian32(x)) == x
  {
    Pow256Widths();
    LittleEndianRoundTrip(x, 4);
    assert LittleEndian32(x)[..4] == LittleEndian(x, 4);
  }

  lemma LittleEndian32Injective(x: uint32, y: uint32)
    ensures LittleEndian32(x) == LittleEndian32(y) ==> x == y
  {
    LittleEndian32RoundTrip(x);
    LittleEndian32RoundTrip(y);
  }

  lemma LittleEndian64Injective(x: uint64, y: uint64)
    ensures LittleEndian64(x) == LittleEndian64(y) ==> x == y
  {
    Pow256Widths();
    LittleEndianRoundTrip(x, 8);
    LittleEndianRoundTrip(y, 8);
  }
}
