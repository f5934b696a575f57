/**
 Big-endian fields of ISO base media files (ISO/IEC 14496-12), over byte
 strings.  Fixed-width integers of the program are subset types; every place
 where it converts to a narrower width says so with Wrap32 or Wrap64.
 */
module Bytes {
  import opened Options

  const MAX_I64: int := 0x7fff_ffff_ffff_ffff
  const MAX_U32: int := 0xffff_ffff
  const MAX_U64: int := 0xffff_ffff_ffff_ffff

  type byte = x: int | 0 <= x < 256
  type bytes = seq<byte>
  type u32 = x: int | 0 <= x < 0x1_0000_0000
  type u64 = x: int | 0 <= x < 0x1_0000_0000_0000_0000
  type i64 = x: int | -0x8000_0000_0000_0000 <= x <= 0x7fff_ffff_ffff_ffff

  function Wrap32(n: int): u32 { n % 0x1_0000_0000 }

  function Wrap64(n: int): u64 { n % 0x1_0000_0000_0000_0000 }

  /** Reinterprets 32 bits as a two's complement number. */
  function Signed32(n: u32): int {
    if n < 0x8000_0000 then n else n - 0x1_0000_0000
  }

  /** Tests one bit of a flag word; `mask` is a power of two. */
  predicate Bit(n: u32, mask: int)
    requires mask > 0
  {
    n / mask % 2 == 1
  }

  function U32(b: bytes, at: nat): u32
    requires at + 4 <= |b|
  {
    b[at] as int * 0x100_0000 + b[at + 1] as int * 0x1_0000 + b[at + 2] as int * 0x100 + b[at + 3] as int
  }

  function U64(b: bytes, at: nat): u64
    requires at + 8 <= |b|
  {
    U32(b, at) as int * 0x1_0000_0000 + U32(b, at + 4) as int
  }

  function Enc32(n: u32): (r: bytes)
    ensures |r| == 4 && U32(r, 0) == n
  {
    [n / 0x100_0000, n / 0x1_0000 % 256, n / 0x100 % 256, n % 256]
  }

  function Enc64(n: u64): (r: bytes)
    ensures |r| == 8 && U64(r, 0) == n
  {
    var r := Enc32(n / 0x1_0000_0000) + Enc32(n % 0x1_0000_0000);
    Field32(r, 0, Enc32(n / 0x1_0000_0000));
    Field32(r, 4, Enc32(n % 0x1_0000_0000));
    r
  }

  /** A field has the value of the four bytes found in its place. */
  lemma Field32(b: bytes, at: nat, field: bytes)
    requires at + 4 <= |b| && |field| == 4 && b[at..at + 4] == field
    ensures U32(b, at) == U32(field, 0)
  {
    assert field[0] == b[at] && field[1] == b[at + 1] && field[2] == b[at + 2] && field[3] == b[at + 3];
  }

  lemma Field64(b: bytes, at: nat, field: bytes)
    requires at + 8 <= |b| && |field| == 8 && b[at..at + 8] == field
    ensures U64(b, at) == U64(field, 0)
  {
    assert b[at..at + 4] == field[..4] && b[at + 4..at + 8] == field[4..];
    SameField32(b, at, field, 0);
    SameField32(b, at + 4, field, 4);
  }

  lemma SliceSlice(a: bytes, i: nat, j: nat, k: nat, l: nat)
    requires i <= j <= |a| && k <= l <= j - i
    ensures a[i..j][k..l] == a[i + k..i + l]
  {
    assert |a[i..j][k..l]| == |a[i + k..i + l]|;
    forall m | 0 <= m < l - k
      ensures a[i..j][k..l][m] == a[i + k..i + l][m]
    {
    }
  }

  /** Equal bytes read as equal fields, wherever they lie. */
  lemma SameField32(a: bytes, i: nat, b: bytes, j: nat)
    requires i + 4 <= |a| && j + 4 <= |b| && a[i..i + 4] == b[j..j + 4]
    ensures U32(a, i) == U32(b, j)
  {
    Field32(a, i, b[j..j + 4]);
    Field32(b, j, b[j..j + 4]);
  }

  lemma SameField64(a: bytes, i: nat, b: bytes, j: nat)
    requires i + 8 <= |a| && j + 8 <= |b| && a[i..i + 8] == b[j..j + 8]
    ensures U64(a, i) == U64(b, j)
  {
    Field64(a, i, b[j..j + 8]);
    Field64(b, j, b[j..j + 8]);
  }

  /** A signed offset survives its trip through an unsigned field. */
  lemma SignedRoundTrip(c: int)
    requires -0x8000_0000 <= c <= 0x7fff_ffff
    ensures Signed32(Wrap32(c)) == c
  {
  }
}
