/** Fixed-width C integers as bounded mathematical integers, with the conversions
    of C written out: reduction modulo a power of two, and division that truncates
    toward zero. */
module Words {

  const TWO_30: int := 0x4000_0000
  const TWO_31: int := 0x8000_0000
  const TWO_32: int := 0x1_0000_0000
  const TWO_62: int := 0x4000_0000_0000_0000
  const TWO_63: int := 0x8000_0000_0000_0000
  const TWO_64: int := 0x1_0000_0000_0000_0000

  type byte = x: int | 0 <= x < 256
  type u32 = x: int | 0 <= x < TWO_32
  type s32 = x: int | -TWO_31 <= x < TWO_31
  type u64 = x: int | 0 <= x < TWO_64
  type s64 = x: int | -TWO_63 <= x < TWO_63

  datatype Option<+T> = None | Some(value: T)

  function U32(x: int): u32 { x % 0x1_0000_0000 }

  function U64(x: int): u64 { x % 0x1_0000_0000_0000_0000 }

  function S32(x: int): s32 {
    var u := x % 0x1_0000_0000;
    if u < TWO_31 then u else u - 0x1_0000_0000
  }

  function S64(x: int): s64 {
    var u := x % 0x1_0000_0000_0000_0000;
    if u < TWO_63 then u else u - 0x1_0000_0000_0000_0000
  }

  // The remainder is the only value in range that differs from the argument by a multiple.

  lemma U32Of(x: int, k: int, r: u32)
    requires x == 0x1_0000_0000 * k + r
    ensures U32(x) == r
  {
  }

  lemma S32Of(x: int, k: int, r: s32)
    requires x == 0x1_0000_0000 * k + r
    ensures S32(x) == r
  {
    U32Of(x, if r < 0 then k - 1 else k, if r < 0 then r + TWO_32 else r);
  }

  lemma U64Of(x: int, k: int, r: u64)
    requires x == 0x1_0000_0000_0000_0000 * k + r
    ensures U64(x) == r
  {
  }

  lemma S64Of(x: int, k: int, r: s64)
    requires x == 0x1_0000_0000_0000_0000 * k + r
    ensures S64(x) == r
  {
    U64Of(x, if r < 0 then k - 1 else k, if r < 0 then r + TWO_64 else r);
  }

  predicate InS64(x: int) { -TWO_63 <= x < TWO_63 }

  function Abs(x: int): nat { if x < 0 then -x else x }

  /** C's `x / 2` on signed integers. */
  function Half(x: int): int {
    if x >= 0 then x / 2 else -((-x) / 2)
  }

  /** The quotient is rounded toward zero: the same for a number and its negative, and never too large. */
  lemma HalfTowardZero(x: int)
    ensures Half(-x) == -Half(x)
    ensures 2 * Abs(Half(x)) <= Abs(x) <= 2 * Abs(Half(x)) + 1
    ensures x >= 0 ==> Half(x) >= 0
  {
  }

  function Min(a: int, b: int): int { if a < b then a else b }

  function Max(a: int, b: int): int { if a < b then b else a }

  function Pow2(n: nat): (r: nat)
    ensures r >= 1
  {
    if n == 0 then 1 else 2 * Pow2(n - 1)
  }

  ghost predicate Distinct(s: seq<nat>) { forall i, j :: 0 <= i < j < |s| ==> s[i] != s[j] }

  /** `lwip_ntohl` of the four bytes at `offset`: network order, most significant first. */
  function ReadU32(data: seq<byte>, offset: nat): u32
    requires offset + 4 <= |data|
  {
    0x100_0000 * (data[offset] as int) + 0x1_0000 * (data[offset + 1] as int)
    + 0x100 * (data[offset + 2] as int) + data[offset + 3]
  }

  /** What a sender does with a 32-bit field. */
  function WriteU32(x: u32): (bytes: seq<byte>)
    ensures |bytes| == 4
  {
    [x / 0x100_0000, (x / 0x1_0000) % 0x100, (x / 0x100) % 0x100, x % 0x100]
  }

  lemma LastDigit(q: nat, r: byte)
    ensures (q * 256 + r) / 256 == q && (q * 256 + r) % 256 == r
  {
  }

  /** The most significant byte comes first. */
  lemma NetworkOrder(a: byte, b: byte, c: byte, d: byte)
    ensures ReadU32([a, b, c, d], 0) as int == ((a as int * 256 + b) * 256 + c) * 256 + d
    ensures WriteU32(((a as int * 256 + b) * 256 + c) * 256 + d) == [a, b, c, d]
  {
    var p: nat := a as int * 256 + b;
    var q: nat := p * 256 + c;
    var x: nat := q * 256 + d;
    LastDigit(a, b);
    LastDigit(p, c);
    LastDigit(q, d);
    assert x / 0x1_0000 == (x / 0x100) / 0x100;
    assert x / 0x100_0000 == ((x / 0x100) / 0x100) / 0x100;
  }

  lemma ReadAfterWrite(data: seq<byte>, offset: nat, x: u32)
    requires offset + 4 <= |data|
    requires data[offset..offset + 4] == WriteU32(x)
    ensures ReadU32(data, offset) == x
  {
    var w := data[offset..offset + 4];
    assert data[offset] == w[0] && data[offset + 1] == w[1] && data[offset + 2] == w[2] && data[offset + 3] == w[3];
    assert x / 0x100 == (x / 0x1_0000) * 0x100 + (x / 0x100) % 0x100;
    assert x / 0x1_0000 == (x / 0x100_0000) * 0x100 + (x / 0x1_0000) % 0x100;
  }
}
