/** Bytes, options and the few sequence facts that several components share. */
module Bytes {

  type byte = b: int | 0 <= b < 256

  datatype Option<+T> = None | Some(value: T)

  /** Bit `k` of a non-negative integer, as the source reads it with `&`. */
  predicate Bit(v: nat, k: nat)
    requires k < 8
  {
    if k == 0 then v % 2 == 1
    else if k == 1 then v / 2 % 2 == 1
    else if k == 2 then v / 4 % 2 == 1
    else if k == 3 then v / 8 % 2 == 1
    else if k == 4 then v / 16 % 2 == 1
    else if k == 5 then v / 32 % 2 == 1
    else if k == 6 then v / 64 % 2 == 1
    else v / 128 % 2 == 1
  }

  /** The unsigned value of a byte string, most significant byte first. */
  function BigEndian(s: seq<byte>): nat
  {
    if |s| == 0 then 0 else 256 * BigEndian(s[..|s| - 1]) + s[|s| - 1]
  }

  function U16(s: seq<byte>): nat
    requires |s| >= 2
  {
    0x100 * (s[0] as int) + s[1]
  }

  function U32(s: seq<byte>): nat
    requires |s| >= 4
  {
    0x100_0000 * (s[0] as int) + 0x1_0000 * (s[1] as int) + 0x100 * (s[2] as int) + s[3]
  }

  /** The signed 32-bit reading of an integer, as `x | 0` and `x >> 0` compute it. */
  function Signed32(v: int): int
  {
    var m := v % 0x1_0000_0000;
    if m >= 0x8000_0000 then m - 0x1_0000_0000 else m
  }

  /** Pixel `k` of a buffer of RGBA bytes. */
  function PixelOf(buffer: seq<byte>, k: nat): (p: seq<byte>)
    requires 4 * k + 4 <= |buffer|
    ensures |p| == 4
  {
    buffer[4 * k..4 * k + 4]
  }

  function Concat<T>(chunks: seq<seq<T>>): seq<T>
  {
    if |chunks| == 0 then [] else chunks[0] + Concat(chunks[1..])
  }

  lemma BigEndian2(s: seq<byte>)
    requires |s| == 2
    ensures BigEndian(s) == U16(s)
  {
    assert s[..1][..0] == [];
    assert BigEndian(s[..1]) == s[0];
  }

  lemma BigEndian4(s: seq<byte>)
    requires |s| == 4
    ensures BigEndian(s) == U32(s)
  {
    assert s[..3][..2] == s[..2];
    assert s[..3][..2][..1] == s[..1];
    assert s[..1][..0] == [];
    BigEndian2(s[..2]);
  }

  function Pow256(n: nat): (p: nat)
    ensures p > 0
  {
    if n == 0 then 1 else 256 * Pow256(n - 1)
  }

  lemma {:induction false} BigEndianBound(s: seq<byte>)
    ensures BigEndian(s) < Pow256(|s|)
  {
    if |s| > 0 {
      BigEndianBound(s[..|s| - 1]);
    }
  }

  lemma {:induction false} Pow256Mono(a: nat, b: nat)
    requires a <= b
    ensures Pow256(a) <= Pow256(b)
    decreases b - a
  {
    if a < b {
      Pow256Mono(a + 1, b);
    }
  }

  lemma Pow256Step(k: nat)
    ensures Pow256(k + 1) == 256 * Pow256(k)
  {
  }
}
