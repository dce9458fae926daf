/**
 * The Data Encryption Standard, FIPS 46-3, on sequences of bits: bit `n` of the standard, which
 * counts from one and from the left, is element `n - 1`.
 */
module Fips {
  import opened Rows

  type Bits = seq<bool>

  const IP: seq<seq<nat>> := [
    [58, 50, 42, 34, 26, 18, 10, 2],
    [60, 52, 44, 36, 28, 20, 12, 4],
    [62, 54, 46, 38, 30, 22, 14, 6],
    [64, 56, 48, 40, 32, 24, 16, 8],
    [57, 49, 41, 33, 25, 17, 9, 1],
    [59, 51, 43, 35, 27, 19, 11, 3],
    [61, 53, 45, 37, 29, 21, 13, 5],
    [63, 55, 47, 39, 31, 23, 15, 7]]

  const IP_INVERSE: seq<seq<nat>> := [
    [40, 8, 48, 16, 56, 24, 64, 32],
    [39, 7, 47, 15, 55, 23, 63, 31],
    [38, 6, 46, 14, 54, 22, 62, 30],
    [37, 5, 45, 13, 53, 21, 61, 29],
    [36, 4, 44, 12, 52, 20, 60, 28],
    [35, 3, 43, 11, 51, 19, 59, 27],
    [34, 2, 42, 10, 50, 18, 58, 26],
    [33, 1, 41, 9, 49, 17, 57, 25]]

  const E: seq<seq<nat>> := [
    [32, 1, 2, 3, 4, 5],
    [4, 5, 6, 7, 8, 9],
    [8, 9, 10, 11, 12, 13],
    [12, 13, 14, 15, 16, 17],
    [16, 17, 18, 19, 20, 21],
    [20, 21, 22, 23, 24, 25],
    [24, 25, 26, 27, 28, 29],
    [28, 29, 30, 31, 32, 1]]

  const P: seq<seq<nat>> := [
    [16, 7, 20, 21, 29, 12, 28, 17],
    [1, 15, 23, 26, 5, 18, 31, 10],
    [2, 8, 24, 14, 32, 27, 3, 9],
    [19, 13, 30, 6, 22, 11, 4, 25]]

  const PC1: seq<seq<nat>> := [
    [57, 49, 41, 33, 25, 17, 9],
    [1, 58, 50, 42, 34, 26, 18],
    [10, 2, 59, 51, 43, 35, 27],
    [19, 11, 3, 60, 52, 44, 36],
    [63, 55, 47, 39, 31, 23, 15],
    [7, 62, 54, 46, 38, 30, 22],
    [14, 6, 61, 53, 45, 37, 29],
    [21, 13, 5, 28, 20, 12, 4]]

  const PC2: seq<seq<nat>> := [
    [14, 17, 11, 24, 1, 5],
    [3, 28, 15, 6, 21, 10],
    [23, 19, 12, 4, 26, 8],
    [16, 7, 27, 20, 13, 2],
    [41, 52, 31, 37, 47, 55],
    [30, 40, 51, 45, 33, 48],
    [44, 49, 39, 56, 34, 53],
    [46, 42, 50, 36, 29, 32]]

  const SHIFTS: seq<nat> := [1, 1, 2, 2, 2, 2, 2, 2, 1, 2, 2, 2, 2, 2, 2, 1]

  const S1: seq<Row> := [
    Row(14, 4, 13, 1, 2, 15, 11, 8, 3, 10, 6, 12, 5, 9, 0, 7),
    Row(0, 15, 7, 4, 14, 2, 13, 1, 10, 6, 12, 11, 9, 5, 3, 8),
    Row(4, 1, 14, 8, 13, 6, 2, 11, 15, 12, 9, 7, 3, 10, 5, 0),
    Row(15, 12, 8, 2, 4, 9, 1, 7, 5, 11, 3, 14, 10, 0, 6, 13)]

  const S2: seq<Row> := [
    Row(15, 1, 8, 14, 6, 11, 3, 4, 9, 7, 2, 13, 12, 0, 5, 10),
    Row(3, 13, 4, 7, 15, 2, 8, 14, 12, 0, 1, 10, 6, 9, 11, 5),
    Row(0, 14, 7, 11, 10, 4, 13, 1, 5, 8, 12, 6, 9, 3, 2, 15),
    Row(13, 8, 10, 1, 3, 15, 4, 2, 11, 6, 7, 12, 0, 5, 14, 9)]

  const S3: seq<Row> := [
    Row(10, 0, 9, 14, 6, 3, 15, 5, 1, 13, 12, 7, 11, 4, 2, 8),
    Row(13, 7, 0, 9, 3, 4, 6, 10, 2, 8, 5, 14, 12, 11, 15, 1),
    Row(13, 6, 4, 9, 8, 15, 3, 0, 11, 1, 2, 12, 5, 10, 14, 7),
    Row(1, 10, 13, 0, 6, 9, 8, 7, 4, 15, 14, 3, 11, 5, 2, 12)]

  const S4: seq<Row> := [
    Row(7, 13, 14, 3, 0, 6, 9, 10, 1, 2, 8, 5, 11, 12, 4, 15),
    Row(13, 8, 11, 5, 6, 15, 0, 3, 4, 7, 2, 12, 1, 10, 14, 9),
    Row(10, 6, 9, 0, 12, 11, 7, 13, 15, 1, 3, 14, 5, 2, 8, 4),
    Row(3, 15, 0, 6, 10, 1, 13, 8, 9, 4, 5, 11, 12, 7, 2, 14)]

  const S5: seq<Row> := [
    Row(2, 12, 4, 1, 7, 10, 11, 6, 8, 5, 3, 15, 13, 0, 14, 9),
    Row(14, 11, 2, 12, 4, 7, 13, 1, 5, 0, 15, 10, 3, 9, 8, 6),
    Row(4, 2, 1, 11, 10, 13, 7, 8, 15, 9, 12, 5, 6, 3, 0, 14),
    Row(11, 8, 12, 7, 1, 14, 2, 13, 6, 15, 0, 9, 10, 4, 5, 3)]

  const S6: seq<Row> := [
    Row(12, 1, 10, 15, 9, 2, 6, 8, 0, 13, 3, 4, 14, 7, 5, 11),
    Row(10, 15, 4, 2, 7, 12, 9, 5, 6, 1, 13, 14, 0, 11, 3, 8),
    Row(9, 14, 15, 5, 2, 8, 12, 3, 7, 0, 4, 10, 1, 13, 11, 6),
    Row(4, 3, 2, 12, 9, 5, 15, 10, 11, 14, 1, 7, 6, 0, 8, 13)]

  const S7: seq<Row> := [
    Row(4, 11, 2, 14, 15, 0, 8, 13, 3, 12, 9, 7, 5, 10, 6, 1),
    Row(13, 0, 11, 7, 4, 9, 1, 10, 14, 3, 5, 12, 2, 15, 8, 6),
    Row(1, 4, 11, 13, 12, 3, 7, 14, 10, 15, 6, 8, 0, 5, 9, 2),
    Row(6, 11, 13, 8, 1, 4, 10, 7, 9, 5, 0, 15, 14, 2, 3, 12)]

  const S8: seq<Row> := [
    Row(13, 2, 8, 4, 6, 15, 11, 1, 10, 9, 3, 14, 5, 0, 12, 7),
    Row(1, 15, 13, 8, 10, 3, 7, 4, 12, 5, 6, 11, 0, 14, 9, 2),
    Row(7, 11, 4, 1, 9, 12, 14, 2, 0, 6, 10, 13, 15, 3, 5, 8),
    Row(2, 1, 14, 7, 4, 10, 8, 13, 15, 12, 9, 0, 3, 5, 6, 11)]

  /** The selection of bits that a table in rows of `w` bit numbers makes. */
  function Permute(table: seq<seq<nat>>, w: nat, s: Bits): (r: Bits)
    requires w > 0
    ensures |r| == |table| * w
  {
    seq(|table| * w, (i: nat) => BitNumber(s, Entry(table, w, i)))
  }

  predicate BitNumber(s: Bits, n: nat) { 1 <= n <= |s| && s[n - 1] }

  function XorBits(s: Bits, t: Bits): (r: Bits)
    requires |s| == |t|
    ensures |r| == |s|
  {
    seq(|s|, i requires 0 <= i < |s| => s[i] != t[i])
  }

  /** The selection functions S1 to S8: the first and the last bit name the row, the four between them the column. */
  function Select(table: seq<Row>, s: Bits): bv4
    requires |table| == 4 && |s| == 6
  {
    table[2 * One(s[0]) + One(s[5])].At(8 * One(s[1]) + 4 * One(s[2]) + 2 * One(s[3]) + One(s[4]))
  }

  function One(b: bool): (n: nat)
    ensures n <= 1
  {
    if b then 1 else 0
  }

  function SelectionTable(g: nat): (table: seq<Row>)
    ensures |table| == 4
  {
    if g == 0 then S1 else if g == 1 then S2 else if g == 2 then S3 else if g == 3 then S4
    else if g == 4 then S5 else if g == 5 then S6 else if g == 6 then S7 else S8
  }

  predicate BitOfFour(v: bv4, k: nat) {
    if k == 0 then v & 8 != 0 else if k == 1 then v & 4 != 0 else if k == 2 then v & 2 != 0 else v & 1 != 0
  }

  /** Each group of six bits selects four. */
  function Substitute(s: Bits): (r: Bits)
    requires |s| == 48
    ensures |r| == 32
  {
    seq(32, (i: nat) requires i < 32 =>
      BitOfFour(Select(SelectionTable(i / 4), s[6 * (i / 4)..6 * (i / 4) + 6]), i % 4))
  }

  function F(r: Bits, k: Bits): (x: Bits)
    requires |k| == 48
    ensures |x| == 32
  {
    Widths();
    Permute(P, 8, Substitute(XorBits(Permute(E, 6, r), k)))
  }

  lemma Widths()
    ensures |IP| == |IP_INVERSE| == |E| == |PC1| == |PC2| == 8 && |P| == 4 && |SHIFTS| == 16
  {
  }

  function RotateLeft(s: Bits, n: nat): (r: Bits)
    requires n <= |s|
    ensures |r| == |s|
  {
    s[n..] + s[..n]
  }

  /** The registers C and D after `n` rounds of the key schedule. */
  datatype Registers = Registers(c: Bits, d: Bits)

  function KeyRegisters(key: Bits, n: nat): (h: Registers)
    requires n <= 16
    ensures |h.c| == |h.d| == 28
  {
    Widths();
    if n == 0 then
      Registers(Permute(PC1, 7, key)[..28], Permute(PC1, 7, key)[28..])
    else
      Shifts(n - 1);
      var h := KeyRegisters(key, n - 1);
      Registers(RotateLeft(h.c, SHIFTS[n - 1]), RotateLeft(h.d, SHIFTS[n - 1]))
  }

  lemma Shifts(i: nat)
    requires i < 16
    ensures |SHIFTS| == 16 && 1 <= SHIFTS[i] <= 2
  {
  }

  /** The key of round `n`, counted from one. */
  function RoundKeyBits(key: Bits, n: nat): (k: Bits)
    requires n <= 16
    ensures |k| == 48
  {
    Widths();
    Permute(PC2, 6, KeyRegisters(key, n).c + KeyRegisters(key, n).d)
  }

  datatype LeftRight = LeftRight(l: Bits, r: Bits)

  function Round(h: LeftRight, k: Bits): (g: LeftRight)
    requires |h.l| == 32 && |k| == 48
    ensures g.l == h.r && |g.r| == 32
  {
    LeftRight(h.r, XorBits(h.l, F(h.r, k)))
  }

  function Rounds(h: LeftRight, key: Bits, n: nat): (g: LeftRight)
    requires |h.l| == |h.r| == 32 && n <= 16
    ensures |g.l| == |g.r| == 32
  {
    if n == 0 then h else Round(Rounds(h, key, n - 1), RoundKeyBits(key, n))
  }

  function Cipher(key: Bits, block: Bits): Bits {
    Widths();
    var s := Permute(IP, 8, block);
    var g := Rounds(LeftRight(s[..32], s[32..]), key, 16);
    Permute(IP_INVERSE, 8, g.r + g.l)
  }

  /** The bits of bytes, the most significant of each first. */
  function BitsOf(bytes: seq<bv8>): (s: Bits)
    ensures |s| == 8 * |bytes|
  {
    seq(8 * |bytes|, (i: nat) requires i < 8 * |bytes| => ByteBits(bytes[i / 8])[i % 8])
  }

  function ByteBits(b: bv8): (s: Bits)
    ensures |s| == 8
  {
    [b & 0x80 != 0, b & 0x40 != 0, b & 0x20 != 0, b & 0x10 != 0, b & 8 != 0, b & 4 != 0, b & 2 != 0, b & 1 != 0]
  }
}
