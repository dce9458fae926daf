/** The tables of des.js. */
module DesTables {
  import opened Rows

  // An entry of a substitution box sets some of the box's four bits a, b, d and e; c is both a
  // and b, f is both d and e, and z is none.
  const z: bv4 := 0
  const a: bv4 := 1
  const b: bv4 := 2
  const c: bv4 := a | b
  const d: bv4 := 4
  const e: bv4 := 8
  const f: bv4 := d | e

  /** A substitution box, already followed by the permutation P: its four bits, and which of them each input sets. */
  datatype Sp = Sp(bitA: bv32, bitB: bv32, bitD: bv32, bitE: bv32, rows: seq<Row>)

  const SP1 := Sp(0x00010000, 0x01000000, 0x00000004, 0x00000400, [
    Row(c | e, z | z, a | z, c | f, c | d, a | f, z | d, a | z,
        z | e, c | e, c | f, z | e, b | f, c | d, b | z, z | d),
    Row(z | f, b | e, b | e, a | e, a | e, c | z, c | z, b | f,
        a | d, b | d, b | d, a | d, z | z, z | f, a | f, b | z),
    Row(a | z, c | f, z | d, c | z, c | e, b | z, b | z, z | e,
        c | d, a | z, a | e, b | d, z | e, z | d, b | f, a | f),
    Row(c | f, a | d, c | z, b | f, b | d, z | f, a | f, c | e,
        z | f, b | e, b | e, z | z, a | d, a | e, z | z, c | d)])

  const SP2 := Sp(0x00100000, 0x80000000, 0x00000020, 0x00008000, [
    Row(c | f, b | e, z | e, a | f, a | z, z | d, c | d, b | f,
        b | d, c | f, c | e, b | z, b | e, a | z, z | d, c | d),
    Row(a | e, a | d, b | f, z | z, b | z, z | e, a | f, c | z,
        a | d, b | d, z | z, a | e, z | f, c | e, c | z, z | f),
    Row(z | z, a | f, c | d, a | z, b | f, c | z, c | e, z | e,
        c | z, b | e, z | d, c | f, a | f, z | d, z | e, b | z),
    Row(z | f, c | e, a | z, b | d, a | d, b | f, b | d, a | d,
        a | e, z | z, b | e, z | f, b | z, c | d, c | f, a | e)])

  const SP3 := Sp(0x00020000, 0x08000000, 0x00000008, 0x00000200, [
    Row(z | f, c | e, z | z, c | d, b | e, z | z, a | f, b | e,
        a | d, b | d, b | d, a | z, c | f, a | d, c | z, z | f),
    Row(b | z, z | d, c | e, z | e, a | e, c | z, c | d, a | f,
        b | f, a | e, a | z, b | f, z | d, c | f, z | e, b | z),
    Row(c | e, b | z, a | d, z | f, a | z, c | e, b | e, z | z,
        z | e, a | d, c | f, b | e, b | d, z | e, z | z, c | d),
    Row(b | f, a | z, b | z, c | f, z | d, a | f, a | e, b | d,
        c | z, b | f, z | f, c | z, a | f, z | d, c | d, a | e)])

  const SP4 := Sp(0x00002000, 0x00800000, 0x00000001, 0x00000080, [
    Row(c | d, a | f, a | f, z | e, c | e, b | f, b | d, a | d,
        z | z, c | z, c | z, c | f, z | f, z | z, b | e, b | d),
    Row(z | d, a | z, b | z, c | d, z | e, b | z, a | d, a | e,
        b | f, z | d, a | e, b | e, a | z, c | e, c | f, z | f),
    Row(b | e, b | d, c | z, c | f, z | f, z | z, z | z, c | z,
        a | e, b | e, b | f, z | d, c | d, a | f, a | f, z | e),
    Row(c | f, z | f, z | d, a | z, b | d, a | d, c | e, b | f,
        a | d, a | e, b | z, c | d, z | e, b | z, a | z, c | e)])

  const SP5 := Sp(0x02000000, 0x40000000, 0x00000100, 0x00080000, [
    Row(z | d, a | f, a | e, c | d, z | e, z | d, b | z, a | e,
        b | f, z | e, a | d, b | f, c | d, c | e, z | f, b | z),
    Row(a | z, b | e, b | e, z | z, b | d, c | f, c | f, a | d,
        c | e, b | d, z | z, c | z, a | f, a | z, c | z, z | f),
    Row(z | e, c | d, z | d, a | z, b | z, a | e, c | d, b | f,
        a | d, b | z, c | e, a | f, b | f, z | d, a | z, c | e),
    Row(c | f, z | f, c | z, c | f, a | e, z | z, b | e, c | z,
        z | f, a | d, b | d, z | e, z | z, b | e, a | f, b | d)])

  const SP6 := Sp(0x00400000, 0x20000000, 0x00000010, 0x00004000, [
    Row(b | d, c | z, z | e, c | f, c | z, z | d, c | f, a | z,
        b | e, a | f, a | z, b | d, a | d, b | e, b | z, z | f),
    Row(z | z, a | d, b | f, z | e, a | e, b | f, z | d, c | d,
        c | d, z | z, a | f, c | e, z | f, a | e, c | e, b | z),
    Row(b | e, z | d, c | d, a | e, c | f, a | z, z | f, b | d,
        a | z, b | e, b | z, z | f, b | d, c | f, a | e, c | z),
    Row(a | f, c | e, z | z, c | d, z | d, z | e, c | z, a | f,
        z | e, a | d, b | f, z | z, c | e, b | z, a | d, b | f)])

  const SP7 := Sp(0x00200000, 0x04000000, 0x00000002, 0x00000800, [
    Row(a | z, c | d, b | f, z | z, z | e, b | f, a | f, c | e,
        c | f, a | z, z | z, b | d, z | d, b | z, c | d, z | f),
    Row(b | e, a | f, a | d, b | e, b | d, c | z, c | e, a | d,
        c | z, z | e, z | f, c | f, a | e, z | d, b | z, a | e),
    Row(b | z, a | e, a | z, b | f, b | f, c | d, c | d, z | d,
        a | d, b | z, b | e, a | z, c | e, z | f, a | f, c | e),
    Row(z | f, b | d, c | f, c | z, a | e, z | z, z | d, c | f,
        z | z, a | f, c | z, z | e, b | d, b | e, z | e, a | d)])

  const SP8 := Sp(0x00040000, 0x10000000, 0x00000040, 0x00001000, [
    Row(b | f, z | e, a | z, c | f, b | z, b | f, z | d, b | z,
        a | d, c | z, c | f, a | e, c | e, a | f, z | e, z | d),
    Row(c | z, b | d, b | e, z | f, a | e, a | d, c | d, c | e,
        z | f, z | z, z | z, c | d, b | d, b | e, a | f, a | z),
    Row(a | f, a | z, c | e, z | e, z | d, c | d, z | e, a | f,
        b | e, z | d, b | d, c | z, c | d, b | z, a | z, b | f),
    Row(z | z, c | f, a | d, b | d, c | z, b | e, b | f, z | z,
        c | f, a | e, a | e, z | f, z | f, a | d, b | z, c | e)])

  type Position = n: nat | n < 56

  const PC2: seq<seq<Position>> := [
    [13, 16, 10, 23, 0, 4, 2, 27, 14, 5, 20, 9, 22, 18, 11, 3],
    [25, 7, 15, 6, 26, 19, 12, 1, 40, 51, 30, 36, 46, 54, 29, 39],
    [50, 44, 32, 47, 43, 48, 38, 55, 33, 52, 45, 41, 49, 35, 28, 31]]

  const TOTROT: seq<nat> := [1, 2, 4, 6, 8, 10, 12, 14, 15, 17, 19, 21, 23, 25, 27, 28]
}
