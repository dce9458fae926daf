/** Rows of four-bit numbers, and tables that are written as rows of one width. */
module Rows {

  datatype Row = Row(
    x0: bv4, x1: bv4, x2: bv4, x3: bv4,
    x4: bv4, x5: bv4, x6: bv4, x7: bv4,
    x8: bv4, x9: bv4, x10: bv4, x11: bv4,
    x12: bv4, x13: bv4, x14: bv4, x15: bv4)
  {
    function At(i: nat): bv4 {
      if i == 0 then x0 else if i == 1 then x1 else if i == 2 then x2 else if i == 3 then x3
      else if i == 4 then x4 else if i == 5 then x5 else if i == 6 then x6 else if i == 7 then x7
      else if i == 8 then x8 else if i == 9 then x9 else if i == 10 then x10 else if i == 11 then x11
      else if i == 12 then x12 else if i == 13 then x13 else if i == 14 then x14 else x15
    }
  }

  /** Entry `i` of a table that is written in rows of `w` entries; zero past its end. */
  function Entry(table: seq<seq<nat>>, w: nat, i: nat): nat
    requires w > 0
  {
    if i / w < |table| && i % w < |table[i / w]| then table[i / w][i % w] else 0
  }
}
