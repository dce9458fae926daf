/**
 * The DES of des.js is the standard's: its rotated halves, its cooked keys and its boxes that
 * already carry the permutation P spell the bits of FIPS 46-3, with the bits of each password
 * byte in the opposite order.
 */
module DesStandard {
  import opened Rows
  import opened DesTables
  import opened DesBits
  import opened Des
  import opened DesOpening
  import Fips

  // ---------------------------------------------------------------- the substitution boxes

  /** For the letters of a box, the place of each in the half and its weight in what the standard's box selects. */
  datatype Legend = Legend(sp: Sp, a: nat, b: nat, d: nat, e: nat, wa: bv4, wb: bv4, wd: bv4, we: bv4)

  function LegendOf(g: nat): Legend {
    if g == 0 then Legend(SP1, 16, 8, 30, 22, 4, 8, 1, 2)
    else if g == 1 then Legend(SP2, 12, 1, 27, 17, 8, 2, 4, 1)
    else if g == 2 then Legend(SP3, 15, 5, 29, 23, 4, 1, 2, 8)
    else if g == 3 then Legend(SP4, 19, 9, 0, 25, 4, 2, 1, 8)
    else if g == 4 then Legend(SP5, 7, 2, 24, 13, 8, 1, 2, 4)
    else if g == 5 then Legend(SP6, 10, 3, 28, 18, 2, 8, 4, 1)
    else if g == 6 then Legend(SP7, 11, 6, 31, 21, 4, 1, 8, 2)
    else Legend(SP8, 14, 4, 26, 20, 2, 8, 4, 1)
  }

  lemma LettersAreSmall(g: nat)
    requires g < 8
    ensures var n := LegendOf(g); n.a < 32 && n.b < 32 && n.d < 32 && n.e < 32
  {
  }

  lemma FirstLettersAreBits(g: nat)
    requires g < 8
    ensures var n := LegendOf(g); n.sp.bitA == Top((n.a + 31) % 32) && n.sp.bitB == Top((n.b + 31) % 32)
  {
    if g < 2 {
    } else if g < 4 {
    } else if g < 6 {
    } else {
    }
  }

  lemma LastLettersAreBits(g: nat)
    requires g < 8
    ensures var n := LegendOf(g); n.sp.bitD == Top((n.d + 31) % 32) && n.sp.bitE == Top((n.e + 31) % 32)
  {
    if g < 2 {
    } else if g < 4 {
    } else if g < 6 {
    } else {
    }
  }

  /** The place, in what the boxes select, of the bit that P brings to place `j`. */
  function Selected(j: nat): nat { if Entry(Fips.P, 8, j) > 0 then Entry(Fips.P, 8, j) - 1 else 0 }

  lemma LetterOfPlace(j: nat)
    requires j < 32
    ensures 0 < Entry(Fips.P, 8, j) <= 32
    ensures var n := LegendOf(Selected(j) / 4); j == n.a || j == n.b || j == n.d || j == n.e
  {
  }

  function Weight(k: int): bv4 { if k == 0 then 8 else if k == 1 then 4 else if k == 2 then 2 else 1 }

  lemma PlaceOfLetter(g: nat)
    requires g < 8
    ensures var n := LegendOf(g);
            && Selected(n.a) / 4 == Selected(n.b) / 4 == Selected(n.d) / 4 == Selected(n.e) / 4 == g
            && n.wa == Weight(Selected(n.a) % 4) && n.wb == Weight(Selected(n.b) % 4)
            && n.wd == Weight(Selected(n.d) % 4) && n.we == Weight(Selected(n.e) % 4)
  {
    if g < 2 {
    } else if g < 4 {
    } else if g < 6 {
    } else {
    }
  }

  /** An entry with its letters replaced by their weights. */
  function Weigh(n: Legend, x: bv4): bv4 {
    (if x & a != 0 then n.wa else 0) | (if x & b != 0 then n.wb else 0)
    | (if x & d != 0 then n.wd else 0) | (if x & e != 0 then n.we else 0)
  }

  lemma WeighedBits(g: nat, x: bv4)
    requires g < 8
    ensures var n := LegendOf(g);
            && (Weigh(n, x) & n.wa != 0 <==> x & a != 0) && (Weigh(n, x) & n.wb != 0 <==> x & b != 0)
            && (Weigh(n, x) & n.wd != 0 <==> x & d != 0) && (Weigh(n, x) & n.we != 0 <==> x & e != 0)
  {
  }

  // Two rows of a box of the source, one after the other, hold two rows of the standard's in turns.

  predicate Even(n: Legend, p: Row, q: Row, s: Row) {
    && s.x0 == Weigh(n, p.x0) && s.x1 == Weigh(n, p.x2) && s.x2 == Weigh(n, p.x4) && s.x3 == Weigh(n, p.x6)
    && s.x4 == Weigh(n, p.x8) && s.x5 == Weigh(n, p.x10) && s.x6 == Weigh(n, p.x12) && s.x7 == Weigh(n, p.x14)
    && s.x8 == Weigh(n, q.x0) && s.x9 == Weigh(n, q.x2) && s.x10 == Weigh(n, q.x4) && s.x11 == Weigh(n, q.x6)
    && s.x12 == Weigh(n, q.x8) && s.x13 == Weigh(n, q.x10) && s.x14 == Weigh(n, q.x12) && s.x15 == Weigh(n, q.x14)
  }

  predicate Odd(n: Legend, p: Row, q: Row, s: Row) {
    && s.x0 == Weigh(n, p.x1) && s.x1 == Weigh(n, p.x3) && s.x2 == Weigh(n, p.x5) && s.x3 == Weigh(n, p.x7)
    && s.x4 == Weigh(n, p.x9) && s.x5 == Weigh(n, p.x11) && s.x6 == Weigh(n, p.x13) && s.x7 == Weigh(n, p.x15)
    && s.x8 == Weigh(n, q.x1) && s.x9 == Weigh(n, q.x3) && s.x10 == Weigh(n, q.x5) && s.x11 == Weigh(n, q.x7)
    && s.x12 == Weigh(n, q.x9) && s.x13 == Weigh(n, q.x11) && s.x14 == Weigh(n, q.x13) && s.x15 == Weigh(n, q.x15)
  }

  predicate Spells(n: Legend, table: seq<Row>) {
    && |n.sp.rows| == |table| == 4
    && Even(n, n.sp.rows[0], n.sp.rows[1], table[0]) && Odd(n, n.sp.rows[0], n.sp.rows[1], table[1])
    && Even(n, n.sp.rows[2], n.sp.rows[3], table[2]) && Odd(n, n.sp.rows[2], n.sp.rows[3], table[3])
  }

  lemma Box1Spells() ensures Spells(LegendOf(0), Fips.S1) {}
  lemma Box2Spells() ensures Spells(LegendOf(1), Fips.S2) {}
  lemma Box3Spells() ensures Spells(LegendOf(2), Fips.S3) {}
  lemma Box4Spells() ensures Spells(LegendOf(3), Fips.S4) {}
  lemma Box5Spells() ensures Spells(LegendOf(4), Fips.S5) {}
  lemma Box6Spells() ensures Spells(LegendOf(5), Fips.S6) {}
  lemma Box7Spells() ensures Spells(LegendOf(6), Fips.S7) {}
  lemma Box8Spells() ensures Spells(LegendOf(7), Fips.S8) {}

  lemma EvenAt(n: Legend, p: Row, q: Row, s: Row, b1: Digit, b2: Digit, b3: Digit, b4: Digit)
    requires Even(n, p, q, s)
    ensures s.At(8 * b1 + 4 * b2 + 2 * b3 + b4) == Weigh(n, (if b1 == 0 then p else q).At(8 * b2 + 4 * b3 + 2 * b4))
  {
  }

  lemma OddAt(n: Legend, p: Row, q: Row, s: Row, b1: Digit, b2: Digit, b3: Digit, b4: Digit)
    requires Odd(n, p, q, s)
    ensures s.At(8 * b1 + 4 * b2 + 2 * b3 + b4)
         == Weigh(n, (if b1 == 0 then p else q).At(8 * b2 + 4 * b3 + 2 * b4 + 1))
  {
  }

  lemma {:induction false} TopIsShifted(t: nat)
    requires t < 32
    ensures Top(t) == Shl1(31 - t)
    decreases 32 - t
  {
    if t < 31 {
      TopIsShifted(t + 1);
      Doubled(t);
    }
  }

  lemma Doubled(t: nat)
    requires t < 31
    ensures Top(t) == Twice(Top(t + 1))
  {
    if t < 8 {
    } else if t < 16 {
    } else if t < 24 {
    } else {
    }
  }

  lemma AndSelf(w: bv32)
    ensures And(w, w) == w && And(0, w) == 0
  {
  }

  lemma AndApart(v: bv32, w: bv32)
    ensures And(v, w) == 0 <==> Apart(v, w)
    ensures And(w, v) == 0 <==> Apart(v, w)
  {
  }

  lemma TopHas(s: nat, t: nat)
    requires s < 32 && t < 32
    ensures Has(Top(s), t) <==> s == t
  {
    hide Top, And, Apart, Shl1;
    TopIsShifted(s);
    TopIsShifted(t);
    if s < t {
      DistinctBits(31 - s, 31 - t);
      AndApart(Top(s), Top(t));
    } else if t < s {
      DistinctBits(31 - t, 31 - s);
      AndApart(Top(t), Top(s));
    } else {
      OneBit(0, t);
      AndSelf(Top(t));
    }
  }

  lemma MixHas(w: bv32, x: bv32, y: bv32, z: bv32, t: nat)
    ensures Has(Mix(w, x, y, z), t) == (Has(w, t) || Has(x, t) || Has(y, t) || Has(z, t))
  {
    hide Has, Or;
    OrHas(Or(Or(w, x), y), z, t);
    OrHas(Or(w, x), y, t);
    OrHas(w, x, t);
  }

  /** A letter's bit, rotated back, is at the letter's place. */
  lemma LetterHas(on: bool, s: nat, j: nat)
    requires s < 32 && j < 32
    ensures Has(if on then Top((s + 31) % 32) else 0, (j + 31) % 32) <==> on && s == j
  {
    hide Top, And;
    TopHas((s + 31) % 32, (j + 31) % 32);
    AndSelf(Top((j + 31) % 32));
  }

  lemma SpelledBits(g: nat, x: bv4, j: nat)
    requires g < 8 && j < 32
    ensures var n := LegendOf(g);
            Has(RotR(Spell(n.sp, x)), j)
            <==>
            (x & a != 0 && j == n.a) || (x & b != 0 && j == n.b) || (x & d != 0 && j == n.d) || (x & e != 0 && j == n.e)
  {
    hide Has, Top, RotR, Mix, LegendOf;
    var n := LegendOf(g);
    LettersAreSmall(g);
    FirstLettersAreBits(g);
    LastLettersAreBits(g);
    RotRHas(Spell(n.sp, x), j);
    LetterHas(x & a != 0, n.a, j);
    LetterHas(x & b != 0, n.b, j);
    LetterHas(x & d != 0, n.d, j);
    LetterHas(x & e != 0, n.e, j);
    MixHas(if x & a != 0 then n.sp.bitA else 0, if x & b != 0 then n.sp.bitB else 0,
           if x & d != 0 then n.sp.bitD else 0, if x & e != 0 then n.sp.bitE else 0, (j + 31) % 32);
  }

  /** An entry, rotated back, is what P makes of the four bits that the standard's box selects. */
  lemma SpelledIsPermuted(g: nat, x: bv4, j: nat)
    requires g < 8 && j < 32
    ensures Has(RotR(Spell(LegendOf(g).sp, x)), j)
       <==> Selected(j) / 4 == g && Fips.BitOfFour(Weigh(LegendOf(g), x), Selected(j) % 4)
  {
    hide Has, Spell, Weigh, LegendOf, Selected, RotR;
    SpelledBits(g, x, j);
    LetterOfPlace(j);
    PlaceOfLetter(g);
    WeighedBits(g, x);
    if Selected(j) / 4 == g {
      FourBits(Weigh(LegendOf(g), x), Selected(j) % 4);
    }
  }

  lemma FourBits(v: bv4, k: nat)
    requires k < 4
    ensures Fips.BitOfFour(v, k) == (v & Weight(k) != 0)
  {
  }

  // ---------------------------------------------------------------- the round function

  /** The six bits that address a box, in byte `q` of a word from the top. */
  function GroupBits(w: bv32, q: nat): (s: Fips.Bits)
    requires q < 4
    ensures |s| == 6
  {
    seq(6, (i: nat) => Has(w, 8 * q + 2 + i))
  }

  function Number(s: Fips.Bits): (n: nat)
    requires |s| == 6
    ensures n < 64
  {
    32 * Fips.One(s[0]) + 16 * Fips.One(s[1]) + 8 * Fips.One(s[2]) + 4 * Fips.One(s[3]) + 2 * Fips.One(s[4])
    + Fips.One(s[5])
  }

  lemma SixIsNumber(w: bv32, q: nat)
    requires q < 4
    ensures Six(w, 3 - q) == Number(GroupBits(w, q))
  {
    hide Six, SixOf, GroupBits, Number, SixBits;
    SixIsOf(w, 3 - q);
    SixSum(SixOf(w, 3 - q));
    GroupIsSix(w, q);
  }

  function SixBits(v: bv32): Fips.Bits {
    [And(v, 32) != 0, And(v, 16) != 0, And(v, 8) != 0, And(v, 4) != 0, And(v, 2) != 0, And(v, 1) != 0]
  }

  lemma GroupIsSix(w: bv32, q: nat)
    requires q < 4
    ensures GroupBits(w, q) == SixBits(SixOf(w, 3 - q))
  {
    hide Has, And, SixOf;
    SixHas(w, q);
  }

  /** The masked word whose value addresses a box. */
  function SixOf(w: bv32, k: nat): bv32 {
    if k == 0 then w & 0x3f else if k == 1 then (w >> 8) & 0x3f
    else if k == 2 then (w >> 16) & 0x3f else (w >> 24) & 0x3f
  }

  lemma SixIsOf(w: bv32, k: nat)
    requires k < 4
    ensures SixOf(w, k) < 64 && Six(w, k) == SixOf(w, k) as nat
  {
  }

  lemma SixSum(v: bv32)
    requires v < 64
    ensures v as nat == Number(SixBits(v))
  {
  }

  lemma SixMeets0(w: bv32, m: bv32)
    requires m & 0x3f == m
    ensures And(SixOf(w, 3), m) == 0 <==> And(w, m << 24) == 0
  {
  }

  lemma SixMeets1(w: bv32, m: bv32)
    requires m & 0x3f == m
    ensures And(SixOf(w, 2), m) == 0 <==> And(w, m << 16) == 0
  {
  }

  lemma SixMeets2(w: bv32, m: bv32)
    requires m & 0x3f == m
    ensures And(SixOf(w, 1), m) == 0 <==> And(w, m << 8) == 0
  {
  }

  lemma SixMeets3(w: bv32, m: bv32)
    requires m & 0x3f == m
    ensures And(SixOf(w, 0), m) == 0 <==> And(w, m) == 0
  {
  }

  function Raised(m: bv32, q: nat): bv32 {
    if q == 0 then m << 24 else if q == 1 then m << 16 else if q == 2 then m << 8 else m
  }

  lemma SixMeets(w: bv32, q: nat, m: bv32)
    requires q < 4 && m & 0x3f == m
    ensures And(SixOf(w, 3 - q), m) == 0 <==> And(w, Raised(m, q)) == 0
  {
    hide And, SixOf;
    SixMeets0(w, m);
    SixMeets1(w, m);
    SixMeets2(w, m);
    SixMeets3(w, m);
  }

  lemma TopRaised(q: nat)
    requires q < 4
    ensures Top(8 * q + 2) == Raised(32, q) && Top(8 * q + 3) == Raised(16, q) && Top(8 * q + 4) == Raised(8, q)
    ensures Top(8 * q + 5) == Raised(4, q) && Top(8 * q + 6) == Raised(2, q) && Top(8 * q + 7) == Raised(1, q)
  {
  }

  lemma SixHas(w: bv32, q: nat)
    requires q < 4
    ensures var v := SixOf(w, 3 - q);
            && (And(v, 32) != 0) == Has(w, 8 * q + 2) && (And(v, 16) != 0) == Has(w, 8 * q + 3)
            && (And(v, 8) != 0) == Has(w, 8 * q + 4) && (And(v, 4) != 0) == Has(w, 8 * q + 5)
            && (And(v, 2) != 0) == Has(w, 8 * q + 6) && (And(v, 1) != 0) == Has(w, 8 * q + 7)
  {
    hide And, SixOf, Top, Raised;
    TopRaised(q);
    SixMeets(w, q, 32);
    SixMeets(w, q, 16);
    SixMeets(w, q, 8);
    SixMeets(w, q, 4);
    SixMeets(w, q, 2);
    SixMeets(w, q, 1);
  }

  lemma TableSpells(g: nat)
    requires g < 8
    ensures Spells(LegendOf(g), Fips.SelectionTable(g))
  {
    hide Spells, LegendOf;
    Box1Spells();
    Box2Spells();
    Box3Spells();
    Box4Spells();
    Box5Spells();
    Box6Spells();
    Box7Spells();
    Box8Spells();
  }

  /** The entry that six bits find in a box of the source, and what it weighs in the standard's. */
  lemma BoxEntry(g: nat, s: Fips.Bits) returns (x: bv4)
    requires g < 8 && |s| == 6
    ensures Box(LegendOf(g).sp, Number(s)) == Spell(LegendOf(g).sp, x)
    ensures Weigh(LegendOf(g), x) == Fips.Select(Fips.SelectionTable(g), s)
  {
    hide LegendOf, Fips.SelectionTable, Spell, Weigh, Row.At, Even, Odd;
    var n := LegendOf(g);
    TableSpells(g);
    var table := Fips.SelectionTable(g);
    var b0, b1, b2 := Fips.One(s[0]), Fips.One(s[1]), Fips.One(s[2]);
    var b3, b4, b5 := Fips.One(s[3]), Fips.One(s[4]), Fips.One(s[5]);
    var p, q := n.sp.rows[2 * b0], n.sp.rows[2 * b0 + 1];
    x := (if b1 == 0 then p else q).At(8 * b2 + 4 * b3 + 2 * b4 + b5);
    SixteenRow(2 * b0 + b1, 8 * b2 + 4 * b3 + 2 * b4 + b5);
    if b5 == 0 {
      EvenAt(n, p, q, table[2 * b0], b1, b2, b3, b4);
    } else {
      OddAt(n, p, q, table[2 * b0 + 1], b1, b2, b3, b4);
    }
  }

  lemma SixteenRow(r: nat, i: nat)
    requires i < 16
    ensures (16 * r + i) / 16 == r && (16 * r + i) % 16 == i
  {
  }

  /** Which box gives the bit that P brings to place `j`. */
  function Group(j: nat): nat { Selected(j) / 4 }

  /** The bit at place `j` when its box is addressed by byte `q` of a word. */
  predicate Contributes(w: bv32, q: nat, j: nat)
    requires q < 4
  {
    Fips.BitOfFour(Fips.Select(Fips.SelectionTable(Group(j)), GroupBits(w, q)), Selected(j) % 4)
  }

  lemma BoxBits(g: nat, w: bv32, q: nat, j: nat)
    requires g < 8 && q < 4 && j < 32
    ensures Has(Box(LegendOf(g).sp, Six(w, 3 - q)), (j + 31) % 32) <==> Group(j) == g && Contributes(w, q, j)
  {
    hide Has, RotR, Box, LegendOf, Six, Selected, Fips.BitOfFour, Fips.Select, Fips.SelectionTable, GroupBits, Weigh;
    SixIsNumber(w, q);
    var x := BoxEntry(g, GroupBits(w, q));
    SpelledIsPermuted(g, x, j);
    RotRHas(Box(LegendOf(g).sp, Six(w, 3 - q)), j);
  }

  lemma GroupSmall(j: nat)
    requires j < 32
    ensures Group(j) < 8
  {
    LetterOfPlace(j);
  }

  lemma OddLookup(w: bv32, j: nat)
    requires j < 32
    ensures Group(j) < 8
    ensures Has(RotR(Lookup(w, SP7, SP5, SP3, SP1)), j) <==> Group(j) % 2 == 0 && Contributes(w, Group(j) / 2, j)
  {
    hide Has, RotR, Box, Six, Mix, Group, Contributes;
    GroupSmall(j);
    BoxBits(0, w, 0, j);
    BoxBits(2, w, 1, j);
    BoxBits(4, w, 2, j);
    BoxBits(6, w, 3, j);
    RotRHas(Lookup(w, SP7, SP5, SP3, SP1), j);
    MixHas(Box(SP7, Six(w, 0)), Box(SP5, Six(w, 1)), Box(SP3, Six(w, 2)), Box(SP1, Six(w, 3)), (j + 31) % 32);
  }

  lemma EvenLookup(w: bv32, j: nat)
    requires j < 32
    ensures Group(j) < 8
    ensures Has(RotR(Lookup(w, SP8, SP6, SP4, SP2)), j) <==> Group(j) % 2 == 1 && Contributes(w, Group(j) / 2, j)
  {
    hide Has, RotR, Box, Six, Mix, Group, Contributes;
    GroupSmall(j);
    BoxBits(1, w, 0, j);
    BoxBits(3, w, 1, j);
    BoxBits(5, w, 2, j);
    BoxBits(7, w, 3, j);
    RotRHas(Lookup(w, SP8, SP6, SP4, SP2), j);
    MixHas(Box(SP8, Six(w, 0)), Box(SP6, Six(w, 1)), Box(SP4, Six(w, 2)), Box(SP2, Six(w, 3)), (j + 31) % 32);
  }

  /** The 48 bits that a round's two key words hold: a group of six in each of their bytes, the groups in turns. */
  function SubkeyBits(k: Subkey): (s: Fips.Bits)
    ensures |s| == 48
  {
    seq(48, (n: nat) => Has(if n / 6 % 2 == 0 then k.odd else k.even, 8 * (n / 12) + 2 + n % 6))
  }

  lemma FourRotations(w: bv32)
    ensures Ror4(w) == RotR(RotR(RotR(RotR(w))))
  {
  }

  lemma Ror4Has(w: bv32, t: nat)
    requires t < 32
    ensures Has(Ror4(w), t) == Has(w, (t + 28) % 32)
  {
    hide Has, RotR, Ror4;
    FourRotations(w);
    RotRHas(RotR(RotR(RotR(w))), t);
    RotRHas(RotR(RotR(w)), (t + 31) % 32);
    RotRHas(RotR(w), (t + 30) % 32);
    RotRHas(w, (t + 29) % 32);
  }

  lemma ExpansionEntry(g: nat, i: nat)
    requires g < 8 && i < 6
    ensures Entry(Fips.E, 6, 6 * g + i) == (4 * g + i + 31) % 32 + 1
  {
    assert (6 * g + i) / 6 == g && (6 * g + i) % 6 == i;
  }

  /** The word in which the source addresses the boxes of group `g`. */
  function Addressing(r: bv32, k: Subkey, g: nat): bv32 {
    if g % 2 == 0 then Xor(Ror4(r), k.odd) else Xor(r, k.even)
  }

  function Expanded(r: bv32, k: Subkey): (s: Fips.Bits)
    ensures |s| == 48
  {
    Fips.Widths();
    Fips.XorBits(Fips.Permute(Fips.E, 6, WordBits(RotR(r))), SubkeyBits(k))
  }

  lemma ExpandedBit(r: bv32, k: Subkey, g: nat, i: nat)
    requires g < 8 && i < 6
    ensures Expanded(r, k)[6 * g + i] == Has(Addressing(r, k, g), 8 * (g / 2) + 2 + i)
  {
    hide Has, RotR, Ror4, Xor, Entry;
    Fips.Widths();
    ExpansionEntry(g, i);
    var n, t := 6 * g + i, 8 * (g / 2) + 2 + i;
    assert n / 6 == g && n % 6 == i && n / 12 == g / 2;
    SelectedBit(r, g, i);
    XorHas(Ror4(r), k.odd, t);
    XorHas(r, k.even, t);
  }

  /** The bit that E puts into the standard's group, in the word that addresses the source's box. */
  lemma SelectedBit(r: bv32, g: nat, i: nat)
    requires g < 8 && i < 6
    ensures Has(RotR(r), (4 * g + i + 31) % 32) == Has(if g % 2 == 0 then Ror4(r) else r, 8 * (g / 2) + 2 + i)
  {
    hide Has, RotR, Ror4;
    RotRHas(r, (4 * g + i + 31) % 32);
    Ror4Has(r, 8 * (g / 2) + 2 + i);
  }

  lemma ExpandedGroup(r: bv32, k: Subkey, g: nat)
    requires g < 8
    ensures Expanded(r, k)[6 * g..6 * g + 6] == GroupBits(Addressing(r, k, g), g / 2)
  {
    hide Has, Addressing, Expanded;
    forall i | 0 <= i < 6
      ensures Expanded(r, k)[6 * g..6 * g + 6][i] == GroupBits(Addressing(r, k, g), g / 2)[i]
    {
      ExpandedBit(r, k, g, i);
    }
  }

  lemma FHas(r: bv32, k: Subkey, j: nat)
    requires j < 32
    ensures Group(j) < 8 && Has(RotR(F(r, k)), j) == Contributes(Addressing(r, k, Group(j)), Group(j) / 2, j)
  {
    hide Has, RotR, Ror4, Xor, Or, Lookup, Group, Contributes;
    var x, y := Xor(Ror4(r), k.odd), Xor(r, k.even);
    var odd, even := Lookup(x, SP7, SP5, SP3, SP1), Lookup(y, SP8, SP6, SP4, SP2);
    OddLookup(x, j);
    EvenLookup(y, j);
    RotRHas(F(r, k), j);
    RotRHas(odd, j);
    RotRHas(even, j);
    OrHas(odd, even, (j + 31) % 32);
  }

  /** The source's round function, rotated back, is the standard's: P after the boxes after E and the key. */
  lemma FIsStandard(r: bv32, k: Subkey)
    ensures WordBits(RotR(F(r, k))) == Fips.F(WordBits(RotR(r)), SubkeyBits(k))
  {
    hide Has, RotR, F, WordBits, SubkeyBits;
    Fips.Widths();
    forall j: nat | j < 32
      ensures Has(RotR(F(r, k)), j) == Fips.F(WordBits(RotR(r)), SubkeyBits(k))[j]
    {
      FBit(r, k, j);
    }
    WordBitsAre(RotR(F(r, k)), Fips.F(WordBits(RotR(r)), SubkeyBits(k)));
  }

  lemma WordBitsAre(w: bv32, s: Fips.Bits)
    requires |s| == 32 && forall j: nat | j < 32 :: Has(w, j) == s[j]
    ensures WordBits(w) == s
  {
    hide Has;
  }

  lemma PermutedByP(s: Fips.Bits, j: nat)
    requires |s| == 32 && j < 32
    ensures |Fips.Permute(Fips.P, 8, s)| == 32 && Selected(j) < 32
    ensures Fips.Permute(Fips.P, 8, s)[j] == s[Selected(j)]
  {
    LetterOfPlace(j);
    Fips.Widths();
    hide Entry;
  }

  lemma FBit(r: bv32, k: Subkey, j: nat)
    requires j < 32
    ensures Has(RotR(F(r, k)), j) == Fips.F(WordBits(RotR(r)), SubkeyBits(k))[j]
  {
    hide Has, RotR, F, Addressing, GroupBits, Selected, Fips.Select, Fips.SelectionTable, Fips.BitOfFour;
    hide Fips.Permute, Fips.XorBits, WordBits, SubkeyBits;
    FHas(r, k, j);
    PermutedByP(Fips.Substitute(Expanded(r, k)), j);
    ExpandedGroup(r, k, Group(j));
  }

  lemma RotRXor(a: bv32, b: bv32)
    ensures RotR(Xor(a, b)) == Xor(RotR(a), RotR(b))
  {
  }

  lemma WordXor(a: bv32, b: bv32)
    ensures WordBits(Xor(a, b)) == Fips.XorBits(WordBits(a), WordBits(b))
  {
    hide Has, Xor;
    forall t | 0 <= t < 32
      ensures WordBits(Xor(a, b))[t] == Fips.XorBits(WordBits(a), WordBits(b))[t]
    {
      XorHas(a, b, t);
    }
  }

  /** The halves of the source, rotated back, as those of the standard. */
  function Standard(h: Halves): (g: Fips.LeftRight)
    ensures |g.l| == |g.r| == 32
  {
    Fips.LeftRight(WordBits(RotR(h.l)), WordBits(RotR(h.r)))
  }

  lemma RoundIsStandard(h: Halves, k: Subkey)
    ensures Standard(Round(h, k)) == Fips.Round(Standard(h), SubkeyBits(k))
  {
    hide RotR, F, Fips.F, Xor, WordBits, SubkeyBits;
    FIsStandard(h.r, k);
    RotRXor(h.l, F(h.r, k));
    WordXor(RotR(h.l), RotR(F(h.r, k)));
  }

  // ---------------------------------------------------------------- the key schedule

  /** The 64-bit key that a password stands for: each byte's bits in the opposite order, zeros filling a short one. */
  function PasswordKey(pw: seq<bv8>): (key: Fips.Bits)
    ensures |key| == 64
  {
    seq(64, (n: nat) => n / 8 < |pw| && Fips.ByteBits(pw[n / 8])[7 - n % 8])
  }

  lemma MirroredBit(b: bv8, m: nat)
    requires m < 8
    ensures Fips.ByteBits(b)[7 - m] == BitOf(b, m)
  {
  }

  lemma KeyBit(pw: seq<bv8>, l: nat)
    requires l < 64
    ensures PasswordKey(pw)[l] == PasswordBit(pw, l)
  {
    hide BitOf, Fips.ByteBits;
    if l / 8 < |pw| {
      MirroredBit(pw[l / 8], l % 8);
    }
  }

  lemma FirstChoiceRow(r: nat, q: nat)
    requires r < 4 && q < 7
    ensures Entry(Fips.PC1, 7, 7 * r + q) == Pc1Table(7 * r + q) + 1
  {
    assert (7 * r + q) / 7 == r && (7 * r + q) % 7 == q;
    if r == 0 {
    } else if r == 1 {
    } else if r == 2 {
    } else {
    }
  }

  lemma FirstChoiceLowerRow(r: nat, q: nat)
    requires 4 <= r < 8 && q < 7
    ensures Entry(Fips.PC1, 7, 7 * r + q) == Pc1Table(7 * r + q) + 1
  {
    assert (7 * r + q) / 7 == r && (7 * r + q) % 7 == q;
    if r == 4 {
    } else if r == 5 {
    } else if r == 6 {
    } else {
    }
  }

  lemma FirstChoiceEntry(j: nat)
    requires j < 56
    ensures Entry(Fips.PC1, 7, j) == Pc1Table(j) + 1
  {
    hide Entry, Pc1Table;
    assert j == 7 * (j / 7) + j % 7;
    if j < 28 {
      FirstChoiceRow(j / 7, j % 7);
    } else {
      FirstChoiceLowerRow(j / 7, j % 7);
    }
  }

  lemma FirstChoice(pw: seq<bv8>)
    ensures Fips.Permute(Fips.PC1, 7, PasswordKey(pw)) == Choice1(pw)
  {
    hide Entry, Pc1, Pc1Table, PasswordKey, PasswordBit;
    Fips.Widths();
    forall j: nat | j < 56
      ensures Fips.Permute(Fips.PC1, 7, PasswordKey(pw))[j] == Choice1(pw)[j]
    {
      FirstChoiceEntry(j);
      Pc1FollowsTable(j);
      KeyBit(pw, Pc1(j));
    }
  }

  /** How far the registers have been rotated after `n` rounds. */
  function Turned(n: nat): nat
    requires n <= 16
  {
    Tables();
    if n == 0 then 0 else TOTROT[n - 1]
  }

  lemma TurnedBy(n: nat)
    requires 0 < n <= 16
    ensures |Fips.SHIFTS| == 16 && Turned(n) == Turned(n - 1) + Fips.SHIFTS[n - 1]
  {
  }

  function Around(j: nat, t: nat): (i: nat)
    ensures i < 28
  {
    (j + t) % 28
  }

  lemma AroundTwice(j: nat, s: nat, t: nat)
    requires j < 28 && 1 <= s <= 2 && t <= 28
    ensures Around(Around(j, s), t) == Around(j, t + s)
  {
  }

  lemma RotatedAt(c: Fips.Bits, s: nat, j: nat)
    requires |c| == 28 && s <= 28 && j < 28
    ensures Fips.RotateLeft(c, s)[j] == c[Around(j, s)]
  {
  }

  /** Register bits after `n` rounds, by their places before the first. */
  ghost predicate TurnedFrom(c: Fips.Bits, c0: Fips.Bits, t: nat)
    requires |c| == |c0| == 28
  {
    forall j: nat | j < 28 :: c[j] == c0[Around(j, t)]
  }

  lemma TurnOnce(c: Fips.Bits, c0: Fips.Bits, s: nat, t: nat)
    requires |c| == |c0| == 28 && TurnedFrom(c, c0, t) && 1 <= s <= 2 && t <= 28
    ensures TurnedFrom(Fips.RotateLeft(c, s), c0, t + s)
  {
    hide Around, Fips.RotateLeft;
    forall j: nat | j < 28
      ensures Fips.RotateLeft(c, s)[j] == c0[Around(j, t + s)]
    {
      RotatedAt(c, s, j);
      AroundTwice(j, s, t);
    }
  }

  lemma TurnedSmall(n: nat)
    requires n <= 16
    ensures Turned(n) <= 28
  {
  }

  lemma RegistersStep(key: Fips.Bits, n: nat)
    requires 0 < n <= 16
    ensures |Fips.SHIFTS| == 16 && 1 <= Fips.SHIFTS[n - 1] <= 2
    ensures var g, h := Fips.KeyRegisters(key, n), Fips.KeyRegisters(key, n - 1);
            g.c == Fips.RotateLeft(h.c, Fips.SHIFTS[n - 1]) && g.d == Fips.RotateLeft(h.d, Fips.SHIFTS[n - 1])
  {
    Fips.Shifts(n - 1);
    hide Fips.RotateLeft, Fips.Permute;
  }

  lemma {:induction false} RegistersTurned(key: Fips.Bits, n: nat)
    requires n <= 16
    ensures var g, h := Fips.KeyRegisters(key, n), Fips.KeyRegisters(key, 0);
            TurnedFrom(g.c, h.c, Turned(n)) && TurnedFrom(g.d, h.d, Turned(n))
  {
    hide Fips.KeyRegisters, Fips.RotateLeft, TurnedFrom, Fips.SHIFTS;
    var h := Fips.KeyRegisters(key, 0);
    if n > 0 {
      hide Turned;
      RegistersStep(key, n);
      TurnedBy(n);
      TurnedSmall(n - 1);
      RegistersTurned(key, n - 1);
      var g := Fips.KeyRegisters(key, n - 1);
      TurnOnce(g.c, h.c, Fips.SHIFTS[n - 1], Turned(n - 1));
      TurnOnce(g.d, h.d, Fips.SHIFTS[n - 1], Turned(n - 1));
    } else {
      NotTurned(h.c);
      NotTurned(h.d);
    }
  }

  lemma NotTurned(c: Fips.Bits)
    requires |c| == 28
    ensures TurnedFrom(c, c, 0)
  {
  }

  lemma RotatedIsTurned(c: Fips.Bits, g: Fips.Registers, i: nat)
    requires |c| == 56 && i < 16 && |g.c| == |g.d| == 28
    requires TurnedFrom(g.c, c[..28], Turned(i + 1)) && TurnedFrom(g.d, c[28..], Turned(i + 1))
    ensures g.c + g.d == Rotated(c, i)
  {
    hide Turned, RotatedIndex, TurnedFrom;
    forall j: nat | j < 56
      ensures (g.c + g.d)[j] == Rotated(c, i)[j]
    {
      TurnedBit(c, g, i, j);
    }
  }

  lemma TurnedBit(c: Fips.Bits, g: Fips.Registers, i: nat, j: nat)
    requires |c| == 56 && i < 16 && |g.c| == |g.d| == 28 && j < 56
    requires TurnedFrom(g.c, c[..28], Turned(i + 1)) && TurnedFrom(g.d, c[28..], Turned(i + 1))
    ensures (g.c + g.d)[j] == c[RotatedIndex(j, i)]
  {
    TurnedSmall(i + 1);
    Tables();
    var t := TOTROT[i];
    assert Turned(i + 1) == t;
    hide Turned;
    if j < 28 {
      assert Around(j, t) == if j + t < 28 then j + t else j + t - 28;
      assert g.c[j] == c[..28][Around(j, t)];
    } else {
      assert Around(j - 28, t) == if j - 28 + t < 28 then j - 28 + t else j - 56 + t;
      assert g.d[j - 28] == c[28..][Around(j - 28, t)];
    }
  }

  lemma FirstRegisters(key: Fips.Bits)
    ensures var h := Fips.KeyRegisters(key, 0); var s := Fips.Permute(Fips.PC1, 7, key);
            |s| == 56 && h.c == s[..28] && h.d == s[28..]
  {
    Fips.Widths();
    hide Fips.Permute;
  }

  /** The registers of the standard after round `i + 1` are the source's rotated bits. */
  lemma RegistersAre(pw: seq<bv8>, i: nat)
    requires i < 16
    ensures Fips.KeyRegisters(PasswordKey(pw), i + 1).c + Fips.KeyRegisters(PasswordKey(pw), i + 1).d
         == Rotated(Choice1(pw), i)
  {
    var key := PasswordKey(pw);
    hide PasswordKey, Choice1, Fips.KeyRegisters, TurnedFrom, Turned, Rotated, Fips.Permute;
    FirstChoice(pw);
    FirstRegisters(key);
    RegistersTurned(key, i + 1);
    RotatedIsTurned(Choice1(pw), Fips.KeyRegisters(key, i + 1), i);
  }

  lemma FirstThirdEntry(j: nat)
    requires j < 16
    ensures Entry(Fips.PC2, 6, j) == Pc2(j) + 1
  {
  }

  lemma SecondThirdEntry(j: nat)
    requires 16 <= j < 32
    ensures Entry(Fips.PC2, 6, j) == Pc2(j) + 1
  {
  }

  lemma LastThirdEntry(j: nat)
    requires 32 <= j < 48
    ensures Entry(Fips.PC2, 6, j) == Pc2(j) + 1
  {
  }

  /** Each key bit of the standard's schedule is the rotated bit that the source's second choice names. */
  lemma ChosenBit(pw: seq<bv8>, i: nat, j: nat)
    requires i < 16 && j < 48
    ensures Fips.RoundKeyBits(PasswordKey(pw), i + 1)[j] == Rotated(Choice1(pw), i)[Pc2(j)]
  {
    hide Entry, Pc2, PasswordKey, Fips.KeyRegisters, Rotated, Choice1;
    Fips.Widths();
    RegistersAre(pw, i);
    if j < 16 {
      FirstThirdEntry(j);
    } else if j < 32 {
      SecondThirdEntry(j);
    } else {
      LastThirdEntry(j);
    }
  }

  lemma {:induction false} PackedBit(b: Fips.Bits, n: nat, t: nat)
    requires n <= |b| == 24 && t < 32
    ensures Has(Pack(b, n), t) <==> 8 <= t < 8 + n && b[t - 8]
  {
    if n == 0 {
      hide Top;
      AndSelf(Top(t));
    } else {
      hide Has, Or, Top, Shl1;
      PackedBit(b, n - 1, t);
      TopIsShifted(7 + n);
      TopHas(7 + n, t);
      OrHas(Pack(b, n - 1), Shl1(24 - n), t);
    }
  }

  // Cooking moves four groups of six bits of the raw words into each key word.

  lemma Cooked0(raw0: bv32, raw1: bv32, m: bv32)
    requires m & 0x3f000000 == m
    ensures And(Cook1(raw0, raw1), m) == 0 <==> And(raw0, m >> 6) == 0
    ensures And(Cook2(raw0, raw1), m) == 0 <==> And(raw0, m >> 12) == 0
  {
  }

  lemma Cooked1(raw0: bv32, raw1: bv32, m: bv32)
    requires m & 0x003f0000 == m
    ensures And(Cook1(raw0, raw1), m) == 0 <==> And(raw0, m >> 10) == 0
    ensures And(Cook2(raw0, raw1), m) == 0 <==> And(raw0, m >> 16) == 0
  {
  }

  lemma Cooked2(raw0: bv32, raw1: bv32, m: bv32)
    requires m & 0x00003f00 == m
    ensures And(Cook1(raw0, raw1), m) == 0 <==> And(raw1, m << 10) == 0
    ensures And(Cook2(raw0, raw1), m) == 0 <==> And(raw1, m << 4) == 0
  {
  }

  lemma Cooked3(raw0: bv32, raw1: bv32, m: bv32)
    requires m & 0x0000003f == m
    ensures And(Cook1(raw0, raw1), m) == 0 <==> And(raw1, m << 6) == 0
    ensures And(Cook2(raw0, raw1), m) == 0 <==> And(raw1, m) == 0
  {
  }

  function OddSource(m: bv32, q: nat): bv32 {
    if q == 0 then m >> 6 else if q == 1 then m >> 10 else if q == 2 then m << 10 else m << 6
  }

  function EvenSource(m: bv32, q: nat): bv32 {
    if q == 0 then m >> 12 else if q == 1 then m >> 16 else if q == 2 then m << 4 else m
  }

  predicate InGroup(m: bv32, q: nat) {
    m & (if q == 0 then 0x3f000000 else if q == 1 then 0x003f0000 else if q == 2 then 0x3f00 else 0x3f) == m
  }

  lemma Cooked(raw0: bv32, raw1: bv32, m: bv32, q: nat)
    requires q < 4 && InGroup(m, q)
    ensures And(Cook1(raw0, raw1), m) == 0 <==> And(if q < 2 then raw0 else raw1, OddSource(m, q)) == 0
    ensures And(Cook2(raw0, raw1), m) == 0 <==> And(if q < 2 then raw0 else raw1, EvenSource(m, q)) == 0
  {
    hide And, Cook1, Cook2;
    if q == 0 {
      Cooked0(raw0, raw1, m);
    } else if q == 1 {
      Cooked1(raw0, raw1, m);
    } else if q == 2 {
      Cooked2(raw0, raw1, m);
    } else {
      Cooked3(raw0, raw1, m);
    }
  }

  lemma TopInGroup(q: nat, i: nat)
    requires q < 4 && i < 6
    ensures InGroup(Top(8 * q + 2 + i), q)
  {
    if q == 0 {
    } else if q == 1 {
    } else if q == 2 {
    } else {
    }
  }

  lemma TopInOdd(q: nat, i: nat)
    requires q < 4 && i < 6
    ensures OddSource(Top(8 * q + 2 + i), q) == Top(8 + 12 * (q % 2) + i)
  {
    if q == 0 {
    } else if q == 1 {
    } else if q == 2 {
    } else {
    }
  }

  lemma TopInEven(q: nat, i: nat)
    requires q < 4 && i < 6
    ensures EvenSource(Top(8 * q + 2 + i), q) == Top(14 + 12 * (q % 2) + i)
  {
    if q == 0 {
    } else if q == 1 {
    } else if q == 2 {
    } else {
    }
  }

  lemma CookedHas(raw0: bv32, raw1: bv32, q: nat, i: nat)
    requires q < 4 && i < 6
    ensures Has(Cook1(raw0, raw1), 8 * q + 2 + i) == Has(if q < 2 then raw0 else raw1, 8 + 12 * (q % 2) + i)
    ensures Has(Cook2(raw0, raw1), 8 * q + 2 + i) == Has(if q < 2 then raw0 else raw1, 14 + 12 * (q % 2) + i)
  {
    hide And, Cook1, Cook2, Top, InGroup, OddSource, EvenSource;
    TopInGroup(q, i);
    TopInOdd(q, i);
    TopInEven(q, i);
    Cooked(raw0, raw1, Top(8 * q + 2 + i), q);
  }

  lemma RawHas(pw: seq<bv8>, i: nat, second: bool, j: nat)
    requires i < 16 && j < 24
    ensures Has(Raw(pw, i, second), 8 + j) == Rotated(Choice1(pw), i)[Pc2(if second then j + 24 else j)]
  {
    hide Has, Rotated, Choice1, Pack, Pc2;
    PackedBit(Choice2(Rotated(Choice1(pw), i), second), 24, 8 + j);
  }

  lemma SubkeyBit(pw: seq<bv8>, i: nat, q: nat, m: nat)
    requires i < 16 && q < 4 && m < 12
    ensures SubkeyBits(RoundKey(pw, i))[12 * q + m] == Rotated(Choice1(pw), i)[Pc2(12 * q + m)]
  {
    hide Has, Raw, Rotated, Choice1, Cook1, Cook2, Pc2;
    var n := 12 * q + m;
    assert n / 12 == q && n / 6 == 2 * q + m / 6 && n % 6 == m % 6;
    var raw0, raw1 := Raw(pw, i, false), Raw(pw, i, true);
    CookedHas(raw0, raw1, q, m % 6);
    RawHas(pw, i, q >= 2, 12 * (q % 2) + m);
  }

  /** Every bit of every round key is the password bit that the standard's schedule names. */
  lemma RoundKeyIsStandard(pw: seq<bv8>, i: nat)
    requires i < 16
    ensures SubkeyBits(RoundKey(pw, i)) == Fips.RoundKeyBits(PasswordKey(pw), i + 1)
  {
    hide RoundKey, SubkeyBits, Fips.RoundKeyBits, PasswordKey, Pc2, Rotated, Choice1;
    forall n: nat | n < 48
      ensures SubkeyBits(RoundKey(pw, i))[n] == Fips.RoundKeyBits(PasswordKey(pw), i + 1)[n]
    {
      SubkeyBit(pw, i, n / 12, n % 12);
      ChosenBit(pw, i, n);
    }
  }

  // ---------------------------------------------------------------- the cipher

  lemma {:induction false} RoundsAreStandard(h: Halves, pw: seq<bv8>, n: nat)
    requires n <= 16
    ensures Standard(Rounds(h, KeySchedule(pw)[..n])) == Fips.Rounds(Standard(h), PasswordKey(pw), n)
  {
    hide RoundKey, Round, Fips.Round, Standard, SubkeyBits, PasswordKey, Fips.RoundKeyBits;
    if n > 0 {
      var ks := KeySchedule(pw);
      assert ks[..n][..n - 1] == ks[..n - 1] && ks[..n][n - 1] == RoundKey(pw, n - 1);
      RoundsAreStandard(h, pw, n - 1);
      RoundIsStandard(Rounds(h, ks[..n - 1]), RoundKey(pw, n - 1));
      RoundKeyIsStandard(pw, n - 1);
    }
  }

  /** The closing permutation undoes IP on the halves exchanged. */
  lemma ClosingIsIpInverse(h: Halves)
    ensures Fips.Permute(Fips.IP_INVERSE, 8, Standard(h).r + Standard(h).l) == HalvesBits(Swap(Closing(h)))
  {
    hide Opening, Closing, RotR, WordBits, HalvesBits, Fips.Permute;
    var c := Swap(Closing(h));
    OpeningUndoesClosing(h);
    OpeningIsIp(c);
    PermuteBack(HalvesBits(c));
  }

  /**
   * What `enc8` computes is the Data Encryption Standard: the bits of the result are those of
   * FIPS 46-3 for the bits of the block, under the key whose bytes are the password's, mirrored.
   */
  lemma EnciphersAsStandard(pw: seq<bv8>, b: Block)
    ensures Fips.BitsOf(EncipherBlock(KeySchedule(pw), b)) == Fips.Cipher(PasswordKey(pw), Fips.BitsOf(b))
  {
    hide FromBlock, ToBlock, Fips.BitsOf, HalvesBits, PasswordKey, KeySchedule;
    var h := FromBlock(b);
    BlockBits(b);
    StandardCipher(pw, h);
    var c := Encipher(KeySchedule(pw), h);
    BlockRoundTrip(b, c);
    BlockBits(ToBlock(c));
  }

  lemma StandardCipher(pw: seq<bv8>, h: Halves)
    ensures HalvesBits(Encipher(KeySchedule(pw), h)) == Fips.Cipher(PasswordKey(pw), HalvesBits(h))
  {
    hide Opening, Closing, Rounds, RotR, WordBits, HalvesBits, PasswordKey, KeySchedule, Fips.Permute, Fips.Rounds;
    var ks := KeySchedule(pw);
    assert ks[..16] == ks;
    var h1 := Opening(h);
    OpeningIsIp(h);
    var s := Fips.Permute(Fips.IP, 8, HalvesBits(h));
    assert s[..32] == Standard(h1).l && s[32..] == Standard(h1).r;
    RoundsAreStandard(h1, pw, 16);
    ClosingIsIpInverse(Rounds(h1, ks));
  }
}
