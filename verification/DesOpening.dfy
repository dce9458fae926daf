/**
 * The bits of the words that des.js computes with: its opening swaps are the standard's initial
 * permutation, but for a rotation of both halves by one place.
 */
module DesOpening {
  import opened Rows
  import opened DesBits
  import opened Des
  import Fips

  // ---------------------------------------------------------------- bits of words

  /** The word with only bit `t` set, counting from the top. */
  function Top(t: nat): bv32 {
    if t == 0 then 0x80000000 else if t == 1 then 0x40000000 else if t == 2 then 0x20000000
    else if t == 3 then 0x10000000 else if t == 4 then 0x08000000 else if t == 5 then 0x04000000
    else if t == 6 then 0x02000000 else if t == 7 then 0x01000000 else if t == 8 then 0x00800000
    else if t == 9 then 0x00400000 else if t == 10 then 0x00200000 else if t == 11 then 0x00100000
    else if t == 12 then 0x00080000 else if t == 13 then 0x00040000 else if t == 14 then 0x00020000
    else if t == 15 then 0x00010000 else if t == 16 then 0x00008000 else if t == 17 then 0x00004000
    else if t == 18 then 0x00002000 else if t == 19 then 0x00001000 else if t == 20 then 0x00000800
    else if t == 21 then 0x00000400 else if t == 22 then 0x00000200 else if t == 23 then 0x00000100
    else if t == 24 then 0x00000080 else if t == 25 then 0x00000040 else if t == 26 then 0x00000020
    else if t == 27 then 0x00000010 else if t == 28 then 0x00000008 else if t == 29 then 0x00000004
    else if t == 30 then 0x00000002 else 1
  }

  function And(w: bv32, m: bv32): bv32 { w & m }

  predicate Has(w: bv32, t: nat) { And(w, Top(t)) != 0 }

  lemma OneBit(w: bv32, t: nat)
    ensures And(w, Top(t)) == 0 || And(w, Top(t)) == Top(t)
    ensures Top(t) != 0
  {
  }

  lemma AndXor(a: bv32, b: bv32, m: bv32)
    ensures And(Xor(a, b), m) == Xor(And(a, m), And(b, m))
  {
    MaskXor(a, b, m);
  }

  lemma MaskXor(a: bv32, b: bv32, m: bv32)
    ensures (a ^ b) & m == (a & m) ^ (b & m)
  {
  }

  lemma XorZero(a: bv32, b: bv32)
    ensures Xor(a, b) == 0 <==> a == b
  {
  }

  lemma XorHas(a: bv32, b: bv32, t: nat)
    ensures Has(Xor(a, b), t) == (Has(a, t) != Has(b, t))
  {
    hide Top, Xor, And;
    OneBit(a, t);
    OneBit(b, t);
    AndXor(a, b, Top(t));
    XorZero(And(a, Top(t)), And(b, Top(t)));
  }

  lemma AndOr(a: bv32, b: bv32, m: bv32)
    ensures And(Or(a, b), m) == Or(And(a, m), And(b, m))
  {
    MaskOr(a, b, m);
  }

  lemma MaskOr(a: bv32, b: bv32, m: bv32)
    ensures (a | b) & m == (a & m) | (b & m)
  {
  }

  lemma OrIsZero(a: bv32, b: bv32)
    ensures Or(a, b) == 0 <==> a == 0 && b == 0
  {
  }

  lemma OrHas(a: bv32, b: bv32, t: nat)
    ensures Has(Or(a, b), t) == (Has(a, t) || Has(b, t))
  {
    hide Top, And, Or;
    AndOr(a, b, Top(t));
    OrIsZero(And(a, Top(t)), And(b, Top(t)));
  }

  // ---------------------------------------------------------------- the opening permutation

  function Shr4(w: bv32): bv32 { w >> 4 }
  function Shl4(w: bv32): bv32 { w << 4 }

  lemma Lower4(l: bv32, r: bv32, m: bv32)
    requires And(m, 0x0f0f0f0f) == m
    ensures And(Xor(r, Differ4(l, r)), m) == And(Shr4(l), m)
    ensures And(Up4(l, Differ4(l, r)), m) == And(l, m)
  {
  }

  lemma Upper4(l: bv32, r: bv32, m: bv32)
    requires And(m, 0x0f0f0f0f) == 0
    ensures And(Xor(r, Differ4(l, r)), m) == And(r, m)
    ensures And(Up4(l, Differ4(l, r)), m) == And(Shl4(r), m)
  {
  }

  lemma Masked4(t: nat)
    requires t < 32
    ensures And(Top(t), 0x0f0f0f0f) == if t % 8 >= 4 then Top(t) else 0
  {
  }

  lemma Top4(t: nat)
    requires t < 32 && t % 8 >= 4
    ensures Shl4(Top(t)) == Top(t - 4) && Shr4(Top(t - 4)) == Top(t)
  {
    if t < 8 {
    } else if t < 16 {
    } else if t < 24 {
    } else {
    }
  }

  lemma Meets4(w: bv32, m: bv32)
    ensures Shr4(Shl4(m)) == m ==> (And(Shr4(w), m) == 0 <==> And(w, Shl4(m)) == 0)
    ensures Shl4(Shr4(m)) == m ==> (And(Shl4(w), m) == 0 <==> And(w, Shr4(m)) == 0)
  {
  }

  lemma Exchange4Bits(h: Halves, t: nat)
    requires t < 32
    ensures Has(Exchange4(h).l, t) == if t % 8 >= 4 then Has(h.l, t) else Has(h.r, t + 4)
    ensures Has(Exchange4(h).r, t) == if t % 8 >= 4 then Has(h.l, t - 4) else Has(h.r, t)
  {
    hide Top, And, Differ4, Up4, Xor, Shr4, Shl4;
    Masked4(t);
    if t % 8 >= 4 {
      Lower4(h.l, h.r, Top(t));
      Top4(t);
      Meets4(h.l, Top(t));
    } else {
      Upper4(h.l, h.r, Top(t));
      Top4(t + 4);
      Meets4(h.r, Top(t));
    }
  }

  function Shr16(w: bv32): bv32 { w >> 16 }
  function Shl16(w: bv32): bv32 { w << 16 }

  lemma Lower16(l: bv32, r: bv32, m: bv32)
    requires And(m, 0x0000ffff) == m
    ensures And(Xor(r, Differ16(l, r)), m) == And(Shr16(l), m)
    ensures And(Up16(l, Differ16(l, r)), m) == And(l, m)
  {
  }

  lemma Upper16(l: bv32, r: bv32, m: bv32)
    requires And(m, 0x0000ffff) == 0
    ensures And(Xor(r, Differ16(l, r)), m) == And(r, m)
    ensures And(Up16(l, Differ16(l, r)), m) == And(Shl16(r), m)
  {
  }

  lemma Masked16(t: nat)
    requires t < 32
    ensures And(Top(t), 0x0000ffff) == if t % 32 >= 16 then Top(t) else 0
  {
  }

  lemma Top16(t: nat)
    requires t < 32 && t % 32 >= 16
    ensures Shl16(Top(t)) == Top(t - 16) && Shr16(Top(t - 16)) == Top(t)
  {
    if t < 8 {
    } else if t < 16 {
    } else if t < 24 {
    } else {
    }
  }

  lemma Meets16(w: bv32, m: bv32)
    ensures Shr16(Shl16(m)) == m ==> (And(Shr16(w), m) == 0 <==> And(w, Shl16(m)) == 0)
    ensures Shl16(Shr16(m)) == m ==> (And(Shl16(w), m) == 0 <==> And(w, Shr16(m)) == 0)
  {
  }

  lemma Exchange16Bits(h: Halves, t: nat)
    requires t < 32
    ensures Has(Exchange16(h).l, t) == if t % 32 >= 16 then Has(h.l, t) else Has(h.r, t + 16)
    ensures Has(Exchange16(h).r, t) == if t % 32 >= 16 then Has(h.l, t - 16) else Has(h.r, t)
  {
    hide Top, And, Differ16, Up16, Xor, Shr16, Shl16;
    Masked16(t);
    if t % 32 >= 16 {
      Lower16(h.l, h.r, Top(t));
      Top16(t);
      Meets16(h.l, Top(t));
    } else {
      Upper16(h.l, h.r, Top(t));
      Top16(t + 16);
      Meets16(h.r, Top(t));
    }
  }

  function Shr2(w: bv32): bv32 { w >> 2 }
  function Shl2(w: bv32): bv32 { w << 2 }

  lemma Lower2(l: bv32, r: bv32, m: bv32)
    requires And(m, 0x33333333) == m
    ensures And(Xor(r, Differ2(l, r)), m) == And(Shr2(l), m)
    ensures And(Up2(l, Differ2(l, r)), m) == And(l, m)
  {
  }

  lemma Upper2(l: bv32, r: bv32, m: bv32)
    requires And(m, 0x33333333) == 0
    ensures And(Xor(r, Differ2(l, r)), m) == And(r, m)
    ensures And(Up2(l, Differ2(l, r)), m) == And(Shl2(r), m)
  {
  }

  lemma Masked2(t: nat)
    requires t < 32
    ensures And(Top(t), 0x33333333) == if t % 4 >= 2 then Top(t) else 0
  {
  }

  lemma Top2(t: nat)
    requires t < 32 && t % 4 >= 2
    ensures Shl2(Top(t)) == Top(t - 2) && Shr2(Top(t - 2)) == Top(t)
  {
    if t < 8 {
    } else if t < 16 {
    } else if t < 24 {
    } else {
    }
  }

  lemma Meets2(w: bv32, m: bv32)
    ensures Shr2(Shl2(m)) == m ==> (And(Shr2(w), m) == 0 <==> And(w, Shl2(m)) == 0)
    ensures Shl2(Shr2(m)) == m ==> (And(Shl2(w), m) == 0 <==> And(w, Shr2(m)) == 0)
  {
  }

  lemma Exchange2Bits(h: Halves, t: nat)
    requires t < 32
    ensures Has(Exchange2(h).l, t) == if t % 4 >= 2 then Has(h.l, t) else Has(h.r, t + 2)
    ensures Has(Exchange2(h).r, t) == if t % 4 >= 2 then Has(h.l, t - 2) else Has(h.r, t)
  {
    hide Top, And, Differ2, Up2, Xor, Shr2, Shl2;
    Masked2(t);
    if t % 4 >= 2 {
      Lower2(h.l, h.r, Top(t));
      Top2(t);
      Meets2(h.l, Top(t));
    } else {
      Upper2(h.l, h.r, Top(t));
      Top2(t + 2);
      Meets2(h.r, Top(t));
    }
  }

  function Shr8(w: bv32): bv32 { w >> 8 }
  function Shl8(w: bv32): bv32 { w << 8 }

  lemma Lower8(l: bv32, r: bv32, m: bv32)
    requires And(m, 0x00ff00ff) == m
    ensures And(Xor(r, Differ8(l, r)), m) == And(Shr8(l), m)
    ensures And(Up8(l, Differ8(l, r)), m) == And(l, m)
  {
  }

  lemma Upper8(l: bv32, r: bv32, m: bv32)
    requires And(m, 0x00ff00ff) == 0
    ensures And(Xor(r, Differ8(l, r)), m) == And(r, m)
    ensures And(Up8(l, Differ8(l, r)), m) == And(Shl8(r), m)
  {
  }

  lemma Masked8(t: nat)
    requires t < 32
    ensures And(Top(t), 0x00ff00ff) == if t % 16 >= 8 then Top(t) else 0
  {
  }

  lemma Top8(t: nat)
    requires t < 32 && t % 16 >= 8
    ensures Shl8(Top(t)) == Top(t - 8) && Shr8(Top(t - 8)) == Top(t)
  {
    if t < 8 {
    } else if t < 16 {
    } else if t < 24 {
    } else {
    }
  }

  lemma Meets8(w: bv32, m: bv32)
    ensures Shr8(Shl8(m)) == m ==> (And(Shr8(w), m) == 0 <==> And(w, Shl8(m)) == 0)
    ensures Shl8(Shr8(m)) == m ==> (And(Shl8(w), m) == 0 <==> And(w, Shr8(m)) == 0)
  {
  }

  lemma Exchange8Bits(h: Halves, t: nat)
    requires t < 32
    ensures Has(Exchange8(h).l, t) == if t % 16 >= 8 then Has(h.l, t) else Has(h.r, t + 8)
    ensures Has(Exchange8(h).r, t) == if t % 16 >= 8 then Has(h.l, t - 8) else Has(h.r, t)
  {
    hide Top, And, Differ8, Up8, Xor, Shr8, Shl8;
    Masked8(t);
    if t % 16 >= 8 {
      Lower8(h.l, h.r, Top(t));
      Top8(t);
      Meets8(h.l, Top(t));
    } else {
      Upper8(h.l, h.r, Top(t));
      Top8(t + 8);
      Meets8(h.r, Top(t));
    }
  }

  lemma LowerA(l: bv32, r: bv32, m: bv32)
    requires And(m, 0xaaaaaaaa) == m
    ensures And(UpA(l, DifferA(l, r)), m) == And(r, m) && And(Xor(r, DifferA(l, r)), m) == And(l, m)
  {
  }

  lemma UpperA(l: bv32, r: bv32, m: bv32)
    requires And(m, 0xaaaaaaaa) == 0
    ensures And(UpA(l, DifferA(l, r)), m) == And(l, m) && And(Xor(r, DifferA(l, r)), m) == And(r, m)
  {
  }

  lemma MaskedA(t: nat)
    requires t < 32
    ensures And(Top(t), 0xaaaaaaaa) == if t % 2 == 0 then Top(t) else 0
  {
  }

  lemma ExchangeABits(h: Halves, t: nat)
    requires t < 32
    ensures Has(ExchangeA(h).l, t) == Has(if t % 2 == 0 then h.r else h.l, t)
    ensures Has(ExchangeA(h).r, t) == Has(if t % 2 == 0 then h.l else h.r, t)
  {
    hide Top, And, DifferA, UpA, Xor;
    MaskedA(t);
    if t % 2 == 0 {
      LowerA(h.l, h.r, Top(t));
    } else {
      UpperA(h.l, h.r, Top(t));
    }
  }

  lemma UpperTopRotated(t: nat)
    requires t < 16
    ensures RotR(Top(t)) == Top(t + 1)
  {
    if t < 8 {
    } else {
    }
  }

  lemma LowerTopRotated(t: nat)
    requires 16 <= t < 32
    ensures RotR(Top(t)) == if t == 31 then Top(0) else Top(t + 1)
  {
    if t < 24 {
    } else {
    }
  }

  lemma TopRotated(t: nat)
    requires t < 32
    ensures RotR(Top(t)) == Top((t + 1) % 32)
  {
    hide Top, RotR;
    if t < 16 {
      UpperTopRotated(t);
    } else {
      LowerTopRotated(t);
    }
  }

  lemma MeetsRotated(w: bv32, m: bv32)
    ensures And(RotL(w), m) == 0 <==> And(w, RotR(m)) == 0
  {
  }

  lemma RotLHas(w: bv32, t: nat)
    requires t < 32
    ensures Has(RotL(w), t) == Has(w, (t + 1) % 32)
  {
    hide Top, And, RotL, RotR;
    TopRotated(t);
    MeetsRotated(w, Top(t));
  }

  lemma RotRHas(w: bv32, t: nat)
    requires t < 32
    ensures Has(RotR(w), t) == Has(w, (t + 31) % 32)
  {
    hide Has, RotL, RotR;
    RotationsUndo(w);
    RotLHas(RotR(w), (t + 31) % 32);
  }

  // The exchanges move digits of a bit's position: which half it is in, and the five binary
  // digits of its place there.

  type Digit = n: nat | n < 2

  function Place(a: Digit, b: Digit, c: Digit, d: Digit, e: Digit): (t: nat)
    ensures t < 32
  {
    16 * a + 8 * b + 4 * c + 2 * d + e
  }

  lemma Digits(a: Digit, b: Digit, c: Digit, d: Digit, e: Digit)
    ensures var t := Place(a, b, c, d, e);
            && (t % 32 >= 16 <==> a == 1) && (t % 16 >= 8 <==> b == 1) && (t % 8 >= 4 <==> c == 1)
            && (t % 4 >= 2 <==> d == 1) && t % 2 == e && t / 8 == 2 * a + b && t % 8 == 4 * c + 2 * d + e
  {
    var r3, r2, r1 := 8 * b + 4 * c + 2 * d + e, 4 * c + 2 * d + e, 2 * d + e;
    Low16(a, r3);
    Low8(2 * a + b, r2);
    Low4(4 * a + 2 * b + c, r1);
    Low2(8 * a + 4 * b + 2 * c + d, e);
  }

  lemma Low16(q: nat, r: nat) requires r < 16 ensures (16 * q + r) % 16 == r {}
  lemma Low8(q: nat, r: nat) requires r < 8 ensures (8 * q + r) % 8 == r && (8 * q + r) / 8 == q {}
  lemma Low4(q: nat, r: nat) requires r < 4 ensures (4 * q + r) % 4 == r {}
  lemma Low2(q: nat, r: nat) requires r < 2 ensures (2 * q + r) % 2 == r {}

  function Half(h: Halves, right: bool): bv32 { if right then h.r else h.l }

  function First(h: Halves): Halves { Exchange16(Exchange4(h)) }
  function Second(h: Halves): Halves { Swap(Exchange8(Exchange2(Swap(h)))) }

  lemma Exchange4Digits(h: Halves, a: Digit, b: Digit, c: Digit, d: Digit, e: Digit)
    ensures Has(Exchange4(h).l, Place(a, b, c, d, e)) == Has(Half(h, c == 0), Place(a, b, 1, d, e))
    ensures Has(Exchange4(h).r, Place(a, b, c, d, e)) == Has(Half(h, c == 0), Place(a, b, 0, d, e))
  {
    hide Has, Exchange4;
    assert Place(a, b, 1, d, e) == Place(a, b, 0, d, e) + 4;
    Digits(a, b, c, d, e);
    hide Place;
    Exchange4Bits(h, Place(a, b, c, d, e));
  }

  lemma Exchange16Digits(h: Halves, a: Digit, b: Digit, c: Digit, d: Digit, e: Digit)
    ensures Has(Exchange16(h).l, Place(a, b, c, d, e)) == Has(Half(h, a == 0), Place(1, b, c, d, e))
    ensures Has(Exchange16(h).r, Place(a, b, c, d, e)) == Has(Half(h, a == 0), Place(0, b, c, d, e))
  {
    hide Has, Exchange16;
    assert Place(1, b, c, d, e) == Place(0, b, c, d, e) + 16;
    Digits(a, b, c, d, e);
    hide Place;
    Exchange16Bits(h, Place(a, b, c, d, e));
  }

  lemma Exchange2Digits(h: Halves, a: Digit, b: Digit, c: Digit, d: Digit, e: Digit)
    ensures Has(Exchange2(h).l, Place(a, b, c, d, e)) == Has(Half(h, d == 0), Place(a, b, c, 1, e))
    ensures Has(Exchange2(h).r, Place(a, b, c, d, e)) == Has(Half(h, d == 0), Place(a, b, c, 0, e))
  {
    hide Has, Exchange2;
    assert Place(a, b, c, 1, e) == Place(a, b, c, 0, e) + 2;
    Digits(a, b, c, d, e);
    hide Place;
    Exchange2Bits(h, Place(a, b, c, d, e));
  }

  lemma Exchange8Digits(h: Halves, a: Digit, b: Digit, c: Digit, d: Digit, e: Digit)
    ensures Has(Exchange8(h).l, Place(a, b, c, d, e)) == Has(Half(h, b == 0), Place(a, 1, c, d, e))
    ensures Has(Exchange8(h).r, Place(a, b, c, d, e)) == Has(Half(h, b == 0), Place(a, 0, c, d, e))
  {
    hide Has, Exchange8;
    assert Place(a, 1, c, d, e) == Place(a, 0, c, d, e) + 8;
    Digits(a, b, c, d, e);
    hide Place;
    Exchange8Bits(h, Place(a, b, c, d, e));
  }

  lemma FirstBits(h: Halves, a: Digit, b: Digit, c: Digit, d: Digit, e: Digit)
    ensures Has(First(h).l, Place(a, b, c, d, e)) == Has(Half(h, c == 0), Place(1, b, a, d, e))
    ensures Has(First(h).r, Place(a, b, c, d, e)) == Has(Half(h, c == 0), Place(0, b, a, d, e))
  {
    hide Has, Exchange4, Exchange16, Place;
    Exchange16Digits(Exchange4(h), a, b, c, d, e);
    Exchange4Digits(h, 1, b, c, d, e);
    Exchange4Digits(h, 0, b, c, d, e);
  }

  lemma SecondBits(h: Halves, a: Digit, b: Digit, c: Digit, d: Digit, e: Digit)
    ensures Has(Second(h).r, Place(a, b, c, d, e)) == Has(Half(h, d == 1), Place(a, 1, c, b, e))
    ensures Has(Second(h).l, Place(a, b, c, d, e)) == Has(Half(h, d == 1), Place(a, 0, c, b, e))
  {
    hide Has, Exchange2, Exchange8, Place;
    Exchange8Digits(Exchange2(Swap(h)), a, b, c, d, e);
    Exchange2Digits(Swap(h), a, 1, c, d, e);
    Exchange2Digits(Swap(h), a, 0, c, d, e);
  }

  lemma TwiceMoved(h: Halves, a: Digit, b: Digit, c: Digit, d: Digit, e: Digit)
    ensures Has(Second(First(h)).r, Place(a, b, c, d, e)) == Has(Half(h, c == 0), Place(1 - d, 1, a, b, e))
    ensures Has(Second(First(h)).l, Place(a, b, c, d, e)) == Has(Half(h, c == 0), Place(1 - d, 0, a, b, e))
  {
    hide Has, First, Second, Place;
    SecondBits(First(h), a, b, c, d, e);
    FirstBits(h, a, 1, c, b, e);
    FirstBits(h, a, 0, c, b, e);
  }

  lemma ThirdBits(h: Halves, t: nat)
    requires t < 32
    ensures Has(RotR(Opening(h).l), t)
         == var g := Second(First(h)); if t % 2 == 0 then Has(g.r, t + 1) else Has(g.l, t)
    ensures Has(RotR(Opening(h).r), t)
         == var g := Second(First(h)); if t % 2 == 0 then Has(g.r, t) else Has(g.l, t - 1)
  {
    hide Has, RotL, RotR, Exchange2, Exchange4, Exchange8, Exchange16, ExchangeA;
    var g := Second(First(h));
    var p := Halves(g.l, RotL(g.r));
    var q := ExchangeA(p);
    assert Opening(h) == Halves(RotL(q.l), q.r);
    RotationsUndo(q.l);
    ExchangeABits(p, t);
    RotLHas(g.r, t);
    RotRHas(q.r, t);
    var u := (t + 31) % 32;
    ExchangeABits(p, u);
    RotLHas(g.r, u);
  }

  /** The opening permutation, its rotations taken back, moves the bits as the standard's IP does. */
  lemma OpeningBits(h: Halves, a: Digit, b: Digit, c: Digit, d: Digit, e: Digit)
    ensures Has(RotR(Opening(h).l), Place(a, b, c, d, e)) == Has(Half(h, c == 0), Place(1 - d, 1 - e, a, b, 1))
    ensures Has(RotR(Opening(h).r), Place(a, b, c, d, e)) == Has(Half(h, c == 0), Place(1 - d, 1 - e, a, b, 0))
  {
    hide Has, RotR, Opening, First, Second;
    ThirdBits(h, Place(a, b, c, d, e));
    TwiceMoved(h, a, b, c, d, 0);
    TwiceMoved(h, a, b, c, d, 1);
    Digits(a, b, c, d, e);
  }

  // ---------------------------------------------------------------- bytes, words and halves as bits

  function WordBits(w: bv32): (s: Fips.Bits)
    ensures |s| == 32
  {
    seq(32, (t: nat) => Has(w, t))
  }

  function HalvesBits(h: Halves): (s: Fips.Bits)
    ensures |s| == 64
  {
    WordBits(h.l) + WordBits(h.r)
  }

  function ByteMask(p: nat): bv8 {
    if p == 0 then 0x80 else if p == 1 then 0x40 else if p == 2 then 0x20 else if p == 3 then 0x10
    else if p == 4 then 8 else if p == 5 then 4 else if p == 6 then 2 else 1
  }

  predicate ByteMeets(v: bv8, m: bv8) { v & m != 0 }

  /** A byte as byte `q` of a word, from the top. */
  function Lift(m: bv8, q: nat): bv32 {
    if q == 0 then m as bv32 << 24 else if q == 1 then m as bv32 << 16
    else if q == 2 then m as bv32 << 8 else m as bv32
  }

  lemma ByteHas(v: bv8, p: nat)
    requires p < 8
    ensures Fips.ByteBits(v)[p] == ByteMeets(v, ByteMask(p))
  {
  }

  lemma WordMeets0(b0: bv8, b1: bv8, b2: bv8, b3: bv8, m: bv8)
    ensures And(Word(b0, b1, b2, b3), m as bv32 << 24) == 0 <==> b0 & m == 0
  {
  }

  lemma WordMeets1(b0: bv8, b1: bv8, b2: bv8, b3: bv8, m: bv8)
    ensures And(Word(b0, b1, b2, b3), m as bv32 << 16) == 0 <==> b1 & m == 0
  {
  }

  lemma WordMeets2(b0: bv8, b1: bv8, b2: bv8, b3: bv8, m: bv8)
    ensures And(Word(b0, b1, b2, b3), m as bv32 << 8) == 0 <==> b2 & m == 0
  {
  }

  lemma WordMeets3(b0: bv8, b1: bv8, b2: bv8, b3: bv8, m: bv8)
    ensures And(Word(b0, b1, b2, b3), m as bv32) == 0 <==> b3 & m == 0
  {
  }

  lemma WordMeets(b0: bv8, b1: bv8, b2: bv8, b3: bv8, m: bv8, q: nat)
    requires q < 4
    ensures And(Word(b0, b1, b2, b3), Lift(m, q)) != 0
       <==> ByteMeets(if q == 0 then b0 else if q == 1 then b1 else if q == 2 then b2 else b3, m)
  {
    hide And, Word;
    if q == 0 {
      WordMeets0(b0, b1, b2, b3, m);
    } else if q == 1 {
      WordMeets1(b0, b1, b2, b3, m);
    } else if q == 2 {
      WordMeets2(b0, b1, b2, b3, m);
    } else {
      WordMeets3(b0, b1, b2, b3, m);
    }
  }

  lemma TopOfByte(q: nat, p: nat)
    requires q < 4 && p < 8
    ensures Top(8 * q + p) == Lift(ByteMask(p), q)
  {
    if q == 0 {
    } else if q == 1 {
    } else if q == 2 {
    } else {
    }
  }

  lemma WordHas(b: Block, q: nat, p: nat)
    requires q < 4 && p < 8
    ensures Has(FromBlock(b).l, 8 * q + p) == Fips.ByteBits(b[q])[p]
    ensures Has(FromBlock(b).r, 8 * q + p) == Fips.ByteBits(b[4 + q])[p]
  {
    hide Word, And, Top, ByteMask, ByteMeets, Lift, Fips.ByteBits;
    TopOfByte(q, p);
    ByteHas(b[q], p);
    ByteHas(b[4 + q], p);
    WordMeets(b[0], b[1], b[2], b[3], ByteMask(p), q);
    WordMeets(b[4], b[5], b[6], b[7], ByteMask(p), q);
  }

  lemma BlockBits(b: Block)
    ensures Fips.BitsOf(b) == HalvesBits(FromBlock(b))
  {
    hide Has, FromBlock, Fips.ByteBits;
    forall i | 0 <= i < 64
      ensures Fips.BitsOf(b)[i] == HalvesBits(FromBlock(b))[i]
    {
      WordHas(b, i / 8 % 4, i % 8);
    }
  }

  // ---------------------------------------------------------------- IP and its inverse

  lemma IpEntry(k: nat)
    requires k < 64
    ensures Entry(Fips.IP, 8, k) == if k < 32 then 58 + 2 * (k / 8) - 8 * (k % 8) else 49 + 2 * (k / 8) - 8 * (k % 8)
  {
  }

  lemma IpInverseEntry(k: nat)
    requires k < 64
    ensures Entry(Fips.IP_INVERSE, 8, k) == (if k % 2 == 0 then 40 else 8) + 8 * (k % 8 / 2) - k / 8
  {
    if k < 32 {
    } else {
    }
  }

  lemma InverseOfIp(k: nat)
    requires k < 64
    ensures 1 <= Entry(Fips.IP_INVERSE, 8, k) <= 64
    ensures Entry(Fips.IP, 8, Entry(Fips.IP_INVERSE, 8, k) - 1) == k + 1
  {
    hide Entry;
    IpInverseEntry(k);
    var q, c := k / 8, k % 8;
    var m := (if c % 2 == 0 then 4 else 0) + c / 2;
    assert k % 2 == c % 2;
    var n := Entry(Fips.IP_INVERSE, 8, k) - 1;
    assert n == 8 * m + (7 - q);
    Low8(m, 7 - q);
    IpEntry(n);
  }

  lemma PermuteBack(s: Fips.Bits)
    requires |s| == 64
    ensures Fips.Permute(Fips.IP_INVERSE, 8, Fips.Permute(Fips.IP, 8, s)) == s
  {
    Fips.Widths();
    hide Entry;
    forall k: nat | k < 64
      ensures Fips.Permute(Fips.IP_INVERSE, 8, Fips.Permute(Fips.IP, 8, s))[k] == s[k]
    {
      InverseOfIp(k);
    }
  }

  /** The opening permutation is IP: its words, rotated back, are the two halves. */
  lemma OpeningIsIp(h: Halves)
    ensures Fips.Permute(Fips.IP, 8, HalvesBits(h)) == WordBits(RotR(Opening(h).l)) + WordBits(RotR(Opening(h).r))
  {
    Fips.Widths();
    hide Entry, Has, RotR, Opening;
    forall k: nat | k < 64
      ensures Fips.Permute(Fips.IP, 8, HalvesBits(h))[k]
           == (WordBits(RotR(Opening(h).l)) + WordBits(RotR(Opening(h).r)))[k]
    {
      PermutedBit(h, k);
    }
  }

  lemma PermutedBit(h: Halves, k: nat)
    requires k < 64
    ensures Fips.BitNumber(HalvesBits(h), Entry(Fips.IP, 8, k))
         == Has(RotR(if k < 32 then Opening(h).l else Opening(h).r), k % 32)
  {
    hide Entry, Has, RotR, Opening, HalvesBits, Place, Fips.BitNumber;
    var t := k % 32;
    DigitsOf(t);
    PermutedDigits(h, k >= 32, t / 16, t / 8 % 2, t / 4 % 2, t / 2 % 2, t % 2);
  }

  lemma PermutedDigits(h: Halves, right: bool, a: Digit, b: Digit, c: Digit, d: Digit, e: Digit)
    ensures Fips.BitNumber(HalvesBits(h), Entry(Fips.IP, 8, Place(a, b, c, d, e) + if right then 32 else 0))
         == Has(RotR(if right then Opening(h).r else Opening(h).l), Place(a, b, c, d, e))
  {
    hide Entry, Has, RotR, Opening, HalvesBits;
    IpDigits(right, a, b, c, d, e);
    OpeningBits(h, a, b, c, d, e);
    IpPlace(h, c == 0, 1 - d, 1 - e, a, b, if right then 0 else 1);
  }

  /** The entry of IP at a place, by the digits of the place. */
  lemma IpDigits(right: bool, a: Digit, b: Digit, c: Digit, d: Digit, e: Digit)
    ensures Entry(Fips.IP, 8, Place(a, b, c, d, e) + if right then 32 else 0)
         == 1 + (if c == 0 then 32 else 0) + 16 * (1 - d) + 8 * (1 - e) + 4 * a + 2 * b + (if right then 0 else 1)
  {
    hide Entry;
    Low8((if right then 4 else 0) + 2 * a + b, 4 * c + 2 * d + e);
    IpEntry(Place(a, b, c, d, e) + if right then 32 else 0);
  }

  lemma DigitsOf(t: nat)
    requires t < 32
    ensures Place(t / 16, t / 8 % 2, t / 4 % 2, t / 2 % 2, t % 2) == t
  {
    Halved(t, 2);
    Halved(t, 4);
    Halved(t, 8);
    assert t == 2 * (t / 2) + t % 2;
  }

  lemma Halved(t: nat, m: nat)
    requires m == 2 || m == 4 || m == 8
    ensures t / m == 2 * (t / (2 * m)) + t / m % 2
  {
    if m == 2 {
    } else if m == 4 {
    } else {
    }
  }

  lemma IpPlace(h: Halves, right: bool, a: Digit, b: Digit, c: Digit, d: Digit, e: Digit)
    ensures var n := (if right then 32 else 0) + 16 * a + 8 * b + 4 * c + 2 * d + e;
            n < 64 && HalvesBits(h)[n] == Has(Half(h, right), Place(a, b, c, d, e))
  {
    hide Has;
  }
}
