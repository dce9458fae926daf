/**
 * Bit-vector facts behind DES: the swap steps of the opening and closing permutations undo
 * each other, and complementing both halves complements what they produce.
 */
module DesBits {

  datatype Halves = Halves(l: bv32, r: bv32)

  function Swap(h: Halves): Halves { Halves(h.r, h.l) }
  function Not(h: Halves): Halves { Halves(Flip(h.l), Flip(h.r)) }

  function Xor(a: bv32, b: bv32): bv32 { a ^ b }
  function Flip(a: bv32): bv32 { !a }

  // One exchange of bits between the halves for each mask: `Differ` finds the bits to be
  // flipped on both sides, `Up` flips the shifted ones.
  function Differ4(l: bv32, r: bv32): bv32 { ((l >> 4) ^ r) & 0x0f0f0f0f }
  function Up4(l: bv32, x: bv32): bv32 { l ^ (x << 4) }
  function Exchange4(h: Halves): Halves {
    var x := Differ4(h.l, h.r);
    Halves(Up4(h.l, x), Xor(h.r, x))
  }

  function Differ16(l: bv32, r: bv32): bv32 { ((l >> 16) ^ r) & 0x0000ffff }
  function Up16(l: bv32, x: bv32): bv32 { l ^ (x << 16) }
  function Exchange16(h: Halves): Halves {
    var x := Differ16(h.l, h.r);
    Halves(Up16(h.l, x), Xor(h.r, x))
  }

  function Differ2(l: bv32, r: bv32): bv32 { ((l >> 2) ^ r) & 0x33333333 }
  function Up2(l: bv32, x: bv32): bv32 { l ^ (x << 2) }
  function Exchange2(h: Halves): Halves {
    var x := Differ2(h.l, h.r);
    Halves(Up2(h.l, x), Xor(h.r, x))
  }

  function Differ8(l: bv32, r: bv32): bv32 { ((l >> 8) ^ r) & 0x00ff00ff }
  function Up8(l: bv32, x: bv32): bv32 { l ^ (x << 8) }
  function Exchange8(h: Halves): Halves {
    var x := Differ8(h.l, h.r);
    Halves(Up8(h.l, x), Xor(h.r, x))
  }

  function DifferA(l: bv32, r: bv32): bv32 { (l ^ r) & 0xaaaaaaaa }
  function UpA(l: bv32, x: bv32): bv32 { l ^ x }
  function ExchangeA(h: Halves): Halves {
    var x := DifferA(h.l, h.r);
    Halves(UpA(h.l, x), Xor(h.r, x))
  }

  function RotL(w: bv32): bv32 { (w << 1) | ((w >> 31) & 1) }
  function RotR(w: bv32): bv32 { (w << 31) | (w >> 1) }

  /** The opening permutation. */
  function Opening(h: Halves): Halves {
    var h1 := Exchange16(Exchange4(h));
    var h2 := Swap(Exchange8(Exchange2(Swap(h1))));
    var h3 := ExchangeA(Halves(h2.l, RotL(h2.r)));
    Halves(RotL(h3.l), h3.r)
  }

  /** The closing permutation. */
  function Closing(h: Halves): Halves {
    var h1 := ExchangeA(Halves(h.l, RotR(h.r)));
    var h2 := Exchange2(Exchange8(Halves(RotR(h1.l), h1.r)));
    Swap(Exchange4(Exchange16(Swap(h2))))
  }

  lemma XorTwice(a: bv32, x: bv32)
    ensures Xor(Xor(a, x), x) == a && Xor(Flip(a), x) == Flip(Xor(a, x))
  {
  }

  lemma Differ4Again(l: bv32, r: bv32, x: bv32)
    requires x == Differ4(l, r)
    ensures Differ4(Up4(l, x), Xor(r, x)) == x
  {
  }

  lemma Up4Twice(l: bv32, x: bv32)
    ensures Up4(Up4(l, x), x) == l
  {
  }

  lemma Differ4Flipped(l: bv32, r: bv32)
    ensures Differ4(Flip(l), Flip(r)) == Differ4(l, r)
  {
  }

  lemma Up4Flipped(l: bv32, x: bv32)
    ensures Up4(Flip(l), x) == Flip(Up4(l, x))
  {
  }

  lemma Exchange4Undo(h: Halves)
    ensures Exchange4(Exchange4(h)) == h
    ensures Exchange4(Not(h)) == Not(Exchange4(h))
  {
    hide Differ4, Up4, Xor, Flip;
    Differ4Again(h.l, h.r, Differ4(h.l, h.r));
    Up4Twice(h.l, Differ4(h.l, h.r));
    Differ4Flipped(h.l, h.r);
    Up4Flipped(h.l, Differ4(h.l, h.r));
    XorTwice(h.r, Differ4(h.l, h.r));
  }

  lemma Differ16Again(l: bv32, r: bv32, x: bv32)
    requires x == Differ16(l, r)
    ensures Differ16(Up16(l, x), Xor(r, x)) == x
  {
  }

  lemma Up16Twice(l: bv32, x: bv32)
    ensures Up16(Up16(l, x), x) == l
  {
  }

  lemma Differ16Flipped(l: bv32, r: bv32)
    ensures Differ16(Flip(l), Flip(r)) == Differ16(l, r)
  {
  }

  lemma Up16Flipped(l: bv32, x: bv32)
    ensures Up16(Flip(l), x) == Flip(Up16(l, x))
  {
  }

  lemma Exchange16Undo(h: Halves)
    ensures Exchange16(Exchange16(h)) == h
    ensures Exchange16(Not(h)) == Not(Exchange16(h))
  {
    hide Differ16, Up16, Xor, Flip;
    Differ16Again(h.l, h.r, Differ16(h.l, h.r));
    Up16Twice(h.l, Differ16(h.l, h.r));
    Differ16Flipped(h.l, h.r);
    Up16Flipped(h.l, Differ16(h.l, h.r));
    XorTwice(h.r, Differ16(h.l, h.r));
  }

  lemma Differ2Again(l: bv32, r: bv32, x: bv32)
    requires x == Differ2(l, r)
    ensures Differ2(Up2(l, x), Xor(r, x)) == x
  {
  }

  lemma Up2Twice(l: bv32, x: bv32)
    ensures Up2(Up2(l, x), x) == l
  {
  }

  lemma Differ2Flipped(l: bv32, r: bv32)
    ensures Differ2(Flip(l), Flip(r)) == Differ2(l, r)
  {
  }

  lemma Up2Flipped(l: bv32, x: bv32)
    ensures Up2(Flip(l), x) == Flip(Up2(l, x))
  {
  }

  lemma Exchange2Undo(h: Halves)
    ensures Exchange2(Exchange2(h)) == h
    ensures Exchange2(Not(h)) == Not(Exchange2(h))
  {
    hide Differ2, Up2, Xor, Flip;
    Differ2Again(h.l, h.r, Differ2(h.l, h.r));
    Up2Twice(h.l, Differ2(h.l, h.r));
    Differ2Flipped(h.l, h.r);
    Up2Flipped(h.l, Differ2(h.l, h.r));
    XorTwice(h.r, Differ2(h.l, h.r));
  }

  lemma Differ8Again(l: bv32, r: bv32, x: bv32)
    requires x == Differ8(l, r)
    ensures Differ8(Up8(l, x), Xor(r, x)) == x
  {
  }

  lemma Up8Twice(l: bv32, x: bv32)
    ensures Up8(Up8(l, x), x) == l
  {
  }

  lemma Differ8Flipped(l: bv32, r: bv32)
    ensures Differ8(Flip(l), Flip(r)) == Differ8(l, r)
  {
  }

  lemma Up8Flipped(l: bv32, x: bv32)
    ensures Up8(Flip(l), x) == Flip(Up8(l, x))
  {
  }

  lemma Exchange8Undo(h: Halves)
    ensures Exchange8(Exchange8(h)) == h
    ensures Exchange8(Not(h)) == Not(Exchange8(h))
  {
    hide Differ8, Up8, Xor, Flip;
    Differ8Again(h.l, h.r, Differ8(h.l, h.r));
    Up8Twice(h.l, Differ8(h.l, h.r));
    Differ8Flipped(h.l, h.r);
    Up8Flipped(h.l, Differ8(h.l, h.r));
    XorTwice(h.r, Differ8(h.l, h.r));
  }

  lemma DifferAAgain(l: bv32, r: bv32, x: bv32)
    requires x == DifferA(l, r)
    ensures DifferA(UpA(l, x), Xor(r, x)) == x
  {
  }

  lemma UpATwice(l: bv32, x: bv32)
    ensures UpA(UpA(l, x), x) == l
  {
  }

  lemma DifferAFlipped(l: bv32, r: bv32)
    ensures DifferA(Flip(l), Flip(r)) == DifferA(l, r)
  {
  }

  lemma UpAFlipped(l: bv32, x: bv32)
    ensures UpA(Flip(l), x) == Flip(UpA(l, x))
  {
  }

  lemma Symmetric(l: bv32, r: bv32)
    ensures DifferA(r, l) == DifferA(l, r)
    ensures UpA(l, DifferA(l, r)) == Xor(l, DifferA(l, r)) && UpA(r, DifferA(l, r)) == Xor(r, DifferA(l, r))
  {
  }

  lemma ExchangeAUndo(h: Halves)
    ensures ExchangeA(ExchangeA(h)) == h
    ensures ExchangeA(Not(h)) == Not(ExchangeA(h))
    ensures ExchangeA(Swap(h)) == Swap(ExchangeA(h))
  {
    hide DifferA, UpA, Xor, Flip;
    Symmetric(h.l, h.r);
    DifferAAgain(h.l, h.r, DifferA(h.l, h.r));
    UpATwice(h.l, DifferA(h.l, h.r));
    DifferAFlipped(h.l, h.r);
    UpAFlipped(h.l, DifferA(h.l, h.r));
    XorTwice(h.r, DifferA(h.l, h.r));
  }

  lemma ExchangesUndo(h: Halves)
    ensures Exchange4(Exchange4(h)) == h
    ensures Exchange16(Exchange16(h)) == h
    ensures Exchange2(Exchange2(h)) == h
    ensures Exchange8(Exchange8(h)) == h
    ensures ExchangeA(ExchangeA(h)) == h
    ensures ExchangeA(Swap(h)) == Swap(ExchangeA(h))
  {
    hide *;
    Exchange4Undo(h);
    Exchange16Undo(h);
    Exchange2Undo(h);
    Exchange8Undo(h);
    ExchangeAUndo(h);
  }

  lemma RotationsUndo(w: bv32)
    ensures RotL(RotR(w)) == w && RotR(RotL(w)) == w
  {
  }

  lemma ExchangesComplement(h: Halves)
    ensures Exchange4(Not(h)) == Not(Exchange4(h))
    ensures Exchange16(Not(h)) == Not(Exchange16(h))
    ensures Exchange2(Not(h)) == Not(Exchange2(h))
    ensures Exchange8(Not(h)) == Not(Exchange8(h))
    ensures ExchangeA(Not(h)) == Not(ExchangeA(h))
  {
    hide *;
    Exchange4Undo(h);
    Exchange16Undo(h);
    Exchange2Undo(h);
    Exchange8Undo(h);
    ExchangeAUndo(h);
  }

  lemma RotationsComplement(w: bv32)
    ensures RotL(Flip(w)) == Flip(RotL(w)) && RotR(Flip(w)) == Flip(RotR(w))
  {
  }

  /** The closing network inverts the opening one with the halves exchanged. */
  lemma ClosingUndoesOpening(h: Halves)
    ensures Closing(Swap(Opening(h))) == Swap(h)
  {
    hide Exchange4, Exchange16, Exchange2, Exchange8, ExchangeA, RotL, RotR, Flip;
    var a := Exchange4(h);
    var h1 := Exchange16(a);
    var b := Exchange2(Swap(h1));
    var c := Exchange8(b);
    var h2 := Swap(c);
    var p := Halves(h2.l, RotL(h2.r));
    var h3 := ExchangeA(p);
    assert Opening(h) == Halves(RotL(h3.l), h3.r);
    RotationsUndo(h3.l);
    RotationsUndo(h2.r);
    ExchangesUndo(p);
    ExchangesUndo(h3);
    ExchangesUndo(b);
    ExchangesUndo(Swap(h1));
    ExchangesUndo(a);
    ExchangesUndo(h);
  }

  lemma OpeningUndoesClosing(h: Halves)
    ensures Opening(Swap(Closing(h))) == Swap(h)
  {
    hide Exchange4, Exchange16, Exchange2, Exchange8, ExchangeA, RotL, RotR, Flip;
    var p := Halves(h.l, RotR(h.r));
    var h1 := ExchangeA(p);
    var a := Halves(RotR(h1.l), h1.r);
    var b := Exchange8(a);
    var h2 := Exchange2(b);
    var c := Exchange16(Swap(h2));
    var d := Exchange4(c);
    assert Closing(h) == Swap(d);
    ExchangesUndo(c);
    ExchangesUndo(Swap(h2));
    ExchangesUndo(b);
    ExchangesUndo(a);
    ExchangesUndo(h1);
    ExchangesUndo(p);
    RotationsUndo(h1.l);
    RotationsUndo(h.r);
  }

  lemma OpeningComplements(h: Halves)
    ensures Opening(Not(h)) == Not(Opening(h))
  {
    hide Exchange4, Exchange16, Exchange2, Exchange8, ExchangeA, RotL, RotR, Flip;
    ExchangesComplement(h);
    var a := Exchange4(h);
    ExchangesComplement(a);
    var h1 := Exchange16(a);
    ExchangesComplement(Swap(h1));
    var b := Exchange2(Swap(h1));
    ExchangesComplement(b);
    var h2 := Swap(Exchange8(b));
    RotationsComplement(h2.r);
    ExchangesComplement(Halves(h2.l, RotL(h2.r)));
    var h3 := ExchangeA(Halves(h2.l, RotL(h2.r)));
    RotationsComplement(h3.l);
  }

  lemma ClosingComplements(h: Halves)
    ensures Closing(Not(h)) == Not(Closing(h))
  {
    hide Exchange4, Exchange16, Exchange2, Exchange8, ExchangeA, RotL, RotR, Flip;
    RotationsComplement(h.r);
    var p := Halves(h.l, RotR(h.r));
    ExchangesComplement(p);
    var h1 := ExchangeA(p);
    RotationsComplement(h1.l);
    var a := Halves(RotR(h1.l), h1.r);
    ExchangesComplement(a);
    var b := Exchange8(a);
    ExchangesComplement(b);
    var h2 := Exchange2(b);
    ExchangesComplement(Swap(h2));
    var c := Exchange16(Swap(h2));
    ExchangesComplement(c);
  }

  // Setting bits that are known to be clear.

  function Or(a: bv32, b: bv32): bv32 { a | b }
  function Twice(a: bv32): bv32 { a << 1 }

  ghost predicate Apart(a: bv32, b: bv32) { a & b == 0 }

  lemma ShiftBoth(a: bv32, b: bv32)
    ensures Apart(a, b) ==> Apart(Twice(a), Twice(b))
    ensures Apart(Twice(a), 1)
  {
  }

  lemma OrApart(p: bv32, s: bv32, t: bv32)
    requires Apart(p, t) && Apart(s, t)
    ensures Apart(Or(p, s), t)
  {
  }

  lemma ZeroApart(t: bv32)
    ensures Apart(0, t)
  {
  }

  lemma ClearOr(p: bv32, t: bv32)
    requires p & t == 0
    ensures p | t == p ^ t
  {
  }

  lemma ApartOrIsXor(p: bv32, t: bv32)
    requires Apart(p, t)
    ensures Or(p, t) == Xor(p, t)
  {
    ClearOr(p, t);
  }

  lemma ClearXor(p: bv32, m: bv32, t: bv32)
    requires p & t == 0 && m & t == 0
    ensures (p ^ m) & t == 0
  {
  }

  lemma XorApart(p: bv32, m: bv32, t: bv32)
    requires Apart(p, t) && Apart(m, t)
    ensures Apart(Xor(p, m), t)
  {
    ClearXor(p, m, t);
  }

  lemma XorRegroup(a: bv32, b: bv32, c: bv32)
    ensures Xor(Xor(a, b), c) == Xor(a, Xor(b, c))
  {
  }

  lemma XorCommutes(a: bv32, b: bv32)
    ensures Xor(a, b) == Xor(b, a)
  {
  }

  lemma SetBoth(p: bv32, m: bv32, t: bv32)
    requires Apart(p, t) && Apart(m, t)
    ensures Xor(Or(p, t), Or(m, t)) == Xor(p, m)
  {
    hide *;
    ApartOrIsXor(p, t);
    ApartOrIsXor(m, t);
    XorRegroup(p, t, Xor(m, t));
    XorCommutes(t, Xor(m, t));
    XorTwice(m, t);
  }

  lemma SetAfter(p: bv32, m: bv32, t: bv32)
    requires Apart(p, t) && Apart(m, t)
    ensures Or(Xor(p, m), t) == Xor(p, Or(m, t))
  {
    hide *;
    XorApart(p, m, t);
    ApartOrIsXor(Xor(p, m), t);
    ApartOrIsXor(m, t);
    XorRegroup(p, m, t);
  }

  lemma OrZero(a: bv32)
    ensures Or(a, 0) == a && Or(0, a) == a
  {
  }

  lemma OrAssociates(a: bv32, b: bv32, c: bv32)
    ensures Or(Or(a, b), c) == Or(a, Or(b, c))
  {
  }

  lemma TwiceOr(a: bv32, b: bv32)
    ensures Or(Twice(Or(a, b)), 1) == Or(Twice(a), Or(Twice(b), 1))
  {
  }
}
