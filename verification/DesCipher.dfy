/**
 * The DES object of des.js, with its loops, and the ECB and CBC ciphers over it. The methods
 * are proved equal to the functions of module Des; then decryption, which the source does not
 * contain, is proved to recover every plaintext, so both ciphers are injective.
 */
module DesCipher {
  import opened DesBits
  import opened DesTables
  import opened Des

  /** The round keys that a list of words holds, two words each. */
  function Subkeys(keys: seq<bv32>): (ks: seq<Subkey>)
    ensures |ks| == |keys| / 2
  {
    seq(|keys| / 2, (i: nat) requires i < |keys| / 2 => Subkey(keys[2 * i], keys[2 * i + 1]))
  }

  class DES {
    var keys: seq<bv32>

    ghost predicate Valid()
      reads this
    {
      |keys| == 32
    }

    constructor (password: seq<bv8>)
      ensures Valid() && Subkeys(keys) == KeySchedule(password)
    {
      new;
      var pc1m := ChooseBits(password);
      var kn := RawKeys(pc1m);
      keys := CookKeys(kn);
      SubkeysAre(keys, kn, password);
    }

    // The three loops of the key schedule.

    static method ChooseBits(password: seq<bv8>) returns (pc1m: seq<bool>)
      ensures pc1m == Choice1(password)
    {
      pc1m := [];
      var j, l := 0, 56;
      while j < 56
        invariant 0 <= j <= 56 && |pc1m| == j
        invariant l == if j == 0 then 56 else Pc1(j - 1) - 8
        invariant pc1m == Choice1(password)[..j]
      {
        l := Adjust(l);
        pc1m := pc1m + [PasswordBit(password, l)];
        j, l := j + 1, l - 8;
      }
    }

    static method Rotate(pc1m: seq<bool>, i: nat) returns (pcr: seq<bool>)
      requires |pc1m| == 56 && i < 16
      ensures pcr == Rotated(pc1m, i)
    {
      Tables();
      pcr := seq(56, _ => false);
      var o := 28;
      while o < 59
        invariant o in {28, 56, 84} && |pcr| == 56
        invariant pcr[..o - 28] == Rotated(pc1m, i)[..o - 28]
        decreases 84 - o
      {
        var j := o - 28;
        while j < o
          invariant o - 28 <= j <= o && |pcr| == 56
          invariant pcr[..j] == Rotated(pc1m, i)[..j]
        {
          var l := j + TOTROT[i];
          pcr := pcr[j := if l < o then pc1m[l] else pc1m[l - 28]];
          assert pcr[..j + 1] == pcr[..j] + [pcr[j]];
          assert Rotated(pc1m, i)[..j + 1] == Rotated(pc1m, i)[..j] + [Rotated(pc1m, i)[j]];
          j := j + 1;
        }
        o := o + 28;
      }
    }

    static method PackKeys(pcr: seq<bool>) returns (km: bv32, kn: bv32)
      requires |pcr| == 56
      ensures km == Pack(Choice2(pcr, false), 24) && kn == Pack(Choice2(pcr, true), 24)
    {
      Tables();
      km, kn := 0, 0;
      PackStep(pcr, false, 0);
      PackStep(pcr, true, 0);
      hide Choice2, Pack, Shl1, Or;
      var j := 0;
      while j < 24
        invariant 0 <= j <= 24
        invariant km == Pack(Choice2(pcr, false), j) && kn == Pack(Choice2(pcr, true), j)
      {
        PackStep(pcr, false, j);
        PackStep(pcr, true, j);
        if pcr[Pc2(j)] {
          km := Or(km, Shl1(23 - j));
        }
        if pcr[Pc2(j + 24)] {
          kn := Or(kn, Shl1(23 - j));
        }
        j := j + 1;
      }
    }

    static method RawKeys(pc1m: seq<bool>) returns (kn: seq<bv32>)
      requires |pc1m| == 56
      ensures |kn| == 32
      ensures forall i | 0 <= i < 16 ::
                kn[2 * i] == RawOf(pc1m, i, false) && kn[2 * i + 1] == RawOf(pc1m, i, true)
    {
      hide Rotated, Choice2, Pack;
      kn := [];
      var i := 0;
      while i < 16
        invariant 0 <= i <= 16 && |kn| == 2 * i
        invariant forall k | 0 <= k < i ::
                    kn[2 * k] == RawOf(pc1m, k, false) && kn[2 * k + 1] == RawOf(pc1m, k, true)
      {
        var pcr := Rotate(pc1m, i);
        var a, b := PackKeys(pcr);
        kn := kn + [a, b];
        i := i + 1;
      }
    }

    static method CookKeys(kn: seq<bv32>) returns (keys: seq<bv32>)
      requires |kn| == 32
      ensures |keys| == 32
      ensures forall i | 0 <= i < 16 ::
                keys[2 * i] == Cook1(kn[2 * i], kn[2 * i + 1]) && keys[2 * i + 1] == Cook2(kn[2 * i], kn[2 * i + 1])
    {
      hide Cook1, Cook2;
      keys := [];
      var i := 0;
      while i < 16
        invariant 0 <= i <= 16 && |keys| == 2 * i
        invariant forall k | 0 <= k < i ::
                    keys[2 * k] == Cook1(kn[2 * k], kn[2 * k + 1]) && keys[2 * k + 1] == Cook2(kn[2 * k], kn[2 * k + 1])
      {
        var raw0, raw1 := kn[2 * i], kn[2 * i + 1];
        keys := keys + [Cook1(raw0, raw1), Cook2(raw0, raw1)];
        i := i + 1;
      }
    }

    // Encryption of one block.

    static method Open(l0: bv32, r0: bv32) returns (l: bv32, r: bv32)
      ensures Halves(l, r) == Opening(Halves(l0, r0))
    {
      hide Differ4, Up4, Differ16, Up16, Differ2, Up2, Differ8, Up8, DifferA, UpA, Xor, RotL;
      l, r := l0, r0;
      var x := Differ4(l, r);
      r := Xor(r, x);
      l := Up4(l, x);
      x := Differ16(l, r);
      r := Xor(r, x);
      l := Up16(l, x);
      x := Differ2(r, l);
      l := Xor(l, x);
      r := Up2(r, x);
      x := Differ8(r, l);
      l := Xor(l, x);
      r := Up8(r, x);
      r := RotL(r);
      x := DifferA(l, r);
      l := UpA(l, x);
      r := Xor(r, x);
      l := RotL(l);
    }

    static method Close(l0: bv32, r0: bv32) returns (l: bv32, r: bv32)
      ensures Halves(l, r) == Closing(Halves(l0, r0))
    {
      hide Differ4, Up4, Differ16, Up16, Differ2, Up2, Differ8, Up8, DifferA, UpA, Xor, RotR;
      l, r := l0, RotR(r0);
      var x := DifferA(l, r);
      l := UpA(l, x);
      r := Xor(r, x);
      l := RotR(l);
      x := Differ8(l, r);
      r := Xor(r, x);
      l := Up8(l, x);
      x := Differ2(l, r);
      r := Xor(r, x);
      l := Up2(l, x);
      x := Differ16(r, l);
      l := Xor(l, x);
      r := Up16(r, x);
      x := Differ4(r, l);
      l := Xor(l, x);
      r := Up4(r, x);
    }

    /** One round's `fval`, folded in two halves of four boxes. */
    method Feistel(r: bv32, keysi: nat, ghost k: nat) returns (fval: bv32)
      requires Valid() && keysi == 2 * k < 32
      ensures fval == F(r, Subkeys(keys)[k])
    {
      hide Xor, Or, Lookup, Ror4;
      var x := Ror4(r);
      x := Xor(x, keys[keysi]);
      fval := Lookup(x, SP7, SP5, SP3, SP1);
      x := Xor(r, keys[keysi + 1]);
      fval := Or(fval, Lookup(x, SP8, SP6, SP4, SP2));
    }

    /** One pass of the loop: two rounds, each writing one half. */
    method DoubleRound(l0: bv32, r0: bv32, keysi: nat, ghost k: nat) returns (l: bv32, r: bv32)
      requires Valid() && keysi == 2 * k < 30
      ensures Halves(l, r) == Round(Round(Halves(l0, r0), Subkeys(keys)[k]), Subkeys(keys)[k + 1])
    {
      hide Xor, F, Subkeys;
      l, r := l0, r0;
      var fval := Feistel(r, keysi, k);
      l := Xor(l, fval);
      fval := Feistel(l, keysi + 2, k + 1);
      r := Xor(r, fval);
    }

    method AllRounds(l0: bv32, r0: bv32) returns (l: bv32, r: bv32)
      requires Valid()
      ensures Halves(l, r) == Rounds(Halves(l0, r0), Subkeys(keys))
    {
      l, r := l0, r0;
      ghost var h := Halves(l0, r0);
      ghost var ks := Subkeys(keys);
      hide Round, Rounds, Subkeys;
      FirstAndLast(h, ks);
      var i, keysi := 0, 0;
      while i < 8
        invariant 0 <= i <= 8 && keysi == 4 * i
        invariant Halves(l, r) == Rounds(h, ks[..2 * i])
      {
        TwoRounds(h, ks, 2 * i);
        l, r := DoubleRound(l, r, keysi, 2 * i);
        i, keysi := i + 1, keysi + 4;
      }
    }

    /** The source's `enc8` is the DES permutation under the object's round keys. */
    method Enc8(text: Block) returns (b: Block)
      requires Valid()
      ensures b == EncipherBlock(Subkeys(keys), text)
    {
      hide Opening, Closing, Rounds, Subkeys, Word, ByteOf;
      b := text;
      var l, r := Word(b[0], b[1], b[2], b[3]), Word(b[4], b[5], b[6], b[7]);
      l, r := Open(l, r);
      l, r := AllRounds(l, r);
      l, r := Close(l, r);
      b := Spread(r, l, b);
    }

    static method Spread(x0: bv32, x1: bv32, text: Block) returns (b: Block)
      ensures b == ToBlock(Halves(x0, x1))
    {
      hide ByteOf;
      b := text;
      var i := 0;
      while i < 8
        invariant 0 <= i <= 8
        invariant b[..i] == ToBlock(Halves(x0, x1))[..i]
      {
        var next := b[i := ByteOf(if i < 4 then x0 else x1, i % 4)];
        assert next[i] == ToBlock(Halves(x0, x1))[i];
        assert next[..i + 1] == b[..i] + [next[i]];
        b := next;
        i := i + 1;
      }
      assert b[..8] == b && ToBlock(Halves(x0, x1))[..8] == ToBlock(Halves(x0, x1));
    }
  }

  function RawOf(pc1m: seq<bool>, i: nat, second: bool): bv32
    requires |pc1m| == 56 && i < 16
  {
    Pack(Choice2(Rotated(pc1m, i), second), 24)
  }

  lemma PackStep(pcr: seq<bool>, second: bool, j: nat)
    requires |pcr| == 56 && j < 24
    ensures Pack(Choice2(pcr, second), 0) == 0
    ensures Pack(Choice2(pcr, second), j + 1)
         == var p := Pack(Choice2(pcr, second), j);
            if pcr[Pc2(if second then j + 24 else j)] then Or(p, Shl1(23 - j)) else p
  {
    hide Shl1, Or;
    Tables();
  }

  lemma SubkeysAre(keys: seq<bv32>, kn: seq<bv32>, pw: seq<bv8>)
    requires |keys| == |kn| == 32
    requires forall i | 0 <= i < 16 ::
               kn[2 * i] == RawOf(Choice1(pw), i, false) && kn[2 * i + 1] == RawOf(Choice1(pw), i, true)
    requires forall i | 0 <= i < 16 ::
               keys[2 * i] == Cook1(kn[2 * i], kn[2 * i + 1]) && keys[2 * i + 1] == Cook2(kn[2 * i], kn[2 * i + 1])
    ensures Subkeys(keys) == KeySchedule(pw)
  {
    hide Choice1, Choice2, Rotated, Pack, Cook1, Cook2;
    forall i: nat | i < 16
      ensures Subkeys(keys)[i] == KeySchedule(pw)[i]
    {
      assert KeySchedule(pw)[i] == RoundKey(pw, i);
    }
  }

  lemma FirstAndLast(h: Halves, ks: seq<Subkey>)
    ensures Rounds(h, ks[..0]) == h && Rounds(h, ks[..|ks|]) == Rounds(h, ks)
  {
    assert ks[..|ks|] == ks;
  }

  lemma TwoRounds(h: Halves, ks: seq<Subkey>, i: nat)
    requires i + 1 < |ks|
    ensures Rounds(h, ks[..i + 2]) == Round(Round(Rounds(h, ks[..i]), ks[i]), ks[i + 1])
  {
    assert ks[..i + 2][..i + 1] == ks[..i + 1] && ks[..i + 1][..i] == ks[..i];
    hide Round;
  }

  // ---------------------------------------------------------------- modes

  type Blocks = s: seq<bv8> | |s| % 8 == 0

  function Front(p: Blocks): Blocks
    requires p != []
  {
    p[..|p| - 8]
  }

  function Last(p: Blocks): Block
    requires p != []
  {
    p[|p| - 8..]
  }

  function Ecb(ks: seq<Subkey>, p: Blocks): (c: Blocks)
    ensures |c| == |p|
    decreases |p|
  {
    if p == [] then [] else Ecb(ks, Front(p)) + EncipherBlock(ks, Last(p))
  }

  function XorByte(a: bv8, b: bv8): bv8 { a ^ b }

  function XorBlocks(a: Block, b: Block): Block {
    seq(8, (i: nat) requires i < 8 => XorByte(a[i], b[i]))
  }

  /** What the next block is chained to. */
  function Chained(iv: Block, c: Blocks): Block {
    if c == [] then iv else Last(c)
  }

  function Cbc(ks: seq<Subkey>, iv: Block, p: Blocks): (c: Blocks)
    ensures |c| == |p|
    decreases |p|
  {
    if p == [] then [] else
      var c := Cbc(ks, iv, Front(p));
      c + EncipherBlock(ks, XorBlocks(Chained(iv, c), Last(p)))
  }

  /** Decryption of CBC, block by block. */
  function CbcDecipher(ks: seq<Subkey>, iv: Block, c: Blocks): (p: Blocks)
    ensures |p| == |c|
    decreases |c|
  {
    if c == [] then [] else
      CbcDecipher(ks, iv, Front(c)) + XorBlocks(Chained(iv, Front(c)), EncipherBlock(Reverse(ks), Last(c)))
  }

  lemma FrontAndLast(c: Blocks, b: Block)
    ensures Front(c + b) == c && Last(c + b) == b
  {
  }

  /** Running ECB with the round keys reversed recovers the plaintext. */
  lemma {:induction false} EcbInverts(ks: seq<Subkey>, p: Blocks)
    ensures Ecb(Reverse(ks), Ecb(ks, p)) == p
    decreases |p|
  {
    hide EncipherBlock, Reverse, Front, Last;
    if p != [] {
      Rejoin(p);
      EcbInverts(ks, Front(p));
      EncipherBlockInverts(ks, Last(p));
      FrontAndLast(Ecb(ks, Front(p)), EncipherBlock(ks, Last(p)));
    }
  }

  lemma Rejoin(p: Blocks)
    requires p != []
    ensures p == Front(p) + Last(p) && |Front(p)| < |p|
  {
  }

  lemma XorByteTwice(a: bv8, b: bv8)
    ensures XorByte(a, XorByte(a, b)) == b
  {
  }

  lemma XorBlocksTwice(a: Block, b: Block)
    ensures XorBlocks(a, XorBlocks(a, b)) == b
  {
    hide XorByte;
    forall i | 0 <= i < 8
      ensures XorBlocks(a, XorBlocks(a, b))[i] == b[i]
    {
      XorByteTwice(a[i], b[i]);
    }
  }

  lemma {:induction false} CbcInverts(ks: seq<Subkey>, iv: Block, p: Blocks)
    ensures CbcDecipher(ks, iv, Cbc(ks, iv, p)) == p
    decreases |p|
  {
    hide EncipherBlock, Reverse, Front, Last, Chained, XorBlocks;
    if p != [] {
      Rejoin(p);
      var c := Cbc(ks, iv, Front(p));
      CbcInverts(ks, iv, Front(p));
      var chain := Chained(iv, c);
      EncipherBlockInverts(ks, XorBlocks(chain, Last(p)));
      XorBlocksTwice(chain, Last(p));
      FrontAndLast(c, EncipherBlock(ks, XorBlocks(chain, Last(p))));
    }
  }

  /** Neither mode sends two plaintexts to one ciphertext. */
  lemma ModesAreInjective(ks: seq<Subkey>, iv: Block, p: Blocks, q: Blocks)
    ensures Ecb(ks, p) == Ecb(ks, q) <==> p == q
    ensures Cbc(ks, iv, p) == Cbc(ks, iv, q) <==> p == q
  {
    hide Ecb, Cbc, CbcDecipher, Reverse;
    EcbInverts(ks, p);
    EcbInverts(ks, q);
    CbcInverts(ks, iv, p);
    CbcInverts(ks, iv, q);
  }

  lemma BlockOfParts(c: Blocks, e: Block, k: nat)
    requires 8 * k + 8 <= |c| + 8
    ensures BlockAt(c + e, k) == if 8 * k == |c| then e else BlockAt(c, k)
  {
    if 8 * k < |c| {
      assert 8 * k + 8 <= |c|;
    }
  }

  lemma LastIsBlock(p: Blocks, k: nat)
    requires |p| == 8 * k + 8
    ensures Last(p) == BlockAt(p, k)
  {
  }

  lemma FrontBlock(p: Blocks, k: nat)
    requires 8 * k + 16 <= |p|
    ensures |Front(p)| >= 8 * k + 8 && BlockAt(Front(p), k) == BlockAt(p, k)
  {
  }

  /** ECB enciphers each block by itself. */
  lemma {:induction false} EcbBlock(ks: seq<Subkey>, p: Blocks, k: nat)
    requires 8 * k + 8 <= |p|
    ensures BlockAt(Ecb(ks, p), k) == EncipherBlock(ks, BlockAt(p, k))
    decreases |p|
  {
    hide EncipherBlock, BlockAt, Last;
    BlockOfParts(Ecb(ks, Front(p)), EncipherBlock(ks, Last(p)), k);
    if 8 * k + 8 < |p| {
      FrontBlock(p, k);
      EcbBlock(ks, Front(p), k);
    } else {
      LastIsBlock(p, k);
    }
  }

  /** The exclusive or of two blocks, byte by byte. */
  predicate IsXor(x: Block, a: Block, b: Block) { forall i | 0 <= i < 8 :: x[i] == a[i] ^ b[i] }

  lemma XorIs(a: Block, b: Block)
    ensures IsXor(XorBlocks(a, b), a, b)
  {
  }

  lemma CbcUnfolds(ks: seq<Subkey>, iv: Block, p: Blocks)
    requires p != []
    ensures var c := Cbc(ks, iv, Front(p));
            Cbc(ks, iv, p) == c + EncipherBlock(ks, XorBlocks(Chained(iv, c), Last(p)))
  {
    hide EncipherBlock, XorBlocks, Chained, Last;
  }

  /** The blocks of the front stay as they are. */
  lemma CbcFront(ks: seq<Subkey>, iv: Block, p: Blocks, k: nat)
    requires 8 * k + 16 <= |p|
    ensures BlockAt(Cbc(ks, iv, p), k) == BlockAt(Cbc(ks, iv, Front(p)), k)
  {
    CbcUnfolds(ks, iv, p);
    var c := Cbc(ks, iv, Front(p));
    var e := EncipherBlock(ks, XorBlocks(Chained(iv, c), Last(p)));
    hide Cbc, EncipherBlock, XorBlocks, Chained, Last, BlockAt;
    BlockOfParts(c, e, k);
  }

  /** What the k-th cipher block is made of. */
  ghost predicate Enciphers(ks: seq<Subkey>, iv: Block, p: Blocks, c: Blocks, k: nat, x: Block) {
    && 8 * k + 8 <= |p| == |c|
    && IsXor(x, if k == 0 then iv else BlockAt(c, k - 1), BlockAt(p, k)) && BlockAt(c, k) == EncipherBlock(ks, x)
  }

  lemma CbcLast(ks: seq<Subkey>, iv: Block, p: Blocks, k: nat) returns (x: Block)
    requires |p| == 8 * k + 8
    ensures Enciphers(ks, iv, p, Cbc(ks, iv, p), k, x)
  {
    CbcUnfolds(ks, iv, p);
    LastIsBlock(p, k);
    var c := Cbc(ks, iv, Front(p));
    if k > 0 {
      CbcFront(ks, iv, p, k - 1);
      LastIsBlock(c, k - 1);
    }
    hide Cbc, EncipherBlock, XorBlocks, Last, BlockAt, IsXor;
    x := XorBlocks(Chained(iv, c), Last(p));
    BlockOfParts(c, EncipherBlock(ks, x), k);
    XorIs(Chained(iv, c), Last(p));
  }

  lemma CbcLonger(ks: seq<Subkey>, iv: Block, p: Blocks, k: nat, x: Block)
    requires 8 * k + 16 <= |p| && Enciphers(ks, iv, Front(p), Cbc(ks, iv, Front(p)), k, x)
    ensures Enciphers(ks, iv, p, Cbc(ks, iv, p), k, x)
  {
    hide EncipherBlock, BlockAt, IsXor, Cbc, Last;
    FrontBlock(p, k);
    CbcFront(ks, iv, p, k);
    if k > 0 {
      CbcFront(ks, iv, p, k - 1);
    }
  }

  /** CBC enciphers the exclusive or of each block and the cipher block before it, which for the first is the vector. */
  lemma {:induction false} CbcBlock(ks: seq<Subkey>, iv: Block, p: Blocks, k: nat) returns (x: Block)
    requires 8 * k + 8 <= |p|
    ensures Enciphers(ks, iv, p, Cbc(ks, iv, p), k, x)
    decreases |p|
  {
    hide Enciphers, Cbc;
    if 8 * k + 8 < |p| {
      x := CbcBlock(ks, iv, Front(p), k);
      CbcLonger(ks, iv, p, k, x);
    } else {
      x := CbcLast(ks, iv, p, k);
    }
  }

  lemma Chains(iv: Block, c: Blocks, e: Block)
    ensures Chained(iv, c + e) == e
  {
  }

  // The loops of the two ciphers.

  method SetBlock(x: array<bv8>, b: Block, at: nat)
    requires at + 8 <= x.Length
    modifies x
    ensures x[..] == old(x[..at]) + b + old(x[at + 8..])
  {
    var i := 0;
    while i < 8
      invariant 0 <= i <= 8
      invariant forall k | 0 <= k < x.Length ::
                  x[k] == if at <= k < at + i then b[k - at] else old(x[k])
    {
      x[at + i] := b[i];
      i := i + 1;
    }
  }

  method Slice(x: array<bv8>, at: nat) returns (b: Block)
    requires at + 8 <= x.Length && at % 8 == 0
    ensures b == BlockAt(x[..], at / 8)
  {
    b := x[at..at + 8];
  }

  method Copy(p: seq<bv8>) returns (x: array<bv8>)
    ensures fresh(x) && x[..] == p
  {
    x := new bv8[|p|](i requires 0 <= i < |p| => p[i]);
  }

  /** The first `i` blocks, and the block after them. */
  function Upto(p: seq<bv8>, i: nat): (q: Blocks)
    requires 8 * i <= |p|
    ensures |q| == 8 * i
  {
    p[..8 * i]
  }

  /** Block `i` of some bytes, counted from zero. */
  function BlockAt(p: seq<bv8>, i: nat): Block
    requires 8 * i + 8 <= |p|
  {
    p[8 * i..8 * i + 8]
  }

  lemma UptoNext(p: seq<bv8>, i: nat)
    requires 8 * i + 8 <= |p|
    ensures Upto(p, i + 1) != [] && Front(Upto(p, i + 1)) == Upto(p, i) && Last(Upto(p, i + 1)) == BlockAt(p, i)
  {
  }

  lemma EcbNext(ks: seq<Subkey>, p: seq<bv8>, i: nat)
    requires 8 * i + 8 <= |p|
    ensures Ecb(ks, Upto(p, i + 1)) == Ecb(ks, Upto(p, i)) + EncipherBlock(ks, BlockAt(p, i))
  {
    UptoNext(p, i);
    hide EncipherBlock, Front, Last, Upto, BlockAt;
  }

  lemma CbcNext(ks: seq<Subkey>, iv: Block, p: seq<bv8>, i: nat)
    requires 8 * i + 8 <= |p|
    ensures var c := Cbc(ks, iv, Upto(p, i));
            var e := EncipherBlock(ks, XorBlocks(Chained(iv, c), BlockAt(p, i)));
            Cbc(ks, iv, Upto(p, i + 1)) == c + e && Chained(iv, c + e) == e
  {
    UptoNext(p, i);
    var c := Cbc(ks, iv, Upto(p, i));
    Chains(iv, c, EncipherBlock(ks, XorBlocks(Chained(iv, c), BlockAt(p, i))));
    hide EncipherBlock, Front, Last, XorBlocks, Chained, Upto, BlockAt;
  }

  /** `x` holds `i` finished blocks `c` and then the plaintext. */
  ghost predicate Done(x: seq<bv8>, c: seq<bv8>, p: seq<bv8>, i: nat) {
    8 * i == |c| <= |p| && x == c + p[8 * i..]
  }

  lemma DoneNext(x: seq<bv8>, c: seq<bv8>, p: seq<bv8>, i: nat, e: Block)
    requires Done(x, c, p, i) && 8 * i + 8 <= |p|
    ensures |x| == |p| && BlockAt(x, i) == BlockAt(p, i)
    ensures Done(x[..8 * i] + e + x[8 * i + 8..], c + e, p, i + 1)
  {
  }

  class DESECBCipher {
    var cipher: DES?

    ghost predicate Valid()
      reads this, cipher
    {
      cipher != null ==> cipher.Valid()
    }

    constructor ()
      ensures Valid() && cipher == null
    {
      cipher := null;
    }

    method ImportKey(key: seq<bv8>)
      requires Valid()
      modifies this
      ensures Valid() && cipher != null && fresh(cipher) && Subkeys(cipher.keys) == KeySchedule(key)
    {
      cipher := new DES(key);
    }

    method Encrypt(plaintext: seq<bv8>) returns (x: array?<bv8>)
      requires Valid()
      ensures x == null <==> |plaintext| % 8 != 0 || cipher == null
      ensures x != null ==> fresh(x) && x[..] == Ecb(Subkeys(cipher.keys), plaintext)
    {
      if |plaintext| % 8 != 0 || cipher == null {
        return null;
      }
      ghost var ks := Subkeys(cipher.keys);
      var y := Copy(plaintext);
      var n := |plaintext| / 8;
      var i := 0;
      assert Upto(plaintext, n) == plaintext && Ecb(ks, Upto(plaintext, 0)) == [];
      hide Subkeys, EncipherBlock, Ecb, Upto;
      while i < n
        invariant 0 <= i <= n && y.Length == |plaintext| && fresh(y)
        invariant Done(y[..], Ecb(ks, Upto(plaintext, i)), plaintext, i)
      {
        EcbNext(ks, plaintext, i);
        ghost var e := EncipherBlock(ks, BlockAt(plaintext, i));
        DoneNext(y[..], Ecb(ks, Upto(plaintext, i)), plaintext, i, e);
        hide Done, BlockAt;
        var b := Slice(y, 8 * i);
        b := cipher.Enc8(b);
        SetBlock(y, b, 8 * i);
        i := i + 1;
      }
      x := y;
    }
  }

  class DESCBCCipher {
    var cipher: DES?

    ghost predicate Valid()
      reads this, cipher
    {
      cipher != null ==> cipher.Valid()
    }

    constructor ()
      ensures Valid() && cipher == null
    {
      cipher := null;
    }

    method ImportKey(key: seq<bv8>)
      requires Valid()
      modifies this
      ensures Valid() && cipher != null && fresh(cipher) && Subkeys(cipher.keys) == KeySchedule(key)
    {
      cipher := new DES(key);
    }

    /** The source runs its inner loop over eight bytes of the vector, so it needs eight. */
    method Encrypt(iv: Block, plaintext: seq<bv8>) returns (x: array?<bv8>)
      requires Valid()
      ensures x == null <==> |plaintext| % 8 != 0 || cipher == null
      ensures x != null ==> fresh(x) && x[..] == Cbc(Subkeys(cipher.keys), iv, plaintext)
    {
      if |plaintext| % 8 != 0 || cipher == null {
        return null;
      }
      ghost var ks := Subkeys(cipher.keys);
      var out := Copy(plaintext);
      var y := iv;
      var n := |plaintext| / 8;
      var i := 0;
      assert Upto(plaintext, n) == plaintext && Cbc(ks, iv, Upto(plaintext, 0)) == [];
      hide Subkeys, EncipherBlock, Cbc, Upto;
      while i < n
        invariant 0 <= i <= n && out.Length == |plaintext| && fresh(out)
        invariant Done(out[..], Cbc(ks, iv, Upto(plaintext, i)), plaintext, i)
        invariant y == Chained(iv, Cbc(ks, iv, Upto(plaintext, i)))
      {
        hide Done, BlockAt, XorBlocks, Chained;
        CbcNext(ks, iv, plaintext, i);
        ghost var c := Cbc(ks, iv, Upto(plaintext, i));
        ghost var e := EncipherBlock(ks, XorBlocks(Chained(iv, c), BlockAt(plaintext, i)));
        DoneNext(out[..], c, plaintext, i, e);
        y := XorInto(y, plaintext, i);
        y := cipher.Enc8(y);
        SetBlock(out, y, 8 * i);
        i := i + 1;
      }
      x := out;
    }

    static method XorInto(y0: Block, plaintext: seq<bv8>, i: nat) returns (y: Block)
      requires 8 * i + 8 <= |plaintext|
      ensures y == XorBlocks(y0, BlockAt(plaintext, i))
    {
      hide XorByte;
      y := y0;
      var j := 0;
      while j < 8
        invariant 0 <= j <= 8
        invariant forall k | 0 <= k < 8 :: y[k] == if k < j then XorByte(y0[k], plaintext[8 * i + k]) else y0[k]
      {
        y := y[j := XorByte(y[j], plaintext[8 * i + j])];
        j := j + 1;
      }
    }
  }
}
