/**
 * DES as des.js computes it: the key schedule, `enc8`, and the ECB and CBC ciphers built on
 * it. Decryption is not in the source; running `enc8` with the subkeys reversed is proved to
 * be it.
 */
module Des {
  import opened Bytes
  import opened DesBits
  import opened DesTables

  // ---------------------------------------------------------------- rounds

  /** The two words that hold one round's key. */
  datatype Subkey = Subkey(odd: bv32, even: bv32)

  function Six(w: bv32, k: nat): (i: nat)
    requires k < 4
    ensures i < 64
  {
    var v := if k == 0 then w & 0x3f else if k == 1 then (w >> 8) & 0x3f
             else if k == 2 then (w >> 16) & 0x3f else (w >> 24) & 0x3f;
    v as nat
  }

  /** The bits of a box that an entry names. */
  function Spell(sp: Sp, entry: bv4): bv32 {
    Mix(if entry & a != 0 then sp.bitA else 0, if entry & b != 0 then sp.bitB else 0,
        if entry & d != 0 then sp.bitD else 0, if entry & e != 0 then sp.bitE else 0)
  }

  function Box(sp: Sp, i: nat): bv32 {
    if i / 16 < |sp.rows| then Spell(sp, sp.rows[i / 16].At(i % 16)) else 0
  }

  /** `(r << 28) | (r >>> 4)`. */
  function Ror4(r: bv32): bv32 { (r << 28) | (r >> 4) }

  function Mix(a: bv32, b: bv32, c: bv32, d: bv32): bv32 { Or(Or(Or(a, b), c), d) }

  /** The boxes addressed by the six-bit groups of a word. */
  function Lookup(w: bv32, s0: Sp, s1: Sp, s2: Sp, s3: Sp): bv32 {
    Mix(Box(s0, Six(w, 0)), Box(s1, Six(w, 1)), Box(s2, Six(w, 2)), Box(s3, Six(w, 3)))
  }

  /** The round function on a half and a round key. */
  function F(r: bv32, k: Subkey): bv32 {
    Or(Lookup(Xor(Ror4(r), k.odd), SP7, SP5, SP3, SP1), Lookup(Xor(r, k.even), SP8, SP6, SP4, SP2))
  }

  /** One Feistel round, halves exchanged. */
  function Round(h: Halves, k: Subkey): Halves {
    Halves(h.r, Xor(h.l, F(h.r, k)))
  }

  function Rounds(h: Halves, ks: seq<Subkey>): Halves {
    if |ks| == 0 then h else Round(Rounds(h, ks[..|ks| - 1]), ks[|ks| - 1])
  }

  function Reverse<T>(s: seq<T>): (r: seq<T>)
    ensures |r| == |s|
  {
    if |s| == 0 then [] else [s[|s| - 1]] + Reverse(s[..|s| - 1])
  }

  /** A block as the pair of words its bytes spell. */
  function Encipher(ks: seq<Subkey>, h: Halves): Halves {
    Swap(Closing(Rounds(Opening(h), ks)))
  }

  lemma RoundUndone(h: Halves, k: Subkey)
    ensures Round(Swap(Round(h, k)), k) == Swap(h)
  {
    hide F, Xor;
    XorTwice(h.l, F(h.r, k));
  }

  lemma {:induction false} RoundsPrepend(h: Halves, k: Subkey, ks: seq<Subkey>)
    ensures Rounds(h, [k] + ks) == Rounds(Round(h, k), ks)
  {
    hide Round;
    if |ks| == 0 {
      assert [k] + ks == [k] && [k][..0] == [];
      assert Rounds(h, []) == h;
    } else {
      RoundsPrepend(h, k, ks[..|ks| - 1]);
      assert ([k] + ks)[..|ks|] == [k] + ks[..|ks| - 1];
    }
  }

  /** Rounds with the keys in reverse order unwind the rounds, for any number of them. */
  lemma {:induction false} RoundsUndone(h: Halves, ks: seq<Subkey>)
    ensures Rounds(Swap(Rounds(h, ks)), Reverse(ks)) == Swap(h)
  {
    hide Round;
    if |ks| > 0 {
      var n := |ks| - 1;
      var h1 := Rounds(h, ks[..n]);
      RoundUndone(h1, ks[n]);
      RoundsPrepend(Swap(Round(h1, ks[n])), ks[n], Reverse(ks[..n]));
      RoundsUndone(h, ks[..n]);
    }
  }

  /** DES invertibility: with the round keys reversed the same computation deciphers. */
  lemma EncipherInverts(ks: seq<Subkey>, h: Halves)
    ensures Encipher(Reverse(ks), Encipher(ks, h)) == h
  {
    hide Opening, Closing, Rounds;
    var e := Rounds(Opening(h), ks);
    OpeningUndoesClosing(e);
    RoundsUndone(Opening(h), ks);
    ClosingUndoesOpening(h);
  }

  // ---------------------------------------------------------------- complementation

  const SIXES: bv32 := 0x3f3f3f3f

  function FlipSixes(w: bv32): bv32 { w ^ SIXES }
  function NotKey(k: Subkey): Subkey { Subkey(FlipSixes(k.odd), FlipSixes(k.even)) }
  function NotKeys(ks: seq<Subkey>): (r: seq<Subkey>)
    ensures |r| == |ks|
  {
    seq(|ks|, i requires 0 <= i < |ks| => NotKey(ks[i]))
  }

  lemma SixSame(a: bv32, k: bv32, j: nat)
    requires j < 4
    ensures Six(Xor(Flip(a), FlipSixes(k)), j) == Six(Xor(a, k), j)
  {
    if j == 0 {
      SixSame0(a, k);
    } else if j == 1 {
      SixSame1(a, k);
    } else if j == 2 {
      SixSame2(a, k);
    } else {
      SixSame3(a, k);
    }
  }

  lemma SixSame0(a: bv32, k: bv32) ensures (!a ^ (k ^ SIXES)) & 0x3f == (a ^ k) & 0x3f {}
  lemma SixSame1(a: bv32, k: bv32) ensures ((!a ^ (k ^ SIXES)) >> 8) & 0x3f == ((a ^ k) >> 8) & 0x3f {}
  lemma SixSame2(a: bv32, k: bv32) ensures ((!a ^ (k ^ SIXES)) >> 16) & 0x3f == ((a ^ k) >> 16) & 0x3f {}
  lemma SixSame3(a: bv32, k: bv32) ensures ((!a ^ (k ^ SIXES)) >> 24) & 0x3f == ((a ^ k) >> 24) & 0x3f {}

  lemma Ror4Not(r: bv32)
    ensures Ror4(!r) == !Ror4(r)
  {
  }

  lemma Ror4Flipped(r: bv32)
    ensures Ror4(Flip(r)) == Flip(Ror4(r))
  {
    hide Ror4;
    Ror4Not(r);
  }

  lemma LookupSame(a: bv32, k: bv32, s0: Sp, s1: Sp, s2: Sp, s3: Sp)
    ensures Lookup(Xor(Flip(a), FlipSixes(k)), s0, s1, s2, s3) == Lookup(Xor(a, k), s0, s1, s2, s3)
  {
    hide Six, Box, Mix, Xor, Flip, FlipSixes;
    SixSame(a, k, 0);
    SixSame(a, k, 1);
    SixSame(a, k, 2);
    SixSame(a, k, 3);
  }

  /** The expansion and the key addition cancel a complement of both. */
  lemma FComplements(r: bv32, k: Subkey)
    ensures F(Flip(r), NotKey(k)) == F(r, k)
  {
    hide Lookup, Ror4, Xor, Flip, FlipSixes, Or;
    Ror4Flipped(r);
    LookupSame(Ror4(r), k.odd, SP7, SP5, SP3, SP1);
    LookupSame(r, k.even, SP8, SP6, SP4, SP2);
  }

  lemma {:induction false} RoundsComplement(h: Halves, ks: seq<Subkey>)
    ensures Rounds(Not(h), NotKeys(ks)) == Not(Rounds(h, ks))
  {
    hide F, Xor, Flip, NotKey;
    if |ks| > 0 {
      var n := |ks| - 1;
      assert NotKeys(ks)[..n] == NotKeys(ks[..n]);
      RoundsComplement(h, ks[..n]);
      var h1 := Rounds(h, ks[..n]);
      FComplements(h1.r, ks[n]);
      XorTwice(h1.l, F(h1.r, ks[n]));
    }
  }

  /** Complementing the block and every round key complements the result. */
  lemma EncipherComplements(ks: seq<Subkey>, h: Halves)
    ensures Encipher(NotKeys(ks), Not(h)) == Not(Encipher(ks, h))
  {
    hide Opening, Closing, Rounds, Flip, NotKeys;
    OpeningComplements(h);
    RoundsComplement(Opening(h), ks);
    ClosingComplements(Rounds(Opening(h), ks));
  }

  // ---------------------------------------------------------------- blocks of bytes

  type Block = b: seq<bv8> | |b| == 8 witness [0, 0, 0, 0, 0, 0, 0, 0]

  function Word(b0: bv8, b1: bv8, b2: bv8, b3: bv8): bv32 {
    (b0 as bv32 << 24) | (b1 as bv32 << 16) | (b2 as bv32 << 8) | b3 as bv32
  }

  /** Byte `i` of a word, from the top; the source takes `>>>` modulo 256. */
  function ByteOf(w: bv32, i: nat): bv8
    requires i < 4
  {
    var v := if i == 0 then w >> 24 else if i == 1 then (w >> 16) & 0xff
             else if i == 2 then (w >> 8) & 0xff else w & 0xff;
    v as bv8
  }

  function FromBlock(b: Block): Halves {
    Halves(Word(b[0], b[1], b[2], b[3]), Word(b[4], b[5], b[6], b[7]))
  }

  function ToBlock(h: Halves): Block {
    [ByteOf(h.l, 0), ByteOf(h.l, 1), ByteOf(h.l, 2), ByteOf(h.l, 3),
     ByteOf(h.r, 0), ByteOf(h.r, 1), ByteOf(h.r, 2), ByteOf(h.r, 3)]
  }

  lemma WordOfBytes(w: bv32)
    ensures Word(ByteOf(w, 0), ByteOf(w, 1), ByteOf(w, 2), ByteOf(w, 3)) == w
  {
  }

  lemma BytesOfWord(b0: bv8, b1: bv8, b2: bv8, b3: bv8)
    ensures var w := Word(b0, b1, b2, b3);
            ByteOf(w, 0) == b0 && ByteOf(w, 1) == b1 && ByteOf(w, 2) == b2 && ByteOf(w, 3) == b3
  {
  }

  function EncipherBlock(ks: seq<Subkey>, b: Block): Block {
    ToBlock(Encipher(ks, FromBlock(b)))
  }

  lemma BlockRoundTrip(b: Block, h: Halves)
    ensures ToBlock(FromBlock(b)) == b && FromBlock(ToBlock(h)) == h
  {
    hide Word, ByteOf;
    BytesOfWord(b[0], b[1], b[2], b[3]);
    BytesOfWord(b[4], b[5], b[6], b[7]);
    WordOfBytes(h.l);
    WordOfBytes(h.r);
  }

  lemma EncipherBlockInverts(ks: seq<Subkey>, b: Block)
    ensures EncipherBlock(Reverse(ks), EncipherBlock(ks, b)) == b
  {
    hide ToBlock, FromBlock, Encipher;
    BlockRoundTrip(b, Encipher(ks, FromBlock(b)));
    EncipherInverts(ks, FromBlock(b));
  }

  // ---------------------------------------------------------------- key schedule

  /** `1 << n` on 32 bits. */
  function Shl1(n: nat): bv32 { if n == 0 then 1 else Twice(Shl1(n - 1)) }

  /** Bit `m` of a byte. */
  predicate BitOf(b: bv8, m: nat) {
    if m == 0 then b & 1 != 0 else if m == 1 then b & 2 != 0 else if m == 2 then b & 4 != 0
    else if m == 3 then b & 8 != 0 else if m == 4 then b & 16 != 0 else if m == 5 then b & 32 != 0
    else if m == 6 then b & 64 != 0 else b & 128 != 0
  }

  /** The correction that makes the running index follow the first permuted choice. */
  function Adjust(l: int): int {
    l + (if l < -5 then 65 else if l < -3 then 31 else if l < -1 then 63 else if l == 27 then 35 else 0)
  }

  /** The password bit that comes j-th. */
  function Pc1(j: nat): int {
    if j == 0 then Adjust(56) else Adjust(Pc1(j - 1) - 8)
  }

  /** A bit past the end of a short password reads as zero. */
  predicate PasswordBit(pw: seq<bv8>, l: int) {
    0 <= l && l / 8 < |pw| && BitOf(pw[l / 8], l % 8)
  }

  function Choice1(pw: seq<bv8>): (c: seq<bool>)
    ensures |c| == 56
  {
    seq(56, (j: nat) => PasswordBit(pw, Pc1(j)))
  }

  function RotatedIndex(j: nat, i: nat): (l: nat)
    requires j < 56 && i < 16
    ensures l < 56
  {
    Tables();
    var o := if j < 28 then 28 else 56;
    var l := j + TOTROT[i];
    if l < o then l else l - 28
  }

  /** Both halves rotated for round `i`. */
  function Rotated(c: seq<bool>, i: nat): (r: seq<bool>)
    requires |c| == 56 && i < 16
    ensures |r| == 56
  {
    seq(56, (j: nat) requires j < 56 => c[RotatedIndex(j, i)])
  }

  lemma Tables()
    ensures |TOTROT| == 16 && forall i | 0 <= i < 16 :: 0 < TOTROT[i] <= 28
    ensures |PC2| == 3 && |PC2[0]| == |PC2[1]| == |PC2[2]| == 16
  {
  }

  /** Entry `j` of the second permuted choice. */
  function Pc2(j: nat): Position
    requires j < 48
  {
    Tables();
    PC2[j / 16][j % 16]
  }

  /** The second permuted choice, one 24-bit word at a time. */
  function Choice2(r: seq<bool>, second: bool): (b: seq<bool>)
    requires |r| == 56
    ensures |b| == 24
  {
    seq(24, (j: nat) requires j < 24 => r[Pc2(if second then j + 24 else j)])
  }

  /** The first `n` bits set from bit 23 down. */
  function Pack(b: seq<bool>, n: nat): bv32
    requires n <= |b| <= 24
  {
    if n == 0 then 0
    else if b[n - 1] then Or(Pack(b, n - 1), Shl1(24 - n)) else Pack(b, n - 1)
  }

  function Raw(pw: seq<bv8>, i: nat, second: bool): bv32
    requires i < 16
  {
    Pack(Choice2(Rotated(Choice1(pw), i), second), 24)
  }

  function Cook1(raw0: bv32, raw1: bv32): bv32 {
    ((raw0 & 0x00fc0000) << 6) | ((raw0 & 0x00000fc0) << 10) | ((raw1 & 0x00fc0000) >> 10) | ((raw1 & 0x00000fc0) >> 6)
  }

  function Cook2(raw0: bv32, raw1: bv32): bv32 {
    ((raw0 & 0x0003f000) << 12) | ((raw0 & 0x0000003f) << 16) | ((raw1 & 0x0003f000) >> 4) | (raw1 & 0x0000003f)
  }

  function RoundKey(pw: seq<bv8>, i: nat): Subkey
    requires i < 16
  {
    Subkey(Cook1(Raw(pw, i, false), Raw(pw, i, true)), Cook2(Raw(pw, i, false), Raw(pw, i, true)))
  }

  function KeySchedule(pw: seq<bv8>): (ks: seq<Subkey>)
    ensures |ks| == 16
  {
    seq(16, i requires 0 <= i < 16 => RoundKey(pw, i))
  }

  // The schedule takes complements to complements.

  function Inv(b: bv8): bv8 { !b }

  function NotBytes(s: seq<bv8>): (r: seq<bv8>)
    ensures |r| == |s|
  {
    seq(|s|, i requires 0 <= i < |s| => Inv(s[i]))
  }

  function NotBits(b: seq<bool>): (r: seq<bool>)
    ensures |r| == |b|
  {
    seq(|b|, i requires 0 <= i < |b| => !b[i])
  }

  lemma BitFlips(b: bv8, m: nat)
    ensures BitOf(Inv(b), m) == !BitOf(b, m)
  {
  }

  /** Permuted choice 1 of FIPS 46-3, counting bits from zero. */
  function Pc1Table(j: nat): int
    requires j < 56
  {
    if j < 28 then 56 + j / 8 - 8 * (j % 8)
    else if j < 52 then 62 - (j - 28) / 8 - 8 * ((j - 28) % 8)
    else 27 - 8 * (j - 52)
  }

  lemma TableStep(j: nat)
    requires 0 < j < 56
    ensures Adjust(Pc1Table(j - 1) - 8) == Pc1Table(j) && 0 <= Pc1Table(j) < 64
  {
    var k := if j < 28 then j else if j < 52 then j - 28 else j - 52;
    var q, r := k / 8, k % 8;
    assert k == 8 * q + r;
    if r > 0 {
      assert (k - 1) / 8 == q && (k - 1) % 8 == r - 1;
    } else if k > 0 {
      assert (k - 1) / 8 == q - 1 && (k - 1) % 8 == 7;
    }
  }

  /** The running index with its corrections walks the table, and stays inside an 8-byte key. */
  lemma {:induction false} Pc1FollowsTable(j: nat)
    requires j < 56
    ensures Pc1(j) == Pc1Table(j) && 0 <= Pc1(j) < 64
  {
    if j > 0 {
      hide Adjust, Pc1Table;
      Pc1FollowsTable(j - 1);
      TableStep(j);
    }
  }

  lemma Choice1Complements(pw: seq<bv8>)
    requires |pw| >= 8
    ensures Choice1(NotBytes(pw)) == NotBits(Choice1(pw))
  {
    hide BitOf, Inv;
    forall j: nat | j < 56
      ensures Choice1(NotBytes(pw))[j] == !Choice1(pw)[j]
    {
      Pc1FollowsTable(j);
      BitFlips(pw[Pc1(j) / 8], Pc1(j) % 8);
    }
  }

  lemma Choice2Flips(r: seq<bool>, second: bool)
    requires |r| == 56
    ensures Choice2(NotBits(r), second) == NotBits(Choice2(r, second))
  {
    hide Pc2;
    forall j: nat | j < 24
      ensures Choice2(NotBits(r), second)[j] == !Choice2(r, second)[j]
    {
      var k := Pc2(if second then j + 24 else j);
      assert NotBits(r)[k] == !r[k];
      assert Choice2(r, second)[j] == r[k];
      assert Choice2(NotBits(r), second)[j] == NotBits(r)[k];
    }
  }

  lemma Choice2Complements(c: seq<bool>, i: nat, second: bool)
    requires |c| == 56 && i < 16
    ensures Choice2(Rotated(NotBits(c), i), second) == NotBits(Choice2(Rotated(c, i), second))
  {
    hide Pc2, RotatedIndex;
    assert Rotated(NotBits(c), i) == NotBits(Rotated(c, i));
    Choice2Flips(Rotated(c, i), second);
  }

  // Packing: each step sets a bit that no earlier step has set.

  lemma {:induction false} DistinctBits(i: nat, j: nat)
    requires j < i < 32
    ensures Apart(Shl1(i), Shl1(j))
  {
    hide Twice, Apart;
    if j == 0 {
      ShiftBoth(Shl1(i - 1), 0);
    } else {
      DistinctBits(i - 1, j - 1);
      ShiftBoth(Shl1(i - 1), Shl1(j - 1));
    }
  }

  lemma {:induction false} PackLeavesLowBits(b: seq<bool>, n: nat, j: nat)
    requires n <= |b| <= 24 && j + n < 24
    ensures Apart(Pack(b, n), Shl1(j))
  {
    hide Shl1, Apart, Or;
    if n == 0 {
      ZeroApart(Shl1(j));
    } else {
      PackLeavesLowBits(b, n - 1, j);
      DistinctBits(24 - n, j);
      if b[n - 1] {
        OrApart(Pack(b, n - 1), Shl1(24 - n), Shl1(j));
      }
    }
  }

  function AllTrue(): (b: seq<bool>)
    ensures |b| == 24 && forall i | 0 <= i < 24 :: b[i]
  {
    seq(24, _ => true)
  }

  lemma {:induction false} PackComplements(b: seq<bool>, n: nat)
    requires n <= |b| <= 24
    ensures Pack(NotBits(b), n) == Xor(Pack(b, n), Pack(AllTrue(), n))
  {
    if n > 0 {
      hide Shl1, Or, Xor, Apart, AllTrue;
      PackComplements(b, n - 1);
      PackLeavesLowBits(b, n - 1, 24 - n);
      PackLeavesLowBits(AllTrue(), n - 1, 24 - n);
      SetBoth(Pack(b, n - 1), Pack(AllTrue(), n - 1), Shl1(24 - n));
      SetAfter(Pack(b, n - 1), Pack(AllTrue(), n - 1), Shl1(24 - n));
    }
  }

  /** The `n` lowest bits. */
  function Low(n: nat): bv32 { if n == 0 then 0 else Or(Twice(Low(n - 1)), 1) }

  lemma {:induction false} LowFromTop(k: nat)
    ensures Low(k + 1) == Or(Shl1(k), Low(k))
  {
    if k > 0 {
      hide Or, Twice;
      LowFromTop(k - 1);
      TwiceOr(Shl1(k - 1), Low(k - 1));
    } else {
      assert Low(0) == 0;
    }
  }

  /** `n` bits set from the top and the rest below them are all 24. */
  lemma {:induction false} AllTruePacked(n: nat)
    requires n <= 24
    ensures Or(Pack(AllTrue(), n), Low(24 - n)) == Low(24)
  {
    if n > 0 {
      AllTruePacked(n - 1);
      LowFromTop(24 - n);
      hide Shl1, Or, Low;
      OrAssociates(Pack(AllTrue(), n - 1), Shl1(24 - n), Low(24 - n));
    } else {
      hide Low;
      OrZero(Low(24));
    }
  }

  const PACKED: bv32 := 0x00ff_ffff

  lemma LowOne(n: nat, v: bv32)
    requires Low(n) == v
    ensures Low(n + 1) == (v << 1) | 1
  {
  }

  lemma AllLow()
    ensures Low(24) == PACKED
  {
    assert Low(0) == 0;
    hide *;
    LowOne(0, 0x0); LowOne(1, 0x1); LowOne(2, 0x3); LowOne(3, 0x7);
    LowOne(4, 0xf); LowOne(5, 0x1f); LowOne(6, 0x3f); LowOne(7, 0x7f);
    LowOne(8, 0xff); LowOne(9, 0x1ff); LowOne(10, 0x3ff); LowOne(11, 0x7ff);
    LowOne(12, 0xfff); LowOne(13, 0x1fff); LowOne(14, 0x3fff); LowOne(15, 0x7fff);
    LowOne(16, 0xffff); LowOne(17, 0x1ffff); LowOne(18, 0x3ffff); LowOne(19, 0x7ffff);
    LowOne(20, 0xfffff); LowOne(21, 0x1fffff); LowOne(22, 0x3fffff); LowOne(23, 0x7fffff);
  }

  lemma AllPacked()
    ensures Pack(AllTrue(), 24) == PACKED
  {
    AllTruePacked(24);
    assert Low(0) == 0;
    hide *;
    AllLow();
    OrZero(Pack(AllTrue(), 24));
  }

  lemma CookComplements(r0: bv32, r1: bv32)
    ensures Cook1(Xor(r0, PACKED), Xor(r1, PACKED)) == FlipSixes(Cook1(r0, r1))
    ensures Cook2(Xor(r0, PACKED), Xor(r1, PACKED)) == FlipSixes(Cook2(r0, r1))
  {
  }

  lemma RawComplements(pw: seq<bv8>, i: nat, second: bool)
    requires |pw| >= 8 && i < 16
    ensures Raw(NotBytes(pw), i, second) == Xor(Raw(pw, i, second), PACKED)
  {
    hide Choice1, Choice2, Rotated, Pack, Xor, NotBits, NotBytes;
    Choice1Complements(pw);
    Choice2Complements(Choice1(pw), i, second);
    PackComplements(Choice2(Rotated(Choice1(pw), i), second), 24);
    AllPacked();
  }

  lemma RoundKeyComplements(pw: seq<bv8>, i: nat)
    requires |pw| >= 8 && i < 16
    ensures RoundKey(NotBytes(pw), i) == NotKey(RoundKey(pw, i))
  {
    hide Raw, Cook1, Cook2, Xor, FlipSixes, NotBytes;
    RawComplements(pw, i, false);
    RawComplements(pw, i, true);
    CookComplements(Raw(pw, i, false), Raw(pw, i, true));
  }

  /** The eight bytes of a password that count: bits past its end read as zero, later bytes are not read. */
  function KeyBytes(pw: seq<bv8>): (k: Block)
  {
    seq(8, (i: nat) => if i < |pw| then pw[i] else 0)
  }

  lemma PasswordBitOfKey(pw: seq<bv8>, l: int)
    requires l < 64
    ensures PasswordBit(KeyBytes(pw), l) == PasswordBit(pw, l)
  {
  }

  /** So passwords with the same first eight bytes, zeros filling a short one, have the same schedule. */
  lemma ScheduleOfKeyBytes(pw: seq<bv8>)
    ensures KeySchedule(KeyBytes(pw)) == KeySchedule(pw)
  {
    hide KeyBytes, PasswordBit;
    forall j: nat | j < 56 ensures Choice1(KeyBytes(pw))[j] == Choice1(pw)[j] {
      Pc1FollowsTable(j);
      Pc1Small(j);
      PasswordBitOfKey(pw, Pc1(j));
    }
    assert Choice1(KeyBytes(pw)) == Choice1(pw);
    hide Choice1;
    forall i: nat | i < 16 ensures RoundKey(KeyBytes(pw), i) == RoundKey(pw, i) {
    }
  }

  lemma Pc1Small(j: nat)
    requires j < 56
    ensures Pc1Table(j) < 64
  {
  }

  lemma EightBytesComplement(pw: seq<bv8>)
    requires |pw| >= 8
    ensures KeySchedule(NotBytes(pw)) == NotKeys(KeySchedule(pw))
  {
    hide RoundKey, NotBytes, NotKey;
    forall i | 0 <= i < 16
      ensures KeySchedule(NotBytes(pw))[i] == NotKeys(KeySchedule(pw))[i]
    {
      RoundKeyComplements(pw, i);
    }
  }

  /** The key schedule takes the complement of a password's eight bytes to the complement of its round keys. */
  lemma ScheduleComplements(pw: seq<bv8>)
    ensures KeySchedule(NotBytes(KeyBytes(pw))) == NotKeys(KeySchedule(pw))
  {
    EightBytesComplement(KeyBytes(pw));
    ScheduleOfKeyBytes(pw);
    hide KeySchedule, NotKeys, NotBytes;
  }

  lemma ToNotBlock(h: Halves)
    ensures ToBlock(Not(h)) == NotBytes(ToBlock(h))
  {
    hide ByteOf, Flip, Inv;
    ByteComplements(h.l);
    ByteComplements(h.r);
  }

  lemma ByteComplements(w: bv32)
    ensures ByteOf(Flip(w), 0) == Inv(ByteOf(w, 0)) && ByteOf(Flip(w), 1) == Inv(ByteOf(w, 1))
    ensures ByteOf(Flip(w), 2) == Inv(ByteOf(w, 2)) && ByteOf(Flip(w), 3) == Inv(ByteOf(w, 3))
  {
  }

  lemma FromNotBlock(b: Block)
    ensures FromBlock(NotBytes(b)) == Not(FromBlock(b))
  {
    hide *;
    BlockRoundTrip(b, FromBlock(b));
    ToNotBlock(FromBlock(b));
    BlockRoundTrip(b, Not(FromBlock(b)));
  }

  /** The complementation property of DES, from password bytes to cipher bytes. */
  lemma Complementation(pw: seq<bv8>, b: Block)
    ensures EncipherBlock(KeySchedule(NotBytes(KeyBytes(pw))), NotBytes(b))
        == NotBytes(EncipherBlock(KeySchedule(pw), b))
  {
    hide KeySchedule, NotBytes, KeyBytes, ToBlock, FromBlock, Encipher, NotKeys, Not;
    ScheduleComplements(pw);
    FromNotBlock(b);
    ToNotBlock(Encipher(KeySchedule(pw), FromBlock(b)));
    EncipherComplements(KeySchedule(pw), FromBlock(b));
  }
}
