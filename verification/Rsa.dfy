/**
 * RSA with PKCS #1 v1.5 padding (rsa.js) and Diffie-Hellman (dh.js) over the number helpers.
 * Random bytes and generated keys come from Web Crypto and are parameters.
 */
module Rsa {
  import opened Arith
  import opened BigInt
  import opened Bytes

  /** A call returns bytes, returns `null`, or throws. */
  datatype Outcome = Result(bytes: seq<byte>) | Null | Throws

  // ---------------------------------------------------------------- padding

  /** `Math.floor(x * 254 / 255 + 1)`. */
  function NonZero(x: byte): (p: byte)
    ensures p > 0
    ensures p == if x == 255 then 255 else if x == 0 then 1 else x
  {
    x * 254 / 255 + 1
  }

  function PaddingString(random: seq<byte>): (ps: seq<byte>)
    ensures |ps| == |random| && forall i | 0 <= i < |ps| :: ps[i] != 0
  {
    seq(|random|, i requires 0 <= i < |random| => NonZero(random[i]))
  }

  /** The encoded message of RFC 8017, section 7.2.1, step 2b. */
  function Encoded(ps: seq<byte>, message: seq<byte>): (em: seq<byte>)
    ensures |em| == |ps| + |message| + 3
  {
    [0, 2] + ps + [0] + message
  }

  predicate NoZero(ps: seq<byte>) {
    forall i | 0 <= i < |ps| :: ps[i] != 0
  }

  /** The index of the first zero from `i` on, or the length. */
  function FirstZero(em: seq<byte>, i: nat): (k: nat)
    requires i <= |em|
    ensures i <= k <= |em| && NoZero(em[i..k]) && (k < |em| ==> em[k] == 0)
    decreases |em| - i
  {
    if i == |em| || em[i] == 0 then i else
      var k := FirstZero(em, i + 1);
      assert em[i..k] == [em[i]] + em[i + 1..k];
      k
  }

  /** What `decrypt` makes of the decrypted bytes. */
  function Unpadded(em: seq<byte>): Outcome {
    if |em| < 2 || em[0] != 0 || em[1] != 2 then Null else
      var i := FirstZero(em, 2);
      if i == |em| then Null else Result(em[i + 1..])
  }

  lemma {:induction false} FirstZeroIs(em: seq<byte>, i: nat, k: nat)
    requires i <= k < |em| && NoZero(em[i..k]) && em[k] == 0
    ensures FirstZero(em, i) == k
    decreases k - i
  {
    if i < k {
      assert em[i] == em[i..k][0] && em[i + 1..k] == em[i..k][1..];
      FirstZeroIs(em, i + 1, k);
    }
  }

  /** Bytes unpad to a message exactly when they are that message in its encoding. */
  lemma UnpadsExactly(em: seq<byte>, message: seq<byte>)
    ensures Unpadded(em) == Result(message) <==> exists ps :: NoZero(ps) && em == Encoded(ps, message)
  {
    if Unpadded(em) == Result(message) {
      var i := FirstZero(em, 2);
      assert em == Encoded(em[2..i], message);
    }
    forall ps | NoZero(ps) && em == Encoded(ps, message)
      ensures Unpadded(em) == Result(message)
    {
      assert em[2..2 + |ps|] == ps;
      FirstZeroIs(em, 2, 2 + |ps|);
    }
  }

  // ---------------------------------------------------------------- keys

  /** The two exponents undo each other below the modulus. */
  ghost predicate MatchingExponents(n: nat, e: nat, d: nat) {
    forall x: nat | x < n :: Pow(x, e * d) % n == x
  }

  /** `encrypt` on the numbers of a key. */
  function Encrypted(k: nat, n: nat, e: nat, random: seq<byte>, message: seq<byte>): Outcome {
    if |message| > k - 11 then Null
    else if n == 0 then Throws
    else Result(ToBytes(ModPow(BigEndian(Encoded(PaddingString(random), message)), e, n), k))
  }

  /** `decrypt`; a key without a private exponent counts as exponent zero. */
  function Decrypted(k: nat, n: nat, d: nat, cipher: seq<byte>): Outcome {
    if |cipher| != k then Null
    else if k == 0 || n == 0 then Throws
    else Unpadded(ToBytes(ModPow(BigEndian(cipher), d, n), k))
  }

  lemma {:induction false} BigEndianLeading(a: seq<byte>, b: byte)
    ensures BigEndian([b] + a) == b * Pow256(|a|) + BigEndian(a)
  {
    if |a| == 0 {
      assert ([b] + a)[..0] == [];
    } else {
      var front := a[..|a| - 1];
      assert ([b] + a)[..|a|] == [b] + front;
      BigEndianLeading(front, b);
      var p := Pow256(|front|);
      assert 256 * (b * p) == b * (256 * p);
    }
  }

  /** The leading zero keeps the encoded message below `256^(k-1)`. */
  lemma EncodedBelow(em: seq<byte>)
    requires |em| > 0 && em[0] == 0
    ensures BigEndian(em) < Pow256(|em| - 1)
  {
    assert em == [0] + em[1..];
    BigEndianLeading(em[1..], 0);
    BigEndianBound(em[1..]);
  }

  /** Exponentiation there and back, through byte arrays of the key's length. */
  lemma ThereAndBack(k: nat, n: nat, e: nat, d: nat, x: nat)
    requires k > 0 && 1 < n < Pow256(k) && MatchingExponents(n, e, d) && x < n
    ensures var c := ToBytes(ModPow(x, e, n), k);
            |c| == k && ModPow(BigEndian(c), d, n) == x
  {
    var y := ModPow(x, e, n);
    ModPowExactlyWhen(x, e, n);
    hide Pow, Pow256, ModPow, ToBytes;
    assert y == Pow(x, e) % n < n;
    FitsExactlyWhen(y, k);
    assert BigEndian(ToBytes(y, k)) == y;
    ModPowExactlyWhen(y, d, n);
    PowMod(Pow(x, e), d, n);
    PowMul(x, e, d);
  }

  /**
   * RSA round trip (RFC 8017, section 7.2): with matching exponents and a modulus of full
   * length, every message that fits comes back, whatever the random bytes were.
   */
  lemma RoundTrip(k: nat, n: nat, e: nat, d: nat, random: seq<byte>, message: seq<byte>)
    requires k >= 11 && Pow256(k - 1) <= n < Pow256(k) && MatchingExponents(n, e, d)
    requires |message| <= k - 11 && |random| == k - |message| - 3
    ensures var c := Encrypted(k, n, e, random, message);
            c.Result? && |c.bytes| == k && Decrypted(k, n, d, c.bytes) == Result(message)
  {
    var ps := PaddingString(random);
    var em := Encoded(ps, message);
    EncodedBelow(em);
    Pow256Mono(1, k - 1);
    assert Pow256(1) == 256;
    hide Pow, Pow256, BigEndian, Encoded, PaddingString, Unpadded;
    ThereAndBack(k, n, e, d, BigEndian(em));
    WritesBack(em);
    UnpadsExactly(em, message);
  }

  /** An encoded message byte by byte: 0, 2, at least eight bytes that are not zero, 0, the message. */
  ghost predicate Block(em: seq<byte>, k: nat, message: seq<byte>) {
    && |em| == k && |message| + 11 <= k && em[0] == 0 && em[1] == 2 && em[k - |message| - 1] == 0
    && (forall i | 2 <= i < k - |message| - 1 :: em[i] != 0)
    && em[k - |message|..] == message
  }

  /**
   * What encryption computes: null exactly for a message that leaves no room for eight bytes of
   * padding, else the power of a block's number, at the key's length.
   */
  lemma EncryptsBlock(k: nat, n: nat, e: nat, random: seq<byte>, message: seq<byte>)
    requires 1 < n < Pow256(k) && (|message| + 11 <= k ==> |random| == k - |message| - 3)
    ensures Encrypted(k, n, e, random, message) == Null <==> |message| + 11 > k
    ensures |message| + 11 <= k ==>
              var em := Encoded(PaddingString(random), message); var c := Encrypted(k, n, e, random, message);
              && Block(em, k, message) && c.Result? && |c.bytes| == k
              && BigEndian(c.bytes) == Pow(BigEndian(em), e) % n
  {
    if |message| + 11 <= k {
      var ps := PaddingString(random);
      var em := Encoded(ps, message);
      assert forall i | 2 <= i < k - |message| - 1 :: em[i] == ps[i - 2];
      assert em[k - |message|..] == message;
      hide Pow, Pow256, ModPow, ToBytes, BigEndian, Encoded, PaddingString;
      ModPowExactlyWhen(BigEndian(em), e, n);
      FitsExactlyWhen(ModPow(BigEndian(em), e, n), k);
    }
  }

  /** Decryption accepts exactly bytes that begin 0, 2 and have a zero after that; the message follows the first. */
  lemma UnpadsAfterFirstZero(em: seq<byte>, message: seq<byte>)
    ensures Unpadded(em) == Result(message) <==>
            |em| >= 2 && em[0] == 0 && em[1] == 2
                && exists j :: 2 <= j < |em| && em[j] == 0 && NoZero(em[2..j]) && em[j + 1..] == message
    ensures Unpadded(em) == Null || Unpadded(em).Result?
  {
    if |em| >= 2 && em[0] == 0 && em[1] == 2 {
      forall j | 2 <= j < |em| && em[j] == 0 && NoZero(em[2..j])
        ensures FirstZero(em, 2) == j
      {
        FirstZeroIs(em, 2, j);
      }
    }
  }

  // ---------------------------------------------------------------- the cipher object

  /** Each part of the key fits the key's length. */
  predicate PartsFit(keyBytes: nat, keyN: seq<byte>, keyE: seq<byte>, keyD: seq<byte>) {
    |keyN| <= keyBytes && |keyE| <= keyBytes && |keyD| <= keyBytes
  }

  class RSACipher {
    var keyLength: nat
    var keyBytes: nat
    var n: Option<nat>
    var e: Option<nat>
    var d: Option<nat>
    var extractable: bool

    /** Both ways of making a key set the modulus and the public exponent together. */
    ghost predicate Valid()
      reads this
    {
      && (n.None? ==> keyBytes == 0 && e.None? && d.None?)
      && (n.Some? ==> e.Some? && keyBytes > 0 && n.value < Pow256(keyBytes))
    }

    constructor ()
      ensures Valid() && n == None && keyBytes == 0
    {
      keyLength, keyBytes, n, e, d, extractable := 0, 0, None, None, None, false;
    }

    /** Importing a public key; the source throws on parts of unequal length and on empty ones. */
    method ImportKey(keyN: seq<byte>, keyE: seq<byte>, mayExport: bool) returns (ok: bool)
      requires Valid() && n == None
      modifies this
      ensures ok <==> |keyN| == |keyE| > 0
      ensures ok ==>
        && Valid() && keyBytes == |keyN| && n == Some(BigEndian(keyN)) && e == Some(BigEndian(keyE)) && d == None
    {
      if |keyN| != |keyE| {
        return false;
      }
      keyBytes := |keyN|;
      keyLength := keyBytes * 8;
      n := U8ArrayToBigInt(keyN);
      if n == None {
        return false;
      }
      BigEndianBound(keyN);
      e := U8ArrayToBigInt(keyE);
      extractable := mayExport;
      ok := true;
    }

    static method PadArray(arr: seq<byte>, length: nat) returns (res: array<byte>)
      requires |arr| <= length
      ensures fresh(res) && res.Length == length && BigEndian(res[..]) == BigEndian(arr)
    {
      res := new byte[length](i => 0);
      var at := length - |arr|;
      forall i | 0 <= i < |arr| {
        res[at + i] := arr[i];
      }
      assert res[..] == ZeroBytes(at) + arr;
      LeadingZeros(at, arr);
    }

    /**
     * A generated key: the parts Web Crypto exported, each padded to the key's length. A longer
     * part throws, and so does a length of zero, for which the parts are empty.
     */
    method GenerateKey(modulusLength: nat, keyN: seq<byte>, keyE: seq<byte>, keyD: seq<byte>, mayExport: bool)
      returns (ok: bool)
      requires Valid() && n == None
      modifies this
      ensures ok <==> modulusLength > 0 && PartsFit((modulusLength + 7) / 8, keyN, keyE, keyD)
      ensures ok ==> Valid() && keyBytes == (modulusLength + 7) / 8
                     && n == Some(BigEndian(keyN)) && e == Some(BigEndian(keyE)) && d == Some(BigEndian(keyD))
    {
      keyLength := modulusLength;
      keyBytes := (modulusLength + 7) / 8;
      if modulusLength == 0 || !PartsFit(keyBytes, keyN, keyE, keyD) {
        return false;
      }
      extractable := mayExport;
      var a := PadArray(keyN, keyBytes);
      BigEndianBound(a[..]);
      n := U8ArrayToBigInt(a[..]);
      a := PadArray(keyE, keyBytes);
      e := U8ArrayToBigInt(a[..]);
      a := PadArray(keyD, keyBytes);
      d := U8ArrayToBigInt(a[..]);
      ok := true;
    }

    /** A cipher without a key has length zero, so every message is too long for it. */
    method Encrypt(message: seq<byte>, random: seq<byte>) returns (c: Outcome)
      requires Valid() && (|message| <= keyBytes - 11 ==> |random| == keyBytes - |message| - 3)
      ensures c == Encrypted(keyBytes, if n.None? then 0 else n.value, if e.None? then 0 else e.value, random, message)
    {
      if |message| > keyBytes - 11 {
        return Null;
      }
      var ps := new byte[|random|](i requires 0 <= i < |random| => random[i]);
      var i := 0;
      while i < ps.Length
        invariant 0 <= i <= ps.Length
        invariant forall k | 0 <= k < ps.Length :: ps[k] == if k < i then NonZero(random[k]) else random[k]
      {
        ps[i] := NonZero(ps[i]);
        i := i + 1;
      }
      assert ps[..] == PaddingString(random);
      var em := Assemble(ps[..], message);
      var emBigInt := U8ArrayToBigInt(em[..]);
      var r := ComputeModPow(emBigInt.value, e.value, n.value);
      if r == None {
        return Throws;
      }
      var out := BigIntToU8Array(r.value, keyBytes);
      c := Result(out[..]);
    }

    static method Assemble(ps: seq<byte>, message: seq<byte>) returns (em: array<byte>)
      ensures fresh(em) && em[..] == Encoded(ps, message)
    {
      em := new byte[|ps| + |message| + 3](i => 0);
      em[1] := 2;
      forall i | 0 <= i < |ps| {
        em[2 + i] := ps[i];
      }
      forall i | 0 <= i < |message| {
        em[|ps| + 3 + i] := message[i];
      }
    }

    /** Searching the separator is a loop; a missing private exponent acts as zero. */
    method Decrypt(message: seq<byte>) returns (m: Outcome)
      requires Valid()
      ensures m == Decrypted(keyBytes, if n.None? then 0 else n.value, if d.None? then 0 else d.value, message)
    {
      if |message| != keyBytes {
        return Null;
      }
      var msgBigInt := U8ArrayToBigInt(message);
      if msgBigInt == None || n == None {
        return Throws;
      }
      var r := ComputeModPow(msgBigInt.value, if d.None? then 0 else d.value, n.value);
      if r == None {
        return Throws;
      }
      var em := BigIntToU8Array(r.value, keyBytes);
      m := Separate(em);
    }

    static method Separate(em: array<byte>) returns (m: Outcome)
      ensures m == Unpadded(em[..])
    {
      if em.Length < 2 || em[0] != 0 || em[1] != 2 {
        return Null;
      }
      var i := 2;
      while i < em.Length
        invariant 2 <= i <= em.Length
        invariant FirstZero(em[..], i) == FirstZero(em[..], 2)
      {
        if em[i] == 0 {
          break;
        }
        i := i + 1;
      }
      if i == em.Length {
        return Null;
      }
      m := Result(em[i + 1..]);
    }
  }

  function ZeroBytes(n: nat): (z: seq<byte>)
    ensures |z| == n
  {
    seq(n, _ => 0)
  }

  lemma {:induction false} LeadingZeros(n: nat, a: seq<byte>)
    ensures BigEndian(ZeroBytes(n) + a) == BigEndian(a)
    decreases n
  {
    if n > 0 {
      var rest := ZeroBytes(n - 1) + a;
      assert ZeroBytes(n) + a == [0] + rest;
      hide BigEndian, Pow256, ZeroBytes;
      LeadingZeros(n - 1, a);
      BigEndianLeading(rest, 0);
    } else {
      assert ZeroBytes(0) + a == a;
    }
  }
}

/** Diffie-Hellman key agreement (dh.js). */
module DiffieHellman {
  import opened Arith
  import opened BigInt
  import opened Bytes

  class DHCipher {
    var keyBytes: nat
    var p: nat
    var privateKey: nat
    var publicKey: seq<byte>

    constructor ()
      ensures keyBytes == 0 && p == 0 && privateKey == 0 && publicKey == []
    {
      keyBytes, p, privateKey, publicKey := 0, 0, 0, [];
    }

    /** The random private key has the length of the modulus. Empty input and a modulus of zero throw. */
    method GenerateKey(g: seq<byte>, modulus: seq<byte>, random: seq<byte>) returns (ok: bool)
      requires |random| == |modulus|
      modifies this
      ensures ok <==> |g| > 0 && |modulus| > 0 && BigEndian(modulus) > 0
      ensures ok ==> keyBytes == |modulus| && p == BigEndian(modulus) && privateKey == BigEndian(random)
                     && publicKey == Public(keyBytes, BigEndian(g), privateKey, p)
    {
      keyBytes := |modulus|;
      var base := U8ArrayToBigInt(g);
      var m := U8ArrayToBigInt(modulus);
      if base == None || m == None {
        return false;
      }
      p := m.value;
      var key := U8ArrayToBigInt(random);
      privateKey := key.value;
      var power := ComputeModPow(base.value, privateKey, p);
      if power == None {
        return false;
      }
      var out := BigIntToU8Array(power.value, keyBytes);
      publicKey := out[..];
      ok := true;
    }

    method DeriveBits(peer: seq<byte>, length: nat) returns (secret: Option<seq<byte>>)
      requires p > 0
      ensures secret == Derived(keyBytes, p, privateKey, peer, length)
    {
      var bytes := (length + 7) / 8;
      var len := if bytes > keyBytes then bytes else keyBytes;
      var pkey := U8ArrayToBigInt(peer);
      if pkey == None {
        return None;
      }
      var r := ComputeModPow(pkey.value, privateKey, p);
      var out := BigIntToU8Array(r.value, len);
      secret := Some(Cut(out[..], len));
    }
  }

  /** `slice(0, len)`. */
  function Cut(a: seq<byte>, len: nat): seq<byte> {
    if len <= |a| then a[..len] else a
  }

  function SecretLength(keyBytes: nat, length: nat): nat {
    var bytes := (length + 7) / 8;
    if bytes > keyBytes then bytes else keyBytes
  }

  function Derived(keyBytes: nat, p: nat, privateKey: nat, peer: seq<byte>, length: nat): Option<seq<byte>>
    requires p > 0
  {
    var len := SecretLength(keyBytes, length);
    if |peer| == 0 then None else Some(Cut(ToBytes(ModPow(BigEndian(peer), privateKey, p), len), len))
  }

  function Public(keyBytes: nat, g: nat, x: nat, p: nat): seq<byte>
    requires p > 0
  {
    ToBytes(ModPow(g, x, p), keyBytes)
  }

  lemma ModPowBelow(b: nat, e: nat, m: nat)
    requires m > 0
    ensures ModPow(b, e, m) <= m && (m > 1 ==> ModPow(b, e, m) < m)
  {
  }

  /** What a side derives from the other's public key is a power of a power. */
  lemma DerivedIs(k: nat, g: nat, p: nat, mine: nat, theirs: nat, length: nat)
    requires k > 0 && 0 < p < Pow256(k)
    ensures Derived(k, p, mine, Public(k, g, theirs, p), length)
         == Some(ToBytes(ModPow(ModPow(g, theirs, p), mine, p), SecretLength(k, length)))
  {
    var len := SecretLength(k, length);
    var y := ModPow(g, theirs, p);
    var s := ModPow(y, mine, p);
    ModPowBelow(g, theirs, p);
    ModPowBelow(y, mine, p);
    Pow256Mono(k, len);
    hide Pow, Pow256, ModPow, ToBytes, SecretLength;
    FitsExactlyWhen(y, k);
    FitsExactlyWhen(s, len);
    assert ToBytes(s, len)[..len] == ToBytes(s, len);
  }

  lemma PowersCommute(g: nat, a: nat, b: nat, p: nat)
    requires p > 1
    ensures ModPow(ModPow(g, a, p), b, p) == ModPow(ModPow(g, b, p), a, p)
  {
    ModPowExactlyWhen(g, a, p);
    ModPowExactlyWhen(g, b, p);
    ModPowExactlyWhen(Pow(g, a) % p, b, p);
    ModPowExactlyWhen(Pow(g, b) % p, a, p);
    hide ModPow, Pow;
    PowMod(Pow(g, a), b, p);
    PowMod(Pow(g, b), a, p);
    PowMul(g, a, b);
    PowMul(g, b, a);
    assert a * b == b * a;
  }

  /**
   * Both sides derive the same secret, except under the modulus one when exactly one of the
   * private keys is zero.
   */
  lemma SecretsAgreeExactlyWhen(k: nat, g: nat, p: nat, a: nat, b: nat, length: nat)
    requires k > 0 && 0 < p < Pow256(k)
    ensures Derived(k, p, a, Public(k, g, b, p), length) == Derived(k, p, b, Public(k, g, a, p), length)
       <==> p > 1 || (a == 0 <==> b == 0)
  {
    DerivedIs(k, g, p, a, b, length);
    DerivedIs(k, g, p, b, a, length);
    var sa, sb := ModPow(ModPow(g, b, p), a, p), ModPow(ModPow(g, a, p), b, p);
    if p > 1 {
      PowersCommute(g, a, b, p);
    } else {
      assert sa == (if a == 0 then 1 else 0) && sb == if b == 0 then 1 else 0;
      var len := SecretLength(k, length);
      Pow256Mono(1, len);
      assert Pow256(1) == 256;
      hide Pow, Pow256, ModPow, ToBytes, SecretLength;
      FitsExactlyWhen(sa, len);
      FitsExactlyWhen(sb, len);
    }
  }
}
