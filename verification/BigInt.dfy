/**
 * The number helpers of bigint.js: modular exponentiation by squaring, and the conversions
 * between byte arrays and integers by way of hexadecimal text. A hexadecimal string is the
 * sequence of its digit values.
 */
module BigInt {
  import opened Arith
  import opened Bytes

  type digit = d: int | 0 <= d < 16

  // ---------------------------------------------------------------- modPow

  /** What `modPow` returns for a modulus that is not zero. */
  function ModPow(b: nat, e: nat, m: nat): nat
    requires m > 0
  {
    if e == 0 then 1 else Pow(b, e) % m
  }

  /** It is the power modulo `m` for every input but one family. */
  lemma ModPowExactlyWhen(b: nat, e: nat, m: nat)
    requires m > 0
    ensures ModPow(b, e, m) == Pow(b, e) % m <==> m > 1 || e > 0
  {
  }

  lemma {:induction false} SquareStep(r: nat, b: nat, e: nat, m: nat)
    requires m > 0 && e > 0
    ensures e % 2 == 1 ==> (r * b % m) * Pow(b * b % m, e / 2) % m == r * Pow(b, e) % m
    ensures e % 2 == 0 ==> r * Pow(b * b % m, e / 2) % m == r * Pow(b, e) % m
  {
    var h := e / 2;
    var s := Pow(b * b, h);
    assert Pow(b, 2) == b * b by {
      assert Pow(b, 1) == b * Pow(b, 0);
    }
    PowMul(b, 2, h);
    PowMod(b * b, h, m);
    ModMulRight(r, Pow(b * b % m, h), s, m);
    if e % 2 == 1 {
      assert e == 2 * h + 1;
      assert Pow(b, e) == b * s;
      ModMul(r * b, Pow(b * b % m, h), m);
      ModMulRight(r * b, Pow(b * b % m, h), s, m);
      Associate(r, b, s);
    } else {
      assert e == 2 * h;
    }
  }

  lemma ModMulRight(a: int, x: int, y: int, m: int)
    requires m > 0 && x % m == y % m
    ensures a * x % m == a * y % m
  {
    ModMul(x, a, m);
    ModMul(y, a, m);
    assert a * x == x * a && a * y == y * a;
  }

  /** Square and multiply; a zero modulus throws. */
  method ComputeModPow(b0: nat, e0: nat, m: nat) returns (r: Option<nat>)
    ensures r == if m == 0 then None else Some(ModPow(b0, e0, m))
  {
    if m == 0 {
      return None;
    }
    var acc: nat := 1;
    var b: nat, e: nat := b0 % m, e0;
    PowMod(b0, e0, m);
    while e > 0
      invariant acc * Pow(b, e) % m == Pow(b0, e0) % m
      invariant e == 0 ==> acc == ModPow(b0, e0, m)
      invariant e == e0 ==> acc == 1
      invariant e <= e0
    {
      SquareStep(acc, b, e, m);
      hide Pow;
      if e % 2 == 1 {
        acc := acc * b % m;
      }
      e := e / 2;
      b := b * b % m;
      if e == 0 {
        Finished(acc, b, m);
      }
    }
    r := Some(acc);
  }

  lemma Finished(acc: nat, b: nat, m: nat)
    requires m > 0 && acc < m
    ensures acc * Pow(b, 0) % m == acc
  {
    DivModUnique(acc, m, 0, acc);
  }

  // ---------------------------------------------------------------- hexadecimal text

  /** The number a digit string denotes. */
  function Value(h: seq<digit>): nat
  {
    if |h| == 0 then 0 else 16 * Value(h[..|h| - 1]) + h[|h| - 1]
  }

  /** `toString(16)`. */
  function ToHex(v: nat): (h: seq<digit>)
    ensures |h| > 0
  {
    if v < 16 then [v] else ToHex(v / 16) + [v % 16]
  }

  function Zeros(n: nat): (h: seq<digit>)
    ensures |h| == n
  {
    seq(n, _ => 0)
  }

  function PadStart(h: seq<digit>, n: nat): (r: seq<digit>)
    ensures |r| == if |h| < n then n else |h|
  {
    if |h| < n then Zeros(n - |h|) + h else h
  }

  lemma ValueSnoc(h: seq<digit>, d: digit)
    ensures Value(h + [d]) == 16 * Value(h) + d
  {
    assert (h + [d])[..|h|] == h;
  }

  lemma {:induction false} ToHexValue(v: nat)
    ensures Value(ToHex(v)) == v
    decreases v
  {
    if v >= 16 {
      ToHexValue(v / 16);
      ValueSnoc(ToHex(v / 16), v % 16);
    } else {
      ValueSnoc([], v);
      assert [] + [v] == ToHex(v);
    }
  }

  lemma {:induction false} ValueZeros(n: nat, h: seq<digit>)
    ensures Value(Zeros(n) + h) == Value(h)
    decreases |h|, n
  {
    if |h| > 0 {
      var front := h[..|h| - 1];
      assert Zeros(n) + h == (Zeros(n) + front) + [h[|h| - 1]];
      ValueSnoc(Zeros(n) + front, h[|h| - 1]);
      ValueZeros(n, front);
    } else if n > 0 {
      assert Zeros(n) + h == (Zeros(n - 1) + h) + [0];
      ValueSnoc(Zeros(n - 1) + h, 0);
      ValueZeros(n - 1, h);
    } else {
      assert Zeros(n) + h == h;
    }
  }

  lemma {:induction false} ValueBound(h: seq<digit>)
    ensures Value(h) < Pow(16, |h|)
  {
    if |h| > 0 {
      ValueBound(h[..|h| - 1]);
    }
  }

  /** A number has no more digits than it needs. */
  lemma {:induction false} ToHexLength(v: nat, k: nat)
    requires k > 0
    ensures |ToHex(v)| <= k <==> v < Pow(16, k)
    decreases k
  {
    ToHexValue(v);
    ValueBound(ToHex(v));
    if |ToHex(v)| <= k {
      PowMonotone(16, |ToHex(v)|, k);
    } else if v >= 16 && k > 1 {
      ToHexLength(v / 16, k - 1);
    } else {
      assert Pow(16, 1) == 16 * Pow(16, 0);
      assert v >= 16;
    }
  }

  /** Strings of one length that denote the same number are the same. */
  lemma {:induction false} ValueInjective(g: seq<digit>, h: seq<digit>)
    requires |g| == |h| && Value(g) == Value(h)
    ensures g == h
  {
    if |g| > 0 {
      var n := |g| - 1;
      assert g[n] == Value(g) % 16 && h[n] == Value(h) % 16;
      ValueInjective(g[..n], h[..n]);
      assert g == g[..n] + [g[n]] && h == h[..n] + [h[n]];
    }
  }

  // ---------------------------------------------------------------- bytes

  /** The two digits of each byte. */
  function Digits(a: seq<byte>): (h: seq<digit>)
    ensures |h| == 2 * |a|
  {
    if |a| == 0 then [] else Digits(a[..|a| - 1]) + [a[|a| - 1] / 16, a[|a| - 1] % 16]
  }

  /** The first `n` bytes that a digit string spells. */
  function Pairs(h: seq<digit>, n: nat): (a: seq<byte>)
    requires 2 * n <= |h|
    ensures |a| == n
  {
    if n == 0 then [] else Pairs(h, n - 1) + [16 * (h[2 * n - 2] as int) + h[2 * n - 1]]
  }

  lemma TwoDigits(b: byte)
    ensures PadStart(ToHex(b), 2) == [b / 16, b % 16]
  {
    if b >= 16 {
      assert ToHex(b / 16) == [b / 16];
    } else {
      assert Zeros(1) == [0];
    }
  }

  lemma {:induction false} DigitsValue(a: seq<byte>)
    ensures Value(Digits(a)) == BigEndian(a)
  {
    if |a| > 0 {
      var front, b := a[..|a| - 1], a[|a| - 1];
      DigitsValue(front);
      ValueSnoc(Digits(front), b / 16);
      ValueSnoc(Digits(front) + [b / 16], b % 16);
      assert Digits(a) == (Digits(front) + [b / 16]) + [b % 16];
    }
  }

  lemma {:induction false} DigitsOfPairs(h: seq<digit>, n: nat)
    requires 2 * n <= |h|
    ensures Digits(Pairs(h, n)) == h[..2 * n]
  {
    if n > 0 {
      DigitsOfPairs(h, n - 1);
      var hi: int, lo: int := h[2 * n - 2], h[2 * n - 1];
      var a := Pairs(h, n);
      assert a[..n - 1] == Pairs(h, n - 1);
      assert (16 * hi + lo) / 16 == hi && (16 * hi + lo) % 16 == lo;
      assert h[..2 * n] == h[..2 * (n - 1)] + [hi, lo];
    }
  }

  lemma {:induction false} PairsOfDigits(a: seq<byte>, n: nat)
    requires n <= |a|
    ensures Pairs(Digits(a), n) == a[..n]
  {
    if n > 0 {
      PairsOfDigits(a, n - 1);
      DigitAt(a, n - 1);
      assert a[..n] == a[..n - 1] + [a[n - 1]];
    }
  }

  lemma {:induction false} DigitAt(a: seq<byte>, i: nat)
    requires i < |a|
    ensures Digits(a)[2 * i] == a[i] / 16 && Digits(a)[2 * i + 1] == a[i] % 16
  {
    if i < |a| - 1 {
      DigitAt(a[..|a| - 1], i);
    }
  }

  // ---------------------------------------------------------------- the conversions

  /** The text that gets parsed: padded to whole bytes, or to the length asked for. */
  function PaddedHex(v: nat, padLength: nat): seq<digit> {
    var n := |ToHex(v)|;
    PadStart(ToHex(v), 2 * (if padLength == 0 then (n + 1) / 2 else padLength))
  }

  /** `bigIntToU8Array` on an integer that is not negative. */
  function ToBytes(v: nat, padLength: nat): seq<byte> {
    Pairs(PaddedHex(v, padLength), |PaddedHex(v, padLength)| / 2)
  }

  /** A text of odd length has half a byte too many: the source still writes, out of bounds. */
  method BigIntToU8Array(v: nat, padLength: nat) returns (arr: array<byte>)
    ensures fresh(arr) && arr[..] == ToBytes(v, padLength)
  {
    var hex := ToHex(v);
    var pad := padLength;
    if pad == 0 {
      pad := (|hex| + 1) / 2;
    }
    hex := PadStart(hex, pad * 2);
    arr := new byte[|hex| / 2];
    var i := 0;
    while 2 * i < |hex|
      invariant 0 <= 2 * i <= |hex| + 1
      invariant arr[..if i < arr.Length then i else arr.Length] == Pairs(hex, if i < arr.Length then i else arr.Length)
    {
      if i < arr.Length {
        arr[i] := 16 * (hex[2 * i] as int) + hex[2 * i + 1];
        assert arr[..i + 1] == arr[..i] + [arr[i]];
      }
      i := i + 1;
    }
    assert arr[..] == arr[..arr.Length];
  }

  /** `BigInt("0x")` is a syntax error, so an empty array has no value. */
  function FromBytes(a: seq<byte>): Option<nat> {
    if |a| == 0 then None else Some(BigEndian(a))
  }

  method U8ArrayToBigInt(a: seq<byte>) returns (v: Option<nat>)
    ensures v == FromBytes(a)
  {
    var hex: seq<digit> := [];
    var i := 0;
    assert a[..0] == [];
    while i < |a|
      invariant 0 <= i <= |a|
      invariant hex == Digits(a[..i])
    {
      assert a[..i + 1][..i] == a[..i];
      TwoDigits(a[i]);
      hex := hex + PadStart(ToHex(a[i]), 2);
      i := i + 1;
    }
    assert a[..|a|] == a;
    DigitsValue(a);
    v := if |hex| == 0 then None else Some(Value(hex));
  }

  lemma PaddedValue(v: nat, padLength: nat)
    ensures Value(PaddedHex(v, padLength)) == v
  {
    ToHexValue(v);
    var n := |ToHex(v)|;
    var k := 2 * if padLength == 0 then (n + 1) / 2 else padLength;
    if n < k {
      ValueZeros(k - n, ToHex(v));
    }
  }

  lemma PairsValue(h: seq<digit>)
    ensures BigEndian(Pairs(h, |h| / 2)) == if |h| % 2 == 0 then Value(h) else Value(h) / 16
  {
    var n := |h| / 2;
    DigitsOfPairs(h, n);
    DigitsValue(Pairs(h, n));
    if |h| % 2 == 0 {
      assert h[..2 * n] == h;
    } else {
      assert h[..|h| - 1] == h[..2 * n];
    }
  }

  /** How many digits an integer needs and how many bytes are asked for decide the outcome. */
  predicate WholeBytes(v: nat, padLength: nat) {
    padLength == 0 || |ToHex(v)| <= 2 * padLength || |ToHex(v)| % 2 == 0
  }

  /**
   * Writing and reading back gives the integer exactly when its text is a whole number of
   * bytes; otherwise the last digit is lost.
   */
  lemma ReadsBackExactlyWhen(v: nat, padLength: nat)
    ensures FromBytes(ToBytes(v, padLength)) == Some(v) <==> WholeBytes(v, padLength)
  {
    var h := PaddedHex(v, padLength);
    var n := |ToHex(v)|;
    PaddedValue(v, padLength);
    PaddedParity(n, padLength);
    TwoDigitsOrMore(v);
    hide ToHex, Pairs, Value, BigEndian;
    PairsValue(h);
  }

  lemma PaddedParity(n: nat, padLength: nat)
    ensures var k := 2 * (if padLength == 0 then (n + 1) / 2 else padLength);
            (if n < k then k else n) % 2 == 1 <==> !(padLength == 0 || n <= 2 * padLength || n % 2 == 0)
  {
  }

  /** Losing the last of several digits changes a number. */
  lemma TwoDigitsOrMore(v: nat)
    ensures |ToHex(v)| > 1 ==> v / 16 != v
  {
  }

  lemma {:induction false} TwoDigitsAByte(n: nat)
    ensures Pow256(n) == Pow(16, 2 * n)
  {
    if n > 0 {
      TwoDigitsAByte(n - 1);
      assert Pow(16, 2 * n) == 16 * Pow(16, 2 * n - 1);
      assert Pow(16, 2 * n - 1) == 16 * Pow(16, 2 * n - 2);
    }
  }

  /** The array has the length asked for exactly when the integer fits it. */
  lemma FitsExactlyWhen(v: nat, n: nat)
    requires n > 0
    ensures |ToBytes(v, n)| == n && FromBytes(ToBytes(v, n)) == Some(v) <==> v < Pow256(n)
  {
    TwoDigitsAByte(n);
    ToHexLength(v, 2 * n);
    ReadsBackExactlyWhen(v, n);
  }

  /** Reading an array and writing it to its own length gives it back. */
  lemma WritesBack(a: seq<byte>)
    requires |a| > 0
    ensures ToBytes(BigEndian(a), |a|) == a
  {
    var v, n := BigEndian(a), |a|;
    hide Pow, Pow256, BigEndian, Digits, Value, ToHex, Pairs;
    BigEndianBound(a);
    TwoDigitsAByte(n);
    ToHexLength(v, 2 * n);
    PaddedValue(v, n);
    DigitsValue(a);
    ValueInjective(PaddedHex(v, n), Digits(a));
    PairsOfDigits(a, n);
    assert a[..n] == a;
  }
}
