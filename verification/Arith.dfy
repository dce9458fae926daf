/** Division, remainders and powers: the arithmetic facts the solver does not find alone. */
module Arith {

  lemma MulLe(a: int, b: int, m: nat)
    requires a <= b
    ensures m * a <= m * b
  {
  }

  lemma Distribute(a: int, b: int, c: int)
    ensures (a + b) * c == a * c + b * c
  {
  }

  lemma Associate(a: int, b: int, c: int)
    ensures (a * b) * c == a * (b * c)
  {
  }

  lemma ProductPositive(a: nat, b: nat)
    requires a * b > 0
    ensures a > 0 && b > 0
  {
  }

  /** Quotient and remainder are determined by the usual equation. */
  lemma DivModUnique(a: int, m: int, k: int, r: int)
    requires m > 0 && a == m * k + r && 0 <= r < m
    ensures a / m == k && a % m == r
  {
    var k' := a / m;
    assert m * (k + 1) == m * k + m && m * (k' + 1) == m * k' + m;
    if k < k' {
      MulLe(k + 1, k', m);
    } else if k' < k {
      MulLe(k' + 1, k, m);
    }
  }

  lemma ModAddMultiple(a: int, k: int, m: int)
    requires m > 0
    ensures (a + m * k) % m == a % m
  {
    assert a + m * k == m * (a / m + k) + a % m;
    DivModUnique(a + m * k, m, a / m + k, a % m);
  }

  lemma ModAdd(a: int, b: int, m: int)
    requires m > 0
    ensures (a + b) % m == (a % m + b) % m
  {
    assert a + b == (a % m + b) + m * (a / m);
    ModAddMultiple(a % m + b, a / m, m);
  }

  /** A factor may be reduced before a product is. */
  lemma ModMul(a: int, b: int, m: int)
    requires m > 0
    ensures (a % m) * b % m == a * b % m
  {
    var k := a / m;
    assert a * b == (a % m) * b + m * (k * b) by {
      assert a == m * k + a % m;
      assert (m * k) * b == m * (k * b);
    }
    ModAddMultiple((a % m) * b, k * b, m);
  }

  function Pow(b: int, e: nat): int
  {
    if e == 0 then 1 else b * Pow(b, e - 1)
  }

  lemma {:induction false} PowPositive(b: int, e: nat)
    requires b > 0
    ensures Pow(b, e) > 0
  {
    if e > 0 {
      PowPositive(b, e - 1);
    }
  }

  lemma {:induction false} PowAdd(b: int, e1: nat, e2: nat)
    ensures Pow(b, e1 + e2) == Pow(b, e1) * Pow(b, e2)
  {
    if e1 > 0 {
      PowAdd(b, e1 - 1, e2);
      var x, y := Pow(b, e1 - 1), Pow(b, e2);
      assert b * (x * y) == (b * x) * y;
    }
  }

  lemma {:induction false} PowMul(b: int, e1: nat, e2: nat)
    ensures Pow(Pow(b, e1), e2) == Pow(b, e1 * e2)
  {
    if e2 > 0 {
      PowMul(b, e1, e2 - 1);
      assert e1 * e2 == e1 + e1 * (e2 - 1);
      PowAdd(b, e1, e1 * (e2 - 1));
    }
  }

  lemma {:induction false} PowMod(b: int, e: nat, m: int)
    requires m > 0
    ensures Pow(b % m, e) % m == Pow(b, e) % m
  {
    if e > 0 {
      PowMod(b, e - 1, m);
      var x, y := Pow(b % m, e - 1), Pow(b, e - 1);
      calc {
        (b % m) * x % m;
        { ModMul(b, x, m); }
        b * x % m;
        { ModMul(x, b, m); assert b * x == x * b; }
        (x % m) * b % m;
        { ModMul(y, b, m); assert b * y == y * b; }
        b * y % m;
      }
    }
  }

  lemma {:induction false} PowMonotone(b: nat, e1: nat, e2: nat)
    requires b > 0 && e1 <= e2
    ensures Pow(b, e1) <= Pow(b, e2)
    decreases e2 - e1
  {
    if e1 < e2 {
      PowMonotone(b, e1 + 1, e2);
      PowPositive(b, e1);
      MulLe(1, b, Pow(b, e1));
    }
  }

  lemma DivLt(a: nat, m: int, n: nat)
    requires m > 0 && a < m * n
    ensures a / m < n
  {
    if a / m >= n {
      MulLe(n, a / m, m);
    }
  }

  /** Dividing by a product is dividing twice. */
  lemma DivDiv(a: int, m: int, n: int)
    requires m > 0 && n > 0
    ensures m * n > 0 && a / m / n == a / (m * n)
    ensures a % (m * n) == m * (a / m % n) + a % m
  {
    var q, r := a / m, a % m;
    var k, s := q / n, q % n;
    assert a == m * (n * k + s) + r;
    assert m * (n * k) == (m * n) * k;
    MulLe(1, n, m);
    MulLe(s, n - 1, m);
    assert a == (m * n) * k + (m * s + r);
    assert m * (n - 1) == m * n - m;
    DivModUnique(a, m * n, k, m * s + r);
  }
}
