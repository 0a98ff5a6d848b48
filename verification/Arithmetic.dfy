/** Facts about quotients, remainders and powers of two that the arithmetic models need. */
module Arithmetic {

  lemma Apart(x: int, y: int, d: int)
    requires x < y && d > 0
    ensures x * d + d <= y * d
  {
    var n := y - x - 1;
    assert n * d >= 0;
    assert y * d == x * d + d + n * d;
  }

  lemma UniqueQuotient(a: int, d: int, q: int, r: int)
    requires d > 0 && a == q * d + r && 0 <= r < d
    ensures a / d == q
  {
    var e := a / d;
    assert a == e * d + a % d;
    if e < q {
      Apart(e, q, d);
    } else if q < e {
      Apart(q, e, d);
    }
  }

  lemma DivIsNat(a: nat, b: nat)
    requires b >= 1
    ensures a / b >= 0
  {
    if a / b < 0 {
      Apart(a / b, 0, b);
    }
  }

  lemma MultipleMod(p: nat, z: int)
    requires p >= 1
    ensures (p * z) % p == 0
  {
    UniqueQuotient(p * z, p, z, 0);
    assert p * z == p * ((p * z) / p) + (p * z) % p;
  }

  lemma MultipleOf(n: int, p: nat)
    requires p >= 1 && n % p == 0
    ensures n == p * (n / p)
  {
  }

  lemma ModOfSum(a: int, b: int, g: nat)
    requires g >= 1 && b % g == 0
    ensures (a + b) % g == a % g
  {
    MultipleOf(b, g);
    var m := b / g;
    assert a + b == g * (a / g + m) + a % g;
    UniqueQuotient(a + b, g, a / g + m, a % g);
  }

  lemma ModIsAtMost(n: nat, g: nat)
    requires g >= 1
    ensures n % g <= n
  {
    DivIsNat(n, g);
    assert n == g * (n / g) + n % g;
    assert g * (n / g) >= 0;
  }

  // ---------------------------------------------------------------------------
  // Powers of two
  // ---------------------------------------------------------------------------

  predicate IsPowerOfTwo(n: nat) {
    n == 1 || (n > 0 && n % 2 == 0 && IsPowerOfTwo(n / 2))
  }

  function PowerOfTwo(n: nat): (p: nat)
    ensures p > 0 && IsPowerOfTwo(p)
  {
    if n == 0 then 1 else 2 * PowerOfTwo(n - 1)
  }

  /** The power of two and the odd factor of a positive number. */
  function OddPart(l: nat): (split: (nat, nat))
    requires l > 0
    ensures IsPowerOfTwo(split.0) && split.1 % 2 == 1 && l == split.0 * split.1 && 1 <= split.0 <= l
  {
    if l % 2 == 1 then (1, l)
    else
      var (p, o) := OddPart(l / 2);
      assert l == 2 * (p * o);
      (2 * p, o)
  }

  /** Of two powers of two, the smaller one divides the larger one, and the quotient is one too. */
  lemma {:induction false} PowersDivide(p: nat, q: nat) returns (c: nat)
    requires IsPowerOfTwo(p) && IsPowerOfTwo(q) && p <= q
    ensures q == p * c && IsPowerOfTwo(c)
  {
    if p == 1 {
      c := q;
    } else {
      c := PowersDivide(p / 2, q / 2);
      assert q == 2 * (p / 2 * c);
    }
  }

  /** An odd number has an inverse modulo every power of two. */
  lemma {:induction false} OddInverse(o: nat, c: nat) returns (u: nat, q: nat)
    requires o % 2 == 1 && IsPowerOfTwo(c)
    ensures o * u == 1 + q * c
  {
    if c == 1 {
      u, q := 1, o - 1;
    } else {
      var h := c / 2;
      u, q := OddInverse(o, h);
      if q % 2 == 1 {
        AddHalf(o, u, q, h);
        u, q := u + h, q + o;
      }
      HalveAndDouble(q, h);
      q := q / 2;
    }
  }

  lemma AddHalf(o: int, u: int, q: int, h: int)
    requires o * u == 1 + q * h
    ensures o * (u + h) == 1 + (q + o) * h
  {
  }

  lemma HalveAndDouble(q: int, h: int)
    requires q % 2 == 0
    ensures q * h == q / 2 * (2 * h)
  {
    assert q == 2 * (q / 2);
  }
}
