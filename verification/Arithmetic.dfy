/** The arithmetic that backoffs, pauses and buckets share. */
module Arithmetic {

  function Min(a: real, b: real): real {
    if b < a then b else a
  }

  function Pow2(n: nat): (r: nat)
    ensures r >= 1
  {
    if n == 0 then 1 else 2 * Pow2(n - 1)
  }

  lemma {:induction false} Pow2Grows(m: nat, n: nat)
    requires m <= n
    ensures Pow2(m) <= Pow2(n)
    decreases n
  {
    if m < n {
      Pow2Grows(m, n - 1);
    }
  }

  /** `x`, doubled `n` times. */
  function Doubled(x: real, n: nat): real {
    x * Pow2(n) as real
  }

  lemma DoubledNever(x: real)
    ensures Doubled(x, 0) == x
  {
  }

  lemma DoubledAgain(x: real, n: nat)
    ensures Doubled(x, n + 1) == 2.0 * Doubled(x, n)
  {
    var p := Pow2(n) as real;
    assert Pow2(n + 1) as real == 2.0 * p;
    assert x * (2.0 * p) == 2.0 * (x * p);
  }

  /** Doubling never loses ground. */
  lemma DoublingGrows(x: real, m: nat, n: nat)
    requires x >= 0.0 && m <= n
    ensures Doubled(x, m) <= Doubled(x, n)
  {
    Pow2Grows(m, n);
    var p, q := Pow2(m) as real, Pow2(n) as real;
    ProductSign(x, q - p);
    assert x * (q - p) == x * q - x * p;
  }

  lemma ProductSign(x: real, y: real)
    requires x >= 0.0 && y >= 0.0
    ensures x * y >= 0.0
  {
  }

  lemma QuotientSign(x: real, y: real)
    requires x > 0.0 && y > 0.0
    ensures x / y > 0.0
  {
  }

  // ---- division -----------------------------------------------------------

  lemma MultiplyAtLeast(k: int, d: int)
    requires k >= 1 && d > 0
    ensures k * d >= d
  {
    assert (k - 1) * d >= 0;
  }

  lemma DivisionIsUnique(x: int, d: int, q: int)
    requires d > 0 && q * d <= x < q * d + d
    ensures x / d == q && x % d == x - q * d
  {
    var p := x / d;
    assert p * d <= x < p * d + d;
    if p > q {
      assert (p - q) * d == p * d - q * d;
      MultiplyAtLeast(p - q, d);
    } else if p < q {
      assert (q - p) * d == q * d - p * d;
      MultiplyAtLeast(q - p, d);
    }
  }

  lemma RemainderOf(x: int, d: int, q: int, r: int)
    requires d > 0 && x == q * d + r && 0 <= r < d
    ensures x % d == r
  {
    DivisionIsUnique(x, d, q);
  }

  lemma MultipleHasNoRemainder(q: int, d: int)
    requires d > 0
    ensures (q * d) % d == 0
  {
    DivisionIsUnique(q * d, d, q);
  }

  lemma OppositeMultiple(x: int, d: int)
    requires d > 0
    ensures x % d == 0 <==> (-x) % d == 0
  {
    var q, r := x / d, (-x) / d;
    assert x == q * d + x % d && -x == r * d + (-x) % d;
    if x % d == 0 {
      assert (-q) * d == -(q * d);
      MultipleHasNoRemainder(-q, d);
    } else if (-x) % d == 0 {
      assert (-r) * d == -(r * d);
      MultipleHasNoRemainder(-r, d);
    }
  }

  lemma SameProduct(p: int, q: int, d: int)
    requires d > 0 && p != q
    ensures p * d != q * d
  {
    var k := if p > q then p - q else q - p;
    assert k * d == if p > q then p * d - q * d else q * d - p * d;
    MultiplyAtLeast(k, d);
  }

  function Gcd(a: nat, b: nat): (g: nat)
    ensures a > 0 || b > 0 ==> g >= 1
    decreases b
  {
    if b == 0 then a else Gcd(b, a % b)
  }

  lemma CommonFactor(j: int, p: int, k: int, q: int, g: int)
    ensures j * (p * g) + k * (q * g) == (j * p + k * q) * g
  {
  }

  lemma {:induction false} GcdDivides(a: nat, b: nat) returns (p: nat, q: nat)
    ensures a == p * Gcd(a, b) && b == q * Gcd(a, b)
    decreases b
  {
    if b == 0 {
      p, q := 1, 0;
    } else {
      var m, n := GcdDivides(b, a % b);
      var k := a / b;
      CommonFactor(k, m, 1, n, Gcd(b, a % b));
      p, q := k * m + n, m;
    }
  }

  /** A multiple of `g` is not positive, or no smaller than `g`. */
  lemma MultipleNotBetween(c: int, g: int)
    requires g > 0
    ensures c * g <= 0 || c * g >= g
  {
    if c >= 1 {
      MultiplyAtLeast(c, g);
    } else {
      assert (0 - c) * g >= 0;
    }
  }

  lemma NoSmallCombination(a: nat, b: nat, j: int, k: int)
    requires a > 0
    ensures var x := j * a + k * b; x <= 0 || x >= Gcd(a, b)
  {
    var p, q := GcdDivides(a, b);
    CommonFactor(j, p, k, q, Gcd(a, b));
    MultipleNotBetween(j * p + k * q, Gcd(a, b));
  }

  lemma Regroup(a: int, b: int, k: int, x: int, y: int)
    ensures b * x + (a - k * b) * y == a * y + b * (x - k * y)
  {
  }

  /** Bezout: the greatest common divisor is a combination of the two. */
  lemma {:induction false} GcdCombines(a: nat, b: nat) returns (u: int, v: int)
    ensures a * u + b * v == Gcd(a, b)
    decreases b
  {
    if b == 0 {
      u, v := 1, 0;
    } else {
      var x, y := GcdCombines(b, a % b);
      Regroup(a, b, a / b, x, y);
      u, v := y, x - a / b * y;
    }
  }
}
