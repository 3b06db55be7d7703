/** Facts about products, quotients and remainders of integers that the solver does not find unaided. */
module Integers {

  predicate IsPow2(n: nat) {
    n == 1 || (n > 1 && n % 2 == 0 && IsPow2(n / 2))
  }

  function TwoTo(e: nat): (p: nat)
    ensures p >= 1
  {
    if e == 0 then 1 else 2 * TwoTo(e - 1)
  }

  lemma {:induction false} TwoToIsPow2(e: nat)
    ensures IsPow2(TwoTo(e))
  {
    if e > 0 {
      TwoToIsPow2(e - 1);
      assert 2 * TwoTo(e - 1) / 2 == TwoTo(e - 1);
    }
  }

  lemma Distribute(a: int, b: int, d: int)
    ensures (a - b) * d == a * d - b * d
    ensures (a + b) * d == a * d + b * d
  {
  }

  lemma {:induction false} ProductAtLeast(a: int, d: int)
    requires a >= 1 && d >= 0
    ensures a * d >= d
    decreases a
  {
    if a > 1 {
      ProductAtLeast(a - 1, d);
      Distribute(a, 1, d);
    }
  }

  lemma QuotientUnique(e: int, f: int, k: int, r: int, d: int)
    requires e * d + f == k * d + r && 0 <= f < d && 0 <= r < d
    ensures e == k && f == r
  {
    if e > k {
      Distribute(e, k, d);
      ProductAtLeast(e - k, d);
    } else if e < k {
      Distribute(k, e, d);
      ProductAtLeast(k - e, d);
    }
  }

  lemma ModUnique(x: int, d: int, k: int, r: int)
    requires d > 0 && x == k * d + r && 0 <= r < d
    ensures x % d == r && x / d == k
  {
    QuotientUnique(x / d, x % d, k, r, d);
  }

  /** A full block of m positions lies between the start of block b and n = c m. */
  lemma BlockFits(b: int, c: int, m: int, r: int)
    requires m > 0 && b * m + r < c * m && 0 <= r
    ensures b < c && b * m + m <= c * m
  {
    if b >= c {
      Distribute(b, c, m);
      if b > c {
        ProductAtLeast(b - c, m);
      }
    } else if b + 1 < c {
      Distribute(c, b, m);
      ProductAtLeast(c - b, m);
    }
  }

  lemma DivMod(x: int, d: int)
    requires x >= 0 && d > 0
    ensures x / d >= 0 && 0 <= x % d < d && x == (x / d) * d + x % d
  {
  }

  /** Adding the divisor keeps the remainder, and nothing closer does. */
  lemma ModStep(x: int, m: int)
    requires x >= 0 && m > 0
    ensures (x + m) % m == x % m
  {
    DivMod(x, m);
    Distribute(x / m, 1, m);
    ModUnique(x + m, m, x / m + 1, x % m);
  }

  lemma ModGap(x: int, y: int, m: int)
    requires 0 <= x <= y < x + m && x % m == y % m
    ensures x == y
  {
    DivMod(x, m);
    DivMod(y, m);
    Distribute(y / m, x / m, m);
    if y / m > x / m {
      ProductAtLeast(y / m - x / m, m);
    } else if y / m < x / m {
      Distribute(x / m, y / m, m);
      ProductAtLeast(x / m - y / m, m);
    }
  }
}
