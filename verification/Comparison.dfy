/**
 Compiler/comparison.py: remainders, truncation and comparison of secret integers modulo a prime p,
 for every choice of the random masks. A register stands for the residue of its integer; only
 opening and division look at the residue itself.
 */
module Comparison {
  import opened Bits
  import opened Integers
  import opened PrimeField

  // ---------- residues ----------

  /** The register x holds the integer n. */
  ghost predicate Holds(p: nat, x: int, n: int)
    requires p > 0
  {
    x % p == n % p
  }

  function Opened(p: nat, x: int): nat
    requires p > 0
  {
    x % p
  }

  lemma OpenedIs(p: nat, x: int, n: int)
    requires p > 0 && Holds(p, x, n) && 0 <= n < p
    ensures Opened(p, x) == n
  {
    ModUnique(n, p, 0, n);
  }

  lemma HoldsSum(p: nat, x: int, n: int, y: int, m: int)
    requires p > 0 && Holds(p, x, n) && Holds(p, y, m)
    ensures Holds(p, x + y, n + m) && Holds(p, x - y, n - m)
  {
    ModAdd(x, y, p);
    ModAdd(n, y, p);
    ModAdd(y, n, p);
    ModAdd(m, n, p);
    ModAdd(x, -y, p);
    ModAdd(n, -y, p);
    ModNeg(y, m, p);
    ModAdd(-y, n, p);
    ModAdd(-m, n, p);
  }

  lemma ModNeg(y: int, m: int, p: int)
    requires p > 0 && y % p == m % p
    ensures (-y) % p == (-m) % p
  {
    ModMul(y, -1, p);
    ModMul(m, -1, p);
  }

  lemma HoldsProduct(p: nat, x: int, n: int, y: int, m: int)
    requires p > 0 && Holds(p, x, n) && Holds(p, y, m)
    ensures Holds(p, x * y, n * m)
  {
    ModMul(x, y, p);
    ModMul(n, y, p);
    ModMul(y, n, p);
    ModMul(m, n, p);
    assert n * y == y * n;
  }

  /** Division by an invertible number undoes the multiplication. */
  lemma Divides(p: nat, x: int, n: int, d: int, i: int)
    requires p > 0 && Holds(p, x, n * d) && Holds(p, d * i, 1)
    ensures Holds(p, x * i, n)
  {
    HoldsProduct(p, x, n * d, i, i);
    HoldsProduct(p, n, n, d * i, 1);
    assert (n * d) * i == n * (d * i);
  }

  /** 1 / 2^m. */
  function InversePower(p: nat, m: nat): int
    requires p > 1
  {
    InvMod(p, TwoTo(m))
  }

  lemma PowerInverts(p: nat, m: nat)
    requires IsPrime(p) && TwoTo(m) < p
    ensures Holds(p, TwoTo(m) * InversePower(p, m), 1)
  {
    InvModInverts(p, TwoTo(m));
    ModUnique(1, p, 0, 1);
  }

  // ---------- masks ----------

  /** The loops of PRandInt and PRandM: the number with the drawn bits. */
  method Compose(b: seq<int>) returns (r: int)
    requires b != []
    ensures r == Value(b)
  {
    var i := |b| - 1;
    r := b[i];
    assert b[i..] == [b[i]] && b[i..][1..] == [];
    while i > 0
      invariant 0 <= i < |b| && r == Value(b[i..])
    {
      i := i - 1;
      r := r + r + b[i];
      assert b[i..][1..] == b[i + 1..];
    }
    assert b[0..] == b;
  }

  /** The random bits of one mask: those of r_dprime and those of r_prime. */
  datatype Mask = Mask(high: seq<int>, low: seq<int>)

  ghost predicate IsMask(x: Mask, k: nat, m: nat, kappa: nat) {
    && AreBits(x.high) && AreBits(x.low)
    && 0 < m <= k && |x.low| == m && |x.high| == k + kappa - m && |x.high| > 0
  }

  /** What is opened is masked without wrapping around the modulus. */
  lemma MaskFits(p: nat, n: int, k: nat, m: nat, kappa: nat, x: Mask)
    requires IsMask(x, k, m, kappa) && p > TwoTo(k + kappa + 1) && 0 <= n < TwoTo(k)
    ensures 0 <= n + TwoTo(m) * Value(x.high) + Value(x.low) < p
  {
    ValueBounds(x.high);
    ValueBounds(x.low);
    TwoToAdd(m, k + kappa - m);
    TwoToAdd(k, kappa);
    ProductAtLeast(TwoTo(kappa), TwoTo(k));
    SumBound(n, TwoTo(k), TwoTo(m), TwoTo(k + kappa - m), Value(x.high), Value(x.low));
  }

  lemma SumBound(n: int, k: int, m: int, t: int, h: int, l: int)
    requires 0 <= n < k && 0 <= h < t && 0 <= l < m
    ensures 0 <= n + m * h + l < k + m * t
  {
    Distribute(t, h, m);
    ProductAtLeast(t - h, m);
    assert h * m == m * h && t * m == m * t;
    if h > 0 {
      ProductAtLeast(h, m);
    }
  }

  // ---------- the bits of an opened number ----------

  function BitsOf(a: nat, k: nat): (b: seq<int>)
    ensures |b| == k && AreBits(b)
  {
    if k == 0 then [] else [a % 2] + BitsOf(a / 2, k - 1)
  }

  lemma {:induction false} BitsValue(a: nat, k: nat)
    ensures Value(BitsOf(a, k)) == a % TwoTo(k)
  {
    if k == 0 {
      ModUnique(a, 1, a, 0);
    } else {
      BitsValue(a / 2, k - 1);
      var t := TwoTo(k - 1);
      DivMod(a / 2, t);
      var q, r := (a / 2) / t, (a / 2) % t;
      assert a == 2 * (q * t + r) + a % 2;
      assert 2 * (q * t) == q * (2 * t);
      ModUnique(a, 2 * t, q, 2 * r + a % 2);
    }
  }

  lemma {:induction false} BitsSnoc(a: nat, k: nat)
    ensures BitsOf(a, k + 1) == BitsOf(a, k) + [(a / TwoTo(k)) % 2]
  {
    if k == 0 {
      ModUnique(a, 1, a, 0);
    } else {
      BitsSnoc(a / 2, k - 1);
      DivDiv(a, TwoTo(k - 1));
    }
  }

  lemma DivDiv(a: nat, t: nat)
    requires t > 0
    ensures (a / 2) / t == a / (2 * t)
  {
    DivMod(a / 2, t);
    var q, r := (a / 2) / t, (a / 2) % t;
    assert a == 2 * (q * t + r) + a % 2;
    assert 2 * (q * t) == q * (2 * t);
    ModUnique(a, 2 * t, q, 2 * r + a % 2);
  }

  /** The bits of a clear register, by halving modulo p. */
  method ClearBits(p: nat, a: nat, k: nat) returns (b: seq<int>)
    requires IsPrime(p) && p > 2 && a < p && k > 0
    ensures b == BitsOf(a, k)
  {
    b := [a % 2];
    var c: nat := a;
    ModUnique(a, 1, a, 0);
    BitsSnoc(a, 0);
    for i := 1 to k
      invariant |b| == i && b == BitsOf(a, i) && c == a / TwoTo(i - 1) && c < p && b[i - 1] == c % 2
    {
      Half(p, c);
      DivDiv2(a, TwoTo(i - 1));
      BitsSnoc(a, i);
      c := Opened(p, (c - b[i - 1]) * InversePower(p, 1));
      b := b + [c % 2];
    }
  }

  lemma DivDiv2(a: nat, t: nat)
    requires t > 0
    ensures (a / t) / 2 == a / (2 * t)
  {
    DivMod(a, t);
    var q, r := a / t, a % t;
    assert q == 2 * (q / 2) + q % 2;
    assert a == (2 * (q / 2) + q % 2) * t + r;
    assert (2 * (q / 2)) * t == (q / 2) * (2 * t);
    Distribute(2 * (q / 2), -(q % 2), t);
    assert 0 <= (q % 2) * t + r < 2 * t;
    ModUnique(a, 2 * t, q / 2, (q % 2) * t + r);
  }

  lemma Half(p: nat, c: nat)
    requires IsPrime(p) && p > 2 && c < p
    ensures Opened(p, (c - c % 2) * InversePower(p, 1)) == c / 2
  {
    assert TwoTo(1) == 2 * TwoTo(0) == 2;
    PowerInverts(p, 1);
    Divides(p, c - c % 2, c / 2, 2, InversePower(p, 1));
    OpenedIs(p, (c - c % 2) * InversePower(p, 1), c / 2);
  }

  // ---------- products of prefixes ----------

  function Product(a: seq<int>, n: nat): int
    requires n <= |a|
  {
    if n == 0 then 1 else Product(a, n - 1) * a[n - 1]
  }

  ghost predicate Inverses(p: nat, r: seq<int>, z: seq<int>)
    requires p > 0
  {
    |r| == |z| && forall i :: 0 <= i < |r| ==> Holds(p, r[i] * z[i], 1)
  }

  /** r[j] a[j] / r[j - 1] */
  function Factor(a: seq<int>, r: seq<int>, z: seq<int>, j: nat): int
    requires j < |a| == |r| == |z|
  {
    (if j == 0 then r[0] else r[j] * z[j - 1]) * a[j]
  }

  /** The opened values telescope. */
  ghost predicate Telescopes(p: nat, a: seq<int>, r: seq<int>, z: seq<int>, m: seq<int>)
    requires p > 0
  {
    && |a| == |r| == |z| == |m|
    && forall j :: 0 <= j < |a| ==> Holds(p, m[j], Factor(a, r, z, j))
  }

  /** Opens the factors. */
  method OpenFactors(p: nat, a: seq<int>, r: seq<int>, z: seq<int>) returns (m: seq<int>)
    requires p > 0 && |r| == |z| == |a|
    ensures Telescopes(p, a, r, z, m)
  {
    m := [];
    for i := 0 to |a|
      invariant |m| == i && forall j :: 0 <= j < i ==> Holds(p, m[j], Factor(a, r, z, j))
    {
      var x := Factor(a, r, z, i);
      HoldsOpened(p, x);
      m := m + [Opened(p, x)];
    }
  }

  lemma HoldsOpened(p: nat, x: int)
    requires p > 0
    ensures Holds(p, Opened(p, x), x)
  {
    ModMul(x, 1, p);
  }

  lemma TelescopeStep(p: nat, c: int, m: int, r0: int, z0: int, r: int, q: int, a: int)
    requires p > 0 && Holds(p, c, r0 * q) && Holds(p, m, (r * z0) * a) && Holds(p, r0 * z0, 1)
    ensures Holds(p, c * m, r * (q * a))
  {
    HoldsProduct(p, c, r0 * q, m, (r * z0) * a);
    assert (r0 * q) * ((r * z0) * a) == (r * (q * a)) * (r0 * z0);
    HoldsProduct(p, r * (q * a), r * (q * a), r0 * z0, 1);
  }

  method PreMulCEnd(p: nat, a: seq<int>, m: seq<int>, z: seq<int>, ghost r: seq<int>) returns (out: seq<int>)
    requires p > 0 && a != [] && Telescopes(p, a, r, z, m)
    requires forall i :: 0 <= i < |r| ==> Holds(p, r[i] * z[i], 1)
    ensures |out| == |a| && forall j :: 0 <= j < |a| ==> Holds(p, out[j], Product(a, j + 1))
  {
    var c := m[0];
    out := [a[0]];
    assert Product(a, 1) == Product(a, 0) * a[0];
    for j := 1 to |a|
      invariant |out| == j && Holds(p, c, r[j - 1] * Product(a, j))
      invariant forall i :: 0 <= i < j ==> Holds(p, out[i], Product(a, i + 1))
    {
      assert Holds(p, m[j], Factor(a, r, z, j));
      TelescopeStep(p, c, m[j], r[j - 1], z[j - 1], r[j], Product(a, j), a[j]);
      HoldsOpened(p, c * m[j]);
      c := Opened(p, c * m[j]);
      Unmask(p, z[j], c, r[j], Product(a, j + 1));
      out := out + [z[j] * c];
    }
  }

  lemma Unmask(p: nat, z: int, c: int, r: int, q: int)
    requires p > 0 && Holds(p, c, r * q) && Holds(p, r * z, 1)
    ensures Holds(p, z * c, q)
  {
    assert r * q == q * r && z * c == c * z;
    Divides(p, c, q, r, z);
  }

  /** With inverses from the preprocessing. */
  method PreMulCWithInverses(p: nat, a: seq<int>, r: seq<int>, z: seq<int>) returns (out: seq<int>)
    requires p > 0 && a != [] && |r| == |a| && Inverses(p, r, z)
    ensures |out| == |a| && forall j :: 0 <= j < |a| ==> Holds(p, out[j], Product(a, j + 1))
  {
    var m := OpenFactors(p, a, r, z);
    out := PreMulCEnd(p, a, m, z, r);
  }

  /** With inverses from opened products of random pairs. */
  method PreMulCWithoutInverses(p: nat, a: seq<int>, s: seq<int>, r: seq<int>) returns (out: seq<int>)
    requires IsPrime(p) && a != [] && |s| == |r| == |a|
    requires forall i :: 0 <= i < |a| ==> (s[i] * r[i]) % p != 0
    ensures |out| == |a| && forall j :: 0 <= j < |a| ==> Holds(p, out[j], Product(a, j + 1))
  {
    var z: seq<int> := [];
    for i := 0 to |a|
      invariant |z| == i && forall j :: 0 <= j < i ==> Holds(p, r[j] * z[j], 1)
    {
      var u := Opened(p, s[i] * r[i]);
      PairInverts(p, s[i], r[i]);
      z := z + [s[i] * InvMod(p, u)];
    }
    var m := OpenFactors(p, a, r, z);
    out := PreMulCEnd(p, a, m, z, r);
  }

  lemma PairInverts(p: nat, s: int, r: int)
    requires IsPrime(p) && (s * r) % p != 0
    ensures Holds(p, r * (s * InvMod(p, (s * r) % p)), 1)
  {
    var u := (s * r) % p;
    var i := InvMod(p, u);
    InvModInverts(p, u);
    ModMul(s * r, i, p);
    Reordered(r, s, i);
    ModUnique(1, p, 0, 1);
  }

  lemma Reordered(r: int, s: int, i: int)
    ensures r * (s * i) == (s * r) * i
  {
    assert r * (s * i) == (r * s) * i;
  }

  // ---------- the lowest bit ----------

  /** A secret integer of k bits, with or without sign. */
  predicate InRange(n: int, k: nat, signed: bool) {
    if signed then k > 0 && 0 <= n + TwoTo(k - 1) < TwoTo(k) else 0 <= n < TwoTo(k)
  }

  function Shift(k: nat, signed: bool): int {
    if signed && k > 0 then TwoTo(k - 1) else 0
  }

  /** What is opened holds the shifted integer under the mask, exactly. */
  lemma OpenedPlus(p: nat, a: int, n: int, t: int)
    requires p > 0 && Holds(p, a, n) && 0 <= n + t < p
    ensures Opened(p, a + t) == n + t
  {
    HoldsSum(p, a, n, t, t);
    OpenedIs(p, a + t, n + t);
  }

  lemma OpenedMasked(p: nat, a: int, n: int, k: nat, m: nat, kappa: nat, signed: bool, x: Mask)
    requires p > TwoTo(k + kappa + 1) && IsMask(x, k, m, kappa) && Holds(p, a, n) && InRange(n, k, signed)
    ensures Opened(p, TwoTo(m) * Value(x.high) + (a + Shift(k, signed)) + Value(x.low))
         == (n + Shift(k, signed)) + TwoTo(m) * Value(x.high) + Value(x.low)
  {
    var t := TwoTo(m) * Value(x.high) + Shift(k, signed) + Value(x.low);
    assert 0 <= n + Shift(k, signed) < TwoTo(k);
    MaskFits(p, n + Shift(k, signed), k, m, kappa, x);
    OpenedPlus(p, a, n, t);
  }

  method Mod2(p: nat, a: int, ghost n: int, k: nat, kappa: nat, signed: bool, x: Mask) returns (r: int)
    requires IsPrime(p) && p > TwoTo(k + kappa + 1) && Holds(p, a, n)
    requires k > 1 ==> IsMask(x, k, 1, kappa)
    ensures k <= 1 ==> r == a
    ensures k > 1 && InRange(n, k, signed) ==> r == n % 2
    ensures k > 1 && !signed && n < 0 <= n + TwoTo(k) ==> r == if Covers(x, n) then n % 2 else 1 - n % 2
  {
    if k <= 1 {
      return a;
    }
    var high := Compose(x.high);
    var low := Compose(x.low);
    var t0 := high * 2;
    var t1 := if signed then a + TwoTo(k - 1) else a;
    var c := Opened(p, t0 + t1 + low);
    var c0 := c % 2;
    var tc := c0 * 2;
    r := low + c0 - low * tc;
    LowestBit(p, a, n, k, kappa, signed, x, c);
    Times(tc, low);
  }

  /** The mask makes the negative integer n non-negative. */
  predicate Covers(x: Mask, n: int) {
    n + 2 * Value(x.high) + Value(x.low) >= 0
  }

  /** The lowest bit after the opened c with lowest bit c0 and the mask bit l. */
  function LowBit(l: int, c0: int): int {
    l + c0 - if l == 1 then c0 * 2 else 0
  }

  /** For every negative integer some mask does not cover it, so only the others are safe to be rounded
      by one bit. */
  lemma SomeUncovered(n: int, k: nat, kappa: nat) returns (x: Mask)
    requires n < 0 && k + kappa > 1 && k >= 1
    ensures IsMask(x, k, 1, kappa) && !Covers(x, n)
  {
    x := Mask(seq(k + kappa - 1, _ => 0), [0]);
    ValueZero(x.high);
    ValueZero(x.low);
  }

  lemma {:induction false} ValueZero(b: seq<int>)
    requires forall i :: 0 <= i < |b| ==> b[i] == 0
    ensures Value(b) == 0
  {
    if b != [] {
      ValueZero(b[1..]);
    }
  }

  lemma LowestBit(p: nat, a: int, n: int, k: nat, kappa: nat, signed: bool, x: Mask, c: nat)
    requires IsPrime(p) && p > TwoTo(k + kappa + 1) && Holds(p, a, n) && k > 1 && IsMask(x, k, 1, kappa)
    requires c == Opened(p, Value(x.high) * 2 + (a + Shift(k, signed)) + Value(x.low))
    ensures Value(x.low) == 0 || Value(x.low) == 1
    ensures InRange(n, k, signed) ==> LowBit(Value(x.low), c % 2) == n % 2
    ensures !signed && n < 0 <= n + TwoTo(k) ==>
      LowBit(Value(x.low), c % 2) == if Covers(x, n) then n % 2 else 1 - n % 2
  {
    OneBit(x.low);
    if InRange(n, k, signed) {
      LowestInRange(p, a, n, k, kappa, signed, x, c);
    } else if !signed && n < 0 <= n + TwoTo(k) {
      OpenedNegative(p, a, n, k, kappa, x);
      OddPrime(p, k + kappa);
      LowestWrapped(p, n, Value(x.high), Value(x.low), c, Covers(x, n));
    }
  }

  lemma OneBit(b: seq<int>)
    requires |b| == 1 && AreBits(b)
    ensures Value(b) == b[0] && (b[0] == 0 || b[0] == 1)
  {
    assert b[1..] == [];
  }

  lemma LowestWrapped(p: nat, n: int, h: int, l: int, c: int, covered: bool)
    requires p % 2 == 1 && (l == 0 || l == 1) && c == (if covered then 0 else p) + n + 2 * h + l
    ensures LowBit(l, c % 2) == if covered then n % 2 else 1 - n % 2
  {
    ParityUnmasked(if covered then n else n + p, 0, h, l, c % 2);
  }

  lemma LowestInRange(p: nat, a: int, n: int, k: nat, kappa: nat, signed: bool, x: Mask, c: nat)
    requires p > TwoTo(k + kappa + 1) && Holds(p, a, n) && k > 1 && IsMask(x, k, 1, kappa) && InRange(n, k, signed)
    requires c == Opened(p, Value(x.high) * 2 + (a + Shift(k, signed)) + Value(x.low))
    requires Value(x.low) == 0 || Value(x.low) == 1
    ensures LowBit(Value(x.low), c % 2) == n % 2
  {
    assert TwoTo(1) == 2 * TwoTo(0) == 2;
    OpenedMasked(p, a, n, k, 1, kappa, signed, x);
    assert signed ==> Shift(k, signed) == 2 * TwoTo(k - 2);
    ParityUnmasked(n, if signed then TwoTo(k - 2) else 0, Value(x.high), Value(x.low), c % 2);
  }

  lemma OddPrime(p: nat, n: nat)
    requires IsPrime(p) && p > TwoTo(n + 1)
    ensures p % 2 == 1
  {
    TwoAtLeast(n);
    assert p % 2 != 0;
  }

  /** A negative integer that the mask does not cover is opened with the modulus added. */
  lemma OpenedNegative(p: nat, a: int, n: int, k: nat, kappa: nat, x: Mask)
    requires p > TwoTo(k + kappa + 1) && Holds(p, a, n) && IsMask(x, k, 1, kappa) && n < 0 <= n + TwoTo(k)
    ensures Opened(p, Value(x.high) * 2 + a + Value(x.low))
         == (if Covers(x, n) then 0 else p) + n + 2 * Value(x.high) + Value(x.low)
  {
    assert TwoTo(1) == 2 * TwoTo(0) == 2;
    MaskFits(p, 0, k, 1, kappa, x);
    Monotone(k, k + kappa + 1);
    ValueBounds(x.high);
    ValueBounds(x.low);
    OpenedShifted(p, a, n, 2 * Value(x.high) + Value(x.low));
  }

  lemma OpenedShifted(p: nat, a: int, n: int, t: int)
    requires p > 0 && Holds(p, a, n) && n < 0 < n + p && 0 <= t < p
    ensures Opened(p, a + t) == (if n + t >= 0 then 0 else p) + n + t
  {
    HoldsSum(p, a, n, t, t);
    if n + t >= 0 {
      OpenedIs(p, a + t, n + t);
    } else {
      ModPlus(n + t, 1, p);
      OpenedIs(p, a + t, n + t + p);
    }
  }

  lemma ParityUnmasked(n: int, s: int, h: int, l: int, c0: int)
    requires (l == 0 || l == 1) && c0 == (n + 2 * s + 2 * h + l) % 2
    ensures LowBit(l, c0) == n % 2
  {
  }

  // ---------- comparing by prefix products ----------

  /** The differing places, as the factors of the products. */
  function Different(a: seq<int>, b: seq<int>): seq<int>
    requires |a| == |b|
  {
    seq(|a|, i requires 0 <= i < |a| => b[i] + a[i] - b[i] * (a[i] * 2))
  }

  /** 2 to the number of differing places. */
  function Above(d: seq<int>): int {
    if d == [] then 1 else Above(d[1..]) * (d[0] + 1)
  }

  /** The sum over the places where a has a zero of the steps of Above. */
  function Selected(a: seq<int>, d: seq<int>): int
    requires |a| == |d|
  {
    if a == [] then 0 else Selected(a[1..], d[1..]) + (Above(d) - Above(d[1..])) * (1 - a[0])
  }

  lemma {:induction false} AboveBounds(d: seq<int>)
    requires AreBits(d)
    ensures 1 <= Above(d) <= TwoTo(|d|)
  {
    if d != [] {
      assert AreBits(d[1..]);
      AboveBounds(d[1..]);
    }
  }

  lemma DifferentTail(a: seq<int>, b: seq<int>)
    requires |a| == |b| > 0
    ensures Different(a, b)[1..] == Different(a[1..], b[1..])
  {
  }

  /** The highest place that differs decides the parity. */
  lemma {:induction false} SelectedDecides(a: seq<int>, b: seq<int>)
    requires |a| == |b| && AreBits(a) && AreBits(b)
    ensures var d := Different(a, b);
      && AreBits(d) && (Above(d) == 1 <==> Value(a) == Value(b)) && (Above(d) != 1 ==> Above(d) % 2 == 0)
      && 0 <= Selected(a, d) < Above(d)
      && Selected(a, d) % 2 == if Value(a) < Value(b) then 1 else 0
  {
    var d := Different(a, b);
    if a != [] {
      assert AreBits(a[1..]) && AreBits(b[1..]);
      DifferentTail(a, b);
      SelectedDecides(a[1..], b[1..]);
      SelectedStep(a[0], b[0], d[0], Above(d[1..]), Selected(a[1..], d[1..]));
      assert AreBits(d) by {
        forall i | 0 <= i < |d|
          ensures d[i] == 0 || d[i] == 1
        {
          assert i > 0 ==> d[i] == d[1..][i - 1];
        }
      }
    }
  }

  lemma SelectedStep(a: int, b: int, d: int, above: int, sel: int)
    requires (a == 0 || a == 1) && (b == 0 || b == 1) && d == b + a - b * (a * 2)
    requires above >= 1 && (above != 1 ==> above % 2 == 0) && 0 <= sel < above
    ensures d == (if a == b then 0 else 1)
    ensures var step := (above * (d + 1) - above) * (1 - a);
      && 0 <= sel + step < above * (d + 1)
      && (sel + step) % 2 == if d == 1 && above == 1 then 1 - a else sel % 2
    ensures (above * (d + 1) == 1 <==> above == 1 && d == 0) && (above * (d + 1) != 1 ==> (above * (d + 1)) % 2 == 0)
  {
    if d == 0 {
      assert above * (d + 1) == above;
    } else {
      assert above * (d + 1) == 2 * above;
    }
  }

  function Reversed(s: seq<int>): (r: seq<int>)
    ensures |r| == |s| && forall i :: 0 <= i < |s| ==> r[i] == s[|s| - 1 - i]
  {
    seq(|s|, i requires 0 <= i < |s| => s[|s| - 1 - i])
  }

  /** The factors from the top place down. */
  function Factors(d: seq<int>): seq<int> {
    seq(|d|, i requires 0 <= i < |d| => d[|d| - 1 - i] + 1)
  }

  lemma {:induction false} ProductIsAbove(d: seq<int>, i: nat)
    requires i <= |d|
    ensures Product(Factors(d), |d| - i) == Above(d[i..])
    decreases |d| - i
  {
    if i < |d| {
      ProductIsAbove(d, i + 1);
      assert d[i..][1..] == d[i + 1..];
      assert Factors(d)[|d| - i - 1] == d[i] + 1;
    } else {
      assert d[i..] == [];
    }
  }

  /** How the products are computed: with given inverses, or with random pairs. */
  datatype PreMul = Given(r: seq<int>, z: seq<int>) | Pairs(s: seq<int>, r: seq<int>)

  ghost predicate IsPreMul(p: nat, x: PreMul, k: nat)
    requires p > 0
  {
    match x
    case Given(r, z) => |r| == k && Inverses(p, r, z)
    case Pairs(s, r) => |s| == |r| == k && forall i :: 0 <= i < k ==> (s[i] * r[i]) % p != 0
  }

  method PreMulC(p: nat, a: seq<int>, x: PreMul) returns (out: seq<int>)
    requires IsPrime(p) && a != [] && IsPreMul(p, x, |a|)
    ensures |out| == |a| && forall j :: 0 <= j < |a| ==> Holds(p, out[j], Product(a, j + 1))
  {
    match x {
      case Given(r, z) => out := PreMulCWithInverses(p, a, r, z);
      case Pairs(s, r) => out := PreMulCWithoutInverses(p, a, s, r);
    }
  }

  /** The sum of the selected steps, from the products. */
  method SelectedSum(p: nat, a: seq<int>, d: seq<int>, q: seq<int>) returns (t: int)
    requires p > 0 && |a| == |d| == |q| > 0
    requires forall i :: 0 <= i < |q| ==> Holds(p, q[i], Above(d[i..]))
    ensures Holds(p, t, Selected(a, d))
  {
    t := 0;
    var i := |a|;
    while i > 0
      invariant 0 <= i <= |a| && Holds(p, t, Selected(a[i..], d[i..]))
    {
      i := i - 1;
      assert a[i..][1..] == a[i + 1..] && d[i..][1..] == d[i + 1..];
      var next := if i + 1 < |a| then q[i + 1] else 1;
      assert i + 1 == |a| ==> d[i + 1..] == [];
      HoldsSum(p, q[i], Above(d[i..]), next, Above(d[i + 1..]));
      HoldsProduct(p, q[i] - next, Above(d[i..]) - Above(d[i + 1..]), 1 - a[i], 1 - a[i]);
      HoldsSum(p, t, Selected(a[i + 1..], d[i + 1..]), (q[i] - next) * (1 - a[i]),
               (Above(d[i..]) - Above(d[i + 1..])) * (1 - a[i]));
      t := t + (q[i] - next) * (1 - a[i]);
    }
    assert a[0..] == a && d[0..] == d;
  }

  /** a <? b in constant rounds. */
  method BitLTC1(p: nat, a: nat, b: seq<int>, kappa: nat, mul: PreMul, x: Mask) returns (u: int)
    requires IsPrime(p) && p > TwoTo(|b| + kappa + 1) && a < p && AreBits(b) && b != []
    requires IsPreMul(p, mul, |b|) && (|b| > 1 ==> IsMask(x, |b|, 1, kappa))
    ensures Holds(p, u, if a % TwoTo(|b|) < Value(b) then 1 else 0)
  {
    TwoAtLeast(|b| + kappa);
    var bits := ClearBits(p, a, |b|);
    var d: seq<int> := [];
    for i := 0 to |b|
      invariant d == Different(bits, b)[..i]
    {
      d := d + [b[i] + bits[i] - b[i] * (bits[i] * 2)];
    }
    assert d == Different(bits, b);
    var t := StepsSelected(p, bits, d, mul);
    BitsValue(a, |b|);
    SelectedDecides(bits, b);
    AboveBounds(d);
    u := Mod2(p, t, Selected(bits, d), |b|, kappa, false, x);
  }

  /** The products from the top place down, and the sum of their steps where a has a zero. */
  method StepsSelected(p: nat, a: seq<int>, d: seq<int>, mul: PreMul) returns (t: int)
    requires IsPrime(p) && |a| == |d| > 0 && IsPreMul(p, mul, |d|)
    ensures Holds(p, t, Selected(a, d))
  {
    var q := PreMulC(p, Factors(d), mul);
    q := Reversed(q);
    forall i | 0 <= i < |q|
      ensures Holds(p, q[i], Above(d[i..]))
    {
      ProductIsAbove(d, i);
    }
    t := SelectedSum(p, a, d, q);
  }

  lemma TwoAtLeast(n: nat)
    ensures TwoTo(n + 1) >= 2
  {
  }

  // ---------- remainder, truncation, sign ----------

  /** In logarithmically many rounds by carries, or in constantly many by products. */
  datatype Variant = Log(junk: nat -> int) | Const(mul: PreMul, mask: Mask)

  ghost predicate IsVariant(p: nat, v: Variant, m: nat, kappa: nat)
    requires p > 0
  {
    v.Const? ==> IsPreMul(p, v.mul, m) && (m > 1 ==> IsMask(v.mask, m, 1, kappa))
  }

  /** a <? b for an opened a and secret bits b. */
  method BitLT(p: nat, a: nat, b: seq<int>, k: nat, kappa: nat, v: Variant) returns (u: int)
    requires IsPrime(p) && p > TwoTo(k + kappa + 1) && |b| <= k && a < p && AreBits(b) && b != []
    requires IsVariant(p, v, |b|, kappa)
    ensures Holds(p, u, if a % TwoTo(|b|) < Value(b) then 1 else 0)
  {
    TwoAtLeast(k + kappa);
    match v {
      case Log(junk) =>
        var bits := ClearBits(p, a, |b|);
        BitsValue(a, |b|);
        u := LessThan(bits, b, junk);
      case Const(mul, mask) =>
        Larger(p, |b|, k, kappa);
        u := BitLTC1(p, a, b, kappa, mul, mask);
    }
  }

  lemma Monotone(m: nat, n: nat)
    requires m <= n
    ensures TwoTo(m) <= TwoTo(n)
  {
    TwoToAdd(m, n - m);
    ProductAtLeast(TwoTo(n - m), TwoTo(m));
  }

  lemma Larger(p: nat, m: nat, k: nat, kappa: nat)
    requires m <= k && p > TwoTo(k + kappa + 1)
    ensures p > TwoTo(m + kappa + 1)
  {
    Monotone(m + kappa + 1, k + kappa + 1);
  }

  /** The masked integer and the mask, modulo 2^m. */
  lemma Unmasked(n: int, s: int, h: int, l: int, mod: nat, c: int)
    requires mod > 0 && 0 <= l < mod && c == ((n + s * mod) + mod * h + l) % mod
    ensures n % mod == c - l + if c < l then mod else 0
  {
    DivisorOut(n + l, s + h, mod);
    assert (n + s * mod) + mod * h + l == (n + l) + (s + h) * mod by {
      Distribute(s, -h, mod);
      assert mod * h == h * mod;
    }
    var q := (n + l) / mod;
    assert n + l == q * mod + c;
    if c < l {
      Distribute(q, 1, mod);
      ModUnique(n, mod, q - 1, c - l + mod);
    } else {
      ModUnique(n, mod, q, c - l);
    }
  }

  lemma DivisorOut(x: int, k: int, d: nat)
    requires d > 0
    ensures (x + k * d) % d == x % d
  {
    var q := x / d;
    assert x == q * d + x % d;
    Distribute(q, -k, d);
    ModUnique(x + k * d, d, q + k, x % d);
  }

  /** The remainder modulo 2^m, for m below the bit length; beyond it, the integer itself. */
  method Mod2m(p: nat, a: int, ghost n: int, k: nat, m: nat, kappa: nat, signed: bool, x: Mask, v: Variant)
      returns (r: int)
    requires IsPrime(p) && p > TwoTo(k + kappa + 1) && Holds(p, a, n) && InRange(n, k, signed) && m > 0
    requires m < k ==> IsMask(x, k, m, kappa) && IsVariant(p, v, m, kappa)
    ensures m >= k ==> r == a
    ensures m < k ==> Holds(p, r, n % TwoTo(m))
  {
    if m >= k {
      return a;
    }
    var high := Compose(x.high);
    var low := Compose(x.low);
    var t0 := high * TwoTo(m);
    var t1 := if signed then a + TwoTo(k - 1) else a;
    var c := Opened(p, t0 + t1 + low);
    var c1 := SmallerRemainder(c, TwoTo(m));
    var u := BitLT(p, c1, x.low, k, kappa, v);
    var t4 := u * TwoTo(m);
    r := c1 - low + t4;
    MaskedRemainder(p, a, n, k, m, kappa, signed, x, t0, t1, c1, u);
  }

  function SmallerRemainder(c: nat, d: nat): (r: nat)
    requires d > 0
    ensures r == c % d && r <= c && r < d
  {
    DivMod(c, d);
    assert c / d > 0 ==> (c / d) * d >= 0;
    c % d
  }

  /** The opened number, the comparison and the mask give the remainder. */
  lemma MaskedRemainder(p: nat, a: int, n: int, k: nat, m: nat, kappa: nat, signed: bool, x: Mask,
                        t0: int, t1: int, c: int, u: int)
    requires p > TwoTo(k + kappa + 1) && IsMask(x, k, m, kappa) && Holds(p, a, n) && InRange(n, k, signed) && m < k
    requires t0 == Value(x.high) * TwoTo(m) && t1 == a + Shift(k, signed)
    requires c == Opened(p, t0 + t1 + Value(x.low)) % TwoTo(m)
    requires Holds(p, u, if c % TwoTo(m) < Value(x.low) then 1 else 0)
    ensures Holds(p, c - Value(x.low) + u * TwoTo(m), n % TwoTo(m))
  {
    OpenedMasked(p, a, n, k, m, kappa, signed, x);
    ValueBounds(x.low);
    var s := ShiftMultiple(k, m, signed);
    RemainderHeld(p, n, s, TwoTo(m), Value(x.high), Value(x.low), c, u);
  }

  lemma ShiftMultiple(k: nat, m: nat, signed: bool) returns (s: int)
    requires m < k
    ensures Shift(k, signed) == s * TwoTo(m)
  {
    TwoToAdd(m, k - 1 - m);
    s := if signed then TwoTo(k - 1 - m) else 0;
  }

  lemma RemainderHeld(p: nat, n: int, s: int, mod: nat, h: int, l: int, c: int, u: int)
    requires p > 0 && 0 <= l < mod && c == ((n + s * mod) + mod * h + l) % mod
    requires Holds(p, u, if c % mod < l then 1 else 0)
    ensures Holds(p, c - l + u * mod, n % mod)
  {
    ModUnique(c, mod, 0, c);
    var less := if c < l then 1 else 0;
    HoldsProduct(p, u, less, mod, mod);
    HoldsSum(p, c - l, c - l, u * mod, less * mod);
    Unmasked(n, s, h, l, mod, c);
  }

  /** The quotient by 2^m, rounded down. */
  method Trunc(p: nat, a: int, ghost n: int, k: nat, m: nat, kappa: nat, signed: bool, x: Mask, v: Variant)
      returns (d: int)
    requires IsPrime(p) && p > TwoTo(k + kappa + 1) && Holds(p, a, n) && InRange(n, k, signed)
    requires 0 < m < k ==> IsMask(x, k, m, kappa) && IsVariant(p, v, m, kappa)
    ensures m < k || m == 0 ==> Holds(p, d, n / TwoTo(m))
    ensures m >= k && m > 0 ==> d == 0
  {
    var rest;
    if m == 0 {
      assert n / 1 == n;
      return a;
    } else if m == 1 {
      rest := Mod2(p, a, n, k, kappa, signed, x);
      assert TwoTo(1) == 2 * TwoTo(0) == 2;
    } else {
      rest := Mod2m(p, a, n, k, m, kappa, signed, x, v);
    }
    var t := a - rest;
    d := t * InversePower(p, m);
    if m < k {
      Monotone(m, k + kappa + 1);
      QuotientHeld(p, a, n, rest, m);
    } else {
      assert t == 0;
    }
  }

  lemma QuotientHeld(p: nat, a: int, n: int, rest: int, m: nat)
    requires IsPrime(p) && p > TwoTo(m) && Holds(p, a, n) && Holds(p, rest, n % TwoTo(m))
    ensures Holds(p, (a - rest) * InversePower(p, m), n / TwoTo(m))
  {
    PowerInverts(p, m);
    HoldsSum(p, a, n, rest, n % TwoTo(m));
    assert n - n % TwoTo(m) == (n / TwoTo(m)) * TwoTo(m);
    Divides(p, a - rest, n / TwoTo(m), TwoTo(m), InversePower(p, m));
  }

  /** From the bit length on, the result zero is the quotient exactly for integers that are not negative. */
  lemma TruncBeyond(n: int, k: nat, m: nat, signed: bool)
    requires InRange(n, k, signed) && m >= k
    ensures n / TwoTo(m) == 0 <==> n >= 0
  {
    Monotone(k, m);
    if n >= 0 {
      assert signed ==> TwoTo(k) == 2 * TwoTo(k - 1);
      ModUnique(n, TwoTo(m), 0, n);
    } else {
      assert TwoTo(k) == 2 * TwoTo(k - 1);
      ModUnique(n, TwoTo(m), -1, n + TwoTo(m));
    }
  }

  /** Whether a signed integer is negative. */
  method LTZ(p: nat, a: int, ghost n: int, k: nat, kappa: nat, x: Mask, v: Variant) returns (s: int)
    requires IsPrime(p) && p > TwoTo(k + kappa + 1) && Holds(p, a, n) && InRange(n, k, true)
    requires k > 1 ==> IsMask(x, k, k - 1, kappa) && IsVariant(p, v, k - 1, kappa)
    ensures Holds(p, s, if n < 0 then 1 else 0)
  {
    var t := Trunc(p, a, n, k, k - 1, kappa, true, x, v);
    var h := TwoTo(k - 1);
    assert TwoTo(k) == 2 * h;
    if n < 0 {
      ModUnique(n, h, -1, n + h);
    } else {
      ModUnique(n, h, 0, n);
    }
    HoldsSum(p, 0, 0, t, n / h);
    s := 0 - t;
  }

  // ---------- rounding ----------

  lemma Times(x: int, b: int)
    requires b == 0 || b == 1
    ensures x * b == b * x == if b == 1 then x else 0
  {
  }

  /** Whether b followed by a lower part is below t followed by its own, less telling about those. */
  function Below(b: int, less: int, t: int): int {
    if b < t || (b == t && less == 1) then 1 else 0
  }

  /** The exclusive or of the three. */
  function Odd(b: int, less: int, t: int): int {
    if b == t then less else 1 - less
  }

  /** What the program computes from the top bits b and t and the comparison u of the rest; bu is
      b u, and prod is t times the exclusive or of b and u. */
  lemma BitsHeld(p: nat, b: int, u: int, t: int, less: int, bu: int, prod: int)
    requires p > 0 && (b == 0 || b == 1) && (t == 0 || t == 1) && (less == 0 || less == 1) && Holds(p, u, less)
    requires bu == (if b == 1 then u else 0) && prod == (if t == 1 then b + u - 2 * bu else 0)
    ensures Holds(p, bu + u - 2 * bu + t - prod, Below(b, less, t))
    ensures Holds(p, (b + u - 2 * bu) + t - 2 * prod, Odd(b, less, t))
  {
    HoldsSum(p, 1, 1, u, less);
    HoldsSum(p, 0, 0, u, less);
  }

  /** With c = c1 + half b and l = lo + half t, and r the remainder of c - l: the borrow is right, and
      rounding adds the top bit of r. */
  lemma BitsDecide(r: int, half: int, b: int, c1: int, t: int, lo: int, hb: int, ht: int)
    requires (b == 0 && hb == 0) || (b == 1 && hb == half)
    requires (t == 0 && ht == 0) || (t == 1 && ht == half)
    requires 0 <= c1 < half && 0 <= lo < half && 0 <= r < 2 * half
    requires r == (c1 + hb) - (lo + ht) + if c1 + hb < lo + ht then 2 * half else 0
    ensures var less := if c1 < lo then 1 else 0;
      && Below(b, less, t) == (if c1 + hb < lo + ht then 1 else 0)
      && Odd(b, less, t) == (if r >= half then 1 else 0)
  {
  }

  lemma RoundsTo(n: int, half: nat)
    requires half > 0
    ensures (n + half) / (2 * half) == n / (2 * half) + if n % (2 * half) >= half then 1 else 0
  {
    var d := 2 * half;
    var q, r := n / d, n % d;
    assert n == q * d + r;
    if r >= half {
      Distribute(q, -1, d);
      ModUnique(n + half, d, q + 1, r + half - d);
    } else {
      ModUnique(n + half, d, q, r + half);
    }
  }

  /** The quotient by 2^m, rounded to the nearest integer. */
  method TruncRoundNearest(p: nat, a: int, ghost n: int, k: nat, m: nat, kappa: nat, x: Mask, v: Variant)
      returns (r: int)
    requires IsPrime(p) && p > TwoTo(k + kappa + 1) && Holds(p, a, n) && InRange(n, k, true) && 0 < m < k
    requires IsMask(x, k, m, kappa) && (m > 1 ==> IsVariant(p, v, m - 1, kappa))
    ensures m > 1 || n >= 0 ==> Holds(p, r, (n + TwoTo(m - 1)) / TwoTo(m))
    ensures m == 1 && n < 0 ==> (Holds(p, r, (n + TwoTo(m - 1)) / TwoTo(m)) <==> Covers(x, n))
  {
    if m == 1 {
      var lsb := Mod2(p, a, n, k, kappa, false, x);
      r := (a + lsb) * InversePower(p, 1);
      Monotone(1, k + kappa + 1);
      PowerInverts(p, 1);
      assert TwoTo(0) == 1 && TwoTo(1) == 2 * TwoTo(0);
      RoundedHalf(p, a, n, lsb, InversePower(p, 1), n >= 0 || Covers(x, n));
      return;
    }
    var high := Compose(x.high);
    var low := Compose(x.low);
    var top := x.low[m - 1];
    var t0 := high * TwoTo(m);
    var c := Opened(p, t0 + (a + TwoTo(k - 1)) + low);
    var c1 := SmallerRemainder(c, TwoTo(m - 1));
    var u := BitLT(p, c1, x.low[..m - 1], k, kappa, v);
    var bit := Opened(p, (c - c1) * InversePower(p, m - 1)) % 2;
    var bu := bit * u;
    var xor := bit + u - 2 * bu;
    var prod := xor * top;
    var u1 := bu + u - 2 * bu + top - prod;
    var r1 := c % TwoTo(m) - low + u1 * TwoTo(m);
    r := (a - r1) * InversePower(p, m) + (xor + top - 2 * prod);
    Times(u, bit);
    Times(xor, top);
    NextBit(p, c, m - 1, k + kappa + 1);
    Rounded(p, a, n, k, m, kappa, x, t0, c, c1, u, bit, bu, prod, u1, r1);
  }

  /** The bit above the lowest m, by division in the field. */
  lemma NextBit(p: nat, c: nat, m: nat, n: nat)
    requires IsPrime(p) && c < p && m <= n && p > TwoTo(n)
    ensures Opened(p, (c - c % TwoTo(m)) * InversePower(p, m)) == c / TwoTo(m)
  {
    var d := TwoTo(m);
    Monotone(m, n);
    PowerInverts(p, m);
    DivMod(c, d);
    Divides(p, c - c % d, c / d, d, InversePower(p, m));
    QuotientSmall(c, d);
    OpenedIs(p, (c - c % d) * InversePower(p, m), c / d);
  }

  lemma QuotientSmall(c: nat, d: nat)
    requires d > 0
    ensures 0 <= c / d <= c
  {
    DivMod(c, d);
    if c / d > 0 {
      ProductAtLeast(d, c / d);
      assert d * (c / d) == (c / d) * d;
    }
  }

  lemma RoundedHalf(p: nat, a: int, n: int, lsb: int, i: int, covered: bool)
    requires p > 1 && Holds(p, a, n) && Holds(p, 2 * i, 1) && lsb == if covered then n % 2 else 1 - n % 2
    ensures Holds(p, (a + lsb) * i, (n + 1) / 2) <==> covered
  {
    if covered {
      HalfRight(p, a, n, i);
    } else {
      HoldsSum(p, a, n, lsb, lsb);
      HalfOneOff(p, a + lsb, n + lsb, (n + 1) / 2, i);
    }
  }

  lemma HalfRight(p: nat, a: int, n: int, i: int)
    requires p > 0 && Holds(p, a, n) && Holds(p, 2 * i, 1)
    ensures Holds(p, (a + n % 2) * i, (n + 1) / 2)
  {
    HoldsSum(p, a, n, n % 2, n % 2);
    assert n + n % 2 == ((n + 1) / 2) * 2;
    Divides(p, a + n % 2, (n + 1) / 2, 2, i);
  }

  /** Half of what is one off from 2 q does not hold q. */
  lemma HalfOneOff(p: nat, x: int, n: int, q: int, i: int)
    requires p > 1 && Holds(p, x, n) && Holds(p, 2 * i, 1) && (n - 2 * q == 1 || n - 2 * q == -1)
    ensures !Holds(p, x * i, q)
  {
    if Holds(p, x * i, q) {
      HoldsProduct(p, x * i, q, 2, 2);
      assert (x * i) * 2 == x * (2 * i);
      HoldsProduct(p, x, x, 2 * i, 1);
      HoldsSum(p, n, 2 * q, 2 * q, 2 * q);
      OneOff(p, n - 2 * q);
    }
  }

  lemma OneOff(p: nat, e: int)
    requires p > 1 && (e == 1 || e == -1)
    ensures !Holds(p, e, 0)
  {
    ModUnique(0, p, 0, 0);
    if e == 1 {
      ModUnique(1, p, 0, 1);
    } else {
      ModUnique(-1, p, -1, p - 1);
    }
  }

  lemma SplitMask(x: Mask, k: nat, m: nat, kappa: nat)
    requires IsMask(x, k, m, kappa) && m > 1
    ensures Value(x.low) == Value(x.low[..m - 1]) + TwoTo(m - 1) * x.low[m - 1]
    ensures 0 <= Value(x.low[..m - 1]) < TwoTo(m - 1) && TwoTo(m) == 2 * TwoTo(m - 1)
  {
    assert x.low == x.low[..m - 1] + [x.low[m - 1]];
    ValueTop(x.low[..m - 1], x.low[m - 1]);
    ValueBounds(x.low[..m - 1]);
  }

  lemma SplitRemainder(c: nat, half: nat)
    requires half > 0
    ensures c % (2 * half) == c % half + half * ((c / half) % 2)
  {
    var q, r := c / half, c % half;
    DivMod(c, half);
    assert q == 2 * (q / 2) + q % 2;
    assert c == (2 * (q / 2) + q % 2) * half + r;
    Distribute(2 * (q / 2), -(q % 2), half);
    assert (2 * (q / 2)) * half == (q / 2) * (2 * half);
    ModUnique(c, 2 * half, q / 2, (q % 2) * half + r);
  }

  lemma Rounded(p: nat, a: int, n: int, k: nat, m: nat, kappa: nat, x: Mask, t0: int, c: nat, c1: nat, u: int,
                bit: int, bu: int, prod: int, u1: int, r1: int)
    requires IsPrime(p) && p > TwoTo(k + kappa + 1) && Holds(p, a, n) && InRange(n, k, true) && 1 < m < k
    requires IsMask(x, k, m, kappa) && t0 == Value(x.high) * TwoTo(m)
    requires c == Opened(p, t0 + (a + TwoTo(k - 1)) + Value(x.low))
    requires c1 == c % TwoTo(m - 1) && bit == (c / TwoTo(m - 1)) % 2
    requires Holds(p, u, if c1 % TwoTo(m - 1) < Value(x.low[..m - 1]) then 1 else 0)
    requires bu == (if bit == 1 then u else 0) && prod == if x.low[m - 1] == 1 then bit + u - 2 * bu else 0
    requires u1 == bu + u - 2 * bu + x.low[m - 1] - prod
    requires r1 == c % TwoTo(m) - Value(x.low) + u1 * TwoTo(m)
    ensures Holds(p, (a - r1) * InversePower(p, m) + ((bit + u - 2 * bu) + x.low[m - 1] - 2 * prod),
                  (n + TwoTo(m - 1)) / TwoTo(m))
  {
    var top := x.low[m - 1];
    var less := RemainderDecided(p, a, n, k, m, kappa, x, t0, c, c1, bit);
    BitsHeld(p, bit, u, top, less, bu, prod);
    Monotone(m, k + kappa + 1);
    RemainderRounded(p, a, n, m, c % TwoTo(m) - Value(x.low), u1, Below(bit, less, top), r1);
    RoundsTo(n, TwoTo(m - 1));
    HoldsSum(p, (a - r1) * InversePower(p, m), n / TwoTo(m), (bit + u - 2 * bu) + top - 2 * prod, Odd(bit, less, top));
  }

  /** The exact values behind the registers. */
  lemma RemainderDecided(p: nat, a: int, n: int, k: nat, m: nat, kappa: nat, x: Mask, t0: int, c: nat, c1: nat,
                         bit: int) returns (less: int)
    requires p > TwoTo(k + kappa + 1) && Holds(p, a, n) && InRange(n, k, true) && 1 < m < k
    requires IsMask(x, k, m, kappa) && t0 == Value(x.high) * TwoTo(m)
    requires c == Opened(p, t0 + (a + TwoTo(k - 1)) + Value(x.low))
    requires c1 == c % TwoTo(m - 1) && bit == (c / TwoTo(m - 1)) % 2
    ensures TwoTo(m) == 2 * TwoTo(m - 1) && (bit == 0 || bit == 1) && (x.low[m - 1] == 0 || x.low[m - 1] == 1)
    ensures less == if c1 % TwoTo(m - 1) < Value(x.low[..m - 1]) then 1 else 0
    ensures n % TwoTo(m) == c % TwoTo(m) - Value(x.low) + Below(bit, less, x.low[m - 1]) * TwoTo(m)
    ensures Odd(bit, less, x.low[m - 1]) == if n % TwoTo(m) >= TwoTo(m - 1) then 1 else 0
  {
    var half, mod, top, lo := TwoTo(m - 1), TwoTo(m), x.low[m - 1], Value(x.low[..m - 1]);
    SplitMask(x, k, m, kappa);
    SplitRemainder(c, half);
    MaskedDifference(p, a, n, k, m, kappa, x, t0, c);
    ModUnique(c1, half, 0, c1);
    less := if c1 < lo then 1 else 0;
    Times(half, bit);
    Times(half, top);
    BitsDecide(n % mod, half, bit, c1, top, lo, half * bit, half * top);
    Times(mod, Below(bit, less, top));
  }

  lemma MaskedDifference(p: nat, a: int, n: int, k: nat, m: nat, kappa: nat, x: Mask, t0: int, c: nat)
    requires p > TwoTo(k + kappa + 1) && Holds(p, a, n) && InRange(n, k, true) && 1 < m < k
    requires IsMask(x, k, m, kappa) && t0 == Value(x.high) * TwoTo(m)
    requires c == Opened(p, t0 + (a + TwoTo(k - 1)) + Value(x.low))
    ensures n % TwoTo(m) == c % TwoTo(m) - Value(x.low) + if c % TwoTo(m) < Value(x.low) then TwoTo(m) else 0
  {
    OpenedMasked(p, a, n, k, m, kappa, true, x);
    var s := ShiftMultiple(k, m, true);
    ValueBounds(x.low);
    Unmasked(n, s, Value(x.high), Value(x.low), TwoTo(m), c % TwoTo(m));
  }

  lemma RemainderRounded(p: nat, a: int, n: int, m: nat, c: int, borrow: int, exact: int, r1: int)
    requires IsPrime(p) && p > TwoTo(m) && Holds(p, a, n) && Holds(p, borrow, exact)
    requires r1 == c + borrow * TwoTo(m) && n % TwoTo(m) == c + exact * TwoTo(m)
    ensures Holds(p, (a - r1) * InversePower(p, m), n / TwoTo(m))
  {
    HoldsProduct(p, borrow, exact, TwoTo(m), TwoTo(m));
    HoldsSum(p, c, c, borrow * TwoTo(m), exact * TwoTo(m));
    QuotientHeld(p, a, n, r1, m);
  }
}
