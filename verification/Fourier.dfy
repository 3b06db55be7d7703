/**
 The two classical facts behind BFFT (FHE/FFT.cpp): transforming with a primitive root and
 then with its inverse multiplies by the length, and the product of two transforms is the
 transform of the cyclic convolution.
 */
module Fourier {
  import opened Rings
  import opened FFT
  import opened Integers

  // ---------- sums ----------

  lemma {:induction false} SumScale<T(!new)>(R: Ring<T>, c: T, f: nat -> T, g: nat -> T, n: nat)
    requires IsRing(R)
    requires forall j: nat :: j < n ==> g(j) == R.mul(c, f(j))
    ensures Sum(R, g, n) == R.mul(c, Sum(R, f, n))
  {
    if n == 0 {
      MulZero(R, c);
    } else {
      SumScale(R, c, f, g, n - 1);
      assert Distrib(R, c, Sum(R, f, n - 1), f(n - 1));
    }
  }

  lemma {:induction false} SumAdd<T(!new)>(R: Ring<T>, f: nat -> T, g: nat -> T, h: nat -> T, n: nat)
    requires IsRing(R)
    requires forall j: nat :: j < n ==> h(j) == R.add(f(j), g(j))
    ensures Sum(R, h, n) == R.add(Sum(R, f, n), Sum(R, g, n))
  {
    if n == 0 {
      assert AddUnit(R, R.zero);
    } else {
      SumAdd(R, f, g, h, n - 1);
      AddSwap(R, Sum(R, f, n - 1), Sum(R, g, n - 1), f(n - 1), g(n - 1));
    }
  }

  /** A sum with at most one non-zero term. */
  lemma {:induction false} SumDelta<T(!new)>(R: Ring<T>, f: nat -> T, l: nat, n: nat)
    requires IsRing(R)
    requires forall j: nat :: j < n && j != l ==> f(j) == R.zero
    requires R.ok(f(l))
    ensures Sum(R, f, n) == if l < n then f(l) else R.zero
  {
    if n > 0 {
      SumDelta(R, f, l, n - 1);
      assert AddUnit(R, f(l)) && AddUnit(R, R.zero);
    }
  }

  ghost function Row<T>(R: Ring<T>, f: (nat, nat) -> T, i: nat): nat -> T {
    (j: nat) => f(i, j)
  }

  ghost function Column<T>(R: Ring<T>, f: (nat, nat) -> T, j: nat): nat -> T {
    (i: nat) => f(i, j)
  }

  ghost function RowSums<T>(R: Ring<T>, f: (nat, nat) -> T, n: nat): nat -> T {
    (i: nat) => Sum(R, Row(R, f, i), n)
  }

  ghost function ColumnSums<T>(R: Ring<T>, f: (nat, nat) -> T, m: nat): nat -> T {
    (j: nat) => Sum(R, Column(R, f, j), m)
  }

  lemma {:induction false} SumSwap<T(!new)>(R: Ring<T>, f: (nat, nat) -> T, m: nat, n: nat)
    requires IsRing(R)
    ensures Sum(R, RowSums(R, f, n), m) == Sum(R, ColumnSums(R, f, m), n)
  {
    if m == 0 {
      var zeros := ColumnSums(R, f, 0);
      assert forall j: nat :: j < n ==> zeros(j) == R.zero;
      SumDelta(R, zeros, n, n);
    } else {
      SumSwap(R, f, m - 1, n);
      var prev, all, last := ColumnSums(R, f, m - 1), ColumnSums(R, f, m), Row(R, f, m - 1);
      assert forall j: nat :: j < n ==> all(j) == R.add(prev(j), last(j));
      SumAdd(R, prev, last, all, n);
    }
  }

  // ---------- roots of unity ----------

  /** No zero divisors. */
  ghost predicate IsDomain<T(!new)>(R: Ring<T>) {
    && R.one != R.zero
    && forall x, y :: NoZeroDivisor(R, x, y)
  }

  ghost predicate NoZeroDivisor<T>(R: Ring<T>, x: T, y: T) {
    R.ok(x) && R.ok(y) && R.mul(x, y) == R.zero ==> x == R.zero || y == R.zero
  }

  /** w is a root of unity of exact order n, and v is its inverse. */
  ghost predicate Primitive<T>(R: Ring<T>, w: T, v: T, n: nat) {
    && n > 0
    && R.ok(w) && R.ok(v)
    && R.mul(w, v) == R.one
    && Pow(R, w, n) == R.one
    && forall d: nat :: 0 < d < n ==> Pow(R, w, d) != R.one
  }

  function FromNat<T>(R: Ring<T>, n: nat): T {
    if n == 0 then R.zero else R.add(FromNat(R, n - 1), R.one)
  }

  ghost function Powers<T>(R: Ring<T>, u: T): nat -> T {
    (i: nat) => Pow(R, u, i)
  }

  lemma {:induction false} GeometricOne<T(!new)>(R: Ring<T>, n: nat)
    requires IsRing(R)
    ensures Sum(R, Powers(R, R.one), n) == FromNat(R, n)
  {
    if n > 0 {
      GeometricOne(R, n - 1);
      PowOfOne(R, n - 1);
    }
  }

  /** u (1 + u + ... + u^(n-1)) + 1 == (1 + u + ... + u^(n-1)) + u^n. */
  lemma {:induction false} GeometricShift<T(!new)>(R: Ring<T>, u: T, n: nat)
    requires IsRing(R)
    ensures R.add(R.mul(u, Sum(R, Powers(R, u), n)), R.one) == R.add(Sum(R, Powers(R, u), n), Pow(R, u, n))
  {
    if n == 0 {
      MulZero(R, u);
    } else {
      GeometricShift(R, u, n - 1);
      var s, p := Sum(R, Powers(R, u), n - 1), Pow(R, u, n - 1);
      assert Distrib(R, u, s, p);
      assert AddAssoc(R, R.mul(u, s), R.mul(u, p), R.one) && AddComm(R, R.mul(u, p), R.one);
      assert AddAssoc(R, R.mul(u, s), R.one, R.mul(u, p));
    }
  }

  lemma GeometricZero<T(!new)>(R: Ring<T>, u: T, n: nat)
    requires IsRing(R) && IsDomain(R) && R.ok(u) && u != R.one && Pow(R, u, n) == R.one
    ensures Sum(R, Powers(R, u), n) == R.zero
  {
    var s := Sum(R, Powers(R, u), n);
    GeometricShift(R, u, n);
    SumOk(R, Powers(R, u), n);
    var d := R.Sub(u, R.one);
    assert Closed(R, u, s) && Closed(R, u, R.neg(R.one)) && Closed(R, R.one, R.one);
    // u s == s
    assert R.mul(u, s) == s by {
      assert AddAssoc(R, R.mul(u, s), R.one, R.neg(R.one)) && AddAssoc(R, s, R.one, R.neg(R.one));
      assert AddInverse(R, R.one) && AddUnit(R, s) && AddUnit(R, R.mul(u, s));
    }
    assert R.mul(s, d) == R.zero by {
      assert Distrib(R, s, u, R.neg(R.one)) && MulComm(R, s, u);
      MulNeg(R, s, R.one);
      assert MulUnit(R, s) && AddInverse(R, s);
    }
    assert NoZeroDivisor(R, s, d);
    if d == R.zero {
      AddCancel(R, u, R.one);
    }
  }

  lemma RootQuotientOrder<T(!new)>(R: Ring<T>, w: T, v: T, n: nat, j: nat, l: nat)
    requires IsRing(R) && Primitive(R, w, v, n)
    ensures Pow(R, R.mul(Pow(R, w, j), Pow(R, v, l)), n) == R.one
  {
    PowOfMul(R, Pow(R, w, j), Pow(R, v, l), n);
    PowOfPow(R, w, j, n);
    InverseOrder(R, w, v, n);
    PowOfPow(R, v, l, n);
    assert MulUnit(R, R.one);
  }

  /** w^(l+d) v^l == w^d and w^j v^(j+d) == v^d. */
  lemma CancelPowers<T(!new)>(R: Ring<T>, w: T, v: T, l: nat, d: nat)
    requires IsRing(R) && R.mul(w, v) == R.one
    ensures R.mul(Pow(R, w, l + d), Pow(R, v, l)) == Pow(R, w, d)
    ensures R.mul(Pow(R, w, l), Pow(R, v, l + d)) == Pow(R, v, d)
  {
    InversePowers(R, w, v, l);
    PowOk(R, w, d);
    PowOk(R, v, d);
    PowAdd(R, w, d, l);
    assert MulAssoc(R, Pow(R, w, d), Pow(R, w, l), Pow(R, v, l));
    assert MulUnit(R, Pow(R, w, d));
    PowAdd(R, v, l, d);
    assert MulAssoc(R, Pow(R, w, l), Pow(R, v, l), Pow(R, v, d));
    assert MulUnit(R, Pow(R, v, d));
  }

  lemma InverseNotOne<T(!new)>(R: Ring<T>, w: T, v: T, n: nat, d: nat)
    requires IsRing(R) && Primitive(R, w, v, n) && 0 < d < n
    ensures Pow(R, v, d) != R.one
  {
    InversePowers(R, w, v, d);
    PowOk(R, w, d);
    assert MulUnit(R, Pow(R, w, d));
  }

  /** w^j v^l is a power of w or of v, and is one exactly when j == l. */
  lemma RootQuotient<T(!new)>(R: Ring<T>, w: T, v: T, n: nat, j: nat, l: nat)
    requires IsRing(R) && Primitive(R, w, v, n) && j < n && l < n
    ensures var u := R.mul(Pow(R, w, j), Pow(R, v, l));
            && R.ok(u) && Pow(R, u, n) == R.one && (u == R.one <==> j == l)
  {
    RootQuotientOrder(R, w, v, n, j, l);
    assert Closed(R, Pow(R, w, j), Pow(R, v, l));
    if j >= l {
      CancelPowers(R, w, v, l, j - l);
    } else {
      CancelPowers(R, w, v, j, l - j);
      InverseNotOne(R, w, v, n, l - j);
    }
  }

  lemma {:induction false} InversePowers<T(!new)>(R: Ring<T>, w: T, v: T, j: nat)
    requires IsRing(R) && R.mul(w, v) == R.one
    ensures R.mul(Pow(R, w, j), Pow(R, v, j)) == R.one
  {
    PowOfMul(R, w, v, j);
    PowOfOne(R, j);
  }

  /** If x^n == 1 then (x^j)^n == 1. */
  lemma PowOfPow<T(!new)>(R: Ring<T>, x: T, j: nat, n: nat)
    requires IsRing(R) && Pow(R, x, n) == R.one
    ensures Pow(R, Pow(R, x, j), n) == R.one
  {
    PowPow(R, x, j, n);
    assert j * n == n * j;
    PowPow(R, x, n, j);
    PowOfOne(R, j);
  }

  lemma InverseOrder<T(!new)>(R: Ring<T>, w: T, v: T, n: nat)
    requires IsRing(R) && R.mul(w, v) == R.one && Pow(R, w, n) == R.one
    ensures Pow(R, v, n) == R.one
  {
    InversePowers(R, w, v, n);
    PowOk(R, v, n);
    assert MulUnit(R, Pow(R, v, n));
  }

  // ---------- the inverse transform ----------

  ghost function Term<T>(R: Ring<T>, c: seq<T>, w: T, z: T): (nat, nat) -> T {
    (i: nat, j: nat) => if j < |c| then R.mul(R.mul(c[j], Pow(R, Pow(R, w, i), j)), Pow(R, z, i)) else R.zero
  }

  /** One entry of the back-transformed vector, as a double sum. */
  lemma DoubleSum<T(!new)>(R: Ring<T>, c: seq<T>, y: seq<T>, w: T, z: T)
    requires IsRing(R) && Reduced(R, c) && IsTransform(R, y, c, w, false)
    ensures Eval(R, y, z) == Sum(R, RowSums(R, Term(R, c, w, z), |c|), |c|)
  {
    ReducedTransform(R, y, c, w, false);
    EvalIsSum(R, y, z);
    var f := Term(R, c, w, z);
    forall i: nat | i < |c|
      ensures Monomial(R, y, z)(i) == RowSums(R, f, |c|)(i)
    {
      var wi := Pow(R, w, i);
      EvalIsSum(R, c, wi);
      var inner := Monomial(R, c, wi);
      assert MulComm(R, Eval(R, c, wi), Pow(R, z, i));
      forall j: nat | j < |c|
        ensures Row(R, f, i)(j) == R.mul(Pow(R, z, i), inner(j))
      {
        assert MulComm(R, inner(j), Pow(R, z, i));
      }
      SumScale(R, Pow(R, z, i), inner, Row(R, f, i), |c|);
    }
    SumExt(R, Monomial(R, y, z), RowSums(R, f, |c|), |c|);
  }

  /** The coefficient of c[j] in entry l is n if j == l and zero otherwise. */
  lemma Orthogonality<T(!new)>(R: Ring<T>, c: seq<T>, w: T, v: T, l: nat, j: nat)
    requires IsRing(R) && IsDomain(R) && Primitive(R, w, v, |c|) && l < |c| && j < |c|
    ensures ColumnSums(R, Term(R, c, w, Pow(R, v, l)), |c|)(j)
         == if j == l then R.mul(c[j], FromNat(R, |c|)) else R.zero
  {
    var z := Pow(R, v, l);
    var f := Term(R, c, w, z);
    var u := R.mul(Pow(R, w, j), z);
    RootQuotient(R, w, v, |c|, j, l);
    forall i: nat | i < |c|
      ensures Column(R, f, j)(i) == R.mul(c[j], Powers(R, u)(i))
    {
      PowPow(R, w, i, j);
      PowPow(R, w, j, i);
      assert i * j == j * i;
      assert MulAssoc(R, c[j], Pow(R, Pow(R, w, j), i), Pow(R, z, i));
      PowOfMul(R, Pow(R, w, j), z, i);
    }
    SumScale(R, c[j], Powers(R, u), Column(R, f, j), |c|);
    if j == l {
      GeometricOne(R, |c|);
    } else {
      GeometricZero(R, u, |c|);
      MulZero(R, c[j]);
    }
  }

  /** Transforming with w and then with its inverse multiplies every coefficient by the length. */
  lemma TransformInverse<T(!new)>(R: Ring<T>, c: seq<T>, y: seq<T>, w: T, v: T, l: nat)
    requires IsRing(R) && IsDomain(R) && Primitive(R, w, v, |c|) && Reduced(R, c) && l < |c|
    requires IsTransform(R, y, c, w, false)
    ensures Eval(R, y, Pow(R, v, l)) == R.mul(c[l], FromNat(R, |c|))
  {
    var f := Term(R, c, w, Pow(R, v, l));
    DoubleSum(R, c, y, w, Pow(R, v, l));
    SumSwap(R, f, |c|, |c|);
    var g := ColumnSums(R, f, |c|);
    forall j: nat | j < |c|
      ensures g(j) == if j == l then R.mul(c[j], FromNat(R, |c|)) else R.zero
    {
      Orthogonality(R, c, w, v, l, j);
    }
    assert Closed(R, c[l], FromNat(R, |c|));
    SumDelta(R, g, l, |c|);
  }

  /** A root whose n/2-th power is minus one has exact order n when n is a power of two. */
  lemma {:induction false} HalfTurnPrimitive<T(!new)>(R: Ring<T>, w: T, n: nat, d: nat)
    requires IsRing(R) && IsPow2(n) && n >= 2 && HalfTurn(R, w, n, false)
    requires R.neg(R.one) != R.one && 0 < d < n
    ensures Pow(R, w, d) != R.one
    decreases n
  {
    if d % 2 == 0 {
      assert n >= 4;
      HalfTurnSquare(R, w, n, false);
      HalfTurnPrimitive(R, R.mul(w, w), n / 2, d / 2);
      PowSquare(R, w, d / 2);
    } else if Pow(R, w, d) == R.one {
      PowOfPow2(R, w, d, n / 2);
      MinusOneOdd(R, d);
    }
  }

  lemma PowOfPow2<T(!new)>(R: Ring<T>, x: T, d: nat, h: nat)
    requires IsRing(R) && Pow(R, x, d) == R.one
    ensures Pow(R, Pow(R, x, h), d) == R.one
  {
    PowOfPow(R, x, h, d);
  }

  lemma {:induction false} MinusOneOdd<T(!new)>(R: Ring<T>, d: nat)
    requires IsRing(R)
    ensures Pow(R, R.neg(R.one), d) == if d % 2 == 1 then R.neg(R.one) else R.one
  {
    if d > 0 {
      MinusOneOdd(R, d - 1);
      MulNeg(R, R.neg(R.one), R.one);
      MulNeg(R, R.one, R.one);
      NegNeg(R, R.one);
      assert MulUnit(R, R.one) && Closed(R, R.one, R.one) && MulUnit(R, R.neg(R.one));
    }
  }

  lemma HalfTurnOrder<T(!new)>(R: Ring<T>, w: T, n: nat)
    requires IsRing(R) && n % 2 == 0 && n >= 2 && HalfTurn(R, w, n, false)
    ensures Pow(R, w, n) == R.one
  {
    PowAdd(R, w, n / 2, n / 2);
    MinusOneOdd(R, 2);
    MulNeg(R, R.neg(R.one), R.one);
    MulNeg(R, R.one, R.one);
    NegNeg(R, R.one);
    assert MulUnit(R, R.one) && Closed(R, R.one, R.one) && MulUnit(R, R.neg(R.one));
  }

  // ---------- the convolution theorem ----------

  ghost function AddSeq<T>(R: Ring<T>, a: seq<T>, b: seq<T>): seq<T>
    requires |a| == |b|
  {
    seq(|a|, i requires 0 <= i < |a| => R.add(a[i], b[i]))
  }

  ghost function ScaleSeq<T>(R: Ring<T>, c: T, a: seq<T>): seq<T> {
    seq(|a|, i requires 0 <= i < |a| => R.mul(c, a[i]))
  }

  ghost function Zeros<T>(R: Ring<T>, n: nat): seq<T> {
    seq(n, _ => R.zero)
  }

  lemma {:induction false} EvalAdd<T(!new)>(R: Ring<T>, a: seq<T>, b: seq<T>, x: T)
    requires IsRing(R) && |a| == |b|
    ensures Eval(R, AddSeq(R, a, b), x) == R.add(Eval(R, a, x), Eval(R, b, x))
  {
    if a == [] {
      assert AddUnit(R, R.zero);
    } else {
      EvalAdd(R, a[1..], b[1..], x);
      assert AddSeq(R, a, b)[1..] == AddSeq(R, a[1..], b[1..]);
      var e, f := Eval(R, a[1..], x), Eval(R, b[1..], x);
      assert Distrib(R, x, e, f);
      AddSwap(R, a[0], b[0], R.mul(x, e), R.mul(x, f));
    }
  }

  lemma {:induction false} EvalScale<T(!new)>(R: Ring<T>, c: T, a: seq<T>, x: T)
    requires IsRing(R)
    ensures Eval(R, ScaleSeq(R, c, a), x) == R.mul(c, Eval(R, a, x))
  {
    if a == [] {
      MulZero(R, c);
    } else {
      EvalScale(R, c, a[1..], x);
      assert ScaleSeq(R, c, a)[1..] == ScaleSeq(R, c, a[1..]);
      var e := Eval(R, a[1..], x);
      assert Distrib(R, c, a[0], R.mul(x, e));
      assert MulAssoc(R, x, c, e) && MulComm(R, x, c) && MulAssoc(R, c, x, e);
    }
  }

  lemma {:induction false} EvalZeros<T(!new)>(R: Ring<T>, n: nat, x: T)
    requires IsRing(R)
    ensures Eval(R, Zeros(R, n), x) == R.zero
  {
    if n > 0 {
      EvalZeros(R, n - 1, x);
      assert Zeros(R, n)[1..] == Zeros(R, n - 1);
      MulZero(R, x);
      assert AddUnit(R, R.zero);
    }
  }

  /** Trailing zeros do not change a polynomial. */
  lemma {:induction false} EvalPadded<T(!new)>(R: Ring<T>, a: seq<T>, n: nat, x: T)
    requires IsRing(R)
    ensures Eval(R, a + Zeros(R, n), x) == Eval(R, a, x)
  {
    if a == [] {
      assert a + Zeros(R, n) == Zeros(R, n);
      EvalZeros(R, n, x);
    } else {
      EvalPadded(R, a[1..], n, x);
      assert (a + Zeros(R, n))[1..] == a[1..] + Zeros(R, n);
    }
  }

  /** The vector shifted cyclically by one place. */
  ghost function Rotate<T>(b: seq<T>): seq<T> {
    if b == [] then [] else [b[|b| - 1]] + b[..|b| - 1]
  }

  lemma EvalRotate<T(!new)>(R: Ring<T>, b: seq<T>, z: T)
    requires IsRing(R) && Reduced(R, b) && R.ok(z) && Pow(R, z, |b|) == R.one
    ensures Eval(R, Rotate(b), z) == R.mul(z, Eval(R, b, z))
  {
    if b == [] {
      MulZero(R, z);
    } else {
      var n := |b| - 1;
      var c, d := b[..n], b[n];
      assert b == c + [d];
      assert Rotate(b)[1..] == c;
      EvalSnoc(R, c, d, z);
      var e, p := Eval(R, c, z), Pow(R, z, n);
      assert Distrib(R, z, e, R.mul(d, p));
      assert MulAssoc(R, z, d, p) && MulComm(R, z, d) && MulAssoc(R, d, z, p);
      assert MulUnit(R, d);
      assert AddComm(R, R.mul(z, e), d);
    }
  }

  /** The product of the polynomials x and b modulo z^|b| - 1. */
  ghost function Cyclic<T>(R: Ring<T>, x: seq<T>, b: seq<T>): (c: seq<T>)
    ensures |c| == |b|
    decreases |x|
  {
    if x == [] then Zeros(R, |b|) else AddSeq(R, ScaleSeq(R, x[0], b), Rotate(Cyclic(R, x[1..], b)))
  }

  lemma {:induction false} CyclicReduced<T(!new)>(R: Ring<T>, x: seq<T>, b: seq<T>)
    requires IsRing(R)
    ensures Reduced(R, Cyclic(R, x, b))
  {
    var c := Cyclic(R, x, b);
    if x != [] {
      var u, v := ScaleSeq(R, x[0], b), Rotate(Cyclic(R, x[1..], b));
      forall i | 0 <= i < |c|
        ensures R.ok(c[i])
      {
        assert Closed(R, u[i], v[i]);
      }
    }
  }

  lemma {:induction false} EvalCyclic<T(!new)>(R: Ring<T>, x: seq<T>, b: seq<T>, z: T)
    requires IsRing(R) && R.ok(z) && Pow(R, z, |b|) == R.one
    ensures Eval(R, Cyclic(R, x, b), z) == R.mul(Eval(R, x, z), Eval(R, b, z))
    decreases |x|
  {
    var e := Eval(R, b, z);
    if x == [] {
      EvalZeros(R, |b|, z);
      MulZero(R, e);
    } else {
      var c := Cyclic(R, x[1..], b);
      EvalCyclic(R, x[1..], b, z);
      CyclicReduced(R, x[1..], b);
      EvalRotate(R, c, z);
      EvalScale(R, x[0], b, z);
      EvalAdd(R, ScaleSeq(R, x[0], b), Rotate(c), z);
      var f := Eval(R, x[1..], z);
      assert MulAssoc(R, z, f, e);
      assert MulComm(R, R.add(x[0], R.mul(z, f)), e) && Distrib(R, e, x[0], R.mul(z, f));
      assert MulComm(R, e, x[0]) && MulComm(R, e, R.mul(z, f));
    }
  }

  /** x[0] b[l] + x[1] b[l-1] + ... */
  ghost function Slide<T>(R: Ring<T>, x: seq<T>, b: seq<T>, l: int): T
    requires |x| - 1 <= l < |b|
    decreases |x|
  {
    if x == [] then R.zero else R.add(R.mul(x[0], b[l]), Slide(R, x[1..], b, l - 1))
  }

  /** Where no index wraps around, the cyclic convolution is the plain one. */
  lemma {:induction false} CyclicIsSlide<T(!new)>(R: Ring<T>, x: seq<T>, b: seq<T>, l: int)
    requires |x| - 1 <= l < |b| && 0 <= l
    ensures Cyclic(R, x, b)[l] == Slide(R, x, b, l)
    decreases |x|
  {
    if x != [] {
      var c := Cyclic(R, x[1..], b);
      if l > 0 {
        CyclicIsSlide(R, x[1..], b, l - 1);
        assert Rotate(c)[l] == c[l - 1];
      } else {
        assert x[1..] == [];
        assert Rotate(c)[0] == R.zero;
      }
    }
  }
}
