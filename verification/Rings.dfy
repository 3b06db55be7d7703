/**
 The arithmetic the number-theoretic transforms are parameterised by: modp together
 with its Zp_Data. A Ring packs the operations; IsRing lists the laws of a commutative
 ring with one. Each law is a named predicate, so that a proof instantiates a law by
 asserting it at the values where it is needed and nowhere else.
 */
module Rings {

  datatype Ring<!T> = Ring(
    ok: T -> bool,       // the reduced representatives
    zero: T,
    one: T,
    add: (T, T) -> T,
    neg: T -> T,
    mul: (T, T) -> T)
  {
    function Sub(x: T, y: T): T {
      add(x, neg(y))
    }
  }

  ghost predicate Closed<T>(R: Ring<T>, x: T, y: T) {
    R.ok(R.add(x, y)) && R.ok(R.neg(x)) && R.ok(R.mul(x, y))
  }

  ghost predicate AddComm<T>(R: Ring<T>, x: T, y: T) {
    R.add(x, y) == R.add(y, x)
  }

  ghost predicate AddAssoc<T>(R: Ring<T>, x: T, y: T, z: T) {
    R.add(R.add(x, y), z) == R.add(x, R.add(y, z))
  }

  ghost predicate AddUnit<T>(R: Ring<T>, x: T) {
    R.ok(x) ==> R.add(R.zero, x) == x && R.add(x, R.zero) == x
  }

  ghost predicate AddInverse<T>(R: Ring<T>, x: T) {
    R.add(x, R.neg(x)) == R.zero
  }

  ghost predicate MulComm<T>(R: Ring<T>, x: T, y: T) {
    R.mul(x, y) == R.mul(y, x)
  }

  ghost predicate MulAssoc<T>(R: Ring<T>, x: T, y: T, z: T) {
    R.mul(R.mul(x, y), z) == R.mul(x, R.mul(y, z))
  }

  ghost predicate MulUnit<T>(R: Ring<T>, x: T) {
    R.ok(x) ==> R.mul(R.one, x) == x && R.mul(x, R.one) == x
  }

  ghost predicate Distrib<T>(R: Ring<T>, x: T, y: T, z: T) {
    R.mul(x, R.add(y, z)) == R.add(R.mul(x, y), R.mul(x, z))
  }

  ghost predicate IsRing<T(!new)>(R: Ring<T>) {
    && R.ok(R.zero)
    && R.ok(R.one)
    && (forall x, y :: Closed(R, x, y))
    && (forall x, y :: AddComm(R, x, y))
    && (forall x, y, z :: AddAssoc(R, x, y, z))
    && (forall x :: AddUnit(R, x))
    && (forall x :: AddInverse(R, x))
    && (forall x, y :: MulComm(R, x, y))
    && (forall x, y, z :: MulAssoc(R, x, y, z))
    && (forall x :: MulUnit(R, x))
    && (forall x, y, z :: Distrib(R, x, y, z))
  }

  /** All entries of a vector are reduced. */
  ghost predicate Reduced<T>(R: Ring<T>, a: seq<T>) {
    forall i :: 0 <= i < |a| ==> R.ok(a[i])
  }

  // ---------- consequences of the laws ----------

  lemma AddCancel<T(!new)>(R: Ring<T>, x: T, y: T)
    requires IsRing(R) && R.ok(x) && R.ok(y)
    requires R.add(x, R.neg(y)) == R.zero
    ensures x == y
  {
    assert AddUnit(R, x) && AddUnit(R, y);
    assert AddInverse(R, y) && AddComm(R, R.neg(y), y);
    assert AddAssoc(R, x, R.neg(y), y);
  }

  lemma MulZero<T(!new)>(R: Ring<T>, x: T)
    requires IsRing(R)
    ensures R.mul(x, R.zero) == R.zero && R.mul(R.zero, x) == R.zero
  {
    var m := R.mul(x, R.zero);
    assert AddUnit(R, R.zero);
    assert Distrib(R, x, R.zero, R.zero);
    assert Closed(R, x, R.zero);
    assert AddInverse(R, m) && AddAssoc(R, m, m, R.neg(m)) && AddUnit(R, m);
    assert MulComm(R, x, R.zero);
  }

  lemma NegUnique<T(!new)>(R: Ring<T>, x: T, y: T)
    requires IsRing(R) && R.ok(y)
    requires R.add(x, y) == R.zero
    ensures y == R.neg(x)
  {
    var n := R.neg(x);
    assert Closed(R, x, x);
    assert AddInverse(R, x) && AddComm(R, n, x);
    assert AddAssoc(R, n, x, y);
    assert AddUnit(R, y) && AddUnit(R, n);
  }

  lemma MulNeg<T(!new)>(R: Ring<T>, x: T, y: T)
    requires IsRing(R)
    ensures R.mul(x, R.neg(y)) == R.neg(R.mul(x, y))
    ensures R.mul(R.neg(y), x) == R.neg(R.mul(x, y))
  {
    assert AddInverse(R, y);
    assert Distrib(R, x, y, R.neg(y));
    MulZero(R, x);
    assert Closed(R, x, R.neg(y));
    NegUnique(R, R.mul(x, y), R.mul(x, R.neg(y)));
    assert MulComm(R, x, R.neg(y));
  }

  lemma NegNeg<T(!new)>(R: Ring<T>, x: T)
    requires IsRing(R) && R.ok(x)
    ensures R.neg(R.neg(x)) == x
  {
    assert AddInverse(R, x) && AddComm(R, x, R.neg(x));
    NegUnique(R, R.neg(x), x);
  }

  /** Interchanges the middle two of four summands. */
  lemma AddSwap<T(!new)>(R: Ring<T>, a: T, b: T, c: T, d: T)
    requires IsRing(R)
    ensures R.add(R.add(a, b), R.add(c, d)) == R.add(R.add(a, c), R.add(b, d))
  {
    assert AddAssoc(R, a, b, R.add(c, d)) && AddAssoc(R, a, c, R.add(b, d));
    assert AddAssoc(R, b, c, d) && AddAssoc(R, c, b, d);
    assert AddComm(R, b, c);
  }

  /** Interchanges the middle two of four factors. */
  lemma MulSwap<T(!new)>(R: Ring<T>, a: T, b: T, c: T, d: T)
    requires IsRing(R)
    ensures R.mul(R.mul(a, b), R.mul(c, d)) == R.mul(R.mul(a, c), R.mul(b, d))
  {
    assert MulAssoc(R, a, b, R.mul(c, d)) && MulAssoc(R, a, c, R.mul(b, d));
    assert MulAssoc(R, b, c, d) && MulAssoc(R, c, b, d);
    assert MulComm(R, b, c);
  }

  // ---------- powers ----------

  ghost function Pow<T>(R: Ring<T>, x: T, n: nat): T {
    if n == 0 then R.one else R.mul(x, Pow(R, x, n - 1))
  }

  lemma PowOk<T(!new)>(R: Ring<T>, x: T, n: nat)
    requires IsRing(R)
    ensures R.ok(Pow(R, x, n))
  {
    if n > 0 {
      assert Closed(R, x, Pow(R, x, n - 1));
    }
  }

  lemma PowOne<T(!new)>(R: Ring<T>, x: T)
    requires IsRing(R) && R.ok(x)
    ensures Pow(R, x, 1) == x
  {
    assert MulUnit(R, x);
    assert Pow(R, x, 0) == R.one;
  }

  lemma {:induction false} PowAdd<T(!new)>(R: Ring<T>, x: T, m: nat, n: nat)
    requires IsRing(R)
    ensures Pow(R, x, m + n) == R.mul(Pow(R, x, m), Pow(R, x, n))
  {
    if m == 0 {
      PowOk(R, x, n);
      assert MulUnit(R, Pow(R, x, n));
    } else {
      PowAdd(R, x, m - 1, n);
      assert MulAssoc(R, x, Pow(R, x, m - 1), Pow(R, x, n));
    }
  }

  lemma {:induction false} PowOfOne<T(!new)>(R: Ring<T>, n: nat)
    requires IsRing(R)
    ensures Pow(R, R.one, n) == R.one
  {
    if n > 0 {
      PowOfOne(R, n - 1);
      assert MulUnit(R, R.one);
    }
  }

  lemma {:induction false} PowOfMul<T(!new)>(R: Ring<T>, x: T, y: T, n: nat)
    requires IsRing(R)
    ensures Pow(R, R.mul(x, y), n) == R.mul(Pow(R, x, n), Pow(R, y, n))
  {
    if n == 0 {
      assert MulUnit(R, R.one);
    } else {
      PowOfMul(R, x, y, n - 1);
      MulSwap(R, x, y, Pow(R, x, n - 1), Pow(R, y, n - 1));
    }
  }

  lemma {:induction false} PowPow<T(!new)>(R: Ring<T>, x: T, m: nat, n: nat)
    requires IsRing(R)
    ensures Pow(R, Pow(R, x, m), n) == Pow(R, x, m * n)
    decreases n
  {
    if n == 0 {
      assert m * n == 0;
    } else {
      PowPow(R, x, m, n - 1);
      assert m * n == m + m * (n - 1);
      PowAdd(R, x, m, m * (n - 1));
    }
  }

  /** The square of the n-th power is the n-th power of the square. */
  lemma PowSquare<T(!new)>(R: Ring<T>, x: T, n: nat)
    requires IsRing(R)
    ensures R.mul(Pow(R, x, n), Pow(R, x, n)) == Pow(R, R.mul(x, x), n)
    ensures R.mul(Pow(R, x, n), Pow(R, x, n)) == Pow(R, x, 2 * n)
  {
    PowOfMul(R, x, x, n);
    PowAdd(R, x, n, n);
  }
}
