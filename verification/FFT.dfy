/**
 FHE/FFT.cpp. A vector of coefficients is evaluated at all powers of a root of unity
 (or at all its odd powers) by four fast in-place transforms; NaiveFFT evaluates by
 Horner's rule and is what the others have to agree with.
 */
module FFT {
  import opened Sequences
  import opened Rings
  import opened Integers

  // ---------- polynomials ----------

  /** a[0] + a[1] x + a[2] x^2 + ..., by Horner's rule. */
  ghost function Eval<T>(R: Ring<T>, a: seq<T>, x: T): T {
    if a == [] then R.zero else R.add(a[0], R.mul(x, Eval(R, a[1..], x)))
  }

  /** The same value as an explicit sum of monomials. */
  ghost function Sum<T>(R: Ring<T>, f: nat -> T, n: nat): T {
    if n == 0 then R.zero else R.add(Sum(R, f, n - 1), f(n - 1))
  }

  ghost function Monomial<T>(R: Ring<T>, a: seq<T>, x: T): nat -> T {
    (j: nat) => if j < |a| then R.mul(a[j], Pow(R, x, j)) else R.zero
  }

  lemma EvalOk<T(!new)>(R: Ring<T>, a: seq<T>, x: T)
    requires IsRing(R)
    ensures R.ok(Eval(R, a, x))
  {
    if a != [] {
      assert Closed(R, a[0], R.mul(x, Eval(R, a[1..], x)));
    }
  }

  lemma SumOk<T(!new)>(R: Ring<T>, f: nat -> T, n: nat)
    requires IsRing(R)
    ensures R.ok(Sum(R, f, n))
  {
    if n > 0 {
      assert Closed(R, Sum(R, f, n - 1), f(n - 1));
    }
  }

  lemma {:induction false} EvalSnoc<T(!new)>(R: Ring<T>, a: seq<T>, c: T, x: T)
    requires IsRing(R) && R.ok(c)
    ensures Eval(R, a + [c], x) == R.add(Eval(R, a, x), R.mul(c, Pow(R, x, |a|)))
  {
    if a == [] {
      assert (a + [c])[1..] == [];
      MulZero(R, x);
      assert AddUnit(R, c) && MulUnit(R, c);
    } else {
      var e, p := Eval(R, a[1..], x), Pow(R, x, |a| - 1);
      EvalSnoc(R, a[1..], c, x);
      assert (a + [c])[1..] == a[1..] + [c];
      assert Distrib(R, x, e, R.mul(c, p));
      assert AddAssoc(R, a[0], R.mul(x, e), R.mul(x, R.mul(c, p)));
      assert MulAssoc(R, x, c, p) && MulComm(R, x, c) && MulAssoc(R, c, x, p);
    }
  }

  lemma {:induction false} SumExt<T>(R: Ring<T>, f: nat -> T, g: nat -> T, n: nat)
    requires forall j: nat :: j < n ==> f(j) == g(j)
    ensures Sum(R, f, n) == Sum(R, g, n)
  {
    if n > 0 {
      SumExt(R, f, g, n - 1);
    }
  }

  /** Horner's rule computes the sum of the monomials a[j] x^j. */
  lemma {:induction false} EvalIsSum<T(!new)>(R: Ring<T>, a: seq<T>, x: T)
    requires IsRing(R) && Reduced(R, a)
    ensures Eval(R, a, x) == Sum(R, Monomial(R, a, x), |a|)
  {
    if a != [] {
      var b := a[..|a| - 1];
      assert a == b + [a[|a| - 1]];
      EvalSnoc(R, b, a[|a| - 1], x);
      EvalIsSum(R, b, x);
      SumExt(R, Monomial(R, a, x), Monomial(R, b, x), |b|);
    }
  }

  lemma RingStep<T(!new)>(R: Ring<T>, a0: T, a1: T, x: T, e: T, o: T)
    requires IsRing(R)
    ensures R.add(a0, R.mul(x, R.add(a1, R.mul(x, R.add(e, R.mul(x, o))))))
         == R.add(R.add(a0, R.mul(R.mul(x, x), e)), R.mul(x, R.add(a1, R.mul(R.mul(x, x), o))))
  {
    var xx := R.mul(x, x);
    var xo := R.mul(x, o);
    assert Distrib(R, x, e, xo) && MulAssoc(R, x, x, o);
    assert R.mul(x, R.add(e, xo)) == R.add(R.mul(x, e), R.mul(xx, o));
    assert AddComm(R, R.mul(x, e), R.mul(xx, o));
    assert AddAssoc(R, a1, R.mul(xx, o), R.mul(x, e));
    assert Distrib(R, x, R.add(a1, R.mul(xx, o)), R.mul(x, e)) && MulAssoc(R, x, x, e);
    assert AddComm(R, R.mul(x, R.add(a1, R.mul(xx, o))), R.mul(xx, e));
    assert AddAssoc(R, a0, R.mul(xx, e), R.mul(x, R.add(a1, R.mul(xx, o))));
  }

  /** p(x) = even(x^2) + x odd(x^2). */
  lemma {:induction false} EvalSplit<T(!new)>(R: Ring<T>, a: seq<T>, x: T)
    requires IsRing(R) && |a| % 2 == 0
    ensures Eval(R, a, x) ==
            R.add(Eval(R, Evens(a), R.mul(x, x)), R.mul(x, Eval(R, Odds(a), R.mul(x, x))))
  {
    if a == [] {
      assert AddUnit(R, R.zero);
      MulZero(R, x);
    } else {
      var b := a[2..];
      EvalSplit(R, b, x);
      assert a[1..][1..] == b;
      assert Evens(a)[1..] == Evens(b) && Odds(a)[1..] == Odds(b);
      RingStep(R, a[0], a[1], x, Eval(R, Evens(b), R.mul(x, x)), Eval(R, Odds(b), R.mul(x, x)));
    }
  }

  /** The butterfly: from the two half-size values at x^2, the values at x and at -x. */
  lemma Butterfly<T(!new)>(R: Ring<T>, a: seq<T>, x: T)
    requires IsRing(R) && |a| % 2 == 0
    ensures var t := R.mul(x, Eval(R, Odds(a), R.mul(x, x)));
            && Eval(R, a, x) == R.add(Eval(R, Evens(a), R.mul(x, x)), t)
            && Eval(R, a, R.neg(x)) == R.Sub(Eval(R, Evens(a), R.mul(x, x)), t)
  {
    EvalSplit(R, a, x);
    EvalSplit(R, a, R.neg(x));
    MulNeg(R, R.neg(x), x);
    MulNeg(R, x, x);
    assert Closed(R, x, x);
    NegNeg(R, R.mul(x, x));
    MulNeg(R, Eval(R, Odds(a), R.mul(x, x)), x);
    assert MulComm(R, x, Eval(R, Odds(a), R.mul(x, x)));
  }

  // ---------- points of evaluation ----------

  /** The i-th point: root^i, or root^(2i+1) for the transforms modulo x^n + 1. */
  ghost function Point<T>(R: Ring<T>, root: T, odd: bool, i: nat): T {
    if odd then Pow(R, root, 2 * i + 1) else Pow(R, root, i)
  }

  /** The values of a at the first |a| points. */
  ghost predicate IsTransform<T>(R: Ring<T>, y: seq<T>, a: seq<T>, root: T, odd: bool) {
    |y| == |a| && forall i :: 0 <= i < |a| ==> y[i] == Eval(R, a, Point(R, root, odd, i))
  }

  /** What the roots returned by Find_Primitive_Root_2power satisfy: the n/2-th power (the
      n-th power for a 2n-th root) is minus one. */
  ghost predicate HalfTurn<T>(R: Ring<T>, root: T, n: nat, odd: bool) {
    n >= 2 ==> Pow(R, root, if odd then n else n / 2) == R.neg(R.one)
  }

  /** In a ring without zero divisors this is what being a primitive root of unity of even
      order n means at n/2. */
  lemma PrimitiveRootHalfTurn<T(!new)>(R: Ring<T>, root: T, n: nat)
    requires IsRing(R) && n % 2 == 0
    requires forall x, y :: R.mul(x, y) == R.zero && R.ok(x) && R.ok(y) ==> x == R.zero || y == R.zero
    requires Pow(R, root, n) == R.one && Pow(R, root, n / 2) != R.one
    ensures Pow(R, root, n / 2) == R.neg(R.one)
  {
    var h := Pow(R, root, n / 2);
    var u, v := R.add(h, R.neg(R.one)), R.add(h, R.one);
    PowOk(R, root, n / 2);
    PowAdd(R, root, n / 2, n / 2);
    assert Closed(R, h, R.neg(R.one)) && Closed(R, h, R.one) && Closed(R, R.one, R.one);
    // (h - 1)(h + 1) = h h - 1
    assert Distrib(R, u, h, R.one) && MulUnit(R, u);
    assert MulComm(R, u, h) && Distrib(R, h, h, R.neg(R.one));
    MulNeg(R, h, R.one);
    assert MulUnit(R, h);
    assert R.mul(u, v) == R.add(R.add(R.one, R.neg(h)), R.add(h, R.neg(R.one)));
    assert AddComm(R, R.one, R.neg(h)) && AddComm(R, h, R.neg(R.one));
    AddSwap(R, R.neg(h), R.one, R.neg(R.one), h);
    assert AddComm(R, R.neg(h), h) && AddInverse(R, h) && AddInverse(R, R.one) && AddUnit(R, R.zero);
    AddSwap(R, R.one, R.neg(h), h, R.neg(R.one));
    assert AddAssoc(R, R.add(R.one, R.neg(h)), h, R.neg(R.one));
    assert AddAssoc(R, R.one, R.neg(h), h) && AddUnit(R, R.one);
    assert R.mul(u, v) == R.zero;
    if u == R.zero {
      AddCancel(R, h, R.one);
    } else {
      assert AddComm(R, h, R.one);
      NegUnique(R, R.one, h);
    }
  }

  lemma HalfTurnSquare<T(!new)>(R: Ring<T>, root: T, n: nat, odd: bool)
    requires IsRing(R) && n >= 2 && IsPow2(n) && HalfTurn(R, root, n, odd)
    ensures HalfTurn(R, R.mul(root, root), n / 2, odd)
  {
    if n >= 4 {
      assert n % 4 == 0;
      PowSquare(R, root, if odd then n / 2 else n / 4);
    }
  }

  /** The second half of the points are the negated first half, and squaring the points of a
      root gives the points of its square. */
  lemma PointLaws<T(!new)>(R: Ring<T>, root: T, n: nat, odd: bool, i: nat)
    requires IsRing(R) && n >= 2 && n % 2 == 0 && HalfTurn(R, root, n, odd)
    ensures Point(R, root, odd, n / 2 + i) == R.neg(Point(R, root, odd, i))
    ensures R.mul(Point(R, root, odd, i), Point(R, root, odd, i)) == Point(R, R.mul(root, root), odd, i)
  {
    var e := if odd then 2 * i + 1 else i;
    var p := Pow(R, root, e);
    PowAdd(R, root, if odd then n else n / 2, e);
    MulNeg(R, p, R.one);
    PowOk(R, root, e);
    assert MulUnit(R, p);
    PowSquare(R, root, e);
  }

  // ---------- the reference: NaiveFFT ----------

  /** Square-and-multiply, as Power in Math/modp.cpp. */
  method Power<T(!new)>(R: Ring<T>, x: T, exp: nat) returns (ans: T)
    requires IsRing(R) && R.ok(x)
    ensures ans == Pow(R, x, exp)
  {
    if exp == 1 {
      PowOne(R, x);
      return x;
    }
    if exp == 0 {
      return R.one;
    }
    var t, e := x, exp;
    ans := R.one;
    PowOk(R, x, exp);
    assert MulUnit(R, Pow(R, x, exp));
    while e != 0
      invariant R.mul(ans, Pow(R, t, e)) == Pow(R, x, exp)
      invariant R.ok(ans)
    {
      ghost var ans0, t0, e0 := ans, t, e;
      PowSquare(R, t, e / 2);
      if e % 2 == 1 {
        ans := R.mul(ans, t);
        assert MulAssoc(R, ans0, t0, Pow(R, t0, e0 - 1)) && Closed(R, ans0, t0);
      }
      e := e / 2;
      t := R.mul(t, t);
    }
    assert MulUnit(R, ans);
  }

  lemma HornerStart<T(!new)>(R: Ring<T>, a: seq<T>, x: T)
    requires IsRing(R) && Reduced(R, a) && |a| >= 1
    ensures Eval(R, a[|a| - 1..], x) == a[|a| - 1]
  {
    MulZero(R, x);
    assert AddUnit(R, a[|a| - 1]) && a[|a| - 1..] == [a[|a| - 1]];
  }

  lemma HornerStep<T(!new)>(R: Ring<T>, a: seq<T>, j: nat, x: T)
    requires IsRing(R) && j < |a|
    ensures R.add(R.mul(Eval(R, a[j + 1..], x), x), a[j]) == Eval(R, a[j..], x)
  {
    var e := Eval(R, a[j + 1..], x);
    assert a[j..][1..] == a[j + 1..];
    assert MulComm(R, e, x) && AddComm(R, R.mul(x, e), a[j]);
  }

  /** The inner loop of NaiveFFT: ans[i] = a(x) by Horner's rule. */
  method Horner<T(!new)>(R: Ring<T>, ans: array<T>, a: array<T>, N: nat, i: nat, x: T)
    requires IsRing(R) && ans != a && i < ans.Length
    requires N >= 1 && a.Length == N && Reduced(R, a[..])
    modifies ans
    ensures ans[..] == old(ans[..])[i := Eval(R, a[..], x)]
  {
    ghost var p, others := a[..], ans[..];
    ans[i] := a[N - 1];
    HornerStart(R, p, x);
    for j := N - 1 downto 0
      invariant a[..] == p
      invariant ans[..] == others[i := Eval(R, p[j..], x)]
    {
      HornerStep(R, p, j, x);
      ans[i] := R.mul(ans[i], x);
      ans[i] := R.add(ans[i], a[j]);
    }
    assert p[0..] == p;
  }

  /** ans[i] = a(theta^i) for every i < N. */
  method NaiveFFT<T(!new)>(R: Ring<T>, ans: array<T>, a: array<T>, N: nat, theta: T)
    requires IsRing(R) && R.ok(theta) && ans != a
    requires N >= 1 && ans.Length == N && a.Length == N && Reduced(R, a[..])
    modifies ans
    ensures IsTransform(R, ans[..], a[..], theta, false)
  {
    ghost var p := a[..];
    var thetaPow := R.one;
    for i := 0 to N
      invariant thetaPow == Pow(R, theta, i)
      invariant a[..] == p
      invariant forall k :: 0 <= k < i ==> ans[..][k] == Eval(R, p, Point(R, theta, false, k))
    {
      Horner(R, ans, a, N, i, thetaPow);
      assert MulComm(R, thetaPow, theta);
      thetaPow := R.mul(thetaPow, theta);
    }
  }

  // ---------- the recursive transforms ----------

  lemma ReducedTransform<T(!new)>(R: Ring<T>, y: seq<T>, a: seq<T>, root: T, odd: bool)
    requires IsRing(R) && IsTransform(R, y, a, root, odd)
    ensures Reduced(R, y)
  {
    forall i | 0 <= i < |y|
      ensures R.ok(y[i])
    {
      EvalOk(R, a, Point(R, root, odd, i));
    }
  }

  /** A constant polynomial is its own transform. */
  lemma TransformOfOne<T(!new)>(R: Ring<T>, a: seq<T>, root: T, odd: bool)
    requires IsRing(R) && |a| == 1 && Reduced(R, a)
    ensures IsTransform(R, a, a, root, odd)
  {
    var x := Point(R, root, odd, 0);
    assert a[1..] == [];
    MulZero(R, x);
    assert AddUnit(R, a[0]);
  }

  /** Splits a vector into its even and its odd entries. */
  method Split<T>(R: Ring<T>, a: array<T>) returns (a0: array<T>, a1: array<T>)
    requires a.Length % 2 == 0
    ensures fresh(a0) && fresh(a1) && a0 != a1
    ensures a0[..] == Evens(a[..]) && a1[..] == Odds(a[..])
    ensures Reduced(R, a[..]) ==> Reduced(R, a0[..]) && Reduced(R, a1[..])
  {
    var h := a.Length / 2;
    a0, a1 := new T[h](_ => R.zero), new T[h](_ => R.zero);
    for i := 0 to h
      invariant forall k :: 0 <= k < i ==> a0[k] == a[2 * k] && a1[k] == a[2 * k + 1]
    {
      a0[i] := a[2 * i];
      a1[i] := a[2 * i + 1];
    }
    forall k | 0 <= k < h
      ensures a0[k] == Evens(a[..])[k] && a1[k] == Odds(a[..])[k]
    {
      EvensAt(a[..], k);
      OddsAt(a[..], k);
    }
  }

  /** The factor of the k-th butterfly: w0 q^k, as the loops update it. */
  ghost function Twiddle<T>(R: Ring<T>, w0: T, q: T, k: nat): T {
    if k == 0 then w0 else R.mul(Twiddle(R, w0, q, k - 1), q)
  }

  lemma {:induction false} PlainTwiddle<T(!new)>(R: Ring<T>, root: T, k: nat)
    requires IsRing(R)
    ensures Twiddle(R, R.one, root, k) == Point(R, root, false, k)
  {
    if k > 0 {
      PlainTwiddle(R, root, k - 1);
      assert MulComm(R, root, Pow(R, root, k - 1));
    }
  }

  lemma {:induction false} OddTwiddle<T(!new)>(R: Ring<T>, root: T, k: nat)
    requires IsRing(R) && R.ok(root)
    ensures Twiddle(R, root, R.mul(root, root), k) == Point(R, root, true, k)
  {
    if k == 0 {
      PowOne(R, root);
    } else {
      OddTwiddle(R, root, k - 1);
      var p := Pow(R, root, 2 * k - 1);
      assert Pow(R, root, 2 * k + 1) == R.mul(root, R.mul(root, p)) by {
        assert Pow(R, root, 2 * k) == R.mul(root, p);
      }
      assert MulComm(R, p, R.mul(root, root)) && MulAssoc(R, root, root, p);
    }
  }

  /** The first factor of a level and the ratio of successive factors. Starting at one and
      multiplying by the root, or starting at the root and multiplying by its square, runs
      through the points. */
  ghost function Factors<T>(R: Ring<T>, root: T, odd: bool): (T, T) {
    if odd then (root, R.mul(root, root)) else (R.one, root)
  }

  lemma TwiddleIsPoint<T(!new)>(R: Ring<T>, root: T, odd: bool, k: nat)
    requires IsRing(R) && R.ok(root)
    ensures Twiddle(R, Factors(R, root, odd).0, Factors(R, root, odd).1, k) == Point(R, root, odd, k)
  {
    if odd {
      OddTwiddle(R, root, k);
    } else {
      PlainTwiddle(R, root, k);
    }
  }

  /** The outputs of the first i butterflies between the vectors y0 and y1. */
  ghost predicate Combined<T>(R: Ring<T>, y: seq<T>, y0: seq<T>, y1: seq<T>, w0: T, q: T, i: nat) {
    && |y0| == |y1| && |y| == 2 * |y0| && i <= |y0|
    && (forall k :: 0 <= k < i ==> y[k] == R.add(y0[k], R.mul(Twiddle(R, w0, q, k), y1[k])))
    && (forall k :: |y0| <= k < |y0| + i ==>
          y[k] == R.Sub(y0[k - |y0|], R.mul(Twiddle(R, w0, q, k - |y0|), y1[k - |y0|])))
  }

  lemma CombineStep<T>(R: Ring<T>, y: seq<T>, y0: seq<T>, y1: seq<T>, w0: T, q: T, i: nat)
    requires Combined(R, y, y0, y1, w0, q, i) && i < |y0|
    ensures var t := R.mul(Twiddle(R, w0, q, i), y1[i]);
            Combined(R, y[i := R.add(y0[i], t)][i + |y0| := R.Sub(y0[i], t)], y0, y1, w0, q, i + 1)
  {
  }

  /** The butterflies of one level of the recursion. */
  method Combine<T(!new)>(R: Ring<T>, a: array<T>, a0: array<T>, a1: array<T>, w0: T, q: T)
    requires a0.Length == a1.Length && a.Length == 2 * a0.Length && a != a0 && a != a1
    modifies a
    ensures Combined(R, a[..], a0[..], a1[..], w0, q, a0.Length)
  {
    ghost var y, y0, y1 := a[..], a0[..], a1[..];
    var w := w0;
    for i := 0 to a0.Length
      invariant w == Twiddle(R, w0, q, i)
      invariant a0[..] == y0 && a1[..] == y1 && a[..] == y
      invariant Combined(R, y, y0, y1, w0, q, i)
    {
      CombineStep(R, y, y0, y1, w0, q, i);
      var t := R.mul(w, a1[i]);
      a[i] := R.add(a0[i], t);
      a[i + a0.Length] := R.Sub(a0[i], t);
      y := y[i := R.add(y0[i], t)][i + |y0| := R.Sub(y0[i], t)];
      w := R.mul(w, q);
    }
  }

  /** The transforms of the two halves combine to the transform of the whole. */
  lemma CombineHalves<T(!new)>(R: Ring<T>, y: seq<T>, a: seq<T>, y0: seq<T>, y1: seq<T>, root: T, odd: bool)
    requires IsRing(R) && R.ok(root) && |a| >= 2 && |a| % 2 == 0
    requires HalfTurn(R, root, |a|, odd)
    requires IsTransform(R, y0, Evens(a), R.mul(root, root), odd)
    requires IsTransform(R, y1, Odds(a), R.mul(root, root), odd)
    requires Combined(R, y, y0, y1, Factors(R, root, odd).0, Factors(R, root, odd).1, |y0|)
    ensures IsTransform(R, y, a, root, odd)
  {
    var h := |a| / 2;
    assert |y0| == h && |y| == 2 * h;
    forall k: nat | k < h
      ensures BothAt(R, y, a, root, odd, h, k)
    {
      CombinedLower(R, y, a, y0, y1, root, odd, k);
      CombinedUpper(R, y, a, y0, y1, root, odd, k);
    }
    FromHalves(R, y, a, root, odd, h);
  }

  ghost predicate ValueAt<T>(R: Ring<T>, y: seq<T>, a: seq<T>, root: T, odd: bool, i: nat) {
    i < |y| && y[i] == Eval(R, a, Point(R, root, odd, i))
  }

  ghost predicate BothAt<T>(R: Ring<T>, y: seq<T>, a: seq<T>, root: T, odd: bool, h: nat, k: nat) {
    ValueAt(R, y, a, root, odd, k) && ValueAt(R, y, a, root, odd, k + h)
  }

  lemma FromHalves<T>(R: Ring<T>, y: seq<T>, a: seq<T>, root: T, odd: bool, h: nat)
    requires |y| == |a| == 2 * h && forall k: nat :: k < h ==> BothAt(R, y, a, root, odd, h, k)
    ensures IsTransform(R, y, a, root, odd)
  {
    forall i | 0 <= i < |a|
      ensures y[i] == Eval(R, a, Point(R, root, odd, i))
    {
      assert BothAt(R, y, a, root, odd, h, if i < h then i else i - h);
    }
  }

  lemma CombinedLower<T(!new)>(R: Ring<T>, y: seq<T>, a: seq<T>, y0: seq<T>, y1: seq<T>, root: T, odd: bool, k: nat)
    requires IsRing(R) && R.ok(root) && |a| >= 2 && |a| % 2 == 0 && k < |a| / 2
    requires HalfTurn(R, root, |a|, odd)
    requires IsTransform(R, y0, Evens(a), R.mul(root, root), odd)
    requires IsTransform(R, y1, Odds(a), R.mul(root, root), odd)
    requires Combined(R, y, y0, y1, Factors(R, root, odd).0, Factors(R, root, odd).1, |y0|)
    ensures ValueAt(R, y, a, root, odd, k)
  {
    ButterflyAt(R, a, root, odd, k);
    assert |y0| == |a| / 2;
  }

  lemma CombinedUpper<T(!new)>(R: Ring<T>, y: seq<T>, a: seq<T>, y0: seq<T>, y1: seq<T>, root: T, odd: bool, k: nat)
    requires IsRing(R) && R.ok(root) && |a| >= 2 && |a| % 2 == 0 && k < |a| / 2
    requires HalfTurn(R, root, |a|, odd)
    requires IsTransform(R, y0, Evens(a), R.mul(root, root), odd)
    requires IsTransform(R, y1, Odds(a), R.mul(root, root), odd)
    requires Combined(R, y, y0, y1, Factors(R, root, odd).0, Factors(R, root, odd).1, |y0|)
    ensures ValueAt(R, y, a, root, odd, k + |a| / 2)
  {
    ButterflyAt(R, a, root, odd, k);
    assert |y0| == |a| / 2;
    assert y[k + |y0|] == R.Sub(y0[k], R.mul(Twiddle(R, Factors(R, root, odd).0, Factors(R, root, odd).1, k), y1[k]));
  }

  /** The butterfly at the k-th point, with the factor the loops use. */
  lemma ButterflyAt<T(!new)>(R: Ring<T>, a: seq<T>, root: T, odd: bool, k: nat)
    requires IsRing(R) && R.ok(root) && |a| >= 2 && |a| % 2 == 0 && HalfTurn(R, root, |a|, odd)
    ensures var t := R.mul(Twiddle(R, Factors(R, root, odd).0, Factors(R, root, odd).1, k),
                           Eval(R, Odds(a), Point(R, R.mul(root, root), odd, k)));
            var e := Eval(R, Evens(a), Point(R, R.mul(root, root), odd, k));
            && Eval(R, a, Point(R, root, odd, k)) == R.add(e, t)
            && Eval(R, a, Point(R, root, odd, k + |a| / 2)) == R.Sub(e, t)
  {
    TwiddleIsPoint(R, root, odd, k);
    PointLaws(R, root, |a|, odd, k);
    Butterfly(R, a, Point(R, root, odd, k));
  }

  /** The recursive transform: a becomes its values at the powers of theta. */
  method FFT<T(!new)>(R: Ring<T>, a: array<T>, N: nat, theta: T)
    requires IsRing(R) && R.ok(theta) && a.Length == N && Reduced(R, a[..])
    requires IsPow2(N) && HalfTurn(R, theta, N, false)
    modifies a
    ensures IsTransform(R, a[..], old(a[..]), theta, false)
    decreases N
  {
    ghost var was := a[..];
    if N == 1 {
      TransformOfOne(R, was, theta, false);
      return;
    }
    if N < 5 {
      var b := new T[N](_ => R.zero);
      NaiveFFT(R, b, a, N, theta);
      forall k | 0 <= k < N {
        a[k] := b[k];
      }
      assert a[..] == b[..];
      return;
    }
    var a0, a1 := Split(R, a);
    var theta2 := R.mul(theta, theta);
    assert Closed(R, theta, theta);
    HalfTurnSquare(R, theta, N, false);
    FFT(R, a0, N / 2, theta2);
    FFT(R, a1, N / 2, theta2);
    Combine(R, a, a0, a1, R.one, theta);
    CombineHalves(R, a[..], was, a0[..], a1[..], theta, false);
  }

  /** The recursive transform modulo x^N + 1: a becomes its values at the odd powers of alpha. */
  method FFT2<T(!new)>(R: Ring<T>, a: array<T>, N: nat, alpha: T)
    requires IsRing(R) && R.ok(alpha) && a.Length == N && Reduced(R, a[..])
    requires IsPow2(N) && HalfTurn(R, alpha, N, true)
    modifies a
    ensures IsTransform(R, a[..], old(a[..]), alpha, true)
    decreases N
  {
    ghost var was := a[..];
    if N == 1 {
      TransformOfOne(R, was, alpha, true);
      return;
    }
    var a0, a1 := Split(R, a);
    var alpha2 := R.mul(alpha, alpha);
    assert Closed(R, alpha, alpha);
    HalfTurnSquare(R, alpha, N, true);
    FFT2(R, a0, N / 2, alpha2);
    FFT2(R, a1, N / 2, alpha2);
    Combine(R, a, a0, a1, alpha, alpha2);
    CombineHalves(R, a[..], was, a0[..], a1[..], alpha, true);
  }
}
