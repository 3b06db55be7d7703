/**
 FHE/FFT_Data.cpp and BFFT in FHE/FFT.cpp: the transform for a length m that is not a power
 of two, by Bluestein's chirp substitution and a cyclic convolution of length twop > 2m.
 The root searches of Math/Subroutines.cpp are parameters, constrained by what they test.
 */
module Bluestein {
  import opened Rings
  import opened FFT
  import opened FFTIter
  import opened Fourier
  import opened Integers

  // ---------- sizes ----------

  function NumBits(m: nat): nat {
    if m == 0 then 0 else 1 + NumBits(m / 2)
  }

  function Hwt(m: nat): nat {
    if m == 0 then 0 else m % 2 + Hwt(m / 2)
  }

  lemma {:induction false} NumBitsAbove(m: nat)
    ensures m < TwoTo(NumBits(m))
  {
    if m > 0 {
      NumBitsAbove(m / 2);
    }
  }

  lemma {:induction false} NumBitsBelow(m: nat)
    requires m > 0
    ensures TwoTo(NumBits(m)) <= 2 * m
  {
    if m > 1 {
      NumBitsBelow(m / 2);
    } else {
      assert NumBits(1) == 1 + NumBits(0) && TwoTo(1) == 2 * TwoTo(0);
    }
  }

  /** The convolution length: the power of two that leaves room for the 2m - 1 chirp entries without
      wrapping, and is at most twice as long. */
  function ConvolutionLength(m: nat): (n: nat)
    ensures IsPow2(n) && n > 2 * m && (m > 0 ==> n <= 4 * m)
  {
    TwoToIsPow2(NumBits(m) + 1);
    NumBitsAbove(m);
    if m > 0 then
      NumBitsBelow(m);
      TwoTo(NumBits(m) + 1)
    else TwoTo(NumBits(m) + 1)
  }

  /** The Hamming weight test of the initialisation recognises the powers of two. */
  lemma {:induction false} HwtOnePow2(m: nat)
    requires m > 0
    ensures Hwt(m) == 1 <==> IsPow2(m)
    ensures Hwt(m) >= 1
  {
    if m > 1 {
      HwtOnePow2(m / 2);
    }
  }

  // ---------- chirps ----------

  /** g^(i^2), with the exponent reduced modulo 2m as the table does. */
  ghost function Chirp<T>(R: Ring<T>, g: T, m: nat, i: nat): T
    requires m > 0
  {
    Pow(R, g, (i * i) % (2 * m))
  }

  /** g is a 2m-th root of unity with inverse gi whose square has exact order m. This is what
      a zero of Phi_m(x^2) is, whether m is odd or even. */
  ghost predicate ChirpRoot<T>(R: Ring<T>, g: T, gi: T, m: nat) {
    && R.ok(g) && R.ok(gi)
    && R.mul(g, gi) == R.one
    && Primitive(R, R.mul(g, g), R.mul(gi, gi), m)
  }

  lemma ChirpRootSwap<T(!new)>(R: Ring<T>, g: T, gi: T, m: nat)
    requires IsRing(R) && ChirpRoot(R, g, gi, m)
    ensures ChirpRoot(R, gi, g, m)
  {
    assert MulComm(R, g, gi) && MulComm(R, R.mul(g, g), R.mul(gi, gi));
    InverseOrder(R, R.mul(g, g), R.mul(gi, gi), m);
    forall d: nat | 0 < d < m
      ensures Pow(R, R.mul(gi, gi), d) != R.one
    {
      InverseNotOne(R, R.mul(g, g), R.mul(gi, gi), m, d);
    }
  }

  lemma ChirpExact<T(!new)>(R: Ring<T>, g: T, gi: T, m: nat, i: nat)
    requires IsRing(R) && ChirpRoot(R, g, gi, m)
    ensures Chirp(R, g, m, i) == Pow(R, g, i * i)
  {
    var e, n := i * i, 2 * m;
    DivMod(e, n);
    var k: nat := e / n;
    PowSquare(R, g, m);
    assert Pow(R, g, n) == R.one;
    PowPow(R, g, n, k);
    PowOfOne(R, k);
    assert n * k == k * n;
    PowAdd(R, g, e % n, n * k);
    PowOk(R, g, e % n);
    assert MulUnit(R, Pow(R, g, e % n));
  }

  ghost function Distance(i: nat, j: nat): nat {
    if i < j then j - i else i - j
  }

  lemma SquareOfDifference(i: nat, j: nat)
    ensures j * j + i * i == Distance(i, j) * Distance(i, j) + 2 * i * j
  {
    if i < j {
      assert (j - i) * (j - i) == j * j - 2 * i * j + i * i;
    } else {
      assert (i - j) * (i - j) == i * i - 2 * i * j + j * j;
    }
  }

  /** g^(j^2) g^(-(i-j)^2) g^(i^2) == (g^(2i))^j. */
  lemma ChirpIdentity<T(!new)>(R: Ring<T>, g: T, gi: T, m: nat, i: nat, j: nat)
    requires IsRing(R) && ChirpRoot(R, g, gi, m)
    ensures R.mul(R.mul(Chirp(R, g, m, j), Chirp(R, gi, m, Distance(i, j))), Chirp(R, g, m, i))
         == Pow(R, Pow(R, g, 2 * i), j)
  {
    var d := Distance(i, j);
    ChirpExact(R, g, gi, m, i);
    ChirpExact(R, g, gi, m, j);
    ChirpRootSwap(R, g, gi, m);
    ChirpExact(R, gi, g, m, d);
    var p, q, s := Pow(R, g, j * j), Pow(R, gi, d * d), Pow(R, g, i * i);
    assert MulAssoc(R, p, q, s) && MulComm(R, q, s) && MulAssoc(R, p, s, q);
    PowAdd(R, g, j * j, i * i);
    SquareOfDifference(i, j);
    CancelPowers(R, g, gi, d * d, 2 * i * j);
    PowPow(R, g, 2 * i, j);
  }

  // ---------- the tables ----------

  /** b before its transform: the inverse chirp, mirrored about entry m - 1. */
  ghost function ChirpFilter<T>(R: Ring<T>, gi: T, m: nat, n: nat): seq<T>
    requires m > 0
  {
    seq(n, l requires 0 <= l < n => if l <= 2 * m - 2 then Chirp(R, gi, m, Distance(l, m - 1)) else R.zero)
  }

  /** The weighted input. */
  ghost function Weighted<T>(R: Ring<T>, g: T, m: nat, a: seq<T>): seq<T>
    requires m > 0
  {
    seq(|a|, j requires 0 <= j < |a| => R.mul(Chirp(R, g, m, j), a[j]))
  }

  /** Sliding the filter over the weighted input and weighting once more evaluates a at g^(2i). */
  lemma {:induction false} SlideIsEval<T(!new)>(R: Ring<T>, g: T, gi: T, m: nat, n: nat, a: seq<T>, i: nat, j: nat)
    requires IsRing(R) && ChirpRoot(R, g, gi, m) && n > 2 * m && i < m && |a| <= m && j <= |a|
    ensures R.mul(Slide(R, Weighted(R, g, m, a)[j..], ChirpFilter(R, gi, m, n), i + m - 1 - j), Chirp(R, g, m, i))
         == R.mul(Pow(R, Pow(R, g, 2 * i), j), Eval(R, a[j..], Pow(R, g, 2 * i)))
    decreases |a| - j
  {
    var x, b, z, l := Weighted(R, g, m, a), ChirpFilter(R, gi, m, n), Pow(R, g, 2 * i), i + m - 1 - j;
    var c := Chirp(R, g, m, i);
    if j == |a| {
      MulZero(R, c);
      MulZero(R, Pow(R, z, j));
    } else {
      SlideIsEval(R, g, gi, m, n, a, i, j + 1);
      assert x[j..][1..] == x[j + 1..] && a[j..][1..] == a[j + 1..];
      assert x[j] == R.mul(Chirp(R, g, m, j), a[j]);
      assert b[l] == Chirp(R, gi, m, Distance(i, j)) by {
        assert Distance(l, m - 1) == Distance(i, j);
      }
      HeadTerm(R, g, gi, m, i, j, a[j]);
      SlideStep(R, R.mul(x[j], b[l]), Slide(R, x[j + 1..], b, l - 1), c, z, j, a[j], Eval(R, a[j + 1..], z));
    }
  }

  lemma SlideStep<T(!new)>(R: Ring<T>, head: T, rest: T, c: T, z: T, j: nat, v: T, e: T)
    requires IsRing(R)
    requires R.mul(head, c) == R.mul(Pow(R, z, j), v)
    requires R.mul(rest, c) == R.mul(Pow(R, z, j + 1), e)
    ensures R.mul(R.add(head, rest), c) == R.mul(Pow(R, z, j), R.add(v, R.mul(z, e)))
  {
    assert MulComm(R, R.add(head, rest), c) && Distrib(R, c, head, rest);
    assert MulComm(R, c, head) && MulComm(R, c, rest);
    assert Distrib(R, Pow(R, z, j), v, R.mul(z, e));
    assert MulAssoc(R, Pow(R, z, j), z, e) && MulComm(R, Pow(R, z, j), z);
  }

  lemma HeadTerm<T(!new)>(R: Ring<T>, g: T, gi: T, m: nat, i: nat, j: nat, v: T)
    requires IsRing(R) && ChirpRoot(R, g, gi, m)
    ensures R.mul(R.mul(R.mul(Chirp(R, g, m, j), v), Chirp(R, gi, m, Distance(i, j))), Chirp(R, g, m, i))
         == R.mul(Pow(R, Pow(R, g, 2 * i), j), v)
  {
    var p, q, s := Chirp(R, g, m, j), Chirp(R, gi, m, Distance(i, j)), Chirp(R, g, m, i);
    assert MulAssoc(R, p, v, q) && MulComm(R, v, q) && MulAssoc(R, p, q, v);
    assert MulAssoc(R, R.mul(p, q), v, s) && MulComm(R, v, s) && MulAssoc(R, R.mul(p, q), s, v);
    ChirpIdentity(R, g, gi, m, i, j);
  }

  // ---------- the convolution ----------

  lemma PointwiseProduct<T(!new)>(R: Ring<T>, x: seq<T>, b: seq<T>, y: seq<T>, bt: seq<T>, p: seq<T>, w: T, v: T)
    requires IsRing(R) && |x| <= |b| && Primitive(R, w, v, |b|)
    requires IsTransform(R, y, x + Zeros(R, |b| - |x|), w, false) && IsTransform(R, bt, b, w, false)
    requires |p| == |b| && forall i :: 0 <= i < |p| ==> p[i] == R.mul(y[i], bt[i])
    ensures IsTransform(R, p, Cyclic(R, x, b), w, false)
  {
    forall i | 0 <= i < |p|
      ensures p[i] == Eval(R, Cyclic(R, x, b), Point(R, w, false, i))
    {
      var z := Pow(R, w, i);
      PowOk(R, w, i);
      PowOfPow(R, w, i, |b|);
      EvalPadded(R, x, |b| - |x|, z);
      EvalCyclic(R, x, b, z);
    }
  }

  /** Entry i + m - 1 of the convolution, weighted, is the value of a at g^(2i). */
  lemma ConvolvedEntry<T(!new)>(R: Ring<T>, g: T, gi: T, m: nat, n: nat, a: seq<T>, i: nat)
    requires IsRing(R) && ChirpRoot(R, g, gi, m) && n > 2 * m && i < m && |a| <= m
    ensures var c := Cyclic(R, Weighted(R, g, m, a), ChirpFilter(R, gi, m, n));
      && |c| == n && Reduced(R, c)
      && R.mul(c[i + m - 1], Chirp(R, g, m, i)) == Eval(R, a, Pow(R, g, 2 * i))
  {
    var x, b, l := Weighted(R, g, m, a), ChirpFilter(R, gi, m, n), i + m - 1;
    CyclicReduced(R, x, b);
    CyclicIsSlide(R, x, b, l);
    SlideIsEval(R, g, gi, m, n, a, i, 0);
    assert x[0..] == x && a[0..] == a;
    var z := Pow(R, g, 2 * i);
    EvalOk(R, a, z);
    assert MulUnit(R, Eval(R, a, z));
  }

  /** Transform and inverse transform multiply an entry by the length. */
  lemma TransformedEntry<T(!new)>(R: Ring<T>, c: seq<T>, p: seq<T>, out: seq<T>, w: T, v: T, l: nat, s: T, e: T)
    requires IsRing(R) && IsDomain(R) && Primitive(R, w, v, |c|) && Reduced(R, c) && l < |c|
    requires IsTransform(R, p, c, w, false) && IsTransform(R, out, p, v, false) && R.mul(c[l], s) == e
    ensures |out| == |c| && R.mul(out[l], s) == R.mul(FromNat(R, |c|), e)
  {
    TransformInverse(R, c, p, w, v, l);
    var k := FromNat(R, |c|);
    assert MulComm(R, c[l], k) && MulAssoc(R, k, c[l], s);
  }

  /** The transform pair multiplies the convolution c by its length n; entry i + m - 1 of it,
      weighted, is n times the value of a at g^(2i). */
  lemma Convolved<T(!new)>(R: Ring<T>, g: T, gi: T, m: nat, n: nat, a: seq<T>, c: seq<T>, p: seq<T>, out: seq<T>, w: T,
                           v: T, i: nat)
    requires IsRing(R) && IsDomain(R) && ChirpRoot(R, g, gi, m) && n > 2 * m && i < m && |a| <= m
    requires Primitive(R, w, v, n) && c == Cyclic(R, Weighted(R, g, m, a), ChirpFilter(R, gi, m, n))
    requires IsTransform(R, p, c, w, false) && IsTransform(R, out, p, v, false)
    ensures |out| == n
    ensures R.mul(out[i + m - 1], Chirp(R, g, m, i)) == R.mul(FromNat(R, n), Eval(R, a, Pow(R, g, 2 * i)))
  {
    ConvolvedEntry(R, g, gi, m, n, a, i);
    TransformedEntry(R, c, p, out, w, v, i + m - 1, Chirp(R, g, m, i), Eval(R, a, Pow(R, g, 2 * i)));
  }

  // ---------- fields ----------

  /** Inverses of the non-zero elements, as Inv computes them; the characteristic is not two. */
  ghost predicate IsField<T(!new)>(R: Ring<T>, inv: T -> T) {
    && IsRing(R) && IsDomain(R)
    && R.neg(R.one) != R.one
    && forall x :: Invertible(R, inv, x)
  }

  ghost predicate Invertible<T>(R: Ring<T>, inv: T -> T, x: T) {
    R.ok(x) && x != R.zero ==> R.ok(inv(x)) && R.mul(x, inv(x)) == R.one
  }

  lemma FromNatOk<T(!new)>(R: Ring<T>, n: nat)
    requires IsRing(R)
    ensures R.ok(FromNat(R, n))
  {
    if n > 0 {
      assert Closed(R, FromNat(R, n - 1), R.one);
    }
  }

  lemma {:induction false} FromNatAdd<T(!new)>(R: Ring<T>, m: nat, n: nat)
    requires IsRing(R)
    ensures FromNat(R, m + n) == R.add(FromNat(R, m), FromNat(R, n))
    decreases n
  {
    if n == 0 {
      FromNatOk(R, m);
      assert AddUnit(R, FromNat(R, m));
    } else {
      FromNatAdd(R, m, n - 1);
      assert AddAssoc(R, FromNat(R, m), FromNat(R, n - 1), R.one);
    }
  }

  lemma {:induction false} FromNatMul<T(!new)>(R: Ring<T>, m: nat, n: nat)
    requires IsRing(R)
    ensures FromNat(R, m * n) == R.mul(FromNat(R, m), FromNat(R, n))
    decreases n
  {
    if n == 0 {
      MulZero(R, FromNat(R, m));
    } else {
      FromNatMul(R, m, n - 1);
      assert m * n == m * (n - 1) + m;
      FromNatAdd(R, m * (n - 1), m);
      FromNatOk(R, m);
      assert Distrib(R, FromNat(R, m), FromNat(R, n - 1), R.one) && MulUnit(R, FromNat(R, m));
    }
  }

  lemma InverseUnique<T(!new)>(R: Ring<T>, x: T, y: T, z: T)
    requires IsRing(R) && R.ok(y) && R.ok(z)
    requires R.mul(x, y) == R.one && R.mul(x, z) == R.one
    ensures y == z
  {
    assert MulComm(R, x, y) && MulAssoc(R, y, x, z) && MulUnit(R, y) && MulUnit(R, z);
  }

  lemma NonZeroRoot<T(!new)>(R: Ring<T>, x: T, y: T)
    requires IsRing(R) && R.one != R.zero && R.mul(x, y) == R.one
    ensures x != R.zero && y != R.zero
  {
    MulZero(R, y);
    MulZero(R, x);
  }

  // ---------- what the transforms compute ----------

  /** y[i] = sum over j of a[j] root^(2ij). */
  ghost predicate IsForward<T>(R: Ring<T>, y: seq<T>, a: seq<T>, root: T, m: nat) {
    |y| == m && forall i :: 0 <= i < m ==> R.ok(y[i]) && y[i] == Eval(R, a, Pow(R, root, 2 * i))
  }

  /** m z[i] = sum over j of a[j] root^(-2ij), where rootInv = root^-1. */
  ghost predicate IsBackward<T>(R: Ring<T>, z: seq<T>, a: seq<T>, rootInv: T, m: nat) {
    |z| == m && forall i :: 0 <= i < m ==>
      R.ok(z[i]) && R.mul(FromNat(R, m), z[i]) == Eval(R, a, Pow(R, rootInv, 2 * i))
  }

  /** The backward transform undoes the forward one. */
  lemma RoundTrip<T(!new)>(R: Ring<T>, inv: T -> T, a: seq<T>, y: seq<T>, z: seq<T>, root: T, m: nat)
    requires IsField(R, inv) && ChirpRoot(R, root, inv(root), m) && FromNat(R, m) != R.zero
    requires |a| == m && Reduced(R, a)
    requires IsForward(R, y, a, root, m) && IsBackward(R, z, y, inv(root), m)
    ensures z == a
  {
    var w, v, k := R.mul(root, root), R.mul(inv(root), inv(root)), FromNat(R, m);
    forall i | 0 <= i < m
      ensures y[i] == Eval(R, a, Point(R, w, false, i))
    {
      PowSquare(R, root, i);
    }
    forall l | 0 <= l < m
      ensures z[l] == a[l]
    {
      TransformInverse(R, a, y, w, v, l);
      PowSquare(R, inv(root), l);
      FromNatOk(R, m);
      assert Invertible(R, inv, k);
      assert MulComm(R, a[l], k);
      CancelFactor(R, k, inv(k), z[l], a[l]);
    }
  }

  lemma CancelFactor<T(!new)>(R: Ring<T>, k: T, ki: T, x: T, y: T)
    requires IsRing(R) && R.ok(x) && R.ok(y) && R.mul(k, ki) == R.one
    requires R.mul(k, x) == R.mul(k, y)
    ensures x == y
  {
    assert MulComm(R, k, ki);
    assert MulAssoc(R, ki, k, x) && MulAssoc(R, ki, k, y);
    assert MulUnit(R, x) && MulUnit(R, y);
  }

  /** Multiplying by the stored weights finishes the forward or the backward transform. */
  lemma Unscale<T(!new)>(R: Ring<T>, u: T, c: T, s: T, n: nat, k: nat, e: T)
    requires IsRing(R) && R.ok(e)
    requires R.mul(u, c) == R.mul(FromNat(R, n), e)
    requires R.mul(FromNat(R, n * k), s) == R.one
    ensures R.mul(FromNat(R, k), R.mul(u, R.mul(c, s))) == e
  {
    var N, K := FromNat(R, n), FromNat(R, k);
    FromNatMul(R, n, k);
    assert MulAssoc(R, u, c, s);
    var ns := R.mul(R.mul(N, e), s);
    // K ((N e) s) == ((N K) s) e
    assert MulComm(R, N, e) && MulAssoc(R, e, N, s) && MulComm(R, e, R.mul(N, s));
    assert MulAssoc(R, K, R.mul(N, s), e);
    assert MulAssoc(R, K, N, s) && MulComm(R, K, N);
    assert MulUnit(R, e);
  }

  // ---------- the class ----------

  /** The chirp tables of one direction with root g, as the loop over i fills them. */
  method MakeTables<T(!new)>(R: Ring<T>, g: T, rInv: T, scale: T, m: nat, n: nat)
      returns (p: seq<T>, pi: seq<T>, b: seq<T>)
    requires IsRing(R) && R.ok(g) && R.ok(rInv) && R.ok(scale) && m > 0 && n > 2 * m
    ensures |p| == m && forall i :: 0 <= i < m ==> p[i] == Chirp(R, g, m, i)
    ensures |pi| == m && forall i :: 0 <= i < m ==> pi[i] == R.mul(Chirp(R, g, m, i), scale)
    ensures b == ChirpFilter(R, rInv, m, n)
  {
    p, pi, b := seq(m, _ => R.zero), seq(m, _ => R.zero), seq(n, _ => R.zero);
    p := p[0 := R.one];
    pi := pi[0 := scale];
    b := b[m - 1 := R.one];
    assert 0 % (2 * m) == 0 && MulUnit(R, scale);
    for i := 1 to m
      invariant |p| == m && |pi| == m && |b| == n
      invariant forall k :: 0 <= k < i ==> p[k] == Chirp(R, g, m, k)
      invariant forall k :: 0 <= k < i ==> pi[k] == R.mul(Chirp(R, g, m, k), scale)
      invariant forall l :: 0 <= l < n ==>
        b[l] == if Distance(l, m - 1) < i then Chirp(R, rInv, m, Distance(l, m - 1)) else R.zero
    {
      var iSqr := (i * i) % (2 * m);
      var pw := Power(R, g, iSqr);
      p := p[i := pw];
      pi := pi[i := R.mul(pw, scale)];
      var bi := Power(R, rInv, iSqr);
      b := b[m - 1 + i := bi];
      b := b[m - 1 - i := bi];
    }
  }

  /** FFT_Iter applied to a vector held as a value. */
  method Transformed<T(!new)>(R: Ring<T>, s: seq<T>, root: T) returns (t: seq<T>)
    requires IsRing(R) && R.ok(root) && Reduced(R, s) && IsPow2(|s|) && HalfTurn(R, root, |s|, false)
    ensures IsTransform(R, t, s, root, false)
  {
    var a := new T[|s|](i requires 0 <= i < |s| => s[i]);
    assert a[..] == s;
    FFT_Iter(R, a, |s|, root);
    t := a[..];
  }

  lemma FilterReduced<T(!new)>(R: Ring<T>, gi: T, m: nat, n: nat)
    requires IsRing(R) && m > 0
    ensures Reduced(R, ChirpFilter(R, gi, m, n))
  {
    var b := ChirpFilter(R, gi, m, n);
    forall l | 0 <= l < n
      ensures R.ok(b[l])
    {
      PowOk(R, gi, (Distance(l, m - 1) * Distance(l, m - 1)) % (2 * m));
    }
  }

  lemma InverseHalfTurn<T(!new)>(R: Ring<T>, w: T, v: T, n: nat)
    requires IsRing(R) && R.mul(w, v) == R.one && n >= 2 && HalfTurn(R, w, n, false)
    ensures HalfTurn(R, v, n, false)
  {
    var q := Pow(R, v, n / 2);
    InversePowers(R, w, v, n / 2);
    PowOk(R, v, n / 2);
    MulNeg(R, q, R.one);
    assert MulUnit(R, q);
    assert R.neg(q) == R.one;
    NegNeg(R, q);
  }

  /** From the test of Find_Primitive_Root_2power to a root of exact order n. */
  lemma TwoRootPrimitive<T(!new)>(R: Ring<T>, inv: T -> T, w: T, n: nat)
    requires IsField(R, inv) && R.ok(w) && IsPow2(n) && n >= 2 && HalfTurn(R, w, n, false)
    ensures Primitive(R, w, inv(w), n) && HalfTurn(R, inv(w), n, false)
  {
    HalfTurnOrder(R, w, n);
    PowAdd(R, w, 1, n - 1);
    assert Pow(R, w, n) == R.mul(w, Pow(R, w, n - 1));
    NonZeroRoot(R, w, Pow(R, w, n - 1));
    assert Invertible(R, inv, w);
    InverseHalfTurn(R, w, inv(w), n);
    forall d: nat | 0 < d < n
      ensures Pow(R, w, d) != R.one
    {
      HalfTurnPrimitive(R, w, n, d);
    }
  }

  /** One direction of the finished tables: root g with inverse gi, lengths m and n, root w of
      the convolution. */
  ghost predicate Direction<T>(R: Ring<T>, g: T, gi: T, m: nat, n: nat, w: T, scale: T,
                               p: seq<T>, pi: seq<T>, bt: seq<T>) {
    && m > 0 && |p| == m && |pi| == m
    && (forall i :: 0 <= i < m ==> p[i] == Chirp(R, g, m, i))
    && (forall i :: 0 <= i < m ==> pi[i] == R.mul(Chirp(R, g, m, i), scale))
    && IsTransform(R, bt, ChirpFilter(R, gi, m, n), w, false)
  }

  /** The pointwise product of the two transforms is that of the convolution. */
  lemma ProductIsConvolved<T(!new)>(R: Ring<T>, g: T, gi: T, m: nat, n: nat, w: T, v: T, bt: seq<T>, a: seq<T>,
                                    y: seq<T>, q: seq<T>)
    requires IsRing(R) && 0 < 2 * m < n && |a| <= m && Primitive(R, w, v, n)
    requires IsTransform(R, bt, ChirpFilter(R, gi, m, n), w, false)
    requires IsTransform(R, y, Weighted(R, g, m, a) + Zeros(R, n - |a|), w, false)
    requires |q| == n && forall l :: 0 <= l < n ==> q[l] == R.mul(y[l], bt[l])
    ensures IsTransform(R, q, Cyclic(R, Weighted(R, g, m, a), ChirpFilter(R, gi, m, n)), w, false)
  {
    PointwiseProduct(R, Weighted(R, g, m, a), ChirpFilter(R, gi, m, n), y, bt, q, w, v);
  }

  /** What BFFT leaves in entry i: scaled by n k, it is the value of a at g^(2i). */
  lemma BluesteinEntry<T(!new)>(R: Ring<T>, g: T, gi: T, m: nat, n: nat, k: nat, w: T, v: T, scale: T,
                                pi: seq<T>, a: seq<T>, q: seq<T>, out: seq<T>, i: nat)
    requires IsRing(R) && IsDomain(R) && ChirpRoot(R, g, gi, m) && n > 2 * m && Primitive(R, w, v, n)
    requires |a| <= m && i < m && |pi| == m && pi[i] == R.mul(Chirp(R, g, m, i), scale)
    requires R.mul(FromNat(R, n * k), scale) == R.one
    requires IsTransform(R, q, Cyclic(R, Weighted(R, g, m, a), ChirpFilter(R, gi, m, n)), w, false)
    requires IsTransform(R, out, q, v, false)
    ensures |out| == n && R.ok(R.mul(out[i + m - 1], pi[i]))
    ensures R.mul(FromNat(R, k), R.mul(out[i + m - 1], pi[i])) == Eval(R, a, Pow(R, g, 2 * i))
  {
    Convolved(R, g, gi, m, n, a, Cyclic(R, Weighted(R, g, m, a), ChirpFilter(R, gi, m, n)), q, out, w, v, i);
    EvalOk(R, a, Pow(R, g, 2 * i));
    Unscale(R, out[i + m - 1], Chirp(R, g, m, i), scale, n, k, Eval(R, a, Pow(R, g, 2 * i)));
    assert Closed(R, out[i + m - 1], pi[i]);
  }

  /** All tables of both directions are complete and a transform can be run. */
  ghost predicate TablesReady<T(!new)>(R: Ring<T>, inv: T -> T, m: nat, n: nat, root: seq<T>, two_root: seq<T>,
                                       powers: seq<seq<T>>, powers_i: seq<seq<T>>, b: seq<seq<T>>) {
    && n > 2 * m && m > 0 && IsPow2(n)
    && |root| == |two_root| == |powers| == |powers_i| == |b| == 2
    && ChirpRoot(R, root[0], root[1], m) && root[1] == inv(root[0])
    && Primitive(R, two_root[0], two_root[1], n)
    && HalfTurn(R, two_root[0], n, false) && HalfTurn(R, two_root[1], n, false)
    && DirectionReady(R, inv, root[0], root[1], m, n, 1, two_root[0], powers[0], powers_i[0], b[0])
    && DirectionReady(R, inv, root[1], root[0], m, n, m, two_root[0], powers[1], powers_i[1], b[1])
  }

  ghost predicate DirectionReady<T>(R: Ring<T>, inv: T -> T, g: T, gi: T, m: nat, n: nat, k: nat, w: T,
                                    p: seq<T>, pi: seq<T>, bt: seq<T>) {
    && R.mul(FromNat(R, n * k), inv(FromNat(R, n * k))) == R.one
    && Direction(R, g, gi, m, n, w, inv(FromNat(R, n * k)), p, pi, bt)
  }

  /** Fills the tables of one direction and transforms b. */
  method MakeDirection<T(!new)>(R: Ring<T>, inv: T -> T, g: T, gi: T, m: nat, n: nat, k: nat, w: T)
      returns (p: seq<T>, pi: seq<T>, b: seq<T>)
    requires IsField(R, inv) && R.ok(g) && R.ok(gi) && R.ok(w)
    requires m > 0 && n > 2 * m && IsPow2(n) && HalfTurn(R, w, n, false)
    requires FromNat(R, n * k) != R.zero
    ensures DirectionReady(R, inv, g, gi, m, n, k, w, p, pi, b)
  {
    FromNatOk(R, n * k);
    assert Invertible(R, inv, FromNat(R, n * k));
    p, pi, b := MakeTables(R, g, gi, inv(FromNat(R, n * k)), m, n);
    FilterReduced(R, gi, m, n);
    b := Transformed(R, b, w);
  }

  lemma RootsInverse<T(!new)>(R: Ring<T>, inv: T -> T, g: T, m: nat)
    requires IsField(R, inv) && ChirpRoot(R, g, inv(g), m)
    ensures inv(inv(g)) == g
  {
    ChirpRootSwap(R, g, inv(g), m);
    NonZeroRoot(R, g, inv(g));
    assert Invertible(R, inv, inv(g));
    InverseUnique(R, inv(g), inv(inv(g)), g);
  }

  /** A root with a power that is minus one has an inverse. */
  lemma HalfRootInverts<T(!new)>(R: Ring<T>, inv: T -> T, g: T, n: nat)
    requires IsField(R, inv) && R.ok(g) && n > 0 && Pow(R, g, n) == R.neg(R.one)
    ensures R.ok(inv(g)) && R.mul(g, inv(g)) == R.one
  {
    assert AddInverse(R, R.one) && AddUnit(R, R.one);
    MulZero(R, Pow(R, g, n - 1));
    assert Invertible(R, inv, g);
  }

  /** Powers of two are not zero where minus one is not one. */
  lemma {:induction false} PowerNotZero<T(!new)>(R: Ring<T>, inv: T -> T, n: nat)
    requires IsField(R, inv) && IsPow2(n)
    ensures FromNat(R, n) != R.zero
  {
    assert AddUnit(R, R.one);
    assert FromNat(R, 0) == R.zero && FromNat(R, 1) == R.one;
    if n > 1 {
      PowerNotZero(R, inv, n / 2);
      if FromNat(R, 2) == R.zero {
        NegUnique(R, R.one, R.one);
      }
      FromNatMul(R, 2, n / 2);
      FromNatOk(R, 2);
      FromNatOk(R, n / 2);
      assert NoZeroDivisor(R, FromNat(R, 2), FromNat(R, n / 2));
    }
  }

  lemma PowerInvertible<T(!new)>(R: Ring<T>, inv: T -> T, n: nat)
    requires IsField(R, inv) && IsPow2(n)
    ensures R.ok(inv(FromNat(R, n))) && R.mul(FromNat(R, n), inv(FromNat(R, n))) == R.one
  {
    PowerNotZero(R, inv, n);
    FromNatOk(R, n);
    assert Invertible(R, inv, FromNat(R, n));
  }

  /** The field, and what the root searches return, if they are run: for a power of two m a root whose
      m/2-th power is minus one, otherwise one of order 2m and one for the convolution. */
  ghost predicate RootsFound<T(!new)>(R: Ring<T>, inv: T -> T, m: nat, prm1: nat, root: T, twoRoot: T)
    requires m > 0
  {
    && IsField(R, inv) && R.ok(root) && R.ok(twoRoot)
    && (IsPow2(m) ==> Pow(R, root, m / 2) == R.neg(R.one))
    && (!IsPow2(m) && prm1 % (2 * m) == 0 ==> ChirpRoot(R, root, inv(root), m))
    && (!IsPow2(m) && prm1 % (2 * m) == 0 && prm1 % ConvolutionLength(m) == 0 ==>
          && HalfTurn(R, twoRoot, ConvolutionLength(m), false)
          && FromNat(R, ConvolutionLength(m) * 1) != R.zero
          && FromNat(R, ConvolutionLength(m) * m) != R.zero)
  }

  /** The data for transforms of length m; index 0 is forward, index 1 backward. */
  class FFT_Data<T(!new)> {
    const R: Ring<T>
    const inv: T -> T
    var m: nat
    var twop: int
    var root: seq<T>
    var two_root: seq<T>
    var powers: seq<seq<T>>
    var powers_i: seq<seq<T>>
    var b: seq<seq<T>>
    var iphi: T

    constructor (R: Ring<T>, inv: T -> T)
      ensures this.R == R && this.inv == inv
    {
      this.R, this.inv := R, inv;
      m, twop := 0, 0;
      root, two_root, powers, powers_i, b, iphi := [], [], [], [], [], R.zero;
    }

    ghost predicate Ready()
      reads this
    {
      && IsField(R, inv) && twop > 0
      && TablesReady(R, inv, m, twop, root, two_root, powers, powers_i, b)
    }

    /** The data for a power of two: a root whose m/2-th power is minus one, its inverse, and that
        of phi(m) = m/2. */
    ghost predicate PowerReady()
      reads this
    {
      && IsField(R, inv) && twop == 0 && m >= 2 && IsPow2(m) && |root| == 2
      && R.ok(root[0]) && Pow(R, root[0], m / 2) == R.neg(R.one)
      && root[1] == inv(root[0]) && R.ok(root[1]) && R.mul(root[0], root[1]) == R.one
      && R.ok(iphi) && R.mul(FromNat(R, m / 2), iphi) == R.one
    }

    /** Set-up for length m0 over a field with prm1 + 1 elements. root0 and twoRoot0 are what the
        root searches return, if they are run. Fails when 2 m0 does not divide prm1. */
    method Init(m0: nat, prm1: nat, root0: T, twoRoot0: T) returns (ok: bool)
      requires m0 >= 2 && RootsFound(R, inv, m0, prm1, root0, twoRoot0)
      modifies this
      ensures ok <==> IsPow2(m0) || prm1 % (2 * m0) == 0
      ensures m == m0
      ensures IsPow2(m0) ==> twop == 0
      ensures !IsPow2(m0) ==>
        if prm1 % ConvolutionLength(m0) == 0 then twop == ConvolutionLength(m0) else -twop == ConvolutionLength(m0)
      ensures ok ==> |root| == 2 && root[0] == root0 && root[1] == inv(root0) && R.mul(root[0], root[1]) == R.one
      ensures ok && twop == 0 ==> PowerReady()
      ensures ok && twop > 0 ==> Ready()
    {
      m := m0;
      var n := ConvolutionLength(m0);
      HwtOnePow2(m0);
      if Hwt(m0) == 1 {
        twop := 0;
        HalfRootInverts(R, inv, root0, m0 / 2);
        PowerInvertible(R, inv, m0 / 2);
        root := [root0, inv(root0)];
        iphi := inv(FromNat(R, m0 / 2));
        return true;
      }
      twop := n;
      if prm1 % n != 0 {
        twop := -twop;
      }
      if prm1 % (2 * m0) != 0 {
        return false;
      }
      root := [root0, inv(root0)];
      if twop > 0 {
        two_root := [twoRoot0, inv(twoRoot0)];
        powers, powers_i, b := MakeAll(R, inv, m0, n, root, two_root);
      }
      return true;
    }
  }

  /** Both directions of the tables. */
  method MakeAll<T(!new)>(R: Ring<T>, inv: T -> T, m: nat, n: nat, root: seq<T>, two_root: seq<T>)
      returns (powers: seq<seq<T>>, powers_i: seq<seq<T>>, b: seq<seq<T>>)
    requires IsField(R, inv) && m > 0 && n > 2 * m && IsPow2(n)
    requires |root| == |two_root| == 2 && root[1] == inv(root[0]) && two_root[1] == inv(two_root[0])
    requires ChirpRoot(R, root[0], root[1], m)
    requires R.ok(two_root[0]) && HalfTurn(R, two_root[0], n, false)
    requires FromNat(R, n * 1) != R.zero && FromNat(R, n * m) != R.zero
    ensures TablesReady(R, inv, m, n, root, two_root, powers, powers_i, b)
  {
    TwoRootPrimitive(R, inv, two_root[0], n);
    RootsInverse(R, inv, root[0], m);
    var p0, pi0, b0 := MakeDirection(R, inv, root[0], inv(root[0]), m, n, 1, two_root[0]);
    var p1, pi1, b1 := MakeDirection(R, inv, root[1], inv(root[1]), m, n, m, two_root[0]);
    powers, powers_i, b := [p0, p1], [pi0, pi1], [b0, b1];
  }

  // ---------- the transform ----------

  /** The weighted input, padded with zeros to length n. */
  method Weigh<T(!new)>(R: Ring<T>, p: seq<T>, a: seq<T>, n: nat) returns (x: array<T>)
    requires |a| <= |p| && |p| <= n
    ensures fresh(x) && x.Length == n
    ensures forall j :: 0 <= j < n ==> x[..][j] == if j < |a| then R.mul(p[j], a[j]) else R.zero
  {
    x := new T[n](_ => R.zero);
    for i := 0 to |a|
      invariant forall j :: 0 <= j < i ==> x[j] == R.mul(p[j], a[j])
    {
      x[i] := R.mul(p[i], a[i]);
    }
    for i := |a| to n
      invariant forall j :: 0 <= j < i ==> x[j] == if j < |a| then R.mul(p[j], a[j]) else R.zero
    {
      x[i] := R.zero;
    }
  }

  /** Pointwise product with the transformed filter. */
  method Multiply<T(!new)>(R: Ring<T>, x: array<T>, bt: seq<T>)
    requires IsRing(R) && |bt| == x.Length
    modifies x
    ensures forall l :: 0 <= l < x.Length ==> x[..][l] == R.mul(old(x[..])[l], bt[l])
    ensures Reduced(R, x[..])
  {
    ghost var y := x[..];
    for i := 0 to x.Length
      invariant forall l :: 0 <= l < x.Length ==> x[l] == if l < i then R.mul(y[l], bt[l]) else y[l]
    {
      x[i] := R.mul(x[i], bt[i]);
    }
    forall l | 0 <= l < x.Length
      ensures R.ok(x[..][l])
    {
      assert Closed(R, y[l], bt[l]);
    }
  }

  /** Transform, multiply by the filter, transform back. */
  method Circulate<T(!new)>(R: Ring<T>, x: array<T>, n: nat, w: T, v: T, bt: seq<T>)
      returns (ghost y: seq<T>, ghost q: seq<T>)
    requires IsRing(R) && R.ok(w) && R.ok(v) && IsPow2(n) && x.Length == n && |bt| == n && Reduced(R, x[..])
    requires HalfTurn(R, w, n, false) && HalfTurn(R, v, n, false)
    modifies x
    ensures IsTransform(R, y, old(x[..]), w, false)
    ensures |q| == n && forall l :: 0 <= l < n ==> q[l] == R.mul(y[l], bt[l])
    ensures IsTransform(R, x[..], q, v, false)
  {
    FFT_Iter(R, x, n, w);
    y := x[..];
    Multiply(R, x, bt);
    q := x[..];
    FFT_Iter(R, x, n, v);
  }

  /** The entries from m - 1 on, weighted. */
  method Unweigh<T(!new)>(R: Ring<T>, x: array<T>, pi: seq<T>, ans: array<T>)
    requires x != ans && ans.Length == |pi| && x.Length >= 2 * |pi|
    modifies ans
    ensures forall i :: 0 <= i < |pi| ==> ans[..][i] == R.mul(x[..][i + |pi| - 1], pi[i])
  {
    for i := 0 to |pi|
      invariant forall l :: 0 <= l < i ==> ans[..][l] == R.mul(x[..][l + |pi| - 1], pi[l])
    {
      ans[i] := R.mul(x[i + |pi| - 1], pi[i]);
    }
  }

  /** The transform of the weighted input, multiplied by that of the chirp. */
  method Spread<T(!new)>(R: Ring<T>, ghost g: T, m: nat, n: nat, w: T, v: T, p: seq<T>, bt: seq<T>, a: seq<T>)
      returns (x: array<T>, ghost y: seq<T>, ghost q: seq<T>)
    requires IsRing(R) && m > 0 && n > 2 * m && IsPow2(n) && Primitive(R, w, v, n) && R.ok(w) && R.ok(v)
    requires HalfTurn(R, w, n, false) && HalfTurn(R, v, n, false)
    requires |p| == m && |bt| == n && |a| <= m && forall i :: 0 <= i < m ==> p[i] == Chirp(R, g, m, i)
    ensures fresh(x) && x.Length == n
    ensures IsTransform(R, y, Weighted(R, g, m, a) + Zeros(R, n - |a|), w, false)
    ensures |q| == n && forall l :: 0 <= l < n ==> q[l] == R.mul(y[l], bt[l])
    ensures IsTransform(R, x[..], q, v, false)
  {
    x := Weigh(R, p, a, n);
    WeighedIsWeighted(R, g, m, p, a, n, x[..]);
    y, q := Circulate(R, x, n, w, v, bt);
  }

  /** The transform with the tables of one direction; k is 1 forward and m backward. */
  method Convolve<T(!new)>(R: Ring<T>, ghost scale: T, ghost g: T, ghost gi: T, m: nat, n: nat, ghost k: nat, w: T,
                           v: T, p: seq<T>, pi: seq<T>, bt: seq<T>, ans: array<T>, a: seq<T>)
    requires IsRing(R) && IsDomain(R) && ChirpRoot(R, g, gi, m) && n > 2 * m && IsPow2(n) && Primitive(R, w, v, n)
    requires HalfTurn(R, w, n, false) && HalfTurn(R, v, n, false)
    requires Direction(R, g, gi, m, n, w, scale, p, pi, bt) && R.mul(FromNat(R, n * k), scale) == R.one
    requires ans.Length == m && |a| <= m
    modifies ans
    ensures forall i :: 0 <= i < m ==>
      R.ok(ans[..][i]) && R.mul(FromNat(R, k), ans[..][i]) == Eval(R, a, Pow(R, g, 2 * i))
  {
    ghost var y, q;
    var x;
    x, y, q := Spread(R, g, m, n, w, v, p, bt, a);
    Unweigh(R, x, pi, ans);
    AllEntries(R, g, gi, m, n, k, w, v, scale, p, pi, bt, a, y, q, x[..], ans[..]);
  }

  lemma AllEntries<T(!new)>(R: Ring<T>, g: T, gi: T, m: nat, n: nat, k: nat, w: T, v: T, scale: T,
                            p: seq<T>, pi: seq<T>, bt: seq<T>, a: seq<T>,
                            y: seq<T>, q: seq<T>, out: seq<T>, res: seq<T>)
    requires IsRing(R) && IsDomain(R) && ChirpRoot(R, g, gi, m) && n > 2 * m && Primitive(R, w, v, n)
    requires Direction(R, g, gi, m, n, w, scale, p, pi, bt)
    requires R.mul(FromNat(R, n * k), scale) == R.one && |a| <= m
    requires IsTransform(R, y, Weighted(R, g, m, a) + Zeros(R, n - |a|), w, false)
    requires |q| == n && forall l :: 0 <= l < n ==> q[l] == R.mul(y[l], bt[l])
    requires IsTransform(R, out, q, v, false)
    requires |res| == m && forall i :: 0 <= i < m ==> res[i] == R.mul(out[i + m - 1], pi[i])
    ensures forall i :: 0 <= i < m ==>
      R.ok(res[i]) && R.mul(FromNat(R, k), res[i]) == Eval(R, a, Pow(R, g, 2 * i))
  {
    ProductIsConvolved(R, g, gi, m, n, w, v, bt, a, y, q);
    forall i | 0 <= i < m
      ensures R.ok(res[i]) && R.mul(FromNat(R, k), res[i]) == Eval(R, a, Pow(R, g, 2 * i))
    {
      BluesteinEntry(R, g, gi, m, n, k, w, v, scale, pi, a, q, out, i);
    }
  }

  lemma WeighedIsWeighted<T(!new)>(R: Ring<T>, g: T, m: nat, p: seq<T>, a: seq<T>, n: nat, x: seq<T>)
    requires IsRing(R) && m > 0 && |p| == m && |a| <= m <= n && |x| == n
    requires forall i :: 0 <= i < m ==> p[i] == Chirp(R, g, m, i)
    requires forall j :: 0 <= j < n ==> x[j] == if j < |a| then R.mul(p[j], a[j]) else R.zero
    ensures x == Weighted(R, g, m, a) + Zeros(R, n - |a|)
    ensures Reduced(R, x)
  {
    forall j | 0 <= j < n
      ensures R.ok(x[j])
    {
      if j < |a| {
        assert Closed(R, p[j], a[j]);
      }
    }
  }

  /** Entries of a transform with weight k == 1 need no scaling. */
  lemma ScaleByOne<T(!new)>(R: Ring<T>, y: seq<T>, a: seq<T>, g: T, m: nat)
    requires IsRing(R) && |y| == m
    requires forall i :: 0 <= i < m ==> R.ok(y[i]) && R.mul(FromNat(R, 1), y[i]) == Eval(R, a, Pow(R, g, 2 * i))
    ensures IsForward(R, y, a, g, m)
  {
    assert AddUnit(R, R.one);
    assert FromNat(R, 0) == R.zero;
    forall i | 0 <= i < m
      ensures R.ok(y[i]) && y[i] == Eval(R, a, Pow(R, g, 2 * i))
    {
      assert MulUnit(R, y[i]);
    }
  }

  /** The transform of length n = m. Fails unless the tables were set up for a convolution. */
  method BFFT<T(!new)>(ans: array<T>, a: seq<T>, data: FFT_Data<T>, forward: bool) returns (ok: bool)
    requires data.twop > 0 ==> data.Ready()
    requires ans.Length == data.m && |a| <= data.m
    modifies ans
    ensures ok <==> data.twop > 0
    ensures ok && forward ==> IsForward(data.R, ans[..], a, data.root[0], data.m)
    ensures ok && !forward ==> IsBackward(data.R, ans[..], a, data.root[1], data.m)
    ensures !ok ==> ans[..] == old(ans[..])
  {
    var R, k2, n := data.R, data.twop, data.m;
    if k2 < 0 {
      k2 := -k2;
    }
    var r := if forward then 0 else 1;
    if data.twop <= 0 {
      return false;
    }
    if !forward {
      ChirpRootSwap(R, data.root[0], data.root[1], n);
    }
    ghost var k := if forward then 1 else n;
    Convolve(R, data.inv(FromNat(R, k2 * k)), data.root[r], data.root[1 - r], n, k2, k,
             data.two_root[0], data.two_root[1], data.powers[r], data.powers_i[r], data.b[r], ans, a);
    if forward {
      ScaleByOne(R, ans[..], a, data.root[0], n);
    }
    return true;
  }
}
