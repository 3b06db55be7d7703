/**
 Ring_Element::change_rep of FHE/Ring_Element.cpp for a power of two m: an element of the ring of
 polynomials modulo x^n + 1, n = m/2, as the vector of its coefficients or of its values at the odd
 powers of an m-th root of unity.
 */
module RingElements {
  import opened Rings
  import opened FFT
  import opened FFTIter
  import opened Fourier
  import opened Bluestein
  import opened Integers

  /** The coefficients weighted by the powers of g. */
  ghost function Twisted<T>(R: Ring<T>, a: seq<T>, g: T): (c: seq<T>)
    ensures |c| == |a|
  {
    seq(|a|, j requires 0 <= j < |a| => R.mul(a[j], Pow(R, g, j)))
  }

  lemma TwistedReduced<T(!new)>(R: Ring<T>, a: seq<T>, g: T)
    requires IsRing(R)
    ensures Reduced(R, Twisted(R, a, g))
  {
    forall j | 0 <= j < |a|
      ensures R.ok(Twisted(R, a, g)[j])
    {
      assert Closed(R, a[j], Pow(R, g, j));
    }
  }

  /** The value at g x is that of the weighted coefficients at x. */
  lemma EvalTwisted<T(!new)>(R: Ring<T>, a: seq<T>, g: T, x: T)
    requires IsRing(R) && Reduced(R, a)
    ensures Eval(R, a, R.mul(g, x)) == Eval(R, Twisted(R, a, g), x)
  {
    var c := Twisted(R, a, g);
    TwistedReduced(R, a, g);
    EvalIsSum(R, a, R.mul(g, x));
    EvalIsSum(R, c, x);
    forall j: nat | j < |a|
      ensures Monomial(R, a, R.mul(g, x))(j) == Monomial(R, c, x)(j)
    {
      PowOfMul(R, g, x, j);
      assert MulAssoc(R, a[j], Pow(R, g, j), Pow(R, x, j));
    }
    SumExt(R, Monomial(R, a, R.mul(g, x)), Monomial(R, c, x), |a|);
  }

  /** The values at the odd powers of g are those of the weighted coefficients at the powers of g^2. */
  lemma OddIsTwisted<T(!new)>(R: Ring<T>, y: seq<T>, a: seq<T>, g: T)
    requires IsRing(R) && Reduced(R, a)
    ensures IsTransform(R, y, a, g, true) <==> IsTransform(R, y, Twisted(R, a, g), R.mul(g, g), false)
  {
    forall i: nat | i < |a|
      ensures Eval(R, a, Point(R, g, true, i)) == Eval(R, Twisted(R, a, g), Point(R, R.mul(g, g), false, i))
    {
      PowSquare(R, g, i);
      EvalTwisted(R, a, g, Pow(R, g, 2 * i));
    }
  }

  /** A root whose n-th power is minus one, its inverse, and that of n. */
  ghost predicate HalfRoot<T(!new)>(R: Ring<T>, inv: T -> T, g: T, gi: T, iphi: T, n: nat) {
    && IsField(R, inv) && IsPow2(n) && R.ok(g) && R.ok(gi) && Pow(R, g, n) == R.neg(R.one)
    && R.mul(g, gi) == R.one && gi == inv(g) && R.ok(iphi) && R.mul(FromNat(R, n), iphi) == R.one
  }

  lemma SquareInverse<T(!new)>(R: Ring<T>, g: T, gi: T)
    requires IsRing(R) && R.mul(g, gi) == R.one
    ensures R.ok(R.mul(g, g)) && R.ok(R.mul(gi, gi)) && R.mul(R.mul(g, g), R.mul(gi, gi)) == R.one
  {
    assert Closed(R, g, g) && Closed(R, gi, gi);
    MulSwap(R, g, g, gi, gi);
    assert MulUnit(R, R.one);
  }

  lemma SquarePrimitive<T(!new)>(R: Ring<T>, inv: T -> T, g: T, gi: T, iphi: T, n: nat)
    requires HalfRoot(R, inv, g, gi, iphi, n)
    ensures Primitive(R, R.mul(g, g), R.mul(gi, gi), n) && Primitive(R, R.mul(gi, gi), R.mul(g, g), n)
    ensures HalfTurn(R, R.mul(gi, gi), n, false) && HalfTurn(R, g, n, true)
  {
    var w, v := R.mul(g, g), R.mul(gi, gi);
    SquareInverse(R, g, gi);
    assert MulComm(R, w, v);
    if n == 1 {
      PowOne(R, g);
      PowOne(R, w);
      PowOne(R, v);
      MulNeg(R, g, R.one);
      assert MulUnit(R, g) && MulUnit(R, v);
      NegNeg(R, R.one);
    } else {
      PowSquare(R, g, n / 2);
      TwoRootPrimitive(R, inv, w, n);
      assert Invertible(R, inv, w);
      NonZeroRoot(R, w, v);
      InverseUnique(R, w, inv(w), v);
      TwoRootPrimitive(R, inv, v, n);
    }
  }

  /** The product of a weighted and scaled coefficient with the opposite weight and scale. */
  lemma Unweighted<T(!new)>(R: Ring<T>, x: T, g: T, gi: T, c: T, ci: T, l: nat)
    requires IsRing(R) && R.ok(x) && R.mul(g, gi) == R.one && R.mul(c, ci) == R.one
    ensures R.mul(R.mul(R.mul(x, Pow(R, g, l)), c), R.mul(ci, Pow(R, gi, l))) == x
  {
    var p, q := Pow(R, g, l), Pow(R, gi, l);
    var xp := R.mul(x, p);
    assert MulComm(R, ci, q);
    MulSwap(R, xp, c, q, ci);
    assert MulAssoc(R, x, p, q);
    PowOfMul(R, g, gi, l);
    PowOfOne(R, l);
    assert MulUnit(R, x);
  }

  /** The plain transform of the values at the inverse square, rescaled. */
  ghost predicate Rescaled<T>(R: Ring<T>, a: seq<T>, z: seq<T>, gi: T, iphi: T) {
    |a| == |z| && forall l :: 0 <= l < |z| ==> a[l] == R.mul(z[l], R.mul(iphi, Pow(R, gi, l)))
  }

  /** Coefficients are what the backward transform makes of their values. */
  lemma BackFromValues<T(!new)>(R: Ring<T>, inv: T -> T, g: T, gi: T, iphi: T, a: seq<T>, y: seq<T>, z: seq<T>,
                                b: seq<T>)
    requires HalfRoot(R, inv, g, gi, iphi, |a|) && Reduced(R, a) && IsTransform(R, y, a, g, true)
    requires IsTransform(R, z, y, R.mul(gi, gi), false) && Rescaled(R, b, z, gi, iphi)
    ensures b == a
  {
    SquarePrimitive(R, inv, g, gi, iphi, |a|);
    OddIsTwisted(R, y, a, g);
    TwistedReduced(R, a, g);
    forall l | 0 <= l < |a|
      ensures b[l] == a[l]
    {
      TransformInverse(R, Twisted(R, a, g), y, R.mul(g, g), R.mul(gi, gi), l);
      Unweighted(R, a[l], g, gi, FromNat(R, |a|), iphi, l);
    }
  }

  /** The rescaled coefficients, weighted again, are the transform times the scale. */
  lemma RescaledTwisted<T(!new)>(R: Ring<T>, a: seq<T>, z: seq<T>, g: T, gi: T, iphi: T)
    requires IsRing(R) && R.ok(iphi) && R.mul(g, gi) == R.one && Rescaled(R, a, z, gi, iphi)
    ensures Twisted(R, a, g) == seq(|z|, l requires 0 <= l < |z| => R.mul(iphi, z[l]))
  {
    forall l | 0 <= l < |z|
      ensures Twisted(R, a, g)[l] == R.mul(iphi, z[l])
    {
      var p, q := Pow(R, g, l), Pow(R, gi, l);
      assert MulAssoc(R, z[l], R.mul(iphi, q), p) && MulAssoc(R, iphi, q, p) && MulComm(R, q, p);
      PowOfMul(R, g, gi, l);
      PowOfOne(R, l);
      assert MulUnit(R, iphi) && MulComm(R, z[l], iphi);
    }
  }

  /** What the backward transform gives has the values that it was given. */
  lemma ValuesOfBack<T(!new)>(R: Ring<T>, inv: T -> T, g: T, gi: T, iphi: T, y: seq<T>, z: seq<T>, a: seq<T>)
    requires HalfRoot(R, inv, g, gi, iphi, |y|) && Reduced(R, y)
    requires IsTransform(R, z, y, R.mul(gi, gi), false) && Rescaled(R, a, z, gi, iphi)
    ensures Reduced(R, a) && IsTransform(R, y, a, g, true)
  {
    var w, n := R.mul(g, g), FromNat(R, |y|);
    forall l | 0 <= l < |a|
      ensures R.ok(a[l])
    {
      assert Closed(R, z[l], R.mul(iphi, Pow(R, gi, l)));
    }
    SquarePrimitive(R, inv, g, gi, iphi, |y|);
    RescaledTwisted(R, a, z, g, gi, iphi);
    forall i | 0 <= i < |y|
      ensures y[i] == Eval(R, Twisted(R, a, g), Point(R, w, false, i))
    {
      EvalScale(R, iphi, z, Pow(R, w, i));
      TransformInverse(R, y, z, R.mul(gi, gi), w, i);
      assert MulComm(R, y[i], n) && MulAssoc(R, iphi, n, y[i]) && MulComm(R, iphi, n) && MulUnit(R, y[i]);
    }
    OddIsTwisted(R, y, a, g);
  }

  datatype Rep = Polynomial | Evaluation

  class RingElement<T(!new)> {
    const FFTD: FFT_Data<T>
    const element: array<T>
    var rep: Rep

    ghost predicate Valid()
      reads this, FFTD, element
    {
      FFTD.PowerReady() && element.Length == FFTD.m / 2 && Reduced(FFTD.R, element[..])
    }

    constructor (FFTD: FFT_Data<T>, element: array<T>, rep: Rep)
      ensures this.FFTD == FFTD && this.element == element && this.rep == rep
    {
      this.FFTD, this.element, this.rep := FFTD, element, rep;
    }

    /** Divides by n and takes off the weights. */
    method Rescale()
      requires FFTD.PowerReady() && element.Length == FFTD.m / 2
      modifies element
      ensures Rescaled(FFTD.R, element[..], old(element[..]), FFTD.root[1], FFTD.iphi)
    {
      var R, w := FFTD.R, FFTD.iphi;
      assert MulUnit(R, w);
      for i := 0 to element.Length
        invariant w == R.mul(FFTD.iphi, Pow(R, FFTD.root[1], i))
        invariant forall l :: 0 <= l < i ==>
          element[..][l] == R.mul(old(element[..])[l], R.mul(FFTD.iphi, Pow(R, FFTD.root[1], l)))
        invariant forall l :: i <= l < element.Length ==> element[l] == old(element[..])[l]
      {
        element[i] := R.mul(element[i], w);
        assert MulAssoc(R, FFTD.iphi, Pow(R, FFTD.root[1], i), FFTD.root[1]);
        assert MulComm(R, Pow(R, FFTD.root[1], i), FFTD.root[1]);
        w := R.mul(w, FFTD.root[1]);
      }
    }

    /** From coefficients to values and from values to coefficients. */
    method ChangeRep(r: Rep)
      requires Valid()
      modifies this`rep, element
      ensures Valid() && rep == r
      ensures old(rep) == r ==> element[..] == old(element[..])
      ensures old(rep) == Polynomial && r == Evaluation ==>
        IsTransform(FFTD.R, element[..], old(element[..]), FFTD.root[0], true)
      ensures old(rep) == Evaluation && r == Polynomial ==>
        IsTransform(FFTD.R, old(element[..]), element[..], FFTD.root[0], true)
    {
      if rep == r {
        return;
      }
      var R, n := FFTD.R, FFTD.m / 2;
      rep := r;
      ghost var before, g, gi := element[..], FFTD.root[0], FFTD.root[1];
      SquarePrimitive(R, FFTD.inv, g, gi, FFTD.iphi, n);
      if r == Evaluation {
        FFT_Iter2(R, element, n, FFTD.root[0]);
        ReducedTransform(R, element[..], before, g, true);
      } else {
        var root2 := R.mul(FFTD.root[1], FFTD.root[1]);
        FFT_Iter(R, element, n, root2);
        ghost var z := element[..];
        Rescale();
        ValuesOfBack(R, FFTD.inv, g, gi, FFTD.iphi, before, z, element[..]);
      }
    }
  }

  /** The values determine the coefficients. */
  lemma ValuesDetermine<T(!new)>(R: Ring<T>, inv: T -> T, g: T, gi: T, iphi: T, a: seq<T>, b: seq<T>, y: seq<T>)
    requires HalfRoot(R, inv, g, gi, iphi, |y|) && Reduced(R, a) && Reduced(R, b)
    requires IsTransform(R, y, a, g, true) && IsTransform(R, y, b, g, true)
    ensures a == b
  {
    var v := R.mul(gi, gi);
    var z := seq(|y|, i requires 0 <= i < |y| => Eval(R, y, Point(R, v, false, i)));
    var c := seq(|y|, l requires 0 <= l < |y| => R.mul(z[l], R.mul(iphi, Pow(R, gi, l))));
    BackFromValues(R, inv, g, gi, iphi, a, y, z, c);
    BackFromValues(R, inv, g, gi, iphi, b, y, z, c);
  }

  /** From coefficients to values and back changes nothing. */
  method ThereAndBack<T(!new)>(e: RingElement<T>)
    requires e.Valid() && e.rep == Polynomial
    modifies e, e.element
    ensures e.Valid() && e.rep == Polynomial && e.element[..] == old(e.element[..])
  {
    ghost var a := e.element[..];
    e.ChangeRep(Evaluation);
    ghost var y := e.element[..];
    e.ChangeRep(Polynomial);
    ValuesDetermine(e.FFTD.R, e.FFTD.inv, e.FFTD.root[0], e.FFTD.root[1], e.FFTD.iphi, a, e.element[..], y);
  }
}
