/**
 The field the transforms run over: the integers modulo an odd prime. The laws that the other
 modules take as a precondition hold of it.
 */
module PrimeField {
  import opened Rings
  import opened FFT
  import opened Fourier
  import opened Bluestein
  import opened Integers
  import opened RingElements

  ghost predicate IsPrime(p: nat) {
    p > 1 && forall d :: 1 < d < p ==> p % d != 0
  }

  function Zp(p: nat): Ring<int>
    requires p > 1
  {
    Ring((x: int) => 0 <= x < p, 0, 1,
         (x: int, y: int) => (x + y) % p,
         (x: int) => (-x) % p,
         (x: int, y: int) => (x * y) % p)
  }

  /** Multiples of p do not change a remainder. */
  lemma ModPlus(x: int, k: int, p: int)
    requires p > 0
    ensures (x + k * p) % p == x % p
  {
    assert x == (x / p) * p + x % p;
    Distribute(x / p, k, p);
    ModUnique(x + k * p, p, x / p + k, x % p);
  }

  /** Remainders may be taken at any time. */
  lemma ModAdd(x: int, y: int, p: int)
    requires p > 0
    ensures (x % p + y) % p == (x + y) % p
    ensures (x + y % p) % p == (x + y) % p
  {
    assert x == (x / p) * p + x % p && y == (y / p) * p + y % p;
    ModPlus(x % p + y, x / p, p);
    ModPlus(x + y % p, y / p, p);
  }

  lemma ModMul(x: int, y: int, p: int)
    requires p > 0
    ensures (x % p * y) % p == (x * y) % p
    ensures (y * (x % p)) % p == (y * x) % p
  {
    var q, r := x / p, x % p;
    assert x == q * p + r;
    assert x * y == r * y + (q * y) * p;
    ModPlus(r * y, q * y, p);
    assert y * r == r * y && y * x == x * y;
  }

  lemma ZpIsRing(p: nat)
    requires p > 1
    ensures IsRing(Zp(p))
  {
    var R := Zp(p);
    forall x, y
      ensures Closed(R, x, y) && AddComm(R, x, y) && MulComm(R, x, y)
    {
      assert x * y == y * x;
    }
    forall x, y, z
      ensures AddAssoc(R, x, y, z) && MulAssoc(R, x, y, z) && Distrib(R, x, y, z)
    {
      ZpAddAssoc(p, x, y, z);
      ZpMulAssoc(p, x, y, z);
      ZpDistrib(p, x, y, z);
    }
    forall x
      ensures AddUnit(R, x) && AddInverse(R, x) && MulUnit(R, x)
    {
      ModAdd(-x, x, p);
      assert 0 <= x < p ==> x % p == x by {
        if 0 <= x < p {
          ModUnique(x, p, 0, x);
        }
      }
      ModUnique(0, p, 0, 0);
    }
  }

  lemma ZpAddAssoc(p: nat, x: int, y: int, z: int)
    requires p > 1
    ensures AddAssoc(Zp(p), x, y, z)
  {
    assert ((x + y) % p + z) % p == (x + (y + z) % p) % p by {
      ModAdd(x + y, z, p);
      ModAdd(x, y + z, p);
    }
    var R := Zp(p);
    assert R.add(x, y) == (x + y) % p && R.add(y, z) == (y + z) % p;
  }

  lemma ProductAssociative(x: int, y: int, z: int)
    ensures (x * y) * z == x * (y * z)
    ensures x * (y + z) == x * y + x * z
  {
  }

  lemma ZpMulAssoc(p: nat, x: int, y: int, z: int)
    requires p > 1
    ensures MulAssoc(Zp(p), x, y, z)
  {
    ModMul(x * y, z, p);
    ModMul(y * z, x, p);
    ProductAssociative(x, y, z);
  }

  lemma ZpDistrib(p: nat, x: int, y: int, z: int)
    requires p > 1
    ensures Distrib(Zp(p), x, y, z)
  {
    ModMul(y + z, x, p);
    ModAdd(x * y, (x * z) % p, p);
    ModAdd(x * y, x * z, p);
    ProductAssociative(x, y, z);
  }

  /** The inverse, by division with remainder of p. */
  function InvMod(p: nat, x: int): (y: int)
    requires p > 1
    ensures 0 <= y < p
    decreases if x > 0 then x else 0
  {
    if x <= 0 || x >= p then 0
    else if x == 1 then 1
    else ((p - p / x) * InvMod(p, p % x)) % p
  }

  /** x (p - q) s == r s modulo p, where p == q x + r. */
  lemma InverseStep(p: int, x: int, q: int, r: int, s: int)
    requires p == q * x + r
    ensures x * ((p - q) * s) == r * s + ((x - 1) * s) * p
  {
    var d := p - q;
    assert x * d == r + (x - 1) * p by {
      assert x * d == x * p - x * q;
      Distribute(x, 1, p);
    }
    ProductAssociative(x, d, s);
    Distribute(r, -(x - 1) * p, s);
    assert (x * d) * s == r * s + ((x - 1) * p) * s;
    assert ((x - 1) * p) * s == ((x - 1) * s) * p;
  }

  lemma {:induction false} InvModInverts(p: nat, x: int)
    requires IsPrime(p) && 0 < x < p
    ensures (x * InvMod(p, x)) % p == 1
    decreases x
  {
    if x == 1 {
      ModUnique(1, p, 0, 1);
    } else {
      DivMod(p, x);
      assert p % x != 0;
      InvModInverts(p, p % x);
      var s := InvMod(p, p % x);
      InverseStep(p, x, p / x, p % x, s);
      ModMul((p - p / x) * s, x, p);
      ModPlus((p % x) * s, (x - 1) * s, p);
    }
  }

  /** Modulo an odd prime there are inverses and no zero divisors. */
  lemma ZpIsField(p: nat)
    requires IsPrime(p) && p > 2
    ensures IsField(Zp(p), (x: int) => InvMod(p, x))
  {
    var R, inv := Zp(p), (x: int) => InvMod(p, x);
    ZpIsRing(p);
    forall x
      ensures Invertible(R, inv, x)
    {
      if 0 < x < p {
        InvModInverts(p, x);
      }
    }
    forall x, y
      ensures NoZeroDivisor(R, x, y)
    {
      if R.ok(x) && R.ok(y) && R.mul(x, y) == R.zero && x != 0 {
        // y == x^-1 x y == 0
        assert Invertible(R, inv, x) && MulComm(R, x, inv(x)) && MulAssoc(R, inv(x), x, y) && MulUnit(R, y);
        MulZero(R, inv(x));
      }
    }
    ModUnique(-1, p, -1, p - 1);
  }

  /** A length that the prime does not divide is not zero in the field. */
  lemma {:induction false} ZpFromNat(p: nat, n: nat)
    requires p > 1
    ensures FromNat(Zp(p), n) == n % p
  {
    if n == 0 {
      ModUnique(0, p, 0, 0);
    } else {
      ZpFromNat(p, n - 1);
      ModAdd(n - 1, 1, p);
    }
  }

  /** Divisors of p - 1 are not divisible by p, nor is a product of two of them. */
  lemma DivisorsInvertible(p: nat, n: nat, m: nat)
    requires IsPrime(p) && p > 2 && 0 < n && 0 < m && (p - 1) % n == 0 && (p - 1) % m == 0
    ensures FromNat(Zp(p), m) != 0
    ensures FromNat(Zp(p), n * m) != 0
  {
    DivisorBelow(p - 1, n);
    DivisorBelow(p - 1, m);
    ZpFromNat(p, m);
    ModUnique(m, p, 0, m);
    assert n * m >= 0 by {
      ProductAtLeast(n, m);
    }
    ZpFromNat(p, n * m);
    ZpIsField(p);
    assert NoZeroDivisor(Zp(p), n, m);
  }

  lemma DivisorBelow(x: nat, d: nat)
    requires x > 0 && d > 0 && x % d == 0
    ensures d <= x
  {
    if d > x {
      ModUnique(x, d, 0, x);
    }
  }

  lemma HalfDivides(x: nat, m: nat)
    requires m > 0 && x % (2 * m) == 0
    ensures x % m == 0
  {
    var q := x / (2 * m);
    assert x == q * (2 * m) == (2 * q) * m;
    ModUnique(x, m, 2 * q, 0);
  }

  /** What is asked of the root searches: they run only for the lengths the set-up accepts. */
  ghost predicate RootsModP(p: nat, m: nat, root0: int, twoRoot0: int)
    requires p > 1 && m > 0
  {
    && 0 <= root0 < p && 0 <= twoRoot0 < p
    && (IsPow2(m) ==> Pow(Zp(p), root0, m / 2) == p - 1)
    && (!IsPow2(m) && (p - 1) % (2 * m) == 0 ==> ChirpRoot(Zp(p), root0, InvMod(p, root0), m))
    && (!IsPow2(m) && (p - 1) % (2 * m) == 0 && (p - 1) % ConvolutionLength(m) == 0 ==>
          HalfTurn(Zp(p), twoRoot0, ConvolutionLength(m), false))
  }

  lemma LengthsInvertible(p: nat, m: nat)
    requires IsPrime(p) && p > 2 && m > 0
    ensures (p - 1) % (2 * m) == 0 && (p - 1) % ConvolutionLength(m) == 0 ==>
      && FromNat(Zp(p), ConvolutionLength(m) * 1) != 0
      && FromNat(Zp(p), ConvolutionLength(m) * m) != 0 && FromNat(Zp(p), m) != 0
  {
    if (p - 1) % (2 * m) == 0 && (p - 1) % ConvolutionLength(m) == 0 {
      HalfDivides(p - 1, m);
      DivisorsInvertible(p, ConvolutionLength(m), m);
      DivisorsInvertible(p, 1, ConvolutionLength(m));
      var n := ConvolutionLength(m);
      assert n * 1 == 1 * n;
    }
  }

  lemma RootsGiven(p: nat, m: nat, root0: int, twoRoot0: int)
    requires IsPrime(p) && p > 2 && m >= 2 && RootsModP(p, m, root0, twoRoot0)
    ensures RootsFound(Zp(p), (x: int) => InvMod(p, x), m, p - 1, root0, twoRoot0)
    ensures (p - 1) % (2 * m) == 0 && (p - 1) % ConvolutionLength(m) == 0 ==> FromNat(Zp(p), m) != 0
  {
    ZpIsField(p);
    LengthsInvertible(p, m);
    ModUnique(-1, p, -1, p - 1);
  }

  /** Forward and backward with the same data. */
  method BothWays<T(!new)>(data: FFT_Data<T>, a: seq<T>) returns (ok: bool, y: seq<T>, z: seq<T>)
    requires data.twop > 0 ==> data.Ready() && FromNat(data.R, data.m) != data.R.zero
    requires |a| == data.m && Reduced(data.R, a)
    ensures ok <==> data.twop > 0
    ensures ok ==> IsForward(data.R, y, a, data.root[0], data.m) && z == a
  {
    y, z := [], [];
    var forth, back := new T[data.m](_ => data.R.zero), new T[data.m](_ => data.R.zero);
    ok := BFFT(forth, a, data, true);
    if !ok {
      return;
    }
    y := forth[..];
    ok := BFFT(back, y, data, false);
    z := back[..];
    RoundTrip(data.R, data.inv, a, y, z, data.root[0], data.m);
  }

  /** Over a prime field the set-up and the transforms work for exactly the lengths m, not a power
      of two, for which p - 1 is a multiple of 2m and of the convolution length; there the
      backward transform gives the input back. */
  method TransformThereAndBack(p: nat, m: nat, root0: int, twoRoot0: int, a: seq<int>)
      returns (ok: bool, y: seq<int>, z: seq<int>)
    requires IsPrime(p) && p > 2 && m >= 2 && RootsModP(p, m, root0, twoRoot0)
    requires |a| == m && forall i :: 0 <= i < m ==> 0 <= a[i] < p
    ensures ok <==> !IsPow2(m) && (p - 1) % (2 * m) == 0 && (p - 1) % ConvolutionLength(m) == 0
    ensures ok ==> IsForward(Zp(p), y, a, root0, m)
    ensures ok ==> z == a
  {
    y, z := [], [];
    RootsGiven(p, m, root0, twoRoot0);
    var data := new FFT_Data(Zp(p), (x: int) => InvMod(p, x));
    ok := data.Init(m, p - 1, root0, twoRoot0);
    if !ok {
      return;
    }
    ok, y, z := BothWays(data, a);
  }

  /** For a power of two m, an element of the ring of polynomials modulo x^(m/2) + 1 is turned into
      its values at the odd powers of the root, and back into itself. */
  method PowerThereAndBack(p: nat, m: nat, root0: int, a: seq<int>) returns (y: seq<int>, z: seq<int>)
    requires IsPrime(p) && p > 2 && m >= 2 && IsPow2(m)
    requires 0 <= root0 < p && Pow(Zp(p), root0, m / 2) == p - 1
    requires |a| == m / 2 && forall i :: 0 <= i < |a| ==> 0 <= a[i] < p
    ensures IsTransform(Zp(p), y, a, root0, true) && z == a
  {
    ZpIsField(p);
    ModUnique(-1, p, -1, p - 1);
    var data := new FFT_Data(Zp(p), (x: int) => InvMod(p, x));
    var ok := data.Init(m, p - 1, root0, 0);
    var element := new int[|a|](i requires 0 <= i < |a| => a[i]);
    assert element[..] == a;
    var e := new RingElement(data, element, Polynomial);
    e.ChangeRep(Evaluation);
    y := element[..];
    e.ChangeRep(Polynomial);
    z := element[..];
    ValuesDetermine(Zp(p), data.inv, data.root[0], data.root[1], data.iphi, a, z, y);
  }
}
