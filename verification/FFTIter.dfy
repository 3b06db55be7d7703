/**
 FHE/FFT.cpp, the iterative transforms: bit reversal by a reversed counter, then passes of
 butterflies of growing width, all in place.
 */
module FFTIter {
  import opened Sequences
  import opened Rings
  import opened FFT
  import opened Integers

  // ---------- bit reversal ----------

  /** The number whose log2(n) bits are those of i in reverse. */
  function Rev(n: nat, i: nat): (r: nat)
    requires IsPow2(n) && i < n
    ensures r < n
    decreases n
  {
    if n == 1 then 0 else Rev(n / 2, i / 2) + if i % 2 == 1 then n / 2 else 0
  }

  /** The recursion that starts at the most significant bit. */
  lemma {:induction false} RevFromTop(n: nat, i: nat)
    requires IsPow2(n) && n > 1 && i < n
    ensures i < n / 2 ==> Rev(n, i) == 2 * Rev(n / 2, i)
    ensures i >= n / 2 ==> Rev(n, i) == 2 * Rev(n / 2, i - n / 2) + 1
    decreases n
  {
    if n > 2 {
      var h, b, k := n / 2, i % 2, i / 2;
      assert h == 2 * (h / 2) && i == 2 * k + b;
      RevFromTop(h, k);
      if i >= h {
        assert k >= h / 2 && (i - h) / 2 == k - h / 2 && (i - h) % 2 == b;
      } else {
        assert k < h / 2;
      }
    }
  }

  lemma {:induction false} RevInvolution(n: nat, i: nat)
    requires IsPow2(n) && i < n
    ensures Rev(n, Rev(n, i)) == i
    decreases n
  {
    if n > 1 {
      var h := n / 2;
      var r := Rev(h, i / 2);
      RevFromTop(n, if i % 2 == 1 then r + h else r);
      RevInvolution(h, i / 2);
    }
  }

  /** The reversed counter: carries run from the most significant bit downwards. */
  function Increment(m: nat, j: nat): (r: nat)
    requires IsPow2(m) && j < m
    decreases m
  {
    if m == 1 then 0 else if j < m / 2 then j + m / 2 else Increment(m / 2, j - m / 2)
  }

  lemma {:induction false} IncrementIsNext(n: nat, i: nat)
    requires IsPow2(n) && i + 1 < n
    ensures Increment(n, Rev(n, i)) == Rev(n, i + 1)
    decreases n
  {
    if i % 2 == 1 {
      var k := i / 2;
      assert i == 2 * k + 1 && (i + 1) / 2 == k + 1 && (i + 1) % 2 == 0;
      IncrementIsNext(n / 2, k);
    } else {
      assert (i + 1) / 2 == i / 2 && (i + 1) % 2 == 1;
    }
  }

  lemma {:induction false} IncrementWraps(n: nat)
    requires IsPow2(n)
    ensures Rev(n, n - 1) == n - 1 && Increment(n, n - 1) == 0
    decreases n
  {
    if n > 1 {
      var h := n / 2;
      assert n == 2 * h && (n - 1) / 2 == h - 1 && (n - 1) % 2 == 1;
      IncrementWraps(h);
    }
  }

  lemma {:induction false} RevZero(n: nat)
    requires IsPow2(n)
    ensures Rev(n, 0) == 0
    decreases n
  {
    if n > 1 {
      RevZero(n / 2);
    }
  }

  /** The coefficients of which x is the bit-reversed arrangement. */
  ghost function Unrev<T>(x: seq<T>): (a: seq<T>)
    requires IsPow2(|x|)
    ensures |a| == |x|
  {
    seq(|x|, i requires 0 <= i < |x| => x[Rev(|x|, i)])
  }

  lemma UnrevHalves<T>(x: seq<T>, h: nat)
    requires IsPow2(|x|) && |x| == 2 * h && IsPow2(h)
    ensures Evens(Unrev(x)) == Unrev(x[..h])
    ensures Odds(Unrev(x)) == Unrev(x[h..])
  {
    var u, lo, hi := Unrev(x), Unrev(x[..h]), Unrev(x[h..]);
    assert x == x[..h] + x[h..];
    forall i | 0 <= i < h
      ensures u[2 * i] == lo[i] && u[2 * i + 1] == hi[i]
    {
      UnrevPair(x, x[..h], x[h..], h, i);
    }
    Interleaved(u, lo, hi, h);
  }

  lemma UnrevPair<T>(x: seq<T>, lo: seq<T>, hi: seq<T>, h: nat, i: nat)
    requires IsPow2(|x|) && IsPow2(h) && x == lo + hi && |lo| == |hi| == h && i < h
    ensures Unrev(x)[2 * i] == Unrev(lo)[i] && Unrev(x)[2 * i + 1] == Unrev(hi)[i]
  {
    RevOfDouble(|x|, h, i);
    UnrevAt(x, lo, 2 * i, i);
    UnrevAt(x, hi, 2 * i + 1, i);
  }

  lemma Interleaved<T>(u: seq<T>, lo: seq<T>, hi: seq<T>, h: nat)
    requires |u| == 2 * h && |lo| == |hi| == h
    requires forall i :: 0 <= i < h ==> u[2 * i] == lo[i] && u[2 * i + 1] == hi[i]
    ensures Evens(u) == lo && Odds(u) == hi
  {
    forall i | 0 <= i < h
      ensures Evens(u)[i] == lo[i] && Odds(u)[i] == hi[i]
    {
      EvensAt(u, i);
      OddsAt(u, i);
    }
  }

  lemma UnrevAt<T>(x: seq<T>, y: seq<T>, j: nat, i: nat)
    requires IsPow2(|x|) && IsPow2(|y|) && j < |x| && i < |y|
    requires x[Rev(|x|, j)] == y[Rev(|y|, i)]
    ensures Unrev(x)[j] == Unrev(y)[i]
  {
  }

  lemma RevOfDouble(n: nat, h: nat, i: nat)
    requires IsPow2(n) && n == 2 * h && i < h
    ensures IsPow2(h) && Rev(n, 2 * i) == Rev(h, i) && Rev(n, 2 * i + 1) == h + Rev(h, i)
  {
    assert n / 2 == h;
    assert (2 * i) / 2 == i && (2 * i) % 2 == 0 && (2 * i + 1) / 2 == i && (2 * i + 1) % 2 == 1;
  }

  /** x after the swaps for all indices below i. */
  ghost predicate SwappedUpTo<T>(x: seq<T>, a: seq<T>, i: nat) {
    && |x| == |a| && IsPow2(|a|)
    && forall t :: 0 <= t < |a| ==> x[t] == if t < i || Rev(|a|, t) < i then a[Rev(|a|, t)] else a[t]
  }

  lemma SwapStep<T>(x: seq<T>, a: seq<T>, i: nat)
    requires SwappedUpTo(x, a, i) && i < |a|
    ensures var j := Rev(|a|, i);
            SwappedUpTo(if j >= i then x[i := x[j]][j := x[i]] else x, a, i + 1)
  {
    var j := Rev(|a|, i);
    RevInvolution(|a|, i);
    forall t | 0 <= t < |a|
      ensures Rev(|a|, t) == i ==> t == j
      ensures Rev(|a|, t) == j ==> t == i
    {
      RevInvolution(|a|, t);
    }
  }

  /** The value of the reversed counter at index i; it wraps around at the end. */
  ghost function Counter(n: nat, i: nat): nat
    requires IsPow2(n) && i <= n
  {
    if i < n then Rev(n, i) else 0
  }

  /** One step of the reversed counter, as the inner while loop takes it. */
  method Count(n: nat, ghost i: nat, j0: nat) returns (j: nat)
    requires IsPow2(n) && i < n && j0 == Counter(n, i)
    ensures j == Counter(n, i + 1)
  {
    if i + 1 < n {
      IncrementIsNext(n, i);
    } else {
      IncrementWraps(n);
    }
    var m := n / 2;
    j := j0;
    while m >= 1 && j >= m
      invariant m >= 0 && (m == 0 || IsPow2(2 * m))
      invariant if m == 0 then j == 0 == Increment(n, j0) else j < 2 * m && Increment(2 * m, j) == Increment(n, j0)
      decreases m
    {
      assert 2 * m / 2 == m;
      j := j - m;
      m := m / 2;
    }
    j := j + m;
  }

  lemma SwappedAll<T>(x: seq<T>, a: seq<T>)
    requires SwappedUpTo(x, a, |a|)
    ensures Unrev(x) == a
  {
    forall t | 0 <= t < |a|
      ensures Unrev(x)[t] == a[t]
    {
      RevInvolution(|a|, t);
    }
  }

  /** The first loop of FFT_Iter and of FFT_Iter2. */
  method BitReverse<T>(x: array<T>, n: nat)
    requires x.Length == n && IsPow2(n)
    modifies x
    ensures Unrev(x[..]) == old(x[..])
  {
    ghost var a, y := x[..], x[..];
    var j := 0;
    RevZero(n);
    for i := 0 to n
      invariant x[..] == y && SwappedUpTo(y, a, i)
      invariant j == Counter(n, i)
    {
      SwapStep(y, a, i);
      if j >= i {
        y := y[i := y[j]][j := y[i]];
        var t := x[i];
        x[i] := x[j];
        x[j] := t;
      }
      j := Count(n, i, j);
    }
    SwappedAll(y, a);
  }

  // ---------- one pass of butterflies ----------

  /** What a pass of width m = 2s writes at position pos. */
  ghost function PassAt<T>(R: Ring<T>, x: seq<T>, s: nat, m: nat, w0: T, q: T, pos: nat): T
    requires s > 0 && m == 2 * s && |x| % m == 0 && pos < |x|
  {
    InBlock(|x|, s, m, pos);
    if pos % m < s
    then R.add(x[pos], R.mul(Twiddle(R, w0, q, pos % m), x[pos + s]))
    else R.Sub(x[pos - s], R.mul(Twiddle(R, w0, q, pos % m - s), x[pos]))
  }

  /** Blocks of width m = 2s tile the vector: the partners of a butterfly are s apart in one block. */
  lemma InBlock(n: nat, s: nat, m: nat, pos: nat)
    requires s > 0 && m == 2 * s && n % m == 0 && pos < n
    ensures pos % m < s ==>
      pos + s < n && pos % s == pos % m && (pos + s) % m == pos % m + s && (pos + s) % s == pos % m
    ensures pos % m >= s ==>
      pos >= s && pos % s == pos % m - s && (pos - s) % m == pos % m - s && (pos - s) % s == pos % m - s
  {
    DivMod(pos, m);
    DivMod(n, m);
    InBlockOf(n, s, m, pos, pos / m, pos % m, n / m);
  }

  lemma InBlockOf(n: int, s: int, m: int, pos: int, b: int, r: int, c: int)
    requires s > 0 && m == 2 * s && n == c * m && 0 <= pos < n
    requires pos == b * m + r && 0 <= r < m && b >= 0
    ensures r < s ==> pos + s < n && pos % s == r && (pos + s) % m == r + s && (pos + s) % s == r
    ensures r >= s ==> pos >= s && pos % s == r - s && (pos - s) % m == r - s && (pos - s) % s == r - s
  {
    BlockFits(b, c, m, r);
    assert b * m == (2 * b) * s;
    Distribute(2 * b, 1, s);
    if r < s {
      ModUnique(pos, s, 2 * b, r);
      ModUnique(pos + s, s, 2 * b + 1, r);
      ModUnique(pos + s, m, b, r + s);
    } else {
      ModUnique(pos, s, 2 * b + 1, r - s);
      ModUnique(pos - s, s, 2 * b, r - s);
      ModUnique(pos - s, m, b, r - s);
      assert b * m >= 0;
    }
  }

  /** The butterfly that writes position pos: its index within the block, and its first position. */
  ghost function Lane(s: nat, m: nat, pos: nat): (r: int)
    requires m > 0
  {
    if pos % m < s then pos % m else pos % m - s
  }

  ghost function Base(s: nat, m: nat, pos: nat): int
    requires m > 0
  {
    if pos % m < s then pos else pos - s
  }

  /** y is the pass over x0 where all lanes below j, and lane j before position k, are done. */
  ghost predicate Passed<T>(R: Ring<T>, y: seq<T>, x0: seq<T>, s: nat, m: nat, w0: T, q: T, j: nat, k: nat) {
    && s > 0 && m == 2 * s && |x0| % m == 0 && |y| == |x0|
    && forall pos :: 0 <= pos < |x0| ==>
         y[pos] == if Lane(s, m, pos) < j || (Lane(s, m, pos) == j && Base(s, m, pos) < k)
                   then PassAt(R, x0, s, m, w0, q, pos) else x0[pos]
  }

  lemma PassStart<T>(R: Ring<T>, x0: seq<T>, s: nat, m: nat, w0: T, q: T)
    requires s > 0 && m == 2 * s && |x0| % m == 0
    ensures Passed(R, x0, x0, s, m, w0, q, 0, 0)
  {
    forall pos | 0 <= pos < |x0|
      ensures Lane(s, m, pos) >= 0 && Base(s, m, pos) >= 0
    {
      InBlock(|x0|, s, m, pos);
    }
  }

  lemma PassStep<T>(R: Ring<T>, y: seq<T>, x0: seq<T>, s: nat, m: nat, w0: T, q: T, j: nat, k: nat)
    requires Passed(R, y, x0, s, m, w0, q, j, k) && j < s && k < |x0| && k % m == j
    ensures k + s < |x0| && (k + m) % m == j
    ensures var t := R.mul(Twiddle(R, w0, q, j), y[k + s]);
            Passed(R, y[k := R.add(y[k], t)][k + s := R.Sub(y[k], t)], x0, s, m, w0, q, j, k + m)
  {
    InBlock(|x0|, s, m, k);
    ModStep(k, m);
    var t := R.mul(Twiddle(R, w0, q, j), y[k + s]);
    var z := y[k := R.add(y[k], t)][k + s := R.Sub(y[k], t)];
    forall pos | 0 <= pos < |x0|
      ensures z[pos] == if Lane(s, m, pos) < j || (Lane(s, m, pos) == j && Base(s, m, pos) < k + m)
                        then PassAt(R, x0, s, m, w0, q, pos) else x0[pos]
    {
      InBlock(|x0|, s, m, pos);
      if Lane(s, m, pos) == j && k <= Base(s, m, pos) < k + m {
        ModGap(k, Base(s, m, pos), m);
      }
    }
  }

  lemma PassNextLane<T>(R: Ring<T>, y: seq<T>, x0: seq<T>, s: nat, m: nat, w0: T, q: T, j: nat, k: nat)
    requires Passed(R, y, x0, s, m, w0, q, j, k) && k >= |x0|
    ensures Passed(R, y, x0, s, m, w0, q, j + 1, j + 1)
  {
    forall pos | 0 <= pos < |x0|
      ensures Base(s, m, pos) < k
      ensures Lane(s, m, pos) <= Base(s, m, pos)
    {
      InBlock(|x0|, s, m, pos);
      DivMod(Base(s, m, pos), m);
      assert Base(s, m, pos) / m * m >= 0;
    }
  }

  /** The two inner loops of the transforms: all butterflies of width m = 2s. */
  method Pass<T(!new)>(R: Ring<T>, x: array<T>, n: nat, s: nat, w0: T, q: T)
    requires x.Length == n && s > 0 && n % (2 * s) == 0
    modifies x
    ensures forall pos :: 0 <= pos < n ==> x[pos] == PassAt(R, old(x[..]), s, 2 * s, w0, q, pos)
  {
    var m := 2 * s;
    ghost var x0, y := x[..], x[..];
    PassStart(R, x0, s, m, w0, q);
    var alpha2 := w0;
    for j := 0 to s
      invariant alpha2 == Twiddle(R, w0, q, j)
      invariant x[..] == y && Passed(R, y, x0, s, m, w0, q, j, j)
    {
      ModUnique(j, m, 0, j);
      var k := j;
      while k < n
        invariant k % m == j
        invariant x[..] == y && Passed(R, y, x0, s, m, w0, q, j, k)
      {
        PassStep(R, y, x0, s, m, w0, q, j, k);
        var t := R.mul(alpha2, x[k + s]);
        var u := x[k];
        x[k] := R.add(u, t);
        x[k + s] := R.Sub(u, t);
        y := y[k := R.add(u, t)][k + s := R.Sub(u, t)];
        k := k + m;
      }
      PassNextLane(R, y, x0, s, m, w0, q, j, k);
      alpha2 := R.mul(alpha2, q);
    }
    PassDone(R, y, x0, s, m, w0, q);
  }

  lemma PassDone<T>(R: Ring<T>, y: seq<T>, x0: seq<T>, s: nat, m: nat, w0: T, q: T)
    requires Passed(R, y, x0, s, m, w0, q, s, s)
    ensures forall pos :: 0 <= pos < |x0| ==> y[pos] == PassAt(R, x0, s, m, w0, q, pos)
  {
    forall pos | 0 <= pos < |x0|
      ensures Lane(s, m, pos) < s
    {
      InBlock(|x0|, s, m, pos);
    }
  }

  // ---------- the stages ----------

  /** After the passes of width up to s, every aligned block of s entries is the transform of
      the coefficients that bit reversal brought there. */
  ghost predicate Staged<T>(R: Ring<T>, y: seq<T>, x0: seq<T>, s: nat, root: T, odd: bool) {
    && IsPow2(s) && |y| == |x0| && |x0| % s == 0
    && forall c :: 0 <= c < |x0| && c % s == 0 ==> BlockDone(R, y, x0, s, root, odd, c)
  }

  ghost predicate BlockDone<T>(R: Ring<T>, y: seq<T>, x0: seq<T>, s: nat, root: T, odd: bool, c: nat) {
    && IsPow2(s) && |y| == |x0| && c + s <= |x0|
    && IsTransform(R, y[c..c + s], Unrev(x0[c..c + s]), root, odd)
  }

  lemma StagedInit<T(!new)>(R: Ring<T>, x0: seq<T>, root: T, odd: bool)
    requires IsRing(R) && Reduced(R, x0)
    ensures Staged(R, x0, x0, 1, root, odd)
  {
    forall c | 0 <= c < |x0|
      ensures BlockDone(R, x0, x0, 1, root, odd, c)
    {
      assert x0[c..c + 1] == [x0[c]] == Unrev(x0[c..c + 1]);
      TransformOfOne(R, [x0[c]], root, odd);
    }
  }

  /** On an aligned block a pass is the combination of its two halves. */
  lemma PassCombines<T>(R: Ring<T>, z: seq<T>, y: seq<T>, s: nat, m: nat, w0: T, q: T, c: nat)
    requires s > 0 && m == 2 * s && |z| == |y| && |y| % m == 0 && c + m <= |y| && c % m == 0
    requires forall pos :: 0 <= pos < |y| ==> z[pos] == PassAt(R, y, s, m, w0, q, pos)
    ensures Combined(R, z[c..c + m], y[c..c + s], y[c + s..c + m], w0, q, s)
  {
    var zz, y0, y1 := z[c..c + m], y[c..c + s], y[c + s..c + m];
    forall k | 0 <= k < s
      ensures zz[k] == R.add(y0[k], R.mul(Twiddle(R, w0, q, k), y1[k]))
    {
      assert z[c + k] == PassAt(R, y, s, m, w0, q, c + k);
      PassLower(R, y, s, m, w0, q, c, k);
    }
    forall k | s <= k < s + s
      ensures zz[k] == R.Sub(y0[k - s], R.mul(Twiddle(R, w0, q, k - s), y1[k - s]))
    {
      assert z[c + k] == PassAt(R, y, s, m, w0, q, c + k);
      PassUpper(R, y, s, m, w0, q, c, k);
    }
  }

  lemma PassLower<T>(R: Ring<T>, y: seq<T>, s: nat, m: nat, w0: T, q: T, c: nat, k: nat)
    requires s > 0 && m == 2 * s && |y| % m == 0 && c + m <= |y| && c % m == 0 && k < s
    ensures PassAt(R, y, s, m, w0, q, c + k) == R.add(y[c + k], R.mul(Twiddle(R, w0, q, k), y[c + s + k]))
  {
    BlockOffset(c, m, k);
  }

  lemma PassUpper<T>(R: Ring<T>, y: seq<T>, s: nat, m: nat, w0: T, q: T, c: nat, k: nat)
    requires s > 0 && m == 2 * s && |y| % m == 0 && c + m <= |y| && c % m == 0 && s <= k < m
    ensures PassAt(R, y, s, m, w0, q, c + k) == R.Sub(y[c + k - s], R.mul(Twiddle(R, w0, q, k - s), y[c + k]))
  {
    BlockOffset(c, m, k);
  }

  /** Coefficient vectors of the halves of a block, in terms of the block's. */
  lemma BlockHalves<T>(x0: seq<T>, s: nat, m: nat, c: nat)
    requires m == 2 * s && IsPow2(s) && c + m <= |x0|
    ensures IsPow2(m)
    ensures Evens(Unrev(x0[c..c + m])) == Unrev(x0[c..c + s])
    ensures Odds(Unrev(x0[c..c + m])) == Unrev(x0[c + s..c + m])
  {
    var u := x0[c..c + m];
    assert m / 2 == s;
    UnrevHalves(u, s);
    assert u[..s] == x0[c..c + s] && u[s..] == x0[c + s..c + m];
  }

  lemma AlignedBlockFits(n: nat, c: nat, m: nat)
    requires m > 0 && n % m == 0 && c < n && c % m == 0
    ensures c + m <= n
  {
    DivMod(c, m);
    DivMod(n, m);
    BlockFits(c / m, n / m, m, 0);
  }

  lemma BlockIsDone<T>(R: Ring<T>, y: seq<T>, x0: seq<T>, s: nat, root: T, odd: bool, c: nat, e: nat)
    requires Staged(R, y, x0, s, root, odd) && c % s == 0 && c < |x0| && e == c + s <= |x0|
    ensures IsTransform(R, y[c..e], Unrev(x0[c..e]), root, odd)
  {
    assert BlockDone(R, y, x0, s, root, odd, c);
  }

  /** The two finished halves of a block of m = 2s entries are the transforms that
      CombineHalves needs. */
  lemma HalvesDone<T>(R: Ring<T>, y: seq<T>, x0: seq<T>, s: nat, m: nat, root2: T, odd: bool, c: nat)
    requires s > 0 && m == 2 * s && Staged(R, y, x0, s, root2, odd)
    requires c + m <= |x0| && c % m == 0
    ensures IsPow2(m)
    ensures IsTransform(R, y[c..c + s], Evens(Unrev(x0[c..c + m])), root2, odd)
    ensures IsTransform(R, y[c + s..c + m], Odds(Unrev(x0[c..c + m])), root2, odd)
  {
    HalfBlocksAligned(c, s, m);
    BlockIsDone(R, y, x0, s, root2, odd, c, c + s);
    BlockIsDone(R, y, x0, s, root2, odd, c + s, c + m);
    BlockHalves(x0, s, m, c);
  }

  /** Two finished blocks of s entries and a pass of width 2s make a finished block. */
  lemma StageBlock<T(!new)>(R: Ring<T>, z: seq<T>, y: seq<T>, x0: seq<T>, s: nat, m: nat, root: T, odd: bool, c: nat)
    requires IsRing(R) && R.ok(root) && s > 0 && m == 2 * s && HalfTurn(R, root, m, odd)
    requires Staged(R, y, x0, s, R.mul(root, root), odd)
    requires |z| == |y| && |x0| % m == 0 && c < |x0| && c % m == 0
    requires forall pos :: 0 <= pos < |x0| ==>
      z[pos] == PassAt(R, y, s, m, Factors(R, root, odd).0, Factors(R, root, odd).1, pos)
    ensures BlockDone(R, z, x0, m, root, odd, c)
  {
    AlignedBlockFits(|x0|, c, m);
    HalvesDone(R, y, x0, s, m, R.mul(root, root), odd, c);
    PassCombines(R, z, y, s, m, Factors(R, root, odd).0, Factors(R, root, odd).1, c);
    CombineBlock(R, z[c..c + m], Unrev(x0[c..c + m]), y[c..c + s], y[c + s..c + m], s, root, odd);
  }

  lemma CombineBlock<T(!new)>(R: Ring<T>, z: seq<T>, a: seq<T>, y0: seq<T>, y1: seq<T>, s: nat, root: T, odd: bool)
    requires IsRing(R) && R.ok(root) && s > 0 && |a| == 2 * s && HalfTurn(R, root, 2 * s, odd)
    requires IsTransform(R, y0, Evens(a), R.mul(root, root), odd)
    requires IsTransform(R, y1, Odds(a), R.mul(root, root), odd)
    requires Combined(R, z, y0, y1, Factors(R, root, odd).0, Factors(R, root, odd).1, s)
    ensures IsTransform(R, z, a, root, odd)
  {
    assert |y0| == s;
    CombineHalves(R, z, a, y0, y1, root, odd);
  }

  /** One iteration of the outer loop. */
  lemma Stage<T(!new)>(R: Ring<T>, z: seq<T>, y: seq<T>, x0: seq<T>, s: nat, m: nat, root: T, odd: bool)
    requires IsRing(R) && R.ok(root) && s > 0 && m == 2 * s && HalfTurn(R, root, m, odd)
    requires Staged(R, y, x0, s, R.mul(root, root), odd)
    requires |z| == |y| && |x0| % m == 0
    requires forall pos :: 0 <= pos < |x0| ==>
      z[pos] == PassAt(R, y, s, m, Factors(R, root, odd).0, Factors(R, root, odd).1, pos)
    ensures Staged(R, z, x0, m, root, odd)
  {
    assert m / 2 == s;
    forall c | 0 <= c < |x0| && c % m == 0
      ensures BlockDone(R, z, x0, m, root, odd, c)
    {
      StageBlock(R, z, y, x0, s, m, root, odd, c);
    }
  }

  lemma HalfBlocksAligned(c: nat, s: nat, m: nat)
    requires s > 0 && m == 2 * s && c % m == 0
    ensures c % s == 0 && (c + s) % s == 0
  {
    DivMod(c, m);
    ModUnique(c, s, 2 * (c / m), 0);
    ModStep(c, s);
  }

  lemma BlockOffset(c: nat, m: nat, k: nat)
    requires m > 0 && c % m == 0 && k < m
    ensures (c + k) % m == k
  {
    DivMod(c, m);
    ModUnique(c + k, m, c / m, k);
  }

  // ---------- the iterative transforms ----------

  lemma StageDivisors(n: nat, s: nat, m: nat)
    requires s > 0 && m == 2 * s && n % m == 0
    ensures n % s == 0 && n / s == 2 * (n / m) && n == (n / m) * m && n / 2 == (n / m) * s
  {
    var d := n / m;
    DivMod(n, m);
    assert n == d * m == (2 * d) * s;
    ModUnique(n, s, 2 * d, 0);
    assert n == 2 * (d * s);
  }

  /** The root used at width m: root^(n/m). Its square is the one used at width m/2. */
  lemma StageRoot<T(!new)>(R: Ring<T>, root: T, n: nat, s: nat, m: nat, odd: bool)
    requires IsRing(R) && s > 0 && m == 2 * s && n % m == 0 && m <= n
    requires HalfTurn(R, root, n, odd)
    ensures n % s == 0
    ensures R.ok(Pow(R, root, n / m))
    ensures R.mul(Pow(R, root, n / m), Pow(R, root, n / m)) == Pow(R, root, n / s)
    ensures HalfTurn(R, Pow(R, root, n / m), m, odd)
  {
    var d := n / m;
    StageDivisors(n, s, m);
    PowOk(R, root, d);
    PowSquare(R, root, d);
    PowPow(R, root, d, if odd then m else s);
  }

  /** Doubling the width of the blocks stays among the divisors of a power of two. */
  lemma {:induction false} DivisorDoubles(n: nat, s: nat)
    requires IsPow2(n) && IsPow2(s) && s < n
    ensures 2 * s <= n && n % (2 * s) == 0
    decreases s
  {
    if s == 1 {
      assert n % 2 == 0;
    } else {
      var h, k := n / 2, s / 2;
      assert n == 2 * h && s == 2 * k;
      DivisorDoubles(h, k);
      DivMod(h, 2 * k);
      assert n == (h / (2 * k)) * (2 * s);
      ModUnique(n, 2 * s, h / (2 * k), 0);
    }
  }

  /** The invariant of the outer loop: the blocks of s entries are finished. */
  ghost predicate Reached<T>(R: Ring<T>, y: seq<T>, x0: seq<T>, s: nat, root: T, odd: bool) {
    && 1 <= s <= |x0| && IsPow2(|x0|) && |x0| % s == 0
    && Staged(R, y, x0, s, Pow(R, root, |x0| / s), odd)
  }

  lemma ReachedInit<T(!new)>(R: Ring<T>, x0: seq<T>, a: seq<T>, root: T, odd: bool)
    requires IsRing(R) && IsPow2(|x0|) && Unrev(x0) == a && Reduced(R, a)
    ensures Reached(R, x0, x0, 1, root, odd)
  {
    BitReversedReduced(R, x0, a);
    StagedInit(R, x0, Pow(R, root, |x0|), odd);
  }

  lemma PassFits<T>(R: Ring<T>, y: seq<T>, x0: seq<T>, s: nat, m: nat, root: T, odd: bool)
    requires Reached(R, y, x0, s, root, odd) && s < |x0| && m == 2 * s
    ensures |y| == |x0| && m <= |x0| && |x0| % m == 0
  {
    DivisorDoubles(|x0|, s);
  }

  lemma ReachedNext<T(!new)>(R: Ring<T>, z: seq<T>, y: seq<T>, x0: seq<T>, s: nat, m: nat, root: T, odd: bool, alpha: T)
    requires IsRing(R) && Reached(R, y, x0, s, root, odd) && m == 2 * s && |x0| % m == 0 && m <= |x0|
    requires HalfTurn(R, root, |x0|, odd)
    requires alpha == Pow(R, root, |x0| / m) && |z| == |y|
    requires forall pos :: 0 <= pos < |x0| ==>
      z[pos] == PassAt(R, y, s, m, Factors(R, alpha, odd).0, Factors(R, alpha, odd).1, pos)
    ensures Reached(R, z, x0, m, root, odd)
  {
    StageRoot(R, root, |x0|, s, m, odd);
    Stage(R, z, y, x0, s, m, alpha, odd);
  }

  lemma ReachedAll<T(!new)>(R: Ring<T>, y: seq<T>, x0: seq<T>, root: T, odd: bool)
    requires IsRing(R) && R.ok(root) && Reached(R, y, x0, |x0|, root, odd)
    ensures IsTransform(R, y, Unrev(x0), root, odd)
  {
    PowOne(R, root);
    ModUnique(|x0|, |x0|, 1, 0);
    AllStaged(R, y, x0, root, odd);
  }

  /** The standard transform in place: x becomes its values at the powers of root. */
  method FFT_Iter<T(!new)>(R: Ring<T>, x: array<T>, n: nat, root: T)
    requires IsRing(R) && R.ok(root) && x.Length == n && Reduced(R, x[..])
    requires IsPow2(n) && HalfTurn(R, root, n, false)
    modifies x
    ensures IsTransform(R, x[..], old(x[..]), root, false)
  {
    ghost var a := x[..];
    BitReverse(x, n);
    ghost var x0 := x[..];
    ReachedInit(R, x0, a, root, false);
    var s := 1;
    while s < n
      invariant 1 <= s <= n && Reached(R, x[..], x0, s, root, false)
    {
      ghost var y := x[..];
      var m := 2 * s;
      PassFits(R, y, x0, s, m, root, false);
      var alpha := Power(R, root, n / m);
      Pass(R, x, n, s, R.one, alpha);
      ReachedNext(R, x[..], y, x0, s, m, root, false, alpha);
      s := m;
    }
    ReachedAll(R, x[..], x0, root, false);
  }

  /** The transform modulo x^n + 1 in place: x becomes its values at the odd powers of root. */
  method FFT_Iter2<T(!new)>(R: Ring<T>, x: array<T>, n: nat, root: T)
    requires IsRing(R) && R.ok(root) && x.Length == n && Reduced(R, x[..])
    requires IsPow2(n) && HalfTurn(R, root, n, true)
    modifies x
    ensures IsTransform(R, x[..], old(x[..]), root, true)
  {
    ghost var a := x[..];
    BitReverse(x, n);
    ghost var x0 := x[..];
    ReachedInit(R, x0, a, root, true);
    var s := 1;
    while s < n
      invariant 1 <= s <= n && Reached(R, x[..], x0, s, root, true)
    {
      ghost var y := x[..];
      var m := 2 * s;
      PassFits(R, y, x0, s, m, root, true);
      var alpha := Power(R, root, n / m);
      var alpha2 := alpha;
      alpha := R.mul(alpha, alpha);
      Pass(R, x, n, s, alpha2, alpha);
      ReachedNext(R, x[..], y, x0, s, m, root, true, alpha2);
      s := m;
    }
    ReachedAll(R, x[..], x0, root, true);
  }

  lemma BitReversedReduced<T>(R: Ring<T>, x0: seq<T>, a: seq<T>)
    requires IsPow2(|x0|) && Unrev(x0) == a && Reduced(R, a)
    ensures Reduced(R, x0)
  {
    forall t | 0 <= t < |x0|
      ensures R.ok(x0[t])
    {
      RevInvolution(|x0|, t);
      assert a[Rev(|x0|, t)] == x0[t];
    }
  }

  lemma AllStaged<T>(R: Ring<T>, y: seq<T>, x0: seq<T>, root: T, odd: bool)
    requires |x0| > 0 && Staged(R, y, x0, |x0|, root, odd)
    ensures IsTransform(R, y, Unrev(x0), root, odd)
  {
    assert 0 % |x0| == 0;
    assert BlockDone(R, y, x0, |x0|, root, odd, 0);
    assert y[0..|x0|] == y && x0[0..|x0|] == x0;
  }
}
