/**
 Bit lists, least bit first, and the carry tree of Compiler/comparison.py: combining neighbours level
 by level gives the carry that the bits ripple to.
 */
module Bits {
  import opened Integers

  predicate AreBits(b: seq<int>) {
    forall i :: 0 <= i < |b| ==> b[i] == 0 || b[i] == 1
  }

  /** The number with the given bits. */
  function Value(b: seq<int>): int {
    if b == [] then 0 else b[0] + 2 * Value(b[1..])
  }

  lemma {:induction false} ValueBounds(b: seq<int>)
    requires AreBits(b)
    ensures 0 <= Value(b) < TwoTo(|b|)
  {
    if b != [] {
      assert AreBits(b[1..]);
      ValueBounds(b[1..]);
    }
  }

  lemma {:induction false} ValueTop(b: seq<int>, t: int)
    ensures Value(b + [t]) == Value(b) + TwoTo(|b|) * t
  {
    if b == [] {
      assert Value([t][1..]) == 0;
    } else {
      assert (b + [t])[1..] == b[1..] + [t];
      ValueTop(b[1..], t);
    }
  }

  lemma {:induction false} TwoToAdd(m: nat, n: nat)
    ensures TwoTo(m + n) == TwoTo(m) * TwoTo(n)
  {
    if m > 0 {
      TwoToAdd(m - 1, n);
      assert 2 * (TwoTo(m - 1) * TwoTo(n)) == (2 * TwoTo(m - 1)) * TwoTo(n);
    }
  }

  /** The other number of the same length, one less each. */
  function Complement(b: seq<int>): seq<int> {
    seq(|b|, i requires 0 <= i < |b| => 1 - b[i])
  }

  lemma {:induction false} ComplementValue(b: seq<int>)
    requires AreBits(b)
    ensures AreBits(Complement(b)) && Value(Complement(b)) == TwoTo(|b|) - 1 - Value(b)
  {
    if b != [] {
      assert AreBits(b[1..]);
      ComplementValue(b[1..]);
      assert Complement(b)[1..] == Complement(b[1..]);
    }
  }

  // ---------- carries ----------

  /** Propagate and generate. */
  datatype Pair = Pair(p: int, g: int)

  /** carry. Without compute_p the first result is whatever the register holds. */
  function Carry(low: Pair, high: Pair, computeP: bool, junk: int): Pair {
    Pair(if computeP then high.p * low.p else junk, high.g + high.p * low.g)
  }

  /** The carry after all pairs, from the carry c before them. */
  function Ripple(d: seq<Pair>, c: int): int {
    if d == [] then c else Ripple(d[1..], d[0].g + d[0].p * c)
  }

  /** The lowest pair has the carry that comes in added already. */
  function CarryOf(d: seq<Pair>): int
    requires d != []
  {
    Ripple(d[1..], d[0].g)
  }

  /** One level of CarryOutAux; an odd pair at the top stays. */
  function Halved(d: seq<Pair>, junk: int): seq<Pair> {
    if |d| < 2 then d else [Carry(d[0], d[1], false, junk)] + HalvedUp(d[2..])
  }

  function HalvedUp(d: seq<Pair>): (u: seq<Pair>)
    ensures |u| == (|d| + 1) / 2
  {
    if |d| < 2 then d else [Carry(d[0], d[1], true, 0)] + HalvedUp(d[2..])
  }

  /** Two steps of the carry are the step of the combined pair. */
  lemma TwoSteps(x: Pair, y: Pair, c: int)
    ensures y.g + y.p * (x.g + x.p * c) == (y.g + y.p * x.g) + (y.p * x.p) * c
  {
    assert y.p * (x.g + x.p * c) == y.p * x.g + y.p * (x.p * c);
    assert y.p * (x.p * c) == (y.p * x.p) * c;
  }

  lemma {:induction false} HalvedUpRipples(d: seq<Pair>, c: int)
    ensures Ripple(HalvedUp(d), c) == Ripple(d, c)
    decreases |d|
  {
    if |d| >= 2 {
      TwoSteps(d[0], d[1], c);
      var u := HalvedUp(d);
      assert u[1..] == HalvedUp(d[2..]) && d[1..][1..] == d[2..] && d[1..][0] == d[1];
      HalvedUpRipples(d[2..], u[0].g + u[0].p * c);
    }
  }

  lemma HalvedCarries(d: seq<Pair>, junk: int)
    requires |d| >= 2
    ensures |Halved(d, junk)| == (|d| + 1) / 2 && CarryOf(Halved(d, junk)) == CarryOf(d)
  {
    var u := Halved(d, junk);
    assert u[1..] == HalvedUp(d[2..]) && d[1..][0] == d[1] && d[1..][1..] == d[2..];
    HalvedUpRipples(d[2..], u[0].g);
  }

  /** The tree, with whatever the registers hold that are never used. */
  method CarryOutAux(d: seq<Pair>, junk: nat -> int) returns (c: int)
    requires d != []
    ensures c == CarryOf(d)
  {
    var u := d;
    var level := 0;
    while |u| > 1
      invariant u != [] && CarryOf(u) == CarryOf(d)
      decreases |u|
    {
      HalvedCarries(u, junk(level));
      u := Level(u, junk(level));
      level := level + 1;
    }
    c := u[0].g;
  }

  function PairsFrom(d: seq<Pair>, i: nat): seq<Pair> {
    if 2 * i < |d| then d[2 * i..] else []
  }

  /** One level, from the top pair down. */
  method Level(d: seq<Pair>, junk: int) returns (u: seq<Pair>)
    requires |d| >= 2
    ensures u == Halved(d, junk)
  {
    var i := (|d| + 1) / 2;
    u := [];
    while i > 1
      invariant 1 <= i <= (|d| + 1) / 2 && u == HalvedUp(PairsFrom(d, i))
    {
      i := i - 1;
      if 2 * i + 1 < |d| {
        assert PairsFrom(d, i)[2..] == PairsFrom(d, i + 1);
        u := [Carry(d[2 * i], d[2 * i + 1], true, 0)] + u;
      } else {
        u := [d[2 * i]] + u;
      }
    }
    u := [Carry(d[0], d[1], false, junk)] + u;
  }

  // ---------- adding ----------

  /** The pairs of an addition. */
  function Adder(a: seq<int>, b: seq<int>): seq<Pair>
    requires |a| == |b|
  {
    seq(|a|, i requires 0 <= i < |a| => Pair(b[i] + a[i] - 2 * (b[i] * a[i]), b[i] * a[i]))
  }

  lemma NextCarry(x: int, y: int, c: int)
    requires (x == 0 || x == 1) && (y == 0 || y == 1) && (c == 0 || c == 1)
    ensures var next := y * x + (y + x - 2 * (y * x)) * c;
      (next == 0 || next == 1) && 2 * next <= x + y + c <= 2 * next + 1
  {
  }

  lemma {:induction false} AdderCarries(a: seq<int>, b: seq<int>, c: int)
    requires |a| == |b| && AreBits(a) && AreBits(b) && (c == 0 || c == 1)
    ensures var r := Ripple(Adder(a, b), c);
      r == if Value(a) + Value(b) + c >= TwoTo(|a|) then 1 else 0
  {
    if a != [] {
      var d := Adder(a, b);
      var next := d[0].g + d[0].p * c;
      assert AreBits(a[1..]) && AreBits(b[1..]) && d[1..] == Adder(a[1..], b[1..]);
      NextCarry(a[0], b[0], c);
      AdderCarries(a[1..], b[1..], next);
    } else {
      assert Adder(a, b) == [];
    }
  }

  /** The last carry of a + b + c. */
  method CarryOut(a: seq<int>, b: seq<int>, c: int, junk: nat -> int) returns (r: int)
    requires |a| == |b| > 0 && AreBits(a) && AreBits(b) && (c == 0 || c == 1)
    ensures r == if Value(a) + Value(b) + c >= TwoTo(|a|) then 1 else 0
  {
    var d: seq<Pair> := [];
    for i := 0 to |a|
      invariant d == Adder(a, b)[..i]
    {
      var t0 := b[i] * a[i];
      d := d + [Pair(b[i] + a[i] - 2 * t0, t0)];
    }
    assert d == Adder(a, b);
    ghost var first := d;
    d := d[0 := Pair(d[0].p, d[0].g + d[0].p * c)];
    assert d[1..] == first[1..];
    r := CarryOutAux(d, junk);
    AdderCarries(a, b, c);
  }

  // ---------- comparing ----------

  /** a <? b by the carry of a - b. */
  method LessThan(a: seq<int>, b: seq<int>, junk: nat -> int) returns (r: int)
    requires |a| == |b| > 0 && AreBits(a) && AreBits(b)
    ensures r == if Value(a) < Value(b) then 1 else 0
  {
    var s: seq<int> := [];
    for i := 0 to |b|
      invariant s == Complement(b)[..i]
    {
      s := s + [1 - b[i]];
    }
    assert s == Complement(b);
    ComplementValue(b);
    var t := CarryOut(a, s, 1, junk);
    r := 1 - t;
  }
}
