/**
 The permutation network of Compiler/permutation.py. configure_waksman computes the bits of all
 layers by following cycles through the first and the last layer; waksman runs the network.
 */
module Waksman {
  import opened Integers
  import opened Swaps

  /** The number of wires of a network of k levels. */
  function Wires(k: nat): (n: nat)
    ensures n >= 1 && (k > 0 ==> n >= 2)
  {
    if k == 0 then 1 else 2 * Wires(k - 1)
  }

  // ---------- the network ----------

  /** config[depth] has the bits of all blocks at that depth; the block of n wires at start uses
      n of them. */
  predicate Fits(config: seq<seq<int>>, k: nat, depth: nat, start: nat) {
    depth + k <= |config| && forall d :: depth <= d < depth + k ==> start + Wires(k) <= |config[d]|
  }

  function Bit(config: seq<seq<int>>, depth: nat, at: nat): int {
    if depth < |config| && at < |config[depth]| then config[depth][at] else 0
  }

  /** The other of two wires if the bit is set. */
  function Crossed(e: nat, bit: int): (r: nat)
    requires e < 2
    ensures r < 2
  {
    if bit == 1 then 1 - e else e
  }

  /** Where half b of a block starts; also, where the bits of its first (b == 0) or last layer do. */
  function Sub(start: nat, h: nat, b: nat): nat {
    if b == 0 then start else start + h
  }

  /** Where the block of Wires(k) wires takes wire i. It enters half b by the first layer and
      leaves it by the last; in reverse these change places. */
  function Out(config: seq<seq<int>>, k: nat, depth: nat, start: nat, reverse: nat, i: nat): (o: nat)
    requires k >= 1 && i < Wires(k) && reverse < 2
    ensures o < Wires(k)
    decreases k
  {
    if k == 1 then Crossed(i, Bit(config, depth, start)) else
      var h := Wires(k - 1);
      var b := Crossed(i % 2, Bit(config, depth, Sub(start, h, reverse) + i / 2));
      var o := Out(config, k - 1, depth + 1, Sub(start, h, b), reverse, i / 2);
      2 * o + Crossed(b, Bit(config, depth, Sub(start, h, 1 - reverse) + o))
  }

  /** One level of the network: wire i is wire e of switch d and leaves from switch o. */
  lemma OutStep(config: seq<seq<int>>, k: nat, h: nat, depth: nat, start: nat, reverse: nat, i: nat, d: nat, e: nat,
                b: nat, o: nat)
    requires k > 1 && h == Wires(k - 1) && d < h && e < 2 && i == 2 * d + e && reverse < 2
    requires b == Crossed(e, Bit(config, depth, Sub(start, h, reverse) + d))
    requires o == Out(config, k - 1, depth + 1, Sub(start, h, b), reverse, d)
    ensures i < Wires(k)
    ensures Out(config, k, depth, start, reverse, i)
      == 2 * o + Crossed(b, Bit(config, depth, Sub(start, h, 1 - reverse) + o))
  {
    assert i / 2 == d && i % 2 == e;
  }

  /** Running the network in reverse undoes it, and the other way round, whatever the bits. */
  lemma {:induction false} ReverseUndoes(config: seq<seq<int>>, k: nat, depth: nat, start: nat, reverse: nat, i: nat)
    requires k >= 1 && i < Wires(k) && reverse < 2
    ensures Out(config, k, depth, start, 1 - reverse, Out(config, k, depth, start, reverse, i)) == i
    decreases k
  {
    if k > 1 {
      var h, d, e := Wires(k - 1), i / 2, i % 2;
      var b := Crossed(e, Bit(config, depth, Sub(start, h, reverse) + d));
      var o := Out(config, k - 1, depth + 1, Sub(start, h, b), reverse, d);
      ReverseUndoes(config, k - 1, depth + 1, Sub(start, h, b), reverse, d);
      ReverseLevel(config, k, h, depth, start, reverse, i, d, e, b, o);
    }
  }

  /** One level of the opposite network. */
  lemma BackStep(config: seq<seq<int>>, k: nat, h: nat, depth: nat, start: nat, reverse: nat, x: nat, d: nat, e: nat,
                 b: nat, o: nat)
    requires k > 1 && h == Wires(k - 1) && d < h && e < 2 && x == 2 * d + e && reverse < 2
    requires b == Crossed(e, Bit(config, depth, Sub(start, h, 1 - reverse) + d))
    requires o == Out(config, k - 1, depth + 1, Sub(start, h, b), 1 - reverse, d)
    ensures x < Wires(k)
    ensures Out(config, k, depth, start, 1 - reverse, x)
      == 2 * o + Crossed(b, Bit(config, depth, Sub(start, h, reverse) + o))
  {
    if reverse == 0 {
      OutStep(config, k, h, depth, start, 1, x, d, e, b, o);
    } else {
      OutStep(config, k, h, depth, start, 0, x, d, e, b, o);
    }
  }

  /** A level undoes itself if the halves do. */
  lemma ReverseLevel(config: seq<seq<int>>, k: nat, h: nat, depth: nat, start: nat, reverse: nat, i: nat, d: nat,
                     e: nat, b: nat, o: nat)
    requires k > 1 && h == Wires(k - 1) && d < h && e < 2 && i == 2 * d + e && reverse < 2
    requires b == Crossed(e, Bit(config, depth, Sub(start, h, reverse) + d))
    requires o == Out(config, k - 1, depth + 1, Sub(start, h, b), reverse, d) && o < h
    requires Out(config, k - 1, depth + 1, Sub(start, h, b), 1 - reverse, o) == d
    ensures i < Wires(k) && Out(config, k, depth, start, 1 - reverse, Out(config, k, depth, start, reverse, i)) == i
  {
    var f := Crossed(b, Bit(config, depth, Sub(start, h, 1 - reverse) + o));
    OutStep(config, k, h, depth, start, reverse, i, d, e, b, o);
    BackStep(config, k, h, depth, start, reverse, 2 * o + f, o, f, b, d);
  }

  // ---------- configurations of a permutation ----------

  predicate InRange(p: seq<nat>) {
    forall i :: 0 <= i < |p| ==> p[i] < |p|
  }

  predicate Injective(p: seq<nat>) {
    forall i, j :: 0 <= i < j < |p| ==> p[i] != p[j]
  }

  predicate Onto(p: seq<nat>) {
    forall j :: 0 <= j < |p| ==> j in p
  }

  /** Every wire is the image of exactly one. */
  predicate IsPermutation(p: seq<nat>) {
    InRange(p) && Injective(p) && Onto(p)
  }

  predicate AreBits(bits: seq<int>) {
    forall d :: 0 <= d < |bits| ==> bits[d] == 0 || bits[d] == 1
  }

  /** The wire of switch d that enters half b. */
  function Entering(ins: seq<int>, d: nat, b: nat): (i: nat)
    requires AreBits(ins) && d < |ins| && b < 2
    ensures i < 2 * |ins| && i / 2 == d
  {
    2 * d + Crossed(b, ins[d])
  }

  /** Bits ins and outs of the outer layers: every wire leaves the half that it entered. */
  predicate Switches(perm: seq<nat>, h: nat, ins: seq<int>, outs: seq<int>) {
    && |perm| == 2 * h && |ins| == |outs| == h && InRange(perm) && AreBits(ins)
    && forall d, b: nat :: 0 <= d < h && b < 2 ==> LeavesBy(perm, h, outs, Entering(ins, d, b), b)
  }

  /** The output switch of wire i takes it from half b. */
  predicate LeavesBy(perm: seq<nat>, h: nat, outs: seq<int>, i: nat, b: nat)
    requires |perm| == 2 * h && |outs| == h && InRange(perm) && i < |perm| && b < 2
  {
    perm[i] % 2 == Crossed(b, outs[perm[i] / 2])
  }

  /** Where half b has to send its entries. */
  function Half(perm: seq<nat>, h: nat, ins: seq<int>, b: nat): (r: seq<nat>)
    requires |perm| == 2 * h && |ins| == h && AreBits(ins) && b < 2
  {
    seq(h, d requires 0 <= d < h => perm[Entering(ins, d, b)] / 2)
  }

  /** The bits of a layer of h switches. */
  function Layer(config: seq<seq<int>>, depth: nat, at: nat, h: nat): (r: seq<int>) {
    seq(h, d requires 0 <= d < h => Bit(config, depth, at + d))
  }

  /** The block of config at (depth, start) is set for perm. */
  predicate Configured(perm: seq<nat>, k: nat, config: seq<seq<int>>, depth: nat, start: nat)
    requires k >= 1 && |perm| == Wires(k)
    decreases k
  {
    if k == 1 then Bit(config, depth, start) == perm[0] && perm[0] + perm[1] == 1 else
      var h := Wires(k - 1);
      var ins, outs := Layer(config, depth, start, h), Layer(config, depth, start + h, h);
      && Switches(perm, h, ins, outs)
      && forall b: nat :: b < 2 ==> Configured(Half(perm, h, ins, b), k - 1, config, depth + 1, Sub(start, h, b))
  }

  /** Wire e of switch d enters half b and leaves to wire perm[i]. */
  lemma SwitchRoute(perm: seq<nat>, h: nat, config: seq<seq<int>>, depth: nat, start: nat, d: nat, e: nat)
      returns (b: nat, half: seq<nat>)
    requires Switches(perm, h, Layer(config, depth, start, h), Layer(config, depth, start + h, h)) && d < h && e < 2
    ensures b < 2 && b == Crossed(e, Bit(config, depth, start + d))
    ensures half == Half(perm, h, Layer(config, depth, start, h), b) && |half| == h && half[d] < h
    ensures perm[2 * d + e] == 2 * half[d] + Crossed(b, Bit(config, depth, start + h + half[d]))
  {
    var ins, outs := Layer(config, depth, start, h), Layer(config, depth, start + h, h);
    b := Crossed(e, ins[d]);
    half := Half(perm, h, ins, b);
    assert Entering(ins, d, b) == 2 * d + e;
    assert LeavesBy(perm, h, outs, 2 * d + e, b);
  }

  /** A configured network takes wire i to wire perm[i]. */
  lemma {:induction false} NetworkRoutes(perm: seq<nat>, k: nat, config: seq<seq<int>>, depth: nat, start: nat, i: nat)
    requires k >= 1 && |perm| == Wires(k) && Configured(perm, k, config, depth, start) && i < |perm|
    ensures Out(config, k, depth, start, 0, i) == perm[i]
    decreases k
  {
    if k > 1 {
      var h, d, e := Wires(k - 1), i / 2, i % 2;
      var b, half := SwitchRoute(perm, h, config, depth, start, d, e);
      NetworkRoutes(half, k - 1, config, depth + 1, Sub(start, h, b), d);
      OutStep(config, k, h, depth, start, 0, i, d, e, b, half[d]);
    }
  }

  predicate BitAgrees(c: seq<seq<int>>, depth: nat, start: nat, c1: seq<seq<int>>, depth1: nat, start1: nat, d: nat,
                      x: nat) {
    Bit(c, depth + d, start + x) == Bit(c1, depth1 + d, start1 + x)
  }

  /** Two blocks of configurations have the same bits. */
  ghost predicate SameBlock(k: nat, c: seq<seq<int>>, depth: nat, start: nat, c1: seq<seq<int>>, depth1: nat,
                            start1: nat) {
    forall d: nat, x: nat :: d < k && x < Wires(k) ==> BitAgrees(c, depth, start, c1, depth1, start1, d, x)
  }

  /** Equal bits configure equally, wherever the block is. */
  lemma {:induction false} SameBits(perm: seq<nat>, k: nat, c: seq<seq<int>>, depth: nat, start: nat,
                                    c1: seq<seq<int>>, depth1: nat, start1: nat)
    requires k >= 1 && |perm| == Wires(k) && Configured(perm, k, c, depth, start)
    requires SameBlock(k, c, depth, start, c1, depth1, start1)
    ensures Configured(perm, k, c1, depth1, start1)
    decreases k
  {
    assert BitAgrees(c, depth, start, c1, depth1, start1, 0, 0);
    if k > 1 {
      var h := Wires(k - 1);
      var ins, outs := Layer(c, depth, start, h), Layer(c, depth, start + h, h);
      forall x | 0 <= x < h
        ensures ins[x] == Layer(c1, depth1, start1, h)[x] && outs[x] == Layer(c1, depth1, start1 + h, h)[x]
      {
        assert BitAgrees(c, depth, start, c1, depth1, start1, 0, x);
        assert BitAgrees(c, depth, start, c1, depth1, start1, 0, h + x);
      }
      assert ins == Layer(c1, depth1, start1, h) && outs == Layer(c1, depth1, start1 + h, h);
      forall b: nat | b < 2
        ensures Configured(Half(perm, h, ins, b), k - 1, c1, depth1 + 1, Sub(start1, h, b))
      {
        SubBlock(k, h, c, depth, start, c1, depth1, start1, b);
        SameBits(Half(perm, h, ins, b), k - 1, c, depth + 1, Sub(start, h, b), c1, depth1 + 1, Sub(start1, h, b));
      }
    }
  }

  lemma SubBlock(k: nat, h: nat, c: seq<seq<int>>, depth: nat, start: nat, c1: seq<seq<int>>, depth1: nat, start1: nat,
                 b: nat)
    requires k > 1 && h == Wires(k - 1) && b < 2 && SameBlock(k, c, depth, start, c1, depth1, start1)
    ensures SameBlock(k - 1, c, depth + 1, Sub(start, h, b), c1, depth1 + 1, Sub(start1, h, b))
  {
    var dep, st, dep1, st1 := depth + 1, Sub(start, h, b), depth1 + 1, Sub(start1, h, b);
    forall d: nat, x: nat | d < k - 1 && x < h
      ensures BitAgrees(c, dep, st, c1, dep1, st1, d, x)
    {
      assert BitAgrees(c, depth, start, c1, depth1, start1, d + 1, if b == 0 then x else h + x);
    }
  }

  // ---------- following the cycles ----------

  datatype Slot = Unset | Set(value: nat)

  /** The other wire of a switch. */
  function Flip(j: nat): (r: nat)
    ensures r / 2 == j / 2 && r % 2 == 1 - j % 2 && r != j
  {
    if j % 2 == 1 then j - 1 else j + 1
  }

  predicate AreInverse(perm: seq<nat>, inv: seq<nat>) {
    && |perm| == |inv| && InRange(perm) && InRange(inv)
    && forall i :: 0 <= i < |perm| ==> inv[perm[i]] == i && perm[inv[i]] == i
  }

  /** Element i uses its switch in to: to the upper half if up, else to the lower one. */
  predicate Uses(slots: seq<Slot>, i: nat, up: bool) {
    i / 2 < |slots| && slots[i / 2] == Set(if up then i % 2 else 1 - i % 2)
  }

  /** For a chosen input switch, the wire to the upper half is taken from it at its output switch,
      and the other wire from the lower half, unless it is the pending one. */
  predicate Forward(perm: seq<nat>, h: nat, I: seq<Slot>, O: seq<Slot>, pending: int) {
    && |I| == |O| == h && |perm| == 2 * h
    && forall i :: 0 <= i < |perm| ==>
         && (Uses(I, i, true) ==> Uses(O, perm[i], true))
         && (Uses(I, i, false) && i != pending ==> Uses(O, perm[i], false))
  }

  /** The same from the output switches; the switch of the open wire still lacks its other wire. */
  predicate Backward(inv: seq<nat>, h: nat, I: seq<Slot>, O: seq<Slot>, open: int) {
    && |I| == |O| == h && |inv| == 2 * h
    && forall j :: 0 <= j < |inv| ==>
         && (Uses(O, j, true) ==> Uses(I, inv[j], true))
         && (Uses(O, j, false) && j != open ==> Uses(I, inv[j], false))
  }

  predicate BitSlots(slots: seq<Slot>) {
    forall d :: 0 <= d < |slots| && slots[d].Set? ==> slots[d].value < 2
  }

  /** The state of the walk before it handles output wire j of the cycle that began at j0. */
  predicate Walking(perm: seq<nat>, inv: seq<nat>, h: nat, I: seq<Slot>, O: seq<Slot>, j0: nat, j: nat) {
    && AreInverse(perm, inv) && |perm| == 2 * h && |I| == |O| == h && BitSlots(I) && BitSlots(O)
    && j0 < 2 * h && j0 % 2 == 0 && j < 2 * h && O[j / 2] == Unset
    && if j == j0 then Forward(perm, h, I, O, -1) && Backward(inv, h, I, O, -1) else
         && Forward(perm, h, I, O, inv[Flip(j)]) && Backward(inv, h, I, O, Flip(j0))
         && Uses(I, inv[Flip(j)], false) && O[j0 / 2] == Set(0)
  }

  lemma InputIsFree(perm: seq<nat>, inv: seq<nat>, h: nat, I: seq<Slot>, O: seq<Slot>, j0: nat, j: nat)
    requires Walking(perm, inv, h, I, O, j0, j)
    ensures I[inv[j] / 2] == Unset
  {
    var i := inv[j];
    assert !Uses(O, j, true) && !Uses(O, j, false);
    assert !Uses(I, i, true) && !Uses(I, i, false);
  }

  /** The walk goes on with output wire j, or it has come back to j0 and the cycle is closed. */
  predicate Walked(perm: seq<nat>, inv: seq<nat>, h: nat, I: seq<Slot>, O: seq<Slot>, j0: nat, j: nat) {
    if j == j0 then Connected(perm, inv, h, I, O) else Walking(perm, inv, h, I, O, j0, j)
  }

  /** All set switches agree. */
  predicate Connected(perm: seq<nat>, inv: seq<nat>, h: nat, I: seq<Slot>, O: seq<Slot>) {
    Forward(perm, h, I, O, -1) && Backward(inv, h, I, O, -1) && BitSlots(I) && BitSlots(O)
  }

  /** One step of the walk: the next wire is a new one, or the cycle closes. */
  lemma WalkStep(perm: seq<nat>, inv: seq<nat>, h: nat, I: seq<Slot>, O: seq<Slot>, j0: nat, j: nat, i: nat, other: nat,
                 next: nat)
    requires Walking(perm, inv, h, I, O, j0, j) && i == inv[j] && other == Flip(i)
    requires other < |perm| ==> next == Flip(perm[other])
    ensures i < 2 * h && other < 2 * h && next < 2 * h && I[i / 2] == Unset
    ensures Walked(perm, inv, h, I[i / 2 := Set(i % 2)], O[j / 2 := Set(j % 2)], j0, next)
  {
    InputIsFree(perm, inv, h, I, O, j0, j);
    WalkBounds(perm, inv, h, j, i, other, next);
    StepForward(perm, inv, h, I, O, j0, j);
    StepBackward(perm, inv, h, I, O, j0, j);
    if next != j0 {
      NextIsFree(perm, inv, h, I, O, j0, j);
    }
  }

  lemma WalkBounds(perm: seq<nat>, inv: seq<nat>, h: nat, j: nat, i: nat, other: nat, next: nat)
    requires AreInverse(perm, inv) && |perm| == 2 * h && j < 2 * h && i == inv[j] && other == Flip(i)
    requires other < |perm| ==> next == Flip(perm[other])
    ensures i < 2 * h && other < 2 * h && next < 2 * h
    ensures inv[Flip(next)] == other && perm[other] == Flip(next) && perm[i] == j
  {
    assert Flip(Flip(perm[other])) == perm[other];
  }

  lemma StepForward(perm: seq<nat>, inv: seq<nat>, h: nat, I: seq<Slot>, O: seq<Slot>, j0: nat, j: nat)
    requires Walking(perm, inv, h, I, O, j0, j) && I[inv[j] / 2] == Unset
    ensures var i := inv[j]; var I1, O1 := I[i / 2 := Set(i % 2)], O[j / 2 := Set(j % 2)];
            Forward(perm, h, I1, O1, Flip(i))
  {
    var i := inv[j];
    var I1, O1 := I[i / 2 := Set(i % 2)], O[j / 2 := Set(j % 2)];
    forall x | 0 <= x < |perm|
      ensures Uses(I1, x, true) ==> Uses(O1, perm[x], true)
      ensures Uses(I1, x, false) && x != Flip(i) ==> Uses(O1, perm[x], false)
    {
      if x / 2 == i / 2 {
        assert x == i || x == Flip(i);
      } else {
        assert Uses(I1, x, true) == Uses(I, x, true) && Uses(I1, x, false) == Uses(I, x, false);
        if j != j0 && x == inv[Flip(j)] {
          assert perm[x] == Flip(j);
        }
      }
    }
  }

  lemma StepBackward(perm: seq<nat>, inv: seq<nat>, h: nat, I: seq<Slot>, O: seq<Slot>, j0: nat, j: nat)
    requires Walking(perm, inv, h, I, O, j0, j) && I[inv[j] / 2] == Unset
    ensures var i := inv[j]; var I1, O1 := I[i / 2 := Set(i % 2)], O[j / 2 := Set(j % 2)];
            Backward(inv, h, I1, O1, Flip(j0))
  {
    var i := inv[j];
    var I1, O1 := I[i / 2 := Set(i % 2)], O[j / 2 := Set(j % 2)];
    forall y | 0 <= y < |inv|
      ensures Uses(O1, y, true) ==> Uses(I1, inv[y], true)
      ensures Uses(O1, y, false) && y != Flip(j0) ==> Uses(I1, inv[y], false)
    {
      if y / 2 == j / 2 {
        assert y == j || y == Flip(j);
      } else {
        assert Uses(O1, y, true) == Uses(O, y, true) && Uses(O1, y, false) == Uses(O, y, false);
      }
    }
  }

  lemma NextIsFree(perm: seq<nat>, inv: seq<nat>, h: nat, I: seq<Slot>, O: seq<Slot>, j0: nat, j: nat)
    requires Walking(perm, inv, h, I, O, j0, j) && I[inv[j] / 2] == Unset
    requires Flip(inv[j]) < 2 * h && Flip(perm[Flip(inv[j])]) < 2 * h && Flip(perm[Flip(inv[j])]) != j0
    ensures O[j / 2 := Set(j % 2)][perm[Flip(inv[j])] / 2] == Unset
  {
    var x := perm[Flip(inv[j])];
    assert inv[x] == Flip(inv[j]);
    assert x != j && x != Flip(j);
    assert !Uses(I, inv[x], true) && !Uses(I, inv[x], false);
    assert !Uses(O, x, true) && !Uses(O, x, false);
  }

  // ---------- configure_waksman ----------

  /** The network to the upper half comes from the chosen inputs, the other from the rest. */
  predicate HalvesSet(perm: seq<nat>, h: nat, I: seq<Slot>, p0: seq<Slot>, p1: seq<Slot>) {
    && |I| == |p0| == |p1| == h && |perm| == 2 * h && BitSlots(I)
    && forall d :: 0 <= d < h ==>
         && (I[d].Set? <==> p0[d].Set?) && (I[d].Set? <==> p1[d].Set?)
         && (I[d].Set? ==>
              p0[d].value == perm[2 * d + I[d].value] / 2 && p1[d].value == perm[2 * d + 1 - I[d].value] / 2)
  }

  predicate AllSet(slots: seq<Slot>) {
    forall d :: 0 <= d < |slots| ==> slots[d].Set?
  }

  function Values(slots: seq<Slot>): (r: seq<nat>)
    requires AllSet(slots)
  {
    seq(|slots|, d requires 0 <= d < |slots| => slots[d].value)
  }

  ghost function Free(slots: seq<Slot>): set<int> {
    set d | 0 <= d < |slots| && slots[d].Unset?
  }

  /** The loop that inverts the permutation. */
  method Inverse(perm: seq<nat>) returns (inv: seq<nat>)
    requires IsPermutation(perm)
    ensures AreInverse(perm, inv)
  {
    inv := seq(|perm|, _ => 0);
    var i := 0;
    while i < |perm|
      invariant 0 <= i <= |perm| == |inv| && InRange(inv)
      invariant forall x :: 0 <= x < i ==> inv[perm[x]] == x
    {
      inv := inv[perm[i] := i];
      i := i + 1;
    }
    forall j: nat | j < |perm|
      ensures perm[inv[j]] == j
    {
      assert j in perm;
    }
  }

  /** O.index(None), or the length if there is none. */
  method FirstUnset(slots: seq<Slot>) returns (c: nat)
    ensures c <= |slots| && (c < |slots| ==> slots[c].Unset?)
    ensures c == |slots| ==> AllSet(slots)
  {
    c := 0;
    while c < |slots| && slots[c].Set?
      invariant 0 <= c <= |slots|
      invariant forall d :: 0 <= d < c ==> slots[d].Set?
    {
      c := c + 1;
    }
  }

  lemma SetOne(slots: seq<Slot>, k: nat, v: nat)
    requires k < |slots|
    ensures Free(slots[k := Set(v)]) == Free(slots) - {k}
  {
  }

  lemma HalvesStep(perm: seq<nat>, h: nat, I: seq<Slot>, p0: seq<Slot>, p1: seq<Slot>, i: nat)
    requires HalvesSet(perm, h, I, p0, p1) && i < 2 * h && Flip(i) < 2 * h
    ensures HalvesSet(perm, h, I[i / 2 := Set(i % 2)], p0[i / 2 := Set(perm[i] / 2)],
                      p1[i / 2 := Set(perm[Flip(i)] / 2)])
  {
    assert i == 2 * (i / 2) + i % 2 && Flip(i) == 2 * (i / 2) + 1 - i % 2;
  }

  /** O, where the switch of j0 may already be set although it is not yet connected. */
  ghost predicate Begun(O: seq<Slot>, free: seq<Slot>, j0: nat, j: nat) {
    j0 / 2 < |free| && j0 % 2 == 0 && O == if j == j0 then free[j0 / 2 := Set(0)] else free
  }

  lemma BegunStep(O: seq<Slot>, free: seq<Slot>, j0: nat, j: nat)
    requires Begun(O, free, j0, j) && j / 2 < |free|
    ensures O[j / 2 := Set(j % 2)] == free[j / 2 := Set(j % 2)]
  {
  }

  /** Handles output wire j: its input wire goes to the upper half, the other wire of that switch
      to the lower one; next is the output wire that therefore has to come from the upper half. */
  lemma FreeShrinks(I: seq<Slot>, O: seq<Slot>, i: nat, j: nat)
    requires i / 2 < |I| && I[i / 2] == Unset && j / 2 < |O|
    ensures Free(I[i / 2 := Set(i % 2)]) < Free(I) && Free(O[j / 2 := Set(j % 2)]) <= Free(O)
  {
    SetOne(I, i / 2, i % 2);
    SetOne(O, j / 2, j % 2);
    assert i / 2 in Free(I);
  }

  method FollowWire(perm: seq<nat>, inv: seq<nat>, h: nat, I0: seq<Slot>, O0: seq<Slot>, p00: seq<Slot>, p10: seq<Slot>,
                    j0: nat, j: nat, ghost free: seq<Slot>)
    returns (I: seq<Slot>, O: seq<Slot>, p0: seq<Slot>, p1: seq<Slot>, next: nat)
    requires Walking(perm, inv, h, I0, free, j0, j) && HalvesSet(perm, h, I0, p00, p10) && Begun(O0, free, j0, j)
    ensures HalvesSet(perm, h, I, p0, p1) && Free(I) < Free(I0) && Free(O) <= Free(O0)
    ensures Walked(perm, inv, h, I, O, j0, next)
  {
    var i := inv[j];
    var other := Flip(i);
    next := if other < |perm| then Flip(perm[other]) else 0;
    WalkStep(perm, inv, h, I0, free, j0, j, i, other, next);
    BegunStep(O0, free, j0, j);
    HalvesStep(perm, h, I0, p00, p10, i);
    FreeShrinks(I0, O0, i, j);
    p0 := p00[i / 2 := Set(j / 2)];
    I := I0[i / 2 := Set(i % 2)];
    O := O0[j / 2 := Set(j % 2)];
    p1 := p10[other / 2 := Set(perm[other] / 2)];
  }

  /** Follows one cycle from output wire j0 until it closes. */
  method FollowCycle(perm: seq<nat>, inv: seq<nat>, h: nat, I0: seq<Slot>, O0: seq<Slot>, p00: seq<Slot>,
                     p10: seq<Slot>, j0: nat) returns (I: seq<Slot>, O: seq<Slot>, p0: seq<Slot>, p1: seq<Slot>)
    requires Walking(perm, inv, h, I0, O0, j0, j0) && HalvesSet(perm, h, I0, p00, p10)
    ensures Connected(perm, inv, h, I, O) && HalvesSet(perm, h, I, p0, p1)
    ensures Free(O) <= Free(O0) - {j0 / 2}
  {
    I, O, p0, p1 := I0, O0[j0 / 2 := Set(0)], p00, p10;
    SetOne(O0, j0 / 2, 0);
    var j := j0;
    ghost var free := O0;
    while true
      invariant Walking(perm, inv, h, I, free, j0, j) && HalvesSet(perm, h, I, p0, p1) && Begun(O, free, j0, j)
      invariant Free(O) <= Free(O0) - {j0 / 2}
      decreases Free(I)
    {
      I, O, p0, p1, j := FollowWire(perm, inv, h, I, O, p0, p1, j0, j, free);
      free := O;
      if j == j0 {
        break;
      }
    }
  }

  /** Follows the cycles until every switch is set. */
  method FollowCycles(perm: seq<nat>, inv: seq<nat>, h: nat)
    returns (I: seq<Slot>, O: seq<Slot>, p0: seq<Slot>, p1: seq<Slot>)
    requires AreInverse(perm, inv) && |perm| == 2 * h
    ensures Connected(perm, inv, h, I, O) && HalvesSet(perm, h, I, p0, p1)
    ensures AllSet(O) || (AllSet(p0) && AllSet(p1))
  {
    I, O := seq(h, _ => Unset), seq(h, _ => Unset);
    p0, p1 := seq(h, _ => Unset), seq(h, _ => Unset);
    while true
      invariant Connected(perm, inv, h, I, O) && HalvesSet(perm, h, I, p0, p1)
      decreases Free(O)
    {
      var c := FirstUnset(O);
      if c == |O| {
        break;
      }
      StartWalk(perm, inv, h, I, O, c, 2 * c);
      I, O, p0, p1 := FollowCycle(perm, inv, h, I, O, p0, p1, 2 * c);
      if AllSet(p0) && AllSet(p1) {
        break;
      }
    }
  }

  lemma StartWalk(perm: seq<nat>, inv: seq<nat>, h: nat, I: seq<Slot>, O: seq<Slot>, c: nat, j: nat)
    requires AreInverse(perm, inv) && |perm| == 2 * h && Connected(perm, inv, h, I, O)
    requires c < |O| && O[c].Unset? && j == 2 * c
    ensures Walking(perm, inv, h, I, O, j, j) && j / 2 in Free(O)
  {
  }

  lemma InputSet(perm: seq<nat>, inv: seq<nat>, h: nat, I: seq<Slot>, O: seq<Slot>, d: nat, i: nat)
    requires AreInverse(perm, inv) && |perm| == 2 * h && Connected(perm, inv, h, I, O) && AllSet(O)
    requires i < |perm| && i / 2 == d < h
    ensures I[d].Set?
  {
    assert inv[perm[i]] == i;
    assert Uses(O, perm[i], true) || Uses(O, perm[i], false);
  }

  lemma OutputSet(perm: seq<nat>, inv: seq<nat>, h: nat, I: seq<Slot>, O: seq<Slot>, c: nat, j: nat)
    requires AreInverse(perm, inv) && |perm| == 2 * h && Connected(perm, inv, h, I, O) && AllSet(I)
    requires j < |perm| && j / 2 == c < h
    ensures O[c].Set?
  {
    assert perm[inv[j]] == j;
    assert Uses(I, inv[j], true) || Uses(I, inv[j], false);
  }

  lemma InputsSet(perm: seq<nat>, inv: seq<nat>, h: nat, I: seq<Slot>, O: seq<Slot>)
    requires AreInverse(perm, inv) && |perm| == 2 * h && Connected(perm, inv, h, I, O) && AllSet(O)
    ensures AllSet(I)
  {
    forall d | 0 <= d < |I|
      ensures I[d].Set?
    {
      InputSet(perm, inv, h, I, O, d, 2 * d);
    }
  }

  lemma OutputsSet(perm: seq<nat>, inv: seq<nat>, h: nat, I: seq<Slot>, O: seq<Slot>)
    requires AreInverse(perm, inv) && |perm| == 2 * h && Connected(perm, inv, h, I, O) && AllSet(I)
    ensures AllSet(O)
  {
    forall c | 0 <= c < |O|
      ensures O[c].Set?
    {
      OutputSet(perm, inv, h, I, O, c, 2 * c);
    }
  }

  lemma HalvesAll(perm: seq<nat>, h: nat, I: seq<Slot>, p0: seq<Slot>, p1: seq<Slot>)
    requires HalvesSet(perm, h, I, p0, p1)
    ensures AllSet(p0) ==> AllSet(I)
    ensures AllSet(I) ==> AllSet(p0) && AllSet(p1) && AreBits(Values(I)) && |Values(I)| == h
    ensures AllSet(I) ==> Values(p0) == Half(perm, h, Values(I), 0) && Values(p1) == Half(perm, h, Values(I), 1)
  {
    if AllSet(p0) {
      forall d | 0 <= d < h
        ensures I[d].Set?
      {
        assert p0[d].Set?;
      }
    }
  }

  /** When the loops stop, all switches are set, and the halves have their permutations. */
  lemma AllConnected(perm: seq<nat>, inv: seq<nat>, h: nat, I: seq<Slot>, O: seq<Slot>, p0: seq<Slot>, p1: seq<Slot>)
    requires AreInverse(perm, inv) && |perm| == 2 * h && Connected(perm, inv, h, I, O) && HalvesSet(perm, h, I, p0, p1)
    requires AllSet(O) || AllSet(p0)
    ensures AllSet(I) && AllSet(O) && AllSet(p0) && AllSet(p1) && AreBits(Values(I)) && |Values(I)| == h
    ensures Values(p0) == Half(perm, h, Values(I), 0) && Values(p1) == Half(perm, h, Values(I), 1)
  {
    if AllSet(O) {
      InputsSet(perm, inv, h, I, O);
    }
    HalvesAll(perm, h, I, p0, p1);
    OutputsSet(perm, inv, h, I, O);
  }

  /** The wire entering half b is taken from half b. */
  lemma EnteringUses(perm: seq<nat>, inv: seq<nat>, h: nat, I: seq<Slot>, O: seq<Slot>, d: nat, b: nat)
    requires AreInverse(perm, inv) && |perm| == 2 * h && Connected(perm, inv, h, I, O) && AllSet(I) && AllSet(O)
    requires d < h && b < 2
    ensures AreBits(Values(I)) && |Values(I)| == h
    ensures Uses(O, perm[Entering(Values(I), d, b)], b == 0)
  {
    var i := Entering(Values(I), d, b);
    assert Uses(I, i, b == 0);
  }

  lemma CyclesSwitch(perm: seq<nat>, inv: seq<nat>, h: nat, I: seq<Slot>, O: seq<Slot>)
    requires AreInverse(perm, inv) && |perm| == 2 * h && Connected(perm, inv, h, I, O) && AllSet(I) && AllSet(O)
    ensures AreBits(Values(I)) && AreBits(Values(O)) && Switches(perm, h, Values(I), Values(O))
  {
    var ins, outs := Values(I), Values(O);
    forall d, b: nat | 0 <= d < h && b < 2
      ensures LeavesBy(perm, h, outs, Entering(ins, d, b), b)
    {
      EnteringUses(perm, inv, h, I, O, d, b);
    }
  }

  /** Both halves have to realise permutations again. */
  lemma HalfIsPermutation(perm: seq<nat>, inv: seq<nat>, h: nat, I: seq<Slot>, O: seq<Slot>, b: nat)
    requires AreInverse(perm, inv) && |perm| == 2 * h && Connected(perm, inv, h, I, O) && AllSet(I) && AllSet(O)
      && b < 2
    ensures AreBits(Values(I)) && |Values(I)| == h
    ensures IsPermutation(Half(perm, h, Values(I), b))
  {
    var ins := Values(I);
    CyclesSwitch(perm, inv, h, I, O);
    var half := Half(perm, h, ins, b);
    forall c | 0 <= c < h
      ensures c in half
    {
      var j := HalfReaches(perm, inv, h, I, O, b, c);
      assert half[j] == c;
    }
    forall d, e | 0 <= d < e < h
      ensures half[d] != half[e]
    {
      EnteringUses(perm, inv, h, I, O, d, b);
      EnteringUses(perm, inv, h, I, O, e, b);
      var x, y := Entering(ins, d, b), Entering(ins, e, b);
      assert inv[perm[x]] == x && inv[perm[y]] == y;
    }
  }

  lemma HalfReaches(perm: seq<nat>, inv: seq<nat>, h: nat, I: seq<Slot>, O: seq<Slot>, b: nat, c: nat) returns (d: nat)
    requires AreInverse(perm, inv) && |perm| == 2 * h && Connected(perm, inv, h, I, O) && AllSet(I) && AllSet(O)
    requires b < 2 && c < h
    ensures AreBits(Values(I)) && |Values(I)| == h && d < h && Half(perm, h, Values(I), b)[d] == c
  {
    var j := 2 * c + Crossed(b, O[c].value);
    assert Uses(O, j, b == 0);
    d := inv[j] / 2;
    assert Uses(I, inv[j], b == 0);
    assert inv[j] == Entering(Values(I), d, b);
  }

  /** A configuration of k levels in the format of waksman. */
  predicate Shaped(config: seq<seq<int>>, k: nat) {
    |config| == k && forall d :: 0 <= d < k ==> |config[d]| == Wires(k) && AreBits(config[d])
  }

  lemma LayerIs(config: seq<seq<int>>, depth: nat, at: nat, h: nat, bits: seq<int>)
    requires depth < |config| && at + h <= |config[depth]| && config[depth][at..at + h] == bits
    ensures Layer(config, depth, at, h) == bits
  {
    forall d | 0 <= d < h
      ensures Layer(config, depth, at, h)[d] == bits[d]
    {
      assert bits[d] == config[depth][at..at + h][d];
      assert Bit(config, depth, at + d) == config[depth][at + d];
    }
  }

  /** The outer layers followed by the configurations of the halves side by side. */
  predicate IsAssembled(config: seq<seq<int>>, k: nat, ins: seq<int>, outs: seq<int>, c0: seq<seq<int>>,
                        c1: seq<seq<int>>) {
    && k > 1 && Shaped(c0, k - 1) && Shaped(c1, k - 1) && |config| == k
    && config[0] == ins + outs && forall d :: 0 <= d < k - 1 ==> config[d + 1] == c0[d] + c1[d]
  }

  lemma AssembledShape(k: nat, h: nat, ins: seq<int>, outs: seq<int>, c0: seq<seq<int>>, c1: seq<seq<int>>,
                       config: seq<seq<int>>)
    requires IsAssembled(config, k, ins, outs, c0, c1) && h == Wires(k - 1)
    requires |ins| == |outs| == h && AreBits(ins) && AreBits(outs)
    ensures Shaped(config, k)
    ensures Layer(config, 0, 0, h) == ins && Layer(config, 0, h, h) == outs
  {
    LayerIs(config, 0, 0, h, ins);
    LayerIs(config, 0, h, h, outs);
    forall d | 0 <= d < k
      ensures |config[d]| == 2 * h && AreBits(config[d])
    {
      if d > 0 {
        assert config[d - 1 + 1] == c0[d - 1] + c1[d - 1];
      }
    }
  }

  lemma Assembled(perm: seq<nat>, k: nat, h: nat, ins: seq<int>, outs: seq<int>, c0: seq<seq<int>>, c1: seq<seq<int>>,
                  config: seq<seq<int>>)
    requires IsAssembled(config, k, ins, outs, c0, c1) && h == Wires(k - 1)
    requires |perm| == 2 * h && Switches(perm, h, ins, outs) && AreBits(outs)
    requires Configured(Half(perm, h, ins, 0), k - 1, c0, 0, 0) && Configured(Half(perm, h, ins, 1), k - 1, c1, 0, 0)
    ensures Shaped(config, k) && Configured(perm, k, config, 0, 0)
  {
    AssembledShape(k, h, ins, outs, c0, c1, config);
    forall b: nat | b < 2
      ensures Configured(Half(perm, h, ins, b), k - 1, config, 1, Sub(0, h, b))
    {
      var c := if b == 0 then c0 else c1;
      AssembledHalf(k, h, c0, c1, config, b);
      SameBits(Half(perm, h, ins, b), k - 1, c, 0, 0, config, 1, Sub(0, h, b));
    }
  }

  lemma AssembledHalf(k: nat, h: nat, c0: seq<seq<int>>, c1: seq<seq<int>>, config: seq<seq<int>>, b: nat)
    requires k > 1 && h == Wires(k - 1) && Shaped(c0, k - 1) && Shaped(c1, k - 1) && b < 2
    requires |config| == k && forall d :: 0 <= d < k - 1 ==> config[d + 1] == c0[d] + c1[d]
    ensures SameBlock(k - 1, if b == 0 then c0 else c1, 0, 0, config, 1, Sub(0, h, b))
  {
    var c, st := if b == 0 then c0 else c1, Sub(0, h, b);
    forall d: nat, x: nat | d < k - 1 && x < h
      ensures BitAgrees(c, 0, 0, config, 1, st, d, x)
    {
      assert config[d + 1] == c0[d] + c1[d];
    }
  }

  /** What the walk along all cycles gives for the two halves. */
  lemma HalvesReady(perm: seq<nat>, inv: seq<nat>, h: nat, I: seq<Slot>, O: seq<Slot>, p0: seq<Slot>, p1: seq<Slot>)
    requires AreInverse(perm, inv) && |perm| == 2 * h && Connected(perm, inv, h, I, O) && HalvesSet(perm, h, I, p0, p1)
    requires AllSet(O) || (AllSet(p0) && AllSet(p1))
    ensures AllSet(I) && AllSet(O) && AllSet(p0) && AllSet(p1)
    ensures |Values(I)| == |Values(O)| == |Values(p0)| == |Values(p1)| == h
    ensures AreBits(Values(I)) && AreBits(Values(O)) && Switches(perm, h, Values(I), Values(O))
    ensures Values(p0) == Half(perm, h, Values(I), 0) && Values(p1) == Half(perm, h, Values(I), 1)
    ensures IsPermutation(Values(p0)) && IsPermutation(Values(p1))
  {
    AllConnected(perm, inv, h, I, O, p0, p1);
    CyclesSwitch(perm, inv, h, I, O);
    HalfIsPermutation(perm, inv, h, I, O, 0);
    HalfIsPermutation(perm, inv, h, I, O, 1);
  }

  method ConfigureWaksman(perm: seq<nat>, k: nat) returns (config: seq<seq<int>>)
    requires k >= 1 && |perm| == Wires(k) && IsPermutation(perm)
    ensures Shaped(config, k) && Configured(perm, k, config, 0, 0)
    decreases k
  {
    if |perm| == 2 {
      config := [[perm[0], perm[0]]];
      assert perm[0] != perm[1];
      return;
    }
    var h := |perm| / 2;
    var inv := Inverse(perm);
    var I, O, p0, p1 := FollowCycles(perm, inv, h);
    HalvesReady(perm, inv, h, I, O, p0, p1);
    var c0 := ConfigureWaksman(Values(p0), k - 1);
    var c1 := ConfigureWaksman(Values(p1), k - 1);
    config := [Values(I) + Values(O)] + seq(k - 1, d requires 0 <= d < k - 1 => c0[d] + c1[d]);
    Assembled(perm, k, h, Values(I), Values(O), c0, c1, config);
  }

  // ---------- waksman ----------

  /** Items that can be swapped with each other. */
  predicate Uniform(a: seq<Item>) {
    forall i, j :: 0 <= i < |a| && 0 <= j < |a| ==> SameShape(a[i], a[j])
  }

  /** The bits that a block uses are 0 or 1. */
  predicate BitsOnly(config: seq<seq<int>>, depth: nat) {
    forall d :: depth <= d < |config| ==> AreBits(config[d])
  }

  /** Item i came from the position to which the opposite network takes its place. */
  predicate From<T(==)>(after: seq<T>, before: seq<T>, config: seq<seq<int>>, k: nat, depth: nat, start: nat,
                        reverse: nat, i: nat)
    requires k >= 1 && reverse < 2 && |after| == |before| == Wires(k) && i < |after|
  {
    after[i] == before[Out(config, k, depth, start, 1 - reverse, i)]
  }

  predicate CameFrom<T(==)>(after: seq<T>, before: seq<T>, config: seq<seq<int>>, k: nat, depth: nat, start: nat,
                            reverse: nat) {
    && k >= 1 && reverse < 2 && |after| == |before| == Wires(k)
    && forall i :: 0 <= i < |after| ==> From(after, before, config, k, depth, start, reverse, i)
  }

  predicate EnteredAt<T(==)>(a: seq<T>, a0: seq<T>, a1: seq<T>, config: seq<seq<int>>, depth: nat, into: nat, d: nat)
    requires d < |a0| == |a1| && |a| == 2 * |a0|
  {
    var bit := Bit(config, depth, into + d);
    a0[d] == a[2 * d + Crossed(0, bit)] && a1[d] == a[2 * d + Crossed(1, bit)]
  }

  /** The first layer up to switch i, with its bits at into. */
  predicate Entered<T(==)>(a: seq<T>, a0: seq<T>, a1: seq<T>, config: seq<seq<int>>, depth: nat, into: nat, i: nat) {
    && i <= |a0| == |a1| && |a| == 2 * |a0|
    && forall d :: 0 <= d < i ==> EnteredAt(a, a0, a1, config, depth, into, d)
  }

  predicate LeftAt<T(==)>(a: seq<T>, b0: seq<T>, b1: seq<T>, config: seq<seq<int>>, depth: nat, out: nat, d: nat)
    requires d < |b0| == |b1| && |a| == 2 * |b0|
  {
    var bit := Bit(config, depth, out + d);
    a[2 * d] == (if Crossed(0, bit) == 0 then b0 else b1)[d]
      && a[2 * d + 1] == (if Crossed(1, bit) == 0 then b0 else b1)[d]
  }

  /** The last layer up to switch i, with its bits at out. */
  predicate Left<T(==)>(a: seq<T>, b0: seq<T>, b1: seq<T>, config: seq<seq<int>>, depth: nat, out: nat, i: nat) {
    && i <= |b0| == |b1| && |a| == 2 * |b0|
    && forall d :: 0 <= d < i ==> LeftAt(a, b0, b1, config, depth, out, d)
  }

  lemma EnteredUniform(a: seq<Item>, a0: seq<Item>, a1: seq<Item>, config: seq<seq<int>>, depth: nat, into: nat)
    requires Entered(a, a0, a1, config, depth, into, |a0|) && Uniform(a)
    ensures Uniform(a0 + a1)
  {
    var u := a0 + a1;
    forall i | 0 <= i < |u|
      ensures u[i] in a
    {
      var d := if i < |a0| then i else i - |a0|;
      assert EnteredAt(a, a0, a1, config, depth, into, d);
    }
  }

  lemma UniformParts(a: seq<Item>, b: seq<Item>)
    requires Uniform(a + b)
    ensures Uniform(a) && Uniform(b)
    ensures |a| == |b| ==> forall i :: 0 <= i < |a| ==> SameShape(a[i], b[i])
  {
    var u := a + b;
    forall i, j | 0 <= i < |a| && 0 <= j < |a|
      ensures SameShape(a[i], a[j])
    {
      assert SameShape(u[i], u[j]);
    }
    forall i, j | 0 <= i < |b| && 0 <= j < |b|
      ensures SameShape(b[i], b[j])
    {
      assert SameShape(u[|a| + i], u[|a| + j]);
    }
    forall i | 0 <= i < |a| && |a| == |b|
      ensures SameShape(a[i], b[i])
    {
      assert SameShape(u[i], u[|a| + i]);
    }
  }

  /** Items that came from uniform ones are uniform. */
  lemma MovedUniform(before: seq<Item>, after: seq<Item>)
    requires Uniform(before) && forall i :: 0 <= i < |after| ==> after[i] in before
    ensures Uniform(after)
  {
  }

  lemma CameFromIn(after: seq<Item>, before: seq<Item>, config: seq<seq<int>>, k: nat, depth: nat, start: nat,
                   reverse: nat)
    requires CameFrom(after, before, config, k, depth, start, reverse)
    ensures forall i :: 0 <= i < |after| ==> after[i] in before
  {
    forall i | 0 <= i < |after|
      ensures after[i] in before
    {
      assert From(after, before, config, k, depth, start, reverse, i);
    }
  }

  lemma LeftStep<T>(a: seq<T>, a1: seq<T>, b0: seq<T>, b1: seq<T>, config: seq<seq<int>>, depth: nat, out: nat, i: nat,
                    r: (T, T))
    requires Left(a, b0, b1, config, depth, out, i) && i < |b0|
    requires r == Swapped(b0[i], b1[i], Bit(config, depth, out + i))
    requires a1 == a[2 * i := r.0][2 * i + 1 := r.1]
    ensures Left(a1, b0, b1, config, depth, out, i + 1)
  {
    forall d | 0 <= d < i + 1
      ensures LeftAt(a1, b0, b1, config, depth, out, d)
    {
      if d < i {
        assert LeftAt(a, b0, b1, config, depth, out, d);
      }
    }
  }

  /** The layers and the halves together, for one wire. */
  lemma WireComposes<T>(before: seq<T>, after: seq<T>, a0: seq<T>, a1: seq<T>, b0: seq<T>, b1: seq<T>,
                        config: seq<seq<int>>, h: nat, depth: nat, into: nat, out: nat, d: nat, e: nat, b: nat, o: nat)
    requires d < h && o < h && e < 2
    requires |a0| == |a1| == |b0| == |b1| == h && |after| == |before| == 2 * h
    requires LeftAt(after, b0, b1, config, depth, out, d)
    requires b == Crossed(e, Bit(config, depth, out + d))
    requires (if b == 0 then b0 else b1)[d] == (if b == 0 then a0 else a1)[o]
    requires EnteredAt(before, a0, a1, config, depth, into, o)
    ensures after[2 * d + e] == before[2 * o + Crossed(b, Bit(config, depth, into + o))]
  {
  }

  /** Where an item of the half b came from. */
  lemma HalfAt<T>(a0: seq<T>, a1: seq<T>, b0: seq<T>, b1: seq<T>, config: seq<seq<int>>, k: nat, h: nat, depth: nat,
                  start: nat, reverse: nat, d: nat, b: nat, o: nat)
    requires k > 1 && h == Wires(k - 1) && reverse < 2 && d < h && b < 2
    requires CameFrom(b0, a0, config, k - 1, depth + 1, start, reverse)
    requires CameFrom(b1, a1, config, k - 1, depth + 1, start + h, reverse)
    requires o == Out(config, k - 1, depth + 1, Sub(start, h, b), 1 - reverse, d)
    ensures o < h && (if b == 0 then b0 else b1)[d] == (if b == 0 then a0 else a1)[o]
  {
    if b == 0 {
      assert From(b0, a0, config, k - 1, depth + 1, start, reverse, d);
    } else {
      assert From(b1, a1, config, k - 1, depth + 1, start + h, reverse, d);
    }
  }

  lemma LayersAt<T>(before: seq<T>, after: seq<T>, a0: seq<T>, a1: seq<T>, b0: seq<T>, b1: seq<T>,
                    config: seq<seq<int>>, k: nat, h: nat, depth: nat, start: nat, reverse: nat, x: nat, d: nat, e: nat,
                    b: nat, o: nat)
    requires k > 1 && h == Wires(k - 1) && reverse < 2 && x == 2 * d + e && d < h && e < 2 && b < 2 && o < h
    requires |a0| == |a1| == |b0| == |b1| == h && |before| == |after| == Wires(k)
    requires b == Crossed(e, Bit(config, depth, Sub(start, h, 1 - reverse) + d))
    requires Out(config, k, depth, start, 1 - reverse, x)
      == 2 * o + Crossed(b, Bit(config, depth, Sub(start, h, reverse) + o))
    requires LeftAt(after, b0, b1, config, depth, Sub(start, h, 1 - reverse), d)
    requires EnteredAt(before, a0, a1, config, depth, Sub(start, h, reverse), o)
    requires (if b == 0 then b0 else b1)[d] == (if b == 0 then a0 else a1)[o]
    ensures From(after, before, config, k, depth, start, reverse, x)
  {
    WireComposes(before, after, a0, a1, b0, b1, config, h, depth, Sub(start, h, reverse), Sub(start, h, 1 - reverse), d,
                 e, b, o);
  }

  lemma LayersCompose<T>(before: seq<T>, after: seq<T>, a0: seq<T>, a1: seq<T>, b0: seq<T>, b1: seq<T>,
                         config: seq<seq<int>>, k: nat, h: nat, depth: nat, start: nat, reverse: nat)
    requires k > 1 && h == Wires(k - 1) && reverse < 2
    requires Entered(before, a0, a1, config, depth, Sub(start, h, reverse), h) && |a0| == h
    requires CameFrom(b0, a0, config, k - 1, depth + 1, start, reverse)
    requires CameFrom(b1, a1, config, k - 1, depth + 1, start + h, reverse)
    requires Left(after, b0, b1, config, depth, Sub(start, h, 1 - reverse), h)
    ensures CameFrom(after, before, config, k, depth, start, reverse)
  {
    forall x | 0 <= x < |after|
      ensures From(after, before, config, k, depth, start, reverse, x)
    {
      var d, e := x / 2, x % 2;
      var b := Crossed(e, Bit(config, depth, Sub(start, h, 1 - reverse) + d));
      var o := Out(config, k - 1, depth + 1, Sub(start, h, b), 1 - reverse, d);
      HalfAt(a0, a1, b0, b1, config, k, h, depth, start, reverse, d, b, o);
      assert LeftAt(after, b0, b1, config, depth, Sub(start, h, 1 - reverse), d);
      assert EnteredAt(before, a0, a1, config, depth, Sub(start, h, reverse), o);
      BackStep(config, k, h, depth, start, reverse, x, d, e, b, o);
      LayersAt(before, after, a0, a1, b0, b1, config, k, h, depth, start, reverse, x, d, e, b, o);
    }
  }

  lemma EnteredStep<T>(a: seq<T>, a0: seq<T>, a1: seq<T>, e0: seq<T>, e1: seq<T>, config: seq<seq<int>>, depth: nat,
                       into: nat, i: nat, r: (T, T))
    requires Entered(a, a0, a1, config, depth, into, i) && i < |a0|
    requires r == Swapped(a[2 * i], a[2 * i + 1], Bit(config, depth, into + i))
    requires e0 == a0[i := r.0] && e1 == a1[i := r.1]
    ensures Entered(a, e0, e1, config, depth, into, i + 1)
  {
    forall d | 0 <= d < i + 1
      ensures EnteredAt(a, e0, e1, config, depth, into, d)
    {
      if d < i {
        assert EnteredAt(a, a0, a1, config, depth, into, d);
      }
    }
  }

  method EnterHalves(a: array<Item>, a0: array<Item>, a1: array<Item>, config: seq<seq<int>>, depth: nat, into: nat,
                     h: nat)
    requires a.Length == 2 * h && a0.Length == a1.Length == h && a0 != a1 && a0 != a && a1 != a
    requires Uniform(a[..]) && depth < |config| && AreBits(config[depth]) && into + h <= |config[depth]|
    modifies a0, a1
    ensures Entered(a[..], a0[..], a1[..], config, depth, into, h)
  {
    var i := 0;
    while i < h
      invariant 0 <= i <= h && a[..] == old(a[..])
      invariant Entered(a[..], a0[..], a1[..], config, depth, into, i)
    {
      SwapBit(a[2 * i], a[2 * i + 1], config[depth][into + i]);
      var r := CondSwapBit(a[2 * i], a[2 * i + 1], config[depth][into + i]);
      ghost var e0, e1 := a0[..], a1[..];
      a0[i], a1[i] := r.0, r.1;
      EnteredStep(a[..], e0, e1, a0[..], a1[..], config, depth, into, i, r);
      i := i + 1;
    }
  }

  method LeaveHalves(a: array<Item>, a0: array<Item>, a1: array<Item>, config: seq<seq<int>>, depth: nat, out: nat,
                     h: nat)
    requires a.Length == 2 * h && a0.Length == a1.Length == h && a0 != a && a1 != a
    requires forall i :: 0 <= i < h ==> SameShape(a0[i], a1[i])
    requires depth < |config| && AreBits(config[depth]) && out + h <= |config[depth]|
    modifies a
    ensures Left(a[..], a0[..], a1[..], config, depth, out, h)
  {
    var i := 0;
    while i < h
      invariant 0 <= i <= h && a0[..] == old(a0[..]) && a1[..] == old(a1[..])
      invariant Left(a[..], a0[..], a1[..], config, depth, out, i)
    {
      SwapBit(a0[i], a1[i], config[depth][out + i]);
      var r := CondSwapBit(a0[i], a1[i], config[depth][out + i]);
      ghost var before := a[..];
      a[2 * i], a[2 * i + 1] := r.0, r.1;
      LeftStep(before, a[..], a0[..], a1[..], config, depth, out, i, r);
      i := i + 1;
    }
  }

  /** A network of two wires. */
  method RunPair(a: array<Item>, config: seq<seq<int>>, depth: nat, start: nat, ghost reverse: nat)
    requires a.Length == 2 && Fits(config, 1, depth, start) && BitsOnly(config, depth) && Uniform(a[..]) && reverse < 2
    modifies a
    ensures CameFrom(a[..], old(a[..]), config, 1, depth, start, reverse)
  {
    SwapBit(a[0], a[1], config[depth][start]);
    var r := CondSwapBit(a[0], a[1], config[depth][start]);
    a[0], a[1] := r.0, r.1;
  }

  /** The two halves between the layers. */
  method RunHalves(a0: array<Item>, a1: array<Item>, config: seq<seq<int>>, k: nat, depth: nat, start0: nat,
                   start1: nat, reverse: bool)
    requires k >= 1 && a0 != a1 && a0.Length == a1.Length == Wires(k) && BitsOnly(config, depth)
      && Uniform(a0[..] + a1[..])
    requires Fits(config, k, depth, start0) && Fits(config, k, depth, start1)
    modifies a0, a1
    ensures CameFrom(a0[..], old(a0[..]), config, k, depth, start0, if reverse then 1 else 0)
    ensures CameFrom(a1[..], old(a1[..]), config, k, depth, start1, if reverse then 1 else 0)
    ensures forall i :: 0 <= i < a0.Length ==> SameShape(a0[i], a1[i])
    decreases k, 1
  {
    ghost var e0, e1 := a0[..], a1[..];
    UniformParts(e0, e1);
    RunWaksman(a0, config, k, depth, start0, reverse);
    RunWaksman(a1, config, k, depth, start1, reverse);
    StillSwappable(a0[..], a1[..], e0, e1, config, k, depth, start0, start1, if reverse then 1 else 0);
  }

  lemma FitsInside(config: seq<seq<int>>, k: nat, h: nat, depth: nat, start: nat)
    requires k > 1 && h == Wires(k - 1) && Fits(config, k, depth, start) && BitsOnly(config, depth)
    ensures Wires(k) == 2 * h && depth < |config| && AreBits(config[depth]) && start + 2 * h <= |config[depth]|
    ensures Fits(config, k - 1, depth + 1, start) && Fits(config, k - 1, depth + 1, start + h)
    ensures BitsOnly(config, depth + 1)
  {
  }

  /** waksman: permutes a in place by the block of config at (depth, start). */
  method RunWaksman(a: array<Item>, config: seq<seq<int>>, k: nat, depth: nat, start: nat, reverse: bool)
    requires k >= 1 && a.Length == Wires(k) && Fits(config, k, depth, start) && BitsOnly(config, depth)
      && Uniform(a[..])
    modifies a
    ensures CameFrom(a[..], old(a[..]), config, k, depth, start, if reverse then 1 else 0)
    decreases k, 0
  {
    var n := a.Length;
    if n == 2 {
      RunPair(a, config, depth, start, if reverse then 1 else 0);
      return;
    }
    RunLayers(a, config, k, n / 2, depth, start, reverse);
  }

  /** The layers around the two halves, and the halves. */
  method RunLayers(a: array<Item>, config: seq<seq<int>>, k: nat, h: nat, depth: nat, start: nat, reverse: bool)
    requires k > 1 && a.Length == Wires(k) && h == Wires(k - 1) && Fits(config, k, depth, start)
    requires BitsOnly(config, depth) && Uniform(a[..])
    modifies a
    ensures CameFrom(a[..], old(a[..]), config, k, depth, start, if reverse then 1 else 0)
    decreases k - 1, 2
  {
    FitsInside(config, k, h, depth, start);
    var a0, a1 := new Item[h](_ => Pad), new Item[h](_ => Pad);
    EnterHalves(a, a0, a1, config, depth, if reverse then start + h else start, h);
    ghost var before, e0, e1 := a[..], a0[..], a1[..];
    EnteredUniform(before, e0, e1, config, depth, if reverse then start + h else start);
    RunHalves(a0, a1, config, k - 1, depth + 1, start, start + h, reverse);
    ghost var b0, b1, r := a0[..], a1[..], if reverse then 1 else 0;
    LeaveHalves(a, a0, a1, config, depth, if reverse then start else start + h, h);
    LayersCompose(before, a[..], e0, e1, b0, b1, config, k, h, depth, start, r);
  }

  lemma StillSwappable(b0: seq<Item>, b1: seq<Item>, e0: seq<Item>, e1: seq<Item>, config: seq<seq<int>>, k: nat,
                       depth: nat, start0: nat, start1: nat, reverse: nat)
    requires CameFrom(b0, e0, config, k, depth, start0, reverse) && CameFrom(b1, e1, config, k, depth, start1, reverse)
    requires Uniform(e0 + e1)
    ensures forall i :: 0 <= i < |b0| ==> SameShape(b0[i], b1[i])
  {
    CameFromIn(b0, e0, config, k, depth, start0, reverse);
    CameFromIn(b1, e1, config, k, depth, start1, reverse);
    var e, b := e0 + e1, b0 + b1;
    forall i | 0 <= i < |b|
      ensures b[i] in e
    {
      assert b[i] == if i < |b0| then b0[i] else b1[i - |b0|];
    }
    MovedUniform(e, b);
    UniformParts(b0, b1);
  }

  // ---------- the two together ----------

  lemma ShapedFits(config: seq<seq<int>>, k: nat)
    requires Shaped(config, k)
    ensures Fits(config, k, 0, 0) && BitsOnly(config, 0)
  {
  }

  /** With the configuration of perm, waksman moves item i to position perm[i]. */
  lemma WaksmanRoutes<T>(before: seq<T>, after: seq<T>, perm: seq<nat>, k: nat, config: seq<seq<int>>)
    requires k >= 1 && |perm| == Wires(k) && Configured(perm, k, config, 0, 0)
    requires CameFrom(after, before, config, k, 0, 0, 0)
    ensures forall i :: 0 <= i < |perm| ==> perm[i] < |after| && after[perm[i]] == before[i]
  {
    forall i | 0 <= i < |perm|
      ensures perm[i] < |after| && after[perm[i]] == before[i]
    {
      NetworkRoutes(perm, k, config, 0, 0, i);
      ReverseUndoes(config, k, 0, 0, 0, i);
      assert From(after, before, config, k, 0, 0, 0, perm[i]);
    }
  }

  /** Whatever the bits, the reversed network restores what the network moved. */
  lemma WaksmanRestores<T>(before: seq<T>, moved: seq<T>, after: seq<T>, config: seq<seq<int>>, k: nat, depth: nat,
                           start: nat, reverse: nat)
    requires CameFrom(moved, before, config, k, depth, start, reverse)
    requires CameFrom(after, moved, config, k, depth, start, 1 - reverse)
    ensures after == before
  {
    forall i | 0 <= i < |after|
      ensures after[i] == before[i]
    {
      var o := Out(config, k, depth, start, reverse, i);
      ReverseUndoes(config, k, depth, start, reverse, i);
      assert From(after, moved, config, k, depth, start, 1 - reverse, i);
      assert From(moved, before, config, k, depth, start, reverse, o);
    }
  }

  /** Configures the network for perm and runs it: item i moves to position perm[i]. */
  method Permute(a: array<Item>, perm: seq<nat>, k: nat) returns (config: seq<seq<int>>)
    requires k >= 1 && a.Length == |perm| == Wires(k) && IsPermutation(perm) && Uniform(a[..])
    modifies a
    ensures forall i :: 0 <= i < |perm| ==> perm[i] < a.Length && a[perm[i]] == old(a[i])
    ensures Shaped(config, k) && CameFrom(a[..], old(a[..]), config, k, 0, 0, 0)
  {
    config := ConfigureWaksman(perm, k);
    ShapedFits(config, k);
    RunWaksman(a, config, k, 0, 0, false);
    WaksmanRoutes(old(a[..]), a[..], perm, k, config);
  }

  /** Runs the network backwards, which undoes an earlier run with the same configuration. */
  method Restore(a: array<Item>, config: seq<seq<int>>, k: nat, ghost before: seq<Item>)
    requires k >= 1 && a.Length == Wires(k) && Shaped(config, k) && Uniform(a[..])
    requires CameFrom(a[..], before, config, k, 0, 0, 0)
    modifies a
    ensures a[..] == before
  {
    ShapedFits(config, k);
    RunWaksman(a, config, k, 0, 0, true);
    WaksmanRestores(before, old(a[..]), a[..], config, k, 0, 0, 0);
  }
}
