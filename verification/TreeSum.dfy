/**
 TreeSum of Auth/MAC_Check.h: which values every party adds, and where it sends the sum.
 Parties are counted from the base player, as in the program.
 */
module TreeSum {
  import opened Integers
  import opened Sequences
  import opened TreeNetwork

  // ---------- the tree of sums ----------

  /** How many parties are left to sum after a level with last parties. */
  function Fewer(last: nat, os: nat): (s: nat)
    requires last >= 1 && os >= 1
    ensures s < last && (s == 0 <==> last == 1)
  {
    FewerBounds(last, os);
    (last + os - 2) / os
  }

  lemma FewerBounds(last: nat, os: nat)
    requires last >= 1 && os >= 1
    ensures 0 <= (last + os - 2) / os < last && ((last + os - 2) / os == 0 <==> last == 1)
  {
    var a := last + os - 2;
    DivMod(a, os);
    if last == 1 {
      ModUnique(a, os, 0, a);
    } else {
      ProductAtLeast2(last, 2, os - 1);
      Distribute(os, 1, last);
      assert last * os == last * (os - 1) + last;
      QuotientBelow(a, last, os);
      QuotientPositive(a, os);
    }
  }

  lemma ProductAtLeast2(a: nat, b: nat, d: nat)
    requires a >= b
    ensures a * d >= b * d
  {
    Distribute(a, b, d);
    if a > b {
      ProductAtLeast(a - b, d);
    }
  }

  lemma QuotientPositive(a: nat, d: nat)
    requires 0 < d <= a
    ensures a / d > 0
  {
    DivMod(a, d);
    var k := a / d;
    assert k == 0 ==> k * d == 0;
  }

  lemma QuotientBelow(a: nat, b: nat, d: nat)
    requires d > 0 && a < b * d
    ensures a / d < b
  {
    DivMod(a, d);
    if a / d >= b {
      ProductAtLeast2(a / d, b, d);
    }
  }

  /** x, x + s, x + 2 s, ... below l. */
  function Column(x: nat, s: nat, l: nat): seq<nat>
    requires s > 0
    decreases if x < l then l - x else 0
  {
    if x >= l then [] else [x] + Column(x + s, s, l)
  }

  /** Whose values party r adds, from the level with last parties on. */
  function Kids(r: nat, last: nat, os: nat): seq<nat>
    requires last >= 1 && os >= 1
    decreases last
  {
    var s := Fewer(last, os);
    if r >= s then [] else Column(r + s, s, last) + Kids(r, s, os)
  }

  /** To whom party r sends its sum. */
  function Parent(r: nat, last: nat, os: nat): (p: nat)
    requires 1 <= r < last && os >= 1
    ensures p < r
    decreases last
  {
    var s := Fewer(last, os);
    if r >= s then r % s else Parent(r, s, os)
  }

  lemma {:induction false} ColumnIs(x: nat, s: nat, l: nat, k: nat)
    requires s > 0 && k <= x && x % s == k % s
    ensures forall i :: 0 <= i < |Column(x, s, l)| ==> x <= Column(x, s, l)[i] < l && Column(x, s, l)[i] % s == k % s
    ensures Ascending(Column(x, s, l))
    decreases if x < l then l - x else 0
  {
    if x < l {
      ModStep(x, s);
      ColumnIs(x + s, s, l, k);
    }
  }

  lemma {:induction false} ColumnHas(x: nat, s: nat, l: nat, q: nat)
    requires s > 0 && x <= q < l && q % s == x % s
    ensures q in Column(x, s, l)
    decreases l - x
  {
    if q != x {
      if q < x + s {
        ModGap(x, q, s);
      }
      ModStep(x, s);
      ColumnHas(x + s, s, l, q);
    }
  }

  lemma {:induction false} KidsAre(r: nat, last: nat, os: nat)
    requires last >= 1 && os >= 1 && r < last
    ensures forall i :: 0 <= i < |Kids(r, last, os)| ==>
      var q := Kids(r, last, os)[i]; r < q < last && Parent(q, last, os) == r
    ensures NoDuplicates(Kids(r, last, os))
    decreases last
  {
    var s := Fewer(last, os);
    if r < s {
      ModUnique(r, s, 0, r);
      ModStep(r, s);
      ColumnIs(r + s, s, last, r);
      KidsAre(r, s, os);
    }
  }

  lemma {:induction false} KidOfParent(q: nat, last: nat, os: nat)
    requires 1 <= q < last && os >= 1
    ensures q in Kids(Parent(q, last, os), last, os)
    decreases last
  {
    var s := Fewer(last, os);
    if q >= s {
      var r := q % s;
      DivMod(q, s);
      ModUnique(r, s, 0, r);
      ModStep(r, s);
      if q < r + s {
        ModGap(r, q, s);
      }
      ColumnHas(r + s, s, last, q);
    } else {
      KidOfParent(q, s, os);
    }
  }

  // ---------- how much is summed at once ----------

  /** The parties that are left are as few as can take os values each from all but the base player. */
  lemma FewerIs(last: nat, os: nat)
    requires last >= 1 && os >= 1
    ensures var s := Fewer(last, os); (s - 1) * os < last - 1 <= s * os
  {
    var a, s := last + os - 2, Fewer(last, os);
    DivMod(a, os);
    assert a == s * os + a % os;
    Distribute(s, 1, os);
  }

  lemma {:induction false} ColumnShort(x: nat, s: nat, l: nat, k: nat)
    requires s > 0 && l <= x + k * s
    ensures |Column(x, s, l)| <= k
    decreases k
  {
    if x < l {
      assert k > 0 by {
        assert k == 0 ==> k * s == 0;
      }
      Distribute(k, 1, s);
      ColumnShort(x + s, s, l, k - 1);
    }
  }

  /** On every level a party adds at most os values. */
  lemma AddsAtMost(r: nat, last: nat, os: nat)
    requires last >= 1 && os >= 1 && r < Fewer(last, os)
    ensures |Column(r + Fewer(last, os), Fewer(last, os), last)| <= os
  {
    var s := Fewer(last, os);
    FewerIs(last, os);
    assert s * os == os * s;
    ColumnShort(r + s, s, last, os);
  }

  /** If all values may be added at once, the base player adds them all on one level. */
  lemma AllAtOnce(n: nat, os: nat)
    requires n >= 2 && os >= n - 1
    ensures Fewer(n, os) == 1 && |Kids(0, n, os)| == n - 1
    ensures forall q :: 1 <= q < n ==> Parent(q, n, os) == 0
  {
    FewerIs(n, os);
    var s := Fewer(n, os);
    if s > 1 {
      Distribute(s, 1, os);
      ProductAtLeast(s - 1, os);
    }
    FewerIs(1, os);
    assert Kids(0, 1, os) == [];
    ColumnOfOne(1, n);
    assert Kids(0, n, os) == Column(1, 1, n) + Kids(0, 1, os);
    forall q | 1 <= q < n
      ensures Parent(q, n, os) == 0
    {
      ModUnique(q, 1, q, 0);
    }
  }

  lemma {:induction false} ColumnOfOne(x: nat, l: nat)
    requires x <= l
    ensures |Column(x, 1, l)| == l - x
    decreases l - x
  {
    if x < l {
      ColumnOfOne(x + 1, l);
    }
  }

  // ---------- the tree of broadcasts ----------

  function Range(lo: nat, hi: nat): seq<nat> {
    if lo < hi then seq(hi - lo, i requires 0 <= i < hi - lo => lo + i) else []
  }

  /** To whom party r hands the sum on. */
  function Downs(r: nat, n: nat, mb: nat): seq<nat> {
    Range(if r == 0 then 1 else r * mb, if r * mb + mb < n then r * mb + mb else n)
  }

  /** The trees for n parties that open os values at once and broadcast to mb parties. */
  function TheTrees(n: nat, os: nat, mb: nat): Trees
    requires n >= 1 && os >= 1 && mb >= 2
  {
    Trees(n, seq(n, r requires 0 <= r < n => Kids(r, n, os)),
          seq(n, r requires 0 <= r < n => if r == 0 then 0 else Parent(r, n, os)),
          seq(n, r requires 0 <= r < n => Downs(r, n, mb)),
          seq(n, r requires 0 <= r < n => r / mb))
  }

  lemma SumTree(n: nat, os: nat, mb: nat)
    requires n >= 1 && os >= 1 && mb >= 2
    ensures IsTree(n, TheTrees(n, os, mb).kids, TheTrees(n, os, mb).up)
  {
    var c := TheTrees(n, os, mb);
    forall r: nat, i: nat
      ensures KidAt(c.kids, c.up, r, i)
    {
      if r < n {
        KidsAre(r, n, os);
      }
    }
    forall r: nat, i: nat, j: nat
      ensures KidsDiffer(c.kids, r, i, j)
    {
      if r < n {
        KidsAre(r, n, os);
      }
    }
    forall q: nat
      ensures HasParent(c.kids, c.up, q)
    {
      if 0 < q < n {
        KidOfParent(q, n, os);
      }
    }
  }

  /** The children of r are the parties whose quotient is r, but not the base player. */
  lemma DownIs(r: nat, n: nat, mb: nat, q: nat)
    requires n >= 1 && mb >= 2 && q < n
    ensures q in Downs(r, n, mb) <==> q > 0 && q / mb == r
  {
    var lo, hi := if r == 0 then 1 else r * mb, if r * mb + mb < n then r * mb + mb else n;
    DivMod(q, mb);
    if q in Downs(r, n, mb) {
      ModUnique(q, mb, r, q - r * mb);
      assert r > 0 ==> r * mb > 0 by {
        if r > 0 {
          ProductAtLeast(r, mb);
        }
      }
    }
    if q > 0 && q / mb == r {
      assert Range(lo, hi)[q - lo] == q;
    }
  }

  /** A party hands the sum to at most mb parties, and so does the base player with itself. */
  lemma SendsAtMost(r: nat, n: nat, mb: nat)
    requires mb >= 1
    ensures |Downs(r, n, mb)| <= if r == 0 then mb - 1 else mb
  {
  }

  lemma QuotientLess(q: nat, mb: nat)
    requires q > 0 && mb >= 2
    ensures q / mb < q
  {
    ProductAtLeast2(mb, 2, q);
    assert q * mb == mb * q;
    QuotientBelow(q, q, mb);
  }

  lemma CastTree(n: nat, os: nat, mb: nat)
    requires n >= 1 && os >= 1 && mb >= 2
    ensures IsTree(n, TheTrees(n, os, mb).downs, TheTrees(n, os, mb).dn)
  {
    var c := TheTrees(n, os, mb);
    forall r: nat, i: nat
      ensures KidAt(c.downs, c.dn, r, i)
    {
      if r < n && i < |c.downs[r]| {
        var q := c.downs[r][i];
        assert q in Downs(r, n, mb) && q < n;
        DownIs(r, n, mb, q);
        QuotientLess(q, mb);
      }
    }
    forall q: nat
      ensures HasParent(c.downs, c.dn, q)
    {
      if 0 < q < n {
        QuotientLess(q, mb);
        DownIs(q / mb, n, mb, q);
      }
    }
  }

  lemma TreesAre(n: nat, os: nat, mb: nat)
    requires n >= 1 && os >= 1 && mb >= 2
    ensures AreTrees(TheTrees(n, os, mb))
  {
    SumTree(n, os, mb);
    CastTree(n, os, mb);
  }

  // ---------- the program of a party ----------

  /** C++ rounds quotients towards zero. */
  function Remainder(i: int, n: nat): int
    requires n > 0
  {
    if i >= 0 then i % n else -((-i) % n)
  }

  function PositiveModulo(i: int, n: nat): (r: nat)
    requires n > 0
    ensures r == i % n
  {
    PositiveModuloIs(i, n);
    (Remainder(i, n) + n) % n
  }

  lemma PositiveModuloIs(i: int, n: nat)
    requires n > 0
    ensures 0 <= Remainder(i, n) + n && (Remainder(i, n) + n) % n == i % n
  {
    if i >= 0 {
      DivMod(i, n);
      ModUnique(i % n + n, n, 1, i % n);
    } else {
      var q, r := (-i) / n, (-i) % n;
      DivMod(-i, n);
      Distribute(-q, 1, n);
      assert (-q) * n == -(q * n);
      if r == 0 {
        ModUnique(i, n, -q, 0);
        ModUnique(n, n, 1, 0);
      } else {
        ModUnique(i, n, -q - 1, n - r);
        ModUnique(n - r, n, 0, n - r);
      }
    }
  }

  /** The number of the party that is the r-th from the base player. */
  function Named(base: nat, n: nat, r: nat): nat
    requires n > 0
  {
    PositiveModulo(base + r, n)
  }

  function NamedAct(base: nat, n: nat, a: Act): Act
    requires n > 0
  {
    match a
    case Add(p) => Add(Named(base, n, p))
    case Take(p) => Take(Named(base, n, p))
    case Send(p) => Send(Named(base, n, p))
    case Stop => Stop
  }

  /** Different parties have different names, and every party is somewhere from the base player. */
  lemma NamesDiffer(base: nat, n: nat, p: nat, q: nat)
    requires p < q < n
    ensures Named(base, n, p) != Named(base, n, q)
  {
    if (base + p) % n == (base + q) % n {
      ModGap(base + p, base + q, n);
    }
  }

  lemma NamedBack(base: nat, n: nat, my: nat)
    requires base < n && my < n
    ensures Named(base, n, PositiveModulo(my - base, n)) == my
  {
    if my >= base {
      ModUnique(my - base, n, 0, my - base);
      ModUnique(my, n, 0, my);
    } else {
      ModUnique(my - base, n, -1, my - base + n);
      ModUnique(my + n, n, 1, my);
    }
  }

  function AllNamed(base: nat, n: nat, acts: seq<Act>): seq<Act>
    requires n > 0
  {
    seq(|acts|, i requires 0 <= i < |acts| => NamedAct(base, n, acts[i]))
  }

  function Adding(from: seq<nat>): seq<Act> {
    seq(|from|, i requires 0 <= i < |from| => Add(from[i]))
  }

  function Sending(to: seq<nat>): seq<Act> {
    seq(|to|, i requires 0 <= i < |to| => Send(to[i]))
  }

  /** All acts of the r-th party. */
  function Acts(n: nat, os: nat, mb: nat, r: nat): seq<Act>
    requires r < n && os >= 1 && mb >= 1
  {
    Adding(Kids(r, n, os)) + (if r > 0 then [Send(Parent(r, n, os)), Take(r / mb)] else []) + Sending(Downs(r, n, mb))
  }

  lemma ActsAre(n: nat, os: nat, mb: nat, r: nat)
    requires r < n && os >= 1 && mb >= 2
    ensures var c := TheTrees(n, os, mb);
      && |Acts(n, os, mb, r)| == Length(c, r)
      && forall k :: 0 <= k < Length(c, r) ==> Acts(n, os, mb, r)[k] == ActAt(c, r, k)
  {
  }

  /** The additions of one level. */
  method AddOpenings(base: nat, n: nat, r: nat, s: nat, last: nat) returns (acts: seq<Act>)
    requires r < s < last <= n
    ensures acts == AllNamed(base, n, Adding(Column(r + s, s, last)))
  {
    acts := [];
    var x := r + s;
    ghost var seen: seq<nat> := [];
    while x < last
      invariant acts == AllNamed(base, n, Adding(seen)) && Column(r + s, s, last) == seen + Column(x, s, last)
    {
      acts := acts + [Add(PositiveModulo(base + x, n))];
      seen := seen + [x];
      x := x + s;
    }
  }

  lemma NamedConcat(base: nat, n: nat, a: seq<Act>, b: seq<Act>)
    requires n > 0
    ensures AllNamed(base, n, a + b) == AllNamed(base, n, a) + AllNamed(base, n, b)
  {
  }

  /** What the r-th party still does for the sum from the level with last parties on. */
  function Summing(r: nat, last: nat, os: nat): seq<Act>
    requires r < last && os >= 1
  {
    Adding(Kids(r, last, os)) + if r > 0 then [Send(Parent(r, last, os))] else []
  }

  /** What it does on the level with last parties, of which s are left. */
  function OnLevel(r: nat, s: nat, last: nat): seq<Act>
    requires s > 0
  {
    if r < s then Adding(Column(r + s, s, last)) else if r < last then [Send(r % s)] else []
  }

  lemma NextLevel(r: nat, last: nat, os: nat)
    requires r < last && os >= 1
    ensures var s := Fewer(last, os);
      Summing(r, last, os) ==
        if s == 0 then [] else OnLevel(r, s, last) + if r < s then Summing(r, s, os) else []
  {
    var s := Fewer(last, os);
    if r < s {
      assert Adding(Column(r + s, s, last) + Kids(r, s, os)) == Adding(Column(r + s, s, last)) + Adding(Kids(r, s, os));
    } else {
      assert Adding(Kids(r, last, os)) == [];
    }
  }

  /** One level of the sum. */
  method Level(n: nat, base: nat, r: nat, s: nat, last: nat) returns (acts: seq<Act>)
    requires r < n && 0 < s < last <= n
    ensures acts == AllNamed(base, n, OnLevel(r, s, last))
  {
    acts := [];
    if s <= r < last {
      acts := acts + [Send(PositiveModulo(base + r % s, n))];
    }
    if r < s {
      var adds := AddOpenings(base, n, r, s, last);
      acts := acts + adds;
    }
  }

  /** The part of the sum that is to come when last parties are left. */
  ghost function Remaining(r: nat, last: nat, os: nat): seq<Act>
    requires os >= 1
  {
    if r < last then Summing(r, last, os) else []
  }

  lemma LevelsFollow(base: nat, n: nat, r: nat, os: nat, last: nat, before: seq<Act>, acts: seq<Act>, more: seq<Act>)
    requires n > 0 && os >= 1 && last >= 1 && acts == AllNamed(base, n, before)
    requires Fewer(last, os) > 0 && more == AllNamed(base, n, OnLevel(r, Fewer(last, os), last))
    ensures acts + more == AllNamed(base, n, before + OnLevel(r, Fewer(last, os), last))
    ensures before + Remaining(r, last, os)
         == (before + OnLevel(r, Fewer(last, os), last)) + Remaining(r, Fewer(last, os), os)
  {
    var s := Fewer(last, os);
    var level, rest := OnLevel(r, s, last), Remaining(r, s, os);
    NamedConcat(base, n, before, level);
    assert Remaining(r, last, os) == level + rest by {
      if r < last {
        NextLevel(r, last, os);
      }
    }
    Regroup(before, level, rest);
  }

  lemma Regroup(a: seq<Act>, b: seq<Act>, c: seq<Act>)
    ensures a + (b + c) == (a + b) + c
  {
  }

  /** The levels of the sum. */
  method StartSums(n: nat, base: nat, os: nat, r: nat) returns (acts: seq<Act>)
    requires r < n && os >= 1
    ensures acts == AllNamed(base, n, Summing(r, n, os))
  {
    acts := [];
    var sum := n;
    ghost var before: seq<Act> := [];
    while true
      invariant 0 < sum <= n && acts == AllNamed(base, n, before)
      invariant Summing(r, n, os) == before + Remaining(r, sum, os)
      decreases sum
    {
      var last := sum;
      sum := Fewer(last, os);
      if sum == 0 {
        if r < last {
          NextLevel(r, last, os);
        }
        break;
      }
      var more := Level(n, base, r, sum, last);
      LevelsFollow(base, n, r, os, last, before, acts, more);
      acts := acts + more;
      before := before + OnLevel(r, sum, last);
    }
  }

  /** Hands the sum to at most mb parties. */
  method Broadcast(base: nat, n: nat, mb: nat, first: nat, r: nat) returns (acts: seq<Act>)
    requires n > 0 && first <= mb
    ensures acts == AllNamed(base, n, Sending(Range(r * mb + first, if r * mb + mb < n then r * mb + mb else n)))
  {
    acts := [];
    var lo := r * mb;
    for i := first to mb
      invariant acts == AllNamed(base, n, Sending(Range(lo + first, if lo + i < n then lo + i else n)))
    {
      if lo + i < n {
        acts := acts + [Send(PositiveModulo(base + lo + i, n))];
      }
    }
  }

  /** What comes after the sum: the sum is taken from the parent and handed on. */
  function Casting(n: nat, mb: nat, r: nat): seq<Act>
    requires mb > 0
  {
    (if r > 0 then [Take(r / mb)] else []) + Sending(Downs(r, n, mb))
  }

  lemma NobodyBelow(n: nat, mb: nat, r: nat)
    requires 0 < n <= r * mb && mb >= 1
    ensures r > 0 && Casting(n, mb, r) == [Take(r / mb)]
  {
  }

  /** The end of start, and finish, at party my, the r-th. */
  method Cast(n: nat, base: nat, mb: nat, my: nat, r: nat) returns (acts: seq<Act>)
    requires base < n && my < n && r == PositiveModulo(my - base, n) && mb >= 1
    ensures acts == AllNamed(base, n, Casting(n, mb, r))
  {
    BaseIsFirst(n, base, my);
    acts := [];
    if my == base {
      acts := Broadcast(base, n, mb, 1, 0);
    } else if r * mb < n {
      acts := Broadcast(base, n, mb, 0, r);
      acts := [Take(PositiveModulo(base + r / mb, n))] + acts;
    }
    if r * mb >= n {
      NobodyBelow(n, mb, r);
      acts := acts + [Take(PositiveModulo(base + r / mb, n))];
    }
  }

  /** What party my does over start and finish: the acts of its place, by the names of the parties. */
  function Messages(n: nat, base: nat, os: nat, mb: nat, my: nat): seq<Act>
    requires base < n && my < n && os >= 1 && mb >= 1
  {
    AllNamed(base, n, Acts(n, os, mb, PositiveModulo(my - base, n)))
  }

  method Run(n: nat, base: nat, os: nat, mb: nat, my: nat) returns (acts: seq<Act>)
    requires base < n && my < n && os >= 1 && mb >= 1
    ensures acts == Messages(n, base, os, mb, my)
  {
    var r := PositiveModulo(my - base, n);
    var sums := StartSums(n, base, os, r);
    var casts := Cast(n, base, mb, my, r);
    acts := sums + casts;
    NamedConcat(base, n, Summing(r, n, os), Casting(n, mb, r));
    assert Acts(n, os, mb, r) == Summing(r, n, os) + Casting(n, mb, r);
  }

  lemma BaseIsFirst(n: nat, base: nat, my: nat)
    requires base < n && my < n
    ensures my == base <==> PositiveModulo(my - base, n) == 0
  {
    NamedBack(base, n, my);
    ModUnique(0, n, 0, 0);
    ModUnique(base, n, 0, base);
  }

  // ---------- the network of all parties ----------

  /** Every party does what its program says. */
  function Performing(progs: seq<seq<Act>>): Programs {
    (my: nat, k: nat) => if my < |progs| && k < |progs[my]| then progs[my][k] else Stop
  }

  function Counts(progs: seq<seq<Act>>): seq<nat> {
    seq(|progs|, my requires 0 <= my < |progs| => |progs[my]|)
  }

  /** The programs that run computes for all parties. */
  ghost predicate AreRuns(n: nat, base: nat, os: nat, mb: nat, progs: seq<seq<Act>>) {
    && base < n == |progs| && os >= 1 && mb >= 1
    && forall my :: 0 <= my < n ==> progs[my] == Messages(n, base, os, mb, my)
  }

  /** The network seen from the base player. */
  ghost predicate AlikeAt<V>(base: nat, n: nat, s: State<V>, t: State<V>, r: nat)
    requires |s.done| == |s.val| == |t.done| == |t.val| == n
  {
    r < n ==> t.done[Named(base, n, r)] == s.done[r] && t.val[Named(base, n, r)] == s.val[r]
  }

  ghost predicate ChanAlike<V>(base: nat, n: nat, s: State<V>, t: State<V>, p: nat, q: nat) {
    p < n && q < n ==> t.chan(Named(base, n, p), Named(base, n, q)) == s.chan(p, q)
  }

  ghost predicate Unused<V>(n: nat, t: State<V>, p: nat, q: nat) {
    p >= n || q >= n ==> t.chan(p, q) == []
  }

  ghost predicate Alike<V>(base: nat, n: nat, s: State<V>, t: State<V>) {
    && base < n && |s.done| == |s.val| == |t.done| == |t.val| == n
    && (forall r: nat :: AlikeAt(base, n, s, t, r))
    && (forall p: nat, q: nat :: ChanAlike(base, n, s, t, p, q))
    && (forall p: nat, q: nat :: Unused(n, t, p, q))
  }

  lemma NameOf(base: nat, n: nat, r: nat)
    requires base < n && r < n
    ensures Named(base, n, r) < n && PositiveModulo(Named(base, n, r) - base, n) == r
  {
    var my := Named(base, n, r);
    NamedBack(base, n, my);
    var q := PositiveModulo(my - base, n);
    if q < r {
      NamesDiffer(base, n, q, r);
    } else if r < q {
      NamesDiffer(base, n, r, q);
    }
  }

  lemma SameName(base: nat, n: nat, p: nat, q: nat)
    requires base < n && p < n && q < n
    ensures Named(base, n, p) == Named(base, n, q) <==> p == q
  {
    NameOf(base, n, p);
    NameOf(base, n, q);
  }

  /** The party that an act is about. */
  predicate Among(n: nat, a: Act) {
    match a
    case Add(p) => p < n
    case Take(p) => p < n
    case Send(p) => p < n
    case Stop => true
  }

  /** Corresponding acts are possible together and keep the networks alike. */
  lemma ActAlike<V>(base: nat, n: nat, G: Group<V>, s: State<V>, t: State<V>, r: nat, a: Act)
    requires Alike(base, n, s, t) && r < n && Among(n, a)
    ensures Named(base, n, r) < n && (Can(s, r, a) <==> Can(t, Named(base, n, r), NamedAct(base, n, a)))
    ensures Can(s, r, a) ==> Alike(base, n, Perform(G, s, r, a), Perform(G, t, Named(base, n, r), NamedAct(base, n, a)))
  {
    NameOf(base, n, r);
    var o := if a.Add? || a.Take? then a.from else if a.Send? then a.to else r;
    assert ChanAlike(base, n, s, t, o, r) && ChanAlike(base, n, s, t, r, o) && AlikeAt(base, n, s, t, r);
    if Can(s, r, a) {
      var s1, t1 := Perform(G, s, r, a), Perform(G, t, Named(base, n, r), NamedAct(base, n, a));
      forall q: nat
        ensures AlikeAt(base, n, s1, t1, q)
      {
        if q < n {
          SameName(base, n, q, r);
          NameOf(base, n, q);
          assert AlikeAt(base, n, s, t, q);
        }
      }
      forall p: nat, q: nat
        ensures ChanAlike(base, n, s1, t1, p, q) && Unused(n, t1, p, q)
      {
        ChanKept(base, n, G, s, t, r, a, o, p, q);
      }
    }
  }

  lemma ChanKept<V>(base: nat, n: nat, G: Group<V>, s: State<V>, t: State<V>, r: nat, a: Act, o: nat, p: nat, q: nat)
    requires Alike(base, n, s, t) && r < n && o < n && Can(s, r, a) && (a == Add(o) || a == Take(o) || a == Send(o))
    requires Named(base, n, r) < n && Can(t, Named(base, n, r), NamedAct(base, n, a))
    ensures ChanAlike(base, n, Perform(G, s, r, a), Perform(G, t, Named(base, n, r), NamedAct(base, n, a)), p, q)
    ensures Unused(n, Perform(G, t, Named(base, n, r), NamedAct(base, n, a)), p, q)
  {
    assert ChanAlike(base, n, s, t, p, q) && Unused(n, t, p, q) && AlikeAt(base, n, s, t, r);
    NameOf(base, n, o);
    if p < n && q < n {
      SameName(base, n, p, r);
      SameName(base, n, q, r);
      SameName(base, n, p, o);
      SameName(base, n, q, o);
    }
  }

  /** The trees say what the programs say. */
  lemma NextNamed(n: nat, base: nat, os: nat, mb: nat, progs: seq<seq<Act>>, r: nat, k: nat)
    requires AreRuns(n, base, os, mb, progs) && mb >= 2 && r < n
    ensures var c := TheTrees(n, os, mb);
      && Named(base, n, r) < n && |progs[Named(base, n, r)]| == Length(c, r)
      && Performing(progs)(Named(base, n, r), k) == NamedAct(base, n, Along(c)(r, k)) && Among(n, Along(c)(r, k))
  {
    var c, my := TheTrees(n, os, mb), Named(base, n, r);
    NameOf(base, n, r);
    ActsAre(n, os, mb, r);
    TreesAre(n, os, mb);
    assert progs[my] == AllNamed(base, n, Acts(n, os, mb, r));
    if k < Length(c, r) {
      assert progs[my][k] == NamedAct(base, n, ActAt(c, r, k));
      ActAmong(c, r, k);
    }
  }

  lemma ActAmong(c: Trees, r: nat, k: nat)
    requires AreTrees(c) && r < c.n
    ensures Among(c.n, ActAt(c, r, k))
  {
    if k < Adds(c, r) {
      assert KidAt(c.kids, c.up, r, k);
    } else if Base(c, r) <= k < Length(c, r) {
      assert KidAt(c.downs, c.dn, r, k - Base(c, r));
    }
    if r > 0 {
      assert HasParent(c.kids, c.up, r) && HasParent(c.downs, c.dn, r);
    }
  }

  /** Values in the order of the parties from the base player on. */
  function FromBase<V>(base: nat, x: seq<V>): (y: seq<V>)
    requires base <= |x|
    ensures |y| == |x|
  {
    x[base..] + x[..base]
  }

  lemma FromBaseAt<V>(base: nat, n: nat, x: seq<V>, r: nat)
    requires base < n == |x| && r < n
    ensures Named(base, n, r) < n && FromBase(base, x)[r] == x[Named(base, n, r)]
  {
    if base + r < n {
      ModUnique(base + r, n, 0, base + r);
    } else {
      ModUnique(base + r, n, 1, base + r - n);
    }
  }

  function Relative(base: nat, n: nat, schedule: seq<nat>): seq<nat>
    requires n > 0
  {
    seq(|schedule|, i requires 0 <= i < |schedule| => PositiveModulo(schedule[i] - base, n))
  }

  lemma RelativeMore(base: nat, n: nat, schedule: seq<nat>, my: nat)
    requires n > 0
    ensures Relative(base, n, schedule + [my]) == Relative(base, n, schedule) + [PositiveModulo(my - base, n)]
  {
  }

  lemma StartAlike<V>(base: nat, n: nat, x: seq<V>)
    requires base < n == |x|
    ensures Alike(base, n, Start(FromBase(base, x)), Start(x))
  {
    var s, t := Start(FromBase(base, x)), Start(x);
    forall r: nat
      ensures AlikeAt(base, n, s, t, r)
    {
      if r < n {
        FromBaseAt(base, n, x, r);
      }
    }
  }

  /** The next act of a party and of its place. */
  lemma NextAlike<V>(n: nat, base: nat, os: nat, mb: nat, progs: seq<seq<Act>>, G: Group<V>, s: State<V>, t: State<V>,
                     r: nat)
    requires AreRuns(n, base, os, mb, progs) && mb >= 2 && Alike(base, n, s, t) && r < n
    ensures var c, my := TheTrees(n, os, mb), Named(base, n, r);
      && my < n && (CanAct(Along(c), s, r) <==> CanAct(Performing(progs), t, my))
      && (CanAct(Along(c), s, r) ==> Alike(base, n, Perform(G, s, r, Along(c)(r, s.done[r])),
                                           Perform(G, t, my, Performing(progs)(my, t.done[my]))))
  {
    assert AlikeAt(base, n, s, t, r);
    NextNamed(n, base, os, mb, progs, r, s.done[r]);
    ActAlike(base, n, G, s, t, r, Along(TheTrees(n, os, mb))(r, s.done[r]));
  }

  /** Two runs that leave the networks alike. */
  ghost predicate Mirrored<V>(base: nat, n: nat, G: Group<V>, next: Programs, y: seq<V>, places: seq<nat>,
                              named: Programs, x: seq<V>, schedule: seq<nat>) {
    && Possible(next, G, y, places) && Possible(named, G, x, schedule)
    && Alike(base, n, After(next, G, y, places), After(named, G, x, schedule))
  }

  lemma MirroredNext<V>(base: nat, n: nat, G: Group<V>, next: Programs, y: seq<V>, places: seq<nat>, r: nat,
                        named: Programs, x: seq<V>, schedule: seq<nat>, my: nat)
    requires Mirrored(base, n, G, next, y, places, named, x, schedule)
    requires var s, t := After(next, G, y, places), After(named, G, x, schedule);
      && CanAct(next, s, r) && CanAct(named, t, my)
      && Alike(base, n, Perform(G, s, r, next(r, s.done[r])), Perform(G, t, my, named(my, t.done[my])))
    ensures Mirrored(base, n, G, next, y, places + [r], named, x, schedule + [my])
  {
    RunExtends(next, G, y, places, r);
    RunExtends(named, G, x, schedule, my);
  }

  /** The places can act in the order in which the parties do. */
  ghost predicate InStep<V>(n: nat, base: nat, os: nat, mb: nat, progs: seq<seq<Act>>, G: Group<V>, x: seq<V>,
                            schedule: seq<nat>)
    requires AreRuns(n, base, os, mb, progs) && mb >= 2 && |x| == n
  {
    Mirrored(base, n, G, Along(TheTrees(n, os, mb)), FromBase(base, x), Relative(base, n, schedule), Performing(progs),
             x, schedule)
  }

  lemma {:induction false} RunsAlike<V>(n: nat, base: nat, os: nat, mb: nat, progs: seq<seq<Act>>, G: Group<V>,
                                        x: seq<V>, schedule: seq<nat>)
    requires AreRuns(n, base, os, mb, progs) && mb >= 2 && |x| == n && Possible(Performing(progs), G, x, schedule)
    ensures InStep(n, base, os, mb, progs, G, x, schedule)
    decreases |schedule|
  {
    if schedule == [] {
      StartAlike(base, n, x);
    } else {
      var before, my := schedule[..|schedule| - 1], schedule[|schedule| - 1];
      assert before + [my] == schedule;
      RunsAlike(n, base, os, mb, progs, G, x, before);
      InStepNext(n, base, os, mb, progs, G, x, before, my);
    }
  }

  lemma InStepNext<V>(n: nat, base: nat, os: nat, mb: nat, progs: seq<seq<Act>>, G: Group<V>, x: seq<V>,
                      before: seq<nat>, my: nat)
    requires AreRuns(n, base, os, mb, progs) && mb >= 2 && |x| == n && InStep(n, base, os, mb, progs, G, x, before)
    requires CanAct(Performing(progs), After(Performing(progs), G, x, before), my)
    ensures InStep(n, base, os, mb, progs, G, x, before + [my])
  {
    var c, y, places := TheTrees(n, os, mb), FromBase(base, x), Relative(base, n, before);
    NamedBack(base, n, my);
    var r := PositiveModulo(my - base, n);
    NextAlike(n, base, os, mb, progs, G, After(Along(c), G, y, places), After(Performing(progs), G, x, before), r);
    MirroredNext(base, n, G, Along(c), y, places, r, Performing(progs), x, before, my);
    RelativeMore(base, n, before, my);
  }

  // ---------- totals do not depend on the base player ----------

  lemma {:induction false} SumPrefix<V>(G: Group<V>, a: seq<V>, b: seq<V>, k: nat)
    requires k <= |a|
    ensures SumIf(G, a + b, Everybody(), k) == SumIf(G, a, Everybody(), k)
  {
    if k > 0 {
      SumPrefix(G, a, b, k - 1);
    }
  }

  lemma {:induction false} SumConcat<V(!new)>(G: Group<V>, a: seq<V>, b: seq<V>, k: nat)
    requires IsGroup(G) && k <= |b|
    ensures SumIf(G, a + b, Everybody(), |a| + k)
         == G.add(SumIf(G, a, Everybody(), |a|), SumIf(G, b, Everybody(), k))
  {
    var m := SumIf(G, a, Everybody(), |a|);
    if k == 0 {
      SumPrefix(G, a, b, |a|);
      assert AddLaws(G, m, G.zero, G.zero);
    } else {
      SumConcat(G, a, b, k - 1);
      assert AddLaws(G, m, SumIf(G, b, Everybody(), k - 1), b[k - 1]);
    }
  }

  lemma SumFromBase<V(!new)>(G: Group<V>, x: seq<V>, base: nat)
    requires IsGroup(G) && base <= |x|
    ensures SumIf(G, FromBase(base, x), Everybody(), |x|) == SumIf(G, x, Everybody(), |x|)
  {
    var a, b := x[..base], x[base..];
    assert a + b == x;
    SumConcat(G, a, b, |b|);
    SumConcat(G, b, a, |a|);
    assert AddLaws(G, SumIf(G, a, Everybody(), |a|), SumIf(G, b, Everybody(), |b|), G.zero);
  }

  lemma TotalFromBase(n: nat, base: nat, os: nat, mb: nat, progs: seq<seq<Act>>)
    requires AreRuns(n, base, os, mb, progs) && mb >= 2
    ensures Total(Lengths(TheTrees(n, os, mb))) == Total(Counts(progs))
  {
    var counts := Counts(progs);
    forall r | 0 <= r < n
      ensures Lengths(TheTrees(n, os, mb))[r] == FromBase(base, counts)[r]
    {
      FromBaseAt(base, n, counts, r);
      NextNamed(n, base, os, mb, progs, r, 0);
    }
    assert Lengths(TheTrees(n, os, mb)) == FromBase(base, counts);
    TotalConcat(counts[base..], counts[..base]);
    TotalConcat(counts[..base], counts[base..]);
    assert counts[..base] + counts[base..] == counts;
  }

  lemma SettledFromBase<V(!new)>(n: nat, base: nat, G: Group<V>, x: seq<V>, s: State<V>, t: State<V>)
    requires Alike(base, n, s, t) && |x| == n && IsGroup(G) && Settled(G, FromBase(base, x), s)
    ensures Settled(G, x, t)
  {
    SumFromBase(G, x, base);
    forall my | 0 <= my < n
      ensures t.val[my] == SumIf(G, x, Everybody(), n)
    {
      NamedBack(base, n, my);
      assert AlikeAt(base, n, s, t, PositiveModulo(my - base, n));
    }
    forall p: nat, q: nat
      ensures t.chan(p, q) == []
    {
      assert Unused(n, t, p, q);
      if p < n && q < n {
        NamedBack(base, n, p);
        NamedBack(base, n, q);
        assert ChanAlike(base, n, s, t, PositiveModulo(p - base, n), PositiveModulo(q - base, n));
      }
    }
  }

  /** For any number of parties, any base player, any number of openings at once and at least two
      receivers, if every party does what its run computes: whatever the order in which the parties
      get to act, nobody waits for ever, and in the end every party has the sum of all values and
      every message has been received. */
  lemma EveryOpening<V(!new)>(n: nat, base: nat, os: nat, mb: nat, progs: seq<seq<Act>>, G: Group<V>, x: seq<V>,
                              schedule: seq<nat>)
    requires AreRuns(n, base, os, mb, progs) && (mb >= 2 || n == 1) && |x| == n && IsGroup(G)
    requires Possible(Performing(progs), G, x, schedule)
    ensures |schedule| <= Total(Counts(progs))
    ensures |schedule| < Total(Counts(progs)) ==> exists my :: GoesOn(Performing(progs), G, x, schedule, my)
    ensures |schedule| == Total(Counts(progs)) ==> Settled(G, x, After(Performing(progs), G, x, schedule))
  {
    if mb >= 2 {
      EveryOpeningOfMany(n, base, os, mb, progs, G, x, schedule);
    } else {
      AloneSilent(os, mb);
      AloneSilent(os, 2);
      EveryOpeningOfMany(n, base, os, 2, progs, G, x, schedule);
    }
  }

  lemma AloneSilent(os: nat, mb: nat)
    requires os >= 1 && mb >= 1
    ensures Messages(1, 0, os, mb, 0) == []
  {
    BaseIsFirst(1, 0, 0);
    FewerBounds(1, os);
    assert Kids(0, 1, os) == [];
  }

  lemma EveryOpeningOfMany<V(!new)>(n: nat, base: nat, os: nat, mb: nat, progs: seq<seq<Act>>, G: Group<V>, x: seq<V>,
                                    schedule: seq<nat>)
    requires AreRuns(n, base, os, mb, progs) && mb >= 2 && |x| == n && IsGroup(G)
    requires Possible(Performing(progs), G, x, schedule)
    ensures |schedule| <= Total(Counts(progs))
    ensures |schedule| < Total(Counts(progs)) ==> exists my :: GoesOn(Performing(progs), G, x, schedule, my)
    ensures |schedule| == Total(Counts(progs)) ==> Settled(G, x, After(Performing(progs), G, x, schedule))
  {
    var c, y, places := TheTrees(n, os, mb), FromBase(base, x), Relative(base, n, schedule);
    TreesAre(n, os, mb);
    RunsAlike(n, base, os, mb, progs, G, x, schedule);
    TotalFromBase(n, base, os, mb, progs);
    EveryRun(c, G, y, places);
    var s, t := After(Along(c), G, y, places), After(Performing(progs), G, x, schedule);
    if |schedule| < Total(Counts(progs)) {
      var r :| GoesOn(Along(c), G, y, places, r);
      OneMore(Along(c), G, y, places, r);
      NextAlike(n, base, os, mb, progs, G, s, t, r);
      OneMore(Performing(progs), G, x, schedule, Named(base, n, r));
    } else {
      SettledFromBase(n, base, G, x, s, t);
    }
  }

  // ---------- one receiver ----------

  /** Nothing that party my does before act k leads to itself, and act k waits for itself. */
  ghost predicate WaitsForItself(progs: seq<seq<Act>>, my: nat, k: nat) {
    && my < |progs| && k < |progs[my]| && progs[my][k] == Take(my)
    && forall i :: 0 <= i < k ==> progs[my][i] != Send(my)
  }

  /** Such a party never gets past act k, whatever the others do. */
  lemma {:induction false} NeverGetsPast<V>(progs: seq<seq<Act>>, my: nat, k: nat, G: Group<V>, x: seq<V>,
                                            schedule: seq<nat>)
    requires WaitsForItself(progs, my, k) && |x| == |progs| && Possible(Performing(progs), G, x, schedule)
    ensures var s := After(Performing(progs), G, x, schedule); s.done[my] <= k && s.chan(my, my) == []
    decreases |schedule|
  {
    if schedule != [] {
      NeverGetsPast(progs, my, k, G, x, schedule[..|schedule| - 1]);
    }
  }

  /** With one receiver and more than one party, every party but the base player waits for a message
      that it would have to send itself, so that no opening ends. */
  lemma OneReceiver<V>(n: nat, base: nat, os: nat, progs: seq<seq<Act>>, G: Group<V>, x: seq<V>, schedule: seq<nat>,
                       my: nat)
    requires AreRuns(n, base, os, 1, progs) && |x| == n && my < n && my != base
    requires Possible(Performing(progs), G, x, schedule)
    ensures After(Performing(progs), G, x, schedule).done[my] < |progs[my]|
  {
    var r := PositiveModulo(my - base, n);
    BaseIsFirst(n, base, my);
    NamedBack(base, n, my);
    var k, up := |Kids(r, n, os)| + 1, Parent(r, n, os);
    NameOf(base, n, up);
    SameName(base, n, up, r);
    assert Acts(n, os, 1, r)[k] == Take(r) && Acts(n, os, 1, r)[k - 1] == Send(up);
    assert forall i :: 0 <= i < k - 1 ==> Acts(n, os, 1, r)[i].Add?;
    NeverGetsPast(progs, my, k, G, x, schedule);
  }
}
