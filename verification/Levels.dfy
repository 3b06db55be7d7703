/**
 Which level of communication every instruction of a block is on: the depths that dependency_graph
 of Compiler/allocator.py computes, as a function of the block and the limit on parallel openings.
 */
module Levels {
  import opened Blocks

  /** The depths so far, the field every level is reserved for, and how many values are opened on it. */
  datatype Table = Table(depths: seq<nat>, roundType: map<nat, bool>, parallel: map<nat, nat>)

  /** The largest depth among those of the first k instructions that n depends on. */
  ghost function MaxDepth(prog: seq<Inst>, depths: seq<nat>, n: nat, k: nat): nat
    requires n < |prog| && k <= |depths|
    decreases k
  {
    if k == 0 then 0 else
      var d := MaxDepth(prog, depths, n, k - 1);
      if DependsOn(prog, n, k - 1) && depths[k - 1] > d then depths[k - 1] else d
  }

  function Opened(parallel: map<nat, nat>, d: nat): nat {
    if d in parallel then parallel[d] else 0
  }

  /** The level is taken by openings of the other field. */
  predicate Reserved(roundType: map<nat, bool>, d: nat, gf2n: bool) {
    d in roundType && roundType[d] != gf2n
  }

  predicate Full(parallel: map<nat, nat>, max: nat, d: nat) {
    max > 0 && Opened(parallel, d) >= max
  }

  ghost function KeysFrom(keys: set<nat>, d: nat): set<nat> {
    set k | k in keys && k >= d
  }

  /** The first level from d on that is not reserved. */
  function FirstFree(roundType: map<nat, bool>, gf2n: bool, d: nat): (e: nat)
    ensures d <= e && !Reserved(roundType, e, gf2n) && forall i :: d <= i < e ==> Reserved(roundType, i, gf2n)
    decreases KeysFrom(roundType.Keys, d)
  {
    if Reserved(roundType, d, gf2n) then
      assert d in KeysFrom(roundType.Keys, d) && d !in KeysFrom(roundType.Keys, d + 1);
      FirstFree(roundType, gf2n, d + 1)
    else d
  }

  /** The first level from d on that has room. */
  function FirstRoom(parallel: map<nat, nat>, max: nat, d: nat): (e: nat)
    ensures d <= e && !Full(parallel, max, e) && forall i :: d <= i < e ==> Full(parallel, max, i)
    decreases KeysFrom(parallel.Keys, d)
  {
    if Full(parallel, max, d) then
      assert d in KeysFrom(parallel.Keys, d) && d !in KeysFrom(parallel.Keys, d + 1);
      FirstRoom(parallel, max, d + 1)
    else d
  }

  /** Places instruction n, given the depth of what it depends on: on that level, or for an opening on the next one that
      is free and has room. */
  function PlaceAt(prog: seq<Inst>, max: nat, t: Table, n: nat, base: nat): (t1: Table)
    requires n < |prog| && |t.depths| == n
    ensures |t1.depths| == n + 1 && t1.depths[..n] == t.depths
  {
    match prog[n]
    case StartOpen(gf2n, uses) =>
      var free := FirstFree(t.roundType, gf2n, base + 1);
      var d := FirstRoom(t.parallel, max, free);
      Table(t.depths + [d], t.roundType[free := gf2n], t.parallel[d := Opened(t.parallel, d) + |uses|])
    case _ => Table(t.depths + [base], t.roundType, t.parallel)
  }

  ghost function Place(prog: seq<Inst>, max: nat, t: Table, n: nat): (t1: Table)
    requires n < |prog| && |t.depths| == n
    ensures |t1.depths| == n + 1 && t1.depths[..n] == t.depths
  {
    PlaceAt(prog, max, t, n, MaxDepth(prog, t.depths, n, n))
  }

  ghost function Placed(prog: seq<Inst>, max: nat, n: nat): (t: Table)
    requires n <= |prog|
    ensures |t.depths| == n
    decreases n
  {
    if n == 0 then Table([], map[], map[]) else Place(prog, max, Placed(prog, max, n - 1), n - 1)
  }

  /** The depths of all instructions. */
  ghost function Depths(prog: seq<Inst>, max: nat): (r: seq<nat>)
    ensures |r| == |prog|
  {
    Placed(prog, max, |prog|).depths
  }

  // ---------- the depths one by one ----------

  lemma {:induction false} PlacedPrefix(prog: seq<Inst>, max: nat, n: nat, m: nat)
    requires n <= m <= |prog|
    ensures Placed(prog, max, m).depths[..n] == Placed(prog, max, n).depths
    decreases m
  {
    if n < m {
      PlacedPrefix(prog, max, n, m - 1);
      var t := Placed(prog, max, m - 1);
      assert Placed(prog, max, m) == Place(prog, max, t, m - 1);
      assert Placed(prog, max, m).depths[..n] == Placed(prog, max, m).depths[..m - 1][..n];
    }
  }

  lemma {:induction false} MaxDepthPrefix(prog: seq<Inst>, a: seq<nat>, b: seq<nat>, n: nat, k: nat)
    requires n < |prog| && k <= |a| && k <= |b| && forall i :: 0 <= i < k ==> a[i] == b[i]
    ensures MaxDepth(prog, a, n, k) == MaxDepth(prog, b, n, k)
    decreases k
  {
    if k > 0 {
      MaxDepthPrefix(prog, a, b, n, k - 1);
    }
  }

  /** The largest depth is the largest. */
  lemma {:induction false} MaxDepthBounds(prog: seq<Inst>, depths: seq<nat>, n: nat, k: nat)
    requires n < |prog| && k <= |depths|
    ensures forall i: nat :: i < k && DependsOn(prog, n, i) ==> depths[i] <= MaxDepth(prog, depths, n, k)
    ensures MaxDepth(prog, depths, n, k) > 0 ==>
      exists i: nat :: i < k && DependsOn(prog, n, i) && depths[i] == MaxDepth(prog, depths, n, k)
    decreases k
  {
    if k > 0 {
      MaxDepthBounds(prog, depths, n, k - 1);
    }
  }

  /** The only number that bounds the depths and is one of them, or zero. */
  lemma MaxDepthIs(prog: seq<Inst>, depths: seq<nat>, n: nat, d: nat)
    requires n < |prog| && n <= |depths|
    requires forall i: nat :: i < n && DependsOn(prog, n, i) ==> depths[i] <= d
    requires d > 0 ==> exists i: nat :: i < n && DependsOn(prog, n, i) && depths[i] == d
    ensures MaxDepth(prog, depths, n, n) == d
  {
    MaxDepthBounds(prog, depths, n, n);
  }

  ghost function Base(prog: seq<Inst>, max: nat, n: nat): nat
    requires n < |prog|
  {
    MaxDepth(prog, Depths(prog, max), n, n)
  }

  /** The depth of instruction n, and how it was placed. */
  lemma DepthAt(prog: seq<Inst>, max: nat, n: nat)
    requires n < |prog|
    ensures Placed(prog, max, n + 1).depths[n] == Depths(prog, max)[n]
    ensures Placed(prog, max, n).depths == Depths(prog, max)[..n]
    ensures MaxDepth(prog, Placed(prog, max, n).depths, n, n) == Base(prog, max, n)
    ensures var t, d := Placed(prog, max, n), Depths(prog, max)[n];
      match prog[n]
      case StartOpen(gf2n, _) => d == FirstRoom(t.parallel, max, FirstFree(t.roundType, gf2n, Base(prog, max, n) + 1))
      case _ => d == Base(prog, max, n)
  {
    PlacedPrefix(prog, max, n, |prog|);
    PlacedPrefix(prog, max, n + 1, |prog|);
    var t := Placed(prog, max, n);
    assert Placed(prog, max, n + 1) == Place(prog, max, t, n);
    assert Depths(prog, max)[n] == Depths(prog, max)[..n + 1][n];
    MaxDepthPrefix(prog, t.depths, Depths(prog, max), n, n);
  }

  // ---------- how much is opened at once ----------

  /** The number of values that the first k instructions open on level d. */
  ghost function ValuesOn(prog: seq<Inst>, depths: seq<nat>, d: nat, k: nat): nat
    requires k <= |prog| && k <= |depths|
  {
    if k == 0 then 0 else
      ValuesOn(prog, depths, d, k - 1) +
      if prog[k - 1].StartOpen? && depths[k - 1] == d then |prog[k - 1].uses| else 0
  }

  lemma ParallelStep(prog: seq<Inst>, max: nat, n: nat, d: nat)
    requires n < |prog|
    ensures Opened(Placed(prog, max, n + 1).parallel, d) == Opened(Placed(prog, max, n).parallel, d)
      + if prog[n].StartOpen? && Depths(prog, max)[n] == d then |prog[n].uses| else 0
  {
    var t := Placed(prog, max, n);
    DepthAt(prog, max, n);
    assert Placed(prog, max, n + 1) == PlaceAt(prog, max, t, n, MaxDepth(prog, t.depths, n, n));
  }

  ghost predicate Accumulates(prog: seq<Inst>, depths: seq<nat>, d: nat, f: nat -> nat, k: nat) {
    k < |prog| == |depths| ==>
      f(k + 1) == f(k) + if prog[k].StartOpen? && depths[k] == d then |prog[k].uses| else 0
  }

  lemma {:induction false} Accumulated(prog: seq<Inst>, depths: seq<nat>, d: nat, f: nat -> nat, n: nat)
    requires n <= |prog| == |depths| && f(0) == 0 && forall k: nat :: Accumulates(prog, depths, d, f, k)
    ensures f(n) == ValuesOn(prog, depths, d, n)
  {
    if n > 0 {
      Accumulated(prog, depths, d, f, n - 1);
      assert Accumulates(prog, depths, d, f, n - 1);
    }
  }

  ghost function ParallelOn(prog: seq<Inst>, max: nat, d: nat): nat -> nat {
    (k: nat) => if k <= |prog| then Opened(Placed(prog, max, k).parallel, d) else 0
  }

  lemma ParallelAccumulates(prog: seq<Inst>, max: nat, d: nat, k: nat)
    ensures Accumulates(prog, Depths(prog, max), d, ParallelOn(prog, max, d), k)
  {
    if k < |prog| {
      ParallelStep(prog, max, k, d);
    }
  }

  lemma ParallelIs(prog: seq<Inst>, max: nat, n: nat, d: nat)
    requires n <= |prog|
    ensures Opened(Placed(prog, max, n).parallel, d) == ValuesOn(prog, Depths(prog, max), d, n)
  {
    var f := ParallelOn(prog, max, d);
    forall k: nat
      ensures Accumulates(prog, Depths(prog, max), d, f, k)
    {
      ParallelAccumulates(prog, max, d, k);
    }
    Accumulated(prog, Depths(prog, max), d, f, n);
  }

  /** With a limit, an opening goes to a level on which fewer values than that have been opened, and to
      no lower one that has room among the free ones. */
  lemma LevelLimited(prog: seq<Inst>, max: nat, n: nat)
    requires n < |prog| && prog[n].StartOpen? && max > 0
    ensures var depths := Depths(prog, max);
      var free := FirstFree(Placed(prog, max, n).roundType, prog[n].gf2n, Base(prog, max, n) + 1);
      && free <= depths[n] && ValuesOn(prog, depths, depths[n], n) < max
      && forall d :: free <= d < depths[n] ==> ValuesOn(prog, depths, d, n) >= max
  {
    DepthAt(prog, max, n);
    var t := Placed(prog, max, n);
    var free := FirstFree(t.roundType, prog[n].gf2n, Base(prog, max, n) + 1);
    var e := FirstRoom(t.parallel, max, free);
    ParallelIs(prog, max, n, e);
    forall d: nat | free <= d < e
      ensures ValuesOn(prog, Depths(prog, max), d, n) >= max
    {
      assert Full(t.parallel, max, d);
      ParallelIs(prog, max, n, d);
    }
  }

  lemma {:induction false} SingleValues(prog: seq<Inst>, max: nat, d: nat, k: nat)
    requires k <= |prog| && max > 0 && forall i :: 0 <= i < k && prog[i].StartOpen? ==> |prog[i].uses| <= 1
    ensures ValuesOn(prog, Depths(prog, max), d, k) <= max
  {
    if k > 0 {
      SingleValues(prog, max, d, k - 1);
      if prog[k - 1].StartOpen? {
        LevelLimited(prog, max, k - 1);
      }
    }
  }

  /** Openings of single values never exceed the limit. */
  lemma LimitKept(prog: seq<Inst>, max: nat, d: nat)
    requires max > 0 && forall i :: 0 <= i < |prog| && prog[i].StartOpen? ==> |prog[i].uses| <= 1
    ensures ValuesOn(prog, Depths(prog, max), d, |prog|) <= max
  {
    SingleValues(prog, max, d, |prog|);
  }

  /** Depths do not fall along dependencies, and rise at openings. */
  lemma DepthsRise(prog: seq<Inst>, max: nat, n: nat, i: nat)
    requires n < |prog| && DependsOn(prog, n, i)
    ensures Depths(prog, max)[i] <= Depths(prog, max)[n]
    ensures prog[n].StartOpen? ==> Depths(prog, max)[i] < Depths(prog, max)[n]
  {
    DepthAt(prog, max, n);
    MaxDepthBounds(prog, Depths(prog, max), n, n);
  }

  lemma OpeningsDeep(prog: seq<Inst>, max: nat, n: nat)
    requires n < |prog| && prog[n].StartOpen?
    ensures Depths(prog, max)[n] > 0
  {
    DepthAt(prog, max, n);
  }

  /** Whatever has a depth but is no opening depends on something of that depth. */
  lemma DepthInherited(prog: seq<Inst>, max: nat, n: nat)
    requires n < |prog| && !prog[n].StartOpen? && Depths(prog, max)[n] > 0
    ensures exists i: nat :: DependsOn(prog, n, i) && Depths(prog, max)[i] == Depths(prog, max)[n]
  {
    DepthAt(prog, max, n);
    MaxDepthBounds(prog, Depths(prog, max), n, n);
  }

  // ---------- every level has openings ----------

  /** Some opening among the first n instructions has depth d. */
  ghost predicate LevelUsed(prog: seq<Inst>, depths: seq<nat>, n: nat, d: nat) {
    exists b: nat :: b < n && b < |prog| && b < |depths| && prog[b].StartOpen? && depths[b] == d
  }

  /** Levels up to those in use, reserved levels, and levels that hold values all have openings. */
  ghost predicate LevelsUsed(prog: seq<Inst>, t: Table, n: nat) {
    && |t.depths| == n <= |prog|
    && (forall w: nat, i: nat :: w < n && 1 <= i <= t.depths[w] ==> LevelUsed(prog, t.depths, n, i))
    && (forall d :: d in t.roundType ==> LevelUsed(prog, t.depths, n, d))
    && (forall d: nat :: Opened(t.parallel, d) > 0 ==> LevelUsed(prog, t.depths, n, d))
  }

  lemma UsedOn(prog: seq<Inst>, depths: seq<nat>, n: nat, d: nat, e: nat)
    requires |depths| == n && LevelUsed(prog, depths, n, d)
    ensures LevelUsed(prog, depths + [e], n + 1, d)
  {
    var b: nat :| b < n && b < |prog| && b < |depths| && prog[b].StartOpen? && depths[b] == d;
    assert (depths + [e])[b] == d;
  }

  lemma UsedStep(prog: seq<Inst>, max: nat, t: Table, n: nat)
    requires n < |prog| && LevelsUsed(prog, t, n)
    ensures LevelsUsed(prog, Place(prog, max, t, n), n + 1)
  {
    var t1 := Place(prog, max, t, n);
    var e := t1.depths[n];
    assert t1.depths == t.depths + [e];
    var base := MaxDepth(prog, t.depths, n, n);
    MaxDepthBounds(prog, t.depths, n, n);
    forall i: nat | LevelUsed(prog, t.depths, n, i)
      ensures LevelUsed(prog, t1.depths, n + 1, i)
    {
      UsedOn(prog, t.depths, n, i, e);
    }
    var m := n + 1;
    forall w: nat, i: nat | w < m && 1 <= i <= t1.depths[w]
      ensures LevelUsed(prog, t1.depths, m, i)
    {
      if w < n {
        assert LevelUsed(prog, t.depths, n, i);
      } else {
        UsedUpto(prog, max, t, n, i);
      }
    }
    if prog[n].StartOpen? {
      assert LevelUsed(prog, t1.depths, n + 1, e);
      var free := FirstFree(t.roundType, prog[n].gf2n, base + 1);
      UsedUpto(prog, max, t, n, free);
    }
  }

  /** Every level up to that of instruction n has an opening once n is placed. */
  lemma UsedUpto(prog: seq<Inst>, max: nat, t: Table, n: nat, i: nat)
    requires n < |prog| && LevelsUsed(prog, t, n) && 1 <= i <= Place(prog, max, t, n).depths[n]
    ensures LevelUsed(prog, Place(prog, max, t, n).depths, n + 1, i)
  {
    var t1 := Place(prog, max, t, n);
    var e, base := t1.depths[n], MaxDepth(prog, t.depths, n, n);
    assert t1.depths == t.depths + [e];
    MaxDepthBounds(prog, t.depths, n, n);
    if i == e && prog[n].StartOpen? {
      assert t1.depths[n] == i;
    } else {
      if i <= base {
        var w: nat :| w < n && DependsOn(prog, n, w) && t.depths[w] == base;
        assert LevelUsed(prog, t.depths, n, i);
      } else {
        var free := FirstFree(t.roundType, prog[n].gf2n, base + 1);
        assert if i < free then Reserved(t.roundType, i, prog[n].gf2n) else Full(t.parallel, max, i);
        assert LevelUsed(prog, t.depths, n, i);
      }
      UsedOn(prog, t.depths, n, i, e);
    }
  }

  lemma {:induction false} AllLevelsUsed(prog: seq<Inst>, max: nat, n: nat)
    requires n <= |prog|
    ensures LevelsUsed(prog, Placed(prog, max, n), n)
    decreases n
  {
    if n > 0 {
      AllLevelsUsed(prog, max, n - 1);
      UsedStep(prog, max, Placed(prog, max, n - 1), n - 1);
    }
  }

  // ---------- which field a level is for ----------

  /** Some opening among the first n instructions has depth d and is not in the given field. */
  ghost predicate UsedByOther(prog: seq<Inst>, depths: seq<nat>, n: nat, d: nat, gf2n: bool) {
    exists b: nat :: b < n && b < |prog| && b < |depths| && prog[b].StartOpen? && prog[b].gf2n != gf2n && depths[b] == d
  }

  lemma OthersStep(prog: seq<Inst>, depths: seq<nat>, n: nat, d: nat, gf2n: bool)
    requires n < |prog| && n < |depths|
    ensures UsedByOther(prog, depths, n + 1, d, gf2n) <==>
      UsedByOther(prog, depths, n, d, gf2n) || (prog[n].StartOpen? && prog[n].gf2n != gf2n && depths[n] == d)
  {}

  /** Without a limit an opening reserves the level that it goes to, which was not reserved for the other field. */
  lemma PlacedUnlimited(prog: seq<Inst>, n: nat)
    requires n < |prog|
    ensures var r, r1, d := Placed(prog, 0, n).roundType, Placed(prog, 0, n + 1).roundType, Depths(prog, 0)[n];
      if prog[n].StartOpen? then !Reserved(r, d, prog[n].gf2n) && r1 == r[d := prog[n].gf2n] else r1 == r
  {
    DepthAt(prog, 0, n);
    var t := Placed(prog, 0, n);
    assert Placed(prog, 0, n + 1) == PlaceAt(prog, 0, t, n, MaxDepth(prog, t.depths, n, n));
  }

  ghost predicate Reserves(prog: seq<Inst>, depths: seq<nat>, r: nat -> map<nat, bool>, k: nat) {
    k < |prog| == |depths| ==>
      if prog[k].StartOpen? then
        !Reserved(r(k), depths[k], prog[k].gf2n) && r(k + 1) == r(k)[depths[k] := prog[k].gf2n]
      else r(k + 1) == r(k)
  }

  lemma {:induction false} ReservedBy(prog: seq<Inst>, depths: seq<nat>, r: nat -> map<nat, bool>, n: nat, d: nat,
                                      gf2n: bool)
    requires n <= |prog| == |depths| && r(0) == map[] && forall k: nat :: Reserves(prog, depths, r, k)
    ensures Reserved(r(n), d, gf2n) <==> UsedByOther(prog, depths, n, d, gf2n)
  {
    if n > 0 {
      ReservedBy(prog, depths, r, n - 1, d, gf2n);
      OthersStep(prog, depths, n - 1, d, gf2n);
      assert Reserves(prog, depths, r, n - 1);
      if prog[n - 1].StartOpen? {
        ReservedBy(prog, depths, r, n - 1, d, prog[n - 1].gf2n);
      }
    }
  }

  ghost function ReservedAt(prog: seq<Inst>): nat -> map<nat, bool> {
    (k: nat) => if k <= |prog| then Placed(prog, 0, k).roundType else map[]
  }

  lemma StepReserves(prog: seq<Inst>, k: nat)
    ensures Reserves(prog, Depths(prog, 0), ReservedAt(prog), k)
  {
    if k < |prog| {
      PlacedUnlimited(prog, k);
    }
  }

  /** Without a limit a level is reserved exactly if an opening of the other field is on it. */
  lemma ReservedAsUsed(prog: seq<Inst>, n: nat, d: nat, gf2n: bool)
    requires n <= |prog|
    ensures Reserved(Placed(prog, 0, n).roundType, d, gf2n) <==> UsedByOther(prog, Depths(prog, 0), n, d, gf2n)
  {
    var r := ReservedAt(prog);
    forall k: nat
      ensures Reserves(prog, Depths(prog, 0), r, k)
    {
      StepReserves(prog, k);
    }
    ReservedBy(prog, Depths(prog, 0), r, n, d, gf2n);
  }

  /** Without a limit an opening goes to the first level above what it depends on that no earlier one of
      the other field is on. */
  lemma OpensFirst(prog: seq<Inst>, n: nat)
    requires n < |prog| && prog[n].StartOpen?
    ensures var depths, gf2n := Depths(prog, 0), prog[n].gf2n;
      && Base(prog, 0, n) < depths[n] && !UsedByOther(prog, depths, n, depths[n], gf2n)
      && forall d: nat :: Base(prog, 0, n) < d < depths[n] ==> UsedByOther(prog, depths, n, d, gf2n)
  {
    DepthAt(prog, 0, n);
    ReservedAsUsed(prog, n, Depths(prog, 0)[n], prog[n].gf2n);
    forall d: nat | Base(prog, 0, n) < d < Depths(prog, 0)[n]
      ensures UsedByOther(prog, Depths(prog, 0), n, d, prog[n].gf2n)
    {
      ReservedAsUsed(prog, n, d, prog[n].gf2n);
    }
  }

  /** So no level has openings of both fields. */
  lemma FieldsApart(prog: seq<Inst>, n: nat, m: nat)
    requires n < m < |prog| && prog[n].StartOpen? && prog[m].StartOpen? && Depths(prog, 0)[n] == Depths(prog, 0)[m]
    ensures prog[n].gf2n == prog[m].gf2n
  {
    OpensFirst(prog, m);
  }

  /** Three openings in two fields, none of which depends on another. */
  function Mixing(): seq<Inst> {
    [StartOpen(false, [0, 1]), StartOpen(true, [2]), StartOpen(false, [3])]
  }

  lemma NothingBefore(depths: seq<nat>, n: nat)
    requires n < 3 && n <= |depths|
    ensures MaxDepth(Mixing(), depths, n, n) == 0
  {
    forall i: nat
      ensures !DependsOn(Mixing(), n, i)
    {}
    MaxDepthIs(Mixing(), depths, n, 0);
  }

  /** The levels that are found are the first ones. */
  lemma PlacedOn(prog: seq<Inst>, max: nat, t: Table, n: nat, base: nat, free: nat, d: nat)
    requires n < |prog| && |t.depths| == n && prog[n].StartOpen? && base < free <= d
    requires !Reserved(t.roundType, free, prog[n].gf2n) && !Full(t.parallel, max, d)
    requires forall i :: base < i < free ==> Reserved(t.roundType, i, prog[n].gf2n)
    requires forall i :: free <= i < d ==> Full(t.parallel, max, i)
    ensures PlaceAt(prog, max, t, n, base) == Table(t.depths + [d], t.roundType[free := prog[n].gf2n],
                                                    t.parallel[d := Opened(t.parallel, d) + |prog[n].uses|])
  {
    assert FirstFree(t.roundType, prog[n].gf2n, base + 1) == free;
    assert FirstRoom(t.parallel, max, free) == d;
  }

  lemma PlacedNext(prog: seq<Inst>, max: nat, t: Table, n: nat, free: nat, d: nat)
    requires n < |prog| && prog[n].StartOpen? && 0 < free <= d
    requires Placed(prog, max, n) == t && MaxDepth(prog, t.depths, n, n) == 0
    requires !Reserved(t.roundType, free, prog[n].gf2n) && !Full(t.parallel, max, d)
    requires forall i :: 0 < i < free ==> Reserved(t.roundType, i, prog[n].gf2n)
    requires forall i :: free <= i < d ==> Full(t.parallel, max, i)
    ensures Placed(prog, max, n + 1) == Table(t.depths + [d], t.roundType[free := prog[n].gf2n],
                                              t.parallel[d := Opened(t.parallel, d) + |prog[n].uses|])
  {
    PlacedOn(prog, max, t, n, 0, free, d);
    assert Placed(prog, max, n + 1) == Place(prog, max, t, n);
  }

  /** With a limit a level may have both: the third opening finds no room on the first level, and the
      field of the next one is not looked at again. */
  lemma LimitMixes()
    ensures Depths(Mixing(), 2) == [1, 2, 2]
  {
    var prog := Mixing();
    forall n: nat, depths: seq<nat> | n < 3 && n <= |depths|
      ensures MaxDepth(prog, depths, n, n) == 0
    {
      NothingBefore(depths, n);
    }
    PlacedNext(prog, 2, Table([], map[], map[]), 0, 1, 1);
    PlacedNext(prog, 2, Table([1], map[1 := false], map[1 := 2]), 1, 2, 2);
    PlacedNext(prog, 2, Table([1, 2], map[1 := false, 2 := true], map[1 := 2, 2 := 1]), 2, 1, 2);
  }

  // ---------- one field and no limit ----------

  /** All openings are in one field. */
  predicate OneField(prog: seq<Inst>, gf2n: bool) {
    forall i :: 0 <= i < |prog| && prog[i].StartOpen? ==> prog[i].gf2n == gf2n
  }

  lemma {:induction false} NothingReserved(prog: seq<Inst>, max: nat, gf2n: bool, n: nat)
    requires n <= |prog| && OneField(prog, gf2n)
    ensures forall d :: d in Placed(prog, max, n).roundType ==> Placed(prog, max, n).roundType[d] == gf2n
    decreases n
  {
    if n > 0 {
      NothingReserved(prog, max, gf2n, n - 1);
    }
  }

  /** Then every opening is one level below what it depends on. */
  lemma OpeningNext(prog: seq<Inst>, gf2n: bool, n: nat)
    requires n < |prog| && prog[n].StartOpen? && OneField(prog, gf2n) && Depths(prog, 0)[n] > 1
    ensures exists i: nat :: DependsOn(prog, n, i) && Depths(prog, 0)[i] == Depths(prog, 0)[n] - 1
  {
    DepthAt(prog, 0, n);
    NothingReserved(prog, 0, gf2n, n);
    var t := Placed(prog, 0, n);
    assert !Reserved(t.roundType, Base(prog, 0, n) + 1, gf2n);
    MaxDepthBounds(prog, Depths(prog, 0), n, n);
  }

  // ---------- levels and chains of openings ----------

  /** Every instruction of the list depends on the one before it. */
  ghost predicate DependsAlong(prog: seq<Inst>, p: seq<nat>) {
    && p != [] && (forall k :: 0 <= k < |p| ==> p[k] < |prog|)
    && forall k :: 0 <= k < |p| - 1 ==> DependsOn(prog, p[k + 1], p[k])
  }

  /** The number of openings among the instructions. */
  function StartsIn(prog: seq<Inst>, p: seq<nat>): nat
    requires forall k :: 0 <= k < |p| ==> p[k] < |prog|
  {
    if p == [] then 0 else
      StartsIn(prog, p[..|p| - 1]) + if prog[p[|p| - 1]].StartOpen? then 1 else 0
  }

  lemma DependsOnward(prog: seq<Inst>, p: seq<nat>, n: nat)
    requires DependsAlong(prog, p) && DependsOn(prog, n, p[|p| - 1])
    ensures DependsAlong(prog, p + [n])
    ensures StartsIn(prog, p + [n]) == StartsIn(prog, p) + if prog[n].StartOpen? then 1 else 0
  {
    var q := p + [n];
    assert q[..|q| - 1] == p;
    forall k | 0 <= k < |q| - 1
      ensures DependsOn(prog, q[k + 1], q[k])
    {
      if k < |p| - 1 {
        assert DependsOn(prog, p[k + 1], p[k]);
      }
    }
  }

  /** An instruction is on no lower level than a chain to it has openings, whatever fields and limit. */
  lemma {:induction false} ChainFits(prog: seq<Inst>, max: nat, p: seq<nat>)
    requires DependsAlong(prog, p)
    ensures StartsIn(prog, p) <= Depths(prog, max)[p[|p| - 1]]
    decreases |p|
  {
    var n := |p| - 1;
    DepthAt(prog, max, p[n]);
    if n > 0 {
      var q := p[..n];
      assert DependsAlong(prog, q) by {
        forall k | 0 <= k < |q| - 1
          ensures DependsOn(prog, q[k + 1], q[k])
        {
          assert DependsOn(prog, p[k + 1], p[k]);
        }
      }
      ChainFits(prog, max, q);
      assert DependsOn(prog, p[n - 1 + 1], p[n - 1]);
      DepthsRise(prog, max, p[n], p[n - 1]);
    } else {
      assert p[..0] == [];
    }
  }

  /** With one field and no limit, the level is the number of openings of some chain, so that no order
      that keeps the dependencies gets by with fewer rounds. */
  lemma {:induction false} ChainReaches(prog: seq<Inst>, gf2n: bool, n: nat) returns (p: seq<nat>)
    requires OneField(prog, gf2n) && n < |prog|
    ensures DependsAlong(prog, p) && p[|p| - 1] == n && StartsIn(prog, p) == Depths(prog, 0)[n]
    decreases n
  {
    var d, own := Depths(prog, 0)[n], if prog[n].StartOpen? then 1 else 0;
    if d > own {
      var i := Deepest(prog, gf2n, n);
      p := ChainReaches(prog, gf2n, i);
      DependsOnward(prog, p, n);
      p := p + [n];
    } else {
      DepthAt(prog, 0, n);
      p := [n];
      assert p[..0] == [];
    }
  }

  /** What an instruction waits for longest. */
  lemma Deepest(prog: seq<Inst>, gf2n: bool, n: nat) returns (i: nat)
    requires OneField(prog, gf2n) && n < |prog|
    requires Depths(prog, 0)[n] > if prog[n].StartOpen? then 1 else 0
    ensures i < n && DependsOn(prog, n, i)
    ensures Depths(prog, 0)[i] == Depths(prog, 0)[n] - if prog[n].StartOpen? then 1 else 0
  {
    if prog[n].StartOpen? {
      OpeningNext(prog, gf2n, n);
      var k: nat :| DependsOn(prog, n, k) && Depths(prog, 0)[k] == Depths(prog, 0)[n] - 1;
      i := k;
    } else {
      i := DeepestOther(prog, n);
    }
  }

  lemma DeepestOther(prog: seq<Inst>, n: nat) returns (i: nat)
    requires n < |prog| && !prog[n].StartOpen? && Depths(prog, 0)[n] > 0
    ensures i < n && DependsOn(prog, n, i) && Depths(prog, 0)[i] == Depths(prog, 0)[n]
  {
    var depths := Depths(prog, 0);
    DepthAt(prog, 0, n);
    assert depths[n] == MaxDepth(prog, depths, n, n);
    MaxDepthBounds(prog, depths, n, n);
    var k: nat :| k < n && DependsOn(prog, n, k) && depths[k] == MaxDepth(prog, depths, n, n);
    i := k;
  }
}
