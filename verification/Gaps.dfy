/**
 When compute_preorder of Compiler/allocator.py fails: it visits every level up to the deepest
 opening that is left, and finds no opening on a level that dead code elimination has emptied.
 */
module Gaps {
  import opened Blocks
  import opened Graph
  import opened Levels
  import opened Dependencies
  import opened DeadCode
  import opened Merging

  ghost predicate OpenAt(prog: seq<Inst>, depths: seq<nat>, left: set<nat>, d: nat)
    requires |depths| == |prog|
  {
    exists a: nat :: IsOpen(prog, left, a) && depths[a] == d
  }

  /** Every level up to that of an opening that is left has an opening that is left. */
  ghost predicate NoGaps(prog: seq<Inst>, depths: seq<nat>, left: set<nat>)
    requires |depths| == |prog|
  {
    forall a: nat, i: nat :: IsOpen(prog, left, a) && 1 <= i <= depths[a] ==> OpenAt(prog, depths, left, i)
  }

  /** The test in the program. */
  lemma GapsAndMerges(prog: seq<Inst>, depths: seq<nat>, left: set<nat>, merges: map<nat, nat>, maxDepth: nat)
    requires |depths| == |prog| && MergesOk(prog, depths, left, merges, maxDepth)
    ensures NoGaps(prog, depths, left) <==> forall i :: 1 <= i <= maxDepth ==> i in merges
  {
    if forall i :: 1 <= i <= maxDepth ==> i in merges {
      forall a: nat, i: nat | IsOpen(prog, left, a) && 1 <= i <= depths[a]
        ensures OpenAt(prog, depths, left, i)
      {
        assert depths[a] in merges && merges[depths[a]] < |prog|;
        assert i in merges && IsOpen(prog, left, merges[i]);
      }
    }
    if NoGaps(prog, depths, left) {
      forall i: nat | 1 <= i <= maxDepth
        ensures i in merges
      {
        assert IsOpen(prog, left, merges[maxDepth]);
        assert OpenAt(prog, depths, left, i);
      }
    }
  }

  /** Elimination has removed openings from level i, and all of them, but not all above. */
  ghost predicate Emptied(prog: seq<Inst>, depths: seq<nat>, left: set<nat>, i: nat)
    requires |depths| == |prog|
  {
    && !OpenAt(prog, depths, left, i)
    && (exists a: nat :: a < |prog| && prog[a].StartOpen? && a !in left && depths[a] == i)
    && exists b: nat :: IsOpen(prog, left, b) && depths[b] > i
  }

  /** The pass fails exactly if elimination empties a level below a surviving opening: every level had openings. */
  lemma GapIsEmptied(prog: seq<Inst>, max: nat, left: set<nat>)
    ensures NoGaps(prog, Depths(prog, max), left) <==> forall i: nat :: !Emptied(prog, Depths(prog, max), left, i)
  {
    var depths := Depths(prog, max);
    AllLevelsUsed(prog, max, |prog|);
    forall a: nat, i: nat | IsOpen(prog, left, a) && 1 <= i <= depths[a] && !OpenAt(prog, depths, left, i)
      ensures Emptied(prog, depths, left, i)
    {
      assert LevelUsed(prog, depths, |prog|, i);
      var b: nat :| b < |prog| && prog[b].StartOpen? && depths[b] == i;
      assert b !in left && depths[a] != i;
    }
    forall i: nat | Emptied(prog, depths, left, i)
      ensures !NoGaps(prog, depths, left)
    {
      var a: nat :| a < |prog| && prog[a].StartOpen? && a !in left && depths[a] == i;
      var b: nat :| IsOpen(prog, left, b) && depths[b] > i;
      OpeningsDeep(prog, max, a);
    }
  }

  lemma {:induction false} NothingRemoved(prog: seq<Inst>, i: nat)
    requires i <= |prog|
    ensures Live(prog, {}, i) == Below(|prog|)
    decreases |prog| - i
  {
    if i < |prog| {
      NothingRemoved(prog, i + 1);
    }
  }

  /** Without elimination there are no gaps, whatever the limit. */
  lemma NoRemovalNoGaps(prog: seq<Inst>, max: nat)
    ensures NoGaps(prog, Depths(prog, max), Survivors(prog, {}))
  {
    NothingRemoved(prog, 0);
    GapIsEmptied(prog, max, Survivors(prog, {}));
  }

  /** The openings that v depends on, and so on: one on every level, if all are in one field and there is no limit. */
  lemma {:induction false} FindOpen(prog: seq<Inst>, gf2n: bool, elim: set<nat>, v: nat, i: nat)
    requires OpensPaired(prog) && OneField(prog, gf2n) && v in Survivors(prog, elim) && 1 <= i <= Depths(prog, 0)[v]
    ensures OpenAt(prog, Depths(prog, 0), Survivors(prog, elim), i)
    decreases v
  {
    var depths, left := Depths(prog, 0), Survivors(prog, elim);
    if prog[v].StartOpen? && depths[v] == i {
      assert IsOpen(prog, left, v);
    } else {
      if prog[v].StartOpen? {
        OpeningNext(prog, gf2n, v);
      } else {
        DepthInherited(prog, 0, v);
      }
      var u: nat :| DependsOn(prog, v, u) && i <= depths[u];
      SurvivorsClosed(prog, elim, u, v);
      FindOpen(prog, gf2n, elim, u, i);
    }
  }

  lemma OneFieldNoGaps(prog: seq<Inst>, gf2n: bool, elim: set<nat>)
    requires OpensPaired(prog) && OneField(prog, gf2n)
    ensures NoGaps(prog, Depths(prog, 0), Survivors(prog, elim))
  {
    forall a: nat, i: nat | IsOpen(prog, Survivors(prog, elim), a) && 1 <= i <= Depths(prog, 0)[a]
      ensures OpenAt(prog, Depths(prog, 0), Survivors(prog, elim), i)
    {
      FindOpen(prog, gf2n, elim, a, i);
    }
  }

  /** Two ways to avoid the failure. */
  lemma WhenNoGaps(prog: seq<Inst>, max: nat, elim: set<nat>)
    requires OpensPaired(prog)
    ensures elim == {} ==> NoGaps(prog, Depths(prog, max), Survivors(prog, elim))
    ensures max == 0 && (OneField(prog, false) || OneField(prog, true)) ==>
      NoGaps(prog, Depths(prog, max), Survivors(prog, elim))
  {
    if elim == {} {
      NoRemovalNoGaps(prog, max);
    }
    if max == 0 && OneField(prog, false) {
      OneFieldNoGaps(prog, false, elim);
    } else if max == 0 && OneField(prog, true) {
      OneFieldNoGaps(prog, true, elim);
    }
  }

  // ---------- a block that fails ----------

  /** Two openings in different fields, the first unused. */
  function Failing(): seq<Inst> {
    [StartOpen(false, [0]), StopOpen([1]), StartOpen(true, [2]), StopOpen([3]), StoreMem(3, 0, 7)]
  }

  lemma FailingPending()
    ensures Pending(Failing(), 1) == [0] && Pending(Failing(), 2) == [] && Pending(Failing(), 3) == [2]
    ensures Pending(Failing(), 4) == [] && Pending(Failing(), 5) == []
  {
    var p := Failing();
    assert Pending(p, 0) == [];
    assert Pending(p, 1) == [] + [0];
    assert Pending(p, 2) == [0][1..];
    assert Pending(p, 3) == [] + [2];
    assert Pending(p, 4) == [2][1..];
  }

  lemma FailingRegisters()
    ensures DefinesOnce(Failing()) && UsesAfterDefinition(Failing())
  {
    var p := Failing();
    forall i, j | 0 <= i < j < |p|
      ensures DefsApart(p[i], p[j])
    {
    }
    forall i, j | 0 <= i <= j < |p|
      ensures UsesApart(p[i], p[j])
    {
    }
  }

  lemma FailingIsValid()
    ensures ValidBlock(Failing())
  {
    var p := Failing();
    FailingPending();
    FailingRegisters();
    forall n | 0 <= n < |p|
      ensures PairedAt(p, n)
    {
    }
  }

  lemma FailingFirst()
    ensures Depths(Failing(), 0)[0] == 1 && Placed(Failing(), 0, 2).roundType == map[1 := false]
  {
    var p := Failing();
    DepthAt(p, 0, 0);
    assert Base(p, 0, 0) == 0;
    var t0 := Placed(p, 0, 0);
    assert FirstFree(t0.roundType, false, 1) == 1 && FirstRoom(t0.parallel, 0, 1) == 1;
    assert Placed(p, 0, 1).roundType == map[1 := false];
  }

  /** The second opening depends on nothing, but the first level is reserved for the other field. */
  lemma FailingSecond()
    ensures Depths(Failing(), 0)[2] == 2
  {
    var p := Failing();
    FailingFirst();
    DepthAt(p, 0, 2);
    MaxDepthBounds(p, Depths(p, 0), 2, 2);
    assert Base(p, 0, 2) == 0;
    var t := Placed(p, 0, 2);
    assert Reserved(t.roundType, 1, true) && !Reserved(t.roundType, 2, true);
    assert FirstFree(t.roundType, true, 1) == 2;
  }

  lemma FirstIsDead()
    ensures 0 !in Survivors(Failing(), {1})
  {
    var p := Failing();
    FailingPending();
    forall w: nat
      ensures !DependsOn(p, w, 1)
    {
    }
    LiveStays(p, {1}, 1, 1);
    assert StopsStart(p, 1, 0) && 1 !in Live(p, {1}, 1);
    LiveStays(p, {1}, 0, 0);
  }

  lemma SecondIsLive()
    ensures 2 in Survivors(Failing(), {1})
  {
    var p := Failing();
    FailingPending();
    LiveStays(p, {1}, 3, 3);
    forall t: nat | StopsStart(p, t, 2)
      ensures t == 3
    {
    }
    LiveStays(p, {1}, 0, 2);
  }

  lemma OnlyOpenings(left: set<nat>, depths: seq<nat>, a: nat)
    requires |depths| == 5 && 0 !in left && IsOpen(Failing(), left, a)
    ensures a == 2
  {
  }

  /** A block without a limit on openings where the pass fails, so the two conditions are needed. */
  lemma FailingHasGap()
    ensures ValidBlock(Failing()) && !NoGaps(Failing(), Depths(Failing(), 0), Survivors(Failing(), {1}))
  {
    FailingIsValid();
    FailingFirst();
    FailingSecond();
    FirstIsDead();
    SecondIsLive();
    var depths, left := Depths(Failing(), 0), Survivors(Failing(), {1});
    forall a: nat | IsOpen(Failing(), left, a)
      ensures depths[a] != 1
    {
      OnlyOpenings(left, depths, a);
    }
    assert IsOpen(Failing(), left, 2) && !OpenAt(Failing(), depths, left, 1);
  }
}
