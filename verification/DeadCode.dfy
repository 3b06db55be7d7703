/**
 eliminate_dead_code of Compiler/allocator.py: going backwards, removes instructions whose results
 nobody uses, and openings whose stops have been removed; and what the block computes without them.
 */
module DeadCode {
  import opened Sequences
  import opened Schedule
  import opened Blocks
  import opened Graph
  import opened Dependencies
  import opened Queues

  // ---------- which instructions are removed ----------

  /** No result of v is used by an instruction that is left, or v is an opening without its stop. The set elim
      has the instructions all of whose results may be eliminated. */
  ghost predicate Unused(prog: seq<Inst>, succ: Lists, stopOf: map<nat, nat>, elim: set<nat>, left: set<nat>, v: nat)
    requires v < |prog|
  {
    || (Defs(prog[v]) != [] && v in elim && forall w: nat :: Edge(succ, v, w) ==> w !in left)
    || (v in stopOf && stopOf[v] !in left)
  }

  /** The instructions from i on that are left are exactly those that are not unused. */
  ghost predicate LeftFrom(prog: seq<Inst>, succ: Lists, stopOf: map<nat, nat>, elim: set<nat>, left: set<nat>,
                           i: nat) {
    && (forall v: nat :: v in left ==> v < |prog|)
    && (forall v: nat :: v < i && v < |prog| ==> v in left)
    && (forall v: nat :: i <= v < |prog| ==> DroppedOrUsed(prog, succ, stopOf, elim, left, v))
  }

  ghost predicate DroppedOrUsed(prog: seq<Inst>, succ: Lists, stopOf: map<nat, nat>, elim: set<nat>, left: set<nat>,
                                v: nat)
    requires v < |prog|
  {
    v !in left <==> Unused(prog, succ, stopOf, elim, left, v)
  }

  /** succ1 has the edges of succ between the nodes that are left. */
  ghost predicate Cut(succ: Lists, succ1: Lists, left: set<nat>) {
    |succ1| == |succ| && forall v: nat, w: nat :: Edge(succ1, v, w) <==> Edge(succ, v, w) && v in left && w in left
  }

  lemma LeftStep(prog: seq<Inst>, succ: Lists, depths: seq<nat>, stopOf: map<nat, nat>, elim: set<nat>, left: set<nat>,
                 i: nat, drop: bool)
    requires i < |prog| && EdgesOk(prog, succ, depths, |prog|) && StopsOk(prog, stopOf, |prog|) && OpensPaired(prog)
    requires LeftFrom(prog, succ, stopOf, elim, left, i + 1) && (drop <==> Unused(prog, succ, stopOf, elim, left, i))
    ensures LeftFrom(prog, succ, stopOf, elim, if drop then left - {i} else left, i)
  {
    var left1 := if drop then left - {i} else left;
    forall v: nat | i <= v < |prog|
      ensures DroppedOrUsed(prog, succ, stopOf, elim, left1, v)
    {
      assert v == i || DroppedOrUsed(prog, succ, stopOf, elim, left, v);
      forall w: nat | Edge(succ, v, w)
        ensures w !in left <==> w !in left1
      {
        assert EdgeOk(prog, depths, v, w);
      }
      if v in stopOf {
        assert PairedAt(prog, stopOf[v]);
      }
    }
  }

  method EliminateDeadCode(prog: seq<Inst>, G: SparseDiGraph, ghost depths: seq<nat>, stopOf: map<nat, nat>,
                           elim: set<nat>) returns (left: set<nat>)
    requires G.Valid() && EdgesOk(prog, G.succ, depths, |prog|) && StopsOk(prog, stopOf, |prog|) && OpensPaired(prog)
    modifies G
    ensures G.Valid() && Cut(old(G.succ), G.succ, left)
    ensures LeftFrom(prog, old(G.succ), stopOf, elim, left, 0)
  {
    left := Below(|prog|);
    var i := |prog|;
    forall v: nat, w: nat | Edge(G.succ, v, w)
      ensures v in left && w in left
    {
      assert EdgeOk(prog, depths, v, w);
    }
    while i > 0
      invariant 0 <= i <= |prog| && G.Valid() && Cut(old(G.succ), G.succ, left)
      invariant LeftFrom(prog, old(G.succ), stopOf, elim, left, i)
    {
      i := i - 1;
      var unusedResult := G.succ[i] == [] && Defs(prog[i]) != [] && i in elim;
      var unusedStart := i in stopOf && stopOf[i] !in left;
      NoSuccessors(old(G.succ), G.succ, left, i);
      LeftStep(prog, old(G.succ), depths, stopOf, elim, left, i, unusedResult || unusedStart);
      if unusedResult || unusedStart {
        assert !Edge(G.succ, i, i) by {
          assert !EdgeOk(prog, depths, i, i);
        }
        G.RemoveNode(i);
        left := left - {i};
      }
    }
  }

  lemma NoSuccessors(succ: Lists, succ1: Lists, left: set<nat>, i: nat)
    requires Cut(succ, succ1, left) && i in left && i < |succ|
    ensures succ1[i] == [] <==> forall w: nat :: Edge(succ, i, w) ==> w !in left
  {
    if succ1[i] != [] {
      assert Edge(succ1, i, succ1[i][0]);
    }
    forall w: nat | Edge(succ, i, w) && w in left
      ensures succ1[i] != []
    {
      assert Edge(succ1, i, w);
    }
  }

  // ---------- what is left ----------

  /** What depends on a removed instruction is removed. */
  ghost predicate Closed(succ: Lists, left: set<nat>) {
    forall v: nat, w: nat :: Edge(succ, v, w) && w in left ==> v in left
  }

  /** The attribute stop of the openings that are left. */
  ghost predicate StopsPaired(prog: seq<Inst>, stopOf: map<nat, nat>, left: set<nat>) {
    forall a: nat :: a in left && a < |prog| && prog[a].StartOpen? ==> StopOfOk(prog, stopOf, left, a)
  }

  predicate StopOfOk(prog: seq<Inst>, stopOf: map<nat, nat>, left: set<nat>, a: nat) {
    a in stopOf && stopOf[a] in left && StopsStart(prog, stopOf[a], a)
  }

  /** t is the stop of opening a. */
  predicate StopsStart(prog: seq<Inst>, t: nat, a: nat) {
    t < |prog| && prog[t].StopOpen? && StartOf(prog, t) == a
  }

  lemma LeftIsClosed(prog: seq<Inst>, succ: Lists, depths: seq<nat>, stopOf: map<nat, nat>, elim: set<nat>,
                     left: set<nat>)
    requires EdgesOk(prog, succ, depths, |prog|) && StopsOk(prog, stopOf, |prog|) && OpensPaired(prog)
    requires LeftFrom(prog, succ, stopOf, elim, left, 0)
    ensures Closed(succ, left) && StopsPaired(prog, stopOf, left)
  {
    forall v: nat, w: nat | Edge(succ, v, w) && w in left
      ensures v in left
    {
      assert EdgeOk(prog, depths, v, w) && DroppedOrUsed(prog, succ, stopOf, elim, left, v);
      if v in stopOf {
        assert PairedAt(prog, stopOf[v]);
        SameStop(prog, w, stopOf[v]);
      }
    }
    forall a: nat | a in left && a < |prog| && prog[a].StartOpen?
      ensures StopOfOk(prog, stopOf, left, a)
    {
      assert DroppedOrUsed(prog, succ, stopOf, elim, left, a);
      assert a !in Pending(prog, |prog|);
    }
  }

  lemma SameStop(prog: seq<Inst>, s: nat, t: nat)
    requires OpensPaired(prog) && s < |prog| && t < |prog| && prog[s].StopOpen? && prog[t].StopOpen?
      && StartOf(prog, s) == StartOf(prog, t)
    ensures s == t
  {
    if s < t {
      StartsDiffer(prog, s, t);
    } else if t < s {
      StartsDiffer(prog, t, s);
    }
  }

  lemma {:induction false} PathLeft(succ: Lists, left: set<nat>, p: seq<nat>)
    requires Closed(succ, left) && IsPath(succ, p) && p != [] && p[|p| - 1] in left
    ensures forall k :: 0 <= k < |p| ==> p[k] in left
    decreases |p|
  {
    var n := |p| - 1;
    if n > 0 {
      assert Edge(succ, p[n - 1], p[n - 1 + 1]);
      var q := p[..n];
      forall k | 0 <= k < |q| - 1
        ensures Edge(succ, q[k], q[k + 1])
      {
        assert Edge(succ, p[k], p[k + 1]);
      }
      PathLeft(succ, left, q);
    }
  }

  /** Paths between what is left survive. */
  lemma ReachLeft(succ: Lists, succ1: Lists, left: set<nat>, v: nat, w: nat)
    requires Closed(succ, left) && Cut(succ, succ1, left) && Reach(succ, v, w) && w in left
    ensures v in left && Reach(succ1, v, w)
  {
    var p: seq<nat> :| |p| >= 2 && p[0] == v && p[|p| - 1] == w && IsPath(succ, p);
    PathLeft(succ, left, p);
    forall k | 0 <= k < |p| - 1
      ensures Edge(succ1, p[k], p[k + 1])
    {
      assert Edge(succ, p[k], p[k + 1]);
    }
    assert IsPath(succ1, p);
  }

  // ---------- what is left, as a function of the block ----------

  /** Nothing in left depends on v, whose results may be eliminated; or v is an opening without its stop. */
  ghost predicate Dead(prog: seq<Inst>, elim: set<nat>, left: set<nat>, v: nat)
    requires v < |prog|
  {
    || (Defs(prog[v]) != [] && v in elim && forall w: nat :: DependsOn(prog, w, v) ==> w !in left)
    || (prog[v].StartOpen? && exists t: nat :: StopsStart(prog, t, v) && t !in left)
  }

  /** What is left when the instructions from i on have been visited, from the last one back. */
  ghost function Live(prog: seq<Inst>, elim: set<nat>, i: nat): (r: set<nat>)
    requires i <= |prog|
    ensures forall v: nat :: v in r ==> v < |prog|
    ensures forall v: nat :: v < i ==> v in r
    decreases |prog| - i
  {
    if i == |prog| then Below(|prog|) else
      var l := Live(prog, elim, i + 1);
      if Dead(prog, elim, l, i) then l - {i} else l
  }

  /** The instructions that dead code elimination leaves. */
  ghost function Survivors(prog: seq<Inst>, elim: set<nat>): set<nat> {
    Live(prog, elim, 0)
  }

  /** Later visits decide about v once. */
  lemma {:induction false} LiveStays(prog: seq<Inst>, elim: set<nat>, i: nat, v: nat)
    requires i <= v < |prog|
    ensures v in Live(prog, elim, i) <==> !Dead(prog, elim, Live(prog, elim, v + 1), v)
    decreases v - i
  {
    if i < v {
      LiveStays(prog, elim, i + 1, v);
    }
  }

  lemma LiveAgrees(prog: seq<Inst>, elim: set<nat>, i: nat, j: nat, w: nat)
    requires i <= j <= w < |prog|
    ensures w in Live(prog, elim, i) <==> w in Live(prog, elim, j)
  {
    LiveStays(prog, elim, i, w);
    LiveStays(prog, elim, j, w);
  }

  /** What a survivor depends on survives. */
  lemma SurvivorsClosed(prog: seq<Inst>, elim: set<nat>, v: nat, w: nat)
    requires OpensPaired(prog) && DependsOn(prog, w, v) && w in Survivors(prog, elim)
    ensures v in Survivors(prog, elim)
  {
    LiveStays(prog, elim, 0, v);
    LiveAgrees(prog, elim, 0, v + 1, w);
    if prog[v].StartOpen? {
      DependsKinds(prog, w, v);
      forall t: nat | StopsStart(prog, t, v)
        ensures t == w
      {
        SameStop(prog, t, w);
      }
    }
  }

  /** Every started opening is pending or has been stopped. */
  lemma {:induction false} StartedOrStopped(prog: seq<Inst>, n: nat, s: nat)
    requires n <= |prog| && s < n && prog[s].StartOpen? && OpensPaired(prog)
    ensures s in Pending(prog, n) || exists t: nat :: t < n && StopsStart(prog, t, s)
    decreases n
  {
    var q := Pending(prog, n);
    if s == n - 1 {
      assert q[|q| - 1] == s;
    } else {
      StartedOrStopped(prog, n - 1, s);
      var p := Pending(prog, n - 1);
      if k :| 0 <= k < |p| && p[k] == s {
        StillPending(prog, n - 1, k);
        assert s in q || StopsStart(prog, n - 1, s);
      }
    }
  }

  /** Every opening has a stop. */
  lemma HasStop(prog: seq<Inst>, s: nat)
    requires s < |prog| && prog[s].StartOpen? && OpensPaired(prog)
    ensures exists t: nat :: s < t && StopsStart(prog, t, s)
  {
    StartedOrStopped(prog, |prog|, s);
    assert s !in Pending(prog, |prog|);
    var t: nat :| t < |prog| && StopsStart(prog, t, s);
    assert PairedAt(prog, t);
  }

  /** What is left is closed under dependencies, and openings are left with their stops. */
  ghost predicate Whole(prog: seq<Inst>, left: set<nat>) {
    && (forall v: nat :: v in left ==> v < |prog|)
    && (forall v: nat, w: nat :: DependsOn(prog, w, v) && w in left ==> v in left)
    && (forall a: nat :: a in left && prog[a].StartOpen? ==> exists t: nat :: StopsStart(prog, t, a) && t in left)
  }

  lemma SurvivorsWhole(prog: seq<Inst>, elim: set<nat>)
    requires OpensPaired(prog)
    ensures Whole(prog, Survivors(prog, elim))
  {
    var left := Survivors(prog, elim);
    forall v: nat, w: nat | DependsOn(prog, w, v) && w in left
      ensures v in left
    {
      SurvivorsClosed(prog, elim, v, w);
    }
    forall a: nat | a in left && prog[a].StartOpen?
      ensures exists t: nat :: StopsStart(prog, t, a) && t in left
    {
      HasStop(prog, a);
      var t: nat :| a < t && StopsStart(prog, t, a);
      LiveStays(prog, elim, 0, a);
      LiveAgrees(prog, elim, 0, a + 1, t);
    }
  }

  lemma EverythingWhole(prog: seq<Inst>)
    requires OpensPaired(prog)
    ensures Whole(prog, Below(|prog|))
  {
    forall a: nat | a in Below(|prog|) && prog[a].StartOpen?
      ensures exists t: nat :: StopsStart(prog, t, a) && t in Below(|prog|)
    {
      HasStop(prog, a);
    }
  }

  /** Something that is left depends on v exactly if an edge leads there. */
  lemma UsedByEdge(prog: seq<Inst>, succ: Lists, depths: seq<nat>, left: set<nat>, v: nat)
    requires EdgesOk(prog, succ, depths, |prog|) && Covered(prog, succ, |prog|) && Closed(succ, left)
    ensures (exists w: nat :: Edge(succ, v, w) && w in left) <==> exists w: nat :: DependsOn(prog, w, v) && w in left
  {
    if w: nat :| Edge(succ, v, w) && w in left {
      assert EdgeOk(prog, depths, v, w);
    }
    if w: nat :| DependsOn(prog, w, v) && w in left {
      assert Reach(succ, v, w);
      var p: seq<nat> :| |p| >= 2 && p[0] == v && p[|p| - 1] == w && IsPath(succ, p);
      PathLeft(succ, left, p);
      assert Edge(succ, p[0], p[0 + 1]);
    }
  }

  /** Elimination on the graph leaves the survivors of the block. */
  lemma {:induction false} LeftIsLive(prog: seq<Inst>, succ: Lists, depths: seq<nat>, stopOf: map<nat, nat>,
                                      elim: set<nat>, left: set<nat>, i: nat)
    requires Analysed(prog, succ, depths, stopOf) && OpensPaired(prog) && Closed(succ, left) && i <= |prog|
    requires LeftFrom(prog, succ, stopOf, elim, left, 0)
    ensures forall v: nat :: i <= v ==> (v in left <==> v in Live(prog, elim, i))
    decreases |prog| - i
  {
    if i < |prog| {
      LeftIsLive(prog, succ, depths, stopOf, elim, left, i + 1);
      UnusedIsDead(prog, succ, depths, stopOf, elim, left, Live(prog, elim, i + 1), i);
      assert DroppedOrUsed(prog, succ, stopOf, elim, left, i);
    }
  }

  lemma UnusedIsDead(prog: seq<Inst>, succ: Lists, depths: seq<nat>, stopOf: map<nat, nat>, elim: set<nat>,
                     left: set<nat>, l: set<nat>, i: nat)
    requires Analysed(prog, succ, depths, stopOf) && OpensPaired(prog) && Closed(succ, left) && i < |prog|
    requires forall v: nat :: i < v ==> (v in left <==> v in l)
    ensures Unused(prog, succ, stopOf, elim, left, i) <==> Dead(prog, elim, l, i)
  {
    UsedByEdge(prog, succ, depths, left, i);
    if i in stopOf {
      assert PairedAt(prog, stopOf[i]);
      forall t: nat | StopsStart(prog, t, i)
        ensures t == stopOf[i]
      {
        SameStop(prog, t, stopOf[i]);
      }
    } else {
      assert i !in Pending(prog, |prog|);
    }
  }

  // ---------- what the block computes ----------

  /** The instructions below k that are left, in program order. */
  function LeftUpto(left: set<nat>, k: nat): (r: seq<nat>)
    ensures forall v: nat :: v in r <==> v < k && v in left
    ensures Ascending(r)
    decreases k
  {
    if k == 0 then [] else
      var p := LeftUpto(left, k - 1);
      assert forall v: nat :: v in p + [k - 1] <==> v in p || v == k - 1;
      assert forall i :: 0 <= i < |p| ==> p[i] in p;
      if k - 1 in left then p + [k - 1] else p
  }

  /** A removed instruction below k would have written l. */
  ghost predicate DeadOut(prog: seq<Inst>, left: set<nat>, k: nat, l: Loc)
    requires k <= |prog|
  {
    exists i: nat :: i < k && i !in left && l in Encode(prog, i).outs
  }

  ghost predicate AgreeLeft<V(!new)>(M: Machine<V>, prog: seq<Inst>, left: set<nat>, k: nat, s: Store<V>, t: Store<V>)
    requires k <= |prog|
  {
    forall l: Loc :: !DeadOut(prog, left, k, l) ==> Get(M, s, l) == Get(M, t, l)
  }

  lemma ReadsLive(prog: seq<Inst>, left: set<nat>, j: nat, i: nat)
    requires ValidBlock(prog) && Whole(prog, left) && i < j < |prog| && j in left && i !in left
    ensures Independent(Encode(prog, i), Encode(prog, j))
  {
    assert !DependsOn(prog, j, i);
    IndependentOrDepends(prog, i, j);
  }

  /** What a live instruction reads has not been written by a removed one. */
  lemma ReadsAgree<V(!new)>(M: Machine<V>, prog: seq<Inst>, left: set<nat>, j: nat, s: Store<V>, t: Store<V>)
    requires ValidBlock(prog) && Whole(prog, left) && j < |prog| && j in left
    requires AgreeLeft(M, prog, left, j, s, t)
    ensures Read(M, s, Encode(prog, j).ins) == Read(M, t, Encode(prog, j).ins)
  {
    var ins := Encode(prog, j).ins;
    forall k | 0 <= k < |ins|
      ensures Get(M, s, ins[k]) == Get(M, t, ins[k])
    {
      forall i: nat | i < j && i !in left
        ensures ins[k] !in Encode(prog, i).outs
      {
        ReadsLive(prog, left, j, i);
      }
      assert !DeadOut(prog, left, j, ins[k]);
    }
  }

  /** Runs the instructions below k that are left. */
  function RunLeft<V>(M: Machine<V>, prog: seq<Inst>, left: set<nat>, s: Store<V>, k: nat): Store<V>
    requires k <= |prog|
    decreases k
  {
    if k == 0 then s else
      var t := RunLeft(M, prog, left, s, k - 1);
      if k - 1 in left then Do(M, t, Encode(prog, k - 1)) else t
  }

  lemma {:induction false} RunLeftIsRun<V>(M: Machine<V>, prog: seq<Inst>, left: set<nat>, s: Store<V>, k: nat)
    requires k <= |prog|
    ensures InProgram(Steps(prog), LeftUpto(left, k))
      && Run(M, s, Steps(prog), LeftUpto(left, k)) == RunLeft(M, prog, left, s, k)
    decreases k
  {
    InLeft(prog, left, k);
    if k > 0 {
      RunLeftIsRun(M, prog, left, s, k - 1);
      RunLast(M, s, Steps(prog), LeftUpto(left, k - 1), k - 1);
    }
  }

  /** Without the removed instructions, everything else is computed as before. */
  lemma {:induction false} LeftComputes<V(!new)>(M: Machine<V>, prog: seq<Inst>, left: set<nat>, s: Store<V>, k: nat)
    requires ValidBlock(prog) && Whole(prog, left) && k <= |prog|
    ensures AgreeLeft(M, prog, left, k, RunLeft(M, prog, Below(|prog|), s, k), RunLeft(M, prog, left, s, k))
    decreases k
  {
    if k > 0 {
      var j := k - 1;
      LeftComputes(M, prog, left, s, j);
      var x := Encode(prog, j);
      var sa, sb := RunLeft(M, prog, Below(|prog|), s, j), RunLeft(M, prog, left, s, j);
      if j in left {
        ReadsAgree(M, prog, left, j, sa, sb);
        LiveStep(M, prog, left, j, sa, sb, M.sem(x.op, Read(M, sa, x.ins)));
      } else {
        DeadStep(M, prog, left, j, sa, sb, M.sem(x.op, Read(M, sa, x.ins)));
      }
    }
  }

  lemma InLeft(prog: seq<Inst>, left: set<nat>, k: nat)
    requires k <= |prog|
    ensures InProgram(Steps(prog), LeftUpto(left, k)) && InProgram(prog, LeftUpto(left, k))
  {
    var r := LeftUpto(left, k);
    forall i | 0 <= i < |r|
      ensures r[i] < k
    {
      assert r[i] in r;
    }
  }

  lemma RunLast<V>(M: Machine<V>, s: Store<V>, prog: seq<Step>, a: seq<nat>, j: nat)
    requires j < |prog| && InProgram(prog, a)
    ensures InProgram(prog, a + [j]) && Run(M, s, prog, a + [j]) == Do(M, Run(M, s, prog, a), prog[j])
  {
    RunConcat(M, s, prog, a, [j]);
    assert [j][1..] == [];
  }

  lemma LiveStep<V(!new)>(M: Machine<V>, prog: seq<Inst>, left: set<nat>, j: nat, s: Store<V>, t: Store<V>, vs: seq<V>)
    requires j < |prog| && j in left && AgreeLeft(M, prog, left, j, s, t)
    ensures AgreeLeft(M, prog, left, j + 1, Write(M, s, Encode(prog, j).outs, vs),
                      Write(M, t, Encode(prog, j).outs, vs))
  {
    var outs := Encode(prog, j).outs;
    forall l: Loc | !DeadOut(prog, left, j + 1, l)
      ensures Get(M, Write(M, s, outs, vs), l) == Get(M, Write(M, t, outs, vs), l)
    {
      assert !DeadOut(prog, left, j, l);
      WriteAgrees(M, s, t, outs, vs, l);
    }
  }

  lemma DeadStep<V(!new)>(M: Machine<V>, prog: seq<Inst>, left: set<nat>, j: nat, s: Store<V>, t: Store<V>, vs: seq<V>)
    requires j < |prog| && j !in left && AgreeLeft(M, prog, left, j, s, t)
    ensures AgreeLeft(M, prog, left, j + 1, Write(M, s, Encode(prog, j).outs, vs), t)
  {
    var outs := Encode(prog, j).outs;
    forall l: Loc | !DeadOut(prog, left, j + 1, l)
      ensures Get(M, Write(M, s, outs, vs), l) == Get(M, t, l)
    {
      assert !DeadOut(prog, left, j, l);
      assert l !in outs;
      WriteElsewhere(M, s, outs, vs, l);
    }
  }

  // ---------- program order is a queue order ----------

  lemma ProgramOrderInTurn(prog: seq<Inst>, left: set<nat>)
    requires OpensPaired(prog) && Whole(prog, left)
    ensures AllInTurn(prog, LeftUpto(left, |prog|)) && NoDuplicates(LeftUpto(left, |prog|))
  {
    var order := LeftUpto(left, |prog|);
    InLeft(prog, left, |prog|);
    forall k | 0 <= k < |order|
      ensures StopInTurn(prog, order, k)
    {
      var t := order[k];
      assert t in order;
      if prog[t].StopOpen? {
        var s := StartOf(prog, t);
        assert PairedAt(prog, t) && DependsOn(prog, t, s) && s in order;
        SmallerIsBefore(order, s, k);
        forall a: nat | a < |prog| && prog[a].StartOpen? && Before(order, a, s)
          ensures Stopped(prog, order[..k], a)
        {
          assert a in order && a < s;
          var u: nat :| StopsStart(prog, u, a) && u in left;
          if t < u {
            StartsDiffer(prog, t, u);
          }
          assert u < t;
          SmallerIsBefore(order, u, k);
          var j :| 0 <= j < |order[..k]| && order[..k][j] == u;
        }
      }
    }
  }

  lemma SmallerIsBefore(order: seq<nat>, v: nat, k: nat)
    requires Ascending(order) && k < |order| && v in order && v < order[k]
    ensures v in order[..k]
  {
    var j :| 0 <= j < |order| && order[j] == v;
  }

  /** Nothing is pending at the end. */
  lemma AllStopped(prog: seq<Inst>, left: set<nat>, order: seq<nat>)
    requires OpensPaired(prog) && Whole(prog, left) && AllInTurn(prog, order) && NoDuplicates(order)
    requires forall v: nat :: v in order <==> v in left
    ensures PendingAlong(prog, order, |order|) == []
  {
    var p := PendingAlong(prog, order, |order|);
    InTurnPending(prog, order, |order|);
    assert order[..|order|] == order;
    forall a: nat | a in left && prog[a].StartOpen?
      ensures Stopped(prog, order, a)
    {
      var t: nat :| StopsStart(prog, t, a) && t in left;
      var j :| 0 <= j < |order| && order[j] == t;
    }
    assert forall a: nat :: a !in p;
    if p != [] {
      HasMember(p);
      assert false;
    }
  }

  lemma HasMember(p: seq<nat>)
    requires p != []
    ensures exists a: nat :: a in p
  {
    assert p[0] in p;
  }
}
