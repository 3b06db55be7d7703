/**
 The new order of a block: what a topological order of the merged graph means for the instructions
 in the groups, and that the merged instructions do what their parts did.
 */
module Reordering {
  import opened Sequences
  import opened Schedule
  import opened Blocks
  import opened Graph
  import opened Dependencies
  import opened Merging
  import opened Queues
  import opened DeadCode

  // ---------- the instructions behind an order of nodes ----------

  function Expand(groups: Lists, order: seq<nat>): seq<nat>
    requires AreNodes(|groups|, order)
    decreases |order|
  {
    if order == [] then [] else groups[order[0]] + Expand(groups, order[1..])
  }

  /** v comes before w: in the same group by number, in different groups by the order of the nodes. */
  predicate InOrder(rep: seq<nat>, order: seq<nat>, v: nat, w: nat) {
    v < |rep| && w < |rep| && if rep[v] == rep[w] then v < w else Before(order, rep[v], rep[w])
  }

  predicate Placed(rep: seq<nat>, order: seq<nat>, v: nat) {
    v < |rep| && rep[v] in order
  }

  lemma BeforeTail(order: seq<nat>, v: nat, w: nat)
    requires order != [] && Before(order[1..], v, w)
    ensures Before(order, v, w)
  {
    var k, l :| 0 <= k < l < |order[1..]| && order[1..][k] == v && order[1..][l] == w;
    assert order[k + 1] == v && order[l + 1] == w;
  }

  lemma {:induction false} ExpandPlaced(groups: Lists, rep: seq<nat>, order: seq<nat>, p: nat)
    requires Partition(groups, rep) && AreNodes(|groups|, order) && p < |Expand(groups, order)|
    ensures Placed(rep, order, Expand(groups, order)[p])
    ensures Expand(groups, order)[p] in groups[rep[Expand(groups, order)[p]]]
    decreases |order|
  {
    var h := groups[order[0]];
    assert GroupOk(groups, rep, order[0]);
    if p >= |h| {
      ExpandPlaced(groups, rep, order[1..], p - |h|);
    }
  }

  lemma {:induction false} ExpandSorted(groups: Lists, rep: seq<nat>, order: seq<nat>, p: nat, q: nat)
    requires Partition(groups, rep) && AreNodes(|groups|, order) && NoDuplicates(order)
      && p < q < |Expand(groups, order)|
    ensures InOrder(rep, order, Expand(groups, order)[p], Expand(groups, order)[q])
    decreases |order|
  {
    var h, e := groups[order[0]], Expand(groups, order);
    var rest := order[1..];
    assert GroupOk(groups, rep, order[0]);
    if p >= |h| {
      ExpandSorted(groups, rep, rest, p - |h|, q - |h|);
      if rep[e[p]] != rep[e[q]] {
        BeforeTail(order, rep[e[p]], rep[e[q]]);
      }
    } else if q >= |h| {
      ExpandPlaced(groups, rep, rest, q - |h|);
      var l :| 0 <= l < |rest| && rest[l] == rep[e[q]];
      assert order[0] == rep[e[p]] && order[l + 1] == rep[e[q]];
    }
  }

  lemma {:induction false} ExpandMembers(groups: Lists, rep: seq<nat>, order: seq<nat>, v: nat)
    requires Partition(groups, rep) && AreNodes(|groups|, order) && v < |rep| && rep[v] < |groups|
      && v in groups[rep[v]] && rep[v] in order
    ensures v in Expand(groups, order)
    decreases |order|
  {
    var h := groups[order[0]];
    if rep[v] != order[0] {
      assert order == [order[0]] + order[1..];
      ExpandMembers(groups, rep, order[1..], v);
    }
  }

  lemma ExpandDistinct(groups: Lists, rep: seq<nat>, order: seq<nat>)
    requires Partition(groups, rep) && AreNodes(|groups|, order) && NoDuplicates(order)
    ensures NoDuplicates(Expand(groups, order))
  {
    var e := Expand(groups, order);
    forall p, q | 0 <= p < q < |e|
      ensures e[p] != e[q]
    {
      ExpandSorted(groups, rep, order, p, q);
    }
  }

  // ---------- dependencies are kept ----------

  /** A path of the original graph is a path of the merged one. */
  lemma ReachMerged(succ0: Lists, succ: Lists, rank: nat -> Rank, groups: Lists, rep: seq<nat>, v: nat, w: nat)
    requires Merged(succ0, succ, rank, groups, rep) && Reach(succ0, v, w)
    ensures v < |rep| && w < |rep| && Reach(succ, rep[v], rep[w])
  {
    var p: seq<nat> :| |p| >= 2 && p[0] == v && p[|p| - 1] == w && IsPath(succ0, p);
    assert Edge(succ0, p[|p| - 2], p[|p| - 2 + 1]) && Edge(succ0, p[0], p[0 + 1]);
    forall k | 0 <= k < |p|
      ensures p[k] < |rep|
    {
      if k < |p| - 1 {
        assert Edge(succ0, p[k], p[k + 1]);
      }
    }
    var q := seq(|p|, k requires 0 <= k < |p| => rep[p[k]]);
    forall k | 0 <= k < |q| - 1
      ensures Edge(succ, q[k], q[k + 1])
    {
      assert Edge(succ0, p[k], p[k + 1]);
    }
    assert q[0] == rep[v] && q[|q| - 1] == rep[w];
  }

  lemma ReachIsBefore(succ: Lists, order: seq<nat>, v: nat, w: nat)
    requires IsTopological(succ, order) && v in order && Reach(succ, v, w)
    ensures Before(order, v, w)
  {
    var i :| 0 <= i < |order| && order[i] == v;
    ReachOrder(succ, order, i, w);
    var j :| 0 <= j < |order[i + 1..]| && order[i + 1..][j] == w;
    assert order[i + 1 + j] == w;
  }

  /** Dependent instructions that have not been eliminated are connected. */
  ghost predicate LeftCovered(prog: seq<Inst>, succ: Lists, left: set<nat>) {
    forall i: nat, j: nat :: i in left && j in left && DependsOn(prog, j, i) ==> Reach(succ, i, j)
  }

  /** Instructions that changed places do not depend on each other. */
  lemma ExpandRespects(prog: seq<Inst>, succ0: Lists, succ: Lists, rank: nat -> Rank, groups: Lists, rep: seq<nat>,
                       left: set<nat>, order: seq<nat>)
    requires ValidBlock(prog) && |prog| == |rep| && Merged(succ0, succ, rank, groups, rep)
    requires LeftCovered(prog, succ0, left) && GroupsHold(groups, rep, left) && IsTopological(succ, order)
    ensures Respects(Steps(prog), Expand(groups, order))
  {
    var e := Expand(groups, order);
    forall p | 0 <= p < |e|
      ensures e[p] < |prog|
    {
      ExpandPlaced(groups, rep, order, p);
    }
    forall p, q | 0 <= p < q < |e| && e[q] < e[p]
      ensures Independent(Steps(prog)[e[q]], Steps(prog)[e[p]])
    {
      SwappedIndependent(prog, succ0, succ, rank, groups, rep, left, order, p, q);
    }
  }

  lemma SwappedIndependent(prog: seq<Inst>, succ0: Lists, succ: Lists, rank: nat -> Rank, groups: Lists, rep: seq<nat>,
                           left: set<nat>, order: seq<nat>, p: nat, q: nat)
    requires ValidBlock(prog) && |prog| == |rep| && Merged(succ0, succ, rank, groups, rep)
    requires LeftCovered(prog, succ0, left) && GroupsHold(groups, rep, left) && IsTopological(succ, order)
    requires p < q < |Expand(groups, order)|
    ensures var i, j := Expand(groups, order)[q], Expand(groups, order)[p];
      i < |prog| && j < |prog| && (i < j ==> Independent(Encode(prog, i), Encode(prog, j)))
  {
    var i, j := Expand(groups, order)[q], Expand(groups, order)[p];
    ExpandPlaced(groups, rep, order, p);
    ExpandPlaced(groups, rep, order, q);
    ExpandSorted(groups, rep, order, p, q);
    if i < j {
      assert Before(order, rep[j], rep[i]);
      BeforeExcludes(order, rep[j], rep[i]);
      if DependsOn(prog, j, i) {
        assert Reach(succ0, i, j);
        ReachMerged(succ0, succ, rank, groups, rep, i, j);
        ReachIsBefore(succ, order, rep[i], rep[j]);
        assert false;
      }
      IndependentOrDepends(prog, i, j);
    }
  }

  // ---------- the openings stay in order ----------

  lemma BeforeExpanded(groups: Lists, rep: seq<nat>, order: seq<nat>, v: nat, w: nat)
    requires Partition(groups, rep) && AreNodes(|groups|, order) && NoDuplicates(order)
    requires Before(Expand(groups, order), v, w)
    ensures InOrder(rep, order, v, w) && Placed(rep, order, v) && Placed(rep, order, w)
  {
    var e := Expand(groups, order);
    var p, q :| 0 <= p < q < |e| && e[p] == v && e[q] == w;
    ExpandSorted(groups, rep, order, p, q);
    ExpandPlaced(groups, rep, order, p);
    ExpandPlaced(groups, rep, order, q);
  }

  /** What is in order comes out in order. */
  lemma ExpandedBefore(groups: Lists, rep: seq<nat>, order: seq<nat>, v: nat, w: nat)
    requires Partition(groups, rep) && AreNodes(|groups|, order) && NoDuplicates(order)
    requires v in Expand(groups, order) && w in Expand(groups, order) && InOrder(rep, order, v, w)
    ensures Before(Expand(groups, order), v, w)
  {
    var e := Expand(groups, order);
    var p :| 0 <= p < |e| && e[p] == v;
    var q :| 0 <= q < |e| && e[q] == w;
    if rep[v] != rep[w] {
      BeforeExcludes(order, rep[v], rep[w]);
    }
    if q < p {
      ExpandSorted(groups, rep, order, q, p);
    }
  }

  /** If one opening is started before another, then it is also stopped before it. */
  lemma StopsFollowStarts(prog: seq<Inst>, depths: seq<nat>, left: set<nat>, stopOf: map<nat, nat>, succ: Lists,
                          groups: Lists, rep: seq<nat>, order: seq<nat>, a: nat, b: nat)
    requires OpensPaired(prog) && StopsLeft(prog, depths, left, stopOf)
      && AllMerged(prog, depths, left, stopOf, succ, rep)
    requires Partition(groups, rep) && |rep| == |prog| == |succ| && GroupsHold(groups, rep, left)
      && IsTopological(succ, order)
    requires forall v :: 0 <= v < |rep| ==> SameRank(Ranks(prog, depths), rep, v)
    requires forall v: nat :: v in left && v < |rep| ==> rep[v] in order
    requires IsOpen(prog, left, a) && IsOpen(prog, left, b) && InOrder(rep, order, a, b)
    ensures a in stopOf && b in stopOf && InOrder(rep, order, stopOf[a], stopOf[b])
  {
    assert StopLeft(prog, depths, left, stopOf, a) && StopLeft(prog, depths, left, stopOf, b);
    var s, t := stopOf[a], stopOf[b];
    assert Together(prog, depths, stopOf, rep, a, b) && ChainLink(prog, depths, stopOf, succ, rep, true, a, b);
    assert ChainLink(prog, depths, stopOf, succ, rep, false, b, a);
    assert SameRank(Ranks(prog, depths), rep, a) && SameRank(Ranks(prog, depths), rep, b);
    if RankOf(prog, depths, a) == RankOf(prog, depths, b) {
      if t < s {
        StartsDiffer(prog, t, s);
      }
    } else {
      if Below2(RankOf(prog, depths, b), RankOf(prog, depths, a)) {
        ReachIsBefore(succ, order, rep[b], rep[a]);
        BeforeExcludes(order, rep[b], rep[a]);
        assert false;
      }
      ReachIsBefore(succ, order, rep[s], rep[t]);
      BeforeExcludes(order, rep[s], rep[t]);
    }
  }

  /** The new order stops the oldest opening first. */
  lemma ExpandInTurn(prog: seq<Inst>, depths: seq<nat>, left: set<nat>, stopOf: map<nat, nat>, succ0: Lists,
                     succ: Lists, groups: Lists, rep: seq<nat>, order: seq<nat>, k: nat)
    requires OpensPaired(prog) && StopsLeft(prog, depths, left, stopOf)
      && AllMerged(prog, depths, left, stopOf, succ, rep)
    requires |rep| == |prog| && GroupsHold(groups, rep, left) && IsTopological(succ, order)
    requires Merged(succ0, succ, Ranks(prog, depths), groups, rep) && LeftCovered(prog, succ0, left)
    requires forall v: nat :: v in left && v < |rep| ==> rep[v] in order
    requires forall v: nat :: v in left && v < |rep| && prog[v].StopOpen? ==> StartOf(prog, v) in left
    requires InProgram(prog, Expand(groups, order)) && k < |Expand(groups, order)|
    ensures StopInTurn(prog, Expand(groups, order), k)
  {
    var e := Expand(groups, order);
    var t := e[k];
    ExpandPlaced(groups, rep, order, k);
    if prog[t].StopOpen? {
      var s := StartOf(prog, t);
      assert PairedAt(prog, t) && t in left && s in left;
      ExpandDistinct(groups, rep, order);
      assert DependsOn(prog, t, s) && Reach(succ0, s, t);
      ReachMerged(succ0, succ, Ranks(prog, depths), groups, rep, s, t);
      ReachIsBefore(succ, order, rep[s], rep[t]);
      BeforeExcludes(order, rep[s], rep[t]);
      ExpandMembers(groups, rep, order, s);
      ExpandedBefore(groups, rep, order, s, t);
      BeforePlace(e, s, k);
      forall a: nat | a < |prog| && prog[a].StartOpen? && Before(e, a, s)
        ensures Stopped(prog, e[..k], a)
      {
        EarlierStopped(prog, depths, left, stopOf, succ, groups, rep, order, k, a);
      }
    }
  }

  lemma BeforePlace(e: seq<nat>, v: nat, k: nat)
    requires NoDuplicates(e) && k < |e| && Before(e, v, e[k])
    ensures v in e[..k]
  {
  }

  lemma EarlierStopped(prog: seq<Inst>, depths: seq<nat>, left: set<nat>, stopOf: map<nat, nat>, succ: Lists,
                       groups: Lists, rep: seq<nat>, order: seq<nat>, k: nat, a: nat)
    requires OpensPaired(prog) && StopsLeft(prog, depths, left, stopOf)
      && AllMerged(prog, depths, left, stopOf, succ, rep)
    requires |rep| == |prog| == |succ| && GroupsHold(groups, rep, left) && IsTopological(succ, order)
      && Partition(groups, rep)
    requires forall v :: 0 <= v < |rep| ==> SameRank(Ranks(prog, depths), rep, v)
    requires forall v: nat :: v in left && v < |rep| ==> rep[v] in order
    requires InProgram(prog, Expand(groups, order)) && k < |Expand(groups, order)|
      && prog[Expand(groups, order)[k]].StopOpen?
    requires a < |prog| && prog[a].StartOpen? && StartOf(prog, Expand(groups, order)[k]) in left
    requires Before(Expand(groups, order), a, StartOf(prog, Expand(groups, order)[k]))
    ensures Stopped(prog, Expand(groups, order)[..k], a)
  {
    var e := Expand(groups, order);
    var t := e[k];
    var b := StartOf(prog, t);
    assert PairedAt(prog, t);
    ExpandPlaced(groups, rep, order, k);
    BeforeExpanded(groups, rep, order, a, b);
    InExpanded(groups, rep, order, left, a, b);
    StopsFollowStarts(prog, depths, left, stopOf, succ, groups, rep, order, a, b);
    assert StopLeft(prog, depths, left, stopOf, a) && StopLeft(prog, depths, left, stopOf, b);
    SameStop(prog, stopOf[b], t);
    ExpandMembers(groups, rep, order, stopOf[a]);
    ExpandedBefore(groups, rep, order, stopOf[a], t);
    ExpandDistinct(groups, rep, order);
    BeforePlace(e, stopOf[a], k);
    var j :| 0 <= j < |e[..k]| && e[..k][j] == stopOf[a];
  }

  lemma InExpanded(groups: Lists, rep: seq<nat>, order: seq<nat>, left: set<nat>, a: nat, b: nat)
    requires Partition(groups, rep) && AreNodes(|groups|, order) && GroupsHold(groups, rep, left)
    requires Before(Expand(groups, order), a, b)
    ensures a in left && b in left
  {
    var e := Expand(groups, order);
    var p, q :| 0 <= p < q < |e| && e[p] == a && e[q] == b;
    ExpandPlaced(groups, rep, order, p);
    ExpandPlaced(groups, rep, order, q);
  }

  // ---------- merged instructions ----------

  lemma RegsAppend(a: seq<nat>, b: seq<nat>)
    ensures Regs(a + b) == Regs(a) + Regs(b)
  {
  }

  lemma ReadAppend<V>(M: Machine<V>, s: Store<V>, a: seq<Loc>, b: seq<Loc>)
    ensures Read(M, s, a + b) == Read(M, s, a) + Read(M, s, b)
  {
  }

  /** Two openings of a field in one. */
  lemma StartsJoin<V(!new)>(M: Machine<V>, st: State<V>, g: bool, u: seq<nat>, v: seq<nat>)
    requires OpensEach(M)
    ensures Exec(M, Exec(M, st, StartOpen(g, u)), StartOpen(g, v)) == Exec(M, st, StartOpen(g, u + v))
  {
    RegsAppend(u, v);
    ReadAppend(M, st.store, Regs(u), Regs(v));
    var a, b := Read(M, st.store, Regs(u)), Read(M, st.store, Regs(v));
    assert OpensBoth(M, g, a, b);
    var x, y := M.sem(Opening(g), a), M.sem(Opening(g), b);
    assert st.queue + x + y == st.queue + (x + y);
  }

  lemma StopsJoin<V>(M: Machine<V>, st: State<V>, d: seq<nat>, e: seq<nat>)
    ensures Exec(M, Exec(M, st, StopOpen(d)), StopOpen(e)) == Exec(M, st, StopOpen(d + e))
  {
    RegsAppend(d, e);
    var q := st.queue;
    var n, m := Least(|d|, |q|), Least(|d + e|, |q|);
    WriteAppend(M, st.store, Regs(d), Regs(e), q[..m]);
    assert Least(|Regs(d)|, |q[..m]|) == n && q[..m][..n] == q[..n];
    var k := Least(|e|, |q[n..]|);
    assert n + k == m && q[n..][..k] == q[..m][n..] && q[n..][k..] == q[m..];
  }

  /** A merged instruction does what the instructions of its group do one after the other. */
  lemma {:induction false} JoinedIsGroup<V(!new)>(M: Machine<V>, prog: seq<Inst>, st: State<V>, g: seq<nat>)
    requires OpensEach(M) && Mergeable(prog, g) && g != []
    ensures ExecAll(M, st, Along(prog, g)) == Exec(M, st, Joined(prog, g).inst)
    decreases |g|
  {
    var n := |g| - 1;
    if n == 0 {
      assert g == [g[0]];
      JoinedAlone(prog, g[0]);
      assert Along(prog, g) == [prog[g[0]]];
      ExecOne(M, st, prog[g[0]]);
    } else {
      var h, x := g[..n], g[n];
      assert g == h + [x] && h[0] == g[0];
      assert Mergeable(prog, h);
      JoinedIsGroup(M, prog, st, h);
      assert Along(prog, g) == Along(prog, h) + [prog[x]];
      ExecConcat(M, st, Along(prog, h), [prog[x]]);
      ExecOne(M, ExecAll(M, st, Along(prog, h)), prog[x]);
      JoinsLast(M, prog, st, h, x);
    }
  }

  /** The last instruction of a group joins the others. */
  lemma JoinsLast<V(!new)>(M: Machine<V>, prog: seq<Inst>, st: State<V>, h: seq<nat>, x: nat)
    requires OpensEach(M) && Mergeable(prog, h + [x]) && h != []
    ensures InProgram(prog, h) && x < |prog|
    ensures Exec(M, Exec(M, st, Joined(prog, h).inst), prog[x]) == Exec(M, st, Joined(prog, h + [x]).inst)
  {
    var g := h + [x];
    assert g[0] == h[0] && g[|h|] == x && forall k :: 0 <= k < |h| ==> h[k] == g[k];
    Appended(prog, h, x);
    if prog[g[0]].StartOpen? {
      assert prog[x].StartOpen? && prog[x].gf2n == prog[g[0]].gf2n;
      StartsJoin(M, st, prog[x].gf2n, AllUses(prog, h), prog[x].uses);
    } else {
      assert prog[g[0]].StopOpen? && prog[x].StopOpen?;
      StopsJoin(M, st, AllDefs(prog, h), prog[x].defs);
    }
  }

  /** The new list of instructions: the merged ones that are not gone, in the new order. */
  function Emit(insts: seq<Entry>, order: seq<nat>): seq<Inst>
    requires InProgram(insts, order)
    decreases |order|
  {
    if order == [] then [] else
      var rest := Emit(insts, order[1..]);
      match insts[order[0]]
      case Gone => rest
      case Is(x) => [x] + rest
  }

  lemma {:induction false} EmitIsExpand<V(!new)>(M: Machine<V>, prog: seq<Inst>, groups: Lists, insts: seq<Entry>,
                                                 order: seq<nat>, st: State<V>)
    requires OpensEach(M) && InstsOk(prog, groups, insts) && InProgram(prog, order)
    ensures InProgram(prog, Expand(groups, order))
    ensures ExecAll(M, st, Emit(insts, order)) == ExecAll(M, st, Along(prog, Expand(groups, order)))
    decreases |order|
  {
    if order != [] {
      var r, rest := order[0], order[1..];
      var g := groups[r];
      assert Mergeable(prog, g) && insts[r] == Joined(prog, g);
      EmitIsExpand(M, prog, groups, insts, rest, if g == [] then st else Exec(M, st, Joined(prog, g).inst));
      var e := Expand(groups, rest);
      assert Along(prog, g + e) == Along(prog, g) + Along(prog, e);
      ExecConcat(M, st, Along(prog, g), Along(prog, e));
      if g == [] {
        assert Along(prog, g) == [];
      } else {
        JoinedIsGroup(M, prog, st, g);
      }
    }
  }
}
