/**
 longest_paths_merge of Compiler/allocator.py: openings of the same depth and field are merged into
 one instruction, and so are their stops; edges keep the merged openings in the order of their
 depths; a topological sort gives the new order of the block.
 */
module Merging {
  import opened Sequences
  import opened Schedule
  import opened Blocks
  import opened Graph
  import opened Dependencies

  // ---------- ranks ----------

  /** Openings come first in their depth, then their stops, then everything else in program order. */
  function RankOf(prog: seq<Inst>, depths: seq<nat>, v: nat): Rank {
    if v >= |prog| || v >= |depths| then Rank(0, 0) else
      match prog[v]
      case StartOpen(g, _) => Rank(depths[v], if g then 1 else 0)
      case StopOpen(_) => var s := StartOf(prog, v);
        Rank(depths[v], if prog[s].StartOpen? && prog[s].gf2n then 3 else 2)
      case _ => Rank(depths[v], 4 + v)
  }

  function Ranks(prog: seq<Inst>, depths: seq<nat>): nat -> Rank {
    (v: nat) => RankOf(prog, depths, v)
  }

  /** The edges of the dependency graph go up in rank. */
  lemma EdgesRanked(prog: seq<Inst>, succ: Lists, depths: seq<nat>)
    requires EdgesOk(prog, succ, depths, |prog|) && OpensPaired(prog)
    ensures Ranked(succ, Ranks(prog, depths))
  {
    forall v: nat, w: nat | Edge(succ, v, w)
      ensures Below2(RankOf(prog, depths, v), RankOf(prog, depths, w))
    {
      assert EdgeOk(prog, depths, v, w) && PairedAt(prog, w);
    }
  }

  // ---------- the state while merging ----------

  /** Node r stands for the instructions of its group, which are in ascending order. */
  ghost predicate GroupOk(groups: Lists, rep: seq<nat>, r: nat)
    requires r < |groups| == |rep|
  {
    && Ascending(groups[r]) && (groups[r] != [] ==> groups[r][0] == r)
    && (forall k :: 0 <= k < |groups[r]| ==> groups[r][k] < |rep| && rep[groups[r][k]] == r)
  }

  /** Node v is in a group, or has been eliminated. */
  ghost predicate Represented(groups: Lists, rep: seq<nat>, v: nat)
    requires v < |groups| == |rep|
  {
    rep[v] < |groups| && (v in groups[rep[v]] || (rep[v] == v && groups[v] == []))
  }

  ghost predicate Partition(groups: Lists, rep: seq<nat>) {
    && |groups| == |rep|
    && forall v :: 0 <= v < |rep| ==> GroupOk(groups, rep, v) && Represented(groups, rep, v)
  }

  ghost predicate SameRank(rank: nat -> Rank, rep: seq<nat>, v: nat)
    requires v < |rep|
  {
    rank(rep[v]) == rank(v)
  }

  /** The graph succ on groups has an edge for every edge of the original graph succ0. */
  ghost predicate Merged(succ0: Lists, succ: Lists, rank: nat -> Rank, groups: Lists, rep: seq<nat>) {
    && |succ0| == |succ| == |rep| && WellFormed(succ0) && Partition(groups, rep) && Ranked(succ, rank)
    && (forall v :: 0 <= v < |rep| ==> SameRank(rank, rep, v))
    && (forall v: nat, w: nat :: Edge(succ0, v, w) ==> Edge(succ, rep[v], rep[w]))
    && (forall v: nat, w: nat :: Edge(succ, v, w) ==> BetweenGroups(groups, v, w))
  }

  predicate BetweenGroups(groups: Lists, v: nat, w: nat) {
    v < |groups| && w < |groups| && groups[v] != [] && groups[w] != []
  }

  /** The instructions in the groups are exactly those that are left. */
  ghost predicate GroupsHold(groups: Lists, rep: seq<nat>, left: set<nat>) {
    && |groups| == |rep|
    && forall v :: 0 <= v < |rep| ==> rep[v] < |rep| && (v in left <==> v in groups[rep[v]])
  }

  lemma HoldStep(groups: Lists, rep: seq<nat>, left: set<nat>, i: nat, j: nat)
    requires Partition(groups, rep) && GroupsHold(groups, rep, left) && i < |rep| && Alone(groups, j) && i != j
    ensures GroupsHold(groups[i := groups[i] + [j]][j := []], rep[j := i], left)
  {
    var g, r := groups[i := groups[i] + [j]][j := []], rep[j := i];
    assert GroupOk(groups, rep, j) && groups[j][0] == j;
    forall v | 0 <= v < |r|
      ensures r[v] < |r| && (v in left <==> v in g[r[v]])
    {
      OnlyMember(groups, rep, j, v);
      if v == j {
        assert g[i][|groups[i]|] == j;
      }
    }
  }

  /** The only member of its group. */
  predicate Alone(groups: Lists, v: nat) {
    v < |groups| && groups[v] == [v]
  }

  /** merge_nodes(i, j), where j is still alone and comes after all members of i. */
  lemma MergeStep(succ0: Lists, succ: Lists, succ1: Lists, rank: nat -> Rank, groups: Lists, rep: seq<nat>, i: nat,
                  j: nat)
    requires Merged(succ0, succ, rank, groups, rep) && i < |rep| && Alone(groups, j) && i != j && rank(i) == rank(j)
    requires groups[i] != [] && groups[i][|groups[i]| - 1] < j
    requires |succ1| == |succ| && forall v: nat, w: nat :: Edge(succ1, v, w) <==> Taken(succ, i, j, v, w)
    ensures Merged(succ0, succ1, rank, groups[i := groups[i] + [j]][j := []], rep[j := i])
  {
    MergePartition(groups, rep, i, j);
    forall v: nat, w: nat | Edge(succ1, v, w)
      ensures Below2(rank(v), rank(w)) && BetweenGroups(groups[i := groups[i] + [j]][j := []], v, w)
    {
      assert Edge(succ, v, w) || Edge(succ, j, w) || Edge(succ, v, j);
    }
    var rep1 := rep[j := i];
    assert GroupOk(groups, rep, j);
    assert rep[j] == j by {
      assert groups[j][0] == j;
    }
    forall v | 0 <= v < |rep1|
      ensures SameRank(rank, rep1, v)
    {
      assert SameRank(rank, rep, v);
    }
    forall v: nat, w: nat | Edge(succ0, v, w)
      ensures Edge(succ1, rep1[v], rep1[w])
    {
      EdgeFollows(succ0, succ, succ1, rank, groups, rep, i, j, v, w);
    }
  }

  lemma EdgeFollows(succ0: Lists, succ: Lists, succ1: Lists, rank: nat -> Rank, groups: Lists, rep: seq<nat>, i: nat,
                    j: nat, v: nat, w: nat)
    requires Merged(succ0, succ, rank, groups, rep) && i < |rep| && Alone(groups, j) && i != j && rank(i) == rank(j)
    requires |succ1| == |succ| && forall v: nat, w: nat :: Edge(succ1, v, w) <==> Taken(succ, i, j, v, w)
    requires Edge(succ0, v, w)
    ensures Edge(succ1, rep[j := i][v], rep[j := i][w])
  {
    assert GroupOk(groups, rep, j) && groups[j][0] == j;
    OnlyMember(groups, rep, j, v);
    OnlyMember(groups, rep, j, w);
    var a, b := rep[v], rep[w];
    assert Edge(succ, a, b);
    var a1, b1 := rep[j := i][v], rep[j := i][w];
    assert Taken(succ, i, j, a1, b1);
  }

  /** Nobody else is represented by a node that is alone. */
  lemma OnlyMember(groups: Lists, rep: seq<nat>, j: nat, v: nat)
    requires Partition(groups, rep) && Alone(groups, j) && v < |rep|
    ensures rep[v] == j <==> v == j
  {
    assert Represented(groups, rep, v) && GroupOk(groups, rep, j);
    assert groups[j][0] == j;
  }

  lemma MergePartition(groups: Lists, rep: seq<nat>, i: nat, j: nat)
    requires Partition(groups, rep) && i < |rep| && Alone(groups, j) && i != j
    requires groups[i] != [] && groups[i][|groups[i]| - 1] < j
    ensures Partition(groups[i := groups[i] + [j]][j := []], rep[j := i])
  {
    var g, r := groups[i := groups[i] + [j]][j := []], rep[j := i];
    assert GroupOk(groups, rep, j) && groups[j][0] == j;
    forall v | 0 <= v < |r|
      ensures GroupOk(g, r, v) && Represented(g, r, v)
    {
      assert GroupOk(groups, rep, v) && Represented(groups, rep, v);
      OnlyMember(groups, rep, j, v);
      if v == i {
        forall k | 0 <= k < |groups[i]|
          ensures groups[i][k] != j
        {
          OnlyMember(groups, rep, j, groups[i][k]);
        }
      } else if v != j {
        forall k | 0 <= k < |groups[v]|
          ensures groups[v][k] != j
        {
          OnlyMember(groups, rep, j, groups[v][k]);
        }
      }
      if v == j {
        assert g[i][|groups[i]|] == j;
      }
    }
  }

  // ---------- merged instructions ----------

  datatype Entry = Gone | Is(inst: Inst)

  function AllUses(prog: seq<Inst>, g: seq<nat>): seq<nat>
    requires InProgram(prog, g)
  {
    if g == [] then [] else AllUses(prog, g[..|g| - 1]) + Uses(prog[g[|g| - 1]])
  }

  function AllDefs(prog: seq<Inst>, g: seq<nat>): seq<nat>
    requires InProgram(prog, g)
  {
    if g == [] then [] else AllDefs(prog, g[..|g| - 1]) + Defs(prog[g[|g| - 1]])
  }

  /** The instruction that stands for a group: openings with all arguments joined. */
  function Joined(prog: seq<Inst>, g: seq<nat>): Entry
    requires InProgram(prog, g)
  {
    if g == [] then Gone else
      match prog[g[0]]
      case StartOpen(b, _) => Is(StartOpen(b, AllUses(prog, g)))
      case StopOpen(_) => Is(StopOpen(AllDefs(prog, g)))
      case x => Is(x)
  }

  /** All are openings of the field. */
  predicate AllStarts(prog: seq<Inst>, g: seq<nat>, gf2n: bool)
    requires InProgram(prog, g)
  {
    forall k :: 0 <= k < |g| ==> prog[g[k]].StartOpen? && prog[g[k]].gf2n == gf2n
  }

  /** A stop that belongs to an opening of the field. */
  predicate StopIn(prog: seq<Inst>, v: nat, gf2n: bool)
    requires v < |prog|
  {
    prog[v].StopOpen? && var s := StartOf(prog, v); (prog[s].StartOpen? && prog[s].gf2n) == gf2n
  }

  predicate AllStops(prog: seq<Inst>, g: seq<nat>, gf2n: bool)
    requires InProgram(prog, g)
  {
    forall k :: 0 <= k < |g| ==> StopIn(prog, g[k], gf2n)
  }

  /** Instructions that may share a group. */
  predicate Mergeable(prog: seq<Inst>, g: seq<nat>) {
    && InProgram(prog, g)
    && (AllStarts(prog, g, false) || AllStarts(prog, g, true) || AllStops(prog, g, false) || AllStops(prog, g, true)
        || |g| <= 1)
  }

  ghost predicate InstsOk(prog: seq<Inst>, groups: Lists, insts: seq<Entry>) {
    && |groups| == |insts| == |prog|
    && forall r :: 0 <= r < |groups| ==> Mergeable(prog, groups[r]) && insts[r] == Joined(prog, groups[r])
  }

  /** do_merge of two nodes: the second one's arguments are appended to the first one's. */
  function JoinArgs(x: Entry, y: Entry): Entry {
    if x.Is? && y.Is? && x.inst.StartOpen? && y.inst.StartOpen? then
      Is(StartOpen(x.inst.gf2n, x.inst.uses + y.inst.uses))
    else if x.Is? && y.Is? && x.inst.StopOpen? && y.inst.StopOpen? then Is(StopOpen(x.inst.defs + y.inst.defs))
    else x
  }

  predicate SameClass(prog: seq<Inst>, v: nat, w: nat)
    requires v < |prog| && w < |prog|
  {
    || (prog[v].StartOpen? && prog[w].StartOpen? && prog[v].gf2n == prog[w].gf2n)
    || (StopIn(prog, v, false) && StopIn(prog, w, false)) || (StopIn(prog, v, true) && StopIn(prog, w, true))
  }

  /** Two nodes of one rank are both openings of one field or both stops of such. */
  lemma RankKinds(prog: seq<Inst>, depths: seq<nat>, v: nat, w: nat)
    requires |depths| == |prog| && v < |prog| && w < |prog| && v != w
      && RankOf(prog, depths, v) == RankOf(prog, depths, w)
    ensures SameClass(prog, v, w)
  {
  }

  lemma Appended(prog: seq<Inst>, g: seq<nat>, j: nat)
    requires InProgram(prog, g) && j < |prog|
    ensures InProgram(prog, g + [j])
    ensures AllUses(prog, g + [j]) == AllUses(prog, g) + Uses(prog[j])
    ensures AllDefs(prog, g + [j]) == AllDefs(prog, g) + Defs(prog[j])
  {
    assert (g + [j])[..|g|] == g;
  }

  /** A node of the rank of a group can join it. */
  lemma SameRankMergeable(prog: seq<Inst>, depths: seq<nat>, g: seq<nat>, j: nat)
    requires |depths| == |prog| && Mergeable(prog, g) && g != [] && j < |prog| && j !in g
    requires forall k :: 0 <= k < |g| ==> RankOf(prog, depths, g[k]) == RankOf(prog, depths, j)
    ensures Mergeable(prog, g + [j])
    ensures Joined(prog, g + [j]) == JoinArgs(Joined(prog, g), Joined(prog, [j]))
  {
    forall k | 0 <= k < |g|
      ensures SameClass(prog, g[k], j)
    {
      RankKinds(prog, depths, g[k], j);
    }
    if prog[j].StartOpen? {
      assert AllStarts(prog, g + [j], prog[j].gf2n);
    } else {
      assert AllStops(prog, g + [j], StopIn(prog, j, true));
    }
    assert (prog[g[0]].StartOpen? && prog[j].StartOpen?) || (prog[g[0]].StopOpen? && prog[j].StopOpen?);
    JoinedAppend(prog, g, j);
  }

  lemma JoinedAppend(prog: seq<Inst>, g: seq<nat>, j: nat)
    requires InProgram(prog, g) && g != [] && j < |prog|
    requires (prog[g[0]].StartOpen? && prog[j].StartOpen?) || (prog[g[0]].StopOpen? && prog[j].StopOpen?)
    ensures InProgram(prog, g + [j]) && Joined(prog, g + [j]) == JoinArgs(Joined(prog, g), Joined(prog, [j]))
  {
    Appended(prog, g, j);
    JoinedAlone(prog, j);
    var h := g + [j];
    assert h[0] == g[0] && h != [];
  }

  /** What the merging works on. */
  ghost predicate Working(prog: seq<Inst>, depths: seq<nat>, succ0: Lists, succ: Lists, groups: Lists, rep: seq<nat>,
                          insts: seq<Entry>) {
    && |depths| == |prog| == |succ0| && Merged(succ0, succ, Ranks(prog, depths), groups, rep)
      && InstsOk(prog, groups, insts)
  }

  lemma WorkStep(prog: seq<Inst>, depths: seq<nat>, succ0: Lists, succ: Lists, succ1: Lists, groups: Lists,
                 rep: seq<nat>, insts: seq<Entry>, i: nat, j: nat)
    requires Working(prog, depths, succ0, succ, groups, rep, insts)
    requires i < |rep| && Alone(groups, j) && i != j && RankOf(prog, depths, i) == RankOf(prog, depths, j)
    requires groups[i] != [] && groups[i][|groups[i]| - 1] < j
    requires |succ1| == |succ| && forall v: nat, w: nat :: Edge(succ1, v, w) <==> Taken(succ, i, j, v, w)
    ensures Working(prog, depths, succ0, succ1, groups[i := groups[i] + [j]][j := []], rep[j := i],
                    insts[i := JoinArgs(insts[i], insts[j])][j := Gone])
  {
    MergeStep(succ0, succ, succ1, Ranks(prog, depths), groups, rep, i, j);
    var g := groups[i];
    assert GroupOk(groups, rep, i);
    forall k | 0 <= k < |g|
      ensures RankOf(prog, depths, g[k]) == RankOf(prog, depths, j)
    {
      assert SameRank(Ranks(prog, depths), rep, g[k]);
    }
    assert GroupOk(groups, rep, j) && groups[j][0] == j;
    SameRankMergeable(prog, depths, g, j);
    assert insts[i] == Joined(prog, g) && insts[j] == Joined(prog, [j]);
  }

  /** A path survives the merging of j into i if it does not end at j. */
  lemma ReachTaken(succ: Lists, succ1: Lists, rank: nat -> Rank, i: nat, j: nat, v: nat, w: nat)
    requires Ranked(succ, rank) && i != j && rank(i) == rank(j) && v != j && w != j
    requires |succ1| == |succ| && forall v: nat, w: nat :: Edge(succ1, v, w) <==> Taken(succ, i, j, v, w)
    requires Reach(succ, v, w)
    ensures Reach(succ1, v, w)
  {
    var p: seq<nat> :| |p| >= 2 && p[0] == v && p[|p| - 1] == w && IsPath(succ, p);
    var q := seq(|p|, k requires 0 <= k < |p| => if p[k] == j then i else p[k]);
    forall k | 0 <= k < |q| - 1
      ensures Edge(succ1, q[k], q[k + 1])
    {
      assert Edge(succ, p[k], p[k + 1]);
      assert Taken(succ, i, j, q[k], q[k + 1]);
    }
    assert IsPath(succ1, q) && q[0] == v && q[|q| - 1] == w;
  }

  /** What do_merge changes: the nodes of list are one group now, and nothing else has moved. */
  ghost predicate GroupFormed(list: seq<nat>, n: nat, groups: Lists, groups1: Lists, rep: seq<nat>, rep1: seq<nat>) {
    && n <= |list| && |groups1| == |groups| == |rep| == |rep1|
    && (forall k :: 0 <= k < |list| ==> list[k] < |groups|)
    && (forall v :: 0 <= v < |groups| ==>
          groups1[v] == if n > 0 && v == list[0] then list[..n] else if v in list[..n] then [] else groups[v])
    && (forall v :: 0 <= v < |rep| ==> rep1[v] == if v in list[..n] then list[0] else rep[v])
  }

  lemma GroupGrows(list: seq<nat>, n: nat, groups: Lists, g: Lists, rep: seq<nat>, r: seq<nat>)
    requires Ascending(list) && 1 <= n < |list| && GroupFormed(list, n, groups, g, rep, r)
    requires forall k :: 0 <= k < |list| ==> Alone(groups, list[k])
    ensures Alone(g, list[n]) && list[0] != list[n] && g[list[0]] == list[..n]
    ensures GroupFormed(list, n + 1, groups, g[list[0] := g[list[0]] + [list[n]]][list[n] := []], rep,
                        r[list[n] := list[0]])
  {
    assert list[..n + 1] == list[..n] + [list[n]];
    assert list[n] !in list[..n];
    assert list[0] == list[..n][0];
    assert list[0] in list[..n];
    var g1, r1 := g[list[0] := g[list[0]] + [list[n]]][list[n] := []], r[list[n] := list[0]];
    forall v | 0 <= v < |groups|
      ensures g1[v] == if v == list[0] then list[..n + 1] else if v in list[..n + 1] then [] else groups[v]
    {
    }
  }

  /** Not the first of the list. */
  predicate InTail(list: seq<nat>, v: nat) {
    exists k :: 0 < k < |list| && list[k] == v
  }

  /** Nodes that are not merged into another one still reach each other. */
  ghost predicate StillReach(succ: Lists, succ1: Lists, list: seq<nat>) {
    forall v: nat, w: nat :: Reach(succ, v, w) && !InTail(list, v) && !InTail(list, w) ==> Reach(succ1, v, w)
  }

  lemma StillReachStep(succ: Lists, succ1: Lists, succ2: Lists, rank: nat -> Rank, list: seq<nat>, n: nat)
    requires StillReach(succ, succ1, list) && 0 < n < |list| && list[0] != list[n] && rank(list[0]) == rank(list[n])
    requires Ranked(succ1, rank) && |succ2| == |succ1|
    requires forall v: nat, w: nat :: Edge(succ2, v, w) <==> Taken(succ1, list[0], list[n], v, w)
    ensures StillReach(succ, succ2, list)
  {
    forall v: nat, w: nat | Reach(succ, v, w) && !InTail(list, v) && !InTail(list, w)
      ensures Reach(succ2, v, w)
    {
      ReachTaken(succ1, succ2, rank, list[0], list[n], v, w);
    }
  }

  lemma CanMerge(list: seq<nat>, n: nat, groups: Lists, g: Lists, rep: seq<nat>, r: seq<nat>)
    requires Ascending(list) && 1 <= n < |list| && GroupFormed(list, n, groups, g, rep, r)
    requires forall k :: 0 <= k < |list| ==> Alone(groups, list[k])
    ensures Alone(g, list[n]) && list[0] != list[n] && list[0] < |g|
    ensures g[list[0]] != [] && g[list[0]][|g[list[0]]| - 1] < list[n]
  {
    GroupGrows(list, n, groups, g, rep, r);
    assert g[list[0]][|g[list[0]]| - 1] == list[n - 1];
  }

  lemma NowMerged(list: seq<nat>, n: nat, groups: Lists, g: Lists, g1: Lists, rep: seq<nat>, r: seq<nat>, r1: seq<nat>,
                  succ: Lists, succ1: Lists, succ2: Lists, rank: nat -> Rank)
    requires Ascending(list) && 1 <= n < |list| && GroupFormed(list, n, groups, g, rep, r)
    requires forall k :: 0 <= k < |list| ==> Alone(groups, list[k])
    requires list[0] < |g| && list[n] < |g| && |r| == |g|
    requires g1 == g[list[0] := g[list[0]] + [list[n]]][list[n] := []] && r1 == r[list[n] := list[0]]
    requires StillReach(succ, succ1, list) && list[0] != list[n] && rank(list[0]) == rank(list[n])
    requires Ranked(succ1, rank) && |succ2| == |succ1|
    requires forall v: nat, w: nat :: Edge(succ2, v, w) <==> Taken(succ1, list[0], list[n], v, w)
    ensures GroupFormed(list, n + 1, groups, g1, rep, r1) && StillReach(succ, succ2, list)
  {
    GroupGrows(list, n, groups, g, rep, r);
    StillReachStep(succ, succ1, succ2, rank, list, n);
  }

  lemma NoSelfEdge(succ: Lists, rank: nat -> Rank, j: nat)
    requires Ranked(succ, rank)
    ensures !Edge(succ, j, j)
  {
  }

  lemma StartGroup(groups: Lists, rep: seq<nat>, list: seq<nat>)
    requires Partition(groups, rep) && list != [] && forall k :: 0 <= k < |list| ==> Alone(groups, list[k])
    ensures GroupFormed(list, 1, groups, groups, rep, rep)
  {
    assert list[..1] == [list[0]];
    assert GroupOk(groups, rep, list[0]) && groups[list[0]][0] == list[0];
  }

  lemma StartWork(prog: seq<Inst>, depths: seq<nat>, succ: Lists, left: set<nat>, groups: Lists, rep: seq<nat>,
                  insts: seq<Entry>)
    requires WellFormed(succ) && |depths| == |prog| == |succ| == |groups| == |rep| == |insts|
      && Ranked(succ, Ranks(prog, depths))
    requires forall v :: 0 <= v < |prog| ==>
      groups[v] == (if v in left then [v] else []) && rep[v] == v && insts[v] == if v in left then Is(prog[v]) else Gone
    requires forall v: nat, w: nat :: Edge(succ, v, w) ==> v in left && w in left
    ensures Working(prog, depths, succ, succ, groups, rep, insts) && GroupsHold(groups, rep, left)
  {
    forall v | 0 <= v < |rep|
      ensures GroupOk(groups, rep, v) && Represented(groups, rep, v) && SameRank(Ranks(prog, depths), rep, v)
      ensures Mergeable(prog, groups[v]) && insts[v] == Joined(prog, groups[v])
    {
      JoinedAlone(prog, v);
    }
  }

  lemma JoinedAlone(prog: seq<Inst>, v: nat)
    requires v < |prog|
    ensures InProgram(prog, [v]) && Joined(prog, [v]) == Is(prog[v])
    ensures AllUses(prog, [v]) == Uses(prog[v]) && AllDefs(prog, [v]) == Defs(prog[v])
  {
    var g := [v];
    assert g[..|g| - 1] == [] && AllUses(prog, []) == [] && AllDefs(prog, []) == [];
    assert AllUses(prog, g) == [] + Uses(prog[v]) == Uses(prog[v]);
    assert AllDefs(prog, g) == [] + Defs(prog[v]) == Defs(prog[v]);
  }

  // ---------- rounds ----------

  datatype Maybe = Nobody | Node(v: nat)

  /** A started opening that has not been eliminated. */
  predicate IsOpen(prog: seq<Inst>, left: set<nat>, a: nat) {
    a < |prog| && a in left && prog[a].StartOpen?
  }

  /** The stops of the openings. */
  ghost predicate StopsLeft(prog: seq<Inst>, depths: seq<nat>, left: set<nat>, stopOf: map<nat, nat>) {
    && |depths| == |prog|
    && forall a: nat :: IsOpen(prog, left, a) ==> StopLeft(prog, depths, left, stopOf, a)
  }

  ghost predicate StopLeft(prog: seq<Inst>, depths: seq<nat>, left: set<nat>, stopOf: map<nat, nat>, a: nat)
    requires |depths| == |prog| && a < |prog|
  {
    a in stopOf && stopOf[a] < |prog| && stopOf[a] in left && prog[stopOf[a]].StopOpen?
    && StartOf(prog, stopOf[a]) == a && depths[stopOf[a]] == depths[a]
  }

  /** An opening itself, or its stop. */
  function NodeOf(stopOf: map<nat, nat>, stop: bool, a: nat): nat {
    if stop && a in stopOf then stopOf[a] else a
  }

  ghost predicate AtOrReaches(succ: Lists, v: nat, w: nat) {
    v == w || Reach(succ, v, w)
  }

  /** The groups of the openings (or of their stops) below depth d are in order, and last is the last of them. */
  ghost predicate ChainOk(prog: seq<Inst>, depths: seq<nat>, left: set<nat>, stopOf: map<nat, nat>, succ: Lists,
                          rep: seq<nat>, stop: bool, d: nat, last: Maybe)
    requires |rep| == |prog| == |depths|
  {
    && (last.Node? ==>
         last.v < |prog| && RankOf(prog, depths, last.v).depth < d && rep[last.v] == last.v && last.v in left)
    && (forall a: nat :: IsOpen(prog, left, a) && depths[a] < d ==> ChainEnd(stopOf, succ, rep, stop, a, last))
    && (forall a: nat, b: nat :: IsOpen(prog, left, a) && IsOpen(prog, left, b) && depths[a] < d && depths[b] < d ==>
          ChainLink(prog, depths, stopOf, succ, rep, stop, a, b))
  }

  ghost predicate ChainEnd(stopOf: map<nat, nat>, succ: Lists, rep: seq<nat>, stop: bool, a: nat, last: Maybe) {
    NodeOf(stopOf, stop, a) < |rep| && last.Node? && AtOrReaches(succ, rep[NodeOf(stopOf, stop, a)], last.v)
  }

  ghost predicate ChainLink(prog: seq<Inst>, depths: seq<nat>, stopOf: map<nat, nat>, succ: Lists, rep: seq<nat>,
                            stop: bool, a: nat, b: nat) {
    && NodeOf(stopOf, stop, a) < |rep| && NodeOf(stopOf, stop, b) < |rep|
    && (Below2(RankOf(prog, depths, a), RankOf(prog, depths, b)) ==>
          Reach(succ, rep[NodeOf(stopOf, stop, a)], rep[NodeOf(stopOf, stop, b)]))
  }

  /** Merging nodes of depth d leaves the chain below d as it was. */
  lemma ChainSurvives(prog: seq<Inst>, depths: seq<nat>, left: set<nat>, stopOf: map<nat, nat>, succ: Lists,
                      succ1: Lists, groups: Lists, groups1: Lists, rep: seq<nat>, rep1: seq<nat>, stop: bool, d: nat,
                      last: Maybe, list: seq<nat>)
    requires |rep| == |prog| == |depths| && StopsLeft(prog, depths, left, stopOf)
    requires forall v :: 0 <= v < |rep| ==> SameRank(Ranks(prog, depths), rep, v)
    requires ChainOk(prog, depths, left, stopOf, succ, rep, stop, d, last)
    requires GroupFormed(list, |list|, groups, groups1, rep, rep1) && StillReach(succ, succ1, list)
    requires forall k :: 0 <= k < |list| ==> RankOf(prog, depths, list[k]).depth >= d
    ensures ChainOk(prog, depths, left, stopOf, succ1, rep1, stop, d, last)
  {
    assert list[..|list|] == list;
    forall a: nat | IsOpen(prog, left, a) && depths[a] < d
      ensures ChainEnd(stopOf, succ1, rep1, stop, a, last)
      ensures NodeOf(stopOf, stop, a) < |rep| && rep1[NodeOf(stopOf, stop, a)] == rep[NodeOf(stopOf, stop, a)]
      ensures !InTail(list, rep[NodeOf(stopOf, stop, a)])
    {
      assert StopLeft(prog, depths, left, stopOf, a);
      assert ChainEnd(stopOf, succ, rep, stop, a, last);
      var v := NodeOf(stopOf, stop, a);
      assert SameRank(Ranks(prog, depths), rep, v);
    }
    forall a: nat, b: nat | IsOpen(prog, left, a) && IsOpen(prog, left, b) && depths[a] < d && depths[b] < d
      ensures ChainLink(prog, depths, stopOf, succ1, rep1, stop, a, b)
    {
      assert ChainLink(prog, depths, stopOf, succ, rep, stop, a, b);
    }
  }

  /** Openings with ranks below k are merged by rank, and so are their stops; the others are alone. */
  ghost predicate Progress(prog: seq<Inst>, depths: seq<nat>, left: set<nat>, stopOf: map<nat, nat>, groups: Lists,
                           rep: seq<nat>, k: Rank) {
    && |groups| == |rep| == |prog| == |depths|
    && (forall a: nat :: IsOpen(prog, left, a) && !Below2(RankOf(prog, depths, a), k) ==>
        Untouched(stopOf, groups, rep, a))
    && (forall a: nat, b: nat ::
          IsOpen(prog, left, a) && IsOpen(prog, left, b) && Below2(RankOf(prog, depths, a), k) ==>
          Together(prog, depths, stopOf, rep, a, b))
  }

  predicate Untouched(stopOf: map<nat, nat>, groups: Lists, rep: seq<nat>, a: nat) {
    && a < |rep| == |groups| && Alone(groups, a) && rep[a] == a
    && a in stopOf && stopOf[a] < |rep| && Alone(groups, stopOf[a]) && rep[stopOf[a]] == stopOf[a]
  }

  predicate Together(prog: seq<Inst>, depths: seq<nat>, stopOf: map<nat, nat>, rep: seq<nat>, a: nat, b: nat) {
    && a < |rep| && b < |rep| && a in stopOf && b in stopOf && stopOf[a] < |rep| && stopOf[b] < |rep|
    && (RankOf(prog, depths, a) == RankOf(prog, depths, b) ==> rep[a] == rep[b] && rep[stopOf[a]] == rep[stopOf[b]])
  }

  /** The openings of rank k, in ascending order. */
  ghost predicate OfRank(prog: seq<Inst>, depths: seq<nat>, left: set<nat>, list: seq<nat>, k: Rank) {
    && Ascending(list)
    && forall a: nat :: a in list <==> IsOpen(prog, left, a) && RankOf(prog, depths, a) == k
  }

  function StopsOf(stopOf: map<nat, nat>, list: seq<nat>): (r: seq<nat>)
    ensures |r| == |list| && forall i :: 0 <= i < |list| ==> r[i] == NodeOf(stopOf, true, list[i])
  {
    seq(|list|, i requires 0 <= i < |list| => NodeOf(stopOf, true, list[i]))
  }

  /** Earlier openings have earlier stops. */
  lemma StopsAscend(prog: seq<Inst>, depths: seq<nat>, left: set<nat>, stopOf: map<nat, nat>, list: seq<nat>, k: Rank)
    requires OpensPaired(prog) && StopsLeft(prog, depths, left, stopOf) && OfRank(prog, depths, left, list, k)
      && k.place < 2
    ensures Ascending(StopsOf(stopOf, list))
    ensures forall i :: 0 <= i < |list| ==>
      var t := StopsOf(stopOf, list)[i];
      t < |prog| && list[i] < |prog| && RankOf(prog, depths, t) == Rank(k.depth, k.place + 2)
  {
    var ts := StopsOf(stopOf, list);
    forall i | 0 <= i < |list|
      ensures ts[i] < |prog| && list[i] < |prog| && RankOf(prog, depths, ts[i]) == Rank(k.depth, k.place + 2)
    {
      assert list[i] in list;
      assert StopLeft(prog, depths, left, stopOf, list[i]);
    }
    forall i, j | 0 <= i < j < |list|
      ensures ts[i] < ts[j]
    {
      assert list[i] in list && list[j] in list;
      assert StopLeft(prog, depths, left, stopOf, list[i]) && StopLeft(prog, depths, left, stopOf, list[j]);
      if ts[j] < ts[i] {
        StartsDiffer(prog, ts[j], ts[i]);
      }
    }
  }

  /** Merging the openings of rank k, and their stops. */
  lemma ProgressStep(prog: seq<Inst>, depths: seq<nat>, left: set<nat>, stopOf: map<nat, nat>, g0: Lists, r0: seq<nat>,
                     g1: Lists, r1: seq<nat>, g2: Lists, r2: seq<nat>, k: Rank, list: seq<nat>)
    requires StopsLeft(prog, depths, left, stopOf) && Progress(prog, depths, left, stopOf, g0, r0, k)
    requires OfRank(prog, depths, left, list, k)
    requires GroupFormed(list, |list|, g0, g1, r0, r1)
    requires GroupFormed(StopsOf(stopOf, list), |list|, g1, g2, r1, r2)
    ensures Progress(prog, depths, left, stopOf, g2, r2, Rank(k.depth, k.place + 1))
  {
    var ts := StopsOf(stopOf, list);
    assert list[..|list|] == list && ts[..|list|] == ts;
    forall a: nat | IsOpen(prog, left, a)
      ensures a in stopOf && stopOf[a] < |prog|
      ensures a !in ts && stopOf[a] !in list && (stopOf[a] in ts <==> a in list)
      ensures r2[a] == (if a in list then list[0] else r0[a])
        && r2[stopOf[a]] == (if a in list then ts[0] else r0[stopOf[a]])
      ensures a !in list && Untouched(stopOf, g0, r0, a) ==> Untouched(stopOf, g2, r2, a)
    {
      MovedOpen(prog, depths, left, stopOf, list, k, a);
    }
    forall a: nat, b: nat | IsOpen(prog, left, a) && IsOpen(prog, left, b)
      && Below2(RankOf(prog, depths, a), Rank(k.depth, k.place + 1))
      ensures Together(prog, depths, stopOf, r2, a, b)
    {
      if a !in list && b !in list {
        assert Together(prog, depths, stopOf, r0, a, b);
      }
    }
  }

  /** Which openings and stops a list of openings and the list of their stops hold. */
  lemma MovedOpen(prog: seq<Inst>, depths: seq<nat>, left: set<nat>, stopOf: map<nat, nat>, list: seq<nat>, k: Rank,
                  a: nat)
    requires StopsLeft(prog, depths, left, stopOf) && OfRank(prog, depths, left, list, k) && IsOpen(prog, left, a)
    ensures a in stopOf && stopOf[a] < |prog|
    ensures a !in StopsOf(stopOf, list) && stopOf[a] !in list && (stopOf[a] in StopsOf(stopOf, list) <==> a in list)
  {
    var ts := StopsOf(stopOf, list);
    assert StopLeft(prog, depths, left, stopOf, a);
    forall i | 0 <= i < |ts|
      ensures ts[i] != a && (ts[i] == stopOf[a] <==> list[i] == a)
    {
      assert list[i] in list;
      assert StopLeft(prog, depths, left, stopOf, list[i]);
    }
    if a in list {
      var i :| 0 <= i < |list| && list[i] == a;
      assert ts[i] == stopOf[a];
    }
  }

  // ---------- the edges between rounds ----------

  ghost predicate MoreEdges(succ: Lists, succ1: Lists) {
    |succ| == |succ1| && forall v: nat, w: nat :: Edge(succ, v, w) ==> Edge(succ1, v, w)
  }

  lemma AtOrReachesMore(succ: Lists, succ1: Lists, v: nat, w: nat)
    requires MoreEdges(succ, succ1) && AtOrReaches(succ, v, w)
    ensures AtOrReaches(succ1, v, w)
  {
    if v != w {
      ReachMore(succ, succ1, v, w);
    }
  }

  /** From v, at or before u, along an edge from u to w. */
  lemma OnByEdge(succ: Lists, v: nat, u: nat, w: nat)
    requires AtOrReaches(succ, v, u) && Edge(succ, u, w)
    ensures Reach(succ, v, w)
  {
    EdgeReaches(succ, u, w);
    if v != u {
      ReachTrans(succ, v, u, w);
    }
  }

  /** The node that the openings of rank k (or their stops) are merged into, if there are any. */
  ghost predicate Heads(prog: seq<Inst>, depths: seq<nat>, left: set<nat>, stopOf: map<nat, nat>, rep: seq<nat>,
                        stop: bool, k: Rank, n: Maybe) {
    && (n.Node? ==>
         n.v < |rep| && rep[n.v] == n.v && n.v in left
         && RankOf(prog, depths, n.v) == Rank(k.depth, k.place + if stop then 2 else 0))
    && (forall a: nat :: IsOpen(prog, left, a) && RankOf(prog, depths, a) == k ==> HeadOf(stopOf, rep, stop, a, n))
  }

  predicate HeadOf(stopOf: map<nat, nat>, rep: seq<nat>, stop: bool, a: nat, n: Maybe) {
    n.Node? && NodeOf(stopOf, stop, a) < |rep| && rep[NodeOf(stopOf, stop, a)] == n.v
  }

  function First(modp: Maybe, gf2n: Maybe): Maybe {
    if modp.Node? then modp else gf2n
  }

  function Last(modp: Maybe, gf2n: Maybe): Maybe {
    if gf2n.Node? then gf2n else modp
  }

  /** The edges that keep the merged nodes of a round in order, after those of earlier rounds. */
  ghost predicate Chained(succ: Lists, modp: Maybe, gf2n: Maybe, last: Maybe) {
    && (modp.Node? && gf2n.Node? ==> Edge(succ, modp.v, gf2n.v))
    && (last.Node? && First(modp, gf2n).Node? ==> Edge(succ, last.v, First(modp, gf2n).v))
  }

  lemma ChainedMore(succ: Lists, succ1: Lists, modp: Maybe, gf2n: Maybe, last: Maybe)
    requires MoreEdges(succ, succ1) && Chained(succ, modp, gf2n, last)
    ensures Chained(succ1, modp, gf2n, last)
  {
  }

  lemma ChainStep(prog: seq<Inst>, depths: seq<nat>, left: set<nat>, stopOf: map<nat, nat>, succ: Lists, succ1: Lists,
                  rep: seq<nat>, stop: bool, d: nat, modp: Maybe, gf2n: Maybe, last: Maybe)
    requires |rep| == |prog| == |depths| && ChainOk(prog, depths, left, stopOf, succ, rep, stop, d, last)
    requires MoreEdges(succ, succ1) && Chained(succ1, modp, gf2n, last) && First(modp, gf2n).Node?
    requires Heads(prog, depths, left, stopOf, rep, stop, Rank(d, 0), modp)
    requires Heads(prog, depths, left, stopOf, rep, stop, Rank(d, 1), gf2n)
    ensures ChainOk(prog, depths, left, stopOf, succ1, rep, stop, d + 1, Last(modp, gf2n))
  {
    forall a: nat | IsOpen(prog, left, a) && depths[a] < d + 1
      ensures ChainEnd(stopOf, succ1, rep, stop, a, Last(modp, gf2n))
      ensures depths[a] < d ==> ChainEnd(stopOf, succ1, rep, stop, a, First(modp, gf2n))
    {
      ChainEndStep(prog, depths, left, stopOf, succ, succ1, rep, stop, d, modp, gf2n, last, a);
    }
    forall a: nat, b: nat | IsOpen(prog, left, a) && IsOpen(prog, left, b) && depths[a] < d + 1 && depths[b] < d + 1
      ensures ChainLink(prog, depths, stopOf, succ1, rep, stop, a, b)
    {
      ChainLinkStep(prog, depths, left, stopOf, succ, succ1, rep, stop, d, modp, gf2n, last, a, b);
    }
  }

  lemma ChainEndStep(prog: seq<Inst>, depths: seq<nat>, left: set<nat>, stopOf: map<nat, nat>, succ: Lists,
                     succ1: Lists, rep: seq<nat>, stop: bool, d: nat, modp: Maybe, gf2n: Maybe, last: Maybe, a: nat)
    requires |rep| == |prog| == |depths| && ChainOk(prog, depths, left, stopOf, succ, rep, stop, d, last)
    requires MoreEdges(succ, succ1) && Chained(succ1, modp, gf2n, last) && First(modp, gf2n).Node?
    requires Heads(prog, depths, left, stopOf, rep, stop, Rank(d, 0), modp)
    requires Heads(prog, depths, left, stopOf, rep, stop, Rank(d, 1), gf2n)
    requires IsOpen(prog, left, a) && depths[a] < d + 1
    ensures ChainEnd(stopOf, succ1, rep, stop, a, Last(modp, gf2n))
    ensures depths[a] < d ==> ChainEnd(stopOf, succ1, rep, stop, a, First(modp, gf2n))
  {
    var v := NodeOf(stopOf, stop, a);
    if depths[a] < d {
      assert ChainEnd(stopOf, succ, rep, stop, a, last);
      AtOrReachesMore(succ, succ1, rep[v], last.v);
      OnByEdge(succ1, rep[v], last.v, First(modp, gf2n).v);
    } else {
      assert RankOf(prog, depths, a) == Rank(d, 0) || RankOf(prog, depths, a) == Rank(d, 1);
      assert HeadOf(stopOf, rep, stop, a, modp) || HeadOf(stopOf, rep, stop, a, gf2n);
    }
    if modp.Node? && gf2n.Node? && AtOrReaches(succ1, rep[v], modp.v) {
      OnByEdge(succ1, rep[v], modp.v, gf2n.v);
    }
  }

  lemma ChainLinkStep(prog: seq<Inst>, depths: seq<nat>, left: set<nat>, stopOf: map<nat, nat>, succ: Lists,
                      succ1: Lists, rep: seq<nat>, stop: bool, d: nat, modp: Maybe, gf2n: Maybe, last: Maybe, a: nat,
                      b: nat)
    requires |rep| == |prog| == |depths| && ChainOk(prog, depths, left, stopOf, succ, rep, stop, d, last)
    requires MoreEdges(succ, succ1) && Chained(succ1, modp, gf2n, last) && First(modp, gf2n).Node?
    requires Heads(prog, depths, left, stopOf, rep, stop, Rank(d, 0), modp)
    requires Heads(prog, depths, left, stopOf, rep, stop, Rank(d, 1), gf2n)
    requires IsOpen(prog, left, a) && IsOpen(prog, left, b) && depths[a] < d + 1 && depths[b] < d + 1
    ensures ChainLink(prog, depths, stopOf, succ1, rep, stop, a, b)
  {
    var v, w := NodeOf(stopOf, stop, a), NodeOf(stopOf, stop, b);
    if depths[a] < d && depths[b] < d {
      assert ChainLink(prog, depths, stopOf, succ, rep, stop, a, b);
      if Reach(succ, rep[v], rep[w]) {
        ReachMore(succ, succ1, rep[v], rep[w]);
      }
    } else {
      ChainEndStep(prog, depths, left, stopOf, succ, succ1, rep, stop, d, modp, gf2n, last, a);
      ChainEndStep(prog, depths, left, stopOf, succ, succ1, rep, stop, d, modp, gf2n, last, b);
      if Below2(RankOf(prog, depths, a), RankOf(prog, depths, b)) {
        ToThisRound(prog, depths, left, stopOf, succ, succ1, rep, stop, d, modp, gf2n, last, a, b);
      }
    }
  }

  /** From an earlier rank to the round of depth d. */
  lemma ToThisRound(prog: seq<Inst>, depths: seq<nat>, left: set<nat>, stopOf: map<nat, nat>, succ: Lists, succ1: Lists,
                    rep: seq<nat>, stop: bool, d: nat, modp: Maybe, gf2n: Maybe, last: Maybe, a: nat, b: nat)
    requires |rep| == |prog| == |depths| && ChainOk(prog, depths, left, stopOf, succ, rep, stop, d, last)
    requires MoreEdges(succ, succ1) && Chained(succ1, modp, gf2n, last) && First(modp, gf2n).Node?
    requires Heads(prog, depths, left, stopOf, rep, stop, Rank(d, 0), modp)
    requires Heads(prog, depths, left, stopOf, rep, stop, Rank(d, 1), gf2n)
    requires IsOpen(prog, left, a) && IsOpen(prog, left, b) && depths[b] == d
      && Below2(RankOf(prog, depths, a), RankOf(prog, depths, b))
    requires NodeOf(stopOf, stop, a) < |rep| && NodeOf(stopOf, stop, b) < |rep|
    ensures Reach(succ1, rep[NodeOf(stopOf, stop, a)], rep[NodeOf(stopOf, stop, b)])
  {
    var v, w := NodeOf(stopOf, stop, a), NodeOf(stopOf, stop, b);
    if depths[a] < d {
      assert ChainEnd(stopOf, succ, rep, stop, a, last);
      AtOrReachesMore(succ, succ1, rep[v], last.v);
      OnByEdge(succ1, rep[v], last.v, First(modp, gf2n).v);
      if RankOf(prog, depths, b) == Rank(d, 0) {
        assert HeadOf(stopOf, rep, stop, b, modp);
      } else {
        assert HeadOf(stopOf, rep, stop, b, gf2n);
        if modp.Node? {
          OnByEdge(succ1, rep[v], modp.v, gf2n.v);
        }
      }
    } else {
      assert HeadOf(stopOf, rep, stop, a, modp) && HeadOf(stopOf, rep, stop, b, gf2n);
      EdgeReaches(succ1, modp.v, gf2n.v);
    }
  }

  class Merging {
    const prog: seq<Inst>
    const depths: seq<nat>
    ghost const succ0: Lists
    const G: SparseDiGraph
    var groups: Lists             // the attribute merges, with the node itself
    var insts: seq<Entry>
    ghost var rep: seq<nat>
    const left: set<nat>          // the instructions that have not been eliminated
    const stopOf: map<nat, nat>

    ghost predicate Valid()
      reads this, G
    {
      G.Valid() && Working(prog, depths, succ0, G.succ, groups, rep, insts) && GroupsHold(groups, rep, left)
    }

    /** Every instruction that is left is its own group. */
    constructor (prog: seq<Inst>, depths: seq<nat>, G: SparseDiGraph, left: set<nat>, stopOf: map<nat, nat>)
      requires G.Valid() && |depths| == |prog| == |G.succ| && Ranked(G.succ, Ranks(prog, depths))
      requires forall v: nat, w: nat :: Edge(G.succ, v, w) ==> v in left && w in left
      ensures Valid() && this.prog == prog && this.depths == depths && this.G == G && succ0 == G.succ
      ensures this.left == left && this.stopOf == stopOf
      ensures forall v :: 0 <= v < |prog| ==> groups[v] == (if v in left then [v] else []) && rep[v] == v
    {
      this.prog, this.depths, this.G, succ0 := prog, depths, G, G.succ;
      this.left, this.stopOf := left, stopOf;
      groups := seq(|prog|, v requires 0 <= v < |prog| => if v in left then [v] else []);
      insts := seq(|prog|, v requires 0 <= v < |prog| => if v in left then Is(prog[v]) else Gone);
      rep := seq(|prog|, v requires 0 <= v < |prog| => v);
      new;
      StartWork(prog, depths, G.succ, left, groups, rep, insts);
    }

    /** One step of do_merge: node j joins the group of node i. */
    method MergePair(i: nat, j: nat)
      requires Valid() && i < |prog| && Alone(groups, j) && i != j && RankOf(prog, depths, i) == RankOf(prog, depths, j)
      requires groups[i] != [] && groups[i][|groups[i]| - 1] < j
      modifies this`groups, this`insts, this`rep, G
      ensures Valid() && |G.succ| == |old(G.succ)| && Ranked(old(G.succ), Ranks(prog, depths))
      ensures groups == old(groups)[i := old(groups[i]) + [j]][j := []] && rep == old(rep)[j := i]
      ensures forall v: nat, w: nat :: Edge(G.succ, v, w) <==> Taken(old(G.succ), i, j, v, w)
    {
      NoSelfEdge(G.succ, Ranks(prog, depths), j);
      G.MergeNodes(i, j);
      WorkStep(prog, depths, succ0, old(G.succ), G.succ, groups, rep, insts, i, j);
      HoldStep(groups, rep, left, i, j);
      insts := insts[i := JoinArgs(insts[i], insts[j])][j := Gone];
      groups := groups[i := groups[i] + [j]][j := []];
      rep := rep[j := i];
    }

    /** Merges node n of the list into the first. */
    method MergeNext(list: seq<nat>, n: nat, ghost groups0: Lists, ghost rep0: seq<nat>, ghost succ0: Lists)
      requires Valid() && Ascending(list) && 1 <= n < |list| && |G.succ| == |succ0|
      requires |groups0| == |rep0| == |groups| && forall k :: 0 <= k < |list| ==> Alone(groups0, list[k])
      requires forall k :: 0 <= k < |list| ==> RankOf(prog, depths, list[k]) == RankOf(prog, depths, list[0])
      requires GroupFormed(list, n, groups0, groups, rep0, rep) && StillReach(succ0, G.succ, list)
      modifies this`groups, this`insts, this`rep, G
      ensures Valid() && |G.succ| == |succ0|
      ensures GroupFormed(list, n + 1, groups0, groups, rep0, rep) && StillReach(succ0, G.succ, list)
    {
      ghost var g, r, before := groups, rep, G.succ;
      CanMerge(list, n, groups0, g, rep0, r);
      MergePair(list[0], list[n]);
      NowMerged(list, n, groups0, g, groups, rep0, r, rep, succ0, before, G.succ, Ranks(prog, depths));
    }

    /** Merges the nodes of the list into the first. */
    method DoMerge(list: seq<nat>)
      requires Valid() && Ascending(list) && (forall k :: 0 <= k < |list| ==> Alone(groups, list[k]))
      requires forall k :: 0 <= k < |list| ==> RankOf(prog, depths, list[k]) == RankOf(prog, depths, list[0])
      modifies this`groups, this`insts, this`rep, G
      ensures Valid() && |G.succ| == |old(G.succ)|
      ensures GroupFormed(list, |list|, old(groups), groups, old(rep), rep)
      ensures StillReach(old(G.succ), G.succ, list)
    {
      if list == [] {
        return;
      }
      StartGroup(groups, rep, list);
      var n := 1;
      while n < |list|
        invariant 1 <= n <= |list| && Valid() && |G.succ| == |old(G.succ)|
        invariant GroupFormed(list, n, old(groups), groups, old(rep), rep)
        invariant StillReach(old(G.succ), G.succ, list)
      {
        MergeNext(list, n, old(groups), old(rep), old(G.succ));
        n := n + 1;
      }
      assert list[..n] == list;
    }

    /** The openings of depth d in the given field that have not been eliminated. */
    method OpensAt(d: nat, gf2n: bool) returns (list: seq<nat>)
      requires |depths| == |prog|
      ensures OfRank(prog, depths, left, list, Rank(d, if gf2n then 1 else 0))
    {
      list := [];
      var v := 0;
      ghost var k := Rank(d, if gf2n then 1 else 0);
      while v < |prog|
        invariant 0 <= v <= |prog| && Ascending(list)
        invariant forall i :: 0 <= i < |list| ==> list[i] < v
        invariant forall a: nat :: a in list <==> a < v && IsOpen(prog, left, a) && RankOf(prog, depths, a) == k
      {
        if v in left && prog[v].StartOpen? && depths[v] == d && prog[v].gf2n == gf2n {
          list := list + [v];
        }
        v := v + 1;
      }
    }

    /** Merges the openings of one depth and field, and then their stops. The chains of the earlier rounds
        and the heads of the other field stay as they are. */
    method MergeKey(d: nat, gf2n: bool, ghost lasts: (Maybe, Maybe), ghost modp: (Maybe, Maybe))
        returns (start: Maybe, stop: Maybe)
      requires Valid() && OpensPaired(prog) && StopsLeft(prog, depths, left, stopOf)
      requires Progress(prog, depths, left, stopOf, groups, rep, Rank(d, if gf2n then 1 else 0))
      requires Chains(d, lasts) && (gf2n ==> KeyHeads(Rank(d, 0), modp))
      modifies this`groups, this`insts, this`rep, G
      ensures Valid() && |G.succ| == |old(G.succ)|
      ensures Progress(prog, depths, left, stopOf, groups, rep, Rank(d, if gf2n then 2 else 1))
      ensures KeyHeads(Rank(d, if gf2n then 1 else 0), (start, stop)) && (start.Node? <==> stop.Node?)
      ensures Chains(d, lasts) && (gf2n ==> KeyHeads(Rank(d, 0), modp))
    {
      ghost var k := Rank(d, if gf2n then 1 else 0);
      var list := OpensAt(d, gf2n);
      var stops := StopsOf(stopOf, list);
      StopsAscend(prog, depths, left, stopOf, list, k);
      ListAlone(prog, depths, left, stopOf, groups, rep, list, k);
      ghost var g0, r0, s0 := groups, rep, G.succ;
      DoMerge(list);
      ghost var g1, r1, s1 := groups, rep, G.succ;
      StopsStillAlone(prog, depths, left, stopOf, g0, r0, g1, r1, list, k);
      DoMerge(stops);
      ProgressStep(prog, depths, left, stopOf, g0, r0, g1, r1, groups, rep, k, list);
      start, stop := Nobody, Nobody;
      if list != [] {
        start, stop := Node(list[0]), Node(stops[0]);
      }
      NewHeads(prog, depths, left, stopOf, g0, r0, g1, r1, groups, rep, list, k);
      MergeKeeps(prog, depths, left, stopOf, succ0, s0, s1, g0, g1, r0, r1, k, lasts, modp, list);
      MergeKeeps(prog, depths, left, stopOf, succ0, s1, G.succ, g1, groups, r1, rep, k, lasts, modp, stops);
    }

    /** The starts below depth d are in order, and so are the stops. */
    ghost predicate Chains(d: nat, lasts: (Maybe, Maybe))
      reads this, G
      requires |rep| == |prog| == |depths|
    {
      BothChains(prog, depths, left, stopOf, G.succ, rep, d, lasts)
    }

    /** The nodes that hold the openings of rank k, and their stops. */
    ghost predicate KeyHeads(k: Rank, heads: (Maybe, Maybe))
      reads this
    {
      BothHeads(prog, depths, left, stopOf, rep, k, heads)
    }

    method AddRankedEdge(i: nat, j: nat)
      requires Valid() && i < |prog| && j < |prog| && Below2(RankOf(prog, depths, i), RankOf(prog, depths, j))
      requires i in left && j in left && rep[i] == i && rep[j] == j
      modifies G
      ensures Valid() && MoreEdges(old(G.succ), G.succ) && Edge(G.succ, i, j)
    {
      G.AddEdge(i, j);
      EdgeKeepsWorking(prog, depths, succ0, old(G.succ), G.succ, groups, rep, insts, i, j);
    }

    /** The edges that keep the order of the fields in one round, and of the rounds. */
    method AddChain(modp: Maybe, gf2n: Maybe, last: Maybe) returns (next: Maybe)
      requires Valid() && First(modp, gf2n).Node?
      requires RanksAscend(prog, depths, modp, gf2n, last)
      requires HeadLeft(left, rep, modp) && HeadLeft(left, rep, gf2n) && HeadLeft(left, rep, last)
      modifies G
      ensures Valid() && MoreEdges(old(G.succ), G.succ) && Chained(G.succ, modp, gf2n, last) && next == Last(modp, gf2n)
    {
      if modp.Node? && gf2n.Node? {
        AddRankedEdge(modp.v, gf2n.v);
      }
      if last.Node? {
        AddRankedEdge(last.v, if modp.Node? then modp.v else gf2n.v);
      }
      next := if gf2n.Node? then gf2n else modp;
    }

    /** Puts the openings of depth d behind those of the lower depths, and their stops likewise. */
    method AddChains(d: nat, modp: (Maybe, Maybe), gf2n: (Maybe, Maybe), lasts: (Maybe, Maybe))
        returns (next: (Maybe, Maybe))
      requires Valid() && Chains(d, lasts) && KeyHeads(Rank(d, 0), modp) && KeyHeads(Rank(d, 1), gf2n)
      requires First(modp.0, gf2n.0).Node? && First(modp.1, gf2n.1).Node?
      modifies G
      ensures Valid() && |G.succ| == |old(G.succ)| && Chains(d + 1, next) && next.0 == Last(modp.0, gf2n.0)
    {
      ghost var s0 := G.succ;
      HeadsAscend(prog, depths, left, stopOf, s0, rep, d, modp, gf2n, lasts);
      var start := AddChain(modp.0, gf2n.0, lasts.0);
      ghost var s1 := G.succ;
      var stop := AddChain(modp.1, gf2n.1, lasts.1);
      next := (start, stop);
      ChainedMore(s1, G.succ, modp.0, gf2n.0, lasts.0);
      ChainStep(prog, depths, left, stopOf, s0, G.succ, rep, false, d, modp.0, gf2n.0, lasts.0);
      ChainStep(prog, depths, left, stopOf, s0, G.succ, rep, true, d, modp.1, gf2n.1, lasts.1);
    }

    /** One round: the openings of depth d. */
    method Round(d: nat, lasts: (Maybe, Maybe)) returns (next: (Maybe, Maybe), merged: Maybe)
      requires Valid() && OpensPaired(prog) && StopsLeft(prog, depths, left, stopOf)
      requires Progress(prog, depths, left, stopOf, groups, rep, Rank(d, 0)) && Chains(d, lasts)
      modifies this`groups, this`insts, this`rep, G
      ensures Valid() && |G.succ| == |old(G.succ)|
      ensures Progress(prog, depths, left, stopOf, groups, rep, Rank(d + 1, 0)) && Chains(d + 1, next)
      ensures merged.Node? ==> IsOpen(prog, left, merged.v) && depths[merged.v] == d
      ensures merged.Node? <==> exists a: nat :: IsOpen(prog, left, a) && depths[a] == d
    {
      var modp, gf2n: (Maybe, Maybe);
      var a, b := MergeKey(d, false, lasts, (Nobody, Nobody));
      modp := (a, b);
      a, b := MergeKey(d, true, lasts, modp);
      gf2n := (a, b);
      ProgressNext(prog, depths, left, stopOf, groups, rep, d);
      if First(modp.0, gf2n.0).Node? {
        HeadsAscend(prog, depths, left, stopOf, G.succ, rep, d, modp, gf2n, lasts);
        next := AddChains(d, modp, gf2n, lasts);
        merged := next.0;
      } else {
        next, merged := lasts, Nobody;
        EmptyRound(prog, depths, left, stopOf, G.succ, rep, d, modp, gf2n, lasts);
      }
    }

    /** The loop of longest_paths_merge over all depths. Gives the node that is left of every depth, and
        the largest depth. */
    method AllRounds() returns (merges: map<nat, nat>, maxDepth: nat)
      requires Valid() && OpensPaired(prog) && StopsLeft(prog, depths, left, stopOf)
      requires forall v :: 0 <= v < |prog| ==> groups[v] == (if v in left then [v] else []) && rep[v] == v
      modifies this`groups, this`insts, this`rep, G
      ensures Valid() && |G.succ| == |old(G.succ)|
      ensures AllMerged(prog, depths, left, stopOf, G.succ, rep)
      ensures MergesOk(prog, depths, left, merges, maxDepth)
    {
      var top := 0;
      for v := 0 to |prog|
        invariant forall w :: 0 <= w < v ==> depths[w] < top
      {
        top := if depths[v] < top then top else depths[v] + 1;
      }
      merges, maxDepth := map[], 0;
      var d := 0;
      var lasts := (Nobody, Nobody);
      FirstRound(prog, depths, left, stopOf, G.succ, groups, rep);
      while d < top
        invariant 0 <= d <= top && Valid() && |G.succ| == |old(G.succ)|
        invariant Progress(prog, depths, left, stopOf, groups, rep, Rank(d, 0)) && Chains(d, lasts)
        invariant MergesBelow(prog, depths, left, merges, maxDepth, d)
      {
        var merged: Maybe;
        ghost var m0, x0 := merges, maxDepth;
        lasts, merged := Round(d, lasts);
        MergesStep(prog, depths, left, m0, x0, d, merged);
        if merged.Node? {
          merges, maxDepth := merges[d := merged.v], d;
        }
        d := d + 1;
      }
      RoundsDone(prog, depths, left, stopOf, G.succ, groups, rep, d, lasts, merges, maxDepth);
    }
  }

  /** The depths below d that have openings, each with an opening. */
  ghost predicate MergesBelow(prog: seq<Inst>, depths: seq<nat>, left: set<nat>, merges: map<nat, nat>, maxDepth: nat,
                              d: nat)
    requires |depths| == |prog|
  {
    && (forall i {:trigger merges[i]} :: i in merges ==>
         i <= maxDepth && IsOpen(prog, left, merges[i]) && depths[merges[i]] == i)
    && (forall a: nat :: IsOpen(prog, left, a) && depths[a] < d ==> depths[a] in merges)
    && (forall i :: i in merges ==> i < d) && (maxDepth in merges || (maxDepth == 0 && merges == map[]))
  }

  lemma MergesStep(prog: seq<Inst>, depths: seq<nat>, left: set<nat>, merges: map<nat, nat>, maxDepth: nat, d: nat,
                   merged: Maybe)
    requires |depths| == |prog| && MergesBelow(prog, depths, left, merges, maxDepth, d)
    requires merged.Node? ==> IsOpen(prog, left, merged.v) && depths[merged.v] == d
    requires merged.Node? <==> exists a: nat :: IsOpen(prog, left, a) && depths[a] == d
    ensures if merged.Node? then MergesBelow(prog, depths, left, merges[d := merged.v], d, d + 1)
            else MergesBelow(prog, depths, left, merges, maxDepth, d + 1)
  {
    forall a: nat | IsOpen(prog, left, a) && depths[a] < d + 1
      ensures depths[a] in merges || (merged.Node? && depths[a] == d)
    {
    }
  }

  ghost predicate MergesOk(prog: seq<Inst>, depths: seq<nat>, left: set<nat>, merges: map<nat, nat>, maxDepth: nat)
    requires |depths| == |prog|
  {
    && (forall i {:trigger merges[i]} :: i in merges ==>
         i <= maxDepth && IsOpen(prog, left, merges[i]) && depths[merges[i]] == i)
    && (forall a: nat :: IsOpen(prog, left, a) ==> depths[a] in merges)
    && (maxDepth in merges || (maxDepth == 0 && merges == map[]))
  }

  ghost predicate BothChains(prog: seq<Inst>, depths: seq<nat>, left: set<nat>, stopOf: map<nat, nat>, succ: Lists,
                             rep: seq<nat>, d: nat, lasts: (Maybe, Maybe))
    requires |rep| == |prog| == |depths|
  {
    && ChainOk(prog, depths, left, stopOf, succ, rep, false, d, lasts.0)
    && ChainOk(prog, depths, left, stopOf, succ, rep, true, d, lasts.1)
    && (lasts.1.Node? ==> lasts.1.v < |prog| && RankOf(prog, depths, lasts.1.v).depth < d)
  }

  ghost predicate BothHeads(prog: seq<Inst>, depths: seq<nat>, left: set<nat>, stopOf: map<nat, nat>, rep: seq<nat>,
                            k: Rank, heads: (Maybe, Maybe)) {
    && Heads(prog, depths, left, stopOf, rep, false, k, heads.0)
    && Heads(prog, depths, left, stopOf, rep, true, k, heads.1)
    && (heads.0.Node? <==> heads.1.Node?)
  }

  /** Merging nodes of rank k or of their stops' rank keeps the chains below, and the heads of the lower field. */
  lemma MergeKeeps(prog: seq<Inst>, depths: seq<nat>, left: set<nat>, stopOf: map<nat, nat>, succ0: Lists, succ: Lists,
                   succ1: Lists, groups: Lists, groups1: Lists, rep: seq<nat>, rep1: seq<nat>, k: Rank,
                   lasts: (Maybe, Maybe), modp: (Maybe, Maybe), list: seq<nat>)
    requires Merged(succ0, succ, Ranks(prog, depths), groups, rep) && |rep| == |prog| == |depths|
      && StopsLeft(prog, depths, left, stopOf)
    requires GroupFormed(list, |list|, groups, groups1, rep, rep1) && StillReach(succ, succ1, list) && k.place < 2
    requires forall i :: 0 <= i < |list| ==>
      RankOf(prog, depths, list[i]) == k || RankOf(prog, depths, list[i]) == Rank(k.depth, k.place + 2)
    ensures BothChains(prog, depths, left, stopOf, succ, rep, k.depth, lasts) ==>
      BothChains(prog, depths, left, stopOf, succ1, rep1, k.depth, lasts)
    ensures k.place == 1 && BothHeads(prog, depths, left, stopOf, rep, Rank(k.depth, 0), modp) ==>
      BothHeads(prog, depths, left, stopOf, rep1, Rank(k.depth, 0), modp)
  {
    if BothChains(prog, depths, left, stopOf, succ, rep, k.depth, lasts) {
      ChainSurvives(prog, depths, left, stopOf, succ, succ1, groups, groups1, rep, rep1, false, k.depth, lasts.0, list);
      ChainSurvives(prog, depths, left, stopOf, succ, succ1, groups, groups1, rep, rep1, true, k.depth, lasts.1, list);
    }
    if k.place == 1 && BothHeads(prog, depths, left, stopOf, rep, Rank(k.depth, 0), modp) {
      HeadsSurvive(prog, depths, left, stopOf, groups, rep, groups1, rep1, list, false, Rank(k.depth, 0), modp.0);
      HeadsSurvive(prog, depths, left, stopOf, groups, rep, groups1, rep1, list, true, Rank(k.depth, 0), modp.1);
    }
  }

  lemma EdgeKeepsWorking(prog: seq<Inst>, depths: seq<nat>, succ0: Lists, succ: Lists, succ1: Lists, groups: Lists,
                         rep: seq<nat>, insts: seq<Entry>, i: nat, j: nat)
    requires Working(prog, depths, succ0, succ, groups, rep, insts)
      && Below2(RankOf(prog, depths, i), RankOf(prog, depths, j))
    requires BetweenGroups(groups, i, j)
    requires |succ1| == |succ| && forall v: nat, w: nat :: Edge(succ1, v, w) <==> Edge(succ, v, w) || (v == i && w == j)
    ensures Working(prog, depths, succ0, succ1, groups, rep, insts)
  {
    forall v: nat, w: nat | Edge(succ1, v, w)
      ensures Below2(RankOf(prog, depths, v), RankOf(prog, depths, w)) && BetweenGroups(groups, v, w)
    {
      assert Edge(succ, v, w) || (v == i && w == j);
    }
    forall v: nat, w: nat | Edge(succ0, v, w)
      ensures Edge(succ1, rep[v], rep[w])
    {
      assert Edge(succ, rep[v], rep[w]);
    }
  }

  predicate HeadLeft(left: set<nat>, rep: seq<nat>, n: Maybe) {
    n.Node? ==> n.v in left && n.v < |rep| && rep[n.v] == n.v
  }

  predicate RanksAscend(prog: seq<Inst>, depths: seq<nat>, modp: Maybe, gf2n: Maybe, last: Maybe) {
    && (modp.Node? ==> modp.v < |prog|) && (gf2n.Node? ==> gf2n.v < |prog|) && (last.Node? ==> last.v < |prog|)
    && (modp.Node? && gf2n.Node? ==> Below2(RankOf(prog, depths, modp.v), RankOf(prog, depths, gf2n.v)))
    && (modp.Node? && last.Node? ==> Below2(RankOf(prog, depths, last.v), RankOf(prog, depths, modp.v)))
    && (gf2n.Node? && last.Node? ==> Below2(RankOf(prog, depths, last.v), RankOf(prog, depths, gf2n.v)))
  }

  lemma HeadsAscend(prog: seq<Inst>, depths: seq<nat>, left: set<nat>, stopOf: map<nat, nat>, succ: Lists,
                    rep: seq<nat>, d: nat, modp: (Maybe, Maybe), gf2n: (Maybe, Maybe), lasts: (Maybe, Maybe))
    requires |rep| == |prog| == |depths| && BothChains(prog, depths, left, stopOf, succ, rep, d, lasts)
    requires BothHeads(prog, depths, left, stopOf, rep, Rank(d, 0), modp)
      && BothHeads(prog, depths, left, stopOf, rep, Rank(d, 1), gf2n)
    ensures RanksAscend(prog, depths, modp.0, gf2n.0, lasts.0) && RanksAscend(prog, depths, modp.1, gf2n.1, lasts.1)
    ensures HeadLeft(left, rep, modp.0) && HeadLeft(left, rep, gf2n.0) && HeadLeft(left, rep, lasts.0)
    ensures HeadLeft(left, rep, modp.1) && HeadLeft(left, rep, gf2n.1) && HeadLeft(left, rep, lasts.1)
    ensures First(modp.0, gf2n.0).Node? ==> var n := Last(modp.0, gf2n.0).v; IsOpen(prog, left, n) && depths[n] == d
  {
  }

  lemma EmptyRound(prog: seq<Inst>, depths: seq<nat>, left: set<nat>, stopOf: map<nat, nat>, succ: Lists, rep: seq<nat>,
                   d: nat, modp: (Maybe, Maybe), gf2n: (Maybe, Maybe), lasts: (Maybe, Maybe))
    requires |rep| == |prog| == |depths| && BothChains(prog, depths, left, stopOf, succ, rep, d, lasts)
    requires BothHeads(prog, depths, left, stopOf, rep, Rank(d, 0), modp)
      && BothHeads(prog, depths, left, stopOf, rep, Rank(d, 1), gf2n)
    requires modp.0.Nobody? && gf2n.0.Nobody?
    ensures BothChains(prog, depths, left, stopOf, succ, rep, d + 1, lasts)
    ensures !exists a: nat :: IsOpen(prog, left, a) && depths[a] == d
  {
    forall a: nat | IsOpen(prog, left, a)
      ensures depths[a] != d
    {
      assert RankOf(prog, depths, a) != Rank(d, 0) && RankOf(prog, depths, a) != Rank(d, 1);
    }
  }

  lemma ProgressNext(prog: seq<Inst>, depths: seq<nat>, left: set<nat>, stopOf: map<nat, nat>, groups: Lists,
                     rep: seq<nat>, d: nat)
    requires Progress(prog, depths, left, stopOf, groups, rep, Rank(d, 2))
    ensures Progress(prog, depths, left, stopOf, groups, rep, Rank(d + 1, 0))
  {
    forall a: nat | IsOpen(prog, left, a)
      ensures Below2(RankOf(prog, depths, a), Rank(d, 2)) <==> Below2(RankOf(prog, depths, a), Rank(d + 1, 0))
    {
    }
  }

  /** All openings of one rank share a group, and so do their stops; the groups are in the order of the ranks. */
  ghost predicate AllMerged(prog: seq<Inst>, depths: seq<nat>, left: set<nat>, stopOf: map<nat, nat>, succ: Lists,
                            rep: seq<nat>) {
    forall a: nat, b: nat :: IsOpen(prog, left, a) && IsOpen(prog, left, b) ==>
      Together(prog, depths, stopOf, rep, a, b) && ChainLink(prog, depths, stopOf, succ, rep, false, a, b)
      && ChainLink(prog, depths, stopOf, succ, rep, true, a, b)
  }

  lemma FirstRound(prog: seq<Inst>, depths: seq<nat>, left: set<nat>, stopOf: map<nat, nat>, succ: Lists, groups: Lists,
                   rep: seq<nat>)
    requires |groups| == |rep| == |prog| == |depths| && StopsLeft(prog, depths, left, stopOf)
    requires forall v :: 0 <= v < |prog| ==> groups[v] == (if v in left then [v] else []) && rep[v] == v
    ensures Progress(prog, depths, left, stopOf, groups, rep, Rank(0, 0))
    ensures BothChains(prog, depths, left, stopOf, succ, rep, 0, (Nobody, Nobody))
  {
    forall a: nat | IsOpen(prog, left, a)
      ensures Untouched(stopOf, groups, rep, a)
    {
      assert StopLeft(prog, depths, left, stopOf, a);
    }
  }

  lemma RoundsDone(prog: seq<Inst>, depths: seq<nat>, left: set<nat>, stopOf: map<nat, nat>, succ: Lists, groups: Lists,
                   rep: seq<nat>, d: nat, lasts: (Maybe, Maybe), merges: map<nat, nat>, maxDepth: nat)
    requires Progress(prog, depths, left, stopOf, groups, rep, Rank(d, 0)) && |rep| == |prog| == |depths|
    requires MergesBelow(prog, depths, left, merges, maxDepth, d)
    requires BothChains(prog, depths, left, stopOf, succ, rep, d, lasts)
    requires forall v :: 0 <= v < |prog| ==> depths[v] < d
    ensures AllMerged(prog, depths, left, stopOf, succ, rep) && MergesOk(prog, depths, left, merges, maxDepth)
  {
    forall a: nat, b: nat | IsOpen(prog, left, a) && IsOpen(prog, left, b)
      ensures Together(prog, depths, stopOf, rep, a, b)
      ensures ChainLink(prog, depths, stopOf, succ, rep, false, a, b)
        && ChainLink(prog, depths, stopOf, succ, rep, true, a, b)
    {
      assert Below2(RankOf(prog, depths, a), Rank(d, 0));
    }
  }

  lemma ListAlone(prog: seq<Inst>, depths: seq<nat>, left: set<nat>, stopOf: map<nat, nat>, groups: Lists,
                  rep: seq<nat>, list: seq<nat>, k: Rank)
    requires Progress(prog, depths, left, stopOf, groups, rep, k) && OfRank(prog, depths, left, list, k)
    ensures forall i :: 0 <= i < |list| ==> Alone(groups, list[i]) && RankOf(prog, depths, list[i]) == k
    ensures forall i :: 0 <= i < |list| ==> Alone(groups, StopsOf(stopOf, list)[i])
  {
    forall i | 0 <= i < |list|
      ensures Alone(groups, list[i]) && RankOf(prog, depths, list[i]) == k && Alone(groups, StopsOf(stopOf, list)[i])
    {
      assert list[i] in list;
      assert Untouched(stopOf, groups, rep, list[i]);
    }
  }

  lemma StopsStillAlone(prog: seq<Inst>, depths: seq<nat>, left: set<nat>, stopOf: map<nat, nat>, g0: Lists,
                        r0: seq<nat>, g1: Lists, r1: seq<nat>, list: seq<nat>, k: Rank)
    requires StopsLeft(prog, depths, left, stopOf) && Progress(prog, depths, left, stopOf, g0, r0, k)
    requires OfRank(prog, depths, left, list, k) && GroupFormed(list, |list|, g0, g1, r0, r1)
    ensures forall i :: 0 <= i < |list| ==> Alone(g1, StopsOf(stopOf, list)[i])
  {
    assert list[..|list|] == list;
    ListAlone(prog, depths, left, stopOf, g0, r0, list, k);
    forall i | 0 <= i < |list|
      ensures Alone(g1, StopsOf(stopOf, list)[i])
    {
      assert list[i] in list;
      MovedOpen(prog, depths, left, stopOf, list, k, list[i]);
    }
  }

  lemma NewHeads(prog: seq<Inst>, depths: seq<nat>, left: set<nat>, stopOf: map<nat, nat>, g0: Lists, r0: seq<nat>,
                 g1: Lists, r1: seq<nat>, g2: Lists, r2: seq<nat>, list: seq<nat>, k: Rank)
    requires OpensPaired(prog) && StopsLeft(prog, depths, left, stopOf) && OfRank(prog, depths, left, list, k)
      && k.place < 2
    requires GroupFormed(list, |list|, g0, g1, r0, r1) && |prog| == |r0| == |depths|
    requires GroupFormed(StopsOf(stopOf, list), |list|, g1, g2, r1, r2)
    ensures Heads(prog, depths, left, stopOf, r2, false, k, if list == [] then Nobody else Node(list[0]))
    ensures Heads(prog, depths, left, stopOf, r2, true, k,
                  if list == [] then Nobody else Node(StopsOf(stopOf, list)[0]))
  {
    var start := if list == [] then Nobody else Node(list[0]);
    var stop := if list == [] then Nobody else Node(StopsOf(stopOf, list)[0]);
    forall a: nat | IsOpen(prog, left, a) && RankOf(prog, depths, a) == k
      ensures HeadOf(stopOf, r2, false, a, start) && HeadOf(stopOf, r2, true, a, stop)
    {
      MovedReps(prog, depths, left, stopOf, g0, r0, g1, r1, g2, r2, k, list, a);
    }
    if list != [] {
      FirstMoved(prog, depths, left, stopOf, g0, r0, g1, r1, g2, r2, list, k);
    }
  }

  /** The first opening, and its stop, stand for the others. */
  lemma FirstMoved(prog: seq<Inst>, depths: seq<nat>, left: set<nat>, stopOf: map<nat, nat>, g0: Lists, r0: seq<nat>,
                   g1: Lists, r1: seq<nat>, g2: Lists, r2: seq<nat>, list: seq<nat>, k: Rank)
    requires OpensPaired(prog) && StopsLeft(prog, depths, left, stopOf) && OfRank(prog, depths, left, list, k)
      && k.place < 2
    requires GroupFormed(list, |list|, g0, g1, r0, r1) && |prog| == |r0| == |depths| && list != []
    requires GroupFormed(StopsOf(stopOf, list), |list|, g1, g2, r1, r2)
    ensures var a, t := list[0], StopsOf(stopOf, list)[0];
      && a < |r2| && r2[a] == a && a in left && RankOf(prog, depths, a) == k
      && t < |r2| && r2[t] == t && t in left && RankOf(prog, depths, t) == Rank(k.depth, k.place + 2)
  {
    assert list[0] in list;
    StopsAscend(prog, depths, left, stopOf, list, k);
    MovedReps(prog, depths, left, stopOf, g0, r0, g1, r1, g2, r2, k, list, list[0]);
    assert StopLeft(prog, depths, left, stopOf, list[0]);
  }

  /** Where an opening and its stop are after both merges. */
  lemma MovedReps(prog: seq<Inst>, depths: seq<nat>, left: set<nat>, stopOf: map<nat, nat>, g0: Lists, r0: seq<nat>,
                  g1: Lists, r1: seq<nat>, g2: Lists, r2: seq<nat>, k: Rank, list: seq<nat>, a: nat)
    requires StopsLeft(prog, depths, left, stopOf) && OfRank(prog, depths, left, list, k) && IsOpen(prog, left, a)
    requires GroupFormed(list, |list|, g0, g1, r0, r1) && |r0| == |prog|
    requires GroupFormed(StopsOf(stopOf, list), |list|, g1, g2, r1, r2)
    ensures a in stopOf && stopOf[a] < |prog| && (a in list <==> RankOf(prog, depths, a) == k)
    ensures r2[a] == if a in list then list[0] else r0[a]
    ensures r2[stopOf[a]] == if a in list then StopsOf(stopOf, list)[0] else r0[stopOf[a]]
  {
    var ts := StopsOf(stopOf, list);
    assert list[..|list|] == list && ts[..|list|] == ts;
    MovedOpen(prog, depths, left, stopOf, list, k, a);
  }

  /** Merging nodes of other ranks does not move the heads of rank k. */
  lemma HeadsSurvive(prog: seq<Inst>, depths: seq<nat>, left: set<nat>, stopOf: map<nat, nat>, groups: Lists,
                     rep: seq<nat>, groups1: Lists, rep1: seq<nat>, list: seq<nat>, stop: bool, k: Rank, n: Maybe)
    requires StopsLeft(prog, depths, left, stopOf) && |rep| == |prog|
    requires Heads(prog, depths, left, stopOf, rep, stop, k, n) && GroupFormed(list, |list|, groups, groups1, rep, rep1)
    requires k.place < 2
    requires forall i :: 0 <= i < |list| ==>
      RankOf(prog, depths, list[i]) != Rank(k.depth, k.place + if stop then 2 else 0)
    ensures Heads(prog, depths, left, stopOf, rep1, stop, k, n)
  {
    assert list[..|list|] == list;
    forall a: nat | IsOpen(prog, left, a) && RankOf(prog, depths, a) == k
      ensures HeadOf(stopOf, rep1, stop, a, n)
    {
      assert HeadOf(stopOf, rep, stop, a, n);
      assert StopLeft(prog, depths, left, stopOf, a);
    }
  }

}
