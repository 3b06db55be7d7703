/**
 The passes of Compiler/allocator.py on one block, as Tape.optimize of Compiler/program.py runs them:
 dependency graph, dead code elimination, merging, and a new order from a topological sort. The new
 block computes what the old one did.
 */
module BackEnd {
  import opened Sequences
  import opened Schedule
  import opened Blocks
  import opened Graph
  import opened Levels
  import opened Dependencies
  import opened Queues
  import opened DeadCode
  import opened Merging
  import opened Reordering
  import opened Gaps

  // ---------- compute_preorder ----------

  ghost predicate IsSource(succ: Lists, n: nat) {
    forall v: nat :: !Edge(succ, v, n)
  }

  /** Instructions that could be on several levels. */
  predicate Flexible(prog: seq<Inst>, succ: Lists, depths: seq<nat>, rev: seq<nat>, left: set<nat>, fixed: set<nat>,
                     n: nat)
    requires n < |prog| == |depths| == |rev| == |succ|
  {
    !IsOpen(prog, left, n) && depths[n] != rev[n] && succ[n] != [] && !prog[n].StopOpen? && n !in fixed
  }

  /** The flexible instructions of depth d, and of reverse depth r if it is given. */
  method FlexNodes(prog: seq<Inst>, succ: Lists, depths: seq<nat>, rev: seq<nat>, left: set<nat>, fixed: set<nat>,
                   d: nat, r: Maybe) returns (nodes: seq<nat>)
    requires |prog| == |depths| == |rev| == |succ|
    ensures forall n: nat :: n in nodes <==>
      n < |prog| && Flexible(prog, succ, depths, rev, left, fixed, n) && depths[n] == d && (r.Node? ==> rev[n] == r.v)
  {
    nodes := [];
    var n := 0;
    while n < |prog|
      invariant 0 <= n <= |prog|
      invariant forall m: nat :: m in nodes <==>
        m < n && Flexible(prog, succ, depths, rev, left, fixed, m) && depths[m] == d && (r.Node? ==> rev[m] == r.v)
    {
      if Flexible(prog, succ, depths, rev, left, fixed, n) && depths[n] == d && (r == Nobody || rev[n] == r.v) {
        nodes := nodes + [n];
      }
      n := n + 1;
    }
  }

  /** Everything without predecessors that is not flexible. */
  method Starters(prog: seq<Inst>, succ: Lists, pred: Lists, depths: seq<nat>, rev: seq<nat>, left: set<nat>,
                  fixed: set<nat>) returns (nodes: seq<nat>)
    requires |prog| == |depths| == |rev| == |succ| == |pred|
    ensures forall n: nat :: n in nodes <==>
      n < |prog| && !Flexible(prog, succ, depths, rev, left, fixed, n) && pred[n] == []
  {
    nodes := [];
    var n := 0;
    while n < |prog|
      invariant 0 <= n <= |prog|
      invariant forall m: nat :: m in nodes <==>
        m < n && !Flexible(prog, succ, depths, rev, left, fixed, m) && pred[m] == []
    {
      if !Flexible(prog, succ, depths, rev, left, fixed, n) && pred[n] == [] {
        nodes := nodes + [n];
      }
      n := n + 1;
    }
  }

  lemma MembersAreNodes(s: seq<nat>, n: nat)
    requires forall v: nat :: v in s ==> v < n
    ensures AreNodes(n, s)
  {
    forall i | 0 <= i < |s|
      ensures s[i] < n
    {
      assert s[i] in s;
    }
  }

  /** The flexible instructions between two depths are in the list. */
  ghost predicate FlexListed(prog: seq<Inst>, succ: Lists, depths: seq<nat>, rev: seq<nat>, left: set<nat>,
                             fixed: set<nat>, lo: nat, hi: nat, nodes: seq<nat>)
    requires |prog| == |depths| == |rev| == |succ|
  {
    && (forall n: nat :: n in nodes ==> n < |prog|)
    && (forall n: nat :: n < |prog| && Flexible(prog, succ, depths, rev, left, fixed, n) && lo <= depths[n] < hi ==>
        n in nodes)
  }

  /** What belongs to one level. */
  method Level(prog: seq<Inst>, succ: Lists, depths: seq<nat>, rev: seq<nat>, left: set<nat>, fixed: set<nat>, i: nat,
               stop: nat, start: nat) returns (nodes: seq<nat>)
    requires |prog| == |depths| == |rev| == |succ| && i > 0 && stop < |prog| && start < |prog|
    ensures FlexListed(prog, succ, depths, rev, left, fixed, i - 1, i, nodes)
  {
    var flex := FlexNodes(prog, succ, depths, rev, left, fixed, i - 1, Nobody);
    var zero := FlexNodes(prog, succ, depths, rev, left, fixed, 0, Node(i));
    nodes := [stop] + flex + zero + [start];
  }

  lemma FlexAppend(prog: seq<Inst>, succ: Lists, depths: seq<nat>, rev: seq<nat>, left: set<nat>, fixed: set<nat>,
                   lo: nat, mid: nat, hi: nat, a: seq<nat>, b: seq<nat>)
    requires |prog| == |depths| == |rev| == |succ| && lo <= mid <= hi
    requires FlexListed(prog, succ, depths, rev, left, fixed, mid, hi, a)
      && FlexListed(prog, succ, depths, rev, left, fixed, lo, mid, b)
    ensures FlexListed(prog, succ, depths, rev, left, fixed, lo, hi, a + b)
  {
  }

  /** The number of an instruction that has a stop. */
  predicate StopAndStart(n: nat, stopOf: map<nat, nat>, a: nat) {
    a < n && a in stopOf && stopOf[a] < n
  }

  /** The order in which the topological search visits the nodes. Fails if some depth has no openings. */
  method ComputePreorder(prog: seq<Inst>, succ: Lists, pred: Lists, depths: seq<nat>, rev: seq<nat>, left: set<nat>,
                         fixed: set<nat>, stopOf: map<nat, nat>, merges: map<nat, nat>, maxDepth: nat)
      returns (ok: bool, preorder: seq<nat>)
    requires |prog| == |depths| == |rev| == |succ| && |pred| == |succ| && Mirror(succ, pred)
    requires forall i :: i in merges ==> StopAndStart(|prog|, stopOf, merges[i])
    ensures ok <==> forall i :: 1 <= i <= maxDepth ==> i in merges
    ensures ok ==> AreNodes(|prog|, preorder) && SourcesListed(prog, succ, depths, rev, left, fixed, maxDepth, preorder)
  {
    preorder := [];
    var i := maxDepth;
    while i > 0
      invariant 0 <= i <= maxDepth
      invariant forall j :: i < j <= maxDepth ==> j in merges
      invariant FlexListed(prog, succ, depths, rev, left, fixed, i, maxDepth, preorder)
    {
      if i !in merges {
        return false, [];
      }
      var level := Level(prog, succ, depths, rev, left, fixed, i, stopOf[merges[i]], merges[i]);
      FlexAppend(prog, succ, depths, rev, left, fixed, i - 1, i, maxDepth, preorder, level);
      preorder := preorder + level;
      i := i - 1;
    }
    var starters := Starters(prog, succ, pred, depths, rev, left, fixed);
    AllSources(prog, succ, pred, depths, rev, left, fixed, maxDepth, preorder, starters);
    preorder := preorder + starters;
    ok := true;
  }

  /** Every source is in the list, unless it is flexible and too deep. */
  ghost predicate SourcesListed(prog: seq<Inst>, succ: Lists, depths: seq<nat>, rev: seq<nat>, left: set<nat>,
                                fixed: set<nat>, maxDepth: nat, nodes: seq<nat>)
    requires |prog| == |depths| == |rev| == |succ|
  {
    forall n: nat | n < |prog| && IsSource(succ, n) ::
      (Flexible(prog, succ, depths, rev, left, fixed, n) ==> depths[n] < maxDepth) ==> n in nodes
  }

  lemma AllSources(prog: seq<Inst>, succ: Lists, pred: Lists, depths: seq<nat>, rev: seq<nat>, left: set<nat>,
                   fixed: set<nat>, maxDepth: nat, a: seq<nat>, starters: seq<nat>)
    requires |prog| == |depths| == |rev| == |succ| && |pred| == |succ| && Mirror(succ, pred)
      && FlexListed(prog, succ, depths, rev, left, fixed, 0, maxDepth, a)
    requires forall n: nat :: n in starters <==>
      n < |prog| && !Flexible(prog, succ, depths, rev, left, fixed, n) && pred[n] == []
    ensures AreNodes(|prog|, a + starters) && SourcesListed(prog, succ, depths, rev, left, fixed, maxDepth,
                                                            a + starters)
  {
    MembersAreNodes(a + starters, |prog|);
    forall n: nat | n < |prog| && IsSource(succ, n)
      ensures pred[n] == []
    {
      NoPredecessors(succ, pred, n);
    }
  }

  lemma NoPredecessors(succ: Lists, pred: Lists, n: nat)
    requires |pred| == |succ| && Mirror(succ, pred) && n < |succ| && IsSource(succ, n)
    ensures pred[n] == []
  {
    forall v: nat
      ensures v !in pred[n]
    {
      assert Edge(pred, n, v) <==> Edge(succ, v, n);
    }
    if pred[n] != [] {
      HasMember(pred[n]);
      assert false;
    }
  }

  // ---------- what a new block computes ----------

  /** The same values everywhere but in what removed instructions would have written, and nothing left to be stopped. */
  ghost predicate SameOutcome<V(!new)>(M: Machine<V>, prog: seq<Inst>, left: set<nat>, a: State<V>, b: State<V>) {
    && a.queue == [] && b.queue == []
    && forall l: Loc :: !l.Slot? && !DeadOut(prog, left, |prog|, l) ==> Get(M, a.store, l) == Get(M, b.store, l)
  }

  lemma {:induction false} MultisetOf(s: seq<nat>, v: nat)
    requires NoDuplicates(s)
    ensures multiset(s)[v] == if v in s then 1 else 0
    decreases |s|
  {
    if s != [] {
      var n := |s| - 1;
      assert s == s[..n] + [s[n]];
      MultisetOf(s[..n], v);
    }
  }

  lemma SameMembers(a: seq<nat>, b: seq<nat>)
    requires NoDuplicates(a) && NoDuplicates(b) && forall v: nat :: v in a <==> v in b
    ensures multiset(a) == multiset(b)
  {
    forall v: nat
      ensures multiset(a)[v] == multiset(b)[v]
    {
      MultisetOf(a, v);
      MultisetOf(b, v);
    }
  }

  lemma {:induction false} AllUpto(n: nat, k: nat)
    requires k <= n
    ensures |LeftUpto(Below(n), k)| == k && forall i :: 0 <= i < k ==> LeftUpto(Below(n), k)[i] == i
    decreases k
  {
    if k > 0 {
      AllUpto(n, k - 1);
    }
  }

  lemma ProgramOrder(prog: seq<Inst>)
    ensures InProgram(prog, LeftUpto(Below(|prog|), |prog|))
    ensures Along(prog, LeftUpto(Below(|prog|), |prog|)) == prog
  {
    AllUpto(|prog|, |prog|);
  }

  /** An order of exactly what is left that keeps dependencies and the turns of the stops. */
  ghost predicate GoodOrder(prog: seq<Inst>, left: set<nat>, e: seq<nat>) {
    && Respects(Steps(prog), e) && NoDuplicates(e) && AllInTurn(prog, e)
    && forall v: nat :: v in e <==> v in left
  }

  /** An order that the machine runs as if every value on its way had its own place. */
  lemma RunsOnMachine<V(!new)>(M: Machine<V>, prog: seq<Inst>, left: set<nat>, e: seq<nat>, s: Store<V>)
    requires OpensPaired(prog) && Whole(prog, left) && AllInTurn(prog, e) && NoDuplicates(e)
    requires InProgram(Steps(prog), e) && forall v: nat :: v in e <==> v in left
    requires OpensEach(M) && CopiesEach(M)
    ensures ExecAll(M, State(s, []), Along(prog, e)).queue == []
    ensures Same(M, Run(M, s, Steps(prog), e), ExecAll(M, State(s, []), Along(prog, e)).store)
  {
    InTurnIsQueue(prog, e);
    RunIsExec(M, prog, s, e, |e|);
    assert e[..|e|] == e;
    AllStopped(prog, left, e);
  }

  lemma OrderOutcome<V(!new)>(M: Machine<V>, prog: seq<Inst>, left: set<nat>, e: seq<nat>, s: Store<V>)
    requires ValidBlock(prog) && Whole(prog, left) && GoodOrder(prog, left, e) && OpensEach(M) && CopiesEach(M)
    ensures SameOutcome(M, prog, left, ExecAll(M, State(s, []), prog), ExecAll(M, State(s, []), Along(prog, e)))
  {
    var n := |prog|;
    var all, some := LeftUpto(Below(n), n), LeftUpto(left, n);
    EverythingWhole(prog);
    ProgramOrder(prog);
    ProgramOrderInTurn(prog, Below(n));
    InLeft(prog, left, n);
    RunsOnMachine(M, prog, Below(n), all, s);
    RunsOnMachine(M, prog, left, e, s);
    SameMembers(e, some);
    OrderIrrelevant(M, s, Steps(prog), e, some);
    RunLeftIsRun(M, prog, Below(n), s, n);
    RunLeftIsRun(M, prog, left, s, n);
    LeftComputes(M, prog, left, s, n);
  }

  // ---------- regrouped blocks ----------

  function Flat(parts: seq<seq<nat>>): seq<nat>
    decreases |parts|
  {
    if parts == [] then [] else parts[0] + Flat(parts[1..])
  }

  /** Every instruction of the block is merged from the instructions of its part. */
  ghost predicate MergedFrom(prog: seq<Inst>, block: seq<Inst>, parts: seq<seq<nat>>) {
    && |block| == |parts|
    && forall k :: 0 <= k < |parts| ==>
         parts[k] != [] && Mergeable(prog, parts[k]) && Joined(prog, parts[k]) == Is(block[k])
  }

  /** What an instruction of the new block stands for: an opening for openings of its field, a stop
      for stops of openings of one field, anything else for itself. */
  predicate StandsFor(prog: seq<Inst>, x: Inst, g: seq<nat>) {
    && g != [] && InProgram(prog, g)
    && match x
       case StartOpen(gf2n, _) => forall k :: 0 <= k < |g| ==> prog[g[k]].StartOpen? && prog[g[k]].gf2n == gf2n
       case StopOpen(_) => AllStops(prog, g, false) || AllStops(prog, g, true)
       case _ => |g| == 1 && prog[g[0]] == x
  }

  lemma MergedStandsFor(prog: seq<Inst>, block: seq<Inst>, parts: seq<seq<nat>>, k: nat)
    requires MergedFrom(prog, block, parts) && k < |block|
    ensures StandsFor(prog, block[k], parts[k])
  {
    var g := parts[k];
    assert Mergeable(prog, g) && Joined(prog, g) == Is(block[k]);
    if prog[g[0]].StartOpen? {
      assert !AllStops(prog, g, false) && !AllStops(prog, g, true);
    }
  }

  /** The block has every instruction that is left exactly once, in a good order, some of them merged. */
  ghost predicate Regrouped(prog: seq<Inst>, left: set<nat>, block: seq<Inst>, parts: seq<seq<nat>>) {
    MergedFrom(prog, block, parts) && GoodOrder(prog, left, Flat(parts))
  }

  lemma {:induction false} MergedExec<V(!new)>(M: Machine<V>, prog: seq<Inst>, block: seq<Inst>, parts: seq<seq<nat>>,
                                               st: State<V>)
    requires OpensEach(M) && MergedFrom(prog, block, parts)
    ensures InProgram(prog, Flat(parts))
    ensures ExecAll(M, st, block) == ExecAll(M, st, Along(prog, Flat(parts)))
    decreases |parts|
  {
    if parts != [] {
      var g, rest := parts[0], Flat(parts[1..]);
      MergedExec(M, prog, block[1..], parts[1..], Exec(M, st, block[0]));
      assert Along(prog, g + rest) == Along(prog, g) + Along(prog, rest);
      ExecConcat(M, st, Along(prog, g), Along(prog, rest));
      JoinedIsGroup(M, prog, st, g);
    }
  }

  /** For every machine and every store, a regrouped block computes what the block computed. */
  lemma RegroupedComputes<V(!new)>(M: Machine<V>, s: Store<V>, prog: seq<Inst>, elim: set<nat>, block: seq<Inst>,
                                   parts: seq<seq<nat>>)
    requires ValidBlock(prog) && Regrouped(prog, Survivors(prog, elim), block, parts) && OpensEach(M) && CopiesEach(M)
    ensures SameOutcome(M, prog, Survivors(prog, elim), ExecAll(M, State(s, []), prog), ExecAll(M, State(s, []), block))
  {
    SurvivorsWhole(prog, elim);
    OrderOutcome(M, prog, Survivors(prog, elim), Flat(parts), s);
    MergedExec(M, prog, block, parts, State(s, []));
  }

  /** The groups in the order of their nodes, without those that are empty. */
  ghost function Parts(groups: Lists, order: seq<nat>): seq<seq<nat>>
    requires AreNodes(|groups|, order)
    decreases |order|
  {
    if order == [] then [] else
      var rest := Parts(groups, order[1..]);
      if groups[order[0]] == [] then rest else [groups[order[0]]] + rest
  }

  lemma {:induction false} EmitMerged(prog: seq<Inst>, groups: Lists, insts: seq<Entry>, order: seq<nat>)
    requires InstsOk(prog, groups, insts) && InProgram(insts, order)
    ensures MergedFrom(prog, Emit(insts, order), Parts(groups, order))
    ensures Flat(Parts(groups, order)) == Expand(groups, order)
    decreases |order|
  {
    if order != [] {
      var r, rest := order[0], order[1..];
      assert Mergeable(prog, groups[r]) && insts[r] == Joined(prog, groups[r]);
      EmitMerged(prog, groups, insts, rest);
      var p := Parts(groups, rest);
      if groups[r] != [] {
        assert ([groups[r]] + p)[1..] == p;
      }
    }
  }

  lemma {:induction false} FlatSingles(order: seq<nat>)
    ensures Flat(Singles(order)) == order
    decreases |order|
  {
    if order != [] {
      assert Singles(order)[1..] == Singles(order[1..]);
      FlatSingles(order[1..]);
    }
  }

  ghost function Singles(order: seq<nat>): seq<seq<nat>> {
    seq(|order|, i requires 0 <= i < |order| => [order[i]])
  }

  // ---------- rounds of communication ----------

  /** The openings in a block. */
  function CountStarts(block: seq<Inst>): nat {
    if block == [] then 0 else (if block[0].StartOpen? then 1 else 0) + CountStarts(block[1..])
  }

  /** The depths and fields of the openings that are left. */
  ghost function Keys(prog: seq<Inst>, depths: seq<nat>, left: set<nat>, n: nat): set<Rank>
  {
    if n == 0 then {} else
      Keys(prog, depths, left, n - 1) + if IsOpen(prog, left, n - 1) then {RankOf(prog, depths, n - 1)} else {}
  }

  lemma {:induction false} KeysMembers(prog: seq<Inst>, depths: seq<nat>, left: set<nat>, n: nat, k: Rank)
    ensures k in Keys(prog, depths, left, n) <==>
      exists a: nat :: a < n && IsOpen(prog, left, a) && RankOf(prog, depths, a) == k
    decreases n
  {
    if n > 0 {
      KeysMembers(prog, depths, left, n - 1, k);
    }
  }

  /** The node holds openings. */
  predicate HoldsStarts(prog: seq<Inst>, groups: Lists, r: nat) {
    r < |groups| && r < |prog| && groups[r] != [] && prog[r].StartOpen?
  }

  ghost function KeysOf(prog: seq<Inst>, depths: seq<nat>, groups: Lists, order: seq<nat>): set<Rank>
    decreases |order|
  {
    if order == [] then {} else
      KeysOf(prog, depths, groups, order[1..])
      + if HoldsStarts(prog, groups, order[0]) then {RankOf(prog, depths, order[0])} else {}
  }

  lemma {:induction false} KeysOfMembers(prog: seq<Inst>, depths: seq<nat>, groups: Lists, order: seq<nat>, k: Rank)
    ensures k in KeysOf(prog, depths, groups, order) <==>
      exists i :: 0 <= i < |order| && HoldsStarts(prog, groups, order[i]) && RankOf(prog, depths, order[i]) == k
    decreases |order|
  {
    if order != [] {
      var rest := order[1..];
      KeysOfMembers(prog, depths, groups, rest, k);
      assert forall i :: 0 <= i < |rest| ==> rest[i] == order[i + 1];
      if i :| 0 <= i < |order| && HoldsStarts(prog, groups, order[i]) && RankOf(prog, depths, order[i]) == k {
        assert i > 0 ==> rest[i - 1] == order[i];
      }
    }
  }

  /** A node that holds openings is one of them. */
  lemma HolderIsOpen(prog: seq<Inst>, groups: Lists, rep: seq<nat>, left: set<nat>, r: nat)
    requires Partition(groups, rep) && GroupsHold(groups, rep, left) && |rep| == |prog| && HoldsStarts(prog, groups, r)
    ensures IsOpen(prog, left, r) && rep[r] == r
  {
    assert GroupOk(groups, rep, r) && groups[r][0] == r;
  }

  lemma {:induction false} CountIsKeysOf(prog: seq<Inst>, depths: seq<nat>, left: set<nat>, stopOf: map<nat, nat>,
                                         succ: Lists, groups: Lists, rep: seq<nat>, insts: seq<Entry>, order: seq<nat>)
    requires AllMerged(prog, depths, left, stopOf, succ, rep) && Partition(groups, rep) && GroupsHold(groups, rep, left)
    requires InstsOk(prog, groups, insts) && InProgram(insts, order) && NoDuplicates(order)
    ensures CountStarts(Emit(insts, order)) == |KeysOf(prog, depths, groups, order)|
    decreases |order|
  {
    if order != [] {
      var r, rest := order[0], order[1..];
      CountIsKeysOf(prog, depths, left, stopOf, succ, groups, rep, insts, rest);
      assert insts[r] == Joined(prog, groups[r]) && GroupOk(groups, rep, r);
      if HoldsStarts(prog, groups, r) {
        HolderIsOpen(prog, groups, rep, left, r);
        var k := RankOf(prog, depths, r);
        KeysOfMembers(prog, depths, groups, rest, k);
        forall i | 0 <= i < |rest| && HoldsStarts(prog, groups, rest[i])
          ensures RankOf(prog, depths, rest[i]) != k
        {
          HolderIsOpen(prog, groups, rep, left, rest[i]);
          assert Together(prog, depths, stopOf, rep, r, rest[i]);
          assert rest[i] == order[i + 1];
        }
      }
    }
  }

  lemma KeyHeld(prog: seq<Inst>, depths: seq<nat>, left: set<nat>, groups: Lists, rep: seq<nat>, order: seq<nat>,
                k: Rank)
    requires Partition(groups, rep) && GroupsHold(groups, rep, left) && |rep| == |prog| == |depths|
    requires k in KeysOf(prog, depths, groups, order)
    ensures k in Keys(prog, depths, left, |prog|)
  {
    KeysOfMembers(prog, depths, groups, order, k);
    var i :| 0 <= i < |order| && HoldsStarts(prog, groups, order[i]) && RankOf(prog, depths, order[i]) == k;
    HolderIsOpen(prog, groups, rep, left, order[i]);
    KeysMembers(prog, depths, left, |prog|, k);
  }

  lemma KeyPlaced(prog: seq<Inst>, depths: seq<nat>, left: set<nat>, groups: Lists, rep: seq<nat>, order: seq<nat>,
                  k: Rank)
    requires Partition(groups, rep) && GroupsHold(groups, rep, left) && |rep| == |prog| == |depths|
    requires forall v :: 0 <= v < |rep| ==> SameRank(Ranks(prog, depths), rep, v)
    requires forall v: nat :: v in left && v < |rep| ==> rep[v] in order
    requires k in Keys(prog, depths, left, |prog|)
    ensures k in KeysOf(prog, depths, groups, order)
  {
    KeysMembers(prog, depths, left, |prog|, k);
    var a: nat :| a < |prog| && IsOpen(prog, left, a) && RankOf(prog, depths, a) == k;
    assert SameRank(Ranks(prog, depths), rep, a) && a in groups[rep[a]];
    var i :| 0 <= i < |order| && order[i] == rep[a];
    assert HoldsStarts(prog, groups, order[i]);
    KeysOfMembers(prog, depths, groups, order, k);
  }

  /** There is one opening for every depth and field. */
  lemma RoundsCounted(prog: seq<Inst>, depths: seq<nat>, left: set<nat>, stopOf: map<nat, nat>, succ: Lists,
                      groups: Lists, rep: seq<nat>, insts: seq<Entry>, order: seq<nat>)
    requires AllMerged(prog, depths, left, stopOf, succ, rep) && Partition(groups, rep) && GroupsHold(groups, rep, left)
    requires InstsOk(prog, groups, insts) && InProgram(insts, order) && NoDuplicates(order)
    requires forall v :: 0 <= v < |rep| ==> SameRank(Ranks(prog, depths), rep, v)
    requires forall v: nat :: v in left && v < |rep| ==> rep[v] in order
    requires |depths| == |prog|
    ensures CountStarts(Emit(insts, order)) == |Keys(prog, depths, left, |prog|)|
  {
    CountIsKeysOf(prog, depths, left, stopOf, succ, groups, rep, insts, order);
    var a, b := KeysOf(prog, depths, groups, order), Keys(prog, depths, left, |prog|);
    forall k: Rank
      ensures k in a <==> k in b
    {
      if k in a {
        KeyHeld(prog, depths, left, groups, rep, order, k);
      }
      if k in b {
        KeyPlaced(prog, depths, left, groups, rep, order, k);
      }
    }
    assert a == b;
  }

  // ---------- longest_paths_merge ----------

  /** What is known when the merging starts. */
  ghost predicate Prepared(prog: seq<Inst>, max: nat, elim: set<nat>, succ: Lists, succ0: Lists, stopOf: map<nat, nat>,
                           left: set<nat>) {
    && ValidBlock(prog) && Analysed(prog, succ, Depths(prog, max), stopOf) && Cut(succ, succ0, left)
    && Closed(succ, left) && StopsPaired(prog, stopOf, left) && left == Survivors(prog, elim)
  }

  lemma PreparedFrom(prog: seq<Inst>, max: nat, elim: set<nat>, succ: Lists, succ0: Lists, stopOf: map<nat, nat>,
                     left: set<nat>)
    requires ValidBlock(prog) && Analysed(prog, succ, Depths(prog, max), stopOf) && Cut(succ, succ0, left)
    requires LeftFrom(prog, succ, stopOf, elim, left, 0)
    ensures Prepared(prog, max, elim, succ, succ0, stopOf, left)
  {
    LeftIsClosed(prog, succ, Depths(prog, max), stopOf, elim, left);
    LeftIsLive(prog, succ, Depths(prog, max), stopOf, elim, left, 0);
  }

  /** The graph between the instructions that are left. */
  lemma PreparedReady(prog: seq<Inst>, max: nat, elim: set<nat>, succ: Lists, succ0: Lists, stopOf: map<nat, nat>,
                      left: set<nat>)
    requires Prepared(prog, max, elim, succ, succ0, stopOf, left)
    ensures |prog| == |succ0| && OpensPaired(prog) && Ranked(succ0, Ranks(prog, Depths(prog, max)))
    ensures StopsLeft(prog, Depths(prog, max), left, stopOf) && LeftCovered(prog, succ0, left)
    ensures forall v: nat, w: nat :: Edge(succ0, v, w) ==> v in left && w in left
  {
    var depths := Depths(prog, max);
    EdgesRanked(prog, succ, depths);
    forall i: nat, j: nat | i in left && j in left && DependsOn(prog, j, i)
      ensures Reach(succ0, i, j)
    {
      assert Reach(succ, i, j);
      ReachLeft(succ, succ0, left, i, j);
    }
    forall a: nat | IsOpen(prog, left, a)
      ensures StopLeft(prog, depths, left, stopOf, a)
    {
      assert StopOfOk(prog, stopOf, left, a);
      assert StopConnected(prog, succ, stopOf[a]);
      assert EdgeOk(prog, depths, a, stopOf[a]);
    }
  }

  /** What is known about the merged graph. */
  ghost predicate MergedGraph(prog: seq<Inst>, succ0: Lists, succ1: Lists, depths: seq<nat>, stopOf: map<nat, nat>,
                              left: set<nat>, groups: Lists, rep: seq<nat>, insts: seq<Entry>) {
    && Working(prog, depths, succ0, succ1, groups, rep, insts) && GroupsHold(groups, rep, left)
    && AllMerged(prog, depths, left, stopOf, succ1, rep)
  }

  /** Flexible instructions that have a depth are not sources. */
  lemma FlexibleNotSource(prog: seq<Inst>, max: nat, elim: set<nat>, succ: Lists, succ0: Lists, succ1: Lists,
                          stopOf: map<nat, nat>, left: set<nat>, rev: seq<nat>, fixed: set<nat>, groups: Lists,
                          rep: seq<nat>, insts: seq<Entry>, n: nat)
    requires Prepared(prog, max, elim, succ, succ0, stopOf, left) && |rev| == |prog| == |succ1|
    requires MergedGraph(prog, succ0, succ1, Depths(prog, max), stopOf, left, groups, rep, insts)
    requires n < |prog| && Flexible(prog, succ1, Depths(prog, max), rev, left, fixed, n) && Depths(prog, max)[n] > 0
    ensures !IsSource(succ1, n)
  {
    assert Edge(succ1, n, succ1[n][0]) && BetweenGroups(groups, n, succ1[n][0]);
    assert GroupOk(groups, rep, n) && groups[n][0] == n && rep[n] == n && n in left;
    DepthInherited(prog, max, n);
    var i: nat :| DependsOn(prog, n, i) && Depths(prog, max)[i] == Depths(prog, max)[n];
    assert Reach(succ, i, n);
    ReachLeft(succ, succ0, left, i, n);
    var p: seq<nat> :| |p| >= 2 && p[0] == i && p[|p| - 1] == n && IsPath(succ0, p);
    var u := p[|p| - 2];
    assert Edge(succ0, p[|p| - 2], p[|p| - 2 + 1]);
    assert Edge(succ1, rep[u], rep[n]);
  }

  /** The search from the preorder finds everything. */
  lemma OrderIsFull(prog: seq<Inst>, max: nat, elim: set<nat>, succ: Lists, succ0: Lists, succ1: Lists,
                    stopOf: map<nat, nat>, left: set<nat>, rev: seq<nat>, fixed: set<nat>, groups: Lists, rep: seq<nat>,
                    insts: seq<Entry>, maxDepth: nat, preorder: seq<nat>, order: seq<nat>)
    requires Prepared(prog, max, elim, succ, succ0, stopOf, left) && |rev| == |prog| == |succ1|
    requires MergedGraph(prog, succ0, succ1, Depths(prog, max), stopOf, left, groups, rep, insts)
    requires maxDepth > 0 && SourcesListed(prog, succ1, Depths(prog, max), rev, left, fixed, maxDepth, preorder)
    requires IsTopological(succ1, order) && forall i :: 0 <= i < |preorder| ==> preorder[i] in order
    ensures forall v: nat :: v in left && v < |rep| ==> rep[v] in order
  {
    var depths := Depths(prog, max);
    forall n: nat | n < |succ1| && (forall u: nat :: !Edge(succ1, u, n))
      ensures n in order
    {
      assert IsSource(succ1, n);
      if Flexible(prog, succ1, depths, rev, left, fixed, n) && depths[n] > 0 {
        FlexibleNotSource(prog, max, elim, succ, succ0, succ1, stopOf, left, rev, fixed, groups, rep, insts, n);
        assert false;
      }
      assert n in preorder;
    }
    forall v: nat | v in left && v < |rep|
      ensures rep[v] in order
    {
      assert Represented(groups, rep, v);
      SourcesSuffice(succ1, Ranks(prog, depths), order, rep[v]);
    }
  }

  lemma ExpandedIsLeft(prog: seq<Inst>, groups: Lists, rep: seq<nat>, left: set<nat>, order: seq<nat>)
    requires Partition(groups, rep) && GroupsHold(groups, rep, left) && |rep| == |prog| && AreNodes(|groups|, order)
    requires forall v: nat :: v in left ==> v < |prog|
    requires forall v: nat :: v in left && v < |rep| ==> rep[v] in order
    ensures forall v: nat :: v in Expand(groups, order) <==> v in left
  {
    var e := Expand(groups, order);
    forall v: nat
      ensures v in e <==> v in left
    {
      if v in e {
        var p :| 0 <= p < |e| && e[p] == v;
        ExpandPlaced(groups, rep, order, p);
      }
      if v in left {
        ExpandMembers(groups, rep, order, v);
      }
    }
  }

  /** A topological order of the merged graph is a good order of the instructions. */
  lemma ExpandIsGood(prog: seq<Inst>, max: nat, elim: set<nat>, succ: Lists, succ0: Lists, succ1: Lists,
                     stopOf: map<nat, nat>, left: set<nat>, groups: Lists, rep: seq<nat>, insts: seq<Entry>,
                     order: seq<nat>)
    requires Prepared(prog, max, elim, succ, succ0, stopOf, left)
    requires MergedGraph(prog, succ0, succ1, Depths(prog, max), stopOf, left, groups, rep, insts)
    requires IsTopological(succ1, order) && forall v: nat :: v in left && v < |rep| ==> rep[v] in order
    ensures GoodOrder(prog, left, Expand(groups, order))
  {
    var depths := Depths(prog, max);
    PreparedReady(prog, max, elim, succ, succ0, stopOf, left);
    SurvivorsWhole(prog, elim);
    var e := Expand(groups, order);
    ExpandRespects(prog, succ0, succ1, Ranks(prog, depths), groups, rep, left, order);
    ExpandDistinct(groups, rep, order);
    ExpandedIsLeft(prog, groups, rep, left, order);
    StartsSurvive(prog, left);
    forall k | 0 <= k < |e|
      ensures StopInTurn(prog, e, k)
    {
      ExpandInTurn(prog, depths, left, stopOf, succ0, succ1, groups, rep, order, k);
    }
  }

  lemma StartsSurvive(prog: seq<Inst>, left: set<nat>)
    requires Whole(prog, left) && OpensPaired(prog)
    ensures forall v: nat :: v in left && v < |prog| && prog[v].StopOpen? ==> StartOf(prog, v) in left
  {
    forall v: nat | v in left && v < |prog| && prog[v].StopOpen?
      ensures StartOf(prog, v) in left
    {
      assert PairedAt(prog, v);
      assert DependsOn(prog, v, StartOf(prog, v));
    }
  }

  /** A full topological order of the merged graph gives a regrouped block with few rounds. */
  lemma OrderedResult(prog: seq<Inst>, max: nat, elim: set<nat>, succ: Lists, succ0: Lists, succ1: Lists,
                      stopOf: map<nat, nat>, left: set<nat>, rev: seq<nat>, fixed: set<nat>, groups: Lists,
                      rep: seq<nat>, insts: seq<Entry>, maxDepth: nat, preorder: seq<nat>, order: seq<nat>)
    requires Prepared(prog, max, elim, succ, succ0, stopOf, left) && |rev| == |prog| == |succ1|
    requires MergedGraph(prog, succ0, succ1, Depths(prog, max), stopOf, left, groups, rep, insts)
    requires maxDepth > 0 && SourcesListed(prog, succ1, Depths(prog, max), rev, left, fixed, maxDepth, preorder)
    requires IsTopological(succ1, order) && forall i :: 0 <= i < |preorder| ==> preorder[i] in order
    ensures InProgram(insts, order) && Regrouped(prog, left, Emit(insts, order), Parts(groups, order))
    ensures CountStarts(Emit(insts, order)) == |Keys(prog, Depths(prog, max), left, |prog|)|
  {
    OrderIsFull(prog, max, elim, succ, succ0, succ1, stopOf, left, rev, fixed, groups, rep, insts, maxDepth, preorder,
                order);
    ExpandIsGood(prog, max, elim, succ, succ0, succ1, stopOf, left, groups, rep, insts, order);
    EmitMerged(prog, groups, insts, order);
    RoundsCounted(prog, Depths(prog, max), left, stopOf, succ1, groups, rep, insts, order);
  }

  lemma MergesReady(prog: seq<Inst>, max: nat, elim: set<nat>, succ: Lists, succ0: Lists, stopOf: map<nat, nat>,
                    left: set<nat>, merges: map<nat, nat>, maxDepth: nat)
    requires Prepared(prog, max, elim, succ, succ0, stopOf, left)
      && MergesOk(prog, Depths(prog, max), left, merges, maxDepth)
    requires exists a: nat :: IsOpen(prog, left, a)
    ensures NoGaps(prog, Depths(prog, max), left) <==> forall i :: 1 <= i <= maxDepth ==> i in merges
    ensures forall i :: i in merges ==> StopAndStart(|prog|, stopOf, merges[i])
    ensures maxDepth > 0
  {
    PreparedReady(prog, max, elim, succ, succ0, stopOf, left);
    GapsAndMerges(prog, Depths(prog, max), left, merges, maxDepth);
    forall i | i in merges
      ensures StopAndStart(|prog|, stopOf, merges[i])
    {
      assert StopLeft(prog, Depths(prog, max), left, stopOf, merges[i]);
    }
    var a: nat :| IsOpen(prog, left, a);
    OpeningsDeep(prog, max, a);
    var d := Depths(prog, max)[a];
    assert d in merges && merges[d] < |prog| && d <= maxDepth;
  }

  /** longest_paths_merge, when there are openings left. The reverse depths are arbitrary. */
  method LongestPathsMerge(prog: seq<Inst>, G: SparseDiGraph, depths: seq<nat>, rev: seq<nat>, stopOf: map<nat, nat>,
                           left: set<nat>, fixed: set<nat>, ghost max: nat, ghost elim: set<nat>, ghost succ: Lists)
      returns (ok: bool, block: seq<Inst>, ghost parts: seq<seq<nat>>)
    requires G.Valid() && Prepared(prog, max, elim, succ, G.succ, stopOf, left) && |rev| == |prog|
      && depths == Depths(prog, max)
    requires exists a: nat :: IsOpen(prog, left, a)
    modifies G
    ensures ok <==> NoGaps(prog, depths, left)
    ensures ok ==> Regrouped(prog, left, block, parts)
    ensures ok ==> CountStarts(block) == |Keys(prog, depths, left, |prog|)|
  {
    ghost var succ0 := G.succ;
    PreparedReady(prog, max, elim, succ, succ0, stopOf, left);
    var merging := new Merging(prog, depths, G, left, stopOf);
    var merges, maxDepth := merging.AllRounds();
    MergesReady(prog, max, elim, succ, succ0, stopOf, left, merges, maxDepth);
    ghost var succ1 := G.succ;
    assert MergedGraph(prog, succ0, succ1, depths, stopOf, left, merging.groups, merging.rep, merging.insts);
    var preorder: seq<nat>;
    parts := [];
    ok, preorder := ComputePreorder(prog, G.succ, G.pred, depths, rev, left, fixed, stopOf, merges, maxDepth);
    if !ok {
      block := [];
      return;
    }
    var cycle, order := TopologicalSort(G.succ, preorder);
    RankedIsAcyclic(succ1, Ranks(prog, depths));
    OrderedResult(prog, max, elim, succ, succ0, succ1, stopOf, left, rev, fixed, merging.groups, merging.rep,
                  merging.insts,
                  maxDepth, preorder, order);
    block, parts := Emit(merging.insts, order), Parts(merging.groups, order);
  }

  // ---------- optimize ----------

  /** Whether merge_nodes is non-empty. */
  method AnyOpen(prog: seq<Inst>, left: set<nat>) returns (found: bool)
    ensures found <==> exists a: nat :: IsOpen(prog, left, a)
  {
    found := false;
    for v := 0 to |prog|
      invariant found <==> exists a: nat :: a < v && IsOpen(prog, left, a)
    {
      if IsOpen(prog, left, v) {
        found := true;
      }
    }
  }

  /** Without openings the instructions that are left stay in order. */
  lemma Unmerged(prog: seq<Inst>, elim: set<nat>, depths: seq<nat>)
    requires ValidBlock(prog) && |depths| == |prog| && !exists a: nat :: IsOpen(prog, Survivors(prog, elim), a)
    ensures var order := LeftUpto(Survivors(prog, elim), |prog|);
      && InProgram(prog, order)
      && Regrouped(prog, Survivors(prog, elim), Along(prog, order), Singles(order))
      && CountStarts(Along(prog, order)) == |Keys(prog, depths, Survivors(prog, elim), |prog|)|
    ensures NoGaps(prog, depths, Survivors(prog, elim))
  {
    var left := Survivors(prog, elim);
    var order := LeftUpto(left, |prog|);
    SurvivorsWhole(prog, elim);
    InLeft(prog, left, |prog|);
    ProgramOrderInTurn(prog, left);
    FlatSingles(order);
    forall k | 0 <= k < |order|
      ensures Mergeable(prog, [order[k]]) && Joined(prog, [order[k]]) == Is(prog[order[k]])
    {
      JoinedAlone(prog, order[k]);
    }
    NoOpenings(prog, depths, left);
  }

  lemma NoOpenings(prog: seq<Inst>, depths: seq<nat>, left: set<nat>)
    requires |depths| == |prog| && !exists a: nat :: IsOpen(prog, left, a)
    ensures InProgram(prog, LeftUpto(left, |prog|))
    ensures CountStarts(Along(prog, LeftUpto(left, |prog|))) == |Keys(prog, depths, left, |prog|)|
  {
    InLeft(prog, left, |prog|);
    var order := LeftUpto(left, |prog|);
    var block := Along(prog, order);
    forall k | 0 <= k < |block|
      ensures !block[k].StartOpen?
    {
      assert order[k] in order;
      assert !IsOpen(prog, left, order[k]);
    }
    NoStarts(block);
    forall k: Rank
      ensures k !in Keys(prog, depths, left, |prog|)
    {
      KeysMembers(prog, depths, left, |prog|, k);
    }
    assert Keys(prog, depths, left, |prog|) == {};
  }

  lemma {:induction false} NoStarts(block: seq<Inst>)
    requires forall k :: 0 <= k < |block| ==> !block[k].StartOpen?
    ensures CountStarts(block) == 0
    decreases |block|
  {
    if block != [] {
      NoStarts(block[1..]);
    }
  }

  /** The instructions in order if there are no openings, else the merged ones. */
  method MergeOrKeep(prog: seq<Inst>, G: SparseDiGraph, depths: seq<nat>, rev: seq<nat>, stopOf: map<nat, nat>,
                     left: set<nat>, fixed: set<nat>, ghost max: nat, ghost elim: set<nat>, ghost succ: Lists)
      returns (ok: bool, block: seq<Inst>, ghost parts: seq<seq<nat>>)
    requires G.Valid() && Prepared(prog, max, elim, succ, G.succ, stopOf, left) && |rev| == |prog|
      && depths == Depths(prog, max)
    modifies G
    ensures ok <==> NoGaps(prog, depths, left)
    ensures ok ==> Regrouped(prog, left, block, parts)
    ensures ok ==> CountStarts(block) == |Keys(prog, depths, left, |prog|)|
  {
    var someOpen := AnyOpen(prog, left);
    if someOpen {
      ok, block, parts := LongestPathsMerge(prog, G, depths, rev, stopOf, left, fixed, max, elim, succ);
    } else {
      Unmerged(prog, elim, depths);
      ok, block, parts := true, Along(prog, LeftUpto(left, |prog|)), Singles(LeftUpto(left, |prog|));
    }
  }

  /** The passes on one block. The new block has every surviving instruction exactly once and one opening for every
      depth and field, and computes what the block computed, on every machine and from every store. The pass fails
      exactly if the survivors have no opening on some level below another opening; see Gaps. */
  method Optimize<V(!new)>(prog: seq<Inst>, max: nat, elim: set<nat>, fixed: set<nat>, rev: seq<nat>)
    returns (ok: bool, block: seq<Inst>, ghost parts: seq<seq<nat>>)
    requires ValidBlock(prog) && |rev| == |prog|
    ensures ok <==> NoGaps(prog, Depths(prog, max), Survivors(prog, elim))
    ensures elim == {} ==> ok
    ensures max == 0 && (OneField(prog, false) || OneField(prog, true)) ==> ok
    ensures ok ==> Regrouped(prog, Survivors(prog, elim), block, parts)
    ensures ok ==> |parts| == |block| && forall k :: 0 <= k < |block| ==> StandsFor(prog, block[k], parts[k])
    ensures ok ==> CountStarts(block) == |Keys(prog, Depths(prog, max), Survivors(prog, elim), |prog|)|
    ensures ok ==> forall M: Machine<V>, s: Store<V> :: OpensEach(M) && CopiesEach(M) ==>
      SameOutcome(M, prog, Survivors(prog, elim), ExecAll(M, State(s, []), prog), ExecAll(M, State(s, []), block))
  {
    var merger := new Merger(prog, max);
    merger.DependencyGraph();
    var G, ds, stops := merger.G, merger.depths, merger.stopOf;
    ghost var succ := G.succ;
    var remaining := EliminateDeadCode(prog, G, ds, stops, elim);
    PreparedFrom(prog, max, elim, succ, G.succ, stops, remaining);
    ok, block, parts := MergeOrKeep(prog, G, ds, rev, stops, remaining, fixed, max, elim, succ);
    WhenNoGaps(prog, max, elim);
    if ok {
      forall k | 0 <= k < |block|
        ensures StandsFor(prog, block[k], parts[k])
      {
        MergedStandsFor(prog, block, parts, k);
      }
      forall M: Machine<V>, s: Store<V> | OpensEach(M) && CopiesEach(M)
        ensures SameOutcome(M, prog, Survivors(prog, elim), ExecAll(M, State(s, []), prog),
                            ExecAll(M, State(s, []), block))
      {
        RegroupedComputes(M, s, prog, elim, block, parts);
      }
    }
  }
}
