/**
 Two writes of one memory cell. handle_mem_access of Compiler/allocator.py adds edges between reads
 and writes of a cell, but none between two writes: their order is kept through a read or not at all.
 */
module Stores {
  import opened Schedule
  import opened Blocks
  import opened Graph
  import opened Queues

  /** The dependencies for which the graph gets an edge. */
  ghost predicate Linked(prog: seq<Inst>, j: nat, i: nat) {
    DependsOn(prog, j, i) && !(prog[i].StoreMem? && prog[j].StoreMem?)
  }

  /** A graph as dependency_graph builds it: edges for such dependencies only, and a path for each. */
  ghost predicate AreLinks(prog: seq<Inst>, succ: Lists) {
    && (forall v: nat, w: nat :: Edge(succ, v, w) ==> Linked(prog, w, v))
    && (forall v: nat, w: nat :: Linked(prog, w, v) ==> Reach(succ, v, w))
  }

  lemma {:induction false} PathRises(prog: seq<Inst>, succ: Lists, p: seq<nat>)
    requires AreLinks(prog, succ) && p != [] && IsPath(succ, p)
    ensures p[0] <= p[|p| - 1]
    decreases |p|
  {
    if |p| > 1 {
      assert Edge(succ, p[0], p[0 + 1]);
      PathTail(succ, p);
      PathRises(prog, succ, p[1..]);
    }
  }

  /** The edges keep two writes of a cell in order exactly if the cell is read between them. */
  lemma WritesOrdered(prog: seq<Inst>, succ: Lists, i: nat, j: nat)
    requires OpensPaired(prog) && AreLinks(prog, succ) && i < j < |prog|
    requires prog[i].StoreMem? && Writes(prog[j], prog[i].kind, prog[i].addr)
    ensures Reach(succ, i, j) <==> ReadBetween(prog, i, j)
  {
    if Reach(succ, i, j) {
      var p: seq<nat> :| |p| >= 2 && p[0] == i && p[|p| - 1] == j && IsPath(succ, p);
      assert Edge(succ, p[0], p[0 + 1]);
      PathTail(succ, p);
      PathRises(prog, succ, p[1..]);
      assert PairedAt(prog, p[1]);
      assert Reads(prog[p[1]], prog[i].kind, prog[i].addr);
    }
    if ReadBetween(prog, i, j) {
      var k: nat :| i < k < j && Reads(prog[k], prog[i].kind, prog[i].addr);
      assert Linked(prog, k, i) && Linked(prog, j, k);
      ReachTrans(succ, i, k, j);
    }
  }

  /** Two writes and nothing between them. */
  function Pair(kind: nat, addr: nat): seq<Inst> {
    [StoreMem(0, kind, addr), StoreMem(1, kind, addr)]
  }

  lemma Copied<V(!new)>(M: Machine<V>, s: Store<V>, r: nat, kind: nat, addr: nat)
    requires CopiesEach(M)
    ensures Do(M, s, Step(COPY, [Reg(r)], [Mem(kind, addr)])) == s[Mem(kind, addr) := Get(M, s, Reg(r))]
  {
    var v := Get(M, s, Reg(r));
    assert Read(M, s, [Reg(r)]) == [v];
    assert M.sem(COPY, [v]) == [v];
    var c := s[Mem(kind, addr) := v];
    assert Write(M, c, [Mem(kind, addr)][1..], [v][1..]) == c;
  }

  /** No edge keeps the two in order, and what they leave depends on it. */
  lemma PairMayCross<V(!new)>(M: Machine<V>, s: Store<V>, kind: nat, addr: nat)
    requires CopiesEach(M) && Get(M, s, Reg(0)) != Get(M, s, Reg(1))
    ensures forall i: nat, j: nat :: !Linked(Pair(kind, addr), j, i)
    ensures InProgram(Steps(Pair(kind, addr)), [0, 1]) && InProgram(Steps(Pair(kind, addr)), [1, 0])
    ensures Run(M, s, Steps(Pair(kind, addr)), [0, 1]) != Run(M, s, Steps(Pair(kind, addr)), [1, 0])
  {
    var steps, c := Steps(Pair(kind, addr)), Mem(kind, addr);
    var s0, s1 := s[c := Get(M, s, Reg(0))], s[c := Get(M, s, Reg(1))];
    Copied(M, s, 0, kind, addr);
    Copied(M, s, 1, kind, addr);
    Copied(M, s0, 1, kind, addr);
    Copied(M, s1, 0, kind, addr);
    assert Run(M, s0, steps, [1]) == s0[c := Get(M, s, Reg(1))];
    assert Run(M, s1, steps, [0]) == s1[c := Get(M, s, Reg(0))];
    assert [0, 1][1..] == [1] && [1, 0][1..] == [0];
    assert Run(M, s, steps, [0, 1])[c] != Run(M, s, steps, [1, 0])[c];
  }
}
