/**
 When may instructions be reordered? Instructions read and write locations. Every order that keeps
 conflicting instructions in sequence computes the same state; this is what the passes of
 Compiler/allocator.py rely on.
 */
module Schedule {
  import opened Sequences

  /** A register, a memory cell of one kind, an I/O channel, or a value on its way between the start
      and the stop of an opening. */
  datatype Loc = Reg(r: nat) | Mem(kind: nat, addr: nat) | Chan(c: nat) | Slot(start: nat, pos: nat)

  datatype Step = Step(op: nat, ins: seq<Loc>, outs: seq<Loc>)

  /** What the operations compute is arbitrary. */
  datatype Machine<!V> = Machine(sem: (nat, seq<V>) -> seq<V>, zero: V)

  type Store<V> = map<Loc, V>

  function Get<V>(M: Machine<V>, s: Store<V>, l: Loc): V {
    if l in s then s[l] else M.zero
  }

  function Read<V>(M: Machine<V>, s: Store<V>, ls: seq<Loc>): (r: seq<V>)
    ensures |r| == |ls|
  {
    seq(|ls|, i requires 0 <= i < |ls| => Get(M, s, ls[i]))
  }

  function Write<V>(M: Machine<V>, s: Store<V>, ls: seq<Loc>, vs: seq<V>): Store<V>
    decreases |ls|
  {
    if ls == [] then s
    else if vs == [] then Write(M, s[ls[0] := M.zero], ls[1..], [])
    else Write(M, s[ls[0] := vs[0]], ls[1..], vs[1..])
  }

  function Do<V>(M: Machine<V>, s: Store<V>, x: Step): Store<V> {
    Write(M, s, x.outs, M.sem(x.op, Read(M, s, x.ins)))
  }

  /** Runs the steps of prog in the order of the indices. */
  function Run<V>(M: Machine<V>, s: Store<V>, prog: seq<Step>, order: seq<nat>): Store<V>
    requires InProgram(prog, order)
    decreases |order|
  {
    if order == [] then s else Run(M, Do(M, s, prog[order[0]]), prog, order[1..])
  }

  predicate InProgram<T>(prog: seq<T>, order: seq<nat>) {
    forall k :: 0 <= k < |order| ==> order[k] < |prog|
  }

  // ---------- conflicts ----------

  predicate Disjoint(a: seq<Loc>, b: seq<Loc>) {
    forall i, j :: 0 <= i < |a| && 0 <= j < |b| ==> a[i] != b[j]
  }

  predicate Independent(x: Step, y: Step) {
    Disjoint(x.outs, y.outs) && Disjoint(x.outs, y.ins) && Disjoint(x.ins, y.outs)
  }

  lemma {:induction false} WriteElsewhere<V>(M: Machine<V>, s: Store<V>, ls: seq<Loc>, vs: seq<V>, l: Loc)
    requires forall i :: 0 <= i < |ls| ==> ls[i] != l
    ensures (l in Write(M, s, ls, vs) <==> l in s) && Get(M, Write(M, s, ls, vs), l) == Get(M, s, l)
    decreases |ls|
  {
    if ls != [] {
      if vs == [] {
        WriteElsewhere(M, s[ls[0] := M.zero], ls[1..], [], l);
      } else {
        WriteElsewhere(M, s[ls[0] := vs[0]], ls[1..], vs[1..], l);
      }
    }
  }

  lemma ReadUnwritten<V>(M: Machine<V>, s: Store<V>, ls: seq<Loc>, vs: seq<V>, rs: seq<Loc>)
    requires Disjoint(ls, rs)
    ensures Read(M, Write(M, s, ls, vs), rs) == Read(M, s, rs)
  {
    var s1 := Write(M, s, ls, vs);
    forall i | 0 <= i < |rs|
      ensures Read(M, s1, rs)[i] == Read(M, s, rs)[i]
    {
      WriteElsewhere(M, s, ls, vs, rs[i]);
    }
  }

  /** A single write moves past writes of other locations. */
  lemma {:induction false} WriteOneCommutes<V>(M: Machine<V>, s: Store<V>, l: Loc, v: V, ls: seq<Loc>, vs: seq<V>)
    requires forall i :: 0 <= i < |ls| ==> ls[i] != l
    ensures Write(M, s[l := v], ls, vs) == Write(M, s, ls, vs)[l := v]
    decreases |ls|
  {
    if ls != [] {
      var w, rest := if vs == [] then M.zero else vs[0], if vs == [] then [] else vs[1..];
      WriteOneCommutes(M, s[ls[0] := w], l, v, ls[1..], rest);
      assert s[l := v][ls[0] := w] == s[ls[0] := w][l := v];
    }
  }

  lemma {:induction false} WritesCommute<V>(M: Machine<V>, s: Store<V>, a: seq<Loc>, va: seq<V>, b: seq<Loc>,
                                            vb: seq<V>)
    requires Disjoint(a, b)
    ensures Write(M, Write(M, s, a, va), b, vb) == Write(M, Write(M, s, b, vb), a, va)
    decreases |a|
  {
    if a != [] {
      var w, rest := if va == [] then M.zero else va[0], if va == [] then [] else va[1..];
      forall j | 0 <= j < |b|
        ensures b[j] != a[0]
      {
      }
      WriteOneCommutes(M, s, a[0], w, b, vb);
      WritesCommute(M, s[a[0] := w], a[1..], rest, b, vb);
    }
  }

  lemma IndependentCommute<V>(M: Machine<V>, s: Store<V>, x: Step, y: Step)
    requires Independent(x, y)
    ensures Do(M, Do(M, s, x), y) == Do(M, Do(M, s, y), x)
  {
    var vx, vy := M.sem(x.op, Read(M, s, x.ins)), M.sem(y.op, Read(M, s, y.ins));
    assert Disjoint(y.outs, x.ins);
    ReadUnwritten(M, s, x.outs, vx, y.ins);
    ReadUnwritten(M, s, y.outs, vy, x.ins);
    WritesCommute(M, s, x.outs, vx, y.outs, vy);
  }

  // ---------- reordering ----------

  /** No two conflicting instructions have changed places. */
  ghost predicate Respects(prog: seq<Step>, order: seq<nat>) {
    && InProgram(prog, order)
    && forall p, q :: 0 <= p < q < |order| && order[q] < order[p] ==> Independent(prog[order[q]], prog[order[p]])
  }

  lemma {:induction false} RunConcat<V>(M: Machine<V>, s: Store<V>, prog: seq<Step>, a: seq<nat>, b: seq<nat>)
    requires InProgram(prog, a) && InProgram(prog, b)
    ensures InProgram(prog, a + b) && Run(M, s, prog, a + b) == Run(M, Run(M, s, prog, a), prog, b)
    decreases |a|
  {
    if a == [] {
      assert a + b == b;
    } else {
      assert (a + b)[1..] == a[1..] + b;
      RunConcat(M, Do(M, s, prog[a[0]]), prog, a[1..], b);
    }
  }

  /** An instruction that is independent of all before it can be run first. */
  lemma {:induction false} MoveFront<V>(M: Machine<V>, s: Store<V>, prog: seq<Step>, before: seq<nat>, x: nat)
    requires InProgram(prog, before) && x < |prog|
    requires forall q :: 0 <= q < |before| ==> Independent(prog[before[q]], prog[x])
    ensures InProgram(prog, before + [x]) && InProgram(prog, [x] + before)
    ensures Run(M, s, prog, before + [x]) == Run(M, s, prog, [x] + before)
    decreases |before|
  {
    if before == [] {
      assert before + [x] == [x] + before;
    } else {
      var y, rest := before[0], before[1..];
      var s1 := Do(M, s, prog[y]);
      MoveFront(M, s1, prog, rest, x);
      assert (before + [x])[1..] == rest + [x];
      assert ([x] + rest)[1..] == rest && ([x] + before)[1..] == before;
      IndependentCommute(M, s, prog[y], prog[x]);
    }
  }

  /** The same from the middle of an order. */
  lemma PullFront<V>(M: Machine<V>, s: Store<V>, prog: seq<Step>, u: seq<nat>, x: nat, v: seq<nat>)
    requires InProgram(prog, u) && InProgram(prog, v) && x < |prog|
    requires forall q :: 0 <= q < |u| ==> Independent(prog[u[q]], prog[x])
    ensures InProgram(prog, u + [x] + v) && InProgram(prog, u + v)
    ensures Run(M, s, prog, u + [x] + v) == Run(M, Do(M, s, prog[x]), prog, u + v)
  {
    MoveFront(M, s, prog, u, x);
    RunConcat(M, s, prog, u + [x], v);
    RunConcat(M, s, prog, [x] + u, v);
    assert [x] + u + v == [x] + (u + v) && ([x] + (u + v))[1..] == u + v;
  }

  lemma Without<T>(a: seq<T>, p: nat)
    requires p < |a|
    ensures a == a[..p] + [a[p]] + a[p + 1..]
    ensures multiset(a[..p] + a[p + 1..]) == multiset(a) - multiset{a[p]}
  {
    assert a == a[..p] + [a[p]] + a[p + 1..];
  }

  lemma WithoutRespects(prog: seq<Step>, a: seq<nat>, p: nat)
    requires Respects(prog, a) && NoDuplicates(a) && p < |a|
    ensures Respects(prog, a[..p] + a[p + 1..]) && NoDuplicates(a[..p] + a[p + 1..])
  {
    var b := a[..p] + a[p + 1..];
    forall i, j | 0 <= i < j < |b|
      ensures b[i] != b[j] && (b[j] < b[i] ==> Independent(prog[b[j]], prog[b[i]]))
    {
      var k, l := if i < p then i else i + 1, if j < p then j else j + 1;
      assert b[i] == a[k] && b[j] == a[l];
    }
  }

  /** Two orders of the same instructions, both of which keep conflicting ones in sequence. */
  ghost predicate SameWork(prog: seq<Step>, a: seq<nat>, b: seq<nat>) {
    Respects(prog, a) && Respects(prog, b) && NoDuplicates(a) && NoDuplicates(b) && multiset(a) == multiset(b)
  }

  /** What comes before b[0] in the other order is independent of it. */
  lemma BeforeIsIndependent(prog: seq<Step>, a: seq<nat>, b: seq<nat>, p: nat, q: nat)
    requires SameWork(prog, a, b)
    requires q < p < |a| && b != [] && a[p] == b[0]
    ensures Independent(prog[a[q]], prog[b[0]])
  {
    assert a[q] in multiset(a);
    var r :| 0 <= r < |b| && b[r] == a[q];
    assert r > 0;
    if a[q] < b[0] {
      assert Independent(prog[b[r]], prog[b[0]]);
    } else {
      assert Independent(prog[a[p]], prog[a[q]]);
    }
  }

  /** The first instruction of one order, in the other. */
  lemma FirstInOther(prog: seq<Step>, a: seq<nat>, b: seq<nat>) returns (p: nat)
    requires SameWork(prog, a, b) && b != []
    ensures p < |a| && a[p] == b[0]
    ensures SameWork(prog, a[..p] + a[p + 1..], b[1..])
    ensures forall q :: 0 <= q < p ==> Independent(prog[a[q]], prog[b[0]])
  {
    assert b[0] in multiset(b);
    p :| 0 <= p < |a| && a[p] == b[0];
    Without(a, p);
    Without(b, 0);
    assert b[..0] + b[1..] == b[1..];
    WithoutRespects(prog, a, p);
    WithoutRespects(prog, b, 0);
    forall q | 0 <= q < p
      ensures Independent(prog[a[q]], prog[b[0]])
    {
      BeforeIsIndependent(prog, a, b, p, q);
    }
  }

  /** All orders that keep conflicting instructions in sequence compute the same. */
  lemma {:induction false} OrderIrrelevant<V>(M: Machine<V>, s: Store<V>, prog: seq<Step>, a: seq<nat>, b: seq<nat>)
    requires SameWork(prog, a, b)
    ensures Run(M, s, prog, a) == Run(M, s, prog, b)
    decreases |b|
  {
    assert |multiset(a)| == |multiset(b)|;
    if b != [] {
      var p := FirstInOther(prog, a, b);
      var u, x, v := a[..p], b[0], a[p + 1..];
      assert a == u + [x] + v;
      PullFront(M, s, prog, u, x, v);
      OrderIrrelevant(M, Do(M, s, prog[x]), prog, u + v, b[1..]);
    }
  }
}
