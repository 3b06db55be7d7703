/**
 Basic blocks as Compiler/allocator.py sees them: scalar registers that are assigned once, direct
 memory addresses, channels whose instructions keep their order, and openings that are started and
 stopped in turn. Says what a block computes, and encodes instructions as steps on locations.
 */
module Blocks {
  import opened Schedule

  datatype Inst =
    | Compute(op: nat, defs: seq<nat>, uses: seq<nat>)
    | Load(dest: nat, kind: nat, addr: nat)
    | StoreMem(source: nat, kind: nat, addr: nat)
    | Ordered(op: nat, chan: nat, defs: seq<nat>, uses: seq<nat>)   // I/O, inputs, stacks, files
    | StartOpen(gf2n: bool, uses: seq<nat>)
    | StopOpen(defs: seq<nat>)

  /** get_def */
  function Defs(x: Inst): seq<nat> {
    match x
    case Compute(_, d, _) => d
    case Load(d, _, _) => [d]
    case StoreMem(_, _, _) => []
    case Ordered(_, _, d, _) => d
    case StartOpen(_, _) => []
    case StopOpen(d) => d
  }

  /** get_used */
  function Uses(x: Inst): seq<nat> {
    match x
    case Compute(_, _, u) => u
    case Load(_, _, _) => []
    case StoreMem(r, _, _) => [r]
    case Ordered(_, _, _, u) => u
    case StartOpen(_, u) => u
    case StopOpen(_) => []
  }

  function Regs(rs: seq<nat>): (r: seq<Loc>)
    ensures |r| == |rs| && forall i :: 0 <= i < |rs| ==> r[i] == Reg(rs[i])
  {
    seq(|rs|, i requires 0 <= i < |rs| => Reg(rs[i]))
  }

  function Slots(start: nat, n: nat): (r: seq<Loc>)
    ensures |r| == n && forall i :: 0 <= i < n ==> r[i] == Slot(start, i)
  {
    seq(n, i requires 0 <= i < n => Slot(start, i))
  }

  // ---------- pairing starts and stops ----------

  /** The openings that are started but not yet stopped before instruction n, oldest first. */
  function Pending(prog: seq<Inst>, n: nat): (r: seq<nat>)
    requires n <= |prog|
    ensures forall k :: 0 <= k < |r| ==> r[k] < n && prog[r[k]].StartOpen?
  {
    if n == 0 then [] else
      var p := Pending(prog, n - 1);
      match prog[n - 1]
      case StartOpen(_, _) => p + [n - 1]
      case StopOpen(_) => if p == [] then [] else p[1..]
      case _ => p
  }

  /** The start that belongs to stop n. */
  function StartOf(prog: seq<Inst>, n: nat): (s: nat)
    requires n < |prog|
    ensures prog[n].StopOpen? && Pending(prog, n) != [] ==> s < n && prog[s].StartOpen?
  {
    if Pending(prog, n) == [] then 0 else Pending(prog, n)[0]
  }

  /** The oldest opening is stopped first, with as many values as were started. */
  predicate OpensPaired(prog: seq<Inst>) {
    Pending(prog, |prog|) == [] && forall n :: 0 <= n < |prog| ==> PairedAt(prog, n)
  }

  predicate PairedAt(prog: seq<Inst>, n: nat)
    requires n < |prog|
  {
    prog[n].StopOpen? ==> Pending(prog, n) != [] && |prog[n].defs| == |prog[StartOf(prog, n)].uses|
  }

  // ---------- what the passes rely on ----------

  /** No register is defined by both. */
  ghost predicate DefsApart(x: Inst, y: Inst) {
    forall r :: r in Defs(x) ==> r !in Defs(y)
  }

  /** x does not use what y defines. */
  ghost predicate UsesApart(x: Inst, y: Inst) {
    forall r :: r in Uses(x) ==> r !in Defs(y)
  }

  ghost predicate DefinesOnce(prog: seq<Inst>) {
    forall i, j :: 0 <= i < j < |prog| ==> DefsApart(prog[i], prog[j])
  }

  ghost predicate UsesAfterDefinition(prog: seq<Inst>) {
    forall i, j :: 0 <= i <= j < |prog| ==> UsesApart(prog[i], prog[j])
  }

  predicate Writes(x: Inst, kind: nat, addr: nat) {
    x.StoreMem? && x.kind == kind && x.addr == addr
  }

  predicate Reads(x: Inst, kind: nat, addr: nat) {
    x.Load? && x.kind == kind && x.addr == addr
  }

  ghost predicate ReadBetween(prog: seq<Inst>, i: nat, j: nat)
    requires i < j < |prog|
  {
    prog[i].StoreMem? && Writes(prog[j], prog[i].kind, prog[i].addr) ==>
      exists k :: i < k < j && Reads(prog[k], prog[i].kind, prog[i].addr)
  }

  /** Between two writes of a memory cell there is a read of it. */
  ghost predicate WritesSeparated(prog: seq<Inst>) {
    forall i: nat, j: nat :: i < j < |prog| ==> ReadBetween(prog, i, j)
  }

  ghost predicate ValidBlock(prog: seq<Inst>) {
    DefinesOnce(prog) && UsesAfterDefinition(prog) && WritesSeparated(prog) && OpensPaired(prog)
  }

  // ---------- instructions as steps ----------

  const COPY: nat := 2

  /** Each field is opened by an operation of its own. */
  function Opening(gf2n: bool): nat {
    if gf2n then 1 else 0
  }

  function Encode(prog: seq<Inst>, n: nat): Step
    requires n < |prog|
  {
    match prog[n]
    case Compute(op, d, u) => Step(op + 3, Regs(u), Regs(d))
    case Load(d, k, a) => Step(COPY, [Mem(k, a)], [Reg(d)])
    case StoreMem(r, k, a) => Step(COPY, [Reg(r)], [Mem(k, a)])
    case Ordered(op, c, d, u) => Step(op + 3, Regs(u) + [Chan(c)], Regs(d) + [Chan(c)])
    case StartOpen(g, u) => Step(Opening(g), Regs(u), Slots(n, |u|))
    case StopOpen(d) => Step(COPY, Slots(StartOf(prog, n), |d|), Regs(d))
  }

  function Steps(prog: seq<Inst>): (r: seq<Step>)
    ensures |r| == |prog| && forall n :: 0 <= n < |prog| ==> r[n] == Encode(prog, n)
  {
    seq(|prog|, n requires 0 <= n < |prog| => Encode(prog, n))
  }

  /** Why instruction j has to stay after instruction i. */
  ghost predicate DependsOn(prog: seq<Inst>, j: nat, i: nat) {
    && i < j < |prog|
    && (|| (exists r :: r in Defs(prog[i]) && r in Uses(prog[j]))
        || (prog[i].StoreMem? && Reads(prog[j], prog[i].kind, prog[i].addr))
        || (prog[i].Load? && Writes(prog[j], prog[i].kind, prog[i].addr))
        || (prog[i].StoreMem? && Writes(prog[j], prog[i].kind, prog[i].addr))
        || (prog[i].Ordered? && prog[j].Ordered? && prog[i].chan == prog[j].chan)
        || (prog[j].StopOpen? && i == StartOf(prog, j)))
  }

  lemma {:induction false} PendingAscends(prog: seq<Inst>, n: nat)
    requires n <= |prog|
    ensures forall k, l :: 0 <= k < l < |Pending(prog, n)| ==> Pending(prog, n)[k] < Pending(prog, n)[l]
  {
    if n > 0 {
      PendingAscends(prog, n - 1);
      var p, q := Pending(prog, n - 1), Pending(prog, n);
      assert q == p + [n - 1] || q == p || (p != [] && q == p[1..]);
    }
  }

  /** What was oldest before stop i is older than everything pending at j > i. */
  lemma {:induction false} PendingAfter(prog: seq<Inst>, i: nat, j: nat)
    requires i < j <= |prog| && prog[i].StopOpen? && Pending(prog, i) != []
    ensures forall k :: 0 <= k < |Pending(prog, j)| ==> StartOf(prog, i) < Pending(prog, j)[k]
    decreases j
  {
    var p, q := Pending(prog, j - 1), Pending(prog, j);
    if j > i + 1 {
      PendingAfter(prog, i, j - 1);
      assert q == p + [j - 1] || q == p || (p != [] && q == p[1..]);
    } else {
      PendingAscends(prog, i);
      assert q == p[1..];
    }
  }

  /** Later stops have later starts. */
  lemma StartsDiffer(prog: seq<Inst>, i: nat, j: nat)
    requires OpensPaired(prog) && i < j < |prog| && prog[i].StopOpen? && prog[j].StopOpen?
    ensures StartOf(prog, i) < StartOf(prog, j)
  {
    assert PairedAt(prog, i) && PairedAt(prog, j);
    PendingAfter(prog, i, j);
  }

  /** What an instruction touches, by kind of location. */
  ghost predicate Touches(prog: seq<Inst>, n: nat, l: Loc, out: bool)
    requires n < |prog|
  {
    match l
    case Reg(r) => r in if out then Defs(prog[n]) else Uses(prog[n])
    case Mem(k, a) => if out then Writes(prog[n], k, a) else Reads(prog[n], k, a)
    case Chan(c) => prog[n].Ordered? && prog[n].chan == c
    case Slot(s, _) => if out then prog[n].StartOpen? && s == n else prog[n].StopOpen? && s == StartOf(prog, n)
  }

  lemma EncodeTouches(prog: seq<Inst>, n: nat, l: Loc)
    requires n < |prog|
    ensures l in Encode(prog, n).ins ==> Touches(prog, n, l, false)
    ensures l in Encode(prog, n).outs ==> Touches(prog, n, l, true)
  {
  }

  lemma NoClash(prog: seq<Inst>, i: nat, j: nat, l: Loc)
    requires ValidBlock(prog) && i < j < |prog| && !DependsOn(prog, j, i)
    ensures !(Touches(prog, i, l, true) && Touches(prog, j, l, true))
    ensures !(Touches(prog, i, l, true) && Touches(prog, j, l, false))
    ensures !(Touches(prog, i, l, false) && Touches(prog, j, l, true))
  {
    assert DefsApart(prog[i], prog[j]) && UsesApart(prog[i], prog[j]);
    match l
    case Slot(_, _) =>
      assert PairedAt(prog, i) && PairedAt(prog, j);
    case Chan(_) =>
    case Mem(_, _) =>
    case Reg(r) =>
      assert !(r in Defs(prog[i]) && r in Uses(prog[j]));
  }

  predicate Clashes(x: Step, y: Step, l: Loc) {
    (l in x.outs && (l in y.outs || l in y.ins)) || (l in x.ins && l in y.outs)
  }

  lemma ClashFree(x: Step, y: Step)
    requires forall l :: !Clashes(x, y, l)
    ensures Independent(x, y)
  {
    forall p, q | 0 <= p < |x.outs| && 0 <= q < |y.outs|
      ensures x.outs[p] != y.outs[q]
    {
      assert !Clashes(x, y, x.outs[p]);
    }
    forall p, q | 0 <= p < |x.outs| && 0 <= q < |y.ins|
      ensures x.outs[p] != y.ins[q]
    {
      assert !Clashes(x, y, x.outs[p]);
    }
    forall p, q | 0 <= p < |x.ins| && 0 <= q < |y.outs|
      ensures x.ins[p] != y.outs[q]
    {
      assert !Clashes(x, y, x.ins[p]);
    }
  }

  /** Everything that may not be reordered is a dependency. */
  lemma IndependentOrDepends(prog: seq<Inst>, i: nat, j: nat)
    requires ValidBlock(prog) && i < j < |prog| && !DependsOn(prog, j, i)
    ensures Independent(Encode(prog, i), Encode(prog, j))
  {
    var x, y := Encode(prog, i), Encode(prog, j);
    forall l
      ensures !Clashes(x, y, l)
    {
      EncodeTouches(prog, i, l);
      EncodeTouches(prog, j, l);
      NoClash(prog, i, j, l);
    }
    ClashFree(x, y);
  }
}
