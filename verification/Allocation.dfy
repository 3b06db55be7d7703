/**
 StraightlineAllocator of Compiler/allocator.py: physical registers for a block whose registers
 are written once, chosen by one scan from the last instruction to the first.
 */
module Allocation {

  datatype Kind = ClearModp | SecretModp | ClearGF2N | SecretGF2N | ClearInt | ClearBit | SecretBit

  /** Element offset of the vector name of the given size; a scalar is a vector of size one. */
  datatype Reg = Reg(kind: Kind, name: nat, size: nat, offset: nat)

  predicate IsReg(r: Reg) {
    r.offset < r.size
  }

  function Base(r: Reg): Reg {
    r.(offset := 0)
  }

  function Vector(r: Reg): set<Reg> {
    set i | 0 <= i < r.size :: r.(offset := i)
  }

  /** An instruction that works on whole vectors names them by their first elements. */
  datatype Operation = Operation(defs: seq<Reg>, uses: seq<Reg>, vec: bool)

  predicate IsOperation(x: Operation) {
    && (forall i :: 0 <= i < |x.defs| ==> IsReg(x.defs[i]) && (x.vec ==> x.defs[i].offset == 0))
    && (forall i :: 0 <= i < |x.uses| ==> IsReg(x.uses[i]) && (x.vec ==> x.uses[i].offset == 0))
    && (forall i, j :: 0 <= i < j < |x.defs| ==> x.defs[i] != x.defs[j])
  }

  predicate IsBlock(prog: seq<Operation>) {
    forall k :: 0 <= k < |prog| ==> IsOperation(prog[k])
  }

  /** The elements that an argument stands for, in order. */
  function Elements(r: Reg, vec: bool): seq<Reg> {
    if vec then seq(r.size, i requires 0 <= i < r.size => r.(offset := i)) else [r]
  }

  function All(rs: seq<Reg>, vec: bool): seq<Reg> {
    if rs == [] then [] else Elements(rs[0], vec) + All(rs[1..], vec)
  }

  function Touched(r: Reg, vec: bool): set<Reg> {
    if vec then Vector(r) else {r}
  }

  function TouchedBy(rs: seq<Reg>, vec: bool): set<Reg> {
    set i, r | 0 <= i < |rs| && r in Touched(rs[i], vec) :: r
  }

  function Defs(x: Operation): set<Reg> {
    TouchedBy(x.defs, x.vec)
  }

  function Uses(x: Operation): set<Reg> {
    TouchedBy(x.uses, x.vec)
  }

  /** What the instructions from k on write. */
  function DefsFrom(prog: seq<Operation>, k: nat): set<Reg>
    requires k <= |prog|
    decreases |prog| - k
  {
    if k == |prog| then {} else Defs(prog[k]) + DefsFrom(prog, k + 1)
  }

  ghost predicate FirstWrite(prog: seq<Operation>, later: set<Reg>, k: nat)
    requires k < |prog|
  {
    Defs(prog[k]) !! later + DefsFrom(prog, k + 1) && Uses(prog[k]) !! later + DefsFrom(prog, k)
  }

  /** Every register is written once, also counting later blocks, and before it is read. */
  ghost predicate WrittenOnce(prog: seq<Operation>, later: set<Reg>, k: nat)
    requires k <= |prog|
    decreases |prog| - k
  {
    k < |prog| ==> FirstWrite(prog, later, k) && WrittenOnce(prog, later, k + 1)
  }

  /** The registers whose values matter before instruction k, if those of out matter at the end. */
  function Live(prog: seq<Operation>, out: set<Reg>, k: nat): set<Reg>
    requires k <= |prog|
    decreases |prog| - k
  {
    if k == |prog| then out else Live(prog, out, k + 1) - Defs(prog[k]) + Uses(prog[k])
  }

  // ---------- the state ----------

  /** A run of physical registers. */
  datatype Extent = Extent(kind: Kind, size: nat, start: nat)

  predicate Overlap(s: Extent, t: Extent) {
    s.kind == t.kind && s.start < t.start + t.size && t.start < s.start + s.size
  }

  function ExtentOf(alloc: map<Reg, nat>, b: Reg): Extent
    requires b in alloc
  {
    Extent(b.kind, b.size, alloc[b])
  }

  /** The physical register of r. */
  function Index(alloc: map<Reg, nat>, r: Reg): nat
    requires Base(r) in alloc
  {
    alloc[Base(r)] + r.offset
  }

  /** The elements of a vector are in neighbouring registers, in order, from the one that it was given. */
  lemma VectorsTogether(alloc: map<Reg, nat>, r: Reg)
    requires Base(r) in alloc && IsReg(r)
    ensures forall i: nat | i < r.size ::
      r.(offset := i) in Vector(r) && Index(alloc, r.(offset := i)) == alloc[Base(r)] + i
  {
    forall i: nat | i < r.size
      ensures r.(offset := i) in Vector(r) && Base(r.(offset := i)) == Base(r)
    {
    }
  }

  function Usage(usage: map<Kind, nat>, k: Kind): nat {
    if k in usage then usage[k] else 0
  }

  /** The vector has a slot and some element that the scan has not yet seen written. */
  predicate Held(alloc: map<Reg, nat>, dead: set<Reg>, b: Reg) {
    b in alloc && !(Vector(b) <= dead)
  }

  ghost predicate HeldApart(alloc: map<Reg, nat>, dead: set<Reg>, b: Reg, c: Reg) {
    Held(alloc, dead, b) && Held(alloc, dead, c) && b != c ==> !Overlap(ExtentOf(alloc, b), ExtentOf(alloc, c))
  }

  ghost predicate Fits(alloc: map<Reg, nat>, usage: map<Kind, nat>, b: Reg) {
    b in alloc ==> b.offset == 0 && b.size > 0 && alloc[b] + b.size <= Usage(usage, b.kind)
  }

  ghost predicate FreeFits(usage: map<Kind, nat>, free: set<Extent>, s: Extent) {
    s in free ==> s.size > 0 && s.start + s.size <= Usage(usage, s.kind)
  }

  ghost predicate FreeApart(free: set<Extent>, s: Extent, t: Extent) {
    s in free && t in free && s != t ==> !Overlap(s, t)
  }

  ghost predicate FreeUnheld(alloc: map<Reg, nat>, free: set<Extent>, dead: set<Reg>, b: Reg, s: Extent) {
    Held(alloc, dead, b) && s in free ==> !Overlap(ExtentOf(alloc, b), s)
  }

  /** No two slots that are held or free overlap; dead is what the scan has seen written. */
  ghost predicate Sound(alloc: map<Reg, nat>, usage: map<Kind, nat>, free: set<Extent>, dead: set<Reg>) {
    && (forall b :: Fits(alloc, usage, b))
    && (forall b, c :: HeldApart(alloc, dead, b, c))
    && (forall s :: FreeFits(usage, free, s))
    && (forall s, t :: FreeApart(free, s, t))
    && (forall b, s :: FreeUnheld(alloc, free, dead, b, s))
    && (forall r :: r in dead ==> IsReg(r) && Base(r) in alloc)
  }

  /** While a vector is held, dealloc has exactly its elements that are written later. */
  ghost predicate Tracked(dealloc: set<Reg>, dead: set<Reg>) {
    && dealloc <= dead
    && forall b, r :: r in Vector(b) && !(Vector(b) <= dead) && r in dead ==> r in dealloc
  }

  /** Values in registers that the scan has seen read and not yet seen written. */
  ghost predicate Alive(alloc: map<Reg, nat>, dead: set<Reg>, r: Reg) {
    IsReg(r) && Base(r) in alloc && r !in dead
  }

  lemma AliveApart(alloc: map<Reg, nat>, usage: map<Kind, nat>, free: set<Extent>, dead: set<Reg>, r: Reg, q: Reg)
    requires Sound(alloc, usage, free, dead) && Alive(alloc, dead, r) && Alive(alloc, dead, q)
    requires r != q && r.kind == q.kind
    ensures Index(alloc, r) != Index(alloc, q)
  {
    assert r in Vector(Base(r)) && q in Vector(Base(q));
    assert HeldApart(alloc, dead, Base(r), Base(q));
  }

  // ---------- one allocation ----------

  predicate HasExtent(free: set<Extent>, b: Reg) {
    exists s :: s in free && s.kind == b.kind && s.size == b.size
  }

  /** What alloc_reg does for the base register b when there are n registers of each type. */
  ghost predicate AllocStep(n: nat, alloc: map<Reg, nat>, usage: map<Kind, nat>, free: set<Extent>, b: Reg,
                            alloc1: map<Reg, nat>, usage1: map<Kind, nat>, free1: set<Extent>, ok: bool) {
    if b in alloc then ok && alloc1 == alloc && usage1 == usage && free1 == free
    else if HasExtent(free, b) then
      && ok && b in alloc1 && alloc1 == alloc[b := alloc1[b]] && usage1 == usage
      && ExtentOf(alloc1, b) in free && free1 == free - {ExtentOf(alloc1, b)}
    else if Usage(usage, b.kind) < n then
      && ok && alloc1 == alloc[b := Usage(usage, b.kind)] && free1 == free
      && usage1 == usage[b.kind := Usage(usage, b.kind) + b.size]
    else !ok && alloc1 == alloc && usage1 == usage && free1 == free
  }

  /** The limit is tested before the size of a vector is added, so a vector may exceed it. */
  lemma LimitExceeded(n: nat, alloc: map<Reg, nat>, usage: map<Kind, nat>, free: set<Extent>, b: Reg,
                      alloc1: map<Reg, nat>, usage1: map<Kind, nat>, free1: set<Extent>)
    requires AllocStep(n, alloc, usage, free, b, alloc1, usage1, free1, true) && Usage(usage, b.kind) <= n
    ensures Usage(usage1, b.kind) > n <==>
      b !in alloc && !HasExtent(free, b) && Usage(usage, b.kind) + b.size > n
  {
  }

  /** For every limit, a vector that does. */
  lemma VectorExceeds(n: nat)
    requires n > 0
    ensures var b, usage := Reg(ClearModp, 0, n + 1, 0), map[ClearModp := n + 1];
      AllocStep(n, map[], map[], {}, b, map[b := 0], usage, {}, true) && Usage(usage, ClearModp) > n
  {
  }

  lemma AllocSound(n: nat, alloc: map<Reg, nat>, usage: map<Kind, nat>, free: set<Extent>, dead: set<Reg>, b: Reg,
                   alloc1: map<Reg, nat>, usage1: map<Kind, nat>, free1: set<Extent>)
    requires Sound(alloc, usage, free, dead) && b.offset == 0 && b.size > 0
    requires AllocStep(n, alloc, usage, free, b, alloc1, usage1, free1, true)
    ensures Sound(alloc1, usage1, free1, dead)
  {
    if b !in alloc {
      forall c, d
        ensures HeldApart(alloc1, dead, c, d)
      {
        assert HeldApart(alloc, dead, c, d);
        HeldBefore(alloc, usage, free, dead, b, alloc1, c, d);
      }
      forall c
        ensures Fits(alloc1, usage1, c)
      {
        assert Fits(alloc, usage, c);
        assert b in alloc1 ==> FreeFits(usage, free, ExtentOf(alloc1, b));
      }
      forall s
        ensures FreeFits(usage1, free1, s)
      {
        assert FreeFits(usage, free, s);
      }
      forall s, t
        ensures FreeApart(free1, s, t)
      {
        assert FreeApart(free, s, t);
      }
      forall c, s
        ensures FreeUnheld(alloc1, free1, dead, c, s)
      {
        assert FreeUnheld(alloc, free, dead, c, s) && FreeFits(usage, free, s);
        assert FreeApart(free, ExtentOf(alloc1, b), s);
      }
    }
  }

  lemma HeldBefore(alloc: map<Reg, nat>, usage: map<Kind, nat>, free: set<Extent>, dead: set<Reg>, b: Reg,
                   alloc1: map<Reg, nat>, c: Reg, d: Reg)
    requires Sound(alloc, usage, free, dead) && b !in alloc && b in alloc1 && alloc1 == alloc[b := alloc1[b]]
    requires ExtentOf(alloc1, b) in free || alloc1[b] == Usage(usage, b.kind)
    ensures HeldApart(alloc1, dead, c, d)
  {
    assert HeldApart(alloc, dead, c, d) && Fits(alloc, usage, c) && Fits(alloc, usage, d);
    assert FreeUnheld(alloc, free, dead, c, ExtentOf(alloc1, b))
      && FreeUnheld(alloc, free, dead, d, ExtentOf(alloc1, b));
  }

  // ---------- one deallocation ----------

  /** The elements have been seen written; the slot is free once all of its vector have. */
  lemma DeallocSound(alloc: map<Reg, nat>, usage: map<Kind, nat>, free: set<Extent>, dead: set<Reg>, j: Reg, vec: bool)
    requires Sound(alloc, usage, free, dead) && Alive(alloc, dead, j) && (vec ==> j.offset == 0)
    ensures var dead1 := dead + Touched(j, vec);
      Sound(alloc, usage, if Vector(j) <= dead1 then free + {ExtentOf(alloc, Base(j))} else free, dead1)
  {
    var dead1, b := dead + Touched(j, vec), Base(j);
    var free1 := if Vector(j) <= dead1 then free + {ExtentOf(alloc, b)} else free;
    assert Vector(b) == Vector(j) && j in Vector(j) && Held(alloc, dead, b);
    forall c, d
      ensures HeldApart(alloc, dead1, c, d)
    {
      assert HeldApart(alloc, dead, c, d);
    }
    forall s
      ensures FreeFits(usage, free1, s)
    {
      assert FreeFits(usage, free, s) && Fits(alloc, usage, b);
    }
    forall s, t
      ensures FreeApart(free1, s, t)
    {
      assert FreeApart(free, s, t);
      assert FreeUnheld(alloc, free, dead, b, s) && FreeUnheld(alloc, free, dead, b, t);
    }
    forall c, s
      ensures FreeUnheld(alloc, free1, dead1, c, s)
    {
      assert FreeUnheld(alloc, free, dead, c, s) && HeldApart(alloc, dead, c, b);
    }
    forall r | r in dead1
      ensures IsReg(r) && Base(r) in alloc
    {
      if r !in dead {
        assert Base(r) == b;
      }
    }
  }

  lemma DeallocTracked(dealloc: set<Reg>, dead: set<Reg>, j: Reg, vec: bool)
    requires Tracked(dealloc, dead) && IsReg(j) && j !in dead && (vec ==> j.offset == 0)
    ensures Tracked(dealloc + {j}, dead + Touched(j, vec))
    ensures !vec ==> (Vector(j) <= dealloc + {j} <==> Vector(j) <= dead + {j})
  {
    var dead1 := dead + Touched(j, vec);
    assert j in Vector(j) && j in Touched(j, vec);
    forall b, r | r in Vector(b) && r in dead1
      ensures Vector(b) <= dead1 || r in dealloc + {j}
    {
      if r !in dead && vec {
        assert Vector(b) == Vector(j);
      }
    }
  }

  // ---------- what is noticed ----------

  /** The registers that dealloc_reg has been called for, and those it has marked as written. */
  datatype Marks = Marks(dealloc: set<Reg>, defined: set<Reg>)

  /** One element of a longer vector is marked only when it is the last one of it. */
  function Mark(m: Marks, j: Reg, vec: bool): Marks {
    var d := m.dealloc + {j};
    if j.size > 1 && !vec && !(Vector(j) <= d) then Marks(d, m.defined)
    else Marks(d, m.defined + Touched(j, vec))
  }

  function MarkAll(m: Marks, rs: seq<Reg>, vec: bool): Marks {
    if rs == [] then m else Mark(MarkAll(m, rs[..|rs| - 1], vec), rs[|rs| - 1], vec)
  }

  function MarksFrom(prog: seq<Operation>, m: Marks, k: nat): Marks
    requires k <= |prog|
    decreases |prog| - k
  {
    if k == |prog| then m else MarkAll(MarksFrom(prog, m, k + 1), prog[k].defs, prog[k].vec)
  }

  ghost predicate Refused(x: Operation, defined: set<Reg>) {
    exists i :: 0 <= i < |x.defs| && x.defs[i] in defined
  }

  /** Instruction k writes a register that has been marked by then. */
  ghost predicate Rewrites(prog: seq<Operation>, m: Marks, k: nat)
    requires k < |prog|
  {
    Refused(prog[k], MarksFrom(prog, m, k + 1).defined)
  }

  // ---------- what is kept apart ----------

  ghost predicate Placed(alloc: map<Reg, nat>, rs: set<Reg>) {
    forall r :: r in rs ==> Base(r) in alloc
  }

  /** The instruction writes no physical register of another register that matters after it, or
      that it reads or writes itself. */
  ghost predicate ApartAt(alloc: map<Reg, nat>, x: Operation, after: set<Reg>) {
    && Placed(alloc, after + Defs(x) + Uses(x))
    && forall r, d :: r in after + Defs(x) + Uses(x) && d in Defs(x) && r != d && r.kind == d.kind ==>
         Index(alloc, r) != Index(alloc, d)
  }

  ghost predicate ApartHere(prog: seq<Operation>, alloc: map<Reg, nat>, out: set<Reg>, i: nat) {
    i < |prog| ==> ApartAt(alloc, prog[i], Live(prog, out, i + 1))
  }

  ghost predicate Apart(prog: seq<Operation>, alloc: map<Reg, nat>, out: set<Reg>, k: nat) {
    forall i: nat :: k <= i ==> ApartHere(prog, alloc, out, i)
  }

  ghost predicate Grown(a: map<Reg, nat>, b: map<Reg, nat>) {
    forall r :: r in a ==> r in b && b[r] == a[r]
  }

  lemma ApartAtGrown(a: map<Reg, nat>, b: map<Reg, nat>, x: Operation, after: set<Reg>)
    requires ApartAt(a, x, after) && Grown(a, b)
    ensures ApartAt(b, x, after)
  {
    var rs := after + Defs(x) + Uses(x);
    forall r | r in rs
      ensures Base(r) in b && Index(b, r) == Index(a, r)
    {
      assert Base(r) in a;
    }
  }

  lemma ApartGrown(prog: seq<Operation>, a: map<Reg, nat>, b: map<Reg, nat>, out: set<Reg>, k: nat)
    requires Apart(prog, a, out, k) && Grown(a, b)
    ensures Apart(prog, b, out, k)
  {
    forall i: nat | k <= i
      ensures ApartHere(prog, b, out, i)
    {
      assert ApartHere(prog, a, out, i);
      if i < |prog| {
        ApartAtGrown(a, b, prog[i], Live(prog, out, i + 1));
      }
    }
  }

  lemma AllAlive(alloc: map<Reg, nat>, usage: map<Kind, nat>, free: set<Extent>, dead: set<Reg>, x: Operation,
                 after: set<Reg>)
    requires Sound(alloc, usage, free, dead)
    requires forall r :: r in after + Defs(x) + Uses(x) ==> Alive(alloc, dead, r)
    ensures ApartAt(alloc, x, after)
  {
    forall r, d | r in after + Defs(x) + Uses(x) && d in Defs(x) && r != d && r.kind == d.kind
      ensures Index(alloc, r) != Index(alloc, d)
    {
      assert Alive(alloc, dead, r) && Alive(alloc, dead, d);
      AliveApart(alloc, usage, free, dead, r, d);
    }
  }

  // ---------- running a block ----------

  /** apply(k, vs, i) is what instruction k writes to the i-th of its registers if it reads vs. */
  datatype Semantics<!V> = Semantics(apply: (nat, seq<V>, nat) -> V)

  function Read<V>(s: Reg -> V, rs: seq<Reg>): seq<V> {
    seq(|rs|, i requires 0 <= i < |rs| => s(rs[i]))
  }

  function Write<V>(s: Reg -> V, rs: seq<Reg>, f: nat -> V, i: nat): Reg -> V
    requires i <= |rs|
    decreases |rs| - i
  {
    if i == |rs| then s else Write((r: Reg) => if r == rs[i] then f(i) else s(r), rs, f, i + 1)
  }

  function Values<V>(M: Semantics<V>, k: nat, vs: seq<V>): nat -> V {
    (i: nat) => M.apply(k, vs, i)
  }

  /** The block from instruction k on: the registers at the end, and what every instruction reads. */
  function RunVirtual<V>(M: Semantics<V>, prog: seq<Operation>, s: Reg -> V, k: nat): (Reg -> V, seq<seq<V>>)
    requires k <= |prog|
    decreases |prog| - k
  {
    if k == |prog| then (s, []) else
      var vs := Read(s, All(prog[k].uses, prog[k].vec));
      var rest := RunVirtual(M, prog, Write(s, All(prog[k].defs, prog[k].vec), Values(M, k, vs), 0), k + 1);
      (rest.0, [vs] + rest.1)
  }

  /** The same with every register replaced by the one allocated to it. */
  function Find<V>(alloc: map<Reg, nat>, p: (Kind, nat) -> V, rs: seq<Reg>): seq<V>
    requires forall r :: r in rs ==> Base(r) in alloc
  {
    seq(|rs|, i requires 0 <= i < |rs| => assert rs[i] in rs; p(rs[i].kind, Index(alloc, rs[i])))
  }

  function Put<V>(alloc: map<Reg, nat>, p: (Kind, nat) -> V, rs: seq<Reg>, f: nat -> V, i: nat): (Kind, nat) -> V
    requires i <= |rs| && forall r :: r in rs ==> Base(r) in alloc
    decreases |rs| - i
  {
    if i == |rs| then p else
      assert rs[i] in rs;
      var q := rs[i];
      var at := Index(alloc, q);
      Put(alloc, (k: Kind, a: nat) => if k == q.kind && a == at then f(i) else p(k, a), rs, f, i + 1)
  }

  lemma {:induction false} AllTouched(rs: seq<Reg>, vec: bool)
    requires forall i :: 0 <= i < |rs| ==> (vec ==> rs[i].offset == 0)
    ensures forall r :: r in All(rs, vec) <==> r in TouchedBy(rs, vec)
  {
    if rs != [] {
      AllTouched(rs[1..], vec);
      var e := Elements(rs[0], vec);
      forall r
        ensures r in e <==> r in Touched(rs[0], vec)
      {
        if vec && r in Vector(rs[0]) {
          var i :| 0 <= i < rs[0].size && r == rs[0].(offset := i);
          assert e[i] == r;
        }
      }
      forall r
        ensures r in All(rs, vec) <==> r in TouchedBy(rs, vec)
      {
        if r in TouchedBy(rs, vec) {
          var i :| 0 <= i < |rs| && r in Touched(rs[i], vec);
          if i > 0 {
            assert rs[1..][i - 1] == rs[i] && r in TouchedBy(rs[1..], vec);
          }
        }
        if r in TouchedBy(rs[1..], vec) {
          var i :| 0 <= i < |rs| - 1 && r in Touched(rs[1..][i], vec);
          assert rs[1..][i] == rs[i + 1];
        }
      }
    }
  }

  function RunAllocated<V>(M: Semantics<V>, prog: seq<Operation>, alloc: map<Reg, nat>, p: (Kind, nat) -> V, k: nat):
      ((Kind, nat) -> V, seq<seq<V>>)
    requires k <= |prog| && IsBlock(prog)
    requires forall i :: k <= i < |prog| ==> Placed(alloc, Defs(prog[i]) + Uses(prog[i]))
    decreases |prog| - k
  {
    if k == |prog| then (p, []) else
      AllTouched(prog[k].uses, prog[k].vec);
      AllTouched(prog[k].defs, prog[k].vec);
      assert Placed(alloc, Defs(prog[k]) + Uses(prog[k]));
      assert forall r :: r in All(prog[k].uses, prog[k].vec) ==> r in Defs(prog[k]) + Uses(prog[k]);
      assert forall r :: r in All(prog[k].defs, prog[k].vec) ==> r in Defs(prog[k]) + Uses(prog[k]);
      var vs := Find(alloc, p, All(prog[k].uses, prog[k].vec));
      var rest := RunAllocated(M, prog, alloc,
                               Put(alloc, p, All(prog[k].defs, prog[k].vec), Values(M, k, vs), 0), k + 1);
      (rest.0, [vs] + rest.1)
  }

  ghost predicate Agree<V>(alloc: map<Reg, nat>, live: set<Reg>, s: Reg -> V, p: (Kind, nat) -> V) {
    forall r :: r in live ==> Base(r) in alloc && s(r) == p(r.kind, Index(alloc, r))
  }

  lemma {:induction false} WriteAgrees<V>(alloc: map<Reg, nat>, live: set<Reg>, s: Reg -> V, p: (Kind, nat) -> V,
                                          rs: seq<Reg>, f: nat -> V, i: nat)
    requires i <= |rs| && Agree(alloc, live, s, p)
    requires forall r :: r in rs ==> Base(r) in alloc
    requires forall r, d :: (r in live || r in rs) && d in rs && r != d && r.kind == d.kind ==>
      Index(alloc, r) != Index(alloc, d)
    ensures Agree(alloc, live + (set r | r in rs[i..]), Write(s, rs, f, i), Put(alloc, p, rs, f, i))
    decreases |rs| - i
  {
    if i < |rs| {
      assert rs[i] in rs && rs[i..] == [rs[i]] + rs[i + 1..];
      var q := rs[i];
      var at := Index(alloc, q);
      var s1 := (r: Reg) => if r == rs[i] then f(i) else s(r);
      var p1 := (k: Kind, a: nat) => if k == q.kind && a == at then f(i) else p(k, a);
      var live1 := live + {q};
      forall r | r in live1
        ensures Base(r) in alloc && s1(r) == p1(r.kind, Index(alloc, r))
      {
      }
      WriteAgrees(alloc, live1, s1, p1, rs, f, i + 1);
    }
  }

  /** The block computes the same on the allocated registers: every instruction reads the same
      values, and the registers that matter at the end have the same values. */
  lemma {:induction false} AllocatedRuns<V>(M: Semantics<V>, prog: seq<Operation>, alloc: map<Reg, nat>, out: set<Reg>,
                                            s: Reg -> V, p: (Kind, nat) -> V, k: nat)
    requires k <= |prog| && IsBlock(prog) && Apart(prog, alloc, out, k)
    requires Agree(alloc, Live(prog, out, k), s, p)
    ensures forall i :: k <= i < |prog| ==> Placed(alloc, Defs(prog[i]) + Uses(prog[i]))
    ensures RunVirtual(M, prog, s, k).1 == RunAllocated(M, prog, alloc, p, k).1
    ensures Agree(alloc, out, RunVirtual(M, prog, s, k).0, RunAllocated(M, prog, alloc, p, k).0)
    decreases |prog| - k
  {
    forall i | k <= i < |prog|
      ensures Placed(alloc, Defs(prog[i]) + Uses(prog[i]))
    {
      assert ApartHere(prog, alloc, out, i);
    }
    if k < |prog| {
      var x, live := prog[k], Live(prog, out, k);
      assert ApartHere(prog, alloc, out, k);
      AllTouched(x.uses, x.vec);
      AllTouched(x.defs, x.vec);
      var vs := Read(s, All(x.uses, x.vec));
      assert vs == Find(alloc, p, All(x.uses, x.vec));
      var rs, f := All(x.defs, x.vec), Values(M, k, vs);
      WriteAgrees(alloc, live, s, p, rs, f, 0);
      assert rs[0..] == rs;
      var s1, p1 := Write(s, rs, f, 0), Put(alloc, p, rs, f, 0);
      AllocatedRuns(M, prog, alloc, out, s1, p1, k + 1);
    }
  }

  // ---------- how many registers ----------

  predicate Scalar(x: Operation) {
    && !x.vec
    && (forall i :: 0 <= i < |x.defs| ==> x.defs[i].size == 1)
    && (forall i :: 0 <= i < |x.uses| ==> x.uses[i].size == 1)
  }

  predicate Scalars(prog: seq<Operation>) {
    forall k :: 0 <= k < |prog| ==> Scalar(prog[k])
  }

  function OfKind(rs: set<Reg>, k: Kind): set<Reg> {
    set r | r in rs && r.kind == k
  }

  function ExtentsOf(free: set<Extent>, k: Kind): set<Extent> {
    set s | s in free && s.kind == k
  }

  function Max(a: nat, b: nat): nat {
    if a < b then b else a
  }

  /** What instruction k keeps in registers at once: what matters after it, what it writes, and
      what it reads. */
  function Peak(prog: seq<Operation>, out: set<Reg>, k: nat): set<Reg>
    requires k < |prog|
  {
    Live(prog, out, k + 1) + Defs(prog[k]) + Uses(prog[k])
  }

  /** The most registers of one type that any instruction from k on keeps at once. */
  function Pressure(prog: seq<Operation>, out: set<Reg>, k: nat, kind: Kind): nat
    requires k <= |prog|
    decreases |prog| - k
  {
    if k == |prog| then 0 else Max(|OfKind(Peak(prog, out, k), kind)|, Pressure(prog, out, k + 1, kind))
  }

  ghost predicate Counted(usage: map<Kind, nat>, free: set<Extent>, cur: set<Reg>, k: Kind) {
    Usage(usage, k) == |OfKind(cur, k)| + |ExtentsOf(free, k)|
  }

  /** All registers are scalars, cur are the ones alive, and no slot is lost. */
  ghost predicate Balanced(alloc: map<Reg, nat>, usage: map<Kind, nat>, free: set<Extent>, dead: set<Reg>,
                           cur: set<Reg>) {
    && (forall b :: b in alloc ==> b.size == 1)
    && (forall s :: s in free ==> s.size == 1)
    && (forall r :: Alive(alloc, dead, r) <==> r in cur)
    && (forall k :: Counted(usage, free, cur, k))
  }

  ghost predicate PressedTo(before: map<Kind, nat>, usage: map<Kind, nat>, cur: set<Reg>, k: Kind) {
    Usage(usage, k) == Max(Usage(before, k), |OfKind(cur, k)|)
  }

  ghost predicate Pressed(before: map<Kind, nat>, usage: map<Kind, nat>, cur: set<Reg>) {
    forall k :: PressedTo(before, usage, cur, k)
  }

  ghost predicate Bounded(n: nat, usage: map<Kind, nat>, k: Kind) {
    Usage(usage, k) <= n
  }

  ghost predicate Over(n: nat, cur: set<Reg>) {
    exists k :: |OfKind(cur, k)| > n
  }

  lemma OfKindMore(rs: set<Reg>, r: Reg, k: Kind)
    ensures |OfKind(rs + {r}, k)| == |OfKind(rs, k)| + if r.kind == k && r !in rs then 1 else 0
  {
    assert r in OfKind(rs, k) <==> r in rs && r.kind == k;
    if r.kind == k {
      assert OfKind(rs + {r}, k) == OfKind(rs, k) + {r};
    } else {
      assert OfKind(rs + {r}, k) == OfKind(rs, k);
    }
  }

  lemma OfKindLess(rs: set<Reg>, r: Reg, k: Kind)
    requires r in rs
    ensures |OfKind(rs - {r}, k)| == |OfKind(rs, k)| - if r.kind == k then 1 else 0
  {
    assert rs - {r} + {r} == rs;
    OfKindMore(rs - {r}, r, k);
  }

  lemma ExtentsMore(free: set<Extent>, s: Extent, k: Kind)
    requires s !in free
    ensures |ExtentsOf(free + {s}, k)| == |ExtentsOf(free, k)| + if s.kind == k then 1 else 0
  {
    if s.kind == k {
      assert ExtentsOf(free + {s}, k) == ExtentsOf(free, k) + {s};
    } else {
      assert ExtentsOf(free + {s}, k) == ExtentsOf(free, k);
    }
  }

  /** A new register is taken only when every one so far holds a value; and alloc_reg gives up
      only when n values of one type are alive besides the one that it is to place. */
  lemma AllocTight(n: nat, alloc: map<Reg, nat>, usage: map<Kind, nat>, free: set<Extent>, dead: set<Reg>, b: Reg,
                   alloc1: map<Reg, nat>, usage1: map<Kind, nat>, free1: set<Extent>, ok: bool, cur: set<Reg>)
    requires Balanced(alloc, usage, free, dead, cur) && b.size == 1 && b.offset == 0 && b !in dead
    requires AllocStep(n, alloc, usage, free, b, alloc1, usage1, free1, ok)
    ensures ok ==> Balanced(alloc1, usage1, free1, dead, cur + {b}) && Pressed(usage, usage1, cur + {b})
    ensures !ok ==> Over(n, cur + {b})
  {
    assert Alive(alloc, dead, b) <==> b in cur;
    OfKindMore(cur, b, b.kind);
    assert Counted(usage, free, cur, b.kind);
    if ok {
      forall r
        ensures Alive(alloc1, dead, r) <==> r in cur + {b}
      {
        assert Alive(alloc, dead, r) <==> r in cur;
        assert Base(r) == b && IsReg(r) ==> r == b;
      }
      forall k
        ensures Counted(usage1, free1, cur + {b}, k) && PressedTo(usage, usage1, cur + {b}, k)
      {
        assert Counted(usage, free, cur, k);
        OfKindMore(cur, b, k);
        AllocCounts(n, alloc, usage, free, b, alloc1, usage1, free1, k);
      }
    } else {
      NoExtents(free, b);
      assert |OfKind(cur + {b}, b.kind)| > n;
    }
  }

  lemma NoExtents(free: set<Extent>, b: Reg)
    requires !HasExtent(free, b) && forall s :: s in free ==> s.size == b.size
    ensures ExtentsOf(free, b.kind) == {}
  {
    if s :| s in ExtentsOf(free, b.kind) {
      assert s in free && s.kind == b.kind && s.size == b.size;
    }
  }

  lemma AllocCounts(n: nat, alloc: map<Reg, nat>, usage: map<Kind, nat>, free: set<Extent>, b: Reg,
                    alloc1: map<Reg, nat>, usage1: map<Kind, nat>, free1: set<Extent>, k: Kind)
    requires AllocStep(n, alloc, usage, free, b, alloc1, usage1, free1, true)
    requires b.size == 1 && forall s :: s in free ==> s.size == 1
    ensures b in alloc || k != b.kind ==>
      Usage(usage1, k) == Usage(usage, k) && |ExtentsOf(free1, k)| == |ExtentsOf(free, k)|
    ensures b !in alloc && k == b.kind ==>
      if HasExtent(free, b) then Usage(usage1, k) == Usage(usage, k)
        && |ExtentsOf(free1, k)| + 1 == |ExtentsOf(free, k)|
      else Usage(usage1, k) == Usage(usage, k) + 1 && |ExtentsOf(free1, k)| == |ExtentsOf(free, k)| == 0
  {
    if b !in alloc {
      if HasExtent(free, b) {
        ExtentsMore(free1, ExtentOf(alloc1, b), k);
        assert free1 + {ExtentOf(alloc1, b)} == free;
      } else {
        NoExtents(free, b);
      }
    }
  }

  lemma DeallocTight(alloc: map<Reg, nat>, usage: map<Kind, nat>, free: set<Extent>, dead: set<Reg>, cur: set<Reg>,
                     j: Reg)
    requires Sound(alloc, usage, free, dead) && Balanced(alloc, usage, free, dead, cur) && j in cur
    ensures Balanced(alloc, usage, free + {ExtentOf(alloc, j)}, dead + {j}, cur - {j})
  {
    assert Alive(alloc, dead, j) && Base(j) == j && j in Vector(j);
    var s := ExtentOf(alloc, j);
    assert FreeUnheld(alloc, free, dead, j, s);
    forall r
      ensures Alive(alloc, dead + {j}, r) <==> r in cur - {j}
    {
      assert Alive(alloc, dead, r) <==> r in cur;
    }
    forall k
      ensures Counted(usage, free + {s}, cur - {j}, k)
    {
      assert Counted(usage, free, cur, k);
      OfKindLess(cur, j, k);
      ExtentsMore(free, s, k);
    }
  }

  lemma AllocBounded(n: nat, alloc: map<Reg, nat>, usage: map<Kind, nat>, free: set<Extent>, b: Reg,
                     alloc1: map<Reg, nat>, usage1: map<Kind, nat>, free1: set<Extent>)
    requires b.size == 1 && (forall k :: Bounded(n, usage, k))
    requires AllocStep(n, alloc, usage, free, b, alloc1, usage1, free1, true)
    ensures forall k :: Bounded(n, usage1, k)
  {
    forall k
      ensures Bounded(n, usage1, k)
    {
      assert Bounded(n, usage, k);
    }
  }

  ghost predicate Filled(before: map<Kind, nat>, usage: map<Kind, nat>, prog: seq<Operation>, out: set<Reg>, k: nat,
                         kind: Kind)
    requires k <= |prog|
  {
    Usage(usage, kind) == Max(Usage(before, kind), Pressure(prog, out, k, kind))
  }

  lemma FilledOn(a: map<Kind, nat>, b: map<Kind, nat>, c: map<Kind, nat>, prog: seq<Operation>, out: set<Reg>, k: nat,
                 next: nat)
    requires k + 1 == next <= |prog| && (forall kind :: Filled(a, b, prog, out, next, kind))
    requires Pressed(b, c, Peak(prog, out, k))
    ensures forall kind :: Filled(a, c, prog, out, k, kind)
  {
    forall kind
      ensures Filled(a, c, prog, out, k, kind)
    {
      assert Filled(a, b, prog, out, next, kind) && PressedTo(b, c, Peak(prog, out, k), kind);
    }
  }

  lemma {:induction false} PressureFrom(prog: seq<Operation>, out: set<Reg>, k: nat, i: nat, kind: Kind)
    requires k <= i <= |prog|
    ensures Pressure(prog, out, i, kind) <= Pressure(prog, out, k, kind)
    decreases i - k
  {
    if k < i {
      PressureFrom(prog, out, k + 1, i, kind);
    }
  }

  /** Some instruction keeps more than n registers of one type at once. */
  ghost predicate TooMany(n: nat, prog: seq<Operation>, out: set<Reg>) {
    exists kind :: Pressure(prog, out, 0, kind) > n
  }

  lemma PeakTooMany(n: nat, prog: seq<Operation>, out: set<Reg>, k: nat)
    requires k < |prog| && Over(n, Peak(prog, out, k))
    ensures TooMany(n, prog, out)
  {
    var kind :| |OfKind(Peak(prog, out, k), kind)| > n;
    PressureFrom(prog, out, 0, k, kind);
    assert Pressure(prog, out, 0, kind) > n;
  }

  lemma NotTooMany(n: nat, before: map<Kind, nat>, usage: map<Kind, nat>, prog: seq<Operation>, out: set<Reg>)
    requires forall kind :: Filled(before, usage, prog, out, 0, kind)
    requires forall kind :: Bounded(n, usage, kind)
    ensures !TooMany(n, prog, out)
  {
    forall kind
      ensures Pressure(prog, out, 0, kind) <= n
    {
      assert Filled(before, usage, prog, out, 0, kind) && Bounded(n, usage, kind);
    }
  }

  lemma PressedStart(alloc: map<Reg, nat>, usage: map<Kind, nat>, free: set<Extent>, dead: set<Reg>, cur: set<Reg>)
    requires Balanced(alloc, usage, free, dead, cur)
    ensures Pressed(usage, usage, cur)
  {
    forall k
      ensures PressedTo(usage, usage, cur, k)
    {
      assert Counted(usage, free, cur, k);
    }
  }

  lemma PressedOn(a: map<Kind, nat>, b: map<Kind, nat>, c: map<Kind, nat>, cur: set<Reg>, more: set<Reg>)
    requires Pressed(a, b, cur) && Pressed(b, c, more) && cur <= more
    ensures Pressed(a, c, more)
  {
    forall k
      ensures PressedTo(a, c, more, k)
    {
      assert PressedTo(a, b, cur, k) && PressedTo(b, c, more, k);
      Subset(OfKind(cur, k), OfKind(more, k));
    }
  }

  lemma Subset(a: set<Reg>, b: set<Reg>)
    requires a <= b
    ensures |a| <= |b|
  {
    assert b == a + (b - a);
  }

  lemma OverMore(n: nat, cur: set<Reg>, more: set<Reg>)
    requires Over(n, cur) && cur <= more
    ensures Over(n, more)
  {
    var k :| |OfKind(cur, k)| > n;
    Subset(OfKind(cur, k), OfKind(more, k));
  }

  // ---------- the allocator ----------

  datatype Result = Done | DoubleWrite | Overflow

  /** The slots that are free again, of a block and its scope. */
  class Pool {
    var free: set<Extent>

    constructor ()
      ensures free == {}
    {
      free := {};
    }
  }

  class StraightlineAllocator {
    const n: nat
    var alloc: map<Reg, nat>
    var usage: map<Kind, nat>
    var dealloc: set<Reg>
    var defined: set<Reg>
    ghost var dead: set<Reg>

    ghost predicate Valid()
      reads this
    {
      forall r :: r in defined ==> Base(r) in alloc
    }

    function Marked(): Marks
      reads this
    {
      Marks(dealloc, defined)
    }

    /** What holds while every register is written once and before it is read. */
    ghost predicate Good(pool: Pool)
      reads this, pool
    {
      Sound(alloc, usage, pool.free, dead) && Tracked(dealloc, dead) && defined <= dead
    }

    /** Only scalars are alive, those of cur, and no slot is lost. */
    ghost predicate Tight(pool: Pool, cur: set<Reg>)
      reads this, pool
    {
      Balanced(alloc, usage, pool.free, dead, cur) && forall k :: Bounded(n, usage, k)
    }

    /** A block that writes every register once, none that a later block writes, and before it
        is read; out are registers that later blocks read. */
    ghost predicate Expected(prog: seq<Operation>, pool: Pool, out: set<Reg>)
      reads this, pool
    {
      Good(pool) && WrittenOnce(prog, dead, 0) && forall r :: r in out ==> Alive(alloc, dead, r)
    }

    /** The scan has got to instruction k. */
    ghost predicate Reached(prog: seq<Operation>, pool: Pool, out: set<Reg>, later: set<Reg>, k: nat)
      requires k <= |prog|
      reads this, pool
    {
      && Good(pool) && dead == later + DefsFrom(prog, k)
      && forall r :: r in Live(prog, out, k) ==> Alive(alloc, dead, r)
    }

    constructor (n: nat)
      ensures this.n == n && Valid()
      ensures alloc == map[] && usage == map[] && dealloc == defined == dead == {}
    {
      this.n := n;
      alloc, usage := map[], map[];
      dealloc, defined, dead := {}, {}, {};
    }

    method AllocReg(r: Reg, pool: Pool) returns (ok: bool)
      modifies this`alloc, this`usage, pool
      ensures AllocStep(n, old(alloc), old(usage), old(pool.free), Base(r), alloc, usage, pool.free, ok)
    {
      var b := Base(r);
      ok := true;
      if b in alloc {
        return;
      }
      if HasExtent(pool.free, b) {
        var s :| s in pool.free && s.kind == b.kind && s.size == b.size;
        pool.free := pool.free - {s};
        alloc := alloc[b := s.start];
        assert s == ExtentOf(alloc, b);
      } else if Usage(usage, b.kind) < n {
        var start := Usage(usage, b.kind);
        usage := usage[b.kind := start + b.size];
        alloc := alloc[b := start];
      } else {
        ok := false;
      }
    }

    /** alloc_reg keeps what holds of the state. */
    method Allocated(r: Reg, pool: Pool, ghost good: bool, ghost tight: bool, ghost before: map<Kind, nat>,
                     ghost cur: set<Reg>) returns (ok: bool)
      requires Valid() && IsReg(r) && (good ==> Good(pool))
      requires tight ==> Tight(pool, cur) && Pressed(before, usage, cur) && r.size == 1 && r !in dead
      modifies this`alloc, this`usage, pool
      ensures Valid() && Grown(old(alloc), alloc) && (good ==> Good(pool))
      ensures ok ==> Base(r) in alloc
      ensures tight && ok ==> Tight(pool, cur + {r}) && Pressed(before, usage, cur + {r})
      ensures tight && !ok ==> Over(n, cur + {r})
    {
      ok := AllocReg(r, pool);
      if good && ok {
        AllocSound(n, old(alloc), old(usage), old(pool.free), dead, Base(r), alloc, usage, pool.free);
      }
      if tight {
        assert Base(r) == r;
        AllocTight(n, old(alloc), old(usage), old(pool.free), dead, r, alloc, usage, pool.free, ok, cur);
        if ok {
          AllocBounded(n, old(alloc), old(usage), old(pool.free), r, alloc, usage, pool.free);
          PressedOn(before, old(usage), usage, cur, cur + {r});
        }
      }
    }

    /** One register that is written: it gets a slot unless it has one, and is refused if it has
        been marked as written. */
    method AllocDef(j: Reg, pool: Pool, ghost good: bool, ghost tight: bool, ghost before: map<Kind, nat>,
                    ghost now: set<Reg>) returns (res: Result)
      requires Valid() && IsReg(j) && (good ==> Good(pool))
      requires tight ==> j.size == 1 && j !in dead && Tight(pool, now) && Pressed(before, usage, now)
      modifies this`alloc, this`usage, pool
      ensures Valid() && Grown(old(alloc), alloc) && (good ==> Good(pool))
      ensures res.Done? ==> Base(j) in alloc && j !in defined
      ensures res.DoubleWrite? ==> j in defined
      ensures tight && res.Done? ==> Tight(pool, now + {j}) && Pressed(before, usage, now + {j})
      ensures tight && res.Overflow? ==> Over(n, now + {j})
    {
      if Base(j) in alloc {
        if j in defined {
          return DoubleWrite;
        }
        assert tight ==> Alive(alloc, dead, j) && now + {j} == now;
      } else {
        var ok := Allocated(j, pool, good, tight, before, now);
        if !ok {
          return Overflow;
        }
      }
      return Done;
    }

    /** The first loop of process: registers that nothing reads get a slot, and a register that
        has been marked as written is refused. */
    method AllocDefs(x: Operation, pool: Pool, ghost good: bool, ghost tight: bool, ghost cur: set<Reg>)
        returns (res: Result)
      requires Valid() && IsOperation(x) && (good ==> Good(pool))
      requires tight ==> Scalar(x) && Tight(pool, cur) && Defs(x) !! dead
      modifies this`alloc, this`usage, pool
      ensures Valid() && Grown(old(alloc), alloc) && (good ==> Good(pool))
      ensures res.Done? ==> (forall i :: 0 <= i < |x.defs| ==> Base(x.defs[i]) in alloc) && !Refused(x, defined)
      ensures res.DoubleWrite? ==> Refused(x, defined)
      ensures tight && res.Done? ==> Tight(pool, cur + Defs(x)) && Pressed(old(usage), usage, cur + Defs(x))
      ensures tight && res.Overflow? ==> Over(n, cur + Defs(x))
    {
      if tight {
        PressedStart(alloc, usage, pool.free, dead, cur);
      }
      ghost var now := cur;
      for i := 0 to |x.defs|
        invariant Valid() && Grown(old(alloc), alloc) && (good ==> Good(pool))
        invariant forall k :: 0 <= k < i ==> Base(x.defs[k]) in alloc && x.defs[k] !in defined
        invariant now == cur + TouchedBy(x.defs[..i], x.vec)
        invariant tight ==> Tight(pool, now) && Pressed(old(usage), usage, now)
      {
        var j := x.defs[i];
        NextTouched(x.defs, i, x.vec);
        res := AllocDef(j, pool, good, tight, old(usage), now);
        if res != Done {
          if tight && res == Overflow {
            OverMore(n, now + {j}, cur + Defs(x));
          }
          return;
        }
        now := now + Touched(j, x.vec);
      }
      assert x.defs[..|x.defs|] == x.defs;
      return Done;
    }

    /** The second loop: a slot for everything that is read. */
    method AllocUses(x: Operation, pool: Pool, ghost good: bool, ghost tight: bool, ghost before: map<Kind, nat>,
                     ghost cur: set<Reg>) returns (res: Result)
      requires Valid() && IsOperation(x) && (good ==> Good(pool))
      requires tight ==> Scalar(x) && Tight(pool, cur) && Pressed(before, usage, cur) && Uses(x) !! dead
      modifies this`alloc, this`usage, pool
      ensures Valid() && Grown(old(alloc), alloc) && (good ==> Good(pool))
      ensures res.Done? ==> forall i :: 0 <= i < |x.uses| ==> Base(x.uses[i]) in alloc
      ensures !res.DoubleWrite?
      ensures tight && res.Done? ==> Tight(pool, cur + Uses(x)) && Pressed(before, usage, cur + Uses(x))
      ensures tight && res.Overflow? ==> Over(n, cur + Uses(x))
    {
      ghost var now := cur;
      for i := 0 to |x.uses|
        invariant Valid() && Grown(old(alloc), alloc) && (good ==> Good(pool))
        invariant forall k :: 0 <= k < i ==> Base(x.uses[k]) in alloc
        invariant now == cur + TouchedBy(x.uses[..i], x.vec)
        invariant tight ==> Tight(pool, now) && Pressed(before, usage, now)
      {
        NextTouched(x.uses, i, x.vec);
        var ok := Allocated(x.uses[i], pool, good, tight, before, now);
        if !ok {
          if tight {
            OverMore(n, now + {x.uses[i]}, cur + Uses(x));
          }
          return Overflow;
        }
        now := now + Touched(x.uses[i], x.vec);
      }
      assert x.uses[..|x.uses|] == x.uses;
      return Done;
    }

    method DeallocReg(j: Reg, vec: bool, pool: Pool)
      requires Base(j) in alloc && IsReg(j)
      modifies this`dealloc, this`defined, this`dead, pool
      ensures Marked() == Mark(old(Marked()), j, vec) && dead == old(dead) + Touched(j, vec)
      ensures pool.free == old(pool.free) + if vec || Vector(j) <= dealloc then {ExtentOf(alloc, Base(j))} else {}
    {
      dealloc, dead := dealloc + {j}, dead + Touched(j, vec);
      if j.size > 1 && !vec {
        for i := 0 to j.size
          invariant forall k :: 0 <= k < i ==> j.(offset := k) in dealloc
        {
          if j.(offset := i) !in dealloc {
            assert j.(offset := i) in Vector(j);
            return;
          }
        }
      }
      assert !vec && j.size == 1 ==> Vector(j) == {j};
      pool.free := pool.free + {ExtentOf(alloc, Base(j))};
      defined := defined + Touched(j, vec);
    }

    /** dealloc_reg keeps what holds of the state. */
    method Deallocated(j: Reg, vec: bool, pool: Pool, ghost good: bool, ghost tight: bool, ghost cur: set<Reg>)
      requires tight ==> good && Tight(pool, cur) && !vec && j.size == 1
      requires Valid() && Base(j) in alloc && IsReg(j) && (vec ==> j.offset == 0)
      requires good ==> Good(pool) && j !in dead
      modifies this`dealloc, this`defined, this`dead, pool
      ensures Valid() && Marked() == Mark(old(Marked()), j, vec) && dead == old(dead) + Touched(j, vec)
      ensures good ==> Good(pool)
      ensures tight ==> Tight(pool, cur - {j})
    {
      DeallocReg(j, vec, pool);
      if good {
        DeallocSound(alloc, usage, old(pool.free), old(dead), j, vec);
        DeallocTracked(old(dealloc), old(dead), j, vec);
      }
      if tight {
        assert Vector(j) == {j} && Base(j) == j && Alive(alloc, old(dead), j);
        DeallocTight(alloc, usage, old(pool.free), old(dead), cur, j);
      }
    }

    /** The third loop: what the instruction writes need not be kept any longer. */
    method DeallocDefs(x: Operation, pool: Pool, ghost good: bool, ghost tight: bool, ghost cur: set<Reg>)
      requires tight ==> good && Scalar(x) && Tight(pool, cur)
      requires Valid() && IsOperation(x) && forall i :: 0 <= i < |x.defs| ==> Base(x.defs[i]) in alloc
      requires good ==> Good(pool) && Defs(x) !! dead
      modifies this`dealloc, this`defined, this`dead, pool
      ensures Valid() && Marked() == MarkAll(old(Marked()), x.defs, x.vec) && dead == old(dead) + Defs(x)
      ensures good ==> Good(pool)
      ensures tight ==> Tight(pool, cur - Defs(x))
    {
      ghost var now := cur;
      for i := 0 to |x.defs|
        invariant now == cur - TouchedBy(x.defs[..i], x.vec) && (tight ==> Tight(pool, now))
        invariant Valid() && Marked() == MarkAll(old(Marked()), x.defs[..i], x.vec)
        invariant dead == old(dead) + TouchedBy(x.defs[..i], x.vec)
        invariant good ==> Good(pool)
      {
        NextDef(x, i, old(Marked()), old(dead), good);
        Deallocated(x.defs[i], x.vec, pool, good, tight, now);
        now := now - Touched(x.defs[i], x.vec);
      }
      assert x.defs[..|x.defs|] == x.defs;
    }

    method Instruction(x: Operation, pool: Pool, ghost good: bool, ghost tight: bool, ghost after: set<Reg>)
        returns (res: Result)
      requires Valid() && IsOperation(x)
      requires tight ==> good && Scalar(x) && Tight(pool, after)
      requires good ==> Good(pool) && Defs(x) !! dead && Uses(x) !! dead + Defs(x)
      requires good ==> forall r :: r in after ==> Alive(alloc, dead, r)
      modifies this`alloc, this`usage, this`dealloc, this`defined, this`dead, pool
      ensures Valid() && Grown(old(alloc), alloc)
      ensures res.DoubleWrite? ==> Refused(x, old(defined)) && !good
      ensures res.Done? ==> !Refused(x, old(defined))
      ensures res.Done? ==> Marked() == MarkAll(old(Marked()), x.defs, x.vec) && dead == old(dead) + Defs(x)
      ensures res.Done? && good ==> Good(pool) && ApartAt(alloc, x, after)
      ensures res.Done? && good ==> forall r :: r in after - Defs(x) + Uses(x) ==> Alive(alloc, dead, r)
      ensures res.Done? && tight ==>
        Tight(pool, after - Defs(x) + Uses(x)) && Pressed(old(usage), usage, after + Defs(x) + Uses(x))
      ensures res.Overflow? && tight ==> Over(n, after + Defs(x) + Uses(x))
    {
      res := AllocDefs(x, pool, good, tight, after);
      if res != Done {
        if good && res == DoubleWrite {
          RefusedIsWritten(x, defined, dead);
        }
        if tight && res == Overflow {
          OverMore(n, after + Defs(x), after + Defs(x) + Uses(x));
        }
        return;
      }
      res := AllocUses(x, pool, good, tight, old(usage), after + Defs(x));
      if res != Done {
        return;
      }
      if good {
        ArgumentsAlive(x, alloc, dead);
        AllAlive(alloc, usage, pool.free, dead, x, after);
      }
      DeallocDefs(x, pool, good, tight, after + Defs(x) + Uses(x));
      assert good ==> after + Defs(x) + Uses(x) - Defs(x) == after - Defs(x) + Uses(x);
    }

    /** Allocates a block. out are the registers that later blocks read, which have their slots. */
    method Process(prog: seq<Operation>, pool: Pool, ghost out: set<Reg>) returns (res: Result)
      requires Valid() && IsBlock(prog)
      modifies this`alloc, this`usage, this`dealloc, this`defined, this`dead, pool
      ensures Valid() && Grown(old(alloc), alloc)
      ensures res.DoubleWrite? ==> exists k :: 0 <= k < |prog| && Rewrites(prog, old(Marked()), k)
      ensures res.Done? ==> forall k :: 0 <= k < |prog| ==> !Rewrites(prog, old(Marked()), k)
      ensures old(Expected(prog, pool, out)) ==> !res.DoubleWrite?
      ensures old(Expected(prog, pool, out)) && res.Done? ==>
        Reached(prog, pool, out, old(dead), 0) && Apart(prog, alloc, out, 0)
      ensures old(Expected(prog, pool, out) && Tight(pool, out)) && Scalars(prog) ==>
        && (res.Overflow? <==> TooMany(n, prog, out))
        && (res.Done? ==> Tight(pool, Live(prog, out, 0)))
        && (res.Done? ==> FilledUpto(old(usage), prog, out, 0))
    {
      ghost var good, m := Expected(prog, pool, out), Marked();
      ghost var tight := good && Tight(pool, out) && Scalars(prog);
      var k := |prog|;
      while k > 0
        invariant 0 <= k <= |prog| && Valid() && Grown(old(alloc), alloc)
        invariant Marked() == MarksFrom(prog, m, k)
        invariant forall i :: k <= i < |prog| ==> !Rewrites(prog, m, i)
        invariant good ==> Reached(prog, pool, out, old(dead), k) && Apart(prog, alloc, out, k)
        invariant tight ==> Tight(pool, Live(prog, out, k))
        invariant tight ==> FilledUpto(old(usage), prog, out, k)
      {
        k := k - 1;
        res := Turn(prog, pool, out, m, old(dead), old(usage), k, good, tight);
        if res != Done {
          return;
        }
      }
      if tight {
        NotTooMany(n, old(usage), usage, prog, out);
      }
      return Done;
    }

    /** The registers in use are as many as the instructions from k on have needed. */
    ghost predicate FilledUpto(before: map<Kind, nat>, prog: seq<Operation>, out: set<Reg>, k: nat)
      requires k <= |prog|
      reads this
    {
      forall kind :: Filled(before, usage, prog, out, k, kind)
    }

    /** One turn of the scan. later and m are what held when it started. */
    method Turn(prog: seq<Operation>, pool: Pool, ghost out: set<Reg>, ghost m: Marks, ghost later: set<Reg>,
                ghost before: map<Kind, nat>, k: nat, ghost good: bool, ghost tight: bool) returns (res: Result)
      requires Valid() && IsBlock(prog) && k < |prog| && Marked() == MarksFrom(prog, m, k + 1)
      requires good ==> WrittenOnce(prog, later, 0)
      requires good ==> Reached(prog, pool, out, later, k + 1) && Apart(prog, alloc, out, k + 1)
      requires tight ==> good && Scalars(prog) && Tight(pool, Live(prog, out, k + 1))
      requires tight ==> FilledUpto(before, prog, out, k + 1)
      modifies this`alloc, this`usage, this`dealloc, this`defined, this`dead, pool
      ensures Valid() && Grown(old(alloc), alloc)
      ensures res.DoubleWrite? ==> Rewrites(prog, m, k) && !good
      ensures res.Done? ==> !Rewrites(prog, m, k) && Marked() == MarksFrom(prog, m, k)
      ensures res.Done? && good ==> Reached(prog, pool, out, later, k) && Apart(prog, alloc, out, k)
      ensures res.Done? && tight ==> Tight(pool, Live(prog, out, k))
      ensures res.Done? && tight ==> FilledUpto(before, prog, out, k)
      ensures res.Overflow? && tight ==> TooMany(n, prog, out)
    {
      if good {
        WrittenAt(prog, later, 0, k);
      }
      res := Step(prog, pool, out, later, k, good, tight);
      if tight && res == Overflow {
        PeakTooMany(n, prog, out, k);
      }
      if tight && res == Done {
        FilledOn(before, old(usage), usage, prog, out, k, k + 1);
      }
    }

    /** Instruction k of the scan. */
    method Step(prog: seq<Operation>, pool: Pool, ghost out: set<Reg>, ghost later: set<Reg>, k: nat, ghost good: bool,
                ghost tight: bool) returns (res: Result)
      requires Valid() && IsBlock(prog) && k < |prog|
      requires good ==> FirstWrite(prog, later, k) && Reached(prog, pool, out, later, k + 1)
      requires good ==> Apart(prog, alloc, out, k + 1)
      requires tight ==> good && Scalar(prog[k]) && Tight(pool, Live(prog, out, k + 1))
      modifies this`alloc, this`usage, this`dealloc, this`defined, this`dead, pool
      ensures Valid() && Grown(old(alloc), alloc)
      ensures res.DoubleWrite? ==> Refused(prog[k], old(defined)) && !good
      ensures res.Done? ==> !Refused(prog[k], old(defined))
      ensures res.Done? ==> Marked() == MarkAll(old(Marked()), prog[k].defs, prog[k].vec)
      ensures res.Done? && good ==> Reached(prog, pool, out, later, k) && Apart(prog, alloc, out, k)
      ensures res.Done? && tight ==> Tight(pool, Live(prog, out, k)) && Pressed(old(usage), usage, Peak(prog, out, k))
      ensures res.Overflow? && tight ==> Over(n, Peak(prog, out, k))
    {
      res := Instruction(prog[k], pool, good, tight, Live(prog, out, k + 1));
      if res == Done && good {
        ApartNext(prog, old(alloc), alloc, out, k);
        assert dead == later + DefsFrom(prog, k);
      }
    }
  }

  lemma ApartNext(prog: seq<Operation>, a: map<Reg, nat>, b: map<Reg, nat>, out: set<Reg>, k: nat)
    requires k < |prog| && Apart(prog, a, out, k + 1) && Grown(a, b) && ApartAt(b, prog[k], Live(prog, out, k + 1))
    ensures Apart(prog, b, out, k)
  {
    ApartGrown(prog, a, b, out, k + 1);
    assert ApartHere(prog, b, out, k);
  }

  lemma {:induction false} WrittenAt(prog: seq<Operation>, later: set<Reg>, k: nat, i: nat)
    requires k <= i < |prog| && WrittenOnce(prog, later, k)
    ensures FirstWrite(prog, later, i)
    decreases i - k
  {
    if k < i {
      WrittenAt(prog, later, k + 1, i);
    }
  }

  /** Once the first two loops are through, all arguments are alive. */
  lemma ArgumentsAlive(x: Operation, alloc: map<Reg, nat>, dead: set<Reg>)
    requires IsOperation(x) && Defs(x) + Uses(x) !! dead
    requires forall i :: 0 <= i < |x.defs| ==> Base(x.defs[i]) in alloc
    requires forall i :: 0 <= i < |x.uses| ==> Base(x.uses[i]) in alloc
    ensures forall r :: r in Defs(x) + Uses(x) ==> Alive(alloc, dead, r)
  {
  }

  /** The i-th register written adds its elements, which are not among those before. */
  lemma NextDef(x: Operation, i: nat, m: Marks, dead: set<Reg>, good: bool)
    requires IsOperation(x) && i < |x.defs| && (good ==> Defs(x) !! dead)
    ensures good ==> x.defs[i] !in dead + TouchedBy(x.defs[..i], x.vec)
    ensures TouchedBy(x.defs[..i + 1], x.vec) == TouchedBy(x.defs[..i], x.vec) + Touched(x.defs[i], x.vec)
    ensures MarkAll(m, x.defs[..i + 1], x.vec) == Mark(MarkAll(m, x.defs[..i], x.vec), x.defs[i], x.vec)
  {
    var before := x.defs[..i];
    assert x.defs[..i + 1] == before + [x.defs[i]] && (before + [x.defs[i]])[..i] == before;
    DefsApart(x, i);
    TouchedMore(before, x.defs[i], x.vec);
  }

  lemma RefusedIsWritten(x: Operation, defined: set<Reg>, dead: set<Reg>)
    requires IsOperation(x) && Refused(x, defined) && defined <= dead
    ensures !(Defs(x) !! dead)
  {
    var i :| 0 <= i < |x.defs| && x.defs[i] in defined;
    DefsApart(x, i);
    assert x.defs[i] in Defs(x) * dead;
  }

  /** Two different arguments of an instruction stand for different elements. */
  lemma DefsApart(x: Operation, i: nat)
    requires IsOperation(x) && i < |x.defs|
    ensures x.defs[i] in Defs(x) && x.defs[i] !in TouchedBy(x.defs[..i], x.vec)
  {
    assert x.defs[i] in Touched(x.defs[i], x.vec);
  }

  lemma NextTouched(rs: seq<Reg>, i: nat, vec: bool)
    requires i < |rs|
    ensures TouchedBy(rs[..i + 1], vec) == TouchedBy(rs[..i], vec) + Touched(rs[i], vec)
    ensures TouchedBy(rs[..i], vec) <= TouchedBy(rs, vec) && Touched(rs[i], vec) <= TouchedBy(rs, vec)
  {
    assert rs[..i + 1] == rs[..i] + [rs[i]];
    TouchedMore(rs[..i], rs[i], vec);
    forall r | r in TouchedBy(rs[..i], vec)
      ensures r in TouchedBy(rs, vec)
    {
      var k :| 0 <= k < i && r in Touched(rs[..i][k], vec);
      assert r in Touched(rs[k], vec);
    }
  }

  lemma TouchedMore(rs: seq<Reg>, r: Reg, vec: bool)
    ensures TouchedBy(rs + [r], vec) == TouchedBy(rs, vec) + Touched(r, vec)
  {
    var more := rs + [r];
    forall q
      ensures q in TouchedBy(more, vec) <==> q in TouchedBy(rs, vec) || q in Touched(r, vec)
    {
      if q in TouchedBy(rs, vec) {
        var k :| 0 <= k < |rs| && q in Touched(rs[k], vec);
        assert more[k] == rs[k];
      }
      if q in Touched(r, vec) {
        assert more[|rs|] == r;
      }
    }
  }

  // ---------- a block of its own ----------

  /** Both versions of the block read the same values, and leave the same in out. */
  ghost predicate SameRun<V>(M: Semantics<V>, prog: seq<Operation>, alloc: map<Reg, nat>, out: set<Reg>, s: Reg -> V,
                             p: (Kind, nat) -> V) {
    && IsBlock(prog) && (forall i :: 0 <= i < |prog| ==> Placed(alloc, Defs(prog[i]) + Uses(prog[i])))
    && RunVirtual(M, prog, s, 0).1 == RunAllocated(M, prog, alloc, p, 0).1
    && Agree(alloc, out, RunVirtual(M, prog, s, 0).0, RunAllocated(M, prog, alloc, p, 0).0)
  }

  /** Allocates a block that shares no register with others. On scalars, as few registers are used
      as some instruction needs at once, and the allocator gives up only if those are not there. */
  method AllocateBlock<V(!new)>(prog: seq<Operation>, n: nat)
      returns (res: Result, alloc: map<Reg, nat>, usage: map<Kind, nat>)
    requires IsBlock(prog)
    ensures res.DoubleWrite? ==> exists k :: 0 <= k < |prog| && Rewrites(prog, Marks({}, {}), k)
    ensures res.Done? ==> forall k :: 0 <= k < |prog| ==> !Rewrites(prog, Marks({}, {}), k)
    ensures WrittenOnce(prog, {}, 0) ==> !res.DoubleWrite?
    ensures WrittenOnce(prog, {}, 0) && res.Done? ==>
      && Apart(prog, alloc, {}, 0)
      && (forall b :: Fits(alloc, usage, b))
      && forall M: Semantics<V>, s: Reg -> V, p: (Kind, nat) -> V ::
           Agree(alloc, Live(prog, {}, 0), s, p) ==> SameRun(M, prog, alloc, {}, s, p)
    ensures WrittenOnce(prog, {}, 0) && Scalars(prog) ==>
      && (res.Overflow? <==> TooMany(n, prog, {}))
      && (res.Done? ==> forall kind :: Usage(usage, kind) == Pressure(prog, {}, 0, kind))
  {
    var allocator := new StraightlineAllocator(n);
    var pool := new Pool();
    assert allocator.Tight(pool, {}) by {
      assert forall k :: OfKind({}, k) == {} && ExtentsOf({}, k) == {};
    }
    ghost var m, before := allocator.Marked(), allocator.usage;
    res := allocator.Process(prog, pool, {});
    alloc, usage := allocator.alloc, allocator.usage;
    assert m == Marks({}, {}) && before == map[];
    if WrittenOnce(prog, {}, 0) && res.Done? {
      if Scalars(prog) {
        forall kind
          ensures Usage(usage, kind) == Pressure(prog, {}, 0, kind)
        {
          assert Filled(before, usage, prog, {}, 0, kind);
        }
      }
      forall M: Semantics<V>, s: Reg -> V, p: (Kind, nat) -> V | Agree(alloc, Live(prog, {}, 0), s, p)
        ensures SameRun(M, prog, alloc, {}, s, p)
      {
        AllocatedRuns(M, prog, alloc, {}, s, p, 0);
      }
    }
  }

  // ---------- double writes ----------

  lemma {:induction false} ScalarMark(m: Marks, rs: seq<Reg>)
    requires forall i :: 0 <= i < |rs| ==> rs[i].size == 1
    ensures MarkAll(m, rs, false).defined == m.defined + TouchedBy(rs, false)
  {
    if rs != [] {
      var front, last := rs[..|rs| - 1], rs[|rs| - 1];
      ScalarMark(m, front);
      TouchedMore(front, last, false);
      assert front + [last] == rs;
    }
  }

  lemma {:induction false} ScalarMarks(prog: seq<Operation>, m: Marks, k: nat)
    requires k <= |prog| && forall i :: k <= i < |prog| ==> Scalar(prog[i])
    ensures MarksFrom(prog, m, k).defined == m.defined + DefsFrom(prog, k)
    decreases |prog| - k
  {
    if k < |prog| {
      ScalarMarks(prog, m, k + 1);
      ScalarMark(MarksFrom(prog, m, k + 1), prog[k].defs);
    }
  }

  /** For scalars a write is refused exactly if a later instruction or block writes the same. */
  lemma ScalarsNoticed(prog: seq<Operation>, m: Marks, k: nat)
    requires IsBlock(prog) && k < |prog| && Scalars(prog)
    ensures Rewrites(prog, m, k) <==> !(Defs(prog[k]) !! m.defined + DefsFrom(prog, k + 1))
  {
    ScalarMarks(prog, m, k + 1);
    var defined := m.defined + DefsFrom(prog, k + 1);
    if Rewrites(prog, m, k) {
      RefusedIsWritten(prog[k], defined, defined);
    }
    if !(Defs(prog[k]) !! defined) {
      var r :| r in Defs(prog[k]) && r in defined;
      var i :| 0 <= i < |prog[k].defs| && r in Touched(prog[k].defs[i], false);
      assert prog[k].defs[i] == r;
    }
  }

  function Names(rs: seq<Reg>): set<Reg> {
    set i | 0 <= i < |rs| :: rs[i]
  }

  /** What the instructions from k on name as written; of a whole vector that is its first element. */
  function NamesFrom(prog: seq<Operation>, k: nat): set<Reg>
    requires k <= |prog|
    decreases |prog| - k
  {
    if k == |prog| then {} else NamesFrom(prog, k + 1) + Names(prog[k].defs)
  }

  /** Argument t of a list writes r as part of a whole vector, or is r, and with what has been named
      by then all elements of its vector have been. */
  ghost predicate Completes(named: set<Reg>, rs: seq<Reg>, vec: bool, t: nat, r: Reg)
    requires t < |rs|
  {
    r in Touched(rs[t], vec) && (vec || Vector(rs[t]) <= named + Names(rs[..t + 1]))
  }

  /** Instruction i completes the vector of its argument t, which covers r. */
  ghost predicate CompletedAt(prog: seq<Operation>, named: set<Reg>, i: nat, t: nat, r: Reg) {
    i < |prog| && t < |prog[i].defs|
    && Completes(named + NamesFrom(prog, i + 1), prog[i].defs, prog[i].vec, t, r)
  }

  lemma {:induction false} MarkNames(m: Marks, rs: seq<Reg>, vec: bool)
    ensures MarkAll(m, rs, vec).dealloc == m.dealloc + Names(rs)
  {
    if rs != [] {
      var front, last := rs[..|rs| - 1], rs[|rs| - 1];
      MarkNames(m, front, vec);
      NamesMore(front, last);
      assert front + [last] == rs;
    }
  }

  lemma NamesMore(rs: seq<Reg>, r: Reg)
    ensures Names(rs + [r]) == Names(rs) + {r}
  {
    var more := rs + [r];
    assert more[|rs|] == r && forall i :: 0 <= i < |rs| ==> more[i] == rs[i];
  }

  lemma {:induction false} MarksNames(prog: seq<Operation>, m: Marks, k: nat)
    requires k <= |prog|
    ensures MarksFrom(prog, m, k).dealloc == m.dealloc + NamesFrom(prog, k)
    decreases |prog| - k
  {
    if k < |prog| {
      MarksNames(prog, m, k + 1);
      MarkNames(MarksFrom(prog, m, k + 1), prog[k].defs, prog[k].vec);
    }
  }

  lemma {:induction false} MarkedBy(m: Marks, rs: seq<Reg>, vec: bool, r: Reg)
    requires forall i :: 0 <= i < |rs| ==> IsReg(rs[i])
    ensures r in MarkAll(m, rs, vec).defined
       <==> r in m.defined || exists t :: 0 <= t < |rs| && Completes(m.dealloc, rs, vec, t, r)
  {
    if rs != [] {
      var n := |rs| - 1;
      var front, last := rs[..n], rs[n];
      MarkedBy(m, front, vec, r);
      MarkNames(m, front, vec);
      NamesMore(front, last);
      assert front + [last] == rs && rs[..n + 1] == rs;
      forall t | 0 <= t < n
        ensures Completes(m.dealloc, rs, vec, t, r) <==> Completes(m.dealloc, front, vec, t, r)
      {
        assert front[..t + 1] == rs[..t + 1];
      }
      assert m.dealloc + Names(rs) == MarkAll(m, front, vec).dealloc + {last};
      assert last.size == 1 ==> Vector(last) == {last};
      assert Completes(m.dealloc, rs, vec, n, r) <==>
             r in Touched(last, vec) && (vec || Vector(last) <= m.dealloc + Names(rs));
    }
  }

  /** The registers that count as defined before instruction k: those that a later instruction wrote
      as parts of a whole vector, or wrote as the last missing elements of their vectors. */
  lemma {:induction false} DefinedExactly(prog: seq<Operation>, m: Marks, k: nat, r: Reg)
    requires IsBlock(prog) && k <= |prog|
    ensures r in MarksFrom(prog, m, k).defined
       <==> r in m.defined || exists i, t :: k <= i && CompletedAt(prog, m.dealloc, i, t, r)
    decreases |prog| - k
  {
    if k < |prog| {
      DefinedExactly(prog, m, k + 1, r);
      MarksNames(prog, m, k + 1);
      var x, after := prog[k], MarksFrom(prog, m, k + 1);
      MarkedBy(after, x.defs, x.vec, r);
      assert forall t :: 0 <= t < |x.defs| ==>
        (Completes(after.dealloc, x.defs, x.vec, t, r) <==> CompletedAt(prog, m.dealloc, k, t, r));
    }
  }

  /** A write is refused exactly if a later instruction covered the register when it completed its
      vector, or a later block did. */
  lemma WritesNoticed(prog: seq<Operation>, m: Marks, k: nat)
    requires IsBlock(prog) && k < |prog|
    ensures Rewrites(prog, m, k) <==>
      exists q :: 0 <= q < |prog[k].defs| &&
        (prog[k].defs[q] in m.defined || exists i, t :: k < i && CompletedAt(prog, m.dealloc, i, t, prog[k].defs[q]))
  {
    forall r
      ensures r in MarksFrom(prog, m, k + 1).defined
         <==> r in m.defined || exists i, t :: k < i && CompletedAt(prog, m.dealloc, i, t, r)
    {
      DefinedExactly(prog, m, k + 1, r);
    }
  }

  /** An element of a vector of two, written twice: nothing is noticed. */
  function Twice(): seq<Operation> {
    var x := Operation([Reg(ClearModp, 0, 2, 0)], [], false);
    [x, x]
  }

  lemma VectorsUnnoticed()
    ensures IsBlock(Twice()) && !(Defs(Twice()[0]) !! DefsFrom(Twice(), 1))
    ensures forall k :: 0 <= k < 2 ==> !Rewrites(Twice(), Marks({}, {}), k)
  {
    var prog, r, q := Twice(), Reg(ClearModp, 0, 2, 0), Reg(ClearModp, 0, 2, 1);
    assert r in Touched(prog[0].defs[0], false) && r in Touched(prog[1].defs[0], false);
    assert r in Defs(prog[0]) && r in DefsFrom(prog, 1);
    assert q in Vector(r);
    var m := Marks({}, {});
    assert MarksFrom(prog, m, 2) == m;
    assert Mark(m, r, false) == Marks({r}, {});
    assert prog[1].defs[..0] == [];
    assert MarkAll(m, prog[1].defs, false) == Marks({r}, {});
    assert MarksFrom(prog, m, 1) == Marks({r}, {});
    forall k | 0 <= k < 2
      ensures !Rewrites(prog, m, k)
    {
      assert MarksFrom(prog, m, k + 1).defined == {};
    }
  }

  // ---------- the fewest registers ----------

  /** Where a register that is alive before instruction k was written. */
  lemma {:induction false} WrittenBefore(prog: seq<Operation>, out: set<Reg>, k: nat, r: Reg) returns (d: nat)
    requires k <= |prog| && r in Live(prog, out, k) && Live(prog, out, 0) == {}
    ensures d < k && r in Defs(prog[d]) && forall j :: d < j <= k ==> r in Live(prog, out, j)
  {
    if r in Defs(prog[k - 1]) {
      d := k - 1;
    } else {
      d := WrittenBefore(prog, out, k - 1, r);
    }
  }

  lemma WriteApart(alloc: map<Reg, nat>, x: Operation, after: set<Reg>, r: Reg, d: Reg)
    requires ApartAt(alloc, x, after) && r in after + Defs(x) + Uses(x) && d in Defs(x) && r != d && r.kind == d.kind
    ensures Base(r) in alloc && Base(d) in alloc && Index(alloc, r) != Index(alloc, d)
  {
  }

  /** Registers that matter before an instruction are apart. */
  lemma LiveApart(prog: seq<Operation>, alloc: map<Reg, nat>, k: nat, r: Reg, q: Reg)
    requires k <= |prog| && Live(prog, {}, 0) == {} && Apart(prog, alloc, {}, 0)
    requires r in Live(prog, {}, k) && q in Live(prog, {}, k) && r != q && r.kind == q.kind
    ensures Base(r) in alloc && Base(q) in alloc && Index(alloc, r) != Index(alloc, q)
  {
    var d := WrittenBefore(prog, {}, k, r);
    var e := WrittenBefore(prog, {}, k, q);
    if d < e {
      assert ApartHere(prog, alloc, {}, e);
      WriteApart(alloc, prog[e], Live(prog, {}, e + 1), r, q);
    } else {
      assert ApartHere(prog, alloc, {}, d);
      WriteApart(alloc, prog[d], Live(prog, {}, d + 1), q, r);
    }
  }

  /** Registers that an instruction needs at once are apart in every allocation that keeps a
      block from overwriting what matters. */
  lemma PeakApart(prog: seq<Operation>, alloc: map<Reg, nat>, k: nat, r: Reg, q: Reg)
    requires k < |prog| && Live(prog, {}, 0) == {} && Apart(prog, alloc, {}, 0)
    requires r in Peak(prog, {}, k) && q in Peak(prog, {}, k) && r != q && r.kind == q.kind
    ensures Base(r) in alloc && Base(q) in alloc && Index(alloc, r) != Index(alloc, q)
  {
    var x, after := prog[k], Live(prog, {}, k + 1);
    assert ApartHere(prog, alloc, {}, k);
    if q in Defs(x) {
      WriteApart(alloc, x, after, r, q);
    } else if r in Defs(x) {
      WriteApart(alloc, x, after, q, r);
    } else {
      assert r in Live(prog, {}, k) && q in Live(prog, {}, k);
      LiveApart(prog, alloc, k, r, q);
    }
  }

  lemma {:induction false} Pigeonhole(rs: set<Reg>, f: Reg -> nat, n: nat)
    requires forall r :: r in rs ==> f(r) < n
    requires forall r, q :: r in rs && q in rs && r != q ==> f(r) != f(q)
    ensures |rs| <= n
    decreases n
  {
    if n == 0 {
      assert rs == {};
    } else if r :| r in rs && f(r) == n - 1 {
      Pigeonhole(rs - {r}, f, n - 1);
    } else {
      Pigeonhole(rs, f, n - 1);
    }
  }

  ghost predicate Differ(alloc: map<Reg, nat>, r: Reg, q: Reg) {
    Base(r) in alloc && Base(q) in alloc && (r != q ==> Index(alloc, r) != Index(alloc, q))
  }

  /** Registers of one type that are apart have to fit into those used. */
  lemma ApartFit(alloc: map<Reg, nat>, usage: map<Kind, nat>, rs: set<Reg>, kind: Kind)
    requires forall b :: Fits(alloc, usage, b)
    requires forall r :: r in rs ==> IsReg(r) && r.kind == kind
    requires forall r, q :: r in rs && q in rs ==> Differ(alloc, r, q)
    ensures |rs| <= Usage(usage, kind)
  {
    var f := (r: Reg) => if Base(r) in alloc then Index(alloc, r) else 0;
    forall r | r in rs
      ensures f(r) < Usage(usage, kind)
    {
      assert Differ(alloc, r, r) && Fits(alloc, usage, Base(r));
    }
    forall r, q | r in rs && q in rs && r != q
      ensures f(r) != f(q)
    {
      assert Differ(alloc, r, q);
    }
    Pigeonhole(rs, f, Usage(usage, kind));
  }

  lemma PeakDiffers(prog: seq<Operation>, alloc: map<Reg, nat>, kind: Kind, k: nat, r: Reg, q: Reg)
    requires k < |prog| && Live(prog, {}, 0) == {} && Apart(prog, alloc, {}, 0)
    requires r in OfKind(Peak(prog, {}, k), kind) && q in OfKind(Peak(prog, {}, k), kind)
    ensures Differ(alloc, r, q)
  {
    if r == q {
      assert ApartHere(prog, alloc, {}, k);
    } else {
      PeakApart(prog, alloc, k, r, q);
    }
  }

  lemma PeakNeeds(prog: seq<Operation>, alloc: map<Reg, nat>, usage: map<Kind, nat>, kind: Kind, k: nat)
    requires k < |prog| && IsBlock(prog) && Live(prog, {}, 0) == {} && Apart(prog, alloc, {}, 0)
    requires forall b :: Fits(alloc, usage, b)
    ensures |OfKind(Peak(prog, {}, k), kind)| <= Usage(usage, kind)
  {
    var rs := OfKind(Peak(prog, {}, k), kind);
    forall r, q | r in rs && q in rs
      ensures Differ(alloc, r, q)
    {
      PeakDiffers(prog, alloc, kind, k, r, q);
    }
    PeakRegs(prog, k);
    ApartFit(alloc, usage, rs, kind);
  }

  ghost predicate PeakWithin(prog: seq<Operation>, out: set<Reg>, kind: Kind, n: nat, i: nat) {
    i < |prog| ==> |OfKind(Peak(prog, out, i), kind)| <= n
  }

  lemma {:induction false} PressureWithin(prog: seq<Operation>, out: set<Reg>, kind: Kind, k: nat, n: nat)
    requires k <= |prog| && forall i: nat :: PeakWithin(prog, out, kind, n, i)
    ensures Pressure(prog, out, k, kind) <= n
    decreases |prog| - k
  {
    if k < |prog| {
      assert PeakWithin(prog, out, kind, n, k);
      PressureWithin(prog, out, kind, k + 1, n);
    }
  }

  /** No allocation that keeps the block correct in this way gets by with fewer registers. */
  lemma PressureNeeded(prog: seq<Operation>, alloc: map<Reg, nat>, usage: map<Kind, nat>, kind: Kind)
    requires IsBlock(prog) && Live(prog, {}, 0) == {} && Apart(prog, alloc, {}, 0)
    requires forall b :: Fits(alloc, usage, b)
    ensures Pressure(prog, {}, 0, kind) <= Usage(usage, kind)
  {
    forall i: nat
      ensures PeakWithin(prog, {}, kind, Usage(usage, kind), i)
    {
      if i < |prog| {
        PeakNeeds(prog, alloc, usage, kind, i);
      }
    }
    PressureWithin(prog, {}, kind, 0, Usage(usage, kind));
  }

  lemma {:induction false} LiveRegs(prog: seq<Operation>, k: nat)
    requires k <= |prog| && IsBlock(prog)
    ensures forall r :: r in Live(prog, {}, k) ==> IsReg(r)
    decreases |prog| - k
  {
    if k < |prog| {
      LiveRegs(prog, k + 1);
      assert IsOperation(prog[k]);
    }
  }

  lemma PeakRegs(prog: seq<Operation>, k: nat)
    requires k < |prog| && IsBlock(prog)
    ensures forall r :: r in Peak(prog, {}, k) ==> IsReg(r)
  {
    LiveRegs(prog, k + 1);
    assert IsOperation(prog[k]);
  }
}
