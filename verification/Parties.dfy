/**
 The trusted party and the parties of BMR/TrustedParty.cpp, BMR/Party.cpp and BMR/CommonParty.cpp:
 they own the registers and the buffers, and execute one instruction at a time in each phase.
 Every instruction method is proved to take the step that Garbling describes.
 */
module Parties {
  import opened Keys
  import opened Garbling
  import opened Registers

  /** The registers of one processor, created on demand. */
  class RegisterFile<K(==)> {
    var regs: map<nat, Register<K>>
    ghost var Repr: set<Register<K>>

    ghost predicate Valid()
      reads this
    {
      && (forall v :: v in regs ==> regs[v] in Repr)
      && (forall v, w :: v in regs && w in regs && v != w ==> regs[v] != regs[w])
    }

    ghost function Values(): map<nat, Reg<K>>
      requires Valid()
      reads this, Repr
    {
      map w | w in regs :: regs[w].Value()
    }

    constructor ()
      ensures Valid() && regs == map[] && Repr == {}
    {
      regs, Repr := map[], {};
    }

    /** The register d, to be written. */
    method Dest(G: KeyGroup<K>, n: nat, d: nat) returns (r: Register<K>)
      requires Valid()
      modifies this
      ensures Valid() && d in regs && r == regs[d] && regs == old(regs)[d := r]
      ensures d in old(regs) ==> r == old(regs)[d]
      ensures d !in old(regs) ==> fresh(r)
      ensures old(Repr) <= Repr && fresh(Repr - old(Repr))
      ensures r.Value() == Get(G, n, old(Values()), d)
      ensures Values() == old(Values())[d := r.Value()]
    {
      if d in regs {
        r := regs[d];
        assert regs[d := r] == regs;
      } else {
        r := new Register(G, n);
        regs, Repr := regs[d := r], Repr + {r};
      }
    }

    /** The register w, to be read. */
    method Operand(G: KeyGroup<K>, n: nat, w: nat) returns (r: Register<K>)
      requires Valid()
      ensures r.Value() == Get(G, n, Values(), w)
      ensures if w in regs then r == regs[w] else fresh(r)
    {
      if w in regs {
        r := regs[w];
      } else {
        r := new Register(G, n);
      }
    }

    /** Two registers to be read. */
    method Pair(G: KeyGroup<K>, n: nat, v: nat, w: nat) returns (left: Register<K>, right: Register<K>)
      requires Valid()
      ensures left.Value() == Get(G, n, Values(), v) && right.Value() == Get(G, n, Values(), w)
      ensures Values() == old(Values())
    {
      left := Operand(G, n, v);
      right := Operand(G, n, w);
    }

    /** Two registers to be read and one to be written. */
    method Operands(G: KeyGroup<K>, n: nat, v: nat, w: nat, d: nat)
      returns (left: Register<K>, right: Register<K>, r: Register<K>)
      requires Valid()
      modifies this
      ensures Valid() && d in regs && r == regs[d] && regs == old(regs)[d := r]
      ensures d in old(regs) ==> r == old(regs)[d]
      ensures d !in old(regs) ==> fresh(r)
      ensures old(Repr) <= Repr && fresh(Repr - old(Repr))
      ensures left.Value() == Get(G, n, old(Values()), v) && right.Value() == Get(G, n, old(Values()), w)
      ensures r.Value() == Get(G, n, old(Values()), d)
      ensures Values() == old(Values())[d := r.Value()]
      ensures (r == left <==> d == v) && (r == right <==> d == w)
    {
      r := Dest(G, n, d);
      left := Operand(G, n, v);
      right := Operand(G, n, w);
    }
  }

  /** Copies a register. */
  method CopyWire<K>(f: RegisterFile<K>, G: KeyGroup<K>, n: nat, d: nat, source: nat)
    requires f.Valid()
    modifies f, f.Repr
    ensures f.Valid() && fresh(f.Repr - old(f.Repr))
    ensures f.Values() == old(f.Values())[d := Get(G, n, old(f.Values()), source)]
  {
    var from := f.Operand(G, n, source);
    var r := f.Dest(G, n, d);
    r.Assign(from);
    Written(f, d, old(f.Values()));
  }

  /** If the other registers keep their values, only the value of d has changed. */
  lemma Written<K>(f: RegisterFile<K>, d: nat, was: map<nat, Reg<K>>)
    requires f.Valid() && d in f.regs && f.regs.Keys == was.Keys + {d}
    requires forall w :: w in f.regs && w != d ==> f.regs[w].Value() == was[w]
    ensures f.Values() == was[d := f.regs[d].Value()]
  {
  }

  /** Loading the wire and garbling the gate make up the step of a gate. */
  lemma GarbleOpUnfolds<K>(S: Setup<K>, st: GarbleState<K>, s: Instruction, ok: bool, g: GarbleState<K>)
    requires s.Op? && |st.wiresIn| >= 1 + 2 * S.n
    requires var w := Garbling.LoadWire(S.n, Get(S.G, S.n, st.regs, s.dest), st.wiresIn);
      && w.Some? && g.regs == st.regs[s.dest := w.value]
    requires var r, l, q := g.regs[s.dest], Get(S.G, S.n, g.regs, s.left), Get(S.G, S.n, g.regs, s.right);
      && ok == (Sized(S.n, r) && l.mask.Some? && q.mask.Some? && r.mask.Some? && TuplesFit(S.n, st.prfIn))
      && (ok ==> g == GarbleState(g.regs, st.wiresIn[1 + 2 * S.n..], DropTuples(S.n, st.prfIn),
                                  st.circuit + GarbledGate(S, s.func, l.mask.value, q.mask.value, r, st.prfIn)))
    ensures var h := Garbling.GarbleOp(S, st, s.dest, s.left, s.right, s.func);
      ok == h.Some? && (ok ==> h == Some(g))
  {
  }

  class TrustedProgramParty<K(==)> {
    const S: Setup<K>
    const randomRegs: RegisterFile<K>
    const regs: RegisterFile<K>
    var wires: seq<Cell<K>>
    var msgKeys: seq<seq<K>>
    var inputMasks: seq<seq<bool>>
    var outputMasks: seq<bool>
    var draws: nat
    var prfOutputs: seq<seq<PRFTuple<K>>>
    var circuit: seq<K>

    ghost predicate Valid()
      reads this, randomRegs, regs
    {
      && randomRegs != regs && randomRegs.Valid() && regs.Valid()
      && |S.deltas| == S.n && |msgKeys| == |inputMasks| == S.n
    }

    ghost function Random(): RandomState<K>
      requires Valid()
      reads this, randomRegs, randomRegs.Repr, regs
    {
      RandomState(randomRegs.Values(), wires, msgKeys, inputMasks, outputMasks, draws)
    }

    ghost function Garbled(): GarbleState<K>
      requires Valid()
      reads this, regs, regs.Repr, randomRegs
    {
      GarbleState(regs.Values(), wires, prfOutputs, circuit)
    }

    constructor (S: Setup<K>)
      requires |S.deltas| == S.n
      ensures Valid() && this.S == S && fresh(randomRegs) && fresh(regs)
      ensures Random() == RandomState(map[], [], seq(S.n, _ => []), seq(S.n, _ => []), [], 0)
      ensures randomRegs.Repr == {} && regs.Repr == {} && regs.regs == map[]
      ensures regs.Values() == map[] && circuit == []
    {
      this.S := S;
      randomRegs := new RegisterFile();
      regs := new RegisterFile();
      wires, outputMasks, draws, prfOutputs, circuit := [], [], 0, [], [];
      msgKeys, inputMasks := seq(S.n, _ => []), seq(S.n, _ => []);
    }

    // ---------- buffers ----------

    method StoreWire(r: Register<K>)
      modifies this`wires
      ensures wires == old(wires) + StoredWire(r.Value())
    {
      wires := wires + [Byte(r.mask)];
      wires := wires + Cells(r.keys.no);
      wires := wires + Cells(r.keys.yes);
    }

    method AddKeys(r: Register<K>)
      requires |msgKeys| == S.n && |r.keys.no| == |r.keys.yes| == S.n
      modifies this`msgKeys
      ensures msgKeys == Garbling.AddKeys(old(msgKeys), r.Value())
    {
      var p := 0;
      while p < S.n
        invariant 0 <= p <= S.n == |msgKeys|
        invariant forall k :: 0 <= k < p ==> msgKeys[k] == old(msgKeys)[k] + [r.keys.no[k], r.keys.yes[k]]
        invariant forall k :: p <= k < S.n ==> msgKeys[k] == old(msgKeys)[k]
      {
        msgKeys := msgKeys[p := msgKeys[p] + [r.keys.no[p], r.keys.yes[p]]];
        p := p + 1;
      }
    }

    method AddAllKeys(r: Register<K>, b: bool)
      requires |msgKeys| == S.n == |r.keys.At(b)|
      modifies this`msgKeys
      ensures msgKeys == Garbling.AddAllKeys(old(msgKeys), r.keys.At(b))
    {
      var p := 0;
      while p < S.n
        invariant 0 <= p <= S.n == |msgKeys|
        invariant forall k :: 0 <= k < p ==> msgKeys[k] == old(msgKeys)[k] + r.keys.At(b)
        invariant forall k :: p <= k < S.n ==> msgKeys[k] == old(msgKeys)[k]
      {
        var i := 0;
        while i < S.n
          invariant 0 <= i <= S.n == |msgKeys|
          invariant forall k :: 0 <= k < p ==> msgKeys[k] == old(msgKeys)[k] + r.keys.At(b)
          invariant msgKeys[p] == old(msgKeys)[p] + r.keys.At(b)[..i]
          invariant forall k :: p < k < S.n ==> msgKeys[k] == old(msgKeys)[k]
        {
          msgKeys := msgKeys[p := msgKeys[p] + [r.keys.At(b)[i]]];
          i := i + 1;
        }
        p := p + 1;
      }
    }

    /** Takes back what StoreWire appended. */
    method LoadWire(r: Register<K>) returns (ok: bool)
      modifies this`wires, r
      ensures ok == Garbling.LoadWire(S.n, old(r.Value()), old(wires)).Some?
      ensures ok ==> r.Value() == Garbling.LoadWire(S.n, old(r.Value()), old(wires)).value
      ensures ok ==> wires == old(wires)[1 + 2 * S.n..]
      ensures forall q, rest | Sized(S.n, q) && Sized(S.n, old(r.Value())) && old(wires) == StoredWire(q) + rest ::
        ok && r.Value() == old(r.Value()).(mask := q.mask, keys := q.keys) && wires == rest
    {
      ok := Garbling.LoadWire(S.n, r.Value(), wires).Some?;
      if ok {
        var zeros, ones := wires[1..1 + S.n], wires[1 + S.n..1 + 2 * S.n];
        r.mask := wires[0].mask;
        r.keys := Two(Contents(zeros), Contents(ones));
        wires := wires[1 + 2 * S.n..];
      }
      forall q, rest | Sized(S.n, q) && Sized(S.n, old(r.Value())) && old(wires) == StoredWire(q) + rest
        ensures ok && r.Value() == old(r.Value()).(mask := q.mask, keys := q.keys) && wires == rest
      {
        LoadStored(S.n, q, old(r.Value()), old(wires), rest);
      }
    }

    /** randomize: a fresh mask and fresh keys, sent to their owners. */
    method Randomize(r: Register<K>)
      requires |S.deltas| == S.n == |msgKeys|
      modifies this`msgKeys, this`draws, r
      ensures r.Value() == Garbling.Randomize(S, old(r.Value()), old(draws)) && draws == old(draws) + 1
      ensures |r.keys.no| == |r.keys.yes| == S.n && msgKeys == Garbling.AddKeys(old(msgKeys), r.Value())
    {
      var draw := draws;
      var raw := Two(seq(S.n, j requires 0 <= j < S.n => S.draw(draw, j)),
                     seq(S.n, j requires 0 <= j < S.n => S.draw(draw, S.n + j)));
      r.Randomize(S, draws, raw);
      draws := draws + 1;
      AddKeys(r);
    }

    // ---------- the Random phase ----------

    /** Gives wire d fresh keys. */
    method Fresh(d: nat) returns (r: Register<K>)
      requires Valid()
      modifies this`msgKeys, this`draws, randomRegs, randomRegs.Repr
      ensures fresh(randomRegs.Repr - old(randomRegs.Repr))
      ensures Valid() && r.Value() == Garbling.Randomize(S, Get(S.G, S.n, old(randomRegs.Values()), d), old(draws))
      ensures randomRegs.Values() == old(randomRegs.Values())[d := r.Value()]
      ensures |r.keys.no| == |r.keys.yes| == S.n && msgKeys == Garbling.AddKeys(old(msgKeys), r.Value())
      ensures draws == old(draws) + 1
    {
      r := randomRegs.Dest(S.G, S.n, d);
      Randomize(r);
      Written(randomRegs, d, old(randomRegs.Values()));
    }

    /** Draws wire d, and stores it for the Garble phase. */
    method DrawWire(d: nat) returns (r: Register<K>)
      requires Valid()
      modifies this`wires, this`msgKeys, this`draws, randomRegs, randomRegs.Repr
      ensures fresh(randomRegs.Repr - old(randomRegs.Repr))
      ensures Valid() && Random() == FreshWire(S, old(Random()), d) && r.Value() == Random().regs[d] && r.mask.Some?
      ensures |r.keys.no| == |r.keys.yes| == S.n
    {
      r := Fresh(d);
      StoreWire(r);
    }

    method RandomOp(s: Instruction)
      requires Valid() && s.Op?
      modifies this`wires, this`msgKeys, this`inputMasks, this`outputMasks, this`draws, randomRegs, randomRegs.Repr
      ensures fresh(randomRegs.Repr - old(randomRegs.Repr))
      ensures Valid() && RandomStep(S, old(Random()), s) == Some(Random())
    {
      var r := DrawWire(s.dest);
    }

    method RandomInput(s: Instruction) returns (ok: bool)
      requires Valid() && s.Input?
      modifies this`wires, this`msgKeys, this`inputMasks, this`outputMasks, this`draws, randomRegs, randomRegs.Repr
      ensures fresh(randomRegs.Repr - old(randomRegs.Repr))
      ensures Valid() && ok == RandomStep(S, old(Random()), s).Some?
      ensures ok ==> RandomStep(S, old(Random()), s) == Some(Random())
    {
      ok := s.from < S.n;
      if ok {
        var r := DrawWire(s.dest);
        inputMasks := inputMasks[s.from := inputMasks[s.from] + [r.mask.value]];
      }
    }

    method RandomPublicInput(s: Instruction)
      requires Valid() && s.PublicInput?
      modifies this`wires, this`msgKeys, this`inputMasks, this`outputMasks, this`draws, randomRegs, randomRegs.Repr
      ensures fresh(randomRegs.Repr - old(randomRegs.Repr))
      ensures Valid() && RandomStep(S, old(Random()), s) == Some(Random())
    {
      var r := randomRegs.Dest(S.G, S.n, s.dest);
      PublicKeys(r, s.value);
      StoreWire(r);
      Written(randomRegs, s.dest, old(randomRegs.Values()));
    }

    /** Zero for the value itself, the differences for the other. */
    method PublicKeys(r: Register<K>, value: bool)
      requires |S.deltas| == S.n
      modifies r
      ensures r.Value() == RandomPublic(S, old(r.Value()), value)
    {
      r.keys := Two(ZeroVec(S.G, S.n), ZeroVec(S.G, S.n));
      var i := 0;
      while i < S.n
        invariant 0 <= i <= S.n == |r.keys.no| == |r.keys.yes|
        invariant r.external == old(r.external) && r.entry == old(r.entry)
        invariant r.keys.At(value) == ZeroVec(S.G, S.n)
        invariant r.keys.At(!value) == S.deltas[..i] + ZeroVec(S.G, S.n)[i..]
      {
        r.keys := r.keys.Set(value, r.keys.At(value)[i := S.G.zero]);
        r.keys := r.keys.Set(!value, r.keys.At(!value)[i := S.deltas[i]]);
        i := i + 1;
      }
      assert r.keys.At(!value) == S.deltas;
      r.mask := Some(false);
    }

    method RandomRandom(s: Instruction)
      requires Valid() && s.Random?
      modifies this`wires, this`msgKeys, this`inputMasks, this`outputMasks, this`draws, randomRegs, randomRegs.Repr
      ensures fresh(randomRegs.Repr - old(randomRegs.Repr))
      ensures Valid() && RandomStep(S, old(Random()), s) == Some(Random())
    {
      var r := DrawWire(s.dest);
      AddAllKeys(r, false);
    }

    method RandomOutput(s: Instruction) returns (ok: bool)
      requires Valid() && s.Output?
      modifies this`outputMasks
      ensures Valid() && ok == RandomStep(S, old(Random()), s).Some?
      ensures ok ==> RandomStep(S, old(Random()), s) == Some(Random())
    {
      var r := randomRegs.Operand(S.G, S.n, s.reg);
      ok := r.mask.Some?;
      if ok {
        outputMasks := outputMasks + [r.mask.value];
      }
    }

    method RandomXOR(s: Instruction) returns (ok: bool)
      requires Valid() && s.Xor?
      modifies this`wires, this`msgKeys, this`inputMasks, this`outputMasks, this`draws, randomRegs, randomRegs.Repr
      ensures fresh(randomRegs.Repr - old(randomRegs.Repr))
      ensures Valid() && ok == RandomStep(S, old(Random()), s).Some?
      ensures ok ==> RandomStep(S, old(Random()), s) == Some(Random())
    {
      var left, right, r := randomRegs.Operands(S.G, S.n, s.left, s.right, s.dest);
      ok := left.mask.Some? && right.mask.Some? && Sized(S.n, left.Value()) && Sized(S.n, right.Value());
      if ok {
        r.RandomXOR(S, left, right);
        Written(randomRegs, s.dest, old(randomRegs.Values()));
      }
    }

    method RandomCopy(s: Instruction)
      requires Valid() && s.Copy?
      modifies this`wires, this`msgKeys, this`inputMasks, this`outputMasks, this`draws, randomRegs, randomRegs.Repr
      ensures fresh(randomRegs.Repr - old(randomRegs.Repr))
      ensures Valid() && RandomStep(S, old(Random()), s) == Some(Random())
    {
      CopyWire(randomRegs, S.G, S.n, s.dest, s.source);
    }

    /** One instruction of the Random phase; not ok is an exception. */
    method RandomInstruction(s: Instruction) returns (ok: bool)
      requires Valid()
      modifies this`wires, this`msgKeys, this`inputMasks, this`outputMasks, this`draws, randomRegs, randomRegs.Repr
      ensures fresh(randomRegs.Repr - old(randomRegs.Repr))
      ensures Valid() && ok == RandomStep(S, old(Random()), s).Some?
      ensures ok ==> RandomStep(S, old(Random()), s) == Some(Random())
    {
      ok := true;
      match s
      case Op(_, _, _, _) => RandomOp(s);
      case Xor(_, _, _) => ok := RandomXOR(s);
      case Input(_, _, _) => ok := RandomInput(s);
      case PublicInput(_, _) => RandomPublicInput(s);
      case Random(_) => RandomRandom(s);
      case Output(_) => ok := RandomOutput(s);
      case Copy(_, _) => RandomCopy(s);
    }

    // ---------- the Garble phase ----------

    /** Loads the wire d as the Random phase stored it. */
    method Loaded(d: nat) returns (ok: bool, r: Register<K>)
      requires Valid()
      modifies this`wires, regs, regs.Repr
      ensures fresh(regs.Repr - old(regs.Repr))
      ensures Valid() && d in regs.regs && r == regs.regs[d] && regs.Values().Keys == old(regs.Values()).Keys + {d}
      ensures var w := Garbling.LoadWire(S.n, Get(S.G, S.n, old(regs.Values()), d), old(wires));
        && ok == w.Some?
        && (ok ==> r.Value() == w.value && regs.Values() == old(regs.Values())[d := w.value]
                   && |old(wires)| >= 1 + 2 * S.n && wires == old(wires)[1 + 2 * S.n..])
    {
      r := regs.Dest(S.G, S.n, d);
      ok := LoadWire(r);
      Written(regs, d, old(regs.Values()));
    }

    /** Garbles one gate into the circuit buffer. */
    method GarbleGate(r: Register<K>, left: Register<K>, right: Register<K>, func: Function) returns (ok: bool)
      requires Sized(S.n, r.Value())
      modifies this`prfOutputs, this`circuit
      ensures ok == (left.mask.Some? && right.mask.Some? && r.mask.Some? && TuplesFit(S.n, old(prfOutputs)))
      ensures ok ==> prfOutputs == DropTuples(S.n, old(prfOutputs))
      ensures ok ==> circuit == old(circuit) + GarbledGate(S, func, left.mask.value, right.mask.value, r.Value(),
                                                           old(prfOutputs))
    {
      ok := TuplesFit(S.n, prfOutputs);
      if ok {
        var rows, unread;
        ok, rows, unread := r.Garble(S, left, right, func, prfOutputs);
        if ok {
          prfOutputs, circuit := unread, circuit + rows;
        }
      }
    }

    method GarbleOp(s: Instruction) returns (ok: bool)
      requires Valid() && s.Op?
      modifies this`wires, this`prfOutputs, this`circuit, regs, regs.Repr
      ensures fresh(regs.Repr - old(regs.Repr))
      ensures Valid()
      ensures var g := Garbling.GarbleOp(S, old(Garbled()), s.dest, s.left, s.right, s.func);
        ok == g.Some? && (ok ==> g == Some(Garbled()))
    {
      ghost var was := Garbled();
      var r;
      ok, r := Loaded(s.dest);
      if ok {
        ok := GarbleAt(s.dest, s.left, s.right, s.func);
        GarbleOpUnfolds(S, was, s, ok, Garbled());
      }
    }

    /** Garbles the gate with the given registers. */
    method GarbleAt(d: nat, a: nat, b: nat, func: Function) returns (ok: bool)
      requires Valid() && d in regs.regs
      modifies this`prfOutputs, this`circuit
      ensures Valid() && regs.Values() == old(regs.Values())
      ensures var r, l, q := regs.Values()[d], Get(S.G, S.n, regs.Values(), a), Get(S.G, S.n, regs.Values(), b);
        && ok == (Sized(S.n, r) && l.mask.Some? && q.mask.Some? && r.mask.Some? && TuplesFit(S.n, old(prfOutputs)))
        && (ok ==> prfOutputs == DropTuples(S.n, old(prfOutputs))
                   && circuit == old(circuit) + GarbledGate(S, func, l.mask.value, q.mask.value, r, old(prfOutputs)))
    {
      var r := regs.regs[d];
      var left, right := regs.Pair(S.G, S.n, a, b);
      ok := Sized(S.n, r.Value());
      if ok {
        ok := GarbleGate(r, left, right, func);
      }
    }

    method GarbleXOR(s: Instruction) returns (ok: bool)
      requires Valid() && s.Xor?
      modifies regs, regs.Repr
      ensures fresh(regs.Repr - old(regs.Repr))
      ensures Valid() && ok == GarbleStep(S, old(Garbled()), s).Some?
      ensures ok ==> GarbleStep(S, old(Garbled()), s) == Some(Garbled())
    {
      var left, right, r := regs.Operands(S.G, S.n, s.left, s.right, s.dest);
      ok := left.mask.Some? && right.mask.Some?;
      if ok {
        r.mask := Some(left.mask.value != right.mask.value);
        Written(regs, s.dest, old(regs.Values()));
      }
    }

    method GarbleCopy(s: Instruction)
      requires Valid() && s.Copy?
      modifies regs, regs.Repr
      ensures fresh(regs.Repr - old(regs.Repr))
      ensures Valid() && GarbleStep(S, old(Garbled()), s) == Some(Garbled())
    {
      CopyWire(regs, S.G, S.n, s.dest, s.source);
    }

    /** One instruction of the Garble phase. */
    method GarbleInstruction(s: Instruction) returns (ok: bool)
      requires Valid()
      modifies this`wires, this`prfOutputs, this`circuit, regs, regs.Repr
      ensures fresh(regs.Repr - old(regs.Repr))
      ensures Valid() && ok == GarbleStep(S, old(Garbled()), s).Some?
      ensures ok ==> GarbleStep(S, old(Garbled()), s) == Some(Garbled())
    {
      ok := true;
      if s.Op? {
        ok := GarbleOp(s);
      } else if s.Xor? {
        ok := GarbleXOR(s);
      } else if s.Copy? {
        GarbleCopy(s);
      } else if !s.Output? {
        var r;
        ok, r := Loaded(s.dest);
      }
    }
  }

  class ProgramParty<K(==)> {
    const S: Setup<K>
    const id: nat
    const prfRegs: RegisterFile<K>
    const regs: RegisterFile<K>
    var keysForPRF: seq<K>
    var prfOutputs: seq<PRFTuple<K>>
    var wires: seq<K>
    var gateCounter: nat
    var gateCounter2: nat
    var circuit: seq<K>
    var inputMasks: seq<bool>
    var outputMasks: seq<bool>
    var outputs: seq<bool>

    ghost predicate Valid()
      reads this, prfRegs, regs
    {
      prfRegs != regs && prfRegs.Valid() && regs.Valid() && |S.deltas| == S.n && id < S.n
    }

    ghost function PRF(): PRFState<K>
      requires Valid()
      reads this, prfRegs, prfRegs.Repr, regs
    {
      PRFState(prfRegs.Values(), keysForPRF, prfOutputs, wires, gateCounter)
    }

    ghost function Evaluated(): EvalState<K>
      requires Valid()
      reads this, regs, regs.Repr, prfRegs
    {
      EvalState(regs.Values(), wires, circuit, inputMasks, outputMasks, gateCounter2, outputs)
    }

    constructor (S: Setup<K>, id: nat, keys: seq<K>)
      requires |S.deltas| == S.n && id < S.n
      ensures Valid() && this.S == S && this.id == id && fresh(prfRegs) && fresh(regs)
      ensures PRF() == PRFState(map[], keys, [], [], 0)
      ensures prfRegs.Repr == {} && regs.Repr == {} && regs.regs == map[]
      ensures regs.Values() == map[] && gateCounter2 == 0 && outputs == []
    {
      this.S, this.id := S, id;
      prfRegs := new RegisterFile();
      regs := new RegisterFile();
      keysForPRF, prfOutputs, wires, circuit := keys, [], [], [];
      gateCounter, gateCounter2 := 0, 0;
      inputMasks, outputMasks, outputs := [], [], [];
    }

    // ---------- the PRF phase ----------

    /** receive_keys: advances the key pointer by two. */
    method ReceiveKeys(r: Register<K>) returns (ok: bool)
      requires id < S.n
      modifies this`keysForPRF, r
      ensures var w := Garbling.ReceiveKeys(S.n, id, old(r.Value()), old(keysForPRF));
        && ok == w.Some?
        && (ok ==> r.Value() == w.value && |old(keysForPRF)| >= 2 && keysForPRF == old(keysForPRF)[2..])
    {
      ok := |keysForPRF| >= 2 && Sized(S.n, r.Value());
      if ok {
        r.mask, r.external := None, None;
        var i := 0;
        while i < 2
          invariant 0 <= i <= 2 && Sized(S.n, r.Value()) && r.mask == None && r.external == None
            && r.entry == old(r.entry)
          invariant |keysForPRF| >= 2 - i && keysForPRF == old(keysForPRF)[i..]
          invariant r.keys.no == if i > 0 then old(r.keys.no)[id := old(keysForPRF)[0]] else old(r.keys.no)
          invariant r.keys.yes == if i > 1 then old(r.keys.yes)[id := old(keysForPRF)[1]] else old(r.keys.yes)
        {
          r.keys := r.keys.Set(i == 1, r.keys.At(i == 1)[id := keysForPRF[0]]);
          keysForPRF := keysForPRF[1..];
          i := i + 1;
        }
      }
    }

    /** receive_all_keys: reads the keys of all parties for value b. */
    method ReceiveAllKeys(r: Register<K>, b: bool) returns (ok: bool)
      modifies this`keysForPRF, r
      ensures var w := Garbling.ReceiveAllKeys(S.n, old(r.Value()), b, old(keysForPRF));
        && ok == w.Some?
        && (ok ==> r.Value() == w.value && |old(keysForPRF)| >= S.n && keysForPRF == old(keysForPRF)[S.n..])
    {
      ok := |keysForPRF| >= S.n && Sized(S.n, r.Value());
      if ok {
        r.mask, r.external := None, None;
        var i := 0;
        while i < S.n
          invariant 0 <= i <= S.n && r.mask == None && r.external == None && r.entry == old(r.entry)
          invariant |old(keysForPRF)| >= S.n && keysForPRF == old(keysForPRF)[i..]
          invariant |r.keys.At(b)| == S.n && r.keys.At(!b) == old(r.keys.At(!b))
          invariant r.keys.At(b)[..i] == old(keysForPRF)[..i]
        {
          r.keys := r.keys.Set(b, r.keys.At(b)[i := keysForPRF[0]]);
          keysForPRF := keysForPRF[1..];
          i := i + 1;
        }
        assert r.keys.At(b) == old(keysForPRF)[..S.n];
      }
    }

    /** Receives the two own keys of wire d. */
    method Received(d: nat) returns (ok: bool, r: Register<K>)
      requires Valid()
      modifies this`keysForPRF, prfRegs, prfRegs.Repr
      ensures fresh(prfRegs.Repr - old(prfRegs.Repr))
      ensures Valid() && d in prfRegs.regs && r == prfRegs.regs[d]
      ensures var w := Garbling.ReceiveKeys(S.n, id, Get(S.G, S.n, old(prfRegs.Values()), d), old(keysForPRF));
        && ok == w.Some?
        && (ok ==> r.Value() == w.value && prfRegs.Values() == old(prfRegs.Values())[d := w.value]
                   && |old(keysForPRF)| >= 2 && keysForPRF == old(keysForPRF)[2..])
    {
      r := prfRegs.Dest(S.G, S.n, d);
      ok := ReceiveKeys(r);
      Written(prfRegs, d, old(prfRegs.Values()));
    }

    method StoreWire(r: Register<K>)
      requires id < |r.keys.no|
      modifies this`wires
      ensures wires == old(wires) + [r.keys.no[id]]
    {
      wires := wires + [r.keys.no[id]];
    }

    /** compute_prfs_outputs for the next gate. */
    method SendPRFOutputs(left: Register<K>, right: Register<K>)
      requires id < S.n && Sized(S.n, left.Value()) && Sized(S.n, right.Value())
      modifies this`gateCounter, this`prfOutputs
      ensures gateCounter == old(gateCounter) + 1
      ensures prfOutputs == old(prfOutputs) + PRFOutputs(S, id, left.Value(), right.Value(), gateCounter)
    {
      gateCounter := gateCounter + 1;
      var tuples := ComputePRFOutputs(S, id, left, right, gateCounter);
      prfOutputs := prfOutputs + tuples;
    }

    method PRFOp(s: Instruction) returns (ok: bool)
      requires Valid() && s.Op?
      modifies this`keysForPRF, this`prfOutputs, this`wires, this`gateCounter, prfRegs, prfRegs.Repr
      ensures fresh(prfRegs.Repr - old(prfRegs.Repr))
      ensures Valid() && ok == PRFStep(S, id, old(PRF()), s).Some?
      ensures ok ==> PRFStep(S, id, old(PRF()), s) == Some(PRF())
    {
      var r;
      ok, r := Received(s.dest);
      if ok {
        var left, right := prfRegs.Pair(S.G, S.n, s.left, s.right);
        ok := Sized(S.n, left.Value()) && Sized(S.n, right.Value());
        if ok {
          SendPRFOutputs(left, right);
        }
      }
    }

    method PRFInput(s: Instruction) returns (ok: bool)
      requires Valid() && s.Input?
      modifies this`keysForPRF, this`prfOutputs, this`wires, this`gateCounter, prfRegs, prfRegs.Repr
      ensures fresh(prfRegs.Repr - old(prfRegs.Repr))
      ensures Valid() && ok == PRFStep(S, id, old(PRF()), s).Some?
      ensures ok ==> PRFStep(S, id, old(PRF()), s) == Some(PRF())
    {
      var r;
      ok, r := Received(s.dest);
      if ok {
        StoreWire(r);
      }
    }

    /** Receives the own keys and all zero-keys of wire d. */
    method ReceivedAll(d: nat) returns (ok: bool, r: Register<K>)
      requires Valid()
      modifies this`keysForPRF, prfRegs, prfRegs.Repr
      ensures fresh(prfRegs.Repr - old(prfRegs.Repr))
      ensures Valid() && d in prfRegs.regs && r == prfRegs.regs[d]
      ensures var w := Garbling.ReceiveKeys(S.n, id, Get(S.G, S.n, old(prfRegs.Values()), d), old(keysForPRF));
        && (ok ==> w.Some?)
        && (w.Some? ==> |old(keysForPRF)| >= 2)
        && (w.Some? ==> var q := Garbling.ReceiveAllKeys(S.n, w.value, false, old(keysForPRF)[2..]);
              && ok == q.Some?
              && (ok ==> r.Value() == q.value && prfRegs.Values() == old(prfRegs.Values())[d := q.value]
                         && |old(keysForPRF)| >= 2 + S.n && keysForPRF == old(keysForPRF)[2 + S.n..]))
    {
      r := prfRegs.Dest(S.G, S.n, d);
      ok := ReceiveKeys(r);
      if ok {
        ok := ReceiveAllKeys(r, false);
      }
      Written(prfRegs, d, old(prfRegs.Values()));
    }

    method PRFRandom(s: Instruction) returns (ok: bool)
      requires Valid() && s.Random?
      modifies this`keysForPRF, this`prfOutputs, this`wires, this`gateCounter, prfRegs, prfRegs.Repr
      ensures fresh(prfRegs.Repr - old(prfRegs.Repr))
      ensures Valid() && ok == PRFStep(S, id, old(PRF()), s).Some?
      ensures ok ==> PRFStep(S, id, old(PRF()), s) == Some(PRF())
    {
      var r;
      ok, r := ReceivedAll(s.dest);
      if ok {
        StoreWire(r);
        wires := wires + r.keys.no;
      }
    }

    method PRFPublicInput(s: Instruction) returns (ok: bool)
      requires Valid() && s.PublicInput?
      modifies this`keysForPRF, this`prfOutputs, this`wires, this`gateCounter, prfRegs, prfRegs.Repr
      ensures fresh(prfRegs.Repr - old(prfRegs.Repr))
      ensures Valid() && ok == PRFStep(S, id, old(PRF()), s).Some?
      ensures ok ==> PRFStep(S, id, old(PRF()), s) == Some(PRF())
    {
      var r := prfRegs.Dest(S.G, S.n, s.dest);
      ok := Sized(S.n, r.Value());
      if ok {
        r.PRFPublicInput(S, id, s.value);
        Written(prfRegs, s.dest, old(prfRegs.Values()));
      }
    }

    method PRFXOR(s: Instruction) returns (ok: bool)
      requires Valid() && s.Xor?
      modifies this`keysForPRF, this`prfOutputs, this`wires, this`gateCounter, prfRegs, prfRegs.Repr
      ensures fresh(prfRegs.Repr - old(prfRegs.Repr))
      ensures Valid() && ok == PRFStep(S, id, old(PRF()), s).Some?
      ensures ok ==> PRFStep(S, id, old(PRF()), s) == Some(PRF())
    {
      var left, right, r := prfRegs.Operands(S.G, S.n, s.left, s.right, s.dest);
      ok := Sized(S.n, r.Value()) && Sized(S.n, left.Value()) && Sized(S.n, right.Value());
      if ok {
        r.PRFXOR(S, id, left, right);
        Written(prfRegs, s.dest, old(prfRegs.Values()));
      }
    }

    method PRFOutput(s: Instruction) returns (ok: bool)
      requires Valid() && s.Output?
      modifies this`wires
      ensures Valid() && ok == PRFStep(S, id, old(PRF()), s).Some?
      ensures ok ==> PRFStep(S, id, old(PRF()), s) == Some(PRF())
    {
      var r := prfRegs.Operand(S.G, S.n, s.reg);
      ok := Sized(S.n, r.Value());
      if ok {
        StoreWire(r);
      }
    }

    method PRFCopy(s: Instruction)
      requires Valid() && s.Copy?
      modifies prfRegs, prfRegs.Repr
      ensures fresh(prfRegs.Repr - old(prfRegs.Repr))
      ensures Valid() && PRFStep(S, id, old(PRF()), s) == Some(PRF())
    {
      CopyWire(prfRegs, S.G, S.n, s.dest, s.source);
    }

    /** One instruction of the PRF phase. */
    method PRFInstruction(s: Instruction) returns (ok: bool)
      requires Valid()
      modifies this`keysForPRF, this`prfOutputs, this`wires, this`gateCounter, prfRegs, prfRegs.Repr
      ensures fresh(prfRegs.Repr - old(prfRegs.Repr))
      ensures Valid() && ok == PRFStep(S, id, old(PRF()), s).Some?
      ensures ok ==> PRFStep(S, id, old(PRF()), s) == Some(PRF())
    {
      ok := true;
      match s
      case Op(_, _, _, _) => ok := PRFOp(s);
      case Xor(_, _, _) => ok := PRFXOR(s);
      case Input(_, _, _) => ok := PRFInput(s);
      case PublicInput(_, _) => ok := PRFPublicInput(s);
      case Random(_) => ok := PRFRandom(s);
      case Output(_) => ok := PRFOutput(s);
      case Copy(_, _) => PRFCopy(s);
    }

    // ---------- the Eval phase ----------

    /** Evaluates the next gate. */
    method EvalNextGate(r: Register<K>, left: Register<K>, right: Register<K>) returns (ok: bool)
      requires id < S.n
      modifies this`circuit, this`gateCounter2, r
      ensures gateCounter2 == old(gateCounter2) + 1
      ensures var w := EvalGate(S, id, old(r.Value()), old(left.Value()), old(right.Value()), r == left, r == right,
                                gateCounter2, old(circuit));
        && ok == w.Some?
        && (ok ==> r.Value() == w.value && |old(circuit)| >= 4 * S.n && circuit == old(circuit)[4 * S.n..])
    {
      gateCounter2 := gateCounter2 + 1;
      ok := |circuit| >= 4 * S.n && |left.entry| == |right.entry| == S.n;
      if ok {
        ok := r.Eval(S, left, right, circuit, id, gateCounter2);
        circuit := circuit[4 * S.n..];
      }
    }

    method EvalOp(s: Instruction) returns (ok: bool)
      requires Valid() && s.Op?
      modifies this`wires, this`circuit, this`inputMasks, this`outputMasks, this`outputs, this`gateCounter2, regs,
        regs.Repr
      ensures fresh(regs.Repr - old(regs.Repr))
      ensures Valid() && ok == EvalLocal(S, id, old(Evaluated()), s).Some?
      ensures ok ==> EvalLocal(S, id, old(Evaluated()), s) == Some(Evaluated())
    {
      ok := EvalAt(s.dest, s.left, s.right);
    }

    /** Evaluates the next gate on the given registers. */
    method EvalAt(d: nat, a: nat, b: nat) returns (ok: bool)
      requires Valid()
      modifies this`circuit, this`gateCounter2, regs, regs.Repr
      ensures Valid() && fresh(regs.Repr - old(regs.Repr)) && gateCounter2 == old(gateCounter2) + 1
      ensures var v := old(regs.Values());
        var w := EvalGate(S, id, Get(S.G, S.n, v, d), Get(S.G, S.n, v, a), Get(S.G, S.n, v, b), d == a, d == b,
                          gateCounter2, old(circuit));
        && ok == w.Some?
        && (ok ==> regs.Values() == v[d := w.value] && |old(circuit)| >= 4 * S.n && circuit == old(circuit)[4 * S.n..])
    {
      var left, right, r := regs.Operands(S.G, S.n, a, b, d);
      ok := EvalNextGate(r, left, right);
      Written(regs, d, old(regs.Values()));
    }

    method EvalXOR(s: Instruction) returns (ok: bool)
      requires Valid() && s.Xor?
      modifies regs, regs.Repr
      ensures fresh(regs.Repr - old(regs.Repr))
      ensures Valid() && ok == EvalLocal(S, id, old(Evaluated()), s).Some?
      ensures ok ==> EvalLocal(S, id, old(Evaluated()), s) == Some(Evaluated())
    {
      var left, right, r := regs.Operands(S.G, S.n, s.left, s.right, s.dest);
      ok := left.external.Some? && right.external.Some? && |left.entry| == |right.entry|;
      if ok {
        r.EvalXOR(S, left, right);
        Written(regs, s.dest, old(regs.Values()));
      }
    }

    method EvalPublicInput(s: Instruction) returns (ok: bool)
      requires Valid() && s.PublicInput?
      modifies regs, regs.Repr
      ensures fresh(regs.Repr - old(regs.Repr))
      ensures Valid() && ok == EvalLocal(S, id, old(Evaluated()), s).Some?
      ensures ok ==> EvalLocal(S, id, old(Evaluated()), s) == Some(Evaluated())
    {
      var r := regs.Dest(S.G, S.n, s.dest);
      ok := Sized(S.n, r.Value());
      if ok {
        r.EvalPublicInput(S, s.value);
        Written(regs, s.dest, old(regs.Values()));
      }
    }

    /** load_wire: the own zero-key, and by the difference the own one-key. */
    method LoadWire(r: Register<K>) returns (ok: bool)
      requires id < S.n
      modifies this`wires, r`keys
      ensures var w := LoadKey(S, id, old(r.Value()), old(wires));
        && ok == w.Some?
        && (ok ==> r.Value() == w.value && |old(wires)| >= 1 && wires == old(wires)[1..])
    {
      ok := |wires| >= 1 && Sized(S.n, r.Value()) && |S.deltas| == S.n;
      if ok {
        r.keys := r.keys.(no := r.keys.no[id := wires[0]]);
        wires := wires[1..];
        r.keys := r.keys.(yes := r.keys.yes[id := S.G.xor(r.keys.no[id], S.deltas[id])]);
      }
    }

    /** The wire of a random bit: all zero-keys, with external value 0. */
    method LoadRandomWire(r: Register<K>) returns (ok: bool)
      requires id < S.n
      modifies this`wires, r
      ensures var w := LoadKey(S, id, old(r.Value()), old(wires));
        && ok == (w.Some? && |old(wires)| >= 1 + S.n)
        && (ok ==> r.Value() == SetExternal(w.value.(keys := w.value.keys.Set(false, old(wires)[1..1 + S.n])), false)
                   && wires == old(wires)[1 + S.n..])
    {
      ok := LoadWire(r);
      if ok {
        ok := |wires| >= S.n;
        if ok {
          r.keys := r.keys.(no := wires[..S.n]);
          wires := wires[S.n..];
          assert wires == old(wires)[1 + S.n..] && r.keys.no == old(wires)[1..1 + S.n];
          r.external, r.entry := Some(false), r.keys.no;
        }
      }
    }

    method EvalRandom(s: Instruction) returns (ok: bool)
      requires Valid() && s.Random?
      modifies this`wires, this`circuit, this`inputMasks, this`outputMasks, this`outputs, this`gateCounter2, regs,
        regs.Repr
      ensures fresh(regs.Repr - old(regs.Repr))
      ensures Valid() && ok == EvalLocal(S, id, old(Evaluated()), s).Some?
      ensures ok ==> EvalLocal(S, id, old(Evaluated()), s) == Some(Evaluated())
    {
      ok := RandomAt(s.dest);
    }

    /** Loads the labels of a random bit into a wire. */
    method RandomAt(d: nat) returns (ok: bool)
      requires Valid()
      modifies this`wires, regs, regs.Repr
      ensures Valid() && fresh(regs.Repr - old(regs.Repr))
      ensures var w := LoadKey(S, id, Get(S.G, S.n, old(regs.Values()), d), old(wires));
        && ok == (w.Some? && |old(wires)| >= 1 + S.n)
        && (ok ==> wires == old(wires)[1 + S.n..]
                   && regs.Values() == old(regs.Values())[d :=
                        SetExternal(w.value.(keys := w.value.keys.Set(false, old(wires)[1..1 + S.n])), false)])
    {
      var r := regs.Dest(S.G, S.n, d);
      ok := LoadRandomWire(r);
      Written(regs, d, old(regs.Values()));
    }

    /** Loads the own keys and the mask, checks the own label, and reveals the value. */
    method OutputWire(r: Register<K>) returns (ok: bool)
      requires id < S.n
      modifies this`wires, this`outputMasks, this`outputs, r
      ensures var w := LoadKey(S, id, old(r.Value()), old(wires)); var e := old(r.external);
        && ok == (w.Some? && |old(outputMasks)| >= 1 && e.Some? && |old(r.entry)| == S.n
                  && old(r.entry)[id] == w.value.keys.At(e.value)[id])
        && (ok ==> r.Value() == w.value.(mask := Some(old(outputMasks)[0])) && wires == old(wires)[1..]
                   && outputMasks == old(outputMasks)[1..]
                     && outputs == old(outputs) + [old(outputMasks)[0] != e.value])
    {
      ok := LoadWire(r);
      if ok {
        ok := |outputMasks| >= 1 && r.CheckSignalKey(S.n, id);
        if ok {
          r.mask := Some(outputMasks[0]);
          outputMasks := outputMasks[1..];
          outputs := outputs + [r.mask.value != r.external.value];
        }
      }
    }

    method EvalOutput(s: Instruction) returns (ok: bool)
      requires Valid() && s.Output?
      modifies this`wires, this`circuit, this`inputMasks, this`outputMasks, this`outputs, this`gateCounter2, regs,
        regs.Repr
      ensures fresh(regs.Repr - old(regs.Repr))
      ensures Valid() && ok == EvalLocal(S, id, old(Evaluated()), s).Some?
      ensures ok ==> EvalLocal(S, id, old(Evaluated()), s) == Some(Evaluated())
    {
      ok := OutputAt(s.reg);
    }

    /** Reveals a wire. */
    method OutputAt(o: nat) returns (ok: bool)
      requires Valid()
      modifies this`wires, this`outputMasks, this`outputs, regs, regs.Repr
      ensures Valid() && fresh(regs.Repr - old(regs.Repr))
      ensures var q := Get(S.G, S.n, old(regs.Values()), o); var w := LoadKey(S, id, q, old(wires));
        && ok == (w.Some? && |old(outputMasks)| >= 1 && q.external.Some? && |q.entry| == S.n
                  && q.entry[id] == w.value.keys.At(q.external.value)[id])
        && (ok ==> regs.Values() == old(regs.Values())[o := w.value.(mask := Some(old(outputMasks)[0]))]
                   && wires == old(wires)[1..] && outputMasks == old(outputMasks)[1..]
                   && outputs == old(outputs) + [old(outputMasks)[0] != q.external.value])
    {
      var r := regs.Dest(S.G, S.n, o);
      ok := OutputWire(r);
      Written(regs, o, old(regs.Values()));
    }

    method EvalCopy(s: Instruction)
      requires Valid() && s.Copy?
      modifies regs, regs.Repr
      ensures fresh(regs.Repr - old(regs.Repr))
      ensures Valid() && EvalLocal(S, id, old(Evaluated()), s) == Some(Evaluated())
    {
      CopyWire(regs, S.G, S.n, s.dest, s.source);
    }

    /** One instruction of the Eval phase without communication. */
    method EvalInstruction(s: Instruction) returns (ok: bool)
      requires Valid() && !s.Input?
      modifies this`wires, this`circuit, this`inputMasks, this`outputMasks, this`outputs, this`gateCounter2, regs,
        regs.Repr
      ensures fresh(regs.Repr - old(regs.Repr))
      ensures Valid() && ok == EvalLocal(S, id, old(Evaluated()), s).Some?
      ensures ok ==> EvalLocal(S, id, old(Evaluated()), s) == Some(Evaluated())
    {
      ok := true;
      match s
      case Op(_, _, _, _) => ok := EvalOp(s);
      case Xor(_, _, _) => ok := EvalXOR(s);
      case PublicInput(_, _) => ok := EvalPublicInput(s);
      case Random(_) => ok := EvalRandom(s);
      case Output(_) => ok := EvalOutput(s);
      case Copy(_, _) => EvalCopy(s);
    }

    /** The owner of an input takes the next mask; the others learn the external value. */
    method InputWire(r: Register<K>, own: bool, value: bool, received: bool) returns (ok: bool, ext: bool)
      requires id < S.n
      modifies this`wires, this`inputMasks, r
      ensures var w := LoadKey(S, id, old(r.Value()), old(wires)); var masks := old(inputMasks);
        && ok == (w.Some? && (own ==> |masks| >= 1))
        && (ok ==> |old(wires)| >= 1 && wires == old(wires)[1..])
        && (ok && own ==> ext == (masks[0] != value) && inputMasks == masks[1..]
                          && r.Value() == SetExternal(w.value.(mask := Some(masks[0])), ext))
        && (ok && !own ==> ext == received && inputMasks == masks && r.Value() == SetExternal(w.value, ext))
    {
      ext := received;
      ok := LoadWire(r);
      if ok && own {
        ok := |inputMasks| >= 1;
        if ok {
          r.mask := Some(inputMasks[0]);
          inputMasks := inputMasks[1..];
          ext := r.mask.value != value;
        }
      }
      if ok {
        r.external, r.entry := Some(ext), r.keys.At(ext);
      }
    }

    /** The same on wire d. */
    method InputAt(d: nat, own: bool, value: bool, received: bool) returns (ok: bool, ext: bool, r: Register<K>)
      requires Valid()
      modifies this`wires, this`inputMasks, regs, regs.Repr
      ensures Valid() && fresh(regs.Repr - old(regs.Repr)) && d in regs.regs && r == regs.regs[d]
      ensures var w := LoadKey(S, id, Get(S.G, S.n, old(regs.Values()), d), old(wires)); var masks := old(inputMasks);
        && ok == (w.Some? && (own ==> |masks| >= 1))
        && (ok ==>
             && |old(wires)| >= 1 && wires == old(wires)[1..] && inputMasks == (if own then masks[1..] else masks)
             && ext == (if own then masks[0] != value else received)
             && r.Value() == SetExternal(if own then w.value.(mask := Some(masks[0])) else w.value, ext)
             && regs.Values() == old(regs.Values())[d := r.Value()])
    {
      r := regs.Dest(S.G, S.n, d);
      ok, ext := InputWire(r, own, value, received);
      Written(regs, d, old(regs.Values()));
    }

    /** The first half of input: the owner takes the next mask, the others the external value
        that the owner sent; ext is what the owner sends. */
    method EvalInputMasked(s: Instruction, received: bool) returns (ok: bool, ext: bool, r: Register<K>)
      requires Valid() && s.Input?
      modifies this`wires, this`inputMasks, regs, regs.Repr
      ensures fresh(regs.Repr - old(regs.Repr))
      ensures Valid() && s.dest in regs.regs && r == regs.regs[s.dest]
      ensures var own, before := s.from == id, old(Evaluated());
        var w := InputRegister(S, id, before, s.dest, ext, OwnMask(before, own));
        && ok == (w.Some? && (own ==> |before.inputMasks| >= 1))
        && (ok ==>
             && ext == (if own then before.inputMasks[0] != s.value else received)
             && r.Value() == w.value
             && Evaluated() == before.(regs := before.regs[s.dest := w.value], wiresIn := before.wiresIn[1..],
                                       inputMasks := if own then before.inputMasks[1..] else before.inputMasks))
    {
      ok, ext, r := InputAt(s.dest, s.from == id, s.value, received);
    }

    /** The second half of input: the labels of all parties; the own one stays. */
    method EvalInputLabels(d: nat, labels: seq<K>) returns (ok: bool)
      requires Valid() && d in regs.regs && |labels| == S.n
      modifies regs.regs[d]
      ensures Valid() && ok == old(Sized(S.n, regs.regs[d].Value()) && regs.regs[d].external.Some?)
      ensures ok ==> var before := old(regs.regs[d].Value()); var all := labels[id := before.entry[id]];
        regs.Values() == old(regs.Values())[d := before.(entry := all,
                                                         keys := before.keys.Set(before.external.value, all))]
    {
      var r := regs.regs[d];
      ok := Sized(S.n, r.Value()) && r.external.Some?;
      if ok {
        var i := 0;
        while i < S.n
          invariant 0 <= i <= S.n == |r.entry|
          invariant r.Value() == old(r.Value()).(entry := r.entry)
          invariant forall k :: 0 <= k < i && k != id ==> r.entry[k] == labels[k]
          invariant forall k :: i <= k < S.n || k == id ==> r.entry[k] == old(r.entry)[k]
        {
          if i != id {
            r.entry := r.entry[i := labels[i]];
          }
          i := i + 1;
        }
        assert r.entry == labels[id := old(r.entry)[id]];
        r.keys := r.keys.Set(r.external.value, r.entry);
        Written(regs, d, old(regs.Values()));
      }
    }
  }
}
