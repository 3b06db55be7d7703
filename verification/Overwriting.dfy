/**
 A gate whose destination is one of its operands. The second and the third phase load the new
 keys and the new mask before they look at the operands (BMR/Register.cpp:310-317 and 457-468).
 The last phase puts the chosen row in the place of the labels before it reads them
 (BMR/Register.cpp:231-276), so it decrypts the row with parts of the row itself. That such a gate
 works is left to chance: it does in every run exactly if the destination is no operand.
 */
module Overwriting {
  import opened Keys
  import opened Garbling
  import opened Simulation
  import opened Protocol

  /** Two public bits, a gate on them, and its result opened. */
  function Gate(d: nat, a: nat, b: nat, va: bool, vb: bool, func: Function): seq<Instruction> {
    [PublicInput(a, va), PublicInput(b, vb), Op(d, a, b, func), Output(d)]
  }

  /** What the gate computes; on one wire only the second bit is left. */
  function Plainly(a: nat, b: nat, va: bool, vb: bool, func: Function): bool {
    func[Index(if a == b then vb else va, vb)]
  }

  /** All phases succeed, and every party opens the plain value. */
  ghost predicate OpensPlain<K(!new)>(S: Setup<K>, prog: seq<Instruction>, value: bool) {
    var o := Execute(S, prog);
    o.Some? && |o.value.eval| == S.n && forall i :: 0 <= i < S.n ==> o.value.eval[i].outputs == [value]
  }

  lemma ApartWellFormed(n: nat, d: nat, a: nat, b: nat, va: bool, vb: bool, func: Function)
    requires d != a && d != b
    ensures WellFormed(n, {}, Gate(d, a, b, va, vb, func))
  {
    var prog := Gate(d, a, b, va, vb, func);
    Split(prog);
    assert {} + Defines(prog[0]) == {a} && {a} + Defines(prog[1]) == {a, b} && {a, b} + Defines(prog[2]) == {a, b, d};
    assert WellFormed(n, {a, b, d}, prog[3..]);
    assert WellFormed(n, {a, b}, prog[2..]);
    assert WellFormed(n, {a}, prog[1..]);
  }

  lemma ApartPlainly<K>(S: Setup<K>, d: nat, a: nat, b: nat, va: bool, vb: bool, func: Function)
    requires WellFormed(S.n, {}, Gate(d, a, b, va, vb, func)) && d != a && d != b
    ensures RunPlain(S, Nothing(), Gate(d, a, b, va, vb, func)).outputs == [Plainly(a, b, va, vb, func)]
  {
    var prog, value := Gate(d, a, b, va, vb, func), Plainly(a, b, va, vb, func);
    Split(prog);
    var v0 := Nothing();
    var v1 := PlainStep(S, v0, prog[0]);
    var v2 := PlainStep(S, v1, prog[1]);
    var v3 := PlainStep(S, v2, prog[2]);
    assert v1.vals.Keys == {} + Defines(prog[0]) && v2.vals.Keys == {} + Defines(prog[0]) + Defines(prog[1]);
    assert v3.vals.Keys == {} + Defines(prog[0]) + Defines(prog[1]) + Defines(prog[2]);
    assert RunPlain(S, v3, prog[3..]).outputs == [] + [value] == [value];
    assert RunPlain(S, v2, prog[2..]) == RunPlain(S, v3, prog[3..]);
    assert RunPlain(S, v1, prog[1..]) == RunPlain(S, v2, prog[2..]);
  }

  /** A gate with a destination of its own. */
  lemma ApartIsPlain<K(!new)>(S: Setup<K>, d: nat, a: nat, b: nat, va: bool, vb: bool, func: Function)
    requires ValidSetup(S) && d != a && d != b
    ensures OpensPlain(S, Gate(d, a, b, va, vb, func), Plainly(a, b, va, vb, func))
  {
    ApartWellFormed(S.n, d, a, b, va, vb, func);
    ApartPlainly(S, d, a, b, va, vb, func);
    ExecuteIsPlain(S, Gate(d, a, b, va, vb, func));
  }

  // ---------- a setup in which overwriting fails ----------

  /** A function that gives the zero block zero, the two keys of the gate one block, and everything
      else another. */
  function Marked(k: set<int>): set<int> {
    if k == {} then {} else if k == {7} || k == {0, 7} then {1} else {2}
  }

  /** One party, and every key that is drawn the same. */
  function Marking(coin: bool): Setup<set<int>> {
    Setup(Blocks(), 1, [{0}], (k: set<int>, _: bool, _: nat, _: nat) => Marked(k), (_: nat) => coin,
          (_: nat, _: nat) => {7})
  }

  /** The register of a public bit in the first three phases. */
  function Public(value: bool): Reg<set<int>> {
    Reg(Some(false), None, [{}], if value then Two([{0}], [{}]) else Two([{}], [{0}]))
  }

  function Publics(a: nat, b: nat, va: bool, vb: bool): map<nat, Reg<set<int>>> {
    map[a := Public(va)][b := Public(vb)]
  }

  /** A register before its first use, or of a public bit. */
  predicate Fresh(r: Reg<set<int>>) {
    r.external == None && r.entry == [{}] && |r.keys.no| == |r.keys.yes| == 1
  }

  /** The destination after the first phase has drawn its keys. */
  function Drawn(mask: Option<bool>): Reg<set<int>> {
    Reg(mask, None, [{}], Two([{7}], [{0, 7}]))
  }

  lemma NewKeys()
    ensures NewReg(Blocks(), 1) == Reg(None, None, [{}], Two([{}], [{}]))
  {
  }

  function Wire(r: Reg<set<int>>): seq<Cell<set<int>>>
    requires |r.keys.no| == |r.keys.yes| == 1
  {
    [Byte(r.mask), Block(r.keys.no[0]), Block(r.keys.yes[0])]
  }

  lemma Stored(r: Reg<set<int>>)
    requires |r.keys.no| == |r.keys.yes| == 1
    ensures StoredWire(r) == Wire(r)
  {
    assert Cells(r.keys.no) == [Block(r.keys.no[0])] && Cells(r.keys.yes) == [Block(r.keys.yes[0])];
  }

  lemma Blockwise(coin: bool)
    ensures var S := Marking(coin);
      && ValidSetup(S) && ZeroVec(S.G, 1) == [{}] && XorVec(S.G, [{7}], S.deltas) == [{0, 7}]
      && FreshKeys(S, 0) == [{7}] && S.G.xor({7}, {0}) == {0, 7}
  {
    BlocksAreKeys();
    var S := Marking(coin);
    assert S.G.xor({7}, {0}) == {0, 7};
    assert WithSignal(S.G, {7}, false) == {7};
    assert FreshKeys(S, 0)[0] == {7};
    assert XorVec(S.G, [{7}], S.deltas)[0] == {0, 7};
  }

  lemma RandomPublicly(coin: bool, r: RandomState<set<int>>, w: nat, value: bool)
    requires Fresh(Get(Blocks(), 1, r.regs, w)) && |r.msgKeys| == |r.inputMasks| == 1
    ensures RandomStep(Marking(coin), r, PublicInput(w, value))
         == Some(r.(regs := r.regs[w := Public(value)], wires := r.wires + Wire(Public(value))))
  {
    var S := Marking(coin);
    Blockwise(coin);
    Stored(Public(value));
    assert RandomPublic(S, Get(S.G, 1, r.regs, w), value) == Public(value);
  }

  lemma RandomGate(coin: bool, r: RandomState<set<int>>, d: nat, a: nat, b: nat, func: Function)
    requires Fresh(Get(Blocks(), 1, r.regs, d)) && r.msgKeys == [[]] && |r.inputMasks| == 1 && r.draws == 0
    ensures RandomStep(Marking(coin), r, Op(d, a, b, func))
         == Some(r.(regs := r.regs[d := Drawn(Some(coin))], wires := r.wires + Wire(Drawn(Some(coin))),
                    msgKeys := [[{7}, {0, 7}]], draws := 1))
  {
    var S := Marking(coin);
    Blockwise(coin);
    Stored(Drawn(Some(coin)));
    assert Randomize(S, Get(S.G, 1, r.regs, d), 0) == Drawn(Some(coin));
    assert AddKeys([[]], Drawn(Some(coin))) == [[{7}, {0, 7}]] by {
      assert [] + [{7}, {0, 7}] == [{7}, {0, 7}];
    }
  }

  function Wires(coin: bool, va: bool, vb: bool): seq<Cell<set<int>>> {
    Wire(Public(va)) + (Wire(Public(vb)) + Wire(Drawn(Some(coin))))
  }

  lemma PublicsDrawn(coin: bool, d: nat, a: nat, b: nat, va: bool, vb: bool, func: Function)
      returns (r: RandomState<set<int>>)
    ensures r == RandomState(Publics(a, b, va, vb), Wire(Public(va)) + Wire(Public(vb)), [[]], [[]], [], 0)
    ensures var S, prog := Marking(coin), Gate(d, a, b, va, vb, func);
      RunRandom(S, AllPhases(S), Started(S), prog) == RunRandom(S, AllPhases(S), r, prog[2..])
  {
    var S := Marking(coin);
    var r0: RandomState<set<int>> := Started(S);
    assert r0.msgKeys == [[]] && r0.inputMasks == [[]];
    NewKeys();
    RandomPublicly(coin, r0, a, va);
    var r1 := r0.(regs := map[a := Public(va)], wires := Wire(Public(va)));
    assert r0.wires + Wire(Public(va)) == r1.wires && r0.regs[a := Public(va)] == r1.regs;
    RandomPublicly(coin, r1, b, vb);
    r := r1.(regs := Publics(a, b, va, vb), wires := Wire(Public(va)) + Wire(Public(vb)));
    Split(Gate(d, a, b, va, vb, func));
  }

  lemma RandomOpened(coin: bool, r: RandomState<set<int>>, d: nat, prog: seq<Instruction>)
    requires d in r.regs && r.regs[d] == Drawn(Some(coin)) && r.outputMasks == [] && prog == [Output(d)]
    requires |r.msgKeys| == |r.inputMasks| == 1
    ensures RunRandom(Marking(coin), AllPhases(Marking(coin)), r, prog) == Some(r.(outputMasks := [coin]))
  {
    var S := Marking(coin);
    assert r.outputMasks + [coin] == [coin];
    assert RunRandom(S, AllPhases(S), r.(outputMasks := [coin]), []) == Some(r.(outputMasks := [coin]));
  }

  lemma FirstPhase(coin: bool, d: nat, a: nat, b: nat, va: bool, vb: bool, func: Function)
    requires d == a || d == b
    ensures var S := Marking(coin);
      RunRandom(S, AllPhases(S), Started(S), Gate(d, a, b, va, vb, func))
        == Some(RandomState(Publics(a, b, va, vb)[d := Drawn(Some(coin))], Wires(coin, va, vb), [[{7}, {0, 7}]],
                            [[]], [coin], 1))
  {
    var S := Marking(coin);
    var M, prog := AllPhases(S), Gate(d, a, b, va, vb, func);
    var r2 := PublicsDrawn(coin, d, a, b, va, vb, func);
    RandomGate(coin, r2, d, a, b, func);
    var r3 := RandomState(r2.regs[d := Drawn(Some(coin))], Wires(coin, va, vb), [[{7}, {0, 7}]], [[]], [], 1);
    assert r2.wires + Wire(Drawn(Some(coin))) == r3.wires;
    Split(prog);
    RandomOpened(coin, r3, d, prog[3..]);
  }

  lemma SingleKeys()
    ensures forall b: bool, k: set<int>, r: Reg<set<int>> | |r.keys.no| == |r.keys.yes| == 1 ::
      SetKey(r, b, 0, k) == r.(keys := r.keys.Set(b, [k]))
  {
    forall b: bool, k: set<int>, r: Reg<set<int>> | |r.keys.no| == |r.keys.yes| == 1
      ensures SetKey(r, b, 0, k) == r.(keys := r.keys.Set(b, [k]))
    {
      assert r.keys.At(b)[0 := k] == [k];
    }
  }

  lemma PRFPublicly(coin: bool, p: PRFState<set<int>>, w: nat, value: bool)
    requires Fresh(Get(Blocks(), 1, p.regs, w))
    ensures PRFStep(Marking(coin), 0, p, PublicInput(w, value)) == Some(p.(regs := p.regs[w := Public(value)]))
  {
    SingleKeys();
    assert PRFPublic(Marking(coin), 0, Get(Blocks(), 1, p.regs, w), value) == Some(Public(value));
  }

  /** The registers of the second phase after the gate. */
  function Handed(d: nat, a: nat, b: nat, va: bool, vb: bool): map<nat, Reg<set<int>>> {
    Publics(a, b, va, vb)[d := Drawn(None)]
  }

  /** The tuples that the party sends for the gate, computed from the new keys of the destination. */
  function Tuples(coin: bool, d: nat, a: nat, b: nat, va: bool, vb: bool): seq<PRFTuple<set<int>>>
    ensures |Tuples(coin, d, a, b, va, vb)| == 1
  {
    PRFOutputs(Marking(coin), 0, Handed(d, a, b, va, vb)[a], Handed(d, a, b, va, vb)[b], 1)
  }

  lemma PRFGate(coin: bool, p: PRFState<set<int>>, d: nat, a: nat, b: nat, va: bool, vb: bool, func: Function)
    requires (d == a || d == b) && p == PRFState(Publics(a, b, va, vb), [{7}, {0, 7}], [], [], 0)
    ensures PRFStep(Marking(coin), 0, p, Op(d, a, b, func))
         == Some(PRFState(Handed(d, a, b, va, vb), [], Tuples(coin, d, a, b, va, vb), [], 1))
  {
    SingleKeys();
    assert ReceiveKeys(1, 0, p.regs[d], p.keysIn) == Some(Drawn(None));
    var tuples := Tuples(coin, d, a, b, va, vb);
    assert p.prfOut + tuples == tuples && p.keysIn[2..] == [];
  }

  lemma SecondPhase(coin: bool, d: nat, a: nat, b: nat, va: bool, vb: bool, func: Function)
    requires d == a || d == b
    ensures var S := Marking(coin);
      RunPRF(S, AllPhases(S), 0, PRFStarted([{7}, {0, 7}]), Gate(d, a, b, va, vb, func))
        == Some(PRFState(Handed(d, a, b, va, vb), [], Tuples(coin, d, a, b, va, vb), [{7}], 1))
  {
    var S := Marking(coin);
    var M, prog := AllPhases(S), Gate(d, a, b, va, vb, func);
    var p0 := PRFStarted<set<int>>([{7}, {0, 7}]);
    PRFPublicly(coin, p0, a, va);
    var p1 := p0.(regs := map[a := Public(va)]);
    assert p0.regs[a := Public(va)] == p1.regs;
    PRFPublicly(coin, p1, b, vb);
    var p2 := p0.(regs := Publics(a, b, va, vb));
    PRFGate(coin, p2, d, a, b, va, vb, func);
    var p3 := PRFState(Handed(d, a, b, va, vb), [], Tuples(coin, d, a, b, va, vb), [], 1);
    var p4 := p3.(wires := [{7}]);
    assert p3.wires + [{7}] == [{7}];
    assert PRFStep(S, 0, p3, prog[3]) == Some(p4);
    Split(prog);
    assert RunPRF(S, M, 0, p3, prog[3..]) == Some(p4);
    assert RunPRF(S, M, 0, p2, prog[2..]) == Some(p4);
    assert RunPRF(S, M, 0, p1, prog[1..]) == Some(p4);
  }

  lemma GarblePublicly(coin: bool, g: GarbleState<set<int>>, w: nat, value: bool, rest: seq<Cell<set<int>>>)
    requires Fresh(Get(Blocks(), 1, g.regs, w)) && g.wiresIn == Wire(Public(value)) + rest
    ensures GarbleStep(Marking(coin), g, PublicInput(w, value))
         == Some(g.(regs := g.regs[w := Public(value)], wiresIn := rest))
  {
    Stored(Public(value));
    LoadStored(1, Public(value), Get(Blocks(), 1, g.regs, w), g.wiresIn, rest);
  }

  /** The masks that garbling finds at the operands. */
  function MaskOf(coin: bool, d: nat, w: nat): bool {
    if d == w then coin else false
  }

  function Circuit(coin: bool, d: nat, a: nat, b: nat, va: bool, vb: bool, func: Function): seq<set<int>> {
    GarbledGate(Marking(coin), func, MaskOf(coin, d, a), MaskOf(coin, d, b), Drawn(Some(coin)),
                [Tuples(coin, d, a, b, va, vb)])
  }

  lemma GarbledOver(coin: bool, d: nat, a: nat, b: nat, va: bool, vb: bool, func: Function)
    requires d == a || d == b
    ensures var regs := Publics(a, b, va, vb);
      GarbleStep(Marking(coin), GarbleState(regs, Wire(Drawn(Some(coin))), [Tuples(coin, d, a, b, va, vb)], []),
                 Op(d, a, b, func))
        == Some(GarbleState(regs[d := Drawn(Some(coin))], [], [[]], Circuit(coin, d, a, b, va, vb, func)))
  {
    var S, drawn, regs, ts := Marking(coin), Drawn(Some(coin)), Publics(a, b, va, vb), Tuples(coin, d, a, b, va, vb);
    Stored(drawn);
    LoadStored(1, drawn, regs[d], Wire(drawn), []);
    assert Wire(drawn) + [] == Wire(drawn);
    assert DropTuples(1, [ts]) == [[]];
    var none: seq<set<int>> := [];
    assert none + Circuit(coin, d, a, b, va, vb, func) == Circuit(coin, d, a, b, va, vb, func);
  }

  lemma ThirdPhase(coin: bool, d: nat, a: nat, b: nat, va: bool, vb: bool, func: Function)
    requires d == a || d == b
    ensures var S := Marking(coin);
      var g := RunGarble(S, AllPhases(S), GarbleState(map[], Wires(coin, va, vb), [Tuples(coin, d, a, b, va, vb)], []),
                         Gate(d, a, b, va, vb, func));
      g.Some? && g.value.circuit == Circuit(coin, d, a, b, va, vb, func)
  {
    var S := Marking(coin);
    var M, prog := AllPhases(S), Gate(d, a, b, va, vb, func);
    var g0: GarbleState<set<int>> :=
      GarbleState(map[], Wires(coin, va, vb), [Tuples(coin, d, a, b, va, vb)], []);
    NewKeys();
    GarblePublicly(coin, g0, a, va, Wire(Public(vb)) + Wire(Drawn(Some(coin))));
    var g1 := g0.(regs := map[a := Public(va)], wiresIn := Wire(Public(vb)) + Wire(Drawn(Some(coin))));
    assert g0.regs[a := Public(va)] == g1.regs;
    GarblePublicly(coin, g1, b, vb, Wire(Drawn(Some(coin))));
    var g2 := g1.(regs := Publics(a, b, va, vb), wiresIn := Wire(Drawn(Some(coin))));
    GarbledOver(coin, d, a, b, va, vb, func);
    var g3 := GarbleState(g2.regs[d := Drawn(Some(coin))], [], [[]], Circuit(coin, d, a, b, va, vb, func));
    Split(prog);
    assert RunGarble(S, M, g3, prog[3..]) == Some(g3);
    assert RunGarble(S, M, g2, prog[2..]) == Some(g3);
    assert RunGarble(S, M, g1, prog[1..]) == Some(g3);
  }

  /** The register of a public bit in the last phase. */
  function Seen(value: bool): Reg<set<int>> {
    Reg(Some(false), Some(value), [{}], Two([{}], [{}]))
  }

  function Sights(a: nat, b: nat, va: bool, vb: bool): map<nat, Reg<set<int>>> {
    map[a := Seen(va)][b := Seen(vb)]
  }

  lemma EvalPublicly(coin: bool, e: EvalState<set<int>>, w: nat, value: bool)
    requires var r := Get(Blocks(), 1, e.regs, w); r.keys == Two([{}], [{}]) && |r.entry| == 1
    ensures EvalLocal(Marking(coin), 0, e, PublicInput(w, value)) == Some(e.(regs := e.regs[w := Seen(value)]))
  {
    Blockwise(coin);
    assert EvalPublic(Marking(coin), Get(Blocks(), 1, e.regs, w), value) == Some(Seen(value));
  }

  /** The key of the new wire for a value. */
  function Key(b: bool): set<int> {
    if b then {0, 7} else {7}
  }

  /** What an operand adds to the row of its external value: zero, or the mark of a new key. */
  function Share(d: nat, w: nat): set<int> {
    if d == w then {1} else {}
  }

  lemma Shares(coin: bool, d: nat, a: nat, b: nat, va: bool, vb: bool)
    requires d == a || d == b
    ensures var t, sl, sr := Tuples(coin, d, a, b, va, vb)[0], if a == b then vb else va, vb;
      t.no.At(sl).At(sr) == Share(d, a) && t.yes.At(sr).At(sl) == Share(d, b)
  {
    var t, sl, sr := Tuples(coin, d, a, b, va, vb)[0], if a == b then vb else va, vb;
    var regs := Handed(d, a, b, va, vb);
    assert t.no.At(sl).At(sr) == Marked(regs[a].keys.At(sl)[0]);
    assert t.yes.At(sr).At(sl) == Marked(regs[b].keys.At(sr)[0]);
  }

  lemma SharedRow(coin: bool, d: nat, a: nat, b: nat, va: bool, vb: bool, out: bool)
    requires d == a || d == b
    ensures var G, ts, sl := Blocks(), Tuples(coin, d, a, b, va, vb), if a == b then vb else va;
      GarbledRow(Marking(coin), [ts], [Key(out)], sl, vb) == [G.xor(G.xor(Share(d, a), Share(d, b)), Key(out))]
  {
    var S, ts, sl := Marking(coin), Tuples(coin, d, a, b, va, vb), if a == b then vb else va;
    Shares(coin, d, a, b, va, vb);
    assert RowSum(S, [ts], sl, vb, 0, 0) == {};
    assert RowSum(S, [ts], sl, vb, 0, 1) == S.G.xor(S.G.xor({}, Share(d, a)), Share(d, b));
    assert S.G.xor({}, Share(d, a)) == Share(d, a);
  }

  /** The row that the last phase chooses. */
  lemma Chosen(coin: bool, d: nat, a: nat, b: nat, va: bool, vb: bool, func: Function) returns (out: bool)
    requires d == a || d == b
    ensures var G, k := Blocks(), Index(if a == b then vb else va, vb);
      |Circuit(coin, d, a, b, va, vb, func)| == 4 && Circuit(coin, d, a, b, va, vb, func)[k..k + 1]
        == [G.xor(G.xor(Share(d, a), Share(d, b)), Key(out))]
  {
    var sl, ml, mr := if a == b then vb else va, MaskOf(coin, d, a), MaskOf(coin, d, b);
    out := RowValue(func, ml, mr, coin, sl, vb);
    var rows := Circuit(coin, d, a, b, va, vb, func);
    assert rows == rows + [];
    ChosenRow(Marking(coin), func, ml, mr, Drawn(Some(coin)), [Tuples(coin, d, a, b, va, vb)], sl, vb, rows, []);
    SharedRow(coin, d, a, b, va, vb, out);
    assert Drawn(Some(coin)).keys.At(out) == [Key(out)];
  }

  /** Where the register is its own operand, a part of the row is taken for the new key. */
  lemma PeeledOver(coin: bool, d: nat, a: nat, b: nat, sl: bool, sr: bool, row: set<int>, out: bool)
    requires (d == a || d == b) && row == Blocks().xor(Blocks().xor(Share(d, a), Share(d, b)), Key(out))
    ensures Peeled(Marking(coin), [{}], [{}], d == a, d == b, sl, sr, 1, [row], 1) == [{1, 2} + Key(out)]
  {
    var S := Marking(coin);
    assert Peeled(S, [{}], [{}], d == a, d == b, sl, sr, 1, [row], 0) == [row];
    var left := Marked(if d == a then row else {});
    var half := S.G.xor(row, left);
    assert Less(S, [row], if d == a then row else {}, sr, 1) == [half];
    var right := Marked(if d == b then half else {});
    assert Less(S, [half], if d == b then half else {}, sl, 1) == [S.G.xor(half, right)];
    Marks(d, a, b, row, out);
  }

  lemma Marks(d: nat, a: nat, b: nat, row: set<int>, out: bool)
    requires (d == a || d == b) && row == Blocks().xor(Blocks().xor(Share(d, a), Share(d, b)), Key(out))
    ensures var half := Blocks().xor(row, Marked(if d == a then row else {}));
      Blocks().xor(half, Marked(if d == b then half else {})) == {1, 2} + Key(out)
  {
    var G, k := Blocks(), Key(out);
    assert 7 in k && 1 !in k && 2 !in k;
    if d == a && d == b {
      assert G.xor({1}, {1}) == {} && G.xor({}, k) == k && G.xor(k, {1}) == {1} + k;
      assert G.xor({1} + k, {2}) == {1, 2} + k;
    } else {
      assert G.xor({1}, {}) == {1} && G.xor({}, {1}) == {1} && G.xor({1}, k) == {1} + k;
      assert G.xor({1} + k, {2}) == {1, 2} + k && G.xor({1} + k, {}) == {1} + k;
      assert G.xor({1, 2} + k, {}) == {1, 2} + k;
    }
  }

  /** The opening of the gate does not pass the check of the label. */
  lemma Refused(coin: bool, e: EvalState<set<int>>, d: nat, out: bool)
    requires d in e.regs && e.regs[d].entry == [{1, 2} + Key(out)] && e.wiresIn == [{7}]
    ensures EvalLocal(Marking(coin), 0, e, Output(d)).None?
  {
    Blockwise(coin);
    SingleKeys();
    var r := LoadKey(Marking(coin), 0, e.regs[d], [{7}]);
    assert 1 in e.regs[d].entry[0];
    assert r.Some? ==> r.value.keys == Two([{7}], [{0, 7}]);
  }

  lemma DecryptedOver(coin: bool, regs: map<nat, Reg<set<int>>>, d: nat, a: nat, b: nat, va: bool, vb: bool,
                      func: Function) returns (w: Reg<set<int>>, out: bool)
    requires (d == a || d == b) && regs == Sights(a, b, va, vb)
    ensures EvalGate(Marking(coin), 0, regs[d], regs[a], regs[b], d == a, d == b, 1,
                     Circuit(coin, d, a, b, va, vb, func)) == Some(w)
    ensures |Circuit(coin, d, a, b, va, vb, func)| == 4 && w.entry == [{1, 2} + Key(out)]
  {
    var rows, sl := Circuit(coin, d, a, b, va, vb, func), if a == b then vb else va;
    out := Chosen(coin, d, a, b, va, vb, func);
    var row := Blocks().xor(Blocks().xor(Share(d, a), Share(d, b)), Key(out));
    PeeledOver(coin, d, a, b, sl, vb, row, out);
    assert regs[a] == Seen(sl) && regs[b] == Seen(vb);
    w := EvalGate(Marking(coin), 0, regs[d], regs[a], regs[b], d == a, d == b, 1, rows).value;
  }

  /** The gate itself goes through, but leaves the wrong label. */
  lemma EvalOver(coin: bool, e: EvalState<set<int>>, d: nat, a: nat, b: nat, va: bool, vb: bool,
                 func: Function) returns (f: EvalState<set<int>>, out: bool)
    requires (d == a || d == b) && e.regs == Sights(a, b, va, vb) && e.gates == 0
    requires e.circuitIn == Circuit(coin, d, a, b, va, vb, func)
    ensures EvalLocal(Marking(coin), 0, e, Op(d, a, b, func)) == Some(f)
    ensures d in f.regs && f.regs[d].entry == [{1, 2} + Key(out)] && f.wiresIn == e.wiresIn
  {
    var w;
    w, out := DecryptedOver(coin, e.regs, d, a, b, va, vb, func);
    f := e.(regs := e.regs[d := w], circuitIn := e.circuitIn[4..], gates := 1);
  }

  lemma LastPhase(coin: bool, d: nat, a: nat, b: nat, va: bool, vb: bool, func: Function)
    requires d == a || d == b
    ensures var S := Marking(coin);
      RunEval(S, AllPhases(S), [EvalState(map[], [{7}], Circuit(coin, d, a, b, va, vb, func), [], [coin], 0, [])],
              Gate(d, a, b, va, vb, func)).None?
  {
    var S, prog := Marking(coin), Gate(d, a, b, va, vb, func);
    var e0: EvalState<set<int>> :=
      EvalState(map[], [{7}], Circuit(coin, d, a, b, va, vb, func), [], [coin], 0, []);
    NewKeys();
    EvalPublicly(coin, e0, a, va);
    var e1 := e0.(regs := map[a := Seen(va)]);
    assert e0.regs[a := Seen(va)] == e1.regs;
    EvalPublicly(coin, e1, b, vb);
    var e2 := e1.(regs := Sights(a, b, va, vb));
    var e3, out := EvalOver(coin, e2, d, a, b, va, vb, func);
    Refused(coin, e3, d, out);
    Split(prog);
    Alone(S, e0, e1, prog);
    Alone(S, e1, e2, prog[1..]);
    Alone(S, e2, e3, prog[2..]);
    Stuck(S, e3, prog[3..]);
  }

  /** One step of the only party. */
  lemma Alone(S: Setup<set<int>>, e: EvalState<set<int>>, f: EvalState<set<int>>, prog: seq<Instruction>)
    requires S.n == 1 && prog != [] && !prog[0].Input? && EvalLocal(S, 0, e, prog[0]) == Some(f)
    ensures RunEval(S, AllPhases(S), [e], prog) == RunEval(S, AllPhases(S), [f], prog[1..])
  {
    assert AllPhases(S).local(0, [e][0], prog[0]) == Some(f);
    var M := AllPhases(S);
    assert forall i :: 0 <= i < 1 ==> M.local(i, [e][i], prog[0]) == Some(f);
    assert EvalStep(S, M, [e], prog[0]).Some?;
    assert EvalStep(S, M, [e], prog[0]).value == [f];
  }

  lemma Stuck(S: Setup<set<int>>, e: EvalState<set<int>>, prog: seq<Instruction>)
    requires S.n == 1 && prog != [] && !prog[0].Input? && EvalLocal(S, 0, e, prog[0]).None?
    ensures RunEval(S, AllPhases(S), [e], prog).None?
  {
    assert AllPhases(S).local(0, [e][0], prog[0]).None?;
  }

  /** For every overwriting gate, all values and all masks, the protocol stops with an exception. */
  lemma OverwritingFails(coin: bool, d: nat, a: nat, b: nat, va: bool, vb: bool, func: Function)
    requires d == a || d == b
    ensures ValidSetup(Marking(coin)) && Execute(Marking(coin), Gate(d, a, b, va, vb, func)).None?
  {
    var S := Marking(coin);
    Blockwise(coin);
    FirstPhase(coin, d, a, b, va, vb, func);
    SecondPhase(coin, d, a, b, va, vb, func);
    ThirdPhase(coin, d, a, b, va, vb, func);
    LastPhase(coin, d, a, b, va, vb, func);
    var M, prog := AllPhases(S), Gate(d, a, b, va, vb, func);
    var r := RunRandom(S, M, Started(S), prog).value;
    var g := RunGarble(S, M, GarbleState(map[], r.wires, [Tuples(coin, d, a, b, va, vb)], []), prog).value;
    if Execute(S, prog).Some? {
      ExecuteReaches(S, prog, r, PRFState(Handed(d, a, b, va, vb), [], Tuples(coin, d, a, b, va, vb), [{7}], 1), g);
    }
  }

  lemma ExecuteReaches(S: Setup<set<int>>, prog: seq<Instruction>, r: RandomState<set<int>>, p: PRFState<set<int>>,
                       g: GarbleState<set<int>>)
    requires S.n == 1 && |r.msgKeys| == |r.inputMasks| == 1
    requires RunRandom(S, AllPhases(S), Started(S), prog) == Some(r)
    requires RunPRF(S, AllPhases(S), 0, PRFStarted(r.msgKeys[0]), prog) == Some(p)
    requires RunGarble(S, AllPhases(S), GarbleState(map[], r.wires, [p.prfOut], []), prog) == Some(g)
    requires Execute(S, prog).Some?
    ensures RunEval(S, AllPhases(S), [EvalState(map[], p.wires, g.circuit, r.inputMasks[0], r.outputMasks, 0, [])],
                    prog).Some?
  {
    ExecuteParts(S, prog);
    var o := Execute(S, prog).value;
    assert o.prf[0] == p;
    assert GarbleStarted(S, o) == GarbleState(map[], r.wires, [p.prfOut], []);
    assert EvalStarted(S, o) == [EvalState(map[], p.wires, g.circuit, r.inputMasks[0], r.outputMasks, 0, [])];
  }

  /** The gate opens its plain value in every run exactly if its destination is none of its operands. */
  lemma OverwritingIsPlain(d: nat, a: nat, b: nat, va: bool, vb: bool, func: Function)
    ensures var prog, value := Gate(d, a, b, va, vb, func), Plainly(a, b, va, vb, func);
      (forall S: Setup<set<int>> | ValidSetup(S) :: OpensPlain(S, prog, value)) <==> d != a && d != b
  {
    if d == a || d == b {
      OverwritingFails(false, d, a, b, va, vb, func);
    } else {
      forall S: Setup<set<int>> | ValidSetup(S)
        ensures OpensPlain(S, Gate(d, a, b, va, vb, func), Plainly(a, b, va, vb, func))
      {
        ApartIsPlain(S, d, a, b, va, vb, func);
      }
    }
  }

  lemma Split(prog: seq<Instruction>)
    requires |prog| == 4
    ensures prog[1..][0] == prog[1] && prog[1..][1..] == prog[2..] && prog[2..][0] == prog[2]
    ensures prog[2..][1..] == prog[3..] && prog[3..][0] == prog[3] && prog[3..][1..] == []
  {
  }
}
