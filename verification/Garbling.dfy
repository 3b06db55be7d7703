/**
 BMR/Register.cpp with the buffers of BMR/TrustedParty.cpp and BMR/Party.cpp: one program of
 register instructions under four interpretations. The trusted party first draws keys and masks
 (Random); every party then evaluates its pseudo-random function (PRF); the trusted party adds
 the results up to garbled rows (Garble); finally the parties evaluate together (Eval).
 This module says what each instruction does to the registers and the buffers of each phase.
 An exception of the program is the result None.
 */
module Garbling {
  import opened Keys

  datatype Option<+T> = None | Some(value: T) {
    predicate IsFailure() {
      None?
    }

    function PropagateFailure<U>(): Option<U>
      requires None?
    {
      None
    }

    function Extract(): T
      requires Some?
    {
      value
    }
  }

  /** A truth table: entry 2 * left + right. */
  type Function = f: seq<bool> | |f| == 4 witness [false, false, false, true]

  function Index(left: bool, right: bool): nat {
    (if left then 2 else 0) + (if right then 1 else 0)
  }

  /** Register instructions, as GC::Secret issues them. Copy is what bitcom, bitdec and the
      shifts do with registers. */
  datatype Instruction =
    | Op(dest: nat, left: nat, right: nat, func: Function)
    | Xor(dest: nat, left: nat, right: nat)
    | Input(dest: nat, from: nat, value: bool)
    | PublicInput(dest: nat, value: bool)
    | Random(dest: nat)
    | Output(reg: nat)
    | Copy(dest: nat, source: nat)

  /** An array indexed by a bit. */
  datatype Two<T> = Two(no: T, yes: T) {
    function At(b: bool): T {
      if b then yes else no
    }

    function Set(b: bool, x: T): Two<T> {
      if b then Two(no, x) else Two(x, yes)
    }
  }

  /** A register; None stands for NO_SIGNAL. keys.At(b)[i] is the key of party i for value b. */
  datatype Reg<K> = Reg(mask: Option<bool>, external: Option<bool>, entry: seq<K>, keys: Two<seq<K>>)

  function NewReg<K>(G: KeyGroup<K>, n: nat): Reg<K> {
    Reg(None, None, ZeroVec(G, n), Two(ZeroVec(G, n), ZeroVec(G, n)))
  }

  function Get<K>(G: KeyGroup<K>, n: nat, regs: map<nat, Reg<K>>, r: nat): Reg<K> {
    if r in regs then regs[r] else NewReg(G, n)
  }

  predicate Sized<K>(n: nat, r: Reg<K>) {
    |r.entry| == n && |r.keys.no| == n && |r.keys.yes| == n
  }

  /** One unit of the trusted party's wire buffer: a mask byte or a key. */
  datatype Cell<K> = Byte(mask: Option<bool>) | Block(key: K)

  /** The outputs of one party's function for one gate and one key index: wire (left, right),
      value, extension. */
  type PRFTuple<K> = Two<Two<Two<K>>>

  /** What the phases share: the number of parties, the global differences, the pseudo-random
      function (key, extension, gate, index), and the outcome of the i-th call of randomize. */
  datatype Setup<!K> = Setup(
    G: KeyGroup<K>,
    n: nat,
    deltas: seq<K>,
    prf: (K, bool, nat, nat) -> K,
    coin: nat -> bool,
    draw: (nat, nat) -> K)

  ghost predicate ValidSetup<K(!new)>(S: Setup<K>) {
    && IsKeyGroup(S.G)
    && |S.deltas| == S.n
    && forall i :: 0 <= i < S.n ==> S.G.signal(S.deltas[i])
  }

  // ---------- phase 1: Random ----------

  datatype RandomState<K> = RandomState(
    regs: map<nat, Reg<K>>,
    wires: seq<Cell<K>>,
    msgKeys: seq<seq<K>>,      // one stream per party
    inputMasks: seq<seq<bool>>,
    outputMasks: seq<bool>,
    draws: nat)

  /** Fresh zero-keys with signal bit 0. */
  function FreshKeys<K>(S: Setup<K>, draw: nat): seq<K> {
    seq(S.n, i requires 0 <= i < S.n => WithSignal(S.G, S.draw(draw, i), false))
  }

  function Randomize<K>(S: Setup<K>, r: Reg<K>, draw: nat): Reg<K>
    requires |S.deltas| == S.n
  {
    var k0 := FreshKeys(S, draw);
    r.(mask := Some(S.coin(draw)), keys := Two(k0, XorVec(S.G, k0, S.deltas)))
  }

  function Cells<K>(ks: seq<K>): seq<Cell<K>> {
    seq(|ks|, i requires 0 <= i < |ks| => Block(ks[i]))
  }

  /** store_wire of the trusted party: the mask, then all zero-keys, then all one-keys. */
  function StoredWire<K>(r: Reg<K>): seq<Cell<K>> {
    [Byte(r.mask)] + Cells(r.keys.no) + Cells(r.keys.yes)
  }

  /** add_keys: party p gets its two keys. */
  function AddKeys<K>(msg: seq<seq<K>>, r: Reg<K>): seq<seq<K>>
    requires |r.keys.no| == |r.keys.yes| == |msg|
  {
    seq(|msg|, p requires 0 <= p < |msg| => msg[p] + [r.keys.no[p], r.keys.yes[p]])
  }

  /** add_all_keys: every party gets the keys of all parties for one value. */
  function AddAllKeys<K>(msg: seq<seq<K>>, ks: seq<K>): seq<seq<K>> {
    seq(|msg|, p requires 0 <= p < |msg| => msg[p] + ks)
  }

  function RandomXor<K>(S: Setup<K>, d: Reg<K>, l: Reg<K>, r: Reg<K>): Option<Reg<K>> {
    if l.mask.None? || r.mask.None? || !Sized(S.n, l) || !Sized(S.n, r) || |S.deltas| != S.n then None else
      var k0 := XorVec(S.G, l.keys.no, r.keys.no);
      Some(d.(mask := Some(l.mask.value != r.mask.value), keys := Two(k0, XorVec(S.G, k0, S.deltas))))
  }

  function RandomPublic<K>(S: Setup<K>, d: Reg<K>, value: bool): Reg<K> {
    var z := ZeroVec(S.G, S.n);
    d.(mask := Some(false), keys := if value then Two(S.deltas, z) else Two(z, S.deltas))
  }

  /** Fresh keys and a fresh mask for wire d: stored for the third phase, and sent to the owners. */
  function FreshWire<K>(S: Setup<K>, st: RandomState<K>, d: nat): RandomState<K>
    requires |S.deltas| == S.n == |st.msgKeys|
  {
    var r := Randomize(S, Get(S.G, S.n, st.regs, d), st.draws);
    st.(regs := st.regs[d := r], wires := st.wires + StoredWire(r), msgKeys := AddKeys(st.msgKeys, r),
        draws := st.draws + 1)
  }

  function RandomStep<K>(S: Setup<K>, st: RandomState<K>, s: Instruction): Option<RandomState<K>> {
    if |S.deltas| != S.n || |st.msgKeys| != S.n || |st.inputMasks| != S.n then None else
    match s
    case Op(d, _, _, _) =>
      Some(FreshWire(S, st, d))
    case Xor(d, a, b) =>
      var r :- RandomXor(S, Get(S.G, S.n, st.regs, d), Get(S.G, S.n, st.regs, a), Get(S.G, S.n, st.regs, b));
      Some(st.(regs := st.regs[d := r]))
    case Input(d, from, _) =>
      if from >= S.n then None else
      var st1 := FreshWire(S, st, d);
      Some(st1.(inputMasks := st.inputMasks[from := st.inputMasks[from] + [st1.regs[d].mask.value]]))
    case PublicInput(d, value) =>
      var r := RandomPublic(S, Get(S.G, S.n, st.regs, d), value);
      Some(st.(regs := st.regs[d := r], wires := st.wires + StoredWire(r)))
    case Random(d) =>
      var st1 := FreshWire(S, st, d);
      Some(st1.(msgKeys := AddAllKeys(st1.msgKeys, st1.regs[d].keys.no)))
    case Output(r) =>
      var mask :- Get(S.G, S.n, st.regs, r).mask;
      Some(st.(outputMasks := st.outputMasks + [mask]))
    case Copy(d, a) =>
      Some(st.(regs := st.regs[d := Get(S.G, S.n, st.regs, a)]))
  }

  // ---------- phase 2: PRF, at party i ----------

  datatype PRFState<K> = PRFState(
    regs: map<nat, Reg<K>>,
    keysIn: seq<K>,            // keys_for_prf
    prfOut: seq<PRFTuple<K>>,
    wires: seq<K>,
    gates: nat)

  /** keys[b][i] := k, for one party. */
  function SetKey<K>(r: Reg<K>, b: bool, i: nat, k: K): Reg<K>
    requires i < |r.keys.At(b)|
  {
    r.(keys := r.keys.Set(b, r.keys.At(b)[i := k]))
  }

  /** receive_keys: clears the signals and reads the two keys of party i. */
  function ReceiveKeys<K>(n: nat, i: nat, r: Reg<K>, tape: seq<K>): Option<Reg<K>>
    requires i < n
  {
    if |tape| < 2 || !Sized(n, r) then None
    else Some(SetKey(SetKey(r.(mask := None, external := None), false, i, tape[0]), true, i, tape[1]))
  }

  /** receive_all_keys: reads the keys of all parties for value b. */
  function ReceiveAllKeys<K>(n: nat, r: Reg<K>, b: bool, tape: seq<K>): Option<Reg<K>> {
    if |tape| < n || !Sized(n, r) then None
    else Some(r.(mask := None, external := None, keys := r.keys.Set(b, tape[..n])))
  }

  /** The PRF outputs of one wire of party i: value, extension. */
  function WireOutputs<K>(S: Setup<K>, i: nat, w: Reg<K>, gate: nat, j: nat): Two<Two<K>>
    requires Sized(S.n, w) && i < S.n
  {
    Two(Two(S.prf(w.keys.no[i], false, gate, j), S.prf(w.keys.no[i], true, gate, j)),
        Two(S.prf(w.keys.yes[i], false, gate, j), S.prf(w.keys.yes[i], true, gate, j)))
  }

  /** compute_prfs_outputs: one tuple for every key index j = 1, ..., n. */
  function PRFOutputs<K>(S: Setup<K>, i: nat, l: Reg<K>, r: Reg<K>, gate: nat): seq<PRFTuple<K>>
    requires Sized(S.n, l) && Sized(S.n, r) && i < S.n
  {
    seq(S.n, j requires 0 <= j < S.n =>
      Two(WireOutputs(S, i, l, gate, j + 1), WireOutputs(S, i, r, gate, j + 1)))
  }

  function PRFXor<K>(S: Setup<K>, i: nat, d: Reg<K>, l: Reg<K>, r: Reg<K>): Option<Reg<K>>
    requires i < S.n
  {
    if !Sized(S.n, d) || !Sized(S.n, l) || !Sized(S.n, r) || |S.deltas| != S.n then None else
      var k := S.G.xor(l.keys.no[i], r.keys.no[i]);
      Some(SetKey(SetKey(d, false, i, k), true, i, S.G.xor(k, S.deltas[i])))
  }

  function PRFPublic<K>(S: Setup<K>, i: nat, d: Reg<K>, value: bool): Option<Reg<K>>
    requires i < S.n
  {
    if !Sized(S.n, d) || |S.deltas| != S.n then None else
      Some(SetKey(SetKey(d, value, i, S.G.zero), !value, i, S.deltas[i]).(mask := Some(false)))
  }

  function PRFStep<K>(S: Setup<K>, i: nat, st: PRFState<K>, s: Instruction): Option<PRFState<K>>
    requires i < S.n
  {
    match s
    case Op(d, a, b, _) =>
      var r :- ReceiveKeys(S.n, i, Get(S.G, S.n, st.regs, d), st.keysIn);
      var regs := st.regs[d := r];
      var l, q := Get(S.G, S.n, regs, a), Get(S.G, S.n, regs, b);
      if !Sized(S.n, l) || !Sized(S.n, q) then None else
      Some(st.(regs := regs, keysIn := st.keysIn[2..], gates := st.gates + 1,
               prfOut := st.prfOut + PRFOutputs(S, i, l, q, st.gates + 1)))
    case Xor(d, a, b) =>
      var r :- PRFXor(S, i, Get(S.G, S.n, st.regs, d), Get(S.G, S.n, st.regs, a), Get(S.G, S.n, st.regs, b));
      Some(st.(regs := st.regs[d := r]))
    case Input(d, _, _) =>
      var r :- ReceiveKeys(S.n, i, Get(S.G, S.n, st.regs, d), st.keysIn);
      Some(st.(regs := st.regs[d := r], keysIn := st.keysIn[2..], wires := st.wires + [r.keys.no[i]]))
    case PublicInput(d, value) =>
      var r :- PRFPublic(S, i, Get(S.G, S.n, st.regs, d), value);
      Some(st.(regs := st.regs[d := r]))
    case Random(d) =>
      var r0 :- ReceiveKeys(S.n, i, Get(S.G, S.n, st.regs, d), st.keysIn);
      var r :- ReceiveAllKeys(S.n, r0, false, st.keysIn[2..]);
      Some(st.(regs := st.regs[d := r], keysIn := st.keysIn[2 + S.n..],
               wires := st.wires + [r.keys.no[i]] + r.keys.no))
    case Output(r) =>
      var q := Get(S.G, S.n, st.regs, r);
      if !Sized(S.n, q) then None else Some(st.(wires := st.wires + [q.keys.no[i]]))
    case Copy(d, a) =>
      Some(st.(regs := st.regs[d := Get(S.G, S.n, st.regs, a)]))
  }

  // ---------- phase 3: Garble ----------

  datatype GarbleState<K> = GarbleState(
    regs: map<nat, Reg<K>>,
    wiresIn: seq<Cell<K>>,
    prfIn: seq<seq<PRFTuple<K>>>,
    circuit: seq<K>)

  predicate AllBlocks<K>(cs: seq<Cell<K>>) {
    forall i :: 0 <= i < |cs| ==> cs[i].Block?
  }

  function Contents<K>(cs: seq<Cell<K>>): seq<K>
    requires AllBlocks(cs)
  {
    seq(|cs|, i requires 0 <= i < |cs| => cs[i].key)
  }

  /** load_wire of the trusted party. */
  function LoadWire<K>(n: nat, r: Reg<K>, tape: seq<Cell<K>>): Option<Reg<K>> {
    if |tape| < 1 + 2 * n || !Sized(n, r) || tape[0].Block? then None else
      var k0, k1 := tape[1..1 + n], tape[1 + n..1 + 2 * n];
      if !AllBlocks(k0) || !AllBlocks(k1) then None else
      Some(r.(mask := tape[0].mask, keys := Two(Contents(k0), Contents(k1))))
  }

  /** Loading what store_wire wrote gives back the mask and the keys. */
  lemma LoadStored<K>(n: nat, a: Reg<K>, g: Reg<K>, tape: seq<Cell<K>>, rest: seq<Cell<K>>)
    requires Sized(n, a) && Sized(n, g) && tape == StoredWire(a) + rest
    ensures LoadWire(n, g, tape) == Some(g.(mask := a.mask, keys := a.keys))
    ensures |tape| >= 1 + 2 * n && tape[1 + 2 * n..] == rest
  {
    assert tape[1..1 + n] == Cells(a.keys.no);
    assert tape[1 + n..1 + 2 * n] == Cells(a.keys.yes);
    assert Contents(Cells(a.keys.no)) == a.keys.no;
    assert Contents(Cells(a.keys.yes)) == a.keys.yes;
  }

  /** Every party's stream still holds the n tuples of a gate. */
  predicate TuplesFit<K>(n: nat, prfIn: seq<seq<PRFTuple<K>>>) {
    |prfIn| == n && forall i :: 0 <= i < n ==> |prfIn[i]| >= n
  }

  /** The sum over the first m parties of the two PRF outputs in column j of row (sl, sr). */
  function RowSum<K>(S: Setup<K>, prfIn: seq<seq<PRFTuple<K>>>, sl: bool, sr: bool, j: nat, m: nat): K
    requires TuplesFit(S.n, prfIn) && j < S.n && m <= S.n
  {
    if m == 0 then S.G.zero else
      var t := prfIn[m - 1][j];
      S.G.xor(S.G.xor(RowSum(S, prfIn, sl, sr, j, m - 1), t.no.At(sl).At(sr)), t.yes.At(sr).At(sl))
  }

  /** Which output key row (sl, sr) hides: the masked function value. */
  function RowValue(func: Function, ml: bool, mr: bool, mo: bool, sl: bool, sr: bool): bool {
    func[Index(ml != sl, mr != sr)] != mo
  }

  function GarbledRow<K>(S: Setup<K>, prfIn: seq<seq<PRFTuple<K>>>, out: seq<K>, sl: bool, sr: bool): seq<K>
    requires TuplesFit(S.n, prfIn) && |out| == S.n
  {
    seq(S.n, j requires 0 <= j < S.n => S.G.xor(RowSum(S, prfIn, sl, sr, j, S.n), out[j]))
  }

  /** garble: the four rows A, B, C, D of one gate. */
  function GarbledGate<K>(S: Setup<K>, func: Function, l: bool, r: bool, d: Reg<K>,
                          prfIn: seq<seq<PRFTuple<K>>>): seq<K>
    requires TuplesFit(S.n, prfIn) && Sized(S.n, d) && d.mask.Some?
  {
    GarbledRow(S, prfIn, d.keys.At(RowValue(func, l, r, d.mask.value, false, false)), false, false) +
    GarbledRow(S, prfIn, d.keys.At(RowValue(func, l, r, d.mask.value, false, true)), false, true) +
    GarbledRow(S, prfIn, d.keys.At(RowValue(func, l, r, d.mask.value, true, false)), true, false) +
    GarbledRow(S, prfIn, d.keys.At(RowValue(func, l, r, d.mask.value, true, true)), true, true)
  }

  function DropTuples<K>(n: nat, prfIn: seq<seq<PRFTuple<K>>>): seq<seq<PRFTuple<K>>>
    requires TuplesFit(n, prfIn)
  {
    seq(|prfIn|, i requires 0 <= i < |prfIn| => prfIn[i][n..])
  }

  function GarbleOp<K>(S: Setup<K>, st: GarbleState<K>, d: nat, a: nat, b: nat,
                       func: Function): Option<GarbleState<K>> {
    var r :- LoadWire(S.n, Get(S.G, S.n, st.regs, d), st.wiresIn);
    var regs := st.regs[d := r];
    var l, q := Get(S.G, S.n, regs, a), Get(S.G, S.n, regs, b);
    if l.mask.None? || q.mask.None? || r.mask.None? || !Sized(S.n, r) || !TuplesFit(S.n, st.prfIn) then None else
      Some(st.(regs := regs, wiresIn := st.wiresIn[1 + 2 * S.n..], prfIn := DropTuples(S.n, st.prfIn),
               circuit := st.circuit + GarbledGate(S, func, l.mask.value, q.mask.value, r, st.prfIn)))
  }

  function GarbleStep<K>(S: Setup<K>, st: GarbleState<K>, s: Instruction): Option<GarbleState<K>> {
    match s
    case Op(d, a, b, func) =>
      GarbleOp(S, st, d, a, b, func)
    case Xor(d, a, b) =>
      var l, q := Get(S.G, S.n, st.regs, a), Get(S.G, S.n, st.regs, b);
      if l.mask.None? || q.mask.None? then None else
      Some(st.(regs := st.regs[d := Get(S.G, S.n, st.regs, d).(mask := Some(l.mask.value != q.mask.value))]))
    case Output(_) =>
      Some(st)
    case Copy(d, a) =>
      Some(st.(regs := st.regs[d := Get(S.G, S.n, st.regs, a)]))
    case _ =>
      var r :- LoadWire(S.n, Get(S.G, S.n, st.regs, s.dest), st.wiresIn);
      Some(st.(regs := st.regs[s.dest := r], wiresIn := st.wiresIn[1 + 2 * S.n..]))
  }

  // ---------- phase 4: Eval ----------

  datatype EvalState<K> = EvalState(
    regs: map<nat, Reg<K>>,
    wiresIn: seq<K>,
    circuitIn: seq<K>,
    inputMasks: seq<bool>,
    outputMasks: seq<bool>,
    gates: nat,
    outputs: seq<bool>)

  /** load_wire of a party: its zero-key from the buffer, its one-key by the difference. */
  function LoadKey<K>(S: Setup<K>, i: nat, r: Reg<K>, tape: seq<K>): Option<Reg<K>>
    requires i < S.n
  {
    if |tape| < 1 || !Sized(S.n, r) || |S.deltas| != S.n then None
    else Some(SetKey(SetKey(r, false, i, tape[0]), true, i, S.G.xor(tape[0], S.deltas[i])))
  }

  function SetExternal<K>(r: Reg<K>, ext: bool): Reg<K> {
    r.(external := Some(ext), entry := r.keys.At(ext))
  }

  /** Subtracts the function values of one key from all columns of an entry. */
  function Less<K>(S: Setup<K>, entry: seq<K>, key: K, ext: bool, gate: nat): (r: seq<K>)
    requires |entry| == S.n
    ensures |r| == S.n
  {
    seq(S.n, j requires 0 <= j < S.n => S.G.xor(entry[j], S.prf(key, ext, gate, j + 1)))
  }

  /** The entry after m parties, of which each takes its function values under its left label and
      then under its right label off the row. A register that is its own left or right operand
      has lost its labels: what is read in their place is the row itself, as far as decrypted. */
  function Peeled<K>(S: Setup<K>, l: seq<K>, r: seq<K>, isL: bool, isR: bool, sl: bool, sr: bool, gate: nat,
                     row: seq<K>, m: nat): (e: seq<K>)
    requires |l| == |r| == |row| == S.n && m <= S.n
    ensures |e| == S.n
  {
    if m == 0 then row else
      var e := Peeled(S, l, r, isL, isR, sl, sr, gate, row, m - 1);
      var half := Less(S, e, if isL then e[m - 1] else l[m - 1], sr, gate);
      Less(S, half, if isR then half[m - 1] else r[m - 1], sl, gate)
  }

  /** eval: decrypts the row chosen by the external values; isL and isR say whether the register
      is its own left or right operand. */
  function EvalGate<K>(S: Setup<K>, i: nat, d: Reg<K>, l: Reg<K>, r: Reg<K>, isL: bool, isR: bool, gate: nat,
                       rows: seq<K>): Option<Reg<K>>
    requires i < S.n
  {
    if l.external.None? || r.external.None? || |rows| < 4 * S.n || |l.entry| != S.n || |r.entry| != S.n then None else
      var sl, sr := l.external.value, r.external.value;
      var k := Index(sl, sr);
      var entry := Peeled(S, l.entry, r.entry, isL, isR, sl, sr, gate, rows[k * S.n..k * S.n + S.n], S.n);
      Some(d.(entry := entry, external := Some(S.G.signal(entry[i]))))
  }

  function EvalXor<K>(S: Setup<K>, d: Reg<K>, l: Reg<K>, r: Reg<K>): Option<Reg<K>> {
    if l.external.None? || r.external.None? || |l.entry| != |r.entry| then None
    else Some(d.(external := Some(l.external.value != r.external.value), entry := XorVec(S.G, l.entry, r.entry)))
  }

  function EvalPublic<K>(S: Setup<K>, d: Reg<K>, value: bool): Option<Reg<K>> {
    if !Sized(S.n, d) then None else
      var z := ZeroVec(S.G, S.n);
      Some(d.(mask := Some(false), external := Some(value), entry := z, keys := d.keys.Set(value, z)))
  }

  /** What a party does on its own; Input, which communicates, is EvalInput below. */
  function EvalLocal<K(==)>(S: Setup<K>, i: nat, st: EvalState<K>, s: Instruction): Option<EvalState<K>>
    requires i < S.n && !s.Input?
  {
    match s
    case Op(d, a, b, _) =>
      var r :- EvalGate(S, i, Get(S.G, S.n, st.regs, d), Get(S.G, S.n, st.regs, a), Get(S.G, S.n, st.regs, b),
                        d == a, d == b, st.gates + 1, st.circuitIn);
      Some(st.(regs := st.regs[d := r], circuitIn := st.circuitIn[4 * S.n..], gates := st.gates + 1))
    case Xor(d, a, b) =>
      var r :- EvalXor(S, Get(S.G, S.n, st.regs, d), Get(S.G, S.n, st.regs, a), Get(S.G, S.n, st.regs, b));
      Some(st.(regs := st.regs[d := r]))
    case PublicInput(d, value) =>
      var r :- EvalPublic(S, Get(S.G, S.n, st.regs, d), value);
      Some(st.(regs := st.regs[d := r]))
    case Random(d) =>
      var r :- LoadKey(S, i, Get(S.G, S.n, st.regs, d), st.wiresIn);
      if |st.wiresIn| < 1 + S.n then None else
      Some(st.(regs := st.regs[d := SetExternal(r.(keys := r.keys.Set(false, st.wiresIn[1..1 + S.n])), false)],
               wiresIn := st.wiresIn[1 + S.n..]))
    case Output(o) =>
      var r :- LoadKey(S, i, Get(S.G, S.n, st.regs, o), st.wiresIn);
      // check_signal_key: the own entry has to match the key of the external value
      if |st.outputMasks| < 1 || r.external.None? || |r.entry| != S.n
        || r.entry[i] != r.keys.At(r.external.value)[i] then None else
      Some(st.(regs := st.regs[o := r.(mask := Some(st.outputMasks[0]))], wiresIn := st.wiresIn[1..],
               outputMasks := st.outputMasks[1..], outputs := st.outputs + [st.outputMasks[0] != r.external.value]))
    case Copy(d, a) =>
      Some(st.(regs := st.regs[d := Get(S.G, S.n, st.regs, a)]))
  }

  /** The masked input bit that the owner broadcasts. */
  function MaskedInput<K>(es: seq<EvalState<K>>, from: nat, value: bool): Option<bool> {
    if from >= |es| || |es[from].inputMasks| < 1 then None else Some(es[from].inputMasks[0] != value)
  }

  /** Party i after learning the external value: its own label is keys[ext][i]. */
  function InputRegister<K>(S: Setup<K>, i: nat, st: EvalState<K>, d: nat, ext: bool,
                            mask: Option<bool>): (r: Option<Reg<K>>)
    requires i < S.n
    ensures r.Some? ==> |st.wiresIn| >= 1
  {
    var r :- LoadKey(S, i, Get(S.G, S.n, st.regs, d), st.wiresIn);
    Some(SetExternal(if mask.Some? then r.(mask := mask) else r, ext))
  }

  /** The mask that the owner of an input uses. */
  function OwnMask<K>(st: EvalState<K>, own: bool): Option<bool> {
    if own && |st.inputMasks| > 0 then Some(st.inputMasks[0]) else None
  }

  /** All registers of the parties before the labels are exchanged. */
  function InputRegisters<K>(S: Setup<K>, es: seq<EvalState<K>>, d: nat, from: nat,
                             ext: bool): (rs: seq<Option<Reg<K>>>)
    requires |es| == S.n && from < S.n
    ensures |rs| == S.n && forall i :: 0 <= i < S.n && rs[i].Some? ==> |es[i].wiresIn| >= 1
  {
    seq(S.n, i requires 0 <= i < S.n =>
      InputRegister(S, i, es[i], d, ext, OwnMask(es[i], i == from)))
  }

  /** input: the owner masks its bit and broadcasts it; then every party sends its label. */
  function EvalInput<K>(S: Setup<K>, es: seq<EvalState<K>>, d: nat, from: nat, value: bool): Option<seq<EvalState<K>>>
    requires |es| == S.n
  {
    var ext :- MaskedInput(es, from, value);
    var rs := InputRegisters(S, es, d, from, ext);
    if exists i :: 0 <= i < S.n && (rs[i].None? || !Sized(S.n, rs[i].value)) then None else
      var labels := seq(S.n, i requires 0 <= i < S.n => rs[i].value.entry[i]);
      Some(seq(S.n, i requires 0 <= i < S.n =>
        es[i].(regs := es[i].regs[d := rs[i].value.(entry := labels, keys := rs[i].value.keys.Set(ext, labels))],
               wiresIn := es[i].wiresIn[1..],
               inputMasks := if i == from then es[i].inputMasks[1..] else es[i].inputMasks)))
  }
}
