/**
 One instruction under the four phases: the registers of all phases keep standing for the same
 wires, and every phase reads from its buffers exactly what the earlier phases wrote for it.
 */
module Simulation {
  import opened Keys
  import opened Garbling

  // ---------- plain evaluation ----------

  /** Wire values, randomize calls and gates so far, and outputs. A random wire carries its mask. */
  datatype Plain = Plain(vals: map<nat, bool>, draws: nat, gates: nat, outputs: seq<bool>)

  function PlainStep<K>(S: Setup<K>, v: Plain, s: Instruction): Plain
    requires Uses(s) <= v.vals.Keys
  {
    match s
    case Op(d, a, b, f) =>
      v.(vals := v.vals[d := f[Index(v.vals[a], v.vals[b])]], draws := v.draws + 1, gates := v.gates + 1)
    case Xor(d, a, b) =>
      v.(vals := v.vals[d := v.vals[a] != v.vals[b]])
    case Input(d, _, value) =>
      v.(vals := v.vals[d := value], draws := v.draws + 1)
    case PublicInput(d, value) =>
      v.(vals := v.vals[d := value])
    case Random(d) =>
      v.(vals := v.vals[d := S.coin(v.draws)], draws := v.draws + 1)
    case Output(r) =>
      v.(outputs := v.outputs + [v.vals[r]])
    case Copy(d, a) =>
      v.(vals := v.vals[d := v.vals[a]])
  }

  // ---------- well-formed programs ----------

  function Uses(s: Instruction): set<nat> {
    match s
    case Op(_, a, b, _) => {a, b}
    case Xor(_, a, b) => {a, b}
    case Output(r) => {r}
    case Copy(_, a) => {a}
    case _ => {}
  }

  function Defines(s: Instruction): set<nat> {
    if s.Output? then {} else {s.dest}
  }

  /** Operands are defined, a gate does not overwrite its operands, and inputs come from a party. */
  predicate Allowed(n: nat, defined: set<nat>, s: Instruction) {
    && Uses(s) <= defined
    && (s.Op? ==> s.dest !in Uses(s))
    && (s.Input? ==> s.from < n)
  }

  predicate WellFormed(n: nat, defined: set<nat>, prog: seq<Instruction>)
    decreases |prog|
  {
    prog == [] || (Allowed(n, defined, prog[0]) && WellFormed(n, defined + Defines(prog[0]), prog[1..]))
  }

  // ---------- what relates the phases ----------

  ghost predicate RandomReg<K>(S: Setup<K>, a: Reg<K>) {
    && Sized(S.n, a) && a.mask.Some? && |S.deltas| == S.n
    && a.keys.yes == XorVec(S.G, a.keys.no, S.deltas)
  }

  ghost predicate PRFReg<K>(S: Setup<K>, i: nat, a: Reg<K>, q: Reg<K>) {
    && Sized(S.n, a) && Sized(S.n, q) && i < S.n
    && q.keys.no[i] == a.keys.no[i] && q.keys.yes[i] == a.keys.yes[i]
  }

  ghost predicate GarbleReg<K>(S: Setup<K>, a: Reg<K>, g: Reg<K>) {
    Sized(S.n, g) && g.mask == a.mask
  }

  ghost predicate EvalReg<K>(S: Setup<K>, a: Reg<K>, e: Reg<K>, val: bool) {
    && a.mask.Some? && Sized(S.n, e)
    && e.external == Some(val != a.mask.value)
    && e.entry == a.keys.At(val != a.mask.value)
  }

  ghost predicate RandomRegs<K>(S: Setup<K>, rr: map<nat, Reg<K>>, v: Plain) {
    rr.Keys == v.vals.Keys && forall w :: w in rr ==> RandomReg(S, rr[w])
  }

  ghost predicate PRFRegs<K>(S: Setup<K>, i: nat, rr: map<nat, Reg<K>>, pr: map<nat, Reg<K>>, v: Plain) {
    rr.Keys == pr.Keys == v.vals.Keys && forall w :: w in pr ==> PRFReg(S, i, rr[w], pr[w])
  }

  ghost predicate GarbleRegs<K>(S: Setup<K>, rr: map<nat, Reg<K>>, gr: map<nat, Reg<K>>, v: Plain) {
    rr.Keys == gr.Keys == v.vals.Keys && forall w :: w in gr ==> GarbleReg(S, rr[w], gr[w])
  }

  ghost predicate EvalRegs<K>(S: Setup<K>, rr: map<nat, Reg<K>>, er: map<nat, Reg<K>>, v: Plain) {
    rr.Keys == er.Keys == v.vals.Keys && forall w :: w in er ==> EvalReg(S, rr[w], er[w], v.vals[w])
  }

  /** What a step appended to a buffer. */
  ghost function Sent<T>(before: seq<T>, after: seq<T>): seq<T> {
    if |before| <= |after| then after[|before|..] else []
  }

  // ---------- the steps as a machine ----------

  /** The step functions of the phases; local is what a party does on its own in the last one. */
  datatype Phases<!K> = Phases(
    random: (RandomState<K>, Instruction) -> Option<RandomState<K>>,
    prf: (nat, PRFState<K>, Instruction) -> Option<PRFState<K>>,
    garble: (GarbleState<K>, Instruction) -> Option<GarbleState<K>>,
    local: (nat, EvalState<K>, Instruction) -> Option<EvalState<K>>)

  function AllPhases<K(==)>(S: Setup<K>): Phases<K> {
    Phases((r: RandomState<K>, s: Instruction) => RandomStep(S, r, s),
            (i: nat, p: PRFState<K>, s: Instruction) => if i < S.n then PRFStep(S, i, p, s) else None,
            (g: GarbleState<K>, s: Instruction) => GarbleStep(S, g, s),
            (i: nat, e: EvalState<K>, s: Instruction) => if i < S.n && !s.Input? then EvalLocal(S, i, e, s) else None)
  }

  ghost predicate RandomLaw<K>(S: Setup<K>, M: Phases<K>, r: RandomState<K>, s: Instruction) {
    M.random(r, s) == RandomStep(S, r, s)
  }

  ghost predicate PRFLaw<K>(S: Setup<K>, M: Phases<K>, i: nat, p: PRFState<K>, s: Instruction) {
    i < S.n ==> M.prf(i, p, s) == PRFStep(S, i, p, s)
  }

  ghost predicate GarbleLaw<K>(S: Setup<K>, M: Phases<K>, g: GarbleState<K>, s: Instruction) {
    M.garble(g, s) == GarbleStep(S, g, s)
  }

  ghost predicate LocalLaw<K>(S: Setup<K>, M: Phases<K>, i: nat, e: EvalState<K>, s: Instruction) {
    i < S.n && !s.Input? ==> M.local(i, e, s) == EvalLocal(S, i, e, s)
  }

  /** M takes the steps of Garbling; a proof asserts the laws that it needs. */
  ghost predicate ArePhases<K(!new)>(S: Setup<K>, M: Phases<K>) {
    && (forall r, s :: RandomLaw(S, M, r, s))
    && (forall i: nat, p, s :: PRFLaw(S, M, i, p, s))
    && (forall g, s :: GarbleLaw(S, M, g, s))
    && (forall i: nat, e, s :: LocalLaw(S, M, i, e, s))
  }

  lemma AllPhasesAre<K(!new)>(S: Setup<K>)
    ensures ArePhases(S, AllPhases(S))
  {
  }

  // ---------- Random ----------

  lemma RandomStepOk<K(!new)>(S: Setup<K>, M: Phases<K>, s: Instruction, r: RandomState<K>, v: Plain)
    requires ArePhases(S, M)
    requires ValidSetup(S) && Allowed(S.n, v.vals.Keys, s)
    requires |r.msgKeys| == |r.inputMasks| == S.n && r.draws == v.draws
    requires RandomRegs(S, r.regs, v)
    ensures M.random(r, s).Some?
    ensures var r1, v1 := M.random(r, s).value, PlainStep(S, v, s);
            && RandomRegs(S, r1.regs, v1) && r1.draws == v1.draws
            && |r1.msgKeys| == |r1.inputMasks| == S.n
  {
    assert RandomLaw(S, M, r, s);
    if s.PublicInput? {
      var z := ZeroVec(S.G, S.n);
      forall i | 0 <= i < S.n
        ensures S.G.xor(S.deltas[i], S.deltas[i]) == S.G.zero && S.G.xor(S.G.zero, S.deltas[i]) == S.deltas[i]
      {
        assert XorSelf(S.G, S.deltas[i]);
      }
      assert XorVec(S.G, z, S.deltas) == S.deltas;
      assert XorVec(S.G, S.deltas, S.deltas) == z;
    }
  }

  /** What randomize sends to party i: its two keys, and for a random wire everybody's zero-keys. */
  lemma FreshWireSent<K(!new)>(S: Setup<K>, M: Phases<K>, i: nat, s: Instruction, r: RandomState<K>, r1: RandomState<K>)
    requires ArePhases(S, M)
    requires |S.deltas| == S.n && i < S.n
    requires |r.msgKeys| == |r.inputMasks| == S.n
    requires M.random(r, s) == Some(r1) && (s.Op? || s.Input? || s.Random?)
    ensures var a := Randomize(S, Get(S.G, S.n, r.regs, s.dest), r.draws);
            && r1.regs == r.regs[s.dest := a]
            && |r1.msgKeys| == S.n && |a.keys.no| == |a.keys.yes| == S.n
            && Sent(r.msgKeys[i], r1.msgKeys[i]) == [a.keys.no[i], a.keys.yes[i]]
              + (if s.Random? then a.keys.no else [])
            && Sent(r.wires, r1.wires) == StoredWire(a)
  {
    assert RandomLaw(S, M, r, s);
  }

  lemma NothingSent<K(!new)>(S: Setup<K>, M: Phases<K>, i: nat, s: Instruction, r: RandomState<K>, r1: RandomState<K>)
    requires ArePhases(S, M)
    requires |r.msgKeys| == S.n && i < S.n
    requires M.random(r, s) == Some(r1) && !s.Op? && !s.Input? && !s.Random?
    ensures |r1.msgKeys| == S.n && Sent(r.msgKeys[i], r1.msgKeys[i]) == []
  {
    assert RandomLaw(S, M, r, s);
  }

  // ---------- PRF ----------

  lemma PRFRegsSet<K>(S: Setup<K>, i: nat, rr: map<nat, Reg<K>>, pr: map<nat, Reg<K>>, v: Plain,
                      d: nat, a: Reg<K>, q: Reg<K>, v1: Plain)
    requires PRFRegs(S, i, rr, pr, v) && PRFReg(S, i, a, q)
    requires v1.vals.Keys == v.vals.Keys + {d}
    ensures PRFRegs(S, i, rr[d := a], pr[d := q], v1)
  {
  }

  /** Receiving the keys of a fresh wire. */
  lemma ReceiveOk<K>(S: Setup<K>, i: nat, a: Reg<K>, q: Reg<K>, tape: seq<K>, rest: seq<K>)
    requires i < S.n && Sized(S.n, a) && Sized(S.n, q)
    requires tape == [a.keys.no[i], a.keys.yes[i]] + rest
    ensures ReceiveKeys(S.n, i, q, tape).Some? && PRFReg(S, i, a, ReceiveKeys(S.n, i, q, tape).value)
    ensures tape[2..] == rest
    ensures |rest| >= S.n && rest[..S.n] == a.keys.no ==>
      var q1 := ReceiveAllKeys(S.n, ReceiveKeys(S.n, i, q, tape).value, false, rest);
      q1.Some? && PRFReg(S, i, a, q1.value) && q1.value.keys.no == a.keys.no
  {
  }

  /** Before and after a step, the registers that a phase may read are sized. */
  lemma PRFGetSized<K>(S: Setup<K>, i: nat, rr: map<nat, Reg<K>>, pr: map<nat, Reg<K>>, v: Plain, w: nat)
    requires PRFRegs(S, i, rr, pr, v) && RandomRegs(S, rr, v)
    ensures Sized(S.n, Get(S.G, S.n, pr, w)) && Sized(S.n, Get(S.G, S.n, rr, w))
  {
  }

  /** What the PRF step does for a random wire, once the keys have been received. */
  lemma PRFRandomIs<K(!new)>(S: Setup<K>, M: Phases<K>, i: nat, s: Instruction, p: PRFState<K>, q0: Reg<K>, q1: Reg<K>)
    requires ArePhases(S, M) && i < S.n && s.Random?
    requires ReceiveKeys(S.n, i, Get(S.G, S.n, p.regs, s.dest), p.keysIn) == Some(q0)
    requires |p.keysIn| >= 2 && ReceiveAllKeys(S.n, q0, false, p.keysIn[2..]) == Some(q1)
    ensures |p.keysIn| >= 2 + S.n && i < |q1.keys.no|
    ensures M.prf(i, p, s) == Some(p.(regs := p.regs[s.dest := q1], keysIn := p.keysIn[2 + S.n..],
                                      wires := p.wires + [q1.keys.no[i]] + q1.keys.no))
  {
    assert PRFLaw(S, M, i, p, s);
  }

  lemma PRFRandomOk<K(!new)>(S: Setup<K>, M: Phases<K>, i: nat, s: Instruction, r: RandomState<K>, r1: RandomState<K>,
                             p: PRFState<K>, v: Plain, rest: seq<K>)
    requires ArePhases(S, M)
    requires ValidSetup(S) && i < S.n && s.Random?
    requires |r.msgKeys| == |r.inputMasks| == S.n
    requires RandomRegs(S, r.regs, v) && PRFRegs(S, i, r.regs, p.regs, v)
    requires M.random(r, s) == Some(r1) && |r1.msgKeys| == S.n
    requires p.keysIn == Sent(r.msgKeys[i], r1.msgKeys[i]) + rest
    ensures M.prf(i, p, s).Some?
    ensures var p1 := M.prf(i, p, s).value;
            && p1.keysIn == rest && p1.gates == p.gates
            && PRFRegs(S, i, r1.regs, p1.regs, PlainStep(S, v, s))
  {
    var d := s.dest;
    FreshWireSent(S, M, i, s, r, r1);
    PRFGetSized(S, i, r.regs, p.regs, v, d);
    var a, q := r1.regs[d], Get(S.G, S.n, p.regs, d);
    var more := a.keys.no + rest;
    assert p.keysIn == [a.keys.no[i], a.keys.yes[i]] + more;
    ReceiveOk(S, i, a, q, p.keysIn, more);
    assert more[..S.n] == a.keys.no;
    var q1 := ReceiveAllKeys(S.n, ReceiveKeys(S.n, i, q, p.keysIn).value, false, more).value;
    PRFRegsSet(S, i, r.regs, p.regs, v, d, a, q1, PlainStep(S, v, s));
    PRFRandomIs(S, M, i, s, p, ReceiveKeys(S.n, i, q, p.keysIn).value, q1);
    assert p.keysIn[2 + S.n..] == rest;
  }

  lemma PRFFreshIs<K(!new)>(S: Setup<K>, M: Phases<K>, i: nat, s: Instruction, p: PRFState<K>, q0: Reg<K>)
    requires ArePhases(S, M) && i < S.n && (s.Op? || s.Input?)
    requires ReceiveKeys(S.n, i, Get(S.G, S.n, p.regs, s.dest), p.keysIn) == Some(q0)
    requires s.Op? ==>
      Sized(S.n, Get(S.G, S.n, p.regs[s.dest := q0], s.left))
      && Sized(S.n, Get(S.G, S.n, p.regs[s.dest := q0], s.right))
    ensures |p.keysIn| >= 2 && M.prf(i, p, s).Some?
    ensures var p1 := M.prf(i, p, s).value;
      && p1.regs == p.regs[s.dest := q0] && p1.keysIn == p.keysIn[2..] && p1.gates == p.gates + (if s.Op? then 1 else 0)
  {
    assert PRFLaw(S, M, i, p, s);
  }

  lemma PRFFreshOk<K(!new)>(S: Setup<K>, M: Phases<K>, i: nat, s: Instruction, r: RandomState<K>, r1: RandomState<K>,
                            p: PRFState<K>, v: Plain, rest: seq<K>)
    requires ArePhases(S, M)
    requires ValidSetup(S) && Allowed(S.n, v.vals.Keys, s) && i < S.n && (s.Op? || s.Input?)
    requires |r.msgKeys| == |r.inputMasks| == S.n
    requires RandomRegs(S, r.regs, v) && PRFRegs(S, i, r.regs, p.regs, v)
    requires M.random(r, s) == Some(r1) && |r1.msgKeys| == S.n
    requires p.keysIn == Sent(r.msgKeys[i], r1.msgKeys[i]) + rest
    ensures M.prf(i, p, s).Some?
    ensures var p1 := M.prf(i, p, s).value;
            && p1.keysIn == rest
            && PRFRegs(S, i, r1.regs, p1.regs, PlainStep(S, v, s))
            && p1.gates == p.gates + (if s.Op? then 1 else 0)
  {
    var q0 := FreshRegs(S, M, i, s, r, r1, p, v, rest);
    if s.Op? {
      OperandSized(S, i, r.regs, p.regs, v, s.dest, q0, s.left);
      OperandSized(S, i, r.regs, p.regs, v, s.dest, q0, s.right);
    }
    PRFFreshIs(S, M, i, s, p, q0);
  }

  /** The register that receives the fresh keys. */
  lemma FreshRegs<K(!new)>(S: Setup<K>, M: Phases<K>, i: nat, s: Instruction, r: RandomState<K>, r1: RandomState<K>,
                           p: PRFState<K>, v: Plain, rest: seq<K>) returns (q0: Reg<K>)
    requires ArePhases(S, M)
    requires ValidSetup(S) && Allowed(S.n, v.vals.Keys, s) && i < S.n && (s.Op? || s.Input?)
    requires |r.msgKeys| == |r.inputMasks| == S.n
    requires RandomRegs(S, r.regs, v) && PRFRegs(S, i, r.regs, p.regs, v)
    requires M.random(r, s) == Some(r1) && |r1.msgKeys| == S.n
    requires p.keysIn == Sent(r.msgKeys[i], r1.msgKeys[i]) + rest
    ensures ReceiveKeys(S.n, i, Get(S.G, S.n, p.regs, s.dest), p.keysIn) == Some(q0)
    ensures |p.keysIn| >= 2 && p.keysIn[2..] == rest
    ensures PRFRegs(S, i, r1.regs, p.regs[s.dest := q0], PlainStep(S, v, s))
  {
    var d := s.dest;
    FreshWireSent(S, M, i, s, r, r1);
    PRFGetSized(S, i, r.regs, p.regs, v, d);
    var a, q := r1.regs[d], Get(S.G, S.n, p.regs, d);
    var own := [a.keys.no[i], a.keys.yes[i]];
    assert own + [] == own && PlainStep(S, v, s).vals.Keys == v.vals.Keys + {d};
    ReceiveOk(S, i, a, q, p.keysIn, rest);
    q0 := ReceiveKeys(S.n, i, q, p.keysIn).value;
    PRFRegsSet(S, i, r.regs, p.regs, v, d, a, q0, PlainStep(S, v, s));
  }

  lemma OperandSized<K>(S: Setup<K>, i: nat, rr: map<nat, Reg<K>>, pr: map<nat, Reg<K>>, v: Plain, d: nat, q: Reg<K>,
                        w: nat)
    requires PRFRegs(S, i, rr, pr, v) && w in v.vals && w != d
    ensures Sized(S.n, Get(S.G, S.n, pr[d := q], w))
  {
    assert PRFReg(S, i, rr[w], pr[w]);
  }

  lemma PRFXorOk<K>(S: Setup<K>, i: nat, d: Reg<K>, al: Reg<K>, ar: Reg<K>, ad: Reg<K>, l: Reg<K>, q: Reg<K>, x: Reg<K>)
    requires i < S.n && |S.deltas| == S.n && Sized(S.n, d)
    requires PRFReg(S, i, al, l) && PRFReg(S, i, ar, q) && Sized(S.n, ad)
    requires RandomXor(S, ad, al, ar) == Some(x)
    ensures PRFXor(S, i, d, l, q).Some? && PRFReg(S, i, x, PRFXor(S, i, d, l, q).value)
  {
  }

  lemma PRFPublicOk<K>(S: Setup<K>, i: nat, d: Reg<K>, ad: Reg<K>, value: bool)
    requires i < S.n && |S.deltas| == S.n && Sized(S.n, d) && Sized(S.n, ad)
    ensures PRFPublic(S, i, d, value).Some? && PRFReg(S, i, RandomPublic(S, ad, value), PRFPublic(S, i, d, value).value)
  {
  }

  lemma PRFOutputOk<K(!new)>(S: Setup<K>, M: Phases<K>, i: nat, s: Instruction, r: RandomState<K>, r1: RandomState<K>,
                             p: PRFState<K>, v: Plain)
    requires ArePhases(S, M)
    requires s.Output? && s.reg in v.vals && i < S.n && PRFRegs(S, i, r.regs, p.regs, v)
    requires M.random(r, s) == Some(r1)
    ensures M.prf(i, p, s).Some?
    ensures var p1 := M.prf(i, p, s).value; p1 == p.(wires := p1.wires)
    ensures PRFRegs(S, i, r1.regs, p.regs, PlainStep(S, v, s))
  {
    assert RandomLaw(S, M, r, s) && PRFLaw(S, M, i, p, s);
    assert PRFReg(S, i, r.regs[s.reg], p.regs[s.reg]);
  }

  lemma PRFQuietReg<K(!new)>(S: Setup<K>, M: Phases<K>, i: nat, s: Instruction, r: RandomState<K>, r1: RandomState<K>,
                             p: PRFState<K>, v: Plain) returns (w: Reg<K>)
    requires ArePhases(S, M)
    requires ValidSetup(S) && Allowed(S.n, v.vals.Keys, s) && i < S.n && (s.Xor? || s.PublicInput? || s.Copy?)
    requires RandomRegs(S, r.regs, v) && PRFRegs(S, i, r.regs, p.regs, v)
    requires M.random(r, s) == Some(r1)
    ensures M.prf(i, p, s) == Some(p.(regs := p.regs[s.dest := w]))
    ensures s.dest in r1.regs && r1.regs == r.regs[s.dest := r1.regs[s.dest]] && PRFReg(S, i, r1.regs[s.dest], w)
  {
    assert RandomLaw(S, M, r, s) && PRFLaw(S, M, i, p, s);
    PRFGetSized(S, i, r.regs, p.regs, v, s.dest);
    var d, ad := Get(S.G, S.n, p.regs, s.dest), Get(S.G, S.n, r.regs, s.dest);
    match s
    case Copy(_, a) =>
      w := p.regs[a];
    case Xor(_, a, b) =>
      PRFXorOk(S, i, d, r.regs[a], r.regs[b], ad, p.regs[a], p.regs[b], r1.regs[s.dest]);
      w := PRFXor(S, i, d, p.regs[a], p.regs[b]).value;
    case PublicInput(_, value) =>
      PRFPublicOk(S, i, d, ad, value);
      w := PRFPublic(S, i, d, value).value;
  }

  /** Instructions for which the trusted party sends nothing. */
  lemma PRFSilentOk<K(!new)>(S: Setup<K>, M: Phases<K>, i: nat, s: Instruction, r: RandomState<K>,
                             r1: RandomState<K>, p: PRFState<K>, v: Plain, rest: seq<K>)
    requires ArePhases(S, M)
    requires ValidSetup(S) && Allowed(S.n, v.vals.Keys, s) && i < S.n && !s.Random? && !s.Op? && !s.Input?
    requires |r.msgKeys| == |r.inputMasks| == S.n
    requires RandomRegs(S, r.regs, v) && PRFRegs(S, i, r.regs, p.regs, v)
    requires M.random(r, s) == Some(r1) && |r1.msgKeys| == S.n
    requires p.keysIn == Sent(r.msgKeys[i], r1.msgKeys[i]) + rest
    ensures M.prf(i, p, s).Some?
    ensures var p1 := M.prf(i, p, s).value;
            && p1.keysIn == rest
            && PRFRegs(S, i, r1.regs, p1.regs, PlainStep(S, v, s))
            && p1.gates == p.gates
  {
    NothingSent(S, M, i, s, r, r1);
    assert p.keysIn == rest;
    if s.Output? {
      PRFOutputOk(S, M, i, s, r, r1, p, v);
    } else {
      var w := PRFQuietReg(S, M, i, s, r, r1, p, v);
      PRFRegsSet(S, i, r.regs, p.regs, v, s.dest, r1.regs[s.dest], w, PlainStep(S, v, s));
    }
  }

  lemma PRFStepOk<K(!new)>(S: Setup<K>, M: Phases<K>, i: nat, s: Instruction, r: RandomState<K>, r1: RandomState<K>,
                           p: PRFState<K>, v: Plain, rest: seq<K>)
    requires ArePhases(S, M)
    requires ValidSetup(S) && Allowed(S.n, v.vals.Keys, s) && i < S.n
    requires |r.msgKeys| == |r.inputMasks| == S.n && r.draws == v.draws
    requires RandomRegs(S, r.regs, v) && PRFRegs(S, i, r.regs, p.regs, v)
    requires M.random(r, s) == Some(r1) && |r1.msgKeys| == S.n
    requires p.keysIn == Sent(r.msgKeys[i], r1.msgKeys[i]) + rest
    ensures M.prf(i, p, s).Some?
    ensures var p1 := M.prf(i, p, s).value;
            && p1.keysIn == rest
            && PRFRegs(S, i, r1.regs, p1.regs, PlainStep(S, v, s))
            && p1.gates == p.gates + (if s.Op? then 1 else 0)
  {
    if s.Random? {
      PRFRandomOk(S, M, i, s, r, r1, p, v, rest);
    } else if s.Op? || s.Input? {
      PRFFreshOk(S, M, i, s, r, r1, p, v, rest);
    } else {
      PRFSilentOk(S, M, i, s, r, r1, p, v, rest);
    }
  }

  // ---------- Garble ----------

  lemma GarbleRegsSet<K>(S: Setup<K>, rr: map<nat, Reg<K>>, gr: map<nat, Reg<K>>, v: Plain,
                         d: nat, a: Reg<K>, g: Reg<K>, v1: Plain)
    requires GarbleRegs(S, rr, gr, v) && GarbleReg(S, a, g)
    requires v1.vals.Keys == v.vals.Keys + {d}
    ensures GarbleRegs(S, rr[d := a], gr[d := g], v1)
  {
  }

  /** Instructions with a wire of their own store it. */
  predicate Stores(s: Instruction) {
    s.Op? || s.Input? || s.PublicInput? || s.Random?
  }

  lemma WireSent<K(!new)>(S: Setup<K>, M: Phases<K>, s: Instruction, r: RandomState<K>, r1: RandomState<K>, v: Plain)
    requires ArePhases(S, M)
    requires ValidSetup(S) && RandomRegs(S, r.regs, v)
    requires M.random(r, s) == Some(r1)
    ensures Stores(s) ==>
      s.dest in r1.regs && Sized(S.n, r1.regs[s.dest]) && r1.regs == r.regs[s.dest := r1.regs[s.dest]]
    ensures Stores(s) ==> Sent(r.wires, r1.wires) == StoredWire(r1.regs[s.dest])
    ensures !Stores(s) ==> Sent(r.wires, r1.wires) == []
  {
    assert RandomLaw(S, M, r, s);
  }

  /** What the parties send in one step. */
  ghost function PRFSent<K>(p: seq<PRFState<K>>, p1: seq<PRFState<K>>): seq<seq<PRFTuple<K>>>
    requires |p| == |p1|
  {
    seq(|p|, i requires 0 <= i < |p| => Sent(p[i].prfOut, p1[i].prfOut))
  }

  ghost function Appended<T>(a: seq<seq<T>>, b: seq<seq<T>>): seq<seq<T>>
    requires |a| == |b|
  {
    seq(|a|, i requires 0 <= i < |a| => a[i] + b[i])
  }

  lemma GarbleLoadOk<K(!new)>(S: Setup<K>, M: Phases<K>, s: Instruction, r: RandomState<K>, r1: RandomState<K>,
                              g: GarbleState<K>, v: Plain, v1: Plain, rest: seq<Cell<K>>) returns (w: Reg<K>)
    requires ArePhases(S, M)
    requires ValidSetup(S) && Stores(s) && v1.vals.Keys == v.vals.Keys + {s.dest}
    requires RandomRegs(S, r.regs, v) && GarbleRegs(S, r.regs, g.regs, v)
    requires M.random(r, s) == Some(r1)
    requires g.wiresIn == Sent(r.wires, r1.wires) + rest
    ensures LoadWire(S.n, Get(S.G, S.n, g.regs, s.dest), g.wiresIn) == Some(w)
    ensures s.dest in r1.regs && w.keys == r1.regs[s.dest].keys && w.mask == r1.regs[s.dest].mask && Sized(S.n, w)
    ensures |g.wiresIn| >= 1 + 2 * S.n && g.wiresIn[1 + 2 * S.n..] == rest
    ensures GarbleRegs(S, r1.regs, g.regs[s.dest := w], v1)
  {
    WireSent(S, M, s, r, r1, v);
    var before, a := Get(S.G, S.n, g.regs, s.dest), r1.regs[s.dest];
    LoadStored(S.n, a, before, g.wiresIn, rest);
    w := before.(mask := a.mask, keys := a.keys);
    GarbleRegsSet(S, r.regs, g.regs, v, s.dest, a, w, v1);
  }

  /** All steps other than gates. */
  lemma GarbleStepOk<K(!new)>(S: Setup<K>, M: Phases<K>, s: Instruction, r: RandomState<K>, r1: RandomState<K>,
                              g: GarbleState<K>, v: Plain, rest: seq<Cell<K>>)
    requires ArePhases(S, M)
    requires ValidSetup(S) && Allowed(S.n, v.vals.Keys, s) && !s.Op?
    requires RandomRegs(S, r.regs, v) && GarbleRegs(S, r.regs, g.regs, v)
    requires M.random(r, s) == Some(r1)
    requires g.wiresIn == Sent(r.wires, r1.wires) + rest
    ensures M.garble(g, s).Some?
    ensures var g1 := M.garble(g, s).value;
            && g1.wiresIn == rest && g1.prfIn == g.prfIn && g1.circuit == g.circuit
            && GarbleRegs(S, r1.regs, g1.regs, PlainStep(S, v, s))
  {
    if Stores(s) {
      assert GarbleLaw(S, M, g, s);
      var w := GarbleLoadOk(S, M, s, r, r1, g, v, PlainStep(S, v, s), rest);
    } else {
      GarbleQuietOk(S, M, s, r, r1, g, v, rest);
    }
  }

  lemma GarbleQuietOk<K(!new)>(S: Setup<K>, M: Phases<K>, s: Instruction, r: RandomState<K>, r1: RandomState<K>,
                               g: GarbleState<K>, v: Plain, rest: seq<Cell<K>>)
    requires ArePhases(S, M)
    requires ValidSetup(S) && Allowed(S.n, v.vals.Keys, s) && !Stores(s)
    requires RandomRegs(S, r.regs, v) && GarbleRegs(S, r.regs, g.regs, v)
    requires M.random(r, s) == Some(r1)
    requires g.wiresIn == Sent(r.wires, r1.wires) + rest
    ensures M.garble(g, s).Some?
    ensures var g1 := M.garble(g, s).value;
            && g1.wiresIn == rest && g1.prfIn == g.prfIn && g1.circuit == g.circuit
            && GarbleRegs(S, r1.regs, g1.regs, PlainStep(S, v, s))
  {
    assert RandomLaw(S, M, r, s) && GarbleLaw(S, M, g, s);
    var v1 := PlainStep(S, v, s);
    WireSent(S, M, s, r, r1, v);
    match s
    case Output(_) =>
    case Copy(d, a) =>
      GarbleRegsSet(S, r.regs, g.regs, v, d, r.regs[a], g.regs[a], v1);
    case Xor(d, a, b) =>
      var w := Get(S.G, S.n, g.regs, d).(mask := Some(g.regs[a].mask.value != g.regs[b].mask.value));
      GarbleRegsSet(S, r.regs, g.regs, v, d, r1.regs[d], w, v1);
  }

  /** A gate: the circuit grows by its four rows, and the n tuples of every party are used up. */
  lemma GarbleOpOk<K(!new)>(S: Setup<K>, M: Phases<K>, s: Instruction, r: RandomState<K>, r1: RandomState<K>,
                            g: GarbleState<K>, v: Plain, rest: seq<Cell<K>>,
                            now: seq<seq<PRFTuple<K>>>, later: seq<seq<PRFTuple<K>>>)
    requires ArePhases(S, M)
    requires ValidSetup(S) && Allowed(S.n, v.vals.Keys, s) && s.Op?
    requires RandomRegs(S, r.regs, v) && GarbleRegs(S, r.regs, g.regs, v)
    requires M.random(r, s) == Some(r1) && |r.msgKeys| == |r.inputMasks| == S.n && r.draws == v.draws
    requires g.wiresIn == Sent(r.wires, r1.wires) + rest
    requires |now| == |later| == S.n && g.prfIn == Appended(now, later)
    requires forall i :: 0 <= i < S.n ==> |now[i]| == S.n
    ensures M.garble(g, s).Some? && s.dest in r1.regs
    ensures var g1 := M.garble(g, s).value; var a := r1.regs[s.dest];
            && g1.wiresIn == rest && g1.prfIn == later
            && GarbleRegs(S, r1.regs, g1.regs, PlainStep(S, v, s))
            && RandomReg(S, a) && s.left in r.regs && s.right in r.regs && TuplesFit(S.n, now)
            && g1.circuit == g.circuit + GarbledGate(S, s.func, r.regs[s.left].mask.value, r.regs[s.right].mask.value,
                                                     a, now)
  {
    AppendedParts(S.n, g.prfIn, now, later);
    var w := GarbleOpReg(S, M, s, r, r1, g, v, rest);
    RandomStepOk(S, M, s, r, v);
    GarbledGateNow(S, s.func, r.regs[s.left].mask.value, r.regs[s.right].mask.value, w, r1.regs[s.dest], g.prfIn, now);
  }

  lemma GarbleOpReg<K(!new)>(S: Setup<K>, M: Phases<K>, s: Instruction, r: RandomState<K>, r1: RandomState<K>,
                             g: GarbleState<K>, v: Plain, rest: seq<Cell<K>>) returns (w: Reg<K>)
    requires ArePhases(S, M)
    requires ValidSetup(S) && Allowed(S.n, v.vals.Keys, s) && s.Op?
    requires RandomRegs(S, r.regs, v) && GarbleRegs(S, r.regs, g.regs, v)
    requires M.random(r, s) == Some(r1)
    requires g.wiresIn == Sent(r.wires, r1.wires) + rest
    requires TuplesFit(S.n, g.prfIn)
    ensures s.dest in r1.regs && w.keys == r1.regs[s.dest].keys && w.mask == r1.regs[s.dest].mask && Sized(S.n, w)
    ensures Sized(S.n, r1.regs[s.dest]) && w.mask.Some?
    ensures M.garble(g, s) == Some(GarbleState(g.regs[s.dest := w], rest, DropTuples(S.n, g.prfIn),
      g.circuit + GarbledGate(S, s.func, r.regs[s.left].mask.value, r.regs[s.right].mask.value, w, g.prfIn)))
    ensures GarbleRegs(S, r1.regs, g.regs[s.dest := w], PlainStep(S, v, s))
  {
    assert RandomLaw(S, M, r, s);
    WireSent(S, M, s, r, r1, v);
    w := GarbleLoadOk(S, M, s, r, r1, g, v, PlainStep(S, v, s), rest);
    GarbleStepIs(S, M, s, r.regs, g, v, w, rest);
  }

  lemma GarbleStepIs<K(!new)>(S: Setup<K>, M: Phases<K>, s: Instruction, rr: map<nat, Reg<K>>, g: GarbleState<K>,
                              v: Plain, w: Reg<K>, rest: seq<Cell<K>>)
    requires ArePhases(S, M)
    requires s.Op? && Allowed(S.n, v.vals.Keys, s) && RandomRegs(S, rr, v) && GarbleRegs(S, rr, g.regs, v)
    requires TuplesFit(S.n, g.prfIn) && Sized(S.n, w) && w.mask.Some?
    requires LoadWire(S.n, Get(S.G, S.n, g.regs, s.dest), g.wiresIn) == Some(w)
    requires |g.wiresIn| >= 1 + 2 * S.n && g.wiresIn[1 + 2 * S.n..] == rest
    ensures M.garble(g, s) == Some(GarbleState(g.regs[s.dest := w], rest, DropTuples(S.n, g.prfIn),
      g.circuit + GarbledGate(S, s.func, rr[s.left].mask.value, rr[s.right].mask.value, w, g.prfIn)))
  {
    assert GarbleLaw(S, M, g, s);
    assert GarbleReg(S, rr[s.left], g.regs[s.left]) && GarbleReg(S, rr[s.right], g.regs[s.right]);
  }

  lemma AppendedParts<K>(n: nat, prfIn: seq<seq<PRFTuple<K>>>, now: seq<seq<PRFTuple<K>>>, later: seq<seq<PRFTuple<K>>>)
    requires |now| == |later| == n && prfIn == Appended(now, later)
    requires forall i :: 0 <= i < n ==> |now[i]| == n
    ensures TuplesFit(n, prfIn) && TuplesFit(n, now) && DropTuples(n, prfIn) == later
    ensures forall i :: 0 <= i < n ==> prfIn[i][..n] == now[i]
  {
  }

  /** A row depends on the first n tuples of each stream only. */
  lemma {:induction false} RowSumNow<K>(S: Setup<K>, prfIn: seq<seq<PRFTuple<K>>>, now: seq<seq<PRFTuple<K>>>,
                                        sl: bool, sr: bool, j: nat, m: nat)
    requires TuplesFit(S.n, prfIn) && TuplesFit(S.n, now) && j < S.n && m <= S.n
    requires forall i :: 0 <= i < S.n ==> prfIn[i][..S.n] == now[i]
    ensures RowSum(S, prfIn, sl, sr, j, m) == RowSum(S, now, sl, sr, j, m)
  {
    if m > 0 {
      RowSumNow(S, prfIn, now, sl, sr, j, m - 1);
      assert prfIn[m - 1][j] == now[m - 1][j];
    }
  }

  lemma GarbledRowNow<K>(S: Setup<K>, prfIn: seq<seq<PRFTuple<K>>>, now: seq<seq<PRFTuple<K>>>, out: seq<K>,
                         sl: bool, sr: bool)
    requires TuplesFit(S.n, prfIn) && TuplesFit(S.n, now) && |out| == S.n
    requires forall i :: 0 <= i < S.n ==> prfIn[i][..S.n] == now[i]
    ensures GarbledRow(S, prfIn, out, sl, sr) == GarbledRow(S, now, out, sl, sr)
  {
    forall j | 0 <= j < S.n
      ensures GarbledRow(S, prfIn, out, sl, sr)[j] == GarbledRow(S, now, out, sl, sr)[j]
    {
      RowSumNow(S, prfIn, now, sl, sr, j, S.n);
    }
  }

  lemma GarbledGateNow<K>(S: Setup<K>, func: Function, l: bool, r: bool, w: Reg<K>, a: Reg<K>,
                          prfIn: seq<seq<PRFTuple<K>>>, now: seq<seq<PRFTuple<K>>>)
    requires TuplesFit(S.n, prfIn) && TuplesFit(S.n, now)
    requires Sized(S.n, w) && Sized(S.n, a) && w.mask == a.mask && w.mask.Some? && w.keys == a.keys
    requires forall i :: 0 <= i < S.n ==> prfIn[i][..S.n] == now[i]
    ensures GarbledGate(S, func, l, r, w, prfIn) == GarbledGate(S, func, l, r, a, now)
  {
    var o := a.mask.value;
    GarbledRowNow(S, prfIn, now, a.keys.At(RowValue(func, l, r, o, false, false)), false, false);
    GarbledRowNow(S, prfIn, now, a.keys.At(RowValue(func, l, r, o, false, true)), false, true);
    GarbledRowNow(S, prfIn, now, a.keys.At(RowValue(func, l, r, o, true, false)), true, false);
    GarbledRowNow(S, prfIn, now, a.keys.At(RowValue(func, l, r, o, true, true)), true, true);
  }

  // ---------- Eval ----------

  lemma EvalRegsSet<K>(S: Setup<K>, rr: map<nat, Reg<K>>, er: map<nat, Reg<K>>, v: Plain,
                       d: nat, a: Reg<K>, e: Reg<K>, val: bool, v1: Plain)
    requires EvalRegs(S, rr, er, v) && EvalReg(S, a, e, val)
    requires v1.vals == v.vals[d := val]
    ensures EvalRegs(S, rr[d := a], er[d := e], v1)
  {
  }

  /** The stream of party k for one gate: its function on its keys of the two operands. */
  ghost predicate GateStream<K>(S: Setup<K>, k: nat, al: Reg<K>, ar: Reg<K>, gate: nat, ts: seq<PRFTuple<K>>) {
    && |ts| == S.n && Sized(S.n, al) && Sized(S.n, ar) && k < S.n
    && (forall j: nat, sl: bool, sr: bool :: j < S.n ==>
          ts[j].no.At(sl).At(sr) == S.prf(al.keys.At(sl)[k], sr, gate, j + 1))
    && (forall j: nat, sl: bool, sr: bool :: j < S.n ==>
          ts[j].yes.At(sr).At(sl) == S.prf(ar.keys.At(sr)[k], sl, gate, j + 1))
  }

  ghost predicate GateStreams<K>(S: Setup<K>, al: Reg<K>, ar: Reg<K>, gate: nat, now: seq<seq<PRFTuple<K>>>) {
    && |now| == S.n && Sized(S.n, al) && Sized(S.n, ar)
    && forall k :: 0 <= k < S.n ==> GateStream(S, k, al, ar, gate, now[k])
  }

  /** Removing the PRF values under the keys of the external values removes exactly the row's sum. */
  lemma {:induction false} PeelIsSum<K(!new)>(S: Setup<K>, al: Reg<K>, ar: Reg<K>, l: Reg<K>, r: Reg<K>, gate: nat,
                                              now: seq<seq<PRFTuple<K>>>, sl: bool, sr: bool, row: seq<K>, j: nat,
                                              m: nat)
    requires ValidSetup(S) && GateStreams(S, al, ar, gate, now) && |row| == S.n && j < S.n && m <= S.n
    requires l.entry == al.keys.At(sl) && r.entry == ar.keys.At(sr)
    ensures TuplesFit(S.n, now)
    ensures Peeled(S, l.entry, r.entry, false, false, sl, sr, gate, row, m)[j]
         == S.G.xor(row[j], RowSum(S, now, sl, sr, j, m))
  {
    var G, g := S.G, row[j];
    if m == 0 {
      assert XorSelf(G, g);
    } else {
      PeelIsSum(S, al, ar, l, r, gate, now, sl, sr, row, j, m - 1);
      var sum := RowSum(S, now, sl, sr, j, m - 1);
      var x, y := S.prf(l.entry[m - 1], sr, gate, j + 1), S.prf(r.entry[m - 1], sl, gate, j + 1);
      assert GateStream(S, m - 1, al, ar, gate, now[m - 1]);
      assert now[m - 1][j].no.At(sl).At(sr) == x && now[m - 1][j].yes.At(sr).At(sl) == y;
      assert XorAssoc(G, g, sum, x) && XorAssoc(G, g, G.xor(sum, x), y);
    }
  }

  /** Decrypting a garbled row with the matching keys yields the hidden output keys. */
  lemma PeelRow<K(!new)>(S: Setup<K>, al: Reg<K>, ar: Reg<K>, l: Reg<K>, r: Reg<K>, gate: nat,
                         now: seq<seq<PRFTuple<K>>>, sl: bool, sr: bool, out: seq<K>)
    requires ValidSetup(S) && GateStreams(S, al, ar, gate, now) && |out| == S.n
    requires l.entry == al.keys.At(sl) && r.entry == ar.keys.At(sr)
    ensures TuplesFit(S.n, now)
    ensures Peeled(S, l.entry, r.entry, false, false, sl, sr, gate, GarbledRow(S, now, out, sl, sr), S.n) == out
  {
    var row := GarbledRow(S, now, out, sl, sr);
    var res := Peeled(S, l.entry, r.entry, false, false, sl, sr, gate, row, S.n);
    forall j | 0 <= j < S.n
      ensures res[j] == out[j]
    {
      var sum := RowSum(S, now, sl, sr, j, S.n);
      PeelIsSum(S, al, ar, l, r, gate, now, sl, sr, row, j, S.n);
      assert XorComm(S.G, sum, out[j]);
      XorCancel(S.G, out[j], sum);
    }
  }

  /** The row chosen by the external values is the one garbled for them. */
  lemma ChosenRow<K>(S: Setup<K>, func: Function, ml: bool, mr: bool, a: Reg<K>, now: seq<seq<PRFTuple<K>>>,
                     sl: bool, sr: bool, rows: seq<K>, rest: seq<K>)
    requires TuplesFit(S.n, now) && Sized(S.n, a) && a.mask.Some?
    requires rows == GarbledGate(S, func, ml, mr, a, now) + rest
    ensures |rows| >= 4 * S.n && rows[4 * S.n..] == rest
    ensures var k := Index(sl, sr);
            rows[k * S.n..k * S.n + S.n]
            == GarbledRow(S, now, a.keys.At(RowValue(func, ml, mr, a.mask.value, sl, sr)), sl, sr)
  {
    var n, o := S.n, a.mask.value;
    var A := GarbledRow(S, now, a.keys.At(RowValue(func, ml, mr, o, false, false)), false, false);
    var B := GarbledRow(S, now, a.keys.At(RowValue(func, ml, mr, o, false, true)), false, true);
    var C := GarbledRow(S, now, a.keys.At(RowValue(func, ml, mr, o, true, false)), true, false);
    var D := GarbledRow(S, now, a.keys.At(RowValue(func, ml, mr, o, true, true)), true, true);
    FourParts(A, B, C, D, rest, n);
    assert rows == A + B + C + D + rest;
  }

  lemma FourParts<T>(A: seq<T>, B: seq<T>, C: seq<T>, D: seq<T>, rest: seq<T>, n: nat)
    requires |A| == |B| == |C| == |D| == n
    ensures var rows := A + B + C + D + rest;
            && |rows| >= 4 * n && rows[4 * n..] == rest
            && rows[0 * n..0 * n + n] == A && rows[1 * n..1 * n + n] == B
            && rows[2 * n..2 * n + n] == C && rows[3 * n..3 * n + n] == D
  {
  }

  /** Keys that come from randomize carry their value as the signal bit. */
  lemma FreshSignal<K(!new)>(S: Setup<K>, d: Reg<K>, draw: nat, b: bool, i: nat)
    requires ValidSetup(S) && i < S.n
    ensures var a := Randomize(S, d, draw);
            |a.keys.no| == |a.keys.yes| == S.n && S.G.signal(a.keys.At(b)[i]) == b
  {
    var a := Randomize(S, d, draw);
    var raw := S.draw(draw, i);
    assert XorSignal(S.G, raw, S.G.one);
    assert XorSignal(S.G, a.keys.no[i], S.deltas[i]);
  }

  /** A gate at one party: its register ends with the masked output value and the matching keys. */
  lemma EvalGateOk<K(!new)>(S: Setup<K>, i: nat, func: Function, al: Reg<K>, ar: Reg<K>, d0: Reg<K>, draw: nat,
                            d: Reg<K>, l: Reg<K>, r: Reg<K>, vl: bool, vr: bool, gate: nat,
                            now: seq<seq<PRFTuple<K>>>, rows: seq<K>, rest: seq<K>)
    requires ValidSetup(S) && i < S.n && Sized(S.n, d) && Sized(S.n, d0)
    requires EvalReg(S, al, l, vl) && EvalReg(S, ar, r, vr)
    requires GateStreams(S, al, ar, gate, now) && TuplesFit(S.n, now)
    requires Sized(S.n, Randomize(S, d0, draw))
    requires rows == GarbledGate(S, func, al.mask.value, ar.mask.value, Randomize(S, d0, draw), now) + rest
    ensures EvalGate(S, i, d, l, r, false, false, gate, rows).Some?
    ensures EvalReg(S, Randomize(S, d0, draw), EvalGate(S, i, d, l, r, false, false, gate, rows).value,
                    func[Index(vl, vr)])
    ensures |rows| >= 4 * S.n && rows[4 * S.n..] == rest
  {
    var a := Randomize(S, d0, draw);
    var sl, sr := vl != al.mask.value, vr != ar.mask.value;
    var x := RowValue(func, al.mask.value, ar.mask.value, a.mask.value, sl, sr);
    assert x == (func[Index(vl, vr)] != a.mask.value);
    ChosenRow(S, func, al.mask.value, ar.mask.value, a, now, sl, sr, rows, rest);
    PeelRow(S, al, ar, l, r, gate, now, sl, sr, a.keys.At(x));
    FreshSignal(S, d0, draw, x, i);
  }

  lemma EvalXorOk<K(!new)>(S: Setup<K>, al: Reg<K>, ar: Reg<K>, ad: Reg<K>, d: Reg<K>, l: Reg<K>, r: Reg<K>,
                           vl: bool, vr: bool, a: Reg<K>)
    requires ValidSetup(S) && RandomReg(S, al) && RandomReg(S, ar)
    requires EvalReg(S, al, l, vl) && EvalReg(S, ar, r, vr) && Sized(S.n, d)
    requires RandomXor(S, ad, al, ar) == Some(a)
    ensures EvalXor(S, d, l, r).Some? && EvalReg(S, a, EvalXor(S, d, l, r).value, vl != vr)
  {
    var x, y := vl != al.mask.value, vr != ar.mask.value;
    var sum := XorVec(S.G, l.entry, r.entry);
    forall i | 0 <= i < S.n
      ensures sum[i] == a.keys.At(x != y)[i]
    {
      var ln, rn, dl := al.keys.no[i], ar.keys.no[i], S.deltas[i];
      XorSwap(S.G, ln, dl, rn, dl);
      assert XorSelf(S.G, dl) && XorSelf(S.G, S.G.xor(ln, rn));
      assert XorAssoc(S.G, ln, rn, dl) && XorComm(S.G, rn, dl) && XorAssoc(S.G, ln, dl, rn);
    }
    assert sum == a.keys.At(x != y);
  }

  lemma EvalPublicOk<K(!new)>(S: Setup<K>, ad: Reg<K>, d: Reg<K>, value: bool)
    requires ValidSetup(S) && Sized(S.n, ad) && Sized(S.n, d)
    ensures EvalPublic(S, d, value).Some?
    ensures EvalReg(S, RandomPublic(S, ad, value), EvalPublic(S, d, value).value, value)
  {
  }

  /** Loading the stored zero-key restores both own keys. */
  lemma LoadKeyOk<K>(S: Setup<K>, i: nat, a: Reg<K>, e: Reg<K>, tape: seq<K>)
    requires i < S.n && RandomReg(S, a) && Sized(S.n, e) && |tape| >= 1 && tape[0] == a.keys.no[i]
    ensures LoadKey(S, i, e, tape).Some?
    ensures var r := LoadKey(S, i, e, tape).value;
            && Sized(S.n, r) && r.external == e.external && r.entry == e.entry
            && r.keys.no[i] == a.keys.no[i] && r.keys.yes[i] == a.keys.yes[i]
  {
  }

  lemma EvalGetSized<K>(S: Setup<K>, rr: map<nat, Reg<K>>, er: map<nat, Reg<K>>, v: Plain, w: nat)
    requires EvalRegs(S, rr, er, v)
    ensures Sized(S.n, Get(S.G, S.n, er, w))
  {
  }

  lemma EvalRandomOk<K(!new)>(S: Setup<K>, M: Phases<K>, i: nat, s: Instruction, d0: Reg<K>, draw: nat,
                              rr: map<nat, Reg<K>>, e: EvalState<K>, v: Plain, rest: seq<K>)
    requires ArePhases(S, M)
    requires ValidSetup(S) && i < S.n && s.Random? && v.draws == draw && Sized(S.n, d0)
    requires EvalRegs(S, rr, e.regs, v)
    requires var a := Randomize(S, d0, draw); |a.keys.no| == S.n && e.wiresIn == [a.keys.no[i]] + a.keys.no + rest
    ensures M.local(i, e, s).Some?
    ensures var e1 := M.local(i, e, s).value;
            && e1.wiresIn == rest && e1 == e.(regs := e1.regs, wiresIn := rest)
            && EvalRegs(S, rr[s.dest := Randomize(S, d0, draw)], e1.regs, PlainStep(S, v, s))
  {
    assert LocalLaw(S, M, i, e, s);
    var a, q := Randomize(S, d0, draw), Get(S.G, S.n, e.regs, s.dest);
    EvalGetSized(S, rr, e.regs, v, s.dest);
    LoadKeyOk(S, i, a, q, e.wiresIn);
    assert e.wiresIn[1..1 + S.n] == a.keys.no && e.wiresIn[1 + S.n..] == rest;
    var r := LoadKey(S, i, q, e.wiresIn).value;
    var q1 := SetExternal(r.(keys := r.keys.Set(false, a.keys.no)), false);
    EvalRegsSet(S, rr, e.regs, v, s.dest, a, q1, S.coin(draw), PlainStep(S, v, s));
  }

  /** An output passes the check of the own label and reveals the plain value. */
  lemma EvalOutputOk<K(!new)>(S: Setup<K>, M: Phases<K>, i: nat, s: Instruction, rr: map<nat, Reg<K>>,
                              e: EvalState<K>, v: Plain, restW: seq<K>, restO: seq<bool>)
    requires ArePhases(S, M)
    requires ValidSetup(S) && i < S.n && s.Output? && s.reg in v.vals
    requires RandomRegs(S, rr, v) && EvalRegs(S, rr, e.regs, v)
    requires e.wiresIn == [rr[s.reg].keys.no[i]] + restW
    requires e.outputMasks == [rr[s.reg].mask.value] + restO
    ensures M.local(i, e, s).Some?
    ensures var e1 := M.local(i, e, s).value;
            && e1 == e.(regs := e1.regs, wiresIn := restW, outputMasks := restO, outputs := e.outputs + [v.vals[s.reg]])
            && EvalRegs(S, rr, e1.regs, PlainStep(S, v, s))
  {
    assert LocalLaw(S, M, i, e, s);
    var a, q := rr[s.reg], e.regs[s.reg];
    assert EvalReg(S, a, q, v.vals[s.reg]);
    LoadKeyOk(S, i, a, q, e.wiresIn);
    var r := LoadKey(S, i, q, e.wiresIn).value;
    var q1 := r.(mask := Some(a.mask.value));
    assert EvalReg(S, a, q1, v.vals[s.reg]);
    EvalRegsSet(S, rr, e.regs, v, s.reg, a, q1, v.vals[s.reg], v);
    assert rr[s.reg := a] == rr;
  }

  lemma EvalQuietOk<K(!new)>(S: Setup<K>, M: Phases<K>, i: nat, s: Instruction, r: RandomState<K>, r1: RandomState<K>,
                             e: EvalState<K>, v: Plain)
    requires ArePhases(S, M)
    requires ValidSetup(S) && Allowed(S.n, v.vals.Keys, s) && i < S.n && (s.Xor? || s.PublicInput? || s.Copy?)
    requires RandomRegs(S, r.regs, v) && EvalRegs(S, r.regs, e.regs, v)
    requires M.random(r, s) == Some(r1)
    ensures M.local(i, e, s).Some?
    ensures var e1 := M.local(i, e, s).value;
            && e1 == e.(regs := e1.regs)
            && EvalRegs(S, r1.regs, e1.regs, PlainStep(S, v, s))
  {
    assert RandomLaw(S, M, r, s) && LocalLaw(S, M, i, e, s);
    var d, v1 := s.dest, PlainStep(S, v, s);
    var q := Get(S.G, S.n, e.regs, d);
    EvalGetSized(S, r.regs, e.regs, v, d);
    var a0 := Get(S.G, S.n, r.regs, d);
    assert Sized(S.n, a0);
    match s
    case Copy(_, a) =>
      EvalRegsSet(S, r.regs, e.regs, v, d, r.regs[a], e.regs[a], v.vals[a], v1);
    case Xor(_, a, b) =>
      EvalXorOk(S, r.regs[a], r.regs[b], a0, q, e.regs[a], e.regs[b], v.vals[a], v.vals[b], r1.regs[d]);
      EvalRegsSet(S, r.regs, e.regs, v, d, r1.regs[d], EvalXor(S, q, e.regs[a], e.regs[b]).value,
                  v.vals[a] != v.vals[b], v1);
    case PublicInput(_, value) =>
      EvalPublicOk(S, a0, q, value);
      EvalRegsSet(S, r.regs, e.regs, v, d, r1.regs[d], EvalPublic(S, q, value).value, value, v1);
  }

  lemma EvalOpOk<K(!new)>(S: Setup<K>, M: Phases<K>, i: nat, s: Instruction, r: RandomState<K>, r1: RandomState<K>,
                          e: EvalState<K>, v: Plain, now: seq<seq<PRFTuple<K>>>, rest: seq<K>)
    requires ArePhases(S, M)
    requires ValidSetup(S) && Allowed(S.n, v.vals.Keys, s) && i < S.n && s.Op?
    requires r.draws == v.draws && e.gates == v.gates
    requires RandomRegs(S, r.regs, v) && EvalRegs(S, r.regs, e.regs, v)
    requires M.random(r, s) == Some(r1) && s.dest in r1.regs && RandomReg(S, r1.regs[s.dest])
    requires GateStreams(S, r.regs[s.left], r.regs[s.right], v.gates + 1, now) && TuplesFit(S.n, now)
    requires e.circuitIn == GarbledGate(S, s.func, r.regs[s.left].mask.value, r.regs[s.right].mask.value,
                                        r1.regs[s.dest], now) + rest
    ensures M.local(i, e, s).Some?
    ensures var e1 := M.local(i, e, s).value;
            && e1 == e.(regs := e1.regs, circuitIn := rest, gates := e.gates + 1)
            && EvalRegs(S, r1.regs, e1.regs, PlainStep(S, v, s))
  {
    var v1 := PlainStep(S, v, s);
    var w := EvalOpReg(S, M, i, s, r, r1, e, v, now, rest);
    EvalRegsSet(S, r.regs, e.regs, v, s.dest, r1.regs[s.dest], w, v1.vals[s.dest], v1);
  }

  lemma EvalOpReg<K(!new)>(S: Setup<K>, M: Phases<K>, i: nat, s: Instruction, r: RandomState<K>, r1: RandomState<K>,
                           e: EvalState<K>, v: Plain, now: seq<seq<PRFTuple<K>>>, rest: seq<K>) returns (w: Reg<K>)
    requires ArePhases(S, M)
    requires ValidSetup(S) && Allowed(S.n, v.vals.Keys, s) && i < S.n && s.Op?
    requires r.draws == v.draws && e.gates == v.gates
    requires RandomRegs(S, r.regs, v) && EvalRegs(S, r.regs, e.regs, v)
    requires M.random(r, s) == Some(r1) && s.dest in r1.regs && RandomReg(S, r1.regs[s.dest])
    requires GateStreams(S, r.regs[s.left], r.regs[s.right], v.gates + 1, now) && TuplesFit(S.n, now)
    requires e.circuitIn == GarbledGate(S, s.func, r.regs[s.left].mask.value, r.regs[s.right].mask.value,
                                        r1.regs[s.dest], now) + rest
    ensures M.local(i, e, s) == Some(e.(regs := e.regs[s.dest := w], circuitIn := rest, gates := e.gates + 1))
    ensures r1.regs == r.regs[s.dest := r1.regs[s.dest]]
    ensures EvalReg(S, r1.regs[s.dest], w, s.func[Index(v.vals[s.left], v.vals[s.right])])
  {
    assert RandomLaw(S, M, r, s) && LocalLaw(S, M, i, e, s);
    var q, a0 := Get(S.G, S.n, e.regs, s.dest), Get(S.G, S.n, r.regs, s.dest);
    EvalGetSized(S, r.regs, e.regs, v, s.dest);
    assert Sized(S.n, a0);
    EvalGateOk(S, i, s.func, r.regs[s.left], r.regs[s.right], a0, r.draws, q, e.regs[s.left], e.regs[s.right],
               v.vals[s.left], v.vals[s.right], v.gates + 1, now, e.circuitIn, rest);
    w := EvalGate(S, i, q, e.regs[s.left], e.regs[s.right], false, false, e.gates + 1, e.circuitIn).value;
  }

  /** Party i before the labels are exchanged: its own label is the right one. */
  lemma InputRegisterOk<K(!new)>(S: Setup<K>, i: nat, a: Reg<K>, rr: map<nat, Reg<K>>, e: EvalState<K>, v: Plain,
                                 d: nat, ext: bool, mask: Option<bool>, rest: seq<K>)
    requires ValidSetup(S) && i < S.n && RandomReg(S, a) && EvalRegs(S, rr, e.regs, v)
      && e.wiresIn == [a.keys.no[i]] + rest
    ensures var r := InputRegister(S, i, e, d, ext, mask);
      r.Some? && Sized(S.n, r.value) && r.value.external == Some(ext) && r.value.entry[i] == a.keys.At(ext)[i]
  {
    EvalGetSized(S, rr, e.regs, v, d);
    LoadKeyOk(S, i, a, Get(S.G, S.n, e.regs, d), e.wiresIn);
  }

  /** Party i after the labels have been exchanged. */
  lemma LabelledOk<K>(S: Setup<K>, s: Instruction, a: Reg<K>, rr: map<nat, Reg<K>>, er: map<nat, Reg<K>>, v: Plain,
                      r: Reg<K>, labels: seq<K>)
    requires s.Input? && RandomReg(S, a) && EvalRegs(S, rr, er, v) && Sized(S.n, r)
    requires r.external == Some(s.value != a.mask.value) && labels == a.keys.At(s.value != a.mask.value)
    ensures EvalRegs(S, rr[s.dest := a], er[s.dest :=
                                            r.(entry := labels, keys := r.keys.Set(s.value != a.mask.value, labels))],
                     PlainStep(S, v, s))
  {
    var q := r.(entry := labels, keys := r.keys.Set(s.value != a.mask.value, labels));
    assert EvalReg(S, a, q, s.value);
    EvalRegsSet(S, rr, er, v, s.dest, a, q, s.value, PlainStep(S, v, s));
  }

  /** Input at all parties: the owner's masked bit selects the labels, which everybody learns. */
  lemma EvalInputOk<K(!new)>(S: Setup<K>, s: Instruction, d0: Reg<K>, rr: map<nat, Reg<K>>, es: seq<EvalState<K>>,
                             v: Plain, restW: seq<seq<K>>, restM: seq<bool>)
    requires ValidSetup(S) && s.Input? && s.from < S.n && Sized(S.n, d0)
    requires |es| == |restW| == S.n
    requires forall i :: 0 <= i < S.n ==> EvalRegs(S, rr, es[i].regs, v)
    requires var a := Randomize(S, d0, v.draws);
             && |a.keys.no| == S.n
             && (forall i :: 0 <= i < S.n ==> es[i].wiresIn == [a.keys.no[i]] + restW[i])
             && es[s.from].inputMasks == [a.mask.value] + restM
    ensures EvalInput(S, es, s.dest, s.from, s.value).Some?
    ensures var es1 := EvalInput(S, es, s.dest, s.from, s.value).value; var a := Randomize(S, d0, v.draws);
            && |es1| == S.n
            && (forall i :: 0 <= i < S.n ==>
                  && es1[i] == es[i].(regs := es1[i].regs, wiresIn := restW[i],
                                      inputMasks := if i == s.from then restM else es[i].inputMasks)
                  && EvalRegs(S, rr[s.dest := a], es1[i].regs, PlainStep(S, v, s)))
  {
    var d, a, ext := s.dest, Randomize(S, d0, v.draws), S.coin(v.draws) != s.value;
    assert MaskedInput(es, s.from, s.value) == Some(ext);
    assert RandomReg(S, a);
    var rs := InputRegisters(S, es, d, s.from, ext);
    forall i | 0 <= i < S.n
      ensures rs[i].Some? && Sized(S.n, rs[i].value) && rs[i].value.external == Some(ext)
      ensures rs[i].value.entry[i] == a.keys.At(ext)[i]
    {
      InputRegisterOk(S, i, a, rr, es[i], v, d, ext, OwnMask(es[i], i == s.from), restW[i]);
    }
    var labels := seq(S.n, i requires 0 <= i < S.n => rs[i].value.entry[i]);
    assert labels == a.keys.At(ext);
    var es1 := EvalInput(S, es, d, s.from, s.value).value;
    forall i | 0 <= i < S.n
      ensures es1[i] == es[i].(regs := es1[i].regs, wiresIn := restW[i],
                               inputMasks := if i == s.from then restM else es[i].inputMasks)
      ensures EvalRegs(S, rr[d := a], es1[i].regs, PlainStep(S, v, s))
    {
      LabelledOk(S, s, a, rr, es[i].regs, v, rs[i].value, labels);
    }
  }

  // ---------- what a step sends ----------

  lemma MasksSent<K(!new)>(S: Setup<K>, M: Phases<K>, s: Instruction, r: RandomState<K>, r1: RandomState<K>, v: Plain)
    requires ArePhases(S, M)
    requires Allowed(S.n, v.vals.Keys, s) && RandomRegs(S, r.regs, v)
    requires M.random(r, s) == Some(r1)
    ensures |r.inputMasks| == |r1.inputMasks| == S.n && (s.Output? ==> r1.regs == r.regs)
    ensures Sent(r.outputMasks, r1.outputMasks) == if s.Output? then [r.regs[s.reg].mask.value] else []
    ensures forall i :: 0 <= i < S.n ==>
      Sent(r.inputMasks[i], r1.inputMasks[i]) == if s.Input? && i == s.from then [S.coin(r.draws)] else []
  {
    assert RandomLaw(S, M, r, s);
  }

  /** The wire buffer of party i after an instruction that receives keys and stores its wire. */
  lemma PRFInputWire<K(!new)>(S: Setup<K>, M: Phases<K>, i: nat, s: Instruction, r: RandomState<K>, r1: RandomState<K>,
                              p: PRFState<K>, p1: PRFState<K>, v: Plain, rest: seq<K>)
    requires ArePhases(S, M)
    requires ValidSetup(S) && i < S.n && s.Input?
    requires |r.msgKeys| == |r.inputMasks| == S.n
    requires RandomRegs(S, r.regs, v) && PRFRegs(S, i, r.regs, p.regs, v)
    requires M.random(r, s) == Some(r1) && |r1.msgKeys| == S.n
    requires p.keysIn == Sent(r.msgKeys[i], r1.msgKeys[i]) + rest
    requires M.prf(i, p, s) == Some(p1)
    ensures s.dest in r1.regs && |r1.regs[s.dest].keys.no| == S.n
    ensures Sent(p.wires, p1.wires) == [r1.regs[s.dest].keys.no[i]]
  {
    assert PRFLaw(S, M, i, p, s);
    FreshWireSent(S, M, i, s, r, r1);
    PRFGetSized(S, i, r.regs, p.regs, v, s.dest);
    var a := r1.regs[s.dest];
    ReceiveOk(S, i, a, Get(S.G, S.n, p.regs, s.dest), p.keysIn, rest);
    assert p1.wires == p.wires + [a.keys.no[i]];
  }

  lemma PRFRandomWire<K(!new)>(S: Setup<K>, M: Phases<K>, i: nat, s: Instruction, r: RandomState<K>, r1: RandomState<K>,
                               p: PRFState<K>, p1: PRFState<K>, v: Plain, rest: seq<K>)
    requires ArePhases(S, M)
    requires ValidSetup(S) && i < S.n && s.Random?
    requires |r.msgKeys| == |r.inputMasks| == S.n
    requires RandomRegs(S, r.regs, v) && PRFRegs(S, i, r.regs, p.regs, v)
    requires M.random(r, s) == Some(r1) && |r1.msgKeys| == S.n
    requires p.keysIn == Sent(r.msgKeys[i], r1.msgKeys[i]) + rest
    requires M.prf(i, p, s) == Some(p1)
    ensures s.dest in r1.regs && |r1.regs[s.dest].keys.no| == S.n
    ensures Sent(p.wires, p1.wires) == [r1.regs[s.dest].keys.no[i]] + r1.regs[s.dest].keys.no
  {
    FreshWireSent(S, M, i, s, r, r1);
    PRFGetSized(S, i, r.regs, p.regs, v, s.dest);
    var a := r1.regs[s.dest];
    var more := a.keys.no + rest;
    assert p.keysIn == [a.keys.no[i], a.keys.yes[i]] + more;
    var q := Get(S.G, S.n, p.regs, s.dest);
    ReceiveOk(S, i, a, q, p.keysIn, more);
    assert more[..S.n] == a.keys.no;
    var q0 := ReceiveKeys(S.n, i, q, p.keysIn).value;
    PRFRandomIs(S, M, i, s, p, q0, ReceiveAllKeys(S.n, q0, false, more).value);
    assert p1.wires == p.wires + [a.keys.no[i]] + a.keys.no;
    assert p1.wires == p.wires + ([a.keys.no[i]] + a.keys.no);
  }

  lemma PRFOtherWire<K(!new)>(S: Setup<K>, M: Phases<K>, i: nat, s: Instruction, rr: map<nat, Reg<K>>,
                              p: PRFState<K>, p1: PRFState<K>, v: Plain)
    requires ArePhases(S, M)
    requires Allowed(S.n, v.vals.Keys, s) && i < S.n && !s.Input? && !s.Random?
    requires PRFRegs(S, i, rr, p.regs, v)
    requires M.prf(i, p, s) == Some(p1)
    ensures s.Output? ==> Sized(S.n, rr[s.reg]) && Sent(p.wires, p1.wires) == [rr[s.reg].keys.no[i]]
    ensures !s.Output? ==> Sent(p.wires, p1.wires) == []
  {
    assert PRFLaw(S, M, i, p, s);
    if s.Output? {
      assert PRFReg(S, i, rr[s.reg], p.regs[s.reg]);
    }
  }

  /** What party i sends for a gate are its function values on its keys of the operands. */
  lemma PRFGateSent<K(!new)>(S: Setup<K>, M: Phases<K>, i: nat, s: Instruction, r: RandomState<K>, p: PRFState<K>,
                             p1: PRFState<K>, v: Plain)
    requires ArePhases(S, M)
    requires Allowed(S.n, v.vals.Keys, s) && i < S.n
    requires PRFRegs(S, i, r.regs, p.regs, v) && M.prf(i, p, s) == Some(p1)
    ensures !s.Op? ==> Sent(p.prfOut, p1.prfOut) == []
    ensures s.Op? ==> Sized(S.n, p.regs[s.left]) && Sized(S.n, p.regs[s.right])
    ensures s.Op? ==> Sent(p.prfOut, p1.prfOut) == PRFOutputs(S, i, p.regs[s.left], p.regs[s.right], p.gates + 1)
  {
    assert PRFLaw(S, M, i, p, s);
    if s.Op? {
      assert PRFReg(S, i, r.regs[s.left], p.regs[s.left]) && PRFReg(S, i, r.regs[s.right], p.regs[s.right]);
    }
  }

  lemma GateStreamsSent<K(!new)>(S: Setup<K>, M: Phases<K>, s: Instruction, r: RandomState<K>, p: seq<PRFState<K>>,
                                 p1: seq<PRFState<K>>, v: Plain)
    requires ArePhases(S, M)
    requires Allowed(S.n, v.vals.Keys, s) && s.Op? && |p| == |p1| == S.n
    requires RandomRegs(S, r.regs, v)
    requires forall i :: 0 <= i < S.n ==> PRFRegs(S, i, r.regs, p[i].regs, v) && p[i].gates == v.gates
    requires forall i :: 0 <= i < S.n ==> M.prf(i, p[i], s) == Some(p1[i])
    ensures GateStreams(S, r.regs[s.left], r.regs[s.right], v.gates + 1, PRFSent(p, p1))
  {
    forall i | 0 <= i < S.n
      ensures GateStream(S, i, r.regs[s.left], r.regs[s.right], v.gates + 1, PRFSent(p, p1)[i])
    {
      GateStreamSent(S, M, i, s, r, p[i], p1[i], v);
    }
  }

  lemma GateStreamSent<K(!new)>(S: Setup<K>, M: Phases<K>, i: nat, s: Instruction, r: RandomState<K>, p: PRFState<K>,
                                p1: PRFState<K>, v: Plain)
    requires ArePhases(S, M)
    requires Allowed(S.n, v.vals.Keys, s) && s.Op? && i < S.n
    requires RandomRegs(S, r.regs, v) && PRFRegs(S, i, r.regs, p.regs, v) && M.prf(i, p, s) == Some(p1)
    ensures GateStream(S, i, r.regs[s.left], r.regs[s.right], p.gates + 1, Sent(p.prfOut, p1.prfOut))
  {
    PRFGateSent(S, M, i, s, r, p, p1, v);
    OutputsAreStream(S, i, r.regs[s.left], r.regs[s.right], p.regs[s.left], p.regs[s.right], p.gates + 1);
  }

  lemma OutputsAreStream<K>(S: Setup<K>, i: nat, al: Reg<K>, ar: Reg<K>, l: Reg<K>, q: Reg<K>, gate: nat)
    requires PRFReg(S, i, al, l) && PRFReg(S, i, ar, q)
    ensures GateStream(S, i, al, ar, gate, PRFOutputs(S, i, l, q, gate))
  {
  }

  // ---------- one step of all phases ----------

  /** The evaluation step of all parties. */
  function EvalStep<K(==)>(S: Setup<K>, M: Phases<K>, es: seq<EvalState<K>>, s: Instruction): Option<seq<EvalState<K>>>
    requires |es| == S.n
  {
    if s.Input? then EvalInput(S, es, s.dest, s.from, s.value) else
      if exists i :: 0 <= i < S.n && M.local(i, es[i], s).None? then None
      else Some(seq(S.n, i requires 0 <= i < S.n => M.local(i, es[i], s).value))
  }

  ghost predicate EvalRelated<K>(S: Setup<K>, rr: map<nat, Reg<K>>, e: seq<EvalState<K>>, v: Plain) {
    && |e| == S.n
    && forall i :: 0 <= i < S.n ==> EvalRegs(S, rr, e[i].regs, v) && e[i].gates == v.gates && e[i].outputs == v.outputs
  }

  ghost predicate PRFRelated<K>(S: Setup<K>, rr: map<nat, Reg<K>>, p: seq<PRFState<K>>, v: Plain) {
    && |p| == S.n
    && forall i :: 0 <= i < S.n ==> PRFRegs(S, i, rr, p[i].regs, v) && p[i].gates == v.gates
  }

  ghost predicate RandomRelated<K>(S: Setup<K>, r: RandomState<K>, v: Plain) {
    && |r.msgKeys| == |r.inputMasks| == S.n && r.draws == v.draws
    && RandomRegs(S, r.regs, v)
  }

  /** The first two phases take a step; the key streams hold what randomize sent. */
  ghost predicate PRFStepped<K>(S: Setup<K>, M: Phases<K>, s: Instruction, r: RandomState<K>, r1: RandomState<K>,
                                p: seq<PRFState<K>>, p1: seq<PRFState<K>>, rest: seq<seq<K>>) {
    && |r.msgKeys| == |r1.msgKeys| == |p| == |p1| == |rest| == S.n
    && M.random(r, s) == Some(r1)
    && forall i :: 0 <= i < S.n ==>
         p[i].keysIn == Sent(r.msgKeys[i], r1.msgKeys[i]) + rest[i] && M.prf(i, p[i], s) == Some(p1[i])
  }

  lemma PRFRelatedStep<K(!new)>(S: Setup<K>, M: Phases<K>, s: Instruction, r: RandomState<K>, r1: RandomState<K>,
                                p: seq<PRFState<K>>, p1: seq<PRFState<K>>, v: Plain, rest: seq<seq<K>>)
    requires ArePhases(S, M)
    requires ValidSetup(S) && Allowed(S.n, v.vals.Keys, s)
    requires RandomRelated(S, r, v) && PRFRelated(S, r.regs, p, v)
    requires PRFStepped(S, M, s, r, r1, p, p1, rest)
    ensures RandomRelated(S, r1, PlainStep(S, v, s)) && PRFRelated(S, r1.regs, p1, PlainStep(S, v, s))
    ensures forall i :: 0 <= i < S.n ==> p1[i].keysIn == rest[i]
  {
    RandomStepOk(S, M, s, r, v);
    forall i | 0 <= i < S.n
      ensures PRFRegs(S, i, r1.regs, p1[i].regs, PlainStep(S, v, s)) && p1[i].gates == PlainStep(S, v, s).gates
      ensures p1[i].keysIn == rest[i]
    {
      PRFStepOk(S, M, i, s, r, r1, p[i], v, rest[i]);
    }
  }

  /** The third phase takes the same step. */
  lemma GarbleRelatedStep<K(!new)>(S: Setup<K>, M: Phases<K>, s: Instruction, r: RandomState<K>, r1: RandomState<K>,
                                   p: seq<PRFState<K>>, p1: seq<PRFState<K>>, g: GarbleState<K>, v: Plain,
                                   rest: seq<Cell<K>>, later: seq<seq<PRFTuple<K>>>)
    requires ArePhases(S, M)
    requires ValidSetup(S) && Allowed(S.n, v.vals.Keys, s)
    requires RandomRelated(S, r, v) && PRFRelated(S, r.regs, p, v) && GarbleRegs(S, r.regs, g.regs, v)
    requires M.random(r, s) == Some(r1) && |p1| == S.n
    requires forall i :: 0 <= i < S.n ==> M.prf(i, p[i], s) == Some(p1[i])
    requires g.wiresIn == Sent(r.wires, r1.wires) + rest
    requires |later| == S.n && g.prfIn == Appended(PRFSent(p, p1), later)
    ensures M.garble(g, s).Some?
    ensures var g1 := M.garble(g, s).value;
            && g1.wiresIn == rest && g1.prfIn == later && GarbleRegs(S, r1.regs, g1.regs, PlainStep(S, v, s))
    ensures !s.Op? ==> M.garble(g, s).value.circuit == g.circuit
    ensures s.Op? ==> var now := PRFSent(p, p1);
      && s.dest in r1.regs && RandomReg(S, r1.regs[s.dest]) && TuplesFit(S.n, now)
      && GateStreams(S, r.regs[s.left], r.regs[s.right], v.gates + 1, now)
      && M.garble(g, s).value.circuit == g.circuit +
           GarbledGate(S, s.func, r.regs[s.left].mask.value, r.regs[s.right].mask.value, r1.regs[s.dest], now)
  {
    if s.Op? {
      GateStreamsSent(S, M, s, r, p, p1, v);
      forall i | 0 <= i < S.n
        ensures |PRFSent(p, p1)[i]| == S.n
      {
        assert GateStream(S, i, r.regs[s.left], r.regs[s.right], v.gates + 1, PRFSent(p, p1)[i]);
      }
      GarbleOpOk(S, M, s, r, r1, g, v, rest, PRFSent(p, p1), later);
    } else {
      forall i | 0 <= i < S.n
        ensures PRFSent(p, p1)[i] == []
      {
        PRFGateSent(S, M, i, s, r, p[i], p1[i], v);
      }
      forall i | 0 <= i < S.n
        ensures g.prfIn[i] == later[i]
      {
        assert g.prfIn[i] == PRFSent(p, p1)[i] + later[i];
      }
      assert g.prfIn == later;
      GarbleStepOk(S, M, s, r, r1, g, v, rest);
    }
  }

  /** The four phases step together; the parties' buffers hold what the earlier phases sent. */
  ghost predicate EvalFed<K>(S: Setup<K>, r: RandomState<K>, r1: RandomState<K>, p: seq<PRFState<K>>,
                             p1: seq<PRFState<K>>, g: GarbleState<K>, g1: GarbleState<K>, e: seq<EvalState<K>>,
                             rest: seq<EvalState<K>>) {
    && |r.inputMasks| == |r1.inputMasks| == |p| == |p1| == |e| == |rest| == S.n
    && forall i :: 0 <= i < S.n ==>
         && e[i].wiresIn == Sent(p[i].wires, p1[i].wires) + rest[i].wiresIn
         && e[i].circuitIn == Sent(g.circuit, g1.circuit) + rest[i].circuitIn
         && e[i].inputMasks == Sent(r.inputMasks[i], r1.inputMasks[i]) + rest[i].inputMasks
         && e[i].outputMasks == Sent(r.outputMasks, r1.outputMasks) + rest[i].outputMasks
  }

  /** What is left in the buffers. */
  ghost predicate SameBuffers<K>(n: nat, e: seq<EvalState<K>>, rest: seq<EvalState<K>>) {
    && |e| == |rest| == n
    && forall i :: 0 <= i < n ==>
         && e[i].wiresIn == rest[i].wiresIn && e[i].circuitIn == rest[i].circuitIn
         && e[i].inputMasks == rest[i].inputMasks && e[i].outputMasks == rest[i].outputMasks
  }

  /** What the garble step must have produced for a gate. */
  ghost predicate GateSent<K>(S: Setup<K>, s: Instruction, r: RandomState<K>, r1: RandomState<K>,
                              now: seq<seq<PRFTuple<K>>>, g: GarbleState<K>, g1: GarbleState<K>, v: Plain)
    requires s.Op?
  {
    && s.left in r.regs && s.right in r.regs && s.dest in r1.regs
    && RandomReg(S, r.regs[s.left]) && RandomReg(S, r.regs[s.right]) && RandomReg(S, r1.regs[s.dest])
    && TuplesFit(S.n, now)
    && GateStreams(S, r.regs[s.left], r.regs[s.right], v.gates + 1, now)
    && g1.circuit == g.circuit +
         GarbledGate(S, s.func, r.regs[s.left].mask.value, r.regs[s.right].mask.value, r1.regs[s.dest], now)
  }

  /** What one instruction other than an input sends to party i for the evaluation. */
  ghost predicate Delivered<K>(S: Setup<K>, i: nat, s: Instruction, r: RandomState<K>, r1: RandomState<K>, v: Plain,
                               now: seq<seq<PRFTuple<K>>>, wires: seq<K>, rows: seq<K>, masks: seq<bool>) {
    && |S.deltas| == S.n
    && (s.Random? ==>
          var a := Randomize(S, Get(S.G, S.n, r.regs, s.dest), r.draws);
          && |a.keys.no| == S.n && i < S.n && wires == [a.keys.no[i]] + a.keys.no && r1.regs == r.regs[s.dest := a])
    && (s.Output? ==>
          && s.reg in r.regs && i < |r.regs[s.reg].keys.no| && r.regs[s.reg].mask.Some? && r1.regs == r.regs
          && wires == [r.regs[s.reg].keys.no[i]] && masks == [r.regs[s.reg].mask.value])
    && (s.Op? ==>
          && s.left in r.regs && s.right in r.regs && s.dest in r1.regs && RandomReg(S, r1.regs[s.dest])
          && r.regs[s.left].mask.Some? && r.regs[s.right].mask.Some? && TuplesFit(S.n, now)
          && GateStreams(S, r.regs[s.left], r.regs[s.right], v.gates + 1, now)
          && rows == GarbledGate(S, s.func, r.regs[s.left].mask.value, r.regs[s.right].mask.value, r1.regs[s.dest],
                                 now))
    && (!s.Random? && !s.Output? ==> wires == []) && (!s.Op? ==> rows == []) && (!s.Output? ==> masks == [])
  }

  lemma StepDelivers<K(!new)>(S: Setup<K>, M: Phases<K>, i: nat, s: Instruction, r: RandomState<K>, r1: RandomState<K>,
                              p: seq<PRFState<K>>, p1: seq<PRFState<K>>, g: GarbleState<K>, g1: GarbleState<K>,
                              v: Plain, restK: seq<seq<K>>)
    requires ArePhases(S, M)
    requires ValidSetup(S) && Allowed(S.n, v.vals.Keys, s) && i < S.n && !s.Input?
    requires RandomRelated(S, r, v) && PRFRelated(S, r.regs, p, v) && PRFStepped(S, M, s, r, r1, p, p1, restK)
    requires !s.Op? ==> g1.circuit == g.circuit
    requires s.Op? ==> GateSent(S, s, r, r1, PRFSent(p, p1), g, g1, v)
    ensures Delivered(S, i, s, r, r1, v, PRFSent(p, p1), Sent(p[i].wires, p1[i].wires), Sent(g.circuit, g1.circuit),
                      Sent(r.outputMasks, r1.outputMasks))
  {
    MasksSent(S, M, s, r, r1, v);
    if s.Random? {
      PRFRandomWire(S, M, i, s, r, r1, p[i], p1[i], v, restK[i]);
      FreshWireSent(S, M, i, s, r, r1);
    } else {
      PRFOtherWire(S, M, i, s, r.regs, p[i], p1[i], v);
    }
  }

  /** Party i takes its step, ends with the plain values, and reads what was sent for this step. */
  ghost predicate StepsRight<K>(S: Setup<K>, M: Phases<K>, i: nat, s: Instruction, rr1: map<nat, Reg<K>>,
                                e: EvalState<K>, v1: Plain, rest: EvalState<K>) {
    M.local(i, e, s).Some? && var e1 := M.local(i, e, s).value;
    && EvalRegs(S, rr1, e1.regs, v1) && e1.gates == v1.gates && e1.outputs == v1.outputs
    && e1.wiresIn == rest.wiresIn && e1.circuitIn == rest.circuitIn
    && e1.inputMasks == rest.inputMasks && e1.outputMasks == rest.outputMasks
  }

  lemma EvalWireOk<K(!new)>(S: Setup<K>, M: Phases<K>, i: nat, s: Instruction, r: RandomState<K>, r1: RandomState<K>,
                            now: seq<seq<PRFTuple<K>>>, wires: seq<K>, rows: seq<K>, masks: seq<bool>,
                            e: EvalState<K>, v: Plain, rest: EvalState<K>)
    requires ArePhases(S, M)
    requires ValidSetup(S) && Allowed(S.n, v.vals.Keys, s) && i < S.n && (s.Random? || s.Output?)
    requires RandomRelated(S, r, v) && M.random(r, s) == Some(r1)
    requires Delivered(S, i, s, r, r1, v, now, wires, rows, masks)
    requires EvalRegs(S, r.regs, e.regs, v) && e.gates == v.gates && e.outputs == v.outputs
    requires e.wiresIn == wires + rest.wiresIn && e.circuitIn == rows + rest.circuitIn
    requires e.inputMasks == rest.inputMasks && e.outputMasks == masks + rest.outputMasks
    ensures StepsRight(S, M, i, s, r1.regs, e, PlainStep(S, v, s), rest)
  {
    if s.Random? {
      EvalRandomOk(S, M, i, s, Get(S.G, S.n, r.regs, s.dest), r.draws, r.regs, e, v, rest.wiresIn);
    } else {
      EvalOutputOk(S, M, i, s, r.regs, e, v, rest.wiresIn, rest.outputMasks);
    }
  }

  lemma EvalLocalOk<K(!new)>(S: Setup<K>, M: Phases<K>, i: nat, s: Instruction, r: RandomState<K>, r1: RandomState<K>,
                             now: seq<seq<PRFTuple<K>>>, wires: seq<K>, rows: seq<K>, masks: seq<bool>,
                             e: EvalState<K>, v: Plain, rest: EvalState<K>)
    requires ArePhases(S, M)
    requires ValidSetup(S) && Allowed(S.n, v.vals.Keys, s) && i < S.n && !s.Input?
    requires RandomRelated(S, r, v) && M.random(r, s) == Some(r1)
    requires Delivered(S, i, s, r, r1, v, now, wires, rows, masks)
    requires EvalRegs(S, r.regs, e.regs, v) && e.gates == v.gates && e.outputs == v.outputs
    requires e.wiresIn == wires + rest.wiresIn && e.circuitIn == rows + rest.circuitIn
    requires e.inputMasks == rest.inputMasks && e.outputMasks == masks + rest.outputMasks
    ensures StepsRight(S, M, i, s, r1.regs, e, PlainStep(S, v, s), rest)
  {
    if s.Random? || s.Output? {
      EvalWireOk(S, M, i, s, r, r1, now, wires, rows, masks, e, v, rest);
    } else if s.Op? {
      EvalOpOk(S, M, i, s, r, r1, e, v, now, rest.circuitIn);
    } else {
      EvalQuietOk(S, M, i, s, r, r1, e, v);
    }
  }

  lemma EvalInputStep<K(!new)>(S: Setup<K>, M: Phases<K>, s: Instruction, r: RandomState<K>, r1: RandomState<K>,
                               p: seq<PRFState<K>>, p1: seq<PRFState<K>>, g: GarbleState<K>, g1: GarbleState<K>,
                               e: seq<EvalState<K>>, v: Plain, restK: seq<seq<K>>, rest: seq<EvalState<K>>)
    requires ArePhases(S, M)
    requires ValidSetup(S) && Allowed(S.n, v.vals.Keys, s) && s.Input?
    requires RandomRelated(S, r, v) && PRFRelated(S, r.regs, p, v) && PRFStepped(S, M, s, r, r1, p, p1, restK)
    requires g1.circuit == g.circuit
    requires EvalRelated(S, r.regs, e, v) && EvalFed(S, r, r1, p, p1, g, g1, e, rest)
    ensures EvalStep(S, M, e, s).Some?
    ensures EvalRelated(S, r1.regs, EvalStep(S, M, e, s).value, PlainStep(S, v, s))
    ensures SameBuffers(S.n, EvalStep(S, M, e, s).value, rest)
  {
    MasksSent(S, M, s, r, r1, v);
    var d0 := Get(S.G, S.n, r.regs, s.dest);
    var a := Randomize(S, d0, v.draws);
    var restW := seq(S.n, i requires 0 <= i < S.n => rest[i].wiresIn);
    forall i | 0 <= i < S.n
      ensures |a.keys.no| == S.n && e[i].wiresIn == [a.keys.no[i]] + restW[i] && r1.regs == r.regs[s.dest := a]
    {
      PRFInputWire(S, M, i, s, r, r1, p[i], p1[i], v, restK[i]);
      FreshWireSent(S, M, i, s, r, r1);
    }
    EvalInputOk(S, s, d0, r.regs, e, v, restW, rest[s.from].inputMasks);
  }

  /** Party i after an instruction without communication. */
  ghost predicate StepsTo<K>(S: Setup<K>, M: Phases<K>, i: nat, s: Instruction, e: EvalState<K>,
                             rr: map<nat, Reg<K>>, v: Plain, rest: EvalState<K>)
    requires i < S.n && !s.Input?
  {
    M.local(i, e, s).Some? &&
      var e1 := M.local(i, e, s).value;
      && EvalRegs(S, rr, e1.regs, v) && e1.gates == v.gates && e1.outputs == v.outputs
      && e1.wiresIn == rest.wiresIn && e1.circuitIn == rest.circuitIn
      && e1.inputMasks == rest.inputMasks && e1.outputMasks == rest.outputMasks
  }

  lemma EvalPartyStep<K(!new)>(S: Setup<K>, M: Phases<K>, i: nat, s: Instruction, r: RandomState<K>,
                               r1: RandomState<K>, p: seq<PRFState<K>>, p1: seq<PRFState<K>>, g: GarbleState<K>,
                               g1: GarbleState<K>, e: seq<EvalState<K>>, v: Plain, restK: seq<seq<K>>,
                               rest: seq<EvalState<K>>)
    requires ArePhases(S, M)
    requires ValidSetup(S) && Allowed(S.n, v.vals.Keys, s) && !s.Input? && i < S.n
    requires RandomRelated(S, r, v) && PRFRelated(S, r.regs, p, v) && PRFStepped(S, M, s, r, r1, p, p1, restK)
    requires !s.Op? ==> g1.circuit == g.circuit
    requires s.Op? ==> GateSent(S, s, r, r1, PRFSent(p, p1), g, g1, v)
    requires EvalRelated(S, r.regs, e, v) && EvalFed(S, r, r1, p, p1, g, g1, e, rest)
    ensures StepsTo(S, M, i, s, e[i], r1.regs, PlainStep(S, v, s), rest[i])
  {
    MasksSent(S, M, s, r, r1, v);
    StepDelivers(S, M, i, s, r, r1, p, p1, g, g1, v, restK);
    EvalLocalOk(S, M, i, s, r, r1, PRFSent(p, p1), Sent(p[i].wires, p1[i].wires), Sent(g.circuit, g1.circuit),
                Sent(r.outputMasks, r1.outputMasks), e[i], v, rest[i]);
  }

  /** All parties take their steps. */
  lemma EvalTogether<K(!new)>(S: Setup<K>, M: Phases<K>, s: Instruction, rr: map<nat, Reg<K>>, e: seq<EvalState<K>>,
                              v: Plain, rest: seq<EvalState<K>>)
    requires !s.Input? && |e| == |rest| == S.n
    requires forall i :: 0 <= i < S.n ==> StepsTo(S, M, i, s, e[i], rr, v, rest[i])
    ensures EvalStep(S, M, e, s).Some?
    ensures EvalRelated(S, rr, EvalStep(S, M, e, s).value, v)
    ensures SameBuffers(S.n, EvalStep(S, M, e, s).value, rest)
  {
  }

  lemma EvalRelatedStep<K(!new)>(S: Setup<K>, M: Phases<K>, s: Instruction, r: RandomState<K>, r1: RandomState<K>,
                                 p: seq<PRFState<K>>, p1: seq<PRFState<K>>, g: GarbleState<K>, g1: GarbleState<K>,
                                 e: seq<EvalState<K>>, v: Plain, restK: seq<seq<K>>, rest: seq<EvalState<K>>)
    requires ArePhases(S, M)
    requires ValidSetup(S) && Allowed(S.n, v.vals.Keys, s)
    requires RandomRelated(S, r, v) && PRFRelated(S, r.regs, p, v) && PRFStepped(S, M, s, r, r1, p, p1, restK)
    requires !s.Op? ==> g1.circuit == g.circuit
    requires s.Op? ==> GateSent(S, s, r, r1, PRFSent(p, p1), g, g1, v)
    requires EvalRelated(S, r.regs, e, v) && EvalFed(S, r, r1, p, p1, g, g1, e, rest)
    ensures EvalStep(S, M, e, s).Some?
    ensures EvalRelated(S, r1.regs, EvalStep(S, M, e, s).value, PlainStep(S, v, s))
    ensures SameBuffers(S.n, EvalStep(S, M, e, s).value, rest)
  {
    if s.Input? {
      EvalInputStep(S, M, s, r, r1, p, p1, g, g1, e, v, restK, rest);
    } else {
      forall i | 0 <= i < S.n
        ensures StepsTo(S, M, i, s, e[i], r1.regs, PlainStep(S, v, s), rest[i])
      {
        EvalPartyStep(S, M, i, s, r, r1, p, p1, g, g1, e, v, restK, rest);
      }
      EvalTogether(S, M, s, r1.regs, e, PlainStep(S, v, s), rest);
    }
  }
}
