/**
 Whole programs under the four phases: for every well-formed program and every choice of keys,
 masks, differences with signal bit one, and pseudo-random function, no phase runs into an
 exception, every buffer is read exactly to its end, every wire ends with its masked plain value
 and the matching keys, and the outputs are those of plain evaluation.
 */
module Protocol {
  import opened Keys
  import opened Garbling
  import opened Simulation

  // ---------- whole programs ----------

  function RunRandom<K>(S: Setup<K>, M: Phases<K>, r: RandomState<K>, prog: seq<Instruction>): Option<RandomState<K>>
    decreases |prog|
  {
    if prog == [] then Some(r) else
      var r1 :- M.random(r, prog[0]);
      RunRandom(S, M, r1, prog[1..])
  }

  function RunPRF<K>(S: Setup<K>, M: Phases<K>, i: nat, p: PRFState<K>, prog: seq<Instruction>): Option<PRFState<K>>
    requires i < S.n
    decreases |prog|
  {
    if prog == [] then Some(p) else
      var p1 :- M.prf(i, p, prog[0]);
      RunPRF(S, M, i, p1, prog[1..])
  }

  function RunGarble<K>(S: Setup<K>, M: Phases<K>, g: GarbleState<K>, prog: seq<Instruction>): Option<GarbleState<K>>
    decreases |prog|
  {
    if prog == [] then Some(g) else
      var g1 :- M.garble(g, prog[0]);
      RunGarble(S, M, g1, prog[1..])
  }

  function RunEval<K(==)>(S: Setup<K>, M: Phases<K>, es: seq<EvalState<K>>,
                          prog: seq<Instruction>): (r: Option<seq<EvalState<K>>>)
    requires |es| == S.n
    ensures r.Some? ==> |r.value| == S.n
    decreases |prog|
  {
    if prog == [] then Some(es) else
      var e1 :- EvalStep(S, M, es, prog[0]);
      if |e1| != S.n then None else RunEval(S, M, e1, prog[1..])
  }

  function RunPlain<K>(S: Setup<K>, v: Plain, prog: seq<Instruction>): Plain
    requires WellFormed(S.n, v.vals.Keys, prog)
    decreases |prog|
  {
    if prog == [] then v else
      assert PlainStep(S, v, prog[0]).vals.Keys == v.vals.Keys + Defines(prog[0]);
      RunPlain(S, PlainStep(S, v, prog[0]), prog[1..])
  }

  ghost predicate Extends<T>(a: seq<T>, b: seq<T>) {
    |a| <= |b| && b[..|a|] == a
  }

  lemma SentTrans<T>(a: seq<T>, b: seq<T>, c: seq<T>)
    requires Extends(a, b) && Extends(b, c)
    ensures Extends(a, c) && Sent(a, c) == Sent(a, b) + Sent(b, c)
  {
    assert c[..|a|] == c[..|b|][..|a|];
    assert c[|a|..] == c[..|b|][|a|..] + c[|b|..];
  }

  /** Buffers only grow. */
  ghost predicate RandomGrew<K>(n: nat, r: RandomState<K>, r1: RandomState<K>) {
    && |r.msgKeys| == |r1.msgKeys| == |r.inputMasks| == |r1.inputMasks| == n
    && Extends(r.wires, r1.wires) && Extends(r.outputMasks, r1.outputMasks)
    && (forall i :: 0 <= i < n ==> Extends(r.msgKeys[i], r1.msgKeys[i]) && Extends(r.inputMasks[i], r1.inputMasks[i]))
  }

  lemma RandomGrowsStep<K(!new)>(S: Setup<K>, M: Phases<K>, s: Instruction, r: RandomState<K>)
    requires ArePhases(S, M)
    requires M.random(r, s).Some?
    ensures RandomGrew(S.n, r, M.random(r, s).value)
  {
    assert RandomLaw(S, M, r, s);
  }

  lemma RandomGrewTrans<K>(n: nat, a: RandomState<K>, b: RandomState<K>, c: RandomState<K>)
    requires RandomGrew(n, a, b) && RandomGrew(n, b, c)
    ensures RandomGrew(n, a, c)
    ensures Sent(a.wires, c.wires) == Sent(a.wires, b.wires) + Sent(b.wires, c.wires)
    ensures Sent(a.outputMasks, c.outputMasks) == Sent(a.outputMasks, b.outputMasks)
      + Sent(b.outputMasks, c.outputMasks)
    ensures forall i :: 0 <= i < n ==>
      && Sent(a.msgKeys[i], c.msgKeys[i]) == Sent(a.msgKeys[i], b.msgKeys[i]) + Sent(b.msgKeys[i], c.msgKeys[i])
      && Sent(a.inputMasks[i], c.inputMasks[i]) == Sent(a.inputMasks[i], b.inputMasks[i])
        + Sent(b.inputMasks[i], c.inputMasks[i])
  {
    SentTrans(a.wires, b.wires, c.wires);
    SentTrans(a.outputMasks, b.outputMasks, c.outputMasks);
    forall i | 0 <= i < n
      ensures Extends(a.msgKeys[i], c.msgKeys[i]) && Extends(a.inputMasks[i], c.inputMasks[i])
      ensures Sent(a.msgKeys[i], c.msgKeys[i]) == Sent(a.msgKeys[i], b.msgKeys[i]) + Sent(b.msgKeys[i], c.msgKeys[i])
      ensures Sent(a.inputMasks[i], c.inputMasks[i])
        == Sent(a.inputMasks[i], b.inputMasks[i]) + Sent(b.inputMasks[i], c.inputMasks[i])
    {
      SentTrans(a.msgKeys[i], b.msgKeys[i], c.msgKeys[i]);
      SentTrans(a.inputMasks[i], b.inputMasks[i], c.inputMasks[i]);
    }
  }

  /** The first phase never fails. */
  lemma {:induction false} RunRandomOk<K(!new)>(S: Setup<K>, M: Phases<K>, r: RandomState<K>, v: Plain,
                                                prog: seq<Instruction>)
    requires ArePhases(S, M)
    requires ValidSetup(S) && WellFormed(S.n, v.vals.Keys, prog) && RandomRelated(S, r, v)
    ensures RunRandom(S, M, r, prog).Some?
    ensures RandomGrew(S.n, r, RunRandom(S, M, r, prog).value)
    decreases |prog|
  {
    if prog != [] {
      var s := prog[0];
      RandomStepOk(S, M, s, r, v);
      RandomGrowsStep(S, M, s, r);
      var r1, v1 := M.random(r, s).value, PlainStep(S, v, s);
      assert v1.vals.Keys == v.vals.Keys + Defines(s);
      RunRandomOk(S, M, r1, v1, prog[1..]);
      RandomGrewTrans(S.n, r, r1, RunRandom(S, M, r1, prog[1..]).value);
    }
  }

  ghost predicate PRFGrew<K>(p: PRFState<K>, p1: PRFState<K>) {
    Extends(p.wires, p1.wires) && Extends(p.prfOut, p1.prfOut)
  }

  lemma PRFGrowsStep<K(!new)>(S: Setup<K>, M: Phases<K>, i: nat, s: Instruction, p: PRFState<K>)
    requires ArePhases(S, M)
    requires i < S.n && M.prf(i, p, s).Some?
    ensures PRFGrew(p, M.prf(i, p, s).value)
  {
    assert PRFLaw(S, M, i, p, s);
  }

  /** The second phase never fails and reads its key stream to the end. */
  lemma {:induction false} RunPRFOk<K(!new)>(S: Setup<K>, M: Phases<K>, i: nat, r: RandomState<K>, p: PRFState<K>,
                                             v: Plain, prog: seq<Instruction>)
    requires ArePhases(S, M)
    requires ValidSetup(S) && WellFormed(S.n, v.vals.Keys, prog) && RandomRelated(S, r, v) && i < S.n
    requires PRFRegs(S, i, r.regs, p.regs, v) && p.gates == v.gates
    requires var r' := RunRandom(S, M, r, prog);
             r'.Some? && |r'.value.msgKeys| == S.n && p.keysIn == Sent(r.msgKeys[i], r'.value.msgKeys[i])
    ensures RunPRF(S, M, i, p, prog).Some?
    ensures RunPRF(S, M, i, p, prog).value.keysIn == []
    ensures PRFGrew(p, RunPRF(S, M, i, p, prog).value)
    decreases |prog|
  {
    if prog != [] {
      var s := prog[0];
      RandomStepOk(S, M, s, r, v);
      RandomGrowsStep(S, M, s, r);
      var r1, v1 := M.random(r, s).value, PlainStep(S, v, s);
      assert v1.vals.Keys == v.vals.Keys + Defines(s);
      RunRandomOk(S, M, r1, v1, prog[1..]);
      var r' := RunRandom(S, M, r, prog).value;
      SentTrans(r.msgKeys[i], r1.msgKeys[i], r'.msgKeys[i]);
      KeyStepParty(S, M, i, s, r, r1, p, v, Sent(r1.msgKeys[i], r'.msgKeys[i]));
      var p1 := M.prf(i, p, s).value;
      RunPRFOk(S, M, i, r1, p1, v1, prog[1..]);
      SentTrans(p.wires, p1.wires, RunPRF(S, M, i, p1, prog[1..]).value.wires);
      SentTrans(p.prfOut, p1.prfOut, RunPRF(S, M, i, p1, prog[1..]).value.prfOut);
    }
  }

  // ---------- the first two phases together ----------

  /** The trusted party and the parties run prog from r and p to r1 and p1; the parties have
      exactly the keys to read that the trusted party sends meanwhile. */
  ghost predicate KeyRun<K(!new)>(S: Setup<K>, M: Phases<K>, prog: seq<Instruction>, r: RandomState<K>,
                                  r1: RandomState<K>, p: seq<PRFState<K>>, p1: seq<PRFState<K>>) {
    && |p| == |p1| == S.n
    && RunRandom(S, M, r, prog) == Some(r1) && RandomGrew(S.n, r, r1)
    && forall i :: 0 <= i < S.n ==>
         && RunPRF(S, M, i, p[i], prog) == Some(p1[i]) && PRFGrew(p[i], p1[i])
         && p[i].keysIn == Sent(r.msgKeys[i], r1.msgKeys[i])
  }

  /** The parties after one step. */
  ghost function PRFNext<K(!new)>(S: Setup<K>, M: Phases<K>, p: seq<PRFState<K>>, s: Instruction): seq<PRFState<K>>
    requires |p| == S.n
  {
    seq(S.n, i requires 0 <= i < S.n => if M.prf(i, p[i], s).Some? then M.prf(i, p[i], s).value else p[i])
  }

  ghost function KeysLeft<K>(n: nat, r1: RandomState<K>, r2: RandomState<K>): seq<seq<K>>
    requires |r1.msgKeys| == |r2.msgKeys| == n
  {
    seq(n, i requires 0 <= i < n => Sent(r1.msgKeys[i], r2.msgKeys[i]))
  }

  lemma KeyRunParty<K(!new)>(S: Setup<K>, M: Phases<K>, i: nat, prog: seq<Instruction>, r: RandomState<K>,
                             r1: RandomState<K>, r2: RandomState<K>, p: PRFState<K>, p2: PRFState<K>, v: Plain)
    requires ArePhases(S, M)
    requires ValidSetup(S) && prog != [] && WellFormed(S.n, v.vals.Keys, prog) && RandomRelated(S, r, v) && i < S.n
    requires M.random(r, prog[0]) == Some(r1) && RunRandom(S, M, r1, prog[1..]) == Some(r2)
    requires RandomGrew(S.n, r, r1) && RandomGrew(S.n, r1, r2)
    requires PRFRegs(S, i, r.regs, p.regs, v) && p.gates == v.gates
    requires RunPRF(S, M, i, p, prog) == Some(p2) && p.keysIn == Sent(r.msgKeys[i], r2.msgKeys[i])
    ensures M.prf(i, p, prog[0]).Some?
    ensures var p1 := M.prf(i, p, prog[0]).value;
      && p.keysIn == Sent(r.msgKeys[i], r1.msgKeys[i]) + Sent(r1.msgKeys[i], r2.msgKeys[i])
      && p1.keysIn == Sent(r1.msgKeys[i], r2.msgKeys[i])
      && RunPRF(S, M, i, p1, prog[1..]) == Some(p2) && PRFGrew(p, p1) && PRFGrew(p1, p2)
  {
    SentTrans(r.msgKeys[i], r1.msgKeys[i], r2.msgKeys[i]);
    KeyStepParty(S, M, i, prog[0], r, r1, p, v, Sent(r1.msgKeys[i], r2.msgKeys[i]));
    RunPRFUnfolds(S, M, i, p, p2, prog);
    var p1, v1 := M.prf(i, p, prog[0]).value, PlainNext(S, v, prog);
    RunPRFOk(S, M, i, r1, p1, v1, prog[1..]);
  }

  /** One step of the first two phases, at party i. */
  lemma KeyStepParty<K(!new)>(S: Setup<K>, M: Phases<K>, i: nat, s: Instruction, r: RandomState<K>, r1: RandomState<K>,
                              p: PRFState<K>, v: Plain, rest: seq<K>)
    requires ArePhases(S, M) && ValidSetup(S) && Allowed(S.n, v.vals.Keys, s) && RandomRelated(S, r, v) && i < S.n
    requires M.random(r, s) == Some(r1) && |r1.msgKeys| == S.n
    requires PRFRegs(S, i, r.regs, p.regs, v) && p.gates == v.gates
      && p.keysIn == Sent(r.msgKeys[i], r1.msgKeys[i]) + rest
    ensures RandomRelated(S, r1, PlainStep(S, v, s)) && M.prf(i, p, s).Some?
    ensures var p1 := M.prf(i, p, s).value;
      && p1.keysIn == rest && PRFGrew(p, p1)
      && PRFRegs(S, i, r1.regs, p1.regs, PlainStep(S, v, s)) && p1.gates == PlainStep(S, v, s).gates
  {
    RandomStepOk(S, M, s, r, v);
    PRFStepOk(S, M, i, s, r, r1, p, v, rest);
    PRFGrowsStep(S, M, i, s, p);
  }

  lemma RunPRFUnfolds<K(!new)>(S: Setup<K>, M: Phases<K>, i: nat, p: PRFState<K>, p2: PRFState<K>,
                               prog: seq<Instruction>)
    requires prog != [] && i < S.n && RunPRF(S, M, i, p, prog) == Some(p2)
    ensures M.prf(i, p, prog[0]).Some? && RunPRF(S, M, i, M.prf(i, p, prog[0]).value, prog[1..]) == Some(p2)
  {
  }

  /** The plain values after the first instruction suit the rest of the program. */
  ghost function PlainNext<K>(S: Setup<K>, v: Plain, prog: seq<Instruction>): (v1: Plain)
    requires prog != [] && WellFormed(S.n, v.vals.Keys, prog)
    ensures v1 == PlainStep(S, v, prog[0]) && WellFormed(S.n, v1.vals.Keys, prog[1..])
  {
    assert PlainStep(S, v, prog[0]).vals.Keys == v.vals.Keys + Defines(prog[0]);
    PlainStep(S, v, prog[0])
  }

  /** A run of the first two phases is a step followed by a run. */
  lemma KeyRunStep<K(!new)>(S: Setup<K>, M: Phases<K>, prog: seq<Instruction>, r: RandomState<K>, r2: RandomState<K>,
                            p: seq<PRFState<K>>, p2: seq<PRFState<K>>, v: Plain)
      returns (r1: RandomState<K>, p1: seq<PRFState<K>>)
    requires ArePhases(S, M)
    requires ValidSetup(S) && prog != [] && WellFormed(S.n, v.vals.Keys, prog)
    requires RandomRelated(S, r, v) && PRFRelated(S, r.regs, p, v) && KeyRun(S, M, prog, r, r2, p, p2)
    ensures |p1| == S.n && RandomGrew(S.n, r, r1) && RandomGrew(S.n, r1, r2)
    ensures forall i :: 0 <= i < S.n ==> PRFGrew(p[i], p1[i]) && PRFGrew(p1[i], p2[i])
    ensures KeyRun(S, M, prog[1..], r1, r2, p1, p2)
    ensures PRFStepped(S, M, prog[0], r, r1, p, p1, KeysLeft(S.n, r1, r2))
    ensures RandomRelated(S, r1, PlainStep(S, v, prog[0])) && PRFRelated(S, r1.regs, p1, PlainStep(S, v, prog[0]))
    ensures WellFormed(S.n, PlainStep(S, v, prog[0]).vals.Keys, prog[1..])
  {
    var s := prog[0];
    RandomStepOk(S, M, s, r, v);
    RandomGrowsStep(S, M, s, r);
    var v1 := PlainStep(S, v, s);
    assert v1.vals.Keys == v.vals.Keys + Defines(s);
    r1, p1 := M.random(r, s).value, PRFNext(S, M, p, s);
    RunRandomOk(S, M, r1, v1, prog[1..]);
    forall i | 0 <= i < S.n
      ensures M.prf(i, p[i], s) == Some(p1[i])
      ensures RunPRF(S, M, i, p1[i], prog[1..]) == Some(p2[i]) && PRFGrew(p[i], p1[i]) && PRFGrew(p1[i], p2[i])
      ensures p1[i].keysIn == Sent(r1.msgKeys[i], r2.msgKeys[i])
      ensures p[i].keysIn == Sent(r.msgKeys[i], r1.msgKeys[i]) + Sent(r1.msgKeys[i], r2.msgKeys[i])
    {
      KeyRunParty(S, M, i, prog, r, r1, r2, p[i], p2[i], v);
    }
    PRFRelatedStep(S, M, s, r, r1, p, p1, v, KeysLeft(S.n, r1, r2));
  }

  // ---------- garbling ----------

  lemma SentTuples<K>(n: nat, p: seq<PRFState<K>>, p1: seq<PRFState<K>>, p2: seq<PRFState<K>>)
    requires |p| == |p1| == |p2| == n
    requires forall i :: 0 <= i < n ==> PRFGrew(p[i], p1[i]) && PRFGrew(p1[i], p2[i])
    ensures PRFSent(p, p2) == Appended(PRFSent(p, p1), PRFSent(p1, p2))
    ensures forall i :: 0 <= i < n ==>
      Sent(p[i].wires, p2[i].wires) == Sent(p[i].wires, p1[i].wires) + Sent(p1[i].wires, p2[i].wires)
  {
    forall i | 0 <= i < n
      ensures PRFSent(p, p2)[i] == PRFSent(p, p1)[i] + PRFSent(p1, p2)[i]
      ensures Sent(p[i].wires, p2[i].wires) == Sent(p[i].wires, p1[i].wires) + Sent(p1[i].wires, p2[i].wires)
    {
      SentTrans(p[i].prfOut, p1[i].prfOut, p2[i].prfOut);
      SentTrans(p[i].wires, p1[i].wires, p2[i].wires);
    }
  }

  /** The third phase never fails and reads the wires and all PRF outputs to the end. */
  lemma {:induction false} RunGarbleOk<K(!new)>(S: Setup<K>, M: Phases<K>, prog: seq<Instruction>, r: RandomState<K>,
                                                r2: RandomState<K>, p: seq<PRFState<K>>, p2: seq<PRFState<K>>,
                                                g: GarbleState<K>, v: Plain)
    requires ArePhases(S, M)
    requires ValidSetup(S) && WellFormed(S.n, v.vals.Keys, prog)
    requires RandomRelated(S, r, v) && PRFRelated(S, r.regs, p, v) && KeyRun(S, M, prog, r, r2, p, p2)
    requires GarbleRegs(S, r.regs, g.regs, v) && g.wiresIn == Sent(r.wires, r2.wires) && g.prfIn == PRFSent(p, p2)
    ensures RunGarble(S, M, g, prog).Some?
    ensures var g2 := RunGarble(S, M, g, prog).value;
            && Extends(g.circuit, g2.circuit) && g2.wiresIn == []
            && |g2.prfIn| == S.n && forall i :: 0 <= i < S.n ==> g2.prfIn[i] == []
    decreases |prog|
  {
    if prog != [] {
      var r1, p1 := KeyRunStep(S, M, prog, r, r2, p, p2, v);
      SentTrans(r.wires, r1.wires, r2.wires);
      SentTuples(S.n, p, p1, p2);
      GarbleRelatedStep(S, M, prog[0], r, r1, p, p1, g, v, Sent(r1.wires, r2.wires), PRFSent(p1, p2));
      RunGarbleOk(S, M, prog[1..], r1, r2, p1, p2, M.garble(g, prog[0]).value, PlainStep(S, v, prog[0]));
    }
  }

  // ---------- evaluation ----------

  /** The parties have exactly to read what the other phases sent meanwhile. */
  ghost predicate EvalReady<K>(S: Setup<K>, r: RandomState<K>, r2: RandomState<K>, p: seq<PRFState<K>>,
                               p2: seq<PRFState<K>>, g: GarbleState<K>, g2: GarbleState<K>, e: seq<EvalState<K>>) {
    && |r.inputMasks| == |r2.inputMasks| == |p| == |p2| == |e| == S.n
    && forall i :: 0 <= i < S.n ==>
         && e[i].wiresIn == Sent(p[i].wires, p2[i].wires)
         && e[i].circuitIn == Sent(g.circuit, g2.circuit)
         && e[i].inputMasks == Sent(r.inputMasks[i], r2.inputMasks[i])
         && e[i].outputMasks == Sent(r.outputMasks, r2.outputMasks)
  }

  /** The buffers that remain after the first step. */
  ghost function Left<K>(S: Setup<K>, r1: RandomState<K>, r2: RandomState<K>, p1: seq<PRFState<K>>,
                         p2: seq<PRFState<K>>, g1: GarbleState<K>, g2: GarbleState<K>,
                           e: seq<EvalState<K>>): seq<EvalState<K>>
    requires |r1.inputMasks| == |r2.inputMasks| == |p1| == |p2| == |e| == S.n
  {
    seq(S.n, i requires 0 <= i < S.n =>
      e[i].(wiresIn := Sent(p1[i].wires, p2[i].wires), circuitIn := Sent(g1.circuit, g2.circuit),
            inputMasks := Sent(r1.inputMasks[i], r2.inputMasks[i]),
            outputMasks := Sent(r1.outputMasks, r2.outputMasks)))
  }

  lemma EvalReadyStep<K>(S: Setup<K>, r: RandomState<K>, r1: RandomState<K>, r2: RandomState<K>,
                         p: seq<PRFState<K>>, p1: seq<PRFState<K>>, p2: seq<PRFState<K>>,
                         g: GarbleState<K>, g1: GarbleState<K>, g2: GarbleState<K>, e: seq<EvalState<K>>)
    requires EvalReady(S, r, r2, p, p2, g, g2, e) && |p1| == S.n
    requires RandomGrew(S.n, r, r1) && RandomGrew(S.n, r1, r2)
    requires forall i :: 0 <= i < S.n ==> PRFGrew(p[i], p1[i]) && PRFGrew(p1[i], p2[i])
    requires Extends(g.circuit, g1.circuit) && Extends(g1.circuit, g2.circuit)
    ensures EvalFed(S, r, r1, p, p1, g, g1, e, Left(S, r1, r2, p1, p2, g1, g2, e))
  {
    RandomGrewTrans(S.n, r, r1, r2);
    SentTuples(S.n, p, p1, p2);
    SentTrans(g.circuit, g1.circuit, g2.circuit);
  }

  /** The fourth phase never fails, reads all its buffers to the end, and computes the plain values. */
  lemma {:induction false} RunEvalOk<K(!new)>(S: Setup<K>, M: Phases<K>, prog: seq<Instruction>, r: RandomState<K>,
                                              r2: RandomState<K>, p: seq<PRFState<K>>, p2: seq<PRFState<K>>,
                                              g: GarbleState<K>, g2: GarbleState<K>, e: seq<EvalState<K>>, v: Plain)
    requires ArePhases(S, M)
    requires ValidSetup(S) && WellFormed(S.n, v.vals.Keys, prog)
    requires RandomRelated(S, r, v) && PRFRelated(S, r.regs, p, v) && KeyRun(S, M, prog, r, r2, p, p2)
    requires GarbleRegs(S, r.regs, g.regs, v) && g.wiresIn == Sent(r.wires, r2.wires) && g.prfIn == PRFSent(p, p2)
    requires RunGarble(S, M, g, prog) == Some(g2)
    requires EvalRelated(S, r.regs, e, v) && EvalReady(S, r, r2, p, p2, g, g2, e)
    ensures RunEval(S, M, e, prog).Some?
    ensures EvalRelated(S, r2.regs, RunEval(S, M, e, prog).value, RunPlain(S, v, prog))
    ensures forall i :: 0 <= i < S.n ==> EvalDone(RunEval(S, M, e, prog).value[i])
    decreases |prog|
  {
    if prog != [] {
      var s := prog[0];
      var r1, p1 := KeyRunStep(S, M, prog, r, r2, p, p2, v);
      SentTrans(r.wires, r1.wires, r2.wires);
      SentTuples(S.n, p, p1, p2);
      GarbleRelatedStep(S, M, s, r, r1, p, p1, g, v, Sent(r1.wires, r2.wires), PRFSent(p1, p2));
      var g1, v1 := M.garble(g, s).value, PlainStep(S, v, s);
      RunGarbleOk(S, M, prog[1..], r1, r2, p1, p2, g1, v1);
      EvalReadyStep(S, r, r1, r2, p, p1, p2, g, g1, g2, e);
      EvalRelatedStep(S, M, s, r, r1, p, p1, g, g1, e, v, KeysLeft(S.n, r1, r2), Left(S, r1, r2, p1, p2, g1, g2, e));
      RunEvalOk(S, M, prog[1..], r1, r2, p1, p2, g1, g2, EvalStep(S, M, e, s).value, v1);
    }
  }

  predicate EvalDone<K>(e: EvalState<K>) {
    |e.wiresIn| == 0 && |e.circuitIn| == 0 && |e.inputMasks| == 0 && |e.outputMasks| == 0
  }

  // ---------- the protocol ----------

  /** Before the program, no wire has a value. */
  function Nothing(): (v: Plain)
    ensures v.vals.Keys == {} && v.outputs == []
  {
    Plain(map[], 0, 0, [])
  }

  function Started<K>(S: Setup<K>): RandomState<K> {
    RandomState(map[], [], seq(S.n, _ => []), seq(S.n, _ => []), [], 0)
  }

  /** Party i in the second phase, given its key stream. */
  function PRFStarted<K>(keys: seq<K>): PRFState<K> {
    PRFState(map[], keys, [], [], 0)
  }

  /** The four phases in order, each given the buffers of the earlier ones. */
  datatype Outcome<K> = Outcome(random: RandomState<K>, prf: seq<PRFState<K>>, garble: GarbleState<K>,
                                eval: seq<EvalState<K>>)

  function Execute<K(==)>(S: Setup<K>, prog: seq<Instruction>): Option<Outcome<K>> {
    var M := AllPhases(S);
    var r :- RunRandom(S, M, Started(S), prog);
    if |r.msgKeys| != S.n || |r.inputMasks| != S.n then None else
      var ps := seq(S.n, i requires 0 <= i < S.n => RunPRF(S, M, i, PRFStarted(r.msgKeys[i]), prog));
      if exists i :: 0 <= i < S.n && ps[i].None? then None else
        var p := seq(S.n, i requires 0 <= i < S.n => ps[i].value);
        var g :- RunGarble(S, M, GarbleState(map[], r.wires, seq(S.n, i requires 0 <= i < S.n => p[i].prfOut), []),
                           prog);
        var e :- RunEval(S, M, seq(S.n, i requires 0 <= i < S.n =>
          EvalState(map[], p[i].wires, g.circuit, r.inputMasks[i], r.outputMasks, 0, [])), prog);
        Some(Outcome(r, p, g, e))
  }

  /** Every key stream, wire buffer, table and mask has been read to its end. */
  predicate AllRead<K>(n: nat, o: Outcome<K>) {
    && |o.prf| == |o.eval| == |o.garble.prfIn| == n && |o.garble.wiresIn| == 0
    && forall i :: 0 <= i < n ==> |o.prf[i].keysIn| == 0 && |o.garble.prfIn[i]| == 0 && EvalDone(o.eval[i])
  }

  /** Garbled evaluation computes plain evaluation, at every party and on every wire. */
  lemma ExecuteIsPlain<K(!new)>(S: Setup<K>, prog: seq<Instruction>)
    requires ValidSetup(S) && WellFormed(S.n, {}, prog)
    ensures Execute(S, prog).Some?
    ensures AllRead(S.n, Execute(S, prog).value)
    ensures var o, v := Execute(S, prog).value, RunPlain(S, Nothing(), prog);
      forall i :: 0 <= i < S.n ==>
        && o.eval[i].outputs == v.outputs
        && EvalRegs(S, o.random.regs, o.eval[i].regs, v)
  {
    var M := AllPhases(S);
    AllPhasesAre(S);
    var v, r := Nothing(), Started<K>(S);
    RunRandomOk(S, M, r, v, prog);
    var r2 := RunRandom(S, M, r, prog).value;
    var p := seq(S.n, i requires 0 <= i < S.n => PRFStarted(r2.msgKeys[i]));
    forall i | 0 <= i < S.n
      ensures RunPRF(S, M, i, p[i], prog).Some? && PRFGrew(p[i], RunPRF(S, M, i, p[i], prog).value)
      ensures RunPRF(S, M, i, p[i], prog).value.keysIn == []
    {
      RunPRFOk(S, M, i, r, p[i], v, prog);
    }
    var p2 := seq(S.n, i requires 0 <= i < S.n => RunPRF(S, M, i, p[i], prog).value);
    assert KeyRun(S, M, prog, r, r2, p, p2);
    var g := GarbleState(map[], r2.wires, seq(S.n, i requires 0 <= i < S.n => p2[i].prfOut), []);
    assert g.prfIn == PRFSent(p, p2);
    RunGarbleOk(S, M, prog, r, r2, p, p2, g, v);
    var g2 := RunGarble(S, M, g, prog).value;
    var e := seq(S.n, i requires 0 <= i < S.n =>
      EvalState(map[], p2[i].wires, g2.circuit, r2.inputMasks[i], r2.outputMasks, 0, []));
    RunEvalOk(S, M, prog, r, r2, p, p2, g, g2, e, v);
    ExecuteUnfolds(S, prog, r2, p, p2, g2, RunEval(S, M, e, prog).value);
  }

  lemma ExecuteUnfolds<K(!new)>(S: Setup<K>, prog: seq<Instruction>, r2: RandomState<K>, p: seq<PRFState<K>>,
                                p2: seq<PRFState<K>>, g2: GarbleState<K>, e2: seq<EvalState<K>>)
    requires RunRandom(S, AllPhases(S), Started(S), prog) == Some(r2)
      && |r2.msgKeys| == |r2.inputMasks| == |p| == |p2| == S.n
    requires forall i :: 0 <= i < S.n ==>
      p[i] == PRFStarted(r2.msgKeys[i]) && RunPRF(S, AllPhases(S), i, p[i], prog) == Some(p2[i])
    requires RunGarble(S, AllPhases(S), GarbleState(map[], r2.wires, seq(S.n, i requires 0 <= i < S.n => p2[i].prfOut),
                                                    []), prog) == Some(g2)
    requires RunEval(S, AllPhases(S), seq(S.n, i requires 0 <= i < S.n =>
      EvalState(map[], p2[i].wires, g2.circuit, r2.inputMasks[i], r2.outputMasks, 0, [])), prog) == Some(e2)
    ensures Execute(S, prog) == Some(Outcome(r2, p2, g2, e2))
  {
    var ps := seq(S.n, i requires 0 <= i < S.n => RunPRF(S, AllPhases(S), i, PRFStarted(r2.msgKeys[i]), prog));
    assert forall i :: 0 <= i < S.n ==> ps[i] == Some(p2[i]);
    assert p2 == seq(S.n, i requires 0 <= i < S.n => ps[i].value);
  }

  /** A run is a run of every phase. */
  lemma ExecuteParts<K>(S: Setup<K>, prog: seq<Instruction>)
    requires Execute(S, prog).Some?
    ensures var o := Execute(S, prog).value;
      && RunRandom(S, AllPhases(S), Started(S), prog) == Some(o.random)
        && |o.random.msgKeys| == |o.random.inputMasks| == S.n
      && |o.prf| == S.n
      && (forall i :: 0 <= i < S.n ==>
           RunPRF(S, AllPhases(S), i, PRFStarted(o.random.msgKeys[i]), prog) == Some(o.prf[i]))
      && RunGarble(S, AllPhases(S), GarbleStarted(S, o), prog) == Some(o.garble)
      && RunEval(S, AllPhases(S), EvalStarted(S, o), prog) == Some(o.eval)
  {
  }

  /** The state in which garbling starts. */
  ghost function GarbleStarted<K>(S: Setup<K>, o: Outcome<K>): GarbleState<K>
    requires |o.prf| == S.n
  {
    GarbleState(map[], o.random.wires, seq(S.n, i requires 0 <= i < S.n => o.prf[i].prfOut), [])
  }

  /** The states in which evaluation starts. */
  ghost function EvalStarted<K>(S: Setup<K>, o: Outcome<K>): seq<EvalState<K>>
    requires |o.prf| == S.n && |o.random.inputMasks| == S.n
  {
    seq(S.n, i requires 0 <= i < S.n =>
      EvalState(map[], o.prf[i].wires, o.garble.circuit, o.random.inputMasks[i], o.random.outputMasks, 0, []))
  }

  // ---------- what a program opens ----------

  /** The value that an instruction gives to its wire. Of a truth table f[3] is for two true bits,
      f[2] for a true left bit only, f[1] for a true right bit only, and f[0] for two false ones. */
  function ValueOf<K>(S: Setup<K>, v: Plain, s: Instruction): bool
    requires Uses(s) <= v.vals.Keys && !s.Output?
  {
    match s
    case Op(_, a, b, f) =>
      if v.vals[a] then (if v.vals[b] then f[3] else f[2]) else (if v.vals[b] then f[1] else f[0])
    case Xor(_, a, b) => (v.vals[a] && !v.vals[b]) || (!v.vals[a] && v.vals[b])
    case Input(_, _, value) => value
    case PublicInput(_, value) => value
    case Random(_) => S.coin(v.draws)
    case Copy(_, a) => v.vals[a]
  }

  lemma {:induction false} RunPlainConcat<K>(S: Setup<K>, v: Plain, p: seq<Instruction>, q: seq<Instruction>)
    requires WellFormed(S.n, v.vals.Keys, p + q)
    ensures WellFormed(S.n, v.vals.Keys, p) && WellFormed(S.n, RunPlain(S, v, p).vals.Keys, q)
    ensures RunPlain(S, v, p + q) == RunPlain(S, RunPlain(S, v, p), q)
    decreases |p|
  {
    if p == [] {
      assert p + q == q;
    } else {
      assert (p + q)[1..] == p[1..] + q;
      var v1 := PlainStep(S, v, p[0]);
      assert v1.vals.Keys == v.vals.Keys + Defines(p[0]);
      RunPlainConcat(S, v1, p[1..], q);
    }
  }

  lemma StepAndOutput<K>(S: Setup<K>, v: Plain, s: Instruction)
    requires !s.Output? && WellFormed(S.n, v.vals.Keys, [s, Output(s.dest)])
    ensures Uses(s) <= v.vals.Keys
    ensures RunPlain(S, v, [s, Output(s.dest)]).outputs == v.outputs + [ValueOf(S, v, s)]
  {
    var v1 := PlainStep(S, v, s);
    var last := [Output(s.dest)];
    assert [s, Output(s.dest)][1..] == last && last[1..] == [];
    assert v1.vals.Keys == v.vals.Keys + Defines(s) && v1.outputs == v.outputs;
    assert RunPlain(S, v1, last) == PlainStep(S, v1, Output(s.dest));
  }

  /** After any program, the output of one more instruction is its value, at every party; with the
      table that has a one at the end only, the conjunction of its operands. */
  lemma ResultOpens<K(!new)>(S: Setup<K>, prog: seq<Instruction>, s: Instruction)
    requires ValidSetup(S) && !s.Output? && WellFormed(S.n, {}, prog + [s, Output(s.dest)])
    ensures WellFormed(S.n, {}, prog) && Uses(s) <= RunPlain(S, Nothing(), prog).vals.Keys
    ensures var o, v := Execute(S, prog + [s, Output(s.dest)]), RunPlain(S, Nothing(), prog);
      o.Some? && |o.value.eval| == S.n && forall i :: 0 <= i < S.n ==>
        && o.value.eval[i].outputs == v.outputs + [ValueOf(S, v, s)]
        && (s.Op? && s.func == [false, false, false, true] ==>
              o.value.eval[i].outputs == v.outputs + [v.vals[s.left] && v.vals[s.right]])
  {
    RunPlainConcat(S, Nothing(), prog, [s, Output(s.dest)]);
    StepAndOutput(S, RunPlain(S, Nothing(), prog), s);
    ExecuteIsPlain(S, prog + [s, Output(s.dest)]);
  }
}
