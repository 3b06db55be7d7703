/**
 The protocol of Protocol on objects: the trusted party and the parties of Parties run a program through
 the four phases, handing over their buffers in between, and the parties end with the plain outputs.
 */
module Execution {
  import opened Keys
  import opened Garbling
  import opened Simulation
  import opened Protocol
  import opened Registers
  import opened Parties

  // ---------- one object, one phase ----------

  lemma Rest<T>(s: seq<T>, k: nat)
    requires k < |s|
    ensures s[k..] != [] && s[k..][0] == s[k] && s[k..][1..] == s[k + 1..]
  {
  }

  /** The trusted party draws keys and masks. */
  method RandomPhase<K>(t: TrustedProgramParty<K>, prog: seq<Instruction>)
    requires t.Valid() && RunRandom(t.S, AllPhases(t.S), t.Random(), prog).Some?
    modifies t`wires, t`msgKeys, t`inputMasks, t`outputMasks, t`draws, t.randomRegs, t.randomRegs.Repr
    ensures t.Valid() && Some(t.Random()) == RunRandom(t.S, AllPhases(t.S), old(t.Random()), prog)
    ensures fresh(t.randomRegs.Repr - old(t.randomRegs.Repr))
  {
    ghost var goal := RunRandom(t.S, AllPhases(t.S), t.Random(), prog);
    var k := 0;
    assert prog[k..] == prog;
    while k < |prog|
      invariant 0 <= k <= |prog| && t.Valid() && RunRandom(t.S, AllPhases(t.S), t.Random(), prog[k..]) == goal
      invariant fresh(t.randomRegs.Repr - old(t.randomRegs.Repr))
    {
      Rest(prog, k);
      var ok := t.RandomInstruction(prog[k]);
      k := k + 1;
    }
  }

  /** A party evaluates its function. */
  method PRFPhase<K>(p: ProgramParty<K>, prog: seq<Instruction>)
    requires p.Valid() && RunPRF(p.S, AllPhases(p.S), p.id, p.PRF(), prog).Some?
    modifies p`keysForPRF, p`prfOutputs, p`wires, p`gateCounter, p.prfRegs, p.prfRegs.Repr
    ensures p.Valid() && Some(p.PRF()) == RunPRF(p.S, AllPhases(p.S), p.id, old(p.PRF()), prog)
    ensures fresh(p.prfRegs.Repr - old(p.prfRegs.Repr))
  {
    ghost var goal := RunPRF(p.S, AllPhases(p.S), p.id, p.PRF(), prog);
    var k := 0;
    assert prog[k..] == prog;
    while k < |prog|
      invariant 0 <= k <= |prog| && p.Valid() && RunPRF(p.S, AllPhases(p.S), p.id, p.PRF(), prog[k..]) == goal
      invariant fresh(p.prfRegs.Repr - old(p.prfRegs.Repr))
    {
      Rest(prog, k);
      var ok := p.PRFInstruction(prog[k]);
      k := k + 1;
    }
  }

  /** The trusted party garbles. */
  method GarblePhase<K>(t: TrustedProgramParty<K>, prog: seq<Instruction>)
    requires t.Valid() && RunGarble(t.S, AllPhases(t.S), t.Garbled(), prog).Some?
    modifies t`wires, t`prfOutputs, t`circuit, t.regs, t.regs.Repr
    ensures t.Valid() && Some(t.Garbled()) == RunGarble(t.S, AllPhases(t.S), old(t.Garbled()), prog)
    ensures fresh(t.regs.Repr - old(t.regs.Repr))
  {
    ghost var goal := RunGarble(t.S, AllPhases(t.S), t.Garbled(), prog);
    var k := 0;
    assert prog[k..] == prog;
    while k < |prog|
      invariant 0 <= k <= |prog| && t.Valid() && RunGarble(t.S, AllPhases(t.S), t.Garbled(), prog[k..]) == goal
      invariant fresh(t.regs.Repr - old(t.regs.Repr))
    {
      Rest(prog, k);
      var ok := t.GarbleInstruction(prog[k]);
      k := k + 1;
    }
  }

  // ---------- the parties together ----------

  ghost predicate Apart<K>(p: ProgramParty<K>, q: ProgramParty<K>)
    reads p.regs, q.regs
  {
    p != q && p.regs != q.regs && p.regs != q.prfRegs && p.prfRegs != q.regs && p.regs.Repr !! q.regs.Repr
  }

  ghost predicate Inside<K>(p: ProgramParty<K>, foot: set<object>)
    reads p.regs
  {
    p in foot && p.regs in foot && p.regs.Repr <= foot
  }

  /** The parties of a run; foot has everything that they write to. */
  ghost predicate Assembled<K>(S: Setup<K>, parties: seq<ProgramParty<K>>, foot: set<object>)
    reads *
  {
    && |parties| == S.n
    && (forall i :: 0 <= i < |parties| ==>
          parties[i].Valid() && parties[i].S == S && parties[i].id == i && Inside(parties[i], foot))
    && forall i, j :: 0 <= i < |parties| && 0 <= j < |parties| && i != j ==> Apart(parties[i], parties[j])
  }

  /** One party takes a step without communication; the others keep their states. */
  method StepParty<K>(S: Setup<K>, parties: seq<ProgramParty<K>>, i: nat, s: Instruction, ghost foot: set<object>)
      returns (ghost foot1: set<object>)
    requires Assembled(S, parties, foot) && i < S.n && !s.Input?
    requires EvalLocal(S, i, parties[i].Evaluated(), s).Some?
    modifies foot
    ensures Assembled(S, parties, foot1) && foot <= foot1 && fresh(foot1 - foot)
    ensures Some(parties[i].Evaluated()) == EvalLocal(S, i, old(parties[i].Evaluated()), s)
    ensures forall j :: 0 <= j < S.n && j != i ==> parties[j].Evaluated() == old(parties[j].Evaluated())
  {
    var p := parties[i];
    var ok := p.EvalInstruction(s);
    foot1 := foot + p.regs.Repr;
    forall j | 0 <= j < S.n && j != i
      ensures parties[j].Valid() && Inside(parties[j], foot1) && Apart(parties[j], p) && Apart(p, parties[j])
      ensures parties[j].Evaluated() == old(parties[j].Evaluated())
    {
      assert old(Apart(parties[j], p));
    }
    forall j, k | 0 <= j < S.n && 0 <= k < S.n && j != i && k != i && j != k
      ensures Apart(parties[j], parties[k])
    {
      assert old(Apart(parties[j], parties[k]) && Apart(parties[j], p) && Apart(parties[k], p));
    }
  }

  /** The states of the parties. */
  ghost predicate Holds<K>(parties: seq<ProgramParty<K>>, es: seq<EvalState<K>>)
    requires forall i :: 0 <= i < |parties| ==> parties[i].Valid()
    reads *
  {
    |es| == |parties| && forall i :: 0 <= i < |parties| ==> parties[i].Evaluated() == es[i]
  }

  /** Every party takes a step without communication. */
  method LocalRound<K>(S: Setup<K>, parties: seq<ProgramParty<K>>, s: Instruction, ghost foot: set<object>,
                       ghost es: seq<EvalState<K>>) returns (ghost foot1: set<object>)
    requires Assembled(S, parties, foot) && Holds(parties, es)
    requires !s.Input? && EvalStep(S, AllPhases(S), es, s).Some?
    modifies foot
    ensures Assembled(S, parties, foot1) && foot <= foot1 && fresh(foot1 - foot)
    ensures Holds(parties, EvalStep(S, AllPhases(S), es, s).value)
  {
    foot1 := foot;
    ghost var next := EvalStep(S, AllPhases(S), es, s).value;
    LocalNext(S, es, s);
    var i := 0;
    while i < S.n
      invariant 0 <= i <= S.n && Assembled(S, parties, foot1) && foot <= foot1 && fresh(foot1 - foot)
      invariant forall j :: 0 <= j < S.n ==> parties[j].Evaluated() == if j < i then next[j] else es[j]
    {
      foot1 := StepParty(S, parties, i, s, foot1);
      i := i + 1;
    }
  }

  lemma LocalNext<K>(S: Setup<K>, es: seq<EvalState<K>>, s: Instruction)
    requires |es| == S.n && !s.Input? && EvalStep(S, AllPhases(S), es, s).Some?
    ensures |EvalStep(S, AllPhases(S), es, s).value| == S.n
    ensures forall i :: 0 <= i < S.n ==> EvalLocal(S, i, es[i], s) == Some(EvalStep(S, AllPhases(S), es, s).value[i])
  {
  }

  // ---------- inputs ----------

  /** A party that knows the external value of an input, before the labels are exchanged. */
  ghost function Masked<K>(S: Setup<K>, i: nat, e: EvalState<K>, s: Instruction, ext: bool): Option<EvalState<K>>
    requires i < S.n && s.Input?
  {
    var w := InputRegister(S, i, e, s.dest, ext, OwnMask(e, s.from == i));
    if w.None? || (s.from == i && |e.inputMasks| < 1) then None else
      Some(e.(regs := e.regs[s.dest := w.value], wiresIn := e.wiresIn[1..],
              inputMasks := if s.from == i then e.inputMasks[1..] else e.inputMasks))
  }

  /** A party that has received the labels. */
  ghost function Labelled<K>(e: EvalState<K>, d: nat, ext: bool, labels: seq<K>): EvalState<K>
    requires d in e.regs
  {
    e.(regs := e.regs[d := e.regs[d].(entry := labels, keys := e.regs[d].keys.Set(ext, labels))])
  }

  /** Party i can take part in the input. */
  ghost predicate CanMask<K>(S: Setup<K>, i: nat, e: EvalState<K>, s: Instruction, ext: bool)
    requires i < S.n && s.Input?
  {
    var m := Masked(S, i, e, s, ext);
    m.Some? && var r := m.value.regs[s.dest]; Sized(S.n, r) && r.external == Some(ext)
  }

  /** What the input step needs of party i. */
  lemma InputPart<K>(S: Setup<K>, es: seq<EvalState<K>>, s: Instruction, ext: bool, i: nat)
    requires |es| == S.n && s.Input? && EvalInput(S, es, s.dest, s.from, s.value).Some? && i < S.n
    requires MaskedInput(es, s.from, s.value) == Some(ext)
    ensures CanMask(S, i, es[i], s, ext)
    ensures var r := InputRegisters(S, es, s.dest, s.from, ext)[i];
      r.Some? && Masked(S, i, es[i], s, ext).value.regs[s.dest] == r.value
  {
    var rs := InputRegisters(S, es, s.dest, s.from, ext);
    assert rs[i].Some? && Sized(S.n, rs[i].value);
  }

  /** The input step masks and then labels. */
  lemma InputParts<K>(S: Setup<K>, es: seq<EvalState<K>>, s: Instruction, ext: bool)
    requires |es| == S.n && s.Input? && EvalInput(S, es, s.dest, s.from, s.value).Some?
    requires MaskedInput(es, s.from, s.value) == Some(ext)
    ensures forall i :: 0 <= i < S.n ==> CanMask(S, i, es[i], s, ext)
    ensures var labels, next := Labels(S, es, s, ext), EvalInput(S, es, s.dest, s.from, s.value).value;
      |next| == S.n && forall i :: 0 <= i < S.n ==>
        next[i] == Labelled(Masked(S, i, es[i], s, ext).value, s.dest, ext, labels)
  {
    var rs := InputRegisters(S, es, s.dest, s.from, ext);
    forall i | 0 <= i < S.n
      ensures CanMask(S, i, es[i], s, ext) && rs[i].Some?
        && Masked(S, i, es[i], s, ext).value.regs[s.dest] == rs[i].value
    {
      InputPart(S, es, s, ext, i);
    }
    LabelsAre(S, es, s, ext, rs);
    InputUnfolds(S, es, s, ext, rs, Labels(S, es, s, ext));
    forall i | 0 <= i < S.n
      ensures EvalInput(S, es, s.dest, s.from, s.value).value[i]
        == Labelled(Masked(S, i, es[i], s, ext).value, s.dest, ext, Labels(S, es, s, ext))
    {
      LabelledMasked(S, i, es[i], s, ext, rs[i].value, Labels(S, es, s, ext));
    }
  }

  /** The state of party i after the input, given its register and the labels. */
  ghost function AfterInput<K>(i: nat, e: EvalState<K>, s: Instruction, ext: bool, r: Reg<K>,
                               labels: seq<K>): EvalState<K>
    requires s.Input? && |e.wiresIn| >= 1 && (s.from == i ==> |e.inputMasks| >= 1)
  {
    e.(regs := e.regs[s.dest := r.(entry := labels, keys := r.keys.Set(ext, labels))], wiresIn := e.wiresIn[1..],
       inputMasks := if s.from == i then e.inputMasks[1..] else e.inputMasks)
  }

  lemma LabelledMasked<K>(S: Setup<K>, i: nat, e: EvalState<K>, s: Instruction, ext: bool, r: Reg<K>, labels: seq<K>)
    requires i < S.n && s.Input? && CanMask(S, i, e, s, ext) && Masked(S, i, e, s, ext).value.regs[s.dest] == r
    ensures |e.wiresIn| >= 1 && (s.from == i ==> |e.inputMasks| >= 1)
    ensures Labelled(Masked(S, i, e, s, ext).value, s.dest, ext, labels) == AfterInput(i, e, s, ext, r, labels)
  {
    var m := Masked(S, i, e, s, ext).value;
    var q := r.(entry := labels, keys := r.keys.Set(ext, labels));
    assert m.regs[s.dest := q] == e.regs[s.dest := q];
  }

  lemma InputUnfolds<K>(S: Setup<K>, es: seq<EvalState<K>>, s: Instruction, ext: bool, rs: seq<Option<Reg<K>>>,
                        labels: seq<K>)
    requires |es| == S.n && s.Input? && EvalInput(S, es, s.dest, s.from, s.value).Some?
    requires MaskedInput(es, s.from, s.value) == Some(ext) && rs == InputRegisters(S, es, s.dest, s.from, ext)
    requires forall i :: 0 <= i < S.n ==> rs[i].Some? && |rs[i].value.entry| == S.n
    requires labels == seq(S.n, i requires 0 <= i < S.n => rs[i].value.entry[i])
    ensures |EvalInput(S, es, s.dest, s.from, s.value).value| == S.n
    ensures forall i :: 0 <= i < S.n ==>
      && |es[i].wiresIn| >= 1 && (s.from == i ==> |es[i].inputMasks| >= 1)
      && EvalInput(S, es, s.dest, s.from, s.value).value[i] == AfterInput(i, es[i], s, ext, rs[i].value, labels)
  {
  }

  lemma LabelsAre<K>(S: Setup<K>, es: seq<EvalState<K>>, s: Instruction, ext: bool, rs: seq<Option<Reg<K>>>)
    requires |es| == |rs| == S.n && s.Input? && forall i :: 0 <= i < S.n ==>
      CanMask(S, i, es[i], s, ext) && rs[i].Some? && Masked(S, i, es[i], s, ext).value.regs[s.dest] == rs[i].value
    ensures forall i :: 0 <= i < S.n ==> |rs[i].value.entry| == S.n
    ensures Labels(S, es, s, ext) == seq(S.n, i requires 0 <= i < S.n => rs[i].value.entry[i])
  {
    forall i | 0 <= i < S.n
      ensures |rs[i].value.entry| == S.n
    {
      assert CanMask(S, i, es[i], s, ext);
    }
  }

  /** The labels that the parties send. */
  ghost function Labels<K>(S: Setup<K>, es: seq<EvalState<K>>, s: Instruction, ext: bool): seq<K>
    requires |es| == S.n && s.Input?
    requires forall i :: 0 <= i < S.n ==> CanMask(S, i, es[i], s, ext)
  {
    seq(S.n, i requires 0 <= i < S.n =>
      assert CanMask(S, i, es[i], s, ext);
      Masked(S, i, es[i], s, ext).value.regs[s.dest].entry[i])
  }

  /** One party learns the external value. */
  method MaskParty<K>(S: Setup<K>, parties: seq<ProgramParty<K>>, i: nat, s: Instruction, received: bool,
                      ghost foot: set<object>) returns (ext: bool, ghost foot1: set<object>)
    requires Assembled(S, parties, foot) && i < S.n && s.Input?
    requires s.from == i ==> |parties[i].inputMasks| >= 1
    requires Masked(S, i, parties[i].Evaluated(), s,
                    if s.from == i then parties[i].inputMasks[0] != s.value else received).Some?
    modifies foot
    ensures Assembled(S, parties, foot1) && foot <= foot1 && fresh(foot1 - foot)
    ensures ext == if s.from == i then old(parties[i].inputMasks)[0] != s.value else received
    ensures Some(parties[i].Evaluated()) == Masked(S, i, old(parties[i].Evaluated()), s, ext)
    ensures forall j :: 0 <= j < S.n && j != i ==> parties[j].Evaluated() == old(parties[j].Evaluated())
  {
    var p := parties[i];
    var ok, r;
    ok, ext, r := p.EvalInputMasked(s, received);
    foot1 := foot + p.regs.Repr;
    forall j | 0 <= j < S.n && j != i
      ensures parties[j].Valid() && Inside(parties[j], foot1) && Apart(parties[j], p) && Apart(p, parties[j])
      ensures parties[j].Evaluated() == old(parties[j].Evaluated())
    {
      assert old(Apart(parties[j], p));
    }
    forall j, k | 0 <= j < S.n && 0 <= k < S.n && j != i && k != i && j != k
      ensures Apart(parties[j], parties[k])
    {
      assert old(Apart(parties[j], parties[k]) && Apart(parties[j], p) && Apart(parties[k], p));
    }
  }

  /** One party receives the labels. */
  method LabelParty<K>(S: Setup<K>, parties: seq<ProgramParty<K>>, i: nat, s: Instruction, ghost ext: bool,
                       labels: seq<K>, ghost foot: set<object>)
    requires Assembled(S, parties, foot) && i < S.n && s.Input? && |labels| == S.n
      && s.dest in parties[i].Evaluated().regs
    requires var r := parties[i].Evaluated().regs[s.dest];
      Sized(S.n, r) && r.external == Some(ext) && labels[i] == r.entry[i]
    modifies foot
    ensures Assembled(S, parties, foot)
    ensures parties[i].Evaluated() == Labelled(old(parties[i].Evaluated()), s.dest, ext, labels)
    ensures forall j :: 0 <= j < S.n && j != i ==> parties[j].Evaluated() == old(parties[j].Evaluated())
  {
    var p := parties[i];
    ghost var before := p.Evaluated().regs[s.dest];
    assert s.dest in p.regs.regs;
    assert labels[i := before.entry[i]] == labels;
    var ok := p.EvalInputLabels(s.dest, labels);
    forall j | 0 <= j < S.n && j != i
      ensures parties[j].Evaluated() == old(parties[j].Evaluated())
    {
      assert old(Apart(parties[j], p));
    }
  }

  /** The states of the parties once they know the external value. */
  ghost predicate AllMasked<K>(S: Setup<K>, parties: seq<ProgramParty<K>>, es: seq<EvalState<K>>, s: Instruction,
                               ext: bool)
    requires |es| == |parties| == S.n && s.Input? && forall i :: 0 <= i < |parties| ==> parties[i].Valid()
    reads *
  {
    forall j :: 0 <= j < S.n ==> Some(parties[j].Evaluated()) == Masked(S, j, es[j], s, ext)
  }

  /** The owner of the input masks it, everybody learns the external value and sends a label. */
  method MaskRound<K>(S: Setup<K>, parties: seq<ProgramParty<K>>, s: Instruction, ghost foot: set<object>,
                      ghost es: seq<EvalState<K>>) returns (ghost foot1: set<object>, ghost ext: bool)
    requires Assembled(S, parties, foot) && Holds(parties, es)
    requires s.Input? && EvalInput(S, es, s.dest, s.from, s.value).Some?
    modifies foot
    ensures Assembled(S, parties, foot1) && foot <= foot1 && fresh(foot1 - foot)
    ensures MaskedInput(es, s.from, s.value) == Some(ext) && AllMasked(S, parties, es, s, ext)
  {
    var sent;
    ghost var now;
    sent, foot1, now := MaskOwner(S, parties, s, foot, es);
    ext := sent;
    var i := 0;
    while i < S.n
      invariant 0 <= i <= S.n && Assembled(S, parties, foot1) && foot <= foot1 && fresh(foot1 - foot)
      invariant Holds(parties, now) && MaskedUpto(S, es, now, s, sent, i)
    {
      foot1, now := MaskTurn(S, parties, i, s, sent, foot1, es, now);
      i := i + 1;
    }
  }

  /** Unless party i is the owner, it learns the external value. */
  method MaskTurn<K>(S: Setup<K>, parties: seq<ProgramParty<K>>, i: nat, s: Instruction, sent: bool,
                     ghost foot: set<object>, ghost es: seq<EvalState<K>>, ghost now: seq<EvalState<K>>)
    returns (ghost foot1: set<object>, ghost next: seq<EvalState<K>>)
    requires Assembled(S, parties, foot) && i < S.n && s.Input? && Holds(parties, now)
    requires MaskedUpto(S, es, now, s, sent, i)
    modifies foot
    ensures Assembled(S, parties, foot1) && foot <= foot1 && fresh(foot1 - foot)
    ensures Holds(parties, next) && MaskedUpto(S, es, next, s, sent, i + 1)
  {
    foot1, next := foot, now;
    if i != s.from {
      NextMasked(S, es, now, s, sent, i);
      foot1 := MaskOther(S, parties, i, s, sent, foot, es[i]);
      next := now[i := Masked(S, i, es[i], s, sent).value];
    }
  }

  /** The owner masks its input with its next mask. */
  method MaskOwner<K>(S: Setup<K>, parties: seq<ProgramParty<K>>, s: Instruction, ghost foot: set<object>,
                      ghost es: seq<EvalState<K>>)
      returns (sent: bool, ghost foot1: set<object>, ghost now: seq<EvalState<K>>)
    requires Assembled(S, parties, foot) && Holds(parties, es)
    requires s.Input? && EvalInput(S, es, s.dest, s.from, s.value).Some?
    modifies foot
    ensures Assembled(S, parties, foot1) && foot <= foot1 && fresh(foot1 - foot)
    ensures Holds(parties, now) && MaskedUpto(S, es, now, s, sent, 0)
  {
    ghost var ext := MaskedInput(es, s.from, s.value).value;
    InputPart(S, es, s, ext, s.from);
    assert parties[s.from].Evaluated() == es[s.from];
    sent, foot1 := MaskParty(S, parties, s.from, s, false, foot);
    now := es[s.from := Masked(S, s.from, es[s.from], s, sent).value];
  }

  /** The owner and the parties before i know the external value. */
  ghost predicate MaskedUpto<K>(S: Setup<K>, es: seq<EvalState<K>>, now: seq<EvalState<K>>, s: Instruction, ext: bool,
                                i: nat)
    requires s.Input?
  {
    && |es| == |now| == S.n && EvalInput(S, es, s.dest, s.from, s.value).Some?
      && MaskedInput(es, s.from, s.value) == Some(ext)
    && forall j :: 0 <= j < S.n ==>
         if j < i || j == s.from then Some(now[j]) == Masked(S, j, es[j], s, ext) else now[j] == es[j]
  }

  lemma NextMasked<K>(S: Setup<K>, es: seq<EvalState<K>>, now: seq<EvalState<K>>, s: Instruction, ext: bool, i: nat)
    requires s.Input? && MaskedUpto(S, es, now, s, ext, i) && i < S.n && i != s.from
    ensures CanMask(S, i, es[i], s, ext) && now[i] == es[i]
    ensures MaskedUpto(S, es, now[i := Masked(S, i, es[i], s, ext).value], s, ext, i + 1)
  {
    InputPart(S, es, s, ext, i);
  }

  /** Another party than the owner learns the external value. */
  method MaskOther<K>(S: Setup<K>, parties: seq<ProgramParty<K>>, i: nat, s: Instruction, ext: bool,
                      ghost foot: set<object>, ghost e: EvalState<K>) returns (ghost foot1: set<object>)
    requires Assembled(S, parties, foot) && i < S.n && s.Input? && s.from != i && parties[i].Evaluated() == e
      && CanMask(S, i, e, s, ext)
    modifies foot
    ensures Assembled(S, parties, foot1) && foot <= foot1 && fresh(foot1 - foot)
    ensures Some(parties[i].Evaluated()) == Masked(S, i, e, s, ext)
    ensures forall j :: 0 <= j < S.n && j != i ==> parties[j].Evaluated() == old(parties[j].Evaluated())
  {
    var received;
    received, foot1 := MaskParty(S, parties, i, s, ext, foot);
  }

  /** Every party sends its label. */
  method GatherLabels<K>(S: Setup<K>, parties: seq<ProgramParty<K>>, s: Instruction, ghost ext: bool,
                         ghost foot: set<object>, ghost es: seq<EvalState<K>>) returns (labels: seq<K>)
    requires Assembled(S, parties, foot) && |es| == S.n && s.Input? && AllMasked(S, parties, es, s, ext)
    requires forall i :: 0 <= i < S.n ==> CanMask(S, i, es[i], s, ext)
    ensures labels == Labels(S, es, s, ext)
  {
    labels := [];
    var i := 0;
    while i < S.n
      invariant 0 <= i <= S.n && labels == Labels(S, es, s, ext)[..i]
    {
      assert Some(parties[i].Evaluated()) == Masked(S, i, es[i], s, ext) && CanMask(S, i, es[i], s, ext);
      labels := labels + [parties[i].regs.regs[s.dest].entry[i]];
      i := i + 1;
    }
  }

  /** Every party receives the labels. */
  method LabelRound<K>(S: Setup<K>, parties: seq<ProgramParty<K>>, s: Instruction, ghost ext: bool, labels: seq<K>,
                       ghost foot: set<object>, ghost es: seq<EvalState<K>>)
    requires Assembled(S, parties, foot) && |es| == S.n && s.Input? && AllMasked(S, parties, es, s, ext)
      && |labels| == S.n
    requires forall i :: 0 <= i < S.n ==> CanMask(S, i, es[i], s, ext)
    requires labels == Labels(S, es, s, ext)
    modifies foot
    ensures Assembled(S, parties, foot)
    ensures forall j :: 0 <= j < S.n ==>
      parties[j].Evaluated() == Labelled(Masked(S, j, es[j], s, ext).value, s.dest, ext, labels)
  {
    var i := 0;
    while i < S.n
      invariant 0 <= i <= S.n && Assembled(S, parties, foot)
      invariant forall j :: 0 <= j < i ==>
        parties[j].Evaluated() == Labelled(Masked(S, j, es[j], s, ext).value, s.dest, ext, labels)
      invariant forall j :: i <= j < S.n ==> Some(parties[j].Evaluated()) == Masked(S, j, es[j], s, ext)
    {
      assert CanMask(S, i, es[i], s, ext);
      LabelParty(S, parties, i, s, ext, labels, foot);
      i := i + 1;
    }
  }

  /** An input of one party. */
  method InputRound<K>(S: Setup<K>, parties: seq<ProgramParty<K>>, s: Instruction, ghost foot: set<object>,
                       ghost es: seq<EvalState<K>>) returns (ghost foot1: set<object>)
    requires Assembled(S, parties, foot) && Holds(parties, es)
    requires s.Input? && EvalInput(S, es, s.dest, s.from, s.value).Some?
    modifies foot
    ensures Assembled(S, parties, foot1) && foot <= foot1 && fresh(foot1 - foot)
    ensures Holds(parties, EvalInput(S, es, s.dest, s.from, s.value).value)
  {
    ghost var ext;
    foot1, ext := MaskRound(S, parties, s, foot, es);
    InputParts(S, es, s, ext);
    var labels := GatherLabels(S, parties, s, ext, foot1, es);
    LabelRound(S, parties, s, ext, labels, foot1, es);
  }

  /** All parties evaluate the program together. */
  method EvalPhase<K>(S: Setup<K>, parties: seq<ProgramParty<K>>, prog: seq<Instruction>, ghost foot: set<object>,
                      ghost es: seq<EvalState<K>>, ghost defined: set<nat>) returns (ghost foot1: set<object>)
    requires Assembled(S, parties, foot) && Holds(parties, es) && WellFormed(S.n, defined, prog)
    requires RunEval(S, AllPhases(S), es, prog).Some?
    modifies foot
    ensures Assembled(S, parties, foot1) && foot <= foot1 && fresh(foot1 - foot)
    ensures Holds(parties, RunEval(S, AllPhases(S), es, prog).value)
  {
    foot1 := foot;
    ghost var goal, now, known := RunEval(S, AllPhases(S), es, prog), es, defined;
    var k := 0;
    assert prog[k..] == prog;
    while k < |prog|
      invariant 0 <= k <= |prog| && Assembled(S, parties, foot1) && foot <= foot1 && fresh(foot1 - foot)
      invariant Holds(parties, now) && WellFormed(S.n, known, prog[k..])
      invariant RunEval(S, AllPhases(S), now, prog[k..]) == goal
    {
      Rest(prog, k);
      ghost var next := EvalStep(S, AllPhases(S), now, prog[k]).value;
      if prog[k].Input? {
        foot1 := InputRound(S, parties, prog[k], foot1, now);
      } else {
        foot1 := LocalRound(S, parties, prog[k], foot1, now);
      }
      now, known := next, known + Defines(prog[k]);
      k := k + 1;
    }
  }

  // ---------- the protocol ----------

  /** A party that has finished the second phase. */
  ghost predicate Prepared<K>(p: ProgramParty<K>, state: PRFState<K>)
    reads p, p.regs, p.prfRegs, p.prfRegs.Repr
  {
    && p.Valid() && p.PRF() == state && p.regs.regs == map[] && p.regs.Repr == {}
    && p.gateCounter2 == 0 && p.outputs == []
  }

  /** Creates one party and runs the second phase. */
  method PRFParty<K>(S: Setup<K>, prog: seq<Instruction>, i: nat, keys: seq<K>, ghost state: PRFState<K>)
      returns (p: ProgramParty<K>)
    requires |S.deltas| == S.n && i < S.n && RunPRF(S, AllPhases(S), i, PRFStarted(keys), prog) == Some(state)
    ensures Prepared(p, state) && p.S == S && p.id == i
    ensures fresh(p) && fresh(p.regs) && fresh(p.prfRegs) && fresh(p.prfRegs.Repr)
  {
    p := new ProgramParty(S, i, keys);
    assert p.PRF() == PRFStarted(keys);
    PRFPhase(p, prog);
  }

  /** The first parties of a run, having finished the second phase. */
  ghost predicate Gathered<K>(S: Setup<K>, parties: seq<ProgramParty<K>>, foot: set<object>, ps: seq<PRFState<K>>)
    reads *
  {
    && |parties| <= S.n && |parties| <= |ps|
    && (forall i :: 0 <= i < |parties| ==> parties[i].S == S && parties[i].id == i && Inside(parties[i], foot))
    && (forall i :: 0 <= i < |parties| ==> Prepared(parties[i], ps[i]))
    && forall i, j :: 0 <= i < |parties| && 0 <= j < |parties| && i != j ==> Apart(parties[i], parties[j])
  }

  /** The next party joins. */
  method PRFTurn<K>(S: Setup<K>, prog: seq<Instruction>, keys: seq<K>, parties: seq<ProgramParty<K>>,
                    ghost foot: set<object>, ghost ps: seq<PRFState<K>>)
    returns (p: ProgramParty<K>, ghost foot1: set<object>)
    requires |S.deltas| == S.n == |ps| && |parties| < S.n && Gathered(S, parties, foot, ps)
    requires RunPRF(S, AllPhases(S), |parties|, PRFStarted(keys), prog) == Some(ps[|parties|])
    ensures Gathered(S, parties + [p], foot1, ps) && foot <= foot1 && fresh(foot1 - foot) && fresh(p.prfRegs)
  {
    p := PRFParty(S, prog, |parties|, keys, ps[|parties|]);
    foot1 := foot + {p, p.regs};
  }

  /** Creates the parties and runs the second phase. */
  method PRFPhases<K>(S: Setup<K>, prog: seq<Instruction>, keys: seq<seq<K>>, ghost o: Outcome<K>)
    returns (parties: seq<ProgramParty<K>>, ghost foot: set<object>)
    requires |S.deltas| == S.n && |keys| == |o.prf| == S.n
    requires forall i :: 0 <= i < S.n ==> RunPRF(S, AllPhases(S), i, PRFStarted(keys[i]), prog) == Some(o.prf[i])
    ensures Assembled(S, parties, foot) && fresh(foot)
    ensures forall i :: 0 <= i < S.n ==> Prepared(parties[i], o.prf[i])
    ensures forall i :: 0 <= i < S.n ==> fresh(parties[i].prfRegs)
  {
    parties, foot := [], {};
    var i := 0;
    while i < S.n
      invariant 0 <= i <= S.n && |parties| == i && fresh(foot) && Gathered(S, parties, foot, o.prf)
      invariant forall j :: 0 <= j < i ==> fresh(parties[j].prfRegs)
    {
      var p;
      p, foot := PRFTurn(S, prog, keys[i], parties, foot, o.prf);
      parties := parties + [p];
      i := i + 1;
    }
  }

  /** The trusted party runs the third phase on what the parties sent. */
  method GarbleAll<K>(S: Setup<K>, t: TrustedProgramParty<K>, parties: seq<ProgramParty<K>>, prog: seq<Instruction>,
                      ghost o: Outcome<K>)
    requires t.Valid() && t.S == S && t.regs.regs == map[] && t.wires == o.random.wires && |parties| == |o.prf| == S.n
    requires forall i :: 0 <= i < S.n ==> parties[i].prfOutputs == o.prf[i].prfOut
    requires RunGarble(S, AllPhases(S), GarbleStarted(S, o), prog) == Some(o.garble)
    modifies t`wires, t`prfOutputs, t`circuit, t.regs, t.regs.Repr
    ensures t.circuit == o.garble.circuit
  {
    t.prfOutputs, t.circuit := [], [];
    var i := 0;
    while i < S.n
      invariant 0 <= i <= S.n && |t.prfOutputs| == i && t.circuit == [] && t.wires == o.random.wires
      invariant forall j :: 0 <= j < i ==> t.prfOutputs[j] == o.prf[j].prfOut
      invariant t.Valid() && t.regs.regs == map[] && t.regs.Repr == old(t.regs.Repr)
      invariant forall j :: 0 <= j < S.n ==> parties[j].prfOutputs == o.prf[j].prfOut
    {
      t.prfOutputs := t.prfOutputs + [parties[i].prfOutputs];
      i := i + 1;
    }
    assert t.prfOutputs == GarbleStarted(S, o).prfIn;
    assert t.regs.Values() == map[];
    assert t.Garbled() == GarbleStarted(S, o);
    GarblePhase(t, prog);
    assert t.Garbled() == o.garble;
  }

  method HandTo<K>(p: ProgramParty<K>, ghost state: PRFState<K>, circuit: seq<K>, inputMasks: seq<bool>,
                   outputMasks: seq<bool>)
    requires Prepared(p, state)
    modifies p`circuit, p`inputMasks, p`outputMasks
    ensures p.Valid() && p.Evaluated() == EvalState(map[], state.wires, circuit, inputMasks, outputMasks, 0, [])
  {
    assert p.wires == state.wires && p.regs.Values() == map[];
    p.circuit, p.inputMasks, p.outputMasks := circuit, inputMasks, outputMasks;
  }

  /** The garbled circuit and the masks are handed to the parties. */
  method HandOver<K>(S: Setup<K>, parties: seq<ProgramParty<K>>, ghost foot: set<object>, ghost o: Outcome<K>,
                     circuit: seq<K>, inputMasks: seq<seq<bool>>, outputMasks: seq<bool>)
    requires Assembled(S, parties, foot) && |o.prf| == S.n && |o.random.inputMasks| == S.n
    requires forall i :: 0 <= i < S.n ==> Prepared(parties[i], o.prf[i])
    requires circuit == o.garble.circuit && inputMasks == o.random.inputMasks && outputMasks == o.random.outputMasks
    modifies foot
    ensures Assembled(S, parties, foot) && Holds(parties, EvalStarted(S, o))
  {
    var i := 0;
    while i < S.n
      invariant 0 <= i <= S.n && Assembled(S, parties, foot)
      invariant forall j :: 0 <= j < i ==> parties[j].Evaluated() == EvalStarted(S, o)[j]
      invariant forall j :: i <= j < S.n ==> Prepared(parties[j], o.prf[j])
    {
      forall j | 0 <= j < S.n && j != i
        ensures parties[j] != parties[i]
      {
        assert Apart(parties[j], parties[i]);
      }
      HandTo(parties[i], o.prf[i], circuit, inputMasks[i], outputMasks);
      i := i + 1;
    }
  }

  /** A trusted party that has finished the first phase. */
  ghost predicate Drawn<K>(S: Setup<K>, t: TrustedProgramParty<K>, random: RandomState<K>)
    reads t, t.regs, t.randomRegs, t.randomRegs.Repr
  {
    t.Valid() && t.S == S && t.Random() == random && t.regs.regs == map[] && t.regs.Repr == {}
  }

  /** The first two phases, on new objects. */
  method FirstPhases<K>(S: Setup<K>, prog: seq<Instruction>, ghost o: Outcome<K>)
    returns (trusted: TrustedProgramParty<K>, parties: seq<ProgramParty<K>>, ghost foot: set<object>)
    requires |S.deltas| == S.n && |o.prf| == S.n && |o.random.msgKeys| == S.n
    requires RunRandom(S, AllPhases(S), Started(S), prog) == Some(o.random)
    requires forall i :: 0 <= i < S.n ==>
      RunPRF(S, AllPhases(S), i, PRFStarted(o.random.msgKeys[i]), prog) == Some(o.prf[i])
    ensures Drawn(S, trusted, o.random) && fresh(trusted) && fresh(trusted.regs)
    ensures Assembled(S, parties, foot) && fresh(foot) && forall i :: 0 <= i < S.n ==> Prepared(parties[i], o.prf[i])
    ensures forall i :: 0 <= i < S.n ==> trusted.regs != parties[i].regs && trusted.regs != parties[i].prfRegs
    ensures trusted.regs !in foot && trusted !in foot
  {
    trusted := new TrustedProgramParty(S);
    RandomPhase(trusted, prog);
    parties, foot := PRFPhases(S, prog, trusted.msgKeys, o);
  }

  /** The last two phases. */
  method LastPhases<K>(S: Setup<K>, prog: seq<Instruction>, trusted: TrustedProgramParty<K>,
                       parties: seq<ProgramParty<K>>, ghost foot: set<object>, ghost o: Outcome<K>)
      returns (ghost foot1: set<object>)
    requires WellFormed(S.n, {}, prog) && Drawn(S, trusted, o.random) && Assembled(S, parties, foot)
      && |o.prf| == |o.random.inputMasks| == S.n
    requires forall i :: 0 <= i < S.n ==> Prepared(parties[i], o.prf[i])
    requires forall i :: 0 <= i < S.n ==> trusted.regs != parties[i].regs && trusted.regs != parties[i].prfRegs
    requires RunGarble(S, AllPhases(S), GarbleStarted(S, o), prog) == Some(o.garble)
    requires RunEval(S, AllPhases(S), EvalStarted(S, o), prog) == Some(o.eval)
    requires trusted.regs !in foot && trusted !in foot
    modifies trusted, trusted.regs, foot
    ensures Assembled(S, parties, foot1) && Holds(parties, o.eval)
  {
    SentByParties(S, parties, o);
    GarbleAll(S, trusted, parties, prog, o);
    HandOver(S, parties, foot, o, trusted.circuit, trusted.inputMasks, trusted.outputMasks);
    foot1 := EvalPhase(S, parties, prog, foot, EvalStarted(S, o), {});
  }

  /** The whole protocol: every party ends with the outputs of plain evaluation. */
  method RunProtocol<K(==, !new)>(S: Setup<K>, prog: seq<Instruction>) returns (outputs: seq<seq<bool>>)
    requires ValidSetup(S) && WellFormed(S.n, {}, prog)
    ensures |outputs| == S.n && forall i :: 0 <= i < S.n ==> outputs[i] == RunPlain(S, Nothing(), prog).outputs
  {
    ExecuteIsPlain(S, prog);
    ExecuteParts(S, prog);
    ghost var o := Execute(S, prog).value;
    ghost var want := RunPlain(S, Nothing(), prog).outputs;
    assert forall i :: 0 <= i < S.n ==> o.eval[i].outputs == want;
    var trusted, parties, foot := FirstPhases(S, prog, o);
    foot := LastPhases(S, prog, trusted, parties, foot, o);
    outputs := CollectOutputs(S, parties, foot, o.eval, want);
  }

  method CollectOutputs<K>(S: Setup<K>, parties: seq<ProgramParty<K>>, ghost foot: set<object>,
                           ghost es: seq<EvalState<K>>, ghost want: seq<bool>) returns (outputs: seq<seq<bool>>)
    requires Assembled(S, parties, foot) && Holds(parties, es) && forall i :: 0 <= i < S.n ==> es[i].outputs == want
    ensures |outputs| == S.n && forall i :: 0 <= i < S.n ==> outputs[i] == want
  {
    outputs := [];
    var i := 0;
    while i < S.n
      invariant 0 <= i <= S.n && |outputs| == i && forall j :: 0 <= j < i ==> outputs[j] == want
    {
      assert parties[i].Evaluated() == es[i];
      outputs := outputs + [parties[i].outputs];
      i := i + 1;
    }
  }

  lemma SentByParties<K>(S: Setup<K>, parties: seq<ProgramParty<K>>, o: Outcome<K>)
    requires |parties| == |o.prf| == S.n && forall i :: 0 <= i < S.n ==> Prepared(parties[i], o.prf[i])
    ensures forall i :: 0 <= i < S.n ==> parties[i].prfOutputs == o.prf[i].prfOut
  {
  }
}
