/**
 What a block computes on the virtual machine: openings are started by appending the opened values
 to a queue, and stopped by taking the oldest values from it. Relates this to the steps of module
 Schedule, where every value on its way has a location of its own.
 */
module Queues {
  import opened Sequences
  import opened Schedule
  import opened Blocks

  datatype State<V> = State(store: Store<V>, queue: seq<V>)

  function Least(a: nat, b: nat): nat {
    if a < b then a else b
  }

  /** One instruction. A stop without enough values takes what there is, and zeros. */
  function Exec<V>(M: Machine<V>, st: State<V>, x: Inst): State<V> {
    match x
    case StartOpen(g, u) => State(st.store, st.queue + M.sem(Opening(g), Read(M, st.store, Regs(u))))
    case StopOpen(d) =>
      var n := Least(|d|, |st.queue|);
      State(Write(M, st.store, Regs(d), st.queue[..n]), st.queue[n..])
    case _ => State(Do(M, st.store, Encode([x], 0)), st.queue)
  }

  function ExecAll<V>(M: Machine<V>, st: State<V>, block: seq<Inst>): State<V>
    decreases |block|
  {
    if block == [] then st else ExecAll(M, Exec(M, st, block[0]), block[1..])
  }

  lemma {:induction false} ExecConcat<V>(M: Machine<V>, st: State<V>, a: seq<Inst>, b: seq<Inst>)
    ensures ExecAll(M, st, a + b) == ExecAll(M, ExecAll(M, st, a), b)
    decreases |a|
  {
    if a == [] {
      assert a + b == b;
    } else {
      assert (a + b)[1..] == a[1..] + b;
      ExecConcat(M, Exec(M, st, a[0]), a[1..], b);
    }
  }

  lemma ExecOne<V>(M: Machine<V>, st: State<V>, x: Inst)
    ensures ExecAll(M, st, [x]) == Exec(M, st, x)
  {
    assert [x][1..] == [];
  }

  function Along<T>(prog: seq<T>, order: seq<nat>): (r: seq<T>)
    requires InProgram(prog, order)
    ensures |r| == |order| && forall k :: 0 <= k < |order| ==> r[k] == prog[order[k]]
  {
    seq(|order|, k requires 0 <= k < |order| => prog[order[k]])
  }

  /** Opening acts on every value by itself. */
  ghost predicate OpensEach<V(!new)>(M: Machine<V>) {
    (forall g, a :: |M.sem(Opening(g), a)| == |a|) && forall g, a, b :: OpensBoth(M, g, a, b)
  }

  ghost predicate OpensBoth<V>(M: Machine<V>, g: bool, a: seq<V>, b: seq<V>) {
    M.sem(Opening(g), a + b) == M.sem(Opening(g), a) + M.sem(Opening(g), b)
  }

  ghost predicate CopiesEach<V(!new)>(M: Machine<V>) {
    forall a :: M.sem(COPY, a) == a
  }

  // ---------- reading and writing ----------

  lemma {:induction false} WriteAgrees<V>(M: Machine<V>, s: Store<V>, t: Store<V>, ls: seq<Loc>, vs: seq<V>, l: Loc)
    requires Get(M, s, l) == Get(M, t, l)
    ensures Get(M, Write(M, s, ls, vs), l) == Get(M, Write(M, t, ls, vs), l)
    decreases |ls|
  {
    if ls != [] {
      var v, rest := if vs == [] then M.zero else vs[0], if vs == [] then [] else vs[1..];
      WriteAgrees(M, s[ls[0] := v], t[ls[0] := v], ls[1..], rest, l);
    }
  }

  lemma {:induction false} ReadWritten<V>(M: Machine<V>, s: Store<V>, ls: seq<Loc>, vs: seq<V>, i: nat)
    requires i < |ls| == |vs| && forall j, k :: 0 <= j < k < |ls| ==> ls[j] != ls[k]
    ensures Get(M, Write(M, s, ls, vs), ls[i]) == vs[i]
    decreases |ls|
  {
    var s1 := s[ls[0] := vs[0]];
    if i == 0 {
      forall j | 0 <= j < |ls[1..]|
        ensures ls[1..][j] != ls[0]
      {
      }
      WriteElsewhere(M, s1, ls[1..], vs[1..], ls[0]);
    } else {
      forall j, k | 0 <= j < k < |ls[1..]|
        ensures ls[1..][j] != ls[1..][k]
      {
      }
      ReadWritten(M, s1, ls[1..], vs[1..], i - 1);
    }
  }

  lemma {:induction false} WriteAppend<V>(M: Machine<V>, s: Store<V>, a: seq<Loc>, b: seq<Loc>, vs: seq<V>)
    ensures var n := Least(|a|, |vs|);
      Write(M, s, a + b, vs) == Write(M, Write(M, s, a, vs[..n]), b, vs[n..])
    decreases |a|
  {
    var n := Least(|a|, |vs|);
    if a == [] {
      assert a + b == b && vs[n..] == vs;
    } else if vs == [] {
      assert (a + b)[1..] == a[1..] + b;
      WriteAppend(M, s[a[0] := M.zero], a[1..], b, []);
    } else {
      assert (a + b)[1..] == a[1..] + b;
      WriteAppend(M, s[a[0] := vs[0]], a[1..], b, vs[1..]);
      assert vs[..n][1..] == vs[1..][..n - 1] && vs[1..][n - 1..] == vs[n..];
    }
  }

  // ---------- pending openings along an order ----------

  function PendingAlong(prog: seq<Inst>, order: seq<nat>, k: nat): (r: seq<nat>)
    requires InProgram(prog, order) && k <= |order|
    ensures forall i :: 0 <= i < |r| ==> r[i] < |prog| && prog[r[i]].StartOpen?
    decreases k
  {
    if k == 0 then [] else Turn(prog, PendingAlong(prog, order, k - 1), order[k - 1])
  }

  function Turn(prog: seq<Inst>, pending: seq<nat>, x: nat): seq<nat>
    requires x < |prog|
  {
    match prog[x]
    case StartOpen(_, _) => pending + [x]
    case StopOpen(_) => if pending == [] then [] else pending[1..]
    case _ => pending
  }

  /** The oldest opening is the one that is stopped. */
  predicate StopsOldest(prog: seq<Inst>, order: seq<nat>, k: nat)
    requires InProgram(prog, order) && k < |order|
  {
    prog[order[k]].StopOpen? ==>
      PendingAlong(prog, order, k) != [] && PendingAlong(prog, order, k)[0] == StartOf(prog, order[k])
  }

  ghost predicate QueueOrder(prog: seq<Inst>, order: seq<nat>) {
    InProgram(prog, order) && forall k :: 0 <= k < |order| ==> StopsOldest(prog, order, k)
  }

  // ---------- the queue holds the slots of the pending openings ----------

  function SlotsOf(prog: seq<Inst>, p: nat): seq<Loc>
    requires p < |prog|
  {
    Slots(p, |Uses(prog[p])|)
  }

  function Waiting<V>(M: Machine<V>, prog: seq<Inst>, s: Store<V>, pending: seq<nat>): seq<V>
    requires InProgram(prog, pending)
  {
    if pending == [] then [] else Read(M, s, SlotsOf(prog, pending[0])) + Waiting(M, prog, s, pending[1..])
  }

  /** Equal but for values on their way. */
  ghost predicate Same<V(!new)>(M: Machine<V>, s: Store<V>, t: Store<V>) {
    forall l: Loc :: !l.Slot? ==> Get(M, s, l) == Get(M, t, l)
  }

  ghost predicate Related<V(!new)>(M: Machine<V>, prog: seq<Inst>, s: Store<V>, st: State<V>, pending: seq<nat>) {
    InProgram(prog, pending) && Same(M, s, st.store) && st.queue == Waiting(M, prog, s, pending)
  }

  /** Slots with the same values. */
  ghost predicate SlotsKept<V(!new)>(M: Machine<V>, s: Store<V>, t: Store<V>, p: nat) {
    forall i: nat :: Get(M, s, Slot(p, i)) == Get(M, t, Slot(p, i))
  }

  lemma {:induction false} WaitingKept<V(!new)>(M: Machine<V>, prog: seq<Inst>, s: Store<V>, t: Store<V>,
                                                pending: seq<nat>)
    requires InProgram(prog, pending) && forall p :: p in pending ==> SlotsKept(M, s, t, p)
    ensures Waiting(M, prog, s, pending) == Waiting(M, prog, t, pending)
    decreases |pending|
  {
    if pending != [] {
      var ls := SlotsOf(prog, pending[0]);
      assert SlotsKept(M, s, t, pending[0]);
      forall i | 0 <= i < |ls|
        ensures Read(M, s, ls)[i] == Read(M, t, ls)[i]
      {
        assert ls[i] == Slot(pending[0], i);
      }
      assert Read(M, s, ls) == Read(M, t, ls);
      WaitingKept(M, prog, s, t, pending[1..]);
    }
  }

  lemma {:induction false} WaitingAppend<V>(M: Machine<V>, prog: seq<Inst>, s: Store<V>, pending: seq<nat>, p: nat)
    requires InProgram(prog, pending) && p < |prog|
    ensures InProgram(prog, pending + [p])
    ensures Waiting(M, prog, s, pending + [p]) == Waiting(M, prog, s, pending) + Read(M, s, SlotsOf(prog, p))
    decreases |pending|
  {
    if pending == [] {
      assert (pending + [p])[1..] == [];
    } else {
      var more := pending + [p];
      assert more[1..] == pending[1..] + [p] && more[0] == pending[0];
      WaitingAppend(M, prog, s, pending[1..], p);
    }
  }

  predicate NoSlots(ls: seq<Loc>) {
    forall i :: 0 <= i < |ls| ==> !ls[i].Slot?
  }

  lemma SameReads<V(!new)>(M: Machine<V>, s: Store<V>, t: Store<V>, ls: seq<Loc>)
    requires Same(M, s, t) && NoSlots(ls)
    ensures Read(M, s, ls) == Read(M, t, ls)
  {
    forall i | 0 <= i < |ls|
      ensures Read(M, s, ls)[i] == Read(M, t, ls)[i]
    {
    }
  }

  /** The same values written to both stores, outside the slots. */
  lemma WriteBoth<V(!new)>(M: Machine<V>, prog: seq<Inst>, s: Store<V>, st: State<V>, ls: seq<Loc>, vs: seq<V>,
                           pending: seq<nat>)
    requires InProgram(prog, pending) && Same(M, s, st.store) && NoSlots(ls)
    ensures Same(M, Write(M, s, ls, vs), Write(M, st.store, ls, vs))
    ensures Waiting(M, prog, s, pending) == Waiting(M, prog, Write(M, s, ls, vs), pending)
  {
    var s1 := Write(M, s, ls, vs);
    forall l: Loc | !l.Slot?
      ensures Get(M, s1, l) == Get(M, Write(M, st.store, ls, vs), l)
    {
      WriteAgrees(M, s, st.store, ls, vs, l);
    }
    forall p | p in pending
      ensures SlotsKept(M, s, s1, p)
    {
      forall i: nat
        ensures Get(M, s, Slot(p, i)) == Get(M, s1, Slot(p, i))
      {
        WriteElsewhere(M, s, ls, vs, Slot(p, i));
      }
    }
    WaitingKept(M, prog, s, s1, pending);
  }

  lemma PlainStep<V(!new)>(M: Machine<V>, prog: seq<Inst>, s: Store<V>, st: State<V>, pending: seq<nat>, i: nat)
    requires Related(M, prog, s, st, pending) && i < |prog| && !prog[i].StartOpen? && !prog[i].StopOpen?
    ensures Related(M, prog, Do(M, s, Encode(prog, i)), Exec(M, st, prog[i]), pending)
  {
    var x := Encode(prog, i);
    assert x == Encode([prog[i]], 0);
    assert NoSlots(x.ins) && NoSlots(x.outs);
    SameReads(M, s, st.store, x.ins);
    WriteBoth(M, prog, s, st, x.outs, M.sem(x.op, Read(M, s, x.ins)), pending);
  }

  lemma StartStep<V(!new)>(M: Machine<V>, prog: seq<Inst>, s: Store<V>, st: State<V>, pending: seq<nat>, i: nat)
    requires Related(M, prog, s, st, pending) && i < |prog| && prog[i].StartOpen? && i !in pending && OpensEach(M)
    ensures Related(M, prog, Do(M, s, Encode(prog, i)), Exec(M, st, prog[i]), pending + [i])
  {
    var x := Encode(prog, i);
    var u := prog[i].uses;
    var vs := M.sem(Opening(prog[i].gf2n), Read(M, s, Regs(u)));
    var s1 := Write(M, s, x.outs, vs);
    assert x.outs == Slots(i, |u|) == SlotsOf(prog, i);
    SameReads(M, s, st.store, Regs(u));
    forall l: Loc | !l.Slot?
      ensures Get(M, s1, l) == Get(M, st.store, l)
    {
      WriteElsewhere(M, s, x.outs, vs, l);
    }
    forall p | p in pending
      ensures SlotsKept(M, s, s1, p)
    {
      forall k: nat
        ensures Get(M, s, Slot(p, k)) == Get(M, s1, Slot(p, k))
      {
        WriteElsewhere(M, s, x.outs, vs, Slot(p, k));
      }
    }
    WaitingKept(M, prog, s, s1, pending);
    WaitingAppend(M, prog, s1, pending, i);
    forall k | 0 <= k < |u|
      ensures Read(M, s1, x.outs)[k] == vs[k]
    {
      ReadWritten(M, s, x.outs, vs, k);
    }
    assert Read(M, s1, x.outs) == vs;
  }

  lemma StopStep<V(!new)>(M: Machine<V>, prog: seq<Inst>, s: Store<V>, st: State<V>, pending: seq<nat>, i: nat)
    requires Related(M, prog, s, st, pending) && i < |prog| && prog[i].StopOpen? && OpensPaired(prog) && CopiesEach(M)
    requires pending != [] && pending[0] == StartOf(prog, i)
    ensures Related(M, prog, Do(M, s, Encode(prog, i)), Exec(M, st, prog[i]), pending[1..])
  {
    assert PairedAt(prog, i);
    var x := Encode(prog, i);
    var d := prog[i].defs;
    var vs := Read(M, s, SlotsOf(prog, pending[0]));
    assert x.ins == SlotsOf(prog, pending[0]);
    assert st.queue == vs + Waiting(M, prog, s, pending[1..]);
    assert st.queue[..|d|] == vs && st.queue[|d|..] == Waiting(M, prog, s, pending[1..]);
    assert M.sem(COPY, vs) == vs;
    WriteBoth(M, prog, s, st, Regs(d), vs, pending[1..]);
  }

  lemma PendingStarted(prog: seq<Inst>, order: seq<nat>, k: nat)
    requires InProgram(prog, order) && k <= |order|
    ensures forall p :: p in PendingAlong(prog, order, k) ==> p in order[..k]
  {
    if k > 0 {
      PendingStarted(prog, order, k - 1);
      assert order[..k] == order[..k - 1] + [order[k - 1]];
    }
  }

  /** Running the steps of an order that stops the oldest openings first is what the machine does. */
  lemma {:induction false} RunIsExec<V(!new)>(M: Machine<V>, prog: seq<Inst>, s: Store<V>, order: seq<nat>, k: nat)
    requires OpensPaired(prog) && QueueOrder(prog, order) && NoDuplicates(order) && OpensEach(M) && CopiesEach(M)
      && k <= |order|
    ensures InProgram(Steps(prog), order[..k]) && InProgram(prog, order[..k])
    ensures Related(M, prog, Run(M, s, Steps(prog), order[..k]), ExecAll(M, State(s, []), Along(prog, order[..k])),
                    PendingAlong(prog, order, k))
  {
    if k == 0 {
      assert order[..0] == [];
    } else {
      RunIsExec(M, prog, s, order, k - 1);
      var before, i := order[..k - 1], order[k - 1];
      assert order[..k] == before + [i];
      RunConcat(M, s, Steps(prog), before, [i]);
      assert [i][1..] == [];
      assert Along(prog, order[..k]) == Along(prog, before) + [prog[i]];
      ExecConcat(M, State(s, []), Along(prog, before), [prog[i]]);
      var s1, st := Run(M, s, Steps(prog), before), ExecAll(M, State(s, []), Along(prog, before));
      ExecOne(M, st, prog[i]);
      var pending := PendingAlong(prog, order, k - 1);
      assert StopsOldest(prog, order, k - 1);
      PendingStarted(prog, order, k - 1);
      match prog[i] {
        case StartOpen(_, _) => StartStep(M, prog, s1, st, pending, i);
        case StopOpen(_) => StopStep(M, prog, s1, st, pending, i);
        case _ => PlainStep(M, prog, s1, st, pending, i);
      }
    }
  }

  // ---------- which orders stop the oldest opening first ----------

  /** The stop of opening s is in the order. */
  predicate Stopped(prog: seq<Inst>, order: seq<nat>, s: nat)
    requires InProgram(prog, order)
  {
    exists k :: 0 <= k < |order| && prog[order[k]].StopOpen? && StartOf(prog, order[k]) == s
  }

  /** Stop t comes after its start, and after the stops of all openings that were started earlier. */
  ghost predicate StopInTurn(prog: seq<Inst>, order: seq<nat>, k: nat)
    requires InProgram(prog, order) && k < |order|
  {
    prog[order[k]].StopOpen? ==>
      && StartOf(prog, order[k]) in order[..k]
      && forall s: nat :: s < |prog| && prog[s].StartOpen? && Before(order, s, StartOf(prog, order[k])) ==>
        Stopped(prog, order[..k], s)
  }

  /** The openings that are pending: started, and not stopped, in the order of their starts. */
  ghost predicate PendingOk(prog: seq<Inst>, order: seq<nat>, k: nat, pending: seq<nat>)
    requires InProgram(prog, order) && k <= |order|
  {
    && (forall s: nat :: s in pending <==> s in order[..k] && prog[s].StartOpen? && !Stopped(prog, order[..k], s))
    && (forall i, j :: 0 <= i < j < |pending| ==> Before(order, pending[i], pending[j]))
  }

  lemma StoppedStep(prog: seq<Inst>, order: seq<nat>, k: nat, s: nat)
    requires InProgram(prog, order) && k < |order|
    ensures order[..k + 1] == order[..k] + [order[k]]
    ensures Stopped(prog, order[..k + 1], s) <==>
      Stopped(prog, order[..k], s) || (prog[order[k]].StopOpen? && StartOf(prog, order[k]) == s)
  {
    var a, b := order[..k], order[..k + 1];
    assert b == a + [order[k]];
    if Stopped(prog, a, s) {
      var j :| 0 <= j < |a| && prog[a[j]].StopOpen? && StartOf(prog, a[j]) == s;
      assert b[j] == a[j];
    }
    if prog[order[k]].StopOpen? && StartOf(prog, order[k]) == s {
      assert b[k] == order[k];
    }
  }

  /** Nothing else stops what order[k] stops. */
  lemma StoppedOnce(prog: seq<Inst>, order: seq<nat>, k: nat)
    requires InProgram(prog, order) && OpensPaired(prog) && NoDuplicates(order) && k < |order|
      && prog[order[k]].StopOpen?
    ensures !Stopped(prog, order[..k], StartOf(prog, order[k]))
  {
    var t := order[k];
    forall j | 0 <= j < k && prog[order[j]].StopOpen?
      ensures StartOf(prog, order[j]) != StartOf(prog, t)
    {
      if order[j] < t {
        StartsDiffer(prog, order[j], t);
      } else {
        StartsDiffer(prog, t, order[j]);
      }
    }
  }

  ghost predicate AllInTurn(prog: seq<Inst>, order: seq<nat>) {
    InProgram(prog, order) && forall k {:trigger StopInTurn(prog, order, k)} :: 0 <= k < |order| ==>
      StopInTurn(prog, order, k)
  }

  lemma NothingPending(prog: seq<Inst>, order: seq<nat>)
    requires InProgram(prog, order)
    ensures PendingOk(prog, order, 0, [])
  {
  }

  lemma {:induction false} InTurnPending(prog: seq<Inst>, order: seq<nat>, k: nat)
    requires AllInTurn(prog, order) && OpensPaired(prog) && NoDuplicates(order) && k <= |order|
    ensures PendingOk(prog, order, k, PendingAlong(prog, order, k))
    decreases k
  {
    if k == 0 {
      NothingPending(prog, order);
    } else {
      InTurnPending(prog, order, k - 1);
      TurnStep(prog, order, k - 1, PendingAlong(prog, order, k - 1));
    }
  }

  lemma TurnStep(prog: seq<Inst>, order: seq<nat>, k: nat, pending: seq<nat>)
    requires AllInTurn(prog, order) && OpensPaired(prog) && NoDuplicates(order) && k < |order|
    requires PendingOk(prog, order, k, pending)
    ensures PendingOk(prog, order, k + 1, Turn(prog, pending, order[k]))
  {
    match prog[order[k]] {
      case StopOpen(_) =>
        assert StopInTurn(prog, order, k);
        OldestPending(prog, order, k, pending);
        TurnStop(prog, order, k, pending);
      case StartOpen(_, _) =>
        NotStopped(prog, order, k);
        TurnStart(prog, order, k, pending);
      case _ =>
        Turned(prog, order, k);
    }
  }

  /** If every stop comes in its turn, then it stops the oldest opening. */
  lemma InTurnIsQueue(prog: seq<Inst>, order: seq<nat>)
    requires AllInTurn(prog, order) && OpensPaired(prog) && NoDuplicates(order)
    ensures QueueOrder(prog, order)
  {
    forall k | 0 <= k < |order|
      ensures StopsOldest(prog, order, k)
    {
      if prog[order[k]].StopOpen? {
        InTurnPending(prog, order, k);
        OldestPending(prog, order, k, PendingAlong(prog, order, k));
      }
    }
  }

  lemma Turned(prog: seq<Inst>, order: seq<nat>, k: nat)
    requires InProgram(prog, order) && k < |order|
    ensures forall s: nat :: s in order[..k + 1] <==> s in order[..k] || s == order[k]
    ensures forall s: nat :: Stopped(prog, order[..k + 1], s) <==>
      Stopped(prog, order[..k], s) || (prog[order[k]].StopOpen? && StartOf(prog, order[k]) == s)
  {
    forall s: nat
      ensures Stopped(prog, order[..k + 1], s) <==>
        Stopped(prog, order[..k], s) || (prog[order[k]].StopOpen? && StartOf(prog, order[k]) == s)
    {
      StoppedStep(prog, order, k, s);
    }
    assert order[..k + 1] == order[..k] + [order[k]];
  }

  lemma TurnStart(prog: seq<Inst>, order: seq<nat>, k: nat, pending: seq<nat>)
    requires InProgram(prog, order) && k < |order| && PendingOk(prog, order, k, pending)
    requires prog[order[k]].StartOpen? && !Stopped(prog, order[..k], order[k])
    ensures PendingOk(prog, order, k + 1, pending + [order[k]])
  {
    Turned(prog, order, k);
    var x, after := order[k], pending + [order[k]];
    forall i | 0 <= i < |pending|
      ensures Before(order, pending[i], x)
    {
      assert pending[i] in pending && pending[i] in order[..k];
    }
    forall i, j | 0 <= i < j < |after|
      ensures Before(order, after[i], after[j])
    {
      assert after[i] == pending[i];
    }
    forall s: nat
      ensures s in after <==> s in pending || s == x
    {
    }
  }

  lemma TurnStop(prog: seq<Inst>, order: seq<nat>, k: nat, pending: seq<nat>)
    requires InProgram(prog, order) && NoDuplicates(order) && k < |order| && PendingOk(prog, order, k, pending)
    requires prog[order[k]].StopOpen? && pending != [] && pending[0] == StartOf(prog, order[k])
    ensures PendingOk(prog, order, k + 1, pending[1..])
  {
    Turned(prog, order, k);
    var x, after := pending[0], pending[1..];
    assert pending == [x] + after;
    forall i | 0 <= i < |after|
      ensures after[i] != x
    {
      assert after[i] == pending[i + 1] && Before(order, pending[0], pending[i + 1]);
      BeforeExcludes(order, x, after[i]);
    }
    forall s: nat
      ensures s in after <==> s in pending && s != x
    {
    }
    forall i, j | 0 <= i < j < |after|
      ensures Before(order, after[i], after[j])
    {
      assert Before(order, pending[i + 1], pending[j + 1]);
    }
  }

  lemma OldestPending(prog: seq<Inst>, order: seq<nat>, k: nat, pending: seq<nat>)
    requires InProgram(prog, order) && OpensPaired(prog) && NoDuplicates(order) && k < |order|
      && prog[order[k]].StopOpen?
    requires StopInTurn(prog, order, k) && PendingOk(prog, order, k, pending)
    ensures pending != [] && pending[0] == StartOf(prog, order[k])
  {
    var s := StartOf(prog, order[k]);
    assert PairedAt(prog, order[k]);
    StoppedOnce(prog, order, k);
    assert s in pending;
    var i :| 0 <= i < |pending| && pending[i] == s;
    var x := pending[0];
    assert x in pending;
    assert !Stopped(prog, order[..k], x) && x in order[..k] && x < |prog| && prog[x].StartOpen?;
    assert !Before(order, x, s);
  }

  /** A start is not stopped before it comes. */
  lemma NotStopped(prog: seq<Inst>, order: seq<nat>, k: nat)
    requires AllInTurn(prog, order) && NoDuplicates(order) && k < |order|
    ensures !Stopped(prog, order[..k], order[k])
  {
    forall j | 0 <= j < k && prog[order[j]].StopOpen?
      ensures StartOf(prog, order[j]) != order[k]
    {
      assert StopInTurn(prog, order, j);
      assert order[k] !in order[..j];
    }
  }
}
