/**
 The register objects of BMR/Register.cpp and the register operations that fill and read key
 vectors in loops. Each method is proved to do what Garbling says about register values.
 */
module Registers {
  import opened Keys
  import opened Garbling

  /** Gives all keys the signal bit b. */
  method FixSignals<K>(G: KeyGroup<K>, ks: seq<K>, b: bool) returns (r: seq<K>)
    ensures |r| == |ks| && forall k :: 0 <= k < |ks| ==> r[k] == WithSignal(G, ks[k], b)
  {
    r := ks;
    var j := 0;
    while j < |r|
      invariant 0 <= j <= |r| == |ks|
      invariant forall k :: 0 <= k < j ==> r[k] == WithSignal(G, ks[k], b)
      invariant forall k :: j <= k < |ks| ==> r[k] == ks[k]
    {
      if G.signal(r[j]) != b {
        r := r[j := G.xor(r[j], G.one)];
      }
      j := j + 1;
    }
  }

  // ---------- the loops of garble ----------

  /** Row (sl, sr) has the outputs of the first i parties, and in the first j columns of i + 1. */
  ghost predicate Adding<K>(S: Setup<K>, prf: seq<seq<PRFTuple<K>>>, row: seq<K>, sl: bool, sr: bool, i: nat, j: nat) {
    && TuplesFit(S.n, prf) && |row| == S.n && i <= S.n && j <= S.n && (i == S.n ==> j == 0)
    && forall k :: 0 <= k < S.n ==> row[k] == RowSum(S, prf, sl, sr, k, if k < j then i + 1 else i)
  }

  lemma AddingStep<K>(S: Setup<K>, prf: seq<seq<PRFTuple<K>>>, row: seq<K>, sl: bool, sr: bool, i: nat, j: nat)
    requires Adding(S, prf, row, sl, sr, i, j) && i < S.n && j < S.n
    ensures var t := prf[i][j];
      Adding(S, prf, row[j := S.G.xor(S.G.xor(row[j], t.no.At(sl).At(sr)), t.yes.At(sr).At(sl))], sl, sr, i, j + 1)
  {
  }

  /** The streams of the first i parties are read up to tuple n, that of party i up to tuple j. */
  ghost predicate Reading<T>(n: nat, prf: seq<seq<T>>, unread: seq<seq<T>>, i: nat, j: nat) {
    && |prf| == |unread| == n
    && forall k :: 0 <= k < n ==>
         |prf[k]| >= n && j <= n && unread[k] == prf[k][if k < i then n else if k == i then j else 0..]
  }

  /** Adds the n tuples of party i to the four rows. */
  method AddParty<K>(S: Setup<K>, ghost prf: seq<seq<PRFTuple<K>>>, streams: seq<seq<PRFTuple<K>>>, i: nat,
                     rowA: seq<K>, rowB: seq<K>, rowC: seq<K>, rowD: seq<K>)
    returns (unread: seq<seq<PRFTuple<K>>>, A: seq<K>, B: seq<K>, C: seq<K>, D: seq<K>)
    requires i < S.n && Reading(S.n, prf, streams, i, 0)
    requires Adding(S, prf, rowA, false, false, i, 0) && Adding(S, prf, rowB, false, true, i, 0)
    requires Adding(S, prf, rowC, true, false, i, 0) && Adding(S, prf, rowD, true, true, i, 0)
    ensures Reading(S.n, prf, unread, i + 1, 0)
    ensures Adding(S, prf, A, false, false, i + 1, 0) && Adding(S, prf, B, false, true, i + 1, 0)
    ensures Adding(S, prf, C, true, false, i + 1, 0) && Adding(S, prf, D, true, true, i + 1, 0)
  {
    unread, A, B, C, D := streams, rowA, rowB, rowC, rowD;
    var j := 0;
    while j < S.n
      invariant 0 <= j <= S.n && Reading(S.n, prf, unread, i, j)
      invariant Adding(S, prf, A, false, false, i, j) && Adding(S, prf, B, false, true, i, j)
      invariant Adding(S, prf, C, true, false, i, j) && Adding(S, prf, D, true, true, i, j)
    {
      var t := unread[i][0];
      assert t == prf[i][j];
      AddingStep(S, prf, A, false, false, i, j);
      AddingStep(S, prf, B, false, true, i, j);
      AddingStep(S, prf, C, true, false, i, j);
      AddingStep(S, prf, D, true, true, i, j);
      unread := unread[i := unread[i][1..]];
      A := A[j := S.G.xor(S.G.xor(A[j], t.no.no.no), t.yes.no.no)];
      B := B[j := S.G.xor(S.G.xor(B[j], t.no.no.yes), t.yes.yes.no)];
      C := C[j := S.G.xor(S.G.xor(C[j], t.no.yes.no), t.yes.no.yes)];
      D := D[j := S.G.xor(S.G.xor(D[j], t.no.yes.yes), t.yes.yes.yes)];
      j := j + 1;
    }
  }

  /** Adds up what all parties sent. */
  method AddParties<K>(S: Setup<K>, prf: seq<seq<PRFTuple<K>>>)
    returns (unread: seq<seq<PRFTuple<K>>>, A: seq<K>, B: seq<K>, C: seq<K>, D: seq<K>)
    requires TuplesFit(S.n, prf)
    ensures unread == DropTuples(S.n, prf)
    ensures Adding(S, prf, A, false, false, S.n, 0) && Adding(S, prf, B, false, true, S.n, 0)
    ensures Adding(S, prf, C, true, false, S.n, 0) && Adding(S, prf, D, true, true, S.n, 0)
  {
    A, B := ZeroVec(S.G, S.n), ZeroVec(S.G, S.n);
    C, D := ZeroVec(S.G, S.n), ZeroVec(S.G, S.n);
    unread := prf;
    var i := 0;
    while i < S.n
      invariant 0 <= i <= S.n && Reading(S.n, prf, unread, i, 0)
      invariant Adding(S, prf, A, false, false, i, 0) && Adding(S, prf, B, false, true, i, 0)
      invariant Adding(S, prf, C, true, false, i, 0) && Adding(S, prf, D, true, true, i, 0)
    {
      unread, A, B, C, D := AddParty(S, prf, unread, i, A, B, C, D);
      i := i + 1;
    }
  }

  /** A row plus the output keys it hides. */
  method HideKeys<K>(S: Setup<K>, ghost prf: seq<seq<PRFTuple<K>>>, row: seq<K>, out: seq<K>, ghost sl: bool,
                     ghost sr: bool) returns (r: seq<K>)
    requires Adding(S, prf, row, sl, sr, S.n, 0) && |out| == S.n
    ensures r == GarbledRow(S, prf, out, sl, sr)
  {
    r := row;
    var i := 0;
    while i < S.n
      invariant 0 <= i <= S.n && |r| == S.n
      invariant forall k :: 0 <= k < i ==> r[k] == S.G.xor(row[k], out[k])
      invariant forall k :: i <= k < S.n ==> r[k] == row[k]
    {
      r := r[i := S.G.xor(r[i], out[i])];
      i := i + 1;
    }
  }

  // ---------- the loops of eval ----------

  /** Subtracts the function values of one key from all columns. */
  method Subtract<K>(S: Setup<K>, entry: seq<K>, key: K, ext: bool, gate: nat) returns (r: seq<K>)
    requires |entry| == S.n
    ensures r == Less(S, entry, key, ext, gate)
  {
    r := entry;
    var j := 0;
    while j < S.n
      invariant 0 <= j <= S.n == |r|
      invariant forall k :: 0 <= k < j ==> r[k] == S.G.xor(entry[k], S.prf(key, ext, gate, k + 1))
      invariant forall k :: j <= k < S.n ==> r[k] == entry[k]
    {
      r := r[j := S.G.xor(r[j], S.prf(key, ext, gate, j + 1))];
      j := j + 1;
    }
  }

  // ---------- the loops of compute_prfs_outputs ----------

  /** The place of outputs[w][b][e] in a tuple. */
  function Slot(w: bool, b: bool, e: bool): nat {
    (if w then 4 else 0) + (if b then 2 else 0) + (if e then 1 else 0)
  }

  /** The slots before c are filled in all tuples, slot c in the first j. */
  ghost predicate Filling<K>(S: Setup<K>, i: nat, l: Reg<K>, r: Reg<K>, gate: nat, out: seq<PRFTuple<K>>, c: nat,
                             j: nat) {
    && Sized(S.n, l) && Sized(S.n, r) && i < S.n && |out| == S.n
    && forall k: nat, w, b, e :: k < S.n && (Slot(w, b, e) < c || (Slot(w, b, e) == c && k < j)) ==>
         out[k].At(w).At(b).At(e) == S.prf((if w then r else l).keys.At(b)[i], e, gate, k + 1)
  }

  lemma FilledAll<K>(S: Setup<K>, i: nat, l: Reg<K>, r: Reg<K>, gate: nat, out: seq<PRFTuple<K>>)
    requires Filling(S, i, l, r, gate, out, 8, 0)
    ensures out == PRFOutputs(S, i, l, r, gate)
  {
    var want := PRFOutputs(S, i, l, r, gate);
    forall k | 0 <= k < S.n
      ensures out[k] == want[k]
    {
      forall w, b, e
        ensures out[k].At(w).At(b).At(e) == want[k].At(w).At(b).At(e)
      {
        assert Slot(w, b, e) < 8;
      }
      TupleEqual(out[k], want[k]);
    }
  }

  lemma TupleEqual<K>(s: PRFTuple<K>, t: PRFTuple<K>)
    requires forall w, b, e :: s.At(w).At(b).At(e) == t.At(w).At(b).At(e)
    ensures s == t
  {
    assert s.At(false).At(false).At(false) == t.At(false).At(false).At(false);
    assert s.At(false).At(false).At(true) == t.At(false).At(false).At(true);
    assert s.At(false).At(true).At(false) == t.At(false).At(true).At(false);
    assert s.At(false).At(true).At(true) == t.At(false).At(true).At(true);
    assert s.At(true).At(false).At(false) == t.At(true).At(false).At(false);
    assert s.At(true).At(false).At(true) == t.At(true).At(false).At(true);
    assert s.At(true).At(true).At(false) == t.At(true).At(true).At(false);
    assert s.At(true).At(true).At(true) == t.At(true).At(true).At(true);
  }

  lemma FillStep<K>(S: Setup<K>, i: nat, l: Reg<K>, r: Reg<K>, gate: nat, out: seq<PRFTuple<K>>, w: bool, b: bool,
                    e: bool, j: nat)
    requires Filling(S, i, l, r, gate, out, Slot(w, b, e), j) && j < S.n
    ensures var x := S.prf((if w then r else l).keys.At(b)[i], e, gate, j + 1);
      Filling(S, i, l, r, gate, out[j := out[j].Set(w, out[j].At(w).Set(b, out[j].At(w).At(b).Set(e, x)))],
              Slot(w, b, e), j + 1)
  {
  }

  lemma FillNext<K>(S: Setup<K>, i: nat, l: Reg<K>, r: Reg<K>, gate: nat, out: seq<PRFTuple<K>>, c: nat)
    requires Filling(S, i, l, r, gate, out, c, S.n)
    ensures Filling(S, i, l, r, gate, out, c + 1, 0)
  {
  }

  /** One pass of the innermost loop: slot (w, b, e) of every tuple. */
  method FillSlot<K>(S: Setup<K>, i: nat, ghost l: Reg<K>, ghost r: Reg<K>, gate: nat, tuples: seq<PRFTuple<K>>,
                     w: bool, b: bool, e: bool, key: K) returns (out: seq<PRFTuple<K>>)
    requires Filling(S, i, l, r, gate, tuples, Slot(w, b, e), 0) && key == (if w then r else l).keys.At(b)[i]
    ensures Filling(S, i, l, r, gate, out, Slot(w, b, e) + 1, 0)
  {
    out := tuples;
    var j := 0;
    while j < S.n
      invariant 0 <= j <= S.n && Filling(S, i, l, r, gate, out, Slot(w, b, e), j)
    {
      FillStep(S, i, l, r, gate, out, w, b, e, j);
      var x := S.prf(key, e, gate, j + 1);
      out := out[j := out[j].Set(w, out[j].At(w).Set(b, out[j].At(w).At(b).Set(e, x)))];
      j := j + 1;
    }
    FillNext(S, i, l, r, gate, out, Slot(w, b, e));
  }

  /** compute_prfs_outputs: for both wires, both values and both extensions. */
  method ComputePRFOutputs<K>(S: Setup<K>, i: nat, left: Register<K>, right: Register<K>, gate: nat)
      returns (out: seq<PRFTuple<K>>)
    requires i < S.n && Sized(S.n, left.Value()) && Sized(S.n, right.Value())
    ensures out == PRFOutputs(S, i, left.Value(), right.Value(), gate)
    ensures forall j: nat, w, b, e :: j < S.n ==>
      out[j].At(w).At(b).At(e) == S.prf((if w then right else left).keys.At(b)[i], e, gate, j + 1)
  {
    var z := Two(S.G.zero, S.G.zero);
    out := seq(S.n, _ => Two(Two(z, z), Two(z, z)));
    ghost var l, r := left.Value(), right.Value();
    var w := 0;
    while w < 2
      invariant 0 <= w <= 2 && Filling(S, i, l, r, gate, out, 4 * w, 0)
    {
      var b := 0;
      while b < 2
        invariant 0 <= b <= 2 && Filling(S, i, l, r, gate, out, 4 * w + 2 * b, 0)
      {
        var key := (if w == 1 then right else left).keys.At(b == 1)[i];
        var e := 0;
        while e < 2
          invariant 0 <= e <= 2 && Filling(S, i, l, r, gate, out, 4 * w + 2 * b + e, 0)
        {
          assert Slot(w == 1, b == 1, e == 1) == 4 * w + 2 * b + e;
          out := FillSlot(S, i, l, r, gate, out, w == 1, b == 1, e == 1, key);
          e := e + 1;
        }
        b := b + 1;
      }
      w := w + 1;
    }
    FilledAll(S, i, l, r, gate, out);
  }

  class Register<K(==)> {
    var mask: Option<bool>
    var external: Option<bool>
    var entry: seq<K>          // garbled_entry
    var keys: Two<seq<K>>

    function Value(): Reg<K>
      reads this
    {
      Reg(mask, external, entry, keys)
    }

    constructor (G: KeyGroup<K>, n: nat)
      ensures Value() == NewReg(G, n)
    {
      mask, external, entry := None, None, ZeroVec(G, n);
      keys := Two(ZeroVec(G, n), ZeroVec(G, n));
    }

    method Assign(other: Register<K>)
      modifies this
      ensures Value() == old(other.Value())
    {
      mask, external, entry, keys := other.mask, other.external, other.entry, other.keys;
    }

    /** Fresh keys raw, corrected to carry their value as signal; the one-keys are then replaced
        by the zero-keys plus the differences. */
    method Randomize(S: Setup<K>, draw: nat, raw: Two<seq<K>>)
      requires |S.deltas| == S.n && |raw.no| == |raw.yes| == S.n
      requires forall j :: 0 <= j < S.n ==> raw.no[j] == S.draw(draw, j)
      modifies this`mask, this`keys
      ensures Value() == Garbling.Randomize(S, old(Value()), draw)
    {
      mask := Some(S.coin(draw));
      var zeros := FixSignals(S.G, raw.no, false);
      var ones := FixSignals(S.G, raw.yes, true);
      assert zeros == FreshKeys(S, draw);
      keys := Two(zeros, ones);
      keys := Two(zeros, XorVec(S.G, zeros, S.deltas));
    }

    /** Free exclusive or, on the keys of the trusted party. */
    method RandomXOR(S: Setup<K>, left: Register<K>, right: Register<K>)
      requires RandomXor(S, Value(), left.Value(), right.Value()).Some?
      modifies this`mask, this`keys
      ensures Some(Value()) == RandomXor(S, old(Value()), old(left.Value()), old(right.Value()))
    {
      mask := Some(left.mask.value != right.mask.value);
      var zeros := XorVec(S.G, left.keys.no, right.keys.no);
      keys := Two(zeros, XorVec(S.G, zeros, S.deltas));
    }

    /** Free exclusive or, on the keys of party i. */
    method PRFXOR(S: Setup<K>, i: nat, left: Register<K>, right: Register<K>)
      requires i < S.n && PRFXor(S, i, Value(), left.Value(), right.Value()).Some?
      modifies this`keys
      ensures Some(Value()) == PRFXor(S, i, old(Value()), old(left.Value()), old(right.Value()))
    {
      keys := keys.(no := keys.no[i := S.G.xor(left.keys.no[i], right.keys.no[i])]);
      keys := keys.(yes := keys.yes[i := S.G.xor(keys.no[i], S.deltas[i])]);
    }

    method PRFPublicInput(S: Setup<K>, i: nat, value: bool)
      requires i < S.n && PRFPublic(S, i, Value(), value).Some?
      modifies this`keys, this`mask
      ensures Some(Value()) == PRFPublic(S, i, old(Value()), value)
    {
      keys := keys.Set(value, keys.At(value)[i := S.G.zero]);
      keys := keys.Set(!value, keys.At(!value)[i := S.deltas[i]]);
      mask := Some(false);
    }

    method EvalXOR(S: Setup<K>, left: Register<K>, right: Register<K>)
      requires EvalXor(S, Value(), left.Value(), right.Value()).Some?
      modifies this`external, this`entry
      ensures Some(Value()) == EvalXor(S, old(Value()), old(left.Value()), old(right.Value()))
    {
      external := Some(left.external.value != right.external.value);
      entry := XorVec(S.G, left.entry, right.entry);
    }

    method EvalPublicInput(S: Setup<K>, value: bool)
      requires Sized(S.n, Value())
      modifies this
      ensures Some(Value()) == EvalPublic(S, old(Value()), value)
    {
      mask, external := Some(false), Some(value);
      entry := keys.At(value);
      var i := 0;
      while i < S.n
        invariant 0 <= i <= S.n == |entry| == |keys.At(value)|
        invariant mask == Some(false) && external == Some(value) && keys.At(!value) == old(keys.At(!value))
        invariant forall k :: 0 <= k < i ==> entry[k] == S.G.zero && keys.At(value)[k] == S.G.zero
      {
        entry := entry[i := S.G.zero];
        keys := keys.Set(value, keys.At(value)[i := S.G.zero]);
        i := i + 1;
      }
      assert entry == ZeroVec(S.G, S.n) && keys.At(value) == ZeroVec(S.G, S.n);
    }

    /** check_signal_key: the own label is the own key of the external value. */
    predicate CheckSignalKey(n: nat, i: nat)
      requires i < n && |keys.no| == |keys.yes| == n
      reads this
    {
      external.Some? && |entry| == n && entry[i] == keys.At(external.value)[i]
    }

    /** garble: adds up the PRF outputs of all parties into the four rows, then hides the output
        keys. Reads n tuples of every party's stream. */
    method Garble(S: Setup<K>, left: Register<K>, right: Register<K>, func: Function, prfOutputs: seq<seq<PRFTuple<K>>>)
      returns (ok: bool, rows: seq<K>, unread: seq<seq<PRFTuple<K>>>)
      requires TuplesFit(S.n, prfOutputs) && Sized(S.n, Value())
      ensures ok == (left.mask.Some? && right.mask.Some? && mask.Some?)
      ensures ok ==> rows == GarbledGate(S, func, left.mask.value, right.mask.value, Value(), prfOutputs)
      ensures ok ==> unread == DropTuples(S.n, prfOutputs)
    {
      rows := [];
      var A, B, C, D;
      unread, A, B, C, D := AddParties(S, prfOutputs);
      ok := left.mask.Some? && right.mask.Some? && mask.Some?;
      if ok {
        var ml, mr, mo := left.mask.value, right.mask.value, mask.value;
        var xa, xb := func[Index(ml, mr)] != mo, func[Index(ml, !mr)] != mo;
        var xc, xd := func[Index(!ml, mr)] != mo, func[Index(!ml, !mr)] != mo;
        A := HideKeys(S, prfOutputs, A, keys.At(xa), false, false);
        B := HideKeys(S, prfOutputs, B, keys.At(xb), false, true);
        C := HideKeys(S, prfOutputs, C, keys.At(xc), true, false);
        D := HideKeys(S, prfOutputs, D, keys.At(xd), true, true);
        rows := A + B + C + D;
      }
    }

    /** Takes the function values of all parties off the entry. The labels are read from the
        operands at each turn; if the register is an operand, they are the entry itself. */
    method Peel(S: Setup<K>, left: Register<K>, right: Register<K>, sl: bool, sr: bool, gate: nat,
                ghost l: seq<K>, ghost r: seq<K>)
      requires |entry| == |l| == |r| == S.n
      requires (this != left ==> l == left.entry) && (this != right ==> r == right.entry)
      modifies this`entry
      ensures entry == Peeled(S, l, r, this == left, this == right, sl, sr, gate, old(entry), S.n)
    {
      var p := 0;
      while p < S.n
        invariant 0 <= p <= S.n
        invariant entry == Peeled(S, l, r, this == left, this == right, sl, sr, gate, old(entry), p)
      {
        entry := Subtract(S, entry, left.entry[p], sr, gate);
        entry := Subtract(S, entry, right.entry[p], sl, gate);
        p := p + 1;
      }
    }

    /** eval: takes the row of the external values and subtracts, party by party, the outputs
        under the left label and then under the right label. The row replaces the labels of the
        register before any label is read. */
    method Eval(S: Setup<K>, left: Register<K>, right: Register<K>, rows: seq<K>, i: nat, gate: nat) returns (ok: bool)
      requires i < S.n && |left.entry| == |right.entry| == S.n && |rows| >= 4 * S.n
      modifies this`entry, this`external
      ensures var w := EvalGate(S, i, old(Value()), old(left.Value()), old(right.Value()), this == left, this == right,
                                gate, rows);
        ok == w.Some? && (ok ==> Value() == w.value)
    {
      ok := left.external.Some? && right.external.Some?;
      if !ok {
        return;
      }
      var sl, sr := left.external.value, right.external.value;
      var k := Index(sl, sr);
      entry := rows[k * S.n..k * S.n + S.n];
      Peel(S, left, right, sl, sr, gate, old(left.entry), old(right.entry));
      external := Some(S.G.signal(entry[i]));
    }
  }
}
