/**
 Truth tables given as numbers, as BMR/common.h:30-34 reads them: one hexadecimal digit for every
 entry, the first entry in the leading digit. The constructor shifts to the left where it has to
 shift to the right, so that it only ever finds the last entry.
 */
module Tables {
  import opened Integers
  import opened Garbling

  /** shift(i) */
  function Shift(i: nat): nat
    requires i < 4
  {
    4 * (3 - i)
  }

  /** The lowest bit of r shifted to the left by k places. */
  function Shifted(r: nat, k: nat): bool {
    (r * TwoTo(k)) % 2 == 1
  }

  /** The table that the constructor reads from r. */
  function FromNumber(r: nat): Function {
    [Shifted(r, Shift(0)), Shifted(r, Shift(1)), Shifted(r, Shift(2)), Shifted(r, Shift(3))]
  }

  /** The digit that stands for entry i. */
  predicate Digit(r: nat, i: nat)
    requires i < 4
  {
    (r / TwoTo(Shift(i))) % 2 == 1
  }

  lemma EvenShift(r: nat, k: nat)
    requires k > 0
    ensures !Shifted(r, k)
  {
    var h := r * TwoTo(k - 1);
    assert r * TwoTo(k) == h * 2 by {
      assert TwoTo(k) == 2 * TwoTo(k - 1);
    }
    ModUnique(r * TwoTo(k), 2, h, 0);
  }

  /** The table that is read is the one that is meant exactly if no entry but the last is set. */
  lemma TableRead(r: nat)
    ensures (forall i :: 0 <= i < 4 ==> FromNumber(r)[i] == Digit(r, i))
       <==> !Digit(r, 0) && !Digit(r, 1) && !Digit(r, 2)
  {
    EvenShift(r, Shift(0));
    EvenShift(r, Shift(1));
    EvenShift(r, Shift(2));
    assert TwoTo(0) == 1;
  }

  /** The conjunction is such a table; the exclusive or, which other builds ask for, is not. */
  lemma TablesIssued()
    ensures FromNumber(0x0001) == [false, false, false, true]
    ensures FromNumber(0x0110) == [false, false, false, false] && Digit(0x0110, 1) && Digit(0x0110, 2)
  {
    EvenShift(0x0001, Shift(0));
    EvenShift(0x0001, Shift(1));
    EvenShift(0x0001, Shift(2));
    EvenShift(0x0110, Shift(0));
    EvenShift(0x0110, Shift(1));
    EvenShift(0x0110, Shift(2));
    assert TwoTo(0) == 1 && TwoTo(1) == 2 && TwoTo(2) == 4 && TwoTo(3) == 8 && TwoTo(4) == 16;
    assert TwoTo(5) == 32 && TwoTo(6) == 64 && TwoTo(7) == 128 && TwoTo(8) == 256;
  }
}
