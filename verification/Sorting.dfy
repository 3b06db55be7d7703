/**
 Batcher's odd-even merge sort of Compiler/permutation.py, in place, with conditional swaps by the
 outcome of a comparator, and padding by None that sorts as the largest item.
 */
module Sorting {
  import opened Sequences
  import opened Integers
  import opened Swaps

  // ---------- comparators ----------

  /** comp gives 1 if the first item is smaller and 0 otherwise; ok are the items it is meant for. */
  datatype Comparator = Comparator(comp: (Item, Item) -> int, ok: Item -> bool)

  /** The order that the comparator defines, with the padding last. */
  predicate Le(C: Comparator, x: Item, y: Item) {
    y.Pad? || (!x.Pad? && C.comp(y, x) != 1)
  }

  ghost predicate LeTotal(C: Comparator, x: Item, y: Item) {
    Le(C, x, y) || Le(C, y, x)
  }

  ghost predicate LeTrans(C: Comparator, x: Item, y: Item, z: Item) {
    Le(C, x, y) && Le(C, y, z) ==> Le(C, x, z)
  }

  predicate Sortable(C: Comparator, x: Item) {
    x.Pad? || C.ok(x)
  }

  ghost predicate Comparable(C: Comparator, x: Item, y: Item) {
    && (!x.Pad? && !y.Pad? ==> SameShape(x, y))
    && (C.comp(x, y) == 0 || C.comp(x, y) == 1)
  }

  /** A total preorder on items of one shape. */
  ghost predicate IsOrder(C: Comparator) {
    && (forall x, y :: Sortable(C, x) && Sortable(C, y) ==> LeTotal(C, x, y) && Comparable(C, x, y))
    && (forall x, y, z :: Sortable(C, x) && Sortable(C, y) && Sortable(C, z) ==> LeTrans(C, x, y, z))
  }

  /** normal_comparator: single values by size. */
  function ByValue(): Comparator {
    Comparator((x: Item, y: Item) => if x.Single? && y.Single? && x.v < y.v then 1 else 0, (x: Item) => x.Single?)
  }

  /** list_comparator: lists of w >= 1 values by their first. */
  function ByFirst(w: nat): Comparator
    requires w >= 1
  {
    Comparator((x: Item, y: Item) => if x.Row? && y.Row? && |x.vs| == |y.vs| == w && x.vs[0] < y.vs[0] then 1 else 0,
               (x: Item) => x.Row? && |x.vs| == w)
  }

  /** bitwise_comparator: bits, compared by arithmetic. */
  function ByBit(): Comparator {
    Comparator((x: Item, y: Item) => if x.Single? && y.Single? then (1 - x.v) * y.v else 0,
               (x: Item) => x.Single? && (x.v == 0 || x.v == 1))
  }

  /** bitwise_list_comparator: lists of w >= 1 values by their first, a bit. */
  function ByFirstBit(w: nat): Comparator
    requires w >= 1
  {
    Comparator((x: Item, y: Item) =>
                 if x.Row? && y.Row? && |x.vs| == |y.vs| == w then (1 - x.vs[0]) * y.vs[0] else 0,
               (x: Item) => x.Row? && |x.vs| == w && (x.vs[0] == 0 || x.vs[0] == 1))
  }

  /** A comparator that compares keys is an order. */
  lemma KeyedOrder(C: Comparator, key: Item -> int)
    requires forall x: Item :: C.ok(x) ==> !x.Pad?
    requires forall x: Item, y: Item :: C.ok(x) && C.ok(y) ==>
      SameShape(x, y) && C.comp(x, y) == if key(x) < key(y) then 1 else 0
    requires forall x: Item, y: Item :: x.Pad? || y.Pad? ==> C.comp(x, y) == 0
    ensures IsOrder(C)
  {
    forall x, y | Sortable(C, x) && Sortable(C, y)
      ensures LeTotal(C, x, y) && Comparable(C, x, y)
    {
    }
    forall x, y, z | Sortable(C, x) && Sortable(C, y) && Sortable(C, z)
      ensures LeTrans(C, x, y, z)
    {
    }
  }

  lemma BitLess(a: int, b: int)
    requires 0 <= a <= 1 && 0 <= b <= 1
    ensures (1 - a) * b == if a < b then 1 else 0
  {
  }

  lemma ComparatorsOrder(w: nat)
    requires w >= 1
    ensures IsOrder(ByValue()) && IsOrder(ByFirst(w)) && IsOrder(ByBit()) && IsOrder(ByFirstBit(w))
  {
    var v, f := (x: Item) => if x.Single? then x.v else 0, (x: Item) => if x.Row? && |x.vs| == w then x.vs[0] else 0;
    KeyedOrder(ByValue(), v);
    KeyedOrder(ByFirst(w), f);
    forall x, y
      ensures ByBit().ok(x) && ByBit().ok(y) ==> ByBit().comp(x, y) == if v(x) < v(y) then 1 else 0
      ensures ByFirstBit(w).ok(x) && ByFirstBit(w).ok(y) ==> ByFirstBit(w).comp(x, y) == if f(x) < f(y) then 1 else 0
    {
      if ByBit().ok(x) && ByBit().ok(y) {
        BitLess(x.v, y.v);
      }
      if ByFirstBit(w).ok(x) && ByFirstBit(w).ok(y) {
        BitLess(x.vs[0], y.vs[0]);
      }
    }
    KeyedOrder(ByBit(), v);
    KeyedOrder(ByFirstBit(w), f);
  }

  /** The orders are those of the integers. */
  lemma ComparatorsMean(w: nat)
    requires w >= 1
    ensures forall a, b :: Le(ByValue(), Single(a), Single(b)) <==> a <= b
    ensures forall a, b | |a| == |b| == w :: Le(ByFirst(w), Row(a), Row(b)) <==> a[0] <= b[0]
    ensures forall a, b | 0 <= a <= 1 && 0 <= b <= 1 :: Le(ByBit(), Single(a), Single(b)) <==> a <= b
    ensures forall a, b | |a| == |b| == w && 0 <= a[0] <= 1 && 0 <= b[0] <= 1 ::
      Le(ByFirstBit(w), Row(a), Row(b)) <==> a[0] <= b[0]
  {
  }

  /** cond_swap: the smaller item first. */
  function CondSwap(C: Comparator, x: Item, y: Item): (Item, Item)
    requires x.Pad? || y.Pad? || SameShape(x, y)
  {
    if x.Pad? then (y, Pad)
    else if y.Pad? then (x, Pad)
    else CondSwapBit(x, y, 1 - C.comp(x, y))
  }

  lemma CondSwapSorts(C: Comparator, x: Item, y: Item)
    requires IsOrder(C) && Sortable(C, x) && Sortable(C, y)
    ensures x.Pad? || y.Pad? || SameShape(x, y)
    ensures var r := CondSwap(C, x, y); (r == (x, y) || r == (y, x)) && Le(C, r.0, r.1)
  {
    assert LeTotal(C, x, y) && Comparable(C, x, y);
    if !x.Pad? && !y.Pad? {
      SwapBit(x, y, 1 - C.comp(x, y));
    }
  }

  // ---------- sorted sequences and thresholds ----------

  ghost predicate Sorted(C: Comparator, s: seq<Item>) {
    forall i, j :: 0 <= i < j < |s| ==> Le(C, s[i], s[j])
  }

  /** A sorted list of values ascends, and one of lists ascends in their first values. */
  lemma SortedAscends(s: seq<Item>, w: nat)
    requires w >= 1 && forall i :: 0 <= i < |s| ==> !s[i].Pad?
    ensures AllSortable(ByValue(), s) ==>
      (Sorted(ByValue(), s) <==> forall i, j :: 0 <= i < j < |s| ==> s[i].v <= s[j].v)
    ensures AllSortable(ByFirst(w), s) ==>
      (Sorted(ByFirst(w), s) <==> forall i, j :: 0 <= i < j < |s| ==> s[i].vs[0] <= s[j].vs[0])
    ensures AllSortable(ByBit(), s) ==>
      (Sorted(ByBit(), s) <==> forall i, j :: 0 <= i < j < |s| ==> s[i].v <= s[j].v)
    ensures AllSortable(ByFirstBit(w), s) ==>
      (Sorted(ByFirstBit(w), s) <==> forall i, j :: 0 <= i < j < |s| ==> s[i].vs[0] <= s[j].vs[0])
  {
    ComparatorsMean(w);
  }

  ghost predicate AllSortable(C: Comparator, s: seq<Item>) {
    forall i :: 0 <= i < |s| ==> Sortable(C, s[i])
  }

  function Count(f: Item -> bool, s: seq<Item>): (n: nat)
    ensures n <= |s|
  {
    if s == [] then 0 else (if f(s[0]) then 1 else 0) + Count(f, s[1..])
  }

  /** Exactly the first items satisfy f. */
  ghost predicate Front(f: Item -> bool, s: seq<Item>) {
    forall i :: 0 <= i < |s| ==> (f(s[i]) <==> i < Count(f, s))
  }

  /** f holds of everything below an item of which it holds. */
  ghost predicate Threshold(C: Comparator, f: Item -> bool) {
    forall x, y :: Sortable(C, x) && Sortable(C, y) && Le(C, x, y) && f(y) ==> f(x)
  }

  /** The threshold of the items not above z. */
  function UpTo(C: Comparator, z: Item): Item -> bool {
    (x: Item) => Le(C, x, z)
  }

  lemma UpToThreshold(C: Comparator, z: Item)
    requires IsOrder(C) && Sortable(C, z)
    ensures Threshold(C, UpTo(C, z))
  {
    forall x, y | Sortable(C, x) && Sortable(C, y) && Le(C, x, y) && UpTo(C, z)(y)
      ensures UpTo(C, z)(x)
    {
      assert LeTrans(C, x, y, z);
    }
  }

  lemma {:induction false} CountNone(f: Item -> bool, s: seq<Item>)
    requires forall i :: 0 <= i < |s| ==> !f(s[i])
    ensures Count(f, s) == 0
  {
    if s != [] {
      CountNone(f, s[1..]);
    }
  }

  /** In a sorted sequence a threshold cuts off a front part. */
  lemma {:induction false} SortedFront(C: Comparator, f: Item -> bool, s: seq<Item>)
    requires Threshold(C, f) && AllSortable(C, s) && Sorted(C, s)
    ensures Front(f, s)
  {
    if s != [] {
      SortedFront(C, f, s[1..]);
      if !f(s[0]) {
        forall i | 0 <= i < |s|
          ensures !f(s[i])
        {
          assert i > 0 ==> Le(C, s[0], s[i]);
        }
        CountNone(f, s);
      } else {
        forall i | 0 < i < |s|
          ensures f(s[i]) <==> i < Count(f, s)
        {
          assert s[i] == s[1..][i - 1];
        }
      }
    }
  }

  /** Conversely, what every threshold cuts in front and back is sorted. */
  lemma FrontsSort(C: Comparator, s: seq<Item>)
    requires IsOrder(C) && AllSortable(C, s)
    requires forall f :: Threshold(C, f) ==> Front(f, s)
    ensures Sorted(C, s)
  {
    forall i, j | 0 <= i < j < |s|
      ensures Le(C, s[i], s[j])
    {
      var f := UpTo(C, s[j]);
      UpToThreshold(C, s[j]);
      assert LeTotal(C, s[j], s[j]);
      assert Front(f, s) && f(s[j]);
      assert f(s[i]);
    }
  }

  lemma {:induction false} CountConcat(f: Item -> bool, s: seq<Item>, t: seq<Item>)
    ensures Count(f, s + t) == Count(f, s) + Count(f, t)
  {
    if s == [] {
      assert s + t == t;
    } else {
      CountConcat(f, s[1..], t);
      assert (s + t)[1..] == s[1..] + t;
    }
  }

  lemma TakeOut<T>(t: seq<T>, j: nat)
    requires j < |t|
    ensures multiset(t[..j] + t[j + 1..]) == multiset(t) - multiset{t[j]}
  {
    assert t == t[..j] + [t[j]] + t[j + 1..];
  }

  lemma CountTakeOut(f: Item -> bool, t: seq<Item>, j: nat)
    requires j < |t|
    ensures Count(f, t) == (if f(t[j]) then 1 else 0) + Count(f, t[..j] + t[j + 1..])
  {
    var u, x, w := t[..j], t[j], t[j + 1..];
    assert t == u + ([x] + w);
    CountConcat(f, u, [x] + w);
    CountConcat(f, [x], w);
    CountConcat(f, u, w);
    CountOne(f, x);
  }

  lemma CountOne(f: Item -> bool, x: Item)
    ensures Count(f, [x]) == if f(x) then 1 else 0
  {
    assert [x][1..] == [];
  }

  lemma WithoutFirst<T>(s: seq<T>)
    requires s != []
    ensures multiset(s[1..]) == multiset(s) - multiset{s[0]}
  {
    assert s == [s[0]] + s[1..];
  }

  /** Where the first item of s is in t. */
  lemma FirstElsewhere(s: seq<Item>, t: seq<Item>) returns (j: nat)
    requires s != [] && multiset(s) == multiset(t)
    ensures j < |t| && t[j] == s[0] && multiset(s[1..]) == multiset(t[..j] + t[j + 1..])
  {
    assert s[0] in multiset(s);
    j :| 0 <= j < |t| && t[j] == s[0];
    WithoutFirst(s);
    TakeOut(t, j);
  }

  /** A permutation keeps the counts. */
  lemma {:induction false} CountPermuted(f: Item -> bool, s: seq<Item>, t: seq<Item>)
    requires multiset(s) == multiset(t)
    ensures Count(f, s) == Count(f, t)
    decreases |s|
  {
    assert |multiset(s)| == |multiset(t)|;
    if s != [] {
      var j := FirstElsewhere(s, t);
      CountPermuted(f, s[1..], t[..j] + t[j + 1..]);
      CountTakeOut(f, t, j);
    }
  }

  // ---------- every other item ----------

  lemma {:induction false} OddsEvens(a: seq<Item>)
    ensures Odds(a) == if a == [] then [] else Evens(a[1..])
    decreases |a|
  {
    if |a| > 1 {
      OddsEvens(a[2..]);
      if |a| > 2 {
        assert a[1..][2..] == a[2..][1..];
      } else {
        assert a[1..] == [a[1]];
      }
    }
  }

  lemma TwoMore(x: Item, y: Item, rest: seq<Item>, e: seq<Item>, o: seq<Item>)
    requires multiset(rest) == multiset(e) + multiset(o)
    ensures multiset([x, y] + rest) == multiset([x] + e) + multiset([y] + o)
  {
  }

  lemma {:induction false} EvensOddsItems(a: seq<Item>)
    ensures multiset(a) == multiset(Evens(a)) + multiset(Odds(a))
    decreases |a|
  {
    if |a| > 1 {
      var rest := a[2..];
      EvensOddsItems(rest);
      assert a == [a[0], a[1]] + rest;
      TwoMore(a[0], a[1], rest, Evens(rest), Odds(rest));
    }
  }

  lemma EvensConcat(a: seq<Item>, b: seq<Item>)
    requires |a| % 2 == 0
    ensures Evens(a + b) == Evens(a) + Evens(b) && Odds(a + b) == Odds(a) + Odds(b)
  {
    var c, h := a + b, |a| / 2;
    var e, o := Evens(c), Odds(c);
    forall i | 0 <= i < |e|
      ensures e[i] == (Evens(a) + Evens(b))[i]
    {
      EvensAt(c, i);
      if i < h {
        EvensAt(a, i);
      } else {
        EvensAt(b, i - h);
      }
    }
    forall i | 0 <= i < |o|
      ensures o[i] == (Odds(a) + Odds(b))[i]
    {
      OddsAt(c, i);
      if i < h {
        OddsAt(a, i);
      } else {
        OddsAt(b, i - h);
      }
    }
  }

  /** In a sorted sequence, a threshold takes as many even as odd items, or one more. */
  lemma {:induction false} FrontSplit(f: Item -> bool, a: seq<Item>)
    requires |a| % 2 == 0 && forall i, j :: 0 <= i < j < |a| && f(a[j]) ==> f(a[i])
    ensures 0 <= Count(f, Evens(a)) - Count(f, Odds(a)) <= 1
    ensures a != [] && !f(a[0]) ==> Count(f, Evens(a)) == 0
    decreases |a|
  {
    if a != [] {
      var rest := a[2..];
      assert forall i :: 0 <= i < |rest| ==> rest[i] == a[i + 2];
      FrontSplit(f, rest);
    }
  }

  /** Items of every other place are sorted and sortable if all are. */
  lemma SubSorted(C: Comparator, a: seq<Item>)
    requires Sorted(C, a) && AllSortable(C, a)
    ensures Sorted(C, Evens(a)) && AllSortable(C, Evens(a))
  {
    var e := Evens(a);
    forall i | 0 <= i < |e|
      ensures e[i] == a[2 * i]
    {
      EvensAt(a, i);
    }
  }

  // ---------- the last step of a merge ----------

  /** Item x of the result, from the merged halves even and odd. */
  function Zipped(C: Comparator, even: seq<Item>, odd: seq<Item>, x: nat): (r: Item)
    requires |even| == |odd| && x < 2 * |even| && IsZippable(C, even, odd)
  {
    if x == 0 then even[0]
    else if x == 2 * |even| - 1 then odd[|odd| - 1]
    else if x % 2 == 1 then CondSwap(C, odd[x / 2], even[x / 2 + 1]).0
    else CondSwap(C, odd[x / 2 - 1], even[x / 2]).1
  }

  predicate IsZippable(C: Comparator, even: seq<Item>, odd: seq<Item>) {
    forall i, j :: 0 <= i < |even| && 0 <= j < |odd| ==> even[i].Pad? || odd[j].Pad? || SameShape(even[i], odd[j])
  }

  /** A threshold takes from the two results of a swap what it takes from the two items. */
  lemma SwapThreshold(C: Comparator, f: Item -> bool, x: Item, y: Item)
    requires IsOrder(C) && Threshold(C, f) && Sortable(C, x) && Sortable(C, y)
    ensures x.Pad? || y.Pad? || SameShape(x, y)
    ensures var r := CondSwap(C, x, y); (f(r.0) <==> f(x) || f(y)) && (f(r.1) <==> f(x) && f(y))
  {
    CondSwapSorts(C, x, y);
  }

  /** If the threshold takes ce even and co odd items, it takes the first ce + co of the result. */
  lemma ZippedFront(C: Comparator, f: Item -> bool, even: seq<Item>, odd: seq<Item>, ce: nat, co: nat, x: nat)
    requires IsOrder(C) && Threshold(C, f) && AllSortable(C, even) && AllSortable(C, odd)
    requires |even| == |odd| && x < 2 * |even| && IsZippable(C, even, odd)
    requires co <= ce <= co + 2 && ce <= |even|
    requires forall i :: 0 <= i < |even| ==> (f(even[i]) <==> i < ce)
    requires forall i :: 0 <= i < |odd| ==> (f(odd[i]) <==> i < co)
    ensures f(Zipped(C, even, odd, x)) <==> x < ce + co
  {
    if 0 < x < 2 * |even| - 1 {
      var i := if x % 2 == 1 then x / 2 + 1 else x / 2;
      SwapThreshold(C, f, odd[i - 1], even[i]);
    }
  }

  lemma {:induction false} CountFirst(f: Item -> bool, s: seq<Item>, n: nat)
    requires n <= |s| && forall i :: 0 <= i < |s| ==> (f(s[i]) <==> i < n)
    ensures Count(f, s) == n
  {
    if n == 0 {
      CountNone(f, s);
    } else {
      forall i | 0 <= i < |s[1..]|
        ensures f(s[1..][i]) <==> i < n - 1
      {
        assert s[1..][i] == s[i + 1];
      }
      CountFirst(f, s[1..], n - 1);
    }
  }

  /** Positions 2 k - 1 and 2 k of r hold odd item k - 1 and even item k. */
  predicate HoldsPair<T(==)>(r: seq<T>, even: seq<T>, odd: seq<T>, k: nat)
    requires 1 <= k < |even| == |odd| && |r| == 2 * |even|
  {
    var p := 2 * k - 1;
    (r[p] == odd[k - 1] && r[p + 1] == even[k]) || (r[p] == even[k] && r[p + 1] == odd[k - 1])
  }

  /** The result holds the items of both halves. */
  lemma {:induction false} PairsItems<T>(even: seq<T>, odd: seq<T>, r: seq<T>, i: nat)
    requires |r| == 2 * |even| == 2 * |odd| && 1 <= i <= |even| && r[0] == even[0]
    requires forall k :: 1 <= k < |even| ==> HoldsPair(r, even, odd, k)
    ensures multiset(r[..2 * i - 1]) == multiset(even[..i]) + multiset(odd[..i - 1])
  {
    if i == 1 {
      assert r[..1] == [r[0]] && even[..1] == [even[0]];
    } else {
      var k, p := i - 1, 2 * i - 3;
      PairsItems(even, odd, r, k);
      assert HoldsPair(r, even, odd, k);
      AppendPair(r, p, odd[k - 1], even[k]);
      AppendOne(even, k);
      AppendOne(odd, k - 1);
      Regroup(multiset(even[..k]), multiset(odd[..k - 1]), odd[k - 1], even[k]);
    }
  }

  lemma ZippedPair(C: Comparator, even: seq<Item>, odd: seq<Item>, r: seq<Item>, k: nat)
    requires IsOrder(C) && AllSortable(C, even) && AllSortable(C, odd) && IsZippable(C, even, odd)
    requires |r| == 2 * |even| == 2 * |odd| && forall x :: 0 <= x < |r| ==> r[x] == Zipped(C, even, odd, x)
    requires 1 <= k < |even|
    ensures HoldsPair(r, even, odd, k)
  {
    var p := 2 * k - 1;
    CondSwapSorts(C, odd[k - 1], even[k]);
    assert p / 2 == k - 1 && (p + 1) / 2 == k;
    assert r[p] == Zipped(C, even, odd, p) && r[p + 1] == Zipped(C, even, odd, p + 1);
  }

  lemma Regroup<T>(e: multiset<T>, o: multiset<T>, x: T, y: T)
    ensures e + o + multiset{x, y} == (e + multiset{y}) + (o + multiset{x})
  {
  }

  lemma AppendPair<T>(r: seq<T>, p: nat, x: T, y: T)
    requires p + 2 <= |r| && ((r[p], r[p + 1]) == (x, y) || (r[p], r[p + 1]) == (y, x))
    ensures multiset(r[..p + 2]) == multiset(r[..p]) + multiset{x, y}
  {
    assert r[..p + 2] == r[..p] + [r[p], r[p + 1]];
  }

  lemma AppendOne<T>(s: seq<T>, p: nat)
    requires p < |s|
    ensures multiset(s[..p + 1]) == multiset(s[..p]) + multiset{s[p]}
  {
    assert s[..p + 1] == s[..p] + [s[p]];
  }

  lemma ZippedAll(C: Comparator, even: seq<Item>, odd: seq<Item>, r: seq<Item>)
    requires IsOrder(C) && AllSortable(C, even) && AllSortable(C, odd) && IsZippable(C, even, odd) && even != []
    requires |r| == 2 * |even| == 2 * |odd| && forall x :: 0 <= x < |r| ==> r[x] == Zipped(C, even, odd, x)
    ensures multiset(r) == multiset(even) + multiset(odd)
  {
    var h := |even|;
    forall k | 1 <= k < h
      ensures HoldsPair(r, even, odd, k)
    {
      ZippedPair(C, even, odd, r, k);
    }
    assert r[0] == Zipped(C, even, odd, 0);
    PairsItems(even, odd, r, h);
    assert r == r[..2 * h - 1] + [r[2 * h - 1]];
    assert even[..h] == even && odd == odd[..h - 1] + [odd[h - 1]];
  }

  ghost predicate HalvesSorted(C: Comparator, s: seq<Item>) {
    |s| % 2 == 0 ==> Sorted(C, s[..|s| / 2]) && Sorted(C, s[|s| / 2..])
  }

  /** The even and the odd items of two sorted halves are two sorted halves again. */
  lemma SplitHalves(C: Comparator, a: seq<Item>, h: nat)
    requires |a| == 2 * h && h % 2 == 0 && AllSortable(C, a) && HalvesSorted(C, a)
    ensures AllSortable(C, Evens(a)) && HalvesSorted(C, Evens(a))
    ensures AllSortable(C, Odds(a)) && HalvesSorted(C, Odds(a))
  {
    var lo, hi := a[..h], a[h..];
    assert a == lo + hi;
    EvensConcat(lo, hi);
    SplitSorted(C, lo);
    SplitSorted(C, hi);
    HalvesOf(C, Evens(lo), Evens(hi));
    HalvesOf(C, Odds(lo), Odds(hi));
  }

  /** The even and the odd items of a sorted list are sorted. */
  lemma SplitSorted(C: Comparator, s: seq<Item>)
    requires Sorted(C, s) && AllSortable(C, s)
    ensures Sorted(C, Evens(s)) && AllSortable(C, Evens(s))
    ensures Sorted(C, Odds(s)) && AllSortable(C, Odds(s))
  {
    SubSorted(C, s);
    OddsEvens(s);
    if s != [] {
      SubSorted(C, s[1..]);
    }
  }

  lemma HalvesOf(C: Comparator, s: seq<Item>, t: seq<Item>)
    requires |s| == |t| && Sorted(C, s) && Sorted(C, t) && AllSortable(C, s) && AllSortable(C, t)
    ensures HalvesSorted(C, s + t) && AllSortable(C, s + t)
  {
    assert (s + t)[..|s|] == s && (s + t)[|s|..] == t;
  }

  /** How a threshold divides the even and the odd items of two sorted halves. */
  lemma HalvesCount(C: Comparator, f: Item -> bool, a: seq<Item>, h: nat)
    requires |a| == 2 * h && h % 2 == 0 && AllSortable(C, a) && HalvesSorted(C, a) && Threshold(C, f)
    ensures 0 <= Count(f, Evens(a)) - Count(f, Odds(a)) <= 2
  {
    var lo, hi := a[..h], a[h..];
    assert a == lo + hi;
    EvensConcat(lo, hi);
    CountConcat(f, Evens(lo), Evens(hi));
    CountConcat(f, Odds(lo), Odds(hi));
    FrontSplit(f, lo);
    FrontSplit(f, hi);
  }

  /** Zipping the merged even and odd items of two sorted halves merges them. */
  lemma ZippedSorts(C: Comparator, a: seq<Item>, h: nat, even: seq<Item>, odd: seq<Item>, r: seq<Item>)
    requires IsOrder(C) && |a| == 2 * h > 0 && h % 2 == 0 && AllSortable(C, a) && HalvesSorted(C, a)
    requires Sorted(C, even) && Sorted(C, odd) && AllSortable(C, even) && AllSortable(C, odd) && AllSortable(C, r)
    requires multiset(even) == multiset(Evens(a)) && multiset(odd) == multiset(Odds(a))
    requires |even| == |odd| == h && |r| == 2 * h && IsZippable(C, even, odd)
    requires forall x :: 0 <= x < |r| ==> r[x] == Zipped(C, even, odd, x)
    ensures Sorted(C, r)
  {
    forall f | Threshold(C, f)
      ensures Front(f, r)
    {
      HalvesCount(C, f, a, h);
      CountPermuted(f, even, Evens(a));
      CountPermuted(f, odd, Odds(a));
      SortedFront(C, f, even);
      SortedFront(C, f, odd);
      var ce, co := Count(f, even), Count(f, odd);
      forall x | 0 <= x < |r|
        ensures f(r[x]) <==> x < ce + co
      {
        ZippedFront(C, f, even, odd, ce, co, x);
      }
      CountFirst(f, r, ce + co);
    }
    FrontsSort(C, r);
  }

  // ---------- the methods ----------

  method EveryOther(a: array<Item>, first: nat, n: nat) returns (r: array<Item>)
    requires first < 2 && a.Length == 2 * n
    ensures fresh(r) && r[..] == if first == 0 then Evens(a[..]) else Odds(a[..])
  {
    r := new Item[n](_ => Pad);
    ghost var all := a[..];
    ghost var want := if first == 0 then Evens(all) else Odds(all);
    var i := 0;
    while i < n
      invariant 0 <= i <= n && a[..] == all
      invariant forall k :: 0 <= k < i ==> r[k] == want[k]
    {
      EveryOtherAt(all, i);
      r[i] := a[2 * i + first];
      i := i + 1;
    }
  }

  lemma EveryOtherAt(a: seq<Item>, i: nat)
    requires 2 * i + 1 < |a|
    ensures Evens(a)[i] == a[2 * i] && Odds(a)[i] == a[2 * i + 1]
  {
    EvensAt(a, i);
    OddsAt(a, i);
  }

  lemma Zippable(C: Comparator, even: seq<Item>, odd: seq<Item>)
    requires IsOrder(C) && AllSortable(C, even) && AllSortable(C, odd)
    ensures IsZippable(C, even, odd)
  {
    forall i, j | 0 <= i < |even| && 0 <= j < |odd|
      ensures even[i].Pad? || odd[j].Pad? || SameShape(even[i], odd[j])
    {
      assert Comparable(C, even[i], odd[j]);
    }
  }

  /** The loop that writes the merged items back. */
  method Zip(C: Comparator, a: array<Item>, even: array<Item>, odd: array<Item>, n: nat)
    requires n >= 1 && a.Length == 2 * n && even.Length == odd.Length == n && a != even && a != odd
    requires IsZippable(C, even[..], odd[..])
    modifies a
    ensures forall x :: 0 <= x < a.Length ==> a[x] == Zipped(C, even[..], odd[..], x)
  {
    ghost var e, o := even[..], odd[..];
    a[0] := even[0];
    var i := 1;
    while i < n
      invariant 1 <= i <= n && even[..] == e && odd[..] == o
      invariant forall x :: 0 <= x < 2 * i - 1 ==> a[x] == Zipped(C, e, o, x)
    {
      var r := CondSwap(C, odd[i - 1], even[i]);
      assert (2 * i - 1) / 2 == i - 1;
      a[2 * i - 1], a[2 * i] := r.0, r.1;
      i := i + 1;
    }
    a[a.Length - 1] := odd[n - 1];
  }

  method MergeTwo(a: array<Item>, C: Comparator)
    requires a.Length == 2 && IsOrder(C) && AllSortable(C, a[..])
    modifies a
    ensures multiset(a[..]) == multiset(old(a[..])) && AllSortable(C, a[..]) && Sorted(C, a[..])
  {
    CondSwapSorts(C, a[0], a[1]);
    var r := CondSwap(C, a[0], a[1]);
    assert a[..] == [a[0], a[1]];
    a[0], a[1] := r.0, r.1;
    assert a[..] == [a[0], a[1]];
  }

  lemma PermutedSortable(C: Comparator, s: seq<Item>, t: seq<Item>)
    requires multiset(s) == multiset(t) && AllSortable(C, t)
    ensures AllSortable(C, s)
  {
    forall i | 0 <= i < |s|
      ensures Sortable(C, s[i])
    {
      assert s[i] in multiset(s);
      assert s[i] in t;
    }
  }

  /** The even and odd items are sortable, and have sorted halves if the whole has. */
  lemma SplitReady(C: Comparator, a: seq<Item>, h: nat)
    requires |a| == 2 * h && h % 2 == 0 && AllSortable(C, a)
    ensures AllSortable(C, Evens(a)) && AllSortable(C, Odds(a))
    ensures HalvesSorted(C, a) ==> HalvesSorted(C, Evens(a)) && HalvesSorted(C, Odds(a))
  {
    EvensOddsItems(a);
    forall x | x in Evens(a) || x in Odds(a)
      ensures Sortable(C, x)
    {
      assert x in multiset(Evens(a)) + multiset(Odds(a));
      assert x in a;
    }
    if HalvesSorted(C, a) {
      SplitHalves(C, a, h);
    }
  }

  lemma MergeDone(C: Comparator, before: seq<Item>, h: nat, even: seq<Item>, odd: seq<Item>, a: seq<Item>)
    requires IsOrder(C) && |before| == |a| == 2 * h > 0 && h % 2 == 0 && AllSortable(C, before)
    requires AllSortable(C, even) && AllSortable(C, odd) && IsZippable(C, even, odd) && |even| == |odd| == h
    requires multiset(even) == multiset(Evens(before)) && multiset(odd) == multiset(Odds(before))
    requires forall x :: 0 <= x < |a| ==> a[x] == Zipped(C, even, odd, x)
    ensures multiset(a) == multiset(before) && AllSortable(C, a)
    ensures HalvesSorted(C, before) && Sorted(C, even) && Sorted(C, odd) ==> Sorted(C, a)
  {
    ZippedAll(C, even, odd, a);
    EvensOddsItems(before);
    PermutedSortable(C, a, before);
    if HalvesSorted(C, before) && Sorted(C, even) && Sorted(C, odd) {
      ZippedSorts(C, before, h, even, odd, a);
    }
  }

  lemma PowHalf(n: nat)
    requires IsPow2(n) && n > 2
    ensures IsPow2(n / 2) && (n / 2) % 2 == 0 && n == 2 * (n / 2)
  {
  }

  /** Merges the two sorted halves of a; a length that is not a power of two is an error. */
  method OddEvenMerge(a: array<Item>, C: Comparator) returns (ok: bool)
    requires a.Length >= 1 && IsOrder(C) && AllSortable(C, a[..])
    modifies a
    ensures ok == IsPow2(a.Length)
    ensures ok ==> multiset(a[..]) == multiset(old(a[..])) && AllSortable(C, a[..])
    ensures ok && HalvesSorted(C, old(a[..])) ==> Sorted(C, a[..])
    decreases a.Length
  {
    ok := IsPow2(a.Length);
    if !ok || a.Length == 1 {
      return;
    }
    if a.Length == 2 {
      MergeTwo(a, C);
    } else {
      ghost var before := a[..];
      var h := a.Length / 2;
      PowHalf(a.Length);
      var even := EveryOther(a, 0, h);
      var odd := EveryOther(a, 1, h);
      SplitReady(C, before, h);
      var ok0 := OddEvenMerge(even, C);
      var ok1 := OddEvenMerge(odd, C);
      Zippable(C, even[..], odd[..]);
      Zip(C, a, even, odd, h);
      MergeDone(C, before, h, even[..], odd[..], a[..]);
    }
  }

  lemma PartsSortable(C: Comparator, a: seq<Item>, h: nat)
    requires AllSortable(C, a) && h <= |a|
    ensures AllSortable(C, a[..h]) && AllSortable(C, a[h..])
  {
  }

  /** a[:h] and a[h:] */
  method Halves(a: array<Item>, h: nat) returns (lower: array<Item>, upper: array<Item>)
    requires a.Length == 2 * h
    ensures fresh(lower) && fresh(upper) && lower != upper && lower[..] == a[..h] && upper[..] == a[h..]
  {
    lower, upper := new Item[h](_ => Pad), new Item[h](_ => Pad);
    var i := 0;
    while i < h
      invariant 0 <= i <= h && a[..] == old(a[..])
      invariant lower[..i] == a[..i] && upper[..i] == a[h..h + i]
    {
      lower[i], upper[i] := a[i], a[h + i];
      i := i + 1;
    }
  }

  /** a[:] = lower + upper */
  method Join(a: array<Item>, lower: array<Item>, upper: array<Item>)
    requires a.Length == lower.Length + upper.Length && a != lower && a != upper
    modifies a
    ensures a[..] == lower[..] + upper[..]
  {
    var i := 0;
    while i < a.Length
      invariant 0 <= i <= a.Length && lower[..] == old(lower[..]) && upper[..] == old(upper[..])
      invariant a[..i] == (lower[..] + upper[..])[..i]
    {
      a[i] := if i < lower.Length then lower[i] else upper[i - lower.Length];
      i := i + 1;
    }
  }

  lemma HalvesPermuted(C: Comparator, a: seq<Item>, h: nat, lo: seq<Item>, hi: seq<Item>)
    requires |a| == 2 * h && multiset(lo) == multiset(a[..h]) && multiset(hi) == multiset(a[h..])
    requires Sorted(C, lo) && Sorted(C, hi) && AllSortable(C, lo) && AllSortable(C, hi)
    ensures multiset(lo + hi) == multiset(a) && HalvesSorted(C, lo + hi) && AllSortable(C, lo + hi)
      && |lo + hi| == 2 * h
  {
    assert a == a[..h] + a[h..];
    assert |multiset(lo)| == |multiset(a[..h])| && |multiset(hi)| == |multiset(a[h..])|;
    HalvesOf(C, lo, hi);
  }

  /** Sorts both halves and merges them; a length that is not a power of two is an error. */
  method OddEvenMergeSort(a: array<Item>, C: Comparator) returns (ok: bool)
    requires a.Length >= 1 && IsOrder(C) && AllSortable(C, a[..])
    modifies a
    ensures ok == IsPow2(a.Length)
    ensures ok ==> multiset(a[..]) == multiset(old(a[..])) && AllSortable(C, a[..]) && Sorted(C, a[..])
    decreases a.Length
  {
    if a.Length == 1 {
      return true;
    }
    ok := a.Length % 2 == 0;
    if ok {
      var h := a.Length / 2;
      var lower, upper := Halves(a, h);
      PartsSortable(C, a[..], h);
      ok := OddEvenMergeSort(lower, C);
      if ok {
        ok := OddEvenMergeSort(upper, C);
        Join(a, lower, upper);
        HalvesPermuted(C, old(a[..]), h, lower[..], upper[..]);
        ok := OddEvenMerge(a, C);
      }
    }
  }

  // ---------- sort ----------

  /** A power of two that is at least n. */
  ghost function PowAbove(n: nat): (p: nat)
    ensures IsPow2(p) && p >= n
  {
    if n <= 1 then 1 else 2 * PowAbove((n + 1) / 2)
  }

  function Padding(n: nat): seq<Item> {
    seq(n, _ => Pad)
  }

  /** Pads with None to a power of two, sorts, and removes the padding. */
  method Sort(a: seq<Item>, C: Comparator) returns (r: seq<Item>)
    requires a != [] && IsOrder(C) && AllSortable(C, a) && forall i :: 0 <= i < |a| ==> !a[i].Pad?
    ensures multiset(r) == multiset(a) && Sorted(C, r)
  {
    var length := |a|;
    var padded := a;
    while !IsPow2(|padded|)
      invariant length <= |padded| <= PowAbove(length) && padded == a + Padding(|padded| - length)
      decreases PowAbove(length) - |padded|
    {
      padded := padded + [Pad];
    }
    var s := new Item[|padded|](i requires 0 <= i < |padded| => padded[i]);
    assert s[..] == padded;
    var ok := OddEvenMergeSort(s, C);
    PaddingLast(C, a, |padded| - length, s[..]);
    r := s[..length];
  }

  /** Sorting moves the padding behind all items. */
  lemma PaddingLast(C: Comparator, a: seq<Item>, n: nat, s: seq<Item>)
    requires IsOrder(C) && AllSortable(C, s) && Sorted(C, s) && multiset(s) == multiset(a + Padding(n))
    requires forall i :: 0 <= i < |a| ==> !a[i].Pad?
    ensures |s| == |a| + n && multiset(s[..|a|]) == multiset(a) && Sorted(C, s[..|a|])
  {
    var f, pads := (x: Item) => !x.Pad?, Padding(n);
    assert |multiset(s)| == |multiset(a + pads)|;
    CountPermuted(f, s, a + pads);
    CountConcat(f, a, pads);
    CountNone(f, pads);
    CountFirst(f, a, |a|);
    SortedFront(C, f, s);
    var front, back := s[..|a|], s[|a|..];
    assert s == front + back;
    assert back == pads;
    assert multiset(front) == multiset(s) - multiset(pads);
    assert multiset(a) == multiset(a + pads) - multiset(pads);
  }
}
