/** Sequences of numbers without duplicates or in order, their totals, and every other element of a sequence. */
module Sequences {

  predicate NoDuplicates(s: seq<nat>) {
    forall i, j :: 0 <= i < j < |s| ==> s[i] != s[j]
  }

  predicate Ascending(s: seq<nat>) {
    forall k, l :: 0 <= k < l < |s| ==> s[k] < s[l]
  }

  /** v has a place before w. */
  predicate Before(order: seq<nat>, v: nat, w: nat) {
    exists k, l :: 0 <= k < l < |order| && order[k] == v && order[l] == w
  }

  lemma BeforeExcludes(order: seq<nat>, v: nat, w: nat)
    requires NoDuplicates(order) && Before(order, v, w)
    ensures !Before(order, w, v) && v != w
  {
  }

  /** a[::2] */
  function Evens<T>(a: seq<T>): (r: seq<T>)
    ensures |r| == (|a| + 1) / 2
    decreases |a|
  {
    if |a| <= 1 then a else [a[0]] + Evens(a[2..])
  }

  /** a[1::2] */
  function Odds<T>(a: seq<T>): (r: seq<T>)
    ensures |r| == |a| / 2
    decreases |a|
  {
    if |a| <= 1 then [] else [a[1]] + Odds(a[2..])
  }

  lemma {:induction false} EvensAt<T>(a: seq<T>, i: nat)
    requires 2 * i < |a|
    ensures Evens(a)[i] == a[2 * i]
    decreases |a|
  {
    if i > 0 {
      EvensAt(a[2..], i - 1);
    }
  }

  lemma {:induction false} OddsAt<T>(a: seq<T>, i: nat)
    requires 2 * i + 1 < |a|
    ensures Odds(a)[i] == a[2 * i + 1]
    decreases |a|
  {
    if i > 0 {
      OddsAt(a[2..], i - 1);
    }
  }

  function Total(s: seq<nat>): nat {
    if s == [] then 0 else Total(s[..|s| - 1]) + s[|s| - 1]
  }

  lemma {:induction false} TotalMore(s: seq<nat>, i: nat)
    requires i < |s|
    ensures Total(s[i := s[i] + 1]) == Total(s) + 1
    decreases |s|
  {
    var r := s[i := s[i] + 1];
    if i < |s| - 1 {
      TotalMore(s[..|s| - 1], i);
      assert r[..|s| - 1] == s[..|s| - 1][i := s[i] + 1];
    } else {
      assert r[..|s| - 1] == s[..|s| - 1];
    }
  }

  lemma {:induction false} TotalConcat(s: seq<nat>, t: seq<nat>)
    ensures Total(s + t) == Total(s) + Total(t)
  {
    if t == [] {
      assert s + t == s;
    } else {
      TotalConcat(s, t[..|t| - 1]);
      assert (s + t)[..|s + t| - 1] == s + t[..|t| - 1];
    }
  }

  lemma {:induction false} TotalOfNone(n: nat)
    ensures Total(seq(n, _ => 0)) == 0
  {
    var s: seq<nat> := seq(n, _ => 0);
    if n > 0 {
      TotalOfNone(n - 1);
      assert s[..n - 1] == seq(n - 1, _ => 0);
    }
  }

  lemma {:induction false} TotalAtMost(s: seq<nat>, t: seq<nat>)
    requires |s| == |t| && forall i :: 0 <= i < |s| ==> s[i] <= t[i]
    ensures Total(s) <= Total(t)
  {
    if s != [] {
      TotalAtMost(s[..|s| - 1], t[..|t| - 1]);
    }
  }

  lemma {:induction false} TotalLess(s: seq<nat>, t: seq<nat>, p: nat)
    requires |s| == |t| && (forall i :: 0 <= i < |s| ==> s[i] <= t[i]) && p < |s| && s[p] < t[p]
    ensures Total(s) < Total(t)
  {
    var m := s[p := s[p] + 1];
    TotalMore(s, p);
    TotalAtMost(m, t);
  }
}
