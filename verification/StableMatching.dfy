/**
 Compiler/gs.py: the Gale-Shapley matching of as many men as women with complete preferences. The
 oblivious arrays are read and written like maps, as their interface promises.
 */
module StableMatching {
  import opened Sequences

  // ---------- preferences ----------

  /** A list of all of 0, ..., n - 1. */
  ghost predicate Complete(s: seq<nat>, n: nat) {
    && |s| == n
    && (forall i :: 0 <= i < n ==> s[i] < n)
    && (forall i, j :: 0 <= i < j < n ==> s[i] != s[j])
  }

  /** prefs[m] lists the women as man m prefers them; ranks[w][m] is the place of man m for woman w. */
  ghost predicate Preferences(prefs: seq<seq<nat>>, ranks: seq<seq<nat>>, n: nat) {
    && |prefs| == |ranks| == n
    && (forall m :: 0 <= m < n ==> Complete(prefs[m], n))
    && (forall w :: 0 <= w < n ==> Complete(ranks[w], n))
  }

  /** Man m prefers woman v to woman w. */
  ghost predicate Prefers(prefs: seq<seq<nat>>, m: nat, v: nat, w: nat)
    requires m < |prefs|
  {
    exists i, j :: 0 <= i < j < |prefs[m]| && prefs[m][i] == v && prefs[m][j] == w
  }

  ghost predicate Blocking(prefs: seq<seq<nat>>, ranks: seq<seq<nat>>, mu: seq<nat>, m: nat, k: nat)
    requires |mu| == |prefs| == |ranks| && m < |mu| && k < |mu| && mu[k] < |ranks|
    requires |ranks[mu[k]]| == |mu|
  {
    Prefers(prefs, m, mu[k], mu[m]) && ranks[mu[k]][m] < ranks[mu[k]][k]
  }

  /** mu[m] is the wife of man m; no man and the wife of another prefer each other. */
  ghost predicate Stable(prefs: seq<seq<nat>>, ranks: seq<seq<nat>>, n: nat, mu: seq<nat>)
    requires Preferences(prefs, ranks, n)
  {
    && Complete(mu, n)
    && forall m, k :: 0 <= m < n && 0 <= k < n ==> !Blocking(prefs, ranks, mu, m, k)
  }

  // ---------- the state ----------

  /** wives and husbands; how many women every man has asked; the men without a wife. */
  datatype State = State(wives: map<nat, nat>, husbands: map<nat, nat>, asked: seq<nat>, stack: seq<nat>)

  ghost predicate Paired(n: nat, t: State) {
    && (forall m :: m in t.wives ==> m < n && t.wives[m] < n && t.wives[m] in t.husbands && t.husbands[t.wives[m]] == m)
    && (forall w :: w in t.husbands ==> w < n && t.husbands[w] in t.wives && t.wives[t.husbands[w]] == w)
  }

  ghost predicate Stacked(n: nat, t: State) {
    && (forall i :: 0 <= i < |t.stack| ==> t.stack[i] < n && t.stack[i] !in t.wives)
    && (forall i, j :: 0 <= i < j < |t.stack| ==> t.stack[i] != t.stack[j])
    && (forall m: nat :: m < n && m !in t.wives ==> m in t.stack)
  }

  /** The i-th woman that m has asked has a husband whom she likes at least as much as m. */
  ghost predicate Answered(prefs: seq<seq<nat>>, ranks: seq<seq<nat>>, n: nat, t: State, m: nat, i: nat)
    requires Preferences(prefs, ranks, n)
  {
    m < n && i < n && |t.asked| == n && i < t.asked[m] ==>
      var w := prefs[m][i];
      w in t.husbands && t.husbands[w] < n && ranks[w][t.husbands[w]] <= ranks[w][m]
  }

  /** A man is married to the last woman that he has asked. */
  ghost predicate LastAsked(prefs: seq<seq<nat>>, n: nat, t: State, m: nat)
    requires |prefs| == n
  {
    m in t.wives ==> m < n && |t.asked| == n && 0 < t.asked[m] <= |prefs[m]| && prefs[m][t.asked[m] - 1] == t.wives[m]
  }

  ghost predicate Running(prefs: seq<seq<nat>>, ranks: seq<seq<nat>>, n: nat, t: State)
    requires Preferences(prefs, ranks, n)
  {
    && |t.asked| == n && (forall m :: 0 <= m < n ==> t.asked[m] <= n)
    && Paired(n, t) && Stacked(n, t)
    && (forall m: nat, i: nat :: Answered(prefs, ranks, n, t, m, i))
    && (forall m: nat :: LastAsked(prefs, n, t, m))
  }

  /** No woman that has turned m down is his wife in mu. */
  ghost predicate NotTurnedDown(prefs: seq<seq<nat>>, n: nat, t: State, mu: seq<nat>, m: nat, i: nat)
    requires |prefs| == n
  {
    m < n && |mu| == n && |t.asked| == n && i < t.asked[m] && i < |prefs[m]| && prefs[m][i] == mu[m] ==>
      m in t.wives && t.wives[m] == mu[m]
  }

  ghost predicate Open(prefs: seq<seq<nat>>, n: nat, t: State, mu: seq<nat>)
    requires |prefs| == n
  {
    forall m: nat, i: nat :: NotTurnedDown(prefs, n, t, mu, m, i)
  }

  // ---------- one round ----------

  /** The man on top asks the next woman on his list. */
  function Round(prefs: seq<seq<nat>>, ranks: seq<seq<nat>>, t: State): State
    requires t.stack != [] && t.stack[|t.stack| - 1] < |t.asked| == |prefs|
    requires var man := t.stack[|t.stack| - 1];
      t.asked[man] < |prefs[man]| && prefs[man][t.asked[man]] < |ranks| && man < |ranks[prefs[man][t.asked[man]]]|
    requires forall w :: w in t.husbands && w < |ranks| ==> t.husbands[w] < |ranks[w]|
  {
    var man, rest := t.stack[|t.stack| - 1], t.stack[..|t.stack| - 1];
    var w, asked := prefs[man][t.asked[man]], t.asked[man := t.asked[man] + 1];
    if w !in t.husbands then State(t.wives[man := w], t.husbands[w := man], asked, rest)
    else
      var fiance := t.husbands[w];
      if ranks[w][man] < ranks[w][fiance] then
        State((t.wives - {fiance})[man := w], t.husbands[w := man], asked, rest + [fiance])
      else State(t.wives, t.husbands, asked, rest + [man])
  }

  ghost predicate Ready(prefs: seq<seq<nat>>, ranks: seq<seq<nat>>, n: nat, t: State)
    requires Preferences(prefs, ranks, n)
  {
    Running(prefs, ranks, n, t) && t.stack != [] && t.asked[t.stack[|t.stack| - 1]] < n
  }

  lemma RoundPaired(prefs: seq<seq<nat>>, ranks: seq<seq<nat>>, n: nat, t: State)
    requires Preferences(prefs, ranks, n) && Ready(prefs, ranks, n, t)
    ensures Paired(n, Round(prefs, ranks, t))
  {
    var man := t.stack[|t.stack| - 1];
    assert man !in t.wives;
  }

  /** The men on the stack but the last. */
  lemma RestStacked(n: nat, t: State)
    requires Paired(n, t) && Stacked(n, t) && t.stack != []
    ensures var man, rest := t.stack[|t.stack| - 1], t.stack[..|t.stack| - 1];
      && man !in t.wives && (forall x :: x in t.stack <==> x in rest || x == man)
      && (forall i :: 0 <= i < |rest| ==> rest[i] < n && rest[i] != man && rest[i] !in t.wives)
      && (forall i, j :: 0 <= i < j < |rest| ==> rest[i] != rest[j])
  {
    var man, rest := t.stack[|t.stack| - 1], t.stack[..|t.stack| - 1];
    assert t.stack == rest + [man];
    forall i | 0 <= i < |rest|
      ensures rest[i] < n && rest[i] != man && rest[i] !in t.wives
    {
      assert rest[i] == t.stack[i];
    }
  }

  /** One man leaves the married, or none, and a list of single men gets him on top. */
  lemma Restacked(n: nat, t: State, u: State, rest: seq<nat>, top: seq<nat>)
    requires Stacked(n, t) && u.stack == rest + top && |top| <= 1
    requires forall i :: 0 <= i < |rest| ==> rest[i] < n && rest[i] !in u.wives
    requires forall i, j :: 0 <= i < j < |rest| ==> rest[i] != rest[j]
    requires forall x :: x in top ==> x < n && x !in u.wives && x !in rest
    requires forall m: nat :: m < n && m !in u.wives ==> m in rest || m in top
    ensures Stacked(n, u)
  {
    assert forall x :: x in rest || x in top ==> x in u.stack;
    assert forall i :: |rest| <= i < |u.stack| ==> u.stack[i] in top;
    assert forall i :: 0 <= i < |rest| ==> u.stack[i] == rest[i] && u.stack[i] in rest;
  }

  lemma RoundStacked(prefs: seq<seq<nat>>, ranks: seq<seq<nat>>, n: nat, t: State)
    requires Preferences(prefs, ranks, n) && Ready(prefs, ranks, n, t)
    ensures Stacked(n, Round(prefs, ranks, t))
  {
    var man, rest := t.stack[|t.stack| - 1], t.stack[..|t.stack| - 1];
    var u := Round(prefs, ranks, t);
    RestStacked(n, t);
    var top := u.stack[|rest|..];
    assert u.stack == rest + top && |top| <= 1;
    Restacked(n, t, u, rest, top);
  }

  lemma RoundAnswered(prefs: seq<seq<nat>>, ranks: seq<seq<nat>>, n: nat, t: State, m: nat, i: nat)
    requires Preferences(prefs, ranks, n) && Ready(prefs, ranks, n, t)
    ensures Answered(prefs, ranks, n, Round(prefs, ranks, t), m, i)
    ensures LastAsked(prefs, n, Round(prefs, ranks, t), m)
  {
    var man := t.stack[|t.stack| - 1];
    assert man !in t.wives;
    assert Answered(prefs, ranks, n, t, m, i) && LastAsked(prefs, n, t, m);
  }

  lemma RoundRunning(prefs: seq<seq<nat>>, ranks: seq<seq<nat>>, n: nat, t: State)
    requires Preferences(prefs, ranks, n) && Ready(prefs, ranks, n, t)
    ensures Running(prefs, ranks, n, Round(prefs, ranks, t))
  {
    RoundPaired(prefs, ranks, n, t);
    RoundStacked(prefs, ranks, n, t);
    forall m: nat, i: nat
      ensures Answered(prefs, ranks, n, Round(prefs, ranks, t), m, i)
    {
      RoundAnswered(prefs, ranks, n, t, m, i);
    }
    forall m: nat
      ensures LastAsked(prefs, n, Round(prefs, ranks, t), m)
    {
      RoundAnswered(prefs, ranks, n, t, m, 0);
    }
  }

  /** The round as the program takes it: dump, engage, put back. */
  lemma RoundIs(prefs: seq<seq<nat>>, ranks: seq<seq<nat>>, n: nat, t: State, man: nat, engaged: bool, leaving: bool)
    requires Preferences(prefs, ranks, n) && man < n && |t.asked| == n && t.asked[man] < n
    requires forall w :: w in t.husbands ==> w < n && t.husbands[w] < n
    requires var w := prefs[man][t.asked[man]];
      && engaged == (w in t.husbands)
      && leaving == (ranks[w][man] < ranks[w][if engaged then t.husbands[w] else 0])
    ensures var w, rest := prefs[man][t.asked[man]], t.stack;
      var fiance := if engaged then t.husbands[w] else 0;
      var off, on := engaged && leaving, !(engaged && !leaving);
      var wives, husbands := t.wives - (if off then {fiance} else {}), t.husbands - (if off then {w} else {});
      Round(prefs, ranks, t.(stack := rest + [man])) ==
        State(if on then wives[man := w] else wives, if on then husbands[w := man] else husbands,
              t.asked[man := t.asked[man] + 1],
              rest + (if off then [fiance] else []) + if engaged && !leaving then [man] else [])
  {
    var w, rest := prefs[man][t.asked[man]], t.stack;
    assert (rest + [man])[..|rest|] == rest;
    assert engaged && leaving ==> (t.husbands - {w})[w := man] == t.husbands[w := man];
    assert t.wives - {} == t.wives && t.husbands - {} == t.husbands;
    assert rest + [] == rest;
  }

  // ---------- nobody runs out of women ----------

  /** The numbers below n. */
  function Below(n: nat): (r: set<nat>)
    ensures |r| == n && forall i: nat :: i in r <==> i < n
  {
    if n == 0 then {} else Below(n - 1) + {n - 1}
  }

  lemma SubsetSize(a: set<nat>, b: set<nat>)
    requires a <= b
    ensures |a| <= |b| && (|a| == |b| ==> a == b)
  {
    assert b == a + (b - a);
  }

  /** As many of one kind are married as of the other. */
  lemma {:induction false} SameNumber(a: map<nat, nat>, b: map<nat, nat>)
    requires forall x :: x in a ==> a[x] in b && b[a[x]] == x
    ensures |a.Keys| <= |b.Keys|
    decreases |a.Keys|
  {
    if x :| x in a {
      assert (a - {x}).Keys == a.Keys - {x} && (b - {a[x]}).Keys == b.Keys - {a[x]};
      SameNumber(a - {x}, b - {a[x]});
    }
  }

  lemma {:induction false} AllListed(s: seq<nat>, n: nat, k: nat) returns (seen: set<nat>)
    requires Complete(s, n) && k <= n
    ensures |seen| == k && forall w :: w in seen <==> w in s[..k]
  {
    if k == 0 {
      seen := {};
    } else {
      var before := AllListed(s, n, k - 1);
      assert s[..k] == s[..k - 1] + [s[k - 1]];
      seen := before + {s[k - 1]};
    }
  }

  /** Every woman is on a complete list. */
  lemma Listed(s: seq<nat>, n: nat, w: nat)
    requires Complete(s, n) && w < n
    ensures w in s
  {
    var seen := AllListed(s, n, n);
    assert s[..n] == s;
    SubsetSize(seen, Below(n));
    assert w in Below(n);
  }

  /** A man without a wife has a woman left to ask. */
  lemma NotExhausted(prefs: seq<seq<nat>>, ranks: seq<seq<nat>>, n: nat, t: State, m: nat)
    requires Preferences(prefs, ranks, n) && Running(prefs, ranks, n, t) && m < n && m !in t.wives
    ensures t.asked[m] < n
  {
    if t.asked[m] == n {
      forall w: nat | w < n
        ensures w in t.husbands
      {
        Listed(prefs[m], n, w);
        var i :| 0 <= i < n && prefs[m][i] == w;
        assert Answered(prefs, ranks, n, t, m, i);
      }
      SubsetSize(Below(n), t.husbands.Keys);
      SameNumber(t.husbands, t.wives);
      SubsetSize(t.wives.Keys + {m}, Below(n));
      assert false;
    }
  }

  // ---------- the result ----------

  /** With nobody left, everybody is married, and the marriages are stable. */
  lemma DoneIsStable(prefs: seq<seq<nat>>, ranks: seq<seq<nat>>, n: nat, t: State, mu: seq<nat>)
    requires Preferences(prefs, ranks, n) && Running(prefs, ranks, n, t) && t.stack == []
    requires |mu| == n && forall m :: 0 <= m < n ==> m in t.wives && mu[m] == t.wives[m]
    ensures Stable(prefs, ranks, n, mu)
  {
    forall m, k | 0 <= m < n && 0 <= k < n
      ensures !Blocking(prefs, ranks, mu, m, k)
    {
      if Prefers(prefs, m, mu[k], mu[m]) {
        var i, j :| 0 <= i < j < n && prefs[m][i] == mu[k] && prefs[m][j] == mu[m];
        assert LastAsked(prefs, n, t, m) && Answered(prefs, ranks, n, t, m, i);
      }
    }
  }

  /** If w is the wife of m in mu, a man x whom she is asked by and likes better is not to have a
      woman before her in mu that he has not been turned down by: they would block mu. */
  lemma WouldBlock(prefs: seq<seq<nat>>, ranks: seq<seq<nat>>, n: nat, t: State, mu: seq<nat>, m: nat, x: nat, a: nat)
    requires Preferences(prefs, ranks, n) && Stable(prefs, ranks, n, mu) && Open(prefs, n, t, mu)
    requires m < n && x < n && m != x && a < n && |t.asked| == n && a <= t.asked[x] && prefs[x][a] == mu[m]
    requires x in t.wives ==> t.wives[x] == mu[m]
    ensures ranks[mu[m]][m] < ranks[mu[m]][x]
  {
    var w := mu[m];
    assert mu[x] != w;
    Listed(prefs[x], n, mu[x]);
    var j :| 0 <= j < n && prefs[x][j] == mu[x];
    assert NotTurnedDown(prefs, n, t, mu, x, j);
    assert Prefers(prefs, x, w, mu[x]);
    assert !Blocking(prefs, ranks, mu, x, m);
    assert ranks[w][m] != ranks[w][x];
  }

  /** No woman turns down a man whom she has in a stable matching. */
  lemma RoundOpen(prefs: seq<seq<nat>>, ranks: seq<seq<nat>>, n: nat, t: State, mu: seq<nat>)
    requires Preferences(prefs, ranks, n) && Ready(prefs, ranks, n, t)
    requires Stable(prefs, ranks, n, mu) && Open(prefs, n, t, mu)
    ensures Open(prefs, n, Round(prefs, ranks, t), mu)
  {
    var man, u := t.stack[|t.stack| - 1], Round(prefs, ranks, t);
    var a := t.asked[man];
    var w := prefs[man][a];
    assert man !in t.wives;
    forall m: nat, i: nat
      ensures NotTurnedDown(prefs, n, u, mu, m, i)
    {
      assert NotTurnedDown(prefs, n, t, mu, m, i);
      if m < n && i < u.asked[m] && prefs[m][i] == mu[m] && !(m in u.wives && u.wives[m] == mu[m]) {
        var fiance := t.husbands[w];
        assert LastAsked(prefs, n, t, fiance);
        if m == man {
          WouldBlock(prefs, ranks, n, t, mu, man, fiance, t.asked[fiance] - 1);
        } else {
          WouldBlock(prefs, ranks, n, t, mu, fiance, man, a);
        }
        assert false;
      }
    }
  }

  /** Every man gets the best wife that any stable matching gives him. */
  lemma BestForMen(prefs: seq<seq<nat>>, ranks: seq<seq<nat>>, n: nat, t: State, mu: seq<nat>, m: nat)
    requires Preferences(prefs, ranks, n) && Running(prefs, ranks, n, t) && t.stack == []
    requires Stable(prefs, ranks, n, mu) && Open(prefs, n, t, mu) && m < n
    ensures m in t.wives && (t.wives[m] == mu[m] || Prefers(prefs, m, t.wives[m], mu[m]))
  {
    assert LastAsked(prefs, n, t, m);
    Listed(prefs[m], n, mu[m]);
    var j :| 0 <= j < n && prefs[m][j] == mu[m];
    assert NotTurnedDown(prefs, n, t, mu, m, j);
  }

  // ---------- counting the rounds ----------

  lemma {:induction false} TotalBound(s: seq<nat>, n: nat)
    requires forall i :: 0 <= i < |s| ==> s[i] <= n
    ensures Total(s) <= |s| * n
  {
    if s != [] {
      TotalBound(s[..|s| - 1], n);
      assert |s| * n == (|s| - 1) * n + n;
    }
  }

  // ---------- the program ----------

  class OStack {
    var ram: map<nat, nat>
    var size: nat

    ghost predicate Valid()
      reads this
    {
      forall i: nat :: i < size ==> i in ram
    }

    ghost function Contents(): (s: seq<nat>)
      requires Valid()
      reads this
    {
      var r, n := ram, size;
      seq(n, i requires 0 <= i < n && i in r => r[i])
    }

    constructor ()
      ensures Valid() && Contents() == []
    {
      ram, size := map[], 0;
    }

    method Append(item: nat, forReal: bool)
      requires Valid()
      modifies this
      ensures Valid() && Contents() == old(Contents()) + if forReal then [item] else []
    {
      if forReal {
        ram := ram[size := item];
        size := size + 1;
      }
    }

    method Pop() returns (item: nat)
      requires Valid() && Contents() != []
      modifies this
      ensures Valid() && old(Contents()) == Contents() + [item]
    {
      size := size - 1;
      item := ram[size];
    }
  }

  /** The place of a woman on a list. */
  ghost function PlaceIn(s: seq<nat>, w: nat): (i: nat)
    requires w in s
    ensures i < |s| && s[i] == w
  {
    if s[0] == w then 0 else 1 + PlaceIn(s[1..], w)
  }

  /** How many women every man has asked when he ends with mu[m]. */
  ghost function Asked(prefs: seq<seq<nat>>, mu: seq<nat>): (a: seq<nat>)
    requires |prefs| == |mu| && forall m :: 0 <= m < |mu| ==> mu[m] in prefs[m]
    ensures |a| == |mu|
  {
    seq(|mu|, m requires 0 <= m < |mu| => PlaceIn(prefs[m], mu[m]) + 1)
  }

  lemma AskedAtEnd(prefs: seq<seq<nat>>, ranks: seq<seq<nat>>, n: nat, t: State, mu: seq<nat>)
    requires Preferences(prefs, ranks, n) && Running(prefs, ranks, n, t) && t.stack == []
    requires |mu| == n && forall m :: 0 <= m < n && m in t.wives ==> mu[m] == t.wives[m]
    ensures forall m :: 0 <= m < n ==> mu[m] in prefs[m]
    ensures t.asked == Asked(prefs, mu)
  {
    forall m | 0 <= m < n
      ensures mu[m] in prefs[m] && t.asked[m] == PlaceIn(prefs[m], mu[m]) + 1
    {
      assert m in t.wives && LastAsked(prefs, n, t, m);
      assert prefs[m][t.asked[m] - 1] == mu[m];
      assert Complete(prefs[m], n);
    }
  }

  class Matchmaker {
    const N: nat
    const mPrefs: seq<seq<nat>>
    const fRanks: seq<seq<nat>>
    const unengaged: OStack
    var wives: map<nat, nat>
    var husbands: map<nat, nat>

    ghost predicate Valid()
      reads this, unengaged
    {
      unengaged.Valid() && N >= 1 && Preferences(mPrefs, fRanks, N)
    }

    ghost function Now(asked: seq<nat>): State
      requires unengaged.Valid()
      reads this, unengaged
    {
      State(wives, husbands, asked, unengaged.Contents())
    }

    constructor (N: nat, mPrefs: seq<seq<nat>>, fRanks: seq<seq<nat>>)
      requires N >= 1 && Preferences(mPrefs, fRanks, N)
      ensures Valid() && fresh(unengaged) && this.N == N && this.mPrefs == mPrefs && this.fRanks == fRanks
      ensures wives == map[] && husbands == map[] && unengaged.Contents() == []
    {
      this.N, this.mPrefs, this.fRanks := N, mPrefs, fRanks;
      wives, husbands := map[], map[];
      unengaged := new OStack();
    }

    method Engage(man: nat, woman: nat, forReal: bool)
      modifies this
      ensures wives == (if forReal then old(wives)[man := woman] else old(wives))
      ensures husbands == if forReal then old(husbands)[woman := man] else old(husbands)
    {
      if forReal {
        wives := wives[man := woman];
        husbands := husbands[woman := man];
      }
    }

    method Dump(man: nat, woman: nat, forReal: bool)
      requires unengaged.Valid()
      modifies this, unengaged
      ensures unengaged.Valid()
      ensures wives == old(wives) - (if forReal then {man} else {})
      ensures husbands == old(husbands) - (if forReal then {woman} else {})
      ensures unengaged.Contents() == old(unengaged.Contents()) + if forReal then [man] else []
    {
      if forReal {
        wives := wives - {man};
        husbands := husbands - {woman};
      }
      unengaged.Append(man, forReal);
    }

    method Propose(man: nat, woman: nat, ghost asked: seq<nat>)
      requires Valid() && man < N && |asked| == N && asked[man] < N && woman == mPrefs[man][asked[man]]
      requires Running(mPrefs, fRanks, N, Now(asked).(stack := Now(asked).stack + [man]))
      modifies this, unengaged
      ensures Valid()
      ensures Now(asked[man := asked[man] + 1]) == Round(mPrefs, fRanks,
                                                         old(Now(asked)).(stack := old(Now(asked)).stack + [man]))
    {
      var engaged := woman in husbands;
      var fiance := if engaged then husbands[woman] else 0;
      var rankMan, rankFiance := fRanks[woman][man], fRanks[woman][if engaged then fiance else 0];
      var leaving := rankMan < rankFiance;
      Dump(fiance, woman, engaged && leaving);
      Engage(man, woman, !(engaged && !leaving));
      unengaged.Append(man, engaged && !leaving);
      RoundIs(mPrefs, fRanks, N, old(Now(asked)), man, engaged, leaving);
    }

    /** Ends after at most N * N proposals, with a stable matching that gives every man the best wife
        of all stable ones. Every man has asked exactly the women down to his wife on his list. */
    method Match() returns (rounds: nat, ghost mu: seq<nat>)
      requires Valid() && wives == map[] && husbands == map[] && unengaged.Contents() == []
      modifies this, unengaged
      ensures Valid() && rounds <= N * N
      ensures |mu| == N && (forall m :: 0 <= m < N ==> mu[m] in mPrefs[m]) && rounds == Total(Asked(mPrefs, mu))
      ensures Stable(mPrefs, fRanks, N, mu)
      ensures forall m :: 0 <= m < N ==> m in wives && wives[m] == mu[m] && mu[m] in husbands && husbands[mu[m]] == m
      ensures forall nu, m :: 0 <= m < N && Stable(mPrefs, fRanks, N, nu) ==>
        mu[m] == nu[m] || Prefers(mPrefs, m, mu[m], nu[m])
    {
      for i := 0 to N
        invariant Valid() && unengaged.Contents() == FirstMen(i) && wives == map[] && husbands == map[]
      {
        unengaged.Append(i, true);
      }
      var asked: seq<nat> := seq(N, _ => 0);
      TotalOfNone(N);
      rounds := 0;
      var again := true;
      StartRunning(mPrefs, fRanks, N, Now(asked));
      while again
        invariant Valid() && Running(mPrefs, fRanks, N, Now(asked)) && rounds == Total(asked)
        invariant again <==> unengaged.Contents() != []
        invariant forall nu :: Stable(mPrefs, fRanks, N, nu) ==> Open(mPrefs, N, Now(asked), nu)
        decreases N * N - rounds, again
      {
        rounds := rounds + 1;
        asked := Turn(asked);
        TotalBound(asked, N);
        again := unengaged.size > 0;
      }
      TotalBound(asked, N);
      mu := Everybody(N, wives);
      AskedAtEnd(mPrefs, fRanks, N, Now(asked), mu);
      DoneIsStable(mPrefs, fRanks, N, Now(asked), mu);
      forall nu, m | 0 <= m < N && Stable(mPrefs, fRanks, N, nu)
        ensures mu[m] == nu[m] || Prefers(mPrefs, m, mu[m], nu[m])
      {
        BestForMen(mPrefs, fRanks, N, Now(asked), nu, m);
      }
    }

    /** The man on top of the stack asks the next woman on his list; there is one. */
    method Turn(asked: seq<nat>) returns (next: seq<nat>)
      requires Valid() && Running(mPrefs, fRanks, N, Now(asked)) && unengaged.Contents() != []
      modifies this, unengaged
      ensures Valid() && Running(mPrefs, fRanks, N, Now(next)) && Total(next) == Total(asked) + 1
      ensures forall nu :: Stable(mPrefs, fRanks, N, nu) && old(Open(mPrefs, N, Now(asked), nu)) ==>
        Open(mPrefs, N, Now(next), nu)
    {
      ghost var t := Now(asked);
      var man := unengaged.Pop();
      assert t.stack[|t.stack| - 1] == man;
      NotExhausted(mPrefs, fRanks, N, t, man);
      TotalMore(asked, man);
      Propose(man, mPrefs[man][asked[man]], asked);
      next := asked[man := asked[man] + 1];
      RoundRunning(mPrefs, fRanks, N, t);
      forall nu | Stable(mPrefs, fRanks, N, nu) && Open(mPrefs, N, t, nu)
        ensures Open(mPrefs, N, Now(next), nu)
      {
        RoundOpen(mPrefs, fRanks, N, t, nu);
      }
    }
  }

  /** The men that are single at the start. */
  ghost function FirstMen(n: nat): (s: seq<nat>)
    ensures |s| == n && forall i :: 0 <= i < n ==> s[i] == i
  {
    seq(n, i requires 0 <= i < n => i)
  }

  ghost function Everybody(n: nat, wives: map<nat, nat>): (mu: seq<nat>)
    ensures |mu| == n && forall m :: 0 <= m < n && m in wives ==> mu[m] == wives[m]
  {
    seq(n, m requires 0 <= m < n => if m in wives then wives[m] else 0)
  }

  lemma StartRunning(prefs: seq<seq<nat>>, ranks: seq<seq<nat>>, n: nat, t: State)
    requires Preferences(prefs, ranks, n) && t.wives == map[] && t.husbands == map[] && t.stack == FirstMen(n)
    requires |t.asked| == n && forall m :: 0 <= m < n ==> t.asked[m] == 0
    ensures Running(prefs, ranks, n, t)
    ensures forall mu :: Open(prefs, n, t, mu)
  {
    forall m: nat | m < n
      ensures m in t.stack
    {
      assert t.stack[m] == m;
    }
  }
}
