/**
 Parties that add up values along one tree and hand the sum down another, over first-in first-out
 channels, in any interleaving. The parties are numbered so that parents come before children.
 */
module TreeNetwork {
  import opened Sequences

  // ---------- sums ----------

  datatype Group<!V> = Group(zero: V, add: (V, V) -> V)

  ghost predicate AddLaws<V>(G: Group<V>, a: V, b: V, c: V) {
    && G.add(a, b) == G.add(b, a)
    && G.add(G.add(a, b), c) == G.add(a, G.add(b, c))
    && G.add(G.zero, a) == a
  }

  ghost predicate IsGroup<V(!new)>(G: Group<V>) {
    forall a, b, c :: AddLaws(G, a, b, c)
  }

  /** The sum of the inputs of the first n parties that f selects. */
  function SumIf<V>(G: Group<V>, x: seq<V>, f: nat -> bool, n: nat): V
    requires n <= |x|
  {
    if n == 0 then G.zero else
      if f(n - 1) then G.add(SumIf(G, x, f, n - 1), x[n - 1]) else SumIf(G, x, f, n - 1)
  }

  function Everybody(): nat -> bool {
    (_: nat) => true
  }

  lemma {:induction false} SumSame<V>(G: Group<V>, x: seq<V>, f: nat -> bool, g: nat -> bool, n: nat)
    requires n <= |x| && forall y: nat :: y < n ==> f(y) == g(y)
    ensures SumIf(G, x, f, n) == SumIf(G, x, g, n)
  {
    if n > 0 {
      SumSame(G, x, f, g, n - 1);
    }
  }

  lemma {:induction false} SumNone<V>(G: Group<V>, x: seq<V>, f: nat -> bool, n: nat)
    requires n <= |x| && forall y: nat :: y < n ==> !f(y)
    ensures SumIf(G, x, f, n) == G.zero
  {
    if n > 0 {
      SumNone(G, x, f, n - 1);
    }
  }

  lemma {:induction false} SumOne<V(!new)>(G: Group<V>, x: seq<V>, f: nat -> bool, r: nat, n: nat)
    requires IsGroup(G) && r < n <= |x| && forall y: nat :: y < n ==> (f(y) <==> y == r)
    ensures SumIf(G, x, f, n) == x[r]
  {
    if r == n - 1 {
      SumNone(G, x, f, n - 1);
      assert AddLaws(G, x[r], G.zero, G.zero);
    } else {
      SumOne(G, x, f, r, n - 1);
    }
  }

  /** Of two selections that share nobody, the sums add up. */
  lemma {:induction false} SumApart<V(!new)>(G: Group<V>, x: seq<V>, f: nat -> bool, g: nat -> bool, h: nat -> bool,
                                             n: nat)
    requires IsGroup(G) && n <= |x|
    requires forall y: nat :: y < n ==> !(f(y) && g(y)) && (h(y) <==> f(y) || g(y))
    ensures SumIf(G, x, h, n) == G.add(SumIf(G, x, f, n), SumIf(G, x, g, n))
  {
    if n == 0 {
      assert AddLaws(G, G.zero, G.zero, G.zero);
    } else {
      SumApart(G, x, f, g, h, n - 1);
      var a, b, c := SumIf(G, x, f, n - 1), SumIf(G, x, g, n - 1), x[n - 1];
      // (a + b) + c == (a + c) + b == a + (b + c)
      assert AddLaws(G, a, b, c) && AddLaws(G, a, c, b) && AddLaws(G, b, c, a);
    }
  }

  // ---------- trees ----------

  type Lists = seq<seq<nat>>

  /** kids lists the children of every party, and up has the parents. */
  ghost predicate IsTree(n: nat, kids: Lists, up: seq<nat>) {
    && |kids| == |up| == n
    && (forall r: nat, i: nat :: KidAt(kids, up, r, i))
    && (forall r: nat, i: nat, j: nat :: KidsDiffer(kids, r, i, j))
    && (forall q: nat :: HasParent(kids, up, q))
  }

  ghost predicate KidAt(kids: Lists, up: seq<nat>, r: nat, i: nat)
    requires |kids| == |up|
  {
    r < |kids| && i < |kids[r]| ==> r < kids[r][i] < |kids| && up[kids[r][i]] == r
  }

  ghost predicate KidsDiffer(kids: Lists, r: nat, i: nat, j: nat) {
    r < |kids| && i < j < |kids[r]| ==> kids[r][i] != kids[r][j]
  }

  ghost predicate HasParent(kids: Lists, up: seq<nat>, q: nat)
    requires |kids| == |up|
  {
    0 < q < |kids| ==> up[q] < q && q in kids[up[q]]
  }


  /** The place of q among the children of its parent. */
  ghost function Place(n: nat, kids: Lists, up: seq<nat>, q: nat): (i: nat)
    requires IsTree(n, kids, up) && 0 < q < n
    ensures up[q] < q && i < |kids[up[q]]| && kids[up[q]][i] == q
  {
    assert HasParent(kids, up, q);
    var i: nat :| i < |kids[up[q]]| && kids[up[q]][i] == q;
    i
  }

  lemma PlaceOf(n: nat, kids: Lists, up: seq<nat>, r: nat, i: nat)
    requires IsTree(n, kids, up) && r < n && i < |kids[r]|
    ensures var q := kids[r][i]; r < q < n && up[q] == r && Place(n, kids, up, q) == i
  {
    assert KidAt(kids, up, r, i);
    var j := Place(n, kids, up, kids[r][i]);
    assert KidsDiffer(kids, r, i, j) && KidsDiffer(kids, r, j, i);
  }

  /** r is q or above it. */
  ghost predicate Under(up: seq<nat>, r: nat, q: nat) {
    q == r || (r < q < |up| && up[q] < q && Under(up, r, up[q]))
  }

  /** q is r or under one of its first k children. */
  ghost predicate UnderFirst(kids: Lists, up: seq<nat>, r: nat, k: nat, q: nat) {
    q == r || (r < |kids| && exists i :: 0 <= i < k && i < |kids[r]| && Under(up, kids[r][i], q))
  }

  lemma {:induction false} AllUnderRoot(n: nat, kids: Lists, up: seq<nat>, q: nat)
    requires IsTree(n, kids, up) && q < n
    ensures Under(up, 0, q)
  {
    if q > 0 {
      assert HasParent(kids, up, q);
      AllUnderRoot(n, kids, up, up[q]);
    }
  }

  lemma {:induction false} UnderSomeKid(n: nat, kids: Lists, up: seq<nat>, r: nat, q: nat)
    requires IsTree(n, kids, up) && r < n && q < n
    ensures Under(up, r, q) <==> UnderFirst(kids, up, r, |kids[r]|, q)
    decreases q
  {
    if q > r {
      assert HasParent(kids, up, q);
      UnderSomeKid(n, kids, up, r, up[q]);
      if Under(up, r, q) {
        if up[q] == r {
          var i := Place(n, kids, up, q);
          assert Under(up, kids[r][i], q);
        } else {
          var i :| 0 <= i < |kids[r]| && Under(up, kids[r][i], up[q]);
          UnderUp(up, kids[r][i], q);
        }
      }
      if UnderFirst(kids, up, r, |kids[r]|, q) {
        var i: nat :| i < |kids[r]| && Under(up, kids[r][i], q);
        assert KidAt(kids, up, r, i);
        if kids[r][i] != q {
          assert Under(up, kids[r][i], up[q]);
        }
      }
    } else if q < r && UnderFirst(kids, up, r, |kids[r]|, q) {
      var i: nat :| i < |kids[r]| && Under(up, kids[r][i], q);
      assert KidAt(kids, up, r, i);
      UnderBelow(up, kids[r][i], q);
    }
  }

  lemma UnderUp(up: seq<nat>, r: nat, q: nat)
    requires q < |up| && up[q] < q && Under(up, r, up[q])
    ensures Under(up, r, q)
  {
    UnderBelow(up, r, up[q]);
  }

  lemma {:induction false} UnderBelow(up: seq<nat>, r: nat, q: nat)
    requires Under(up, r, q)
    ensures r <= q
  {
  }

  /** Nobody is under two children of one party. */
  lemma {:induction false} KidsApart(up: seq<nat>, c: nat, d: nat, q: nat)
    requires c < d < |up| && up[d] < c && Under(up, d, q)
    ensures !Under(up, c, q)
  {
    if q == d {
      if Under(up, c, d) {
        UnderBelow(up, c, up[d]);
      }
    } else {
      KidsApart(up, c, d, up[q]);
    }
  }

  // ---------- the parties ----------

  /** Values are added along one tree, given by kids and up, and the sum goes down another. */
  datatype Trees = Trees(n: nat, kids: Lists, up: seq<nat>, downs: Lists, dn: seq<nat>)

  ghost predicate AreTrees(c: Trees) {
    c.n > 0 && IsTree(c.n, c.kids, c.up) && IsTree(c.n, c.downs, c.dn)
  }

  datatype Act = Add(from: nat) | Send(to: nat) | Take(from: nat) | Stop

  /** The number of values that party r adds. */
  function Adds(c: Trees, r: nat): nat
    requires r < |c.kids|
  {
    |c.kids[r]|
  }

  /** Where party r starts to hand the sum on. */
  function Base(c: Trees, r: nat): nat
    requires r < |c.kids|
  {
    Adds(c, r) + if r > 0 then 2 else 0
  }

  function Length(c: Trees, r: nat): nat
    requires r < |c.kids| && r < |c.downs|
  {
    Base(c, r) + |c.downs[r]|
  }

  /** What party r does after k acts. */
  function ActAt(c: Trees, r: nat, k: nat): Act
    requires r < |c.kids| == |c.downs| == |c.up| == |c.dn|
  {
    if k < Adds(c, r) then Add(c.kids[r][k])
    else if r > 0 && k == Adds(c, r) then Send(c.up[r])
    else if r > 0 && k == Adds(c, r) + 1 then Take(c.dn[r])
    else if k < Length(c, r) then Send(c.downs[r][k - Base(c, r)])
    else Stop
  }

  // ---------- the network ----------

  /** How many acts every party has done, its value, and the messages under way. */
  datatype State<!V> = State(done: seq<nat>, val: seq<V>, chan: (nat, nat) -> seq<V>)

  predicate Shaped<V>(c: Trees, s: State<V>) {
    |s.done| == |s.val| == c.n == |c.kids| == |c.downs| == |c.up| == |c.dn|
  }

  function Start<V>(x: seq<V>): State<V> {
    State(seq(|x|, _ => 0), x, (_: nat, _: nat) => [])
  }

  /** Party r can act: what it waits for is there. */
  predicate Can<V>(s: State<V>, r: nat, a: Act) {
    match a
    case Add(p) => |s.chan(p, r)| > 0
    case Take(p) => |s.chan(p, r)| > 0
    case Send(_) => true
    case Stop => false
  }

  function Set<V>(chan: (nat, nat) -> seq<V>, p: nat, q: nat, m: seq<V>): (nat, nat) -> seq<V> {
    (a: nat, b: nat) => if a == p && b == q then m else chan(a, b)
  }

  /** One act of party r. */
  function Perform<V>(G: Group<V>, s: State<V>, r: nat, a: Act): (t: State<V>)
    requires r < |s.done| == |s.val| && Can(s, r, a)
    ensures |t.done| == |t.val| == |s.done|
  {
    var done := s.done[r := s.done[r] + 1];
    match a
    case Add(p) =>
      State(done, s.val[r := G.add(s.val[r], s.chan(p, r)[0])], Set(s.chan, p, r, s.chan(p, r)[1..]))
    case Take(p) => State(done, s.val[r := s.chan(p, r)[0]], Set(s.chan, p, r, s.chan(p, r)[1..]))
    case Send(q) => State(done, s.val, Set(s.chan, r, q, s.chan(r, q) + [s.val[r]]))
  }

  predicate Enabled<V>(c: Trees, s: State<V>, r: nat)
    requires Shaped(c, s)
  {
    r < c.n && Can(s, r, ActAt(c, r, s.done[r]))
  }

  function Step<V>(c: Trees, G: Group<V>, s: State<V>, r: nat): (t: State<V>)
    requires Shaped(c, s) && Enabled(c, s, r)
    ensures Shaped(c, t)
  {
    Perform(G, s, r, ActAt(c, r, s.done[r]))
  }

  // ---------- what the counts say ----------

  ghost function Selected(c: Trees, r: nat, k: nat): nat -> bool {
    (q: nat) => UnderFirst(c.kids, c.up, r, k, q)
  }

  ghost function Below(c: Trees, r: nat): nat -> bool {
    (q: nat) => Under(c.up, r, q)
  }

  /** The value of party r after k acts. */
  ghost function ValueAt<V>(c: Trees, G: Group<V>, x: seq<V>, r: nat, k: nat): V
    requires r < |c.kids| && |x| == c.n
  {
    if k <= Adds(c, r) then SumIf(G, x, Selected(c, r, k), c.n)
    else if k <= Adds(c, r) + 1 && r > 0 then SumIf(G, x, Selected(c, r, Adds(c, r)), c.n)
    else SumIf(G, x, Everybody(), c.n)
  }

  /** p has sent its sum to its parent. */
  ghost predicate SentUp(c: Trees, done: seq<nat>, p: nat)
    requires AreTrees(c) && |done| == c.n && 0 < p < c.n
  {
    done[p] > Adds(c, p)
  }

  ghost predicate AddedUp(c: Trees, done: seq<nat>, p: nat)
    requires AreTrees(c) && |done| == c.n && 0 < p < c.n
  {
    var i := Place(c.n, c.kids, c.up, p);
    done[c.up[p]] > i
  }

  /** The parent of q has sent the sum to q. */
  ghost predicate SentDown(c: Trees, done: seq<nat>, q: nat)
    requires AreTrees(c) && |done| == c.n && 0 < q < c.n
  {
    var i := Place(c.n, c.downs, c.dn, q);
    done[c.dn[q]] > Base(c, c.dn[q]) + i
  }

  ghost predicate TakenDown(c: Trees, done: seq<nat>, q: nat)
    requires AreTrees(c) && |done| == c.n && 0 < q < c.n
  {
    done[q] > Adds(c, q) + 1
  }

  /** The messages from p to q. */
  ghost function Expected<V>(c: Trees, G: Group<V>, x: seq<V>, done: seq<nat>, p: nat, q: nat): seq<V>
    requires AreTrees(c) && |done| == c.n == |x|
  {
    if q < p < c.n && c.up[p] == q then
      if SentUp(c, done, p) && !AddedUp(c, done, p) then [SumIf(G, x, Below(c, p), c.n)] else []
    else if p < q < c.n && c.dn[q] == p then
      if SentDown(c, done, q) && !TakenDown(c, done, q) then [SumIf(G, x, Everybody(), c.n)] else []
    else []
  }

  /** Nothing is received before it is sent. */
  ghost predicate Causal(c: Trees, done: seq<nat>, p: nat)
    requires AreTrees(c) && |done| == c.n
  {
    0 < p < c.n ==> (AddedUp(c, done, p) ==> SentUp(c, done, p)) && (TakenDown(c, done, p) ==> SentDown(c, done, p))
  }

  ghost predicate ValueOk<V>(c: Trees, G: Group<V>, x: seq<V>, s: State<V>, r: nat)
    requires Shaped(c, s) && |x| == c.n
  {
    r < c.n ==> s.done[r] <= Length(c, r) && s.val[r] == ValueAt(c, G, x, r, s.done[r])
  }

  ghost predicate ChanOk<V>(c: Trees, G: Group<V>, x: seq<V>, s: State<V>, p: nat, q: nat)
    requires AreTrees(c) && Shaped(c, s) && |x| == c.n
  {
    s.chan(p, q) == Expected(c, G, x, s.done, p, q)
  }

  ghost predicate Sound<V>(c: Trees, G: Group<V>, x: seq<V>, s: State<V>) {
    && AreTrees(c) && Shaped(c, s) && |x| == c.n
    && (forall r: nat :: ValueOk(c, G, x, s, r))
    && (forall p: nat :: Causal(c, s.done, p))
    && (forall p: nat, q: nat :: ChanOk(c, G, x, s, p, q))
  }

  // ---------- one act keeps it so ----------

  lemma StartSound<V(!new)>(c: Trees, G: Group<V>, x: seq<V>)
    requires AreTrees(c) && |x| == c.n && IsGroup(G)
    ensures Sound(c, G, x, Start(x))
  {
    var s := Start(x);
    forall r: nat
      ensures ValueOk(c, G, x, s, r)
    {
      if r < c.n {
        SumOne(G, x, Selected(c, r, 0), r, c.n);
      }
    }
  }

  /** Adding the sum of the next child. */
  lemma AddNext<V(!new)>(c: Trees, G: Group<V>, x: seq<V>, r: nat, k: nat)
    requires AreTrees(c) && |x| == c.n && IsGroup(G) && r < c.n && k < Adds(c, r)
    ensures SumIf(G, x, Selected(c, r, k + 1), c.n)
         == G.add(SumIf(G, x, Selected(c, r, k), c.n), SumIf(G, x, Below(c, c.kids[r][k]), c.n))
  {
    var d := c.kids[r][k];
    forall q: nat | q < c.n
      ensures !(UnderFirst(c.kids, c.up, r, k, q) && Under(c.up, d, q))
      ensures UnderFirst(c.kids, c.up, r, k + 1, q) <==> UnderFirst(c.kids, c.up, r, k, q) || Under(c.up, d, q)
    {
      if UnderFirst(c.kids, c.up, r, k, q) && Under(c.up, d, q) {
        UnderBelow(c.up, d, q);
        PlaceOf(c.n, c.kids, c.up, r, k);
        var i: nat :| i < k && Under(c.up, c.kids[r][i], q);
        PlaceOf(c.n, c.kids, c.up, r, i);
        if c.kids[r][i] < d {
          KidsApart(c.up, c.kids[r][i], d, q);
        } else {
          KidsApart(c.up, d, c.kids[r][i], q);
        }
      }
    }
    SumApart(G, x, Selected(c, r, k), Below(c, d), Selected(c, r, k + 1), c.n);
  }

  /** Once all children are added, the value is the sum of all parties below; of all for the root. */
  lemma AllAdded<V>(c: Trees, G: Group<V>, x: seq<V>, r: nat)
    requires AreTrees(c) && |x| == c.n && r < c.n
    ensures SumIf(G, x, Selected(c, r, Adds(c, r)), c.n) == SumIf(G, x, Below(c, r), c.n)
    ensures r == 0 ==> SumIf(G, x, Below(c, r), c.n) == SumIf(G, x, Everybody(), c.n)
  {
    forall q: nat | q < c.n
      ensures UnderFirst(c.kids, c.up, r, Adds(c, r), q) <==> Under(c.up, r, q)
      ensures Under(c.up, 0, q)
    {
      UnderSomeKid(c.n, c.kids, c.up, r, q);
      AllUnderRoot(c.n, c.kids, c.up, q);
    }
    SumSame(G, x, Selected(c, r, Adds(c, r)), Below(c, r), c.n);
    SumSame(G, x, Below(c, 0), Everybody(), c.n);
  }

  /** The one channel that the next act of r changes. */
  ghost predicate Touches(c: Trees, r: nat, k: nat, p: nat, q: nat)
    requires r < |c.kids| == |c.downs| == |c.up| == |c.dn|
  {
    match ActAt(c, r, k)
    case Add(a) => p == a && q == r
    case Take(a) => p == a && q == r
    case Send(b) => p == r && q == b
    case Stop => false
  }

  /** The acts that concern a party and its parents. */
  lemma ActsWith(c: Trees, q: nat)
    requires AreTrees(c) && 0 < q < c.n
    ensures c.up[q] < q && ActAt(c, c.up[q], Place(c.n, c.kids, c.up, q)) == Add(q)
    ensures c.dn[q] < q && ActAt(c, c.dn[q], Base(c, c.dn[q]) + Place(c.n, c.downs, c.dn, q)) == Send(q)
    ensures ActAt(c, q, Adds(c, q)) == Send(c.up[q]) && ActAt(c, q, Adds(c, q) + 1) == Take(c.dn[q])
  {
    var i, j := Place(c.n, c.kids, c.up, q), Place(c.n, c.downs, c.dn, q);
  }

  /** No other channel is affected by that r has done one act more. */
  lemma OthersKept<V>(c: Trees, G: Group<V>, x: seq<V>, done: seq<nat>, r: nat, p: nat, q: nat)
    requires AreTrees(c) && |done| == c.n == |x| && r < c.n && !Touches(c, r, done[r], p, q)
    ensures Expected(c, G, x, done[r := done[r] + 1], p, q) == Expected(c, G, x, done, p, q)
  {
    var done1 := done[r := done[r] + 1];
    if q < p < c.n && c.up[p] == q {
      ActsWith(c, p);
      assert SentUp(c, done1, p) == SentUp(c, done, p) && AddedUp(c, done1, p) == AddedUp(c, done, p);
    } else if p < q < c.n && c.dn[q] == p {
      ActsWith(c, q);
      assert SentDown(c, done1, q) == SentDown(c, done, q) && TakenDown(c, done1, q) == TakenDown(c, done, q);
    }
  }

  ghost predicate OwnKept<V>(c: Trees, G: Group<V>, x: seq<V>, s: State<V>, t: State<V>, r: nat)
    requires AreTrees(c) && Shaped(c, s) && Shaped(c, t) && |x| == c.n && r < c.n
  {
    && t.done[r] <= Length(c, r) && t.val[r] == ValueAt(c, G, x, r, t.done[r])
    && forall p: nat, q: nat :: Touches(c, r, s.done[r], p, q) ==> ChanOk(c, G, x, t, p, q)
  }

  lemma AddKept<V(!new)>(c: Trees, G: Group<V>, x: seq<V>, s: State<V>, r: nat)
    requires Sound(c, G, x, s) && IsGroup(G) && Enabled(c, s, r) && s.done[r] < Adds(c, r)
    ensures OwnKept(c, G, x, s, Step(c, G, s, r), r)
  {
    var t, k := Step(c, G, s, r), s.done[r];
    var p := c.kids[r][k];
    PlaceOf(c.n, c.kids, c.up, r, k);
    assert ValueOk(c, G, x, s, r) && ChanOk(c, G, x, s, p, r);
    AddNext(c, G, x, r, k);
    assert AddedUp(c, t.done, p);
    assert ChanOk(c, G, x, t, p, r);
  }

  lemma TakeKept<V>(c: Trees, G: Group<V>, x: seq<V>, s: State<V>, r: nat)
    requires Sound(c, G, x, s) && Enabled(c, s, r) && 0 < r && s.done[r] == Adds(c, r) + 1
    ensures OwnKept(c, G, x, s, Step(c, G, s, r), r)
  {
    var t, p := Step(c, G, s, r), c.dn[r];
    ActsWith(c, r);
    assert ValueOk(c, G, x, s, r) && ChanOk(c, G, x, s, p, r);
    assert TakenDown(c, t.done, r);
    assert ChanOk(c, G, x, t, p, r);
  }

  lemma SendUpKept<V>(c: Trees, G: Group<V>, x: seq<V>, s: State<V>, r: nat)
    requires Sound(c, G, x, s) && r < c.n && Enabled(c, s, r) && 0 < r && s.done[r] == Adds(c, r)
    ensures OwnKept(c, G, x, s, Step(c, G, s, r), r)
  {
    var t, q := Step(c, G, s, r), c.up[r];
    ActsWith(c, r);
    AllAdded(c, G, x, r);
    assert ValueOk(c, G, x, s, r) && ChanOk(c, G, x, s, r, q) && Causal(c, s.done, r);
    assert SentUp(c, t.done, r) && !AddedUp(c, t.done, r);
    assert ChanOk(c, G, x, t, r, q);
  }

  lemma SendDownKept<V>(c: Trees, G: Group<V>, x: seq<V>, s: State<V>, r: nat)
    requires Sound(c, G, x, s) && Enabled(c, s, r) && Base(c, r) <= s.done[r] < Length(c, r)
    ensures OwnKept(c, G, x, s, Step(c, G, s, r), r)
  {
    var t, i := Step(c, G, s, r), s.done[r] - Base(c, r);
    var q := c.downs[r][i];
    PlaceOf(c.n, c.downs, c.dn, r, i);
    AllAdded(c, G, x, r);
    assert ValueOk(c, G, x, s, r) && ChanOk(c, G, x, s, r, q) && Causal(c, s.done, q);
    assert SentDown(c, t.done, q) && !TakenDown(c, t.done, q);
    assert ChanOk(c, G, x, t, r, q);
  }

  lemma StepCausal<V>(c: Trees, G: Group<V>, x: seq<V>, s: State<V>, r: nat, p: nat)
    requires Sound(c, G, x, s) && Enabled(c, s, r)
    ensures Causal(c, Step(c, G, s, r).done, p)
  {
    if 0 < p < c.n {
      assert Causal(c, s.done, p);
      ActsWith(c, p);
      assert ChanOk(c, G, x, s, p, c.up[p]) && ChanOk(c, G, x, s, c.dn[p], p);
    }
  }

  lemma StepSound<V(!new)>(c: Trees, G: Group<V>, x: seq<V>, s: State<V>, r: nat)
    requires Sound(c, G, x, s) && IsGroup(G) && Enabled(c, s, r)
    ensures Sound(c, G, x, Step(c, G, s, r))
  {
    var t, k := Step(c, G, s, r), s.done[r];
    assert OwnKept(c, G, x, s, t, r) by {
      if k < Adds(c, r) {
        AddKept(c, G, x, s, r);
      } else if r > 0 && k == Adds(c, r) {
        SendUpKept(c, G, x, s, r);
      } else if r > 0 && k == Adds(c, r) + 1 {
        TakeKept(c, G, x, s, r);
      } else {
        SendDownKept(c, G, x, s, r);
      }
    }
    forall p: nat
      ensures Causal(c, t.done, p) && ValueOk(c, G, x, t, p)
    {
      StepCausal(c, G, x, s, r, p);
      assert ValueOk(c, G, x, s, p);
    }
    forall p: nat, q: nat
      ensures ChanOk(c, G, x, t, p, q)
    {
      if !Touches(c, r, k, p, q) {
        OthersKept(c, G, x, s.done, r, p, q);
        assert ChanOk(c, G, x, s, p, q);
      }
    }
  }

  // ---------- no deadlock ----------

  ghost predicate Summing(c: Trees, done: seq<nat>, r: nat)
    requires |done| == |c.kids| && r < |done|
  {
    done[r] < Adds(c, r) + if r > 0 then 1 else 0
  }

  /** As long as some party has not finished, some party can act. */
  lemma SomebodyActs<V>(c: Trees, G: Group<V>, x: seq<V>, s: State<V>) returns (r: nat)
    requires Sound(c, G, x, s) && !Finished(c, s)
    ensures Enabled(c, s, r)
  {
    if exists p :: 0 <= p < c.n && Summing(c, s.done, p) {
      var p :| 0 <= p < c.n && Summing(c, s.done, p);
      r := LastSumming(c, s.done, p);
      if s.done[r] < Adds(c, r) {
        var q := c.kids[r][s.done[r]];
        PlaceOf(c.n, c.kids, c.up, r, s.done[r]);
        assert !Summing(c, s.done, q);
        assert ChanOk(c, G, x, s, q, r);
      }
    } else {
      var p :| 0 <= p < c.n && s.done[p] != Length(c, p);
      assert ValueOk(c, G, x, s, p);
      r := FirstUnfinished(c, s.done, p);
      assert !Summing(c, s.done, r);
      if r > 0 && s.done[r] == Adds(c, r) + 1 {
        ActsWith(c, r);
        assert ChanOk(c, G, x, s, c.dn[r], r);
      }
    }
  }

  lemma {:induction false} LastSumming(c: Trees, done: seq<nat>, p: nat) returns (r: nat)
    requires AreTrees(c) && |done| == c.n && p < c.n && Summing(c, done, p)
    ensures r < c.n && Summing(c, done, r) && forall q :: r < q < c.n ==> !Summing(c, done, q)
    decreases c.n - p
  {
    if q :| p < q < c.n && Summing(c, done, q) {
      r := LastSumming(c, done, q);
    } else {
      r := p;
    }
  }

  lemma {:induction false} FirstUnfinished(c: Trees, done: seq<nat>, p: nat) returns (r: nat)
    requires AreTrees(c) && |done| == c.n && p < c.n && done[p] < Length(c, p)
    ensures r <= p && done[r] < Length(c, r) && forall q :: 0 <= q < r ==> done[q] >= Length(c, q)
    decreases p
  {
    if q :| 0 <= q < p && done[q] < Length(c, q) {
      r := FirstUnfinished(c, done, q);
    } else {
      r := p;
    }
  }

  /** When all have finished, all have the sum of all inputs, and no message is left. */
  lemma DoneIsSum<V>(c: Trees, G: Group<V>, x: seq<V>, s: State<V>)
    requires Sound(c, G, x, s) && Finished(c, s)
    ensures Settled(G, x, s)
  {
    AllAdded(c, G, x, 0);
    forall r | 0 <= r < c.n
      ensures s.val[r] == SumIf(G, x, Everybody(), c.n)
    {
      assert ValueOk(c, G, x, s, r);
    }
    forall p: nat, q: nat
      ensures s.chan(p, q) == []
    {
      assert ChanOk(c, G, x, s, p, q);
      if q < p < c.n && c.up[p] == q {
        ActsWith(c, p);
      } else if p < q < c.n && c.dn[q] == p {
        ActsWith(c, q);
      }
    }
  }

  // ---------- whole runs ----------

  /** The act of a party, given how many it has done. */
  type Programs = (nat, nat) -> Act

  predicate CanAct<V>(next: Programs, s: State<V>, r: nat) {
    r < |s.done| == |s.val| && Can(s, r, next(r, s.done[r]))
  }

  /** The parties can act in the order of the schedule. */
  predicate Possible<V>(next: Programs, G: Group<V>, x: seq<V>, schedule: seq<nat>)
    decreases |schedule|, 0
  {
    schedule == [] ||
    (Possible(next, G, x, schedule[..|schedule| - 1]) &&
     CanAct(next, After(next, G, x, schedule[..|schedule| - 1]), schedule[|schedule| - 1]))
  }

  /** The network after they have. */
  function After<V>(next: Programs, G: Group<V>, x: seq<V>, schedule: seq<nat>): (s: State<V>)
    requires Possible(next, G, x, schedule)
    ensures |s.done| == |s.val| == |x|
    decreases |schedule|, 1
  {
    if schedule == [] then Start(x) else
      var s, r := After(next, G, x, schedule[..|schedule| - 1]), schedule[|schedule| - 1];
      Perform(G, s, r, next(r, s.done[r]))
  }

  lemma RunExtends<V>(next: Programs, G: Group<V>, x: seq<V>, before: seq<nat>, r: nat)
    requires Possible(next, G, x, before) && CanAct(next, After(next, G, x, before), r)
    ensures Possible(next, G, x, before + [r])
    ensures var s := After(next, G, x, before);
      After(next, G, x, before + [r]) == Perform(G, s, r, next(r, s.done[r]))
  {
    assert (before + [r])[..|before|] == before;
  }

  /** After the schedule, party r can act. */
  ghost predicate GoesOn<V>(next: Programs, G: Group<V>, x: seq<V>, schedule: seq<nat>, r: nat) {
    Possible(next, G, x, schedule + [r])
  }

  lemma OneMore<V>(next: Programs, G: Group<V>, x: seq<V>, schedule: seq<nat>, r: nat)
    requires Possible(next, G, x, schedule)
    ensures GoesOn(next, G, x, schedule, r) <==> CanAct(next, After(next, G, x, schedule), r)
  {
    assert (schedule + [r])[..|schedule|] == schedule;
  }

  /** The parties of the two trees. */
  function Along(c: Trees): Programs {
    (r: nat, k: nat) => if r < c.n == |c.kids| == |c.downs| == |c.up| == |c.dn| then ActAt(c, r, k) else Stop
  }

  function Lengths(c: Trees): seq<nat>
    requires c.n == |c.kids| == |c.downs|
  {
    seq(c.n, r requires 0 <= r < c.n => Length(c, r))
  }

  lemma {:induction false} RunSound<V(!new)>(c: Trees, G: Group<V>, x: seq<V>, schedule: seq<nat>)
    requires AreTrees(c) && IsGroup(G) && |x| == c.n && Possible(Along(c), G, x, schedule)
    ensures Sound(c, G, x, After(Along(c), G, x, schedule))
    ensures Total(After(Along(c), G, x, schedule).done) == |schedule|
  {
    if schedule == [] {
      StartSound(c, G, x);
      TotalOfNone(c.n);
      assert Start(x).done == seq(c.n, _ => 0);
    } else {
      var before, r := schedule[..|schedule| - 1], schedule[|schedule| - 1];
      RunSound(c, G, x, before);
      StepCounts(c, G, x, After(Along(c), G, x, before), r);
    }
  }

  lemma StepCounts<V(!new)>(c: Trees, G: Group<V>, x: seq<V>, s: State<V>, r: nat)
    requires Sound(c, G, x, s) && IsGroup(G) && Enabled(c, s, r)
    ensures Sound(c, G, x, Step(c, G, s, r)) && Total(Step(c, G, s, r).done) == Total(s.done) + 1
  {
    StepSound(c, G, x, s, r);
    TotalMore(s.done, r);
  }

  ghost predicate Finished<V>(c: Trees, s: State<V>)
    requires Shaped(c, s)
  {
    forall r :: 0 <= r < c.n ==> s.done[r] == Length(c, r)
  }

  /** The acts are counted. */
  lemma CountActs<V>(c: Trees, G: Group<V>, x: seq<V>, s: State<V>)
    requires Sound(c, G, x, s)
    ensures Total(s.done) <= Total(Lengths(c)) && (Total(s.done) == Total(Lengths(c)) <==> Finished(c, s))
  {
    forall r | 0 <= r < c.n
      ensures s.done[r] <= Lengths(c)[r]
    {
      assert ValueOk(c, G, x, s, r);
    }
    TotalAtMost(s.done, Lengths(c));
    if p :| 0 <= p < c.n && s.done[p] != Length(c, p) {
      TotalLess(s.done, Lengths(c), p);
    } else {
      assert s.done == Lengths(c);
    }
  }

  /** Every interleaving: it is never longer than all acts together; it stops only when everybody
      has finished; and then everybody has the sum of all inputs and every message has been received. */
  lemma EveryRun<V(!new)>(c: Trees, G: Group<V>, x: seq<V>, schedule: seq<nat>)
    requires AreTrees(c) && IsGroup(G) && |x| == c.n && Possible(Along(c), G, x, schedule)
    ensures |schedule| <= Total(Lengths(c))
    ensures |schedule| < Total(Lengths(c)) ==> exists r :: GoesOn(Along(c), G, x, schedule, r)
    ensures |schedule| == Total(Lengths(c)) ==> Settled(G, x, After(Along(c), G, x, schedule))
  {
    RunSound(c, G, x, schedule);
    EndOrOn(c, G, x, schedule, After(Along(c), G, x, schedule));
  }

  lemma EndOrOn<V>(c: Trees, G: Group<V>, x: seq<V>, schedule: seq<nat>, s: State<V>)
    requires Sound(c, G, x, s) && Possible(Along(c), G, x, schedule) && After(Along(c), G, x, schedule) == s
    requires Total(s.done) == |schedule|
    ensures |schedule| <= Total(Lengths(c))
    ensures |schedule| < Total(Lengths(c)) ==> exists r :: GoesOn(Along(c), G, x, schedule, r)
    ensures |schedule| == Total(Lengths(c)) ==> Settled(G, x, s)
  {
    CountActs(c, G, x, s);
    if Finished(c, s) {
      DoneIsSum(c, G, x, s);
    } else {
      var r := SomebodyActs(c, G, x, s);
      OneMore(Along(c), G, x, schedule, r);
    }
  }

  /** Everybody has the sum, and no message is left. */
  ghost predicate Settled<V>(G: Group<V>, x: seq<V>, s: State<V>)
    requires |s.val| == |x|
  {
    && (forall r :: 0 <= r < |x| ==> s.val[r] == SumIf(G, x, Everybody(), |x|))
    && forall p: nat, q: nat :: s.chan(p, q) == []
  }
}
