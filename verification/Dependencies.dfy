/**
 dependency_graph of Compiler/allocator.py: walks over a block, keeps the last definition of every
 register, the accesses of every memory cell, the last instruction on every channel and the
 started openings, and adds edges to a graph while it computes the depth of every instruction.
 */
module Dependencies {
  import opened Schedule
  import opened Blocks
  import opened Graph
  import opened Levels

  type Cell = (nat, nat)

  // ---------- what the graph has to contain ----------

  /** Dependent instructions below n are connected. */
  ghost predicate Covered(prog: seq<Inst>, succ: Lists, n: nat) {
    forall i: nat, j: nat :: j < n && DependsOn(prog, j, i) ==> Reach(succ, i, j)
  }

  /** An edge leads to something that depends on its start, and not to a smaller depth; an opening
      is deeper than everything it depends on; a stop depends on its start only, has the same depth,
      and only it depends on the start. */
  ghost predicate EdgeOk(prog: seq<Inst>, depths: seq<nat>, v: nat, w: nat) {
    && DependsOn(prog, w, v) && v < w < |prog| == |depths| && depths[v] <= depths[w]
    && (prog[w].StartOpen? ==> depths[v] < depths[w])
    && (prog[w].StopOpen? ==> v == StartOf(prog, w) && depths[v] == depths[w])
    && (prog[v].StartOpen? ==> prog[w].StopOpen?)
  }

  predicate StopConnected(prog: seq<Inst>, succ: Lists, w: nat)
    requires w < |prog|
  {
    prog[w].StopOpen? ==> Edge(succ, StartOf(prog, w), w)
  }

  ghost predicate EdgesOk(prog: seq<Inst>, succ: Lists, depths: seq<nat>, n: nat) {
    && |succ| == |depths| == |prog| && n <= |prog|
    && (forall v: nat, w: nat :: Edge(succ, v, w) ==> w < n && EdgeOk(prog, depths, v, w))
    && (forall w :: 0 <= w < n ==> StopConnected(prog, succ, w))
    && (forall w :: n <= w < |prog| ==> depths[w] == 0)
  }

  /** d is the depth of one of the nodes. */
  predicate AddedAt(depths: seq<nat>, added: seq<nat>, d: nat) {
    exists k :: 0 <= k < |added| && added[k] < |depths| && depths[added[k]] == d
  }

  lemma AddedEither(depths: seq<nat>, a: seq<nat>, b: seq<nat>, d: nat)
    requires AddedAt(depths, a, d) || AddedAt(depths, b, d)
    ensures AddedAt(depths, a + b, d)
  {
    if k :| 0 <= k < |a| && a[k] < |depths| && depths[a[k]] == d {
      assert (a + b)[k] == a[k];
    } else {
      var k :| 0 <= k < |b| && b[k] < |depths| && depths[b[k]] == d;
      assert (a + b)[|a| + k] == b[k];
    }
  }

  lemma {:induction false} DepthGrows(prog: seq<Inst>, succ: Lists, depths: seq<nat>, n: nat, p: seq<nat>)
    requires EdgesOk(prog, succ, depths, n) && IsPath(succ, p) && p != [] && p[|p| - 1] < |depths|
    ensures p[0] < |depths| && depths[p[0]] <= depths[p[|p| - 1]]
    decreases |p|
  {
    if |p| > 1 {
      assert Edge(succ, p[0], p[0 + 1]) && EdgeOk(prog, depths, p[0], p[1]);
      PathTail(succ, p);
      DepthGrows(prog, succ, depths, n, p[1..]);
    }
  }

  /** What reaches the new node n is at most as deep as one of its predecessors. */
  lemma ReachInto(prog: seq<Inst>, succ: Lists, succ1: Lists, depths: seq<nat>, n: nat, added: seq<nat>, i: nat)
    requires EdgesOk(prog, succ, depths, n) && EdgesAdded(succ, succ1, n, added) && Reach(succ1, i, n) && n < |prog|
    requires forall v :: v in added ==> v < n
    ensures i < |depths| && exists u :: u in added && depths[i] <= depths[u]
  {
    var p: seq<nat> :| |p| >= 2 && p[0] == i && p[|p| - 1] == n && IsPath(succ1, p);
    var k := |p| - 2;
    var u, q := p[k], p[..k + 1];
    assert Edge(succ1, p[k], p[k + 1]);
    assert !Edge(succ, u, n);
    forall j | 0 <= j < k
      ensures Edge(succ, q[j], q[j + 1])
    {
      assert Edge(succ1, p[j], p[j + 1]) && Edge(succ1, p[j + 1], p[j + 2]);
    }
    DepthGrows(prog, succ, depths, n, q);
  }

  /** The depth of the deepest predecessor is that of the deepest instruction that n depends on. */
  lemma BaseIsMax(prog: seq<Inst>, succ: Lists, succ1: Lists, depths: seq<nat>, n: nat, added: seq<nat>, base: nat)
    requires EdgesOk(prog, succ, depths, n) && n < |prog| && EdgesAdded(succ, succ1, n, added)
      && Covered(prog, succ1, n + 1)
    requires forall v :: v in added ==> DependsOn(prog, n, v) && depths[v] <= base
    requires base == 0 || AddedAt(depths, added, base)
    ensures MaxDepth(prog, depths, n, n) == base
  {
    forall i: nat | i < n && DependsOn(prog, n, i)
      ensures depths[i] <= base
    {
      ReachInto(prog, succ, succ1, depths, n, added, i);
    }
    if base > 0 {
      var k :| 0 <= k < |added| && added[k] < |depths| && depths[added[k]] == base;
      assert added[k] in added;
    }
    MaxDepthIs(prog, depths, n, base);
  }

  // ---------- what the bookkeeping means ----------

  ghost predicate DefsOk(prog: seq<Inst>, lastDef: map<nat, nat>, n: nat)
    requires n <= |prog|
  {
    && (forall r :: r in lastDef ==> lastDef[r] < n && r in Defs(prog[lastDef[r]]))
    && (forall i, r :: 0 <= i < n && r in Defs(prog[i]) ==> r in lastDef)
  }

  predicate Accesses(x: Inst, c: Cell, write: bool) {
    if write then Writes(x, c.0, c.1) else Reads(x, c.0, c.1)
  }

  /** i is in the list or reaches something in it. */
  ghost predicate Leads(succ: Lists, i: nat, s: seq<nat>) {
    i in s || exists w :: w in s && Reach(succ, i, w)
  }

  /** The list has accesses of the cell in ascending order, and every earlier one leads to it. */
  ghost predicate ListOk(prog: seq<Inst>, succ: Lists, n: nat, s: seq<nat>, c: Cell, write: bool)
    requires n <= |prog|
  {
    && (forall k :: 0 <= k < |s| ==> s[k] < n && Accesses(prog[s[k]], c, write))
    && (forall k, l :: 0 <= k < l < |s| ==> s[k] < s[l])
    && (forall i: nat :: i < n && Accesses(prog[i], c, write) ==> Leads(succ, i, s))
  }

  /** Reads and writes in the lists are connected directly. */
  ghost predicate CrossOk(succ: Lists, s: seq<nat>, t: seq<nat>) {
    forall x, y :: x in s && y in t ==> (x < y ==> Edge(succ, x, y)) && (y < x ==> Edge(succ, y, x))
  }

  function Of<K>(m: map<K, seq<nat>>, c: K): seq<nat> {
    if c in m then m[c] else []
  }

  ghost predicate CellOk(prog: seq<Inst>, succ: Lists, n: nat, writes: seq<nat>, loads: seq<nat>, c: Cell)
    requires n <= |prog|
  {
    && ListOk(prog, succ, n, writes, c, true) && ListOk(prog, succ, n, loads, c, false)
    && CrossOk(succ, writes, loads)
  }

  ghost predicate MemoryOk(prog: seq<Inst>, succ: Lists, n: nat, lastWrite: map<Cell, seq<nat>>,
                           lastRead: map<Cell, seq<nat>>)
    requires n <= |prog|
  {
    forall c: Cell :: CellOk(prog, succ, n, Of(lastWrite, c), Of(lastRead, c), c)
  }

  ghost predicate ChannelsOk(prog: seq<Inst>, succ: Lists, n: nat, last: map<nat, nat>)
    requires n <= |prog|
  {
    && (forall c :: c in last ==> last[c] < n && prog[last[c]].Ordered? && prog[last[c]].chan == c)
    && (forall i: nat :: i < n && prog[i].Ordered? ==>
          prog[i].chan in last && (i == last[prog[i].chan] || Reach(succ, i, last[prog[i].chan])))
  }

  // ---------- one instruction ----------

  /** succ1 has the edges of succ, and edges from all of added to n. */
  ghost predicate EdgesAdded(succ: Lists, succ1: Lists, n: nat, added: seq<nat>) {
    && |succ1| == |succ|
    && forall v: nat, w: nat :: Edge(succ1, v, w) <==> Edge(succ, v, w) || (w == n && v in added)
  }

  lemma ReachAdded(succ: Lists, succ1: Lists, n: nat, added: seq<nat>, v: nat, w: nat)
    requires EdgesAdded(succ, succ1, n, added) && Reach(succ, v, w)
    ensures Reach(succ1, v, w)
  {
    ReachMore(succ, succ1, v, w);
  }

  lemma LeadsAdded(succ: Lists, succ1: Lists, n: nat, added: seq<nat>, i: nat, s: seq<nat>)
    requires EdgesAdded(succ, succ1, n, added) && Leads(succ, i, s)
    ensures Leads(succ1, i, s)
  {
    if i !in s {
      var w :| w in s && Reach(succ, i, w);
      ReachAdded(succ, succ1, n, added, i, w);
    }
  }

  /** What leads to a list of new predecessors of n reaches n. */
  lemma LeadsOn(succ: Lists, succ1: Lists, n: nat, added: seq<nat>, i: nat, s: seq<nat>)
    requires EdgesAdded(succ, succ1, n, added) && Leads(succ, i, s)
    requires forall w :: w in s ==> w in added
    ensures Reach(succ1, i, n)
  {
    if i in s {
      assert Edge(succ1, i, n);
      EdgeReaches(succ1, i, n);
    } else {
      var w :| w in s && Reach(succ, i, w);
      ReachAdded(succ, succ1, n, added, i, w);
      assert Edge(succ1, w, n);
      EdgeReaches(succ1, w, n);
      ReachTrans(succ1, i, w, n);
    }
  }

  /** handle_mem_access: drops the accesses of this kind that are all older than those of the other. */
  function Access(this1: seq<nat>, other: seq<nat>, n: nat): seq<nat> {
    (if this1 != [] && other != [] && this1[|this1| - 1] < other[0] then [] else this1) + [n]
  }

  /** Every earlier access still leads to the list after instruction n has been added. */
  lemma AccessLeads(prog: seq<Inst>, succ: Lists, succ1: Lists, n: nat, added: seq<nat>, this1: seq<nat>,
                    other: seq<nat>, c: Cell, write: bool)
    requires n < |prog| && Accesses(prog[n], c, write)
    requires ListOk(prog, succ, n, this1, c, write) && CrossOk(succ, this1, other)
    requires EdgesAdded(succ, succ1, n, added) && forall w :: w in other ==> w in added
    ensures forall i: nat :: i < n + 1 && Accesses(prog[i], c, write) ==> Leads(succ1, i, Access(this1, other, n))
  {
    var next := Access(this1, other, n);
    assert next[|next| - 1] == n && n in next;
    forall i: nat | i < n + 1 && Accesses(prog[i], c, write)
      ensures Leads(succ1, i, next)
    {
      if i < n {
        if next == this1 + [n] {
          LeadsAdded(succ, succ1, n, added, i, this1);
          LeadsMore(succ1, i, this1, next);
        } else {
          LeadsDropped(succ, succ1, n, added, this1, other, i);
        }
      }
    }
  }

  /** The lists of a cell stay in order when instruction n accesses it. */
  lemma AccessOk(prog: seq<Inst>, succ: Lists, succ1: Lists, n: nat, added: seq<nat>, this1: seq<nat>, other: seq<nat>,
                 c: Cell, write: bool)
    requires n < |prog| && Accesses(prog[n], c, write)
    requires ListOk(prog, succ, n, this1, c, write) && ListOk(prog, succ, n, other, c, !write)
      && CrossOk(succ, this1, other)
    requires EdgesAdded(succ, succ1, n, added) && forall w :: w in other ==> w in added
    ensures ListOk(prog, succ1, n + 1, Access(this1, other, n), c, write)
      && ListOk(prog, succ1, n + 1, other, c, !write)
    ensures CrossOk(succ1, Access(this1, other, n), other)
  {
    AccessLeads(prog, succ, succ1, n, added, this1, other, c, write);
    ListKept(prog, succ, succ1, n, added, other, c, !write);
    AccessCross(prog, succ, succ1, n, added, this1, other, c, write);
  }

  /** The list of accesses of the kind that n is not. */
  lemma ListKept(prog: seq<Inst>, succ: Lists, succ1: Lists, n: nat, added: seq<nat>, s: seq<nat>, c: Cell, write: bool)
    requires n < |prog| && !Accesses(prog[n], c, write) && ListOk(prog, succ, n, s, c, write)
      && EdgesAdded(succ, succ1, n, added)
    ensures ListOk(prog, succ1, n + 1, s, c, write)
  {
    forall i: nat | i < n + 1 && Accesses(prog[i], c, write)
      ensures Leads(succ1, i, s)
    {
      LeadsAdded(succ, succ1, n, added, i, s);
    }
  }

  lemma AccessCross(prog: seq<Inst>, succ: Lists, succ1: Lists, n: nat, added: seq<nat>, this1: seq<nat>,
                    other: seq<nat>, c: Cell, write: bool)
    requires n < |prog| && ListOk(prog, succ, n, other, c, !write) && CrossOk(succ, this1, other)
    requires EdgesAdded(succ, succ1, n, added) && forall w :: w in other ==> w in added
    ensures CrossOk(succ1, Access(this1, other, n), other)
  {
    var next := Access(this1, other, n);
    forall x, y | x in next && y in other
      ensures (x < y ==> Edge(succ1, x, y)) && (y < x ==> Edge(succ1, y, x))
    {
      assert x == n || x in this1;
    }
  }

  lemma LeadsMore(succ: Lists, i: nat, s: seq<nat>, t: seq<nat>)
    requires Leads(succ, i, s) && forall w :: w in s ==> w in t
    ensures Leads(succ, i, t)
  {
  }

  /** Dropped accesses reach n through the newer accesses of the other kind. */
  lemma LeadsDropped(succ: Lists, succ1: Lists, n: nat, added: seq<nat>, this1: seq<nat>, other: seq<nat>, i: nat)
    requires Leads(succ, i, this1) && CrossOk(succ, this1, other)
    requires EdgesAdded(succ, succ1, n, added) && forall w :: w in other ==> w in added
    requires this1 != [] && other != [] && this1[|this1| - 1] < other[0]
    requires forall k, l :: 0 <= k < l < |this1| ==> this1[k] < this1[l]
    ensures Reach(succ1, i, n)
  {
    var x :| x in this1 && (i == x || Reach(succ, i, x));
    var k :| 0 <= k < |this1| && this1[k] == x;
    assert x <= this1[|this1| - 1];
    assert Edge(succ, x, other[0]) && other[0] in added;
    EdgeReaches(succ1, x, other[0]);
    EdgeReaches(succ1, other[0], n);
    ReachTrans(succ1, x, other[0], n);
    if i != x {
      ReachAdded(succ, succ1, n, added, i, x);
      ReachTrans(succ1, i, x, n);
    }
  }

  /** The lists of a cell that n does not access. */
  lemma CellKept(prog: seq<Inst>, succ: Lists, succ1: Lists, n: nat, added: seq<nat>, writes: seq<nat>, loads: seq<nat>,
                 c: Cell)
    requires n < |prog| && CellOk(prog, succ, n, writes, loads, c) && EdgesAdded(succ, succ1, n, added)
    requires !Accesses(prog[n], c, true) && !Accesses(prog[n], c, false)
    ensures CellOk(prog, succ1, n + 1, writes, loads, c)
  {
    forall i: nat | i < n + 1 && Accesses(prog[i], c, true)
      ensures Leads(succ1, i, writes)
    {
      LeadsAdded(succ, succ1, n, added, i, writes);
    }
    forall i: nat | i < n + 1 && Accesses(prog[i], c, false)
      ensures Leads(succ1, i, loads)
    {
      LeadsAdded(succ, succ1, n, added, i, loads);
    }
  }

  /** The memory bookkeeping after instruction n. */
  lemma MemoryStep(prog: seq<Inst>, succ: Lists, succ1: Lists, n: nat, added: seq<nat>,
                   lastWrite: map<Cell, seq<nat>>, lastRead: map<Cell, seq<nat>>,
                   lastWrite1: map<Cell, seq<nat>>, lastRead1: map<Cell, seq<nat>>)
    requires n < |prog| && MemoryOk(prog, succ, n, lastWrite, lastRead) && EdgesAdded(succ, succ1, n, added)
    requires prog[n].Load? ==> var c := (prog[n].kind, prog[n].addr);
      && lastWrite1 == lastWrite && lastRead1 == lastRead[c := Access(Of(lastRead, c), Of(lastWrite, c), n)]
      && (forall w :: w in Of(lastWrite, c) ==> w in added)
    requires prog[n].StoreMem? ==> var c := (prog[n].kind, prog[n].addr);
      && lastRead1 == lastRead && lastWrite1 == lastWrite[c := Access(Of(lastWrite, c), Of(lastRead, c), n)]
      && (forall w :: w in Of(lastRead, c) ==> w in added)
    requires !prog[n].Load? && !prog[n].StoreMem? ==> lastWrite1 == lastWrite && lastRead1 == lastRead
    ensures MemoryOk(prog, succ1, n + 1, lastWrite1, lastRead1)
  {
    forall c: Cell
      ensures CellOk(prog, succ1, n + 1, Of(lastWrite1, c), Of(lastRead1, c), c)
    {
      assert CellOk(prog, succ, n, Of(lastWrite, c), Of(lastRead, c), c);
      if Accesses(prog[n], c, true) {
        AccessOk(prog, succ, succ1, n, added, Of(lastWrite, c), Of(lastRead, c), c, true);
      } else if Accesses(prog[n], c, false) {
        AccessOk(prog, succ, succ1, n, added, Of(lastRead, c), Of(lastWrite, c), c, false);
        assert CrossOk(succ1, Of(lastWrite1, c), Of(lastRead1, c));
      } else {
        CellKept(prog, succ, succ1, n, added, Of(lastWrite, c), Of(lastRead, c), c);
      }
    }
  }

  lemma ChannelsStep(prog: seq<Inst>, succ: Lists, succ1: Lists, n: nat, added: seq<nat>, last: map<nat, nat>,
                     last1: map<nat, nat>)
    requires n < |prog| && ChannelsOk(prog, succ, n, last) && EdgesAdded(succ, succ1, n, added)
    requires prog[n].Ordered? ==>
      last1 == last[prog[n].chan := n] && (prog[n].chan in last ==> last[prog[n].chan] in added)
    requires !prog[n].Ordered? ==> last1 == last
    ensures ChannelsOk(prog, succ1, n + 1, last1)
  {
    forall i: nat | i < n + 1 && prog[i].Ordered?
      ensures prog[i].chan in last1 && (i == last1[prog[i].chan] || Reach(succ1, i, last1[prog[i].chan]))
    {
      var c := prog[i].chan;
      if i < n {
        if i != last[c] {
          ReachAdded(succ, succ1, n, added, i, last[c]);
        }
        if prog[n].Ordered? && prog[n].chan == c {
          EdgeReaches(succ1, last[c], n);
          if i != last[c] {
            ReachTrans(succ1, i, last[c], n);
          }
        }
      }
    }
  }

  /** Everything that instruction n depends on reaches it now. */
  lemma DependenciesReach(prog: seq<Inst>, succ: Lists, succ1: Lists, n: nat, added: seq<nat>, lastDef: map<nat, nat>,
                          lastWrite: map<Cell, seq<nat>>, lastRead: map<Cell, seq<nat>>, last: map<nat, nat>, i: nat)
    requires ValidBlock(prog) && DependsOn(prog, n, i) && EdgesAdded(succ, succ1, n, added)
    requires Covered(prog, succ, n) && DefsOk(prog, lastDef, n) && MemoryOk(prog, succ, n, lastWrite, lastRead)
    requires ChannelsOk(prog, succ, n, last)
    requires forall r :: r in Uses(prog[n]) && r in lastDef ==> lastDef[r] in added
    requires prog[n].Load? ==> forall w :: w in Of(lastWrite, (prog[n].kind, prog[n].addr)) ==> w in added
    requires prog[n].StoreMem? ==> forall w :: w in Of(lastRead, (prog[n].kind, prog[n].addr)) ==> w in added
    requires prog[n].Ordered? && prog[n].chan in last ==> last[prog[n].chan] in added
    requires prog[n].StopOpen? ==> StartOf(prog, n) in added
    ensures Reach(succ1, i, n)
  {
    if r :| r in Defs(prog[i]) && r in Uses(prog[n]) {
      RegisterReach(prog, succ1, n, added, lastDef, i, r);
    } else if prog[n].Load? {
      LoadReach(prog, succ, succ1, n, added, lastWrite, lastRead, i);
    } else if prog[n].StoreMem? {
      StoreReach(prog, succ, succ1, n, added, lastWrite, lastRead, i);
    } else if prog[n].Ordered? {
      OrderedReach(prog, succ, succ1, n, added, last, i);
    } else {
      EdgeReaches(succ1, i, n);
    }
  }

  lemma RegisterReach(prog: seq<Inst>, succ1: Lists, n: nat, added: seq<nat>, lastDef: map<nat, nat>, i: nat, r: nat)
    requires DefinesOnce(prog) && i < n < |prog| && DefsOk(prog, lastDef, n)
    requires r in Defs(prog[i]) && (r in lastDef ==> lastDef[r] in added)
    requires forall v: nat :: v in added ==> Edge(succ1, v, n)
    ensures Reach(succ1, i, n)
  {
    var l := lastDef[r];
    assert l < i ==> DefsApart(prog[l], prog[i]);
    assert i < l ==> DefsApart(prog[i], prog[l]);
    EdgeReaches(succ1, i, n);
  }

  lemma LoadReach(prog: seq<Inst>, succ: Lists, succ1: Lists, n: nat, added: seq<nat>,
                  lastWrite: map<Cell, seq<nat>>, lastRead: map<Cell, seq<nat>>, i: nat)
    requires i < n < |prog| && prog[n].Load? && EdgesAdded(succ, succ1, n, added)
    requires MemoryOk(prog, succ, n, lastWrite, lastRead)
    requires forall w :: w in Of(lastWrite, (prog[n].kind, prog[n].addr)) ==> w in added
    requires prog[i].StoreMem? && Reads(prog[n], prog[i].kind, prog[i].addr)
    ensures Reach(succ1, i, n)
  {
    var c := (prog[n].kind, prog[n].addr);
    assert CellOk(prog, succ, n, Of(lastWrite, c), Of(lastRead, c), c);
    assert Accesses(prog[i], c, true);
    LeadsOn(succ, succ1, n, added, i, Of(lastWrite, c));
  }

  lemma OrderedReach(prog: seq<Inst>, succ: Lists, succ1: Lists, n: nat, added: seq<nat>, last: map<nat, nat>, i: nat)
    requires i < n < |prog| && prog[n].Ordered? && EdgesAdded(succ, succ1, n, added) && ChannelsOk(prog, succ, n, last)
    requires prog[n].chan in last ==> last[prog[n].chan] in added
    requires prog[i].Ordered? && prog[i].chan == prog[n].chan
    ensures Reach(succ1, i, n)
  {
    var l := last[prog[n].chan];
    EdgeReaches(succ1, l, n);
    if i != l {
      ReachAdded(succ, succ1, n, added, i, l);
      ReachTrans(succ1, i, l, n);
    }
  }

  /** An earlier read reaches the write n; an earlier write does so through a read in between. */
  lemma StoreReach(prog: seq<Inst>, succ: Lists, succ1: Lists, n: nat, added: seq<nat>,
                   lastWrite: map<Cell, seq<nat>>, lastRead: map<Cell, seq<nat>>, i: nat)
    requires ValidBlock(prog) && i < n < |prog| && prog[n].StoreMem? && EdgesAdded(succ, succ1, n, added)
    requires Covered(prog, succ, n) && MemoryOk(prog, succ, n, lastWrite, lastRead)
    requires forall w :: w in Of(lastRead, (prog[n].kind, prog[n].addr)) ==> w in added
    requires (prog[i].Load? || prog[i].StoreMem?) && Writes(prog[n], prog[i].kind, prog[i].addr)
    ensures Reach(succ1, i, n)
  {
    var c := (prog[n].kind, prog[n].addr);
    assert CellOk(prog, succ, n, Of(lastWrite, c), Of(lastRead, c), c);
    var k := i;
    assert ReadBetween(prog, i, n);
    if prog[i].StoreMem? {
      k :| i < k < n && Reads(prog[k], prog[i].kind, prog[i].addr);
      assert DependsOn(prog, k, i);
      ReachAdded(succ, succ1, n, added, i, k);
    }
    assert Accesses(prog[k], c, false);
    LeadsOn(succ, succ1, n, added, k, Of(lastRead, c));
    if k != i {
      ReachTrans(succ1, i, k, n);
    }
  }

  // ---------- the walk over the block ----------

  /** The depths may only have grown, and only that of n. */
  ghost predicate Deepened(depths: seq<nat>, depths1: seq<nat>, n: nat) {
    n < |depths| == |depths1| && depths1 == depths[n := depths1[n]] && depths[n] <= depths1[n]
  }

  lemma EdgesCompose(s0: Lists, s1: Lists, s2: Lists, n: nat, a: seq<nat>, b: seq<nat>)
    requires EdgesAdded(s0, s1, n, a) && EdgesAdded(s1, s2, n, b)
    ensures EdgesAdded(s0, s2, n, a + b)
  {
    forall v: nat, w: nat
      ensures Edge(s2, v, w) <==> Edge(s0, v, w) || (w == n && v in a + b)
    {
      assert v in a + b <==> v in a || v in b;
    }
  }

  lemma EdgesStep(prog: seq<Inst>, succ: Lists, succ1: Lists, depths: seq<nat>, depths1: seq<nat>, n: nat,
                  added: seq<nat>)
    requires EdgesOk(prog, succ, depths, n) && n < |prog| && EdgesAdded(succ, succ1, n, added)
      && Deepened(depths, depths1, n)
    requires forall v :: v in added ==> EdgeOk(prog, depths1, v, n)
    requires prog[n].StopOpen? ==> StartOf(prog, n) in added
    ensures EdgesOk(prog, succ1, depths1, n + 1)
  {
    forall v: nat, w: nat | Edge(succ1, v, w)
      ensures w < n + 1 && EdgeOk(prog, depths1, v, w)
    {
      if Edge(succ, v, w) {
        assert EdgeOk(prog, depths, v, w);
      }
    }
    forall w | 0 <= w < n + 1
      ensures StopConnected(prog, succ1, w)
    {
      assert w < n ==> StopConnected(prog, succ, w);
    }
  }

  /** next_available_depth leads over levels that are full. */
  ghost predicate NextDepthsOk(nextDepth: map<nat, nat>, parallel: map<nat, nat>, max: nat) {
    forall d :: d in nextDepth ==> d < nextDepth[d] && forall i :: d <= i < nextDepth[d] ==> Full(parallel, max, i)
  }

  lemma MoreIsFuller(nextDepth: map<nat, nat>, parallel: map<nat, nat>, max: nat, d: nat, more: nat)
    requires NextDepthsOk(nextDepth, parallel, max)
    ensures NextDepthsOk(nextDepth, parallel[d := Opened(parallel, d) + more], max)
  {
    var after := parallel[d := Opened(parallel, d) + more];
    forall i | Full(parallel, max, i)
      ensures Full(after, max, i)
    {
    }
  }

  /** The only level from d on that has room while those before have none. */
  lemma FirstRoomIs(parallel: map<nat, nat>, max: nat, d: nat, e: nat)
    requires d <= e && !Full(parallel, max, e) && forall i :: d <= i < e ==> Full(parallel, max, i)
    ensures FirstRoom(parallel, max, d) == e
  {
  }

  lemma FirstFreeIs(roundType: map<nat, bool>, gf2n: bool, d: nat, e: nat)
    requires d <= e && !Reserved(roundType, e, gf2n) && forall i :: d <= i < e ==> Reserved(roundType, i, gf2n)
    ensures FirstFree(roundType, gf2n, d) == e
  {
  }

  /** The state of the walk before instruction n. */
  ghost predicate Built(prog: seq<Inst>, succ: Lists, depths: seq<nat>, n: nat, lastDef: map<nat, nat>,
                        lastWrite: map<Cell, seq<nat>>, lastRead: map<Cell, seq<nat>>, last: map<nat, nat>) {
    && EdgesOk(prog, succ, depths, n) && Covered(prog, succ, n) && DefsOk(prog, lastDef, n)
    && MemoryOk(prog, succ, n, lastWrite, lastRead) && ChannelsOk(prog, succ, n, last)
  }

  /** The new predecessors of n are those that the bookkeeping names. */
  ghost predicate Named(prog: seq<Inst>, n: nat, added: seq<nat>, lastDef: map<nat, nat>,
                        lastWrite: map<Cell, seq<nat>>, lastRead: map<Cell, seq<nat>>, last: map<nat, nat>)
    requires n < |prog|
  {
    && (forall r :: r in Uses(prog[n]) && r in lastDef ==> lastDef[r] in added)
    && (prog[n].Load? ==> forall w :: w in Of(lastWrite, (prog[n].kind, prog[n].addr)) ==> w in added)
    && (prog[n].StoreMem? ==> forall w :: w in Of(lastRead, (prog[n].kind, prog[n].addr)) ==> w in added)
    && (prog[n].Ordered? && prog[n].chan in last ==> last[prog[n].chan] in added)
    && (prog[n].StopOpen? ==> StartOf(prog, n) in added)
  }

  function MemoryNext(prog: seq<Inst>, n: nat, lastThis: map<Cell, seq<nat>>, lastOther: map<Cell, seq<nat>>,
                      write: bool): map<Cell, seq<nat>>
    requires n < |prog|
  {
    if (if write then prog[n].StoreMem? else prog[n].Load?) then
      var c := (prog[n].kind, prog[n].addr);
      lastThis[c := Access(Of(lastThis, c), Of(lastOther, c), n)]
    else lastThis
  }

  lemma CoveredStep(prog: seq<Inst>, succ: Lists, succ1: Lists, depths: seq<nat>, n: nat, added: seq<nat>,
                    lastDef: map<nat, nat>, lastWrite: map<Cell, seq<nat>>, lastRead: map<Cell, seq<nat>>,
                    last: map<nat, nat>)
    requires ValidBlock(prog) && n < |prog| && Built(prog, succ, depths, n, lastDef, lastWrite, lastRead, last)
    requires EdgesAdded(succ, succ1, n, added) && Named(prog, n, added, lastDef, lastWrite, lastRead, last)
    ensures Covered(prog, succ1, n + 1)
  {
    forall i: nat, j: nat | j < n + 1 && DependsOn(prog, j, i)
      ensures Reach(succ1, i, j)
    {
      if j < n {
        ReachAdded(succ, succ1, n, added, i, j);
      } else {
        DependenciesReach(prog, succ, succ1, n, added, lastDef, lastWrite, lastRead, last, i);
      }
    }
  }

  lemma BuiltStep(prog: seq<Inst>, succ: Lists, succ1: Lists, depths: seq<nat>, depths1: seq<nat>, n: nat,
                  added: seq<nat>, lastDef: map<nat, nat>, lastWrite: map<Cell, seq<nat>>,
                  lastRead: map<Cell, seq<nat>>, last: map<nat, nat>, lastDef1: map<nat, nat>, last1: map<nat, nat>)
    requires ValidBlock(prog) && n < |prog| && Built(prog, succ, depths, n, lastDef, lastWrite, lastRead, last)
    requires EdgesAdded(succ, succ1, n, added) && Deepened(depths, depths1, n)
    requires Named(prog, n, added, lastDef, lastWrite, lastRead, last)
    requires forall v :: v in added ==> EdgeOk(prog, depths1, v, n)
    requires DefsOk(prog, lastDef1, n + 1)
    requires last1 == if prog[n].Ordered? then last[prog[n].chan := n] else last
    ensures Built(prog, succ1, depths1, n + 1, lastDef1, MemoryNext(prog, n, lastWrite, lastRead, true),
                  MemoryNext(prog, n, lastRead, lastWrite, false), last1)
  {
    EdgesStep(prog, succ, succ1, depths, depths1, n, added);
    CoveredStep(prog, succ, succ1, depths, n, added, lastDef, lastWrite, lastRead, last);
    MemoryStep(prog, succ, succ1, n, added, lastWrite, lastRead, MemoryNext(prog, n, lastWrite, lastRead, true),
               MemoryNext(prog, n, lastRead, lastWrite, false));
    ChannelsStep(prog, succ, succ1, n, added, last, last1);
  }

  /** last_def after the definitions of instruction n. */
  method Define(prog: seq<Inst>, n: nat, lastDef: map<nat, nat>) returns (lastDef1: map<nat, nat>)
    requires n < |prog| && DefsOk(prog, lastDef, n)
    ensures DefsOk(prog, lastDef1, n + 1)
  {
    lastDef1 := lastDef;
    var ds, k := Defs(prog[n]), 0;
    while k < |ds|
      invariant 0 <= k <= |ds|
      invariant forall r :: r in lastDef1 ==> lastDef1[r] < n + 1 && r in Defs(prog[lastDef1[r]])
      invariant forall i, r :: 0 <= i < n && r in Defs(prog[i]) ==> r in lastDef1
      invariant forall l :: 0 <= l < k ==> ds[l] in lastDef1
    {
      lastDef1 := lastDef1[ds[k] := n];
      k := k + 1;
    }
  }

  /** The starts and stops that have been paired so far. */
  ghost predicate StopsOk(prog: seq<Inst>, stopOf: map<nat, nat>, n: nat)
    requires n <= |prog|
  {
    && (forall s :: s in stopOf ==> stopOf[s] < n && prog[stopOf[s]].StopOpen? && StartOf(prog, stopOf[s]) == s)
    && (forall s: nat :: s < n && prog[s].StartOpen? ==> s in stopOf || s in Pending(prog, n))
  }

  /** The bookkeeping: last_def, last_mem_write_of, last_mem_read_of, last and last_open. */
  datatype Walk = Walk(lastDef: map<nat, nat>, lastWrite: map<Cell, seq<nat>>, lastRead: map<Cell, seq<nat>>,
                       last: map<nat, nat>, lastOpen: seq<nat>)

  ghost predicate Walking(prog: seq<Inst>, succ: Lists, depths: seq<nat>, stopOf: map<nat, nat>, n: nat, w: Walk) {
    && Built(prog, succ, depths, n, w.lastDef, w.lastWrite, w.lastRead, w.last)
    && w.lastOpen == Pending(prog, n) && StopsOk(prog, stopOf, n)
  }

  ghost predicate Blank(succ: Lists, depths: seq<nat>) {
    (forall v: nat, w: nat :: !Edge(succ, v, w)) && forall k :: 0 <= k < |depths| ==> depths[k] == 0
  }

  /** What the walk over the whole block gives. */
  ghost predicate Analysed(prog: seq<Inst>, succ: Lists, depths: seq<nat>, stopOf: map<nat, nat>) {
    && EdgesOk(prog, succ, depths, |prog|) && Covered(prog, succ, |prog|)
    && StopsOk(prog, stopOf, |prog|)
  }

  lemma WalkDone(prog: seq<Inst>, succ: Lists, depths: seq<nat>, stopOf: map<nat, nat>, w: Walk)
    requires Walking(prog, succ, depths, stopOf, |prog|, w)
    ensures Analysed(prog, succ, depths, stopOf)
  {
  }

  /** The bookkeeping after instruction n. */
  function WalkNext(prog: seq<Inst>, n: nat, w: Walk, lastDef1: map<nat, nat>): Walk
    requires n < |prog| && (prog[n].StopOpen? ==> w.lastOpen != [])
  {
    Walk(lastDef1, MemoryNext(prog, n, w.lastWrite, w.lastRead, true),
         MemoryNext(prog, n, w.lastRead, w.lastWrite, false),
         if prog[n].Ordered? then w.last[prog[n].chan := n] else w.last,
         if prog[n].StartOpen? then w.lastOpen + [n] else if prog[n].StopOpen? then w.lastOpen[1..] else w.lastOpen)
  }

  lemma WalkReady(prog: seq<Inst>, succ: Lists, depths: seq<nat>, stopOf: map<nat, nat>, n: nat, w: Walk)
    requires ValidBlock(prog) && n < |prog| && Walking(prog, succ, depths, stopOf, n, w)
    ensures |depths| == |prog| && depths[n] == 0
    ensures DefsOk(prog, w.lastDef, n) && MemoryOk(prog, succ, n, w.lastWrite, w.lastRead)
      && ChannelsOk(prog, succ, n, w.last)
    ensures prog[n].StopOpen? ==> w.lastOpen != [] && w.lastOpen[0] == StartOf(prog, n) < n
  {
    assert PairedAt(prog, n);
  }

  lemma WalkStep(prog: seq<Inst>, max: nat, succ: Lists, succ1: Lists, depths: seq<nat>, depths1: seq<nat>,
                 stopOf: map<nat, nat>, n: nat, added: seq<nat>, base: nat, known: Table, w: Walk,
                 lastDef1: map<nat, nat>)
    requires ValidBlock(prog) && n < |prog| && Walking(prog, succ, depths, stopOf, n, w)
    requires EdgesAdded(succ, succ1, n, added) && Deepened(depths, depths1, n)
    requires Named(prog, n, added, w.lastDef, w.lastWrite, w.lastRead, w.last)
    requires forall v :: v in added ==> EdgeOk(prog, depths1, v, n)
    requires forall v :: v in added ==> v < n && depths[v] <= base
    requires base == 0 || AddedAt(depths, added, base)
    requires DefsOk(prog, lastDef1, n + 1) && (prog[n].StopOpen? ==> w.lastOpen != [])
    requires known == Placed(prog, max, n) && known.depths == depths[..n]
    ensures Walking(prog, succ1, depths1, if prog[n].StopOpen? then stopOf[w.lastOpen[0] := n] else stopOf, n + 1,
                    WalkNext(prog, n, w, lastDef1))
    ensures PlaceAt(prog, max, known, n, base) == Placed(prog, max, n + 1)
  {
    assert PairedAt(prog, n);
    BuiltStep(prog, succ, succ1, depths, depths1, n, added, w.lastDef, w.lastWrite, w.lastRead, w.last, lastDef1,
              if prog[n].Ordered? then w.last[prog[n].chan := n] else w.last);
    forall v | v in added
      ensures DependsOn(prog, n, v)
    {
      assert EdgeOk(prog, depths1, v, n);
    }
    PlacedStep(prog, max, succ, succ1, depths, n, added, base, known);
    StopsStep(prog, stopOf, n);
  }

  class Merger {
    const prog: seq<Inst>
    const maxParallel: nat        // 0 for no limit
    const G: SparseDiGraph
    var depths: seq<nat>
    var stopOf: map<nat, nat>     // the attribute stop of started openings
    var roundType: map<nat, bool>
    var parallel: map<nat, nat>
    var nextDepth: map<nat, nat>

    ghost predicate Shaped()
      reads this, G
    {
      G.Valid() && |G.succ| == |depths| == |prog| && NextDepthsOk(nextDepth, parallel, maxParallel)
    }

    /** What the walk knows about the levels before instruction n. */
    ghost function Known(n: nat): Table
      requires n <= |depths|
      reads this
    {
      Table(depths[..n], roundType, parallel)
    }

    constructor (prog: seq<Inst>, maxParallel: nat)
      ensures Shaped() && this.prog == prog && this.maxParallel == maxParallel && fresh(G) && stopOf == map[]
      ensures Blank(G.succ, depths) && Known(0) == Table([], map[], map[])
    {
      this.prog, this.maxParallel := prog, maxParallel;
      depths := seq(|prog|, _ => 0);
      stopOf, roundType, parallel, nextDepth := map[], map[], map[], map[];
      G := new SparseDiGraph(|prog|);
    }

    method AddEdge(i: nat, j: nat)
      requires Shaped() && i < |prog| && j < |prog|
      modifies this`depths, G
      ensures Shaped() && EdgesAdded(old(G.succ), G.succ, j, [i])
      ensures depths == old(depths)[j := if old(depths[j]) < old(depths[i]) then old(depths[i]) else old(depths[j])]
    {
      G.AddEdge(i, j);
      if depths[j] < depths[i] {
        depths := depths[j := depths[i]];
      }
    }

    /** Edges from all of sources to n. */
    method AddEdges(sources: seq<nat>, n: nat)
      requires Shaped() && n < |prog| && forall k :: 0 <= k < |sources| ==> sources[k] < n
      modifies this`depths, G
      ensures Shaped() && EdgesAdded(old(G.succ), G.succ, n, sources) && Deepened(old(depths), depths, n)
      ensures forall k :: 0 <= k < |sources| ==> depths[sources[k]] <= depths[n]
      ensures |sources| == 1 && old(depths[n]) <= old(depths[sources[0]]) ==> depths[n] == depths[sources[0]]
      ensures depths[n] == old(depths[n]) || AddedAt(depths, sources, depths[n])
    {
      var k := 0;
      assert EdgesAdded(G.succ, G.succ, n, []);
      while k < |sources|
        invariant 0 <= k <= |sources| && Shaped() && Deepened(old(depths), depths, n)
        invariant EdgesAdded(old(G.succ), G.succ, n, sources[..k])
        invariant forall l :: 0 <= l < k ==> depths[sources[l]] <= depths[n]
        invariant k == 0 ==> depths == old(depths)
        invariant depths[n] == old(depths[n]) || exists l :: 0 <= l < k && depths[sources[l]] == depths[n]
        invariant k == 1 && old(depths[n]) <= old(depths[sources[0]]) ==> depths[n] == depths[sources[0]]
      {
        ghost var before := G.succ;
        AddEdge(sources[k], n);
        EdgesCompose(old(G.succ), before, G.succ, n, sources[..k], [sources[k]]);
        assert sources[..k + 1] == sources[..k] + [sources[k]];
        k := k + 1;
      }
      assert sources[..k] == sources;
    }

    /** Edges from the definitions of the registers that n uses. */
    method ReadRegisters(n: nat, lastDef: map<nat, nat>) returns (sources: seq<nat>)
      requires Shaped() && n < |prog| && DefsOk(prog, lastDef, n)
      modifies this`depths, G
      ensures Shaped() && EdgesAdded(old(G.succ), G.succ, n, sources) && Deepened(old(depths), depths, n)
      ensures forall k :: 0 <= k < |sources| ==> DependsOn(prog, n, sources[k]) && depths[sources[k]] <= depths[n]
      ensures forall r :: r in Uses(prog[n]) && r in lastDef ==> lastDef[r] in sources
      ensures Uses(prog[n]) == [] ==> sources == []
      ensures depths[n] == old(depths[n]) || AddedAt(depths, sources, depths[n])
    {
      var us := Uses(prog[n]);
      sources := [];
      var k := 0;
      while k < |us|
        invariant 0 <= k <= |us| && unchanged(this) && unchanged(G)
        invariant forall l :: 0 <= l < |sources| ==> DependsOn(prog, n, sources[l])
        invariant forall l :: 0 <= l < k && us[l] in lastDef ==> lastDef[us[l]] in sources
        invariant k == 0 ==> sources == []
      {
        if us[k] in lastDef {
          assert us[k] in Uses(prog[n]) && DependsOn(prog, n, lastDef[us[k]]);
          sources := sources + [lastDef[us[k]]];
        }
        k := k + 1;
      }
      AddEdges(sources, n);
    }

    /** The first level that is not reserved for the other field. */
    method FreeLevel(gf2n: bool, start: nat) returns (depth: nat)
      ensures depth == FirstFree(roundType, gf2n, start)
    {
      depth := start;
      while depth in roundType && roundType[depth] != gf2n
        invariant start <= depth && forall i :: start <= i < depth ==> Reserved(roundType, i, gf2n)
        decreases KeysFrom(roundType.Keys, depth)
      {
        assert depth in KeysFrom(roundType.Keys, depth) && depth !in KeysFrom(roundType.Keys, depth + 1);
        depth := depth + 1;
      }
      FirstFreeIs(roundType, gf2n, start, depth);
    }

    /** The first level that has room, by way of the shortcuts; levels that were full become shortcuts. */
    method RoomyLevel(start: nat) returns (depth: nat)
      requires maxParallel > 0 && NextDepthsOk(nextDepth, parallel, maxParallel)
      modifies this`nextDepth
      ensures depth == FirstRoom(parallel, maxParallel, start)
      ensures NextDepthsOk(nextDepth, parallel, maxParallel)
    {
      depth := start;
      var skipped: seq<nat> := [];
      while depth in parallel && parallel[depth] >= maxParallel
        invariant start <= depth && forall i :: start <= i < depth ==> Full(parallel, maxParallel, i)
        invariant forall k :: 0 <= k < |skipped| ==> start <= skipped[k] < depth
        decreases KeysFrom(parallel.Keys, depth)
      {
        skipped := skipped + [depth];
        ghost var d0 := depth;
        depth := if depth in nextDepth then nextDepth[depth] else depth + 1;
        assert d0 in KeysFrom(parallel.Keys, d0) && d0 !in KeysFrom(parallel.Keys, depth);
      }
      FirstRoomIs(parallel, maxParallel, start, depth);
      var k := 0;
      while k < |skipped|
        invariant 0 <= k <= |skipped| && NextDepthsOk(nextDepth, parallel, maxParallel)
      {
        nextDepth := nextDepth[skipped[k] := depth];
        k := k + 1;
      }
    }

    /** The depth of an opening: below everything it depends on, and at a level of its field where there is room. */
    method OpenDepth(n: nat)
      requires Shaped() && n < |prog| && prog[n].StartOpen?
      modifies this`depths, this`roundType, this`parallel, this`nextDepth
      ensures Shaped() && Deepened(old(depths), depths, n) && old(depths[n]) < depths[n]
      ensures Known(n + 1) == PlaceAt(prog, maxParallel, old(Known(n)), n, old(depths[n]))
    {
      var depth := FreeLevel(prog[n].gf2n, depths[n] + 1);
      roundType := roundType[depth := prog[n].gf2n];
      if maxParallel > 0 {
        depth := RoomyLevel(depth);
      }
      MoreIsFuller(nextDepth, parallel, maxParallel, depth, |prog[n].uses|);
      parallel := parallel[depth := (if depth in parallel then parallel[depth] else 0) + |prog[n].uses|];
      depths := depths[n := depth];
      assert depths[..n + 1] == old(depths)[..n] + [depth];
    }

    /** The edges of instruction n beyond those for its registers. */
    method OtherEdges(n: nat, lastWrite: map<Cell, seq<nat>>, lastRead: map<Cell, seq<nat>>, last: map<nat, nat>,
                      lastOpen: seq<nat>) returns (sources: seq<nat>)
      requires Shaped() && n < |prog| && (prog[n].StopOpen? ==> lastOpen != [] && lastOpen[0] < n && depths[n] == 0)
      requires SourcesDepend(prog, n, lastWrite, lastRead, last, lastOpen)
      modifies this`depths, this`roundType, this`parallel, this`nextDepth, G
      ensures Shaped() && EdgesAdded(old(G.succ), G.succ, n, sources) && Deepened(old(depths), depths, n)
      ensures forall k :: 0 <= k < |sources| ==> DependsOn(prog, n, sources[k]) && depths[sources[k]] <= depths[n]
      ensures prog[n].Load? ==> sources == Of(lastWrite, (prog[n].kind, prog[n].addr))
      ensures prog[n].StoreMem? ==> sources == Of(lastRead, (prog[n].kind, prog[n].addr))
      ensures prog[n].Ordered? && prog[n].chan in last ==> sources == [last[prog[n].chan]]
      ensures prog[n].StopOpen? ==> sources == [lastOpen[0]] && depths[n] == depths[lastOpen[0]]
      ensures if prog[n].StartOpen? then
                sources == [] && old(depths[n]) < depths[n]
                && Known(n + 1) == PlaceAt(prog, maxParallel, old(Known(n)), n, old(depths[n]))
              else
                roundType == old(roundType) && parallel == old(parallel)
                && (depths[n] == old(depths[n]) || AddedAt(depths, sources, depths[n]))
    {
      sources := [];
      match prog[n] {
        case Load(_, kind, addr) => sources := Of(lastWrite, (kind, addr));
        case StoreMem(_, kind, addr) => sources := Of(lastRead, (kind, addr));
        case Ordered(_, c, _, _) => sources := if c in last then [last[c]] else [];
        case StopOpen(_) => sources := [lastOpen[0]];
        case StartOpen(_, _) => OpenDepth(n);
        case Compute(_, _, _) =>
      }
      forall k | 0 <= k < |sources|
        ensures DependsOn(prog, n, sources[k])
      {
        assert sources[k] in sources;
      }
      AddEdges(sources, n);
    }

    /** All edges to instruction n, and its depth. */
    method AllEdges(n: nat, lastDef: map<nat, nat>, lastWrite: map<Cell, seq<nat>>, lastRead: map<Cell, seq<nat>>,
                    last: map<nat, nat>, lastOpen: seq<nat>) returns (ghost added: seq<nat>, ghost base: nat)
      requires Shaped() && n < |prog| && depths[n] == 0
      requires DefsOk(prog, lastDef, n) && MemoryOk(prog, G.succ, n, lastWrite, lastRead)
        && ChannelsOk(prog, G.succ, n, last)
      requires prog[n].StopOpen? ==> lastOpen != [] && lastOpen[0] == StartOf(prog, n) < n
      modifies this`depths, this`roundType, this`parallel, this`nextDepth, G
      ensures Shaped() && EdgesAdded(old(G.succ), G.succ, n, added) && Deepened(old(depths), depths, n)
      ensures Named(prog, n, added, lastDef, lastWrite, lastRead, last)
      ensures forall v :: v in added ==> EdgeOk(prog, depths, v, n)
      ensures forall v :: v in added ==> v < n && old(depths)[v] <= base
      ensures base == 0 || AddedAt(old(depths), added, base)
      ensures Known(n + 1) == PlaceAt(prog, maxParallel, old(Known(n)), n, base)
    {
      ghost var s0, d0 := G.succ, depths;
      BookkeepingDepends(prog, G.succ, n, lastWrite, lastRead, last, lastOpen);
      var regs := ReadRegisters(n, lastDef);
      ghost var s1, d1 := G.succ, depths;
      var others := OtherEdges(n, lastWrite, lastRead, last, lastOpen);
      EdgesCompose(s0, s1, G.succ, n, regs, others);
      InstructionEdges(prog, d0, d1, depths, n, regs, others);
      added := regs + others;
      base := if prog[n].StartOpen? then d1[n] else depths[n];
      BaseAdded(prog, d0, d1, depths, n, regs, others, base);
      assert forall v :: v in added ==> DependsOn(prog, n, v);
      assert d1[..n] == d0[..n];
      assert depths[..n + 1] == d0[..n] + [depths[n]];
    }

    /** One step of the walk. */
    method Instruction(n: nat, w: Walk) returns (w1: Walk)
      requires ValidBlock(prog) && Shaped() && n < |prog| && Walking(prog, G.succ, depths, stopOf, n, w)
      requires Known(n) == Placed(prog, maxParallel, n)
      modifies this, G
      ensures Shaped() && Walking(prog, G.succ, depths, stopOf, n + 1, w1)
      ensures Known(n + 1) == Placed(prog, maxParallel, n + 1)
    {
      ghost var s0, d0, known := G.succ, depths, Known(n);
      WalkReady(prog, G.succ, depths, stopOf, n, w);
      ghost var added, base := AllEdges(n, w.lastDef, w.lastWrite, w.lastRead, w.last, w.lastOpen);
      var lastDef1 := Define(prog, n, w.lastDef);
      w1 := WalkNext(prog, n, w, lastDef1);
      WalkStep(prog, maxParallel, s0, G.succ, d0, depths, stopOf, n, added, base, known, w, lastDef1);
      if prog[n].StopOpen? {
        stopOf := stopOf[w.lastOpen[0] := n];
      }
    }

    /** The walk over the whole block. */
    method WalkOver(start: Walk) returns (w: Walk)
      requires ValidBlock(prog) && Shaped() && Walking(prog, G.succ, depths, stopOf, 0, start)
      requires Known(0) == Placed(prog, maxParallel, 0)
      modifies this, G
      ensures Shaped() && Walking(prog, G.succ, depths, stopOf, |prog|, w)
      ensures depths == Depths(prog, maxParallel)
    {
      w := start;
      var n := 0;
      while n < |prog|
        invariant 0 <= n <= |prog| && Shaped() && Walking(prog, G.succ, depths, stopOf, n, w)
        invariant Known(n) == Placed(prog, maxParallel, n)
      {
        w := Instruction(n, w);
        n := n + 1;
      }
      assert depths[..n] == depths;
    }

    /** dependency_graph */
    method DependencyGraph()
      requires ValidBlock(prog) && Shaped() && stopOf == map[] && Blank(G.succ, depths)
        && Known(0) == Table([], map[], map[])
      modifies this, G
      ensures Shaped() && Analysed(prog, G.succ, depths, stopOf) && depths == Depths(prog, maxParallel)
    {
      var w := Walk(map[], map[], map[], map[], []);
      BuiltStart(prog, G.succ, depths, w);
      w := WalkOver(w);
      WalkDone(prog, G.succ, depths, stopOf, w);
    }
  }

  /** With the depth of what n depends on as its base, n is placed. */
  lemma PlacedStep(prog: seq<Inst>, max: nat, succ: Lists, succ1: Lists, depths: seq<nat>, n: nat, added: seq<nat>,
                   base: nat, known: Table)
    requires EdgesOk(prog, succ, depths, n) && n < |prog| && EdgesAdded(succ, succ1, n, added)
      && Covered(prog, succ1, n + 1)
    requires forall v :: v in added ==> DependsOn(prog, n, v) && depths[v] <= base
    requires base == 0 || AddedAt(depths, added, base)
    requires known == Placed(prog, max, n) && known.depths == depths[..n]
    ensures PlaceAt(prog, max, known, n, base) == Placed(prog, max, n + 1)
  {
    BaseIsMax(prog, succ, succ1, depths, n, added, base);
    MaxDepthPrefix(prog, depths, known.depths, n, n);
  }

  lemma StopsStep(prog: seq<Inst>, stopOf: map<nat, nat>, n: nat)
    requires n < |prog| && StopsOk(prog, stopOf, n) && OpensPaired(prog)
    ensures StopsOk(prog, if prog[n].StopOpen? then stopOf[StartOf(prog, n) := n] else stopOf, n + 1)
  {
    assert PairedAt(prog, n);
    var p, q := Pending(prog, n), Pending(prog, n + 1);
    var stopOf1 := if prog[n].StopOpen? then stopOf[StartOf(prog, n) := n] else stopOf;
    forall s: nat | s < n + 1 && prog[s].StartOpen?
      ensures s in stopOf1 || s in q
    {
      if s == n {
        assert q[|q| - 1] == n;
      } else if s !in stopOf1 {
        var k :| 0 <= k < |p| && p[k] == s;
        StillPending(prog, n, k);
      }
    }
  }

  lemma StillPending(prog: seq<Inst>, n: nat, k: nat)
    requires n < |prog| && k < |Pending(prog, n)|
    ensures Pending(prog, n)[k] in Pending(prog, n + 1)
      || (prog[n].StopOpen? && Pending(prog, n)[k] == StartOf(prog, n))
  {
    var p, q := Pending(prog, n), Pending(prog, n + 1);
    if prog[n].StopOpen? {
      if k > 0 {
        assert q[k - 1] == p[k];
      }
    } else {
      assert q[k] == p[k];
    }
  }

  lemma BuiltStart(prog: seq<Inst>, succ: Lists, depths: seq<nat>, w: Walk)
    requires |succ| == |depths| == |prog| && Blank(succ, depths)
    requires w == Walk(map[], map[], map[], map[], [])
    ensures Walking(prog, succ, depths, map[], 0, w)
  {
    forall c: Cell
      ensures CellOk(prog, succ, 0, Of(w.lastWrite, c), Of(w.lastRead, c), c)
    {
    }
  }

  /** What the bookkeeping names for instruction n is what n depends on. */
  ghost predicate SourcesDepend(prog: seq<Inst>, n: nat, lastWrite: map<Cell, seq<nat>>, lastRead: map<Cell, seq<nat>>,
                                last: map<nat, nat>, lastOpen: seq<nat>)
    requires n < |prog|
  {
    match prog[n]
    case Load(_, kind, addr) => forall w :: w in Of(lastWrite, (kind, addr)) ==> DependsOn(prog, n, w)
    case StoreMem(_, kind, addr) => forall w :: w in Of(lastRead, (kind, addr)) ==> DependsOn(prog, n, w)
    case Ordered(_, c, _, _) => c in last ==> DependsOn(prog, n, last[c])
    case StopOpen(_) => lastOpen != [] && DependsOn(prog, n, lastOpen[0])
    case _ => true
  }

  lemma BookkeepingDepends(prog: seq<Inst>, succ: Lists, n: nat, lastWrite: map<Cell, seq<nat>>,
                           lastRead: map<Cell, seq<nat>>, last: map<nat, nat>, lastOpen: seq<nat>)
    requires n < |prog| && MemoryOk(prog, succ, n, lastWrite, lastRead) && ChannelsOk(prog, succ, n, last)
    requires prog[n].StopOpen? ==> lastOpen != [] && lastOpen[0] == StartOf(prog, n) < n
    ensures SourcesDepend(prog, n, lastWrite, lastRead, last, lastOpen)
  {
    if prog[n].Load? || prog[n].StoreMem? {
      var c := (prog[n].kind, prog[n].addr);
      assert CellOk(prog, succ, n, Of(lastWrite, c), Of(lastRead, c), c);
      forall w | w in Of(lastWrite, c)
        ensures w < n && Accesses(prog[w], c, true)
      {
      }
      forall w | w in Of(lastRead, c)
        ensures w < n && Accesses(prog[w], c, false)
      {
      }
    }
  }

  /** Only its stop depends on an opening, and a stop depends on nothing else. */
  lemma DependsKinds(prog: seq<Inst>, n: nat, v: nat)
    requires DependsOn(prog, n, v)
    ensures prog[v].StartOpen? ==> prog[n].StopOpen?
    ensures prog[n].StopOpen? ==> v == StartOf(prog, n)
  {
  }

  lemma InstructionEdges(prog: seq<Inst>, d0: seq<nat>, d1: seq<nat>, d2: seq<nat>, n: nat, regs: seq<nat>,
                         others: seq<nat>)
    requires n < |prog| == |d0| && Deepened(d0, d1, n) && Deepened(d1, d2, n)
    requires forall k :: 0 <= k < |regs| ==> DependsOn(prog, n, regs[k]) && d1[regs[k]] <= d1[n]
    requires forall k :: 0 <= k < |others| ==> DependsOn(prog, n, others[k]) && d2[others[k]] <= d2[n]
    requires prog[n].StopOpen? ==> regs == [] && |others| == 1 && others[0] < n && d2[n] == d2[others[0]]
    requires prog[n].StartOpen? ==> others == [] && d1[n] < d2[n]
    ensures Deepened(d0, d2, n)
    ensures forall v :: v in regs + others ==> EdgeOk(prog, d2, v, n)
  {
    forall v | v in regs + others
      ensures EdgeOk(prog, d2, v, n)
    {
      if v in regs {
        var k :| 0 <= k < |regs| && regs[k] == v;
      } else {
        var k :| 0 <= k < |others| && others[k] == v;
      }
      DependsKinds(prog, n, v);
    }
  }

  /** The depth that n takes from what it depends on. */
  lemma BaseAdded(prog: seq<Inst>, d0: seq<nat>, d1: seq<nat>, d2: seq<nat>, n: nat, regs: seq<nat>, others: seq<nat>,
                  base: nat)
    requires n < |prog| == |d0| && Deepened(d0, d1, n) && Deepened(d1, d2, n) && d0[n] == 0
    requires forall k :: 0 <= k < |regs| ==> DependsOn(prog, n, regs[k]) && d1[regs[k]] <= d1[n]
    requires forall k :: 0 <= k < |others| ==> DependsOn(prog, n, others[k]) && d2[others[k]] <= d2[n]
    requires d1[n] == 0 || AddedAt(d1, regs, d1[n])
    requires
      if prog[n].StartOpen? then others == [] && base == d1[n]
      else base == d2[n] && (d2[n] == d1[n] || AddedAt(d2, others, d2[n]))
    ensures forall v :: v in regs + others ==> v < n && d0[v] <= base
    ensures base == 0 || AddedAt(d0, regs + others, base)
  {
    forall v | v in regs + others
      ensures v < n && d0[v] <= base
    {
      if v in regs {
        var k :| 0 <= k < |regs| && regs[k] == v;
      } else {
        var k :| 0 <= k < |others| && others[k] == v;
      }
    }
    if base > 0 {
      if base == d1[n] {
        var k :| 0 <= k < |regs| && regs[k] < |d1| && d1[regs[k]] == base;
        assert d0[regs[k]] == base;
        assert AddedAt(d0, regs, base);
      } else {
        var k :| 0 <= k < |others| && others[k] < |d2| && d2[others[k]] == base;
        assert d0[others[k]] == base;
        assert AddedAt(d0, others, base);
      }
      AddedEither(d0, regs, others, base);
    }
  }
}
