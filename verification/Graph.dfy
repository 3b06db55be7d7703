/**
 Compiler/graph.py: directed graphs by successor and predecessor lists, and the topological sort
 by depth-first search with an explicit stack.
 */
module Graph {
  import opened Sequences

  type Lists = seq<seq<nat>>

  predicate AreNodes(n: nat, s: seq<nat>) {
    forall i :: 0 <= i < |s| ==> s[i] < n
  }

  predicate WellFormed(succ: Lists) {
    forall v :: 0 <= v < |succ| ==> AreNodes(|succ|, succ[v])
  }

  predicate Edge(succ: Lists, v: nat, w: nat) {
    v < |succ| && w in succ[v]
  }

  /** Consecutive nodes are connected. */
  predicate IsPath(succ: Lists, p: seq<nat>) {
    forall i :: 0 <= i < |p| - 1 ==> Edge(succ, p[i], p[i + 1])
  }

  ghost predicate HasCycle(succ: Lists) {
    exists c: seq<nat> :: |c| >= 2 && c[0] == c[|c| - 1] && IsPath(succ, c)
  }

  /** Every node comes after all its successors. */
  ghost predicate IsPostorder(succ: Lists, done: seq<nat>) {
    && AreNodes(|succ|, done) && NoDuplicates(done)
    && forall i, w :: 0 <= i < |done| && Edge(succ, done[i], w) ==> w in done[..i]
  }

  /** Every node comes before all its successors, which are all there. */
  ghost predicate IsTopological(succ: Lists, order: seq<nat>) {
    && AreNodes(|succ|, order) && NoDuplicates(order)
    && forall i, w :: 0 <= i < |order| && Edge(succ, order[i], w) ==> w in order[i + 1..]
  }

  function Reversed(s: seq<nat>): (r: seq<nat>)
    ensures |r| == |s| && forall i :: 0 <= i < |s| ==> r[i] == s[|s| - 1 - i]
  {
    if s == [] then [] else Reversed(s[1..]) + [s[0]]
  }

  lemma ReversedPostorder(succ: Lists, done: seq<nat>)
    requires IsPostorder(succ, done)
    ensures IsTopological(succ, Reversed(done))
    ensures forall v :: v in done <==> v in Reversed(done)
  {
    var r, n := Reversed(done), |done|;
    forall v | v in done
      ensures v in r
    {
      var i :| 0 <= i < n && done[i] == v;
      assert r[n - 1 - i] == v;
    }
    forall i, w | 0 <= i < n && Edge(succ, r[i], w)
      ensures w in r[i + 1..]
    {
      assert Edge(succ, done[n - 1 - i], w);
      var j :| 0 <= j < n - 1 - i && done[j] == w;
      assert r[n - 1 - j] == w && r[i + 1..][n - 1 - j - (i + 1)] == w;
    }
  }

  // ---------- the depth-first search ----------

  /** A node being explored, and those of its successors that are still on the stack. */
  datatype Frame = Frame(node: nat, pending: seq<nat>)

  function Nodes(frames: seq<Frame>): (r: seq<nat>)
    ensures |r| == |frames| && forall k :: 0 <= k < |frames| ==> r[k] == frames[k].node
  {
    seq(|frames|, k requires 0 <= k < |frames| => frames[k].node)
  }

  function Flatten(frames: seq<Frame>): seq<nat> {
    if frames == [] then [] else Flatten(frames[..|frames| - 1]) + frames[|frames| - 1].pending
  }

  /** The pending nodes are successors that were not being explored when they were put on the
      stack, and all other successors are done. */
  ghost predicate FrameOk(succ: Lists, done: seq<nat>, frames: seq<Frame>, k: nat)
    requires k < |frames|
  {
    var f := frames[k];
    && f.node < |succ| && f.node !in done && AreNodes(|succ|, f.pending)
    && (forall i :: 0 <= i < |f.pending| ==>
         Edge(succ, f.node, f.pending[i]) && f.pending[i] !in Nodes(frames)[..k + 1])
    && (forall w :: Edge(succ, f.node, w) ==> w in done || w in f.pending)
    && (k + 1 < |frames| ==> f.pending != [] && frames[k + 1].node == f.pending[|f.pending| - 1])
  }

  ghost predicate FramesOk(succ: Lists, done: seq<nat>, frames: seq<Frame>) {
    forall k :: 0 <= k < |frames| ==> FrameOk(succ, done, frames, k)
  }

  /** The state of the search from root: the stack holds root and the pending nodes; exactly the
      nodes being explored are seen but not done. */
  ghost predicate Searching(succ: Lists, root: nat, stack: seq<nat>, seen: set<nat>, done: seq<nat>,
                            frames: seq<Frame>) {
    && WellFormed(succ) && root < |succ| && IsPostorder(succ, done)
    && FramesOk(succ, done, frames)
    && (forall v :: v in seen ==> v < |succ|)
    && (forall v :: v in Nodes(frames) <==> v in seen && v !in done)
    && (forall v :: v in done ==> v in seen)
    && (frames != [] ==> frames[0].node == root)
    && (if stack == [] then frames == [] && root in done else stack == [root] + Flatten(frames))
  }

  predicate IsTop(w: nat, frames: seq<Frame>)
    requires frames != []
  {
    var f := frames[|frames| - 1];
    if f.pending == [] then w == f.node else w == f.pending[|f.pending| - 1] && w !in Nodes(frames)
  }

  /** What is on top of the stack: a pending node of the last frame, that frame's own node, or the root. */
  lemma TopOfStack(succ: Lists, root: nat, stack: seq<nat>, seen: set<nat>, done: seq<nat>, frames: seq<Frame>)
    requires Searching(succ, root, stack, seen, done, frames) && stack != []
    ensures stack[|stack| - 1] < |succ|
    ensures frames == [] ==> stack == [root]
    ensures frames != [] ==> IsTop(stack[|stack| - 1], frames)
  {
    if frames != [] {
      var k := |frames| - 1;
      var f := frames[k];
      assert FrameOk(succ, done, frames, k);
      assert Nodes(frames)[..k + 1] == Nodes(frames);
      if f.pending == [] {
        TopOfEmpty(succ, root, frames, done);
      }
    }
  }

  /** The frames below the last end with its node. */
  lemma TopOfEmpty(succ: Lists, root: nat, frames: seq<Frame>, done: seq<nat>)
    requires frames != [] && FramesOk(succ, done, frames) && frames[0].node == root
    ensures var below := [root] + Flatten(frames[..|frames| - 1]);
            below[|below| - 1] == frames[|frames| - 1].node
  {
    var k := |frames| - 1;
    if k > 0 {
      assert FrameOk(succ, done, frames, k - 1);
      assert frames[..k][..k - 1] == frames[..k - 1];
    }
  }

  /** Without the last pending node. */
  function Shrunk(frames: seq<Frame>): seq<Frame>
    requires frames != [] && frames[|frames| - 1].pending != []
  {
    var k := |frames| - 1;
    frames[..k] + [Frame(frames[k].node, frames[k].pending[..|frames[k].pending| - 1])]
  }

  lemma ShrunkFlat(frames: seq<Frame>)
    requires frames != [] && frames[|frames| - 1].pending != []
    ensures Nodes(Shrunk(frames)) == Nodes(frames)
    ensures Flatten(frames) == Flatten(Shrunk(frames))
      + [frames[|frames| - 1].pending[|frames[|frames| - 1].pending| - 1]]
  {
    var k := |frames| - 1;
    var s := Shrunk(frames);
    assert s[..k] == frames[..k];
    assert Nodes(s) == Nodes(frames);
  }

  /** The last pending node is done, and leaves the stack. */
  lemma ShrunkOk(succ: Lists, done: seq<nat>, done1: seq<nat>, frames: seq<Frame>)
    requires frames != [] && frames[|frames| - 1].pending != [] && FramesOk(succ, done, frames)
    requires (forall v :: v in done ==> v in done1) && (forall v :: v in Nodes(frames) ==> v !in done1)
    requires frames[|frames| - 1].pending[|frames[|frames| - 1].pending| - 1] in done1
    ensures FramesOk(succ, done1, Shrunk(frames))
  {
    var k := |frames| - 1;
    var s := Shrunk(frames);
    ShrunkFlat(frames);
    forall l | 0 <= l < |s|
      ensures FrameOk(succ, done1, s, l)
    {
      assert FrameOk(succ, done, frames, l);
      assert Nodes(frames)[l] == frames[l].node;
      if l == k {
        var pending := frames[k].pending;
        forall w | Edge(succ, s[k].node, w)
          ensures w in done1 || w in s[k].pending
        {
          if w !in done1 {
            var i :| 0 <= i < |pending| && pending[i] == w;
            assert s[k].pending[i] == w;
          }
        }
      } else {
        assert s[l] == frames[l] && s[l + 1].node == frames[l + 1].node;
      }
    }
  }

  lemma PostorderStep(succ: Lists, done: seq<nat>, w: nat)
    requires WellFormed(succ) && IsPostorder(succ, done) && w < |succ| && w !in done
    requires forall x :: Edge(succ, w, x) ==> x in done
    ensures IsPostorder(succ, done + [w])
  {
    var d := done + [w];
    forall i, x | 0 <= i < |d| && Edge(succ, d[i], x)
      ensures x in d[..i]
    {
      if i < |done| {
        assert d[i] == done[i] && d[..i] == done[..i];
      } else {
        assert d[..i] == done;
      }
    }
  }

  // ---------- the steps of the search ----------

  /** The top of the stack is done already. */
  lemma PopDone(succ: Lists, root: nat, stack: seq<nat>, seen: set<nat>, done: seq<nat>, frames: seq<Frame>)
      returns (next: seq<Frame>)
    requires Searching(succ, root, stack, seen, done, frames) && stack != [] && stack[|stack| - 1] in done
    ensures Searching(succ, root, stack[..|stack| - 1], seen, done, next)
  {
    TopOfStack(succ, root, stack, seen, done, frames);
    if frames == [] {
      next := frames;
    } else {
      assert FrameOk(succ, done, frames, |frames| - 1);
      next := Shrunk(frames);
      ShrunkFlat(frames);
      ShrunkOk(succ, done, done, frames);
      assert stack[..|stack| - 1] == [root] + Flatten(next);
    }
  }

  /** A new node w with unfinished successors news. */
  lemma PushNew(succ: Lists, root: nat, stack: seq<nat>, seen: set<nat>, done: seq<nat>, frames: seq<Frame>, w: nat,
                news: seq<nat>)
    requires Searching(succ, root, stack, seen, done, frames) && stack != [] && stack[|stack| - 1] == w
    requires w !in seen && news != [] && (forall i :: 0 <= i < |news| ==>
      Edge(succ, w, news[i]) && news[i] !in seen && news[i] != w)
    requires forall x :: Edge(succ, w, x) ==> x in done || x in news
    ensures Searching(succ, root, stack + news, seen + {w}, done, frames + [Frame(w, news)])
  {
    TopOfStack(succ, root, stack, seen, done, frames);
    var next := frames + [Frame(w, news)];
    assert next[..|frames|] == frames;
    assert Nodes(next) == Nodes(frames) + [w];
    assert stack + news == [root] + Flatten(next);
    forall k | 0 <= k < |next|
      ensures FrameOk(succ, done, next, k)
    {
      if k < |frames| {
        assert FrameOk(succ, done, frames, k);
        assert Nodes(next)[..k + 1] == Nodes(frames)[..k + 1];
        assert Nodes(frames)[k] == frames[k].node;
      } else {
        assert Nodes(next)[..k + 1] == Nodes(next);
      }
    }
  }

  /** The node w on top has no unfinished successors and is done now. */
  lemma FinishTop(succ: Lists, root: nat, stack: seq<nat>, seen: set<nat>, done: seq<nat>, frames: seq<Frame>, w: nat)
      returns (next: seq<Frame>)
    requires Searching(succ, root, stack, seen, done, frames) && stack != [] && stack[|stack| - 1] == w
    requires w !in done && forall x :: Edge(succ, w, x) ==> x in done
    ensures Searching(succ, root, stack[..|stack| - 1], seen + {w}, done + [w], next)
  {
    TopOfStack(succ, root, stack, seen, done, frames);
    PostorderStep(succ, done, w);
    if w in seen {
      next := FinishSeen(succ, root, stack, seen, done, frames, w);
    } else {
      next := FinishUnseen(succ, root, stack, seen, done, frames, w);
    }
  }

  /** A node seen for the first time. */
  lemma FinishUnseen(succ: Lists, root: nat, stack: seq<nat>, seen: set<nat>, done: seq<nat>, frames: seq<Frame>,
                     w: nat) returns (next: seq<Frame>)
    requires Searching(succ, root, stack, seen, done, frames) && stack != [] && stack[|stack| - 1] == w
    requires w !in done && w !in seen && IsPostorder(succ, done + [w])
    ensures Searching(succ, root, stack[..|stack| - 1], seen + {w}, done + [w], next)
  {
    TopOfStack(succ, root, stack, seen, done, frames);
    if frames == [] {
      next := frames;
    } else {
      assert FrameOk(succ, done, frames, |frames| - 1);
      assert Nodes(frames)[|frames| - 1] == frames[|frames| - 1].node;
      next := Shrunk(frames);
      ShrunkFlat(frames);
      ShrunkOk(succ, done, done + [w], frames);
      assert stack[..|stack| - 1] == [root] + Flatten(next);
    }
  }

  lemma FinishSeen(succ: Lists, root: nat, stack: seq<nat>, seen: set<nat>, done: seq<nat>, frames: seq<Frame>, w: nat)
      returns (next: seq<Frame>)
    requires Searching(succ, root, stack, seen, done, frames) && stack != [] && stack[|stack| - 1] == w
    requires w !in done && w in seen && IsPostorder(succ, done + [w])
    ensures Searching(succ, root, stack[..|stack| - 1], seen + {w}, done + [w], next)
  {
    TopOfStack(succ, root, stack, seen, done, frames);
    var k := |frames| - 1;
    assert w in Nodes(frames);
    assert frames[k].node == w && frames[k].pending == [];
    assert seen + {w} == seen;
    var below := frames[..k];
    assert Nodes(frames) == Nodes(below) + [w];
    if k == 0 {
      next := [];
      assert frames[..0] == [];
    } else {
      BelowOk(succ, done, frames, seen, w);
      next := Shrunk(below);
      ShrunkFlat(below);
      ShrunkOk(succ, done, done + [w], below);
      assert below[0] == frames[0];
      assert stack[..|stack| - 1] == [root] + Flatten(next);
    }
  }

  /** The frames without the last, whose node was their last pending one. */
  lemma BelowOk(succ: Lists, done: seq<nat>, frames: seq<Frame>, seen: set<nat>, w: nat)
    requires |frames| >= 2 && FramesOk(succ, done, frames) && frames[|frames| - 1].node == w
    requires forall v :: v in Nodes(frames) <==> v in seen && v !in done
    ensures var below := frames[..|frames| - 1];
      && FramesOk(succ, done, below) && below[|below| - 1].pending != []
      && below[|below| - 1].pending[|below[|below| - 1].pending| - 1] == w
      && w !in Nodes(below) && (forall v :: v in Nodes(below) <==> v in seen && v !in done && v != w)
  {
    var k := |frames| - 1;
    var below := frames[..k];
    assert Nodes(frames) == Nodes(below) + [w];
    forall l | 0 <= l < k
      ensures FrameOk(succ, done, below, l)
    {
      assert FrameOk(succ, done, frames, l);
      assert Nodes(below)[..l + 1] == Nodes(frames)[..l + 1];
    }
    assert FrameOk(succ, done, frames, k - 1);
    assert Nodes(frames)[..k] == Nodes(below);
  }

  /** A successor that is being explored closes a cycle. */
  lemma CycleFound(succ: Lists, root: nat, stack: seq<nat>, seen: set<nat>, done: seq<nat>, frames: seq<Frame>, w: nat,
                   x: nat)
    requires Searching(succ, root, stack, seen, done, frames) && stack != [] && stack[|stack| - 1] == w && w !in done
    requires Edge(succ, w, x) && x !in done && (x in seen || x == w)
    ensures HasCycle(succ)
  {
    TopOfStack(succ, root, stack, seen, done, frames);
    var path := Nodes(frames);
    if x == w {
      var c := [w, w];
      assert IsPath(succ, c) && c[0] == c[|c| - 1];
    } else {
      assert x in path;
      var j :| 0 <= j < |path| && path[j] == x;
      var k := |frames| - 1;
      assert FrameOk(succ, done, frames, k);
      assert frames[k].pending != [];
      var c := path[j..] + [w, x];
      forall i | 0 <= i < |c| - 1
        ensures Edge(succ, c[i], c[i + 1])
      {
        if i < |path| - j {
          assert FrameOk(succ, done, frames, j + i);
        }
      }
      assert c[0] == c[|c| - 1];
    }
  }

  // ---------- topological_sort ----------

  function Below(n: nat): (r: set<nat>)
    ensures forall v: nat :: v in r <==> v < n
  {
    if n == 0 then {} else Below(n - 1) + {n - 1}
  }

  /** The loop over the successors: the unfinished ones, or a cycle if one of them is being explored. */
  method Unfinished(children: seq<nat>, seen: set<nat>, explored: set<nat>) returns (cycle: bool, news: seq<nat>)
    ensures cycle ==> exists x :: x in children && x !in explored && x in seen
    ensures !cycle ==> (forall i :: 0 <= i < |news| ==> news[i] in children && news[i] !in explored && news[i] !in seen)
    ensures !cycle ==> forall x :: x in children ==> x in explored || x in news
  {
    news := [];
    cycle := false;
    var i := 0;
    while i < |children|
      invariant 0 <= i <= |children|
      invariant forall k :: 0 <= k < |news| ==> news[k] in children && news[k] !in explored && news[k] !in seen
      invariant forall k :: 0 <= k < i ==> children[k] in explored || children[k] in news
    {
      var x := children[i];
      if x !in explored {
        if x in seen {
          return true, news;
        }
        news := news + [x];
      }
      i := i + 1;
    }
  }

  /** v is one of the nodes or can be reached from one. */
  ghost predicate Follows(succ: Lists, nodes: seq<nat>, v: nat) {
    v in nodes || exists u :: u in nodes && Reach(succ, u, v)
  }

  lemma SuccessorsFollow(succ: Lists, nodes: seq<nat>, w: nat, news: seq<nat>)
    requires Follows(succ, nodes, w) && forall x :: x in news ==> Edge(succ, w, x)
    ensures forall x :: x in news ==> Follows(succ, nodes, x)
  {
    forall x | x in news
      ensures Follows(succ, nodes, x)
    {
      EdgeReaches(succ, w, x);
      if w !in nodes {
        var u :| u in nodes && Reach(succ, u, w);
        ReachTrans(succ, u, w, x);
      }
    }
  }

  /** Explores everything that can be reached from root; cycle is the exception. */
  method Explore(succ: Lists, root: nat, seen0: set<nat>, explored0: set<nat>, done0: seq<nat>)
    returns (cycle: bool, seen: set<nat>, explored: set<nat>, done: seq<nat>)
    requires Searching(succ, root, [root], seen0, done0, []) && root !in done0
    requires forall v :: v in explored0 <==> v in done0
    ensures cycle ==> HasCycle(succ)
    ensures !cycle ==> Searching(succ, root, [], seen, done, []) && (forall v :: v in explored <==> v in done)
    ensures !cycle ==> forall v :: v in done0 ==> v in done
    ensures !cycle ==> forall v :: v in done && v !in done0 ==> Follows(succ, [root], v)
  {
    seen, explored, done := seen0, explored0, done0;
    var stack := [root];
    ghost var frames: seq<Frame> := [];
    ghost var all := Below(|succ|);
    while stack != []
      invariant Searching(succ, root, stack, seen, done, frames)
      invariant forall v :: v in explored <==> v in done
      invariant forall v :: v in done0 ==> v in done
      invariant forall v :: v in done && v !in done0 ==> Follows(succ, [root], v)
      invariant forall v :: v in stack ==> Follows(succ, [root], v)
      decreases all - explored, all - seen, |stack|
    {
      var w := stack[|stack| - 1];
      TopOfStack(succ, root, stack, seen, done, frames);
      if w in explored {
        frames := PopDone(succ, root, stack, seen, done, frames);
        stack := stack[..|stack| - 1];
      } else {
        var news;
        cycle, news := Unfinished(succ[w], seen + {w}, explored);
        if cycle {
          var x :| x in succ[w] && x !in explored && x in seen + {w};
          CycleFound(succ, root, stack, seen, done, frames, w, x);
          return;
        }
        if news != [] {
          UnfinishedMeansNew(succ, root, stack, seen, done, frames, w, news);
          PushNew(succ, root, stack, seen, done, frames, w, news);
          SuccessorsFollow(succ, [root], w, news);
          frames := frames + [Frame(w, news)];
          stack := stack + news;
        } else {
          frames := FinishTop(succ, root, stack, seen, done, frames, w);
          assert w in all;
          explored := explored + {w};
          done := done + [w];
          stack := stack[..|stack| - 1];
        }
        seen := seen + {w};
      }
    }
    cycle := false;
  }

  /** A node that comes back to the top has no unfinished successors left. */
  lemma UnfinishedMeansNew(succ: Lists, root: nat, stack: seq<nat>, seen: set<nat>, done: seq<nat>, frames: seq<Frame>,
                           w: nat, news: seq<nat>)
    requires Searching(succ, root, stack, seen, done, frames) && stack != [] && stack[|stack| - 1] == w && w !in done
    requires news != [] && Edge(succ, w, news[0]) && news[0] !in done
    ensures w !in seen
  {
    TopOfStack(succ, root, stack, seen, done, frames);
    if frames != [] {
      assert FrameOk(succ, done, frames, |frames| - 1);
    }
  }

  lemma StartSearch(succ: Lists, root: nat, seen: set<nat>, done: seq<nat>)
    requires WellFormed(succ) && root < |succ| && IsPostorder(succ, done)
    requires forall v :: v in seen <==> v in done
    ensures Searching(succ, root, [root], seen, done, [])
  {
  }

  lemma AllFollow(succ: Lists, nbunch: seq<nat>, v: nat, before: seq<nat>, done: seq<nat>)
    requires v in nbunch && forall w :: w in before ==> Follows(succ, nbunch, w)
    requires forall w :: w in done && w !in before ==> Follows(succ, [v], w)
    ensures forall w :: w in done ==> Follows(succ, nbunch, w)
  {
  }

  /** Depth-first search from all nodes in nbunch, in this order. The exception is a cycle; else the
      result is a topological order of everything that can be reached. */
  method TopologicalSort(succ: Lists, nbunch: seq<nat>) returns (cycle: bool, order: seq<nat>)
    requires WellFormed(succ) && AreNodes(|succ|, nbunch)
    ensures cycle ==> HasCycle(succ)
    ensures !cycle ==> IsTopological(succ, order) && forall i :: 0 <= i < |nbunch| ==> nbunch[i] in order
    ensures !cycle ==> forall v :: v in order ==> Follows(succ, nbunch, v)
  {
    var seen: set<nat>, explored: set<nat>, done: seq<nat> := {}, {}, [];
    var i := 0;
    while i < |nbunch|
      invariant 0 <= i <= |nbunch| && IsPostorder(succ, done)
      invariant forall v :: v in explored <==> v in done
      invariant forall v :: v in seen <==> v in done
      invariant forall k :: 0 <= k < i ==> nbunch[k] in done
      invariant forall v :: v in done ==> Follows(succ, nbunch, v)
    {
      var v := nbunch[i];
      if v !in explored {
        StartSearch(succ, v, seen, done);
        ghost var before := done;
        cycle, seen, explored, done := Explore(succ, v, seen, explored, done);
        if cycle {
          return true, [];
        }
        AllFollow(succ, nbunch, v, before, done);
      }
      i := i + 1;
    }
    ReversedPostorder(succ, done);
    cycle, order := false, Reversed(done);
  }

  // ---------- what a topological order gives ----------

  /** In a topological order, a node comes before everything that can be reached from it. */
  lemma {:induction false} PathOrder(succ: Lists, order: seq<nat>, p: seq<nat>, i: nat)
    requires IsTopological(succ, order) && IsPath(succ, p) && |p| >= 2 && i < |order| && order[i] == p[0]
    ensures p[|p| - 1] in order[i + 1..]
    decreases |p|
  {
    assert Edge(succ, order[i], p[1]);
    var j :| i + 1 <= j < |order| && order[j] == p[1];
    if |p| > 2 {
      var rest := p[1..];
      forall k | 0 <= k < |rest| - 1
        ensures Edge(succ, rest[k], rest[k + 1])
      {
        assert Edge(succ, p[k + 1], p[k + 1 + 1]);
      }
      PathOrder(succ, order, rest, j);
    }
  }

  /** Nodes are ranked by depth, and by place within one depth. */
  datatype Rank = Rank(depth: nat, place: nat)

  predicate Below2(a: Rank, b: Rank) {
    a.depth < b.depth || (a.depth == b.depth && a.place < b.place)
  }

  /** The rank grows along all edges. */
  ghost predicate Ranked(succ: Lists, rank: nat -> Rank) {
    forall v, w :: Edge(succ, v, w) ==> Below2(rank(v), rank(w))
  }

  lemma PathTail(succ: Lists, p: seq<nat>)
    requires IsPath(succ, p) && p != []
    ensures IsPath(succ, p[1..])
  {
    var rest := p[1..];
    forall k | 0 <= k < |rest| - 1
      ensures Edge(succ, rest[k], rest[k + 1])
    {
      assert Edge(succ, p[k + 1], p[k + 1 + 1]);
    }
  }

  lemma {:induction false} RankGrows(succ: Lists, rank: nat -> Rank, p: seq<nat>)
    requires Ranked(succ, rank) && IsPath(succ, p) && |p| >= 2
    ensures Below2(rank(p[0]), rank(p[|p| - 1]))
    decreases |p|
  {
    assert Edge(succ, p[0], p[1]);
    if |p| > 2 {
      PathTail(succ, p);
      RankGrows(succ, rank, p[1..]);
    }
  }

  lemma RankedIsAcyclic(succ: Lists, rank: nat -> Rank)
    requires Ranked(succ, rank)
    ensures !HasCycle(succ)
  {
    if HasCycle(succ) {
      var c: seq<nat> :| |c| >= 2 && c[0] == c[|c| - 1] && IsPath(succ, c);
      RankGrows(succ, rank, c);
      assert false;
    }
  }

  /** A search from all sources reaches every node of a ranked graph. */
  lemma {:induction false} SourcesSuffice(succ: Lists, rank: nat -> Rank, order: seq<nat>, v: nat)
    requires Ranked(succ, rank) && IsTopological(succ, order) && v < |succ|
    requires forall w: nat :: w < |succ| && (forall u: nat :: !Edge(succ, u, w)) ==> w in order
    ensures v in order
    decreases rank(v).depth, rank(v).place
  {
    if u :| Edge(succ, u, v) {
      SourcesSuffice(succ, rank, order, u);
      var i :| 0 <= i < |order| && order[i] == u;
      assert Edge(succ, order[i], v);
    }
  }

  // ---------- reachability ----------

  ghost predicate Reach(succ: Lists, v: nat, w: nat) {
    exists p: seq<nat> :: |p| >= 2 && p[0] == v && p[|p| - 1] == w && IsPath(succ, p)
  }

  lemma EdgeReaches(succ: Lists, v: nat, w: nat)
    requires Edge(succ, v, w)
    ensures Reach(succ, v, w)
  {
    assert IsPath(succ, [v, w]);
    assert [v, w][0] == v && [v, w][|[v, w]| - 1] == w;
  }

  lemma ReachTrans(succ: Lists, u: nat, v: nat, w: nat)
    requires Reach(succ, u, v) && Reach(succ, v, w)
    ensures Reach(succ, u, w)
  {
    var p: seq<nat> :| |p| >= 2 && p[0] == u && p[|p| - 1] == v && IsPath(succ, p);
    var q: seq<nat> :| |q| >= 2 && q[0] == v && q[|q| - 1] == w && IsPath(succ, q);
    var r := p + q[1..];
    forall k | 0 <= k < |r| - 1
      ensures Edge(succ, r[k], r[k + 1])
    {
      if k < |p| - 1 {
        assert Edge(succ, p[k], p[k + 1]);
      } else {
        var l := k - (|p| - 1);
        assert Edge(succ, q[l], q[l + 1]);
      }
    }
    assert |r| >= 2 && r[0] == u && r[|r| - 1] == w;
  }

  /** More edges reach at least as far. */
  lemma ReachMore(succ: Lists, more: Lists, v: nat, w: nat)
    requires Reach(succ, v, w) && forall x, y :: Edge(succ, x, y) ==> Edge(more, x, y)
    ensures Reach(more, v, w)
  {
    var p: seq<nat> :| |p| >= 2 && p[0] == v && p[|p| - 1] == w && IsPath(succ, p);
    forall k | 0 <= k < |p| - 1
      ensures Edge(more, p[k], p[k + 1])
    {
      assert Edge(succ, p[k], p[k + 1]);
    }
    assert IsPath(more, p);
  }

  /** In a topological order, what can be reached comes later. */
  lemma ReachOrder(succ: Lists, order: seq<nat>, i: nat, w: nat)
    requires IsTopological(succ, order) && i < |order| && Reach(succ, order[i], w)
    ensures w in order[i + 1..]
  {
    var p: seq<nat> :| |p| >= 2 && p[0] == order[i] && p[|p| - 1] == w && IsPath(succ, p);
    PathOrder(succ, order, p, i);
  }

  // ---------- the graph object ----------

  /** list.remove */
  function Removed(s: seq<nat>, x: nat): (r: seq<nat>)
    requires NoDuplicates(s)
    ensures NoDuplicates(r) && forall y :: y in r <==> y in s && y != x
  {
    if s == [] then [] else
      var t := s[1..];
      assert s == [s[0]] + t;
      if s[0] == x then
        assert x !in t;
        t
      else
        var r := Removed(t, x);
        assert forall i :: 0 <= i < |r| ==> r[i] in t;
        [s[0]] + r
  }

  ghost predicate Mirror(succ: Lists, pred: Lists) {
    forall v: nat, w: nat :: Edge(succ, v, w) <==> Edge(pred, w, v)
  }

  ghost predicate Simple(lists: Lists) {
    WellFormed(lists) && forall v :: 0 <= v < |lists| ==> NoDuplicates(lists[v])
  }

  /** The edges after a list has been changed. */
  lemma Relisted(lists: Lists, i: nat, s: seq<nat>)
    requires Simple(lists) && i < |lists| && AreNodes(|lists|, s) && NoDuplicates(s)
    ensures Simple(lists[i := s])
    ensures forall v: nat, w: nat :: Edge(lists[i := s], v, w) <==> if v == i then w in s else Edge(lists, v, w)
  {
    var l := lists[i := s];
    forall v | 0 <= v < |l|
      ensures AreNodes(|l|, l[v]) && NoDuplicates(l[v])
    {
      if v != i {
        assert l[v] == lists[v];
      }
    }
    forall v: nat, w: nat
      ensures Edge(l, v, w) <==> if v == i then w in s else Edge(lists, v, w)
    {
      if v < |l| && v != i {
        assert l[v] == lists[v];
      }
    }
  }

  function Linked(lists: Lists, i: nat, j: nat): Lists
    requires i < |lists|
  {
    lists[i := lists[i] + [j]]
  }

  function Unlinked(lists: Lists, i: nat, j: nat): Lists
    requires Simple(lists) && i < |lists|
  {
    lists[i := Removed(lists[i], j)]
  }

  lemma LinkedEdges(lists: Lists, i: nat, j: nat)
    requires Simple(lists) && i < |lists| && j < |lists| && !Edge(lists, i, j)
    ensures Simple(Linked(lists, i, j))
    ensures forall v: nat, w: nat :: Edge(Linked(lists, i, j), v, w) <==> Edge(lists, v, w) || (v == i && w == j)
  {
    Relisted(lists, i, lists[i] + [j]);
    forall v: nat, w: nat
      ensures Edge(Linked(lists, i, j), v, w) <==> Edge(lists, v, w) || (v == i && w == j)
    {
      assert w in lists[i] + [j] <==> w in lists[i] || w == j;
    }
  }

  lemma UnlinkedEdges(lists: Lists, i: nat, j: nat)
    requires Simple(lists) && i < |lists|
    ensures Simple(Unlinked(lists, i, j)) && |Unlinked(lists, i, j)| == |lists|
    ensures forall v: nat, w: nat :: Edge(Unlinked(lists, i, j), v, w) <==> Edge(lists, v, w) && !(v == i && w == j)
  {
    var r := Removed(lists[i], j);
    forall k | 0 <= k < |r|
      ensures r[k] < |lists|
    {
      assert r[k] in lists[i];
    }
    Relisted(lists, i, r);
    forall v: nat, w: nat
      ensures Edge(Unlinked(lists, i, j), v, w) <==> Edge(lists, v, w) && !(v == i && w == j)
    {
      assert w in r <==> w in lists[i] && w != j;
    }
  }

  lemma ClearedEdges(lists: Lists, i: nat)
    requires Simple(lists) && i < |lists|
    ensures Simple(lists[i := []])
    ensures forall v: nat, w: nat :: Edge(lists[i := []], v, w) <==> Edge(lists, v, w) && v != i
  {
    var none: seq<nat> := [];
    assert AreNodes(|lists|, none) && NoDuplicates(none);
    Relisted(lists, i, none);
    forall v: nat, w: nat
      ensures Edge(lists[i := []], v, w) <==> Edge(lists, v, w) && v != i
    {
      assert w !in none;
    }
  }

  class SparseDiGraph {
    var succ: Lists
    var pred: Lists

    ghost predicate Valid()
      reads this
    {
      Simple(succ) && Simple(pred) && |succ| == |pred| && Mirror(succ, pred)
    }

    constructor (n: nat)
      ensures Valid() && |succ| == n && forall v: nat, w: nat :: !Edge(succ, v, w)
    {
      succ, pred := seq(n, _ => []), seq(n, _ => []);
    }

    method AddEdge(i: nat, j: nat)
      requires Valid() && i < |succ| && j < |succ|
      modifies this
      ensures Valid() && |succ| == |old(succ)|
      ensures forall v: nat, w: nat :: Edge(succ, v, w) <==> Edge(old(succ), v, w) || (v == i && w == j)
    {
      if j !in succ[i] {
        assert !Edge(succ, i, j) && !Edge(pred, j, i);
        LinkedEdges(succ, i, j);
        LinkedEdges(pred, j, i);
        succ, pred := Linked(succ, i, j), Linked(pred, j, i);
        forall v: nat, w: nat
          ensures Edge(succ, v, w) <==> Edge(pred, w, v)
        {
          assert Edge(old(succ), v, w) <==> Edge(old(pred), w, v);
        }
      }
    }

    method RemoveEdge(i: nat, j: nat)
      requires Valid() && Edge(succ, i, j)
      modifies this
      ensures Valid() && |succ| == |old(succ)|
      ensures forall v: nat, w: nat :: Edge(succ, v, w) <==> Edge(old(succ), v, w) && !(v == i && w == j)
    {
      assert Edge(pred, j, i);
      UnlinkedEdges(succ, i, j);
      UnlinkedEdges(pred, j, i);
      succ, pred := Unlinked(succ, i, j), Unlinked(pred, j, i);
      forall v: nat, w: nat
        ensures Edge(succ, v, w) <==> Edge(pred, w, v)
      {
        assert Edge(old(succ), v, w) <==> Edge(old(pred), w, v);
      }
    }

    /** Removes all edges of node i. */
    method RemoveNode(i: nat)
      requires Valid() && i < |succ| && !Edge(succ, i, i)
      modifies this
      ensures Valid() && |succ| == |old(succ)|
      ensures forall v: nat, w: nat :: Edge(succ, v, w) <==> Edge(old(succ), v, w) && v != i && w != i
    {
      var after, before := succ[i], pred[i];
      assert !Edge(pred, i, i);
      var k := 0;
      while k < |after|
        invariant 0 <= k <= |after| && Simple(pred) && |succ| == |pred| && succ == old(succ) && pred[i] == before
        invariant forall v: nat, w: nat :: Edge(pred, w, v) <==> Edge(old(pred), w, v) && !(v == i && w in after[..k])
      {
        assert Edge(succ, i, after[k]);
        UnlinkedEdges(pred, after[k], i);
        assert after[..k + 1] == after[..k] + [after[k]];
        pred := Unlinked(pred, after[k], i);
        k := k + 1;
      }
      assert after[..k] == after;
      ghost var cut := pred;
      k := 0;
      while k < |before|
        invariant 0 <= k <= |before| && Simple(succ) && |succ| == |old(succ)| && succ[i] == after && pred == cut
        invariant forall v: nat, w: nat :: Edge(succ, v, w) <==> Edge(old(succ), v, w) && !(w == i && v in before[..k])
      {
        assert Edge(old(pred), i, before[k]);
        UnlinkedEdges(succ, before[k], i);
        assert before[..k + 1] == before[..k] + [before[k]];
        succ := Unlinked(succ, before[k], i);
        k := k + 1;
      }
      assert before[..k] == before;
      ClearedEdges(pred, i);
      ClearedEdges(succ, i);
      succ, pred := succ[i := []], pred[i := []];
      forall v: nat, w: nat
        ensures Edge(succ, v, w) <==> Edge(old(succ), v, w) && v != i && w != i
        ensures Edge(pred, w, v) <==> Edge(old(succ), v, w) && v != i && w != i
      {
        assert Edge(old(succ), v, w) <==> Edge(old(pred), w, v);
      }
    }

    /** add_edges_from, for edges from i to all nodes of ks, or from all nodes of ks to i. */
    method AddEdges(i: nat, ks: seq<nat>, out: bool)
      requires Valid() && i < |succ| && AreNodes(|succ|, ks)
      modifies this
      ensures Valid() && |succ| == |old(succ)|
      ensures forall v: nat, w: nat ::
        Edge(succ, v, w) <==> Edge(old(succ), v, w) || (if out then v == i && w in ks else w == i && v in ks)
    {
      var k := 0;
      while k < |ks|
        invariant 0 <= k <= |ks| && Valid() && |succ| == |old(succ)|
        invariant forall v: nat, w: nat ::
          Edge(succ, v, w) <==>
            Edge(old(succ), v, w) || (if out then v == i && w in ks[..k] else w == i && v in ks[..k])
      {
        if out {
          AddEdge(i, ks[k]);
        } else {
          AddEdge(ks[k], i);
        }
        assert ks[..k + 1] == ks[..k] + [ks[k]];
        k := k + 1;
      }
      assert ks[..k] == ks;
    }

    /** merge_nodes of the allocator: node i takes over the edges of node j. */
    method MergeNodes(i: nat, j: nat)
      requires Valid() && i < |succ| && j < |succ| && i != j && !Edge(succ, j, j)
      modifies this
      ensures Valid() && |succ| == |old(succ)|
      ensures forall v: nat, w: nat :: Edge(succ, v, w) <==> Taken(old(succ), i, j, v, w)
    {
      if j in succ[i] {
        RemoveEdge(i, j);
      }
      if i in succ[j] {
        RemoveEdge(j, i);
      }
      ghost var cut := succ;
      var after, before := succ[j], pred[j];
      assert forall w: nat :: w in after <==> Edge(cut, j, w);
      assert forall v: nat :: v in before <==> Edge(pred, j, v);
      assert forall v: nat :: v in before <==> Edge(cut, v, j);
      AddEdges(i, after, true);
      AddEdges(i, before, false);
      assert !Edge(succ, j, j);
      RemoveNode(j);
    }
  }

  /** The edges when node i takes over those of node j. */
  predicate Taken(succ: Lists, i: nat, j: nat, v: nat, w: nat) {
    && v != j && w != j
    && (Edge(succ, v, w) || (v == i && w != i && Edge(succ, j, w)) || (w == i && v != i && Edge(succ, v, j)))
  }
}
