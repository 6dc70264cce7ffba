/**
 Depth-first search with an explicit stack of parent paths. A search that closes no path to a cycle proves that there
 is none.
 */
module CycleSearch {
  import opened Wrappers
  import opened Digraphs
  import opened FiniteSets

  /** A vertex to visit, and the path by which it was found, which ends in it. */
  datatype Entry = Entry(v: nat, pv: seq<nat>)

  /** `x` is on the stack as a successor of the last of `depth` open vertices. */
  ghost predicate Pending(stack: seq<Entry>, x: nat, depth: nat) {
    exists k | 0 <= k < |stack| :: stack[k].v == x && |stack[k].pv| == depth + 1
  }

  /** The entry continues the open path. */
  ghost predicate Continues(E: Digraph, V: set<nat>, open: seq<nat>, e: Entry) {
    && e.v in V && 1 <= |e.pv| <= |open| + 1 && e.pv == open[..|e.pv| - 1] + [e.v] && e.v !in open[..|e.pv| - 1]
    && (|e.pv| > 1 ==> (open[|e.pv| - 2], e.v) in E)
  }

  ghost predicate StackOk(E: Digraph, V: set<nat>, open: seq<nat>, stack: seq<Entry>) {
    && (forall k | 0 <= k < |stack| :: Continues(E, V, open, stack[k]))
    && (forall k, l | 0 <= k < l < |stack| :: |stack[k].pv| <= |stack[l].pv|)
  }

  /** All successors of a closed vertex closed before it. */
  ghost predicate ClosedOk(E: Digraph, fin: seq<nat>) {
    forall a, x | 0 <= a < |fin| && (fin[a], x) in E :: x in fin[..a]
  }

  /** What became of the successor `x` of the open vertex at `i`. */
  ghost predicate Reached(open: seq<nat>, stack: seq<Entry>, fin: seq<nat>, i: nat, x: nat) {
    x in fin || (i < |open| && x in open[i + 1..]) || Pending(stack, x, i + 1)
  }

  /** `rest` are the successors of the last open vertex that are not looked at yet. */
  ghost predicate OpenOk(E: Digraph, open: seq<nat>, stack: seq<Entry>, fin: seq<nat>, rest: set<nat>) {
    forall i, x | 0 <= i < |open| && (open[i], x) in E :: Reached(open, stack, fin, i, x) || (i == |open| - 1 && x in rest)
  }

  ghost predicate AllSeen(V: set<nat>, stack: seq<Entry>, visited: set<nat>) {
    forall x <- V :: x in visited || Pending(stack, x, 0)
  }

  /** The state of a search that has not closed a path yet. */
  ghost predicate Searching(E: Digraph, V: set<nat>, stack: seq<Entry>, visited: set<nat>, open: seq<nat>, fin: seq<nat>, rest: set<nat>) {
    && NoDup(open) && NoDup(fin) && IsWalk(E, open) && (forall x <- open :: x !in fin)
    && (forall x :: x in visited <==> x in open || x in fin) && visited <= V
    && StackOk(E, V, open, stack) && ClosedOk(E, fin) && OpenOk(E, open, stack, fin, rest) && AllSeen(V, stack, visited)
  }

  ghost predicate Within(E: Digraph, V: set<nat>) {
    forall a, b | (a, b) in E :: a in V && b in V
  }

  // ---------- Steps ----------

  /** Nothing on the stack continues the last open vertex: it closes. */
  lemma CloseOne(E: Digraph, V: set<nat>, stack: seq<Entry>, visited: set<nat>, open: seq<nat>, fin: seq<nat>)
    requires Searching(E, V, stack, visited, open, fin, {}) && open != []
    requires forall k | 0 <= k < |stack| :: |stack[k].pv| <= |open|
    ensures Searching(E, V, stack, visited, open[..|open| - 1], fin + [open[|open| - 1]], {})
  {
    var n := |open| - 1;
    var open', fin' := open[..n], fin + [open[n]];
    assert open == open' + [open[n]];
    CloseOpenOk(E, stack, open, fin);
    assert ClosedOk(E, fin') by {
      forall a, x | 0 <= a < |fin'| && (fin'[a], x) in E ensures x in fin'[..a] {
        if a == |fin| {
          assert Reached(open, stack, fin, n, x) && open[n + 1..] == [];
          assert fin'[..a] == fin;
        } else {
          assert fin'[..a] == fin[..a];
        }
      }
    }
    assert open[n] in open && open[n] !in fin;
    forall x <- open' ensures x !in fin' && x in open {
      var i :| 0 <= i < n && open'[i] == x;
      assert open[i] == x;
    }
    assert StackOk(E, V, open', stack) by {
      forall k | 0 <= k < |stack| ensures Continues(E, V, open', stack[k]) {
        assert Continues(E, V, open, stack[k]);
        assert open'[..|stack[k].pv| - 1] == open[..|stack[k].pv| - 1];
      }
    }
  }

  lemma CloseOpenOk(E: Digraph, stack: seq<Entry>, open: seq<nat>, fin: seq<nat>)
    requires OpenOk(E, open, stack, fin, {}) && open != []
    ensures OpenOk(E, open[..|open| - 1], stack, fin + [open[|open| - 1]], {})
  {
    var n := |open| - 1;
    var open', fin' := open[..n], fin + [open[n]];
    forall i, x | 0 <= i < n && (open'[i], x) in E ensures Reached(open', stack, fin', i, x) {
      assert Reached(open, stack, fin, i, x);
      if x in open[i + 1..] && x != open[n] {
        assert open[i + 1..] == open'[i + 1..] + [open[n]];
      }
    }
  }

  /** Closes vertices until the open path has `m` vertices. */
  lemma {:induction false} CloseTo(E: Digraph, V: set<nat>, stack: seq<Entry>, visited: set<nat>, open: seq<nat>, fin: seq<nat>, m: nat)
    returns (fin': seq<nat>)
    requires Searching(E, V, stack, visited, open, fin, {}) && m <= |open|
    requires forall k | 0 <= k < |stack| :: |stack[k].pv| <= m + 1
    ensures Searching(E, V, stack, visited, open[..m], fin', {})
    decreases |open|
  {
    if m == |open| {
      fin' := fin;
      assert open[..m] == open;
    } else {
      var n := |open| - 1;
      CloseOne(E, V, stack, visited, open, fin);
      fin' := CloseTo(E, V, stack, visited, open[..n], fin + [open[n]], m);
      assert open[..n][..m] == open[..m];
    }
  }

  /** The entry on top of the stack, taken off, is visited already: its vertex closed before. */
  lemma PopVisited(E: Digraph, V: set<nat>, stack: seq<Entry>, visited: set<nat>, open: seq<nat>, fin: seq<nat>)
    requires stack != [] && Searching(E, V, stack, visited, open, fin, {})
    requires |stack[|stack| - 1].pv| == |open| + 1 && stack[|stack| - 1].v in visited
    ensures Searching(E, V, stack[..|stack| - 1], visited, open, fin, {})
  {
    var n := |stack| - 1;
    var e, stack' := stack[n], stack[..n];
    assert Continues(E, V, open, e) && open[..|open|] == open;
    assert e.v in fin;
    assert OpenOk(E, open, stack', fin, {}) by {
      forall i, x | 0 <= i < |open| && (open[i], x) in E ensures Reached(open, stack', fin, i, x) {
        assert Reached(open, stack, fin, i, x);
        StillPending(stack, x, i + 1);
      }
    }
    assert AllSeen(V, stack', visited) by {
      forall x <- V ensures x in visited || Pending(stack', x, 0) {
        StillPending(stack, x, 0);
      }
    }
  }

  lemma StillPending(stack: seq<Entry>, x: nat, depth: nat)
    requires stack != []
    ensures Pending(stack, x, depth) ==>
      Pending(stack[..|stack| - 1], x, depth) || (stack[|stack| - 1].v == x && |stack[|stack| - 1].pv| == depth + 1)
  {
    if Pending(stack, x, depth) {
      var k :| 0 <= k < |stack| && stack[k].v == x && |stack[k].pv| == depth + 1;
      if k < |stack| - 1 {
        assert stack[..|stack| - 1][k].v == x;
      }
    }
  }

  /** The entry on top of the stack is new: its vertex opens, and its successors are to be looked at. */
  lemma PopFresh(E: Digraph, V: set<nat>, stack: seq<Entry>, visited: set<nat>, open: seq<nat>, fin: seq<nat>, succ: set<nat>)
    requires stack != [] && Searching(E, V, stack, visited, open, fin, {})
    requires |stack[|stack| - 1].pv| == |open| + 1 && stack[|stack| - 1].v !in visited
    requires forall x :: (stack[|stack| - 1].v, x) in E ==> x in succ
    ensures var e := stack[|stack| - 1];
      e.pv == open + [e.v] && Searching(E, V, stack[..|stack| - 1], visited + {e.v}, e.pv, fin, succ)
  {
    var n := |stack| - 1;
    var e, stack' := stack[n], stack[..n];
    assert Continues(E, V, open, e) && open[..|open|] == open;
    var open' := open + [e.v];
    assert OpenOk(E, open', stack', fin, succ) by {
      hide ClosedOk, AllSeen, NoDup, IsWalk, Pending;
      FreshOpen(E, stack, open, fin, succ);
    }
    assert AllSeen(V, stack', visited + {e.v}) by {
      hide OpenOk, StackOk, ClosedOk, NoDup, IsWalk, Pending;
      forall x <- V ensures x in visited + {e.v} || Pending(stack', x, 0) {
        StillPending(stack, x, 0);
      }
    }
    assert StackOk(E, V, open', stack') by {
      hide OpenOk, ClosedOk, AllSeen, NoDup, IsWalk;
      FreshStack(E, V, stack, open);
    }
    hide OpenOk, StackOk, ClosedOk, AllSeen;
    assert forall x :: x in open' <==> x in open || x == e.v;
  }

  lemma FreshOpen(E: Digraph, stack: seq<Entry>, open: seq<nat>, fin: seq<nat>, succ: set<nat>)
    requires stack != [] && OpenOk(E, open, stack, fin, {}) && |stack[|stack| - 1].pv| == |open| + 1
    requires forall x :: (stack[|stack| - 1].v, x) in E ==> x in succ
    ensures OpenOk(E, open + [stack[|stack| - 1].v], stack[..|stack| - 1], fin, succ)
  {
    hide Pending;
    var n := |stack| - 1;
    var e, stack' := stack[n], stack[..n];
    var open' := open + [e.v];
    forall i, x | 0 <= i < |open| && (open'[i], x) in E ensures Reached(open', stack', fin, i, x) {
      assert Reached(open, stack, fin, i, x);
      StillPending(stack, x, i + 1);
      assert open'[i + 1..] == open[i + 1..] + [e.v];
    }
  }

  lemma FreshStack(E: Digraph, V: set<nat>, stack: seq<Entry>, open: seq<nat>)
    requires stack != [] && StackOk(E, V, open, stack) && |stack[|stack| - 1].pv| == |open| + 1
    ensures StackOk(E, V, open + [stack[|stack| - 1].v], stack[..|stack| - 1])
  {
    var n := |stack| - 1;
    var e, stack' := stack[n], stack[..n];
    var open' := open + [e.v];
    forall k | 0 <= k < |stack'| ensures Continues(E, V, open', stack'[k]) {
      assert Continues(E, V, open, stack[k]) && |stack[k].pv| <= |stack[n].pv|;
      assert open'[..|stack[k].pv| - 1] == open[..|stack[k].pv| - 1];
    }
  }

  /** A successor that is visited but not on the path has closed. */
  lemma SkipSuccessor(E: Digraph, V: set<nat>, stack: seq<Entry>, visited: set<nat>, open: seq<nat>, fin: seq<nat>, rest: set<nat>, x: nat)
    requires Searching(E, V, stack, visited, open, fin, rest) && x in visited && x !in open
    ensures Searching(E, V, stack, visited, open, fin, rest - {x})
  {
    assert x in fin;
    forall i, y | 0 <= i < |open| && (open[i], y) in E ensures Reached(open, stack, fin, i, y) || (i == |open| - 1 && y in rest - {x}) {
      assert Reached(open, stack, fin, i, y) || (i == |open| - 1 && y in rest);
    }
  }

  /** A successor that is not visited goes on the stack. */
  lemma PushSuccessor(E: Digraph, V: set<nat>, stack: seq<Entry>, visited: set<nat>, open: seq<nat>, fin: seq<nat>, rest: set<nat>, x: nat)
    requires Searching(E, V, stack, visited, open, fin, rest) && x !in visited && open != [] && (open[|open| - 1], x) in E && x in V
    ensures Searching(E, V, stack + [Entry(x, open + [x])], visited, open, fin, rest - {x})
  {
    var e := Entry(x, open + [x]);
    var stack' := stack + [e];
    assert open[..|open|] == open && Continues(E, V, open, e);
    forall d: nat, y | Pending(stack, y, d) ensures Pending(stack', y, d) {
      var k :| 0 <= k < |stack| && stack[k].v == y && |stack[k].pv| == d + 1;
      assert stack'[k].v == y;
    }
    assert Pending(stack', x, |open|) by {
      assert stack'[|stack|] == e;
    }
    assert OpenOk(E, open, stack', fin, rest - {x}) by {
      forall i, y | 0 <= i < |open| && (open[i], y) in E ensures Reached(open, stack', fin, i, y) || (i == |open| - 1 && y in rest - {x}) {
        assert Reached(open, stack, fin, i, y) || (i == |open| - 1 && y in rest);
      }
    }
  }

  /** The search starts with every vertex on the stack. */
  lemma SearchStarts(E: Digraph, V: set<nat>, stack: seq<Entry>)
    requires (forall k | 0 <= k < |stack| :: stack[k].v in V && stack[k].pv == [stack[k].v])
    requires forall x <- V :: exists k | 0 <= k < |stack| :: stack[k].v == x
    ensures Searching(E, V, stack, {}, [], [], {})
  {
    forall x <- V ensures Pending(stack, x, 0) {
      var k :| 0 <= k < |stack| && stack[k].v == x;
    }
  }

  function Place(s: seq<nat>, x: nat): (i: nat)
    ensures i <= |s| && (x in s <==> i < |s|) && (i < |s| ==> s[i] == x)
    ensures forall k | 0 <= k < i :: s[k] != x
  {
    if s == [] || s[0] == x then 0 else Place(s[1..], x) + 1
  }

  /** The search is over and no path was closed to a cycle: the order of closing sorts the graph. */
  lemma SearchEnds(E: Digraph, V: set<nat>, visited: set<nat>, open: seq<nat>, fin: seq<nat>)
    requires Searching(E, V, [], visited, open, fin, {}) && Within(E, V)
    ensures Acyclic(E)
  {
    var f := CloseTo(E, V, [], visited, open, fin, 0);
    assert open[..0] == [];
    forall a, b | (a, b) in E ensures -(Place(f, a) as int) < -(Place(f, b) as int) {
      assert a in visited && a in f;
      var i := Place(f, a);
      assert b in f[..i];
      var j :| 0 <= j < i && f[j] == b;
    }
    RankedIsAcyclic(E, (x: nat) => -(Place(f, x) as int));
  }

  // ---------- Paths that close ----------

  /** The cycle that the successor `w` of the last vertex of `pv` closes. */
  function CycleAt(pv: seq<nat>, w: nat): seq<nat>
    requires w in pv
  {
    pv[Place(pv, w)..] + [w]
  }

  ghost predicate ClosedPath(cycle: seq<nat>) {
    |cycle| >= 2 && cycle[0] == cycle[|cycle| - 1] && NoDup(cycle[..|cycle| - 1])
  }

  lemma CycleIsClosed(pv: seq<nat>, w: nat)
    requires NoDup(pv) && w in pv
    ensures ClosedPath(CycleAt(pv, w))
  {
    assert CycleAt(pv, w)[..|CycleAt(pv, w)| - 1] == pv[Place(pv, w)..];
  }

  /** As long as nothing was removed, a path that closes is a cycle of the graph. */
  lemma CycleExists(E: Digraph, V: set<nat>, stack: seq<Entry>, visited: set<nat>, open: seq<nat>, fin: seq<nat>, rest: set<nat>, w: nat)
    requires Searching(E, V, stack, visited, open, fin, rest) && w in open && (open[|open| - 1], w) in E
    ensures IsWalk(E, CycleAt(open, w))
  {
    var i := Place(open, w);
    var c := CycleAt(open, w);
    forall k | 0 <= k < |c| - 1 ensures (c[k], c[k + 1]) in E {
      assert c[k] == open[i + k];
      if k < |c| - 2 {
        assert c[k + 1] == open[i + k + 1];
      }
    }
  }

  /** The elements of a set, in some order. */
  method Shuffled(s: set<nat>) returns (order: seq<nat>)
    ensures |order| == |s| && (forall x :: x in order <==> x in s) && NoDup(order)
  {
    order := [];
    var todo := s;
    while todo != {}
      invariant todo <= s && |order| + |todo| == |s| && (forall x :: x in order <==> x in s - todo) && NoDup(order)
    {
      var x :| x in todo;
      order := order + [x];
      todo := todo - {x};
    }
  }

  /** Every vertex as a start. */
  method Starts(V: set<nat>) returns (stack: seq<Entry>)
    ensures |stack| == |V| && forall k | 0 <= k < |stack| :: stack[k].v in V && stack[k].pv == [stack[k].v]
    ensures forall x <- V :: exists k | 0 <= k < |stack| :: stack[k].v == x
  {
    var ivs := Shuffled(V);
    stack := seq(|ivs|, k requires 0 <= k < |ivs| => Entry(ivs[k], [ivs[k]]));
    forall k | 0 <= k < |stack| ensures stack[k].v in V && stack[k].pv == [stack[k].v] {
      assert ivs[k] in ivs;
    }
    forall x <- V ensures exists k | 0 <= k < |stack| :: stack[k].v == x {
      assert x in ivs;
      var k :| 0 <= k < |ivs| && ivs[k] == x;
      assert stack[k].v == x;
    }
  }

  /** What a stack entry looks like, whatever was removed: all of its path but its own vertex is visited. */
  ghost predicate EntryOk(V: set<nat>, e: Entry, visited: set<nat>) {
    && e.v in V && e.pv != [] && e.pv[|e.pv| - 1] == e.v && NoDup(e.pv)
    && forall i | 0 <= i < |e.pv| - 1 :: e.pv[i] in visited
  }

  ghost predicate EntriesOk(V: set<nat>, stack: seq<Entry>, visited: set<nat>) {
    forall k | 0 <= k < |stack| :: EntryOk(V, stack[k], visited)
  }

  lemma StartsOk(V: set<nat>, stack: seq<Entry>)
    requires forall k | 0 <= k < |stack| :: stack[k].v in V && stack[k].pv == [stack[k].v]
    ensures EntriesOk(V, stack, {})
  {
  }

  /** Taking the top entry off, and visiting its vertex. */
  lemma EntriesVisit(V: set<nat>, stack: seq<Entry>, visited: set<nat>)
    requires EntriesOk(V, stack, visited) && stack != []
    ensures var e := stack[|stack| - 1];
      && EntryOk(V, e, visited + {e.v}) && e.v in V && (forall x <- e.pv :: x in visited + {e.v})
      && EntriesOk(V, stack[..|stack| - 1], visited) && EntriesOk(V, stack[..|stack| - 1], visited + {e.v})
  {
    hide NoDup;
    var e := stack[|stack| - 1];
    assert EntryOk(V, e, visited);
    forall k | 0 <= k < |stack| - 1 ensures EntryOk(V, stack[k], visited) && EntryOk(V, stack[k], visited + {e.v}) {
      assert EntryOk(V, stack[k], visited);
    }
    forall x <- e.pv ensures x in visited + {e.v} {
      var i :| 0 <= i < |e.pv| && e.pv[i] == x;
    }
  }

  lemma EntriesPush(E: Digraph, V: set<nat>, stack: seq<Entry>, visited: set<nat>, e: Entry, x: nat)
    requires EntriesOk(V, stack, visited) && EntryOk(V, e, visited) && (forall y <- e.pv :: y in visited)
    requires (e.v, x) in E && Within(E, V) && x !in visited
    ensures EntriesOk(V, stack + [Entry(x, e.pv + [x])], visited)
  {
  }

  lemma EntryCycle(V: set<nat>, e: Entry, visited: set<nat>, w: nat)
    requires EntryOk(V, e, visited) && w in e.pv
    ensures ClosedPath(CycleAt(e.pv, w))
  {
    CycleIsClosed(e.pv, w);
  }

  lemma VisitShrinks(V: set<nat>, visited: set<nat>, v: nat)
    requires v in V && v !in visited
    ensures |V - (visited + {v})| < |V - visited|
  {
    SubsetSize(V - (visited + {v}), V - visited - {v});
  }

  method Successors(E: Digraph, v: nat) returns (succ: set<nat>)
    ensures forall x :: x in succ <==> (v, x) in E
  {
    succ := set x | x in E && x.0 == v :: x.1;
    forall x | (v, x) in E ensures x in succ {
      assert (v, x).0 == v;
    }
  }

  /** The open path and the closed vertices when the top entry, which is visited already, is dropped. */
  lemma DropTop(E: Digraph, V: set<nat>, stack: seq<Entry>, visited: set<nat>, open: seq<nat>, fin: seq<nat>) returns (open': seq<nat>, fin': seq<nat>)
    requires stack != [] && Searching(E, V, stack, visited, open, fin, {}) && stack[|stack| - 1].v in visited
    ensures Searching(E, V, stack[..|stack| - 1], visited, open', fin', {})
  {
    hide ClosedOk, OpenOk, AllSeen;
    var e := stack[|stack| - 1];
    assert Continues(E, V, open, e);
    fin' := CloseTo(E, V, stack, visited, open, fin, |e.pv| - 1);
    open' := open[..|e.pv| - 1];
    PopVisited(E, V, stack, visited, open', fin');
  }

  /** The closed vertices when the top entry is new. */
  lemma OpenTop(E: Digraph, V: set<nat>, stack: seq<Entry>, visited: set<nat>, open: seq<nat>, fin: seq<nat>, succ: set<nat>) returns (fin': seq<nat>)
    requires stack != [] && Searching(E, V, stack, visited, open, fin, {}) && stack[|stack| - 1].v !in visited
    requires forall x :: (stack[|stack| - 1].v, x) in E ==> x in succ
    ensures var e := stack[|stack| - 1]; Searching(E, V, stack[..|stack| - 1], visited + {e.v}, e.pv, fin', succ)
  {
    hide ClosedOk, OpenOk, AllSeen;
    var e := stack[|stack| - 1];
    assert Continues(E, V, open, e);
    fin' := CloseTo(E, V, stack, visited, open, fin, |e.pv| - 1);
    PopFresh(E, V, stack, visited, open[..|e.pv| - 1], fin', succ);
  }

  /** One successor of the visited vertex: it closes a path, or has closed, or goes on the stack. */
  lemma LookAt(E: Digraph, V: set<nat>, stack: seq<Entry>, visited: set<nat>, e: Entry, fin: seq<nat>, todo: set<nat>, x: nat)
    requires Searching(E, V, stack, visited, e.pv, fin, todo) && EntryOk(V, e, visited) && (e.v, x) in E && Within(E, V)
    ensures x in e.pv ==> IsWalk(E, CycleAt(e.pv, x))
    ensures x !in e.pv && x in visited ==> Searching(E, V, stack, visited, e.pv, fin, todo - {x})
    ensures x !in e.pv && x !in visited ==> Searching(E, V, stack + [Entry(x, e.pv + [x])], visited, e.pv, fin, todo - {x})
  {
    hide Searching;
    if x in e.pv {
      CycleExists(E, V, stack, visited, e.pv, fin, todo, x);
    } else if x in visited {
      SkipSuccessor(E, V, stack, visited, e.pv, fin, todo, x);
    } else {
      PushSuccessor(E, V, stack, visited, e.pv, fin, todo, x);
    }
  }
}
