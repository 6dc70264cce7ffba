/** The random acyclic first layer of a TTG: cycles of the complete graph are broken one arc at a time. */
module RandomDag {
  import opened Digraphs
  import opened CycleSearch
  import opened FiniteSets
  import Ttg

  // ---------- Breaking one cycle ----------

  /** From `E` to `E'` one arc of a cycle of `E` was removed. */
  ghost predicate BreaksCycle(E: Digraph, E': Digraph, cycle: seq<nat>) {
    ClosedPath(cycle) && IsWalk(E, cycle) && exists i | 0 <= i < |cycle| - 1 :: E' == E - {(cycle[i], cycle[i + 1])}
  }

  /** Removes one arc of the cycle; leaves the graph alone if an arc of the cycle is gone already. */
  method TtgRandBreakCycle(E: Digraph, cycle: seq<nat>) returns (E': Digraph)
    requires ClosedPath(cycle)
    ensures if IsWalk(E, cycle) then BreaksCycle(E, E', cycle) && |E'| < |E| else E' == E
  {
    var cycleEdges: seq<(nat, nat)> := [];
    for i := 0 to |cycle| - 1
      invariant |cycleEdges| == i && forall j | 0 <= j < i :: cycleEdges[j] == (cycle[j], cycle[j + 1]) && cycleEdges[j] in E
    {
      if (cycle[i], cycle[i + 1]) !in E {
        return E;
      }
      cycleEdges := cycleEdges + [(cycle[i], cycle[i + 1])];
    }
    var j :| 0 <= j < |cycleEdges|;
    E' := E - {cycleEdges[j]};
    assert IsWalk(E, cycle) && E' == E - {(cycle[j], cycle[j + 1])};
    assert E == E' + {cycleEdges[j]};
  }

  // ---------- One search ----------

  ghost predicate BreaksSome(E: Digraph, E': Digraph) {
    exists cycle :: BreaksCycle(E, E', cycle)
  }

  /** Every graph of the sequence is the one before without an arc of one of its cycles. */
  ghost predicate Breaking(trace: seq<Digraph>, E0: Digraph, E: Digraph) {
    && trace != [] && trace[0] == E0 && trace[|trace| - 1] == E
    && forall k | 0 <= k < |trace| - 1 :: BreaksSome(trace[k], trace[k + 1])
  }

  lemma BreakOneMore(trace: seq<Digraph>, E0: Digraph, E: Digraph, E': Digraph, cycle: seq<nat>)
    requires Breaking(trace, E0, E) && BreaksCycle(E, E', cycle)
    ensures Breaking(trace + [E'], E0, E') && E' <= E
  {
    hide BreaksCycle;
    SomeBroken(E, E', cycle);
    var t := trace + [E'];
    forall k | 0 <= k < |t| - 1 ensures BreaksSome(t[k], t[k + 1]) {
      assert k < |trace| - 1 ==> BreaksSome(trace[k], trace[k + 1]);
    }
  }

  lemma SomeBroken(E: Digraph, E': Digraph, cycle: seq<nat>)
    requires BreaksCycle(E, E', cycle)
    ensures BreaksSome(E, E') && E' <= E
  {
  }

  /** What the search may have done to the graph so far. */
  ghost predicate Thinned(E0: Digraph, E: Digraph, trace: seq<Digraph>) {
    E <= E0 && |E| <= |E0| && (|E| == |E0| ==> E == E0) && Breaking(trace, E0, E)
  }

  lemma NotThinned(E: Digraph)
    ensures Thinned(E, E, [E])
  {
  }

  /** Breaking a cycle that exists thins the graph; one that is broken already changes nothing. */
  method BreakAndTrace(ghost E0: Digraph, E: Digraph, cycle: seq<nat>, ghost trace: seq<Digraph>) returns (E': Digraph, ghost trace': seq<Digraph>)
    requires ClosedPath(cycle) && Thinned(E0, E, trace)
    ensures Thinned(E0, E', trace') && E' <= E && (E' == E0 ==> E == E0 && !IsWalk(E, cycle))
  {
    hide BreaksCycle, IsWalk, ClosedPath, Breaking;
    E' := TtgRandBreakCycle(E, cycle);
    trace' := trace;
    if IsWalk(E, cycle) {
      BreakOneMore(trace, E0, E, E', cycle);
      trace' := trace + [E'];
    }
  }

  /**
   One depth-first search that breaks every cycle it closes. If it leaves the graph as it was, there is no cycle.
   */
  method BreakPass(E0: Digraph, V: set<nat>) returns (E: Digraph, ghost trace: seq<Digraph>)
    requires Within(E0, V)
    ensures Thinned(E0, E, trace) && (E == E0 ==> Acyclic(E0))
  {
    hide Searching, Acyclic, Thinned, EntriesOk, EntryOk, Within;
    E, trace := E0, [E0];
    NotThinned(E0);
    var stack := Starts(V);
    var visited: set<nat> := {};
    ghost var open: seq<nat>, fin: seq<nat> := [], [];
    SearchStarts(E0, V, stack);
    StartsOk(V, stack);
    while stack != []
      invariant Thinned(E0, E, trace) && EntriesOk(V, stack, visited)
      invariant E == E0 ==> Searching(E0, V, stack, visited, open, fin, {})
      decreases |V - visited|, |stack|
    {
      var e := stack[|stack| - 1];
      EntriesVisit(V, stack, visited);
      if e.v in visited {
        if E == E0 {
          open, fin := DropTop(E0, V, stack, visited, open, fin);
        }
        stack := stack[..|stack| - 1];
      } else {
        var succ := Successors(E, e.v);
        if E == E0 {
          fin := OpenTop(E0, V, stack, visited, open, fin, succ);
        }
        open := e.pv;
        VisitShrinks(V, visited, e.v);
        visited := visited + {e.v};
        E, stack, trace := LookAtAll(E0, V, E, stack[..|stack| - 1], visited, e, fin, succ, trace);
      }
    }
    if E == E0 {
      SearchEnds(E0, V, visited, open, fin);
    }
  }

  /** Looks at the successors of the visited vertex in some order. */
  method LookAtAll(ghost E0: Digraph, V: set<nat>, E: Digraph, stack: seq<Entry>, visited: set<nat>, e: Entry, ghost fin: seq<nat>, succ: set<nat>,
                   ghost trace: seq<Digraph>)
    returns (E': Digraph, stack': seq<Entry>, ghost trace': seq<Digraph>)
    requires Within(E0, V) && Thinned(E0, E, trace) && EntriesOk(V, stack, visited) && EntryOk(V, e, visited)
    requires (forall x <- e.pv :: x in visited) && forall x <- succ :: (e.v, x) in E
    requires E == E0 ==> Searching(E0, V, stack, visited, e.pv, fin, succ)
    ensures Thinned(E0, E', trace') && EntriesOk(V, stack', visited)
    ensures E' == E0 ==> Searching(E0, V, stack', visited, e.pv, fin, {})
  {
    hide Searching, EntryOk, EntriesOk, IsWalk, Within, Thinned, ClosedPath;
    E', stack', trace' := E, stack, trace;
    SuccessorsWere(E0, E, trace, e.v, succ);
    var todo := succ;
    while todo != {}
      invariant todo <= succ && Thinned(E0, E', trace') && EntriesOk(V, stack', visited)
      invariant E' == E0 ==> Searching(E0, V, stack', visited, e.pv, fin, todo)
    {
      var iw :| iw in todo;
      if E' == E0 {
        LookAt(E0, V, stack', visited, e, fin, todo, iw);
      }
      todo := todo - {iw};
      if iw in e.pv {
        EntryCycle(V, e, visited, iw);
        E', trace' := BreakAndTrace(E0, E', CycleAt(e.pv, iw), trace');
      }
      if iw !in visited {
        EntriesPush(E0, V, stack', visited, e, iw);
        stack' := stack' + [Entry(iw, e.pv + [iw])];
      }
    }
  }

  lemma SuccessorsWere(E0: Digraph, E: Digraph, trace: seq<Digraph>, v: nat, succ: set<nat>)
    requires Thinned(E0, E, trace) && forall x <- succ :: (v, x) in E
    ensures forall x <- succ :: (v, x) in E0
  {
  }

  // ---------- Connected all the while ----------

  /** The rest of a cycle leads from the end of an arc back to its start. */
  lemma RestOfCycle(E: Digraph, cycle: seq<nat>, i: nat)
    requires ClosedPath(cycle) && IsWalk(E, cycle) && i < |cycle| - 1
    ensures Joined(E - {(cycle[i], cycle[i + 1])}, cycle[i + 1], cycle[i])
  {
    var n := |cycle| - 1;
    var a, b := cycle[i], cycle[i + 1];
    var E' := E - {(a, b)};
    var q := cycle[i + 1..] + cycle[1..i + 1];
    assert |q| == n && q[0] == b && q[n - 1] == a;
    forall k | 0 <= k < n - 1 ensures (q[k], q[k + 1]) in Both(E') {
      var j := if k < n - i - 1 then i + 1 + k else k - (n - i - 1);
      assert q[k] == cycle[j] && q[k + 1] == cycle[j + 1] && j != i && j < n;
      assert cycle[j] == cycle[..n][j] && cycle[i] == cycle[..n][i];
      assert (cycle[j], cycle[j + 1]) in E';
    }
    if n > 1 {
      assert WalkFromTo(Both(E'), b, a, q);
      assert Reaches(Both(E'), b, a);
    }
  }

  /** Joined vertices stay joined when the ends of every lost arc are. */
  lemma {:induction false} WalkStays(E: Digraph, E': Digraph, a: nat, b: nat, p: seq<nat>)
    requires E' == E - {(a, b)} && Joined(E', b, a) && p != [] && IsWalk(Both(E), p)
    ensures Joined(E', p[0], p[|p| - 1])
    decreases |p|
  {
    if |p| > 1 {
      var n := |p| - 1;
      WalkStays(E, E', a, b, p[..n]);
      JoinedSym(E', b, a);
      var x, y := p[n - 1], p[n];
      assert (x, y) in Both(E);
      if (x, y) in Both(E') {
        ArcReaches(Both(E'), x, y);
      }
      JoinedTrans(E', p[0], x, y);
    }
  }

  /** Breaking a cycle does not take the graph apart. */
  lemma BreakKeepsConnected(V: set<nat>, E: Digraph, E': Digraph)
    requires WeaklyConnected(V, E) && BreaksSome(E, E')
    ensures WeaklyConnected(V, E')
  {
    hide IsWalk, ClosedPath, Both;
    var cycle :| BreaksCycle(E, E', cycle);
    var i :| 0 <= i < |cycle| - 1 && E' == E - {(cycle[i], cycle[i + 1])};
    RestOfCycle(E, cycle, i);
    forall x, y | x in V && y in V ensures Joined(E', x, y) {
      assert Joined(E, x, y);
      if x != y {
        var p :| WalkFromTo(Both(E), x, y, p);
        WalkStays(E, E', cycle[i], cycle[i + 1], p);
      }
    }
  }

  lemma {:induction false} TraceKeepsConnected(V: set<nat>, trace: seq<Digraph>, E0: Digraph, E: Digraph)
    requires Breaking(trace, E0, E) && WeaklyConnected(V, E0)
    ensures WeaklyConnected(V, E)
    decreases |trace|
  {
    hide BreaksSome, WeaklyConnected;
    if |trace| > 1 {
      var n := |trace| - 1;
      assert BreaksSome(trace[n - 1], trace[n]);
      TraceKeepsConnected(V, trace[..n], E0, trace[n - 1]);
      BreakKeepsConnected(V, trace[n - 1], E);
    }
  }

  // ---------- The whole graph ----------

  /** All arcs between the first `n` trees. */
  function Full(n: nat): Digraph {
    set i, j | i in Below(n) && j in Below(n) && i != j :: (i, j)
  }

  lemma FullIsConnected(n: nat)
    ensures WeaklyConnected(Below(n), Full(n)) && Within(Full(n), Below(n))
  {
    forall a, b | a in Below(n) && b in Below(n) ensures Joined(Full(n), a, b) {
      if a != b {
        assert (a, b) in Full(n);
        ArcReaches(Both(Full(n)), a, b);
      }
    }
  }

  lemma JoinTraces(a: seq<Digraph>, b: seq<Digraph>, E0: Digraph, E1: Digraph, E2: Digraph)
    requires Breaking(a, E0, E1) && Breaking(b, E1, E2)
    ensures b != [] && Breaking(a + b[1..], E0, E2)
  {
    hide BreaksSome;
    var t := a + b[1..];
    forall k | 0 <= k < |t| - 1 ensures BreaksSome(t[k], t[k + 1]) {
      if k < |a| - 1 {
        assert BreaksSome(a[k], a[k + 1]);
      } else {
        var j := k - (|a| - 1);
        assert BreaksSome(b[j], b[j + 1]) && t[k] == b[j] && t[k + 1] == b[j + 1];
      }
    }
  }

  /**
   Breaks cycles of the complete graph until there are none: the result is acyclic, still weakly connected, and lost
   only arcs that were on a cycle when they were removed. `isDag` is the library's test.
   */
  method TtgRandDagHelper(n: nat, isDag: Digraph -> bool) returns (E: Digraph, ghost trace: seq<Digraph>)
    requires forall X :: isDag(X) <==> Acyclic(X)
    ensures Acyclic(E) && WeaklyConnected(Below(n), E) && E <= Full(n) && Within(E, Below(n))
    ensures Breaking(trace, Full(n), E)
  {
    hide Acyclic, WeaklyConnected, Full, Below, Breaking;
    E := Full(n);
    NotThinned(E);
    FullIsConnected(n);
    trace := [E];
    while !isDag(E)
      invariant E <= Full(n) && Within(E, Below(n)) && Breaking(trace, Full(n), E)
      decreases |E|
    {
      ghost var before, more := E, [];
      E, more := BreakPass(E, Below(n));
      JoinTraces(trace, more, Full(n), before, E);
      trace := trace + more[1..];
    }
    TraceKeepsConnected(Below(n), trace, Full(n), E);
  }

  /** An acyclic graph over `0..k`, still connected, that is left when arcs of cycles are taken out one by one. */
  ghost predicate RandomFirst(k: nat, first: Digraph, trace: seq<Digraph>) {
    Acyclic(first) && WeaklyConnected(Below(k), first) && Breaking(trace, Full(k), first)
  }

  /** The random TTG: a random acyclic first layer, still connected, and `randRes` trees in a line behind it. */
  method TtgRandDag(n: nat, randRes: nat, isDag: Digraph -> bool)
    returns (t: Ttg.Graph, ghost level: seq<nat>, ghost L: nat, ghost first: Digraph, ghost trace: seq<Digraph>)
    requires randRes < n && forall X :: isDag(X) <==> Acyclic(X)
    ensures t.n == n && Ttg.GoodTtg(t, level, L) && L == randRes + 1
    ensures t.l1 == Ttg.Range(0, n - randRes) && Ttg.RandMaxLevels(n, randRes, level)
    ensures RandomFirst(n - randRes, first, trace) && Ttg.ChainBehind(first, t.E, n - randRes, n)
  {
    hide Acyclic, WeaklyConnected, Full, Ttg.Tiered, Ttg.ChainBehind, Breaking;
    var sub;
    sub, trace := TtgRandDagHelper(n - randRes, isDag);
    first := sub;
    assert forall a, b | (a, b) in sub :: a in Below(n - randRes) && b in Below(n - randRes);
    t, level, L := Ttg.TtgRandMaxDag(n, randRes, sub);
  }
}
