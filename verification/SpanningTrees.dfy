/** Edge-disjoint spanning trees by Kruskal's loop over randomly picked edges. */
module SpanningTrees {
  import opened Wrappers
  import opened FiniteSets
  import opened Digraphs
  import opened Topology
  import opened UnionFind

  ghost predicate EndsIn(V: set<Vertex>, es: set<Edge>) {
    forall e <- es :: e.v1 in V && e.v2 in V
  }

  /** `es` connects all vertices. */
  ghost predicate Connects(V: set<Vertex>, es: set<Edge>) {
    WeaklyConnected(V, Ends(es))
  }

  /** A connected graph with one edge fewer than vertices is a tree. */
  ghost predicate SpanningTree(V: set<Vertex>, T: set<Edge>) {
    EndsIn(V, T) && Connects(V, T) && |T| + 1 == |V|
  }

  lemma ConnectsMono(V: set<Vertex>, a: set<Edge>, b: set<Edge>)
    requires a <= b && Connects(V, a)
    ensures Connects(V, b)
  {
    EndsMono(a, b);
    forall x, y | x in V && y in V ensures Joined(Ends(b), x, y) {
      JoinedMono(Ends(a), Ends(b), x, y);
    }
  }

  // ---------- Sets and components ----------

  ghost function Roots(root: map<Vertex, Vertex>): set<Vertex> {
    set v <- root | root[v] == v
  }

  lemma MergeRootCount(V: set<Vertex>, s: State, root: map<Vertex, Vertex>, x: Vertex, y: Vertex, root': map<Vertex, Vertex>)
    requires Forest(V, s, root) && x in V && y in V && root[x] != root[y]
    requires root' == Merge(root, root[x], root[y], root[x]) || root' == Merge(root, root[y], root[x], root[y])
    ensures |Roots(root')| + 1 == |Roots(root)| && forall u, v | u in V && v in V && root[u] == root[v] :: root'[u] == root'[v]
    ensures root'[x] == root'[y]
  {
    NextUp(V, s, root, x);
    NextUp(V, s, root, y);
    var gone := if root' == Merge(root, root[x], root[y], root[x]) then root[y] else root[x];
    assert Roots(root) == Roots(root') + {gone};
  }

  /** The sets are exactly the components of the picked edges. */
  lemma SetsAreComponents(V: set<Vertex>, s: State, root: map<Vertex, Vertex>, picked: set<Edge>, u: Vertex, v: Vertex)
    requires Forest(V, s, root) && Spans(V, s, root, picked) && u in V && v in V
    ensures Joined(Ends(picked), u, v) <==> root[u] == root[v]
  {
    hide Joined;
    if root[u] == root[v] {
      SetJoined(V, s, root, picked, u);
      SetJoined(V, s, root, picked, v);
      JoinedSym(Ends(picked), root[u], u);
      JoinedTrans(Ends(picked), u, root[u], v);
    }
    if Joined(Ends(picked), u, v) {
      SameSetWhenJoined(V, root, picked, u, v);
    }
  }

  lemma SetJoined(V: set<Vertex>, s: State, root: map<Vertex, Vertex>, picked: set<Edge>, u: Vertex)
    requires Forest(V, s, root) && Spans(V, s, root, picked) && u in V
    ensures root[u] in V && Joined(Ends(picked), root[u], u) && Joined(Ends(s.es[root[u]]), root[u], u) && s.es[root[u]] <= picked
  {
    hide Joined, Ends;
    NextUp(V, s, root, u);
    assert SetEdges(s, root, root[u]) && u in Members(root, root[u]);
    EndsMono(s.es[root[u]], picked);
    JoinedMono(Ends(s.es[root[u]]), Ends(picked), root[u], u);
  }

  /** Edges that stay inside the sets join nothing across them. */
  lemma SameSetWhenJoined(V: set<Vertex>, root: map<Vertex, Vertex>, es: set<Edge>, u: Vertex, v: Vertex)
    requires root.Keys == V && u in V && EndsIn(V, es) && (forall e <- es :: root[e.v1] == root[e.v2]) && Joined(Ends(es), u, v)
    ensures v in V && root[u] == root[v]
  {
    hide Joined;
    SameWhenJoined(Ends(es), root, u, v);
  }

  // ---------- One tree ----------

  /** What the loop knows: the edges of `seen` have been looked at, those of `picked` taken. */
  ghost predicate Growing(V: set<Vertex>, s: State, root: map<Vertex, Vertex>, picked: set<Edge>, all: set<Edge>, eSet: set<Edge>) {
    && Forest(V, s, root) && Over(V, s, root) && Spans(V, s, root, picked) && |Roots(root)| + |picked| == |V|
    && picked <= all && eSet <= all && picked !! eSet && EndsIn(V, all) && forall e <- all - eSet :: root[e.v1] == root[e.v2]
  }

  lemma GrowingStarts(V: set<Vertex>, s: State, all: set<Edge>)
    requires EndsIn(V, all) && Forest(V, s, map v | v in V :: v) && Spans(V, s, map v | v in V :: v, {})
    ensures Growing(V, s, map v | v in V :: v, {}, all, all)
  {
    var root := map v | v in V :: v;
    assert Roots(root) == V;
  }

  lemma Skipped(V: set<Vertex>, s: State, root: map<Vertex, Vertex>, picked: set<Edge>, all: set<Edge>, eSet: set<Edge>, e: Edge)
    requires Growing(V, s, root, picked, all, eSet) && e in eSet && root[e.v1] == root[e.v2]
    ensures Growing(V, s, root, picked, all, eSet - {e})
  {
  }

  lemma Picked(V: set<Vertex>, s: State, root: map<Vertex, Vertex>, picked: set<Edge>, all: set<Edge>, eSet: set<Edge>, e: Edge,
               s': State, root': map<Vertex, Vertex>)
    requires Growing(V, s, root, picked, all, eSet) && e in eSet && root[e.v1] != root[e.v2]
    requires Forest(V, s', root') && Over(V, s', root') && Spans(V, s', root', picked + {e})
    requires root' == Merge(root, root[e.v1], root[e.v2], root[e.v1]) || root' == Merge(root, root[e.v2], root[e.v1], root[e.v2])
    ensures Growing(V, s', root', picked + {e}, all, eSet - {e})
  {
    hide Forest, Spans, Merge;
    MergeRootCount(V, s, root, e.v1, e.v2, root');
    assert |picked + {e}| == |picked| + 1;
  }

  /** One set is left: it has all the vertices, and its edges are those picked. */
  lemma AllInOne(V: set<Vertex>, s: State, root: map<Vertex, Vertex>, picked: set<Edge>, all: set<Edge>, eSet: set<Edge>, d: Vertex)
    requires Growing(V, s, root, picked, all, eSet) && |picked| + 1 == |V| && d in V
    ensures root[d] in s.es && s.es[root[d]] == picked && SpanningTree(V, picked) && Connects(V, all)
  {
    hide Joined, Ends;
    NextUp(V, s, root, d);
    assert root[d] in Roots(root);
    forall v <- V ensures root[v] == root[d] {
      NextUp(V, s, root, v);
      OnlyOne(Roots(root), root[d], root[v]);
    }
    var r := root[d];
    assert Members(root, r) == V;
    assert SetEdges(s, root, r);
    SubsetSize(s.es[r], picked);
    forall u, v | u in V && v in V ensures Joined(Ends(picked), u, v) {
      SetsAreComponents(V, s, root, picked, u, v);
    }
    ConnectsMono(V, picked, all);
  }

  lemma OnlyOne<T>(s: set<T>, x: T, y: T)
    requires |s| == 1 && x in s && y in s
    ensures x == y
  {
    SubsetSize({x}, s);
  }

  /** Several sets are left, and no edge leads from one to another: the edges do not connect the vertices. */
  lemma Apart(V: set<Vertex>, s: State, root: map<Vertex, Vertex>, picked: set<Edge>, all: set<Edge>)
    requires Growing(V, s, root, picked, all, {}) && |picked| + 1 < |V|
    ensures !Connects(V, all)
  {
    hide Joined, Forest, Spans;
    var u :| u in Roots(root);
    assert Roots(root) != {u};
    var v :| v in Roots(root) && v != u;
    if Connects(V, all) {
      SameSetWhenJoined(V, root, all, u, v);
    }
  }

  /** Picks an edge at random; up to five more picks if the one at hand has an end with more than two edges already. */
  method PickEdge(eSet: set<Edge>, edgesAtNode: map<Vertex, nat>) returns (e: Edge)
    requires eSet != {} && forall e <- eSet :: e.v1 in edgesAtNode && e.v2 in edgesAtNode
    ensures e in eSet
  {
    e :| e in eSet;
    var tryCount := 0;
    while (edgesAtNode[e.v1] > 2 || edgesAtNode[e.v2] > 2) && tryCount < 5
      invariant e in eSet && 0 <= tryCount <= 5
    {
      tryCount := tryCount + 1;
      e :| e in eSet;
    }
  }

  /**
   A spanning tree of the available edges, which are no longer available then; nothing exactly when they do not connect
   the vertices. Whatever edges are picked.
   */
  method EdstTree(V: set<Vertex>, dst: Option<Vertex>, availE: set<Edge>) returns (tree: Option<set<Edge>>, availE': set<Edge>)
    requires V != {} && EndsIn(V, availE) && (dst.Some? ==> dst.value in V)
    ensures tree.Some? <==> Connects(V, availE)
    ensures tree.Some? ==> SpanningTree(V, tree.value) && tree.value <= availE && availE' == availE - tree.value
    ensures availE' <= availE
  {
    hide Growing, Forest, Spans, Connects, SpanningTree, Merge;
    var djs;
    ghost var root;
    djs, root := StartSets(V, availE);
    var eSet, pickedE: set<Edge>, usedEdgeCount: nat := availE, {}, 0;
    var edgesAtNode: map<Vertex, nat> := map v | v in V :: 0;
    availE' := availE;
    while usedEdgeCount < |V| - 1 && eSet != {}
      invariant fresh(djs) && Growing(V, djs.Abs(), root, pickedE, availE, eSet)
      invariant usedEdgeCount == |pickedE| <= |V| - 1 && availE' == availE - pickedE && eSet <= availE && edgesAtNode.Keys == V
      decreases |eSet|
    {
      var e := PickEdge(eSet, edgesAtNode);
      EndsOfEdge(V, root, pickedE, availE, eSet, djs.Abs(), e);
      var used;
      used, root := Consider(V, djs, e, root, pickedE, availE, eSet);
      if used {
        availE' := availE' - {e};
        pickedE := pickedE + {e};
        usedEdgeCount := usedEdgeCount + 1;
        edgesAtNode := edgesAtNode[e.v1 := edgesAtNode[e.v1] + 1];
        edgesAtNode := edgesAtNode[e.v2 := edgesAtNode[e.v2] + 1];
      }
      SmallerWithout(eSet, e);
      eSet := eSet - {e};
    }
    if usedEdgeCount < |V| - 1 {
      Apart(V, djs.Abs(), root, pickedE, availE);
      return None, availE';
    }
    var d: Vertex :| d in V && (dst.Some? ==> d == dst.value);
    var treeE := TreeOf(V, djs, d, root, pickedE, availE, eSet);
    tree := Some(treeE);
  }

  method StartSets(V: set<Vertex>, ghost all: set<Edge>) returns (djs: DisjointSets, ghost root: map<Vertex, Vertex>)
    requires EndsIn(V, all)
    ensures fresh(djs) && Growing(V, djs.Abs(), root, {}, all, all)
  {
    hide Growing, Forest, Spans;
    djs := new DisjointSets(V);
    root := map v | v in V :: v;
    GrowingStarts(V, djs.Abs(), all);
  }

  /** Connects the ends of `e` if they are in different sets. */
  method Consider(V: set<Vertex>, djs: DisjointSets, e: Edge, ghost root: map<Vertex, Vertex>, ghost picked: set<Edge>, ghost all: set<Edge>, ghost eSet: set<Edge>)
    returns (used: bool, ghost root': map<Vertex, Vertex>)
    requires Growing(V, djs.Abs(), root, picked, all, eSet) && e in eSet && e.v1 in V && e.v2 in V && e !in picked
    modifies djs
    ensures Growing(V, djs.Abs(), root', if used then picked + {e} else picked, all, eSet - {e})
  {
    hide Growing, Forest, Spans, Merge;
    GrowingFacts(V, djs.Abs(), root, picked, all, eSet);
    var r1 := djs.FindKeeping(V, e.v1, root, picked);
    var r2 := djs.FindKeeping(V, e.v2, root, picked);
    OverKeys(V, djs.Abs(), root);
    StillGrowing(V, djs.Abs(), root, picked, all, eSet);
    used, root' := r1 != r2, root;
    if used {
      ghost var s := djs.Abs();
      root' := djs.Union(V, e.v1, e.v2, e, root, picked);
      OverKeys(V, djs.Abs(), root');
      Picked(V, s, root, picked, all, eSet, e, djs.Abs(), root');
    } else {
      Skipped(V, djs.Abs(), root, picked, all, eSet, e);
    }
  }

  /** The edges of the set of `d`, which is the only one. */
  method TreeOf(V: set<Vertex>, djs: DisjointSets, d: Vertex, ghost root: map<Vertex, Vertex>, ghost picked: set<Edge>, ghost all: set<Edge>, ghost eSet: set<Edge>)
    returns (treeE: set<Edge>)
    requires Growing(V, djs.Abs(), root, picked, all, eSet) && |picked| + 1 == |V| && d in V
    modifies djs
    ensures treeE == picked && treeE <= all && SpanningTree(V, treeE) && Connects(V, all)
  {
    hide Growing, Forest, Spans, SpanningTree, Connects;
    GrowingFacts(V, djs.Abs(), root, picked, all, eSet);
    var dstRoot := djs.FindKeeping(V, d, root, picked);
    OverKeys(V, djs.Abs(), root);
    StillGrowing(V, djs.Abs(), root, picked, all, eSet);
    AllInOne(V, djs.Abs(), root, picked, all, eSet, d);
    treeE := djs.es[dstRoot];
  }

  lemma EndsOfEdge(V: set<Vertex>, root: map<Vertex, Vertex>, picked: set<Edge>, all: set<Edge>, eSet: set<Edge>, s: State, e: Edge)
    requires Growing(V, s, root, picked, all, eSet) && e in eSet
    ensures e.v1 in V && e.v2 in V && e !in picked
  {
  }

  lemma SmallerWithout<T>(s: set<T>, x: T)
    requires x in s
    ensures |s - {x}| < |s|
  {
  }

  /** The parts of what the loop knows that do not depend on the sets' shape. */
  ghost predicate Counted(V: set<Vertex>, root: map<Vertex, Vertex>, picked: set<Edge>, all: set<Edge>, eSet: set<Edge>) {
    && root.Keys == V && |Roots(root)| + |picked| == |V| && picked <= all && eSet <= all && picked !! eSet && EndsIn(V, all)
    && forall e <- all - eSet :: root[e.v1] == root[e.v2]
  }

  lemma GrowingFacts(V: set<Vertex>, s: State, root: map<Vertex, Vertex>, picked: set<Edge>, all: set<Edge>, eSet: set<Edge>)
    requires Growing(V, s, root, picked, all, eSet)
    ensures Forest(V, s, root) && Over(V, s, root) && Spans(V, s, root, picked) && Counted(V, root, picked, all, eSet)
  {
  }

  lemma StillGrowing(V: set<Vertex>, s: State, root: map<Vertex, Vertex>, picked: set<Edge>, all: set<Edge>, eSet: set<Edge>)
    requires Forest(V, s, root) && Over(V, s, root) && Spans(V, s, root, picked) && Counted(V, root, picked, all, eSet)
    ensures Growing(V, s, root, picked, all, eSet)
  {
    hide Forest, Spans;
  }

  // ---------- The forest ----------

  ghost function AllEdges(forest: seq<set<Edge>>): set<Edge> {
    if forest == [] then {} else forest[0] + AllEdges(forest[1..])
  }

  lemma {:induction false} AllEdgesSnoc(forest: seq<set<Edge>>, T: set<Edge>)
    ensures AllEdges(forest + [T]) == AllEdges(forest) + T
  {
    if forest == [] {
      assert [T][1..] == [];
    } else {
      assert (forest + [T])[1..] == forest[1..] + [T];
      AllEdgesSnoc(forest[1..], T);
    }
  }

  lemma {:induction false} InAllEdges(forest: seq<set<Edge>>, k: nat)
    requires k < |forest|
    ensures forest[k] <= AllEdges(forest)
  {
    if k > 0 {
      InAllEdges(forest[1..], k - 1);
    }
  }

  /** Spanning trees of the graph, no two of which share an edge. */
  ghost predicate DisjointTrees(V: set<Vertex>, E: set<Edge>, forest: seq<set<Edge>>) {
    && (forall k | 0 <= k < |forest| :: SpanningTree(V, forest[k]) && forest[k] <= E)
    && (forall k, l | 0 <= k < l < |forest| :: forest[k] !! forest[l])
  }

  lemma TreeAdded(V: set<Vertex>, E: set<Edge>, forest: seq<set<Edge>>, T: set<Edge>, availE: set<Edge>)
    requires DisjointTrees(V, E, forest) && availE == E - AllEdges(forest) && SpanningTree(V, T) && T <= availE
    ensures DisjointTrees(V, E, forest + [T]) && availE - T == E - AllEdges(forest + [T])
  {
    hide SpanningTree;
    AllEdgesSnoc(forest, T);
    forall k | 0 <= k < |forest| ensures forest[k] !! T {
      InAllEdges(forest, k);
    }
  }

  /**
   Edge-disjoint spanning trees, one after the other. Unless the search is cut short, no further spanning tree fits
   beside them. With a single vertex every tree is empty, and the search goes on for ever unless it is cut short.
   */
  method EdstForest(V: set<Vertex>, dst: Option<Vertex>, E: set<Edge>, numTrees: nat, quitEarly: bool) returns (forest: seq<set<Edge>>)
    requires V != {} && EndsIn(V, E) && (dst.Some? ==> dst.value in V) && (|V| >= 2 || quitEarly)
    ensures DisjointTrees(V, E, forest)
    ensures quitEarly ==> |forest| <= numTrees
    ensures !quitEarly || |forest| < numTrees ==> !Connects(V, E - AllEdges(forest))
  {
    hide SpanningTree, Connects, AllEdges;
    forest := [];
    if quitEarly && numTrees == 0 {
      return;
    }
    var availE := E;
    var tree;
    NoTrees(E);
    tree, availE := EdstTree(V, dst, availE);
    ghost var left := E;
    while tree.Some?
      invariant DisjointTrees(V, E, forest) && left == E - AllEdges(forest) && EndsIn(V, left)
      invariant tree.Some? <==> Connects(V, left)
      invariant tree.Some? ==> SpanningTree(V, tree.value) && tree.value <= left && availE == left - tree.value
      invariant quitEarly ==> |forest| < numTrees
      decreases if |V| >= 2 then |left| else numTrees - |forest|, if tree.Some? then 1 else 0
    {
      TreeAdded(V, E, forest, tree.value, left);
      TreeHasEdges(V, tree.value, left);
      forest := forest + [tree.value];
      left := availE;
      if quitEarly && |forest| >= numTrees {
        break;
      }
      tree, availE := EdstTree(V, dst, availE);
    }
  }

  lemma NoTrees(E: set<Edge>)
    ensures E - AllEdges([]) == E
  {
  }

  lemma TreeHasEdges(V: set<Vertex>, T: set<Edge>, left: set<Edge>)
    requires SpanningTree(V, T) && T <= left && EndsIn(V, left)
    ensures EndsIn(V, left - T) && (|V| >= 2 ==> |left - T| < |left|)
  {
    if |V| >= 2 {
      var e :| e in T;
      SubsetSize(left - T, left - {e});
    }
  }

  /** No spanning tree at all fits into edges that do not connect the vertices. */
  lemma NoFurtherTree(V: set<Vertex>, left: set<Edge>, T: set<Edge>)
    requires !Connects(V, left) && T <= left
    ensures !SpanningTree(V, T)
  {
    if Connects(V, T) {
      ConnectsMono(V, T, left);
    }
  }

  /** With one vertex every set of edges connects: there is always another tree, so the search for them never stops. */
  lemma OneVertexAlwaysConnected(v: Vertex, left: set<Edge>)
    ensures Connects({v}, left) && SpanningTree({v}, {})
  {
  }
}
