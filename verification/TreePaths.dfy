/** Routing trees of one destination: the first hops of shortest paths inside a set of arcs. */
module TreePaths {
  import opened FiniteSets
  import opened Topology

  /** The arc `(v, e)` is edge `e` taken away from switch `v`. */
  type Arc = (Vertex, Edge)

  /** A tree of a forest, and for every switch its path to the destination inside the tree. */
  datatype Tree = Tree(arcs: set<Arc>, paths: map<Vertex, seq<Port>>)

  /** `hops` leads from `v` to `d` along `arcs` only. */
  ghost predicate PathIn(g: Graph, arcs: set<Arc>, v: Vertex, d: Vertex, hops: seq<Port>)
    requires WellFormed(g)
    decreases |hops|
  {
    if hops == [] then v == d
    else (v, hops[0]) in g.ports && (v, g.ports[(v, hops[0])]) in arcs && PathIn(g, arcs, Far(g, v, hops[0]).0, d, hops[1..])
  }

  ghost predicate ShortestIn(g: Graph, arcs: set<Arc>, v: Vertex, d: Vertex, hops: seq<Port>)
    requires WellFormed(g)
  {
    PathIn(g, arcs, v, d, hops) && forall other :: PathIn(g, arcs, v, d, other) ==> |hops| <= |other|
  }

  /** Every switch has a path, and it is a shortest one inside the tree (the shortest-path library's answer). */
  ghost predicate GoodTree(g: Graph, dst: Vertex, t: Tree)
    requires WellFormed(g)
  {
    dst in g.V && forall v <- g.V :: v in t.paths && ShortestIn(g, t.arcs, v, dst, t.paths[v])
  }

  ghost predicate GoodForest(g: Graph, dst: Vertex, forest: seq<Tree>)
    requires WellFormed(g)
  {
    forall t <- forest :: GoodTree(g, dst, t)
  }

  function Depth(t: Tree, v: Vertex): nat
    requires v in t.paths
  {
    |t.paths[v]|
  }

  /** The port and the edge by which `t` leaves `v`. */
  function HopPort(t: Tree, v: Vertex): Port
    requires v in t.paths && t.paths[v] != []
  {
    t.paths[v][0]
  }

  function HopEdge(g: Graph, t: Tree, v: Vertex): Edge
    requires v in t.paths && t.paths[v] != [] && (v, HopPort(t, v)) in g.ports
  {
    g.ports[(v, HopPort(t, v))]
  }

  ghost predicate HasHop(g: Graph, t: Tree, v: Vertex) {
    v in t.paths && t.paths[v] != [] && (v, HopPort(t, v)) in g.ports
  }

  /** Taking the first hop brings a packet one step closer, along an arc of the tree. */
  lemma HopDescends(g: Graph, dst: Vertex, t: Tree, v: Vertex)
    requires WellFormed(g) && GoodTree(g, dst, t) && v in g.V && v != dst
    ensures HasHop(g, t, v) && (v, HopEdge(g, t, v)) in t.arcs
    ensures var u := Far(g, v, HopPort(t, v)).0;
      u in g.V && Depth(t, u) + 1 == Depth(t, v)
    ensures Depth(t, v) != 0 && Depth(t, dst) == 0
  {
    var hops := t.paths[v];
    var u := Far(g, v, hops[0]).0;
    assert PathIn(g, t.arcs, u, dst, hops[1..]);
    var back := [hops[0]] + t.paths[u];
    assert back[1..] == t.paths[u];
    assert PathIn(g, t.arcs, v, dst, back);
    assert PathIn(g, t.arcs, dst, dst, []);
  }

  /** The switches a path visits. */
  ghost function Visited(g: Graph, v: Vertex, hops: seq<Port>): set<Vertex>
    requires WellFormed(g)
    decreases |hops|
  {
    {v} + if hops == [] || (v, hops[0]) !in g.ports then {} else Visited(g, Far(g, v, hops[0]).0, hops[1..])
  }

  /** From any switch a path visits there is a way on that is no longer; if the path is more than that, it is strictly shorter. */
  lemma {:induction false} Suffix(g: Graph, arcs: set<Arc>, v: Vertex, d: Vertex, hops: seq<Port>, x: Vertex) returns (rest: seq<Port>)
    requires WellFormed(g) && PathIn(g, arcs, v, d, hops) && x in Visited(g, v, hops)
    ensures PathIn(g, arcs, x, d, rest) && |rest| <= |hops|
    decreases |hops|
  {
    if x == v {
      rest := hops;
    } else {
      rest := Suffix(g, arcs, Far(g, v, hops[0]).0, d, hops[1..], x);
    }
  }

  /** A shortest path visits no switch twice, so it has fewer hops than the graph has switches. */
  lemma {:induction false} ShortestIsShort(g: Graph, arcs: set<Arc>, v: Vertex, d: Vertex, hops: seq<Port>)
    requires WellFormed(g) && ShortestIn(g, arcs, v, d, hops) && v in g.V
    ensures |Visited(g, v, hops)| == |hops| + 1 && Visited(g, v, hops) <= g.V
    decreases |hops|
  {
    if hops != [] {
      var u := Far(g, v, hops[0]).0;
      forall other | PathIn(g, arcs, u, d, other) ensures |hops[1..]| <= |other| {
        assert ([hops[0]] + other)[1..] == other;
        assert PathIn(g, arcs, v, d, [hops[0]] + other);
      }
      ShortestIsShort(g, arcs, u, d, hops[1..]);
      if v in Visited(g, u, hops[1..]) {
        var rest := Suffix(g, arcs, u, d, hops[1..], v);
      }
    }
  }

  lemma DepthBound(g: Graph, dst: Vertex, t: Tree, v: Vertex)
    requires WellFormed(g) && GoodTree(g, dst, t) && v in g.V
    ensures Depth(t, v) + 1 <= |g.V|
  {
    ShortestIsShort(g, t.arcs, v, dst, t.paths[v]);
    SubsetSize(Visited(g, v, t.paths[v]), g.V);
  }

  /** No path inside a tree has more hops. */
  function LongestPath(g: Graph): nat {
    if |g.V| == 0 then 0 else |g.V| - 1
  }

  function DepthIn(forest: seq<Tree>, t: nat, v: Vertex): nat {
    if t < |forest| && v in forest[t].paths then Depth(forest[t], v) else 0
  }

  /** Some switch leaves by a failed edge when it uses `t`. */
  ghost predicate FailsUnder(g: Graph, dst: Vertex, t: Tree, F: set<Edge>) {
    exists v <- g.V :: v != dst && HasHop(g, t, v) && HopEdge(g, t, v) in F
  }

  /** Both arcs of every edge. */
  function ArcsOf(F: set<Edge>): set<Arc> {
    (set e <- F :: (e.v1, e)) + (set e <- F :: (e.v2, e))
  }

  lemma {:induction false} ArcsOfSize(F: set<Edge>)
    ensures |ArcsOf(F)| <= 2 * |F|
    decreases |F|
  {
    if e :| e in F {
      ArcsOfSize(F - {e});
      assert ArcsOf(F) == ArcsOf(F - {e}) + {(e.v1, e), (e.v2, e)};
    } else {
      assert ArcsOf(F) == {};
    }
  }
}
