/** Spanning trees and branchings as routing trees: every switch has a way to the destination inside each of them. */
module ForestPaths {
  import opened Digraphs
  import opened FiniteSets
  import opened Topology
  import opened TreePaths
  import U = UnionFind
  import S = SpanningTrees
  import B = Branchings

  /** The edges are cables of the graph. */
  ghost predicate CablesOf(g: Graph, es: set<Edge>) {
    forall e <- es :: (e.v1, e.p1) in g.ports && g.ports[(e.v1, e.p1)] == e
  }

  lemma CableEnds(g: Graph, es: set<Edge>)
    requires WellFormed(g) && es <= g.ports.Values
    ensures CablesOf(g, es) && S.EndsIn(g.V, es)
  {
    forall e <- es ensures (e.v1, e.p1) in g.ports && g.ports[(e.v1, e.p1)] == e && e.v1 in g.V && e.v2 in g.V {
      var k :| k in g.ports && g.ports[k] == e;
    }
  }

  /** Port `p` leads from `b` back to `a` inside the tree. */
  ghost predicate Back(g: Graph, arcs: set<Arc>, a: Vertex, b: Vertex, p: Port)
    requires WellFormed(g)
  {
    (b, p) in g.ports && (b, g.ports[(b, p)]) in arcs && Far(g, b, p).0 == a
  }

  ghost predicate LeadsBack(g: Graph, arcs: set<Arc>, D: Digraph)
    requires WellFormed(g)
  {
    forall a: nat, b: nat | (a, b) in D :: exists p :: Back(g, arcs, a, b, p)
  }

  /** A walk away from the destination can be taken back, hop by hop. */
  lemma {:induction false} HopsBack(g: Graph, arcs: set<Arc>, D: Digraph, walk: seq<nat>) returns (hops: seq<Port>)
    requires WellFormed(g) && LeadsBack(g, arcs, D) && walk != [] && IsWalk(D, walk)
    ensures PathIn(g, arcs, walk[|walk| - 1], walk[0], hops)
    decreases |walk|
  {
    var n := |walk| - 1;
    if n == 0 {
      hops := [];
    } else {
      assert (walk[n - 1], walk[n]) in D;
      assert IsWalk(D, walk[..n]);
      var rest := HopsBack(g, arcs, D, walk[..n]);
      var p :| Back(g, arcs, walk[n - 1], walk[n], p);
      hops := [p] + rest;
      assert hops[1..] == rest;
    }
  }

  /** Every switch has a way to the destination. */
  ghost predicate LeadsTo(g: Graph, dst: Vertex, arcs: set<Arc>)
    requires WellFormed(g)
  {
    dst in g.V && forall v <- g.V :: HasPath(g, arcs, v, dst)
  }

  ghost predicate HasPath(g: Graph, arcs: set<Arc>, v: Vertex, d: Vertex)
    requires WellFormed(g)
  {
    exists hops :: PathIn(g, arcs, v, d, hops)
  }

  lemma ReachedLeadsBack(g: Graph, arcs: set<Arc>, D: Digraph, d: Vertex, v: Vertex)
    requires WellFormed(g) && LeadsBack(g, arcs, D) && (v == d || Reaches(D, d, v))
    ensures HasPath(g, arcs, v, d)
  {
    if v == d {
      assert PathIn(g, arcs, v, d, []);
    } else {
      var walk :| WalkFromTo(D, d, v, walk);
      var hops := HopsBack(g, arcs, D, walk);
    }
  }

  /** A spanning tree leads from every switch to the destination. */
  lemma TreeLeadsTo(g: Graph, dst: Vertex, T: set<Edge>)
    requires WellFormed(g) && dst in g.V && CablesOf(g, T) && S.SpanningTree(g.V, T)
    ensures LeadsTo(g, dst, ArcsOf(T))
  {
    forall a: nat, b: nat | (a, b) in Both(U.Ends(T)) ensures exists p :: Back(g, ArcsOf(T), a, b, p) {
      var e :| e in T && ((e.v1, e.v2) == (a, b) || (e.v2, e.v1) == (a, b));
      if (e.v1, e.v2) == (a, b) {
        assert Back(g, ArcsOf(T), a, b, e.p2);
      } else {
        assert Back(g, ArcsOf(T), a, b, e.p1);
      }
    }
    forall v <- g.V ensures HasPath(g, ArcsOf(T), v, dst) {
      assert Joined(U.Ends(T), dst, v);
      ReachedLeadsBack(g, ArcsOf(T), Both(U.Ends(T)), dst, v);
    }
  }

  /** So does a branching, taken against its links. */
  lemma BranchingLeadsTo(g: Graph, dst: Vertex, T: set<B.Link>)
    requires WellFormed(g) && B.Branching(g.V, dst, T) && B.FromEdges(T) && CablesOf(g, set l <- T :: l.e)
    ensures LeadsTo(g, dst, B.RoutingArcs(T))
  {
    forall a: nat, b: nat | (a, b) in B.Arrows(T) ensures exists p :: Back(g, B.RoutingArcs(T), a, b, p) {
      var l :| l in T && (l.src, l.tgt) == (a, b);
      var e := l.e;
      assert e in (set x <- T :: x.e);
      if (e.v1, e.v2) == (a, b) {
        assert Back(g, B.RoutingArcs(T), a, b, e.p2);
      } else {
        assert Back(g, B.RoutingArcs(T), a, b, e.p1);
      }
    }
    forall v <- g.V ensures HasPath(g, B.RoutingArcs(T), v, dst) {
      ReachedLeadsBack(g, B.RoutingArcs(T), B.Arrows(T), dst, v);
    }
  }

  // ---------- The paths ----------

  /** The library's shortest paths inside a tree, from every switch to one destination. */
  type PathLibrary = (set<Arc>, Vertex) -> seq<Port>

  ghost predicate FindsShortest(g: Graph, dst: Vertex, library: PathLibrary)
    requires WellFormed(g)
  {
    forall arcs, v | HasPath(g, arcs, v, dst) :: ShortestIn(g, arcs, v, dst, library(arcs, v))
  }

  /** What the library is to find is there. */
  lemma {:induction false} ShortestExists(g: Graph, arcs: set<Arc>, v: Vertex, d: Vertex, hops: seq<Port>) returns (short: seq<Port>)
    requires WellFormed(g) && PathIn(g, arcs, v, d, hops)
    ensures ShortestIn(g, arcs, v, d, short)
    decreases |hops|
  {
    if other :| PathIn(g, arcs, v, d, other) && |other| < |hops| {
      short := ShortestExists(g, arcs, v, d, other);
    } else {
      short := hops;
    }
  }

  /** The destination, and no other switch, is reached without hops. */
  lemma NoHops(g: Graph, arcs: set<Arc>, v: Vertex, d: Vertex)
    requires WellFormed(g)
    ensures ShortestIn(g, arcs, v, d, []) <==> v == d
  {
  }

  /** The paths of all switches in one tree; that no switch but the destination is without hops is the source's assertion. */
  method TreePathsOf(g: Graph, dst: Vertex, arcs: set<Arc>, library: PathLibrary) returns (t: Tree)
    requires WellFormed(g) && FindsShortest(g, dst, library) && LeadsTo(g, dst, arcs)
    ensures GoodTree(g, dst, t) && t.arcs == arcs
  {
    hide PathIn, ShortestIn, HasPath, WellFormed;
    var paths: map<Vertex, seq<Port>>, todo := map[], g.V;
    while todo != {}
      invariant todo <= g.V && forall v <- g.V - todo :: v in paths && ShortestIn(g, arcs, v, dst, paths[v])
      decreases |todo|
    {
      var v :| v in todo;
      var hoplist := [];
      NoHops(g, arcs, v, dst);
      if v != dst {
        assert HasPath(g, arcs, v, dst);
        hoplist := library(arcs, v);
        assert |hoplist| > 0;
      }
      SubsetSize(todo - {v}, todo);
      paths, todo := paths[v := hoplist], todo - {v};
    }
    t := Tree(arcs, paths);
  }

  /** The paths of all switches in all trees of a forest. */
  method RouteForest(g: Graph, dst: Vertex, forest: seq<set<Arc>>, library: PathLibrary) returns (trees: seq<Tree>)
    requires WellFormed(g) && FindsShortest(g, dst, library) && forall arcs <- forest :: LeadsTo(g, dst, arcs)
    ensures GoodForest(g, dst, trees)
    ensures |trees| == |forest| && forall i | 0 <= i < |forest| :: trees[i].arcs == forest[i]
  {
    trees := [];
    for n := 0 to |forest|
      invariant |trees| == n && GoodForest(g, dst, trees) && forall i | 0 <= i < n :: trees[i].arcs == forest[i]
    {
      var t := TreePathsOf(g, dst, forest[n], library);
      trees := trees + [t];
    }
  }
}
