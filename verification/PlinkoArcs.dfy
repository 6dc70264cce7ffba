/** The links a packet crosses on its way, and when a backup path makes it cross one again in the same direction. */
module PlinkoArcs {
  import opened Topology
  import opened PlinkoPaths

  /** The links that `hops` crosses, each with the switch it is crossed from. */
  function ArcSet(g: Graph, v: Vertex, hops: seq<Port>): set<(Vertex, Edge)>
    requires WellFormed(g) && ValidHops(g, v, hops)
  {
    set i | 0 <= i < |hops| :: (VertexAt(g, v, hops, i), EdgeAt(g, v, hops, i))
  }

  method ArcsOf(g: Graph, v: Vertex, hops: seq<Port>) returns (arcs: set<(Vertex, Edge)>)
    requires WellFormed(g) && ValidHops(g, v, hops)
    ensures arcs == ArcSet(g, v, hops)
  {
    arcs := {};
    var curr := v;
    for i := 0 to |hops|
      invariant curr == VertexAt(g, v, hops, i)
      invariant arcs == set j | 0 <= j < i :: (VertexAt(g, v, hops, j), EdgeAt(g, v, hops, j))
    {
      assert EdgeAt(g, v, hops, i) == g.ports[(curr, hops[i])];
      arcs := arcs + {(curr, g.ports[(curr, hops[i])])};
      curr := Far(g, curr, hops[i]).0;
    }
  }

  /** The links crossed on the way whose reverse path from `v` is `rp`. */
  ghost function Crossed(g: Graph, v: Vertex, rp: seq<Port>): set<(Vertex, Edge)>
    requires WellFormed(g) && ValidHops(g, v, rp)
  {
    ReverseLive(g, {}, v, rp);
    ArcSet(g, EndOf(g, v, rp), RevHops(g, v, rp))
  }

  /** The reverse path at a break leads back to the source, along the way the packet came. */
  lemma WayBack(g: Graph, dst: Vertex, recs: Records, n: Name, i: nat)
    requires WellFormed(g) && ValidRecords(g, dst, recs) && n in recs && i < |recs[n].path.hops|
    ensures var b, way := BreakAt(g, recs[n].path, i), recs[n].route + recs[n].path.hops[..i];
      && ValidHops(g, b.v, b.extraRPath) && EndOf(g, b.v, b.extraRPath) == n.src && RevHops(g, b.v, b.extraRPath) == way
      && ValidHops(g, n.src, way) && Crossed(g, b.v, b.extraRPath) == ArcSet(g, n.src, way)
  {
    var r := recs[n];
    RecordRoute(g, dst, recs, n);
    HopsPrefix(g, r.path.v, r.path.hops, i);
    HopsConcat(g, n.src, r.route, r.path.hops[..i]);
    ReverseLive(g, {}, n.src, r.route + r.path.hops[..i]);
  }

  lemma BackIsValid(g: Graph, dst: Vertex, recs: Records, n: Name, i: nat)
    requires WellFormed(g) && ValidRecords(g, dst, recs) && n in recs && i < |recs[n].path.hops|
    ensures ValidHops(g, BreakAt(g, recs[n].path, i).v, BreakAt(g, recs[n].path, i).extraRPath)
  {
    WayBack(g, dst, recs, n, i);
  }

  // ---------- When a way repeats a link ----------

  ghost predicate RepeatsNothing(g: Graph, v: Vertex, hops: seq<Port>)
    requires WellFormed(g) && ValidHops(g, v, hops)
  {
    forall i, j | 0 <= i < j < |hops| ::
      VertexAt(g, v, hops, i) != VertexAt(g, v, hops, j) || EdgeAt(g, v, hops, i) != EdgeAt(g, v, hops, j)
  }

  lemma RepeatsConcat(g: Graph, v: Vertex, a: seq<Port>, b: seq<Port>)
    requires WellFormed(g) && ValidHops(g, v, a) && ValidHops(g, EndOf(g, v, a), b) && ValidHops(g, v, a + b)
    ensures RepeatsNothing(g, v, a + b) <==>
      RepeatsNothing(g, v, a) && RepeatsNothing(g, EndOf(g, v, a), b) && ArcSet(g, EndOf(g, v, a), b) !! ArcSet(g, v, a)
  {
    hide VertexAt, EdgeAt, EndOf, ValidHops;
    var u := EndOf(g, v, a);
    forall i: nat | i < |a| ensures VertexAt(g, v, a + b, i) == VertexAt(g, v, a, i) && EdgeAt(g, v, a + b, i) == EdgeAt(g, v, a, i) {
      AtConcat(g, v, a, b, i);
    }
    forall i: nat | i < |b| ensures VertexAt(g, v, a + b, |a| + i) == VertexAt(g, u, b, i) && EdgeAt(g, v, a + b, |a| + i) == EdgeAt(g, u, b, i) {
      AtConcat(g, v, a, b, |a| + i);
    }
    if RepeatsNothing(g, v, a + b) {
      forall i, j | 0 <= i < j < |b| ensures VertexAt(g, u, b, i) != VertexAt(g, u, b, j) || EdgeAt(g, u, b, i) != EdgeAt(g, u, b, j) {
        assert VertexAt(g, v, a + b, |a| + i) != VertexAt(g, v, a + b, |a| + j) || EdgeAt(g, v, a + b, |a| + i) != EdgeAt(g, v, a + b, |a| + j);
      }
    }
    if RepeatsNothing(g, v, a) && RepeatsNothing(g, u, b) && ArcSet(g, u, b) !! ArcSet(g, v, a) {
      forall i, j | 0 <= i < j < |a + b|
        ensures VertexAt(g, v, a + b, i) != VertexAt(g, v, a + b, j) || EdgeAt(g, v, a + b, i) != EdgeAt(g, v, a + b, j)
      {
        if i >= |a| {
          assert VertexAt(g, v, a + b, |a| + (i - |a|)) == VertexAt(g, u, b, i - |a|);
          assert VertexAt(g, v, a + b, |a| + (j - |a|)) == VertexAt(g, u, b, j - |a|);
        } else if j >= |a| {
          assert VertexAt(g, v, a + b, |a| + (j - |a|)) == VertexAt(g, u, b, j - |a|);
          assert (VertexAt(g, v, a, i), EdgeAt(g, v, a, i)) in ArcSet(g, v, a);
          assert (VertexAt(g, u, b, j - |a|), EdgeAt(g, u, b, j - |a|)) in ArcSet(g, u, b);
        }
      }
    }
  }

  /** A whole way repeats no link exactly if the way to its last path does not and that path crosses none of its links. */
  lemma WayRepeats(g: Graph, dst: Vertex, recs: Records, n: Name)
    requires WellFormed(g) && ValidRecords(g, dst, recs) && n in recs
    ensures var r := recs[n];
      && ValidHops(g, n.src, r.route) && ValidHops(g, n.src, FullRoute(r))
      && (RepeatsNothing(g, n.src, FullRoute(r)) <==>
            RepeatsNothing(g, n.src, r.route) && ArcSet(g, r.path.v, r.path.hops) !! ArcSet(g, n.src, r.route))
  {
    hide ArcSet;
    var r := recs[n];
    RecordRoute(g, dst, recs, n);
    HopsConcat(g, n.src, r.route, r.path.hops);
    RepeatsConcat(g, n.src, r.route, r.path.hops);
  }

  /** The way to a backup is part of the way before the break, so it repeats nothing that this one does not. */
  lemma RouteRepeats(g: Graph, dst: Vertex, recs: Records, n: Name)
    requires WellFormed(g) && ValidRecords(g, dst, recs) && n in recs && n.breaks != []
    ensures Parent(n) in recs && ValidHops(g, n.src, FullRoute(recs[Parent(n)])) && ValidHops(g, n.src, recs[n].route)
    ensures RepeatsNothing(g, n.src, FullRoute(recs[Parent(n)])) ==> RepeatsNothing(g, n.src, recs[n].route)
  {
    hide ArcSet, GoodPath, VertexAt, EdgeAt, RepeatsNothing;
    WayRepeats(g, dst, recs, n);
    assert HasParent(g, recs, n);
    WayRepeats(g, dst, recs, Parent(n));
    var q := recs[Parent(n)];
    SplitWay(g, q, n.breaks[|n.breaks| - 1], recs[n]);
    RepeatsPrefix(g, n.src, recs[n].route, q.path.hops[n.breaks[|n.breaks| - 1]..]);
  }

  lemma SplitWay(g: Graph, q: Record, i: nat, r: Record)
    requires WellFormed(g) && ValidHops(g, q.path.v, q.path.hops) && IsBackup(g, q, i, r)
    ensures i <= |q.path.hops| && FullRoute(q) == r.route + q.path.hops[i..]
  {
  }

  lemma RepeatsPrefix(g: Graph, v: Vertex, a: seq<Port>, b: seq<Port>)
    requires WellFormed(g) && ValidHops(g, v, a + b)
    ensures ValidHops(g, v, a) && (RepeatsNothing(g, v, a + b) ==> RepeatsNothing(g, v, a))
  {
    hide ArcSet, RepeatsNothing;
    HopsConcat(g, v, a, b);
    RepeatsConcat(g, v, a, b);
  }
}
