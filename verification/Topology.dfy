/** The switch graph: ports, edges, hop lists and reverse paths. */
module Topology {

  type Vertex = nat
  type Port = nat

  /** A cable between port `p1` of `v1` and port `p2` of `v2`. */
  datatype Edge = Edge(v1: Vertex, p1: Port, v2: Vertex, p2: Port)

  /** The switches, and for every switch the edge behind each of its ports. */
  datatype Graph = Graph(V: set<Vertex>, ports: map<(Vertex, Port), Edge>)

  /** What reading a topology file establishes: every edge sits behind exactly its two ends. */
  predicate WellFormed(g: Graph) {
    forall k <- g.ports ::
      var e := g.ports[k];
      && e.v1 in g.V && e.v2 in g.V
      && (e.v1, e.p1) != (e.v2, e.p2)
      && (k == (e.v1, e.p1) || k == (e.v2, e.p2))
      && (e.v1, e.p1) in g.ports && g.ports[(e.v1, e.p1)] == e
      && (e.v2, e.p2) in g.ports && g.ports[(e.v2, e.p2)] == e
  }

  /** The end of `e` that is not `(v, p)`; the source raises ValueError when `(v, p)` is no end of `e`. */
  function GetOther(e: Edge, v: Vertex, p: Port): (other: (Vertex, Port))
    requires (v, p) == (e.v1, e.p1) || (v, p) == (e.v2, e.p2)
  {
    if (e.v1, e.p1) == (v, p) then (e.v2, e.p2) else (e.v1, e.p1)
  }

  /** The port at the far side of the cable behind port `p` of `v`. */
  function Far(g: Graph, v: Vertex, p: Port): (other: (Vertex, Port))
    requires WellFormed(g) && (v, p) in g.ports
    ensures other in g.ports && g.ports[other] == g.ports[(v, p)]
    ensures other != (v, p) && other.0 in g.V && v in g.V
    ensures GetOther(g.ports[other], other.0, other.1) == (v, p)
  {
    GetOther(g.ports[(v, p)], v, p)
  }

  /** The edges of `F` at switch `v`. */
  function LocalFailed(g: Graph, v: Vertex, F: set<Edge>): set<Edge> {
    set k <- g.ports | k.0 == v && g.ports[k] in F :: g.ports[k]
  }

  /** `hops` names an existing port at every switch it passes. */
  predicate ValidHops(g: Graph, v: Vertex, hops: seq<Port>)
    requires WellFormed(g)
    decreases |hops|
  {
    hops == [] || ((v, hops[0]) in g.ports && ValidHops(g, Far(g, v, hops[0]).0, hops[1..]))
  }

  /** The switch reached from `v` by following `hops`. */
  function EndOf(g: Graph, v: Vertex, hops: seq<Port>): Vertex
    requires WellFormed(g) && ValidHops(g, v, hops)
    decreases |hops|
  {
    if hops == [] then v else EndOf(g, Far(g, v, hops[0]).0, hops[1..])
  }

  /** The ports that lead back from the end of `hops` to `v`. */
  function RevHops(g: Graph, v: Vertex, hops: seq<Port>): (r: seq<Port>)
    requires WellFormed(g) && ValidHops(g, v, hops)
    ensures |r| == |hops|
    decreases |hops|
  {
    if hops == [] then [] else
      var f := Far(g, v, hops[0]);
      RevHops(g, f.0, hops[1..]) + [f.1]
  }

  lemma {:induction false} HopsConcat(g: Graph, v: Vertex, a: seq<Port>, b: seq<Port>)
    requires WellFormed(g)
    ensures ValidHops(g, v, a + b) <==> ValidHops(g, v, a) && ValidHops(g, EndOf(g, v, a), b)
    ensures ValidHops(g, v, a + b) ==> EndOf(g, v, a + b) == EndOf(g, EndOf(g, v, a), b)
    ensures ValidHops(g, v, a + b) ==> RevHops(g, v, a + b) == RevHops(g, EndOf(g, v, a), b) + RevHops(g, v, a)
    decreases |a|
  {
    if a == [] {
      assert a + b == b;
    } else {
      assert (a + b)[0] == a[0] && (a + b)[1..] == a[1..] + b;
      if (v, a[0]) in g.ports {
        HopsConcat(g, Far(g, v, a[0]).0, a[1..], b);
      }
    }
  }

  /** A prefix of a hop list is a hop list. */
  lemma HopsPrefix(g: Graph, v: Vertex, hops: seq<Port>, i: nat)
    requires WellFormed(g) && ValidHops(g, v, hops) && i <= |hops|
    ensures ValidHops(g, v, hops[..i]) && ValidHops(g, EndOf(g, v, hops[..i]), hops[i..])
    ensures EndOf(g, EndOf(g, v, hops[..i]), hops[i..]) == EndOf(g, v, hops)
  {
    assert hops == hops[..i] + hops[i..];
    HopsConcat(g, v, hops[..i], hops[i..]);
  }

  /** The switch at which hop `i` is taken. */
  function VertexAt(g: Graph, v: Vertex, hops: seq<Port>, i: nat): Vertex
    requires WellFormed(g) && ValidHops(g, v, hops) && i <= |hops|
  {
    HopsPrefix(g, v, hops, i);
    EndOf(g, v, hops[..i])
  }

  /** The edge that hop `i` crosses. */
  function EdgeAt(g: Graph, v: Vertex, hops: seq<Port>, i: nat): (e: Edge)
    requires WellFormed(g) && ValidHops(g, v, hops) && i < |hops|
    ensures (VertexAt(g, v, hops, i), hops[i]) in g.ports
    ensures e == g.ports[(VertexAt(g, v, hops, i), hops[i])]
    ensures VertexAt(g, v, hops, i + 1) == Far(g, VertexAt(g, v, hops, i), hops[i]).0
  {
    HopsPrefix(g, v, hops, i);
    HopsPrefix(g, v, hops, i + 1);
    assert hops[..i + 1] == hops[..i] + [hops[i]];
    HopsConcat(g, v, hops[..i], [hops[i]]);
    g.ports[(VertexAt(g, v, hops, i), hops[i])]
  }

  /** No hop crosses an edge of `F`. */
  predicate Avoids(g: Graph, v: Vertex, hops: seq<Port>, F: set<Edge>)
    requires WellFormed(g) && ValidHops(g, v, hops)
  {
    forall i | 0 <= i < |hops| :: EdgeAt(g, v, hops, i) !in F
  }

  /** No switch is visited twice. */
  ghost predicate Simple(g: Graph, v: Vertex, hops: seq<Port>)
    requires WellFormed(g) && ValidHops(g, v, hops)
  {
    forall i, j | 0 <= i < j <= |hops| :: VertexAt(g, v, hops, i) != VertexAt(g, v, hops, j)
  }

  /** `hops` leads from `v` to `d` over edges outside `F`. */
  predicate LivePath(g: Graph, F: set<Edge>, v: Vertex, d: Vertex, hops: seq<Port>)
    requires WellFormed(g)
  {
    ValidHops(g, v, hops) && EndOf(g, v, hops) == d && Avoids(g, v, hops, F)
  }

  /** `v` and `d` are connected once the edges of `F` have failed. */
  ghost predicate Connected(g: Graph, F: set<Edge>, v: Vertex, d: Vertex)
    requires WellFormed(g)
  {
    exists hops :: LivePath(g, F, v, d, hops)
  }

  lemma AtConcat(g: Graph, v: Vertex, a: seq<Port>, b: seq<Port>, i: nat)
    requires WellFormed(g) && ValidHops(g, v, a + b) && i <= |a + b|
    ensures ValidHops(g, v, a) && ValidHops(g, EndOf(g, v, a), b)
    ensures i <= |a| ==> VertexAt(g, v, a + b, i) == VertexAt(g, v, a, i)
    ensures i >= |a| ==> VertexAt(g, v, a + b, i) == VertexAt(g, EndOf(g, v, a), b, i - |a|)
    ensures i < |a| ==> EdgeAt(g, v, a + b, i) == EdgeAt(g, v, a, i)
    ensures |a| <= i < |a + b| ==> EdgeAt(g, v, a + b, i) == EdgeAt(g, EndOf(g, v, a), b, i - |a|)
  {
    HopsConcat(g, v, a, b);
    if i <= |a| {
      assert (a + b)[..i] == a[..i];
    }
    if i >= |a| {
      assert (a + b)[..i] == a + b[..i - |a|];
      HopsPrefix(g, EndOf(g, v, a), b, i - |a|);
      HopsPrefix(g, v, a + b, i);
      HopsConcat(g, v, a, b[..i - |a|]);
    }
  }

  lemma LiveHop(g: Graph, F: set<Edge>, v: Vertex, p: Port)
    requires WellFormed(g) && (v, p) in g.ports && g.ports[(v, p)] !in F
    ensures LivePath(g, F, v, Far(g, v, p).0, [p])
  {
    assert EdgeAt(g, v, [p], 0) == g.ports[(v, p)];
    assert [p][1..] == [];
  }

  lemma LiveConcat(g: Graph, F: set<Edge>, u: Vertex, v: Vertex, d: Vertex, a: seq<Port>, b: seq<Port>)
    requires WellFormed(g) && LivePath(g, F, u, v, a) && LivePath(g, F, v, d, b)
    ensures LivePath(g, F, u, d, a + b)
  {
    HopsConcat(g, u, a, b);
    forall i | 0 <= i < |a + b| ensures EdgeAt(g, u, a + b, i) !in F {
      AtConcat(g, u, a, b, i);
    }
  }

  /** Any part of a live path is live. */
  lemma LiveSlice(g: Graph, F: set<Edge>, v: Vertex, hops: seq<Port>, i: nat)
    requires WellFormed(g) && ValidHops(g, v, hops) && Avoids(g, v, hops, F) && i <= |hops|
    ensures LivePath(g, F, v, VertexAt(g, v, hops, i), hops[..i])
    ensures LivePath(g, F, VertexAt(g, v, hops, i), EndOf(g, v, hops), hops[i..])
  {
    HopsPrefix(g, v, hops, i);
    assert hops == hops[..i] + hops[i..];
    forall k | 0 <= k < i ensures EdgeAt(g, v, hops[..i], k) !in F {
      AtConcat(g, v, hops[..i], hops[i..], k);
    }
    forall k | 0 <= k < |hops| - i ensures EdgeAt(g, VertexAt(g, v, hops, i), hops[i..], k) !in F {
      AtConcat(g, v, hops[..i], hops[i..], k + i);
    }
  }

  lemma RestAvoids(g: Graph, F: set<Edge>, v: Vertex, hops: seq<Port>)
    requires WellFormed(g) && ValidHops(g, v, hops) && Avoids(g, v, hops, F) && hops != []
    ensures Avoids(g, Far(g, v, hops[0]).0, hops[1..], F)
  {
    forall k | 0 <= k < |hops| - 1 ensures EdgeAt(g, Far(g, v, hops[0]).0, hops[1..], k) !in F {
      AtConcat(g, v, [hops[0]], hops[1..], k + 1);
      assert hops == [hops[0]] + hops[1..];
    }
  }

  /** Cables work both ways: the reverse of a live path is live, and reversing twice is the identity. */
  lemma {:induction false} ReverseLive(g: Graph, F: set<Edge>, v: Vertex, hops: seq<Port>)
    requires WellFormed(g) && ValidHops(g, v, hops)
    ensures ValidHops(g, EndOf(g, v, hops), RevHops(g, v, hops))
    ensures EndOf(g, EndOf(g, v, hops), RevHops(g, v, hops)) == v
    ensures RevHops(g, EndOf(g, v, hops), RevHops(g, v, hops)) == hops
    ensures Avoids(g, v, hops, F) ==> Avoids(g, EndOf(g, v, hops), RevHops(g, v, hops), F)
    decreases |hops|
  {
    if hops != [] {
      var f := Far(g, v, hops[0]);
      var rest := RevHops(g, f.0, hops[1..]);
      ReverseLive(g, F, f.0, hops[1..]);
      HopsConcat(g, EndOf(g, v, hops), rest, [f.1]);
      assert hops == [hops[0]] + hops[1..];
      if Avoids(g, v, hops, F) {
        assert EdgeAt(g, v, hops, 0) == g.ports[(v, hops[0])] == g.ports[f];
        RestAvoids(g, F, v, hops);
        LiveHop(g, F, f.0, f.1);
        LiveConcat(g, F, EndOf(g, v, hops), f.0, v, rest, [f.1]);
      }
    } else {
    }
  }

  /** A hop list is determined by where it ends and by its reverse. */
  lemma RevHopsInjective(g: Graph, s: Vertex, a: seq<Port>, t: Vertex, b: seq<Port>)
    requires WellFormed(g) && ValidHops(g, s, a) && ValidHops(g, t, b)
    requires EndOf(g, s, a) == EndOf(g, t, b) && RevHops(g, s, a) == RevHops(g, t, b)
    ensures s == t && a == b
  {
    ReverseLive(g, {}, s, a);
    ReverseLive(g, {}, t, b);
  }

  /** A connected pair is joined by a simple live path. */
  lemma {:induction false} SimplePathExists(g: Graph, F: set<Edge>, v: Vertex, d: Vertex, hops: seq<Port>)
    returns (short: seq<Port>)
    requires WellFormed(g) && LivePath(g, F, v, d, hops)
    ensures LivePath(g, F, v, d, short) && Simple(g, v, short)
    decreases |hops|
  {
    if Simple(g, v, hops) {
      return hops;
    }
    var i, j :| 0 <= i < j <= |hops| && VertexAt(g, v, hops, i) == VertexAt(g, v, hops, j);
    LiveSlice(g, F, v, hops, i);
    LiveSlice(g, F, v, hops, j);
    LiveConcat(g, F, v, VertexAt(g, v, hops, i), d, hops[..i], hops[j..]);
    short := SimplePathExists(g, F, v, d, hops[..i] + hops[j..]);
  }

  /** A simple path crosses no edge twice, in either direction. */
  lemma SimpleEdgesDistinct(g: Graph, v: Vertex, hops: seq<Port>, i: nat, j: nat)
    requires WellFormed(g) && ValidHops(g, v, hops) && Simple(g, v, hops) && i < j < |hops|
    ensures EdgeAt(g, v, hops, i) != EdgeAt(g, v, hops, j)
  {
    var e, f := EdgeAt(g, v, hops, i), EdgeAt(g, v, hops, j);
    assert VertexAt(g, v, hops, i) != VertexAt(g, v, hops, j);
    assert VertexAt(g, v, hops, i) != VertexAt(g, v, hops, j + 1);
  }
}
