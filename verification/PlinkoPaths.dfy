/**
 The backup paths a failure-identifying ("Plinko") run installs for one destination.

 Every installed path is named by how it came to be: the source it serves, and for each failure met on the
 way the index of the hop at which the path in force broke. The names form a forest; the builder
 grows it round by round, and the packet walk descends it.
 */
module PlinkoPaths {
  import opened Topology

  /** A path from `v` to the destination, the failed edges it was computed for, and the reverse of the way to `v`. */
  datatype Path = Path(v: Vertex, hops: seq<Port>, failedE: set<Edge>, extraRPath: seq<Port>)

  datatype Name = Name(src: Vertex, breaks: seq<nat>)

  /** An installed path, with the way a packet has travelled from the source before it uses the path. */
  datatype Record = Record(route: seq<Port>, path: Path)

  type Records = map<Name, Record>

  /** The key of a forwarding entry: the switch, the reverse path, the uplink, and the local failed edges. */
  datatype Key = Key(v: Vertex, rp: seq<Port>, uplink: Edge, local: set<Edge>)

  /** `p` is what the path oracle may return: a non-empty simple path to `dst` that avoids the known failures. */
  ghost predicate GoodPath(g: Graph, dst: Vertex, p: Path)
    requires WellFormed(g)
  {
    && p.hops != []
    && LivePath(g, p.failedE, p.v, dst, p.hops)
    && Simple(g, p.v, p.hops)
  }

  /** Where a packet on `p` stands when hop `i` of `p` turns out to be down. */
  ghost function BreakAt(g: Graph, p: Path, i: nat): (b: Path)
    requires WellFormed(g) && ValidHops(g, p.v, p.hops) && i < |p.hops|
  {
    HopsPrefix(g, p.v, p.hops, i);
    Path(VertexAt(g, p.v, p.hops, i), [], p.failedE + {EdgeAt(g, p.v, p.hops, i)},
         RevHops(g, p.v, p.hops[..i]) + p.extraRPath)
  }

  /** `c` is a path computed for a packet on `r` that finds hop `i` down. */
  ghost predicate IsBackup(g: Graph, r: Record, i: nat, c: Record)
    requires WellFormed(g) && ValidHops(g, r.path.v, r.path.hops)
  {
    && i < |r.path.hops|
    && c.route == r.route + r.path.hops[..i]
    && c.path == BreakAt(g, r.path, i).(hops := c.path.hops)
  }

  ghost predicate IsInitial(n: Name, r: Record) {
    r.route == [] && r.path == Path(n.src, r.path.hops, {}, [])
  }

  function Parent(n: Name): Name
    requires n.breaks != []
  {
    Name(n.src, n.breaks[..|n.breaks| - 1])
  }

  function Child(n: Name, i: nat): Name {
    Name(n.src, n.breaks + [i])
  }

  /** `n` is the backup of its parent at the hop its last break names. */
  ghost predicate HasParent(g: Graph, recs: Records, n: Name)
    requires WellFormed(g)
  {
    && n in recs && n.breaks != [] && Parent(n) in recs
    && ValidHops(g, recs[Parent(n)].path.v, recs[Parent(n)].path.hops)
    && IsBackup(g, recs[Parent(n)], n.breaks[|n.breaks| - 1], recs[n])
  }

  /** Every record is a good path, and is an initial path or the backup of another record. */
  ghost predicate ValidRecords(g: Graph, dst: Vertex, recs: Records)
    requires WellFormed(g)
  {
    && (forall n <- recs :: GoodPath(g, dst, recs[n].path))
    && (forall n <- recs | n.breaks == [] :: IsInitial(n, recs[n]))
    && (forall n {:trigger HasParent(g, recs, n)} | n in recs && n.breaks != [] :: HasParent(g, recs, n))
  }

  function KeyOf(g: Graph, p: Path): Key
    requires WellFormed(g) && ValidHops(g, p.v, p.hops) && p.hops != []
  {
    Key(p.v, p.extraRPath, EdgeAt(g, p.v, p.hops, 0), LocalFailed(g, p.v, p.failedE))
  }

  /** The route of a record ends at its switch, its reverse path is that route reversed, and it knows one failure per break. */
  lemma {:induction false} RecordRoute(g: Graph, dst: Vertex, recs: Records, n: Name)
    requires WellFormed(g) && ValidRecords(g, dst, recs) && n in recs
    ensures var r := recs[n];
      && ValidHops(g, n.src, r.route) && EndOf(g, n.src, r.route) == r.path.v
      && r.path.extraRPath == RevHops(g, n.src, r.route)
      && |r.path.failedE| == |n.breaks|
    decreases |n.breaks|
  {
    if n.breaks != [] {
      assert HasParent(g, recs, n);
      var q, i := recs[Parent(n)], n.breaks[|n.breaks| - 1];
      RecordRoute(g, dst, recs, Parent(n));
      HopsPrefix(g, q.path.v, q.path.hops, i);
      HopsConcat(g, n.src, q.route, q.path.hops[..i]);
    }
  }

  /** The whole way a packet takes when nothing beyond the record's known failures breaks. */
  ghost function FullRoute(r: Record): seq<Port> {
    r.route + r.path.hops
  }

  /** `b` descends from the break of `a` at hop `i`: it knows that edge is down, and leaves `a`'s way exactly there. */
  ghost predicate DivergesAt(g: Graph, a: Record, i: nat, b: Record)
    requires WellFormed(g) && ValidHops(g, a.path.v, a.path.hops)
  {
    var m := |a.route| + i;
    && i < |a.path.hops| && m <= |b.route| && m < |FullRoute(b)|
    && FullRoute(b)[..m] == FullRoute(a)[..m]
    && FullRoute(b)[m] != FullRoute(a)[m]
    && EdgeAt(g, a.path.v, a.path.hops, i) in b.path.failedE
    && a.path.failedE <= b.path.failedE
  }

  ghost predicate ProperPrefix(a: Name, b: Name) {
    a.src == b.src && |a.breaks| < |b.breaks| && a.breaks == b.breaks[..|a.breaks|]
  }

  lemma ChildDiverges(g: Graph, dst: Vertex, recs: Records, b: Name)
    requires WellFormed(g) && ValidRecords(g, dst, recs) && b in recs && b.breaks != []
    ensures HasParent(g, recs, b)
    ensures DivergesAt(g, recs[Parent(b)], b.breaks[|b.breaks| - 1], recs[b])
  {
    assert HasParent(g, recs, b);
    var ra, rb, i := recs[Parent(b)], recs[b], b.breaks[|b.breaks| - 1];
    var m := |ra.route| + i;
    assert FullRoute(rb)[..m] == rb.route == FullRoute(ra)[..m];
    var e, f := EdgeAt(g, ra.path.v, ra.path.hops, i), EdgeAt(g, rb.path.v, rb.path.hops, 0);
    assert f !in rb.path.failedE;
  }

  lemma PrefixThrough(x: seq<Port>, y: seq<Port>, m: nat, n: nat)
    requires m <= n <= |x| && n <= |y| && x[..n] == y[..n]
    ensures x[..m] == y[..m] && (m < n ==> x[m] == y[m])
  {
    assert x[..m] == x[..n][..m] && y[..m] == y[..n][..m];
    if m < n {
      assert x[m] == x[..n][m] && y[m] == y[..n][m];
    }
  }

  /** Two records that reach the same point of the same way stand at the same switch. */
  lemma SamePoint(g: Graph, s: Vertex, a: Record, i: nat, b: Record)
    requires WellFormed(g) && ValidHops(g, a.path.v, a.path.hops) && i <= |a.path.hops|
    requires ValidHops(g, s, a.route) && EndOf(g, s, a.route) == a.path.v
    requires ValidHops(g, s, b.route) && EndOf(g, s, b.route) == b.path.v
    requires |b.route| == |a.route| + i && b.route == FullRoute(a)[..|a.route| + i]
    ensures VertexAt(g, a.path.v, a.path.hops, i) == b.path.v
  {
    HopsPrefix(g, a.path.v, a.path.hops, i);
    HopsConcat(g, s, a.route, a.path.hops[..i]);
    assert b.route == a.route + a.path.hops[..i];
  }

  lemma PrefixOfParent(a: Name, b: Name)
    requires ProperPrefix(a, b)
    ensures a == Parent(b) ==> |a.breaks| + 1 == |b.breaks|
    ensures a != Parent(b) ==> ProperPrefix(a, Parent(b)) && Parent(b).breaks[|a.breaks|] == b.breaks[|a.breaks|]
  {
    var p := Parent(b);
    assert p.breaks[..|a.breaks|] == b.breaks[..|a.breaks|];
    assert |a.breaks| == |p.breaks| ==> p.breaks[..|a.breaks|] == p.breaks;
  }

  lemma {:induction false} DescendantDiverges(g: Graph, dst: Vertex, recs: Records, a: Name, b: Name)
    requires WellFormed(g) && ValidRecords(g, dst, recs) && b in recs && ProperPrefix(a, b)
    ensures a in recs && DivergesAt(g, recs[a], b.breaks[|a.breaks|], recs[b])
    decreases |b.breaks|
  {
    ChildDiverges(g, dst, recs, b);
    PrefixOfParent(a, b);
    if a != Parent(b) {
      DescendantDiverges(g, dst, recs, a, Parent(b));
      RecordRoute(g, dst, recs, a);
      RecordRoute(g, dst, recs, b);
      DivergenceInherited(g, dst, a.src, recs[a], b.breaks[|a.breaks|], recs[Parent(b)], b.breaks[|b.breaks| - 1], recs[b]);
    }
  }

  lemma DivergenceInherited(g: Graph, dst: Vertex, s: Vertex, ra: Record, i: nat, rp: Record, k: nat, rb: Record)
    requires WellFormed(g) && GoodPath(g, dst, ra.path) && GoodPath(g, dst, rp.path) && GoodPath(g, dst, rb.path)
    requires DivergesAt(g, ra, i, rp) && IsBackup(g, rp, k, rb) && DivergesAt(g, rp, k, rb)
    requires ValidHops(g, s, ra.route) && EndOf(g, s, ra.route) == ra.path.v
    requires ValidHops(g, s, rb.route) && EndOf(g, s, rb.route) == rb.path.v
    ensures DivergesAt(g, ra, i, rb)
  {
    var m := |ra.route| + i;
    var n := |rb.route|;
    PrefixThrough(FullRoute(rb), FullRoute(rp), m, n);
    if m == n {
      assert rb.route == FullRoute(rb)[..n] == FullRoute(ra)[..m];
      SamePoint(g, s, ra, i, rb);
      var e, f := EdgeAt(g, ra.path.v, ra.path.hops, i), EdgeAt(g, rb.path.v, rb.path.hops, 0);
      assert f !in rb.path.failedE;
    }
  }

  /** Two names of one source neither of which extends the other part at a common ancestor. */
  lemma {:induction false} SplitPoint(a: Name, b: Name) returns (c: Name)
    requires a.src == b.src && a != b && !ProperPrefix(a, b) && !ProperPrefix(b, a)
    ensures ProperPrefix(c, a) && ProperPrefix(c, b) && a.breaks[|c.breaks|] != b.breaks[|c.breaks|]
  {
    var k := 0;
    while k < |a.breaks| && k < |b.breaks| && a.breaks[k] == b.breaks[k]
      invariant k <= |a.breaks| && k <= |b.breaks| && a.breaks[..k] == b.breaks[..k]
    {
      k := k + 1;
    }
    assert a.breaks[..|a.breaks|] == a.breaks && b.breaks[..|b.breaks|] == b.breaks;
    c := Name(a.src, a.breaks[..k]);
  }

  /** Records at one switch with one reverse path are comparable: one descends from the other through breaks at the first hop. */
  lemma SameRouteComparable(g: Graph, dst: Vertex, recs: Records, a: Name, b: Name)
    requires WellFormed(g) && ValidRecords(g, dst, recs) && a in recs && b in recs && a != b
    requires recs[a].path.v == recs[b].path.v && recs[a].path.extraRPath == recs[b].path.extraRPath
    ensures ProperPrefix(a, b) || ProperPrefix(b, a)
  {
    RecordRoute(g, dst, recs, a);
    RecordRoute(g, dst, recs, b);
    RevHopsInjective(g, a.src, recs[a].route, b.src, recs[b].route);
    if !ProperPrefix(a, b) && !ProperPrefix(b, a) {
      var c := SplitPoint(a, b);
      DescendantDiverges(g, dst, recs, c, a);
      DescendantDiverges(g, dst, recs, c, b);
      var i, j := a.breaks[|c.breaks|], b.breaks[|c.breaks|];
      if i < j {
        RoutesDiffer(g, recs[c], i, recs[a], j, recs[b]);
      } else {
        RoutesDiffer(g, recs[c], j, recs[b], i, recs[a]);
      }
    }
  }

  lemma RoutesDiffer(g: Graph, c: Record, i: nat, a: Record, j: nat, b: Record)
    requires WellFormed(g) && ValidHops(g, c.path.v, c.path.hops)
    requires i < j && DivergesAt(g, c, i, a) && DivergesAt(g, c, j, b)
    ensures a.route != b.route
  {
    PrefixThrough(FullRoute(b), FullRoute(c), |c.route| + i, |c.route| + j);
    assert FullRoute(b)[|c.route| + i] == b.route[|c.route| + i];
    assert |c.route| + i < |a.route| ==> FullRoute(a)[|c.route| + i] == a.route[|c.route| + i];
  }

  /** The chain property: of two entries at one switch and reverse path, the later one has seen the earlier one's uplink fail. */
  lemma SameRouteChain(g: Graph, dst: Vertex, recs: Records, a: Name, b: Name)
    requires WellFormed(g) && ValidRecords(g, dst, recs) && a in recs && b in recs && ProperPrefix(a, b)
    requires recs[a].path.v == recs[b].path.v && recs[a].path.extraRPath == recs[b].path.extraRPath
    ensures var k, l := KeyOf(g, recs[a].path), KeyOf(g, recs[b].path);
      k.uplink in l.local && k.local < l.local && k.uplink != l.uplink
  {
    RecordRoute(g, dst, recs, a);
    RecordRoute(g, dst, recs, b);
    RevHopsInjective(g, a.src, recs[a].route, b.src, recs[b].route);
    DescendantDiverges(g, dst, recs, a, b);
    var ra, rb, i := recs[a], recs[b], b.breaks[|a.breaks|];
    assert i == 0;
    var e := EdgeAt(g, ra.path.v, ra.path.hops, 0);
    assert e in LocalFailed(g, ra.path.v, rb.path.failedE);
    assert EdgeAt(g, rb.path.v, rb.path.hops, 0) !in rb.path.failedE;
    assert e !in ra.path.failedE;
  }
}
