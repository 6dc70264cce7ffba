/** Arc-disjoint spanning branchings, grown link by link from the destination. Growing may fail; what it returns is right. */
module Branchings {
  import opened Wrappers
  import opened FiniteSets
  import opened Digraphs
  import opened Topology

  /** Edge `e` in the direction away from the destination. */
  datatype Link = Link(src: Vertex, tgt: Vertex, e: Edge)

  /** The library's minimum cut: its value, and the side with the sources. */
  datatype Cut = Cut(value: nat, A: set<Vertex>)

  type MaxFlow = (set<Link>, Vertex, Vertex, Vertex) -> Cut

  function Arrows(T: set<Link>): Digraph {
    set l <- T :: (l.src, l.tgt)
  }

  /** From `r` every vertex of `vs` is reached. */
  ghost predicate ReachesAll(vs: set<Vertex>, r: Vertex, T: set<Link>) {
    forall v <- vs :: v == r || Reaches(Arrows(T), r, v)
  }

  /** One link enters every vertex of `vs` but `r`, none enters `r`, and from `r` all of them are reached. */
  ghost predicate Branching(vs: set<Vertex>, r: Vertex, T: set<Link>) {
    && r in vs && |T| + 1 == |vs| && (forall l <- T :: l.src in vs && l.tgt in vs && l.tgt != r)
    && (forall k, l | k in T && l in T && k.tgt == l.tgt :: k == l)
    && ReachesAll(vs, r, T)
  }

  /** All vertices but the root are entered, since there are as many links as such vertices. */
  lemma EveryVertexEntered(vs: set<Vertex>, r: Vertex, T: set<Link>, v: Vertex)
    requires Branching(vs, r, T) && v in vs && v != r
    ensures exists l <- T :: l.tgt == v
  {
    var p :| WalkFromTo(Arrows(T), r, v, p);
    var n := |p| - 1;
    assert (p[n - 1], p[n]) in Arrows(T);
  }

  lemma Grow(vs: set<Vertex>, r: Vertex, T: set<Link>, l: Link)
    requires Branching(vs, r, T) && l.src in vs && l.tgt !in vs
    ensures Branching(vs + {l.tgt}, r, T + {l})
  {
    hide Reaches;
    var T' := T + {l};
    assert Arrows(T) <= Arrows(T') && (l.src, l.tgt) in Arrows(T');
    assert |T'| == |T| + 1 && |vs + {l.tgt}| == |vs| + 1;
    ArcReaches(Arrows(T'), l.src, l.tgt);
    forall v <- vs + {l.tgt} ensures v == r || Reaches(Arrows(T'), r, v) {
      if v in vs && v != r {
        ReachesMono(Arrows(T), Arrows(T'), r, v);
      } else if v == l.tgt && l.src != r {
        ReachesMono(Arrows(T), Arrows(T'), r, l.src);
        ReachesTrans(Arrows(T'), r, l.src, l.tgt);
      }
    }
  }

  /** The links from the tree to the rest. */
  function Frontier(dg: set<Link>, vT: set<Vertex>): set<Link> {
    set l <- dg | l.src in vT && l.tgt !in vT
  }

  /** The links to choose from when the cut leaves too little: across it, from inside the tree to outside. */
  function EPrimes(dg: set<Link>, V: set<Vertex>, vT: set<Vertex>, A: set<Vertex>): set<Link> {
    set l <- dg | l.src in vT - A && l.tgt in (V - vT) - A
  }

  /** Link `l` may be taken where `ie` leads out of the tree: its cut leaves room for `k` trees, or `l` avoids one with room for `k - 1`. */
  ghost predicate MayTake(V: set<Vertex>, dg: set<Link>, dst: Vertex, vT: set<Vertex>, k: nat, maxflow: MaxFlow, ie: Link, l: Link) {
    ie in Frontier(dg, vT) &&
    var cut := maxflow(dg, ie.src, dst, ie.tgt);
    if cut.value >= k then l == ie else cut.value == k - 1 && l in EPrimes(dg, V, vT, cut.A)
  }

  /** No link leads out of the tree, or there is one behind which nothing may be taken. */
  ghost predicate Stuck(V: set<Vertex>, dg: set<Link>, dst: Vertex, vT: set<Vertex>, k: nat, maxflow: MaxFlow) {
    Frontier(dg, vT) == {} || exists ie <- Frontier(dg, vT) :: forall l :: !MayTake(V, dg, dst, vT, k, maxflow, ie, l)
  }

  /** The next link of the tree, if one can be had that leaves `k - 1` further trees possible. */
  method NextLink(V: set<Vertex>, dg: set<Link>, dst: Vertex, vT: set<Vertex>, k: nat, maxflow: MaxFlow) returns (l: Option<Link>)
    requires k > 0
    ensures l.Some? ==> l.value in dg && l.value.src in vT && l.value.tgt !in vT
    ensures l.Some? ==> exists ie :: MayTake(V, dg, dst, vT, k, maxflow, ie, l.value)
    ensures l.None? ==> Stuck(V, dg, dst, vT, k, maxflow)
  {
    var frontier := Frontier(dg, vT);
    if frontier == {} {
      return None;
    }
    var ie :| ie in frontier;
    var cut := maxflow(dg, ie.src, dst, ie.tgt);
    if cut.value < k - 1 {
      return None;
    }
    if cut.value < k {
      var eprimes := EPrimes(dg, V, vT, cut.A);
      if eprimes == {} {
        return None;
      }
      var eprime :| eprime in eprimes;
      assert MayTake(V, dg, dst, vT, k, maxflow, ie, eprime);
      return Some(eprime);
    }
    assert MayTake(V, dg, dst, vT, k, maxflow, ie, ie);
    return Some(ie);
  }

  function Taken(order: seq<Link>): set<Link> {
    set l <- order
  }

  function Reached(dst: Vertex, order: seq<Link>): set<Vertex> {
    {dst} + set l <- order :: l.tgt
  }

  /** Link after link was taken out of `dg` as it could be then. */
  ghost predicate Grown(V: set<Vertex>, dg: set<Link>, dst: Vertex, k: nat, maxflow: MaxFlow, order: seq<Link>) {
    forall i | 0 <= i < |order| :: GrownBy(V, dg, dst, k, maxflow, order[..i], order[i])
  }

  ghost predicate GrownBy(V: set<Vertex>, dg: set<Link>, dst: Vertex, k: nat, maxflow: MaxFlow, before: seq<Link>, l: Link) {
    exists ie :: MayTake(V, dg - Taken(before), dst, Reached(dst, before), k, maxflow, ie, l)
  }

  lemma GrowMore(V: set<Vertex>, dg: set<Link>, dst: Vertex, k: nat, maxflow: MaxFlow, order: seq<Link>, l: Link)
    requires Grown(V, dg, dst, k, maxflow, order) && GrownBy(V, dg, dst, k, maxflow, order, l)
    ensures Grown(V, dg, dst, k, maxflow, order + [l])
    ensures Taken(order + [l]) == Taken(order) + {l} && Reached(dst, order + [l]) == Reached(dst, order) + {l.tgt}
  {
    hide GrownBy;
    forall i | 0 <= i <= |order| ensures GrownBy(V, dg, dst, k, maxflow, (order + [l])[..i], (order + [l])[i]) {
      assert (order + [l])[..i] == order[..i];
      assert order[..|order|] == order;
    }
    assert Taken(order + [l]) == Taken(order) + {l};
  }

  /** A branching out of `dg` may be grown that reaches some vertices only and then is stuck. */
  ghost predicate GrowsStuck(V: set<Vertex>, dg: set<Link>, dst: Vertex, k: nat, maxflow: MaxFlow) {
    exists order :: StuckAt(V, dg, dst, k, maxflow, order)
  }

  ghost predicate StuckAt(V: set<Vertex>, dg: set<Link>, dst: Vertex, k: nat, maxflow: MaxFlow, order: seq<Link>) {
    && Reached(dst, order) < V && Taken(order) <= dg && Branching(Reached(dst, order), dst, Taken(order))
    && Grown(V, dg, dst, k, maxflow, order) && Stuck(V, dg - Taken(order), dst, Reached(dst, order), k, maxflow)
  }

  /** Grows a branching out of the links that are left, which lose those it takes, even when it fails. */
  method AdstTree(V: set<Vertex>, dg: set<Link>, dst: Vertex, k: nat, maxflow: MaxFlow)
    returns (tree: Option<set<Link>>, dg': set<Link>, ghost order: seq<Link>)
    requires k > 0 && dst in V && forall l <- dg :: l.src in V && l.tgt in V
    ensures dg' <= dg && (tree.Some? ==> Branching(V, dst, tree.value) && tree.value <= dg && dg' == dg - tree.value)
    ensures dg' == dg - Taken(order) && Grown(V, dg, dst, k, maxflow, order) && (tree.Some? ==> tree.value == Taken(order))
    ensures tree.None? ==> StuckAt(V, dg, dst, k, maxflow, order)
  {
    hide Branching, Stuck, MayTake, Grown;
    var iT: set<Link>, vT := {}, {dst};
    RootOnly(dst);
    dg', order := dg, [];
    NothingGrown(V, dg, dst, k, maxflow);
    while vT != V
      invariant Branching(vT, dst, iT) && vT <= V && iT <= dg && dg' == dg - iT
      invariant iT == Taken(order) && vT == Reached(dst, order) && Grown(V, dg, dst, k, maxflow, order)
      decreases |V - vT|
    {
      var ie := NextLink(V, dg', dst, vT, k, maxflow);
      if ie.None? {
        return None, dg', order;
      }
      var l := ie.value;
      Grow(vT, dst, iT, l);
      GrowMore(V, dg, dst, k, maxflow, order, l);
      SubsetSize(V - (vT + {l.tgt}), V - vT - {l.tgt});
      vT := vT + {l.tgt};
      dg' := dg' - {l};
      iT := iT + {l};
      order := order + [l];
    }
    tree := Some(iT);
  }

  lemma NothingGrown(V: set<Vertex>, dg: set<Link>, dst: Vertex, k: nat, maxflow: MaxFlow)
    ensures Grown(V, dg, dst, k, maxflow, []) && Taken([]) == {} && Reached(dst, []) == {dst}
  {
  }

  lemma RootOnly(r: Vertex)
    ensures Branching({r}, r, {})
  {
  }

  /** Spanning branchings, no two of which share a link. */
  ghost predicate DisjointBranchings(V: set<Vertex>, dst: Vertex, dg: set<Link>, forest: seq<set<Link>>, left: set<Link>) {
    && (forall i | 0 <= i < |forest| :: Branching(V, dst, forest[i]) && forest[i] <= dg && forest[i] !! left)
    && (forall i, j | 0 <= i < j < |forest| :: forest[i] !! forest[j]) && left <= dg
  }

  function AllTaken(orders: seq<seq<Link>>): set<Link> {
    set o <- orders, l <- o :: l
  }

  /** Tree after tree was grown, out of what the trees before it left, with room for one tree less each time. */
  ghost predicate GrownForest(V: set<Vertex>, dg: set<Link>, dst: Vertex, connectivity: nat, maxflow: MaxFlow, orders: seq<seq<Link>>,
                              forest: seq<set<Link>>) {
    && |orders| == |forest| <= connectivity
    && forall i: nat | i < |orders| ::
         forest[i] == Taken(orders[i]) && Grown(V, dg - AllTaken(orders[..i]), dst, connectivity - i, maxflow, orders[i])
  }

  lemma ForestGrows(V: set<Vertex>, dg: set<Link>, dst: Vertex, connectivity: nat, maxflow: MaxFlow, orders: seq<seq<Link>>, forest: seq<set<Link>>,
                    order: seq<Link>)
    requires GrownForest(V, dg, dst, connectivity, maxflow, orders, forest) && |forest| < connectivity
    requires Grown(V, dg - AllTaken(orders), dst, connectivity - |forest|, maxflow, order)
    ensures GrownForest(V, dg, dst, connectivity, maxflow, orders + [order], forest + [Taken(order)])
    ensures AllTaken(orders + [order]) == AllTaken(orders) + Taken(order)
  {
    hide Grown, AllTaken;
    var os, fs := orders + [order], forest + [Taken(order)];
    TakenMore(orders, order);
    forall i: nat | i < |os|
      ensures fs[i] == Taken(os[i]) && Grown(V, dg - AllTaken(os[..i]), dst, connectivity - i, maxflow, os[i])
    {
      if i < |orders| {
        assert os[..i] == orders[..i] && os[i] == orders[i] && fs[i] == forest[i];
      } else {
        assert os[..i] == orders;
      }
    }
  }

  lemma TakenMore(orders: seq<seq<Link>>, order: seq<Link>)
    ensures AllTaken(orders + [order]) == AllTaken(orders) + Taken(order)
  {
    var os := orders + [order];
    assert os[|orders|] == order;
    forall l | l in AllTaken(orders) ensures l in AllTaken(os) {
      var o :| o in orders && l in o;
      assert o in os;
    }
  }

  /** One branching after the other, as long as they can be grown; `connectivity` is the library's answer. */
  method AdstForest(V: set<Vertex>, dg: set<Link>, dst: Vertex, connectivity: nat, numTrees: nat, quitEarly: bool, maxflow: MaxFlow)
    returns (forest: seq<set<Link>>, ghost left: set<Link>, ghost orders: seq<seq<Link>>)
    requires dst in V && forall l <- dg :: l.src in V && l.tgt in V
    ensures |forest| <= connectivity && (quitEarly ==> |forest| <= numTrees)
    ensures DisjointBranchings(V, dst, dg, forest, left) && GrownForest(V, dg, dst, connectivity, maxflow, orders, forest)
    ensures left == dg - AllTaken(orders)
    ensures |forest| < connectivity && !(quitEarly && |forest| == numTrees) ==> GrowsStuck(V, left, dst, connectivity - |forest|, maxflow)
  {
    hide Branching, Grown, StuckAt, GrownForest;
    forest, left, orders := [], dg, [];
    NoForest(V, dg, dst, connectivity, maxflow);
    if quitEarly && numTrees == 0 {
      return;
    }
    var rest, k := dg, connectivity;
    while k > 0
      invariant DisjointBranchings(V, dst, dg, forest, left) && |forest| + k == connectivity
      invariant GrownForest(V, dg, dst, connectivity, maxflow, orders, forest) && left == rest == dg - AllTaken(orders)
      invariant quitEarly ==> |forest| < numTrees
    {
      ghost var order;
      var iT, rest' := None, {};
      iT, rest', order := AdstTree(V, rest, dst, k, maxflow);
      if iT.None? {
        return;
      }
      ForestGrows(V, dg, dst, connectivity, maxflow, orders, forest, order);
      forest, orders := forest + [iT.value], orders + [order];
      rest, left := rest', rest';
      if quitEarly && |forest| >= numTrees {
        return;
      }
      k := k - 1;
    }
  }

  lemma NoForest(V: set<Vertex>, dg: set<Link>, dst: Vertex, connectivity: nat, maxflow: MaxFlow)
    ensures GrownForest(V, dg, dst, connectivity, maxflow, [], []) && AllTaken([]) == {}
  {
  }

  /** The arcs by which packets for the destination use a branching: against its links. */
  function RoutingArcs(T: set<Link>): set<(Vertex, Edge)> {
    set l <- T :: (l.tgt, l.e)
  }

  /** Both directions of every edge, as links. */
  ghost predicate FromEdges(dg: set<Link>) {
    forall l <- dg :: (l.src, l.tgt) == (l.e.v1, l.e.v2) || (l.src, l.tgt) == (l.e.v2, l.e.v1)
  }

  /** Branchings that share no link route over different arcs, where no edge is a loop. */
  lemma ArcsDisjoint(dg: set<Link>, S: set<Link>, T: set<Link>)
    requires FromEdges(dg) && S <= dg && T <= dg && S !! T && forall l <- dg :: l.e.v1 != l.e.v2
    ensures RoutingArcs(S) !! RoutingArcs(T)
  {
  }
}
