/** From a topology to delivered packets: forests, paths, tables and walks together. */
module TreeNetworks {
  import opened Wrappers
  import opened Digraphs
  import opened FiniteSets
  import opened Topology
  import opened TreePaths
  import opened ForestPaths
  import opened TreeWalk
  import S = SpanningTrees
  import B = Branchings
  import T = TreeTables
  import R = TreeRouting
  import D = DfrTables
  import Ttg
  import RandomDag
  import L = Deadlock

  ghost predicate AllLeadTo(g: Graph, dst: Vertex, forest: seq<set<Arc>>)
    requires WellFormed(g)
  {
    forall arcs <- forest :: LeadsTo(g, dst, arcs)
  }

  lemma LeadConcat(g: Graph, dst: Vertex, a: seq<set<Arc>>, b: seq<set<Arc>>)
    requires WellFormed(g) && AllLeadTo(g, dst, a) && AllLeadTo(g, dst, b)
    ensures forall arcs <- a + b :: LeadsTo(g, dst, arcs)
  {
    hide LeadsTo, WellFormed;
  }

  /** The default trees come first, then the resilient ones. */
  function PlanOf(trees: seq<Tree>, defaults: nat): (plan: T.Plan)
    requires defaults <= |trees|
    ensures plan.dtrees == Below(defaults) && (forall t: nat :: t in plan.rtrees <==> defaults <= t < |trees|)
  {
    T.Plan(trees, Below(defaults), Below(|trees|) - Below(defaults))
  }

  lemma PlanIsGood(g: Graph, dst: Vertex, trees: seq<Tree>, defaults: nat)
    requires WellFormed(g) && dst in g.V && GoodForest(g, dst, trees) && defaults <= |trees|
    ensures T.GoodPlan(g, dst, PlanOf(trees, defaults)) && |PlanOf(trees, defaults).rtrees| == |trees| - defaults
  {
    ResilientTrees(trees, defaults);
  }

  /** The plan routes over these trees, default ones first; the packet starts on one of those, or of all when there are none. */
  ghost predicate RoutesOver(plan: T.Plan, arcs: seq<set<Arc>>, defaults: nat, itree: nat) {
    && |plan.forest| == |arcs| && (forall i | 0 <= i < |arcs| :: plan.forest[i].arcs == arcs[i])
    && defaults <= |arcs| && plan == PlanOf(plan.forest, defaults) && itree < if defaults > 0 then defaults else |arcs|
  }

  lemma OverTrees(g: Graph, trees: seq<Tree>, arcs: seq<set<Arc>>, defaults: nat, itree: nat)
    requires |trees| == |arcs| && defaults <= |arcs| && forall i | 0 <= i < |arcs| :: trees[i].arcs == arcs[i]
    requires itree < if defaults > 0 then defaults else |arcs|
    ensures var plan := PlanOf(trees, defaults);
      && plan.forest == trees && RoutesOver(plan, arcs, defaults, itree) && itree in plan.dtrees + plan.rtrees
      && T.HopBound(g, plan, itree) == (|trees| - defaults + if defaults == 0 then 0 else 1) * LongestPath(g)
  {
    hide LongestPath;
    ResilientTrees(trees, defaults);
    var k := |PlanOf(trees, defaults).rtrees| + if itree in PlanOf(trees, defaults).rtrees then 0 else 1;
    assert k == |trees| - defaults + if defaults == 0 then 0 else 1;
  }

  lemma ResilientTrees(trees: seq<Tree>, defaults: nat)
    requires defaults <= |trees|
    ensures |PlanOf(trees, defaults).rtrees| == |trees| - defaults
  {
    assert Below(|trees|) == PlanOf(trees, defaults).rtrees + Below(defaults);
  }

  // ---------- Edge-disjoint trees ----------

  /** The trees of the forest as arcs, both ways. */
  function ArcSets(forest: seq<set<Edge>>): (arcs: seq<set<Arc>>)
    ensures |arcs| == |forest| && forall i | 0 <= i < |forest| :: arcs[i] == ArcsOf(forest[i])
  {
    seq(|forest|, i requires 0 <= i < |forest| => ArcsOf(forest[i]))
  }

  lemma ForestLeadsTo(g: Graph, dst: Vertex, forest: seq<set<Edge>>)
    requires WellFormed(g) && dst in g.V && S.DisjointTrees(g.V, g.ports.Values, forest)
    ensures AllLeadTo(g, dst, ArcSets(forest))
  {
    forall arcs <- ArcSets(forest) ensures LeadsTo(g, dst, arcs) {
      var i :| 0 <= i < |forest| && arcs == ArcsOf(forest[i]);
      CableEnds(g, forest[i]);
      TreeLeadsTo(g, dst, forest[i]);
    }
  }

  /** Arcs of different trees belong to different edges. */
  lemma ArcsApart(g: Graph, forest: seq<set<Edge>>, i: nat, j: nat, a: Arc, b: Arc)
    requires S.DisjointTrees(g.V, g.ports.Values, forest) && i < |forest| && j < |forest| && i != j
    requires a in ArcsOf(forest[i]) && b in ArcsOf(forest[j])
    ensures a.1 != b.1
  {
    hide S.SpanningTree, WellFormed;
    assert forest[if i < j then i else j] !! forest[if i < j then j else i];
    assert a.1 in forest[i] && b.1 in forest[j];
  }

  lemma TreesShareNoEdge(g: Graph, forest: seq<set<Edge>>, trees: seq<Tree>, defaults: nat)
    requires S.DisjointTrees(g.V, g.ports.Values, forest) && |trees| == defaults + |forest|
    requires forall i | 0 <= i < |forest| :: trees[defaults + i].arcs == ArcsOf(forest[i])
    ensures T.EdgeDisjoint(PlanOf(trees, defaults))
    ensures defaults == 0 ==> D.EdgeDisjoint(trees)
  {
    hide S.DisjointTrees, ArcsOf;
    forall i: nat, j: nat, a, b | defaults <= i < |trees| && defaults <= j < |trees| && i != j && a in trees[i].arcs && b in trees[j].arcs
      ensures a.1 != b.1
    {
      assert trees[defaults + (i - defaults)].arcs == ArcsOf(forest[i - defaults]);
      assert trees[defaults + (j - defaults)].arcs == ArcsOf(forest[j - defaults]);
      ArcsApart(g, forest, i - defaults, j - defaults, a, b);
    }
  }

  /**
   Edge-disjoint routing from the topology on: whatever edges were picked for the trees, a packet is delivered over
   working cables after any failures fewer than the trees. `defaults` are the default trees, if any.
   */
  method EdstNetwork(g: Graph, dst: Vertex, defaults: seq<set<Arc>>, numTrees: nat, quitEarly: bool, library: PathLibrary, src: Vertex, F: set<Edge>)
    returns (forest: seq<set<Edge>>, hops: Option<seq<Port>>, failExp: bool, ghost plan: T.Plan, ghost itree: nat, ghost table: FwdTable)
    requires WellFormed(g) && dst in g.V && src in g.V && (|g.V| >= 2 || quitEarly)
    requires AllLeadTo(g, dst, defaults) && FindsShortest(g, dst, library)
    ensures S.DisjointTrees(g.V, g.ports.Values, forest) && (quitEarly ==> |forest| <= numTrees)
    ensures !quitEarly || |forest| < numTrees ==> !S.Connects(g.V, g.ports.Values - S.AllEdges(forest))
    ensures hops.Some? ==> LivePath(g, F, src, dst, hops.value) && |hops.value| <= (|forest| + if defaults == [] then 0 else 1) * LongestPath(g)
    ensures |F| < |forest| ==> hops.Some?
    ensures if |defaults| + |forest| == 0 then hops.None? && failExp
            else T.GoodPlan(g, dst, plan) && RoutesOver(plan, defaults + ArcSets(forest), |defaults|, itree)
                 && R.EdstWalked(g, dst, plan, src, itree, F, table, hops, failExp)
  {
    hide S.DisjointTrees, S.Connects, S.AllEdges, LivePath, WellFormed, FindsShortest, LeadsTo, GoodForest, T.GoodPlan, T.EdgeDisjoint, AllLeadTo,
      R.EdstWalked, RoutesOver, ArcSets, PlanOf, T.HopBound;
    CableEnds(g, g.ports.Values);
    forest := S.EdstForest(g.V, Some(dst), g.ports.Values, numTrees, quitEarly);
    ForestLeadsTo(g, dst, forest);
    if |defaults| + |forest| == 0 {
      return forest, None, true, T.Plan([], {}, {}), 0, map[];
    }
    LeadConcat(g, dst, defaults, ArcSets(forest));
    var trees := RouteForest(g, dst, defaults + ArcSets(forest), library);
    var p := PlanOf(trees, |defaults|);
    var i: nat :| if |defaults| > 0 then i < |defaults| else i < |forest|;
    OverTrees(g, trees, defaults + ArcSets(forest), |defaults|, i);
    PlanIsGood(g, dst, trees, |defaults|);
    TreesShareNoEdge(g, forest, trees, |defaults|);
    plan, itree := p, i;
    hops, failExp, table := R.EdstRoute(g, dst, p, src, i, F);
  }

  // ---------- Arc-disjoint trees ----------

  /** Every edge as two links. */
  function BothLinks(es: set<Edge>): (dg: set<B.Link>)
    ensures B.FromEdges(dg) && forall l <- dg :: l.e in es
  {
    (set e <- es :: B.Link(e.v1, e.v2, e)) + (set e <- es :: B.Link(e.v2, e.v1, e))
  }

  function RoutingSets(forest: seq<set<B.Link>>): (arcs: seq<set<Arc>>)
    ensures |arcs| == |forest| && forall i | 0 <= i < |forest| :: arcs[i] == B.RoutingArcs(forest[i])
  {
    seq(|forest|, i requires 0 <= i < |forest| => B.RoutingArcs(forest[i]))
  }

  ghost predicate NoLoops(g: Graph) {
    forall e <- g.ports.Values :: e.v1 != e.v2
  }

  lemma LinksInside(g: Graph, dg: set<B.Link>)
    requires WellFormed(g) && dg == BothLinks(g.ports.Values)
    ensures forall l <- dg :: l.src in g.V && l.tgt in g.V
  {
    CableEnds(g, g.ports.Values);
  }

  lemma BranchingsLeadTo(g: Graph, dst: Vertex, dg: set<B.Link>, forest: seq<set<B.Link>>, left: set<B.Link>)
    requires WellFormed(g) && dst in g.V && dg == BothLinks(g.ports.Values) && B.DisjointBranchings(g.V, dst, dg, forest, left)
    ensures AllLeadTo(g, dst, RoutingSets(forest))
  {
    hide B.Branching;
    forall arcs <- RoutingSets(forest) ensures LeadsTo(g, dst, arcs) {
      var i :| 0 <= i < |forest| && arcs == B.RoutingArcs(forest[i]);
      CableEnds(g, set l <- forest[i] :: l.e);
      BranchingLeadsTo(g, dst, forest[i]);
    }
  }

  lemma BranchingsShareNoArc(g: Graph, dst: Vertex, dg: set<B.Link>, forest: seq<set<B.Link>>, left: set<B.Link>, trees: seq<Tree>, defaults: nat)
    requires NoLoops(g) && dg == BothLinks(g.ports.Values) && B.DisjointBranchings(g.V, dst, dg, forest, left)
    requires |trees| == defaults + |forest| && forall i | 0 <= i < |forest| :: trees[defaults + i].arcs == B.RoutingArcs(forest[i])
    ensures T.ArcDisjoint(PlanOf(trees, defaults))
  {
    hide B.Branching, B.RoutingArcs;
    forall i: nat, j: nat, a | defaults <= i < |trees| && defaults <= j < |trees| && i != j && a in trees[i].arcs ensures a !in trees[j].arcs {
      var k, l := i - defaults, j - defaults;
      assert trees[defaults + k].arcs == B.RoutingArcs(forest[k]) && trees[defaults + l].arcs == B.RoutingArcs(forest[l]);
      assert forest[if k < l then k else l] !! forest[if k < l then l else k];
      B.ArcsDisjoint(dg, forest[k], forest[l]);
    }
  }

  lemma RoutingShareNoArc(g: Graph, dst: Vertex, dg: set<B.Link>, forest: seq<set<B.Link>>, left: set<B.Link>, trees: seq<Tree>, defaults: seq<set<Arc>>)
    requires NoLoops(g) && dg == BothLinks(g.ports.Values) && B.DisjointBranchings(g.V, dst, dg, forest, left)
    requires |trees| == |defaults| + |forest| && forall i | 0 <= i < |trees| :: trees[i].arcs == (defaults + RoutingSets(forest))[i]
    ensures T.ArcDisjoint(PlanOf(trees, |defaults|))
  {
    hide B.DisjointBranchings, NoLoops, T.ArcDisjoint, BothLinks, RoutingSets, B.RoutingArcs, PlanOf;
    forall i | 0 <= i < |forest| ensures trees[|defaults| + i].arcs == B.RoutingArcs(forest[i]) {
      assert (defaults + RoutingSets(forest))[|defaults| + i] == RoutingSets(forest)[i];
    }
    BranchingsShareNoArc(g, dst, dg, forest, left, trees, |defaults|);
  }

  /**
   Arc-disjoint routing from the topology on: however many trees could be grown, a packet is delivered while twice the
   failures are fewer than the trees, and after any single failure if there are two.
   */
  method AdstNetwork(g: Graph, dst: Vertex, defaults: seq<set<Arc>>, connectivity: nat, numTrees: nat, quitEarly: bool, maxflow: B.MaxFlow,
                     library: PathLibrary, src: Vertex, F: set<Edge>)
    returns (forest: seq<set<B.Link>>, hops: Option<seq<Port>>, failExp: bool, ghost left: set<B.Link>, ghost orders: seq<seq<B.Link>>,
             ghost plan: T.Plan, ghost itree: nat, ghost table: FwdTable)
    requires WellFormed(g) && NoLoops(g) && dst in g.V && src in g.V
    requires AllLeadTo(g, dst, defaults) && FindsShortest(g, dst, library)
    ensures B.DisjointBranchings(g.V, dst, BothLinks(g.ports.Values), forest, left)
    ensures B.GrownForest(g.V, BothLinks(g.ports.Values), dst, connectivity, maxflow, orders, forest) && left == BothLinks(g.ports.Values) - B.AllTaken(orders)
    ensures quitEarly ==> |forest| <= numTrees
    ensures |forest| == connectivity || (quitEarly && |forest| == numTrees) || B.GrowsStuck(g.V, left, dst, connectivity - |forest|, maxflow)
    ensures hops.Some? ==> LivePath(g, F, src, dst, hops.value) && |hops.value| <= (|forest| + if defaults == [] then 0 else 1) * LongestPath(g)
    ensures 2 * |F| < |forest| || (|F| == 1 && |forest| >= 2) ==> hops.Some?
    ensures if |defaults| + |forest| == 0 then hops.None? && failExp
            else T.GoodPlan(g, dst, plan) && RoutesOver(plan, defaults + RoutingSets(forest), |defaults|, itree)
                 && R.AdstWalked(g, dst, plan, src, itree, F, table, hops, failExp)
  {
    hide B.DisjointBranchings, LivePath, WellFormed, FindsShortest, LeadsTo, GoodForest, T.GoodPlan, T.ArcDisjoint, NoLoops, BothLinks, AllLeadTo,
      R.AdstWalked, RoutesOver, RoutingSets, PlanOf, T.HopBound, B.GrownForest, B.GrowsStuck, B.AllTaken;
    var dg := BothLinks(g.ports.Values);
    LinksInside(g, dg);
    forest, left, orders := B.AdstForest(g.V, dg, dst, connectivity, numTrees, quitEarly, maxflow);
    if |defaults| + |forest| == 0 {
      return forest, None, true, left, orders, T.Plan([], {}, {}), 0, map[];
    }
    BranchingsLeadTo(g, dst, dg, forest, left);
    LeadConcat(g, dst, defaults, RoutingSets(forest));
    var trees := RouteForest(g, dst, defaults + RoutingSets(forest), library);
    var p := PlanOf(trees, |defaults|);
    var i: nat :| if |defaults| > 0 then i < |defaults| else i < |forest|;
    OverTrees(g, trees, defaults + RoutingSets(forest), |defaults|, i);
    PlanIsGood(g, dst, trees, |defaults|);
    RoutingShareNoArc(g, dst, dg, forest, left, trees, defaults);
    plan, itree := p, i;
    hops, failExp, table := R.AdstRoute(g, dst, p, src, i, F);
  }

  // ---------- Deadlock-free routing ----------

  /** Every destination comes with its shortest paths inside the trees. */
  ghost predicate GoodRequests(g: Graph, requests: map<Vertex, PathLibrary>)
    requires WellFormed(g)
  {
    forall dst <- requests :: dst in g.V && FindsShortest(g, dst, requests[dst])
  }

  lemma RequestAt(g: Graph, requests: map<Vertex, PathLibrary>, dst: Vertex)
    requires WellFormed(g) && GoodRequests(g, requests) && dst in requests
    ensures dst in g.V && FindsShortest(g, dst, requests[dst])
  {
  }

  /** The plan is one for the destination over the TTG, and its layers hold the trees chosen for the destination. */
  ghost predicate PlanFor(g: Graph, dst: Vertex, t: Ttg.Graph, level: seq<nat>, layers: nat, numTrees: int, maxl1: nat, plan: D.Plan) {
    D.GoodPlan(g, dst, plan) && |plan.forest| == t.n && R.LaidFor(g, dst, plan.forest, t, level, layers, numTrees, maxl1, plan.layers)
  }

  /** Every switch lists the trees of each layer in one order. */
  ghost predicate InOrder(g: Graph, dst: Vertex, plan: D.Plan, table: FwdTable, perf: bool) {
    forall v <- g.V | v != dst :: D.ServedInOrder(g, plan, v, table, perf)
  }

  /** The layers and the tables of one destination. */
  method LayDestination(g: Graph, dst: Vertex, forest: seq<set<Edge>>, t: Ttg.Graph, reach: Digraph, library: PathLibrary, numTrees: int, maxl1: nat,
                        perf: bool, ghost level: seq<nat>, ghost layers: nat)
    returns (plan: D.Plan, table: FwdTable)
    requires WellFormed(g) && dst in g.V && FindsShortest(g, dst, library)
    requires S.DisjointTrees(g.V, g.ports.Values, forest) && |forest| == t.n && t.n > 0
    requires Ttg.GoodTtg(t, level, layers) && forall a: nat, b: nat :: (a, b) in reach <==> Reaches(t.E, a, b)
    ensures D.GoodPlan(g, dst, plan) && D.GoodTable(g, dst, plan, table) && plan.E == t.E && L.ForestOf(forest, plan.forest)
    ensures PlanFor(g, dst, t, level, layers, numTrees, maxl1, plan) && InOrder(g, dst, plan, table, perf)
  {
    hide S.DisjointTrees, D.ServedInOrder, WellFormed, FindsShortest, LeadsTo, GoodForest, D.GoodPlan, D.GoodTable, Ttg.GoodTtg, Reaches, R.LaidWith;
    ForestLeadsTo(g, dst, forest);
    var trees := RouteForest(g, dst, ArcSets(forest), library);
    var top;
    plan, top := R.LayTrees(g, dst, trees, t, reach, numTrees, maxl1, level, layers);
    table := D.DfrFwdtable(g, dst, plan, perf);
  }

  /** One forest and one TTG for all destinations, as virtual channels demand. */
  method LayNetwork(g: Graph, forest: seq<set<Edge>>, t: Ttg.Graph, reach: Digraph, requests: map<Vertex, PathLibrary>, numTrees: int, maxl1: nat,
                    perf: bool, ghost level: seq<nat>, ghost layers: nat)
    returns (net: L.Net)
    requires WellFormed(g) && GoodRequests(g, requests)
    requires S.DisjointTrees(g.V, g.ports.Values, forest) && |forest| == t.n && t.n > 0
    requires Ttg.GoodTtg(t, level, layers) && forall a: nat, b: nat :: (a, b) in reach <==> Reaches(t.E, a, b)
    ensures L.GoodNet(net) && net.g == g && net.trees == forest && net.E == t.E && net.plans.Keys == requests.Keys
    ensures net.tables.Keys == requests.Keys
    ensures forall dst <- requests ::
      PlanFor(g, dst, t, level, layers, numTrees, maxl1, net.plans[dst]) && InOrder(g, dst, net.plans[dst], net.tables[dst], perf)
  {
    hide InOrder, S.DisjointTrees, WellFormed, GoodRequests, FindsShortest, D.GoodPlan, D.GoodTable, Ttg.GoodTtg, Reaches, L.ForestOf, L.SpanningTrees, PlanFor;
    var plans: map<Vertex, D.Plan>, tables: map<Vertex, FwdTable>, todo := map[], map[], requests.Keys;
    while todo != {}
      invariant todo <= requests.Keys && plans.Keys == tables.Keys == requests.Keys - todo
      invariant forall dst <- plans :: L.GoodDst(L.Net(g, forest, t.E, plans, tables), dst)
      invariant forall dst <- plans ::
        PlanFor(g, dst, t, level, layers, numTrees, maxl1, plans[dst]) && InOrder(g, dst, plans[dst], tables[dst], perf)
      decreases |todo|
    {
      var dst :| dst in todo;
      RequestAt(g, requests, dst);
      var plan, table := LayDestination(g, dst, forest, t, reach, requests[dst], numTrees, maxl1, perf, level, layers);
      SubsetSize(todo - {dst}, todo);
      plans, tables, todo := plans[dst := plan], tables[dst := table], todo - {dst};
    }
    net := L.Net(g, forest, t.E, plans, tables);
    ForestSpans(g, forest);
  }

  lemma ForestSpans(g: Graph, forest: seq<set<Edge>>)
    requires S.DisjointTrees(g.V, g.ports.Values, forest)
    ensures L.SpanningTrees(g, forest)
  {
  }

  /** Every packet of the network survives fewer failures than there are layers from its own on. */
  lemma NetworkSurvives(net: L.Net, dst: Vertex, src: Vertex, itree: nat, k: nat, F: set<Edge>)
    requires L.GoodNet(net) && dst in net.plans && src in net.g.V && D.InLayer(net.plans[dst], itree, k)
    requires |F| < |net.plans[dst].layers| - k
    ensures L.GoodDst(net, dst) && WellFormed(net.g) && TableValid(net.g, net.tables[dst])
    ensures Run(net.g, dst, net.tables[dst], F, Start(src, itree), D.HopBound(net.g, net.plans[dst], itree)).Delivered?
  {
    hide D.GoodPlan, D.GoodTable, D.InLayer, WellFormed, TableValid, Run;
    var plan := net.plans[dst];
    assert L.GoodDst(net, dst);
    D.TableIsValid(net.g, dst, plan, net.tables[dst]);
    assert D.EdgeDisjoint(plan.forest) by {
      forall i, j, a, b | 0 <= i < j < |plan.forest| && a in plan.forest[i].arcs && b in plan.forest[j].arcs ensures a.1 != b.1 {
        assert net.trees[i] !! net.trees[j] && a.1 in net.trees[i] && b.1 in net.trees[j];
      }
    }
    D.LayersSurvive(net.g, dst, plan, net.tables[dst], F, src, itree, k);
  }

  /** In the layers of a random or maximal DAG, every first-layer tree in use survives `randRes` failures. */
  lemma RandMaxPlan(g: Graph, dst: Vertex, t: Ttg.Graph, level: seq<nat>, randRes: nat, numTrees: int, plan: D.Plan)
    requires numTrees < 0 || numTrees > randRes
    requires Ttg.GoodTtg(t, level, randRes + 1) && Ttg.RandMaxLevels(t.n, randRes, level)
    requires PlanFor(g, dst, t, level, randRes + 1, numTrees, R.Used(t.n, numTrees) - randRes, plan)
    ensures R.RandMaxLayers(t.n, randRes, R.Used(t.n, numTrees), plan.layers)
  {
    hide R.LaidFor, Acyclic, Ttg.Tiered;
    R.LaidRandMax(g, dst, plan.forest, t, level, randRes, numTrees, plan.layers);
  }

  /**
   Deadlock-free routing from the topology on, with a random TTG: the tables of all destinations together never make
   channels wait for each other in a circle, and every destination keeps `randRes + 1` layers, so that a packet that starts
   in the first one survives `randRes` failures. There is no such network only if there are not enough trees.
   */
  method RandDagNetwork(g: Graph, randRes: nat, isDag: Digraph -> bool, reachable: Digraph -> Digraph, requests: map<Vertex, PathLibrary>, numTrees: int,
                        perf: bool)
    returns (forest: seq<set<Edge>>, r: Option<L.Net>, ghost first: Digraph, ghost trace: seq<Digraph>)
    requires WellFormed(g) && |g.V| >= 2 && GoodRequests(g, requests) && (numTrees < 0 || numTrees > randRes)
    requires (forall X :: isDag(X) <==> Acyclic(X)) && forall E, a: nat, b: nat :: (a, b) in reachable(E) <==> Reaches(E, a, b)
    ensures S.DisjointTrees(g.V, g.ports.Values, forest) && !S.Connects(g.V, g.ports.Values - S.AllEdges(forest))
    ensures r.None? <==> |forest| <= randRes
    ensures r.Some? ==> L.GoodNet(r.value) && r.value.g == g && r.value.trees == forest && r.value.plans.Keys == requests.Keys
    ensures r.Some? ==> forall dst <- requests :: R.RandMaxLayers(|forest|, randRes, R.Used(|forest|, numTrees), r.value.plans[dst].layers)
    ensures r.Some? ==> r.value.tables.Keys == requests.Keys && forall dst <- requests :: InOrder(g, dst, r.value.plans[dst], r.value.tables[dst], perf)
    ensures r.Some? ==> RandomDag.RandomFirst(|forest| - randRes, first, trace) && Ttg.ChainBehind(first, r.value.E, |forest| - randRes, |forest|)
    ensures r.Some? ==> forall chain | |chain| >= 2 && L.DepChain(r.value, chain) :: chain[0] != chain[|chain| - 1]
  {
    hide S.DisjointTrees, S.Connects, WellFormed, GoodRequests, Acyclic, Reaches, Ttg.GoodTtg, L.GoodNet, L.DepChain, R.RandMaxLayers, PlanFor,
      InOrder, RandomDag.RandomFirst, Ttg.RandMaxLevels, Ttg.ChainBehind, S.AllEdges;
    CableEnds(g, g.ports.Values);
    forest := S.EdstForest(g.V, None, g.ports.Values, 0, false);
    if |forest| <= randRes {
      return forest, None, {}, [];
    }
    var t;
    ghost var level, layers;
    t, level, layers, first, trace := RandomDag.TtgRandDag(|forest|, randRes, isDag);
    R.TtgLevels(t, level, layers);
    var net := LayNetwork(g, forest, t, reachable(t.E), requests, numTrees, R.Used(|forest|, numTrees) - randRes, perf, level, layers);
    RandMaxPlans(g, requests.Keys, t, level, randRes, numTrees, net.plans);
    NoCircle(net);
    r := Some(net);
  }

  lemma RandMaxPlans(g: Graph, dsts: set<Vertex>, t: Ttg.Graph, level: seq<nat>, randRes: nat, numTrees: int, plans: map<Vertex, D.Plan>)
    requires (numTrees < 0 || numTrees > randRes) && dsts <= plans.Keys
    requires Ttg.GoodTtg(t, level, randRes + 1) && Ttg.RandMaxLevels(t.n, randRes, level)
    requires forall dst <- dsts :: PlanFor(g, dst, t, level, randRes + 1, numTrees, R.Used(t.n, numTrees) - randRes, plans[dst])
    ensures forall dst <- dsts :: R.RandMaxLayers(t.n, randRes, R.Used(t.n, numTrees), plans[dst].layers)
  {
    hide PlanFor, R.RandMaxLayers, Ttg.GoodTtg;
    forall dst <- dsts ensures R.RandMaxLayers(t.n, randRes, R.Used(t.n, numTrees), plans[dst].layers) {
      RandMaxPlan(g, dst, t, level, randRes, numTrees, plans[dst]);
    }
  }

  lemma NoCircle(net: L.Net)
    requires L.GoodNet(net)
    ensures forall chain | |chain| >= 2 && L.DepChain(net, chain) :: chain[0] != chain[|chain| - 1]
  {
    hide L.GoodNet, L.DepChain;
    forall chain | |chain| >= 2 && L.DepChain(net, chain) ensures chain[0] != chain[|chain| - 1] {
      L.DeadlockFree(net, chain);
    }
  }
}
