/** Deadlock-free tree routing: packets carry no failed trees, and may only move on along the tree-transition graph. */
module DfrTables {
  import opened Wrappers
  import opened FiniteSets
  import opened Topology
  import opened TreePaths
  import opened TreeWalk
  import opened Digraphs

  /**
   The trees of one destination, the TTG, and the layers in use. `reach` is the library's answer to which tree
   reaches which.
   */
  datatype Plan = Plan(forest: seq<Tree>, E: Digraph, reach: Digraph, layers: seq<set<nat>>)

  ghost predicate InLayer(plan: Plan, t: nat, k: nat) {
    k < |plan.layers| && t in plan.layers[k]
  }

  ghost predicate ReachKnown(plan: Plan) {
    Acyclic(plan.E) && forall a: nat, b: nat :: (a, b) in plan.reach <==> Reaches(plan.E, a, b)
  }

  /** Every tree of a layer in use reaches every tree of the later layers in use. */
  ghost predicate LayersReach(plan: Plan) {
    && (forall j, k, a: nat, b: nat | 0 <= j < k < |plan.layers| && a in plan.layers[j] && b in plan.layers[k] ::
          (a, b) in plan.reach)
    && (forall k | 0 <= k < |plan.layers| :: plan.layers[k] != {})
  }

  ghost predicate GoodPlan(g: Graph, dst: Vertex, plan: Plan) {
    && WellFormed(g) && dst in g.V && GoodForest(g, dst, plan.forest) && ReachKnown(plan) && LayersReach(plan)
    && (forall k, t: nat | 0 <= k < |plan.layers| && t in plan.layers[k] :: t < |plan.forest|)
  }

  /** A tree is in one layer only, since a tree does not reach itself. */
  lemma OneLayer(g: Graph, dst: Vertex, plan: Plan, t: nat, j: nat, k: nat)
    requires GoodPlan(g, dst, plan) && InLayer(plan, t, j) && InLayer(plan, t, k)
    ensures j == k
  {
    assert j < k ==> (t, t) in plan.reach;
    assert k < j ==> (t, t) in plan.reach;
  }

  /** The entries of `v` for the trees `prefs`; no tree is ever marked as failed. */
  ghost predicate Lists(g: Graph, forest: seq<Tree>, v: Vertex, prefs: seq<nat>, entries: seq<Entry>) {
    && |entries| == |prefs|
    && forall i | 0 <= i < |prefs| ::
         && prefs[i] < |forest| && HasHop(g, forest[prefs[i]], v)
         && entries[i] == Entry(prefs[i], HopEdge(g, forest[prefs[i]], v), HopPort(forest[prefs[i]], v), {})
  }

  /** Tree `x` is in one of the layers `k..l`. */
  ghost predicate Within(plan: Plan, x: nat, k: nat, l: nat) {
    exists m: nat :: k <= m <= l && InLayer(plan, x, m)
  }

  /** The preferences from tree `t` of layer `k`: `t`, then the trees it reaches, layer by layer. */
  ghost predicate GoodPrefs(plan: Plan, prefs: seq<nat>, t: nat, k: nat) {
    && prefs != [] && prefs[0] == t
    && (forall i | 1 <= i < |prefs| :: (t, prefs[i]) in plan.reach)
    && (forall i | 0 <= i < |prefs| :: Within(plan, prefs[i], k, |plan.layers|))
    && (forall l, x: nat | k < l < |plan.layers| && x in plan.layers[l] :: x in prefs)
    && (forall i, j, l: nat, m: nat | 0 <= i < j < |prefs| && InLayer(plan, prefs[i], l) && InLayer(plan, prefs[j], m) :: l <= m)
  }

  ghost predicate GoodEntries(g: Graph, plan: Plan, v: Vertex, t: nat, k: nat, entries: seq<Entry>) {
    exists prefs :: Lists(g, plan.forest, v, prefs, entries) && GoodPrefs(plan, prefs, t, k) && Exact(plan, prefs, t, k)
  }

  /** Every tree is listed once, and all that `t` reaches are listed, in its own layer too. */
  ghost predicate Exact(plan: Plan, prefs: seq<nat>, t: nat, k: nat) {
    NoDup(prefs) && forall l, x: nat | k <= l < |plan.layers| && x in plan.layers[l] && (t, x) in plan.reach :: x in prefs
  }

  /** Behind the packet's own tree, the trees of one layer are listed nearest first. */
  ghost predicate NearestFirst(plan: Plan, v: Vertex, entries: seq<Entry>) {
    forall i, j, l: nat | 1 <= i < j < |entries| && InLayer(plan, entries[i].tree, l) && InLayer(plan, entries[j].tree, l) ::
      DepthIn(plan.forest, entries[i].tree, v) <= DepthIn(plan.forest, entries[j].tree, v)
  }

  ghost predicate GoodTable(g: Graph, dst: Vertex, plan: Plan, table: FwdTable) {
    && TableValid(g, table)
    && forall v, t: nat, k: nat | v in g.V && v != dst && InLayer(plan, t, k) ::
         (v, t) in table && GoodEntries(g, plan, v, t, k, table[(v, t)])
  }

  lemma TableIsValid(g: Graph, dst: Vertex, plan: Plan, table: FwdTable)
    requires GoodPlan(g, dst, plan) && GoodTable(g, dst, plan, table)
    ensures WellFormed(g) && TableValid(g, table)
  {
  }

  // ---------- The walk ----------

  /** Some tree of layer `k` leaves a switch by a failed edge. */
  ghost predicate LayerFails(g: Graph, dst: Vertex, plan: Plan, F: set<Edge>, k: nat) {
    exists t: nat :: InLayer(plan, t, k) && t < |plan.forest| && FailsUnder(g, dst, plan.forest[t], F)
  }

  /** A packet is on a tree in use, in layer `k`, and has no failed trees. */
  ghost predicate Inv(g: Graph, plan: Plan, s: State, k: nat) {
    s.v in g.V && InLayer(plan, s.ctree, k) && s.failed == {}
  }

  /** The trees a packet on `t` may still move on to. */
  function Beyond(plan: Plan, t: nat): (r: set<nat>)
    ensures forall x: nat :: x in r <==> (t, x) in plan.reach
  {
    set x | x in plan.reach && x.0 == t :: x.1
  }

  /** The hops left, if every tree still ahead is tried. */
  function Budget(g: Graph, plan: Plan, s: State): nat {
    Span(|Beyond(plan, s.ctree)|, LongestPath(g)) + DepthIn(plan.forest, s.ctree, s.v)
  }

  lemma EntryAt(g: Graph, forest: seq<Tree>, v: Vertex, prefs: seq<nat>, entries: seq<Entry>, i: nat)
    requires Lists(g, forest, v, prefs, entries) && i < |entries|
    ensures |prefs| == |entries| && prefs[i] < |forest| && HasHop(g, forest[prefs[i]], v)
    ensures entries[i] == Entry(prefs[i], HopEdge(g, forest[prefs[i]], v), HopPort(forest[prefs[i]], v), {})
  {
  }

  /** An entry that is passed over leaves by a failed edge, so its layer has a failure. */
  lemma SkippedFails(g: Graph, dst: Vertex, plan: Plan, F: set<Edge>, v: Vertex, prefs: seq<nat>, entries: seq<Entry>, i: nat, k: nat)
    requires v in g.V && v != dst && Lists(g, plan.forest, v, prefs, entries)
    requires i < FirstUsable(entries, {}, F) && InLayer(plan, prefs[i], k)
    ensures LayerFails(g, dst, plan, F, k)
  {
    EntryAt(g, plan.forest, v, prefs, entries, i);
    assert !Usable(entries[i], {}, F);
    assert FailsUnder(g, dst, plan.forest[prefs[i]], F);
  }

  /** Moving on to a reachable tree leaves fewer trees ahead. */
  lemma BeyondShrinks(g: Graph, dst: Vertex, plan: Plan, t: nat, u: nat)
    requires GoodPlan(g, dst, plan) && (t, u) in plan.reach
    ensures |Beyond(plan, u)| < |Beyond(plan, t)|
  {
    forall x <- Beyond(plan, u) ensures x in Beyond(plan, t) - {u} {
      ReachesTrans(plan.E, t, u, x);
      assert x != u;
    }
    SubsetSize(Beyond(plan, u), Beyond(plan, t) - {u});
  }

  /** Taking the entry at position `i` leads to a tree of the same or a later layer; all layers passed over have a failure. */
  lemma HopClimbs(g: Graph, dst: Vertex, plan: Plan, F: set<Edge>, s: State, k: nat, prefs: seq<nat>, entries: seq<Entry>, i: nat)
    returns (k': nat)
    requires GoodPlan(g, dst, plan) && Inv(g, plan, s, k) && s.v != dst
    requires Lists(g, plan.forest, s.v, prefs, entries) && GoodPrefs(plan, prefs, s.ctree, k)
    requires i == FirstUsable(entries, {}, F) && i < |entries|
    ensures i < |prefs| && k <= k' && InLayer(plan, prefs[i], k')
    ensures forall j: nat | k <= j < k' :: LayerFails(g, dst, plan, F, j)
    ensures prefs[i] == s.ctree || (s.ctree, prefs[i]) in plan.reach
  {
    assert Within(plan, prefs[i], k, |plan.layers|);
    k' :| k <= k' && InLayer(plan, prefs[i], k');
    forall j: nat | k <= j < k' ensures LayerFails(g, dst, plan, F, j) {
      if j == k {
        if i == 0 {
          OneLayer(g, dst, plan, s.ctree, k, k');
        }
        SkippedFails(g, dst, plan, F, s.v, prefs, entries, 0, k);
      } else {
        LayerPassedOver(g, dst, plan, F, s.v, s.ctree, k, prefs, entries, i, k', j);
      }
    }
  }

  lemma LayerPassedOver(g: Graph, dst: Vertex, plan: Plan, F: set<Edge>, v: Vertex, t: nat, k: nat, prefs: seq<nat>, entries: seq<Entry>,
                        i: nat, k': nat, j: nat)
    requires GoodPlan(g, dst, plan) && v in g.V && v != dst
    requires Lists(g, plan.forest, v, prefs, entries) && GoodPrefs(plan, prefs, t, k)
    requires i == FirstUsable(entries, {}, F) && i < |entries| && InLayer(plan, prefs[i], k') && k < j < k'
    requires plan.layers[j] != {}
    ensures LayerFails(g, dst, plan, F, j)
  {
    var x :| x in plan.layers[j];
    assert x in prefs;
    var p :| 0 <= p < |prefs| && prefs[p] == x;
    assert InLayer(plan, prefs[p], j);
    assert p < i by {
      if p == i {
        OneLayer(g, dst, plan, x, j, k');
      }
    }
    SkippedFails(g, dst, plan, F, v, prefs, entries, p, j);
  }

  /** The preferences behind the entries that a packet meets. */
  lemma PrefsAt(g: Graph, dst: Vertex, plan: Plan, table: FwdTable, s: State, k: nat) returns (prefs: seq<nat>)
    requires GoodTable(g, dst, plan, table) && Inv(g, plan, s, k) && s.v != dst
    ensures TableValid(g, table) && (s.v, s.ctree) in table && s.failed == {}
    ensures Lists(g, plan.forest, s.v, prefs, table[(s.v, s.ctree)]) && GoodPrefs(plan, prefs, s.ctree, k)
  {
    assert GoodEntries(g, plan, s.v, s.ctree, k, table[(s.v, s.ctree)]);
    prefs :| Lists(g, plan.forest, s.v, prefs, table[(s.v, s.ctree)]) && GoodPrefs(plan, prefs, s.ctree, k);
  }

  /** One hop: the packet stays in its layer or climbs past layers with failures, and uses up budget. */
  lemma StepClimbs(g: Graph, dst: Vertex, plan: Plan, table: FwdTable, F: set<Edge>, s: State, k: nat) returns (k': nat)
    requires GoodPlan(g, dst, plan) && GoodTable(g, dst, plan, table) && Inv(g, plan, s, k) && s.v != dst
    ensures match Step(g, table, F, s)
      case None => k' == |plan.layers|
      case Some(s') => Inv(g, plan, s', k') && Budget(g, plan, s') < Budget(g, plan, s)
    ensures k <= k' && forall j: nat | k <= j < k' :: LayerFails(g, dst, plan, F, j)
  {
    var prefs := PrefsAt(g, dst, plan, table, s, k);
    var entries := table[(s.v, s.ctree)];
    var i := FirstUsable(entries, {}, F);
    hide Lists, GoodPrefs, GoodPlan, LayerFails, Budget, GoodTable, HasHop, Within;
    if i == |entries| {
      k' := |plan.layers|;
      AllLayersFail(g, dst, plan, F, s, k, prefs, entries);
    } else {
      k' := HopClimbs(g, dst, plan, F, s, k, prefs, entries, i);
      EntryAt(g, plan.forest, s.v, prefs, entries, i);
      assert entries[i] in entries;
      HopBudget(g, dst, plan, s, Step(g, table, F, s).value);
    }
  }

  lemma AllLayersFail(g: Graph, dst: Vertex, plan: Plan, F: set<Edge>, s: State, k: nat, prefs: seq<nat>, entries: seq<Entry>)
    requires GoodPlan(g, dst, plan) && Inv(g, plan, s, k) && s.v != dst
    requires Lists(g, plan.forest, s.v, prefs, entries) && GoodPrefs(plan, prefs, s.ctree, k)
    requires FirstUsable(entries, {}, F) == |entries|
    ensures forall j: nat | k <= j < |plan.layers| :: LayerFails(g, dst, plan, F, j)
  {
    forall j: nat | k <= j < |plan.layers| ensures LayerFails(g, dst, plan, F, j) {
      if j == k {
        SkippedFails(g, dst, plan, F, s.v, prefs, entries, 0, k);
      } else {
        var x :| x in plan.layers[j];
        assert x in prefs;
        var p :| 0 <= p < |prefs| && prefs[p] == x;
        SkippedFails(g, dst, plan, F, s.v, prefs, entries, p, j);
      }
    }
  }

  lemma HopBudget(g: Graph, dst: Vertex, plan: Plan, s: State, s': State)
    requires GoodPlan(g, dst, plan) && s.v in g.V && s.v != dst && s'.ctree < |plan.forest|
    requires s'.ctree == s.ctree || (s.ctree, s'.ctree) in plan.reach
    requires HasHop(g, plan.forest[s'.ctree], s.v) && s'.v == Far(g, s.v, HopPort(plan.forest[s'.ctree], s.v)).0
    ensures Budget(g, plan, s') < Budget(g, plan, s)
  {
    HopDescends(g, dst, plan.forest[s'.ctree], s.v);
    if s'.ctree != s.ctree {
      BeyondShrinks(g, dst, plan, s.ctree, s'.ctree);
      SpanMonotone(|Beyond(plan, s'.ctree)| + 1, |Beyond(plan, s.ctree)|, LongestPath(g));
      DepthBound(g, dst, plan.forest[s'.ctree], s.v);
    }
  }

  /** The walk ends within its budget; a packet that leaves the layers before `j` has seen a failure in each of them. */
  lemma {:induction false} RunEnds(g: Graph, dst: Vertex, plan: Plan, table: FwdTable, F: set<Edge>, s: State, k: nat, n: nat)
    requires GoodPlan(g, dst, plan) && GoodTable(g, dst, plan, table) && Inv(g, plan, s, k) && Budget(g, plan, s) <= n
    ensures !Run(g, dst, table, F, s, n).Running?
    ensures Run(g, dst, table, F, s, n).Dropped? ==> forall j: nat | k <= j < |plan.layers| :: LayerFails(g, dst, plan, F, j)
    decreases n
  {
    hide GoodForest, LayerFails, Budget, Run, ReachKnown, LayersReach, Step, Inv;
    if s.v == dst {
      RunArrived(g, dst, table, F, s, n);
    } else {
      var k' := StepClimbs(g, dst, plan, table, F, s, k);
      BudgetPositive(g, dst, plan, s, k);
      if Step(g, table, F, s).Some? {
        RunAfterStep(g, dst, table, F, s, n);
        RunEnds(g, dst, plan, table, F, Step(g, table, F, s).value, k', n - 1);
      } else {
        RunDrops(g, dst, table, F, s, n);
      }
    }
  }

  lemma BudgetPositive(g: Graph, dst: Vertex, plan: Plan, s: State, k: nat)
    requires GoodPlan(g, dst, plan) && Inv(g, plan, s, k) && s.v != dst
    ensures Budget(g, plan, s) > 0
  {
    HopDescends(g, dst, plan.forest[s.ctree], s.v);
  }

  function HopBound(g: Graph, plan: Plan, itree: nat): nat {
    (|Beyond(plan, itree)| + 1) * LongestPath(g)
  }

  /**
   Resilience without failed trees in the packet: a packet that starts in layer `k` is delivered whenever some layer
   from `k` on has no failed edge, and for any failures it stops within the hop bound.
   */
  lemma LayeredResilience(g: Graph, dst: Vertex, plan: Plan, table: FwdTable, F: set<Edge>, src: Vertex, itree: nat, k: nat)
    requires GoodPlan(g, dst, plan) && GoodTable(g, dst, plan, table) && src in g.V && InLayer(plan, itree, k)
    ensures var r := Run(g, dst, table, F, Start(src, itree), HopBound(g, plan, itree));
      && !r.Running? && LivePath(g, F, src, r.s.v, r.s.hops) && |r.s.hops| <= HopBound(g, plan, itree)
      && (r.Delivered? ==> r.s.v == dst)
      && ((exists j: nat :: k <= j < |plan.layers| && !LayerFails(g, dst, plan, F, j)) ==> r.Delivered?)
  {
    DepthBound(g, dst, plan.forest[itree], src);
    SpanIsProduct(|Beyond(plan, itree)| + 1, LongestPath(g));
    assert Budget(g, plan, Start(src, itree)) <= HopBound(g, plan, itree);
    RunEnds(g, dst, plan, table, F, Start(src, itree), k, HopBound(g, plan, itree));
    assert LivePath(g, F, src, src, []);
    RunIsLive(g, dst, table, F, src, Start(src, itree), HopBound(g, plan, itree));
  }

  // ---------- How many layers a set of failures can hit ----------

  ghost predicate EdgeDisjoint(forest: seq<Tree>) {
    forall i, j, a, b | 0 <= i < j < |forest| && a in forest[i].arcs && b in forest[j].arcs :: a.1 != b.1
  }

  ghost function FailedEdge(g: Graph, dst: Vertex, plan: Plan, F: set<Edge>, k: nat): (r: (nat, Arc))
    requires GoodPlan(g, dst, plan) && LayerFails(g, dst, plan, F, k)
    ensures InLayer(plan, r.0, k) && r.0 < |plan.forest| && r.1 in plan.forest[r.0].arcs && r.1.1 in F
  {
    SomeHopFails(g, dst, plan, F, k);
    var t: nat, v :| HopFails(g, plan, F, k, t, v);
    (t, (v, HopEdge(g, plan.forest[t], v)))
  }

  /** Tree `t` of layer `k` leaves switch `v` by a failed edge. */
  ghost predicate HopFails(g: Graph, plan: Plan, F: set<Edge>, k: nat, t: nat, v: Vertex) {
    && InLayer(plan, t, k) && t < |plan.forest| && HasHop(g, plan.forest[t], v)
    && (v, HopEdge(g, plan.forest[t], v)) in plan.forest[t].arcs && HopEdge(g, plan.forest[t], v) in F
  }

  lemma SomeHopFails(g: Graph, dst: Vertex, plan: Plan, F: set<Edge>, k: nat)
    requires GoodPlan(g, dst, plan) && LayerFails(g, dst, plan, F, k)
    ensures exists t: nat, v :: HopFails(g, plan, F, k, t, v)
  {
    hide WellFormed, ReachKnown, LayersReach;
    var t: nat :| InLayer(plan, t, k) && t < |plan.forest| && FailsUnder(g, dst, plan.forest[t], F);
    var v :| v in g.V && v != dst && HasHop(g, plan.forest[t], v) && HopEdge(g, plan.forest[t], v) in F;
    HopDescends(g, dst, plan.forest[t], v);
    assert HopFails(g, plan, F, k, t, v);
  }

  /** With fewer failures than layers left, some layer has no failure, because every failed layer has its own failed edge. */
  lemma FewEdgesFailFewLayers(g: Graph, dst: Vertex, plan: Plan, F: set<Edge>, k: nat)
    requires GoodPlan(g, dst, plan) && EdgeDisjoint(plan.forest) && k < |plan.layers| && |F| < |plan.layers| - k
    ensures exists j: nat :: k <= j < |plan.layers| && !LayerFails(g, dst, plan, F, j)
  {
    hide LayerFails, GoodPlan, EdgeDisjoint;
    if forall j: nat | k <= j < |plan.layers| :: LayerFails(g, dst, plan, F, j) {
      var S := LayersFrom(k, |plan.layers|);
      var f := map j | j in S :: FailedEdge(g, dst, plan, F, j).1.1;
      forall x, y | x in S && y in S && x != y ensures f[x] != f[y] {
        FailedEdgesDiffer(g, dst, plan, F, x, y);
      }
      InjectionSize(S, F, f);
    }
  }

  lemma FailedEdgesDiffer(g: Graph, dst: Vertex, plan: Plan, F: set<Edge>, x: nat, y: nat)
    requires GoodPlan(g, dst, plan) && EdgeDisjoint(plan.forest) && x != y
    requires LayerFails(g, dst, plan, F, x) && LayerFails(g, dst, plan, F, y)
    ensures FailedEdge(g, dst, plan, F, x).1.1 != FailedEdge(g, dst, plan, F, y).1.1
  {
    hide ReachKnown, LayersReach, GoodForest, LayerFails;
    var a, b := FailedEdge(g, dst, plan, F, x), FailedEdge(g, dst, plan, F, y);
    if a.0 == b.0 {
      OneLayer(g, dst, plan, a.0, x, y);
    }
  }

  function LayersFrom(k: nat, n: nat): (r: set<nat>)
    requires k <= n
    ensures |r| == n - k && forall j: nat :: j in r <==> k <= j < n
  {
    if k == n then {} else LayersFrom(k, n - 1) + {n - 1}
  }

  /** The promise of the layers: from layer `k` of `L`, fewer than `L - k` failures are survived. */
  lemma LayersSurvive(g: Graph, dst: Vertex, plan: Plan, table: FwdTable, F: set<Edge>, src: Vertex, itree: nat, k: nat)
    requires GoodPlan(g, dst, plan) && GoodTable(g, dst, plan, table) && src in g.V && InLayer(plan, itree, k)
    requires EdgeDisjoint(plan.forest) && |F| < |plan.layers| - k
    ensures Run(g, dst, table, F, Start(src, itree), HopBound(g, plan, itree)).Delivered?
  {
    LayeredResilience(g, dst, plan, table, F, src, itree, k);
    FewEdgesFailFewLayers(g, dst, plan, F, k);
  }

  // ---------- Building the tables ----------

  /** Each tree once; with `perf` nearest first. */
  ghost predicate Ranked(plan: Plan, v: Vertex, order: seq<nat>, perf: bool) {
    NoDup(order) && (perf ==> forall i, j | 0 <= i < j < |order| :: DepthIn(plan.forest, order[i], v) <= DepthIn(plan.forest, order[j], v))
  }

  lemma RankedInsert(plan: Plan, v: Vertex, order: seq<nat>, perf: bool, n: nat, x: nat)
    requires Ranked(plan, v, order, perf) && n <= |order| && x !in order
    requires perf ==> (n > 0 ==> DepthIn(plan.forest, order[n - 1], v) <= DepthIn(plan.forest, x, v))
    requires perf ==> forall i | n <= i < |order| :: DepthIn(plan.forest, x, v) <= DepthIn(plan.forest, order[i], v)
    ensures Ranked(plan, v, order[..n] + [x] + order[n..], perf)
    ensures forall y :: y in order[..n] + [x] + order[n..] <==> y in order || y == x
  {
    hide DepthIn;
    assert order == order[..n] + order[n..];
    hide Ranked;
    RankedSpot(plan, v, order, perf, n, x);
  }

  lemma RankedSpot(plan: Plan, v: Vertex, order: seq<nat>, perf: bool, n: nat, x: nat)
    requires Ranked(plan, v, order, perf) && n <= |order| && x !in order
    requires perf ==> (n > 0 ==> DepthIn(plan.forest, order[n - 1], v) <= DepthIn(plan.forest, x, v))
    requires perf ==> forall i | n <= i < |order| :: DepthIn(plan.forest, x, v) <= DepthIn(plan.forest, order[i], v)
    ensures Ranked(plan, v, order[..n] + [x] + order[n..], perf)
  {
    hide DepthIn;
    var o := order[..n] + [x] + order[n..];
    forall i | 0 <= i < |o| ensures o[i] == if i < n then order[i] else if i == n then x else order[i - 1] {
    }
  }

  /** The comparison that sorts a layer: nearer trees come first or, without `perf`, trees that reach the other one. */
  predicate Before(plan: Plan, v: Vertex, perf: bool, x: nat, y: nat) {
    if perf then DepthIn(plan.forest, x, v) < DepthIn(plan.forest, y, v) else (x, y) in plan.reach
  }

  /** Of two neighbours the later one does not come before the earlier one; the comparison by reach allows no more, being no order. */
  ghost predicate Settled(plan: Plan, v: Vertex, order: seq<nat>, perf: bool) {
    forall i | 0 <= i < |order| - 1 :: !Before(plan, v, perf, order[i + 1], order[i])
  }

  lemma SettledInsert(plan: Plan, v: Vertex, order: seq<nat>, perf: bool, n: nat, x: nat)
    requires Settled(plan, v, order, perf) && n <= |order|
    requires (n > 0 ==> !Before(plan, v, perf, x, order[n - 1])) && (n < |order| ==> !Before(plan, v, perf, order[n], x))
    ensures Settled(plan, v, order[..n] + [x] + order[n..], perf)
  {
    hide Before;
    var o := order[..n] + [x] + order[n..];
    forall i | 0 <= i < |o| ensures o[i] == if i < n then order[i] else if i == n then x else order[i - 1] {
    }
  }

  /** The TTG has no cycle, so no two trees come before each other. */
  lemma BeforeOneWay(g: Graph, dst: Vertex, plan: Plan, v: Vertex, perf: bool, x: nat, y: nat)
    requires GoodPlan(g, dst, plan) && Before(plan, v, perf, x, y)
    ensures !Before(plan, v, perf, y, x)
  {
    hide DepthIn;
    if !perf && (y, x) in plan.reach {
      ReachesTrans(plan.E, x, y, x);
      NotItself(g, dst, plan, x);
    }
  }

  /** The trees of a layer, sorted by the comparison, ties in any order; with `perf` that is nearest first. */
  method OrderLayer(ghost g: Graph, ghost dst: Vertex, plan: Plan, v: Vertex, layer: set<nat>, perf: bool) returns (order: seq<nat>)
    requires GoodPlan(g, dst, plan)
    ensures forall x :: x in order <==> x in layer
    ensures Ranked(plan, v, order, perf) && Settled(plan, v, order, perf)
  {
    hide DepthIn, Ranked, Before, GoodPlan, Settled;
    order := [];
    NothingRanked(plan, v, perf);
    var todo := layer;
    while todo != {}
      invariant todo <= layer && Ranked(plan, v, order, perf) && Settled(plan, v, order, perf)
      invariant forall x :: x in order <==> x in layer - todo
    {
      var x :| x in todo;
      var n := |order|;
      while n > 0 && Before(plan, v, perf, x, order[n - 1])
        invariant 0 <= n <= |order|
        invariant forall i | n <= i < |order| :: Before(plan, v, perf, x, order[i])
      {
        n := n - 1;
      }
      if n < |order| {
        BeforeOneWay(g, dst, plan, v, perf, x, order[n]);
      }
      NearestSpot(plan, v, order, perf, n, x);
      RankedInsert(plan, v, order, perf, n, x);
      SettledInsert(plan, v, order, perf, n, x);
      order := order[..n] + [x] + order[n..];
      todo := todo - {x};
    }
  }

  lemma NearestSpot(plan: Plan, v: Vertex, order: seq<nat>, perf: bool, n: nat, x: nat)
    requires n <= |order| && (n > 0 ==> !Before(plan, v, perf, x, order[n - 1])) && forall i | n <= i < |order| :: Before(plan, v, perf, x, order[i])
    ensures perf ==> (n > 0 ==> DepthIn(plan.forest, order[n - 1], v) <= DepthIn(plan.forest, x, v))
    ensures perf ==> forall i | n <= i < |order| :: DepthIn(plan.forest, x, v) <= DepthIn(plan.forest, order[i], v)
  {
    hide DepthIn;
  }

  lemma NothingRanked(plan: Plan, v: Vertex, perf: bool)
    ensures Ranked(plan, v, [], perf) && Settled(plan, v, [], perf)
  {
  }

  /** The trees of the list that `t` reaches. */
  function Picked(plan: Plan, t: nat, order: seq<nat>): seq<nat> {
    if order == [] then []
    else
      var n := |order| - 1;
      Picked(plan, t, order[..n]) + if t != order[n] && (t, order[n]) in plan.reach then [order[n]] else []
  }

  lemma {:induction false} PickedFacts(plan: Plan, v: Vertex, t: nat, order: seq<nat>, perf: bool)
    requires Ranked(plan, v, order, perf)
    ensures forall x <- Picked(plan, t, order) :: x in order && t != x && (t, x) in plan.reach
    ensures Ranked(plan, v, Picked(plan, t, order), perf)
    decreases |order|
  {
    hide DepthIn;
    if order != [] {
      var n := |order| - 1;
      PickedFacts(plan, v, t, order[..n], perf);
      var p := Picked(plan, t, order[..n]);
      forall x <- p ensures x != order[n] && (perf ==> DepthIn(plan.forest, x, v) <= DepthIn(plan.forest, order[n], v)) {
        var i :| 0 <= i < n && order[i] == x;
      }
      assert p[..|p|] + [order[n]] + p[|p|..] == p + [order[n]];
      RankedInsert(plan, v, p, perf, |p|, order[n]);
    } else {
    }
  }

  /** No tree twice, and with `perf` the trees of one layer nearest first. */
  ghost predicate Neat(plan: Plan, v: Vertex, prefs: seq<nat>, perf: bool) {
    NoDup(prefs) && (perf ==> forall i, j, l: nat | 1 <= i < j < |prefs| && InLayer(plan, prefs[i], l) && InLayer(plan, prefs[j], l) ::
      DepthIn(plan.forest, prefs[i], v) <= DepthIn(plan.forest, prefs[j], v))
  }

  /** The trees of layer `l` are put behind trees of earlier layers. */
  lemma NeatAppend(g: Graph, dst: Vertex, plan: Plan, v: Vertex, prefs: seq<nat>, more: seq<nat>, l: nat, perf: bool)
    requires GoodPlan(g, dst, plan) && Neat(plan, v, prefs, perf) && Ranked(plan, v, more, perf) && prefs != []
    requires forall x <- more :: InLayer(plan, x, l) && x != prefs[0]
    requires forall i | 1 <= i < |prefs| :: Earlier(plan, prefs[i], l)
    ensures Neat(plan, v, prefs + more, perf)
  {
    hide DepthIn, GoodPlan, InLayer;
    var p := prefs + more;
    forall i, m: nat | 1 <= i < |prefs| && InLayer(plan, prefs[i], m) ensures m < l {
      var e: nat :| e < l && InLayer(plan, prefs[i], e);
      OneLayer(g, dst, plan, prefs[i], e, m);
    }
    forall j, m: nat | |prefs| <= j < |p| && InLayer(plan, p[j], m) ensures m == l {
      assert p[j] in more;
      OneLayer(g, dst, plan, p[j], m, l);
    }
    forall i, j | 0 <= i < j < |p| ensures p[i] != p[j] {
      if i < |prefs| <= j {
        assert p[j] in more;
      }
    }
  }

  ghost predicate Earlier(plan: Plan, x: nat, l: nat) {
    exists m: nat :: m < l && InLayer(plan, x, m)
  }

  /** The preferences found so far: all in layers `k..l`, and layer by layer. */
  ghost predicate PrefsUpTo(plan: Plan, prefs: seq<nat>, t: nat, k: nat, l: nat) {
    && prefs != [] && prefs[0] == t
    && (forall i | 1 <= i < |prefs| :: (t, prefs[i]) in plan.reach)
    && (forall i | 0 <= i < |prefs| :: Within(plan, prefs[i], k, l))
    && (forall i, j, m: nat, n: nat | 0 <= i < j < |prefs| && InLayer(plan, prefs[i], m) && InLayer(plan, prefs[j], n) :: m <= n)
  }

  lemma AppendPref(g: Graph, dst: Vertex, plan: Plan, prefs: seq<nat>, t: nat, k: nat, l: nat, x: nat)
    requires GoodPlan(g, dst, plan) && PrefsUpTo(plan, prefs, t, k, l) && k <= l && InLayer(plan, x, l) && (t, x) in plan.reach
    ensures PrefsUpTo(plan, prefs + [x], t, k, l)
  {
    var p := prefs + [x];
    forall i, j, m: nat, n: nat | 0 <= i < j < |p| && InLayer(plan, p[i], m) && InLayer(plan, p[j], n) ensures m <= n {
      if j == |prefs| {
        assert Within(plan, prefs[i], k, l);
        var m': nat :| k <= m' <= l && InLayer(plan, prefs[i], m');
        OneLayer(g, dst, plan, prefs[i], m, m');
        OneLayer(g, dst, plan, x, n, l);
      }
    }
    assert Within(plan, x, k, l);
  }

  /** The list so far for packets on `t` of layer `k`, up to layer `l`. */
  ghost predicate Building(g: Graph, plan: Plan, v: Vertex, t: nat, k: nat, l: nat, prefs: seq<nat>, entries: seq<Entry>) {
    Lists(g, plan.forest, v, prefs, entries) && PrefsUpTo(plan, prefs, t, k, l)
  }

  lemma BuildingSnoc(g: Graph, dst: Vertex, plan: Plan, v: Vertex, t: nat, k: nat, l: nat, prefs: seq<nat>, entries: seq<Entry>, x: nat)
    requires GoodPlan(g, dst, plan) && Building(g, plan, v, t, k, l, prefs, entries)
    requires k <= l && InLayer(plan, x, l) && (t, x) in plan.reach && HasHop(g, plan.forest[x], v)
    ensures Building(g, plan, v, t, k, l, prefs + [x],
                     entries + [Entry(x, HopEdge(g, plan.forest[x], v), HopPort(plan.forest[x], v), {})])
  {
    AppendPref(g, dst, plan, prefs, t, k, l, x);
  }

  lemma BuildingNextLayer(g: Graph, plan: Plan, v: Vertex, t: nat, k: nat, l: nat, prefs: seq<nat>, entries: seq<Entry>)
    requires Building(g, plan, v, t, k, l, prefs, entries)
    ensures Building(g, plan, v, t, k, l + 1, prefs, entries)
  {
    forall i | 0 <= i < |prefs| ensures Within(plan, prefs[i], k, l + 1) {
      assert Within(plan, prefs[i], k, l);
    }
  }

  lemma PrefsComplete(plan: Plan, prefs: seq<nat>, t: nat, k: nat)
    requires k < |plan.layers| && PrefsUpTo(plan, prefs, t, k, |plan.layers| - 1)
    requires forall l, x: nat | k < l < |plan.layers| && x in plan.layers[l] :: x in prefs
    ensures GoodPrefs(plan, prefs, t, k)
  {
    forall i | 0 <= i < |prefs| ensures Within(plan, prefs[i], k, |plan.layers|) {
      assert Within(plan, prefs[i], k, |plan.layers| - 1);
    }
  }

  /** Appends the trees of layer `l` that `t` reaches. */
  method AddLayer(g: Graph, dst: Vertex, plan: Plan, v: Vertex, t: nat, order: seq<nat>, entries: seq<Entry>,
                  ghost prefs: seq<nat>, ghost k: nat, ghost l: nat)
    returns (entries': seq<Entry>, ghost prefs': seq<nat>)
    requires GoodPlan(g, dst, plan) && v in g.V && v != dst && k <= l && (forall x :: x in order ==> InLayer(plan, x, l))
    requires Building(g, plan, v, t, k, l, prefs, entries)
    ensures Building(g, plan, v, t, k, l, prefs', entries') && prefs' == prefs + Picked(plan, t, order)
    ensures (forall x <- prefs :: x in prefs') && (forall x <- order :: (t, x) in plan.reach && x != t ==> x in prefs')
  {
    hide Building, GoodPlan, InLayer, Picked;
    entries', prefs' := entries, prefs;
    NothingPicked(plan, t);
    for i := 0 to |order|
      invariant Building(g, plan, v, t, k, l, prefs', entries') && prefs' == prefs + Picked(plan, t, order[..i])
      invariant (forall x <- prefs :: x in prefs') && (forall x <- order[..i] :: (t, x) in plan.reach && x != t ==> x in prefs')
    {
      var x := order[i];
      assert x in order && order[..i + 1] == order[..i] + [x];
      PickedNext(plan, t, order, i);
      if t != x && (t, x) in plan.reach {
        LeavesBy(g, dst, plan, v, x, l);
        BuildingSnoc(g, dst, plan, v, t, k, l, prefs', entries', x);
        entries' := entries' + [Entry(x, HopEdge(g, plan.forest[x], v), HopPort(plan.forest[x], v), {})];
        prefs' := prefs' + [x];
      }
    }
    assert order[..|order|] == order;
  }

  lemma LeavesBy(g: Graph, dst: Vertex, plan: Plan, v: Vertex, x: nat, l: nat)
    requires GoodPlan(g, dst, plan) && v in g.V && v != dst && InLayer(plan, x, l)
    ensures x < |plan.forest| && HasHop(g, plan.forest[x], v)
  {
    HopDescends(g, dst, plan.forest[x], v);
  }

  lemma NothingPicked(plan: Plan, t: nat)
    ensures Picked(plan, t, []) == []
  {
  }

  lemma PickedNext(plan: Plan, t: nat, order: seq<nat>, i: nat)
    requires i < |order|
    ensures Picked(plan, t, order[..i + 1]) == Picked(plan, t, order[..i]) + if t != order[i] && (t, order[i]) in plan.reach then [order[i]] else []
  {
    assert order[..i + 1][..i] == order[..i];
  }

  /** The list starts with the tree the packet is on. */
  method FirstEntry(g: Graph, dst: Vertex, plan: Plan, v: Vertex, t: nat, k: nat) returns (entries: seq<Entry>)
    requires GoodPlan(g, dst, plan) && v in g.V && v != dst && InLayer(plan, t, k)
    ensures Building(g, plan, v, t, k, k, [t], entries)
  {
    HopDescends(g, dst, plan.forest[t], v);
    entries := [Entry(t, HopEdge(g, plan.forest[t], v), HopPort(plan.forest[t], v), {})];
    assert Within(plan, t, k, k);
    forall m: nat, n: nat | InLayer(plan, t, m) && InLayer(plan, t, n) ensures m <= n {
      OneLayer(g, dst, plan, t, m, n);
    }
  }

  /** What packets on `t` of layer `k` prefer: `t`, and then, layer by layer before `n`, the trees that `t` reaches. */
  function PrefsTo(plan: Plan, t: nat, orders: seq<seq<nat>>, k: nat, n: nat): (r: seq<nat>)
    requires k <= n <= |orders|
    ensures r != []
  {
    if n == k then [t] else PrefsTo(plan, t, orders, k, n - 1) + Picked(plan, t, orders[n - 1])
  }

  /** The entries are those trees, in this order. */
  ghost predicate TreesAre(entries: seq<Entry>, trees: seq<nat>) {
    |entries| == |trees| && forall i | 0 <= i < |trees| :: entries[i].tree == trees[i]
  }

  /** Each layer in its order. */
  ghost predicate Orders(plan: Plan, v: Vertex, orders: seq<seq<nat>>, perf: bool) {
    && |orders| == |plan.layers| && (forall l, x: nat | 0 <= l < |orders| :: x in orders[l] <==> x in plan.layers[l])
    && (forall l | 0 <= l < |orders| :: Ranked(plan, v, orders[l], perf) && Settled(plan, v, orders[l], perf))
  }

  /** The entries of `v` for packets on tree `t` of layer `k`. */
  method DfrEntries(g: Graph, dst: Vertex, plan: Plan, v: Vertex, t: nat, k: nat, orders: seq<seq<nat>>, ghost perf: bool)
    returns (entries: seq<Entry>)
    requires GoodPlan(g, dst, plan) && v in g.V && v != dst && InLayer(plan, t, k) && Orders(plan, v, orders, perf)
    ensures GoodEntries(g, plan, v, t, k, entries) && (perf ==> NearestFirst(plan, v, entries))
    ensures k <= |orders| && TreesAre(entries, PrefsTo(plan, t, orders, k, |orders|))
    ensures forall x <- entries :: (v, x.port) in g.ports && g.ports[(v, x.port)] == x.e
  {
    hide GoodPlan, Building, GoodEntries, Ranked, Settled, Neat, Picked, NearestFirst, TreesAre;
    entries := FirstEntry(g, dst, plan, v, t, k);
    ghost var prefs := [t];
    OneNeat(plan, v, t, perf);
    for l := k to |orders|
      invariant Building(g, plan, v, t, k, if l == k then k else l - 1, prefs, entries) && Neat(plan, v, prefs, perf)
      invariant (l == k ==> prefs == [t]) && prefs == PrefsTo(plan, t, orders, k, l)
      invariant forall m, x: nat | k <= m < l && x in plan.layers[m] && (t, x) in plan.reach :: x in prefs
      invariant forall m, x: nat | k < m < l && x in plan.layers[m] :: x in prefs
    {
      ghost var p := prefs;
      BuiltEarlier(g, plan, v, t, k, l, prefs, entries);
      if k < l {
        BuildingNextLayer(g, plan, v, t, k, l - 1, prefs, entries);
      }
      forall x: nat | k < l && x in plan.layers[l] ensures (t, x) in plan.reach && x != t && x in orders[l] {
        LaterReached(g, dst, plan, t, k, x, l);
      }
      NotItself(g, dst, plan, t);
      entries, prefs := AddLayer(g, dst, plan, v, t, orders[l], entries, prefs, k, l);
      PickedFacts(plan, v, t, orders[l], perf);
      NeatAppend(g, dst, plan, v, p, Picked(plan, t, orders[l]), l, perf);
    }
    BuiltEntries(g, plan, v, t, k, prefs, entries, perf);
  }

  lemma OneNeat(plan: Plan, v: Vertex, t: nat, perf: bool)
    ensures Neat(plan, v, [t], perf)
  {
  }

  lemma NotItself(g: Graph, dst: Vertex, plan: Plan, t: nat)
    requires GoodPlan(g, dst, plan)
    ensures (t, t) !in plan.reach
  {
  }

  lemma BuiltEarlier(g: Graph, plan: Plan, v: Vertex, t: nat, k: nat, l: nat, prefs: seq<nat>, entries: seq<Entry>)
    requires Building(g, plan, v, t, k, if l <= k then k else l - 1, prefs, entries) && k <= l && (l == k ==> prefs == [t])
    ensures prefs != [] && prefs[0] == t && forall i | 1 <= i < |prefs| :: Earlier(plan, prefs[i], l)
  {
    forall i | 1 <= i < |prefs| ensures Earlier(plan, prefs[i], l) {
      assert Within(plan, prefs[i], k, l - 1);
      var m: nat :| k <= m <= l - 1 && InLayer(plan, prefs[i], m);
    }
  }

  lemma BuiltEntries(g: Graph, plan: Plan, v: Vertex, t: nat, k: nat, prefs: seq<nat>, entries: seq<Entry>, perf: bool)
    requires k < |plan.layers| && Building(g, plan, v, t, k, |plan.layers| - 1, prefs, entries) && Neat(plan, v, prefs, perf)
    requires forall l, x: nat | k < l < |plan.layers| && x in plan.layers[l] :: x in prefs
    requires forall l, x: nat | k <= l < |plan.layers| && x in plan.layers[l] && (t, x) in plan.reach :: x in prefs
    ensures GoodEntries(g, plan, v, t, k, entries) && (perf ==> NearestFirst(plan, v, entries)) && TreesAre(entries, prefs)
    ensures forall x <- entries :: (v, x.port) in g.ports && g.ports[(v, x.port)] == x.e
  {
    hide DepthIn, HasHop;
    PrefsComplete(plan, prefs, t, k);
    ListsValid(g, plan.forest, v, prefs, entries);
    forall i | 0 <= i < |entries| ensures entries[i].tree == prefs[i] {
      EntryAt(g, plan.forest, v, prefs, entries, i);
    }
  }

  lemma LaterReached(g: Graph, dst: Vertex, plan: Plan, t: nat, k: nat, x: nat, l: nat)
    requires GoodPlan(g, dst, plan) && InLayer(plan, t, k) && InLayer(plan, x, l) && k < l
    ensures (t, x) in plan.reach && x != t
  {
    if x == t {
      OneLayer(g, dst, plan, t, k, l);
    }
  }

  lemma ListsValid(g: Graph, forest: seq<Tree>, v: Vertex, prefs: seq<nat>, entries: seq<Entry>)
    requires Lists(g, forest, v, prefs, entries)
    ensures forall x <- entries :: (v, x.port) in g.ports && g.ports[(v, x.port)] == x.e
  {
    forall x <- entries ensures (v, x.port) in g.ports && g.ports[(v, x.port)] == x.e {
      var i :| 0 <= i < |entries| && entries[i] == x;
      EntryAt(g, forest, v, prefs, entries, i);
    }
  }

  /** The entries of switch `v`: it sorts the trees of each layer once, and all its entries follow these orders. */
  method DfrSwitch(g: Graph, dst: Vertex, plan: Plan, v: Vertex, table: FwdTable, perf: bool) returns (out: FwdTable, ghost orders: seq<seq<nat>>)
    requires GoodPlan(g, dst, plan) && v in g.V && v != dst && TableValid(g, table)
    ensures TableValid(g, out) && (forall x <- table | x.0 != v :: x in out && out[x] == table[x])
    ensures Orders(plan, v, orders, perf) && Served(g, plan, v, orders, out, perf)
  {
    hide Ranked, Settled, Serves, GoodPlan;
    var sorted: seq<seq<nat>> := [];
    for l := 0 to |plan.layers|
      invariant |sorted| == l && forall m, x: nat | 0 <= m < l :: x in sorted[m] <==> x in plan.layers[m]
      invariant forall m | 0 <= m < l :: Ranked(plan, v, sorted[m], perf) && Settled(plan, v, sorted[m], perf)
    {
      var order := OrderLayer(g, dst, plan, v, plan.layers[l], perf);
      sorted := sorted + [order];
    }
    orders := sorted;
    out := table;
    for k := 0 to |plan.layers|
      invariant TableValid(g, out) && (forall x <- table | x.0 != v :: x in out && out[x] == table[x])
      invariant forall j, t: nat | 0 <= j < k && t in plan.layers[j] :: Serves(g, plan, v, t, j, orders, out, perf)
    {
      out := DfrLayer(g, dst, plan, v, k, sorted, out, perf);
    }
  }

  /** The entries of `v` for packets on tree `t` of layer `k`. */
  ghost predicate Serves(g: Graph, plan: Plan, v: Vertex, t: nat, k: nat, orders: seq<seq<nat>>, table: FwdTable, perf: bool) {
    && (v, t) in table && GoodEntries(g, plan, v, t, k, table[(v, t)]) && (perf ==> NearestFirst(plan, v, table[(v, t)]))
    && k <= |orders| && TreesAre(table[(v, t)], PrefsTo(plan, t, orders, k, |orders|))
  }

  /** The entries of switch `v` for the trees of layer `k`. */
  method DfrLayer(g: Graph, dst: Vertex, plan: Plan, v: Vertex, k: nat, orders: seq<seq<nat>>, table: FwdTable, ghost perf: bool)
    returns (out: FwdTable)
    requires GoodPlan(g, dst, plan) && v in g.V && v != dst && k < |plan.layers| && TableValid(g, table)
    requires Orders(plan, v, orders, perf)
    requires forall j, t: nat | 0 <= j < k && t in plan.layers[j] :: Serves(g, plan, v, t, j, orders, table, perf)
    ensures TableValid(g, out) && (forall x <- table | x.0 != v :: x in out && out[x] == table[x])
    ensures forall j, t: nat | 0 <= j <= k && t in plan.layers[j] :: Serves(g, plan, v, t, j, orders, out, perf)
  {
    hide GoodEntries, NearestFirst, GoodPlan, Orders, TreesAre, PrefsTo;
    out := table;
    var todo := plan.layers[k];
    while todo != {}
      invariant todo <= plan.layers[k]
      invariant TableValid(g, out) && (forall x <- table | x.0 != v :: x in out && out[x] == table[x])
      invariant forall j, t: nat | 0 <= j < k && t in plan.layers[j] :: Serves(g, plan, v, t, j, orders, out, perf)
      invariant forall t <- plan.layers[k] - todo :: Serves(g, plan, v, t, k, orders, out, perf)
    {
      var t: nat :| t in todo;
      todo := todo - {t};
      var entries := DfrEntries(g, dst, plan, v, t, k, orders, perf);
      forall j | 0 <= j < k && t in plan.layers[j] ensures false {
        OneLayer(g, dst, plan, t, j, k);
      }
      ghost var before := out;
      out := out[(v, t) := entries];
      assert Serves(g, plan, v, t, k, orders, out, perf);
      forall j: nat, u: nat | u != t && Serves(g, plan, v, u, j, orders, before, perf) ensures Serves(g, plan, v, u, j, orders, out, perf) {
      }
      forall u <- plan.layers[k] - todo ensures Serves(g, plan, v, u, k, orders, out, perf) {
        assert u != t ==> Serves(g, plan, v, u, k, orders, before, perf);
      }
    }
  }

  ghost predicate Served(g: Graph, plan: Plan, v: Vertex, orders: seq<seq<nat>>, table: FwdTable, perf: bool) {
    forall k, t: nat | 0 <= k < |plan.layers| && t in plan.layers[k] :: Serves(g, plan, v, t, k, orders, table, perf)
  }

  /** All entries of `v` follow one order of each layer. */
  ghost predicate ServedInOrder(g: Graph, plan: Plan, v: Vertex, table: FwdTable, perf: bool) {
    exists orders :: Orders(plan, v, orders, perf) && Served(g, plan, v, orders, table, perf)
  }

  lemma ServedKept(g: Graph, plan: Plan, v: Vertex, u: Vertex, table: FwdTable, out: FwdTable, perf: bool)
    requires ServedInOrder(g, plan, u, table, perf) && u != v && forall x <- table | x.0 != v :: x in out && out[x] == table[x]
    ensures ServedInOrder(g, plan, u, out, perf)
  {
    hide GoodEntries, NearestFirst, TreesAre, PrefsTo, Orders;
    var orders :| Orders(plan, u, orders, perf) && Served(g, plan, u, orders, table, perf);
    forall k, t: nat | 0 <= k < |plan.layers| && t in plan.layers[k] ensures Serves(g, plan, u, t, k, orders, out, perf) {
      assert Serves(g, plan, u, t, k, orders, table, perf);
      assert (u, t) in table;
    }
    assert Served(g, plan, u, orders, out, perf);
  }

  /** The tables of deadlock-free tree routing; with `perf`, nearer trees of a layer come first, otherwise those that reach more. */
  method DfrFwdtable(g: Graph, dst: Vertex, plan: Plan, perf: bool) returns (table: FwdTable)
    requires GoodPlan(g, dst, plan)
    ensures GoodTable(g, dst, plan, table) && forall v <- g.V | v != dst :: ServedInOrder(g, plan, v, table, perf)
  {
    hide Served, ServedInOrder, GoodPlan, GoodTable, TableValid, Orders;
    table := map[];
    EmptyValid(g, dst, plan);
    var todo := g.V;
    while todo != {}
      invariant todo <= g.V && TableValid(g, table)
      invariant forall v <- g.V - todo | v != dst :: ServedInOrder(g, plan, v, table, perf)
    {
      var v :| v in todo;
      todo := todo - {v};
      if v != dst {
        ghost var before := table;
        ghost var orders;
        table, orders := DfrSwitch(g, dst, plan, v, table, perf);
        InOrder(g, plan, v, orders, table, perf);
        forall u <- g.V - todo | u != dst && u != v ensures ServedInOrder(g, plan, u, table, perf) {
          ServedKept(g, plan, v, u, before, table, perf);
        }
      }
    }
    AllServed(g, dst, plan, table, perf);
  }

  lemma InOrder(g: Graph, plan: Plan, v: Vertex, orders: seq<seq<nat>>, table: FwdTable, perf: bool)
    requires Orders(plan, v, orders, perf) && Served(g, plan, v, orders, table, perf)
    ensures ServedInOrder(g, plan, v, table, perf)
  {
  }

  lemma EmptyValid(g: Graph, dst: Vertex, plan: Plan)
    requires GoodPlan(g, dst, plan)
    ensures WellFormed(g) && TableValid(g, map[])
  {
  }

  lemma AllServed(g: Graph, dst: Vertex, plan: Plan, table: FwdTable, perf: bool)
    requires WellFormed(g) && TableValid(g, table) && forall v <- g.V | v != dst :: ServedInOrder(g, plan, v, table, perf)
    ensures GoodTable(g, dst, plan, table)
  {
    hide GoodEntries, NearestFirst, TreesAre, PrefsTo, Orders;
    forall v, t: nat, k: nat | v in g.V && v != dst && InLayer(plan, t, k)
      ensures (v, t) in table && GoodEntries(g, plan, v, t, k, table[(v, t)])
    {
      var orders :| Orders(plan, v, orders, perf) && Served(g, plan, v, orders, table, perf);
      assert Serves(g, plan, v, t, k, orders, table, perf);
    }
  }
}
