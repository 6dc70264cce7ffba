/** The tree-routing schemes end to end: tables from a forest, then the walk of a packet under failures. */
module TreeRouting {
  import opened Wrappers
  import opened FiniteSets
  import opened Topology
  import opened TreePaths
  import opened TreeWalk
  import opened Digraphs
  import T = TreeTables
  import A = AdstTables
  import D = DfrTables
  import Ttg
  import C = TreeChoice

  /** The packet walks over good tables, in which every switch lists the trees nearest first. */
  ghost predicate EdstWalked(g: Graph, dst: Vertex, plan: T.Plan, src: Vertex, itree: nat, F: set<Edge>, table: FwdTable,
                             hops: Option<seq<Port>>, failExp: bool) {
    && T.GoodTable(g, dst, plan, table) && (forall v <- g.V | v != dst :: T.ServedInOrder(g, plan, v, table))
    && WellFormed(g) && TableValid(g, table) && Walked(g, dst, table, F, src, itree, T.HopBound(g, plan, itree), hops, failExp)
  }

  /**
   Edge-disjoint trees: with fewer failures than resilient trees every packet is delivered; whatever fails, no packet
   crosses a failed link or takes more hops than the bound.
   */
  method EdstRoute(g: Graph, dst: Vertex, plan: T.Plan, src: Vertex, itree: nat, F: set<Edge>)
    returns (hops: Option<seq<Port>>, failExp: bool, ghost table: FwdTable)
    requires T.GoodPlan(g, dst, plan) && T.EdgeDisjoint(plan) && src in g.V && itree in plan.dtrees + plan.rtrees
    ensures hops.Some? ==> LivePath(g, F, src, dst, hops.value) && |hops.value| <= T.HopBound(g, plan, itree)
    ensures |F| < |plan.rtrees| ==> hops.Some?
    ensures EdstWalked(g, dst, plan, src, itree, F, table, hops, failExp)
  {
    hide T.GoodPlan, T.EdgeDisjoint, T.GoodTable, T.ServedInOrder, LivePath, WellFormed, TableValid, Run, Trees, Changes;
    var fwdtable := T.EdstFwdtable(g, dst, plan);
    table := fwdtable;
    T.TableIsValid(g, dst, plan, table);
    T.TreeResilience(g, dst, plan, table, F, src, itree);
    if |F| < |plan.rtrees| {
      T.FewEdgesFailFewTrees(g, dst, plan, F);
    }
    hops, failExp := WalkInternal(g, src, dst, fwdtable, itree, F, T.HopBound(g, plan, itree));
  }

  /** The packet walks over good tables, in which reverse trees come right behind. */
  ghost predicate AdstWalked(g: Graph, dst: Vertex, plan: T.Plan, src: Vertex, itree: nat, F: set<Edge>, table: FwdTable,
                             hops: Option<seq<Port>>, failExp: bool) {
    && WellFormed(g) && A.GoodAdstTable(g, dst, plan, table) && TableValid(g, table)
    && Walked(g, dst, table, F, src, itree, T.HopBound(g, plan, itree), hops, failExp)
  }

  /**
   Arc-disjoint trees: every packet is delivered while twice the failures are fewer than the resilient trees, and after
   any single failure as long as there are two of them.
   */
  method AdstRoute(g: Graph, dst: Vertex, plan: T.Plan, src: Vertex, itree: nat, F: set<Edge>)
    returns (hops: Option<seq<Port>>, failExp: bool, ghost table: FwdTable)
    requires T.GoodPlan(g, dst, plan) && T.ArcDisjoint(plan) && src in g.V && itree in plan.dtrees + plan.rtrees
    ensures hops.Some? ==> LivePath(g, F, src, dst, hops.value) && |hops.value| <= T.HopBound(g, plan, itree)
    ensures 2 * |F| < |plan.rtrees| || (|F| == 1 && |plan.rtrees| >= 2) ==> hops.Some?
    ensures AdstWalked(g, dst, plan, src, itree, F, table, hops, failExp)
  {
    hide T.GoodPlan, T.ArcDisjoint, T.GoodTable, A.GoodAdstTable, LivePath, WellFormed, TableValid, Run, Trees, Changes;
    T.PlanIsWellFormed(g, dst, plan);
    var fwdtable := A.AdstFwdtable(g, dst, plan);
    table := fwdtable;
    A.PartsOfAdst(g, dst, plan, table);
    T.TableIsValid(g, dst, plan, table);
    T.TreeResilience(g, dst, plan, table, F, src, itree);
    if 2 * |F| < |plan.rtrees| || (|F| == 1 && |plan.rtrees| >= 2) {
      A.AdstResilience(g, dst, plan, table, F, src, itree);
    }
    hops, failExp := WalkInternal(g, src, dst, fwdtable, itree, F, T.HopBound(g, plan, itree));
  }

  // ---------- Deadlock-free routing over a tree-transition graph ----------

  ghost predicate InSome(layers: seq<set<nat>>, x: nat) {
    exists i | 0 <= i < |layers| :: x in layers[i]
  }

  /** The layers in use: `out[i]` is what `top` leaves of `layers[at[i]]`. */
  ghost predicate Kept(layers: seq<set<nat>>, top: set<nat>, out: seq<set<nat>>, at: seq<nat>, n: nat) {
    && |at| == |out| && n <= |layers|
    && (forall i | 0 <= i < |at| :: at[i] < n && out[i] == layers[at[i]] * top && out[i] != {})
    && (forall i, j | 0 <= i < j < |at| :: at[i] < at[j])
    && (forall k: nat | k < n && layers[k] * top != {} :: k in at)
  }

  /** Leaves only the trees of `top` in the layers, and drops the layers that end up empty. */
  method KeepTop(layers: seq<set<nat>>, top: set<nat>) returns (out: seq<set<nat>>, ghost at: seq<nat>)
    ensures Kept(layers, top, out, at, |layers|)
    ensures (forall s <- out :: s != {} && s <= top) && forall x <- top :: InSome(out, x) <==> InSome(layers, x)
  {
    out, at := [], [];
    for n := 0 to |layers|
      invariant Kept(layers, top, out, at, n)
    {
      if layers[n] * top != {} {
        out, at := out + [layers[n] * top], at + [n];
      }
    }
    KeptTrees(layers, top, out, at);
  }

  lemma KeptTrees(layers: seq<set<nat>>, top: set<nat>, out: seq<set<nat>>, at: seq<nat>)
    requires Kept(layers, top, out, at, |layers|)
    ensures (forall s <- out :: s != {} && s <= top) && forall x <- top :: InSome(out, x) <==> InSome(layers, x)
  {
    forall x <- top | InSome(layers, x) ensures InSome(out, x) {
      var k :| 0 <= k < |layers| && x in layers[k];
      assert x in layers[k] * top;
      var i :| 0 <= i < |at| && at[i] == k;
      assert x in out[i];
    }
    forall x <- top | InSome(out, x) ensures InSome(layers, x) {
      var i :| 0 <= i < |out| && x in out[i];
      assert x in layers[at[i]];
    }
  }

  lemma {:induction false} FewBelow(at: seq<nat>, n: nat)
    requires (forall i, j | 0 <= i < j < |at| :: at[i] < at[j]) && forall i | 0 <= i < |at| :: at[i] < n
    ensures |at| <= n
    decreases |at|
  {
    if at != [] {
      FewBelow(at[..|at| - 1], at[|at| - 1]);
    }
  }

  /** If `top` has a tree in every layer, no layer is lost. */
  lemma {:induction false} NoLayerLost(layers: seq<set<nat>>, top: set<nat>, out: seq<set<nat>>, at: seq<nat>, n: nat)
    requires Kept(layers, top, out, at, n) && forall k: nat | k < n :: layers[k] * top != {}
    ensures |out| == n && forall i | 0 <= i < n :: at[i] == i
    decreases n
  {
    if n == 0 {
      FewBelow(at, 0);
    } else {
      var m := |at| - 1;
      assert layers[n - 1] * top != {} && (n - 1) in at;
      assert at[m] == n - 1;
      forall k: nat | k < n - 1 ensures k in at[..m] {
        assert layers[k] * top != {} && k in at;
        var j :| 0 <= j < |at| && at[j] == k;
        assert at[..m][j] == k;
      }
      NoLayerLost(layers, top, out[..m], at[..m], n - 1);
      assert forall i | 0 <= i < m :: at[..m][i] == at[i];
    }
  }

  /** The trees left in an earlier layer reach those left in a later one. */
  lemma LaidTreesReach(t: Ttg.Graph, level: seq<nat>, L: nat, layers: seq<set<nat>>, top: set<nat>, kept: seq<set<nat>>, at: seq<nat>,
                       i: nat, j: nat, a: nat, b: nat)
    requires Ttg.GoodTtg(t, level, L) && Kept(layers, top, kept, at, |layers|) && |layers| == L
    requires ByLevel(level, layers)
    requires i < j < |kept| && a in kept[i] && b in kept[j]
    ensures Reaches(t.E, a, b)
  {
    assert a in layers[at[i]] && b in layers[at[j]] && at[i] < at[j];
    Ttg.TiersReach(t, level, L, a, b);
  }

  /** The trees of layer `k` have level `k`. */
  ghost predicate ByLevel(level: seq<nat>, layers: seq<set<nat>>) {
    forall k: nat, x: nat {:trigger x in layers[k]} | k < |layers| && x in layers[k] :: x < |level| && level[x] == k
  }

  lemma LayersByLevel(t: Ttg.Graph, level: seq<nat>, L: nat, layers: seq<set<nat>>)
    requires Ttg.Tiered(t, level, L) && |layers| == L && forall k, i: nat | 0 <= k < L && i < t.n :: i in layers[k] <==> level[i] == k
    requires forall k | 0 <= k < L :: layers[k] != {} && forall i <- layers[k] :: i < t.n
    ensures ByLevel(level, layers)
  {
  }

  ghost predicate MeetsLevel(level: seq<nat>, top: set<nat>, k: nat) {
    exists x: nat :: x < |level| && level[x] == k && x in top
  }

  /** `top` has a tree of every level. */
  ghost predicate TopMeetsAll(t: Ttg.Graph, level: seq<nat>, L: nat, top: set<nat>) {
    |level| == t.n && forall k: nat | k < L :: MeetsLevel(level, top, k)
  }

  /** The layers hold exactly the trees of `top`: equal levels together, lower levels first. */
  ghost predicate LaidByLevel(n: nat, level: seq<nat>, top: set<nat>, layers: seq<set<nat>>) {
    && |level| == n
    && (forall i, x: nat {:trigger x in layers[i]} | 0 <= i < |layers| && x in layers[i] :: x < n && x in top)
    && (forall x: nat | x < n && x in top :: InSome(layers, x))
    && (forall i, a: nat, b: nat {:trigger a in layers[i], b in layers[i]} | 0 <= i < |layers| && a in layers[i] && b in layers[i] :: a < n && b < n && level[a] == level[b])
    && (forall i, j, a: nat, b: nat {:trigger a in layers[i], b in layers[j]} | 0 <= i < j < |layers| && a in layers[i] && b in layers[j] ::
          a < n && b < n && level[a] < level[b])
  }

  lemma KeptByLevel(t: Ttg.Graph, level: seq<nat>, L: nat, layers: seq<set<nat>>, top: set<nat>, kept: seq<set<nat>>, at: seq<nat>)
    requires Ttg.Tiered(t, level, L) && Kept(layers, top, kept, at, |layers|) && |layers| == L && ByLevel(level, layers)
    requires forall k, i: nat | 0 <= k < L && i < t.n :: i in layers[k] <==> level[i] == k
    ensures LaidByLevel(t.n, level, top, kept)
  {
    forall i, x: nat | 0 <= i < |kept| && x in kept[i] ensures x < t.n && x in top && level[x] == at[i] {
      assert x in layers[at[i]];
    }
    forall x: nat | x < t.n && x in top ensures InSome(kept, x) {
      var k := level[x];
      assert x in layers[k] * top;
      var i :| 0 <= i < |at| && at[i] == k;
      assert x in kept[i];
    }
  }

  // ---------- The trees of one destination ----------

  ghost predicate HasPaths(g: Graph, t: Tree) {
    g.V <= t.paths.Keys
  }

  ghost function Distances(g: Graph, dst: Vertex, forest: seq<Tree>): (dist: seq<nat>)
    requires WellFormed(g) && GoodForest(g, dst, forest)
    ensures |dist| == |forest|
  {
    assert forall i | 0 <= i < |forest| :: GoodTree(g, dst, forest[i]) && HasPaths(g, forest[i]);
    seq(|forest|, i requires 0 <= i < |forest| && HasPaths(g, forest[i]) => C.PathSum(g.V, forest[i]))
  }

  /** How many trees a destination uses: as many as asked for, if there are as many, or all. */
  function Used(n: nat, numTrees: int): nat {
    if 0 < numTrees <= n then numTrees else n
  }

  /** What is chosen when `numTrees` trees are asked for, or all when the number is negative. */
  ghost predicate TopFor(g: Graph, dst: Vertex, forest: seq<Tree>, first: set<nat>, numTrees: int, maxl1: nat, top: set<nat>)
    requires WellFormed(g) && GoodForest(g, dst, forest)
  {
    if numTrees > 0 then C.Chosen(Distances(g, dst, forest), first, Used(|forest|, numTrees), maxl1, top) else top == Below(|forest|)
  }

  method TopTrees(g: Graph, dst: Vertex, forest: seq<Tree>, first: set<nat>, numTrees: int, maxl1: nat) returns (top: set<nat>)
    requires WellFormed(g) && GoodForest(g, dst, forest)
    ensures TopFor(g, dst, forest, first, numTrees, maxl1, top)
  {
    if numTrees <= 0 {
      return Below(|forest|);
    }
    hide C.Chosen, C.PathSum, WellFormed;
    var dist: seq<nat> := [];
    for i := 0 to |forest|
      invariant |dist| == i && forall k | 0 <= k < i :: HasPaths(g, forest[k]) && dist[k] == C.PathSum(g.V, forest[k])
    {
      assert GoodTree(g, dst, forest[i]) && HasPaths(g, forest[i]);
      var sum := C.SumPaths(g.V, forest[i]);
      dist := dist + [sum];
    }
    assert dist == Distances(g, dst, forest);
    top := C.ChooseTrees(dist, first, numTrees, maxl1);
  }

  /** All trees are used, or besides `maxl1` trees of the first layer there is room for all others. */
  predicate Room(n: nat, first: nat, numTrees: int, maxl1: nat) {
    Used(n, numTrees) == n || (maxl1 > 0 && Used(n, numTrees) + first >= maxl1 + n)
  }

  /** With room for all trees behind the first layer, all of them are chosen. */
  lemma OthersInTop(g: Graph, dst: Vertex, forest: seq<Tree>, first: set<nat>, numTrees: int, maxl1: nat, top: set<nat>)
    requires WellFormed(g) && GoodForest(g, dst, forest) && TopFor(g, dst, forest, first, numTrees, maxl1, top)
    requires first <= Below(|forest|) && Room(|forest|, |first|, numTrees, maxl1)
    ensures Below(|forest|) - first <= top <= Below(|forest|)
    ensures |top * first| == Used(|forest|, numTrees) + |first| - |forest|
  {
    hide C.NearestOf, Below, WellFormed, GoodForest;
    TopSize(g, dst, forest, first, numTrees, maxl1, top);
    if Used(|forest|, numTrees) == |forest| {
      SubsetSize(top, Below(|forest|));
      assert top * first == first;
    } else if numTrees > 0 {
      C.AllOthersChosen(Distances(g, dst, forest), first, Used(|forest|, numTrees), maxl1, top);
    }
  }

  ghost predicate Whole(n: nat, level: seq<nat>, L: nat, top: set<nat>, layers: seq<set<nat>>) {
    |level| == n && |layers| == L && forall k: nat, x: nat {:trigger x in layers[k]} | k < L && x < n :: x in layers[k] <==> x in top && level[x] == k
  }

  /** The layers hold the trees chosen; no layer is lost if there is room for all trees behind the first. */
  ghost predicate LaidWith(g: Graph, dst: Vertex, forest: seq<Tree>, t: Ttg.Graph, level: seq<nat>, L: nat, numTrees: int, maxl1: nat,
                           top: set<nat>, layers: seq<set<nat>>)
    requires WellFormed(g) && GoodForest(g, dst, forest)
  {
    && TopFor(g, dst, forest, t.l1, numTrees, maxl1, top) && LaidByLevel(t.n, level, top, layers)
    && (Room(t.n, |t.l1|, numTrees, maxl1) ==>
          |layers| == L && Whole(t.n, level, L, top, layers) && |top * t.l1| + t.n == Used(t.n, numTrees) + |t.l1| && Below(t.n) - t.l1 <= top)
  }

  ghost predicate LaidFor(g: Graph, dst: Vertex, forest: seq<Tree>, t: Ttg.Graph, level: seq<nat>, L: nat, numTrees: int, maxl1: nat, layers: seq<set<nat>>)
    requires WellFormed(g) && GoodForest(g, dst, forest)
  {
    exists top :: LaidWith(g, dst, forest, t, level, L, numTrees, maxl1, top, layers)
  }

  /**
   The plan of one destination from a TTG of the kind every builder makes: the trees chosen for it, in their layers. No
   layer is lost if there is room for all trees behind the first layer.
   */
  method LayTrees(g: Graph, dst: Vertex, forest: seq<Tree>, t: Ttg.Graph, reach: Digraph, numTrees: int, maxl1: nat, ghost level: seq<nat>, ghost L: nat)
    returns (plan: D.Plan, top: set<nat>)
    requires WellFormed(g) && dst in g.V && GoodForest(g, dst, forest) && |forest| == t.n && t.n > 0
    requires Ttg.GoodTtg(t, level, L) && forall a: nat, b: nat :: (a, b) in reach <==> Reaches(t.E, a, b)
    ensures D.GoodPlan(g, dst, plan) && plan.forest == forest && plan.E == t.E
    ensures LaidWith(g, dst, forest, t, level, L, numTrees, maxl1, top, plan.layers)
  {
    hide GoodForest, Acyclic, Reaches, WellFormed, TopFor, D.GoodPlan, LaidByLevel, Below;
    var layers := Ttg.FindLayers(t, level, L);
    LayersByLevel(t, level, L, layers);
    FirstLayer(t, level, L, layers);
    top := TopTrees(g, dst, forest, layers[0], numTrees, maxl1);
    ghost var at;
    var kept;
    kept, at := KeepTop(layers, top);
    plan := D.Plan(forest, t.E, reach, kept);
    PlanIsGood(g, dst, t, level, L, layers, top, at, plan);
    KeptByLevel(t, level, L, layers, top, kept, at);
    if Room(t.n, |t.l1|, numTrees, maxl1) {
      OthersInTop(g, dst, forest, t.l1, numTrees, maxl1, top);
      NoLayerEmpty(t, level, L, top);
      NothingDropped(t, level, L, layers, top, kept, at);
    }
  }

  lemma PlanIsGood(g: Graph, dst: Vertex, t: Ttg.Graph, level: seq<nat>, L: nat, layers: seq<set<nat>>, top: set<nat>, at: seq<nat>, plan: D.Plan)
    requires WellFormed(g) && dst in g.V && GoodForest(g, dst, plan.forest) && |plan.forest| == t.n && plan.E == t.E
    requires Ttg.GoodTtg(t, level, L) && forall a: nat, b: nat :: (a, b) in plan.reach <==> Reaches(t.E, a, b)
    requires Kept(layers, top, plan.layers, at, |layers|) && |layers| == L
    requires ByLevel(level, layers)
    ensures D.GoodPlan(g, dst, plan)
    ensures forall i, x: nat | 0 <= i < |plan.layers| && x in plan.layers[i] :: x in top
  {
    hide GoodForest, Acyclic, Reaches, WellFormed;
    forall j, k, a: nat, b: nat | 0 <= j < k < |plan.layers| && a in plan.layers[j] && b in plan.layers[k] ensures (a, b) in plan.reach {
      LaidTreesReach(t, level, L, layers, top, plan.layers, at, j, k, a, b);
    }
    forall k, x: nat | 0 <= k < |plan.layers| && x in plan.layers[k] ensures x < |plan.forest| {
      assert x in layers[at[k]];
    }
  }

  lemma FirstLayer(t: Ttg.Graph, level: seq<nat>, L: nat, layers: seq<set<nat>>)
    requires Ttg.Tiered(t, level, L) && t.n > 0 && |layers| == L && forall k, i: nat | 0 <= k < L && i < t.n :: i in layers[k] <==> level[i] == k
    requires forall k | 0 <= k < L :: forall i <- layers[k] :: i < t.n
    ensures L > 0 && layers[0] == t.l1 && t.l1 <= Below(t.n)
  {
    hide Below;
    assert level[0] < L;
  }

  lemma NoLayerEmpty(t: Ttg.Graph, level: seq<nat>, L: nat, top: set<nat>)
    requires Ttg.Tiered(t, level, L) && Below(t.n) - t.l1 <= top && |top * t.l1| > 0
    ensures TopMeetsAll(t, level, L, top)
  {
    hide Below;
    forall k: nat | k < L ensures MeetsLevel(level, top, k) {
      assert Ttg.Occupied(level, k);
      var x: nat :| if k == 0 then x in top * t.l1 else x < |level| && level[x] == k;
      assert x < t.n && level[x] == k && x in top;
    }
  }

  lemma NothingDropped(t: Ttg.Graph, level: seq<nat>, L: nat, layers: seq<set<nat>>, top: set<nat>, kept: seq<set<nat>>, at: seq<nat>)
    requires Kept(layers, top, kept, at, |layers|) && |layers| == L && TopMeetsAll(t, level, L, top)
    requires forall k, i: nat | 0 <= k < L && i < t.n :: i in layers[k] <==> level[i] == k
    ensures Whole(t.n, level, L, top, kept)
  {
    forall k: nat | k < L ensures layers[k] * top != {} {
      assert MeetsLevel(level, top, k);
      var x: nat :| x < |level| && level[x] == k && x in top;
      assert x in layers[k] * top;
    }
    NoLayerLost(layers, top, kept, at, |layers|);
  }

  /** The trees of `top` one by one, in the order of the line. */
  ghost predicate InLine(top: set<nat>, layers: seq<set<nat>>) {
    && |layers| == |top| && (forall i | 0 <= i < |layers| :: |layers[i]| == 1 && layers[i] <= top)
    && forall i, j, a: nat, b: nat {:trigger a in layers[i], b in layers[j]} | 0 <= i < j < |layers| && a in layers[i] && b in layers[j] :: a < b
  }

  /** The trees that the line may start packets on: all but the last `numTrees - 1`, or the first one if all trees are used. */
  function LineStarts(n: nat, numTrees: int): set<nat> {
    Ttg.Range(0, if 0 < numTrees <= n then n - numTrees + 1 else 1)
  }

  ghost predicate LaidInLine(g: Graph, dst: Vertex, forest: seq<Tree>, numTrees: int, layers: seq<set<nat>>)
    requires WellFormed(g) && GoodForest(g, dst, forest)
  {
    var maxl1 := if numTrees > 0 then numTrees else 0;
    exists top :: TopFor(g, dst, forest, LineStarts(|forest|, numTrees), numTrees, maxl1, top) && InLine(top, layers)
  }

  /**
   The line: if several of the chosen trees are in its first layer, every chosen tree becomes a layer of its own, in the
   order of the line. Either way there is one layer for each chosen tree.
   */
  method LayLine(g: Graph, dst: Vertex, forest: seq<Tree>, numTrees: int, reachable: Digraph -> Digraph) returns (plan: D.Plan)
    requires WellFormed(g) && dst in g.V && GoodForest(g, dst, forest) && forest != [] && numTrees != 0 && numTrees <= |forest|
    requires forall E, a: nat, b: nat :: (a, b) in reachable(E) <==> Reaches(E, a, b)
    ensures D.GoodPlan(g, dst, plan) && plan.forest == forest && plan.E == Ttg.Line(0, |forest|)
    ensures |plan.layers| == Used(|forest|, numTrees) && forall i | 0 <= i < |plan.layers| :: |plan.layers[i]| == 1
    ensures LaidInLine(g, dst, forest, numTrees, plan.layers)
  {
    hide GoodForest, Acyclic, Reaches, WellFormed, Ttg.GoodTtg, Ttg.Line, Ttg.Range, D.GoodPlan, LaidByLevel, Singles, TopFor, InLine, LaidInLine, LaidWith, Below;
    var t, level, L := Ttg.TtgLine(|forest|, numTrees);
    var top;
    plan, top := LayTrees(g, dst, forest, t, reachable(t.E), numTrees, if numTrees > 0 then numTrees else 0, level, L);
    LaidTop(g, dst, forest, t, level, L, numTrees, if numTrees > 0 then numTrees else 0, top, plan.layers);
    TopSize(g, dst, forest, t.l1, numTrees, if numTrees > 0 then numTrees else 0, top);
    if plan.layers != [] && |plan.layers[0]| > 1 {
      var order := InTurn(top, |forest|);
      SinglesAreGood(g, dst, plan, top, order);
      SinglesInLine(|forest|, top, order);
      plan := plan.(layers := OneByOne(order));
    } else {
      LayersOccupied(g, dst, plan);
      EachInLine(|forest|, level, top, plan.layers);
    }
    LineLaid(g, dst, forest, numTrees, t, top, plan.layers);
  }

  lemma LaidTop(g: Graph, dst: Vertex, forest: seq<Tree>, t: Ttg.Graph, level: seq<nat>, L: nat, numTrees: int, maxl1: nat, top: set<nat>, layers: seq<set<nat>>)
    requires WellFormed(g) && GoodForest(g, dst, forest) && LaidWith(g, dst, forest, t, level, L, numTrees, maxl1, top, layers)
    ensures TopFor(g, dst, forest, t.l1, numTrees, maxl1, top) && LaidByLevel(t.n, level, top, layers)
  {
  }

  lemma LineLaid(g: Graph, dst: Vertex, forest: seq<Tree>, numTrees: int, t: Ttg.Graph, top: set<nat>, layers: seq<set<nat>>)
    requires WellFormed(g) && GoodForest(g, dst, forest) && InLine(top, layers) && t.l1 == LineStarts(|forest|, numTrees)
    requires TopFor(g, dst, forest, t.l1, numTrees, if numTrees > 0 then numTrees else 0, top)
    ensures LaidInLine(g, dst, forest, numTrees, layers)
    ensures |layers| == |top| && forall i | 0 <= i < |layers| :: |layers[i]| == 1
  {
  }

  lemma SinglesInLine(n: nat, top: set<nat>, order: seq<nat>)
    requires Singles(top, n, order) && |top * Below(n)| == |top|
    ensures InLine(top, OneByOne(order))
  {
    hide Below;
  }

  lemma EachInLine(n: nat, level: seq<nat>, top: set<nat>, layers: seq<set<nat>>)
    requires LaidByLevel(n, level, top, layers) && (forall i | 0 <= i < |layers| :: layers[i] != {}) && |top * Below(n)| == |top|
    requires |level| == n && (forall a, b | 0 <= a < b < n && level[a] == level[b] :: level[a] == 0) && (layers == [] || |layers[0]| <= 1)
    requires forall a, b | 0 <= a <= b < n :: level[a] <= level[b]
    ensures InLine(top, layers)
  {
    hide LaidByLevel, Below;
    OneEach(n, level, top, layers);
    forall i, a: nat | 0 <= i < |layers| && a in layers[i] ensures a in top {
      LevelsRise(n, level, top, layers, i, i, a, a);
    }
    forall i, j, a: nat, b: nat | 0 <= i < j < |layers| && a in layers[i] && b in layers[j] ensures a < b {
      LevelsRise(n, level, top, layers, i, j, a, b);
    }
  }

  lemma TopSize(g: Graph, dst: Vertex, forest: seq<Tree>, first: set<nat>, numTrees: int, maxl1: nat, top: set<nat>)
    requires WellFormed(g) && GoodForest(g, dst, forest) && TopFor(g, dst, forest, first, numTrees, maxl1, top)
    ensures top <= Below(|forest|) && |top| == Used(|forest|, numTrees) && |top * Below(|forest|)| == |top|
  {
    hide C.NearestOf, Below, WellFormed, GoodForest;
    assert top * Below(|forest|) == top;
  }

  /** The trees of `top` below `i`, in order. */
  ghost predicate Singles(top: set<nat>, i: nat, order: seq<nat>) {
    |order| == |top * Below(i)| && (forall k | 0 <= k < |order| :: order[k] < i && order[k] in top) && forall j, k | 0 <= j < k < |order| :: order[j] < order[k]
  }

  function OneByOne(order: seq<nat>): (layers: seq<set<nat>>)
    ensures |layers| == |order| && forall k | 0 <= k < |order| :: layers[k] == {order[k]}
  {
    seq(|order|, k requires 0 <= k < |order| => {order[k]})
  }

  method InTurn(top: set<nat>, n: nat) returns (order: seq<nat>)
    ensures Singles(top, n, order)
  {
    hide Singles;
    order := [];
    NoSingles(top);
    for i: nat := 0 to n
      invariant Singles(top, i, order)
    {
      SinglesNext(top, i, order);
      if i in top {
        order := order + [i];
      }
    }
  }

  lemma NoSingles(top: set<nat>)
    ensures Singles(top, 0, [])
  {
    assert top * Below(0) == {};
  }

  lemma SinglesNext(top: set<nat>, i: nat, order: seq<nat>)
    requires Singles(top, i, order)
    ensures Singles(top, i + 1, if i in top then order + [i] else order)
  {
    hide Below;
    BelowNext(top, i);
  }

  lemma BelowNext(top: set<nat>, i: nat)
    ensures |top * Below(i + 1)| == |top * Below(i)| + if i in top then 1 else 0
  {
    hide Below;
    var before := top * Below(i);
    assert top * Below(i + 1) == if i in top then before + {i} else before;
  }

  lemma SinglesAreGood(g: Graph, dst: Vertex, plan: D.Plan, top: set<nat>, order: seq<nat>)
    requires D.GoodPlan(g, dst, plan) && Singles(top, |plan.forest|, order) && plan.E == Ttg.Line(0, |plan.forest|)
    ensures D.GoodPlan(g, dst, plan.(layers := OneByOne(order)))
    ensures |order| == |top * Below(|plan.forest|)|
  {
    hide GoodForest, Acyclic, Reaches, WellFormed;
    forall j, k | 0 <= j < k < |order| ensures (order[j], order[k]) in plan.reach {
      Ttg.LineReaches(plan.E, 0, |plan.forest|, order[j], order[k]);
    }
  }

  lemma LayersOccupied(g: Graph, dst: Vertex, plan: D.Plan)
    requires D.GoodPlan(g, dst, plan)
    ensures forall i | 0 <= i < |plan.layers| :: plan.layers[i] != {}
  {
  }

  lemma LevelsRise(n: nat, level: seq<nat>, top: set<nat>, layers: seq<set<nat>>, i: nat, j: nat, a: nat, b: nat)
    requires LaidByLevel(n, level, top, layers) && i <= j < |layers| && a in layers[i] && b in layers[j]
    ensures a < n && b < n && |level| == n && a in top && if i == j then level[a] == level[b] else level[a] < level[b]
  {
  }

  /** If only one chosen tree is in the first layer of the line, the layers hold one tree each already. */
  lemma OneEach(n: nat, level: seq<nat>, top: set<nat>, layers: seq<set<nat>>)
    requires LaidByLevel(n, level, top, layers) && (forall i | 0 <= i < |layers| :: layers[i] != {})
    requires |level| == n && (forall a, b | 0 <= a < b < n && level[a] == level[b] :: level[a] == 0) && (layers == [] || |layers[0]| <= 1)
    ensures |layers| == |top * Below(n)| && forall i | 0 <= i < |layers| :: |layers[i]| == 1
  {
    hide LaidByLevel;
    forall i | 0 <= i < |layers| ensures |layers[i]| == 1 && layers[i] <= top * Below(n) {
      var a :| a in layers[i];
      if i > 0 {
        var c :| c in layers[0];
        LevelsRise(n, level, top, layers, 0, i, c, a);
        forall b <- layers[i] ensures a == b {
          LevelsRise(n, level, top, layers, i, i, a, b);
        }
        assert layers[i] == {a};
      }
      forall b <- layers[i] ensures b in top * Below(n) {
        LevelsRise(n, level, top, layers, i, i, b, b);
      }
    }
    forall i, j | 0 <= i < j < |layers| ensures layers[i] !! layers[j] {
      forall x | x in layers[i] && x in layers[j] ensures false {
        LevelsRise(n, level, top, layers, i, j, x, x);
      }
    }
    LaidAll(n, level, top, layers);
    CountSingles(layers, top * Below(n));
  }

  lemma LaidAll(n: nat, level: seq<nat>, top: set<nat>, layers: seq<set<nat>>)
    requires LaidByLevel(n, level, top, layers)
    ensures |level| == n && forall x <- top * Below(n) :: InSome(layers, x)
  {
  }

  lemma {:induction false} CountSingles(layers: seq<set<nat>>, all: set<nat>)
    requires (forall i | 0 <= i < |layers| :: |layers[i]| == 1 && layers[i] <= all) && (forall x <- all :: InSome(layers, x))
    requires forall i, j | 0 <= i < j < |layers| :: layers[i] !! layers[j]
    ensures |layers| == |all|
    decreases |layers|
  {
    hide InSome;
    if layers == [] {
      NoneInSome(layers, all);
    } else {
      var n := |layers| - 1;
      var last, front := layers[n], layers[..n];
      assert layers == front + [last];
      InFront(front, last, all);
      assert |all - last| == |all| - 1;
      CountSingles(front, all - last);
    }
  }

  lemma NoneInSome(layers: seq<set<nat>>, all: set<nat>)
    requires layers == [] && forall x <- all :: InSome(layers, x)
    ensures all == {}
  {
  }

  lemma InFront(front: seq<set<nat>>, last: set<nat>, all: set<nat>)
    requires forall x <- all :: InSome(front + [last], x)
    ensures forall x <- all - last :: InSome(front, x)
  {
    forall x <- all - last ensures InSome(front, x) {
      var i :| 0 <= i <= |front| && x in (front + [last])[i];
      assert x in front[i];
    }
  }

  /** The packet walks over good tables that serve every switch in the order asked for. */
  ghost predicate DfrWalked(g: Graph, dst: Vertex, plan: D.Plan, perf: bool, src: Vertex, itree: nat, F: set<Edge>, table: FwdTable,
                            hops: Option<seq<Port>>, failExp: bool) {
    && D.GoodTable(g, dst, plan, table) && (forall v <- g.V | v != dst :: D.ServedInOrder(g, plan, v, table, perf))
    && WellFormed(g) && TableValid(g, table) && Walked(g, dst, table, F, src, itree, D.HopBound(g, plan, itree), hops, failExp)
  }

  /**
   Deadlock-free routing: a packet that starts in layer `k` of `L` is delivered after fewer than `L - k` failures,
   although it carries no failed trees.
   */
  method DfrRoute(g: Graph, dst: Vertex, plan: D.Plan, perf: bool, src: Vertex, itree: nat, F: set<Edge>, ghost k: nat)
    returns (hops: Option<seq<Port>>, failExp: bool, ghost table: FwdTable)
    requires D.GoodPlan(g, dst, plan) && D.EdgeDisjoint(plan.forest) && src in g.V && D.InLayer(plan, itree, k)
    ensures hops.Some? ==> LivePath(g, F, src, dst, hops.value) && |hops.value| <= D.HopBound(g, plan, itree)
    ensures |F| < |plan.layers| - k ==> hops.Some?
    ensures DfrWalked(g, dst, plan, perf, src, itree, F, table, hops, failExp)
  {
    hide D.GoodPlan, D.EdgeDisjoint, D.GoodTable, D.ServedInOrder, D.InLayer, LivePath, WellFormed, TableValid, Run, Trees, Changes;
    var fwdtable := D.DfrFwdtable(g, dst, plan, perf);
    table := fwdtable;
    D.TableIsValid(g, dst, plan, table);
    D.LayeredResilience(g, dst, plan, table, F, src, itree, k);
    if |F| < |plan.layers| - k {
      D.LayersSurvive(g, dst, plan, table, F, src, itree, k);
    }
    hops, failExp := WalkInternal(g, src, dst, fwdtable, itree, F, D.HopBound(g, plan, itree));
  }

  /** The layers of a line of `randRes` trees behind the others: one tree each, behind those used of the first layer. */
  ghost predicate RandMaxLayers(n: nat, randRes: nat, used: nat, layers: seq<set<nat>>)
    requires randRes < n
  {
    && |layers| == randRes + 1 && layers[0] <= Ttg.Range(0, n - randRes) && |layers[0]| + randRes == used
    && forall k | 1 <= k < |layers| :: layers[k] == {n - randRes + k - 1}
  }

  /**
   The random and maximal-DAG TTGs: at most `numTrees - randRes` trees of the first layer are chosen, which leaves room
   for all the others. So there are `randRes + 1` layers, of one tree each behind the first, which the source asserts.
   */
  method LayRandMax(g: Graph, dst: Vertex, forest: seq<Tree>, randRes: nat, t: Ttg.Graph, reach: Digraph, numTrees: int, ghost level: seq<nat>)
    returns (plan: D.Plan)
    requires WellFormed(g) && dst in g.V && GoodForest(g, dst, forest) && |forest| == t.n
    requires Ttg.GoodTtg(t, level, randRes + 1) && Ttg.RandMaxLevels(t.n, randRes, level)
    requires numTrees < 0 || numTrees > randRes
    requires forall a: nat, b: nat :: (a, b) in reach <==> Reaches(t.E, a, b)
    ensures D.GoodPlan(g, dst, plan) && plan.forest == forest && plan.E == t.E
    ensures RandMaxLayers(t.n, randRes, Used(t.n, numTrees), plan.layers)
  {
    hide GoodForest, Acyclic, Reaches, WellFormed, D.GoodPlan, LaidWith, RandMaxLayers, Ttg.Tiered;
    var top;
    plan, top := LayTrees(g, dst, forest, t, reach, numTrees, Used(t.n, numTrees) - randRes, level, randRes + 1);
    LaidRandMax(g, dst, forest, t, level, randRes, numTrees, plan.layers);
  }

  /** Whatever trees are chosen that way, all behind the first layer are. */
  lemma LaidRandMax(g: Graph, dst: Vertex, forest: seq<Tree>, t: Ttg.Graph, level: seq<nat>, randRes: nat, numTrees: int, layers: seq<set<nat>>)
    requires WellFormed(g) && GoodForest(g, dst, forest) && (numTrees < 0 || numTrees > randRes)
    requires Ttg.Tiered(t, level, randRes + 1) && Ttg.RandMaxLevels(t.n, randRes, level)
    requires LaidFor(g, dst, forest, t, level, randRes + 1, numTrees, Used(t.n, numTrees) - randRes, layers)
    ensures RandMaxLayers(t.n, randRes, Used(t.n, numTrees), layers)
  {
    hide GoodForest, WellFormed, LaidByLevel, TopFor, Whole, RandMaxLayers, Ttg.Tiered, Below;
    RandMaxFirst(t, level, randRes);
    var top :| LaidWith(g, dst, forest, t, level, randRes + 1, numTrees, Used(t.n, numTrees) - randRes, top, layers);
    WholeRandMax(t, level, randRes, Used(t.n, numTrees), top, layers);
  }

  lemma RandMaxFirst(t: Ttg.Graph, level: seq<nat>, randRes: nat)
    requires Ttg.Tiered(t, level, randRes + 1) && Ttg.RandMaxLevels(t.n, randRes, level)
    ensures t.l1 == Below(t.n - randRes) && |t.l1| == t.n - randRes
  {
    hide Below, Reaches;
  }

  lemma WholeRandMax(t: Ttg.Graph, level: seq<nat>, randRes: nat, used: nat, top: set<nat>, layers: seq<set<nat>>)
    requires Ttg.RandMaxLevels(t.n, randRes, level) && t.l1 == Below(t.n - randRes) && Whole(t.n, level, randRes + 1, top, layers)
    requires |top * t.l1| + randRes == used && Below(t.n) - t.l1 <= top && LaidByLevel(t.n, level, top, layers)
    ensures RandMaxLayers(t.n, randRes, used, layers)
  {
    hide Below, LaidByLevel, Reaches;
    var r: nat := t.n - randRes;
    assert |layers| == randRes + 1;
    forall k, x: nat | 0 <= k < |layers| && x in layers[k] ensures x < t.n && x in top && level[x] == k {
      InLaid(t.n, level, top, layers, k, x);
    }
    assert layers[0] == top * t.l1;
    forall k | 1 <= k < |layers| ensures layers[k] == {r + k - 1} {
      assert r + k - 1 in Below(t.n) - t.l1 && r + k - 1 in layers[k];
      forall x <- layers[k] ensures x == r + k - 1 {
        InLaid(t.n, level, top, layers, k, x);
      }
    }
  }

  lemma InLaid(n: nat, level: seq<nat>, top: set<nat>, layers: seq<set<nat>>, k: nat, x: nat)
    requires LaidByLevel(n, level, top, layers) && Whole(n, level, |layers|, top, layers) && k < |layers| && x in layers[k]
    ensures x < n && x in top && level[x] == k
  {
  }

  /** They keep their promise: `randRes` failures are survived by every packet, whichever first-layer tree in use it starts on. */
  method RandMaxDagRoute(g: Graph, dst: Vertex, forest: seq<Tree>, randRes: nat, sub: Digraph, reachable: Digraph -> Digraph, numTrees: int,
                         perf: bool, src: Vertex, F: set<Edge>)
    returns (hops: Option<seq<Port>>, failExp: bool, ghost plan: D.Plan, ghost itree: nat, ghost table: FwdTable)
    requires WellFormed(g) && dst in g.V && src in g.V && GoodForest(g, dst, forest) && D.EdgeDisjoint(forest)
    requires randRes < |forest| && Acyclic(sub) && forall a, b | (a, b) in sub :: a < |forest| - randRes && b < |forest| - randRes
    requires numTrees < 0 || numTrees > randRes
    requires forall E, a: nat, b: nat :: (a, b) in reachable(E) <==> Reaches(E, a, b)
    ensures hops.Some? ==> LivePath(g, F, src, dst, hops.value)
    ensures |F| <= randRes ==> hops.Some?
    ensures plan.forest == forest && RandMaxLayers(|forest|, randRes, Used(|forest|, numTrees), plan.layers) && itree in plan.layers[0]
    ensures D.GoodPlan(g, dst, plan) && DfrWalked(g, dst, plan, perf, src, itree, F, table, hops, failExp)
    ensures Ttg.ChainBehind(sub, plan.E, |forest| - randRes, |forest|)
  {
    hide D.GoodPlan, D.EdgeDisjoint, LivePath, WellFormed, GoodForest, Acyclic, Reaches, Ttg.GoodTtg, DfrWalked, Ttg.ChainBehind, Ttg.RandMaxLevels;
    var t, level, L := Ttg.TtgRandMaxDag(|forest|, randRes, sub);
    TtgLevels(t, level, L);
    var p := LayRandMax(g, dst, forest, randRes, t, reachable(t.E), numTrees, level);
    var i :| i in p.layers[0];
    plan, itree := p, i;
    hops, failExp, table := DfrRoute(g, dst, p, perf, src, i, F, 0);
  }

  lemma TtgLevels(t: Ttg.Graph, level: seq<nat>, L: nat)
    requires Ttg.GoodTtg(t, level, L)
    ensures |level| == t.n
  {
  }

  /** On a line, a packet that starts on the first tree in use survives fewer failures than there are trees in use. */
  method LineRoute(g: Graph, dst: Vertex, forest: seq<Tree>, numTrees: int, reachable: Digraph -> Digraph, perf: bool, src: Vertex, F: set<Edge>)
    returns (hops: Option<seq<Port>>, failExp: bool, ghost plan: D.Plan, ghost itree: nat, ghost table: FwdTable)
    requires WellFormed(g) && dst in g.V && src in g.V && GoodForest(g, dst, forest) && D.EdgeDisjoint(forest)
    requires forest != [] && numTrees != 0 && numTrees <= |forest|
    requires forall E, a: nat, b: nat :: (a, b) in reachable(E) <==> Reaches(E, a, b)
    ensures hops.Some? ==> LivePath(g, F, src, dst, hops.value)
    ensures |F| < Used(|forest|, numTrees) ==> hops.Some?
    ensures plan.forest == forest && LaidInLine(g, dst, forest, numTrees, plan.layers) && plan.layers != [] && plan.layers[0] == {itree} && plan.E == Ttg.Line(0, |forest|)
    ensures D.GoodPlan(g, dst, plan) && DfrWalked(g, dst, plan, perf, src, itree, F, table, hops, failExp)
  {
    hide D.GoodPlan, D.EdgeDisjoint, LivePath, WellFormed, GoodForest, Acyclic, Reaches, DfrWalked, TopFor;
    var p := LayLine(g, dst, forest, numTrees, reachable);
    assert |p.layers[0]| == 1;
    var i :| i in p.layers[0];
    OnlyOne(p.layers[0], i);
    plan, itree := p, i;
    hops, failExp, table := DfrRoute(g, dst, p, perf, src, i, F, 0);
  }

  lemma OnlyOne(s: set<nat>, x: nat)
    requires |s| == 1 && x in s
    ensures s == {x}
  {
    assert |s - {x}| == 0;
  }

  lemma SomeLayer(g: Graph, dst: Vertex, forest: seq<Tree>, t: Ttg.Graph, level: seq<nat>, L: nat, numTrees: int, maxl1: nat, top: set<nat>,
                  layers: seq<set<nat>>)
    requires WellFormed(g) && GoodForest(g, dst, forest) && TopFor(g, dst, forest, t.l1, numTrees, maxl1, top) && forest != []
    requires LaidByLevel(t.n, level, top, layers) && |forest| == t.n
    ensures layers != []
  {
    hide Below, WellFormed, GoodForest, TopFor;
    TopSize(g, dst, forest, t.l1, numTrees, maxl1, top);
    var x :| x in top;
    assert InSome(layers, x);
  }

  /**
   Layers of shrinking widths: a packet that starts in the first layer in use survives fewer failures than there are
   layers in use, and these are all layers of the TTG if all trees are used, or all behind the first layer fit.
   */
  method LayeredDagRoute(g: Graph, dst: Vertex, forest: seq<Tree>, l1width: nat, selfLayer: bool, r: Ttg.Reduction, reachable: Digraph -> Digraph,
                         numTrees: int, maxl1: nat, perf: bool, src: Vertex, F: set<Edge>)
    returns (hops: Option<seq<Port>>, failExp: bool, layers: nat, ghost w: seq<nat>, ghost plan: D.Plan, ghost itree: nat, ghost table: FwdTable)
    requires WellFormed(g) && dst in g.V && src in g.V && GoodForest(g, dst, forest) && D.EdgeDisjoint(forest) && forest != []
    requires l1width > 0 && maxl1 > 0 && numTrees != 0
    requires forall E, a: nat, b: nat :: (a, b) in reachable(E) <==> Reaches(E, a, b)
    ensures hops.Some? ==> LivePath(g, F, src, dst, hops.value)
    ensures |F| < layers ==> hops.Some?
    ensures layers > 0 && Ttg.WidthsFor(w, |forest|, l1width, r) && (Room(|forest|, w[0], numTrees, maxl1) ==> layers == |w|)
    ensures plan.forest == forest && LaidInWidths(g, dst, forest, w, numTrees, maxl1, plan.layers)
    ensures layers == |plan.layers| && itree in plan.layers[0] && Ttg.LayeredArcs(w, selfLayer, plan.E)
    ensures D.GoodPlan(g, dst, plan) && DfrWalked(g, dst, plan, perf, src, itree, F, table, hops, failExp)
  {
    hide D.GoodPlan, D.EdgeDisjoint, LivePath, WellFormed, GoodForest, Acyclic, Reaches, Ttg.GoodTtg, LaidByLevel, TopFor, Whole, Ttg.WidthsFor,
      Ttg.LayeredArcs, DfrWalked, LaidInWidths;
    var t;
    ghost var level;
    t, w, level := Ttg.TtgLayeredDag(|forest|, l1width, selfLayer, r);
    FirstWidth(w, |forest|, l1width, r);
    var p, top := LayTrees(g, dst, forest, t, reachable(t.E), numTrees, maxl1, level, |w|);
    SomeLayer(g, dst, forest, t, level, |w|, numTrees, maxl1, top, p.layers);
    LayersOccupied(g, dst, p);
    layers := |p.layers|;
    var i :| i in p.layers[0];
    assert D.InLayer(p, i, 0);
    WidthsLaid(g, dst, forest, t, w, level, numTrees, maxl1, top, p.layers);
    plan, itree := p, i;
    hops, failExp, table := DfrRoute(g, dst, p, perf, src, i, F, 0);
  }

  /** The chosen trees, in the layers of the widths. */
  ghost predicate LaidInWidths(g: Graph, dst: Vertex, forest: seq<Tree>, w: seq<nat>, numTrees: int, maxl1: nat, layers: seq<set<nat>>)
    requires WellFormed(g) && GoodForest(g, dst, forest)
  {
    && w != [] && |forest| == Ttg.Sum(w)
    && var level := seq(|forest|, i requires 0 <= i < |forest| => Ttg.LevelOf(w, i));
       exists top :: TopFor(g, dst, forest, Ttg.Range(0, w[0]), numTrees, maxl1, top) && LaidByLevel(|forest|, level, top, layers)
  }

  lemma WidthsLaid(g: Graph, dst: Vertex, forest: seq<Tree>, t: Ttg.Graph, w: seq<nat>, level: seq<nat>, numTrees: int, maxl1: nat, top: set<nat>,
                   layers: seq<set<nat>>)
    requires WellFormed(g) && GoodForest(g, dst, forest) && w != [] && |forest| == t.n == |level| == Ttg.Sum(w) && t.l1 == Ttg.Range(0, w[0])
    requires forall i: nat | i < t.n :: level[i] == Ttg.LevelOf(w, i)
    requires TopFor(g, dst, forest, t.l1, numTrees, maxl1, top) && LaidByLevel(t.n, level, top, layers)
    ensures LaidInWidths(g, dst, forest, w, numTrees, maxl1, layers)
  {
    hide WellFormed, GoodForest, TopFor, LaidByLevel;
    assert level == seq(|forest|, i requires 0 <= i < |forest| => Ttg.LevelOf(w, i));
  }

  lemma FirstWidth(w: seq<nat>, n: nat, l1width: nat, r: Ttg.Reduction)
    requires Ttg.WidthsFor(w, n, l1width, r)
    ensures w != [] && |Ttg.Range(0, w[0])| == w[0] && Ttg.Sum(w) == n
  {
    Ttg.RangeSize(0, w[0]);
  }
}
