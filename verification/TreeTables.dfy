/** The tables of edge-disjoint and arc-disjoint tree routing, and what a packet that carries its failed trees survives. */
module TreeTables {
  import opened Wrappers
  import opened FiniteSets
  import opened Topology
  import opened TreePaths
  import opened TreeWalk

  /** The entries of `v` for the trees `prefs`, each marking the trees before it as failed. */
  ghost predicate Lists(g: Graph, forest: seq<Tree>, v: Vertex, prefs: seq<nat>, entries: seq<Entry>) {
    && |entries| == |prefs|
    && forall i | 0 <= i < |prefs| ::
         && prefs[i] < |forest| && HasHop(g, forest[prefs[i]], v)
         && entries[i] == Entry(prefs[i], HopEdge(g, forest[prefs[i]], v), HopPort(forest[prefs[i]], v), Elems(prefs[..i]))
  }

  /** The preferences of a packet on tree `t`: that tree, then every resilient tree once. */
  ghost predicate GoodPrefs(prefs: seq<nat>, t: nat, rtrees: set<nat>) {
    && prefs != [] && prefs[0] == t && NoDup(prefs)
    && rtrees <= Elems(prefs) && Elems(prefs[1..]) <= rtrees
  }

  ghost predicate GoodEntries(g: Graph, forest: seq<Tree>, v: Vertex, t: nat, rtrees: set<nat>, entries: seq<Entry>) {
    exists prefs :: Lists(g, forest, v, prefs, entries) && GoodPrefs(prefs, t, rtrees)
  }

  /** The forest of a destination: its trees, and which of them are the default and the resilient ones. */
  datatype Plan = Plan(forest: seq<Tree>, dtrees: set<nat>, rtrees: set<nat>)

  ghost predicate GoodPlan(g: Graph, dst: Vertex, plan: Plan) {
    WellFormed(g) && GoodForest(g, dst, plan.forest) && (forall t <- plan.dtrees + plan.rtrees :: t < |plan.forest|)
      && dst in g.V
  }

  lemma TreeAt(g: Graph, dst: Vertex, plan: Plan, t: nat)
    requires GoodPlan(g, dst, plan) && (t in plan.dtrees + plan.rtrees || t < |plan.forest|)
    ensures WellFormed(g) && t < |plan.forest| && GoodTree(g, dst, plan.forest[t])
  {
  }

  /** Every switch but the destination lists its preferences for every tree. */
  ghost predicate GoodTable(g: Graph, dst: Vertex, plan: Plan, table: FwdTable) {
    && TableValid(g, table)
    && forall v, t | v in g.V && v != dst && t in plan.dtrees + plan.rtrees ::
         (v, t) in table && GoodEntries(g, plan.forest, v, t, plan.rtrees, table[(v, t)])
  }

  lemma PlanIsWellFormed(g: Graph, dst: Vertex, plan: Plan)
    requires GoodPlan(g, dst, plan)
    ensures WellFormed(g)
  {
  }

  lemma TableIsValid(g: Graph, dst: Vertex, plan: Plan, table: FwdTable)
    requires GoodPlan(g, dst, plan) && GoodTable(g, dst, plan, table)
    ensures WellFormed(g) && TableValid(g, table)
  {
  }

  // ---------- The walk ----------

  ghost predicate Fails(g: Graph, dst: Vertex, plan: Plan, F: set<Edge>, t: nat) {
    t < |plan.forest| && FailsUnder(g, dst, plan.forest[t], F)
  }

  /** A packet is on a tree it has not given up, and it has given up only trees that failed. */
  ghost predicate Inv(g: Graph, dst: Vertex, plan: Plan, F: set<Edge>, s: State) {
    && s.v in g.V && s.ctree in plan.dtrees + plan.rtrees && s.ctree !in s.failed
    && forall t <- s.failed :: Fails(g, dst, plan, F, t)
  }

  /** The hops left, if every tree not given up yet is tried: the trees not given up, times the longest path, and the rest of this one. */
  function Budget(g: Graph, plan: Plan, s: State): nat {
    Span(|plan.rtrees - s.failed - {s.ctree}|, LongestPath(g)) + DepthIn(plan.forest, s.ctree, s.v)
  }

  lemma HopFails(g: Graph, dst: Vertex, plan: Plan, F: set<Edge>, t: nat, v: Vertex)
    requires t < |plan.forest| && HasHop(g, plan.forest[t], v) && v in g.V && v != dst && HopEdge(g, plan.forest[t], v) in F
    ensures Fails(g, dst, plan, F, t)
  {
  }

  lemma EntryAt(g: Graph, forest: seq<Tree>, v: Vertex, prefs: seq<nat>, entries: seq<Entry>, i: nat)
    requires Lists(g, forest, v, prefs, entries) && i < |prefs|
    ensures prefs[i] < |forest| && HasHop(g, forest[prefs[i]], v)
    ensures entries[i] == Entry(prefs[i], HopEdge(g, forest[prefs[i]], v), HopPort(forest[prefs[i]], v), Elems(prefs[..i]))
  {
  }

  /** The trees passed over have failed. */
  lemma SkippedFail(g: Graph, dst: Vertex, plan: Plan, F: set<Edge>, s: State, prefs: seq<nat>, entries: seq<Entry>)
    requires Inv(g, dst, plan, F, s) && s.v != dst && Lists(g, plan.forest, s.v, prefs, entries)
    ensures forall t <- prefs[..FirstUsable(entries, s.failed, F)] :: Fails(g, dst, plan, F, t)
  {
    var i := FirstUsable(entries, s.failed, F);
    forall t <- prefs[..i] ensures Fails(g, dst, plan, F, t) {
      var k :| 0 <= k < i && prefs[k] == t;
      EntryAt(g, plan.forest, s.v, prefs, entries, k);
      if t !in s.failed {
        HopFails(g, dst, plan, F, t, s.v);
      }
    }
  }

  /** A packet finds no entry only when every resilient tree has failed. */
  lemma DropMeansAllFail(g: Graph, dst: Vertex, plan: Plan, F: set<Edge>, s: State, prefs: seq<nat>, entries: seq<Entry>)
    requires Inv(g, dst, plan, F, s) && s.v != dst
    requires Lists(g, plan.forest, s.v, prefs, entries) && GoodPrefs(prefs, s.ctree, plan.rtrees)
    requires FirstUsable(entries, s.failed, F) == |entries|
    ensures forall t <- plan.rtrees :: Fails(g, dst, plan, F, t)
  {
    SkippedFail(g, dst, plan, F, s, prefs, entries);
    assert prefs[..|prefs|] == prefs;
    forall t <- plan.rtrees ensures Fails(g, dst, plan, F, t) {
      assert t in Elems(prefs);
    }
  }

  /** Taking the entry at position `i` keeps the invariant and uses up budget. */
  lemma HopKeeps(g: Graph, dst: Vertex, plan: Plan, F: set<Edge>, s: State, prefs: seq<nat>, entries: seq<Entry>, i: nat, s': State)
    requires GoodPlan(g, dst, plan) && Inv(g, dst, plan, F, s) && s.v != dst
    requires Lists(g, plan.forest, s.v, prefs, entries) && GoodPrefs(prefs, s.ctree, plan.rtrees)
    requires i == FirstUsable(entries, s.failed, F) && i < |entries| && (s.v, entries[i].port) in g.ports
    requires s'.v == Far(g, s.v, entries[i].port).0 && s'.ctree == entries[i].tree && s'.failed == s.failed + entries[i].markFailed
    ensures Inv(g, dst, plan, F, s') && Budget(g, plan, s') < Budget(g, plan, s)
  {
    SkippedFail(g, dst, plan, F, s, prefs, entries);
    EntryAt(g, plan.forest, s.v, prefs, entries, i);
    assert entries[i].tree !in prefs[..i];
    if i > 0 {
      assert prefs[i] == prefs[1..][i - 1];
      assert prefs[i] in Elems(prefs[1..]);
      assert prefs[0] in prefs[..i];
    }
    HopDescends(g, dst, plan.forest[s'.ctree], s.v);
    hide GoodForest, Lists, FailsUnder, Fails, Span;
    assert Inv(g, dst, plan, F, s');
    if i == 0 {
      assert s'.failed == s.failed;
    } else {
      SwitchBudget(g, dst, plan, s, s');
    }
  }

  /** The preferences behind the entries that a packet meets. */
  lemma PrefsAt(g: Graph, dst: Vertex, plan: Plan, table: FwdTable, F: set<Edge>, s: State) returns (prefs: seq<nat>)
    requires GoodPlan(g, dst, plan) && GoodTable(g, dst, plan, table) && Inv(g, dst, plan, F, s) && s.v != dst
    ensures WellFormed(g) && TableValid(g, table) && (s.v, s.ctree) in table && s.v in g.V && s.ctree < |plan.forest|
    ensures Lists(g, plan.forest, s.v, prefs, table[(s.v, s.ctree)]) && GoodPrefs(prefs, s.ctree, plan.rtrees)
  {
    assert GoodEntries(g, plan.forest, s.v, s.ctree, plan.rtrees, table[(s.v, s.ctree)]);
    prefs :| Lists(g, plan.forest, s.v, prefs, table[(s.v, s.ctree)]) && GoodPrefs(prefs, s.ctree, plan.rtrees);
  }

  /** One hop keeps the invariant and uses up budget; only a packet all of whose resilient trees fail can be dropped. */
  lemma StepKeeps(g: Graph, dst: Vertex, plan: Plan, table: FwdTable, F: set<Edge>, s: State)
    requires GoodPlan(g, dst, plan) && GoodTable(g, dst, plan, table) && Inv(g, dst, plan, F, s) && s.v != dst
    ensures match Step(g, table, F, s)
      case None => forall t <- plan.rtrees :: Fails(g, dst, plan, F, t)
      case Some(s') => Inv(g, dst, plan, F, s') && Budget(g, plan, s') < Budget(g, plan, s)
  {
    var prefs := PrefsAt(g, dst, plan, table, F, s);
    hide Lists, GoodPrefs, Budget, GoodTable, GoodPlan, Inv, Fails, WellFormed;
    var entries := table[(s.v, s.ctree)];
    var i := FirstUsable(entries, s.failed, F);
    if i == |entries| {
      DropMeansAllFail(g, dst, plan, F, s, prefs, entries);
    } else {
      assert entries[i] in entries;
      HopKeeps(g, dst, plan, F, s, prefs, entries, i, Step(g, table, F, s).value);
    }
  }

  /** Changing trees gives up the old tree for good, which pays for a whole path on the new one. */
  lemma SwitchBudget(g: Graph, dst: Vertex, plan: Plan, s: State, s': State)
    requires GoodPlan(g, dst, plan) && s.v in g.V && s'.v in g.V && s.v != dst
    requires s.ctree < |plan.forest| && s'.ctree in plan.rtrees && s'.ctree != s.ctree && s'.ctree !in s.failed
    requires s.failed + {s.ctree} <= s'.failed
    requires DepthIn(plan.forest, s'.ctree, s.v) == DepthIn(plan.forest, s'.ctree, s'.v) + 1
    ensures Budget(g, plan, s') < Budget(g, plan, s)
  {
    TreeAt(g, dst, plan, s'.ctree);
    hide GoodPlan, GoodTree, HasHop, WellFormed;
    var a := plan.rtrees - s.failed - {s.ctree};
    var b := plan.rtrees - s'.failed - {s'.ctree};
    SubsetSize(b, a - {s'.ctree});
    DepthBound(g, dst, plan.forest[s'.ctree], s.v);
    SpanMonotone(|b| + 1, |a|, LongestPath(g));
  }

  /**
   For every failure set the walk ends within its budget; it is dropped only if every resilient tree has failed.
   */
  lemma {:induction false} RunEnds(g: Graph, dst: Vertex, plan: Plan, table: FwdTable, F: set<Edge>, s: State, n: nat)
    requires GoodPlan(g, dst, plan) && GoodTable(g, dst, plan, table) && Inv(g, dst, plan, F, s) && Budget(g, plan, s) <= n
    ensures !Run(g, dst, table, F, s, n).Running?
    ensures Run(g, dst, table, F, s, n).Dropped? ==> forall t <- plan.rtrees :: Fails(g, dst, plan, F, t)
    decreases n
  {
    hide *;
    TableIsValid(g, dst, plan, table);
    if s.v == dst {
      RunArrived(g, dst, table, F, s, n);
    } else {
      StepKeeps(g, dst, plan, table, F, s);
      if Step(g, table, F, s).Some? {
        RunAfterStep(g, dst, table, F, s, n);
        RunEnds(g, dst, plan, table, F, Step(g, table, F, s).value, n - 1);
      } else {
        BudgetPositive(g, dst, plan, F, s);
        RunDrops(g, dst, table, F, s, n);
      }
    }
  }

  lemma BudgetPositive(g: Graph, dst: Vertex, plan: Plan, F: set<Edge>, s: State)
    requires GoodPlan(g, dst, plan) && Inv(g, dst, plan, F, s) && s.v != dst
    ensures Budget(g, plan, s) > 0
  {
    TreeAt(g, dst, plan, s.ctree);
    HopDescends(g, dst, plan.forest[s.ctree], s.v);
  }

  /** The hop bound: a whole path on each resilient tree, and one more when the packet starts on a default tree. */
  function HopBound(g: Graph, plan: Plan, itree: nat): nat {
    (|plan.rtrees| + if itree in plan.rtrees then 0 else 1) * LongestPath(g)
  }

  lemma StartBudget(g: Graph, dst: Vertex, plan: Plan, src: Vertex, itree: nat)
    requires GoodPlan(g, dst, plan) && src in g.V && itree in plan.dtrees + plan.rtrees
    ensures Budget(g, plan, Start(src, itree)) <= HopBound(g, plan, itree)
  {
    var k := |plan.rtrees| + if itree in plan.rtrees then 0 else 1;
    var others := plan.rtrees - {} - {itree};
    DepthBound(g, dst, plan.forest[itree], src);
    assert others == if itree in plan.rtrees then plan.rtrees - {itree} else plan.rtrees;
    assert |others| == k - 1;
    SpanIsProduct(k, LongestPath(g));
  }

  /**
   Resilience: on edge-disjoint or arc-disjoint trees alike, a packet is delivered whenever one resilient tree has
   no failed edge; and for any failures at all it stops within the hop bound.
   */
  lemma TreeResilience(g: Graph, dst: Vertex, plan: Plan, table: FwdTable, F: set<Edge>, src: Vertex, itree: nat)
    requires GoodPlan(g, dst, plan) && GoodTable(g, dst, plan, table)
    requires src in g.V && itree in plan.dtrees + plan.rtrees
    ensures var r := Run(g, dst, table, F, Start(src, itree), HopBound(g, plan, itree));
      && !r.Running? && LivePath(g, F, src, r.s.v, r.s.hops) && |r.s.hops| <= HopBound(g, plan, itree)
      && (r.Delivered? ==> r.s.v == dst)
      && ((exists t <- plan.rtrees :: !Fails(g, dst, plan, F, t)) ==> r.Delivered?)
  {
    StartBudget(g, dst, plan, src, itree);
    assert Inv(g, dst, plan, F, Start(src, itree));
    hide Budget, HopBound, GoodTable;
    RunEnds(g, dst, plan, table, F, Start(src, itree), HopBound(g, plan, itree));
    assert LivePath(g, F, src, src, []);
    RunIsLive(g, dst, table, F, src, Start(src, itree), HopBound(g, plan, itree));
  }

  // ---------- How many trees a set of failures can hit ----------

  /** No edge belongs to two resilient trees. */
  ghost predicate EdgeDisjoint(plan: Plan) {
    forall i, j, a, b | i in plan.rtrees && j in plan.rtrees && i != j && i < |plan.forest| && j < |plan.forest|
                     && a in plan.forest[i].arcs && b in plan.forest[j].arcs :: a.1 != b.1
  }

  /** No arc belongs to two resilient trees. */
  ghost predicate ArcDisjoint(plan: Plan) {
    forall i, j, a | i in plan.rtrees && j in plan.rtrees && i != j && i < |plan.forest| && j < |plan.forest|
                  && a in plan.forest[i].arcs :: a !in plan.forest[j].arcs
  }

  /** An arc by which the failed tree `t` leaves a switch over a failed edge. */
  ghost function FailedArc(g: Graph, dst: Vertex, plan: Plan, F: set<Edge>, t: nat): (a: Arc)
    requires GoodPlan(g, dst, plan) && t in plan.rtrees && Fails(g, dst, plan, F, t)
    ensures a in plan.forest[t].arcs && a.1 in F && a.0 in g.V && a.0 != dst
    ensures a.0 in {a.1.v1, a.1.v2}
    ensures HasHop(g, plan.forest[t], a.0) && HopEdge(g, plan.forest[t], a.0) == a.1
  {
    var v :| v in g.V && v != dst && HasHop(g, plan.forest[t], v) && HopEdge(g, plan.forest[t], v) in F;
    HopDescends(g, dst, plan.forest[t], v);
    (v, HopEdge(g, plan.forest[t], v))
  }

  lemma FailedArcsDiffer(g: Graph, dst: Vertex, plan: Plan, F: set<Edge>, i: nat, j: nat)
    requires GoodPlan(g, dst, plan) && i in plan.rtrees && j in plan.rtrees && i != j
    requires Fails(g, dst, plan, F, i) && Fails(g, dst, plan, F, j)
    ensures EdgeDisjoint(plan) ==> FailedArc(g, dst, plan, F, i).1 != FailedArc(g, dst, plan, F, j).1
    ensures ArcDisjoint(plan) ==> FailedArc(g, dst, plan, F, i) != FailedArc(g, dst, plan, F, j)
  {
    hide GoodForest, WellFormed, HasHop, FailedArc;
    assert i < |plan.forest| && j < |plan.forest|;
  }

  /** Edge-disjoint trees: every failed tree has its own failed edge. */
  lemma FewEdgesFailFewTrees(g: Graph, dst: Vertex, plan: Plan, F: set<Edge>)
    requires GoodPlan(g, dst, plan) && EdgeDisjoint(plan) && |F| < |plan.rtrees|
    ensures exists t <- plan.rtrees :: !Fails(g, dst, plan, F, t)
  {
    hide GoodPlan, EdgeDisjoint, Fails, HasHop, FailedArc;
    if forall t <- plan.rtrees :: Fails(g, dst, plan, F, t) {
      var f := map t | t in plan.rtrees :: FailedArc(g, dst, plan, F, t).1;
      forall i, j | i in plan.rtrees && j in plan.rtrees && i != j ensures f[i] != f[j] {
        FailedArcsDiffer(g, dst, plan, F, i, j);
      }
      InjectionSize(plan.rtrees, F, f);
    }
  }

  /** Arc-disjoint trees: an edge has two arcs, so a failed edge fails at most two trees. */
  lemma FewEdgesFailFewArcTrees(g: Graph, dst: Vertex, plan: Plan, F: set<Edge>)
    requires GoodPlan(g, dst, plan) && ArcDisjoint(plan) && 2 * |F| < |plan.rtrees|
    ensures exists t <- plan.rtrees :: !Fails(g, dst, plan, F, t)
  {
    hide GoodPlan, ArcDisjoint, Fails, HasHop, FailedArc;
    if forall t <- plan.rtrees :: Fails(g, dst, plan, F, t) {
      var f := map t | t in plan.rtrees :: FailedArc(g, dst, plan, F, t);
      forall i, j | i in plan.rtrees && j in plan.rtrees && i != j ensures f[i] != f[j] {
        FailedArcsDiffer(g, dst, plan, F, i, j);
      }
      ArcsOfSize(F);
      InjectionSize(plan.rtrees, ArcsOf(F), f);
    }
  }

  // ---------- Building the tables ----------

  /** The resilient trees, those with the shortest paths from `v` first. */
  ghost predicate NearOrder(plan: Plan, v: Vertex, order: seq<nat>) {
    && NoDup(order) && Elems(order) == plan.rtrees
    && forall i, j | 0 <= i < j < |order| :: DepthIn(plan.forest, order[i], v) <= DepthIn(plan.forest, order[j], v)
  }

  /** The resilient trees, those with the shortest paths from `v` first; ties come in any order. */
  method SortTrees(plan: Plan, v: Vertex) returns (order: seq<nat>)
    ensures NearOrder(plan, v, order)
  {
    order := [];
    var todo := plan.rtrees;
    while todo != {}
      invariant todo <= plan.rtrees && Elems(order) == plan.rtrees - todo && NoDup(order)
      invariant forall i, j | 0 <= i < j < |order| :: DepthIn(plan.forest, order[i], v) <= DepthIn(plan.forest, order[j], v)
      invariant forall i, t | 0 <= i < |order| && t in todo :: DepthIn(plan.forest, order[i], v) <= DepthIn(plan.forest, t, v)
    {
      ghost var n := Nearest(plan, todo, v);
      var t :| t in todo && forall o <- todo :: DepthIn(plan.forest, t, v) <= DepthIn(plan.forest, o, v);
      assert forall i | 0 <= i < |order| :: order[i] in Elems(order);
      assert Elems(order + [t]) == Elems(order) + {t};
      order := order + [t];
      todo := todo - {t};
    }
  }

  lemma {:induction false} Nearest(plan: Plan, todo: set<nat>, v: Vertex) returns (m: nat)
    requires todo != {}
    ensures m in todo && forall o <- todo :: DepthIn(plan.forest, m, v) <= DepthIn(plan.forest, o, v)
  {
    var x :| x in todo;
    if todo == {x} {
      m := x;
    } else {
      var y := Nearest(plan, todo - {x}, v);
      m := if DepthIn(plan.forest, x, v) <= DepthIn(plan.forest, y, v) then x else y;
      assert forall o <- todo :: o == x || o in todo - {x};
    }
  }

  function Without(order: seq<nat>, t: nat): seq<nat> {
    if order == [] then []
    else Without(order[..|order| - 1], t) + if order[|order| - 1] == t then [] else [order[|order| - 1]]
  }

  lemma {:induction false} WithoutElems(order: seq<nat>, t: nat)
    requires NoDup(order)
    ensures NoDup([t] + Without(order, t)) && Elems(Without(order, t)) == Elems(order) - {t}
    decreases |order|
  {
    if order != [] {
      var n := |order| - 1;
      var w := Without(order[..n], t);
      WithoutElems(order[..n], t);
      assert order == order[..n] + [order[n]];
      assert Elems(order) == Elems(order[..n]) + {order[n]};
      assert order[n] !in Elems(order[..n]);
      assert Without(order, t) == if order[n] == t then w else w + [order[n]];
      if order[n] != t {
        SnocElems([t] + w, order[n]);
        SnocElems(w, order[n]);
        assert [t] + (w + [order[n]]) == [t] + w + [order[n]];
        assert Elems([t] + w) == {t} + Elems(w);
      }
    }
  }

  lemma SnocElems(s: seq<nat>, x: nat)
    ensures Elems(s + [x]) == Elems(s) + {x}
    ensures NoDup(s) && x !in Elems(s) ==> NoDup(s + [x])
  {
    assert forall i | 0 <= i < |s| :: s[i] in Elems(s);
  }

  lemma NextIsNew(order: seq<nat>, i: nat)
    requires NoDup(order) && i < |order|
    ensures order[i] !in Elems(order[..i]) && Elems(order[..i + 1]) == Elems(order[..i]) + {order[i]} && NoDup(order[..i])
  {
    assert order[..i + 1] == order[..i] + [order[i]];
    SnocElems(order[..i], order[i]);
  }

  /** The next tree of the order goes behind the trees used so far, unless it is the packet's own. */
  lemma WithoutSnoc(order: seq<nat>, i: nat, t: nat)
    requires NoDup(order) && i < |order|
    ensures order[i] !in Elems(order[..i]) && Elems(order[..i + 1]) == Elems(order[..i]) + {order[i]}
    ensures Elems([t] + Without(order[..i], t)) == {t} + Elems(order[..i])
    ensures order[i] != t ==> [t] + Without(order[..i + 1], t) == [t] + Without(order[..i], t) + [order[i]]
    ensures order[i] == t ==> Without(order[..i + 1], t) == Without(order[..i], t)
  {
    hide NoDup;
    NextIsNew(order, i);
    assert order[..i + 1][..i] == order[..i];
    WithoutElems(order[..i], t);
    assert Elems([t] + Without(order[..i], t)) == {t} + Elems(Without(order[..i], t));
  }

  /** Appends the entry for tree `t`, which marks the trees before it. */
  lemma ListsSnoc(g: Graph, forest: seq<Tree>, v: Vertex, prefs: seq<nat>, entries: seq<Entry>, t: nat, x: Entry)
    requires Lists(g, forest, v, prefs, entries) && t < |forest| && HasHop(g, forest[t], v)
    requires x == Entry(t, HopEdge(g, forest[t], v), HopPort(forest[t], v), Elems(prefs))
    ensures Lists(g, forest, v, prefs + [t], entries + [x])
  {
    forall i | 0 <= i <= |prefs| ensures (prefs + [t])[..i] == prefs[..i] {
    }
    assert prefs[..|prefs|] == prefs;
  }

  /** The entries of `v` for packets on `iT`, edge-disjoint trees: `iT` itself, then the other resilient trees in order. */
  method EdstEntries(g: Graph, dst: Vertex, plan: Plan, v: Vertex, iT: nat, order: seq<nat>) returns (entries: seq<Entry>)
    requires GoodPlan(g, dst, plan) && v in g.V && v != dst && iT in plan.dtrees + plan.rtrees
    requires NoDup(order) && Elems(order) == plan.rtrees
    ensures Lists(g, plan.forest, v, [iT] + Without(order, iT), entries)
  {
    hide GoodForest, Lists, Without, Elems, NoDup, HasHop;
    FirstListed(g, dst, plan, v, iT);
    entries := [Entry(iT, HopEdge(g, plan.forest[iT], v), HopPort(plan.forest[iT], v), {})];
    var used := {iT};
    NoneWithout(order, iT);
    for i := 0 to |order|
      invariant Lists(g, plan.forest, v, [iT] + Without(order[..i], iT), entries)
      invariant used == {iT} + Elems(order[..i])
    {
      var aiT := order[i];
      WithoutSnoc(order, i, iT);
      if aiT !in used {
        InElems(order, i);
        TreeAt(g, dst, plan, aiT);
        HopDescends(g, dst, plan.forest[aiT], v);
        var x := Entry(aiT, HopEdge(g, plan.forest[aiT], v), HopPort(plan.forest[aiT], v), used);
        ListsSnoc(g, plan.forest, v, [iT] + Without(order[..i], iT), entries, aiT, x);
        entries := entries + [x];
      }
      used := used + {aiT};
    }
    assert order[..|order|] == order;
  }

  lemma FirstListed(g: Graph, dst: Vertex, plan: Plan, v: Vertex, iT: nat)
    requires GoodPlan(g, dst, plan) && v in g.V && v != dst && iT in plan.dtrees + plan.rtrees
    ensures iT < |plan.forest| && HasHop(g, plan.forest[iT], v)
    ensures Lists(g, plan.forest, v, [iT], [Entry(iT, HopEdge(g, plan.forest[iT], v), HopPort(plan.forest[iT], v), {})])
  {
    HopDescends(g, dst, plan.forest[iT], v);
  }

  lemma NoneWithout(order: seq<nat>, t: nat)
    ensures [t] + Without(order[..0], t) == [t] && Elems(order[..0]) == {}
  {
  }

  lemma InElems(order: seq<nat>, i: nat)
    requires i < |order|
    ensures order[i] in Elems(order)
  {
  }

  lemma WithoutIsGood(order: seq<nat>, t: nat, rtrees: set<nat>)
    requires NoDup(order) && Elems(order) == rtrees
    ensures GoodPrefs([t] + Without(order, t), t, rtrees)
  {
    WithoutElems(order, t);
    var prefs := [t] + Without(order, t);
    assert prefs[1..] == Without(order, t);
    assert Elems(prefs) == {t} + Elems(Without(order, t));
  }

  /** `table` serves the switches of `vs`. */
  ghost predicate Serves(g: Graph, dst: Vertex, plan: Plan, table: FwdTable, vs: set<Vertex>) {
    && TableValid(g, table)
    && forall v, t | v in vs && v != dst && t in plan.dtrees + plan.rtrees ::
         (v, t) in table && GoodEntries(g, plan.forest, v, t, plan.rtrees, table[(v, t)])
  }

  lemma ListsValid(g: Graph, forest: seq<Tree>, v: Vertex, prefs: seq<nat>, entries: seq<Entry>)
    requires Lists(g, forest, v, prefs, entries)
    ensures forall x <- entries :: (v, x.port) in g.ports && g.ports[(v, x.port)] == x.e
  {
    forall x <- entries ensures (v, x.port) in g.ports && g.ports[(v, x.port)] == x.e {
      var i :| 0 <= i < |entries| && entries[i] == x;
      EntryAt(g, forest, v, prefs, entries, i);
    }
  }

  /** Behind the packet's own tree, nearer trees come first. */
  ghost predicate NearestFirst(plan: Plan, v: Vertex, entries: seq<Entry>) {
    forall i, j | 1 <= i < j < |entries| :: DepthIn(plan.forest, entries[i].tree, v) <= DepthIn(plan.forest, entries[j].tree, v)
  }

  /** The entries of `v` for packets on `t`: that tree, then the others in the order of the switch. */
  ghost predicate InOrder(g: Graph, plan: Plan, v: Vertex, t: nat, order: seq<nat>, entries: seq<Entry>) {
    Lists(g, plan.forest, v, [t] + Without(order, t), entries) && NearestFirst(plan, v, entries)
  }

  /** All lists of the switch follow one order, nearest trees first. */
  ghost predicate ServedInOrder(g: Graph, plan: Plan, v: Vertex, table: FwdTable) {
    exists order :: NearOrder(plan, v, order) && AllInOrder(g, plan, v, order, table)
  }

  ghost predicate AllInOrder(g: Graph, plan: Plan, v: Vertex, order: seq<nat>, table: FwdTable) {
    forall t <- plan.dtrees + plan.rtrees :: (v, t) in table && InOrder(g, plan, v, t, order, table[(v, t)])
  }

  lemma {:induction false} WithoutSorted(plan: Plan, v: Vertex, order: seq<nat>, t: nat)
    requires forall i, j | 0 <= i < j < |order| :: DepthIn(plan.forest, order[i], v) <= DepthIn(plan.forest, order[j], v)
    ensures forall x <- Without(order, t) :: x in order
    ensures forall i, j | 0 <= i < j < |Without(order, t)| ::
      DepthIn(plan.forest, Without(order, t)[i], v) <= DepthIn(plan.forest, Without(order, t)[j], v)
    decreases |order|
  {
    hide DepthIn;
    if order != [] {
      var n := |order| - 1;
      var w := Without(order[..n], t);
      WithoutSorted(plan, v, order[..n], t);
      assert Without(order, t) == if order[n] == t then w else w + [order[n]];
      hide Without;
      forall x <- w ensures x in order && DepthIn(plan.forest, x, v) <= DepthIn(plan.forest, order[n], v) {
        assert x in order[..n];
        var i :| 0 <= i < n && order[..n][i] == x;
        assert order[i] == x;
      }
    } else {
      assert Without(order, t) == [];
    }
  }

  lemma ListedNearest(g: Graph, plan: Plan, v: Vertex, t: nat, order: seq<nat>, entries: seq<Entry>)
    requires NearOrder(plan, v, order) && Lists(g, plan.forest, v, [t] + Without(order, t), entries)
    ensures InOrder(g, plan, v, t, order, entries)
  {
    hide DepthIn, Lists, Without, HasHop;
    WithoutSorted(plan, v, order, t);
    TreesOfEntries(g, plan.forest, v, [t] + Without(order, t), entries);
  }

  lemma TreesOfEntries(g: Graph, forest: seq<Tree>, v: Vertex, prefs: seq<nat>, entries: seq<Entry>)
    requires Lists(g, forest, v, prefs, entries)
    ensures |entries| == |prefs| && forall i | 0 <= i < |entries| :: entries[i].tree == prefs[i]
  {
  }

  /** The entries of one switch, for packets on each tree: it sorts the trees once, and all its lists follow that order. */
  method EdstSwitch(g: Graph, dst: Vertex, plan: Plan, v: Vertex, table: FwdTable) returns (out: FwdTable)
    requires GoodPlan(g, dst, plan) && v in g.V && v != dst && TableValid(g, table)
    ensures TableValid(g, out) && (forall k <- table | k.0 != v :: k in out && out[k] == table[k])
    ensures forall t <- plan.dtrees + plan.rtrees :: (v, t) in out && GoodEntries(g, plan.forest, v, t, plan.rtrees, out[(v, t)])
    ensures ServedInOrder(g, plan, v, out)
  {
    var order := SortTrees(plan, v);
    out := table;
    var todo := plan.dtrees + plan.rtrees;
    while todo != {}
      invariant todo <= plan.dtrees + plan.rtrees
      invariant TableValid(g, out) && (forall k <- table | k.0 != v :: k in out && out[k] == table[k])
      invariant forall t <- plan.dtrees + plan.rtrees - todo ::
        (v, t) in out && GoodEntries(g, plan.forest, v, t, plan.rtrees, out[(v, t)]) && InOrder(g, plan, v, t, order, out[(v, t)])
    {
      var iT :| iT in todo;
      todo := todo - {iT};
      var entries := EdstEntries(g, dst, plan, v, iT, order);
      EdstListed(g, plan, v, iT, order, entries);
      hide GoodEntries, InOrder, GoodForest;
      out := out[(v, iT) := entries];
    }
    assert AllInOrder(g, plan, v, order, out);
  }

  lemma EdstListed(g: Graph, plan: Plan, v: Vertex, t: nat, order: seq<nat>, entries: seq<Entry>)
    requires NearOrder(plan, v, order) && Lists(g, plan.forest, v, [t] + Without(order, t), entries)
    ensures GoodEntries(g, plan.forest, v, t, plan.rtrees, entries) && InOrder(g, plan, v, t, order, entries)
    ensures forall x <- entries :: (v, x.port) in g.ports && g.ports[(v, x.port)] == x.e
  {
    hide Lists, GoodPrefs, Without;
    WithoutIsGood(order, t, plan.rtrees);
    ListedNearest(g, plan, v, t, order, entries);
    ListsValid(g, plan.forest, v, [t] + Without(order, t), entries);
  }

  lemma InOrderKept(g: Graph, plan: Plan, u: Vertex, v: Vertex, table: FwdTable, out: FwdTable)
    requires ServedInOrder(g, plan, u, table) && u != v && forall k <- table | k.0 != v :: k in out && out[k] == table[k]
    ensures ServedInOrder(g, plan, u, out)
  {
    hide InOrder, NearOrder;
    var order :| NearOrder(plan, u, order) && AllInOrder(g, plan, u, order, table);
    assert AllInOrder(g, plan, u, order, out);
  }

  /** The tables of edge-disjoint tree routing: good, and at each switch in one order, nearest trees first. */
  method EdstFwdtable(g: Graph, dst: Vertex, plan: Plan) returns (table: FwdTable)
    requires GoodPlan(g, dst, plan)
    ensures GoodTable(g, dst, plan, table) && forall v <- g.V | v != dst :: ServedInOrder(g, plan, v, table)
  {
    table := map[];
    var todo := g.V;
    while todo != {}
      invariant todo <= g.V && Serves(g, dst, plan, table, g.V - todo)
      invariant forall v <- g.V - todo | v != dst :: ServedInOrder(g, plan, v, table)
    {
      var v :| v in todo;
      todo := todo - {v};
      if v != dst {
        hide GoodEntries, GoodForest, ServedInOrder;
        ghost var before := table;
        table := EdstSwitch(g, dst, plan, v, table);
        forall u <- g.V - todo | u != dst && u != v ensures ServedInOrder(g, plan, u, table) {
          InOrderKept(g, plan, u, v, before, table);
        }
      }
    }
  }
}
