/** The tables of arc-disjoint tree routing: the tree that uses the opposite arc comes right after the tree it reverses. */
module AdstTables {
  import opened Wrappers
  import opened FiniteSets
  import opened Topology
  import opened TreePaths
  import opened TreeWalk
  import opened TreeTables

  type ArcMap = map<Arc, nat>

  /** Which resilient tree uses an arc. */
  ghost predicate ArcMapOf(plan: Plan, arc2tree: ArcMap)
  {
    && (forall a <- arc2tree :: arc2tree[a] in plan.rtrees && arc2tree[a] < |plan.forest| && a in plan.forest[arc2tree[a]].arcs)
    && (forall t, a | t in plan.rtrees && t < |plan.forest| && a in plan.forest[t].arcs :: a in arc2tree && arc2tree[a] == t)
  }

  ghost predicate PartialArcMap(plan: Plan, arc2tree: ArcMap, done: set<nat>, now: nat, arcs: set<Arc>)
  {
    && (forall a <- arc2tree :: arc2tree[a] < |plan.forest| && a in plan.forest[arc2tree[a]].arcs
          && (arc2tree[a] in done || (arc2tree[a] == now && a in arcs)))
    && (forall t, a | t in done && t < |plan.forest| && a in plan.forest[t].arcs :: a in arc2tree && arc2tree[a] == t)
    && (forall a <- arcs :: a in arc2tree && arc2tree[a] == now)
  }

  lemma NewArc(plan: Plan, arc2tree: ArcMap, done: set<nat>, now: nat, arcs: set<Arc>, a: Arc)
    requires PartialArcMap(plan, arc2tree, done, now, arcs) && ArcDisjoint(plan) && done <= plan.rtrees
    requires now in plan.rtrees - done && now < |plan.forest| && a in plan.forest[now].arcs - arcs
    ensures a !in arc2tree && PartialArcMap(plan, arc2tree[a := now], done, now, arcs + {a})
  {
  }

  lemma TreeMapped(plan: Plan, arc2tree: ArcMap, done: set<nat>, now: nat)
    requires now < |plan.forest| && PartialArcMap(plan, arc2tree, done, now, plan.forest[now].arcs)
    ensures PartialArcMap(plan, arc2tree, done + {now}, 0, {})
  {
  }

  lemma NextTree(plan: Plan, arc2tree: ArcMap, done: set<nat>, now: nat)
    requires PartialArcMap(plan, arc2tree, done, 0, {})
    ensures PartialArcMap(plan, arc2tree, done, now, {})
  {
  }

  /** Maps every arc to its tree; that no arc is met twice is the source's assertion. */
  method MapArcs(g: Graph, dst: Vertex, plan: Plan) returns (arc2tree: ArcMap)
    requires GoodPlan(g, dst, plan) && ArcDisjoint(plan)
    ensures ArcMapOf(plan, arc2tree)
  {
    hide ArcDisjoint, PartialArcMap, GoodPlan;
    arc2tree := map[];
    EmptyArcMap(plan);
    var todo := plan.rtrees;
    while todo != {}
      invariant todo <= plan.rtrees && PartialArcMap(plan, arc2tree, plan.rtrees - todo, 0, {})
    {
      var t: nat :| t in todo;
      TreeAt(g, dst, plan, t);
      ghost var done := plan.rtrees - todo;
      arc2tree := MapTree(plan, arc2tree, done, t);
      todo := todo - {t};
      assert plan.rtrees - todo == done + {t};
    }
    WholeArcMap(plan, arc2tree);
  }

  lemma EmptyArcMap(plan: Plan)
    ensures PartialArcMap(plan, map[], {}, 0, {}) && plan.rtrees - plan.rtrees == {}
  {
  }

  lemma WholeArcMap(plan: Plan, arc2tree: ArcMap)
    requires PartialArcMap(plan, arc2tree, plan.rtrees - {}, 0, {})
    ensures ArcMapOf(plan, arc2tree)
  {
  }

  /** Maps the arcs of tree `t`. */
  method MapTree(plan: Plan, arc2tree: ArcMap, ghost done: set<nat>, t: nat) returns (out: ArcMap)
    requires PartialArcMap(plan, arc2tree, done, 0, {}) && ArcDisjoint(plan) && done <= plan.rtrees
    requires t in plan.rtrees - done && t < |plan.forest|
    ensures PartialArcMap(plan, out, done + {t}, 0, {})
  {
    hide ArcDisjoint, PartialArcMap;
    out := arc2tree;
    NextTree(plan, arc2tree, done, t);
    var arcs := plan.forest[t].arcs;
    ghost var mapped := {};
    while arcs != {}
      invariant mapped == plan.forest[t].arcs - arcs && arcs <= plan.forest[t].arcs
      invariant PartialArcMap(plan, out, done, t, mapped)
    {
      var a :| a in arcs;
      NewArc(plan, out, done, t, mapped, a);
      assert a !in out;
      out := out[a := t];
      arcs := arcs - {a};
      mapped := mapped + {a};
    }
    assert mapped == plan.forest[t].arcs;
    TreeMapped(plan, out, done, t);
  }

  /** The arc opposite to the one by which tree `t` leaves `v`. */
  function ReverseArc(g: Graph, t: Tree, v: Vertex): Arc
    requires WellFormed(g) && v in t.paths && t.paths[v] != [] && (v, HopPort(t, v)) in g.ports
  {
    (Far(g, v, HopPort(t, v)).0, HopEdge(g, t, v))
  }

  /** If some other resilient tree uses the opposite arc of the first preference, it is the second one. */
  ghost predicate ReverseFirst(g: Graph, plan: Plan, v: Vertex, prefs: seq<nat>)
    requires WellFormed(g)
  {
    prefs != [] && prefs[0] < |plan.forest| && HasHop(g, plan.forest[prefs[0]], v) &&
    forall r | r in plan.rtrees && r != prefs[0] && r < |plan.forest|
            && ReverseArc(g, plan.forest[prefs[0]], v) in plan.forest[r].arcs ::
      |prefs| >= 2 && prefs[1] == r
  }

  /** `r` is a resilient tree that uses the opposite arc of `t`. */
  ghost predicate IsReverse(g: Graph, plan: Plan, v: Vertex, t: nat, r: nat)
    requires WellFormed(g)
  {
    && t < |plan.forest| && HasHop(g, plan.forest[t], v) && r in plan.rtrees && r < |plan.forest|
    && ReverseArc(g, plan.forest[t], v) in plan.forest[r].arcs
  }

  /** The preference came by itself, not as the reverse tree of the one before. */
  ghost predicate Head(g: Graph, plan: Plan, v: Vertex, prefs: seq<nat>, i: nat)
    requires WellFormed(g) && i < |prefs|
  {
    i == 0 || !(Head(g, plan, v, prefs, i - 1) && IsReverse(g, plan, v, prefs[i - 1], prefs[i]))
  }

  /** Its reverse tree, if there is one, comes right behind it or is listed already. */
  ghost predicate WithReverse(g: Graph, plan: Plan, v: Vertex, prefs: seq<nat>, i: nat)
    requires WellFormed(g) && i < |prefs|
  {
    forall r | IsReverse(g, plan, v, prefs[i], r) :: r in prefs[..i + 1] || (i + 1 < |prefs| && prefs[i + 1] == r)
  }

  /** All trees before it in the order are listed already. */
  ghost predicate ItsTurn(order: seq<nat>, prefs: seq<nat>, i: nat)
    requires i < |prefs|
  {
    forall k | 0 <= k < |order| && order[k] == prefs[i] :: Elems(order[..k]) <= Elems(prefs[..i])
  }

  /** Tree after tree in the given order, each with its reverse tree. */
  ghost predicate Arranged(g: Graph, plan: Plan, v: Vertex, order: seq<nat>, prefs: seq<nat>)
    requires WellFormed(g)
  {
    && (forall i: nat | i < |prefs| && Head(g, plan, v, prefs, i) :: WithReverse(g, plan, v, prefs, i))
    && (forall i: nat | 1 <= i < |prefs| && Head(g, plan, v, prefs, i) :: ItsTurn(order, prefs, i))
  }

  /** But for reverse trees, nearer trees come first. */
  lemma HeadsNearest(g: Graph, plan: Plan, v: Vertex, order: seq<nat>, prefs: seq<nat>, i: nat, j: nat)
    requires WellFormed(g) && NearOrder(plan, v, order) && Arranged(g, plan, v, order, prefs) && NoDup(prefs)
    requires 1 <= i < j < |prefs| && Elems(prefs[1..]) <= plan.rtrees && Head(g, plan, v, prefs, i) && Head(g, plan, v, prefs, j)
    ensures DepthIn(plan.forest, prefs[i], v) <= DepthIn(plan.forest, prefs[j], v)
  {
    hide DepthIn, Head, WithReverse;
    assert ItsTurn(order, prefs, i) && ItsTurn(order, prefs, j);
    assert prefs[i] == prefs[1..][i - 1] && prefs[j] == prefs[1..][j - 1];
    assert prefs[i] in Elems(order) && prefs[j] in Elems(order);
    var a :| 0 <= a < |order| && order[a] == prefs[i];
    var b :| 0 <= b < |order| && order[b] == prefs[j];
    assert prefs[j] !in prefs[..i];
    assert order[b] !in Elems(order[..a]);
    forall k | 0 <= k < a ensures order[k] in Elems(order[..a]) {
      assert order[..a][k] == order[k];
    }
  }

  lemma {:induction false} HeadKept(g: Graph, plan: Plan, v: Vertex, prefs: seq<nat>, prefs': seq<nat>, i: nat)
    requires WellFormed(g) && prefs <= prefs' && i < |prefs|
    ensures Head(g, plan, v, prefs', i) <==> Head(g, plan, v, prefs, i)
  {
    hide IsReverse;
    if i > 0 {
      HeadKept(g, plan, v, prefs, prefs', i - 1);
    } else {
    }
  }

  ghost predicate GoodAdstEntries(g: Graph, plan: Plan, v: Vertex, t: nat, order: seq<nat>, entries: seq<Entry>)
    requires WellFormed(g)
  {
    exists prefs :: Lists(g, plan.forest, v, prefs, entries) && GoodPrefs(prefs, t, plan.rtrees) && ReverseFirst(g, plan, v, prefs)
                 && Arranged(g, plan, v, order, prefs)
  }

  /** The list so far: no tree twice, the packet's tree first, resilient trees after it. */
  ghost predicate Building(g: Graph, plan: Plan, v: Vertex, iT: nat, prefs: seq<nat>, entries: seq<Entry>, used: set<nat>)
  {
    && Lists(g, plan.forest, v, prefs, entries) && NoDup(prefs) && used == Elems(prefs)
    && prefs != [] && prefs[0] == iT && Elems(prefs[1..]) <= plan.rtrees
  }

  lemma BuildingSnoc(g: Graph, plan: Plan, v: Vertex, iT: nat, prefs: seq<nat>, entries: seq<Entry>, used: set<nat>, t: nat, x: Entry)
    requires Building(g, plan, v, iT, prefs, entries, used) && t !in used && t in plan.rtrees
    requires t < |plan.forest| && HasHop(g, plan.forest[t], v)
    requires x == Entry(t, HopEdge(g, plan.forest[t], v), HopPort(plan.forest[t], v), used)
    ensures Building(g, plan, v, iT, prefs + [t], entries + [x], used + {t})
  {
    ListsSnoc(g, plan.forest, v, prefs, entries, t, x);
    SnocElems(prefs, t);
    assert (prefs + [t])[1..] == prefs[1..] + [t];
    SnocElems(prefs[1..], t);
  }

  /** The reverse tree of `t` was put behind the list, unless there is none or it is there already. */
  ghost predicate ReverseAdded(g: Graph, plan: Plan, v: Vertex, prefs: seq<nat>, t: nat, prefs': seq<nat>)
    requires WellFormed(g)
  {
    || (prefs' == prefs && forall r | IsReverse(g, plan, v, t, r) :: r in prefs)
    || (|prefs'| == |prefs| + 1 && prefs <= prefs' && IsReverse(g, plan, v, t, prefs'[|prefs|])
        && forall r | IsReverse(g, plan, v, t, r) :: r in prefs')
  }

  /** Appends the tree that uses the opposite arc of `t`, unless there is none or it is there already. */
  method AddReverse(g: Graph, dst: Vertex, plan: Plan, arc2tree: ArcMap, v: Vertex, t: nat,
                    entries: seq<Entry>, used: set<nat>, ghost prefs: seq<nat>, ghost iT: nat)
    returns (entries': seq<Entry>, used': set<nat>, ghost prefs': seq<nat>)
    requires GoodPlan(g, dst, plan) && ArcMapOf(plan, arc2tree) && v in g.V && v != dst
    requires t < |plan.forest| && HasHop(g, plan.forest[t], v) && Building(g, plan, v, iT, prefs, entries, used)
    ensures Building(g, plan, v, iT, prefs', entries', used') && prefs <= prefs' && used <= used'
    ensures forall r | r in plan.rtrees && r !in used && r < |plan.forest|
                    && ReverseArc(g, plan.forest[t], v) in plan.forest[r].arcs :: prefs' == prefs + [r]
    ensures ReverseAdded(g, plan, v, prefs, t, prefs')
  {
    entries', used', prefs' := entries, used, prefs;
    var arc := ReverseArc(g, plan.forest[t], v);
    if arc in arc2tree && arc2tree[arc] !in used {
      var aiT := arc2tree[arc];
      HopDescends(g, dst, plan.forest[aiT], v);
      hide GoodForest, Building;
      var x := Entry(aiT, HopEdge(g, plan.forest[aiT], v), HopPort(plan.forest[aiT], v), used);
      BuildingSnoc(g, plan, v, iT, prefs, entries, used, aiT, x);
      entries', used', prefs' := entries + [x], used + {aiT}, prefs + [aiT];
    }
  }

  /** A tree of its own and its reverse tree keep the list arranged. */
  lemma ArrangedMore(g: Graph, plan: Plan, v: Vertex, order: seq<nat>, n: nat, prefs: seq<nat>, prefs': seq<nat>)
    requires WellFormed(g) && Arranged(g, plan, v, order, prefs) && n < |order| && NoDup(order) && prefs != []
    requires Elems(order[..n]) <= Elems(prefs) && order[n] !in prefs
    requires ReverseAdded(g, plan, v, prefs + [order[n]], order[n], prefs')
    ensures Arranged(g, plan, v, order, prefs')
  {
    hide IsReverse, Head;
    var m := |prefs|;
    FreshHead(g, plan, v, order, prefs, prefs');
    forall i: nat | i < |prefs'| && Head(g, plan, v, prefs', i)
      ensures WithReverse(g, plan, v, prefs', i) && (i >= 1 ==> ItsTurn(order, prefs', i))
    {
      if i < m {
        HeadKept(g, plan, v, prefs, prefs', i);
        assert prefs'[..i + 1] == prefs[..i + 1] && prefs'[..i] == prefs[..i];
        assert WithReverse(g, plan, v, prefs, i);
      } else if i == m {
        assert prefs'[..m + 1] == prefs + [order[n]] && prefs'[..m] == prefs;
        assert forall k | 0 <= k < |order| && order[k] == order[n] :: k == n;
      } else {
        NotHead(g, plan, v, prefs', m);
      }
    }
  }

  /** A new tree is no reverse of the last one, which would have it already. */
  lemma FreshHead(g: Graph, plan: Plan, v: Vertex, order: seq<nat>, prefs: seq<nat>, prefs': seq<nat>)
    requires WellFormed(g) && Arranged(g, plan, v, order, prefs) && prefs != [] && prefs < prefs' && prefs'[|prefs|] !in prefs
    ensures Head(g, plan, v, prefs', |prefs|)
  {
    hide IsReverse;
    var m := |prefs|;
    HeadKept(g, plan, v, prefs, prefs', m - 1);
    if Head(g, plan, v, prefs, m - 1) {
      assert WithReverse(g, plan, v, prefs, m - 1) && prefs[..m] == prefs;
    }
  }

  lemma NotHead(g: Graph, plan: Plan, v: Vertex, prefs: seq<nat>, i: nat)
    requires WellFormed(g) && i + 1 < |prefs| && Head(g, plan, v, prefs, i) && IsReverse(g, plan, v, prefs[i], prefs[i + 1])
    ensures !Head(g, plan, v, prefs, i + 1)
  {
  }

  lemma StartArranged(g: Graph, plan: Plan, v: Vertex, order: seq<nat>, t: nat, prefs: seq<nat>)
    requires WellFormed(g) && ReverseAdded(g, plan, v, [t], t, prefs)
    ensures Arranged(g, plan, v, order, prefs)
  {
    hide IsReverse;
    assert prefs[..1] == [t];
    OnlyFirstHead(g, plan, v, t, prefs);
  }

  lemma OnlyFirstHead(g: Graph, plan: Plan, v: Vertex, t: nat, prefs: seq<nat>)
    requires WellFormed(g) && ReverseAdded(g, plan, v, [t], t, prefs)
    ensures prefs != [] && prefs[0] == t && Head(g, plan, v, prefs, 0) && forall i: nat | 1 <= i < |prefs| :: !Head(g, plan, v, prefs, i)
  {
    hide IsReverse;
    if |prefs| > 1 {
      NotHead(g, plan, v, prefs, 0);
    }
  }

  /** Appends `aiT` and its reverse tree, unless they are there already. */
  method AddTree(g: Graph, dst: Vertex, plan: Plan, arc2tree: ArcMap, v: Vertex, aiT: nat,
                 entries: seq<Entry>, used: set<nat>, ghost prefs: seq<nat>, ghost iT: nat, ghost order: seq<nat>, ghost n: nat)
    returns (entries': seq<Entry>, used': set<nat>, ghost prefs': seq<nat>)
    requires GoodPlan(g, dst, plan) && ArcMapOf(plan, arc2tree) && v in g.V && v != dst && aiT in plan.rtrees
    requires Building(g, plan, v, iT, prefs, entries, used) && ReverseFirst(g, plan, v, prefs) && Arranged(g, plan, v, order, prefs)
    requires NoDup(order) && n < |order| && order[n] == aiT && Elems(order[..n]) <= used
    ensures Building(g, plan, v, iT, prefs', entries', used') && ReverseFirst(g, plan, v, prefs') && Arranged(g, plan, v, order, prefs')
    ensures used + {aiT} <= used'
  {
    entries', used', prefs' := entries, used, prefs;
    if aiT !in used {
      assert aiT in plan.dtrees + plan.rtrees;
      HopDescends(g, dst, plan.forest[aiT], v);
      BuildingFacts(g, plan, v, iT, prefs, entries, used);
      hide GoodForest, Building, ArcMapOf, Lists, Arranged, ReverseAdded, ReverseFirst, IsReverse;
      var x := Entry(aiT, HopEdge(g, plan.forest[aiT], v), HopPort(plan.forest[aiT], v), used);
      BuildingSnoc(g, plan, v, iT, prefs, entries, used, aiT, x);
      entries', used', prefs' := entries + [x], used + {aiT}, prefs + [aiT];
      entries', used', prefs' := AddReverse(g, dst, plan, arc2tree, v, aiT, entries', used', prefs', iT);
      ReverseFirstKept(g, plan, v, prefs, prefs');
      ArrangedMore(g, plan, v, order, n, prefs, prefs');
    }
  }

  lemma BuildingFacts(g: Graph, plan: Plan, v: Vertex, iT: nat, prefs: seq<nat>, entries: seq<Entry>, used: set<nat>)
    requires Building(g, plan, v, iT, prefs, entries, used)
    ensures used == Elems(prefs) && prefs != []
  {
  }

  lemma OneBuilt(g: Graph, plan: Plan, v: Vertex, t: nat)
    requires t < |plan.forest| && HasHop(g, plan.forest[t], v)
    ensures Building(g, plan, v, t, [t], [Entry(t, HopEdge(g, plan.forest[t], v), HopPort(plan.forest[t], v), {})], {t})
  {
    assert [t][1..] == [] && [t][..0] == [];
  }

  /** The first entries of `v` for packets on `iT`: the tree itself, and its reverse tree. */
  method AdstStart(g: Graph, dst: Vertex, plan: Plan, arc2tree: ArcMap, v: Vertex, iT: nat, ghost order: seq<nat>)
    returns (entries: seq<Entry>, used: set<nat>, ghost prefs: seq<nat>)
    requires GoodPlan(g, dst, plan) && ArcMapOf(plan, arc2tree) && v in g.V && v != dst && iT in plan.dtrees + plan.rtrees
    ensures Building(g, plan, v, iT, prefs, entries, used) && ReverseFirst(g, plan, v, prefs) && Arranged(g, plan, v, order, prefs)
  {
    hide Arranged, Head, WithReverse, ReverseAdded, ArcMapOf, GoodForest, Lists, HasHop, IsReverse, ReverseArc;
    FirstListed(g, dst, plan, v, iT);
    OneBuilt(g, plan, v, iT);
    entries := [Entry(iT, HopEdge(g, plan.forest[iT], v), HopPort(plan.forest[iT], v), {})];
    used := {iT};
    prefs := [iT];
    entries, used, prefs := AddReverse(g, dst, plan, arc2tree, v, iT, entries, used, prefs, iT);
    StartArranged(g, plan, v, order, iT, prefs);
  }

  /** The entries of `v` for packets on `iT`, each tree followed by its reverse tree. */
  method AdstEntries(g: Graph, dst: Vertex, plan: Plan, arc2tree: ArcMap, v: Vertex, iT: nat, order: seq<nat>)
    returns (entries: seq<Entry>)
    requires GoodPlan(g, dst, plan) && ArcMapOf(plan, arc2tree) && v in g.V && v != dst && iT in plan.dtrees + plan.rtrees
    requires NearOrder(plan, v, order)
    ensures GoodAdstEntries(g, plan, v, iT, order, entries) && GoodEntries(g, plan.forest, v, iT, plan.rtrees, entries)
    ensures forall x <- entries :: (v, x.port) in g.ports && g.ports[(v, x.port)] == x.e
  {
    hide GoodForest, Building, ArcMapOf, Lists, ReverseFirst, GoodEntries, GoodAdstEntries, Arranged, NoDup, DepthIn;
    var used;
    ghost var prefs;
    entries, used, prefs := AdstStart(g, dst, plan, arc2tree, v, iT, order);
    for i := 0 to |order|
      invariant Building(g, plan, v, iT, prefs, entries, used) && ReverseFirst(g, plan, v, prefs) && Arranged(g, plan, v, order, prefs)
      invariant Elems(order[..i]) <= used
    {
      assert order[i] in Elems(order) && order[..i + 1] == order[..i] + [order[i]];
      SnocElems(order[..i], order[i]);
      entries, used, prefs := AddTree(g, dst, plan, arc2tree, v, order[i], entries, used, prefs, iT, order, i);
    }
    assert order[..|order|] == order;
    BuiltEntries(g, plan, v, iT, order, prefs, entries, used);
  }

  lemma BuiltEntries(g: Graph, plan: Plan, v: Vertex, iT: nat, order: seq<nat>, prefs: seq<nat>, entries: seq<Entry>, used: set<nat>)
    requires WellFormed(g) && Building(g, plan, v, iT, prefs, entries, used) && ReverseFirst(g, plan, v, prefs) && Arranged(g, plan, v, order, prefs)
    requires plan.rtrees <= used
    ensures GoodAdstEntries(g, plan, v, iT, order, entries) && GoodEntries(g, plan.forest, v, iT, plan.rtrees, entries)
    ensures forall x <- entries :: (v, x.port) in g.ports && g.ports[(v, x.port)] == x.e
  {
    ListsValid(g, plan.forest, v, prefs, entries);
    assert GoodPrefs(prefs, iT, plan.rtrees);
  }

  lemma ReverseFirstKept(g: Graph, plan: Plan, v: Vertex, prefs: seq<nat>, prefs': seq<nat>)
    requires WellFormed(g) && ReverseFirst(g, plan, v, prefs) && prefs <= prefs'
    ensures ReverseFirst(g, plan, v, prefs')
  {
  }

  /** All lists of the switch follow one order, nearest trees first, each tree with its reverse tree. */
  ghost predicate AdstInOrder(g: Graph, plan: Plan, v: Vertex, table: FwdTable)
    requires WellFormed(g)
  {
    exists order :: NearOrder(plan, v, order) && AdstLists(g, plan, v, order, table)
  }

  ghost predicate AdstLists(g: Graph, plan: Plan, v: Vertex, order: seq<nat>, table: FwdTable)
    requires WellFormed(g)
  {
    forall t <- plan.dtrees + plan.rtrees :: (v, t) in table && GoodAdstEntries(g, plan, v, t, order, table[(v, t)])
  }

  /** A good table in which reverse trees come first. */
  ghost predicate GoodAdstTable(g: Graph, dst: Vertex, plan: Plan, table: FwdTable)
    requires WellFormed(g)
  {
    GoodTable(g, dst, plan, table) && forall v <- g.V | v != dst :: AdstInOrder(g, plan, v, table)
  }

  lemma PartsOfAdst(g: Graph, dst: Vertex, plan: Plan, table: FwdTable)
    requires GoodPlan(g, dst, plan) && GoodAdstTable(g, dst, plan, table)
    ensures GoodTable(g, dst, plan, table)
  {
  }

  /** The entries of one switch, for packets on each tree: it sorts the trees once, and all its lists follow that order. */
  method AdstSwitch(g: Graph, dst: Vertex, plan: Plan, arc2tree: ArcMap, v: Vertex, table: FwdTable) returns (out: FwdTable)
    requires GoodPlan(g, dst, plan) && ArcMapOf(plan, arc2tree) && v in g.V && v != dst && TableValid(g, table)
    ensures TableValid(g, out) && (forall k <- table | k.0 != v :: k in out && out[k] == table[k])
    ensures forall t <- plan.dtrees + plan.rtrees :: (v, t) in out && GoodEntries(g, plan.forest, v, t, plan.rtrees, out[(v, t)])
    ensures AdstInOrder(g, plan, v, out)
  {
    hide GoodEntries, GoodAdstEntries, GoodForest, ArcMapOf, WellFormed, Elems, NoDup, NearOrder;
    var order := SortTrees(plan, v);
    out := table;
    var todo := plan.dtrees + plan.rtrees;
    while todo != {}
      invariant todo <= plan.dtrees + plan.rtrees
      invariant TableValid(g, out) && (forall k <- table | k.0 != v :: k in out && out[k] == table[k])
      invariant forall t <- plan.dtrees + plan.rtrees - todo :: (v, t) in out && GoodEntries(g, plan.forest, v, t, plan.rtrees, out[(v, t)])
      invariant forall t <- plan.dtrees + plan.rtrees - todo :: (v, t) in out && GoodAdstEntries(g, plan, v, t, order, out[(v, t)])
    {
      var iT :| iT in todo;
      todo := todo - {iT};
      var entries := AdstEntries(g, dst, plan, arc2tree, v, iT, order);
      out := out[(v, iT) := entries];
    }
    assert AdstLists(g, plan, v, order, out);
  }

  lemma AdstInOrderKept(g: Graph, plan: Plan, u: Vertex, v: Vertex, table: FwdTable, out: FwdTable)
    requires WellFormed(g) && AdstInOrder(g, plan, u, table) && u != v && forall k <- table | k.0 != v :: k in out && out[k] == table[k]
    ensures AdstInOrder(g, plan, u, out)
  {
    hide GoodAdstEntries, NearOrder;
    var order :| NearOrder(plan, u, order) && AdstLists(g, plan, u, order, table);
    assert AdstLists(g, plan, u, order, out);
  }

  /** The tables of arc-disjoint tree routing. */
  method AdstFwdtable(g: Graph, dst: Vertex, plan: Plan) returns (table: FwdTable)
    requires GoodPlan(g, dst, plan) && ArcDisjoint(plan)
    ensures GoodAdstTable(g, dst, plan, table)
  {
    var arc2tree := MapArcs(g, dst, plan);
    table := map[];
    var todo := g.V;
    while todo != {}
      invariant todo <= g.V && Serves(g, dst, plan, table, g.V - todo)
      invariant forall v <- g.V - todo | v != dst :: AdstInOrder(g, plan, v, table)
    {
      var v :| v in todo;
      todo := todo - {v};
      if v != dst {
        hide GoodEntries, AdstInOrder, GoodForest, ArcMapOf;
        ghost var before := table;
        table := AdstSwitch(g, dst, plan, arc2tree, v, table);
        forall u <- g.V - todo | u != dst && u != v ensures AdstInOrder(g, plan, u, table) {
          AdstInOrderKept(g, plan, u, v, before, table);
        }
      }
    }
  }

  // ---------- One failure ----------

  /** From `v` on, `t` meets no failed edge: whatever fails on `t` is not closer to the destination. */
  ghost predicate ClearFrom(g: Graph, dst: Vertex, t: Tree, F: set<Edge>, v: Vertex) {
    forall u <- g.V | u != dst && HasHop(g, t, u) && HopEdge(g, t, u) in F :: v in t.paths && Depth(t, u) > Depth(t, v)
  }

  ghost predicate OnClear(g: Graph, dst: Vertex, plan: Plan, F: set<Edge>, s: State) {
    Inv(g, dst, plan, F, s) && s.ctree < |plan.forest| && ClearFrom(g, dst, plan.forest[s.ctree], F, s.v)
  }

  /** A packet whose tree leaves the switch by a live edge stays on the tree. */
  lemma StaysOnTree(g: Graph, dst: Vertex, plan: Plan, table: FwdTable, F: set<Edge>, s: State)
    requires GoodPlan(g, dst, plan) && GoodTable(g, dst, plan, table) && Inv(g, dst, plan, F, s) && s.v != dst
    requires HasHop(g, plan.forest[s.ctree], s.v) && HopEdge(g, plan.forest[s.ctree], s.v) !in F
    ensures Step(g, table, F, s).Some? && Step(g, table, F, s).value.ctree == s.ctree
    ensures Step(g, table, F, s).value.v == Far(g, s.v, HopPort(plan.forest[s.ctree], s.v)).0
  {
    var prefs := PrefsAt(g, dst, plan, table, F, s);
    var entries := table[(s.v, s.ctree)];
    EntryAt(g, plan.forest, s.v, prefs, entries, 0);
    hide GoodPlan, GoodTable, Inv, Fails, Lists, HasHop;
    assert entries[0] in entries;
    assert FirstUsable(entries, s.failed, F) == 0;
  }

  /** A packet on a tree that is clear from where it stands stays on it, and moves on. */
  lemma ClearStep(g: Graph, dst: Vertex, plan: Plan, table: FwdTable, F: set<Edge>, s: State)
    requires GoodPlan(g, dst, plan) && GoodTable(g, dst, plan, table) && OnClear(g, dst, plan, F, s) && s.v != dst
    ensures Step(g, table, F, s).Some? && OnClear(g, dst, plan, F, Step(g, table, F, s).value)
    ensures DepthIn(plan.forest, s.ctree, Step(g, table, F, s).value.v) + 1 == DepthIn(plan.forest, s.ctree, s.v)
    ensures Step(g, table, F, s).value.ctree == s.ctree
  {
    HopDescends(g, dst, plan.forest[s.ctree], s.v);
    StaysOnTree(g, dst, plan, table, F, s);
    StepKeeps(g, dst, plan, table, F, s);
    assert TableValid(g, table) && WellFormed(g);
    var s' := Step(g, table, F, s).value;
    hide GoodForest, GoodTable, Inv, Step;
    assert Inv(g, dst, plan, F, s');
    assert ClearFrom(g, dst, plan.forest[s.ctree], F, s'.v);
  }

  /** A packet on a tree that is clear from where it stands is delivered. */
  lemma {:induction false} ClearDelivers(g: Graph, dst: Vertex, plan: Plan, table: FwdTable, F: set<Edge>, s: State, n: nat)
    requires GoodPlan(g, dst, plan) && GoodTable(g, dst, plan, table) && OnClear(g, dst, plan, F, s)
    requires DepthIn(plan.forest, s.ctree, s.v) <= n
    ensures Run(g, dst, table, F, s, n).Delivered?
    decreases n
  {
    hide *;
    TableIsValid(g, dst, plan, table);
    if s.v == dst {
      RunArrived(g, dst, table, F, s, n);
    } else {
      ClearStep(g, dst, plan, table, F, s);
      RunAfterStep(g, dst, table, F, s, n);
      ClearDelivers(g, dst, plan, table, F, Step(g, table, F, s).value, n - 1);
    }
  }

  /** Tree `t` crosses edge `e` in one direction only, from `v` towards the destination. */
  lemma OneDirection(g: Graph, dst: Vertex, t: Tree, v: Vertex, e: Edge)
    requires WellFormed(g) && GoodTree(g, dst, t) && v in g.V && v != dst && HasHop(g, t, v) && HopEdge(g, t, v) == e
    ensures var o := Far(g, v, HopPort(t, v)).0;
      && o in g.V && Depth(t, o) + 1 == Depth(t, v) && o != v && {v, o} == {e.v1, e.v2}
      && forall u <- g.V | u != dst && HasHop(g, t, u) && HopEdge(g, t, u) == e :: u == v
  {
    HopDescends(g, dst, t, v);
    forall u <- g.V | u != dst && HasHop(g, t, u) && HopEdge(g, t, u) == e ensures u == v {
      HopDescends(g, dst, t, u);
    }
  }

  /** If every resilient tree crosses `e`, and there are two of them, then each direction of `e` belongs to one. */
  lemma BothDirectionsUsed(g: Graph, dst: Vertex, plan: Plan, e: Edge, o: Vertex) returns (r: nat)
    requires GoodPlan(g, dst, plan) && ArcDisjoint(plan) && |plan.rtrees| >= 2
    requires (forall t <- plan.rtrees :: Fails(g, dst, plan, {e}, t)) && o in {e.v1, e.v2}
    ensures r in plan.rtrees && r < |plan.forest| && (o, e) in plan.forest[r].arcs
    ensures o in g.V && o != dst && HasHop(g, plan.forest[r], o) && HopEdge(g, plan.forest[r], o) == e
  {
    var t1 :| t1 in plan.rtrees;
    assert plan.rtrees != {t1};
    var t2 :| t2 in plan.rtrees && t2 != t1;
    var a1, a2 := FailedArc(g, dst, plan, {e}, t1), FailedArc(g, dst, plan, {e}, t2);
    r := if a1.0 == o then t1 else t2;
  }

  /** The reverse tree is clear from the switch at which the packet turns to it. */
  lemma ReverseIsClear(g: Graph, dst: Vertex, r: Tree, e: Edge, v: Vertex, o: Vertex)
    requires WellFormed(g) && GoodTree(g, dst, r) && v in g.V && v != dst && {v, o} == {e.v1, e.v2}
    requires o in g.V && o != dst && HasHop(g, r, o) && HopEdge(g, r, o) == e
    ensures HasHop(g, r, v) && HopEdge(g, r, v) != e
    ensures ClearFrom(g, dst, r, {e}, Far(g, v, HopPort(r, v)).0)
  {
    OneDirection(g, dst, r, o, e);
    HopDescends(g, dst, r, v);
    assert v == Far(g, o, HopPort(r, o)).0;
  }

  /** At the one failed edge, the tree of the opposite direction is there and clear. */
  lemma FindReverse(g: Graph, dst: Vertex, plan: Plan, e: Edge, v: Vertex, ctree: nat) returns (r: nat)
    requires GoodPlan(g, dst, plan) && ArcDisjoint(plan) && |plan.rtrees| >= 2 && ctree in plan.dtrees + plan.rtrees
    requires (forall t <- plan.rtrees :: Fails(g, dst, plan, {e}, t)) && v in g.V && v != dst
    requires HasHop(g, plan.forest[ctree], v) && HopEdge(g, plan.forest[ctree], v) == e
    ensures r in plan.rtrees && r != ctree && r < |plan.forest|
    ensures ReverseArc(g, plan.forest[ctree], v) in plan.forest[r].arcs
    ensures HasHop(g, plan.forest[r], v) && HopEdge(g, plan.forest[r], v) != e
    ensures ClearFrom(g, dst, plan.forest[r], {e}, Far(g, v, HopPort(plan.forest[r], v)).0)
  {
    var t := plan.forest[ctree];
    OneDirection(g, dst, t, v, e);
    var o := Far(g, v, HopPort(t, v)).0;
    r := BothDirectionsUsed(g, dst, plan, e, o);
    assert r in plan.dtrees + plan.rtrees;
    ReverseIsClear(g, dst, plan.forest[r], e, v, o);
  }

  /** A packet that meets the one failed edge turns to the reverse tree and is clear from then on. */
  lemma TurnAround(g: Graph, dst: Vertex, plan: Plan, table: FwdTable, e: Edge, s: State)
    requires GoodPlan(g, dst, plan) && GoodAdstTable(g, dst, plan, table) && ArcDisjoint(plan) && |plan.rtrees| >= 2
    requires forall t <- plan.rtrees :: Fails(g, dst, plan, {e}, t)
    requires Inv(g, dst, plan, {e}, s) && s.v != dst && s.failed == {}
    requires HasHop(g, plan.forest[s.ctree], s.v) && HopEdge(g, plan.forest[s.ctree], s.v) == e
    ensures Step(g, table, {e}, s).Some? && OnClear(g, dst, plan, {e}, Step(g, table, {e}, s).value)
  {
    hide GoodForest, GoodTable, Fails, GoodAdstEntries, ClearFrom, AdstInOrder, GoodAdstTable, ArcDisjoint, FirstUsable, ReverseArc;
    PartsOfAdst(g, dst, plan, table);
    var r := FindReverse(g, dst, plan, e, s.v, s.ctree);
    var order := AdstListAt(g, dst, plan, table, s.v, s.ctree);
    var entries := table[(s.v, s.ctree)];
    StepKeeps(g, dst, plan, table, {e}, s);
    TakesReverse(g, plan, s.v, s.ctree, order, entries, e, r);
    assert entries[1] in entries;
  }

  lemma AdstListAt(g: Graph, dst: Vertex, plan: Plan, table: FwdTable, v: Vertex, t: nat) returns (order: seq<nat>)
    requires WellFormed(g) && GoodAdstTable(g, dst, plan, table) && v in g.V && v != dst && t in plan.dtrees + plan.rtrees
    ensures (v, t) in table && GoodAdstEntries(g, plan, v, t, order, table[(v, t)])
  {
    hide GoodAdstEntries, NearOrder, GoodTable;
    assert AdstInOrder(g, plan, v, table);
    order :| NearOrder(plan, v, order) && AdstLists(g, plan, v, order, table);
  }

  lemma TakesReverse(g: Graph, plan: Plan, v: Vertex, t: nat, order: seq<nat>, entries: seq<Entry>, e: Edge, r: nat)
    requires WellFormed(g) && GoodAdstEntries(g, plan, v, t, order, entries) && t < |plan.forest|
    requires HasHop(g, plan.forest[t], v) && HopEdge(g, plan.forest[t], v) == e
    requires r in plan.rtrees && r != t && r < |plan.forest| && HasHop(g, plan.forest[r], v) && HopEdge(g, plan.forest[r], v) != e
    requires ReverseArc(g, plan.forest[t], v) in plan.forest[r].arcs
    ensures FirstUsable(entries, {}, {e}) == 1 && |entries| >= 2
    ensures entries[1].tree == r && entries[1].port == HopPort(plan.forest[r], v)
  {
    var prefs :| Lists(g, plan.forest, v, prefs, entries) && GoodPrefs(prefs, t, plan.rtrees) && ReverseFirst(g, plan, v, prefs);
    EntryAt(g, plan.forest, v, prefs, entries, 0);
    EntryAt(g, plan.forest, v, prefs, entries, 1);
    hide Lists, GoodPrefs;
    var i := FirstUsable(entries, {}, {e});
    assert !Usable(entries[0], {}, {e}) && Usable(entries[1], {}, {e});
  }

  /** A packet that has given up no tree yet meets the failed edge and turns around, or moves on unhurt. */
  lemma UnhurtStep(g: Graph, dst: Vertex, plan: Plan, table: FwdTable, e: Edge, s: State)
    requires GoodPlan(g, dst, plan) && GoodAdstTable(g, dst, plan, table) && ArcDisjoint(plan) && |plan.rtrees| >= 2
    requires forall t <- plan.rtrees :: Fails(g, dst, plan, {e}, t)
    requires Inv(g, dst, plan, {e}, s) && s.failed == {} && s.v != dst
    ensures Step(g, table, {e}, s).Some?
    ensures var s' := Step(g, table, {e}, s).value;
      && Budget(g, plan, s') < Budget(g, plan, s)
      && (OnClear(g, dst, plan, {e}, s') || (Inv(g, dst, plan, {e}, s') && s'.failed == {}))
  {
    hide *;
    PlanIsWellFormed(g, dst, plan);
    HasHopHere(g, dst, plan, table, {e}, s);
    StepKeeps(g, dst, plan, table, {e}, s);
    if HopEdge(g, plan.forest[s.ctree], s.v) == e {
      TurnAround(g, dst, plan, table, e, s);
    } else {
      StaysUnmarked(g, dst, plan, table, {e}, s);
    }
  }

  lemma HasHopHere(g: Graph, dst: Vertex, plan: Plan, table: FwdTable, F: set<Edge>, s: State)
    requires WellFormed(g) && GoodPlan(g, dst, plan) && GoodAdstTable(g, dst, plan, table) && Inv(g, dst, plan, F, s) && s.v != dst
    ensures GoodTable(g, dst, plan, table) && TableValid(g, table)
    ensures s.ctree < |plan.forest| && HasHop(g, plan.forest[s.ctree], s.v)
    ensures var t := plan.forest[s.ctree]; s.v in t.paths && t.paths[s.v] != [] && (s.v, HopPort(t, s.v)) in g.ports
  {
    TreeAt(g, dst, plan, s.ctree);
    HopDescends(g, dst, plan.forest[s.ctree], s.v);
  }

  /** Any single failure is survived as long as there are two resilient trees. */
  lemma {:induction false} SingleFailureRun(g: Graph, dst: Vertex, plan: Plan, table: FwdTable, e: Edge, s: State, n: nat)
    requires GoodPlan(g, dst, plan) && GoodAdstTable(g, dst, plan, table) && ArcDisjoint(plan) && |plan.rtrees| >= 2
    requires forall t <- plan.rtrees :: Fails(g, dst, plan, {e}, t)
    requires Inv(g, dst, plan, {e}, s) && s.failed == {} && Budget(g, plan, s) <= n
    ensures Run(g, dst, table, {e}, s, n).Delivered?
    decreases n
  {
    hide *;
    PartsOfAdst(g, dst, plan, table);
    TableIsValid(g, dst, plan, table);
    if s.v == dst {
      RunArrived(g, dst, table, {e}, s, n);
    } else {
      UnhurtStep(g, dst, plan, table, e, s);
      RunAfterStep(g, dst, table, {e}, s, n);
      var s' := Step(g, table, {e}, s).value;
      if OnClear(g, dst, plan, {e}, s') {
        DepthInBudget(g, plan, s');
        ClearDelivers(g, dst, plan, table, {e}, s', n - 1);
      } else {
        SingleFailureRun(g, dst, plan, table, e, s', n - 1);
      }
    }
  }

  lemma DepthInBudget(g: Graph, plan: Plan, s: State)
    ensures DepthIn(plan.forest, s.ctree, s.v) <= Budget(g, plan, s)
  {
  }

  lemma StaysUnmarked(g: Graph, dst: Vertex, plan: Plan, table: FwdTable, F: set<Edge>, s: State)
    requires GoodPlan(g, dst, plan) && GoodTable(g, dst, plan, table) && Inv(g, dst, plan, F, s) && s.v != dst
    requires HasHop(g, plan.forest[s.ctree], s.v) && HopEdge(g, plan.forest[s.ctree], s.v) !in F
    ensures Step(g, table, F, s).Some? && Step(g, table, F, s).value.failed == s.failed
  {
    var prefs := PrefsAt(g, dst, plan, table, F, s);
    var entries := table[(s.v, s.ctree)];
    EntryAt(g, plan.forest, s.v, prefs, entries, 0);
    hide GoodPlan, GoodTable, Inv, Fails, Lists, HasHop;
    assert entries[0] in entries;
    assert FirstUsable(entries, s.failed, F) == 0;
    assert Elems(prefs[..0]) == {};
  }

  /** Arc-disjoint trees survive fewer failures than half the trees, and any single failure when there are two trees. */
  lemma AdstResilience(g: Graph, dst: Vertex, plan: Plan, table: FwdTable, F: set<Edge>, src: Vertex, itree: nat)
    requires GoodPlan(g, dst, plan) && GoodAdstTable(g, dst, plan, table) && ArcDisjoint(plan)
    requires src in g.V && itree in plan.dtrees + plan.rtrees
    requires 2 * |F| < |plan.rtrees| || (|F| == 1 && |plan.rtrees| >= 2)
    ensures Run(g, dst, table, F, Start(src, itree), HopBound(g, plan, itree)).Delivered?
  {
    hide GoodAdstTable, GoodTable, GoodForest, Run, ArcDisjoint, Fails, Budget, HopBound;
    PartsOfAdst(g, dst, plan, table);
    TreeResilience(g, dst, plan, table, F, src, itree);
    if 2 * |F| < |plan.rtrees| {
      FewEdgesFailFewArcTrees(g, dst, plan, F);
    } else {
      var e :| e in F;
      SubsetSize({e}, F);
      if forall t <- plan.rtrees :: Fails(g, dst, plan, F, t) {
        StartBudget(g, dst, plan, src, itree);
        SingleFailureRun(g, dst, plan, table, e, Start(src, itree), HopBound(g, plan, itree));
      }
    }
  }
}
