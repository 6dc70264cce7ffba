/**
 Deadlock freedom of tree routing along a tree-transition graph. A packet that crossed a link occupies the link's
 buffer at the far end until it gets the next one. No set of packets can wait for each other in a circle, whatever
 their destinations, their start trees and the failures each of them meets.
 */
module Deadlock {
  import opened Wrappers
  import opened FiniteSets
  import opened Topology
  import opened TreePaths
  import opened TreeWalk
  import opened Digraphs
  import opened DfrTables

  /** A link in the direction away from its switch, with the buffer behind it. */
  type Channel = (Vertex, Port)

  /** A network: its edge-disjoint spanning trees, the TTG, and for every destination its layers and its tables. */
  datatype Net = Net(g: Graph, trees: seq<set<Edge>>, E: Digraph, plans: map<Vertex, Plan>, tables: map<Vertex, FwdTable>)

  /** The forest of a destination routes inside the spanning trees. */
  ghost predicate ForestOf(trees: seq<set<Edge>>, forest: seq<Tree>) {
    |forest| == |trees| && forall i | 0 <= i < |trees| :: forest[i].arcs == ArcsOf(trees[i])
  }

  ghost predicate GoodDst(net: Net, dst: Vertex) {
    && dst in net.plans && dst in net.tables && net.plans[dst].E == net.E && ForestOf(net.trees, net.plans[dst].forest)
    && GoodPlan(net.g, dst, net.plans[dst]) && GoodTable(net.g, dst, net.plans[dst], net.tables[dst])
  }

  /** The trees are spanning trees by their size, and no two of them share an edge. */
  ghost predicate SpanningTrees(g: Graph, trees: seq<set<Edge>>) {
    && (forall i | 0 <= i < |trees| :: |trees[i]| + 1 == |g.V|)
    && (forall i, j | 0 <= i < j < |trees| :: trees[i] !! trees[j])
  }

  ghost predicate GoodNet(net: Net) {
    WellFormed(net.g) && SpanningTrees(net.g, net.trees) && forall dst <- net.plans :: GoodDst(net, dst)
  }

  /** With `F` down, a packet for `dst` at `v` on tree `t` leaves by `port`, to `u` and on tree `t'`. */
  datatype Hop = Hop(dst: Vertex, v: Vertex, t: nat, F: set<Edge>, port: Port, u: Vertex, t': nat)

  /** The tables make packets take this hop. */
  ghost predicate Takes(net: Net, h: Hop) {
    && h.dst in net.plans && GoodDst(net, h.dst) && h.v in net.g.V && h.v != h.dst && InUse(net, h.dst, h.t)
    && Step(net.g, net.tables[h.dst], h.F, Start(h.v, h.t)) == Some(State(h.u, h.t', {}, [h.port], h.t' != h.t))
  }

  ghost predicate InUse(net: Net, dst: Vertex, t: nat)
    requires dst in net.plans
  {
    exists k: nat :: InLayer(net.plans[dst], t, k)
  }

  /** The packet that took `h` next wants `h'`; links may have failed or recovered in between. */
  ghost predicate Follows(net: Net, h: Hop, h': Hop) {
    Takes(net, h) && Takes(net, h') && h'.dst == h.dst && h'.v == h.u && h'.t == h.t'
  }

  /** Some packet holds channel `c` and next requests channel `d`. */
  ghost predicate Dep(net: Net, c: Channel, d: Channel) {
    exists h, h' :: Follows(net, h, h') && c == (h.v, h.port) && d == (h'.v, h'.port)
  }

  /** Every channel of the chain waits for the next one. */
  ghost predicate DepChain(net: Net, chain: seq<Channel>) {
    forall i | 0 <= i < |chain| - 1 :: Dep(net, chain[i], chain[i + 1])
  }

  // ---------- One hop ----------

  /** The edge of a channel. */
  function EdgeOf(g: Graph, c: Channel): Edge
    requires c in g.ports
  {
    g.ports[c]
  }

  lemma HopFacts(net: Net, h: Hop)
    requires GoodNet(net) && Takes(net, h)
    ensures h.t' < |net.trees| && |net.plans[h.dst].forest| == |net.trees| && (h.t' == h.t || Reaches(net.E, h.t, h.t'))
    ensures GoodTree(net.g, h.dst, net.plans[h.dst].forest[h.t']) && net.plans[h.dst].forest[h.t'].arcs == ArcsOf(net.trees[h.t'])
    ensures (h.v, h.port) in net.g.ports && EdgeOf(net.g, (h.v, h.port)) in net.trees[h.t']
    ensures h.u == Far(net.g, h.v, h.port).0 && h.u in net.g.V
    ensures Depth(net.plans[h.dst].forest[h.t'], h.u) + 1 == Depth(net.plans[h.dst].forest[h.t'], h.v)
  {
    hide GoodPlan, GoodTable, Step;
    var plan := net.plans[h.dst];
    var k: nat :| InLayer(plan, h.t, k);
    var k' := TakenHop(net.g, h.dst, plan, net.tables[h.dst], h.F, h.v, h.t, k, h.port, h.u, h.t');
    HopInTree(net.g, h.dst, plan, h.t', net.trees[h.t'], h.v);
  }

  lemma HopInTree(g: Graph, dst: Vertex, plan: Plan, t: nat, T: set<Edge>, v: Vertex)
    requires GoodPlan(g, dst, plan) && t < |plan.forest| && plan.forest[t].arcs == ArcsOf(T) && v in g.V && v != dst
    ensures GoodTree(g, dst, plan.forest[t]) && HasHop(g, plan.forest[t], v) && HopEdge(g, plan.forest[t], v) in T
    ensures var u := Far(g, v, HopPort(plan.forest[t], v)).0; u in g.V && Depth(plan.forest[t], u) + 1 == Depth(plan.forest[t], v)
  {
    HopDescends(g, dst, plan.forest[t], v);
    assert (v, HopEdge(g, plan.forest[t], v)) in ArcsOf(T);
  }

  /** Which hop the step takes: the one of its new tree. */
  lemma TakenHop(g: Graph, dst: Vertex, plan: Plan, table: FwdTable, F: set<Edge>, v: Vertex, t: nat, k: nat, port: Port, u: Vertex, t': nat)
    returns (k': nat)
    requires GoodPlan(g, dst, plan) && GoodTable(g, dst, plan, table) && v in g.V && v != dst && InLayer(plan, t, k)
    requires Step(g, table, F, Start(v, t)) == Some(State(u, t', {}, [port], t' != t))
    ensures t' < |plan.forest| && HasHop(g, plan.forest[t'], v) && port == HopPort(plan.forest[t'], v) && (v, port) in g.ports
    ensures u == Far(g, v, port).0 && (t' == t || Reaches(plan.E, t, t')) && InLayer(plan, t', k')
  {
    hide Lists, GoodPrefs, GoodTable, GoodPlan, InLayer, HasHop;
    var s := Start(v, t);
    AtStart(g, dst, plan, v, t, k);
    var prefs := PrefsAt(g, dst, plan, table, s, k);
    var entries := table[(v, t)];
    var i := FirstUsable(entries, {}, F);
    k' := HopClimbs(g, dst, plan, F, s, k, prefs, entries, i);
    EntryAt(g, plan.forest, v, prefs, entries, i);
    assert entries[i] in entries && [port][0] == ([] + [entries[i].port])[0];
    ReachMeans(g, dst, plan, t, t');
  }

  lemma AtStart(g: Graph, dst: Vertex, plan: Plan, v: Vertex, t: nat, k: nat)
    requires v in g.V && InLayer(plan, t, k) && GoodPlan(g, dst, plan)
    ensures Inv(g, plan, Start(v, t), k) && WellFormed(g)
  {
  }

  lemma ReachMeans(g: Graph, dst: Vertex, plan: Plan, t: nat, u: nat)
    requires GoodPlan(g, dst, plan)
    ensures (t, u) in plan.reach <==> Reaches(plan.E, t, u)
  {
  }

  // ---------- Inside one tree ----------

  /** Rooted at `r`, every switch but `r` has an edge towards the root; these are all the edges, one for each switch. */
  lemma OneParentEach(g: Graph, r: Vertex, t: Tree, T: set<Edge>, e: Edge) returns (v: Vertex)
    requires WellFormed(g) && GoodTree(g, r, t) && t.arcs == ArcsOf(T) && |T| + 1 == |g.V| && e in T
    ensures v in g.V && v != r && HasHop(g, t, v) && HopEdge(g, t, v) == e
  {
    var S := g.V - {r};
    forall u <- S ensures HasHop(g, t, u) && HopEdge(g, t, u) in T {
      HopDescends(g, r, t, u);
      assert (u, HopEdge(g, t, u)) in ArcsOf(T);
    }
    var f := map u | u in S :: HopEdge(g, t, u);
    forall x, y | x in S && y in S && x != y ensures f[x] != f[y] {
      ParentsDiffer(g, r, t, x, y);
    }
    InjectionSize(S, T, f);
    v :| v in S && f[v] == e;
  }

  lemma ParentsDiffer(g: Graph, r: Vertex, t: Tree, x: Vertex, y: Vertex)
    requires WellFormed(g) && GoodTree(g, r, t) && x in g.V && y in g.V && x != r && y != r && x != y
    ensures HasHop(g, t, x) && HasHop(g, t, y) && HopEdge(g, t, x) != HopEdge(g, t, y)
  {
    HopDescends(g, r, t, x);
    HopDescends(g, r, t, y);
  }

  /** A channel leads towards the root or away from it. */
  ghost predicate Up(g: Graph, r: Vertex, t: Tree, c: Channel)
    requires c in g.ports
  {
    c.0 != r && HasHop(g, t, c.0) && HopEdge(g, t, c.0) == EdgeOf(g, c)
  }

  /** The far switch, if the channel is one of a well-formed graph. */
  ghost function Head(g: Graph, c: Channel): Vertex
    requires WellFormed(g) && c in g.ports
  {
    Far(g, c.0, c.1).0
  }

  /** Channels towards the root come first, those farthest from the root before the others; then the channels away from it. */
  ghost function Rank(g: Graph, r: Vertex, t: Tree, c: Channel): int
    requires WellFormed(g) && c in g.ports && GoodTree(g, r, t)
  {
    if Up(g, r, t, c) then -(Depth(t, c.0) as int) else Depth(t, Head(g, c))
  }

  /** The depths along a channel of the tree. */
  lemma ChannelDepths(g: Graph, r: Vertex, t: Tree, T: set<Edge>, c: Channel)
    requires WellFormed(g) && GoodTree(g, r, t) && t.arcs == ArcsOf(T) && |T| + 1 == |g.V| && c in g.ports && EdgeOf(g, c) in T
    ensures Head(g, c) in g.V && c.0 in g.V
    ensures if Up(g, r, t, c) then Depth(t, Head(g, c)) + 1 == Depth(t, c.0)
      else Depth(t, c.0) + 1 == Depth(t, Head(g, c)) && Head(g, c) != r && HasHop(g, t, Head(g, c)) && HopEdge(g, t, Head(g, c)) == EdgeOf(g, c)
  {
    var v := OneParentEach(g, r, t, T, EdgeOf(g, c));
    HopDescends(g, r, t, v);
    if Up(g, r, t, c) {
      HopDescends(g, r, t, c.0);
    }
  }

  /** Following a channel by another one of the tree, without turning back, increases the rank. */
  lemma RankClimbs(g: Graph, r: Vertex, t: Tree, T: set<Edge>, c: Channel, d: Channel)
    requires WellFormed(g) && GoodTree(g, r, t) && t.arcs == ArcsOf(T) && |T| + 1 == |g.V|
    requires c in g.ports && d in g.ports && EdgeOf(g, c) in T && EdgeOf(g, d) in T
    requires d.0 == Head(g, c) && EdgeOf(g, c) != EdgeOf(g, d)
    ensures Rank(g, r, t, c) < Rank(g, r, t, d)
  {
    ChannelDepths(g, r, t, T, c);
    ChannelDepths(g, r, t, T, d);
  }

  // ---------- Chains ----------

  /** The tree a channel belongs to. */
  ghost predicate OnTree(net: Net, c: Channel, t: nat) {
    c in net.g.ports && t < |net.trees| && EdgeOf(net.g, c) in net.trees[t]
  }

  lemma TreesDisjoint(net: Net, t: nat, u: nat)
    requires GoodNet(net) && t < u < |net.trees|
    ensures net.trees[t] !! net.trees[u]
  {
  }

  lemma OneTree(net: Net, c: Channel, t: nat, u: nat)
    requires GoodNet(net) && OnTree(net, c, t) && OnTree(net, c, u)
    ensures t == u
  {
    hide GoodNet;
    if t < u {
      TreesDisjoint(net, t, u);
    } else if u < t {
      TreesDisjoint(net, u, t);
    }
  }

  /** The root all trees are seen from: some destination. */
  ghost predicate Rooted(net: Net, r: Vertex) {
    GoodNet(net) && r in net.plans
  }

  ghost function RankIn(net: Net, r: Vertex, t: nat, c: Channel): int
    requires Rooted(net, r) && OnTree(net, c, t)
  {
    assert GoodDst(net, r) && net.plans[r].forest[t] in net.plans[r].forest;
    Rank(net.g, r, net.plans[r].forest[t], c)
  }

  /** A packet that holds `c` and requests `d` moved along the TTG, or on in its tree. */
  lemma DepClimbs(net: Net, r: Vertex, c: Channel, d: Channel) returns (t: nat, u: nat)
    requires Rooted(net, r) && Dep(net, c, d)
    ensures OnTree(net, c, t) && OnTree(net, d, u)
    ensures Reaches(net.E, t, u) || (t == u && RankIn(net, r, t, c) < RankIn(net, r, u, d))
  {
    hide GoodNet, Takes, Rank, Reaches;
    var h, h' :| Follows(net, h, h') && c == (h.v, h.port) && d == (h'.v, h'.port);
    HopFacts(net, h);
    HopFacts(net, h');
    t, u := h.t', h'.t';
    if t == u {
      InTreeClimbs(net, r, h, h');
    }
  }

  lemma InTreeClimbs(net: Net, r: Vertex, h: Hop, h': Hop)
    requires Rooted(net, r) && Follows(net, h, h') && h.t' == h'.t'
    ensures OnTree(net, (h.v, h.port), h.t') && OnTree(net, (h'.v, h'.port), h.t')
    ensures RankIn(net, r, h.t', (h.v, h.port)) < RankIn(net, r, h.t', (h'.v, h'.port))
  {
    HopFacts(net, h);
    HopFacts(net, h');
    assert GoodDst(net, r);
    RankClimbs(net.g, r, net.plans[r].forest[h.t'], net.trees[h.t'], (h.v, h.port), (h'.v, h'.port));
  }

  /** Along a chain the tree advances in the TTG, or stays and the rank increases. */
  lemma {:induction false} ChainClimbs(net: Net, r: Vertex, chain: seq<Channel>) returns (t: nat, u: nat)
    requires Rooted(net, r) && |chain| >= 2 && DepChain(net, chain)
    ensures OnTree(net, chain[0], t) && OnTree(net, chain[|chain| - 1], u)
    ensures Reaches(net.E, t, u) || (t == u && RankIn(net, r, t, chain[0]) < RankIn(net, r, u, chain[|chain| - 1]))
    decreases |chain|
  {
    hide Dep, GoodNet, OnTree, RankIn, Reaches;
    var n := |chain| - 1;
    assert Dep(net, chain[n - 1], chain[n]);
    var x, y := DepClimbs(net, r, chain[n - 1], chain[n]);
    if n == 1 {
      t, u := x, y;
    } else {
      var w;
      t, w := ChainClimbs(net, r, chain[..n]);
      u := y;
      assert chain[..n][n - 1] == chain[n - 1];
      OneTree(net, chain[n - 1], w, x);
      if Reaches(net.E, t, x) && Reaches(net.E, x, y) {
        ReachesTrans(net.E, t, x, y);
      }
    }
  }

  lemma SomeRoot(net: Net, c: Channel, d: Channel) returns (r: Vertex)
    requires GoodNet(net) && Dep(net, c, d)
    ensures Rooted(net, r)
  {
    var h, h' :| Follows(net, h, h') && c == (h.v, h.port) && d == (h'.v, h'.port);
    r := h.dst;
  }

  lemma TtgAcyclic(net: Net, r: Vertex, t: nat)
    requires Rooted(net, r)
    ensures !Reaches(net.E, t, t)
  {
    assert GoodDst(net, r);
  }

  /** No circle of channels waiting for each other: tables built along an acyclic TTG never deadlock. */
  lemma DeadlockFree(net: Net, chain: seq<Channel>)
    requires GoodNet(net) && |chain| >= 2 && DepChain(net, chain)
    ensures chain[0] != chain[|chain| - 1]
  {
    hide GoodNet, Dep, Reaches, RankIn, OnTree;
    assert Dep(net, chain[0], chain[1]);
    var r := SomeRoot(net, chain[0], chain[1]);
    var t, u := ChainClimbs(net, r, chain);
    TtgAcyclic(net, r, t);
    if chain[0] == chain[|chain| - 1] {
      OneTree(net, chain[0], t, u);
    }
  }

  // ---------- The walk asks for nothing else ----------

  /** The packet stays on a tree in use for the whole walk. */
  lemma {:induction false} StaysInLayers(net: Net, dst: Vertex, F: set<Edge>, s: State, k: nat, n: nat) returns (k': nat)
    requires GoodNet(net) && dst in net.plans && Inv(net.g, net.plans[dst], s, k)
    requires WellFormed(net.g) && GoodDst(net, dst) && TableValid(net.g, net.tables[dst])
    requires Run(net.g, dst, net.tables[dst], F, s, n).Running?
    ensures Inv(net.g, net.plans[dst], Run(net.g, dst, net.tables[dst], F, s, n).s, k')
    decreases n
  {
    hide GoodNet, Inv, Step;
    k' := k;
    if n != 0 {
      var j := StepClimbs(net.g, dst, net.plans[dst], net.tables[dst], F, s, k);
      k' := StaysInLayers(net, dst, F, Step(net.g, net.tables[dst], F, s).value, j, n - 1);
    }
  }

  /** The hop from `s` to `s'`. */
  function HopOf(dst: Vertex, s: State, F: set<Edge>, s': State): Hop
    requires s'.hops != []
  {
    Hop(dst, s.v, s.ctree, F, s'.hops[|s'.hops| - 1], s'.v, s'.ctree)
  }

  lemma StepTakes(net: Net, dst: Vertex, F: set<Edge>, s: State, k: nat)
    requires WellFormed(net.g) && dst in net.plans && GoodDst(net, dst) && TableValid(net.g, net.tables[dst])
    requires Inv(net.g, net.plans[dst], s, k) && s.v != dst && Step(net.g, net.tables[dst], F, s).Some?
    ensures var s' := Step(net.g, net.tables[dst], F, s).value; s'.hops != [] && Takes(net, HopOf(dst, s, F, s'))
  {
    hide GoodPlan, GoodTable, GoodPrefs, Lists, WellFormed, TableValid, InLayer;
    var plan, table := net.plans[dst], net.tables[dst];
    var prefs := PrefsAt(net.g, dst, plan, table, s, k);
    var entries := table[(s.v, s.ctree)];
    var i := FirstUsable(entries, {}, F);
    var s' := Step(net.g, table, F, s).value;
    EntryAt(net.g, plan.forest, s.v, prefs, entries, i);
    assert [] + [entries[i].port] == [entries[i].port] && {} + entries[i].markFailed == {};
    assert s'.hops == s.hops + [entries[i].port];
    assert Step(net.g, table, F, Start(s.v, s.ctree)) == Some(State(s'.v, s'.ctree, {}, [entries[i].port], s'.ctree != s.ctree));
  }

  /** Two consecutive hops of any walk, after any number of hops, are a dependency. */
  lemma WalkDepends(net: Net, dst: Vertex, F: set<Edge>, src: Vertex, itree: nat, k: nat, n: nat)
    requires GoodNet(net) && dst in net.plans && src in net.g.V && InLayer(net.plans[dst], itree, k)
    requires WellFormed(net.g) && GoodDst(net, dst) && TableValid(net.g, net.tables[dst])
    requires Run(net.g, dst, net.tables[dst], F, Start(src, itree), n).Running?
    ensures var s := Run(net.g, dst, net.tables[dst], F, Start(src, itree), n).s;
      s.v != dst && var next := Step(net.g, net.tables[dst], F, s);
      next.Some? && next.value.v != dst && Step(net.g, net.tables[dst], F, next.value).Some? ==>
        var after := Step(net.g, net.tables[dst], F, next.value).value;
        && next.value.hops != [] && after.hops != []
        && Follows(net, HopOf(dst, s, F, next.value), HopOf(dst, next.value, F, after))
  {
    hide GoodNet, GoodDst, Run, Step, Takes, WellFormed, TableValid;
    HasTables(net, dst);
    RunningElsewhere(net.g, dst, net.tables[dst], F, Start(src, itree), n);
    var s := Run(net.g, dst, net.tables[dst], F, Start(src, itree), n).s;
    var k' := StaysInLayers(net, dst, F, Start(src, itree), k, n);
    var next := Step(net.g, net.tables[dst], F, s);
    if next.Some? && next.value.v != dst && Step(net.g, net.tables[dst], F, next.value).Some? {
      StepTakes(net, dst, F, s, k');
      var k'' := NextInv(net, dst, F, s, k');
      StepTakes(net, dst, F, next.value, k'');
    }
  }

  lemma HasTables(net: Net, dst: Vertex)
    requires GoodDst(net, dst)
    ensures dst in net.tables
  {
  }

  lemma NextInv(net: Net, dst: Vertex, F: set<Edge>, s: State, k: nat) returns (k': nat)
    requires WellFormed(net.g) && GoodDst(net, dst) && Inv(net.g, net.plans[dst], s, k) && s.v != dst && TableValid(net.g, net.tables[dst])
    requires Step(net.g, net.tables[dst], F, s).Some?
    ensures Inv(net.g, net.plans[dst], Step(net.g, net.tables[dst], F, s).value, k')
  {
    k' := StepClimbs(net.g, dst, net.plans[dst], net.tables[dst], F, s, k);
  }

  lemma {:induction false} RunningElsewhere(g: Graph, dst: Vertex, table: FwdTable, F: set<Edge>, s: State, n: nat)
    requires WellFormed(g) && TableValid(g, table) && Run(g, dst, table, F, s, n).Running?
    ensures Run(g, dst, table, F, s, n).s.v != dst
    decreases n
  {
    if n != 0 {
      RunningElsewhere(g, dst, table, F, Step(g, table, F, s).value, n - 1);
    }
  }
}
