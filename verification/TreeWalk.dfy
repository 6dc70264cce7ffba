/** Forwarding tables of tree routing, and the packet walk over them. */
module TreeWalk {
  import opened Wrappers
  import opened Topology
  import opened TreePaths

  /** (up tree, up edge) -> (out port, trees to mark as failed). */
  datatype Entry = Entry(tree: nat, e: Edge, port: Port, markFailed: set<nat>)

  /** The entries for packets at a switch on a given tree, first choice first; one destination. */
  type FwdTable = map<(Vertex, nat), seq<Entry>>

  datatype State = State(v: Vertex, ctree: nat, failed: set<nat>, hops: seq<Port>, failExp: bool)

  ghost predicate TableValid(g: Graph, table: FwdTable) {
    forall k <- table :: forall x <- table[k] :: (k.0, x.port) in g.ports && g.ports[(k.0, x.port)] == x.e
  }

  predicate Usable(x: Entry, failed: set<nat>, down: set<Edge>) {
    x.tree !in failed && x.e !in down
  }

  function FirstUsable(entries: seq<Entry>, failed: set<nat>, down: set<Edge>): (i: nat)
    ensures i <= |entries| && (i < |entries| ==> Usable(entries[i], failed, down))
    ensures forall k | 0 <= k < i :: !Usable(entries[k], failed, down)
  {
    if entries == [] || Usable(entries[0], failed, down) then 0 else FirstUsable(entries[1..], failed, down) + 1
  }

  /** One hop of the walk: the state after it, or nothing when the packet is dropped. */
  function Step(g: Graph, table: FwdTable, F: set<Edge>, s: State): Option<State>
    requires WellFormed(g) && TableValid(g, table)
  {
    if (s.v, s.ctree) !in table then None
    else
      var entries := table[(s.v, s.ctree)];
      var i := FirstUsable(entries, s.failed, F);
      if i == |entries| then None
      else
        var x := entries[i];
        Some(State(Far(g, s.v, x.port).0, x.tree, s.failed + x.markFailed, s.hops + [x.port], s.failExp || x.tree != s.ctree))
  }

  datatype Outcome = Delivered(s: State) | Dropped(s: State) | Running(s: State)

  /** The walk cut off after `n` hops. */
  ghost function Run(g: Graph, dst: Vertex, table: FwdTable, F: set<Edge>, s: State, n: nat): Outcome
    requires WellFormed(g) && TableValid(g, table)
    decreases n
  {
    if s.v == dst then Delivered(s)
    else if n == 0 then Running(s)
    else match Step(g, table, F, s)
         case None => Dropped(s)
         case Some(s') => Run(g, dst, table, F, s', n - 1)
  }

  lemma RunAfterStep(g: Graph, dst: Vertex, table: FwdTable, F: set<Edge>, s: State, n: nat)
    requires WellFormed(g) && TableValid(g, table) && s.v != dst && n > 0 && Step(g, table, F, s).Some?
    ensures Run(g, dst, table, F, s, n) == Run(g, dst, table, F, Step(g, table, F, s).value, n - 1)
  {
  }

  lemma RunArrived(g: Graph, dst: Vertex, table: FwdTable, F: set<Edge>, s: State, n: nat)
    requires WellFormed(g) && TableValid(g, table) && s.v == dst
    ensures Run(g, dst, table, F, s, n) == Delivered(s)
  {
  }

  lemma RunDrops(g: Graph, dst: Vertex, table: FwdTable, F: set<Edge>, s: State, n: nat)
    requires WellFormed(g) && TableValid(g, table) && s.v != dst && n > 0 && Step(g, table, F, s).None?
    ensures Run(g, dst, table, F, s, n) == Dropped(s)
  {
  }

  function Start(src: Vertex, itree: nat): State {
    State(src, itree, {}, [], false)
  }

  /** The trees on which the hops are taken. */
  ghost function Trees(g: Graph, dst: Vertex, table: FwdTable, F: set<Edge>, s: State, n: nat): seq<nat>
    requires WellFormed(g) && TableValid(g, table)
    decreases n
  {
    if s.v == dst || n == 0 || Step(g, table, F, s).None? then []
    else [Step(g, table, F, s).value.ctree] + Trees(g, dst, table, F, Step(g, table, F, s).value, n - 1)
  }

  ghost predicate Changes(trees: seq<nat>) {
    exists i | 0 <= i < |trees| - 1 :: trees[i] != trees[i + 1]
  }

  lemma ChangesFirst(a: nat, b: nat, rest: seq<nat>)
    ensures Changes([a] + ([b] + rest)) <==> a != b || Changes([b] + rest)
  {
    var t, u := [a] + ([b] + rest), [b] + rest;
    assert a != b ==> t[0] != t[1];
    forall i | 0 <= i < |u| ensures u[i] == t[i + 1] {
    }
    if Changes(t) {
      var i :| 0 <= i < |t| - 1 && t[i] != t[i + 1];
      assert i > 0 ==> u[i - 1] != u[i];
    }
    if Changes(u) {
      var i :| 0 <= i < |u| - 1 && u[i] != u[i + 1];
      assert t[i + 1] != t[i + 2];
    }
  }

  /** A packet reports a failure exactly if some hop is taken on another tree than the one before, or it has reported one already. */
  lemma {:induction false} ReportsChange(g: Graph, dst: Vertex, table: FwdTable, F: set<Edge>, s: State, n: nat)
    requires WellFormed(g) && TableValid(g, table)
    ensures Run(g, dst, table, F, s, n).s.failExp <==> s.failExp || Changes([s.ctree] + Trees(g, dst, table, F, s, n))
    ensures |Run(g, dst, table, F, s, n).s.hops| == |s.hops| + |Trees(g, dst, table, F, s, n)|
    decreases n
  {
    if s.v == dst || n == 0 || Step(g, table, F, s).None? {
      assert !Changes([s.ctree] + []);
    } else {
      var s' := Step(g, table, F, s).value;
      ReportsChange(g, dst, table, F, s', n - 1);
      ChangesFirst(s.ctree, s'.ctree, Trees(g, dst, table, F, s', n - 1));
    }
  }

  lemma {:induction false} LocalSuffices(g: Graph, v: Vertex, entries: seq<Entry>, failed: set<nat>, F: set<Edge>)
    requires forall x <- entries :: (v, x.port) in g.ports && g.ports[(v, x.port)] == x.e
    ensures FirstUsable(entries, failed, LocalFailed(g, v, F)) == FirstUsable(entries, failed, F)
  {
    if entries != [] {
      assert entries[0] in entries;
      LocalSuffices(g, v, entries[1..], failed, F);
    } else {
    }
  }

  method PickFirst(entryl: seq<Entry>, failedTrees: set<nat>, localFailedE: set<Edge>) returns (i: nat)
    ensures i == FirstUsable(entryl, failedTrees, localFailedE)
  {
    i := 0;
    while i < |entryl| && !Usable(entryl[i], failedTrees, localFailedE)
      invariant i <= FirstUsable(entryl, failedTrees, localFailedE)
    {
      i := i + 1;
    }
  }

  /**
   The hops of the packet, if it is delivered; then it reports a failure exactly if some hop was taken on another tree than
   the one before. A packet that is dropped reports one in any case.
   */
  ghost predicate Walked(g: Graph, dst: Vertex, table: FwdTable, F: set<Edge>, src: Vertex, itree: nat, bound: nat, hops: Option<seq<Port>>, failExp: bool)
    requires WellFormed(g) && TableValid(g, table)
  {
    match Run(g, dst, table, F, Start(src, itree), bound)
    case Delivered(s) => hops == Some(s.hops) && (failExp <==> Changes([itree] + Trees(g, dst, table, F, Start(src, itree), bound)))
    case Dropped(s) => hops == None && failExp
    case Running(s) => false
  }

  /**
   The walk of a packet that starts on tree `itree`. It stops because, as the builders' tables guarantee, the
   walk ends within `bound` hops.
   */
  method WalkInternal(g: Graph, src: Vertex, dst: Vertex, table: FwdTable, itree: nat, F: set<Edge>, ghost bound: nat)
    returns (hops: Option<seq<Port>>, failExp: bool)
    requires WellFormed(g) && TableValid(g, table)
    requires !Run(g, dst, table, F, Start(src, itree), bound).Running?
    ensures Walked(g, dst, table, F, src, itree, bound, hops, failExp)
  {
    ReportsChange(g, dst, table, F, Start(src, itree), bound);
    hide Trees, Changes;
    var taken, ctree, failedTrees, v := [], itree, {}, src;
    failExp := false;
    ghost var n := bound;
    while v != dst
      invariant Run(g, dst, table, F, State(v, ctree, failedTrees, taken, failExp), n) ==
                Run(g, dst, table, F, Start(src, itree), bound)
      decreases n
    {
      var localFailedE := LocalFailed(g, v, F);
      if (v, ctree) !in table {
        return None, true;
      }
      var entryl := table[(v, ctree)];
      var i := PickFirst(entryl, failedTrees, localFailedE);
      LocalSuffices(g, v, entryl, failedTrees, F);
      if i == |entryl| {
        return None, true;
      }
      var x := entryl[i];
      assert x in entryl;
      var nv := Far(g, v, x.port).0;
      if x.tree != ctree {
        failExp := true;
      }
      taken := taken + [x.port];
      ctree := x.tree;
      failedTrees := failedTrees + x.markFailed;
      v := nv;
      n := n - 1;
    }
    hops := Some(taken);
  }

  /** What the hops of a state are: a live way from the source. */
  lemma StepIsLive(g: Graph, table: FwdTable, F: set<Edge>, src: Vertex, s: State)
    requires WellFormed(g) && TableValid(g, table) && LivePath(g, F, src, s.v, s.hops)
    requires Step(g, table, F, s).Some?
    ensures LivePath(g, F, src, Step(g, table, F, s).value.v, Step(g, table, F, s).value.hops)
    ensures |Step(g, table, F, s).value.hops| == |s.hops| + 1
  {
    var entries := table[(s.v, s.ctree)];
    var x := entries[FirstUsable(entries, s.failed, F)];
    assert x in entries;
    LiveHop(g, F, s.v, x.port);
    LiveConcat(g, F, src, s.v, Far(g, s.v, x.port).0, s.hops, [x.port]);
  }

  /** Whatever the tables, a packet never crosses a failed edge, and is not anywhere but where its hops lead. */
  lemma {:induction false} RunIsLive(g: Graph, dst: Vertex, table: FwdTable, F: set<Edge>, src: Vertex, s: State, n: nat)
    requires WellFormed(g) && TableValid(g, table) && LivePath(g, F, src, s.v, s.hops)
    ensures var r := Run(g, dst, table, F, s, n).s;
      LivePath(g, F, src, r.v, r.hops) && |s.hops| <= |r.hops| <= |s.hops| + n
    ensures Run(g, dst, table, F, s, n).Delivered? ==> Run(g, dst, table, F, s, n).s.v == dst
    decreases n
  {
    if s.v != dst && n != 0 && Step(g, table, F, s).Some? {
      StepIsLive(g, table, F, src, s);
      RunIsLive(g, dst, table, F, src, Step(g, table, F, s).value, n - 1);
    }
  }
}
