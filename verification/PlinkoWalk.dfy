/** Packets under failures: what the installed paths mean, and the table walk that carries it out. */
module PlinkoWalk {
  import opened Wrappers
  import opened FiniteSets
  import opened Topology
  import opened PlinkoPaths
  import opened PlinkoChoice
  import opened PlinkoBuilder

  /** The name that takes over when `n` breaks at hop `i`: it starts where `n` breaks. */
  lemma ChildRecord(g: Graph, dst: Vertex, recs: Records, n: Name, i: nat)
    requires WellFormed(g) && ValidRecords(g, dst, recs) && Child(n, i) in recs
    ensures n in recs && IsBackup(g, recs[n], i, recs[Child(n, i)])
  {
    assert HasParent(g, recs, Child(n, i));
    assert Parent(Child(n, i)).breaks == n.breaks;
  }

  /**
   The meaning of the installed paths: follow the path in force until it meets a failed edge, then go on with
   the path installed for that break, and drop the packet when there is none.
   */
  ghost function Delivery(g: Graph, dst: Vertex, recs: Records, F: set<Edge>, n: Name): Option<seq<Port>>
    requires WellFormed(g) && ValidRecords(g, dst, recs) && n in recs && recs[n].path.failedE <= F
    decreases |F| - |n.breaks|
  {
    var p := recs[n].path;
    var i := FirstFail(g, p.v, p.hops, F);
    RecordRoute(g, dst, recs, n);
    SubsetSize(p.failedE, F);
    if i == |p.hops| then Some(p.hops)
    else if Child(n, i) !in recs then None
    else
      ChildRecord(g, dst, recs, n, i);
      RecordRoute(g, dst, recs, Child(n, i));
      SubsetSize(recs[Child(n, i)].path.failedE, F);
      match Delivery(g, dst, recs, F, Child(n, i))
      case None => None
      case Some(rest) => Some(p.hops[..i] + rest)
  }

  /** How often the packet changes paths. */
  ghost function Changes(g: Graph, dst: Vertex, recs: Records, F: set<Edge>, n: Name): nat
    requires WellFormed(g) && ValidRecords(g, dst, recs) && n in recs && recs[n].path.failedE <= F
    decreases |F| - |n.breaks|
  {
    var p := recs[n].path;
    var i := FirstFail(g, p.v, p.hops, F);
    RecordRoute(g, dst, recs, n);
    SubsetSize(p.failedE, F);
    if i == |p.hops| || Child(n, i) !in recs then 0
    else
      ChildRecord(g, dst, recs, n, i);
      RecordRoute(g, dst, recs, Child(n, i));
      SubsetSize(recs[Child(n, i)].path.failedE, F);
      1 + Changes(g, dst, recs, F, Child(n, i))
  }

  /** A delivered packet has crossed no failed edge, and the path changes at most once per failure not known yet. */
  lemma {:induction false} DeliveryIsLive(g: Graph, dst: Vertex, recs: Records, F: set<Edge>, n: Name)
    requires WellFormed(g) && ValidRecords(g, dst, recs) && n in recs && recs[n].path.failedE <= F
    ensures Delivery(g, dst, recs, F, n).Some? ==>
              LivePath(g, F, recs[n].path.v, dst, Delivery(g, dst, recs, F, n).value)
    ensures Changes(g, dst, recs, F, n) + |n.breaks| <= |F|
    decreases |F| - |n.breaks|
  {
    var p := recs[n].path;
    var i := FirstFail(g, p.v, p.hops, F);
    RecordRoute(g, dst, recs, n);
    SubsetSize(p.failedE, F);
    if i < |p.hops| && Child(n, i) in recs {
      ChildRecord(g, dst, recs, n, i);
      RecordRoute(g, dst, recs, Child(n, i));
      SubsetSize(recs[Child(n, i)].path.failedE, F);
      DeliveryIsLive(g, dst, recs, F, Child(n, i));
      if Delivery(g, dst, recs, F, Child(n, i)).Some? {
        LivePrefix(g, p, F);
        LiveConcat(g, F, p.v, VertexAt(g, p.v, p.hops, i), dst, p.hops[..i], Delivery(g, dst, recs, F, Child(n, i)).value);
      }
    }
  }

  /** The hops before the first failure are live. */
  lemma LivePrefix(g: Graph, p: Path, F: set<Edge>)
    requires WellFormed(g) && ValidHops(g, p.v, p.hops)
    ensures var i := FirstFail(g, p.v, p.hops, F);
      LivePath(g, F, p.v, VertexAt(g, p.v, p.hops, i), p.hops[..i])
  {
    var i := FirstFail(g, p.v, p.hops, F);
    HopsPrefix(g, p.v, p.hops, i);
    assert p.hops == p.hops[..i] + p.hops[i..];
    forall k | 0 <= k < i ensures EdgeAt(g, p.v, p.hops[..i], k) !in F {
      AtConcat(g, p.v, p.hops[..i], p.hops[i..], k);
    }
  }

  /** A packet that finds hop `i` down may go back the way it came: where it stands is still connected, even by a way round its known failures. */
  lemma ConnectedAtBreak(g: Graph, dst: Vertex, recs: Records, F: set<Edge>, n: Name, i: nat)
    requires WellFormed(g) && ValidRecords(g, dst, recs) && n in recs && recs[n].path.failedE <= F
    requires Connected(g, F, recs[n].path.v, dst)
    requires i == FirstFail(g, recs[n].path.v, recs[n].path.hops, F) < |recs[n].path.hops|
    ensures DepKey(g, recs[n].path, i) <= F && |DepKey(g, recs[n].path, i)| == |n.breaks| + 1
    ensures Connected(g, F, VertexAt(g, recs[n].path.v, recs[n].path.hops, i), dst)
    ensures Connected(g, DepKey(g, recs[n].path, i), VertexAt(g, recs[n].path.v, recs[n].path.hops, i), dst)
  {
    hide HasParent, IsInitial, Simple, WellFormed;
    var p := recs[n].path;
    var v := VertexAt(g, p.v, p.hops, i);
    RecordRoute(g, dst, recs, n);
    LivePrefix(g, p, F);
    ReverseLive(g, F, p.v, p.hops[..i]);
    var rest :| LivePath(g, F, p.v, dst, rest);
    LiveConcat(g, F, v, p.v, dst, RevHops(g, p.v, p.hops[..i]), rest);
    assert EdgeAt(g, p.v, p.hops, i) !in p.failedE;
    assert LivePath(g, DepKey(g, p, i), v, dst, RevHops(g, p.v, p.hops[..i]) + rest);
  }

  /**
   Resilience: tables of `rounds` rounds deliver under every set of at most that many failures that leaves the
   packet's switch connected to the destination.
   */
  lemma {:induction false} Resilience(g: Graph, dst: Vertex, recs: Records, rounds: nat, F: set<Edge>, n: Name)
    requires WellFormed(g) && ValidRecords(g, dst, recs) && Complete(g, dst, recs, rounds)
    requires n in recs && recs[n].path.failedE <= F && |F| <= rounds
    requires Connected(g, F, recs[n].path.v, dst)
    ensures Delivery(g, dst, recs, F, n).Some?
    decreases |F| - |n.breaks|
  {
    var p := recs[n].path;
    var i := FirstFail(g, p.v, p.hops, F);
    RecordRoute(g, dst, recs, n);
    SubsetSize(p.failedE, F);
    if i < |p.hops| {
      hide Simple, LivePath, Avoids, HasParent, IsInitial;
      ConnectedAtBreak(g, dst, recs, F, n, i);
      SubsetSize(DepKey(g, p, i), F);
      assert Handled(g, dst, recs, n, i);
      ChildRecord(g, dst, recs, n, i);
      RecordRoute(g, dst, recs, Child(n, i));
      Resilience(g, dst, recs, rounds, F, Child(n, i));
    }
  }

  // ---------- Table consistency ----------

  /** An entry is used when its uplink is up and all the failures it was computed for at this switch are there. */
  predicate Matches(uplink: Edge, local: set<Edge>, localFailedE: set<Edge>) {
    uplink !in localFailedE && local <= localFailedE
  }

  ghost predicate SameState(recs: Records, a: Name, b: Name)
    requires a in recs && b in recs
  {
    recs[a].path.v == recs[b].path.v && recs[a].path.extraRPath == recs[b].path.extraRPath
  }

  /** In every state of the ports at most one entry of a switch and reverse path matches. */
  lemma AtMostOneMatch(g: Graph, dst: Vertex, recs: Records, a: Name, b: Name, local: set<Edge>)
    requires WellFormed(g) && ValidRecords(g, dst, recs) && a in recs && b in recs && SameState(recs, a, b)
    requires Matches(KeyOf(g, recs[a].path).uplink, KeyOf(g, recs[a].path).local, local)
    requires Matches(KeyOf(g, recs[b].path).uplink, KeyOf(g, recs[b].path).local, local)
    ensures a == b
  {
    if a != b {
      SameRouteComparable(g, dst, recs, a, b);
      if ProperPrefix(a, b) {
        SameRouteChain(g, dst, recs, a, b);
      } else {
        SameRouteChain(g, dst, recs, b, a);
      }
    }
  }

  ghost predicate UsedUnder(g: Graph, recs: Records, F: set<Edge>, b: Name)
    requires WellFormed(g) && b in recs && ValidHops(g, recs[b].path.v, recs[b].path.hops) && recs[b].path.hops != []
  {
    var k := KeyOf(g, recs[b].path);
    Matches(k.uplink, k.local, LocalFailed(g, k.v, F))
  }

  lemma LocalMonotone(g: Graph, v: Vertex, A: set<Edge>, B: set<Edge>)
    requires A <= B
    ensures LocalFailed(g, v, A) <= LocalFailed(g, v, B)
  {
  }

  lemma UplinkLocal(g: Graph, p: Path, F: set<Edge>)
    requires WellFormed(g) && ValidHops(g, p.v, p.hops) && p.hops != []
    ensures EdgeAt(g, p.v, p.hops, 0) in LocalFailed(g, p.v, F) <==> EdgeAt(g, p.v, p.hops, 0) in F
    ensures FirstFail(g, p.v, p.hops, F) == 0 <==> EdgeAt(g, p.v, p.hops, 0) in F
  {
    var e := EdgeAt(g, p.v, p.hops, 0);
  }

  /** The record that takes over from `n` when its first hop is down waits for packets in the same state. */
  lemma FirstHopBackup(g: Graph, dst: Vertex, recs: Records, F: set<Edge>, n: Name)
    requires WellFormed(g) && ValidRecords(g, dst, recs) && Child(n, 0) in recs
    ensures n in recs && SameState(recs, n, Child(n, 0))
    ensures recs[n].path.failedE <= F && EdgeAt(g, recs[n].path.v, recs[n].path.hops, 0) in F ==> recs[Child(n, 0)].path.failedE <= F
  {
    ChildRecord(g, dst, recs, n, 0);
  }

  /** The entry that matches carries on exactly as the path in force was meant to. */
  lemma {:induction false} MatchIsDelivery(g: Graph, dst: Vertex, recs: Records, F: set<Edge>, n: Name, b: Name)
    requires WellFormed(g) && ValidRecords(g, dst, recs) && n in recs && b in recs && SameState(recs, n, b)
    requires recs[n].path.failedE <= F && UsedUnder(g, recs, F, b)
    ensures recs[b].path.failedE <= F && Delivery(g, dst, recs, F, n) == Delivery(g, dst, recs, F, b)
    ensures b != n ==> FirstFail(g, recs[n].path.v, recs[n].path.hops, F) == 0
    ensures |n.breaks| <= |b.breaks| && n.src == b.src
    decreases |b.breaks| - |n.breaks|
  {
    if n != b {
      UplinkLocal(g, recs[n].path, F);
      UplinkLocal(g, recs[b].path, F);
      LocalMonotone(g, recs[n].path.v, recs[n].path.failedE, F);
      SameRouteComparable(g, dst, recs, n, b);
      if ProperPrefix(b, n) {
        SameRouteChain(g, dst, recs, b, n);
      } else {
        SameRouteChain(g, dst, recs, n, b);
        NextBreakIsZero(g, dst, recs, n, b);
        FirstHopBackup(g, dst, recs, F, n);
        MatchIsDelivery(g, dst, recs, F, Child(n, 0), b);
        FollowFirstBreak(g, dst, recs, F, n);
      }
    }
  }

  lemma NextBreakIsZero(g: Graph, dst: Vertex, recs: Records, n: Name, b: Name)
    requires WellFormed(g) && ValidRecords(g, dst, recs) && n in recs && b in recs && SameState(recs, n, b) && ProperPrefix(n, b)
    ensures Child(n, 0) in recs && (Child(n, 0) == b || ProperPrefix(Child(n, 0), b))
  {
    RecordRoute(g, dst, recs, n);
    RecordRoute(g, dst, recs, b);
    RevHopsInjective(g, n.src, recs[n].route, b.src, recs[b].route);
    DescendantDiverges(g, dst, recs, n, b);
    PrefixChild(g, dst, recs, n, b);
  }

  /** Names between two records are records. */
  lemma PrefixChild(g: Graph, dst: Vertex, recs: Records, n: Name, b: Name)
    requires WellFormed(g) && ValidRecords(g, dst, recs) && b in recs && ProperPrefix(n, b)
    ensures var c := Child(n, b.breaks[|n.breaks|]);
      c in recs && (c == b || ProperPrefix(c, b))
  {
    var c := Child(n, b.breaks[|n.breaks|]);
    assert c.breaks == b.breaks[..|n.breaks| + 1];
    if |c.breaks| < |b.breaks| {
      DescendantDiverges(g, dst, recs, c, b);
    } else {
      assert c.breaks == b.breaks;
    }
  }

  function Prepend(a: seq<Port>, r: Option<seq<Port>>): Option<seq<Port>> {
    if r.Some? then Some(a + r.value) else None
  }

  lemma PrependTwice(a: seq<Port>, b: seq<Port>, r: Option<seq<Port>>)
    ensures Prepend(a, Prepend(b, r)) == Prepend(a + b, r)
  {
    if r.Some? {
      assert a + (b + r.value) == a + b + r.value;
    }
  }

  lemma FollowBreak(g: Graph, dst: Vertex, recs: Records, F: set<Edge>, n: Name)
    requires WellFormed(g) && ValidRecords(g, dst, recs) && n in recs && recs[n].path.failedE <= F
    requires FirstFail(g, recs[n].path.v, recs[n].path.hops, F) < |recs[n].path.hops|
    requires Child(n, FirstFail(g, recs[n].path.v, recs[n].path.hops, F)) in recs
    ensures var i := FirstFail(g, recs[n].path.v, recs[n].path.hops, F);
      && recs[Child(n, i)].path.failedE <= F
      && Delivery(g, dst, recs, F, n) == Prepend(recs[n].path.hops[..i], Delivery(g, dst, recs, F, Child(n, i)))
  {
    ChildRecord(g, dst, recs, n, FirstFail(g, recs[n].path.v, recs[n].path.hops, F));
  }

  lemma FollowFirstBreak(g: Graph, dst: Vertex, recs: Records, F: set<Edge>, n: Name)
    requires WellFormed(g) && ValidRecords(g, dst, recs) && n in recs && Child(n, 0) in recs
    requires recs[n].path.failedE <= F && recs[Child(n, 0)].path.failedE <= F
    requires FirstFail(g, recs[n].path.v, recs[n].path.hops, F) == 0
    ensures Delivery(g, dst, recs, F, n) == Delivery(g, dst, recs, F, Child(n, 0))
  {
    FollowBreak(g, dst, recs, F, n);
    var d := Delivery(g, dst, recs, F, Child(n, 0));
    assert d.Some? ==> recs[n].path.hops[..0] + d.value == d.value;
  }

  /** When no entry matches, the packet was not to be delivered. */
  lemma {:induction false} NoMatchIsDrop(g: Graph, dst: Vertex, recs: Records, F: set<Edge>, n: Name)
    requires WellFormed(g) && ValidRecords(g, dst, recs) && n in recs && recs[n].path.failedE <= F
    requires forall b <- recs :: SameState(recs, n, b) ==> !UsedUnder(g, recs, F, b)
    ensures Delivery(g, dst, recs, F, n).None?
    decreases |F| - |n.breaks|
  {
    UplinkLocal(g, recs[n].path, F);
    LocalMonotone(g, recs[n].path.v, recs[n].path.failedE, F);
    assert !UsedUnder(g, recs, F, n);
    if Child(n, 0) in recs {
      RecordRoute(g, dst, recs, n);
      SubsetSize(recs[n].path.failedE, F);
      FirstHopBackup(g, dst, recs, F, n);
      RecordRoute(g, dst, recs, Child(n, 0));
      SubsetSize(recs[Child(n, 0)].path.failedE, F);
      NoMatchIsDrop(g, dst, recs, F, Child(n, 0));
      FollowFirstBreak(g, dst, recs, F, n);
    }
  }

  /** The entries of that state belong to one way from one source. */
  lemma BreakRoute(g: Graph, dst: Vertex, recs: Records, b: Name, j: nat, c: Name)
    requires WellFormed(g) && ValidRecords(g, dst, recs) && b in recs && c in recs && 0 < j < |recs[b].path.hops|
    requires recs[c].path.v == BreakAt(g, recs[b].path, j).v && recs[c].path.extraRPath == BreakAt(g, recs[b].path, j).extraRPath
    ensures b.src == c.src && |recs[c].route| == |recs[b].route| + j
    ensures recs[c].route == FullRoute(recs[b])[..|recs[c].route|] == FullRoute(recs[c])[..|recs[c].route|]
  {
    hide HasParent, IsInitial, Simple;
    var rb, rc := recs[b], recs[c];
    RecordRoute(g, dst, recs, b);
    RecordRoute(g, dst, recs, c);
    HopsPrefix(g, rb.path.v, rb.path.hops, j);
    HopsConcat(g, b.src, rb.route, rb.path.hops[..j]);
    RevHopsInjective(g, c.src, rc.route, b.src, rb.route + rb.path.hops[..j]);
  }

  /** A packet that leaves `b` at hop `j > 0` finds entries only if a backup was installed for that break. */
  lemma NoOrphans(g: Graph, dst: Vertex, recs: Records, b: Name, j: nat, c: Name)
    requires WellFormed(g) && ValidRecords(g, dst, recs) && b in recs && c in recs && 0 < j < |recs[b].path.hops|
    requires recs[c].path.v == BreakAt(g, recs[b].path, j).v && recs[c].path.extraRPath == BreakAt(g, recs[b].path, j).extraRPath
    ensures Child(b, j) in recs
  {
    var rb, rc := recs[b], recs[c];
    BreakRoute(g, dst, recs, b, j, c);
    hide Simple, LivePath, Avoids, WellFormed;
    if ProperPrefix(c, b) {
      DescendantDiverges(g, dst, recs, c, b);
    } else if ProperPrefix(b, c) {
      DescendantDiverges(g, dst, recs, b, c);
      var i := c.breaks[|b.breaks|];
      PrefixThrough(FullRoute(rc), FullRoute(rb), if i < j then |rb.route| + i else 0, |rc.route|);
      PrefixChild(g, dst, recs, b, c);
    } else {
      var d := SplitPoint(b, c);
      DescendantDiverges(g, dst, recs, d, b);
      DescendantDiverges(g, dst, recs, d, c);
      NoSplit(g, recs[d], b.breaks[|d.breaks|], rb, c.breaks[|d.breaks|], rc);
    }
  }

  lemma NoSplit(g: Graph, d: Record, i: nat, b: Record, k: nat, c: Record)
    requires WellFormed(g) && ValidHops(g, d.path.v, d.path.hops) && i != k
    requires DivergesAt(g, d, i, b) && DivergesAt(g, d, k, c)
    requires |b.route| <= |c.route| <= |FullRoute(b)|
    ensures FullRoute(c)[..|c.route|] != FullRoute(b)[..|c.route|]
  {
    var m := |d.route| + if i < k then i else k;
    var M := |d.route| + if i < k then k else i;
    if i < k {
      PrefixThrough(FullRoute(c), FullRoute(d), m, M);
    } else {
      PrefixThrough(FullRoute(b), FullRoute(d), m, M);
    }
    assert FullRoute(c)[..|c.route|][m] == FullRoute(c)[m];
    assert FullRoute(b)[..|c.route|][m] == FullRoute(b)[m];
  }

  // ---------- The walk over grouped tables ----------

  datatype Entry = Entry(uplink: Edge, local: set<Edge>, out: seq<Port>)

  type GroupedTable = map<(Vertex, seq<Port>), seq<Entry>>

  function KeyOfEntry(s: (Vertex, seq<Port>), e: Entry): Key {
    Key(s.0, s.1, e.uplink, e.local)
  }

  /** `t` lists every entry of `table`, once, under its switch and reverse path. */
  ghost predicate Grouped(table: Table, t: GroupedTable) {
    && (forall k <- table :: (k.v, k.rp) in t && Entry(k.uplink, k.local, table[k].hops) in t[(k.v, k.rp)])
    && (forall s <- t :: forall e <- t[s] :: KeyOfEntry(s, e) in table && table[KeyOfEntry(s, e)].hops == e.out)
    && (forall s <- t :: forall i, j | 0 <= i < j < |t[s]| :: t[s][i] != t[s][j])
  }

  lemma GroupOne(seen: Table, t: GroupedTable, k: Key, path: Path)
    requires Grouped(seen, t) && k !in seen
    ensures var s := (k.v, k.rp);
      Grouped(seen[k := path], t[s := (if s in t then t[s] else []) + [Entry(k.uplink, k.local, path.hops)]])
  {
    var s, e := (k.v, k.rp), Entry(k.uplink, k.local, path.hops);
    var t' := t[s := (if s in t then t[s] else []) + [e]];
    assert KeyOfEntry(s, e) == k;
    assert forall x <- t' :: x != s ==> x in t && t'[x] == t[x];
    forall x <- t', y <- t'[x] ensures KeyOfEntry(x, y) in seen[k := path] && seen[k := path][KeyOfEntry(x, y)].hops == y.out {
      assert (x in t && y in t[x]) || (x == s && y == e);
    }
  }

  /** Reads a written table back, entry by entry in whatever order they were written. */
  method GroupEntries(table: Table) returns (t: GroupedTable)
    ensures Grouped(table, t)
  {
    t := map[];
    var todo := table.Keys;
    while todo != {}
      invariant todo <= table.Keys
      invariant Grouped(map k <- table | k !in todo :: table[k], t)
    {
      hide Grouped;
      var k :| k in todo;
      var s := (k.v, k.rp);
      GroupOne(map k <- table | k !in todo :: table[k], t, k, table[k]);
      assert (map k <- table | k !in todo :: table[k])[k := table[k]] == map x <- table | x !in todo - {k} :: table[x];
      t := t[s := (if s in t then t[s] else []) + [Entry(k.uplink, k.local, table[k].hops)]];
      todo := todo - {k};
    }
    assert table == map k <- table | k !in todo :: table[k];
  }

  /** The records whose entries a packet in state `(v, rp)` finds. */
  ghost predicate At(recs: Records, n: Name, v: Vertex, rp: seq<Port>) {
    n in recs && recs[n].path.v == v && recs[n].path.extraRPath == rp
  }

  /** What the walk is meant to do with a packet that enters at `src`. */
  ghost function Intended(g: Graph, dst: Vertex, recs: Records, F: set<Edge>, src: Vertex): Option<seq<Port>>
    requires WellFormed(g) && ValidRecords(g, dst, recs)
  {
    if src == dst then Some([])
    else if Name(src, []) in recs then Delivery(g, dst, recs, F, Name(src, []))
    else None
  }

  /** The packet meets a failure on its initial path. */
  ghost predicate InitialPathFails(g: Graph, dst: Vertex, recs: Records, F: set<Edge>, src: Vertex)
    requires WellFormed(g) && ValidRecords(g, dst, recs)
  {
    Name(src, []) in recs &&
    var p := recs[Name(src, [])].path;
    FirstFail(g, p.v, p.hops, F) < |p.hops|
  }

  ghost predicate TableGood(g: Graph, dst: Vertex, recs: Records, table: Table, t: GroupedTable) {
    WellFormed(g) && ValidRecords(g, dst, recs) && TableOf(g, table, recs) && Grouped(table, t)
  }

  lemma EntryListed(table: Table, t: GroupedTable, s: (Vertex, seq<Port>), e: Entry)
    requires Grouped(table, t) && s in t && e in t[s]
    ensures KeyOfEntry(s, e) in table && table[KeyOfEntry(s, e)].hops == e.out
  {
  }

  lemma TableRecord(g: Graph, dst: Vertex, recs: Records, table: Table, k: Key) returns (n: Name)
    requires WellFormed(g) && ValidRecords(g, dst, recs) && TableOf(g, table, recs) && k in table
    ensures n in recs && KeyOf(g, recs[n].path) == k && recs[n].path == table[k]
  {
    n :| n in recs && KeyOf(g, recs[n].path) == k;
  }

  /** Every listed entry is the entry of a record in the packet's state. */
  lemma EntryRecord(g: Graph, dst: Vertex, recs: Records, table: Table, t: GroupedTable, s: (Vertex, seq<Port>), e: Entry)
    returns (n: Name)
    requires WellFormed(g) && ValidRecords(g, dst, recs) && TableOf(g, table, recs)
    requires Grouped(table, t) && s in t && e in t[s]
    ensures Picks(g, recs, s.0, s.1, e, n)
  {
    EntryListed(table, t, s, e);
    hide Grouped;
    n := TableRecord(g, dst, recs, table, KeyOfEntry(s, e));
  }

  lemma KeyListed(table: Table, t: GroupedTable, k: Key)
    requires Grouped(table, t) && k in table
    ensures (k.v, k.rp) in t && Entry(k.uplink, k.local, table[k].hops) in t[(k.v, k.rp)]
  {
  }

  lemma RecordKey(g: Graph, dst: Vertex, recs: Records, table: Table, n: Name)
    requires WellFormed(g) && ValidRecords(g, dst, recs) && TableOf(g, table, recs) && n in recs
    ensures KeyOf(g, recs[n].path) in table && table[KeyOf(g, recs[n].path)] == recs[n].path
  {
  }

  lemma ListedOnce(table: Table, t: GroupedTable, s: (Vertex, seq<Port>), i: nat, e: Entry)
    requires Grouped(table, t) && s in t && i < |t[s]| && e in t[s][..i]
    ensures KeyOfEntry(s, t[s][i]) != KeyOfEntry(s, e)
  {
    var j :| 0 <= j < i && t[s][j] == e;
    EntryListed(table, t, s, e);
    EntryListed(table, t, s, t[s][i]);
  }

  ghost predicate Picks(g: Graph, recs: Records, v: Vertex, rp: seq<Port>, e: Entry, b: Name)
    requires WellFormed(g)
  {
    && At(recs, b, v, rp)
    && ValidHops(g, recs[b].path.v, recs[b].path.hops) && recs[b].path.hops != []
    && KeyOf(g, recs[b].path) == KeyOfEntry((v, rp), e) && recs[b].path.hops == e.out
  }

  /** Picks the entry that matches the local failures; the assertion that there is no second one is the source's. */
  method PickEntry(g: Graph, ghost dst: Vertex, ghost recs: Records, ghost table: Table, t: GroupedTable,
                   v: Vertex, rp: seq<Port>, localFailedE: set<Edge>)
    returns (p: Option<Entry>, ghost b: Name)
    requires TableGood(g, dst, recs, table, t) && (v, rp) in t
    ensures p.Some? ==> Picks(g, recs, v, rp, p.value, b) && Matches(p.value.uplink, p.value.local, localFailedE)
    ensures p.None? ==> forall e <- t[(v, rp)] :: !Matches(e.uplink, e.local, localFailedE)
  {
    hide TableOf, Grouped, HasParent, GoodPath, LivePath;
    var outl := t[(v, rp)];
    p := None;
    b := Name(0, []);
    for i := 0 to |outl|
      invariant p.None? ==> forall j | 0 <= j < i :: !Matches(outl[j].uplink, outl[j].local, localFailedE)
      invariant p.Some? ==> p.value in outl[..i] && Matches(p.value.uplink, p.value.local, localFailedE)
      invariant p.Some? ==> Picks(g, recs, v, rp, p.value, b)
    {
      if Matches(outl[i].uplink, outl[i].local, localFailedE) {
        ghost var n := EntryRecord(g, dst, recs, table, t, (v, rp), outl[i]);
        RecordRoute(g, dst, recs, n);
        if p.Some? {
          ListedOnce(table, t, (v, rp), i, p.value);
          AtMostOneMatch(g, dst, recs, n, b, localFailedE);
          assert false;
        }
        p, b := Some(outl[i]), n;
      }
    }
  }

  /** Where a packet is with respect to the installed paths: delivered, about to use what was installed for `n`, or lost. */
  datatype Track = Done | On(n: Name) | Lost

  ghost predicate Tracks(g: Graph, dst: Vertex, recs: Records, F: set<Edge>, src: Vertex,
                         v: Vertex, rp: seq<Port>, hops: seq<Port>, failExp: bool, st: Track)
    requires WellFormed(g) && ValidRecords(g, dst, recs)
  {
    (v == dst <==> st == Done) &&
    match st
    case Done => Intended(g, dst, recs, F, src) == Some(hops) && (failExp <==> src != dst && InitialPathFails(g, dst, recs, F, src))
    case On(n) =>
      && At(recs, n, v, rp) && n.src == src && recs[n].path.failedE <= F
      && src != dst && Intended(g, dst, recs, F, src) == Prepend(hops, Delivery(g, dst, recs, F, n))
      && (failExp <==> n.breaks != []) && (failExp ==> InitialPathFails(g, dst, recs, F, src))
    case Lost => Intended(g, dst, recs, F, src).None? && forall c :: !At(recs, c, v, rp)
  }

  ghost function Rank(F: set<Edge>, st: Track): nat {
    match st
    case Done => 0
    case Lost => 1
    case On(n) => 2 + if |n.breaks| <= |F| then |F| - |n.breaks| else 0
  }

  /** Names of records are closed under dropping breaks, and a packet fresh from its host is in the state of an initial path. */
  lemma FreshPacket(g: Graph, dst: Vertex, recs: Records, F: set<Edge>, src: Vertex) returns (st: Track)
    requires WellFormed(g) && ValidRecords(g, dst, recs)
    ensures Tracks(g, dst, recs, F, src, src, [], [], false, st)
  {
    var n := Name(src, []);
    if src == dst {
      st := Done;
    } else if n in recs {
      st := On(n);
      var d := Delivery(g, dst, recs, F, n);
      assert d.Some? ==> [] + d.value == d.value;
    } else {
      st := Lost;
      forall c ensures !At(recs, c, src, []) {
        if At(recs, c, src, []) {
          RecordRoute(g, dst, recs, c);
          assert recs[c].route == [];
          if c.breaks != [] {
            DescendantDiverges(g, dst, recs, n, c);
          }
        }
      }
    }
  }

  lemma BackupHasLocal(g: Graph, dst: Vertex, recs: Records, b: Name)
    requires WellFormed(g) && ValidRecords(g, dst, recs) && b in recs
    ensures KeyOf(g, recs[b].path).local == {} <==> b.breaks == []
  {
    if b.breaks != [] {
      assert HasParent(g, recs, b);
      BreakPoint(g, dst, recs[Parent(b)].path, b.breaks[|b.breaks| - 1]);
    }
  }

  /** Picking the matching entry puts the packet on the path of that entry. */
  lemma PickTracks(g: Graph, dst: Vertex, recs: Records, F: set<Edge>, src: Vertex,
                   v: Vertex, rp: seq<Port>, hops: seq<Port>, failExp: bool, n: Name, b: Name)
    requires WellFormed(g) && ValidRecords(g, dst, recs) && Tracks(g, dst, recs, F, src, v, rp, hops, failExp, On(n))
    requires At(recs, b, v, rp) && UsedUnder(g, recs, F, b)
    ensures Tracks(g, dst, recs, F, src, v, rp, hops, failExp || KeyOf(g, recs[b].path).local != {}, On(b))
    ensures 0 < FirstFail(g, v, recs[b].path.hops, F) && Rank(F, On(b)) <= Rank(F, On(n))
  {
    MatchIsDelivery(g, dst, recs, F, n, b);
    BackupHasLocal(g, dst, recs, b);
    UplinkLocal(g, recs[b].path, F);
    if b != n && n.breaks == [] {
      assert n == Name(src, []);
    }
  }

  /** One segment of the walk: the packet follows its path to the end or to the first failure. */
  lemma SegmentTracks(g: Graph, dst: Vertex, recs: Records, F: set<Edge>, src: Vertex,
                      v: Vertex, rp: seq<Port>, hops: seq<Port>, failExp: bool, b: Name) returns (st: Track)
    requires WellFormed(g) && ValidRecords(g, dst, recs) && Tracks(g, dst, recs, F, src, v, rp, hops, failExp, On(b))
    requires 0 < FirstFail(g, v, recs[b].path.hops, F)
    ensures var i := FirstFail(g, v, recs[b].path.hops, F);
      && ValidHops(g, v, recs[b].path.hops[..i])
      && Tracks(g, dst, recs, F, src, VertexAt(g, v, recs[b].path.hops, i), RevHops(g, v, recs[b].path.hops[..i]) + rp,
                hops + recs[b].path.hops[..i], failExp || VertexAt(g, v, recs[b].path.hops, i) != dst, st)
    ensures Rank(F, st) < Rank(F, On(b))
  {
    hide Tracks, ValidRecords, Delivery, Simple, Avoids, LivePath;
    var i := PrefixOnTrack(g, dst, recs, F, src, v, rp, hops, failExp, b);
    if i == |recs[b].path.hops| {
      DoneTracks(g, dst, recs, F, src, v, rp, hops, failExp, b);
      st := Done;
    } else if Child(b, i) in recs {
      st := On(Child(b, i));
      BackupTracks(g, dst, recs, F, src, v, rp, hops, failExp, b, i);
    } else {
      st := Lost;
      LostTracks(g, dst, recs, F, src, v, rp, hops, failExp, b, i);
    }
  }

  lemma PrefixOnTrack(g: Graph, dst: Vertex, recs: Records, F: set<Edge>, src: Vertex,
                      v: Vertex, rp: seq<Port>, hops: seq<Port>, failExp: bool, b: Name) returns (i: nat)
    requires WellFormed(g) && ValidRecords(g, dst, recs) && Tracks(g, dst, recs, F, src, v, rp, hops, failExp, On(b))
    ensures b in recs && v == recs[b].path.v && ValidHops(g, v, recs[b].path.hops)
    ensures i == FirstFail(g, v, recs[b].path.hops, F) && ValidHops(g, v, recs[b].path.hops[..i])
    ensures i < |recs[b].path.hops| ==> VertexAt(g, v, recs[b].path.hops, i) != dst
    ensures |b.breaks| <= |F|
    ensures i < |recs[b].path.hops| && Child(b, i) in recs ==> |b.breaks| + 1 <= |F|
  {
    var p := recs[b].path;
    i := FirstFail(g, v, p.hops, F);
    HopsPrefix(g, v, p.hops, i);
    RecordRoute(g, dst, recs, b);
    SubsetSize(p.failedE, F);
    if i < |p.hops| {
      BreakPoint(g, dst, p, i);
      if Child(b, i) in recs {
        FollowBreak(g, dst, recs, F, b);
        RecordRoute(g, dst, recs, Child(b, i));
        SubsetSize(recs[Child(b, i)].path.failedE, F);
      }
    }
  }

  /** A break without a backup leaves the packet where no entry matches it. */
  lemma LostTracks(g: Graph, dst: Vertex, recs: Records, F: set<Edge>, src: Vertex,
                   v: Vertex, rp: seq<Port>, hops: seq<Port>, failExp: bool, b: Name, i: nat)
    requires WellFormed(g) && ValidRecords(g, dst, recs) && Tracks(g, dst, recs, F, src, v, rp, hops, failExp, On(b))
    requires i == FirstFail(g, v, recs[b].path.hops, F) && 0 < i < |recs[b].path.hops| && Child(b, i) !in recs
    requires ValidHops(g, v, recs[b].path.hops[..i])
    ensures Tracks(g, dst, recs, F, src, VertexAt(g, v, recs[b].path.hops, i), RevHops(g, v, recs[b].path.hops[..i]) + rp,
                   hops + recs[b].path.hops[..i], true, Lost)
  {
    var u, rp' := VertexAt(g, v, recs[b].path.hops, i), RevHops(g, v, recs[b].path.hops[..i]) + rp;
    BreakPoint(g, dst, recs[b].path, i);
    forall c ensures !At(recs, c, u, rp') {
      if At(recs, c, u, rp') {
        NoOrphans(g, dst, recs, b, i, c);
      }
    }
  }

  lemma DoneTracks(g: Graph, dst: Vertex, recs: Records, F: set<Edge>, src: Vertex,
                   v: Vertex, rp: seq<Port>, hops: seq<Port>, failExp: bool, b: Name)
    requires WellFormed(g) && ValidRecords(g, dst, recs) && Tracks(g, dst, recs, F, src, v, rp, hops, failExp, On(b))
    requires FirstFail(g, v, recs[b].path.hops, F) == |recs[b].path.hops|
    ensures var p := recs[b].path;
      && p.hops[..|p.hops|] == p.hops && ValidHops(g, v, p.hops) && VertexAt(g, v, p.hops, |p.hops|) == dst
      && Tracks(g, dst, recs, F, src, dst, RevHops(g, v, p.hops) + rp, hops + p.hops, failExp, Done)
  {
    var p := recs[b].path;
    HopsPrefix(g, v, p.hops, |p.hops|);
    assert p.hops[..|p.hops|] == p.hops;
  }

  lemma BackupTracks(g: Graph, dst: Vertex, recs: Records, F: set<Edge>, src: Vertex,
                     v: Vertex, rp: seq<Port>, hops: seq<Port>, failExp: bool, b: Name, i: nat)
    requires WellFormed(g) && ValidRecords(g, dst, recs) && Tracks(g, dst, recs, F, src, v, rp, hops, failExp, On(b))
    requires i == FirstFail(g, v, recs[b].path.hops, F) && i < |recs[b].path.hops| && Child(b, i) in recs
    requires ValidHops(g, v, recs[b].path.hops[..i])
    ensures Tracks(g, dst, recs, F, src, VertexAt(g, v, recs[b].path.hops, i), RevHops(g, v, recs[b].path.hops[..i]) + rp,
                   hops + recs[b].path.hops[..i], true, On(Child(b, i)))
  {
    var p := recs[b].path;
    BreakPoint(g, dst, p, i);
    ChildRecord(g, dst, recs, b, i);
    FollowBreak(g, dst, recs, F, b);
    assert b.breaks == [] ==> b == Name(src, []);
    hide Delivery, HasParent, LivePath, Simple;
    PrependTwice(hops, p.hops[..i], Delivery(g, dst, recs, F, Child(b, i)));
  }

  lemma OnTrack(g: Graph, dst: Vertex, recs: Records, F: set<Edge>, src: Vertex,
                v: Vertex, rp: seq<Port>, hops: seq<Port>, failExp: bool, st: Track, b: Name)
    requires WellFormed(g) && ValidRecords(g, dst, recs) && Tracks(g, dst, recs, F, src, v, rp, hops, failExp, st)
    requires v != dst && At(recs, b, v, rp)
    ensures st.On?
  {
  }

  lemma DeliveredTracks(g: Graph, dst: Vertex, recs: Records, F: set<Edge>, src: Vertex,
                        rp: seq<Port>, hops: seq<Port>, failExp: bool, st: Track)
    requires WellFormed(g) && ValidRecords(g, dst, recs) && Tracks(g, dst, recs, F, src, dst, rp, hops, failExp, st)
    ensures Intended(g, dst, recs, F, src) == Some(hops)
    ensures failExp <==> src != dst && InitialPathFails(g, dst, recs, F, src)
  {
  }

  /** A packet for which no entry matches was meant to be dropped. */
  lemma DropTracks(g: Graph, dst: Vertex, recs: Records, table: Table, t: GroupedTable, F: set<Edge>, src: Vertex,
                   v: Vertex, rp: seq<Port>, hops: seq<Port>, failExp: bool, st: Track)
    requires WellFormed(g) && ValidRecords(g, dst, recs) && TableOf(g, table, recs) && Grouped(table, t)
    requires Tracks(g, dst, recs, F, src, v, rp, hops, failExp, st) && v != dst
    requires (v, rp) in t ==> forall e <- t[(v, rp)] :: !Matches(e.uplink, e.local, LocalFailed(g, v, F))
    ensures Intended(g, dst, recs, F, src).None?
  {
    hide TableOf, Grouped;
    if st.On? {
      forall b <- recs | SameState(recs, st.n, b) ensures !UsedUnder(g, recs, F, b) {
        RecordKey(g, dst, recs, table, b);
        KeyListed(table, t, KeyOf(g, recs[b].path));
      }
      NoMatchIsDrop(g, dst, recs, F, st.n);
    }
  }

  /** What a packet goes when it follows one installed path after the other, each up to its first failure. */
  ghost function Segments(g: Graph, dst: Vertex, recs: Records, F: set<Edge>, used: seq<Name>): seq<Port>
    requires WellFormed(g) && ValidRecords(g, dst, recs) && forall n <- used :: n in recs
  {
    if used == [] then []
    else
      var n := used[|used| - 1];
      var p := recs[n].path;
      Segments(g, dst, recs, F, used[..|used| - 1]) + p.hops[..FirstFail(g, p.v, p.hops, F)]
  }

  lemma NextSegment(g: Graph, dst: Vertex, recs: Records, F: set<Edge>, used: seq<Name>, b: Name)
    requires WellFormed(g) && ValidRecords(g, dst, recs) && b in recs && forall n <- used :: n in recs
    ensures forall n <- used + [b] :: n in recs
    ensures var p := recs[b].path;
      Segments(g, dst, recs, F, used + [b]) == Segments(g, dst, recs, F, used) + p.hops[..FirstFail(g, p.v, p.hops, F)]
  {
    assert (used + [b])[..|used|] == used;
  }

  /** The paths followed so far: there is a failure for each change of paths to come. */
  ghost predicate Followed(g: Graph, dst: Vertex, recs: Records, F: set<Edge>, used: seq<Name>, taken: seq<Port>, st: Track)
    requires WellFormed(g) && ValidRecords(g, dst, recs)
  {
    && (forall n <- used :: n in recs) && taken == Segments(g, dst, recs, F, used)
    && if st.On? then |used| + Rank(F, st) <= |F| + 2 else |used| <= |F| + 1
  }

  lemma NothingFollowed(g: Graph, dst: Vertex, recs: Records, F: set<Edge>, st: Track)
    requires WellFormed(g) && ValidRecords(g, dst, recs)
    ensures Followed(g, dst, recs, F, [], [], st)
  {
  }

  lemma FewFollowed(g: Graph, dst: Vertex, recs: Records, F: set<Edge>, used: seq<Name>, taken: seq<Port>, st: Track)
    requires WellFormed(g) && ValidRecords(g, dst, recs) && Followed(g, dst, recs, F, used, taken, st)
    ensures |used| <= |F| + 1 && (forall n <- used :: n in recs) && taken == Segments(g, dst, recs, F, used)
  {
  }

  lemma FollowOne(g: Graph, dst: Vertex, recs: Records, F: set<Edge>, used: seq<Name>, taken: seq<Port>, st: Track, b: Name, st': Track)
    requires WellFormed(g) && ValidRecords(g, dst, recs) && Followed(g, dst, recs, F, used, taken, st) && st.On? && b in recs
    requires Rank(F, On(b)) <= Rank(F, st) && Rank(F, st') < Rank(F, On(b))
    ensures var p := recs[b].path;
      Followed(g, dst, recs, F, used + [b], taken + p.hops[..FirstFail(g, p.v, p.hops, F)], st')
  {
    NextSegment(g, dst, recs, F, used, b);
  }

  /**
   The packet goes the intended way, and a report of a failure comes with it exactly if its initial path has one; where
   nothing is intended it is dropped.
   */
  ghost predicate Outcome(g: Graph, dst: Vertex, hostPort: Port, recs: Records, src: Vertex, F: set<Edge>, hops: Option<seq<Port>>, failExp: bool)
    requires WellFormed(g) && ValidRecords(g, dst, recs)
  {
    match Intended(g, dst, recs, F, src)
    case None => hops == None && failExp
    case Some(route) => hops == Some(route + [hostPort]) && (failExp <==> src != dst && InitialPathFails(g, dst, recs, F, src))
  }

  /**
   The walk of a packet under the failures `F`; the last hop, to the host, never fails. The packet follows at most one path
   more than there are failures, whether it is delivered or not.
   */
  method WalkPath(g: Graph, dst: Vertex, hostPort: Port, t: GroupedTable, src: Vertex, F: set<Edge>,
                  ghost recs: Records, ghost table: Table)
    returns (hops: Option<seq<Port>>, failExp: bool, ghost used: seq<Name>)
    requires TableGood(g, dst, recs, table, t)
    ensures |used| <= |F| + 1 && forall n <- used :: n in recs
    ensures hops.Some? ==> hops.value == Segments(g, dst, recs, F, used) + [hostPort]
    ensures Outcome(g, dst, hostPort, recs, src, F, hops, failExp)
  {
    hide TableOf, Grouped, HasParent, GoodPath, Tracks, Intended, InitialPathFails, EdgeAt, Followed, Segments, Rank;
    var taken, rp, v := [], [], src;
    used := [];
    failExp := false;
    ghost var st := FreshPacket(g, dst, recs, F, src);
    NothingFollowed(g, dst, recs, F, st);
    while v != dst
      invariant Tracks(g, dst, recs, F, src, v, rp, taken, failExp, st)
      invariant Followed(g, dst, recs, F, used, taken, st)
      decreases Rank(F, st)
    {
      var localFailedE := LocalFailed(g, v, F);
      if (v, rp) !in t {
        DropTracks(g, dst, recs, table, t, F, src, v, rp, taken, failExp, st);
        FewFollowed(g, dst, recs, F, used, taken, st);
        return None, true, used;
      }
      var p;
      ghost var b;
      p, b := PickEntry(g, dst, recs, table, t, v, rp, localFailedE);
      if p.None? {
        DropTracks(g, dst, recs, table, t, F, src, v, rp, taken, failExp, st);
        FewFollowed(g, dst, recs, F, used, taken, st);
        return None, true, used;
      }
      OnTrack(g, dst, recs, F, src, v, rp, taken, failExp, st, b);
      PickTracks(g, dst, recs, F, src, v, rp, taken, failExp, st.n, b);
      if p.value.local != {} {
        failExp := true;
      }
      ghost var st' := SegmentTracks(g, dst, recs, F, src, v, rp, taken, failExp, b);
      FollowOne(g, dst, recs, F, used, taken, st, b, st');
      st, used := st', used + [b];
      var nrp;
      v, nrp := RevPathAtFail(g, Path(v, p.value.out, {}, []), F);
      if v != dst {
        failExp := true;
      }
      taken := taken + p.value.out[..|nrp|];
      rp := nrp + rp;
    }
    DeliveredTracks(g, dst, recs, F, src, rp, taken, failExp, st);
    FewFollowed(g, dst, recs, F, used, taken, st);
    hops := Some(taken + [hostPort]);
  }

  /** Builds the tables of a destination and sends a packet through them. */
  method BuildAndSend(g: Graph, dst: Vertex, hostPort: Port, hosts: set<Vertex>, rounds: nat, oracle: Oracle, compressionAware: bool, dfr: bool,
                      src: Vertex, F: set<Edge>)
    returns (hops: Option<seq<Port>>, failExp: bool, ghost recs: Records, ghost used: seq<Name>, ghost log: seq<Name>)
    requires WellFormed(g) && GoodOracle(g, dst, oracle) && src in hosts
    ensures hops.Some? ==> exists route :: hops.value == route + [hostPort] && LivePath(g, F, src, dst, route)
    ensures ValidRecords(g, dst, recs) && |used| <= |F| + 1 && forall n <- used :: n in recs
    ensures hops.Some? ==> hops.value == Segments(g, dst, recs, F, used) + [hostPort]
    ensures |F| <= rounds && Connected(g, F, src, dst) ==> hops.Some?
    ensures Outcome(g, dst, hostPort, recs, src, F, hops, failExp) && (src != dst ==> (Name(src, []) in recs <==> Connected(g, {}, src, dst)))
    ensures (forall n <- recs :: |n.breaks| <= rounds && n.src in hosts) && Logged(g, oracle, Mode(compressionAware, dfr), recs, log)
  {
    hide TableOf, Grouped, HasParent, GoodPath, Logged;
    var builder := new Builder(g, dst, oracle, compressionAware, dfr);
    builder.Run(hosts, rounds);
    var t := GroupEntries(builder.fwdtable);
    recs, log := builder.recs, builder.log;
    hops, failExp, used := WalkPath(g, dst, hostPort, t, src, F, recs, builder.fwdtable);
    SentAsPromised(g, dst, recs, rounds, src, F);
    if hops.Some? {
      assert hops.value == Intended(g, dst, recs, F, src).value + [hostPort];
    }
  }

  lemma SentAsPromised(g: Graph, dst: Vertex, recs: Records, rounds: nat, src: Vertex, F: set<Edge>)
    requires WellFormed(g) && ValidRecords(g, dst, recs) && Complete(g, dst, recs, rounds)
    requires src != dst ==> (Name(src, []) in recs <==> Connected(g, {}, src, dst))
    ensures var r := Intended(g, dst, recs, F, src);
      && (r.Some? ==> LivePath(g, F, src, dst, r.value))
      && (|F| <= rounds && Connected(g, F, src, dst) ==> r.Some?)
  {
    if src != dst {
      if Connected(g, F, src, dst) {
        var way :| LivePath(g, F, src, dst, way);
        assert LivePath(g, {}, src, dst, way);
      }
      if Name(src, []) in recs {
        DeliveryIsLive(g, dst, recs, F, Name(src, []));
        if |F| <= rounds && Connected(g, F, src, dst) {
          Resilience(g, dst, recs, rounds, F, Name(src, []));
        }
      }
    }
  }
}
