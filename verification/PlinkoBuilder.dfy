/** The round loop that installs initial and backup paths for one destination (plinko model, source routing, edge failures). */
module PlinkoBuilder {
  import opened Wrappers
  import opened Topology
  import opened PlinkoPaths
  import opened PlinkoArcs
  import opened PlinkoChoice
  import opened FiniteSets

  type Table = map<Key, Path>
  type Dependencies = map<set<Edge>, seq<Path>>

  /** The library answers with a simple live path, and finds one whenever there is one. */
  ghost predicate GoodOracle(g: Graph, dst: Vertex, oracle: Oracle)
    requires WellFormed(g)
  {
    && (forall k, v, F :: oracle(k, v, F).Some? && v != dst ==>
          GoodPath(g, dst, Path(v, oracle(k, v, F).value, F, [])))
    && (forall k, v, F :: oracle(k, v, F).None? ==> !Connected(g, F, v, dst))
  }

  /** The index of the first hop that crosses `F`, or the length when there is none. */
  function FirstFail(g: Graph, v: Vertex, hops: seq<Port>, F: set<Edge>): (i: nat)
    requires WellFormed(g) && ValidHops(g, v, hops)
    ensures i <= |hops| && (i < |hops| ==> EdgeAt(g, v, hops, i) in F)
    ensures forall k | 0 <= k < i :: EdgeAt(g, v, hops, k) !in F
    decreases |hops|
  {
    if hops == [] then 0
    else
      assert EdgeAt(g, v, hops, 0) == g.ports[(v, hops[0])];
      if g.ports[(v, hops[0])] in F then 0
      else
        var f := Far(g, v, hops[0]).0;
        assert hops == [hops[0]] + hops[1..];
        assert forall k | 0 < k < |hops| :: EdgeAt(g, v, hops, k) == EdgeAt(g, f, hops[1..], k - 1) by {
          forall k | 0 < k < |hops| ensures EdgeAt(g, v, hops, k) == EdgeAt(g, f, hops[1..], k - 1) {
            AtConcat(g, v, [hops[0]], hops[1..], k);
          }
        }
        FirstFail(g, f, hops[1..], F) + 1
  }

  lemma RevHopsSnoc(g: Graph, path: Path, i: nat)
    requires WellFormed(g) && ValidHops(g, path.v, path.hops) && i < |path.hops|
    ensures ValidHops(g, path.v, path.hops[..i]) && ValidHops(g, path.v, path.hops[..i + 1])
    ensures var v := VertexAt(g, path.v, path.hops, i);
      && (v, path.hops[i]) in g.ports && VertexAt(g, path.v, path.hops, i + 1) == Far(g, v, path.hops[i]).0
      && RevHops(g, path.v, path.hops[..i + 1]) == [Far(g, v, path.hops[i]).1] + RevHops(g, path.v, path.hops[..i])
  {
    HopsPrefix(g, path.v, path.hops, i);
    HopsPrefix(g, path.v, path.hops, i + 1);
    assert path.hops[..i + 1] == path.hops[..i] + [path.hops[i]];
    HopsConcat(g, path.v, path.hops[..i], [path.hops[i]]);
    assert EdgeAt(g, path.v, path.hops, i) == g.ports[(VertexAt(g, path.v, path.hops, i), path.hops[i])];
  }

  /** Where a packet on `path` stands when the edges of `edges` are down, and the reverse of the hops it took. */
  method RevPathAtFail(g: Graph, path: Path, edges: set<Edge>) returns (v: Vertex, revpath: seq<Port>)
    requires WellFormed(g) && ValidHops(g, path.v, path.hops)
    ensures var i := FirstFail(g, path.v, path.hops, edges);
      && v == VertexAt(g, path.v, path.hops, i)
      && ValidHops(g, path.v, path.hops[..i])
      && revpath == RevHops(g, path.v, path.hops[..i])
  {
    var i := 0;
    v, revpath := path.v, [];
    ghost var stop := FirstFail(g, path.v, path.hops, edges);
    while i < |path.hops|
      invariant i <= stop && v == VertexAt(g, path.v, path.hops, i)
      invariant ValidHops(g, path.v, path.hops[..i])
      invariant Reversed(revpath) == RevHops(g, path.v, path.hops[..i])
    {
      var hop := path.hops[i];
      assert EdgeAt(g, path.v, path.hops, i) == g.ports[(v, hop)];
      if g.ports[(v, hop)] in edges {
        break;
      }
      var (nextv, revhop) := Far(g, v, hop);
      RevHopsSnoc(g, path, i);
      ReversedSnoc(revpath, revhop);
      revpath := revpath + [revhop];
      v := nextv;
      i := i + 1;
    }
    revpath := Reversed(revpath);
  }

  function Deps(deps: Dependencies, k: set<Edge>): seq<Path> {
    if k in deps then deps[k] else []
  }

  /** `edgeDeps` is listed for `path` when it is `base` and one edge of the path. */
  ghost predicate DependsOn(g: Graph, path: Path, base: set<Edge>, n: nat, k: set<Edge>)
    requires WellFormed(g) && ValidHops(g, path.v, path.hops) && n <= |path.hops|
  {
    exists i | 0 <= i < n :: k == base + {EdgeAt(g, path.v, path.hops, i)}
  }

  ghost predicate ListsAlso(g: Graph, deps: Dependencies, p: Path, base: set<Edge>, k: set<Edge>, deps': Dependencies)
    requires WellFormed(g) && ValidHops(g, p.v, p.hops)
  {
    Deps(deps', k) == Deps(deps, k) + if DependsOn(g, p, base, |p.hops|, k) then [p] else []
  }

  ghost function DepKeys(g: Graph, p: Path, base: set<Edge>): set<set<Edge>>
    requires WellFormed(g) && ValidHops(g, p.v, p.hops)
  {
    set i | 0 <= i < |p.hops| :: base + {EdgeAt(g, p.v, p.hops, i)}
  }

  ghost function DepKeysUpTo(g: Graph, p: Path, base: set<Edge>, n: nat): set<set<Edge>>
    requires WellFormed(g) && ValidHops(g, p.v, p.hops) && n <= |p.hops|
  {
    set j | 0 <= j < n :: base + {EdgeAt(g, p.v, p.hops, j)}
  }

  /** The dependencies once the first `n` hops of `p` are listed. */
  ghost predicate ListedUpTo(g: Graph, deps: Dependencies, p: Path, base: set<Edge>, n: nat, out: Dependencies)
    requires WellFormed(g) && ValidHops(g, p.v, p.hops) && n <= |p.hops|
  {
    && out.Keys == deps.Keys + DepKeysUpTo(g, p, base, n)
    && forall k :: Deps(out, k) == Deps(deps, k) + if DependsOn(g, p, base, n, k) then [p] else []
  }

  lemma DependsOnSnoc(g: Graph, p: Path, base: set<Edge>, i: nat, k: set<Edge>)
    requires WellFormed(g) && ValidHops(g, p.v, p.hops) && i < |p.hops|
    ensures DependsOn(g, p, base, i + 1, k) <==> k == base + {EdgeAt(g, p.v, p.hops, i)} || DependsOn(g, p, base, i, k)
  {
  }

  lemma DepKeysSnoc(g: Graph, p: Path, base: set<Edge>, i: nat)
    requires WellFormed(g) && ValidHops(g, p.v, p.hops) && i < |p.hops|
    ensures DepKeysUpTo(g, p, base, i + 1) == DepKeysUpTo(g, p, base, i) + {base + {EdgeAt(g, p.v, p.hops, i)}}
  {
  }

  lemma ListHop(g: Graph, deps: Dependencies, p: Path, base: set<Edge>, i: nat, out: Dependencies)
    requires WellFormed(g) && ValidHops(g, p.v, p.hops) && i < |p.hops|
    requires Avoids(g, p.v, p.hops, base) && Simple(g, p.v, p.hops) && ListedUpTo(g, deps, p, base, i, out)
    ensures var eset := base + {EdgeAt(g, p.v, p.hops, i)};
      ListedUpTo(g, deps, p, base, i + 1, out[eset := Deps(out, eset) + [p]])
  {
    hide EdgeAt, Avoids, Simple, ValidHops, WellFormed, DependsOn, DepKeysUpTo;
    var eset := base + {EdgeAt(g, p.v, p.hops, i)};
    var out' := out[eset := Deps(out, eset) + [p]];
    NotListedYet(g, p, base, i);
    DepKeysSnoc(g, p, base, i);
    forall k ensures Deps(out', k) == Deps(deps, k) + if DependsOn(g, p, base, i + 1, k) then [p] else [] {
      DependsOnSnoc(g, p, base, i, k);
    }
  }

  lemma NotListedYet(g: Graph, p: Path, base: set<Edge>, i: nat)
    requires WellFormed(g) && ValidHops(g, p.v, p.hops) && i < |p.hops|
    requires Avoids(g, p.v, p.hops, base) && Simple(g, p.v, p.hops)
    ensures !DependsOn(g, p, base, i, base + {EdgeAt(g, p.v, p.hops, i)})
  {
    forall j | 0 <= j < i ensures base + {EdgeAt(g, p.v, p.hops, i)} != base + {EdgeAt(g, p.v, p.hops, j)} {
      SimpleEdgesDistinct(g, p.v, p.hops, j, i);
      assert EdgeAt(g, p.v, p.hops, j) !in base + {EdgeAt(g, p.v, p.hops, i)};
    }
  }

  /** Lists `path` under `edgeDeps` and each of its edges. */
  method UpdateDeps(g: Graph, deps: Dependencies, path: Path, edgeDeps: set<Edge>) returns (out: Dependencies)
    requires WellFormed(g) && ValidHops(g, path.v, path.hops)
    requires Avoids(g, path.v, path.hops, edgeDeps) && Simple(g, path.v, path.hops)
    ensures out.Keys == deps.Keys + DepKeys(g, path, edgeDeps)
    ensures forall k :: ListsAlso(g, deps, path, edgeDeps, k, out)
  {
    hide Avoids, Simple;
    out := deps;
    var v, i := path.v, 0;
    while i < |path.hops|
      invariant 0 <= i <= |path.hops| && v == VertexAt(g, path.v, path.hops, i)
      invariant ListedUpTo(g, deps, path, edgeDeps, i, out)
    {
      assert EdgeAt(g, path.v, path.hops, i) == g.ports[(v, path.hops[i])];
      ListHop(g, deps, path, edgeDeps, i, out);
      var eset := {g.ports[(v, path.hops[i])]} + edgeDeps;
      assert eset == edgeDeps + {EdgeAt(g, path.v, path.hops, i)};
      out := out[eset := Deps(out, eset) + [path]];
      v := Far(g, v, path.hops[i]).0;
      i := i + 1;
    }
  }

  // ---------- What a round keeps ----------

  /** The table holds exactly the recorded paths, each under its key. */
  ghost predicate TableOf(g: Graph, table: Table, recs: Records)
    requires WellFormed(g) && forall n <- recs :: ValidHops(g, recs[n].path.v, recs[n].path.hops) && recs[n].path.hops != []
  {
    && (forall n <- recs :: KeyOf(g, recs[n].path) in table && table[KeyOf(g, recs[n].path)] == recs[n].path)
    && (forall k <- table :: exists n <- recs :: KeyOf(g, recs[n].path) == k)
  }

  /** The failures a packet on `p` knows once it finds hop `i` down. */
  ghost function DepKey(g: Graph, p: Path, i: nat): set<Edge>
    requires WellFormed(g) && ValidHops(g, p.v, p.hops) && i < |p.hops|
  {
    p.failedE + {EdgeAt(g, p.v, p.hops, i)}
  }

  /** The break of `n` at hop `i` has a backup, or the destination cannot be reached any more. */
  ghost predicate Handled(g: Graph, dst: Vertex, recs: Records, n: Name, i: nat)
    requires WellFormed(g) && n in recs && ValidHops(g, recs[n].path.v, recs[n].path.hops) && i < |recs[n].path.hops|
  {
    Child(n, i) in recs || !Connected(g, DepKey(g, recs[n].path, i), VertexAt(g, recs[n].path.v, recs[n].path.hops, i), dst)
  }

  /** Every break of every record with fewer than `rounds` known failures is handled. */
  ghost predicate Complete(g: Graph, dst: Vertex, recs: Records, rounds: nat)
    requires WellFormed(g) && ValidRecords(g, dst, recs)
  {
    forall n, i: nat | n in recs && |n.breaks| < rounds && i < |recs[n].path.hops| :: Handled(g, dst, recs, n, i)
  }

  /** `p` is listed under `k` because of a record with `level` known failures. */
  ghost predicate ListedFor(g: Graph, recs: Records, level: nat, p: Path, k: set<Edge>)
    requires WellFormed(g) && forall n <- recs :: ValidHops(g, recs[n].path.v, recs[n].path.hops)
  {
    exists n, i: nat :: n in recs && |n.breaks| == level && i < |recs[n].path.hops| && recs[n].path == p && k == DepKey(g, p, i)
  }

  /** `deps` lists, once each, exactly the breaks of the records with `level` known failures. */
  ghost predicate Listed(g: Graph, dst: Vertex, recs: Records, deps: Dependencies, level: nat)
    requires WellFormed(g) && ValidRecords(g, dst, recs)
  {
    && (forall n, i: nat | n in recs && |n.breaks| == level && i < |recs[n].path.hops| ::
          recs[n].path in Deps(deps, DepKey(g, recs[n].path, i)))
    && (forall k <- deps :: forall p <- deps[k] :: ListedFor(g, recs, level, p, k))
    && (forall k <- deps :: NoDup(deps[k]))
  }

  ghost predicate LevelsUpTo(recs: Records, level: nat) {
    forall n <- recs :: |n.breaks| <= level
  }

  /** A path names its record. */
  lemma PathNames(g: Graph, dst: Vertex, recs: Records, a: Name, b: Name)
    requires WellFormed(g) && ValidRecords(g, dst, recs) && a in recs && b in recs
    requires recs[a].path == recs[b].path || KeyOf(g, recs[a].path) == KeyOf(g, recs[b].path)
    ensures a == b
  {
    if a != b {
      SameRouteComparable(g, dst, recs, a, b);
      if ProperPrefix(a, b) {
        SameRouteChain(g, dst, recs, a, b);
      } else {
        SameRouteChain(g, dst, recs, b, a);
      }
    }
  }

  /** A path breaks in one place for one set of failures. */
  lemma DepKeyNames(g: Graph, dst: Vertex, p: Path, i: nat, j: nat)
    requires WellFormed(g) && GoodPath(g, dst, p) && i < |p.hops| && j < |p.hops|
    requires DepKey(g, p, i) == DepKey(g, p, j)
    ensures i == j
  {
    var e, f := EdgeAt(g, p.v, p.hops, i), EdgeAt(g, p.v, p.hops, j);
    assert e in DepKey(g, p, j) && e !in p.failedE;
    if i < j {
      SimpleEdgesDistinct(g, p.v, p.hops, i, j);
    } else if j < i {
      SimpleEdgesDistinct(g, p.v, p.hops, j, i);
    }
  }

  /** A record that is added keeps the others' entries, because no two records share a key. */
  lemma AddToTable(g: Graph, dst: Vertex, recs: Records, table: Table, n: Name, r: Record)
    requires WellFormed(g) && ValidRecords(g, dst, recs) && TableOf(g, table, recs)
    requires n !in recs && GoodPath(g, dst, r.path) && ValidRecords(g, dst, recs[n := r])
    ensures TableOf(g, table[KeyOf(g, r.path) := r.path], recs[n := r])
  {
    var recs' := recs[n := r];
    var table' := table[KeyOf(g, r.path) := r.path];
    forall m <- recs' ensures KeyOf(g, recs'[m].path) in table' && table'[KeyOf(g, recs'[m].path)] == recs'[m].path {
      if m != n && KeyOf(g, recs[m].path) == KeyOf(g, r.path) {
        PathNames(g, dst, recs', m, n);
      }
    }
    forall k <- table' ensures exists m <- recs' :: KeyOf(g, recs'[m].path) == k {
      if k == KeyOf(g, r.path) {
        assert n in recs';
      } else {
        var m :| m in recs && KeyOf(g, recs[m].path) == k;
        assert m in recs';
      }
    }
  }

  ghost predicate MayAdd(g: Graph, dst: Vertex, recs: Records, n: Name, r: Record)
    requires WellFormed(g) && ValidRecords(g, dst, recs)
  {
    && n !in recs && GoodPath(g, dst, r.path)
    && (n.breaks == [] ==> IsInitial(n, r))
    && (n.breaks != [] ==> Parent(n) in recs && IsBackup(g, recs[Parent(n)], n.breaks[|n.breaks| - 1], r))
  }

  lemma AddRecord(g: Graph, dst: Vertex, recs: Records, n: Name, r: Record)
    requires WellFormed(g) && ValidRecords(g, dst, recs) && MayAdd(g, dst, recs, n, r)
    ensures ValidRecords(g, dst, recs[n := r])
  {
    hide HasParent, IsBackup, IsInitial, GoodPath;
    forall m | m in recs[n := r] && m.breaks != [] ensures HasParent(g, recs[n := r], m) {
      ParentKept(g, dst, recs, n, r, m);
    }
  }

  lemma ParentKept(g: Graph, dst: Vertex, recs: Records, n: Name, r: Record, m: Name)
    requires WellFormed(g) && ValidRecords(g, dst, recs) && MayAdd(g, dst, recs, n, r)
    requires m in recs[n := r] && m.breaks != []
    ensures HasParent(g, recs[n := r], m)
  {
    if m != n {
      assert HasParent(g, recs, m);
    }
    assert recs[n := r][Parent(m)] == recs[Parent(m)];
  }

  /** Listing the new path keeps the list of the next round exact. */
  lemma AddToListed(g: Graph, dst: Vertex, recs: Records, deps: Dependencies, n: Name, r: Record, deps': Dependencies)
    requires WellFormed(g) && ValidRecords(g, dst, recs) && Listed(g, dst, recs, deps, |n.breaks|)
    requires n !in recs && GoodPath(g, dst, r.path) && ValidRecords(g, dst, recs[n := r])
    requires deps'.Keys == deps.Keys + DepKeys(g, r.path, r.path.failedE)
    requires forall k :: ListsAlso(g, deps, r.path, r.path.failedE, k, deps')
    ensures Listed(g, dst, recs[n := r], deps', |n.breaks|)
  {
    var recs' := recs[n := r];
    var level := |n.breaks|;
    forall m, i: nat | m in recs' && |m.breaks| == level && i < |recs'[m].path.hops|
      ensures recs'[m].path in Deps(deps', DepKey(g, recs'[m].path, i))
    {
      assert ListsAlso(g, deps, r.path, r.path.failedE, DepKey(g, recs'[m].path, i), deps');
      if m == n {
        assert DependsOn(g, r.path, r.path.failedE, |r.path.hops|, DepKey(g, r.path, i));
      } else {
        assert recs[m].path in Deps(deps, DepKey(g, recs[m].path, i));
      }
    }
    forall k <- deps'
      ensures NoDup(deps'[k]) && forall p <- deps'[k] :: ListedFor(g, recs', level, p, k)
    {
      ListStaysExact(g, dst, recs, deps, n, r, deps', k);
    }
  }

  lemma ListStaysExact(g: Graph, dst: Vertex, recs: Records, deps: Dependencies, n: Name, r: Record, deps': Dependencies, k: set<Edge>)
    requires WellFormed(g) && ValidRecords(g, dst, recs) && Listed(g, dst, recs, deps, |n.breaks|)
    requires n !in recs && GoodPath(g, dst, r.path) && ValidRecords(g, dst, recs[n := r])
    requires k in deps' && ListsAlso(g, deps, r.path, r.path.failedE, k, deps')
    ensures NoDup(deps'[k]) && forall p <- deps'[k] :: ListedFor(g, recs[n := r], |n.breaks|, p, k)
  {
    hide HasParent, Simple, Avoids, IsBackup, IsInitial;
    var recs' := recs[n := r];
    forall p <- Deps(deps, k) ensures ListedFor(g, recs', |n.breaks|, p, k) && p != r.path {
      assert ListedFor(g, recs, |n.breaks|, p, k);
      var m, i: nat :| m in recs && |m.breaks| == |n.breaks| && i < |recs[m].path.hops| && recs[m].path == p && k == DepKey(g, p, i);
      assert m in recs' && recs'[m].path == p;
      if p == r.path {
        PathNames(g, dst, recs', m, n);
      }
    }
    if DependsOn(g, r.path, r.path.failedE, |r.path.hops|, k) {
      var i :| 0 <= i < |r.path.hops| && k == r.path.failedE + {EdgeAt(g, r.path.v, r.path.hops, i)};
      assert n in recs' && recs'[n].path == r.path && k == DepKey(g, r.path, i);
      assert ListedFor(g, recs', |n.breaks|, r.path, k);
    }
  }

  // ---------- The builder ----------

  ghost predicate Extends(recs: Records, recs': Records) {
    forall n <- recs :: n in recs' && recs'[n] == recs[n]
  }

  /** The breaks listed under the keys of `todo`, or under `k` for a path of `rest`, are still to come; the others are handled. */
  ghost predicate Progress(g: Graph, dst: Vertex, recs: Records, level: nat, todo: set<set<Edge>>, k: set<Edge>, rest: seq<Path>)
    requires WellFormed(g) && ValidRecords(g, dst, recs)
  {
    forall n, i: nat | n in recs && |n.breaks| == level && i < |recs[n].path.hops| ::
      if ToCome(g, recs[n].path, i, todo, k, rest) then Child(n, i) !in recs else Handled(g, dst, recs, n, i)
  }

  ghost predicate ToCome(g: Graph, p: Path, i: nat, todo: set<set<Edge>>, k: set<Edge>, rest: seq<Path>)
    requires WellFormed(g) && ValidHops(g, p.v, p.hops) && i < |p.hops|
  {
    DepKey(g, p, i) in todo || (DepKey(g, p, i) == k && p in rest)
  }

  /** The records of `recs'` beyond those of `recs` all know `level` failures. */
  ghost predicate GrowsAt(recs: Records, recs': Records, level: nat) {
    Extends(recs, recs') && forall n <- recs' :: n in recs || |n.breaks| == level
  }

  lemma ListedKept(g: Graph, dst: Vertex, recs: Records, recs': Records, deps: Dependencies, level: nat)
    requires WellFormed(g) && ValidRecords(g, dst, recs) && ValidRecords(g, dst, recs')
    requires GrowsAt(recs, recs', level + 1) && Listed(g, dst, recs, deps, level)
    ensures Listed(g, dst, recs', deps, level)
  {
    forall k <- deps ensures forall p <- deps[k] :: ListedFor(g, recs', level, p, k) {
      forall p <- deps[k] ensures ListedFor(g, recs', level, p, k) {
        assert ListedFor(g, recs, level, p, k);
        var n, i: nat :| n in recs && |n.breaks| == level && i < |recs[n].path.hops| && recs[n].path == p && k == DepKey(g, p, i);
        assert n in recs' && recs'[n] == recs[n];
      }
    }
  }

  /** Handling the next listed break moves it from the breaks to come to the handled ones. */
  lemma ProgressStep(g: Graph, dst: Vertex, recs: Records, recs': Records, level: nat,
                     todo: set<set<Edge>>, k: set<Edge>, rest: seq<Path>, n: Name, i: nat)
    requires WellFormed(g) && ValidRecords(g, dst, recs) && ValidRecords(g, dst, recs')
    requires Progress(g, dst, recs, level, todo, k, rest) && rest != [] && NoDup(rest) && k !in todo
    requires n in recs && |n.breaks| == level && recs[n].path == rest[0] && i < |rest[0].hops| && k == DepKey(g, rest[0], i)
    requires Extends(recs, recs') && (forall m <- recs' :: m in recs || m == Child(n, i)) && Handled(g, dst, recs', n, i)
    ensures Progress(g, dst, recs', level, todo, k, rest[1..])
  {
    forall m, l: nat | m in recs' && |m.breaks| == level && l < |recs'[m].path.hops|
      ensures if ToCome(g, recs'[m].path, l, todo, k, rest[1..]) then Child(m, l) !in recs' else Handled(g, dst, recs', m, l)
    {
      ProgressStepAt(g, dst, recs, recs', level, todo, k, rest, n, i, m, l);
    }
  }

  lemma ProgressStepAt(g: Graph, dst: Vertex, recs: Records, recs': Records, level: nat,
                       todo: set<set<Edge>>, k: set<Edge>, rest: seq<Path>, n: Name, i: nat, m: Name, l: nat)
    requires WellFormed(g) && ValidRecords(g, dst, recs) && ValidRecords(g, dst, recs')
    requires Progress(g, dst, recs, level, todo, k, rest) && rest != [] && NoDup(rest) && k !in todo
    requires n in recs && |n.breaks| == level && recs[n].path == rest[0] && i < |rest[0].hops| && k == DepKey(g, rest[0], i)
    requires Extends(recs, recs') && (forall m <- recs' :: m in recs || m == Child(n, i)) && Handled(g, dst, recs', n, i)
    requires m in recs' && |m.breaks| == level && l < |recs'[m].path.hops|
    ensures if ToCome(g, recs'[m].path, l, todo, k, rest[1..]) then Child(m, l) !in recs' else Handled(g, dst, recs', m, l)
  {
    assert m in recs;
    var p := recs[m].path;
    assert ToCome(g, p, l, todo, k, rest) || Handled(g, dst, recs, m, l);
    if p == rest[0] {
      PathNames(g, dst, recs, m, n);
      if DepKey(g, p, l) == k {
        DepKeyNames(g, dst, p, l, i);
      }
    }
    if Child(m, l) == Child(n, i) {
      assert m.breaks == Child(m, l).breaks[..level] && n.breaks == Child(n, i).breaks[..level];
    }
  }

  lemma ListedFrom(g: Graph, dst: Vertex, recs: Records, level: nat, p: Path, k: set<Edge>) returns (n: Name, i: nat)
    requires WellFormed(g) && ValidRecords(g, dst, recs) && ListedFor(g, recs, level, p, k)
    ensures n in recs && |n.breaks| == level && i < |recs[n].path.hops| && recs[n].path == p && k == DepKey(g, p, i)
  {
    n, i :| n in recs && |n.breaks| == level && i < |recs[n].path.hops| && recs[n].path == p && k == DepKey(g, p, i);
  }

  /** The path that comes next has no backup yet. */
  lemma NextNotDone(g: Graph, dst: Vertex, recs: Records, level: nat, todo: set<set<Edge>>, k: set<Edge>, rest: seq<Path>, n: Name, i: nat)
    requires WellFormed(g) && ValidRecords(g, dst, recs) && Progress(g, dst, recs, level, todo, k, rest)
    requires n in recs && |n.breaks| == level && i < |recs[n].path.hops| && rest != [] && recs[n].path == rest[0]
    requires k == DepKey(g, rest[0], i)
    ensures Child(n, i) !in recs
  {
    assert ToCome(g, rest[0], i, todo, k, rest);
  }

  // ---------- The path that is there most often ----------

  /** The entries of `ks` with the path `hops`. */
  function With(table: Table, ks: set<Key>, hops: seq<Port>): set<Key>
    requires ks <= table.Keys
  {
    set k <- ks | table[k].hops == hops
  }

  /** How often every path is there. */
  ghost predicate Tally(table: Table, ks: set<Key>, counts: map<seq<Port>, nat>)
    requires ks <= table.Keys
  {
    (forall k <- ks :: table[k].hops in counts) && forall h <- counts :: counts[h] == |With(table, ks, h)| > 0
  }

  lemma TallyNext(table: Table, ks: set<Key>, counts: map<seq<Port>, nat>, k: Key)
    requires ks <= table.Keys && k in table && k !in ks && Tally(table, ks, counts)
    ensures var h := table[k].hops; Tally(table, ks + {k}, counts[h := (if h in counts then counts[h] else 0) + 1])
  {
    var h := table[k].hops;
    assert With(table, ks + {k}, h) == With(table, ks, h) + {k};
    if h !in counts {
      assert With(table, ks, h) == {};
    }
    forall g <- counts | g != h ensures With(table, ks + {k}, g) == With(table, ks, g) {
    }
  }

  lemma {:induction false} LargestCount(counts: map<seq<Port>, nat>, hs: set<seq<Port>>) returns (h: seq<Port>)
    requires hs != {} && hs <= counts.Keys
    ensures h in hs && forall g <- hs :: counts[g] <= counts[h]
    decreases |hs|
  {
    var x :| x in hs;
    if hs == {x} {
      h := x;
    } else {
      assert hs - {x} != {} by {
        assert hs != {x};
      }
      var k := LargestCount(counts, hs - {x});
      h := if counts[k] > counts[x] then k else x;
    }
  }

  /** A path that no other one of the entries is more frequent than; ties are broken at random. */
  method MostFrequent(table: Table, ks: set<Key>) returns (hops: seq<Port>)
    requires ks != {} && ks <= table.Keys
    ensures exists k <- ks :: table[k].hops == hops
    ensures forall k <- ks :: |With(table, ks, table[k].hops)| <= |With(table, ks, hops)|
  {
    var counts: map<seq<Port>, nat>, todo := map[], ks;
    while todo != {}
      invariant todo <= ks && Tally(table, ks - todo, counts)
    {
      hide Tally;
      var k :| k in todo;
      TallyNext(table, ks - todo, counts, k);
      assert ks - (todo - {k}) == ks - todo + {k};
      var h := table[k].hops;
      counts, todo := counts[h := (if h in counts then counts[h] else 0) + 1], todo - {k};
    }
    assert ks - todo == ks;
    var k0 :| k0 in ks;
    assert table[k0].hops in counts;
    ghost var m := LargestCount(counts, counts.Keys);
    hops :| hops in counts && forall g <- counts :: counts[g] <= counts[hops];
    var k :| k in With(table, ks, hops);
  }

  /** `hops` is one of the most frequent paths of the entries `ks`. */
  ghost predicate CommonestEntry(table: Table, ks: set<Key>, hops: seq<Port>) {
    && ks <= table.Keys && (exists k <- ks :: table[k].hops == hops)
    && forall k <- ks :: |With(table, ks, table[k].hops)| <= |With(table, ks, hops)|
  }

  lemma IsCommonest(table: Table, ks: set<Key>, hops: seq<Port>)
    requires ks <= table.Keys && exists k <- ks :: table[k].hops == hops
    requires forall k <- ks :: |With(table, ks, table[k].hops)| <= |With(table, ks, hops)|
    ensures CommonestEntry(table, ks, hops)
  {
  }

  /** The entries of the rivals of `p`. */
  ghost predicate EntriesOf(g: Graph, recs: Records, table: Table, mode: Mode, p: Path, ks: set<Key>)
    requires WellFormed(g) && forall n <- recs :: ValidHops(g, recs[n].path.v, recs[n].path.hops) && recs[n].path.hops != []
  {
    && ks <= table.Keys && (forall m <- Rivals(g, recs, mode, recs.Keys, p) :: KeyOf(g, recs[m].path) in ks)
    && forall k <- ks :: exists m <- Rivals(g, recs, mode, recs.Keys, p) :: KeyOf(g, recs[m].path) == k
  }

  lemma TableAt(g: Graph, dst: Vertex, recs: Records, table: Table, m: Name)
    requires WellFormed(g) && ValidRecords(g, dst, recs) && TableOf(g, table, recs) && m in recs
    ensures ValidHops(g, recs[m].path.v, recs[m].path.hops) && recs[m].path.hops != []
    ensures KeyOf(g, recs[m].path) in table && table[KeyOf(g, recs[m].path)] == recs[m].path
  {
    hide KeyOf, HasParent, Simple, Avoids;
  }

  /** Each record has one entry, so paths are as frequent among the records as among the entries. */
  lemma SharingCount(g: Graph, dst: Vertex, recs: Records, table: Table, mode: Mode, p: Path, ks: set<Key>, hops: seq<Port>)
    requires WellFormed(g) && ValidRecords(g, dst, recs) && TableOf(g, table, recs) && EntriesOf(g, recs, table, mode, p, ks)
    ensures |Sharing(recs, Rivals(g, recs, mode, recs.Keys, p), hops)| == |With(table, ks, hops)|
  {
    hide Rivals, ValidRecords, TableOf, KeyOf, ValidHops;
    GoodRecords(g, dst, recs);
    RivalsIn(g, recs, mode, p);
    var a, b := Sharing(recs, Rivals(g, recs, mode, recs.Keys, p), hops), With(table, ks, hops);
    forall m <- a ensures KeyOf(g, recs[m].path) in b {
      TableAt(g, dst, recs, table, m);
    }
    NoMoreRecords(g, dst, recs, a, b);
    forall k <- b ensures exists m <- a :: KeyOf(g, recs[m].path) == k {
      var m :| m in Rivals(g, recs, mode, recs.Keys, p) && KeyOf(g, recs[m].path) == k;
      TableAt(g, dst, recs, table, m);
      assert m in a;
    }
    var e := map k | k in b :: NameOf(g, recs, a, k);
    InjectionSize(b, a, e);
  }

  lemma NoMoreRecords(g: Graph, dst: Vertex, recs: Records, a: set<Name>, b: set<Key>)
    requires WellFormed(g) && ValidRecords(g, dst, recs) && a <= recs.Keys
    requires forall n <- recs :: ValidHops(g, recs[n].path.v, recs[n].path.hops) && recs[n].path.hops != []
    requires forall m <- a :: KeyOf(g, recs[m].path) in b
    ensures |a| <= |b|
  {
    hide ValidRecords, KeyOf, ValidHops;
    var f := map m | m in recs :: KeyOf(g, recs[m].path);
    forall m, n | m in a && n in a && m != n ensures f[m] != f[n] {
      if f[m] == f[n] {
        PathNames(g, dst, recs, m, n);
      }
    }
    InjectionSize(a, b, f);
  }

  ghost function NameOf(g: Graph, recs: Records, names: set<Name>, k: Key): (m: Name)
    requires WellFormed(g) && forall n <- recs :: ValidHops(g, recs[n].path.v, recs[n].path.hops) && recs[n].path.hops != []
    requires names <= recs.Keys && exists m <- names :: KeyOf(g, recs[m].path) == k
    ensures m in names && KeyOf(g, recs[m].path) == k
  {
    var m :| m in names && KeyOf(g, recs[m].path) == k;
    m
  }

  lemma GoodRecords(g: Graph, dst: Vertex, recs: Records)
    requires WellFormed(g) && ValidRecords(g, dst, recs)
    ensures forall n <- recs :: ValidHops(g, recs[n].path.v, recs[n].path.hops) && recs[n].path.hops != []
  {
    hide HasParent, Simple, Avoids;
  }

  lemma RivalsIn(g: Graph, recs: Records, mode: Mode, p: Path)
    requires WellFormed(g)
    ensures Rivals(g, recs, mode, recs.Keys, p) <= recs.Keys
  {
    hide Rival;
  }

  /** The most frequent path among the entries is the most frequent one among the records. */
  lemma CommonestRecord(g: Graph, dst: Vertex, recs: Records, table: Table, mode: Mode, p: Path, ks: set<Key>, hops: seq<Port>)
    requires WellFormed(g) && ValidRecords(g, dst, recs) && TableOf(g, table, recs) && EntriesOf(g, recs, table, mode, p, ks)
    requires CommonestEntry(table, ks, hops)
    ensures Commonest(recs, Rivals(g, recs, mode, recs.Keys, p), hops)
  {
    hide Rivals, Sharing, With, ValidRecords, TableOf, KeyOf, ValidHops;
    GoodRecords(g, dst, recs);
    RivalsIn(g, recs, mode, p);
    var rivals := Rivals(g, recs, mode, recs.Keys, p);
    SharingCount(g, dst, recs, table, mode, p, ks, hops);
    var k :| k in ks && table[k].hops == hops;
    var n :| n in rivals && KeyOf(g, recs[n].path) == k;
    TableAt(g, dst, recs, table, n);
    forall m <- rivals ensures |Sharing(recs, rivals, recs[m].path.hops)| <= |Sharing(recs, rivals, hops)| {
      SharingCount(g, dst, recs, table, mode, p, ks, recs[m].path.hops);
      TableAt(g, dst, recs, table, m);
    }
  }

  /** What `FindPath` is to return for a packet with reverse path `rp`. */
  ghost predicate Picks(g: Graph, oracle: Oracle, mode: Mode, recs: Records, p: Path)
    requires WellFormed(g)
  {
    var rivals := Rivals(g, recs, mode, recs.Keys, p);
    if mode.aware && rivals != {} then Commonest(recs, rivals, p.hops) else FromLibrary(oracle, p)
  }

  lemma PickedIsChosen(g: Graph, oracle: Oracle, mode: Mode, recs: Records, n: Name, r: Record)
    requires WellFormed(g) && n !in recs && n.breaks != [] && Picks(g, oracle, mode, recs, r.path)
    ensures Chosen(g, oracle, mode, recs[n := r], recs.Keys, n)
  {
    hide Rivals, Commonest;
    if mode.aware && Rivals(g, recs, mode, recs.Keys, r.path) != {} {
      ChosenCommonest(g, oracle, mode, recs, n, r);
    } else {
      var k: nat :| oracle(k, r.path.v, r.path.failedE) == Some(r.path.hops);
      ChosenFromLibrary(g, oracle, mode, recs, n, r, k);
    }
  }

  /** The source of a record has an initial path. */
  lemma {:induction false} RootOf(g: Graph, dst: Vertex, recs: Records, n: Name)
    requires WellFormed(g) && ValidRecords(g, dst, recs) && n in recs
    ensures Name(n.src, []) in recs
    decreases |n.breaks|
  {
    hide GoodPath, IsBackup;
    if n.breaks == [] {
      assert n == Name(n.src, []);
    } else {
      assert HasParent(g, recs, n);
      RootOf(g, dst, recs, Parent(n));
    }
  }

  ghost predicate OnlyFrom(recs: Records, hosts: set<Vertex>) {
    forall n <- recs :: n.src in hosts
  }

  /** Backups serve the sources of initial paths. */
  lemma NoOtherSource(g: Graph, dst: Vertex, recs: Records, recs': Records, level: nat, hosts: set<Vertex>)
    requires WellFormed(g) && ValidRecords(g, dst, recs') && GrowsAt(recs, recs', level + 1) && OnlyFrom(recs, hosts)
    ensures OnlyFrom(recs', hosts)
  {
    hide ValidRecords;
    forall n <- recs' ensures n.src in hosts {
      RootOf(g, dst, recs', n);
    }
  }

  class Builder {
    const g: Graph
    const dst: Vertex
    const oracle: Oracle
    const compressionAware: bool
    const dfr: bool
    var fwdtable: Table
    var calls: nat
    ghost var recs: Records
    /** The records in the order of their installation. */
    ghost var log: seq<Name>

    ghost predicate Valid()
      reads this
    {
      && WellFormed(g) && Logged(g, oracle, Mode(compressionAware, dfr), recs, log)
      && GoodOracle(g, dst, oracle) && ValidRecords(g, dst, recs) && TableOf(g, fwdtable, recs)
    }

    constructor (g: Graph, dst: Vertex, oracle: Oracle, compressionAware: bool, dfr: bool)
      requires WellFormed(g) && GoodOracle(g, dst, oracle)
      ensures Valid() && recs == map[] && this.g == g && this.dst == dst && this.oracle == oracle
      ensures this.compressionAware == compressionAware && this.dfr == dfr
    {
      this.g, this.dst, this.oracle, this.compressionAware, this.dfr := g, dst, oracle, compressionAware, dfr;
      fwdtable, calls, recs, log := map[], 0, map[], [];
      NothingLogged(g, oracle, Mode(compressionAware, dfr));
    }

    /** The table entries at `v` whose whole path avoids `known` and, with `dfr`, crosses no link of `used` in its direction. */
    function Existing(v: Vertex, known: set<Edge>, used: set<(Vertex, Edge)>): (r: set<Key>)
      requires Valid()
      reads this
      ensures forall k <- r :: k in fwdtable && k.v == v && ValidHops(g, v, fwdtable[k].hops) && Avoids(g, v, fwdtable[k].hops, known)
      ensures dfr ==> forall k <- r :: ArcSet(g, v, fwdtable[k].hops) !! used
    {
      assert forall k <- fwdtable :: ValidHops(g, k.v, fwdtable[k].hops);
      set k <- fwdtable | k.v == v && Avoids(g, v, fwdtable[k].hops, known) && (dfr ==> ArcSet(g, v, fwdtable[k].hops) !! used)
    }

    /**
     The backup path: if asked for, the most frequent path of the switch that avoids the known failures and, with `dfr`,
     repeats no link of the way so far, given by its reverse path; else the library's answer.
     */
    method FindPath(v: Vertex, known: set<Edge>, rp: seq<Port>) returns (r: Option<seq<Port>>)
      requires Valid() && v != dst && ValidHops(g, v, rp)
      modifies this`calls
      ensures Valid()
      ensures r.Some? ==> GoodPath(g, dst, Path(v, r.value, known, []))
      ensures r.None? ==> !Connected(g, known, v, dst)
      ensures var existing := old(Existing(v, known, Crossed(g, v, rp)));
        if compressionAware && existing != {} then r.Some? && CommonestEntry(fwdtable, existing, r.value) else r == oracle(old(calls), v, known)
      ensures r.Some? ==> Picks(g, oracle, Mode(compressionAware, dfr), recs, Path(v, r.value, known, rp))
    {
      hide Logged, Rivals, ValidRecords, TableOf, GoodPath, CommonestEntry, Picks, Avoids, ArcSet, Existing;
      ReverseLive(g, {}, v, rp);
      var src, way := RevPathAtFail(g, Path(v, rp, {}, []), {});
      assert rp[..|rp|] == rp;
      var arcs := ArcsOf(g, src, way);
      var existing := Existing(v, known, arcs);
      if compressionAware && existing != {} {
        var hops := MostFrequent(fwdtable, existing);
        r := Some(hops);
        assert CommonestEntry(fwdtable, existing, hops) by {
          IsCommonest(fwdtable, existing, hops);
        }
        PicksExisting(v, known, rp, hops);
      } else {
        r := oracle(calls, v, known);
        if r.Some? {
          PicksAnswer(v, known, rp, r.value, calls);
        }
        calls := calls + 1;
      }
    }

    /** A most frequent existing path is what is to be picked. */
    lemma PicksExisting(v: Vertex, known: set<Edge>, rp: seq<Port>, hops: seq<Port>)
      requires Valid() && ValidHops(g, v, rp) && compressionAware && CommonestEntry(fwdtable, Existing(v, known, Crossed(g, v, rp)), hops)
      ensures Picks(g, oracle, Mode(compressionAware, dfr), recs, Path(v, hops, known, rp)) && GoodPath(g, dst, Path(v, hops, known, []))
    {
      hide Logged, Rivals, Commonest, Avoids, HasParent, Rival, GoodOracle;
      ExistingEntries(v, known, rp, hops);
      CommonestRecord(g, dst, recs, fwdtable, Mode(compressionAware, dfr), Path(v, hops, known, rp), Existing(v, known, Crossed(g, v, rp)), hops);
      var k :| k in Existing(v, known, Crossed(g, v, rp)) && fwdtable[k].hops == hops;
      EntryIsGood(k);
    }

    lemma EntryIsGood(k: Key)
      requires Valid() && k in fwdtable
      ensures fwdtable[k].v == k.v && GoodPath(g, dst, fwdtable[k])
    {
      hide Logged, HasParent, Simple, Avoids, GoodOracle;
      GoodRecords(g, dst, recs);
      hide LivePath;
      var n :| n in recs && KeyOf(g, recs[n].path) == k;
    }

    /** The library's answer is, when there is nothing to take over. */
    lemma PicksAnswer(v: Vertex, known: set<Edge>, rp: seq<Port>, hops: seq<Port>, k: nat)
      requires Valid() && v != dst && ValidHops(g, v, rp) && oracle(k, v, known) == Some(hops)
      requires !compressionAware || Existing(v, known, Crossed(g, v, rp)) == {}
      ensures Picks(g, oracle, Mode(compressionAware, dfr), recs, Path(v, hops, known, rp)) && GoodPath(g, dst, Path(v, hops, known, []))
    {
      hide Logged, Rivals, Commonest, Avoids, HasParent, Rival, ValidRecords, TableOf, Simple;
      ExistingEntries(v, known, rp, hops);
    }

    /** The existing entries are those of the rivals. */
    lemma ExistingEntries(v: Vertex, known: set<Edge>, rp: seq<Port>, hops: seq<Port>)
      requires Valid() && ValidHops(g, v, rp)
      ensures var mode, ks, p := Mode(compressionAware, dfr), Existing(v, known, Crossed(g, v, rp)), Path(v, hops, known, rp);
        && (forall n <- recs :: ValidHops(g, recs[n].path.v, recs[n].path.hops) && recs[n].path.hops != [])
        && EntriesOf(g, recs, fwdtable, mode, p, ks) && (ks == {} <==> Rivals(g, recs, mode, recs.Keys, p) == {})
    {
      hide Logged, HasParent, Avoids, ArcSet, Crossed, GoodOracle;
      GoodRecords(g, dst, recs);
      var mode, ks, p := Mode(compressionAware, dfr), Existing(v, known, Crossed(g, v, rp)), Path(v, hops, known, rp);
      forall m <- Rivals(g, recs, mode, recs.Keys, p) ensures KeyOf(g, recs[m].path) in ks {
        assert fwdtable[KeyOf(g, recs[m].path)] == recs[m].path;
      }
      forall k <- ks ensures exists m <- Rivals(g, recs, mode, recs.Keys, p) :: KeyOf(g, recs[m].path) == k {
        var m :| m in recs && KeyOf(g, recs[m].path) == k;
        assert fwdtable[k] == recs[m].path;
        assert Rival(g, recs, mode, p, m);
      }
    }

    /** Writes `path` into the forwarding table and lists it for the next round. */
    method Install(path: Path, localFailedE: set<Edge>, nextdep: Dependencies, ghost n: Name, ghost route: seq<Port>)
      returns (out: Dependencies)
      requires Valid() && MayAdd(g, dst, recs, n, Record(route, path)) && Listed(g, dst, recs, nextdep, |n.breaks|)
      requires localFailedE == LocalFailed(g, path.v, path.failedE)
      requires Chosen(g, oracle, Mode(compressionAware, dfr), recs[n := Record(route, path)], recs.Keys, n)
      modifies this`fwdtable, this`recs, this`log
      ensures Valid() && recs == old(recs)[n := Record(route, path)]
      ensures fwdtable == old(fwdtable)[KeyOf(g, path) := path] && log == old(log) + [n]
      ensures Listed(g, dst, recs, out, |n.breaks|)
    {
      hide GoodOracle, Listed, TableOf, Avoids, Simple, ValidHops, HasParent, IsBackup, IsInitial, Logged, Chosen;
      ghost var r := Record(route, path);
      LogMore(g, oracle, Mode(compressionAware, dfr), recs, log, n, r);
      AddRecord(g, dst, recs, n, r);
      AddToTable(g, dst, recs, fwdtable, n, r);
      fwdtable := fwdtable[Key(path.v, path.extraRPath, EdgeAt(g, path.v, path.hops, 0), localFailedE) := path];
      out := UpdateDeps(g, nextdep, path, path.failedE);
      AddToListed(g, dst, recs, nextdep, n, r, out);
      recs, log := recs[n := r], log + [n];
    }

    /** Installs the backup of `n` at its break in hop `i`, if the destination can still be reached. */
    method ProtectBreak(path: Path, edgeDeps: set<Edge>, nextdep: Dependencies, ghost n: Name, ghost i: nat)
      returns (out: Dependencies)
      requires Valid() && n in recs && recs[n].path == path && i < |path.hops| && edgeDeps == DepKey(g, path, i)
      requires Child(n, i) !in recs && Listed(g, dst, recs, nextdep, |n.breaks| + 1)
      modifies this
      ensures Valid() && Extends(old(recs), recs) && Handled(g, dst, recs, n, i)
      ensures forall m <- recs :: m in old(recs) || m == Child(n, i)
      ensures Listed(g, dst, recs, out, |n.breaks| + 1)
    {
      hide GoodOracle, Listed, TableOf, HasParent, Simple, Crossed, Avoids, CommonestEntry, Logged, Picks, Chosen, MayAdd, IsInitial, Existing, ArcSet, EndOf, RevHops;
      BreakPoint(g, dst, path, i);
      var v, rpath := RevPathAtFail(g, path, edgeDeps);
      var fullRevPath := rpath + path.extraRPath;
      var localFailedE := LocalFailed(g, v, edgeDeps);
      var knownFailedE := path.failedE + localFailedE;
      assert knownFailedE == edgeDeps;
      out := nextdep;
      BackIsValid(g, dst, recs, n, i);
      var hops := FindPath(v, knownFailedE, fullRevPath);
      if hops.Some? {
        var newpath := Path(v, hops.value, knownFailedE, fullRevPath);
        BackupFits(g, dst, recs, n, i, newpath);
        PickedIsChosen(g, oracle, Mode(compressionAware, dfr), recs, Child(n, i), Record(recs[n].route + path.hops[..i], newpath));
        out := Install(newpath, localFailedE, nextdep, Child(n, i), recs[n].route + path.hops[..i]);
      }
    }

    ghost predicate InRound(deps: Dependencies, nextdep: Dependencies, level: nat, todo: set<set<Edge>>, k: set<Edge>, rest: seq<Path>)
      reads this
    {
      && Valid() && LevelsUpTo(recs, level + 1)
      && Listed(g, dst, recs, deps, level) && Listed(g, dst, recs, nextdep, level + 1)
      && Progress(g, dst, recs, level, todo, k, rest)
    }

    /** Protects the next path listed under `k`. */
    method ProtectNext(ghost deps: Dependencies, k: set<Edge>, nextdep: Dependencies, path: Path,
                       ghost level: nat, ghost todo: set<set<Edge>>, ghost rest: seq<Path>)
      returns (out: Dependencies)
      requires InRound(deps, nextdep, level, todo, k, rest) && k !in todo
      requires rest != [] && rest[0] == path && NoDup(rest) && ListedFor(g, recs, level, path, k)
      modifies this
      ensures InRound(deps, out, level, todo, k, rest[1..]) && GrowsAt(old(recs), recs, level + 1)
    {
      hide GoodOracle, TableOf, NoDup, GoodPath, HasParent, Progress, Listed, Simple, Avoids, Logged;
      ghost var n, i := ListedFrom(g, dst, recs, level, path, k);
      NextNotDone(g, dst, recs, level, todo, k, rest, n, i);
      out := ProtectBreak(path, k, nextdep, n, i);
      ProgressStep(g, dst, old(recs), recs, level, todo, k, rest, n, i);
      ListedKept(g, dst, old(recs), recs, deps, level);
    }

    /** Protects, one after the other, the paths listed under one set of failures. */
    method ProtectKey(deps: Dependencies, k: set<Edge>, nextdep: Dependencies, ghost level: nat, ghost todo: set<set<Edge>>)
      returns (out: Dependencies)
      requires k in deps && k !in todo && InRound(deps, nextdep, level, todo, k, deps[k])
      modifies this
      ensures InRound(deps, out, level, todo, k, []) && GrowsAt(old(recs), recs, level + 1)
    {
      hide GoodOracle, TableOf, HasParent, Progress, Simple, Logged;
      out := nextdep;
      var j := 0;
      while j < |deps[k]|
        invariant 0 <= j <= |deps[k]|
        invariant InRound(deps, out, level, todo, k, deps[k][j..]) && GrowsAt(old(recs), recs, level + 1)
      {
        assert deps[k][j..][0] == deps[k][j] && deps[k][j..][1..] == deps[k][j + 1..];
        assert ListedFor(g, recs, level, deps[k][j], k);
        out := ProtectNext(deps, k, out, deps[k][j], level, todo, deps[k][j..]);
        j := j + 1;
      }
      assert deps[k][j..] == [];
    }

    /** One round: protects every listed break, and lists the breaks of the new paths. */
    method Round(deps: Dependencies, ghost level: nat) returns (nextdep: Dependencies)
      requires Valid() && Listed(g, dst, recs, deps, level) && LevelsUpTo(recs, level) && Complete(g, dst, recs, level)
      modifies this
      ensures Valid() && GrowsAt(old(recs), recs, level + 1) && LevelsUpTo(recs, level + 1)
      ensures Listed(g, dst, recs, nextdep, level + 1) && Complete(g, dst, recs, level + 1)
    {
      hide GoodOracle, TableOf, HasParent, Progress, Listed, Complete, ValidRecords, Logged;
      nextdep := map[];
      var todo := deps.Keys;
      RoundStarts(g, dst, recs, deps, level);
      while todo != {}
        invariant todo <= deps.Keys
        invariant InRound(deps, nextdep, level, todo, {}, []) && GrowsAt(old(recs), recs, level + 1)
      {
        var k :| k in todo;
        assert todo == todo - {k} + {k};
        todo := todo - {k};
        OpenKey(g, dst, recs, deps, level, todo, k);
        nextdep := ProtectKey(deps, k, nextdep, level, todo);
        CloseKey(g, dst, recs, level, todo, k);
      }
      RoundComplete(g, dst, old(recs), recs, level);
    }

    ghost predicate Serves(hosts: set<Vertex>)
      reads this
      requires WellFormed(g)
    {
      forall h <- hosts | h != dst :: Name(h, []) in recs <==> Connected(g, {}, h, dst)
    }

    /** The initial path of one switch. */
    method InitialPath(v: Vertex, deps: Dependencies) returns (out: Dependencies)
      requires Valid() && v != dst && Name(v, []) !in recs && Listed(g, dst, recs, deps, 0)
      modifies this
      ensures Valid() && GrowsAt(old(recs), recs, 0) && (forall n <- recs :: n in old(recs) || n.src == v)
      ensures Name(v, []) in recs <==> Connected(g, {}, v, dst)
      ensures Listed(g, dst, recs, out, 0)
    {
      hide TableOf, HasParent, Listed, ValidRecords, Avoids, Simple, WellFormed, Logged, Rivals;
      out := deps;
      var hops := oracle(calls, v, {});
      calls := calls + 1;
      if hops.Some? {
        var p := Path(v, hops.value, {}, []);
        assert LivePath(g, {}, v, dst, p.hops);
        ChosenFromLibrary(g, oracle, Mode(compressionAware, dfr), recs, Name(v, []), Record([], p), calls - 1);
        out := Install(p, {}, deps, Name(v, []), []);
      }
    }

    /** The initial path of every switch with hosts, and the breaks of these paths. */
    method InitialPaths(hosts: set<Vertex>) returns (deps: Dependencies)
      requires Valid() && recs == map[]
      modifies this
      ensures Valid() && LevelsUpTo(recs, 0) && Serves(hosts) && OnlyFrom(recs, hosts) && Listed(g, dst, recs, deps, 0)
    {
      deps := map[];
      var todo := hosts;
      while todo != {}
        invariant Valid() && LevelsUpTo(recs, 0) && Listed(g, dst, recs, deps, 0)
        invariant todo <= hosts && Serves(hosts - todo)
        invariant forall n <- recs :: n.src in hosts - todo
      {
        hide TableOf, HasParent, Listed, ValidRecords, GoodOracle, Logged;
        var v :| v in todo;
        todo := todo - {v};
        if v != dst {
          deps := InitialPath(v, deps);
        }
      }
    }

    /** Installs the initial paths and then the backups of `rounds` rounds, no more and for no other sources. */
    method Run(hosts: set<Vertex>, rounds: nat)
      requires Valid() && recs == map[]
      modifies this
      ensures Valid() && Serves(hosts)
      ensures Complete(g, dst, recs, rounds) && LevelsUpTo(recs, rounds) && OnlyFrom(recs, hosts)
    {
      hide TableOf, HasParent, Listed, GoodOracle, Logged, Avoids;
      var dependencies := InitialPaths(hosts);
      var i := 0;
      while |dependencies| > 0
        invariant 0 <= i <= rounds
        invariant Valid() && Serves(hosts) && LevelsUpTo(recs, i) && OnlyFrom(recs, hosts)
        invariant Listed(g, dst, recs, dependencies, i) && Complete(g, dst, recs, i)
        decreases rounds - i
      {
        if i == rounds {
          return;
        }
        hide Complete, ValidRecords;
        ghost var before := recs;
        dependencies := Round(dependencies, i);
        NoOtherSource(g, dst, before, recs, i, hosts);
        i := i + 1;
      }
      assert dependencies == map[];
      NothingLeft(g, dst, recs, i, rounds);
    }
  }

  /** When nothing is listed, no later round would install anything. */
  lemma NothingLeft(g: Graph, dst: Vertex, recs: Records, level: nat, rounds: nat)
    requires WellFormed(g) && ValidRecords(g, dst, recs) && LevelsUpTo(recs, level)
    requires Listed(g, dst, recs, map[], level) && Complete(g, dst, recs, level)
    ensures Complete(g, dst, recs, rounds)
  {
    forall n | n in recs ensures |n.breaks| < level {
      var k := DepKey(g, recs[n].path, 0);
      assert recs[n].path !in Deps(map[], k);
    }
  }

  lemma RoundStarts(g: Graph, dst: Vertex, recs: Records, deps: Dependencies, level: nat)
    requires WellFormed(g) && ValidRecords(g, dst, recs) && Listed(g, dst, recs, deps, level) && LevelsUpTo(recs, level)
    ensures Listed(g, dst, recs, map[], level + 1)
    ensures Progress(g, dst, recs, level, deps.Keys, {}, [])
  {
    forall n, i: nat | n in recs && |n.breaks| == level && i < |recs[n].path.hops|
      ensures ToCome(g, recs[n].path, i, deps.Keys, {}, []) && Child(n, i) !in recs
    {
      assert recs[n].path in Deps(deps, DepKey(g, recs[n].path, i));
    }
  }

  lemma OpenKey(g: Graph, dst: Vertex, recs: Records, deps: Dependencies, level: nat, todo: set<set<Edge>>, k: set<Edge>)
    requires WellFormed(g) && ValidRecords(g, dst, recs) && Listed(g, dst, recs, deps, level) && k in deps
    requires Progress(g, dst, recs, level, todo + {k}, {}, [])
    ensures Progress(g, dst, recs, level, todo, k, deps[k])
  {
    forall n, i: nat | n in recs && |n.breaks| == level && i < |recs[n].path.hops|
      ensures ToCome(g, recs[n].path, i, todo, k, deps[k]) <==> ToCome(g, recs[n].path, i, todo + {k}, {}, [])
    {
      ListedAt(g, dst, recs, deps, level, n, i);
      hide Listed, DepKey, GoodPath, HasParent;
    }
  }

  lemma ListedAt(g: Graph, dst: Vertex, recs: Records, deps: Dependencies, level: nat, n: Name, i: nat)
    requires WellFormed(g) && ValidRecords(g, dst, recs) && Listed(g, dst, recs, deps, level)
    requires n in recs && |n.breaks| == level && i < |recs[n].path.hops|
    ensures recs[n].path in Deps(deps, DepKey(g, recs[n].path, i))
  {
  }

  lemma CloseKey(g: Graph, dst: Vertex, recs: Records, level: nat, todo: set<set<Edge>>, k: set<Edge>)
    requires WellFormed(g) && ValidRecords(g, dst, recs)
    requires Progress(g, dst, recs, level, todo, k, [])
    ensures Progress(g, dst, recs, level, todo, {}, [])
  {
    forall n, i: nat | n in recs && |n.breaks| == level && i < |recs[n].path.hops|
      ensures ToCome(g, recs[n].path, i, todo, k, []) <==> ToCome(g, recs[n].path, i, todo, {}, [])
    {
    }
  }

  lemma RoundComplete(g: Graph, dst: Vertex, before: Records, recs: Records, level: nat)
    requires WellFormed(g) && ValidRecords(g, dst, before) && ValidRecords(g, dst, recs)
    requires LevelsUpTo(before, level) && Complete(g, dst, before, level) && GrowsAt(before, recs, level + 1)
    requires Progress(g, dst, recs, level, {}, {}, [])
    ensures Complete(g, dst, recs, level + 1)
  {
    forall n, i: nat | n in recs && |n.breaks| < level + 1 && i < |recs[n].path.hops| ensures Handled(g, dst, recs, n, i) {
      if |n.breaks| == level {
        assert !ToCome(g, recs[n].path, i, {}, {}, []);
      } else {
        assert n in before && Handled(g, dst, before, n, i);
      }
    }
  }

  lemma BackupFits(g: Graph, dst: Vertex, recs: Records, n: Name, i: nat, p: Path)
    requires WellFormed(g) && ValidRecords(g, dst, recs) && n in recs && i < |recs[n].path.hops| && Child(n, i) !in recs
    requires GoodPath(g, dst, p) && p == BreakAt(g, recs[n].path, i).(hops := p.hops)
    ensures Parent(Child(n, i)) == n
    ensures MayAdd(g, dst, recs, Child(n, i), Record(recs[n].route + recs[n].path.hops[..i], p))
  {
    assert Child(n, i).breaks[..|n.breaks|] == n.breaks;
  }

  /** The hop at which a path meets its known failures and one more is that one; the switch there has a port to it. */
  lemma BreakPoint(g: Graph, dst: Vertex, p: Path, i: nat)
    requires WellFormed(g) && GoodPath(g, dst, p) && i < |p.hops|
    ensures FirstFail(g, p.v, p.hops, DepKey(g, p, i)) == i
    ensures VertexAt(g, p.v, p.hops, i) != dst
    ensures EdgeAt(g, p.v, p.hops, i) in LocalFailed(g, VertexAt(g, p.v, p.hops, i), DepKey(g, p, i))
    ensures LocalFailed(g, VertexAt(g, p.v, p.hops, i), DepKey(g, p, i)) <= DepKey(g, p, i)
  {
    var F := DepKey(g, p, i);
    var e := EdgeAt(g, p.v, p.hops, i);
    var k := FirstFail(g, p.v, p.hops, F);
    if k < i {
      SimpleEdgesDistinct(g, p.v, p.hops, k, i);
    }
    assert VertexAt(g, p.v, p.hops, |p.hops|) == dst by {
      assert p.hops[..|p.hops|] == p.hops;
    }
  }
}
