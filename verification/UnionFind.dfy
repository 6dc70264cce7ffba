/** Disjoint sets of vertices with path compression and union by rank; every set carries the edges that connect it. */
module UnionFind {
  import opened FiniteSets
  import opened Digraphs
  import opened Topology
  import opened Prefixes

  /** The vertices of one set. */
  ghost function Members(root: map<Vertex, Vertex>, r: Vertex): set<Vertex> {
    set v <- root | root[v] == r
  }

  /** The ends of edges, as arcs. */
  function Ends(T: set<Edge>): Digraph {
    set e <- T :: (e.v1, e.v2)
  }

  /** The attributes of the vertices. */
  datatype State = State(parent: map<Vertex, Vertex>, rank: map<Vertex, nat>, es: map<Vertex, set<Edge>>)

  ghost predicate Over(V: set<Vertex>, s: State, root: map<Vertex, Vertex>) {
    s.parent.Keys == V && s.rank.Keys == V && s.es.Keys == V && root.Keys == V
  }

  ghost predicate RootAt(V: set<Vertex>, s: State, root: map<Vertex, Vertex>, v: Vertex)
    requires Over(V, s, root) && v in V
  {
    && root[v] in V && root[root[v]] == root[v] && s.parent[v] in V && root[s.parent[v]] == root[v]
    && (s.parent[v] == v <==> root[v] == v)
    && (s.parent[v] != v ==> s.rank[v] < s.rank[s.parent[v]])
    && s.rank[v] <= s.rank[root[v]]
  }

  /** `root` names the set of every vertex; ranks grow towards the roots, and a set is large for its rank. */
  ghost predicate Forest(V: set<Vertex>, s: State, root: map<Vertex, Vertex>) {
    && Over(V, s, root)
    && (forall v {:trigger RootAt(V, s, root, v)} | v in V :: RootAt(V, s, root, v))
    && (forall r {:trigger Members(root, r)} | r in V && root[r] == r :: Pow2(s.rank[r]) <= |Members(root, r)|)
  }

  /** The edges of a set: as many as connect it, all inside it. */
  ghost predicate SetEdges(s: State, root: map<Vertex, Vertex>, r: Vertex)
    requires r in s.es
  {
    && |s.es[r]| + 1 == |Members(root, r)|
    && (forall e <- s.es[r] :: e.v1 in Members(root, r) && e.v2 in Members(root, r))
    && (forall v <- Members(root, r) :: Joined(Ends(s.es[r]), r, v))
  }

  /** The sets are the components of the edges `picked`, and every root has a spanning tree of its component. */
  ghost predicate Spans(V: set<Vertex>, s: State, root: map<Vertex, Vertex>, picked: set<Edge>)
    requires Over(V, s, root)
  {
    && (forall e <- picked :: e.v1 in V && e.v2 in V && root[e.v1] == root[e.v2])
    && (forall r {:trigger SetEdges(s, root, r)} | r in V && root[r] == r :: s.es[r] <= picked && SetEdges(s, root, r))
  }

  // ---------- What finding and merging do to the sets ----------

  lemma NextUp(V: set<Vertex>, s: State, root: map<Vertex, Vertex>, x: Vertex)
    requires Forest(V, s, root) && x in V
    ensures root.Keys == V && root[x] in V && root[root[x]] == root[x] && s.rank[x] <= s.rank[root[x]]
    ensures if s.parent[x] == x then root[x] == x
      else root[x] != x && s.parent[x] in V && root[s.parent[x]] == root[x] && s.rank[x] < s.rank[s.parent[x]]
  {
    hide Pow2, Members;
    assert RootAt(V, s, root, x);
  }

  /** Hanging a vertex under its root changes no set. */
  lemma Compress(V: set<Vertex>, s: State, root: map<Vertex, Vertex>, x: Vertex)
    requires Forest(V, s, root) && x in V && root[x] != x
    ensures Forest(V, s.(parent := s.parent[x := root[x]]), root)
  {
    hide Pow2;
    var s' := s.(parent := s.parent[x := root[x]]);
    assert RootAt(V, s, root, x) && RootAt(V, s, root, root[x]) && RootAt(V, s, root, s.parent[x]);
    forall v | v in V ensures RootAt(V, s', root, v) {
      assert RootAt(V, s, root, v);
    }
  }

  /** Every vertex of the sets of `a` and `b` belongs to `n` from now on. */
  ghost function Merge(root: map<Vertex, Vertex>, a: Vertex, b: Vertex, n: Vertex): map<Vertex, Vertex> {
    map v | v in root :: if root[v] == a || root[v] == b then n else root[v]
  }

  /** Hangs root `b` under root `a`, whose rank becomes `k`. */
  ghost function Under(s: State, a: Vertex, b: Vertex, k: nat, es: set<Edge>): State {
    State(s.parent[b := a], s.rank[a := k], s.es[a := es])
  }

  lemma MergedMembers(V: set<Vertex>, root: map<Vertex, Vertex>, a: Vertex, b: Vertex)
    requires root.Keys == V && a != b && a in V && b in V && root[a] == a && root[b] == b
    ensures Members(Merge(root, a, b, a), a) == Members(root, a) + Members(root, b)
    ensures |Members(Merge(root, a, b, a), a)| == |Members(root, a)| + |Members(root, b)|
    ensures forall r | r in V && r != a && r != b :: Members(Merge(root, a, b, a), r) == Members(root, r)
  {
    assert Members(root, a) !! Members(root, b);
  }

  /** The new rank is larger than that of the root that is hung under; it grows only if the ranks were equal. */
  lemma MergeForest(V: set<Vertex>, s: State, root: map<Vertex, Vertex>, a: Vertex, b: Vertex, k: nat, es: set<Edge>)
    requires Forest(V, s, root) && a in V && b in V && a != b && root[a] == a && root[b] == b
    requires if s.rank[a] > s.rank[b] then k == s.rank[a] else s.rank[a] == s.rank[b] && k == s.rank[a] + 1
    ensures Forest(V, Under(s, a, b, k, es), Merge(root, a, b, a))
  {
    hide RootAt, Members;
    MergedMembers(V, root, a, b);
    MergeRoots(V, s, root, a, b, k, es);
    var s', root' := Under(s, a, b, k, es), Merge(root, a, b, a);
    forall r {:trigger Members(root', r)} | r in V && root'[r] == r ensures Pow2(s'.rank[r]) <= |Members(root', r)| {
      assert Pow2(s.rank[r]) <= |Members(root, r)|;
      if r == a {
        assert Pow2(s.rank[b]) <= |Members(root, b)|;
      }
    }
  }

  lemma MergeRoots(V: set<Vertex>, s: State, root: map<Vertex, Vertex>, a: Vertex, b: Vertex, k: nat, es: set<Edge>)
    requires Forest(V, s, root) && a in V && b in V && a != b && root[a] == a && root[b] == b && s.rank[b] < k && s.rank[a] <= k
    ensures Over(V, Under(s, a, b, k, es), Merge(root, a, b, a))
    ensures forall v {:trigger RootAt(V, Under(s, a, b, k, es), Merge(root, a, b, a), v)} | v in V ::
      RootAt(V, Under(s, a, b, k, es), Merge(root, a, b, a), v)
  {
    hide Members, Pow2, RootAt;
    forall v | v in V ensures RootAt(V, Under(s, a, b, k, es), Merge(root, a, b, a), v) {
      NextUp(V, s, root, v);
      assert RootAt(V, s, root, v) && RootAt(V, s, root, a) && RootAt(V, s, root, b) && RootAt(V, s, root, s.parent[v]);
      MergeRootAt(V, s, root, a, b, k, es, v);
    }
  }

  lemma MergeRootAt(V: set<Vertex>, s: State, root: map<Vertex, Vertex>, a: Vertex, b: Vertex, k: nat, es: set<Edge>, v: Vertex)
    requires Over(V, s, root) && a in V && b in V && a != b && root[a] == a && root[b] == b && s.rank[b] < k && s.rank[a] <= k
    requires v in V && s.parent[v] in V && RootAt(V, s, root, v) && RootAt(V, s, root, a) && RootAt(V, s, root, b) && RootAt(V, s, root, s.parent[v])
    ensures RootAt(V, Under(s, a, b, k, es), Merge(root, a, b, a), v)
  {
    var s', root' := Under(s, a, b, k, es), Merge(root, a, b, a);
    if v == b {
      assert s'.parent[v] == a;
    } else {
      assert s'.parent[v] == s.parent[v];
    }
  }

  /** With the edge between them, the edges of two sets connect the merged set. */
  lemma MergeSpans(V: set<Vertex>, s: State, root: map<Vertex, Vertex>, picked: set<Edge>, a: Vertex, b: Vertex, k: nat, e: Edge)
    requires Forest(V, s, root) && Spans(V, s, root, picked) && a in V && b in V && a != b && root[a] == a && root[b] == b
    requires e.v1 in V && e.v2 in V && {root[e.v1], root[e.v2]} == {a, b} && e !in picked
    ensures var s', root' := Under(s, a, b, k, s.es[a] + s.es[b] + {e}), Merge(root, a, b, a);
      Over(V, s', root') && Spans(V, s', root', picked + {e})
  {
    hide SetEdges, RootAt, Pow2, Members;
    var es := s.es[a] + s.es[b] + {e};
    var s', root' := Under(s, a, b, k, es), Merge(root, a, b, a);
    assert SetEdges(s, root, a) && SetEdges(s, root, b);
    MergedSetEdges(V, s, root, picked, a, b, k, e);
    forall r | r in V && root'[r] == r ensures s'.es[r] <= picked + {e} && SetEdges(s', root', r) {
      if r != a {
        assert SetEdges(s, root, r);
        OtherSetEdges(V, s, root, a, b, k, es, r);
      }
    }
  }

  lemma MergedSetEdges(V: set<Vertex>, s: State, root: map<Vertex, Vertex>, picked: set<Edge>, a: Vertex, b: Vertex, k: nat, e: Edge)
    requires Over(V, s, root) && a in V && b in V && a != b && root[a] == a && root[b] == b && SetEdges(s, root, a) && SetEdges(s, root, b)
    requires e.v1 in V && e.v2 in V && {root[e.v1], root[e.v2]} == {a, b} && e !in picked && s.es[a] <= picked && s.es[b] <= picked
    ensures SetEdges(Under(s, a, b, k, s.es[a] + s.es[b] + {e}), Merge(root, a, b, a), a)
  {
    hide Joined, Ends;
    MergedMembers(V, root, a, b);
    MergedJoined(s, root, a, b, e);
    EdgesApart(s, root, a, b, e, picked);
  }

  lemma OtherSetEdges(V: set<Vertex>, s: State, root: map<Vertex, Vertex>, a: Vertex, b: Vertex, k: nat, es: set<Edge>, r: Vertex)
    requires Over(V, s, root) && a in V && b in V && a != b && root[a] == a && root[b] == b && r in V && r != a && r != b && SetEdges(s, root, r)
    ensures SetEdges(Under(s, a, b, k, es), Merge(root, a, b, a), r)
  {
    hide Joined, Ends;
    MergedMembers(V, root, a, b);
  }

  lemma EdgesApart(s: State, root: map<Vertex, Vertex>, a: Vertex, b: Vertex, e: Edge, picked: set<Edge>)
    requires a in s.es && b in s.es && a != b && SetEdges(s, root, a) && SetEdges(s, root, b)
    requires e !in picked && s.es[a] <= picked && s.es[b] <= picked
    ensures |s.es[a] + s.es[b] + {e}| == |s.es[a]| + |s.es[b]| + 1
  {
    hide Joined, Ends;
    forall f | f in s.es[a] && f in s.es[b] ensures f.v1 in Members(root, a) && f.v1 in Members(root, b) {
    }
    assert s.es[a] !! s.es[b];
  }

  lemma MergedJoined(s: State, root: map<Vertex, Vertex>, a: Vertex, b: Vertex, e: Edge)
    requires a in s.es && b in s.es && SetEdges(s, root, a) && SetEdges(s, root, b)
    requires (e.v1 in Members(root, a) && e.v2 in Members(root, b)) || (e.v2 in Members(root, a) && e.v1 in Members(root, b))
    ensures forall v <- Members(root, a) + Members(root, b) :: Joined(Ends(s.es[a] + s.es[b] + {e}), a, v)
  {
    hide Joined;
    var es := s.es[a] + s.es[b] + {e};
    var x, y := if e.v1 in Members(root, a) && e.v2 in Members(root, b) then e.v1 else e.v2, if e.v1 in Members(root, a) && e.v2 in Members(root, b) then e.v2 else e.v1;
    EndsMono(s.es[a], es);
    EndsMono(s.es[b], es);
    assert (e.v1, e.v2) in Ends(es);
    ArcJoins(Ends(es), e.v1, e.v2);
    JoinedMono(Ends(s.es[a]), Ends(es), a, x);
    JoinedMono(Ends(s.es[b]), Ends(es), b, y);
    JoinedSym(Ends(es), b, y);
    JoinedTrans(Ends(es), a, x, y);
    JoinedTrans(Ends(es), a, y, b);
    forall v <- Members(root, a) + Members(root, b) ensures Joined(Ends(es), a, v) {
      if v in Members(root, a) {
        JoinedMono(Ends(s.es[a]), Ends(es), a, v);
      } else {
        JoinedMono(Ends(s.es[b]), Ends(es), b, v);
        JoinedTrans(Ends(es), a, b, v);
      }
    }
  }

  lemma EndsMono(a: set<Edge>, b: set<Edge>)
    requires a <= b
    ensures Ends(a) <= Ends(b)
  {
  }

  // ---------- The data structure ----------

  /** The rank of root `a` once `b` hangs under it. */
  ghost function RankAfter(s: State, a: Vertex, b: Vertex): nat
    requires a in s.rank && b in s.rank
  {
    if s.rank[a] == s.rank[b] then s.rank[a] + 1 else s.rank[a]
  }

  lemma MergeState(V: set<Vertex>, s: State, root: map<Vertex, Vertex>, picked: set<Edge>, a: Vertex, b: Vertex, e: Edge)
    requires Forest(V, s, root) && Over(V, s, root) && Spans(V, s, root, picked) && a in V && b in V && a != b && root[a] == a && root[b] == b
    requires e.v1 in V && e.v2 in V && {root[e.v1], root[e.v2]} == {a, b} && e !in picked && s.rank[b] <= s.rank[a]
    ensures var s', root' := Under(s, a, b, RankAfter(s, a, b), s.es[a] + s.es[b] + {e}), Merge(root, a, b, a);
      Over(V, s', root') && Forest(V, s', root') && Spans(V, s', root', picked + {e})
  {
    hide Forest, Spans;
    MergeForest(V, s, root, a, b, RankAfter(s, a, b), s.es[a] + s.es[b] + {e});
    MergeSpans(V, s, root, picked, a, b, RankAfter(s, a, b), e);
  }

  lemma UnderIs(s: State, t: State, a: Vertex, b: Vertex, e: Edge)
    requires a in s.rank && b in s.rank && a in s.es && b in s.es && t.parent == s.parent[b := a]
    requires t.rank == (if s.rank[a] == s.rank[b] then s.rank[a := s.rank[a] + 1] else s.rank)
    requires t.es == s.es[a := s.es[a] + s.es[b] + {e}] || t.es == s.es[a := s.es[b] + s.es[a] + {e}]
    ensures t == Under(s, a, b, RankAfter(s, a, b), s.es[a] + s.es[b] + {e})
  {
    assert s.es[a] + s.es[b] + {e} == s.es[b] + s.es[a] + {e};
    assert s.rank[a := s.rank[a]] == s.rank;
  }

  /** The set of larger rank takes the other one in; of equals the first one, whose rank grows. */
  ghost predicate FirstTakes(s: State, x: Vertex, y: Vertex)
    requires x in s.rank && y in s.rank
  {
    s.rank[x] >= s.rank[y]
  }

  ghost function ByRank(s: State, x: Vertex, y: Vertex, e: Edge): State
    requires x in s.rank && y in s.rank && x in s.es && y in s.es
  {
    if FirstTakes(s, x, y) then Under(s, x, y, RankAfter(s, x, y), s.es[x] + s.es[y] + {e})
    else Under(s, y, x, RankAfter(s, y, x), s.es[y] + s.es[x] + {e})
  }

  ghost function RootsByRank(s: State, root: map<Vertex, Vertex>, x: Vertex, y: Vertex): map<Vertex, Vertex>
    requires x in s.rank && y in s.rank
  {
    if FirstTakes(s, x, y) then Merge(root, x, y, x) else Merge(root, y, x, y)
  }

  /** From each vertex to its parent. */
  ghost predicate Climbs(parent: map<Vertex, Vertex>, p: seq<Vertex>) {
    p != [] && forall i | 0 <= i < |p| - 1 :: p[i] in parent && p[i + 1] == parent[p[i]]
  }

  ghost predicate OnWay(parent: map<Vertex, Vertex>, x: Vertex, v: Vertex) {
    exists p :: Climbs(parent, p) && p[0] == x && p[|p| - 1] == v
  }

  /** The vertices on the way from `x` to the root `r` hang under it, and the others where they did. */
  ghost predicate Compressed(before: map<Vertex, Vertex>, after: map<Vertex, Vertex>, x: Vertex, r: Vertex) {
    && after.Keys == before.Keys
    && forall v <- before :: after[v] == if OnWay(before, x, v) then r else before[v]
  }

  lemma {:induction false} RootStays(parent: map<Vertex, Vertex>, x: Vertex, p: seq<Vertex>, i: nat)
    requires x in parent && parent[x] == x && Climbs(parent, p) && p[0] == x && i < |p|
    ensures p[i] == x
  {
    if i > 0 {
      RootStays(parent, x, p, i - 1);
    }
  }

  lemma CompressedRoot(parent: map<Vertex, Vertex>, x: Vertex)
    requires x in parent && parent[x] == x
    ensures Compressed(parent, parent, x, x)
  {
    forall v | v in parent && OnWay(parent, x, v) ensures v == x {
      var p :| Climbs(parent, p) && p[0] == x && p[|p| - 1] == v;
      RootStays(parent, x, p, |p| - 1);
    }
  }

  /** The way from `x` goes on from its parent. */
  lemma WayFrom(parent: map<Vertex, Vertex>, x: Vertex, v: Vertex)
    requires x in parent
    ensures OnWay(parent, x, v) <==> v == x || OnWay(parent, parent[x], v)
  {
    if OnWay(parent, x, v) && v != x {
      var p :| Climbs(parent, p) && p[0] == x && p[|p| - 1] == v;
      assert Climbs(parent, p[1..]);
    }
    if OnWay(parent, parent[x], v) {
      var p :| Climbs(parent, p) && p[0] == parent[x] && p[|p| - 1] == v;
      assert Climbs(parent, [x] + p);
    }
    assert Climbs(parent, [x]);
  }

  lemma CompressedMore(before: map<Vertex, Vertex>, mid: map<Vertex, Vertex>, x: Vertex, r: Vertex)
    requires x in before && Compressed(before, mid, before[x], r)
    ensures Compressed(before, mid[x := r], x, r)
  {
    hide OnWay;
    forall v <- before ensures mid[x := r][v] == if OnWay(before, x, v) then r else before[v] {
      WayFrom(before, x, v);
    }
  }

  /** The attributes that the vertices carry while a tree is built, each as a map from the vertices. */
  class DisjointSets {
    var parent: map<Vertex, Vertex>
    var rank: map<Vertex, nat>
    var es: map<Vertex, set<Edge>>

    ghost function Abs(): State
      reads this
    {
      State(parent, rank, es)
    }

    /** Every vertex is a set of its own. */
    constructor (V: set<Vertex>)
      ensures Forest(V, Abs(), map v | v in V :: v) && Spans(V, Abs(), map v | v in V :: v, {})
    {
      parent := map v | v in V :: v;
      rank := map v | v in V :: 0;
      es := map v | v in V :: {};
      new;
      Singletons(V);
    }

    lemma Singletons(V: set<Vertex>)
      requires parent == (map v | v in V :: v) && rank == (map v | v in V :: 0) && es == (map v | v in V :: {})
      ensures Forest(V, Abs(), map v | v in V :: v) && Spans(V, Abs(), map v | v in V :: v, {})
    {
      var root := map v | v in V :: v;
      forall r | r in V ensures Members(root, r) == {r} {
      }
    }

    /** The root of the set of `x`; every vertex on the way is hung under it. */
    method Find(V: set<Vertex>, x: Vertex, ghost root: map<Vertex, Vertex>) returns (r: Vertex)
      requires Forest(V, Abs(), root) && x in V
      modifies this`parent
      ensures Forest(V, Abs(), root) && x in root && r == root[x] && Compressed(old(parent), parent, x, r)
      decreases if x in rank && x in root && root[x] in rank then (rank[root[x]] as int) - (rank[x] as int) else 0
    {
      hide Forest, Compressed;
      NextUp(V, Abs(), root, x);
      OverKeys(V, Abs(), root);
      if parent[x] == x {
        CompressedRoot(parent, x);
        return x;
      }
      r := Find(V, parent[x], root);
      Compress(V, Abs(), root, x);
      CompressedMore(old(parent), parent, x, r);
      parent := parent[x := r];
    }

    /** Merges the sets of `x` and `y`, which `e` connects; without a new root when they are the same, which is an error. */
    method Union(V: set<Vertex>, x: Vertex, y: Vertex, e: Edge, ghost root: map<Vertex, Vertex>, ghost picked: set<Edge>) returns (ghost root': map<Vertex, Vertex>)
      requires Forest(V, Abs(), root) && Spans(V, Abs(), root, picked) && x in V && y in V && root[x] != root[y]
      requires e.v1 in V && e.v2 in V && {e.v1, e.v2} == {x, y} && e !in picked
      modifies this
      ensures Forest(V, Abs(), root') && Spans(V, Abs(), root', picked + {e})
      ensures Over(V, old(Abs()), root) && root[x] in V && root[y] in V && root' == RootsByRank(old(Abs()), root, root[x], root[y])
      ensures var s := ByRank(old(Abs()), root[x], root[y], e); rank == s.rank && es == s.es
    {
      hide Forest, Spans, Merge;
      OverKeys(V, Abs(), root);
      var xRoot := FindKeeping(V, x, root, picked);
      var yRoot := FindKeeping(V, y, root, picked);
      ghost var s := Abs();
      OverKeys(V, s, root);
      NextUp(V, s, root, x);
      NextUp(V, s, root, y);
      root' := JoinRoots(V, xRoot, yRoot, e, root, picked);
    }

    method JoinRoots(V: set<Vertex>, xRoot: Vertex, yRoot: Vertex, e: Edge, ghost root: map<Vertex, Vertex>, ghost picked: set<Edge>)
      returns (ghost root': map<Vertex, Vertex>)
      requires Forest(V, Abs(), root) && Over(V, Abs(), root) && Spans(V, Abs(), root, picked)
      requires xRoot in V && yRoot in V && xRoot != yRoot && root[xRoot] == xRoot && root[yRoot] == yRoot
      requires e.v1 in V && e.v2 in V && {root[e.v1], root[e.v2]} == {xRoot, yRoot} && e !in picked
      modifies this
      ensures Forest(V, Abs(), root') && Spans(V, Abs(), root', picked + {e})
      ensures Abs() == ByRank(old(Abs()), xRoot, yRoot, e) && root' == RootsByRank(old(Abs()), root, xRoot, yRoot)
    {
      hide Forest, Spans, Under, Merge;
      ghost var s := Abs();
      var newRoot;
      if rank[xRoot] > rank[yRoot] {
        parent := parent[yRoot := xRoot];
        newRoot := xRoot;
      } else if rank[xRoot] < rank[yRoot] {
        parent := parent[xRoot := yRoot];
        newRoot := yRoot;
      } else {
        parent := parent[yRoot := xRoot];
        rank := rank[xRoot := rank[xRoot] + 1];
        newRoot := xRoot;
      }
      es := es[newRoot := es[xRoot] + es[yRoot] + {e}];
      ghost var oldRoot := if newRoot == xRoot then yRoot else xRoot;
      root' := Merge(root, newRoot, oldRoot, newRoot);
      MergeState(V, s, root, picked, newRoot, oldRoot, e);
      UnderIs(s, Abs(), newRoot, oldRoot, e);
    }

    /** Finding leaves the edges of the sets alone. */
    method FindKeeping(V: set<Vertex>, x: Vertex, ghost root: map<Vertex, Vertex>, ghost picked: set<Edge>) returns (r: Vertex)
      requires Forest(V, Abs(), root) && Spans(V, Abs(), root, picked) && x in V
      modifies this`parent
      ensures Forest(V, Abs(), root) && Spans(V, Abs(), root, picked) && x in root && r == root[x]
    {
      hide Forest;
      ghost var s := Abs();
      OverKeys(V, s, root);
      r := Find(V, x, root);
      OverKeys(V, Abs(), root);
      SameSpans(V, s, Abs(), root, picked);
    }
  }

  lemma OverKeys(V: set<Vertex>, s: State, root: map<Vertex, Vertex>)
    requires Forest(V, s, root)
    ensures Over(V, s, root)
  {
  }

  /** Whether the edges span the sets does not depend on the parents. */
  lemma SameSpans(V: set<Vertex>, s: State, t: State, root: map<Vertex, Vertex>, picked: set<Edge>)
    requires Over(V, s, root) && Spans(V, s, root, picked) && Over(V, t, root) && t.es == s.es
    ensures Spans(V, t, root, picked)
  {
    hide Joined, Members, Ends;
    forall r | r in V && root[r] == r ensures t.es[r] <= picked && SetEdges(t, root, r) {
      assert SetEdges(s, root, r);
    }
  }
}
