/** Finite directed graphs: walks, reachability and cycles. */
module Digraphs {

  /** The arcs of a graph whose vertices are numbered. */
  type Digraph = set<(nat, nat)>

  ghost predicate IsWalk(E: Digraph, p: seq<nat>) {
    forall i | 0 <= i < |p| - 1 :: (p[i], p[i + 1]) in E
  }

  /** `p` is a walk of at least one arc from `a` to `b`. */
  ghost predicate WalkFromTo(E: Digraph, a: nat, b: nat, p: seq<nat>) {
    |p| >= 2 && p[0] == a && p[|p| - 1] == b && IsWalk(E, p)
  }

  ghost predicate Reaches(E: Digraph, a: nat, b: nat) {
    exists p :: WalkFromTo(E, a, b, p)
  }

  ghost predicate Acyclic(E: Digraph) {
    forall a :: !Reaches(E, a, a)
  }

  lemma ArcReaches(E: Digraph, a: nat, b: nat)
    requires (a, b) in E
    ensures Reaches(E, a, b)
  {
    assert WalkFromTo(E, a, b, [a, b]);
  }

  lemma ReachesTrans(E: Digraph, a: nat, b: nat, c: nat)
    requires Reaches(E, a, b) && Reaches(E, b, c)
    ensures Reaches(E, a, c)
  {
    var p :| WalkFromTo(E, a, b, p);
    var q :| WalkFromTo(E, b, c, q);
    var r := p + q[1..];
    forall i | 0 <= i < |r| - 1 ensures (r[i], r[i + 1]) in E {
      if i == |p| - 1 {
        assert r[i] == q[0] && r[i + 1] == q[1];
      } else if i >= |p| {
        assert r[i] == q[i - |p| + 1] && r[i + 1] == q[i - |p| + 2];
      } else {
        assert r[i] == p[i] && r[i + 1] == p[i + 1];
      }
    }
    assert WalkFromTo(E, a, c, r);
  }

  lemma ReachesMono(E: Digraph, E': Digraph, a: nat, b: nat)
    requires E <= E' && Reaches(E, a, b)
    ensures Reaches(E', a, b)
  {
    var p :| WalkFromTo(E, a, b, p);
    assert WalkFromTo(E', a, b, p);
  }

  /** A set that no arc leaves holds everything reachable from it. */
  lemma {:induction false} ClosedUnderWalk(E: Digraph, S: set<nat>, p: seq<nat>)
    requires p != [] && IsWalk(E, p) && p[0] in S && forall a, b | (a, b) in E && a in S :: b in S
    ensures forall i | 0 <= i < |p| :: p[i] in S
    decreases |p|
  {
    if |p| > 1 {
      var n := |p| - 1;
      ClosedUnderWalk(E, S, p[..n]);
      assert (p[n - 1], p[n]) in E && p[..n][n - 1] == p[n - 1];
      forall i | 0 <= i < |p| ensures p[i] in S {
        if i < n {
          assert p[i] == p[..n][i];
        }
      }
    }
  }

  /** Along a walk whose arcs all increase `rank`, the rank increases. */
  lemma {:induction false} RankedWalk(E: Digraph, rank: nat -> int, p: seq<nat>)
    requires |p| >= 2 && IsWalk(E, p)
    requires forall a, b | (a, b) in E :: rank(a) < rank(b)
    ensures rank(p[0]) < rank(p[|p| - 1])
    decreases |p|
  {
    var n := |p| - 1;
    assert (p[n - 1], p[n]) in E;
    if n > 1 {
      RankedWalk(E, rank, p[..n]);
    }
  }

  /** A graph with a topological numbering has no cycle, and only reaches upwards. */
  lemma RankedIsAcyclic(E: Digraph, rank: nat -> int)
    requires forall a, b | (a, b) in E :: rank(a) < rank(b)
    ensures Acyclic(E) && forall a, b | Reaches(E, a, b) :: rank(a) < rank(b)
  {
    forall a, b | Reaches(E, a, b) ensures rank(a) < rank(b) {
      var p :| WalkFromTo(E, a, b, p);
      RankedWalk(E, rank, p);
    }
  }

  lemma EmptyIsAcyclic()
    ensures Acyclic({})
  {
    RankedIsAcyclic({}, x => x);
  }

  // ---------- Connected, whatever the direction ----------

  /** The arcs in both directions. */
  function Both(E: Digraph): Digraph {
    E + set x | x in E :: (x.1, x.0)
  }

  ghost predicate Joined(E: Digraph, a: nat, b: nat) {
    a == b || Reaches(Both(E), a, b)
  }

  ghost predicate WeaklyConnected(V: set<nat>, E: Digraph) {
    forall a, b | a in V && b in V :: Joined(E, a, b)
  }

  lemma JoinedTrans(E: Digraph, a: nat, b: nat, c: nat)
    requires Joined(E, a, b) && Joined(E, b, c)
    ensures Joined(E, a, c)
  {
    if a != b && b != c {
      ReachesTrans(Both(E), a, b, c);
    }
  }

  lemma {:induction false} WalkBack(E: Digraph, p: seq<nat>)
    requires p != [] && IsWalk(Both(E), p)
    ensures Joined(E, p[|p| - 1], p[0])
    decreases |p|
  {
    if |p| > 1 {
      var n := |p| - 1;
      WalkBack(E, p[..n]);
      assert (p[n - 1], p[n]) in Both(E);
      assert (p[n], p[n - 1]) in Both(E);
      ArcReaches(Both(E), p[n], p[n - 1]);
      JoinedTrans(E, p[n], p[n - 1], p[0]);
    }
  }

  lemma JoinedSym(E: Digraph, a: nat, b: nat)
    requires Joined(E, a, b)
    ensures Joined(E, b, a)
  {
    if a != b {
      var p :| WalkFromTo(Both(E), a, b, p);
      assert p[0] == a && p[|p| - 1] == b;
      WalkBack(E, p);
    }
  }

  lemma {:induction false} JoinedMono(E: Digraph, E': Digraph, a: nat, b: nat)
    requires E <= E' && Joined(E, a, b)
    ensures Joined(E', a, b)
  {
    if a != b {
      ReachesMono(Both(E), Both(E'), a, b);
    }
  }

  lemma ArcJoins(E: Digraph, a: nat, b: nat)
    requires (a, b) in E
    ensures Joined(E, a, b) && Joined(E, b, a)
  {
    assert (a, b) in Both(E) && (b, a) in Both(E);
    ArcReaches(Both(E), a, b);
    ArcReaches(Both(E), b, a);
  }

  /** Whatever is the same at both ends of every arc is the same for all joined vertices. */
  lemma {:induction false} SameAlongWalk(E: Digraph, f: map<nat, nat>, p: seq<nat>)
    requires p != [] && IsWalk(Both(E), p) && p[0] in f
    requires forall a, b | (a, b) in E :: a in f && b in f && f[a] == f[b]
    ensures p[|p| - 1] in f && f[p[|p| - 1]] == f[p[0]]
    decreases |p|
  {
    if |p| > 1 {
      var n := |p| - 1;
      SameAlongWalk(E, f, p[..n]);
      assert (p[n - 1], p[n]) in Both(E);
    }
  }

  lemma SameWhenJoined(E: Digraph, f: map<nat, nat>, a: nat, b: nat)
    requires Joined(E, a, b) && a in f
    requires forall x, y | (x, y) in E :: x in f && y in f && f[x] == f[y]
    ensures b in f && f[a] == f[b]
  {
    if a != b {
      var p :| WalkFromTo(Both(E), a, b, p);
      SameAlongWalk(E, f, p);
    }
  }
}
