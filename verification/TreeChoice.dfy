/** Which trees of the forest a destination uses: the nearest ones, but no more of the first layer than asked for if others are left. */
module TreeChoice {
  import opened Wrappers
  import opened FiniteSets
  import opened Topology
  import opened TreePaths

  // ---------- Distances ----------

  /** The hops of all switches to the destination; the average is this by the number of switches. */
  ghost function PathSum(V: set<Vertex>, t: Tree): nat
    requires V <= t.paths.Keys
    decreases |V|
  {
    if V == {} then 0 else
      var v :| v in V;
      Depth(t, v) + PathSum(V - {v}, t)
  }

  lemma {:induction false} PathSumRemove(V: set<Vertex>, t: Tree, v: Vertex)
    requires V <= t.paths.Keys && v in V
    ensures PathSum(V, t) == Depth(t, v) + PathSum(V - {v}, t)
    decreases |V|
  {
    var u :| u in V && PathSum(V, t) == Depth(t, u) + PathSum(V - {u}, t);
    if u != v {
      PathSumRemove(V - {u}, t, v);
      PathSumRemove(V - {v}, t, u);
      assert V - {u} - {v} == V - {v} - {u};
    }
  }

  method SumPaths(V: set<Vertex>, t: Tree) returns (sum: nat)
    requires V <= t.paths.Keys
    ensures sum == PathSum(V, t)
  {
    var todo := V;
    sum := 0;
    while todo != {}
      invariant todo <= V && sum + PathSum(todo, t) == PathSum(V, t)
    {
      var v :| v in todo;
      PathSumRemove(todo, t, v);
      sum, todo := sum + Depth(t, v), todo - {v};
    }
  }

  lemma {:induction false} NearestOne(dist: seq<nat>, todo: set<nat>) returns (m: nat)
    requires todo != {} && forall x <- todo :: x < |dist|
    ensures m in todo && forall x <- todo :: dist[m] <= dist[x]
    decreases |todo|
  {
    var x :| x in todo;
    if todo == {x} {
      m := x;
    } else {
      assert todo - {x} != {} by {
        assert todo != {x};
      }
      var k := NearestOne(dist, todo - {x});
      m := if dist[k] < dist[x] then k else x;
    }
  }

  lemma {:induction false} FarthestOne(dist: seq<nat>, todo: set<nat>) returns (m: nat)
    requires todo != {} && forall x <- todo :: x < |dist|
    ensures m in todo && forall x <- todo :: dist[x] <= dist[m]
    decreases |todo|
  {
    var x :| x in todo;
    if todo == {x} {
      m := x;
    } else {
      assert todo - {x} != {} by {
        assert todo != {x};
      }
      var k := FarthestOne(dist, todo - {x});
      m := if dist[k] > dist[x] then k else x;
    }
  }

  ghost predicate ByDistance(dist: seq<nat>, order: seq<nat>) {
    && NoDup(order) && (forall k | 0 <= k < |order| :: order[k] < |dist|)
    && forall j, k | 0 <= j < k < |order| :: dist[order[j]] <= dist[order[k]]
  }

  /** All trees, nearest first; ties come in any order. */
  method SortByDistance(dist: seq<nat>) returns (order: seq<nat>)
    ensures ByDistance(dist, order) && |order| == |dist| && Elems(order) == Below(|dist|)
  {
    hide Below, ByDistance;
    order := [];
    NothingOrdered(dist);
    var todo := Below(|dist|);
    while todo != {}
      invariant todo <= Below(|dist|) && |order| + |todo| == |dist| && Elems(order) == Below(|dist|) - todo
      invariant Ahead(dist, order, todo)
      decreases |todo|
    {
      ghost var m := NearestOne(dist, todo);
      var x :| x in todo && forall y <- todo :: dist[x] <= dist[y];
      OrderNext(dist, order, todo, x);
      order, todo := order + [x], todo - {x};
    }
  }

  /** The order so far, and what comes behind it. */
  ghost predicate Ahead(dist: seq<nat>, order: seq<nat>, todo: set<nat>) {
    && ByDistance(dist, order) && (forall x <- todo :: x < |dist|)
    && forall k, x | 0 <= k < |order| && x in todo :: order[k] != x && order[k] < |dist| && dist[order[k]] <= dist[x]
  }

  lemma NothingOrdered(dist: seq<nat>)
    ensures Ahead(dist, [], Below(|dist|)) && Elems<nat>([]) == {}
  {
  }

  lemma OrderNext(dist: seq<nat>, order: seq<nat>, todo: set<nat>, x: nat)
    requires Ahead(dist, order, todo) && x in todo && forall y <- todo :: y < |dist| && dist[x] <= dist[y]
    ensures Ahead(dist, order + [x], todo - {x}) && Elems(order + [x]) == Elems(order) + {x}
  {
  }

  // ---------- The choice ----------

  /** Of the trees of one kind, those chosen are nearest. */
  ghost predicate NearestOf(dist: seq<nat>, top: set<nat>, kind: set<nat>) {
    forall a, b | a in top && a in kind && b in kind && b !in top && a < |dist| && b < |dist| :: dist[a] <= dist[b]
  }

  /**
   What is chosen: `n` trees, the nearest of the first layer and the nearest of the others. There are more than `maxl1`
   trees of the first layer only if all others are chosen too, and fewer only if the nearest trees of all are chosen.
   */
  ghost predicate Chosen(dist: seq<nat>, first: set<nat>, n: nat, maxl1: nat, top: set<nat>) {
    && top <= Below(|dist|) && |top| == n
    && NearestOf(dist, top, first) && NearestOf(dist, top, Below(|dist|) - first)
    && (|top * first| <= maxl1 || Below(|dist|) - first <= top)
    && (|top * first| >= maxl1 || NearestOf(dist, top, Below(|dist|)))
  }

  /** In the middle of the exchange: the trees before `next` are looked at, the others of them are in. */
  ghost predicate Choosing(dist: seq<nat>, order: seq<nat>, first: set<nat>, n: nat, maxl1: nat, next: nat, top: set<nat>) {
    && n <= next <= |order| && |top| == n && top <= Elems(order[..next])
    && NearestOf(dist, top, first) && Elems(order[..next]) - first <= top
    && (top == Elems(order[..n]) || |top * first| >= maxl1)
  }

  lemma ChoiceStarts(dist: seq<nat>, order: seq<nat>, first: set<nat>, n: nat, maxl1: nat)
    requires ByDistance(dist, order) && Elems(order) == Below(|dist|) && n <= |order|
    ensures Choosing(dist, order, first, n, maxl1, n, Elems(order[..n])) && NearestOf(dist, Elems(order[..n]), Below(|dist|))
  {
    hide Below;
    ElemsCount(order[..n]);
    FirstAreNearest(dist, order, n);
  }

  lemma {:induction false} ElemsCount(s: seq<nat>)
    requires NoDup(s)
    ensures |Elems(s)| == |s|
  {
    if s == [] {
    } else {
      var n := |s| - 1;
      ElemsCount(s[..n]);
      assert s == s[..n] + [s[n]] && Elems(s) == Elems(s[..n]) + {s[n]};
    }
  }

  lemma FirstAreNearest(dist: seq<nat>, order: seq<nat>, n: nat)
    requires ByDistance(dist, order) && Elems(order) == Below(|dist|) && n <= |order|
    ensures forall a: nat, b: nat | a in order[..n] && b < |dist| && b !in order[..n] :: a < |dist| && dist[a] <= dist[b]
  {
    hide Below;
    forall a: nat, b: nat | a in order[..n] && b < |dist| && b !in order[..n] ensures a < |dist| && dist[a] <= dist[b] {
      OneIsNearer(dist, order, n, a, b);
    }
  }

  lemma OneIsNearer(dist: seq<nat>, order: seq<nat>, n: nat, a: nat, b: nat)
    requires ByDistance(dist, order) && Elems(order) == Below(|dist|) && n <= |order|
    requires a in order[..n] && b < |dist| && b !in order[..n]
    ensures a < |dist| && dist[a] <= dist[b]
  {
    hide Below;
    var j :| 0 <= j < n && order[..n][j] == a;
    assert order[j] == a && b in Elems(order);
    assert forall k | 0 <= k < n :: order[..n][k] == order[k];
    var k :| 0 <= k < |order| && order[k] == b;
  }

  /** The farthest tree of the first layer makes room for the next other tree. */
  lemma Exchange(dist: seq<nat>, order: seq<nat>, first: set<nat>, n: nat, maxl1: nat, next: nat, top: set<nat>, badt: nat)
    requires ByDistance(dist, order) && Choosing(dist, order, first, n, maxl1, next, top) && next < |order|
    requires badt in top * first && (forall x <- top * first :: x < |dist| && dist[x] <= dist[badt]) && |top * first| > maxl1
    ensures Choosing(dist, order, first, n, maxl1, next + 1, if order[next] in first then top else top - {badt} + {order[next]})
  {
    hide Below;
    hide ByDistance, NearestOf;
    var newt := order[next];
    NewTree(dist, order, next);
    if newt !in first {
      var top' := top - {badt} + {newt};
      assert top' * first == top * first - {badt};
      assert |top - {badt}| == n - 1 && newt !in top - {badt};
      StaysNearest(dist, top, first, badt, newt);
    }
  }

  lemma NewTree(dist: seq<nat>, order: seq<nat>, next: nat)
    requires ByDistance(dist, order) && next < |order|
    ensures order[next] !in Elems(order[..next]) && Elems(order[..next + 1]) == Elems(order[..next]) + {order[next]}
  {
    assert order[..next + 1] == order[..next] + [order[next]];
  }

  lemma StaysNearest(dist: seq<nat>, top: set<nat>, first: set<nat>, badt: nat, newt: nat)
    requires NearestOf(dist, top, first) && newt !in first
    requires badt in top * first && badt < |dist| && forall x <- top * first :: x < |dist| && dist[x] <= dist[badt]
    ensures NearestOf(dist, top - {badt} + {newt}, first)
  {
    forall a: nat, b: nat | a in top - {badt} + {newt} && a in first && b in first && b !in top - {badt} + {newt} && a < |dist| && b < |dist|
      ensures dist[a] <= dist[b]
    {
      assert a in top * first;
    }
  }

  lemma ChoiceEnds(dist: seq<nat>, order: seq<nat>, first: set<nat>, n: nat, maxl1: nat, next: nat, top: set<nat>)
    requires ByDistance(dist, order) && Elems(order) == Below(|dist|) && |order| == |dist|
    requires Choosing(dist, order, first, n, maxl1, next, top) && (|top * first| <= maxl1 || next == |order|)
    ensures Chosen(dist, first, n, maxl1, top)
  {
    hide Below, ByDistance;
    InRange(dist, order, first, n, maxl1, next, top);
    if next == |order| {
      assert order[..next] == order;
    }
    forall a: nat, b: nat | a in top && a !in first && b < |dist| && b !in first && b !in top ensures dist[a] <= dist[b] {
      assert a in order[..next] && b !in Elems(order[..next]);
      OneIsNearer(dist, order, next, a, b);
    }
    if |top * first| < maxl1 {
      forall a: nat, b: nat | a in top && b < |dist| && b !in top ensures dist[a] <= dist[b] {
        assert a in Elems(order[..n]) && b !in Elems(order[..n]);
        OneIsNearer(dist, order, n, a, b);
      }
    }
  }

  /** Chooses `numTrees` trees, or all if there are no more. */
  method ChooseTrees(dist: seq<nat>, first: set<nat>, numTrees: nat, maxl1: nat) returns (top: set<nat>)
    ensures Chosen(dist, first, if numTrees > |dist| then |dist| else numTrees, maxl1, top)
  {
    hide Choosing, Chosen, ByDistance, NearestOf, Below, Elems;
    var order := SortByDistance(dist);
    var n := if numTrees > |dist| then |dist| else numTrees;
    top := Elems(order[..n]);
    var nextTree := n;
    ChoiceStarts(dist, order, first, n, maxl1);
    while |top * first| > maxl1 && nextTree < |dist|
      invariant Choosing(dist, order, first, n, maxl1, nextTree, top)
      invariant nextTree <= |dist|
      decreases |dist| - nextTree
    {
      InRange(dist, order, first, n, maxl1, nextTree, top);
      ghost var m := FarthestOne(dist, top * first);
      var badt :| badt in top * first && forall x <- top * first :: dist[x] <= dist[badt];
      Exchange(dist, order, first, n, maxl1, nextTree, top, badt);
      var newt := order[nextTree];
      if newt !in first {
        top := top - {badt} + {newt};
      }
      nextTree := nextTree + 1;
    }
    ChoiceEnds(dist, order, first, n, maxl1, nextTree, top);
  }

  lemma InRange(dist: seq<nat>, order: seq<nat>, first: set<nat>, n: nat, maxl1: nat, next: nat, top: set<nat>)
    requires ByDistance(dist, order) && Choosing(dist, order, first, n, maxl1, next, top)
    ensures forall x <- top :: x < |dist|
  {
    forall x <- top ensures x < |dist| {
      assert x in order[..next];
    }
  }

  lemma TwoKinds(s: set<nat>, first: set<nat>)
    ensures |s| == |s * first| + |s - first|
  {
    assert s == s * first + (s - first);
  }

  /** With room for all other trees beside `maxl1` of the first layer, all of them are chosen. */
  lemma AllOthersChosen(dist: seq<nat>, first: set<nat>, n: nat, maxl1: nat, top: set<nat>)
    requires Chosen(dist, first, n, maxl1, top) && first <= Below(|dist|) && n + |first| >= maxl1 + |dist|
    ensures Below(|dist|) - first <= top && |top * first| == n + |first| - |dist|
  {
    hide Below, NearestOf;
    var others := Below(|dist|) - first;
    TwoKinds(Below(|dist|), first);
    assert Below(|dist|) * first == first;
    TwoKinds(top, first);
    SubsetSize(top - first, others);
    assert |Below(|dist|)| == |dist| && |others| == |dist| - |first|;
    assert |top - first| == n - |top * first|;
    if |top * first| <= maxl1 {
      assert top - first == others;
    } else {
      assert others <= top - first;
      assert top - first == others;
    }
  }
}
