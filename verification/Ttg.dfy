/** Tree-transition graphs: on which trees a packet may continue when its tree fails. */
module Ttg {
  import opened Digraphs

  /** A TTG over trees `0..n`, and its first layer. */
  datatype Graph = Graph(n: nat, E: Digraph, l1: set<nat>)

  ghost predicate Occupied(level: seq<nat>, k: nat) {
    exists i | 0 <= i < |level| :: level[i] == k
  }

  ghost predicate EnteredFromBelow(E: Digraph, level: seq<nat>, b: nat)
    requires b < |level|
  {
    exists a: nat :: a < |level| && level[a] + 1 == level[b] && (a, b) in E
  }

  /**
   `level` sorts the trees into `L` layers: arcs stay in a layer or lead into the next one, every tree of the next
   layer has an arc from this one, and every tree of a layer reaches every tree of the next.
   */
  ghost predicate Tiered(t: Graph, level: seq<nat>, L: nat) {
    && |level| == t.n && (forall i | 0 <= i < t.n :: level[i] < L)
    && (forall k: nat | k < L :: Occupied(level, k))
    && (forall a, b | (a, b) in t.E :: a < t.n && b < t.n && level[a] <= level[b] <= level[a] + 1)
    && (forall b: nat | b < t.n && level[b] > 0 :: EnteredFromBelow(t.E, level, b))
    && (forall a: nat, b: nat | a < t.n && b < t.n && level[a] + 1 == level[b] :: Reaches(t.E, a, b))
    && (forall a: nat | a < t.n :: a in t.l1 <==> level[a] == 0)
    && (forall a <- t.l1 :: a < t.n)
  }

  ghost predicate GoodTtg(t: Graph, level: seq<nat>, L: nat) {
    Acyclic(t.E) && Tiered(t, level, L)
  }

  /** Every tree reaches every tree of all later layers. */
  lemma {:induction false} TiersReach(t: Graph, level: seq<nat>, L: nat, a: nat, b: nat)
    requires Tiered(t, level, L) && a < t.n && b < t.n && level[a] < level[b]
    ensures Reaches(t.E, a, b)
    decreases level[b]
  {
    if level[a] + 1 < level[b] {
      assert EnteredFromBelow(t.E, level, b);
      var c: nat :| c < t.n && level[c] + 1 == level[b] && (c, b) in t.E;
      TiersReach(t, level, L, a, c);
      ArcReaches(t.E, c, b);
      ReachesTrans(t.E, a, c, b);
    }
  }

  function Range(lo: nat, hi: nat): (r: set<nat>)
    ensures forall i :: i in r <==> lo <= i < hi
  {
    if hi <= lo then {} else Range(lo, hi - 1) + {hi - 1}
  }

  lemma {:induction false} RangeSize(lo: nat, hi: nat)
    requires lo <= hi
    ensures |Range(lo, hi)| == hi - lo
    decreases hi
  {
    if lo < hi {
      RangeSize(lo, hi - 1);
    }
  }

  /** The arcs of the line from `lo` to `hi - 1`. */
  function Line(lo: nat, hi: nat): (r: Digraph)
    ensures forall a, b :: (a, b) in r <==> lo <= a && b == a + 1 && b < hi
  {
    if hi <= lo + 1 then {} else Line(lo, hi - 1) + {(hi - 2, hi - 1)}
  }

  lemma {:induction false} LineReaches(E: Digraph, lo: nat, hi: nat, a: nat, b: nat)
    requires Line(lo, hi) <= E && lo <= a < b < hi
    ensures Reaches(E, a, b)
    decreases b
  {
    assert (b - 1, b) in Line(lo, hi);
    ArcReaches(E, b - 1, b);
    if a < b - 1 {
      LineReaches(E, lo, hi, a, b - 1);
      ReachesTrans(E, a, b - 1, b);
    }
  }

  // ---------- The builders ----------

  /** No transitions at all: every tree is in the first layer. */
  method TtgNores(n: nat) returns (t: Graph, ghost level: seq<nat>, ghost L: nat)
    requires n > 0
    ensures t.n == n && t.E == {} && forall i :: i in t.l1 <==> 0 <= i < n
    ensures GoodTtg(t, level, L) && L == 1
  {
    t := Graph(n, {}, Range(0, n));
    level, L := seq(n, i => 0), 1;
    EmptyIsAcyclic();
    assert level[0] == 0;
  }

  /** A line; with a number of trees given, all trees but the last `numTrees - 1` start packets. */
  method TtgLine(n: nat, numTrees: int) returns (t: Graph, ghost level: seq<nat>, ghost L: nat)
    requires n > 0 && numTrees != 0 && numTrees <= n
    ensures t.n == n && GoodTtg(t, level, L) && L == if numTrees < 0 then n else numTrees
    ensures t.n == n && t.E == Line(0, n) && t.l1 == Range(0, if numTrees < 0 then 1 else n - numTrees + 1)
    ensures forall a, b | 0 <= a <= b < n :: level[a] <= level[b]
    ensures forall a, b | 0 <= a < b < n && level[a] == level[b] :: level[a] == 0
  {
    hide Reaches, Acyclic, Tiered;
    var m: nat := if numTrees < 0 then 0 else n - numTrees;
    t := Graph(n, Line(0, n), Range(0, m + 1));
    level, L := seq(n, i requires 0 <= i < n => if i <= m then 0 else i - m), n - m;
    RankedIsAcyclic(t.E, x => x);
    LineIsTiered(t, level, m);
  }

  lemma LineIsTiered(t: Graph, level: seq<nat>, m: nat)
    requires m < t.n && t.E == Line(0, t.n) && t.l1 == Range(0, m + 1)
    requires |level| == t.n && forall i | 0 <= i < t.n :: level[i] == if i <= m then 0 else i - m
    ensures Tiered(t, level, t.n - m)
  {
    hide Reaches;
    forall k: nat | k < t.n - m ensures Occupied(level, k) {
      assert level[k + m] == k;
    }
    forall b: nat | b < t.n && level[b] > 0 ensures EnteredFromBelow(t.E, level, b) {
      assert level[b - 1] + 1 == level[b] && (b - 1, b) in t.E;
    }
    forall a: nat, b: nat | a < t.n && b < t.n && level[a] + 1 == level[b] ensures Reaches(t.E, a, b) {
      LineReaches(t.E, 0, t.n, a, b);
    }
  }

  /** How the width of the layers shrinks. */
  datatype Reduction = Halve | MinusTwo | One

  function NextWidth(r: Reduction, x: nat): (w: nat)
    ensures w >= 1
  {
    match r
    case Halve => if x > 1 then (x + 1) / 2 else 1
    case MinusTwo => if x > 3 then x - 2 else 1
    case One => 1
  }

  function Sum(w: seq<nat>): nat {
    if w == [] then 0 else Sum(w[..|w| - 1]) + w[|w| - 1]
  }

  ghost predicate Positive(w: seq<nat>) {
    forall k | 0 <= k < |w| :: w[k] > 0
  }

  /** The widths of the layers: they shrink as asked for, are positive, and add up to `n`; only the last may be cut. */
  ghost predicate WidthsFor(w: seq<nat>, n: nat, l1width: nat, r: Reduction) {
    && w != [] && Sum(w) == n && Positive(w) && w[0] == (if l1width < n then l1width else n)
    && forall k | 1 <= k < |w| :: w[k] == NextWidth(r, w[k - 1]) || (k == |w| - 1 && w[k] < NextWidth(r, w[k - 1]))
  }

  /** No other widths are like that. */
  lemma OnlyWidths(v: seq<nat>, w: seq<nat>, n: nat, l1width: nat, r: Reduction)
    requires WidthsFor(v, n, l1width, r) && WidthsFor(w, n, l1width, r)
    ensures v == w
  {
    if |v| <= |w| {
      SameWidths(v, w, n, l1width, r, |v| - 1);
    } else {
      SameWidths(w, v, n, l1width, r, |w| - 1);
    }
  }

  lemma {:induction false} SameWidths(v: seq<nat>, w: seq<nat>, n: nat, l1width: nat, r: Reduction, k: nat)
    requires WidthsFor(v, n, l1width, r) && WidthsFor(w, n, l1width, r) && k < |v| <= |w|
    ensures v[..k] == w[..k] && (k < |v| - 1 ==> v[k] == w[k])
    ensures k == |v| - 1 ==> v == w
    decreases k
  {
    if k > 0 {
      SameWidths(v, w, n, l1width, r, k - 1);
      assert v[..k] == v[..k - 1] + [v[k - 1]] && w[..k] == w[..k - 1] + [w[k - 1]];
    }
    assert v[..k + 1][..k] == v[..k] && w[..k + 1][..k] == w[..k] && v[..|v|] == v && w[..|w|] == w;
    if k == |v| - 1 {
      SumMonotone(w, k + 1, |w|);
      if |w| > |v| {
        assert w[..k + 2][..k + 1] == w[..k + 1];
        SumMonotone(w, k + 2, |w|);
      }
      assert |v| == |w|;
    }
  }

  /** With layers of one tree behind the first, there is a layer for each of the other trees. */
  lemma {:induction false} OneTreeLayers(w: seq<nat>, n: nat, l1width: nat)
    requires WidthsFor(w, n, l1width, One) && l1width <= n
    ensures |w| == n - l1width + 1
  {
    forall k | 1 <= k < |w| ensures w[k] == 1 {
      assert NextWidth(One, w[k - 1]) == 1 && w[k] > 0;
    }
    SumOfOnes(w, |w|);
    assert w[..|w|] == w;
  }

  lemma {:induction false} SumOfOnes(w: seq<nat>, k: nat)
    requires 1 <= k <= |w| && forall j | 1 <= j < |w| :: w[j] == 1
    ensures Sum(w[..k]) == w[0] + k - 1
    decreases k
  {
    assert w[..k][..k - 1] == w[..k - 1];
    if k > 1 {
      SumOfOnes(w, k - 1);
    } else {
      assert w[..0] == [];
    }
  }

  method LayerWidths(n: nat, l1width: nat, r: Reduction) returns (w: seq<nat>)
    requires n > 0 && l1width > 0
    ensures WidthsFor(w, n, l1width, r)
  {
    w := [l1width];
    assert w[..0] == [];
    while Sum(w) < n
      invariant w != [] && w[0] == l1width && Positive(w) && Sum(w[..|w| - 1]) < n
      invariant if |w| == 1 then Sum(w) == l1width else l1width < n
      invariant forall k | 1 <= k < |w| :: w[k] == NextWidth(r, w[k - 1])
      decreases n - Sum(w)
    {
      var x := NextWidth(r, w[|w| - 1]);
      assert (w + [x])[..|w|] == w;
      w := w + [x];
    }
    var last := |w| - 1;
    var over := Sum(w) - n;
    assert w[last := w[last] - over][..last] == w[..last];
    w := w[last := w[last] - over];
  }

  /** The layer of tree `i`. */
  function LevelOf(w: seq<nat>, i: nat): (k: nat)
    requires i < Sum(w)
    ensures k < |w| && Sum(w[..k]) <= i < Sum(w[..k + 1])
  {
    var n := |w| - 1;
    assert w[..n + 1] == w;
    if i >= Sum(w[..n]) then n
    else
      var k := LevelOf(w[..n], i);
      assert w[..n][..k] == w[..k] && w[..n][..k + 1] == w[..k + 1];
      k
  }

  lemma {:induction false} SumMonotone(w: seq<nat>, j: nat, k: nat)
    requires j <= k <= |w|
    ensures Sum(w[..j]) <= Sum(w[..k])
    decreases k
  {
    if j < k {
      assert w[..k][..k - 1] == w[..k - 1];
      SumMonotone(w, j, k - 1);
    }
  }

  /** A tree is in layer `k` exactly when it lies between the widths of the layers before `k` and through `k`. */
  lemma LevelIsRange(w: seq<nat>, i: nat, k: nat)
    requires i < Sum(w) && k < |w|
    ensures LevelOf(w, i) == k <==> Sum(w[..k]) <= i < Sum(w[..k + 1])
  {
    var l := LevelOf(w, i);
    if l < k {
      SumMonotone(w, l + 1, k);
    } else if k < l {
      SumMonotone(w, k + 1, l);
    }
  }

  /** The trees of layer `k`. */
  function Layer(w: seq<nat>, k: nat): (r: set<nat>)
    requires k < |w|
    ensures forall i: nat :: i in r <==> i < Sum(w) && LevelOf(w, i) == k
  {
    assert forall i: nat :: i in Range(Sum(w[..k]), Sum(w[..k + 1])) <==> i < Sum(w) && LevelOf(w, i) == k by {
      assert w[..|w|] == w;
      SumMonotone(w, k + 1, |w|);
      forall i: nat | i < Sum(w) ensures LevelOf(w, i) == k <==> Sum(w[..k]) <= i < Sum(w[..k + 1]) {
        LevelIsRange(w, i, k);
      }
    }
    Range(Sum(w[..k]), Sum(w[..k + 1]))
  }

  /** All arcs from each layer to the next. */
  method ConnectLayers(w: seq<nat>) returns (E: Digraph)
    requires w != []
    ensures forall a: nat, b: nat :: (a, b) in E <==> a < Sum(w) && b < Sum(w) && LevelOf(w, b) == LevelOf(w, a) + 1
  {
    E := {};
    for k := 0 to |w| - 1
      invariant forall a: nat, b: nat :: (a, b) in E <==>
        a < Sum(w) && b < Sum(w) && LevelOf(w, a) < k && LevelOf(w, b) == LevelOf(w, a) + 1
    {
      var here, next := Layer(w, k), Layer(w, k + 1);
      E := E + set x, y | x in here && y in next :: (x, y);
    }
  }

  lemma LineOfLayer(w: seq<nat>, k: nat, a: nat, b: nat)
    requires k < |w|
    ensures (a, b) in Line(Sum(w[..k]), Sum(w[..k + 1])) <==> b == a + 1 && b < Sum(w) && LevelOf(w, a) == LevelOf(w, b) == k
  {
    assert w[..|w|] == w;
    SumMonotone(w, k + 1, |w|);
    if b < Sum(w) {
      LevelIsRange(w, b, k);
      if a < Sum(w) {
        LevelIsRange(w, a, k);
      }
    }
  }

  /** A line through each layer. */
  method ConnectInside(w: seq<nat>) returns (E: Digraph)
    ensures forall a: nat, b: nat :: (a, b) in E <==> b == a + 1 && b < Sum(w) && LevelOf(w, a) == LevelOf(w, b)
  {
    E := {};
    for k := 0 to |w|
      invariant forall a: nat, b: nat :: (a, b) in E <==> b == a + 1 && b < Sum(w) && LevelOf(w, a) == LevelOf(w, b) < k
    {
      forall a: nat, b: nat ensures (a, b) in Line(Sum(w[..k]), Sum(w[..k + 1])) <==> b == a + 1 && b < Sum(w) && LevelOf(w, a) == LevelOf(w, b) == k {
        LineOfLayer(w, k, a, b);
      }
      E := E + Line(Sum(w[..k]), Sum(w[..k + 1]));
    }
  }

  /** The arcs of layers of the given widths: from every tree to all of the next layer, and on request along each layer. */
  ghost predicate LayeredArcs(w: seq<nat>, selfLayer: bool, E: Digraph) {
    forall a: nat, b: nat :: (a, b) in E <==>
      a < Sum(w) && b < Sum(w) && (LevelOf(w, b) == LevelOf(w, a) + 1 || (selfLayer && b == a + 1 && LevelOf(w, b) == LevelOf(w, a)))
  }

  /** Layers of the given widths: all arcs from each layer to the next, and on request a line inside each layer. */
  method TtgLayeredDag(n: nat, l1width: nat, selfLayer: bool, r: Reduction) returns (t: Graph, ghost w: seq<nat>, ghost level: seq<nat>)
    requires n > 0 && l1width > 0
    ensures WidthsFor(w, n, l1width, r) && t.n == n && t.l1 == Range(0, w[0]) && LayeredArcs(w, selfLayer, t.E)
    ensures GoodTtg(t, level, |w|) && |level| == n && forall i: nat | i < n :: level[i] == LevelOf(w, i)
  {
    var widths := LayerWidths(n, l1width, r);
    w := widths;
    var E := ConnectLayers(widths);
    if selfLayer {
      var inside := ConnectInside(widths);
      E := E + inside;
    }
    t := Graph(n, E, Range(0, widths[0]));
    level := seq(n, i requires 0 <= i < n => LevelOf(w, i));
    LayeredIsGood(w, t, level, selfLayer);
  }

  /** Every layer has a first tree. */
  lemma LevelOccupied(w: seq<nat>, k: nat)
    requires Positive(w) && k < |w|
    ensures Sum(w[..k]) < Sum(w) && LevelOf(w, Sum(w[..k])) == k
  {
    assert w[..k + 1][..k] == w[..k] && w[..|w|] == w;
    SumMonotone(w, k + 1, |w|);
    LevelIsRange(w, Sum(w[..k]), k);
  }

  lemma FirstLevel(w: seq<nat>)
    requires w != []
    ensures w[0] <= Sum(w) && forall a: nat | a < Sum(w) :: a < w[0] <==> LevelOf(w, a) == 0
  {
    assert w[..0] == [] && w[..1] == [w[0]] && [w[0]][..0] == [] && w[..|w|] == w;
    assert Sum(w[..1]) == w[0];
    SumMonotone(w, 1, |w|);
    forall a: nat | a < Sum(w) ensures a < w[0] <==> LevelOf(w, a) == 0 {
      LevelIsRange(w, a, 0);
    }
  }

  lemma LayeredIsGood(w: seq<nat>, t: Graph, level: seq<nat>, selfLayer: bool)
    requires w != [] && Positive(w) && t.n == Sum(w) && t.l1 == Range(0, w[0])
    requires |level| == t.n && forall i | 0 <= i < t.n :: level[i] == LevelOf(w, i)
    requires forall a, b | (a, b) in t.E :: a < b < t.n && level[a] <= level[b] <= level[a] + 1
    requires forall a: nat, b: nat | a < t.n && b < t.n && level[a] + 1 == level[b] :: (a, b) in t.E
    ensures GoodTtg(t, level, |w|)
  {
    RankedIsAcyclic(t.E, x => x);
    forall k: nat | k < |w| ensures Occupied(level, k) {
      LevelOccupied(w, k);
      assert level[Sum(w[..k])] == k;
    }
    forall b: nat | b < t.n && level[b] > 0 ensures EnteredFromBelow(t.E, level, b) {
      var k: nat := level[b] - 1;
      assert Occupied(level, k);
      var a: nat :| a < t.n && level[a] == k;
      assert (a, b) in t.E;
    }
    forall a: nat, b: nat | a < t.n && b < t.n && level[a] + 1 == level[b] ensures Reaches(t.E, a, b) {
      ArcReaches(t.E, a, b);
    }
    FirstLevel(w);
  }

  /** The arcs of `sub`, from each of the first `ridx` trees to tree `ridx`, and from there on a line. */
  ghost predicate ChainBehind(sub: Digraph, E: Digraph, ridx: nat, n: nat) {
    forall a: nat, b: nat :: (a, b) in E <==> (a, b) in sub || (b == ridx < n && a < ridx) || (ridx <= a && b == a + 1 && b < n)
  }

  /** The trees before the last `randRes` are in the first layer, and each of the others is a layer. */
  ghost predicate RandMaxLevels(n: nat, randRes: nat, level: seq<nat>) {
    randRes < n && |level| == n && forall i: nat | i < n :: level[i] == if i < n - randRes then 0 else i - (n - randRes) + 1
  }

  /** The random and maximal DAGs: an acyclic graph over the first trees, then a line of `randRes` trees behind all of them. */
  method TtgRandMaxDag(n: nat, randRes: nat, sub: Digraph) returns (t: Graph, ghost level: seq<nat>, ghost L: nat)
    requires randRes < n && Acyclic(sub) && forall a, b | (a, b) in sub :: a < n - randRes && b < n - randRes
    ensures t.n == n && GoodTtg(t, level, L) && L == randRes + 1 && t.l1 == Range(0, n - randRes)
    ensures RandMaxLevels(n, randRes, level) && ChainBehind(sub, t.E, n - randRes, n)
  {
    var ridx: nat := n - randRes;
    var E := sub;
    if randRes > 0 {
      E := E + (set i | i in Range(0, ridx) :: (i, ridx)) + Line(ridx, n);
    }
    t := Graph(n, E, Range(0, ridx));
    level, L := seq(n, i requires 0 <= i < n => if i < ridx then 0 else i - ridx + 1), randRes + 1;
    ChainBehindIsAcyclic(sub, E, ridx);
    ChainBehindIsTiered(sub, t, ridx, level);
  }

  lemma ChainBehindIsTiered(sub: Digraph, t: Graph, ridx: nat, level: seq<nat>)
    requires 0 < ridx <= t.n && t.l1 == Range(0, ridx) && |level| == t.n
    requires forall i | 0 <= i < t.n :: level[i] == if i < ridx then 0 else i - ridx + 1
    requires forall a, b | (a, b) in sub :: a < ridx && b < ridx
    requires ChainBehind(sub, t.E, ridx, t.n)
    ensures Tiered(t, level, t.n - ridx + 1)
  {
    forall k: nat | k < t.n - ridx + 1 ensures Occupied(level, k) {
      assert level[if k == 0 then 0 else ridx + k - 1] == k;
    }
    forall b: nat | b < t.n && level[b] > 0 ensures EnteredFromBelow(t.E, level, b) {
      var a: nat := if b == ridx then 0 else b - 1;
      assert level[a] + 1 == level[b] && (a, b) in t.E;
    }
    forall a: nat, b: nat | a < t.n && b < t.n && level[a] + 1 == level[b] ensures Reaches(t.E, a, b) {
      ArcReaches(t.E, a, b);
    }
  }

  lemma ChainBehindIsAcyclic(sub: Digraph, E: Digraph, ridx: nat)
    requires Acyclic(sub) && (forall a, b | (a, b) in sub :: a < ridx && b < ridx)
    requires forall a, b | (a, b) in E :: (a, b) in sub || (ridx <= b && a < b)
    ensures Acyclic(E)
  {
    forall a: nat ensures !Reaches(E, a, a) {
      if Reaches(E, a, a) {
        var p :| WalkFromTo(E, a, a, p);
        if forall i | 0 <= i < |p| :: p[i] < ridx {
          assert WalkFromTo(sub, a, a, p);
          assert Reaches(sub, a, a);
        } else {
          var i :| 0 <= i < |p| && p[i] >= ridx;
          StaysBehind(sub, E, ridx, p, i);
          if a >= ridx {
            StaysBehind(sub, E, ridx, p, 0);
          }
        }
      }
    }
  }

  /** Once on the line, a walk only climbs. */
  lemma {:induction false} StaysBehind(sub: Digraph, E: Digraph, ridx: nat, p: seq<nat>, i: nat)
    requires (forall a, b | (a, b) in sub :: a < ridx && b < ridx) && IsWalk(E, p)
    requires forall a, b | (a, b) in E :: (a, b) in sub || (ridx <= b && a < b)
    requires i < |p| && p[i] >= ridx
    ensures p[|p| - 1] >= ridx && (i < |p| - 1 ==> p[|p| - 1] > p[i])
    decreases |p| - i
  {
    if i < |p| - 1 {
      assert (p[i], p[i + 1]) in E;
      StaysBehind(sub, E, ridx, p, i + 1);
    }
  }

  // ---------- The layers as the table builder finds them ----------

  /** The layers, breadth first from the first one: the successors of a layer that are not in it. */
  method FindLayers(t: Graph, ghost level: seq<nat>, ghost L: nat) returns (layers: seq<set<nat>>)
    requires Tiered(t, level, L) && t.n > 0
    ensures |layers| == L && forall k, i: nat | 0 <= k < L && i < t.n :: i in layers[k] <==> level[i] == k
    ensures forall k | 0 <= k < L :: layers[k] != {} && forall i <- layers[k] :: i < t.n
  {
    hide Reaches;
    TierFacts(t, level, L);
    hide Tiered;
    layers := [];
    var curr: set<nat> := t.l1;
    assert level[0] < L && Occupied(level, 0);
    while curr != {}
      invariant |layers| <= L && (|layers| == L <==> curr == {})
      invariant forall i: nat | i < t.n :: i in curr <==> level[i] == |layers|
      invariant forall i <- curr :: i < t.n
      invariant forall k, i: nat | 0 <= k < |layers| && i < t.n :: i in layers[k] <==> level[i] == k
      invariant forall k | 0 <= k < |layers| :: layers[k] != {} && forall i <- layers[k] :: i < t.n
      decreases L - |layers|
    {
      ghost var k := |layers|;
      layers := layers + [curr];
      var next: set<nat> := set x | x in t.E && x.0 in curr && x.1 !in curr :: x.1;
      NextLayer(t, level, L, curr, next, k);
      curr := next;
    }
  }

  lemma TierFacts(t: Graph, level: seq<nat>, L: nat)
    requires Tiered(t, level, L)
    ensures |level| == t.n && (forall i | 0 <= i < t.n :: level[i] < L) && (forall k: nat | k < L :: Occupied(level, k))
    ensures (forall a: nat | a < t.n :: a in t.l1 <==> level[a] == 0) && forall a <- t.l1 :: a < t.n
  {
    hide Reaches;
  }

  lemma NextLayer(t: Graph, level: seq<nat>, L: nat, curr: set<nat>, next: set<nat>, k: nat)
    requires Tiered(t, level, L) && k < L
    requires (forall i: nat | i < t.n :: i in curr <==> level[i] == k) && forall i <- curr :: i < t.n
    requires next == set x | x in t.E && x.0 in curr && x.1 !in curr :: x.1
    ensures (forall i: nat | i < t.n :: i in next <==> level[i] == k + 1) && forall i <- next :: i < t.n
    ensures k + 1 < L <==> next != {}
  {
    forall i: nat | i < t.n && level[i] == k + 1 ensures i in next {
      assert EnteredFromBelow(t.E, level, i);
      var a: nat :| a < t.n && level[a] + 1 == level[i] && (a, i) in t.E;
      assert a in curr && (a, i) in t.E;
    }
    if k + 1 < L {
      assert Occupied(level, k + 1);
      var i: nat :| i < t.n && level[i] == k + 1;
      assert i in next;
    }
  }
}
