/**
 Virtual channels: the dependencies of all paths go into one channel, cycles are broken by moving whole paths on, and
 those go into the next channel.
 */
module VirtualChannels {
  import opened Wrappers
  import opened Digraphs
  import opened CycleSearch
  import opened FiniteSets

  /** One dependency of path number `cdg`: whoever holds `src` may request `tgt`. */
  datatype Dep = Dep(src: nat, tgt: nat, cdg: nat)

  type Vc = set<Dep>

  /** The channel as a graph. */
  function View(vc: Vc): Digraph {
    set d <- vc :: (d.src, d.tgt)
  }

  /** All dependencies of the paths of `S`. */
  ghost function Whole(cdgs: seq<Digraph>, S: set<nat>): Vc {
    set i, x | i in S && i < |cdgs| && x in cdgs[i] :: Dep(x.0, x.1, i)
  }

  lemma InWhole(cdgs: seq<Digraph>, S: set<nat>, d: Dep)
    ensures d in Whole(cdgs, S) <==> d.cdg in S && d.cdg < |cdgs| && (d.src, d.tgt) in cdgs[d.cdg]
  {
  }

  /** The dependencies of paths are acyclic, each on its own, and between the arcs `A`. */
  ghost predicate GoodCdgs(cdgs: seq<Digraph>, A: set<nat>) {
    forall i | 0 <= i < |cdgs| :: Acyclic(cdgs[i]) && Within(cdgs[i], A)
  }

  method BuildCdgVc(cdgs: seq<Digraph>, idxs: seq<nat>) returns (vc: Vc)
    requires forall x <- idxs :: x < |cdgs|
    ensures vc == Whole(cdgs, Elems(idxs))
  {
    vc := {};
    for k := 0 to |idxs|
      invariant vc == Whole(cdgs, Elems(idxs[..k]))
    {
      var n := idxs[k];
      assert n in idxs && idxs[..k + 1] == idxs[..k] + [n];
      vc := vc + set x <- cdgs[n] :: Dep(x.0, x.1, n);
    }
    assert idxs[..|idxs|] == idxs;
  }

  // ---------- Breaking one cycle ----------

  /** The dependencies from `a` to `b`, one for each path that has it. */
  function Links(vc: Vc, a: nat, b: nat): Vc {
    set d <- vc | d.src == a && d.tgt == b
  }

  function Labels(ds: Vc): set<nat> {
    set d <- ds :: d.cdg
  }

  lemma {:induction false} LabelCount(vc: Vc, a: nat, b: nat, ds: Vc)
    requires ds <= Links(vc, a, b)
    ensures |Labels(ds)| == |ds|
    decreases |ds|
  {
    if d :| d in ds {
      LabelCount(vc, a, b, ds - {d});
      assert ds == ds - {d} + {d};
      assert Labels(ds) == Labels(ds - {d}) + {d.cdg};
      assert d.cdg !in Labels(ds - {d}) by {
        forall e <- ds - {d} ensures e.cdg != d.cdg {
          assert e == Dep(a, b, e.cdg) && d == Dep(a, b, d.cdg);
        }
      }
    }
  }

  /** A link with the fewest paths among those of a cycle. */
  method Weakest(links: seq<Vc>) returns (w: nat)
    requires links != []
    ensures w < |links| && forall i | 0 <= i < |links| :: |links[w]| <= |links[i]|
  {
    w := 0;
    for i := 1 to |links|
      invariant w < |links| && forall j | 0 <= j < i :: |links[w]| <= |links[j]|
    {
      if |links[i]| < |links[w]| {
        w := i;
      }
    }
  }

  /** The weakest link of a cycle does not have all the paths: no path has the whole cycle. */
  lemma WeakestIsNotAll(cdgs: seq<Digraph>, A: set<nat>, S: set<nat>, cycle: seq<nat>, w: nat)
    requires GoodCdgs(cdgs, A) && ClosedPath(cycle) && w < |cycle| - 1
    requires var vc := Whole(cdgs, S);
      && Links(vc, cycle[w], cycle[w + 1]) != {}
      && forall i | 0 <= i < |cycle| - 1 :: |Links(vc, cycle[w], cycle[w + 1])| <= |Links(vc, cycle[i], cycle[i + 1])|
    ensures Whole(cdgs, S - Labels(Links(Whole(cdgs, S), cycle[w], cycle[w + 1]))) != {}
  {
    hide Acyclic, NoDup;
    var vc := Whole(cdgs, S);
    var R := Labels(Links(vc, cycle[w], cycle[w + 1]));
    if Whole(cdgs, S - R) == {} {
      var d :| d in Links(vc, cycle[w], cycle[w + 1]);
      forall i | 0 <= i < |cycle| - 1 ensures (cycle[i], cycle[i + 1]) in cdgs[d.cdg] {
        SameLabels(cdgs, S, cycle[w], cycle[w + 1], cycle[i], cycle[i + 1], d);
      }
      NoClosedWalk(cdgs, A, d.cdg, cycle);
    }
  }

  lemma SameLabels(cdgs: seq<Digraph>, S: set<nat>, a: nat, b: nat, x: nat, y: nat, d: Dep)
    requires var vc := Whole(cdgs, S);
      && d in Links(vc, a, b) && |Links(vc, a, b)| <= |Links(vc, x, y)| && Whole(cdgs, S - Labels(Links(vc, a, b))) == {}
    ensures d.cdg < |cdgs| && (x, y) in cdgs[d.cdg]
  {
    var vc := Whole(cdgs, S);
    var R, Q := Labels(Links(vc, a, b)), Labels(Links(vc, x, y));
    LabelCount(vc, a, b, Links(vc, a, b));
    LabelCount(vc, x, y, Links(vc, x, y));
    forall i <- Q ensures i in R {
      var e :| e in Links(vc, x, y) && e.cdg == i;
      InWhole(cdgs, S - R, e);
    }
    SubsetSize(Q, R);
    assert d.cdg in Q;
    var e :| e in Links(vc, x, y) && e.cdg == d.cdg;
  }

  lemma NoClosedWalk(cdgs: seq<Digraph>, A: set<nat>, i: nat, cycle: seq<nat>)
    requires GoodCdgs(cdgs, A) && i < |cdgs| && ClosedPath(cycle)
    ensures !IsWalk(cdgs[i], cycle)
  {
    if IsWalk(cdgs[i], cycle) {
      assert WalkFromTo(cdgs[i], cycle[0], cycle[0], cycle);
      assert Reaches(cdgs[i], cycle[0], cycle[0]);
    }
  }

  lemma ViewWalk(vc: Vc, cycle: seq<nat>, i: nat)
    requires i < |cycle| - 1
    ensures Links(vc, cycle[i], cycle[i + 1]) != {} <==> (cycle[i], cycle[i + 1]) in View(vc)
  {
    if (cycle[i], cycle[i + 1]) in View(vc) {
      var d :| d in vc && (d.src, d.tgt) == (cycle[i], cycle[i + 1]);
      assert d in Links(vc, cycle[i], cycle[i + 1]);
    }
    var links := Links(vc, cycle[i], cycle[i + 1]);
    if links != {} {
      var d :| d in links;
      assert (d.src, d.tgt) in View(vc);
    }
  }

  /** Removes all dependencies of the paths of `paths`. */
  function Without(vc: Vc, paths: set<nat>): Vc {
    set d <- vc | d.cdg !in paths
  }

  lemma WithoutWhole(cdgs: seq<Digraph>, S: set<nat>, paths: set<nat>)
    ensures Without(Whole(cdgs, S), paths) == Whole(cdgs, S - paths)
  {
  }

  // ---------- What may leave a channel ----------

  /** From `S` to `S'` the paths of a link of a cycle of the channel left, of one with the fewest paths. */
  ghost predicate TakesLink(cdgs: seq<Digraph>, S: set<nat>, S': set<nat>, cycle: seq<nat>, w: nat) {
    && ClosedPath(cycle) && IsWalk(View(Whole(cdgs, S)), cycle) && w < |cycle| - 1
    && (forall i | 0 <= i < |cycle| - 1 ::
          |Links(Whole(cdgs, S), cycle[w], cycle[w + 1])| <= |Links(Whole(cdgs, S), cycle[i], cycle[i + 1])|)
    && S' == S - Labels(Links(Whole(cdgs, S), cycle[w], cycle[w + 1]))
  }

  ghost predicate Takes(cdgs: seq<Digraph>, S: set<nat>, S': set<nat>) {
    exists cycle, w: nat :: TakesLink(cdgs, S, S', cycle, w)
  }

  /** Every set of the sequence is the one before without the paths of such a link. */
  ghost predicate Taking(cdgs: seq<Digraph>, trace: seq<set<nat>>, S0: set<nat>, S: set<nat>) {
    && trace != [] && trace[0] == S0 && trace[|trace| - 1] == S
    && forall k | 0 <= k < |trace| - 1 :: Takes(cdgs, trace[k], trace[k + 1])
  }

  ghost predicate Taken(cdgs: seq<Digraph>, S0: set<nat>, S: set<nat>) {
    exists trace :: Taking(cdgs, trace, S0, S)
  }

  lemma NoneTaken(cdgs: seq<Digraph>, S: set<nat>)
    ensures Taken(cdgs, S, S)
  {
    assert Taking(cdgs, [S], S, S);
  }

  lemma TakenTwice(cdgs: seq<Digraph>, S0: set<nat>, S1: set<nat>, S2: set<nat>)
    requires Taken(cdgs, S0, S1) && Taken(cdgs, S1, S2)
    ensures Taken(cdgs, S0, S2)
  {
    hide Takes;
    var a :| Taking(cdgs, a, S0, S1);
    var c :| Taking(cdgs, c, S1, S2);
    var t := a + c[1..];
    forall k | 0 <= k < |t| - 1 ensures Takes(cdgs, t[k], t[k + 1]) {
      if k < |a| - 1 {
        assert t[k] == a[k] && t[k + 1] == a[k + 1];
      } else {
        assert t[k] == c[k - |a| + 1] && t[k + 1] == c[k - |a| + 2];
      }
    }
    assert Taking(cdgs, t, S0, S2);
  }

  lemma TakenOnce(cdgs: seq<Digraph>, S: set<nat>, S': set<nat>)
    requires Takes(cdgs, S, S')
    ensures Taken(cdgs, S, S')
  {
    hide Takes;
    assert Taking(cdgs, [S, S'], S, S');
  }

  lemma TakesFromCyclic(cdgs: seq<Digraph>, S: set<nat>, S': set<nat>)
    requires Takes(cdgs, S, S')
    ensures !Acyclic(View(Whole(cdgs, S)))
  {
    hide View, Whole, Labels, Links;
    var cycle, w: nat :| TakesLink(cdgs, S, S', cycle, w);
    assert WalkFromTo(View(Whole(cdgs, S)), cycle[0], cycle[0], cycle);
    assert Reaches(View(Whole(cdgs, S)), cycle[0], cycle[0]);
  }

  /** Nothing leaves an acyclic channel. */
  lemma AcyclicKeepsAll(cdgs: seq<Digraph>, S0: set<nat>, S: set<nat>)
    requires Taken(cdgs, S0, S)
    ensures S != S0 ==> !Acyclic(View(Whole(cdgs, S0)))
  {
    hide View, Whole, Takes, Acyclic;
    var t :| Taking(cdgs, t, S0, S);
    if |t| > 1 {
      TakesFromCyclic(cdgs, t[0], t[1]);
    }
  }

  /**
   Takes all paths of a weakest link of the cycle out of the channel, and returns them; leaves the channel alone if the
   cycle is broken already.
   */
  method BreakCycleCdgVc(ghost cdgs: seq<Digraph>, ghost A: set<nat>, ghost S: set<nat>, vc: Vc, cycle: seq<nat>)
    returns (vc': Vc, removed: seq<nat>)
    requires GoodCdgs(cdgs, A) && ClosedPath(cycle) && vc == Whole(cdgs, S)
    ensures NoDup(removed) && (forall x <- removed :: x in S)
    ensures vc' == Whole(cdgs, S - Elems(removed))
    ensures if IsWalk(View(vc), cycle) then removed != [] && vc' != {} && Takes(cdgs, S, S - Elems(removed)) else removed == []
  {
    hide GoodCdgs, View, ClosedPath;
    LinksOfCycle(cycle);
    var cycleEdges: seq<Vc> := [];
    for i := 0 to |cycle| - 1
      invariant |cycleEdges| == i
      invariant forall j | 0 <= j < i :: cycleEdges[j] == Links(vc, cycle[j], cycle[j + 1]) && cycleEdges[j] != {}
    {
      var x := Links(vc, cycle[i], cycle[i + 1]);
      if x == {} {
        ViewWalk(vc, cycle, i);
        NoneRemoved(S);
        return vc, [];
      }
      cycleEdges := cycleEdges + [x];
    }
    var m := Weakest(cycleEdges);
    var w: nat :| w < |cycleEdges| && |cycleEdges[w]| == |cycleEdges[m]|;
    var removePaths := Labels(cycleEdges[w]);
    vc' := Without(vc, removePaths);
    WithoutWhole(cdgs, S, removePaths);
    WeakestIsNotAll(cdgs, A, S, cycle, w);
    LabelsOfWhole(cdgs, S, cycleEdges[w]);
    removed := Shuffled(removePaths);
    assert Elems(removed) == removePaths;
    forall i | 0 <= i < |cycle| - 1 ensures (cycle[i], cycle[i + 1]) in View(vc) {
      ViewWalk(vc, cycle, i);
    }
    assert TakesLink(cdgs, S, S - removePaths, cycle, w);
  }

  lemma NoneRemoved(S: set<nat>)
    ensures S - Elems([]) == S
  {
  }

  lemma LinksOfCycle(cycle: seq<nat>)
    requires ClosedPath(cycle)
    ensures |cycle| >= 2
  {
  }

  lemma LabelsOfWhole(cdgs: seq<Digraph>, S: set<nat>, ds: Vc)
    requires ds <= Whole(cdgs, S) && ds != {}
    ensures Labels(ds) <= S && Labels(ds) != {}
  {
    var d :| d in ds;
    assert d.cdg in Labels(ds);
  }

  // ---------- One search ----------

  /** The channel holds the paths of `S`; those of `removed` left with weakest links of cycles, and not all that had dependencies. */
  ghost predicate Thinned(cdgs: seq<Digraph>, S0: set<nat>, S: set<nat>, vc: Vc, removed: seq<nat>) {
    && Taken(cdgs, S0, S) && vc == Whole(cdgs, S) && S <= S0 && NoDup(removed) && (forall x :: x in removed <==> x in S0 - S)
    && (removed != [] ==> vc != {})
  }

  lemma NothingThinned(cdgs: seq<Digraph>, S: set<nat>)
    ensures Thinned(cdgs, S, S, Whole(cdgs, S), [])
  {
    NoneTaken(cdgs, S);
  }

  lemma ThinMore(cdgs: seq<Digraph>, S0: set<nat>, S: set<nat>, vc: Vc, removed: seq<nat>, more: seq<nat>, vc': Vc)
    requires Thinned(cdgs, S0, S, vc, removed) && NoDup(more) && (forall x <- more :: x in S)
    requires vc' == Whole(cdgs, S - Elems(more)) && (more != [] ==> vc' != {}) && Taken(cdgs, S, S - Elems(more))
    ensures Thinned(cdgs, S0, S - Elems(more), vc', removed + more)
  {
    TakenTwice(cdgs, S0, S, S - Elems(more));
    hide Whole, Taken;
    var r := removed + more;
    assert more == [] ==> S - Elems(more) == S && r == removed;
    forall i, j | 0 <= i < j < |r| ensures r[i] != r[j] {
      if i < |removed| <= j {
        assert r[i] in removed && r[j] in more;
      } else if i < |removed| {
        assert r[i] == removed[i] && r[j] == removed[j];
      } else {
        assert r[i] == more[i - |removed|] && r[j] == more[j - |removed|];
      }
    }
  }

  lemma NoneGone(cdgs: seq<Digraph>, S0: set<nat>, S: set<nat>, vc: Vc, removed: seq<nat>)
    requires Thinned(cdgs, S0, S, vc, removed)
    ensures View(vc) <= View(Whole(cdgs, S0)) && (removed == [] ==> S == S0 && vc == Whole(cdgs, S0))
  {
    if removed == [] {
      assert S == S0 by {
        forall x <- S0 ensures x in S {
          assert x in removed || x in S;
        }
      }
    }
    assert vc <= Whole(cdgs, S0);
  }

  lemma WholeWithin(cdgs: seq<Digraph>, A: set<nat>, S: set<nat>)
    requires GoodCdgs(cdgs, A)
    ensures Within(View(Whole(cdgs, S)), A)
  {
    hide Acyclic;
    forall a, b | (a, b) in View(Whole(cdgs, S)) ensures a in A && b in A {
      var d :| d in Whole(cdgs, S) && (d.src, d.tgt) == (a, b);
      InWhole(cdgs, S, d);
      assert Within(cdgs[d.cdg], A);
    }
  }

  /**
   One depth-first search that breaks every cycle it closes. If it takes no path out, the channel is acyclic; it never
   takes out all paths.
   */
  method RemoveCyclesCdgVc(ghost cdgs: seq<Digraph>, A: set<nat>, ghost S0: set<nat>, vc0: Vc)
    returns (vc: Vc, removed: seq<nat>, ghost S: set<nat>)
    requires GoodCdgs(cdgs, A) && vc0 == Whole(cdgs, S0)
    ensures Thinned(cdgs, S0, S, vc, removed) && (removed == [] ==> Acyclic(View(vc0)))
  {
    hide Searching, Acyclic, Thinned, EntriesOk, EntryOk, Within, GoodCdgs, View;
    vc, removed, S := vc0, [], S0;
    ghost var E0 := View(vc0);
    NothingThinned(cdgs, S0);
    WholeWithin(cdgs, A, S0);
    var stack := Starts(A);
    var visited: set<nat> := {};
    ghost var open: seq<nat>, fin: seq<nat> := [], [];
    SearchStarts(E0, A, stack);
    StartsOk(A, stack);
    while stack != []
      invariant Thinned(cdgs, S0, S, vc, removed) && EntriesOk(A, stack, visited)
      invariant removed == [] ==> Searching(E0, A, stack, visited, open, fin, {})
      decreases |A - visited|, |stack|
    {
      var e := stack[|stack| - 1];
      EntriesVisit(A, stack, visited);
      NoneGone(cdgs, S0, S, vc, removed);
      if e.v in visited {
        if removed == [] {
          open, fin := DropTop(E0, A, stack, visited, open, fin);
        }
        stack := stack[..|stack| - 1];
      } else {
        var succ := Successors(View(vc), e.v);
        if removed == [] {
          fin := OpenTop(E0, A, stack, visited, open, fin, succ);
        }
        open := e.pv;
        VisitShrinks(A, visited, e.v);
        visited := visited + {e.v};
        vc, removed, stack, S := LookAtAll(cdgs, A, S0, S, vc, removed, stack[..|stack| - 1], visited, e, fin, succ);
      }
    }
    if removed == [] {
      SearchEnds(E0, A, visited, open, fin);
    }
  }

  /** Looks at the successors of the visited vertex in some order. */
  method LookAtAll(ghost cdgs: seq<Digraph>, A: set<nat>, ghost S0: set<nat>, ghost S: set<nat>, vc: Vc, removed: seq<nat>,
                   stack: seq<Entry>, visited: set<nat>, e: Entry, ghost fin: seq<nat>, succ: set<nat>)
    returns (vc': Vc, removed': seq<nat>, stack': seq<Entry>, ghost S': set<nat>)
    requires GoodCdgs(cdgs, A) && Thinned(cdgs, S0, S, vc, removed) && EntriesOk(A, stack, visited) && EntryOk(A, e, visited)
    requires (forall x <- e.pv :: x in visited) && forall x <- succ :: (e.v, x) in View(Whole(cdgs, S0))
    requires removed == [] ==> Searching(View(Whole(cdgs, S0)), A, stack, visited, e.pv, fin, succ)
    ensures Thinned(cdgs, S0, S', vc', removed') && EntriesOk(A, stack', visited)
    ensures removed' == [] ==> Searching(View(Whole(cdgs, S0)), A, stack', visited, e.pv, fin, {})
  {
    hide Searching, EntryOk, EntriesOk, IsWalk, Within, Thinned, ClosedPath, GoodCdgs, View, Whole, NoDup;
    vc', removed', stack', S' := vc, removed, stack, S;
    ghost var E0 := View(Whole(cdgs, S0));
    WholeWithin(cdgs, A, S0);
    var todo := succ;
    while todo != {}
      invariant todo <= succ && Thinned(cdgs, S0, S', vc', removed') && EntriesOk(A, stack', visited)
      invariant removed' == [] ==> Searching(E0, A, stack', visited, e.pv, fin, todo)
    {
      var iw :| iw in todo;
      NoneGone(cdgs, S0, S', vc', removed');
      if removed' == [] {
        LookAt(E0, A, stack', visited, e, fin, todo, iw);
      }
      todo := todo - {iw};
      if iw in e.pv {
        EntryCycle(A, e, visited, iw);
        ThinnedWhole(cdgs, S0, S', vc', removed');
        var paths;
        ghost var before, was := vc', removed';
        vc', paths := BreakCycleCdgVc(cdgs, A, S', vc', CycleAt(e.pv, iw));
        TakenBy(cdgs, S', paths);
        ThinMore(cdgs, S0, S', before, removed', paths, vc');
        removed', S' := removed' + paths, S' - Elems(paths);
      }
      if iw !in visited {
        EntriesPush(E0, A, stack', visited, e, iw);
        stack' := stack' + [Entry(iw, e.pv + [iw])];
      }
    }
  }

  lemma TakenBy(cdgs: seq<Digraph>, S: set<nat>, paths: seq<nat>)
    requires paths == [] || Takes(cdgs, S, S - Elems(paths))
    ensures Taken(cdgs, S, S - Elems(paths))
  {
    hide Takes;
    if paths == [] {
      NoneTaken(cdgs, S);
      NoneRemoved(S);
    } else {
      TakenOnce(cdgs, S, S - Elems(paths));
    }
  }

  lemma ThinnedWhole(cdgs: seq<Digraph>, S0: set<nat>, S: set<nat>, vc: Vc, removed: seq<nat>)
    requires Thinned(cdgs, S0, S, vc, removed)
    ensures vc == Whole(cdgs, S)
  {
  }

  // ---------- All channels ----------

  /** The channels hold disjoint sets of whole paths, and are acyclic. */
  ghost predicate Channels(cdgs: seq<Digraph>, vcs: seq<Vc>, parts: seq<set<nat>>) {
    && |vcs| == |parts|
    && (forall k | 0 <= k < |vcs| :: vcs[k] == Whole(cdgs, parts[k]) && Acyclic(View(vcs[k])))
    && (forall k, l | 0 <= k < l < |parts| :: parts[k] !! parts[l])
  }

  /** The paths of part `k` and the later ones. */
  ghost function From(parts: seq<set<nat>>, k: nat): set<nat> {
    set j, i | k <= j < |parts| && i in parts[j] :: i
  }

  /** Each part is what was left of its own paths, those of later parts and `rest` once weakest links of cycles were taken out. */
  ghost predicate Left(cdgs: seq<Digraph>, parts: seq<set<nat>>, rest: set<nat>) {
    forall k: nat | k < |parts| :: parts[k] != {} && Taken(cdgs, From(parts, k) + rest, parts[k])
  }

  lemma LeftNext(cdgs: seq<Digraph>, parts: seq<set<nat>>, S0: set<nat>, S: set<nat>)
    requires Left(cdgs, parts, S0) && S <= S0 && S != {} && Taken(cdgs, S0, S)
    ensures Left(cdgs, parts + [S], S0 - S)
  {
    hide Taken;
    var parts' := parts + [S];
    forall k: nat | k < |parts'| ensures parts'[k] != {} && Taken(cdgs, From(parts', k) + (S0 - S), parts'[k]) {
      forall i ensures i in From(parts', k) + (S0 - S) <==> i in From(parts, k) + S0 {
        if i in From(parts, k) {
          var j :| k <= j < |parts| && i in parts[j];
          assert i in parts'[j];
        }
        if i in S {
          assert i in parts'[|parts|];
        }
        if i in From(parts', k) {
          var j :| k <= j < |parts'| && i in parts'[j];
          assert j < |parts| ==> i in parts[j];
        }
      }
      assert From(parts', k) + (S0 - S) == From(parts, k) + S0;
      if k == |parts| {
        assert From(parts, k) + S0 == S0;
      }
    }
  }

  /** The paths placed so far, and those to come. */
  ghost predicate Placing(cdgs: seq<Digraph>, vcs: seq<Vc>, parts: seq<set<nat>>, next: seq<nat>) {
    Left(cdgs, parts, Elems(next)) && Spread(cdgs, vcs, parts, next)
  }

  /** Each path is in one part or still to come. */
  ghost predicate Spread(cdgs: seq<Digraph>, vcs: seq<Vc>, parts: seq<set<nat>>, next: seq<nat>) {
    && Channels(cdgs, vcs, parts) && NoDup(next) && (forall x <- next :: x < |cdgs|)
    && (forall i: nat | i < |cdgs| :: i in next || InPart(parts, i))
    && (forall k | 0 <= k < |parts| :: forall i <- parts[k] :: i < |cdgs| && i !in next)
  }

  ghost predicate InPart(parts: seq<set<nat>>, i: nat) {
    exists k | 0 <= k < |parts| :: i in parts[k]
  }

  lemma PlaceMore(cdgs: seq<Digraph>, vcs: seq<Vc>, parts: seq<set<nat>>, next: seq<nat>, vc: Vc, S: set<nat>, removed: seq<nat>)
    requires Placing(cdgs, vcs, parts, next) && Thinned(cdgs, Elems(next), S, vc, removed) && Acyclic(View(vc)) && next != []
    ensures Placing(cdgs, vcs + [vc], parts + [S], removed)
  {
    hide Whole, Acyclic, View, NoDup, Left, Taken, Spread;
    SomeStay(cdgs, next, S, vc, removed);
    LeftNext(cdgs, parts, Elems(next), S);
    assert Elems(removed) == Elems(next) - S;
    SpreadMore(cdgs, vcs, parts, next, vc, S, removed);
  }

  lemma SpreadMore(cdgs: seq<Digraph>, vcs: seq<Vc>, parts: seq<set<nat>>, next: seq<nat>, vc: Vc, S: set<nat>, removed: seq<nat>)
    requires Spread(cdgs, vcs, parts, next) && Thinned(cdgs, Elems(next), S, vc, removed) && Acyclic(View(vc))
    ensures Spread(cdgs, vcs + [vc], parts + [S], removed)
  {
    hide Whole, Acyclic, View, NoDup, Taken;
    var parts' := parts + [S];
    forall i: nat | i < |cdgs| ensures i in removed || InPart(parts', i) {
      if InPart(parts, i) {
        var k :| 0 <= k < |parts| && i in parts[k];
        assert i in parts'[k];
      } else if i in S {
        assert i in parts'[|parts|];
      }
    }
    forall k, l | 0 <= k < l < |parts'| ensures parts'[k] !! parts'[l] {
      if l == |parts| {
        forall i <- parts[k] ensures i !in S {
          assert i !in next;
        }
      }
    }
    forall k | 0 <= k < |parts'| ensures forall i <- parts'[k] :: i < |cdgs| && i !in removed {
      forall i <- parts'[k] ensures i < |cdgs| && i !in removed {
        assert i in removed ==> i in next;
      }
    }
  }

  lemma SomeStay(cdgs: seq<Digraph>, next: seq<nat>, S: set<nat>, vc: Vc, removed: seq<nat>)
    requires Thinned(cdgs, Elems(next), S, vc, removed) && next != []
    ensures S != {} && S <= Elems(next)
  {
    hide Taken;
    if removed != [] {
      var d :| d in vc;
      InWhole(cdgs, S, d);
    } else {
      assert next[0] !in removed;
    }
  }

  /** Fewer paths move on, since not all of them were taken out. */
  lemma FewerMoveOn(cdgs: seq<Digraph>, next: seq<nat>, S: set<nat>, vc: Vc, removed: seq<nat>)
    requires Thinned(cdgs, Elems(next), S, vc, removed) && NoDup(next) && next != []
    ensures |removed| < |next|
  {
    if removed != [] {
      var d :| d in vc;
      InWhole(cdgs, S, d);
      DistinctCount(removed, Elems(next) - S);
      SetOfDistinct(next);
      SubsetSize(Elems(next) - S, Elems(next) - {d.cdg});
    }
  }

  lemma {:induction false} SetOfDistinct(s: seq<nat>)
    requires NoDup(s)
    ensures |Elems(s)| == |s|
    decreases |s|
  {
    if s != [] {
      var n := |s| - 1;
      SetOfDistinct(s[..n]);
      assert Elems(s) == Elems(s[..n]) + {s[n]};
    }
  }

  lemma ThinnedTwice(cdgs: seq<Digraph>, S0: set<nat>, S: set<nat>, vc: Vc, removed: seq<nat>, S': set<nat>, vc': Vc, more: seq<nat>)
    requires Thinned(cdgs, S0, S, vc, removed) && Thinned(cdgs, S, S', vc', more)
    ensures Thinned(cdgs, S0, S', vc', removed + more) && (more != [] ==> |S'| < |S|) && (more == [] ==> vc' == vc)
  {
    hide Whole;
    assert S - Elems(more) == S' by {
      forall x ensures x in S - Elems(more) <==> x in S' {
        assert x in more <==> x in S - S';
      }
    }
    if more == [] {
      assert S' == S by {
        forall x <- S ensures x in S' {
          assert x in more || x in S';
        }
      }
    }
    ThinMore(cdgs, S0, S, vc, removed, more, vc');
    if more != [] {
      assert more[0] in more && more[0] in S - S';
      SubsetSize(S', S - {more[0]});
    }
  }

  /** Takes paths out of a channel until it is acyclic. `isDag` is the library's test. */
  method MakeAcyclic(ghost cdgs: seq<Digraph>, A: set<nat>, ghost S0: set<nat>, vc0: Vc, isDag: Digraph -> bool)
    returns (vc: Vc, removed: seq<nat>, ghost S: set<nat>)
    requires GoodCdgs(cdgs, A) && vc0 == Whole(cdgs, S0) && forall X :: isDag(X) <==> Acyclic(X)
    ensures Thinned(cdgs, S0, S, vc, removed) && Acyclic(View(vc))
  {
    hide Acyclic, Thinned, GoodCdgs, View, Whole;
    vc, removed, S := vc0, [], S0;
    NothingThinned(cdgs, S0);
    while !isDag(View(vc))
      invariant Thinned(cdgs, S0, S, vc, removed)
      decreases |S|
    {
      ThinnedWhole(cdgs, S0, S, vc, removed);
      var moreRemove, vc';
      ghost var S';
      vc', moreRemove, S' := RemoveCyclesCdgVc(cdgs, A, S, vc);
      ThinnedTwice(cdgs, S0, S, vc, removed, S', vc', moreRemove);
      vc, removed, S := vc', removed + moreRemove, S';
    }
  }

  /** The channel has exactly the dependencies of path `i`, as far as they carry its number. */
  ghost predicate Holds(cdgs: seq<Digraph>, vc: Vc, i: nat)
    requires i < |cdgs|
  {
    forall a: nat, b: nat :: Dep(a, b, i) in vc <==> (a, b) in cdgs[i]
  }

  ghost predicate HoldsNone(vc: Vc, i: nat) {
    forall a: nat, b: nat :: Dep(a, b, i) !in vc
  }

  ghost predicate InOneChannel(cdgs: seq<Digraph>, vcs: seq<Vc>, i: nat)
    requires i < |cdgs|
  {
    exists k | 0 <= k < |vcs| :: Holds(cdgs, vcs[k], i) && forall l | 0 <= l < |vcs| && l != k :: HoldsNone(vcs[l], i)
  }

  ghost predicate LeavesCyclic(cdgs: seq<Digraph>, parts: seq<set<nat>>, k: nat) {
    k + 1 < |parts| ==> !Acyclic(View(Whole(cdgs, From(parts, k))))
  }

  /**
   Assigns the paths to virtual channels: every channel is acyclic, and every path is in exactly one, with all its
   dependencies. Each channel starts with all paths not placed yet, and paths move on only with weakest links of cycles; so
   there is a next channel only if those paths together had a cycle.
   */
  method AssignVcs(A: set<nat>, cdgs: seq<Digraph>, isDag: Digraph -> bool) returns (vcs: seq<Vc>, ghost parts: seq<set<nat>>)
    requires GoodCdgs(cdgs, A) && forall X :: isDag(X) <==> Acyclic(X)
    ensures forall vc <- vcs :: Acyclic(View(vc)) && forall d <- vc :: d.cdg < |cdgs|
    ensures forall i: nat | i < |cdgs| :: InOneChannel(cdgs, vcs, i)
    ensures Channels(cdgs, vcs, parts) && From(parts, 0) == Below(|cdgs|) && Left(cdgs, parts, {})
    ensures forall k: nat | k < |parts| :: LeavesCyclic(cdgs, parts, k)
  {
    hide Acyclic, Thinned, GoodCdgs, View, Whole, Channels, InOneChannel, Left, LeavesCyclic, From;
    parts := [];
    vcs := [];
    var nextVcCdgs: seq<nat> := seq(|cdgs|, i requires 0 <= i < |cdgs| => i);
    NothingPlaced(cdgs, nextVcCdgs);
    while nextVcCdgs != []
      invariant Placing(cdgs, vcs, parts, nextVcCdgs)
      decreases |nextVcCdgs|
    {
      var vc0 := BuildCdgVc(cdgs, nextVcCdgs);
      var vc, removed;
      ghost var S;
      vc, removed, S := MakeAcyclic(cdgs, A, Elems(nextVcCdgs), vc0, isDag);
      FewerMoveOn(cdgs, nextVcCdgs, S, vc, removed);
      PlaceMore(cdgs, vcs, parts, nextVcCdgs, vc, S, removed);
      vcs, parts, nextVcCdgs := vcs + [vc], parts + [S], removed;
    }
    AllPlaced(cdgs, vcs, parts);
    assert Elems(nextVcCdgs) == {};
    AllFrom(cdgs, vcs, parts);
    forall k: nat | k < |parts| ensures LeavesCyclic(cdgs, parts, k) {
      NextIsNeeded(cdgs, vcs, parts, k);
    }
  }

  lemma AllFrom(cdgs: seq<Digraph>, vcs: seq<Vc>, parts: seq<set<nat>>)
    requires Placing(cdgs, vcs, parts, [])
    ensures From(parts, 0) == Below(|cdgs|)
  {
    hide Left, Channels;
    forall i ensures i in From(parts, 0) <==> i in Below(|cdgs|) {
      if i in Below(|cdgs|) {
        assert InPart(parts, i);
      }
    }
  }

  /** A next channel is needed: the paths of this and the later ones together have a cycle. */
  lemma NextIsNeeded(cdgs: seq<Digraph>, vcs: seq<Vc>, parts: seq<set<nat>>, k: nat)
    requires Channels(cdgs, vcs, parts) && Left(cdgs, parts, {}) && k < |parts|
    ensures LeavesCyclic(cdgs, parts, k)
  {
    hide Acyclic, View, Whole, Taken;
    assert From(parts, k) + {} == From(parts, k);
    if k + 1 < |parts| {
      var i :| i in parts[k + 1];
      assert i in From(parts, k) && i !in parts[k];
      AcyclicKeepsAll(cdgs, From(parts, k), parts[k]);
    }
  }

  /** What is acyclic together is one channel. */
  lemma OneChannelForAll(cdgs: seq<Digraph>, parts: seq<set<nat>>)
    requires forall k: nat | k < |parts| :: LeavesCyclic(cdgs, parts, k)
    requires From(parts, 0) == Below(|cdgs|)
    ensures Acyclic(View(Whole(cdgs, Below(|cdgs|)))) ==> |parts| <= 1
  {
    hide Acyclic, View, Whole, From, Below;
    if |parts| > 1 {
      assert LeavesCyclic(cdgs, parts, 0);
    }
  }

  lemma AllPlaced(cdgs: seq<Digraph>, vcs: seq<Vc>, parts: seq<set<nat>>)
    requires Channels(cdgs, vcs, parts) && forall i: nat | i < |cdgs| :: InPart(parts, i)
    ensures forall vc <- vcs :: Acyclic(View(vc)) && forall d <- vc :: d.cdg < |cdgs|
    ensures forall i: nat | i < |cdgs| :: InOneChannel(cdgs, vcs, i)
  {
    hide Acyclic, View;
    forall vc, d | vc in vcs && d in vc ensures d.cdg < |cdgs| {
      var k :| 0 <= k < |vcs| && vcs[k] == vc;
      InWhole(cdgs, parts[k], d);
    }
    forall i: nat | i < |cdgs| ensures InOneChannel(cdgs, vcs, i) {
      var k := OneChannelEach(cdgs, vcs, parts, i);
      assert Holds(cdgs, vcs[k], i) && forall l | 0 <= l < |vcs| && l != k :: HoldsNone(vcs[l], i);
    }
  }

  lemma NothingPlaced(cdgs: seq<Digraph>, next: seq<nat>)
    requires |next| == |cdgs| && forall i | 0 <= i < |cdgs| :: next[i] == i
    ensures Placing(cdgs, [], [], next)
  {
    forall i: nat | i < |cdgs| ensures i in next {
      assert next[i] == i;
    }
  }

  /** Each path's dependencies are in its channel, all of them, and in no other. */
  lemma OneChannelEach(cdgs: seq<Digraph>, vcs: seq<Vc>, parts: seq<set<nat>>, i: nat) returns (k: nat)
    requires Channels(cdgs, vcs, parts) && i < |cdgs| && InPart(parts, i)
    ensures k < |vcs| && Holds(cdgs, vcs[k], i)
    ensures forall l | 0 <= l < |vcs| && l != k :: HoldsNone(vcs[l], i)
  {
    hide Acyclic, View;
    k :| 0 <= k < |parts| && i in parts[k];
    forall a: nat, b: nat ensures Dep(a, b, i) in vcs[k] <==> (a, b) in cdgs[i] {
      InWhole(cdgs, parts[k], Dep(a, b, i));
    }
    forall l | 0 <= l < |vcs| && l != k ensures HoldsNone(vcs[l], i) {
      assert if l < k then parts[l] !! parts[k] else parts[k] !! parts[l];
      forall a: nat, b: nat ensures Dep(a, b, i) !in vcs[l] {
        InWhole(cdgs, parts[l], Dep(a, b, i));
      }
    }
  }
}
