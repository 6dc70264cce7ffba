/** Ternary tables: cutting them into cross-free parts, and permuting the columns of a part until all rules are prefixes. */
module Ternary {
  import opened Wrappers
  import opened FiniteSets

  datatype Cell = Zero | One | Star

  /** A rule and its output. */
  datatype Entry<+O> = Entry(rule: seq<Cell>, output: O)

  type Table<+O> = seq<Entry<O>>

  ghost predicate Width<O>(table: Table<O>, b: nat) {
    forall e <- table :: |e.rule| == b
  }

  /** `r1` has a star where `r2` has none. */
  ghost predicate Wilder(r1: seq<Cell>, r2: seq<Cell>)
    requires |r1| == |r2|
  {
    exists i | 0 <= i < |r1| :: r1[i] == Star && r2[i] != Star
  }

  /** Each rule has a star where the other has none. */
  ghost predicate Cross(r1: seq<Cell>, r2: seq<Cell>)
    requires |r1| == |r2|
  {
    Wilder(r1, r2) && Wilder(r2, r1)
  }

  method CheckCrossPattern(r1: seq<Cell>, r2: seq<Cell>) returns (c: bool)
    requires |r1| == |r2|
    ensures c <==> Cross(r1, r2)
  {
    var r1wild, r2wild := false, false;
    for i := 0 to |r1|
      invariant r1wild <==> exists j | 0 <= j < i :: r1[j] == Star && r2[j] != Star
      invariant r2wild <==> exists j | 0 <= j < i :: r2[j] == Star && r1[j] != Star
      invariant !(r1wild && r2wild)
    {
      if r1[i] == Star && r2[i] != Star {
        r1wild := true;
      } else if r1[i] != Star && r2[i] == Star {
        r2wild := true;
      }
      if r1wild && r2wild {
        return true;
      }
    }
    return false;
  }

  // ---------- Cross-free parts ----------

  ghost predicate CrossFree<O>(part: Table<O>) {
    forall i, j | 0 <= i < |part| && 0 <= j < |part| && |part[i].rule| == |part[j].rule| :: !Cross(part[i].rule, part[j].rule)
  }

  function Flatten<T>(parts: seq<seq<T>>): seq<T> {
    if parts == [] then [] else parts[0] + Flatten(parts[1..])
  }

  /** The index at which `entry` crosses an entry of `p`, or the length. */
  method FindCross<O>(entry: Entry<O>, p: Table<O>) returns (j: nat)
    requires Width(p, |entry.rule|)
    ensures j <= |p| && (j < |p| ==> Cross(entry.rule, p[j].rule))
    ensures j == |p| ==> forall x <- p :: !Cross(entry.rule, x.rule)
  {
    j := 0;
    while j < |p|
      invariant j <= |p| && forall x <- p[..j] :: !Cross(entry.rule, x.rule)
    {
      assert p[j] in p && p[..j + 1] == p[..j] + [p[j]];
      var c := CheckCrossPattern(entry.rule, p[j].rule);
      if c {
        return;
      }
      j := j + 1;
    }
    assert p[..|p|] == p;
  }

  /**
   Places where any cut of `table[off..]` into cross-free parts must cut: entries `b` and `c` cross, and the stretches
   between them do not overlap.
   */
  ghost predicate Forced<O>(table: Table<O>, off: nat, forced: seq<(nat, nat)>) {
    && (forall k | 0 <= k < |forced| :: ForcedAt(table, off, forced[k]))
    && (forall k, l | 0 <= k < l < |forced| :: forced[k].1 <= forced[l].0)
  }

  ghost predicate ForcedAt<O>(table: Table<O>, off: nat, f: (nat, nat)) {
    off <= f.0 < f.1 < |table| && |table[f.0].rule| == |table[f.1].rule| && Cross(table[f.0].rule, table[f.1].rule)
  }

  lemma NoCross<O>(part: Table<O>, i: nat, j: nat)
    requires CrossFree(part) && i < |part| && j < |part| && |part[i].rule| == |part[j].rule|
    ensures !Cross(part[i].rule, part[j].rule)
  {
  }

  /** A part that is free of crosses does not hold both entries. */
  lemma NotInOnePart<O>(table: Table<O>, off: nat, end: nat, f: (nat, nat))
    requires off <= end <= |table| && CrossFree(table[off..end]) && ForcedAt(table, off, f)
    ensures f.1 >= end
  {
    hide CrossFree, Cross;
    if f.1 < end {
      NoCross(table[off..end], f.0 - off, f.1 - off);
    }
  }

  lemma ForcedNeedsEntries<O>(table: Table<O>, off: nat, forced: seq<(nat, nat)>)
    requires Forced(table, off, forced)
    ensures forced != [] ==> table != []
  {
    if forced != [] {
      assert ForcedAt(table, off, forced[0]);
    }
  }

  /** No cut has fewer parts than there are forced places, and one more. */
  lemma {:induction false} ForcedCuts<O>(table: Table<O>, off: nat, forced: seq<(nat, nat)>, parts: seq<Table<O>>)
    requires off < |table| && Forced(table, off, forced) && Flatten(parts) == table[off..] && forall p <- parts :: CrossFree(p)
    ensures |parts| >= |forced| + 1
    decreases |parts|
  {
    if forced != [] {
      var m := |parts[0]|;
      var f := forced[0];
      assert ForcedAt(table, off, f);
      assert table[off..][m..] == table[off + m..];
      assert parts[0] in parts && Flatten(parts) == parts[0] + Flatten(parts[1..]);
      assert Flatten(parts)[..m] == parts[0] && Flatten(parts)[m..] == Flatten(parts[1..]);
      assert parts[0] == table[off..off + m];
      NotInOnePart(table, off, off + m, f);
      forall k | 0 <= k < |forced[1..]| ensures ForcedAt(table, off + m, forced[1..][k]) {
        assert forced[1..][k] == forced[k + 1] && ForcedAt(table, off, forced[k + 1]);
      }
      ForcedCuts(table, off + m, forced[1..], parts[1..]);
    }
  }

  /** The parts found so far cut `table[s..]`, in reverse order; `p` holds `table[i..s]`, reversed. */
  ghost predicate Cutting<O>(table: Table<O>, i: nat, s: nat, L: seq<Table<O>>, p: Table<O>, forced: seq<(nat, nat)>) {
    && i <= s <= |table| && Reversed(p) == table[i..s] && Flatten(Reversed(L)) == table[s..]
    && CrossFree(table[i..s]) && (forall q <- L :: CrossFree(q))
    && |forced| == |L| && Forced(table, 0, forced) && (forced != [] ==> forced[0].0 == s - 1)
  }

  lemma NothingCut<O>(table: Table<O>)
    ensures Cutting(table, |table|, |table|, [], [], [])
  {
  }

  lemma NoSelfCross<O>(e: Entry<O>)
    ensures CrossFree([e])
  {
  }

  lemma FlattenCons<T>(p: seq<T>, parts: seq<seq<T>>)
    ensures Flatten([p] + parts) == p + Flatten(parts)
  {
    assert ([p] + parts)[1..] == parts;
  }

  /** `table[i]` crosses an entry of the current part: the part is finished. */
  lemma CutHere<O>(table: Table<O>, b: nat, i: nat, s: nat, L: seq<Table<O>>, p: Table<O>, forced: seq<(nat, nat)>, x: Entry<O>) returns (c: nat)
    requires Width(table, b) && 0 < i && Cutting(table, i, s, L, p, forced) && x in p
    requires |x.rule| == |table[i - 1].rule| && Cross(table[i - 1].rule, x.rule)
    ensures Cutting(table, i - 1, i, L + [Reversed(p)], [table[i - 1]], [(i - 1, c)] + forced)
  {
    hide Cross, CrossFree;
    NoSelfCross(table[i - 1]);
    ReversedElems(p);
    c :| i <= c < s && table[c] == x;
    assert table[i - 1] in table && table[c] in table;
    ReversedSnoc(L, Reversed(p));
    FlattenCons(Reversed(p), Reversed(L));
    assert table[i..] == table[i..s] + table[s..];
    assert table[i - 1..i] == [table[i - 1]];
    var f := [(i - 1, c)] + forced;
    forall k | 0 <= k < |f| ensures ForcedAt(table, 0, f[k]) {
      if k > 0 {
        assert ForcedAt(table, 0, forced[k - 1]);
      }
    }
    forall k, l | 0 <= k < l < |f| ensures f[k].1 <= f[l].0 {
      if k == 0 {
        assert l > 1 ==> forced[0].1 <= forced[l - 1].0 && ForcedAt(table, 0, forced[0]);
      }
    }
  }

  /** `table[i]` crosses no entry of the current part: it joins the part. */
  lemma JoinPart<O>(table: Table<O>, b: nat, i: nat, s: nat, L: seq<Table<O>>, p: Table<O>, forced: seq<(nat, nat)>)
    requires Width(table, b) && 0 < i && Cutting(table, i, s, L, p, forced)
    requires forall x <- p :: |x.rule| == |table[i - 1].rule| && !Cross(table[i - 1].rule, x.rule)
    ensures Cutting(table, i - 1, s, L, p + [table[i - 1]], forced)
  {
    ReversedElems(p);
    ReversedSnoc(p, table[i - 1]);
    var part := table[i - 1..s];
    assert part == [table[i - 1]] + table[i..s];
    forall j, k | 0 <= j < |part| && 0 <= k < |part| && |part[j].rule| == |part[k].rule| ensures !Cross(part[j].rule, part[k].rule) {
      if j > 0 {
        assert part[j] == table[i..s][j - 1] && part[j] in p;
      }
      if k > 0 {
        assert part[k] == table[i..s][k - 1] && part[k] in p;
      }
    }
  }

  ghost predicate CrossesSome<O>(e: Entry<O>, part: Table<O>) {
    exists x <- part :: |x.rule| == |e.rule| && Cross(e.rule, x.rule)
  }

  /** No part could have started earlier: the last entry of the part before it crosses one of its entries. */
  ghost predicate CutLate<O>(parts: seq<Table<O>>) {
    forall k | 0 <= k < |parts| - 1 :: parts[k] != [] && CrossesSome(parts[k][|parts[k]| - 1], parts[k + 1])
  }

  /** The finished parts, last part first, and the entries of the current one, last entry first. */
  ghost predicate LateSoFar<O>(L: seq<Table<O>>, p: Table<O>) {
    CutLate(Reversed(L)) && (L != [] ==> p != [] && CrossesSome(p[0], L[|L| - 1]))
  }

  lemma NothingLate<O>()
    ensures LateSoFar<O>([], [])
  {
  }

  lemma LateCut<O>(L: seq<Table<O>>, p: Table<O>, e: Entry<O>, j: nat)
    requires LateSoFar(L, p) && j < |p| && |e.rule| == |p[j].rule| && Cross(e.rule, p[j].rule)
    ensures LateSoFar(L + [Reversed(p)], [e])
  {
    hide Cross;
    LateDone(L, p);
    ReversedElems(p);
    assert p[j] in Reversed(p);
  }

  lemma LateJoin<O>(L: seq<Table<O>>, p: Table<O>, e: Entry<O>)
    requires LateSoFar(L, p)
    ensures LateSoFar(L, p + [e])
  {
  }

  lemma LateDone<O>(L: seq<Table<O>>, p: Table<O>)
    requires LateSoFar(L, p)
    ensures CutLate(Reversed(L + [Reversed(p)]))
  {
    hide CrossesSome;
    ReversedSnoc(L, Reversed(p));
    var r := Reversed(L);
    var parts := [Reversed(p)] + r;
    forall k | 0 <= k < |parts| - 1 ensures parts[k] != [] && CrossesSome(parts[k][|parts[k]| - 1], parts[k + 1]) {
      if k == 0 {
        ReversedEnds(p);
        ReversedEnds(L);
      } else {
        assert parts[k] == r[k - 1] && parts[k + 1] == r[k];
      }
    }
  }

  lemma ReversedEnds<T>(s: seq<T>)
    requires s != []
    ensures |Reversed(s)| == |s| && Reversed(s)[0] == s[|s| - 1] && Reversed(s)[|s| - 1] == s[0]
  {
    assert s == s[..|s| - 1] + [s[|s| - 1]];
    ReversedSnoc(s[..|s| - 1], s[|s| - 1]);
    assert Reversed(s) == Reversed(s[1..]) + [s[0]];
  }

  lemma {:induction false} FlattenSnoc<T>(parts: seq<seq<T>>)
    requires parts != []
    ensures Flatten(parts) == Flatten(parts[..|parts| - 1]) + parts[|parts| - 1]
  {
    if |parts| > 1 {
      FlattenSnoc(parts[1..]);
      assert parts[1..][..|parts| - 2] == parts[..|parts| - 1][1..];
    }
  }

  lemma SameEnd<T>(a: seq<T>, p: seq<T>, c: seq<T>, o: seq<T>)
    requires a + p == c + o
    ensures |p| == |o| ==> p == o && a == c
    ensures |p| < |o| ==> a != [] && o[|o| - |p| - 1] == a[|a| - 1] && o[|o| - |p|..] == p
  {
    var all := a + p;
    assert all[|a|..] == p && all[..|a|] == a && all[|c|..] == o && all[..|c|] == c;
    if |p| < |o| {
      assert all[|a| - 1] == o[|o| - |p| - 1];
      assert o[|o| - |p|..] == all[|a|..];
    }
  }

  /** The last entry before the last part crosses one of that part. */
  lemma EndCrosses<O>(parts: seq<Table<O>>)
    requires parts != [] && CutLate(parts) && Flatten(parts[..|parts| - 1]) != []
    ensures var front := Flatten(parts[..|parts| - 1]); CrossesSome(front[|front| - 1], parts[|parts| - 1])
  {
    hide CrossesSome;
    var fronts := parts[..|parts| - 1];
    assert fronts != [];
    FlattenSnoc(fronts);
    var q := parts[|parts| - 2];
    assert q != [] && Flatten(fronts)[|Flatten(fronts)| - 1] == q[|q| - 1];
  }

  lemma CrossInside<O>(e: Entry<O>, p: Table<O>, o: Table<O>)
    requires |p| < |o| && o[|o| - |p| - 1] == e && o[|o| - |p|..] == p && CrossesSome(e, p)
    ensures !CrossFree(o)
  {
    hide CrossFree, Cross;
    var x :| x in p && |x.rule| == |e.rule| && Cross(e.rule, x.rule);
    var i :| 0 <= i < |p| && p[i] == x;
    assert o[|o| - |p| + i] == x;
    if CrossFree(o) {
      NoCross(o, |o| - |p| - 1, |o| - |p| + i);
    }
  }

  /** A last part is not longer than the last part of another cut that cuts late. */
  lemma LastPart<O>(parts: seq<Table<O>>, other: seq<Table<O>>)
    requires parts != [] && other != [] && Flatten(parts) == Flatten(other) && CutLate(parts) && CrossFree(other[|other| - 1])
    ensures |other[|other| - 1]| <= |parts[|parts| - 1]|
  {
    hide CrossFree, CrossesSome, Flatten, CutLate;
    var p, o := parts[|parts| - 1], other[|other| - 1];
    FlattenSnoc(parts);
    FlattenSnoc(other);
    var front := Flatten(parts[..|parts| - 1]);
    SameEnd(front, p, Flatten(other[..|other| - 1]), o);
    if |p| < |o| {
      EndCrosses(parts);
      CrossInside(front[|front| - 1], p, o);
    }
  }

  /** There is only one cut into cross-free parts that cuts late. */
  lemma {:induction false} OneLateCut<O>(parts: seq<Table<O>>, other: seq<Table<O>>)
    requires Flatten(parts) == Flatten(other) != [] && CutLate(parts) && CutLate(other)
    requires (forall p <- parts :: CrossFree(p)) && forall p <- other :: CrossFree(p)
    ensures parts == other
    decreases |parts|
  {
    hide CrossFree, CrossesSome, Flatten;
    NotNoParts(parts);
    NotNoParts(other);
    var m, n := |parts| - 1, |other| - 1;
    LastPart(parts, other);
    LastPart(other, parts);
    FlattenSnoc(parts);
    FlattenSnoc(other);
    SameEnd(Flatten(parts[..m]), parts[m], Flatten(other[..n]), other[n]);
    if Flatten(parts[..m]) == [] {
      NoneBefore(parts);
      NoneBefore(other);
    } else {
      OneLateCut(parts[..m], other[..n]);
    }
    assert parts == parts[..m] + [parts[m]] && other == other[..n] + [other[n]];
  }

  lemma NotNoParts<T>(parts: seq<seq<T>>)
    requires Flatten(parts) != []
    ensures parts != []
  {
  }

  lemma NoneBefore<O>(parts: seq<Table<O>>)
    requires parts != [] && CutLate(parts) && Flatten(parts[..|parts| - 1]) == []
    ensures parts[..|parts| - 1] == []
  {
    hide CrossesSome;
  }

  /**
   Cuts the table into the fewest contiguous cross-free parts, each as long as can be from its end; an empty table becomes
   one empty part.
   */
  method FindMinPartition<O(!new)>(table: Table<O>, ghost b: nat) returns (parts: seq<Table<O>>)
    requires Width(table, b)
    ensures Flatten(parts) == table && CutLate(parts) && forall p <- parts :: CrossFree(p)
    ensures table == [] ==> parts == [[]]
    ensures table != [] ==> forall other | Flatten(other) == table && (forall p <- other :: CrossFree(p)) :: |parts| <= |other|
  {
    hide Cutting, Cross, CrossFree, LateSoFar, CutLate;
    NothingCut(table);
    NothingLate<O>();
    var L: seq<Table<O>>, p: Table<O> := [], [];
    ghost var s: nat, forced: seq<(nat, nat)> := |table|, [];
    var i: nat := |table|;
    while i > 0
      invariant Cutting(table, i, s, L, p, forced) && LateSoFar(L, p)
    {
      var entry := table[i - 1];
      PartWidth(table, b, i, s, L, p, forced);
      var j := FindCross(entry, p);
      if j < |p| {
        ghost var c := CutHere(table, b, i, s, L, p, forced, p[j]);
        LateCut(L, p, entry, j);
        L, p := L + [Reversed(p)], [entry];
        s, forced := i, [(i - 1, c)] + forced;
      } else {
        JoinPart(table, b, i, s, L, p, forced);
        LateJoin(L, p, entry);
        p := p + [entry];
      }
      i := i - 1;
    }
    parts := Reversed(L + [Reversed(p)]);
    PartsDone(table, s, L, p, forced);
    LateDone(L, p);
    if table != [] {
      FewestParts(table, forced);
    }
  }

  lemma PartWidth<O>(table: Table<O>, b: nat, i: nat, s: nat, L: seq<Table<O>>, p: Table<O>, forced: seq<(nat, nat)>)
    requires Width(table, b) && 0 < i && Cutting(table, i, s, L, p, forced)
    ensures i <= |table| && |table[i - 1].rule| == b && Width(p, b)
  {
    ReversedElems(p);
    assert table[i - 1] in table;
    forall x <- p ensures |x.rule| == b {
      assert x in table[i..s];
    }
  }

  /** No other cut has fewer parts. */
  lemma FewestParts<O(!new)>(table: Table<O>, forced: seq<(nat, nat)>)
    requires table != [] && Forced(table, 0, forced)
    ensures forall other | Flatten(other) == table && (forall q <- other :: CrossFree(q)) :: |forced| + 1 <= |other|
  {
    hide CrossFree, Forced, Flatten;
    assert table[0..] == table;
    forall other | Flatten(other) == table && (forall q <- other :: CrossFree(q)) ensures |forced| + 1 <= |other| {
      ForcedCuts(table, 0, forced, other);
    }
  }

  lemma PartsDone<O(!new)>(table: Table<O>, s: nat, L: seq<Table<O>>, p: Table<O>, forced: seq<(nat, nat)>)
    requires Cutting(table, 0, s, L, p, forced)
    ensures var parts := Reversed(L + [Reversed(p)]);
      && Flatten(parts) == table && (forall q <- parts :: CrossFree(q)) && (table == [] ==> parts == [[]])
      && |parts| == |forced| + 1 && Forced(table, 0, forced)
  {
    hide CrossFree, Forced, ForcedAt;
    ReversedSnoc(L, Reversed(p));
    FlattenCons(Reversed(p), Reversed(L));
    ReversedElems(L);
    assert table == table[0..s] + table[s..];
    ForcedNeedsEntries(table, 0, forced);
    var parts := Reversed(L + [Reversed(p)]);
    assert parts == [Reversed(p)] + Reversed(L);
    forall q <- parts ensures CrossFree(q) {
      if q !in Reversed(L) {
        assert q == table[0..s];
      }
    }
    if table == [] {
      assert L == [] && Reversed(p) == [];
      assert [Reversed(p)] + Reversed(L) == [[]];
    }
  }

  // ---------- Permuting the columns ----------

  /** Stars come last. */
  ghost predicate IsPrefixRule(r: seq<Cell>) {
    forall i, j | 0 <= i < j < |r| :: r[i] == Star ==> r[j] == Star
  }

  /** The rows with a star in column `i`. */
  function StarRows<O>(table: Table<O>, i: nat, n: nat): set<nat>
    requires n <= |table| && forall e <- table :: i < |e.rule|
  {
    set e: nat | e < n && table[e].rule[i] == Star
  }

  /** The columns in their new order, each with its number of stars. */
  ghost predicate Order(cols: seq<(nat, nat)>, b: nat) {
    && |cols| == b && (forall k | 0 <= k < b :: cols[k].0 < b)
    && (forall k, l | 0 <= k < l < b :: cols[k].0 != cols[l].0)
  }

  method StarCount<O>(table: Table<O>, i: nat) returns (cnt: nat)
    requires forall e <- table :: i < |e.rule|
    ensures cnt == |StarRows(table, i, |table|)|
  {
    cnt := 0;
    for e := 0 to |table|
      invariant cnt == |StarRows(table, i, e)|
    {
      assert table[e] in table;
      assert StarRows(table, i, e + 1) == StarRows(table, i, e) + if table[e].rule[i] == Star then {e} else {};
      if table[e].rule[i] == Star {
        cnt := cnt + 1;
      }
    }
  }

  ghost predicate Counted<O>(table: Table<O>, cols: seq<(nat, nat)>, b: nat)
    requires Width(table, b)
  {
    Order(cols, b) && forall k | 0 <= k < b :: cols[k].1 == |StarRows(table, cols[k].0, |table|)|
  }

  /** Few stars first; equals stay in the order of the columns. */
  predicate Before(x: (nat, nat), y: (nat, nat)) {
    x.1 < y.1 || (x.1 == y.1 && x.0 < y.0)
  }

  ghost predicate ByStars(cols: seq<(nat, nat)>) {
    forall k, l | 0 <= k < l < |cols| :: Before(cols[k], cols[l])
  }

  /** Puts `x` behind the last column with no more stars. */
  method Insert(cols: seq<(nat, nat)>, x: (nat, nat)) returns (out: seq<(nat, nat)>, ghost at: nat)
    requires ByStars(cols) && forall k | 0 <= k < |cols| :: cols[k].0 < x.0
    ensures at <= |cols| && out == cols[..at] + [x] + cols[at..] && ByStars(out)
  {
    var n := |cols|;
    while n > 0 && cols[n - 1].1 > x.1
      invariant 0 <= n <= |cols| && forall k | n <= k < |cols| :: cols[k].1 > x.1
    {
      n := n - 1;
    }
    out, at := cols[..n] + [x] + cols[n..], n;
  }

  /** All columns by their numbers of stars. */
  ghost predicate StarOrder<O>(table: Table<O>, cols: seq<(nat, nat)>, b: nat) {
    Width(table, b) && Counted(table, cols, b) && ByStars(cols)
  }

  /** Sorts the columns `0..b` by their number of stars, few stars first; the order of equals is kept. */
  method SortColumns<O>(table: Table<O>, b: nat) returns (cols: seq<(nat, nat)>)
    requires Width(table, b)
    ensures StarOrder(table, cols, b)
  {
    cols := [];
    for i := 0 to b
      invariant |cols| == i && forall k | 0 <= k < i :: cols[k].0 < i && cols[k].1 == |StarRows(table, cols[k].0, |table|)|
      invariant (forall k, l | 0 <= k < l < i :: cols[k].0 != cols[l].0) && ByStars(cols)
    {
      var starcnt := StarCount(table, i);
      ghost var at;
      ghost var before := cols;
      cols, at := Insert(cols, (i, starcnt));
      InsertedDistinct(before, (i, starcnt), at, i);
      forall k | 0 <= k <= i ensures cols[k].0 < i + 1 && cols[k].1 == |StarRows(table, cols[k].0, |table|)| {
        assert cols[k] == if k < at then before[k] else if k == at then (i, starcnt) else before[k - 1];
      }
    }
  }

  lemma InsertedDistinct(cols: seq<(nat, nat)>, x: (nat, nat), at: nat, i: nat)
    requires |cols| == i && at <= i && x.0 == i && (forall k | 0 <= k < i :: cols[k].0 < i)
    requires forall k, l | 0 <= k < l < i :: cols[k].0 != cols[l].0
    ensures var out := cols[..at] + [x] + cols[at..]; forall k, l | 0 <= k < l < |out| :: out[k].0 != out[l].0
  {
    var out := cols[..at] + [x] + cols[at..];
    forall k, l | 0 <= k < l < |out| ensures out[k].0 != out[l].0 {
      assert out[k] == if k < at then cols[k] else if k == at then x else cols[k - 1];
      assert out[l] == if l < at then cols[l] else if l == at then x else cols[l - 1];
    }
  }

  /** The rule with its columns in the new order. */
  ghost predicate SwappedRule(r: seq<Cell>, m: seq<Cell>, cols: seq<(nat, nat)>, n: nat) {
    |m| == |r| == |cols| && n <= |cols| && forall k | 0 <= k < n :: cols[k].0 < |r| && m[k] == r[cols[k].0]
  }

  ghost predicate Swapped<O>(table: Table<O>, M: Table<O>, cols: seq<(nat, nat)>, n: nat) {
    |M| == |table| && forall e | 0 <= e < |table| :: M[e].output == table[e].output && SwappedRule(table[e].rule, M[e].rule, cols, n)
  }

  lemma SwapNext(r: seq<Cell>, m: seq<Cell>, cols: seq<(nat, nat)>, k: nat)
    requires SwappedRule(r, m, cols, k) && k < |cols| && cols[k].0 < |r|
    ensures SwappedRule(r, m[k := r[cols[k].0]], cols, k + 1)
  {
  }

  /** Orders the columns of a part, writing them one after the other into a copy of the table. */
  method PrefixBitSwap<O>(table: Table<O>, b: nat) returns (M: Table<O>, cols: seq<(nat, nat)>)
    requires Width(table, b)
    ensures Counted(table, cols, b) && Width(M, b) && Swapped(table, M, cols, b) && StarOrder(table, cols, b)
    ensures CrossFree(table) ==> forall m <- M :: IsPrefixRule(m.rule)
  {
    hide CrossFree, IsPrefixRule;
    cols := SortColumns(table, b);
    M := table;
    assert forall e | 0 <= e < |table| :: table[e] in table;
    for k := 0 to b
      invariant Swapped(table, M, cols, k)
    {
      var i := cols[k].0;
      ghost var before := M;
      for e := 0 to |table|
        invariant |M| == |table| && (forall f | e <= f < |table| :: M[f] == before[f])
        invariant forall f | 0 <= f < e :: M[f].output == table[f].output && SwappedRule(table[f].rule, M[f].rule, cols, k + 1)
      {
        hide SwappedRule, Counted, Order, Width;
        var cell := table[e].rule[i];
        SwapNext(table[e].rule, before[e].rule, cols, k);
        M := M[e := Entry(M[e].rule[k := cell], M[e].output)];
      }
    }
    forall m <- M ensures |m.rule| == b {
      var e :| 0 <= e < |M| && M[e] == m;
      assert SwappedRule(table[e].rule, M[e].rule, cols, b);
    }
    if CrossFree(table) {
      forall m <- M ensures IsPrefixRule(m.rule) {
        var e :| 0 <= e < |M| && M[e] == m;
        SortedIsPrefix(table, b, cols, e, m.rule);
      }
    }
  }

  /** In a cross-free part, a column with a star where another one has none has strictly more stars. */
  lemma MoreStars<O>(table: Table<O>, b: nat, e: nat, i: nat, j: nat)
    requires Width(table, b) && CrossFree(table) && e < |table| && i < b && j < b
    requires table[e] in table && table[e].rule[i] == Star && table[e].rule[j] != Star
    ensures |StarRows(table, j, |table|)| < |StarRows(table, i, |table|)|
  {
    hide CrossFree;
    var si, sj := StarRows(table, i, |table|), StarRows(table, j, |table|);
    forall f <- sj ensures f in si - {e} {
      assert table[f] in table;
      if table[f].rule[i] != Star {
        assert Wilder(table[e].rule, table[f].rule) && Wilder(table[f].rule, table[e].rule);
        NoCross(table, e, f);
      }
    }
    SubsetSize(sj, si - {e});
  }

  lemma SortedIsPrefix<O>(table: Table<O>, b: nat, cols: seq<(nat, nat)>, e: nat, m: seq<Cell>)
    requires Width(table, b) && CrossFree(table) && Counted(table, cols, b) && e < |table| && table[e] in table
    requires (forall k, l | 0 <= k < l < b :: cols[k].1 <= cols[l].1) && SwappedRule(table[e].rule, m, cols, b)
    ensures IsPrefixRule(m)
  {
    hide CrossFree;
    forall k, l | 0 <= k < l < b && m[k] == Star ensures m[l] == Star {
      if m[l] != Star {
        MoreStars(table, b, e, cols[k].0, cols[l].0);
      }
    }
  }

  /** Rules that are all prefixes never cross, so parts that are not cross-free have no such order. */
  lemma PrefixesDoNotCross(r1: seq<Cell>, r2: seq<Cell>)
    requires |r1| == |r2| && IsPrefixRule(r1) && IsPrefixRule(r2)
    ensures !Cross(r1, r2)
  {
    if Cross(r1, r2) {
      var i :| 0 <= i < |r1| && r1[i] == Star && r2[i] != Star;
      var j :| 0 <= j < |r1| && r2[j] == Star && r1[j] != Star;
    }
  }

  lemma RecoverNext(r: seq<Cell>, m: seq<Cell>, cols: seq<(nat, nat)>, k: nat)
    requires Order(cols, |cols|) && Recovered(r, m, cols, k) && k < |cols|
    ensures Recovered(r, m[cols[k].0 := r[k]], cols, k + 1)
  {
  }

  /** Puts the columns back. */
  method BitRecovery<O>(table: Table<O>, cols: seq<(nat, nat)>) returns (M: Table<O>)
    requires Width(table, |cols|) && Order(cols, |cols|)
    ensures |M| == |table| && Width(M, |cols|) && Swapped(M, table, cols, |cols|)
  {
    var b := |cols|;
    M := table;
    assert forall e | 0 <= e < |table| :: table[e] in table;
    for k := 0 to b
      invariant |M| == |table| && forall e | 0 <= e < |table| :: M[e].output == table[e].output && Recovered(table[e].rule, M[e].rule, cols, k)
    {
      var i := cols[k].0;
      ghost var before := M;
      for e := 0 to |table|
        invariant |M| == |table| && (forall f | e <= f < |table| :: M[f] == before[f])
        invariant forall f | 0 <= f < e :: M[f].output == table[f].output && Recovered(table[f].rule, M[f].rule, cols, k + 1)
      {
        var cell := table[e].rule[k];
        RecoverNext(table[e].rule, before[e].rule, cols, k);
        M := M[e := Entry(M[e].rule[i := cell], M[e].output)];
      }
    }
    forall e | 0 <= e < |table| ensures SwappedRule(M[e].rule, table[e].rule, cols, b) {
      assert Recovered(table[e].rule, M[e].rule, cols, b);
    }
    forall m <- M ensures |m.rule| == b {
      var e :| 0 <= e < |M| && M[e] == m;
      assert Recovered(table[e].rule, M[e].rule, cols, b);
    }
  }

  ghost predicate Recovered(r: seq<Cell>, m: seq<Cell>, cols: seq<(nat, nat)>, n: nat) {
    |m| == |r| == |cols| && n <= |cols| && forall k | 0 <= k < n :: cols[k].0 < |m| && m[cols[k].0] == r[k]
  }

  /** Every column is somewhere in the order. */
  lemma ColumnAt(cols: seq<(nat, nat)>, b: nat, i: nat) returns (k: nat)
    requires Order(cols, b) && i < b
    ensures k < b && cols[k].0 == i
  {
    var s := seq(b, k requires 0 <= k < b => cols[k].0);
    if i !in s {
      DistinctCount(s, Below(b) - {i});
    }
    k :| 0 <= k < b && s[k] == i;
  }

  /** Only one table has the given columns in the given order. */
  lemma OneOriginal<O>(a: Table<O>, c: Table<O>, M: Table<O>, cols: seq<(nat, nat)>, b: nat)
    requires Order(cols, b) && Swapped(a, M, cols, b) && Swapped(c, M, cols, b)
    ensures a == c
  {
    forall e | 0 <= e < |a| ensures a[e] == c[e] {
      assert SwappedRule(a[e].rule, M[e].rule, cols, b) && SwappedRule(c[e].rule, M[e].rule, cols, b);
      forall i | 0 <= i < b ensures a[e].rule[i] == c[e].rule[i] {
        var k := ColumnAt(cols, b, i);
      }
      assert a[e].rule == c[e].rule;
    }
  }

  /** Recovery undoes the permutation exactly. */
  method SwapAndRecover<O>(table: Table<O>, b: nat) returns (recovered: Table<O>)
    requires Width(table, b)
    ensures recovered == table
  {
    var M, cols := PrefixBitSwap(table, b);
    recovered := BitRecovery(M, cols);
    OneOriginal(table, recovered, M, cols, b);
  }
}
