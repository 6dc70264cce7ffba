/**
 What merging leads to: of each output, and of the rules whose last digit is in the same place, the maximal cubes of what
 they cover.
 */
module MaxCubes {
  import opened Wrappers
  import opened FiniteSets
  import opened Ternary
  import opened Classes
  import opened MergeRounds

  // ---------- Cubes ----------

  ghost predicate IsSpot<O>(t: Entry<O>, o: O, last: nat, h: seq<bool>) {
    t.output == o && Ends(t.rule) == last && MatchesKey(t.rule, h)
  }

  /** `h` is a key of a rule with output `o` that has its last digit right before place `last`. */
  ghost predicate Spot<O>(T: Table<O>, o: O, last: nat, h: seq<bool>) {
    exists t <- T :: IsSpot(t, o, last, h)
  }

  /** All keys of `q` are such keys. */
  ghost predicate Cube<O>(T: Table<O>, b: nat, o: O, last: nat, q: seq<Cell>) {
    |q| == b && forall h: seq<bool> | MatchesKey(q, h) :: Spot(T, o, last, h)
  }

  /** No larger pattern has only such keys. */
  ghost predicate Maximal<O>(T: Table<O>, b: nat, o: O, last: nat, q: seq<Cell>) {
    Cube(T, b, o, last, q) && forall p | Cube(T, b, o, last, p) && Within(q, p) :: p == q
  }

  ghost predicate MaxCube<O>(T: Table<O>, b: nat, e: Entry<O>) {
    exists last: nat :: Maximal(T, b, e.output, last, e.rule)
  }

  /** The stars before the last digit: those that merging brought in. */
  ghost function Inner(r: seq<Cell>): set<nat> {
    set i: nat | i < Ends(r) && r[i] == Star
  }

  lemma CubeWithin<O>(T: Table<O>, b: nat, o: O, last: nat, p: seq<Cell>, q: seq<Cell>)
    requires Cube(T, b, o, last, q) && Within(p, q)
    ensures Cube(T, b, o, last, p)
  {
    hide MatchesKey, Spot, Within;
    assert |p| == b by {
      SameWidth(p, q);
    }
    forall h: seq<bool> | MatchesKey(p, h) ensures Spot(T, o, last, h) {
      WithinMatches(p, q, h);
    }
  }

  lemma SameWidth(p: seq<Cell>, q: seq<Cell>)
    requires Within(p, q)
    ensures |p| == |q|
  {
  }

  lemma JoinedCube<O>(T: Table<O>, b: nat, o: O, last: nat, x: seq<Cell>, y: seq<Cell>, d: nat)
    requires Cube(T, b, o, last, x) && Cube(T, b, o, last, y) && PairAt(x, y, d)
    ensures Cube(T, b, o, last, Joined(x, y))
  {
    hide MatchesKey, Spot;
    forall h: seq<bool> | MatchesKey(Joined(x, y), h) ensures Spot(T, o, last, h) {
      JoinedMatches(x, y, d, h);
    }
  }

  /** A cube split at a star. */
  lemma Halves(q: seq<Cell>, d: nat)
    requires d < |q| && q[d] == Star
    ensures PairAt(q[d := Zero], q[d := One], d) && Joined(q[d := Zero], q[d := One]) == q
    ensures Within(q[d := Zero], q) && Within(q[d := One], q)
    ensures d < Ends(q) ==> Ends(q[d := Zero]) == Ends(q) && Inner(q[d := Zero]) == Inner(q) - {d} && |Inner(q[d := Zero])| == |Inner(q)| - 1
    ensures d < Ends(q) ==> Ends(q[d := One]) == Ends(q) && |Inner(q[d := One])| == |Inner(q)| - 1
  {
    JoinedAt(q[d := Zero], q[d := One], d);
    HalfInner(q, d, Zero);
    HalfInner(q, d, One);
  }

  lemma HalfInner(q: seq<Cell>, d: nat, c: Cell)
    requires d < |q| && q[d] == Star && c != Star
    ensures d < Ends(q) ==> Ends(q[d := c]) == Ends(q) && Inner(q[d := c]) == Inner(q) - {d} && |Inner(q[d := c])| == |Inner(q)| - 1
  {
    if d < Ends(q) {
      EndsIs(q[d := c], Ends(q));
      assert d in Inner(q);
      assert Inner(q[d := c]) == Inner(q) - {d};
    }
  }

  /** A pattern inside a larger one has a neighbour inside it. */
  lemma Neighbour(q: seq<Cell>, p: seq<Cell>) returns (y: seq<Cell>, d: nat)
    requires Within(q, p) && p != q
    ensures PairAt(q, y, d) && Within(y, p) && Ends(y) == Ends(q) && |Inner(y)| == |Inner(q)|
  {
    d :| 0 <= d < |q| && p[d] != q[d];
    y := q[d := if q[d] == Zero then One else Zero];
    EndsIs(y, Ends(q));
    assert Inner(y) == Inner(q);
  }

  /** The last digit stays: otherwise two halves of a prefix would be rules of one output. */
  lemma CubeEnds<O>(T: Table<Option<O>>, b: nat, o: Option<O>, last: nat, q: seq<Cell>)
    requires Lean(T, b) && Cube(T, b, o, last, q)
    ensures Ends(q) >= last
  {
    hide MatchesKey, IsPrefixRule, KeyOf, Ends, Lean, Spot;
    var h := KeyOf(q);
    SpotWidth(T, b, o, last, h);
    if Ends(q) < last {
      MatchesBeyond(q, h, last - 1);
      NotBothSpots(T, b, o, last, h);
    }
  }

  /** Keys that differ right where the rules have their last digit are not both covered. */
  lemma NotBothSpots<O>(T: Table<Option<O>>, b: nat, o: Option<O>, last: nat, h: seq<bool>)
    requires Lean(T, b) && 0 < last <= |h| && Spot(T, o, last, h)
    ensures !Spot(T, o, last, h[last - 1 := !h[last - 1]])
  {
    hide MatchesKey, IsPrefixRule, Ends, Lean, PairAt;
    var k := h[last - 1 := !h[last - 1]];
    if Spot(T, o, last, k) {
      var t :| t in T && IsSpot(t, o, last, h);
      var u :| u in T && IsSpot(u, o, last, k);
      LeanPair(T, b, t, u);
      FlippedPair(t.rule, u.rule, h, last - 1);
    }
  }

  lemma LeanPair<O>(T: Table<Option<O>>, b: nat, t: Entry<Option<O>>, u: Entry<Option<O>>)
    requires Lean(T, b) && t in T && u in T && t.output == u.output && Ends(t.rule) > 0
    ensures IsPrefixRule(t.rule) && IsPrefixRule(u.rule) && !PairAt(t.rule, u.rule, Ends(t.rule) - 1)
  {
    hide IsPrefixRule, Ends, PairAt, Tight;
  }

  lemma SpotWidth<O>(T: Table<Option<O>>, b: nat, o: Option<O>, last: nat, h: seq<bool>)
    requires Lean(T, b) && Spot(T, o, last, h)
    ensures last <= b == |h|
  {
  }

  lemma MatchesBeyond(q: seq<Cell>, h: seq<bool>, i: nat)
    requires MatchesKey(q, h) && Ends(q) <= i < |h|
    ensures MatchesKey(q, h[i := !h[i]])
  {
    var k := h[i := !h[i]];
    forall j | 0 <= j < |q| ensures MatchesCell(q[j], k[j]) {
      assert MatchesCell(q[j], h[j]);
    }
  }

  lemma FlippedPair(t: seq<Cell>, u: seq<Cell>, h: seq<bool>, i: nat)
    requires IsPrefixRule(t) && IsPrefixRule(u) && Ends(t) == Ends(u) == i + 1
    requires i < |h| && MatchesKey(t, h) && MatchesKey(u, h[i := !h[i]])
    ensures PairAt(t, u, Ends(t) - 1)
  {
    PrefixDigits(t, h);
    PrefixDigits(u, h[i := !h[i]]);
  }

  /** A maximal cube has its last digit where the rules have theirs. */
  lemma MaximalEnds<O>(T: Table<Option<O>>, b: nat, o: Option<O>, last: nat, q: seq<Cell>)
    requires Lean(T, b) && Maximal(T, b, o, last, q)
    ensures Ends(q) == last
  {
    hide MatchesKey, Lean;
    CubeEnds(T, b, o, last, q);
    if Ends(q) > last {
      var d := Ends(q) - 1;
      var p := q[d := Star];
      forall h: seq<bool> | MatchesKey(p, h) ensures Spot(T, o, last, h) {
        WiderSpot(T, b, o, last, q, d, h);
      }
      NotMaximal(T, b, o, last, q, p);
    }
  }

  lemma NotMaximal<O>(T: Table<O>, b: nat, o: O, last: nat, q: seq<Cell>, p: seq<Cell>)
    requires Cube(T, b, o, last, p) && Within(q, p) && p != q
    ensures !Maximal(T, b, o, last, q)
  {
  }

  lemma WiderSpot<O>(T: Table<Option<O>>, b: nat, o: Option<O>, last: nat, q: seq<Cell>, d: nat, h: seq<bool>)
    requires Cube(T, b, o, last, q) && last <= d < |q| && q[d] != Star && MatchesKey(q[d := Star], h)
    ensures Spot(T, o, last, h)
  {
    hide Ends, MatchesKey;
    var k := WithDigit(q, d, h);
    assert Spot(T, o, last, k);
    var t :| t in T && IsSpot(t, o, last, k);
    Elsewhere(t.rule, k, h, d);
    assert IsSpot(t, o, last, h);
  }

  lemma WithDigit(q: seq<Cell>, d: nat, h: seq<bool>) returns (k: seq<bool>)
    requires d < |q| && q[d] != Star && MatchesKey(q[d := Star], h)
    ensures MatchesKey(q, k) && |k| == |h| && d < |h| && k == h[d := k[d]]
  {
    k := h[d := q[d] == One];
    forall j | 0 <= j < |q| ensures MatchesCell(q[j], k[j]) {
      assert MatchesCell(q[d := Star][j], h[j]);
    }
  }

  lemma Elsewhere(r: seq<Cell>, k: seq<bool>, h: seq<bool>, d: nat)
    requires MatchesKey(r, k) && Ends(r) <= d < |h| == |k| && k == h[d := k[d]]
    ensures MatchesKey(r, h)
  {
    forall j | 0 <= j < |r| ensures MatchesCell(r[j], h[j]) {
      assert MatchesCell(r[j], k[j]);
    }
  }

  // ---------- Round after round ----------

  /** After `n` rounds: the cubes with `n` stars merged in, and the maximal ones with fewer. */
  ghost predicate IsAt<O>(T: Table<O>, b: nat, n: nat, e: Entry<O>) {
    && Cube(T, b, e.output, Ends(e.rule), e.rule)
    && (|Inner(e.rule)| == n || (|Inner(e.rule)| < n && Maximal(T, b, e.output, Ends(e.rule), e.rule)))
  }

  ghost predicate AtRound<O(!new)>(T: Table<O>, b: nat, n: nat, s: set<Entry<O>>) {
    forall e :: e in s <==> IsAt(T, b, n, e)
  }

  lemma StageCube<O>(T: Table<O>, b: nat, s: set<Entry<O>>, e: Entry<O>)
    requires Stage(T, s, b) && e in s
    ensures Cube(T, b, e.output, Ends(e.rule), e.rule)
  {
    hide MatchesKey, Within, Ends;
    forall h: seq<bool> | MatchesKey(e.rule, h) ensures Spot(T, e.output, Ends(e.rule), h) {
      assert Based(T, e, h);
      var t :| t in T && IsBase(t, e, h);
      assert IsSpot(t, e.output, Ends(e.rule), h);
    }
  }

  /** Before the first round. */
  lemma StartAt<O(!new)>(T: Table<Option<O>>, b: nat)
    requires Lean(T, b)
    ensures AtRound(T, b, 0, Elems(T))
  {
    hide MatchesKey, Within, Ends, Inner, NoSiblings, Tight, IsPrefixRule;
    StartStage(T, b);
    forall e ensures e in Elems(T) <==> IsAt(T, b, 0, e) {
      if e in T {
        StageCube(T, b, Elems(T), e);
        PrefixInner(e.rule);
      }
      if IsAt(T, b, 0, e) {
        var h := KeyOf(e.rule);
        assert Spot(T, e.output, Ends(e.rule), h);
        var t :| t in T && IsSpot(t, e.output, Ends(e.rule), h);
        InnerPrefix(e.rule);
        PrefixNested(t.rule, e.rule, h);
      }
    }
  }

  lemma PrefixInner(r: seq<Cell>)
    requires IsPrefixRule(r)
    ensures |Inner(r)| == 0
  {
    PrefixDigits(r, KeyOf(r));
    assert Inner(r) == {};
  }

  lemma InnerPrefix(r: seq<Cell>)
    requires |Inner(r)| == 0
    ensures IsPrefixRule(r)
  {
    assert forall i | 0 <= i < Ends(r) :: r[i] != Star || i in Inner(r);
  }

  /** Allied cubes have the stars of their round, and their union has one more. */
  lemma AlliedAt<O(!new)>(T: Table<Option<O>>, b: nat, n: nat, s: set<Entry<Option<O>>>, x: Entry<Option<O>>, y: Entry<Option<O>>)
    requires Lean(T, b) && Stage(T, s, b) && AtRound(T, b, n, s) && x in s && y in s && Allied(x, y)
    ensures |Inner(x.rule)| == n && |x.rule| == |y.rule| && Ends(Joined(x.rule, y.rule)) == Ends(x.rule) && |Inner(Joined(x.rule, y.rule))| == n + 1
    ensures Cube(T, b, x.output, Ends(x.rule), Joined(x.rule, y.rule)) && Within(x.rule, Joined(x.rule, y.rule))
    ensures Joined(x.rule, y.rule) != x.rule
  {
    hide MatchesKey, Within, Joined, Ends, Inner, Lean, Spot, Stage;
    var d: nat :| PairAt(x.rule, y.rule, d);
    NotTheLast(T, b, s, x, y, d);
    JoinedAt(x.rule, y.rule, d);
    JoinedCube(T, b, x.output, Ends(x.rule), x.rule, y.rule, d);
    StarIn(x.rule, d);
    assert IsAt(T, b, n, x);
  }

  lemma StarIn(r: seq<Cell>, d: nat)
    requires d + 1 < Ends(r) && r[d] != Star
    ensures Ends(r[d := Star]) == Ends(r) && |Inner(r[d := Star])| == |Inner(r)| + 1
  {
    EndsIs(r[d := Star], Ends(r));
    assert Inner(r[d := Star]) == Inner(r) + {d};
  }

  /** What stays is maximal. */
  lemma StaysMaximal<O(!new)>(T: Table<Option<O>>, b: nat, n: nat, s: set<Entry<Option<O>>>, e: Entry<Option<O>>)
    requires AtRound(T, b, n, s) && Stays(s, e)
    ensures Maximal(T, b, e.output, Ends(e.rule), e.rule)
  {
    hide MatchesKey, Ends, Inner, Spot;
    assert IsAt(T, b, n, e);
    forall p | Cube(T, b, e.output, Ends(e.rule), p) && Within(e.rule, p) ensures p == e.rule {
      if p != e.rule {
        if |Inner(e.rule)| == n {
          HasAlly(T, b, n, s, e, p);
        }
      }
    }
  }

  lemma HasAlly<O(!new)>(T: Table<Option<O>>, b: nat, n: nat, s: set<Entry<Option<O>>>, e: Entry<Option<O>>, p: seq<Cell>)
    requires AtRound(T, b, n, s) && |Inner(e.rule)| == n && Cube(T, b, e.output, Ends(e.rule), p) && Within(e.rule, p) && p != e.rule
    ensures exists f <- s :: Allied(e, f)
  {
    hide MatchesKey, Ends, Inner, Spot;
    var y, d := Neighbour(e.rule, p);
    CubeWithin(T, b, e.output, Ends(e.rule), y, p);
    var f := Entry(y, e.output);
    assert IsAt(T, b, n, f) && Allied(e, f);
  }

  /** And what is maximal stays. */
  lemma MaximalStays<O(!new)>(T: Table<Option<O>>, b: nat, n: nat, s: set<Entry<Option<O>>>, e: Entry<Option<O>>)
    requires Lean(T, b) && Stage(T, s, b) && AtRound(T, b, n, s) && e in s && Maximal(T, b, e.output, Ends(e.rule), e.rule)
    ensures Stays(s, e)
  {
    hide Ends, Inner, Cube, Lean, Stage, Within, Joined, Partners;
    forall f <- s ensures !Allied(e, f) {
      if Allied(e, f) {
        AlliedAt(T, b, n, s, e, f);
      }
    }
  }

  lemma StepFrom<O(!new)>(T: Table<Option<O>>, b: nat, n: nat, s: set<Entry<Option<O>>>, e: Entry<Option<O>>)
    requires Lean(T, b) && Stage(T, s, b) && AtRound(T, b, n, s) && e in Round(s)
    ensures IsAt(T, b, n + 1, e)
  {
    hide Ends, Inner, Cube, Lean, Stage, Within, Joined, Allied, Round, Maximal;
    var x, y := FromRound(s, e);
    if Stays(s, e) {
      StaysMaximal(T, b, n, s, e);
      assert IsAt(T, b, n, e);
    } else {
      AlliedAt(T, b, n, s, x, y);
    }
  }

  lemma StepInto<O(!new)>(T: Table<Option<O>>, b: nat, n: nat, s: set<Entry<Option<O>>>, e: Entry<Option<O>>)
    requires Lean(T, b) && Stage(T, s, b) && AtRound(T, b, n, s) && IsAt(T, b, n + 1, e)
    ensures e in Round(s)
  {
    hide Ends, Inner, Cube, Lean, Stage, Within, Joined, Round, Maximal, PairAt;
    if |Inner(e.rule)| == n + 1 {
      var d := SomeInner(e.rule);
      Halves(e.rule, d);
      var x, y := Entry(e.rule[d := Zero], e.output), Entry(e.rule[d := One], e.output);
      CubeWithin(T, b, e.output, Ends(e.rule), x.rule, e.rule);
      CubeWithin(T, b, e.output, Ends(e.rule), y.rule, e.rule);
      assert IsAt(T, b, n, x) && IsAt(T, b, n, y);
      UnionInRound(s, x, y);
    } else {
      assert IsAt(T, b, n, e);
      MaximalStays(T, b, n, s, e);
      IntoRound(s, e);
    }
  }

  lemma SomeInner(r: seq<Cell>) returns (d: nat)
    requires |Inner(r)| > 0
    ensures d < Ends(r) && r[d] == Star
  {
    d :| d in Inner(r);
  }

  lemma StepAt<O(!new)>(T: Table<Option<O>>, b: nat, n: nat, s: set<Entry<Option<O>>>)
    requires Lean(T, b) && Stage(T, s, b) && AtRound(T, b, n, s)
    ensures AtRound(T, b, n + 1, Round(s))
  {
    hide Lean, Stage, Round, IsAt;
    forall e ensures e in Round(s) <==> IsAt(T, b, n + 1, e) {
      if e in Round(s) {
        StepFrom(T, b, n, s, e);
      }
      if IsAt(T, b, n + 1, e) {
        StepInto(T, b, n, s, e);
      }
    }
  }

  lemma {:induction false} RoundsAt<O(!new)>(T: Table<Option<O>>, b: nat, n: nat, s: set<Entry<Option<O>>>, k: nat)
    requires Lean(T, b) && Stage(T, s, b) && AtRound(T, b, n, s)
    ensures AtRound(T, b, n + k, Rounds(s, k))
    decreases k
  {
    hide Lean, Stage, Round, AtRound;
    if k > 0 {
      StepAt(T, b, n, s);
      RoundStage(T, b, s);
      RoundsAt(T, b, n + 1, Round(s), k - 1);
    } else {
    }
  }

  /** As many rounds as there are bits lead to the maximal cubes. */
  lemma MergedAreMaxCubes<O(!new)>(T: Table<Option<O>>, b: nat, e: Entry<Option<O>>)
    requires Lean(T, b)
    ensures e in Rounds(Elems(T), b) <==> MaxCube(T, b, e)
  {
    hide Lean, Stage, Rounds, Maximal, Cube;
    LeanWidth(T, b);
    StartStage(T, b);
    StartAt(T, b);
    RoundsAt(T, b, 0, Elems(T), b);
    if IsAt(T, b, b, e) {
      AllMaximal(T, b, e);
    }
    if MaxCube(T, b, e) {
      var last: nat :| Maximal(T, b, e.output, last, e.rule);
      MaximalEnds(T, b, e.output, last, e.rule);
      FewInner(T, b, e);
    }
  }

  lemma LeanWidth<O>(T: Table<Option<O>>, b: nat)
    requires Lean(T, b)
    ensures Width(T, b)
  {
  }

  lemma InnerSize(r: seq<Cell>)
    ensures |Inner(r)| <= Ends(r) && (Ends(r) > 0 ==> |Inner(r)| < Ends(r))
  {
    if Ends(r) > 0 {
      SubsetSize(Inner(r), Below(Ends(r) - 1));
    } else {
      assert Inner(r) == {};
    }
  }

  lemma FewInner<O>(T: Table<Option<O>>, b: nat, e: Entry<Option<O>>)
    requires Maximal(T, b, e.output, Ends(e.rule), e.rule)
    ensures IsAt(T, b, b, e)
  {
    hide MatchesKey, Inner, Spot;
    InnerSize(e.rule);
  }

  lemma AllMaximal<O>(T: Table<Option<O>>, b: nat, e: Entry<Option<O>>)
    requires IsAt(T, b, b, e)
    ensures Maximal(T, b, e.output, Ends(e.rule), e.rule)
  {
    hide MatchesKey, Inner, Spot;
    InnerSize(e.rule);
    if |Inner(e.rule)| == b {
      assert b == 0;
    }
  }
}
