/** Merging rules that differ in one digit, group by group and round after round. */
module BitMerge {
  import opened Wrappers
  import opened FiniteSets
  import opened Ternary
  import opened Classes
  import opened MergeRounds
  import opened MaxCubes
  import opened Sorting
  import opened RuleOrder

  // ---------- The merging itself ----------

  /** The positions of the stars. */
  method MaskOf(rule: seq<Cell>) returns (mask: set<nat>)
    ensures mask == BitMask(rule)
  {
    mask := {};
    for i := 0 to |rule|
      invariant mask == set k: nat | k < i && rule[k] == Star
    {
      if rule[i] == Star {
        mask := mask + {i};
      }
    }
  }

  function Differences(r1: seq<Cell>, r2: seq<Cell>): set<nat>
    requires |r1| == |r2|
  {
    set i: nat | i < |r1| && r1[i] != r2[i]
  }

  /** The positions at which the rules differ. */
  method HammingDist(r1: seq<Cell>, r2: seq<Cell>) returns (dist: set<nat>)
    requires |r1| == |r2|
    ensures dist == Differences(r1, r2)
  {
    dist := {};
    for i := 0 to |r1|
      invariant dist == set k: nat | k < i && r1[k] != r2[k]
    {
      if r1[i] != r2[i] {
        dist := dist + {i};
      }
    }
  }

  /** Rules with the same stars are partners exactly when their distance is one. */
  lemma DistanceOne(r: seq<Cell>, q: seq<Cell>)
    requires |r| == |q| && BitMask(r) == BitMask(q)
    ensures |Differences(r, q)| == 1 <==> Partners(r, q)
    ensures |Differences(r, q)| == 1 ==> forall d <- Differences(r, q) :: PairAt(r, q, d)
  {
    var dist := Differences(r, q);
    if |dist| == 1 {
      var d :| d in dist;
      assert |dist - {d}| == 0;
      SameStars(r, q, d);
      forall i | 0 <= i < |r| && i != d ensures r[i] == q[i] {
        assert i !in dist - {d};
      }
      assert PairAt(r, q, d);
      forall c <- dist ensures c == d {
        assert c !in dist - {d};
      }
    }
    if d: nat :| PairAt(r, q, d) {
      assert dist == {d};
    }
  }

  lemma SameStars(r: seq<Cell>, q: seq<Cell>, d: nat)
    requires |r| == |q| && BitMask(r) == BitMask(q) && d < |r|
    ensures r[d] == Star <==> q[d] == Star
  {
    assert d in BitMask(r) <==> d in BitMask(q);
  }

  function Keyed<O>(e: Entry<O>): (set<nat>, O) {
    (BitMask(e.rule), e.output)
  }

  /** The rules with the given stars and output, in order. */
  function RulesOf<O(==)>(S: Table<O>, k: (set<nat>, O)): seq<seq<Cell>> {
    if S == [] then []
    else RulesOf(S[..|S| - 1], k) + if Keyed(S[|S| - 1]) == k then [S[|S| - 1].rule] else []
  }

  type Groups<!O(==)> = map<(set<nat>, O), seq<seq<Cell>>>

  ghost predicate Grouped<O>(S: Table<O>, C: Groups<O>) {
    && (forall k <- C :: C[k] == RulesOf(S, k))
    && (forall k <- C :: exists e <- S :: Keyed(e) == k)
    && (forall e <- S :: Keyed(e) in C)
  }

  lemma RulesOfSnoc<O>(S: Table<O>, e: Entry<O>, k: (set<nat>, O))
    ensures RulesOf(S + [e], k) == RulesOf(S, k) + if Keyed(e) == k then [e.rule] else []
  {
    assert (S + [e])[..|S|] == S;
  }

  lemma {:induction false} NoRulesOf<O>(S: Table<O>, k: (set<nat>, O))
    requires forall e <- S :: Keyed(e) != k
    ensures RulesOf(S, k) == []
  {
    if S != [] {
      NoRulesOf(S[..|S| - 1], k);
    } else {
    }
  }

  method Group<O(==)>(S: Table<O>) returns (C: Groups<O>)
    ensures Grouped(S, C)
  {
    hide BitMask, RulesOf;
    C := map[];
    for n := 0 to |S|
      invariant Grouped(S[..n], C)
    {
      var e := S[n];
      var bitmask := MaskOf(e.rule);
      var k := (bitmask, e.output);
      GroupNext(S[..n], C, e);
      assert S[..n + 1] == S[..n] + [e];
      if k !in C {
        C := C[k := []];
      }
      C := C[k := C[k] + [e.rule]];
    }
    assert S[..|S|] == S;
  }

  lemma GroupNext<O>(S: Table<O>, C: Groups<O>, e: Entry<O>)
    requires Grouped(S, C)
    ensures Grouped(S + [e], C[Keyed(e) := (if Keyed(e) in C then C[Keyed(e)] else []) + [e.rule]])
  {
    hide RulesOf, BitMask;
    var k := Keyed(e);
    var C' := C[k := (if k in C then C[k] else []) + [e.rule]];
    forall j | j in C' ensures C'[j] == RulesOf(S + [e], j) && exists f <- S + [e] :: Keyed(f) == j {
      RulesOfSnoc(S, e, j);
      if j == k && k !in C {
        NoRulesOf(S, k);
      }
      if j == k {
        assert e in S + [e];
      } else {
        var f :| f in S && Keyed(f) == j;
        assert f in S + [e];
      }
    }
  }

  // ---------- One group ----------

  /** All rules of a group have the same stars. */
  ghost predicate OneMask(c: seq<seq<Cell>>, b: nat, mask: set<nat>) {
    forall r <- c :: |r| == b && BitMask(r) == mask
  }

  ghost predicate Lone(c: seq<seq<Cell>>, r: seq<Cell>) {
    r in c && forall q <- c :: !Partners(r, q)
  }

  ghost predicate JoinsTo(r: seq<Cell>, q: seq<Cell>, m: seq<Cell>) {
    Partners(r, q) && Joined(r, q) == m
  }

  /** How many rules of `s` join with `r` to `m`. */
  ghost function Mates(r: seq<Cell>, s: seq<seq<Cell>>, m: seq<Cell>): nat {
    if s == [] then 0 else Mates(r, s[..|s| - 1], m) + if JoinsTo(r, s[|s| - 1], m) then 1 else 0
  }

  /** How many pairs of places of `c` hold rules that join to `m`. */
  ghost function Pairs(c: seq<seq<Cell>>, m: seq<Cell>): nat {
    if c == [] then 0 else Mates(c[0], c[1..], m) + Pairs(c[1..], m)
  }

  /** How often `m` comes out of a group. */
  ghost function GroupCount(c: seq<seq<Cell>>, m: seq<Cell>): nat {
    (if Lone(c, m) then multiset(c)[m] else 0) + Pairs(c, m)
  }

  /** The pairs before `(i, j)` are looked at. */
  ghost predicate Looked(i: int, j: int, x: int, y: int) {
    0 <= x < y && (x < i || (x == i && y < j))
  }

  ghost predicate Flagged(c: seq<seq<Cell>>, i: int, j: int, added: seq<bool>) {
    && |added| == |c|
    && (forall x, y | Looked(i, j, x, y) && y < |c| && Partners(c[x], c[y]) :: added[x] && added[y])
    && (forall x | 0 <= x < |c| && added[x] :: !Lone(c, c[x]))
  }

  /** Every pair looked at is joined. */
  ghost predicate JoinedUpTo<O(!new)>(c: seq<seq<Cell>>, output: O, i: nat, j: nat, out: Table<O>)
    requires i < j <= |c|
  {
    forall e :: multiset(out)[e] + (if e.output == output then Pairs(c[i..], e.rule) else 0) ==
      if e.output == output then Pairs(c, e.rule) + Mates(c[i], c[i + 1..j], e.rule) else 0
  }

  lemma NothingFlagged(c: seq<seq<Cell>>)
    ensures Flagged(c, 0, 1, seq(|c|, i => false))
  {
  }

  lemma NothingJoined<O(!new)>(c: seq<seq<Cell>>, output: O)
    requires c != []
    ensures JoinedUpTo(c, output, 0, 1, [])
  {
    assert c[0..] == c && c[1..1] == [];
  }

  lemma FlagPair(c: seq<seq<Cell>>, i: nat, j: nat, added: seq<bool>, d: nat)
    requires Flagged(c, i, j, added) && i < j < |c| && PairAt(c[i], c[j], d)
    ensures |added| == |c| && Flagged(c, i, j + 1, added[i := true][j := true])
  {
    JoinedAt(c[i], c[j], d);
    assert Partners(c[i], c[j]) && Partners(c[j], c[i]);
    assert !Lone(c, c[i]) && !Lone(c, c[j]);
    hide Partners, Joined, Lone, PairAt;
  }

  lemma FlagNone(c: seq<seq<Cell>>, i: nat, j: nat, added: seq<bool>)
    requires Flagged(c, i, j, added) && i < j < |c| && !Partners(c[i], c[j])
    ensures Flagged(c, i, j + 1, added)
  {
    hide Partners, Lone;
  }

  lemma FlagRow(c: seq<seq<Cell>>, i: nat, added: seq<bool>)
    requires Flagged(c, i, |c|, added)
    ensures Flagged(c, i + 1, i + 2, added)
  {
    hide Partners, Lone;
    forall x, y | Looked(i + 1, i + 2, x, y) && y < |c| ensures Looked(i, |c|, x, y) {
    }
  }

  lemma MatesNext(r: seq<Cell>, s: seq<seq<Cell>>, q: seq<Cell>, m: seq<Cell>)
    ensures Mates(r, s + [q], m) == Mates(r, s, m) + if JoinsTo(r, q, m) then 1 else 0
  {
    assert (s + [q])[..|s|] == s;
  }

  lemma JoinPair<O(!new)>(c: seq<seq<Cell>>, output: O, i: nat, j: nat, out: Table<O>, d: nat)
    requires i < j < |c| && JoinedUpTo(c, output, i, j, out) && PairAt(c[i], c[j], d)
    ensures JoinedUpTo(c, output, i, j + 1, out + [Entry(c[i][d := Star], output)])
  {
    hide Pairs, Mates, Partners, Joined, PairAt;
    JoinedPair(c[i], c[j], d);
    var m := c[i][d := Star];
    assert c[i + 1..j + 1] == c[i + 1..j] + [c[j]];
    forall e: Entry<O> ensures Mates(c[i], c[i + 1..j + 1], e.rule) == Mates(c[i], c[i + 1..j], e.rule) + if e.rule == m then 1 else 0 {
      MatesNext(c[i], c[i + 1..j], c[j], e.rule);
    }
  }

  lemma JoinedPair(r: seq<Cell>, q: seq<Cell>, d: nat)
    requires PairAt(r, q, d)
    ensures d < |r| && forall m :: JoinsTo(r, q, m) <==> m == r[d := Star]
  {
    JoinedAt(r, q, d);
    assert Partners(r, q);
  }

  lemma JoinNone<O(!new)>(c: seq<seq<Cell>>, output: O, i: nat, j: nat, out: Table<O>)
    requires i < j < |c| && JoinedUpTo(c, output, i, j, out) && !Partners(c[i], c[j])
    ensures JoinedUpTo(c, output, i, j + 1, out)
  {
    hide Pairs, Mates, Partners, Joined;
    assert c[i + 1..j + 1] == c[i + 1..j] + [c[j]];
    forall e: Entry<O> ensures Mates(c[i], c[i + 1..j + 1], e.rule) == Mates(c[i], c[i + 1..j], e.rule) {
      MatesNext(c[i], c[i + 1..j], c[j], e.rule);
      assert !JoinsTo(c[i], c[j], e.rule);
    }
  }

  lemma JoinRow<O(!new)>(c: seq<seq<Cell>>, output: O, i: nat, out: Table<O>)
    requires i + 1 < |c| && JoinedUpTo(c, output, i, |c|, out)
    ensures JoinedUpTo(c, output, i + 1, i + 2, out)
  {
    hide JoinsTo;
    assert c[i..][1..] == c[i + 1..] == c[i + 1..|c|] && c[i + 2..i + 2] == [];
  }

  /** Merges the rules of one group, each two that differ in one digit; those without a partner stay. */
  method MergeGroup<O(!new)>(c: seq<seq<Cell>>, output: O, ghost b: nat, ghost mask: set<nat>) returns (out: Table<O>)
    requires c != [] && OneMask(c, b, mask)
    ensures forall e :: multiset(out)[e] == if e.output == output then GroupCount(c, e.rule) else 0
  {
    hide PairAt, Partners, Joined, BitMask, Lone, Flagged, JoinedUpTo, GroupCount;
    if |c| == 1 {
      SingleRule(c, output);
      return [Entry(c[0], output)];
    }
    var added := seq(|c|, i => false);
    out := [];
    NothingFlagged(c);
    NothingJoined(c, output);
    for i := 0 to |c| - 1
      invariant Flagged(c, i, i + 1, added) && JoinedUpTo(c, output, i, i + 1, out)
    {
      for j := i + 1 to |c|
        invariant Flagged(c, i, j, added) && JoinedUpTo(c, output, i, j, out)
      {
        assert c[i] in c && c[j] in c;
        var dist := HammingDist(c[i], c[j]);
        DistanceOne(c[i], c[j]);
        if |dist| == 1 {
          var diff :| diff in dist;
          FlagPair(c, i, j, added, diff);
          JoinPair(c, output, i, j, out, diff);
          added := added[i := true][j := true];
          out := out + [Entry(c[i][diff := Star], output)];
        } else {
          FlagNone(c, i, j, added);
          JoinNone(c, output, i, j, out);
        }
      }
      FlagRow(c, i, added);
      JoinRow(c, output, i, out);
    }
    ghost var joined := out;
    FlagWidth(c, |c| - 1, |c|, added);
    for i := 0 to |c|
      invariant out == joined + LoneEntries(c, output, added, i)
    {
      if !added[i] {
        out := out + [Entry(c[i], output)];
      }
    }
    GroupDone(c, output, joined, added);
  }

  lemma FlagWidth(c: seq<seq<Cell>>, i: int, j: int, added: seq<bool>)
    requires Flagged(c, i, j, added)
    ensures |added| == |c|
  {
  }

  ghost function LoneEntries<O>(c: seq<seq<Cell>>, output: O, added: seq<bool>, n: nat): Table<O>
    requires n <= |c| == |added|
  {
    if n == 0 then [] else LoneEntries(c, output, added, n - 1) + if added[n - 1] then [] else [Entry(c[n - 1], output)]
  }

  lemma SingleRule<O(!new)>(c: seq<seq<Cell>>, output: O)
    requires |c| == 1
    ensures forall e :: multiset([Entry(c[0], output)])[e] == if e.output == output then GroupCount(c, e.rule) else 0
  {
    var out := [Entry(c[0], output)];
    assert !Partners(c[0], c[0]) && c == [c[0]];
    assert Lone(c, c[0]);
    forall e: Entry<O> ensures Pairs(c, e.rule) == 0 {
      assert c[1..] == [];
    }
  }

  lemma {:induction false} LoneCount<O(!new)>(c: seq<seq<Cell>>, output: O, added: seq<bool>, n: nat, e: Entry<O>)
    requires n <= |c| == |added| && forall x | 0 <= x < |c| :: added[x] <==> !Lone(c, c[x])
    ensures multiset(LoneEntries(c, output, added, n))[e] == if e.output == output && Lone(c, e.rule) then multiset(c[..n])[e.rule] else 0
  {
    hide *;
    if n == 0 {
      LoneStart(c, output, added);
    } else {
      LoneCount(c, output, added, n - 1, e);
      LoneStep(c, output, added, n);
      assert c[..n] == c[..n - 1] + [c[n - 1]];
      CountSnoc(c[..n - 1], c[n - 1], e.rule);
      if !added[n - 1] {
        CountSnoc(LoneEntries(c, output, added, n - 1), Entry(c[n - 1], output), e);
      }
    }
  }

  lemma LoneStart<O>(c: seq<seq<Cell>>, output: O, added: seq<bool>)
    requires |added| == |c|
    ensures LoneEntries(c, output, added, 0) == [] && c[..0] == []
  {
  }

  lemma LoneStep<O>(c: seq<seq<Cell>>, output: O, added: seq<bool>, n: nat)
    requires 0 < n <= |c| == |added|
    ensures LoneEntries(c, output, added, n) == if added[n - 1] then LoneEntries(c, output, added, n - 1)
      else LoneEntries(c, output, added, n - 1) + [Entry(c[n - 1], output)]
  {
  }

  lemma CountSnoc<T>(s: seq<T>, x: T, y: T)
    ensures multiset(s + [x])[y] == multiset(s)[y] + if x == y then 1 else 0
  {
  }

  lemma GroupDone<O(!new)>(c: seq<seq<Cell>>, output: O, joined: Table<O>, added: seq<bool>)
    requires c != [] && Flagged(c, |c| - 1, |c|, added) && JoinedUpTo(c, output, |c| - 1, |c|, joined)
    ensures forall e :: multiset(joined + LoneEntries(c, output, added, |c|))[e] == if e.output == output then GroupCount(c, e.rule) else 0
  {
    hide Partners, Joined, Lone, LoneEntries, JoinedUpTo;
    forall x: nat | x < |c| ensures added[x] <==> !Lone(c, c[x]) {
      AllLooked(c, added, x);
    }
    assert c[..|c|] == c;
    forall e ensures multiset(joined)[e] == if e.output == output then Pairs(c, e.rule) else 0 {
      AllJoined(c, output, joined, e);
    }
    forall e ensures multiset(LoneEntries(c, output, added, |c|))[e] == if e.output == output && Lone(c, e.rule) then multiset(c)[e.rule] else 0 {
      LoneCount(c, output, added, |c|, e);
    }
  }

  lemma AllJoined<O(!new)>(c: seq<seq<Cell>>, output: O, joined: Table<O>, e: Entry<O>)
    requires c != [] && JoinedUpTo(c, output, |c| - 1, |c|, joined)
    ensures multiset(joined)[e] == if e.output == output then Pairs(c, e.rule) else 0
  {
    hide JoinsTo;
    var n := |c| - 1;
    assert c[n..] == [c[n]] && c[n..][1..] == [] && c[n + 1..|c|] == [];
    assert Pairs(c[n..], e.rule) == 0;
  }

  lemma AllLooked(c: seq<seq<Cell>>, added: seq<bool>, x: nat)
    requires c != [] && Flagged(c, |c| - 1, |c|, added) && x < |c|
    ensures added[x] <==> !Lone(c, c[x])
  {
    hide Joined, PairAt;
    if !Lone(c, c[x]) {
      assert c[x] in c;
      var q :| q in c && Partners(c[x], q);
      var y: nat :| y < |c| && c[y] == q;
      PartnersSym(c[x], c[y]);
      assert Looked(|c| - 1, |c|, if x < y then x else y, if x < y then y else x);
    }
  }

  lemma PartnersSym(r: seq<Cell>, q: seq<Cell>)
    requires Partners(r, q)
    ensures Partners(q, r) && |r| == |q| && Joined(q, r) == Joined(r, q) && r != q
  {
    var d: nat :| PairAt(r, q, d);
    JoinedAt(r, q, d);
  }

  // ---------- How many pairs there are ----------

  /** In a group whose stars are those of `m` but for place `d`, only the halves of `m` join to `m`. */
  lemma OnlyHalves(r: seq<Cell>, q: seq<Cell>, m: seq<Cell>, d: nat)
    requires d < |m| && m[d] == Star && BitMask(r) == BitMask(m) - {d}
    ensures JoinsTo(r, q, m) <==> (r == m[d := Zero] && q == m[d := One]) || (r == m[d := One] && q == m[d := Zero])
  {
    hide BitMask, Joined;
    if JoinsTo(r, q, m) {
      var c: nat :| PairAt(r, q, c);
      JoinedMask(r, q, c);
      JoinedAt(r, q, c);
      StarAt(m, d);
      OnePlace(r, c, m, d);
      BothHalves(r, q, m, d);
    }
    if (r == m[d := Zero] && q == m[d := One]) || (r == m[d := One] && q == m[d := Zero]) {
      assert PairAt(r, q, d);
      JoinedAt(r, q, d);
    }
  }

  lemma StarAt(m: seq<Cell>, d: nat)
    requires d < |m|
    ensures d in BitMask(m) <==> m[d] == Star
  {
  }

  lemma OnePlace(r: seq<Cell>, c: nat, m: seq<Cell>, d: nat)
    requires d in BitMask(m) && BitMask(r) == BitMask(m) - {d} && BitMask(m) == BitMask(r) + {c}
    ensures c == d
  {
    hide BitMask;
    assert d in BitMask(r) + {c};
  }

  lemma BothHalves(r: seq<Cell>, q: seq<Cell>, m: seq<Cell>, d: nat)
    requires PairAt(r, q, d) && m == r[d := Star] == q[d := Star]
    ensures (r == m[d := Zero] && q == m[d := One]) || (r == m[d := One] && q == m[d := Zero])
  {
    assert r == m[d := r[d]] && q == m[d := q[d]];
  }

  lemma {:induction false} MatesCount(r: seq<Cell>, s: seq<seq<Cell>>, m: seq<Cell>, d: nat)
    requires d < |m| && m[d] == Star && BitMask(r) == BitMask(m) - {d}
    ensures Mates(r, s, m) == if r == m[d := Zero] then multiset(s)[m[d := One]] else if r == m[d := One] then multiset(s)[m[d := Zero]] else 0
    decreases |s|
  {
    hide BitMask, JoinsTo;
    assert m[d := Zero][d] != m[d := One][d];
    if s != [] {
      var n := |s| - 1;
      MatesCount(r, s[..n], m, d);
      OnlyHalves(r, s[n], m, d);
      assert s == s[..n] + [s[n]];
    }
  }

  /** Each lower half joins with each upper half. */
  lemma {:induction false} PairsCount(c: seq<seq<Cell>>, m: seq<Cell>, d: nat)
    requires d < |m| && m[d] == Star && forall r <- c :: BitMask(r) == BitMask(m) - {d}
    ensures Pairs(c, m) == multiset(c)[m[d := Zero]] * multiset(c)[m[d := One]]
    decreases |c|
  {
    hide BitMask, Mates;
    assert m[d := Zero][d] != m[d := One][d];
    if c != [] {
      PairsCount(c[1..], m, d);
      assert c[0] in c;
      MatesCount(c[0], c[1..], m, d);
      assert c == [c[0]] + c[1..];
      OneMore(multiset(c[1..])[m[d := Zero]], multiset(c[1..])[m[d := One]]);
    }
  }

  lemma OneMore(x: nat, y: nat)
    ensures (x + 1) * y == x * y + y && x * (y + 1) == x * y + x
  {
  }

  lemma {:induction false} NoMates(r: seq<Cell>, s: seq<seq<Cell>>, m: seq<Cell>)
    requires forall d: nat | d < |m| && m[d] == Star :: BitMask(r) != BitMask(m) - {d}
    ensures Mates(r, s, m) == 0
    decreases |s|
  {
    hide BitMask, JoinsTo;
    if s != [] {
      NoMates(r, s[..|s| - 1], m);
      NotJoined(r, s[|s| - 1], m);
    } else {
    }
  }

  lemma NotJoined(r: seq<Cell>, q: seq<Cell>, m: seq<Cell>)
    requires forall d: nat | d < |m| && m[d] == Star :: BitMask(r) != BitMask(m) - {d}
    ensures !JoinsTo(r, q, m)
  {
    hide BitMask, Joined;
    if JoinsTo(r, q, m) {
      var c: nat :| PairAt(r, q, c);
      JoinedMask(r, q, c);
      JoinedAt(r, q, c);
      StarAt(r, c);
    }
  }

  lemma {:induction false} NoPairs(c: seq<seq<Cell>>, mask: set<nat>, m: seq<Cell>)
    requires (forall r <- c :: BitMask(r) == mask) && forall d: nat | d < |m| && m[d] == Star :: mask != BitMask(m) - {d}
    ensures Pairs(c, m) == 0
    decreases |c|
  {
    hide BitMask, Mates;
    if c != [] {
      NoPairs(c[1..], mask, m);
      assert c[0] in c;
      NoMates(c[0], c[1..], m);
    } else {
    }
  }

  // ---------- All groups, round after round ----------

  lemma {:induction false} InRulesOf<O>(S: Table<O>, k: (set<nat>, O), r: seq<Cell>)
    ensures r in RulesOf(S, k) <==> Entry(r, k.1) in S && BitMask(r) == k.0
    decreases |S|
  {
    hide BitMask;
    if S != [] {
      var n := |S| - 1;
      InRulesOf(S[..n], k, r);
      assert S == S[..n] + [S[n]];
    } else {
    }
  }

  /** Allies are in the same group. */
  lemma AlliesGrouped<O>(e: Entry<O>, f: Entry<O>)
    requires Allied(e, f)
    ensures Keyed(e) == Keyed(f) && |e.rule| == |f.rule|
  {
    var d: nat :| PairAt(e.rule, f.rule, d);
    JoinedMask(e.rule, f.rule, d);
  }

  lemma {:induction false} RulesCount<O>(S: Table<O>, k: (set<nat>, O), r: seq<Cell>)
    ensures multiset(RulesOf(S, k))[r] == if BitMask(r) == k.0 then multiset(S)[Entry(r, k.1)] else 0
    decreases |S|
  {
    hide *;
    if S == [] {
      NoRulesOf(S, k);
    } else {
      var n := |S| - 1;
      RulesCount(S[..n], k, r);
      assert S == S[..n] + [S[n]];
      RulesOfSnoc(S[..n], S[n], k);
      CountSnoc(S[..n], S[n], Entry(r, k.1));
      CountSnoc(RulesOf(S[..n], k), S[n].rule, r);
      KeyedIs(S[n], k);
    }
  }

  lemma KeyedIs<O>(e: Entry<O>, k: (set<nat>, O))
    ensures Keyed(e) == k <==> BitMask(e.rule) == k.0 && e.output == k.1
  {
  }

  function Half<O>(e: Entry<O>, d: nat, c: Cell): Entry<O>
    requires d < |e.rule|
  {
    Entry(e.rule[d := c], e.output)
  }

  /** How many pairs of entries of `S` are the halves of `e` at place `d`. */
  function HalfPairs<O(==)>(S: Table<O>, e: Entry<O>, d: nat): nat
    requires d < |e.rule|
  {
    multiset(S)[Half(e, d, Zero)] * multiset(S)[Half(e, d, One)]
  }

  /** The same for all places before `n` that are stars, as far as the halves are in the groups `D`. */
  function StarPairs<O(==)>(S: Table<O>, D: set<(set<nat>, O)>, e: Entry<O>, n: nat): nat
    requires n <= |e.rule|
  {
    if n == 0 then 0
    else StarPairs(S, D, e, n - 1) + if e.rule[n - 1] == Star && Keyed(Half(e, n - 1, Zero)) in D then HalfPairs(S, e, n - 1) else 0
  }

  /** How often `e` comes out of the groups `D`. */
  ghost function RoundCount<O>(S: Table<O>, D: set<(set<nat>, O)>, e: Entry<O>): nat {
    (if Stays(Elems(S), e) && Keyed(e) in D then multiset(S)[e] else 0) + StarPairs(S, D, e, |e.rule|)
  }

  lemma HalfKey<O>(e: Entry<O>, d: nat)
    requires d < |e.rule| && e.rule[d] == Star
    ensures Keyed(Half(e, d, Zero)) == (BitMask(e.rule) - {d}, e.output) && d in BitMask(e.rule)
    ensures BitMask(e.rule[d := One]) == BitMask(e.rule) - {d} == BitMask(e.rule[d := Zero])
  {
    assert BitMask(e.rule[d := Zero]) == BitMask(e.rule) - {d};
    assert BitMask(e.rule[d := One]) == BitMask(e.rule) - {d};
  }

  /** Another group adds the pairs of the one place at which it has the halves. */
  lemma {:induction false} StarPairsAt<O>(S: Table<O>, D: set<(set<nat>, O)>, k: (set<nat>, O), e: Entry<O>, n: nat, d: nat)
    requires n <= |e.rule| && k !in D && d < |e.rule| && e.rule[d] == Star && k == Keyed(Half(e, d, Zero))
    ensures StarPairs(S, D + {k}, e, n) == StarPairs(S, D, e, n) + if d < n then HalfPairs(S, e, d) else 0
    decreases n
  {
    hide BitMask, HalfPairs, Keyed;
    if n > 0 {
      StarPairsAt(S, D, k, e, n - 1, d);
      HalfKey(e, d);
      if e.rule[n - 1] == Star {
        HalfKey(e, n - 1);
        assert n - 1 != d ==> d in BitMask(e.rule) - {n - 1};
      }
    }
  }

  lemma {:induction false} StarPairsNone<O>(S: Table<O>, D: set<(set<nat>, O)>, k: (set<nat>, O), e: Entry<O>, n: nat)
    requires n <= |e.rule| && forall d: nat | d < |e.rule| && e.rule[d] == Star :: k != Keyed(Half(e, d, Zero))
    ensures StarPairs(S, D + {k}, e, n) == StarPairs(S, D, e, n)
    decreases n
  {
    hide BitMask, HalfPairs, Keyed;
    if n > 0 {
      StarPairsNone(S, D, k, e, n - 1);
    } else {
    }
  }

  lemma GroupAdds<O>(S: Table<O>, C: Groups<O>, b: nat, D: set<(set<nat>, O)>, k: (set<nat>, O), e: Entry<O>)
    requires Width(S, b) && Grouped(S, C) && k in C && k !in D
    ensures RoundCount(S, D + {k}, e) == RoundCount(S, D, e) + if e.output == k.1 then GroupCount(C[k], e.rule) else 0
  {
    hide BitMask, HalfPairs, Keyed, StarPairs, Lone, Pairs, Stays, RulesOf;
    GroupFacts(S, C, b, k);
    KeyedIs(e, k);
    if e.output == k.1 {
      GroupStays(S, C, b, k, e);
    }
    if e.output == k.1 && exists d: nat :: d < |e.rule| && e.rule[d] == Star && k == Keyed(Half(e, d, Zero)) {
      var d: nat :| d < |e.rule| && e.rule[d] == Star && k == Keyed(Half(e, d, Zero));
      StarPairsAt(S, D, k, e, |e.rule|, d);
      HalfKey(e, d);
      PairsCount(C[k], e.rule, d);
      RulesCount(S, k, e.rule[d := Zero]);
      RulesCount(S, k, e.rule[d := One]);
      HalfPairsIs(S, e, d);
    } else {
      forall d: nat | d < |e.rule| && e.rule[d] == Star ensures k != Keyed(Half(e, d, Zero)) && (e.output == k.1 ==> k.0 != BitMask(e.rule) - {d}) {
        HalfKey(e, d);
      }
      StarPairsNone(S, D, k, e, |e.rule|);
      if e.output == k.1 {
        NoPairs(C[k], k.0, e.rule);
      }
    }
  }

  lemma HalfPairsIs<O>(S: Table<O>, e: Entry<O>, d: nat)
    requires d < |e.rule|
    ensures HalfPairs(S, e, d) == multiset(S)[Entry(e.rule[d := Zero], e.output)] * multiset(S)[Entry(e.rule[d := One], e.output)]
  {
  }

  /** A rule stays in its group exactly when it stays in the table. */
  lemma GroupStays<O>(S: Table<O>, C: Groups<O>, b: nat, k: (set<nat>, O), e: Entry<O>)
    requires Width(S, b) && Grouped(S, C) && k in C && e.output == k.1
    ensures (if Lone(C[k], e.rule) then multiset(C[k])[e.rule] else 0) == if Stays(Elems(S), e) && Keyed(e) == k then multiset(S)[e] else 0
  {
    hide BitMask, Partners, RulesOf;
    InRulesOf(S, k, e.rule);
    RulesCount(S, k, e.rule);
    if Keyed(e) == k {
      if Lone(C[k], e.rule) {
        forall f <- S ensures !Allied(e, f) {
          if Allied(e, f) {
            AlliesGrouped(e, f);
            InRulesOf(S, k, f.rule);
          }
        }
      }
      if Stays(Elems(S), e) {
        forall q <- C[k] ensures !Partners(e.rule, q) {
          InRulesOf(S, k, q);
          assert !Allied(e, Entry(q, k.1));
        }
      }
    }
  }

  lemma GroupFacts<O>(S: Table<O>, C: Groups<O>, b: nat, k: (set<nat>, O))
    requires Width(S, b) && Grouped(S, C) && k in C
    ensures C[k] != [] && OneMask(C[k], b, k.0) && C[k] == RulesOf(S, k)
  {
    hide RulesOf, BitMask, Partners;
    var e :| e in S && Keyed(e) == k;
    InRulesOf(S, k, e.rule);
    forall r <- C[k] ensures |r| == b && BitMask(r) == k.0 {
      InRulesOf(S, k, r);
    }
  }

  /** How often `e` comes out of a round: as often as before if it stays, and once for each two entries that are its halves. */
  ghost function NextCount<O>(S: Table<O>, e: Entry<O>): nat {
    (if Stays(Elems(S), e) then multiset(S)[e] else 0) + AllPairs(S, e, |e.rule|)
  }

  function AllPairs<O(==)>(S: Table<O>, e: Entry<O>, n: nat): nat
    requires n <= |e.rule|
  {
    if n == 0 then 0 else AllPairs(S, e, n - 1) + if e.rule[n - 1] == Star then HalfPairs(S, e, n - 1) else 0
  }

  ghost predicate CountsUpTo<O(!new)>(S: Table<O>, D: set<(set<nat>, O)>, out: Table<O>) {
    forall e :: multiset(out)[e] == RoundCount(S, D, e)
  }

  ghost predicate OneRound<O(!new)>(S: Table<O>, out: Table<O>) {
    forall e :: multiset(out)[e] == NextCount(S, e)
  }

  /** The groups, one after the other, make one round. */
  method MergeGroups<O(==, !new)>(S: Table<O>, C: Groups<O>, ghost b: nat) returns (out: Table<O>)
    requires Width(S, b) && Grouped(S, C)
    ensures OneRound(S, out)
  {
    hide Grouped, GroupCount, BitMask, OneMask, CountsUpTo;
    out := [];
    var todo := C.Keys;
    assert C.Keys - todo == {};
    CountsStart(S);
    while todo != {}
      invariant todo <= C.Keys && CountsUpTo(S, C.Keys - todo, out)
    {
      var k :| k in todo;
      GroupFacts(S, C, b, k);
      var o := MergeGroup(C[k], k.1, b, k.0);
      CountsNext(S, C, b, C.Keys - todo, k, out, o);
      assert C.Keys - (todo - {k}) == C.Keys - todo + {k};
      todo := todo - {k};
      out := out + o;
    }
    assert C.Keys - todo == C.Keys;
    CountsAll(S, C, out);
  }

  lemma CountsStart<O(!new)>(S: Table<O>)
    ensures CountsUpTo(S, {}, [])
  {
    forall e ensures RoundCount(S, {}, e) == 0 {
      NothingPaired(S, e, |e.rule|);
    }
  }

  lemma {:induction false} NothingPaired<O>(S: Table<O>, e: Entry<O>, n: nat)
    requires n <= |e.rule|
    ensures StarPairs(S, {}, e, n) == 0
  {
    if n > 0 {
      NothingPaired(S, e, n - 1);
    } else {
    }
  }

  lemma CountsNext<O(!new)>(S: Table<O>, C: Groups<O>, b: nat, D: set<(set<nat>, O)>, k: (set<nat>, O), out: Table<O>, o: Table<O>)
    requires Width(S, b) && Grouped(S, C) && k in C && k !in D && CountsUpTo(S, D, out)
    requires forall e :: multiset(o)[e] == if e.output == k.1 then GroupCount(C[k], e.rule) else 0
    ensures CountsUpTo(S, D + {k}, out + o)
  {
    hide Grouped, GroupCount, RoundCount, Width;
    forall e ensures multiset(out + o)[e] == RoundCount(S, D + {k}, e) {
      GroupAdds(S, C, b, D, k, e);
    }
  }

  lemma CountsAll<O(!new)>(S: Table<O>, C: Groups<O>, out: Table<O>)
    requires Grouped(S, C) && CountsUpTo(S, C.Keys, out)
    ensures OneRound(S, out)
  {
    hide Keyed, AllPairs, StarPairs, RulesOf;
    forall e ensures multiset(out)[e] == NextCount(S, e) {
      AllStarPairs(S, C, e, |e.rule|);
    }
  }

  lemma {:induction false} AllStarPairs<O>(S: Table<O>, C: Groups<O>, e: Entry<O>, n: nat)
    requires Grouped(S, C) && n <= |e.rule|
    ensures StarPairs(S, C.Keys, e, n) == AllPairs(S, e, n)
    decreases n
  {
    hide Keyed, RulesOf;
    if n > 0 {
      AllStarPairs(S, C, e, n - 1);
      if Keyed(Half(e, n - 1, Zero)) !in C.Keys {
        assert Half(e, n - 1, Zero) !in S;
        assert HalfPairs(S, e, n - 1) == 0;
      }
    } else {
    }
  }

  // ---------- What a round is ----------

  lemma {:induction false} SomeHalves<O>(S: Table<O>, e: Entry<O>, n: nat)
    requires n <= |e.rule|
    ensures AllPairs(S, e, n) > 0 <==> exists d: nat :: d < n && e.rule[d] == Star && HalfPairs(S, e, d) > 0
    decreases n
  {
    hide HalfPairs;
    if n > 0 {
      SomeHalves(S, e, n - 1);
      if e.rule[n - 1] == Star && HalfPairs(S, e, n - 1) > 0 {
        assert AllPairs(S, e, n) > 0;
      }
    } else {
    }
  }

  lemma HalvesIn<O>(S: Table<O>, e: Entry<O>, d: nat)
    requires d < |e.rule| && e.rule[d] == Star
    ensures HalfPairs(S, e, d) > 0 <==> Half(e, d, Zero) in S && Half(e, d, One) in S
    ensures Allied(Half(e, d, Zero), Half(e, d, One)) && |Half(e, d, Zero).rule| == |Half(e, d, One).rule|
    ensures Union(Half(e, d, Zero), Half(e, d, One)) == e
  {
    Halves(e.rule, d);
    assert Partners(e.rule[d := Zero], e.rule[d := One]);
    PositiveProduct(multiset(S)[Half(e, d, Zero)], multiset(S)[Half(e, d, One)]);
  }

  lemma PositiveProduct(x: nat, y: nat)
    ensures x * y > 0 <==> x > 0 && y > 0
  {
  }

  /** The entries of a round: those that stay, and the unions of the allied ones. */
  lemma RoundElems<O(!new)>(S: Table<O>, out: Table<O>)
    requires OneRound(S, out)
    ensures Elems(out) == Round(Elems(S))
  {
    hide AllPairs, HalfPairs, Partners, Joined, Round, Stays;
    forall e ensures e in out <==> e in Round(Elems(S)) {
      assert e in out <==> multiset(out)[e] > 0;
      SomeHalves(S, e, |e.rule|);
      if e in Round(Elems(S)) {
        var x, y := FromRound(Elems(S), e);
        if Stays(Elems(S), e) {
          StaysIn(Elems(S), e);
        } else {
          UnionHalves(S, x, y);
        }
      }
      if e in out && !Stays(Elems(S), e) {
        var d: nat :| d < |e.rule| && e.rule[d] == Star && HalfPairs(S, e, d) > 0;
        HalvesIn(S, e, d);
        UnionInRound(Elems(S), Half(e, d, Zero), Half(e, d, One));
      }
      if Stays(Elems(S), e) {
        StaysIn(Elems(S), e);
        IntoRound(Elems(S), e);
      }
    }
  }

  lemma UnionHalves<O>(S: Table<O>, x: Entry<O>, y: Entry<O>)
    requires x in S && y in S && Allied(x, y)
    ensures |x.rule| == |y.rule| && exists d: nat :: d < |x.rule| && Union(x, y).rule[d] == Star && HalfPairs(S, Union(x, y), d) > 0
  {
    hide HalfPairs, BitMask;
    var d: nat :| PairAt(x.rule, y.rule, d);
    JoinedAt(x.rule, y.rule, d);
    var m := x.rule[d := Star];
    BothHalves(x.rule, y.rule, m, d);
    HalvesIn(S, Union(x, y), d);
  }

  /** Without allies, a round changes nothing. */
  lemma NothingToMerge<O(!new)>(S: Table<O>, out: Table<O>)
    requires OneRound(S, out) && NoAllies(Elems(S))
    ensures multiset(out) == multiset(S)
  {
    hide AllPairs, HalfPairs, Partners, Joined;
    forall e ensures multiset(out)[e] == multiset(S)[e] {
      SomeHalves(S, e, |e.rule|);
      if d: nat :| d < |e.rule| && e.rule[d] == Star && HalfPairs(S, e, d) > 0 {
        HalvesIn(S, e, d);
      }
      assert e in S ==> Stays(Elems(S), e);
    }
  }

  // ---------- How often each cube comes out ----------

  /** How often a cube with `j` stars merged in comes out: at each of them from all pairs of its halves. */
  function Copies(j: nat): nat {
    if j == 0 then 1 else j * (Copies(j - 1) * Copies(j - 1))
  }

  ghost predicate Counted<O(!new)>(table: Table<O>) {
    forall e <- table :: multiset(table)[e] == Copies(|Inner(e.rule)|)
  }

  lemma StartCounted<O(!new)>(T: Table<Option<O>>, b: nat)
    requires Lean(T, b)
    ensures Counted(T)
  {
    hide MatchesKey, IsPrefixRule, NoSiblings, Inner, Tight;
    forall e <- T ensures multiset(T)[e] == Copies(|Inner(e.rule)|) {
      PrefixInner(e.rule);
      var i: nat :| i < |T| && T[i] == e;
      OnlyOnce(T, i);
    }
  }

  lemma OnlyOnce<O>(T: Table<O>, i: nat)
    requires Tight(T) && i < |T|
    ensures multiset(T)[T[i]] == 1
  {
    hide Tight, Within;
    WithinItself(T[i].rule);
    assert T == T[..i] + [T[i]] + T[i + 1..];
    forall j: nat | j < |T| && j != i ensures T[j] != T[i] {
      if T[j] == T[i] {
        OneOfTwo(T, i, j);
      }
    }
    assert T[i] !in T[..i] && T[i] !in T[i + 1..];
  }

  /** All pairs come from the stars merged in, from each as many. */
  lemma {:induction false} SamePairs<O>(S: Table<O>, e: Entry<O>, n: nat, v: nat)
    requires n <= |e.rule|
    requires forall d: nat | d < |e.rule| && e.rule[d] == Star :: HalfPairs(S, e, d) == if d in Inner(e.rule) then v else 0
    ensures AllPairs(S, e, n) == |InnerUpTo(e.rule, n)| * v
    decreases n
  {
    hide HalfPairs, Inner;
    if n > 0 {
      SamePairs(S, e, n - 1, v);
      InnerNext(e.rule, n - 1);
      OneMore(|InnerUpTo(e.rule, n - 1)|, v);
    } else {
      assert InnerUpTo(e.rule, 0) == {};
    }
  }

  ghost function InnerUpTo(r: seq<Cell>, n: nat): set<nat> {
    set i <- Inner(r) | i < n
  }

  lemma InnerNext(r: seq<Cell>, n: nat)
    requires n < |r|
    ensures |InnerUpTo(r, n + 1)| == |InnerUpTo(r, n)| + if n in Inner(r) then 1 else 0
    ensures n in Inner(r) ==> r[n] == Star
  {
    assert InnerUpTo(r, n + 1) == if n in Inner(r) then InnerUpTo(r, n) + {n} else InnerUpTo(r, n);
  }

  lemma InnerAll(r: seq<Cell>)
    ensures InnerUpTo(r, |r|) == Inner(r)
  {
  }

  /** The halves of an entry of the next round are both there exactly at the stars merged in. */
  lemma HalvesCount<O(!new)>(T: Table<Option<O>>, b: nat, n: nat, S: Table<Option<O>>, e: Entry<Option<O>>, d: nat)
    requires Lean(T, b) && Stage(T, Elems(S), b) && AtRound(T, b, n, Elems(S)) && Counted(S)
    requires d < |e.rule| && e.rule[d] == Star && Cube(T, b, e.output, Ends(e.rule), e.rule) && |Inner(e.rule)| == n + 1
    ensures HalfPairs(S, e, d) == if d in Inner(e.rule) then Copies(n) * Copies(n) else 0
  {
    hide Lean, Stage, Inner, Cube, Ends, Partners, PairAt, Joined, Copies, Within;
    HalvesIn(S, e, d);
    InnerAt(e.rule, d);
    if d < Ends(e.rule) {
      Halves(e.rule, d);
      CubeWithin(T, b, e.output, Ends(e.rule), e.rule[d := Zero], e.rule);
      CubeWithin(T, b, e.output, Ends(e.rule), e.rule[d := One], e.rule);
      assert IsAt(T, b, n, Half(e, d, Zero)) && IsAt(T, b, n, Half(e, d, One));
      assert Half(e, d, Zero) in S && Half(e, d, One) in S;
    } else if HalfPairs(S, e, d) > 0 {
      AlliedAt(T, b, n, Elems(S), Half(e, d, Zero), Half(e, d, One));
      EndsIs(e.rule[d := Zero], d + 1);
    }
  }

  lemma InnerAt(r: seq<Cell>, d: nat)
    requires d < |r| && r[d] == Star
    ensures d in Inner(r) <==> d < Ends(r)
    ensures forall i | Ends(r) <= i < |r| :: r[i] == Star
  {
  }

  /** The union of two entries of a round was not there before. */
  lemma UnionIsNew<O(!new)>(T: Table<Option<O>>, b: nat, n: nat, S: Table<Option<O>>, e: Entry<Option<O>>, d: nat)
    requires Lean(T, b) && Stage(T, Elems(S), b) && AtRound(T, b, n, Elems(S))
    requires d < |e.rule| && e.rule[d] == Star && HalfPairs(S, e, d) > 0
    ensures e !in S
  {
    hide Lean, Stage, Inner, Cube, Ends, Partners, PairAt, Joined, Within, HalfPairs, AllPairs;
    HalvesIn(S, e, d);
    AlliedAt(T, b, n, Elems(S), Half(e, d, Zero), Half(e, d, One));
    assert !IsAt(T, b, n, e);
    assert e !in Elems(S);
  }

  /** What stays is not the union of anything. */
  lemma StaysCount<O(!new)>(T: Table<Option<O>>, b: nat, n: nat, S: Table<Option<O>>, e: Entry<Option<O>>)
    requires Lean(T, b) && Stage(T, Elems(S), b) && AtRound(T, b, n, Elems(S)) && Stays(Elems(S), e)
    ensures AllPairs(S, e, |e.rule|) == 0
  {
    hide Lean, Stage, IsAt, Allied, AtRound, HalfPairs, AllPairs;
    SomeHalves(S, e, |e.rule|);
    if d: nat :| d < |e.rule| && e.rule[d] == Star && HalfPairs(S, e, d) > 0 {
      UnionIsNew(T, b, n, S, e, d);
    }
  }

  lemma CountRound<O(!new)>(T: Table<Option<O>>, b: nat, n: nat, S: Table<Option<O>>, out: Table<Option<O>>)
    requires Lean(T, b) && Stage(T, Elems(S), b) && AtRound(T, b, n, Elems(S)) && Counted(S) && OneRound(S, out)
    ensures Counted(out)
  {
    hide Lean, Stage, Inner, Cube, Ends, Partners, Joined, Within, HalfPairs, AllPairs, Round, Copies, AtRound;
    RoundElems(S, out);
    forall e <- out ensures multiset(out)[e] == Copies(|Inner(e.rule)|) {
      var x, y := FromRound(Elems(S), e);
      if Stays(Elems(S), e) {
        StaysCount(T, b, n, S, e);
      } else {
        UnionCount(T, b, n, S, x, y);
      }
    }
  }

  lemma UnionCount<O(!new)>(T: Table<Option<O>>, b: nat, n: nat, S: Table<Option<O>>, x: Entry<Option<O>>, y: Entry<Option<O>>)
    requires Lean(T, b) && Stage(T, Elems(S), b) && AtRound(T, b, n, Elems(S)) && Counted(S) && x in S && y in S && Allied(x, y)
    ensures |x.rule| == |y.rule| && AllPairs(S, Union(x, y), |x.rule|) == Copies(|Inner(Union(x, y).rule)|)
  {
    hide Lean, Stage, Inner, Cube, Ends, Partners, Joined, Within, HalfPairs, AtRound, Copies;
    AlliedAt(T, b, n, Elems(S), x, y);
    var e := Union(x, y);
    forall d: nat | d < |e.rule| && e.rule[d] == Star ensures HalfPairs(S, e, d) == if d in Inner(e.rule) then Copies(n) * Copies(n) else 0 {
      HalvesCount(T, b, n, S, e, d);
    }
    SamePairs(S, e, |e.rule|, Copies(n) * Copies(n));
    InnerAll(e.rule);
    CopiesNext(n);
  }

  lemma CopiesNext(n: nat)
    ensures Copies(n + 1) == (n + 1) * (Copies(n) * Copies(n))
  {
  }

  // ---------- Round after round ----------

  /** The merged table: sorted, and each maximal cube as often as it comes out. */
  ghost predicate Merged<O(!new)>(T: Table<O>, b: nat, out: Table<O>) {
    Sorted(out) && forall e :: multiset(out)[e] == if MaxCube(T, b, e) then Copies(|Inner(e.rule)|) else 0
  }

  /** A table that is not what its round makes of it has allied rules, and allied rules have a star for each round. */
  lemma SomethingMerged<O(!new)>(T: Table<Option<O>>, S: Table<Option<O>>, out: Table<Option<O>>, b: nat, m: nat)
    requires Lean(T, b) && Stage(T, Elems(S), b) && AtRound(T, b, m, Elems(S)) && Sorted(S) && Sorted(out) && S != out
    requires NoAllies(Elems(S)) ==> multiset(out) == multiset(S)
    ensures m < b
  {
    hide Lean, Sorted, BitMask, Allied, AtRound, Stage, Inner, Ends;
    if NoAllies(Elems(S)) {
      forall e, f | e in S && f in S && e.rule == f.rule ensures e == f {
        NoClash(T, b, Elems(S), e, f);
      }
      SortedOnce(S, out);
    } else {
      var e, f :| e in Elems(S) && f in Elems(S) && Allied(e, f);
      AlliedAt(T, b, m, Elems(S), e, f);
      InnerSize(e.rule);
      CubeWidth(T, b, e.output, Ends(e.rule), Joined(e.rule, f.rule));
    }
  }

  lemma CubeWidth<O>(T: Table<O>, b: nat, o: O, last: nat, q: seq<Cell>)
    requires Cube(T, b, o, last, q)
    ensures |q| == b
  {
  }

  /** After as many rounds as there are bits. */
  lemma MergedAll<O(!new)>(T: Table<Option<O>>, out: Table<Option<O>>, b: nat)
    requires Lean(T, b) && Sorted(out) && Counted(out) && AtRound(T, b, b, Elems(out))
    ensures Merged(T, b, out)
  {
    hide Lean, Sorted, Inner, Ends, Maximal, Copies, Rounds, Stage;
    LeanWidth(T, b);
    StartStage(T, b);
    StartAt(T, b);
    RoundsAt(T, b, 0, Elems(T), b);
    forall e ensures multiset(out)[e] == if MaxCube(T, b, e) then Copies(|Inner(e.rule)|) else 0 {
      MergedAreMaxCubes(T, b, e);
      assert e in Elems(out) <==> IsAt(T, b, b, e);
    }
  }

  /**
   Merges allied rules, round after round, until a round changes nothing. `T` is the table that the first call was given,
   and the call is number `m`; every round, allied rules have one more star, so that there are at most as many rounds as bits.
   */
  method BitMerge<O(==, !new)>(ghost T: Table<Option<O>>, table: Table<Option<O>>, ghost b: nat, ghost m: nat) returns (out: Table<Option<O>>)
    requires Lean(T, b) && Stage(T, Elems(table), b) && AtRound(T, b, m, Elems(table)) && Counted(table) && m <= b
    ensures Merged(T, b, out) && Stage(T, Elems(out), b)
    ensures Elems(out) == Rounds(Elems(table), b - m) && Round(Elems(out)) == Elems(out)
    decreases b - m
  {
    hide Lean, Stage, AtRound, Counted, Sorted, Round, NoAllies, Grouped, OneRound, Merged;
    var S := SortRules(table);
    SameElems(S, table);
    assert Elems(S) == Elems(table);
    SameCounted(S, table);
    var C := Group(S);
    ElemsWidth(T, S, b);
    var merged := MergeGroups(S, C, b);
    RoundElems(S, merged);
    CountRound(T, b, m, S, merged);
    out := SortRules(merged);
    SameElems(out, merged);
    assert Elems(out) == Elems(merged);
    SameCounted(out, merged);
    if S == out {
      StableRounds(Elems(S), b - m);
      RoundsAt(T, b, m, Elems(S), b - m);
      MergedAll(T, out, b);
      return;
    }
    if NoAllies(Elems(S)) {
      NothingToMerge(S, merged);
    }
    SomethingMerged(T, S, out, b, m);
    StepAt(T, b, m, Elems(S));
    RoundStage(T, b, Elems(S));
    out := BitMerge(T, out, b, m + 1);
  }

  lemma SameCounted<O(!new)>(a: Table<O>, c: Table<O>)
    requires multiset(a) == multiset(c) && Counted(c)
    ensures Counted(a)
  {
    hide Inner, Copies;
    assert forall e <- a :: e in multiset(c);
  }

  lemma OneOfTwo<O>(T: Table<O>, j: nat, k: nat)
    requires Tight(T) && j < |T| && k < |T| && Within(T[k].rule, T[j].rule) && Within(T[j].rule, T[k].rule)
    ensures j == k
  {
    hide Within;
    if j < k {
      OnceEach(T, j, k);
    } else if k < j {
      OnceEach(T, k, j);
    }
  }
}
