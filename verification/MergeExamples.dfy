/** What merging can do: a table whose classes it changes, and tables that it makes larger. */
module MergeExamples {
  import opened Wrappers
  import opened FiniteSets
  import opened Ternary
  import opened Classes
  import opened MergeRounds
  import opened Sorting
  import opened RuleOrder
  import opened MaxCubes
  import M = BitMerge
  import H = MergeHides
  import opened W = BitWeave

  // ---------- A table that merging spoils ----------

  /** The keys 000 and 100 have one output, the other keys that start with 0 another one. */
  function SpoiltTable(): Table<Option<int>> {
    [Entry([Zero, Zero, Zero], Some(1)), Entry([One, Zero, Zero], Some(1)), Entry([Zero, Star, Star], Some(2))]
  }

  /** The key with the given bits. */
  function KeyOf3(x: bool, y: bool, z: bool): (h: seq<bool>)
    ensures |h| == 3 && h[0] == x && h[1] == y && h[2] == z
  {
    [x, y, z]
  }

  /** What a rule of three cells matches. */
  lemma MatchesThree(r: seq<Cell>, h: seq<bool>)
    requires |r| == |h| == 3
    ensures MatchesKey(r, h) <==> MatchesCell(r[0], h[0]) && MatchesCell(r[1], h[1]) && MatchesCell(r[2], h[2])
  {
  }

  lemma SpoiltRound()
    ensures Round(Elems(SpoiltTable())) == {Entry([Star, Zero, Zero], Some(1)), Entry([Zero, Star, Star], Some(2))}
  {
    hide PairAt, Joined;
    var T := SpoiltTable();
    var s := Elems(T);
    assert s == {T[0], T[1], T[2]};
    SpoiltAllies();
    assert !Stays(s, T[0]) && !Stays(s, T[1]) && Stays(s, T[2]);
    assert forall e, f | e in s && f in s && Allied(e, f) :: Union(e, f) == Union(T[0], T[1]);
  }

  lemma SpoiltAllies()
    ensures var T := SpoiltTable();
      && Allied(T[0], T[1]) && Allied(T[1], T[0])
      && Union(T[0], T[1]) == Union(T[1], T[0]) == Entry([Star, Zero, Zero], Some(1))
      && !Allied(T[0], T[0]) && !Allied(T[1], T[1]) && !Allied(T[2], T[2])
  {
    var T := SpoiltTable();
    assert PairAt(T[0].rule, T[1].rule, 0) && PairAt(T[1].rule, T[0].rule, 0);
    JoinedAt(T[0].rule, T[1].rule, 0);
  }

  /** Merging makes one rule of the two, which is sorted behind the rule of the others: 000 changes its output. */
  lemma MergingSpoils(T: Table<Option<int>>, out: Table<Option<int>>, n: nat)
    requires Elems(T) == Elems(SpoiltTable()) && n > 0 && Sorted(out) && Elems(out) == Rounds(Elems(T), n)
    ensures Classify(out, KeyOf3(false, false, false)) == Some(2)
  {
    hide Rounds, Round, Sorted, PrefixLen, LexLe, MatchesKey, KeyOf3, SpoiltTable;
    SpoiltRounds(n);
    SpoiltOrder(out);
    MatchesThree(out[0].rule, KeyOf3(false, false, false));
  }

  lemma SpoiltRounds(n: nat)
    requires n > 0
    ensures Rounds(Elems(SpoiltTable()), n) == {Entry([Star, Zero, Zero], Some(1)), Entry([Zero, Star, Star], Some(2))}
  {
    hide Round, Allied;
    var s := {Entry([Star, Zero, Zero], Some(1)), Entry([Zero, Star, Star], Some(2))};
    SpoiltRound();
    NoSpoiltAllies();
    NoAlliesStable(s);
    StableRounds(s, n - 1);
  }

  lemma NoSpoiltAllies()
    ensures NoAllies({Entry([Star, Zero, Zero], Some(1)), Entry([Zero, Star, Star], Some(2))})
  {
  }

  lemma SpoiltOrder(out: Table<Option<int>>)
    requires Sorted(out) && Elems(out) == {Entry([Star, Zero, Zero], Some(1)), Entry([Zero, Star, Star], Some(2))}
    ensures out != [] && out[0] == Entry([Zero, Star, Star], Some(2))
  {
    hide Sorted, LexLe;
    var merged, wide := [Star, Zero, Zero], [Zero, Star, Star];
    assert Entry(wide, Some(2)) in Elems(out);
    FirstOrdered(out, Entry(wide, Some(2)));
    LenBefore(merged, 0);
    LenAtLeast(wide, 1);
    assert out[0] in Elems(out);
  }

  // ---------- A table that comes back changed ----------

  lemma SpoiltClasses(h: seq<bool>)
    requires |h| == 3
    ensures Classify(SpoiltTable(), h) == if !h[1] && !h[2] then Some(1) else if h[0] then None else Some(2)
  {
    hide Classify, MatchesKey;
    var T := SpoiltTable();
    var last: Table<Option<int>> := [];
    assert T == [T[0]] + ([T[1]] + ([T[2]] + last));
    OneMore(T[0], [T[1]] + ([T[2]] + last), h);
    OneMore(T[1], [T[2]] + last, h);
    OneMore(T[2], last, h);
    MatchesThree(T[0].rule, h);
    MatchesThree(T[1].rule, h);
    MatchesThree(T[2].rule, h);
    NoneMatches(last, h);
  }

  /** Rule `i` is the first for the key, and has the key's output. */
  ghost predicate FirstFor(min: Table<Option<int>>, x: bool, y: bool, z: bool, i: nat) {
    i < |min| && Decides(min, i, KeyOf3(x, y, z)) && min[i].output == (if !y && !z then Some(1) else Some(2))
  }

  lemma RuleFor(min: Table<Option<int>>, x: bool, y: bool, z: bool) returns (i: nat)
    requires SameClasses(min, SpoiltTable(), 3) && (!x || (!y && !z))
    ensures FirstFor(min, x, y, z, i)
  {
    hide Classify, MatchesKey, SpoiltTable, KeyOf3;
    var h := KeyOf3(x, y, z);
    SpoiltClasses(h);
    i := FirstMatch(min, h);
  }

  lemma NoRuleFor(min: Table<Option<int>>, y: bool, z: bool, e: Entry<Option<int>>)
    requires Plain(min, 3) && SameClasses(min, SpoiltTable(), 3) && (y || z) && e in min
    ensures !MatchesKey(e.rule, KeyOf3(true, y, z))
  {
    hide Classify, MatchesKey, SpoiltTable, KeyOf3;
    var h := KeyOf3(true, y, z);
    SpoiltClasses(h);
    NoneForNone(min, h, e);
  }

  lemma {:induction false} NoneForNone<O>(min: Table<Option<O>>, h: seq<bool>, e: Entry<Option<O>>)
    requires (forall f <- min :: f.output.Some?) && Classify(min, h).None? && e in min
    ensures !MatchesKey(e.rule, h)
  {
    hide MatchesKey;
    assert min[0] in min;
    if e != min[0] {
      NoneForNone(min[1..], h, e);
    }
  }

  /** A prefix rule of three cells that matches no key 1xx but 100. */
  ghost predicate SpoiltRule(r: seq<Cell>) {
    |r| == 3 && ((r[0] == One && r[1] == Zero && r[2] == Zero) || r[0] == Zero) && (r[1] == Star ==> r[2] == Star)
  }

  ghost predicate Hits(r: seq<Cell>, x: bool, y: bool, z: bool) {
    |r| == 3 && MatchesCell(r[0], x) && MatchesCell(r[1], y) && MatchesCell(r[2], z)
  }

  lemma IsSpoiltRule(min: Table<Option<int>>, e: Entry<Option<int>>)
    requires Plain(min, 3) && AllPrefixes(min) && SameClasses(min, SpoiltTable(), 3) && e in min
    ensures SpoiltRule(e.rule)
  {
    hide SameClasses, MatchesKey, Classify, SpoiltTable, KeyOf3;
    NoRuleFor(min, true, true, e);
    NoRuleFor(min, true, false, e);
    NoRuleFor(min, false, true, e);
    MatchesThree(e.rule, KeyOf3(true, true, true));
    MatchesThree(e.rule, KeyOf3(true, true, false));
    MatchesThree(e.rule, KeyOf3(true, false, true));
    assert IsPrefixRule(e.rule);
  }

  /** The first rule of a key, cell by cell. */
  lemma FirstCells(min: Table<Option<int>>, x: bool, y: bool, z: bool, i: nat)
    requires Plain(min, 3) && AllPrefixes(min) && SameClasses(min, SpoiltTable(), 3) && FirstFor(min, x, y, z, i)
    ensures i < |min| && SpoiltRule(min[i].rule) && Hits(min[i].rule, x, y, z) && min[i].output == (if !y && !z then Some(1) else Some(2))
    ensures forall j | 0 <= j < i :: SpoiltRule(min[j].rule) && !Hits(min[j].rule, x, y, z)
  {
    hide SameClasses, MatchesKey, SpoiltTable, KeyOf3, MatchesCell, SpoiltRule;
    assert min[i] in min;
    IsSpoiltRule(min, min[i]);
    MatchesThree(min[i].rule, KeyOf3(x, y, z));
    forall j | 0 <= j < i ensures SpoiltRule(min[j].rule) && !Hits(min[j].rule, x, y, z) {
      assert min[j] in min;
      IsSpoiltRule(min, min[j]);
      MatchesThree(min[j].rule, KeyOf3(x, y, z));
    }
  }

  /** A table of three prefix rules that does the same has these very rules. */
  lemma OnlyMinimum(min: Table<Option<int>>)
    requires Plain(min, 3) && AllPrefixes(min) && SameClasses(min, SpoiltTable(), 3) && |min| <= 3
    ensures Elems(min) == Elems(SpoiltTable())
  {
    hide SameClasses, Plain, AllPrefixes, FirstFor, SpoiltTable, Hits, SpoiltRule;
    var a := RuleFor(min, true, false, false);
    var c := RuleFor(min, false, false, false);
    var x := RuleFor(min, false, false, true);
    var y := RuleFor(min, false, true, false);
    FirstCells(min, true, false, false, a);
    FirstCells(min, false, false, false, c);
    FirstCells(min, false, false, true, x);
    FirstCells(min, false, true, false, y);
    ThreeEntries(min, a, c, x, y);
  }

  lemma ThreeEntries(min: Table<Option<int>>, a: nat, c: nat, x: nat, y: nat)
    requires |min| <= 3 && a < |min| && c < |min| && x < |min| && y < |min|
    requires forall i <- {a, c, x, y} :: SpoiltRule(min[i].rule)
    requires Hits(min[a].rule, true, false, false) && min[a].output == Some(1)
    requires Hits(min[c].rule, false, false, false) && min[c].output == Some(1)
    requires Hits(min[x].rule, false, false, true) && min[x].output == Some(2)
    requires Hits(min[y].rule, false, true, false) && min[y].output == Some(2)
    requires forall j | 0 <= j < c :: !Hits(min[j].rule, false, false, false)
    requires forall j | 0 <= j < x :: !Hits(min[j].rule, false, false, true)
    ensures Elems(min) == Elems(SpoiltTable())
  {
    assert a != c && a != x && c != x && x == y;
    assert min[x].rule == [Zero, Star, Star];
    assert c < x && min[c].rule == [Zero, Zero, Zero] && min[a].rule == [One, Zero, Zero];
    SpoiltElems();
    assert Elems(min) == {min[a], min[c], min[x]};
  }

  lemma SpoiltElems()
    ensures Elems(SpoiltTable()) == {Entry([Zero, Zero, Zero], Some(1)), Entry([One, Zero, Zero], Some(1)), Entry([Zero, Star, Star], Some(2))}
  {
    var T := SpoiltTable();
    assert Elems(T) == {T[0], T[1], T[2]};
  }

  /** The only digit of the last rule has to come first; the other columns are alike. */
  lemma SpoiltColumns(order: seq<(nat, nat)>)
    requires PrefixesUnder(SpoiltTable(), order, 3)
    ensures |order| == 3 && Order(order, 3) && SwapTable(SpoiltTable(), order) == SpoiltTable()
  {
    hide IsPrefixRule, SwappedRule, Order;
    var T := SpoiltTable();
    OrderLength(order);
    var M := SwapTable(T, order);
    assert T[2] in T && M[2] in M;
    FirstColumn(order, M[2].rule);
    forall i | 0 <= i < 3 ensures M[i] == T[i] {
      assert T[i].rule[1] == T[i].rule[2];
      AlikeUnder(order, T[i].rule, M[i].rule);
    }
  }

  lemma OrderLength(order: seq<(nat, nat)>)
    requires Order(order, 3)
    ensures |order| == 3
  {
  }

  lemma FirstColumn(order: seq<(nat, nat)>, m: seq<Cell>)
    requires Order(order, 3) && SwappedRule([Zero, Star, Star], m, order, 3) && IsPrefixRule(m)
    ensures order[0].0 == 0
  {
    var k := ColumnAt(order, 3, 0);
    assert m[k] == Zero;
    assert m[0] == [Zero, Star, Star][order[0].0];
  }

  lemma AlikeUnder(order: seq<(nat, nat)>, r: seq<Cell>, m: seq<Cell>)
    requires Order(order, 3) && SwappedRule(r, m, order, 3) && order[0].0 == 0 && r[1] == r[2]
    ensures m == r
  {
    assert order[1].0 in {1, 2} && order[2].0 in {1, 2};
    assert m[0] == r[0] && m[1] == r[1] && m[2] == r[2];
  }

  lemma SpoiltCrossFree()
    ensures CrossFree(SpoiltTable())
  {
    var T := SpoiltTable();
    assert !Wilder(T[0].rule, T[1].rule) && !Wilder(T[1].rule, T[0].rule) && !Wilder(T[0].rule, T[2].rule) && !Wilder(T[1].rule, T[2].rule);
    hide Wilder;
  }

  lemma SpoiltInput()
    ensures WithoutNone(SpoiltTable()) == SpoiltTable() && !HasAllStars(SpoiltTable(), 3) && |SpoiltTable()| == 3
    ensures DropRuleLast(SpoiltTable(), 3)
  {
    var T := SpoiltTable();
    assert Stars([Zero]) == 0 && Stars([Star]) == 1;
    assert Stars(T[0].rule) < 3 && Stars(T[1].rule) < 3 && Stars(T[2].rule) < 3;
  }

  lemma SpoiltPart(out: Table<Option<int>>, w: Work<int>)
    requires WovenPart(SpoiltTable(), out, w, 3)
    ensures Plain(out, 3) && Classify(out, KeyOf3(false, false, false)) == Some(2)
  {
    hide Rounds, Sorted, Classify, SameClasses, FewestUnder, KeysKept, IsPrefixRule, Tight, NoSiblings, MatchesKey, Order,
      SwappedRule, KeyOf3, M.Merged, Stage, H.Hidden;
    SpoiltInput();
    SpoiltColumns(w.order);
    OnlyMinimum(w.min);
    MergedSorted(w.min, w.merged);
    H.MergedStage(w.min, w.merged, 3);
    MergingSpoils(w.min, w.merged, 3);
    var h := KeyOf3(false, false, false);
    SwapClassifies(out, w.merged, h, w.order);
    AllFalseKey(w.order);
  }

  lemma MergedSorted(min: Table<Option<int>>, merged: Table<Option<int>>)
    requires M.Merged(min, 3, merged)
    ensures Sorted(merged)
  {
  }

  lemma AllFalseKey(order: seq<(nat, nat)>)
    requires Order(order, 3)
    ensures SwapKey(KeyOf3(false, false, false), order) == KeyOf3(false, false, false)
  {
    hide KeyOf3;
    var h := KeyOf3(false, false, false);
    forall k | 0 <= k < 3 ensures SwapKey(h, order)[k] == h[k] {
      AllFalseAt(order[k].0);
      AllFalseAt(k);
    }
  }

  lemma AllFalseAt(k: nat)
    requires k < 3
    ensures !KeyOf3(false, false, false)[k]
  {
  }

  /** The input classifies the key 000 as 1; what comes back classifies it as 2. */
  method MergingSpoilsTable() returns (r: Option<Table<Option<int>>>)
    ensures Classify(SpoiltTable(), KeyOf3(false, false, false)) == Some(1)
    ensures r.Some? && Classify(r.value, KeyOf3(false, false, false)) == Some(2)
  {
    hide Classify, CrossFree, SpoiltTable, DropRuleLast, HasAllStars, WovenPart, Flatten, SameClasses, SameAnswered, KeyOf3;
    var table := SpoiltTable();
    SpoiltCrossFree();
    SpoiltInput();
    SpoiltClasses(KeyOf3(false, false, false));
    ghost var parts, news, works;
    r, parts, news, works := W.BitWeave(table, 3, 3);
    OnePart(parts, table);
    FlattenOne(news);
    SpoiltPart(news[0], works[0]);
    ClassifyConcat(news[0], [DropEntry(3)], KeyOf3(false, false, false));
  }

  lemma OnePart(parts: seq<Table<Option<int>>>, table: Table<Option<int>>)
    requires FewestCrossFree(parts, table) && CrossFree(table) && table != []
    ensures parts == [table]
  {
    hide CrossFree;
    FlattenOne([table]);
    if |parts| == 1 {
      FlattenOne(parts);
    }
  }

  // ---------- Tables that merging makes larger ----------

  /** `c` in front of every rule. */
  function Behind<O>(c: Cell, T: Table<O>): (r: Table<O>)
    ensures |r| == |T| && forall i | 0 <= i < |T| :: r[i] == Entry([c] + T[i].rule, T[i].output)
  {
    seq(|T|, i requires 0 <= i < |T| => Entry([c] + T[i].rule, T[i].output))
  }

  function Power(n: nat): nat {
    if n == 0 then 1 else 2 * Power(n - 1)
  }

  /** All even numbers of `n + 1` digits, with one output. */
  function Evens(n: nat): (T: Table<Option<int>>)
    ensures |T| == Power(n)
  {
    if n == 0 then [Entry([Zero], Some(1))] else Behind(Zero, Evens(n - 1)) + Behind(One, Evens(n - 1))
  }

  ghost predicate IsEven(r: seq<Cell>, n: nat) {
    |r| == n + 1 && r[n] == Zero && forall i | 0 <= i < n :: r[i] != Star
  }

  /** The rules for `n` digits are those for one digit less, behind a zero and behind a one. */
  lemma EvensAt(n: nat, i: nat) returns (j: nat)
    requires n > 0 && i < |Evens(n)|
    ensures j < |Evens(n - 1)| && Evens(n)[i] == Entry([if i < Power(n - 1) then Zero else One] + Evens(n - 1)[j].rule, Evens(n - 1)[j].output)
    ensures j == if i < Power(n - 1) then i else i - Power(n - 1)
  {
    j := if i < Power(n - 1) then i else i - Power(n - 1);
  }

  lemma {:induction false} EvensAre(n: nat, i: nat)
    requires i < |Evens(n)|
    ensures IsEven(Evens(n)[i].rule, n) && Evens(n)[i].output == Some(1)
  {
    if n > 0 {
      hide Evens, Power;
      var j := EvensAt(n, i);
      EvensAre(n - 1, j);
    } else {
    }
  }

  lemma {:induction false} EvensHave(n: nat, r: seq<Cell>) returns (i: nat)
    requires IsEven(r, n)
    ensures i < |Evens(n)| && Evens(n)[i] == Entry(r, Some(1))
  {
    if n == 0 {
      i := 0;
    } else {
      i := EvensHave(n - 1, r[1..]);
      assert r == [r[0]] + r[1..];
      if r[0] == One {
        i := i + Power(n - 1);
      }
    }
  }

  lemma {:induction false} EvensOnce(n: nat, i: nat, j: nat)
    requires i < j < |Evens(n)|
    ensures Evens(n)[i].rule != Evens(n)[j].rule
  {
    if n > 0 {
      hide Evens, Power;
      var x := EvensAt(n, i);
      var y := EvensAt(n, j);
      assert Evens(n)[i].rule[1..] == Evens(n - 1)[x].rule && Evens(n)[j].rule[1..] == Evens(n - 1)[y].rule;
      if x < y {
        EvensOnce(n - 1, x, y);
      } else if y < x {
        EvensOnce(n - 1, y, x);
      }
    }
  }

  /** Rules without stars match one key each. */
  lemma OnlyMatch(r: seq<Cell>, q: seq<Cell>, n: nat)
    requires IsEven(r, n) && IsEven(q, n) && MatchesKey(q, KeyOf(r))
    ensures q == r
  {
    assert MatchesKey(r, KeyOf(r));
    forall i | 0 <= i < |r| ensures q[i] == r[i] {
      assert MatchesCell(r[i], KeyOf(r)[i]) && MatchesCell(q[i], KeyOf(r)[i]);
    }
  }

  /** Each of the rules decides its key, and none has a sibling: it would be odd. */
  lemma EvensLean(n: nat)
    ensures Lean(Evens(n), n + 1)
  {
    hide MatchesKey, Evens, KeyOf;
    var T := Evens(n);
    forall e <- T ensures IsEven(e.rule, n) && e.output == Some(1) && Ends(e.rule) == n + 1 && IsPrefixRule(e.rule) {
      var i: nat :| i < |T| && T[i] == e;
      EvensAre(n, i);
      EndsIs(e.rule, n + 1);
    }
    forall i: nat | i < |T| ensures DecidesSome(T, i) {
      EvenDecides(n, i);
    }
  }

  lemma EvenDecides(n: nat, i: nat)
    requires i < |Evens(n)|
    ensures DecidesSome(Evens(n), i)
  {
    hide MatchesKey, Evens, KeyOf, IsEven;
    var T := Evens(n);
    EvensAre(n, i);
    forall j | 0 <= j < i ensures !MatchesKey(T[j].rule, KeyOf(T[i].rule)) {
      EvensAre(n, j);
      EvensOnce(n, j, i);
      if MatchesKey(T[j].rule, KeyOf(T[i].rule)) {
        OnlyMatch(T[i].rule, T[j].rule, n);
      }
    }
    assert Decides(T, i, KeyOf(T[i].rule));
  }

  /** Anything, and then a zero. */
  function EvenCube(n: nat): (e: Entry<Option<int>>)
    ensures |e.rule| == n + 1 && e.rule[n] == Zero && (forall i | 0 <= i < n :: e.rule[i] == Star) && e.output == Some(1)
  {
    Entry(seq(n + 1, i => if i == n then Zero else Star), Some(1))
  }

  lemma EvenDigits(n: nat, h: seq<bool>) returns (r: seq<Cell>)
    requires |h| == n + 1 && !h[n]
    ensures IsEven(r, n) && MatchesKey(r, h)
  {
    r := seq(n + 1, i requires 0 <= i < n + 1 => Digit(h[i]));
  }

  /** The rules cover the even keys. */
  lemma EvenSpot(n: nat, o: Option<int>, last: nat, h: seq<bool>)
    ensures Spot(Evens(n), o, last, h) <==> o == Some(1) && last == n + 1 == |h| && !h[n]
  {
    hide Evens, Ends;
    var T := Evens(n);
    if Spot(T, o, last, h) {
      var t :| t in T && IsSpot(t, o, last, h);
      var i: nat :| i < |T| && T[i] == t;
      EvensAre(n, i);
      EndsIs(t.rule, n + 1);
      assert MatchesCell(t.rule[n], h[n]);
    }
    if o == Some(1) && last == n + 1 == |h| && !h[n] {
      var r := EvenDigits(n, h);
      var i := EvensHave(n, r);
      EndsIs(r, n + 1);
      assert IsSpot(T[i], o, last, h);
    }
  }

  lemma EvenCubes(n: nat, o: Option<int>, last: nat, q: seq<Cell>)
    ensures Cube(Evens(n), n + 1, o, last, q) <==> o == Some(1) && last == n + 1 == |q| && q[n] == Zero
  {
    hide Evens, Spot;
    if Cube(Evens(n), n + 1, o, last, q) {
      var h := KeyOf(q);
      EvenSpot(n, o, last, h);
      if q[n] == Star {
        OddKey(q, n, h);
        EvenSpot(n, o, last, h[n := true]);
      } else {
        assert MatchesCell(q[n], h[n]);
      }
    }
    if o == Some(1) && last == n + 1 == |q| && q[n] == Zero {
      forall h: seq<bool> | MatchesKey(q, h) ensures Spot(Evens(n), o, last, h) {
        assert MatchesCell(q[n], h[n]);
        EvenSpot(n, o, last, h);
      }
    }
  }

  lemma OddKey(q: seq<Cell>, n: nat, h: seq<bool>)
    requires n < |q| && q[n] == Star && MatchesKey(q, h)
    ensures MatchesKey(q, h[n := true])
  {
    forall i | 0 <= i < |q| ensures MatchesCell(q[i], h[n := true][i]) {
      assert MatchesCell(q[i], h[i]);
    }
  }

  /** They have one maximal cube. */
  lemma OneEvenCube(n: nat, e: Entry<Option<int>>)
    ensures MaxCube(Evens(n), n + 1, e) <==> e == EvenCube(n)
  {
    hide Evens, Cube, EvenCube;
    var T, c := Evens(n), EvenCube(n);
    EvenCubes(n, c.output, n + 1, c.rule);
    if MaxCube(T, n + 1, e) {
      var last: nat :| Maximal(T, n + 1, e.output, last, e.rule);
      EvenCubes(n, e.output, last, e.rule);
      assert Within(e.rule, c.rule);
    }
    if e == c {
      forall p | Cube(T, n + 1, e.output, n + 1, p) && Within(e.rule, p) ensures p == e.rule {
        EvenCubes(n, e.output, n + 1, p);
      }
      assert Maximal(T, n + 1, e.output, n + 1, e.rule);
    }
  }

  lemma EvenStars(n: nat)
    ensures |Inner(EvenCube(n).rule)| == n
  {
    var r := EvenCube(n).rule;
    EndsIs(r, n + 1);
    assert Inner(r) == Below(n);
  }

  /** Three stars merged in are more copies than there were rules; up to two are not. */
  lemma {:induction false} ManyCopies(n: nat)
    ensures M.Copies(n) > Power(n) <==> n >= 3
    ensures n >= 3 ==> M.Copies(n) >= 12
    decreases n
  {
    if n <= 3 {
      SmallCopies();
    } else {
      ManyCopies(n - 1);
      MoreCopies(n, M.Copies(n - 1), Power(n - 1));
    }
  }

  lemma SmallCopies()
    ensures M.Copies(0) == 1 && M.Copies(1) == 1 && M.Copies(2) == 2 && M.Copies(3) == 12
    ensures Power(0) == 1 && Power(1) == 2 && Power(2) == 4 && Power(3) == 8
  {
  }

  lemma MoreCopies(n: nat, c: nat, p: nat)
    requires n >= 2 && c > p && c >= 12
    ensures n * (c * c) > 2 * p && n * (c * c) >= 12
  {
    assert c * c >= c * 12;
    assert n * (c * c) >= 2 * (c * c);
  }

  /** Merging all even numbers leaves copies of one rule: from three free digits on more than there were numbers. */
  method MergingGrows(n: nat) returns (out: Table<Option<int>>)
    ensures (forall e <- out :: e == EvenCube(n)) && |out| == M.Copies(n)
    ensures |out| > |Evens(n)| <==> n >= 3
  {
    hide Evens, Lean, Stage, M.Merged, M.Counted, M.Copies, AtRound, Rounds, Round, EvenCube;
    var T := Evens(n);
    EvensLean(n);
    LeanWidth(T, n + 1);
    StartStage(T, n + 1);
    StartAt(T, n + 1);
    M.StartCounted(T, n + 1);
    out := M.BitMerge(T, T, n + 1, 0);
    OnlyCopies(n, out);
    ManyCopies(n);
  }

  lemma OnlyCopies(n: nat, out: Table<Option<int>>)
    requires M.Merged(Evens(n), n + 1, out)
    ensures (forall e <- out :: e == EvenCube(n)) && |out| == M.Copies(n)
  {
    hide Evens, Inner, MaxCube, M.Copies, Sorted, EvenCube;
    var c := EvenCube(n);
    EvenStars(n);
    forall e ensures multiset(out)[e] == if e == c then M.Copies(n) else 0 {
      OneEvenCube(n, e);
    }
    forall e <- out ensures e == c {
      assert multiset(out)[e] > 0;
    }
    assert multiset(out) == multiset{}[c := M.Copies(n)];
    H.SizeOf(out);
  }
}
