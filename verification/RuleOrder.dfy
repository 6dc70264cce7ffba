/** The order of rules: more leading digits first, then by their characters. */
module RuleOrder {
  import opened Wrappers
  import opened Ternary
  import opened Sorting

  /** The number of digits before the first star. */
  function PrefixLen(r: seq<Cell>): nat {
    if r == [] || r[0] == Star then 0 else 1 + PrefixLen(r[1..])
  }

  lemma {:induction false} LenBefore(r: seq<Cell>, i: nat)
    requires i < |r| && r[i] == Star
    ensures PrefixLen(r) <= i
  {
    if i > 0 {
      LenBefore(r[1..], i - 1);
    } else {
    }
  }

  lemma {:induction false} LenAtLeast(r: seq<Cell>, n: nat)
    requires n <= |r| && forall i | 0 <= i < n :: r[i] != Star
    ensures PrefixLen(r) >= n
  {
    if n > 0 {
      LenAtLeast(r[1..], n - 1);
    } else {
    }
  }

  /** The order of the characters. */
  function Rank(c: Cell): nat {
    match c case Star => 0 case Zero => 1 case One => 2
  }

  function Ranks(r: seq<Cell>): (k: seq<int>)
    ensures |k| == |r| && forall i | 0 <= i < |r| :: k[i] == Rank(r[i])
  {
    seq(|r|, i requires 0 <= i < |r| => Rank(r[i]))
  }

  /** More leading digits first; then in the order of the characters. */
  predicate Ordered(a: seq<Cell>, c: seq<Cell>) {
    PrefixLen(a) > PrefixLen(c) || (PrefixLen(a) == PrefixLen(c) && LexLe(Ranks(a), Ranks(c)))
  }

  ghost predicate Sorted<O>(table: Table<O>) {
    forall i, j | 0 <= i < j < |table| :: Ordered(table[i].rule, table[j].rule)
  }

  function SortKey<O>(e: Entry<O>): seq<int> {
    var len: int := PrefixLen(e.rule);
    [-len] + Ranks(e.rule)
  }

  lemma KeyOrders<O>(a: Entry<O>, c: Entry<O>)
    ensures LexLe(SortKey(a), SortKey(c)) <==> Ordered(a.rule, c.rule)
  {
    assert SortKey(a)[1..] == Ranks(a.rule) && SortKey(c)[1..] == Ranks(c.rule);
  }

  lemma OrderedTotal(a: seq<Cell>, c: seq<Cell>)
    ensures Ordered(a, c) || Ordered(c, a)
    ensures Ordered(a, c) && Ordered(c, a) ==> a == c
  {
    hide LexLe;
    LexTotal(Ranks(a), Ranks(c));
    if Ranks(a) == Ranks(c) {
      forall i | 0 <= i < |a| ensures a[i] == c[i] {
        assert Rank(a[i]) == Ranks(a)[i] == Ranks(c)[i] == Rank(c[i]);
      }
      assert |a| == |Ranks(a)| == |c|;
    }
  }

  method SortRules<O>(table: Table<O>) returns (s: Table<O>)
    ensures Sorted(s) && multiset(s) == multiset(table)
  {
    hide Ordered, SortKey, LexLe;
    s := SortBy(table, SortKey);
    forall i, j | 0 <= i < j < |s| ensures Ordered(s[i].rule, s[j].rule) {
      assert LexLe(SortKey(s[i]), SortKey(s[j]));
      KeyOrders(s[i], s[j]);
    }
  }

  /** Equal rules have equal outputs. */
  ghost predicate Unlike<O>(a: Table<O>) {
    forall e, f | e in a && f in a && e.rule == f.rule :: e == f
  }

  /** There is only one way to sort entries of which no two have equal rules. */
  lemma {:induction false} SortedOnce<O>(a: Table<O>, c: Table<O>)
    requires Sorted(a) && Sorted(c) && multiset(a) == multiset(c) && Unlike(a)
    ensures a == c
    decreases |a|
  {
    hide Sorted, Unlike;
    SameElems(a, c);
    if a != [] {
      SameHead(a, c);
      SortedTail(a);
      SortedTail(c);
      TailCount(a);
      TailCount(c);
      SortedOnce(a[1..], c[1..]);
      assert a == [a[0]] + a[1..] && c == [c[0]] + c[1..];
    }
  }

  lemma TailCount<T>(s: seq<T>)
    requires s != []
    ensures multiset(s[1..]) == multiset(s) - multiset{s[0]}
  {
    assert s == [s[0]] + s[1..];
  }

  lemma SortedTail<O>(a: Table<O>)
    requires Sorted(a) && a != []
    ensures Sorted(a[1..]) && (Unlike(a) ==> Unlike(a[1..]))
  {
    hide Ordered;
    assert forall e <- a[1..] :: e in a;
  }

  lemma SameHead<O>(a: Table<O>, c: Table<O>)
    requires Sorted(a) && Sorted(c) && multiset(a) == multiset(c) && a != [] && c != [] && Unlike(a)
    ensures a[0] == c[0]
  {
    hide Ordered, Sorted;
    assert a[0] in multiset(a) && c[0] in multiset(c);
    FirstOrdered(a, c[0]);
    FirstOrdered(c, a[0]);
    OrderedTotal(a[0].rule, c[0].rule);
  }

  lemma FirstOrdered<O>(a: Table<O>, e: Entry<O>)
    requires Sorted(a) && e in a
    ensures Ordered(a[0].rule, e.rule)
  {
    OrderedItself(e.rule);
  }

  lemma OrderedItself(r: seq<Cell>)
    ensures Ordered(r, r)
  {
    LexTotal(Ranks(r), Ranks(r));
  }
}
