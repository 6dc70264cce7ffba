/** Sorting by keys that are compared number by number. */
module Sorting {
  predicate LexLe(a: seq<int>, c: seq<int>) {
    a == [] || (c != [] && (a[0] < c[0] || (a[0] == c[0] && LexLe(a[1..], c[1..]))))
  }

  lemma {:induction false} LexTotal(a: seq<int>, c: seq<int>)
    ensures LexLe(a, c) || LexLe(c, a)
    ensures LexLe(a, c) && LexLe(c, a) ==> a == c
    decreases |a|
  {
    if a != [] && c != [] {
      LexTotal(a[1..], c[1..]);
      assert a == [a[0]] + a[1..] && c == [c[0]] + c[1..];
    }
  }

  lemma {:induction false} LexTrans(a: seq<int>, b: seq<int>, c: seq<int>)
    requires LexLe(a, b) && LexLe(b, c)
    ensures LexLe(a, c)
    decreases |a|
  {
    if a != [] && a[0] == b[0] == c[0] {
      LexTrans(a[1..], b[1..], c[1..]);
    }
  }

  ghost predicate SortedBy<T>(s: seq<T>, key: T -> seq<int>) {
    forall i, j | 0 <= i < j < |s| :: LexLe(key(s[i]), key(s[j]))
  }

  lemma InsertSorted<T>(s: seq<T>, key: T -> seq<int>, e: T, n: nat)
    requires SortedBy(s, key) && n <= |s| && (n > 0 ==> LexLe(key(s[n - 1]), key(e))) && forall i | n <= i < |s| :: LexLe(key(e), key(s[i]))
    ensures SortedBy(s[..n] + [e] + s[n..], key)
  {
    hide LexLe;
    var o := s[..n] + [e] + s[n..];
    forall i | 0 <= i < n ensures LexLe(key(s[i]), key(e)) {
      if i < n - 1 {
        LexTrans(key(s[i]), key(s[n - 1]), key(e));
      }
    }
    forall i, j | 0 <= i < j < |o| ensures LexLe(key(o[i]), key(o[j])) {
      assert o[i] == if i < n then s[i] else if i == n then e else s[i - 1];
      assert o[j] == if j < n then s[j] else if j == n then e else s[j - 1];
    }
  }

  lemma InsertCount<T>(s: seq<T>, e: T, n: nat)
    requires n <= |s|
    ensures multiset(s[..n] + [e] + s[n..]) == multiset(s) + multiset{e}
  {
    assert s == s[..n] + s[n..];
  }

  /** Sorts by the keys; equals keep their order. */
  method SortBy<T>(table: seq<T>, key: T -> seq<int>) returns (s: seq<T>)
    ensures SortedBy(s, key) && multiset(s) == multiset(table)
  {
    hide LexLe;
    s := [];
    for k := 0 to |table|
      invariant SortedBy(s, key) && multiset(s) == multiset(table[..k])
    {
      var e := table[k];
      var n := |s|;
      while n > 0 && !LexLe(key(s[n - 1]), key(e))
        invariant 0 <= n <= |s| && forall i | n <= i < |s| :: LexLe(key(e), key(s[i]))
      {
        LexTotal(key(s[n - 1]), key(e));
        n := n - 1;
      }
      InsertSorted(s, key, e, n);
      InsertCount(s, e, n);
      assert table[..k + 1] == table[..k] + [e];
      s := s[..n] + [e] + s[n..];
    }
    assert table[..|table|] == table;
  }

  lemma SameElems<T>(a: seq<T>, c: seq<T>)
    requires multiset(a) == multiset(c)
    ensures (forall x <- a :: x in c) && (forall x <- c :: x in a) && |a| == |c|
  {
    assert forall x <- a :: x in multiset(a);
    assert forall x <- c :: x in multiset(c);
    assert |multiset(a)| == |a| && |multiset(c)| == |c|;
  }
}
