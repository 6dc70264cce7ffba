/** Counting. */
module FiniteSets {

  /** A subset is no larger, and is the whole set when it is as large. */
  lemma {:induction false} SubsetSize<T>(a: set<T>, b: set<T>)
    requires a <= b
    ensures |a| <= |b|
    ensures |a| == |b| ==> a == b
    decreases |a|
  {
    if x :| x in a {
      SubsetSize(a - {x}, b - {x});
      assert a == (a - {x}) + {x} && b == (b - {x}) + {x};
    }
  }

  /** A one-to-one assignment of witnesses from `b` makes `a` no larger than `b`. */
  lemma {:induction false} InjectionSize<S, T>(a: set<S>, b: set<T>, f: map<S, T>)
    requires a <= f.Keys && (forall x <- a :: f[x] in b)
    requires forall x, y | x in a && y in a && x != y :: f[x] != f[y]
    ensures |a| <= |b|
    ensures |a| == |b| ==> forall y <- b :: exists x <- a :: f[x] == y
    decreases |a|
  {
    if x :| x in a {
      InjectionSize(a - {x}, b - {f[x]}, f);
      if |a| == |b| {
        forall y <- b ensures exists z <- a :: f[z] == y {
          if y == f[x] {
            assert x in a;
          } else {
            assert y in b - {f[x]};
            var z :| z in a - {x} && f[z] == y;
            assert z in a;
          }
        }
      }
    }
  }

  /** `k` times `n`, by addition. */
  function Span(k: nat, n: nat): nat {
    if k == 0 then 0 else n + Span(k - 1, n)
  }

  lemma {:induction false} SpanIsProduct(k: nat, n: nat)
    ensures Span(k, n) == k * n
  {
    if k != 0 {
      SpanIsProduct(k - 1, n);
      assert k * n == (k - 1) * n + n;
    } else {
    }
  }

  lemma {:induction false} SpanMonotone(k: nat, l: nat, n: nat)
    requires k <= l
    ensures Span(k, n) <= Span(l, n)
  {
    if k < l {
      SpanMonotone(k, l - 1, n);
    }
  }

  /** The numbers below `n`. */
  function Below(n: nat): (r: set<nat>)
    ensures |r| == n && forall j: nat :: j in r <==> j < n
  {
    if n == 0 then {} else Below(n - 1) + {n - 1}
  }

  /** Distinct elements of a set are no more than the set has. */
  lemma {:induction false} DistinctCount<T>(s: seq<T>, all: set<T>)
    requires (forall i | 0 <= i < |s| :: s[i] in all) && forall i, j | 0 <= i < j < |s| :: s[i] != s[j]
    ensures |s| <= |all|
    decreases |s|
  {
    if s != [] {
      var n := |s| - 1;
      DistinctCount(s[..n], all - {s[n]});
    }
  }
}
