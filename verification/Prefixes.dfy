/** Prefixes as intervals: the nodes of the tree that halves `0 .. 2^bits - 1` again and again. */
module Prefixes {

  datatype Interval = Interval(lo: int, hi: int)

  function Pow2(k: nat): (r: nat)
    ensures r >= 1
  {
    if k == 0 then 1 else 2 * Pow2(k - 1)
  }

  function Size(p: Interval): int {
    p.hi - p.lo + 1
  }

  predicate Contains(p: Interval, q: Interval) {
    p.lo <= q.lo && q.hi <= p.hi
  }

  predicate Apart(p: Interval, q: Interval) {
    p.hi < q.lo || q.hi < p.lo
  }

  function Max(a: int, b: int): int {
    if a >= b then a else b
  }

  function Min(a: int, b: int): int {
    if a <= b then a else b
  }

  function Intersection(left: Interval, right: Interval): Interval {
    Interval(Max(left.lo, right.lo), Min(left.hi, right.hi))
  }

  /** The whole range of `bits`-bit numbers. */
  function Top(bits: nat): Interval {
    Interval(0, Pow2(bits) - 1)
  }

  /** The lower half. */
  function Low(p: Interval): Interval {
    Interval(p.lo, p.lo + Size(p) / 2 - 1)
  }

  /** The upper half. */
  function High(p: Interval): Interval {
    Interval(p.lo + Size(p) / 2, p.hi)
  }

  /** `q` is a node of the halving tree of `p`, which has `k` levels below its root. */
  ghost predicate Node(q: Interval, p: Interval, k: nat)
    decreases k
  {
    Size(p) == Pow2(k) && (q == p || (k > 0 && (Node(q, Low(p), k - 1) || Node(q, High(p), k - 1))))
  }

  lemma {:induction false} NodeInside(q: Interval, p: Interval, k: nat)
    requires Node(q, p, k)
    ensures Contains(p, q) && 1 <= Size(q) <= Size(p)
    decreases k
  {
    if q != p {
      if Node(q, Low(p), k - 1) {
        NodeInside(q, Low(p), k - 1);
      } else {
        NodeInside(q, High(p), k - 1);
      }
    }
  }

  /** The halves of a node are nodes. */
  lemma {:induction false} HalvesAreNodes(q: Interval, p: Interval, k: nat)
    requires Node(q, p, k) && Size(q) > 1
    ensures Node(Low(q), p, k) && Node(High(q), p, k)
    ensures 2 * Size(Low(q)) == Size(q) && Size(High(q)) == Size(Low(q))
    decreases k
  {
    if q == p {
      assert Size(Low(p)) == Pow2(k - 1) && Size(High(p)) == Pow2(k - 1);
    } else if Node(q, Low(p), k - 1) {
      HalvesAreNodes(q, Low(p), k - 1);
    } else {
      HalvesAreNodes(q, High(p), k - 1);
    }
  }

  /** Two nodes are nested or apart. */
  lemma {:induction false} NestedOrApart(q: Interval, r: Interval, p: Interval, k: nat)
    requires Node(q, p, k) && Node(r, p, k)
    ensures Apart(q, r) || Contains(q, r) || Contains(r, q)
    decreases k
  {
    NodeInside(q, p, k);
    NodeInside(r, p, k);
    if q != p && r != p {
      if Node(q, Low(p), k - 1) {
        NodeInside(q, Low(p), k - 1);
        if Node(r, Low(p), k - 1) {
          NestedOrApart(q, r, Low(p), k - 1);
        } else {
          NodeInside(r, High(p), k - 1);
        }
      } else {
        NodeInside(q, High(p), k - 1);
        if Node(r, High(p), k - 1) {
          NestedOrApart(q, r, High(p), k - 1);
        } else {
          NodeInside(r, Low(p), k - 1);
        }
      }
    }
  }

  /** A node that does not contain `p` lies in one of its halves, or apart from it. */
  lemma InHalfOrApart(q: Interval, p: Interval, top: Interval, k: nat)
    requires Node(q, top, k) && Node(p, top, k) && Size(p) > 1 && !Contains(q, p)
    ensures Apart(q, p) || Contains(Low(p), q) || Contains(High(p), q)
  {
    HalvesAreNodes(p, top, k);
    NodeInside(q, top, k);
    NestedOrApart(q, p, top, k);
    NestedOrApart(q, Low(p), top, k);
    NestedOrApart(q, High(p), top, k);
  }

  /** The prefixes that make up `interval` inside `test`, from left to right. */
  function GetPrefixes(interval: Interval, test: Interval, k: nat): (r: seq<Interval>)
    requires Size(test) == Pow2(k)
    decreases k
  {
    var i := Intersection(interval, test);
    if i.hi - i.lo < 0 then []
    else if i == test then [test]
    else
      assert k == 0 ==> i == test;
      GetPrefixes(interval, Low(test), k - 1) + GetPrefixes(interval, High(test), k - 1)
  }

  ghost predicate InSome(s: seq<Interval>, x: int) {
    exists q <- s :: q.lo <= x <= q.hi
  }

  lemma InSomeConcat(a: seq<Interval>, b: seq<Interval>, x: int)
    ensures InSome(a + b, x) <==> InSome(a, x) || InSome(b, x)
  {
    if q :| q in a && q.lo <= x <= q.hi {
      assert q in a + b;
    }
    if q :| q in b && q.lo <= x <= q.hi {
      assert q in a + b;
    }
  }

  /** The prefixes found are nodes, lie in the interval, and together hold exactly its points. */
  lemma {:induction false} PrefixesCover(interval: Interval, test: Interval, k: nat)
    requires Size(test) == Pow2(k)
    ensures forall q <- GetPrefixes(interval, test, k) :: Node(q, test, k) && Contains(interval, q)
    ensures forall x | test.lo <= x <= test.hi :: interval.lo <= x <= interval.hi <==> InSome(GetPrefixes(interval, test, k), x)
    decreases k
  {
    var i := Intersection(interval, test);
    if i.hi - i.lo >= 0 && i != test {
      assert k > 0;
      PrefixesCover(interval, Low(test), k - 1);
      PrefixesCover(interval, High(test), k - 1);
      var a, b := GetPrefixes(interval, Low(test), k - 1), GetPrefixes(interval, High(test), k - 1);
      assert GetPrefixes(interval, test, k) == a + b;
      forall q <- a + b ensures Node(q, test, k) && Contains(interval, q) {
        assert q in a || q in b;
      }
      forall x | test.lo <= x <= test.hi ensures interval.lo <= x <= interval.hi <==> InSome(a + b, x) {
        InSomeConcat(a, b, x);
        forall q <- a ensures Contains(Low(test), q) {
          NodeInside(q, Low(test), k - 1);
        }
        forall q <- b ensures Contains(High(test), q) {
          NodeInside(q, High(test), k - 1);
        }
      }
    }
  }

  /** A prefix is made up of itself. */
  lemma {:induction false} PrefixOfNode(q: Interval, test: Interval, k: nat)
    requires Node(q, test, k)
    ensures GetPrefixes(q, test, k) == [q]
    decreases k
  {
    NodeInside(q, test, k);
    if q != test {
      if Node(q, Low(test), k - 1) {
        NodeInside(q, Low(test), k - 1);
        PrefixOfNode(q, Low(test), k - 1);
        assert GetPrefixes(q, High(test), k - 1) == [];
      } else {
        NodeInside(q, High(test), k - 1);
        PrefixOfNode(q, High(test), k - 1);
        assert GetPrefixes(q, Low(test), k - 1) == [];
      }
    }
  }

  lemma {:induction false} Pow2Add(a: nat, b: nat)
    ensures Pow2(a + b) == Pow2(a) * Pow2(b)
  {
    if a != 0 {
      Pow2Add(a - 1, b);
      assert Pow2(a) * Pow2(b) == 2 * (Pow2(a - 1) * Pow2(b));
    } else {
    }
  }

  lemma {:induction false} Pow2Monotone(a: nat, b: nat)
    ensures a <= b <==> Pow2(a) <= Pow2(b)
  {
    if a < b {
      Pow2Monotone(a, b - 1);
    } else if a > b {
      Pow2Monotone(a - 1, b);
    }
  }

  /** Numbers of fewer bits are a prefix. */
  lemma {:induction false} TopIsNode(b: nat, bits: nat)
    requires b <= bits
    ensures Node(Top(b), Top(bits), bits)
    decreases bits
  {
    if b < bits {
      TopIsNode(b, bits - 1);
      assert Low(Top(bits)) == Top(bits - 1);
    }
  }

  /** A node inside another one is a node of its tree. */
  lemma {:induction false} NodeWithin(q: Interval, p: Interval, j: nat, top: Interval, k: nat)
    requires Node(q, top, k) && Node(p, top, k) && Contains(p, q) && Size(p) == Pow2(j)
    ensures Node(q, p, j)
    decreases k
  {
    NodeInside(q, top, k);
    if p == top {
      Pow2Monotone(j, k);
      Pow2Monotone(k, j);
    } else if Node(p, Low(top), k - 1) {
      NodeInside(p, Low(top), k - 1);
      if Node(q, High(top), k - 1) {
        NodeInside(q, High(top), k - 1);
      }
      NodeWithin(q, p, j, Low(top), k - 1);
    } else {
      NodeInside(p, High(top), k - 1);
      if Node(q, Low(top), k - 1) {
        NodeInside(q, Low(top), k - 1);
      }
      NodeWithin(q, p, j, High(top), k - 1);
    }
  }

  /** Nodes of a node's tree are nodes. */
  lemma {:induction false} NodeTrans(q: Interval, p: Interval, j: nat, top: Interval, k: nat)
    requires Node(q, p, j) && Node(p, top, k)
    ensures Node(q, top, k)
    decreases k
  {
    if p == top {
      Pow2Monotone(j, k);
      Pow2Monotone(k, j);
    } else if Node(p, Low(top), k - 1) {
      NodeTrans(q, p, j, Low(top), k - 1);
    } else {
      NodeTrans(q, p, j, High(top), k - 1);
    }
  }
}
