/** A dictionary of priorities over a heap from which outdated entries are dropped only when they come up. */
module PriorityDict {
  import opened Wrappers

  /** `k` has the smallest priority. */
  ghost predicate IsSmallest<K>(dict: map<K, real>, k: K) {
    k in dict && forall j <- dict :: dict[k] <= dict[j]
  }

  /** These entries are all out of date. */
  ghost predicate Outdated<K>(dict: map<K, real>, entries: multiset<(real, K)>) {
    forall x <- entries :: !(x.1 in dict && dict[x.1] == x.0)
  }

  /** Only outdated entries have been dropped from the top of the heap. */
  ghost predicate Skimmed<K>(dict: map<K, real>, heap: multiset<(real, K)>, rest: multiset<(real, K)>) {
    rest <= heap && Outdated(dict, heap - rest) && forall x, y | x in heap - rest && y in rest :: x.0 <= y.0
  }

  lemma NothingSkimmed<K>(dict: map<K, real>, heap: multiset<(real, K)>)
    ensures Skimmed(dict, heap, heap)
  {
  }

  lemma SkimOne<K>(dict: map<K, real>, heap: multiset<(real, K)>, rest: multiset<(real, K)>, x: (real, K))
    requires Skimmed(dict, heap, rest) && x in rest && (forall y <- rest :: x.0 <= y.0) && !(x.1 in dict && dict[x.1] == x.0)
    ensures Skimmed(dict, heap, rest - multiset{x})
  {
    assert heap - (rest - multiset{x}) == heap - rest + multiset{x};
  }

  /** The top entry was the current one of `k`; only outdated entries were dropped before it. */
  ghost predicate PoppedFrom<K>(dict: map<K, real>, heap: multiset<(real, K)>, k: K, rest: multiset<(real, K)>) {
    && k in dict && (dict[k], k) in heap - rest && Outdated(dict, heap - rest - multiset{(dict[k], k)})
    && (forall x <- rest :: dict[k] <= x.0) && forall x <- heap - rest :: x.0 <= dict[k]
  }

  lemma SkimTop<K>(dict: map<K, real>, heap: multiset<(real, K)>, rest: multiset<(real, K)>, x: (real, K))
    requires Skimmed(dict, heap, rest) && x in rest && (forall y <- rest :: x.0 <= y.0) && x.1 in dict && dict[x.1] == x.0
    ensures PoppedFrom(dict, heap, x.1, rest - multiset{x})
  {
    assert heap - (rest - multiset{x}) == heap - rest + multiset{x};
    assert heap - rest + multiset{x} - multiset{x} == heap - rest;
  }

  lemma {:induction false} SmallestEntry<K>(heap: multiset<(real, K)>) returns (x: (real, K))
    requires |heap| > 0
    ensures x in heap && forall y <- heap :: x.0 <= y.0
    decreases |heap|
  {
    x :| x in heap;
    var rest := heap - multiset{x};
    if |rest| > 0 {
      var z := SmallestEntry(rest);
      if z.0 < x.0 {
        x := z;
      }
      forall y <- heap ensures x.0 <= y.0 {
        assert y in rest || heap == rest + multiset{y};
      }
    } else {
      assert heap == multiset{x};
    }
  }

  class PriorityDict<K(==)> {
    var dict: map<K, real>
    var heap: multiset<(real, K)>

    /** Every key has its current entry in the heap. */
    ghost predicate Valid()
      reads this
    {
      forall k <- dict :: (dict[k], k) in heap
    }

    constructor (items: map<K, real>)
      ensures Valid() && dict == items && |heap| == |dict|
    {
      dict, heap := items, multiset{};
      new;
      RebuildHeap();
    }

    method RebuildHeap()
      modifies this`heap
      ensures Valid() && |heap| == |dict|
    {
      heap := multiset{};
      var todo := dict.Keys;
      while todo != {}
        invariant todo <= dict.Keys && |heap| + |todo| == |dict.Keys|
        invariant forall k <- dict.Keys - todo :: (dict[k], k) in heap
      {
        var k :| k in todo;
        todo := todo - {k};
        heap := heap + multiset{(dict[k], k)};
      }
    }

    /** The first entry of the heap; which one of several smallest is left open. */
    method HeapTop() returns (x: (real, K))
      requires |heap| > 0
      ensures x in heap && forall y <- heap :: x.0 <= y.0
    {
      ghost var m := SmallestEntry(heap);
      x :| x in heap && forall y <- heap :: x.0 <= y.0;
    }

    method HeapPop() returns (x: (real, K))
      requires |heap| > 0
      modifies this`heap
      ensures x in old(heap) && (forall y <- old(heap) :: x.0 <= y.0) && heap == old(heap) - multiset{x}
    {
      x := HeapTop();
      heap := heap - multiset{x};
    }

    /** The live top of a heap is the smallest key, because every key's entry is in the heap. */
    lemma TopIsSmallest(h: multiset<(real, K)>, x: (real, K))
      requires (forall k <- dict :: (dict[k], k) in h) && x in h && forall y <- h :: x.0 <= y.0
      requires x.1 in dict && dict[x.1] == x.0
      ensures IsSmallest(dict, x.1)
    {
      forall j <- dict ensures dict[x.1] <= dict[j] {
        assert (dict[j], j) in h;
      }
    }

    /** The heap does not run out before the dictionary does. */
    lemma HeapLasts()
      requires Valid()
      ensures dict == map[] || |heap| > 0
    {
      if k :| k in dict {
        assert (dict[k], k) in heap;
      }
    }

    /** The key of lowest priority, if there is one; entries that are out of date are dropped from the heap on the way. */
    method Smallest() returns (r: Option<K>)
      requires Valid()
      modifies this`heap
      ensures Valid() && heap <= old(heap) && Skimmed(dict, old(heap), heap)
      ensures if dict == map[] then r.None? else r.Some? && IsSmallest(dict, r.value)
    {
      hide Skimmed, PoppedFrom;
      NothingSkimmed(dict, heap);
      while |heap| > 0
        invariant Valid() && heap <= old(heap) && Skimmed(dict, old(heap), heap)
        decreases |heap|
      {
        var x := HeapTop();
        var v, k := x.0, x.1;
        if k in dict && dict[k] == v {
          TopIsSmallest(heap, x);
          return Some(k);
        }
        SkimOne(dict, old(heap), heap, x);
        heap := heap - multiset{x};
      }
      HeapLasts();
      return None;
    }

    /** Removes the key of lowest priority; the heap does not run out as long as there is one. */
    method PopSmallest() returns (r: Option<K>)
      requires Valid()
      modifies this
      ensures Valid() && heap <= old(heap)
      ensures if old(dict) == map[] then r.None? && dict == map[] else r.Some? && IsSmallest(old(dict), r.value) && dict == old(dict) - {r.value}
      ensures if r.None? then heap == multiset{} else PoppedFrom(old(dict), old(heap), r.value, heap)
    {
      hide Skimmed, PoppedFrom;
      NothingSkimmed(dict, heap);
      while |heap| > 0
        invariant Valid() && dict == old(dict) && heap <= old(heap) && Skimmed(dict, old(heap), heap)
        decreases |heap|
      {
        ghost var before := heap;
        var x := HeapPop();
        var v, k := x.0, x.1;
        if k in dict && dict[k] == v {
          TopIsSmallest(before, x);
          SkimTop(dict, old(heap), before, x);
          dict := dict - {k};
          return Some(k);
        }
        SkimOne(dict, old(heap), before, x);
      }
      HeapLasts();
      return None;
    }

    /**
     `d[key] = val`: the new entry joins the heap, whose outdated ones stay, unless the heap has twice as many entries as
     the dictionary; then it is rebuilt.
     */
    method Set(key: K, val: real)
      requires Valid()
      modifies this
      ensures Valid() && dict == old(dict)[key := val] && |heap| <= 2 * |dict|
      ensures if |old(heap)| < 2 * |dict| then heap == old(heap) + multiset{(val, key)} else |heap| == |dict|
    {
      dict := dict[key := val];
      if |heap| < 2 * |dict| {
        heap := heap + multiset{(val, key)};
      } else {
        RebuildHeap();
      }
    }

    /** `del d[key]`, which leaves the entry in the heap. */
    method Delete(key: K)
      requires Valid() && key in dict
      modifies this`dict
      ensures Valid() && dict == old(dict) - {key}
    {
      dict := dict - {key};
    }

    method SetDefault(key: K, val: real) returns (v: real)
      requires Valid()
      modifies this
      ensures Valid() && dict == (if key in old(dict) then old(dict) else old(dict)[key := val]) && v == dict[key]
      ensures key in old(dict) ==> heap == old(heap)
    {
      if key !in dict {
        Set(key, val);
        return val;
      }
      return dict[key];
    }

    method Update(items: map<K, real>)
      requires Valid()
      modifies this
      ensures Valid() && dict == old(dict) + items && |heap| == |dict|
    {
      dict := dict + items;
      RebuildHeap();
    }

    /** All keys in order of their priorities; the dictionary is used up. */
    method SortedIter() returns (order: seq<K>)
      requires Valid()
      modifies this
      ensures Valid() && dict == map[] && |order| == |old(dict)| && forall k :: k in order <==> k in old(dict)
      ensures forall i, j | 0 <= i < j < |order| :: order[i] != order[j] && old(dict)[order[i]] <= old(dict)[order[j]]
    {
      hide PoppedFrom;
      order := [];
      while dict != map[]
        invariant Valid() && (forall k <- dict :: k in old(dict) && dict[k] == old(dict)[k])
        invariant (forall k :: k in old(dict) <==> k in dict || k in order) && (forall k <- order :: k !in dict)
        invariant |order| + |dict| == |old(dict)|
        invariant forall i, j | 0 <= i < j < |order| :: order[i] != order[j] && old(dict)[order[i]] <= old(dict)[order[j]]
        invariant forall k, j | k in order && j in dict :: old(dict)[k] <= old(dict)[j]
        decreases |dict|
      {
        ghost var before := dict;
        var k := PopSmallest();
        assert k.value in before && before.Keys == dict.Keys + {k.value};
        order := order + [k.value];
      }
    }
  }
}
