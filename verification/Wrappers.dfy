/** An optional value, and what is said of sequences throughout. */
module Wrappers {
  datatype Option<+T> = None | Some(value: T)

  function Elems<T(==)>(s: seq<T>): set<T> {
    set x <- s
  }

  ghost predicate NoDup<T>(s: seq<T>) {
    forall i, j | 0 <= i < j < |s| :: s[i] != s[j]
  }

  function Reversed<T>(s: seq<T>): (r: seq<T>)
    ensures |r| == |s|
  {
    if s == [] then [] else Reversed(s[1..]) + [s[0]]
  }

  lemma {:induction false} ReversedSnoc<T>(s: seq<T>, x: T)
    ensures Reversed(s + [x]) == [x] + Reversed(s)
  {
    if s == [] {
    } else {
      assert (s + [x])[1..] == s[1..] + [x];
      ReversedSnoc(s[1..], x);
    }
  }

  lemma {:induction false} ReversedElems<T>(s: seq<T>)
    ensures (forall x <- Reversed(s) :: x in s) && (forall x <- s :: x in Reversed(s))
  {
    if s != [] {
      ReversedElems(s[1..]);
      assert s == [s[0]] + s[1..];
    } else {
    }
  }
}
