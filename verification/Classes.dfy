/** What a ternary table does to keys: the first rule that matches decides. */
module Classes {
  import opened Wrappers
  import opened Ternary

  predicate MatchesCell(c: Cell, bit: bool) {
    c == Star || c == if bit then One else Zero
  }

  ghost predicate MatchesKey(r: seq<Cell>, h: seq<bool>) {
    |r| == |h| && forall i | 0 <= i < |r| :: MatchesCell(r[i], h[i])
  }

  /** The output of the first rule that matches; no output when none does. */
  ghost function Classify<O>(table: Table<Option<O>>, h: seq<bool>): Option<O> {
    if table == [] then None
    else if MatchesKey(table[0].rule, h) then table[0].output
    else Classify(table[1..], h)
  }

  lemma MatchesRest(r: seq<Cell>, h: seq<bool>)
    requires |r| == |h| > 0
    ensures MatchesKey(r, h) <==> MatchesCell(r[0], h[0]) && MatchesKey(r[1..], h[1..])
  {
    if MatchesCell(r[0], h[0]) && MatchesKey(r[1..], h[1..]) {
      forall i | 0 <= i < |r| ensures MatchesCell(r[i], h[i]) {
        assert i > 0 ==> MatchesCell(r[1..][i - 1], h[1..][i - 1]);
      }
    }
    if MatchesKey(r, h) {
      forall i | 0 <= i < |r[1..]| ensures MatchesCell(r[1..][i], h[1..][i]) {
        assert MatchesCell(r[i + 1], h[i + 1]);
      }
    }
  }

  /** Same width, and outputs throughout. */
  ghost predicate Plain<O>(table: Table<Option<O>>, b: nat) {
    Width(table, b) && forall e <- table :: e.output.Some?
  }

  ghost predicate SameClasses<O(!new)>(a: Table<Option<O>>, c: Table<Option<O>>, b: nat) {
    forall h: seq<bool> | |h| == b :: Classify(a, h) == Classify(c, h)
  }

  ghost predicate AllPrefixes<O>(table: Table<Option<O>>) {
    forall e <- table :: IsPrefixRule(e.rule)
  }

  /** A table of prefix rules, with whatever outputs, that does the same. */
  ghost predicate Rival<O(!new)>(o: Table<Option<O>>, table: Table<Option<O>>, b: nat) {
    Plain(o, b) && AllPrefixes(o) && SameClasses(o, table, b)
  }

  ghost predicate Fewest<O(!new)>(n: nat, table: Table<Option<O>>, b: nat) {
    forall o: Table<Option<O>> | Rival(o, table, b) :: n <= |o|
  }

  lemma {:induction false} ClassifyIn<O>(table: Table<Option<O>>, h: seq<bool>)
    ensures Classify(table, h) == None || exists e <- table :: e.output == Classify(table, h)
  {
    if table != [] {
      if MatchesKey(table[0].rule, h) {
        assert table[0] in table;
      } else {
        ClassifyIn(table[1..], h);
        assert forall e <- table[1..] :: e in table;
      }
    }
  }

  lemma PlainFacts<O>(table: Table<Option<O>>, b: nat)
    requires Plain(table, b)
    ensures Width(table, b)
  {
  }

  /** First match goes through the first table, then through the second. */
  lemma {:induction false} ClassifyConcat<O>(a: Table<Option<O>>, c: Table<Option<O>>, h: seq<bool>)
    requires forall e <- a :: e.output.Some?
    ensures Classify(a + c, h) == if Classify(a, h).Some? then Classify(a, h) else Classify(c, h)
    decreases |a|
  {
    if a == [] {
      assert a + c == c;
    } else {
      assert (a + c)[1..] == a[1..] + c && a[0] in a;
      ClassifyConcat(a[1..], c, h);
    }
  }
}
