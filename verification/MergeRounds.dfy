/**
 Rounds of merging rules that differ in one digit. They keep what all the rules of one output cover, but move rules back
 behind ones they used to precede: a key gets the output of the first merged rule around the one that used to decide it.
 */
module MergeRounds {
  import opened Wrappers
  import opened FiniteSets
  import opened Ternary
  import opened Classes

  // ---------- Rules ----------

  /** Every key of `r` is one of `q`. */
  predicate Within(r: seq<Cell>, q: seq<Cell>) {
    |r| == |q| && forall i | 0 <= i < |r| :: q[i] == Star || q[i] == r[i]
  }

  function BitMask(r: seq<Cell>): set<nat> {
    set i: nat | i < |r| && r[i] == Star
  }

  /** Stars in the same places, and one digit that differs. */
  ghost predicate PairAt(r: seq<Cell>, q: seq<Cell>, d: nat) {
    d < |r| == |q| && r[d] != Star && q[d] != Star && r[d] != q[d] && forall i | 0 <= i < |r| && i != d :: r[i] == q[i]
  }

  ghost predicate Partners(r: seq<Cell>, q: seq<Cell>) {
    exists d: nat :: PairAt(r, q, d)
  }

  /** A star wherever the rules differ. */
  function Joined(r: seq<Cell>, q: seq<Cell>): (m: seq<Cell>)
    requires |r| == |q|
    ensures |m| == |r|
  {
    seq(|r|, i requires 0 <= i < |r| => if r[i] == q[i] then r[i] else Star)
  }

  lemma JoinedAt(r: seq<Cell>, q: seq<Cell>, d: nat)
    requires PairAt(r, q, d)
    ensures Joined(r, q) == r[d := Star] == q[d := Star] == Joined(q, r) && PairAt(q, r, d)
    ensures Within(r, Joined(r, q)) && Within(q, Joined(r, q))
  {
  }

  /** The joined rule matches the keys of both, and no other. */
  lemma JoinedMatches(r: seq<Cell>, q: seq<Cell>, d: nat, h: seq<bool>)
    requires PairAt(r, q, d)
    ensures MatchesKey(Joined(r, q), h) <==> MatchesKey(r, h) || MatchesKey(q, h)
  {
    JoinedAt(r, q, d);
    var m := Joined(r, q);
    if MatchesKey(m, h) {
      var x := if MatchesCell(r[d], h[d]) then r else q;
      forall i | 0 <= i < |x| ensures MatchesCell(x[i], h[i]) {
        assert MatchesCell(m[i], h[i]);
      }
    }
    if MatchesKey(r, h) || MatchesKey(q, h) {
      var x := if MatchesKey(r, h) then r else q;
      forall i | 0 <= i < |m| ensures MatchesCell(m[i], h[i]) {
        assert MatchesCell(x[i], h[i]);
      }
    }
  }

  lemma WithinMatches(r: seq<Cell>, q: seq<Cell>, h: seq<bool>)
    requires Within(r, q) && MatchesKey(r, h)
    ensures MatchesKey(q, h)
  {
    forall i | 0 <= i < |q| ensures MatchesCell(q[i], h[i]) {
      assert MatchesCell(r[i], h[i]);
    }
  }

  lemma WithinTrans(a: seq<Cell>, b: seq<Cell>, c: seq<Cell>)
    requires Within(a, b) && Within(b, c)
    ensures Within(a, c)
  {
    assert forall i | 0 <= i < |a| :: b[i] == Star || b[i] == a[i];
  }

  /** A key of the rule. */
  ghost function KeyOf(r: seq<Cell>): (h: seq<bool>)
    ensures MatchesKey(r, h)
  {
    seq(|r|, i requires 0 <= i < |r| => r[i] == One)
  }

  /** The place behind the last digit. */
  ghost function Ends(r: seq<Cell>): (n: nat)
    ensures n <= |r| && (n > 0 ==> r[n - 1] != Star) && forall i | n <= i < |r| :: r[i] == Star
  {
    if r == [] || r[|r| - 1] != Star then |r| else Ends(r[..|r| - 1])
  }

  lemma EndsIs(r: seq<Cell>, n: nat)
    requires n <= |r| && (n > 0 ==> r[n - 1] != Star) && forall i | n <= i < |r| :: r[i] == Star
    ensures Ends(r) == n
  {
  }

  ghost function Digit(bit: bool): Cell {
    if bit then One else Zero
  }

  /** The digits of a prefix rule come first, and are those of every key it matches. */
  lemma PrefixDigits(r: seq<Cell>, h: seq<bool>)
    requires IsPrefixRule(r) && MatchesKey(r, h)
    ensures forall i | 0 <= i < |r| :: r[i] == if i < Ends(r) then Digit(h[i]) else Star
  {
    forall i | 0 <= i < |r| ensures r[i] == if i < Ends(r) then Digit(h[i]) else Star {
      assert MatchesCell(r[i], h[i]);
      if i < Ends(r) {
        assert r[Ends(r) - 1] != Star && r[i] != Star;
      }
    }
  }

  /** Of two prefix rules with a key in common, the longer one is inside the shorter one. */
  lemma PrefixNested(r: seq<Cell>, q: seq<Cell>, h: seq<bool>)
    requires IsPrefixRule(r) && IsPrefixRule(q) && MatchesKey(r, h) && MatchesKey(q, h) && Ends(r) >= Ends(q)
    ensures Within(r, q) && (Ends(r) == Ends(q) ==> r == q)
  {
    hide IsPrefixRule, Ends;
    PrefixDigits(r, h);
    PrefixDigits(q, h);
  }

  // ---------- Rounds of merging ----------

  /** Same output, and one digit apart. */
  ghost predicate Allied<O>(e: Entry<O>, f: Entry<O>) {
    e.output == f.output && Partners(e.rule, f.rule)
  }

  function Union<O>(e: Entry<O>, f: Entry<O>): Entry<O>
    requires |e.rule| == |f.rule|
  {
    Entry(Joined(e.rule, f.rule), e.output)
  }

  ghost predicate Stays<O>(s: set<Entry<O>>, e: Entry<O>) {
    e in s && forall f <- s :: !Allied(e, f)
  }

  /** One round: allied rules are merged, two by two in every way, and the others stay. */
  ghost function Round<O>(s: set<Entry<O>>): (r: set<Entry<O>>) {
    (set e <- s | Stays(s, e)) + (set e, f | e in s && f in s && Allied(e, f) :: Union(e, f))
  }

  ghost function Rounds<O>(s: set<Entry<O>>, n: nat): set<Entry<O>>
    decreases n
  {
    if n == 0 then s else Rounds(Round(s), n - 1)
  }

  lemma {:induction false} StableRounds<O>(s: set<Entry<O>>, n: nat)
    requires Round(s) == s
    ensures Rounds(s, n) == s
    decreases n
  {
    hide Round;
    if n == 0 {
    } else {
      StableRounds(s, n - 1);
    }
  }

  ghost predicate NoAllies<O>(s: set<Entry<O>>) {
    forall e, f | e in s && f in s :: !Allied(e, f)
  }

  lemma NoAlliesStable<O>(s: set<Entry<O>>)
    requires NoAllies(s)
    ensures Round(s) == s
  {
    hide Partners;
    forall e <- s ensures Stays(s, e) {
    }
  }

  /** How an entry came into a round. */
  lemma FromRound<O>(s: set<Entry<O>>, e: Entry<O>) returns (x: Entry<O>, y: Entry<O>)
    requires e in Round(s)
    ensures Stays(s, e) || (x in s && y in s && Allied(x, y) && e == Union(x, y))
  {
    if Stays(s, e) {
      x, y := e, e;
    } else {
      x, y :| x in s && y in s && Allied(x, y) && e == Union(x, y);
    }
  }

  lemma IntoRound<O>(s: set<Entry<O>>, e: Entry<O>)
    requires e in s
    ensures if Stays(s, e) then e in Round(s) else exists f <- s :: Allied(e, f) && Union(e, f) in Round(s)
  {
    if !Stays(s, e) {
      var f :| f in s && Allied(e, f);
      assert Union(e, f) in Round(s);
    }
  }

  lemma UnionInRound<O>(s: set<Entry<O>>, x: Entry<O>, y: Entry<O>)
    requires x in s && y in s && Allied(x, y)
    ensures Union(x, y) in Round(s)
  {
  }

  /** The merged rules of a round. */
  ghost function Unions<O>(s: set<Entry<O>>): set<Entry<O>> {
    set e, f | e in s && f in s && Allied(e, f) :: Union(e, f)
  }

  ghost function Stayers<O>(s: set<Entry<O>>): set<Entry<O>> {
    set e <- s | Stays(s, e)
  }

  /** A round makes a set of rules larger exactly if the new merged rules are more than the rules that have an ally. */
  lemma RoundGrows<O>(s: set<Entry<O>>)
    ensures |Round(s)| > |s| <==> |Unions(s) - Stayers(s)| > |s - Stayers(s)|
  {
    hide Allied, Union;
    assert Round(s) == Stayers(s) + (Unions(s) - Stayers(s));
    assert s == Stayers(s) + (s - Stayers(s));
  }

  lemma JoinedMask(r: seq<Cell>, q: seq<Cell>, d: nat)
    requires PairAt(r, q, d)
    ensures BitMask(q) == BitMask(r) && BitMask(Joined(r, q)) == BitMask(r) + {d} && |BitMask(Joined(r, q))| == |BitMask(r)| + 1
    ensures |BitMask(r)| < |r|
  {
    JoinedAt(r, q, d);
    hide Joined;
    assert BitMask(Joined(r, q)) == BitMask(r) + {d};
    MaskSize(Joined(r, q));
  }

  lemma MaskSize(r: seq<Cell>)
    ensures |BitMask(r)| <= |r|
  {
    SubsetSize(BitMask(r), Below(|r|));
  }

  /** A table that a round leaves as it is has no allied rules. */
  lemma {:induction false} NoAlliesLeft<O>(s: set<Entry<O>>, e: Entry<O>, f: Entry<O>)
    requires Round(s) == s && e in s && f in s
    ensures !Allied(e, f)
    decreases |BitMask(e.rule)|
  {
    if Allied(e, f) {
      hide Round, BitMask, Joined;
      var x, y := FromRound(s, e);
      var c: nat :| PairAt(x.rule, y.rule, c);
      JoinedMask(x.rule, y.rule, c);
      NoAlliesLeft(s, x, y);
    }
  }

  // ---------- What the rounds keep ----------

  /** `h` is the key of a rule of `T` with the output of `e`, inside `e`, and with its last digit in the same place. */
  ghost predicate Based<O>(T: Table<O>, e: Entry<O>, h: seq<bool>) {
    exists t <- T :: IsBase(t, e, h)
  }

  ghost predicate IsBase<O>(t: Entry<O>, e: Entry<O>, h: seq<bool>) {
    t.output == e.output && MatchesKey(t.rule, h) && Within(t.rule, e.rule) && Ends(t.rule) == Ends(e.rule)
  }

  /** `e` has the output of `t`, and all its keys. */
  ghost predicate Holds<O>(s: set<Entry<O>>, t: Entry<O>) {
    exists e <- s :: e.output == t.output && Within(t.rule, e.rule)
  }

  /** The rules of `s` cover, output by output, the keys of the rules of `T`, each of them whole. */
  ghost predicate Stage<O>(T: Table<O>, s: set<Entry<O>>, b: nat) {
    && (forall e <- s :: |e.rule| == b)
    && (forall e, h: seq<bool> | e in s && MatchesKey(e.rule, h) :: Based(T, e, h))
    && (forall t <- T :: Holds(s, t))
  }

  /** Of the rules that match `h`, rule `i` is the first. */
  ghost predicate Decides<O>(T: Table<O>, i: nat, h: seq<bool>)
    requires i < |T|
  {
    MatchesKey(T[i].rule, h) && forall j | 0 <= j < i :: !MatchesKey(T[j].rule, h)
  }

  ghost predicate DecidesSome<O>(T: Table<O>, i: nat)
    requires i < |T|
  {
    exists h :: Decides(T, i, h)
  }

  ghost predicate Tight<O>(T: Table<O>) {
    forall i: nat | i < |T| :: DecidesSome(T, i)
  }

  /** No two rules are the halves of one prefix with one output. */
  ghost predicate NoSiblings<O>(T: Table<O>) {
    forall t, u | t in T && u in T && t.output == u.output && Ends(t.rule) > 0 :: !PairAt(t.rule, u.rule, Ends(t.rule) - 1)
  }

  /** A table of prefix rules without waste. */
  ghost predicate Lean<O>(T: Table<Option<O>>, b: nat) {
    Plain(T, b) && AllPrefixes(T) && Tight(T) && NoSiblings(T)
  }

  lemma StartStage<O>(T: Table<Option<O>>, b: nat)
    requires Width(T, b)
    ensures Stage(T, Elems(T), b)
  {
    hide MatchesKey, Ends, Within;
    forall e, h: seq<bool> | e in Elems(T) && MatchesKey(e.rule, h) ensures Based(T, e, h) {
      WithinItself(e.rule);
      assert IsBase(e, e, h);
    }
    forall t <- T ensures Holds(Elems(T), t) {
      WithinItself(t.rule);
      assert t in Elems(T);
    }
  }

  lemma ElemsWidth<O>(T: Table<Option<O>>, S: Table<Option<O>>, b: nat)
    requires Stage(T, Elems(S), b)
    ensures Width(S, b)
  {
    assert forall e <- S :: e in Elems(S);
  }

  lemma WithinItself(r: seq<Cell>)
    ensures Within(r, r)
  {
  }

  /** Allied rules do not differ in their last digits: there would be two halves of one prefix in `T`. */
  lemma NotTheLast<O>(T: Table<Option<O>>, b: nat, s: set<Entry<Option<O>>>, x: Entry<Option<O>>, y: Entry<Option<O>>, d: nat)
    requires Lean(T, b) && Stage(T, s, b) && x in s && y in s && x.output == y.output && PairAt(x.rule, y.rule, d)
    ensures d + 1 < Ends(x.rule) == Ends(y.rule)
  {
    hide MatchesKey, IsPrefixRule, Within, Ends, KeyOf;
    SameEnds(x.rule, y.rule, d);
    if d + 1 == Ends(x.rule) {
      var h, k := KeyOf(x.rule), KeyOf(y.rule);
      assert Based(T, x, h) && Based(T, y, k);
      var t :| t in T && IsBase(t, x, h);
      var u :| u in T && IsBase(u, y, k);
      HalvesPair(t.rule, u.rule, x.rule, y.rule, d);
    }
  }

  lemma SameEnds(x: seq<Cell>, y: seq<Cell>, d: nat)
    requires PairAt(x, y, d)
    ensures d < Ends(x) == Ends(y)
  {
    EndsIs(y, Ends(x));
  }

  lemma HalvesPair(t: seq<Cell>, u: seq<Cell>, x: seq<Cell>, y: seq<Cell>, d: nat)
    requires IsPrefixRule(t) && IsPrefixRule(u) && MatchesKey(t, KeyOf(x)) && MatchesKey(u, KeyOf(y))
    requires PairAt(x, y, d) && Ends(t) == Ends(u) == d + 1
    ensures PairAt(t, u, Ends(t) - 1)
  {
    PrefixDigits(t, KeyOf(x));
    PrefixDigits(u, KeyOf(y));
  }

  lemma UnionBased<O>(T: Table<Option<O>>, b: nat, s: set<Entry<Option<O>>>, x: Entry<Option<O>>, y: Entry<Option<O>>, h: seq<bool>)
    requires Lean(T, b) && Stage(T, s, b) && x in s && y in s && Allied(x, y) && MatchesKey(Joined(x.rule, y.rule), h)
    ensures Based(T, Union(x, y), h)
  {
    hide Lean, MatchesKey, Within, Joined, Ends;
    var d: nat :| PairAt(x.rule, y.rule, d);
    JoinedMatches(x.rule, y.rule, d, h);
    JoinedAt(x.rule, y.rule, d);
    NotTheLast(T, b, s, x, y, d);
    EndsIs(Joined(x.rule, y.rule), Ends(x.rule));
    var z := if MatchesKey(x.rule, h) then x else y;
    assert Based(T, z, h);
    var t :| t in T && IsBase(t, z, h);
    WithinTrans(t.rule, z.rule, Joined(x.rule, y.rule));
    assert IsBase(t, Union(x, y), h);
  }

  lemma RoundHolds<O>(s: set<Entry<O>>, t: Entry<O>)
    requires Holds(s, t)
    ensures Holds(Round(s), t)
  {
    hide Round, Within, Joined, Stays;
    var e :| e in s && e.output == t.output && Within(t.rule, e.rule);
    IntoRound(s, e);
    if Stays(s, e) {
      assert e in Round(s);
    } else {
      var f :| f in s && Allied(e, f) && Union(e, f) in Round(s);
      var d: nat :| PairAt(e.rule, f.rule, d);
      JoinedAt(e.rule, f.rule, d);
      WithinTrans(t.rule, e.rule, Joined(e.rule, f.rule));
    }
  }

  lemma RoundStage<O>(T: Table<Option<O>>, b: nat, s: set<Entry<Option<O>>>)
    requires Lean(T, b) && Stage(T, s, b)
    ensures Stage(T, Round(s), b)
  {
    hide Lean, MatchesKey, Within, Round, Based, Holds, Stays;
    forall e | e in Round(s) ensures |e.rule| == b && forall h: seq<bool> | MatchesKey(e.rule, h) :: Based(T, e, h) {
      var x, y := FromRound(s, e);
      if !Stays(s, e) {
        forall h: seq<bool> | MatchesKey(e.rule, h) ensures Based(T, e, h) {
          UnionBased(T, b, s, x, y, h);
        }
      } else {
        StaysIn(s, e);
      }
    }
    forall t <- T ensures Holds(Round(s), t) {
      RoundHolds(s, t);
    }
  }

  lemma StaysIn<O>(s: set<Entry<O>>, e: Entry<O>)
    requires Stays(s, e)
    ensures e in s
  {
  }

  lemma {:induction false} RoundsStage<O>(T: Table<Option<O>>, b: nat, s: set<Entry<Option<O>>>, n: nat)
    requires Lean(T, b) && Stage(T, s, b)
    ensures Stage(T, Rounds(s, n), b)
    decreases n
  {
    hide Lean, Stage, Round;
    if n > 0 {
      RoundStage(T, b, s);
      RoundsStage(T, b, Round(s), n - 1);
    } else {
    }
  }

  /** Equal rules of one stage have the same output. */
  lemma NoClash<O>(T: Table<Option<O>>, b: nat, s: set<Entry<Option<O>>>, e: Entry<Option<O>>, f: Entry<Option<O>>)
    requires Lean(T, b) && Stage(T, s, b) && e in s && f in s && e.rule == f.rule
    ensures e == f
  {
    hide MatchesKey, Within, Ends, IsPrefixRule, KeyOf, NoSiblings, Tight;
    var h := KeyOf(e.rule);
    assert Based(T, e, h) && Based(T, f, h);
    var t :| t in T && IsBase(t, e, h);
    var u :| u in T && IsBase(u, f, h);
    PrefixNested(t.rule, u.rule, h);
    var i: nat, j: nat :| i < |T| && j < |T| && T[i] == t && T[j] == u;
    WithinItself(t.rule);
    if i < j {
      OnceEach(T, i, j);
    } else if j < i {
      OnceEach(T, j, i);
    }
  }

  lemma OnceEach<O>(T: Table<O>, i: nat, j: nat)
    requires Tight(T) && i < j < |T|
    ensures !Within(T[j].rule, T[i].rule)
  {
    hide Within, MatchesKey;
    assert DecidesSome(T, j);
    var h :| Decides(T, j, h);
    if Within(T[j].rule, T[i].rule) {
      WithinMatches(T[j].rule, T[i].rule, h);
      assert false;
    }
  }

  // ---------- When the classes stay ----------

  /** The output of the first rule that holds all keys of `r`. */
  function Around<O>(table: Table<Option<O>>, r: seq<Cell>): Option<O> {
    if table == [] then None
    else if Within(r, table[0].rule) then table[0].output
    else Around(table[1..], r)
  }

  /** What matches a key that rule `i` decides holds all of that rule. */
  lemma HoldsAll<O>(T: Table<Option<O>>, b: nat, s: set<Entry<Option<O>>>, i: nat, h: seq<bool>, e: Entry<Option<O>>)
    requires Lean(T, b) && Stage(T, s, b) && i < |T| && Decides(T, i, h) && e in s
    ensures MatchesKey(e.rule, h) <==> Within(T[i].rule, e.rule)
  {
    hide MatchesKey, Within, Ends, IsPrefixRule, NoSiblings, Tight;
    var r := T[i];
    assert r in T;
    if Within(r.rule, e.rule) {
      WithinMatches(r.rule, e.rule, h);
    }
    if MatchesKey(e.rule, h) {
      assert Based(T, e, h);
      var t :| t in T && IsBase(t, e, h);
      var j: nat :| j < |T| && T[j] == t;
      if Ends(r.rule) < Ends(t.rule) {
        PrefixNested(t.rule, r.rule, h);
        WithinItself(r.rule);
        OnceEach(T, i, j);
      } else {
        PrefixNested(r.rule, t.rule, h);
        WithinTrans(r.rule, t.rule, e.rule);
      }
    }
  }

  lemma {:induction false} ClassifyAround<O>(out: Table<Option<O>>, r: seq<Cell>, h: seq<bool>)
    requires forall e <- out :: MatchesKey(e.rule, h) <==> Within(r, e.rule)
    ensures Classify(out, h) == Around(out, r)
  {
    hide MatchesKey, Within;
    if out != [] {
      assert out[0] in out;
      ClassifyAround(out[1..], r, h);
    }
  }

  lemma DecidedAround<O>(T: Table<Option<O>>, out: Table<Option<O>>, b: nat, i: nat, h: seq<bool>)
    requires Lean(T, b) && Stage(T, Elems(out), b) && i < |T| && Decides(T, i, h)
    ensures Classify(out, h) == Around(out, T[i].rule)
  {
    hide Lean, Stage, MatchesKey, Within, Around, Decides;
    forall e <- out ensures MatchesKey(e.rule, h) <==> Within(T[i].rule, e.rule) {
      HoldsAll(T, b, Elems(out), i, h, e);
    }
    ClassifyAround(out, T[i].rule, h);
  }

  /** The first rule that matches, if any. */
  lemma {:induction false} FirstMatch<O>(T: Table<Option<O>>, h: seq<bool>) returns (i: nat)
    ensures i <= |T| && forall j | 0 <= j < i :: !MatchesKey(T[j].rule, h)
    ensures if i < |T| then Decides(T, i, h) && Classify(T, h) == T[i].output else Classify(T, h).None?
  {
    hide MatchesKey;
    if T == [] || MatchesKey(T[0].rule, h) {
      i := 0;
    } else {
      var k := FirstMatch(T[1..], h);
      i := k + 1;
      forall j | 0 <= j < i ensures !MatchesKey(T[j].rule, h) {
        assert j > 0 ==> T[j] == T[1..][j - 1];
      }
    }
  }

  lemma {:induction false} NoneMatches<O>(out: Table<Option<O>>, h: seq<bool>)
    requires forall e <- out :: !MatchesKey(e.rule, h)
    ensures Classify(out, h).None?
  {
    hide MatchesKey;
    if out != [] {
      assert out[0] in out;
      NoneMatches(out[1..], h);
    } else {
    }
  }

  lemma OwnKey<O>(T: Table<Option<O>>, b: nat, i: nat) returns (h: seq<bool>)
    requires Lean(T, b) && i < |T|
    ensures |h| == b && Decides(T, i, h) && Classify(T, h) == T[i].output
  {
    assert DecidesSome(T, i) && T[i] in T;
    h :| Decides(T, i, h);
    var j := FirstMatch(T, h);
  }

  lemma MatchesNone<O>(T: Table<Option<O>>, out: Table<Option<O>>, b: nat, h: seq<bool>)
    requires Stage(T, Elems(out), b) && forall t <- T :: !MatchesKey(t.rule, h)
    ensures Classify(out, h).None?
  {
    hide MatchesKey, Within, Ends;
    forall e <- out ensures !MatchesKey(e.rule, h) {
      if MatchesKey(e.rule, h) {
        Covered(T, Elems(out), b, e, h);
      }
    }
    NoneMatches(out, h);
  }

  lemma Covered<O>(T: Table<O>, s: set<Entry<O>>, b: nat, e: Entry<O>, h: seq<bool>)
    requires Stage(T, s, b) && e in s && MatchesKey(e.rule, h)
    ensures exists t <- T :: MatchesKey(t.rule, h)
  {
    hide MatchesKey, Within, Ends;
    assert Based(T, e, h);
    var t :| t in T && IsBase(t, e, h);
  }

  /** Whatever is hidden, the same keys have an output. */
  lemma SameKeys<O(!new)>(T: Table<Option<O>>, out: Table<Option<O>>, b: nat)
    requires Lean(T, b) && Stage(T, Elems(out), b)
    ensures forall h: seq<bool> | |h| == b :: Classify(out, h).Some? <==> Classify(T, h).Some?
  {
    hide Lean, Stage, MatchesKey, Classify;
    StagePlain(T, out, b);
    forall h: seq<bool> | |h| == b ensures Classify(out, h).Some? <==> Classify(T, h).Some? {
      var i := FirstMatch(T, h);
      if i < |T| {
        MatchesSome(T, out, b, i, h);
      } else {
        MatchesNone(T, out, b, h);
      }
    }
  }

  lemma MatchesSome<O>(T: Table<Option<O>>, out: Table<Option<O>>, b: nat, i: nat, h: seq<bool>)
    requires Lean(T, b) && Stage(T, Elems(out), b) && Plain(out, b) && i < |T| && MatchesKey(T[i].rule, h)
    ensures Classify(out, h).Some? && T[i].output.Some?
  {
    hide MatchesKey, Within, Classify;
    assert T[i] in T && Holds(Elems(out), T[i]);
    var e :| e in Elems(out) && e.output == T[i].output && Within(T[i].rule, e.rule);
    WithinMatches(T[i].rule, e.rule, h);
    var j := FirstMatch(out, h);
    assert j < |out| ==> out[j] in out;
  }

  lemma StagePlain<O>(T: Table<Option<O>>, out: Table<Option<O>>, b: nat)
    requires Lean(T, b) && Stage(T, Elems(out), b)
    ensures Plain(out, b)
  {
    hide MatchesKey, Within, Ends, KeyOf;
    forall e <- out ensures |e.rule| == b && e.output.Some? {
      assert e in Elems(out) && Based(T, e, KeyOf(e.rule));
    }
  }

  // ---------- A minimal table has no waste ----------

  lemma WithoutRule<O>(T: Table<Option<O>>, b: nat, i: nat, h: seq<bool>)
    requires Plain(T, b) && i < |T| && !Decides(T, i, h)
    ensures Classify(T[..i] + T[i + 1..], h) == Classify(T, h)
  {
    hide MatchesKey, Classify;
    SplitAt(T, i);
    ClassifyConcat(T[..i], T[i + 1..], h);
    ClassifyConcat(T[..i], [T[i]] + T[i + 1..], h);
    OneMore(T[i], T[i + 1..], h);
    if MatchesKey(T[i].rule, h) {
      var k := FirstMatch(T[..i], h);
      var j :| 0 <= j < i && MatchesKey(T[j].rule, h);
      assert T[..i][j] == T[j];
      assert T[..i][k] in T;
    }
  }

  lemma OneMore<O>(e: Entry<Option<O>>, rest: Table<Option<O>>, h: seq<bool>)
    ensures Classify([e] + rest, h) == if MatchesKey(e.rule, h) then e.output else Classify(rest, h)
  {
    hide MatchesKey;
    assert ([e] + rest)[1..] == rest;
  }

  lemma SplitAt<T>(s: seq<T>, i: nat)
    requires i < |s|
    ensures s == s[..i] + ([s[i]] + s[i + 1..])
  {
  }

  lemma LeftOut<O(!new)>(T: Table<Option<O>>, b: nat, i: nat)
    requires Plain(T, b) && AllPrefixes(T) && i < |T| && !DecidesSome(T, i)
    ensures Rival(T[..i] + T[i + 1..], T, b)
  {
    hide Classify, MatchesKey, IsPrefixRule, Decides;
    var o := T[..i] + T[i + 1..];
    forall h: seq<bool> | |h| == b ensures Classify(o, h) == Classify(T, h) {
      WithoutRule(T, b, i, h);
    }
  }

  /** A rule that decides no key could be left out. */
  lemma FewestIsTight<O(!new)>(T: Table<Option<O>>, b: nat)
    requires Plain(T, b) && AllPrefixes(T) && Fewest(|T|, T, b)
    ensures Tight(T)
  {
    hide Rival, Plain, AllPrefixes, DecidesSome;
    forall i: nat | i < |T| ensures DecidesSome(T, i) {
      if !DecidesSome(T, i) {
        LeftOut(T, b, i);
      }
    }
  }

  /** No rule between the halves of a prefix matches a key of the first half: it would leave one half nothing to decide. */
  lemma NothingBetween<O>(T: Table<Option<O>>, b: nat, i: nat, j: nat, k: nat, h: seq<bool>)
    requires Plain(T, b) && AllPrefixes(T) && Tight(T) && i < k < j < |T| && MatchesKey(T[i].rule, h)
    requires Ends(T[i].rule) > 0 && PairAt(T[i].rule, T[j].rule, Ends(T[i].rule) - 1)
    ensures !MatchesKey(T[k].rule, h)
  {
    hide MatchesKey, IsPrefixRule, Ends, Tight;
    assert T[i] in T && T[j] in T && T[k] in T;
    if MatchesKey(T[k].rule, h) {
      if Ends(T[k].rule) >= Ends(T[i].rule) {
        PrefixNested(T[k].rule, T[i].rule, h);
        OnceEach(T, i, k);
      } else {
        PrefixNested(T[i].rule, T[k].rule, h);
        assert Within(T[j].rule, T[k].rule);
        OnceEach(T, k, j);
      }
    }
  }

  /** The halves of a prefix could be one rule. */
  function Fused<O>(T: Table<O>, i: nat, j: nat): (o: Table<O>)
    requires i < j < |T| && |T[i].rule| == |T[j].rule|
    ensures |o| == |T| - 1
  {
    T[..i] + (T[i + 1..j] + ([Union(T[i], T[j])] + T[j + 1..]))
  }

  lemma FusedClassifies<O>(T: Table<Option<O>>, b: nat, i: nat, j: nat, h: seq<bool>)
    requires Plain(T, b) && AllPrefixes(T) && Tight(T) && i < j < |T| && T[i].output == T[j].output
    requires Ends(T[i].rule) > 0 && PairAt(T[i].rule, T[j].rule, Ends(T[i].rule) - 1)
    ensures Classify(Fused(T, i, j), h) == Classify(T, h)
  {
    hide MatchesKey, IsPrefixRule, Ends, Tight, Classify, AllPrefixes;
    var mid, rest := T[i + 1..j], T[j + 1..];
    assert T == T[..i] + ([T[i]] + (mid + ([T[j]] + rest)));
    assert forall e <- T[..i] + mid :: e in T;
    ClassifyConcat(T[..i], [T[i]] + (mid + ([T[j]] + rest)), h);
    ClassifyConcat(T[..i], mid + ([Union(T[i], T[j])] + rest), h);
    OneMore(T[i], mid + ([T[j]] + rest), h);
    ClassifyConcat(mid, [T[j]] + rest, h);
    ClassifyConcat(mid, [Union(T[i], T[j])] + rest, h);
    OneMore(T[j], rest, h);
    OneMore(Union(T[i], T[j]), rest, h);
    JoinedMatches(T[i].rule, T[j].rule, Ends(T[i].rule) - 1, h);
    if MatchesKey(T[i].rule, h) {
      forall e <- mid ensures !MatchesKey(e.rule, h) {
        var k :| i < k < j && T[k] == e;
        NothingBetween(T, b, i, j, k, h);
      }
      NoneMatches(mid, h);
    }
  }

  lemma FusedRival<O(!new)>(T: Table<Option<O>>, b: nat, i: nat, j: nat)
    requires Plain(T, b) && AllPrefixes(T) && Tight(T) && i < j < |T| && T[i].output == T[j].output
    requires Ends(T[i].rule) > 0 && PairAt(T[i].rule, T[j].rule, Ends(T[i].rule) - 1)
    ensures Rival(Fused(T, i, j), T, b)
  {
    hide MatchesKey, Ends, Tight, Classify;
    assert T[i] in T && T[j] in T;
    JoinedAt(T[i].rule, T[j].rule, Ends(T[i].rule) - 1);
    HalfPrefix(T[i].rule, T[j].rule);
    forall h: seq<bool> | |h| == b ensures Classify(Fused(T, i, j), h) == Classify(T, h) {
      FusedClassifies(T, b, i, j, h);
    }
    forall e <- Fused(T, i, j) ensures |e.rule| == b && e.output.Some? && IsPrefixRule(e.rule) {
      assert e == Union(T[i], T[j]) || e in T;
    }
  }

  lemma HalfPrefix(r: seq<Cell>, q: seq<Cell>)
    requires IsPrefixRule(r) && Ends(r) > 0 && PairAt(r, q, Ends(r) - 1)
    ensures IsPrefixRule(Joined(r, q))
  {
    PrefixDigits(r, KeyOf(r));
  }

  /** What is minimal has no waste. */
  lemma FewestIsLean<O(!new)>(T: Table<Option<O>>, b: nat)
    requires Plain(T, b) && AllPrefixes(T) && Fewest(|T|, T, b)
    ensures Lean(T, b)
  {
    hide Rival, Plain, AllPrefixes, Tight, Ends, PairAt, Fused;
    FewestIsTight(T, b);
    forall t, u | t in T && u in T && t.output == u.output && Ends(t.rule) > 0 ensures !PairAt(t.rule, u.rule, Ends(t.rule) - 1) {
      if PairAt(t.rule, u.rule, Ends(t.rule) - 1) {
        var i: nat, j: nat :| i < |T| && j < |T| && T[i] == t && T[j] == u;
        PairFused(T, b, i, j);
      }
    }
  }

  lemma PairFused<O(!new)>(T: Table<Option<O>>, b: nat, i: nat, j: nat)
    requires Plain(T, b) && AllPrefixes(T) && Tight(T) && i < |T| && j < |T| && T[i].output == T[j].output
    requires Ends(T[i].rule) > 0 && PairAt(T[i].rule, T[j].rule, Ends(T[i].rule) - 1)
    ensures exists o :: Rival(o, T, b) && |o| < |T|
  {
    hide Rival, Plain, AllPrefixes, Tight, Ends;
    if i < j {
      FusedRival(T, b, i, j);
    } else {
      JoinedAt(T[i].rule, T[j].rule, Ends(T[i].rule) - 1);
      SameEnds(T[i].rule, T[j].rule, Ends(T[i].rule) - 1);
      FusedRival(T, b, j, i);
    }
  }
}
