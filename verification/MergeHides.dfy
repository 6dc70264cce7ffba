/**
 What merging does to a table, told from the table alone: which rules it hides behind maximal cubes of other outputs, and
 how many rules come out. Merging keeps a key's class exactly when the rule that decides the key is not hidden.
 */
module MergeHides {
  import opened Wrappers
  import opened Ternary
  import opened Classes
  import opened MergeRounds
  import opened MaxCubes
  import opened RuleOrder
  import opened BitMerge

  // ---------- Hidden rules ----------

  /** `e` is a maximal cube of another output around `t`, and comes before each one of the output of `t`. */
  ghost predicate Hides<O(!new)>(T: Table<O>, b: nat, t: Entry<O>, e: Entry<O>) {
    && MaxCube(T, b, e) && Within(t.rule, e.rule) && e.output != t.output
    && forall f | MaxCube(T, b, f) && Within(t.rule, f.rule) && f.output == t.output :: !Ordered(f.rule, e.rule)
  }

  ghost predicate Hidden<O(!new)>(T: Table<O>, b: nat, t: Entry<O>) {
    exists e :: Hides(T, b, t, e)
  }

  lemma {:induction false} CopiesPositive(j: nat)
    ensures Copies(j) > 0
  {
    if j > 0 {
      CopiesPositive(j - 1);
      PositiveProduct(Copies(j - 1), Copies(j - 1));
      PositiveProduct(j, Copies(j - 1) * Copies(j - 1));
    } else {
    }
  }

  /** The entries of the merged table are the maximal cubes. */
  lemma MergedCube<O(!new)>(T: Table<O>, out: Table<O>, b: nat, e: Entry<O>)
    requires Merged(T, b, out)
    ensures e in out <==> MaxCube(T, b, e)
  {
    hide Sorted, Copies, Inner, MaxCube;
    CopiesPositive(|Inner(e.rule)|);
    assert multiset(out)[e] == if MaxCube(T, b, e) then Copies(|Inner(e.rule)|) else 0;
  }

  lemma MergedStage<O(!new)>(T: Table<Option<O>>, out: Table<Option<O>>, b: nat)
    requires Lean(T, b) && Merged(T, b, out)
    ensures Elems(out) == Rounds(Elems(T), b) && Stage(T, Elems(out), b)
  {
    hide Lean, Merged, MaxCube, Stage, Rounds;
    forall e ensures e in Elems(out) <==> e in Rounds(Elems(T), b) {
      MergedCube(T, out, b, e);
      MergedAreMaxCubes(T, b, e);
    }
    LeanWidth(T, b);
    StartStage(T, b);
    RoundsStage(T, b, Elems(T), b);
  }

  lemma {:induction false} FirstAround<O>(out: Table<Option<O>>, e: Entry<Option<O>>, r: seq<Cell>) returns (i: nat)
    requires e in out && Within(r, e.rule)
    ensures i < |out| && Within(r, out[i].rule) && Around(out, r) == out[i].output && forall j | 0 <= j < i :: !Within(r, out[j].rule)
  {
    hide Within;
    if Within(r, out[0].rule) {
      i := 0;
    } else {
      i := FirstAround(out[1..], e, r);
      i := i + 1;
    }
  }

  /** What comes first around a rule is ordered before everything around it. */
  lemma FirstOrdersAll<O>(out: Table<O>, i: nat, r: seq<Cell>, f: Entry<O>)
    requires Sorted(out) && i < |out| && (forall j | 0 <= j < i :: !Within(r, out[j].rule)) && f in out && Within(r, f.rule) && f != out[i]
    ensures Ordered(out[i].rule, f.rule)
  {
    hide Within, Ordered;
  }

  lemma StageHolds<O>(T: Table<O>, s: set<Entry<O>>, b: nat, t: Entry<O>)
    requires Stage(T, s, b) && t in T
    ensures Holds(s, t)
  {
  }

  /** The first merged rule around `t` has its output exactly when no maximal cube hides it. */
  lemma HiddenIff<O(!new)>(T: Table<Option<O>>, out: Table<Option<O>>, b: nat, t: Entry<Option<O>>)
    requires Lean(T, b) && Merged(T, b, out) && t in T
    ensures Around(out, t.rule) == t.output <==> !Hidden(T, b, t)
  {
    hide Lean, Sorted, Stage, MaxCube, Within, Ordered, Around, Copies, Inner;
    MergedStage(T, out, b);
    StageHolds(T, Elems(out), b, t);
    var e :| e in Elems(out) && e.output == t.output && Within(t.rule, e.rule);
    var i := FirstAround(out, e, t.rule);
    MergedCube(T, out, b, out[i]);
    if out[i].output != t.output {
      forall f | MaxCube(T, b, f) && Within(t.rule, f.rule) && f.output == t.output ensures !Ordered(f.rule, out[i].rule) {
        NotBefore(T, out, b, t, i, f);
      }
      assert Hides(T, b, t, out[i]);
    } else {
      forall e ensures !Hides(T, b, t, e) {
        if Hides(T, b, t, e) {
          NotHiddenBy(T, out, b, t, i, e);
        }
      }
    }
  }

  lemma NotBefore<O(!new)>(T: Table<Option<O>>, out: Table<Option<O>>, b: nat, t: Entry<Option<O>>, i: nat, f: Entry<Option<O>>)
    requires Lean(T, b) && Merged(T, b, out) && Stage(T, Elems(out), b) && i < |out| && forall j | 0 <= j < i :: !Within(t.rule, out[j].rule)
    requires MaxCube(T, b, f) && Within(t.rule, f.rule) && f.output != out[i].output
    ensures !Ordered(f.rule, out[i].rule)
  {
    hide Lean, Sorted, Stage, MaxCube, Within, Ordered, Copies, Inner;
    MergedCube(T, out, b, f);
    FirstOrdersAll(out, i, t.rule, f);
    OrderedTotal(f.rule, out[i].rule);
    if f.rule == out[i].rule {
      NoClash(T, b, Elems(out), f, out[i]);
    }
  }

  lemma NotHiddenBy<O(!new)>(T: Table<Option<O>>, out: Table<Option<O>>, b: nat, t: Entry<Option<O>>, i: nat, e: Entry<Option<O>>)
    requires Merged(T, b, out) && i < |out| && (forall j | 0 <= j < i :: !Within(t.rule, out[j].rule))
    requires Within(t.rule, out[i].rule) && out[i].output == t.output
    ensures !Hides(T, b, t, e)
  {
    hide Sorted, MaxCube, Within, Ordered, Copies, Inner;
    MergedCube(T, out, b, out[i]);
    MergedCube(T, out, b, e);
    if e in out && Within(t.rule, e.rule) && e.output != t.output {
      FirstOrdersAll(out, i, t.rule, e);
    }
  }

  // ---------- When the classes stay ----------

  /** A key keeps its class exactly when the rule that decides it is not hidden. */
  lemma KeyKept<O(!new)>(T: Table<Option<O>>, out: Table<Option<O>>, b: nat, i: nat, h: seq<bool>)
    requires Lean(T, b) && Merged(T, b, out) && i < |T| && Decides(T, i, h)
    ensures Classify(out, h) == Classify(T, h) <==> !Hidden(T, b, T[i])
  {
    hide Lean, Stage, Merged, Around, Classify, Hidden, MatchesKey;
    MergedStage(T, out, b);
    DecidedAround(T, out, b, i, h);
    HiddenIff(T, out, b, T[i]);
    var j := FirstMatch(T, h);
  }

  /** A key that no rule matches has no class before and after. */
  lemma NoneKept<O(!new)>(T: Table<Option<O>>, out: Table<Option<O>>, b: nat, h: seq<bool>)
    requires Lean(T, b) && Merged(T, b, out) && forall t <- T :: !MatchesKey(t.rule, h)
    ensures Classify(out, h).None? && Classify(T, h).None?
  {
    hide Lean, Stage, Merged, Classify, MatchesKey;
    MergedStage(T, out, b);
    MatchesNone(T, out, b, h);
    NoneMatches(T, h);
  }

  /** Merging keeps every key's class exactly when no rule is hidden by a maximal cube of another output. */
  lemma KeepsClassesIff<O(!new)>(T: Table<Option<O>>, out: Table<Option<O>>, b: nat)
    requires Lean(T, b) && Merged(T, b, out)
    ensures SameClasses(out, T, b) <==> forall t <- T :: !Hidden(T, b, t)
  {
    hide Lean, Merged, Hidden, MatchesKey, Decides, Classify;
    if SameClasses(out, T, b) {
      forall t <- T ensures !Hidden(T, b, t) {
        var i: nat :| i < |T| && T[i] == t;
        var h := OwnKey(T, b, i);
        KeyKept(T, out, b, i, h);
      }
    }
    if forall t <- T :: !Hidden(T, b, t) {
      forall h: seq<bool> | |h| == b ensures Classify(out, h) == Classify(T, h) {
        var i := FirstMatch(T, h);
        if i < |T| {
          KeyKept(T, out, b, i, h);
        } else {
          NoneKept(T, out, b, h);
        }
      }
    }
  }

  // ---------- What is never hidden ----------

  /** No rule inside one of another output has an ally. */
  ghost predicate InnerAlone<O>(T: Table<Option<O>>) {
    forall t, u | t in T && u in T && Within(t.rule, u.rule) && t.output != u.output :: Stays(Elems(T), t)
  }

  /** The prefix rules of every stage are rules of `T`. */
  lemma PrefixOfStage<O>(T: Table<Option<O>>, b: nat, s: set<Entry<Option<O>>>, e: Entry<Option<O>>)
    requires Lean(T, b) && Stage(T, s, b) && e in s && IsPrefixRule(e.rule)
    ensures e in T
  {
    hide MatchesKey, Within, Ends, IsPrefixRule, KeyOf, NoSiblings, Tight;
    var h := KeyOf(e.rule);
    assert Based(T, e, h);
    var t :| t in T && IsBase(t, e, h);
    PrefixNested(t.rule, e.rule, h);
  }

  lemma PairPrefix(r: seq<Cell>, q: seq<Cell>)
    requires IsPrefixRule(r) && Partners(r, q)
    ensures IsPrefixRule(q)
  {
    var d: nat :| PairAt(r, q, d);
  }

  lemma {:induction false} AloneStays<O>(T: Table<Option<O>>, b: nat, s: set<Entry<Option<O>>>, n: nat, t: Entry<Option<O>>)
    requires Lean(T, b) && Stage(T, s, b) && t in T && t in s && Stays(Elems(T), t)
    ensures t in Rounds(s, n)
    decreases n
  {
    hide Stage, Partners, IsPrefixRule, Round, NoSiblings, Tight;
    if n > 0 {
      forall f <- s ensures !Allied(t, f) {
        if Allied(t, f) {
          PairPrefix(t.rule, f.rule);
          PrefixOfStage(T, b, s, f);
        }
      }
      IntoRound(s, t);
      RoundStage(T, b, s);
      AloneStays(T, b, Round(s), n - 1, t);
    }
  }

  /** A rule decided by the base of another one is longer than that one. */
  lemma BaseIsShorter<O>(T: Table<Option<O>>, b: nat, s: set<Entry<Option<O>>>, j: nat, f: Entry<Option<O>>) returns (u: Entry<Option<O>>)
    requires Lean(T, b) && Stage(T, s, b) && j < |T| && f in s && Within(T[j].rule, f.rule) && f.output != T[j].output
    ensures u in T && Within(T[j].rule, u.rule) && u.output == f.output && PrefixLen(T[j].rule) > PrefixLen(f.rule)
  {
    hide MatchesKey, IsPrefixRule, NoSiblings, Tight, Ends, Within;
    var h := OwnKey(T, b, j);
    WithinMatches(T[j].rule, f.rule, h);
    assert Based(T, f, h);
    u :| u in T && IsBase(u, f, h);
    StartStage(T, b);
    HoldsAll(T, b, Elems(T), j, h, u);
    assert T[j] in T;
    var k: nat :| k < |T| && T[k] == u;
    WithinItself(u.rule);
    if Ends(T[j].rule) <= Ends(u.rule) {
      PrefixNested(u.rule, T[j].rule, h);
      OneOfTwo(T, j, k);
    } else {
      Longer(T[j].rule, u.rule, f.rule, h);
    }
  }

  lemma Longer(t: seq<Cell>, u: seq<Cell>, f: seq<Cell>, h: seq<bool>)
    requires IsPrefixRule(t) && MatchesKey(t, h) && |f| == |t| && Ends(u) == Ends(f) < Ends(t)
    ensures PrefixLen(t) > PrefixLen(f)
  {
    PrefixDigits(t, h);
    LenAtLeast(t, Ends(t));
    LenBefore(f, Ends(f));
  }

  /** If no rule inside one of another output has an ally, nothing is hidden: such a rule is a maximal cube and comes first. */
  lemma InnerAloneSuffices<O(!new)>(T: Table<Option<O>>, b: nat, t: Entry<Option<O>>)
    requires Lean(T, b) && InnerAlone(T) && t in T
    ensures !Hidden(T, b, t)
  {
    hide Lean, Stage, Rounds, Within, Ordered, Stays, MaxCube;
    LeanWidth(T, b);
    StartStage(T, b);
    RoundsStage(T, b, Elems(T), b);
    forall e ensures !Hides(T, b, t, e) {
      MergedAreMaxCubes(T, b, e);
      if MaxCube(T, b, e) && Within(t.rule, e.rule) && e.output != t.output {
        var j: nat :| j < |T| && T[j] == t;
        var u := BaseIsShorter(T, b, Rounds(Elems(T), b), j, e);
        AloneStays(T, b, Elems(T), b, t);
        MergedAreMaxCubes(T, b, t);
        WithinItself(t.rule);
        assert Ordered(t.rule, e.rule) by {
          LongerFirst(t.rule, e.rule);
        }
      }
    }
  }

  lemma LongerFirst(r: seq<Cell>, q: seq<Cell>)
    requires PrefixLen(r) > PrefixLen(q)
    ensures Ordered(r, q)
  {
  }

  // ---------- How many rules come out ----------

  ghost function CubesOf<O(!new)>(T: Table<Option<O>>, b: nat): (s: set<Entry<Option<O>>>)
    requires Lean(T, b)
    ensures forall e :: e in s <==> MaxCube(T, b, e)
  {
    AllMaxCubes(T, b);
    Rounds(Elems(T), b)
  }

  lemma AllMaxCubes<O(!new)>(T: Table<Option<O>>, b: nat)
    requires Lean(T, b)
    ensures forall e :: e in Rounds(Elems(T), b) <==> MaxCube(T, b, e)
  {
    hide Lean, MaxCube, Rounds;
    forall e ensures e in Rounds(Elems(T), b) <==> MaxCube(T, b, e) {
      MergedAreMaxCubes(T, b, e);
    }
  }

  /** The copies of all cubes together. */
  ghost function AllCopies<O>(s: set<Entry<O>>): nat {
    if s == {} then 0 else
      var e :| e in s;
      Copies(|Inner(e.rule)|) + AllCopies(s - {e})
  }

  lemma {:induction false} CountCopies<O>(m: multiset<Entry<O>>, s: set<Entry<O>>)
    requires forall e :: m[e] == if e in s then Copies(|Inner(e.rule)|) else 0
    ensures |m| == AllCopies(s)
    decreases s
  {
    hide Copies, Inner;
    if s == {} {
      assert m == multiset{};
    } else {
      var e :| e in s && AllCopies(s) == Copies(|Inner(e.rule)|) + AllCopies(s - {e});
      CountCopies(m[e := 0], s - {e});
      assert m == m[e := 0] + multiset{}[e := m[e]];
    }
  }

  /** As many rules come out as the maximal cubes have copies; so a table grows exactly if it has fewer rules than that. */
  lemma MergedSize<O(!new)>(T: Table<Option<O>>, out: Table<Option<O>>, b: nat)
    requires Lean(T, b) && Merged(T, b, out)
    ensures |out| == AllCopies(CubesOf(T, b))
    ensures |out| > |T| <==> AllCopies(CubesOf(T, b)) > |T|
  {
    hide Lean, Sorted, MaxCube, Copies, Inner, CubesOf, AllCopies;
    CountCopies(multiset(out), CubesOf(T, b));
    SizeOf(out);
  }

  lemma SizeOf<X>(s: seq<X>)
    ensures |multiset(s)| == |s|
  {
  }
}
