/** Weighted prefix minimization by dynamic programming over the halves of a prefix. */
module Suri {
  import opened Wrappers
  import opened Prefixes
  import opened RuleLists

  /** The rules to minimize, the weight of each colour, and the width of the numbers. */
  datatype Problem<C> = Problem(universe: seq<Rule<C>>, w: map<C, nat>, bits: nat)

  ghost predicate IsPrefix<C>(t: Problem<C>, p: Interval) {
    Node(p, Top(t.bits), t.bits)
  }

  /** Every point of `p` has a colour, and the colour has a weight. */
  ghost predicate Coloured<C>(t: Problem<C>, p: Interval) {
    forall x | p.lo <= x <= p.hi :: Match(t.universe, x).Some? && Match(t.universe, x).value in t.w
  }

  ghost predicate Classifies<C>(t: Problem<C>, p: Interval, sol: seq<Rule<C>>) {
    forall x | p.lo <= x <= p.hi :: Match(sol, x) == Match(t.universe, x)
  }

  ghost predicate PrefixRules<C>(t: Problem<C>, sol: seq<Rule<C>>) {
    forall r <- sol :: r.c in t.w && IsPrefix(t, r.p)
  }

  /** An ordered list of prefix rules that ends in `(p, c)` and classifies `p` as the universe does. */
  ghost predicate Candidate<C>(t: Problem<C>, p: Interval, c: C, sol: seq<Rule<C>>) {
    && sol != [] && sol[|sol| - 1].p == p && sol[|sol| - 1].c == c
    && PrefixRules(t, sol) && Classifies(t, p, sol)
  }

  ghost predicate LowerBound<C(!new)>(t: Problem<C>, p: Interval, c: C, m: int) {
    forall sol :: Candidate(t, p, c, sol) ==> m <= Weight(t.w, sol)
  }

  /** A candidate of weight `m` all of whose rules lie in the prefix. */
  ghost predicate Solution<C>(t: Problem<C>, p: Interval, c: C, m: int, sol: seq<Rule<C>>) {
    Candidate(t, p, c, sol) && Weight(t.w, sol) == m && forall r <- sol :: Contains(p, r.p)
  }

  ghost predicate Attained<C(!new)>(t: Problem<C>, p: Interval, c: C, m: int) {
    exists sol :: Solution(t, p, c, m, sol)
  }

  /** `m` is the minimum weight over all candidates, and one with no rule outside the prefix attains it. */
  ghost predicate Optimal<C(!new)>(t: Problem<C>, p: Interval, c: C, m: int) {
    LowerBound(t, p, c, m) && Attained(t, p, c, m)
  }

  // ---------- The colour of a prefix ----------

  datatype ColorOf<+C> = Solid(c: Option<C>) | Mixed

  /** What the scan over the universe finds: the first rule that meets `at` covers it, or not, or there is none. */
  function ColorAt<C>(universe: seq<Rule<C>>, at: Interval): ColorOf<C> {
    if universe == [] then Solid(None)
    else
      var i := Intersection(universe[0].p, at);
      if i.hi < i.lo then ColorAt(universe[1..], at)
      else if i.hi - i.lo < at.hi - at.lo then Mixed
      else Solid(Some(universe[0].c))
  }

  method Color<C>(universe: seq<Rule<C>>, at: Interval) returns (r: ColorOf<C>)
    ensures r == ColorAt(universe, at)
  {
    for n := 0 to |universe|
      invariant ColorAt(universe, at) == ColorAt(universe[n..], at)
    {
      var i := Intersection(universe[n].p, at);
      if !(i.hi < i.lo) {
        if i.hi - i.lo < at.hi - at.lo {
          return Mixed;
        } else {
          return Solid(Some(universe[n].c));
        }
      }
    }
    return Solid(None);
  }

  /** A solid colour is the colour of every point; only prefixes of two or more points are mixed. */
  lemma {:induction false} ColorMeans<C>(universe: seq<Rule<C>>, at: Interval)
    requires Size(at) > 0
    ensures match ColorAt(universe, at)
      case Solid(c) => forall x | at.lo <= x <= at.hi :: Match(universe, x) == c
      case Mixed => Size(at) > 1
  {
    if universe != [] {
      var i := Intersection(universe[0].p, at);
      if i.hi < i.lo {
        ColorMeans(universe[1..], at);
      }
    }
  }

  // ---------- Optimal weights ----------

  /** What a colour costs in front of a default rule of colour `c`. */
  function Extra<C>(w: map<C, nat>, c: C, cc: C): nat
    requires c in w
  {
    if c == cc then 0 else w[c]
  }

  /** Prefixes of one colour: the colour itself, and the default rule if it is another one. */
  lemma AtomicOptimal<C(!new)>(t: Problem<C>, p: Interval, c0: C, c: C)
    requires IsPrefix(t, p) && c0 in t.w && c in t.w && forall x | p.lo <= x <= p.hi :: Match(t.universe, x) == Some(c0)
    ensures Optimal(t, p, c, t.w[c0] + Extra(t.w, c, c0))
    ensures Solution(t, p, c, t.w[c0] + Extra(t.w, c, c0), AtomicSolution(p, c0, c))
  {
    NodeInside(p, Top(t.bits), t.bits);
    forall sol | Candidate(t, p, c, sol) ensures t.w[c0] + Extra(t.w, c, c0) <= Weight(t.w, sol) {
      AtomicBound(t, p, c0, c, sol);
    }
    var s := AtomicSolution(p, c0, c);
    if c != c0 {
      WeightConcat(t.w, [s[0]], [s[1]]);
      assert s == [s[0]] + [s[1]];
    }
    assert Solution(t, p, c, t.w[c0] + Extra(t.w, c, c0), s);
  }

  function AtomicSolution<C(==)>(p: Interval, c0: C, c: C): seq<Rule<C>> {
    if c != c0 then [Rule(p, c0, false), Rule(p, c, false)] else [Rule(p, c, false)]
  }

  lemma AtomicBound<C>(t: Problem<C>, p: Interval, c0: C, c: C, sol: seq<Rule<C>>)
    requires Size(p) > 0 && c0 in t.w && c in t.w && Match(t.universe, p.lo) == Some(c0) && Candidate(t, p, c, sol)
    ensures t.w[c0] + Extra(t.w, c, c0) <= Weight(t.w, sol)
  {
    var n := |sol| - 1;
    assert sol == sol[..n] + [sol[n]];
    WeightConcat(t.w, sol[..n], [sol[n]]);
    MatchConcat(sol[..n], [sol[n]], p.lo);
    if c != c0 {
      var r := Matching(sol[..n], p.lo);
      WeightOfMember(t.w, sol[..n], r);
    }
  }

  // ---------- Splitting a prefix ----------

  /** The weight when both halves have the default colour `cc` and the whole prefix has `c`. */
  function Joined<C>(w: map<C, nat>, lo: map<C, int>, hi: map<C, int>, c: C, cc: C): int
    requires c in w && cc in w && cc in lo && cc in hi
  {
    lo[cc] + hi[cc] - w[cc] + Extra(w, c, cc)
  }

  ghost predicate HalvesOptimal<C(!new)>(t: Problem<C>, p: Interval, lo: map<C, int>, hi: map<C, int>) {
    && IsPrefix(t, p) && Size(p) > 1
    && forall cc <- t.w :: cc in lo && cc in hi && Optimal(t, Low(p), cc, lo[cc]) && Optimal(t, High(p), cc, hi[cc])
  }

  /** The part of a list that lies in one half of `p`, with `c` as the default of the half. */
  function HalfOf<C>(body: seq<Rule<C>>, half: Interval, c: C): seq<Rule<C>> {
    Inside(body, half) + [Rule(half, c, false)]
  }

  /** If no rule before the last one contains `p`, the rules inside a half classify the half. */
  lemma HalfIsCandidate<C>(t: Problem<C>, p: Interval, half: Interval, c: C, sol: seq<Rule<C>>)
    requires IsPrefix(t, p) && Size(p) > 1 && half in {Low(p), High(p)} && Candidate(t, p, c, sol)
    requires forall r <- sol[..|sol| - 1] :: !Contains(r.p, p)
    ensures Candidate(t, half, c, HalfOf(sol[..|sol| - 1], half, c))
  {
    var body := sol[..|sol| - 1];
    var s := HalfOf(body, half, c);
    HalvesAreNodes(p, Top(t.bits), t.bits);
    InsideRules(body, half);
    forall r <- body ensures Contains(half, r.p) || Apart(half, r.p) {
      InHalfOrApart(r.p, p, Top(t.bits), t.bits);
      NodeInside(r.p, Top(t.bits), t.bits);
    }
    assert sol == body + [sol[|sol| - 1]];
    forall x | half.lo <= x <= half.hi ensures Match(s, x) == Match(t.universe, x) {
      MatchInside(body, half, x);
      MatchConcat(Inside(body, half), [Rule(half, c, false)], x);
      MatchConcat(body, [sol[|sol| - 1]], x);
    }
    assert PrefixRules(t, s);
  }

  lemma CutWeighsLess<C>(t: Problem<C>, p: Interval, sol: seq<Rule<C>>, i: nat)
    requires (forall r <- sol :: r.c in t.w) && i < |sol| - 1
    ensures var s := sol[..i] + [Rule(p, sol[i].c, false)];
      (forall r <- s :: r.c in t.w) && Weight(t.w, s) + t.w[sol[|sol| - 1].c] <= Weight(t.w, sol)
  {
    var n := |sol| - 1;
    var rest := sol[i..];
    assert sol == sol[..i] + rest && rest[0] == sol[i] && rest[1..] == sol[i + 1..] && sol[n] in sol[i + 1..];
    WeightConcat(t.w, sol[..i], rest);
    WeightOfMember(t.w, sol[i + 1..], sol[n]);
    WeightConcat(t.w, sol[..i], [Rule(p, sol[i].c, false)]);
  }

  lemma CutMatches<C>(sol: seq<Rule<C>>, i: nat, p: Interval, x: int)
    requires i < |sol| && Contains(sol[i].p, p) && p.lo <= x <= p.hi
    ensures Match(sol[..i] + [Rule(p, sol[i].c, false)], x) == Match(sol, x)
  {
    var rest := sol[i..];
    assert sol == sol[..i] + rest && Match(rest, x) == Some(sol[i].c);
    MatchConcat(sol[..i], rest, x);
    MatchConcat(sol[..i], [Rule(p, sol[i].c, false)], x);
  }

  /** Cutting a list behind a rule that contains `p`. */
  lemma CutIsCandidate<C>(t: Problem<C>, p: Interval, c: C, sol: seq<Rule<C>>, i: nat)
    requires IsPrefix(t, p) && Candidate(t, p, c, sol) && i < |sol| - 1 && Contains(sol[i].p, p)
    ensures Candidate(t, p, sol[i].c, sol[..i] + [Rule(p, sol[i].c, false)])
    ensures Weight(t.w, sol[..i] + [Rule(p, sol[i].c, false)]) + t.w[c] <= Weight(t.w, sol)
  {
    hide Weight, Match, Node;
    CutWeighsLess(t, p, sol, i);
    forall x | p.lo <= x <= p.hi ensures Match(sol[..i] + [Rule(p, sol[i].c, false)], x) == Match(t.universe, x) {
      CutMatches(sol, i, p, x);
    }
  }

  /** `m` is the weight of the lightest way to join the halves under the default colour `c`. */
  ghost predicate LightestFor<C>(w: map<C, nat>, lo: map<C, int>, hi: map<C, int>, c: C, m: int)
    requires c in w && w.Keys <= lo.Keys && w.Keys <= hi.Keys
  {
    (forall cc <- w :: m <= Joined(w, lo, hi, c, cc)) && exists cc <- w :: m == Joined(w, lo, hi, c, cc)
  }

  /** Every candidate weighs at least as much as some way to join the halves. */
  lemma {:induction false} SplitBound<C(!new)>(t: Problem<C>, p: Interval, lo: map<C, int>, hi: map<C, int>, c: C, sol: seq<Rule<C>>) returns (b: C)
    requires HalvesOptimal(t, p, lo, hi) && c in t.w && Candidate(t, p, c, sol)
    ensures PrefixRules(t, sol) && b in t.w && b in lo && b in hi && Joined(t.w, lo, hi, c, b) <= Weight(t.w, sol)
    decreases |sol|
  {
    hide Optimal, Classifies, Weight;
    if i: nat :| i < |sol| - 1 && Contains(sol[i].p, p) {
      var c' := sol[i].c;
      assert sol[i] in sol;
      CutIsCandidate(t, p, c, sol, i);
      b := SplitBound(t, p, lo, hi, c', sol[..i] + [Rule(p, c', false)]);
    } else {
      WholeBound(t, p, lo, hi, c, sol);
      b := c;
    }
  }

  lemma HalvesBound<C(!new)>(t: Problem<C>, p: Interval, lo: map<C, int>, hi: map<C, int>, c: C, a: seq<Rule<C>>, b: seq<Rule<C>>)
    requires HalvesOptimal(t, p, lo, hi) && c in t.w && Candidate(t, Low(p), c, a) && Candidate(t, High(p), c, b)
    ensures lo[c] <= Weight(t.w, a) && hi[c] <= Weight(t.w, b)
  {
    assert LowerBound(t, Low(p), c, lo[c]) && LowerBound(t, High(p), c, hi[c]);
  }

  lemma WholeBound<C(!new)>(t: Problem<C>, p: Interval, lo: map<C, int>, hi: map<C, int>, c: C, sol: seq<Rule<C>>)
    requires HalvesOptimal(t, p, lo, hi) && c in t.w && Candidate(t, p, c, sol)
    requires forall i: nat | i < |sol| - 1 :: !Contains(sol[i].p, p)
    ensures lo[c] + hi[c] - t.w[c] <= Weight(t.w, sol)
  {
    hide LowerBound, Attained, Classifies, Node;
    var n := |sol| - 1;
    var body := sol[..n];
    HalfIsCandidate(t, p, Low(p), c, sol);
    HalfIsCandidate(t, p, High(p), c, sol);
    HalvesBound(t, p, lo, hi, c, HalfOf(body, Low(p), c), HalfOf(body, High(p), c));
    HalfWeights(t, p, c, body);
    assert sol == body + [sol[n]];
    WeightConcat(t.w, body, [sol[n]]);
  }

  lemma HalfWeights<C>(t: Problem<C>, p: Interval, c: C, body: seq<Rule<C>>)
    requires c in t.w && PrefixRules(t, body)
    requires PrefixRules(t, HalfOf(body, Low(p), c)) && PrefixRules(t, HalfOf(body, High(p), c))
    ensures Weight(t.w, HalfOf(body, Low(p), c)) + Weight(t.w, HalfOf(body, High(p), c)) <= Weight(t.w, body) + 2 * t.w[c]
  {
    forall r <- body ensures Size(r.p) > 0 {
      NodeInside(r.p, Top(t.bits), t.bits);
    }
    WeightInside(t.w, body, Low(p), High(p));
    WeightConcat(t.w, Inside(body, Low(p)), [Rule(Low(p), c, false)]);
    WeightConcat(t.w, Inside(body, High(p)), [Rule(High(p), c, false)]);
  }

  // ---------- Joining the solutions of the halves ----------

  /** The rules of both halves without their default rules, then the common default rule, then the new one if it differs. */
  function Merged<C(==)>(a: seq<Rule<C>>, b: seq<Rule<C>>, p: Interval, c: C): seq<Rule<C>>
    requires a != [] && b != []
  {
    a[..|a| - 1] + b[..|b| - 1] +
    if a[|a| - 1].c == c then [Rule(p, c, true)] else [Rule(p, a[|a| - 1].c, true), Rule(p, c, true)]
  }

  /** What the last rules of a merged list are worth. */
  lemma Defaults<C>(t: Problem<C>, p: Interval, c: C, cc: C)
    requires c in t.w && cc in t.w && Size(p) > 0
    ensures var d := if cc == c then [Rule(p, c, true)] else [Rule(p, cc, true), Rule(p, c, true)];
      Weight(t.w, d) == t.w[cc] + Extra(t.w, c, cc) && forall x | p.lo <= x <= p.hi :: Match(d, x) == Some(cc)
  {
    if cc != c {
      var d := [Rule(p, cc, true), Rule(p, c, true)];
      assert d == [d[0]] + [d[1]];
      WeightConcat(t.w, [d[0]], [d[1]]);
    }
  }

  lemma LastApart<C>(t: Problem<C>, p: Interval, c: C, m: int, sol: seq<Rule<C>>)
    requires Solution(t, p, c, m, sol)
    ensures sol == sol[..|sol| - 1] + [sol[|sol| - 1]] && PrefixRules(t, sol[..|sol| - 1]) && c in t.w
    ensures Weight(t.w, sol[..|sol| - 1]) == m - t.w[c]
    ensures forall x | p.lo <= x <= p.hi ::
      Match(t.universe, x) == if Match(sol[..|sol| - 1], x).Some? then Match(sol[..|sol| - 1], x) else Some(c)
  {
    var n := |sol| - 1;
    assert sol == sol[..n] + [sol[n]];
    WeightConcat(t.w, sol[..n], [sol[n]]);
    forall x | p.lo <= x <= p.hi
      ensures Match(t.universe, x) == if Match(sol[..n], x).Some? then Match(sol[..n], x) else Some(c)
    {
      MatchConcat(sol[..n], [sol[n]], x);
    }
  }

  lemma MergedMatch<C>(t: Problem<C>, p: Interval, a: seq<Rule<C>>, b: seq<Rule<C>>, d: seq<Rule<C>>, x: int)
    requires (forall r <- a :: Contains(Low(p), r.p)) && (forall r <- b :: Contains(High(p), r.p)) && p.lo <= x <= p.hi
    ensures Match(a + b + d, x) ==
      var h := if x <= Low(p).hi then a else b; if Match(h, x).Some? then Match(h, x) else Match(d, x)
  {
    MatchConcat(a + b, d, x);
    MatchConcat(a, b, x);
    if x <= Low(p).hi {
      NoMatch(b, x);
    } else {
      NoMatch(a, x);
    }
  }

  /** Merging keeps solutions solutions, at the weight of the join. */
  lemma MergedSolves<C(!new)>(t: Problem<C>, p: Interval, c: C, cc: C, m: int, n: int, a: seq<Rule<C>>, b: seq<Rule<C>>)
    requires IsPrefix(t, p) && Size(p) > 1 && c in t.w && Solution(t, Low(p), cc, m, a) && Solution(t, High(p), cc, n, b)
    ensures cc in t.w && Solution(t, p, c, m + n - t.w[cc] + Extra(t.w, c, cc), Merged(a, b, p, c))
  {
    HalvesAreNodes(p, Top(t.bits), t.bits);
    LastApart(t, Low(p), cc, m, a);
    LastApart(t, High(p), cc, n, b);
    Defaults(t, p, c, cc);
    var a', b' := a[..|a| - 1], b[..|b| - 1];
    var d := if cc == c then [Rule(p, c, true)] else [Rule(p, cc, true), Rule(p, c, true)];
    assert Merged(a, b, p, c) == a' + b' + d;
    MergedParts(t, p, c, cc, m + n - 2 * t.w[cc], a', b', d);
  }

  lemma MergedParts<C(!new)>(t: Problem<C>, p: Interval, c: C, cc: C, m: int, a: seq<Rule<C>>, b: seq<Rule<C>>, d: seq<Rule<C>>)
    requires IsPrefix(t, p) && c in t.w && cc in t.w && PrefixRules(t, a) && PrefixRules(t, b) && Weight(t.w, a) + Weight(t.w, b) == m
    requires (forall r <- a :: Contains(Low(p), r.p)) && (forall r <- b :: Contains(High(p), r.p)) && Size(p) > 1
    requires forall x | p.lo <= x <= p.hi ::
      Match(t.universe, x) == var h := if x <= Low(p).hi then a else b; if Match(h, x).Some? then Match(h, x) else Some(cc)
    requires d == if cc == c then [Rule(p, c, true)] else [Rule(p, cc, true), Rule(p, c, true)]
    ensures Solution(t, p, c, m + t.w[cc] + Extra(t.w, c, cc), a + b + d)
  {
    hide Node;
    Defaults(t, p, c, cc);
    WeightConcat(t.w, a, b);
    WeightConcat(t.w, a + b, d);
    forall x | p.lo <= x <= p.hi ensures Match(a + b + d, x) == Match(t.universe, x) {
      MergedMatch(t, p, a, b, d, x);
    }
  }

  /** The lightest ways to join optimal halves are optimal for the prefix. */
  lemma SplitOptimal<C(!new)>(t: Problem<C>, p: Interval, lo: map<C, int>, hi: map<C, int>, c: C, m: int)
    requires HalvesOptimal(t, p, lo, hi) && c in t.w && t.w.Keys <= lo.Keys && t.w.Keys <= hi.Keys && LightestFor(t.w, lo, hi, c, m)
    ensures Optimal(t, p, c, m)
  {
    hide HalvesOptimal, Classifies, Attained, Joined;
    forall sol | Candidate(t, p, c, sol) ensures m <= Weight(t.w, sol) {
      var b := SplitBound(t, p, lo, hi, c, sol);
    }
    SplitAttained(t, p, lo, hi, c, m);
  }

  lemma SplitAttained<C(!new)>(t: Problem<C>, p: Interval, lo: map<C, int>, hi: map<C, int>, c: C, m: int)
    requires HalvesOptimal(t, p, lo, hi) && c in t.w && t.w.Keys <= lo.Keys && t.w.Keys <= hi.Keys && LightestFor(t.w, lo, hi, c, m)
    ensures Attained(t, p, c, m)
  {
    hide Node, Solution, LowerBound;
    var cc :| cc in t.w && m == Joined(t.w, lo, hi, c, cc);
    assert Optimal(t, Low(p), cc, lo[cc]) && Optimal(t, High(p), cc, hi[cc]);
    var a :| Solution(t, Low(p), cc, lo[cc], a);
    var b :| Solution(t, High(p), cc, hi[cc], b);
    MergedSolves(t, p, c, cc, lo[cc], hi[cc], a, b);
  }

  /** There is one optimal weight only. */
  lemma OptimalUnique<C(!new)>(t: Problem<C>, p: Interval, c: C, m: int, n: int)
    requires Optimal(t, p, c, m) && Optimal(t, p, c, n)
    ensures m == n
  {
    var a :| Solution(t, p, c, m, a);
    var b :| Solution(t, p, c, n, b);
  }

  // ---------- The program ----------

  /** Every weight in the dictionary is optimal for its prefix and colour. */
  ghost predicate AllOptimal<C(!new)>(t: Problem<C>, answers: map<(Interval, C), int>) {
    forall k <- answers :: k.1 in t.w && IsPrefix(t, k.0) && Optimal(t, k.0, k.1, answers[k])
  }

  ghost predicate HasColours<C(!new)>(t: Problem<C>, p: Interval, answers: map<(Interval, C), int>) {
    forall c <- t.w :: (p, c) in answers
  }

  /** The dictionary has every colour for `p` and, where `p` is split, for the parts. */
  ghost predicate Complete<C(!new)>(t: Problem<C>, p: Interval, answers: map<(Interval, C), int>)
    decreases Size(p)
  {
    HasColours(t, p, answers) &&
    (ColorAt(t.universe, p).Mixed? && Size(p) > 1 ==> Complete(t, Low(p), answers) && Complete(t, High(p), answers))
  }

  lemma {:induction false} CompleteMono<C(!new)>(t: Problem<C>, p: Interval, answers: map<(Interval, C), int>, more: map<(Interval, C), int>)
    requires Complete(t, p, answers) && answers.Keys <= more.Keys
    ensures Complete(t, p, more)
    decreases Size(p)
  {
    if ColorAt(t.universe, p).Mixed? && Size(p) > 1 {
      CompleteMono(t, Low(p), answers, more);
      CompleteMono(t, High(p), answers, more);
    }
    assert HasColours(t, p, answers);
  }

  method Colours<C(==, !new)>(w: map<C, nat>) returns (colors: seq<C>)
    ensures forall c :: c in colors <==> c in w
    ensures |colors| == |w|
  {
    colors := [];
    var todo := w.Keys;
    while todo != {}
      invariant todo <= w.Keys && |colors| + |todo| == |w.Keys|
      invariant forall c :: c in colors <==> c in w.Keys - todo
    {
      var c :| c in todo;
      colors := colors + [c];
      todo := todo - {c};
    }
  }

  function Least(s: seq<int>): (m: int)
    requires s != []
    ensures m in s && forall x <- s :: m <= x
  {
    if |s| == 1 then s[0] else
      var m := Least(s[1..]);
      assert s == [s[0]] + s[1..];
      if s[0] <= m then s[0] else m
  }

  /** The halves' weights by colour. */
  ghost function WeightsOf<C(!new)>(t: Problem<C>, p: Interval, answers: map<(Interval, C), int>): (r: map<C, int>)
    requires HasColours(t, p, answers)
    ensures r.Keys == t.w.Keys && forall c <- t.w :: r[c] == answers[(p, c)]
  {
    map c | c in t.w :: answers[(p, c)]
  }

  ghost predicate HalvesAnswered<C(!new)>(t: Problem<C>, p: Interval, answers: map<(Interval, C), int>) {
    && IsPrefix(t, p) && Size(p) > 1 && AllOptimal(t, answers)
    && HasColours(t, Low(p), answers) && HasColours(t, High(p), answers)
  }

  lemma AnsweredOptimal<C(!new)>(t: Problem<C>, p: Interval, answers: map<(Interval, C), int>)
    requires HalvesAnswered(t, p, answers)
    ensures HalvesOptimal(t, p, WeightsOf(t, Low(p), answers), WeightsOf(t, High(p), answers))
  {
    hide Optimal, Node;
    forall cc <- t.w ensures Optimal(t, Low(p), cc, answers[(Low(p), cc)]) && Optimal(t, High(p), cc, answers[(High(p), cc)]) {
      assert (Low(p), cc) in answers && (High(p), cc) in answers;
    }
  }

  /** The weight when the halves have `cc` in common. */
  ghost function JoinAt<C(!new)>(t: Problem<C>, p: Interval, answers: map<(Interval, C), int>, c: C, cc: C): int
    requires HasColours(t, Low(p), answers) && HasColours(t, High(p), answers) && c in t.w && cc in t.w
  {
    Joined(t.w, WeightsOf(t, Low(p), answers), WeightsOf(t, High(p), answers), c, cc)
  }

  /** The weights of all ways to join the halves, one for each colour they may have in common. */
  method JoinWeights<C(==, !new)>(t: Problem<C>, p: Interval, answers: map<(Interval, C), int>, colors: seq<C>, color: C) returns (solutions: seq<int>)
    requires HalvesAnswered(t, p, answers) && color in t.w && forall c :: c in colors <==> c in t.w
    ensures |solutions| == |colors| && forall i | 0 <= i < |colors| :: solutions[i] == JoinAt(t, p, answers, color, colors[i])
  {
    hide Node, AllOptimal;
    solutions := [];
    for i := 0 to |colors|
      invariant |solutions| == i && forall j | 0 <= j < i :: solutions[j] == JoinAt(t, p, answers, color, colors[j])
    {
      var cc := colors[i];
      assert cc in colors && cc in t.w;
      var sol := answers[(Low(p), cc)] + answers[(High(p), cc)] - t.w[cc];
      if color != cc {
        sol := sol + t.w[color];
      }
      solutions := solutions + [sol];
    }
  }

  /** The minimum over all ways is the optimal weight. */
  lemma LeastIsOptimal<C(!new)>(t: Problem<C>, p: Interval, answers: map<(Interval, C), int>, colors: seq<C>, color: C, solutions: seq<int>)
    requires HalvesAnswered(t, p, answers) && color in t.w && (forall c :: c in colors <==> c in t.w)
    requires |solutions| == |colors| && forall i | 0 <= i < |colors| :: solutions[i] == JoinAt(t, p, answers, color, colors[i])
    ensures solutions != [] && LightestFor(t.w, WeightsOf(t, Low(p), answers), WeightsOf(t, High(p), answers), color, Least(solutions))
  {
    hide Node, AllOptimal, Joined;
    assert color in colors;
    var lo, hi := WeightsOf(t, Low(p), answers), WeightsOf(t, High(p), answers);
    forall cc <- t.w ensures Least(solutions) <= Joined(t.w, lo, hi, color, cc) {
      var i :| 0 <= i < |colors| && colors[i] == cc;
      assert solutions[i] in solutions;
    }
    var j :| 0 <= j < |solutions| && solutions[j] == Least(solutions);
    assert colors[j] in colors;
  }

  /** The points of the interval all have colours, and it is an interval of `bits`-bit numbers. */
  ghost predicate Given<C(!new)>(t: Problem<C>, prefix: Interval) {
    Contains(Top(t.bits), prefix) && Coloured(t, prefix)
  }

  function Parts<C>(t: Problem<C>, prefix: Interval): seq<Interval> {
    GetPrefixes(prefix, Top(t.bits), t.bits)
  }

  /** The dictionary answers every prefix that the interval is made up of. */
  ghost predicate AnswersParts<C(!new)>(t: Problem<C>, parts: seq<Interval>, answers: map<(Interval, C), int>) {
    forall q <- parts :: Complete(t, q, answers)
  }

  lemma PartFacts<C(!new)>(t: Problem<C>, prefix: Interval, q: Interval)
    requires Given(t, prefix) && q in Parts(t, prefix)
    ensures IsPrefix(t, q) && Given(t, q) && Parts(t, q) == [q]
    ensures |Parts(t, prefix)| > 1 ==> 0 < Size(q) < Size(prefix)
    ensures |Parts(t, prefix)| == 1 ==> q == prefix
  {
    hide Node, GetPrefixes;
    PrefixesCover(prefix, Top(t.bits), t.bits);
    NodeInside(q, Top(t.bits), t.bits);
    PrefixOfNode(q, Top(t.bits), t.bits);
    if |Parts(t, prefix)| == 1 {
      assert Parts(t, prefix) == [q];
      assert InSome([q], prefix.lo) && InSome([q], prefix.hi);
    }
  }

  lemma HalfFacts<C(!new)>(t: Problem<C>, p: Interval)
    requires IsPrefix(t, p) && Given(t, p) && Size(p) > 1
    ensures Given(t, Low(p)) && Given(t, High(p)) && Parts(t, Low(p)) == [Low(p)] && Parts(t, High(p)) == [High(p)]
    ensures 0 < Size(Low(p)) < Size(p) && 0 < Size(High(p)) < Size(p)
  {
    HalvesAreNodes(p, Top(t.bits), t.bits);
    PrefixOfNode(Low(p), Top(t.bits), t.bits);
    PrefixOfNode(High(p), Top(t.bits), t.bits);
    NodeInside(p, Top(t.bits), t.bits);
  }

  lemma SolidFacts<C(!new)>(t: Problem<C>, p: Interval)
    requires IsPrefix(t, p) && Given(t, p)
    ensures Size(p) > 0
    ensures match ColorAt(t.universe, p)
      case Solid(c) => c.Some? && c.value in t.w && forall x | p.lo <= x <= p.hi :: Match(t.universe, x) == Some(c.value)
      case Mixed => Size(p) > 1
  {
    NodeInside(p, Top(t.bits), t.bits);
    ColorMeans(t.universe, p);
    assert Match(t.universe, p.lo).Some?;
  }

  /**
   The minimum weight for every prefix the interval is made up of, every part it is split into and every default
   colour.
   */
  method WeightedSuris<C(==, !new)>(t: Problem<C>, prefix: Interval) returns (answer: map<(Interval, C), int>)
    requires Given(t, prefix)
    ensures AllOptimal(t, answer) && AnswersParts(t, Parts(t, prefix), answer)
    decreases Max(Size(prefix), 0), 1
  {
    hide AllOptimal, Complete, Given;
    var p := Parts(t, prefix);
    answer := map[];
    NothingAnswered(t);
    if |p| == 0 {
    } else if |p| > 1 {
      for i := 0 to |p|
        invariant AllOptimal(t, answer) && AnswersParts(t, p[..i], answer)
      {
        assert p[i] in p;
        PartFacts(t, prefix, p[i]);
        var sub := WeightedSuris(t, p[i]);
        AnswersAdd(t, p[..i], answer, p[i], sub);
        assert p[..i + 1] == p[..i] + [p[i]];
        answer := answer + sub;
      }
      assert p[..|p|] == p;
    } else {
      PartFacts(t, prefix, p[0]);
      answer := WeighPrefix(t, prefix);
      assert p == [prefix];
    }
  }

  lemma NothingAnswered<C(!new)>(t: Problem<C>)
    ensures AllOptimal(t, map[])
  {
  }

  /** Dictionaries of several prefixes are merged. */
  lemma AnswersAdd<C(!new)>(t: Problem<C>, some: seq<Interval>, answers: map<(Interval, C), int>, q: Interval, sub: map<(Interval, C), int>)
    requires AllOptimal(t, answers) && AllOptimal(t, sub) && AnswersParts(t, some, answers) && AnswersParts(t, [q], sub)
    ensures AllOptimal(t, answers + sub) && AnswersParts(t, some + [q], answers + sub)
  {
    hide Optimal, Node, Complete;
    forall r <- some + [q] ensures Complete(t, r, answers + sub) {
      if r in some {
        CompleteMono(t, r, answers, answers + sub);
      } else {
        assert r in [q];
        CompleteMono(t, q, sub, answers + sub);
      }
    }
  }

  /** A prefix: of one colour, or split. */
  method WeighPrefix<C(==, !new)>(t: Problem<C>, prefix: Interval) returns (answer: map<(Interval, C), int>)
    requires Given(t, prefix) && IsPrefix(t, prefix)
    ensures AllOptimal(t, answer) && Complete(t, prefix, answer)
    decreases Max(Size(prefix), 0), 0
  {
    hide AllOptimal, Complete, Given, IsPrefix, ColorAt;
    SolidFacts(t, prefix);
    var c := Color(t.universe, prefix);
    if c.Solid? {
      answer := WeighAtom(t, prefix, c.c.value);
    } else {
      var lowPrefix, highPrefix := Low(prefix), High(prefix);
      HalfFacts(t, prefix);
      var low := WeightedSuris(t, lowPrefix);
      var high := WeightedSuris(t, highPrefix);
      HalvesMerged(t, prefix, low, high);
      answer := WeighSplit(t, prefix, low + high);
    }
  }

  lemma HalvesMerged<C(!new)>(t: Problem<C>, p: Interval, low: map<(Interval, C), int>, high: map<(Interval, C), int>)
    requires AllOptimal(t, low) && AllOptimal(t, high) && IsPrefix(t, p) && Size(p) > 1
    requires AnswersParts(t, [Low(p)], low) && AnswersParts(t, [High(p)], high)
    ensures HalvesAnswered(t, p, low + high) && Complete(t, Low(p), low + high) && Complete(t, High(p), low + high)
  {
    AnswersAdd(t, [Low(p)], low, High(p), high);
    assert Low(p) in [Low(p)] + [High(p)] && High(p) in [Low(p)] + [High(p)];
  }

  /** All points have colour `c`. */
  method WeighAtom<C(==, !new)>(t: Problem<C>, prefix: Interval, c: C) returns (answer: map<(Interval, C), int>)
    requires IsPrefix(t, prefix) && c in t.w && ColorAt(t.universe, prefix).Solid?
    requires forall x | prefix.lo <= x <= prefix.hi :: Match(t.universe, x) == Some(c)
    ensures AllOptimal(t, answer) && Complete(t, prefix, answer)
  {
    hide Optimal, Node, ColorAt, Match;
    answer := map[];
    var colors := Colours(t.w);
    for i := 0 to |colors|
      invariant AllOptimal(t, answer) && forall d <- colors[..i] :: (prefix, d) in answer
    {
      var color := colors[i];
      assert color in colors && colors[..i + 1] == colors[..i] + [color];
      AtomicOptimal(t, prefix, c, color);
      if color != c {
        answer := answer[(prefix, color) := t.w[c] + t.w[color]];
      } else {
        answer := answer[(prefix, color) := t.w[c]];
      }
    }
    assert colors[..|colors|] == colors;
    assert HasColours(t, prefix, answer);
  }

  /** Adds the weights of `prefix` to those of its halves. */
  method WeighSplit<C(==, !new)>(t: Problem<C>, prefix: Interval, halves: map<(Interval, C), int>) returns (answer: map<(Interval, C), int>)
    requires HalvesAnswered(t, prefix, halves) && Complete(t, Low(prefix), halves) && Complete(t, High(prefix), halves)
    ensures AllOptimal(t, answer) && Complete(t, prefix, answer)
  {
    hide AllOptimal, Complete, HalvesAnswered, JoinAt, LightestFor, WeightsOf;
    answer := halves;
    AnsweredAll(t, prefix, halves);
    var colors := Colours(t.w);
    for i := 0 to |colors|
      invariant AllOptimal(t, answer) && halves.Keys <= answer.Keys && forall d <- colors[..i] :: (prefix, d) in answer
    {
      var color := colors[i];
      assert color in colors && colors[..i + 1] == colors[..i] + [color];
      var solutions := JoinWeights(t, prefix, halves, colors, color);
      LeastIsOptimal(t, prefix, halves, colors, color, solutions);
      WeightIsOptimal(t, prefix, halves, color, Least(solutions), answer);
      answer := answer[(prefix, color) := Least(solutions)];
    }
    assert colors[..|colors|] == colors;
    SplitComplete(t, prefix, halves, answer);
  }

  lemma AnsweredAll<C(!new)>(t: Problem<C>, p: Interval, halves: map<(Interval, C), int>)
    requires HalvesAnswered(t, p, halves)
    ensures AllOptimal(t, halves) && HasColours(t, Low(p), halves) && HasColours(t, High(p), halves)
  {
  }

  lemma WeightIsOptimal<C(!new)>(t: Problem<C>, p: Interval, halves: map<(Interval, C), int>, c: C, m: int, answer: map<(Interval, C), int>)
    requires HalvesAnswered(t, p, halves) && c in t.w
    requires LightestFor(t.w, WeightsOf(t, Low(p), halves), WeightsOf(t, High(p), halves), c, m)
    ensures Optimal(t, p, c, m) && (AllOptimal(t, answer) ==> AllOptimal(t, answer[(p, c) := m]))
  {
    hide Optimal, LightestFor, Joined, Node;
    AnsweredOptimal(t, p, halves);
    SplitOptimal(t, p, WeightsOf(t, Low(p), halves), WeightsOf(t, High(p), halves), c, m);
  }

  lemma SplitComplete<C(!new)>(t: Problem<C>, p: Interval, halves: map<(Interval, C), int>, answer: map<(Interval, C), int>)
    requires Complete(t, Low(p), halves) && Complete(t, High(p), halves) && halves.Keys <= answer.Keys && HasColours(t, p, answer)
    ensures Complete(t, p, answer)
  {
    CompleteMono(t, Low(p), halves, answer);
    CompleteMono(t, High(p), halves, answer);
  }

  // ---------- The solutions themselves ----------

  /** `m` merges a list of `ls1` with one of `ls2`. */
  ghost predicate MergeOf<C(!new)>(ls1: seq<seq<Rule<C>>>, ls2: seq<seq<Rule<C>>>, prefix: Interval, c: C, m: seq<Rule<C>>) {
    exists i, j :: i in ls1 && j in ls2 && i != [] && j != [] && m == Merged(i, j, prefix, c)
  }

  /** All lists end in the same colour. */
  ghost predicate Mergeable<C>(ls1: seq<seq<Rule<C>>>, ls2: seq<seq<Rule<C>>>) {
    forall i: seq<Rule<C>>, j: seq<Rule<C>> | i in ls1 && j in ls2 :: i != [] && j != [] && i[|i| - 1].c == j[|j| - 1].c
  }

  /** One list, merged with each of `ls2`. */
  method MergeOne<C(==, !new)>(i: seq<Rule<C>>, ls2: seq<seq<Rule<C>>>, prefix: Interval, bckColor: C) returns (r: seq<seq<Rule<C>>>)
    requires i != [] && forall y | 0 <= y < |ls2| :: ls2[y] != []
    ensures |r| == |ls2| && forall y | 0 <= y < |ls2| :: r[y] == Merged(i, ls2[y], prefix, bckColor)
  {
    r := [];
    for y := 0 to |ls2|
      invariant |r| == y && forall z | 0 <= z < y :: r[z] == Merged(i, ls2[z], prefix, bckColor)
    {
      r := r + [Merged(i, ls2[y], prefix, bckColor)];
    }
  }

  /** The cross product of the solutions of both halves. */
  method MergeLists<C(==, !new)>(ls1: seq<seq<Rule<C>>>, ls2: seq<seq<Rule<C>>>, prefix: Interval, bckColor: C) returns (r: seq<seq<Rule<C>>>)
    requires Mergeable(ls1, ls2)
    ensures forall m <- r :: MergeOf(ls1, ls2, prefix, bckColor, m)
    ensures ls1 != [] && ls2 != [] ==> r != []
    ensures forall m | MergeOf(ls1, ls2, prefix, bckColor, m) :: m in r
  {
    hide MergeOf;
    r := [];
    MergeOfNone(ls1[..0], ls2, prefix, bckColor);
    if ls2 == [] {
      MergeOfNone(ls1, ls2, prefix, bckColor);
      return;
    }
    assert ls2[0] in ls2;
    for x := 0 to |ls1|
      invariant forall m <- r :: MergeOf(ls1, ls2, prefix, bckColor, m)
      invariant x > 0 ==> r != []
      invariant forall m | MergeOf(ls1[..x], ls2, prefix, bckColor, m) :: m in r
    {
      assert ls1[x] in ls1 && forall y | 0 <= y < |ls2| :: ls2[y] in ls2;
      var more := MergeOne(ls1[x], ls2, prefix, bckColor);
      MergeOfSnoc(ls1, x, ls2, prefix, bckColor, more);
      r := r + more;
    }
    assert ls1[..|ls1|] == ls1;
  }

  lemma MergeOfNone<C(!new)>(ls1: seq<seq<Rule<C>>>, ls2: seq<seq<Rule<C>>>, prefix: Interval, c: C)
    requires ls1 == [] || ls2 == []
    ensures forall m :: !MergeOf(ls1, ls2, prefix, c, m)
  {
  }

  lemma MergeOfSnoc<C(!new)>(ls1: seq<seq<Rule<C>>>, x: nat, ls2: seq<seq<Rule<C>>>, prefix: Interval, c: C, more: seq<seq<Rule<C>>>)
    requires x < |ls1| && ls1[x] != [] && (forall y | 0 <= y < |ls2| :: ls2[y] != [])
    requires |more| == |ls2| && forall y | 0 <= y < |ls2| :: more[y] == Merged(ls1[x], ls2[y], prefix, c)
    ensures forall m <- more :: MergeOf(ls1, ls2, prefix, c, m)
    ensures forall m | MergeOf(ls1[..x + 1], ls2, prefix, c, m) :: MergeOf(ls1[..x], ls2, prefix, c, m) || m in more
  {
    hide Merged;
    forall m <- more ensures MergeOf(ls1, ls2, prefix, c, m) {
      var y :| 0 <= y < |more| && more[y] == m;
      assert ls1[x] in ls1 && ls2[y] in ls2;
    }
    forall m | MergeOf(ls1[..x + 1], ls2, prefix, c, m) ensures MergeOf(ls1[..x], ls2, prefix, c, m) || m in more {
      var i, j :| i in ls1[..x + 1] && j in ls2 && i != [] && j != [] && m == Merged(i, j, prefix, c);
      if i !in ls1[..x] {
        assert ls1[..x + 1] == ls1[..x] + [ls1[x]];
        var y :| 0 <= y < |ls2| && ls2[y] == j;
        assert more[y] in more;
      }
    }
  }

  ghost predicate SolveAll<C>(t: Problem<C>, p: Interval, c: C, m: int, lists: seq<seq<Rule<C>>>) {
    lists != [] && forall sol <- lists :: Solution(t, p, c, m, sol)
  }

  /** There are solutions for every key, and they all attain the weight in `answers`. */
  ghost predicate AllSolve<C>(t: Problem<C>, answers: map<(Interval, C), int>, sols: map<(Interval, C), seq<seq<Rule<C>>>>) {
    forall k <- sols :: k in answers && SolveAll(t, k.0, k.1, answers[k], sols[k])
  }

  /** Under default colour `c`, the halves with `cc` in common attain the weight in `answers`. */
  ghost predicate Attains<C(!new)>(t: Problem<C>, p: Interval, answers: map<(Interval, C), int>, c: C, cc: C) {
    && HasColours(t, Low(p), answers) && HasColours(t, High(p), answers) && c in t.w && cc in t.w && (p, c) in answers
    && JoinAt(t, p, answers, c, cc) == answers[(p, c)]
  }

  /** What a search for all lists finds: on one colour the one list, else every merge of what it finds for the halves, for every colour at which they attain the weight. */
  ghost predicate Found<C(!new)>(t: Problem<C>, answers: map<(Interval, C), int>, p: Interval, c: C, sol: seq<Rule<C>>)
    decreases Max(Size(p), 0)
  {
    match ColorAt(t.universe, p)
    case Solid(c0) => c0.Some? && sol == AtomicSolution(p, c0.value, c)
    case Mixed => Size(p) > 1 && exists cc, i, j ::
      && Attains(t, p, answers, c, cc) && Found(t, answers, Low(p), cc, i) && Found(t, answers, High(p), cc, j)
      && i != [] && j != [] && sol == Merged(i, j, p, c)
  }

  ghost predicate ListsFound<C(!new)>(t: Problem<C>, answers: map<(Interval, C), int>, p: Interval, c: C, lists: seq<seq<Rule<C>>>) {
    forall sol :: sol in lists <==> Found(t, answers, p, c, sol)
  }

  /** The dictionary has all of it, and nothing else. */
  ghost predicate AllFound<C(!new)>(t: Problem<C>, answers: map<(Interval, C), int>, sols: map<(Interval, C), seq<seq<Rule<C>>>>) {
    forall k <- sols :: ListsFound(t, answers, k.0, k.1, sols[k])
  }

  ghost predicate HasSolutions<C(!new)>(t: Problem<C>, p: Interval, sols: map<(Interval, C), seq<seq<Rule<C>>>>) {
    forall c <- t.w :: (p, c) in sols
  }

  /**
   Solutions for every prefix the interval is made up of, and for all parts: they classify the prefix as the universe
   does and have the minimum weight.
   */
  method FindSolutions<C(==, !new)>(t: Problem<C>, prefix: Interval, answers: map<(Interval, C), int>)
    returns (answer: map<(Interval, C), seq<seq<Rule<C>>>>)
    requires Given(t, prefix) && AllOptimal(t, answers) && AnswersParts(t, Parts(t, prefix), answers)
    ensures AllSolve(t, answers, answer) && AllFound(t, answers, answer) && forall q <- Parts(t, prefix) :: HasSolutions(t, q, answer)
    decreases Max(Size(prefix), 0), 1
  {
    hide AllOptimal, AllSolve, AllFound, Complete, Given;
    var p := Parts(t, prefix);
    answer := map[];
    NothingSolved(t, answers);
    if |p| == 0 {
    } else if |p| > 1 {
      for i := 0 to |p|
        invariant AllSolve(t, answers, answer) && AllFound(t, answers, answer) && forall q <- p[..i] :: HasSolutions(t, q, answer)
      {
        assert p[i] in p;
        PartFacts(t, prefix, p[i]);
        var sub := FindSolutions(t, p[i], answers);
        SolutionsAdd(t, answers, answer, sub);
        assert p[..i + 1] == p[..i] + [p[i]];
        answer := answer + sub;
      }
      assert p[..|p|] == p;
    } else {
      PartFacts(t, prefix, p[0]);
      assert p == [prefix];
      answer := FindForPrefix(t, prefix, answers);
    }
  }

  lemma NothingSolved<C(!new)>(t: Problem<C>, answers: map<(Interval, C), int>)
    ensures AllSolve(t, answers, map[]) && AllFound(t, answers, map[])
  {
  }

  lemma SolutionsAdd<C(!new)>(t: Problem<C>, answers: map<(Interval, C), int>, some: map<(Interval, C), seq<seq<Rule<C>>>>,
                              sub: map<(Interval, C), seq<seq<Rule<C>>>>)
    requires AllSolve(t, answers, some) && AllSolve(t, answers, sub) && AllFound(t, answers, some) && AllFound(t, answers, sub)
    ensures AllSolve(t, answers, some + sub) && AllFound(t, answers, some + sub)
    ensures forall q | HasSolutions(t, q, some) || HasSolutions(t, q, sub) :: HasSolutions(t, q, some + sub)
  {
    hide SolveAll, ListsFound;
  }

  method FindForPrefix<C(==, !new)>(t: Problem<C>, prefix: Interval, answers: map<(Interval, C), int>)
    returns (answer: map<(Interval, C), seq<seq<Rule<C>>>>)
    requires Given(t, prefix) && IsPrefix(t, prefix) && AllOptimal(t, answers) && Complete(t, prefix, answers)
    ensures AllSolve(t, answers, answer) && AllFound(t, answers, answer) && HasSolutions(t, prefix, answer)
    decreases Max(Size(prefix), 0), 0
  {
    hide AllOptimal, AllSolve, AllFound, Given, IsPrefix, ColorAt, HasColours;
    SolidFacts(t, prefix);
    var c := Color(t.universe, prefix);
    if c.Solid? {
      answer := FindAtom(t, prefix, c.c.value, answers);
    } else {
      var lowPrefix, highPrefix := Low(prefix), High(prefix);
      HalfFacts(t, prefix);
      var low := FindSolutions(t, lowPrefix, answers);
      var high := FindSolutions(t, highPrefix, answers);
      SolutionsAdd(t, answers, low, high);
      assert lowPrefix in Parts(t, lowPrefix) && highPrefix in Parts(t, highPrefix);
      CompleteAnswers(t, prefix, answers);
      answer := FindSplit(t, prefix, answers, low + high);
    }
  }

  lemma CompleteAnswers<C(!new)>(t: Problem<C>, p: Interval, answers: map<(Interval, C), int>)
    requires IsPrefix(t, p) && Size(p) > 1 && ColorAt(t.universe, p).Mixed? && AllOptimal(t, answers) && Complete(t, p, answers)
    ensures HasColours(t, p, answers) && HalvesAnswered(t, p, answers)
  {
  }

  method FindAtom<C(==, !new)>(t: Problem<C>, prefix: Interval, c: C, answers: map<(Interval, C), int>)
    returns (answer: map<(Interval, C), seq<seq<Rule<C>>>>)
    requires IsPrefix(t, prefix) && c in t.w && AllOptimal(t, answers) && Complete(t, prefix, answers)
    requires ColorAt(t.universe, prefix) == Solid(Some(c)) && forall x | prefix.lo <= x <= prefix.hi :: Match(t.universe, x) == Some(c)
    ensures AllSolve(t, answers, answer) && AllFound(t, answers, answer) && HasSolutions(t, prefix, answer)
  {
    hide SolveAll, AllOptimal, Complete, Node, ColorAt, Match, ListsFound;
    answer := map[];
    var colors := Colours(t.w);
    for i := 0 to |colors|
      invariant AllSolve(t, answers, answer) && AllFound(t, answers, answer) && forall d <- colors[..i] :: (prefix, d) in answer
    {
      var color := colors[i];
      assert color in colors && colors[..i + 1] == colors[..i] + [color];
      AtomFound(t, answers, prefix, c, color);
      AtomSolves(t, prefix, c, color, answers);
      if color != c {
        answer := answer[(prefix, color) := [[Rule(prefix, c, false), Rule(prefix, color, false)]]];
      } else {
        answer := answer[(prefix, color) := [[Rule(prefix, color, false)]]];
      }
    }
    assert colors[..|colors|] == colors;
  }

  lemma AtomSolves<C(!new)>(t: Problem<C>, p: Interval, c: C, d: C, answers: map<(Interval, C), int>)
    requires IsPrefix(t, p) && c in t.w && d in t.w && AllOptimal(t, answers) && Complete(t, p, answers)
    requires forall x | p.lo <= x <= p.hi :: Match(t.universe, x) == Some(c)
    ensures (p, d) in answers && SolveAll(t, p, d, answers[(p, d)], [AtomicSolution(p, c, d)])
  {
    hide Optimal, Solution, Node, Match;
    AtomicOptimal(t, p, c, d);
    assert HasColours(t, p, answers) && (p, d) in answers;
    OptimalUnique(t, p, d, answers[(p, d)], t.w[c] + Extra(t.w, d, c));
  }

  lemma AtomFound<C(!new)>(t: Problem<C>, answers: map<(Interval, C), int>, p: Interval, c: C, d: C)
    requires ColorAt(t.universe, p) == Solid(Some(c))
    ensures ListsFound(t, answers, p, d, [AtomicSolution(p, c, d)])
  {
    hide ColorAt, AtomicSolution;
  }

  /** What the halves have to offer. */
  ghost predicate HalvesSolved<C(!new)>(t: Problem<C>, p: Interval, answers: map<(Interval, C), int>, halves: map<(Interval, C), seq<seq<Rule<C>>>>) {
    && HalvesAnswered(t, p, answers) && AllSolve(t, answers, halves) && AllFound(t, answers, halves) && ColorAt(t.universe, p).Mixed?
    && HasSolutions(t, Low(p), halves) && HasSolutions(t, High(p), halves)
  }

  method FindSplit<C(==, !new)>(t: Problem<C>, prefix: Interval, answers: map<(Interval, C), int>, halves: map<(Interval, C), seq<seq<Rule<C>>>>)
    returns (answer: map<(Interval, C), seq<seq<Rule<C>>>>)
    requires HalvesSolved(t, prefix, answers, halves) && HasColours(t, prefix, answers)
    ensures AllSolve(t, answers, answer) && AllFound(t, answers, answer) && HasSolutions(t, prefix, answer)
  {
    hide SolveAll, HalvesAnswered, JoinAt, LightestFor, WeightsOf, ListsFound, ColorAt;
    answer := halves;
    var colors := Colours(t.w);
    for i := 0 to |colors|
      invariant AllSolve(t, answers, answer) && AllFound(t, answers, answer) && forall d <- colors[..i] :: (prefix, d) in answer
    {
      var color := colors[i];
      assert color in colors && colors[..i + 1] == colors[..i] + [color];
      var found := FindColor(t, prefix, answers, halves, colors, color);
      answer := answer[(prefix, color) := found];
    }
    assert colors[..|colors|] == colors;
  }

  /** The solutions under one default colour: those of all ways to join the halves that attain the minimum. */
  method FindColor<C(==, !new)>(t: Problem<C>, prefix: Interval, answers: map<(Interval, C), int>, halves: map<(Interval, C), seq<seq<Rule<C>>>>,
                                colors: seq<C>, color: C) returns (found: seq<seq<Rule<C>>>)
    requires HalvesSolved(t, prefix, answers, halves) && HasColours(t, prefix, answers) && color in t.w && forall c :: c in colors <==> c in t.w
    ensures SolveAll(t, prefix, color, answers[(prefix, color)], found) && ListsFound(t, answers, prefix, color, found)
  {
    hide Solution, SolveAll, HalvesAnswered, AllSolve, AllFound, ListsFound, JoinAt, LightestFor, WeightsOf, MergeOf, FromSome, FromColour, ColorAt;
    var solutions := JoinWeights(t, prefix, answers, colors, color);
    LeastIsOptimal(t, prefix, answers, colors, color, solutions);
    var goal := Least(solutions);
    GoalIsAnswer(t, prefix, answers, color, goal);
    found := [];
    NothingFrom(t, prefix, halves, colors, solutions, goal, color);
    for i := 0 to |colors|
      invariant forall sol <- found :: Solution(t, prefix, color, goal, sol)
      invariant found == [] ==> forall j | 0 <= j < i :: solutions[j] != goal
      invariant forall sol :: sol in found <==> FromSome(t, prefix, halves, colors, solutions, goal, color, i, sol)
    {
      FromNext(t, prefix, halves, colors, solutions, goal, color, i);
      NotFrom(prefix, halves, colors, solutions, goal, color, i);
      if solutions[i] == goal {
        var cc := colors[i];
        assert cc in colors;
        HalvesMayMerge(t, prefix, answers, halves, cc);
        var merged := MergeLists(halves[(Low(prefix), cc)], halves[(High(prefix), cc)], prefix, color);
        MergedAllSolve(t, prefix, answers, halves, color, cc, merged);
        MergedAreFrom(prefix, halves, colors, solutions, goal, color, i, merged);
        found := found + merged;
      }
    }
    assert exists j | 0 <= j < |colors| :: solutions[j] == goal;
    FoundAll(t, prefix, color, goal, found);
    FoundExactly(t, prefix, answers, halves, colors, solutions, goal, color, found);
  }

  /** `sol` merges lists of the halves that have one of the first `n` colours in common and attain the weight. */
  ghost predicate FromSome<C(!new)>(t: Problem<C>, p: Interval, halves: map<(Interval, C), seq<seq<Rule<C>>>>, colors: seq<C>, solutions: seq<int>,
                                    goal: int, c: C, n: nat, sol: seq<Rule<C>>)
  {
    exists j: nat :: j < n && FromColour(p, halves, colors, solutions, goal, c, j, sol)
  }

  ghost predicate FromColour<C(!new)>(p: Interval, halves: map<(Interval, C), seq<seq<Rule<C>>>>, colors: seq<C>, solutions: seq<int>,
                                      goal: int, c: C, j: nat, sol: seq<Rule<C>>)
  {
    && j < |colors| == |solutions| && solutions[j] == goal && (Low(p), colors[j]) in halves && (High(p), colors[j]) in halves
    && MergeOf(halves[(Low(p), colors[j])], halves[(High(p), colors[j])], p, c, sol)
  }

  lemma MergedAreFrom<C(!new)>(p: Interval, halves: map<(Interval, C), seq<seq<Rule<C>>>>, colors: seq<C>, solutions: seq<int>,
                               goal: int, c: C, n: nat, merged: seq<seq<Rule<C>>>)
    requires n < |colors| == |solutions| && solutions[n] == goal && (Low(p), colors[n]) in halves && (High(p), colors[n]) in halves
    requires forall m <- merged :: MergeOf(halves[(Low(p), colors[n])], halves[(High(p), colors[n])], p, c, m)
    requires forall m | MergeOf(halves[(Low(p), colors[n])], halves[(High(p), colors[n])], p, c, m) :: m in merged
    ensures forall sol :: sol in merged <==> FromColour(p, halves, colors, solutions, goal, c, n, sol)
  {
    hide MergeOf;
  }

  lemma NotFrom<C(!new)>(p: Interval, halves: map<(Interval, C), seq<seq<Rule<C>>>>, colors: seq<C>, solutions: seq<int>, goal: int, c: C, n: nat)
    ensures n < |solutions| && solutions[n] != goal ==> forall sol :: !FromColour(p, halves, colors, solutions, goal, c, n, sol)
  {
  }

  lemma NothingFrom<C(!new)>(t: Problem<C>, p: Interval, halves: map<(Interval, C), seq<seq<Rule<C>>>>, colors: seq<C>, solutions: seq<int>,
                             goal: int, c: C)
    ensures forall sol :: !FromSome(t, p, halves, colors, solutions, goal, c, 0, sol)
  {
  }

  lemma FromNext<C(!new)>(t: Problem<C>, p: Interval, halves: map<(Interval, C), seq<seq<Rule<C>>>>, colors: seq<C>, solutions: seq<int>,
                          goal: int, c: C, n: nat)
    ensures forall sol :: FromSome(t, p, halves, colors, solutions, goal, c, n + 1, sol) <==>
      FromSome(t, p, halves, colors, solutions, goal, c, n, sol) || FromColour(p, halves, colors, solutions, goal, c, n, sol)
  {
    hide FromColour;
  }

  lemma FoundExactly<C(!new)>(t: Problem<C>, p: Interval, answers: map<(Interval, C), int>, halves: map<(Interval, C), seq<seq<Rule<C>>>>,
                              colors: seq<C>, solutions: seq<int>, goal: int, c: C, found: seq<seq<Rule<C>>>)
    requires HalvesSolved(t, p, answers, halves) && c in t.w && (forall cc :: cc in colors <==> cc in t.w) && (p, c) in answers && answers[(p, c)] == goal
    requires |solutions| == |colors| && forall i | 0 <= i < |colors| :: solutions[i] == JoinAt(t, p, answers, c, colors[i])
    requires forall sol :: sol in found <==> FromSome(t, p, halves, colors, solutions, goal, c, |colors|, sol)
    ensures ListsFound(t, answers, p, c, found)
  {
    hide SolveAll, JoinAt, AllSolve, AllOptimal, Node, Merged, ColorAt, Found;
    forall sol ensures sol in found <==> Found(t, answers, p, c, sol) {
      if j: nat :| j < |colors| && FromColour(p, halves, colors, solutions, goal, c, j, sol) {
        var i, k := MergedFrom(halves[(Low(p), colors[j])], halves[(High(p), colors[j])], p, c, sol);
        assert colors[j] in colors;
        assert ListsFound(t, answers, Low(p), colors[j], halves[(Low(p), colors[j])]);
        assert ListsFound(t, answers, High(p), colors[j], halves[(High(p), colors[j])]);
        FoundBy(t, answers, p, c, colors[j], i, k);
      }
      if Found(t, answers, p, c, sol) {
        var cc, i, k := FoundHow(t, answers, p, c, sol);
        var j: nat :| j < |colors| && colors[j] == cc;
        assert ListsFound(t, answers, Low(p), cc, halves[(Low(p), cc)]);
        assert ListsFound(t, answers, High(p), cc, halves[(High(p), cc)]);
        assert FromColour(p, halves, colors, solutions, goal, c, j, sol);
      }
    }
  }

  lemma MergedFrom<C(!new)>(ls1: seq<seq<Rule<C>>>, ls2: seq<seq<Rule<C>>>, p: Interval, c: C, sol: seq<Rule<C>>) returns (i: seq<Rule<C>>, j: seq<Rule<C>>)
    requires MergeOf(ls1, ls2, p, c, sol)
    ensures i in ls1 && j in ls2 && i != [] && j != [] && sol == Merged(i, j, p, c)
  {
    i, j :| i in ls1 && j in ls2 && i != [] && j != [] && sol == Merged(i, j, p, c);
  }

  lemma FoundBy<C(!new)>(t: Problem<C>, answers: map<(Interval, C), int>, p: Interval, c: C, cc: C, i: seq<Rule<C>>, j: seq<Rule<C>>)
    requires ColorAt(t.universe, p).Mixed? && Size(p) > 1 && Attains(t, p, answers, c, cc) && i != [] && j != []
    requires Found(t, answers, Low(p), cc, i) && Found(t, answers, High(p), cc, j)
    ensures Found(t, answers, p, c, Merged(i, j, p, c))
  {
    hide ColorAt, Merged, Attains;
  }

  lemma FoundHow<C(!new)>(t: Problem<C>, answers: map<(Interval, C), int>, p: Interval, c: C, sol: seq<Rule<C>>)
    returns (cc: C, i: seq<Rule<C>>, j: seq<Rule<C>>)
    requires ColorAt(t.universe, p).Mixed? && Found(t, answers, p, c, sol)
    ensures Attains(t, p, answers, c, cc) && Found(t, answers, Low(p), cc, i) && Found(t, answers, High(p), cc, j)
    ensures i != [] && j != [] && sol == Merged(i, j, p, c)
  {
    hide ColorAt, Merged, Attains;
    cc, i, j :| Attains(t, p, answers, c, cc) && Found(t, answers, Low(p), cc, i) && Found(t, answers, High(p), cc, j)
      && i != [] && j != [] && sol == Merged(i, j, p, c);
  }

  lemma FoundAll<C>(t: Problem<C>, p: Interval, c: C, m: int, found: seq<seq<Rule<C>>>)
    requires found != [] && forall sol <- found :: Solution(t, p, c, m, sol)
    ensures SolveAll(t, p, c, m, found)
  {
  }

  lemma GoalIsAnswer<C(!new)>(t: Problem<C>, p: Interval, answers: map<(Interval, C), int>, c: C, goal: int)
    requires HalvesAnswered(t, p, answers) && HasColours(t, p, answers) && c in t.w
    requires LightestFor(t.w, WeightsOf(t, Low(p), answers), WeightsOf(t, High(p), answers), c, goal)
    ensures (p, c) in answers && answers[(p, c)] == goal
  {
    hide Optimal, LightestFor, Joined, Node;
    WeightIsOptimal(t, p, answers, c, goal, answers);
    OptimalUnique(t, p, c, answers[(p, c)], goal);
  }

  lemma HalvesMayMerge<C(!new)>(t: Problem<C>, p: Interval, answers: map<(Interval, C), int>, halves: map<(Interval, C), seq<seq<Rule<C>>>>, cc: C)
    requires HalvesSolved(t, p, answers, halves) && cc in t.w
    ensures (Low(p), cc) in halves && (High(p), cc) in halves && halves[(Low(p), cc)] != [] && halves[(High(p), cc)] != []
    ensures Mergeable(halves[(Low(p), cc)], halves[(High(p), cc)])
  {
    hide PrefixRules, Classifies, Node, Optimal;
    assert (Low(p), cc) in halves && (High(p), cc) in halves;
  }

  lemma MergedAllSolve<C(!new)>(t: Problem<C>, p: Interval, answers: map<(Interval, C), int>, halves: map<(Interval, C), seq<seq<Rule<C>>>>,
                                c: C, cc: C, merged: seq<seq<Rule<C>>>)
    requires HalvesSolved(t, p, answers, halves) && c in t.w && cc in t.w && (Low(p), cc) in halves && (High(p), cc) in halves
    requires forall m <- merged :: MergeOf(halves[(Low(p), cc)], halves[(High(p), cc)], p, c, m)
    ensures forall m <- merged :: Solution(t, p, c, JoinAt(t, p, answers, c, cc), m)
  {
    hide Solution, Node, Optimal, Merged;
    forall m <- merged ensures Solution(t, p, c, JoinAt(t, p, answers, c, cc), m) {
      var i, j :| i in halves[(Low(p), cc)] && j in halves[(High(p), cc)] && i != [] && j != [] && m == Merged(i, j, p, c);
      MergedSolves(t, p, c, cc, answers[(Low(p), cc)], answers[(High(p), cc)], i, j);
    }
  }
}
