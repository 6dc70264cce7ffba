/** Ordered lists of prefix rules: first match, weight, and what it takes to classify a prefix as a universe does. */
module RuleLists {
  import opened Wrappers
  import opened Prefixes

  /** A rule; `wrapped` records that its prefix sits in a one-element list, which changes nothing about its meaning. */
  datatype Rule<C> = Rule(p: Interval, c: C, wrapped: bool)

  predicate Covers<C>(r: Rule<C>, x: int) {
    r.p.lo <= x <= r.p.hi
  }

  /** The colour of the first rule that covers `x`. */
  function Match<C>(rules: seq<Rule<C>>, x: int): Option<C> {
    if rules == [] then None
    else if Covers(rules[0], x) then Some(rules[0].c)
    else Match(rules[1..], x)
  }

  lemma {:induction false} MatchConcat<C>(a: seq<Rule<C>>, b: seq<Rule<C>>, x: int)
    ensures Match(a + b, x) == if Match(a, x).Some? then Match(a, x) else Match(b, x)
    decreases |a|
  {
    if a == [] {
      assert a + b == b;
    } else {
      assert (a + b)[1..] == a[1..] + b;
      MatchConcat(a[1..], b, x);
    }
  }

  lemma {:induction false} NoMatch<C>(rules: seq<Rule<C>>, x: int)
    requires forall r <- rules :: !Covers(r, x)
    ensures Match(rules, x).None?
  {
    if rules != [] {
      NoMatch(rules[1..], x);
    } else {
    }
  }

  /** The rule that matches. */
  lemma {:induction false} Matching<C>(rules: seq<Rule<C>>, x: int) returns (r: Rule<C>)
    requires Match(rules, x).Some?
    ensures r in rules && Covers(r, x) && Match(rules, x) == Some(r.c)
  {
    if Covers(rules[0], x) {
      r := rules[0];
    } else {
      r := Matching(rules[1..], x);
    }
  }

  /** The rules in front of `x`'s first match do not matter if all they could do is match elsewhere. */
  function Inside<C>(rules: seq<Rule<C>>, p: Interval): seq<Rule<C>> {
    if rules == [] then []
    else (if Contains(p, rules[0].p) then [rules[0]] else []) + Inside(rules[1..], p)
  }

  lemma {:induction false} InsideRules<C>(rules: seq<Rule<C>>, p: Interval)
    ensures forall r <- Inside(rules, p) :: r in rules && Contains(p, r.p)
  {
    if rules != [] {
      InsideRules(rules[1..], p);
    } else {
    }
  }

  lemma {:induction false} MatchInside<C>(rules: seq<Rule<C>>, p: Interval, x: int)
    requires p.lo <= x <= p.hi && forall r <- rules :: Contains(p, r.p) || Apart(p, r.p)
    ensures Match(Inside(rules, p), x) == Match(rules, x)
  {
    if rules != [] {
      assert rules[0] in rules;
      MatchInside(rules[1..], p, x);
      MatchConcat(if Contains(p, rules[0].p) then [rules[0]] else [], Inside(rules[1..], p), x);
    }
  }

  /** Sum of the weights of the colours. */
  function Weight<C>(w: map<C, nat>, rules: seq<Rule<C>>): nat
    requires forall r <- rules :: r.c in w
  {
    if rules == [] then 0 else w[rules[0].c] + Weight(w, rules[1..])
  }

  lemma {:induction false} WeightConcat<C>(w: map<C, nat>, a: seq<Rule<C>>, b: seq<Rule<C>>)
    requires (forall r <- a :: r.c in w) && (forall r <- b :: r.c in w)
    ensures (forall r <- a + b :: r.c in w) && Weight(w, a + b) == Weight(w, a) + Weight(w, b)
    decreases |a|
  {
    if a == [] {
      assert a + b == b;
    } else {
      assert (a + b)[1..] == a[1..] + b;
      WeightConcat(w, a[1..], b);
    }
  }

  lemma {:induction false} WeightOfMember<C>(w: map<C, nat>, rules: seq<Rule<C>>, r: Rule<C>)
    requires (forall q <- rules :: q.c in w) && r in rules
    ensures w[r.c] <= Weight(w, rules)
  {
    if r != rules[0] {
      WeightOfMember(w, rules[1..], r);
    }
  }

  /** The rules inside two prefixes that are apart weigh no more than the list. */
  lemma {:induction false} WeightInside<C>(w: map<C, nat>, rules: seq<Rule<C>>, p: Interval, q: Interval)
    requires (forall r <- rules :: r.c in w && Size(r.p) > 0) && Apart(p, q)
    ensures (forall r <- Inside(rules, p) :: r.c in w) && (forall r <- Inside(rules, q) :: r.c in w)
    ensures Weight(w, Inside(rules, p)) + Weight(w, Inside(rules, q)) <= Weight(w, rules)
  {
    if rules != [] {
      assert rules[0] in rules;
      WeightInside(w, rules[1..], p, q);
      WeightConcat(w, if Contains(p, rules[0].p) then [rules[0]] else [], Inside(rules[1..], p));
      WeightConcat(w, if Contains(q, rules[0].p) then [rules[0]] else [], Inside(rules[1..], q));
    }
  }
}
