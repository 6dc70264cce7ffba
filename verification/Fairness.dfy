/** Sharing link capacity fairly: what a bottleneck for every flow means. Rates are exact. */
module Fairness {

  /** The capacity of every port. */
  const CAPACITY: real := 1.0

  /** The rates of the flows of `fs` together. */
  ghost function Total<F>(fs: set<F>, rates: map<F, real>): real
    requires fs <= rates.Keys
    decreases |fs|
  {
    if fs == {} then 0.0 else var f :| f in fs; rates[f] + Total(fs - {f}, rates)
  }

  lemma {:induction false} TotalRemove<F>(fs: set<F>, rates: map<F, real>, f: F)
    requires fs <= rates.Keys && f in fs
    ensures Total(fs, rates) == rates[f] + Total(fs - {f}, rates)
    decreases |fs|
  {
    var g :| g in fs && Total(fs, rates) == rates[g] + Total(fs - {g}, rates);
    if f != g {
      TotalRemove(fs - {g}, rates, f);
      TotalRemove(fs - {f}, rates, g);
      assert fs - {g} - {f} == fs - {f} - {g};
    }
  }

  lemma {:induction false} TotalSame<F>(fs: set<F>, a: map<F, real>, b: map<F, real>)
    requires fs <= a.Keys && fs <= b.Keys && forall f <- fs :: a[f] == b[f]
    ensures Total(fs, a) == Total(fs, b)
    decreases |fs|
  {
    if f :| f in fs {
      TotalRemove(fs, a, f);
      TotalRemove(fs, b, f);
      TotalSame(fs - {f}, a, b);
    }
  }

  lemma {:induction false} TotalGrows<F>(fs: set<F>, a: map<F, real>, b: map<F, real>)
    requires fs <= a.Keys && fs <= b.Keys && forall f <- fs :: a[f] <= b[f]
    ensures Total(fs, a) <= Total(fs, b)
    decreases |fs|
  {
    if f :| f in fs {
      TotalRemove(fs, a, f);
      TotalRemove(fs, b, f);
      TotalGrows(fs - {f}, a, b);
    }
  }

  lemma {:induction false} TotalOfSome<F>(fs: set<F>, gs: set<F>, rates: map<F, real>)
    requires fs <= gs <= rates.Keys && forall f <- gs :: rates[f] >= 0.0
    ensures Total(fs, rates) <= Total(gs, rates)
    decreases |gs|
  {
    if g :| g in gs {
      TotalRemove(gs, rates, g);
      TotalOfSome(fs - {g}, gs - {g}, rates);
      if g in fs {
        TotalRemove(fs, rates, g);
      } else {
        assert fs - {g} == fs;
      }
    } else {
      assert fs == {};
    }
  }

  /** `on` says which flows cross a port. */
  ghost predicate Feasible<F, P>(on: map<P, set<F>>, rates: map<F, real>) {
    && (forall p <- on :: on[p] <= rates.Keys && Total(on[p], rates) <= CAPACITY)
    && (forall f <- rates :: rates[f] >= 0.0)
  }

  /** A full port on which no flow is faster than `f`. */
  ghost predicate Bottleneck<F, P>(on: map<P, set<F>>, rates: map<F, real>, f: F, p: P) {
    p in on && on[p] <= rates.Keys && f in on[p] && Total(on[p], rates) == CAPACITY && forall g <- on[p] :: rates[g] <= rates[f]
  }

  /**
   Max-min fairness: where `f` has a bottleneck, no feasible allocation gives it more without giving less to a flow
   that is no faster.
   */
  lemma MaxMinFair<F, P>(on: map<P, set<F>>, rates: map<F, real>, f: F, p: P, other: map<F, real>)
    requires Bottleneck(on, rates, f, p) && Feasible(on, other) && f in other && other[f] > rates[f]
    ensures exists g <- on[p] :: g in other && g in rates && rates[g] <= rates[f] && other[g] < rates[g]
  {
    var fs := on[p];
    if forall g <- fs :: other[g] >= rates[g] {
      TotalRemove(fs, rates, f);
      TotalRemove(fs, other, f);
      TotalGrows(fs - {f}, rates, other);
      assert false;
    }
  }

  ghost predicate HasBottleneck<F, P>(on: map<P, set<F>>, rates: map<F, real>, f: F) {
    exists p <- on :: Bottleneck(on, rates, f, p)
  }

  /** Every flow has a bottleneck. */
  ghost predicate AllBottlenecked<F, P>(on: map<P, set<F>>, rates: map<F, real>) {
    forall f <- rates :: HasBottleneck(on, rates, f)
  }

  /** A bottleneck stays one when other flows get their rates. */
  lemma BottleneckStays<F, P>(on: map<P, set<F>>, rates: map<F, real>, rates': map<F, real>, f: F)
    requires HasBottleneck(on, rates, f) && rates.Keys <= rates'.Keys && forall g <- rates :: rates'[g] == rates[g]
    ensures HasBottleneck(on, rates', f)
  {
    var p :| p in on && Bottleneck(on, rates, f, p);
    TotalSame(on[p], rates, rates');
    assert Bottleneck(on, rates', f, p);
  }

  /** No flow can gain in any feasible allocation unless one that is no faster loses. */
  lemma NoGainWithoutLoss<F, P>(on: map<P, set<F>>, rates: map<F, real>, f: F, other: map<F, real>)
    requires AllBottlenecked(on, rates) && f in rates && Feasible(on, other) && f in other && other[f] > rates[f]
    ensures exists g <- rates :: g in other && rates[g] <= rates[f] && other[g] < rates[g]
  {
    assert HasBottleneck(on, rates, f);
    var p :| p in on && Bottleneck(on, rates, f, p);
    MaxMinFair(on, rates, f, p, other);
  }

  function Slower(x: real, y: real): real {
    if x <= y then x else y
  }

  lemma {:induction false} SlowestOf<F>(d: set<F>, a: map<F, real>, b: map<F, real>) returns (f: F)
    requires d != {} && d <= a.Keys && d <= b.Keys
    ensures f in d && forall g <- d :: Slower(a[f], b[f]) <= Slower(a[g], b[g])
    decreases |d|
  {
    f :| f in d;
    if d != {f} {
      var g := SlowestOf(d - {f}, a, b);
      assert d == d - {f} + {f};
      if Slower(a[g], b[g]) < Slower(a[f], b[f]) {
        f := g;
      }
    }
  }

  /** There is only one such allocation: the outcome does not depend on which of several ports comes first. */
  lemma FairIsUnique<F, P>(on: map<P, set<F>>, a: map<F, real>, b: map<F, real>)
    requires Feasible(on, a) && Feasible(on, b) && a.Keys == b.Keys && AllBottlenecked(on, a) && AllBottlenecked(on, b)
    ensures a == b
  {
    hide Feasible, AllBottlenecked;
    var d := set f <- a | a[f] != b[f];
    if d == {} {
      forall f <- a ensures a[f] == b[f] {
        assert f !in d;
      }
    } else {
      var f := SlowestOf(d, a, b);
      var g := if a[f] < b[f] then SlowerElsewhere(on, a, b, f) else SlowerElsewhere(on, b, a, f);
    }
  }

  ghost function SlowerElsewhere<F, P>(on: map<P, set<F>>, a: map<F, real>, b: map<F, real>, f: F): (g: F)
    requires Feasible(on, a) && Feasible(on, b) && a.Keys == b.Keys && AllBottlenecked(on, a) && f in a && a[f] < b[f]
    ensures g in a && b[g] < a[g] <= a[f]
  {
    assert HasBottleneck(on, a, f);
    var p :| p in on && Bottleneck(on, a, f, p);
    MaxMinFair(on, a, f, p, b);
    var g :| g in on[p] && g in b && g in a && a[g] <= a[f] && b[g] < a[g];
    g
  }
}
