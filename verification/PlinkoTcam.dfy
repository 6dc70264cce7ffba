/** The wildcard table of a switch, and its packed form. */
module PlinkoTcam {
  import opened Wrappers
  import opened Topology
  import opened PlinkoPaths
  import opened PlinkoBuilder
  import opened PlinkoWalk
  import opened Sorting
  import opened Prefixes
  import T = TcamPacking

  type WildRule = T.Rule<seq<Port>>

  /** All ports of `v`, each once, in descending order. */
  ghost predicate PortList(g: Graph, v: Vertex, ports: seq<Port>) {
    && (forall p :: (v, p) in g.ports <==> p in ports)
    && (forall i, j | 0 <= i < j < |ports| :: ports[i] > ports[j])
  }

  method SortedPorts(g: Graph, v: Vertex) returns (ports: seq<Port>)
    ensures PortList(g, v, ports)
  {
    ports := [];
    var todo := set k <- g.ports | k.0 == v :: k.1;
    ghost var all := todo;
    assert forall p :: (v, p) in g.ports <==> p in all;
    while todo != {}
      invariant forall p :: p in all <==> p in todo || p in ports
      invariant forall p, i | p in todo && 0 <= i < |ports| :: p < ports[i]
      invariant forall i, j | 0 <= i < j < |ports| :: ports[i] > ports[j]
    {
      ghost var l := Largest(todo);
      var m :| m in todo && forall p <- todo :: p <= m;
      todo := todo - {m};
      ports := ports + [m];
    }
  }

  lemma {:induction false} Largest(s: set<Port>) returns (m: Port)
    requires s != {}
    ensures m in s && forall p <- s :: p <= m
  {
    var x :| x in s;
    if s == {x} {
      m := x;
    } else {
      var l := Largest(s - {x});
      m := if x > l then x else l;
      assert forall p <- s :: p == x || p in s - {x};
    }
  }

  /** Reverse paths are padded with -1 to one more than the longest of them. */
  function Padded(rp: seq<Port>, maxLen: nat): (r: seq<int>)
    requires |rp| <= maxLen
    ensures |r| == maxLen + 1
  {
    seq(maxLen + 1, i requires 0 <= i <= maxLen => var c: int := if i < |rp| then rp[i] else -1; c)
  }

  function PortCell(g: Graph, v: Vertex, p: Port, uplink: Edge, local: set<Edge>): T.Cell
    requires (v, p) in g.ports
  {
    if g.ports[(v, p)] == uplink then T.Val(1)
    else if g.ports[(v, p)] in local then T.Val(0)
    else T.Star
  }

  /** The ternary pattern of an entry: the padded reverse path, then one cell per port. */
  function PatternOf(g: Graph, ports: seq<Port>, maxLen: nat, k: Key): (r: T.Pattern)
    requires |k.rp| <= maxLen && forall p <- ports :: (k.v, p) in g.ports
    ensures |r| == maxLen + 1 + |ports|
  {
    var pad := Padded(k.rp, maxLen);
    seq(|pad|, i requires 0 <= i < |pad| => T.Val(pad[i]))
      + seq(|ports|, i requires 0 <= i < |ports| => PortCell(g, k.v, ports[i], k.uplink, k.local))
  }

  /** The header bits of a packet with reverse path `rp` at a switch whose edges `localFailedE` are down. */
  function HeaderOf(g: Graph, v: Vertex, ports: seq<Port>, maxLen: nat, rp: seq<Port>, localFailedE: set<Edge>): (r: T.Header)
    requires |rp| <= maxLen && forall p <- ports :: (v, p) in g.ports
    ensures |r| == maxLen + 1 + |ports|
  {
    Padded(rp, maxLen) + seq(|ports|, i requires 0 <= i < |ports| => if g.ports[(v, ports[i])] in localFailedE then 0 else 1)
  }

  lemma PaddedInjective(a: seq<Port>, b: seq<Port>, maxLen: nat)
    requires |a| <= maxLen && |b| <= maxLen && Padded(a, maxLen) == Padded(b, maxLen)
    ensures a == b
  {
    assert Padded(a, maxLen)[|a|] == -1 && Padded(b, maxLen)[|b|] == -1;
    forall i | 0 <= i < |a| ensures a[i] == b[i] {
      assert Padded(a, maxLen)[i] == a[i] && Padded(b, maxLen)[i] == b[i];
    }
  }

  /** `k` is an entry of `v`: its uplink and its local failed edges sit behind ports of `v`, and the uplink is not failed. */
  ghost predicate EntryKey(g: Graph, v: Vertex, k: Key) {
    && k.v == v && k.uplink !in k.local
    && (exists p :: (v, p) in g.ports && g.ports[(v, p)] == k.uplink)
    && (forall e <- k.local :: exists p :: (v, p) in g.ports && g.ports[(v, p)] == e)
  }

  lemma CellsOf(g: Graph, v: Vertex, ports: seq<Port>, maxLen: nat, k: Key, rp: seq<Port>, localFailedE: set<Edge>)
    requires k.v == v && |k.rp| <= maxLen && |rp| <= maxLen && forall p <- ports :: (v, p) in g.ports
    ensures var n, pat, h := maxLen + 1, PatternOf(g, ports, maxLen, k), HeaderOf(g, v, ports, maxLen, rp, localFailedE);
      && (forall i | 0 <= i < n :: pat[i] == T.Val(Padded(k.rp, maxLen)[i]) && h[i] == Padded(rp, maxLen)[i])
      && (forall i | 0 <= i < |ports| :: pat[n + i] == PortCell(g, v, ports[i], k.uplink, k.local))
      && (forall i | 0 <= i < |ports| :: h[n + i] == if g.ports[(v, ports[i])] in localFailedE then 0 else 1)
  {
  }

  /** Every edge of the entry has its own position among the ports. */
  lemma PortOf(g: Graph, v: Vertex, ports: seq<Port>, e: Edge) returns (i: nat)
    requires PortList(g, v, ports) && exists p :: (v, p) in g.ports && g.ports[(v, p)] == e
    ensures i < |ports| && (v, ports[i]) in g.ports && g.ports[(v, ports[i])] == e
  {
    var p :| (v, p) in g.ports && g.ports[(v, p)] == e;
    i :| 0 <= i < |ports| && ports[i] == p;
  }

  lemma CoveredMeansMatch(g: Graph, v: Vertex, ports: seq<Port>, maxLen: nat, k: Key, rp: seq<Port>, localFailedE: set<Edge>)
    requires PortList(g, v, ports) && EntryKey(g, v, k) && |k.rp| <= maxLen && |rp| <= maxLen
    requires T.Covers(PatternOf(g, ports, maxLen, k), HeaderOf(g, v, ports, maxLen, rp, localFailedE))
    ensures k.rp == rp && Matches(k.uplink, k.local, localFailedE)
  {
    var n, pat, h := maxLen + 1, PatternOf(g, ports, maxLen, k), HeaderOf(g, v, ports, maxLen, rp, localFailedE);
    CellsOf(g, v, ports, maxLen, k, rp, localFailedE);
    hide PatternOf, HeaderOf;
    forall i | 0 <= i < n ensures Padded(k.rp, maxLen)[i] == Padded(rp, maxLen)[i] {
      assert pat[i] == T.Val(h[i]);
    }
    PaddedInjective(k.rp, rp, maxLen);
    var i := PortOf(g, v, ports, k.uplink);
    assert pat[n + i] == T.Val(1);
    forall e <- k.local ensures e in localFailedE {
      var j := PortOf(g, v, ports, e);
      assert pat[n + j] == T.Val(0);
    }
  }

  lemma MatchMeansCovered(g: Graph, v: Vertex, ports: seq<Port>, maxLen: nat, k: Key, rp: seq<Port>, localFailedE: set<Edge>)
    requires PortList(g, v, ports) && EntryKey(g, v, k) && |k.rp| <= maxLen && |rp| <= maxLen
    requires k.rp == rp && Matches(k.uplink, k.local, localFailedE)
    ensures T.Covers(PatternOf(g, ports, maxLen, k), HeaderOf(g, v, ports, maxLen, rp, localFailedE))
  {
    hide PatternOf, HeaderOf, Padded;
    CellsOf(g, v, ports, maxLen, k, rp, localFailedE);
    var n, pat, h := maxLen + 1, PatternOf(g, ports, maxLen, k), HeaderOf(g, v, ports, maxLen, rp, localFailedE);
    forall i | n <= i < |pat| ensures pat[i] == T.Star || pat[i] == T.Val(h[i]) {
      var j := i - n;
      assert pat[n + j] == PortCell(g, v, ports[j], k.uplink, k.local);
      assert h[n + j] == if g.ports[(v, ports[j])] in localFailedE then 0 else 1;
    }
  }

  /** The pattern of an entry covers the header of a packet exactly when the entry matches the packet. */
  lemma PatternMeansMatch(g: Graph, v: Vertex, ports: seq<Port>, maxLen: nat, k: Key, rp: seq<Port>, localFailedE: set<Edge>)
    requires PortList(g, v, ports) && EntryKey(g, v, k) && |k.rp| <= maxLen && |rp| <= maxLen
    ensures T.Covers(PatternOf(g, ports, maxLen, k), HeaderOf(g, v, ports, maxLen, rp, localFailedE))
       <==> k.rp == rp && Matches(k.uplink, k.local, localFailedE)
  {
    hide PatternOf, HeaderOf, Matches, T.Covers;
    if T.Covers(PatternOf(g, ports, maxLen, k), HeaderOf(g, v, ports, maxLen, rp, localFailedE)) {
      CoveredMeansMatch(g, v, ports, maxLen, k, rp, localFailedE);
    } else if k.rp == rp && Matches(k.uplink, k.local, localFailedE) {
      MatchMeansCovered(g, v, ports, maxLen, k, rp, localFailedE);
    }
  }

  /** Two entries of a chain never overlap: the earlier one's uplink is `1` in its pattern and `0` in the later one's. */
  lemma ChainPatternsDisjoint(g: Graph, v: Vertex, ports: seq<Port>, maxLen: nat, a: Key, b: Key)
    requires PortList(g, v, ports) && EntryKey(g, v, a) && EntryKey(g, v, b) && |a.rp| <= maxLen && |b.rp| <= maxLen
    requires a.rp != b.rp || a.uplink in b.local
    ensures !T.Overlap(PatternOf(g, ports, maxLen, a), PatternOf(g, ports, maxLen, b))
  {
    hide PatternOf, HeaderOf, Padded;
    var x, y := PatternOf(g, ports, maxLen, a), PatternOf(g, ports, maxLen, b);
    var n := maxLen + 1;
    CellsOf(g, v, ports, maxLen, a, [], {});
    CellsOf(g, v, ports, maxLen, b, [], {});
    if a.rp != b.rp {
      if Padded(a.rp, maxLen) == Padded(b.rp, maxLen) {
        PaddedInjective(a.rp, b.rp, maxLen);
      } else {
        var i :| 0 <= i < n && Padded(a.rp, maxLen)[i] != Padded(b.rp, maxLen)[i];
        assert x[i] != y[i];
      }
    } else {
      var i := PortOf(g, v, ports, a.uplink);
      assert x[n + i] == T.Val(1) && y[n + i] == T.Val(0);
    }
  }

  function RuleOf(g: Graph, table: Table, ports: seq<Port>, maxLen: nat, k: Key): (r: WildRule)
    requires k in table && |k.rp| <= maxLen && forall p <- ports :: (k.v, p) in g.ports
  {
    T.Rule(PatternOf(g, ports, maxLen, k), Some(table[k].hops))
  }

  /** `rules` holds exactly the entries of `v`, as patterns, in some order. */
  ghost predicate WildTable(g: Graph, table: Table, v: Vertex, ports: seq<Port>, maxLen: nat, rules: seq<WildRule>) {
    && PortList(g, v, ports)
    && (forall k <- table | k.v == v :: |k.rp| <= maxLen && RuleOf(g, table, ports, maxLen, k) in rules)
    && (forall r <- rules :: RuleFor(g, table, v, ports, maxLen, r))
  }

  ghost predicate RuleFor(g: Graph, table: Table, v: Vertex, ports: seq<Port>, maxLen: nat, r: WildRule)
    requires PortList(g, v, ports)
  {
    exists k <- table :: k.v == v && |k.rp| <= maxLen && r == RuleOf(g, table, ports, maxLen, k)
  }

  /** `n` is the length of the longest reverse path; with no entries it is 0. */
  ghost predicate Longest(items: set<Key>, n: nat) {
    (forall k <- items :: |k.rp| <= n) && (n == 0 || exists k <- items :: |k.rp| == n)
  }

  method LongestPath(items: set<Key>) returns (maxLen: nat)
    ensures Longest(items, maxLen)
  {
    maxLen := 0;
    var todo := items;
    while todo != {}
      invariant todo <= items && Longest(items - todo, maxLen)
    {
      var k :| k in todo;
      assert items - (todo - {k}) == items - todo + {k};
      todo := todo - {k};
      maxLen := if |k.rp| > maxLen then |k.rp| else maxLen;
    }
  }

  /** The number of stars. */
  function Wilds(mask: T.Pattern): nat {
    if mask == [] then 0 else (if mask[0] == T.Star then 1 else 0) + Wilds(mask[1..])
  }

  /** How many exact entries the rules of one path stand for; `n` cells in front are the reverse path. */
  function ExactSize(rules: seq<WildRule>, path: Option<seq<Port>>, n: nat): nat {
    if rules == [] then 0
    else (if rules[0].path == path && n <= |rules[0].inbits| then Pow2(Wilds(rules[0].inbits[n..])) else 0) + ExactSize(rules[1..], path, n)
  }

  /** Cells in the order of their characters: a star comes before every digit. */
  function Codes(p: T.Pattern): (k: seq<int>)
    ensures |k| == |p|
  {
    seq(|p|, i requires 0 <= i < |p| => var c: int := if p[i] == T.Star then -2 else p[i].n; c)
  }

  /** Null paths above all; then by the exact entries of the path, the mask, and the reverse path. */
  function WildKey(rules: seq<WildRule>, n: nat, r: WildRule): seq<int> {
    if r.path.None? || n > |r.inbits| then [1] else [0, ExactSize(rules, r.path, n)] + Codes(r.inbits[n..]) + Codes(r.inbits[..n])
  }

  /** Largest first. */
  ghost predicate WildSorted(rules: seq<WildRule>, n: nat) {
    forall i, j | 0 <= i < j < |rules| :: LexLe(WildKey(rules, n, rules[j]), WildKey(rules, n, rules[i]))
  }

  lemma {:induction false} SizeOfRest(rules: seq<WildRule>, path: Option<seq<Port>>, n: nat, i: nat)
    requires i < |rules|
    ensures ExactSize(rules, path, n) == ExactSize([rules[i]], path, n) + ExactSize(rules[..i] + rules[i + 1..], path, n)
    decreases i
  {
    if i == 0 {
      var one: seq<WildRule> := [rules[0]];
      assert one[1..] + rules[1..] == rules[1..] && rules[..0] + rules[1..] == rules[1..];
    } else {
      SizeOfRest(rules[1..], path, n, i - 1);
      var rest := rules[..i] + rules[i + 1..];
      assert rest[1..] == rules[1..][..i - 1] + rules[1..][i..];
    }
  }

  /** The sizes do not depend on the order of the rules. */
  lemma {:induction false} SizeOfSame(a: seq<WildRule>, c: seq<WildRule>, path: Option<seq<Port>>, n: nat)
    requires multiset(a) == multiset(c)
    ensures ExactSize(a, path, n) == ExactSize(c, path, n)
    decreases |a|
  {
    hide ExactSize;
    SameElems(a, c);
    if a != [] {
      assert a[0] in a;
      var i :| 0 <= i < |c| && c[i] == a[0];
      WithoutOne(a, c, i);
      SizeOfRest(a, path, n, 0);
      SizeOfRest(c, path, n, i);
      SizeOfSame(a[1..], c[..i] + c[i + 1..], path, n);
      assert a[..0] + a[0 + 1..] == a[1..];
    } else {
      assert c == [];
    }
  }

  lemma WithoutOne<X>(a: seq<X>, c: seq<X>, i: nat)
    requires multiset(a) == multiset(c) && a != [] && i < |c| && c[i] == a[0]
    ensures multiset(a[1..]) == multiset(c[..i] + c[i + 1..])
  {
    OneOut(a, 0);
    OneOut(c, i);
    assert a[..0] + a[0 + 1..] == a[1..];
  }

  lemma OneOut<X>(s: seq<X>, i: nat)
    requires i < |s|
    ensures multiset(s[..i] + s[i + 1..]) == multiset(s) - multiset{s[i]}
  {
    assert s == s[..i] + ([s[i]] + s[i + 1..]);
    assert multiset(s) == multiset(s[..i]) + (multiset{s[i]} + multiset(s[i + 1..]));
  }

  /** Sorts the rules so that the largest come first. */
  method SortWildTable(rules: seq<WildRule>, n: nat) returns (sorted: seq<WildRule>)
    ensures multiset(sorted) == multiset(rules) && WildSorted(sorted, n)
  {
    hide WildKey, LexLe, ExactSize;
    var key := (r: WildRule) => WildKey(rules, n, r);
    var ascending := SortBy(rules, key);
    sorted := Reversed(ascending);
    ReversedCount(ascending);
    forall i, j | 0 <= i < j < |sorted| ensures LexLe(WildKey(sorted, n, sorted[j]), WildKey(sorted, n, sorted[i])) {
      ReversedAt(ascending, i);
      ReversedAt(ascending, j);
      assert LexLe(key(ascending[|ascending| - 1 - j]), key(ascending[|ascending| - 1 - i]));
      SameKeys(rules, sorted, n, sorted[i]);
      SameKeys(rules, sorted, n, sorted[j]);
    }
  }

  lemma SameKeys(a: seq<WildRule>, c: seq<WildRule>, n: nat, r: WildRule)
    requires multiset(a) == multiset(c)
    ensures WildKey(a, n, r) == WildKey(c, n, r)
  {
    SizeOfSame(a, c, r.path, n);
  }

  lemma {:induction false} ReversedAt<X>(s: seq<X>, i: nat)
    requires i < |s|
    ensures Reversed(s)[i] == s[|s| - 1 - i]
  {
    if i < |s| - 1 {
      ReversedAt(s[1..], i);
    } else {
    }
  }

  lemma {:induction false} ReversedCount<X>(s: seq<X>)
    ensures multiset(Reversed(s)) == multiset(s)
  {
    if s != [] {
      ReversedCount(s[1..]);
      assert s == [s[0]] + s[1..];
    } else {
    }
  }

  /** Builds the wildcard table of `v`, sorted: one pattern for each entry. */
  method BuildWildTable(g: Graph, v: Vertex, table: Table) returns (ports: seq<Port>, maxLen: nat, rules: seq<WildRule>)
    ensures WildTable(g, table, v, ports, maxLen, rules) && WildSorted(rules, maxLen + 1)
    ensures |rules| == |set k <- table | k.v == v| && Longest((set k <- table | k.v == v), maxLen)
  {
    hide WildSorted, RuleOf, RuleFor;
    ports := SortedPorts(g, v);
    var items := set k <- table | k.v == v;
    maxLen := LongestPath(items);
    var unsorted := RulesOf(g, v, table, ports, maxLen, items);
    rules := SortWildTable(unsorted, maxLen + 1);
    SameElems(rules, unsorted);
  }

  lemma RuleIsFor(g: Graph, table: Table, v: Vertex, ports: seq<Port>, maxLen: nat, k: Key)
    requires PortList(g, v, ports) && k in table && k.v == v && |k.rp| <= maxLen
    ensures RuleFor(g, table, v, ports, maxLen, RuleOf(g, table, ports, maxLen, k))
  {
  }

  method RulesOf(g: Graph, v: Vertex, table: Table, ports: seq<Port>, maxLen: nat, items: set<Key>) returns (rules: seq<WildRule>)
    requires PortList(g, v, ports) && forall k <- items :: k in table && k.v == v && |k.rp| <= maxLen
    ensures forall k <- items :: RuleOf(g, table, ports, maxLen, k) in rules
    ensures forall r <- rules :: RuleFor(g, table, v, ports, maxLen, r)
    ensures |rules| == |items|
  {
    hide PatternOf, RuleOf, RuleFor;
    var todo := items;
    rules := [];
    while todo != {}
      invariant todo <= items && |rules| == |items - todo|
      invariant forall k <- items - todo :: RuleOf(g, table, ports, maxLen, k) in rules
      invariant forall r <- rules :: RuleFor(g, table, v, ports, maxLen, r)
    {
      var k :| k in todo;
      assert items - (todo - {k}) == items - todo + {k};
      todo := todo - {k};
      var r := RuleOf(g, table, ports, maxLen, k);
      RuleIsFor(g, table, v, ports, maxLen, k);
      rules := rules + [r];
    }
    assert items - todo == items;
  }

  lemma KeyIsEntry(g: Graph, dst: Vertex, recs: Records, n: Name)
    requires WellFormed(g) && ValidRecords(g, dst, recs) && n in recs
    ensures EntryKey(g, recs[n].path.v, KeyOf(g, recs[n].path))
  {
    var p := recs[n].path;
    var e := EdgeAt(g, p.v, p.hops, 0);
    assert (p.v, p.hops[0]) in g.ports && g.ports[(p.v, p.hops[0])] == e;
    forall f <- LocalFailed(g, p.v, p.failedE) ensures exists q :: (p.v, q) in g.ports && g.ports[(p.v, q)] == f {
      var k :| k in g.ports && k.0 == p.v && g.ports[k] == f;
      assert (p.v, k.1) in g.ports;
    }
  }

  /** No two rules of a wildcard table overlap unless they agree on the path. */
  lemma WildTableConsistent(g: Graph, dst: Vertex, recs: Records, table: Table, v: Vertex, ports: seq<Port>, maxLen: nat, rules: seq<WildRule>)
    requires WellFormed(g) && ValidRecords(g, dst, recs) && TableOf(g, table, recs)
    requires WildTable(g, table, v, ports, maxLen, rules)
    ensures T.Consistent(rules)
  {
    forall r, q | r in rules && q in rules && T.Overlap(r.inbits, q.inbits) ensures r.path == q.path {
      assert RuleFor(g, table, v, ports, maxLen, r) && RuleFor(g, table, v, ports, maxLen, q);
      var k :| k in table && k.v == v && |k.rp| <= maxLen && r == RuleOf(g, table, ports, maxLen, k);
      var l :| l in table && l.v == v && |l.rp| <= maxLen && q == RuleOf(g, table, ports, maxLen, l);
      OverlapMeansSameKey(g, dst, recs, table, v, ports, maxLen, k, l);
    }
  }

  lemma OverlapMeansSameKey(g: Graph, dst: Vertex, recs: Records, table: Table, v: Vertex, ports: seq<Port>, maxLen: nat, k: Key, l: Key)
    requires WellFormed(g) && ValidRecords(g, dst, recs) && TableOf(g, table, recs) && PortList(g, v, ports)
    requires k in table && l in table && k.v == v && l.v == v && |k.rp| <= maxLen && |l.rp| <= maxLen
    requires T.Overlap(PatternOf(g, ports, maxLen, k), PatternOf(g, ports, maxLen, l))
    ensures k == l
  {
    var a := TableRecord(g, dst, recs, table, k);
    var b := TableRecord(g, dst, recs, table, l);
    hide TableOf, PatternOf, T.Overlap;
    KeyIsEntry(g, dst, recs, a);
    KeyIsEntry(g, dst, recs, b);
    OverlapSymmetric(PatternOf(g, ports, maxLen, k), PatternOf(g, ports, maxLen, l));
    if k.rp != l.rp {
      ChainPatternsDisjoint(g, v, ports, maxLen, k, l);
    } else if a != b {
      SameRouteComparable(g, dst, recs, a, b);
      if ProperPrefix(a, b) {
        SameRouteChain(g, dst, recs, a, b);
        ChainPatternsDisjoint(g, v, ports, maxLen, k, l);
      } else {
        SameRouteChain(g, dst, recs, b, a);
        ChainPatternsDisjoint(g, v, ports, maxLen, l, k);
      }
    }
  }

  lemma OverlapSymmetric(a: T.Pattern, b: T.Pattern)
    ensures T.Overlap(a, b) <==> T.Overlap(b, a)
  {
  }

  /**
   Builds and packs the table of one switch. The packed table, read first match first, sends every packet that some
   entry matches on the path of that entry. It is the packing, run by run, of the sorted patterns of the entries.
   */
  method PackSwitch(g: Graph, dst: Vertex, v: Vertex, table: Table, ghost recs: Records)
    returns (ports: seq<Port>, maxLen: nat, packed: seq<WildRule>, ghost rules: seq<WildRule>, ghost blocks: seq<seq<WildRule>>)
    requires WellFormed(g) && ValidRecords(g, dst, recs) && TableOf(g, table, recs)
    ensures PortList(g, v, ports) && Longest((set k <- table | k.v == v), maxLen) && forall k <- table | k.v == v :: |k.rp| <= maxLen
    ensures |packed| <= |set k <- table | k.v == v| + 1
    ensures WildTable(g, table, v, ports, maxLen, rules) && WildSorted(rules, maxLen + 1)
    ensures T.PackedRuns(rules, packed, blocks, maxLen + 1 + |ports|) && (rules != [] ==> blocks != [] && |blocks[0]| == 1)
    ensures forall k, localFailedE | k in table && k.v == v && Matches(k.uplink, k.local, localFailedE) ::
      T.FirstMatch(packed, HeaderOf(g, v, ports, maxLen, k.rp, localFailedE)) == Some(Some(table[k].hops))
  {
    hide WildSorted, T.PackedRuns, ValidRecords, TableOf, T.Covers, HeaderOf, T.Consistent;
    var wildtable;
    ports, maxLen, wildtable := BuildWildTable(g, v, table);
    rules := wildtable;
    WildTableConsistent(g, dst, recs, table, v, ports, maxLen, rules);
    forall r <- rules ensures |r.inbits| == maxLen + 1 + |ports| && r.path.Some? {
      assert RuleFor(g, table, v, ports, maxLen, r);
    }
    var result;
    result, blocks := T.NewerPackTcam(wildtable, maxLen + 1 + |ports|);
    assert rules != [] ==> rules[0].path.Some?;
    packed := result.value;
    forall k, localFailedE | k in table && k.v == v && Matches(k.uplink, k.local, localFailedE)
      ensures T.FirstMatch(packed, HeaderOf(g, v, ports, maxLen, k.rp, localFailedE)) == Some(Some(table[k].hops))
    {
      var r := RuleFits(g, dst, recs, table, v, ports, maxLen, rules, k, localFailedE);
    }
  }

  /** The rule of a matching entry covers the packet. */
  lemma RuleFits(g: Graph, dst: Vertex, recs: Records, table: Table, v: Vertex, ports: seq<Port>, maxLen: nat, rules: seq<WildRule>, k: Key,
                 localFailedE: set<Edge>) returns (r: WildRule)
    requires WellFormed(g) && ValidRecords(g, dst, recs) && TableOf(g, table, recs) && WildTable(g, table, v, ports, maxLen, rules)
    requires k in table && k.v == v && Matches(k.uplink, k.local, localFailedE)
    ensures r in rules && r.path == Some(table[k].hops) && T.Covers(r.inbits, HeaderOf(g, v, ports, maxLen, k.rp, localFailedE))
  {
    var n := TableRecord(g, dst, recs, table, k);
    KeyIsEntry(g, dst, recs, n);
    PatternMeansMatch(g, v, ports, maxLen, k, k.rp, localFailedE);
    r := RuleOf(g, table, ports, maxLen, k);
  }
}
