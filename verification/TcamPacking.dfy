/** Packing a wildcard table into fewer ternary entries under first-match semantics. */
module TcamPacking {
  import opened Wrappers

  /** One position of a ternary pattern: `*`, or a port number, padding value or port bit. */
  datatype Cell = Star | Val(n: int)

  type Pattern = seq<Cell>
  type Header = seq<int>

  /** A rule of a table; `None` is the null path, on which packets are dropped. */
  datatype Rule<+P> = Rule(inbits: Pattern, path: Option<P>)

  predicate Covers(p: Pattern, h: Header) {
    |p| == |h| && forall i | 0 <= i < |p| :: p[i] == Star || p[i] == Val(h[i])
  }

  method PartialMatches(inbits: Pattern, matchInbits: Pattern) returns (b: bool)
    requires |inbits| == |matchInbits|
    ensures b <==> Overlap(inbits, matchInbits)
  {
    for i := 0 to |inbits|
      invariant forall k | 0 <= k < i :: inbits[k] == Star || matchInbits[k] == Star || inbits[k] == matchInbits[k]
    {
      if matchInbits[i] != Star && inbits[i] != Star && inbits[i] != matchInbits[i] {
        return false;
      }
    }
    return true;
  }

  predicate Overlap(a: Pattern, b: Pattern) {
    |a| == |b| && forall k | 0 <= k < |a| :: a[k] == Star || b[k] == Star || a[k] == b[k]
  }

  /** Patterns overlap exactly when some header matches both. */
  lemma OverlapMeansCommonHeader(a: Pattern, b: Pattern)
    ensures Overlap(a, b) <==> exists h :: Covers(a, h) && Covers(b, h)
  {
    if Overlap(a, b) {
      var h := seq(|a|, i requires 0 <= i < |a| => if a[i].Val? then a[i].n else if b[i].Val? then b[i].n else 0);
      assert Covers(a, h) && Covers(b, h);
    }
  }

  method WildHammingDist(inbits: Pattern, m: Pattern) returns (dist: set<nat>)
    requires |inbits| == |m|
    ensures dist == Distance(inbits, m)
  {
    dist := {};
    for i := 0 to |inbits|
      invariant dist == set k: nat | k < i && m[k] != Star && inbits[k] != m[k]
    {
      if m[i] != Star && inbits[i] == Star {
        dist := dist + {i};
      } else if m[i] != Star && inbits[i] != m[i] {
        dist := dist + {i};
      }
    }
  }

  /** The positions at which `m` must be widened to contain `a`. */
  function Distance(a: Pattern, m: Pattern): set<nat>
    requires |a| == |m|
  {
    set k: nat | k < |m| && m[k] != Star && a[k] != m[k]
  }

  /** The distance is empty exactly when every header of `a` is a header of `m`. */
  lemma NoDistanceMeansContained(a: Pattern, m: Pattern)
    requires |a| == |m|
    ensures Distance(a, m) == {} <==> forall h :: Covers(a, h) ==> Covers(m, h)
  {
    if k :| k in Distance(a, m) {
      var h := seq(|a|, i requires 0 <= i < |a| => if a[i].Val? then a[i].n else m[k].n + 1);
      assert Covers(a, h) && !Covers(m, h);
    } else {
      forall h | Covers(a, h) ensures Covers(m, h) {
        forall i | 0 <= i < |m| ensures m[i] == Star || m[i] == Val(h[i]) {
          assert i !in Distance(a, m);
        }
      }
    }
  }

  function Widen(m: Pattern, dist: set<nat>): (w: Pattern)
    ensures |w| == |m|
  {
    seq(|m|, i requires 0 <= i < |m| => if i in dist then Star else m[i])
  }

  /** Widening `m` by its distance to `a` contains both. */
  lemma WidenContains(a: Pattern, m: Pattern)
    requires |a| == |m|
    ensures Distance(a, Widen(m, Distance(a, m))) == {} && Distance(m, Widen(m, Distance(a, m))) == {}
  {
    forall k: nat | k < |m| ensures k !in Distance(a, Widen(m, Distance(a, m))) {
      assert k in Distance(a, m) || m[k] == Star || a[k] == m[k];
    }
  }

  lemma ContainedTrans(a: Pattern, b: Pattern, c: Pattern)
    requires |a| == |b| == |c| && Distance(a, b) == {} && Distance(b, c) == {}
    ensures Distance(a, c) == {}
  {
    forall k: nat | k < |c| ensures k !in Distance(a, c) {
      assert k !in Distance(b, c) && k !in Distance(a, b);
    }
  }

  ghost predicate AllWidth(s: seq<Pattern>, w: nat) {
    forall p <- s :: |p| == w
  }

  ghost predicate Disjoint(prev: seq<Pattern>, e: Pattern) {
    forall p <- prev :: !Overlap(p, e)
  }

  method AnyMatches(prev: seq<Pattern>, e: Pattern) returns (b: bool)
    requires AllWidth(prev, |e|)
    ensures b <==> !Disjoint(prev, e)
  {
    for i := 0 to |prev|
      invariant Disjoint(prev[..i], e)
    {
      assert prev[..i + 1] == prev[..i] + [prev[i]];
      var m := PartialMatches(prev[i], e);
      if m {
        return true;
      }
    }
    assert prev[..|prev|] == prev;
    return false;
  }

  ghost predicate Contained(a: Pattern, entries: set<Pattern>) {
    exists e <- entries :: |e| == |a| && Distance(a, e) == {}
  }

  /** The narrowest pattern around both. */
  function Join(e: Pattern, f: Pattern): Pattern
    requires |e| == |f|
  {
    Widen(e, Distance(f, e))
  }

  /** Around both, some pattern of `prev` would be touched. */
  ghost predicate Blocked(prev: seq<Pattern>, e: Pattern, f: Pattern) {
    |e| == |f| && !Disjoint(prev, Join(e, f))
  }

  /** No two entries could be one. */
  ghost predicate Unjoinable(prev: seq<Pattern>, entries: set<Pattern>) {
    forall e, f | e in entries && f in entries && e != f :: Blocked(prev, e, f)
  }

  lemma JoinCells(e: Pattern, f: Pattern, k: nat)
    requires |e| == |f| && k < |e|
    ensures Join(e, f)[k] == if e[k] == f[k] then e[k] else Star
  {
  }

  lemma JoinSymmetric(e: Pattern, f: Pattern)
    requires |e| == |f|
    ensures Join(e, f) == Join(f, e)
  {
    forall k: nat | k < |e| ensures Join(e, f)[k] == Join(f, e)[k] {
      JoinCells(e, f, k);
      JoinCells(f, e, k);
    }
  }

  /** Widening one of two entries leaves them blocked. */
  lemma StaysBlocked(prev: seq<Pattern>, e: Pattern, a: Pattern, f: Pattern)
    requires Blocked(prev, e, f) && |a| == |e|
    ensures Blocked(prev, Join(e, a), f) && Blocked(prev, f, Join(e, a))
  {
    JoinSymmetric(Join(e, a), f);
    var p :| p in prev && Overlap(p, Join(e, f));
    var m := Join(Join(e, a), f);
    forall k: nat | k < |m| ensures p[k] == Star || m[k] == Star || p[k] == m[k] {
      JoinCells(e, f, k);
      JoinCells(e, a, k);
      JoinCells(Join(e, a), f, k);
    }
    assert Overlap(p, m);
  }

  /**
   What happens to the entries: the nearest one that can be joined with `inbits` is, or else `inbits` becomes an entry of
   its own.
   */
  ghost predicate Widened(inbits: Pattern, entries: set<Pattern>, prev: seq<Pattern>, out: set<Pattern>)
    requires forall e <- entries :: |e| == |inbits|
  {
    if forall e <- entries :: Blocked(prev, e, inbits) then out == entries + {inbits}
    else exists e <- entries :: out == entries - {e} + {Join(e, inbits)} && IsNearest(inbits, entries, prev, e)
  }

  ghost predicate IsNearest(inbits: Pattern, entries: set<Pattern>, prev: seq<Pattern>, e: Pattern)
    requires forall e <- entries :: |e| == |inbits|
  {
    && e in entries && !Blocked(prev, e, inbits)
    && forall o <- entries | !Blocked(prev, o, inbits) :: |Distance(inbits, e)| <= |Distance(inbits, o)|
  }

  lemma WidenedUnjoinable(inbits: Pattern, entries: set<Pattern>, prev: seq<Pattern>, out: set<Pattern>)
    requires forall e <- entries :: |e| == |inbits|
    requires Widened(inbits, entries, prev, out) && Unjoinable(prev, entries)
    ensures Unjoinable(prev, out)
  {
    hide Disjoint, Join;
    if forall e <- entries :: Blocked(prev, e, inbits) {
      forall e <- entries ensures Blocked(prev, inbits, e) {
        JoinSymmetric(e, inbits);
      }
    } else {
      var e :| e in entries && out == entries - {e} + {Join(e, inbits)};
      forall f <- entries | f != e ensures Blocked(prev, Join(e, inbits), f) && Blocked(prev, f, Join(e, inbits)) {
        StaysBlocked(prev, e, inbits, f);
      }
    }
  }

  /**
   Tries to widen one of `entries`, nearest first, so that it contains `inbits` without touching `prev`.
   */
  method WidenNearest(inbits: Pattern, entries: set<Pattern>, prev: seq<Pattern>) returns (out: set<Pattern>)
    requires AllWidth(prev, |inbits|) && forall e <- entries :: |e| == |inbits|
    ensures Contained(inbits, out) && (forall a | |a| == |inbits| && Contained(a, entries) :: Contained(a, out))
    ensures forall e <- out :: |e| == |inbits| && (e in entries || e == inbits || Disjoint(prev, e))
    ensures |out| <= |entries| + 1 && Widened(inbits, entries, prev, out)
  {
    hide Contained, Disjoint;
    var todo := entries;
    while todo != {}
      invariant todo <= entries && forall e <- entries - todo :: Blocked(prev, e, inbits)
    {
      var e :| e in todo && forall o <- todo :: |Distance(inbits, e)| <= |Distance(inbits, o)| by {
        Nearest(inbits, todo);
      }
      todo := todo - {e};
      var dist := WildHammingDist(inbits, e);
      var next := Widen(e, dist);
      var touches := AnyMatches(prev, next);
      if !touches {
        out := entries - {e} + {next};
        WidenContains(inbits, e);
        WidenedKeeps(inbits, entries, e, next);
        assert IsNearest(inbits, entries, prev, e);
        return;
      }
    }
    out := entries + {inbits};
    AddedKeeps(inbits, entries);
  }

  lemma WidenedKeeps(inbits: Pattern, entries: set<Pattern>, e: Pattern, next: Pattern)
    requires e in entries && |e| == |inbits| == |next| && Distance(inbits, next) == {} && Distance(e, next) == {}
    ensures var out := entries - {e} + {next};
      Contained(inbits, out) && forall a | |a| == |inbits| && Contained(a, entries) :: Contained(a, out)
  {
    var out := entries - {e} + {next};
    assert next in out;
    forall a | |a| == |inbits| && Contained(a, entries) ensures Contained(a, out) {
      var c :| c in entries && |c| == |a| && Distance(a, c) == {};
      if c == e {
        ContainedTrans(a, e, next);
      } else {
        assert c in out;
      }
    }
  }

  lemma AddedKeeps(inbits: Pattern, entries: set<Pattern>)
    ensures Contained(inbits, entries + {inbits})
    ensures forall a | |a| == |inbits| && Contained(a, entries) :: Contained(a, entries + {inbits})
  {
    assert Distance(inbits, inbits) == {};
    forall a | |a| == |inbits| && Contained(a, entries) ensures Contained(a, entries + {inbits}) {
      var c :| c in entries && |c| == |a| && Distance(a, c) == {};
      assert c in entries + {inbits};
    }
  }

  lemma {:induction false} Nearest(inbits: Pattern, todo: set<Pattern>)
    requires todo != {} && forall e <- todo :: |e| == |inbits|
    ensures exists e <- todo :: forall o <- todo :: |Distance(inbits, e)| <= |Distance(inbits, o)|
  {
    var x :| x in todo;
    if todo - {x} == {} {
      assert todo == {x};
    } else {
      Nearest(inbits, todo - {x});
      var y :| y in todo - {x} && forall o <- todo - {x} :: |Distance(inbits, y)| <= |Distance(inbits, o)|;
      var m := if |Distance(inbits, x)| <= |Distance(inbits, y)| then x else y;
      assert forall o <- todo :: o == x || o in todo - {x};
      assert m in todo && forall o <- todo :: |Distance(inbits, m)| <= |Distance(inbits, o)|;
    }
  }

  method HasContainer(inbits: Pattern, entries: set<Pattern>) returns (b: bool)
    requires forall e <- entries :: |e| == |inbits|
    ensures b <==> Contained(inbits, entries)
  {
    var todo := entries;
    while todo != {}
      invariant todo <= entries
      invariant forall e <- entries - todo :: Distance(inbits, e) != {}
    {
      var e :| e in todo;
      todo := todo - {e};
      var dist := WildHammingDist(inbits, e);
      if dist == {} {
        return true;
      }
    }
    return false;
  }

  /** Entries for a run of rules with the same path: they contain every rule, and none that is new touches an earlier rule. */
  ghost predicate EntriesFor(entries: set<Pattern>, curr: seq<Pattern>, prev: seq<Pattern>, w: nat) {
    && (forall a <- curr :: Contained(a, entries))
    && (forall e <- entries :: |e| == w && (e in curr || Disjoint(prev, e)))
  }

  lemma FirstEntry(a: Pattern, prev: seq<Pattern>, w: nat)
    requires |a| == w
    ensures EntriesFor({a}, [a], prev, w)
  {
    assert Distance(a, a) == {};
  }

  lemma EntriesGrow(entries: set<Pattern>, out: set<Pattern>, curr: seq<Pattern>, prev: seq<Pattern>, a: Pattern, w: nat)
    requires EntriesFor(entries, curr, prev, w) && AllWidth(curr, w) && |a| == w
    requires Contained(a, out) && (forall c | |c| == w && Contained(c, entries) :: Contained(c, out))
    requires forall e <- out :: |e| == w && (e in entries || e == a || Disjoint(prev, e))
    ensures EntriesFor(out, curr + [a], prev, w)
  {
  }

  /** Rule after rule: one that some entry contains changes nothing, any other one widens the nearest entry or becomes one. */
  ghost predicate Picked(curr: seq<Pattern>, prev: seq<Pattern>, entries: set<Pattern>) {
    if |curr| <= 1 then curr != [] && entries == {curr[0]}
    else
      var front, last := curr[..|curr| - 1], curr[|curr| - 1];
      exists before :: Picked(front, prev, before) && PickedNext(last, before, prev, entries)
  }

  ghost predicate PickedNext(inbits: Pattern, before: set<Pattern>, prev: seq<Pattern>, entries: set<Pattern>) {
    && (forall e <- before :: |e| == |inbits|)
    && if Contained(inbits, before) then entries == before else Widened(inbits, before, prev, entries)
  }

  lemma PickedOne(a: Pattern, prev: seq<Pattern>)
    ensures Picked([a], prev, {a}) && Contained(a, {a}) && Unjoinable(prev, {a})
  {
    assert Distance(a, a) == {} && a in {a};
  }

  lemma PickedAs(a: Pattern, before: set<Pattern>, prev: seq<Pattern>, entries: set<Pattern>)
    requires forall e <- before :: |e| == |a|
    requires if Contained(a, before) then entries == before else Widened(a, before, prev, entries)
    ensures PickedNext(a, before, prev, entries)
  {
  }

  lemma WidthOfEntries(entries: set<Pattern>, curr: seq<Pattern>, prev: seq<Pattern>, w: nat)
    requires EntriesFor(entries, curr, prev, w)
    ensures forall e <- entries :: |e| == w
  {
  }

  lemma PickedMore(curr: seq<Pattern>, a: Pattern, prev: seq<Pattern>, before: set<Pattern>, entries: set<Pattern>)
    requires Picked(curr, prev, before) && PickedNext(a, before, prev, entries)
    ensures Picked(curr + [a], prev, entries)
  {
    hide PickedNext;
    assert (curr + [a])[..|curr|] == curr;
  }

  /** The entries for one run of rules with the same path. */
  method PickNextEntries(curr: seq<Pattern>, prev: seq<Pattern>, ghost w: nat) returns (entries: set<Pattern>)
    requires curr != [] && AllWidth(curr, w) && AllWidth(prev, w)
    ensures EntriesFor(entries, curr, prev, w) && |entries| <= |curr| && Unjoinable(prev, entries) && Picked(curr, prev, entries)
  {
    hide Picked, PickedNext, Contained, Disjoint, Unjoinable, Widened, EntriesFor;
    entries := {curr[0]};
    FirstEntry(curr[0], prev, w);
    PickedOne(curr[0], prev);
    assert curr[..1] == [curr[0]];
    for i := 0 to |curr|
      invariant EntriesFor(entries, curr[..if i == 0 then 1 else i], prev, w)
      invariant |entries| <= (if i == 0 then 1 else i) && Unjoinable(prev, entries)
      invariant Picked(curr[..if i == 0 then 1 else i], prev, entries) && (i == 0 ==> Contained(curr[0], entries))
    {
      ghost var before, some := entries, curr[..if i == 0 then 1 else i];
      assert i == 0 || curr[..i + 1] == some + [curr[i]];
      WidthOfEntries(entries, some, prev, w);
      var have := HasContainer(curr[i], entries);
      if !have {
        entries := WidenNearest(curr[i], entries, prev);
        WidenedUnjoinable(curr[i], before, prev, entries);
      }
      if i > 0 {
        EntriesGrow(before, entries, some, prev, curr[i], w);
        PickedAs(curr[i], before, prev, entries);
        PickedMore(some, curr[i], prev, before, entries);
      }
    }
    assert curr[..|curr|] == curr;
  }

  /** The path of the first rule that covers `h`. */
  function FirstMatch<P>(table: seq<Rule<P>>, h: Header): Option<Option<P>> {
    if table == [] then None
    else if Covers(table[0].inbits, h) then Some(table[0].path)
    else FirstMatch(table[1..], h)
  }

  /** The path of the last rule that covers `h`. */
  function LastMatch<P>(table: seq<Rule<P>>, h: Header): Option<Option<P>> {
    if table == [] then None
    else if Covers(table[|table| - 1].inbits, h) then Some(table[|table| - 1].path)
    else LastMatch(table[..|table| - 1], h)
  }

  /** Reversing a table turns last match into first match. */
  lemma {:induction false} ReversedMatch<P>(table: seq<Rule<P>>, h: Header)
    ensures FirstMatch(Reversed(table), h) == LastMatch(table, h)
  {
    if table != [] {
      var n := |table| - 1;
      ReversedSnoc(table[..n], table[n]);
      assert table == table[..n] + [table[n]];
      ReversedMatch(table[..|table| - 1], h);
    } else {
    }
  }

  /** Overlapping rules with a path agree on it. */
  ghost predicate Consistent<P(!new)>(table: seq<Rule<P>>) {
    forall r, q | r in table && q in table && r.path.Some? && q.path.Some? && Overlap(r.inbits, q.inbits) :: r.path == q.path
  }

  ghost predicate Width<P>(table: seq<Rule<P>>, w: nat) {
    forall r <- table :: |r.inbits| == w
  }

  /** The rules of `done` that have a path are answered by the last match of `tcam`. */
  ghost predicate Answers<P(!new)>(tcam: seq<Rule<P>>, done: seq<Rule<P>>) {
    forall r, h | r in done && r.path.Some? && Covers(r.inbits, h) :: LastMatch(tcam, h) == Some(r.path)
  }

  /** `ps` lists the patterns of the rules of `table` that have a path. */
  ghost predicate PatternsOf<P(!new)>(table: seq<Rule<P>>, ps: seq<Pattern>) {
    && (forall r <- table :: r.path.Some? ==> r.inbits in ps)
    && (forall p <- ps :: exists r <- table :: r.path.Some? && r.inbits == p)
  }

  /** Appends one rule per entry, in whatever order the set yields them. */
  method AppendEntries<P(==)>(tcam: seq<Rule<P>>, entries: set<Pattern>, path: Option<P>) returns (out: seq<Rule<P>>)
    ensures |out| == |tcam| + |entries| && tcam <= out
    ensures forall r <- out[|tcam|..] :: r.path == path && r.inbits in entries
    ensures forall e <- entries :: Rule(e, path) in out[|tcam|..]
  {
    out := tcam;
    var todo := entries;
    assert out == tcam + [];
    ghost var block: seq<Rule<P>> := [];
    while todo != {}
      invariant todo <= entries && out == tcam + block && |block| == |entries - todo|
      invariant forall r <- block :: r.path == path && r.inbits in entries
      invariant forall e <- entries - todo :: Rule(e, path) in block
    {
      var e :| e in todo;
      out := out + [Rule(e, path)];
      block := block + [Rule(e, path)];
      assert entries - (todo - {e}) == (entries - todo) + {e};
      todo := todo - {e};
    }
    assert entries - todo == entries;
    assert out[|tcam|..] == block;
  }

  /** Rules appended behind a table answer the headers they cover and leave the rest to the table. */
  lemma {:induction false} AppendedMatch<P>(tcam: seq<Rule<P>>, out: seq<Rule<P>>, path: Option<P>, h: Header)
    requires tcam <= out && forall r <- out[|tcam|..] :: r.path == path
    ensures LastMatch(out, h) ==
      if exists r <- out[|tcam|..] :: Covers(r.inbits, h) then Some(path) else LastMatch(tcam, h)
    decreases |out|
  {
    if |out| == |tcam| {
      assert out == tcam;
    } else {
      var n := |out| - 1;
      assert out[|tcam|..] == out[..n][|tcam|..] + [out[n]];
      AppendedMatch(tcam, out[..n], path, h);
    }
  }

  ghost predicate AllPath<P>(run: seq<Rule<P>>, path: Option<P>) {
    forall r <- run :: r.path.Some? ==> r.path == path
  }

  /** Committing the entries of a run answers its rules, and disturbs no earlier one. */
  lemma CommitRun<P(!new)>(table: seq<Rule<P>>, done: seq<Rule<P>>, run: seq<Rule<P>>, path: Option<P>,
                           tcam: seq<Rule<P>>, out: seq<Rule<P>>, entries: set<Pattern>,
                           curr: seq<Pattern>, prev: seq<Pattern>, w: nat)
    requires Consistent(table) && Width(table, w) && path.Some?
    requires (forall r <- done :: r in table) && (forall r <- run :: r in table)
    requires PatternsOf(done, prev) && PatternsOf(run, curr) && AllPath(run, path)
    requires Answers(tcam, done) && EntriesFor(entries, curr, prev, w)
    requires tcam <= out && forall r <- out[|tcam|..] :: r.path == path && r.inbits in entries
    requires forall e <- entries :: Rule(e, path) in out[|tcam|..]
    ensures Answers(out, done + run)
  {
    forall r, h | r in done + run && r.path.Some? && Covers(r.inbits, h) ensures LastMatch(out, h) == Some(r.path) {
      AppendedMatch(tcam, out, path, h);
      if r in run {
        var e :| e in entries && |e| == |r.inbits| && Distance(r.inbits, e) == {};
        NoDistanceMeansContained(r.inbits, e);
        assert Covers(Rule(e, path).inbits, h);
      } else if q :| q in out[|tcam|..] && Covers(q.inbits, h) {
        OverlapMeansCommonHeader(r.inbits, q.inbits);
        assert Overlap(r.inbits, q.inbits);
        if q.inbits in curr {
          var c :| c in run && c.path.Some? && c.inbits == q.inbits;
        }
      }
    }
  }

  // ---------- Runs and their entries ----------

  /** The patterns of consecutive rules with one path; null paths between them do not count. */
  datatype Run<+P> = Run(pats: seq<Pattern>, path: P)

  function AddRule<P(==)>(runs: seq<Run<P>>, r: Rule<P>): seq<Run<P>> {
    var n := |runs| - 1;
    if r.path.None? then runs
    else if runs != [] && runs[n].path == r.path.value then runs[n := Run(runs[n].pats + [r.inbits], r.path.value)]
    else runs + [Run([r.inbits], r.path.value)]
  }

  function RunsOf<P(==)>(table: seq<Rule<P>>): seq<Run<P>> {
    if table == [] then [] else AddRule(RunsOf(table[..|table| - 1]), table[|table| - 1])
  }

  /** All patterns of the runs. */
  function PatsOf<P>(runs: seq<Run<P>>): seq<Pattern> {
    if runs == [] then [] else PatsOf(runs[..|runs| - 1]) + runs[|runs| - 1].pats
  }

  function Flat<T>(blocks: seq<seq<T>>): seq<T> {
    if blocks == [] then [] else Flat(blocks[..|blocks| - 1]) + blocks[|blocks| - 1]
  }

  /** The block lists the entries, each once, with the path of the run. */
  ghost predicate Lists<P>(block: seq<Rule<P>>, run: Run<P>, entries: set<Pattern>) {
    && |block| == |entries| && (forall r <- block :: r.path == Some(run.path) && r.inbits in entries)
    && forall e <- entries :: Rule(e, Some(run.path)) in block
  }

  /** The entries contain the patterns of the run, touch no earlier one but by a pattern of the run, and cannot be fewer by joining two. */
  ghost predicate PacksRun(run: Run, prev: seq<Pattern>, w: nat, entries: set<Pattern>) {
    EntriesFor(entries, run.pats, prev, w) && |entries| <= |run.pats| && Unjoinable(prev, entries) && Picked(run.pats, prev, entries)
  }

  ghost predicate IsBlock<P>(block: seq<Rule<P>>, run: Run<P>, prev: seq<Pattern>, w: nat) {
    exists entries :: Lists(block, run, entries) && PacksRun(run, prev, w, entries)
  }

  /** Behind the drop rule, one block for each run. */
  ghost predicate Packs<P>(tcam: seq<Rule<P>>, base: Rule<P>, runs: seq<Run<P>>, blocks: seq<seq<Rule<P>>>, w: nat) {
    && |blocks| == |runs| && tcam == [base] + Flat(blocks)
    && forall k: nat | k < |runs| :: IsBlock(blocks[k], runs[k], PatsOf(runs[..k]), w)
  }

  lemma PacksNothing<P>(base: Rule<P>, w: nat)
    ensures Packs([base], base, [], [], w)
  {
  }

  lemma PacksMore<P>(tcam: seq<Rule<P>>, base: Rule<P>, runs: seq<Run<P>>, blocks: seq<seq<Rule<P>>>, w: nat, run: Run<P>, block: seq<Rule<P>>)
    requires Packs(tcam, base, runs, blocks, w) && IsBlock(block, run, PatsOf(runs), w)
    ensures Packs(tcam + block, base, runs + [run], blocks + [block], w) && PatsOf(runs + [run]) == PatsOf(runs) + run.pats
  {
    hide IsBlock, PatsOf, Flat;
    var rs, bs := runs + [run], blocks + [block];
    FlatSnoc(blocks, block);
    PatsSnoc(runs, run);
    assert rs[..|runs|] == runs;
    forall k: nat | k < |rs| ensures IsBlock(bs[k], rs[k], PatsOf(rs[..k]), w) {
      if k < |runs| {
        assert rs[..k] == runs[..k];
      }
    }
    assert tcam + block == [base] + Flat(bs);
  }

  lemma FlatSnoc<T>(blocks: seq<seq<T>>, block: seq<T>)
    ensures Flat(blocks + [block]) == Flat(blocks) + block
  {
    assert (blocks + [block])[..|blocks|] == blocks;
  }

  lemma PatsSnoc<P>(runs: seq<Run<P>>, run: Run<P>)
    ensures PatsOf(runs + [run]) == PatsOf(runs) + run.pats
  {
    assert (runs + [run])[..|runs|] == runs;
  }

  lemma NothingBlocks(e: Pattern, f: Pattern)
    ensures !Blocked([], e, f)
  {
  }

  /** The first run becomes one entry, since nothing is in the way. */
  lemma FirstBlock<P>(tcam: seq<Rule<P>>, base: Rule<P>, runs: seq<Run<P>>, blocks: seq<seq<Rule<P>>>, w: nat)
    requires Packs(tcam, base, runs, blocks, w) && runs != [] && runs[0].pats != []
    ensures |blocks[0]| == 1
  {
    assert IsBlock(blocks[0], runs[0], PatsOf(runs[..0]), w);
    var entries :| Lists(blocks[0], runs[0], entries) && PacksRun(runs[0], [], w, entries);
    assert Contained(runs[0].pats[0], entries);
    var e :| e in entries;
    forall f <- entries ensures f == e {
      NothingBlocks(e, f);
    }
    assert entries == {e};
  }

  /** The rules of the runs, one after the other. */
  function Ruled<P>(runs: seq<Run<P>>): seq<Rule<P>> {
    if runs == [] then [] else Ruled(runs[..|runs| - 1]) + RulesOf(runs[|runs| - 1])
  }

  function RulesOf<P>(run: Run<P>): (s: seq<Rule<P>>)
    ensures |s| == |run.pats|
  {
    seq(|run.pats|, i requires 0 <= i < |run.pats| => Rule(run.pats[i], Some(run.path)))
  }

  /** The rules that have a path. */
  function WithPath<P>(table: seq<Rule<P>>): seq<Rule<P>> {
    if table == [] then []
    else WithPath(table[..|table| - 1]) + if table[|table| - 1].path.Some? then [table[|table| - 1]] else []
  }

  /** None is empty, and neighbours have different paths. */
  ghost predicate Maximal<P>(runs: seq<Run<P>>) {
    (forall k | 0 <= k < |runs| :: runs[k].pats != []) && forall k | 0 <= k < |runs| - 1 :: runs[k].path != runs[k + 1].path
  }

  lemma AddRuled<P>(runs: seq<Run<P>>, r: Rule<P>)
    requires Maximal(runs) && r.path.Some?
    ensures Maximal(AddRule(runs, r)) && Ruled(AddRule(runs, r)) == Ruled(runs) + [r]
  {
    var out, n := AddRule(runs, r), |runs| - 1;
    if runs != [] && runs[n].path == r.path.value {
      assert out[..n] == runs[..n];
      assert RulesOf(out[n]) == RulesOf(runs[n]) + [r];
    } else {
      assert out[..|runs|] == runs;
      assert RulesOf(out[|runs|]) == [r];
    }
  }

  /** The runs are the rules that have a path, in order, cut exactly where the path changes. */
  lemma {:induction false} RunsAreTable<P>(table: seq<Rule<P>>)
    ensures Ruled(RunsOf(table)) == WithPath(table) && Maximal(RunsOf(table))
    decreases |table|
  {
    hide Ruled, AddRule, Maximal;
    if table == [] {
      NoRuns<P>();
    } else {
      var n := |table| - 1;
      RunsAreTable(table[..n]);
      if table[n].path.Some? {
        AddRuled(RunsOf(table[..n]), table[n]);
      } else {
        AddNull(RunsOf(table[..n]), table[n]);
      }
    }
  }

  lemma NoRuns<P>()
    ensures Ruled<P>([]) == [] && Maximal<P>([])
  {
  }

  lemma AddNull<P>(runs: seq<Run<P>>, r: Rule<P>)
    requires r.path.None?
    ensures AddRule(runs, r) == runs
  {
  }

  /** `curr` and `path` describe the run `table[c..i]`, `prev` the rules before it. */
  ghost predicate RunState<P(!new)>(table: seq<Rule<P>>, c: nat, i: nat, prev: seq<Pattern>, curr: seq<Pattern>, path: Option<P>, w: nat) {
    && c <= i <= |table| && AllWidth(prev, w) && AllWidth(curr, w)
    && PatternsOf(table[..c], prev) && PatternsOf(table[c..i], curr) && AllPath(table[c..i], path)
    && (curr == [] <==> path.None?) && (prev != [] ==> curr != [])
  }

  /** Picks the entries of the run `table[c..i]` and puts them behind the rules so far. */
  method Commit<P(==, !new)>(tcam: seq<Rule<P>>, curr: seq<Pattern>, prev: seq<Pattern>, path: Option<P>,
                             ghost table: seq<Rule<P>>, ghost c: nat, ghost i: nat, ghost w: nat)
    returns (out: seq<Rule<P>>, ghost block: seq<Rule<P>>)
    requires Width(table, w) && RunState(table, c, i, prev, curr, path, w) && curr != []
    requires Consistent(table) ==> Answers(tcam, table[..c])
    ensures i <= |table|
    ensures out == tcam + block && |out| <= |tcam| + |curr| && path.Some? && IsBlock(block, Run(curr, path.value), prev, w)
    ensures Consistent(table) ==> Answers(out, table[..i])
  {
    hide PatternsOf, AllPath, EntriesFor, Answers, Consistent, Covers, Overlap, Unjoinable, Picked;
    var entries := PickNextEntries(curr, prev, w);
    out := AppendEntries(tcam, entries, path);
    block := out[|tcam|..];
    assert Lists(block, Run(curr, path.value), entries) && PacksRun(Run(curr, path.value), prev, w, entries);
    if Consistent(table) {
      CommitRun(table, table[..c], table[c..i], path, tcam, out, entries, curr, prev, w);
      assert table[..c] + table[c..i] == table[..i];
    }
  }

  lemma RunBegins<P(!new)>(table: seq<Rule<P>>, base: Rule<P>, w: nat)
    ensures RunState(table, 0, 0, [], [], None, w) && Answers([base], table[..0])
  {
  }

  lemma SkipNull<P(!new)>(table: seq<Rule<P>>, c: nat, i: nat, prev: seq<Pattern>, curr: seq<Pattern>, path: Option<P>, w: nat)
    requires i < |table| && RunState(table, c, i, prev, curr, path, w) && table[i].path.None?
    ensures RunState(table, c, i + 1, prev, curr, path, w)
  {
    assert table[c..i + 1] == table[c..i] + [table[i]];
  }

  lemma ExtendRun<P(!new)>(table: seq<Rule<P>>, c: nat, i: nat, prev: seq<Pattern>, curr: seq<Pattern>, path: Option<P>, w: nat)
    requires i < |table| && RunState(table, c, i, prev, curr, path, w) && |table[i].inbits| == w
    requires table[i].path.Some? && (path.Some? ==> path == table[i].path)
    ensures RunState(table, c, i + 1, prev, curr + [table[i].inbits], table[i].path, w)
  {
    assert table[c..i + 1] == table[c..i] + [table[i]];
  }

  lemma StartRun<P(!new)>(table: seq<Rule<P>>, c: nat, i: nat, prev: seq<Pattern>, curr: seq<Pattern>, path: Option<P>, w: nat)
    requires i < |table| && RunState(table, c, i, prev, curr, path, w) && |table[i].inbits| == w && table[i].path.Some?
    ensures RunState(table, i, i + 1, prev + curr, [table[i].inbits], table[i].path, w)
    ensures [] + [table[i].inbits] == [table[i].inbits]
  {
    assert table[..i] == table[..c] + table[c..i];
    assert table[i..i + 1] == [table[i]];
  }

  lemma RunAtEnd<P(!new)>(table: seq<Rule<P>>, c: nat, prev: seq<Pattern>, curr: seq<Pattern>, path: Option<P>, w: nat)
    requires RunState(table, c, |table|, prev, curr, path, w)
    ensures (curr == [] <==> forall r <- table :: r.path.None?) && (curr == [] <==> path.None?)
  {
    assert table == table[..c] + table[c..|table|];
    if curr != [] {
      assert curr[0] in curr;
    }
  }

  lemma RunsNext<P>(table: seq<Rule<P>>, i: nat)
    requires i < |table|
    ensures RunsOf(table[..i + 1]) == AddRule(RunsOf(table[..i]), table[i])
  {
    assert table[..i + 1][..i] == table[..i];
  }

  /** The committed runs, and the one that is still growing. */
  ghost predicate RunsSoFar<P>(table: seq<Rule<P>>, i: nat, runs: seq<Run<P>>, curr: seq<Pattern>, path: Option<P>)
    requires i <= |table|
  {
    (path.Some? <==> curr != []) && (path.None? ==> runs == []) && RunsOf(table[..i]) == runs + if path.Some? then [Run(curr, path.value)] else []
  }

  lemma RunsStart<P>(table: seq<Rule<P>>)
    ensures RunsSoFar(table, 0, [], [], None)
  {
  }

  /** A rule with a null path changes nothing, one with the same path goes into the run, and one with another path starts the next run. */
  lemma RunsStep<P>(table: seq<Rule<P>>, i: nat, runs: seq<Run<P>>, curr: seq<Pattern>, path: Option<P>)
    requires i < |table| && RunsSoFar(table, i, runs, curr, path)
    ensures table[i].path.None? ==> RunsSoFar(table, i + 1, runs, curr, path)
    ensures table[i].path.Some? && (path.None? || path == table[i].path) ==>
      RunsSoFar(table, i + 1, runs, curr + [table[i].inbits], table[i].path)
    ensures table[i].path.Some? && path.Some? && path != table[i].path ==>
      RunsSoFar(table, i + 1, runs + [Run(curr, path.value)], [table[i].inbits], table[i].path)
  {
    hide RunsOf;
    RunsNext(table, i);
    if table[i].path.Some? {
      if path.Some? {
        var all := runs + [Run(curr, path.value)];
        assert all[|runs| := Run(curr + [table[i].inbits], path.value)] == runs + [Run(curr + [table[i].inbits], path.value)];
      } else {
        assert curr + [table[i].inbits] == [table[i].inbits];
      }
    }
  }

  /**
   Packs `wildtable`; the source fails with an IndexError when the table is not empty but all its paths are null. Read
   from its end, the packed table is the drop rule and then one block of entries for each run.
   The sanity check between runs, which always raises, is not modelled.
   */
  method NewerPackTcam<P(==, !new)>(wildtable: seq<Rule<P>>, w: nat) returns (packed: Option<seq<Rule<P>>>, ghost blocks: seq<seq<Rule<P>>>)
    requires Width(wildtable, w)
    ensures packed.None? <==> wildtable != [] && forall r <- wildtable :: r.path.None?
    ensures packed.Some? ==> |packed.value| <= |wildtable| + 1
    ensures packed.Some? && Consistent(wildtable) ==>
      forall r, h | r in wildtable && r.path.Some? && Covers(r.inbits, h) :: FirstMatch(packed.value, h) == Some(r.path)
    ensures packed.Some? && wildtable != [] ==> forall h | |h| == w :: FirstMatch(packed.value, h).Some?
    ensures packed.Some? ==> PackedRuns(wildtable, packed.value, blocks, w) && (wildtable != [] ==> blocks != [] && |blocks[0]| == 1)
  {
    hide RunState, Consistent, Answers, Covers, Reversed, Packs, RunsSoFar, PatsOf, IsBlock, AddRule;
    blocks := [];
    if |wildtable| == 0 {
      NothingPacked(wildtable, w);
      return Some(wildtable), [];
    }
    var base: Rule<P> := DropRule(w);
    var tcam: seq<Rule<P>> := [base];
    var curr: seq<Pattern>, prev: seq<Pattern>, currPath: Option<P> := [], [], None;
    ghost var c, runs := 0, [];
    RunsStart(wildtable);
    PacksNothing(base, w);
    NoPats<P>();
    RunBegins(wildtable, base, w);
    for i := 0 to |wildtable|
      invariant RunState(wildtable, c, i, prev, curr, currPath, w) && c <= i
      invariant |prev| + |curr| <= i && |tcam| <= 1 + |prev| && [base] <= tcam && (curr == [] <==> currPath.None?)
      invariant Consistent(wildtable) ==> Answers(tcam, wildtable[..c])
      invariant RunsSoFar(wildtable, i, runs, curr, currPath) && Packs(tcam, base, runs, blocks, w) && prev == PatsOf(runs)
    {
      var r := wildtable[i];
      RunsStep(wildtable, i, runs, curr, currPath);
      if r.path.None? {
        SkipNull(wildtable, c, i, prev, curr, currPath, w);
        continue;
      }
      if currPath.Some? && currPath != r.path {
        ghost var before, block := tcam, [];
        tcam, block := Commit(tcam, curr, prev, currPath, wildtable, c, i, w);
        PacksMore(before, base, runs, blocks, w, Run(curr, currPath.value), block);
        runs, blocks := runs + [Run(curr, currPath.value)], blocks + [block];
        StartRun(wildtable, c, i, prev, curr, currPath, w);
        prev := prev + curr;
        curr, currPath, c := [], None, i;
      } else {
        ExtendRun(wildtable, c, i, prev, curr, currPath, w);
      }
      if currPath.None? {
        currPath := r.path;
      }
      curr := curr + [r.inbits];
    }
    RunAtEnd(wildtable, c, prev, curr, currPath, w);
    if curr == [] {
      return None, [];
    }
    ghost var before, block := tcam, [];
    tcam, block := Commit(tcam, curr, prev, currPath, wildtable, c, |wildtable|, w);
    PacksMore(before, base, runs, blocks, w, Run(curr, currPath.value), block);
    AllRuns(wildtable, runs, curr, currPath);
    blocks := blocks + [block];
    PackedFlat(tcam, base, RunsOf(wildtable), blocks, w);
    FirstPacked(tcam, base, wildtable, blocks, w);
    PackedAnswers(wildtable, tcam, base.inbits, w);
    packed := Some(Reversed(tcam));
  }

  /** From its end: the drop rule, and one block for each run of the table. */
  ghost predicate PackedRuns<P>(wildtable: seq<Rule<P>>, packed: seq<Rule<P>>, blocks: seq<seq<Rule<P>>>, w: nat) {
    if wildtable == [] then packed == []
    else packed == Reversed([DropRule(w)] + Flat(blocks)) && Packs([DropRule(w)] + Flat(blocks), DropRule(w), RunsOf(wildtable), blocks, w)
  }

  lemma FirstPacked<P>(tcam: seq<Rule<P>>, base: Rule<P>, table: seq<Rule<P>>, blocks: seq<seq<Rule<P>>>, w: nat)
    requires Packs(tcam, base, RunsOf(table), blocks, w) && RunsOf(table) != []
    ensures blocks != [] && |blocks[0]| == 1
  {
    RunsAreTable(table);
    FirstBlock(tcam, base, RunsOf(table), blocks, w);
  }

  lemma PackedFlat<P>(tcam: seq<Rule<P>>, base: Rule<P>, runs: seq<Run<P>>, blocks: seq<seq<Rule<P>>>, w: nat)
    requires Packs(tcam, base, runs, blocks, w)
    ensures tcam == [base] + Flat(blocks)
  {
  }

  function DropRule<P>(w: nat): Rule<P> {
    Rule(seq(w, i => Star), None)
  }

  lemma NothingPacked<P>(table: seq<Rule<P>>, w: nat)
    requires table == []
    ensures PackedRuns(table, table, [], w)
  {
  }

  lemma NoPats<P>()
    ensures PatsOf<P>([]) == []
  {
  }

  lemma AllRuns<P>(table: seq<Rule<P>>, runs: seq<Run<P>>, curr: seq<Pattern>, path: Option<P>)
    requires RunsSoFar(table, |table|, runs, curr, path) && path.Some?
    ensures RunsOf(table) == runs + [Run(curr, path.value)]
  {
    assert table[..|table|] == table;
  }

  /** An input that fails: one rule, which drops everything. */
  method NullPathFails() returns (packed: Option<seq<Rule<int>>>)
    ensures packed.None?
  {
    ghost var blocks;
    packed, blocks := NewerPackTcam([Rule([Star], None)], 1);
  }

  /** In the reversed table the first match is the last one of `tcam`; the drop rule matches whatever nothing else does. */
  lemma PackedAnswers<P(!new)>(table: seq<Rule<P>>, tcam: seq<Rule<P>>, base: Pattern, w: nat)
    requires tcam != [] && tcam[0].inbits == base && |base| == w && (forall c <- base :: c == Star)
    requires Consistent(table) ==> Answers(tcam, table[..|table|])
    ensures |Reversed(tcam)| == |tcam|
    ensures Consistent(table) ==>
      forall r, h | r in table && r.path.Some? && Covers(r.inbits, h) :: FirstMatch(Reversed(tcam), h) == Some(r.path)
    ensures forall h | |h| == w :: FirstMatch(Reversed(tcam), h).Some?
  {
    assert table[..|table|] == table;
    forall h ensures FirstMatch(Reversed(tcam), h) == LastMatch(tcam, h) {
      ReversedMatch(tcam, h);
    }
    forall h: Header | |h| == w ensures LastMatch(tcam, h).Some? {
      assert forall i | 0 <= i < |base| :: base[i] in base;
      DropRuleAnswers(tcam, base, h);
    }
  }

  lemma {:induction false} DropRuleAnswers<P>(tcam: seq<Rule<P>>, base: Pattern, h: Header)
    requires tcam != [] && tcam[0].inbits == base && Covers(base, h)
    ensures LastMatch(tcam, h).Some?
    decreases |tcam|
  {
    if |tcam| > 1 {
      DropRuleAnswers(tcam[..|tcam| - 1], base, h);
    }
  }
}
