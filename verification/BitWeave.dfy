/**
 Minimizing a ternary table part by part: prefixes in, fewest prefixes out, every key classified as before; and what the
 merging of single digits makes of that.
 */
module BitWeave {
  import opened Wrappers
  import opened Prefixes
  import opened RuleLists
  import opened Ternary
  import opened Classes
  import R = MergeRounds
  import C = MaxCubes
  import G = BitMerge
  import H = MergeHides
  import S = Suri

  // ---------- Keys, and the numbers they stand for ----------

  /** The number with the binary digits `h`, the first one the most significant. */
  function Val(h: seq<bool>): (n: nat)
    ensures n < Pow2(|h|)
  {
    if h == [] then 0 else (if h[0] then Pow2(|h| - 1) else 0) + Val(h[1..])
  }

  lemma ValHead(h: seq<bool>)
    requires h != []
    ensures Val(h) == (if h[0] then Pow2(|h| - 1) else 0) + Val(h[1..]) && Val(h[1..]) < Pow2(|h| - 1)
  {
  }

  // ---------- Prefix rules as intervals ----------

  /** The interval of a prefix rule whose numbers start at `base`. */
  function IntervalOf(r: seq<Cell>, base: int): Interval {
    if r == [] || r[0] == Star then Interval(base, base + Pow2(|r|) - 1)
    else IntervalOf(r[1..], base + if r[0] == One then Pow2(|r| - 1) else 0)
  }

  lemma PrefixTail(r: seq<Cell>)
    requires IsPrefixRule(r) && r != []
    ensures IsPrefixRule(r[1..]) && (r[0] == Star ==> forall i | 0 <= i < |r| :: r[i] == Star)
  {
  }

  /** The interval holds exactly the numbers of the keys that the rule matches. */
  lemma {:induction false} IntervalMatches(r: seq<Cell>, h: seq<bool>, base: int)
    requires IsPrefixRule(r) && |r| == |h|
    ensures var i := IntervalOf(r, base); MatchesKey(r, h) <==> i.lo <= base + Val(h) <= i.hi
    ensures base <= IntervalOf(r, base).lo && IntervalOf(r, base).hi < base + Pow2(|r|)
    decreases |r|
  {
    if r != [] {
      PrefixTail(r);
      MatchesRest(r, h);
      if r[0] != Star {
        IntervalMatches(r[1..], h[1..], base + if r[0] == One then Pow2(|r| - 1) else 0);
      }
    }
  }

  lemma {:induction false} IntervalIsNode(r: seq<Cell>, base: int)
    ensures Node(IntervalOf(r, base), Interval(base, base + Pow2(|r|) - 1), |r|)
    decreases |r|
  {
    if r != [] && r[0] != Star {
      var p := Interval(base, base + Pow2(|r|) - 1);
      IntervalIsNode(r[1..], base + if r[0] == One then Pow2(|r| - 1) else 0);
      assert Low(p) == Interval(base, base + Pow2(|r| - 1) - 1);
      assert High(p) == Interval(base + Pow2(|r| - 1), base + Pow2(|r| - 1) + Pow2(|r| - 1) - 1);
    }
  }

  function Stars(r: seq<Cell>): (n: nat)
    ensures n <= |r|
  {
    if r == [] then 0 else (if r[0] == Star then 1 else 0) + Stars(r[1..])
  }

  lemma {:induction false} AllStars(r: seq<Cell>)
    requires forall i | 0 <= i < |r| :: r[i] == Star
    ensures Stars(r) == |r|
  {
    if r != [] {
      AllStars(r[1..]);
    } else {
    }
  }

  lemma {:induction false} AllStarsBack(r: seq<Cell>)
    requires Stars(r) == |r|
    ensures forall i | 0 <= i < |r| :: r[i] == Star
  {
    if r != [] {
      AllStarsBack(r[1..]);
      assert r == [r[0]] + r[1..];
    } else {
    }
  }

  /** The digits of a rule without stars. */
  function Digits(r: seq<Cell>): (h: seq<bool>)
    ensures |h| == |r|
  {
    seq(|r|, i requires 0 <= i < |r| => r[i] == One)
  }

  /** What the program computes from the leading digits and the number of stars. */
  function LowOf(r: seq<Cell>): int {
    Val(Digits(r[..|r| - Stars(r)])) * Pow2(Stars(r))
  }

  lemma DigitsTail(d: seq<Cell>)
    requires d != []
    ensures Digits(d)[1..] == Digits(d[1..]) && Digits(d)[0] == (d[0] == One)
  {
  }

  lemma StarsTail(r: seq<Cell>)
    requires r != [] && r[0] != Star
    ensures Stars(r) == Stars(r[1..]) < |r|
  {
  }

  lemma DigitsStep(r: seq<Cell>)
    requires r != [] && r[0] != Star
    ensures Stars(r) == Stars(r[1..]) < |r|
    ensures Val(Digits(r[..|r| - Stars(r)])) ==
      (if r[0] == One then Pow2(|r| - 1 - Stars(r)) else 0) + Val(Digits(r[1..][..|r| - 1 - Stars(r)]))
  {
    hide *;
    StarsTail(r);
    TakeTail(r, |r| - Stars(r));
    ValOfDigits(r[..|r| - Stars(r)]);
  }

  lemma ValOfDigits(d: seq<Cell>)
    requires d != []
    ensures Val(Digits(d)) == (if d[0] == One then Pow2(|d| - 1) else 0) + Val(Digits(d[1..]))
  {
    hide *;
    DigitsTail(d);
    ValHead(Digits(d));
  }

  lemma TakeTail<T>(s: seq<T>, n: nat)
    requires 0 < n <= |s|
    ensures s[..n][1..] == s[1..][..n - 1] && s[..n][0] == s[0]
  {
  }

  lemma LowStep(r: seq<Cell>)
    requires r != [] && r[0] != Star
    ensures LowOf(r) == (if r[0] == One then Pow2(|r| - 1) else 0) + LowOf(r[1..])
  {
    hide Pow2, Stars, Val, Digits;
    DigitsStep(r);
    var s := Stars(r);
    Pow2Add(|r| - 1 - s, s);
    ProductOfSum(if r[0] == One then Pow2(|r| - 1 - s) else 0, Val(Digits(r[1..][..|r| - 1 - s])), Pow2(s));
  }

  /** What the program computes is the interval of the rule. */
  lemma {:induction false} LowIsInterval(r: seq<Cell>, base: int)
    requires IsPrefixRule(r)
    ensures IntervalOf(r, base) == Interval(base + LowOf(r), base + LowOf(r) + Pow2(Stars(r)) - 1)
    decreases |r|
  {
    if r != [] {
      PrefixTail(r);
      if r[0] == Star {
        AllStars(r);
        assert Digits(r[..0]) == [];
      } else {
        LowIsInterval(r[1..], base + if r[0] == One then Pow2(|r| - 1) else 0);
        LowStep(r);
      }
    } else {
      assert Digits(r[..0]) == [];
    }
  }

  lemma ProductOfSum(a: int, b: int, c: int)
    ensures (a + b) * c == a * c + b * c
  {
  }

  // ---------- From rules to intervals ----------

  /** The leading digits are a number: there are some, and none is a star. */
  predicate Parses(r: seq<Cell>) {
    Stars(r) < |r| && forall i | 0 <= i < |r| - Stars(r) :: r[i] != Star
  }

  /** Exactly the prefix rules that are not all stars have a number in front. */
  lemma {:induction false} ParsesIff(r: seq<Cell>)
    ensures Parses(r) <==> IsPrefixRule(r) && Stars(r) < |r|
    ensures (exists i | 0 <= i < |r| - Stars(r) :: r[i] == Star) || IsPrefixRule(r)
    decreases |r|
  {
    if r != [] {
      ParsesIff(r[1..]);
      if r[0] == Star {
        if Stars(r) == |r| {
          AllStarsBack(r);
        } else if IsPrefixRule(r) {
          AllStars(r);
        }
      } else {
        assert IsPrefixRule(r[1..]) ==> IsPrefixRule(r) by {
          if IsPrefixRule(r[1..]) {
            forall i, j | 0 <= i < j < |r| && r[i] == Star ensures r[j] == Star {
              assert r[i] == r[1..][i - 1] && r[j] == r[1..][j - 1];
            }
          }
        }
        if i :| 0 <= i < |r[1..]| - Stars(r[1..]) && r[1..][i] == Star {
          assert r[i + 1] == Star;
        }
        if Parses(r[1..]) {
          forall i | 0 <= i < |r| - Stars(r) ensures r[i] != Star {
            assert i > 0 ==> r[i] == r[1..][i - 1];
          }
        }
      }
    }
  }

  function FmtRule<O>(e: Entry<Option<O>>): Rule<Option<O>> {
    Rule(Interval(LowOf(e.rule), LowOf(e.rule) + Pow2(Stars(e.rule)) - 1), e.output, false)
  }

  function NoneRule<O>(b: nat): Rule<Option<O>> {
    Rule(Top(b), None, false)
  }

  const NONE_WEIGHT: nat := 200000

  /** Every output weighs 1, and no output a lot. */
  ghost predicate FmtWeights<O>(table: Table<Option<O>>, w: map<Option<O>, nat>) {
    && (forall e <- table :: e.output in w) && None in w
    && forall c <- w :: if c.None? then w[c] == NONE_WEIGHT else w[c] == 1 && exists e <- table :: e.output == c
  }

  /** The rules so far, and a weight of 1 for each of their outputs. */
  ghost predicate FmtUpTo<O>(table: Table<Option<O>>, n: nat, rules: seq<Rule<Option<O>>>, w: map<Option<O>, nat>) {
    && n <= |table| && |rules| == n
    && (forall i | 0 <= i < n :: rules[i] == FmtRule(table[i]) && Parses(table[i].rule) && table[i].output in w)
    && (forall c <- w :: w[c] == 1 && exists i | 0 <= i < n :: table[i].output == c)
  }

  lemma NothingFmt<O>(table: Table<Option<O>>)
    ensures FmtUpTo(table, 0, [], map[])
  {
  }

  lemma FmtNext<O>(table: Table<Option<O>>, n: nat, rules: seq<Rule<Option<O>>>, w: map<Option<O>, nat>)
    requires n < |table| && FmtUpTo(table, n, rules, w) && Parses(table[n].rule)
    ensures FmtUpTo(table, n + 1, rules + [FmtRule(table[n])], w[table[n].output := 1])
    ensures table[n].output in w ==> w[table[n].output := 1] == w
  {
    hide FmtRule, Parses;
  }

  lemma FmtDone<O>(table: Table<Option<O>>, rules: seq<Rule<Option<O>>>, w: map<Option<O>, nat>)
    requires FmtUpTo(table, |table|, rules, w)
    ensures (forall e <- table :: Parses(e.rule)) && FmtWeights(table, w[None := NONE_WEIGHT])
    ensures |rules| == |table| && forall i | 0 <= i < |table| :: rules[i] == FmtRule(table[i])
  {
    hide FmtRule, Parses;
    var w' := w[None := NONE_WEIGHT];
    forall c <- w' | c != None ensures exists e <- table :: e.output == c {
      var i :| 0 <= i < |table| && table[i].output == c;
      assert table[i] in table;
    }
  }

  /** The table as intervals, with a None rule behind; a rule without a leading number raises an error. */
  method SuriFmt<O(==)>(table: Table<Option<O>>, b: nat) returns (r: Option<(seq<Rule<Option<O>>>, map<Option<O>, nat>)>)
    requires table != [] && Width(table, b)
    ensures r.None? <==> exists e <- table :: !Parses(e.rule)
    ensures r.Some? ==> var (rules, w) := r.value;
      && |rules| == |table| + 1 && rules[|table|] == NoneRule(b) && (forall i | 0 <= i < |table| :: rules[i] == FmtRule(table[i]))
      && FmtWeights(table, w)
  {
    hide FmtWeights, Parses, FmtUpTo;
    NothingFmt(table);
    var rules: seq<Rule<Option<O>>>, w: map<Option<O>, nat> := [], map[];
    for n := 0 to |table|
      invariant FmtUpTo(table, n, rules, w)
    {
      var e := table[n];
      assert e in table;
      if !Parses(e.rule) {
        return None;
      }
      FmtNext(table, n, rules, w);
      var numstar := Stars(e.rule);
      var low := Val(Digits(e.rule[..|e.rule| - numstar])) * Pow2(numstar);
      rules := rules + [Rule(Interval(low, low + Pow2(numstar) - 1), e.output, false)];
      if e.output !in w {
        w := w[e.output := 1];
      }
    }
    FmtDone(table, rules, w);
    r := Some((rules + [Rule(Top(b), None, false)], w[None := NONE_WEIGHT]));
  }

  /** The interval rule covers the number of a key exactly when the ternary rule matches the key. */
  ghost predicate Agree<O>(r: Rule<Option<O>>, e: Entry<Option<O>>, b: nat) {
    r.c == e.output && |e.rule| == b && forall h: seq<bool> | |h| == b :: Covers(r, Val(h)) <==> MatchesKey(e.rule, h)
  }

  ghost predicate AllAgree<O>(rules: seq<Rule<Option<O>>>, table: Table<Option<O>>, b: nat) {
    |rules| == |table| && forall i | 0 <= i < |table| :: Agree(rules[i], table[i], b) && table[i].output.Some?
  }

  lemma FmtAgrees<O>(e: Entry<Option<O>>, b: nat)
    requires IsPrefixRule(e.rule) && |e.rule| == b
    ensures Agree(FmtRule(e), e, b) && Node(FmtRule(e).p, Top(b), b)
  {
    LowIsInterval(e.rule, 0);
    IntervalIsNode(e.rule, 0);
    forall h: seq<bool> | |h| == b ensures Covers(FmtRule(e), Val(h)) <==> MatchesKey(e.rule, h) {
      IntervalMatches(e.rule, h, 0);
    }
  }

  /** Tables whose rules agree classify alike. */
  lemma {:induction false} AgreeMatch<O>(rules: seq<Rule<Option<O>>>, table: Table<Option<O>>, b: nat, h: seq<bool>)
    requires AllAgree(rules, table, b) && |h| == b
    ensures Match(rules, Val(h)) == if Classify(table, h).None? then None else Some(Classify(table, h))
    decreases |rules|
  {
    if table != [] {
      assert Agree(rules[0], table[0], b) && table[0].output.Some?;
      AgreeMatch(rules[1..], table[1..], b, h);
    }
  }

  // ---------- And back ----------

  lemma {:induction false} AllZeros(h: seq<bool>)
    ensures Val(h) == 0 ==> forall i | 0 <= i < |h| :: !h[i]
    decreases |h|
  {
    if h != [] {
      AllZeros(h[1..]);
      assert h == [h[0]] + h[1..];
    }
  }

  lemma {:induction false} AllOnes(h: seq<bool>)
    ensures Val(h) == Pow2(|h|) - 1 ==> forall i | 0 <= i < |h| :: h[i]
    decreases |h|
  {
    if h != [] {
      AllOnes(h[1..]);
      assert h == [h[0]] + h[1..];
    }
  }

  lemma {:induction false} ValPadded(h: seq<bool>, n: nat)
    ensures Val(seq(n, i => false) + h) == Val(h)
    decreases n
  {
    var z := seq(n, i => false);
    if n == 0 {
      assert z + h == h;
    } else {
      ValPadded(h, n - 1);
      assert (z + h)[1..] == seq(n - 1, i => false) + h;
    }
  }

  lemma ValLeading(h: seq<bool>)
    requires h != [] && h[0]
    ensures Pow2(|h| - 1) <= Val(h)
  {
  }

  /** The binary digits of a number, padded to `size`. */
  method Bin(number: nat, size: nat) returns (t: seq<bool>)
    requires number < Pow2(size)
    ensures |t| == size && Val(t) == number
  {
    var l: seq<bool>, n: nat := [], number;
    while n > 0
      invariant number == n * Pow2(|l|) + Val(Reversed(l))
      invariant n > 0 || l == [] || Reversed(l)[0]
      decreases n
    {
      var rem := n % 2;
      ReversedSnoc(l, rem == 1);
      LeadingBit(n, l, rem == 1);
      n, l := n / 2, l + [rem == 1];
    }
    var digits := Reversed(l);
    if l != [] {
      ValLeading(digits);
      Pow2Monotone(size, |l| - 1);
    }
    ValPadded(digits, size - |l|);
    t := seq(size - |l|, i => false) + digits;
  }

  lemma ValCons(x: bool, s: seq<bool>)
    ensures Val([x] + s) == (if x then Pow2(|s|) else 0) + Val(s)
  {
    assert ([x] + s)[1..] == s;
  }

  lemma Halved(n: nat, p: nat)
    ensures n * p == (n / 2) * (2 * p) + if n % 2 == 1 then p else 0
  {
    var m := n / 2;
    if n % 2 == 1 {
      ProductOfSum(2 * m, 1, p);
      assert n == 2 * m + 1;
    } else {
      assert n == 2 * m;
    }
    assert (2 * m) * p == m * (2 * p);
  }

  lemma LeadingBit(n: nat, l: seq<bool>, x: bool)
    requires x <==> n % 2 == 1
    ensures n * Pow2(|l|) + Val(Reversed(l)) == (n / 2) * Pow2(|l| + 1) + Val([x] + Reversed(l))
  {
    ValCons(x, Reversed(l));
    Halved(n, Pow2(|l|));
  }

  /** A star wherever the ends of the interval differ. */
  function PrefixOf(br: seq<bool>, bl: seq<bool>): (r: seq<Cell>)
    requires |br| == |bl|
    ensures |r| == |br|
  {
    if br == [] then []
    else [if br[0] == bl[0] then (if br[0] then One else Zero) else Star] + PrefixOf(br[1..], bl[1..])
  }

  method Int2Prefix(interval: Interval, size: nat) returns (r: seq<Cell>)
    requires 0 <= interval.lo < Pow2(size) && 0 <= interval.hi < Pow2(size)
    ensures exists br, bl :: |br| == |bl| == size && Val(br) == interval.lo && Val(bl) == interval.hi && r == PrefixOf(br, bl)
  {
    var br := Bin(interval.lo, size);
    var bl := Bin(interval.hi, size);
    r := PrefixOf(br, bl);
  }

  lemma {:induction false} StarsOf(br: seq<bool>, bl: seq<bool>)
    requires |br| == |bl| && forall i | 0 <= i < |br| :: !br[i] && bl[i]
    ensures forall i | 0 <= i < |br| :: PrefixOf(br, bl)[i] == Star
  {
    if br != [] {
      StarsOf(br[1..], bl[1..]);
      assert forall i | 0 < i < |br| :: PrefixOf(br, bl)[i] == PrefixOf(br[1..], bl[1..])[i - 1];
    } else {
    }
  }

  /** Both ends of a node in one half have the same first digit, the half's. */
  lemma SameFirst(q: Interval, base: int, k: nat, br: seq<bool>, bl: seq<bool>, up: bool)
    requires k > 0 && |br| == |bl| == k && base + Val(br) == q.lo && base + Val(bl) == q.hi
    requires Node(q, Interval(if up then base + Pow2(k - 1) else base, base + (if up then Pow2(k) else Pow2(k - 1)) - 1), k - 1)
    ensures br[0] == bl[0] == up
  {
    NodeInside(q, Interval(if up then base + Pow2(k - 1) else base, base + (if up then Pow2(k) else Pow2(k - 1)) - 1), k - 1);
  }

  /** The rule of a prefix matches exactly the keys whose numbers lie in it. */
  lemma {:induction false} PatternOfNode(q: Interval, base: int, k: nat, br: seq<bool>, bl: seq<bool>, h: seq<bool>)
    requires |br| == |bl| == |h| == k && Node(q, Interval(base, base + Pow2(k) - 1), k)
    requires base + Val(br) == q.lo && base + Val(bl) == q.hi
    ensures IsPrefixRule(PrefixOf(br, bl))
    ensures MatchesKey(PrefixOf(br, bl), h) <==> q.lo <= base + Val(h) <= q.hi
    decreases k
  {
    hide IsPrefixRule, MatchesKey, Val, Node, Pow2, PrefixOf;
    if q == Interval(base, base + Pow2(k) - 1) {
      WholePattern(br, bl, h);
    } else {
      var up := HalfWith(q, base, k);
      SameFirst(q, base, k, br, bl, up);
      NodeInside(q, Interval(if up then base + Pow2(k - 1) else base, base + (if up then Pow2(k) else Pow2(k - 1)) - 1), k - 1);
      ValHead(br);
      ValHead(bl);
      ValHead(h);
      PatternOfNode(q, base + if up then Pow2(k - 1) else 0, k - 1, br[1..], bl[1..], h[1..]);
      PatternHead(br, bl);
      MatchesRest(PrefixOf(br, bl), h);
      LongerPrefix(PrefixOf(br, bl));
    }
  }

  lemma HalfWith(q: Interval, base: int, k: nat) returns (up: bool)
    requires Node(q, Interval(base, base + Pow2(k) - 1), k) && q != Interval(base, base + Pow2(k) - 1)
    ensures k > 0 && Pow2(k) == 2 * Pow2(k - 1)
    ensures Node(q, Interval(if up then base + Pow2(k - 1) else base, base + (if up then Pow2(k) else Pow2(k - 1)) - 1), k - 1)
  {
    var p := Interval(base, base + Pow2(k) - 1);
    assert Low(p) == Interval(base, base + Pow2(k - 1) - 1) && High(p) == Interval(base + Pow2(k - 1), base + Pow2(k) - 1);
    up := !Node(q, Low(p), k - 1);
  }

  lemma PatternHead(br: seq<bool>, bl: seq<bool>)
    requires |br| == |bl| > 0 && br[0] == bl[0]
    ensures PrefixOf(br, bl)[0] == (if br[0] then One else Zero) && PrefixOf(br, bl)[1..] == PrefixOf(br[1..], bl[1..])
  {
  }

  lemma WholePattern(br: seq<bool>, bl: seq<bool>, h: seq<bool>)
    requires |br| == |bl| == |h| && Val(br) == 0 && Val(bl) == Pow2(|bl|) - 1
    ensures IsPrefixRule(PrefixOf(br, bl)) && MatchesKey(PrefixOf(br, bl), h)
  {
    AllZeros(br);
    AllOnes(bl);
    StarsOf(br, bl);
  }

  lemma LongerPrefix(r: seq<Cell>)
    requires r != [] && r[0] != Star && IsPrefixRule(r[1..])
    ensures IsPrefixRule(r)
  {
    forall i, j | 0 <= i < j < |r| && r[i] == Star ensures r[j] == Star {
      assert r[i] == r[1..][i - 1] && r[j] == r[1..][j - 1];
    }
  }

  /** The solution without its last rule, which must be a None rule, as ternary rules; list-wrapped prefixes are unwrapped. */
  method SuriUnfmt<O(!new)>(sol: seq<Rule<Option<O>>>, b: nat) returns (table: Table<Option<O>>)
    requires sol != [] && sol[|sol| - 1].c == None && forall r <- sol :: Node(r.p, Top(b), b)
    ensures |table| == |sol| - 1 && Width(table, b)
    ensures forall i | 0 <= i < |table| :: Agree(sol[i], table[i], b) && IsPrefixRule(table[i].rule)
  {
    hide Agree, IsPrefixRule, Node;
    table := [];
    for n := 0 to |sol| - 1
      invariant |table| == n && Width(table, b)
      invariant forall i | 0 <= i < n :: Agree(sol[i], table[i], b) && IsPrefixRule(table[i].rule)
    {
      assert sol[n] in sol;
      NodeInside(sol[n].p, Top(b), b);
      var fmtRule := Int2Prefix(sol[n].p, b);
      UnfmtAgrees(sol[n], b, fmtRule);
      table := table + [Entry(fmtRule, sol[n].c)];
    }
  }

  lemma UnfmtAgrees<O>(r: Rule<Option<O>>, b: nat, m: seq<Cell>)
    requires Node(r.p, Top(b), b) && exists br, bl :: |br| == |bl| == b && Val(br) == r.p.lo && Val(bl) == r.p.hi && m == PrefixOf(br, bl)
    ensures Agree(r, Entry(m, r.c), b) && IsPrefixRule(m) && |m| == b
  {
    hide Node, IsPrefixRule, MatchesKey, Val, PrefixOf, Pow2;
    var br, bl :| |br| == |bl| == b && Val(br) == r.p.lo && Val(bl) == r.p.hi && m == PrefixOf(br, bl);
    PatternOfNode(r.p, 0, b, br, bl, br);
    forall h: seq<bool> | |h| == b ensures Covers(r, Val(h)) <==> MatchesKey(m, h) {
      PatternOfNode(r.p, 0, b, br, bl, h);
    }
  }

  // ---------- The None rule ----------

  /** The problem that a part with prefix rules and outputs poses. */
  ghost predicate PartProblem<O(!new)>(table: Table<Option<O>>, b: nat, t: S.Problem<Option<O>>) {
    && b <= t.bits && |t.universe| == |table| + 1 && t.universe[|table|] == NoneRule(b)
    && (forall i | 0 <= i < |table| :: t.universe[i] == FmtRule(table[i]))
    && FmtWeights(table, t.w) && (forall e <- table :: IsPrefixRule(e.rule) && |e.rule| == b && e.output.Some?)
  }

  lemma {:induction false} UnitWeights<O>(w: map<Option<O>, nat>, rules: seq<Rule<Option<O>>>)
    requires forall r <- rules :: r.c in w && w[r.c] == 1
    ensures Weight(w, rules) == |rules|
  {
    if rules != [] {
      UnitWeights(w, rules[1..]);
    } else {
    }
  }

  /** The part itself is a candidate: the minimum is no more than its rules, and the None rule. */
  lemma PartIsCandidate<O(!new)>(table: Table<Option<O>>, b: nat, t: S.Problem<Option<O>>)
    requires PartProblem(table, b, t)
    ensures S.Candidate(t, Top(b), None, t.universe) && Weight(t.w, t.universe) == |table| + NONE_WEIGHT
    ensures S.Given(t, Top(b)) && S.IsPrefix(t, Top(b))
  {
    hide FmtRule, FmtWeights, Node;
    TopIsPrefix(b, t);
    PartRules(table, b, t);
    var n := |table|;
    var body, last := t.universe[..n], t.universe[n];
    assert t.universe == body + [last];
    EveryKeyMatched(t.universe, n, b, t.w);
    assert Weight(t.w, t.universe) == |table| + NONE_WEIGHT by {
      hide S.Coloured, S.IsPrefix;
      UnitWeights(t.w, body);
      WeightConcat(t.w, body, [last]);
    }
  }

  lemma TopIsPrefix<C>(b: nat, t: S.Problem<C>)
    requires b <= t.bits
    ensures Contains(Top(t.bits), Top(b)) && S.IsPrefix(t, Top(b))
  {
    TopIsNode(b, t.bits);
    NodeInside(Top(b), Top(t.bits), t.bits);
  }

  lemma PartRules<O(!new)>(table: Table<Option<O>>, b: nat, t: S.Problem<Option<O>>)
    requires PartProblem(table, b, t)
    ensures forall r <- t.universe :: r.c in t.w && S.IsPrefix(t, r.p)
    ensures (forall r <- t.universe[..|table|] :: r.c in t.w && t.w[r.c] == 1) && t.w[None] == NONE_WEIGHT
  {
    hide FmtRule, Node;
    TopIsPrefix(b, t);
    forall i | 0 <= i < |table| ensures t.universe[i].c in t.w && t.w[t.universe[i].c] == 1 && S.IsPrefix(t, t.universe[i].p) {
      FmtRuleIsPrefix(table, b, t, i);
    }
  }

  lemma FmtRuleIsPrefix<O(!new)>(table: Table<Option<O>>, b: nat, t: S.Problem<Option<O>>, i: nat)
    requires PartProblem(table, b, t) && i < |table| && Node(Top(b), Top(t.bits), t.bits)
    ensures t.universe[i].c in t.w && t.w[t.universe[i].c] == 1 && S.IsPrefix(t, t.universe[i].p)
  {
    hide Node;
    assert table[i] in table;
    FmtAgrees(table[i], b);
    NodeTrans(t.universe[i].p, Top(b), b, Top(t.bits), t.bits);
  }

  lemma EveryKeyMatched<O>(rules: seq<Rule<Option<O>>>, n: nat, b: nat, w: map<Option<O>, nat>)
    requires |rules| == n + 1 && rules[n] == NoneRule(b) && forall r <- rules :: r.c in w
    ensures forall x | 0 <= x < Pow2(b) :: Match(rules, x).Some? && Match(rules, x).value in w
  {
    forall x | 0 <= x < Pow2(b) ensures Match(rules, x).Some? && Match(rules, x).value in w {
      assert rules == rules[..n] + [rules[n]];
      MatchConcat(rules[..n], [rules[n]], x);
      var r := Matching(rules, x);
    }
  }

  /**
   The None rule: with fewer rules than a None rule weighs, every minimal solution has exactly one, and it comes last.
   */
  lemma OneNoneRule<O(!new)>(table: Table<Option<O>>, b: nat, t: S.Problem<Option<O>>, m: int, sol: seq<Rule<Option<O>>>)
    requires PartProblem(table, b, t) && |table| < NONE_WEIGHT && S.Optimal(t, Top(b), None, m) && S.Solution(t, Top(b), None, m, sol)
    ensures sol[|sol| - 1].c == None && forall i | 0 <= i < |sol| - 1 :: sol[i].c.Some?
    ensures |sol| - 1 == m - NONE_WEIGHT <= |table|
  {
    PartIsCandidate(table, b, t);
    hide Node, FmtRule, S.Classifies, PartProblem;
    var n := |sol| - 1;
    assert sol == sol[..n] + [sol[n]];
    WeightConcat(t.w, sol[..n], [sol[n]]);
    PartWeights(table, b, t);
    forall i | 0 <= i < n ensures sol[i].c.Some? {
      WeightOfMember(t.w, sol[..n], sol[i]);
      assert sol[i] in sol;
    }
    forall r <- sol[..n] ensures t.w[r.c] == 1 {
      assert r in sol && r.c in t.w;
    }
    UnitWeights(t.w, sol[..n]);
  }

  lemma PartWeights<O(!new)>(table: Table<Option<O>>, b: nat, t: S.Problem<Option<O>>)
    requires PartProblem(table, b, t)
    ensures None in t.w && t.w[None] == NONE_WEIGHT && forall c <- t.w :: c.Some? ==> t.w[c] == 1
  {
  }

  // ---------- The whole part, and the whole table ----------

  ghost function BitsOf(x: int, b: nat): (h: seq<bool>)
    requires 0 <= x < Pow2(b)
    ensures |h| == b && Val(h) == x
  {
    if b == 0 then []
    else
      var up := x >= Pow2(b - 1);
      var rest := BitsOf(if up then x - Pow2(b - 1) else x, b - 1);
      ValCons(up, rest);
      [up] + rest
  }

  /** The rules whose outputs have a weight. */
  ghost function Known<O>(o: Table<Option<O>>, w: map<Option<O>, nat>): (r: Table<Option<O>>)
    ensures |r| <= |o| && forall e <- r :: e in o && e.output in w
  {
    if o == [] then [] else
      assert forall e <- o[1..] :: e in o;
      (if o[0].output in w then [o[0]] else []) + Known(o[1..], w)
  }

  /** Rules with other outputs cannot be the first to match where the output has a weight. */
  lemma {:induction false} KnownSame<O>(o: Table<Option<O>>, w: map<Option<O>, nat>, h: seq<bool>)
    requires None in w && Classify(o, h) in w
    ensures Classify(Known(o, w), h) == Classify(o, h)
  {
    if o != [] && !MatchesKey(o[0].rule, h) {
      KnownSame(o[1..], w, h);
      assert ([o[0]] + Known(o[1..], w))[1..] == [] + Known(o[1..], w) == Known(o[1..], w);
    }
  }

  lemma RivalKnown<O(!new)>(o: Table<Option<O>>, table: Table<Option<O>>, b: nat, t: S.Problem<Option<O>>)
    requires PartProblem(table, b, t) && Rival(o, table, b)
    ensures Rival(Known(o, t.w), table, b)
  {
    hide FmtRule;
    forall h: seq<bool> | |h| == b ensures Classify(Known(o, t.w), h) == Classify(table, h) {
      ClassifyIn(table, h);
      KnownSame(o, t.w, h);
    }
  }

  function FmtAll<O>(o: Table<Option<O>>): (rules: seq<Rule<Option<O>>>)
    ensures |rules| == |o| && forall i | 0 <= i < |o| :: rules[i] == FmtRule(o[i])
  {
    seq(|o|, i requires 0 <= i < |o| => FmtRule(o[i]))
  }

  lemma FmtAllAgrees<O(!new)>(o: Table<Option<O>>, b: nat)
    requires Plain(o, b) && AllPrefixes(o)
    ensures AllAgree(FmtAll(o), o, b) && forall r <- FmtAll(o) :: Node(r.p, Top(b), b) && exists e <- o :: e.output == r.c
  {
    hide Agree, IsPrefixRule, FmtRule, Node;
    forall i | 0 <= i < |o| ensures Agree(FmtAll(o)[i], o[i], b) && o[i].output.Some? && Node(FmtAll(o)[i].p, Top(b), b) && FmtAll(o)[i].c == o[i].output {
      assert o[i] in o;
      FmtAgrees(o[i], b);
      AgreeOutput(FmtRule(o[i]), o[i], b);
    }
  }

  lemma AgreeOutput<O>(r: Rule<Option<O>>, e: Entry<Option<O>>, b: nat)
    requires Agree(r, e, b)
    ensures r.c == e.output
  {
  }

  /** A table that does the same, with the None rule behind it, competes for the minimum too. */
  lemma RivalIsCandidate<O(!new)>(o: Table<Option<O>>, table: Table<Option<O>>, b: nat, t: S.Problem<Option<O>>)
    requires PartProblem(table, b, t) && Rival(o, table, b) && forall e <- o :: e.output in t.w
    ensures S.Candidate(t, Top(b), None, FmtAll(o) + [NoneRule(b)])
    ensures Weight(t.w, FmtAll(o) + [NoneRule(b)]) == |o| + NONE_WEIGHT
  {
    hide FmtRule, FmtWeights, IsPrefixRule, AllAgree, Node, SameClasses, Match, Pow2;
    var rules, none := FmtAll(o), [NoneRule<O>(b)];
    RivalRules(o, table, b, t);
    UnitWeights(t.w, rules);
    WeightConcat(t.w, rules, none);
    forall x | 0 <= x < Pow2(b) ensures Match(rules + none, x) == Match(t.universe, x) {
      RivalMatches(o, table, b, t, x);
    }
  }

  lemma RivalRules<O(!new)>(o: Table<Option<O>>, table: Table<Option<O>>, b: nat, t: S.Problem<Option<O>>)
    requires PartProblem(table, b, t) && Rival(o, table, b) && forall e <- o :: e.output in t.w
    ensures forall r <- FmtAll(o) :: r.c in t.w && t.w[r.c] == 1 && S.IsPrefix(t, r.p)
    ensures None in t.w && t.w[None] == NONE_WEIGHT && S.IsPrefix(t, Top(b))
  {
    hide FmtRule, FmtWeights, IsPrefixRule, AllAgree, Node, SameClasses;
    FmtAllAgrees(o, b);
    PartWeights(table, b, t);
    TopIsNode(b, t.bits);
    forall r <- FmtAll(o) ensures r.c in t.w && t.w[r.c] == 1 && S.IsPrefix(t, r.p) {
      NodeTrans(r.p, Top(b), b, Top(t.bits), t.bits);
    }
  }

  lemma RivalMatches<O(!new)>(o: Table<Option<O>>, table: Table<Option<O>>, b: nat, t: S.Problem<Option<O>>, x: int)
    requires PartProblem(table, b, t) && Rival(o, table, b) && 0 <= x < Pow2(b)
    ensures Match(FmtAll(o) + [NoneRule(b)], x) == Match(t.universe, x)
  {
    hide FmtRule, FmtWeights, IsPrefixRule, AllAgree, Node, Plain, AllPrefixes, Match, Classify, NoneRule, Pow2, Val, BitsOf, Agree;
    var h := BitsOf(x, b);
    FmtAllAgrees(o, b);
    PartAgrees(table, b, t);
    assert t.universe == t.universe[..|table|] + [NoneRule(b)];
    MatchBeforeNone(FmtAll(o), o, b, h);
    MatchBeforeNone(t.universe[..|table|], table, b, h);
  }

  lemma MatchBeforeNone<O(!new)>(rules: seq<Rule<Option<O>>>, table: Table<Option<O>>, b: nat, h: seq<bool>)
    requires AllAgree(rules, table, b) && |h| == b
    ensures Match(rules + [NoneRule(b)], Val(h)) == Some(Classify(table, h))
  {
    hide AllAgree;
    AgreeMatch(rules, table, b, h);
    MatchConcat(rules, [NoneRule(b)], Val(h));
  }

  /** A minimal solution has no more rules than any table of prefix rules that does the same. */
  lemma SolutionIsFewest<O(!new)>(table: Table<Option<O>>, b: nat, t: S.Problem<Option<O>>, m: int)
    requires PartProblem(table, b, t) && S.Optimal(t, Top(b), None, m) && m >= NONE_WEIGHT
    ensures Fewest(m - NONE_WEIGHT, table, b)
  {
    hide PartProblem, Rival, S.Candidate, S.Attained;
    forall o: Table<Option<O>> | Rival(o, table, b) ensures m - NONE_WEIGHT <= |o| {
      RivalKnown(o, table, b, t);
      RivalIsCandidate(Known(o, t.w), table, b, t);
    }
  }

  /** The fewest prefix rules for a part whose rules are prefixes; an error if one of them is all stars. */
  method MinimizePrefixes<O(==, !new)>(table: Table<Option<O>>, b: nat, bits: nat) returns (r: Option<Table<Option<O>>>)
    requires table != [] && Plain(table, b) && AllPrefixes(table) && b <= bits && |table| < NONE_WEIGHT
    ensures r.None? <==> exists e <- table :: Stars(e.rule) == b
    ensures r.Some? ==> Plain(r.value, b) && AllPrefixes(r.value) && SameClasses(r.value, table, b) && |r.value| <= |table|
    ensures r.Some? ==> Fewest(|r.value|, table, b)
  {
    hide Plain, IsPrefixRule, FmtWeights, SameClasses, Node, Parses, Fewest;
    PlainFacts(table, b);
    var fmt := SuriFmt(table, b);
    FmtFails(table, b);
    if fmt.None? {
      return None;
    }
    var t := S.Problem(fmt.value.0, fmt.value.1, bits);
    PoseProblem(table, b, t);
    PartIsCandidate(table, b, t);
    var sol := SolvePart(table, b, t);
    var min := SuriUnfmt(sol, b);
    SolutionClassifies(table, b, t, sol, min);
    r := Some(min);
  }

  lemma FmtFails<O>(table: Table<Option<O>>, b: nat)
    requires Plain(table, b) && AllPrefixes(table)
    ensures (exists e <- table :: !Parses(e.rule)) <==> exists e <- table :: Stars(e.rule) == b
  {
    hide Parses;
    forall e <- table ensures Parses(e.rule) <==> Stars(e.rule) != b {
      ParsesIff(e.rule);
    }
  }

  lemma PoseProblem<O(!new)>(table: Table<Option<O>>, b: nat, t: S.Problem<Option<O>>)
    requires Plain(table, b) && AllPrefixes(table) && b <= t.bits && FmtWeights(table, t.w)
    requires |t.universe| == |table| + 1 && t.universe[|table|] == NoneRule(b) && forall i | 0 <= i < |table| :: t.universe[i] == FmtRule(table[i])
    ensures PartProblem(table, b, t)
  {
    hide FmtWeights, FmtRule, IsPrefixRule;
  }

  /** Runs the dynamic program and takes the first solution for the whole range under the None rule. */
  method SolvePart<O(==, !new)>(ghost table: Table<Option<O>>, b: nat, t: S.Problem<Option<O>>) returns (sol: seq<Rule<Option<O>>>)
    requires PartProblem(table, b, t) && |table| < NONE_WEIGHT && S.Given(t, Top(b)) && S.IsPrefix(t, Top(b))
    ensures sol != [] && S.Classifies(t, Top(b), sol) && |sol| - 1 <= |table| && Fewest(|sol| - 1, table, b)
    ensures sol[|sol| - 1].c == None && sol[|sol| - 1].p == Top(b) && forall i | 0 <= i < |sol| - 1 :: sol[i].c.Some?
    ensures forall r <- sol :: Node(r.p, Top(b), b)
  {
    hide PartProblem, S.Given, S.IsPrefix, S.AllOptimal, S.AllSolve, S.Complete, S.Optimal, S.Solution, S.HasSolutions, Node, Fewest;
    WholeIsOnePart(t, b);
    var answers := S.WeightedSuris(t, Top(b));
    var sols := S.FindSolutions(t, Top(b), answers);
    SolutionsForWhole(table, b, t, answers, sols);
    sol := sols[(Top(b), None)][0];
    assert sol in sols[(Top(b), None)];
    OneNoneRule(table, b, t, answers[(Top(b), None)], sol);
    SolutionFacts(t, b, answers[(Top(b), None)], sol);
    SolutionIsFewest(table, b, t, answers[(Top(b), None)]);
  }

  lemma WholeIsOnePart<O(!new)>(t: S.Problem<Option<O>>, b: nat)
    requires S.IsPrefix(t, Top(b))
    ensures S.Parts(t, Top(b)) == [Top(b)]
  {
    PrefixOfNode(Top(b), Top(t.bits), t.bits);
  }

  lemma SolutionsForWhole<O(!new)>(table: Table<Option<O>>, b: nat, t: S.Problem<Option<O>>, answers: map<(Interval, Option<O>), int>,
                                   sols: map<(Interval, Option<O>), seq<seq<Rule<Option<O>>>>>)
    requires PartProblem(table, b, t) && S.AllOptimal(t, answers) && S.AllSolve(t, answers, sols) && S.HasSolutions(t, Top(b), sols)
    ensures (Top(b), None) in sols && (Top(b), None) in answers && sols[(Top(b), None)] != []
    ensures S.Optimal(t, Top(b), None, answers[(Top(b), None)])
    ensures forall sol <- sols[(Top(b), None)] :: S.Solution(t, Top(b), None, answers[(Top(b), None)], sol)
  {
    hide S.Optimal, S.Solution, Node;
    PartWeights(table, b, t);
    assert (Top(b), None) in sols;
  }

  lemma SolutionFacts<O(!new)>(t: S.Problem<Option<O>>, b: nat, m: int, sol: seq<Rule<Option<O>>>)
    requires S.Solution(t, Top(b), None, m, sol) && S.IsPrefix(t, Top(b))
    ensures sol != [] && S.Classifies(t, Top(b), sol) && sol[|sol| - 1].p == Top(b) && forall r <- sol :: Node(r.p, Top(b), b)
  {
    hide Node, S.Classifies;
    forall r <- sol ensures Node(r.p, Top(b), b) {
      NodeWithin(r.p, Top(b), b, Top(t.bits), t.bits);
    }
  }

  /** Without its None rule, the solution classifies keys as the part does. */
  lemma SolutionClassifies<O(!new)>(table: Table<Option<O>>, b: nat, t: S.Problem<Option<O>>, sol: seq<Rule<Option<O>>>, min: Table<Option<O>>)
    requires PartProblem(table, b, t) && sol != [] && S.Classifies(t, Top(b), sol) && |min| == |sol| - 1 && Width(min, b)
    requires sol[|sol| - 1].c == None && sol[|sol| - 1].p == Top(b) && forall i | 0 <= i < |sol| - 1 :: sol[i].c.Some?
    requires forall i | 0 <= i < |min| :: Agree(sol[i], min[i], b)
    ensures Plain(min, b) && SameClasses(min, table, b)
  {
    hide Agree, FmtRule, FmtWeights;
    var n, k := |table|, |sol| - 1;
    MinAgrees(sol[..k], min, b);
    PartAgrees(table, b, t);
    forall h: seq<bool> | |h| == b ensures Classify(min, h) == Classify(table, h) {
      assert sol == sol[..k] + [sol[k]] && t.universe == t.universe[..n] + [t.universe[n]];
      MatchConcat(sol[..k], [sol[k]], Val(h));
      MatchConcat(t.universe[..n], [t.universe[n]], Val(h));
      AgreeMatch(sol[..k], min, b, h);
      AgreeMatch(t.universe[..n], table, b, h);
      assert Match(sol, Val(h)) == Match(t.universe, Val(h));
    }
  }

  lemma MinAgrees<O(!new)>(rules: seq<Rule<Option<O>>>, min: Table<Option<O>>, b: nat)
    requires |rules| == |min| && forall i | 0 <= i < |min| :: Agree(rules[i], min[i], b) && rules[i].c.Some?
    ensures AllAgree(rules, min, b) && forall e <- min :: e.output.Some?
  {
  }

  lemma PartAgrees<O(!new)>(table: Table<Option<O>>, b: nat, t: S.Problem<Option<O>>)
    requires PartProblem(table, b, t)
    ensures AllAgree(t.universe[..|table|], table, b)
  {
    hide Agree, IsPrefixRule, FmtWeights, FmtRule, Node;
    forall i | 0 <= i < |table| ensures Agree(t.universe[i], table[i], b) && table[i].output.Some? {
      assert table[i] in table;
      FmtAgrees(table[i], b);
    }
  }

  // ---------- Keys under the permutation ----------

  /** The key with its bits in the order of the columns. */
  ghost function SwapKey(h: seq<bool>, cols: seq<(nat, nat)>): (r: seq<bool>)
    requires Order(cols, |h|)
    ensures |r| == |h|
  {
    seq(|h|, k requires 0 <= k < |h| => h[cols[k].0])
  }

  lemma SwapMatches(r: seq<Cell>, m: seq<Cell>, h: seq<bool>, cols: seq<(nat, nat)>)
    requires Order(cols, |h|) && SwappedRule(r, m, cols, |h|)
    ensures MatchesKey(m, SwapKey(h, cols)) <==> MatchesKey(r, h)
  {
    if MatchesKey(m, SwapKey(h, cols)) {
      forall i | 0 <= i < |r| ensures MatchesCell(r[i], h[i]) {
        var k := ColumnAt(cols, |h|, i);
        assert MatchesCell(m[k], SwapKey(h, cols)[k]);
      }
    }
    if MatchesKey(r, h) {
      forall k | 0 <= k < |m| ensures MatchesCell(m[k], SwapKey(h, cols)[k]) {
        assert MatchesCell(r[cols[k].0], h[cols[k].0]);
      }
    }
  }

  /** Permuting the columns of a table and of the keys changes no class. */
  lemma {:induction false} SwapClassifies<O>(table: Table<Option<O>>, M: Table<Option<O>>, h: seq<bool>, cols: seq<(nat, nat)>)
    requires Order(cols, |h|) && Swapped(table, M, cols, |h|)
    ensures Classify(M, SwapKey(h, cols)) == Classify(table, h)
    decreases |table|
  {
    if table != [] {
      assert SwappedRule(table[0].rule, M[0].rule, cols, |h|);
      SwapMatches(table[0].rule, M[0].rule, h, cols);
      assert Swapped(table[1..], M[1..], cols, |h|) by {
        hide SwappedRule;
      }
      SwapClassifies(table[1..], M[1..], h, cols);
    }
  }

  lemma {:induction false} StarsSwapped(r: seq<Cell>, m: seq<Cell>, cols: seq<(nat, nat)>)
    requires Order(cols, |r|) && SwappedRule(r, m, cols, |r|)
    ensures Stars(m) == |r| <==> Stars(r) == |r|
  {
    if Stars(r) == |r| {
      AllStarsBack(r);
      AllStars(m);
    }
    if Stars(m) == |r| {
      AllStarsBack(m);
      forall i | 0 <= i < |r| ensures r[i] == Star {
        var k := ColumnAt(cols, |r|, i);
      }
      AllStars(r);
    }
  }

  lemma SwappedPlain<O>(part: Table<Option<O>>, M: Table<Option<O>>, cols: seq<(nat, nat)>, b: nat)
    requires Plain(part, b) && Width(M, b) && Swapped(part, M, cols, b) && Order(cols, b)
    ensures Plain(M, b) && ((exists e <- M :: Stars(e.rule) == b) <==> exists e <- part :: Stars(e.rule) == b)
  {
    hide Stars, Order;
    forall i | 0 <= i < |part| ensures Stars(M[i].rule) == b <==> Stars(part[i].rule) == b {
      assert M[i] in M && part[i] in part;
      StarsSwapped(part[i].rule, M[i].rule, cols);
    }
    forall e <- M ensures e.output.Some? {
      var i :| 0 <= i < |M| && M[i] == e;
      assert part[i] in part;
    }
    if e :| e in M && Stars(e.rule) == b {
      var i :| 0 <= i < |M| && M[i] == e;
      assert part[i] in part;
    }
    if e :| e in part && Stars(e.rule) == b {
      var i :| 0 <= i < |part| && part[i] == e;
      assert M[i] in M;
    }
  }

  // ---------- The fewest rules, in the order of the columns ----------

  ghost function SwapTable<O>(o: Table<O>, cols: seq<(nat, nat)>): (m: Table<O>)
    requires Width(o, |cols|) && Order(cols, |cols|)
    ensures Swapped(o, m, cols, |cols|) && Width(m, |cols|)
  {
    assert forall i | 0 <= i < |o| :: o[i] in o;
    seq(|o|, i requires 0 <= i < |o| && |o[i].rule| == |cols| =>
      Entry(seq(|cols|, k requires 0 <= k < |cols| => o[i].rule[cols[k].0]), o[i].output))
  }

  /** In the order of the columns, all rules are prefixes. */
  ghost predicate PrefixesUnder<O>(o: Table<Option<O>>, cols: seq<(nat, nat)>, b: nat) {
    Order(cols, b) && Width(o, b) && AllPrefixes(SwapTable(o, cols))
  }

  /** No table that does the same, and that the order of the columns makes prefixes, has fewer rules. */
  ghost predicate FewestUnder<O(!new)>(n: nat, part: Table<Option<O>>, cols: seq<(nat, nat)>, b: nat) {
    forall o: Table<Option<O>> | Plain(o, b) && PrefixesUnder(o, cols, b) && SameClasses(o, part, b) :: n <= |o|
  }

  ghost function UnswapKey(g: seq<bool>, cols: seq<(nat, nat)>): (h: seq<bool>)
    requires Order(cols, |g|)
    ensures |h| == |g| && SwapKey(h, cols) == g
  {
    var h := seq(|g|, i requires 0 <= i < |g| => g[ColumnOf(cols, |g|, i)]);
    assert forall k | 0 <= k < |g| :: ColumnOf(cols, |g|, cols[k].0) == k;
    h
  }

  ghost function ColumnOf(cols: seq<(nat, nat)>, b: nat, i: nat): (k: nat)
    requires Order(cols, b) && i < b
    ensures k < b && cols[k].0 == i
  {
    assert exists k: nat :: k < b && cols[k].0 == i by {
      var k := ColumnAt(cols, b, i);
    }
    var k: nat :| k < b && cols[k].0 == i;
    k
  }

  lemma SwappedSameClasses<O(!new)>(o: Table<Option<O>>, mo: Table<Option<O>>, part: Table<Option<O>>, M: Table<Option<O>>, cols: seq<(nat, nat)>, b: nat)
    requires Order(cols, b) && Swapped(o, mo, cols, b) && Swapped(part, M, cols, b) && SameClasses(o, part, b)
    ensures SameClasses(mo, M, b)
  {
    hide Swapped, Order;
    forall g: seq<bool> | |g| == b ensures Classify(mo, g) == Classify(M, g) {
      var h := UnswapKey(g, cols);
      SwapClassifies(o, mo, h, cols);
      SwapClassifies(part, M, h, cols);
    }
  }

  lemma SwappedRival<O(!new)>(o: Table<Option<O>>, part: Table<Option<O>>, M: Table<Option<O>>, cols: seq<(nat, nat)>, b: nat)
    requires Plain(o, b) && PrefixesUnder(o, cols, b) && SameClasses(o, part, b) && Swapped(part, M, cols, b) && |cols| == b
    ensures Rival(SwapTable(o, cols), M, b) && |SwapTable(o, cols)| == |o|
  {
    hide SameClasses, SwappedRule, AllPrefixes, SwapTable;
    var mo := SwapTable(o, cols);
    SwappedPlain(o, mo, cols, b);
    SwappedSameClasses(o, mo, part, M, cols, b);
  }

  lemma FewestSwapped<O(!new)>(n: nat, part: Table<Option<O>>, M: Table<Option<O>>, cols: seq<(nat, nat)>, b: nat)
    requires Swapped(part, M, cols, b) && Fewest(n, M, b) && |cols| == b
    ensures FewestUnder(n, part, cols, b)
  {
    hide Plain, SameClasses, Swapped, Rival, PrefixesUnder;
    forall o: Table<Option<O>> | Plain(o, b) && PrefixesUnder(o, cols, b) && SameClasses(o, part, b) ensures n <= |o| {
      UnderFacts(o, cols, b);
      SwappedRival(o, part, M, cols, b);
    }
  }

  lemma UnderFacts<O>(o: Table<Option<O>>, cols: seq<(nat, nat)>, b: nat)
    requires PrefixesUnder(o, cols, b)
    ensures Order(cols, b) && Width(o, b) && |cols| == b
  {
  }

  /** What the swap makes prefixes are prefixes under the order. */
  lemma UnderSwap<O>(o: Table<Option<O>>, M: Table<Option<O>>, cols: seq<(nat, nat)>, b: nat)
    requires Order(cols, b) && Width(o, b) && Width(M, b) && Swapped(o, M, cols, b) && AllPrefixes(M)
    ensures PrefixesUnder(o, cols, b)
  {
    hide IsPrefixRule, Swapped;
    SwapTableIs(o, M, cols, b);
  }

  /** The minimized part `min`, in the order of the columns: no table of prefixes there that does the same has fewer rules. */
  ghost predicate Minimized<O(!new)>(part: Table<Option<O>>, order: seq<(nat, nat)>, min: Table<Option<O>>, b: nat) {
    && PrefixesUnder(part, order, b) && FewestUnder(|min|, part, order, b) && |min| <= |part|
    && R.Lean(min, b) && SameClasses(min, SwapTable(part, order), b)
  }

  /** How a part of several rules is woven: the order of its columns and, in that order, the minimized rules and the merged ones. */
  datatype Work<O> = Work(order: seq<(nat, nat)>, min: Table<Option<O>>, merged: Table<Option<O>>)

  /** Rule `i` of the minimized part is the first for the key. */
  ghost predicate DecidesKey<O>(w: Work<O>, i: nat, h: seq<bool>) {
    Order(w.order, |h|) && i < |w.min| && R.Decides(w.min, i, SwapKey(h, w.order))
  }

  ghost predicate HiddenRule<O(!new)>(w: Work<O>, b: nat, i: nat) {
    i < |w.min| && H.Hidden(w.min, b, w.min[i])
  }

  /** A hidden rule decides the key. */
  ghost predicate LosesKey<O(!new)>(w: Work<O>, b: nat, h: seq<bool>) {
    exists i: nat :: DecidesKey(w, i, h) && HiddenRule(w, b, i)
  }

  /** `out` gives the keys back their outputs, but for those of hidden rules. */
  ghost predicate KeysKept<O(!new)>(part: Table<Option<O>>, out: Table<Option<O>>, w: Work<O>, b: nat) {
    forall h: seq<bool> | |h| == b :: Classify(out, h) == Classify(part, h) <==> !LosesKey(w, b, h)
  }

  /** What becomes of a part: `out` is the merged table in the part's own columns. */
  ghost predicate PartMerged<O(!new)>(part: Table<Option<O>>, out: Table<Option<O>>, w: Work<O>, b: nat) {
    && Minimized(part, w.order, w.min, b) && G.Merged(w.min, b, w.merged) && Plain(out, b) && Swapped(out, w.merged, w.order, b)
    && KeysKept(part, out, w, b) && (SameClasses(out, part, b) <==> forall t <- w.min :: !H.Hidden(w.min, b, t))
  }

  /** A cross-free part: permuted into prefixes, minimized, merged, and permuted back. */
  method MinimizePart<O(==, !new)>(part: Table<Option<O>>, b: nat, bits: nat)
    returns (r: Option<Table<Option<O>>>, ghost w: Work<O>)
    requires part != [] && Plain(part, b) && CrossFree(part) && b <= bits && |part| < NONE_WEIGHT
    ensures r.None? <==> exists e <- part :: Stars(e.rule) == b
    ensures r.Some? ==> PartMerged(part, r.value, w, b) && StarOrder(part, w.order, b)
    ensures r.Some? ==> SameAnswered(r.value, part, b)
  {
    hide Plain, CrossFree, SameClasses, IsPrefixRule, Swapped, Order, PrefixesUnder, Fewest, FewestUnder, AllPrefixes, R.Lean,
      R.Stage, R.Round, R.Rounds, SameAnswered, G.Merged, G.Counted, C.AtRound, PartMerged, StarOrder;
    PlainFacts(part, b);
    var M, cols := PrefixBitSwap(part, b);
    w := Work(cols, [], []);
    AllPrefixesOf(M);
    UnderSwap(part, M, cols, b);
    SwappedPlain(part, M, cols, b);
    SwappedLength(part, M, cols, b);
    var minimized := MinimizePrefixes(M, b, bits);
    if minimized.None? {
      r := None;
      return;
    }
    ghost var min := minimized.value;
    FewestSwapped(|min|, part, M, cols, b);
    ReadyToMerge(min, M, b);
    var merged := G.BitMerge(min, minimized.value, b, 0);
    w := Work(cols, min, merged);
    R.ElemsWidth(min, merged, b);
    var recovered := BitRecovery(merged, cols);
    MergedBack(part, M, min, merged, recovered, cols, b);
    r := Some(recovered);
  }

  lemma AllPrefixesOf<O>(M: Table<Option<O>>)
    requires forall m <- M :: IsPrefixRule(m.rule)
    ensures AllPrefixes(M)
  {
  }

  /** What was minimized is without waste, and is ready for merging. */
  lemma ReadyToMerge<O(!new)>(min: Table<Option<O>>, M: Table<Option<O>>, b: nat)
    requires Plain(min, b) && AllPrefixes(min) && SameClasses(min, M, b) && Fewest(|min|, M, b)
    ensures R.Lean(min, b) && R.Stage(min, Elems(min), b) && C.AtRound(min, b, 0, Elems(min)) && G.Counted(min)
  {
    hide R.Lean, R.Stage, C.AtRound, G.Counted, AllPrefixes;
    PlainFacts(min, b);
    R.StartStage(min, b);
    forall o: Table<Option<O>> | Rival(o, min, b) ensures |min| <= |o| {
      assert Rival(o, M, b);
    }
    R.FewestIsLean(min, b);
    C.StartAt(min, b);
    G.StartCounted(min, b);
  }

  /** Both tables have an output for the same keys. */
  ghost predicate SameAnswered<O(!new)>(a: Table<Option<O>>, c: Table<Option<O>>, b: nat) {
    forall h: seq<bool> | |h| == b :: Classify(a, h).Some? <==> Classify(c, h).Some?
  }

  /** Back in the part's own columns, the merged table does to a key what the part does exactly when no hidden rule decides it. */
  lemma KeyThrough<O(!new)>(part: Table<Option<O>>, M: Table<Option<O>>, out: Table<Option<O>>, w: Work<O>, b: nat, h: seq<bool>)
    requires Order(w.order, b) && Swapped(part, M, w.order, b) && Swapped(out, w.merged, w.order, b) && SameClasses(w.min, M, b) && |h| == b
    requires R.Lean(w.min, b) && G.Merged(w.min, b, w.merged)
    ensures Classify(out, h) == Classify(part, h) <==> !LosesKey(w, b, h)
  {
    hide R.Lean, G.Merged, H.Hidden, Swapped, Order, SwapKey, MatchesKey, Classify;
    SwapClassifies(part, M, h, w.order);
    SwapClassifies(out, w.merged, h, w.order);
    var g := SwapKey(h, w.order);
    var i := R.FirstMatch(w.min, g);
    if i < |w.min| {
      H.KeyKept(w.min, w.merged, b, i, g);
      assert DecidesKey(w, i, h);
    } else {
      assert forall t <- w.min :: !MatchesKey(t.rule, g);
      H.NoneKept(w.min, w.merged, b, g);
    }
  }

  /** Back in the part's own columns, the merged table does what the part does exactly when merging kept the classes. */
  lemma MergedBack<O(!new)>(part: Table<Option<O>>, M: Table<Option<O>>, min: Table<Option<O>>, merged: Table<Option<O>>, out: Table<Option<O>>,
                            cols: seq<(nat, nat)>, b: nat)
    requires Order(cols, b) && |cols| == b && Swapped(part, M, cols, b) && Swapped(out, merged, cols, b) && SameClasses(min, M, b)
    requires PrefixesUnder(part, cols, b) && FewestUnder(|min|, part, cols, b) && |min| <= |part| && Width(out, b) && Width(part, b)
    requires R.Lean(min, b) && G.Merged(min, b, merged)
    ensures PartMerged(part, out, Work(cols, min, merged), b) && SameAnswered(out, part, b)
  {
    hide R.Lean, R.Stage, Swapped, Order, PrefixesUnder, FewestUnder, SameClasses, G.Merged, Plain, SameAnswered, H.Hidden, LosesKey;
    H.MergedStage(min, merged, b);
    H.KeepsClassesIff(min, merged, b);
    R.SameKeys(min, merged, b);
    SwapTableIs(part, M, cols, b);
    R.StagePlain(min, merged, b);
    if SameClasses(out, part, b) {
      SwappedSameClasses(out, merged, part, M, cols, b);
    }
    SameJoins(merged, min, M, b);
    if SameClasses(merged, M, b) {
      SwapBackSame(part, M, merged, out, cols, b);
    }
    PlainBack(out, merged, cols, b);
    SwapBackAnswered(part, M, merged, min, out, cols, b);
    forall h: seq<bool> | |h| == b ensures Classify(out, h) == Classify(part, h) <==> !LosesKey(Work(cols, min, merged), b, h) {
      KeyThrough(part, M, out, Work(cols, min, merged), b, h);
    }
  }

  lemma SameJoins<O(!new)>(a: Table<Option<O>>, c: Table<Option<O>>, M: Table<Option<O>>, b: nat)
    requires SameClasses(c, M, b)
    ensures SameClasses(a, c, b) <==> SameClasses(a, M, b)
  {
    hide Classify;
  }

  lemma SwapTableIs<O>(o: Table<Option<O>>, M: Table<Option<O>>, cols: seq<(nat, nat)>, b: nat)
    requires Order(cols, b) && Width(o, b) && |cols| == b && Swapped(o, M, cols, b)
    ensures SwapTable(o, cols) == M
  {
    var mo := SwapTable(o, cols);
    forall i | 0 <= i < |o| ensures mo[i] == M[i] {
      assert SwappedRule(o[i].rule, mo[i].rule, cols, b) && SwappedRule(o[i].rule, M[i].rule, cols, b);
    }
  }

  lemma PlainBack<O>(out: Table<Option<O>>, merged: Table<Option<O>>, cols: seq<(nat, nat)>, b: nat)
    requires Swapped(out, merged, cols, b) && Plain(merged, b) && Width(out, b)
    ensures Plain(out, b)
  {
    hide SwappedRule;
    forall e <- out ensures e.output.Some? {
      var i :| 0 <= i < |out| && out[i] == e;
      assert merged[i] in merged;
    }
  }

  lemma SwapBackAnswered<O(!new)>(part: Table<Option<O>>, M: Table<Option<O>>, merged: Table<Option<O>>, min: Table<Option<O>>,
                                  out: Table<Option<O>>, cols: seq<(nat, nat)>, b: nat)
    requires Order(cols, b) && Swapped(part, M, cols, b) && Swapped(out, merged, cols, b) && SameClasses(min, M, b)
    requires forall h: seq<bool> | |h| == b :: Classify(merged, h).Some? <==> Classify(min, h).Some?
    ensures SameAnswered(out, part, b)
  {
    hide Swapped, Order, Classify;
    forall h: seq<bool> | |h| == b ensures Classify(out, h).Some? <==> Classify(part, h).Some? {
      SwapClassifies(part, M, h, cols);
      SwapClassifies(out, merged, h, cols);
    }
  }

  lemma SwappedLength<O>(part: Table<O>, M: Table<O>, cols: seq<(nat, nat)>, b: nat)
    requires Swapped(part, M, cols, b) && Order(cols, b)
    ensures |M| == |part| && |cols| == b
  {
  }

  lemma SwapBackSame<O(!new)>(part: Table<Option<O>>, M: Table<Option<O>>, min: Table<Option<O>>, recovered: Table<Option<O>>, cols: seq<(nat, nat)>, b: nat)
    requires Order(cols, b) && Swapped(part, M, cols, b) && Swapped(recovered, min, cols, b) && SameClasses(min, M, b)
    requires Plain(min, b) && Width(recovered, b)
    ensures SameClasses(recovered, part, b) && Plain(recovered, b)
  {
    hide SwappedRule, Order;
    forall h: seq<bool> | |h| == b ensures Classify(recovered, h) == Classify(part, h) {
      SwapClassifies(part, M, h, cols);
      SwapClassifies(recovered, min, h, cols);
    }
    forall e <- recovered ensures e.output.Some? {
      var i :| 0 <= i < |recovered| && recovered[i] == e;
      assert min[i] in min;
    }
  }

  // ---------- The parts together ----------

  lemma {:induction false} FlattenSnoc<T>(parts: seq<seq<T>>, p: seq<T>)
    ensures Flatten(parts + [p]) == Flatten(parts) + p
  {
    if parts == [] {
      assert [p][1..] == [];
    } else {
      assert (parts + [p])[1..] == parts[1..] + [p];
      FlattenSnoc(parts[1..], p);
    }
  }

  lemma {:induction false} PartOfFlat<T>(parts: seq<seq<T>>, k: nat)
    requires k < |parts|
    ensures (forall e <- parts[k] :: e in Flatten(parts)) && |parts[k]| <= |Flatten(parts)|
    ensures Flatten(parts[..k + 1]) == Flatten(parts[..k]) + parts[k]
  {
    assert parts[..k + 1] == parts[..k] + [parts[k]];
    FlattenSnoc(parts[..k], parts[k]);
    FlattenSplit(parts, k + 1);
  }

  lemma {:induction false} FlattenSplit<T>(parts: seq<seq<T>>, k: nat)
    requires k <= |parts|
    ensures Flatten(parts) == Flatten(parts[..k]) + Flatten(parts[k..])
    decreases |parts| - k
  {
    if k == |parts| {
      assert parts[..k] == parts && parts[k..] == [];
    } else {
      FlattenSplit(parts, k + 1);
      assert parts[..k + 1] == parts[..k] + [parts[k]] && parts[k..][0] == parts[k] && parts[k..][1..] == parts[k + 1..];
      FlattenSnoc(parts[..k], parts[k]);
    }
  }

  /** A part of one rule stays as it is; a longer one is minimized and merged. */
  ghost predicate WovenPart<O(!new)>(part: Table<Option<O>>, out: Table<Option<O>>, w: Work<O>, b: nat) {
    if |part| <= 1 then out == part else PartMerged(part, out, w, b) && StarOrder(part, w.order, b)
  }

  /** No part before `k` has an output for the key. */
  ghost predicate GetsTo<O>(parts: seq<Table<Option<O>>>, k: nat, h: seq<bool>) {
    k <= |parts| && forall j | 0 <= j < k :: Classify(parts[j], h).None?
  }

  /** The key gets to part `k`, and a hidden rule decides it there. */
  ghost predicate LostAt<O(!new)>(parts: seq<Table<Option<O>>>, works: seq<Work<O>>, b: nat, h: seq<bool>, k: nat) {
    k < |parts| && k < |works| && |parts[k]| > 1 && GetsTo(parts, k, h) && LosesKey(works[k], b, h)
  }

  ghost predicate Lost<O(!new)>(parts: seq<Table<Option<O>>>, works: seq<Work<O>>, b: nat, h: seq<bool>) {
    exists k: nat :: LostAt(parts, works, b, h, k)
  }

  /** Every key that rule `i` of the minimized part `k` decides is answered by an earlier part. */
  ghost predicate AnsweredBefore<O>(parts: seq<Table<Option<O>>>, w: Work<O>, b: nat, k: nat, i: nat) {
    forall h: seq<bool> | |h| == b && DecidesKey(w, i, h) :: !GetsTo(parts, k, h)
  }

  /** Hidden rules have no key left to decide: earlier parts answer all of them. */
  ghost predicate HiddenAnswered<O(!new)>(parts: seq<Table<Option<O>>>, works: seq<Work<O>>, b: nat)
    requires |works| == |parts|
  {
    forall k: nat, i: nat | k < |parts| && |parts[k]| > 1 && HiddenRule(works[k], b, i) :: AnsweredBefore(parts, works[k], b, k, i)
  }

  /** What the parts so far became. */
  ghost predicate Woven<O(!new)>(parts: seq<Table<Option<O>>>, news: seq<Table<Option<O>>>, works: seq<Work<O>>, b: nat) {
    && |news| == |works| <= |parts| && Plain(Flatten(news), b) && (forall i | 0 <= i < |news| :: WovenPart(parts[i], news[i], works[i], b))
    && SameAnswered(Flatten(news), Flatten(parts[..|news|]), b)
    && forall h: seq<bool> | |h| == b :: Classify(Flatten(news), h) == Classify(Flatten(parts[..|news|]), h) <==> !Lost(parts, works, b, h)
  }

  lemma NothingWoven<O(!new)>(parts: seq<Table<Option<O>>>, b: nat)
    ensures Woven(parts, [], [], b)
  {
  }

  /** A key gets to a part exactly if the parts before it together have no output for it. */
  lemma {:induction false} GetsToIff<O>(parts: seq<Table<Option<O>>>, k: nat, b: nat, h: seq<bool>)
    requires k <= |parts| && Plain(Flatten(parts), b)
    ensures GetsTo(parts, k, h) <==> Classify(Flatten(parts[..k]), h).None?
    decreases k
  {
    hide Classify, Flatten;
    if k == 0 {
      NothingFlat<Entry<Option<O>>>();
      NothingClassifies<O>(h);
    } else {
      GetsToIff(parts, k - 1, b, h);
      PartOfFlat(parts, k - 1);
      FlattenPlain(parts, k - 1, b);
      ClassifyConcat(Flatten(parts[..k - 1]), parts[k - 1], h);
    }
  }

  lemma NothingClassifies<O>(h: seq<bool>)
    ensures Classify<O>([], h).None?
  {
  }

  lemma WeavePart<O(!new)>(parts: seq<Table<Option<O>>>, news: seq<Table<Option<O>>>, works: seq<Work<O>>, part: Table<Option<O>>, w: Work<O>,
                           b: nat)
    requires Woven(parts, news, works, b) && |news| < |parts| && Plain(Flatten(parts), b)
    requires WovenPart(parts[|news|], part, w, b) && Plain(part, b) && SameAnswered(part, parts[|news|], b)
    ensures Woven(parts, news + [part], works + [w], b) && Flatten(news + [part]) == Flatten(news) + part
  {
    hide Flatten, WovenPart, Classify, SameAnswered, Lost, LosesKey, GetsTo;
    var k := |news|;
    PartOfFlat(parts, k);
    FlattenPlain(parts, k, b);
    FlattenSnoc(news, part);
    WeaveAnswered(Flatten(news), Flatten(parts[..k]), part, parts[k], b);
    forall h: seq<bool> | |h| == b
      ensures Classify(Flatten(news) + part, h) == Classify(Flatten(parts[..k]) + parts[k], h) <==> !Lost(parts, works + [w], b, h)
    {
      WeaveKeys(Flatten(news), Flatten(parts[..k]), part, parts[k], b, h);
      GetsToIff(parts, k, b, h);
      LostNext(parts, works, w, b, h);
      PartKey(parts[k], part, w, b, h);
    }
    assert (news + [part])[k] == part && forall i | 0 <= i < k :: (news + [part])[i] == news[i];
  }

  lemma LostNext<O(!new)>(parts: seq<Table<Option<O>>>, works: seq<Work<O>>, w: Work<O>, b: nat, h: seq<bool>)
    requires |works| < |parts|
    ensures Lost(parts, works + [w], b, h) <==> Lost(parts, works, b, h) || (|parts[|works|]| > 1 && GetsTo(parts, |works|, h) && LosesKey(w, b, h))
  {
    hide GetsTo, LosesKey;
    var all := works + [w];
    assert all[|works|] == w && forall i | 0 <= i < |works| :: all[i] == works[i];
    if k: nat :| LostAt(parts, works, b, h, k) {
      assert LostAt(parts, all, b, h, k);
    }
    if |parts[|works|]| > 1 && GetsTo(parts, |works|, h) && LosesKey(w, b, h) {
      assert LostAt(parts, all, b, h, |works|);
    }
    if k: nat :| LostAt(parts, all, b, h, k) {
      assert k < |works| ==> LostAt(parts, works, b, h, k);
    }
  }

  lemma PartKey<O(!new)>(part: Table<Option<O>>, out: Table<Option<O>>, w: Work<O>, b: nat, h: seq<bool>)
    requires WovenPart(part, out, w, b) && |h| == b
    ensures Classify(out, h) == Classify(part, h) <==> !(|part| > 1 && LosesKey(w, b, h))
  {
    hide Minimized, G.Merged, SameClasses, H.Hidden, LosesKey, Classify, Swapped, Plain;
  }

  /** Tables put behind each other do to a key what the first one does, or else what the second one does to the keys left over. */
  lemma WeaveKeys<O>(out: Table<Option<O>>, done: Table<Option<O>>, part: Table<Option<O>>, was: Table<Option<O>>, b: nat, h: seq<bool>)
    requires Plain(out, b) && Plain(done, b) && (Classify(out, h).Some? <==> Classify(done, h).Some?)
    ensures Classify(out + part, h) == Classify(done + was, h) <==>
      if Classify(done, h).Some? then Classify(out, h) == Classify(done, h) else Classify(part, h) == Classify(was, h)
  {
    hide Classify;
    ClassifyConcat(out, part, h);
    ClassifyConcat(done, was, h);
  }

  lemma WeaveAnswered<O(!new)>(out: Table<Option<O>>, done: Table<Option<O>>, part: Table<Option<O>>, was: Table<Option<O>>, b: nat)
    requires Plain(out, b) && Plain(done, b) && SameAnswered(out, done, b) && SameAnswered(part, was, b)
    ensures SameAnswered(out + part, done + was, b)
    ensures forall h: seq<bool> | |h| == b :: Classify(out, h).Some? <==> Classify(done, h).Some?
  {
    hide Classify;
    forall h: seq<bool> | |h| == b ensures Classify(out + part, h).Some? <==> Classify(done + was, h).Some? {
      ClassifyConcat(out, part, h);
      ClassifyConcat(done, was, h);
    }
  }

  lemma FlattenPlain<O>(parts: seq<Table<Option<O>>>, k: nat, b: nat)
    requires k <= |parts| && Plain(Flatten(parts), b)
    ensures Plain(Flatten(parts[..k]), b)
  {
    FlattenSplit(parts, k);
  }

  lemma PartPlain<O>(parts: seq<Table<Option<O>>>, k: nat, b: nat)
    requires k < |parts| && Plain(Flatten(parts), b)
    ensures Plain(parts[k], b) && |parts[k]| <= |Flatten(parts)|
  {
    PartOfFlat(parts, k);
  }

  /** All stars, and no output: what every woven table ends with. */
  function DropEntry<O>(b: nat): Entry<Option<O>> {
    Entry(seq(b, i => Star), None)
  }

  /** A last entry without output changes no class. */
  lemma DropLast<O(!new)>(table: Table<Option<O>>, e: Entry<Option<O>>, b: nat)
    requires (forall x <- table :: x.output.Some?) && e.output == None
    ensures SameClasses(table + [e], table, b)
  {
    forall h: seq<bool> | |h| == b ensures Classify(table + [e], h) == Classify(table, h) {
      ClassifyConcat(table, [e], h);
    }
  }

  /** The outputs are there, but for a None rule at the end. */
  ghost predicate DropRuleLast<O>(table: Table<Option<O>>, b: nat) {
    Width(table, b) && forall i | 0 <= i < |table| - 1 :: table[i].output.Some?
  }

  function WithoutNone<O(==)>(input: Table<Option<O>>): Table<Option<O>> {
    if input != [] && input[|input| - 1].output == None then input[..|input| - 1] else input
  }

  ghost predicate HasAllStars<O>(table: Table<Option<O>>, b: nat) {
    exists e <- table :: Stars(e.rule) == b
  }

  lemma NoAllStars<O>(table: Table<Option<O>>, b: nat)
    ensures HasAllStars(table, b) <==> exists e <- table :: Stars(e.rule) == b
  {
  }

  lemma PartHasAllStars<O>(parts: seq<Table<Option<O>>>, k: nat, b: nat)
    requires k < |parts| && |parts[k]| > 1 && exists e <- parts[k] :: Stars(e.rule) == b
    ensures HasAllStars(Flatten(parts), b) && |Flatten(parts)| > 1
  {
    PartOfFlat(parts, k);
  }

  lemma {:induction false} InSomePart<T>(parts: seq<seq<T>>, x: T) returns (k: nat)
    requires x in Flatten(parts)
    ensures k < |parts| && x in parts[k]
    decreases |parts|
  {
    if x in parts[0] {
      k := 0;
    } else {
      k := InSomePart(parts[1..], x);
      k := k + 1;
    }
  }

  /** Parts `k` and `k + 1` made one. */
  function Fused<T>(parts: seq<seq<T>>, k: nat): seq<seq<T>>
    requires k + 1 < |parts|
  {
    parts[..k] + [parts[k] + parts[k + 1]] + parts[k + 2..]
  }

  lemma FusedFlat<T>(parts: seq<seq<T>>, k: nat)
    requires k + 1 < |parts|
    ensures Flatten(Fused(parts, k)) == Flatten(parts)
  {
    hide Flatten;
    var f := Fused(parts, k);
    FlattenSplit(parts, k + 2);
    PartOfFlat(parts, k);
    PartOfFlat(parts, k + 1);
    FlattenSplit(f, k + 1);
    PartOfFlat(f, k);
    assert f[..k] == parts[..k] && f[k + 1..] == parts[k + 2..] && f[k] == parts[k] + parts[k + 1];
  }

  /** A rule that is all stars crosses no rule. */
  lemma AllStarsCrossNone<O>(part: Table<Option<O>>, other: Table<Option<O>>, b: nat)
    requires CrossFree(part) && |other| == 1 && Width(part, b) && Width(other, b) && Stars(other[0].rule) == b
    ensures CrossFree(part + other) && CrossFree(other + part)
  {
    assert other[0] in other;
    AllStarsBack(other[0].rule);
    forall e <- part ensures !Cross(other[0].rule, e.rule) && !Cross(e.rule, other[0].rule) {
    }
    CrossFreeJoin(part, other);
    CrossFreeJoin(other, part);
  }

  lemma CrossFreeJoin<O>(a: Table<Option<O>>, c: Table<Option<O>>)
    requires CrossFree(a) && CrossFree(c)
    requires forall x, y | x in a && y in c && |x.rule| == |y.rule| :: !Cross(x.rule, y.rule) && !Cross(y.rule, x.rule)
    ensures CrossFree(a + c)
  {
    hide Cross;
    var s := a + c;
    forall i, j | 0 <= i < |s| && 0 <= j < |s| && |s[i].rule| == |s[j].rule| ensures !Cross(s[i].rule, s[j].rule) {
      if i < |a| && j >= |a| {
        assert s[i] in a && s[j] in c;
      } else if i >= |a| && j < |a| {
        assert s[i] in c && s[j] in a;
      } else if i < |a| {
        assert s[i] == a[i] && s[j] == a[j];
      } else {
        assert s[i] == c[i - |a|] && s[j] == c[j - |a|];
      }
    }
  }

  ghost predicate FewestCrossFree<O(!new)>(parts: seq<Table<Option<O>>>, table: Table<Option<O>>) {
    && Flatten(parts) == table && CutLate(parts) && (forall p <- parts :: CrossFree(p))
    && forall other | Flatten(other) == table && (forall p <- other :: CrossFree(p)) :: |parts| <= |other|
  }

  /** In the fewest parts, a rule that is all stars is alone only if it is the whole table: otherwise its part could be fused with the next. */
  lemma NotAlone<O(!new)>(parts: seq<Table<Option<O>>>, table: Table<Option<O>>, b: nat, k: nat, e: Entry<Option<O>>)
    requires FewestCrossFree(parts, table) && Plain(table, b) && k < |parts| && |table| > 1
    requires e in parts[k] && Stars(e.rule) == b
    ensures |parts[k]| > 1
  {
    hide Flatten, CrossFree, Plain, Stars;
    if |parts[k]| == 1 {
      if |parts| == 1 {
        FlattenOne(parts);
      } else {
        FusedCut(parts, table, b, if k + 1 < |parts| then k else k - 1, k);
      }
    }
  }

  lemma FusedCut<O(!new)>(parts: seq<Table<Option<O>>>, table: Table<Option<O>>, b: nat, i: nat, k: nat)
    requires Flatten(parts) == table && (forall p <- parts :: CrossFree(p)) && Plain(table, b) && i <= k <= i + 1 < |parts|
    requires |parts[k]| == 1 && Stars(parts[k][0].rule) == b
    ensures Flatten(Fused(parts, i)) == table && (forall p <- Fused(parts, i) :: CrossFree(p)) && |Fused(parts, i)| == |parts| - 1
  {
    hide Flatten, CrossFree, Stars;
    PartPlain(parts, i, b);
    PartPlain(parts, i + 1, b);
    AllStarsCrossNone(parts[if k == i then i + 1 else i], parts[k], b);
    FusedFlat(parts, i);
  }

  lemma FlattenOne<T>(parts: seq<seq<T>>)
    requires |parts| == 1
    ensures Flatten(parts) == parts[0]
  {
    assert Flatten(parts[1..]) == [];
  }

  lemma AllStarsHaveCompany<O(!new)>(parts: seq<Table<Option<O>>>, table: Table<Option<O>>, b: nat)
    requires FewestCrossFree(parts, table) && Plain(table, b) && |table| > 1 && HasAllStars(table, b)
    ensures exists k | 0 <= k < |parts| :: |parts[k]| > 1 && HasAllStars(parts[k], b)
  {
    hide Flatten, CrossFree, Plain;
    var e :| e in table && Stars(e.rule) == b;
    var k := InSomePart(parts, e);
    NotAlone(parts, table, b, k, e);
    assert HasAllStars(parts[k], b);
  }

  /**
   Bit weaving: cut, permute, minimize, merge, permute back. It raises an error exactly when, without the None rule, the
   table is empty or is more than one rule, one of them all stars: such a rule crosses no other one, so it always ends up
   in a part of several rules. Otherwise the same keys have an output as before. A key's output changes exactly if, in the
   first part that has one for it, a hidden rule of the minimized part decides it; so no output changes exactly if earlier
   parts answer all keys that hidden rules decide.
   */
  method BitWeave<O(==, !new)>(input: Table<Option<O>>, b: nat, bits: nat)
    returns (r: Option<Table<Option<O>>>, ghost parts: seq<Table<Option<O>>>, ghost news: seq<Table<Option<O>>>, ghost works: seq<Work<O>>)
    requires DropRuleLast(input, b) && b <= bits && |input| < NONE_WEIGHT
    ensures r.None? <==> var table := WithoutNone(input); table == [] || (|table| > 1 && HasAllStars(table, b))
    ensures r.Some? ==> FewestCrossFree(parts, WithoutNone(input)) && |works| == |news| == |parts| && r.value == Flatten(news) + [DropEntry(b)]
    ensures r.Some? ==> forall k | 0 <= k < |parts| :: WovenPart(parts[k], news[k], works[k], b)
    ensures r.Some? ==> SameAnswered(r.value, input, b)
    ensures r.Some? ==> forall h: seq<bool> | |h| == b :: Classify(r.value, h) == Classify(input, h) <==> !Lost(parts, works, b, h)
    ensures r.Some? ==> (SameClasses(r.value, input, b) <==> HiddenAnswered(parts, works, b))
  {
    hide Plain, SameClasses, CrossFree, Woven, Flatten, Classify, DropRuleLast, HasAllStars, PartMerged, Stars, Order, SameAnswered,
      WovenPart, Lost, HiddenAnswered, StarOrder, CutLate;
    parts, news, works := [], [], [];
    if input == [] {
      r := None;
      return;
    }
    var table := input;
    if table[|table| - 1].output == None {
      table := table[..|table| - 1];
    }
    TableFacts(input, table, b);
    if table == [] {
      r := None;
      return;
    }
    var partitions := FindMinPartition(table, b);
    parts := partitions;
    if |table| > 1 && HasAllStars(table, b) {
      AllStarsHaveCompany(parts, table, b);
    }
    var out: Table<Option<O>> := [];
    NothingWoven(parts, b);
    NothingFlat<Entry<Option<O>>>();
    for k := 0 to |partitions|
      invariant |news| == k && Woven(parts, news, works, b) && out == Flatten(news)
      invariant forall j | 0 <= j < k && |parts[j]| > 1 :: !HasAllStars(parts[j], b)
    {
      assert parts[k] in parts;
      PartPlain(parts, k, b);
      if |partitions[k]| <= 1 {
        ghost var idle := Work([], [], []);
        SingleWoven(parts[k], idle, b);
        WeavePart(parts, news, works, parts[k], idle, b);
        out, news, works := out + partitions[k], news + [parts[k]], works + [idle];
        continue;
      }
      ghost var w;
      var part;
      part, w := MinimizePart(partitions[k], b, bits);
      if part.None? {
        PartHasAllStars(parts, k, b);
        r := None;
        return;
      }
      NoAllStars(parts[k], b);
      ManyWoven(parts[k], part.value, w, b);
      WeavePart(parts, news, works, part.value, w, b);
      out, news, works := out + part.value, news + [part.value], works + [w];
    }
    WovenAll(input, table, parts, news, works, b);
    r := Some(out + [DropEntry(b)]);
  }

  lemma NothingFlat<T>()
    ensures Flatten<T>([]) == []
  {
  }

  lemma SingleWoven<O(!new)>(part: Table<Option<O>>, w: Work<O>, b: nat)
    requires |part| <= 1
    ensures WovenPart(part, part, w, b) && SameAnswered(part, part, b)
  {
  }

  lemma ManyWoven<O(!new)>(part: Table<Option<O>>, out: Table<Option<O>>, w: Work<O>, b: nat)
    requires |part| > 1 && PartMerged(part, out, w, b) && StarOrder(part, w.order, b)
    ensures WovenPart(part, out, w, b) && Plain(out, b)
  {
    hide Minimized, G.Merged, SameClasses, H.Hidden, KeysKept;
  }

  /** An input that fails: a rule for the keys that start with 1, and one for all keys, which has no leading digits. */
  method AllStarsFail() returns (r: Option<Table<Option<int>>>)
    ensures r.None?
  {
    var table := [Entry([One], Some(1)), Entry([Star], Some(2))];
    assert WithoutNone(table) == table;
    assert table[1] in table && Stars(table[1].rule) == 1;
    ghost var parts, news, works;
    r, parts, news, works := BitWeave(table, 1, 1);
  }

  lemma TableFacts<O(!new)>(input: Table<Option<O>>, table: Table<Option<O>>, b: nat)
    requires DropRuleLast(input, b) && input != []
    requires table == if input[|input| - 1].output == None then input[..|input| - 1] else input
    ensures Width(table, b) && Plain(table, b) && SameClasses(input, table, b)
    ensures (table == [] <==> input[0].output == None) && forall e <- table :: e in input
  {
    var n := |input| - 1;
    assert input == input[..n] + [input[n]];
    if table != input {
      DropLast(input[..n], input[n], b);
    }
  }

  lemma WovenAll<O(!new)>(input: Table<Option<O>>, table: Table<Option<O>>, parts: seq<Table<Option<O>>>, news: seq<Table<Option<O>>>,
                          works: seq<Work<O>>, b: nat)
    requires |news| == |parts| && Woven(parts, news, works, b) && Flatten(parts) == table && SameClasses(input, table, b)
    ensures |works| == |news| == |parts| && forall k | 0 <= k < |parts| :: WovenPart(parts[k], news[k], works[k], b)
    ensures var r := Flatten(news) + [DropEntry(b)];
      && SameAnswered(r, input, b) && (SameClasses(r, input, b) <==> HiddenAnswered(parts, works, b))
      && forall h: seq<bool> | |h| == b :: Classify(r, h) == Classify(input, h) <==> !Lost(parts, works, b, h)
  {
    hide Flatten, Classify, WovenPart, Lost, HiddenAnswered;
    assert parts[..|parts|] == parts;
    DropLast(Flatten(news), DropEntry(b), b);
    LostIff(parts, works, b);
  }

  lemma LostBy<O(!new)>(parts: seq<Table<Option<O>>>, works: seq<Work<O>>, b: nat, h: seq<bool>) returns (k: nat, i: nat)
    requires |works| == |parts| && |h| == b && Lost(parts, works, b, h)
    ensures k < |parts| && |parts[k]| > 1 && HiddenRule(works[k], b, i) && !AnsweredBefore(parts, works[k], b, k, i)
  {
    hide GetsTo, DecidesKey, HiddenRule;
    k :| LostAt(parts, works, b, h, k);
    i :| DecidesKey(works[k], i, h) && HiddenRule(works[k], b, i);
  }

  /** No key is lost exactly if earlier parts answer all keys of the hidden rules. */
  lemma LostIff<O(!new)>(parts: seq<Table<Option<O>>>, works: seq<Work<O>>, b: nat)
    requires |works| == |parts|
    ensures HiddenAnswered(parts, works, b) <==> forall h: seq<bool> | |h| == b :: !Lost(parts, works, b, h)
  {
    hide GetsTo, DecidesKey, HiddenRule;
    if HiddenAnswered(parts, works, b) {
      forall h: seq<bool> | |h| == b ensures !Lost(parts, works, b, h) {
        if Lost(parts, works, b, h) {
          var k, i := LostBy(parts, works, b, h);
        }
      }
    }
    if forall h: seq<bool> | |h| == b :: !Lost(parts, works, b, h) {
      forall k: nat, i: nat | k < |parts| && |parts[k]| > 1 && HiddenRule(works[k], b, i) ensures AnsweredBefore(parts, works[k], b, k, i) {
        forall h: seq<bool> | |h| == b && DecidesKey(works[k], i, h) ensures !GetsTo(parts, k, h) {
          assert !LostAt(parts, works, b, h, k);
        }
      }
    }
  }
}
