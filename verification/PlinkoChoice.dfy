/** Where the installed paths come from: the library, or the paths installed before them. */
module PlinkoChoice {
  import opened Wrappers
  import opened FiniteSets
  import opened Topology
  import opened PlinkoPaths
  import opened PlinkoArcs

  /**
   The shortest-path library. It is asked by call number, because its answers are randomized: two calls with the
   same arguments may answer differently.
   */
  type Oracle = (nat, Vertex, set<Edge>) -> Option<seq<Port>>

  /** How backups are chosen: whether existing paths are preferred, and whether those must repeat no link. */
  datatype Mode = Mode(aware: bool, dfr: bool)

  /** The path of `m` could be taken over: it starts at the same switch, avoids the known failures and, with `dfr`, repeats no link. */
  ghost predicate Rival(g: Graph, recs: Records, mode: Mode, p: Path, m: Name)
    requires WellFormed(g)
  {
    && m in recs && recs[m].path.v == p.v && ValidHops(g, p.v, recs[m].path.hops) && Avoids(g, p.v, recs[m].path.hops, p.failedE)
    && (mode.dfr ==> ValidHops(g, p.v, p.extraRPath) && ArcSet(g, p.v, recs[m].path.hops) !! Crossed(g, p.v, p.extraRPath))
  }

  ghost function Rivals(g: Graph, recs: Records, mode: Mode, earlier: set<Name>, p: Path): set<Name>
    requires WellFormed(g)
  {
    set m <- earlier | Rival(g, recs, mode, p, m)
  }

  ghost function Sharing(recs: Records, names: set<Name>, hops: seq<Port>): set<Name> {
    set m <- names | m in recs && recs[m].path.hops == hops
  }

  /** No path of the rivals is there more often. */
  ghost predicate Commonest(recs: Records, rivals: set<Name>, hops: seq<Port>) {
    && (exists m <- rivals :: m in recs && recs[m].path.hops == hops)
    && forall m <- rivals :: m in recs ==> |Sharing(recs, rivals, recs[m].path.hops)| <= |Sharing(recs, rivals, hops)|
  }

  ghost predicate FromLibrary(oracle: Oracle, p: Path) {
    exists k: nat :: oracle(k, p.v, p.failedE) == Some(p.hops)
  }

  /** When `n` was installed, behind the records of `earlier`: a commonest rival path if there was one to take over, else one of the library. */
  ghost predicate Chosen(g: Graph, oracle: Oracle, mode: Mode, recs: Records, earlier: set<Name>, n: Name)
    requires WellFormed(g) && n in recs
  {
    var rivals := Rivals(g, recs, mode, earlier, recs[n].path);
    if n.breaks != [] && mode.aware && rivals != {} then Commonest(recs, rivals, recs[n].path.hops)
    else FromLibrary(oracle, recs[n].path)
  }

  ghost predicate ChosenAt(g: Graph, oracle: Oracle, mode: Mode, recs: Records, log: seq<Name>, i: nat)
    requires WellFormed(g)
  {
    i < |log| && log[i] in recs && Chosen(g, oracle, mode, recs, Elems(log[..i]), log[i])
  }

  /** The records in the order in which they were installed, each chosen with respect to those before it. */
  ghost predicate Logged(g: Graph, oracle: Oracle, mode: Mode, recs: Records, log: seq<Name>)
    requires WellFormed(g)
  {
    Elems(log) == recs.Keys && NoDup(log) && forall i: nat | i < |log| :: ChosenAt(g, oracle, mode, recs, log, i)
  }

  lemma NothingLogged(g: Graph, oracle: Oracle, mode: Mode)
    requires WellFormed(g)
    ensures Logged(g, oracle, mode, map[], [])
  {
  }

  /** Records that come later change nothing. */
  lemma ChosenKept(g: Graph, oracle: Oracle, mode: Mode, recs: Records, recs': Records, earlier: set<Name>, n: Name)
    requires WellFormed(g) && earlier <= recs.Keys && n in recs && Chosen(g, oracle, mode, recs, earlier, n)
    requires forall m <- recs :: m in recs' && recs'[m] == recs[m]
    ensures Chosen(g, oracle, mode, recs', earlier, n)
  {
    hide Rival, FromLibrary;
    var p := recs[n].path;
    RivalsKept(g, recs, recs', mode, earlier, p);
    var rivals := Rivals(g, recs, mode, earlier, p);
    forall hops: seq<Port> ensures Sharing(recs', rivals, hops) == Sharing(recs, rivals, hops) {
    }
  }

  lemma RivalsKept(g: Graph, recs: Records, recs': Records, mode: Mode, earlier: set<Name>, p: Path)
    requires WellFormed(g) && earlier <= recs.Keys && forall m <- recs :: m in recs' && recs'[m] == recs[m]
    ensures Rivals(g, recs', mode, earlier, p) == Rivals(g, recs, mode, earlier, p)
  {
    forall m <- earlier ensures Rival(g, recs', mode, p, m) <==> Rival(g, recs, mode, p, m) {
    }
    hide Rival;
  }

  lemma LogMore(g: Graph, oracle: Oracle, mode: Mode, recs: Records, log: seq<Name>, n: Name, r: Record)
    requires WellFormed(g) && Logged(g, oracle, mode, recs, log) && n !in recs && Chosen(g, oracle, mode, recs[n := r], recs.Keys, n)
    ensures Logged(g, oracle, mode, recs[n := r], log + [n])
  {
    hide Chosen;
    var recs', log' := recs[n := r], log + [n];
    assert Elems(log') == Elems(log) + {n};
    assert forall i | 0 <= i < |log| :: log[i] in Elems(log);
    forall i: nat | i < |log'| ensures ChosenAt(g, oracle, mode, recs', log', i) {
      if i < |log| {
        assert log'[..i] == log[..i];
        assert ChosenAt(g, oracle, mode, recs, log, i);
        assert Elems(log[..i]) <= Elems(log);
        ChosenKept(g, oracle, mode, recs, recs', Elems(log[..i]), log[i]);
      } else {
        assert log'[..i] == log;
      }
    }
  }

  /** An initial path, and a backup without a rival, come from the library. */
  lemma ChosenFromLibrary(g: Graph, oracle: Oracle, mode: Mode, recs: Records, n: Name, r: Record, k: nat)
    requires WellFormed(g) && n !in recs && oracle(k, r.path.v, r.path.failedE) == Some(r.path.hops)
    requires n.breaks == [] || !mode.aware || Rivals(g, recs, mode, recs.Keys, r.path) == {}
    ensures Chosen(g, oracle, mode, recs[n := r], recs.Keys, n)
  {
    hide Rival;
    RivalsKept(g, recs, recs[n := r], mode, recs.Keys, r.path);
  }

  lemma ChosenCommonest(g: Graph, oracle: Oracle, mode: Mode, recs: Records, n: Name, r: Record)
    requires WellFormed(g) && n !in recs && n.breaks != [] && mode.aware && Rivals(g, recs, mode, recs.Keys, r.path) != {}
    requires Commonest(recs, Rivals(g, recs, mode, recs.Keys, r.path), r.path.hops)
    ensures Chosen(g, oracle, mode, recs[n := r], recs.Keys, n)
  {
    hide Rival;
    var recs' := recs[n := r];
    RivalsKept(g, recs, recs', mode, recs.Keys, r.path);
    var rivals := Rivals(g, recs, mode, recs.Keys, r.path);
    forall hops: seq<Port> ensures Sharing(recs', rivals, hops) == Sharing(recs, rivals, hops) {
    }
  }
}
