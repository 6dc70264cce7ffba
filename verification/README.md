# Verified fast-failover routing

A Dafny model of the simulator's algorithms for fast failover: building forwarding tables that survive link failures,
walking packets through them, compressing them, keeping them free of deadlock, and sharing bandwidth. The proofs hold
for every topology, every random choice and every set of failed links.

`dafny verify dfyconfig.toml` checks the project.

## What is modelled

- **Plinko** (`PlinkoPaths`, `PlinkoArcs`, `PlinkoChoice`, `PlinkoBuilder`, `PlinkoWalk`). Rounds of backup paths keyed by
  switch, reverse path, uplink and local failures, and the packet walk that uses them. After r rounds every failure set of
  at most r edges that leaves source and destination connected is survived (`Resilience`, `BuildAndSend`). The proof
  names every installed path by its source and its breaks, and shows that two paths in the same packet state descend
  from one another (`SameRouteComparable`, `SameRouteChain`). A ghost log keeps the order in which the paths came and why
  each was chosen (`Logged`).
- **Wildcard tables** (`PlinkoTcam`, `TcamPacking`). Entries become ternary patterns, and a table is packed into fewer of
  them without changing any answer, until no two entries of a run could be joined any more.
- **Tree routing** (`ForestPaths`, `TreePaths`, `TreeWalk`, `TreeTables`, `AdstTables`, `TreeChoice`, `TreeRouting`,
  `TreeNetworks`). Tables over edge-disjoint or arc-disjoint trees, the walk with its header of failed trees, resilience and
  hop bounds, and the choice of the trees that a destination uses. `TreeNetworks` starts from the topology alone.
- **Tree-transition graphs and deadlock freedom** (`Ttg`, `RandomDag`, `DfrTables`, `Deadlock`). Packets without a header
  move from tree to tree along an acyclic graph. They survive fewer failures than there are layers ahead, and buffers
  never wait for each other in a circle.
- **Spanning trees and branchings** (`UnionFind`, `SpanningTrees`, `Branchings`). Kruskal's loop on disjoint sets with
  union by rank and path compression, edge-disjoint forests, arc-disjoint branchings.
- **Virtual channels** (`CycleSearch`, `VirtualChannels`). Path dependencies are packed into acyclic channels by depth-first
  searches that take out whole paths.
- **Weighted prefix minimization** (`Prefixes`, `RuleLists`, `Suri`). The dynamic program is optimal among all ordered
  lists of prefix rules.
- **Bit weaving** (`Ternary`, `Classes`, `MergeRounds`, `MaxCubes`, `RuleOrder`, `BitMerge`, `MergeHides`, `BitWeave`,
  `MergeExamples`). Fewest parts free of crosses, the permutation that makes a part prefixes, the way through the
  minimization and back, and the merging of rules that differ in one digit. Merging ends with exactly the maximal cubes of
  each output (`MergedAreMaxCubes`), and from these it is told which keys it gives another output.
- **Bandwidth** (`PriorityDict`, `Fairness`, `MaxMin`, `FlowPorts`). Water-filling over a heap with outdated entries gives
  the one max-min fair allocation.
- `Wrappers`, `Topology`, `Digraphs`, `FiniteSets` and `Sorting` hold what these share.

## How to read the model

A graph is a set of switches and, for each of their ports, the cable behind it; `WellFormed` is what reading a topology
establishes. Random choices are left open, so a contract holds for all of them. Answers of the graph library (shortest
paths, reachability, acyclicity, minimum cuts, feedback arc sets) are parameters that are only assumed to be right;
minimum cuts are not even assumed to be that. Loops that change state are methods with loops or classes with the
program's fields. Methods carry ghost parameters where a proof needs to know where in the whole run they stand.

Where the code and the statement one would like differ, the code is kept:

- `BitWeave` raises an error on an empty table, and on a table of several rules one of which is all stars, since such a
  rule has no leading digits to read as a number (bitweave.py:69-70). The contract says it fails in exactly these cases,
  and `AllStarsFail` gives one.
- `BitMerge` can change what a table does. A merged rule has fewer leading digits than its parts, so it is sorted behind
  rules that its parts preceded: 000 and 100 of one output become \*00, behind 0\*\* of another output
  (`MergingSpoils`; the whole of `BitWeave` gets there in `MergingSpoilsTable`). When that happens is told from the
  minimized table alone: a rule is hidden if some maximal cube of another output around it is sorted before all maximal
  cubes around it of its own output (`Hidden`). A key keeps its output exactly if the rule that decides it is not hidden
  (`KeyKept`), and the table does the same exactly if no rule is (`KeepsClassesIff`), for instance when no rule inside one
  of another output has a partner to merge with (`InnerAloneSuffices`). Behind other parts a hidden rule does no harm if
  these answer all keys it decides; `BitWeave` keeps all outputs exactly then.
- `BitMerge` can make a table larger, since it keeps a rule for every pair that merges to it. A cube with j stars merged
  in comes out c(j) times, with c(0) = 1 and c(j) = j c(j-1)\*c(j-1), so the table grows exactly if the copies of the
  maximal cubes are more than its rules (`MergedSize`). The 2^n even numbers of n + 1 digits are one cube, and merging them
  makes a larger table exactly from n = 3 on (`MergingGrows`).
- With `dfr` the builder's shortest-path function takes the links crossed so far out of a copy of the graph and then
  searches the graph without failed links instead (resnet_alg.py:405-431), so only existing paths are kept from repeating
  links; `FindPath` does the same. A whole way repeats no link exactly if none of its paths crosses a link of the way to it
  (`WayRepeats`).
- `newer_pack_tcam` raises an error on a non-empty table all of whose paths are null, since it then looks at the first of
  no patterns (resnet_alg.py:775). The contract says it fails in exactly this case, and `NullPathFails` gives one.
- `edst_forest` on a single switch finds the empty tree again and again (`OneVertexAlwaysConnected`), so its contract asks
  for two switches or for the search to be cut short.
- Whether k arc-disjoint trees survive every k - 1 failures, the order of the entries does not decide; what is proved is
  fewer than k/2 failures, and any single one.

## Model

| member | source | states |
|---|---|---|
| PlinkoBuilder.RevPathAtFail | resnet_alg.py:169-183 | the switch just before the first failed edge of a path, and the reversed hops up to it |
| Topology.ReverseLive | resnet_alg.py:149-159 | reversing a hop list leads back over the same cables: the reverse is valid, ends at the source, avoids whatever the list avoids, and reversing twice is the identity |
| Topology.RevHopsInjective | resnet_alg.py:149-159 | a packet's reverse path together with where it stands determines the source and the way it came |
| Topology.SimplePathExists | resnet_alg.py:394-470 | a pair that is still connected is joined by a path over live edges that visits no switch twice, which is what the path library is asked for |
| Topology.SimpleEdgesDistinct | resnet_alg.py:555-571 | a simple path crosses no edge twice in either direction, so every edge of a path gives a dependency set of its own |
| PlinkoBuilder.UpdateDeps | resnet_alg.py:555-571 | a path is listed exactly once under its known failures plus each one of its edges, and no other list changes |
| PlinkoPaths.RecordRoute | resnet_alg.py:1973-1987 | every installed path's route ends at its switch, its reverse path is that route reversed, and it knows exactly as many failures as it has breaks |
| PlinkoPaths.DescendantDiverges | resnet_alg.py:1975-1987 | a backup found through any chain of breaks leaves its ancestor's way exactly at the edge that broke, and knows that edge as failed |
| PlinkoPaths.SameRouteComparable | resnet_alg.py:1975-2103 | of two entries for one switch and reverse path, one was derived from the other |
| PlinkoPaths.SameRouteChain | resnet_alg.py:1978-2103 | the entries of one switch and reverse path form a chain with distinct uplinks, each failed set strictly containing the earlier ones and their uplinks |
| PlinkoBuilder.PathNames | resnet_alg.py:2101-2103 | no two derivations ever write the same forwarding key or the same path, so the builder never overwrites an entry |
| PlinkoBuilder.Builder.constructor | resnet_alg.py:1876-1889 | an empty table for one destination |
| PlinkoArcs.ArcsOf | resnet_alg.py:161-167 | the links that a hop list crosses, each with the switch it is crossed from |
| PlinkoArcs.WayBack | resnet_alg.py:2012-2015 | the reverse path at a break leads back to the source, and reversed again it is the way the packet came |
| PlinkoArcs.WayRepeats | resnet_alg.py:2012-2040 | a whole way crosses no link twice in one direction exactly if the way to its last path does not and that path crosses none of its links |
| PlinkoArcs.RouteRepeats | resnet_alg.py:2012-2040 | the way to a backup repeats nothing that the whole way before the break does not |
| PlinkoBuilder.Builder.FindPath | resnet_alg.py:2012-2077 | the backup chosen is a simple path to the destination that avoids all known failures: if that is asked for, the most frequent one of the switch among those that do and, with `dfr`, cross no link in a direction in which the packet has crossed it before; else the library's; none is given only when the destination cannot be reached |
| PlinkoBuilder.MostFrequent | resnet_alg.py:2028-2068 | of the existing paths that avoid the failures, none is in the table more often than the one picked |
| PlinkoBuilder.CommonestRecord | resnet_alg.py:2028-2068 | the path that most entries of the table have is the one that most installed paths are, among those that could be taken over |
| PlinkoChoice.LogMore | resnet_alg.py:2012-2103 | how each path was chosen with respect to those before it stays true when further paths are installed: the commonest that could be taken over, if there was one and that is asked for, else one of the library |
| PlinkoBuilder.Builder.Install | resnet_alg.py:2098-2103 | one entry is written under its switch, reverse path, uplink and local failures, and all others stay; the lists for the next round stay exact, and the log of choices grows by it |
| PlinkoBuilder.Builder.ProtectBreak | resnet_alg.py:1974-2103 | afterwards the break has a backup, or the destination is cut off from it; only that backup was added, and it was chosen as it should be with respect to the paths installed before it |
| PlinkoBuilder.Builder.ProtectNext | resnet_alg.py:1974-2213 | the next path of a list is protected; everything the round maintains still holds |
| PlinkoBuilder.Builder.ProtectKey | resnet_alg.py:1972-2213 | all paths listed under one failure set are protected |
| PlinkoBuilder.Builder.Round | resnet_alg.py:1966-2214 | after round r every break of every path with fewer than r known failures is handled, and the new lists hold exactly the breaks of the new paths |
| PlinkoBuilder.Builder.InitialPath | resnet_alg.py:269-289 | the first entry of one switch, present exactly when the destination can be reached |
| PlinkoBuilder.Builder.InitialPaths | resnet_alg.py:1893-1963 | the first entries of all switches and the list of their breaks |
| PlinkoBuilder.Builder.Run | resnet_alg.py:1893-2214 | whatever paths are chosen, after the given rounds every break with fewer known failures has a backup or cannot have one; no path knows more failures than there were rounds, and only the given hosts are served |
| PlinkoBuilder.NothingLeft | resnet_alg.py:1966-1970 | when no dependency is left, no further round would install anything, so stopping early loses nothing |
| PlinkoWalk.Resilience | resnet_alg.py:1950-2214 | after r rounds, a packet on any installed path reaches the destination under every failure set of at most r edges that leaves them connected |
| PlinkoWalk.DeliveryIsLive | resnet_throughput.py:243-286 | a delivered packet crosses no failed edge, and it changes path at most once per failure |
| PlinkoWalk.AtMostOneMatch | resnet_throughput.py:262-275 | in every state of the ports at most one entry of a switch and reverse path matches, which is the walk's assertion |
| PlinkoWalk.MatchIsDelivery | resnet_throughput.py:258-275 | the entry that matches carries the packet on exactly as the installed backups intend |
| PlinkoWalk.NoMatchIsDrop | resnet_throughput.py:258-275 | when no entry matches, no installed backup would have delivered the packet |
| PlinkoWalk.NoOrphans | resnet_alg.py:1975-2103 | a reverse path that a packet can carry after a break finds entries only if that very break was protected |
| PlinkoWalk.GroupEntries | resnet_throughput.py:99-152 | the table read back lists every entry exactly once under its switch and reverse path |
| PlinkoWalk.PickEntry | resnet_throughput.py:258-275 | an entry that matches the local failures, or none when none does; a second match never happens |
| PlinkoWalk.WalkPath | resnet_throughput.py:243-286 | the loop delivers exactly the packets the installed paths deliver, over exactly that way and then to the host, and reports a failure exactly when the initial path was hit; the way is made of at most one path more than there are failures, each followed up to its first failure |
| PlinkoWalk.BuildAndSend | resnet_alg.py:1893-2214 | builder and walk together: up to `rounds` failures that leave source and destination connected, the packet arrives, always over live edges, and changes path at most once per failure; it does exactly what the installed paths intend, which are paths for the hosts alone, know no more failures than `rounds`, and were each chosen as the mode asks |
| TcamPacking.PartialMatches | resnet_alg.py:710-716 | whether two ternary patterns are compatible at every position |
| TcamPacking.OverlapMeansCommonHeader | resnet_alg.py:710-716 | patterns are compatible exactly when some header matches both |
| TcamPacking.WildHammingDist | resnet_alg.py:749-756 | the positions at which a pattern must be widened |
| TcamPacking.NoDistanceMeansContained | resnet_alg.py:749-756 | the distance is empty exactly when every header of one pattern matches the other |
| TcamPacking.WidenContains | resnet_alg.py:795-828 | a pattern widened by its distance contains both patterns |
| TcamPacking.WidenNearest | resnet_alg.py:783-828 | every pattern contained before is still contained, the new one is too, and what was widened touches no rule of an earlier run; what is widened is the nearest entry that can be, and the pattern becomes an entry of its own only if none can be |
| TcamPacking.PickNextEntries | resnet_alg.py:772-835 | a run of rules with one path gets entries that contain all of them, no more than there are rules, none of the widened ones meeting an earlier rule; no two entries could be joined without that; rule after rule, the nearest entry is widened |
| TcamPacking.WidenedUnjoinable | resnet_alg.py:783-828 | if no two entries can be joined, none can after widening one or adding one |
| TcamPacking.RunsAreTable | resnet_alg.py:845-872 | the runs are the rules that have a path, in order, and neighbouring runs differ in the path |
| TcamPacking.FirstBlock | resnet_alg.py:845-872 | the first run, which nothing is in the way of, becomes one entry |
| TcamPacking.ReversedMatch | resnet_alg.py:874-884 | reversing a table turns last match into first match |
| TcamPacking.CommitRun | resnet_alg.py:845-872 | entries appended for a run answer its rules and disturb the answer to no earlier rule |
| TcamPacking.Commit | resnet_alg.py:845-872 | one run is packed into one block of entries behind the others; all rules so far are answered |
| TcamPacking.NewerPackTcam | resnet_alg.py:758-884 | for a table whose overlapping rules agree, every header of a rule gets that rule's path from the first match in the packed table, which has at most one rule more; from its end it is the drop rule and one block for each run, in which no two entries could be joined, and the first run is one entry; it fails exactly on a non-empty table of null paths |
| TcamPacking.NullPathFails | resnet_alg.py:758-776 | a table that makes the packing fail: one rule with a null path |
| PlinkoTcam.SortedPorts | resnet_alg.py:620-638 | all ports of a switch, each once, in descending order |
| PlinkoTcam.SortWildTable | resnet_alg.py:640-676 | the same rules, null paths first, then those whose path stands for more exact entries, by mask and by reverse path |
| Sorting.SortBy | resnet_alg.py:672-673 | the same elements in the order of their keys |
| PlinkoTcam.PatternMeansMatch | resnet_alg.py:620-638 | the ternary pattern of an entry matches a packet's header exactly when the entry matches the packet |
| PlinkoTcam.ChainPatternsDisjoint | resnet_alg.py:678-690 | two entries of a chain have patterns with no header in common |
| PlinkoTcam.BuildWildTable | resnet_alg.py:620-638 | the wildcard table holds one pattern for each entry of the switch, and no other, largest first; reverse paths are padded to one more than the longest of them |
| PlinkoTcam.WildTableConsistent | resnet_alg.py:678-690 | overlapping rules of a wildcard table built from Plinko entries always agree on the path |
| PlinkoTcam.PackSwitch | resnet_alg.py:758-884 | for every Plinko table, packing keeps what happens to every packet that an entry matches, and packs the sorted patterns run by run |
| ForestPaths.TreeLeadsTo | tree_alg.py:798-832 | in a spanning tree every switch has a path to the destination, so no switch is left without a path |
| ForestPaths.BranchingLeadsTo | tree_alg.py:798-832 | in a spanning branching every switch has a path to the destination against the links |
| ForestPaths.ShortestExists | tree_alg.py:798-832 | wherever there is a path in a tree there is a shortest one for the library to find |
| ForestPaths.TreePathsOf | tree_alg.py:805-830 | a shortest path in the tree for every switch, empty only for the destination itself, which the source asserts |
| ForestPaths.RouteForest | tree_alg.py:798-832 | the same for all trees of a forest |
| TreePaths.HopDescends | tree_alg.py:798-832 | taking a tree's first hop brings a packet one hop closer to the destination in that tree |
| TreePaths.ShortestIsShort | tree_alg.py:798-832 | a shortest path in a tree visits no switch twice |
| TreePaths.DepthBound | tree_alg.py:798-832 | so it has fewer hops than there are switches |
| TreeWalk.PickFirst | tree_throughput.py:351-362 | the first entry whose tree is not marked and whose edge is up |
| TreeWalk.LocalSuffices | tree_throughput.py:321-326 | knowing the failed edges at the switch gives the same choice as knowing all failed edges |
| TreeWalk.WalkInternal | tree_throughput.py:304-384 | the loop ends as the step function does, with the same hops; a delivered packet reports a failure exactly if it changed trees, a dropped one always |
| TreeWalk.ReportsChange | tree_throughput.py:364-384 | a packet reports a failure exactly if some hop was taken on another tree than the one before |
| TreeWalk.RunIsLive | tree_throughput.py:304-384 | whatever the tables hold, a packet crosses only live edges and stands where its hops lead |
| TreeTables.StepKeeps | tree_throughput.py:351-382 | one hop keeps the packet off the trees it has given up, all of which have failed, and uses up hop budget |
| TreeTables.RunEnds | tree_throughput.py:304-384 | the walk ends within its budget, and is dropped only when every resilient tree has a failed edge |
| TreeTables.TreeResilience | tree_alg.py:1403-1491 | for any failures the walk stops within (k+1)(n-1) hops, k(n-1) without a default tree, over live edges; if one resilient tree is intact the packet arrives |
| TreeTables.FewEdgesFailFewTrees | tree_alg.py:1403-1491 | fewer failures than edge-disjoint trees leave a tree intact |
| TreeTables.FewEdgesFailFewArcTrees | tree_alg.py:1506-1514 | a failed edge hits at most two arc-disjoint trees |
| TreeTables.SortTrees | tree_alg.py:1426-1434 | the resilient trees, each once, nearest first |
| TreeTables.ListedNearest | tree_alg.py:1426-1491 | behind the packet's own tree the entries stand by their distances from the switch |
| TreeTables.EdstEntries | tree_alg.py:1454-1491 | the entries for one tree: the tree itself, then every other resilient tree once, each marking those before it |
| TreeTables.EdstSwitch | tree_alg.py:1419-1491 | the entries of one switch, all in one order of the trees, nearest first; those of other switches stay |
| TreeTables.EdstFwdtable | tree_alg.py:1403-1491 | every switch but the destination gets them for every tree |
| AdstTables.MapArcs | tree_alg.py:1506-1514 | each arc of the resilient trees is mapped to the one tree that uses it; none is met twice |
| AdstTables.AdstEntries | tree_alg.py:1552-1634 | the entries for one tree: no tree twice, all resilient trees, every tree of the order with the tree of the opposite arc right behind it unless that one is listed already |
| AdstTables.ArrangedMore | tree_alg.py:1610-1634 | a further tree and its reverse tree keep the list like that |
| AdstTables.HeadsNearest | tree_alg.py:1516-1634 | but for reverse trees the entries stand by their distances from the switch |
| AdstTables.AdstSwitch | tree_alg.py:1516-1634 | the entries of one switch, all in one order of the trees; those of other switches stay |
| AdstTables.AdstFwdtable | tree_alg.py:1493-1634 | every switch but the destination gets them for every tree |
| AdstTables.ClearDelivers | tree_throughput.py:304-384 | a packet whose tree has no failure from where it stands is delivered on that tree |
| AdstTables.TurnAround | tree_alg.py:1571-1591 | at the one failed edge the packet turns to the reverse tree, on which it meets no failure any more |
| AdstTables.SingleFailureRun | tree_alg.py:1552-1634 | with two resilient trees the failure of an edge that every one of them uses is survived |
| AdstTables.AdstResilience | tree_alg.py:1493-1634 | k arc-disjoint trees survive every failure set of less than half their number, and any single failure when k is at least two |
| TreeRouting.EdstRoute | tree_throughput.py:304-384 | tables and walk together: fewer failures than edge-disjoint trees never stop a packet; it goes as the tables say, which list the trees nearest first |
| TreeRouting.AdstRoute | tree_throughput.py:304-384 | the same for arc-disjoint trees with their bounds, and reverse trees right behind |
| TreeNetworks.EdstNetwork | tree_alg.py:1881-1940 | from the topology on: for every random choice of edges the trees are disjoint and spanning, the tables are over shortest paths in them and the default trees, and fewer failures than trees never stop a packet |
| TreeNetworks.AdstNetwork | tree_alg.py:1881-1943 | from the topology on, with however many branchings could be grown, each link by link where the cuts allowed it |
| Ttg.TiersReach | tree_alg.py:1129-1149 | in a TTG of the shape all builders make, every tree reaches every tree of all later layers |
| Ttg.TtgNores | tree_alg.py:862-873 | no arcs, one layer |
| Ttg.TtgLine | tree_alg.py:875-897 | the line; acyclic, as many layers as trees are asked for, only the first with more than one tree |
| Ttg.LayerWidths | tree_alg.py:899-935 | the widths are positive, shrink as the reduction says but for a cut last layer, and add up to the number of trees |
| Ttg.OnlyWidths | tree_alg.py:899-935 | no other widths add up and shrink like that, so the number of layers is determined |
| Ttg.OneTreeLayers | tree_alg.py:916-935 | with one tree in every later layer there is a layer for each tree behind the first layer |
| Ttg.TtgLayeredDag | tree_alg.py:924-979 | acyclic; the layers have just the widths the reduction asks for, and the arcs are all those from each layer to the next, with lines inside the layers on request |
| Ttg.TtgRandMaxDag | tree_alg.py:989-1039 | behind any acyclic first layer the line of `rand_res` trees gives an acyclic TTG of `rand_res` + 1 layers, with just the arcs of that layer, of the line, and from the layer to the first of the line |
| Ttg.FindLayers | tree_alg.py:1129-1149 | the breadth-first search finds exactly the layers, disjoint and covering all trees, as the source asserts |
| RandomDag.TtgRandBreakCycle | tree_alg.py:1085-1102 | one arc of a cycle is removed if all of it is still there, else nothing |
| RandomDag.BreakPass | tree_alg.py:1061-1083 | one search removes arcs only from cycles that exist at that moment, and removes none only if the graph is acyclic |
| RandomDag.BreakKeepsConnected | tree_alg.py:1085-1102 | removing an arc of a cycle does not take a graph apart |
| RandomDag.TraceKeepsConnected | tree_alg.py:1054-1102 | nor does any number of such removals |
| RandomDag.TtgRandDagHelper | tree_alg.py:1054-1083 | the search repeated on the complete graph stops, with an acyclic graph that is still weakly connected, which the source asserts; every arc lost was on a cycle when it was removed |
| RandomDag.TtgRandDag | tree_alg.py:981-1039 | the random TTG has that shape, whatever was picked; its first layer is acyclic, connected, and what is left of the complete graph when arcs of cycles are taken out one by one |
| CycleSearch.SearchEnds | tree_alg.py:1061-1083 | a search that closed no path proves the graph acyclic |
| CycleSearch.CycleExists | tree_alg.py:1061-1083 | as long as nothing was removed, every path that closes is a cycle of the graph |
| TreeRouting.KeepTop | tree_alg.py:1214-1220 | the layers keep exactly the chosen trees they had, in order, and empty ones are dropped |
| TreeRouting.NoLayerLost | tree_alg.py:1214-1237 | no layer is dropped when the chosen trees include one of each; they do when there is room for all trees behind the first layer, as the next rows show |
| TreeChoice.SumPaths | tree_alg.py:1163-1172 | the hops of all switches in one tree, by which trees are compared |
| TreeChoice.SortByDistance | tree_alg.py:1178-1179 | all trees, nearest first |
| TreeChoice.ChooseTrees | tree_alg.py:1178-1209 | the exchange stops with as many trees as asked for, nearest of the first layer and nearest of the others, no more than `maxl1` of the first layer unless all others are chosen, and fewer only if the nearest of all are chosen |
| TreeChoice.AllOthersChosen | tree_alg.py:1193-1209 | with room for all other trees beside `maxl1` of the first layer, all of them are chosen, and exactly the rest comes from the first layer |
| TreeRouting.TopTrees | tree_alg.py:1161-1209 | the trees chosen for a destination by their summed distances, or all |
| TreeRouting.LayTrees | tree_alg.py:1129-1220 | the layers hold exactly the chosen trees and reach each other in order; all layers are left if all trees are used, or if besides `maxl1` trees of the first one there is room for all others |
| TreeRouting.LayLine | tree_alg.py:1222-1239 | in a line every chosen tree ends up in a layer of its own, in the order of the line, so that there are as many layers as trees are asked for |
| TreeRouting.LayRandMax | tree_alg.py:1186-1237 | the random and maximal TTGs always keep `rand_res` + 1 layers: `num_trees - rand_res` trees in the first, one in each other, which the source asserts |
| TreeRouting.LaidRandMax | tree_alg.py:1228-1237 | whatever trees the exchange picks, that assertion holds |
| DfrTables.DfrEntries | tree_alg.py:1340-1396 | the entries for one tree: the tree itself, then, layer by layer from its own on and in the order of each layer, exactly the trees it reaches, none marked as failed; with PERF the trees of a layer nearest first |
| DfrTables.OrderLayer | tree_alg.py:1251-1314 | the trees of a layer, each once: with PERF nearest first, with RES never a tree right behind one that it reaches |
| DfrTables.DfrSwitch | tree_alg.py:1243-1396 | each layer is sorted once, and all entries of the switch follow these orders; the entries of other switches stay |
| DfrTables.DfrFwdtable | tree_alg.py:1112-1396 | every switch but the destination gets them for every tree in use |
| DfrTables.StepClimbs | tree_throughput.py:317-382 | one hop stays in its layer or passes only layers that have a failure, and uses up hop budget |
| DfrTables.RunEnds | tree_throughput.py:304-384 | the walk ends, and a packet is dropped only when every layer from its own on has a failure |
| DfrTables.LayeredResilience | tree_alg.py:1112-1396 | without any failed-tree header, a packet is delivered if one layer from its own on is intact |
| DfrTables.FewEdgesFailFewLayers | tree_alg.py:1112-1396 | each failed layer has a failed edge of its own |
| DfrTables.LayersSurvive | tree_alg.py:1129-1239 | from layer i of L every failure set of fewer than L - i edges is survived |
| TreeRouting.DfrRoute | tree_throughput.py:304-384 | tables and walk together, with a hop bound; the packet goes as the tables say, which list each layer in the order asked for |
| TreeRouting.RandMaxDagRoute | tree_alg.py:981-1039 | the random and maximal TTGs tolerate `rand_res` failures from any first-layer tree in use, however few trees are asked for; when more are asked for than exist, all are used, as the source does with a limit on the first layer |
| TreeRouting.LineRoute | tree_alg.py:875-897 | on a line fewer failures than trees in use are survived from the first one |
| TreeRouting.LayeredDagRoute | tree_alg.py:899-979 | in layers of shrinking widths fewer failures than layers in use are survived, and these are all of the TTG's where there is room for the trees behind the first |
| Deadlock.OneParentEach | tree_alg.py:1339-1396 | in a spanning tree every edge is the hop of exactly one switch, seen from any root |
| Deadlock.RankClimbs | tree_alg.py:1339-1396 | inside one tree, up channels then down channels: following without turning back always climbs |
| Deadlock.DepClimbs | tree_alg.py:1339-1396 | whoever holds one channel and requests the next has moved along the TTG or climbed in its tree |
| Deadlock.ChainClimbs | tree_alg.py:1339-1396 | the same over any chain of dependencies, across destinations and failure sets |
| Deadlock.DeadlockFree | tree_alg.py:1339-1396 | no chain of channels that wait for each other ever closes, over all destinations, start trees and failure sets, even changing ones |
| Deadlock.WalkDepends | tree_throughput.py:317-382 | every two consecutive hops of every walk are such a dependency, so nothing the walk does is missed |
| TreeNetworks.LayDestination | tree_alg.py:1926-1940 | the layers and tables of one destination over the common forest, with the trees chosen for it, each layer in one order at a switch |
| TreeNetworks.LayNetwork | tree_alg.py:1800-1940 | one forest and one TTG for all destinations, each with its own chosen trees, give a network the deadlock theorem holds for |
| TreeNetworks.NetworkSurvives | tree_throughput.py:304-384 | in such a network every packet survives fewer failures than there are layers from its own on |
| TreeNetworks.RandMaxPlan | tree_alg.py:1228-1237 | in such a network every destination has the layers the source asserts |
| TreeNetworks.RandDagNetwork | tree_alg.py:1800-1940 | from the topology on, with a random TTG: no circle of waiting channels and `rand_res` + 1 layers for every destination, whatever trees are picked for it and whatever arcs of cycles are taken out; no network comes out exactly if the maximal forest has no more than `rand_res` trees |
| UnionFind.Compress | tree_alg.py:473-478 | hanging a vertex under its root changes no set, and ranks still grow towards the roots |
| UnionFind.MergeForest | tree_alg.py:453-471 | union by rank keeps ranks growing towards the roots, and a set of rank r has at least 2^r vertices |
| UnionFind.MergeSpans | tree_alg.py:453-471 | the two edge sets and the joining edge are a spanning tree of the merged set |
| UnionFind.DisjointSets.constructor | tree_alg.py:448-451 | every vertex is a set of its own with no edges |
| UnionFind.DisjointSets.Find | tree_alg.py:473-478 | the root of the set; exactly the vertices on the way hang under it then; it terminates because ranks grow |
| UnionFind.DisjointSets.FindKeeping | tree_alg.py:473-478 | finding leaves the sets' edges alone |
| UnionFind.DisjointSets.JoinRoots | tree_alg.py:457-471 | the root of smaller rank, or of equals the second one, is hung under the other one, whose rank grows only then, and which gets both edge sets and the joining edge; the sets are those before with two of them merged |
| UnionFind.DisjointSets.Union | tree_alg.py:453-471 | the sets of the two ends become one, by rank; all others stay |
| SpanningTrees.SetsAreComponents | tree_alg.py:487-516 | at every moment the sets are exactly the components of the picked edges |
| SpanningTrees.AllInOne | tree_alg.py:540-549 | after n - 1 picks one set is left, and its edges are a spanning tree |
| SpanningTrees.Apart | tree_alg.py:487-533 | when the edges run out before that, they do not connect the vertices |
| SpanningTrees.PickEdge | tree_alg.py:491-497 | whatever is picked at random, and however often again, it is an available edge |
| SpanningTrees.EdstTree | tree_alg.py:435-555 | for every sequence of random picks, a spanning tree of available edges is returned exactly when they connect the vertices, and these edges are used up |
| SpanningTrees.EdstForest | tree_alg.py:557-572 | the trees are spanning and share no edge; unless cut short, the edges left over do not connect the vertices |
| SpanningTrees.NoFurtherTree | tree_alg.py:557-572 | so no further spanning tree of any kind fits beside them |
| SpanningTrees.OneVertexAlwaysConnected | tree_alg.py:565-570 | with one vertex the empty tree always fits, so an uncut search would never stop |
| Branchings.EveryVertexEntered | tree_alg.py:623-750 | every vertex but the destination is entered by a link of the branching |
| Branchings.Grow | tree_alg.py:731-748 | adding a link from inside the tree to outside keeps it a branching |
| Branchings.NextLink | tree_alg.py:637-720 | whatever the minimum cuts are, the link chosen is available, leads out of the tree, and lies where the cut allows it; none is given only if no link leads out, or behind one of them nothing may be taken |
| Branchings.AdstTree | tree_alg.py:623-750 | what is returned is a spanning branching of available links, which are used up, each one where the cuts allowed it when it was taken; it fails only if the branching grown so far is stuck |
| Branchings.AdstForest | tree_alg.py:759-796 | the branchings share no link, each was grown with room for one tree less, and they are as many as the connectivity or the number asked for unless growing got stuck on the links left |
| Branchings.ArcsDisjoint | tree_alg.py:1506-1514 | branchings that share no link route over different arcs |
| VirtualChannels.BuildCdgVc | resnet_dfr.py:229-265 | the channel holds exactly the dependencies of the given paths |
| VirtualChannels.WeakestIsNotAll | resnet_dfr.py:304-351 | the weakest link of a cycle never has all the paths, since no path alone has the whole cycle |
| VirtualChannels.BreakCycleCdgVc | resnet_dfr.py:304-351 | a cycle that exists loses a link by taking out whole paths, never all of them; one that is broken already changes nothing |
| VirtualChannels.RemoveCyclesCdgVc | resnet_dfr.py:354-418 | one search takes out only whole paths, leaves something, and takes out nothing only if the channel is acyclic |
| VirtualChannels.MakeAcyclic | resnet_dfr.py:420-451 | repeated searches stop with an acyclic channel |
| VirtualChannels.FewerMoveOn | resnet_dfr.py:420-451 | strictly fewer paths move on to the next channel |
| VirtualChannels.AssignVcs | resnet_dfr.py:420-451 | the assignment stops, all channels are acyclic, and each path has all its dependencies in exactly one channel and none in any other; what moves on are all paths of a fewest-path link of a cycle that was there then, again and again, and no next channel is built but out of paths that have a cycle together |
| VirtualChannels.OneChannelEach | resnet_dfr.py:420-451 | the dependencies of a path are all in one channel and none of them in another |
| VirtualChannels.AcyclicKeepsAll | resnet_dfr.py:420-451 | no path leaves an acyclic channel |
| VirtualChannels.NextIsNeeded | resnet_dfr.py:420-451 | where there is a next channel, the paths of this one and all later ones together have a cycle |
| VirtualChannels.OneChannelForAll | resnet_dfr.py:420-451 | paths that are acyclic together are one channel |
| Prefixes.NestedOrApart | suri.py:14-19 | two prefixes are nested or apart |
| Prefixes.PrefixesCover | suri.py:23-35 | the prefixes found are prefixes, lie in the interval, and together hold exactly its points |
| Prefixes.PrefixOfNode | suri.py:23-35 | a prefix is made up of itself alone |
| Suri.Color | suri.py:61-73 | what the scan over the universe finds |
| Suri.ColorMeans | suri.py:61-73 | a colour found is the first-match colour of every point; a prefix reported as mixed has more than one point |
| Suri.AtomicOptimal | suri.py:102-109 | the weights given to a prefix of one colour are minimal, and the one or two rules attain them |
| Suri.CutIsCandidate | suri.py:111-134 | a rule list can be cut behind a rule that contains the whole prefix, and gets lighter |
| Suri.SplitBound | suri.py:111-134 | every rule list for a prefix weighs at least as much as some way to join its halves |
| Suri.SplitOptimal | suri.py:111-134 | the lightest way to join optimal halves is optimal among all ordered prefix-rule lists |
| Suri.OptimalUnique | suri.py:75-137 | a prefix and a default colour have only one optimal weight |
| Suri.WeightedSuris | suri.py:75-137 | every weight in the dictionary is the minimum over all ordered prefix-rule lists that end in the default colour and classify the prefix as the universe does; the dictionary answers all prefixes of the interval |
| Suri.MergedSolves | suri.py:139-152 | merging solutions of the halves that end in one colour gives a solution of the prefix of the joined weight |
| Suri.MergeLists | suri.py:139-152 | the result is all merges of a list of one half with one of the other |
| Suri.FindSolutions | suri.py:154-205 | every list found classifies its prefix as the universe does and attains the minimum weight; there is one for every colour, and where a prefix is halved every minimal join of the halves contributes all its merges |
| Suri.FoundExactly | suri.py:154-205 | the solutions of a prefix that is halved are exactly the merges of halves that together have the minimal weight |
| Ternary.CheckCrossPattern | bitweave.py:7-17 | whether each rule has a star where the other has none |
| Ternary.ForcedCuts | bitweave.py:19-35 | places that must be cut, one behind the other, bound the number of parts of every cut from below |
| Ternary.FindMinPartition | bitweave.py:19-35 | the parts are contiguous and free of crosses, put together they are the table, and no other such cut has fewer; each part is as long as it can be from its end |
| Ternary.OneLateCut | bitweave.py:19-35 | there is only one cut into parts free of crosses that are as long as can be from their ends |
| Ternary.SortColumns | bitweave.py:38-45 | all columns, each once, by their number of stars; equals stay in order |
| Ternary.MoreStars | bitweave.py:37-53 | in a part free of crosses, a column with a star where another has none has more stars |
| Ternary.PrefixBitSwap | bitweave.py:37-53 | the columns are permuted the same way in all rules, and in a part free of crosses every rule becomes a prefix |
| Ternary.PrefixesDoNotCross | bitweave.py:37-53 | rules that are prefixes never cross, so only parts free of crosses can be permuted into prefixes |
| Ternary.BitRecovery | bitweave.py:55-63 | permuting the result again gives the input |
| Ternary.OneOriginal | bitweave.py:55-63 | only one table has the given permuted form |
| Ternary.SwapAndRecover | bitweave.py:208-209 | recovery after the permutation gives back the very table, which the source asserts |
| BitWeave.IntervalMatches | bitweave.py:65-79 | a prefix rule's interval holds exactly the numbers of the keys it matches |
| BitWeave.LowIsInterval | bitweave.py:69-71 | the bounds computed from the leading digits and the number of stars are that interval |
| BitWeave.SuriFmt | bitweave.py:65-79 | the interval rules, the None rule behind them, and the weights; a rule without leading digits raises an error |
| BitWeave.Bin | suri.py:37-46 | binary digits of the number, padded to the size |
| BitWeave.Int2Prefix | suri.py:48-59 | a digit where the ends of the interval agree, a star where they differ |
| BitWeave.PatternOfNode | suri.py:48-59 | for a prefix that is a rule matching exactly the keys whose numbers lie in it |
| BitWeave.SuriUnfmt | bitweave.py:81-91 | all rules but the last one come back as prefix rules that match the same keys |
| BitWeave.PartIsCandidate | bitweave.py:211-217 | the part itself, with the None rule, competes for the minimum |
| BitWeave.OneNoneRule | bitweave.py:81-91 | every minimal solution of a part with fewer than 200000 rules has exactly one None rule, the last, so dropping it drops nothing else |
| BitWeave.RivalIsCandidate | bitweave.py:211-217 | every other table of prefix rules that does the same competes too |
| BitWeave.SolutionIsFewest | bitweave.py:211-225 | so a minimal solution has no more rules than any of them |
| BitWeave.MinimizePrefixes | bitweave.py:211-225 | a part of prefix rules is replaced by one that classifies every key alike, and no table of prefix rules that does so has fewer; it raises an error exactly when a rule is all stars |
| BitWeave.MinimizePart | bitweave.py:199-237 | a part is permuted, minimized to the fewest rules, merged, and permuted back; a key keeps its output exactly when the minimized rule that decides it is not hidden by a maximal cube of another output, so all keys do exactly when no rule is; the same keys always have an output; it raises an error exactly when a rule is all stars |
| RuleOrder.SortRules | bitweave.py:110-125 | the same rules, more leading digits first, then by their characters |
| RuleOrder.SortedOnce | bitweave.py:156-166 | there is only one way to sort entries with different rules, so comparing the sorted lists tells whether anything was merged |
| BitMerge.MaskOf | bitweave.py:93-98 | the positions of the stars |
| BitMerge.HammingDist | bitweave.py:100-106 | the positions at which two rules differ |
| BitMerge.DistanceOne | bitweave.py:139-143 | of two rules with the same stars, the distance is one exactly when they differ in one digit, as the source asserts |
| MergeRounds.JoinedMatches | bitweave.py:144-148 | the merged rule matches the keys of both, and no other |
| BitMerge.Group | bitweave.py:126-131 | the rules are listed by stars and output |
| BitMerge.MergeGroup | bitweave.py:135-155 | out of a group comes every merged rule once for each two rules that merge to it, and each rule without a partner as often as it was there |
| BitMerge.MergeGroups | bitweave.py:134-155 | so it does out of all groups together: each entry once for every two entries that are its halves at one of its stars, and as often as before if it stays |
| BitMerge.PairsCount | bitweave.py:136-148 | in a group, as many pairs merge to a rule as there are copies of its one half times copies of its other half |
| BitMerge.RoundElems | bitweave.py:134-155 | the entries that come out of a round are those that stay and the unions of partners |
| BitMerge.CountRound | bitweave.py:134-168 | if a cube with j stars merged in is there c(j) times before a round, so it is after it |
| MaxCubes.StepAt | bitweave.py:134-168 | after n rounds there are exactly the cubes with n stars merged in and the maximal ones with fewer |
| MaxCubes.MergedAreMaxCubes | bitweave.py:108-168 | merging ends with exactly the maximal cubes of what the rules of one output and digit span cover |
| MergeRounds.RoundGrows | bitweave.py:134-155 | a round makes a set of rules larger exactly if its new merged rules are more than the rules that have a partner |
| MergeRounds.NoAlliesLeft | bitweave.py:165-166 | when a round changes nothing, no two rules differ in one digit only |
| MergeRounds.RoundStage | bitweave.py:134-155 | a round keeps, output by output, what the rules cover, and every first rule inside some merged one |
| BitMerge.BitMerge | bitweave.py:108-168 | it stops with the maximal cubes of each output and digit span, sorted, a cube with j stars merged in exactly c(j) times, where c(0) = 1 and c(j) = j c(j-1)^2; a further round would change nothing |
| MergeRounds.FewestIsLean | bitweave.py:211-226 | in a minimal table every rule decides some key, and no two are the halves of one prefix of one output |
| MergeHides.HiddenIff | bitweave.py:108-168 | the first merged rule around a rule has its output exactly if no maximal cube of another output around it is sorted before all of its own output |
| MergeHides.KeyKept | bitweave.py:211-236 | a key keeps its class through merging exactly if the rule that decides it is not hidden that way |
| MergeHides.KeepsClassesIff | bitweave.py:211-236 | a merged minimal table classifies every key alike exactly if none of its rules is hidden |
| MergeRounds.SameKeys | bitweave.py:211-236 | whatever is hidden, the same keys have an output |
| MergeHides.InnerAloneSuffices | bitweave.py:211-236 | no rule is hidden if no rule inside one of another output has a partner |
| MergeHides.MergedSize | bitweave.py:108-168 | the merged table has as many rules as the maximal cubes have copies, so it is larger than before exactly if these outnumber the rules |
| Classes.ClassifyConcat | bitweave.py:190-240 | first match goes through the parts in order |
| BitWeave.WeaveKeys | bitweave.py:188-237 | tables put behind each other do the same to a key exactly if the first ones do or, where these have no output, the second ones do |
| BitWeave.NotAlone | bitweave.py:183-197 | in a fewest cut, a rule that is all stars is alone in its part only if it is the whole table |
| BitWeave.BitWeave | bitweave.py:170-240 | the same keys have an output as before; a key's output changes exactly if a hidden rule of the minimized table decides it in the first part that has an output for it, so every key keeps its output exactly if earlier parts answer all keys of hidden rules; it fails exactly on a table that is empty, or has several rules of which one is all stars, not counting a last None rule |
| BitWeave.AllStarsFail | bitweave.py:65-71 | a table that makes it fail: two rules, one of them all stars |
| MergeExamples.MergingSpoilsTable | bitweave.py:170-240 | a table that comes back changed: whatever minimal solution is found, the key 000 gets another output |
| MergeExamples.MergingSpoils | bitweave.py:108-168 | merging the rules 000 and 100 of one output puts them behind 0**, which has another output |
| MergeExamples.MergingGrows | bitweave.py:108-168 | merging the 2^n even numbers of n + 1 digits leaves c(n) copies of one rule, which is more than there were exactly from n = 3 on |
| PriorityDict.PriorityDict.constructor | priority_dict.py:18-20 | every key has its current entry in the heap, and the heap nothing else |
| PriorityDict.PriorityDict.RebuildHeap | priority_dict.py:22-24 | afterwards the heap has one entry for each key |
| PriorityDict.PriorityDict.TopIsSmallest | priority_dict.py:26-37 | an entry on top of the heap that is current belongs to a key of smallest priority |
| PriorityDict.PriorityDict.HeapLasts | priority_dict.py:26-50 | the heap never runs out before the dictionary |
| PriorityDict.PriorityDict.Smallest | priority_dict.py:26-37 | a key of smallest current priority; only outdated entries are dropped, from the top |
| PriorityDict.PriorityDict.PopSmallest | priority_dict.py:39-50 | the same, and the key is removed with its entry on top |
| PriorityDict.PriorityDict.Set | priority_dict.py:52-63 | the key has its new priority; its entry joins the heap, or the heap is rebuilt once it has twice as many entries as the dictionary |
| PriorityDict.PriorityDict.Delete | priority_dict.py:3-10 | a deleted key is gone and the others keep their priorities; its outdated entries stay in the heap, which does not matter |
| PriorityDict.PriorityDict.SetDefault | priority_dict.py:65-69 | an existing key keeps its priority |
| PriorityDict.PriorityDict.Update | priority_dict.py:71-77 | new priorities override old ones, and the heap is rebuilt |
| PriorityDict.PriorityDict.SortedIter | priority_dict.py:79-86 | all keys once, in order of their priorities |
| Fairness.MaxMinFair | tree_throughput.py:483-515 | a flow with a full port on which it is fastest can gain only if a flow of that port, no faster than it, loses |
| Fairness.NoGainWithoutLoss | tree_throughput.py:483-515 | if all flows have such a port, no feasible allocation raises one without lowering one that is no faster |
| Fairness.FairIsUnique | tree_throughput.py:483-515 | there is only one such allocation, so the order of ports with equal shares does not matter |
| MaxMin.AssignFlow | tree_throughput.py:504-509 | one flow gets the rate on all its ports, and leaves them; nothing else changes |
| MaxMin.AssignPort | tree_throughput.py:501-512 | all flows of the port get its share, which fills it, and no other port gets too full |
| MaxMin.SmallestShareFits | tree_throughput.py:492-499 | the smallest share in the queue fits on every port and is no smaller than those given out before |
| MaxMin.SettleStep | tree_throughput.py:503-512 | the flows of a filled port have it as bottleneck, and earlier flows keep theirs |
| MaxMin.NextPort | tree_throughput.py:492-515 | one turn either settles a flow or shortens the queue, and keeps everything current |
| MaxMin.ComputeFlowThroughputs | tree_throughput.py:483-515 | it stops; every routed flow has a rate and a bottleneck, no port exceeds its capacity, and each port's use is the sum of its flows' rates |
| FlowPorts.AddRoute | tree_throughput.py:465-480 | a flow is listed at exactly the ports of its route: that of its host, and at each switch on its way that of the next hop |
| FlowPorts.RouteKeysAre | tree_throughput.py:465-480 | a route uses the port of its host, and at every switch its hops lead to the port of the next hop, and no other |
| FlowPorts.InitPorts | tree_throughput.py:459-481 | the same for all flows that have a path; the others are listed nowhere |
| FlowPorts.Throughputs | tree_throughput.py:459-515 | both together: the flows with a path share the capacity max-min fairly at the ports of their hosts and hops, the others get nothing, and no host sends more than its port carries |
| FlowPorts.HostKeepsCapacity | tree_throughput.py:459-515 | the flows of one host together get no more than the capacity of its port |

## Left out

- TcamPacking.NewerPackTcam: the check inside the loop that calls `entry_matches` (resnet_alg.py:853-860) is not modelled, because that function always raises an error (resnet_alg.py:700-701).
- PlinkoBuilder.Builder.FindPath: with `dfr` nothing is claimed of the links that the library's paths cross, since the program puts the same question to the library as without it.
- TreeChoice.ChooseTrees: the averages are compared as sums over the same switches, which order the trees alike, and `maxl1` is a natural number.
- TreeRouting.RandMaxDagRoute: when more trees are asked for than exist, the program first asserts that a limit on the first layer is given (tree_alg.py:1122-1123; by default there is none, and it raises an error); the model is that of a limit given, and uses all trees.
- DfrTables.OrderLayer: the comparison of RES is no order, since trees that do not reach each other are equal under it, and what sorting by it leads to depends on the sort; what is promised is what a comparison sort makes sure of, that no tree is right behind one that it reaches.
- TreeWalk.WalkInternal: the choice of the first tree among the entries for packets on no tree is a parameter; trees are numbered from 0, and the reserved number for no tree is not modelled.
- Suri.WeightedSuris: the width of numbers, 256 bits in the program, is a parameter; intervals outside that range and colours without a weight, on which the program raises KeyError, are not modelled.
- Suri.FindSolutions: prefixes that the program wraps in a one-element list are marked by a flag of the rule.
- BitWeave.BitWeave: rules without output are allowed only at the end of the table, and the table has fewer than 200000 rules.
- BitMerge.BitMerge: it is modelled for the tables that minimizing leaves, prefix rules without waste.
- PriorityDict.PriorityDict.Smallest: which of several keys of smallest priority comes first is left open, as is the inner order of the heap; an empty dictionary yields no key where the program raises IndexError.
- MaxMin.ComputeFlowThroughputs: rates are exact reals; rounding, and the tolerances with which the program checks for it, are not modelled.
- UnionFind.DisjointSets.Find: the attributes of the vertices are maps in one object instead of fields of vertex objects.
- SpanningTrees.EdstForest: sorting the forest by average path length is not modelled; the trees come in any order anyway.
- Branchings.AdstTree: that growing always succeeds is not claimed, since it depends on the cuts the library finds; the program itself allows for failure.
- VirtualChannels.AssignVcs: the dependency graphs of the paths are given, acyclic and without repeated edges, as the program asserts of them; building them from paths (resnet_dfr.py:121-201) is not modelled.
- Failed switches (`fail='vertices'`, `failedV`): all failures are failed links.
- The hop-by-hop, mpls-frr and eth-fcp forwarding models of resnet_alg.py.
- `assign_vcs_fas`: it removes only the feedback edges, so paths may be split and the loop need not stop.
- Tables for packets without headers (`nopkthdr_fwdtable`), exact-match packing, and the older packing functions that nothing calls.
- Arguments, YAML and JSON, printing, plotting, statistics over runs, and the scripts that generate topologies.
