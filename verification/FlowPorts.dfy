/** Putting flows on the ports of their paths, and sharing the capacity of the ports among them. */
module FlowPorts {
  import opened Wrappers
  import opened Fairness
  import opened MaxMin

  /** The ports of hosts, and of switches. */
  datatype Key = HostPort(host: nat) | SwitchPort(v: nat, hop: nat)

  /** Where a flow enters, and the hops it takes from switch to switch; the last one leads to its host. */
  datatype Route = Route(host: nat, v: nat, path: seq<nat>)

  /** The switch behind a port of a switch. */
  type Topology = map<(nat, nat), nat>

  /** The ports that the hops from `v` use. */
  function HopKeys(next: Topology, v: nat, path: seq<nat>): set<Key>
    decreases |path|
  {
    if path == [] then {}
    else {SwitchPort(v, path[0])} + if |path| > 1 && (v, path[0]) in next then HopKeys(next, next[(v, path[0])], path[1..]) else {}
  }

  /** Every hop but the last one leads to a switch. */
  ghost predicate Hops(next: Topology, v: nat, path: seq<nat>)
    decreases |path|
  {
    |path| > 1 ==> (v, path[0]) in next && Hops(next, next[(v, path[0])], path[1..])
  }

  function RouteKeys(next: Topology, r: Route): set<Key> {
    {HostPort(r.host)} + HopKeys(next, r.v, r.path)
  }

  /** The switches at which the hops of the route are taken. */
  ghost predicate Visits(next: Topology, r: Route, vs: seq<nat>) {
    && |vs| == |r.path| && (vs != [] ==> vs[0] == r.v)
    && forall i: nat | i + 1 < |vs| :: (vs[i], r.path[i]) in next && vs[i + 1] == next[(vs[i], r.path[i])]
  }

  ghost predicate IsHop(r: Route, vs: seq<nat>, i: nat, k: Key) {
    i < |r.path| == |vs| && k == SwitchPort(vs[i], r.path[i])
  }

  /** The key is that of the route's host, or of a hop at the switch that the hops before it lead to. */
  ghost predicate OnRoute(next: Topology, r: Route, k: Key) {
    k == HostPort(r.host) || exists vs, i: nat :: Visits(next, r, vs) && IsHop(r, vs, i, k)
  }

  lemma {:induction false} SwitchesOf(next: Topology, r: Route) returns (vs: seq<nat>)
    requires Hops(next, r.v, r.path)
    ensures Visits(next, r, vs)
    decreases |r.path|
  {
    if |r.path| > 1 {
      var rest := SwitchesOf(next, Route(r.host, next[(r.v, r.path[0])], r.path[1..]));
      vs := [r.v] + rest;
    } else {
      vs := if r.path == [] then [] else [r.v];
    }
  }

  lemma {:induction false} OneVisit(next: Topology, r: Route, vs: seq<nat>, us: seq<nat>)
    requires Visits(next, r, vs) && Visits(next, r, us)
    ensures vs == us
  {
    for i := 0 to |vs|
      invariant forall j | 0 <= j < i :: vs[j] == us[j]
    {
      assert i > 0 ==> vs[i - 1 + 1] == next[(vs[i - 1], r.path[i - 1])];
      assert i > 0 ==> us[i - 1 + 1] == next[(us[i - 1], r.path[i - 1])];
    }
  }

  lemma {:induction false} HopKeysAre(next: Topology, r: Route, vs: seq<nat>, k: Key)
    requires Visits(next, r, vs)
    ensures k in HopKeys(next, r.v, r.path) <==> exists i: nat :: IsHop(r, vs, i, k)
    decreases |r.path|
  {
    if r.path != [] {
      assert k == SwitchPort(vs[0], r.path[0]) ==> IsHop(r, vs, 0, k);
    }
    if |r.path| > 1 {
      assert vs[0 + 1] == next[(vs[0], r.path[0])];
      var rest := Route(r.host, vs[1], r.path[1..]);
      forall i: nat | i + 1 < |vs[1..]| ensures (vs[1..][i], rest.path[i]) in next && vs[1..][i + 1] == next[(vs[1..][i], rest.path[i])] {
        assert vs[(i + 1) + 1] == next[(vs[i + 1], r.path[i + 1])];
      }
      HopKeysAre(next, rest, vs[1..], k);
      if i: nat :| IsHop(rest, vs[1..], i, k) {
        assert IsHop(r, vs, i + 1, k);
      }
      if i: nat :| IsHop(r, vs, i, k) {
        assert i > 0 ==> IsHop(rest, vs[1..], i - 1, k);
      }
    }
  }

  /** A route uses the port of its host, and at each switch that its hops lead to the port of the next hop. */
  lemma RouteKeysAre(next: Topology, r: Route, k: Key)
    requires Hops(next, r.v, r.path)
    ensures k in RouteKeys(next, r) <==> OnRoute(next, r, k)
  {
    hide Visits, HopKeys, Hops, IsHop;
    var vs := SwitchesOf(next, r);
    HopKeysAre(next, r, vs, k);
    if us, i: nat :| Visits(next, r, us) && IsHop(r, us, i, k) {
      OneVisit(next, r, vs, us);
    }
  }

  ghost predicate GoodRoute(portDict: map<Key, Port>, next: Topology, r: Route) {
    Hops(next, r.v, r.path) && RouteKeys(next, r) <= portDict.Keys
  }

  /** Flows and ports list each other, as `links` says. */
  ghost predicate Linked(ports: set<Port>, flows: set<Flow>, links: set<(Flow, Port)>)
    reads ports`flows, flows`ports
  {
    && (forall l <- links :: l.0 in flows && l.1 in ports)
    && (forall p <- ports, f <- flows :: (f in p.flows <==> (f, p) in links) && (p in f.ports <==> (f, p) in links))
    && (forall p <- ports :: p.flows <= flows) && (forall f <- flows :: f.ports <= ports)
  }

  /** The links of one flow. */
  ghost function LinksOf(portDict: map<Key, Port>, f: Flow, keys: set<Key>): set<(Flow, Port)>
    requires keys <= portDict.Keys
  {
    set k <- keys :: (f, portDict[k])
  }

  method AddLink(ghost ports: set<Port>, ghost flows: set<Flow>, flow: Flow, port: Port, ghost links: set<(Flow, Port)>)
    requires Linked(ports, flows, links) && flow in flows && port in ports
    modifies flow`ports, port`flows
    ensures Linked(ports, flows, links + {(flow, port)})
  {
    port.flows := port.flows + {flow};
    flow.ports := flow.ports + {port};
  }

  /** The port of the first hop, and those of the hops behind it. */
  lemma FirstHop(next: Topology, v: nat, path: seq<nat>)
    requires path != [] && Hops(next, v, path)
    ensures |path| > 1 ==> (v, path[0]) in next && Hops(next, next[(v, path[0])], path[1..])
    ensures HopKeys(next, v, path) == {SwitchPort(v, path[0])} + if |path| > 1 then HopKeys(next, next[(v, path[0])], path[1..]) else {}
  {
  }

  lemma NoHopKeys(next: Topology, v: nat, path: seq<nat>)
    ensures path == [] ==> HopKeys(next, v, path) == {} && Hops(next, v, path)
  {
  }

  lemma LinksAdd(portDict: map<Key, Port>, f: Flow, keys: set<Key>, key: Key)
    requires keys + {key} <= portDict.Keys
    ensures LinksOf(portDict, f, {}) == {} && LinksOf(portDict, f, keys + {key}) == LinksOf(portDict, f, keys) + {(f, portDict[key])}
  {
    forall k <- keys + {key} ensures (f, portDict[k]) in LinksOf(portDict, f, keys) + {(f, portDict[key])} {
    }
    assert key in keys + {key};
    forall k <- keys ensures (f, portDict[k]) in LinksOf(portDict, f, keys + {key}) {
      assert k in keys + {key};
    }
  }

  /** Puts a flow on the port of its host and on those of its hops. */
  method AddRoute(portDict: map<Key, Port>, next: Topology, ghost flows: set<Flow>, flow: Flow, r: Route, ghost links: set<(Flow, Port)>)
    requires GoodRoute(portDict, next, r) && flow in flows && Linked(portDict.Values, flows, links)
    modifies flow`ports, portDict.Values`flows
    ensures Linked(portDict.Values, flows, links + LinksOf(portDict, flow, RouteKeys(next, r)))
  {
    hide Linked, Hops, HopKeys, LinksOf;
    assert HostPort(r.host) in portDict.Keys && {} + {HostPort(r.host)} == {HostPort(r.host)};
    LinksAdd(portDict, flow, {}, HostPort(r.host));
    AddLink(portDict.Values, flows, flow, portDict[HostPort(r.host)], links);
    ghost var all := links + {(flow, portDict[HostPort(r.host)])};
    ghost var used: set<Key> := {HostPort(r.host)};
    var v, i := r.v, 0;
    assert r.path[0..] == r.path;
    while i < |r.path|
      invariant 0 <= i <= |r.path| && Hops(next, v, r.path[i..]) && used <= portDict.Keys && Linked(portDict.Values, flows, all)
      invariant used + HopKeys(next, v, r.path[i..]) == RouteKeys(next, r) && all == links + LinksOf(portDict, flow, used)
    {
      var hop := r.path[i];
      assert r.path[i..][0] == hop && r.path[i..][1..] == r.path[i + 1..];
      var key := SwitchPort(v, hop);
      FirstHop(next, v, r.path[i..]);
      assert key in RouteKeys(next, r);
      LinksAdd(portDict, flow, used, key);
      AddLink(portDict.Values, flows, flow, portDict[key], all);
      all, used := all + {(flow, portDict[key])}, used + {key};
      NoHopKeys(next, v, r.path[i + 1..]);
      if i != |r.path| - 1 {
        v := next[(v, hop)];
      }
      i := i + 1;
    }
    assert r.path[i..] == [];
    NoHopKeys(next, v, []);
    assert used + {} == used == RouteKeys(next, r);
  }

  /** The links of all flows that have a path. */
  ghost function AllLinks(portDict: map<Key, Port>, next: Topology, routes: map<Flow, Option<Route>>, some: set<Flow>): set<(Flow, Port)>
    requires some <= routes.Keys
  {
    set f, k | f in some && routes[f].Some? && k in RouteKeys(next, routes[f].value) && k in portDict :: (f, portDict[k])
  }

  lemma LinksGrow(portDict: map<Key, Port>, next: Topology, routes: map<Flow, Option<Route>>, some: set<Flow>, f: Flow)
    requires some <= routes.Keys && f in routes
    requires routes[f].Some? ==> RouteKeys(next, routes[f].value) <= portDict.Keys
    ensures AllLinks(portDict, next, routes, some + {f}) ==
      if routes[f].Some? then AllLinks(portDict, next, routes, some) + LinksOf(portDict, f, RouteKeys(next, routes[f].value))
      else AllLinks(portDict, next, routes, some)
  {
  }

  /** Puts all flows that have a path on their ports. */
  method InitPorts(portDict: map<Key, Port>, next: Topology, routes: map<Flow, Option<Route>>)
    requires forall f <- routes | routes[f].Some? :: GoodRoute(portDict, next, routes[f].value)
    requires (forall p <- portDict.Values :: p.flows == {}) && (forall f <- routes :: f.ports == {})
    modifies routes.Keys`ports, portDict.Values`flows
    ensures Linked(portDict.Values, routes.Keys, AllLinks(portDict, next, routes, routes.Keys))
  {
    hide Linked, AllLinks, GoodRoute;
    ghost var done: set<Flow> := {};
    var todo := routes.Keys;
    NothingLinked(portDict, next, routes);
    while todo != {}
      invariant done == routes.Keys - todo && todo <= routes.Keys
      invariant Linked(portDict.Values, routes.Keys, AllLinks(portDict, next, routes, done))
    {
      var flow :| flow in todo;
      RouteFits(portDict, next, routes, flow);
      LinksGrow(portDict, next, routes, done, flow);
      if routes[flow].Some? {
        AddRoute(portDict, next, routes.Keys, flow, routes[flow].value, AllLinks(portDict, next, routes, done));
      }
      todo, done := todo - {flow}, done + {flow};
    }
    assert done == routes.Keys;
  }

  lemma NothingLinked(portDict: map<Key, Port>, next: Topology, routes: map<Flow, Option<Route>>)
    requires (forall p <- portDict.Values :: p.flows == {}) && (forall f <- routes :: f.ports == {})
    ensures Linked(portDict.Values, routes.Keys, AllLinks(portDict, next, routes, {}))
  {
  }

  lemma RouteFits(portDict: map<Key, Port>, next: Topology, routes: map<Flow, Option<Route>>, f: Flow)
    requires f in routes && (routes[f].Some? ==> GoodRoute(portDict, next, routes[f].value))
    ensures routes[f].Some? ==> RouteKeys(next, routes[f].value) <= portDict.Keys
  {
  }

  // ---------- Sharing ----------

  /** The traffic of every port. */
  function Traffic(ports: set<Port>): map<Port, set<Flow>>
    reads ports`flows
  {
    map p | p in ports :: p.flows
  }

  lemma LinkedIsWired(ports: set<Port>, flows: set<Flow>, links: set<(Flow, Port)>)
    requires Linked(ports, flows, links)
    ensures Wired(Traffic(ports), flows)
  {
    forall f <- flows ensures f.ports == Via(Traffic(ports), f) {
    }
  }

  /**
   The throughput of every flow: max-min fair, and zero for flows without a path.
   */
  method Throughputs(portDict: map<Key, Port>, next: Topology, routes: map<Flow, Option<Route>>)
    returns (ghost on: map<Port, set<Flow>>, ghost rates: map<Flow, real>)
    requires forall f <- routes | routes[f].Some? :: GoodRoute(portDict, next, routes[f].value)
    requires forall p <- portDict.Values :: p.flows == {} && p.used == 0.0
    requires forall f <- routes :: f.ports == {} && f.rate == 0.0
    modifies routes.Keys`ports, routes.Keys`rate, portDict.Values`flows, portDict.Values`used
    ensures on.Keys == portDict.Values && forall p <- on, f <- routes :: f in on[p] <==> Crosses(portDict, next, routes, f, p)
    ensures Feasible(on, rates) && AllBottlenecked(on, rates)
    ensures rates.Keys == set f <- routes | routes[f].Some?
    ensures forall f <- routes :: f.rate == if routes[f].Some? then rates[f] else 0.0
    ensures forall h: nat | HostPort(h) in portDict :: HostFlows(routes, h) <= rates.Keys && Total(HostFlows(routes, h), rates) <= CAPACITY
  {
    hide Feasible, AllBottlenecked, AllLinks, Wired, GoodRoute, OnRoute, Crosses, HostFlows;
    InitPorts(portDict, next, routes);
    var traffic := Traffic(portDict.Values);
    on := traffic;
    ghost var links := AllLinks(portDict, next, routes, routes.Keys);
    LinkedIsWired(portDict.Values, routes.Keys, links);
    assert forall p <- on, f <- routes :: f in on[p] <==> (f, p) in links;
    forall p <- on, f <- routes ensures f in on[p] <==> Crosses(portDict, next, routes, f, p) {
      LinksAre(portDict, next, routes, f, p);
    }
    RoutedHavePath(portDict, next, routes);
    rates := ComputeFlowThroughputs(traffic, routes.Keys);
    forall h: nat | HostPort(h) in portDict ensures HostFlows(routes, h) <= rates.Keys && Total(HostFlows(routes, h), rates) <= CAPACITY {
      HostKeepsCapacity(portDict, next, routes, on, rates, h);
    }
  }

  /** The flow crosses the port. */
  ghost predicate Crosses(portDict: map<Key, Port>, next: Topology, routes: map<Flow, Option<Route>>, f: Flow, p: Port)
    requires f in routes
  {
    routes[f].Some? && exists k <- portDict :: OnRoute(next, routes[f].value, k) && portDict[k] == p
  }

  lemma LinksAre(portDict: map<Key, Port>, next: Topology, routes: map<Flow, Option<Route>>, f: Flow, p: Port)
    requires f in routes && (routes[f].Some? ==> GoodRoute(portDict, next, routes[f].value))
    ensures (f, p) in AllLinks(portDict, next, routes, routes.Keys) <==> Crosses(portDict, next, routes, f, p)
  {
    hide OnRoute, RouteKeys, Hops;
    if routes[f].Some? {
      forall k <- portDict ensures k in RouteKeys(next, routes[f].value) <==> OnRoute(next, routes[f].value, k) {
        RouteKeysAre(next, routes[f].value, k);
      }
    }
  }

  /** The flows that a host sends. */
  ghost function HostFlows(routes: map<Flow, Option<Route>>, h: nat): set<Flow> {
    set f <- routes | routes[f].Some? && routes[f].value.host == h
  }

  /** A host does not send more than the capacity of its port. */
  lemma HostKeepsCapacity(portDict: map<Key, Port>, next: Topology, routes: map<Flow, Option<Route>>, on: map<Port, set<Flow>>,
                          rates: map<Flow, real>, h: nat)
    requires HostPort(h) in portDict && on.Keys == portDict.Values && Feasible(on, rates)
    requires forall p <- on, f <- routes :: f in on[p] <==> Crosses(portDict, next, routes, f, p)
    ensures HostFlows(routes, h) <= rates.Keys && Total(HostFlows(routes, h), rates) <= CAPACITY
  {
    hide Visits, IsHop;
    var p := portDict[HostPort(h)];
    forall f <- HostFlows(routes, h) ensures f in on[p] {
      assert OnRoute(next, routes[f].value, HostPort(h));
    }
    TotalOfSome(HostFlows(routes, h), on[p], rates);
  }

  lemma RoutedHavePath(portDict: map<Key, Port>, next: Topology, routes: map<Flow, Option<Route>>)
    requires forall f <- routes | routes[f].Some? :: GoodRoute(portDict, next, routes[f].value)
    requires Linked(portDict.Values, routes.Keys, AllLinks(portDict, next, routes, routes.Keys))
    ensures Routed(routes.Keys) == set f <- routes | routes[f].Some?
  {
    forall f <- routes ensures f.ports != {} <==> routes[f].Some? {
      if routes[f].Some? {
        assert HostPort(routes[f].value.host) in RouteKeys(next, routes[f].value);
        assert (f, portDict[HostPort(routes[f].value.host)]) in AllLinks(portDict, next, routes, routes.Keys);
      }
      if p :| p in f.ports {
        assert (f, p) in AllLinks(portDict, next, routes, routes.Keys);
      }
    }
  }
}
