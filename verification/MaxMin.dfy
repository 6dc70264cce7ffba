/** Water-filling: the flows of the port with the smallest fair share get that share, port after port. */
module MaxMin {
  import opened Fairness
  import opened FiniteSets
  import PD = PriorityDict

  class Flow {
    var rate: real
    var ports: set<Port>

    constructor ()
      ensures rate == 0.0 && ports == {}
    {
      rate, ports := 0.0, {};
    }
  }

  class Port {
    var used: real
    /** The flows that have no rate yet. */
    var flows: set<Flow>

    constructor ()
      ensures used == 0.0 && flows == {}
    {
      used, flows := 0.0, {};
    }

    /** What every flow without a rate would get. */
    function FlowRate(): real
      reads `used, `flows
    {
      ShareOf(used, |flows|)
    }
  }

  /** The share of `n` flows in what is not used yet. */
  function ShareOf(used: real, n: nat): real {
    if n > 0 then (CAPACITY - used) / (n as real) else 0.0
  }

  /** What the objects hold: use and remaining flows of the ports, rates of the flows. */
  datatype State = State(used: map<Port, real>, left: map<Port, set<Flow>>, rate: map<Flow, real>)

  ghost function Abs(on: map<Port, set<Flow>>, flows: set<Flow>): State
    reads on.Keys`used, on.Keys`flows, flows`rate
  {
    State(map p | p in on :: p.used, map p | p in on :: p.flows, map f | f in flows :: f.rate)
  }

  /** The ports of a flow; `on` is the traffic of each port. */
  ghost function Via(on: map<Port, set<Flow>>, f: Flow): set<Port> {
    set p <- on | f in on[p]
  }

  /** Every flow is listed at exactly its ports. */
  ghost predicate Wired(on: map<Port, set<Flow>>, flows: set<Flow>)
    reads flows`ports
  {
    && (forall p <- on :: on[p] <= flows)
    && (forall f <- flows :: f.ports == Via(on, f))
  }

  /** The state after `flow` got the rate `r` on the ports `via`. */
  ghost function Give(s: State, via: set<Port>, flow: Flow, r: real): State {
    State(map p | p in s.used :: if p in via then s.used[p] + r else s.used[p],
          map p | p in s.left :: if p in via then s.left[p] - {flow} else s.left[p],
          s.rate[flow := r])
  }

  /** Gives `flow` the rate `rate` on all its ports. */
  method AssignFlow(ghost on: map<Port, set<Flow>>, ghost flows: set<Flow>, flow: Flow, rate: real)
    requires Wired(on, flows) && flow in flows
    modifies flow`rate, flow.ports`used, flow.ports`flows
    ensures Wired(on, flows) && Abs(on, flows) == Give(old(Abs(on, flows)), Via(on, flow), flow, rate)
  {
    hide Give, Abs, Wired;
    ghost var s := Abs(on, flows);
    AbsMeans(on, flows, s);
    WiredPorts(on, flows, flow);
    flow.rate := rate;
    var todo := flow.ports;
    while todo != {}
      invariant todo <= flow.ports && flow.rate == rate
      invariant forall p <- on | p !in flow.ports || p in todo :: p.used == s.used[p] && p.flows == s.left[p]
      invariant forall p <- flow.ports - todo :: p.used == s.used[p] + rate && p.flows == s.left[p] - {flow}
    {
      var fp :| fp in todo;
      todo := todo - {fp};
      fp.used := fp.used + rate;
      fp.flows := fp.flows - {flow};
    }
    Given(on, flows, s, flow, rate);
  }

  lemma AbsMeans(on: map<Port, set<Flow>>, flows: set<Flow>, s: State)
    requires s == Abs(on, flows)
    ensures s.used.Keys == on.Keys && s.left.Keys == on.Keys && s.rate.Keys == flows
    ensures (forall p <- on :: s.used[p] == p.used && s.left[p] == p.flows) && forall f <- flows :: s.rate[f] == f.rate
  {
  }

  lemma WiredPorts(on: map<Port, set<Flow>>, flows: set<Flow>, flow: Flow)
    requires Wired(on, flows) && flow in flows
    ensures flow.ports == Via(on, flow) && flow.ports <= on.Keys
  {
  }

  lemma Given(on: map<Port, set<Flow>>, flows: set<Flow>, s: State, flow: Flow, r: real)
    requires s.used.Keys == on.Keys && s.left.Keys == on.Keys && s.rate.Keys == flows && flow in flows && flow.rate == r
    requires forall p <- on | p !in Via(on, flow) :: p.used == s.used[p] && p.flows == s.left[p]
    requires forall p <- Via(on, flow) :: p.used == s.used[p] + r && p.flows == s.left[p] - {flow}
    requires forall f <- flows | f != flow :: f.rate == s.rate[f]
    ensures Abs(on, flows) == Give(s, Via(on, flow), flow, r)
  {
    hide Via;
    var a, g := Abs(on, flows), Give(s, Via(on, flow), flow, r);
    assert a.used == g.used && a.left == g.left && a.rate == g.rate;
  }

  // ---------- What an assignment keeps ----------

  /** What the flows without a rate would use at the rate `r`. */
  ghost function Demand(n: nat, r: real): real {
    (n as real) * r
  }

  /** What a port would have to carry if all its flows without a rate got `r`. */
  ghost function Asked(s: State, p: Port, r: real): real
    requires p in s.used && p in s.left
  {
    s.used[p] + Demand(|s.left[p]|, r)
  }

  lemma DemandOneLess(before: set<Flow>, flow: Flow, r: real)
    requires flow in before
    ensures Demand(|before|, r) == r + Demand(|before - {flow}|, r)
  {
  }

  /** The fair share of a port uses it up; a smaller rate does not. */
  lemma ShareFits(used: real, n: nat, r: real)
    requires n > 0
    ensures used + Demand(n, ShareOf(used, n)) == CAPACITY
    ensures r <= ShareOf(used, n) <==> used + Demand(n, r) <= CAPACITY
  {
    var share := ShareOf(used, n);
    assert (n as real) * share == CAPACITY - used;
    if r <= share {
      assert (n as real) * r <= (n as real) * share;
    } else {
      assert (n as real) * r > (n as real) * share;
    }
  }

  ghost predicate Shaped(on: map<Port, set<Flow>>, s: State) {
    s.used.Keys == on.Keys && s.left.Keys == on.Keys
  }

  /** The state is what the rates given out so far make of it. */
  ghost predicate Ledger(on: map<Port, set<Flow>>, s: State, rates: map<Flow, real>) {
    && Shaped(on, s)
    && (forall p <- on :: s.left[p] == on[p] - rates.Keys && s.used[p] == Total(on[p] * rates.Keys, rates))
    && (forall f <- rates :: f in s.rate && s.rate[f] == rates[f])
  }

  /** No port is asked for more than its capacity if all flows without a rate get `level`. */
  ghost predicate Room(on: map<Port, set<Flow>>, s: State, level: real)
    requires Shaped(on, s)
  {
    forall p <- on :: Asked(s, p, level) <= CAPACITY
  }

  lemma TotalWith(fs: set<Flow>, rates: map<Flow, real>, flow: Flow, r: real)
    requires flow !in rates
    ensures var rates' := rates[flow := r];
      Total(fs * rates'.Keys, rates') == Total(fs * rates.Keys, rates) + if flow in fs then r else 0.0
  {
    var rates' := rates[flow := r];
    TotalSame(fs * rates.Keys, rates, rates');
    if flow in fs {
      TotalRemove(fs * rates'.Keys, rates', flow);
      assert fs * rates'.Keys - {flow} == fs * rates.Keys;
    } else {
      assert fs * rates'.Keys == fs * rates.Keys;
    }
  }

  lemma GiveLedger(on: map<Port, set<Flow>>, s: State, rates: map<Flow, real>, flow: Flow, r: real)
    requires Ledger(on, s, rates) && flow !in rates
    ensures Ledger(on, Give(s, Via(on, flow), flow, r), rates[flow := r])
  {
    hide Total;
    var s', rates' := Give(s, Via(on, flow), flow, r), rates[flow := r];
    forall p <- on ensures s'.left[p] == on[p] - rates'.Keys && s'.used[p] == Total(on[p] * rates'.Keys, rates') {
      TotalWith(on[p], rates, flow, r);
    }
  }

  /** A rate that is given out moves from what a port is asked for to what it carries. */
  lemma GiveAsked(on: map<Port, set<Flow>>, s: State, rates: map<Flow, real>, flow: Flow, r: real)
    requires Ledger(on, s, rates) && flow !in rates
    ensures Shaped(on, s) && Shaped(on, Give(s, Via(on, flow), flow, r))
    ensures forall p <- on :: Asked(Give(s, Via(on, flow), flow, r), p, r) == Asked(s, p, r)
  {
    hide Total, Demand, Asked;
    forall p <- on ensures Asked(Give(s, Via(on, flow), flow, r), p, r) == Asked(s, p, r) {
      GiveAskedAt(s, Via(on, flow), flow, r, p);
    }
  }

  lemma GiveAskedAt(s: State, via: set<Port>, flow: Flow, r: real, p: Port)
    requires p in s.used && p in s.left && (p in via ==> flow in s.left[p])
    ensures p in Give(s, via, flow, r).used && p in Give(s, via, flow, r).left && Asked(Give(s, via, flow, r), p, r) == Asked(s, p, r)
  {
    hide Demand;
    if p in via {
      DemandOneLess(s.left[p], flow, r);
    }
  }

  /** From `s0` to `s` only the ports of `updated` changed, which had flows left, and only flows of `settled` got a rate. */
  ghost predicate Since(on: map<Port, set<Flow>>, s0: State, s: State, updated: set<Port>, settled: set<Flow>) {
    && Shaped(on, s0) && Shaped(on, s) && updated <= on.Keys && s.rate.Keys == s0.rate.Keys
    && (forall p <- on | p !in updated :: s.used[p] == s0.used[p] && s.left[p] == s0.left[p])
    && (forall p <- on :: s.left[p] <= s0.left[p]) && (forall p <- updated :: s0.left[p] != {})
    && (forall f <- s.rate | f !in settled :: s.rate[f] == s0.rate[f])
  }

  /** `rates'` adds the flows of `settled`, all at the rate `r`. */
  ghost predicate Added(rates: map<Flow, real>, rates': map<Flow, real>, settled: set<Flow>, r: real) {
    rates'.Keys == rates.Keys + settled && (forall f <- rates :: rates'[f] == rates[f]) && forall f <- settled :: rates'[f] == r
  }

  /** In the middle of filling `port`: the flows of `settled` have their rate, those of `todo` not yet. */
  ghost predicate Filling(on: map<Port, set<Flow>>, s0: State, s: State, rates0: map<Flow, real>, rates: map<Flow, real>, port: Port, r: real,
                          updated: set<Port>, settled: set<Flow>, todo: set<Flow>) {
    && Ledger(on, s, rates) && Room(on, s, r) && port in on && Asked(s, port, r) == CAPACITY
    && Added(rates0, rates, settled, r) && Since(on, s0, s, updated, settled)
    && s.left[port] == todo && settled + todo == s0.left[port] && settled !! todo && settled <= on[port]
  }

  lemma StartFilling(on: map<Port, set<Flow>>, s: State, rates: map<Flow, real>, port: Port, r: real)
    requires Ledger(on, s, rates) && Room(on, s, r) && port in on && Asked(s, port, r) == CAPACITY
    ensures Filling(on, s, s, rates, rates, port, r, {}, {}, s.left[port])
  {
    hide Ledger, Asked, Since, Added, Room;
    LedgerShaped(on, s, rates);
    NothingAdded(rates, r);
    NothingSince(on, s);
  }

  lemma LedgerShaped(on: map<Port, set<Flow>>, s: State, rates: map<Flow, real>)
    requires Ledger(on, s, rates)
    ensures Shaped(on, s)
  {
  }

  lemma NothingAdded(rates: map<Flow, real>, r: real)
    ensures Added(rates, rates, {}, r)
  {
  }

  lemma NothingSince(on: map<Port, set<Flow>>, s: State)
    requires Shaped(on, s)
    ensures Since(on, s, s, {}, {})
  {
  }

  lemma FillNext(on: map<Port, set<Flow>>, s0: State, s: State, rates0: map<Flow, real>, rates: map<Flow, real>, port: Port, r: real,
                 updated: set<Port>, settled: set<Flow>, todo: set<Flow>, flow: Flow)
    requires Filling(on, s0, s, rates0, rates, port, r, updated, settled, todo) && flow in todo && flow in s.rate
    ensures Filling(on, s0, Give(s, Via(on, flow), flow, r), rates0, rates[flow := r], port, r,
                    updated + Via(on, flow), settled + {flow}, todo - {flow})
  {
    hide Ledger, Asked, Since, Added, Give, Via;
    LedgerShaped(on, s, rates);
    FlowLeft(on, s, rates, port, flow, r);
    GiveLedger(on, s, rates, flow, r);
    LedgerShaped(on, Give(s, Via(on, flow), flow, r), rates[flow := r]);
    GiveAsked(on, s, rates, flow, r);
    GiveSince(on, s0, s, rates, updated, settled, flow, r);
    AddOne(rates0, rates, settled, r, flow);
  }

  lemma FlowLeft(on: map<Port, set<Flow>>, s: State, rates: map<Flow, real>, port: Port, flow: Flow, r: real)
    requires Ledger(on, s, rates) && port in on && flow in s.left[port]
    ensures flow !in rates && flow in on[port] && Give(s, Via(on, flow), flow, r).left[port] == s.left[port] - {flow}
  {
  }

  lemma AddOne(rates: map<Flow, real>, rates': map<Flow, real>, settled: set<Flow>, r: real, flow: Flow)
    requires Added(rates, rates', settled, r) && flow !in rates'
    ensures Added(rates, rates'[flow := r], settled + {flow}, r)
  {
  }

  lemma GiveSince(on: map<Port, set<Flow>>, s0: State, s: State, rates: map<Flow, real>, updated: set<Port>, settled: set<Flow>, flow: Flow, r: real)
    requires Since(on, s0, s, updated, settled) && Ledger(on, s, rates) && flow !in rates && flow in s.rate
    ensures Since(on, s0, Give(s, Via(on, flow), flow, r), updated + Via(on, flow), settled + {flow})
  {
    hide Total;
    forall p <- Via(on, flow) ensures s0.left[p] != {} {
      assert flow in s.left[p];
    }
  }

  lemma FlowAtPort(on: map<Port, set<Flow>>, flows: set<Flow>, s: State, rates: map<Flow, real>, port: Port, flow: Flow)
    requires Wired(on, flows) && Ledger(on, s, rates) && port in on && flow in s.left[port]
    ensures flow in flows && flow.ports == Via(on, flow) && flow.ports <= on.Keys
  {
  }

  /** Gives all flows of `port` its fair share, which fills it; no other port gets too full. */
  method AssignPort(on: map<Port, set<Flow>>, flows: set<Flow>, port: Port, rate: real, ghost rates: map<Flow, real>)
    returns (updated: set<Port>, ghost rates': map<Flow, real>)
    requires Wired(on, flows) && Ledger(on, Abs(on, flows), rates) && port in on && Room(on, Abs(on, flows), rate)
    requires Asked(Abs(on, flows), port, rate) == CAPACITY
    modifies flows`rate, on.Keys`used, on.Keys`flows
    ensures Wired(on, flows)
    ensures Filling(on, old(Abs(on, flows)), Abs(on, flows), rates, rates', port, rate, updated, old(port.flows), {})
  {
    hide Wired, Ledger, Asked, Filling, Room;
    updated, rates' := {}, rates;
    ghost var s0 := Abs(on, flows);
    ghost var s := s0;
    StartFilling(on, s, rates, port, rate);
    var todo := port.flows;
    ghost var settled: set<Flow> := {};
    while todo != {}
      invariant Wired(on, flows) && s == Abs(on, flows) && settled + todo == old(port.flows)
      invariant Filling(on, s0, s, rates, rates', port, rate, updated, settled, todo)
      decreases todo
    {
      var flow :| flow in todo;
      FillingFacts(on, s0, s, rates, rates', port, rate, updated, settled, todo);
      FlowAtPort(on, flows, s, rates', port, flow);
      FillNext(on, s0, s, rates, rates', port, rate, updated, settled, todo, flow);
      AssignFlow(on, flows, flow, rate);
      s := Abs(on, flows);
      rates' := rates'[flow := rate];
      updated, settled, todo := updated + flow.ports, settled + {flow}, todo - {flow};
    }
    assert settled == old(port.flows);
  }

  lemma FillingFacts(on: map<Port, set<Flow>>, s0: State, s: State, rates0: map<Flow, real>, rates: map<Flow, real>, port: Port, r: real,
                     updated: set<Port>, settled: set<Flow>, todo: set<Flow>)
    requires Filling(on, s0, s, rates0, rates, port, r, updated, settled, todo)
    ensures Ledger(on, s, rates) && port in on && port in s.left && s.left[port] == todo
  {
  }

  // ---------- Settled flows ----------

  /** The flows with a rate have a bottleneck, and none is faster than `level`. */
  ghost predicate Settled(on: map<Port, set<Flow>>, rates: map<Flow, real>, level: real) {
    level >= 0.0 && forall f <- rates :: 0.0 <= rates[f] <= level && HasBottleneck(on, rates, f)
  }

  /** When a port is filled at a rate no smaller than those before, its flows are settled, and the others stay so. */
  lemma SettleStep(on: map<Port, set<Flow>>, rates: map<Flow, real>, level: real, port: Port, r: real, rates': map<Flow, real>, settled: set<Flow>)
    requires Settled(on, rates, level) && level <= r && port in on && Added(rates, rates', settled, r) && settled <= on[port]
    requires on[port] <= rates'.Keys && Total(on[port], rates') == CAPACITY
    ensures Settled(on, rates', r)
  {
    hide HasBottleneck;
    forall f <- rates' ensures 0.0 <= rates'[f] <= r && HasBottleneck(on, rates', f) {
      if f in rates {
        BottleneckStays(on, rates, rates', f);
      } else {
        NewBottleneck(on, rates', f, port, r);
      }
    }
  }

  lemma NewBottleneck(on: map<Port, set<Flow>>, rates: map<Flow, real>, f: Flow, port: Port, r: real)
    requires port in on && f in on[port] && on[port] <= rates.Keys && Total(on[port], rates) == CAPACITY
    requires rates[f] == r && forall g <- on[port] :: rates[g] <= r
    ensures HasBottleneck(on, rates, f)
  {
    assert Bottleneck(on, rates, f, port);
  }

  lemma NoneMissing<T>(s: set<T>, t: set<T>)
    requires s - t == {}
    ensures s <= t && s * t == s
  {
    forall x <- s ensures x in t {
      assert x in s - t || x in t;
    }
  }

  /** A port without flows left carries all its traffic. */
  lemma PortDone(on: map<Port, set<Flow>>, s: State, rates: map<Flow, real>, port: Port)
    requires Ledger(on, s, rates) && port in on && s.left[port] == {}
    ensures on[port] <= rates.Keys && Total(on[port], rates) == s.used[port]
  {
    NoneMissing(on[port], rates.Keys);
  }

  /** Filling is over: the flows of the port are settled at its rate. */
  lemma Filled(on: map<Port, set<Flow>>, s0: State, s: State, rates: map<Flow, real>, rates': map<Flow, real>, port: Port, r: real,
               updated: set<Port>, settled: set<Flow>, level: real)
    requires Filling(on, s0, s, rates, rates', port, r, updated, settled, {}) && Settled(on, rates, level) && level <= r
    ensures Settled(on, rates', r) && Ledger(on, s, rates') && Shaped(on, s) && Room(on, s, r)
    ensures Added(rates, rates', settled, r) && Since(on, s0, s, updated, settled)
  {
    hide HasBottleneck, Total, Since, Room;
    PortDone(on, s, rates', port);
    FilledAmount(s, port, r);
    SettleStep(on, rates, level, port, r, rates', settled);
  }

  lemma FilledAmount(s: State, port: Port, r: real)
    requires port in s.used && port in s.left && Asked(s, port, r) == CAPACITY && s.left[port] == {}
    ensures s.used[port] == CAPACITY
  {
  }

  // ---------- The queue ----------

  /** The queue holds current shares, and every port with flows left. */
  ghost predicate Queued(on: map<Port, set<Flow>>, s: State, queue: map<Port, real>) {
    && Shaped(on, s) && (forall p <- queue :: p in on && queue[p] == ShareOf(s.used[p], |s.left[p]|))
    && (forall p <- on :: s.left[p] != {} ==> p in queue)
  }

  /** The shares of some ports. */
  ghost function Shares(s: State, ports: set<Port>): map<Port, real>
    requires ports <= s.used.Keys && ports <= s.left.Keys
  {
    map p | p in ports :: ShareOf(s.used[p], |s.left[p]|)
  }

  /** Writes the current share of a port into the queue. */
  method UpdatePort(ghost on: map<Port, set<Flow>>, ghost flows: set<Flow>, portpq: PD.PriorityDict<Port>, up: Port, ghost s: State)
    requires portpq.Valid() && s == Abs(on, flows) && up in on
    modifies portpq
    ensures portpq.Valid() && s == Abs(on, flows) && up in s.used && up in s.left
    ensures portpq.dict == old(portpq.dict)[up := ShareOf(s.used[up], |s.left[up]|)]
  {
    hide Abs, ShareOf, portpq.Valid;
    AbsMeans(on, flows, s);
    portpq.Set(up, up.FlowRate());
  }

  /** Writes the current shares of `updated` into the queue. */
  method UpdateQueue(ghost on: map<Port, set<Flow>>, ghost flows: set<Flow>, portpq: PD.PriorityDict<Port>, updated: set<Port>, ghost s: State)
    requires portpq.Valid() && s == Abs(on, flows) && updated <= on.Keys && Shaped(on, s)
    modifies portpq
    ensures portpq.Valid() && s == Abs(on, flows) && portpq.dict == old(portpq.dict) + Shares(s, updated)
  {
    hide Shares, ShareOf, Abs, portpq.Valid;
    var todo := updated;
    ghost var done: set<Port> := {};
    NoShares(portpq.dict, s);
    while todo != {}
      invariant done == updated - todo && portpq.Valid() && s == Abs(on, flows) && portpq.dict == old(portpq.dict) + Shares(s, done)
    {
      var up :| up in todo;
      SharesAdd(old(portpq.dict), s, done, up);
      todo, done := todo - {up}, done + {up};
      UpdatePort(on, flows, portpq, up, s);
    }
    assert done == updated;
  }

  lemma NoShares(dict: map<Port, real>, s: State)
    ensures dict + Shares(s, {}) == dict
  {
  }

  lemma SharesAdd(dict: map<Port, real>, s: State, done: set<Port>, up: Port)
    requires done + {up} <= s.used.Keys && done + {up} <= s.left.Keys
    ensures (dict + Shares(s, done))[up := ShareOf(s.used[up], |s.left[up]|)] == dict + Shares(s, done + {up})
  {
  }

  /** The queue without the port, and with the new shares of the ports that changed, is current. */
  lemma StaysQueued(on: map<Port, set<Flow>>, s0: State, s: State, queue: map<Port, real>, port: Port, updated: set<Port>, settled: set<Flow>)
    requires Queued(on, s0, queue) && Since(on, s0, s, updated, settled) && port in on && s.left[port] == {}
    ensures Queued(on, s, queue - {port} + Shares(s, updated))
  {
  }

  lemma QueueIsCurrent(on: map<Port, set<Flow>>, s: State)
    requires Shaped(on, s)
    ensures Queued(on, s, Shares(s, on.Keys))
  {
  }

  /** A port that is done may leave the queue. */
  lemma Popped(on: map<Port, set<Flow>>, s: State, queue: map<Port, real>, port: Port)
    requires Queued(on, s, queue) && port in queue
    ensures port in on && Shaped(on, s) && (s.left[port] == {} ==> Queued(on, s, queue - {port}))
  {
  }

  lemma AllPopped(on: map<Port, set<Flow>>, s: State, queue: map<Port, real>)
    requires Queued(on, s, queue) && |queue| == 0
    ensures Shaped(on, s) && forall p <- on :: s.left[p] == {}
  {
  }

  /** The smallest share in the queue fits on every port, and is no smaller than the level reached. */
  lemma SmallestShareFits(on: map<Port, set<Flow>>, s: State, queue: map<Port, real>, level: real, port: Port)
    requires Queued(on, s, queue) && Room(on, s, level) && PD.IsSmallest(queue, port) && s.left[port] != {}
    ensures var r := ShareOf(s.used[port], |s.left[port]|); level <= r && Room(on, s, r) && Asked(s, port, r) == CAPACITY
  {
    hide ShareOf;
    var r := ShareOf(s.used[port], |s.left[port]|);
    assert Asked(s, port, level) <= CAPACITY;
    ShareFits(s.used[port], |s.left[port]|, level);
    forall p <- on ensures Asked(s, p, r) <= CAPACITY {
      assert Asked(s, p, level) <= CAPACITY;
      if s.left[p] != {} {
        assert p in queue && queue[port] <= queue[p];
        ShareFits(s.used[p], |s.left[p]|, r);
      }
    }
  }

  // ---------- The whole allocation ----------

  /** The flows with a path. */
  ghost function Routed(flows: set<Flow>): set<Flow>
    reads flows`ports
  {
    set f <- flows | f.ports != {}
  }

  /** Between two ports: everything is as the rates say, and the queue is current. */
  ghost predicate Running(on: map<Port, set<Flow>>, flows: set<Flow>, s0: State, s: State, rates: map<Flow, real>, level: real, queue: map<Port, real>) {
    && Ledger(on, s, rates) && Room(on, s, level) && Settled(on, rates, level) && Queued(on, s, queue) && rates.Keys <= flows
    && s0.rate.Keys == s.rate.Keys == flows && forall f <- flows | f !in rates :: s.rate[f] == s0.rate[f]
  }

  lemma RunningStarts(on: map<Port, set<Flow>>, flows: set<Flow>, s: State)
    requires Shaped(on, s) && s.rate.Keys == flows && forall p <- on :: s.used[p] == 0.0 && s.left[p] == on[p]
    ensures Running(on, flows, s, s, map[], 0.0, Shares(s, on.Keys))
  {
    hide Shares, ShareOf, HasBottleneck;
    var none: map<Flow, real> := map[];
    QueueIsCurrent(on, s);
    forall p <- on ensures s.left[p] == on[p] - none.Keys && s.used[p] == Total(on[p] * none.Keys, none) {
      assert on[p] * none.Keys == {};
    }
  }

  lemma RunningPop(on: map<Port, set<Flow>>, flows: set<Flow>, s0: State, s: State, rates: map<Flow, real>, level: real, queue: map<Port, real>, port: Port)
    requires Running(on, flows, s0, s, rates, level, queue) && PD.IsSmallest(queue, port)
    ensures port in on && Shaped(on, s) && Ledger(on, s, rates)
    ensures if s.left[port] == {} then Running(on, flows, s0, s, rates, level, queue - {port})
      else var r := ShareOf(s.used[port], |s.left[port]|); level <= r && Room(on, s, r) && Asked(s, port, r) == CAPACITY
  {
    hide Ledger, Room, Settled, Queued, ShareOf;
    LedgerShaped(on, s, rates);
    Popped(on, s, queue, port);
    if s.left[port] != {} {
      SmallestShareFits(on, s, queue, level, port);
    }
  }

  lemma RunningFilled(on: map<Port, set<Flow>>, flows: set<Flow>, s0: State, s1: State, s: State, rates: map<Flow, real>, rates': map<Flow, real>,
                      level: real, queue: map<Port, real>, port: Port, r: real, updated: set<Port>, settled: set<Flow>)
    requires Running(on, flows, s0, s1, rates, level, queue) && Filling(on, s1, s, rates, rates', port, r, updated, settled, {}) && level <= r
    requires settled != {} && s.rate.Keys == flows && settled <= flows
    ensures updated <= on.Keys && Shaped(on, s)
    ensures Running(on, flows, s0, s, rates', r, queue - {port} + Shares(s, updated))
    ensures |flows - rates'.Keys| < |flows - rates.Keys|
  {
    hide Ledger, Room, Settled, Queued, Shares, Added, Asked;
    Filled(on, s1, s, rates, rates', port, r, updated, settled, level);
    StaysQueued(on, s1, s, queue, port, updated, settled);
    FewerLeft(flows, s1, on, rates, rates', port, settled, r);
  }

  lemma FewerLeft(flows: set<Flow>, s: State, on: map<Port, set<Flow>>, rates: map<Flow, real>, rates': map<Flow, real>, port: Port, settled: set<Flow>, r: real)
    requires Added(rates, rates', settled, r) && settled != {} && settled <= flows && rates.Keys <= flows
    requires Ledger(on, s, rates) && port in on && settled == s.left[port]
    ensures rates'.Keys <= flows && |flows - rates'.Keys| < |flows - rates.Keys|
    ensures forall f | f !in rates' :: f !in rates && f !in settled
  {
    hide Total;
    assert settled !! rates.Keys;
    Smaller(flows, rates.Keys, settled);
  }

  lemma Smaller<T>(all: set<T>, done: set<T>, more: set<T>)
    requires more != {} && more <= all && more !! done
    ensures |all - (done + more)| < |all - done|
  {
    var x :| x in more;
    SubsetSize(all - (done + more), all - done - {x});
  }

  /**
   The max-min fair allocation: it is feasible, every routed flow has a bottleneck, and flows without a path get
   nothing.
   */
  method ComputeFlowThroughputs(on: map<Port, set<Flow>>, flows: set<Flow>) returns (ghost rates: map<Flow, real>)
    requires Wired(on, flows) && forall p <- on :: p.used == 0.0 && p.flows == on[p]
    modifies flows`rate, on.Keys`used, on.Keys`flows
    ensures rates.Keys == Routed(flows) && forall f <- flows :: f.rate == if f in rates then rates[f] else old(f.rate)
    ensures Feasible(on, rates) && AllBottlenecked(on, rates)
    ensures forall p <- on :: p.flows == {} && p.used == Total(on[p], rates)
  {
    hide Wired, Running, Feasible, AllBottlenecked, Total, Routed, Abs;
    ghost var level, s0 := 0.0, Abs(on, flows);
    ghost var s := s0;
    rates := map[];
    AbsMeans(on, flows, s);
    var portpq := StartQueue(on, flows, s);
    while |portpq.dict| > 0
      invariant fresh(portpq) && portpq.Valid() && Wired(on, flows) && s == Abs(on, flows)
      invariant Running(on, flows, s0, s, rates, level, portpq.dict)
      decreases |flows - rates.Keys|, |portpq.dict|
    {
      level, s, rates := NextPort(on, flows, portpq, s0, s, rates, level);
    }
    Finished(on, flows, s0, s, rates, level, portpq.dict);
    AbsMeans(on, flows, s);
  }

  /** The queue of all ports, by their shares. */
  method StartQueue(on: map<Port, set<Flow>>, ghost flows: set<Flow>, ghost s: State) returns (portpq: PD.PriorityDict<Port>)
    requires s == Abs(on, flows) && forall p <- on :: p.used == 0.0 && p.flows == on[p]
    ensures fresh(portpq) && portpq.Valid() && s == Abs(on, flows)
    ensures Running(on, flows, s, s, map[], 0.0, portpq.dict)
  {
    hide Running, Abs, Shares;
    AbsMeans(on, flows, s);
    RunningStarts(on, flows, s);
    portpq := new PD.PriorityDict<Port>(map[]);
    UpdateQueue(on, flows, portpq, on.Keys, s);
    NoQueueYet(s, on.Keys);
  }

  lemma NoQueueYet(s: State, ports: set<Port>)
    requires ports <= s.used.Keys && ports <= s.left.Keys
    ensures map[] + Shares(s, ports) == Shares(s, ports)
  {
  }

  /** One turn of the loop: a port without flows leaves the queue, any other one is filled. */
  method NextPort(on: map<Port, set<Flow>>, flows: set<Flow>, portpq: PD.PriorityDict<Port>,
                  ghost s0: State, ghost s: State, ghost rates: map<Flow, real>, ghost level: real)
    returns (ghost level': real, ghost s': State, ghost rates': map<Flow, real>)
    requires Wired(on, flows) && s == Abs(on, flows) && Running(on, flows, s0, s, rates, level, portpq.dict)
    requires portpq.Valid() && |portpq.dict| > 0
    modifies portpq, flows`rate, on.Keys`used, on.Keys`flows
    ensures Wired(on, flows) && s' == Abs(on, flows) && Running(on, flows, s0, s', rates', level', portpq.dict) && portpq.Valid()
    ensures |flows - rates'.Keys| < |flows - rates.Keys| || (rates' == rates && |portpq.dict| < |old(portpq.dict)|)
  {
    hide Wired, Running, Ledger, Room, Asked, Abs, portpq.Valid;
    ghost var queue := portpq.dict;
    var popped := portpq.PopSmallest();
    var port := popped.value;
    RunningPop(on, flows, s0, s, rates, level, queue, port);
    AbsMeans(on, flows, s);
    level', s', rates' := level, s, rates;
    if port.flows != {} {
      level', s', rates' := FillPort(on, flows, portpq, queue, port, s0, s, rates, level);
    } else {
      QueueShrinks(queue, port);
    }
  }

  lemma QueueShrinks(queue: map<Port, real>, port: Port)
    requires port in queue
    ensures |queue - {port}| < |queue|
  {
    assert queue.Keys == (queue - {port}).Keys + {port};
  }

  /** Fills the port that was popped, and updates the queue. */
  method FillPort(on: map<Port, set<Flow>>, flows: set<Flow>, portpq: PD.PriorityDict<Port>, ghost queue: map<Port, real>, port: Port,
                  ghost s0: State, ghost s: State, ghost rates: map<Flow, real>, ghost level: real)
    returns (ghost level': real, ghost s': State, ghost rates': map<Flow, real>)
    requires Wired(on, flows) && s == Abs(on, flows) && Running(on, flows, s0, s, rates, level, queue) && Shaped(on, s) && Ledger(on, s, rates)
    requires portpq.Valid() && portpq.dict == queue - {port} && port in on && port.flows != {}
    requires level <= port.FlowRate() && Room(on, s, port.FlowRate()) && Asked(s, port, port.FlowRate()) == CAPACITY
    modifies portpq, flows`rate, on.Keys`used, on.Keys`flows
    ensures Wired(on, flows) && s' == Abs(on, flows) && Running(on, flows, s0, s', rates', level', portpq.dict) && portpq.Valid()
    ensures |flows - rates'.Keys| < |flows - rates.Keys|
  {
    hide Wired, Running, Filling, Shares, Asked, Room, Ledger, Abs;
    ghost var settled := port.flows;
    SettledAreFlows(on, flows, s, rates, port, settled);
    var rate := port.FlowRate();
    var updated;
    updated, rates' := AssignPort(on, flows, port, rate, rates);
    level', s' := rate, Abs(on, flows);
    AbsMeans(on, flows, s');
    RunningFilled(on, flows, s0, s, s', rates, rates', level, queue, port, rate, updated, settled);
    UpdateQueue(on, flows, portpq, updated, s');
  }

  lemma SettledAreFlows(on: map<Port, set<Flow>>, flows: set<Flow>, s: State, rates: map<Flow, real>, port: Port, settled: set<Flow>)
    requires Wired(on, flows) && s == Abs(on, flows) && port in on && Ledger(on, s, rates) && settled == port.flows
    ensures settled <= flows
  {
  }

  lemma Finished(on: map<Port, set<Flow>>, flows: set<Flow>, s0: State, s: State, rates: map<Flow, real>, level: real, queue: map<Port, real>)
    requires Wired(on, flows) && Running(on, flows, s0, s, rates, level, queue) && |queue| == 0
    ensures rates.Keys == Routed(flows) && Feasible(on, rates) && AllBottlenecked(on, rates)
    ensures Shaped(on, s) && forall p <- on :: s.left[p] == {} && on[p] <= rates.Keys && s.used[p] == Total(on[p], rates)
    ensures s0.rate.Keys == flows && s.rate.Keys == flows && forall f <- flows :: s.rate[f] == if f in rates then rates[f] else s0.rate[f]
  {
    hide Wired, HasBottleneck, Routed, Total, Queued, Demand;
    AllPopped(on, s, queue);
    forall p <- on ensures on[p] <= rates.Keys && s.used[p] == Total(on[p], rates) <= CAPACITY {
      PortDone(on, s, rates, p);
      UsedFits(on, s, level, p);
    }
    RoutedAll(on, flows, rates);
  }

  lemma UsedFits(on: map<Port, set<Flow>>, s: State, level: real, p: Port)
    requires Shaped(on, s) && Room(on, s, level) && p in on && s.left[p] == {}
    ensures s.used[p] <= CAPACITY
  {
    assert Asked(s, p, level) <= CAPACITY;
  }

  lemma RoutedAll(on: map<Port, set<Flow>>, flows: set<Flow>, rates: map<Flow, real>)
    requires Wired(on, flows) && rates.Keys <= flows && (forall p <- on :: on[p] <= rates.Keys)
    requires forall f <- rates :: HasBottleneck(on, rates, f)
    ensures rates.Keys == Routed(flows)
  {
    hide HasBottleneck, Wired;
    forall f <- Routed(flows) ensures f in rates {
      PortOfFlow(on, flows, f);
    }
    forall f <- rates ensures f in Routed(flows) {
      FlowHasPort(on, flows, rates, f);
    }
  }

  lemma PortOfFlow(on: map<Port, set<Flow>>, flows: set<Flow>, f: Flow)
    requires Wired(on, flows) && f in Routed(flows)
    ensures exists p <- on :: f in on[p]
  {
    var p :| p in f.ports;
    assert p in on && f in on[p];
  }

  lemma FlowHasPort(on: map<Port, set<Flow>>, flows: set<Flow>, rates: map<Flow, real>, f: Flow)
    requires Wired(on, flows) && f in flows && HasBottleneck(on, rates, f)
    ensures f in Routed(flows)
  {
    var p :| p in on && Bottleneck(on, rates, f, p);
    assert p in Via(on, f);
  }
}
